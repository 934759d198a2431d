/**
 * The stall watchdog around one transfer: it polls the transferred byte count and gives up when the count
 * stays put for too long. Times are in seconds.
 */
module Watchdog {
  import opened Prelude

  /** One wake-up: when, the byte count if the file is still tracked, and whether the limiter is off. */
  datatype Poll = Poll(now: real, bytes: Option<nat>, unlimited: bool)

  /** The loop's variables. */
  datatype Watch = Watch(seen: nat, since: Option<real>)

  /** The configured idle time is at least five seconds. */
  function Idle(configured: real): (t: real) { if configured >= 5.0 then configured else 5.0 }

  function Period(configured: real): (t: real)
  {
    var quarter := Idle(configured) / 4.0;
    if quarter >= 1.0 then quarter else 1.0
  }

  /** Under a rate cap the budget is four times as long. */
  function Budget(configured: real, p: Poll): (t: real)
  {
    if p.unlimited then Idle(configured) else Idle(configured) * 4.0
  }

  function Observed(w: Watch, p: Poll): (n: nat) { if p.bytes.Some? then p.bytes.value else w.seen }

  /** Every byte is out: a finishing phase that legitimately moves nothing. */
  predicate Finalizing(total: nat, n: nat) { total > 0 && n >= total }

  predicate Stalls(w: Watch, total: nat, configured: real, p: Poll)
  {
    && !Finalizing(total, Observed(w, p)) && Observed(w, p) == w.seen
    && w.since.Some? && p.now - w.since.value >= Budget(configured, p)
  }

  function Step(w: Watch, total: nat, p: Poll): (w': Watch)
  {
    var n := Observed(w, p);
    if Finalizing(total, n) || n != w.seen then Watch(n, None)
    else if w.since.None? then Watch(w.seen, Some(p.now))
    else w
  }

  /** The variables after the first i polls. */
  function After(start: nat, total: nat, ps: seq<Poll>, i: nat): (w: Watch)
    requires i <= |ps|
  {
    if i == 0 then Watch(start, None) else Step(After(start, total, ps, i - 1), total, ps[i - 1])
  }

  /** One wake-up of the guard. */
  method Wake(seen: nat, idleSince: Option<real>, total: nat, configured: real, p: Poll)
    returns (stall: bool, seen': nat, idleSince': Option<real>)
    ensures stall <==> Stalls(Watch(seen, idleSince), total, configured, p)
    ensures !stall ==> Watch(seen', idleSince') == Step(Watch(seen, idleSince), total, p)
  {
    stall, seen', idleSince' := false, seen, idleSince;
    var now := if p.bytes.Some? then p.bytes.value else seen;
    if total > 0 && now >= total {
      seen', idleSince' := now, None;
    } else if now != seen {
      seen', idleSince' := now, None;
    } else if idleSince.None? {
      idleSince' := Some(p.now);
    } else {
      stall := p.now - idleSince.value >= Budget(configured, p);
    }
  }

  /** None of the first i polls stalls. */
  predicate Calm(start: nat, total: nat, configured: real, ps: seq<Poll>, i: nat)
    requires i <= |ps|
  {
    i == 0 || (Calm(start, total, configured, ps, i - 1)
      && !Stalls(After(start, total, ps, i - 1), total, configured, ps[i - 1]))
  }

  lemma {:induction false} CalmBefore(start: nat, total: nat, configured: real, ps: seq<Poll>, i: nat, j: nat)
    requires j < i <= |ps| && Calm(start, total, configured, ps, i)
    ensures !Stalls(After(start, total, ps, j), total, configured, ps[j])
  {
    if j < i - 1 { CalmBefore(start, total, configured, ps, i - 1, j); }
  }

  /**
   * The guard loop over the polls that happen before the operation completes: the index at which it gives up, if any.
   */
  method GuardStall(start: nat, total: nat, configured: real, ps: seq<Poll>) returns (stalled: Option<nat>)
    ensures stalled.Some? ==>
              && stalled.value < |ps|
              && Stalls(After(start, total, ps, stalled.value), total, configured, ps[stalled.value])
    ensures Calm(start, total, configured, ps, if stalled.Some? then stalled.value else |ps|)
  {
    var seen: nat, idleSince: Option<real> := start, None;
    var i := 0;
    while i < |ps|
      invariant i <= |ps| && Watch(seen, idleSince) == After(start, total, ps, i)
      invariant Calm(start, total, configured, ps, i)
    {
      var stall;
      stall, seen, idleSince := Wake(seen, idleSince, total, configured, ps[i]);
      if stall { return Some(i); }
      i := i + 1;
    }
    stalled := None;
  }

  /** Polls j..k all saw the same count, and not all bytes were out. */
  predicate Frozen(start: nat, total: nat, ps: seq<Poll>, j: nat, k: nat)
    requires k < |ps|
  {
    forall i | j <= i <= k ::
      var n := Observed(After(start, total, ps, i), ps[i]);
      n == Observed(After(start, total, ps, k), ps[k]) && (total == 0 || n < total)
  }

  /** An armed watch remembers a poll since which nothing moved. */
  lemma {:induction false} ArmedSince(start: nat, total: nat, ps: seq<Poll>, i: nat) returns (j: nat)
    requires i <= |ps| && After(start, total, ps, i).since.Some?
    ensures j < i && After(start, total, ps, i).since == Some(ps[j].now)
    ensures forall n | j <= n < i :: Observed(After(start, total, ps, n), ps[n]) == After(start, total, ps, i).seen
    ensures !Finalizing(total, After(start, total, ps, i).seen)
  {
    var w := After(start, total, ps, i - 1);
    if w.since.None? {
      j := i - 1;
    } else {
      j := ArmedSince(start, total, ps, i - 1);
    }
  }

  /**
   * No false alarm: giving up means the count stood still, below the total, over polls spanning at least the
   * configured time, at least five seconds of it, and four times that under a rate cap.
   */
  lemma StallIsReal(start: nat, total: nat, configured: real, ps: seq<Poll>, k: nat) returns (j: nat)
    requires k < |ps| && Stalls(After(start, total, ps, k), total, configured, ps[k])
    ensures j < k && Frozen(start, total, ps, j, k)
    ensures ps[k].now - ps[j].now >= Budget(configured, ps[k])
    ensures var idle := if configured > 5.0 then configured else 5.0;
            ps[k].now - ps[j].now >= if ps[k].unlimited then idle else 4.0 * idle
  {
    j := ArmedSince(start, total, ps, k);
  }

  /** Polls come one period apart. */
  predicate EvenlySpaced(ps: seq<Poll>, period: real)
  {
    forall i | 0 <= i < |ps| - 1 :: ps[i + 1].now == ps[i].now + period
  }

  /** At poll f the count is v, from then on it stays or is no longer tracked, and the limiter mode does not change. */
  predicate FrozenFrom(ps: seq<Poll>, f: nat, v: nat, total: nat, unlimited: bool)
    requires f < |ps|
  {
    && (total == 0 || v < total) && ps[f].bytes == Some(v)
    && forall i | f <= i < |ps| :: (ps[i].bytes == Some(v) || ps[i].bytes == None) && ps[i].unlimited == unlimited
  }

  lemma ArmedBefore(start: nat, total: nat, ps: seq<Poll>, i: nat)
    requires i < |ps| && forall n | 0 <= n < |ps| - 1 :: ps[n].now <= ps[n + 1].now
    ensures var w := After(start, total, ps, i); w.since.Some? ==> w.since.value <= ps[i].now
  {
    if After(start, total, ps, i).since.Some? {
      var j := ArmedSince(start, total, ps, i);
      TimesRise(ps, j, i);
    }
  }

  lemma {:induction false} FrozenArms(start: nat, total: nat, ps: seq<Poll>, f: nat, v: nat, unlimited: bool, i: nat)
    requires f + 1 < i <= |ps| && FrozenFrom(ps, f, v, total, unlimited)
    requires forall n | 0 <= n < |ps| - 1 :: ps[n].now <= ps[n + 1].now
    ensures var w := After(start, total, ps, i); w.seen == v && w.since.Some? && w.since.value <= ps[f + 1].now
  {
    if i == f + 2 {
      assert After(start, total, ps, f + 1).seen == v;
      ArmedBefore(start, total, ps, f + 1);
    } else {
      FrozenArms(start, total, ps, f, v, unlimited, i - 1);
    }
  }

  lemma {:induction false} TimesRise(ps: seq<Poll>, i: nat, j: nat)
    requires i <= j < |ps| && forall n | 0 <= n < |ps| - 1 :: ps[n].now <= ps[n + 1].now
    ensures ps[i].now <= ps[j].now
  {
    if i < j { TimesRise(ps, i, j - 1); }
  }

  /** The first poll at least b after poll lo. */
  lemma {:induction false} FirstLate(ps: seq<Poll>, lo: nat, hi: nat, b: real) returns (k: nat)
    requires lo <= hi < |ps| && ps[hi].now - ps[lo].now >= b > 0.0
    ensures lo < k <= hi && ps[k].now - ps[lo].now >= b > ps[k - 1].now - ps[lo].now
  {
    if ps[hi - 1].now - ps[lo].now >= b { k := FirstLate(ps, lo, hi - 1, b); } else { k := hi; }
  }

  /**
   * No missed stall: if a transfer freezes below its total at time t, with polls one period apart and going on
   * for the budget, the guard gives up at some poll no later than t plus the budget plus three periods, which is
   * 1.75 times the idle time without a rate cap and 4.75 times under one.
   */
  lemma FreezeIsCaught(start: nat, total: nat, configured: real, ps: seq<Poll>, f: nat, v: nat, unlimited: bool,
                       t: real)
    returns (k: nat)
    requires f + 1 < |ps| && EvenlySpaced(ps, Period(configured)) && FrozenFrom(ps, f, v, total, unlimited)
    requires ps[f].now <= t + Period(configured)
    requires ps[|ps| - 1].now - ps[f + 1].now >= Budget(configured, ps[f])
    ensures k < |ps| && Stalls(After(start, total, ps, k), total, configured, ps[k])
    ensures ps[k].now <= t + Budget(configured, ps[k]) + 3.0 * Period(configured)
    ensures var idle := if configured > 5.0 then configured else 5.0;
            ps[k].now <= t + (if unlimited then 1.75 else 4.75) * idle
  {
    forall n | 0 <= n < |ps| - 1 ensures ps[n].now <= ps[n + 1].now {
      assert ps[n + 1].now == ps[n].now + Period(configured);
    }
    k := FirstLate(ps, f + 1, |ps| - 1, Budget(configured, ps[f]));
    FrozenArms(start, total, ps, f, v, unlimited, k);
    assert ps[f + 1].now == ps[f].now + Period(configured);
    assert ps[k].now == ps[k - 1].now + Period(configured);
  }
}
