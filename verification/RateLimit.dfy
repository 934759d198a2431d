/**
 * The shared token bucket. Time and tokens are reals; one event is one pass of some acquirer through the
 * lock, with the rate it had loaded, so a run is any interleaving of any number of acquirers.
 */
module RateLimit {
  import opened Prelude
  import opened Layout

  const BURST_FLOOR: real := 1048576.0

  type Amount = x: real | x >= 0.0

  datatype Bucket = Bucket(tokens: real, last: real)

  datatype Event = Event(now: real, rate: Amount, need: Amount)

  function Cap(rate: Amount): (c: real)
  {
    if rate <= BURST_FLOOR then BURST_FLOOR else rate
  }

  /** Bytes that flow in a span of time at a rate. */
  function Flow(t: real, r: real): (x: real) { t * r }

  function Refilled(b: Bucket, rate: Amount, now: real): (b': Bucket)
  {
    var t := b.tokens + Flow(now - b.last, rate);
    Bucket(if t <= Cap(rate) then t else Cap(rate), now)
  }

  predicate Grants(b: Bucket, e: Event) { Refilled(b, e.rate, e.now).tokens >= e.need }

  /** Refill; debit if there is enough. */
  function Step(b: Bucket, e: Event): (b': Bucket)
  {
    var r := Refilled(b, e.rate, e.now);
    if Grants(b, e) then r.(tokens := r.tokens - e.need) else r
  }

  function WaitFor(b: Bucket, e: Event): (w: real)
    requires e.rate > 0.0
  {
    (e.need - Refilled(b, e.rate, e.now).tokens) / e.rate
  }

  function Run(b: Bucket, es: seq<Event>): (b': Bucket)
  {
    if es == [] then b else Step(Run(b, es[..|es| - 1]), es[|es| - 1])
  }

  /** Bytes granted over a run. */
  function Granted(b: Bucket, es: seq<Event>): (n: Amount)
  {
    if es == [] then 0.0
    else
      var init, e := es[..|es| - 1], es[|es| - 1];
      Granted(b, init) + if Grants(Run(b, init), e) then e.need else 0.0
  }

  function EndTime(es: seq<Event>, start: real): (t: real) { if es == [] then start else es[|es| - 1].now }

  /** Time never runs backwards and every loaded rate is nonzero and at most `top`. */
  predicate Legal(es: seq<Event>, start: real, top: Amount)
  {
    es == [] || (
      var init, e := es[..|es| - 1], es[|es| - 1];
      Legal(init, start, top) && 0.0 < e.rate <= top && e.now >= EndTime(init, start))
  }

  predicate Sane(b: Bucket) { b.tokens >= 0.0 }

  /** The limiter object; `Try` is the critical section, `Acquire` the waiting loop of a lone caller. */
  class RateLimiter {
    var rate: Amount
    var tokens: real
    var lastRefill: real

    constructor (bytesPerSec: Amount, now: real)
      ensures rate == bytesPerSec && tokens == 0.0 && lastRefill == now
    {
      rate, tokens, lastRefill := bytesPerSec, 0.0, now;
    }

    ghost function View(): (b: Bucket)
      reads this
    {
      Bucket(tokens, lastRefill)
    }

    method SetRate(bytesPerSec: Amount)
      modifies this`rate
      ensures rate == bytesPerSec
    {
      rate := bytesPerSec;
    }

    /** One pass under the lock with the rate loaded before it. */
    method Try(loaded: Amount, now: real, n: Amount) returns (wait: Option<real>)
      requires loaded > 0.0
      modifies this`tokens, this`lastRefill
      ensures View() == Step(old(View()), Event(now, loaded, n))
      ensures wait == if Grants(old(View()), Event(now, loaded, n)) then None
              else Some(WaitFor(old(View()), Event(now, loaded, n)))
    {
      var r := loaded;
      var capacity := if r <= BURST_FLOOR then BURST_FLOOR else r;
      var elapsed := now - lastRefill;
      lastRefill := now;
      var t := tokens + Flow(elapsed, r);
      tokens := if t <= capacity then t else capacity;
      if tokens >= n {
        tokens := tokens - n;
        return None;
      }
      wait := Some((n - tokens) / r);
    }

    /**
     * A lone caller at a fixed rate, given up after `patience` sleeps (the callers race the wait against a cancel).
     * Unlimited returns at once; a request that fits the burst is granted after at most one sleep, however long it
     * oversleeps; one that does not fit is never granted, however patient the caller.
     */
    method Acquire(n: Amount, now: real, oversleep: nat -> real, patience: nat)
      returns (granted: bool, sleeps: nat, end: real)
      requires tokens >= 0.0 && lastRefill <= now && forall i :: oversleep(i) >= 0.0
      modifies this`tokens, this`lastRefill
      ensures sleeps <= patience && (sleeps == 0 ==> end == now)
      ensures rate == 0.0 ==> granted && sleeps == 0 && View() == old(View())
      ensures rate > 0.0 && n <= Cap(rate) ==> sleeps <= 1 && (granted || patience == 0)
      ensures rate > 0.0 && n > Cap(rate) ==> !granted && sleeps == patience
      ensures rate > 0.0 && n <= Cap(rate) && sleeps == 1 ==>
                var tried := Event(now, rate, n);
                && end == now + WaitFor(old(View()), tried) + oversleep(0)
                && View() == Step(Step(old(View()), tried), Event(end, rate, n))
      ensures rate > 0.0 && sleeps == 0 ==>
                View() == Step(old(View()), Event(now, rate, n)) && granted == Grants(old(View()), Event(now, rate, n))
    {
      granted, sleeps, end := true, 0, now;
      if rate == 0.0 { return; }
      var wait := Try(rate, end, n);
      while wait.Some?
        invariant sleeps <= patience && (sleeps == 0 ==> end == now)
        invariant n <= Cap(rate) ==> sleeps == 0 || (sleeps == 1 && wait.None?)
        invariant n > Cap(rate) ==> wait.Some?
        invariant n <= Cap(rate) && sleeps == 1 ==>
                    var tried := Event(now, rate, n);
                    && end == now + WaitFor(old(View()), tried) + oversleep(0)
                    && View() == Step(Step(old(View()), tried), Event(end, rate, n))
        invariant wait.Some? && sleeps == 0 ==> wait.value == WaitFor(old(View()), Event(now, rate, n))
        invariant wait.Some? ==> tokens < n && lastRefill == end && wait.value == (n - tokens) / rate
        invariant sleeps == 0 ==> View() == Step(old(View()), Event(now, rate, n))
        invariant sleeps == 0 ==> (wait.None? <==> Grants(old(View()), Event(now, rate, n)))
        decreases patience - sleeps
      {
        if sleeps == patience { return false, sleeps, end; }
        if n <= Cap(rate) { DeficitRefills(View(), rate, n, wait.value, oversleep(sleeps)); }
        end := end + wait.value + oversleep(sleeps);
        sleeps := sleeps + 1;
        wait := Try(rate, end, n);
      }
    }
  }

  /** Sleeping for the computed deficit always suffices when the request fits the capacity. */
  lemma DeficitRefills(b: Bucket, rate: Amount, n: Amount, wait: real, over: real)
    requires rate > 0.0 && n <= Cap(rate) && b.tokens < n && over >= 0.0
    requires wait == (n - b.tokens) / rate
    ensures wait > 0.0 && Grants(b, Event(b.last + wait + over, rate, n))
  {
  }

  /** The computed wait is exact: after a pass that was not granted, a request that fits is granted from then on. */
  lemma EarliestGrant(b: Bucket, e: Event, t: real)
    requires e.rate > 0.0 && !Grants(b, e) && e.need <= Cap(e.rate) && t >= e.now
    ensures Grants(Step(b, e), Event(t, e.rate, e.need)) <==> t >= e.now + WaitFor(b, e)
  {
    var deficit, w := e.need - Refilled(b, e.rate, e.now).tokens, WaitFor(b, e);
    Quotient(deficit, e.rate);
    assert Flow(t - e.now, e.rate) - Flow(w, e.rate) == (t - e.now - w) * e.rate;
  }

  lemma Quotient(x: real, r: real)
    requires r > 0.0
    ensures Flow(x / r, r) == x && (x > 0.0 ==> x / r > 0.0) && (x >= 0.0 ==> x / r >= 0.0)
  {
  }

  lemma MulNonNeg(t: real, r: real)
    requires t >= 0.0 && r >= 0.0
    ensures Flow(t, r) >= 0.0
  {
  }

  lemma MulMono(t: real, r: real, s: real)
    requires t >= 0.0 && r <= s
    ensures Flow(t, r) <= Flow(t, s)
  {
  }

  lemma CapMono(r: Amount, s: Amount)
    requires r <= s
    ensures Cap(r) <= Cap(s)
  {
  }

  /** Bytes granted by one pass. */
  function Grant(b: Bucket, e: Event): (n: Amount) { if Grants(b, e) then e.need else 0.0 }

  /** Refilling adds at most the flow of the elapsed time, and never exceeds one burst. */
  lemma RefillBounds(b: Bucket, rate: Amount, now: real, top: Amount)
    requires Sane(b) && 0.0 < rate <= top && now >= b.last
    ensures 0.0 <= Refilled(b, rate, now).tokens <= Cap(top)
    ensures Refilled(b, rate, now).tokens <= b.tokens + Flow(now - b.last, top)
  {
    var dt := now - b.last;
    MulNonNeg(dt, rate);
    MulMono(dt, rate, top);
    CapMono(rate, top);
  }

  /** A pass: what is left plus what it grants is what the refill made available. */
  lemma StepBudget(b: Bucket, e: Event, top: Amount)
    requires Sane(b) && 0.0 < e.rate <= top && e.now >= b.last
    ensures Sane(Step(b, e)) && Step(b, e).last == e.now
    ensures Step(b, e).tokens + Grant(b, e) <= Cap(top)
    ensures Step(b, e).tokens + Grant(b, e) <= b.tokens + Flow(e.now - b.last, top)
  {
    RefillBounds(b, e.rate, e.now, top);
    assert Step(b, e).tokens + Grant(b, e) == Refilled(b, e.rate, e.now).tokens;
  }

  lemma {:induction false} RunSane(b: Bucket, es: seq<Event>, top: Amount)
    requires Sane(b) && Legal(es, b.last, top)
    ensures Sane(Run(b, es)) && Run(b, es).last == EndTime(es, b.last) >= b.last
  {
    if es != [] {
      RunSane(b, es[..|es| - 1], top);
      StepBudget(Run(b, es[..|es| - 1]), es[|es| - 1], top);
    }
  }

  lemma BudgetsAdd(t0: real, t1: real, t2: real, g1: real, g2: real, a: real, b: real, c: real, r: real)
    requires t1 + g1 <= t0 + Flow(b - a, r) && t2 + g2 <= t1 + Flow(c - b, r)
    ensures t2 + (g1 + g2) <= t0 + Flow(c - a, r)
  {
  }

  lemma WidenWindow(a: real, b: real, c: real, d: real, r: real)
    requires a <= b && c <= d && r >= 0.0
    ensures Flow(c - b, r) <= Flow(d - a, r)
  {
  }

  /** From any bucket: what is left plus what was granted is bounded by the start plus rate times elapsed. */
  lemma {:induction false} RunBudget(b: Bucket, es: seq<Event>, top: Amount)
    requires Sane(b) && Legal(es, b.last, top)
    ensures Run(b, es).tokens + Granted(b, es) <= b.tokens + Flow(EndTime(es, b.last) - b.last, top)
  {
    if es == [] {
      MulNonNeg(0.0, top);
    } else {
      var init, e := es[..|es| - 1], es[|es| - 1];
      var m := Run(b, init);
      RunBudget(b, init, top);
      RunSane(b, init, top);
      StepBudget(m, e, top);
      BudgetsAdd(b.tokens, m.tokens, Step(m, e).tokens, Granted(b, init), Grant(m, e), b.last, m.last, e.now, top);
      assert Granted(b, es) == Granted(b, init) + Grant(m, e);
    }
  }

  /** Since creation: never more than the highest rate times the time that passed. */
  lemma GrantedSinceCreation(start: real, es: seq<Event>, top: Amount, until: real)
    requires Legal(es, start, top) && EndTime(es, start) <= until
    ensures Granted(Bucket(0.0, start), es) <= Flow(until - start, top)
  {
    var b, end := Bucket(0.0, start), EndTime(es, start);
    RunBudget(b, es, top);
    RunSane(b, es, top);
    WidenWindow(start, start, end, until, top);
  }

  /** A run that starts with e, seen from the state after e. */
  lemma {:induction false} RunSplits(b: Bucket, e: Event, es: seq<Event>, start: real, top: Amount)
    requires Legal([e] + es, start, top)
    ensures Run(b, [e] + es) == Run(Step(b, e), es)
    ensures Granted(b, [e] + es) == Grant(b, e) + Granted(Step(b, e), es)
    ensures Legal(es, e.now, top) && 0.0 < e.rate <= top && e.now >= start
  {
    var all := [e] + es;
    if es == [] {
      assert all == [e] && all[..0] == [];
      assert Run(b, all) == Step(Run(b, []), e);
    } else {
      var init := es[..|es| - 1];
      assert all[..|all| - 1] == [e] + init;
      RunSplits(b, e, init, start, top);
    }
  }

  /** From any bucket, grants are bounded by the tokens at hand plus the flow until the last event. */
  lemma GrantedFrom(b: Bucket, es: seq<Event>, top: Amount, until: real)
    requires Sane(b) && Legal(es, b.last, top) && EndTime(es, b.last) <= until
    ensures Granted(b, es) <= b.tokens + Flow(until - b.last, top)
  {
    RunBudget(b, es, top);
    RunSane(b, es, top);
    WidenWindow(b.last, b.last, EndTime(es, b.last), until, top);
  }

  lemma FirstThenRest(b: Bucket, e: Event, rest: seq<Event>, top: Amount, until: real)
    requires Sane(b) && Legal([e] + rest, b.last, top) && EndTime([e] + rest, b.last) <= until
    ensures Granted(b, [e] + rest) <= Cap(top) + Flow(until - e.now, top)
  {
    RunSplits(b, e, rest, b.last, top);
    StepBudget(b, e, top);
    GrantedFrom(Step(b, e), rest, top, until);
  }

  /** Any window of a run: at most the highest rate times the window, plus one burst. */
  lemma GrantedInWindow(b: Bucket, es: seq<Event>, top: Amount, from: real, until: real)
    requires Sane(b) && Legal(es, b.last, top) && from <= until
    requires es != [] ==> from <= es[0].now && EndTime(es, b.last) <= until
    ensures Granted(b, es) <= Flow(until - from, top) + Cap(top)
  {
    if es == [] {
      MulNonNeg(until - from, top);
    } else {
      assert es == [es[0]] + es[1..];
      FirstThenRest(b, es[0], es[1..], top, until);
      WidenWindow(from, es[0].now, until, until, top);
    }
  }

  // ---------------------------------------------------------------- progress

  /** Some run at a fixed rate, from creation, ends by granting n bytes. */
  ghost predicate GrantedInSomeRun(rate: Amount, start: real, n: Amount)
  {
    exists es: seq<Event> :: EndsInGrant(rate, start, n, es)
  }

  predicate EndsInGrant(rate: Amount, start: real, n: Amount, es: seq<Event>)
  {
    && es != [] && Legal(es, start, rate) && (forall e | e in es :: e.rate == rate)
    && es[|es| - 1].need == n && Grants(Run(Bucket(0.0, start), es[..|es| - 1]), es[|es| - 1])
  }

  /** Progress is exact: a request can ever be granted if and only if it fits the capacity. */
  lemma GrantableIffFits(rate: Amount, start: real, n: Amount)
    requires rate > 0.0
    ensures GrantedInSomeRun(rate, start, n) <==> n <= Cap(rate)
  {
    if n <= Cap(rate) {
      var b := Bucket(0.0, start);
      var es := [Event(start + n / rate, rate, n)];
      Quotient(n, rate);
      assert es[..0] == [] && Run(b, []) == b && Legal([], start, rate);
      assert start + n / rate - start == n / rate;
      assert EndsInGrant(rate, start, n, es);
    }
    forall es | EndsInGrant(rate, start, n, es) ensures n <= Cap(rate) {
      assert es[|es| - 1] in es;
    }
  }

  /**
   * The comment that the burst floor exceeds the largest single request is wrong for encrypted downloads,
   * which charge a whole sealed chunk: a full chunk can be granted if and only if the rate is at least one chunk per
   * second.
   */
  lemma FullChunkNeedsAChunkPerSecond(rate: Amount, start: real)
    requires rate > 0.0
    ensures GrantedInSomeRun(rate, start, CIPHER_CHUNK as real) <==> rate >= CIPHER_CHUNK as real
  {
    GrantableIffFits(rate, start, CIPHER_CHUNK as real);
  }
}
