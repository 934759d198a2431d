/**
 * Retry-safe progress of a paced upload body: every rebuilt body reports through one shared high-water
 * mark. The fetch-max and the callback are separate steps, so callbacks of different bodies may overtake each other.
 */
module PacedBody {
  import opened Prelude

  const PACE_CHUNK: nat := 65536

  /** A pump task: its offset, and whether the offset it just reached still has to be published. */
  datatype Pump = Pump(off: nat, unpublished: bool)

  /** `marks` is a history variable: the offsets published so far. */
  datatype State = State(len: nat, high: nat, reported: nat, owed: seq<nat>, pumps: map<nat, Pump>, marks: set<nat>)

  datatype Label =
    | Rebuild(id: nat)          // a (re)try starts a body from offset zero
    | Send(id: nat)             // one chunk is handed to the transport
    | Drop(id: nat)             // the body was dropped
    | Publish(id: nat)          // fetch_max on the high-water mark
    | Callback(i: nat)          // one of the owed callbacks runs

  predicate Enabled(s: State, l: Label)
  {
    match l
    case Rebuild(id) => id !in s.pumps
    case Send(id) => id in s.pumps && s.pumps[id].off < s.len && !s.pumps[id].unpublished
    case Drop(id) => id in s.pumps
    case Publish(id) => id in s.pumps && s.pumps[id].unpublished
    case Callback(i) => i < |s.owed|
  }

  function Next(s: State, l: Label): (s': State)
  {
    if !Enabled(s, l) then s
    else
      match l
      case Rebuild(id) => s.(pumps := s.pumps[id := Pump(0, false)])
      case Send(id) => s.(pumps := s.pumps[id := Pump(Min(s.pumps[id].off + PACE_CHUNK, s.len), true)])
      case Drop(id) => s.(pumps := s.pumps - {id})
      case Publish(id) =>
        var off := s.pumps[id].off;
        s.(high := Max(s.high, off), marks := s.marks + {off}, pumps := s.pumps[id := Pump(off, false)],
           owed := if off > s.high then s.owed + [off - s.high] else s.owed)
      case Callback(i) => s.(reported := s.reported + s.owed[i], owed := s.owed[..i] + s.owed[i + 1..])
  }

  function Start(len: nat): (s: State) { State(len, 0, 0, [], map[], {}) }

  function Exec(len: nat, ls: seq<Label>): (s: State)
  {
    if ls == [] then Start(len) else Next(Exec(len, ls[..|ls| - 1]), ls[|ls| - 1])
  }

  function Total(xs: seq<nat>): (n: nat) { if xs == [] then 0 else Total(xs[..|xs| - 1]) + xs[|xs| - 1] }

  lemma {:induction false} TotalOfJoin(xs: seq<nat>, ys: seq<nat>)
    ensures Total(xs + ys) == Total(xs) + Total(ys)
  {
    if ys == [] {
      assert xs + ys == xs;
    } else {
      assert (xs + ys)[..|xs + ys| - 1] == xs + ys[..|ys| - 1];
      TotalOfJoin(xs, ys[..|ys| - 1]);
    }
  }

  lemma TotalPush(xs: seq<nat>, m: nat)
    ensures Total(xs + [m]) == Total(xs) + m
  {
    assert (xs + [m])[..|xs|] == xs;
  }

  lemma TotalMiddle(xs: seq<nat>, m: nat, ys: seq<nat>)
    ensures Total(xs + [m] + ys) == Total(xs + ys) + m
  {
    TotalOfJoin(xs + [m], ys);
    TotalPush(xs, m);
    TotalOfJoin(xs, ys);
  }

  lemma SplitAt(xs: seq<nat>, i: nat)
    requires i < |xs|
    ensures xs == xs[..i] + [xs[i]] + xs[i + 1..]
  {
  }

  lemma {:induction false} TotalWithout(xs: seq<nat>, i: nat)
    requires i < |xs|
    ensures Total(xs) == Total(xs[..i] + xs[i + 1..]) + xs[i]
  {
    TotalMiddle(xs[..i], xs[i], xs[i + 1..]);
    SplitAt(xs, i);
  }

  ghost predicate Inv(s: State)
  {
    && s.reported + Total(s.owed) == s.high <= s.len
    && (forall m | m in s.marks :: m <= s.high) && (s.high == 0 || s.high in s.marks)
    && (forall id | id in s.pumps :: s.pumps[id].off <= s.len)
  }

  lemma PublishKeepsInv(s: State, id: nat)
    requires Inv(s) && Enabled(s, Publish(id))
    ensures Inv(Next(s, Publish(id)))
  {
  }

  lemma CallbackKeepsInv(s: State, i: nat)
    requires Inv(s) && Enabled(s, Callback(i))
    ensures Inv(Next(s, Callback(i)))
  {
    TotalWithout(s.owed, i);
  }

  lemma StepKeepsInv(s: State, l: Label)
    requires Inv(s)
    ensures Inv(Next(s, l))
  {
    if Enabled(s, l) {
      match l
      case Publish(id) => PublishKeepsInv(s, id);
      case Callback(i) => CallbackKeepsInv(s, i);
      case _ =>
    }
  }

  /**
   * Over any interleaving of any number of bodies: reported plus owed bytes are exactly the highest offset
   * published, never more than the part; once no callback is owed the reports add up to it, and to the
   * whole part once some body has published its end.
   */
  lemma {:induction false} ReportsAddUp(len: nat, ls: seq<Label>)
    ensures var s := Exec(len, ls);
            && Inv(s) && s.len == len
            && s.reported <= len
            && (s.owed == [] ==> s.reported == s.high)
            && (s.owed == [] && len in s.marks ==> s.reported == len)
  {
    if ls != [] {
      ReportsAddUp(len, ls[..|ls| - 1]);
      StepKeepsInv(Exec(len, ls[..|ls| - 1]), ls[|ls| - 1]);
    }
  }

  /** The pump loop of one body running alone over the shared mark. */
  class HighWater {
    var mark: nat
    var reported: nat

    /**
     * `open(i)` answers whether the transport still takes the i-th piece. The pieces sent are the data in order, all of
     * the pace size but the last; each was charged to the limiter before it was sent.
     */
    method PumpBody(data: seq<byte>, open: nat -> bool)
      returns (sent: seq<seq<byte>>, charged: seq<nat>, off: nat)
      modifies this
      ensures off <= |data| && mark == Max(old(mark), off)
      ensures reported - old(reported) == mark - old(mark)
      ensures Joined(sent) == data[..off] && Paced(sent) && forall i | 0 <= i < |sent| :: open(i)
      ensures off < |data| ==> !open(|sent|)
      ensures |charged| == |sent| + if off < |data| then 1 else 0
      ensures forall i | 0 <= i < |sent| :: charged[i] == |sent[i]|
      ensures off < |data| ==> charged[|sent|] == Min(PACE_CHUNK, |data| - off)
    {
      sent, charged, off := [], [], 0;
      while off < |data|
        invariant off <= |data| && mark == Max(old(mark), off)
        invariant reported - old(reported) == mark - old(mark)
        invariant Joined(sent) == data[..off] && Paced(sent) && forall i | 0 <= i < |sent| :: open(i)
        invariant |charged| == |sent| && forall i | 0 <= i < |sent| :: charged[i] == |sent[i]|
        invariant off < |data| ==> off == |sent| * PACE_CHUNK && forall i | 0 <= i < |sent| :: |sent[i]| == PACE_CHUNK
        decreases |data| - off
      {
        var end := Min(off + PACE_CHUNK, |data|);
        charged := charged + [end - off];
        if !open(|sent|) { break; }
        JoinedMore(sent, data[off..end]);
        sent := sent + [data[off..end]];
        off := end;
        var prev := mark;
        mark := Max(mark, off);
        if off > prev { reported := reported + (off - prev); }
      }
    }
  }

  function Joined(pieces: seq<seq<byte>>): (data: seq<byte>)
  {
    if pieces == [] then [] else Joined(pieces[..|pieces| - 1]) + pieces[|pieces| - 1]
  }

  lemma JoinedMore(pieces: seq<seq<byte>>, p: seq<byte>)
    ensures Joined(pieces + [p]) == Joined(pieces) + p
  {
    assert (pieces + [p])[..|pieces|] == pieces;
  }

  /** Every piece has the pace size, the last at most that. */
  predicate Paced(pieces: seq<seq<byte>>)
  {
    forall i | 0 <= i < |pieces| ::
      if i < |pieces| - 1 then |pieces[i]| == PACE_CHUNK else 0 < |pieces[i]| <= PACE_CHUNK
  }
}
