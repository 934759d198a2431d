/**
 * Moving objects: the default copy-then-delete rename, the S3 rename, and the guards of move and rename
 * in the worker. A directory is a prefix ending in a slash; the specification is prefix substitution.
 * Nothing is assumed about the target: it may hold objects, contain the source or lie inside it.
 */
module Rename {
  import opened Prelude
  import opened Paths
  import opened Index

  type Content = seq<byte>

  type Bucket = map<string, Content>

  /** The key with its source prefix replaced. */
  function Swap(from: string, to: string, k: string): (k': string)
    requires from <= k
  {
    to + k[|from|..]
  }

  ghost function Sources(b: Bucket, from: string): (ks: set<string>) { set k | k in b && from <= k }

  /** Every object under `from` carried over to `to`, in place of what was there; every other key untouched. */
  ghost function Substituted(b: Bucket, from: string, to: string): (b': Bucket)
  {
    map k | k in (set x | x in b && !(from <= x)) + (set x | x in b && from <= x :: Swap(from, to, x)) ::
      if to <= k && Swap(to, from, k) in b then b[Swap(to, from, k)] else if k in b then b[k] else []
  }

  lemma SwapBack(from: string, to: string, k: string)
    requires from <= k
    ensures to <= Swap(from, to, k) && Swap(to, from, Swap(from, to, k)) == k
  {
  }

  /** Two directory prefixes of which neither contains the other. */
  predicate Beside(from: string, to: string)
  {
    from != "" && to != "" && from[|from| - 1] == '/' && to[|to| - 1] == '/' && !(from <= to) && !(to <= from)
  }

  // ---------------------------------------------------------------- what can get in the way

  ghost predicate CalmAt(b: Bucket, from: string, to: string, k: string)
    requires from <= k
  {
    Swap(from, to, k) !in Sources(b, from) && Swap(from, to, k) != from
  }

  /** No copy lands on an object still to be copied or deleted. */
  ghost predicate Calm(b: Bucket, from: string, to: string)
  {
    forall k {:trigger CalmAt(b, from, to, k)} | k in b && from <= k :: CalmAt(b, from, to, k)
  }

  predicate EscapesAt(from: string, to: string, k: string)
    requires from <= k
  {
    !(from <= Swap(from, to, k))
  }

  /** No copy lands below the source. */
  ghost predicate Escapes(b: Bucket, from: string, to: string)
  {
    forall k {:trigger EscapesAt(from, to, k)} | k in b && from <= k :: EscapesAt(from, to, k)
  }

  predicate UntakenAt(b: Bucket, from: string, to: string, k: string)
    requires k in b && from <= k
  {
    Swap(from, to, k) in b ==> b[Swap(from, to, k)] == b[k]
  }

  /** No copy overwrites an object with other content. */
  ghost predicate Untaken(b: Bucket, from: string, to: string)
  {
    forall k {:trigger UntakenAt(b, from, to, k)} | k in b && from <= k :: UntakenAt(b, from, to, k)
  }

  lemma EscapesIsCalm(b: Bucket, from: string, to: string)
    requires Escapes(b, from, to)
    ensures Calm(b, from, to)
  {
    forall k | k in b && from <= k ensures CalmAt(b, from, to, k) { assert EscapesAt(from, to, k); }
  }

  lemma BesideEscapes(b: Bucket, from: string, to: string)
    requires Beside(from, to)
    ensures Escapes(b, from, to)
  {
    forall k | k in b && from <= k ensures EscapesAt(from, to, k) { SwappedBeside(from, to, k); }
  }

  lemma SwappedBeside(from: string, to: string, k: string)
    requires Beside(from, to) && from <= k
    ensures !(from <= Swap(from, to, k))
  {
  }

  /** The object is still there: a source under its new key, any other where it was. */
  predicate KeptAt(b: Bucket, b': Bucket, from: string, to: string, k: string)
    requires k in b
  {
    if from <= k then Swap(from, to, k) in b' && b'[Swap(from, to, k)] == b[k] else k in b' && b'[k] == b[k]
  }

  ghost predicate LosesNothing(b: Bucket, b': Bucket, from: string, to: string)
  {
    forall k {:trigger KeptAt(b, b', from, to, k)} | k in b :: KeptAt(b, b', from, to, k)
  }

  /** Midway: every object is readable under its old or its new key. */
  ghost predicate NothingLost(b: Bucket, b': Bucket, from: string, to: string)
  {
    forall k {:trigger KeptAt(b, b', from, to, k)} | k in b :: (k in b' && b'[k] == b[k]) || KeptAt(b, b', from, to, k)
  }

  lemma SourceSubstituted(b: Bucket, from: string, to: string, k: string)
    requires k in b && from <= k
    ensures KeptAt(b, Substituted(b, from, to), from, to, k)
  {
    SwapBack(from, to, k);
  }

  lemma UntakenKeeps(b: Bucket, from: string, to: string, k: string)
    requires Untaken(b, from, to) && k in b && !(from <= k)
    ensures KeptAt(b, Substituted(b, from, to), from, to, k)
  {
    if to <= k && Swap(to, from, k) in b {
      SwapBack(to, from, k);
      assert UntakenAt(b, from, to, Swap(to, from, k));
    }
  }

  lemma KeptIsUntaken(b: Bucket, from: string, to: string, k: string)
    requires Calm(b, from, to) && LosesNothing(b, Substituted(b, from, to), from, to) && k in b && from <= k
    ensures UntakenAt(b, from, to, k)
  {
    assert CalmAt(b, from, to, k);
    SourceSubstituted(b, from, to, k);
    if Swap(from, to, k) in b { assert KeptAt(b, Substituted(b, from, to), from, to, Swap(from, to, k)); }
  }

  /** The substitution loses nothing if and only if no swapped key is taken. */
  lemma SubstitutionExact(b: Bucket, from: string, to: string)
    requires Calm(b, from, to)
    ensures LosesNothing(b, Substituted(b, from, to), from, to) <==> Untaken(b, from, to)
  {
    if Untaken(b, from, to) {
      forall k | k in b ensures KeptAt(b, Substituted(b, from, to), from, to, k) {
        if from <= k { SourceSubstituted(b, from, to, k); } else { UntakenKeeps(b, from, to, k); }
      }
    }
    if LosesNothing(b, Substituted(b, from, to), from, to) {
      forall k | k in b && from <= k ensures UntakenAt(b, from, to, k) { KeptIsUntaken(b, from, to, k); }
    }
  }

  // ---------------------------------------------------------------- where every object comes from

  /** Applying the swap n times takes k0 to k. */
  predicate Reaches(from: string, to: string, k0: string, k: string, n: nat)
    decreases n
  {
    if n == 0 then k == k0 else from <= k0 && Reaches(from, to, Swap(from, to, k0), k, n - 1)
  }

  /** The content stood in the bucket under a key that some number of swaps takes to k. */
  ghost predicate Comes(b: Bucket, from: string, to: string, k: string, c: Content)
  {
    exists k0, n: nat :: k0 in b && b[k0] == c && Reaches(from, to, k0, k, n)
  }

  /** Nothing is invented: every object is one of the old ones, moved by swaps alone. */
  ghost predicate Traced(b: Bucket, b': Bucket, from: string, to: string)
  {
    forall k {:trigger Comes(b, from, to, k, b'[k])} | k in b' :: Comes(b, from, to, k, b'[k])
  }

  lemma TracedStart(b: Bucket, from: string, to: string)
    ensures Traced(b, b, from, to)
  {
    forall k | k in b ensures Comes(b, from, to, k, b[k]) { assert Reaches(from, to, k, k, 0); }
  }

  lemma {:induction false} ReachFurther(from: string, to: string, k0: string, k: string, n: nat)
    requires Reaches(from, to, k0, k, n) && from <= k
    ensures Reaches(from, to, k0, Swap(from, to, k), n + 1)
    decreases n
  {
    if n > 0 { ReachFurther(from, to, Swap(from, to, k0), k, n - 1); }
  }

  lemma TracedCopy(b: Bucket, b': Bucket, from: string, to: string, k: string)
    requires Traced(b, b', from, to) && k in b' && from <= k
    ensures Traced(b, b'[Swap(from, to, k) := b'[k]], from, to)
  {
    assert Comes(b, from, to, k, b'[k]);
    var k0, n: nat :| k0 in b && b[k0] == b'[k] && Reaches(from, to, k0, k, n);
    ReachFurther(from, to, k0, k, n);
    var b'' := b'[Swap(from, to, k) := b'[k]];
    forall x | x in b'' ensures Comes(b, from, to, x, b''[x]) {
      if x != Swap(from, to, k) { assert Comes(b, from, to, x, b'[x]); }
    }
  }

  lemma TracedPart(b: Bucket, b': Bucket, b'': Bucket, from: string, to: string)
    requires Traced(b, b', from, to) && forall k | k in b'' :: k in b' && b''[k] == b'[k]
    ensures Traced(b, b'', from, to)
  {
    forall k | k in b'' ensures Comes(b, from, to, k, b''[k]) { assert Comes(b, from, to, k, b'[k]); }
  }

  /** Beside the source every key holds what it held, or what its counterpart held. */
  lemma TracedBeside(b: Bucket, b': Bucket, from: string, to: string, k: string)
    requires Beside(from, to) && Traced(b, b', from, to) && k in b'
    ensures (k in b && b'[k] == b[k]) || (to <= k && Swap(to, from, k) in b && b'[k] == b[Swap(to, from, k)])
  {
    assert Comes(b, from, to, k, b'[k]);
    var k0, n: nat :| k0 in b && b[k0] == b'[k] && Reaches(from, to, k0, k, n);
    if n > 0 {
      SwapBack(from, to, k0);
      SwappedBeside(from, to, k0);
      assert Reaches(from, to, Swap(from, to, k0), k, n - 1);
    }
  }

  // ---------------------------------------------------------------- copying

  /** The bucket with the listed sources copied over. */
  ghost function Overlaid(b: Bucket, from: string, to: string, done: set<string>): (b': Bucket)
    requires forall k | k in done :: k in b && from <= k
  {
    map k | k in b.Keys + (set x | x in done :: Swap(from, to, x)) ::
      if to <= k && Swap(to, from, k) in done then b[Swap(to, from, k)] else if k in b then b[k] else []
  }

  lemma NothingCopied(b: Bucket, from: string, to: string)
    ensures Overlaid(b, from, to, {}) == b
  {
  }

  lemma OverlaidKeys(b: Bucket, from: string, to: string, done: set<string>, k: string)
    requires forall x | x in done :: x in b && from <= x
    ensures k in Overlaid(b, from, to, done) <==> k in b || (to <= k && Swap(to, from, k) in done)
  {
    forall x | x in done && Swap(from, to, x) == k ensures to <= k && Swap(to, from, k) == x { SwapBack(from, to, x); }
    if to <= k { SwapBack(to, from, k); }
  }

  /** While copies stay out of the way, a source still holds its content. */
  lemma SourceIntact(b: Bucket, from: string, to: string, done: set<string>, k: string)
    requires (forall x | x in done :: x in b && from <= x) && Calm(b, from, to) && k in b && from <= k
    ensures k in Overlaid(b, from, to, done) && Overlaid(b, from, to, done)[k] == b[k]
  {
    forall x | x in done ensures Swap(from, to, x) != k { assert CalmAt(b, from, to, x); }
    if to <= k { SwapBack(to, from, k); }
  }

  lemma CopyOneMore(b: Bucket, from: string, to: string, done: set<string>, k: string)
    requires (forall x | x in done :: x in b && from <= x) && k in b && from <= k
    ensures Overlaid(b, from, to, done)[Swap(from, to, k) := b[k]] == Overlaid(b, from, to, done + {k})
  {
    SwapBack(from, to, k);
    var l, r := Overlaid(b, from, to, done)[Swap(from, to, k) := b[k]], Overlaid(b, from, to, done + {k});
    forall x | x in r || x in l
      ensures x in l && x in r && l[x] == r[x]
    {
      if to <= x && Swap(to, from, x) == k { SwapBack(to, from, x); }
    }
  }

  lemma SubstitutedKeys(b: Bucket, from: string, to: string, k: string)
    ensures k in Substituted(b, from, to) <==> (k in b && !(from <= k)) || (to <= k && Swap(to, from, k) in b)
  {
    forall x | x in b && from <= x && Swap(from, to, x) == k ensures to <= k && Swap(to, from, k) == x {
      SwapBack(from, to, x);
    }
    if to <= k { SwapBack(to, from, k); }
  }

  lemma CopiedNotSource(b: Bucket, from: string, to: string, k: string)
    requires Calm(b, from, to) && to <= k && Swap(to, from, k) in b
    ensures k !in Sources(b, from)
  {
    SwapBack(to, from, k);
    assert CalmAt(b, from, to, Swap(to, from, k));
  }

  /** All sources copied, then exactly the sources deleted: that is the substitution. */
  lemma CopiedThenDeleted(b: Bucket, from: string, to: string)
    requires Calm(b, from, to)
    ensures Overlaid(b, from, to, Sources(b, from)) - Sources(b, from) == Substituted(b, from, to)
  {
    var r, s := Overlaid(b, from, to, Sources(b, from)) - Sources(b, from), Substituted(b, from, to);
    forall k
      ensures (k in r <==> k in s) && (k in s ==> r[k] == s[k])
    {
      OverlaidKeys(b, from, to, Sources(b, from), k);
      SubstitutedKeys(b, from, to, k);
      if to <= k {
        SwapBack(to, from, k);
        if Swap(to, from, k) in b { CopiedNotSource(b, from, to, k); }
      }
    }
  }

  /** Midway through the copies nothing is lost if no swapped key is taken. */
  lemma OverlaidLosesNothing(b: Bucket, from: string, to: string, done: set<string>)
    requires (forall x | x in done :: x in b && from <= x) && Untaken(b, from, to)
    ensures Part(b, Overlaid(b, from, to, done))
  {
    forall k | k in b ensures k in Overlaid(b, from, to, done) && Overlaid(b, from, to, done)[k] == b[k] {
      if to <= k && Swap(to, from, k) in done {
        SwapBack(to, from, k);
        assert UntakenAt(b, from, to, Swap(to, from, k));
      }
    }
  }

  /** Everything in the first stands in the second. */
  ghost predicate Part(after: Bucket, full: Bucket) { forall k | k in after :: k in full && after[k] == full[k] }

  /** Nor midway through the deletions after them. */
  lemma KeptAfterPartialDelete(b: Bucket, after: Bucket, from: string, to: string)
    requires Calm(b, from, to) && Untaken(b, from, to) && Part(after, Overlaid(b, from, to, Sources(b, from)))
    requires forall k | k in Overlaid(b, from, to, Sources(b, from)) && k !in after ::
               from <= k && (k in Sources(b, from) || k == from || Escapes(b, from, to))
    ensures NothingLost(b, after, from, to)
  {
    var full := Overlaid(b, from, to, Sources(b, from));
    OverlaidLosesNothing(b, from, to, Sources(b, from));
    forall k | k in b ensures (k in after && after[k] == b[k]) || KeptAt(b, after, from, to, k) {
      if k !in after {
        SwapBack(from, to, k);
        assert k in Sources(b, from) && CalmAt(b, from, to, k);
        assert Escapes(b, from, to) ==> EscapesAt(from, to, k);
        assert Swap(from, to, k) in full && full[Swap(from, to, k)] == b[k];
      }
    }
  }

  /** What lies below the target afterwards: the counterparts, and what was there before and not below the source. */
  lemma MovedObject(b: Bucket, from: string, to: string, k: string)
    requires from <= k
    ensures var k', s := Swap(from, to, k), Substituted(b, from, to);
            && (k' in s <==> k in b || (k' in b && !(from <= k')))
            && (k' in s ==> s[k'] == if k in b then b[k] else b[k'])
  {
    SwapBack(from, to, k);
    SubstitutedKeys(b, from, to, Swap(from, to, k));
  }

  /** A key outside the target is kept exactly when it is outside the source. */
  lemma KeptObject(b: Bucket, from: string, to: string, k: string)
    requires !(to <= k)
    ensures k in Substituted(b, from, to) <==> k in b && !(from <= k)
    ensures k in Substituted(b, from, to) ==> Substituted(b, from, to)[k] == b[k]
  {
    SubstitutedKeys(b, from, to, k);
  }

  /** Keys outside the source are as they were. */
  ghost predicate SameOutside(b: Bucket, b': Bucket, from: string)
  {
    forall k | !(from <= k) :: (k in b' <==> k in b) && (k in b ==> b'[k] == b[k])
  }

  lemma InsideOnly(from: string, to: string, k: string)
    requires from <= to && from <= k
    ensures from <= Swap(from, to, k)
  {
  }

  /** Some of the sources copied: nothing invented, and if copies stay out of the way, exactly those copied over. */
  ghost predicate CopyState(b: Bucket, b': Bucket, from: string, to: string, done: set<string>)
  {
    && (forall k | k in done :: k in b && from <= k) && (forall k | k in b :: k in b')
    && Traced(b, b', from, to) && (from <= to ==> SameOutside(b, b', from))
    && (Calm(b, from, to) ==> b' == Overlaid(b, from, to, done))
  }

  lemma CopyStarts(b: Bucket, from: string, to: string)
    ensures CopyState(b, b, from, to, {})
  {
    TracedStart(b, from, to);
    NothingCopied(b, from, to);
  }

  lemma CopyStep(b: Bucket, b': Bucket, from: string, to: string, done: set<string>, k: string)
    requires CopyState(b, b', from, to, done) && k in b && from <= k
    ensures CopyState(b, b'[Swap(from, to, k) := b'[k]], from, to, done + {k})
  {
    TracedCopy(b, b', from, to, k);
    if from <= to { InsideOnly(from, to, k); }
    if Calm(b, from, to) {
      SourceIntact(b, from, to, done, k);
      CopyOneMore(b, from, to, done, k);
    }
  }

  /** A marker that stands under the source by the time everything is copied, though it was not there before. */
  lemma StrayMarker(b: Bucket, b': Bucket, from: string, to: string)
    requires CopyState(b, b', from, to, Sources(b, from)) && from !in b && from in b'
    ensures !Calm(b, from, to) && CopyState(b, b'[Swap(from, to, from) := b'[from]], from, to, Sources(b, from))
  {
    if Calm(b, from, to) { MarkerInPlace(b, from, to, Sources(b, from)); }
    TracedCopy(b, b', from, to, from);
    if from <= to { InsideOnly(from, to, from); }
  }

  /**
   * What a rename of a directory promises about the bucket, for any target. `way` says when its copies stay out of the
   * way of the rename itself. Everything afterwards stood in the bucket before, also if it failed. With copies out of
   * the way it is the substitution; it loses nothing if and only if moreover no swapped key is taken, and then also a
   * failure leaves every object readable.
   */
  ghost predicate Outcome(b: Bucket, b': Bucket, from: string, to: string, way: bool, ok: bool)
  {
    && Traced(b, b', from, to)
    && (ok && way ==> b' == Substituted(b, from, to))
    && (ok ==> (LosesNothing(b, b', from, to) <==> way && Untaken(b, from, to)))
    && (!ok && way && Untaken(b, from, to) ==> NothingLost(b, b', from, to))
  }

  lemma CopyFailed(b: Bucket, b': Bucket, from: string, to: string, done: set<string>, way: bool)
    requires CopyState(b, b', from, to, done) && (way ==> Calm(b, from, to))
    ensures Outcome(b, b', from, to, way, false)
  {
    if way && Untaken(b, from, to) { OverlaidLosesNothing(b, from, to, done); }
  }

  lemma DeleteFailed(b: Bucket, full: Bucket, after: Bucket, from: string, to: string, way: bool)
    requires CopyState(b, full, from, to, Sources(b, from)) && Part(after, full)
    requires way ==> Calm(b, from, to)
    requires forall k | k in full && k !in after ::
               from <= k && (k in Sources(b, from) || k == from || (way ==> Escapes(b, from, to)))
    ensures Outcome(b, after, from, to, way, false)
  {
    TracedPart(b, full, after, from, to);
    if way && Untaken(b, from, to) { KeptAfterPartialDelete(b, after, from, to); }
  }

  lemma OriginalsDeleted(b: Bucket, full: Bucket, after: Bucket, from: string, to: string)
    requires CopyState(b, full, from, to, Sources(b, from)) && Part(after, full)
    requires forall k | k in full && k !in after :: k in Sources(b, from) || k == from
    requires from !in after && forall k | k in Sources(b, from) :: k !in after
    ensures Outcome(b, after, from, to, Calm(b, from, to), true)
  {
    TracedPart(b, full, after, from, to);
    if Calm(b, from, to) {
      MarkerInPlace(b, from, to, Sources(b, from));
      assert after == full - Sources(b, from);
      CopiedThenDeleted(b, from, to);
      SubstitutionExact(b, from, to);
    } else {
      var k :| k in b && from <= k && !CalmAt(b, from, to, k);
      assert !KeptAt(b, after, from, to, k);
    }
  }

  lemma InsideIsSource(b: Bucket, from: string, to: string, k: string)
    requires Escapes(b, from, to) && k in Overlaid(b, from, to, Sources(b, from)) && from <= k
    ensures k in Sources(b, from)
  {
    OverlaidKeys(b, from, to, Sources(b, from), k);
    forall x | x in b && from <= x ensures Swap(from, to, x) != k { assert EscapesAt(from, to, x); }
    if to <= k { SwapBack(to, from, k); }
  }

  lemma SubtreeDeleted(b: Bucket, full: Bucket, after: Bucket, from: string, to: string)
    requires CopyState(b, full, from, to, Sources(b, from))
    requires after == map k | k in full && !(from <= k) :: full[k]
    ensures Outcome(b, after, from, to, Escapes(b, from, to), true)
    ensures from <= to ==> after == b - Sources(b, from)
  {
    TracedPart(b, full, after, from, to);
    if Escapes(b, from, to) {
      EscapesIsCalm(b, from, to);
      forall k | k in full && from <= k ensures k in Sources(b, from) { InsideIsSource(b, from, to, k); }
      assert after == full - Sources(b, from);
      CopiedThenDeleted(b, from, to);
      SubstitutionExact(b, from, to);
    } else {
      var k :| k in b && from <= k && !EscapesAt(from, to, k);
      assert !KeptAt(b, after, from, to, k);
    }
  }

  lemma MarkerInPlace(b: Bucket, from: string, to: string, listed: set<string>)
    requires Calm(b, from, to) && forall k | k in listed :: k in b && from <= k
    ensures from in Overlaid(b, from, to, listed) <==> from in b
  {
    forall k | k in listed ensures Swap(from, to, k) != from { assert CalmAt(b, from, to, k); }
  }

  function Joined(requests: seq<seq<string>>): (keys: seq<string>)
  {
    if requests == [] then [] else Joined(requests[..|requests| - 1]) + requests[|requests| - 1]
  }

  lemma JoinedMore(requests: seq<seq<string>>, r: seq<string>)
    ensures Joined(requests + [r]) == Joined(requests) + r
  {
    assert (requests + [r])[..|requests|] == requests;
  }

  /** The object store. `fails` answers whether the n-th request fails; a failed request has no effect. */
  class Backend {
    var objects: Bucket

    /** Every object strictly below a prefix, each once, in any order. */
    method ListRecursive(prefix: string) returns (keys: seq<string>)
      ensures forall k :: k in keys <==> k in objects && prefix <= k && k != prefix
      ensures forall i, j | 0 <= i < j < |keys| :: keys[i] != keys[j]
    {
      keys := [];
      var todo := objects.Keys;
      while todo != {}
        invariant todo <= objects.Keys
        invariant forall k :: k in keys <==> k in objects && k !in todo && prefix <= k && k != prefix
        invariant forall i, j | 0 <= i < j < |keys| :: keys[i] != keys[j]
        decreases todo
      {
        var k :| k in todo;
        todo := todo - {k};
        if prefix <= k && k != prefix { keys := keys + [k]; }
      }
    }

    /** Copy every listed object to the swapped prefix, each as it is by then. */
    method CopyListed(from: string, to: string, keys: seq<string>, fails: nat -> bool)
      returns (ok: bool, ghost done: set<string>)
      requires forall k | k in keys :: k in objects && from <= k
      modifies this
      ensures CopyState(old(objects), objects, from, to, done)
      ensures ok ==> done == set k | k in keys
      ensures !ok ==> exists n :: fails(n)
    {
      ghost var b := objects;
      done := {};
      CopyStarts(b, from, to);
      for i := 0 to |keys|
        invariant done == (set k | k in keys[..i]) && CopyState(b, objects, from, to, done)
      {
        if fails(i) { return false, done; }
        var k := keys[i];
        CopyStep(b, objects, from, to, done, k);
        objects := objects[Swap(from, to, k) := objects[k]];
        done := done + {k};
        assert keys[..i + 1] == keys[..i] + [k];
      }
      assert keys[..|keys|] == keys;
      ok := true;
    }

    /**
     * Default rename of a directory on a file-system backend: copy each file, then delete the subtree. The copies are
     * out of the way when none lands below the source; onto a place inside the source everything is lost.
     */
    method DefaultRenameDir(from: string, to: string, fails: nat -> bool, deletedBeforeFailure: set<string>)
      returns (ok: bool)
      requires from !in objects
      modifies this
      ensures Outcome(old(objects), objects, from, to, Escapes(old(objects), from, to), ok)
      ensures !ok ==> exists n :: fails(n)
      ensures ok && from <= to ==> objects == old(objects) - Sources(old(objects), from)
    {
      ghost var b, done := objects, {};
      if Escapes(b, from, to) { EscapesIsCalm(b, from, to); }
      var keys := ListRecursive(from);
      ok, done := CopyListed(from, to, keys, fails);
      if !ok {
        CopyFailed(b, objects, from, to, done, Escapes(b, from, to));
        return;
      }
      assert done == Sources(b, from);
      ghost var full := objects;
      if fails(|keys|) {
        objects := map k | k in objects && !(k in deletedBeforeFailure && from <= k) :: objects[k];
        DeleteFailed(b, full, objects, from, to, Escapes(b, from, to));
        return false;
      }
      objects := map k | k in objects && !(from <= k) :: objects[k];
      SubtreeDeleted(b, full, objects, from, to);
      ok := true;
    }

    /** First half of the S3 rename: copy every listed object and, if there is one by then, the folder marker. */
    method S3CopyAll(from: string, to: string, fails: nat -> bool)
      returns (ok: bool, keys: seq<string>, ghost done: set<string>)
      modifies this
      ensures forall k :: k in keys <==> k in old(objects) && from <= k && k != from
      ensures CopyState(old(objects), objects, from, to, done) && (ok ==> done == Sources(old(objects), from))
      ensures !ok ==> exists n :: fails(n)
    {
      ghost var b := objects;
      keys := ListRecursive(from);
      ok, done := CopyListed(from, to, keys, fails);
      if !ok { return; }
      if fails(|keys|) { return false, keys, done; }
      assert Sources(b, from) == if from in b then done + {from} else done;
      if from in objects {
        if from in b { CopyStep(b, objects, from, to, done, from); } else { StrayMarker(b, objects, from, to); }
        assert Swap(from, to, from) == to;
        objects := objects[to := objects[from]];
      }
      done := Sources(b, from);
    }

    /**
     * S3 rename of a directory: copy everything, then delete exactly the originals in batches. The copies are out of
     * the way when none lands on a source or on the source's own marker.
     */
    method S3RenameDir(from: string, to: string, fails: nat -> bool) returns (ok: bool)
      modifies this
      ensures Outcome(old(objects), objects, from, to, Calm(old(objects), from, to), ok)
      ensures !ok ==> exists n :: fails(n)
    {
      ghost var b, done := objects, {};
      var keys;
      ok, keys, done := S3CopyAll(from, to, fails);
      if !ok {
        CopyFailed(b, objects, from, to, done, Calm(b, from, to));
        return;
      }
      ghost var full := objects;
      ghost var requests;
      ok, requests := DeleteBatches(keys + [from], fails);
      assert forall k | k in keys + [from] :: k in Sources(b, from) || k == from;
      if ok {
        assert forall k | k in Sources(b, from) :: k in keys + [from];
        OriginalsDeleted(b, full, objects, from, to);
      } else {
        DeleteFailed(b, full, objects, from, to, Calm(b, from, to));
      }
    }

    /**
     * Delete keys in requests of at most 1000; a failed request ends the call with exactly the keys of the earlier
     * ones gone.
     */
    method DeleteBatches(keys: seq<string>, fails: nat -> bool) returns (ok: bool, ghost requests: seq<seq<string>>)
      modifies this
      ensures forall r | r in requests :: 0 < |r| <= 1000
      ensures Joined(requests) <= keys && (ok ==> Joined(requests) == keys)
      ensures objects == old(objects) - (set k | k in Joined(requests))
      ensures forall k | k in objects :: k in old(objects) && objects[k] == old(objects)[k]
      ensures forall k | k in old(objects) && k !in objects :: k in keys
      ensures ok ==> forall k | k in keys :: k !in objects
      ensures !ok ==> exists n :: fails(n)
    {
      var i := 0;
      requests := [];
      while i < |keys|
        invariant i <= |keys|
        invariant Joined(requests) == keys[..i] && forall r | r in requests :: 0 < |r| <= 1000
        invariant objects == old(objects) - (set k | k in keys[..i])
        invariant forall k | k in objects :: k in old(objects) && objects[k] == old(objects)[k]
        invariant forall k | k in old(objects) && k !in objects :: k in keys
        invariant forall j | 0 <= j < i :: keys[j] !in objects
      {
        if fails(|keys| + 1 + i) { return false, requests; }
        var end := Min(i + 1000, |keys|);
        var batch := keys[i..end];
        objects := map k | k in objects && k !in batch :: objects[k];
        assert forall j | i <= j < end :: keys[j] == batch[j - i];
        assert keys[..end] == keys[..i] + batch;
        JoinedMore(requests, batch);
        requests := requests + [batch];
        i := end;
      }
      ok := true;
    }

    /** Deleting a folder: everything below it and its marker, in the requests of `DeleteBatches`. */
    method DeleteFolder(prefix: string, fails: nat -> bool) returns (ok: bool)
      modifies this
      ensures ok ==> objects == old(objects) - Sources(old(objects), prefix)
      ensures !ok ==> Part(objects, old(objects)) && SameOutside(old(objects), objects, prefix) && exists n :: fails(n)
    {
      ghost var b := objects;
      var keys := ListRecursive(prefix);
      ghost var requests;
      ok, requests := DeleteBatches(keys + [prefix], fails);
      if ok {
        assert forall k | k in Sources(b, prefix) :: k in keys + [prefix];
        assert objects.Keys == (b - Sources(b, prefix)).Keys;
      } else {
        forall k | k in b && k !in objects ensures prefix <= k { assert k in keys + [prefix]; }
      }
    }

    /** S3 rename of a single object: copy, which fails on a missing source, then delete. */
    method S3RenameFile(from: string, to: string) returns (ok: bool)
      modifies this
      ensures ok <==> from in old(objects)
      ensures ok && from != to ==> from !in objects && to in objects && objects[to] == old(objects)[from]
      ensures objects - {from, to} == old(objects) - {from, to} && (!ok ==> objects == old(objects))
    {
      if from !in objects { return false; }
      objects := objects[to := objects[from]];
      objects := objects - {from};
      ok := true;
    }

    /** Default rename of a single object: a missing source is not copied, and deleting it is no error. */
    method DefaultRenameFile(from: string, to: string) returns (ok: bool)
      modifies this
      ensures ok && from !in objects
      ensures from in old(objects) && from != to ==> to in objects && objects[to] == old(objects)[from]
      ensures objects - {from, to} == old(objects) - {from, to} && (from !in old(objects) ==> objects == old(objects))
    {
      if from in objects { objects := objects[to := objects[from]]; }
      objects := objects - {from};
      ok := true;
    }
  }

  const NESTED: Bucket := map["x/L/L/z" := [1], "x/L/L/L/z" := [2]]

  lemma NestedPlan()
    ensures MovePlan("x/L/L/", true, "x/") == Some(("x/L/L/", "x/L/"))
  {
    FolderMovePlanIs("x/L/", "L", "x/");
    assert "x/L/" + "L" + "/" == "x/L/L/" && "x/" + "L" + "/" == "x/L/";
  }

  lemma NestedNotCalm()
    ensures !Calm(NESTED, "x/L/L/", "x/L/")
  {
    assert "x/L/L/L/z"[6..] == "L/z" && "x/L/" + "L/z" == "x/L/L/z";
    assert "x/L/L/" <= "x/L/L/L/z" && "x/L/L/" <= "x/L/L/z";
    assert !CalmAt(NESTED, "x/L/L/", "x/L/", "x/L/L/L/z");
  }

  /**
   * Moving the folder x/L/L/ into x/ passes the guards and lands on x/L/, which contains it: the copy of x/L/L/L/z
   * lands on x/L/L/z, a source, and is deleted with it, whatever order the objects are copied in.
   */
  lemma NestedMoveLoses(after: Bucket)
    requires Outcome(NESTED, after, "x/L/L/", "x/L/", Calm(NESTED, "x/L/L/", "x/L/"), true)
    ensures MovePlan("x/L/L/", true, "x/") == Some(("x/L/L/", "x/L/"))
    ensures !LosesNothing(NESTED, after, "x/L/L/", "x/L/")
  {
    NestedPlan();
    NestedNotCalm();
  }

  /** Moving a single object keeps all others exactly when its target is unused. */
  lemma FileMoveExact(b: Bucket, from: string, to: string)
    requires from in b && from != to
    ensures (forall k | k in b && k != from :: k in b[to := b[from]] - {from} && (b[to := b[from]] - {from})[k] == b[k])
            <==> (to !in b || b[to] == b[from])
  {
  }

  // ---------------------------------------------------------------- the worker's guards

  function DirForm(key: string): (k: string) { if key != "" && key[|key| - 1] == '/' then key else key + "/" }

  /** Source and target of moving an item into a directory, or nothing when the move is skipped. */
  function MovePlan(key: string, isDir: bool, dest: string): (p: Option<(string, string)>)
  {
    if isDir then
      var from, to := DirForm(key), dest + LeafOf(key) + "/";
      if to == from || from <= dest then None else Some((from, to))
    else
      var to := dest + LeafOf(key);
      if to == key then None else Some((key, to))
  }

  lemma PrefixOfFolder(from: string, dest: string, leaf: string)
    requires from != "" && from[|from| - 1] == '/' && NoSlash(leaf) && from <= dest + leaf + "/"
    ensures from <= dest || from == dest + leaf + "/"
  {
  }

  /** The guards of a folder move never let the source be a prefix of the target. */
  lemma MoveNeverIntoItself(key: string, dest: string)
    requires MovePlan(key, true, dest).Some?
    ensures var (from, to) := MovePlan(key, true, dest).value; !(from <= to)
  {
    var from := DirForm(key);
    if from <= dest + LeafOf(key) + "/" { PrefixOfFolder(from, dest, LeafOf(key)); }
  }

  /**
   * For an item of directory src: skipped exactly when it stays in place or would land inside itself; the leaf is
   * kept.
   */
  lemma FolderMovePlanIs(src: string, leaf: string, dest: string)
    requires DirKey(src) && leaf != "" && NoSlash(leaf)
    ensures MovePlan(src + leaf + "/", true, dest) ==
            if dest == src || src + leaf + "/" <= dest then None else Some((src + leaf + "/", dest + leaf + "/"))
  {
    ChildKey(src, leaf);
    SameTail(dest, src, leaf);
    SameTail(dest + leaf, src + leaf, "/");
  }

  lemma FileMovePlanIs(src: string, leaf: string, dest: string)
    requires DirKey(src) && leaf != "" && NoSlash(leaf)
    ensures MovePlan(src + leaf, false, dest) == if dest == src then None else Some((src + leaf, dest + leaf))
  {
    ChildKey(src, leaf);
    SameTail(dest, src, leaf);
  }

  lemma SameTail(a: string, b: string, t: string)
    ensures a + t == b + t <==> a == b
  {
    if a + t == b + t { assert a == (a + t)[..|a|] == (b + t)[..|b|] == b; }
  }

  /** Source and target of renaming an item, or nothing when the rename is refused or changes nothing. */
  function RenamePlan(seg: Naming, key: string, isDir: bool, oldName: string, newName: string, encrypted: bool)
    : (p: Option<(string, string)>)
  {
    var parent := ParentPrefix(key);
    if Blank(newName) || !NoSlash(newName) then None
    else if encrypted && seg(oldName) == seg(newName) then None
    else
      var leaf := if encrypted then seg(newName) else newName;
      var from, to := if isDir then DirForm(key) else key, if isDir then parent + leaf + "/" else parent + leaf;
      if !encrypted && from == to then None else Some((from, to))
  }

  lemma TrimmedPrefix(key: string)
    ensures TrimEnd(key) + "/" <= DirForm(key)
  {
  }

  /**
   * A folder rename never targets a place inside the folder, provided an encrypted item sits under its own name's
   * segment.
   */
  lemma RenameNeverIntoItself(seg: Naming, key: string, oldName: string, newName: string, encrypted: bool)
    requires RenamePlan(seg, key, true, oldName, newName, encrypted).Some?
    requires encrypted ==> LeafOf(key) == seg(oldName) && NoSlash(seg(newName))
    ensures var (from, to) := RenamePlan(seg, key, true, oldName, newName, encrypted).value; !(from <= to)
  {
    var (from, to) := RenamePlan(seg, key, true, oldName, newName, encrypted).value;
    var parent, leaf := ParentPrefix(key), LeafOf(key);
    var x := if encrypted then seg(newName) else newName;
    TrimmedPrefix(key);
    assert TrimEnd(key) == parent + leaf;
    if from <= to {
      assert parent + leaf + "/" <= to;
      ChildApart(parent, leaf, x);
    }
  }

  /** For an item of directory dir: only the leaf changes, to the on-disk form of the new name. */
  lemma RenamePlanIs(seg: Naming, dir: string, leaf: string, oldName: string, newName: string, encrypted: bool)
    requires DirKey(dir) && leaf != "" && NoSlash(leaf)
    ensures var x := if encrypted then seg(newName) else newName;
            var refused := Blank(newName) || !NoSlash(newName) || (if encrypted then seg(oldName) == x else leaf == x);
            && RenamePlan(seg, dir + leaf + "/", true, oldName, newName, encrypted) ==
               (if refused then None else Some((dir + leaf + "/", dir + x + "/")))
            && RenamePlan(seg, dir + leaf, false, oldName, newName, encrypted) ==
               (if refused then None else Some((dir + leaf, dir + x)))
  {
    ChildKey(dir, leaf);
    var x := if encrypted then seg(newName) else newName;
    SameHead(dir, leaf, x);
  }

  lemma SameHead(d: string, x: string, y: string)
    ensures d + x == d + y <==> x == y
    ensures d + x + "/" == d + y + "/" <==> x == y
  {
    assert (d + x)[|d|..] == x && (d + y)[|d|..] == y;
    SameTail(d + x, d + y, "/");
  }
}
