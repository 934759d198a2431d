/**
 * Renaming or moving an encrypted folder, end to end: objects, buffered and stored manifests, and expansion.
 * What lies below the folder keeps its relative paths and plaintext sizes exactly when nothing buffered gets in
 * the way; the runs in which something does are here too.
 */
module FolderMove {
  import opened Prelude
  import opened Paths
  import opened Manifests
  import opened Index
  import opened Session
  import opened Expand
  import MS = ManifestStore
  import R = Rename
  import V = DirView

  // ---------------------------------------------------------------- reading below the target

  /** A folder move or rename to a place beside the folder, carried out on a session and leaving `after` behind. */
  ghost predicate Carried(env: Env, v: Vault, op: Op, after: R.Bucket)
  {
    && (op.Rename? || op.Move?) && op.isDir && Keyed(v) && ProperOp(op) && Named(env.seg, op)
    && Apart(env, v, op) && Arrived(env, v, op, after) && GoesThrough(env, v, op)
  }

  lemma CarriedIs(env: Env, v: Vault, op: Op, after: R.Bucket)
    requires Carried(env, v, op, after)
    ensures R.Beside(FromOf(env.seg, op), ToOf(env.seg, op))
    ensures after == R.Substituted(v.bucket, FromOf(env.seg, op), ToOf(env.seg, op))
    ensures Do(env, v, op, after).bucket == after
  {
    R.BesideEscapes(v.bucket, FromOf(env.seg, op), ToOf(env.seg, op));
    var e := if op.Rename? then op.dir else op.src;
    ReadLoad(env, v, e, e);
  }

  /** Loads, edits and takes concern one directory. */
  lemma OtherEntries(env: Env, v: Vault, e: string, f: Manifest -> Manifest, key: string, d: string)
    requires d != e
    ensures forall w | w in {Load(env, v, e), Edit(env, v, e, f), Take(env, v, e, key)} :: SameEntry(v, w, d)
  {
  }

  predicate SameEntry(v: Vault, w: Vault, d: string)
  {
    (d in w.buffer <==> d in v.buffer) && (d in v.buffer ==> w.buffer[d] == v.buffer[d])
  }

  lemma RenameBuffer(env: Env, v: Vault, op: Op, after: R.Bucket, d: string)
    requires Carried(env, v, op, after) && op.Rename? && d != op.dir
    ensures SameEntry(v, Do(env, v, op, after), d)
  {
    var l := Load(env, v, op.dir);
    SourceTrims(env.seg, op);
    EditKeyed(env, v, op.dir, m => m);
    ReadLoad(env, v, op.dir, op.dir);
    ForgetNothing(l.(bucket := after), FromOf(env.seg, op));
    var old_key, new_key := env.seg(op.old_), env.seg(op.new_);
    var f := (m: Manifest) => m.RenameEntry(old_key, new_key, op.new_);
    OtherEntries(env, v, op.dir, f, "", d);
    assert l in {l, Edit(env, v, op.dir, f), Take(env, v, op.dir, "")};
    var v1 := l.(bucket := after);
    OtherEntries(env, v1, op.dir, f, "", d);
    assert Edit(env, v1, op.dir, f) in {Load(env, v1, op.dir), Edit(env, v1, op.dir, f), Take(env, v1, op.dir, "")};
  }

  lemma MoveBuffer(env: Env, v: Vault, op: Op, after: R.Bucket, d: string)
    requires Carried(env, v, op, after) && op.Move? && d != op.src && d != op.dest
    ensures SameEntry(v, Do(env, v, op, after), d)
  {
  }

  /** The buffer after the operation: only the parent directories' entries differ, and forgetting dropped nothing. */
  lemma DoBuffer(env: Env, v: Vault, op: Op, after: R.Bucket, d: string)
    requires Carried(env, v, op, after)
    requires if op.Rename? then d != op.dir else d != op.src && d != op.dest
    ensures SameEntry(v, Do(env, v, op, after), d)
  {
    if op.Rename? { RenameBuffer(env, v, op, after, d); } else { MoveBuffer(env, v, op, after, d); }
  }

  /** Editing the records of the folder itself changes nothing below it. */
  lemma DoBelow(env: Env, v: Vault, op: Op, after: R.Bucket, x: string)
    requires Carried(env, v, op, after)
    ensures var to := ToOf(env.seg, op);
            Read(env, Do(env, v, op, after), to + x) == Read(env, Moved(v, FromOf(env.seg, op), to), to + x)
  {
    var to := ToOf(env.seg, op);
    CarriedIs(env, v, op, after);
    TailOf(to, x);
    if op.Rename? { Longer(op.dir, env.seg(op.new_)); } else { MoveOutside(env, v, op); }
    DoBuffer(env, v, op, after, to + x);
  }

  /** Everything below the target reads as below the source before. */
  ghost predicate ReadsAlike(env: Env, v: Vault, v': Vault, from: string, to: string)
  {
    forall x: string :: Read(env, v', to + x) == Read(env, v, from + x)
  }

  /**
   * The whole operation, as the worker performs it, also onto a folder that holds objects: every directory of the
   * folder reads in its new place as it did in the old one if and only if nothing buffered or left over gets in the
   * way.
   */
  lemma FolderReadsAlikeIff(env: Env, v: Vault, op: Op, after: R.Bucket)
    requires Carried(env, v, op, after)
    ensures var from, to := FromOf(env.seg, op), ToOf(env.seg, op);
            ReadsAlike(env, v, Do(env, v, op, after), from, to) <==> Smooth(env, v, from, to)
  {
    var from, to := FromOf(env.seg, op), ToOf(env.seg, op);
    forall x: string ensures Read(env, Do(env, v, op, after), to + x) == Read(env, Moved(v, from, to), to + x) {
      DoBelow(env, v, op, after, x);
    }
    SourceIsNamed(env.seg, op);
    BelowTargetIff(env, v, from, to);
  }

  // ---------------------------------------------------------------- what the folder contains afterwards

  /** Stored sizes of a bucket. */
  function Sizes(b: R.Bucket): (objs: Objects) { map k | k in b :: |b[k]| }

  /** The manifests of a session, as one index. */
  function View(env: Env, v: Vault): (ix: Index)
  {
    map d | d in v.buffer.Keys + (set k | k in v.bucket && IsManifestObject(k) :: DirOf(k)) :: Read(env, v, d)
  }

  lemma OfView(env: Env, v: Vault, d: string)
    ensures Of(View(env, v), d) == Read(env, v, d)
  {
    ManifestObjectOf(d);
  }

  lemma AlikeDeeper(env: Env, v: Vault, v': Vault, d: string, d': string, y: string)
    requires ReadsAlike(env, v, v', d, d')
    ensures ReadsAlike(env, v, v', d + y, d' + y)
  {
    forall x: string ensures Read(env, v', d' + y + x) == Read(env, v, d + y + x) {
      assert d' + y + x == d' + (y + x) && d + y + x == d + (y + x);
    }
  }

  lemma SameOf(env: Env, v: Vault, v': Vault, d: string, d': string)
    requires ReadsAlike(env, v, v', d, d')
    ensures Of(View(env, v'), d') == Of(View(env, v), d)
  {
    OfView(env, v, d);
    OfView(env, v', d');
    assert d + "" == d && d' + "" == d';
    assert Read(env, v', d' + "") == Read(env, v, d + "");
  }

  /** Paths and sizes are resolved alike below both prefixes. */
  lemma {:induction false} ResolvedAlike(env: Env, v: Vault, v': Vault, d: string, d': string, base: string,
                                         rest: string, stored: nat)
    requires ReadsAlike(env, v, v', d, d')
    ensures RelOf(View(env, v'), d', base, rest) == RelOf(View(env, v), d, base, rest)
    ensures SizeOf(View(env, v'), d', rest, stored) == SizeOf(View(env, v), d, rest, stored)
    decreases |rest|
  {
    SameOf(env, v, v', d, d');
    var i := FirstSlash(rest);
    if i < |rest| {
      AlikeDeeper(env, v, v', d, d', rest[..i + 1]);
      var base1 := base + "/" + NameOr(Of(View(env, v), d), rest[..i]);
      ResolvedAlike(env, v, v', d + rest[..i + 1], d' + rest[..i + 1], base1, rest[i + 1..], stored);
    }
  }

  lemma Assoc(a: string, b: string, c: string)
    ensures a + b + c == a + (b + c)
  {
  }

  lemma Assoc4(a: string, b: string, n: string)
    ensures a + b + "/" + n == a + (b + "/" + n)
  {
    Assoc(a, b, "/");
    Assoc(a, b + "/", n);
  }

  /** What a path starts with does not matter to the rest of it. */
  lemma {:induction false} RelFront(ix: Index, d: string, front: string, base: string, rest: string)
    ensures RelOf(ix, d, front + base, rest) == front + RelOf(ix, d, base, rest)
    decreases |rest|
  {
    var i := FirstSlash(rest);
    if i < |rest| {
      var n := NameOr(Of(ix, d), rest[..i]);
      Assoc4(front, base, n);
      RelFront(ix, d + rest[..i + 1], front, base + "/" + n, rest[i + 1..]);
    } else {
      Assoc4(front, base, NameOr(Of(ix, d), rest));
    }
  }

  /** A relative path is the folder's name followed by what the manifests below it say. */
  lemma RelBase(ix: Index, d: string, base: string, rest: string)
    ensures RelOf(ix, d, base, rest) == base + RelOf(ix, d, "", rest)
  {
    RelFront(ix, d, base, "", rest);
    assert base + "" == base;
  }

  // ---------------------------------------------------------------- the moved expansion

  /** A target carried along: new key prefix, new folder name, nothing else. */
  function Renamed(from: string, to: string, base: string, base': string, t: Target): (t': Target)
    requires from <= t.key && base <= t.rel
  {
    Target(R.Swap(from, to, t.key), base' + t.rel[|base|..], t.size)
  }

  lemma AfterSwap(from: string, to: string, k: string)
    requires from <= k
    ensures to <= R.Swap(from, to, k) && After(to, R.Swap(from, to, k)) == After(from, k)
  {
  }

  /** One object: visible before exactly when visible after, and resolved to the same path below the folder. */
  lemma MovedTarget(env: Env, v: Vault, v': Vault, from: string, to: string, base: string, base': string, k: string)
    requires Unseen(v.bucket, from, to) && v'.bucket == R.Substituted(v.bucket, from, to) && from <= k
    requires ReadsAlike(env, v, v', from, to)
    ensures Shown(Sizes(v'.bucket), to, R.Swap(from, to, k)) <==> Shown(Sizes(v.bucket), from, k)
    ensures Shown(Sizes(v.bucket), from, k) ==>
              var t := TargetOf(Sizes(v.bucket), View(env, v), Pending(from, base), k);
              && base <= t.rel
              && TargetOf(Sizes(v'.bucket), View(env, v'), Pending(to, base'), R.Swap(from, to, k))
                 == Renamed(from, to, base, base', t)
  {
    R.MovedObject(v.bucket, from, to, k);
    AfterSwap(from, to, k);
    if k in v.bucket {
      var rest := After(from, k);
      ResolvedAlike(env, v, v', from, to, base', rest, |v.bucket[k]|);
      RelBase(View(env, v), from, base', rest);
      RelBase(View(env, v), from, base, rest);
    }
  }

  /** The target holds nothing visible of its own: it is new, or holds metadata and markers only. */
  ghost predicate Unseen(b: R.Bucket, from: string, to: string)
  {
    forall k | k in b && to <= k && !(from <= k) :: !Visible(After(to, k))
  }

  /** The visible objects below the target are the swapped ones. */
  lemma BackFrom(b: R.Bucket, from: string, to: string, k': string)
    requires to <= k' && k' in R.Substituted(b, from, to)
    ensures var k := R.Swap(to, from, k');
            && from <= k && R.Swap(from, to, k) == k' && (k in b || (k' in b && !(from <= k')))
  {
    R.SwapBack(to, from, k');
    R.MovedObject(b, from, to, R.Swap(to, from, k'));
  }

  lemma CleanAfter(b: R.Bucket, from: string, to: string)
    requires CleanBelow(Sizes(b), from) && CleanBelow(Sizes(b), to)
    ensures CleanBelow(Sizes(R.Substituted(b, from, to)), to)
  {
    forall k' | k' in Sizes(R.Substituted(b, from, to)) && to <= k' ensures Clean(After(to, k')) {
      BackFrom(b, from, to, k');
      AfterSwap(from, to, R.Swap(to, from, k'));
      assert k' in b ==> k' in Sizes(b);
      assert R.Swap(to, from, k') in b ==> R.Swap(to, from, k') in Sizes(b);
    }
  }

  ghost predicate CarriedAlong(from: string, to: string, base: string, base': string, out: seq<Target>, t': Target)
  {
    exists t :: t in out && from <= t.key && base <= t.rel && t' == Renamed(from, to, base, base', t)
  }

  lemma ContentsAlike(env: Env, v: Vault, v': Vault, from: string, to: string, base: string, base': string,
                      out: seq<Target>, out': seq<Target>, t': Target)
    requires Unseen(v.bucket, from, to) && v'.bucket == R.Substituted(v.bucket, from, to)
    requires ReadsAlike(env, v, v', from, to)
    requires Expansion(Sizes(v.bucket), View(env, v), Pending(from, base), out)
    requires Expansion(Sizes(v'.bucket), View(env, v'), Pending(to, base'), out')
    ensures t' in out' <==> CarriedAlong(from, to, base, base', out, t')
  {
    if t' in out' {
      assert Shown(Sizes(v'.bucket), to, t'.key);
      BackFrom(v.bucket, from, to, t'.key);
      var k := R.Swap(to, from, t'.key);
      MovedTarget(env, v, v', from, to, base, base', k);
      assert TargetOf(Sizes(v.bucket), View(env, v), Pending(from, base), k) in out;
    }
    if CarriedAlong(from, to, base, base', out, t') {
      var t :| t in out && from <= t.key && base <= t.rel && t' == Renamed(from, to, base, base', t);
      assert Shown(Sizes(v.bucket), from, t.key);
      MovedTarget(env, v, v', from, to, base, base', t.key);
    }
  }

  /**
   * Rename, bucket and expansion together: when nothing gets in the way, expanding the renamed or moved folder yields
   * what expanding it before yielded, each target once, with only the key prefix and the folder's own name changed.
   */
  lemma FolderMoveKeepsContents(env: Env, v: Vault, op: Op, after: R.Bucket, base: string, base': string,
                                out: seq<Target>, out': seq<Target>)
    requires Carried(env, v, op, after) && Smooth(env, v, FromOf(env.seg, op), ToOf(env.seg, op))
    requires Unseen(v.bucket, FromOf(env.seg, op), ToOf(env.seg, op))
    requires CleanBelow(Sizes(v.bucket), FromOf(env.seg, op)) && CleanBelow(Sizes(v.bucket), ToOf(env.seg, op))
    requires Yields(Sizes(v.bucket), View(env, v), Pending(FromOf(env.seg, op), base), out)
    requires var v' := Do(env, v, op, after);
             Yields(Sizes(v'.bucket), View(env, v'), Pending(ToOf(env.seg, op), base'), out')
    ensures forall t' :: t' in out' <==> CarriedAlong(FromOf(env.seg, op), ToOf(env.seg, op), base, base', out, t')
    ensures DistinctKeys(out')
  {
    var v', from, to := Do(env, v, op, after), FromOf(env.seg, op), ToOf(env.seg, op);
    FolderReadsAlikeIff(env, v, op, after);
    CarriedIs(env, v, op, after);
    CleanAfter(v.bucket, from, to);
    CleanExpansion(Sizes(v.bucket), View(env, v), Pending(from, base), out);
    CleanExpansion(Sizes(v'.bucket), View(env, v'), Pending(to, base'), out');
    forall t' ensures t' in out' <==> CarriedAlong(from, to, base, base', out, t') {
      ContentsAlike(env, v, v', from, to, base, base', out, out', t');
    }
  }

  // ---------------------------------------------------------------- after a flush

  /** The session's buffer and stored manifests are those of a state of the store protocol. */
  ghost predicate Represents(env: Env, v: Vault, t: MS.State)
  {
    v.buffer == t.buffer && forall d :: Stored(env, v.bucket, d) == MS.Stored(t, d)
  }

  /** No manifest is buffered or stored below a place. */
  ghost predicate Untouched(v: Vault, to: string)
  {
    (forall e | e in v.buffer :: !(to <= e)) && forall k | k in v.bucket && IsManifestObject(k) :: !(to <= DirOf(k))
  }

  lemma UntouchedArrives(env: Env, v: Vault, from: string, to: string, x: string)
    requires Untouched(v, to)
    ensures Arriving(env, v.bucket, from, to, x) == Stored(env, v.bucket, from + x) && to + x !in v.buffer
  {
    TailOf(to, x);
    ManifestObjectOf(to + x);
  }

  lemma UntouchedSmooth(env: Env, v: Vault, from: string, to: string)
    requires Untouched(v, to)
    requires forall e | e in v.buffer && from <= e :: v.buffer[e].manifest == Stored(env, v.bucket, e)
    ensures Smooth(env, v, from, to)
  {
    forall e | e in v.buffer && from <= e
      ensures v.buffer[e].manifest == Arriving(env, v.bucket, from, to, e[|from|..])
    {
      UntouchedArrives(env, v, from, to, e[|from|..]);
      assert from + e[|from|..] == e;
    }
    forall x: string ensures Arriving(env, v.bucket, from, to, x) == Stored(env, v.bucket, from + x) {
      UntouchedArrives(env, v, from, to, x);
    }
  }

  /**
   * After a run of the store that ends in a final flush, with no collision below the folder, a folder rename or move
   * onto a place without manifests keeps what every directory of the folder reads.
   */
  lemma FlushedFolderMoves(env: Env, s: MS.State, ls: seq<MS.Label>, k: nat, v: Vault, op: Op, after: R.Bucket)
    requires MS.Initial(s) && MS.CompatibleRun(env.fp, s, ls) && MS.FinalFlush(env.fp, s, ls, k)
    requires Represents(env, v, MS.At(env.fp, s, ls, |ls|)) && Carried(env, v, op, after)
    requires forall e | e in v.buffer && FromOf(env.seg, op) <= e ::
               MS.NoCollision(env.fp, v.buffer[e].manifest, Stored(env, v.bucket, e))
    requires Untouched(v, ToOf(env.seg, op))
    ensures ReadsAlike(env, v, Do(env, v, op, after), FromOf(env.seg, op), ToOf(env.seg, op))
  {
    var t := MS.At(env.fp, s, ls, |ls|);
    MS.FinalFlushDrains(env.fp, s, ls, k);
    MS.RunKeepsInv(env.fp, s, ls, |ls|);
    forall e | e in v.buffer && FromOf(env.seg, op) <= e ensures v.buffer[e].manifest == Stored(env, v.bucket, e) {
      MS.DrainedIsStored(env.fp, t, e);
    }
    UntouchedSmooth(env, v, FromOf(env.seg, op), ToOf(env.seg, op));
    FolderReadsAlikeIff(env, v, op, after);
  }

  // ---------------------------------------------------------------- stale copies

  /** All manifests a forced flush would write now, with the blobs it writes. */
  ghost predicate WholeFlush(env: Env, v: Vault, landed: map<string, R.Content>)
  {
    Written(env, v, landed) && landed.Keys == MS.ToWrite(env.fp, v.buffer, MS.Forced, 0, v.now)
  }

  lemma FlushedKeys(env: Env, v: Vault, landed: map<string, R.Content>, k: string)
    requires Written(env, v, landed)
    ensures k in Flushed(env, v, landed).bucket <==> k in v.bucket || exists d :: d in landed && k == d + MANIFEST_KEY
  {
  }

  lemma NothingLeft(b: R.Bucket, from: string, to: string, k: string)
    requires R.Beside(from, to) && from <= k
    ensures k !in R.Substituted(b, from, to)
  {
    NotBoth(from, to, k);
    R.KeptObject(b, from, to, k);
  }

  /** Directories of the source are written by the closing flush exactly when they would have been before. */
  lemma SameToWrite(env: Env, v: Vault, op: Op, after: R.Bucket, d: string)
    requires Carried(env, v, op, after) && FromOf(env.seg, op) <= d
    ensures var w := Do(env, v, op, after);
            d in MS.ToWrite(env.fp, w.buffer, MS.Forced, 0, w.now) <==>
            d in MS.ToWrite(env.fp, v.buffer, MS.Forced, 0, v.now)
  {
    if op.Rename? { Longer(op.dir, env.seg(op.old_)); } else { MoveOutside(env, v, op); }
    DoBuffer(env, v, op, after, d);
  }

  lemma KeyBelowSource(env: Env, v: Vault, op: Op, after: R.Bucket, landed: map<string, R.Content>, k: string)
    requires Carried(env, v, op, after) && WholeFlush(env, Do(env, v, op, after), landed) && FromOf(env.seg, op) <= k
    ensures k in Flushed(env, Do(env, v, op, after), landed).bucket <==>
            exists d :: d in landed && k == d + MANIFEST_KEY && FromOf(env.seg, op) <= d
  {
    var from := FromOf(env.seg, op);
    CarriedIs(env, v, op, after);
    NothingLeft(v.bucket, from, ToOf(env.seg, op), k);
    FlushedKeys(env, Do(env, v, op, after), landed, k);
    forall d | d in landed && k == d + MANIFEST_KEY ensures from <= d { PrefixCovers(from, d); }
  }

  /**
   * Forgetting is meant to keep a stale copy from being flushed back, but evicts nothing: after the whole operation
   * and its closing flush the old folder exists again if and only if some directory below it was buffered with changes.
   */
  lemma ReappearsIff(env: Env, v: Vault, op: Op, after: R.Bucket, landed: map<string, R.Content>)
    requires Carried(env, v, op, after) && WholeFlush(env, Do(env, v, op, after), landed)
    ensures (exists k :: k in Flushed(env, Do(env, v, op, after), landed).bucket && FromOf(env.seg, op) <= k) <==>
            exists d :: d in MS.ToWrite(env.fp, v.buffer, MS.Forced, 0, v.now) && FromOf(env.seg, op) <= d
  {
    var from := FromOf(env.seg, op);
    if d :| d in MS.ToWrite(env.fp, v.buffer, MS.Forced, 0, v.now) && from <= d {
      SameToWrite(env, v, op, after, d);
      SourceIsNamed(env.seg, op);
      PrefixCovers(from, d);
      KeyBelowSource(env, v, op, after, landed, d + MANIFEST_KEY);
    }
    if k :| k in Flushed(env, Do(env, v, op, after), landed).bucket && from <= k {
      KeyBelowSource(env, v, op, after, landed, k);
      var d :| d in landed && k == d + MANIFEST_KEY && from <= d;
      SameToWrite(env, v, op, after, d);
    }
  }

  lemma RenameOnParent(env: Env, v: Vault, op: Op, after: R.Bucket)
    requires Carried(env, v, op, after) && op.Rename?
    ensures Read(env, Do(env, v, op, after), op.dir) ==
            Read(env, v, op.dir).RenameEntry(env.seg(op.old_), env.seg(op.new_), op.new_)
  {
    var l := Load(env, v, op.dir);
    ReadLoad(env, v, op.dir, op.dir);
    EditKeyed(env, v, op.dir, m => m);
    SourceTrims(env.seg, op);
    ForgetNothing(l.(bucket := after), FromOf(env.seg, op));
    var old_key, new_key := env.seg(op.old_), env.seg(op.new_);
    ReadEdit(env, l.(bucket := after), op.dir, (m: Manifest) => m.RenameEntry(old_key, new_key, op.new_), op.dir);
  }

  predicate GoodName(env: Env, n: string) { !Blank(n) && NoSlash(n) && NoSlash(env.seg(n)) && env.seg(n) != "" }

  function Sub(env: Env, dir: string, name: string): (d: string) { dir + env.seg(name) + "/" }

  function RenameTo(dir: string, old_: string, new_: string): (op: Op) { Op.Rename(dir, old_, new_, true) }

  /** Three names of folders in one directory: A is a folder and no file, B is unused. */
  ghost predicate Siblings(env: Env, v: Vault, dir: string, a: string, b: string, c: string)
  {
    && DirKey(dir) && Keyed(v) && GoodName(env, a) && GoodName(env, b) && GoodName(env, c)
    && env.seg(a) != env.seg(b) && env.seg(a) != env.seg(c) && env.seg(b) != env.seg(c)
    && Read(env, v, dir).NameFor(env.seg(b)).None? && env.seg(a) !in Read(env, v, dir).files
  }

  lemma SiblingsBeside(env: Env, dir: string, a: string, b: string)
    requires NoSlash(env.seg(a)) && NoSlash(env.seg(b)) && env.seg(a) != env.seg(b)
    ensures R.Beside(Sub(env, dir, a), Sub(env, dir, b))
  {
    ChildApart(dir, env.seg(a), env.seg(b));
    ChildApart(dir, env.seg(b), env.seg(a));
  }

  /** The first rename of the run: A becomes B, and the buffered manifest of A stays where it is. */
  lemma FirstRename(env: Env, v: Vault, dir: string, a: string, b: string, c: string, after: R.Bucket)
    requires Siblings(env, v, dir, a, b, c) && Sub(env, dir, a) in v.buffer
             && Arrived(env, v, RenameTo(dir, a, b), after)
    ensures var v' := Do(env, v, RenameTo(dir, a, b), after);
            && Keyed(v') && v'.bucket == after && (forall k | k in after :: !(Sub(env, dir, a) <= k))
            && Sub(env, dir, a) in v'.buffer && v'.buffer[Sub(env, dir, a)] == v.buffer[Sub(env, dir, a)]
            && Read(env, v', dir).NameFor(env.seg(a)).None?
            && Stored(env, after, Sub(env, dir, c)) == Stored(env, v.bucket, Sub(env, dir, c))
  {
    var op, pa, pb, pc := RenameTo(dir, a, b), Sub(env, dir, a), Sub(env, dir, b), Sub(env, dir, c);
    SiblingsBeside(env, dir, a, b);
    SiblingsBeside(env, dir, c, a);
    SiblingsBeside(env, dir, c, b);
    assert Carried(env, v, op, after);
    CarriedIs(env, v, op, after);
    Longer(dir, env.seg(a));
    DoBuffer(env, v, op, after, pa);
    RenameOnParent(env, v, op, after);
    OpKeyed(env, v, op, after);
    StoredMoved(env, v.bucket, pa, pb, pc);
    forall k | pa <= k ensures k !in after { NothingLeft(v.bucket, pa, pb, k); }
  }

  /** The second rename: C becomes A; the directory still reads its buffered manifest. */
  lemma SecondRename(env: Env, v: Vault, dir: string, a: string, c: string, after: R.Bucket)
    requires DirKey(dir) && Keyed(v) && GoodName(env, a) && GoodName(env, c) && env.seg(a) != env.seg(c)
    requires Sub(env, dir, a) in v.buffer && forall k | k in v.bucket :: !(Sub(env, dir, a) <= k)
    requires Read(env, v, dir).NameFor(env.seg(a)).None? && Arrived(env, v, RenameTo(dir, c, a), after)
    ensures var v' := Do(env, v, RenameTo(dir, c, a), after);
            && Stored(env, v'.bucket, Sub(env, dir, a)) == Stored(env, v.bucket, Sub(env, dir, c))
            && Read(env, v', Sub(env, dir, a)) == v.buffer[Sub(env, dir, a)].manifest
  {
    var op, pa, pc := RenameTo(dir, c, a), Sub(env, dir, a), Sub(env, dir, c);
    SiblingsBeside(env, dir, c, a);
    assert Carried(env, v, op, after);
    CarriedIs(env, v, op, after);
    Longer(dir, env.seg(a));
    DoBuffer(env, v, op, after, pa);
    StoredMoved(env, v.bucket, pc, pa, pa);
    assert pa[|pa|..] == "" && pc + "" == pc && pa + "" == pa;
    assert pa <= pa + MANIFEST_KEY;
  }

  lemma BrowsedSiblings(env: Env, v: Vault, dir: string, a: string, b: string, c: string)
    requires Siblings(env, v, dir, a, b, c)
    ensures var v1 := Load(env, v, Sub(env, dir, a));
            && Siblings(env, v1, dir, a, b, c) && Sub(env, dir, a) in v1.buffer
            && v1.buffer[Sub(env, dir, a)].manifest == Read(env, v, Sub(env, dir, a)) && v1.bucket == v.bucket
  {
    ReadLoad(env, v, Sub(env, dir, a), dir);
  }

  /**
   * Browse A, rename A to B, rename C to A: the folder now called A holds C's objects and C's stored manifest, but
   * reads A's old manifest, whatever either contained.
   */
  lemma ReusedNameReadsStale(env: Env, v: Vault, dir: string, a: string, b: string, c: string, x: R.Bucket, y: R.Bucket)
    requires Siblings(env, v, dir, a, b, c)
    requires var v1 := Load(env, v, Sub(env, dir, a));
             Arrived(env, v1, RenameTo(dir, a, b), x)
             && Arrived(env, Do(env, v1, RenameTo(dir, a, b), x), RenameTo(dir, c, a), y)
    ensures var v' := Exec(env, v,
            [Browse(Sub(env, dir, a)), Run(RenameTo(dir, a, b), x), Run(RenameTo(dir, c, a), y)]);
            && Stored(env, v'.bucket, Sub(env, dir, a)) == Stored(env, v.bucket, Sub(env, dir, c))
            && Read(env, v', Sub(env, dir, a)) == Read(env, v, Sub(env, dir, a))
  {
    BrowseThenTwo(env, v, Sub(env, dir, a), RenameTo(dir, a, b), x, RenameTo(dir, c, a), y);
    BrowsedSiblings(env, v, dir, a, b, c);
    TwoRenames(env, Load(env, v, Sub(env, dir, a)), dir, a, b, c, x, y);
  }

  lemma TwoRenames(env: Env, v: Vault, dir: string, a: string, b: string, c: string, x: R.Bucket, y: R.Bucket)
    requires Siblings(env, v, dir, a, b, c) && Sub(env, dir, a) in v.buffer
    requires Arrived(env, v, RenameTo(dir, a, b), x)
    requires Arrived(env, Do(env, v, RenameTo(dir, a, b), x), RenameTo(dir, c, a), y)
    ensures var v' := Do(env, Do(env, v, RenameTo(dir, a, b), x), RenameTo(dir, c, a), y);
            && Stored(env, v'.bucket, Sub(env, dir, a)) == Stored(env, v.bucket, Sub(env, dir, c))
            && Read(env, v', Sub(env, dir, a)) == v.buffer[Sub(env, dir, a)].manifest
  {
    FirstRename(env, v, dir, a, b, c, x);
    SecondRename(env, Do(env, v, RenameTo(dir, a, b), x), dir, a, c, y);
  }

  lemma BrowseThenTwo(env: Env, v: Vault, d: string, p: Op, x: R.Bucket, q: Op, y: R.Bucket)
    ensures Exec(env, v, [Browse(d), Run(p, x), Run(q, y)]) == Do(env, Do(env, Load(env, v, d), p, x), q, y)
  {
    var s1, s2, s3 := Browse(d), Run(p, x), Run(q, y);
    assert [s1, s2, s3][..2] == [s1, s2] && [s1, s2][..1] == [s1] && [s1][..0] == [];
    assert Exec(env, v, [s1]) == Load(env, v, d);
    assert Exec(env, v, [s1, s2]) == Do(env, Load(env, v, d), p, x);
  }

  /** What the user sees of a directory that reads a manifest not its own: its files are listed as unrecovered. */
  lemma StaleShowsUnrecovered(env: Env, v: Vault, d: string, hash: string, o: V.RawObject)
    requires DirKey(d) && IsHash(hash) && o.key == d + hash && !o.isPrefix && Read(env, v, d).NameFor(hash).None?
    ensures V.Display(o, Read(env, v, d)).name == "[unrecovered] " + hash[..16]
  {
    V.OrphanShown(Read(env, v, d), d, hash, o);
  }

  /** And the next edit that is flushed writes that manifest over the stored one. */
  lemma StaleOverwrites(env: Env, v: Vault, d: string, f: Manifest -> Manifest, landed: map<string, R.Content>)
    requires d in v.buffer && d in landed && Written(env, Edit(env, v, d, f), landed)
    ensures Stored(env, Flushed(env, Edit(env, v, d, f), landed).bucket, d) == f(v.buffer[d].manifest)
  {
    ManifestObjectOf(d);
    ReadEdit(env, v, d, f, d);
  }

  /** Moving a folder onto one of the same name: unless it is buffered, the target reads the moved folder's manifest. */
  lemma MergeForgetsTarget(env: Env, v: Vault, op: Op, after: R.Bucket)
    requires Carried(env, v, op, after) && ToOf(env.seg, op) !in v.buffer
             && FromOf(env.seg, op) + MANIFEST_KEY in v.bucket
    ensures Read(env, Do(env, v, op, after), ToOf(env.seg, op)) == Stored(env, v.bucket, FromOf(env.seg, op))
  {
    var from, to := FromOf(env.seg, op), ToOf(env.seg, op);
    SourceIsNamed(env.seg, op);
    DoBelow(env, v, op, after, "");
    ReadMoved(env, v, from, to, to);
    assert to + "" == to && to[|to|..] == "" && from + "" == from;
  }

  // ---------------------------------------------------------------- the operation as the worker runs it

  /** The backend and the store as one session. */
  ghost function Now(backend: R.Backend, store: MS.Store, now: nat): (v: Vault)
    reads backend, store
  {
    Vault(backend.objects, store.inner, now)
  }

  /** Load a directory's manifest: from the buffer, or fetched and inserted. */
  method LoadManifest(env: Env, backend: R.Backend, store: MS.Store, dir: string, now: nat) returns (m: Manifest)
    modifies store
    ensures Now(backend, store, now) == Load(env, old(Now(backend, store, now)), dir)
    ensures m == Read(env, old(Now(backend, store, now)), dir)
  {
    var known := store.LookUp(dir);
    if known.Some? { return known.value; }
    var fetched := Stored(env, backend.objects, dir);
    m := store.InsertIfAbsent(env.fp, dir, fetched, now);
  }

  lemma BlobsOneMore(landed: map<string, R.Content>, d: string, c: R.Content)
    ensures Blobs(landed[d := c]) == Blobs(landed)[d + MANIFEST_KEY := c]
  {
    var l, r := Blobs(landed[d := c]), Blobs(landed)[d + MANIFEST_KEY := c];
    ManifestObjectOf(d);
    forall e | e in landed[d := c]
      ensures DirOf(e + MANIFEST_KEY) == e && e + MANIFEST_KEY in r
    {
      ManifestObjectOf(e);
    }
    assert l.Keys == r.Keys;
  }

  lemma BufferOneMore(env: Env, v: Vault, landed: map<string, R.Content>, d: string, c: R.Content)
    requires Written(env, v, landed) && d in v.buffer && d !in landed && env.decode(c) == v.buffer[d].manifest
    ensures Written(env, v, landed[d := c])
    ensures Flushed(env, v, landed[d := c]).buffer ==
            MS.Recorded(env.fp, Flushed(env, v, landed).buffer, d, env.fp(v.buffer[d].manifest))
  {
  }

  lemma PlusUpdate(a: R.Bucket, b: R.Bucket, k: string, c: R.Content)
    ensures a + b[k := c] == (a + b)[k := c]
  {
  }

  lemma FlushOneMore(env: Env, v: Vault, landed: map<string, R.Content>, d: string, c: R.Content)
    requires Written(env, v, landed) && d in v.buffer && d !in landed && env.decode(c) == v.buffer[d].manifest
    ensures Written(env, v, landed[d := c])
    ensures var w := Flushed(env, v, landed);
            Flushed(env, v, landed[d := c]) ==
            Vault(w.bucket[d + MANIFEST_KEY := c], MS.Recorded(env.fp, w.buffer, d, env.fp(v.buffer[d].manifest)),
              w.now)
  {
    BlobsOneMore(landed, d, c);
    PlusUpdate(v.bucket, Blobs(landed), d + MANIFEST_KEY, c);
    BufferOneMore(env, v, landed, d, c);
  }

  lemma FlushNone(env: Env, v: Vault)
    ensures Written(env, v, map[]) && Flushed(env, v, map[]) == v
  {
  }

  /** Write and record one directory of a flush. */
  method WriteOne(env: Env, backend: R.Backend, store: MS.Store, now: nat, d: string, c: R.Content, f: nat,
                  ghost v: Vault, ghost landed: map<string, R.Content>)
    requires Written(env, v, landed) && Now(backend, store, now) == Flushed(env, v, landed)
    requires d in v.buffer && d !in landed && env.decode(c) == v.buffer[d].manifest && f == env.fp(v.buffer[d].manifest)
    modifies backend, store
    ensures Written(env, v, landed[d := c]) && Now(backend, store, now) == Flushed(env, v, landed[d := c])
  {
    FlushOneMore(env, v, landed, d, c);
    backend.objects := backend.objects[d + MANIFEST_KEY := c];
    store.RecordWrite(env.fp, d, f);
  }

  /** A forced flush: snapshot, write and record one directory after another; a failed write ends it. */
  method FlushForced(env: Env, encode: Manifest -> R.Content, backend: R.Backend, store: MS.Store, now: nat,
                     fails: nat -> bool)
    returns (ok: bool, ghost landed: map<string, R.Content>)
    requires forall m :: env.decode(encode(m)) == m
    modifies backend, store
    ensures Written(env, old(Now(backend, store, now)), landed)
    ensures Now(backend, store, now) == Flushed(env, old(Now(backend, store, now)), landed)
    ensures landed.Keys <= MS.ToWrite(env.fp, old(Now(backend, store, now)).buffer, MS.Forced, 0, now)
    ensures ok ==> WholeFlush(env, old(Now(backend, store, now)), landed)
    ensures !ok ==> exists n :: fails(n)
  {
    ghost var v := Now(backend, store, now);
    var jobs := store.Snapshot(env.fp, MS.Forced, 0, now);
    var todo := jobs.Keys;
    landed := map[];
    FlushNone(env, v);
    var n := 0;
    while todo != {}
      invariant todo <= jobs.Keys && landed.Keys == jobs.Keys - todo
      invariant Written(env, v, landed) && Now(backend, store, now) == Flushed(env, v, landed)
      decreases todo
    {
      var d :| d in todo;
      if fails(n) { return false, landed; }
      var c := encode(jobs[d].0);
      WriteOne(env, backend, store, now, d, c, jobs[d].1, v, landed);
      landed := landed[d := c];
      todo := todo - {d};
      n := n + 1;
    }
    ok := true;
  }

  lemma RunSingle(env: Env, v: Vault, st: Step)
    ensures Exec(env, v, [st]) == Next(env, v, st) && (PossibleRun(env, v, [st]) <==> Possible(env, v, st))
  {
    assert [st][..0] == [];
  }

  lemma RunPair(env: Env, v: Vault, x: Step, y: Step)
    ensures Exec(env, v, [x, y]) == Next(env, Next(env, v, x), y)
    ensures PossibleRun(env, v, [x, y]) <==> Possible(env, v, x) && Possible(env, Next(env, v, x), y)
  {
    RunSingle(env, v, x);
    assert [x, y][..1] == [x];
  }

  /** The rename broke midway in the backend: the parent was loaded, nothing else was touched. */
  ghost predicate BrokeOff(env: Env, v: Vault, op: Op, sts: seq<Step>)
    requires op.Rename? || op.Move?
  {
    var from, to := FromOf(env.seg, op), ToOf(env.seg, op);
    && |sts| == 1 && sts[0].Broken? && sts[0].op == op
    && R.Outcome(v.bucket, sts[0].after, from, to, R.Calm(v.bucket, from, to), false)
  }

  /** The objects were renamed and the parent edited; the closing flush wrote some of what it had to. */
  ghost predicate Performed(env: Env, v: Vault, op: Op, sts: seq<Step>)
  {
    && |sts| == 2 && sts[0].Run? && sts[0].op == op && Arrived(env, v, op, sts[0].after) && sts[1].Flush?
    && var u := Do(env, v, op, sts[0].after);
       Written(env, u, sts[1].landed) && sts[1].landed.Keys <= MS.ToWrite(env.fp, u.buffer, MS.Forced, 0, u.now)
  }

  /** The steps of a rename that went through: the operation and a whole flush. */
  ghost predicate WentThrough(env: Env, v: Vault, op: Op, sts: seq<Step>)
  {
    && Performed(env, v, op, sts) && GoesThrough(env, v, op)
    && WholeFlush(env, Do(env, v, op, sts[0].after), sts[1].landed)
  }

  /** The new name is blank, slashed or taken. */
  predicate Refused(env: Env, v: Vault, op: Op)
    requires op.Rename?
  {
    Blank(op.new_) || !NoSlash(op.new_)
      || (env.seg(op.old_) != env.seg(op.new_) && Read(env, v, op.dir).NameFor(env.seg(op.new_)).Some?)
  }

  /**
   * How a rename takes the session from v to w: a bad name changes nothing, an unchanged one neither, a taken one only
   * loads the parent; otherwise it breaks midway in the backend or is performed, and succeeds with the closing flush.
   */
  ghost predicate Ran(env: Env, v: Vault, w: Vault, op: Op, ok: bool, sts: seq<Step>)
    requires op.Rename?
  {
    && w == Exec(env, v, sts) && PossibleRun(env, v, sts)
    && if Blank(op.new_) || !NoSlash(op.new_) then !ok && sts == []
       else if env.seg(op.old_) == env.seg(op.new_) then ok && sts == []
       else if Refused(env, v, op) then !ok && sts == [Browse(op.dir)]
       else
         || (!ok && BrokeOff(env, v, op, sts))
         || (if ok then WentThrough(env, v, op, sts) else Performed(env, v, op, sts))
  }

  lemma RanBroken(env: Env, v: Vault, op: Op, after: R.Bucket)
    requires op.Rename? && op.isDir && GoesThrough(env, v, op) && Survives(env, v, op, after)
    requires var from, to := FromOf(env.seg, op), ToOf(env.seg, op);
             R.Outcome(v.bucket, after, from, to, R.Calm(v.bucket, from, to), false)
    ensures Ran(env, v, Next(env, v, Broken(op, after)), op, false, [Broken(op, after)])
  {
    RunSingle(env, v, Broken(op, after));
  }

  lemma RunThenFlush(env: Env, v: Vault, op: Op, after: R.Bucket, landed: map<string, R.Content>)
    requires Survives(env, v, op, after) && Written(env, Do(env, v, op, after), landed)
    ensures Exec(env, v, [Run(op, after), Flush(landed)]) == Flushed(env, Do(env, v, op, after), landed)
    ensures PossibleRun(env, v, [Run(op, after), Flush(landed)])
  {
    RunPair(env, v, Run(op, after), Flush(landed));
  }

  lemma RanBoth(env: Env, v: Vault, op: Op, after: R.Bucket, landed: map<string, R.Content>, ok: bool)
    requires op.Rename? && Survives(env, v, op, after) && Arrived(env, v, op, after) && GoesThrough(env, v, op)
    requires var u := Do(env, v, op, after);
             && Written(env, u, landed) && landed.Keys <= MS.ToWrite(env.fp, u.buffer, MS.Forced, 0, u.now)
             && (ok ==> WholeFlush(env, u, landed))
    ensures Ran(env, v, Flushed(env, Do(env, v, op, after), landed), op, ok, [Run(op, after), Flush(landed)])
  {
    RunThenFlush(env, v, op, after, landed);
    var sts := [Run(op, after), Flush(landed)];
    assert Performed(env, v, op, sts);
    assert !Refused(env, v, op);
  }

  /**
   * Renaming a folder: validate, load the parent, refuse a taken name, move the objects, forget, edit the parent,
   * flush. It fails exactly for a refused name, or when a request of the backend failed.
   */
  method RenameFolder(env: Env, encode: Manifest -> R.Content, backend: R.Backend, store: MS.Store, dir: string,
                      old_: string, new_: string, now: nat, fails: nat -> bool)
    returns (ok: bool, ghost sts: seq<Step>)
    requires forall m :: env.decode(encode(m)) == m
    modifies backend, store
    ensures Ran(env, old(Now(backend, store, now)), Now(backend, store, now), RenameTo(dir, old_, new_), ok, sts)
    ensures !ok ==> Refused(env, old(Now(backend, store, now)), RenameTo(dir, old_, new_)) || exists n :: fails(n)
  {
    ghost var v, op := Now(backend, store, now), RenameTo(dir, old_, new_);
    if Blank(new_) || !NoSlash(new_) { return false, []; }
    if env.seg(old_) == env.seg(new_) { return true, []; }
    var existing := LoadManifest(env, backend, store, dir, now);
    if existing.NameFor(env.seg(new_)).Some? {
      RunSingle(env, v, Browse(dir));
      return false, [Browse(dir)];
    }
    ghost var after, landed;
    ok, after := MoveAndEdit(env, backend, store, dir, old_, new_, now, fails, v);
    if !ok {
      RanBroken(env, v, op, after);
      return false, [Broken(op, after)];
    }
    ok, landed := FlushForced(env, encode, backend, store, now, fails);
    RanBoth(env, v, op, after, landed, ok);
    sts := [Run(op, after), Flush(landed)];
  }

  function MoveOf(src: string, dest: string, name: string): (op: Op) { Op.Move(src, dest, name, true) }

  lemma SamePlace(a: string, b: string, leaf: string)
    ensures a + leaf + "/" == b + leaf + "/" <==> a == b
  {
    R.SameTail(a + leaf, b + leaf, "/");
    R.SameTail(a, b, leaf);
  }

  /**
   * Moving a folder: skip it where it stays or would land inside itself, else move the objects and carry the record
   * over; flush in either case. It fails only if a request failed, and then no manifest was touched in memory.
   */
  method MoveFolder(env: Env, encode: Manifest -> R.Content, backend: R.Backend, store: MS.Store, src: string,
                    dest: string, name: string, now: nat, fails: nat -> bool)
    returns (ok: bool, moved: nat, ghost sts: seq<Step>)
    requires forall m :: env.decode(encode(m)) == m
    modifies backend, store
    ensures Now(backend, store, now) == Exec(env, old(Now(backend, store, now)), sts)
    ensures PossibleRun(env, old(Now(backend, store, now)), sts)
    ensures !ok ==> moved == 0 && BrokeOff(env, old(Now(backend, store, now)), MoveOf(src, dest, name), sts)
    ensures !ok ==> exists n :: fails(n)
    ensures ok ==> (moved == 1 <==> GoesThrough(env, old(Now(backend, store, now)), MoveOf(src, dest, name)))
    ensures ok && moved == 1 ==> Performed(env, old(Now(backend, store, now)), MoveOf(src, dest, name), sts)
    ensures ok && moved != 1 ==> moved == 0 && |sts| == 1 && sts[0].Flush?
  {
    ghost var v, op := Now(backend, store, now), MoveOf(src, dest, name);
    var key := env.seg(name);
    var from, to := src + key + "/", dest + key + "/";
    SamePlace(src, dest, key);
    moved := 0;
    ghost var after, landed;
    var flushed;
    if to == from || from <= dest {
      flushed, landed := FlushForced(env, encode, backend, store, now, fails);
      RunSingle(env, v, Flush(landed));
      return true, 0, [Flush(landed)];
    }
    ok, after := MoveAndCarry(env, backend, store, src, dest, name, now, fails, v);
    if !ok {
      RunSingle(env, v, Broken(op, after));
      return false, 0, [Broken(op, after)];
    }
    flushed, landed := FlushForced(env, encode, backend, store, now, fails);
    RunThenFlush(env, v, op, after, landed);
    moved, sts := 1, [Run(op, after), Flush(landed)];
  }

  /** Move the objects, take the record out of the source directory and put it into the destination. */
  method MoveAndCarry(env: Env, backend: R.Backend, store: MS.Store, src: string, dest: string, name: string, now: nat,
                      fails: nat -> bool, ghost v: Vault)
    returns (ok: bool, ghost after: R.Bucket)
    requires Now(backend, store, now) == v && GoesThrough(env, v, MoveOf(src, dest, name))
    modifies backend, store
    ensures Survives(env, v, MoveOf(src, dest, name), after) && (!ok ==> exists n :: fails(n))
    ensures var from, to := FromOf(env.seg, MoveOf(src, dest, name)), ToOf(env.seg, MoveOf(src, dest, name));
            R.Outcome(v.bucket, after, from, to, R.Calm(v.bucket, from, to), ok)
    ensures !ok ==> Now(backend, store, now) == Next(env, v, Broken(MoveOf(src, dest, name), after))
    ensures ok ==> Arrived(env, v, MoveOf(src, dest, name), after)
    ensures ok ==> Now(backend, store, now) == Do(env, v, MoveOf(src, dest, name), after)
  {
    var key := env.seg(name);
    ok := backend.S3RenameDir(src + key + "/", dest + key + "/", fails);
    after := backend.objects;
    if !ok { return; }
    CalmArrives(env, v, MoveOf(src, dest, name), after);
    CarryRecord(env, backend, store, src, dest, key, now);
  }

  method CarryRecord(env: Env, backend: R.Backend, store: MS.Store, src: string, dest: string, key: string, now: nat)
    modifies store
    ensures Now(backend, store, now) == MovedRecord(env, old(Now(backend, store, now)), src, dest, key)
  {
    var loaded := LoadManifest(env, backend, store, src, now);
    var taken := store.TakeEntry(src, key, now);
    if taken.Some? {
      var there := LoadManifest(env, backend, store, dest, now);
      store.ApplyEdit(dest, (m: Manifest) => m.InsertEntry(key, taken.value), now);
    }
  }

  function DeletionOf(dir: string, name: string): (op: Op) { Op.Delete(dir, name, true) }

  /** Forgetting another key before or after an edit makes no difference. */
  lemma ForgetThenEdit(env: Env, v: Vault, d: string, f: Manifest -> Manifest, key: string)
    requires key != d
    ensures Forget(Edit(env, v, d, f), key) == Edit(env, Forget(v, key), d, f)
  {
    assert Forget(Edit(env, v, d, f), key).buffer == Edit(env, Forget(v, key), d, f).buffer;
  }

  /**
   * Deleting a folder: remove the objects, edit the parent, forget, flush; the result of the flush is not looked at. It
   * fails only if a request failed, and then no manifest was touched in memory.
   */
  method DeleteFolder(env: Env, encode: Manifest -> R.Content, backend: R.Backend, store: MS.Store, dir: string,
                      name: string, now: nat, fails: nat -> bool)
    returns (ok: bool, ghost sts: seq<Step>)
    requires (forall m :: env.decode(encode(m)) == m) && NoSlash(env.seg(name)) && env.seg(name) != ""
    modifies backend, store
    ensures Now(backend, store, now) == Exec(env, old(Now(backend, store, now)), sts)
    ensures PossibleRun(env, old(Now(backend, store, now)), sts)
    ensures ok ==> Performed(env, old(Now(backend, store, now)), DeletionOf(dir, name), sts)
    ensures !ok ==> |sts| == 1 && sts[0].Broken? && sts[0].op == DeletionOf(dir, name) && exists n :: fails(n)
  {
    ghost var v, op := Now(backend, store, now), DeletionOf(dir, name);
    ghost var after, landed;
    ok, after := DeleteAndEdit(env, backend, store, dir, name, now, fails, v);
    if !ok {
      RunSingle(env, v, Broken(op, after));
      return false, [Broken(op, after)];
    }
    var flushed;
    flushed, landed := FlushForced(env, encode, backend, store, now, fails);
    RunThenFlush(env, v, op, after, landed);
    sts := [Run(op, after), Flush(landed)];
  }

  method DeleteAndEdit(env: Env, backend: R.Backend, store: MS.Store, dir: string, name: string, now: nat,
                       fails: nat -> bool, ghost v: Vault)
    returns (ok: bool, ghost after: R.Bucket)
    requires Now(backend, store, now) == v && NoSlash(env.seg(name)) && env.seg(name) != ""
    modifies backend, store
    ensures Survives(env, v, DeletionOf(dir, name), after)
    ensures !ok ==> Now(backend, store, now) == Next(env, v, Broken(DeletionOf(dir, name), after)) && exists n :: fails(n)
    ensures ok ==> Arrived(env, v, DeletionOf(dir, name), after)
    ensures ok ==> Now(backend, store, now) == Do(env, v, DeletionOf(dir, name), after)
  {
    var key := env.seg(name);
    ok := backend.DeleteFolder(dir + key + "/", fails);
    after := backend.objects;
    if !ok { return; }
    var loaded := LoadManifest(env, backend, store, dir, now);
    store.ApplyEdit(dir, (m: Manifest) => m.Remove(key), now);
    TrimmedLeaf(dir, key);
    ForgetThenEdit(env, v.(bucket := after), dir, (m: Manifest) => m.Remove(key), TrimEnd(dir + key + "/"));
    store.Forget(TrimEnd(dir + key + "/"));
  }

  lemma TrimmedLeaf(dir: string, leaf: string)
    requires NoSlash(leaf) && leaf != ""
    ensures TrimEnd(dir + leaf + "/") == dir + leaf
  {
    assert leaf[|leaf| - 1] in leaf;
    TrimSlashes(dir + leaf);
  }

  /** Whatever becomes of a rename, every record stays under the on-disk name of the name it holds. */
  lemma RenameKeepsCoherence(env: Env, v: Vault, w: Vault, op: Op, ok: bool, sts: seq<Step>)
    requires CoherentVault(env, v) && op.Rename? && Ran(env, v, w, op, ok, sts)
    ensures CoherentVault(env, w)
  {
    RunCoherent(env, v, sts);
  }

  /** Move the objects, forget the old prefix, edit the parent. */
  method MoveAndEdit(env: Env, backend: R.Backend, store: MS.Store, dir: string, old_: string, new_: string, now: nat,
                     fails: nat -> bool, ghost v: Vault)
    returns (ok: bool, ghost after: R.Bucket)
    requires Now(backend, store, now) == Load(env, v, dir) && GoesThrough(env, v, RenameTo(dir, old_, new_))
    modifies backend, store
    ensures Survives(env, v, RenameTo(dir, old_, new_), after) && (!ok ==> exists n :: fails(n))
    ensures var from, to := Sub(env, dir, old_), Sub(env, dir, new_);
            R.Outcome(v.bucket, after, from, to, R.Calm(v.bucket, from, to), ok)
    ensures !ok ==> Now(backend, store, now) == Next(env, v, Broken(RenameTo(dir, old_, new_), after))
    ensures ok ==> Arrived(env, v, RenameTo(dir, old_, new_), after)
    ensures ok ==> Now(backend, store, now) == Do(env, v, RenameTo(dir, old_, new_), after)
  {
    var old_key, new_key := env.seg(old_), env.seg(new_);
    ok := backend.S3RenameDir(dir + old_key + "/", dir + new_key + "/", fails);
    after := backend.objects;
    if !ok { return; }
    CalmArrives(env, v, RenameTo(dir, old_, new_), after);
    store.Forget(TrimEnd(dir + old_key + "/"));
    var again := LoadManifest(env, backend, store, dir, now);
    store.ApplyEdit(dir, (m: Manifest) => m.RenameEntry(old_key, new_key, new_), now);
  }

  lemma CalmArrives(env: Env, v: Vault, op: Op, after: R.Bucket)
    requires (op.Rename? || op.Move?) && op.isDir
    requires var from, to := FromOf(env.seg, op), ToOf(env.seg, op);
             R.Outcome(v.bucket, after, from, to, R.Calm(v.bucket, from, to), true)
    ensures Arrived(env, v, op, after) && Survives(env, v, op, after)
  {
    var from, to := FromOf(env.seg, op), ToOf(env.seg, op);
    if R.Escapes(v.bucket, from, to) { R.EscapesIsCalm(v.bucket, from, to); }
  }

  // ---------------------------------------------------------------- rename, flush, expand

  lemma {:induction false} ManifestInvisible(x: string)
    requires DirKey(x)
    ensures !Visible(x + MANIFEST_KEY)
    decreases |x|
  {
    if x == "" {
      assert x + MANIFEST_KEY == MANIFEST_KEY;
      assert NoSlash(MANIFEST_KEY);
      FirstSlashAt(MANIFEST_KEY, "");
    } else {
      var i := FirstSlash(x);
      SlashFound(x);
      FirstSlashAt(x[..i], x[i + 1..] + MANIFEST_KEY);
      assert x == x[..i] + "/" + x[i + 1..];
      assert x + MANIFEST_KEY == x[..i] + "/" + (x[i + 1..] + MANIFEST_KEY);
      ManifestInvisible(x[i + 1..]);
      assert (x + MANIFEST_KEY)[i + 1..] == x[i + 1..] + MANIFEST_KEY;
    }
  }

  /** A flush writes nothing visible. */
  lemma BlobInvisible(landed: map<string, R.Content>, to: string, k: string)
    requires Slashed(to) && to <= k && k in Blobs(landed) && forall d | d in landed :: DirKey(d)
    ensures !Visible(After(to, k))
  {
    var d :| d in landed && k == d + MANIFEST_KEY;
    PrefixCovers(to, d);
    assert After(to, k) == After(to, d) + MANIFEST_KEY;
    ManifestInvisible(After(to, d));
  }

  /** One object seen before and after a flush. */
  lemma FlushedTarget(env: Env, u: Vault, landed: map<string, R.Content>, to: string, base: string, k: string)
    requires Keyed(u) && Written(env, u, landed) && Slashed(to)
    ensures var w := Flushed(env, u, landed);
            && (Shown(Sizes(w.bucket), to, k) <==> Shown(Sizes(u.bucket), to, k))
            && (Shown(Sizes(u.bucket), to, k) ==>
                  TargetOf(Sizes(w.bucket), View(env, w), Pending(to, base), k)
                  == TargetOf(Sizes(u.bucket), View(env, u), Pending(to, base), k))
  {
    var w := Flushed(env, u, landed);
    if to <= k && k in Blobs(landed) { BlobInvisible(landed, to, k); }
    if Shown(Sizes(u.bucket), to, k) {
      forall x: string ensures Read(env, w, to + x) == Read(env, u, to + x) { ReadFlush(env, u, landed, to + x); }
      ResolvedAlike(env, u, w, to, to, base, After(to, k), |u.bucket[k]|);
    }
  }

  /** Expansion does not notice a flush. */
  lemma FlushedExpansion(env: Env, u: Vault, landed: map<string, R.Content>, to: string, base: string, out: seq<Target>)
    requires Keyed(u) && Written(env, u, landed) && Slashed(to)
    requires var w := Flushed(env, u, landed); Expansion(Sizes(w.bucket), View(env, w), Pending(to, base), out)
    ensures Expansion(Sizes(u.bucket), View(env, u), Pending(to, base), out)
  {
    var w := Flushed(env, u, landed);
    forall k | Shown(Sizes(u.bucket), to, k)
      ensures TargetOf(Sizes(u.bucket), View(env, u), Pending(to, base), k) in out
    {
      FlushedTarget(env, u, landed, to, base, k);
    }
    forall t | t in out
      ensures Shown(Sizes(u.bucket), to, t.key)
              && t == TargetOf(Sizes(u.bucket), View(env, u), Pending(to, base), t.key)
    {
      assert Shown(Sizes(w.bucket), to, t.key);
      FlushedTarget(env, u, landed, to, base, t.key);
    }
  }

  /** Buffered directories below a place have no empty segments either. */
  ghost predicate TidyBelow(v: Vault, to: string)
  {
    CleanBelow(Sizes(v.bucket), to) && forall d | d in v.buffer && to <= d :: Clean(After(to, d + MANIFEST_KEY))
  }

  lemma CleanFlushed(env: Env, v: Vault, op: Op, after: R.Bucket, landed: map<string, R.Content>)
    requires Carried(env, v, op, after) && Written(env, Do(env, v, op, after), landed)
    requires CleanBelow(Sizes(v.bucket), FromOf(env.seg, op)) && TidyBelow(v, ToOf(env.seg, op))
    ensures CleanBelow(Sizes(Flushed(env, Do(env, v, op, after), landed).bucket), ToOf(env.seg, op))
  {
    var u, to := Do(env, v, op, after), ToOf(env.seg, op);
    CarriedIs(env, v, op, after);
    CleanAfter(v.bucket, FromOf(env.seg, op), to);
    forall k | k in Sizes(Flushed(env, u, landed).bucket) && to <= k ensures Clean(After(to, k)) {
      if k in Blobs(landed) {
        var d :| d in landed && k == d + MANIFEST_KEY;
        SourceIsNamed(env.seg, op);
        PrefixCovers(to, d);
        if op.Rename? { Longer(op.dir, env.seg(op.new_)); } else { MoveOutside(env, v, op); }
        DoBuffer(env, v, op, after, d);
      } else {
        assert k in Sizes(u.bucket);
      }
    }
  }

  /** What expanding the folder must give after the rename and its flush. */
  lemma ContentsAfterFlush(env: Env, v: Vault, op: Op, after: R.Bucket, landed: map<string, R.Content>,
                           base: string, base': string, out: seq<Target>, out': seq<Target>)
    requires Carried(env, v, op, after) && Smooth(env, v, FromOf(env.seg, op), ToOf(env.seg, op))
    requires Unseen(v.bucket, FromOf(env.seg, op), ToOf(env.seg, op)) && Written(env, Do(env, v, op, after), landed)
    requires CleanBelow(Sizes(v.bucket), FromOf(env.seg, op)) && TidyBelow(v, ToOf(env.seg, op))
    requires Expansion(Sizes(v.bucket), View(env, v), Pending(FromOf(env.seg, op), base), out)
    requires var w := Flushed(env, Do(env, v, op, after), landed);
             Yields(Sizes(w.bucket), View(env, w), Pending(ToOf(env.seg, op), base'), out')
    ensures forall t' :: t' in out' <==> CarriedAlong(FromOf(env.seg, op), ToOf(env.seg, op), base, base', out, t')
    ensures DistinctKeys(out')
  {
    var u, from, to := Do(env, v, op, after), FromOf(env.seg, op), ToOf(env.seg, op);
    var w := Flushed(env, u, landed);
    SourceIsNamed(env.seg, op);
    CleanFlushed(env, v, op, after, landed);
    CleanExpansion(Sizes(w.bucket), View(env, w), Pending(to, base'), out');
    OpKeyed(env, v, op, after);
    FlushedExpansion(env, u, landed, to, base', out');
    FolderReadsAlikeIff(env, v, op, after);
    CarriedIs(env, v, op, after);
    forall t' ensures t' in out' <==> CarriedAlong(from, to, base, base', out, t') {
      ContentsAlike(env, v, u, from, to, base, base', out, out', t');
    }
  }

  /** Nothing gets in the way of renaming the folder, and `out` is what it contains. */
  ghost predicate Ready(env: Env, v: Vault, dir: string, old_: string, new_: string, out: seq<Target>)
  {
    var from, to := Sub(env, dir, old_), Sub(env, dir, new_);
    && Keyed(v) && DirKey(dir) && GoodName(env, old_) && GoodName(env, new_) && env.seg(old_) != env.seg(new_)
    && Smooth(env, v, from, to) && Unseen(v.bucket, from, to) && CleanBelow(Sizes(v.bucket), from) && TidyBelow(v, to)
    && Expansion(Sizes(v.bucket), View(env, v), Pending(from, old_), out)
  }

  lemma RanIs(env: Env, v: Vault, w: Vault, op: Op, sts: seq<Step>)
    requires op.Rename? && Ran(env, v, w, op, true, sts) && env.seg(op.old_) != env.seg(op.new_)
    ensures WentThrough(env, v, op, sts) && w == Flushed(env, Do(env, v, op, sts[0].after), sts[1].landed)
  {
    assert Performed(env, v, op, sts) && sts == [Run(op, sts[0].after), Flush(sts[1].landed)];
    RunPair(env, v, sts[0], sts[1]);
  }

  lemma ReadyCarried(env: Env, v: Vault, dir: string, old_: string, new_: string, out: seq<Target>, sts: seq<Step>)
    requires Ready(env, v, dir, old_, new_, out) && WentThrough(env, v, RenameTo(dir, old_, new_), sts)
    ensures Carried(env, v, RenameTo(dir, old_, new_), sts[0].after)
  {
    RenamesApart(env, v, RenameTo(dir, old_, new_));
  }

  lemma AfterRename(env: Env, v: Vault, w: Vault, dir: string, old_: string, new_: string, sts: seq<Step>,
                    out: seq<Target>, out': seq<Target>)
    requires Ready(env, v, dir, old_, new_, out) && Ran(env, v, w, RenameTo(dir, old_, new_), true, sts)
    requires Yields(Sizes(w.bucket), View(env, w), Pending(Sub(env, dir, new_), new_), out')
    ensures forall t' :: t' in out' <==> CarriedAlong(Sub(env, dir, old_), Sub(env, dir, new_), old_, new_, out, t')
    ensures DistinctKeys(out')
  {
    var op := RenameTo(dir, old_, new_);
    RanIs(env, v, w, op, sts);
    ReadyCarried(env, v, dir, old_, new_, out, sts);
    ContentsAfterFlush(env, v, op, sts[0].after, sts[1].landed, old_, new_, out, out');
  }

  /**
   * End to end, through the code's own steps: rename a folder, then expand it under its new name. Where nothing gets in
   * the way the walk returns exactly the folder's old contents under the new prefix and name.
   */
  method RenameThenExpand(env: Env, encode: Manifest -> R.Content, backend: R.Backend, store: MS.Store, dir: string,
                          old_: string, new_: string, now: nat, fails: nat -> bool, ghost out: seq<Target>)
    returns (ok: bool, out': seq<Target>)
    requires forall m :: env.decode(encode(m)) == m
    requires Ready(env, Now(backend, store, now), dir, old_, new_, out)
    modifies backend, store
    ensures ok ==> forall t' :: t' in out' <==>
                     CarriedAlong(Sub(env, dir, old_), Sub(env, dir, new_), old_, new_, out, t')
    ensures ok ==> DistinctKeys(out')
    ensures !ok ==> Refused(env, old(Now(backend, store, now)), RenameTo(dir, old_, new_)) || exists n :: fails(n)
  {
    ghost var v, sts := Now(backend, store, now), [];
    out' := [];
    ok, sts := RenameFolder(env, encode, backend, store, dir, old_, new_, now, fails);
    if !ok { return; }
    NewFolderKey(env, dir, new_);
    var w := Vault(backend.objects, store.inner, now);
    out' := ExpandFolder(Sizes(w.bucket), View(env, w), dir + env.seg(new_) + "/", new_);
    AfterRename(env, v, w, dir, old_, new_, sts, out, out');
  }

  lemma NewFolderKey(env: Env, dir: string, name: string)
    requires GoodName(env, name)
    ensures TrimEnd(dir + env.seg(name) + "/") + "/" == Sub(env, dir, name)
  {
    var leaf := env.seg(name);
    assert leaf[|leaf| - 1] in leaf;
    TrimSlashes(dir + leaf);
  }
}
