/**
 * The two levels a session really keeps: a buffer of manifests that is asked first, and the stored `.rse`
 * objects among all others. A folder rename, move or delete touches only the stored objects. This module derives
 * what every directory reads afterwards and exactly when that is what the operation was meant to do.
 */
module Session {
  import opened Prelude
  import opened Paths
  import opened Manifests
  import opened Index
  import MS = ManifestStore
  import R = Rename

  /** How names are stored, how a stored manifest is read, and its fingerprint. */
  datatype Env = Env(seg: Naming, decode: seq<byte> -> Manifest, fp: MS.Fingerprint)

  datatype Vault = Vault(bucket: R.Bucket, buffer: MS.Buffer, now: nat)

  function Stored(env: Env, b: R.Bucket, d: string): (m: Manifest)
  {
    if d + MANIFEST_KEY in b then env.decode(b[d + MANIFEST_KEY]) else EMPTY
  }

  /** What the session reads for a directory: the buffered manifest, else the stored one. */
  function Read(env: Env, v: Vault, d: string): (m: Manifest)
  {
    if d in v.buffer then v.buffer[d].manifest else Stored(env, v.bucket, d)
  }

  // ---------------------------------------------------------------- steps

  function Load(env: Env, v: Vault, d: string): (v': Vault)
  {
    v.(buffer := MS.Inserted(env.fp, v.buffer, d, Stored(env, v.bucket, d), v.now))
  }

  function Edit(env: Env, v: Vault, d: string, f: Manifest -> Manifest): (v': Vault)
  {
    var l := Load(env, v, d);
    l.(buffer := MS.Changed(l.buffer, d, MS.Edit(f), l.now))
  }

  function Take(env: Env, v: Vault, d: string, key: string): (v': Vault)
  {
    var l := Load(env, v, d);
    l.(buffer := MS.Changed(l.buffer, d, MS.TakeOut(key), l.now))
  }

  function Forget(v: Vault, key: string): (v': Vault) { v.(buffer := v.buffer - {key}) }

  /** A directory rename moves the objects; nothing is done to the buffer. */
  ghost function Moved(v: Vault, from: string, to: string): (v': Vault)
  {
    v.(bucket := R.Substituted(v.bucket, from, to))
  }

  /** A directory delete takes its objects away, marker and manifests included. */
  ghost function Wiped(v: Vault, from: string): (v': Vault)
  {
    v.(bucket := v.bucket - R.Sources(v.bucket, from))
  }

  function RecordAll(env: Env, v: Vault, dir: string, segs: seq<string>, size: nat): (v': Vault)
    decreases |segs|
  {
    if segs == [] then v
    else
      var name, key := segs[0], env.seg(segs[0]);
      if |segs| == 1 then Edit(env, v, dir, (m: Manifest) => m.UpsertFile(key, name, size))
      else
        RecordAll(env, Edit(env, v, dir, (m: Manifest) => m.UpsertFolder(key, name)), dir + key + "/", segs[1..], size)
  }

  /** Take a record out of one directory and, if there was one, put it into another. */
  function MovedRecord(env: Env, v: Vault, src: string, dest: string, key: string): (v': Vault)
  {
    var taken := Read(env, v, src).TakeEntry(key).1;
    if taken.None? then Take(env, v, src, key)
    else Edit(env, Take(env, v, src, key), dest, (m: Manifest) => m.InsertEntry(key, taken.value))
  }

  /** A folder operation: which prefix it takes away, and where it puts it. */
  function FromOf(seg: Naming, op: Op): (from: string)
    requires op.Rename? || op.Move? || op.Delete?
  {
    match op
    case Rename(dir, old_, _, _) => dir + seg(old_) + "/"
    case Move(src, _, name, _) => src + seg(name) + "/"
    case Delete(dir, name, _) => dir + seg(name) + "/"
  }

  function ToOf(seg: Naming, op: Op): (to: string)
    requires op.Rename? || op.Move?
  {
    match op
    case Rename(dir, _, new_, _) => dir + seg(new_) + "/"
    case Move(_, dest, name, _) => dest + seg(name) + "/"
  }

  /** The operation is not refused or skipped. */
  predicate GoesThrough(env: Env, v: Vault, op: Op)
  {
    match op
    case Rename(dir, old_, new_, _) =>
      && !Blank(new_) && NoSlash(new_) && env.seg(old_) != env.seg(new_)
      && Read(env, v, dir).NameFor(env.seg(new_)).None?
    case Move(src, dest, _, isDir) => dest != src && !(isDir && FromOf(env.seg, op) <= dest)
    case _ => true
  }

  /**
   * Objects first, then `forget`, as the worker does it. `after` is the bucket the backend's rename or delete left
   * behind; what a rename can leave is `Arrived`.
   */
  function Transplanted(env: Env, v: Vault, op: Op, after: R.Bucket): (v': Vault)
    requires op.Rename? || op.Move? || op.Delete?
  {
    if !op.isDir then v
    else if op.Move? then v.(bucket := after)
    else Forget(v.(bucket := after), TrimEnd(FromOf(env.seg, op)))
  }

  /** What a folder operation of the backend leaves behind, whatever its target held or contained. */
  ghost predicate Arrived(env: Env, v: Vault, op: Op, after: R.Bucket)
  {
    FolderOp(op) && GoesThrough(env, v, op) ==>
      if op.Delete? then after == Wiped(v, FromOf(env.seg, op)).bucket
      else
        var from, to := FromOf(env.seg, op), ToOf(env.seg, op);
        && R.Traced(v.bucket, after, from, to)
        && (R.Escapes(v.bucket, from, to) ==> after == R.Substituted(v.bucket, from, to))
  }

  /** Both backends' renames leave such a bucket. */
  lemma OutcomeArrives(env: Env, v: Vault, op: Op, after: R.Bucket, way: bool)
    requires (op.Rename? || op.Move?) && op.isDir
    requires R.Outcome(v.bucket, after, FromOf(env.seg, op), ToOf(env.seg, op), way, true)
    requires R.Escapes(v.bucket, FromOf(env.seg, op), ToOf(env.seg, op)) ==> way
    ensures Arrived(env, v, op, after)
  {
  }

  predicate FolderOp(op: Op) { (op.Rename? || op.Move? || op.Delete?) && op.isDir }

  function Do(env: Env, v: Vault, op: Op, after: R.Bucket): (v': Vault)
  {
    match op
    case Upload(dest, segs, size) => RecordAll(env, v, dest, segs, size)
    case CreateFolder(dir, name) =>
      var key := env.seg(name);
      Edit(env, v, dir, (m: Manifest) => m.UpsertFolder(key, name))
    case Rename(dir, old_, new_, _) =>
      var old_key, new_key := env.seg(old_), env.seg(new_);
      if Blank(new_) || !NoSlash(new_) || old_key == new_key then v
      else if !GoesThrough(env, v, op) then Load(env, v, dir)
      else
        Edit(env, Transplanted(env, Load(env, v, dir), op, after), dir,
          (m: Manifest) => m.RenameEntry(old_key, new_key, new_))
    case Move(src, dest, name, _) =>
      if !GoesThrough(env, v, op) then v
      else
        MovedRecord(env, Transplanted(env, v, op, after), src, dest, env.seg(name))
    case Delete(dir, name, _) =>
      var key := env.seg(name);
      Edit(env, Transplanted(env, v, op, after), dir, (m: Manifest) => m.Remove(key))
    case CacheSize(dir, name, p, c, t) =>
      var key := env.seg(name);
      Edit(env, v, dir, (m: Manifest) => m.SetFolderSize(key, p, c, t))
  }

  datatype Step =
    | Browse(dir: string)
    | Put(key: string, content: R.Content)            // a file's bytes or a folder marker
    | Drop(key: string)                               // a single object is removed
    | Flush(landed: map<string, R.Content>)           // the manifests of a flush that were written
    | Tick(dt: nat)
    | Run(op: Op, after: R.Bucket)
    | Broken(op: Op, after: R.Bucket)                 // a folder operation whose backend call failed midway

  /** The blob a flush writes for a directory reads back as its buffered manifest. */
  predicate Written(env: Env, v: Vault, landed: map<string, R.Content>)
  {
    forall d | d in landed :: d in v.buffer && env.decode(landed[d]) == v.buffer[d].manifest
  }

  predicate IsManifestObject(k: string) { |k| >= 4 && k[|k| - 4..] == MANIFEST_KEY }

  /** The directory a manifest object belongs to. */
  function DirOf(k: string): (d: string)
    requires |k| >= 4
  {
    k[..|k| - 4]
  }

  /** The manifest objects a flush writes. */
  function Blobs(landed: map<string, R.Content>): (b: R.Bucket)
  {
    map k | k in (set d | d in landed :: d + MANIFEST_KEY) ::
      if |k| >= 4 && DirOf(k) in landed then landed[DirOf(k)] else []
  }

  function Flushed(env: Env, v: Vault, landed: map<string, R.Content>): (v': Vault)
    requires Written(env, v, landed)
  {
    v.(bucket := v.bucket + Blobs(landed),
       buffer := map d | d in v.buffer ::
         if d in landed then v.buffer[d].(written := Some(env.fp(v.buffer[d].manifest)), dirty := false)
         else v.buffer[d])
  }

  /** One step; a label that does not apply changes nothing. */
  function Next(env: Env, v: Vault, st: Step): (v': Vault)
  {
    match st
    case Browse(d) => Load(env, v, d)
    case Put(k, content) => if IsManifestObject(k) then v else v.(bucket := v.bucket[k := content])
    case Drop(k) => if IsManifestObject(k) then v else v.(bucket := v.bucket - {k})
    case Flush(landed) => if Written(env, v, landed) then Flushed(env, v, landed) else v
    case Tick(dt) => v.(now := v.now + dt)
    case Run(op, after) => Do(env, v, op, after)
    case Broken(op, after) => (if op.Rename? then Load(env, v, op.dir) else v).(bucket := after)
  }

  /** Directory arguments are the root or end in a slash, as the worker builds them. */
  predicate ProperOp(op: Op)
  {
    match op
    case Upload(d, _, _) => DirKey(d)
    case CreateFolder(d, _) => DirKey(d)
    case Rename(d, _, _, _) => DirKey(d)
    case Move(s, d, _, _) => DirKey(s) && DirKey(d)
    case Delete(d, _, _) => DirKey(d)
    case CacheSize(d, _, _, _, _) => DirKey(d)
  }

  predicate Proper(st: Step)
  {
    (st.Browse? ==> DirKey(st.dir)) && (st.Run? || st.Broken? ==> ProperOp(st.op))
  }

  predicate Keyed(v: Vault) { forall d | d in v.buffer :: DirKey(d) }

  /** `forget` is called with the trailing slash trimmed, so on proper buffers it does nothing. */
  lemma ForgetNothing(v: Vault, key: string)
    requires Keyed(v)
    ensures TrimEnd(key) != "" ==> Forget(v, TrimEnd(key)) == v
  {
    if TrimEnd(key) != "" { assert v.buffer - {TrimEnd(key)} == v.buffer; }
  }

  // ---------------------------------------------------------------- what every directory reads

  lemma ReadLoad(env: Env, v: Vault, e: string, d: string)
    ensures Read(env, Load(env, v, e), d) == Read(env, v, d)
  {
  }

  lemma ReadEdit(env: Env, v: Vault, e: string, f: Manifest -> Manifest, d: string)
    ensures Read(env, Edit(env, v, e, f), d) == if d == e then f(Read(env, v, e)) else Read(env, v, d)
  {
  }

  lemma ReadTake(env: Env, v: Vault, e: string, key: string, d: string)
    ensures Read(env, Take(env, v, e, key), d) ==
            if d == e then Read(env, v, e).TakeEntry(key).0 else Read(env, v, d)
  {
  }

  lemma ManifestObjectOf(d: string)
    ensures IsManifestObject(d + MANIFEST_KEY) && DirOf(d + MANIFEST_KEY) == d
  {
  }

  /** A prefix that ends in a slash covers a manifest object exactly when it covers its directory. */
  lemma PrefixCovers(p: string, d: string)
    requires p != "" && p[|p| - 1] == '/'
    ensures p <= d + MANIFEST_KEY <==> p <= d
  {
    assert forall i | |d| <= i < |d| + 4 :: (d + MANIFEST_KEY)[i] == MANIFEST_KEY[i - |d|] != '/';
  }

  lemma ReadFlush(env: Env, v: Vault, landed: map<string, R.Content>, d: string)
    requires Written(env, v, landed)
    ensures Read(env, Flushed(env, v, landed), d) == Read(env, v, d)
  {
    ManifestObjectOf(d);
    forall e | e in landed ensures d + MANIFEST_KEY == e + MANIFEST_KEY ==> d == e { ManifestObjectOf(e); }
  }

  lemma ReadOther(env: Env, v: Vault, st: Step, d: string)
    requires st.Put? || st.Drop? || st.Tick?
    ensures Read(env, Next(env, v, st), d) == Read(env, v, d)
  {
    ManifestObjectOf(d);
  }

  predicate Slashed(p: string) { p != "" && p[|p| - 1] == '/' }

  /** What is stored at a place below the target afterwards: the source's manifest, else what was there and stayed. */
  function Arriving(env: Env, b: R.Bucket, from: string, to: string, x: string): (m: Manifest)
  {
    if from + x + MANIFEST_KEY in b then Stored(env, b, from + x)
    else if from <= to + x then EMPTY
    else Stored(env, b, to + x)
  }

  /** What is stored for every directory after a folder's objects moved, derived from the objects, for any target. */
  lemma StoredMoved(env: Env, b: R.Bucket, from: string, to: string, d: string)
    requires Slashed(from) && Slashed(to)
    ensures Stored(env, R.Substituted(b, from, to), d) ==
            if to <= d then Arriving(env, b, from, to, d[|to|..]) else if from <= d then EMPTY else Stored(env, b, d)
  {
    PrefixCovers(to, d);
    PrefixCovers(from, d);
    var k := d + MANIFEST_KEY;
    if to <= d {
      var x := from + d[|to|..] + MANIFEST_KEY;
      assert k[|to|..] == d[|to|..] + MANIFEST_KEY && d == to + d[|to|..];
      assert x == R.Swap(to, from, k);
      R.SwapBack(to, from, k);
      R.MovedObject(b, from, to, x);
    } else {
      R.KeptObject(b, from, to, k);
    }
  }

  lemma ReadMoved(env: Env, v: Vault, from: string, to: string, d: string)
    requires Slashed(from) && Slashed(to)
    ensures Read(env, Moved(v, from, to), d) ==
            if d in v.buffer then v.buffer[d].manifest
            else if to <= d then Arriving(env, v.bucket, from, to, d[|to|..])
            else if from <= d then EMPTY
            else Stored(env, v.bucket, d)
  {
    StoredMoved(env, v.bucket, from, to, d);
  }

  lemma ReadWiped(env: Env, v: Vault, from: string, d: string)
    requires from != "" && from[|from| - 1] == '/'
    ensures Read(env, Wiped(v, from), d) ==
            if d in v.buffer then v.buffer[d].manifest else if from <= d then EMPTY else Stored(env, v.bucket, d)
  {
    PrefixCovers(from, d);
  }

  // ---------------------------------------------------------------- exactly when a folder operation is harmless

  /** Every directory still buffered below the target holds what its counterpart below the source reads. */
  ghost predicate TargetAgrees(env: Env, v: Vault, from: string, to: string)
  {
    forall e | e in v.buffer && to <= e :: v.buffer[e].manifest == Read(env, v, from + e[|to|..])
  }

  /** Every directory buffered below the source, unless its counterpart is, holds what arrives in its place. */
  ghost predicate SourceWritten(env: Env, v: Vault, from: string, to: string)
  {
    forall e | e in v.buffer && from <= e && to + e[|from|..] !in v.buffer ::
      v.buffer[e].manifest == Arriving(env, v.bucket, from, to, e[|from|..])
  }

  /** No manifest is left over below the target where the source has none. */
  ghost predicate NoLeftover(env: Env, v: Vault, from: string, to: string)
  {
    forall x: string {:trigger Arriving(env, v.bucket, from, to, x)} | to + x !in v.buffer && from + x !in v.buffer ::
      Arriving(env, v.bucket, from, to, x) == Stored(env, v.bucket, from + x)
  }

  /** Nothing buffered and nothing left over gets in the way of reading the folder in its new place. */
  ghost predicate Smooth(env: Env, v: Vault, from: string, to: string)
  {
    TargetAgrees(env, v, from, to) && SourceWritten(env, v, from, to) && NoLeftover(env, v, from, to)
  }

  /** A directory that is taken away: below the source, and not below the target if there is one. */
  predicate Leaves(from: string, to: Option<string>, d: string)
  {
    from <= d && (to.Some? ==> !(to.value <= d))
  }

  /** Nothing but empty manifests is buffered where directories are taken away. */
  ghost predicate SourceCold(v: Vault, from: string, to: Option<string>)
  {
    forall e | e in v.buffer && Leaves(from, to, e) :: v.buffer[e].manifest == EMPTY
  }

  lemma TailOf(p: string, x: string)
    ensures p <= p + x && (p + x)[|p|..] == x
  {
  }

  lemma OneBelowTarget(env: Env, v: Vault, from: string, to: string, x: string)
    requires Slashed(from) && Slashed(to)
    ensures Read(env, Moved(v, from, to), to + x) == Read(env, v, from + x) <==>
            if to + x in v.buffer then v.buffer[to + x].manifest == Read(env, v, from + x)
            else Arriving(env, v.bucket, from, to, x) == Read(env, v, from + x)
  {
    TailOf(to, x);
    ReadMoved(env, v, from, to, to + x);
  }

  lemma SmoothBelow(env: Env, v: Vault, from: string, to: string, x: string)
    requires Slashed(from) && Slashed(to) && Smooth(env, v, from, to)
    ensures Read(env, Moved(v, from, to), to + x) == Read(env, v, from + x)
  {
    TailOf(to, x);
    TailOf(from, x);
    OneBelowTarget(env, v, from, to, x);
  }

  lemma BelowIsSmooth(env: Env, v: Vault, from: string, to: string)
    requires Slashed(from) && Slashed(to)
    requires forall x: string :: Read(env, Moved(v, from, to), to + x) == Read(env, v, from + x)
    ensures Smooth(env, v, from, to)
  {
    forall e | e in v.buffer && to <= e ensures v.buffer[e].manifest == Read(env, v, from + e[|to|..]) {
      assert e == to + e[|to|..];
      OneBelowTarget(env, v, from, to, e[|to|..]);
    }
    forall e | e in v.buffer && from <= e && to + e[|from|..] !in v.buffer
      ensures v.buffer[e].manifest == Arriving(env, v.bucket, from, to, e[|from|..])
    {
      assert e == from + e[|from|..];
      OneBelowTarget(env, v, from, to, e[|from|..]);
    }
    forall x: string | to + x !in v.buffer && from + x !in v.buffer
      ensures Arriving(env, v.bucket, from, to, x) == Stored(env, v.bucket, from + x)
    {
      OneBelowTarget(env, v, from, to, x);
    }
  }

  /**
   * After a directory rename, onto any target, everything below the target reads as it did below the source if and
   * only if no directory below the target is buffered with other content, every directory buffered below the source
   * (whose counterpart is not) holds what arrives in its place, and no manifest is left over where the source has none.
   */
  lemma BelowTargetIff(env: Env, v: Vault, from: string, to: string)
    requires Slashed(from) && Slashed(to)
    ensures (forall x: string :: Read(env, Moved(v, from, to), to + x) == Read(env, v, from + x))
            <==> Smooth(env, v, from, to)
  {
    if Smooth(env, v, from, to) {
      forall x: string ensures Read(env, Moved(v, from, to), to + x) == Read(env, v, from + x) {
        SmoothBelow(env, v, from, to, x);
      }
    }
    if forall x: string :: Read(env, Moved(v, from, to), to + x) == Read(env, v, from + x) {
      BelowIsSmooth(env, v, from, to);
    }
  }

  /** What is taken away reads empty afterwards if and only if nothing else was buffered there. */
  lemma BelowSourceIff(env: Env, v: Vault, from: string, to: string)
    requires Slashed(from) && Slashed(to)
    ensures (forall d | Leaves(from, Some(to), d) :: Read(env, Moved(v, from, to), d) == EMPTY)
            <==> SourceCold(v, from, Some(to))
  {
    forall d | Leaves(from, Some(to), d)
      ensures Read(env, Moved(v, from, to), d) == EMPTY <==> (d in v.buffer ==> v.buffer[d].manifest == EMPTY)
    {
      ReadMoved(env, v, from, to, d);
    }
  }

  lemma NotBoth(from: string, to: string, d: string)
    requires R.Beside(from, to) && from <= d
    ensures !(to <= d)
  {
  }

  // ---------------------------------------------------------------- refinement of the one-level index

  /** The name whose segment the operation takes away. */
  function Leaf(op: Op): (name: string)
    requires op.Rename? || op.Move? || op.Delete?
  {
    match op
    case Rename(_, old_, _, _) => old_
    case Move(_, _, name, _) => name
    case Delete(_, name, _) => name
  }

  predicate Named(seg: Naming, op: Op)
    requires op.Rename? || op.Move? || op.Delete?
  {
    NoSlash(seg(Leaf(op))) && seg(Leaf(op)) != ""
  }

  lemma SourceIsNamed(seg: Naming, op: Op)
    requires op.Rename? || op.Move? || op.Delete?
    ensures Slashed(FromOf(seg, op)) && (!op.Delete? ==> Slashed(ToOf(seg, op)))
  {
  }

  lemma SourceTrims(seg: Naming, op: Op)
    requires (op.Rename? || op.Move? || op.Delete?) && Named(seg, op)
    ensures TrimEnd(FromOf(seg, op)) != ""
  {
    var leaf := seg(Leaf(op));
    var dir := match op case Rename(d, _, _, _) => d case Move(d, _, _, _) => d case Delete(d, _, _) => d;
    assert leaf[|leaf| - 1] in leaf;
    TrimSlashes(dir + leaf);
  }

  /** Neither source nor target contains the other. Renames always are; a move can have a target above its source. */
  predicate Apart(env: Env, v: Vault, op: Op)
  {
    FolderOp(op) && !op.Delete? && GoesThrough(env, v, op) ==> R.Beside(FromOf(env.seg, op), ToOf(env.seg, op))
  }

  lemma RenamesApart(env: Env, v: Vault, op: Op)
    requires op.Rename? && NoSlash(env.seg(op.old_)) && NoSlash(env.seg(op.new_))
    ensures Apart(env, v, op)
  {
    ChildApart(op.dir, env.seg(op.old_), env.seg(op.new_));
    ChildApart(op.dir, env.seg(op.new_), env.seg(op.old_));
  }

  /** The objects of a folder operation landed where they belong, onto whatever target. */
  ghost predicate Lands(env: Env, v: Vault, op: Op, after: R.Bucket)
  {
    FolderOp(op) && GoesThrough(env, v, op) ==>
      after == if op.Delete? then Wiped(v, FromOf(env.seg, op)).bucket
               else R.Substituted(v.bucket, FromOf(env.seg, op), ToOf(env.seg, op))
  }

  /** They do when the backend's copies stay out of the way of its own rename, so always beside the source. */
  lemma ArrivedLands(env: Env, v: Vault, op: Op, after: R.Bucket)
    requires Arrived(env, v, op, after)
    requires Apart(env, v, op) || (FolderOp(op) && !op.Delete? ==>
                                     R.Escapes(v.bucket, FromOf(env.seg, op), ToOf(env.seg, op)))
    ensures Lands(env, v, op, after)
  {
    if FolderOp(op) && !op.Delete? && Apart(env, v, op) && GoesThrough(env, v, op) {
      R.BesideEscapes(v.bucket, FromOf(env.seg, op), ToOf(env.seg, op));
    }
  }

  /** The operation is one the worker starts, and its objects landed. */
  ghost predicate Legal(env: Env, v: Vault, op: Op, after: R.Bucket)
  {
    && ProperOp(op) && Lands(env, v, op, after)
    && (op.Rename? || op.Move? || op.Delete? ==> Named(env.seg, op))
  }

  /** Where the content meant for d is before the operation; nowhere, if d is taken away. */
  function Origin(env: Env, v: Vault, op: Op, d: string): (o: Option<string>)
  {
    if !FolderOp(op) || !GoesThrough(env, v, op) then Some(d)
    else if !op.Delete? && ToOf(env.seg, op) <= d then Some(FromOf(env.seg, op) + d[|ToOf(env.seg, op)|..])
    else if FromOf(env.seg, op) <= d then None
    else Some(d)
  }

  /** Nothing buffered or left over keeps d from reading what is meant for it. */
  predicate Fine(env: Env, v: Vault, op: Op, d: string)
  {
    FolderOp(op) && GoesThrough(env, v, op) ==>
      var from := FromOf(env.seg, op);
      if !op.Delete? && ToOf(env.seg, op) <= d then
        var x := d[|ToOf(env.seg, op)|..];
        Read(env, v, from + x) ==
        if d in v.buffer then v.buffer[d].manifest else Arriving(env, v.bucket, from, ToOf(env.seg, op), x)
      else from <= d && d in v.buffer ==> v.buffer[d].manifest == EMPTY
  }

  /** The one-level index right after the objects moved, before any record is edited. */
  function Transplant(seg: Naming, ix: Index, op: Op): (ix': Index)
    requires op.Rename? || op.Move? || op.Delete?
  {
    if !op.isDir then ix
    else if op.Delete? then Cleared(ix, FromOf(seg, op)) else Relocate(ix, FromOf(seg, op), ToOf(seg, op))
  }

  /** The index has at d what stood at d's origin. */
  lemma TransplantOf(env: Env, v: Vault, ix: Index, op: Op, d: string)
    requires (op.Rename? || op.Move? || op.Delete?) && GoesThrough(env, v, op)
    ensures var o := Origin(env, v, op, d);
            Of(Transplant(env.seg, ix, op), d) == if o.Some? then Of(ix, o.value) else EMPTY
  {
    if op.isDir && !op.Delete? { OfRelocate(ix, FromOf(env.seg, op), ToOf(env.seg, op), d); }
  }

  lemma TransplantedIs(env: Env, v: Vault, op: Op, after: R.Bucket)
    requires Keyed(v) && FolderOp(op) && GoesThrough(env, v, op) && Legal(env, v, op, after)
    ensures var from := FromOf(env.seg, op);
            Transplanted(env, v, op, after) ==
            if op.Delete? then Wiped(v, from) else Moved(v, from, ToOf(env.seg, op))
  {
    SourceTrims(env.seg, op);
    ForgetNothing(v.(bucket := after), FromOf(env.seg, op));
  }

  /** After the objects moved d reads what its origin read exactly when it is fine. */
  lemma TransplantedAt(env: Env, v: Vault, op: Op, after: R.Bucket, d: string)
    requires Keyed(v) && (op.Rename? || op.Move? || op.Delete?) && GoesThrough(env, v, op) && Legal(env, v, op, after)
    ensures var o := Origin(env, v, op, d);
            Read(env, Transplanted(env, v, op, after), d) == (if o.Some? then Read(env, v, o.value) else EMPTY)
            <==> Fine(env, v, op, d)
  {
    if op.isDir {
      SourceIsNamed(env.seg, op);
      TransplantedIs(env, v, op, after);
      if op.Delete? {
        ReadWiped(env, v, FromOf(env.seg, op), d);
      } else {
        ReadMoved(env, v, FromOf(env.seg, op), ToOf(env.seg, op), d);
      }
    }
  }

  lemma EditAt(env: Env, v: Vault, ix: Index, e: string, f: Manifest -> Manifest, m: Manifest, d: string)
    requires m == f(Of(ix, e)) && (d == e ==> Read(env, v, d) == Of(ix, d))
    ensures Read(env, Edit(env, v, e, f), d) == Of(ix[e := m], d) <==> Read(env, v, d) == Of(ix, d)
  {
    ReadEdit(env, v, e, f, d);
  }

  lemma {:induction false} RecordAt(env: Env, v: Vault, ix: Index, dir: string, segs: seq<string>, size: nat, d: string)
    requires Read(env, v, d) == Of(ix, d)
    ensures Read(env, RecordAll(env, v, dir, segs, size), d) == Of(Record(env.seg, ix, dir, segs, size), d)
    decreases |segs|
  {
    if |segs| == 1 {
      var name, key := segs[0], env.seg(segs[0]);
      EditAt(env, v, ix, dir, (m: Manifest) => m.UpsertFile(key, name, size),
        Of(ix, dir).UpsertFile(key, name, size), d);
    } else if |segs| > 1 {
      var name, key := segs[0], env.seg(segs[0]);
      var f, m' := (m: Manifest) => m.UpsertFolder(key, name), Of(ix, dir).UpsertFolder(key, name);
      EditAt(env, v, ix, dir, f, m', d);
      RecordAt(env, Edit(env, v, dir, f), ix[dir := m'], dir + key + "/", segs[1..], size, d);
    }
  }

  lemma MovedRecordAt(env: Env, v: Vault, ix: Index, src: string, dest: string, key: string, d: string)
    requires src != dest && Read(env, v, src) == Of(ix, src) && (d == dest ==> Read(env, v, d) == Of(ix, d))
    ensures Read(env, MovedRecord(env, v, src, dest, key), d) == Of(MoveRecord(ix, src, dest, key), d)
            <==> Read(env, v, d) == Of(ix, d)
  {
    var (m, taken) := Of(ix, src).TakeEntry(key);
    ReadTake(env, v, src, key, d);
    ReadTake(env, v, src, key, dest);
    if taken.Some? {
      var ix1 := ix[src := m];
      EditAt(env, Take(env, v, src, key), ix1, dest, (n: Manifest) => n.InsertEntry(key, taken.value),
             Of(ix1, dest).InsertEntry(key, taken.value), d);
    }
  }

  /** The directories whose content decides what an operation does. */
  function Deciding(op: Op): (ds: set<string>)
  {
    match op
    case Rename(dir, _, _, _) => {dir}
    case Move(src, _, _, _) => {src}
    case _ => {}
  }

  /** The session agrees with the index about what is meant for d. */
  ghost predicate AgreesAt(env: Env, v: Vault, ix: Index, op: Op, d: string)
  {
    var o := Origin(env, v, op, d);
    o.Some? ==> Read(env, v, o.value) == Of(ix, o.value)
  }

  /** The session agrees with the index where it matters for d: about d itself and about the deciding directory. */
  ghost predicate AgreesFor(env: Env, v: Vault, ix: Index, op: Op, d: string)
  {
    AgreesAt(env, v, ix, op, d) && forall e | e in Deciding(op) :: AgreesAt(env, v, ix, op, e) && Fine(env, v, op, e)
  }

  lemma Longer(d: string, x: string)
    ensures !(d + x + "/" <= d)
  {
  }

  lemma PlainOpAt(env: Env, v: Vault, ix: Index, op: Op, after: R.Bucket, d: string)
    requires AgreesFor(env, v, ix, op, d) && !(op.Rename? || op.Move? || op.Delete?)
    ensures Read(env, Do(env, v, op, after), d) == Of(Apply(env.seg, ix, op), d)
  {
    match op
    case Upload(dest, segs, size) => RecordAt(env, v, ix, dest, segs, size, d);
    case CreateFolder(dir, name) =>
      var key := env.seg(name);
      EditAt(env, v, ix, dir, (m: Manifest) => m.UpsertFolder(key, name), Of(ix, dir).UpsertFolder(key, name), d);
    case CacheSize(dir, name, p, c, t) =>
      var key := env.seg(name);
      EditAt(env, v, ix, dir, (m: Manifest) => m.SetFolderSize(key, p, c, t),
             Of(ix, dir).SetFolderSize(key, p, c, t), d);
  }

  lemma DeleteOpAt(env: Env, v: Vault, ix: Index, op: Op, after: R.Bucket, d: string)
    requires Keyed(v) && Legal(env, v, op, after) && AgreesFor(env, v, ix, op, d) && op.Delete?
    ensures Read(env, Do(env, v, op, after), d) == Of(Apply(env.seg, ix, op), d) <==> Fine(env, v, op, d)
  {
    var key, v1, ix1 := env.seg(op.name), Transplanted(env, v, op, after), Transplant(env.seg, ix, op);
    Longer(op.dir, key);
    TransplantedAt(env, v, op, after, d);
    TransplantOf(env, v, ix, op, d);
    EditAt(env, v1, ix1, op.dir, (m: Manifest) => m.Remove(key), Of(ix1, op.dir).Remove(key), d);
  }

  /** The destination of a move is neither taken away nor replaced by it, nor is its source directory beside it. */
  lemma MoveOutside(env: Env, v: Vault, op: Op)
    requires op.Move? && GoesThrough(env, v, op)
    ensures Origin(env, v, op, op.dest) == Some(op.dest) && Fine(env, v, op, op.dest)
    ensures Origin(env, v, op, op.src).Some?
    ensures Apart(env, v, op) ==> Origin(env, v, op, op.src) == Some(op.src) && Fine(env, v, op, op.src)
  {
    var from, to := FromOf(env.seg, op), ToOf(env.seg, op);
    Longer(op.src, env.seg(op.name));
    Longer(op.dest, env.seg(op.name));
    assert op.src <= from;
    if op.isDir && to <= op.src { PrefixTrans(to, op.src, from); }
  }

  /** Beside its source, an operation never touches the directory that decides it. */
  lemma DecidingFine(env: Env, v: Vault, op: Op, e: string)
    requires e in Deciding(op) && (op.Move? ==> Apart(env, v, op))
    ensures Origin(env, v, op, e) == Some(e) && Fine(env, v, op, e)
  {
    if op.Rename? {
      Longer(op.dir, env.seg(op.old_));
      Longer(op.dir, env.seg(op.new_));
    } else if GoesThrough(env, v, op) {
      MoveOutside(env, v, op);
    }
  }

  lemma PrefixTrans(a: string, b: string, c: string)
    requires a <= b <= c
    ensures a <= c
  {
  }

  lemma MoveOpAt(env: Env, v: Vault, ix: Index, op: Op, after: R.Bucket, d: string)
    requires Keyed(v) && Legal(env, v, op, after) && AgreesFor(env, v, ix, op, d) && op.Move? && GoesThrough(env, v, op)
    ensures Read(env, Do(env, v, op, after), d) == Of(Apply(env.seg, ix, op), d) <==> Fine(env, v, op, d)
  {
    var v1, ix1 := Transplanted(env, v, op, after), Transplant(env.seg, ix, op);
    MoveOutside(env, v, op);
    assert op.src in Deciding(op);
    TransplantedAt(env, v, op, after, op.src);
    TransplantOf(env, v, ix, op, op.src);
    TransplantedAt(env, v, op, after, d);
    TransplantOf(env, v, ix, op, d);
    MovedRecordAt(env, v1, ix1, op.src, op.dest, env.seg(op.name), d);
  }

  /** Loading the parent first changes nothing that matters. */
  lemma LoadedFirst(env: Env, v: Vault, op: Op, after: R.Bucket, d: string)
    requires Keyed(v) && op.Rename? && Legal(env, v, op, after) && GoesThrough(env, v, op)
    ensures var l := Load(env, v, op.dir);
            && Keyed(l) && Legal(env, l, op, after) && GoesThrough(env, l, op)
            && Origin(env, l, op, d) == Origin(env, v, op, d) && (Fine(env, l, op, d) <==> Fine(env, v, op, d))
  {
    ReadLoad(env, v, op.dir, op.dir);
    Longer(op.dir, env.seg(op.old_));
    Longer(op.dir, env.seg(op.new_));
    var o := Origin(env, v, op, d);
    if o.Some? { ReadLoad(env, v, op.dir, o.value); }
  }

  lemma LoadedTransplant(env: Env, v: Vault, ix: Index, op: Op, after: R.Bucket, d: string)
    requires Keyed(v) && Legal(env, v, op, after) && op.Rename? && GoesThrough(env, v, op)
    requires AgreesAt(env, v, ix, op, d)
    ensures Read(env, Transplanted(env, Load(env, v, op.dir), op, after), d) == Of(Transplant(env.seg, ix, op), d)
            <==> Fine(env, v, op, d)
  {
    var l, o := Load(env, v, op.dir), Origin(env, v, op, d);
    LoadedFirst(env, v, op, after, d);
    TransplantedAt(env, l, op, after, d);
    TransplantOf(env, l, ix, op, d);
    if o.Some? { ReadLoad(env, v, op.dir, o.value); }
  }

  lemma RenameOpAt(env: Env, v: Vault, ix: Index, op: Op, after: R.Bucket, d: string)
    requires Keyed(v) && Legal(env, v, op, after) && op.Rename? && GoesThrough(env, v, op)
    requires AgreesAt(env, v, ix, op, d) && Read(env, v, op.dir) == Of(ix, op.dir)
    ensures Read(env, Do(env, v, op, after), d) == Of(Apply(env.seg, ix, op), d) <==> Fine(env, v, op, d)
  {
    var v1, ix1 := Transplanted(env, Load(env, v, op.dir), op, after), Transplant(env.seg, ix, op);
    var old_key, new_key := env.seg(op.old_), env.seg(op.new_);
    LoadedTransplant(env, v, ix, op, after, d);
    if d == op.dir { DecidingFine(env, v, op, d); }
    EditAt(env, v1, ix1, op.dir, (m: Manifest) => m.RenameEntry(old_key, new_key, op.new_),
           Of(ix1, op.dir).RenameEntry(old_key, new_key, op.new_), d);
  }

  /**
   * Any operation of the worker, one directory at a time: where the session agreed with the index before, d reads
   * afterwards as the operation was meant to change the index if and only if d is fine.
   */
  lemma OpReadsAt(env: Env, v: Vault, ix: Index, op: Op, after: R.Bucket, d: string)
    requires Keyed(v) && Legal(env, v, op, after) && AgreesFor(env, v, ix, op, d)
    ensures Read(env, Do(env, v, op, after), d) == Of(Apply(env.seg, ix, op), d) <==> Fine(env, v, op, d)
  {
    if op.Delete? {
      DeleteOpAt(env, v, ix, op, after, d);
    } else if !op.Rename? && !op.Move? {
      PlainOpAt(env, v, ix, op, after, d);
    } else if GoesThrough(env, v, op) {
      if op.Rename? {
        DecidingFine(env, v, op, op.dir);
        RenameOpAt(env, v, ix, op, after, d);
      } else {
        MoveOpAt(env, v, ix, op, after, d);
      }
    } else if op.Rename? {
      DecidingFine(env, v, op, op.dir);
      ReadLoad(env, v, op.dir, d);
    }
  }

  /** Every directory reads as the index says. */
  ghost predicate Reads(env: Env, v: Vault, ix: Index) { forall d :: Read(env, v, d) == Of(ix, d) }

  /** What a caller can check beforehand: nothing buffered or left over gets in the way of a folder operation. */
  ghost predicate Harmless(env: Env, v: Vault, op: Op)
  {
    FolderOp(op) && GoesThrough(env, v, op) ==>
      if op.Delete? then SourceCold(v, FromOf(env.seg, op), None)
      else
        var from, to := FromOf(env.seg, op), ToOf(env.seg, op);
        SourceCold(v, from, Some(to)) && Smooth(env, v, from, to)
  }

  lemma FineBelowTarget(env: Env, v: Vault, op: Op, x: string)
    requires (op.Rename? || op.Move?) && op.isDir && GoesThrough(env, v, op)
    ensures var from, to := FromOf(env.seg, op), ToOf(env.seg, op);
            Fine(env, v, op, to + x) <==> Read(env, Moved(v, from, to), to + x) == Read(env, v, from + x)
  {
    SourceIsNamed(env.seg, op);
    TailOf(ToOf(env.seg, op), x);
    ReadMoved(env, v, FromOf(env.seg, op), ToOf(env.seg, op), ToOf(env.seg, op) + x);
  }

  lemma HarmlessIsFine(env: Env, v: Vault, op: Op, d: string)
    requires Harmless(env, v, op)
    ensures Fine(env, v, op, d)
  {
    if FolderOp(op) && GoesThrough(env, v, op) && !op.Delete? && ToOf(env.seg, op) <= d {
      SourceIsNamed(env.seg, op);
      assert d == ToOf(env.seg, op) + d[|ToOf(env.seg, op)|..];
      SmoothBelow(env, v, FromOf(env.seg, op), ToOf(env.seg, op), d[|ToOf(env.seg, op)|..]);
      FineBelowTarget(env, v, op, d[|ToOf(env.seg, op)|..]);
    }
  }

  lemma FineIsHarmless(env: Env, v: Vault, op: Op)
    requires forall d :: Fine(env, v, op, d)
    ensures Harmless(env, v, op)
  {
    if FolderOp(op) && GoesThrough(env, v, op) {
      var from := FromOf(env.seg, op);
      SourceIsNamed(env.seg, op);
      var kept := if op.Delete? then None else Some(ToOf(env.seg, op));
      forall e | e in v.buffer && Leaves(from, kept, e) ensures v.buffer[e].manifest == EMPTY {
        assert Fine(env, v, op, e);
      }
      if !op.Delete? {
        var to := ToOf(env.seg, op);
        forall x: string ensures Read(env, Moved(v, from, to), to + x) == Read(env, v, from + x) {
          FineBelowTarget(env, v, op, x);
        }
        BelowIsSmooth(env, v, from, to);
      }
    }
  }

  /**
   * Any operation of the worker, on a session that reads as the index says: it is harmless if and only if afterwards
   * the session reads as the operation was meant to change the index and the deciding directory is fine. Beside the
   * source the latter always holds. Only folder operations can do harm.
   */
  lemma OpReadsIff(env: Env, v: Vault, ix: Index, op: Op, after: R.Bucket)
    requires Keyed(v) && Legal(env, v, op, after) && Reads(env, v, ix)
    ensures var decided := forall e | e in Deciding(op) :: Fine(env, v, op, e);
            && (Harmless(env, v, op) <==> decided && Reads(env, Do(env, v, op, after), Apply(env.seg, ix, op)))
            && (Apart(env, v, op) ==> decided)
  {
    if Apart(env, v, op) {
      forall e | e in Deciding(op) ensures Fine(env, v, op, e) { DecidingFine(env, v, op, e); }
    }
    if Harmless(env, v, op) {
      forall d ensures Fine(env, v, op, d) { HarmlessIsFine(env, v, op, d); }
    }
    if forall e | e in Deciding(op) :: Fine(env, v, op, e) {
      forall d ensures Read(env, Do(env, v, op, after), d) == Of(Apply(env.seg, ix, op), d) <==> Fine(env, v, op, d) {
        OpReadsAt(env, v, ix, op, after, d);
      }
      if forall d :: Fine(env, v, op, d) { FineIsHarmless(env, v, op); }
    }
  }

  // ---------------------------------------------------------------- whole runs

  function Meant(seg: Naming, ix: Index, st: Step): (ix': Index) { if st.Run? then Apply(seg, ix, st.op) else ix }

  function Exec(env: Env, v: Vault, sts: seq<Step>): (v': Vault)
  {
    if sts == [] then v else Next(env, Exec(env, v, sts[..|sts| - 1]), sts[|sts| - 1])
  }

  function MeantAll(seg: Naming, ix: Index, sts: seq<Step>): (ix': Index)
  {
    if sts == [] then ix else Meant(seg, MeantAll(seg, ix, sts[..|sts| - 1]), sts[|sts| - 1])
  }

  type Dirs = iset<string>

  /** The directories a step leaves possibly stale: those not fine, and those whose origin was stale. */
  ghost function StaleAfter(env: Env, v: Vault, st: Step, w: Dirs): (w': Dirs)
  {
    if !st.Run? then w
    else
      iset d | !Fine(env, v, st.op, d)
               || (Origin(env, v, st.op, d).Some? && Origin(env, v, st.op, d).value in w)
  }

  ghost function Stale(env: Env, v: Vault, sts: seq<Step>): (w: Dirs)
  {
    if sts == [] then iset{}
    else
      var init := sts[..|sts| - 1];
      StaleAfter(env, Exec(env, v, init), sts[|sts| - 1], Stale(env, v, init))
  }

  /** The step is one the worker takes, decided by a directory that is not stale; no operation breaks midway. */
  ghost predicate Sound(env: Env, v: Vault, st: Step, w: Dirs)
  {
    Proper(st) && !st.Broken?
      && (st.Run? ==> Legal(env, v, st.op, st.after)
                      && forall e | e in Deciding(st.op) :: e !in StaleAfter(env, v, st, w))
  }

  ghost predicate SoundRun(env: Env, v: Vault, sts: seq<Step>)
  {
    sts == [] || (
      var init := sts[..|sts| - 1];
      SoundRun(env, v, init) && Sound(env, Exec(env, v, init), sts[|sts| - 1], Stale(env, v, init)))
  }

  ghost predicate ReadsOutside(env: Env, v: Vault, ix: Index, w: Dirs)
  {
    forall d | d !in w :: Read(env, v, d) == Of(ix, d)
  }

  lemma StepReads(env: Env, v: Vault, ix: Index, st: Step, w: Dirs)
    requires Keyed(v) && ReadsOutside(env, v, ix, w) && Sound(env, v, st, w)
    ensures ReadsOutside(env, Next(env, v, st), Meant(env.seg, ix, st), StaleAfter(env, v, st, w))
  {
    forall d | d !in StaleAfter(env, v, st, w)
      ensures Read(env, Next(env, v, st), d) == Of(Meant(env.seg, ix, st), d)
    {
      match st
      case Browse(e) => ReadLoad(env, v, e, d);
      case Flush(landed) => if Written(env, v, landed) { ReadFlush(env, v, landed, d); }
      case Run(op, after) => OpReadsAt(env, v, ix, op, after, d);
      case _ => ReadOther(env, v, st, d);
    }
  }

  lemma EditKeyed(env: Env, v: Vault, e: string, f: Manifest -> Manifest)
    requires Keyed(v) && DirKey(e)
    ensures Keyed(Edit(env, v, e, f)) && Keyed(Load(env, v, e))
  {
  }

  lemma {:induction false} RecordKeyed(env: Env, v: Vault, dir: string, segs: seq<string>, size: nat)
    requires Keyed(v) && DirKey(dir)
    ensures Keyed(RecordAll(env, v, dir, segs, size))
    decreases |segs|
  {
    if |segs| > 1 {
      var name, key := segs[0], env.seg(segs[0]);
      var f := (m: Manifest) => m.UpsertFolder(key, name);
      EditKeyed(env, v, dir, f);
      RecordKeyed(env, Edit(env, v, dir, f), dir + key + "/", segs[1..], size);
    }
  }

  lemma TransplantKeyed(env: Env, v: Vault, op: Op, after: R.Bucket)
    requires Keyed(v) && (op.Rename? || op.Move? || op.Delete?)
    ensures Keyed(Transplanted(env, v, op, after))
  {
  }

  lemma MovedRecordKeyed(env: Env, v: Vault, src: string, dest: string, key: string)
    requires Keyed(v) && DirKey(src) && DirKey(dest)
    ensures Keyed(MovedRecord(env, v, src, dest, key))
  {
    var t := Take(env, v, src, key);
    assert Keyed(t);
    var taken := Read(env, v, src).TakeEntry(key).1;
    if taken.Some? { EditKeyed(env, t, dest, (m: Manifest) => m.InsertEntry(key, taken.value)); }
  }

  lemma RenameKeyed(env: Env, v: Vault, op: Op, after: R.Bucket)
    requires Keyed(v) && op.Rename? && DirKey(op.dir)
    ensures Keyed(Do(env, v, op, after))
  {
    var l := Load(env, v, op.dir);
    EditKeyed(env, v, op.dir, m => m);
    TransplantKeyed(env, l, op, after);
    var old_key, new_key := env.seg(op.old_), env.seg(op.new_);
    EditKeyed(env, Transplanted(env, l, op, after), op.dir, (m: Manifest) => m.RenameEntry(old_key, new_key, op.new_));
  }

  lemma OpKeyed(env: Env, v: Vault, op: Op, after: R.Bucket)
    requires Keyed(v) && ProperOp(op)
    ensures Keyed(Do(env, v, op, after))
  {
    match op
    case Upload(dest, segs, size) => RecordKeyed(env, v, dest, segs, size);
    case CreateFolder(dir, name) =>
    case Rename(_, _, _, _) => RenameKeyed(env, v, op, after);
    case Move(src, dest, name, _) =>
      TransplantKeyed(env, v, op, after);
      MovedRecordKeyed(env, Transplanted(env, v, op, after), src, dest, env.seg(name));
    case Delete(dir, name, _) =>
      TransplantKeyed(env, v, op, after);
      var key := env.seg(name);
      EditKeyed(env, Transplanted(env, v, op, after), dir, (m: Manifest) => m.Remove(key));
    case CacheSize(_, _, _, _, _) =>
  }

  lemma StepKeyed(env: Env, v: Vault, st: Step)
    requires Keyed(v) && Proper(st)
    ensures Keyed(Next(env, v, st))
  {
    if st.Run? { OpKeyed(env, v, st.op, st.after); } else if st.Browse? { EditKeyed(env, v, st.dir, m => m); }
  }

  /**
   * Over whole runs of browsing, uploads, flushes and operations, harmful or not: every directory outside the stale
   * ones reads as all operations meant.
   */
  lemma {:induction false} RunReads(env: Env, v: Vault, ix: Index, sts: seq<Step>)
    requires Keyed(v) && Reads(env, v, ix) && SoundRun(env, v, sts)
    ensures Keyed(Exec(env, v, sts))
    ensures ReadsOutside(env, Exec(env, v, sts), MeantAll(env.seg, ix, sts), Stale(env, v, sts))
  {
    if sts != [] {
      var init, st := sts[..|sts| - 1], sts[|sts| - 1];
      RunReads(env, v, ix, init);
      StepReads(env, Exec(env, v, init), MeantAll(env.seg, ix, init), st, Stale(env, v, init));
      StepKeyed(env, Exec(env, v, init), st);
    }
  }

  /** The directories below prefixes that were renamed, moved or deleted away, wherever they have been carried since. */
  ghost function Abandoned(env: Env, v: Vault, sts: seq<Step>): (w: Dirs)
  {
    if sts == [] then iset{}
    else
      var init, st := sts[..|sts| - 1], sts[|sts| - 1];
      var before, w := Exec(env, v, init), Abandoned(env, v, init);
      if !st.Run? then w
      else iset d | Origin(env, before, st.op, d).None? || Origin(env, before, st.op, d).value in w
  }

  /** Every folder rename or move of the run is smooth: the folder itself is read alike in its new place. */
  ghost predicate SmoothRun(env: Env, v: Vault, sts: seq<Step>)
  {
    sts == [] || (
      var init, st := sts[..|sts| - 1], sts[|sts| - 1];
      SmoothRun(env, v, init)
        && (st.Run? && FolderOp(st.op) && !st.op.Delete? && GoesThrough(env, Exec(env, v, init), st.op) ==>
        Smooth(env, Exec(env, v, init), FromOf(env.seg, st.op), ToOf(env.seg, st.op))))
  }

  lemma SmoothIsFine(env: Env, v: Vault, op: Op, d: string)
    requires FolderOp(op) && !op.Delete? && GoesThrough(env, v, op) ==>
               Smooth(env, v, FromOf(env.seg, op), ToOf(env.seg, op))
    ensures Fine(env, v, op, d) || Origin(env, v, op, d).None?
  {
    if FolderOp(op) && GoesThrough(env, v, op) && !op.Delete? && ToOf(env.seg, op) <= d {
      SourceIsNamed(env.seg, op);
      assert d == ToOf(env.seg, op) + d[|ToOf(env.seg, op)|..];
      SmoothBelow(env, v, FromOf(env.seg, op), ToOf(env.seg, op), d[|ToOf(env.seg, op)|..]);
      FineBelowTarget(env, v, op, d[|ToOf(env.seg, op)|..]);
    }
  }

  /** In a smooth run only abandoned directories go stale: open a folder, rename it, and everything else reads right. */
  lemma {:induction false} StaleIsAbandoned(env: Env, v: Vault, sts: seq<Step>)
    requires SmoothRun(env, v, sts)
    ensures Stale(env, v, sts) <= Abandoned(env, v, sts)
  {
    if sts != [] {
      var init, st := sts[..|sts| - 1], sts[|sts| - 1];
      StaleIsAbandoned(env, v, init);
      if st.Run? {
        forall d | d in Stale(env, v, sts) ensures d in Abandoned(env, v, sts) {
          SmoothIsFine(env, Exec(env, v, init), st.op, d);
        }
      }
    }
  }

  // ---------------------------------------------------------------- coherence over whole runs, harmless or not

  /** Every record, buffered or stored, sits under the on-disk name of the name it holds. */
  ghost predicate CoherentVault(env: Env, v: Vault)
  {
    && (forall d | d in v.buffer :: Coherent(env.seg, v.buffer[d].manifest))
    && (forall d :: Coherent(env.seg, Stored(env, v.bucket, d)))
  }

  lemma EditCoherentVault(env: Env, v: Vault, e: string, f: Manifest -> Manifest)
    requires CoherentVault(env, v) && Coherent(env.seg, f(Read(env, v, e)))
    ensures CoherentVault(env, Edit(env, v, e, f))
  {
  }

  lemma LoadCoherentVault(env: Env, v: Vault, e: string)
    requires CoherentVault(env, v)
    ensures CoherentVault(env, Load(env, v, e)) && Coherent(env.seg, Read(env, v, e))
  {
  }

  lemma {:induction false} RecordCoherentVault(env: Env, v: Vault, dir: string, segs: seq<string>, size: nat)
    requires CoherentVault(env, v)
    ensures CoherentVault(env, RecordAll(env, v, dir, segs, size))
    decreases |segs|
  {
    LoadCoherentVault(env, v, dir);
    if |segs| == 1 {
      var name, key := segs[0], env.seg(segs[0]);
      EditCoherentVault(env, v, dir, (m: Manifest) => m.UpsertFile(key, name, size));
    } else if |segs| > 1 {
      var name, key := segs[0], env.seg(segs[0]);
      var f := (m: Manifest) => m.UpsertFolder(key, name);
      EditCoherentVault(env, v, dir, f);
      RecordCoherentVault(env, Edit(env, v, dir, f), dir + key + "/", segs[1..], size);
    }
  }

  lemma MovedRecordCoherent(env: Env, v: Vault, src: string, dest: string, key: string)
    requires CoherentVault(env, v) && src != dest
    ensures CoherentVault(env, MovedRecord(env, v, src, dest, key))
  {
    LoadCoherentVault(env, v, src);
    LoadCoherentVault(env, v, dest);
    MoveCoherent(env.seg, Read(env, v, src), Read(env, v, dest), key);
    var t := Take(env, v, src, key);
    assert CoherentVault(env, t);
    ReadTake(env, v, src, key, dest);
    var taken := Read(env, v, src).TakeEntry(key).1;
    if taken.Some? { EditCoherentVault(env, t, dest, (m: Manifest) => m.InsertEntry(key, taken.value)); }
  }

  /** A swap takes manifest objects to manifest objects and nothing else to one. */
  lemma SwapKeepsKind(from: string, to: string, k: string)
    requires Slashed(from) && Slashed(to) && from <= k
    ensures IsManifestObject(R.Swap(from, to, k)) <==> IsManifestObject(k)
  {
    var rest, k' := k[|from|..], R.Swap(from, to, k);
    assert k == from + rest && k' == to + rest;
    if |rest| >= 4 {
      assert k[|k| - 4..] == rest[|rest| - 4..] == k'[|k'| - 4..];
    } else {
      assert |k| >= 4 ==> k[|k| - 4..][3 - |rest|] == '/';
      assert |k'| >= 4 ==> k'[|k'| - 4..][3 - |rest|] == '/';
    }
  }

  lemma {:induction false} ReachKeepsKind(from: string, to: string, k0: string, k: string, n: nat)
    requires Slashed(from) && Slashed(to) && R.Reaches(from, to, k0, k, n) && IsManifestObject(k)
    ensures IsManifestObject(k0)
    decreases n
  {
    if n > 0 {
      ReachKeepsKind(from, to, R.Swap(from, to, k0), k, n - 1);
      SwapKeepsKind(from, to, k0);
    }
  }

  /** Whatever a rename leaves, finished or not, every stored manifest is one that was stored before. */
  lemma TracedCoherent(env: Env, b: R.Bucket, b': R.Bucket, from: string, to: string, d: string)
    requires Slashed(from) && Slashed(to) && R.Traced(b, b', from, to)
    requires forall e :: Coherent(env.seg, Stored(env, b, e))
    ensures Coherent(env.seg, Stored(env, b', d))
  {
    var k := d + MANIFEST_KEY;
    if k in b' {
      assert R.Comes(b, from, to, k, b'[k]);
      var k0, n: nat :| k0 in b && b[k0] == b'[k] && R.Reaches(from, to, k0, k, n);
      ManifestObjectOf(d);
      ReachKeepsKind(from, to, k0, k, n);
      assert k0 == DirOf(k0) + MANIFEST_KEY;
      assert Coherent(env.seg, Stored(env, b, DirOf(k0)));
    }
  }

  /** What a folder operation leaves in the bucket, whether its backend call went through or broke midway. */
  ghost predicate Survives(env: Env, v: Vault, op: Op, after: R.Bucket)
  {
    FolderOp(op) ==>
      if op.Delete? then R.Part(after, v.bucket) else R.Traced(v.bucket, after, FromOf(env.seg, op), ToOf(env.seg, op))
  }

  lemma BucketCoherent(env: Env, v: Vault, op: Op, after: R.Bucket)
    requires CoherentVault(env, v) && FolderOp(op) && Survives(env, v, op, after)
    ensures CoherentVault(env, v.(bucket := after))
  {
    SourceIsNamed(env.seg, op);
    forall d ensures Coherent(env.seg, Stored(env, after, d)) {
      assert Coherent(env.seg, Stored(env, v.bucket, d)) && Coherent(env.seg, EMPTY);
      if !op.Delete? { TracedCoherent(env, v.bucket, after, FromOf(env.seg, op), ToOf(env.seg, op), d); }
    }
  }

  lemma TransplantCoherent(env: Env, v: Vault, op: Op, after: R.Bucket)
    requires CoherentVault(env, v) && (op.Rename? || op.Move? || op.Delete?) && Survives(env, v, op, after)
    ensures CoherentVault(env, Transplanted(env, v, op, after))
  {
    if op.isDir { BucketCoherent(env, v, op, after); }
  }

  lemma RenameOpCoherent(env: Env, v: Vault, op: Op, after: R.Bucket)
    requires CoherentVault(env, v) && op.Rename? && Survives(env, v, op, after)
    ensures CoherentVault(env, Do(env, v, op, after))
  {
    LoadCoherentVault(env, v, op.dir);
    var l := Load(env, v, op.dir);
    ReadLoad(env, v, op.dir, op.dir);
    if GoesThrough(env, v, op) {
      TransplantCoherent(env, l, op, after);
      var v1 := Transplanted(env, l, op, after);
      LoadCoherentVault(env, v1, op.dir);
      RenameCoherent(env.seg, Read(env, v1, op.dir), op.old_, op.new_);
      var old_key, new_key := env.seg(op.old_), env.seg(op.new_);
      EditCoherentVault(env, v1, op.dir, (m: Manifest) => m.RenameEntry(old_key, new_key, op.new_));
    }
  }

  lemma DeleteOpCoherent(env: Env, v: Vault, op: Op, after: R.Bucket)
    requires CoherentVault(env, v) && op.Delete? && Survives(env, v, op, after)
    ensures CoherentVault(env, Do(env, v, op, after))
  {
    TransplantCoherent(env, v, op, after);
    var v1, key := Transplanted(env, v, op, after), env.seg(op.name);
    LoadCoherentVault(env, v1, op.dir);
    EditCoherent(env.seg, Read(env, v1, op.dir), op.name, 0, 0, 0);
    EditCoherentVault(env, v1, op.dir, (m: Manifest) => m.Remove(key));
  }

  lemma FolderEditCoherent(env: Env, v: Vault, op: Op, after: R.Bucket)
    requires CoherentVault(env, v) && (op.CreateFolder? || op.CacheSize?)
    ensures CoherentVault(env, Do(env, v, op, after))
  {
    var key := env.seg(op.name);
    LoadCoherentVault(env, v, op.dir);
    if op.CreateFolder? {
      EditCoherent(env.seg, Read(env, v, op.dir), op.name, 0, 0, 0);
      EditCoherentVault(env, v, op.dir, (m: Manifest) => m.UpsertFolder(key, op.name));
    } else {
      EditCoherent(env.seg, Read(env, v, op.dir), op.name, op.plain, op.cipher, op.at);
      EditCoherentVault(env, v, op.dir, (m: Manifest) => m.SetFolderSize(key, op.plain, op.cipher, op.at));
    }
  }

  /** Each operation keeps every record, buffered or stored, under the on-disk name of the name it holds. */
  lemma OpCoherent(env: Env, v: Vault, op: Op, after: R.Bucket)
    requires CoherentVault(env, v) && Survives(env, v, op, after)
    ensures CoherentVault(env, Do(env, v, op, after))
  {
    match op
    case Upload(dest, segs, size) => RecordCoherentVault(env, v, dest, segs, size);
    case Rename(_, _, _, _) => RenameOpCoherent(env, v, op, after);
    case Move(src, dest, name, _) =>
      if GoesThrough(env, v, op) {
        TransplantCoherent(env, v, op, after);
        MovedRecordCoherent(env, Transplanted(env, v, op, after), src, dest, env.seg(name));
      }
    case Delete(_, _, _) => DeleteOpCoherent(env, v, op, after);
    case CreateFolder(_, _) => FolderEditCoherent(env, v, op, after);
    case CacheSize(_, _, _, _, _) => FolderEditCoherent(env, v, op, after);
  }

  lemma FlushCoherent(env: Env, v: Vault, landed: map<string, R.Content>)
    requires CoherentVault(env, v) && Written(env, v, landed)
    ensures CoherentVault(env, Flushed(env, v, landed))
  {
    var v' := Flushed(env, v, landed);
    forall d ensures Coherent(env.seg, Stored(env, v'.bucket, d)) {
      assert Coherent(env.seg, Stored(env, v.bucket, d));
      ManifestObjectOf(d);
      forall e | e in landed ensures d + MANIFEST_KEY == e + MANIFEST_KEY ==> d == e { ManifestObjectOf(e); }
    }
  }

  lemma ObjectCoherent(env: Env, v: Vault, st: Step)
    requires CoherentVault(env, v) && (st.Put? || st.Drop? || st.Tick?)
    ensures CoherentVault(env, Next(env, v, st))
  {
    forall d ensures Stored(env, Next(env, v, st).bucket, d) == Stored(env, v.bucket, d) { ManifestObjectOf(d); }
  }

  lemma BrokenCoherent(env: Env, v: Vault, op: Op, after: R.Bucket)
    requires CoherentVault(env, v) && FolderOp(op) && Survives(env, v, op, after)
    ensures CoherentVault(env, Next(env, v, Broken(op, after)))
  {
    if op.Rename? {
      LoadCoherentVault(env, v, op.dir);
      BucketCoherent(env, Load(env, v, op.dir), op, after);
    } else {
      BucketCoherent(env, v, op, after);
    }
  }

  /** All that is asked of a step: what a folder operation leaves in the bucket was there before. */
  ghost predicate Possible(env: Env, v: Vault, st: Step)
  {
    (st.Run? ==> Survives(env, v, st.op, st.after))
      && (st.Broken? ==> FolderOp(st.op) && Survives(env, v, st.op, st.after))
  }

  lemma StepCoherent(env: Env, v: Vault, st: Step)
    requires CoherentVault(env, v) && Possible(env, v, st)
    ensures CoherentVault(env, Next(env, v, st))
  {
    match st
    case Browse(d) => LoadCoherentVault(env, v, d);
    case Flush(landed) => if Written(env, v, landed) { FlushCoherent(env, v, landed); }
    case Run(op, after) => OpCoherent(env, v, op, after);
    case Broken(op, after) => BrokenCoherent(env, v, op, after);
    case _ => ObjectCoherent(env, v, st);
  }

  ghost predicate PossibleRun(env: Env, v: Vault, sts: seq<Step>)
  {
    sts == [] || (
      var init := sts[..|sts| - 1];
      PossibleRun(env, v, init) && Possible(env, Exec(env, v, init), sts[|sts| - 1]))
  }

  /**
   * Over whole runs of any steps, onto any targets, harmful or not, with operations breaking midway: every record of
   * both levels sits under the on-disk name of the name it holds.
   */
  lemma {:induction false} RunCoherent(env: Env, v: Vault, sts: seq<Step>)
    requires CoherentVault(env, v) && PossibleRun(env, v, sts)
    ensures CoherentVault(env, Exec(env, v, sts))
    ensures forall d :: Coherent(env.seg, Read(env, Exec(env, v, sts), d))
  {
    if sts != [] {
      RunCoherent(env, v, sts[..|sts| - 1]);
      StepCoherent(env, Exec(env, v, sts[..|sts| - 1]), sts[|sts| - 1]);
    }
    forall d ensures Coherent(env.seg, Read(env, Exec(env, v, sts), d)) {
      LoadCoherentVault(env, Exec(env, v, sts), d);
    }
  }
}
