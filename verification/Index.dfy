/**
 * The name index: which manifest record each worker operation is meant to write, and the property that keeps
 * the index usable - every record sits under the on-disk name of the name it holds. Here a directory has one
 * manifest; the two levels the worker really keeps are in `Session`.
 * `seg` is the deterministic map from a name to its on-disk segment.
 */
module Index {
  import opened Prelude
  import opened Paths
  import opened Manifests

  type Naming = string -> string

  /** Directory prefix to manifest; an absent directory has the empty manifest. */
  type Index = map<string, Manifest>

  function Of(ix: Index, d: string): (m: Manifest) { if d in ix then ix[d] else EMPTY }

  predicate Coherent(seg: Naming, m: Manifest)
  {
    && (forall k | k in m.files :: k == seg(m.files[k].name))
    && (forall k | k in m.folders :: k == seg(m.folders[k].name))
  }

  predicate CoherentIndex(seg: Naming, ix: Index)
  {
    forall d | d in ix :: Coherent(seg, ix[d])
  }

  // ---------------------------------------------------------------- the operations

  /** Record an uploaded file and the folders on its path. */
  function Record(seg: Naming, ix: Index, dir: string, segs: seq<string>, size: nat): (ix': Index)
    decreases |segs|
  {
    if segs == [] then ix
    else if |segs| == 1 then ix[dir := Of(ix, dir).UpsertFile(seg(segs[0]), segs[0], size)]
    else
      Record(seg, ix[dir := Of(ix, dir).UpsertFolder(seg(segs[0]), segs[0])], dir + seg(segs[0]) + "/", segs[1..], size)
  }

  function NonEmpty(parts: seq<string>): (r: seq<string>)
  {
    if parts == [] then []
    else if parts[0] == "" then NonEmpty(parts[1..])
    else [parts[0]] + NonEmpty(parts[1..])
  }

  /** The recording loop, from the relative path as a string. */
  method RecordUpload(seg: Naming, ix: Index, dest: string, rel: string, size: nat) returns (ix': Index)
    ensures ix' == Record(seg, ix, dest, NonEmpty(SplitSlash(rel)), size)
  {
    var segments := NonEmpty(SplitSlash(rel));
    var prefix := dest;
    ix' := ix;
    var i := 0;
    while i < |segments|
      invariant i <= |segments|
      invariant Record(seg, ix', prefix, segments[i..], size) == Record(seg, ix, dest, segments, size)
    {
      var name := segments[i];
      var hash := seg(name);
      ghost var rest := segments[i..];
      assert rest[0] == name && rest[1..] == segments[i + 1..];
      if i + 1 == |segments| {
        ix' := ix'[prefix := Of(ix', prefix).UpsertFile(hash, name, size)];
      } else {
        ix' := ix'[prefix := Of(ix', prefix).UpsertFolder(hash, name)];
        prefix := prefix + hash + "/";
      }
      i := i + 1;
    }
  }

  /** A renamed or moved folder takes the manifests of its directories along. */
  function Relocate(ix: Index, from: string, to: string): (ix': Index)
  {
    map d | d in (set e | e in ix && !(from <= e) && !(to <= e)) + (set e | e in ix && from <= e :: to + e[|from|..]) ::
      if to <= d then Of(ix, from + d[|to|..]) else Of(ix, d)
  }

  /** A deleted folder's directories have no manifests. */
  function Cleared(ix: Index, from: string): (ix': Index) { map d | d in ix && !(from <= d) :: ix[d] }

  /** What every directory reads after a relocation. */
  lemma OfRelocate(ix: Index, from: string, to: string, d: string)
    ensures Of(Relocate(ix, from, to), d) ==
            if to <= d then Of(ix, from + d[|to|..]) else if from <= d then EMPTY else Of(ix, d)
  {
    var rest := if to <= d then d[|to|..] else "";
    assert to <= d ==> d == to + rest;
    assert (from + rest)[|from|..] == rest;
    forall e | e in ix && from <= e ensures to <= to + e[|from|..] && e == from + e[|from|..] {}
  }

  /** Take the record out of one directory and put it into another, if there is one. */
  function MoveRecord(ix: Index, src: string, dest: string, key: string): (ix': Index)
  {
    var (m, taken) := Of(ix, src).TakeEntry(key);
    if taken.None? then ix
    else
      var ix1 := ix[src := m];
      ix1[dest := Of(ix1, dest).InsertEntry(key, taken.value)]
  }

  datatype Op =
    | Upload(dest: string, segs: seq<string>, size: nat)
    | CreateFolder(dir: string, name: string)
    | Rename(dir: string, old_: string, new_: string, isDir: bool)
    | Move(src: string, dest: string, name: string, isDir: bool)
    | Delete(dir: string, name: string, isDir: bool)
    | CacheSize(dir: string, name: string, plain: nat, cipher: nat, at: int)

  predicate Blank(s: string) { forall c | c in s :: c in {' ', '\t', '\n', '\r'} }

  /** What each operation is meant to do to the manifests, one per directory. */
  function Apply(seg: Naming, ix: Index, op: Op): (ix': Index)
  {
    match op
    case Upload(dest, segs, size) => Record(seg, ix, dest, segs, size)
    case CreateFolder(dir, name) => ix[dir := Of(ix, dir).UpsertFolder(seg(name), name)]
    case Rename(dir, old_, new_, isDir) =>
      if Blank(new_) || !NoSlash(new_) || seg(old_) == seg(new_) || Of(ix, dir).NameFor(seg(new_)).Some? then ix
      else
        var ix1 := if isDir then Relocate(ix, dir + seg(old_) + "/", dir + seg(new_) + "/") else ix;
        ix1[dir := Of(ix1, dir).RenameEntry(seg(old_), seg(new_), new_)]
    case Move(src, dest, name, isDir) =>
      var from := src + seg(name) + "/";
      if dest == src || (isDir && from <= dest) then ix
      else
        MoveRecord(if isDir then Relocate(ix, from, dest + seg(name) + "/") else ix, src, dest, seg(name))
    case Delete(dir, name, isDir) =>
      var ix1 := if isDir then Cleared(ix, dir + seg(name) + "/") else ix;
      ix1[dir := Of(ix1, dir).Remove(seg(name))]
    case CacheSize(dir, name, p, c, t) => ix[dir := Of(ix, dir).SetFolderSize(seg(name), p, c, t)]
  }

  function ApplyAll(seg: Naming, ix: Index, ops: seq<Op>): (ix': Index)
  {
    if ops == [] then ix else Apply(seg, ApplyAll(seg, ix, ops[..|ops| - 1]), ops[|ops| - 1])
  }

  // ---------------------------------------------------------------- coherence

  lemma {:induction false} RecordCoherent(seg: Naming, ix: Index, dir: string, segs: seq<string>, size: nat)
    requires CoherentIndex(seg, ix)
    ensures CoherentIndex(seg, Record(seg, ix, dir, segs, size))
    decreases |segs|
  {
    if |segs| >= 2 {
      RecordCoherent(seg, ix[dir := Of(ix, dir).UpsertFolder(seg(segs[0]), segs[0])], dir + seg(segs[0]) + "/",
        segs[1..], size);
    }
  }

  lemma RenameCoherent(seg: Naming, m: Manifest, old_: string, new_: string)
    requires Coherent(seg, m)
    ensures Coherent(seg, m.RenameEntry(seg(old_), seg(new_), new_))
  {
  }

  lemma MoveCoherent(seg: Naming, src: Manifest, dest: Manifest, key: string)
    requires Coherent(seg, src) && Coherent(seg, dest)
    ensures var (m, taken) := src.TakeEntry(key);
            Coherent(seg, m) && (taken.Some? ==> Coherent(seg, dest.InsertEntry(key, taken.value)))
  {
  }

  lemma EditCoherent(seg: Naming, m: Manifest, name: string, p: nat, c: nat, t: int)
    requires Coherent(seg, m)
    ensures Coherent(seg, m.UpsertFolder(seg(name), name)) && Coherent(seg, m.Remove(seg(name)))
    ensures Coherent(seg, m.SetFolderSize(seg(name), p, c, t))
  {
  }

  /** Distinct names in `names` have distinct on-disk segments, each 64 upper-case hex characters. */
  ghost predicate Hashes(seg: Naming, names: set<string>)
  {
    && (forall n | n in names :: IsHash(seg(n)))
    && (forall n, k | n in names && k in names && seg(n) == seg(k) :: n == k)
  }

  predicate IsHash(s: string) { |s| == 64 && forall c | c in s :: '0' <= c <= '9' || 'A' <= c <= 'F' }

  lemma HashHasNoSlash(s: string)
    requires IsHash(s)
    ensures s != "" && NoSlash(s) && s != MANIFEST_KEY && s != VAULT_KEY
  {
  }

  ghost predicate NamesIn(m: Manifest, names: set<string>)
  {
    && (forall k | k in m.files :: m.files[k].name in names)
    && (forall k | k in m.folders :: m.folders[k].name in names)
  }

  /**
   * In a coherent manifest a lookup answers with the one name whose on-disk segment is the key, whichever kind it is.
   */
  lemma NameForIsTheName(seg: Naming, m: Manifest, key: string, names: set<string>)
    requires Coherent(seg, m) && NamesIn(m, names) && Hashes(seg, names)
    ensures m.NameFor(key).Some? ==> seg(m.NameFor(key).value) == key
    ensures forall n | n in names && seg(n) == key ::
              m.NameFor(key) == if key in m.files || key in m.folders then Some(n) else None
  {
  }

  /** Names are unique per kind in a directory. */
  lemma NamesUnique(seg: Naming, m: Manifest, k1: string, k2: string)
    requires Coherent(seg, m)
    ensures k1 in m.files && k2 in m.files && m.files[k1].name == m.files[k2].name ==> k1 == k2
    ensures k1 in m.folders && k2 in m.folders && m.folders[k1].name == m.folders[k2].name ==> k1 == k2
  {
  }

  /** Moving a file's record away and back restores every directory, when the destination had no such record. */
  lemma MoveBackRestores(seg: Naming, ix: Index, src: string, dest: string, name: string, d: string)
    requires src != dest
    requires seg(name) in Of(ix, src).files
    requires Of(ix, dest).NameFor(seg(name)).None?
    ensures Of(Apply(seg, Apply(seg, ix, Move(src, dest, name, false)), Move(dest, src, name, false)), d) == Of(ix, d)
  {
  }
}
