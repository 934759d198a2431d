/**
 * Upload, then expand: recording every uploaded file makes folder expansion return exactly the uploaded
 * relative paths and plaintext sizes, under exactly the keys the uploads wrote.
 */
module FolderRoundTrip {
  import opened Prelude
  import opened Layout
  import opened Paths
  import opened Manifests
  import opened Index
  import opened DirView
  import opened Expand

  /** One uploaded file: the segments of its relative path and its plaintext size. */
  datatype Up = Up(segs: seq<string>, size: nat)

  datatype Remote = Remote(objs: Objects, ix: Index)

  /** The key an upload writes. */
  function UploadKey(seg: Naming, dest: string, u: Up): (k: string)
  {
    dest + OnDiskPath(seg, JoinSlash(u.segs))
  }

  /** One upload: the object is written and its relative path recorded, as the recording loop does it. */
  ghost function UploadOne(seg: Naming, r: Remote, dest: string, u: Up): (r': Remote)
  {
    Remote(r.objs[UploadKey(seg, dest, u) := CipherLen(u.size)],
           Record(seg, r.ix, dest, NonEmpty(SplitSlash(JoinSlash(u.segs))), u.size))
  }

  lemma {:induction false} AllNonEmpty(segs: seq<string>)
    requires forall s | s in segs :: s != ""
    ensures NonEmpty(segs) == segs
  {
    if segs != [] {
      assert segs[0] in segs && forall s | s in segs[1..] :: s in segs;
      AllNonEmpty(segs[1..]);
      assert segs == [segs[0]] + segs[1..];
    }
  }

  /** The recording loop sees exactly the segments the path was joined from. */
  lemma RecordedSegments(segs: seq<string>)
    requires Segments(segs)
    ensures NonEmpty(SplitSlash(JoinSlash(segs))) == segs
  {
    SplitJoin(segs);
    AllNonEmpty(segs);
  }

  ghost function UploadAll(seg: Naming, r: Remote, dest: string, ups: seq<Up>): (r': Remote)
  {
    if ups == [] then r else UploadOne(seg, UploadAll(seg, r, dest, ups[..|ups| - 1]), dest, ups[|ups| - 1])
  }

  /** On-disk path of a list of segments. */
  function PathKey(seg: Naming, segs: seq<string>): (k: string)
    requires |segs| >= 1
  {
    if |segs| == 1 then seg(segs[0]) else seg(segs[0]) + "/" + PathKey(seg, segs[1..])
  }

  ghost predicate NamesOk(segs: seq<string>, names: set<string>)
  {
    Segments(segs) && forall s | s in segs :: s in names
  }

  lemma {:induction false} JoinOnDisk(seg: Naming, segs: seq<string>)
    requires Segments(segs)
    ensures JoinSlash(OnDiskSegments(seg, segs)) == PathKey(seg, segs)
  {
    var ds := OnDiskSegments(seg, segs);
    assert segs[0] in segs;
    if |segs| > 1 {
      assert ds[1..] == OnDiskSegments(seg, segs[1..]);
      JoinOnDisk(seg, segs[1..]);
    }
  }

  /** The key an upload writes is the destination followed by the on-disk names of the segments. */
  lemma UploadKeyIs(seg: Naming, dest: string, u: Up)
    requires Segments(u.segs)
    ensures UploadKey(seg, dest, u) == dest + PathKey(seg, u.segs)
  {
    SplitJoin(u.segs);
    JoinOnDisk(seg, u.segs);
  }

  lemma NameHash(seg: Naming, name: string, names: set<string>)
    requires name in names && Hashes(seg, names)
    ensures IsHash(seg(name)) && NoSlash(seg(name)) && !Meta(seg(name))
  {
  }

  lemma FirstHash(seg: Naming, segs: seq<string>, names: set<string>)
    requires NamesOk(segs, names) && Hashes(seg, names)
    ensures IsHash(seg(segs[0])) && NoSlash(seg(segs[0])) && !Meta(seg(segs[0])) && segs[0] in names
    ensures var rest := PathKey(seg, segs);
            FirstSlash(rest) == 64 && rest[..64] == seg(segs[0]) && (|segs| == 1 <==> |rest| == 64)
            && (|segs| > 1 ==> rest[65..] == PathKey(seg, segs[1..]) && rest[..65] == seg(segs[0]) + "/")
  {
    assert segs[0] in segs;
    NameHash(seg, segs[0], names);
    var h := seg(segs[0]);
    if |segs| > 1 {
      FirstSlashAt(h, PathKey(seg, segs[1..]));
      JoinedParts(h, PathKey(seg, segs[1..]));
    } else {
      FirstSlashAt(h, "");
    }
  }

  lemma JoinedParts(a: string, b: string)
    ensures var s := a + "/" + b;
            |s| == |a| + 1 + |b| && s[..|a|] == a && s[..|a| + 1] == a + "/" && s[|a| + 1..] == b
  {
  }

  /** Different paths have different keys. */
  lemma {:induction false} PathKeyInjective(seg: Naming, s: seq<string>, t: seq<string>, names: set<string>)
    requires NamesOk(s, names) && NamesOk(t, names) && Hashes(seg, names)
    requires PathKey(seg, s) == PathKey(seg, t)
    ensures s == t
  {
    FirstHash(seg, s, names);
    FirstHash(seg, t, names);
    assert s[0] == t[0];
    if |s| > 1 {
      TailOk(s, names);
      TailOk(t, names);
      PathKeyInjective(seg, s[1..], t[1..], names);
      assert s == [s[0]] + s[1..] && t == [t[0]] + t[1..];
    } else {
      assert s == [s[0]] && t == [t[0]];
    }
  }

  // ---------------------------------------------------------------- what recording leaves behind

  /** The file and the folders on its path are recorded. */
  predicate RecordedAt(seg: Naming, ix: Index, dir: string, segs: seq<string>, size: nat)
    requires |segs| >= 1
    decreases |segs|
  {
    var h := seg(segs[0]);
    if |segs| == 1 then h in Of(ix, dir).files && Of(ix, dir).files[h].size == size
    else h in Of(ix, dir).folders && RecordedAt(seg, ix, dir + h + "/", segs[1..], size)
  }

  /** Nothing is forgotten except possibly the file stored under one key. */
  ghost predicate Keeps(ix: Index, ix': Index, key: string)
  {
    forall d, x ::
      && (x in Of(ix, d).folders ==> x in Of(ix', d).folders)
      && (x in Of(ix, d).files && d + x != key ==> x in Of(ix', d).files && Of(ix', d).files[x] == Of(ix, d).files[x])
  }

  lemma KeepsTransitive(a: Index, b: Index, c: Index, key: string)
    requires Keeps(a, b, key) && Keeps(b, c, key)
    ensures Keeps(a, c, key)
  {
  }

  lemma {:induction false} RecordKeeps(seg: Naming, ix: Index, dir: string, segs: seq<string>, size: nat)
    requires |segs| >= 1
    ensures Keeps(ix, Record(seg, ix, dir, segs, size), dir + PathKey(seg, segs))
    decreases |segs|
  {
    var h, key := seg(segs[0]), dir + PathKey(seg, segs);
    if |segs| == 1 {
      assert key == dir + h;
    } else {
      var ix1 := ix[dir := Of(ix, dir).UpsertFolder(h, segs[0])];
      RecordKeeps(seg, ix1, dir + h + "/", segs[1..], size);
      assert dir + h + "/" + PathKey(seg, segs[1..]) == key;
      assert Keeps(ix, ix1, key);
      KeepsTransitive(ix, ix1, Record(seg, ix, dir, segs, size), key);
    }
  }

  lemma {:induction false} RecordRecords(seg: Naming, ix: Index, dir: string, segs: seq<string>, size: nat)
    requires |segs| >= 1
    ensures RecordedAt(seg, Record(seg, ix, dir, segs, size), dir, segs, size)
    decreases |segs|
  {
    if |segs| > 1 {
      var h := seg(segs[0]);
      var ix1 := ix[dir := Of(ix, dir).UpsertFolder(h, segs[0])];
      RecordRecords(seg, ix1, dir + h + "/", segs[1..], size);
      RecordKeeps(seg, ix1, dir + h + "/", segs[1..], size);
      assert h in Of(ix1, dir).folders;
    }
  }

  lemma {:induction false} RecordedKept(seg: Naming, ix: Index, ix': Index, key: string, dir: string, segs: seq<string>,
                                        size: nat)
    requires |segs| >= 1 && Keeps(ix, ix', key) && RecordedAt(seg, ix, dir, segs, size)
             && dir + PathKey(seg, segs) != key
    ensures RecordedAt(seg, ix', dir, segs, size)
    decreases |segs|
  {
    if |segs| > 1 {
      var h := seg(segs[0]);
      assert dir + h + "/" + PathKey(seg, segs[1..]) == dir + PathKey(seg, segs);
      RecordedKept(seg, ix, ix', key, dir + h + "/", segs[1..], size);
    }
  }

  ghost predicate NamesInIndex(ix: Index, names: set<string>) { forall d | d in ix :: NamesIn(ix[d], names) }

  lemma {:induction false} RecordNames(seg: Naming, ix: Index, dir: string, segs: seq<string>, size: nat,
                                       names: set<string>)
    requires NamesInIndex(ix, names) && forall s | s in segs :: s in names
    ensures NamesInIndex(Record(seg, ix, dir, segs, size), names)
    decreases |segs|
  {
    if |segs| >= 2 {
      var ix1 := ix[dir := Of(ix, dir).UpsertFolder(seg(segs[0]), segs[0])];
      assert NamesIn(ix1[dir], names);
      RecordNames(seg, ix1, dir + seg(segs[0]) + "/", segs[1..], size, names);
    } else if |segs| == 1 {
      assert NamesIn(Of(ix, dir).UpsertFile(seg(segs[0]), segs[0], size), names);
    }
  }

  /** The index is coherent and the hash behaves on every name in play. */
  ghost predicate Sane(seg: Naming, ix: Index, names: set<string>)
  {
    CoherentIndex(seg, ix) && NamesInIndex(ix, names) && Hashes(seg, names)
  }

  // ---------------------------------------------------------------- reading a recorded path back

  lemma {:induction false} PathVisible(seg: Naming, segs: seq<string>, names: set<string>)
    requires NamesOk(segs, names) && Hashes(seg, names)
    ensures Clean(PathKey(seg, segs)) && Visible(PathKey(seg, segs))
  {
    FirstHash(seg, segs, names);
    if |segs| > 1 { TailOk(segs, names); PathVisible(seg, segs[1..], names); }
  }

  /** One level of resolution: the first segment resolves to its real name, the rest is resolved below it. */
  lemma ResolveFirst(seg: Naming, ix: Index, dir: string, base: string, segs: seq<string>, stored: nat,
                     names: set<string>)
    requires NamesOk(segs, names) && Hashes(seg, names)
    requires NameOr(Of(ix, dir), seg(segs[0])) == segs[0]
    ensures |segs| == 1 ==>
              RelOf(ix, dir, base, PathKey(seg, segs)) == base + "/" + segs[0]
              && SizeOf(ix, dir, PathKey(seg, segs), stored) == SizeOr(Of(ix, dir), seg(segs[0]), stored)
    ensures |segs| > 1 ==>
              var sub, tail := dir + seg(segs[0]) + "/", PathKey(seg, segs[1..]);
              RelOf(ix, dir, base, PathKey(seg, segs)) == RelOf(ix, sub, base + "/" + segs[0], tail)
              && SizeOf(ix, dir, PathKey(seg, segs), stored) == SizeOf(ix, sub, tail, stored)
  {
    FirstHash(seg, segs, names);
    var rest := PathKey(seg, segs);
    if |segs| > 1 {
      assert dir + rest[..65] == dir + seg(segs[0]) + "/";
    } else {
      assert rest[..64] == rest;
    }
  }

  lemma FirstName(seg: Naming, ix: Index, dir: string, segs: seq<string>, size: nat, names: set<string>)
    requires NamesOk(segs, names) && Hashes(seg, names) && CoherentIndex(seg, ix) && NamesInIndex(ix, names)
    requires RecordedAt(seg, ix, dir, segs, size)
    ensures NameOr(Of(ix, dir), seg(segs[0])) == segs[0]
  {
  }

  lemma TailOk(segs: seq<string>, names: set<string>)
    requires NamesOk(segs, names) && |segs| > 1
    ensures NamesOk(segs[1..], names)
  {
  }

  lemma JoinTail(base: string, segs: seq<string>)
    requires |segs| > 1
    ensures base + "/" + segs[0] + "/" + JoinSlash(segs[1..]) == base + "/" + JoinSlash(segs)
  {
  }

  /** Resolving a recorded path segment by segment gives back the real path and the recorded size. */
  lemma {:induction false} ResolveRecorded(seg: Naming, ix: Index, dir: string, base: string, segs: seq<string>,
                                           size: nat, stored: nat, names: set<string>)
    requires NamesOk(segs, names) && Sane(seg, ix, names) && RecordedAt(seg, ix, dir, segs, size)
    ensures RelOf(ix, dir, base, PathKey(seg, segs)) == base + "/" + JoinSlash(segs)
    ensures SizeOf(ix, dir, PathKey(seg, segs), stored) == size
    decreases |segs|
  {
    FirstName(seg, ix, dir, segs, size, names);
    ResolveFirst(seg, ix, dir, base, segs, stored, names);
    if |segs| > 1 {
      TailOk(segs, names);
      ResolveRecorded(seg, ix, dir + seg(segs[0]) + "/", base + "/" + segs[0], segs[1..], size, stored, names);
      JoinTail(base, segs);
    }
  }

  // ---------------------------------------------------------------- the whole upload

  /** A batch of uploads into one folder: real names, pairwise different paths. */
  ghost predicate Batch(folder: string, ups: seq<Up>, names: set<string>)
  {
    && folder in names
    && (forall u | u in ups :: |u.segs| >= 2 && u.segs[0] == folder && NamesOk(u.segs, names))
    && (forall i, j | 0 <= i < j < |ups| :: ups[i].segs != ups[j].segs)
  }

  ghost predicate AllRecorded(seg: Naming, ix: Index, dest: string, ups: seq<Up>)
  {
    forall u | u in ups :: |u.segs| >= 1 && RecordedAt(seg, ix, dest, u.segs, u.size)
  }

  lemma OneMoreRecorded(seg: Naming, ix: Index, dest: string, init: seq<Up>, z: Up, names: set<string>)
    requires AllRecorded(seg, ix, dest, init) && Hashes(seg, names) && NamesOk(z.segs, names)
    requires forall u | u in init :: NamesOk(u.segs, names) && u.segs != z.segs
    ensures AllRecorded(seg, Record(seg, ix, dest, z.segs, z.size), dest, init + [z])
  {
    var ix' := Record(seg, ix, dest, z.segs, z.size);
    RecordRecords(seg, ix, dest, z.segs, z.size);
    RecordKeeps(seg, ix, dest, z.segs, z.size);
    forall u | u in init + [z]
      ensures |u.segs| >= 1 && RecordedAt(seg, ix', dest, u.segs, u.size)
    {
      if u in init {
        DifferentKeys(seg, dest, u.segs, z.segs, names);
        RecordedKept(seg, ix, ix', dest + PathKey(seg, z.segs), dest, u.segs, u.size);
      }
    }
  }

  lemma {:induction false} UploadsRecorded(seg: Naming, r: Remote, dest: string, folder: string, ups: seq<Up>,
                                           names: set<string>)
    requires Batch(folder, ups, names) && Sane(seg, r.ix, names)
    ensures var r' := UploadAll(seg, r, dest, ups);
            Sane(seg, r'.ix, names) && AllRecorded(seg, r'.ix, dest, ups)
  {
    if ups != [] {
      var init, z := ups[..|ups| - 1], ups[|ups| - 1];
      assert z in ups && forall u | u in init :: u in ups;
      assert ups == init + [z];
      UploadsRecorded(seg, r, dest, folder, init, names);
      var ix := UploadAll(seg, r, dest, init).ix;
      RecordedSegments(z.segs);
      RecordCoherent(seg, ix, dest, z.segs, z.size);
      RecordNames(seg, ix, dest, z.segs, z.size, names);
      OneMoreRecorded(seg, ix, dest, init, z, names);
    }
  }

  lemma DifferentKeys(seg: Naming, dest: string, s: seq<string>, t: seq<string>, names: set<string>)
    requires NamesOk(s, names) && NamesOk(t, names) && Hashes(seg, names) && s != t
    ensures dest + PathKey(seg, s) != dest + PathKey(seg, t)
  {
    var a, b := dest + PathKey(seg, s), dest + PathKey(seg, t);
    assert a[|dest|..] == PathKey(seg, s) && b[|dest|..] == PathKey(seg, t);
    if PathKey(seg, s) == PathKey(seg, t) { PathKeyInjective(seg, s, t, names); }
  }

  lemma {:induction false} UploadedObjects(seg: Naming, r: Remote, dest: string, ups: seq<Up>, k: string)
    ensures k in UploadAll(seg, r, dest, ups).objs <==>
            k in r.objs || exists u :: u in ups && k == UploadKey(seg, dest, u)
  {
    if ups != [] {
      var init, z := ups[..|ups| - 1], ups[|ups| - 1];
      UploadedObjects(seg, r, dest, init, k);
      assert forall u :: u in ups <==> u in init || u == z;
    }
  }

  function RootOf(seg: Naming, dest: string, folder: string): (d: string) { dest + seg(folder) + "/" }

  /** The key of an upload, seen from the folder's prefix. */
  lemma KeyBelowRoot(seg: Naming, dest: string, folder: string, u: Up, names: set<string>)
    requires |u.segs| >= 2 && u.segs[0] == folder && NamesOk(u.segs, names)
    ensures var root := RootOf(seg, dest, folder);
            UploadKey(seg, dest, u) == root + PathKey(seg, u.segs[1..])
            && root <= UploadKey(seg, dest, u) && After(root, UploadKey(seg, dest, u)) == PathKey(seg, u.segs[1..])
            && NamesOk(u.segs[1..], names)
  {
    UploadKeyIs(seg, dest, u);
    TailOk(u.segs, names);
    var root := RootOf(seg, dest, folder);
    assert dest + (seg(folder) + "/" + PathKey(seg, u.segs[1..])) == root + PathKey(seg, u.segs[1..]);
  }

  /** Nothing visible lies below the folder before the upload: it is fresh, up to metadata and markers. */
  ghost predicate FreshFolder(objs: Objects, root: string)
  {
    forall k | k in objs && root <= k :: Clean(After(root, k)) && !Visible(After(root, k))
  }

  /** What the user expects back for one upload. */
  function Wanted(seg: Naming, dest: string, u: Up): (t: Target)
  {
    Target(UploadKey(seg, dest, u), JoinSlash(u.segs), u.size)
  }

  lemma UploadShown(seg: Naming, r: Remote, dest: string, folder: string, ups: seq<Up>, names: set<string>, u: Up)
    requires Batch(folder, ups, names) && Sane(seg, r.ix, names) && u in ups
    ensures var r' := UploadAll(seg, r, dest, ups);
            var root := Pending(RootOf(seg, dest, folder), folder);
            && Shown(r'.objs, root.dir, UploadKey(seg, dest, u))
            && TargetOf(r'.objs, r'.ix, root, UploadKey(seg, dest, u)) == Wanted(seg, dest, u)
  {
    var r', k, root := UploadAll(seg, r, dest, ups), UploadKey(seg, dest, u), RootOf(seg, dest, folder);
    UploadsRecorded(seg, r, dest, folder, ups, names);
    UploadedObjects(seg, r, dest, ups, k);
    KeyBelowRoot(seg, dest, folder, u, names);
    PathVisible(seg, u.segs[1..], names);
    assert RecordedAt(seg, r'.ix, dest, u.segs, u.size);
    ResolveRecorded(seg, r'.ix, root, folder, u.segs[1..], u.size, r'.objs[k], names);
  }

  lemma UploadsClean(seg: Naming, r: Remote, dest: string, folder: string, ups: seq<Up>, names: set<string>, k: string)
    requires Batch(folder, ups, names) && Sane(seg, r.ix, names) && FreshFolder(r.objs, RootOf(seg, dest, folder))
    requires k in UploadAll(seg, r, dest, ups).objs && RootOf(seg, dest, folder) <= k
    ensures Clean(After(RootOf(seg, dest, folder), k))
    ensures Visible(After(RootOf(seg, dest, folder), k)) ==> exists u :: u in ups && k == UploadKey(seg, dest, u)
  {
    UploadedObjects(seg, r, dest, ups, k);
    if u :| u in ups && k == UploadKey(seg, dest, u) {
      KeyBelowRoot(seg, dest, folder, u, names);
      PathVisible(seg, u.segs[1..], names);
    }
  }

  /**
   * The round trip: upload any batch of different paths into a fresh folder and record each; any expansion
   * of that folder is exactly the uploaded (key, relative path, plaintext size) triples, each once.
   */
  lemma UploadThenExpand(seg: Naming, r: Remote, dest: string, folder: string, ups: seq<Up>, names: set<string>,
                         out: seq<Target>)
    requires Batch(folder, ups, names) && Sane(seg, r.ix, names) && FreshFolder(r.objs, RootOf(seg, dest, folder))
    requires var r' := UploadAll(seg, r, dest, ups);
             Expansion(r'.objs, r'.ix, Pending(RootOf(seg, dest, folder), folder), out)
    ensures forall t :: t in out <==> exists u :: u in ups && t == Wanted(seg, dest, u)
    ensures DistinctKeys(out)
  {
    var r', root := UploadAll(seg, r, dest, ups), Pending(RootOf(seg, dest, folder), folder);
    forall t
      ensures t in out <==> exists u :: u in ups && t == Wanted(seg, dest, u)
    {
      if t in out {
        assert Shown(r'.objs, root.dir, t.key);
        UploadsClean(seg, r, dest, folder, ups, names, t.key);
        var u :| u in ups && t.key == UploadKey(seg, dest, u);
        UploadShown(seg, r, dest, folder, ups, names, u);
        assert t == Wanted(seg, dest, u);
      }
      if u :| u in ups && t == Wanted(seg, dest, u) {
        UploadShown(seg, r, dest, folder, ups, names, u);
      }
    }
  }

  /** The same end to end: the walk itself, on the folder's listing key, returns exactly what was uploaded. */
  method ExpandUploaded(seg: Naming, ghost r: Remote, r': Remote, dest: string, folder: string, ghost ups: seq<Up>,
                        ghost names: set<string>)
    returns (out: seq<Target>)
    requires r' == UploadAll(seg, r, dest, ups)
    requires Batch(folder, ups, names) && Sane(seg, r.ix, names) && FreshFolder(r.objs, RootOf(seg, dest, folder))
    requires DirKey(dest)
    ensures forall t :: t in out <==> exists u :: u in ups && t == Wanted(seg, dest, u)
    ensures DistinctKeys(out)
  {
    var key := dest + seg(folder) + "/";
    HashHasNoSlash(seg(folder));
    assert seg(folder)[63] in seg(folder);
    TrimSlashes(dest + seg(folder));
    forall k | k in r'.objs && key <= k
      ensures Clean(After(key, k))
    {
      UploadsClean(seg, r, dest, folder, ups, names, k);
    }
    out := ExpandFolder(r'.objs, r'.ix, key, folder);
    CleanExpansion(r'.objs, r'.ix, Pending(key, folder), out);
    UploadThenExpand(seg, r, dest, folder, ups, names, out);
  }
}
