/** The display listing of an encrypted directory: real names and sizes, hidden metadata, visible orphans. */
module DirView {
  import opened Prelude
  import opened Paths
  import opened Manifests
  import opened Index

  datatype RawObject = RawObject(key: string, size: nat, modified: Option<int>, isPrefix: bool)

  datatype RemoteEntry = RemoteEntry(key: string, name: string, isDir: bool, size: nat, modified: Option<int>,
                                     encrypted: Option<bool>)

  datatype Kind = Known | Orphan | Foreign

  predicate IsManifestKey(name: string) { name == MANIFEST_KEY || TrimEnd(name) == MANIFEST_KEY }

  function KindOf(leaf: string, m: Manifest): (k: Kind)
  {
    if m.NameFor(leaf).Some? then Known else if IsHash(leaf) then Orphan else Foreign
  }

  /** What one raw object is shown as. */
  function Display(o: RawObject, m: Manifest): (e: RemoteEntry)
  {
    var leaf := LeafOf(o.key);
    match KindOf(leaf, m)
    case Known =>
      var size :=
        if o.isPrefix then (if leaf in m.folders && m.folders[leaf].size.Some? then m.folders[leaf].size.value else 0)
        else if leaf in m.files then m.files[leaf].size else o.size;
      RemoteEntry(o.key, m.NameFor(leaf).value, o.isPrefix, size, o.modified, Some(true))
    case Orphan =>
      RemoteEntry(o.key, "[unrecovered] " + leaf[..16], o.isPrefix, o.size, o.modified, Some(false))
    case Foreign =>
      RemoteEntry(o.key, leaf, o.isPrefix, o.size, o.modified, Some(false))
  }

  function Displayed(raw: seq<RawObject>, m: Manifest): (es: seq<RemoteEntry>)
  {
    if raw == [] then []
    else
      var rest := Displayed(raw[..|raw| - 1], m);
      var o := raw[|raw| - 1];
      if IsManifestKey(LeafOf(o.key)) then rest else rest + [Display(o, m)]
  }

  /** Ours by its name, but unknown to the manifest. */
  predicate IsOrphan(o: RawObject, m: Manifest)
  {
    !IsManifestKey(LeafOf(o.key)) && IsHash(LeafOf(o.key)) && m.NameFor(LeafOf(o.key)).None?
  }

  function OrphansIn(raw: seq<RawObject>, m: Manifest): (found: set<nat>)
  {
    set i | 0 <= i < |raw| && IsOrphan(raw[i], m)
  }

  lemma OneMoreOrphan(raw: seq<RawObject>, m: Manifest, o: RawObject)
    ensures |OrphansIn(raw + [o], m)| == |OrphansIn(raw, m)| + if IsOrphan(o, m) then 1 else 0
  {
    var before, after := OrphansIn(raw, m), OrphansIn(raw + [o], m);
    assert after == if IsOrphan(o, m) then before + {|raw|} else before;
  }

  lemma OneMoreDisplayed(raw: seq<RawObject>, m: Manifest, o: RawObject)
    ensures Displayed(raw + [o], m) == if IsManifestKey(LeafOf(o.key)) then Displayed(raw, m)
                                       else Displayed(raw, m) + [Display(o, m)]
  {
    assert (raw + [o])[..|raw|] == raw;
  }

  // ---------------------------------------------------------------- ordering

  predicate LexLeq(a: string, b: string)
  {
    a == "" || (b != "" && (a[0] < b[0] || (a[0] == b[0] && LexLeq(a[1..], b[1..]))))
  }

  /** Strings compare at the first character in which they differ, and a prefix comes first. */
  lemma {:induction false} LexIs(p: string, x: string, y: string)
    ensures LexLeq(p, p + x) && (LexLeq(p + x, p) <==> x == "")
    ensures x != "" && y != "" && x[0] != y[0] ==> (LexLeq(p + x, p + y) <==> x[0] < y[0])
  {
    if p == "" {
      assert p + x == x && p + y == y;
    } else {
      LexIs(p[1..], x, y);
      assert (p + x)[1..] == p[1..] + x && (p + y)[1..] == p[1..] + y;
    }
  }

  lemma LexTotal(a: string, b: string)
    ensures LexLeq(a, b) || LexLeq(b, a)
  {
  }

  lemma LexTransitive(a: string, b: string, c: string)
    requires LexLeq(a, b) && LexLeq(b, c)
    ensures LexLeq(a, c)
  {
  }

  /** Folders first, then by lower-cased name. */
  predicate Before(lower: string -> string, x: RemoteEntry, y: RemoteEntry)
  {
    (x.isDir && !y.isDir) || (x.isDir == y.isDir && LexLeq(lower(x.name), lower(y.name)))
  }

  predicate Sorted(lower: string -> string, es: seq<RemoteEntry>)
  {
    forall i, j | 0 <= i < j < |es| :: Before(lower, es[i], es[j])
  }

  /** Every folder comes before every file, and within a kind names ascend. */
  ghost predicate FoldersFirst(lower: string -> string, es: seq<RemoteEntry>)
  {
    && (forall i, j | 0 <= i < j < |es| && es[j].isDir :: es[i].isDir)
    && (forall i, j | 0 <= i < j < |es| && es[i].isDir == es[j].isDir ::
          LexLeq(lower(es[i].name), lower(es[j].name)))
  }

  lemma SortedMeans(lower: string -> string, es: seq<RemoteEntry>)
    requires Sorted(lower, es)
    ensures FoldersFirst(lower, es)
  {
    forall i, j | 0 <= i < j < |es|
      ensures es[j].isDir ==> es[i].isDir
      ensures es[i].isDir == es[j].isDir ==> LexLeq(lower(es[i].name), lower(es[j].name))
    {
      assert Before(lower, es[i], es[j]);
    }
  }

  function InsertSorted(lower: string -> string, es: seq<RemoteEntry>, e: RemoteEntry): (r: seq<RemoteEntry>)
    ensures multiset(r) == multiset(es) + multiset{e}
  {
    if es == [] then [e]
    else if Before(lower, es[|es| - 1], e) then es + [e]
    else
      assert es == es[..|es| - 1] + [es[|es| - 1]];
      InsertSorted(lower, es[..|es| - 1], e) + [es[|es| - 1]]
  }

  lemma BeforeTotal(lower: string -> string, x: RemoteEntry, y: RemoteEntry)
    ensures Before(lower, x, y) || Before(lower, y, x)
  {
    LexTotal(lower(x.name), lower(y.name));
  }

  lemma BeforeTransitive(lower: string -> string, x: RemoteEntry, y: RemoteEntry, z: RemoteEntry)
    requires Before(lower, x, y) && Before(lower, y, z)
    ensures Before(lower, x, z)
  {
    if x.isDir == y.isDir == z.isDir { LexTransitive(lower(x.name), lower(y.name), lower(z.name)); }
  }

  lemma {:induction false} InsertKeepsSorted(lower: string -> string, es: seq<RemoteEntry>, e: RemoteEntry)
    requires Sorted(lower, es)
    ensures Sorted(lower, InsertSorted(lower, es, e))
  {
    if es != [] {
      var z, init := es[|es| - 1], es[..|es| - 1];
      if Before(lower, z, e) {
        forall i | 0 <= i < |es| ensures Before(lower, es[i], e) {
          if i < |es| - 1 { BeforeTransitive(lower, es[i], z, e); }
        }
      } else {
        BeforeTotal(lower, z, e);
        InsertKeepsSorted(lower, init, e);
        var r := InsertSorted(lower, init, e);
        forall i | 0 <= i < |r| ensures Before(lower, r[i], z) {
          assert r[i] in multiset(r);
          if r[i] != e { assert r[i] in multiset(init); assert r[i] in init; }
        }
      }
    }
  }

  /** The entries that sort like x, in the order they come in. */
  function Alike(lower: string -> string, es: seq<RemoteEntry>, x: RemoteEntry): (r: seq<RemoteEntry>)
  {
    if es == [] then []
    else
      var r, z := Alike(lower, es[..|es| - 1], x), es[|es| - 1];
      if Before(lower, x, z) && Before(lower, z, x) then r + [z] else r
  }

  lemma AlikeNext(lower: string -> string, es: seq<RemoteEntry>, z: RemoteEntry, x: RemoteEntry)
    ensures Alike(lower, es + [z], x) ==
            Alike(lower, es, x) + if Before(lower, x, z) && Before(lower, z, x) then [z] else []
  {
    assert (es + [z])[..|es|] == es;
  }

  /** Inserting is stable: the new entry comes after those that sort like it. */
  lemma {:induction false} InsertIsStable(lower: string -> string, es: seq<RemoteEntry>, e: RemoteEntry,
                                          x: RemoteEntry)
    ensures Alike(lower, InsertSorted(lower, es, e), x) == Alike(lower, es + [e], x)
  {
    AlikeNext(lower, es, e, x);
    if es == [] {
      assert [] + [e] == [e];
    } else if !Before(lower, es[|es| - 1], e) {
      var init, z := es[..|es| - 1], es[|es| - 1];
      InsertIsStable(lower, init, e, x);
      AlikeNext(lower, init, e, x);
      AlikeNext(lower, InsertSorted(lower, init, e), z, x);
      if Before(lower, x, e) && Before(lower, z, x) { BeforeTransitive(lower, z, x, e); }
    }
  }

  /** Same entries, sorted, and entries that sort alike still in the order of the listing. */
  ghost predicate StablySorted(lower: string -> string, es: seq<RemoteEntry>, from: seq<RemoteEntry>)
  {
    multiset(es) == multiset(from) && Sorted(lower, es) && forall x :: Alike(lower, es, x) == Alike(lower, from, x)
  }

  lemma InsertKeepsStable(lower: string -> string, es: seq<RemoteEntry>, from: seq<RemoteEntry>, e: RemoteEntry)
    requires StablySorted(lower, es, from)
    ensures StablySorted(lower, InsertSorted(lower, es, e), from + [e])
  {
    InsertKeepsSorted(lower, es, e);
    forall x ensures Alike(lower, InsertSorted(lower, es, e), x) == Alike(lower, from + [e], x) {
      InsertIsStable(lower, es, e, x);
      AlikeNext(lower, es, e, x);
      AlikeNext(lower, from, e, x);
    }
  }

  /** The listing: every non-metadata object once, as displayed, stably ordered; orphans counted. */
  method BuildListing(raw: seq<RawObject>, m: Manifest, lower: string -> string)
    returns (entries: seq<RemoteEntry>, orphanCount: nat)
    ensures StablySorted(lower, entries, Displayed(raw, m)) && FoldersFirst(lower, entries)
    ensures orphanCount == |OrphansIn(raw, m)|
  {
    entries, orphanCount := [], 0;
    for i := 0 to |raw|
      invariant StablySorted(lower, entries, Displayed(raw[..i], m))
      invariant orphanCount == |OrphansIn(raw[..i], m)|
    {
      var o := raw[i];
      var leaf := LeafOf(o.key);
      assert raw[..i + 1] == raw[..i] + [o];
      OneMoreOrphan(raw[..i], m, o);
      OneMoreDisplayed(raw[..i], m, o);
      if !IsManifestKey(leaf) {
        if KindOf(leaf, m) == Orphan { orphanCount := orphanCount + 1; }
        InsertKeepsStable(lower, entries, Displayed(raw[..i], m), Display(o, m));
        entries := InsertSorted(lower, entries, Display(o, m));
      }
    }
    assert raw[..|raw|] == raw;
    SortedMeans(lower, entries);
  }

  /** Exactly the non-metadata objects are displayed. */
  lemma {:induction false} DisplayedExactly(raw: seq<RawObject>, m: Manifest, e: RemoteEntry)
    ensures e in Displayed(raw, m) <==> exists o :: o in raw && !IsManifestKey(LeafOf(o.key)) && e == Display(o, m)
  {
    if raw != [] {
      var init, z := raw[..|raw| - 1], raw[|raw| - 1];
      DisplayedExactly(init, m, e);
      assert forall o :: o in raw <==> o in init || o == z;
    }
  }

  /** The manifest object itself never shows, under any directory. */
  lemma ManifestHidden(d: string)
    requires DirKey(d)
    ensures IsManifestKey(LeafOf(d + MANIFEST_KEY))
  {
    ChildKey(d, MANIFEST_KEY);
  }

  /** The leaf of a hash-named child is the hash, and never the manifest's name. */
  lemma HashLeaf(d: string, hash: string, isPrefix: bool)
    requires DirKey(d) && IsHash(hash)
    ensures LeafOf(if isPrefix then d + hash + "/" else d + hash) == hash && !IsManifestKey(hash)
  {
    HashHasNoSlash(hash);
    ChildKey(d, hash);
    assert hash[63] in hash;
    TrimSlashes(hash);
  }

  /**
   * With a coherent manifest the object stored for a recorded name is shown under exactly that name,
   * as an encrypted item, with its recorded plaintext size if it is a file and its cached size if a folder.
   */
  lemma RecordedObjectShown(seg: Naming, m: Manifest, names: set<string>, d: string, name: string, o: RawObject)
    requires Coherent(seg, m) && NamesIn(m, names) && Hashes(seg, names) && DirKey(d) && name in names
    requires o.key == (if o.isPrefix then d + seg(name) + "/" else d + seg(name))
    requires seg(name) in m.files || seg(name) in m.folders
    ensures !IsManifestKey(LeafOf(o.key)) && !IsOrphan(o, m)
    ensures Display(o, m).name == name && Display(o, m).encrypted == Some(true)
    ensures !o.isPrefix && seg(name) in m.files ==> Display(o, m).size == m.files[seg(name)].size
    ensures !o.isPrefix && seg(name) !in m.files ==> Display(o, m).size == o.size
    ensures o.isPrefix && seg(name) !in m.folders ==> Display(o, m).size == 0
    ensures o.isPrefix && seg(name) in m.folders ==>
              Display(o, m).size == if m.folders[seg(name)].size.Some? then m.folders[seg(name)].size.value else 0
    ensures Display(o, m).key == o.key && Display(o, m).isDir == o.isPrefix && Display(o, m).modified == o.modified
  {
    HashLeaf(d, seg(name), o.isPrefix);
    NameForIsTheName(seg, m, seg(name), names);
  }

  /** An unrecorded hash-named object is shown and counted, never hidden. */
  lemma OrphanShown(m: Manifest, d: string, hash: string, o: RawObject)
    requires DirKey(d) && IsHash(hash) && o.key == (if o.isPrefix then d + hash + "/" else d + hash)
    requires m.NameFor(hash).None?
    ensures !IsManifestKey(LeafOf(o.key)) && KindOf(LeafOf(o.key), m) == Orphan && IsOrphan(o, m)
    ensures Display(o, m) ==
            RemoteEntry(o.key, "[unrecovered] " + hash[..16], o.isPrefix, o.size, o.modified, Some(false))
  {
    HashLeaf(d, hash, o.isPrefix);
  }

  /** Anything else is foreign: shown as stored, under its own name, and not counted as lost. */
  lemma ForeignShown(m: Manifest, d: string, leaf: string, o: RawObject)
    requires DirKey(d) && leaf != "" && NoSlash(leaf) && o.key == (if o.isPrefix then d + leaf + "/" else d + leaf)
    requires m.NameFor(leaf).None? && !IsHash(leaf)
    ensures KindOf(LeafOf(o.key), m) == Foreign && !IsOrphan(o, m)
    ensures Display(o, m) == RemoteEntry(o.key, leaf, o.isPrefix, o.size, o.modified, Some(false))
  {
    ChildKey(d, leaf);
    assert LeafOf(o.key) == leaf;
  }
}
