/**
 * Folder expansion of an encrypted session: the stack walk over directory listings and manifests that
 * turns a folder into download targets, against a declarative description of what it must yield.
 */
module Expand {
  import opened Prelude
  import opened Layout
  import opened Paths
  import opened Manifests
  import opened Index
  import opened DirView

  /** Backend objects: key to stored size. */
  type Objects = map<string, nat>

  datatype Target = Target(key: string, rel: string, size: nat)

  datatype Pending = Pending(dir: string, base: string)

  predicate Meta(leaf: string) { IsManifestKey(leaf) || leaf == VAULT_KEY }

  function After(dir: string, key: string): (rest: string)
    requires dir <= key
  {
    key[|dir|..]
  }

  /** No empty segment; a final slash marks an explicit folder object. */
  predicate Clean(rest: string)
    decreases |rest|
  {
    var i := FirstSlash(rest);
    i == |rest| || (i > 0 && Clean(rest[i + 1..]))
  }

  /** A file whose own name and folder names are not metadata. */
  predicate Visible(rest: string)
    decreases |rest|
  {
    var i := FirstSlash(rest);
    if i == |rest| then rest != "" && !Meta(rest) else !Meta(rest[..i]) && Visible(rest[i + 1..])
  }

  function NameOr(m: Manifest, leaf: string): (n: string)
  {
    if m.NameFor(leaf).Some? then m.NameFor(leaf).value else leaf
  }

  function SizeOr(m: Manifest, leaf: string, stored: nat): (n: nat)
  {
    if leaf in m.files then m.files[leaf].size else PlaintextOfCiphertext(stored)
  }

  /** Real relative path of the object at `rest` below a directory: each segment resolved in its own manifest. */
  function RelOf(ix: Index, dir: string, base: string, rest: string): (rel: string)
    decreases |rest|
  {
    var i := FirstSlash(rest);
    if i == |rest| then base + "/" + NameOr(Of(ix, dir), rest)
    else RelOf(ix, dir + rest[..i + 1], base + "/" + NameOr(Of(ix, dir), rest[..i]), rest[i + 1..])
  }

  function SizeOf(ix: Index, dir: string, rest: string, stored: nat): (n: nat)
    decreases |rest|
  {
    var i := FirstSlash(rest);
    if i == |rest| then SizeOr(Of(ix, dir), rest, stored) else SizeOf(ix, dir + rest[..i + 1], rest[i + 1..], stored)
  }

  /** No name yet: the walk finds the empty segments of such a prefix, and only those. */
  predicate OnlySlashes(dir: string) { TrimEnd(dir) == "" }

  /** The walk descends to the object: below a named directory it never enters an empty segment. */
  predicate Walked(dir: string, rest: string)
    decreases |rest|
  {
    var i := FirstSlash(rest);
    i == |rest| || ((i > 0 || OnlySlashes(dir)) && Walked(dir + rest[..i + 1], rest[i + 1..]))
  }

  predicate Shown(objs: Objects, dir: string, k: string) { k in objs && dir <= k && Visible(After(dir, k)) }

  function TargetOf(objs: Objects, ix: Index, p: Pending, k: string): (t: Target)
    requires k in objs && p.dir <= k
  {
    Target(k, RelOf(ix, p.dir, p.base, After(p.dir, k)), SizeOf(ix, p.dir, After(p.dir, k), objs[k]))
  }

  // ---------------------------------------------------------------- one directory listing

  /** How an object shows up in the shallow listing of a directory: as itself, as a common prefix, or not at all. */
  function Entry(dir: string, k: string, size: nat): (e: Option<RawObject>)
  {
    if !(dir <= k) || dir == k then None
    else
      var rest := After(dir, k);
      var i := FirstSlash(rest);
      if i == |rest| then Some(RawObject(k, size, None, false)) else Some(RawObject(dir + rest[..i + 1], 0, None, true))
  }

  ghost predicate Listing(objs: Objects, dir: string, es: seq<RawObject>)
  {
    && (forall k | k in objs && Entry(dir, k, objs[k]).Some? :: Entry(dir, k, objs[k]).value in es)
    && (forall e | e in es :: exists k :: k in objs && Entry(dir, k, objs[k]) == Some(e))
    && (forall i, j | 0 <= i < j < |es| :: es[i].key != es[j].key)
  }

  /** The backend's listing, in whatever order it comes. */
  method ListDir(objs: Objects, dir: string) returns (es: seq<RawObject>)
    ensures Listing(objs, dir, es) && |es| <= |objs.Keys|
  {
    es := [];
    var todo := objs.Keys;
    while todo != {}
      invariant todo <= objs.Keys && |es| + |todo| <= |objs.Keys|
      invariant forall k | k in objs.Keys - todo && Entry(dir, k, objs[k]).Some? :: Entry(dir, k, objs[k]).value in es
      invariant forall e | e in es :: exists k :: k in objs && k !in todo && Entry(dir, k, objs[k]) == Some(e)
      invariant forall i, j | 0 <= i < j < |es| :: es[i].key != es[j].key
      decreases todo
    {
      var k :| k in todo;
      todo := todo - {k};
      var e := Entry(dir, k, objs[k]);
      if e.Some? && e.value !in es {
        forall x | x in es ensures x.key != e.value.key {
          var k' :| k' in objs && k' !in todo && k' != k && Entry(dir, k', objs[k']) == Some(x);
        }
        es := es + [e.value];
      }
    }
  }

  // ---------------------------------------------------------------- how often an object comes out

  /** A key behind a doubled slash: the listing then holds dir + "/", whose leaf is read as dir's own. */
  ghost predicate Echoes(objs: Objects, dir: string) { !OnlySlashes(dir) && exists k :: k in objs && dir + "/" <= k }

  /** How often the walk from dir comes to the object at rest: an echo queues dir's namesake child once more. */
  ghost function Times(objs: Objects, dir: string, rest: string): (n: nat)
    decreases |rest|
  {
    var i := FirstSlash(rest);
    if i == |rest| then (if rest != "" && !Meta(rest) then 1 else 0)
    else if (i == 0 && !OnlySlashes(dir)) || Meta(rest[..i]) then 0
    else
      var below := Times(objs, dir + rest[..i + 1], rest[i + 1..]);
      if i > 0 && rest[..i] == LeafOf(dir) && Echoes(objs, dir) then below + below else below
  }

  /** How often the walk from p yields t. */
  ghost function Yield(objs: Objects, ix: Index, p: Pending, t: Target): (n: nat)
  {
    if t.key in objs && p.dir <= t.key && t == TargetOf(objs, ix, p, t.key)
    then Times(objs, p.dir, After(p.dir, t.key)) else 0
  }

  ghost function YieldAll(objs: Objects, ix: Index, ps: seq<Pending>, t: Target): (n: nat)
  {
    if ps == [] then 0 else YieldAll(objs, ix, ps[..|ps| - 1], t) + Yield(objs, ix, ps[|ps| - 1], t)
  }

  // ---------------------------------------------------------------- what one directory contributes

  predicate IsFileEntry(e: RawObject) { !Meta(LeafOf(e.key)) && !e.isPrefix }

  predicate IsDirEntry(e: RawObject) { !Meta(LeafOf(e.key)) && e.isPrefix }

  function FileTarget(m: Manifest, base: string, e: RawObject): (t: Target)
  {
    Target(e.key, base + "/" + NameOr(m, LeafOf(e.key)), SizeOr(m, LeafOf(e.key), e.size))
  }

  function Child(m: Manifest, p: Pending, e: RawObject): (c: Pending)
  {
    Pending(p.dir + LeafOf(e.key) + "/", p.base + "/" + NameOr(m, LeafOf(e.key)))
  }

  function FilesOf(m: Manifest, p: Pending, es: seq<RawObject>): (ts: seq<Target>)
  {
    if es == [] then []
    else
      var ts := FilesOf(m, p, es[..|es| - 1]);
      if IsFileEntry(es[|es| - 1]) then ts + [FileTarget(m, p.base, es[|es| - 1])] else ts
  }

  function DirsOf(m: Manifest, p: Pending, es: seq<RawObject>): (ps: seq<Pending>)
  {
    if es == [] then []
    else
      var ps := DirsOf(m, p, es[..|es| - 1]);
      if IsDirEntry(es[|es| - 1]) then ps + [Child(m, p, es[|es| - 1])] else ps
  }

  /** What one listed entry contributes to t. */
  ghost function Part(objs: Objects, ix: Index, p: Pending, e: RawObject, t: Target): (n: nat)
  {
    var m := Of(ix, p.dir);
    if IsDirEntry(e) then Yield(objs, ix, Child(m, p, e), t)
    else if IsFileEntry(e) && FileTarget(m, p.base, e) == t then 1 else 0
  }

  ghost function Parts(objs: Objects, ix: Index, p: Pending, es: seq<RawObject>, t: Target): (n: nat)
  {
    if es == [] then 0 else Parts(objs, ix, p, es[..|es| - 1], t) + Part(objs, ix, p, es[|es| - 1], t)
  }

  lemma PushCount(ts: seq<Target>, x: Target, t: Target)
    ensures multiset(ts + [x])[t] == multiset(ts)[t] + if x == t then 1 else 0
  {
  }

  lemma PushYield(objs: Objects, ix: Index, ps: seq<Pending>, p: Pending, t: Target)
    ensures YieldAll(objs, ix, ps + [p], t) == YieldAll(objs, ix, ps, t) + Yield(objs, ix, p, t)
  {
    assert (ps + [p])[..|ps|] == ps;
  }

  /** The entries of a listing contribute what its files and folders contribute. */
  lemma {:induction false} PartsAddUp(objs: Objects, ix: Index, p: Pending, es: seq<RawObject>, t: Target)
    ensures var m := Of(ix, p.dir);
            Parts(objs, ix, p, es, t) == multiset(FilesOf(m, p, es))[t] + YieldAll(objs, ix, DirsOf(m, p, es), t)
  {
    if es != [] {
      var m, init, z := Of(ix, p.dir), es[..|es| - 1], es[|es| - 1];
      PartsAddUp(objs, ix, p, init, t);
      PushCount(FilesOf(m, p, init), FileTarget(m, p.base, z), t);
      PushYield(objs, ix, DirsOf(m, p, init), Child(m, p, z), t);
    }
  }

  /** If only a and b can contribute, the whole is what they contribute where they are listed. */
  lemma {:induction false} TwoParts(objs: Objects, ix: Index, p: Pending, es: seq<RawObject>, t: Target, a: RawObject,
                                    b: RawObject)
    requires forall i, j | 0 <= i < j < |es| :: es[i] != es[j]
    requires a != b && forall e | e in es && e != a && e != b :: Part(objs, ix, p, e, t) == 0
    ensures Parts(objs, ix, p, es, t) ==
            (if a in es then Part(objs, ix, p, a, t) else 0) + (if b in es then Part(objs, ix, p, b, t) else 0)
  {
    if es != [] {
      var init, z := es[..|es| - 1], es[|es| - 1];
      assert es == init + [z];
      assert forall i | 0 <= i < |init| :: init[i] == es[i] != z;
      TwoParts(objs, ix, p, init, t, a, b);
    }
  }

  // ---------------------------------------------------------------- which entries can contribute

  /** The entry that stands for an object in the listing of dir. */
  function Own(dir: string, k: string, size: nat): (e: RawObject)
    requires dir <= k
  {
    var rest := After(dir, k);
    var i := FirstSlash(rest);
    if i == |rest| then RawObject(k, size, None, false) else RawObject(dir + rest[..i + 1], 0, None, true)
  }

  function Echo(dir: string): (e: RawObject) { RawObject(dir + "/", 0, None, true) }

  lemma OwnFile(dir: string, k: string)
    requires DirKey(dir) && dir <= k && dir != k && FirstSlash(After(dir, k)) == |After(dir, k)|
    ensures LeafOf(k) == After(dir, k)
  {
    assert k == dir + After(dir, k);
    ChildKey(dir, After(dir, k));
  }

  lemma OwnFolder(dir: string, k: string)
    requires DirKey(dir) && dir <= k
    requires 0 < FirstSlash(After(dir, k)) < |After(dir, k)|
    ensures var leaf := After(dir, k)[..FirstSlash(After(dir, k))];
            Own(dir, k, 0).key == dir + leaf + "/" && LeafOf(Own(dir, k, 0).key) == leaf
  {
    var rest := After(dir, k);
    var i := FirstSlash(rest);
    assert rest[..i + 1] == rest[..i] + "/";
    assert dir + (rest[..i] + "/") == dir + rest[..i] + "/";
    ChildKey(dir, rest[..i]);
  }

  /** The leaf of the entry behind a doubled slash is the directory's own leaf. */
  lemma EchoLeaf(dir: string)
    ensures LeafOf(dir + "/") == LeafOf(dir)
    ensures OnlySlashes(dir) ==> LeafOf(dir) == ""
    ensures !OnlySlashes(dir) ==> LeafOf(dir) != ""
    ensures NoSlash(LeafOf(dir))
  {
    assert (dir + "/")[..|dir|] == dir;
  }

  lemma ThroughFolder(dir: string, leaf: string, k: string)
    requires NoSlash(leaf) && dir + leaf + "/" <= k
    ensures dir <= k && FirstSlash(After(dir, k)) == |leaf| < |After(dir, k)|
    ensures After(dir, k)[..|leaf|] == leaf && dir + After(dir, k)[..|leaf| + 1] == dir + leaf + "/"
  {
    var c := dir + leaf + "/";
    assert k == c + k[|c|..];
    assert dir == c[..|dir|] == k[..|dir|];
    var rest := After(dir, k);
    assert rest == leaf + "/" + k[|c|..];
    FirstSlashAt(leaf, k[|c|..]);
    assert rest[..|leaf| + 1] == leaf + "/";
    assert dir + (leaf + "/") == c;
  }

  /** A folder entry contributes only to objects below the child it queues. */
  lemma OnlyBelow(objs: Objects, ix: Index, p: Pending, e: RawObject, t: Target)
    requires e.isPrefix && Part(objs, ix, p, e, t) > 0
    ensures t.key in objs && p.dir + LeafOf(e.key) + "/" <= t.key
  {
  }

  /** A real folder's entry contributes only to the objects it is the own entry of. */
  lemma FolderIdle(objs: Objects, ix: Index, p: Pending, k: string, t: Target)
    requires DirKey(p.dir) && p.dir <= k && 0 < FirstSlash(After(p.dir, k)) < |After(p.dir, k)|
    requires Part(objs, ix, p, Own(p.dir, k, 0), t) > 0
    ensures t.key in objs && p.dir <= t.key && p.dir != t.key && Own(p.dir, k, 0) == Own(p.dir, t.key, objs[t.key])
  {
    var e := Own(p.dir, k, 0);
    OwnFolder(p.dir, k);
    OnlyBelow(objs, ix, p, e, t);
    ThroughFolder(p.dir, LeafOf(e.key), t.key);
  }

  lemma EchoIdle(objs: Objects, ix: Index, p: Pending, t: Target)
    requires Part(objs, ix, p, Echo(p.dir), t) > 0
    ensures t.key in objs && p.dir <= t.key && p.dir != t.key
  {
    EchoLeaf(p.dir + "/");
    OnlyBelow(objs, ix, p, Echo(p.dir), t);
    ThroughFolder(p.dir, LeafOf(Echo(p.dir).key), t.key);
  }

  /** Every listed entry is some object's own; only the target object's own one and the echo contribute. */
  lemma OthersIdle(objs: Objects, ix: Index, p: Pending, es: seq<RawObject>, e: RawObject, t: Target)
    requires DirKey(p.dir) && Listing(objs, p.dir, es) && e in es && Part(objs, ix, p, e, t) > 0
    ensures t.key in objs && p.dir <= t.key && p.dir != t.key
    ensures e == Echo(p.dir) || e == Own(p.dir, t.key, objs[t.key])
  {
    var k :| k in objs && Entry(p.dir, k, objs[k]) == Some(e);
    EntryIs(p.dir, k, objs[k]);
    var rest := After(p.dir, k);
    if e == Echo(p.dir) {
      EchoIdle(objs, ix, p, t);
    } else if FirstSlash(rest) < |rest| {
      FolderIdle(objs, ix, p, k, t);
    }
  }

  lemma EntryIs(dir: string, k: string, size: nat)
    requires Entry(dir, k, size).Some?
    ensures dir <= k && dir != k && Entry(dir, k, size) == Some(Own(dir, k, size))
    ensures FirstSlash(After(dir, k)) == |After(dir, k)| ==> Own(dir, k, size) == RawObject(k, size, None, false)
    ensures FirstSlash(After(dir, k)) < |After(dir, k)| ==> Own(dir, k, size) == Own(dir, k, 0)
    ensures 0 == FirstSlash(After(dir, k)) < |After(dir, k)| ==> Own(dir, k, size) == Echo(dir)
  {
    if FirstSlash(After(dir, k)) < |After(dir, k)| { SegmentSlash(After(dir, k)); }
  }

  /** The namesake child the echo queues is the one the real folder queues. */
  lemma EchoChild(m: Manifest, p: Pending)
    ensures Child(m, p, Echo(p.dir)) == Pending(p.dir + LeafOf(p.dir) + "/", p.base + "/" + NameOr(m, LeafOf(p.dir)))
  {
    EchoLeaf(p.dir);
  }

  lemma SplitKey(d: string, k: string, n: nat)
    requires d <= k && n <= |After(d, k)|
    ensures d + After(d, k)[..n] <= k && After(d + After(d, k)[..n], k) == After(d, k)[n..]
  {
    var c := d + After(d, k)[..n];
    assert c == k[..|d| + n];
  }

  /** Below the child queued for its folder an object is resolved to the same target. */
  lemma Descend(objs: Objects, ix: Index, p: Pending, k: string, c: Pending)
    requires k in objs && p.dir <= k && FirstSlash(After(p.dir, k)) < |After(p.dir, k)|
    requires var rest := After(p.dir, k);
             var i := FirstSlash(rest);
             c == Pending(p.dir + rest[..i + 1], p.base + "/" + NameOr(Of(ix, p.dir), rest[..i]))
    ensures c.dir <= k && TargetOf(objs, ix, c, k) == TargetOf(objs, ix, p, k)
    ensures After(c.dir, k) == After(p.dir, k)[FirstSlash(After(p.dir, k)) + 1..]
  {
    SplitKey(p.dir, k, FirstSlash(After(p.dir, k)) + 1);
  }

  lemma {:induction false} NoParts(objs: Objects, ix: Index, p: Pending, es: seq<RawObject>, t: Target)
    requires forall e | e in es :: Part(objs, ix, p, e, t) == 0
    ensures Parts(objs, ix, p, es, t) == 0
  {
    if es != [] { NoParts(objs, ix, p, es[..|es| - 1], t); }
  }

  /** What the own entry and the echo contribute together. */
  lemma Contributions(objs: Objects, ix: Index, p: Pending, es: seq<RawObject>, t: Target)
    requires DirKey(p.dir) && Listing(objs, p.dir, es) && t.key in objs && p.dir <= t.key && p.dir != t.key
    ensures var own, echo := Own(p.dir, t.key, objs[t.key]), Echo(p.dir);
            Parts(objs, ix, p, es, t) ==
            Part(objs, ix, p, own, t) + if echo in es && echo != own then Part(objs, ix, p, echo, t) else 0
  {
    var own, echo := Own(p.dir, t.key, objs[t.key]), Echo(p.dir);
    assert Entry(p.dir, t.key, objs[t.key]) == Some(own) && own in es;
    var other := if echo != own then echo else own.(size := own.size + 1);
    if echo == own {
      assert forall e | e in es && e.key == own.key :: e == own;
      assert other !in es;
    }
    forall e | e in es && e != own && e != other ensures Part(objs, ix, p, e, t) == 0 {
      if Part(objs, ix, p, e, t) > 0 { OthersIdle(objs, ix, p, es, e, t); }
    }
    TwoParts(objs, ix, p, es, t, own, other);
  }

  /** A file's own entry yields it once; nothing else does. */
  lemma FileYields(objs: Objects, ix: Index, p: Pending, t: Target)
    requires DirKey(p.dir) && t.key in objs && p.dir <= t.key && p.dir != t.key
    requires FirstSlash(After(p.dir, t.key)) == |After(p.dir, t.key)|
    ensures Part(objs, ix, p, Own(p.dir, t.key, objs[t.key]), t) == Yield(objs, ix, p, t)
    ensures Part(objs, ix, p, Echo(p.dir), t) == 0
  {
    OwnFile(p.dir, t.key);
    var rest := After(p.dir, t.key);
    assert rest[..|rest|] == rest;
    EchoLeaf(p.dir + "/");
    if Part(objs, ix, p, Echo(p.dir), t) > 0 {
      OnlyBelow(objs, ix, p, Echo(p.dir), t);
      ThroughFolder(p.dir, LeafOf(Echo(p.dir).key), t.key);
    }
  }

  /** The directory queued for the folder an object lies in. */
  function Inner(ix: Index, p: Pending, k: string): (c: Pending)
    requires p.dir <= k && FirstSlash(After(p.dir, k)) < |After(p.dir, k)|
  {
    var rest := After(p.dir, k);
    var i := FirstSlash(rest);
    Pending(p.dir + rest[..i + 1], p.base + "/" + NameOr(Of(ix, p.dir), rest[..i]))
  }

  lemma InnerYields(objs: Objects, ix: Index, p: Pending, t: Target)
    requires t.key in objs && p.dir <= t.key
    requires 0 < FirstSlash(After(p.dir, t.key)) < |After(p.dir, t.key)|
    ensures var leaf := After(p.dir, t.key)[..FirstSlash(After(p.dir, t.key))];
            var below := if Meta(leaf) then 0 else Yield(objs, ix, Inner(ix, p, t.key), t);
            Yield(objs, ix, p, t) == if leaf == LeafOf(p.dir) && Echoes(objs, p.dir) then below + below else below
  {
    Descend(objs, ix, p, t.key, Inner(ix, p, t.key));
  }

  lemma FolderPart(objs: Objects, ix: Index, p: Pending, t: Target)
    requires DirKey(p.dir) && t.key in objs && p.dir <= t.key
    requires 0 < FirstSlash(After(p.dir, t.key)) < |After(p.dir, t.key)|
    ensures var leaf := After(p.dir, t.key)[..FirstSlash(After(p.dir, t.key))];
            var own := Own(p.dir, t.key, objs[t.key]);
            && Part(objs, ix, p, own, t) == (if Meta(leaf) then 0 else Yield(objs, ix, Inner(ix, p, t.key), t))
            && own != Echo(p.dir)
  {
    OwnFolder(p.dir, t.key);
  }

  lemma EchoIsInner(ix: Index, p: Pending, k: string)
    requires p.dir <= k && FirstSlash(After(p.dir, k)) < |After(p.dir, k)|
    requires After(p.dir, k)[..FirstSlash(After(p.dir, k))] == LeafOf(p.dir)
    ensures Child(Of(ix, p.dir), p, Echo(p.dir)) == Inner(ix, p, k)
  {
    EchoChild(Of(ix, p.dir), p);
    SegmentSlash(After(p.dir, k));
    Regroup(p.dir, LeafOf(p.dir));
  }

  lemma {:induction false} SegmentSlash(rest: string)
    requires FirstSlash(rest) < |rest|
    ensures rest[..FirstSlash(rest) + 1] == rest[..FirstSlash(rest)] + "/"
  {
    var i := FirstSlash(rest);
    assert rest[..i + 1] == rest[..i] + [rest[i]];
  }

  lemma Regroup(a: string, b: string)
    ensures a + (b + "/") == a + b + "/"
  {
  }

  lemma OtherEchoIdle(objs: Objects, ix: Index, p: Pending, t: Target)
    requires t.key in objs && p.dir <= t.key && FirstSlash(After(p.dir, t.key)) < |After(p.dir, t.key)|
    requires After(p.dir, t.key)[..FirstSlash(After(p.dir, t.key))] != LeafOf(p.dir)
    ensures Part(objs, ix, p, Echo(p.dir), t) == 0
  {
    EchoLeaf(p.dir);
    if Part(objs, ix, p, Echo(p.dir), t) > 0 {
      OnlyBelow(objs, ix, p, Echo(p.dir), t);
      ThroughFolder(p.dir, LeafOf(p.dir), t.key);
    }
  }

  lemma EchoPart(objs: Objects, ix: Index, p: Pending, t: Target)
    requires t.key in objs && p.dir <= t.key
    requires 0 < FirstSlash(After(p.dir, t.key)) < |After(p.dir, t.key)|
    ensures var leaf := After(p.dir, t.key)[..FirstSlash(After(p.dir, t.key))];
            Part(objs, ix, p, Echo(p.dir), t) ==
            if leaf == LeafOf(p.dir) && !Meta(leaf) then Yield(objs, ix, Inner(ix, p, t.key), t) else 0
  {
    EchoLeaf(p.dir);
    if After(p.dir, t.key)[..FirstSlash(After(p.dir, t.key))] == LeafOf(p.dir) {
      EchoIsInner(ix, p, t.key);
    } else {
      OtherEchoIdle(objs, ix, p, t);
    }
  }

  /** An object in a folder: the folder's entry yields what its child yields, and so does the echo of a namesake. */
  lemma FolderYields(objs: Objects, ix: Index, p: Pending, t: Target)
    requires DirKey(p.dir) && t.key in objs && p.dir <= t.key
    requires 0 < FirstSlash(After(p.dir, t.key)) < |After(p.dir, t.key)|
    ensures var own := Own(p.dir, t.key, objs[t.key]);
            && own != Echo(p.dir)
            && Yield(objs, ix, p, t) ==
               Part(objs, ix, p, own, t) + (if Echoes(objs, p.dir) then Part(objs, ix, p, Echo(p.dir), t) else 0)
            && (OnlySlashes(p.dir) ==> Part(objs, ix, p, Echo(p.dir), t) == 0)
  {
    InnerYields(objs, ix, p, t);
    FolderPart(objs, ix, p, t);
    EchoPart(objs, ix, p, t);
    EchoLeaf(p.dir);
  }

  lemma NamelessYields(objs: Objects, ix: Index, p: Pending, t: Target)
    requires t.key in objs && p.dir <= t.key && OnlySlashes(p.dir)
    requires 0 == FirstSlash(After(p.dir, t.key)) < |After(p.dir, t.key)|
    ensures Part(objs, ix, p, Echo(p.dir), t) == Yield(objs, ix, p, t)
  {
    EchoIsInner(ix, p, t.key);
    EchoLeaf(p.dir);
    NamelessInner(objs, ix, p, t);
  }

  lemma NamelessInner(objs: Objects, ix: Index, p: Pending, t: Target)
    requires t.key in objs && p.dir <= t.key && OnlySlashes(p.dir)
    requires 0 == FirstSlash(After(p.dir, t.key)) < |After(p.dir, t.key)|
    ensures Yield(objs, ix, p, t) == Yield(objs, ix, Inner(ix, p, t.key), t)
  {
    Descend(objs, ix, p, t.key, Inner(ix, p, t.key));
  }

  /** An object behind a doubled slash: reached only where the directory has no name to be mistaken for. */
  lemma DoubledYields(objs: Objects, ix: Index, p: Pending, t: Target)
    requires t.key in objs && p.dir <= t.key
    requires 0 == FirstSlash(After(p.dir, t.key)) < |After(p.dir, t.key)|
    ensures Own(p.dir, t.key, objs[t.key]) == Echo(p.dir)
    ensures Part(objs, ix, p, Echo(p.dir), t) == Yield(objs, ix, p, t)
  {
    assert After(p.dir, t.key)[..1] == "/";
    EchoLeaf(p.dir);
    if OnlySlashes(p.dir) { NamelessYields(objs, ix, p, t); } else { OtherEchoIdle(objs, ix, p, t); }
  }

  lemma EchoOf(dir: string, k: string, size: nat)
    ensures dir + "/" <= k <==> Entry(dir, k, size) == Some(Echo(dir))
  {
    if dir + "/" <= k {
      assert dir + "" + "/" == dir + "/";
      ThroughFolder(dir, "", k);
    }
    if Entry(dir, k, size) == Some(Echo(dir)) { SplitKey(dir, k, FirstSlash(After(dir, k)) + 1); }
  }

  lemma EchoListed(objs: Objects, dir: string, es: seq<RawObject>)
    requires Listing(objs, dir, es)
    ensures Echo(dir) in es <==> exists k :: k in objs && dir + "/" <= k
  {
    forall k | k in objs ensures dir + "/" <= k <==> Entry(dir, k, objs[k]) == Some(Echo(dir)) {
      EchoOf(dir, k, objs[k]);
    }
  }

  lemma InsideYields(objs: Objects, ix: Index, p: Pending, es: seq<RawObject>, t: Target)
    requires DirKey(p.dir) && Listing(objs, p.dir, es) && t.key in objs && p.dir <= t.key && p.dir != t.key
    ensures Parts(objs, ix, p, es, t) == Yield(objs, ix, p, t)
  {
    Contributions(objs, ix, p, es, t);
    var rest := After(p.dir, t.key);
    if FirstSlash(rest) == |rest| {
      FileYields(objs, ix, p, t);
    } else if FirstSlash(rest) > 0 {
      EchoListed(objs, p.dir, es);
      FolderYields(objs, ix, p, t);
    } else {
      DoubledYields(objs, ix, p, t);
    }
  }

  /** The law behind the walk: a directory yields exactly what the entries of its listing yield together. */
  lemma DirectoryYields(objs: Objects, ix: Index, p: Pending, es: seq<RawObject>, t: Target)
    requires DirKey(p.dir) && Listing(objs, p.dir, es)
    ensures Parts(objs, ix, p, es, t) == Yield(objs, ix, p, t)
  {
    if t.key in objs && p.dir <= t.key && p.dir != t.key {
      InsideYields(objs, ix, p, es, t);
    } else {
      forall e | e in es ensures Part(objs, ix, p, e, t) == 0 {
        if Part(objs, ix, p, e, t) > 0 { OthersIdle(objs, ix, p, es, e, t); }
      }
      NoParts(objs, ix, p, es, t);
      if t.key in objs && p.dir <= t.key { assert After(p.dir, t.key) == ""; }
    }
  }

  // ---------------------------------------------------------------- the walk

  lemma OneMoreEntry(m: Manifest, p: Pending, es: seq<RawObject>, i: nat)
    requires i < |es|
    ensures DirsOf(m, p, es[..i + 1]) ==
            DirsOf(m, p, es[..i]) + (if IsDirEntry(es[i]) then [Child(m, p, es[i])] else [])
    ensures FilesOf(m, p, es[..i + 1]) ==
            FilesOf(m, p, es[..i]) + (if IsFileEntry(es[i]) then [FileTarget(m, p.base, es[i])] else [])
  {
    assert es[..i + 1][..i] == es[..i];
  }

  /** What the walk does with one listed entry. */
  method VisitEntry(m: Manifest, p: Pending, o: RawObject, stack: seq<Pending>, out: seq<Target>)
    returns (stack': seq<Pending>, out': seq<Target>)
    ensures stack' == stack + (if IsDirEntry(o) then [Child(m, p, o)] else [])
    ensures out' == out + (if IsFileEntry(o) then [FileTarget(m, p.base, o)] else [])
  {
    stack', out' := stack, out;
    var leaf := LeafOf(o.key);
    if Meta(leaf) { return; }
    if o.isPrefix {
      stack' := stack + [Pending(p.dir + leaf + "/", p.base + "/" + NameOr(m, leaf))];
    } else {
      out' := out + [Target(o.key, p.base + "/" + NameOr(m, leaf), SizeOr(m, leaf, o.size))];
    }
  }

  lemma Reassociate<T>(a: seq<T>, b: seq<T>, c: seq<T>)
    ensures a + b + c == a + (b + c)
  {
  }

  /** Process the entries of one directory. */
  method Visit(m: Manifest, p: Pending, es: seq<RawObject>, stack: seq<Pending>, out: seq<Target>)
    returns (stack': seq<Pending>, out': seq<Target>)
    ensures stack' == stack + DirsOf(m, p, es) && out' == out + FilesOf(m, p, es)
  {
    stack', out' := stack, out;
    for i := 0 to |es|
      invariant stack' == stack + DirsOf(m, p, es[..i]) && out' == out + FilesOf(m, p, es[..i])
    {
      OneMoreEntry(m, p, es, i);
      Reassociate(stack, DirsOf(m, p, es[..i]), if IsDirEntry(es[i]) then [Child(m, p, es[i])] else []);
      Reassociate(out, FilesOf(m, p, es[..i]), if IsFileEntry(es[i]) then [FileTarget(m, p.base, es[i])] else []);
      stack', out' := VisitEntry(m, p, es[i], stack', out');
    }
    assert es[..|es|] == es;
  }

  lemma {:induction false} YieldJoin(objs: Objects, ix: Index, ps: seq<Pending>, qs: seq<Pending>, t: Target)
    ensures YieldAll(objs, ix, ps + qs, t) == YieldAll(objs, ix, ps, t) + YieldAll(objs, ix, qs, t)
  {
    if qs == [] {
      assert ps + qs == ps;
    } else {
      var init, z := qs[..|qs| - 1], qs[|qs| - 1];
      assert ps + qs == ps + init + [z];
      PushYield(objs, ix, ps + init, z, t);
      YieldJoin(objs, ix, ps, init, t);
    }
  }

  /** Nothing is lost or gained: what is out plus what the stack still yields is what the root yields. */
  ghost predicate Conserved(objs: Objects, ix: Index, root: Pending, stack: seq<Pending>, out: seq<Target>)
  {
    forall t :: multiset(out)[t] + YieldAll(objs, ix, stack, t) == Yield(objs, ix, root, t)
  }

  /** Processing one directory conserves the yield of every target. */
  lemma Advance(objs: Objects, ix: Index, root: Pending, stack: seq<Pending>, p: Pending, out: seq<Target>,
                es: seq<RawObject>)
    requires DirKey(p.dir) && Listing(objs, p.dir, es) && Conserved(objs, ix, root, stack + [p], out)
    ensures Conserved(objs, ix, root, stack + DirsOf(Of(ix, p.dir), p, es), out + FilesOf(Of(ix, p.dir), p, es))
  {
    var dirs, files := DirsOf(Of(ix, p.dir), p, es), FilesOf(Of(ix, p.dir), p, es);
    forall t
      ensures multiset(out + files)[t] + YieldAll(objs, ix, stack + dirs, t) == Yield(objs, ix, root, t)
    {
      DirectoryYields(objs, ix, p, es, t);
      PartsAddUp(objs, ix, p, es, t);
      PushYield(objs, ix, stack, p, t);
      YieldJoin(objs, ix, stack, dirs, t);
    }
  }

  // ---------------------------------------------------------------- termination

  ghost function Longest(objs: Objects): (n: nat)
    ensures forall k | k in objs :: |k| <= n
  {
    if objs.Keys == {} then 0
    else
      var k :| k in objs;
      Max(|k|, Longest(objs - {k}))
  }

  /** A directory with n more characters to go weighs more than all the children its listing can queue. */
  ghost function Weight(b: nat, n: nat): (w: nat)
    ensures w >= 1
  {
    if n == 0 then 1 else b * Weight(b, n - 1) + 1
  }

  ghost function ToGo(objs: Objects, p: Pending): (n: nat) { Max(Longest(objs) - |p.dir|, 0) }

  ghost function StackWeight(objs: Objects, ps: seq<Pending>): (w: nat)
  {
    if ps == [] then 0
    else StackWeight(objs, ps[..|ps| - 1]) + Weight(|objs.Keys|, ToGo(objs, ps[|ps| - 1]))
  }

  lemma {:induction false} WeightGrows(b: nat, n: nat, m: nat)
    requires n <= m && b >= 1
    ensures Weight(b, n) <= Weight(b, m)
  {
    if n < m {
      WeightGrows(b, n, m - 1);
      assert b * Weight(b, m - 1) >= Weight(b, m - 1);
    }
  }

  lemma {:induction false} WeightJoin(objs: Objects, ps: seq<Pending>, qs: seq<Pending>)
    ensures StackWeight(objs, ps + qs) == StackWeight(objs, ps) + StackWeight(objs, qs)
  {
    if qs == [] {
      assert ps + qs == ps;
    } else {
      assert (ps + qs)[..|ps + qs| - 1] == ps + qs[..|qs| - 1];
      WeightJoin(objs, ps, qs[..|qs| - 1]);
    }
  }

  lemma WeightPush(objs: Objects, ps: seq<Pending>, c: Pending)
    ensures StackWeight(objs, ps + [c]) == StackWeight(objs, ps) + Weight(|objs.Keys|, ToGo(objs, c))
  {
    assert (ps + [c])[..|ps|] == ps;
  }

  lemma ChildWeighs(objs: Objects, m: Manifest, p: Pending, e: RawObject)
    requires ToGo(objs, p) > 0 && |objs.Keys| >= 1
    ensures Weight(|objs.Keys|, ToGo(objs, Child(m, p, e))) <= Weight(|objs.Keys|, ToGo(objs, p) - 1)
  {
    WeightGrows(|objs.Keys|, ToGo(objs, Child(m, p, e)), ToGo(objs, p) - 1);
  }

  lemma {:induction false} ChildrenWeigh(objs: Objects, m: Manifest, p: Pending, es: seq<RawObject>)
    requires ToGo(objs, p) > 0 && |objs.Keys| >= 1
    ensures StackWeight(objs, DirsOf(m, p, es)) <= |es| * Weight(|objs.Keys|, ToGo(objs, p) - 1)
  {
    if es != [] {
      var init, z := es[..|es| - 1], es[|es| - 1];
      ChildrenWeigh(objs, m, p, init);
      WeightPush(objs, DirsOf(m, p, init), Child(m, p, z));
      ChildWeighs(objs, m, p, z);
      OneMoreWeight(|init|, Weight(|objs.Keys|, ToGo(objs, p) - 1));
    }
  }

  lemma OneMoreWeight(n: nat, w: nat)
    ensures (n + 1) * w == n * w + w
  {
  }

  lemma MulGrows(a: nat, b: nat, w: nat)
    requires a <= b
    ensures a * w <= b * w
  {
  }

  lemma ListedIsLonger(objs: Objects, p: Pending, es: seq<RawObject>)
    requires Listing(objs, p.dir, es) && es != []
    ensures |objs.Keys| >= 1 && ToGo(objs, p) > 0
  {
    assert es[0] in es;
    var k :| k in objs && Entry(p.dir, k, objs[k]) == Some(es[0]);
    assert |k| > |p.dir|;
  }

  /** A directory weighs more than the children its listing queues, so the stack gets lighter. */
  lemma VisitLightens(objs: Objects, m: Manifest, p: Pending, es: seq<RawObject>)
    requires Listing(objs, p.dir, es) && |es| <= |objs.Keys|
    ensures StackWeight(objs, DirsOf(m, p, es)) < Weight(|objs.Keys|, ToGo(objs, p))
  {
    if es != [] {
      ListedIsLonger(objs, p, es);
      ChildrenWeigh(objs, m, p, es);
      MulGrows(|es|, |objs.Keys|, Weight(|objs.Keys|, ToGo(objs, p) - 1));
    }
  }

  /** One turn of the walk: list the popped directory, output its files, queue its folders. */
  method Turn(objs: Objects, ix: Index, ghost root: Pending, stack: seq<Pending>, out: seq<Target>)
    returns (stack': seq<Pending>, out': seq<Target>)
    requires stack != [] && Conserved(objs, ix, root, stack, out) && forall p | p in stack :: DirKey(p.dir)
    ensures Conserved(objs, ix, root, stack', out') && forall p | p in stack' :: DirKey(p.dir)
    ensures StackWeight(objs, stack') < StackWeight(objs, stack)
  {
    var p := stack[|stack| - 1];
    var rest := stack[..|stack| - 1];
    assert stack == rest + [p];
    var es := ListDir(objs, p.dir);
    Advance(objs, ix, root, rest, p, out, es);
    VisitLightens(objs, Of(ix, p.dir), p, es);
    WeightJoin(objs, rest, DirsOf(Of(ix, p.dir), p, es));
    DirsAreKeys(Of(ix, p.dir), p, es);
    stack', out' := Visit(Of(ix, p.dir), p, es, rest, out);
  }

  /**
   * The stack walk. It terminates on every backend and yields every target exactly as often as stated,
   * whatever order listings come in.
   */
  method ExpandFolder(objs: Objects, ix: Index, itemKey: string, itemName: string) returns (out: seq<Target>)
    ensures Yields(objs, ix, Pending(TrimEnd(itemKey) + "/", itemName), out)
  {
    var root := Pending(TrimEnd(itemKey) + "/", itemName);
    var stack := [root];
    out := [];
    StartConserved(objs, ix, root);
    while stack != []
      invariant Conserved(objs, ix, root, stack, out)
      invariant forall p | p in stack :: DirKey(p.dir)
      decreases StackWeight(objs, stack)
    {
      stack, out := Turn(objs, ix, root, stack, out);
    }
    NothingQueued(objs, ix, root, out);
  }

  lemma NothingQueued(objs: Objects, ix: Index, root: Pending, out: seq<Target>)
    requires Conserved(objs, ix, root, [], out)
    ensures Yields(objs, ix, root, out)
  {
    forall t ensures multiset(out)[t] == Yield(objs, ix, root, t) { assert YieldAll(objs, ix, [], t) == 0; }
  }

  lemma {:induction false} DirsAreKeys(m: Manifest, p: Pending, es: seq<RawObject>)
    ensures forall c | c in DirsOf(m, p, es) :: DirKey(c.dir)
  {
    if es != [] { DirsAreKeys(m, p, es[..|es| - 1]); }
  }

  lemma StartConserved(objs: Objects, ix: Index, root: Pending)
    ensures Conserved(objs, ix, root, [root], [])
  {
    forall t ensures YieldAll(objs, ix, [root], t) == Yield(objs, ix, root, t) {
      PushYield(objs, ix, [], root, t);
      assert [] + [root] == [root];
    }
  }

  /** The whole result of an expansion: every target exactly as often as the walk comes to it. */
  ghost predicate Yields(objs: Objects, ix: Index, root: Pending, out: seq<Target>)
  {
    forall t :: multiset(out)[t] == Yield(objs, ix, root, t)
  }

  // ---------------------------------------------------------------- what comes out, and how often

  lemma WalkedStep(dir: string, rest: string)
    requires FirstSlash(rest) < |rest|
    ensures var i := FirstSlash(rest);
            && (Visible(rest) <==> !Meta(rest[..i]) && Visible(rest[i + 1..]))
            && (Walked(dir, rest) <==> (i > 0 || OnlySlashes(dir)) && Walked(dir + rest[..i + 1], rest[i + 1..]))
  {
  }

  lemma TimesStep(objs: Objects, dir: string, rest: string)
    requires FirstSlash(rest) < |rest|
    ensures var i := FirstSlash(rest);
            Times(objs, dir, rest) > 0 <==>
            (i > 0 || OnlySlashes(dir)) && !Meta(rest[..i]) && Times(objs, dir + rest[..i + 1], rest[i + 1..]) > 0
  {
  }

  /** An object is reached if and only if it is visible and the walk descends to it. */
  lemma {:induction false} ReachedIff(objs: Objects, dir: string, rest: string)
    ensures Times(objs, dir, rest) > 0 <==> Visible(rest) && Walked(dir, rest)
    decreases |rest|
  {
    var i := FirstSlash(rest);
    if i < |rest| {
      WalkedStep(dir, rest);
      TimesStep(objs, dir, rest);
      ReachedIff(objs, dir + rest[..i + 1], rest[i + 1..]);
    }
  }

  /** Below a directory with a name the walk descends exactly to the keys without empty segments. */
  lemma {:induction false} WalkedIsClean(dir: string, rest: string)
    requires !OnlySlashes(dir)
    ensures Walked(dir, rest) <==> Clean(rest)
    decreases |rest|
  {
    var i := FirstSlash(rest);
    if i < |rest| {
      NamedBelow(dir, rest[..i + 1]);
      WalkedIsClean(dir + rest[..i + 1], rest[i + 1..]);
    }
  }

  lemma {:induction false} NamedBelow(dir: string, x: string)
    requires !OnlySlashes(dir)
    ensures !OnlySlashes(dir + x)
  {
    if x == "" {
      assert dir + x == dir;
    } else {
      assert (dir + x)[..|dir + x| - 1] == dir + x[..|x| - 1];
      NamedBelow(dir, x[..|x| - 1]);
    }
  }

  /** Exactly the targets of visible keys the walk descends to come out. */
  lemma OutIff(objs: Objects, ix: Index, root: Pending, out: seq<Target>, t: Target)
    requires Yields(objs, ix, root, out)
    ensures t in out <==>
            && Shown(objs, root.dir, t.key) && Walked(root.dir, After(root.dir, t.key))
            && t == TargetOf(objs, ix, root, t.key)
  {
    assert t in out <==> multiset(out)[t] > 0;
    if t.key in objs && root.dir <= t.key { ReachedIff(objs, root.dir, After(root.dir, t.key)); }
  }

  /** Real path of the folder at x below a directory, and of the directory itself where x is empty. */
  function FolderPath(ix: Index, dir: string, base: string, x: string): (rel: string)
    requires DirKey(x)
  {
    if x == "" then base else RelOf(ix, dir, base, x[..|x| - 1])
  }

  /** Below a first segment the folder's path starts with what that segment is called. */
  lemma FolderPathStep(ix: Index, dir: string, base: string, s: string, x: string)
    requires NoSlash(s) && DirKey(x)
    ensures FolderPath(ix, dir, base, s + "/" + x) ==
            FolderPath(ix, dir + s + "/", base + "/" + NameOr(Of(ix, dir), s), x)
  {
    var y := (s + "/" + x)[..|s + "/" + x| - 1];
    if x == "" {
      assert y == s;
      FirstSlashAt(s, "");
    } else {
      assert y == s + "/" + x[..|x| - 1];
      FirstSlashAt(s, x[..|x| - 1]);
      assert y[..|s| + 1] == s + "/" && y[|s| + 1..] == x[..|x| - 1] && y[..|s|] == s;
      assert dir + (s + "/") == dir + s + "/";
    }
  }

  /** A path below a first segment, taken apart there. */
  lemma FirstSegment(dir: string, s: string, y: string)
    requires NoSlash(s)
    ensures var rest := s + "/" + y;
            && FirstSlash(rest) == |s| < |rest| && rest[..|s|] == s && rest[|s| + 1..] == y
            && dir + rest[..|s| + 1] == dir + s + "/" && dir + s + "/" + y == dir + rest
  {
    FirstSlashAt(s, y);
    assert (s + "/" + y)[..|s| + 1] == s + "/";
  }

  lemma ResolvedBelow(ix: Index, dir: string, base: string, s: string, y: string, stored: nat)
    requires NoSlash(s)
    ensures SizeOf(ix, dir, s + "/" + y, stored) == SizeOf(ix, dir + s + "/", y, stored)
    ensures RelOf(ix, dir, base, s + "/" + y) == RelOf(ix, dir + s + "/", base + "/" + NameOr(Of(ix, dir), s), y)
  {
    FirstSegment(dir, s, y);
  }

  /** An object is named and sized by the manifest of the directory it lies in, behind the path of that directory. */
  lemma {:induction false} ResolvedInParent(ix: Index, dir: string, base: string, x: string, leaf: string, stored: nat)
    requires DirKey(x) && NoSlash(leaf)
    ensures SizeOf(ix, dir, x + leaf, stored) == SizeOr(Of(ix, dir + x), leaf, stored)
    ensures RelOf(ix, dir, base, x + leaf) == FolderPath(ix, dir, base, x) + "/" + NameOr(Of(ix, dir + x), leaf)
    decreases |x|
  {
    if x == "" {
      assert x + leaf == leaf && dir + x == dir;
      FirstSlashAt(leaf, "");
    } else {
      var i := FirstSlash(x);
      SlashFound(x);
      var s, x' := x[..i], x[i + 1..];
      assert x == s + "/" + x' && x + leaf == s + "/" + (x' + leaf);
      FirstSegment(dir, s, x');
      ResolvedBelow(ix, dir, base, s, x' + leaf, stored);
      ResolvedInParent(ix, dir + s + "/", base + "/" + NameOr(Of(ix, dir), s), x', leaf, stored);
      FolderPathStep(ix, dir, base, s, x');
    }
  }

  /** Neither a manifest nor the vault key. */
  predicate PlainName(s: string) { s != MANIFEST_KEY && s != VAULT_KEY }

  predicate PlainNames(segs: seq<string>) { forall s | s in segs :: PlainName(s) }

  lemma PlainMore(s: string, segs: seq<string>)
    ensures PlainNames([s] + segs) <==> PlainName(s) && PlainNames(segs)
  {
    assert s in [s] + segs;
    assert forall x | x in segs :: x in [s] + segs;
  }

  /** Visible are exactly the files, recorded or not, that no metadata name leads to. */
  lemma {:induction false} VisibleIff(rest: string)
    ensures Visible(rest) <==> rest != "" && rest[|rest| - 1] != '/' && PlainNames(SplitSlash(rest))
    decreases |rest|
  {
    var i := FirstSlash(rest);
    MetaIs(rest[..i]);
    if i < |rest| {
      VisibleIff(rest[i + 1..]);
      PlainMore(rest[..i], SplitSlash(rest[i + 1..]));
      assert rest[i + 1..] != "" ==> rest[i + 1..][|rest| - i - 2] == rest[|rest| - 1];
    } else {
      assert rest[..i] == rest;
      PlainMore(rest, []);
      assert SplitSlash(rest) == [rest] + [];
    }
  }

  lemma MetaIs(leaf: string)
    requires NoSlash(leaf)
    ensures Meta(leaf) <==> leaf == MANIFEST_KEY || leaf == VAULT_KEY
  {
    if leaf != "" {
      assert leaf[|leaf| - 1] in leaf;
      TrimSlashes(leaf);
    }
  }

  /** A visible object is a slash-free leaf in some directory. */
  lemma {:induction false} VisibleLeaf(rest: string) returns (x: string, leaf: string)
    requires Visible(rest)
    ensures rest == x + leaf && DirKey(x) && leaf != "" && NoSlash(leaf)
    decreases |rest|
  {
    var i := FirstSlash(rest);
    if i == |rest| {
      x, leaf := "", rest;
      assert rest[..i] == rest;
    } else {
      x, leaf := VisibleLeaf(rest[i + 1..]);
      x := rest[..i + 1] + x;
    }
  }

  /** A visible key below a directory is a leaf in some directory x below it, and that is its parent directory. */
  lemma VisibleKey(dir: string, key: string) returns (x: string, leaf: string)
    requires DirKey(dir) && dir <= key && Visible(After(dir, key))
    ensures After(dir, key) == x + leaf && DirKey(x) && NoSlash(leaf)
    ensures dir + x == ParentPrefix(key) && leaf == LeafOf(key)
  {
    x, leaf := VisibleLeaf(After(dir, key));
    assert key == dir + (x + leaf) == dir + x + leaf;
    ChildKey(dir + x, leaf);
  }

  lemma SizeIs(m: Manifest, leaf: string, stored: nat)
    ensures leaf in m.files ==> SizeOr(m, leaf, stored) == m.files[leaf].size
    ensures leaf !in m.files ==> forall p: nat | stored == CipherLen(p) :: SizeOr(m, leaf, stored) == p
  {
    forall p: nat | stored == CipherLen(p) ensures PlaintextOfCiphertext(stored) == p { PlaintextInvertsCipherLen(p); }
  }

  /**
   * Every target that comes out lies in its parent directory under its leaf. It has the size its directory's manifest
   * records, or if that has none the plaintext size of the stored ciphertext; and it is called what the manifest
   * calls it, or if that has no name by its on-disk segment, behind the real path of its directory.
   */
  lemma TargetIs(objs: Objects, ix: Index, root: Pending, out: seq<Target>, t: Target) returns (x: string, leaf: string)
    requires Yields(objs, ix, root, out) && t in out && DirKey(root.dir)
    ensures t.key in objs && root.dir + x == ParentPrefix(t.key) && leaf == LeafOf(t.key) && DirKey(x)
    ensures var m := Of(ix, ParentPrefix(t.key));
            && (leaf in m.files ==> t.size == m.files[leaf].size)
            && (leaf !in m.files ==> forall p: nat | objs[t.key] == CipherLen(p) :: t.size == p)
            && t.rel == FolderPath(ix, root.dir, root.base, x) + "/" +
                        (if m.NameFor(leaf).Some? then m.NameFor(leaf).value else leaf)
  {
    OutIff(objs, ix, root, out, t);
    x, leaf := VisibleKey(root.dir, t.key);
    ResolvedInParent(ix, root.dir, root.base, x, leaf, objs[t.key]);
    SizeIs(Of(ix, ParentPrefix(t.key)), leaf, objs[t.key]);
  }

  /** Every visible object comes out if and only if the walk descends to every visible key. */
  lemma AllOutIff(objs: Objects, ix: Index, root: Pending, out: seq<Target>)
    requires Yields(objs, ix, root, out)
    ensures (forall k | Shown(objs, root.dir, k) :: TargetOf(objs, ix, root, k) in out)
            <==> forall k | Shown(objs, root.dir, k) :: Walked(root.dir, After(root.dir, k))
  {
    forall k | Shown(objs, root.dir, k)
      ensures TargetOf(objs, ix, root, k) in out <==> Walked(root.dir, After(root.dir, k))
    {
      OutIff(objs, ix, root, out, TargetOf(objs, ix, root, k));
    }
  }

  /** On the way to the object some directory holds a folder of its own name next to a doubled slash. */
  ghost predicate Doubled(objs: Objects, dir: string, rest: string)
    decreases |rest|
  {
    var i := FirstSlash(rest);
    && i < |rest|
    && ((i > 0 && rest[..i] == LeafOf(dir) && Echoes(objs, dir)) || Doubled(objs, dir + rest[..i + 1], rest[i + 1..]))
  }

  lemma {:induction false} OnceIff(objs: Objects, dir: string, rest: string)
    requires Times(objs, dir, rest) > 0
    ensures Times(objs, dir, rest) == 1 <==> !Doubled(objs, dir, rest)
    decreases |rest|
  {
    var i := FirstSlash(rest);
    if i < |rest| { OnceIff(objs, dir + rest[..i + 1], rest[i + 1..]); }
  }

  lemma {:induction false} DistinctIff(out: seq<Target>)
    ensures (forall i, j | 0 <= i < j < |out| :: out[i] != out[j]) <==> forall t | t in out :: multiset(out)[t] == 1
  {
    if out != [] {
      var init, z := out[..|out| - 1], out[|out| - 1];
      DistinctIff(init);
      assert out == init + [z];
      if forall t | t in out :: multiset(out)[t] == 1 {
        forall t | t in init ensures multiset(init)[t] == 1 { PushCount(init, z, t); assert t in out; }
        PushCount(init, z, z);
        assert z in out && z !in multiset(init);
      }
      if forall i, j | 0 <= i < j < |out| :: out[i] != out[j] {
        assert forall i | 0 <= i < |init| :: init[i] == out[i] != z;
        forall t | t in out ensures multiset(out)[t] == 1 { PushCount(init, z, t); }
      }
    }
  }

  predicate DistinctKeys(ts: seq<Target>) { forall i, j | 0 <= i < j < |ts| :: ts[i].key != ts[j].key }

  /** Every target comes out once if and only if none lies below a doubled folder. */
  lemma OnceEachIff(objs: Objects, ix: Index, root: Pending, out: seq<Target>)
    requires Yields(objs, ix, root, out)
    ensures DistinctKeys(out) <==>
            forall k | Shown(objs, root.dir, k) && Walked(root.dir, After(root.dir, k)) ::
              !Doubled(objs, root.dir, After(root.dir, k))
  {
    KeysAreTargets(objs, ix, root, out);
    DistinctIff(out);
    forall k | Shown(objs, root.dir, k) && Walked(root.dir, After(root.dir, k))
      ensures var t := TargetOf(objs, ix, root, k);
              t in out && (multiset(out)[t] == 1 <==> !Doubled(objs, root.dir, After(root.dir, k)))
    {
      var t := TargetOf(objs, ix, root, k);
      OutIff(objs, ix, root, out, t);
      ReachedIff(objs, root.dir, After(root.dir, k));
      OnceIff(objs, root.dir, After(root.dir, k));
      assert multiset(out)[t] == Yield(objs, ix, root, t);
    }
    forall t | t in out
      ensures Shown(objs, root.dir, t.key) && Walked(root.dir, After(root.dir, t.key))
              && t == TargetOf(objs, ix, root, t.key)
    {
      OutIff(objs, ix, root, out, t);
    }
  }

  lemma KeysAreTargets(objs: Objects, ix: Index, root: Pending, out: seq<Target>)
    requires Yields(objs, ix, root, out)
    ensures DistinctKeys(out) <==> forall i, j | 0 <= i < j < |out| :: out[i] != out[j]
  {
    forall i, j | 0 <= i < |out| && 0 <= j < |out| && out[i].key == out[j].key
      ensures out[i] == out[j]
    {
      OutIff(objs, ix, root, out, out[i]);
      OutIff(objs, ix, root, out, out[j]);
    }
  }

  // ---------------------------------------------------------------- backends without empty segments

  ghost predicate CleanBelow(objs: Objects, dir: string)
  {
    forall k | k in objs && dir <= k :: Clean(After(dir, k))
  }

  /** What expansion should yield: every visible object below the root once, under its real path and plaintext size. */
  ghost predicate Expansion(objs: Objects, ix: Index, root: Pending, out: seq<Target>)
  {
    && (forall k | Shown(objs, root.dir, k) :: TargetOf(objs, ix, root, k) in out)
    && (forall t | t in out :: Shown(objs, root.dir, t.key) && t == TargetOf(objs, ix, root, t.key))
    && DistinctKeys(out)
  }

  lemma {:induction false} CleanIsWalked(dir: string, rest: string)
    requires Clean(rest)
    ensures Walked(dir, rest)
    decreases |rest|
  {
    var i := FirstSlash(rest);
    if i < |rest| { CleanIsWalked(dir + rest[..i + 1], rest[i + 1..]); }
  }

  lemma NotBehindSlash(dir: string, k: string)
    requires dir <= k && Clean(After(dir, k))
    ensures !(dir + "/" <= k)
  {
  }

  lemma NoEcho(objs: Objects, dir: string)
    requires CleanBelow(objs, dir)
    ensures !Echoes(objs, dir)
  {
    forall k | k in objs ensures !(dir + "/" <= k) {
      if dir <= k { NotBehindSlash(dir, k); }
    }
  }

  lemma CleanDeeper(objs: Objects, dir: string, leaf: string)
    requires CleanBelow(objs, dir) && NoSlash(leaf)
    ensures CleanBelow(objs, dir + leaf + "/")
  {
    forall k | k in objs && dir + leaf + "/" <= k ensures Clean(After(dir + leaf + "/", k)) {
      ThroughFolder(dir, leaf, k);
      SplitKey(dir, k, |leaf| + 1);
    }
  }

  lemma {:induction false} NeverDoubled(objs: Objects, dir: string, rest: string)
    requires CleanBelow(objs, dir)
    ensures !Doubled(objs, dir, rest)
    decreases |rest|
  {
    var i := FirstSlash(rest);
    NoEcho(objs, dir);
    if i < |rest| {
      Regroup(dir, rest[..i]);
      assert rest[..i + 1] == rest[..i] + "/";
      CleanDeeper(objs, dir, rest[..i]);
      NeverDoubled(objs, dir + rest[..i + 1], rest[i + 1..]);
    }
  }

  /** Without empty segments below the folder the walk returns exactly the visible objects, each once. */
  lemma CleanExpansion(objs: Objects, ix: Index, root: Pending, out: seq<Target>)
    requires Yields(objs, ix, root, out) && CleanBelow(objs, root.dir)
    ensures Expansion(objs, ix, root, out)
  {
    forall k | Shown(objs, root.dir, k)
      ensures Walked(root.dir, After(root.dir, k)) && !Doubled(objs, root.dir, After(root.dir, k))
    {
      CleanIsWalked(root.dir, After(root.dir, k));
      NeverDoubled(objs, root.dir, After(root.dir, k));
    }
    AllOutIff(objs, ix, root, out);
    OnceEachIff(objs, ix, root, out);
    forall t | t in out ensures Shown(objs, root.dir, t.key) && t == TargetOf(objs, ix, root, t.key) {
      OutIff(objs, ix, root, out, t);
    }
  }

  const DOUBLED_SLASH: Objects := map["a//x" := 40, "a/a/y" := 40]

  lemma NameOfA()
    ensures !OnlySlashes("a/") && LeafOf("a/") == "a"
  {
    TrimSlashes("a");
    assert "a" + "/" == "a/";
    assert "a"[..0] == "";
  }

  lemma NeverReached()
    ensures Times(DOUBLED_SLASH, "a/", "/x") == 0 && Visible("/x")
  {
    NameOfA();
    FirstSlashAt("", "x");
    assert "" + "/" + "x" == "/x" && "/x"[..0] == "" && "/x"[1..] == "x";
    FirstSlashAt("x", "");
    WalkedStep("a/", "/x");
    TimesStep(DOUBLED_SLASH, "a/", "/x");
  }

  lemma ReachedTwice()
    ensures Times(DOUBLED_SLASH, "a/", "a/y") == 2
  {
    NameOfA();
    FirstSlashAt("a", "y");
    assert "a" + "/" + "y" == "a/y" && "a/y"[..1] == "a" && "a/y"[2..] == "y";
    FirstSlashAt("y", "");
    assert "a/" + "/" <= "a//x" && "a//x" in DOUBLED_SLASH;
    assert Times(DOUBLED_SLASH, "a/" + "a/y"[..2], "y") == 1;
  }

  /**
   * The two keys a//x and a/a/y show both failures: the folder's listing reads the leaf of a// as a, so a/a/ is
   * queued twice, a/a/y comes out twice and a//x, although visible, never.
   */
  lemma EmptySegmentsFail(ix: Index, base: string, out: seq<Target>)
    requires Yields(DOUBLED_SLASH, ix, Pending("a/", base), out)
    ensures Shown(DOUBLED_SLASH, "a/", "a//x") && forall t | t in out :: t.key != "a//x"
    ensures multiset(out)[TargetOf(DOUBLED_SLASH, ix, Pending("a/", base), "a/a/y")] == 2
  {
    NeverReached();
    ReachedTwice();
    assert After("a/", "a//x") == "/x" && After("a/", "a/a/y") == "a/y";
    forall t | t in out ensures t.key != "a//x" {
      assert multiset(out)[t] > 0;
      assert Yield(DOUBLED_SLASH, ix, Pending("a/", base), t) > 0;
    }
    assert multiset(out)[TargetOf(DOUBLED_SLASH, ix, Pending("a/", base), "a/a/y")]
        == Yield(DOUBLED_SLASH, ix, Pending("a/", base), TargetOf(DOUBLED_SLASH, ix, Pending("a/", base), "a/a/y"));
  }
}
