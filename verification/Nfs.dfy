/**
 * The NFS directory-handle cache, over a server that answers LOOKUP, CREATE, MKDIR, REMOVE, RMDIR and READDIRPLUS
 * as sections 3.3.3, 3.3.8, 3.3.9, 3.3.12, 3.3.13 and 3.3.17 of RFC 1813 describe.
 * Paths are lists of names; handles are never reused; an empty name is refused (section 3.2).
 */
module Nfs {
  import opened Prelude

  type Path = seq<string>

  datatype Node = Node(handle: nat, isDir: bool)

  const ROOT: nat := 0

  datatype Status = NoEnt | NotDir | NotEmpty | IsDir | Stale | Exists | Acces

  /** The server: its tree, where each live handle sits, and the next fresh handle. */
  datatype Server = Server(nodes: map<Path, Node>, places: map<nat, Path>, next: nat)

  function Parent(p: Path): (q: Path)
    requires p != []
  {
    p[..|p| - 1]
  }

  function Name(p: Path): (n: string)
    requires p != []
  {
    p[|p| - 1]
  }

  predicate ServerOk(s: Server)
  {
    && [] in s.nodes && s.nodes[[]] == Node(ROOT, true)
    && (forall p | p in s.nodes && p != [] :: Parent(p) in s.nodes && s.nodes[Parent(p)].isDir && Name(p) != "")
    && (forall p | p in s.nodes ::
          s.nodes[p].handle < s.next && s.nodes[p].handle in s.places && s.places[s.nodes[p].handle] == p)
    && (forall h | h in s.places :: s.places[h] in s.nodes && s.nodes[s.places[h]].handle == h)
  }

  // ---------------------------------------------------------------- server procedures

  function Lookup(s: Server, dir: nat, name: string): (r: Result<nat, Status>)
  {
    if dir !in s.places || s.places[dir] !in s.nodes then Err(Stale)
    else if !s.nodes[s.places[dir]].isDir then Err(NotDir)
    else if name == "" then Err(Acces)
    else
      var p := s.places[dir] + [name];
      if p in s.nodes then Ok(s.nodes[p].handle) else Err(NoEnt)
  }

  /** Link a fresh node under a path. */
  function Link(s: Server, p: Path, isDir: bool): (s': Server)
  {
    Server(s.nodes[p := Node(s.next, isDir)], s.places[s.next := p], s.next + 1)
  }

  /** MKDIR, and CREATE for a file. */
  function Make(s: Server, dir: nat, name: string, isDir: bool): (r: Result<Server, Status>)
  {
    match Lookup(s, dir, name)
    case Ok(_) => Err(Exists)
    case Err(NoEnt) => if dir !in s.places then Err(Stale) else Ok(Link(s, s.places[dir] + [name], isDir))
    case Err(e) => Err(e)
  }

  /** Unlink a path from the tree. */
  function Unlink(s: Server, p: Path): (s': Server)
    requires p in s.nodes
  {
    Server(s.nodes - {p}, s.places - {s.nodes[p].handle}, s.next)
  }

  function Remove(s: Server, dir: nat, name: string): (r: Result<Server, Status>)
  {
    match Lookup(s, dir, name)
    case Err(e) => Err(e)
    case Ok(_) =>
      if dir !in s.places || s.places[dir] + [name] !in s.nodes then Err(Stale)
      else if s.nodes[s.places[dir] + [name]].isDir then Err(IsDir)
      else Ok(Unlink(s, s.places[dir] + [name]))
  }

  /** A directory is empty when no node has it as parent. */
  predicate Empty(s: Server, p: Path) { forall q | q in s.nodes && q != [] :: Parent(q) != p }

  function RmDir(s: Server, dir: nat, name: string): (r: Result<Server, Status>)
  {
    match Lookup(s, dir, name)
    case Err(e) => Err(e)
    case Ok(_) =>
      if dir !in s.places || s.places[dir] + [name] !in s.nodes then Err(Stale)
      else
        var p := s.places[dir] + [name];
        if !s.nodes[p].isDir then Err(NotDir) else if !Empty(s, p) then Err(NotEmpty) else Ok(Unlink(s, p))
  }

  /** READDIRPLUS: the children of a directory. */
  function ReadDir(s: Server, dir: nat): (r: Result<set<Path>, Status>)
  {
    if dir !in s.places || s.places[dir] !in s.nodes then Err(Stale)
    else if !s.nodes[s.places[dir]].isDir then Err(NotDir)
    else Ok(set q | q in s.nodes && q != [] && Parent(q) == s.places[dir])
  }

  /** Plain LOOKUP from the root, name by name, with no cache. */
  function LookupPath(s: Server, p: Path): (h: Option<nat>)
  {
    if p == [] then Some(ROOT)
    else
      match LookupPath(s, Parent(p))
      case None => None
      case Some(h) => match Lookup(s, h, Name(p)) { case Ok(x) => Some(x) case Err(_) => None }
  }

  lemma SplitPath(p: Path)
    requires p != []
    ensures Parent(p) + [Name(p)] == p
  {
  }

  /** On a well-formed server a walk from the root finds exactly the node at the path. */
  lemma {:induction false} LookupPathIs(s: Server, p: Path)
    requires ServerOk(s)
    ensures LookupPath(s, p) == if p in s.nodes then Some(s.nodes[p].handle) else None
  {
    if p != [] {
      LookupPathIs(s, Parent(p));
      SplitPath(p);
    }
  }

  lemma LookupIs(s: Server, p: Path, n: string)
    requires ServerOk(s) && p in s.nodes
    ensures Lookup(s, s.nodes[p].handle, n) ==
            if !s.nodes[p].isDir then Err(NotDir)
            else if n == "" then Err(Acces)
            else if p + [n] in s.nodes then Ok(s.nodes[p + [n]].handle) else Err(NoEnt)
  {
  }

  lemma MakeIs(s: Server, p: Path, n: string, isDir: bool)
    requires ServerOk(s) && p in s.nodes && s.nodes[p].isDir && p + [n] !in s.nodes && n != ""
    ensures Make(s, s.nodes[p].handle, n, isDir) == Ok(Link(s, p + [n], isDir)) && ServerOk(Link(s, p + [n], isDir))
  {
    LookupIs(s, p, n);
    assert Parent(p + [n]) == p;
  }

  lemma UnlinkOk(s: Server, p: Path)
    requires ServerOk(s) && p in s.nodes && p != [] && Empty(s, p)
    ensures ServerOk(Unlink(s, p))
  {
  }

  lemma FileIsEmpty(s: Server, p: Path)
    requires ServerOk(s) && p in s.nodes && !s.nodes[p].isDir
    ensures Empty(s, p)
  {
  }

  /** Nothing lies below a missing path or a file. */
  lemma {:induction false} PrefixMissing(s: Server, p: Path, i: nat)
    requires ServerOk(s) && i <= |p| && (p[..i] !in s.nodes || (i < |p| && !s.nodes[p[..i]].isDir))
    ensures p !in s.nodes
    decreases |p| - i
  {
    if i == |p| {
      assert p[..i] == p;
    } else {
      assert Parent(p[..i + 1]) == p[..i];
      PrefixMissing(s, p, i + 1);
    }
  }

  // ---------------------------------------------------------------- the cache

  type Cache = map<Path, nat>

  /** A cached handle is the node's at that path, or dead: the path is gone and so is the handle. */
  predicate CacheSound(s: Server, c: Cache)
  {
    forall p | p in c :: c[p] < s.next && if p in s.nodes then s.nodes[p].handle == c[p] else c[p] !in s.places
  }

  /** No cached handle is dead. */
  predicate CacheRight(s: Server, c: Cache) { CacheSound(s, c) && forall p | p in c :: p in s.nodes }

  /** What the cache is for: a right cache always agrees with an uncached walk. */
  lemma CacheAgreesWithLookup(s: Server, c: Cache, p: Path)
    requires ServerOk(s) && CacheRight(s, c) && p in c
    ensures LookupPath(s, p) == Some(c[p])
  {
    LookupPathIs(s, p);
  }

  /** Only prefixes of the path that exist were added, and nothing was lost. */
  predicate Grew(s: Server, c: Cache, c': Cache, path: Path)
  {
    && (forall p | p in c :: p in c' && c'[p] == c[p])
    && (forall p | p in c' && p !in c :: p <= path && p in s.nodes)
  }

  lemma GrewKeeps(s: Server, c: Cache, c': Cache, path: Path)
    requires CacheSound(s, c') && Grew(s, c, c', path)
    ensures CacheRight(s, c) ==> CacheRight(s, c')
  {
  }

  /** Every step of the way to the first i names is cached. */
  predicate WayCached(c: Cache, path: Path, i: nat)
    requires i <= |path|
  {
    forall j | 0 < j <= i :: path[..j] in c
  }

  /** Only steps of the way were added. */
  predicate OnWay(c0: Cache, c: Cache, path: Path) { forall q | q in c && q !in c0 :: q <= path }

  lemma WayGrows(c: Cache, path: Path, i: nat, h: nat)
    requires i < |path| && WayCached(c, path, i)
    ensures WayCached(c[path[..i + 1] := h], path, i + 1)
    ensures forall c0 | OnWay(c0, c, path) :: OnWay(c0, c[path[..i + 1] := h], path)
  {
  }

  /** Remembering the handle of an existing node. */
  lemma Remember(s: Server, c0: Cache, c: Cache, path: Path, p: Path)
    requires ServerOk(s) && CacheSound(s, c) && Grew(s, c0, c, path) && p in s.nodes && p <= path
    ensures CacheSound(s, c[p := s.nodes[p].handle]) && Grew(s, c0, c[p := s.nodes[p].handle], path)
  {
  }

  lemma LinkKeepsCache(s: Server, c: Cache, p: Path, isDir: bool)
    requires ServerOk(s) && CacheRight(s, c) && p !in s.nodes
    ensures CacheRight(Link(s, p, isDir), c)
  {
  }

  /** Removing a node without evicting it leaves the cache right if and only if the path is not cached. */
  lemma UnlinkAndCache(s: Server, c: Cache, p: Path)
    requires ServerOk(s) && CacheSound(s, c) && p in s.nodes
    ensures CacheSound(Unlink(s, p), c)
    ensures CacheRight(s, c) ==> (CacheRight(Unlink(s, p), c) <==> p !in c)
  {
  }

  // ---------------------------------------------------------------- what the operations do to the tree

  /** Files and directories by path. */
  type Tree = map<Path, bool>

  function TreeOf(s: Server): (t: Tree) { map p | p in s.nodes :: s.nodes[p].isDir }

  predicate IsDirAt(t: Tree, p: Path) { p in t && t[p] }

  /** Where preparing a directory path stops: below a file, or at an empty name; at its end if neither is on the way. */
  function Stop(t: Tree, dir: Path, i: nat): (r: nat)
    requires i <= |dir|
    ensures i <= r <= |dir|
    decreases |dir| - i
  {
    if i == |dir| || Halts(t, dir, i) then i else Stop(t, dir, i + 1)
  }

  predicate Halts(t: Tree, dir: Path, i: nat)
    requires i < |dir|
  {
    (dir[..i] in t && !t[dir[..i]]) || dir[i] == ""
  }

  /** The tree with every directory on the way to dir. */
  function WithDirs(t: Tree, dir: Path): (t': Tree)
  {
    map p | p in t.Keys + Prefixes(dir) :: if p in t then t[p] else true
  }

  class NfsBackend {
    var srv: Server
    var cache: Cache

    constructor (server: Server)
      requires ServerOk(server)
      ensures srv == server && cache == map[] && Valid()
    {
      srv, cache := server, map[];
    }

    ghost predicate Sound()
      reads this
    {
      ServerOk(srv) && CacheSound(srv, cache)
    }

    /** Every cached handle is what LOOKUP from the root returns. */
    ghost predicate Valid()
      reads this
    {
      ServerOk(srv) && CacheRight(srv, cache)
    }

    /** Resolve a path through the cache; a miss walks from the root and caches every step, whatever it finds there. */
    method ResolveDir(path: Path) returns (r: Result<nat, Status>)
      requires Sound()
      modifies this`cache
      ensures Sound() && Grew(srv, old(cache), cache, path) && (old(Valid()) ==> Valid())
      ensures path in srv.nodes ==> r == Ok(srv.nodes[path].handle)
      ensures path !in srv.nodes && r.Ok? ==> r.value !in srv.places && !old(Valid())
      ensures if path in old(cache) then cache == old(cache) else r.Ok? ==> WayCached(cache, path, |path|)
    {
      if path == [] { return Ok(ROOT); }
      if path in cache { return Ok(cache[path]); }
      r := Walk(path);
      GrewKeeps(srv, old(cache), cache, path);
    }

    method Walk(path: Path) returns (r: Result<nat, Status>)
      requires Sound()
      modifies this`cache
      ensures Sound() && Grew(srv, old(cache), cache, path)
      ensures r.Ok? <==> path in srv.nodes
      ensures r.Ok? ==> r.value == srv.nodes[path].handle && WayCached(cache, path, |path|)
    {
      var fh := ROOT;
      var i := 0;
      while i < |path|
        invariant i <= |path| && Sound() && Grew(srv, old(cache), cache, path) && WayCached(cache, path, i)
        invariant path[..i] in srv.nodes && srv.nodes[path[..i]].handle == fh
      {
        ghost var before := cache;
        var next := WalkOne(path, i, fh);
        if next.Err? { return next; }
        fh := next.value;
        i := i + 1;
        Remember(srv, old(cache), before, path, path[..i]);
        WayGrows(before, path, i - 1, fh);
      }
      assert path[..|path|] == path;
      r := Ok(fh);
    }

    /** One step of the walk: LOOKUP, and remember what it returned. */
    method WalkOne(path: Path, i: nat, fh: nat) returns (next: Result<nat, Status>)
      requires Sound() && i < |path| && path[..i] in srv.nodes && srv.nodes[path[..i]].handle == fh
      modifies this`cache
      ensures Sound() && (next.Err? ==> cache == old(cache) && path !in srv.nodes)
      ensures next.Ok? ==> path[..i + 1] in srv.nodes && srv.nodes[path[..i + 1]].handle == next.value
      ensures next.Ok? ==> cache == old(cache)[path[..i + 1] := next.value]
    {
      LookupIs(srv, path[..i], path[i]);
      assert path[..i + 1] == path[..i] + [path[i]];
      next := Lookup(srv, fh, path[i]);
      if next.Err? {
        if path[i] == "" { assert Name(path[..i + 1]) == ""; }
        PrefixMissing(srv, path, if srv.nodes[path[..i]].isDir then i + 1 else i);
      } else {
        cache := cache[path[..i + 1] := next.value];
      }
    }

    /** LOOKUP, or MKDIR followed by LOOKUP; a file leads nowhere. */
    method FindOrMake(p: Path, n: string, fh: nat) returns (child: Result<nat, Status>)
      requires Valid() && p in srv.nodes && srv.nodes[p].handle == fh
      modifies this`srv
      ensures Valid() && srv == Ensured(old(srv), p, n) && (child.Ok? <==> old(srv).nodes[p].isDir && n != "")
      ensures child.Ok? ==> p + [n] in srv.nodes && child.value == srv.nodes[p + [n]].handle
    {
      LookupIs(srv, p, n);
      child := Lookup(srv, fh, n);
      if child.Err? && child.error == NoEnt {
        MakeIs(srv, p, n, true);
        LinkKeepsCache(srv, cache, p + [n], true);
        var made := Make(srv, fh, n, true);
        srv := made.value;
        LookupIs(srv, p, n);
        child := Lookup(srv, fh, n);
      } else if child.Ok? {
        assert p + [n] in srv.nodes;
      }
    }

    /** One step of the parent walk: from the cache, or by asking the server. */
    method EnsureDir(p: Path, n: string, fh: nat) returns (child: Result<nat, Status>)
      requires Valid() && p in srv.nodes && srv.nodes[p].handle == fh
      modifies this
      ensures Valid() && srv == Ensured(old(srv), p, n) && (child.Ok? <==> old(srv).nodes[p].isDir && n != "")
      ensures child.Ok? ==> p + [n] in srv.nodes && child.value == srv.nodes[p + [n]].handle
      ensures cache == if child.Ok? then old(cache)[p + [n] := child.value] else old(cache)
    {
      if p + [n] in cache {
        assert Parent(p + [n]) == p && Name(p + [n]) == n;
        return Ok(cache[p + [n]]);
      }
      child := FindOrMake(p, n, fh);
      if child.Ok? {
        RememberRight(srv, cache, p + [n]);
        cache := cache[p + [n] := child.value];
      }
    }

    /** The i-th directory on the way to dir. */
    method PrepareNext(dir: Path, i: nat, fh: nat, ghost t: Tree) returns (child: Result<nat, Status>)
      requires Valid() && i < |dir| && dir[..i] in srv.nodes && srv.nodes[dir[..i]].handle == fh
      requires Prepared(t, TreeOf(srv), dir, i)
      modifies this
      ensures Valid() && cache == if child.Ok? then old(cache)[dir[..i + 1] := child.value] else old(cache)
      ensures child.Err? ==> Stop(t, dir, 0) == i && TreeOf(srv) == WithDirs(t, dir[..i])
      ensures child.Ok? ==> Prepared(t, TreeOf(srv), dir, i + 1)
      ensures child.Ok? ==> dir[..i + 1] in srv.nodes && srv.nodes[dir[..i + 1]].handle == child.value
    {
      assert dir[..i + 1] == dir[..i] + [dir[i]];
      ghost var before := srv;
      child := EnsureDir(dir[..i], dir[i], fh);
      if child.Err? { StopsHere(t, TreeOf(srv), dir, i); } else { PreparedStep(before, t, dir, i); }
    }

    /** Create the missing directories above a key, through the cache. */
    method PrepareParents(key: Path) returns (ok: bool)
      requires Valid() && key != []
      modifies this
      ensures Valid() && (ok <==> Stop(TreeOf(old(srv)), Parent(key), 0) == |Parent(key)|)
      ensures TreeOf(srv) == WithDirs(TreeOf(old(srv)), Parent(key)[..Stop(TreeOf(old(srv)), Parent(key), 0)])
      ensures OnWay(old(cache), cache, Parent(key)) && (ok ==> WayCached(cache, Parent(key), |Parent(key)|))
    {
      var dir := Parent(key);
      var fh := ROOT;
      var i := 0;
      ghost var t := TreeOf(srv);
      WithDirsStart(t, dir);
      while i < |dir|
        invariant i <= |dir| && Valid() && Prepared(t, TreeOf(srv), dir, i)
        invariant dir[..i] in srv.nodes && srv.nodes[dir[..i]].handle == fh
        invariant OnWay(old(cache), cache, dir) && WayCached(cache, dir, i)
      {
        ghost var before := cache;
        var child := PrepareNext(dir, i, fh, t);
        if child.Err? { return false; }
        fh := child.value;
        WayGrows(before, dir, i, fh);
        i := i + 1;
      }
      NoStopBefore(t, TreeOf(srv), dir, |dir|);
      ok := true;
    }

    /** Create a file, or truncate the one that is there. */
    method CreateFile(key: Path) returns (ok: bool)
      requires Valid() && key != []
      modifies this
      ensures Valid() && Grew(old(srv), old(cache), cache, Parent(key))
      ensures ok <==> Name(key) != "" && IsDirAt(TreeOf(old(srv)), Parent(key)) && !IsDirAt(TreeOf(old(srv)), key)
      ensures srv == if ok && key !in old(srv).nodes then Link(old(srv), key, false) else old(srv)
    {
      SplitPath(key);
      var dir := ResolveDir(Parent(key));
      if dir.Err? { return false; }
      LookupIs(srv, Parent(key), Name(key));
      var found := Lookup(srv, dir.value, Name(key));
      if found.Ok? { return !srv.nodes[srv.places[found.value]].isDir; } // SETATTR of a size refuses a directory
      if found.error != NoEnt { return false; }
      MakeIs(srv, Parent(key), Name(key), false);
      LinkKeepsCache(srv, cache, key, false);
      var made := Make(srv, dir.value, Name(key), false);
      srv := made.value;
      ok := true;
    }

    /**
     * Delete one file; a missing file in an existing directory counts as deleted, a directory is refused. Nothing
     * is evicted: the cache stays right if and only if the file's path was never resolved as a directory.
     */
    method DeleteFile(key: Path) returns (ok: bool)
      requires Sound() && key != []
      modifies this
      ensures Sound() && Grew(old(srv), old(cache), cache, Parent(key))
      ensures ok <==> Name(key) != "" && IsDirAt(TreeOf(old(srv)), Parent(key)) && !IsDirAt(TreeOf(old(srv)), key)
      ensures srv == if IsFile(old(srv), key) then Unlink(old(srv), key) else old(srv)
      ensures old(Valid()) ==> (Valid() <==> !(IsFile(old(srv), key) && key in old(cache)))
    {
      SplitPath(key);
      var dir := ResolveDir(Parent(key));
      if dir.Err? { return false; }
      if Parent(key) in srv.nodes { LookupIs(srv, Parent(key), Name(key)); }
      var res := Remove(srv, dir.value, Name(key));
      if res.Err? { return res.error == NoEnt; }
      FileIsEmpty(srv, key);
      UnlinkOk(srv, key);
      UnlinkAndCache(srv, cache, key);
      srv := res.value;
      ok := true;
    }

    /** List a directory: its children, each once, in any order. */
    method ListDir(dir: Path) returns (r: Result<seq<Path>, Status>)
      requires Sound()
      modifies this`cache
      ensures Sound() && Grew(srv, old(cache), cache, dir) && (old(Valid()) ==> Valid())
      ensures r.Ok? <==> IsDirAt(TreeOf(srv), dir)
      ensures r.Ok? ==> Children(srv, dir, r.value)
    {
      var h := ResolveDir(dir);
      if h.Err? { return Err(h.error); }
      var found := ReadDir(srv, h.value);
      if found.Err? { return Err(found.error); }
      var out := Listed(found.value);
      r := Ok(out);
    }
  }

  /** The entries of a directory in whatever order they come. */
  method Listed(found: set<Path>) returns (out: seq<Path>)
    ensures forall q :: q in out <==> q in found
    ensures forall i, j | 0 <= i < j < |out| :: out[i] != out[j]
  {
    out := [];
    var todo := found;
    while todo != {}
      invariant todo <= found && forall q :: q in out <==> q in found && q !in todo
      invariant forall i, j | 0 <= i < j < |out| :: out[i] != out[j]
      decreases todo
    {
      var q :| q in todo;
      todo := todo - {q};
      out := out + [q];
    }
  }

  predicate IsFile(s: Server, p: Path) { p in s.nodes && !s.nodes[p].isDir }

  ghost predicate Children(s: Server, dir: Path, out: seq<Path>)
  {
    && (forall q :: q in out <==> q in s.nodes && q != [] && Parent(q) == dir)
    && (forall i, j | 0 <= i < j < |out| :: out[i] != out[j])
  }

  /** The server after making sure a child directory exists; below a file nothing happens. */
  function Ensured(s: Server, p: Path, n: string): (s': Server)
  {
    if p in s.nodes && s.nodes[p].isDir && n != "" && p + [n] !in s.nodes then Link(s, p + [n], true) else s
  }

  lemma RememberRight(s: Server, c: Cache, p: Path)
    requires ServerOk(s) && CacheRight(s, c) && p in s.nodes
    ensures CacheRight(s, c[p := s.nodes[p].handle])
  {
  }

  /** The first i directories on the way are there, and are directories unless they are the last. */
  ghost predicate Prepared(t: Tree, t': Tree, dir: Path, i: nat)
    requires i <= |dir|
  {
    t' == WithDirs(t, dir[..i]) && forall j | 0 <= j < i :: IsDirAt(t', dir[..j]) && dir[j] != ""
  }

  lemma PreparedStep(s: Server, t: Tree, dir: Path, i: nat)
    requires i < |dir| && Prepared(t, TreeOf(s), dir, i) && dir[..i] in s.nodes && s.nodes[dir[..i]].isDir
             && dir[i] != ""
    ensures Prepared(t, TreeOf(Ensured(s, dir[..i], dir[i])), dir, i + 1)
  {
    assert dir[..i + 1] == dir[..i] + [dir[i]];
    WithDirsStep(t, dir, i);
    var s' := Ensured(s, dir[..i], dir[i]);
    assert TreeOf(s') == if dir[..i + 1] in TreeOf(s) then TreeOf(s) else TreeOf(s)[dir[..i + 1] := true];
    assert forall j | 0 <= j <= i :: IsDirAt(TreeOf(s), dir[..j]);
  }

  /** What is prepared did not stop before. */
  lemma {:induction false} NoStopBefore(t: Tree, t': Tree, dir: Path, i: nat)
    requires i <= |dir| && Prepared(t, t', dir, i)
    ensures Stop(t, dir, 0) == Stop(t, dir, i)
  {
    forall j | 0 <= j < i ensures !Halts(t, dir, j) { assert IsDirAt(t', dir[..j]); }
    StopSkips(t, dir, i);
  }

  lemma {:induction false} StopSkips(t: Tree, dir: Path, i: nat)
    requires i <= |dir| && forall j | 0 <= j < i :: !Halts(t, dir, j)
    ensures Stop(t, dir, 0) == Stop(t, dir, i)
  {
    if i > 0 { StopSkips(t, dir, i - 1); }
  }

  lemma StopsHere(t: Tree, t': Tree, dir: Path, i: nat)
    requires i < |dir| && Prepared(t, t', dir, i) && dir[..i] in t' && (!t'[dir[..i]] || dir[i] == "")
    ensures Stop(t, dir, 0) == i
  {
    NoStopBefore(t, t', dir, i);
  }

  lemma WithDirsStart(t: Tree, dir: Path)
    requires [] in t
    ensures WithDirs(t, dir[..0]) == t
  {
    assert dir[..0] == [];
    assert WithDirs(t, []).Keys == t.Keys;
  }

  function Prefixes(dir: Path): (ps: set<Path>) { set i | 0 <= i <= |dir| :: dir[..i] }

  lemma PrefixesStep(dir: Path, i: nat)
    requires i < |dir|
    ensures Prefixes(dir[..i + 1]) == Prefixes(dir[..i]) + {dir[..i + 1]}
  {
    var u := Prefixes(dir[..i]) + {dir[..i + 1]};
    forall q ensures q in Prefixes(dir[..i + 1]) <==> q in u {
      if q in Prefixes(dir[..i + 1]) {
        var j :| 0 <= j <= i + 1 && q == dir[..i + 1][..j];
        if j <= i { assert q == dir[..i][..j]; } else { assert q == dir[..i + 1]; }
      }
      if q in Prefixes(dir[..i]) {
        var j :| 0 <= j <= i && q == dir[..i][..j];
        assert q == dir[..i + 1][..j];
      }
      assert dir[..i + 1] == dir[..i + 1][..i + 1];
    }
  }

  lemma WithDirsStep(t: Tree, dir: Path, i: nat)
    requires i < |dir|
    ensures var w := WithDirs(t, dir[..i]);
            WithDirs(t, dir[..i + 1]) == if dir[..i + 1] in w then w else w[dir[..i + 1] := true]
  {
    PrefixesStep(dir, i);
  }
}
