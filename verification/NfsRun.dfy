/**
 * Whole sessions of one NFS client: after any sequence of operations, as long as no path is used both as a file and
 * as a directory, every cached handle is what LOOKUP returns and the tree is what the operations mean.
 */
module NfsRun {
  import opened Prelude
  import opened Nfs
  import opened NfsDelete

  datatype Op =
    | Resolve(path: Path)
    | List(path: Path)
    | Prepare(key: Path)
    | MakeFile(key: Path)
    | DropFile(key: Path)
    | DropDir(path: Path)

  /** What an operation means for the tree, with no handle and no cache in sight. */
  function After(t: Tree, op: Op): (t': Tree)
  {
    match op
    case Resolve(_) => t
    case List(_) => t
    case Prepare(key) => if key == [] then t else WithDirs(t, Parent(key)[..Stop(t, Parent(key), 0)])
    case MakeFile(key) => if key != [] && Name(key) != "" && IsDirAt(t, Parent(key))
      && key !in t then t[key := false] else t
    case DropFile(key) => if key in t && !t[key] then t - {key} else t
    case DropDir(d) => if IsDirAt(t, d) then map q | q in t && (!(d <= q) || q == []) :: t[q] else t
  }

  function AfterAll(t: Tree, ops: seq<Op>): (t': Tree)
  {
    if ops == [] then t else After(AfterAll(t, ops[..|ops| - 1]), ops[|ops| - 1])
  }

  /** The paths used as files; everything else is used as a directory. */
  type Files = iset<Path>

  ghost predicate DirUse(files: Files, p: Path) { forall i | 0 <= i <= |p| :: p[..i] !in files }

  ghost predicate Disciplined(files: Files, op: Op)
  {
    match op
    case Resolve(p) => DirUse(files, p)
    case List(p) => DirUse(files, p)
    case Prepare(key) => key != [] && DirUse(files, Parent(key))
    case MakeFile(key) => key != [] && key in files && DirUse(files, Parent(key))
    case DropFile(key) => key != [] && key in files && DirUse(files, Parent(key))
    case DropDir(p) => DirUse(files, p)
  }

  ghost predicate TreeFits(files: Files, t: Tree) { forall p | p in t :: t[p] <==> p !in files }

  ghost predicate CacheFits(files: Files, c: Cache) { forall p | p in c :: p !in files }

  lemma PrefixUse(files: Files, p: Path, q: Path)
    requires DirUse(files, p) && q <= p
    ensures q !in files
  {
    assert q == p[..|q|];
  }

  lemma PrefixDirUse(files: Files, p: Path, m: nat)
    requires DirUse(files, p) && m <= |p|
    ensures DirUse(files, p[..m])
  {
    forall i | 0 <= i <= m ensures p[..m][..i] !in files { assert p[..m][..i] == p[..i]; }
  }

  lemma GrewFits(files: Files, s: Server, c: Cache, c': Cache, path: Path)
    requires CacheFits(files, c) && Grew(s, c, c', path) && DirUse(files, path)
    ensures CacheFits(files, c')
  {
    forall p | p in c' && p !in c ensures p !in files { PrefixUse(files, path, p); }
  }

  lemma WithDirsFits(files: Files, t: Tree, dir: Path)
    requires TreeFits(files, t) && DirUse(files, dir)
    ensures TreeFits(files, WithDirs(t, dir))
  {
  }

  /** The session so far kept the discipline. */
  ghost predicate InStep(files: Files, nfs: NfsBackend)
    reads nfs
  {
    nfs.Valid() && TreeFits(files, TreeOf(nfs.srv)) && CacheFits(files, nfs.cache)
  }

  lemma NoFileCached(files: Files, s: Server, c: Cache, d: Path)
    requires CacheRight(s, c) && TreeFits(files, TreeOf(s)) && CacheFits(files, c)
    ensures !FileCached(s, c, d)
  {
    forall p | p in c ensures !IsFile(s, p) { assert TreeOf(s)[p] == s.nodes[p].isDir; }
  }

  lemma LinkTree(s: Server, p: Path)
    requires p !in s.nodes
    ensures TreeOf(Link(s, p, false)) == TreeOf(s)[p := false]
  {
  }

  lemma UnlinkTree(s: Server, p: Path)
    requires p in s.nodes
    ensures TreeOf(Unlink(s, p)) == TreeOf(s) - {p}
  {
  }

  lemma WithoutTree(s: Server, s': Server, d: Path)
    requires WasDir(s, d) && s'.nodes == Without(s, d)
    ensures TreeOf(s') == After(TreeOf(s), DropDir(d))
  {
  }

  lemma SameTree(s: Server, s': Server)
    requires s'.nodes == s.nodes
    ensures TreeOf(s') == TreeOf(s)
  {
  }

  method ResolveOrList(nfs: NfsBackend, op: Op, ghost files: Files)
    requires InStep(files, nfs) && Disciplined(files, op) && (op.Resolve? || op.List?)
    modifies nfs
    ensures InStep(files, nfs) && nfs.srv == old(nfs.srv)
  {
    ghost var c := nfs.cache;
    if op.Resolve? {
      var r := nfs.ResolveDir(op.path);
    } else {
      var r := nfs.ListDir(op.path);
    }
    GrewFits(files, nfs.srv, c, nfs.cache, op.path);
  }

  method PrepareKey(nfs: NfsBackend, op: Op, ghost files: Files)
    requires InStep(files, nfs) && Disciplined(files, op) && op.Prepare?
    modifies nfs
    ensures InStep(files, nfs) && TreeOf(nfs.srv) == After(TreeOf(old(nfs.srv)), op)
  {
    ghost var c := nfs.cache;
    ghost var m := Stop(TreeOf(nfs.srv), Parent(op.key), 0);
    PrefixDirUse(files, Parent(op.key), m);
    WithDirsFits(files, TreeOf(nfs.srv), Parent(op.key)[..m]);
    var ok := nfs.PrepareParents(op.key);
    forall p | p in nfs.cache && p !in c ensures p !in files { PrefixUse(files, Parent(op.key), p); }
  }

  method MakeKey(nfs: NfsBackend, op: Op, ghost files: Files)
    requires InStep(files, nfs) && Disciplined(files, op) && op.MakeFile?
    modifies nfs
    ensures InStep(files, nfs) && TreeOf(nfs.srv) == After(TreeOf(old(nfs.srv)), op)
  {
    ghost var s, c := nfs.srv, nfs.cache;
    var ok := nfs.CreateFile(op.key);
    GrewFits(files, s, c, nfs.cache, Parent(op.key));
    if op.key !in s.nodes { LinkTree(s, op.key); }
  }

  method DropKey(nfs: NfsBackend, op: Op, ghost files: Files)
    requires InStep(files, nfs) && Disciplined(files, op) && op.DropFile?
    modifies nfs
    ensures InStep(files, nfs) && TreeOf(nfs.srv) == After(TreeOf(old(nfs.srv)), op)
  {
    ghost var s, c := nfs.srv, nfs.cache;
    var ok := nfs.DeleteFile(op.key);
    GrewFits(files, s, c, nfs.cache, Parent(op.key));
    if op.key in s.nodes { UnlinkTree(s, op.key); }
  }

  method DropTree(nfs: NfsBackend, op: Op, ghost files: Files)
    requires InStep(files, nfs) && Disciplined(files, op) && op.DropDir?
    modifies nfs
    ensures InStep(files, nfs) && TreeOf(nfs.srv) == After(TreeOf(old(nfs.srv)), op)
  {
    ghost var s, c := nfs.srv, nfs.cache;
    NoFileCached(files, s, c, op.path);
    var deleter := new Deleter(nfs);
    var ok := deleter.DeleteDir(op.path);
    if WasDir(s, op.path) { WithoutTree(s, nfs.srv, op.path); } else { SameTree(s, nfs.srv); }
    forall p | p in nfs.cache && p !in c ensures p !in files {
      if p <= op.path { PrefixUse(files, op.path, p); } else { assert TreeOf(s)[p]; }
    }
  }

  /** One operation of the session. */
  method Perform(nfs: NfsBackend, op: Op, ghost files: Files)
    requires InStep(files, nfs) && Disciplined(files, op)
    modifies nfs
    ensures InStep(files, nfs) && TreeOf(nfs.srv) == After(TreeOf(old(nfs.srv)), op)
  {
    match op
    case Resolve(_) => ResolveOrList(nfs, op, files);
    case List(_) => ResolveOrList(nfs, op, files);
    case Prepare(_) => PrepareKey(nfs, op, files);
    case MakeFile(_) => MakeKey(nfs, op, files);
    case DropFile(_) => DropKey(nfs, op, files);
    case DropDir(_) => DropTree(nfs, op, files);
  }

  /**
   * A whole session from a fresh client: after every operation every cached handle is what LOOKUP from the root
   * returns, and in the end the tree is exactly what the operations mean.
   */
  method RunSession(server: Server, ops: seq<Op>, ghost files: Files) returns (nfs: NfsBackend)
    requires ServerOk(server) && TreeFits(files, TreeOf(server)) && forall op | op in ops :: Disciplined(files, op)
    ensures fresh(nfs) && TreeOf(nfs.srv) == AfterAll(TreeOf(server), ops)
    ensures forall p | p in nfs.cache :: LookupPath(nfs.srv, p) == Some(nfs.cache[p])
  {
    nfs := new NfsBackend(server);
    for i := 0 to |ops|
      invariant fresh(nfs) && InStep(files, nfs) && TreeOf(nfs.srv) == AfterAll(TreeOf(server), ops[..i])
    {
      assert ops[..i + 1][..i] == ops[..i];
      Perform(nfs, ops[i], files);
    }
    assert ops[..|ops|] == ops;
    forall p | p in nfs.cache ensures LookupPath(nfs.srv, p) == Some(nfs.cache[p]) {
      CacheAgreesWithLookup(nfs.srv, nfs.cache, p);
    }
  }
}
