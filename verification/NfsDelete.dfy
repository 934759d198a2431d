/**
 * Recursive delete over the cached NFS client: one pass collects directories and removes files, a second
 * pass removes the directories deepest first.
 */
module NfsDelete {
  import opened Prelude
  import opened Nfs

  /** Only files below d are missing. */
  ghost predicate Trimmed(s0: Server, s: Server, d: Path)
  {
    && (forall q | q in s.nodes :: q in s0.nodes && s.nodes[q] == s0.nodes[q])
    && (forall q | q in s0.nodes && q !in s.nodes :: d <= q && !s0.nodes[q].isDir)
  }

  /** All directories at or below d. */
  ghost function DirsBelow(s: Server, d: Path): (ds: set<Path>) { set q | q in s.nodes && d <= q && s.nodes[q].isDir }

  /** The tree with everything at or below d gone; the export root itself cannot go. */
  ghost function Without(s: Server, d: Path): (ns: map<Path, Node>)
  {
    map q | q in s.nodes && (!(d <= q) || q == []) :: s.nodes[q]
  }

  // ---------------------------------------------------------------- the cache during a delete

  predicate WasDir(s0: Server, p: Path) { p in s0.nodes && s0.nodes[p].isDir }

  /** Only directories were cached or evicted, a cached directory still exists, and what exists stays cached. */
  ghost predicate Track(s0: Server, c0: Cache, s: Server, c: Cache)
  {
    && (forall p | p in c0 && !WasDir(s0, p) :: p in c)
    && (forall p | p in c && p !in c0 :: WasDir(s0, p))
    && (forall p | p in c && WasDir(s0, p) :: p in s.nodes)
    && (forall p | p in c0 && p in s.nodes :: p in c && c[p] == c0[p])
  }

  predicate Shrunk(s0: Server, s: Server) { forall q | q in s.nodes :: q in s0.nodes && s.nodes[q] == s0.nodes[q] }

  /** Resolving an existing directory caches directories only. */
  lemma TrackGrew(s0: Server, c0: Cache, s: Server, c: Cache, c': Cache, path: Path)
    requires ServerOk(s) && Shrunk(s0, s) && Track(s0, c0, s, c) && Grew(s, c, c', path) && WasDir(s, path)
    ensures Track(s0, c0, s, c')
  {
    forall p | p in c' && p !in c ensures WasDir(s, p) {
      assert p == path[..|p|];
      PrefixIsDir(s, path, |p|);
      if |p| == |path| { assert p == path; }
    }
  }

  /** Removing a file changes nothing about cached directories. */
  lemma TrackFileGone(s0: Server, c0: Cache, s: Server, c: Cache, f: Path)
    requires Shrunk(s0, s) && Track(s0, c0, s, c) && IsFile(s, f)
    ensures Track(s0, c0, Unlink(s, f), c)
  {
  }

  /** A removed directory is evicted. */
  lemma TrackDirGone(s0: Server, c0: Cache, s: Server, c: Cache, p: Path)
    requires Shrunk(s0, s) && Track(s0, c0, s, c) && WasDir(s, p)
    ensures Track(s0, c0, Unlink(s, p), c - {p})
  {
  }

  /** Removing an empty directory and evicting it leaves server and cache in order. */
  lemma EvictKeeps(s0: Server, c0: Cache, s: Server, c: Cache, p: Path)
    requires ServerOk(s) && CacheSound(s, c) && Shrunk(s0, s) && Track(s0, c0, s, c)
    requires p != [] && WasDir(s, p) && Empty(s, p)
    ensures var s', c' := Unlink(s, p), c - {p};
            ServerOk(s') && CacheSound(s', c') && Shrunk(s0, s') && Track(s0, c0, s', c')
  {
    UnlinkOk(s, p);
    UnlinkAndCache(s, c, p);
    TrackDirGone(s0, c0, s, c, p);
  }

  /** Afterwards the cache is right if and only if no file of the deleted subtree was cached. */
  lemma TrackedRightIff(s0: Server, c0: Cache, s: Server, c: Cache, d: Path)
    requires CacheRight(s0, c0) && CacheSound(s, c) && Track(s0, c0, s, c) && s.nodes == Without(s0, d)
    requires WasDir(s0, [])
    ensures CacheRight(s, c) <==> !FileCached(s0, c0, d)
  {
    forall p | p in c && p !in s.nodes ensures p in c0 && d <= p && IsFile(s0, p) {}
    if FileCached(s0, c0, d) {
      var p :| p in c0 && d <= p && IsFile(s0, p);
      assert p in c && p !in s.nodes;
    }
  }

  /** Some file at or below d had been resolved as if it were a directory. */
  ghost predicate FileCached(s: Server, c: Cache, d: Path) { exists p :: p in c && d <= p && IsFile(s, p) }

  predicate DirAt(s: Server, d: Path, p: Path) { p in s.nodes && s.nodes[p].isDir && d <= p }

  /** Each collected directory comes after its parent, none twice. */
  predicate ParentsFirst(s: Server, d: Path, order: seq<Path>)
  {
    && (forall i | 0 <= i < |order| ::
          DirAt(s, d, order[i]) && (order[i] == d || (order[i] != [] && Parent(order[i]) in order[..i])))
    && (forall i, j | 0 <= i < j < |order| :: order[i] != order[j])
  }

  predicate Apart(ps: seq<Path>) { forall i, j | 0 <= i < |ps| && 0 <= j < |ps| && i != j :: !(ps[i] <= ps[j]) }

  predicate Pending(s: Server, d: Path, order: seq<Path>, p: Path)
  {
    DirAt(s, d, p) && (p == d || (p != [] && Parent(p) in order)) && forall v | v in order :: !(p <= v)
  }

  ghost predicate Covered(stack: seq<Path>, order: seq<Path>, q: Path)
  {
    q in order || exists p :: p in stack && p <= q
  }

  /**
   * The collecting pass: everything below d is collected or still under the stack; files of collected directories are
   * gone.
   */
  ghost predicate Collecting(s0: Server, s: Server, d: Path, stack: seq<Path>, order: seq<Path>)
  {
    && ServerOk(s0) && Trimmed(s0, s, d)
    && ParentsFirst(s0, d, order) && Apart(stack)
    && (forall p | p in stack :: Pending(s0, d, order, p))
    && (forall q | DirAt(s0, d, q) :: Covered(stack, order, q))
    && (forall q | q in s.nodes && q != [] && !s.nodes[q].isDir :: Parent(q) !in order)
  }

  function DirsIn(s: Server, cs: seq<Path>): (ds: seq<Path>)
  {
    if cs == [] then []
    else
      var ds := DirsIn(s, cs[..|cs| - 1]);
      var c := cs[|cs| - 1];
      if c in s.nodes && s.nodes[c].isDir then ds + [c] else ds
  }

  lemma {:induction false} DirsInMember(s: Server, cs: seq<Path>, c: Path)
    ensures c in DirsIn(s, cs) <==> c in cs && c in s.nodes && s.nodes[c].isDir
  {
    if cs != [] {
      DirsInMember(s, cs[..|cs| - 1], c);
      assert cs == cs[..|cs| - 1] + [cs[|cs| - 1]];
    }
  }

  function FilesIn(s: Server, cs: seq<Path>): (fs: set<Path>) { set c | c in cs && c in s.nodes && !s.nodes[c].isDir }

  lemma {:induction false} PrefixIsDir(s: Server, p: Path, i: nat)
    requires ServerOk(s) && p in s.nodes && i <= |p|
    ensures p[..i] in s.nodes && (i < |p| ==> s.nodes[p[..i]].isDir)
    decreases |p| - i
  {
    if i == |p| {
      assert p[..i] == p;
    } else {
      PrefixIsDir(s, p, i + 1);
      assert Parent(p[..i + 1]) == p[..i];
    }
  }

  /** A directory strictly below p passes through one of p's child directories. */
  lemma ThroughChild(s0: Server, s: Server, d: Path, p: Path, cs: seq<Path>, q: Path)
    requires ServerOk(s0) && Trimmed(s0, s, d) && Children(s, p, cs) && DirAt(s0, d, q) && p <= q && p != q
    ensures q[..|p| + 1] in DirsIn(s, cs)
  {
    var c := q[..|p| + 1];
    PrefixIsDir(s0, q, |p| + 1);
    if |p| + 1 == |q| { assert c == q; }
    assert Parent(c) == p;
    DirsInMember(s, cs, c);
  }

  lemma {:induction false} DirsApart(s: Server, p: Path, cs: seq<Path>)
    requires (forall c | c in cs :: c != [] && Parent(c) == p) && forall i, j | 0 <= i < j < |cs| :: cs[i] != cs[j]
    ensures Apart(DirsIn(s, cs))
  {
    if cs != [] {
      var init, z := cs[..|cs| - 1], cs[|cs| - 1];
      assert z in cs && forall c | c in init :: c in cs;
      DirsApart(s, p, init);
      var ds := DirsIn(s, init);
      forall i | 0 <= i < |ds| ensures !(ds[i] <= z) && !(z <= ds[i]) {
        assert ds[i] in ds;
        DirsInMember(s, init, ds[i]);
        assert |Parent(ds[i])| == |p| == |Parent(z)|;
      }
    }
  }

  lemma NotBelow(a: Path, b: Path, c: Path)
    requires a <= b && !(a <= c)
    ensures !(b <= c)
  {
  }

  lemma StackApart(s: Server, stack: seq<Path>, p: Path, cs: seq<Path>)
    requires Apart(stack + [p]) && Children(s, p, cs)
    ensures Apart(stack + DirsIn(s, cs))
  {
    var ds := DirsIn(s, cs);
    DirsApart(s, p, cs);
    var all := stack + ds;
    forall i, j | 0 <= i < |all| && 0 <= j < |all| && i != j
      ensures !(all[i] <= all[j])
    {
      if i < |stack| && j < |stack| {
        assert (stack + [p])[i] == all[i] && (stack + [p])[j] == all[j];
      } else if i >= |stack| && j >= |stack| {
        assert all[i] == ds[i - |stack|] && all[j] == ds[j - |stack|];
      } else {
        var q, c := if i < |stack| then all[i] else all[j], if i < |stack| then all[j] else all[i];
        var k := if i < |stack| then i else j;
        assert (stack + [p])[k] == q && (stack + [p])[|stack|] == p;
        assert c in ds;
        DirsInMember(s, cs, c);
        ApartFromChild(p, q, c);
      }
    }
  }

  lemma ApartFromChild(p: Path, q: Path, c: Path)
    requires p <= c && !(p <= q) && !(q <= p)
    ensures !(q <= c) && !(c <= q)
  {
  }

  /** Visiting one directory: it is collected, its child directories wait, its files go. */
  lemma CollectOne(s0: Server, s: Server, s': Server, d: Path, stack: seq<Path>, p: Path, order: seq<Path>,
                   cs: seq<Path>)
    requires Collecting(s0, s, d, stack + [p], order) && Children(s, p, cs)
    requires s'.nodes == s.nodes - FilesIn(s, cs)
    ensures Collecting(s0, s', d, stack + DirsIn(s, cs), order + [p])
  {
    var ds := DirsIn(s, cs);
    assert p in stack + [p];
    assert Pending(s0, d, order, p);
    StackApart(s, stack, p, cs);
    CollectedOrder(s0, d, order, p);
    forall c | c in stack + ds ensures Pending(s0, d, order + [p], c) {
      if c in stack {
        StillPending(s0, d, stack, p, order, c);
      } else {
        DirsInMember(s, cs, c);
        ChildPending(s0, s, d, p, order, c);
      }
    }
    forall q | DirAt(s0, d, q) ensures Covered(stack + ds, order + [p], q) {
      CoverAdvances(s0, s, d, stack, p, order, cs, q);
    }
    FilesGone(s, s', p, order, cs);
    TrimMore(s0, s, s', d, p, cs);
  }

  lemma CollectedOrder(s0: Server, d: Path, order: seq<Path>, p: Path)
    requires ParentsFirst(s0, d, order) && Pending(s0, d, order, p)
    ensures ParentsFirst(s0, d, order + [p])
  {
    var all := order + [p];
    forall i | 0 <= i < |all|
      ensures DirAt(s0, d, all[i]) && (all[i] == d || (all[i] != [] && Parent(all[i]) in all[..i]))
    {
      if i < |order| { assert all[..i] == order[..i]; } else { assert all[..i] == order; }
    }
    forall i, j | 0 <= i < j < |all| ensures all[i] != all[j] {
      if j == |order| { assert all[i] in order; }
    }
  }

  lemma StillPending(s0: Server, d: Path, stack: seq<Path>, p: Path, order: seq<Path>, c: Path)
    requires Apart(stack + [p]) && c in stack && Pending(s0, d, order, c)
    ensures Pending(s0, d, order + [p], c)
  {
    var i :| 0 <= i < |stack| && stack[i] == c;
    assert (stack + [p])[i] == c && (stack + [p])[|stack|] == p;
  }

  lemma ChildPending(s0: Server, s: Server, d: Path, p: Path, order: seq<Path>, c: Path)
    requires Trimmed(s0, s, d) && Pending(s0, d, order, p)
    requires c in s.nodes && s.nodes[c].isDir && c != [] && Parent(c) == p
    ensures Pending(s0, d, order + [p], c)
  {
    forall v | v in order + [p] ensures !(c <= v) {
      if v in order { NotBelow(p, c, v); }
    }
  }

  lemma CoverAdvances(s0: Server, s: Server, d: Path, stack: seq<Path>, p: Path, order: seq<Path>, cs: seq<Path>,
                      q: Path)
    requires ServerOk(s0) && Trimmed(s0, s, d) && Children(s, p, cs) && DirAt(s0, d, q)
    requires Covered(stack + [p], order, q)
    ensures Covered(stack + DirsIn(s, cs), order + [p], q)
  {
    if q !in order && q != p {
      var x :| x in stack + [p] && x <= q;
      if x in stack {
        assert x in stack + DirsIn(s, cs);
      } else {
        ThroughChild(s0, s, d, p, cs, q);
        assert q[..|p| + 1] in stack + DirsIn(s, cs);
      }
    }
  }

  lemma FilesGone(s: Server, s': Server, p: Path, order: seq<Path>, cs: seq<Path>)
    requires Children(s, p, cs) && s'.nodes == s.nodes - FilesIn(s, cs)
    requires forall q | q in s.nodes && q != [] && !s.nodes[q].isDir :: Parent(q) !in order
    ensures forall q | q in s'.nodes && q != [] && !s'.nodes[q].isDir :: Parent(q) !in order + [p]
  {
    forall q | q in s'.nodes && q != [] && !s'.nodes[q].isDir ensures Parent(q) !in order + [p] {
      assert q in cs <==> Parent(q) == p;
    }
  }

  lemma TrimMore(s0: Server, s: Server, s': Server, d: Path, p: Path, cs: seq<Path>)
    requires Trimmed(s0, s, d) && d <= p && Children(s, p, cs) && s'.nodes == s.nodes - FilesIn(s, cs)
    ensures Trimmed(s0, s', d)
  {
    forall q | q in FilesIn(s, cs) ensures d <= q && !s0.nodes[q].isDir { assert Parent(q) == p; }
  }

  /** When the stack is empty, what is left below d is exactly the collected directories. */
  predicate OnlyDirs(s: Server, d: Path, order: seq<Path>) { forall q | q in s.nodes && d <= q :: q in order }

  /** The parent of something strictly below d is a directory at or below d. */
  lemma ParentAt(s0: Server, d: Path, q: Path)
    requires ServerOk(s0) && q in s0.nodes && d <= q && q != d
    ensures q != [] && DirAt(s0, d, Parent(q))
  {
  }

  lemma CoveredByNone(order: seq<Path>, q: Path)
    requires Covered([], order, q)
    ensures q in order
  {
  }

  lemma CollectedAll(s0: Server, s: Server, d: Path, order: seq<Path>)
    requires Collecting(s0, s, d, [], order) && DirAt(s0, d, d)
    ensures OnlyDirs(s, d, order)
  {
    forall q | q in s.nodes && d <= q ensures q in order {
      if q != d {
        ParentAt(s0, d, q);
        CoveredByNone(order, Parent(q));
      }
      assert DirAt(s0, d, q);
      CoveredByNone(order, q);
    }
  }

  /** The tree while directories are being removed: all but the last ones collected, and always the export root. */
  ghost predicate Pruned(s1: Server, s: Server, order: seq<Path>, k: nat)
    requires k <= |order|
  {
    && (forall q :: q in s.nodes <==> q in s1.nodes && (q == [] || q !in order[k..]))
    && (forall q | q in s.nodes :: s.nodes[q] == s1.nodes[q])
  }

  /** RMDIR is only ever asked of an empty directory: everything inside was collected later and is already gone. */
  lemma DeepestIsEmpty(s0: Server, s1: Server, s: Server, d: Path, order: seq<Path>, k: nat)
    requires k < |order| && ParentsFirst(s0, d, order) && OnlyDirs(s1, d, order) && Pruned(s1, s, order, k + 1)
    ensures Empty(s, order[k])
  {
    var p := order[k];
    assert d <= p;
    forall q | q in s.nodes && q != [] ensures Parent(q) != p {
      if d <= q && q != d {
        var j := IndexUpTo(order, k, q);
        assert Parent(q) in order[..j];
      } else {
        ParentBelow(d, q);
      }
    }
  }

  lemma IndexUpTo(order: seq<Path>, k: nat, q: Path) returns (j: nat)
    requires k < |order| && q in order && q !in order[k + 1..]
    ensures j <= k && order[j] == q
  {
    assert order == order[..k + 1] + order[k + 1..];
    j :| 0 <= j < |order[..k + 1]| && order[..k + 1][j] == q;
  }

  lemma ParentBelow(d: Path, q: Path)
    requires q != []
    ensures d <= Parent(q) ==> d <= q && d != q
  {
  }

  lemma PruneOne(s1: Server, s: Server, order: seq<Path>, k: nat)
    requires k < |order| && Pruned(s1, s, order, k + 1) && order[k] in s.nodes
    ensures Pruned(s1, if order[k] == [] then s else Unlink(s, order[k]), order, k)
  {
    assert order[k..] == [order[k]] + order[k + 1..];
  }

  /** Everything left below d is collected, parents first, and still there. */
  ghost predicate Ready(s0: Server, s1: Server, d: Path, order: seq<Path>)
  {
    ParentsFirst(s0, d, order) && OnlyDirs(s1, d, order) && forall p | p in order :: WasDir(s1, p)
  }

  lemma PruneStarts(s1: Server, order: seq<Path>)
    ensures Pruned(s1, s1, order, |order|)
  {
  }

  class Deleter {
    const nfs: NfsBackend

    constructor (nfs: NfsBackend)
      ensures this.nfs == nfs
    {
      this.nfs := nfs;
    }

    /** The client is usable and its cache is tracked since the delete began. */
    ghost predicate Good(s0: Server, c0: Cache)
      reads this, nfs
    {
      nfs.Sound() && Shrunk(s0, nfs.srv) && Track(s0, c0, nfs.srv, nfs.cache)
    }

    /** Remove one file of a directory, through the cached parent handle. */
    method RemoveChild(p: Path, c: Path, ghost s0: Server, ghost c0: Cache)
      requires Good(s0, c0) && WasDir(nfs.srv, p) && IsFile(nfs.srv, c) && c != [] && Parent(c) == p
      modifies nfs
      ensures Good(s0, c0) && nfs.srv.nodes == old(nfs.srv).nodes - {c}
    {
      ghost var s := nfs.srv;
      ghost var cache := nfs.cache;
      var ok := nfs.DeleteFile(c);
      TrackGrew(s0, c0, s, cache, nfs.cache, p);
      TrackFileGone(s0, c0, s, nfs.cache, c);
    }

    /** The i-th child: a folder goes on the stack, a file is removed. */
    method SweepOne(p: Path, cs: seq<Path>, i: nat, stack: seq<Path>, ghost stack0: seq<Path>, ghost s: Server,
                    ghost s0: Server, ghost c0: Cache)
      returns (stack': seq<Path>)
      requires Good(s0, c0) && WasDir(s, p) && Children(s, p, cs) && i < |cs|
      requires nfs.srv.nodes == s.nodes - FilesIn(s, cs[..i]) && stack == stack0 + DirsIn(s, cs[..i])
      modifies nfs
      ensures Good(s0, c0) && nfs.srv.nodes == s.nodes - FilesIn(s, cs[..i + 1])
      ensures stack' == stack0 + DirsIn(s, cs[..i + 1])
    {
      ChildStays(s, p, cs, i);
      FilesStep(s, cs, i);
      DirsStep(s, cs, i);
      stack' := stack;
      if nfs.srv.nodes[cs[i]].isDir { stack' := stack' + [cs[i]]; } else { RemoveChild(p, cs[i], s0, c0); }
    }

    /** Push child directories, remove child files. */
    method Sweep(p: Path, cs: seq<Path>, stack: seq<Path>, ghost s0: Server, ghost c0: Cache)
      returns (stack': seq<Path>)
      requires Good(s0, c0) && WasDir(nfs.srv, p) && Children(nfs.srv, p, cs)
      modifies nfs
      ensures Good(s0, c0) && nfs.srv.nodes == old(nfs.srv).nodes - FilesIn(old(nfs.srv), cs)
      ensures stack' == stack + DirsIn(old(nfs.srv), cs)
    {
      ghost var s := nfs.srv;
      stack' := stack;
      for i := 0 to |cs|
        invariant Good(s0, c0) && nfs.srv.nodes == s.nodes - FilesIn(s, cs[..i])
        invariant stack' == stack + DirsIn(s, cs[..i])
      {
        stack' := SweepOne(p, cs, i, stack', stack, s, s0, c0);
      }
      assert cs[..|cs|] == cs;
    }

    /** The handle of a directory that exists. */
    method ResolveExisting(p: Path, ghost s0: Server, ghost c0: Cache) returns (h: nat)
      requires Good(s0, c0) && WasDir(nfs.srv, p)
      modifies nfs`cache
      ensures Good(s0, c0) && h == nfs.srv.nodes[p].handle
    {
      ghost var cache := nfs.cache;
      var r := nfs.ResolveDir(p);
      TrackGrew(s0, c0, nfs.srv, cache, nfs.cache, p);
      h := r.value;
    }

    /** List a directory that exists. */
    method ListExisting(p: Path, ghost s0: Server, ghost c0: Cache) returns (cs: seq<Path>)
      requires Good(s0, c0) && WasDir(nfs.srv, p)
      modifies nfs`cache
      ensures Good(s0, c0) && Children(nfs.srv, p, cs)
    {
      ghost var cache := nfs.cache;
      var listed := nfs.ListDir(p);
      TrackGrew(s0, c0, nfs.srv, cache, nfs.cache, p);
      cs := listed.value;
    }

    /** One turn of the first pass: list the popped directory, queue its folders, remove its files. */
    method CollectNext(d: Path, stack: seq<Path>, order: seq<Path>, ghost s0: Server, ghost c0: Cache)
      returns (stack': seq<Path>, order': seq<Path>)
      requires Good(s0, c0) && stack != [] && Collecting(s0, nfs.srv, d, stack, order)
      modifies nfs
      ensures Good(s0, c0) && Collecting(s0, nfs.srv, d, stack', order')
      ensures Left(s0, d, order') < Left(s0, d, order)
    {
      var p, rest := stack[|stack| - 1], stack[..|stack| - 1];
      assert stack == rest + [p];
      assert p in stack;
      NotCollected(s0, nfs.srv, d, stack, order, p);
      LeftShrinks(s0, d, order, p);
      assert p in nfs.srv.nodes;
      ghost var s, cs := nfs.srv, [];
      stack', cs := ListAndSweep(p, rest, s0, c0);
      CollectOne(s0, s, nfs.srv, d, rest, p, order, cs);
      order' := order + [p];
    }

    method ListAndSweep(p: Path, stack: seq<Path>, ghost s0: Server, ghost c0: Cache)
      returns (stack': seq<Path>, ghost cs: seq<Path>)
      requires Good(s0, c0) && WasDir(nfs.srv, p)
      modifies nfs
      ensures Good(s0, c0) && Children(old(nfs.srv), p, cs)
      ensures nfs.srv.nodes == old(nfs.srv).nodes - FilesIn(old(nfs.srv), cs)
      ensures stack' == stack + DirsIn(old(nfs.srv), cs)
    {
      var listed := ListExisting(p, s0, c0);
      cs := listed;
      stack' := Sweep(p, listed, stack, s0, c0);
    }

    /** First pass: collect the directory tree, deleting files on the way. */
    method Collect(d: Path, ghost s0: Server, ghost c0: Cache) returns (order: seq<Path>)
      requires Good(s0, c0) && nfs.srv == s0 && WasDir(s0, d)
      modifies nfs
      ensures Good(s0, c0) && Collecting(s0, nfs.srv, d, [], order)
    {
      var stack := [d];
      order := [];
      StartCollecting(s0, d);
      while stack != []
        invariant Good(s0, c0) && Collecting(s0, nfs.srv, d, stack, order)
        decreases Left(s0, d, order)
      {
        stack, order := CollectNext(d, stack, order, s0, c0);
      }
    }

    /** Second pass: remove the collected directories, last collected first. */
    method RemoveDirs(d: Path, order: seq<Path>, ghost s0: Server, ghost c0: Cache) returns (ok: bool)
      requires Good(s0, c0) && Ready(s0, nfs.srv, d, order)
      modifies nfs
      ensures Good(s0, c0) && Pruned(old(nfs.srv), nfs.srv, order, 0) && (order != [] ==> (ok <==> order[0] != []))
    {
      ghost var s1 := nfs.srv;
      var k: nat := |order|;
      ok := true;
      PruneStarts(s1, order);
      while k > 0
        invariant k <= |order| && Good(s0, c0) && Pruned(s1, nfs.srv, order, k)
        invariant k < |order| ==> (ok <==> order[k] != [])
      {
        k := k - 1;
        ok := RemoveLast(d, order, k, s0, c0, s1); // only the root can fail, and it comes last
      }
    }

    /** RMDIR of a collected directory, asked only when it is empty; for the root the empty name is refused. */
    method RemoveLast(d: Path, order: seq<Path>, k: nat, ghost s0: Server, ghost c0: Cache, ghost s1: Server)
      returns (removed: bool)
      requires Good(s0, c0) && k < |order| && Ready(s0, s1, d, order) && Pruned(s1, nfs.srv, order, k + 1)
      modifies nfs
      ensures Good(s0, c0) && Pruned(s1, nfs.srv, order, k) && (removed <==> order[k] != [])
    {
      var p := order[k];
      NotYetGone(order, k, s0, d);
      assert p in order;
      DeepestIsEmpty(s0, s1, nfs.srv, d, order, k);
      PruneOne(s1, nfs.srv, order, k);
      removed := p != [];
      if p == [] {
        LookupIs(nfs.srv, [], "");
        assert RmDir(nfs.srv, ROOT, "") == Err(Acces);
      } else {
        RemoveEmpty(p, s0, c0);
      }
    }

    method RemoveEmpty(p: Path, ghost s0: Server, ghost c0: Cache)
      requires Good(s0, c0) && p != [] && WasDir(nfs.srv, p) && Empty(nfs.srv, p)
      modifies nfs
      ensures Good(s0, c0) && nfs.srv == Unlink(old(nfs.srv), p)
    {
      SplitPath(p);
      var dir := ResolveExisting(Parent(p), s0, c0);
      LookupIs(nfs.srv, Parent(p), Name(p));
      var res := RmDir(nfs.srv, dir, Name(p));
      EvictKeeps(s0, c0, nfs.srv, nfs.cache, p);
      nfs.srv := res.value;
      nfs.cache := nfs.cache - {p};
    }

    /**
     * Delete a directory: terminates, never asks RMDIR of a non-empty directory, and removes exactly the subtree.
     * A missing path or a file is an error that changes nothing; the export root is emptied and then reported as an
     * error. The cache stays right if and only if no file of the subtree had been resolved as a directory.
     */
    method DeleteDir(d: Path) returns (ok: bool)
      requires nfs.Sound()
      modifies nfs
      ensures nfs.Sound() && (ok <==> WasDir(old(nfs.srv), d) && d != [])
      ensures nfs.srv.nodes == if WasDir(old(nfs.srv), d) then Without(old(nfs.srv), d) else old(nfs.srv).nodes
      ensures old(nfs.Valid()) ==>
                (nfs.Valid() <==> !(WasDir(old(nfs.srv), d) && FileCached(old(nfs.srv), old(nfs.cache), d)))
      ensures forall p | p in nfs.cache && p !in old(nfs.cache) :: p <= d || WasDir(old(nfs.srv), p)
      ensures forall p | p in old(nfs.cache) && p in nfs.srv.nodes ::
                p in nfs.cache && nfs.cache[p] == old(nfs.cache)[p]
    {
      ghost var s0 := nfs.srv;
      ghost var c0 := nfs.cache;
      var listed := nfs.ListDir(d);
      if listed.Err? { return false; }
      TrackGrew(s0, c0, s0, c0, nfs.cache, d);
      ok := DeleteExisting(d, s0, c0);
      if CacheRight(s0, c0) { TrackedRightIff(s0, c0, nfs.srv, nfs.cache, d); }
    }

    method DeleteExisting(d: Path, ghost s0: Server, ghost c0: Cache) returns (ok: bool)
      requires Good(s0, c0) && nfs.srv == s0 && WasDir(s0, d)
      modifies nfs
      ensures Good(s0, c0) && nfs.srv.nodes == Without(s0, d) && (ok <==> d != [])
    {
      var order := Collect(d, s0, c0);
      ghost var s1 := nfs.srv;
      CollectedAll(s0, s1, d, order);
      CollectedDirs(s0, s1, d, order);
      FirstCollected(s0, s1, d, order);
      ok := RemoveDirs(d, order, s0, c0);
      SubtreeGone(s0, s1, nfs.srv, d, order);
    }
  }

  /** What is deleted is collected first, so its own RMDIR comes last. */
  lemma FirstCollected(s0: Server, s: Server, d: Path, order: seq<Path>)
    requires Collecting(s0, s, d, [], order) && DirAt(s0, d, d)
    ensures order != [] && order[0] == d
  {
    assert Covered([], order, d);
    CoveredByNone(order, d);
    assert DirAt(s0, d, order[0]);
  }

  lemma CollectedDirs(s0: Server, s: Server, d: Path, order: seq<Path>)
    requires Collecting(s0, s, d, [], order)
    ensures forall p | p in order :: WasDir(s, p)
  {
    forall p | p in order ensures WasDir(s, p) {
      var i :| 0 <= i < |order| && order[i] == p;
      assert DirAt(s0, d, order[i]);
    }
  }

  lemma StartCollecting(s: Server, d: Path)
    requires ServerOk(s) && DirAt(s, d, d)
    ensures Collecting(s, s, d, [d], [])
  {
    assert d in [d];
    assert forall q | DirAt(s, d, q) :: Covered([d], [], q);
  }

  /** Directories not collected yet. */
  ghost function Left(s: Server, d: Path, order: seq<Path>): (n: nat) { |DirsBelow(s, d) - (set x | x in order)| }

  lemma LeftShrinks(s: Server, d: Path, order: seq<Path>, p: Path)
    requires p in DirsBelow(s, d) && p !in order
    ensures Left(s, d, order + [p]) < Left(s, d, order)
  {
    var a, b := DirsBelow(s, d) - (set x | x in order), DirsBelow(s, d) - (set x | x in order + [p]);
    assert b == a - {p};
  }

  lemma NotCollected(s0: Server, s: Server, d: Path, stack: seq<Path>, order: seq<Path>, p: Path)
    requires Collecting(s0, s, d, stack, order) && p in stack
    ensures p !in order && p in DirsBelow(s0, d)
  {
  }

  /** While earlier files are removed, the directory and its i-th child are still there. */
  lemma ChildStays(s: Server, p: Path, cs: seq<Path>, i: nat)
    requires i < |cs| && Children(s, p, cs) && p in s.nodes && s.nodes[p].isDir
    ensures cs[i] in s.nodes && cs[i] != [] && Parent(cs[i]) == p
    ensures cs[i] !in FilesIn(s, cs[..i]) && p !in FilesIn(s, cs[..i])
  {
  }

  lemma FilesStep(s: Server, cs: seq<Path>, i: nat)
    requires i < |cs| && cs[i] in s.nodes
    ensures FilesIn(s, cs[..i + 1]) == FilesIn(s, cs[..i]) + (if s.nodes[cs[i]].isDir then {} else {cs[i]})
  {
  }

  lemma DirsStep(s: Server, cs: seq<Path>, i: nat)
    requires i < |cs| && cs[i] in s.nodes
    ensures DirsIn(s, cs[..i + 1]) == DirsIn(s, cs[..i]) + (if s.nodes[cs[i]].isDir then [cs[i]] else [])
  {
    assert cs[..i + 1][..i] == cs[..i];
  }

  lemma NotYetGone(order: seq<Path>, k: nat, s0: Server, d: Path)
    requires k < |order| && ParentsFirst(s0, d, order)
    ensures order[k] !in order[k + 1..]
  {
  }

  lemma SubtreeGone(s0: Server, s1: Server, s: Server, d: Path, order: seq<Path>)
    requires WasDir(s0, []) && Trimmed(s0, s1, d) && ParentsFirst(s0, d, order) && OnlyDirs(s1, d, order)
    requires Pruned(s1, s, order, 0)
    ensures s.nodes == Without(s0, d)
  {
    assert order[0..] == order;
    forall q ensures q in s.nodes <==> q in Without(s0, d) {
      if q in order {
        var i :| 0 <= i < |order| && order[i] == q;
        assert DirAt(s0, d, order[i]);
      }
    }
  }
}
