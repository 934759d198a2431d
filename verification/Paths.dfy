/** Slash-separated keys: splitting, joining, leaves, parents, and the on-disk form of a logical path. */
module Paths {
  import opened Prelude

  predicate NoSlash(s: string) { '/' !in s }

  /** A directory prefix as the worker builds it: the root, or a key ending in a slash. */
  predicate DirKey(d: string) { d == "" || d[|d| - 1] == '/' }

  function TrimEnd(s: string): (t: string)
    ensures |t| <= |s| && t == s[..|t|]
    ensures t != "" ==> t[|t| - 1] != '/'
  {
    if s != "" && s[|s| - 1] == '/' then TrimEnd(s[..|s| - 1]) else s
  }

  /** Index just past the last slash, 0 when there is none. */
  function AfterLastSlash(s: string): (i: nat)
    ensures i <= |s| && NoSlash(s[i..]) && (i > 0 ==> s[i - 1] == '/')
  {
    if s == "" then 0
    else if s[|s| - 1] == '/' then |s|
    else
      var i := AfterLastSlash(s[..|s| - 1]);
      assert s[i..] == s[..|s| - 1][i..] + [s[|s| - 1]];
      i
  }

  function FirstSlash(s: string): (i: nat)
    ensures i <= |s| && NoSlash(s[..i]) && (i < |s| ==> s[i] == '/')
  {
    if s == "" || s[0] == '/' then 0
    else
      var i := FirstSlash(s[1..]);
      assert s[..i + 1] == [s[0]] + s[1..][..i];
      i + 1
  }

  function LeafOf(key: string): (leaf: string)
  {
    var t := TrimEnd(key);
    t[AfterLastSlash(t)..]
  }

  function ParentPrefix(key: string): (p: string)
  {
    var t := TrimEnd(key);
    t[..AfterLastSlash(t)]
  }

  function SplitSlash(s: string): (parts: seq<string>)
    ensures |parts| >= 1
    decreases |s|
  {
    var i := FirstSlash(s);
    if i == |s| then [s] else [s[..i]] + SplitSlash(s[i + 1..])
  }

  function JoinSlash(parts: seq<string>): (s: string)
  {
    if |parts| == 0 then ""
    else if |parts| == 1 then parts[0]
    else parts[0] + "/" + JoinSlash(parts[1..])
  }

  /** On-disk form of a path: every non-empty segment is replaced by its on-disk name. */
  function OnDiskPath(seg: string -> string, path: string): (k: string)
  {
    JoinSlash(OnDiskSegments(seg, SplitSlash(path)))
  }

  function OnDiskSegments(seg: string -> string, parts: seq<string>): (r: seq<string>)
    ensures |r| == |parts|
    ensures forall i | 0 <= i < |parts| :: r[i] == if parts[i] == "" then "" else seg(parts[i])
  {
    seq(|parts|, i requires 0 <= i < |parts| => if parts[i] == "" then "" else seg(parts[i]))
  }

  predicate Segments(parts: seq<string>)
  {
    |parts| >= 1 && forall s | s in parts :: s != "" && NoSlash(s)
  }

  lemma FirstSlashAt(a: string, b: string)
    requires NoSlash(a)
    ensures FirstSlash(a + "/" + b) == |a|
    ensures FirstSlash(a) == |a|
  {
    if a != "" {
      assert (a + "/" + b)[1..] == a[1..] + "/" + b;
      FirstSlashAt(a[1..], b);
    }
  }

  lemma {:induction false} SlashFound(x: string)
    requires x != "" && x[|x| - 1] == '/'
    ensures FirstSlash(x) < |x|
  {
    if x[0] != '/' { SlashFound(x[1..]); }
  }

  lemma SplitFirst(a: string, b: string)
    requires NoSlash(a)
    ensures SplitSlash(a) == [a]
    ensures SplitSlash(a + "/" + b) == [a] + SplitSlash(b)
  {
    FirstSlashAt(a, b);
    var s := a + "/" + b;
    assert s[..|a|] == a && s[|a| + 1..] == b;
  }

  /** Splitting undoes joining whenever no segment contains a slash. */
  lemma {:induction false} SplitJoin(parts: seq<string>)
    requires |parts| >= 1 && forall s | s in parts :: NoSlash(s)
    ensures SplitSlash(JoinSlash(parts)) == parts
  {
    assert NoSlash(parts[0]);
    if |parts| == 1 {
      SplitFirst(parts[0], "");
    } else {
      SplitJoin(parts[1..]);
      SplitFirst(parts[0], JoinSlash(parts[1..]));
    }
  }

  lemma TrimSlashes(a: string)
    requires a != "" && a[|a| - 1] != '/'
    ensures TrimEnd(a + "/") == a && TrimEnd(a) == a
  {
  }

  lemma LastSlashOf(d: string, leaf: string)
    requires NoSlash(leaf)
    ensures AfterLastSlash(d + leaf) == AfterLastSlash(d)
  {
    if leaf == "" {
      assert d + leaf == d;
    } else {
      assert (d + leaf)[..|d + leaf| - 1] == d + leaf[..|leaf| - 1];
      LastSlashOf(d, leaf[..|leaf| - 1]);
    }
  }

  /** The directory and the leaf of a child key can be read back from it, for a file and for a folder. */
  lemma ChildKey(d: string, leaf: string)
    requires leaf != "" && NoSlash(leaf) && DirKey(d)
    ensures LeafOf(d + leaf) == leaf && LeafOf(d + leaf + "/") == leaf
    ensures ParentPrefix(d + leaf) == d && ParentPrefix(d + leaf + "/") == d
  {
    TrimSlashes(d + leaf);
    LastSlashOf(d, leaf);
    assert (d + leaf)[|d|..] == leaf && (d + leaf)[..|d|] == d;
  }

  /** The documented composition guarantee holds exactly for directory prefixes. */
  lemma ParentPrefixComposes(d: string, leaf: string)
    requires leaf != "" && NoSlash(leaf)
    ensures ParentPrefix(d + leaf + "/") == d <==> DirKey(d)
  {
    if DirKey(d) {
      ChildKey(d, leaf);
    } else {
      TrimSlashes(d + leaf);
      LastSlashOf(d, leaf);
    }
  }

  /** Two folders of one directory nest only when they are the same folder. */
  lemma SiblingsApart(x: string, y: string)
    requires NoSlash(x) && NoSlash(y) && x + "/" <= y + "/"
    ensures x == y
  {
    assert (y + "/")[|x|] == (x + "/")[|x|] == '/';
    assert x == (y + "/")[..|x|];
  }

  /** The same below a common directory. */
  lemma ChildApart(dir: string, x: string, y: string)
    requires NoSlash(x) && NoSlash(y)
    ensures dir + x + "/" <= dir + y + "/" ==> x == y
  {
    var a, b := dir + x + "/", dir + y + "/";
    if a <= b {
      assert a[|dir|..] == x + "/" && b[|dir|..] == y + "/";
      assert a[|dir|..] == b[|dir|..|a|];
      SiblingsApart(x, y);
    }
  }
}
