/**
 * What the worker's operations mean to a user: which names a directory knows before and after, with no hash
 * in sight. Each lemma covers every directory and every name, so it also says what an operation leaves alone.
 */
module IndexEffects {
  import opened Prelude
  import opened Paths
  import opened Manifests
  import opened Index

  /** What a directory knows under a name: the size of a file, and the cached size of a folder. */
  datatype Known = Known(file: Option<nat>, folder: Option<Option<nat>>)

  const NOTHING: Known := Known(None, None)

  function Lookup(seg: Naming, ix: Index, d: string, name: string): (k: Known)
  {
    var m, key := Of(ix, d), seg(name);
    Known(if key in m.files then Some(m.files[key].size) else None,
          if key in m.folders then Some(m.folders[key].size) else None)
  }

  /** The names the statement is about have distinct on-disk segments. */
  ghost predicate Apart(seg: Naming, names: set<string>)
  {
    forall n, k | n in names && k in names && seg(n) == seg(k) :: n == k
  }

  lemma CreateEffect(seg: Naming, ix: Index, dir: string, name: string, d: string, x: string)
    requires Apart(seg, {name, x})
    ensures var before := Lookup(seg, ix, d, x);
            Lookup(seg, Apply(seg, ix, CreateFolder(dir, name)), d, x) ==
            if d == dir && x == name && before.folder.None? then before.(folder := Some(None)) else before
  {
  }

  lemma DeleteEffect(seg: Naming, ix: Index, dir: string, name: string, isDir: bool, d: string, x: string)
    requires Apart(seg, {name, x})
    ensures Lookup(seg, Apply(seg, ix, Delete(dir, name, isDir)), d, x) ==
            if (d == dir && x == name) || (isDir && dir + seg(name) + "/" <= d) then NOTHING else Lookup(seg, ix, d, x)
  {
  }

  lemma CacheSizeEffect(seg: Naming, ix: Index, dir: string, name: string, plain: nat, cipher: nat, at: int, d: string,
                        x: string)
    requires Apart(seg, {name, x})
    ensures var before := Lookup(seg, ix, d, x);
            Lookup(seg, Apply(seg, ix, CacheSize(dir, name, plain, cipher, at)), d, x) ==
            if d == dir && x == name && before.folder.Some? then before.(folder := Some(Some(plain))) else before
  {
  }

  /** What is left of a name, and what is carried away, when a file is preferred over a folder. */
  function Remaining(k: Known): (r: Known) { if k.file.Some? then k.(file := None) else NOTHING }

  function Carried(k: Known): (r: Known) { if k.file.Some? then k.(folder := None) else k }

  /** What a directory knows under a name once a folder's manifests were carried along. */
  function Came(seg: Naming, ix: Index, isDir: bool, from: string, to: string, d: string, x: string): (k: Known)
  {
    if isDir && to <= d then Lookup(seg, ix, from + d[|to|..], x)
    else if isDir && from <= d then NOTHING
    else Lookup(seg, ix, d, x)
  }

  lemma CameIs(seg: Naming, ix: Index, isDir: bool, from: string, to: string, d: string, x: string)
    ensures Lookup(seg, if isDir then Relocate(ix, from, to) else ix, d, x) == Came(seg, ix, isDir, from, to, d, x)
  {
    OfRelocate(ix, from, to, d);
  }

  /**
   * Rename: refused for a blank, slashed or taken new name, skipped for the same one; otherwise the entry answers to
   * the new name and no longer to the old one, and every directory of a folder is known in its new place.
   */
  lemma RenameEffect(seg: Naming, ix: Index, dir: string, old_: string, new_: string, isDir: bool, d: string, x: string)
    requires Apart(seg, {old_, new_, x})
    ensures var moved := Lookup(seg, ix, dir, old_);
            var refused := Blank(new_) || !NoSlash(new_) || old_ == new_ || Lookup(seg, ix, dir, new_) != NOTHING;
            Lookup(seg, Apply(seg, ix, Rename(dir, old_, new_, isDir)), d, x) ==
            if refused then Lookup(seg, ix, d, x)
            else if d == dir && x == old_ then Remaining(moved)
            else if d == dir && x == new_ then Carried(moved)
            else Came(seg, ix, isDir, dir + seg(old_) + "/", dir + seg(new_) + "/", d, x)
  {
    var names := {old_, new_, x};
    assert old_ in names && new_ in names && x in names;
    var from, to := dir + seg(old_) + "/", dir + seg(new_) + "/";
    OfRelocate(ix, from, to, dir);
    CameIs(seg, ix, isDir, from, to, d, x);
  }

  lemma MoveRecordEffect(seg: Naming, ix: Index, src: string, dest: string, name: string, d: string, x: string)
    requires Apart(seg, {name, x}) && dest != src
    ensures Lookup(seg, MoveRecord(ix, src, dest, seg(name)), d, x) ==
            AfterMove(Lookup(seg, ix, d, x), Lookup(seg, ix, src, name), d == src && x == name, d == dest && x == name)
  {
  }

  /** What a place knows after a move, from what it and the moved item knew before. */
  function AfterMove(here: Known, moved: Known, isSource: bool, isTarget: bool): (k: Known)
  {
    if isSource then Remaining(here)
    else if isTarget && moved.file.Some? then here.(file := moved.file)
    else if isTarget && moved.folder.Some? then here.(folder := moved.folder)
    else here
  }

  /**
   * Move: skipped when it stays in place or would land inside itself; otherwise the entry leaves the source directory
   * and replaces one of its kind and name in the destination, and every directory of a folder is known in its new
   * place, also when that place contains the old one.
   */
  lemma MoveEffect(seg: Naming, ix: Index, src: string, dest: string, name: string, isDir: bool, d: string, x: string)
    requires Apart(seg, {name, x})
    ensures var from, to := src + seg(name) + "/", dest + seg(name) + "/";
            Lookup(seg, Apply(seg, ix, Move(src, dest, name, isDir)), d, x) ==
            if dest == src || (isDir && from <= dest) then Lookup(seg, ix, d, x)
            else
              AfterMove(Came(seg, ix, isDir, from, to, d, x), Came(seg, ix, isDir, from, to, src, name),
                        d == src && x == name, d == dest && x == name)
  {
    var from, to := src + seg(name) + "/", dest + seg(name) + "/";
    CameIs(seg, ix, isDir, from, to, d, x);
    CameIs(seg, ix, isDir, from, to, src, name);
    if dest != src { MoveRecordEffect(seg, if isDir then Relocate(ix, from, to) else ix, src, dest, name, d, x); }
  }
}
