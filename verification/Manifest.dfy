/**
 * The per-directory manifest: on-disk name to real name and size. `Manifest` is the value;
 * `LiveManifest` is the object the worker edits in place.
 */
module Manifests {
  import opened Prelude

  const MANIFEST_KEY: string := ".rse"
  const VAULT_KEY: string := ".rse-vault"

  datatype FileEntry = FileEntry(name: string, size: nat, extra: map<string, string>)

  datatype FolderEntry = FolderEntry(name: string, size: Option<nat>, esize: Option<nat>, computed: Option<int>,
                                     extra: map<string, string>)

  datatype Entry = File(file: FileEntry) | Folder(folder: FolderEntry)

  datatype Manifest = Manifest(version: nat, files: map<string, FileEntry>, folders: map<string, FolderEntry>,
                               extra: map<string, string>)
  {
    function UpsertFile(key: string, name: string, size: nat): (m: Manifest)
    {
      this.(files := files[key := FileEntry(name, size, map[])])
    }

    /** Cached sizes of an existing folder survive; only the name is written. */
    function UpsertFolder(key: string, name: string): (m: Manifest)
    {
      if key in folders then this.(folders := folders[key := folders[key].(name := name)])
      else this.(folders := folders[key := FolderEntry(name, None, None, None, map[])])
    }

    function SetFolderSize(key: string, plain: nat, cipher: nat, at: int): (m: Manifest)
    {
      if key in folders
      then
        var sized := folders[key].(size := Some(plain), esize := Some(cipher), computed := Some(at));
        this.(folders := folders[key := sized])
      else this
    }

    function Remove(key: string): (m: Manifest)
    {
      this.(files := files - {key}, folders := folders - {key})
    }

    function NameFor(key: string): (n: Option<string>)
    {
      if key in files then Some(files[key].name)
      else if key in folders then Some(folders[key].name)
      else None
    }

    /** Re-key an entry; a file of that name is preferred over a folder. */
    function RenameEntry(oldKey: string, newKey: string, newName: string): (m: Manifest)
    {
      if oldKey in files then this.(files := (files - {oldKey})[newKey := files[oldKey].(name := newName)])
      else if oldKey in folders then this.(folders := (folders - {oldKey})[newKey := folders[oldKey].(name := newName)])
      else this
    }

    function TakeEntry(key: string): (r: (Manifest, Option<Entry>))
    {
      if key in files then (this.(files := files - {key}), Some(File(files[key])))
      else if key in folders then (this.(folders := folders - {key}), Some(Folder(folders[key])))
      else (this, None)
    }

    function InsertEntry(key: string, entry: Entry): (m: Manifest)
    {
      match entry
      case File(f) => this.(files := files[key := f])
      case Folder(d) => this.(folders := folders[key := d])
    }
  }

  const EMPTY: Manifest := Manifest(1, map[], map[], map[])

  /** Moving an entry out and back in restores the manifest, even when a folder shares the file's key. */
  lemma TakeInsertRestores(m: Manifest, key: string)
    requires m.TakeEntry(key).1.Some?
    ensures var (m', e) := m.TakeEntry(key); m'.InsertEntry(key, e.value) == m && m' != m
  {
  }

  /**
   * The manifest as an object edited in place. Each contract says what changed under the key and that nothing else
   * did.
   */
  class LiveManifest {
    var version: nat
    var files: map<string, FileEntry>
    var folders: map<string, FolderEntry>
    var extra: map<string, string>

    ghost function View(): (m: Manifest)
      reads this
    {
      Manifest(version, files, folders, extra)
    }

    constructor ()
      ensures View() == EMPTY
    {
      version, files, folders, extra := 1, map[], map[], map[];
    }

    method UpsertFile(key: string, name: string, size: nat)
      modifies this`files
      ensures View() == old(View()).UpsertFile(key, name, size)
      ensures key in files && files[key].name == name && files[key].size == size
      ensures files - {key} == old(files) - {key}
    {
      files := files[key := FileEntry(name, size, map[])];
    }

    /** A known folder keeps its cached sizes and extra fields; a new one has none. */
    method UpsertFolder(key: string, name: string)
      modifies this`folders
      ensures View() == old(View()).UpsertFolder(key, name)
      ensures key in folders && folders[key].name == name
      ensures key in old(folders) ==> SameButName(folders[key], old(folders)[key])
      ensures key !in old(folders) ==> SameButName(folders[key], NO_FOLDER)
      ensures folders - {key} == old(folders) - {key}
    {
      if key in folders {
        folders := folders[key := folders[key].(name := name)];
      } else {
        folders := folders[key := FolderEntry(name, None, None, None, map[])];
      }
    }

    /** Sizes are cached on a known folder only, and its name stays. */
    method SetFolderSize(key: string, plain: nat, cipher: nat, at: int)
      modifies this`folders
      ensures View() == old(View()).SetFolderSize(key, plain, cipher, at)
      ensures folders.Keys == old(folders).Keys && folders - {key} == old(folders) - {key}
      ensures key in folders ==>
                && folders[key].name == old(folders)[key].name && folders[key].extra == old(folders)[key].extra
                && folders[key].size == Some(plain) && folders[key].esize == Some(cipher)
                && folders[key].computed == Some(at)
    {
      if key in folders {
        folders := folders[key := folders[key].(size := Some(plain), esize := Some(cipher), computed := Some(at))];
      }
    }

    /** The key is forgotten in both kinds. */
    method Remove(key: string) returns (removed: bool)
      modifies this`files, this`folders
      ensures View() == old(View()).Remove(key)
      ensures View().NameFor(key).None? && removed == old(View()).NameFor(key).Some?
      ensures files == old(files) - {key} && folders == old(folders) - {key}
    {
      removed := key in files || key in folders;
      files, folders := files - {key}, folders - {key};
    }

    /** One entry moves to the new key under the new name; a file goes before a folder of the same key. */
    method RenameEntry(oldKey: string, newKey: string, newName: string) returns (renamed: bool)
      modifies this`files, this`folders
      ensures View() == old(View()).RenameEntry(oldKey, newKey, newName)
      ensures renamed == old(View()).NameFor(oldKey).Some?
      ensures oldKey in old(files) ==>
                && newKey in files && files[newKey].name == newName && files[newKey].size == old(files)[oldKey].size
                && folders == old(folders) && (oldKey != newKey ==> oldKey !in files)
      ensures oldKey !in old(files) && oldKey in old(folders) ==>
                && newKey in folders && folders[newKey].name == newName
                && SameButName(folders[newKey], old(folders)[oldKey])
                && files == old(files) && (oldKey != newKey ==> oldKey !in folders)
    {
      if oldKey in files {
        var f := files[oldKey];
        files := (files - {oldKey})[newKey := f.(name := newName)];
        renamed := true;
      } else if oldKey in folders {
        var d := folders[oldKey];
        folders := (folders - {oldKey})[newKey := d.(name := newName)];
        renamed := true;
      } else {
        renamed := false;
      }
    }

    /** What is taken is gone, and putting it back would restore the manifest. */
    method TakeEntry(key: string) returns (taken: Option<Entry>)
      modifies this`files, this`folders
      ensures (View(), taken) == old(View()).TakeEntry(key)
      ensures taken.Some? <==> old(View()).NameFor(key).Some?
      ensures taken.Some? ==> View().InsertEntry(key, taken.value) == old(View()) && View() != old(View())
      ensures taken.None? ==> View() == old(View())
      ensures taken.Some? && key in old(files) ==> taken == Some(File(old(files)[key]))
    {
      ghost var before := View();
      taken := None;
      if key in files {
        taken := Some(File(files[key]));
        files := files - {key};
      } else if key in folders {
        taken := Some(Folder(folders[key]));
        folders := folders - {key};
      }
      if taken.Some? { TakeInsertRestores(before, key); }
    }

    /** The entry is back under its kind, and a take returns it unless a file hides a folder. */
    method InsertEntry(key: string, entry: Entry)
      modifies this`files, this`folders
      ensures View() == old(View()).InsertEntry(key, entry)
      ensures entry.File? || key !in old(files) ==> View().TakeEntry(key).1 == Some(entry)
      ensures files - {key} == old(files) - {key} && folders - {key} == old(folders) - {key}
      ensures if entry.File? then folders == old(folders) else files == old(files)
    {
      match entry
      case File(f) => files := files[key := f];
      case Folder(d) => folders := folders[key := d];
    }
  }

  const NO_FOLDER: FolderEntry := FolderEntry("", None, None, None, map[])

  /** Two folder entries agree in everything but the name. */
  predicate SameButName(a: FolderEntry, b: FolderEntry) { a.(name := "") == b.(name := "") }
}
