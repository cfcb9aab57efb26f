/** The file persistence module: items are files named after their ids,
    in the root folder or in one folder per collection, over a store that
    maps each file's path to the value its codec holds. Paths are built
    the way `os.path.join` builds them from relative components. */
module FilePersistence {
  import opened Signals

  /** The members of `Persistence.Format`. */
  datatype FormatName = Pickle | Json

  /** What `_format` holds: the class default is the enum member itself;
      a configured module stores a member's `value` (pickle 1, json 2). */
  datatype FormatSetting = Member(name: FormatName) | Number(n: int)

  /** The class-level configuration: `_root_id`, `_root_folder`, `_format`. */
  datatype Config = Config(rootId: string, rootFolder: string, format: FormatSetting)

  /** The files: path to stored value. */
  type Files = map<string, Value>

  /** `_get_file_extension`: `.dat` exactly for the pickle value. */
  function Extension(f: FormatSetting): (ext: string)
    ensures ext == ".dat" <==> f == Number(1)
    ensures ext == ".dat" || ext == ".cfg"
  {
    if f == Number(1) then ".dat" else ".cfg"
  }

  /** What `os.path.join(a, b)` puts before `b`: a separator after a
      non-empty `a` that does not already end in one. */
  function DirPrefix(a: string): (p: string)
    ensures a <= p && |p| <= |a| + 1
    ensures p == "" || p[|p| - 1] == '/'
  {
    if a == "" || a[|a| - 1] == '/' then a else a + "/"
  }

  /** `os.path.join(a, b)` for a relative `b`. */
  function Join(a: string, b: string): string
  {
    DirPrefix(a) + b
  }

  /** `_get_collection_folder`: `root/root_id/collection` when the root
      id is non-empty, else `root/collection`. */
  function CollectionFolder(cfg: Config, collection: string): string
  {
    Join(if cfg.rootId != "" then Join(cfg.rootFolder, cfg.rootId) else cfg.rootFolder, collection)
  }

  /** `_get_collection_item_filename`: `<collection folder>/<id><ext>`. */
  function CollectionItemFile(cfg: Config, id: string, collection: string): string
  {
    Join(CollectionFolder(cfg, collection), id + Extension(cfg.format))
  }

  /** `_get_item_filename`: `root/<root_id>_<id><ext>` when the root id is
      non-empty, else `root/<id><ext>`. */
  function ItemFile(cfg: Config, id: string): string
  {
    Join(cfg.rootFolder, (if cfg.rootId != "" then cfg.rootId + "_" + id else id) + Extension(cfg.format))
  }

  /** The file `load`, `save` and `remove` use. */
  function FileOf(cfg: Config, id: string, collection: Option<string>): string
  {
    if collection.Some? then CollectionItemFile(cfg, id, collection.value) else ItemFile(cfg, id)
  }

  /** `self._load_file(filename) or default`: a missing file loads as
      None, so it gives the default like any falsy value. */
  function Loaded(files: Files, path: string, default: Value): Value
  {
    if path in files && Truthy(files[path]) then files[path] else default
  }

  lemma AppendCancel(p: string, a: string, b: string, s: string)
    ensures p + a + s == p + b + s ==> a == b
  {
    if p + a + s == p + b + s {
      assert |a| == |b|;
      forall i | 0 <= i < |a|
        ensures a[i] == b[i]
      {
        assert (p + a + s)[|p| + i] == a[i];
        assert (p + b + s)[|p| + i] == b[i];
      }
    }
  }

  /** Different ids of one collection have different files. */
  lemma CollectionItemFileInjective(cfg: Config, a: string, b: string, collection: string)
    requires a != b
    ensures CollectionItemFile(cfg, a, collection) != CollectionItemFile(cfg, b, collection)
  {
    var pre, ext := DirPrefix(CollectionFolder(cfg, collection)), Extension(cfg.format);
    assert CollectionItemFile(cfg, a, collection) == pre + a + ext;
    assert CollectionItemFile(cfg, b, collection) == pre + b + ext;
    AppendCancel(pre, a, b, ext);
  }

  /** Different ids have different files outside collections. */
  lemma ItemFileInjective(cfg: Config, a: string, b: string)
    requires a != b
    ensures ItemFile(cfg, a) != ItemFile(cfg, b)
  {
    var pre, ext := DirPrefix(cfg.rootFolder), Extension(cfg.format);
    var p := if cfg.rootId != "" then pre + cfg.rootId + "_" else pre;
    assert ItemFile(cfg, a) == p + a + ext;
    assert ItemFile(cfg, b) == p + b + ext;
    AppendCancel(p, a, b, ext);
  }

  /** Saving an item and loading the same id and collection gives the item
      back, or the default when the item is falsy. */
  lemma SaveThenLoad(cfg: Config, files: Files, item: Value, id: string, collection: Option<string>, default: Value)
    ensures var path := FileOf(cfg, id, collection);
      Loaded(files[path := item], path, default) == if Truthy(item) then item else default
  {
  }

  /** After a remove, a load gives the default, as if nothing was ever
      saved under that id. */
  lemma RemoveThenLoad(cfg: Config, files: Files, id: string, collection: Option<string>, default: Value)
    ensures var path := FileOf(cfg, id, collection);
      Loaded(files - {path}, path, default) == default
  {
  }

  /** Saving or removing one id of a collection, or one id outside
      collections, leaves what every other id of it loads. */
  lemma WriteKeepsOthers(cfg: Config, files: Files, item: Value, id: string, other: string,
                         collection: Option<string>, default: Value)
    requires id != other
    ensures var path, q := FileOf(cfg, id, collection), FileOf(cfg, other, collection);
      && Loaded(files[path := item], q, default) == Loaded(files, q, default)
      && Loaded(files - {path}, q, default) == Loaded(files, q, default)
  {
    if collection.Some? {
      CollectionItemFileInjective(cfg, id, other, collection.value);
    } else {
      ItemFileInjective(cfg, id, other);
    }
  }

  /** Every character of `s` is a dot. */
  predicate AllDots(s: string)
  {
    forall i :: 0 <= i < |s| ==> s[i] == '.'
  }

  /** The index of the last dot of `s`, if any. */
  function LastDot(s: string): (r: Option<nat>)
    ensures r.Some? ==> r.value < |s| && s[r.value] == '.' && '.' !in s[r.value + 1..]
    ensures r.None? ==> '.' !in s
  {
    if s == [] then None
    else if s[|s| - 1] == '.' then Some(|s| - 1)
    else
      var r := LastDot(s[..|s| - 1]);
      assert s == s[..|s| - 1] + [s[|s| - 1]];
      if r.Some? then assert s[r.value + 1..] == s[..|s| - 1][r.value + 1..] + [s[|s| - 1]]; r
      else None
  }

  /** `os.path.splitext` of a file name without separators: the extension
      runs from the last dot, unless only dots come before it. */
  function SplitExt(name: string): (r: (string, string))
    ensures r.0 + r.1 == name
    ensures r.1 == "" || (r.1[0] == '.' && '.' !in r.1[1..] && !AllDots(r.0))
  {
    var d := LastDot(name);
    if d.Some? && !AllDots(name[..d.value]) then
      assert name == name[..d.value] + name[d.value..];
      assert name[d.value..][1..] == name[d.value + 1..];
      (name[..d.value], name[d.value..])
    else (name, "")
  }

  /** The last dot of `a + b` is the last dot of `b` when it has one. */
  lemma {:induction false} LastDotAppend(a: string, b: string)
    requires LastDot(b).Some?
    ensures LastDot(a + b) == Some(|a| + LastDot(b).value)
    decreases |b|
  {
    var ab := a + b;
    assert ab[|ab| - 1] == b[|b| - 1];
    if b[|b| - 1] != '.' {
      var b' := b[..|b| - 1];
      assert LastDot(b) == LastDot(b');
      assert ab[..|ab| - 1] == a + b';
      LastDotAppend(a, b');
    }
  }

  /** The file name of an item splits back into its id and the extension
      exactly when the id is not made of dots only (an empty id included). */
  lemma SplitItemName(id: string, ext: string)
    requires ext == ".dat" || ext == ".cfg"
    ensures SplitExt(id + ext) == (id, ext) <==> !AllDots(id)
  {
    var name := id + ext;
    assert LastDot(ext) == Some(0) by {
      assert ext[..3] == ext[..2] + [ext[2]] && ext[..2] == ext[..1] + [ext[1]];
      assert ext[..3][..2] == ext[..2] && ext[..2][..1] == ext[..1];
      assert LastDot(ext[..1]) == Some(0);
    }
    LastDotAppend(id, ext);
    assert name[..|id|] == id && name[|id|..] == ext;
  }

  /** The name of `path` inside `folder` when it is a file directly in it. */
  function Child(folder: string, path: string): (r: Option<string>)
    ensures r.Some? ==> r.value != "" && '/' !in r.value
  {
    var pre := DirPrefix(folder);
    if |pre| < |path| && path[..|pre|] == pre && '/' !in path[|pre|..] then Some(path[|pre|..]) else None
  }

  lemma ChildJoin(folder: string, name: string)
    requires name != "" && '/' !in name
    ensures Child(folder, Join(folder, name)) == Some(name)
  {
    var pre := DirPrefix(folder);
    assert Join(folder, name)[..|pre|] == pre && Join(folder, name)[|pre|..] == name;
  }

  lemma ChildIsJoin(folder: string, path: string)
    requires Child(folder, path).Some?
    ensures Join(folder, Child(folder, path).value) == path
  {
    var pre := DirPrefix(folder);
    assert path == path[..|pre|] + path[|pre|..];
  }

  /** `os.listdir(folder)`: the names of the files directly in it. */
  function Children(files: Files, folder: string): set<string>
  {
    set p | p in files && Child(folder, p).Some? :: Child(folder, p).value
  }

  /** Each listed name is a file of the folder, and each file of the
      folder is listed. */
  lemma ChildrenMeaning(files: Files, folder: string)
    ensures forall n :: n in Children(files, folder) ==> Join(folder, n) in files && n != "" && '/' !in n
    ensures forall p :: p in files && Child(folder, p).Some? ==> Child(folder, p).value in Children(files, folder)
  {
    forall n | n in Children(files, folder)
      ensures Join(folder, n) in files
    {
      var p :| p in files && Child(folder, p).Some? && Child(folder, p).value == n;
      ChildIsJoin(folder, p);
    }
  }

  /** The ids of the names with extension `ext`. */
  function Stems(names: set<string>, ext: string): set<string>
  {
    set n | n in names && SplitExt(n).1 == ext :: SplitExt(n).0
  }

  lemma StemsJoin(names: set<string>, ext: string)
    ensures forall k :: k in Stems(names, ext) ==> k + ext in names && SplitExt(k + ext).1 == ext
  {
    forall k | k in Stems(names, ext)
      ensures k + ext in names && SplitExt(k + ext).1 == ext
    {
      var n :| n in names && SplitExt(n).1 == ext && SplitExt(n).0 == k;
    }
  }

  /** What `load_collection` builds from the names `names` of `folder`:
      each name with the current extension, without it, to its value. */
  function Listing(files: Files, folder: string, ext: string, names: set<string>): map<string, Value>
    requires names <= Children(files, folder)
  {
    ChildrenMeaning(files, folder);
    StemsJoin(names, ext);
    map k | k in Stems(names, ext) :: files[Join(folder, k + ext)]
  }

  /** One more name in the listing adds its id, when it has the
      extension, and nothing else. */
  lemma ListingStep(files: Files, folder: string, ext: string, names: set<string>, n: string)
    requires names <= Children(files, folder) && n in Children(files, folder) && Join(folder, n) in files
    ensures var l := Listing(files, folder, ext, names);
      Listing(files, folder, ext, names + {n}) ==
        if SplitExt(n).1 == ext then l[SplitExt(n).0 := files[Join(folder, n)]] else l
  {
    assert Stems(names + {n}, ext) == Stems(names, ext) + (if SplitExt(n).1 == ext then {SplitExt(n).0} else {});
  }

  /** What `load_collection` returns: the listing, or the default when it
      is empty. */
  function CollectionResult(listing: map<string, Value>, default: Value): Value
  {
    if listing == map[] then default else VDict(listing)
  }

  lemma CollectionItemFileInjectiveAll(cfg: Config, collection: string)
    ensures forall a, b :: CollectionItemFile(cfg, a, collection) == CollectionItemFile(cfg, b, collection) ==> a == b
  {
    forall a, b | a != b
      ensures CollectionItemFile(cfg, a, collection) != CollectionItemFile(cfg, b, collection)
    {
      CollectionItemFileInjective(cfg, a, b, collection);
    }
  }

  /** The files `save_collection` writes: each item under its id's file. */
  function Saved(cfg: Config, items: map<string, Value>, collection: string): Files
  {
    CollectionItemFileInjectiveAll(cfg, collection);
    map k | k in items :: CollectionItemFile(cfg, k, collection) := items[k]
  }

  /** Each id of a saved collection holds its item, and nothing else is
      saved. */
  lemma SavedMeaning(cfg: Config, items: map<string, Value>, collection: string)
    ensures forall k :: k in items ==>
              CollectionItemFile(cfg, k, collection) in Saved(cfg, items, collection) &&
              Saved(cfg, items, collection)[CollectionItemFile(cfg, k, collection)] == items[k]
    ensures forall p :: p in Saved(cfg, items, collection) ==>
              exists k :: k in items && CollectionItemFile(cfg, k, collection) == p
  {
    CollectionItemFileInjectiveAll(cfg, collection);
  }

  /** Saving one more item of a collection. */
  lemma SavedAdd(cfg: Config, items: map<string, Value>, id: string, v: Value, collection: string)
    requires id !in items
    ensures Saved(cfg, items[id := v], collection) == Saved(cfg, items, collection)[CollectionItemFile(cfg, id, collection) := v]
  {
    CollectionItemFileInjectiveAll(cfg, collection);
  }

  lemma MergeUpdate(a: Files, b: Files, k: string, v: Value)
    ensures (a + b)[k := v] == a + b[k := v]
  {
  }

  /** The files of a collection with the current extension: what
      `remove_collection` deletes. */
  function CollectionFiles(files: Files, cfg: Config, collection: string): set<string>
  {
    var folder := CollectionFolder(cfg, collection);
    Matching(folder, Extension(cfg.format), Children(files, folder))
  }

  /** The files of `folder` named in `names` with extension `ext`. */
  function Matching(folder: string, ext: string, names: set<string>): set<string>
  {
    set n | n in names && SplitExt(n).1 == ext :: Join(folder, n)
  }

  /** An id that round-trips through a collection folder. */
  predicate PlainId(id: string)
  {
    '/' !in id && !AllDots(id)
  }

  /** Saving a collection into a folder holding none of its files and
      loading it back gives the items, when every id is a plain file name. */
  lemma SaveCollectionRoundTrip(cfg: Config, files: Files, items: map<string, Value>, collection: string)
    requires CollectionFiles(files, cfg, collection) == {}
    requires forall k :: k in items ==> PlainId(k)
    ensures var after := files + Saved(cfg, items, collection);
      var folder := CollectionFolder(cfg, collection);
      Listing(after, folder, Extension(cfg.format), Children(after, folder)) == items
  {
    RoundTripItems(cfg, files, items, collection);
    RoundTripKeys(cfg, files, items, collection);
  }

  /** Every saved item is listed under its id. */
  lemma RoundTripItems(cfg: Config, files: Files, items: map<string, Value>, collection: string)
    requires forall k :: k in items ==> PlainId(k)
    ensures var after := files + Saved(cfg, items, collection);
      var folder := CollectionFolder(cfg, collection);
      var l := Listing(after, folder, Extension(cfg.format), Children(after, folder));
      forall k :: k in items ==> k in l && l[k] == items[k]
  {
    forall k | k in items
      ensures var after := files + Saved(cfg, items, collection);
        var folder := CollectionFolder(cfg, collection);
        var l := Listing(after, folder, Extension(cfg.format), Children(after, folder));
        k in l && l[k] == items[k]
    {
      RoundTripItem(cfg, files, items, collection, k);
    }
  }

  /** Only saved ids are listed. */
  lemma RoundTripKeys(cfg: Config, files: Files, items: map<string, Value>, collection: string)
    requires CollectionFiles(files, cfg, collection) == {}
    requires forall k :: k in items ==> PlainId(k)
    ensures var after := files + Saved(cfg, items, collection);
      var folder := CollectionFolder(cfg, collection);
      forall k :: k in Listing(after, folder, Extension(cfg.format), Children(after, folder)) ==> k in items
  {
    var after := files + Saved(cfg, items, collection);
    var folder, ext := CollectionFolder(cfg, collection), Extension(cfg.format);
    var names := Children(after, folder);
    StemsJoin(names, ext);
    forall k | k in Listing(after, folder, ext, names)
      ensures k in items
    {
      RoundTripKey(cfg, files, items, collection, k);
    }
  }

  /** A saved item is listed under its id. */
  lemma RoundTripItem(cfg: Config, files: Files, items: map<string, Value>, collection: string, k: string)
    requires k in items && PlainId(k)
    ensures var after := files + Saved(cfg, items, collection);
      var folder := CollectionFolder(cfg, collection);
      var l := Listing(after, folder, Extension(cfg.format), Children(after, folder));
      k in l && l[k] == items[k]
  {
    var after := files + Saved(cfg, items, collection);
    var folder, ext := CollectionFolder(cfg, collection), Extension(cfg.format);
    SavedMeaning(cfg, items, collection);
    ChildrenMeaning(after, folder);
    SavedName(cfg, k, collection);
    assert Join(folder, k + ext) == CollectionItemFile(cfg, k, collection);
    assert k + ext in Children(after, folder);
    assert k in Stems(Children(after, folder), ext);
  }

  /** The file of a plain id is listed in its collection folder under its
      id and the extension. */
  lemma SavedName(cfg: Config, k: string, collection: string)
    requires PlainId(k)
    ensures var folder, ext := CollectionFolder(cfg, collection), Extension(cfg.format);
      && Child(folder, CollectionItemFile(cfg, k, collection)) == Some(k + ext)
      && SplitExt(k + ext) == (k, ext)
  {
    var ext := Extension(cfg.format);
    SplitItemName(k, ext);
    assert '/' !in k + ext;
    ChildJoin(CollectionFolder(cfg, collection), k + ext);
  }

  lemma RoundTripKey(cfg: Config, files: Files, items: map<string, Value>, collection: string, k: string)
    requires CollectionFiles(files, cfg, collection) == {}
    requires forall k :: k in items ==> PlainId(k)
    requires var after, folder := files + Saved(cfg, items, collection), CollectionFolder(cfg, collection);
      k + Extension(cfg.format) in Children(after, folder) && SplitExt(k + Extension(cfg.format)).1 == Extension(cfg.format)
    ensures k in items
  {
    var after, folder, ext := files + Saved(cfg, items, collection), CollectionFolder(cfg, collection), Extension(cfg.format);
    var n := k + ext;
    ChildrenMeaning(after, folder);
    ChildrenMeaning(files, folder);
    var p := Join(folder, n);
    ChildJoin(folder, n);
    assert p !in files by {
      assert p in files ==> n in Children(files, folder);
      assert p in files ==> p in CollectionFiles(files, cfg, collection);
    }
    SavedMeaning(cfg, items, collection);
    var j :| j in items && CollectionItemFile(cfg, j, collection) == p;
    SavedName(cfg, j, collection);
    assert SplitExt(n) == (k, ext);
  }

  /** After removing a collection, loading it gives the default. */
  lemma RemoveCollectionEmpties(cfg: Config, files: Files, collection: string)
    ensures var after := files - CollectionFiles(files, cfg, collection);
      var folder := CollectionFolder(cfg, collection);
      Listing(after, folder, Extension(cfg.format), Children(after, folder)) == map[]
  {
    var after := files - CollectionFiles(files, cfg, collection);
    var folder, ext := CollectionFolder(cfg, collection), Extension(cfg.format);
    var names := Children(after, folder);
    ChildrenMeaning(after, folder);
    ChildrenMeaning(files, folder);
    assert forall n :: n in names ==> Join(folder, n) in files;
  }

  /** The class attributes of `Persistence`: one object that every
      instance shares, set by the class method `configure`. */
  class Settings {
    /** `_root_id`. */
    var rootId: string
    /** `_root_folder`: None until configured. */
    var rootFolder: Option<string>
    /** `_format`. */
    var format: FormatSetting

    /** The class defaults: an empty root id, no root folder, the pickle
        member (not its value) as the format. */
    constructor ()
      ensures rootId == "" && rootFolder == None && format == Member(Pickle)
    {
      rootId := "";
      rootFolder := None;
      format := Member(Pickle);
    }

    /** `configure`: take the context's root id, folder and format, for
        every instance, those made before the call included. */
    method Configure(rootId: string, rootFolder: string, format: FormatSetting)
      modifies this
      ensures this.rootId == rootId && this.rootFolder == Some(rootFolder) && this.format == format
    {
      this.rootId := rootId;
      this.rootFolder := Some(rootFolder);
      this.format := format;
    }
  }

  /** The file system the files live in, shared by every instance. */
  class FileSystem {
    var files: Files

    constructor (files: Files)
      ensures this.files == files
    {
      this.files := files;
    }
  }

  class Persistence {
    /** The class the instance belongs to. */
    const settings: Settings
    /** The file system under the root folder. */
    const disk: FileSystem

    /** The configuration the path helpers use, read from the class. */
    function Cfg(): Config
      requires settings.rootFolder.Some?
      reads settings
    {
      Config(settings.rootId, settings.rootFolder.value, settings.format)
    }

    /** `__init__` keeps no state of its own: the instance reads the class
        attributes and the file system. */
    constructor (settings: Settings, disk: FileSystem)
      ensures this.settings == settings && this.disk == disk
    {
      this.settings := settings;
      this.disk := disk;
    }

    /** `load`: the item under the id, in the collection if one is given;
        the default when the file is missing or holds a falsy value. */
    method Load(id: string, collection: Option<string>, default: Value) returns (r: Value)
      requires settings.rootFolder.Some?
      ensures r == Loaded(disk.files, FileOf(Cfg(), id, collection), default)
    {
      var filename := FileOf(Cfg(), id, collection);
      if filename in disk.files && Truthy(disk.files[filename]) {
        r := disk.files[filename];
      } else {
        r := default;
      }
    }

    /** `save`: write the item to the id's file. */
    method Save(item: Value, id: string, collection: Option<string>)
      requires settings.rootFolder.Some?
      modifies disk
      ensures disk.files == old(disk.files)[FileOf(Cfg(), id, collection) := item]
    {
      var filename := FileOf(Cfg(), id, collection);
      disk.files := disk.files[filename := item];
    }

    /** `remove`: delete the id's file when it exists. */
    method Remove(id: string, collection: Option<string>)
      requires settings.rootFolder.Some?
      modifies disk
      ensures disk.files == old(disk.files) - {FileOf(Cfg(), id, collection)}
    {
      var filename := FileOf(Cfg(), id, collection);
      if filename in disk.files {
        disk.files := disk.files - {filename};
      }
    }

    /** `load_collection`: every file of the collection folder with the
        current extension, by id; the default when there is none. */
    method LoadCollection(collection: string, default: Value) returns (r: Value)
      requires settings.rootFolder.Some?
      ensures var folder := CollectionFolder(Cfg(), collection);
        r == CollectionResult(Listing(disk.files, folder, Extension(settings.format), Children(disk.files, folder)), default)
    {
      var folder := CollectionFolder(Cfg(), collection);
      var extension := Extension(settings.format);
      var all := Children(disk.files, folder);
      ChildrenMeaning(disk.files, folder);
      var todo := all;
      var result := map[];
      while todo != {}
        invariant todo <= all
        invariant result == Listing(disk.files, folder, extension, all - todo)
        decreases |todo|
      {
        var filename :| filename in todo;
        ListingStep(disk.files, folder, extension, all - todo, filename);
        assert (all - todo) + {filename} == all - (todo - {filename});
        if SplitExt(filename).1 == extension {
          result := result[SplitExt(filename).0 := disk.files[Join(folder, filename)]];
        }
        todo := todo - {filename};
      }
      assert all - todo == all;
      r := if result == map[] then default else VDict(result);
    }

    /** `save_collection`: write every item to its file in the collection
        folder. */
    method SaveCollection(items: map<string, Value>, collection: string)
      requires settings.rootFolder.Some?
      modifies disk
      ensures disk.files == old(disk.files) + Saved(Cfg(), items, collection)
    {
      var cfg := Cfg();
      ghost var start := disk.files;
      var todo := items.Keys;
      while todo != {}
        invariant todo <= items.Keys
        invariant disk.files == start + Saved(cfg, items - todo, collection)
        decreases |todo|
      {
        var id :| id in todo;
        var filename := CollectionItemFile(cfg, id, collection);
        SaveStep(start, disk.files, cfg, items, todo, id, collection);
        disk.files := disk.files[filename := items[id]];
        todo := todo - {id};
      }
      assert items - todo == items;
      assert cfg == Cfg();
    }

    /** `remove_collection`: delete every file of the collection folder
        with the current extension. */
    method RemoveCollection(collection: string)
      requires settings.rootFolder.Some?
      modifies disk
      ensures disk.files == old(disk.files) - CollectionFiles(old(disk.files), Cfg(), collection)
    {
      var folder := CollectionFolder(Cfg(), collection);
      var extension := Extension(settings.format);
      ghost var start := disk.files;
      var all := Children(disk.files, folder);
      var todo := all;
      while todo != {}
        invariant todo <= all
        invariant disk.files == start - Matching(folder, extension, all - todo)
        decreases |todo|
      {
        var filename :| filename in todo;
        RemoveStep(start, disk.files, folder, extension, all, todo, filename);
        if SplitExt(filename).1 == extension {
          disk.files := disk.files - {Join(folder, filename)};
        }
        todo := todo - {filename};
      }
      assert all - todo == all;
    }
  }

  /** The class attributes and the file system are shared: an instance
      made before `configure` reads the configured values as one made
      after it does, and an item one instance saves the other loads. */
  method SharedInstances(files: Files, rootId: string, rootFolder: string, format: FormatSetting,
                         item: Value, id: string, default: Value)
    returns (before: Persistence, after: Persistence, r: Value)
    ensures before.settings == after.settings && before.disk == after.disk
    ensures before.settings.rootFolder.Some?
    ensures before.Cfg() == Config(rootId, rootFolder, format) && after.Cfg() == before.Cfg()
    ensures r == if Truthy(item) then item else default
  {
    var settings := new Settings();
    var disk := new FileSystem(files);
    before := new Persistence(settings, disk);
    settings.Configure(rootId, rootFolder, format);
    after := new Persistence(settings, disk);
    after.Save(item, id, None);
    r := before.Load(id, None, default);
  }

  /** One more item written by `save_collection`. */
  lemma SaveStep(start: Files, files: Files, cfg: Config, items: map<string, Value>, todo: set<string>,
                 id: string, collection: string)
    requires todo <= items.Keys && id in todo
    requires files == start + Saved(cfg, items - todo, collection)
    ensures files[CollectionItemFile(cfg, id, collection) := items[id]] == start + Saved(cfg, items - (todo - {id}), collection)
  {
    var before := items - todo;
    assert items - (todo - {id}) == before[id := items[id]];
    SavedAdd(cfg, before, id, items[id], collection);
    MergeUpdate(start, Saved(cfg, before, collection), CollectionItemFile(cfg, id, collection), items[id]);
  }

  /** One more name handled by `remove_collection`. */
  lemma RemoveStep(start: Files, files: Files, folder: string, ext: string, all: set<string>, todo: set<string>, n: string)
    requires todo <= all && n in todo
    requires files == start - Matching(folder, ext, all - todo)
    ensures (if SplitExt(n).1 == ext then files - {Join(folder, n)} else files) ==
            start - Matching(folder, ext, all - (todo - {n}))
  {
    assert all - (todo - {n}) == (all - todo) + {n};
    MatchingAdd(folder, ext, all - todo, n);
  }

  lemma MatchingAdd(folder: string, ext: string, names: set<string>, n: string)
    ensures Matching(folder, ext, names + {n}) ==
            Matching(folder, ext, names) + (if SplitExt(n).1 == ext then {Join(folder, n)} else {})
  {
    var l, r := Matching(folder, ext, names + {n}), Matching(folder, ext, names) + (if SplitExt(n).1 == ext then {Join(folder, n)} else {});
    forall p | p in l
      ensures p in r
    {
      var m :| m in names + {n} && SplitExt(m).1 == ext && Join(folder, m) == p;
      if m != n {
        assert m in names;
      }
    }
  }
}
