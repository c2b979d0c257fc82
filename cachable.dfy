/**
 * `CachableEntity` (staffeli/cachable.py): an entity whose JSON is loaded
 * from a `.staffeli.yml` cache file, found by the upward search when given
 * a directory or read directly when given a file, and which persists its
 * public JSON back to such a file.
 */
module Cachable {
  import opened Common
  import opened Os
  import opened Files

  /** `model[key]` on a parsed YAML document. */
  function Index(model: Json, key: string): (r: Result<Json>)
    ensures r.Ok? <==> model.JObj? && key in model.fields
    ensures r.Ok? ==> r.value == model.fields[key]
  {
    match model
    case JObj(f) => if key in f then Ok(f[key]) else Err(Failure("KeyError: " + key))
    case _ => Err(Failure("model is not a mapping"))
  }

  /** The failure of a directory lookup with `walk=False`: one positional argument too many. */
  const ExtraArgument := Failure("find_staffeli_file() takes from 1 to 2 positional arguments but 3 were given")

  /** `(parentdir, json)` as `CachableEntity.__init__` sets them, or why it raises. */
  function CacheLoad(fs: FileSystem, cachename: string, path: string, walk: bool): Result<(string, Json)>
  {
    if IsDir(fs, path) then
      if !walk then Err(ExtraArgument)
      else match StaffeliSearch(fs, cachename, path, 9)
        case Err(e) => Err(e)
        case Ok((dir, model)) =>
          match Index(model, cachename)
          case Err(e) => Err(e)
          case Ok(json) => Ok((dir, json))
    else if IsFile(fs, path) then
      match Load(fs, path)
      case Err(e) => Err(e)
      case Ok(model) =>
        match Index(model, cachename)
        case Err(e) => Err(e)
        case Ok(json) => Ok((Dirname(path), json))
    else Err(NotLocated(path))
  }

  class CachableEntity {
    const cachename: string
    var parentdir: string
    var json: Json

    constructor (cachename: string, parentdir: string, json: Json)
      ensures this.cachename == cachename && this.parentdir == parentdir && this.json == json
    {
      this.cachename := cachename;
      this.parentdir := parentdir;
      this.json := json;
    }

    /** The default `publicjson`: the JSON itself, not wrapped under the cache name. */
    function PublicJson(): Json
      reads this
    {
      json
    }

    /**
     * `cache(path)`: write `public` (the entity's `publicjson()`) to
     * `path/.staffeli.yml` when `path` is a directory, else to `path`.
     */
    method Cache(disk: Disk, path: string, public: Json)
      modifies disk
      ensures disk.fs == old(disk.fs).(files := old(disk.fs).files + {CacheTarget(old(disk.fs), path)},
                                       docs := old(disk.fs).docs[CacheTarget(old(disk.fs), path) := public])
    {
      var target := path;
      if IsDir(disk.fs, path) {
        target := PathJoin(path, StaffeliFilename);
      }
      disk.WriteDoc(target, public);
    }
  }

  /** `CachableEntity.__init__`: dispatch on what `path` is, then read the cache name's value. */
  method NewCachableEntity(fs: FileSystem, cachename: string, path: string, walk: bool)
    returns (r: Result<CachableEntity>)
    ensures r.Ok? <==> CacheLoad(fs, cachename, path, walk).Ok?
    ensures r.Ok? ==> fresh(r.value) && r.value.cachename == cachename
    ensures r.Ok? ==> (r.value.parentdir, r.value.json) == CacheLoad(fs, cachename, path, walk).value
    ensures r.Err? ==> r.error == CacheLoad(fs, cachename, path, walk).error
  {
    var parentdir: string;
    var model: Json;
    if IsDir(fs, path) {
      if !walk {
        return Err(ExtraArgument);
      }
      var found := FindStaffeliFile(fs, cachename, path);
      if found.Err? {
        return Err(found.error);
      }
      parentdir, model := found.value.0, found.value.1;
    } else if IsFile(fs, path) {
      parentdir := Dirname(path);
      var loaded := Load(fs, path);
      if loaded.Err? {
        return Err(loaded.error);
      }
      model := loaded.value;
    } else {
      return Err(NotLocated(path));
    }
    var json := Index(model, cachename);
    if json.Err? {
      return Err(json.error);
    }
    var e := new CachableEntity(cachename, parentdir, json.value);
    return Ok(e);
  }

  /** Where `cache(path)` writes. */
  function CacheTarget(fs: FileSystem, path: string): string
  {
    if IsDir(fs, path) then PathJoin(path, StaffeliFilename) else path
  }

  /**
   * Loading from a directory yields the value under the cache name of a
   * `.staffeli.yml` in the returned directory whose only key is that name;
   * a non-walking directory lookup and a path that is neither file nor
   * directory always fail.
   */
  lemma CacheLoadSpec(fs: FileSystem, cachename: string, path: string, walk: bool)
    ensures IsDir(fs, path) && CacheLoad(fs, cachename, path, walk).Ok? ==>
      var (dir, json) := CacheLoad(fs, cachename, path, walk).value;
      walk &&
      exists f: map<string, Json> ::
        Load(fs, PathJoin(dir, StaffeliFilename)) == Ok(JObj(f)) && f.Keys == {cachename} && f[cachename] == json
    ensures IsDir(fs, path) && !walk ==> CacheLoad(fs, cachename, path, walk) == Err(ExtraArgument)
    ensures !IsDir(fs, path) && IsFile(fs, path) && CacheLoad(fs, cachename, path, walk).Ok? ==>
      CacheLoad(fs, cachename, path, walk).value.0 == Dirname(path) &&
      Load(fs, path).Ok? && Index(Load(fs, path).value, cachename) == Ok(CacheLoad(fs, cachename, path, walk).value.1)
    ensures !IsDir(fs, path) && !IsFile(fs, path) ==> CacheLoad(fs, cachename, path, walk) == Err(NotLocated(path))
  {
    if IsDir(fs, path) && walk {
      StaffeliSearchSound(fs, cachename, path, 9);
      var s := StaffeliSearch(fs, cachename, path, 9);
      if s.Ok? && Index(s.value.1, cachename).Ok? {
        var f := s.value.1.fields;
        assert Load(fs, PathJoin(s.value.0, StaffeliFilename)) == Ok(JObj(f));
      }
    }
  }

  /** A cache file written into a directory is the one a walking lookup from there picks up. */
  lemma CacheRoundTrip(fs: FileSystem, dir: string, cachename: string, json: Json)
    requires IsDir(fs, dir)
    ensures var target := CacheTarget(fs, dir);
      var fs2 := fs.(files := fs.files + {target}, docs := fs.docs[target := JObj(map[cachename := json])]);
      CacheLoad(fs2, cachename, dir, true) == Ok((dir, json))
  {
    var target := PathJoin(dir, StaffeliFilename);
    var doc := JObj(map[cachename := json]);
    var fs2 := fs.(files := fs.files + {target}, docs := fs.docs[target := doc]);
    assert Probe(dir, 0, StaffeliFilename) == target;
    assert FirstInLevel(fs2, [StaffeliFilename], Up(0, dir), 0) == Some(target);
    assert FirstHit(fs2, [StaffeliFilename], dir) == Some(target);
    DirnameJoin(dir, StaffeliFilename);
    assert map[cachename := json].Keys == {cachename};
    assert Accepts(doc, cachename) == Ok(true);
    assert StaffeliSearch(fs2, cachename, dir, 9) == Ok((dir, doc));
  }

  /**
   * The default `publicjson` is not wrapped: reloading such a cache file
   * reads the cache name as a key of the entity's own JSON.
   */
  lemma UnwrappedCacheReload(fs: FileSystem, path: string, cachename: string, json: Json)
    requires !IsDir(fs, path)
    ensures var fs2 := fs.(files := fs.files + {path}, docs := fs.docs[path := json]);
      CacheLoad(fs2, cachename, path, true) ==
        match Index(json, cachename)
        case Ok(v) => Ok((Dirname(path), v))
        case Err(e) => Err(e)
  {
  }
}
