/**
 * The single-file client in lib/canvas.py: its own copy of the upward
 * file search, the cache-file lookup that returns the model rather than
 * its directory, the quoting of names in error messages, and the
 * `NamedEntity` constructor. Its `_req`, `_lookup_*` and
 * `Course.publicjson` coincide with the older client's and are modelled
 * there.
 */
module LibCanvas {
  import opened Common
  import opened Os
  import opened Files
  import opened Cachable
  import opened Listed

  // ---------------------------------------------------------------- _find_file

  /** `_find_file`: the failure names the candidates; for an empty list, `cs[-1]` raises first. */
  method FindFile(fs: FileSystem, candidates: Candidates, parent: string) returns (r: Result<string>)
    ensures r.Ok? <==> FirstHit(fs, CandidateNames(candidates), parent).Some?
    ensures r.Ok? ==> FirstHit(fs, CandidateNames(candidates), parent) == Some(r.value)
    ensures r.Err? && |CandidateNames(candidates)| > 0 ==> r.error == NotLocated(NotFoundName(CandidateNames(candidates)).value)
    ensures r.Err? && |CandidateNames(candidates)| == 0 ==> r.error == Failure("IndexError: list index out of range")
  {
    var cs := CandidateNames(candidates);
    var hit := SearchLevels(fs, cs, parent);
    if hit.Some? {
      return Ok(hit.value);
    }
    var namestr := NotFoundName(cs);
    if namestr.None? {
      return Err(Failure("IndexError: list index out of range"));
    }
    return Err(NotLocated(namestr.value));
  }

  /** A search for names that all miss fails, naming every candidate. */
  lemma FindFileNames(cs: seq<string>, k: nat)
    requires k < |cs|
    ensures Contains(cs[k], NotFoundName(cs).value)
  {
    NotFoundNameMentions(cs, k);
  }

  // ---------------------------------------------------------------- _find_staffeli_yml

  /** What `_find_staffeli_yml` returns or raises with `rounds` rounds left from `parent`. */
  function StaffeliYml(fs: FileSystem, cachename: string, parent: string, rounds: nat): Result<Json>
    decreases rounds
  {
    if rounds == 0 then Err(NotLocated(StaffeliFilename))
    else match FirstHit(fs, [StaffeliFilename], parent)
      case None => Err(NotLocated(StaffeliFilename))
      case Some(path) =>
        match Load(fs, path)
        case Err(e) => Err(e)
        case Ok(model) =>
          match Accepts(model, cachename)
          case Err(e) => Err(e)
          case Ok(true) => Ok(model)
          case Ok(false) => StaffeliYml(fs, cachename, PathJoin(Dirname(path), ".."), rounds - 1)
  }

  /** `_find_staffeli_yml`. */
  method FindStaffeliYml(fs: FileSystem, cachename: string, searchdir: string) returns (r: Result<Json>)
    ensures r == StaffeliYml(fs, cachename, searchdir, 9)
  {
    var parent := searchdir;
    for i := 0 to 9
      invariant StaffeliYml(fs, cachename, searchdir, 9) == StaffeliYml(fs, cachename, parent, 9 - i)
    {
      var path := FindFile(fs, OneName(StaffeliFilename), parent);
      if path.Err? {
        return Err(path.error);
      }
      var model := Load(fs, path.value);
      if model.Err? {
        return Err(model.error);
      }
      var accepted := Accepts(model.value, cachename);
      if accepted.Err? {
        return Err(accepted.error);
      }
      if accepted.value {
        return Ok(model.value);
      }
      parent := PathJoin(Dirname(path.value), "..");
    }
    return Err(NotLocated(StaffeliFilename));
  }

  /**
   * This lookup accepts exactly the file `find_staffeli_file` accepts and
   * returns its model; where the latter fails with the arity error, this
   * one reports the missing `.staffeli.yml`, and every other failure is
   * shared.
   */
  lemma {:induction false} StaffeliYmlAgrees(fs: FileSystem, cachename: string, parent: string, rounds: nat)
    ensures StaffeliYml(fs, cachename, parent, rounds).Ok? <==> StaffeliSearch(fs, cachename, parent, rounds).Ok?
    ensures StaffeliYml(fs, cachename, parent, rounds).Ok? ==>
      StaffeliYml(fs, cachename, parent, rounds).value == StaffeliSearch(fs, cachename, parent, rounds).value.1
    ensures StaffeliSearch(fs, cachename, parent, rounds) == Err(MissingArgument) ==>
      StaffeliYml(fs, cachename, parent, rounds) == Err(NotLocated(StaffeliFilename))
    ensures StaffeliSearch(fs, cachename, parent, rounds).Err? && StaffeliSearch(fs, cachename, parent, rounds).error != MissingArgument ==>
      StaffeliYml(fs, cachename, parent, rounds) == StaffeliSearch(fs, cachename, parent, rounds).PropagateFailure()
    decreases rounds
  {
    if rounds > 0 {
      var hit := FirstHit(fs, [StaffeliFilename], parent);
      if hit.Some? {
        var path := hit.value;
        if Load(fs, path).Err? {
          assert Load(fs, path).error.cause[0] == 'c';
          assert MissingArgument.cause[0] == '_';
          assert Load(fs, path).error != MissingArgument;
        } else if Accepts(Load(fs, path).value, cachename) == Ok(false) {
          StaffeliYmlAgrees(fs, cachename, PathJoin(Dirname(path), ".."), rounds - 1);
        }
      }
    }
  }

  /** `CachedEntity`: the value under the cache name of the model found from `searchdir`. */
  class CachedEntity {
    const cachename: string
    var json: Json

    constructor (cachename: string, json: Json)
      ensures this.cachename == cachename && this.json == json
    {
      this.cachename := cachename;
      this.json := json;
    }
  }

  /** `CachedEntity.__init__`. */
  method NewCachedEntity(fs: FileSystem, cachename: string, searchdir: string) returns (r: Result<CachedEntity>)
    ensures r.Ok? <==> StaffeliYml(fs, cachename, searchdir, 9).Ok? && Index(StaffeliYml(fs, cachename, searchdir, 9).value, cachename).Ok?
    ensures r.Ok? ==> fresh(r.value) && r.value.cachename == cachename
    ensures r.Ok? ==> r.value.json == StaffeliYml(fs, cachename, searchdir, 9).value.fields[cachename]
  {
    var model := FindStaffeliYml(fs, cachename, searchdir);
    if model.Err? {
      return Err(model.error);
    }
    var json := Index(model.value, cachename);
    if json.Err? {
      return Err(json.error);
    }
    var e := new CachedEntity(cachename, json.value);
    return Ok(e);
  }

  /** A cache file written into a directory is what the lookup from there returns. */
  lemma CachedRoundTrip(fs: FileSystem, dir: string, cachename: string, json: Json)
    requires IsDir(fs, dir)
    ensures var target := CacheTarget(fs, dir);
      var doc := JObj(map[cachename := json]);
      var fs2 := fs.(files := fs.files + {target}, docs := fs.docs[target := doc]);
      StaffeliYml(fs2, cachename, dir, 9) == Ok(doc) && Index(doc, cachename) == Ok(json)
  {
    var target := PathJoin(dir, StaffeliFilename);
    var doc := JObj(map[cachename := json]);
    var fs2 := fs.(files := fs.files + {target}, docs := fs.docs[target := doc]);
    assert Probe(dir, 0, StaffeliFilename) == target;
    assert FirstInLevel(fs2, [StaffeliFilename], Up(0, dir), 0) == Some(target);
    assert FirstHit(fs2, [StaffeliFilename], dir) == Some(target);
    assert map[cachename := json].Keys == {cachename};
    assert Accepts(doc, cachename) == Ok(true);
  }

  // ---------------------------------------------------------------- _ppnames

  const QuoteSep := "\", \""

  /** `_ppnames`: the names in double quotes, separated by a comma and a space. */
  function PPNames(names: seq<string>): (r: string)
    ensures |r| >= 2 && r[0] == '"' && r[|r| - 1] == '"'
  {
    "\"" + Join(names, QuoteSep) + "\""
  }

  /** Names without a double quote in them are read back from their quoted list. */
  lemma PPNamesRoundTrip(names: seq<string>)
    requires |names| >= 1
    requires forall k :: 0 <= k < |names| ==> '"' !in names[k]
    ensures Split(DropEnds(PPNames(names)), QuoteSep) == names
  {
    var inner := Join(names, QuoteSep);
    assert DropEnds(PPNames(names)) == inner;
    SplitJoin(names, QuoteSep);
  }

  /** One name is quoted on its own; the empty list gives a pair of quotes. */
  lemma PPNamesSmall(n: string)
    ensures PPNames([n]) == "\"" + n + "\""
    ensures PPNames([]) == "\"\""
  {
  }

  // ---------------------------------------------------------------- NamedEntity

  /** `NamedEntity.__init__`: unlike `ListedEntity` it always needs a list, and its failure message differs. */
  method NewNamedEntity(entities: seq<Entity>, name: Option<string>, id: Option<int>)
    returns (r: Result<ListedEntity>)
    ensures name.None? && id.None? ==> r == Err(Failure("For me to find a course, you must provide a name or id."))
    ensures name.Some? || id.Some? ==> (r.Ok? <==> ListedSelect(Some(entities), name, id, None).Ok?)
    ensures name.Some? || id.Some? ==> r.Err? ==> r.error == ListedSelect(Some(entities), name, id, None).error
    ensures r.Ok? ==> fresh(r.value) && r.value.json == ListedSelect(Some(entities), name, id, None).value
    ensures r.Ok? ==> r.value.id == r.value.json.id && r.value.displayname == r.value.json.name
  {
    var found: Result<Entity>;
    if name.Some? {
      found := LookupName(name.value, entities);
    } else if id.Some? {
      found := LookupId(id.value, entities);
    } else {
      return Err(Failure("For me to find a course, you must provide a name or id."));
    }
    if found.Err? {
      return Err(found.error);
    }
    var e := new ListedEntity(found.value);
    return Ok(e);
  }
}
