/**
 * The client in src/canvas.py: arguments handed to the request as they
 * are, a name lookup whose zero-match branch refers to undefined names,
 * a student roster taken from the first section only, and the same
 * command-line pairing without the `per_page` entry.
 */
module SrcCanvas {
  import opened Common
  import opened Listed
  import opened TypedCanvas
  import StaffeliCanvas

  // ---------------------------------------------------------------- _call_api

  /** The pairs `_call_api` encodes: the `_arg_list` when given, else the keywords in their given order. */
  function CallApiQuery(argList: Option<seq<Pair>>, keywords: seq<Pair>): (r: seq<Pair>)
    ensures argList.Some? ==> r == argList.value
    ensures argList.None? ==> |r| == |keywords| && forall k :: DictGet(r, k) == DictGet(keywords, k)
  {
    if argList.Some? then argList.value else keywords
  }

  /**
   * Here keyword arguments reach the server under their own names, as the
   * older client intended; that client additionally sends `per_page`.
   */
  lemma CallApiIsIntended(keywords: seq<Pair>)
    ensures CallApiQuery(None, keywords) + [StaffeliCanvas.PerPage] == StaffeliCanvas.IntendedKeywordQuery(keywords)
    ensures forall k :: k != "per_page" ==>
      DictGet(StaffeliCanvas.IntendedKeywordQuery(keywords), k) == DictGet(CallApiQuery(None, keywords), k)
  {
    forall k | k != "per_page"
      ensures DictGet(StaffeliCanvas.IntendedKeywordQuery(keywords), k) == DictGet(CallApiQuery(None, keywords), k)
    {
      StaffeliCanvas.IntendedKeywordQuerySpec(keywords, k);
    }
  }

  // ---------------------------------------------------------------- _lookup_name

  /**
   * The failure of the zero-match branch: neither `attr` nor `key` is
   * defined in `_lookup_name`. The comprehension meets `attr` first, unless
   * there are no entities for it to evaluate `attr` on.
   */
  function UndefinedName(es: seq<Entity>): Error
  {
    if es == [] then Failure("NameError: name 'key' is not defined")
    else Failure("NameError: name 'attr' is not defined")
  }

  /** What `_lookup_name` returns or raises as written: no match fails on an undefined name. */
  function SrcNameLookup(query: string, es: seq<Entity>): Result<Entity>
  {
    var m := NameMatches(query, es);
    if |m| > 1 then Err(MultipleCandidates(Names(m)))
    else if |m| == 0 then Err(UndefinedName(es))
    else Ok(m[0])
  }

  /** `_lookup_name`. */
  method LookupName(query: string, entities: seq<Entity>) returns (r: Result<Entity>)
    ensures r == SrcNameLookup(query, entities)
  {
    var matches := CollectMatches(query, entities);
    if |matches| > 1 {
      var matching := CollectNames(matches);
      return Err(MultipleCandidates(matching));
    }
    if |matches| == 0 {
      return Err(UndefinedName(entities));
    }
    return Ok(matches[0]);
  }

  /**
   * This lookup agrees with the listed module's wherever some entity
   * matches; with no match it fails on the undefined name instead of
   * offering the candidates.
   */
  lemma SrcNameLookupAgrees(query: string, es: seq<Entity>)
    ensures |NameMatches(query, es)| > 0 ==> SrcNameLookup(query, es) == NameLookup(query, es)
    ensures |NameMatches(query, es)| == 0 ==>
      SrcNameLookup(query, es) == Err(UndefinedName(es)) && NameLookup(query, es) == Err(NoCandidate(Names(es)))
  {
  }

  /**
   * With no entities at all the lookup fails on the undefined `key`, never
   * listing candidates; with entities but no match it fails on `attr`.
   */
  lemma NoEntitiesUndefinedName(query: string, es: seq<Entity>)
    ensures SrcNameLookup(query, []) == Err(Failure("NameError: name 'key' is not defined"))
    ensures es != [] && |NameMatches(query, es)| == 0 ==>
      SrcNameLookup(query, es) == Err(Failure("NameError: name 'attr' is not defined"))
    ensures NameLookup(query, []) == Err(NoCandidate([]))
  {
  }

  // ---------------------------------------------------------------- NamedEntity

  /** `NamedEntity.__init__` over this module's lookups. */
  method NewNamedEntity(entities: seq<Entity>, name: Option<string>, id: Option<int>)
    returns (r: Result<ListedEntity>)
    ensures name.Some? ==> (r.Ok? <==> SrcNameLookup(name.value, entities).Ok?)
    ensures name.Some? && r.Ok? ==> r.value.json == SrcNameLookup(name.value, entities).value
    ensures name.Some? && r.Err? ==> r.error == SrcNameLookup(name.value, entities).error
    ensures name.None? && id.Some? ==> (r.Ok? <==> IdLookup(id.value, entities).Ok?)
    ensures name.None? && id.Some? && r.Ok? ==> r.value.json == IdLookup(id.value, entities).value
    ensures name.None? && id.None? ==> r == Err(Failure("For me to find a course, you must provide a name or id."))
    ensures r.Ok? ==> fresh(r.value) && r.value.id == r.value.json.id && r.value.displayname == r.value.json.name
  {
    var found: Result<Entity>;
    if name.Some? {
      found := LookupName(name.value, entities);
    } else if id.Some? {
      found := LookupId(id.value, entities);
    } else {
      return Err(Failure("For me to find a course, you must provide a name or id."));
    }
    if found.Err? {
      return Err(found.error);
    }
    var e := new ListedEntity(found.value);
    return Ok(e);
  }

  // ---------------------------------------------------------------- all_students

  /** `sections[0]['students']` on whatever the sections request returned. */
  function FirstSectionStudents(sections: Json): (r: Result<Json>)
    ensures r.Ok? <==> sections.JList? && |sections.items| > 0 && sections.items[0].JObj? && "students" in sections.items[0].fields
    ensures r.Ok? ==> r.value == sections.items[0].fields["students"]
  {
    match sections
    case JList(items) =>
      if |items| == 0 then Err(Failure("IndexError: list index out of range"))
      else if !items[0].JObj? then Err(Failure("TypeError: indices must be integers"))
      else if "students" !in items[0].fields then Err(Failure("KeyError: students"))
      else Ok(items[0].fields["students"])
    case JObj(_) => Err(Failure("KeyError: 0"))
    case JStr(s) => if |s| == 0 then Err(Failure("IndexError: string index out of range")) else Err(Failure("TypeError: string indices must be integers"))
    case _ => Err(Failure("TypeError: not subscriptable"))
  }

  /**
   * For a course with one section (the case the source comment names) this
   * roster is the older client's; with a second section whose students
   * are not empty, that section's students are missing.
   */
  lemma FirstSectionOnly(first: map<string, Json>, rest: seq<Json>)
    requires "students" in first && first["students"].JList?
    ensures FirstSectionStudents(JList([JObj(first)] + rest)) == Ok(first["students"])
    ensures StaffeliCanvas.AllStudentsOf([JObj(first)]) == Ok(first["students"].items)
    ensures StaffeliCanvas.AllStudentsOf([JObj(first)] + rest).Ok? && StaffeliCanvas.AllStudentsOf(rest).Ok? ==>
      StaffeliCanvas.AllStudentsOf([JObj(first)] + rest).value ==
        first["students"].items + StaffeliCanvas.AllStudentsOf(rest).value
  {
    StaffeliCanvas.OneSection(first);
    StaffeliCanvas.AllStudentsAppend([JObj(first)], rest);
  }

  // ---------------------------------------------------------------- main

  /** `main`: as in the older client, but the pairs are sent without `per_page`. */
  function Main(args: seq<string>): Result<StaffeliCanvas.Invocation>
  {
    if |args| < 2 then Ok(StaffeliCanvas.Usage)
    else
      var verb, url, rest := Upper(args[0]), args[1], args[2..];
      if |rest| % 2 != 0 then Err(Failure("AssertionError"))
      else if verb != "GET" && verb != "POST" && verb != "PUT" then Err(Failure("KeyError: " + verb))
      else Ok(StaffeliCanvas.Call(verb, url, StaffeliCanvas.Pairs(rest)))
  }

  /** The two command lines accept the same arguments; the older one sends one pair more, `per_page`. */
  lemma MainAgrees(args: seq<string>)
    ensures Main(args).Ok? <==> StaffeliCanvas.Main(args).Ok?
    ensures Main(args) == Ok(StaffeliCanvas.Usage) <==> |args| < 2
    ensures Main(args).Ok? && Main(args).value.Call? ==>
      StaffeliCanvas.Main(args).value == Main(args).value.(query := Main(args).value.query + [StaffeliCanvas.PerPage]) &&
      StaffeliCanvas.Flatten(Main(args).value.query) == args[2..]
  {
    if |args| >= 2 && |args[2..]| % 2 == 0 {
      StaffeliCanvas.PairsRoundTrip(args[2..], []);
    }
  }
}
