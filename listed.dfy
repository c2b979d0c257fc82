/**
 * Entity resolution (staffeli/listed.py): pick one record out of a list,
 * either by exact id or by a case-insensitive substring match on its name.
 * The copies in staffeli/canvas.py and lib/canvas.py behave identically;
 * src/canvas.py differs only on zero matches (see module SrcCanvas).
 */
module Listed {
  import opened Common

  /** A record as listed by Canvas: its `id` and `name` keys. */
  datatype Entity = Entity(id: int, name: string)

  /** `str.format("{} ({})", id, name)`: how an entity is offered when an id is not found. */
  function IdOption(e: Entity): string
  {
    IntToString(e.id) + " (" + e.name + ")"
  }

  function IdOptions(es: seq<Entity>): (r: seq<string>)
    ensures |r| == |es| && forall k :: 0 <= k < |es| ==> r[k] == IdOption(es[k])
  {
    if es == [] then [] else [IdOption(es[0])] + IdOptions(es[1..])
  }

  function Names(es: seq<Entity>): (r: seq<string>)
    ensures |r| == |es| && forall k :: 0 <= k < |es| ==> r[k] == es[k].name
  {
    if es == [] then [] else [es[0].name] + Names(es[1..])
  }

  // ---------------------------------------------------------------- by id

  /** The position of the first entity carrying `id`. */
  function IndexOfId(id: int, es: seq<Entity>): (r: Option<nat>)
    ensures r.Some? ==> r.value < |es| && es[r.value].id == id
    ensures r.Some? ==> forall j :: 0 <= j < r.value ==> es[j].id != id
    ensures r.None? <==> forall j :: 0 <= j < |es| ==> es[j].id != id
  {
    if es == [] then None
    else if es[0].id == id then Some(0)
    else match IndexOfId(id, es[1..])
      case None => None
      case Some(k) => Some(k + 1)
  }

  /** What `_lookup_id` returns or raises. */
  function IdLookup(id: int, es: seq<Entity>): Result<Entity>
  {
    match IndexOfId(id, es)
    case Some(k) => Ok(es[k])
    case None => Err(NoCandidate(IdOptions(es)))
  }

  /** `_lookup_id`: scan in list order and return the first entity whose id matches. */
  method LookupId(id: int, entities: seq<Entity>) returns (r: Result<Entity>)
    ensures r == IdLookup(id, entities)
  {
    var i := 0;
    while i < |entities|
      invariant 0 <= i <= |entities|
      invariant forall j :: 0 <= j < i ==> entities[j].id != id
    {
      if entities[i].id == id {
        return Ok(entities[i]);
      }
      i := i + 1;
    }
    var ids := [];
    for k := 0 to |entities|
      invariant |ids| == k && forall j :: 0 <= j < k ==> ids[j] == IdOption(entities[j])
    {
      ids := ids + [IdOption(entities[k])];
    }
    assert ids == IdOptions(entities);
    return Err(NoCandidate(ids));
  }

  /** The first entity with the id is returned; without one, every entity is offered, in order. */
  lemma IdLookupSpec(id: int, es: seq<Entity>)
    ensures IdLookup(id, es).Ok? <==> exists k :: 0 <= k < |es| && es[k].id == id
    ensures IdLookup(id, es).Ok? ==>
      exists k :: 0 <= k < |es| && IdLookup(id, es).value == es[k] && es[k].id == id &&
        forall j :: 0 <= j < k ==> es[j].id != id
    ensures IdLookup(id, es).Err? ==>
      IdLookup(id, es).error == NoCandidate(IdOptions(es)) &&
      forall k :: 0 <= k < |IdOptions(es)| ==> IdOptions(es)[k] == IdOption(es[k])
  {
    match IndexOfId(id, es)
    case Some(k) =>
    case None =>
  }

  // ---------------------------------------------------------------- by name

  /** `name.lower() in entity['name'].lower()`. */
  predicate Matches(query: string, e: Entity)
  {
    Contains(Lower(query), Lower(e.name))
  }

  /** The entities whose name matches, in list order. */
  function NameMatches(query: string, es: seq<Entity>): seq<Entity>
  {
    if es == [] then []
    else NameMatches(query, es[..|es| - 1]) + (if Matches(query, es[|es| - 1]) then [es[|es| - 1]] else [])
  }

  /** What `_lookup_name` returns or raises. */
  function NameLookup(query: string, es: seq<Entity>): Result<Entity>
  {
    var m := NameMatches(query, es);
    if |m| > 1 then Err(MultipleCandidates(Names(m)))
    else if |m| == 0 then Err(NoCandidate(Names(es)))
    else Ok(m[0])
  }

  /** The accumulating loop of `_lookup_name`. */
  method CollectMatches(query: string, entities: seq<Entity>) returns (matches: seq<Entity>)
    ensures matches == NameMatches(query, entities)
  {
    matches := [];
    for i := 0 to |entities|
      invariant matches == NameMatches(query, entities[..i])
    {
      assert entities[..i + 1][..i] == entities[..i];
      if Contains(Lower(query), Lower(entities[i].name)) {
        matches := matches + [entities[i]];
      }
    }
    assert entities[..|entities|] == entities;
  }

  /** `_lookup_name`. */
  method LookupName(query: string, entities: seq<Entity>) returns (r: Result<Entity>)
    ensures r == NameLookup(query, entities)
  {
    var matches := CollectMatches(query, entities);
    if |matches| > 1 {
      var matching := CollectNames(matches);
      return Err(MultipleCandidates(matching));
    }
    if |matches| == 0 {
      var all := CollectNames(entities);
      return Err(NoCandidate(all));
    }
    return Ok(matches[0]);
  }

  /** `[entity['name'] for entity in entities]`. */
  method CollectNames(entities: seq<Entity>) returns (names: seq<string>)
    ensures names == Names(entities)
  {
    names := [];
    for k := 0 to |entities|
      invariant |names| == k && forall j :: 0 <= j < k ==> names[j] == entities[j].name
    {
      names := names + [entities[k].name];
    }
  }

  /** The matches are exactly the matching entities of the list. */
  lemma {:induction false} NameMatchesMembers(query: string, es: seq<Entity>, x: Entity)
    ensures x in NameMatches(query, es) <==> x in es && Matches(query, x)
    decreases |es|
  {
    if es != [] {
      var init := es[..|es| - 1];
      NameMatchesMembers(query, init, x);
      assert es == init + [es[|es| - 1]];
    }
  }

  /** A list with exactly one matching position yields exactly that entity. */
  lemma {:induction false} SoleMatch(query: string, es: seq<Entity>, k: nat)
    requires k < |es| && Matches(query, es[k])
    requires forall j :: 0 <= j < |es| && j != k ==> !Matches(query, es[j])
    ensures NameMatches(query, es) == [es[k]]
    decreases |es|
  {
    var n := |es| - 1;
    var init := es[..n];
    if k == n {
      NoMatches(query, init);
    } else {
      assert init[k] == es[k];
      SoleMatch(query, init, k);
    }
  }

  /** Two matching positions yield at least two matches. */
  lemma {:induction false} TwoMatches(query: string, es: seq<Entity>, i: nat, j: nat)
    requires i < j < |es| && Matches(query, es[i]) && Matches(query, es[j])
    ensures |NameMatches(query, es)| >= 2
    decreases |es|
  {
    var n := |es| - 1;
    var init := es[..n];
    assert init[i] == es[i];
    if j == n {
      NoMatches(query, init);
    } else {
      assert init[j] == es[j];
      TwoMatches(query, init, i, j);
    }
  }

  /** One match means one matching position; the match is the entity at that position. */
  lemma SingleMatch(query: string, es: seq<Entity>)
    ensures |NameMatches(query, es)| == 1 <==>
      exists k :: 0 <= k < |es| && Matches(query, es[k]) &&
        forall j :: 0 <= j < |es| && j != k ==> !Matches(query, es[j])
    ensures |NameMatches(query, es)| == 1 ==>
      forall k :: 0 <= k < |es| && Matches(query, es[k]) ==> NameMatches(query, es)[0] == es[k]
  {
    if |NameMatches(query, es)| == 1 {
      var x := NameMatches(query, es)[0];
      NameMatchesMembers(query, es, x);
      var k :| 0 <= k < |es| && es[k] == x;
      forall j | 0 <= j < |es| && j != k ensures !Matches(query, es[j]) {
        if Matches(query, es[j]) {
          if j < k { TwoMatches(query, es, j, k); } else { TwoMatches(query, es, k, j); }
        }
      }
      SoleMatch(query, es, k);
    }
    if exists k :: 0 <= k < |es| && Matches(query, es[k]) &&
        forall j :: 0 <= j < |es| && j != k ==> !Matches(query, es[j]) {
      var k :| 0 <= k < |es| && Matches(query, es[k]) &&
        forall j :: 0 <= j < |es| && j != k ==> !Matches(query, es[j]);
      SoleMatch(query, es, k);
    }
  }

  /** No match means no matching position. */
  lemma {:induction false} NoMatches(query: string, es: seq<Entity>)
    ensures |NameMatches(query, es)| == 0 <==> forall k :: 0 <= k < |es| ==> !Matches(query, es[k])
    decreases |es|
  {
    if es != [] {
      var init := es[..|es| - 1];
      NoMatches(query, init);
      assert forall j :: 0 <= j < |init| ==> init[j] == es[j];
    }
  }

  /**
   * `_lookup_name` succeeds exactly when one position of the list matches and
   * then returns the entity there; several matches list the matching names and
   * zero matches list every name.
   */
  lemma NameLookupSpec(query: string, es: seq<Entity>)
    ensures NameLookup(query, es).Ok? <==>
      exists k :: 0 <= k < |es| && Matches(query, es[k]) &&
        forall j :: 0 <= j < |es| && j != k ==> !Matches(query, es[j])
    ensures NameLookup(query, es).Ok? ==>
      NameLookup(query, es).value in es && Matches(query, NameLookup(query, es).value)
    ensures (forall k :: 0 <= k < |es| ==> !Matches(query, es[k])) ==>
      NameLookup(query, es) == Err(NoCandidate(Names(es)))
    ensures |NameMatches(query, es)| > 1 ==>
      NameLookup(query, es) == Err(MultipleCandidates(Names(NameMatches(query, es))))
  {
    var m := NameMatches(query, es);
    SingleMatch(query, es);
    NoMatches(query, es);
    if |m| == 1 {
      assert NameLookup(query, es) == Ok(m[0]);
      NameMatchesMembers(query, es, m[0]);
    } else if |m| == 0 {
      assert NameLookup(query, es) == Err(NoCandidate(Names(es)));
    } else {
      assert NameLookup(query, es) == Err(MultipleCandidates(Names(m)));
    }
  }

  lemma {:induction false} EmptyIsPrefix(s: string)
    ensures Contains("", s)
  {
  }

  /** An empty query matches every entity. */
  lemma {:induction false} EmptyQueryMatchesAll(es: seq<Entity>)
    ensures NameMatches("", es) == es
    decreases |es|
  {
    if es != [] {
      EmptyQueryMatchesAll(es[..|es| - 1]);
      EmptyIsPrefix(Lower(es[|es| - 1].name));
      assert es == es[..|es| - 1] + [es[|es| - 1]];
    }
  }

  /** So an empty query is ambiguous as soon as two entities are listed. */
  lemma EmptyQueryAmbiguous(es: seq<Entity>)
    requires |es| >= 2
    ensures NameLookup("", es) == Err(MultipleCandidates(Names(es)))
  {
    EmptyQueryMatchesAll(es);
  }

  /** An exact name is no tie-breaker: a second matching entity still makes the lookup fail. */
  lemma ExactNameStillAmbiguous(query: string, es: seq<Entity>, i: nat, j: nat)
    requires i < |es| && j < |es| && i != j
    requires es[i].name == query && Matches(query, es[j])
    ensures NameLookup(query, es).Err? && NameLookup(query, es).error.MultipleCandidates?
  {
    ContainsSelf(Lower(query));
    assert Matches(query, es[i]);
    if i < j { TwoMatches(query, es, i, j); } else { TwoMatches(query, es, j, i); }
  }

  lemma {:induction false} ContainsSelf(s: string)
    ensures Contains(s, s)
  {
    assert s[..|s|] == s;
  }

  // ---------------------------------------------------------------- construction

  /**
   * Which record `ListedEntity.__init__` ends up holding, or why it raises.
   * `prior` is the `json` a subclass may already have loaded from its cache
   * before calling this constructor without a list.
   */
  function ListedSelect(entities: Option<seq<Entity>>, name: Option<string>, id: Option<int>,
                        prior: Option<Entity>): Result<Entity>
  {
    match entities
    case None =>
      if prior.Some? then Ok(prior.value) else Err(Failure("ListedEntity initialized with insufficient data"))
    case Some(es) =>
      if name.Some? then NameLookup(name.value, es)
      else if id.Some? then IdLookup(id.value, es)
      else Err(Failure("a name or id must be provided"))
  }

  /**
   * Given a list, a successful construction holds an element of it: the
   * unique name match when a name is given (the id is then ignored),
   * otherwise the first entity with the id; with neither it fails. Without
   * a list the record already loaded is kept, and there must be one.
   */
  lemma ListedSelectSpec(entities: Option<seq<Entity>>, name: Option<string>, id: Option<int>, prior: Option<Entity>)
    ensures entities.Some? && name.None? && id.None? ==> ListedSelect(entities, name, id, prior).Err?
    ensures entities.None? ==> (ListedSelect(entities, name, id, prior).Ok? <==> prior.Some?)
    ensures entities.None? && prior.Some? ==> ListedSelect(entities, name, id, prior).value == prior.value
    ensures entities.Some? && ListedSelect(entities, name, id, prior).Ok? ==>
      ListedSelect(entities, name, id, prior).value in entities.value
    ensures entities.Some? && ListedSelect(entities, name, id, prior).Ok? && name.Some? ==>
      Matches(name.value, ListedSelect(entities, name, id, prior).value)
    ensures entities.Some? && ListedSelect(entities, name, id, prior).Ok? && name.None? ==>
      id.Some? && ListedSelect(entities, name, id, prior).value.id == id.value
  {
    if entities.Some? {
      var es := entities.value;
      if name.Some? {
        assert ListedSelect(entities, name, id, prior) == NameLookup(name.value, es);
        NameLookupSpec(name.value, es);
      } else if id.Some? {
        assert ListedSelect(entities, name, id, prior) == IdLookup(id.value, es);
        IdLookupSpec(id.value, es);
      }
    }
  }

  /** `ListedEntity`: the chosen record and the two fields read off it. */
  class ListedEntity {
    var json: Entity
    var id: int
    var displayname: string

    constructor (json: Entity)
      ensures this.json == json && id == json.id && displayname == json.name
    {
      this.json := json;
      this.id := json.id;
      this.displayname := json.name;
    }
  }

  /** `ListedEntity.__init__`: resolve by name, else by id, then read `id` and `name` off the record. */
  method NewListedEntity(entities: Option<seq<Entity>>, name: Option<string>, id: Option<int>, prior: Option<Entity>)
    returns (r: Result<ListedEntity>)
    ensures r.Ok? <==> ListedSelect(entities, name, id, prior).Ok?
    ensures r.Ok? ==> fresh(r.value) && r.value.json == ListedSelect(entities, name, id, prior).value
    ensures r.Ok? ==> r.value.id == r.value.json.id && r.value.displayname == r.value.json.name
    ensures r.Err? ==> r.error == ListedSelect(entities, name, id, prior).error
  {
    var found: Result<Entity>;
    if entities.None? {
      if prior.None? {
        return Err(Failure("ListedEntity initialized with insufficient data"));
      }
      found := Ok(prior.value);
    } else if name.Some? {
      found := LookupName(name.value, entities.value);
    } else if id.Some? {
      found := LookupId(id.value, entities.value);
    } else {
      return Err(Failure("a name or id must be provided"));
    }
    if found.Err? {
      return Err(found.error);
    }
    var e := new ListedEntity(found.value);
    return Ok(e);
  }
}
