/**
 * The stand-alone download script subsets/linalg17/staffeli.py: the
 * unique-key lookup `_find_key`, the section and student dictionaries of
 * `_get_sections`, the submission dictionary of `_get_submissions`, and
 * the names of the folders the script fills. Its request helpers coincide
 * with the typed client's and are modelled there.
 */
module Linalg {
  import opened Common
  import opened Os
  import opened Listed

  // ---------------------------------------------------------------- _find_key

  /** The keys that contain the needle, ignoring case, in list order. */
  function KeyMatches(keys: seq<string>, needle: string): seq<string>
  {
    if keys == [] then []
    else
      var last := keys[|keys| - 1];
      KeyMatches(keys[..|keys| - 1], needle) + (if Contains(Lower(needle), Lower(last)) then [last] else [])
  }

  /** What `_find_key` returns or raises. */
  function KeyLookup(keys: seq<string>, needle: string): Result<string>
  {
    var c := KeyMatches(keys, needle);
    if |c| > 1 then Err(MultipleCandidates(c))
    else if |c| == 0 then Err(NoCandidate(keys))
    else Ok(c[0])
  }

  /** `_find_key`. */
  method FindKey(keys: seq<string>, needle: string) returns (r: Result<string>)
    ensures r == KeyLookup(keys, needle)
  {
    var candidates := [];
    var lowerNeedle := Lower(needle);
    for i := 0 to |keys|
      invariant candidates == KeyMatches(keys[..i], needle)
    {
      assert keys[..i + 1][..i] == keys[..i];
      if Contains(lowerNeedle, Lower(keys[i])) {
        candidates := candidates + [keys[i]];
      }
    }
    assert keys[..|keys|] == keys;
    if |candidates| > 1 {
      return Err(MultipleCandidates(candidates));
    } else if |candidates| == 0 {
      return Err(NoCandidate(keys));
    }
    return Ok(candidates[0]);
  }

  /** The keys as entities named by them, numbered by position. */
  function Keyed(keys: seq<string>): (es: seq<Entity>)
    ensures |es| == |keys| && forall i :: 0 <= i < |keys| ==> es[i] == Entity(i, keys[i])
  {
    if keys == [] then [] else Keyed(keys[..|keys| - 1]) + [Entity(|keys| - 1, keys[|keys| - 1])]
  }

  lemma NamesAppend(a: seq<Entity>, b: seq<Entity>)
    ensures Names(a + b) == Names(a) + Names(b)
  {
  }

  /** The candidates are the names of the entities the name lookup matches. */
  lemma {:induction false} KeyMatchesAsNames(keys: seq<string>, needle: string)
    ensures KeyMatches(keys, needle) == Names(NameMatches(needle, Keyed(keys)))
    decreases |keys|
  {
    if keys != [] {
      var n := |keys| - 1;
      var es := Keyed(keys);
      assert es[..n] == Keyed(keys[..n]);
      KeyMatchesAsNames(keys[..n], needle);
      var tail := if Matches(needle, es[n]) then [es[n]] else [];
      NamesAppend(NameMatches(needle, es[..n]), tail);
    }
  }

  /**
   * `_find_key` is the name lookup over the keys: it returns the key the
   * entity lookup would return, and fails with the same candidate lists.
   */
  lemma FindKeyAsNameLookup(keys: seq<string>, needle: string)
    ensures KeyLookup(keys, needle) ==
      match NameLookup(needle, Keyed(keys))
      case Ok(e) => Ok(e.name)
      case Err(x) => Err(x)
  {
    KeyMatchesAsNames(keys, needle);
    assert Names(Keyed(keys)) == keys;
  }

  /** The candidates are exactly the keys containing the needle, ignoring case; only a single one is returned. */
  lemma KeyLookupSpec(keys: seq<string>, needle: string, k: string)
    ensures k in KeyMatches(keys, needle) <==> k in keys && Contains(Lower(needle), Lower(k))
    ensures KeyLookup(keys, needle) == Ok(k) ==> KeyMatches(keys, needle) == [k]
    ensures KeyLookup(keys, needle).Ok? <==> |KeyMatches(keys, needle)| == 1
  {
    KeyMatchesAsNames(keys, needle);
    var es := Keyed(keys);
    var m := NameMatches(needle, es);
    if k in KeyMatches(keys, needle) {
      var i :| 0 <= i < |m| && m[i].name == k;
      NameMatchesMembers(needle, es, m[i]);
    }
    if k in keys && Contains(Lower(needle), Lower(k)) {
      var i :| 0 <= i < |keys| && keys[i] == k;
      assert es[i] == Entity(i, k);
      NameMatchesMembers(needle, es, es[i]);
      var j :| 0 <= j < |m| && m[j] == es[i];
      assert Names(m)[j] == k;
    }
  }

  // ---------------------------------------------------------------- _get_sections

  /** `{r['name']: r['id'] for r in results}` as the pairs it inserts. */
  function SectionPairs(results: seq<Json>): (r: Result<seq<(Json, Json)>>)
    ensures r.Ok? <==> forall j :: 0 <= j < |results| ==> NamedSection(results[j])
    ensures r.Ok? ==> |r.value| == |results|
    ensures r.Ok? ==> forall j :: 0 <= j < |results| ==> r.value[j] == (results[j].fields["name"], results[j].fields["id"])
  {
    if results == [] then Ok([])
    else
      var n := |results| - 1;
      var init :- SectionPairs(results[..n]);
      var last := results[n];
      if !last.JObj? then Err(Failure("TypeError: indices must be integers"))
      else if "name" !in last.fields then Err(Failure("KeyError: name"))
      else if "id" !in last.fields then Err(Failure("KeyError: id"))
      else if !Hashable(last.fields["name"]) then Err(Failure("TypeError: unhashable type"))
      else Ok(init + [(last.fields["name"], last.fields["id"])])
  }

  /** A section the comprehension accepts: a dictionary with a hashable `name` and an `id`. */
  predicate NamedSection(r: Json)
  {
    r.JObj? && "name" in r.fields && "id" in r.fields && Hashable(r.fields["name"])
  }

  /** What `for s in r['students']` iterates over; an empty dictionary or text iterates over nothing. */
  function StudentItems(r: Json): (s: Result<seq<Json>>)
    ensures s.Ok? ==> r.JObj? && "students" in r.fields
    ensures s.Ok? && r.fields["students"].JList? ==> s.value == r.fields["students"].items
  {
    if !r.JObj? then Err(Failure("TypeError: indices must be integers"))
    else if "students" !in r.fields then Err(Failure("KeyError: students"))
    else match r.fields["students"]
      case JList(items) => Ok(items)
      case JObj(f) => if |f| == 0 then Ok([]) else Err(Failure("TypeError: str does not support item assignment"))
      case JStr(t) => if |t| == 0 then Ok([]) else Err(Failure("TypeError: str does not support item assignment"))
      case _ => Err(Failure("TypeError: not iterable"))
  }

  /** `s['section'] = name` followed by `students[s['id']] = s`, as the pair inserted. */
  function TagOne(name: Json, s: Json): (r: Result<(Json, Json)>)
    ensures r.Ok? <==> s.JObj? && "id" in s.fields && Hashable(s.fields["id"])
    ensures r.Ok? ==> r.value == (s.fields["id"], JObj(s.fields["section" := name]))
  {
    if !s.JObj? then Err(Failure("TypeError: item assignment"))
    else
      var tagged := s.fields["section" := name];
      if "id" !in tagged then Err(Failure("KeyError: id"))
      else if !Hashable(tagged["id"]) then Err(Failure("TypeError: unhashable type"))
      else Ok((tagged["id"], JObj(tagged)))
  }

  /** The pairs the inner loop inserts for one section's students, in order. */
  function TagAll(name: Json, items: seq<Json>): Result<seq<(Json, Json)>>
  {
    if items == [] then Ok([])
    else
      var init :- TagAll(name, items[..|items| - 1]);
      var e :- TagOne(name, items[|items| - 1]);
      Ok(init + [e])
  }

  /** The loop files every student of the section, in order, and fails exactly when one of them fails. */
  lemma {:induction false} TagAllSpec(name: Json, items: seq<Json>)
    ensures TagAll(name, items).Ok? <==> forall i :: 0 <= i < |items| ==> TagOne(name, items[i]).Ok?
    ensures TagAll(name, items).Ok? ==>
      |TagAll(name, items).value| == |items| &&
      forall i :: 0 <= i < |items| ==> TagOne(name, items[i]) == Ok(TagAll(name, items).value[i])
    decreases |items|
  {
    if items != [] {
      var n := |items| - 1;
      TagAllSpec(name, items[..n]);
      assert forall i :: 0 <= i < n ==> items[..n][i] == items[i];
      if TagAll(name, items).Ok? {
        var init := TagAll(name, items[..n]).value;
        assert TagAll(name, items).value == init + [TagOne(name, items[n]).value];
      }
    }
  }

  /** The pairs one section contributes. */
  function SectionEntries(r: Json): Result<seq<(Json, Json)>>
  {
    var items :- StudentItems(r);
    if |items| == 0 then Ok([])
    else if "name" !in r.fields then Err(Failure("KeyError: name"))
    else TagAll(r.fields["name"], items)
  }

  /** The pairs the nested loops insert into `students`, section after section. */
  function StudentEntries(results: seq<Json>): Result<seq<(Json, Json)>>
  {
    if results == [] then Ok([])
    else
      Then(StudentEntries(results[..|results| - 1]), SectionEntries(results[|results| - 1]))
  }

  /** What `_get_sections` returns or raises for the list the request returned. */
  function GetSectionsOf(results: seq<Json>): Result<(map<Json, Json>, map<Json, Json>)>
  {
    var pairs :- SectionPairs(results);
    var entries :- StudentEntries(results);
    Ok((IndexOf(pairs), IndexOf(entries)))
  }

  /** `_get_sections`, after the listing request. */
  method GetSections(results: seq<Json>) returns (r: Result<(map<Json, Json>, map<Json, Json>)>)
    ensures r == GetSectionsOf(results)
  {
    var pairs := SectionPairs(results);
    if pairs.Err? {
      return Err(pairs.error);
    }
    var sections := IndexOf(pairs.value);
    var students: map<Json, Json> := map[];
    ghost var done: seq<(Json, Json)> := [];
    for i := 0 to |results|
      invariant StudentEntries(results[..i]) == Ok(done)
      invariant students == IndexOf(done)
    {
      assert results[..i + 1][..i] == results[..i];
      var section := results[i];
      var items := StudentItems(section);
      if items.Err? {
        StudentEntriesPrefixErr(results, i + 1);
        return Err(items.error);
      }
      var filed := FileStudents(students, done, section.fields["name"], items.value);
      if filed.Err? {
        StudentEntriesPrefixErr(results, i + 1);
        return Err(filed.error);
      }
      students := filed.value;
      done := done + TagAll(section.fields["name"], items.value).value;
    }
    assert results[..|results|] == results;
    return Ok((sections, students));
  }

  /** The inner loop of `_get_sections`: tag each student of one section and file it under its id. */
  method FileStudents(students: map<Json, Json>, ghost done: seq<(Json, Json)>, name: Json, items: seq<Json>)
    returns (r: Result<map<Json, Json>>)
    requires students == IndexOf(done)
    ensures r.Ok? <==> TagAll(name, items).Ok?
    ensures r.Ok? ==> r.value == IndexOf(done + TagAll(name, items).value)
    ensures r.Err? ==> r == Err(TagAll(name, items).error)
  {
    var filed := students;
    ghost var cur: seq<(Json, Json)> := [];
    assert done + cur == done;
    for j := 0 to |items|
      invariant TagAll(name, items[..j]) == Ok(cur)
      invariant filed == IndexOf(done + cur)
    {
      TagAllSnoc(name, items, j);
      var e := TagOne(name, items[j]);
      if e.Err? {
        assert TagAll(name, items[..j + 1]) == Err(e.error);
        TagAllPrefixErr(name, items, j + 1);
        return Err(e.error);
      }
      assert TagAll(name, items[..j + 1]) == Ok(cur + [e.value]);
      IndexOfSnoc(done + cur, e.value);
      filed := filed[e.value.0 := e.value.1];
      assert done + (cur + [e.value]) == done + cur + [e.value];
      cur := cur + [e.value];
    }
    assert items[..|items|] == items;
    return Ok(filed);
  }

  /** One more student extends the pairs by its own, or fails with it. */
  lemma TagAllSnoc(name: Json, items: seq<Json>, j: nat)
    requires j < |items|
    ensures TagAll(name, items[..j + 1]) ==
      match TagAll(name, items[..j])
      case Err(e) => Err(e)
      case Ok(init) => (match TagOne(name, items[j])
        case Err(e) => Err(e)
        case Ok(p) => Ok(init + [p]))
  {
    assert items[..j + 1][..j] == items[..j];
  }

  /** Inserting one more pair updates the dictionary at its key. */
  lemma IndexOfSnoc<K, V>(acc: seq<(K, V)>, e: (K, V))
    ensures IndexOf(acc + [e]) == IndexOf(acc)[e.0 := e.1]
  {
    assert (acc + [e])[..|acc|] == acc;
  }

  lemma {:induction false} TagAllPrefixErr(name: Json, items: seq<Json>, n: nat)
    requires n <= |items| && TagAll(name, items[..n]).Err?
    ensures TagAll(name, items) == TagAll(name, items[..n])
    decreases |items| - n
  {
    if n < |items| {
      assert items[..n + 1][..n] == items[..n];
      TagAllPrefixErr(name, items, n + 1);
    } else {
      assert items[..n] == items;
    }
  }

  lemma {:induction false} StudentEntriesPrefixErr(results: seq<Json>, n: nat)
    requires n <= |results| && StudentEntries(results[..n]).Err?
    ensures StudentEntries(results) == StudentEntries(results[..n])
    decreases |results| - n
  {
    if n < |results| {
      assert results[..n + 1][..n] == results[..n];
      StudentEntriesPrefixErr(results, n + 1);
    } else {
      assert results[..n] == results;
    }
  }

  /** Collecting two runs of sections collects the first run's pairs, then the second's. */
  lemma {:induction false} StudentEntriesAppend(a: seq<Json>, b: seq<Json>)
    requires StudentEntries(a + b).Ok?
    ensures StudentEntries(a).Ok? && StudentEntries(b).Ok?
    ensures StudentEntries(a + b).value == StudentEntries(a).value + StudentEntries(b).value
  {
    StudentEntriesThen(a, b);
  }

  lemma {:induction false} StudentEntriesThen(a: seq<Json>, b: seq<Json>)
    ensures StudentEntries(a + b) == Then(StudentEntries(a), StudentEntries(b))
    decreases |b|
  {
    if |b| == 0 {
      assert a + b == a;
      if StudentEntries(a).Ok? {
        assert StudentEntries(a).value + [] == StudentEntries(a).value;
      }
    } else {
      var b0 := b[..|b| - 1];
      StudentEntriesThen(a, b0);
      assert (a + b)[..|a + b| - 1] == a + b0;
      assert (a + b)[|a + b| - 1] == b[|b| - 1];
      ThenAssociative(StudentEntries(a), StudentEntries(b0), SectionEntries(b[|b| - 1]));
    }
  }


  lemma StudentEntriesSnoc(xs: seq<Json>, x: Json)
    ensures StudentEntries(xs + [x]) ==
      match StudentEntries(xs)
      case Err(e) => Err(e)
      case Ok(front) => (match SectionEntries(x)
        case Err(e) => Err(e)
        case Ok(last) => Ok(front + last))
  {
    assert (xs + [x])[..|xs|] == xs;
  }

  /** A section lists a student with id `k`. */
  predicate Lists(r: Json, k: Json)
  {
    StudentItems(r).Ok? && exists t :: t in StudentItems(r).value && t.JObj? && "id" in t.fields && t.fields["id"] == k
  }

  /** Every pair collected comes from a section listing a student with that id. */
  lemma {:induction false} EntriesListed(xs: seq<Json>, e: (Json, Json))
    requires StudentEntries(xs).Ok? && e in StudentEntries(xs).value
    ensures exists i :: 0 <= i < |xs| && Lists(xs[i], e.0)
    decreases |xs|
  {
    var n := |xs| - 1;
    var front := StudentEntries(xs[..n]).value;
    var mine := SectionEntries(xs[n]).value;
    assert StudentEntries(xs).value == front + mine;
    if e in front {
      EntriesListed(xs[..n], e);
      var i :| 0 <= i < n && Lists(xs[..n][i], e.0);
      assert xs[..n][i] == xs[i];
    } else {
      var items := StudentItems(xs[n]).value;
      TagAllSpec(xs[n].fields["name"], items);
      var i :| 0 <= i < |mine| && mine[i] == e;
      assert TagOne(xs[n].fields["name"], items[i]) == Ok(mine[i]);
      assert items[i] in items;
      assert Lists(xs[n], e.0);
    }
  }

  /**
   * A student is filed under its id and tagged with the name of the last
   * section listing a student with that id: a later section overwrites
   * the tag and the record of an earlier one.
   */
  lemma LastSectionWins(results: seq<Json>, j: nat, s: Json)
    requires GetSectionsOf(results).Ok?
    requires j < |results| && StudentItems(results[j]).Ok? && s in StudentItems(results[j]).value
    requires s.JObj? && "id" in s.fields
    requires forall i :: j < i < |results| ==> !Lists(results[i], s.fields["id"])
    ensures var students := GetSectionsOf(results).value.1;
      s.fields["id"] in students && students[s.fields["id"]].JObj? &&
      "section" in students[s.fields["id"]].fields &&
      students[s.fields["id"]].fields["section"] == results[j].fields["name"]
  {
    var k := s.fields["id"];
    var upto := results[..j + 1];
    var later := results[j + 1..];
    assert results == upto + later;
    StudentEntriesAppend(upto, later);
    forall i | 0 <= i < |later| ensures !Lists(later[i], k) {
      assert later[i] == results[j + 1 + i];
    }
    LaterNotFiled(later, k);
    UptoFiled(results, j, s);
    IndexOfAppend(StudentEntries(upto).value, StudentEntries(later).value);
  }

  /**
   * The record filed under a student's id is that student, tagged with its
   * section's name, when neither a later student of the same section nor a
   * later section shares the id.
   */
  lemma LastSectionRecord(results: seq<Json>, j: nat, p: nat)
    requires GetSectionsOf(results).Ok?
    requires j < |results| && StudentItems(results[j]).Ok? && p < |StudentItems(results[j]).value|
    requires var s := StudentItems(results[j]).value[p]; s.JObj? && "id" in s.fields
    requires var items := StudentItems(results[j]).value;
      forall q :: p < q < |items| ==> !(items[q].JObj? && "id" in items[q].fields && items[q].fields["id"] == items[p].fields["id"])
    requires forall i :: j < i < |results| ==> !Lists(results[i], StudentItems(results[j]).value[p].fields["id"])
    ensures var s := StudentItems(results[j]).value[p];
      var students := GetSectionsOf(results).value.1;
      s.fields["id"] in students && students[s.fields["id"]] == JObj(s.fields["section" := results[j].fields["name"]])
  {
    var s := StudentItems(results[j]).value[p];
    var k := s.fields["id"];
    var upto := results[..j + 1];
    var later := results[j + 1..];
    assert results == upto + later;
    StudentEntriesAppend(upto, later);
    forall i | 0 <= i < |later| ensures !Lists(later[i], k) {
      assert later[i] == results[j + 1 + i];
    }
    LaterNotFiled(later, k);
    UptoRecord(results, j, p);
    IndexOfAppend(StudentEntries(upto).value, StudentEntries(later).value);
  }

  /** The sections up to `j` file the last student of section `j` with a given id as that student, tagged. */
  lemma UptoRecord(results: seq<Json>, j: nat, p: nat)
    requires j < |results| && StudentEntries(results[..j + 1]).Ok?
    requires StudentItems(results[j]).Ok? && p < |StudentItems(results[j]).value|
    requires var s := StudentItems(results[j]).value[p]; s.JObj? && "id" in s.fields
    requires var items := StudentItems(results[j]).value;
      forall q :: p < q < |items| ==> !(items[q].JObj? && "id" in items[q].fields && items[q].fields["id"] == items[p].fields["id"])
    ensures var s := StudentItems(results[j]).value[p];
      var m := IndexOf(StudentEntries(results[..j + 1]).value);
      s.fields["id"] in m && m[s.fields["id"]] == JObj(s.fields["section" := results[j].fields["name"]])
  {
    var upto := results[..j + 1];
    assert upto[..|upto| - 1] == results[..j];
    assert upto[|upto| - 1] == results[j];
    var front := StudentEntries(results[..j]).value;
    var mine := SectionEntries(results[j]).value;
    assert StudentEntries(upto).value == front + mine;
    SectionRecord(results[j], p);
    IndexOfAppend(front, mine);
  }

  /** Within one section, the last student with an id is the record filed under it. */
  lemma SectionRecord(r: Json, p: nat)
    requires SectionEntries(r).Ok? && StudentItems(r).Ok? && p < |StudentItems(r).value|
    requires var s := StudentItems(r).value[p]; s.JObj? && "id" in s.fields
    requires var items := StudentItems(r).value;
      forall q :: p < q < |items| ==> !(items[q].JObj? && "id" in items[q].fields && items[q].fields["id"] == items[p].fields["id"])
    ensures var s := StudentItems(r).value[p];
      s.fields["id"] in IndexOf(SectionEntries(r).value) &&
      IndexOf(SectionEntries(r).value)[s.fields["id"]] == JObj(s.fields["section" := r.fields["name"]])
  {
    var items := StudentItems(r).value;
    var mine := SectionEntries(r).value;
    TagAllSpec(r.fields["name"], items);
    assert TagOne(r.fields["name"], items[p]) == Ok(mine[p]);
    forall q | p < q < |mine| ensures mine[q].0 != mine[p].0 {
      assert TagOne(r.fields["name"], items[q]) == Ok(mine[q]);
    }
    IndexOfLastWins(mine, p);
  }

  /** Sections none of which lists a student with id `k` file nothing under `k`. */
  lemma LaterNotFiled(later: seq<Json>, k: Json)
    requires StudentEntries(later).Ok?
    requires forall i :: 0 <= i < |later| ==> !Lists(later[i], k)
    ensures k !in IndexOf(StudentEntries(later).value)
  {
    var back := StudentEntries(later).value;
    IndexOfKeys(back, k);
    if k in IndexOf(back) {
      var i :| 0 <= i < |back| && back[i].0 == k;
      assert back[i] in back;
      EntriesListed(later, back[i]);
    }
  }

  /** The sections up to `j` file a student of section `j` under its id, tagged with that section's name. */
  lemma UptoFiled(results: seq<Json>, j: nat, s: Json)
    requires j < |results| && StudentEntries(results[..j + 1]).Ok?
    requires StudentItems(results[j]).Ok? && s in StudentItems(results[j]).value
    requires s.JObj? && "id" in s.fields
    ensures var m := IndexOf(StudentEntries(results[..j + 1]).value);
      s.fields["id"] in m && m[s.fields["id"]].JObj? &&
      "section" in m[s.fields["id"]].fields && m[s.fields["id"]].fields["section"] == results[j].fields["name"]
  {
    var upto := results[..j + 1];
    assert upto[..|upto| - 1] == results[..j];
    assert upto[|upto| - 1] == results[j];
    var front := StudentEntries(results[..j]).value;
    var mine := SectionEntries(results[j]).value;
    assert StudentEntries(upto).value == front + mine;
    SectionHolds(results[j], s);
    SectionValue(results[j], s.fields["id"]);
    IndexOfAppend(front, mine);
  }

  /** A student of a section is filed by that section under its id. */
  lemma SectionHolds(r: Json, s: Json)
    requires SectionEntries(r).Ok? && StudentItems(r).Ok? && s in StudentItems(r).value && s.JObj? && "id" in s.fields
    ensures s.fields["id"] in IndexOf(SectionEntries(r).value)
  {
    var items := StudentItems(r).value;
    var mine := SectionEntries(r).value;
    var i :| 0 <= i < |items| && items[i] == s;
    TagAllSpec(r.fields["name"], items);
    assert TagOne(r.fields["name"], items[i]) == Ok(mine[i]);
    IndexOfKeys(mine, s.fields["id"]);
  }

  /** Every value one section files is one of its students, tagged with the section's name. */
  lemma SectionValue(r: Json, k: Json)
    requires SectionEntries(r).Ok?
    ensures k in IndexOf(SectionEntries(r).value) ==>
      var v := IndexOf(SectionEntries(r).value)[k];
      "name" in r.fields && v.JObj? && "section" in v.fields && v.fields["section"] == r.fields["name"]
  {
    var mine := SectionEntries(r).value;
    var items := StudentItems(r).value;
    if k in IndexOf(mine) {
      TagAllSpec(r.fields["name"], items);
      IndexOfValue(mine, k);
      var i :| 0 <= i < |mine| && mine[i] == (k, IndexOf(mine)[k]) && forall j :: i < j < |mine| ==> mine[j].0 != k;
      assert TagOne(r.fields["name"], items[i]) == Ok(mine[i]);
    }
  }

  /** The section dictionary sends each name to the id of the last section carrying it. */
  lemma SectionIdsSpec(results: seq<Json>, j: nat)
    requires GetSectionsOf(results).Ok? && j < |results|
    requires forall i :: j < i < |results| ==> results[i].fields["name"] != results[j].fields["name"]
    ensures var sections := GetSectionsOf(results).value.0;
      results[j].fields["name"] in sections && sections[results[j].fields["name"]] == results[j].fields["id"]
  {
    var pairs := SectionPairs(results).value;
    IndexOfLastWins(pairs, j);
  }

  /** The keys of the section dictionary are exactly the sections' names. */
  lemma SectionNamesAreKeys(results: seq<Json>, n: Json)
    requires GetSectionsOf(results).Ok?
    ensures n in GetSectionsOf(results).value.0 <==> exists i :: 0 <= i < |results| && results[i].fields["name"] == n
  {
    var pairs := SectionPairs(results).value;
    IndexOfKeys(pairs, n);
    if n in GetSectionsOf(results).value.0 {
      var i :| 0 <= i < |pairs| && pairs[i].0 == n;
      assert results[i].fields["name"] == n;
    } else {
      forall i | 0 <= i < |results| ensures results[i].fields["name"] != n {
        assert pairs[i].0 == results[i].fields["name"];
      }
    }
  }

  // ---------------------------------------------------------------- _get_submissions

  /** `{r['user_id']: r for r in results}` as the pairs it inserts. */
  function SubmissionPairs(results: seq<Json>): (r: Result<seq<(Json, Json)>>)
    ensures r.Ok? <==> forall i :: 0 <= i < |results| ==>
      results[i].JObj? && "user_id" in results[i].fields && Hashable(results[i].fields["user_id"])
    ensures r.Ok? ==> |r.value| == |results|
    ensures r.Ok? ==> forall i :: 0 <= i < |results| ==> r.value[i] == (results[i].fields["user_id"], results[i])
  {
    if results == [] then Ok([])
    else
      var n := |results| - 1;
      var init :- SubmissionPairs(results[..n]);
      var last := results[n];
      if !last.JObj? then Err(Failure("TypeError: indices must be integers"))
      else if "user_id" !in last.fields then Err(Failure("KeyError: user_id"))
      else if !Hashable(last.fields["user_id"]) then Err(Failure("TypeError: unhashable type"))
      else Ok(init + [(last.fields["user_id"], last)])
  }

  /** The dictionary `_get_submissions` returns. */
  function SubmissionsByUser(results: seq<Json>): Result<map<Json, Json>>
  {
    var pairs :- SubmissionPairs(results);
    Ok(IndexOf(pairs))
  }

  /**
   * The submissions are keyed by exactly their `user_id`s, and each user
   * holds the last submission carrying that id.
   */
  lemma SubmissionsByUserSpec(results: seq<Json>, u: Json, i: nat)
    requires SubmissionsByUser(results).Ok?
    ensures u in SubmissionsByUser(results).value <==>
      exists j :: 0 <= j < |results| && results[j].fields["user_id"] == u
    ensures i < |results| && (forall j :: i < j < |results| ==> results[j].fields["user_id"] != results[i].fields["user_id"]) ==>
      results[i].fields["user_id"] in SubmissionsByUser(results).value &&
      SubmissionsByUser(results).value[results[i].fields["user_id"]] == results[i]
  {
    var pairs := SubmissionPairs(results).value;
    IndexOfKeys(pairs, u);
    if exists j :: 0 <= j < |results| && results[j].fields["user_id"] == u {
      var j :| 0 <= j < |results| && results[j].fields["user_id"] == u;
      assert pairs[j].0 == u;
    }
    if i < |results| && (forall j :: i < j < |results| ==> results[j].fields["user_id"] != results[i].fields["user_id"]) {
      IndexOfLastWins(pairs, i);
    }
  }

  // ---------------------------------------------------------------- submission folders

  /** The directory the script creates for a section: `ASSIGNMENT/` and the normalised section name. */
  function SectionDir(assignment: string, section: string): string
  {
    PathJoin(assignment, NormalizePathname(section))
  }

  /** `student['login_id'][:6] + '_' + str(user_id)`: the last component of a submission folder. */
  function FolderName(student: Json, userId: Json): Result<string>
  {
    if !student.JObj? || "login_id" !in student.fields then Err(Failure("KeyError: login_id"))
    else if !student.fields["login_id"].JStr? then Err(Failure("TypeError: can only concatenate str"))
    else match PyStr(userId)
      case None => Err(Failure("str of a container is not modelled"))
      case Some(u) => Ok(Prefix(student.fields["login_id"].s, 6) + "_" + u)
  }

  /** The folder of a submission as written: the section name is joined in without normalising it. */
  function SubmissionFolder(assignment: string, student: Json, userId: Json): Result<string>
  {
    var name :- FolderName(student, userId);
    if "section" !in student.fields then Err(Failure("KeyError: section"))
    else if !student.fields["section"].JStr? then Err(Failure("TypeError: join of a non-text"))
    else Ok(PathJoin(PathJoin(assignment, student.fields["section"].s), name))
  }

  /** The folder as evidently intended: inside the directory created for the student's section. */
  function IntendedSubmissionFolder(assignment: string, student: Json, userId: Json): Result<string>
  {
    var name :- FolderName(student, userId);
    if "section" !in student.fields then Err(Failure("KeyError: section"))
    else if !student.fields["section"].JStr? then Err(Failure("TypeError: join of a non-text"))
    else Ok(PathJoin(SectionDir(assignment, student.fields["section"].s), name))
  }

  /**
   * For a section whose name holds a `/`, the folder the script creates
   * lies in a directory that is none of the section directories it
   * created: `os.mkdir` of the folder then finds no parent.
   */
  lemma SlashedSectionMissesDir(assignment: string, student: Json, userId: Json, other: string)
    requires SubmissionFolder(assignment, student, userId).Ok?
    requires '/' in student.fields["section"].s
    requires '/' !in FolderName(student, userId).value
    ensures Dirname(SubmissionFolder(assignment, student, userId).value) != SectionDir(assignment, other)
  {
    var section := student.fields["section"].s;
    DirnameJoin(PathJoin(assignment, section), FolderName(student, userId).value);
    NormalizePathnameSpec(other);
    var i :| 0 <= i < |section| && section[i] == '/';
    var p := PathJoin(assignment, section);
    var q := SectionDir(assignment, other);
    assert p[|assignment| + 1 + i] == '/';
  }

  /**
   * A concrete instance: the student of section "a/b" with login
   * "abc123@ku.dk" and user id 7 gets folder "A1/a/b/abc123_7", whose
   * parent "A1/a/b" is not the directory "A1/a_b" created for the section.
   */
  lemma SlashedSectionExample()
    ensures var student := JObj(map["login_id" := JStr("abc123@ku.dk"), "section" := JStr("a/b")]);
      SubmissionFolder("A1", student, JInt(7)) == Ok("A1/a/b/abc123_7") &&
      Dirname("A1/a/b/abc123_7") == "A1/a/b" &&
      SectionDir("A1", "a/b") == "A1/a_b"
  {
    ExampleFolder();
    ExampleParent();
    ExampleSectionDir();
  }

  lemma ExampleFolder()
    ensures var student := JObj(map["login_id" := JStr("abc123@ku.dk"), "section" := JStr("a/b")]);
      SubmissionFolder("A1", student, JInt(7)) == Ok("A1/a/b/abc123_7")
  {
    var f := map["login_id" := JStr("abc123@ku.dk"), "section" := JStr("a/b")];
    ExampleFolderName(f);
    assert PathJoin(PathJoin("A1", "a/b"), "abc123_7") == "A1/a/b/abc123_7";
  }

  lemma ExampleFolderName(f: map<string, Json>)
    requires "login_id" in f && f["login_id"] == JStr("abc123@ku.dk")
    ensures FolderName(JObj(f), JInt(7)) == Ok("abc123_7")
  {
    assert DigitChar(7) == '7';
    assert NatToString(7) == ['7'];
    assert IntToString(7) == "7";
    assert PyStr(JInt(7)) == Some("7");
    var p := Prefix("abc123@ku.dk", 6);
    assert p == "abc123";
    assert p + "_" + "7" == "abc123_7";
  }

  lemma ExampleParent()
    ensures Dirname("A1/a/b/abc123_7") == "A1/a/b"
  {
    assert PathJoin("A1/a/b", "abc123_7") == "A1/a/b/abc123_7";
    DirnameJoin("A1/a/b", "abc123_7");
  }

  lemma ExampleSectionDir()
    ensures SectionDir("A1", "a/b") == "A1/a_b"
  {
    NormalizePathnameSpec("a/b");
    var r := NormalizePathname("a/b");
    assert r[0] == 'a' && r[1] == '_' && r[2] == 'b';
  }

  /**
   * The intended folder of a student that `_get_sections` filed lies in
   * the directory created for one of the listed sections.
   */
  lemma IntendedFolderInSectionDir(assignment: string, results: seq<Json>, j: nat, s: Json, userId: Json)
    requires GetSectionsOf(results).Ok? && j < |results| && StudentItems(results[j]).Ok?
    requires s in StudentItems(results[j]).value && s.JObj? && "id" in s.fields
    requires forall i :: j < i < |results| ==> !Lists(results[i], s.fields["id"])
    requires results[j].fields["name"].JStr?
    requires var students := GetSectionsOf(results).value.1;
      s.fields["id"] in students && IntendedSubmissionFolder(assignment, students[s.fields["id"]], userId).Ok? &&
      '/' !in FolderName(students[s.fields["id"]], userId).value
    ensures var student := GetSectionsOf(results).value.1[s.fields["id"]];
      Dirname(IntendedSubmissionFolder(assignment, student, userId).value) == SectionDir(assignment, results[j].fields["name"].s) &&
      results[j].fields["name"] in GetSectionsOf(results).value.0
  {
    LastSectionWins(results, j, s);
    var student := GetSectionsOf(results).value.1[s.fields["id"]];
    DirnameJoin(SectionDir(assignment, student.fields["section"].s), FolderName(student, userId).value);
    var pairs := SectionPairs(results).value;
    IndexOfKeys(pairs, results[j].fields["name"]);
    assert pairs[j].0 == results[j].fields["name"];
  }

  /** Students with distinct user ids get distinct folder names when the login prefixes hold no `_`. */
  lemma FolderNameInjective(s1: Json, u1: int, s2: Json, u2: int)
    requires FolderName(s1, JInt(u1)).Ok? && FolderName(s2, JInt(u2)).Ok?
    requires '_' !in Prefix(s1.fields["login_id"].s, 6) && '_' !in Prefix(s2.fields["login_id"].s, 6)
    requires FolderName(s1, JInt(u1)) == FolderName(s2, JInt(u2))
    ensures u1 == u2
  {
    var a1, a2 := Prefix(s1.fields["login_id"].s, 6), Prefix(s2.fields["login_id"].s, 6);
    var t1, t2 := IntToString(u1), IntToString(u2);
    UnderscoreJoinInjective(a1, t1, a2, t2);
    IntToStringInjective(u1, u2);
  }
}
