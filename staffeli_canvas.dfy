/**
 * The older Canvas client (staffeli/canvas.py): request construction that
 * appends to the caller's argument list, the JSON redaction done before
 * caching, the student index, the concatenation of section rosters, the
 * duplicate check before creating a section, and the command-line pairing
 * of arguments.
 */
module StaffeliCanvas {
  import opened Common
  import opened Os
  import opened Files
  import opened Cachable
  import opened TypedCanvas

  // ---------------------------------------------------------------- _req

  /** A Python list of `(name, value)` pairs that the caller still holds. */
  class ArgList {
    var pairs: seq<Pair>

    constructor (pairs: seq<Pair>)
      ensures this.pairs == pairs
    {
      this.pairs := pairs;
    }
  }

  const PerPage: Pair := ("per_page", "9000")

  /** The query `_req` sends for keyword arguments: each `(key, value)` turned into `(value, key)`, then `per_page`. */
  function KeywordQuery(keywords: seq<Pair>): (r: seq<Pair>)
    ensures |r| == |keywords| + 1 && r[|keywords|] == PerPage
    ensures forall i :: 0 <= i < |keywords| ==> r[i] == (keywords[i].1, keywords[i].0)
  {
    Swap(keywords) + [PerPage]
  }

  /**
   * `_req`: with `_arg_list` the caller's own list gains `per_page` at its
   * end and is sent (the other keywords are dropped); otherwise the
   * keywords are sent swapped, followed by `per_page`.
   */
  method Req(token: string, verb: string, apiBase: string, urlRelative: string,
             argList: ArgList?, keywords: seq<Pair>)
    returns (r: Request)
    modifies argList
    ensures argList != null ==> argList.pairs == old(argList.pairs) + [PerPage] && r.query == argList.pairs
    ensures argList == null ==> r.query == KeywordQuery(keywords)
    ensures r.url == apiBase + urlRelative && r.verb == verb && r.authorization == "Bearer " + token
  {
    var args: seq<Pair>;
    if argList != null {
      argList.pairs := argList.pairs + [PerPage];
      args := argList.pairs;
    } else {
      args := Swap(keywords) + [PerPage];
    }
    r := Request(verb, apiBase + urlRelative, args, "Bearer " + token);
  }

  /** Swapping twice restores the pairs: the keyword query is the intended one with names and values exchanged. */
  lemma {:induction false} SwapInvolution(pairs: seq<Pair>)
    ensures Swap(Swap(pairs)) == pairs
  {
    assert forall i :: 0 <= i < |pairs| ==> Swap(Swap(pairs))[i] == pairs[i];
  }

  /** A keyword argument `name=x` reaches the server as the parameter `x` with value `name`. */
  lemma SwappedKeyword(name: string, x: string)
    requires name != x
    ensures DictGet(KeywordQuery([(name, x)]), x) == Some(name)
    ensures DictGet(KeywordQuery([(name, x)]), name) == (if name == "per_page" then Some("9000") else None)
  {
    var q := KeywordQuery([(name, x)]);
    assert q == [(x, name), PerPage];
    assert q[1..] == [PerPage] && q[1..][1..] == [];
    assert DictGet(q, name) == DictGet([PerPage], name);
    assert DictGet([PerPage], name) == if name == "per_page" then Some("9000") else DictGet([PerPage][1..], name);
  }

  /** The query keyword arguments were evidently meant to produce: the pairs as given, then `per_page`. */
  function IntendedKeywordQuery(keywords: seq<Pair>): (r: seq<Pair>)
    ensures |r| == |keywords| + 1
  {
    keywords + [PerPage]
  }

  /** In the intended query every keyword is sent under its own name with its own value. */
  lemma {:induction false} IntendedKeywordQuerySpec(keywords: seq<Pair>, k: string)
    requires k != "per_page"
    ensures DictGet(IntendedKeywordQuery(keywords), k) == DictGet(keywords, k)
    ensures Swap(KeywordQuery(keywords)[..|keywords|]) == keywords
    decreases |keywords|
  {
    if |keywords| > 0 {
      IntendedKeywordQuerySpec(keywords[1..], k);
      assert IntendedKeywordQuery(keywords)[1..] == IntendedKeywordQuery(keywords[1..]);
    } else {
      assert DictGet([PerPage], k) == DictGet([PerPage][1..], k);
    }
    SwapInvolution(keywords);
    assert KeywordQuery(keywords)[..|keywords|] == Swap(keywords);
  }

  // ---------------------------------------------------------------- publicjson

  /** `del j[key]` on a copy of `j`. */
  function DeleteKey(j: Json, key: string): (r: Result<Json>)
    ensures r.Ok? <==> j.JObj? && key in j.fields
    ensures r.Ok? ==> r.value == JObj(j.fields - {key})
  {
    match j
    case JObj(f) => if key in f then Ok(JObj(f - {key})) else Err(Failure("KeyError: " + key))
    case _ => Err(Failure("TypeError: deleting a key from a non-mapping"))
  }

  /** The loop `for cat in json: del cat[key]` over a list, on a deep copy. */
  function DeleteFromAll(items: seq<Json>, key: string): Result<seq<Json>>
  {
    if |items| == 0 then Ok([])
    else match DeleteFromAll(items[..|items| - 1], key)
      case Err(e) => Err(e)
      case Ok(done) =>
        match DeleteKey(items[|items| - 1], key)
        case Err(e) => Err(e)
        case Ok(d) => Ok(done + [d])
  }

  /** Deleting from every element succeeds iff each is an object with the key, and removes just that key. */
  lemma {:induction false} DeleteFromAllSpec(items: seq<Json>, key: string)
    ensures DeleteFromAll(items, key).Ok? <==>
      forall i :: 0 <= i < |items| ==> items[i].JObj? && key in items[i].fields
    ensures DeleteFromAll(items, key).Ok? ==>
      |DeleteFromAll(items, key).value| == |items| &&
      forall i :: 0 <= i < |items| ==> DeleteFromAll(items, key).value[i] == JObj(items[i].fields - {key})
    decreases |items|
  {
    if |items| > 0 {
      var init := items[..|items| - 1];
      DeleteFromAllSpec(init, key);
      assert forall i :: 0 <= i < |init| ==> init[i] == items[i];
    }
  }

  /**
   * `GroupCategoryList.publicjson`: iterating the copy deletes `is_member`
   * from each category; an empty dict or string iterates nothing.
   */
  function CategoriesPublic(json: Json): Result<Json>
  {
    match json
    case JList(items) =>
      (match DeleteFromAll(items, "is_member")
       case Err(e) => Err(e)
       case Ok(cats) => Ok(JObj(map["group_categories" := JList(cats)])))
    case JObj(f) => if |f| == 0 then Ok(JObj(map["group_categories" := json])) else Err(Failure("TypeError: deleting from a key"))
    case JStr(s) => if |s| == 0 then Ok(JObj(map["group_categories" := json])) else Err(Failure("TypeError: deleting from a character"))
    case _ => Err(Failure("TypeError: not iterable"))
  }

  class GroupCategoryList {
    var json: Json

    constructor (json: Json)
      ensures this.json == json
    {
      this.json := json;
    }

    /** `publicjson`: the deletions happen on a copy, so `json` itself is left as it was. */
    method PublicJson() returns (r: Result<Json>)
      ensures r == CategoriesPublic(json)
    {
      if !json.JList? {
        return CategoriesPublic(json);
      }
      var items := json.items;
      var copy: seq<Json> := [];
      var i := 0;
      while i < |items|
        invariant 0 <= i <= |items|
        invariant DeleteFromAll(items[..i], "is_member") == Ok(copy)
      {
        assert items[..i + 1][..i] == items[..i];
        var cat := DeleteKey(items[i], "is_member");
        if cat.Err? {
          assert DeleteFromAll(items[..i + 1], "is_member") == Err(cat.error);
          DeleteFromAllPrefixErr(items, "is_member", i + 1);
          return Err(cat.error);
        }
        copy := copy + [cat.value];
        i := i + 1;
      }
      assert items[..i] == items;
      return Ok(JObj(map["group_categories" := JList(copy)]));
    }
  }

  /** A failure on a prefix of the list is the failure of the whole list. */
  lemma {:induction false} DeleteFromAllPrefixErr(items: seq<Json>, key: string, n: nat)
    requires n <= |items| && DeleteFromAll(items[..n], key).Err?
    ensures DeleteFromAll(items, key) == DeleteFromAll(items[..n], key)
    decreases |items| - n
  {
    if n < |items| {
      assert items[..n + 1][..n] == items[..n];
      assert DeleteFromAll(items[..n + 1], key) == DeleteFromAll(items[..n], key);
      DeleteFromAllPrefixErr(items, key, n + 1);
    } else {
      assert items[..n] == items;
    }
  }

  /**
   * The published categories carry every field but `is_member`, under the
   * single key `group_categories`; it fails when a category lacks that
   * field.
   */
  lemma CategoriesPublicSpec(items: seq<Json>)
    ensures CategoriesPublic(JList(items)).Ok? <==>
      forall i :: 0 <= i < |items| ==> items[i].JObj? && "is_member" in items[i].fields
    ensures CategoriesPublic(JList(items)).Ok? ==>
      var r := CategoriesPublic(JList(items)).value;
      r.JObj? && r.fields.Keys == {"group_categories"} && r.fields["group_categories"].JList? &&
      |r.fields["group_categories"].items| == |items| &&
      forall i :: 0 <= i < |items| ==>
        r.fields["group_categories"].items[i] == JObj(items[i].fields - {"is_member"})
  {
    DeleteFromAllSpec(items, "is_member");
    if CategoriesPublic(JList(items)).Ok? {
      assert map["group_categories" := JList(DeleteFromAll(items, "is_member").value)].Keys == {"group_categories"};
    }
  }

  /** `Course.publicjson`: `{'course': json minus 'enrollments'}`. */
  function CoursePublic(json: Json): (r: Result<Json>)
    ensures r.Ok? <==> json.JObj? && "enrollments" in json.fields
    ensures r.Ok? ==> r.value == JObj(map["course" := JObj(json.fields - {"enrollments"})])
  {
    match DeleteKey(json, "enrollments")
    case Err(e) => Err(e)
    case Ok(j) => Ok(JObj(map["course" := j]))
  }

  /** A course cached into a directory reloads, from there, as its JSON without `enrollments`. */
  lemma CourseCacheRoundTrip(fs: FileSystem, dir: string, fields: map<string, Json>)
    requires IsDir(fs, dir) && "enrollments" in fields
    ensures var target := CacheTarget(fs, dir);
      var fs2 := fs.(files := fs.files + {target}, docs := fs.docs[target := CoursePublic(JObj(fields)).value]);
      CacheLoad(fs2, "course", dir, true) == Ok((dir, JObj(fields - {"enrollments"})))
  {
    CacheRoundTrip(fs, dir, "course", JObj(fields - {"enrollments"}));
  }

  // ---------------------------------------------------------------- StudentList

  /** `student['id']` used as a dict key: lists and dicts are unhashable. */
  function StudentId(student: Json): (r: Result<Json>)
    ensures r.Ok? ==> student.JObj? && "id" in student.fields && r.value == student.fields["id"]
    ensures r.Ok? ==> !r.value.JList? && !r.value.JObj?
  {
    match student
    case JObj(f) =>
      if "id" !in f then Err(Failure("KeyError: id"))
      else if f["id"].JList? || f["id"].JObj? then Err(Failure("TypeError: unhashable id"))
      else Ok(f["id"])
    case _ => Err(Failure("TypeError: student is not a mapping"))
  }

  /** The student after the loop: `kuid` is the first six characters of `sis_login_id`, when that is present. */
  function Tagged(student: Json): (r: Result<Json>)
    requires student.JObj?
  {
    var f := student.fields;
    if "sis_login_id" !in f then Ok(student)
    else match f["sis_login_id"]
      case JStr(s) => Ok(JObj(f["kuid" := JStr(Prefix(s, 6))]))
      case JList(items) => Ok(JObj(f["kuid" := JList(if |items| <= 6 then items else items[..6])]))
      case _ => Err(Failure("TypeError: sis_login_id is not subscriptable"))
  }

  /** The loop body on one student: its key and the student as the loop leaves it. */
  function Visit(student: Json): Result<(Json, Json)>
  {
    match StudentId(student)
    case Err(e) => Err(e)
    case Ok(sid) =>
      match Tagged(student)
      case Err(e) => Err(e)
      case Ok(t) => Ok((sid, t))
  }

  /**
   * The `StudentList` loop: all students as the loop leaves them (the
   * entries of `json` are the very dicts stored in `mapping`), and the
   * id index in which a later student overwrites an earlier one.
   */
  function Mapping(students: seq<Json>): Result<(seq<Json>, map<Json, Json>)>
  {
    if |students| == 0 then Ok(([], map[]))
    else match Mapping(students[..|students| - 1])
      case Err(e) => Err(e)
      case Ok((done, m)) =>
        match Visit(students[|students| - 1])
        case Err(e) => Err(e)
        case Ok((sid, t)) => Ok((done + [t], m[sid := t]))
  }

  class StudentList {
    var json: seq<Json>
    var mapping: map<Json, Json>

    constructor (json: seq<Json>)
      ensures this.json == json && mapping == map[]
    {
      this.json := json;
      mapping := map[];
    }

    /** The loop filling `mapping`: `json[i]` and `mapping[sid]` are one dict, so `kuid` lands in both. */
    method Index() returns (r: Result<()>)
      modifies this
      ensures r.Ok? <==> Mapping(old(json)).Ok?
      ensures r.Ok? ==> (json, mapping) == Mapping(old(json)).value
    {
      var students := json;
      var done: seq<Json> := [];
      var m: map<Json, Json> := map[];
      var i := 0;
      while i < |students|
        invariant 0 <= i <= |students| && students == old(json)
        invariant Mapping(students[..i]) == Ok((done, m))
      {
        assert students[..i + 1][..i] == students[..i];
        var v := Visit(students[i]);
        if v.Err? {
          MappingPrefixErr(students, i + 1);
          return Err(v.error);
        }
        done := done + [v.value.1];
        m := m[v.value.0 := v.value.1];
        i := i + 1;
      }
      assert students[..i] == students;
      json, mapping := done, m;
      return Ok(());
    }
  }

  lemma {:induction false} MappingPrefixErr(students: seq<Json>, n: nat)
    requires n <= |students| && Mapping(students[..n]).Err?
    ensures Mapping(students) == Mapping(students[..n])
    decreases |students| - n
  {
    if n < |students| {
      assert students[..n + 1][..n] == students[..n];
      MappingPrefixErr(students, n + 1);
    } else {
      assert students[..n] == students;
    }
  }

  /** The loop runs to the end iff every student has a hashable id and a sliceable `sis_login_id` if any; each student comes out tagged. */
  lemma {:induction false} MappingSpec(students: seq<Json>)
    ensures Mapping(students).Ok? <==> forall i :: 0 <= i < |students| ==> Visit(students[i]).Ok?
    ensures Mapping(students).Ok? ==>
      |Mapping(students).value.0| == |students| &&
      forall i :: 0 <= i < |students| ==> Mapping(students).value.0[i] == Visit(students[i]).value.1
    decreases |students|
  {
    if |students| > 0 {
      var init := students[..|students| - 1];
      MappingSpec(init);
      assert forall i :: 0 <= i < |init| ==> init[i] == students[i];
    }
  }

  /** The index holds exactly the ids of the students. */
  lemma {:induction false} MappingKeys(students: seq<Json>, sid: Json)
    requires Mapping(students).Ok?
    ensures sid in Mapping(students).value.1 <==>
      exists i :: 0 <= i < |students| && Visit(students[i]).Ok? && Visit(students[i]).value.0 == sid
    decreases |students|
  {
    if |students| > 0 {
      var last := |students| - 1;
      var init := students[..last];
      MappingKeys(init, sid);
      if exists i :: 0 <= i < |students| && Visit(students[i]).Ok? && Visit(students[i]).value.0 == sid {
        var i :| 0 <= i < |students| && Visit(students[i]).Ok? && Visit(students[i]).value.0 == sid;
        if i < last {
          assert init[i] == students[i];
        }
      }
      if sid in Mapping(init).value.1 {
        var i :| 0 <= i < |init| && Visit(init[i]).Ok? && Visit(init[i]).value.0 == sid;
        assert init[i] == students[i];
      }
    }
  }

  /** An id maps to the last student carrying it, as that student comes out of the loop. */
  lemma {:induction false} MappingLastWins(students: seq<Json>, i: nat)
    requires Mapping(students).Ok? && i < |students| && Visit(students[i]).Ok?
    requires forall j :: i < j < |students| ==> Visit(students[j]).Ok? && Visit(students[j]).value.0 != Visit(students[i]).value.0
    ensures Visit(students[i]).value.0 in Mapping(students).value.1
    ensures Mapping(students).value.1[Visit(students[i]).value.0] == Visit(students[i]).value.1
    decreases |students|
  {
    var last := |students| - 1;
    if i < last {
      var init := students[..last];
      assert init[i] == students[i];
      assert forall j :: i < j < |init| ==> init[j] == students[j];
      MappingLastWins(init, i);
    }
  }

  /** What the loop does to one student: the fields stay and `kuid` follows `sis_login_id`. */
  lemma TaggedSpec(student: Json)
    requires student.JObj?
    ensures Tagged(student).Ok? <==>
      ("sis_login_id" in student.fields ==> student.fields["sis_login_id"].JStr? || student.fields["sis_login_id"].JList?)
    ensures "sis_login_id" in student.fields && student.fields["sis_login_id"].JStr? ==>
      Tagged(student).value == JObj(student.fields["kuid" := JStr(Prefix(student.fields["sis_login_id"].s, 6))])
    ensures Tagged(student).Ok? && "sis_login_id" !in student.fields ==> Tagged(student).value == student
  {
  }

  // ---------------------------------------------------------------- all_students

  /**
   * What one section adds: nothing when it has no `students`, otherwise
   * what `list.extend` takes from that value — the items of a list, the
   * one-character strings of a text, nothing from an empty mapping.
   */
  function SectionStudents(section: Json): Result<seq<Json>>
  {
    match section
    case JObj(f) =>
      if "students" !in f then Ok([])
      else Extension(f["students"])
    case JList(items) => if JStr("students") in items then Err(Failure("TypeError: list index")) else Ok([])
    case JStr(s) => if Contains("students", s) then Err(Failure("TypeError: string index")) else Ok([])
    case _ => Err(Failure("TypeError: argument of type is not iterable"))
  }

  /** A text iterated: its characters, each a one-character string. */
  function Chars(t: string): seq<Json>
  {
    seq(|t|, k requires 0 <= k < |t| => JStr([t[k]]))
  }

  /** The items `list.extend(v)` appends, for the values whose iteration order is fixed. */
  function Extension(v: Json): Result<seq<Json>>
  {
    match v
    case JList(items) => Ok(items)
    case JStr(t) => Ok(Chars(t))
    case JObj(m) => if |m| == 0 then Ok([]) else Err(Failure("the key order of a mapping is not modelled"))
    case _ => Err(Failure("TypeError: object is not iterable"))
  }

  /** `all_students`: the sections' student lists extended one after the other. */
  function AllStudentsOf(sections: seq<Json>): Result<seq<Json>>
  {
    if |sections| == 0 then Ok([])
    else Then(AllStudentsOf(sections[..|sections| - 1]), SectionStudents(sections[|sections| - 1]))
  }

  method AllStudents(sections: seq<Json>) returns (r: Result<seq<Json>>)
    ensures r == AllStudentsOf(sections)
  {
    var students: seq<Json> := [];
    var i := 0;
    while i < |sections|
      invariant 0 <= i <= |sections|
      invariant AllStudentsOf(sections[..i]) == Ok(students)
    {
      assert sections[..i + 1][..i] == sections[..i];
      var s := SectionStudents(sections[i]);
      if s.Err? {
        AllStudentsPrefixErr(sections, i + 1);
        return Err(s.error);
      }
      students := students + s.value;
      i := i + 1;
    }
    assert sections[..i] == sections;
    return Ok(students);
  }

  lemma {:induction false} AllStudentsPrefixErr(sections: seq<Json>, n: nat)
    requires n <= |sections| && AllStudentsOf(sections[..n]).Err?
    ensures AllStudentsOf(sections) == AllStudentsOf(sections[..n])
    decreases |sections| - n
  {
    if n < |sections| {
      assert sections[..n + 1][..n] == sections[..n];
      AllStudentsPrefixErr(sections, n + 1);
    } else {
      assert sections[..n] == sections;
    }
  }

  /**
   * The roster of two runs of sections is the roster of the first followed
   * by that of the second: order and duplicates are kept, and the first
   * failure wins.
   */
  lemma {:induction false} AllStudentsAppend(a: seq<Json>, b: seq<Json>)
    ensures AllStudentsOf(a + b) == Then(AllStudentsOf(a), AllStudentsOf(b))
    decreases |b|
  {
    if |b| == 0 {
      assert a + b == a;
      if AllStudentsOf(a).Ok? {
        assert AllStudentsOf(a).value + [] == AllStudentsOf(a).value;
      }
    } else {
      var b0 := b[..|b| - 1];
      AllStudentsAppend(a, b0);
      assert (a + b)[..|a + b| - 1] == a + b0;
      assert (a + b)[|a + b| - 1] == b[|b| - 1];
      ThenAssociative(AllStudentsOf(a), AllStudentsOf(b0), SectionStudents(b[|b| - 1]));
    }
  }

  /** One section adds its `students` list; a section without that key adds nothing. */
  lemma OneSection(f: map<string, Json>)
    ensures "students" !in f ==> AllStudentsOf([JObj(f)]) == Ok([])
    ensures "students" in f && f["students"].JList? ==> AllStudentsOf([JObj(f)]) == Ok(f["students"].items)
    ensures "students" in f && f["students"].JStr? ==>
      var t := f["students"].s;
      AllStudentsOf([JObj(f)]).Ok? && |AllStudentsOf([JObj(f)]).value| == |t| &&
      forall k :: 0 <= k < |t| ==> AllStudentsOf([JObj(f)]).value[k] == JStr([t[k]])
    ensures "students" in f && (f["students"].JNull? || f["students"].JBool? || f["students"].JInt?) ==>
      AllStudentsOf([JObj(f)]).Err?
  {
    var s := [JObj(f)];
    assert s[..|s| - 1] == [];
    assert AllStudentsOf(s[..|s| - 1]) == Ok([]);
    if "students" in f && Extension(f["students"]).Ok? {
      assert [] + Extension(f["students"]).value == Extension(f["students"]).value;
    }
    var none: seq<Json> := [];
    assert none + none == none;
  }

  // ---------------------------------------------------------------- section_create

  /** `[s['name'] for s in sections]`, failing at the first section without a name. */
  function SectionNames(sections: seq<Json>): (r: Result<seq<Json>>)
    ensures r.Ok? <==> forall i :: 0 <= i < |sections| ==> sections[i].JObj? && "name" in sections[i].fields
    ensures r.Ok? ==> |r.value| == |sections| && forall i :: 0 <= i < |sections| ==> r.value[i] == sections[i].fields["name"]
  {
    if |sections| == 0 then Ok([])
    else if !sections[0].JObj? || "name" !in sections[0].fields then Err(Failure("KeyError: name"))
    else match SectionNames(sections[1..])
      case Err(e) => Err(e)
      case Ok(ns) => Ok([sections[0].fields["name"]] + ns)
  }

  /**
   * `section_create`: the existing sections are checked for the exact name
   * before anything is posted; the request posted names the section and,
   * through `_req`, carries `per_page`.
   */
  function SectionCreate(token: string, apiBase: string, courseId: string, sections: seq<Json>, name: string): Result<Request>
  {
    match SectionNames(sections)
    case Err(e) => Err(e)
    case Ok(names) =>
      if JStr(name) in names then Err(Failure("The section " + name + " already exists"))
      else Ok(Request("POST", apiBase + "courses/" + courseId + "/sections",
                      [("course_section[name]", name), PerPage], "Bearer " + token))
  }

  /** A section is created iff every existing section has a name and none equals the new one exactly. */
  lemma SectionCreateSpec(token: string, apiBase: string, courseId: string, sections: seq<Json>, name: string)
    ensures SectionCreate(token, apiBase, courseId, sections, name).Ok? <==>
      forall i :: 0 <= i < |sections| ==>
        sections[i].JObj? && "name" in sections[i].fields && sections[i].fields["name"] != JStr(name)
    ensures SectionCreate(token, apiBase, courseId, sections, name).Ok? ==>
      DictGet(SectionCreate(token, apiBase, courseId, sections, name).value.query, "course_section[name]") == Some(name)
  {
    var r := SectionCreate(token, apiBase, courseId, sections, name);
    if SectionNames(sections).Ok? {
      var names := SectionNames(sections).value;
      if JStr(name) in names {
        var i :| 0 <= i < |names| && names[i] == JStr(name);
        assert sections[i].fields["name"] == JStr(name);
      }
    } else {
      assert r.Err?;
    }
  }

  /** An existing section with exactly the new name blocks creation, whatever follows it. */
  lemma DuplicateBlocks(token: string, apiBase: string, courseId: string, name: string, other: Json)
    ensures SectionCreate(token, apiBase, courseId, [JObj(map["name" := JStr(name)]), other], name).Err?
  {
  }

  // ---------------------------------------------------------------- main

  /** `[(args[i], args[i + 1]) for i in range(0, len(args), 2)]`. */
  function Pairs(args: seq<string>): (r: seq<Pair>)
    requires |args| % 2 == 0
    ensures |r| == |args| / 2
    ensures forall i :: 0 <= i < |r| ==> r[i] == (args[2 * i], args[2 * i + 1])
    decreases |args|
  {
    if |args| == 0 then [] else [(args[0], args[1])] + Pairs(args[2..])
  }

  /** The arguments a list of pairs was read from. */
  function Flatten(pairs: seq<Pair>): (r: seq<string>)
    ensures |r| == 2 * |pairs|
  {
    if |pairs| == 0 then [] else [pairs[0].0, pairs[0].1] + Flatten(pairs[1..])
  }

  /** Pairing and flattening are inverse. */
  lemma {:induction false} PairsRoundTrip(args: seq<string>, pairs: seq<Pair>)
    requires |args| % 2 == 0
    ensures Flatten(Pairs(args)) == args
    ensures Pairs(Flatten(pairs)) == pairs
    decreases |args| + |pairs|
  {
    if |args| > 0 {
      PairsRoundTrip(args[2..], []);
      assert args == [args[0], args[1]] + args[2..];
    }
    if |pairs| > 0 {
      PairsRoundTrip([], pairs[1..]);
      var f := Flatten(pairs);
      assert f[2..] == Flatten(pairs[1..]);
    }
  }

  datatype Invocation = Usage | Call(verb: string, url: string, query: seq<Pair>)

  /**
   * `main`: fewer than two arguments print the usage and return 1; an odd
   * number of name/value arguments fails the assertion; a method other
   * than GET, POST or PUT is a failed dictionary lookup. The call sends
   * the pairs through `_req`, so `per_page` is appended.
   */
  function Main(args: seq<string>): Result<Invocation>
  {
    if |args| < 2 then Ok(Usage)
    else
      var verb, url, rest := Upper(args[0]), args[1], args[2..];
      if |rest| % 2 != 0 then Err(Failure("AssertionError"))
      else if verb != "GET" && verb != "POST" && verb != "PUT" then Err(Failure("KeyError: " + verb))
      else Ok(Call(verb, url, Pairs(rest) + [PerPage]))
  }

  /** The invocation read off the command line gives back, flattened, the arguments after the URL. */
  lemma MainSpec(args: seq<string>)
    ensures Main(args) == Ok(Usage) <==> |args| < 2
    ensures |args| >= 2 && |args| % 2 != 0 ==> Main(args).Err?
    ensures Main(args).Ok? && Main(args).value.Call? ==>
      var c := Main(args).value;
      c.url == args[1] && (c.verb == "GET" || c.verb == "POST" || c.verb == "PUT") &&
      c.query[|c.query| - 1] == PerPage && Flatten(c.query[..|c.query| - 1]) == args[2..]
  {
    if |args| >= 2 && |args[2..]| % 2 == 0 {
      PairsRoundTrip(args[2..], []);
      var q := Pairs(args[2..]) + [PerPage];
      assert q[..|q| - 1] == Pairs(args[2..]);
    }
  }
}
