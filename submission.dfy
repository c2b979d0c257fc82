/**
 * Recovering a student's id from a submission folder
 * (staffeli/submission.py): the `canvas.yaml` written at download time
 * if present, otherwise the second `_`-separated field of the first file
 * name Canvas gave the submission.
 */
module Submission {
  import opened Common
  import opened Os
  import Cachable

  // ---------------------------------------------------------------- file names

  /** `s.count(c)` for a one-character `c`. */
  function Count(c: char, s: string): (n: nat)
    ensures n <= |s|
    ensures n == 0 <==> c !in s
  {
    if s == [] then 0 else (if s[0] == c then 1 else 0) + Count(c, s[1..])
  }

  lemma {:induction false} CountAppend(c: char, a: string, b: string)
    ensures Count(c, a + b) == Count(c, a) + Count(c, b)
    decreases |a|
  {
    if a == [] {
      assert a + b == b;
    } else {
      assert (a + b)[1..] == a[1..] + b;
      CountAppend(c, a[1..], b);
    }
  }

  /** A file name the scan stops at: it holds at least three `_`. */
  predicate Qualifies(name: string)
  {
    Count('_', name) >= 3
  }

  /** `int(filename.replace("_late_", "_").split("_")[1])`. */
  function IdOfName(name: string): Result<int>
  {
    var parts := Split(Replace(name, "_late_", "_"), "_");
    if |parts| < 2 then Err(Failure("IndexError: list index out of range"))
    else match ParseInt(parts[1])
      case None => Err(Failure("ValueError: invalid literal for int()"))
      case Some(n) => Ok(n)
  }

  /** The outcome decided by the first qualifying name, or `None` if no name qualifies. */
  function FirstId(names: seq<string>): Option<Result<int>>
  {
    if names == [] then None
    else if Qualifies(names[0]) then Some(IdOfName(names[0]))
    else FirstId(names[1..])
  }

  /** The scan over `os.listdir(subdir)`: the first qualifying name returns, whatever `int()` makes of it. */
  method ScanForId(names: seq<string>) returns (r: Option<Result<int>>)
    ensures r == FirstId(names)
  {
    for i := 0 to |names|
      invariant FirstId(names) == FirstId(names[i..])
    {
      assert names[i..][1..] == names[i + 1..];
      if Count('_', names[i]) >= 3 {
        return Some(IdOfName(names[i]));
      }
    }
    return None;
  }

  /** The scan is decided by the first qualifying name and by it alone. */
  lemma FirstIdSpec(names: seq<string>)
    ensures FirstId(names).None? <==> forall i :: 0 <= i < |names| ==> !Qualifies(names[i])
    ensures FirstId(names).Some? ==>
      exists i :: 0 <= i < |names| && Qualifies(names[i]) && (forall j :: 0 <= j < i ==> !Qualifies(names[j])) &&
        FirstId(names).value == IdOfName(names[i])
  {
    FirstIdNone(names);
    if FirstId(names).Some? {
      FirstIdSome(names);
      var i :| FirstQualifying(names, i) && FirstId(names).value == IdOfName(names[i]);
    }
  }

  /** The name at `i` is the first that qualifies. */
  predicate FirstQualifying(names: seq<string>, i: int)
  {
    0 <= i < |names| && Qualifies(names[i]) && forall j :: 0 <= j < i ==> !Qualifies(names[j])
  }

  lemma {:induction false} FirstIdNone(names: seq<string>)
    ensures FirstId(names).None? <==> forall i :: 0 <= i < |names| ==> !Qualifies(names[i])
    decreases |names|
  {
    if names != [] && !Qualifies(names[0]) {
      FirstIdNone(names[1..]);
      assert forall i :: 1 <= i < |names| ==> names[i] == names[1..][i - 1];
    }
  }

  lemma {:induction false} FirstIdSome(names: seq<string>)
    requires FirstId(names).Some?
    ensures exists i :: FirstQualifying(names, i) && FirstId(names).value == IdOfName(names[i])
    decreases |names|
  {
    if Qualifies(names[0]) {
      assert FirstQualifying(names, 0);
    } else {
      FirstIdSome(names[1..]);
      var i :| FirstQualifying(names[1..], i) && FirstId(names[1..]).value == IdOfName(names[1..][i]);
      forall j | 0 <= j < i + 1 ensures !Qualifies(names[j]) {
        if j > 0 { assert names[j] == names[1..][j - 1]; }
      }
      assert FirstQualifying(names, i + 1);
    }
  }

  /** Splitting `a_b` where `a` holds no `_`. */
  lemma SplitUnderscore(a: string, b: string)
    requires '_' !in a
    ensures Split(a + "_" + b, "_") == [a] + Split(b, "_")
  {
    forall j | 0 <= j < |a| ensures !OccursAt("_", a + "_" + b, j) {
      assert (a + "_" + b)[j..j + 1][0] == a[j];
    }
    SplitAtFirst(a, "_", b);
  }

  /** The digits of an integer hold no `_`. */
  lemma DigitsNoUnderscore(n: int)
    ensures '_' !in IntToString(n)
  {
  }

  /** Three underscores around and after the id make a name qualify. */
  lemma ThreeUnderscores(a: string, sep: string, d: string, rest: string)
    requires Count('_', sep) + Count('_', rest) >= 2
    ensures Qualifies(a + sep + d + "_" + rest)
  {
    CountAppend('_', a + sep + d + "_", rest);
    CountAppend('_', a + sep + d, "_");
    CountAppend('_', a + sep, d);
    CountAppend('_', a, sep);
  }

  /** A name whose `_late_`-free form is `a_d_b`, with `a` and `d` free of `_`, yields the value of `d`. */
  lemma IdOfSecondField(name: string, a: string, d: string, b: string, n: int)
    requires Replace(name, "_late_", "_") == a + "_" + (d + "_" + b)
    requires '_' !in a && '_' !in d && ParseInt(d) == Some(n)
    ensures IdOfName(name) == Ok(n)
  {
    SplitUnderscore(a, d + "_" + b);
    SplitUnderscore(d, b);
  }

  /**
   * A Canvas download name `login_id_attachment_file`, without `_late_`,
   * qualifies and yields the user id.
   */
  lemma CanvasNameId(login: string, n: int, rest: string)
    requires '_' !in login && '_' in rest
    requires !Contains("_late_", login + "_" + IntToString(n) + "_" + rest)
    ensures Qualifies(login + "_" + IntToString(n) + "_" + rest)
    ensures IdOfName(login + "_" + IntToString(n) + "_" + rest) == Ok(n)
  {
    var d := IntToString(n);
    var name := login + "_" + d + "_" + rest;
    assert Count('_', "_") == 1;
    ThreeUnderscores(login, "_", d, rest);
    SplitFree(name, "_late_");
    Regroup(login, "_", d, "_", rest);
    DigitsNoUnderscore(n);
    ParseIntToString(n);
    IdOfSecondField(name, login, d, rest, n);
  }

  /** Replacing the one `_late_` after a login free of `_`. */
  lemma ReplaceLate(login: string, t: string)
    requires '_' !in login && !Contains("_late_", t)
    ensures Replace(login + "_late_" + t, "_late_", "_") == login + "_" + t
  {
    var name := login + "_late_" + t;
    forall j | 0 <= j < |login| ensures !OccursAt("_late_", name, j) {
      assert name[j..j + 6][0] == login[j];
    }
    SplitAtFirst(login, "_late_", t);
    SplitFree(t, "_late_");
    assert Split(name, "_late_") == [login, t];
    assert [login, t][1..] == [t];
    assert Join([login, t], "_") == login + "_" + Join([t], "_");
  }

  /** A late download name `login_late_id_attachment_file` yields the user id as well. */
  lemma LateCanvasNameId(login: string, n: int, rest: string)
    requires '_' !in login
    requires !Contains("_late_", IntToString(n) + "_" + rest)
    ensures Qualifies(login + "_late_" + IntToString(n) + "_" + rest)
    ensures IdOfName(login + "_late_" + IntToString(n) + "_" + rest) == Ok(n)
  {
    var d := IntToString(n);
    var t := d + "_" + rest;
    var name := login + "_late_" + t;
    assert Count('_', "_late_") == 2;
    ThreeUnderscores(login, "_late_", d, rest);
    Regroup(login, "_late_", d, "_", rest);
    ReplaceLate(login, t);
    DigitsNoUnderscore(n);
    ParseIntToString(n);
    IdOfSecondField(name, login, d, rest, n);
  }

  /** Concatenation regrouped, so that a name can be read as a prefix and a tail. */
  lemma Regroup(a: string, b: string, c: string, d: string, e: string)
    ensures a + b + c + d + e == a + b + (c + d + e)
  {
  }

  // ---------------------------------------------------------------- find_student_id

  const CanvasYaml := "canvas.yaml"
  const CanvasGroupJson := "canvas_group.json"

  /** What `find_student_id(subdir)` returns or raises. */
  function StudentIdOf(fs: FileSystem, subdir: string): Result<Json>
  {
    var yamlpath := PathJoin(subdir, CanvasYaml);
    if IsFile(fs, yamlpath) then
      var doc :- Load(fs, yamlpath);
      Cachable.Index(doc, "user_id")
    else
      var names :- ListDir(fs, subdir);
      match FirstId(names)
      case None => Err(NotLocated(subdir))
      case Some(Err(e)) => Err(e)
      case Some(Ok(n)) => Ok(JInt(n))
  }

  /** `find_student_id`. */
  method FindStudentId(fs: FileSystem, subdir: string) returns (r: Result<Json>)
    ensures r == StudentIdOf(fs, subdir)
  {
    var yamlpath := PathJoin(subdir, CanvasYaml);
    if IsFile(fs, yamlpath) {
      var doc := Load(fs, yamlpath);
      if doc.Err? {
        return Err(doc.error);
      }
      return Cachable.Index(doc.value, "user_id");
    }
    var names := ListDir(fs, subdir);
    if names.Err? {
      return Err(names.error);
    }
    var found := ScanForId(names.value);
    if found.None? {
      return Err(NotLocated(subdir));
    }
    if found.value.Err? {
      return Err(found.value.error);
    }
    return Ok(JInt(found.value.value));
  }

  /**
   * A `canvas.yaml` decides before any file name is looked at; without
   * one, the listed names decide, and a folder holding no qualifying name
   * fails naming the folder.
   */
  lemma StudentIdSpec(fs: FileSystem, subdir: string, doc: map<string, Json>)
    ensures Load(fs, PathJoin(subdir, CanvasYaml)) == Ok(JObj(doc)) && "user_id" in doc ==>
      StudentIdOf(fs, subdir) == Ok(doc["user_id"])
    ensures !IsFile(fs, PathJoin(subdir, CanvasYaml)) && ListDir(fs, subdir).Ok? ==>
      (forall i :: 0 <= i < |ListDir(fs, subdir).value| ==> !Qualifies(ListDir(fs, subdir).value[i])) ==>
      StudentIdOf(fs, subdir) == Err(NotLocated(subdir))
  {
    if ListDir(fs, subdir).Ok? {
      FirstIdSpec(ListDir(fs, subdir).value);
    }
  }

  // ---------------------------------------------------------------- find_student_ids

  /** The failure of the group branch: the module never imports `json`. */
  const UndefinedJson := Failure("NameError: name 'json' is not defined")

  /** What `find_student_ids(subdir)` returns or raises as written. */
  function StudentIdsOf(fs: FileSystem, subdir: string): Result<Json>
  {
    if IsFile(fs, PathJoin(subdir, CanvasGroupJson)) then Err(UndefinedJson)
    else
      var id :- StudentIdOf(fs, subdir);
      Ok(JList([id]))
  }

  /** A folder holding a `canvas_group.json` always fails, whatever the file says. */
  lemma GroupFileFails(fs: FileSystem, subdir: string)
    requires IsFile(fs, PathJoin(subdir, CanvasGroupJson))
    ensures StudentIdsOf(fs, subdir) == Err(UndefinedJson)
  {
  }

  /** `find_student_ids` as evidently intended: the group file's contents when it is there. */
  function IntendedStudentIds(fs: FileSystem, subdir: string): Result<Json>
  {
    if IsFile(fs, PathJoin(subdir, CanvasGroupJson)) then Load(fs, PathJoin(subdir, CanvasGroupJson))
    else
      var id :- StudentIdOf(fs, subdir);
      Ok(JList([id]))
  }

  /** `find_student_ids` as evidently intended. */
  method FindStudentIds(fs: FileSystem, subdir: string) returns (r: Result<Json>)
    ensures r == IntendedStudentIds(fs, subdir)
  {
    var jsonpath := PathJoin(subdir, CanvasGroupJson);
    if IsFile(fs, jsonpath) {
      return Load(fs, jsonpath);
    }
    var id := FindStudentId(fs, subdir);
    if id.Err? {
      return Err(id.error);
    }
    return Ok(JList([id.value]));
  }

  /**
   * The intended lookup returns a readable group file's ids; without a
   * group file it is the code as written, the single id of the folder.
   */
  lemma IntendedStudentIdsSpec(fs: FileSystem, subdir: string, ids: Json)
    ensures Load(fs, PathJoin(subdir, CanvasGroupJson)) == Ok(ids) ==> IntendedStudentIds(fs, subdir) == Ok(ids)
    ensures !IsFile(fs, PathJoin(subdir, CanvasGroupJson)) ==> IntendedStudentIds(fs, subdir) == StudentIdsOf(fs, subdir)
    ensures !IsFile(fs, PathJoin(subdir, CanvasGroupJson)) && StudentIdOf(fs, subdir).Ok? ==>
      IntendedStudentIds(fs, subdir) == Ok(JList([StudentIdOf(fs, subdir).value]))
  {
  }
}
