/**
 * The command-line front end staffeli/cli.py: grade validation, the
 * directory names of students, the splitting of a fetch target, which
 * submissions `fetch_sub` and `fetch_all_subs` skip, the two directory
 * creators and the links group splitting makes.
 */
module Cli {
  import opened Common
  import opened Os
  import opened Files
  import opened Cachable
  import StaffeliCanvas

  // ---------------------------------------------------------------- _check_grade

  /** `_check_grade`: a grade from the list, or a text `int()` accepts, comes back unchanged. */
  function CheckGrade(goodgrades: seq<string>, grade: string): Result<string>
  {
    if grade in goodgrades || ParseInt(grade).Some? then Ok(grade)
    else Err(Failure("bad grade: " + grade))
  }

  /** The grades of the command line. */
  const CliGrades := ["pass", "fail"]

  /**
   * A grade is accepted exactly when it is listed or a number, and is
   * then returned as given; every integer's decimal form is accepted.
   */
  lemma CheckGradeSpec(goodgrades: seq<string>, grade: string, n: int)
    ensures CheckGrade(goodgrades, grade).Ok? <==> grade in goodgrades || ParseInt(grade).Some?
    ensures CheckGrade(goodgrades, grade).Ok? ==> CheckGrade(goodgrades, grade).value == grade
    ensures CheckGrade(goodgrades, IntToString(n)) == Ok(IntToString(n))
  {
    ParseIntToString(n);
  }

  /** A longer list of grades accepts at least what a shorter one does. */
  lemma CheckGradeMonotone(fewer: seq<string>, more: seq<string>, grade: string)
    requires forall g :: g in fewer ==> g in more
    ensures CheckGrade(fewer, grade).Ok? ==> CheckGrade(more, grade) == CheckGrade(fewer, grade)
  {
  }

  /** "pass" and "fail" are accepted; the empty text is neither listed nor a number. */
  lemma CliGradesExamples()
    ensures CheckGrade(CliGrades, "pass") == Ok("pass")
    ensures CheckGrade(CliGrades, "fail") == Ok("fail")
    ensures CheckGrade(CliGrades, "").Err?
  {
    assert Strip("") == "";
  }

  // ---------------------------------------------------------------- student_dirname

  /** `"{}_{}".format(student['kuid'], student['id'])`. */
  function StudentDirname(student: Json): Result<string>
  {
    if !student.JObj? || "kuid" !in student.fields then Err(Failure("KeyError: kuid"))
    else if "id" !in student.fields then Err(Failure("KeyError: id"))
    else KuidName(student.fields["kuid"], student.fields["id"])
  }

  /** `"{}_{}".format(kuid, sid)`. */
  function KuidName(kuid: Json, sid: Json): Result<string>
  {
    match (PyStr(kuid), PyStr(sid))
    case (Some(k), Some(s)) => Ok(k + "_" + s)
    case _ => Err(Failure("str of a container is not modelled"))
  }

  /** Every record the `StudentList` loop files is filed under its own id. */
  lemma {:induction false} MappingFiledById(students: seq<Json>, sid: Json)
    requires StaffeliCanvas.Mapping(students).Ok? && sid in StaffeliCanvas.Mapping(students).value.1
    ensures var v := StaffeliCanvas.Mapping(students).value.1[sid];
      v.JObj? && "id" in v.fields && v.fields["id"] == sid
    decreases |students|
  {
    var n := |students| - 1;
    var init := students[..n];
    var v := StaffeliCanvas.Visit(students[n]).value;
    if v.0 != sid {
      MappingFiledById(init, sid);
    } else {
      StaffeliCanvas.TaggedSpec(students[n]);
    }
  }

  /**
   * The folder `fetch_sub` creates for a student is the student's
   * `student_dirname`: the roster is keyed by the student's own id.
   */
  lemma StudentDirnameAgrees(students: seq<Json>, sid: Json)
    requires StaffeliCanvas.Mapping(students).Ok? && sid in StaffeliCanvas.Mapping(students).value.1
    requires var v := StaffeliCanvas.Mapping(students).value.1[sid]; v.JObj? && "kuid" in v.fields
    ensures var v := StaffeliCanvas.Mapping(students).value.1[sid];
      StudentDirname(v) == KuidName(v.fields["kuid"], sid)
  {
    MappingFiledById(students, sid);
  }

  // ---------------------------------------------------------------- fetch

  /** The position of the first `/` of `p`, if any. */
  function FirstSlash(p: string): (r: Option<nat>)
    ensures r.Some? ==> r.value < |p| && p[r.value] == '/' && '/' !in p[..r.value]
    ensures r.None? <==> '/' !in p
  {
    if |p| == 0 then None
    else if p[0] == '/' then Some(0)
    else match FirstSlash(p[1..])
      case None => None
      case Some(i) => assert p[1..][..i] == p[1..i + 1]; Some(i + 1)
  }

  /** How many `/` the text starts with. */
  function LeadingSlashes(s: string): (n: nat)
    ensures n <= |s| && (forall k :: 0 <= k < n ==> s[k] == '/') && (n < |s| ==> s[n] != '/')
  {
    if |s| > 0 && s[0] == '/' then 1 + LeadingSlashes(s[1..]) else 0
  }

  /** How many `/` the text ends with. */
  function TrailingSlashes(s: string): (n: nat)
    ensures n <= |s| && (forall k :: |s| - n <= k < |s| ==> s[k] == '/') && (n < |s| ==> s[|s| - n - 1] != '/')
  {
    if |s| > 0 && s[|s| - 1] == '/' then 1 + TrailingSlashes(s[..|s| - 1]) else 0
  }

  /** `s.strip('/')`: every leading and trailing `/` removed. */
  function StripSlashes(s: string): (r: string)
    ensures |r| > 0 ==> r[0] != '/' && r[|r| - 1] != '/'
    ensures '/' !in s ==> r == s
    ensures exists i, j ::
              && 0 <= i <= j <= |s| && r == s[i..j]
              && forall k :: 0 <= k < |s| && (k < i || j <= k) ==> s[k] == '/'
  {
    var i := LeadingSlashes(s);
    var t := s[i..];
    var j := i + |t| - TrailingSlashes(t);
    assert t[..|t| - TrailingSlashes(t)] == s[i..j];
    assert forall k :: j <= k < |s| ==> s[k] == t[k - i];
    t[..|t| - TrailingSlashes(t)]
  }

  /** What `fetch` goes on to do. */
  datatype FetchAction =
    | FetchStudents
    | FetchGroups
    | FetchGroup(name: string)
    | FetchAllSubs
    | FetchSubs(name: string)

  /**
   * `fetch(args)`: a first argument with a `/` is split at its first `/`,
   * the part after it becoming the first of the remaining arguments.
   */
  function Fetch(args: seq<string>): Result<FetchAction>
  {
    if |args| == 0 then Err(Failure("IndexError: list index out of range"))
    else
      var what, rest := args[0], args[1..];
      match FirstSlash(what)
      case None => FetchTarget(what, rest)
      case Some(i) => FetchTarget(what[..i], [what[i + 1..]] + rest)
  }

  /** The action for the target `what` once any `/` in it has been split off into `rest`. */
  function FetchTarget(what: string, rest: seq<string>): Result<FetchAction>
  {
    if what == "students" then Ok(FetchStudents)
    else if what == "groups" then Ok(FetchGroups)
    else if what == "group" then Ok(FetchGroup(Join(rest, " ")))
    else if what == "subs" then
      if |rest| == 0 then Ok(FetchAllSubs) else Ok(FetchSubs(StripSlashes(Join(rest, " "))))
    else Err(Failure("Don't yet know how to fetch"))
  }

  /**
   * `what/suffix rest...` fetches as `what suffix rest...`: the split
   * takes the part before the first `/` as the target.
   */
  lemma FetchSplit(what: string, suffix: string, rest: seq<string>)
    requires '/' !in what
    ensures Fetch([what + "/" + suffix] + rest) == Fetch([what] + ([suffix] + rest))
  {
    var w := what + "/" + suffix;
    FirstSlashAfter(what, "/" + suffix);
    var i := |what|;
    assert w == what + ("/" + suffix);
    assert FirstSlash(w) == Some(i);
    assert w[..i] == what;
    assert w[i + 1..] == suffix;
    var a, b := [w] + rest, [what] + ([suffix] + rest);
    assert a[0] == w && a[1..] == rest;
    assert Fetch(a) == FetchTarget(what, [suffix] + rest);
    assert b[0] == what && b[1..] == [suffix] + rest;
    assert FirstSlash(what).None?;
  }

  lemma {:induction false} FirstSlashAfter(what: string, rest: string)
    requires '/' !in what
    ensures FirstSlash(what + rest) == match FirstSlash(rest) case None => None case Some(j) => Some(|what| + j)
    decreases |what|
  {
    if what != [] {
      assert (what + rest)[1..] == what[1..] + rest;
      assert (what + rest)[0] == what[0];
      FirstSlashAfter(what[1..], rest);
    } else {
      assert what + rest == rest;
    }
  }

  /** `subs` alone fetches every assignment; `subs/` names the empty assignment instead. */
  lemma FetchSubsExamples(name: string)
    requires '/' !in name
    ensures Fetch(["subs"]) == Ok(FetchAllSubs)
    ensures Fetch(["subs/"]) == Ok(FetchSubs(""))
    ensures Fetch(["subs", name]) == Ok(FetchSubs(name))
    ensures Fetch(["subs/" + name]) == Ok(FetchSubs(name))
  {
    assert "subs/"[4] == '/';
    assert "subs/"[..4] == "subs";
    assert "subs/"[5..] == "";
    assert Join([""], " ") == "";
    assert Join([name], " ") == name;
    FetchSplit("subs", name, []);
  }

  // ---------------------------------------------------------------- fetch_all_subs

  /** The assignments `fetch_all_subs` goes on to fetch, in order. */
  function Graded(assigns: seq<Json>): Result<seq<Json>>
  {
    if assigns == [] then Ok([])
    else
      var init :- Graded(assigns[..|assigns| - 1]);
      var a := assigns[|assigns| - 1];
      var keep :- Keep(a);
      Ok(if keep then init + [a] else init)
  }

  /** `assign['grading_type'] != 'not_graded'`. */
  function Keep(a: Json): (r: Result<bool>)
    ensures r.Ok? <==> a.JObj? && "grading_type" in a.fields
    ensures r.Ok? ==> (r.value <==> a.fields["grading_type"] != JStr("not_graded"))
  {
    if !a.JObj? || "grading_type" !in a.fields then Err(Failure("KeyError: grading_type"))
    else Ok(a.fields["grading_type"] != JStr("not_graded"))
  }

  /** The `fetch_all_subs` loop, as far as it decides which assignments to fetch. */
  method SelectGraded(assigns: seq<Json>) returns (r: Result<seq<Json>>)
    ensures r == Graded(assigns)
  {
    var kept: seq<Json> := [];
    for i := 0 to |assigns|
      invariant Graded(assigns[..i]) == Ok(kept)
    {
      assert assigns[..i + 1][..i] == assigns[..i];
      var a := assigns[i];
      if !a.JObj? || "grading_type" !in a.fields {
        GradedPrefixErr(assigns, i + 1);
        return Err(Failure("KeyError: grading_type"));
      }
      if a.fields["grading_type"] == JStr("not_graded") {
        continue;
      }
      kept := kept + [a];
    }
    assert assigns[..|assigns|] == assigns;
    return Ok(kept);
  }

  lemma {:induction false} GradedPrefixErr(assigns: seq<Json>, n: nat)
    requires n <= |assigns| && Graded(assigns[..n]).Err?
    ensures Graded(assigns) == Graded(assigns[..n])
    decreases |assigns| - n
  {
    if n < |assigns| {
      assert assigns[..n + 1][..n] == assigns[..n];
      GradedPrefixErr(assigns, n + 1);
    } else {
      assert assigns[..n] == assigns;
    }
  }

  /**
   * With every assignment carrying a `grading_type`, the fetched ones are
   * exactly those not `not_graded`, in their order.
   */
  lemma {:induction false} GradedSpec(assigns: seq<Json>, a: Json)
    requires forall i :: 0 <= i < |assigns| ==> assigns[i].JObj? && "grading_type" in assigns[i].fields
    ensures Graded(assigns).Ok?
    ensures a in Graded(assigns).value <==> a in assigns && a.fields["grading_type"] != JStr("not_graded")
    decreases |assigns|
  {
    if assigns != [] {
      var n := |assigns| - 1;
      var init := assigns[..n];
      assert forall i :: 0 <= i < n ==> init[i] == assigns[i];
      GradedSpec(init, a);
      assert Keep(assigns[n]).Ok?;
      assert a in assigns <==> a in init || a == assigns[n] by {
        assert assigns == init + [assigns[n]];
      }
    }
  }

  /** Selecting from two runs selects from each run in turn. */
  lemma {:induction false} GradedAppend(a: seq<Json>, b: seq<Json>)
    requires Graded(a).Ok? && Graded(b).Ok?
    ensures Graded(a + b) == Ok(Graded(a).value + Graded(b).value)
    decreases |b|
  {
    if b == [] {
      assert a + b == a;
      assert Graded(a).value + [] == Graded(a).value;
    } else {
      var n := |b| - 1;
      assert (a + b)[..|a + b| - 1] == a + b[..n];
      assert (a + b)[|a + b| - 1] == b[n];
      assert Graded(b[..n]).Ok? && Keep(b[n]).Ok?;
      GradedAppend(a, b[..n]);
      var x, y := Graded(a).value, Graded(b[..n]).value;
      assert Graded(a + b) == Ok(if Keep(b[n]).value then x + y + [b[n]] else x + y);
      assert Graded(b) == Ok(if Keep(b[n]).value then y + [b[n]] else y);
      assert x + (y + [b[n]]) == x + y + [b[n]];
    }
  }

  // ---------------------------------------------------------------- fetch_sub

  /** What `fetch_sub` does with one submission. */
  datatype SubOutcome =
    | SkippedStudent
    | MetadataOnly(subpath: string)
    | NoAttachments(subpath: string)
    | Download(subpath: string, attachments: Json)

  /** The cache-file form of a submission (`Submission.publicjson`), under its cache name. */
  function SubmissionPublic(json: Json): Json
  {
    JObj(map["submisison" := json])
  }

  /**
   * The folder `fetch_sub` fills: none for a student the roster does not
   * know or knows without a `kuid`, otherwise `kuid_id` under `path`.
   */
  function SubTarget(students: map<Json, Json>, path: string, json: Json): (r: Result<Option<string>>)
    ensures r.Ok? ==> json.JObj? && "user_id" in json.fields
  {
    if !json.JObj? || "user_id" !in json.fields then Err(Failure("KeyError: user_id"))
    else
      var sid := json.fields["user_id"];
      if !Hashable(sid) then Err(Failure("TypeError: unhashable type"))
      else if sid !in students then Ok(None)
      else if !students[sid].JObj? then Err(Failure("student record is not a mapping"))
      else if "kuid" !in students[sid].fields then Ok(None)
      else
        var name :- KuidName(students[sid].fields["kuid"], sid);
        Ok(Some(PathJoin(path, name)))
  }

  /**
   * The decision `fetch_sub` takes. Both skip messages print
   * `json['preview_url']`, so a skip of a submission without one fails.
   */
  function SubDecision(students: map<Json, Json>, path: string, json: Json, metadata: bool): Result<SubOutcome>
  {
    var target :- SubTarget(students, path, json);
    match target
    case None =>
      if "preview_url" !in json.fields then Err(Failure("KeyError: preview_url")) else Ok(SkippedStudent)
    case Some(subpath) =>
      if metadata then Ok(MetadataOnly(subpath))
      else if "attachments" !in json.fields then
        if "preview_url" !in json.fields then Err(Failure("KeyError: preview_url")) else Ok(NoAttachments(subpath))
      else Ok(Download(subpath, json.fields["attachments"]))
  }

  /** The folder `fetch_sub` makes and caches into before it decides on attachments, if any. */
  function MadeFolder(students: map<Json, Json>, path: string, json: Json): Option<string>
  {
    match SubTarget(students, path, json)
    case Ok(Some(subpath)) => Some(subpath)
    case _ => None
  }

  /** The folder of an outcome that is not a skip. */
  function SubPath(o: SubOutcome): string
    requires !o.SkippedStudent?
  {
    match o
    case MetadataOnly(p) => p
    case NoAttachments(p) => p
    case Download(p, _) => p
  }

  /** The disk after `mkdir(p)`. */
  function AfterMkdir(fs: FileSystem, p: string): FileSystem
  {
    if Exists(fs, p) then fs else fs.(dirs := fs.dirs + {p}, listing := fs.listing[p := []])
  }

  /** The disk after `cache(p)` of a document. */
  function AfterCache(fs: FileSystem, p: string, doc: Json): FileSystem
  {
    fs.(files := fs.files + {CacheTarget(fs, p)}, docs := fs.docs[CacheTarget(fs, p) := doc])
  }

  /** `fetch_sub`, up to the downloads: create the folder and cache the submission in it. */
  method FetchSub(disk: Disk, students: map<Json, Json>, path: string, json: Json, metadata: bool)
    returns (r: Result<SubOutcome>)
    modifies disk
    ensures r == SubDecision(students, path, json, metadata)
    ensures MadeFolder(students, path, json).None? ==> disk.fs == old(disk.fs)
    ensures MadeFolder(students, path, json).Some? ==>
      var p := MadeFolder(students, path, json).value;
      disk.fs == AfterCache(AfterMkdir(old(disk.fs), p), p, SubmissionPublic(json))
  {
    var t := SubTarget(students, path, json);
    if t.Err? {
      return t.PropagateFailure();
    }
    if t.value.None? {
      if "preview_url" !in json.fields {
        return Err(Failure("KeyError: preview_url"));
      }
      return Ok(SkippedStudent);
    }
    var subpath := t.value.value;
    disk.MakeDirIfAbsent(subpath);
    var target := subpath;
    if IsDir(disk.fs, subpath) {
      target := PathJoin(subpath, StaffeliFilename);
    }
    disk.WriteDoc(target, SubmissionPublic(json));
    if metadata {
      return Ok(MetadataOnly(subpath));
    }
    if "attachments" !in json.fields {
      if "preview_url" !in json.fields {
        return Err(Failure("KeyError: preview_url"));
      }
      return Ok(NoAttachments(subpath));
    }
    return Ok(Download(subpath, json.fields["attachments"]));
  }

  /**
   * The submission of a student the roster does not know, or knows without
   * a `kuid`, is skipped when it has a `preview_url` and fails otherwise;
   * for any other the folder `kuid_id` under `path` is made, and then
   * attachments are fetched exactly when not asked for metadata only and
   * the submission lists some, and a submission listing none fails unless
   * it has a `preview_url`.
   */
  lemma SubDecisionSpec(students: map<Json, Json>, path: string, fields: map<string, Json>, metadata: bool)
    requires "user_id" in fields && Hashable(fields["user_id"])
    requires fields["user_id"] in students ==> students[fields["user_id"]].JObj?
    ensures var sid := fields["user_id"];
      var d := SubDecision(students, path, JObj(fields), metadata);
      var skip := sid !in students || "kuid" !in students[sid].fields;
      var named := !skip && KuidName(students[sid].fields["kuid"], sid).Ok?;
      (d == Ok(SkippedStudent) <==> skip && "preview_url" in fields) &&
      (d.Ok? && d.value.Download? <==> named && !metadata && "attachments" in fields) &&
      (d.Ok? && d.value.NoAttachments? <==> named && !metadata && "attachments" !in fields && "preview_url" in fields) &&
      (d.Ok? && d.value.MetadataOnly? <==> named && metadata) &&
      (d == Err(Failure("KeyError: preview_url")) <==>
        "preview_url" !in fields && (skip || (named && !metadata && "attachments" !in fields))) &&
      (MadeFolder(students, path, JObj(fields)).Some? <==> named) &&
      (named ==> MadeFolder(students, path, JObj(fields)) == Some(PathJoin(path, KuidName(students[sid].fields["kuid"], sid).value))) &&
      (d.Ok? && !d.value.SkippedStudent? ==> Some(SubPath(d.value)) == MadeFolder(students, path, JObj(fields)))
  {
  }

  /** A skipped submission leaves no folder; a fetched one leaves its folder holding the cache file. */
  lemma FetchSubLeavesCache(fs: FileSystem, p: string, doc: Json)
    requires !Exists(fs, p)
    ensures IsDir(AfterMkdir(fs, p), p)
    ensures var fs2 := AfterCache(AfterMkdir(fs, p), p, doc);
      PathJoin(p, StaffeliFilename) in fs2.files && fs2.docs[PathJoin(p, StaffeliFilename)] == doc
  {
  }

  // ---------------------------------------------------------------- split_according_to_groups

  /**
   * `os.path.relpath(subpath, namepath)` for a link made in
   * `splits/<subsid>/<name>`: three levels up, then the relative
   * submission path.
   */
  function LinkSource(subpath: string): string
  {
    Up(3, subpath)
  }

  /** One member of a team: link its submission folder into `namepath` when that folder exists. */
  function LinkMember(fs: FileSystem, students: map<Json, Json>, subspath: string, namepath: string, uid: Json)
    : Result<FileSystem>
  {
    if !Hashable(uid) then Err(Failure("TypeError: unhashable type"))
    else if uid !in students then Err(Failure("KeyError: uid"))
    else
      var dirname :- StudentDirname(students[uid]);
      var subpath := PathJoin(subspath, dirname);
      if !IsDir(fs, subpath) then Ok(fs)
      else
        var tgt := PathJoin(namepath, dirname);
        if Exists(fs, tgt) then Err(Failure("FileExistsError: " + tgt))
        else Ok(fs.(links := fs.links[tgt := LinkSource(subpath)]))
  }

  /** The inner loop of `split_according_to_groups` over a team's members. */
  function LinkMembers(fs: FileSystem, students: map<Json, Json>, subspath: string, namepath: string, uids: seq<Json>)
    : Result<FileSystem>
  {
    if uids == [] then Ok(fs)
    else
      var fs1 :- LinkMembers(fs, students, subspath, namepath, uids[..|uids| - 1]);
      LinkMember(fs1, students, subspath, namepath, uids[|uids| - 1])
  }

  /** The inner loop of `split_according_to_groups`. */
  method LinkTeam(disk: Disk, students: map<Json, Json>, subspath: string, namepath: string, uids: seq<Json>)
    returns (r: Result<()>)
    modifies disk
    ensures r.Ok? <==> LinkMembers(old(disk.fs), students, subspath, namepath, uids).Ok?
    ensures r.Ok? ==> disk.fs == LinkMembers(old(disk.fs), students, subspath, namepath, uids).value
  {
    ghost var start := disk.fs;
    for i := 0 to |uids|
      invariant LinkMembers(start, students, subspath, namepath, uids[..i]) == Ok(disk.fs)
    {
      assert uids[..i + 1][..i] == uids[..i];
      var uid := uids[i];
      if !Hashable(uid) || uid !in students {
        LinkMembersPrefixErr(start, students, subspath, namepath, uids, i + 1);
        return Err(Failure("KeyError: uid"));
      }
      var dirname := StudentDirname(students[uid]);
      if dirname.Err? {
        LinkMembersPrefixErr(start, students, subspath, namepath, uids, i + 1);
        return Err(dirname.error);
      }
      var subpath := PathJoin(subspath, dirname.value);
      if IsDir(disk.fs, subpath) {
        var src := LinkSource(subpath);
        var tgt := PathJoin(namepath, dirname.value);
        var ok := disk.Symlink(src, tgt);
        if !ok {
          LinkMembersPrefixErr(start, students, subspath, namepath, uids, i + 1);
          return Err(Failure("FileExistsError: " + tgt));
        }
      }
    }
    assert uids[..|uids|] == uids;
    return Ok(());
  }

  lemma {:induction false} LinkMembersPrefixErr(fs: FileSystem, students: map<Json, Json>, subspath: string,
                                                namepath: string, uids: seq<Json>, n: nat)
    requires n <= |uids| && LinkMembers(fs, students, subspath, namepath, uids[..n]).Err?
    ensures LinkMembers(fs, students, subspath, namepath, uids).Err?
    decreases |uids| - n
  {
    if n < |uids| {
      assert uids[..n + 1][..n] == uids[..n];
      LinkMembersPrefixErr(fs, students, subspath, namepath, uids, n + 1);
    } else {
      assert uids[..n] == uids;
    }
  }

  /** The link a member gets, if its submission folder exists. */
  predicate LinkedMember(fs: FileSystem, students: map<Json, Json>, subspath: string, namepath: string, uid: Json, tgt: string)
  {
    Hashable(uid) && uid in students && StudentDirname(students[uid]).Ok? &&
    IsDir(fs, PathJoin(subspath, StudentDirname(students[uid]).value)) &&
    tgt == PathJoin(namepath, StudentDirname(students[uid]).value)
  }

  /**
   * Linking leaves files and directories alone; every new link is the
   * link of a member whose submission folder exists, pointing at that
   * folder, and every such member gets its link.
   */
  lemma {:induction false} LinkMembersSpec(fs: FileSystem, students: map<Json, Json>, subspath: string, namepath: string,
                                           uids: seq<Json>, tgt: string)
    requires LinkMembers(fs, students, subspath, namepath, uids).Ok?
    ensures var fs2 := LinkMembers(fs, students, subspath, namepath, uids).value;
      fs2.files == fs.files && fs2.dirs == fs.dirs && fs2.docs == fs.docs && fs2.listing == fs.listing &&
      (tgt in fs2.links && tgt !in fs.links ==>
        exists i :: 0 <= i < |uids| && LinkedMember(fs, students, subspath, namepath, uids[i], tgt) &&
          fs2.links[tgt] == LinkSource(PathJoin(subspath, StudentDirname(students[uids[i]]).value))) &&
      (forall i :: 0 <= i < |uids| && LinkedMember(fs, students, subspath, namepath, uids[i], tgt) ==> tgt in fs2.links)
    decreases |uids|
  {
    if uids != [] {
      var n := |uids| - 1;
      var init := uids[..n];
      LinkMembersSpec(fs, students, subspath, namepath, init, tgt);
      var fs1 := LinkMembers(fs, students, subspath, namepath, init).value;
      var fs2 := LinkMembers(fs, students, subspath, namepath, uids).value;
      assert fs2 == LinkMember(fs1, students, subspath, namepath, uids[n]).value;
      assert fs1.links.Keys <= fs2.links.Keys;
      forall i | 0 <= i < n ensures uids[i] == init[i] { }
      if tgt in fs2.links && tgt !in fs.links && tgt !in fs1.links {
        assert LinkedMember(fs, students, subspath, namepath, uids[n], tgt);
      }
      if tgt in fs1.links {
        assert fs2.links[tgt] == fs1.links[tgt];
      }
    }
  }
}
