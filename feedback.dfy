/**
 * src/feedback.py: the grade check, the student ids of a submission
 * folder and the search for the assignment and course configuration,
 * which here starts one level above the working directory.
 */
module Feedback {
  import opened Common
  import opened Os
  import opened Upward
  import Cachable
  import Cli
  import Submission

  // ---------------------------------------------------------------- _check_grade

  const FeedbackGrades := ["pass", "fail", "complete", "incomplete"]

  /**
   * The feedback script accepts everything the command line does, and
   * also "complete" and "incomplete", which the command line refuses.
   */
  lemma FeedbackGradesWider(grade: string)
    ensures Cli.CheckGrade(Cli.CliGrades, grade).Ok? ==> Cli.CheckGrade(FeedbackGrades, grade) == Ok(grade)
    ensures Cli.CheckGrade(FeedbackGrades, "complete") == Ok("complete")
    ensures Cli.CheckGrade(FeedbackGrades, "incomplete") == Ok("incomplete")
    ensures Cli.CheckGrade(Cli.CliGrades, "complete").Err?
    ensures Cli.CheckGrade(Cli.CliGrades, "incomplete").Err?
  {
    Cli.CheckGradeMonotone(Cli.CliGrades, FeedbackGrades, grade);
    Refused("complete");
    Refused("incomplete");
    assert FeedbackGrades[2] == "complete" && FeedbackGrades[3] == "incomplete";
  }

  /** A word that is neither "pass" nor "fail" nor a number is refused on the command line. */
  lemma Refused(word: string)
    requires |word| > 4 && 'a' <= word[0] <= 'z'
    ensures Cli.CheckGrade(Cli.CliGrades, word).Err?
  {
    NotANumber(word);
    assert word !in Cli.CliGrades;
  }

  /** A text starting with a lower-case letter is not a number. */
  lemma NotANumber(s: string)
    requires |s| > 0 && 'a' <= s[0] <= 'z'
    ensures ParseInt(s) == None
  {
    assert TrimLeft(s) == s by {
      assert !IsSpace(s[0]);
    }
    var t := TrimRight(s);
    assert |t| > 0 by {
      if |t| == 0 {
        TrimRightBlank(s);
      }
    }
    assert Strip(s) == t;
    assert ParseSigned(t) == None by {
      assert t[0] == s[0];
    }
  }

  /** Everything `TrimRight` removes is space. */
  lemma {:induction false} TrimRightBlank(s: string)
    requires TrimRight(s) == []
    ensures forall i :: 0 <= i < |s| ==> IsSpace(s[i])
    decreases |s|
  {
    if |s| > 0 {
      assert IsSpace(s[|s| - 1]);
      assert TrimRight(s) == TrimRight(s[..|s| - 1]);
      TrimRightBlank(s[..|s| - 1]);
      assert forall i :: 0 <= i < |s| - 1 ==> s[i] == s[..|s| - 1][i];
    }
  }

  // ---------------------------------------------------------------- _find_student_id(s)

  /** The failure of the no-match branch: `exit_badpath` is not defined. */
  const UndefinedExitBadpath := Failure("NameError: name 'exit_badpath' is not defined")

  /** What `_find_student_id(subdir)` returns or raises: only the listed names are consulted. */
  function StudentIdOf(fs: FileSystem, subdir: string): Result<Json>
  {
    var names :- ListDir(fs, subdir);
    match Submission.FirstId(names)
    case None => Err(UndefinedExitBadpath)
    case Some(Err(e)) => Err(e)
    case Some(Ok(n)) => Ok(JInt(n))
  }

  /** `_find_student_id`. */
  method FindStudentId(fs: FileSystem, subdir: string) returns (r: Result<Json>)
    ensures r == StudentIdOf(fs, subdir)
  {
    var names :- ListDir(fs, subdir);
    var found := Submission.ScanForId(names);
    if found.None? {
      return Err(UndefinedExitBadpath);
    }
    if found.value.Err? {
      return Err(found.value.error);
    }
    return Ok(JInt(found.value.value));
  }

  /**
   * Without a `canvas.yaml` in the folder this is the package's lookup,
   * except that a folder with no qualifying name fails on the undefined
   * name instead of naming the folder; with one, the package reads the
   * file and this script ignores it.
   */
  lemma StudentIdAgrees(fs: FileSystem, subdir: string)
    ensures !IsFile(fs, PathJoin(subdir, CanvasYaml)) && Submission.StudentIdOf(fs, subdir) != Err(NotLocated(subdir)) ==>
      StudentIdOf(fs, subdir) == Submission.StudentIdOf(fs, subdir)
    ensures !IsFile(fs, PathJoin(subdir, CanvasYaml)) && Submission.StudentIdOf(fs, subdir) == Err(NotLocated(subdir)) ==>
      StudentIdOf(fs, subdir) == Err(UndefinedExitBadpath)
    ensures ListDir(fs, subdir).Ok? ==>
      (StudentIdOf(fs, subdir) == Err(UndefinedExitBadpath) <==>
        forall i :: 0 <= i < |ListDir(fs, subdir).value| ==> !Submission.Qualifies(ListDir(fs, subdir).value[i]))
  {
    assert Submission.CanvasYaml == CanvasYaml;
    if ListDir(fs, subdir).Ok? {
      Submission.FirstIdSpec(ListDir(fs, subdir).value);
    }
  }

  /**
   * The evidently intended end of the no-match branch: `_exit_badpath()`,
   * which prints its message and leaves with `sys.exit(1)`.
   */
  const BadPathExit := Failure("SystemExit: 1")

  /** `_find_student_id` as evidently intended, calling the defined `_exit_badpath`. */
  function IntendedStudentIdOf(fs: FileSystem, subdir: string): Result<Json>
  {
    var names :- ListDir(fs, subdir);
    match Submission.FirstId(names)
    case None => Err(BadPathExit)
    case Some(Err(e)) => Err(e)
    case Some(Ok(n)) => Ok(JInt(n))
  }

  /**
   * The intended lookup exits with status 1 exactly where the script as
   * written fails on the undefined name, that is when the folder lists no
   * qualifying name, and agrees with it everywhere else.
   */
  lemma IntendedStudentIdSpec(fs: FileSystem, subdir: string)
    ensures ListDir(fs, subdir).Err? ==> IntendedStudentIdOf(fs, subdir) == StudentIdOf(fs, subdir)
    ensures ListDir(fs, subdir).Ok? && (exists i :: 0 <= i < |ListDir(fs, subdir).value| && Submission.Qualifies(ListDir(fs, subdir).value[i])) ==>
      IntendedStudentIdOf(fs, subdir) == StudentIdOf(fs, subdir) && IntendedStudentIdOf(fs, subdir) != Err(BadPathExit)
    ensures ListDir(fs, subdir).Ok? && (forall i :: 0 <= i < |ListDir(fs, subdir).value| ==> !Submission.Qualifies(ListDir(fs, subdir).value[i])) ==>
      IntendedStudentIdOf(fs, subdir) == Err(BadPathExit) && StudentIdOf(fs, subdir) == Err(UndefinedExitBadpath)
  {
    if ListDir(fs, subdir).Ok? {
      Submission.FirstIdSpec(ListDir(fs, subdir).value);
    }
  }

  /** What `_find_student_ids(subdir)` returns or raises: the group file's contents when present. */
  function StudentIdsOf(fs: FileSystem, subdir: string): Result<Json>
  {
    var jsonpath := PathJoin(subdir, Submission.CanvasGroupJson);
    if IsFile(fs, jsonpath) then Load(fs, jsonpath)
    else
      var id :- StudentIdOf(fs, subdir);
      Ok(JList([id]))
  }

  /** `_find_student_ids`. */
  method FindStudentIds(fs: FileSystem, subdir: string) returns (r: Result<Json>)
    ensures r == StudentIdsOf(fs, subdir)
  {
    var jsonpath := PathJoin(subdir, Submission.CanvasGroupJson);
    if IsFile(fs, jsonpath) {
      return Load(fs, jsonpath);
    }
    var id :- FindStudentId(fs, subdir);
    return Ok(JList([id]));
  }

  /**
   * The group file decides when present, exactly as the package's lookup
   * was evidently meant to; otherwise the result is the singleton of the
   * folder's id.
   */
  lemma StudentIdsSpec(fs: FileSystem, subdir: string)
    ensures IsFile(fs, PathJoin(subdir, Submission.CanvasGroupJson)) ==>
      StudentIdsOf(fs, subdir) == Submission.IntendedStudentIds(fs, subdir)
    ensures !IsFile(fs, PathJoin(subdir, Submission.CanvasGroupJson)) ==>
      (StudentIdsOf(fs, subdir).Ok? <==> StudentIdOf(fs, subdir).Ok?)
    ensures !IsFile(fs, PathJoin(subdir, Submission.CanvasGroupJson)) && StudentIdOf(fs, subdir).Ok? ==>
      StudentIdsOf(fs, subdir) == Ok(JList([StudentIdOf(fs, subdir).value]))
  {
  }

  // ---------------------------------------------------------------- get_assignment

  /** `open(p).read().strip()`, with a text file modelled as a document holding its text. */
  function ReadText(fs: FileSystem, p: string): Result<string>
  {
    var doc :- Load(fs, p);
    if doc.JStr? then Ok(Strip(doc.s)) else Err(Failure("cannot read text from " + p))
  }

  /** The directories, ids and token `get_assignment` resolves the assignment with. */
  function FeedbackTarget(fs: FileSystem): Result<(Target, string)>
  {
    var adir :- Located(FindUpper(fs, ".", CanvasYaml), CanvasYaml);
    var aconf :- Load(fs, PathJoin(adir, CanvasYaml));
    var aid :- Cachable.Index(aconf, "assignment_id");
    var cdir :- Located(FindUpper(fs, adir, CanvasYaml), CanvasYaml);
    var cconf :- Load(fs, PathJoin(cdir, CanvasYaml));
    var cid :- Cachable.Index(cconf, "course_id");
    var token :- ReadText(fs, PathJoin(cdir, "token"));
    Ok((Target(adir, aid, cdir, cid), token))
  }

  /** `get_assignment`, up to the network requests for the course and the assignment. */
  method GetAssignment(fs: FileSystem) returns (r: Result<(Target, string)>)
    ensures r == FeedbackTarget(fs)
  {
    var adir :- SearchUpper(fs, ".");
    var aconf :- Load(fs, PathJoin(adir, CanvasYaml));
    var aid :- Cachable.Index(aconf, "assignment_id");
    var cdir :- SearchUpper(fs, adir);
    var cconf :- Load(fs, PathJoin(cdir, CanvasYaml));
    var cid :- Cachable.Index(cconf, "course_id");
    var token :- ReadText(fs, PathJoin(cdir, "token"));
    return Ok((Target(adir, aid, cdir, cid), token));
  }

  /**
   * The assignment directory is one of `../.` .. `../../../../../.`, never
   * the working directory, and is where the probe-first search from `../.`
   * stops; the course directory is a strict `..`-prefix of it, and the
   * token is read next to the course's `canvas.yaml`.
   */
  lemma FeedbackTargetSpec(fs: FileSystem)
    ensures FeedbackTarget(fs).Ok? ==>
      var t := FeedbackTarget(fs).value.0;
      (exists k :: 1 <= k <= Rounds && t.assignmentDir == Up(k, ".")) &&
      t.assignmentDir != "." &&
      ConfigDir(fs, "../.", CanvasYaml) == Some(t.assignmentDir) &&
      (exists k :: 1 <= k <= Rounds && t.courseDir == Up(k, t.assignmentDir)) &&
      t.courseDir != t.assignmentDir &&
      ReadText(fs, PathJoin(t.courseDir, "token")) == Ok(FeedbackTarget(fs).value.1)
  {
    FindUpperSpec(fs, ".", CanvasYaml);
    FindUpperShift(fs, ".", CanvasYaml);
    assert "../" + "." == "../.";
    if FeedbackTarget(fs).Ok? {
      FindUpperSpec(fs, FeedbackTarget(fs).value.0.assignmentDir, CanvasYaml);
    }
  }
}
