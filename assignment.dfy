/**
 * `get_cwd_assignment` of src/assignment.py: the assignment directory is
 * the nearest of `.`, `../.`, ... holding a `canvas.yaml`, and the course
 * directory is searched for starting one level above it.
 */
module Assignment {
  import opened Common
  import opened Os
  import opened Upward
  import Cachable

  /** The directories and ids `get_cwd_assignment` resolves the assignment with. */
  function CwdTarget(fs: FileSystem): Result<Target>
  {
    var adir :- Located(ConfigDir(fs, ".", CanvasYaml), CanvasYaml);
    var aconf :- Load(fs, PathJoin(adir, CanvasYaml));
    var aid :- Cachable.Index(aconf, "assignment_id");
    var cdir :- Located(ConfigDir(fs, PathJoin(adir, ".."), CanvasYaml), CanvasYaml);
    var cconf :- Load(fs, PathJoin(cdir, CanvasYaml));
    var cid :- Cachable.Index(cconf, "course_id");
    Ok(Target(adir, aid, cdir, cid))
  }

  /** `get_cwd_assignment`, up to the network request for the assignment itself. */
  method GetCwdAssignment(fs: FileSystem) returns (r: Result<Target>)
    ensures r == CwdTarget(fs)
  {
    var adir :- SearchConfigDir(fs, ".", CanvasYaml);
    var aconf :- Load(fs, PathJoin(adir, CanvasYaml));
    var aid :- Cachable.Index(aconf, "assignment_id");
    var cdir :- SearchConfigDir(fs, PathJoin(adir, ".."), CanvasYaml);
    var cconf :- Load(fs, PathJoin(cdir, CanvasYaml));
    var cid :- Cachable.Index(cconf, "course_id");
    return Ok(Target(adir, aid, cdir, cid));
  }

  /**
   * The assignment directory is the nearest `canvas.yaml` holder from `.`;
   * the course directory is one of `adir/..`, `../adir/..`, ... and is
   * never the assignment directory; each id is the one read from its
   * directory's `canvas.yaml`.
   */
  lemma CwdTargetSpec(fs: FileSystem)
    ensures CwdTarget(fs).Ok? ==>
      var t := CwdTarget(fs).value;
      ConfigDir(fs, ".", CanvasYaml) == Some(t.assignmentDir) &&
      (exists k :: 0 <= k < Rounds && t.courseDir == Up(k, PathJoin(t.assignmentDir, ".."))) &&
      t.courseDir != t.assignmentDir &&
      Cachable.Index(Load(fs, PathJoin(t.assignmentDir, CanvasYaml)).value, "assignment_id") == Ok(t.assignmentId) &&
      Cachable.Index(Load(fs, PathJoin(t.courseDir, CanvasYaml)).value, "course_id") == Ok(t.courseId)
    ensures IsFile(fs, PathJoin(".", CanvasYaml)) ==> CwdTarget(fs).Ok? ==> CwdTarget(fs).value.assignmentDir == "."
  {
    ConfigDirSpec(fs, ".", CanvasYaml);
    if CwdTarget(fs).Ok? {
      var t := CwdTarget(fs).value;
      var above := PathJoin(t.assignmentDir, "..");
      assert ConfigDir(fs, above, CanvasYaml) == Some(t.courseDir);
      ConfigDirFromSome(fs, above, CanvasYaml, 0);
      var k: nat :| NearestFrom(fs, above, CanvasYaml, 0, k) && t.courseDir == Up(k, above);
      assert |t.courseDir| > |t.assignmentDir|;
    }
  }
}
