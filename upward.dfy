/**
 * The five-level searches for a configuration file used by the scripts
 * under src/ and by staffeli/canvasTA-subs.py. Two variants exist:
 * `canvas_yaml_dir`/`config_dir` probe the start directory and then
 * prepend `..`; `find_upper_canvas_dir` prepends `..` before every probe
 * and so never looks at the start directory.
 */
module Upward {
  import opened Common
  import opened Os

  const Rounds: nat := 5
  const CanvasYaml := "canvas.yaml"

  /** The probes `k` .. `Rounds - 1` of the probe-first search: `Up(k, start)` is tried in round `k`. */
  function ConfigDirFrom(fs: FileSystem, start: string, filename: string, k: nat): Option<string>
    decreases Rounds - k
  {
    if k >= Rounds then None
    else if IsFile(fs, PathJoin(Up(k, start), filename)) then Some(Up(k, start))
    else ConfigDirFrom(fs, start, filename, k + 1)
  }

  /** The directory `config_dir(start, filename)` returns, if any. */
  function ConfigDir(fs: FileSystem, start: string, filename: string): Option<string>
  {
    ConfigDirFrom(fs, start, filename, 0)
  }

  /** The directory `find_upper_canvas_dir`'s loop returns: round `k` tries `Up(k + 1, start)`. */
  function FindUpperFrom(fs: FileSystem, start: string, filename: string, k: nat): Option<string>
    decreases Rounds - k
  {
    if k >= Rounds then None
    else if IsFile(fs, PathJoin(Up(k + 1, start), filename)) then Some(Up(k + 1, start))
    else FindUpperFrom(fs, start, filename, k + 1)
  }

  function FindUpper(fs: FileSystem, start: string, filename: string): Option<string>
  {
    FindUpperFrom(fs, start, filename, 0)
  }

  /** A miss becomes the `LookupError` the scripts raise. */
  function Located(found: Option<string>, filename: string): (r: Result<string>)
    ensures r.Ok? <==> found.Some?
    ensures r.Ok? ==> r.value == found.value
  {
    match found
    case Some(d) => Ok(d)
    case None => Err(NotLocated(filename))
  }

  /** Round `k` of a search from `start` finds the file. */
  predicate Holds(fs: FileSystem, start: string, filename: string, k: nat)
  {
    IsFile(fs, PathJoin(Up(k, start), filename))
  }

  /** Round `k2` is the first round from `k` on whose probe finds the file. */
  predicate NearestFrom(fs: FileSystem, start: string, filename: string, k: nat, k2: nat)
  {
    k <= k2 < Rounds && Holds(fs, start, filename, k2) &&
    forall k3 :: k <= k3 < k2 ==> !Holds(fs, start, filename, k3)
  }

  lemma ConfigDirFromSpec(fs: FileSystem, start: string, filename: string, k: nat)
    ensures ConfigDirFrom(fs, start, filename, k).None? <==>
      forall k2 :: k <= k2 < Rounds ==> !IsFile(fs, PathJoin(Up(k2, start), filename))
    ensures ConfigDirFrom(fs, start, filename, k).Some? ==>
      exists k2 :: k <= k2 < Rounds && ConfigDirFrom(fs, start, filename, k).value == Up(k2, start) &&
        IsFile(fs, PathJoin(Up(k2, start), filename)) &&
        forall k3 :: k <= k3 < k2 ==> !IsFile(fs, PathJoin(Up(k3, start), filename))
  {
    ConfigDirFromNone(fs, start, filename, k);
    if ConfigDirFrom(fs, start, filename, k).Some? {
      ConfigDirFromSome(fs, start, filename, k);
      var k2 :| NearestFrom(fs, start, filename, k, k2) && ConfigDirFrom(fs, start, filename, k).value == Up(k2, start);
      forall k3 | k <= k3 < k2 ensures !IsFile(fs, PathJoin(Up(k3, start), filename)) {
        assert !Holds(fs, start, filename, k3);
      }
      assert IsFile(fs, PathJoin(Up(k2, start), filename));
    } else {
      forall k2 | k <= k2 < Rounds ensures !IsFile(fs, PathJoin(Up(k2, start), filename)) {
        assert !Holds(fs, start, filename, k2);
      }
    }
  }

  lemma {:induction false} ConfigDirFromNone(fs: FileSystem, start: string, filename: string, k: nat)
    ensures ConfigDirFrom(fs, start, filename, k).None? <==> forall k2 :: k <= k2 < Rounds ==> !Holds(fs, start, filename, k2)
    decreases Rounds - k
  {
    if k < Rounds {
      ConfigDirFromNone(fs, start, filename, k + 1);
      RoundsSplit(fs, start, filename, k);
    }
  }

  /** The rounds from `k` miss exactly when round `k` and the rounds from `k + 1` do. */
  lemma RoundsSplit(fs: FileSystem, start: string, filename: string, k: nat)
    requires k < Rounds
    ensures (forall k2 :: k <= k2 < Rounds ==> !Holds(fs, start, filename, k2)) <==>
      !Holds(fs, start, filename, k) && forall k2 :: k + 1 <= k2 < Rounds ==> !Holds(fs, start, filename, k2)
  {
  }

  lemma {:induction false} ConfigDirFromSome(fs: FileSystem, start: string, filename: string, k: nat)
    requires ConfigDirFrom(fs, start, filename, k).Some?
    ensures exists k2 :: NearestFrom(fs, start, filename, k, k2) && ConfigDirFrom(fs, start, filename, k).value == Up(k2, start)
    decreases Rounds - k
  {
    if Holds(fs, start, filename, k) {
      assert NearestFrom(fs, start, filename, k, k);
    } else {
      ConfigDirFromSome(fs, start, filename, k + 1);
      var k2 :| NearestFrom(fs, start, filename, k + 1, k2) && ConfigDirFrom(fs, start, filename, k + 1).value == Up(k2, start);
      assert NearestFrom(fs, start, filename, k, k2);
    }
  }

  /**
   * The probe-first search returns the nearest of the five directories
   * `start`, `../start`, ... that holds the file, and misses exactly when
   * none does.
   */
  lemma ConfigDirSpec(fs: FileSystem, start: string, filename: string)
    ensures ConfigDir(fs, start, filename).None? <==>
      forall k :: 0 <= k < Rounds ==> !IsFile(fs, PathJoin(Up(k, start), filename))
    ensures ConfigDir(fs, start, filename).Some? ==>
      exists k :: 0 <= k < Rounds && ConfigDir(fs, start, filename).value == Up(k, start) &&
        IsFile(fs, PathJoin(Up(k, start), filename)) &&
        forall k2 :: 0 <= k2 < k ==> !IsFile(fs, PathJoin(Up(k2, start), filename))
    ensures IsFile(fs, PathJoin(start, filename)) ==> ConfigDir(fs, start, filename) == Some(start)
  {
    ConfigDirFromSpec(fs, start, filename, 0);
  }

  /** Prepending `..` once more is the same as starting one level further up. */
  lemma {:induction false} UpShift(k: nat, p: string)
    ensures Up(k + 1, p) == Up(k, "../" + p)
  {
    if k > 0 {
      UpShift(k - 1, p);
    }
  }

  lemma {:induction false} FindUpperFromShift(fs: FileSystem, start: string, filename: string, k: nat)
    ensures FindUpperFrom(fs, start, filename, k) == ConfigDirFrom(fs, "../" + start, filename, k)
    decreases Rounds - k
  {
    if k < Rounds {
      UpShift(k, start);
      FindUpperFromShift(fs, start, filename, k + 1);
    }
  }

  /** `find_upper_canvas_dir(p)` is the probe-first search started at `../p`. */
  lemma FindUpperShift(fs: FileSystem, start: string, filename: string)
    ensures FindUpper(fs, start, filename) == ConfigDir(fs, "../" + start, filename)
  {
    FindUpperFromShift(fs, start, filename, 0);
  }

  /**
   * The prepend-first search returns the nearest of `../start` ..
   * `../../../../../start` that holds the file; the start directory
   * itself is never probed, so what it holds does not matter.
   */
  lemma FindUpperSpec(fs: FileSystem, start: string, filename: string)
    ensures FindUpper(fs, start, filename).None? <==>
      forall k :: 1 <= k <= Rounds ==> !IsFile(fs, PathJoin(Up(k, start), filename))
    ensures FindUpper(fs, start, filename).Some? ==>
      exists k :: 1 <= k <= Rounds && FindUpper(fs, start, filename).value == Up(k, start) &&
        IsFile(fs, PathJoin(Up(k, start), filename)) &&
        forall k2 :: 1 <= k2 < k ==> !IsFile(fs, PathJoin(Up(k2, start), filename))
    ensures FindUpper(fs, start, filename) != Some(start)
  {
    var up := "../" + start;
    FindUpperShift(fs, start, filename);
    ConfigDirFromNone(fs, up, filename, 0);
    if FindUpper(fs, start, filename).None? {
      forall k | 1 <= k <= Rounds ensures !IsFile(fs, PathJoin(Up(k, start), filename)) {
        HoldsShift(fs, start, filename, k - 1);
      }
    } else {
      ConfigDirFromSome(fs, up, filename, 0);
      var k: nat :| NearestFrom(fs, up, filename, 0, k) && ConfigDir(fs, up, filename).value == Up(k, up);
      UpShift(k, start);
      HoldsShift(fs, start, filename, k);
      forall k2 | 1 <= k2 < k + 1 ensures !IsFile(fs, PathJoin(Up(k2, start), filename)) {
        HoldsShift(fs, start, filename, k2 - 1);
      }
      assert |Up(k + 1, start)| > |start|;
    }
  }

  /** Round `k` from `../start` probes what round `k + 1` from `start` does. */
  lemma HoldsShift(fs: FileSystem, start: string, filename: string, k: nat)
    ensures Holds(fs, "../" + start, filename, k) == IsFile(fs, PathJoin(Up(k + 1, start), filename))
  {
    UpShift(k, start);
  }

  /** `config_dir(parent, filename)` (and `canvas_yaml_dir(parent)` for `canvas.yaml`). */
  method SearchConfigDir(fs: FileSystem, parent: string, filename: string) returns (r: Result<string>)
    ensures r == Located(ConfigDir(fs, parent, filename), filename)
  {
    var dir := parent;
    for i := 0 to Rounds
      invariant dir == Up(i, parent)
      invariant ConfigDir(fs, parent, filename) == ConfigDirFrom(fs, parent, filename, i)
    {
      if IsFile(fs, PathJoin(dir, filename)) {
        return Ok(dir);
      }
      dir := "../" + dir;
    }
    return Err(NotLocated(filename));
  }

  /** `find_upper_canvas_dir(parent)`: `..` is prepended before each probe. */
  method SearchUpper(fs: FileSystem, parent: string) returns (r: Result<string>)
    ensures r == Located(FindUpper(fs, parent, CanvasYaml), CanvasYaml)
  {
    var dir := parent;
    for i := 0 to Rounds
      invariant dir == Up(i, parent)
      invariant FindUpper(fs, parent, CanvasYaml) == FindUpperFrom(fs, parent, CanvasYaml, i)
    {
      dir := "../" + dir;
      if IsFile(fs, PathJoin(dir, CanvasYaml)) {
        return Ok(dir);
      }
    }
    return Err(NotLocated(CanvasYaml));
  }

  /** Where a script found its assignment and course, and the ids it read there. */
  datatype Target = Target(assignmentDir: string, assignmentId: Json, courseDir: string, courseId: Json)
}

