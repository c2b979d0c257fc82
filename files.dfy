/**
 * Bounded upward file search (staffeli/files.py): probe a start directory
 * and then `..`-prefixed versions of it for the first of several candidate
 * file names, and select the cache file `.staffeli.yml` that holds exactly
 * one top-level key, the requested cache name.
 */
module Files {
  import opened Common
  import opened Os

  const StaffeliFilename := ".staffeli.yml"
  const TokenFilenames := ["token", "token.txt", ".token"]
  const MaxDirSearchDepth: nat := 9

  /** `_find_file` takes one name or a list of names. */
  datatype Candidates = OneName(name: string) | NameList(names: seq<string>)

  /** `if isinstance(candidate_names, str): candidate_names = [candidate_names]`. */
  function CandidateNames(c: Candidates): seq<string>
  {
    match c
    case OneName(n) => [n]
    case NameList(ns) => ns
  }

  /** The path probed for candidate `name` in round `level`. */
  function Probe(start: string, level: nat, name: string): string
  {
    PathJoin(Up(level, start), name)
  }

  /** Round `k`, candidate `j` is probed before round `k2`, candidate `j2`. */
  predicate Earlier(k: int, j: int, k2: int, j2: int)
  {
    k < k2 || (k == k2 && j < j2)
  }

  /** The first existing candidate of one round, in list order. */
  function FirstInLevel(fs: FileSystem, cs: seq<string>, dir: string, j: nat): (r: Option<string>)
    requires j <= |cs|
    ensures r.Some? ==> exists i :: (j <= i < |cs| && r.value == PathJoin(dir, cs[i]) && IsFile(fs, r.value) &&
      forall i2 :: j <= i2 < i ==> !IsFile(fs, PathJoin(dir, cs[i2])))
    ensures r.None? ==> forall i :: j <= i < |cs| ==> !IsFile(fs, PathJoin(dir, cs[i]))
    decreases |cs| - j
  {
    if j == |cs| then None
    else if IsFile(fs, PathJoin(dir, cs[j])) then Some(PathJoin(dir, cs[j]))
    else FirstInLevel(fs, cs, dir, j + 1)
  }

  /** The first hit of rounds `k` .. `MaxDirSearchDepth - 1`. */
  function FirstHitFrom(fs: FileSystem, cs: seq<string>, start: string, k: nat): Option<string>
    decreases MaxDirSearchDepth - k
  {
    if k >= MaxDirSearchDepth then None
    else match FirstInLevel(fs, cs, Up(k, start), 0)
      case Some(p) => Some(p)
      case None => FirstHitFrom(fs, cs, start, k + 1)
  }

  /** The path `_find_file` returns, if any. */
  function FirstHit(fs: FileSystem, cs: seq<string>, start: string): Option<string>
  {
    FirstHitFrom(fs, cs, start, 0)
  }

  /** Probe `(k2, j)` hits, and no probe of the rounds from `k` that comes before it does. */
  ghost predicate FirstProbe(fs: FileSystem, cs: seq<string>, start: string, k: nat, k2: int, j: int)
  {
    k <= k2 < MaxDirSearchDepth && 0 <= j < |cs| && IsFile(fs, Probe(start, k2, cs[j])) &&
    forall k3, j3 :: k <= k3 && 0 <= j3 < |cs| && Earlier(k3, j3, k2, j) ==> !IsFile(fs, Probe(start, k3, cs[j3]))
  }

  /**
   * The rounds from `k` on return the first existing probe in
   * round-then-candidate order, and nothing only when every probe of those
   * rounds misses.
   */
  lemma FirstHitFromSpec(fs: FileSystem, cs: seq<string>, start: string, k: nat)
    ensures FirstHitFrom(fs, cs, start, k).Some? ==>
      exists k2, j :: k <= k2 < MaxDirSearchDepth && 0 <= j < |cs| &&
        FirstHitFrom(fs, cs, start, k).value == Probe(start, k2, cs[j]) &&
        IsFile(fs, Probe(start, k2, cs[j])) &&
        forall k3, j3 :: k <= k3 && 0 <= j3 < |cs| && Earlier(k3, j3, k2, j) ==> !IsFile(fs, Probe(start, k3, cs[j3]))
    ensures FirstHitFrom(fs, cs, start, k).None? ==>
      forall k2, j :: k <= k2 < MaxDirSearchDepth && 0 <= j < |cs| ==> !IsFile(fs, Probe(start, k2, cs[j]))
  {
    FirstHitFromNone(fs, cs, start, k);
    if FirstHitFrom(fs, cs, start, k).Some? {
      FirstHitFromSome(fs, cs, start, k);
      var k2, j :| FirstProbe(fs, cs, start, k, k2, j) && FirstHitFrom(fs, cs, start, k).value == Probe(start, k2, cs[j]);
    }
  }

  lemma {:induction false} FirstHitFromNone(fs: FileSystem, cs: seq<string>, start: string, k: nat)
    ensures FirstHitFrom(fs, cs, start, k).None? ==>
      forall k2, j :: k <= k2 < MaxDirSearchDepth && 0 <= j < |cs| ==> !IsFile(fs, Probe(start, k2, cs[j]))
    decreases MaxDirSearchDepth - k
  {
    if k < MaxDirSearchDepth {
      FirstHitFromNone(fs, cs, start, k + 1);
    }
  }

  lemma {:induction false} FirstHitFromSome(fs: FileSystem, cs: seq<string>, start: string, k: nat)
    requires FirstHitFrom(fs, cs, start, k).Some?
    ensures exists k2, j :: FirstProbe(fs, cs, start, k, k2, j) && FirstHitFrom(fs, cs, start, k).value == Probe(start, k2, cs[j])
    decreases MaxDirSearchDepth - k
  {
    var here := FirstInLevel(fs, cs, Up(k, start), 0);
    if here.Some? {
      var j :| 0 <= j < |cs| && here.value == PathJoin(Up(k, start), cs[j]) && IsFile(fs, here.value) &&
        forall i2 :: 0 <= i2 < j ==> !IsFile(fs, PathJoin(Up(k, start), cs[i2]));
      forall k3, j3 | k <= k3 && 0 <= j3 < |cs| && Earlier(k3, j3, k, j)
        ensures !IsFile(fs, Probe(start, k3, cs[j3]))
      {
        assert k3 == k && j3 < j;
      }
      assert FirstProbe(fs, cs, start, k, k, j);
    } else {
      FirstHitFromSome(fs, cs, start, k + 1);
      var k2, j :| FirstProbe(fs, cs, start, k + 1, k2, j) && FirstHitFrom(fs, cs, start, k + 1).value == Probe(start, k2, cs[j]);
      forall k3, j3 | k <= k3 && 0 <= j3 < |cs| && Earlier(k3, j3, k2, j)
        ensures !IsFile(fs, Probe(start, k3, cs[j3]))
      {
        if k3 == k {
          assert !IsFile(fs, PathJoin(Up(k, start), cs[j3]));
        }
      }
      assert FirstProbe(fs, cs, start, k, k2, j);
    }
  }

  /**
   * The nested probing loops shared by both copies of `_find_file`: up to
   * `MaxDirSearchDepth` rounds, the candidates in list order within a round,
   * `..` prepended between rounds.
   */
  method SearchLevels(fs: FileSystem, cs: seq<string>, start: string) returns (r: Option<string>)
    ensures r == FirstHit(fs, cs, start)
  {
    var parent := start;
    for i := 0 to MaxDirSearchDepth
      invariant parent == Up(i, start)
      invariant FirstHit(fs, cs, start) == FirstHitFrom(fs, cs, start, i)
    {
      for j := 0 to |cs|
        invariant FirstInLevel(fs, cs, parent, 0) == FirstInLevel(fs, cs, parent, j)
      {
        var path := PathJoin(parent, cs[j]);
        if IsFile(fs, path) {
          return Some(path);
        }
      }
      parent := "../" + parent;
    }
    return None;
  }

  /**
   * The search returns the first existing probe in round-major, candidate-minor
   * order, so a nearer level beats any farther one; it misses only when every
   * one of the `MaxDirSearchDepth * |cs|` probes misses.
   */
  lemma FirstHitSpec(fs: FileSystem, cs: seq<string>, start: string)
    ensures FirstHit(fs, cs, start).Some? <==>
      exists k, j :: 0 <= k < MaxDirSearchDepth && 0 <= j < |cs| && IsFile(fs, Probe(start, k, cs[j]))
    ensures FirstHit(fs, cs, start).Some? ==>
      exists k, j :: 0 <= k < MaxDirSearchDepth && 0 <= j < |cs| &&
        FirstHit(fs, cs, start).value == Probe(start, k, cs[j]) && IsFile(fs, Probe(start, k, cs[j])) &&
        forall k2, j2 :: 0 <= k2 && 0 <= j2 < |cs| && Earlier(k2, j2, k, j) ==> !IsFile(fs, Probe(start, k2, cs[j2]))
  {
    FirstHitFromSpec(fs, cs, start, 0);
  }

  /** How the candidates are named once the search has given up; an empty list has no last element. */
  function NotFoundName(cs: seq<string>): Option<string>
  {
    if |cs| == 0 then None
    else if |cs| == 1 then Some(cs[0])
    else if |cs| == 2 then Some("either " + cs[0] + " or " + cs[1])
    else Some("either " + Join(cs[..|cs| - 1], ", ") + ", or " + cs[|cs| - 1])
  }

  lemma {:induction false} JoinMentions(parts: seq<string>, sep: string, k: nat)
    requires k < |parts|
    ensures Contains(parts[k], Join(parts, sep))
    decreases |parts|
  {
    if |parts| == 1 {
      ContainsWhole(parts[0]);
    } else if k == 0 {
      ContainsPrefix(parts[0], sep + Join(parts[1..], sep));
    } else {
      JoinMentions(parts[1..], sep, k - 1);
      ContainsSuffix(parts[k], parts[0] + sep, Join(parts[1..], sep));
    }
  }

  lemma ContainsWhole(s: string)
    ensures Contains(s, s)
  {
    assert s[..|s|] == s;
  }

  lemma ContainsPrefix(a: string, b: string)
    ensures Contains(a, a + b)
  {
    assert (a + b)[..|a|] == a;
  }

  lemma {:induction false} ContainsSuffix(n: string, a: string, b: string)
    requires Contains(n, b)
    ensures Contains(n, a + b)
    decreases |a|
  {
    if |a| > 0 {
      ContainsSuffix(n, a[1..], b);
      assert (a + b)[1..] == a[1..] + b;
      assert Contains(n, (a + b)[1..]);
    } else {
      assert a + b == b;
    }
  }

  /** The not-found description names every candidate. */
  lemma NotFoundNameMentions(cs: seq<string>, k: nat)
    requires k < |cs|
    ensures NotFoundName(cs).Some?
    ensures Contains(cs[k], NotFoundName(cs).value)
  {
    var n := |cs|;
    if n == 1 {
      ContainsWhole(cs[0]);
    } else if n == 2 {
      assert "either " + cs[0] + " or " + cs[1] == "either " + (cs[0] + (" or " + cs[1]));
      if k == 0 {
        ContainsPrefix(cs[0], " or " + cs[1]);
        ContainsSuffix(cs[0], "either ", cs[0] + (" or " + cs[1]));
      } else {
        ContainsWhole(cs[1]);
        ContainsSuffix(cs[1], "either " + cs[0] + " or ", cs[1]);
      }
    } else {
      var head := Join(cs[..n - 1], ", ");
      var text := "either " + head + ", or " + cs[n - 1];
      if k < n - 1 {
        JoinMentions(cs[..n - 1], ", ", k);
        ContainsInMiddle(cs[k], "either ", head, ", or " + cs[n - 1]);
        assert text == "either " + head + (", or " + cs[n - 1]);
      } else {
        ContainsWhole(cs[n - 1]);
        ContainsSuffix(cs[n - 1], "either " + head + ", or ", cs[n - 1]);
      }
    }
  }

  lemma ContainsInMiddle(n: string, a: string, b: string, c: string)
    requires Contains(n, b)
    ensures Contains(n, a + b + c)
  {
    ContainsInFront(n, b, c);
    ContainsSuffix(n, a, b + c);
    assert a + b + c == a + (b + c);
  }

  lemma {:induction false} ContainsInFront(n: string, b: string, c: string)
    requires Contains(n, b)
    ensures Contains(n, b + c)
    decreases |b|
  {
    if IsPrefix(n, b) {
      assert (b + c)[..|n|] == b[..|n|];
    } else {
      ContainsInFront(n, b[1..], c);
      assert (b + c)[1..] == b[1..] + c;
    }
  }

  /** The failure raised when every probe misses: line 39 calls the three-argument helper with two. */
  const MissingArgument := Failure("_raise_lookup_error() " + "missing 1 required positional argument")

  /**
   * `_find_file`: when every probe misses, an empty candidate list fails on
   * `candidate_names[-1]` before the two-argument call of line 39 is reached.
   */
  method FindFile(fs: FileSystem, candidates: Candidates, parent: string) returns (r: Result<string>)
    ensures r.Ok? <==> FirstHit(fs, CandidateNames(candidates), parent).Some?
    ensures r.Ok? ==> FirstHit(fs, CandidateNames(candidates), parent) == Some(r.value)
    ensures r.Err? && |CandidateNames(candidates)| > 0 ==> r.error == MissingArgument
    ensures r.Err? && |CandidateNames(candidates)| == 0 ==> r.error == Failure("IndexError: list index out of range")
  {
    var cs := CandidateNames(candidates);
    var hit := SearchLevels(fs, cs, parent);
    if hit.Some? {
      return Ok(hit.value);
    }
    if |cs| == 0 {
      return Err(Failure("IndexError: list index out of range"));
    }
    return Err(MissingArgument);
  }

  /** A single name is searched exactly like the one-element list holding it. */
  lemma SingleNameAsList(fs: FileSystem, name: string, parent: string)
    ensures FirstHit(fs, CandidateNames(OneName(name)), parent) == FirstHit(fs, CandidateNames(NameList([name])), parent)
  {
  }

  /**
   * `len(model) == 1 and cachename in model`, for whatever the YAML file
   * parses to; `len` of a number, a boolean or null raises.
   */
  function Accepts(model: Json, cachename: string): Result<bool>
  {
    match model
    case JObj(f) => Ok(|f.Keys| == 1 && cachename in f)
    case JList(items) => Ok(|items| == 1 && JStr(cachename) in items)
    case JStr(s) => Ok(|s| == 1 && Contains(cachename, s))
    case _ => Err(Failure("object has no len()"))
  }

  /** What `find_staffeli_file` returns or raises when `rounds` rounds are left from `parent`. */
  function StaffeliSearch(fs: FileSystem, cachename: string, parent: string, rounds: nat): Result<(string, Json)>
    decreases rounds
  {
    if rounds == 0 then Err(MissingArgument)
    else match FirstHit(fs, [StaffeliFilename], parent)
      case None => Err(MissingArgument)
      case Some(path) =>
        match Load(fs, path)
        case Err(e) => Err(e)
        case Ok(model) =>
          var dir := Dirname(path);
          match Accepts(model, cachename)
          case Err(e) => Err(e)
          case Ok(true) => Ok((dir, model))
          case Ok(false) => StaffeliSearch(fs, cachename, PathJoin(dir, ".."), rounds - 1)
  }

  /** `find_staffeli_file`. */
  method FindStaffeliFile(fs: FileSystem, cachename: string, searchdir: string) returns (r: Result<(string, Json)>)
    ensures r == StaffeliSearch(fs, cachename, searchdir, 9)
  {
    var parent := searchdir;
    for i := 0 to 9
      invariant StaffeliSearch(fs, cachename, searchdir, 9) == StaffeliSearch(fs, cachename, parent, 9 - i)
    {
      var path := FindFile(fs, OneName(StaffeliFilename), parent);
      if path.Err? {
        return Err(path.error);
      }
      var model := Load(fs, path.value);
      if model.Err? {
        return Err(model.error);
      }
      parent := Dirname(path.value);
      var accepted := Accepts(model.value, cachename);
      if accepted.Err? {
        return Err(accepted.error);
      }
      if accepted.value {
        return Ok((parent, model.value));
      }
      parent := PathJoin(parent, "..");
    }
    return Err(MissingArgument);
  }

  /**
   * An accepted file is a found `.staffeli.yml` in the returned directory,
   * and its model holds the cache name as its one key (or one element); a
   * mapping with any second key is passed over.
   */
  lemma {:induction false} StaffeliSearchSound(fs: FileSystem, cachename: string, parent: string, rounds: nat)
    ensures StaffeliSearch(fs, cachename, parent, rounds).Ok? ==>
      var (dir, model) := StaffeliSearch(fs, cachename, parent, rounds).value;
      IsFile(fs, PathJoin(dir, StaffeliFilename)) &&
      Load(fs, PathJoin(dir, StaffeliFilename)) == Ok(model) &&
      Accepts(model, cachename) == Ok(true) &&
      (model.JObj? ==> model.fields.Keys == {cachename})
    decreases rounds
  {
    var r := StaffeliSearch(fs, cachename, parent, rounds);
    if rounds > 0 && r.Ok? {
      var hit := FirstHit(fs, [StaffeliFilename], parent).value;
      StaffeliHit(fs, parent);
      var model := Load(fs, hit).value;
      if Accepts(model, cachename) == Ok(true) {
        assert r.value == (Dirname(hit), model);
        if model.JObj? {
          AcceptedKeys(model, cachename);
        }
      } else {
        StaffeliSearchSound(fs, cachename, PathJoin(Dirname(hit), ".."), rounds - 1);
      }
    }
  }

  /** A `.staffeli.yml` the probes find exists, and sits in the directory its path names. */
  lemma StaffeliHit(fs: FileSystem, parent: string)
    requires FirstHit(fs, [StaffeliFilename], parent).Some?
    ensures var hit := FirstHit(fs, [StaffeliFilename], parent).value;
      IsFile(fs, hit) && PathJoin(Dirname(hit), StaffeliFilename) == hit
  {
    var hit := FirstHit(fs, [StaffeliFilename], parent).value;
    FirstHitSpec(fs, [StaffeliFilename], parent);
    var k, j :| 0 <= k < MaxDirSearchDepth && 0 <= j < 1 && hit == Probe(parent, k, [StaffeliFilename][j]) &&
      IsFile(fs, Probe(parent, k, [StaffeliFilename][j]));
    DirnameJoin(Up(k, parent), StaffeliFilename);
  }

  lemma AcceptedKeys(model: Json, cachename: string)
    requires model.JObj? && Accepts(model, cachename) == Ok(true)
    ensures model.fields.Keys == {cachename}
  {
    SingletonSet(model.fields.Keys, cachename);
  }

  lemma SingletonSet(s: set<string>, x: string)
    requires x in s && |s| == 1
    ensures s == {x}
  {
    var rest := s - {x};
    assert |rest| == 0;
  }

  /** Without any `.staffeli.yml` among the first round's probes the search fails. */
  lemma NoCacheFileFails(fs: FileSystem, cachename: string, parent: string, rounds: nat)
    requires forall k :: 0 <= k < MaxDirSearchDepth ==> !IsFile(fs, Probe(parent, k, StaffeliFilename))
    ensures StaffeliSearch(fs, cachename, parent, rounds) == Err(MissingArgument)
  {
    FirstHitSpec(fs, [StaffeliFilename], parent);
  }
}
