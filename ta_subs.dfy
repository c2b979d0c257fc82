/**
 * staffeli/canvasTA-subs.py: setting up a teaching assistant's working
 * area for one assignment. The assignment name becomes a directory name,
 * group sets are looked up by name, and every submission gets a numbered
 * folder holding its `canvas.yaml`.
 */
module TaSubs {
  import opened Common
  import opened Os
  import Cachable
  import Submission

  // ---------------------------------------------------------------- dir_name

  /** The characters `dir_name` keeps: ASCII letters, digits and `-`. */
  predicate Kept(c: char)
  {
    AsciiAlnum(c) || c == '-'
  }

  /** `re.sub("[^a-zA-Z0-9-]", '_', name)`. */
  function Sanitize(name: string): string
  {
    if name == [] then [] else [if Kept(name[0]) then name[0] else '_'] + Sanitize(name[1..])
  }

  /**
   * Sanitising keeps the length, replaces exactly the characters outside
   * the kept class by `_`, leaves no `/` (the result is one path
   * component), and a second application changes nothing.
   */
  lemma {:induction false} SanitizeSpec(name: string)
    ensures |Sanitize(name)| == |name|
    ensures forall i :: 0 <= i < |name| ==> Sanitize(name)[i] == (if Kept(name[i]) then name[i] else '_')
    ensures '/' !in Sanitize(name)
    ensures Sanitize(Sanitize(name)) == Sanitize(name)
    decreases |name|
  {
    if name != [] {
      SanitizeSpec(name[1..]);
      var h: string := [if Kept(name[0]) then name[0] else '_'];
      assert Sanitize(name) == h + Sanitize(name[1..]);
      assert Sanitize(name)[1..] == Sanitize(name[1..]);
      assert forall i :: 1 <= i < |name| ==> name[i] == name[1..][i - 1];
    }
  }

  /** `dir_name`: the sanitised name, refused when something of that name exists already. */
  function DirName(fs: FileSystem, name: string): (r: Result<string>)
    ensures r.Ok? <==> !Exists(fs, Sanitize(name))
    ensures r.Ok? ==> r.value == Sanitize(name)
  {
    var s := Sanitize(name);
    if Exists(fs, s) then Err(Failure("You already got a directory or file named '" + s + "'."))
    else Ok(s)
  }

  /** A name made only of kept characters is its own directory name. */
  lemma {:induction false} SanitizeKeeps(name: string)
    requires forall i :: 0 <= i < |name| ==> Kept(name[i])
    ensures Sanitize(name) == name
    decreases |name|
  {
    if name != [] {
      SanitizeKeeps(name[1..]);
    }
  }

  // ---------------------------------------------------------------- get_set_id

  /** The one group set the script renames before looking it up. */
  function Alias(name: string): string
  {
    if name == "Dybber/Athas gruppe-test" then "ass1" else name
  }

  /** A set the loop can examine: it has both `name` and `id`. */
  predicate WellFormed(s: Json)
  {
    s.JObj? && "name" in s.fields && "id" in s.fields
  }

  const MissingFields := Failure("LookupError: Set is missing the fields: 'name' or 'id'.")

  /** What `get_set_id(name, sets)` returns or raises; the alias is applied on every round. */
  function SetId(name: string, sets: seq<Json>): Result<Json>
    decreases |sets|
  {
    if sets == [] then Err(NotLocated(name))
    else
      var n := Alias(name);
      if !WellFormed(sets[0]) then Err(MissingFields)
      else if sets[0].fields["name"] == JStr(n) then Ok(sets[0].fields["id"])
      else SetId(n, sets[1..])
  }

  /** `get_set_id`. */
  method GetSetId(name: string, sets: seq<Json>) returns (r: Result<Json>)
    ensures r == SetId(name, sets)
  {
    var n := name;
    for i := 0 to |sets|
      invariant i == 0 ==> n == name
      invariant SetId(name, sets) == SetId(n, sets[i..])
    {
      assert sets[i..][1..] == sets[i + 1..];
      if n == "Dybber/Athas gruppe-test" {
        n := "ass1";
      }
      var s := sets[i];
      if !(s.JObj? && "name" in s.fields && "id" in s.fields) {
        return Err(MissingFields);
      }
      if s.fields["name"] == JStr(n) {
        return Ok(s.fields["id"]);
      }
    }
    return Err(NotLocated(n));
  }

  /** The set named `n` comes at `i`, after sets that are all well formed and named otherwise. */
  predicate FirstNamed(sets: seq<Json>, n: string, i: int)
  {
    0 <= i < |sets| && WellFormed(sets[i]) && sets[i].fields["name"] == JStr(n) &&
    forall j :: 0 <= j < i ==> WellFormed(sets[j]) && sets[j].fields["name"] != JStr(n)
  }

  /**
   * For a name the alias leaves alone, the lookup returns the id of the
   * first set with exactly that name, provided every set before it is
   * well formed; a malformed set before any match, or no match at all,
   * fails.
   */
  lemma {:induction false} SetIdSpec(n: string, sets: seq<Json>)
    requires Alias(n) == n
    ensures SetId(n, sets).Ok? <==> exists i :: FirstNamed(sets, n, i)
    ensures forall i :: FirstNamed(sets, n, i) ==> SetId(n, sets) == Ok(sets[i].fields["id"])
    decreases |sets|
  {
    if sets != [] && WellFormed(sets[0]) && sets[0].fields["name"] != JStr(n) {
      SetIdSpec(n, sets[1..]);
      forall i | FirstNamed(sets, n, i) ensures FirstNamed(sets[1..], n, i - 1) {
        assert i > 0;
        assert forall j :: 0 <= j < i - 1 ==> sets[1..][j] == sets[j + 1];
      }
      forall i | FirstNamed(sets[1..], n, i) ensures FirstNamed(sets, n, i + 1) {
        assert forall j :: 1 <= j < i + 1 ==> sets[j] == sets[1..][j - 1];
      }
    } else if sets != [] && WellFormed(sets[0]) {
      assert FirstNamed(sets, n, 0);
      forall i | FirstNamed(sets, n, i) ensures i == 0 {
      }
    } else if sets != [] {
      forall i | FirstNamed(sets, n, i) ensures false {
      }
    }
  }

  /** Over a non-empty list the renamed group set is looked up under its alias. */
  lemma AliasLookup(sets: seq<Json>)
    requires sets != []
    ensures SetId("Dybber/Athas gruppe-test", sets) == SetId("ass1", sets)
  {
  }

  // ---------------------------------------------------------------- make_sub_dirs

  /** `os.path.join(name, str(i))`. */
  function SubDir(name: string, i: nat): string
  {
    PathJoin(name, NatToString(i))
  }

  function SubYaml(name: string, i: nat): string
  {
    PathJoin(SubDir(name, i), Submission.CanvasYaml)
  }

  /** The disk after the first `n` rounds of `make_sub_dirs`, or the failure of the round that refused. */
  function MadeSubDirs(fs: FileSystem, name: string, subs: seq<Json>, n: nat): Result<FileSystem>
    requires n <= |subs|
  {
    if n == 0 then Ok(fs)
    else
      var fs1 :- MadeSubDirs(fs, name, subs, n - 1);
      var p := SubDir(name, n - 1);
      if Exists(fs1, p) then Err(Failure("FileExistsError: " + p))
      else
        var fs2 := fs1.(dirs := fs1.dirs + {p}, listing := fs1.listing[p := []]);
        Ok(fs2.(files := fs2.files + {SubYaml(name, n - 1)}, docs := fs2.docs[SubYaml(name, n - 1) := subs[n - 1]]))
  }

  /** `make_sub_dirs`: folder `name/i` for submission `i`, holding that submission as `canvas.yaml`. */
  method MakeSubDirs(disk: Disk, name: string, subs: seq<Json>) returns (r: Result<()>)
    modifies disk
    ensures r.Ok? <==> MadeSubDirs(old(disk.fs), name, subs, |subs|).Ok?
    ensures r.Ok? ==> disk.fs == MadeSubDirs(old(disk.fs), name, subs, |subs|).value
  {
    for i := 0 to |subs|
      invariant MadeSubDirs(old(disk.fs), name, subs, i) == Ok(disk.fs)
    {
      var subDir := PathJoin(name, NatToString(i));
      var ok := disk.MakeDir(subDir);
      if !ok {
        MadeSubDirsPrefixErr(old(disk.fs), name, subs, i + 1);
        return Err(Failure("FileExistsError: " + subDir));
      }
      disk.WriteDoc(PathJoin(subDir, Submission.CanvasYaml), subs[i]);
    }
    return Ok(());
  }

  lemma {:induction false} MadeSubDirsPrefixErr(fs: FileSystem, name: string, subs: seq<Json>, n: nat)
    requires n <= |subs| && MadeSubDirs(fs, name, subs, n).Err?
    ensures MadeSubDirs(fs, name, subs, |subs|).Err?
    decreases |subs| - n
  {
    if n < |subs| {
      MadeSubDirsPrefixErr(fs, name, subs, n + 1);
    }
  }

  /** Different submissions get different folders, and no folder is another's `canvas.yaml`. */
  lemma SubPathsDistinct(name: string, i: nat, j: nat)
    ensures i != j ==> SubDir(name, i) != SubDir(name, j) && SubYaml(name, i) != SubYaml(name, j)
    ensures SubDir(name, j) != SubYaml(name, i)
  {
    var di, dj := NatToString(i), NatToString(j);
    if SubDir(name, i) == SubDir(name, j) {
      assert di == SubDir(name, i)[|name| + 1..];
      NatToStringInjective(i, j);
    }
    if SubYaml(name, i) == SubYaml(name, j) {
      assert SubYaml(name, i) == SubDir(name, i) + "/" + Submission.CanvasYaml;
      assert |SubDir(name, i)| == |SubDir(name, j)|;
      assert SubDir(name, i) == SubYaml(name, i)[..|SubDir(name, i)|];
      assert di == SubDir(name, i)[|name| + 1..];
      NatToStringInjective(i, j);
    }
    var k := |name| + 1 + |di|;
    assert SubYaml(name, i)[k] == '/';
    assert forall m :: |name| < m < |SubDir(name, j)| ==> SubDir(name, j)[m] == dj[m - |name| - 1];
  }

  /** No numbered folder of the submissions exists yet. */
  predicate Unnumbered(fs: FileSystem, name: string, subs: seq<Json>)
  {
    forall i :: 0 <= i < |subs| ==> !Exists(fs, SubDir(name, i))
  }

  /** Each of the first `n` rounds adds only its own folder and `canvas.yaml`: the other folders are still free. */
  lemma {:induction false} MadeSubDirsFree(fs: FileSystem, name: string, subs: seq<Json>, n: nat, j: nat)
    requires n <= j < |subs| && Unnumbered(fs, name, subs)
    ensures MadeSubDirs(fs, name, subs, n).Ok?
    ensures !Exists(MadeSubDirs(fs, name, subs, n).value, SubDir(name, j))
    decreases n
  {
    if n > 0 {
      MadeSubDirsFree(fs, name, subs, n - 1, j);
      MadeSubDirsFree(fs, name, subs, n - 1, n - 1);
      SubPathsDistinct(name, n - 1, j);
      SubPathsDistinct(name, j, n - 1);
    }
  }

  /** After `n` rounds, folder `i` of the first `n` is a directory whose `canvas.yaml` holds submission `i`. */
  lemma {:induction false} MadeSubDirsAt(fs: FileSystem, name: string, subs: seq<Json>, n: nat, i: nat)
    requires i < n <= |subs| && Unnumbered(fs, name, subs)
    ensures MadeSubDirs(fs, name, subs, n).Ok?
    ensures IsDir(MadeSubDirs(fs, name, subs, n).value, SubDir(name, i))
    ensures Load(MadeSubDirs(fs, name, subs, n).value, SubYaml(name, i)) == Ok(subs[i])
    decreases n
  {
    MadeSubDirsFree(fs, name, subs, n - 1, n - 1);
    var prev := MadeSubDirs(fs, name, subs, n - 1).value;
    var p, y := SubDir(name, n - 1), SubYaml(name, n - 1);
    var fs2 := prev.(dirs := prev.dirs + {p}, listing := prev.listing[p := []]);
    assert MadeSubDirs(fs, name, subs, n) == Ok(fs2.(files := fs2.files + {y}, docs := fs2.docs[y := subs[n - 1]]));
    if i < n - 1 {
      MadeSubDirsAt(fs, name, subs, n - 1, i);
      SubPathsDistinct(name, i, n - 1);
      assert SubYaml(name, i) != y;
    }
  }

  /** Where nothing is numbered yet, `n` rounds leave folders `0` .. `n - 1`, each with its submission. */
  lemma MadeSubDirsSpec(fs: FileSystem, name: string, subs: seq<Json>, n: nat)
    requires n <= |subs|
    requires forall i :: 0 <= i < |subs| ==> !Exists(fs, SubDir(name, i))
    ensures MadeSubDirs(fs, name, subs, n).Ok?
    ensures forall i :: 0 <= i < n ==>
      IsDir(MadeSubDirs(fs, name, subs, n).value, SubDir(name, i)) &&
      Load(MadeSubDirs(fs, name, subs, n).value, SubYaml(name, i)) == Ok(subs[i])
    ensures forall j :: n <= j < |subs| ==> !Exists(MadeSubDirs(fs, name, subs, n).value, SubDir(name, j))
  {
    assert Unnumbered(fs, name, subs);
    if n < |subs| {
      MadeSubDirsFree(fs, name, subs, n, n);
    } else if n > 0 {
      MadeSubDirsAt(fs, name, subs, n, 0);
    }
    forall i | 0 <= i < n
      ensures IsDir(MadeSubDirs(fs, name, subs, n).value, SubDir(name, i)) &&
        Load(MadeSubDirs(fs, name, subs, n).value, SubYaml(name, i)) == Ok(subs[i])
    {
      MadeSubDirsAt(fs, name, subs, n, i);
    }
    forall j | n <= j < |subs| ensures !Exists(MadeSubDirs(fs, name, subs, n).value, SubDir(name, j)) {
      MadeSubDirsFree(fs, name, subs, n, j);
    }
  }

  /**
   * Every numbered folder can then be read back by the submission
   * lookup: its `canvas.yaml` gives the submission's `user_id`.
   */
  lemma SubDirsRoundTrip(fs: FileSystem, name: string, subs: seq<Json>, i: nat)
    requires i < |subs|
    requires forall k :: 0 <= k < |subs| ==> !Exists(fs, SubDir(name, k))
    ensures MadeSubDirs(fs, name, subs, |subs|).Ok?
    ensures Submission.StudentIdOf(MadeSubDirs(fs, name, subs, |subs|).value, SubDir(name, i)) ==
      Cachable.Index(subs[i], "user_id")
  {
    MadeSubDirsSpec(fs, name, subs, |subs|);
  }
}
