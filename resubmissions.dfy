/**
 * src/resubmissions.py: which submissions count as resubmissions, the
 * graders they belong to, their graders' directory names and the folder a
 * resubmission is downloaded into.
 */
module Resubmissions {
  import opened Common
  import opened Os
  import Submission

  // ---------------------------------------------------------------- get_resubs

  /**
   * `sub["grade_matches_current_submission"] == False`; Python's `==`
   * also holds for the integer 0.
   */
  function Stale(sub: Json): (r: Result<bool>)
    ensures r.Ok? <==> sub.JObj? && "grade_matches_current_submission" in sub.fields
    ensures r.Ok? ==> (r.value <==> sub.fields["grade_matches_current_submission"] in {JBool(false), JInt(0)})
  {
    if !sub.JObj? || "grade_matches_current_submission" !in sub.fields then
      Err(Failure("KeyError: grade_matches_current_submission"))
    else
      var g := sub.fields["grade_matches_current_submission"];
      Ok(g == JBool(false) || g == JInt(0))
  }

  /** The submissions `get_resubs` returns, in their order. */
  function Resubs(subs: seq<Json>): Result<seq<Json>>
  {
    if subs == [] then Ok([])
    else
      var init :- Resubs(subs[..|subs| - 1]);
      var s := subs[|subs| - 1];
      var stale :- Stale(s);
      Ok(if stale then init + [s] else init)
  }

  /** `get_resubs`, given the submissions the server listed. */
  method GetResubs(subs: seq<Json>) returns (r: Result<seq<Json>>)
    ensures r == Resubs(subs)
  {
    var resubs: seq<Json> := [];
    for i := 0 to |subs|
      invariant Resubs(subs[..i]) == Ok(resubs)
    {
      assert subs[..i + 1][..i] == subs[..i];
      var sub := subs[i];
      if !sub.JObj? || "grade_matches_current_submission" !in sub.fields {
        ResubsPrefixErr(subs, i + 1);
        return Err(Failure("KeyError: grade_matches_current_submission"));
      }
      var g := sub.fields["grade_matches_current_submission"];
      if g == JBool(false) || g == JInt(0) {
        resubs := resubs + [sub];
      }
    }
    assert subs[..|subs|] == subs;
    return Ok(resubs);
  }

  lemma {:induction false} ResubsPrefixErr(subs: seq<Json>, n: nat)
    requires n <= |subs| && Resubs(subs[..n]).Err?
    ensures Resubs(subs) == Resubs(subs[..n])
    decreases |subs| - n
  {
    if n < |subs| {
      assert subs[..n + 1][..n] == subs[..n];
      ResubsPrefixErr(subs, n + 1);
    } else {
      assert subs[..n] == subs;
    }
  }

  /** Every submission carries the flag: then the result is defined. */
  predicate Flagged(subs: seq<Json>)
  {
    forall i :: 0 <= i < |subs| ==> subs[i].JObj? && "grade_matches_current_submission" in subs[i].fields
  }

  /**
   * With every submission flagged, the resubmissions are exactly the
   * submissions whose grade does not match the current one, and one run
   * after another gives their resubmissions one after another, so the
   * order is kept.
   */
  lemma {:induction false} ResubsSpec(subs: seq<Json>, s: Json)
    requires Flagged(subs)
    ensures Resubs(subs).Ok?
    ensures s in Resubs(subs).value <==> s in subs && s.fields["grade_matches_current_submission"] in {JBool(false), JInt(0)}
    decreases |subs|
  {
    if subs != [] {
      var n := |subs| - 1;
      ResubsSpec(subs[..n], s);
      assert subs == subs[..n] + [subs[n]];
    }
  }

  lemma {:induction false} ResubsAppend(a: seq<Json>, b: seq<Json>)
    requires Resubs(a).Ok? && Resubs(b).Ok?
    ensures Resubs(a + b) == Ok(Resubs(a).value + Resubs(b).value)
    decreases |b|
  {
    if b == [] {
      assert a + b == a;
      assert Resubs(a).value + [] == Resubs(a).value;
    } else {
      var n := |b| - 1;
      assert (a + b)[..|a + b| - 1] == a + b[..n];
      assert (a + b)[|a + b| - 1] == b[n];
      assert Resubs(b[..n]).Ok? && Stale(b[n]).Ok?;
      ResubsAppend(a, b[..n]);
      var x, y := Resubs(a).value, Resubs(b[..n]).value;
      assert Resubs(a + b) == Ok(if Stale(b[n]).value then x + y + [b[n]] else x + y);
      assert Resubs(b) == Ok(if Stale(b[n]).value then y + [b[n]] else y);
      assert x + (y + [b[n]]) == x + y + [b[n]];
    }
  }

  // ---------------------------------------------------------------- grader_ids

  /** The `grader_id` of a resubmission, which must be hashable to go into the set. */
  function GraderId(resub: Json): (r: Result<Json>)
    ensures r.Ok? <==> resub.JObj? && "grader_id" in resub.fields && Hashable(resub.fields["grader_id"])
    ensures r.Ok? ==> r.value == resub.fields["grader_id"]
  {
    if !resub.JObj? || "grader_id" !in resub.fields then Err(Failure("KeyError: grader_id"))
    else if !Hashable(resub.fields["grader_id"]) then Err(Failure("TypeError: unhashable type"))
    else Ok(resub.fields["grader_id"])
  }

  /** The set `grader_ids` returns. */
  function GraderIds(resubs: seq<Json>): Result<set<Json>>
  {
    if resubs == [] then Ok({})
    else
      var init :- GraderIds(resubs[..|resubs| - 1]);
      var g :- GraderId(resubs[|resubs| - 1]);
      Ok(init + {g})
  }

  /** `grader_ids`. */
  method CollectGraderIds(resubs: seq<Json>) returns (r: Result<set<Json>>)
    ensures r == GraderIds(resubs)
  {
    var ids: set<Json> := {};
    for i := 0 to |resubs|
      invariant GraderIds(resubs[..i]) == Ok(ids)
    {
      assert resubs[..i + 1][..i] == resubs[..i];
      var g := GraderId(resubs[i]);
      if g.Err? {
        GraderIdsPrefixErr(resubs, i + 1);
        return Err(g.error);
      }
      ids := ids + {g.value};
    }
    assert resubs[..|resubs|] == resubs;
    return Ok(ids);
  }

  lemma {:induction false} GraderIdsPrefixErr(resubs: seq<Json>, n: nat)
    requires n <= |resubs| && GraderIds(resubs[..n]).Err?
    ensures GraderIds(resubs) == GraderIds(resubs[..n])
    decreases |resubs| - n
  {
    if n < |resubs| {
      assert resubs[..n + 1][..n] == resubs[..n];
      GraderIdsPrefixErr(resubs, n + 1);
    } else {
      assert resubs[..n] == resubs;
    }
  }

  /**
   * The set is defined exactly when every resubmission has a hashable
   * `grader_id`, and then holds exactly those ids.
   */
  lemma {:induction false} GraderIdsSpec(resubs: seq<Json>, g: Json)
    ensures GraderIds(resubs).Ok? <==> forall i :: 0 <= i < |resubs| ==> GraderId(resubs[i]).Ok?
    ensures GraderIds(resubs).Ok? ==>
      (g in GraderIds(resubs).value <==> exists i :: 0 <= i < |resubs| && resubs[i].fields["grader_id"] == g)
    decreases |resubs|
  {
    if resubs != [] {
      var n := |resubs| - 1;
      GraderIdsSpec(resubs[..n], g);
      assert forall i :: 0 <= i < n ==> resubs[..n][i] == resubs[i];
      if GraderIds(resubs).Ok? {
        if g in GraderIds(resubs).value && g != resubs[n].fields["grader_id"] {
          var i :| 0 <= i < n && resubs[..n][i].fields["grader_id"] == g;
          assert resubs[i].fields["grader_id"] == g;
        }
      }
    }
  }

  // ---------------------------------------------------------------- grader_names

  /** `re.sub('[^a-z0-9]', '', name, flags=re.IGNORECASE)` on ASCII text. */
  function KeepAlnum(name: string): (r: string)
    ensures |r| <= |name|
    ensures forall i :: 0 <= i < |r| ==> AsciiAlnum(r[i])
  {
    if name == [] then []
    else (if AsciiAlnum(name[0]) then [name[0]] else []) + KeepAlnum(name[1..])
  }

  /** Filtering distributes over concatenation: the kept characters stay in their order. */
  lemma {:induction false} KeepAlnumAppend(a: string, b: string)
    ensures KeepAlnum(a + b) == KeepAlnum(a) + KeepAlnum(b)
    decreases |a|
  {
    if a != [] {
      assert (a + b)[0] == a[0] && (a + b)[1..] == a[1..] + b;
      KeepAlnumAppend(a[1..], b);
    } else {
      assert a + b == b;
    }
  }

  /** One character is kept exactly when it is an ASCII letter or digit. */
  lemma KeepAlnumOne(c: char)
    ensures KeepAlnum([c]) == if AsciiAlnum(c) then [c] else []
  {
    assert [c][1..] == [];
  }

  lemma {:induction false} KeepAlnumKeeps(name: string)
    requires forall i :: 0 <= i < |name| ==> AsciiAlnum(name[i])
    ensures KeepAlnum(name) == name
    decreases |name|
  {
    if name != [] {
      KeepAlnumKeeps(name[1..]);
    }
  }

  lemma {:induction false} LowerAlnum(s: string)
    requires forall i :: 0 <= i < |s| ==> AsciiAlnum(s[i])
    ensures forall i :: 0 <= i < |Lower(s)| ==> AsciiAlnum(Lower(s)[i]) && !('A' <= Lower(s)[i] <= 'Z')
    decreases |s|
  {
    if s != [] {
      LowerAlnum(s[1..]);
      assert Lower(s) == [LowerChar(s[0])] + Lower(s[1..]);
    }
  }

  /** A grader's directory name: the user name's letters and digits, lower-cased, then `_` and the id. */
  function GraderName(name: string, id: string): string
  {
    Lower(KeepAlnum(name)) + "_" + id
  }

  /**
   * The name part is lower-case letters and digits only, so it holds no
   * `_` and no `/`, and it is stable: a name already in that form is kept.
   */
  lemma GraderNameSpec(name: string, id: string)
    ensures var n := Lower(KeepAlnum(name));
      GraderName(name, id) == n + "_" + id && '_' !in n && '/' !in n &&
      forall i :: 0 <= i < |n| ==> AsciiAlnum(n[i]) && !('A' <= n[i] <= 'Z')
    ensures Lower(KeepAlnum(Lower(KeepAlnum(name)))) == Lower(KeepAlnum(name))
  {
    var n := Lower(KeepAlnum(name));
    LowerAlnum(KeepAlnum(name));
    KeepAlnumKeeps(n);
    LowerIdempotent(n);
  }

  lemma {:induction false} LowerIdempotent(s: string)
    requires forall i :: 0 <= i < |s| ==> !('A' <= s[i] <= 'Z')
    ensures Lower(s) == s
    decreases |s|
  {
    if s != [] {
      LowerIdempotent(s[1..]);
    }
  }

  /** Two texts cut at their first `_`: equal joins have equal heads and equal tails. */
  lemma FirstUnderscoreInjective(a1: string, s1: string, a2: string, s2: string)
    requires '_' !in a1 && '_' !in a2
    requires a1 + "_" + s1 == a2 + "_" + s2
    ensures a1 == a2 && s1 == s2
  {
    var t1, t2 := a1 + "_" + s1, a2 + "_" + s2;
    Submission.SplitUnderscore(a1, s1);
    Submission.SplitUnderscore(a2, s2);
    assert a1 == Split(t1, "_")[0] == a2;
    assert s1 == t1[|a1| + 1..] && s2 == t2[|a2| + 1..];
  }

  /** Graders with different ids get different directories, whatever their names. */
  lemma GraderNamesDistinct(name1: string, id1: Json, name2: string, id2: Json)
    requires PyStr(id1).Some? && PyStr(id2).Some?
    requires GraderName(name1, PyStr(id1).value) == GraderName(name2, PyStr(id2).value)
    ensures PyStr(id1) == PyStr(id2)
    ensures id1.JInt? && id2.JInt? ==> id1 == id2
  {
    GraderNameSpec(name1, PyStr(id1).value);
    GraderNameSpec(name2, PyStr(id2).value);
    FirstUnderscoreInjective(Lower(KeepAlnum(name1)), PyStr(id1).value, Lower(KeepAlnum(name2)), PyStr(id2).value);
    if id1.JInt? && id2.JInt? {
      IntToStringInjective(id1.n, id2.n);
    }
  }

  /** The user name the server reports for a grader, `canvas.user(grader_id)['name']`. */
  function UserName(users: map<Json, Json>, id: Json): Result<string>
  {
    if id !in users then Err(Failure("no such user"))
    else if !users[id].JObj? || "name" !in users[id].fields then Err(Failure("KeyError: name"))
    else if !users[id].fields["name"].JStr? then Err(Failure("TypeError: expected string"))
    else Ok(users[id].fields["name"].s)
  }

  /** A grader whose name the server reports and whose id prints. */
  predicate Known(users: map<Json, Json>, id: Json)
  {
    UserName(users, id).Ok? && PyStr(id).Some?
  }

  /**
   * `grader_names`: one entry per id. The set is visited in an order the
   * model does not fix; when several graders are unknown, any one of them
   * may be the one reported.
   */
  method GraderNames(users: map<Json, Json>, ids: set<Json>) returns (r: Result<map<Json, string>>)
    ensures r.Ok? <==> forall g :: g in ids ==> Known(users, g)
    ensures r.Ok? ==> r.value.Keys == ids
    ensures r.Ok? ==> forall g :: g in ids ==> r.value[g] == GraderName(UserName(users, g).value, PyStr(g).value)
  {
    var names: map<Json, string> := map[];
    var todo := ids;
    while todo != {}
      invariant todo <= ids
      invariant names.Keys == ids - todo
      invariant forall g :: g in ids - todo ==> Known(users, g) && names[g] == GraderName(UserName(users, g).value, PyStr(g).value)
      decreases todo
    {
      var g :| g in todo;
      var name := UserName(users, g);
      if name.Err? {
        return Err(name.error);
      }
      var id := PyStr(g);
      if id.None? {
        return Err(Failure("str() of a container is not modelled"));
      }
      names := names[g := GraderName(name.value, id.value)];
      todo := todo - {g};
    }
    return Ok(names);
  }

  // ---------------------------------------------------------------- download_resub

  const ResubYaml := "canvas.yaml"

  /** `os.path.join(resubsbase, graders[resub['grader_id']], str(user_id))`. */
  function ResubDir(resubsbase: string, graders: map<Json, string>, resub: Json): Result<string>
  {
    if !resub.JObj? || "user_id" !in resub.fields then Err(Failure("KeyError: user_id"))
    else if "grader_id" !in resub.fields then Err(Failure("KeyError: grader_id"))
    else if resub.fields["grader_id"] !in graders then Err(Failure("KeyError: grader"))
    else match PyStr(resub.fields["user_id"])
      case None => Err(Failure("str() of a container is not modelled"))
      case Some(uid) => Ok(PathJoin(PathJoin(resubsbase, graders[resub.fields["grader_id"]]), uid))
  }

  /**
   * The `download_resub` that takes effect (the later of the two
   * definitions): make the folder unless it is there, go through the
   * attachments, then record the resubmission in its `canvas.yaml`. A
   * resubmission without `attachments` fails after the folder is made;
   * the downloads themselves are not modelled.
   */
  method DownloadResub(disk: Disk, resubsbase: string, graders: map<Json, string>, resub: Json)
    returns (r: Result<string>)
    modifies disk
    ensures ResubDir(resubsbase, graders, resub).Err? ==> r == ResubDir(resubsbase, graders, resub) && disk.fs == old(disk.fs)
    ensures ResubDir(resubsbase, graders, resub).Ok? && Ensured(old(disk.fs), ResubDir(resubsbase, graders, resub).value).Err? ==>
      r.Err? && disk.fs == old(disk.fs)
    ensures ResubDir(resubsbase, graders, resub).Ok? && Ensured(old(disk.fs), ResubDir(resubsbase, graders, resub).value).Ok? ==>
      var p := ResubDir(resubsbase, graders, resub).value;
      var made := Ensured(old(disk.fs), p).value;
      if "attachments" in resub.fields then
        r == Ok(p) &&
        disk.fs == made.(files := made.files + {PathJoin(p, ResubYaml)}, docs := made.docs[PathJoin(p, ResubYaml) := resub])
      else
        r == Err(Failure("KeyError: attachments")) && disk.fs == made
  {
    var dirpath := ResubDir(resubsbase, graders, resub);
    if dirpath.Err? {
      return dirpath;
    }
    var ok := disk.EnsureDir(dirpath.value);
    if !ok {
      return Err(Failure("Can't create directory: path refers to a file."));
    }
    if "attachments" !in resub.fields {
      return Err(Failure("KeyError: attachments"));
    }
    disk.WriteDoc(PathJoin(dirpath.value, ResubYaml), resub);
    return dirpath;
  }

  /**
   * For integer ids the folder lies in that grader's directory and is named
   * by the student's id, so two students of one grader never share a
   * folder.
   */
  lemma ResubDirSpec(resubsbase: string, graders: map<Json, string>, resub: Json)
    requires ResubDir(resubsbase, graders, resub).Ok? && resub.fields["user_id"].JInt?
    ensures var p := ResubDir(resubsbase, graders, resub).value;
      Dirname(p) == PathJoin(resubsbase, graders[resub.fields["grader_id"]]) &&
      Basename(p) == IntToString(resub.fields["user_id"].n)
  {
    IntToStringNoSlash(resub.fields["user_id"].n);
    DirnameJoin(PathJoin(resubsbase, graders[resub.fields["grader_id"]]), IntToString(resub.fields["user_id"].n));
  }

  lemma IntToStringNoSlash(n: int)
    ensures '/' !in IntToString(n)
  {
  }

  lemma ResubDirsDistinct(resubsbase: string, graders: map<Json, string>, r1: Json, r2: Json)
    requires ResubDir(resubsbase, graders, r1).Ok? && ResubDir(resubsbase, graders, r2).Ok?
    requires r1.fields["user_id"].JInt? && r2.fields["user_id"].JInt?
    requires ResubDir(resubsbase, graders, r1) == ResubDir(resubsbase, graders, r2)
    ensures r1.fields["user_id"] == r2.fields["user_id"]
  {
    ResubDirSpec(resubsbase, graders, r1);
    ResubDirSpec(resubsbase, graders, r2);
    IntToStringInjective(r1.fields["user_id"].n, r2.fields["user_id"].n);
  }

  /**
   * The `canvas.yaml` written into the folder is what the submission
   * lookup reads first: after a successful download it gives back the
   * resubmission's `user_id`.
   */
  lemma ResubRoundTrip(fs: FileSystem, p: string, resub: Json)
    requires resub.JObj? && "user_id" in resub.fields
    ensures Submission.StudentIdOf(fs.(files := fs.files + {PathJoin(p, ResubYaml)}, docs := fs.docs[PathJoin(p, ResubYaml) := resub]), p)
      == Ok(resub.fields["user_id"])
  {
    assert Submission.CanvasYaml == ResubYaml;
  }
}
