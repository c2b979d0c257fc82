/**
 * contrib/groups/create-groups.py: groups read from a groups file are
 * created on Canvas under a group category, and locally each group gets a
 * numbered link to the one submission folder of its members that holds a
 * hand-in. The Canvas requests are the result of the model, as records of
 * what `create_group` and `add_group_members` are asked for: how the client
 * encodes them as query pairs (including the swapped keyword pairs of
 * staffeli/canvas.py:26-28) is not shown here, and the responses, with the
 * `group[0]['id']` lookup of line 39, are not modelled.
 */
module CreateGroups {
  import opened Common
  import opened Os
  import opened GroupsFile
  import Cachable

  // ---------------------------------------------------------------- user_ids

  /** `re.match('^(.+?)@', login)` captures `login[..k]`: the first `@` after position 0, with no newline before it. */
  predicate ShortAt(login: string, k: int)
  {
    1 <= k < |login| && login[k] == '@' &&
    (forall j :: 0 <= j < k ==> login[j] != '\n') &&
    forall j :: 1 <= j < k ==> login[j] != '@'
  }

  /** The lazy match tried with captures of length `k`, `k + 1`, ... */
  function ShortIdFrom(login: string, k: nat): Option<string>
    requires 1 <= k
    decreases |login| - k
  {
    if k >= |login| || login[k - 1] == '\n' then None
    else if login[k] == '@' then Some(login[..k])
    else ShortIdFrom(login, k + 1)
  }

  /** `m.group(1)` of `re.match('^(.+?)@', login)`, or `None` when there is no match. */
  function ShortId(login: string): Option<string>
  {
    ShortIdFrom(login, 1)
  }

  lemma {:induction false} ShortIdFromSpec(login: string, k: nat)
    requires 1 <= k
    requires forall j :: 0 <= j < k - 1 && j < |login| ==> login[j] != '\n'
    requires forall j :: 1 <= j < k && j < |login| ==> login[j] != '@'
    ensures ShortIdFrom(login, k).Some? <==> exists i :: ShortAt(login, i) && k <= i
    ensures forall i :: ShortAt(login, i) && k <= i ==> ShortIdFrom(login, k) == Some(login[..i])
    decreases |login| - k
  {
    if k >= |login| || login[k - 1] == '\n' {
      forall i ensures !(ShortAt(login, i) && k <= i) {
      }
    } else if login[k] == '@' {
      assert ShortAt(login, k);
      forall i | ShortAt(login, i) && k <= i ensures i == k {
      }
    } else {
      ShortIdFromSpec(login, k + 1);
      forall i | ShortAt(login, i) && k <= i ensures k + 1 <= i {
      }
    }
  }

  /**
   * The capture is the text before the first `@` that follows the first
   * character, and there is a match exactly when such an `@` exists with
   * no newline before it.
   */
  lemma ShortIdSpec(login: string)
    ensures ShortId(login).Some? <==> exists k :: ShortAt(login, k)
    ensures forall k :: ShortAt(login, k) ==> ShortId(login) == Some(login[..k])
  {
    ShortIdFromSpec(login, 1);
  }

  /** A KU address `user@domain` maps to `user`. */
  lemma ShortIdOfAddress(user: string, domain: string)
    requires |user| >= 1 && '@' !in user && '\n' !in user
    ensures ShortId(user + "@" + domain) == Some(user)
  {
    var login := user + "@" + domain;
    assert forall j :: 0 <= j < |user| ==> login[j] == user[j];
    assert ShortAt(login, |user|);
    assert login[..|user|] == user;
    ShortIdSpec(login);
  }

  /** One round of the `user_ids` loop: the short login and the id, or why the round raises. */
  function Entry(s: Json): Result<(string, Json)>
  {
    var login :- Cachable.Index(s, "login_id");
    if !login.JStr? then Err(Failure("TypeError: expected string or bytes-like object"))
    else
      var id :- Cachable.Index(s, "id");
      match ShortId(login.s)
      case None => Err(Failure("AttributeError: 'NoneType' object has no attribute 'group'"))
      case Some(k) => Ok((k, id))
  }

  /** The `user_ids` dictionary built from the course's students, or the failure of the first round that raises. */
  function UserIdsOf(students: seq<Json>): Result<map<string, Json>>
  {
    if students == [] then Ok(map[])
    else
      var m :- UserIdsOf(students[..|students| - 1]);
      var e :- Entry(students[|students| - 1]);
      Ok(m[e.0 := e.1])
  }

  /** The module-level loop that fills `user_ids`. */
  method BuildUserIds(students: seq<Json>) returns (r: Result<map<string, Json>>)
    ensures r == UserIdsOf(students)
  {
    var userIds: map<string, Json> := map[];
    for i := 0 to |students|
      invariant UserIdsOf(students[..i]) == Ok(userIds)
    {
      assert students[..i + 1][..i] == students[..i];
      var s := students[i];
      var login := Cachable.Index(s, "login_id");
      if login.Err? || !login.value.JStr? {
        UserIdsPrefixErr(students, i + 1);
        return if login.Err? then Err(login.error) else Err(Failure("TypeError: expected string or bytes-like object"));
      }
      var m := ShortId(login.value.s);
      var id := Cachable.Index(s, "id");
      if id.Err? || m.None? {
        UserIdsPrefixErr(students, i + 1);
        return if id.Err? then Err(id.error) else Err(Failure("AttributeError: 'NoneType' object has no attribute 'group'"));
      }
      userIds := userIds[m.value := id.value];
    }
    assert students[..|students|] == students;
    return Ok(userIds);
  }

  lemma {:induction false} UserIdsPrefixErr(students: seq<Json>, n: nat)
    requires n <= |students| && UserIdsOf(students[..n]).Err?
    ensures UserIdsOf(students) == UserIdsOf(students[..n])
    decreases |students| - n
  {
    if n == |students| {
      assert students[..n] == students;
    } else {
      assert students[..n + 1][..n] == students[..n];
      UserIdsPrefixErr(students, n + 1);
    }
  }

  /** The pairs the loop stores, when every round succeeds. */
  function Entries(students: seq<Json>): seq<(string, Json)>
    requires forall i :: 0 <= i < |students| ==> Entry(students[i]).Ok?
  {
    seq(|students|, i requires 0 <= i < |students| => Entry(students[i]).value)
  }

  /**
   * The dictionary is built exactly when every student has a string
   * login that matches and an id, and it is then the dictionary filled
   * from the rounds' pairs in order.
   */
  lemma {:induction false} UserIdsSpec(students: seq<Json>)
    ensures UserIdsOf(students).Ok? <==> forall i :: 0 <= i < |students| ==> Entry(students[i]).Ok?
    ensures UserIdsOf(students).Ok? ==> UserIdsOf(students).value == IndexOf(Entries(students))
    decreases |students|
  {
    if students != [] {
      var init := students[..|students| - 1];
      UserIdsSpec(init);
      assert forall i :: 0 <= i < |init| ==> init[i] == students[i];
      if UserIdsOf(students).Ok? {
        assert Entries(students)[..|students| - 1] == Entries(init);
      }
    }
  }

  /**
   * Its keys are the short logins, and each holds the id of the last
   * student with that short login.
   */
  lemma UserIdsLookup(students: seq<Json>, k: string)
    requires UserIdsOf(students).Ok?
    ensures forall i :: 0 <= i < |students| ==> Entry(students[i]).Ok?
    ensures k in UserIdsOf(students).value <==> exists i :: 0 <= i < |students| && Entry(students[i]).value.0 == k
    ensures k in UserIdsOf(students).value ==>
      exists i :: 0 <= i < |students| && Entry(students[i]).value == (k, UserIdsOf(students).value[k]) &&
        forall j :: i < j < |students| ==> Entry(students[j]).value.0 != k
  {
    UserIdsSpec(students);
    var es := Entries(students);
    var m := UserIdsOf(students).value;
    assert m == IndexOf(es);
    IndexOfKeys(es, k);
    if exists i :: 0 <= i < |students| && Entry(students[i]).value.0 == k {
      var i :| 0 <= i < |students| && Entry(students[i]).value.0 == k;
      assert es[i] == Entry(students[i]).value;
    }
    if k in m {
      IndexOfValue(es, k);
      var i :| 0 <= i < |es| && es[i] == (k, m[k]) && forall j :: i < j < |es| ==> es[j].0 != k;
      assert Entry(students[i]).value == es[i];
      forall j | i < j < |students| ensures Entry(students[j]).value.0 != k {
        assert es[j] == Entry(students[j]).value;
      }
    }
  }

  // ---------------------------------------------------------------- the Canvas side

  /** A `create_group` request followed by `add_group_members` for its members. */
  datatype GroupRequest = GroupRequest(categoryId: Json, name: string, members: seq<Json>)

  /** `'{} {:03d}'.format(category_name, i)`. */
  function GroupName(category: string, i: nat): string
  {
    category + " " + Pad3(i)
  }

  /** Groups of one category get distinct names. */
  lemma GroupNameInjective(category: string, i: nat, j: nat)
    requires GroupName(category, i) == GroupName(category, j)
    ensures i == j
  {
    assert Pad3(i) == GroupName(category, i)[|category| + 1..];
    assert Pad3(j) == GroupName(category, j)[|category| + 1..];
    Pad3Injective(i, j);
  }

  /** `list(map(lambda abc123: user_ids[abc123], users))`: the ids of the members, or a `KeyError` for the first one not known. */
  function MemberIds(userIds: map<string, Json>, members: seq<string>): (r: Result<seq<Json>>)
    ensures r.Ok? <==> forall j :: 0 <= j < |members| ==> members[j] in userIds
    ensures r.Ok? ==> |r.value| == |members| && forall j :: 0 <= j < |members| ==> r.value[j] == userIds[members[j]]
    ensures r.Err? ==> exists j :: 0 <= j < |members| && members[j] !in userIds && r == Err(Failure("KeyError: " + members[j]))
  {
    if members == [] then Ok([])
    else if members[0] !in userIds then Err(Failure("KeyError: " + members[0]))
    else
      var rest :- MemberIds(userIds, members[1..]);
      Ok([userIds[members[0]]] + rest)
  }

  /** The requests of the first `n` groups, or the failure of the round that raised. */
  function Requests(userIds: map<string, Json>, catId: Json, category: string, groups: seq<seq<string>>, n: nat): Result<seq<GroupRequest>>
    requires n <= |groups|
  {
    if n == 0 then Ok([])
    else
      var sent :- Requests(userIds, catId, category, groups, n - 1);
      var ids :- MemberIds(userIds, groups[n - 1]);
      Ok(sent + [GroupRequest(catId, GroupName(category, n - 1), ids)])
  }

  lemma {:induction false} RequestsPrefixErr(userIds: map<string, Json>, catId: Json, category: string, groups: seq<seq<string>>, n: nat)
    requires n <= |groups| && Requests(userIds, catId, category, groups, n).Err?
    ensures Requests(userIds, catId, category, groups, |groups|) == Requests(userIds, catId, category, groups, n)
    decreases |groups| - n
  {
    if n < |groups| {
      RequestsPrefixErr(userIds, catId, category, groups, n + 1);
    }
  }

  /**
   * The loop over the groups: the requests sent, and on a failure the
   * requests sent before the group that raised.
   */
  method SendGroups(userIds: map<string, Json>, catId: Json, category: string, groups: seq<seq<string>>)
    returns (sent: seq<GroupRequest>, r: Result<()>)
    ensures r.Ok? <==> Requests(userIds, catId, category, groups, |groups|).Ok?
    ensures r.Ok? ==> Requests(userIds, catId, category, groups, |groups|) == Ok(sent)
    ensures r.Err? ==> |sent| < |groups| && Requests(userIds, catId, category, groups, |sent|) == Ok(sent)
    ensures r.Err? ==> MemberIds(userIds, groups[|sent|]) == Err(r.error)
  {
    sent := [];
    for i := 0 to |groups|
      invariant |sent| == i
      invariant Requests(userIds, catId, category, groups, i) == Ok(sent)
    {
      var users := MemberIds(userIds, groups[i]);
      if users.Err? {
        RequestsPrefixErr(userIds, catId, category, groups, i + 1);
        return sent, Err(users.error);
      }
      sent := sent + [GroupRequest(catId, GroupName(category, i), users.value)];
    }
    return sent, Ok(());
  }

  /**
   * All groups are requested exactly when every member of every group has
   * a known id; then request `i` is group `i`, named after the category
   * with the group's number, carrying its members' ids in order.
   */
  lemma RequestsSpec(userIds: map<string, Json>, catId: Json, category: string, groups: seq<seq<string>>, n: nat)
    requires n <= |groups|
    ensures Requests(userIds, catId, category, groups, n).Ok? <==>
      forall i, j :: 0 <= i < n && 0 <= j < |groups[i]| ==> groups[i][j] in userIds
    ensures Requests(userIds, catId, category, groups, n).Ok? ==>
      |Requests(userIds, catId, category, groups, n).value| == n
    ensures Requests(userIds, catId, category, groups, n).Ok? ==>
      var sent := Requests(userIds, catId, category, groups, n).value;
      forall i :: 0 <= i < n ==> sent[i] == GroupRequest(catId, GroupName(category, i), MemberIds(userIds, groups[i]).value)
  {
    RequestsOk(userIds, catId, category, groups, n);
    KnownUpTo(userIds, groups, n);
    if Requests(userIds, catId, category, groups, n).Ok? {
      RequestsLength(userIds, catId, category, groups, n);
      forall i | 0 <= i < n
        ensures Requests(userIds, catId, category, groups, n).value[i] ==
          GroupRequest(catId, GroupName(category, i), MemberIds(userIds, groups[i]).value)
      {
        RequestsAt(userIds, catId, category, groups, n, i);
      }
    }
  }

  /** Every member of the group is a known login. */
  predicate Known(userIds: map<string, Json>, members: seq<string>)
  {
    forall j :: 0 <= j < |members| ==> members[j] in userIds
  }

  lemma KnownUpTo(userIds: map<string, Json>, groups: seq<seq<string>>, n: nat)
    requires n <= |groups|
    ensures (forall i :: 0 <= i < n ==> Known(userIds, groups[i])) <==>
      forall i, j :: 0 <= i < n && 0 <= j < |groups[i]| ==> groups[i][j] in userIds
  {
  }

  lemma KnownSplit(userIds: map<string, Json>, groups: seq<seq<string>>, n: nat)
    requires 0 < n <= |groups|
    ensures (forall i :: 0 <= i < n ==> Known(userIds, groups[i])) <==>
      (forall i :: 0 <= i < n - 1 ==> Known(userIds, groups[i])) && Known(userIds, groups[n - 1])
  {
  }

  lemma {:induction false} RequestsOk(userIds: map<string, Json>, catId: Json, category: string, groups: seq<seq<string>>, n: nat)
    requires n <= |groups|
    ensures Requests(userIds, catId, category, groups, n).Ok? <==> forall i :: 0 <= i < n ==> Known(userIds, groups[i])
    decreases n
  {
    if n > 0 {
      RequestsOk(userIds, catId, category, groups, n - 1);
      KnownSplit(userIds, groups, n);
      assert MemberIds(userIds, groups[n - 1]).Ok? <==> Known(userIds, groups[n - 1]);
    }
  }

  lemma {:induction false} RequestsLength(userIds: map<string, Json>, catId: Json, category: string, groups: seq<seq<string>>, n: nat)
    requires n <= |groups| && Requests(userIds, catId, category, groups, n).Ok?
    ensures |Requests(userIds, catId, category, groups, n).value| == n
    decreases n
  {
    if n > 0 {
      RequestsLength(userIds, catId, category, groups, n - 1);
    }
  }

  lemma {:induction false} RequestsAt(userIds: map<string, Json>, catId: Json, category: string, groups: seq<seq<string>>, n: nat, i: nat)
    requires i < n <= |groups| && Requests(userIds, catId, category, groups, n).Ok?
    ensures |Requests(userIds, catId, category, groups, n).value| == n && MemberIds(userIds, groups[i]).Ok?
    ensures Requests(userIds, catId, category, groups, n).value[i] ==
      GroupRequest(catId, GroupName(category, i), MemberIds(userIds, groups[i]).value)
    decreases n
  {
    RequestsLength(userIds, catId, category, groups, n);
    RequestsLength(userIds, catId, category, groups, n - 1);
    var sent := Requests(userIds, catId, category, groups, n - 1).value;
    var ids := MemberIds(userIds, groups[n - 1]).value;
    assert Requests(userIds, catId, category, groups, n).value == sent + [GroupRequest(catId, GroupName(category, n - 1), ids)];
    if i < n - 1 {
      RequestsAt(userIds, catId, category, groups, n - 1, i);
    }
  }

  /** The Canvas side of `create`: the category by exact name, then one request per group. */
  function CanvasPlan(userIds: map<string, Json>, groupCats: seq<Json>, category: string, groups: seq<seq<string>>): Result<seq<GroupRequest>>
  {
    var cat :- FirstWithName(groupCats, category);
    var catId :- Cachable.Index(cat, "id");
    Requests(userIds, catId, category, groups, |groups|)
  }

  // ---------------------------------------------------------------- the local side

  /** `subs_path.replace('subs/', 'groupsubs/')`. */
  function GroupsubsPath(subs: string): string
  {
    Replace(subs, "subs/", "groupsubs/")
  }

  /** The failure of a Python `assert`. */
  const AssertionFailed := Failure("AssertionError")

  /** The names of `names` that start with `prefix`, joined to `dir`, in order. */
  function Matching(dir: string, names: seq<string>, prefix: string): seq<string>
  {
    if names == [] then []
    else (if IsPrefix(prefix, names[0]) then [PathJoin(dir, names[0])] else []) + Matching(dir, names[1..], prefix)
  }

  /** `glob.glob(os.path.join(dir, m) + '_*')` with `prefix` = `m_`: nothing when `dir` cannot be listed. */
  function Globbed(fs: FileSystem, dir: string, prefix: string): seq<string>
  {
    match ListDir(fs, dir)
    case Err(_) => []
    case Ok(names) => Matching(dir, names, prefix)
  }

  /** The name at `i` is the only one starting with `prefix`. */
  predicate OnlyMatch(names: seq<string>, prefix: string, i: int)
  {
    0 <= i < |names| && IsPrefix(prefix, names[i]) &&
    forall j :: 0 <= j < |names| && j != i ==> !IsPrefix(prefix, names[j])
  }

  /** The glob finds nothing when no name fits, and one path exactly when one name fits. */
  lemma {:induction false} MatchingSpec(dir: string, names: seq<string>, prefix: string)
    ensures |Matching(dir, names, prefix)| == 0 <==> forall j :: 0 <= j < |names| ==> !IsPrefix(prefix, names[j])
    ensures |Matching(dir, names, prefix)| == 1 <==> exists i :: OnlyMatch(names, prefix, i)
    ensures forall i :: OnlyMatch(names, prefix, i) ==> Matching(dir, names, prefix) == [PathJoin(dir, names[i])]
    decreases |names|
  {
    if names != [] {
      var rest := names[1..];
      MatchingSpec(dir, rest, prefix);
      assert forall j :: 1 <= j < |names| ==> names[j] == rest[j - 1];
      if IsPrefix(prefix, names[0]) {
        forall i | OnlyMatch(names, prefix, i) ensures i == 0 {
        }
        if forall j :: 0 <= j < |rest| ==> !IsPrefix(prefix, rest[j]) {
          assert OnlyMatch(names, prefix, 0);
        }
      } else {
        forall i | OnlyMatch(names, prefix, i) ensures OnlyMatch(rest, prefix, i - 1) {
        }
        forall i | OnlyMatch(rest, prefix, i) ensures OnlyMatch(names, prefix, i + 1) {
        }
      }
    }
  }

  /** The member's one submission folder (`assert len(subpaths) == 1`). */
  function MemberFolder(fs: FileSystem, subs: string, member: string): Result<string>
  {
    var paths := Globbed(fs, subs, member + "_");
    if |paths| != 1 then Err(AssertionFailed) else Ok(paths[0])
  }

  /**
   * The member has a folder exactly when the submissions directory lists
   * exactly one name starting with the member and `_`, and it is that
   * name under the directory.
   */
  lemma MemberFolderSpec(fs: FileSystem, subs: string, member: string)
    ensures MemberFolder(fs, subs, member).Ok? <==>
      ListDir(fs, subs).Ok? && exists i :: OnlyMatch(ListDir(fs, subs).value, member + "_", i)
    ensures ListDir(fs, subs).Ok? ==> forall i :: OnlyMatch(ListDir(fs, subs).value, member + "_", i) ==>
      MemberFolder(fs, subs, member) == Ok(PathJoin(subs, ListDir(fs, subs).value[i]))
  {
    if ListDir(fs, subs).Ok? {
      MatchingSpec(subs, ListDir(fs, subs).value, member + "_");
    }
  }

  /** The member's folder when it holds more than one entry (more than its `.staffeli.yml`), else nothing. */
  function Submitted(fs: FileSystem, subs: string, member: string): Result<Option<string>>
  {
    var p :- MemberFolder(fs, subs, member);
    var entries :- ListDir(fs, p);
    Ok(if |entries| > 1 then Some(p) else None)
  }

  /** `users_submitted` after the first `n` members. */
  function SubmittedFolders(fs: FileSystem, subs: string, members: seq<string>, n: nat): Result<seq<string>>
    requires n <= |members|
  {
    if n == 0 then Ok([])
    else
      var acc :- SubmittedFolders(fs, subs, members, n - 1);
      var o :- Submitted(fs, subs, members[n - 1]);
      Ok(acc + (if o.Some? then [o.value] else []))
  }

  /** The one folder that submitted for the group (`assert len(users_submitted) == 1`). */
  function Submitter(fs: FileSystem, subs: string, members: seq<string>): Result<string>
  {
    var folders :- SubmittedFolders(fs, subs, members, |members|);
    if |folders| != 1 then Err(AssertionFailed) else Ok(folders[0])
  }

  lemma {:induction false} SubmittedFoldersPrefixErr(fs: FileSystem, subs: string, members: seq<string>, n: nat)
    requires n <= |members| && SubmittedFolders(fs, subs, members, n).Err?
    ensures SubmittedFolders(fs, subs, members, |members|) == SubmittedFolders(fs, subs, members, n)
    decreases |members| - n
  {
    if n < |members| {
      SubmittedFoldersPrefixErr(fs, subs, members, n + 1);
    }
  }

  /** The inner loop of the local update for one group. */
  method FindSubmitter(fs: FileSystem, subs: string, members: seq<string>) returns (r: Result<string>)
    ensures r == Submitter(fs, subs, members)
  {
    var usersSubmitted: seq<string> := [];
    for i := 0 to |members|
      invariant SubmittedFolders(fs, subs, members, i) == Ok(usersSubmitted)
    {
      var subpaths := Globbed(fs, subs, members[i] + "_");
      if |subpaths| != 1 {
        SubmittedFoldersPrefixErr(fs, subs, members, i + 1);
        return Err(AssertionFailed);
      }
      var subpath := subpaths[0];
      var entries := ListDir(fs, subpath);
      if entries.Err? {
        SubmittedFoldersPrefixErr(fs, subs, members, i + 1);
        return Err(entries.error);
      }
      assert Submitted(fs, subs, members[i]) == Ok(if |entries.value| > 1 then Some(subpath) else None);
      if |entries.value| > 1 {
        usersSubmitted := usersSubmitted + [subpath];
      } else {
        assert usersSubmitted + [] == usersSubmitted;
      }
    }
    if |usersSubmitted| != 1 {
      return Err(AssertionFailed);
    }
    return Ok(usersSubmitted[0]);
  }

  /** Among the first `n` members, `j` is the only one whose folder holds a hand-in. */
  predicate SoleIn(fs: FileSystem, subs: string, members: seq<string>, n: nat, j: int)
    requires n <= |members|
  {
    0 <= j < n && Submitted(fs, subs, members[j]).Ok? && Submitted(fs, subs, members[j]).value.Some? &&
    forall k :: 0 <= k < n && k != j ==> Submitted(fs, subs, members[k]) == Ok(None)
  }

  lemma {:induction false} SubmittedFoldersErr(fs: FileSystem, subs: string, members: seq<string>, n: nat, k: nat)
    requires k < n <= |members| && Submitted(fs, subs, members[k]).Err?
    ensures SubmittedFolders(fs, subs, members, n).Err?
    decreases n
  {
    if k < n - 1 {
      SubmittedFoldersErr(fs, subs, members, n - 1, k);
    }
  }

  /** The folders among `os`, in order. */
  function Somes(os: seq<Option<string>>): seq<string>
  {
    if os == [] then []
    else Somes(os[..|os| - 1]) + (if os[|os| - 1].Some? then [os[|os| - 1].value] else [])
  }

  /** Only `os[j]` holds a folder. */
  predicate SoleSome(os: seq<Option<string>>, j: int)
  {
    0 <= j < |os| && os[j].Some? && forall k :: 0 <= k < |os| && k != j ==> os[k].None?
  }

  lemma {:induction false} SomesCount(os: seq<Option<string>>)
    ensures |Somes(os)| == 0 <==> forall k :: 0 <= k < |os| ==> os[k].None?
    ensures |Somes(os)| == 1 <==> exists j :: SoleSome(os, j)
    ensures forall j :: SoleSome(os, j) ==> Somes(os) == [os[j].value]
    decreases |os|
  {
    if os != [] {
      var n := |os| - 1;
      var init := os[..n];
      SomesCount(init);
      assert forall k :: 0 <= k < n ==> init[k] == os[k];
      if os[n].Some? {
        forall j | SoleSome(os, j) ensures j == n {
        }
        if forall k :: 0 <= k < n ==> init[k].None? {
          assert SoleSome(os, n);
        }
        forall j | SoleSome(init, j) ensures !SoleSome(os, j) {
        }
      } else {
        assert Somes(init) + [] == Somes(init);
        forall j | SoleSome(os, j) ensures SoleSome(init, j) {
        }
        forall j | SoleSome(init, j) ensures SoleSome(os, j) {
        }
      }
    }
  }

  /** What the first `n` members' folders contribute, when none of them fails. */
  function Outcomes(fs: FileSystem, subs: string, members: seq<string>, n: nat): seq<Option<string>>
    requires n <= |members| && forall k :: 0 <= k < n ==> Submitted(fs, subs, members[k]).Ok?
  {
    seq(n, k requires 0 <= k < n => Submitted(fs, subs, members[k]).value)
  }

  lemma {:induction false} SubmittedFoldersSomes(fs: FileSystem, subs: string, members: seq<string>, n: nat)
    requires n <= |members| && forall k :: 0 <= k < n ==> Submitted(fs, subs, members[k]).Ok?
    ensures SubmittedFolders(fs, subs, members, n) == Ok(Somes(Outcomes(fs, subs, members, n)))
    decreases n
  {
    if n > 0 {
      SubmittedFoldersSomes(fs, subs, members, n - 1);
      assert Outcomes(fs, subs, members, n)[..n - 1] == Outcomes(fs, subs, members, n - 1);
    }
  }

  /**
   * A group has a submitter exactly when every member has one readable
   * folder and exactly one member's folder holds a hand-in; the submitter
   * is that folder.
   */
  lemma SubmitterSpec(fs: FileSystem, subs: string, members: seq<string>)
    ensures Submitter(fs, subs, members).Ok? <==>
      (forall k :: 0 <= k < |members| ==> Submitted(fs, subs, members[k]).Ok?) &&
      exists j :: SoleIn(fs, subs, members, |members|, j)
    ensures forall j :: SoleIn(fs, subs, members, |members|, j) ==>
      Submitter(fs, subs, members) == Ok(MemberFolder(fs, subs, members[j]).value)
  {
    if forall k :: 0 <= k < |members| ==> Submitted(fs, subs, members[k]).Ok? {
      var os := Outcomes(fs, subs, members, |members|);
      SubmittedFoldersSomes(fs, subs, members, |members|);
      SomesCount(os);
      forall k | 0 <= k < |members| ensures Submitted(fs, subs, members[k]) == Ok(None) <==> os[k].None? {
      }
      forall j ensures SoleIn(fs, subs, members, |members|, j) <==> SoleSome(os, j) {
      }
    } else {
      var k :| 0 <= k < |members| && Submitted(fs, subs, members[k]).Err?;
      SubmittedFoldersErr(fs, subs, members, |members|, k);
      forall j ensures !SoleIn(fs, subs, members, |members|, j) {
      }
    }
  }

  /** The lookup depends only on directories and their listings. */
  lemma {:induction false} SubmittedFoldersFrame(f1: FileSystem, f2: FileSystem, subs: string, members: seq<string>, n: nat)
    requires n <= |members| && f1.dirs == f2.dirs && f1.listing == f2.listing
    ensures SubmittedFolders(f1, subs, members, n) == SubmittedFolders(f2, subs, members, n)
    decreases n
  {
    if n > 0 {
      SubmittedFoldersFrame(f1, f2, subs, members, n - 1);
      assert Submitted(f1, subs, members[n - 1]) == Submitted(f2, subs, members[n - 1]);
    }
  }

  /** The disk after linking the first `n` groups, or the failure of the group that raised. */
  function LinkedGroups(fs: FileSystem, subs: string, groupsubs: string, groups: seq<seq<string>>, n: nat): Result<FileSystem>
    requires n <= |groups|
  {
    if n == 0 then Ok(fs)
    else
      var fs1 :- LinkedGroups(fs, subs, groupsubs, groups, n - 1);
      var p :- Submitter(fs1, subs, groups[n - 1]);
      Linked(fs1, Up(2, p), GroupPath(groupsubs, n - 1))
  }

  lemma {:induction false} LinkedGroupsPrefixErr(fs: FileSystem, subs: string, groupsubs: string, groups: seq<seq<string>>, n: nat)
    requires n <= |groups| && LinkedGroups(fs, subs, groupsubs, groups, n).Err?
    ensures LinkedGroups(fs, subs, groupsubs, groups, |groups|).Err?
    decreases |groups| - n
  {
    if n < |groups| {
      LinkedGroupsPrefixErr(fs, subs, groupsubs, groups, n + 1);
    }
  }

  /** The loop that links group `i`'s folder `groupsubs/iii` to `../../` followed by its submitter's folder. */
  method LinkGroups(disk: Disk, subs: string, groupsubs: string, groups: seq<seq<string>>) returns (r: Result<()>)
    modifies disk
    ensures r.Ok? <==> LinkedGroups(old(disk.fs), subs, groupsubs, groups, |groups|).Ok?
    ensures r.Ok? ==> disk.fs == LinkedGroups(old(disk.fs), subs, groupsubs, groups, |groups|).value
  {
    for i := 0 to |groups|
      invariant LinkedGroups(old(disk.fs), subs, groupsubs, groups, i) == Ok(disk.fs)
    {
      var groupsubPath := PathJoin(groupsubs, Pad3(i));
      var submitter := FindSubmitter(disk.fs, subs, groups[i]);
      if submitter.Err? {
        LinkedGroupsPrefixErr(old(disk.fs), subs, groupsubs, groups, i + 1);
        return Err(submitter.error);
      }
      var target := PathJoin(PathJoin("..", ".."), submitter.value);
      JoinUp2(submitter.value);
      ghost var before := disk.fs;
      assert LinkedGroups(old(disk.fs), subs, groupsubs, groups, i + 1) == Linked(before, target, GroupPath(groupsubs, i));
      var ok := disk.Symlink(target, groupsubPath);
      if !ok {
        LinkedGroupsPrefixErr(old(disk.fs), subs, groupsubs, groups, i + 1);
        return Err(Failure("FileExistsError: " + groupsubPath));
      }
    }
    return Ok(());
  }

  /** Linking the first `n` groups changes nothing on the disk but the links, and keeps every existing link name. */
  lemma {:induction false} LinkedGroupsFrame(fs: FileSystem, subs: string, groupsubs: string, groups: seq<seq<string>>, n: nat)
    requires n <= |groups| && LinkedGroups(fs, subs, groupsubs, groups, n).Ok?
    ensures var fs1 := LinkedGroups(fs, subs, groupsubs, groups, n).value;
      fs1.files == fs.files && fs1.dirs == fs.dirs && fs1.listing == fs.listing && fs1.docs == fs.docs &&
      fs.links.Keys <= fs1.links.Keys
    decreases n
  {
    if n > 0 {
      LinkedGroupsFrame(fs, subs, groupsubs, groups, n - 1);
    }
  }

  /** The submitter of a group is the same before and after linking other groups. */
  lemma LinkedGroupsSubmitter(fs: FileSystem, subs: string, groupsubs: string, groups: seq<seq<string>>, n: nat, members: seq<string>)
    requires n <= |groups| && LinkedGroups(fs, subs, groupsubs, groups, n).Ok?
    ensures Submitter(LinkedGroups(fs, subs, groupsubs, groups, n).value, subs, members) == Submitter(fs, subs, members)
  {
    LinkedGroupsFrame(fs, subs, groupsubs, groups, n);
    SubmittedFoldersFrame(LinkedGroups(fs, subs, groupsubs, groups, n).value, fs, subs, members, |members|);
  }

  /** A path that is no group's path among the first `n` keeps its link, or its absence of one. */
  lemma {:induction false} LinkedGroupsOther(fs: FileSystem, subs: string, groupsubs: string, groups: seq<seq<string>>, n: nat, q: string)
    requires n <= |groups| && LinkedGroups(fs, subs, groupsubs, groups, n).Ok?
    requires forall i :: 0 <= i < n ==> q != GroupPath(groupsubs, i)
    ensures var links := LinkedGroups(fs, subs, groupsubs, groups, n).value.links;
      (q in links <==> q in fs.links) && (q in fs.links ==> links[q] == fs.links[q])
    decreases n
  {
    if n > 0 {
      LinkedGroupsOther(fs, subs, groupsubs, groups, n - 1, q);
    }
  }

  /** After linking the first `n` groups, group `i`'s path points two levels up and into its submitter's folder. */
  lemma {:induction false} LinkedGroupsAt(fs: FileSystem, subs: string, groupsubs: string, groups: seq<seq<string>>, n: nat, i: nat)
    requires n <= |groups| && LinkedGroups(fs, subs, groupsubs, groups, n).Ok? && i < n
    ensures Submitter(fs, subs, groups[i]).Ok?
    ensures var links := LinkedGroups(fs, subs, groupsubs, groups, n).value.links;
      GroupPath(groupsubs, i) in links && links[GroupPath(groupsubs, i)] == Up(2, Submitter(fs, subs, groups[i]).value)
    decreases n
  {
    if i < n - 1 {
      LinkedGroupsAt(fs, subs, groupsubs, groups, n - 1, i);
      if GroupPath(groupsubs, i) == GroupPath(groupsubs, n - 1) {
        GroupPathInjective(groupsubs, i, n - 1);
      }
    } else {
      LinkedGroupsSubmitter(fs, subs, groupsubs, groups, n - 1, groups[n - 1]);
    }
  }

  /** Group `i` can be linked on `fs`: it has a submitter and its numbered path is free. */
  predicate Linkable(fs: FileSystem, subs: string, groupsubs: string, groups: seq<seq<string>>, i: nat)
    requires i < |groups|
  {
    Submitter(fs, subs, groups[i]).Ok? && !Exists(fs, GroupPath(groupsubs, i))
  }

  /**
   * One more group after a successful run: linking it depends on its
   * submitter on the original disk and on whether its path is free.
   */
  lemma LinkedGroupsStep(fs: FileSystem, subs: string, groupsubs: string, groups: seq<seq<string>>, n: nat)
    requires 0 < n <= |groups| && LinkedGroups(fs, subs, groupsubs, groups, n - 1).Ok?
    ensures LinkedGroups(fs, subs, groupsubs, groups, n).Ok? <==> Linkable(fs, subs, groupsubs, groups, n - 1)
  {
    var p := GroupPath(groupsubs, n - 1);
    GroupPathsBefore(groupsubs, n - 1);
    LinkedGroupsFrame(fs, subs, groupsubs, groups, n - 1);
    LinkedGroupsSubmitter(fs, subs, groupsubs, groups, n - 1, groups[n - 1]);
    LinkedGroupsOther(fs, subs, groupsubs, groups, n - 1, p);
  }

  /** All of the first `n` groups can be linked exactly when the first `n - 1` and group `n - 1` can. */
  lemma LinkableUpTo(fs: FileSystem, subs: string, groupsubs: string, groups: seq<seq<string>>, n: nat)
    requires 0 < n <= |groups|
    ensures (forall i :: 0 <= i < n ==> Linkable(fs, subs, groupsubs, groups, i)) <==>
      (forall i :: 0 <= i < n - 1 ==> Linkable(fs, subs, groupsubs, groups, i)) && Linkable(fs, subs, groupsubs, groups, n - 1)
  {
  }

  /** Linking the first `n` groups succeeds exactly when each of them can be linked on the original disk. */
  lemma {:induction false} LinkedGroupsOk(fs: FileSystem, subs: string, groupsubs: string, groups: seq<seq<string>>, n: nat)
    requires n <= |groups|
    ensures LinkedGroups(fs, subs, groupsubs, groups, n).Ok? <==> forall i :: 0 <= i < n ==> Linkable(fs, subs, groupsubs, groups, i)
    decreases n
  {
    if n > 0 {
      LinkedGroupsOk(fs, subs, groupsubs, groups, n - 1);
      LinkableUpTo(fs, subs, groupsubs, groups, n);
      if LinkedGroups(fs, subs, groupsubs, groups, n - 1).Ok? {
        LinkedGroupsStep(fs, subs, groupsubs, groups, n);
      }
    }
  }

  /** The group paths before `n` all differ from path `n`. */
  lemma GroupPathsBefore(base: string, n: nat)
    ensures forall i :: 0 <= i < n ==> GroupPath(base, i) != GroupPath(base, n)
  {
    forall i | 0 <= i < n ensures GroupPath(base, i) != GroupPath(base, n) {
      if GroupPath(base, i) == GroupPath(base, n) {
        GroupPathInjective(base, i, n);
      }
    }
  }

  /**
   * Linking succeeds exactly when every group has a submitter and no
   * group's numbered path exists yet; then only the links change: each
   * group's path points two levels up and into its submitter's folder,
   * and every other link is kept.
   */
  lemma LinkedGroupsSpec(fs: FileSystem, subs: string, groupsubs: string, groups: seq<seq<string>>, n: nat)
    requires n <= |groups|
    ensures LinkedGroups(fs, subs, groupsubs, groups, n).Ok? <==>
      forall i :: 0 <= i < n ==> Submitter(fs, subs, groups[i]).Ok? && !Exists(fs, GroupPath(groupsubs, i))
    ensures LinkedGroups(fs, subs, groupsubs, groups, n).Ok? ==>
      var fs1 := LinkedGroups(fs, subs, groupsubs, groups, n).value;
      fs1.files == fs.files && fs1.dirs == fs.dirs && fs1.listing == fs.listing && fs1.docs == fs.docs
    ensures LinkedGroups(fs, subs, groupsubs, groups, n).Ok? ==>
      var fs1 := LinkedGroups(fs, subs, groupsubs, groups, n).value;
      forall i :: 0 <= i < n ==>
        GroupPath(groupsubs, i) in fs1.links && fs1.links[GroupPath(groupsubs, i)] == Up(2, Submitter(fs, subs, groups[i]).value)
    ensures LinkedGroups(fs, subs, groupsubs, groups, n).Ok? ==>
      var fs1 := LinkedGroups(fs, subs, groupsubs, groups, n).value;
      forall q :: q in fs.links ==> q in fs1.links
    ensures LinkedGroups(fs, subs, groupsubs, groups, n).Ok? ==>
      var fs1 := LinkedGroups(fs, subs, groupsubs, groups, n).value;
      forall q :: q in fs1.links && (forall i :: 0 <= i < n ==> q != GroupPath(groupsubs, i)) ==>
        q in fs.links && fs1.links[q] == fs.links[q]
  {
    LinkedGroupsOk(fs, subs, groupsubs, groups, n);
    forall i | 0 <= i < n
      ensures Linkable(fs, subs, groupsubs, groups, i) <==> Submitter(fs, subs, groups[i]).Ok? && !Exists(fs, GroupPath(groupsubs, i))
    {
    }
    if LinkedGroups(fs, subs, groupsubs, groups, n).Ok? {
      LinkedGroupsFrame(fs, subs, groupsubs, groups, n);
      var links := LinkedGroups(fs, subs, groupsubs, groups, n).value.links;
      forall i | 0 <= i < n
        ensures GroupPath(groupsubs, i) in links && links[GroupPath(groupsubs, i)] == Up(2, Submitter(fs, subs, groups[i]).value)
      {
        LinkedGroupsAt(fs, subs, groupsubs, groups, n, i);
      }
      forall q | q in links && (forall i :: 0 <= i < n ==> q != GroupPath(groupsubs, i))
        ensures q in fs.links && links[q] == fs.links[q]
      {
        LinkedGroupsOther(fs, subs, groupsubs, groups, n, q);
      }
    }
  }

  lemma EnsuredElsewhere(fs: FileSystem, p: string, q: string)
    requires Ensured(fs, p).Ok? && |q| > |p|
    ensures Exists(Ensured(fs, p).value, q) <==> Exists(fs, q)
  {
  }

  /** The local side of `create`: the group directory, then the links. */
  function CreatedLocally(fs: FileSystem, subs: string, groups: seq<seq<string>>): Result<FileSystem>
  {
    var fs1 :- Ensured(fs, GroupsubsPath(subs));
    LinkedGroups(fs1, subs, GroupsubsPath(subs), groups, |groups|)
  }

  /**
   * `create(subs_path, category_name, groups_file)` on the groups file's
   * contents, the course's students and its group categories: the Canvas
   * requests first, then the local links. A failure on the Canvas side
   * leaves the disk as it was.
   */
  method Create(disk: Disk, userIds: map<string, Json>, groupCats: seq<Json>, subsPath: string, category: string, contents: string)
    returns (sent: seq<GroupRequest>, r: Result<()>)
    modifies disk
    ensures r.Ok? <==>
      CanvasPlan(userIds, groupCats, category, ParseGroups(contents)).Ok? &&
      CreatedLocally(old(disk.fs), subsPath, ParseGroups(contents)).Ok?
    ensures r.Ok? ==> CanvasPlan(userIds, groupCats, category, ParseGroups(contents)) == Ok(sent)
    ensures r.Ok? ==> disk.fs == CreatedLocally(old(disk.fs), subsPath, ParseGroups(contents)).value
    ensures CanvasPlan(userIds, groupCats, category, ParseGroups(contents)).Err? ==> r.Err? && disk.fs == old(disk.fs)
  {
    var groups := ParseGroups(contents);
    var cat := FirstWithName(groupCats, category);
    if cat.Err? {
      return [], Err(cat.error);
    }
    var catId := Cachable.Index(cat.value, "id");
    if catId.Err? {
      return [], Err(catId.error);
    }
    var res;
    sent, res := SendGroups(userIds, catId.value, category, groups);
    if res.Err? {
      return sent, res;
    }
    var groupsubs := Replace(subsPath, "subs/", "groupsubs/");
    var ok := disk.EnsureDir(groupsubs);
    if !ok {
      return sent, Err(Failure("FileExistsError: " + groupsubs));
    }
    r := LinkGroups(disk, subsPath, groupsubs, groups);
  }

  /**
   * Where the local side succeeds, the group directory exists and group
   * `i`'s numbered entry in it links to its submitter's folder, found
   * after the directory was made.
   */
  lemma CreatedLocallySpec(fs: FileSystem, subs: string, groups: seq<seq<string>>)
    ensures CreatedLocally(fs, subs, groups).Ok? <==>
      Ensured(fs, GroupsubsPath(subs)).Ok? &&
      forall i :: 0 <= i < |groups| ==>
        Submitter(Ensured(fs, GroupsubsPath(subs)).value, subs, groups[i]).Ok? && !Exists(fs, GroupPath(GroupsubsPath(subs), i))
    ensures CreatedLocally(fs, subs, groups).Ok? ==>
      IsDir(CreatedLocally(fs, subs, groups).value, GroupsubsPath(subs))
    ensures CreatedLocally(fs, subs, groups).Ok? ==>
      var links := CreatedLocally(fs, subs, groups).value.links;
      var fs1 := Ensured(fs, GroupsubsPath(subs)).value;
      forall i :: 0 <= i < |groups| ==>
        GroupPath(GroupsubsPath(subs), i) in links &&
        links[GroupPath(GroupsubsPath(subs), i)] == Up(2, Submitter(fs1, subs, groups[i]).value)
  {
    var gs := GroupsubsPath(subs);
    if Ensured(fs, gs).Ok? {
      var fs1 := Ensured(fs, gs).value;
      LinkedGroupsSpec(fs1, subs, gs, groups, |groups|);
      forall i | 0 <= i < |groups| ensures Exists(fs1, GroupPath(gs, i)) <==> Exists(fs, GroupPath(gs, i)) {
        EnsuredElsewhere(fs, gs, GroupPath(gs, i));
      }
    }
  }
}
