/**
 * contrib/groups/split-into-sections.py: the numbered group folders are
 * distributed over per-section directories. A group goes into every named
 * section that lists its first member, as a link three levels up and into
 * its group folder; groups placed nowhere are reported.
 */
module SplitSections {
  import opened Common
  import opened Os
  import opened GroupsFile
  import Cachable
  import CreateGroups

  /** `groupsubs_path.replace('groupsubs/', 'sections/')`. */
  function SectionsPath(groupsubs: string): string
  {
    Replace(groupsubs, "groupsubs/", "sections/")
  }

  // ---------------------------------------------------------------- section directory names

  /** The end of the line that starts at `k`: the first newline at or after `k`, or the end. */
  function LineEnd(s: string, k: nat): (r: nat)
    requires k <= |s|
    ensures k <= r <= |s|
    ensures forall j :: k <= j < r ==> s[j] != '\n'
    ensures r < |s| ==> s[r] == '\n'
    decreases |s| - k
  {
    if k == |s| || s[k] == '\n' then k else LineEnd(s, k + 1)
  }

  /**
   * The directory name of a section: `m.group(1).lower()` when
   * `re.match(r'Class (.+)', name)` matches, that is the rest of the first
   * line after `Class ` when it is not empty; the name itself otherwise.
   */
  function ClassDir(name: string): string
  {
    if IsPrefix("Class ", name) && LineEnd(name, 6) > 6 then Lower(name[6..LineEnd(name, 6)])
    else name
  }

  /** `Class X`, alone or followed by further lines, gives the lower-cased `X`. */
  lemma ClassDirOfClass(t: string, rest: string)
    requires |t| >= 1 && '\n' !in t
    requires rest == [] || rest[0] == '\n'
    ensures ClassDir("Class " + t + rest) == Lower(t)
  {
    PrefixLine("Class ", t, rest);
    assert |"Class "| == 6;
    ClassDirAt("Class " + t + rest, 6 + |t|);
  }

  /** In `p + t + rest`, the line that starts after `p` is `t`. */
  lemma PrefixLine(p: string, t: string, rest: string)
    requires '\n' !in t && (rest == [] || rest[0] == '\n')
    ensures IsPrefix(p, p + t + rest)
    ensures LineEnd(p + t + rest, |p|) == |p| + |t|
    ensures (p + t + rest)[|p|..|p| + |t|] == t
  {
    ThreeParts(p, t, rest);
    LineEndAfter(t, rest, p + t + rest, |p|);
  }

  lemma ThreeParts(a: string, b: string, c: string)
    ensures (a + b + c)[..|a|] == a && (a + b + c)[|a|..] == b + c
    ensures (a + b + c)[|a|..|a| + |b|] == b
  {
  }

  /** In `s`, the line that starts at `k`, where `s[k..]` is `t + rest`, ends after `t`. */
  lemma LineEndAfter(t: string, rest: string, s: string, k: nat)
    requires '\n' !in t && (rest == [] || rest[0] == '\n')
    requires k <= |s| && s[k..] == t + rest
    ensures LineEnd(s, k) == k + |t|
  {
    forall j | k <= j < k + |t| ensures s[j] != '\n' {
      assert s[j] == s[k..][j - k] == t[j - k];
    }
    if rest != [] {
      assert s[k + |t|] == s[k..][|t|] == rest[0];
    }
    LineEndAt(s, k, k + |t|);
  }

  lemma ClassDirAt(name: string, e: nat)
    requires IsPrefix("Class ", name) && 6 < e <= |name| && LineEnd(name, 6) == e
    ensures ClassDir(name) == Lower(name[6..e])
  {
  }

  lemma {:induction false} LineEndAt(s: string, k: nat, e: nat)
    requires k <= e <= |s|
    requires forall j :: k <= j < e ==> s[j] != '\n'
    requires e == |s| || s[e] == '\n'
    ensures LineEnd(s, k) == e
    decreases e - k
  {
    if k < e {
      LineEndAt(s, k + 1, e);
    }
  }

  /** A name that does not start with `Class ` is used as it is. */
  lemma ClassDirOther(name: string)
    requires !IsPrefix("Class ", name)
    ensures ClassDir(name) == name
  {
  }

  /** When the name changes, the new name is the lower-cased first line after `Class `, so it holds no newline. */
  lemma ClassDirSpec(name: string)
    ensures ClassDir(name) != name ==> IsPrefix("Class ", name) && |ClassDir(name)| >= 1 && '\n' !in ClassDir(name)
    ensures ClassDir(name) != name ==> ClassDir(name) == Lower(name[6..LineEnd(name, 6)])
  {
    if ClassDir(name) != name {
      var t := name[6..LineEnd(name, 6)];
      LowerKeepsNewlines(t);
    }
  }

  /** Lower-casing keeps every character that is not an upper-case letter, newlines included. */
  lemma {:induction false} LowerKeepsNewlines(t: string)
    ensures forall j :: 0 <= j < |t| ==> (Lower(t)[j] == '\n' <==> t[j] == '\n')
    decreases |t|
  {
    if t != [] {
      LowerKeepsNewlines(t[1..]);
      assert Lower(t) == [LowerChar(t[0])] + Lower(t[1..]);
      assert forall j :: 1 <= j < |t| ==> Lower(t)[j] == Lower(t[1..])[j - 1] && t[j] == t[1..][j - 1];
    }
  }

  // ---------------------------------------------------------------- ku_ids

  /** `u['login_id'].split('@')[0]`. */
  function LoginPrefix(u: Json): Result<string>
  {
    var login :- Cachable.Index(u, "login_id");
    if login.JStr? then Ok(Split(login.s, "@")[0])
    else Err(Failure("AttributeError: object has no attribute 'split'"))
  }

  /** The prefixes of a list of students, or the failure of the first that has none. */
  function LoginPrefixes(users: seq<Json>): Result<seq<string>>
  {
    if users == [] then Ok([])
    else
      var k :- LoginPrefix(users[0]);
      var rest :- LoginPrefixes(users[1..]);
      Ok([k] + rest)
  }

  /** The prefixes exist exactly when every student has one, and then come one per student, in order. */
  lemma {:induction false} LoginPrefixesSpec(users: seq<Json>)
    ensures LoginPrefixes(users).Ok? <==> forall i :: 0 <= i < |users| ==> LoginPrefix(users[i]).Ok?
    ensures LoginPrefixes(users).Ok? ==>
      |LoginPrefixes(users).value| == |users| &&
      forall i :: 0 <= i < |users| ==> LoginPrefixes(users).value[i] == LoginPrefix(users[i]).value
    decreases |users|
  {
    if users != [] {
      LoginPrefixesSpec(users[1..]);
      assert forall i :: 1 <= i < |users| ==> users[i] == users[1..][i - 1];
    }
  }

  /**
   * `[u['login_id'].split('@')[0] for u in section['students']]`: iterating
   * an empty text or mapping gives nothing, and any other non-list raises.
   */
  function KuIds(section: Json): Result<seq<string>>
  {
    var students :- Cachable.Index(section, "students");
    match students
    case JList(us) => LoginPrefixes(us)
    case JStr(s) => if s == [] then Ok([]) else Err(Failure("TypeError: string indices must be integers"))
    case JObj(f) => if f == map[] then Ok([]) else Err(Failure("TypeError: string indices must be integers"))
    case _ => Err(Failure("TypeError: object is not iterable"))
  }

  /**
   * For an address `user@domain` the section split gives `user`, and so
   * does the short login of the group-creation script when `user` is a
   * non-empty single line: both scripts key students alike.
   */
  lemma LoginPrefixOfAddress(user: string, domain: string)
    requires '@' !in user
    ensures Split(user + "@" + domain, "@")[0] == user
    ensures |user| >= 1 && '\n' !in user ==> CreateGroups.ShortId(user + "@" + domain) == Some(user)
  {
    forall j | 0 <= j < |user| ensures !OccursAt("@", user + "@" + domain, j) {
      assert (user + "@" + domain)[j..j + 1][0] == user[j];
    }
    SplitAtFirst(user, "@", domain);
    if |user| >= 1 && '\n' !in user {
      CreateGroups.ShortIdOfAddress(user, domain);
    }
  }

  // ---------------------------------------------------------------- placing groups

  /** Every group has a first member, as parsing guarantees. */
  predicate Headed(groups: seq<seq<string>>)
  {
    forall i :: 0 <= i < |groups| ==> |groups[i]| >= 1
  }

  /** The numbers among the first `n` groups whose first member is one of `kuIds`, ascending. */
  function Placed(groups: seq<seq<string>>, kuIds: seq<string>, n: nat): seq<nat>
    requires n <= |groups| && Headed(groups)
  {
    if n == 0 then []
    else Placed(groups, kuIds, n - 1) + (if groups[n - 1][0] in kuIds then [n - 1] else [])
  }

  /** A group is placed exactly when its first member is in the section. */
  lemma {:induction false} PlacedSpec(groups: seq<seq<string>>, kuIds: seq<string>, n: nat)
    requires n <= |groups| && Headed(groups)
    ensures forall i: nat :: i in Placed(groups, kuIds, n) <==> i < n && groups[i][0] in kuIds
    decreases n
  {
    if n > 0 {
      PlacedSpec(groups, kuIds, n - 1);
    }
  }

  /**
   * One section's inner loop after the first `n` groups: the disk and the
   * distributed numbers, starting from `distributed`, or the failure of
   * the link that was refused.
   */
  function PlacedLinks(fs: FileSystem, distributed: seq<nat>, groupsubs: string, sectionPath: string,
                       groups: seq<seq<string>>, kuIds: seq<string>, n: nat): Result<(FileSystem, seq<nat>)>
    requires n <= |groups| && Headed(groups)
  {
    if n == 0 then Ok((fs, distributed))
    else
      var acc :- PlacedLinks(fs, distributed, groupsubs, sectionPath, groups, kuIds, n - 1);
      if groups[n - 1][0] in kuIds then
        var fs1 :- Linked(acc.0, Up(3, GroupPath(groupsubs, n - 1)), GroupPath(sectionPath, n - 1));
        Ok((fs1, acc.1 + [n - 1]))
      else Ok(acc)
  }

  lemma {:induction false} PlacedLinksPrefixErr(fs: FileSystem, distributed: seq<nat>, groupsubs: string, sectionPath: string,
                                                groups: seq<seq<string>>, kuIds: seq<string>, n: nat)
    requires n <= |groups| && Headed(groups)
    requires PlacedLinks(fs, distributed, groupsubs, sectionPath, groups, kuIds, n).Err?
    ensures PlacedLinks(fs, distributed, groupsubs, sectionPath, groups, kuIds, |groups|).Err?
    decreases |groups| - n
  {
    if n < |groups| {
      PlacedLinksPrefixErr(fs, distributed, groupsubs, sectionPath, groups, kuIds, n + 1);
    }
  }

  /** The inner loop over the groups for one section. */
  method PlaceSection(disk: Disk, distributed: seq<nat>, groupsubs: string, sectionPath: string,
                      groups: seq<seq<string>>, kuIds: seq<string>)
    returns (d: seq<nat>, r: Result<()>)
    requires Headed(groups)
    modifies disk
    ensures r.Ok? <==> PlacedLinks(old(disk.fs), distributed, groupsubs, sectionPath, groups, kuIds, |groups|).Ok?
    ensures r.Ok? ==> PlacedLinks(old(disk.fs), distributed, groupsubs, sectionPath, groups, kuIds, |groups|) == Ok((disk.fs, d))
  {
    d := distributed;
    for groupId := 0 to |groups|
      invariant PlacedLinks(old(disk.fs), distributed, groupsubs, sectionPath, groups, kuIds, groupId) == Ok((disk.fs, d))
    {
      var mainMember := groups[groupId][0];
      var groupsubPath := PathJoin(groupsubs, Pad3(groupId));
      var sectionSubPath := PathJoin(sectionPath, Pad3(groupId));
      if mainMember in kuIds {
        var target := PathJoin(PathJoin(PathJoin("..", ".."), ".."), groupsubPath);
        JoinUp3(groupsubPath);
        ghost var before := disk.fs;
        assert PlacedLinks(old(disk.fs), distributed, groupsubs, sectionPath, groups, kuIds, groupId + 1) ==
          (var fs1 :- Linked(before, target, sectionSubPath); Ok((fs1, d + [groupId])));
        var ok := disk.Symlink(target, sectionSubPath);
        if !ok {
          PlacedLinksPrefixErr(old(disk.fs), distributed, groupsubs, sectionPath, groups, kuIds, groupId + 1);
          return d, Err(Failure("FileExistsError: " + sectionSubPath));
        }
        d := d + [groupId];
      }
    }
    return d, Ok(());
  }

  /** A successful loop over the first `n` groups appends the placed groups and changes nothing on the disk but the links. */
  lemma {:induction false} PlacedLinksFrame(fs: FileSystem, distributed: seq<nat>, groupsubs: string, sectionPath: string,
                                            groups: seq<seq<string>>, kuIds: seq<string>, n: nat)
    requires n <= |groups| && Headed(groups)
    requires PlacedLinks(fs, distributed, groupsubs, sectionPath, groups, kuIds, n).Ok?
    ensures PlacedLinks(fs, distributed, groupsubs, sectionPath, groups, kuIds, n).value.1 == distributed + Placed(groups, kuIds, n)
    ensures var fs1 := PlacedLinks(fs, distributed, groupsubs, sectionPath, groups, kuIds, n).value.0;
      fs1.files == fs.files && fs1.dirs == fs.dirs && fs1.listing == fs.listing && fs1.docs == fs.docs &&
      fs.links.Keys <= fs1.links.Keys
    decreases n
  {
    if n > 0 {
      PlacedLinksFrame(fs, distributed, groupsubs, sectionPath, groups, kuIds, n - 1);
      if groups[n - 1][0] !in kuIds {
        assert Placed(groups, kuIds, n) == Placed(groups, kuIds, n - 1) + [];
      }
    }
  }

  /** A path that is no group's entry among the first `n` keeps its link, or its absence of one. */
  lemma {:induction false} PlacedLinksOther(fs: FileSystem, distributed: seq<nat>, groupsubs: string, sectionPath: string,
                                            groups: seq<seq<string>>, kuIds: seq<string>, n: nat, q: string)
    requires n <= |groups| && Headed(groups)
    requires PlacedLinks(fs, distributed, groupsubs, sectionPath, groups, kuIds, n).Ok?
    requires forall i :: 0 <= i < n ==> q != GroupPath(sectionPath, i)
    ensures var links := PlacedLinks(fs, distributed, groupsubs, sectionPath, groups, kuIds, n).value.0.links;
      (q in links <==> q in fs.links) && (q in fs.links ==> links[q] == fs.links[q])
    decreases n
  {
    if n > 0 {
      PlacedLinksOther(fs, distributed, groupsubs, sectionPath, groups, kuIds, n - 1, q);
    }
  }

  /** After a successful loop over the first `n` groups, placed group `i` links its entry into its group folder. */
  lemma {:induction false} PlacedLinksAt(fs: FileSystem, distributed: seq<nat>, groupsubs: string, sectionPath: string,
                                         groups: seq<seq<string>>, kuIds: seq<string>, n: nat, i: nat)
    requires n <= |groups| && Headed(groups)
    requires PlacedLinks(fs, distributed, groupsubs, sectionPath, groups, kuIds, n).Ok?
    requires i < n && groups[i][0] in kuIds
    ensures var links := PlacedLinks(fs, distributed, groupsubs, sectionPath, groups, kuIds, n).value.0.links;
      GroupPath(sectionPath, i) in links && links[GroupPath(sectionPath, i)] == Up(3, GroupPath(groupsubs, i))
    decreases n
  {
    if i < n - 1 {
      PlacedLinksAt(fs, distributed, groupsubs, sectionPath, groups, kuIds, n - 1, i);
      if GroupPath(sectionPath, i) == GroupPath(sectionPath, n - 1) {
        GroupPathInjective(sectionPath, i, n - 1);
      }
    }
  }

  /** The loop over the first `n` groups succeeds exactly when no placed group's entry exists yet. */
  lemma {:induction false} PlacedLinksOk(fs: FileSystem, distributed: seq<nat>, groupsubs: string, sectionPath: string,
                                         groups: seq<seq<string>>, kuIds: seq<string>, n: nat)
    requires n <= |groups| && Headed(groups)
    ensures PlacedLinks(fs, distributed, groupsubs, sectionPath, groups, kuIds, n).Ok? <==>
      forall i :: 0 <= i < n && groups[i][0] in kuIds ==> !Exists(fs, GroupPath(sectionPath, i))
    decreases n
  {
    if n > 0 {
      PlacedLinksOk(fs, distributed, groupsubs, sectionPath, groups, kuIds, n - 1);
      var prev := PlacedLinks(fs, distributed, groupsubs, sectionPath, groups, kuIds, n - 1);
      if prev.Ok? {
        var p := GroupPath(sectionPath, n - 1);
        GroupPathsBefore(sectionPath, n - 1);
        PlacedLinksFrame(fs, distributed, groupsubs, sectionPath, groups, kuIds, n - 1);
        PlacedLinksOther(fs, distributed, groupsubs, sectionPath, groups, kuIds, n - 1, p);
        assert Exists(prev.value.0, p) <==> Exists(fs, p);
      }
    }
  }

  /** The group folders before `n` are all named differently from folder `n`. */
  lemma GroupPathsBefore(base: string, n: nat)
    ensures forall i :: 0 <= i < n ==> GroupPath(base, i) != GroupPath(base, n)
  {
    forall i | 0 <= i < n ensures GroupPath(base, i) != GroupPath(base, n) {
      if GroupPath(base, i) == GroupPath(base, n) {
        GroupPathInjective(base, i, n);
      }
    }
  }

  /**
   * A section's loop succeeds exactly when no placed group's entry exists
   * in the section directory yet; then it appends the placed groups in
   * order, links each placed group's entry three levels up and into its
   * group folder, and changes no other link and nothing else on the disk.
   */
  lemma PlacedLinksSpec(fs: FileSystem, distributed: seq<nat>, groupsubs: string, sectionPath: string,
                        groups: seq<seq<string>>, kuIds: seq<string>)
    requires Headed(groups)
    ensures PlacedLinks(fs, distributed, groupsubs, sectionPath, groups, kuIds, |groups|).Ok? <==>
      forall i :: 0 <= i < |groups| && groups[i][0] in kuIds ==> !Exists(fs, GroupPath(sectionPath, i))
    ensures PlacedLinks(fs, distributed, groupsubs, sectionPath, groups, kuIds, |groups|).Ok? ==>
      PlacedLinks(fs, distributed, groupsubs, sectionPath, groups, kuIds, |groups|).value.1 == distributed + Placed(groups, kuIds, |groups|)
    ensures PlacedLinks(fs, distributed, groupsubs, sectionPath, groups, kuIds, |groups|).Ok? ==>
      var fs1 := PlacedLinks(fs, distributed, groupsubs, sectionPath, groups, kuIds, |groups|).value.0;
      fs1.files == fs.files && fs1.dirs == fs.dirs && fs1.listing == fs.listing && fs1.docs == fs.docs
    ensures PlacedLinks(fs, distributed, groupsubs, sectionPath, groups, kuIds, |groups|).Ok? ==>
      var links := PlacedLinks(fs, distributed, groupsubs, sectionPath, groups, kuIds, |groups|).value.0.links;
      forall i :: 0 <= i < |groups| && groups[i][0] in kuIds ==>
        GroupPath(sectionPath, i) in links && links[GroupPath(sectionPath, i)] == Up(3, GroupPath(groupsubs, i))
    ensures PlacedLinks(fs, distributed, groupsubs, sectionPath, groups, kuIds, |groups|).Ok? ==>
      var links := PlacedLinks(fs, distributed, groupsubs, sectionPath, groups, kuIds, |groups|).value.0.links;
      forall q :: q in links && (forall i :: 0 <= i < |groups| ==> q != GroupPath(sectionPath, i)) ==>
        q in fs.links && links[q] == fs.links[q]
  {
    var n := |groups|;
    PlacedLinksOk(fs, distributed, groupsubs, sectionPath, groups, kuIds, n);
    if PlacedLinks(fs, distributed, groupsubs, sectionPath, groups, kuIds, n).Ok? {
      PlacedLinksFrame(fs, distributed, groupsubs, sectionPath, groups, kuIds, n);
      var links := PlacedLinks(fs, distributed, groupsubs, sectionPath, groups, kuIds, n).value.0.links;
      forall i | 0 <= i < n && groups[i][0] in kuIds
        ensures GroupPath(sectionPath, i) in links && links[GroupPath(sectionPath, i)] == Up(3, GroupPath(groupsubs, i))
      {
        PlacedLinksAt(fs, distributed, groupsubs, sectionPath, groups, kuIds, n, i);
      }
      forall q | q in links && (forall i :: 0 <= i < n ==> q != GroupPath(sectionPath, i))
        ensures q in fs.links && links[q] == fs.links[q]
      {
        PlacedLinksOther(fs, distributed, groupsubs, sectionPath, groups, kuIds, n, q);
      }
    }
  }

  // ---------------------------------------------------------------- create

  /** The KU ids of the section named `name`: the section by exact name, then its students. */
  function SectionIds(allSections: seq<Json>, name: string): Result<seq<string>>
  {
    var section :- FirstWithName(allSections, name);
    KuIds(section)
  }

  /** The directory of the section named `name`. */
  function SectionPath(groupsubs: string, name: string): string
  {
    PathJoin(SectionsPath(groupsubs), ClassDir(name))
  }

  /** One round of the loop over the section names, from the disk `fs` and the numbers `distributed` so far. */
  function SectionStep(fs: FileSystem, distributed: seq<nat>, groupsubs: string, groups: seq<seq<string>>, allSections: seq<Json>, name: string): Result<(FileSystem, seq<nat>)>
    requires Headed(groups)
  {
    var section :- FirstWithName(allSections, name);
    var fs1 :- Ensured(fs, SectionPath(groupsubs, name));
    var kuIds :- KuIds(section);
    PlacedLinks(fs1, distributed, groupsubs, SectionPath(groupsubs, name), groups, kuIds, |groups|)
  }

  /** It adds to the distributed numbers exactly the groups whose first member is among the section's KU ids. */
  lemma SectionStepPlaced(fs: FileSystem, distributed: seq<nat>, groupsubs: string, groups: seq<seq<string>>, allSections: seq<Json>, name: string, i: nat)
    requires Headed(groups)
    requires SectionStep(fs, distributed, groupsubs, groups, allSections, name).Ok?
    ensures SectionIds(allSections, name).Ok?
    ensures i in SectionStep(fs, distributed, groupsubs, groups, allSections, name).value.1 <==>
      i in distributed || (i < |groups| && groups[i][0] in SectionIds(allSections, name).value)
  {
    var section := FirstWithName(allSections, name).value;
    var fs1 := Ensured(fs, SectionPath(groupsubs, name)).value;
    var kuIds := KuIds(section).value;
    PlacedLinksSpec(fs1, distributed, groupsubs, SectionPath(groupsubs, name), groups, kuIds);
    PlacedSpec(groups, kuIds, |groups|);
  }

  /** The disk and `groups_distributed` after the first `t` section names, or the failure that ended the run. */
  function Sections(fs: FileSystem, groupsubs: string, groups: seq<seq<string>>, allSections: seq<Json>, names: seq<string>, t: nat): Result<(FileSystem, seq<nat>)>
    requires t <= |names| && Headed(groups)
  {
    if t == 0 then Ok((fs, []))
    else
      var acc :- Sections(fs, groupsubs, groups, allSections, names, t - 1);
      SectionStep(acc.0, acc.1, groupsubs, groups, allSections, names[t - 1])
  }

  lemma SectionsPrefixErr(fs: FileSystem, groupsubs: string, groups: seq<seq<string>>, allSections: seq<Json>, names: seq<string>, t: nat)
    requires t <= |names| && Headed(groups)
    requires Sections(fs, groupsubs, groups, allSections, names, t).Err?
    ensures Sections(fs, groupsubs, groups, allSections, names, |names|).Err?
  {
    SectionsErrUpTo(fs, groupsubs, groups, allSections, names, t, |names|);
  }

  /** Once a round fails, every longer run fails too. */
  lemma SectionsErrUpTo(fs: FileSystem, groupsubs: string, groups: seq<seq<string>>, allSections: seq<Json>, names: seq<string>, t: nat, u: nat)
    requires t <= u <= |names| && Headed(groups)
    requires Sections(fs, groupsubs, groups, allSections, names, t).Err?
    ensures Sections(fs, groupsubs, groups, allSections, names, u).Err?
  {
    var failed := (k: nat) => k <= |names| && Sections(fs, groupsubs, groups, allSections, names, k).Err?;
    SectionsErrSteps(fs, groupsubs, groups, allSections, names);
    StaysTrue(failed, t, u);
  }

  /** Every failing run stays failed for one more round. */
  lemma SectionsErrSteps(fs: FileSystem, groupsubs: string, groups: seq<seq<string>>, allSections: seq<Json>, names: seq<string>)
    requires Headed(groups)
    ensures forall k: nat :: k < |names| && Sections(fs, groupsubs, groups, allSections, names, k).Err? ==>
      Sections(fs, groupsubs, groups, allSections, names, k + 1).Err?
  {
    forall k: nat | k < |names| && Sections(fs, groupsubs, groups, allSections, names, k).Err?
      ensures Sections(fs, groupsubs, groups, allSections, names, k + 1).Err?
    {
      SectionsErrStep(fs, groupsubs, groups, allSections, names, k);
    }
  }

  /** A property that carries over from each number to the next holds from where it starts onwards. */
  lemma {:induction false} StaysTrue(p: nat -> bool, t: nat, u: nat)
    requires t <= u && p(t)
    requires forall k: nat :: t <= k < u && p(k) ==> p(k + 1)
    ensures p(u)
    decreases u
  {
    if t < u {
      StaysTrue(p, t, u - 1);
    }
  }

  lemma SectionsErrStep(fs: FileSystem, groupsubs: string, groups: seq<seq<string>>, allSections: seq<Json>, names: seq<string>, t: nat)
    requires t < |names| && Headed(groups)
    requires Sections(fs, groupsubs, groups, allSections, names, t).Err?
    ensures Sections(fs, groupsubs, groups, allSections, names, t + 1).Err?
  {
  }

  /** The numbers below `n` missing from `distributed`, ascending: the groups the final loop reports. */
  function Unplaced(n: nat, distributed: seq<nat>): seq<nat>
  {
    if n == 0 then [] else Unplaced(n - 1, distributed) + (if n - 1 in distributed then [] else [n - 1])
  }

  /** A group is reported exactly when it was not distributed, and the report is ascending. */
  lemma {:induction false} UnplacedSpec(n: nat, distributed: seq<nat>)
    ensures forall i: nat :: i in Unplaced(n, distributed) <==> i < n && i !in distributed
    ensures forall a, b :: 0 <= a < b < |Unplaced(n, distributed)| ==> Unplaced(n, distributed)[a] < Unplaced(n, distributed)[b]
    decreases n
  {
    if n > 0 {
      UnplacedSpec(n - 1, distributed);
      var u := Unplaced(n - 1, distributed);
      forall a | 0 <= a < |u| ensures u[a] < n - 1 {
        assert u[a] in u;
      }
      assert forall a :: 0 <= a < |u| ==> Unplaced(n, distributed)[a] == u[a];
    }
  }

  /**
   * One round of `create`'s loop over the section names: look the section
   * up, make its directory, and link the groups whose first member it lists.
   */
  method PlaceNamed(disk: Disk, distributed: seq<nat>, groupsubs: string, groups: seq<seq<string>>,
                    allSections: seq<Json>, name: string)
    returns (d: seq<nat>, r: Result<()>)
    requires Headed(groups)
    modifies disk
    ensures r.Ok? <==> SectionStep(old(disk.fs), distributed, groupsubs, groups, allSections, name).Ok?
    ensures r.Ok? ==> SectionStep(old(disk.fs), distributed, groupsubs, groups, allSections, name) == Ok((disk.fs, d))
  {
    d := distributed;
    var section := FirstWithName(allSections, name);
    if section.Err? {
      return d, Err(section.error);
    }
    var sectionPath := PathJoin(Replace(groupsubs, "groupsubs/", "sections/"), ClassDir(name));
    var ok := disk.EnsureDir(sectionPath);
    if !ok {
      return d, Err(Failure("FileExistsError: " + sectionPath));
    }
    var kuIds := KuIds(section.value);
    if kuIds.Err? {
      return d, Err(kuIds.error);
    }
    d, r := PlaceSection(disk, distributed, groupsubs, sectionPath, groups, kuIds.value);
  }

  /**
   * `create(groupsubs_path, groups_file, *section_names)` on the groups
   * file's contents and the course's sections: the disk after the links
   * and the numbers of the groups reported as placed in no section.
   */
  method Create(disk: Disk, allSections: seq<Json>, groupsubs: string, contents: string, names: seq<string>)
    returns (unplaced: seq<nat>, r: Result<()>)
    modifies disk
    ensures r.Ok? <==> Sections(old(disk.fs), groupsubs, ParseGroups(contents), allSections, names, |names|).Ok?
    ensures r.Ok? ==> disk.fs == Sections(old(disk.fs), groupsubs, ParseGroups(contents), allSections, names, |names|).value.0
    ensures r.Ok? ==>
      unplaced == Unplaced(|ParseGroups(contents)|, Sections(old(disk.fs), groupsubs, ParseGroups(contents), allSections, names, |names|).value.1)
  {
    var groups := ParseGroups(contents);
    var distributed: seq<nat> := [];
    for t := 0 to |names|
      invariant Sections(old(disk.fs), groupsubs, groups, allSections, names, t) == Ok((disk.fs, distributed))
    {
      var placed;
      distributed, placed := PlaceNamed(disk, distributed, groupsubs, groups, allSections, names[t]);
      if placed.Err? {
        SectionsPrefixErr(old(disk.fs), groupsubs, groups, allSections, names, t + 1);
        return [], placed;
      }
    }
    unplaced := ReportUnplaced(|groups|, distributed);
    return unplaced, Ok(());
  }

  /** The final loop: the groups that were not distributed. */
  method ReportUnplaced(n: nat, distributed: seq<nat>) returns (unplaced: seq<nat>)
    ensures unplaced == Unplaced(n, distributed)
  {
    unplaced := [];
    for groupId := 0 to n
      invariant unplaced == Unplaced(groupId, distributed)
    {
      if !(groupId in distributed) {
        unplaced := unplaced + [groupId];
      }
    }
  }

  /** A run over `t` names that succeeds is a successful run over `t - 1` followed by one more round. */
  lemma SectionsUnfold(fs: FileSystem, groupsubs: string, groups: seq<seq<string>>, allSections: seq<Json>, names: seq<string>, t: nat)
    requires 0 < t <= |names| && Headed(groups)
    requires Sections(fs, groupsubs, groups, allSections, names, t).Ok?
    ensures Sections(fs, groupsubs, groups, allSections, names, t - 1).Ok?
    ensures var acc := Sections(fs, groupsubs, groups, allSections, names, t - 1).value;
      Sections(fs, groupsubs, groups, allSections, names, t) == SectionStep(acc.0, acc.1, groupsubs, groups, allSections, names[t - 1])
  {
  }

  /** The KU id `m` belongs to the section named `name`, whose lookup succeeds. */
  predicate InSection(allSections: seq<Json>, name: string, m: string)
  {
    SectionIds(allSections, name).Ok? && m in SectionIds(allSections, name).value
  }

  /** A name whose section cannot be found makes every run that reaches it fail. */
  lemma SectionsMissingFails(fs: FileSystem, groupsubs: string, groups: seq<seq<string>>, allSections: seq<Json>, names: seq<string>, t: nat, s: nat)
    requires s < t <= |names| && Headed(groups)
    requires SectionIds(allSections, names[s]).Err?
    ensures Sections(fs, groupsubs, groups, allSections, names, t).Err?
  {
    assert Sections(fs, groupsubs, groups, allSections, names, s + 1).Err? by {
      SectionsFailAt(fs, groupsubs, groups, allSections, names, s);
    }
    SectionsErrUpTo(fs, groupsubs, groups, allSections, names, s + 1, t);
  }

  /** The round of a name whose section cannot be found fails, whatever came before. */
  lemma SectionsFailAt(fs: FileSystem, groupsubs: string, groups: seq<seq<string>>, allSections: seq<Json>, names: seq<string>, s: nat)
    requires s < |names| && Headed(groups)
    requires SectionIds(allSections, names[s]).Err?
    ensures Sections(fs, groupsubs, groups, allSections, names, s + 1).Err?
  {
    if Sections(fs, groupsubs, groups, allSections, names, s).Ok? {
      var acc := Sections(fs, groupsubs, groups, allSections, names, s).value;
      assert Sections(fs, groupsubs, groups, allSections, names, s + 1) == SectionStep(acc.0, acc.1, groupsubs, groups, allSections, names[s]);
      SectionStepFails(acc.0, acc.1, groupsubs, groups, allSections, names[s]);
    }
  }

  /** A round whose section cannot be found fails. */
  lemma SectionStepFails(fs: FileSystem, distributed: seq<nat>, groupsubs: string, groups: seq<seq<string>>, allSections: seq<Json>, name: string)
    requires Headed(groups)
    requires SectionIds(allSections, name).Err?
    ensures SectionStep(fs, distributed, groupsubs, groups, allSections, name).Err?
  {
  }

  /**
   * After a run over `t` names, a group has been distributed exactly when
   * its first member is among the KU ids of one of those sections.
   */
  lemma {:induction false} SectionsSpec(fs: FileSystem, groupsubs: string, groups: seq<seq<string>>, allSections: seq<Json>, names: seq<string>, t: nat, i: nat)
    requires t <= |names| && Headed(groups)
    requires Sections(fs, groupsubs, groups, allSections, names, t).Ok?
    ensures i in Sections(fs, groupsubs, groups, allSections, names, t).value.1 <==>
      i < |groups| && exists s :: 0 <= s < t && InSection(allSections, names[s], groups[i][0])
    decreases t
  {
    if t > 0 {
      SectionsUnfold(fs, groupsubs, groups, allSections, names, t);
      var acc := Sections(fs, groupsubs, groups, allSections, names, t - 1).value;
      SectionsSpec(fs, groupsubs, groups, allSections, names, t - 1, i);
      SectionStepPlaced(acc.0, acc.1, groupsubs, groups, allSections, names[t - 1], i);
      var d := Sections(fs, groupsubs, groups, allSections, names, t).value.1;
      if i in d {
        if i in acc.1 {
          var s :| 0 <= s < t - 1 && InSection(allSections, names[s], groups[i][0]);
          assert 0 <= s < t && InSection(allSections, names[s], groups[i][0]);
        } else {
          assert InSection(allSections, names[t - 1], groups[i][0]);
        }
      }
      if i < |groups| && exists s :: 0 <= s < t && InSection(allSections, names[s], groups[i][0]) {
        var s :| 0 <= s < t && InSection(allSections, names[s], groups[i][0]);
        if s < t - 1 {
          assert i in acc.1;
        }
      }
    }
  }

  /**
   * A run over all the names that succeeds has found every named section,
   * and its report names exactly the groups whose first member is in none
   * of them.
   */
  lemma ReportSpec(fs: FileSystem, groupsubs: string, groups: seq<seq<string>>, allSections: seq<Json>, names: seq<string>, i: nat)
    requires Headed(groups)
    requires Sections(fs, groupsubs, groups, allSections, names, |names|).Ok?
    ensures forall s :: 0 <= s < |names| ==> SectionIds(allSections, names[s]).Ok?
    ensures i in Unplaced(|groups|, Sections(fs, groupsubs, groups, allSections, names, |names|).value.1) <==>
      i < |groups| && forall s :: 0 <= s < |names| ==> !InSection(allSections, names[s], groups[i][0])
  {
    forall s | 0 <= s < |names| ensures SectionIds(allSections, names[s]).Ok? {
      if SectionIds(allSections, names[s]).Err? {
        SectionsMissingFails(fs, groupsubs, groups, allSections, names, |names|, s);
        assert false;
      }
    }
    SectionsSpec(fs, groupsubs, groups, allSections, names, |names|, i);
    UnplacedSpec(|groups|, Sections(fs, groupsubs, groups, allSections, names, |names|).value.1);
  }
}
