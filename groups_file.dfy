/**
 * The groups file shared by the scripts under contrib/groups: one group
 * per line, members separated by single spaces, the whole file stripped
 * of surrounding white space; and the `next(filter(...))` lookup of a
 * record by exact name that two of the scripts use.
 */
module GroupsFile {
  import opened Common
  import opened Os

  /** `[line.split(' ') for line in contents.strip().split('\n')]`. */
  function ParseGroups(contents: string): (groups: seq<seq<string>>)
    ensures |groups| >= 1
    ensures forall i :: 0 <= i < |groups| ==> |groups[i]| >= 1
  {
    LineGroups(Strip(contents))
  }

  /** The members of each newline-separated line of `text`. */
  function LineGroups(text: string): seq<seq<string>>
  {
    var lines := Split(text, "\n");
    seq(|lines|, i requires 0 <= i < |lines| => Split(lines[i], " "))
  }

  /** A groups file written from `groups`: members joined by spaces, groups by newlines. */
  function Render(groups: seq<seq<string>>): string
  {
    Join(seq(|groups|, i requires 0 <= i < |groups| => Join(groups[i], " ")), "\n")
  }

  /** Parsing yields members free of spaces and newlines that render back to the stripped contents. */
  lemma ParseGroupsSpec(contents: string)
    ensures forall i, j :: 0 <= i < |ParseGroups(contents)| && 0 <= j < |ParseGroups(contents)[i]| ==>
      ' ' !in ParseGroups(contents)[i][j] && '\n' !in ParseGroups(contents)[i][j]
    ensures Render(ParseGroups(contents)) == Strip(contents)
  {
    LineGroupsSpec(Strip(contents));
  }

  lemma LineGroupsSpec(text: string)
    ensures forall i, j :: 0 <= i < |LineGroups(text)| && 0 <= j < |LineGroups(text)[i]| ==>
      ' ' !in LineGroups(text)[i][j] && '\n' !in LineGroups(text)[i][j]
    ensures Render(LineGroups(text)) == text
  {
    var lines := Split(text, "\n");
    var groups := LineGroups(text);
    SplitCharPieces(text, '\n');
    forall i | 0 <= i < |lines|
      ensures forall j :: 0 <= j < |groups[i]| ==> ' ' !in groups[i][j] && '\n' !in groups[i][j]
      ensures Join(groups[i], " ") == lines[i]
    {
      LineSpec(lines[i]);
    }
    assert seq(|groups|, i requires 0 <= i < |groups| => Join(groups[i], " ")) == lines;
    JoinSplit(text, "\n");
  }

  /** A line free of newlines splits into members free of spaces and newlines that join back to it. */
  lemma LineSpec(line: string)
    requires '\n' !in line
    ensures forall j :: 0 <= j < |Split(line, " ")| ==> ' ' !in Split(line, " ")[j] && '\n' !in Split(line, " ")[j]
    ensures Join(Split(line, " "), " ") == line
  {
    SplitCharPieces(line, ' ');
    JoinSplit(line, " ");
    forall j | 0 <= j < |Split(line, " ")| ensures '\n' !in Split(line, " ")[j] {
      SplitPiecesIn(line, " ", j);
    }
  }

  /** A piece of a split holds only characters of the text split. */
  lemma {:induction false} SplitPiecesIn(s: string, sep: string, k: nat)
    requires |sep| > 0 && k < |Split(s, sep)|
    ensures forall c :: c in Split(s, sep)[k] ==> c in s
    decreases |s|
  {
    match Find(sep, s)
    case None =>
    case Some(i) =>
      var rest := s[i + |sep|..];
      assert Split(s, sep) == [s[..i]] + Split(rest, sep);
      if k > 0 {
        SplitPiecesIn(rest, sep, k - 1);
      }
  }

  /** A member id as the file can hold it: non-empty and free of white space. */
  predicate MemberId(m: string)
  {
    |m| >= 1 && forall k :: 0 <= k < |m| ==> !IsSpace(m[k])
  }

  /** At least one group, every group with at least one member. */
  predicate WellFormedGroups(groups: seq<seq<string>>)
  {
    |groups| >= 1 &&
    forall i :: 0 <= i < |groups| ==> |groups[i]| >= 1 && forall j :: 0 <= j < |groups[i]| ==> MemberId(groups[i][j])
  }

  lemma {:induction false} JoinHead(parts: seq<string>, sep: string)
    requires |parts| >= 1 && |parts[0]| >= 1
    ensures |Join(parts, sep)| >= 1 && Join(parts, sep)[0] == parts[0][0]
  {
  }

  lemma {:induction false} JoinLast(parts: seq<string>, sep: string)
    requires |parts| >= 1 && |parts[|parts| - 1]| >= 1
    ensures |Join(parts, sep)| >= 1
    ensures Join(parts, sep)[|Join(parts, sep)| - 1] == parts[|parts| - 1][|parts[|parts| - 1]| - 1]
    decreases |parts|
  {
    if |parts| > 1 {
      JoinLast(parts[1..], sep);
    }
  }

  /** Rendering well-formed groups and parsing the text gives the groups back. */
  lemma ParseRender(groups: seq<seq<string>>)
    requires WellFormedGroups(groups)
    ensures ParseGroups(Render(groups)) == groups
  {
    var lines := seq(|groups|, i requires 0 <= i < |groups| => Join(groups[i], " "));
    forall i | 0 <= i < |groups|
      ensures '\n' !in lines[i] && Split(lines[i], " ") == groups[i]
    {
      LineRoundTrip(groups[i]);
    }
    RenderUnstripped(groups, lines);
    SplitJoinChar(lines, '\n');
  }

  /** One group's line holds no newline and splits back into its members. */
  lemma LineRoundTrip(members: seq<string>)
    requires |members| >= 1 && forall j :: 0 <= j < |members| ==> MemberId(members[j])
    ensures '\n' !in Join(members, " ") && Split(Join(members, " "), " ") == members
  {
    forall j | 0 <= j < |members| ensures ' ' !in members[j] && '\n' !in members[j] {
      forall c | c in members[j] ensures !IsSpace(c) {
        var k :| 0 <= k < |members[j]| && members[j][k] == c;
      }
    }
    JoinChar(members, " ", '\n');
    SplitJoinChar(members, ' ');
  }

  /** The rendered text starts and ends with a member's character, so stripping keeps it. */
  lemma RenderUnstripped(groups: seq<seq<string>>, lines: seq<string>)
    requires WellFormedGroups(groups)
    requires lines == seq(|groups|, i requires 0 <= i < |groups| => Join(groups[i], " "))
    ensures Strip(Render(groups)) == Join(lines, "\n")
  {
    JoinHead(groups[0], " ");
    JoinLast(groups[|groups| - 1], " ");
    JoinHead(lines, "\n");
    JoinLast(lines, "\n");
    StripKeeps(Render(groups));
  }

  // ---------------------------------------------------------------- next(filter(...))

  /**
   * `next(filter(lambda r: r['name'] == name, records))`: the first record
   * named `name`; a record examined before it without a `name` fails, and
   * so does the end of the list.
   */
  function FirstWithName(records: seq<Json>, name: string): Result<Json>
  {
    if records == [] then Err(Failure("StopIteration"))
    else if !records[0].JObj? || "name" !in records[0].fields then Err(Failure("KeyError: name"))
    else if records[0].fields["name"] == JStr(name) then Ok(records[0])
    else FirstWithName(records[1..], name)
  }

  predicate Named(r: Json)
  {
    r.JObj? && "name" in r.fields
  }

  /** The record at `i` is named `name` and every one before it is named otherwise. */
  predicate FirstAt(records: seq<Json>, name: string, i: int)
  {
    0 <= i < |records| && Named(records[i]) && records[i].fields["name"] == JStr(name) &&
    forall j :: 0 <= j < i ==> Named(records[j]) && records[j].fields["name"] != JStr(name)
  }

  /** The lookup succeeds exactly when some record is first named `name`, and then returns that record. */
  lemma {:induction false} FirstWithNameSpec(records: seq<Json>, name: string)
    ensures FirstWithName(records, name).Ok? <==> exists i :: FirstAt(records, name, i)
    ensures forall i :: FirstAt(records, name, i) ==> FirstWithName(records, name) == Ok(records[i])
    decreases |records|
  {
    if records != [] && Named(records[0]) && records[0].fields["name"] != JStr(name) {
      FirstWithNameSpec(records[1..], name);
      forall i | FirstAt(records, name, i) ensures FirstAt(records[1..], name, i - 1) {
        assert i > 0;
        assert forall j :: 0 <= j < i - 1 ==> records[1..][j] == records[j + 1];
      }
      forall i | FirstAt(records[1..], name, i) ensures FirstAt(records, name, i + 1) {
        assert forall j :: 1 <= j < i + 1 ==> records[j] == records[1..][j - 1];
      }
    } else if records != [] && Named(records[0]) {
      assert FirstAt(records, name, 0);
      forall i | FirstAt(records, name, i) ensures i == 0 {
      }
    } else if records != [] {
      forall i | FirstAt(records, name, i) ensures false {
      }
    }
  }

  // ---------------------------------------------------------------- group folders

  /** `os.path.join(base, '{:03d}'.format(i))`. */
  function GroupPath(base: string, i: nat): string
  {
    PathJoin(base, Pad3(i))
  }

  /** Distinct groups get distinct folders. */
  lemma GroupPathInjective(base: string, i: nat, j: nat)
    requires GroupPath(base, i) == GroupPath(base, j)
    ensures i == j
  {
    assert Pad3(i) == GroupPath(base, i)[|base| + 1..];
    assert Pad3(j) == GroupPath(base, j)[|base| + 1..];
    Pad3Injective(i, j);
  }
}
