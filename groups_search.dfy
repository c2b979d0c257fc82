/**
 * contrib/groups/groups-search.py: the groups a KU id is a member of,
 * reported one zero-padded group number per line.
 */
module GroupsSearch {
  import opened Common
  import opened GroupsFile

  /** The numbers of the groups that list `kuId`, in ascending order. */
  function Hits(groups: seq<seq<string>>, kuId: string): seq<nat>
  {
    if groups == [] then []
    else Hits(groups[..|groups| - 1], kuId) + (if kuId in groups[|groups| - 1] then [|groups| - 1] else [])
  }

  /** The lines `search` prints. */
  function Report(hits: seq<nat>): (out: seq<string>)
    ensures |out| == |hits|
    ensures forall i :: 0 <= i < |hits| ==> out[i] == Pad3(hits[i])
  {
    if hits == [] then [] else Report(hits[..|hits| - 1]) + [Pad3(hits[|hits| - 1])]
  }

  /** `search(groups_file, ku_id)` on the file's contents: the printed lines and the exit status. */
  method Search(contents: string, kuId: string) returns (out: seq<string>, status: int)
    ensures out == Report(Hits(ParseGroups(contents), kuId))
    ensures status == 0
  {
    out := SearchGroups(ParseGroups(contents), kuId);
    status := 0;
  }

  /** The loop of `search` over the parsed groups: one line per group that lists `kuId`. */
  method SearchGroups(groups: seq<seq<string>>, kuId: string) returns (out: seq<string>)
    ensures out == Report(Hits(groups, kuId))
  {
    out := [];
    ghost var hits: seq<nat> := [];
    for i := 0 to |groups|
      invariant hits == Hits(groups[..i], kuId)
      invariant out == Report(hits)
    {
      HitsPrefix(groups, kuId, i);
      if kuId in groups[i] {
        ReportSnoc(hits, i);
        hits := hits + [i];
        out := out + [Pad3(i)];
      }
    }
    assert groups[..|groups|] == groups;
  }

  /** One more group of the file adds its number exactly when it lists the id. */
  lemma HitsPrefix(groups: seq<seq<string>>, kuId: string, i: nat)
    requires i < |groups|
    ensures Hits(groups[..i + 1], kuId) == Hits(groups[..i], kuId) + (if kuId in groups[i] then [i] else [])
  {
    assert groups[..i + 1][..i] == groups[..i];
  }

  lemma ReportSnoc(hits: seq<nat>, h: nat)
    ensures Report(hits + [h]) == Report(hits) + [Pad3(h)]
  {
    assert (hits + [h])[..|hits|] == hits;
  }

  /** A group number is reported exactly when that group lists the id (exact string equality). */
  lemma {:induction false} HitsMember(groups: seq<seq<string>>, kuId: string)
    ensures forall i: nat :: i in Hits(groups, kuId) <==> i < |groups| && kuId in groups[i]
    decreases |groups|
  {
    if groups != [] {
      var n := |groups| - 1;
      HitsMember(groups[..n], kuId);
      assert forall i :: 0 <= i < n ==> groups[..n][i] == groups[i];
    }
  }

  /**
   * The reported numbers are strictly ascending, and an id in no group
   * reports nothing.
   */
  lemma HitsSpec(groups: seq<seq<string>>, kuId: string)
    ensures forall a, b :: 0 <= a < b < |Hits(groups, kuId)| ==> Hits(groups, kuId)[a] < Hits(groups, kuId)[b]
    ensures (forall i :: 0 <= i < |groups| ==> kuId !in groups[i]) ==> Hits(groups, kuId) == []
  {
    HitsAscending(groups, kuId);
    HitsMember(groups, kuId);
    if Hits(groups, kuId) != [] {
      assert Hits(groups, kuId)[0] in Hits(groups, kuId);
    }
  }

  /** Every reported number is that of a group in the file. */
  lemma HitsBelow(groups: seq<seq<string>>, kuId: string)
    ensures forall a :: 0 <= a < |Hits(groups, kuId)| ==> Hits(groups, kuId)[a] < |groups|
  {
    HitsMember(groups, kuId);
    forall a | 0 <= a < |Hits(groups, kuId)| ensures Hits(groups, kuId)[a] < |groups| {
      assert Hits(groups, kuId)[a] in Hits(groups, kuId);
    }
  }

  lemma {:induction false} HitsAscending(groups: seq<seq<string>>, kuId: string)
    ensures forall a, b :: 0 <= a < b < |Hits(groups, kuId)| ==> Hits(groups, kuId)[a] < Hits(groups, kuId)[b]
    decreases |groups|
  {
    if groups != [] {
      var n := |groups| - 1;
      var h := Hits(groups[..n], kuId);
      HitsAscending(groups[..n], kuId);
      HitsBelow(groups[..n], kuId);
      var all := Hits(groups, kuId);
      assert all == h + (if kuId in groups[n] then [n] else []);
      forall a, b | 0 <= a < b < |all| ensures all[a] < all[b] {
        assert all[a] == h[a];
        if b < |h| {
          assert all[b] == h[b];
        } else {
          assert all[b] == n;
        }
      }
    }
  }

  /** The printed lines name distinct groups and can be read back as numbers. */
  lemma ReportDistinct(hits: seq<nat>, a: nat, b: nat)
    requires a < |hits| && b < |hits| && Report(hits)[a] == Report(hits)[b]
    ensures hits[a] == hits[b]
  {
    Pad3Injective(hits[a], hits[b]);
  }
}
