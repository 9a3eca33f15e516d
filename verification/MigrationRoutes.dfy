/**
The site order of a migrated route. The planner counts targets with one loop and the applier inserts them with
another; the loops test eligibility and duplication in opposite orders and on different keys.
*/
module MigrationRoutes {

  /** A legacy target whose model, endpoint and upstream were found: the site group it belongs to, whether its
      protocol can be routed, and whether it is enabled. */
  datatype Target<!G(==)> = Target(id: int, group: G, eligible: bool, enabled: bool)

  datatype Row = Row(target: int, site: int, position: nat, enabled: bool)

  /** Where a group's targets end up. Every group is placed before any route is migrated. */
  type Placement<!G> = G -> int

  // ----- what the order should be

  /** The i-th target is the first routable one of its site. */
  predicate FirstOfSite<G>(ts: seq<Target<G>>, place: Placement<G>, i: int) {
    && 0 <= i < |ts| && ts[i].eligible
    && forall j :: 0 <= j < i && ts[j].eligible ==> place(ts[j].group) != place(ts[i].group)
  }

  function EligibleGroups<G>(ts: seq<Target<G>>): set<G> {
    set i | 0 <= i < |ts| && ts[i].eligible :: ts[i].group
  }

  function Image<G>(groups: set<G>, place: Placement<G>): set<int> {
    set g | g in groups :: place(g)
  }

  /** Distinct groups are placed on distinct sites. */
  predicate Separated<G>(groups: set<G>, place: Placement<G>) {
    forall g, h :: g in groups && h in groups && place(g) == place(h) ==> g == h
  }

  /** The rows inserted for the targets, in the legacy order. */
  function Rows<G(==)>(ts: seq<Target<G>>, place: Placement<G>): seq<Row> {
    if ts == [] then []
    else
      var n := |ts| - 1;
      var rest := Rows(ts[..n], place);
      if FirstOfSite(ts, place, n) then rest + [Row(ts[n].id, place(ts[n].group), |rest|, ts[n].enabled)] else rest
  }

  // ----- the planner's loop

  method PlanTargets<G(==)>(ts: seq<Target<G>>) returns (planned: nat, skipped: nat)
    ensures planned == |EligibleGroups(ts)|
    ensures skipped <= |ts|
    ensures skipped == 0 <==>
      forall i :: 0 <= i < |ts| && !ts[i].eligible ==> ts[i].group in EligibleGroups(ts[..i])
  {
    planned, skipped := 0, 0;
    var seen: set<G> := {};
    for i := 0 to |ts|
      invariant seen == EligibleGroups(ts[..i]) && planned == |seen| && skipped <= i
      invariant skipped == 0 <==>
        forall k :: 0 <= k < i && !ts[k].eligible ==> ts[k].group in EligibleGroups(ts[..k])
    {
      var t := ts[i];
      GroupsGrow(ts, i);
      if t.group in seen {
        continue;
      }
      if !t.eligible {
        skipped := skipped + 1;
        continue;
      }
      seen := seen + {t.group};
      planned := planned + 1;
    }
    assert ts[..|ts|] == ts;
  }

  lemma GroupsGrow<G>(ts: seq<Target<G>>, i: nat)
    requires i < |ts|
    ensures EligibleGroups(ts[..i + 1]) == EligibleGroups(ts[..i]) + (if ts[i].eligible then {ts[i].group} else {})
  {
    var before, after := ts[..i], ts[..i + 1];
    assert forall k :: 0 <= k < i ==> before[k] == after[k];
    if ts[i].eligible { assert after[i].eligible && after[i].group == ts[i].group; }
    forall g | g in EligibleGroups(before) ensures g in EligibleGroups(after) {
      var k :| 0 <= k < i && before[k].eligible && before[k].group == g;
      assert after[k].eligible && after[k].group == g;
    }
  }

  // ----- the applier's loop

  method ApplyTargets<G(==)>(ts: seq<Target<G>>, place: Placement<G>) returns (rows: seq<Row>)
    ensures rows == Rows(ts, place)
  {
    rows := [];
    var seen: set<int> := {};
    var position := 0;
    for n := 0 to |ts|
      invariant rows == Rows(ts[..n], place) && position == |rows|
      invariant seen == Sites(ts, place, n)
    {
      var t := ts[n];
      SitesGrow(ts, place, n);
      RowsGrow(ts, place, n);
      if !t.eligible {
        continue;
      }
      SeenSites(ts, place, n);
      if place(t.group) in seen {
        continue;
      }
      seen := seen + {place(t.group)};
      rows := rows + [Row(t.id, place(t.group), position, t.enabled)];
      position := position + 1;
    }
    assert ts[..|ts|] == ts;
  }

  /** The rows of a published model are exactly the first routable targets of their sites, in the legacy order and
      numbered from zero; `picks` are the indices of those targets. */
  lemma {:induction false} RowsAre<G>(ts: seq<Target<G>>, place: Placement<G>) returns (picks: seq<nat>)
    ensures RowsOf(ts, place, Rows(ts, place), picks)
    ensures PickedBefore(ts, place, picks, |ts|)
  {
    if ts == [] {
      picks := [];
    } else {
      var n := |ts| - 1;
      picks := RowsAre(ts[..n], place);
      PrefixRows(ts, place, n, picks);
      if FirstOfSite(ts, place, n) {
        PickOne(ts, place, Rows(ts[..n], place), picks, n);
        picks := picks + [n];
      }
    }
  }

  lemma PrefixRows<G>(ts: seq<Target<G>>, place: Placement<G>, n: nat, picks: seq<nat>)
    requires n <= |ts| && RowsOf(ts[..n], place, Rows(ts[..n], place), picks) && PickedBefore(ts[..n], place, picks, n)
    ensures RowsOf(ts, place, Rows(ts[..n], place), picks) && PickedBefore(ts, place, picks, n)
  {
    assert forall i :: 0 <= i < n ==> ts[..n][i] == ts[i];
    assert forall i :: 0 <= i < n ==> FirstOfSite(ts[..n], place, i) == FirstOfSite(ts, place, i);
  }

  ghost predicate RowsOf<G>(ts: seq<Target<G>>, place: Placement<G>, rows: seq<Row>, picks: seq<nat>) {
    && |picks| == |rows|
    && (forall k, l :: 0 <= k < l < |picks| ==> picks[k] < picks[l])
    && forall k :: 0 <= k < |rows| ==>
      && picks[k] < |ts|
      && rows[k] == Row(ts[picks[k]].id, place(ts[picks[k]].group), k, ts[picks[k]].enabled)
  }

  /** Of the first `n` targets, the picked ones are exactly the first routable ones of their sites. */
  ghost predicate PickedBefore<G>(ts: seq<Target<G>>, place: Placement<G>, picks: seq<nat>, n: nat) {
    && (forall k :: 0 <= k < |picks| ==> picks[k] < n && FirstOfSite(ts, place, picks[k]))
    && (forall i :: 0 <= i < n && FirstOfSite(ts, place, i) ==> i in picks)
  }

  lemma PickOne<G>(ts: seq<Target<G>>, place: Placement<G>, rows: seq<Row>, picks: seq<nat>, n: nat)
    requires RowsOf(ts, place, rows, picks) && PickedBefore(ts, place, picks, n) && FirstOfSite(ts, place, n)
    ensures PickedBefore(ts, place, picks + [n], n + 1)
    ensures RowsOf(ts, place, rows + [Row(ts[n].id, place(ts[n].group), |rows|, ts[n].enabled)], picks + [n])
  {
    var picks' := picks + [n];
    assert picks'[|picks|] == n;
    forall i | 0 <= i < n + 1 && FirstOfSite(ts, place, i) ensures i in picks' {
      if i < n { assert i in picks; }
    }
  }

  lemma RowsGrow<G>(ts: seq<Target<G>>, place: Placement<G>, n: nat)
    requires n < |ts|
    ensures var rest := Rows(ts[..n], place);
      Rows(ts[..n + 1], place) ==
        if FirstOfSite(ts, place, n) then rest + [Row(ts[n].id, place(ts[n].group), |rest|, ts[n].enabled)] else rest
  {
    var prefix := ts[..n + 1];
    assert prefix[..n] == ts[..n] && prefix[n] == ts[n];
    assert forall j :: 0 <= j < n ==> prefix[j] == ts[j];
    assert FirstOfSite(prefix, place, n) == FirstOfSite(ts, place, n);
  }

  lemma ImageGrows<G>(groups: set<G>, g: G, place: Placement<G>)
    ensures Image(groups + {g}, place) == Image(groups, place) + {place(g)}
  {
    assert g in groups + {g};
    forall x | x in groups ensures place(x) in Image(groups + {g}, place) { assert x in groups + {g}; }
  }

  /** The sites of the routable targets among the first `n`. */
  function Sites<G>(ts: seq<Target<G>>, place: Placement<G>, n: nat): set<int>
    requires n <= |ts|
  {
    Image(EligibleGroups(ts[..n]), place)
  }

  lemma SitesGrow<G>(ts: seq<Target<G>>, place: Placement<G>, n: nat)
    requires n < |ts|
    ensures Sites(ts, place, n + 1) == Sites(ts, place, n) + (if ts[n].eligible then {place(ts[n].group)} else {})
  {
    GroupsGrow(ts, n);
    ImageGrows(EligibleGroups(ts[..n]), ts[n].group, place);
    if !ts[n].eligible { assert EligibleGroups(ts[..n + 1]) == EligibleGroups(ts[..n]); }
  }

  lemma SeenSites<G>(ts: seq<Target<G>>, place: Placement<G>, n: nat)
    requires n < |ts| && ts[n].eligible
    ensures place(ts[n].group) !in Sites(ts, place, n) <==> FirstOfSite(ts, place, n)
  {
    var before := ts[..n];
    if place(ts[n].group) in Image(EligibleGroups(before), place) {
      var g :| g in EligibleGroups(before) && place(g) == place(ts[n].group);
      var j :| 0 <= j < n && before[j].eligible && before[j].group == g;
      assert ts[j].eligible && place(ts[j].group) == place(ts[n].group);
    } else {
      forall j | 0 <= j < n && ts[j].eligible ensures place(ts[j].group) in Image(EligibleGroups(before), place) {
        assert before[j].eligible && before[j].group in EligibleGroups(before);
      }
    }
  }

  // ----- the order that comes out

  /** A published model never has two rows for one site, every site of a routable target has its row, from that target
      or an earlier one, and there are as many rows as such sites. */
  lemma OneRowPerSite<G>(ts: seq<Target<G>>, place: Placement<G>) returns (picks: seq<nat>)
    ensures var rows := Rows(ts, place);
      && RowsOf(ts, place, rows, picks)
      && (forall k, l :: 0 <= k < l < |rows| ==> rows[k].site != rows[l].site)
      && (forall i :: 0 <= i < |ts| && ts[i].eligible ==>
           exists k :: 0 <= k < |rows| && rows[k].site == place(ts[i].group) && picks[k] <= i)
  {
    picks := RowsAre(ts, place);
    var rows := Rows(ts, place);
    forall k, l | 0 <= k < l < |rows| ensures rows[k].site != rows[l].site {
      assert FirstOfSite(ts, place, picks[k]) && FirstOfSite(ts, place, picks[l]);
    }
    forall i | 0 <= i < |ts| && ts[i].eligible
      ensures exists k :: 0 <= k < |rows| && rows[k].site == place(ts[i].group) && picks[k] <= i
    {
      var j := FirstIndex(ts, place, i);
      assert j in picks;
      var k :| 0 <= k < |picks| && picks[k] == j;
    }
  }

  lemma {:induction false} RowCount<G>(ts: seq<Target<G>>, place: Placement<G>, n: nat)
    requires n <= |ts|
    ensures |Rows(ts[..n], place)| == |Sites(ts, place, n)|
  {
    if n == 0 {
      assert Sites(ts, place, 0) == {};
    } else {
      RowCount(ts, place, n - 1);
      RowsGrow(ts, place, n - 1);
      SitesGrow(ts, place, n - 1);
      var before := Sites(ts, place, n - 1);
      if ts[n - 1].eligible {
        var site := place(ts[n - 1].group);
        SeenSites(ts, place, n - 1);
        assert Sites(ts, place, n) == before + {site};
        if site in before { assert before + {site} == before; }
      } else {
        assert Sites(ts, place, n) == before;
      }
    }
  }

  lemma {:induction false} FirstIndex<G>(ts: seq<Target<G>>, place: Placement<G>, i: nat) returns (j: nat)
    requires i < |ts| && ts[i].eligible
    ensures j <= i && FirstOfSite(ts, place, j) && place(ts[j].group) == place(ts[i].group)
  {
    j := i;
    if !FirstOfSite(ts, place, i) {
      var k :| 0 <= k < i && ts[k].eligible && place(ts[k].group) == place(ts[i].group);
      j := FirstIndex(ts, place, k);
    }
  }

  lemma {:induction false} ImageSize<G>(groups: set<G>, place: Placement<G>)
    ensures |Image(groups, place)| <= |groups|
    ensures |Image(groups, place)| == |groups| <==> Separated(groups, place)
    decreases |groups|
  {
    if groups == {} {
      assert Image(groups, place) == {};
    } else {
      var g :| g in groups;
      var rest := groups - {g};
      ImageSize(rest, place);
      assert groups == rest + {g};
      ImageGrows(rest, g, place);
      if place(g) in Image(rest, place) {
        var h :| h in rest && place(h) == place(g);
        assert !Separated(groups, place);
      } else {
        assert forall x :: x in rest ==> place(x) in Image(rest, place);
        if Separated(groups, place) { assert Separated(rest, place); }
      }
    }
  }

  /** The number of targets the planner announces is the number of rows the applier inserts exactly when distinct
      routable groups of the route are placed on distinct sites; otherwise it announces more. */
  lemma PlannedAreInserted<G>(ts: seq<Target<G>>, place: Placement<G>)
    ensures var planned, inserted := |EligibleGroups(ts)|, |Rows(ts, place)|;
      inserted <= planned && (inserted == planned <==> Separated(EligibleGroups(ts), place))
  {
    RowCount(ts, place, |ts|);
    assert ts[..|ts|] == ts;
    ImageSize(EligibleGroups(ts), place);
  }

  /** Two groups that an earlier migration mapped to one site: two targets are planned, one is inserted. */
  lemma PlannerOvercounts()
    ensures var ts := [Target(1, 10, true, true), Target(2, 20, true, true)];
      |EligibleGroups(ts)| == 2 && |Rows(ts, (g: int) => 7)| == 1
  {
    var ts := [Target(1, 10, true, true), Target(2, 20, true, true)];
    assert ts[0].group == 10 && ts[1].group == 20;
    assert EligibleGroups(ts) == {10, 20};
    assert 10 in EligibleGroups(ts);
    var place := (g: int) => 7;
    assert ts[..1] == [ts[0]] && ts[..1][..0] == [];
    assert FirstOfSite(ts[..1], place, 0) && !FirstOfSite(ts, place, 1);
  }
}
