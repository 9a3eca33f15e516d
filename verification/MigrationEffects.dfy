/**
What a successful migration leaves in the tables, told from the legacy rows: where every upstream is placed, what every
published model contains, what every account holds; and how that compares with what the plan announced.
*/
module MigrationEffects {
  import opened Wrappers
  import opened MigrationAccounts
  import opened Migration
  import opened MigrationTheorems
  import Routes = MigrationRoutes

  // ----- published models

  /** Model ids are handed out in increasing order, and names are unique. */
  ghost predicate ModelsOk(db: Db) {
    && (forall m :: m in db.names ==> m < db.nextModel)
    && (forall m :: m in db.rows ==> m < db.nextModel)
    && (forall m, n :: m in db.names && n in db.names && db.names[m] == db.names[n] ==> m == n)
  }

  /** The target's model and endpoint belong to one upstream, whose protocol can be routed. */
  predicate Routable(l: Legacy, t: LegacyTarget) {
    && t.model.Some? && t.endpoint == t.model
    && exists i :: 0 <= i < |l.upstreams| && l.upstreams[i].id == t.model.value && l.upstreams[i].routable
  }

  /** Where the target's upstream is; nowhere is never asked for. */
  function SiteOf(siteOf: map<int, int>, t: LegacyTarget): int {
    if t.model.Some? && t.model.value in siteOf then siteOf[t.model.value] else 0
  }

  /** The rows of a published model: of the routable targets exactly the first on each site, in the legacy order and at
      positions 0, 1, 2, ...; `picks` are their indices. */
  ghost predicate Published(l: Legacy, siteOf: map<int, int>, ts: seq<LegacyTarget>, rows: seq<Routes.Row>,
      picks: seq<nat>)
  {
    && |picks| == |rows|
    && (forall k, n :: 0 <= k < n < |picks| ==> picks[k] < picks[n])
    && (forall k :: 0 <= k < |rows| ==>
         && picks[k] < |ts| && FirstThere(l, siteOf, ts, picks[k])
         && rows[k] == Routes.Row(ts[picks[k]].id, SiteOf(siteOf, ts[picks[k]]), k, ts[picks[k]].enabled))
    && forall i :: 0 <= i < |ts| && FirstThere(l, siteOf, ts, i) ==> i in picks
  }

  predicate FirstThere(l: Legacy, siteOf: map<int, int>, ts: seq<LegacyTarget>, i: int) {
    && 0 <= i < |ts| && Routable(l, ts[i])
    && forall j :: 0 <= j < i && Routable(l, ts[j]) ==> SiteOf(siteOf, ts[j]) != SiteOf(siteOf, ts[i])
  }

  /** The resolved targets are the valid ones, with what their upstreams say. */
  ghost predicate ResolvedAt(l: Legacy, ts: seq<LegacyTarget>, idx: seq<nat>, r: seq<Routes.Target<GroupKey>>) {
    && |idx| == |r|
    && (forall k, n :: 0 <= k < n < |idx| ==> idx[k] < idx[n])
    && (forall k :: 0 <= k < |idx| ==> idx[k] < |ts| && ResolvesTo(l, ts[idx[k]], r[k]))
    && forall i :: 0 <= i < |ts| && Routable(l, ts[i]) ==> i in idx
  }

  ghost predicate ResolvesTo(l: Legacy, t: LegacyTarget, r: Routes.Target<GroupKey>) {
    && r.id == t.id && r.enabled == t.enabled && t.model.Some?
    && (r.eligible <==> Routable(l, t))
    && exists u :: u in l.upstreams && u.id == t.model.value && KeyOf(u) == r.group
  }

  lemma ResolveOne(l: Legacy, t: LegacyTarget)
    requires DistinctUpstreams(l.upstreams) && ValidTarget(l, t)
    ensures t.model.value in UpstreamIds(l.upstreams)
    ensures var u := l.upstreams[Find(l.upstreams, t.model.value)];
      ResolvesTo(l, t, Routes.Target(t.id, KeyOf(u), u.routable, t.enabled))
  {
    var u := l.upstreams[Find(l.upstreams, t.model.value)];
    assert u in l.upstreams;
    if Routable(l, t) {
      var i :| 0 <= i < |l.upstreams| && l.upstreams[i].id == t.model.value && l.upstreams[i].routable;
      assert i == Find(l.upstreams, t.model.value);
    }
  }

  lemma {:induction false} ResolveIs(l: Legacy, ts: seq<LegacyTarget>) returns (idx: seq<nat>)
    requires DistinctUpstreams(l.upstreams)
    ensures ResolvedAt(l, ts, idx, Resolve(l, ts))
  {
    if ts == [] {
      idx := [];
    } else {
      var n := |ts| - 1;
      idx := ResolveIs(l, ts[..n]);
      assert forall i :: 0 <= i < n ==> ts[..n][i] == ts[i];
      if ValidTarget(l, ts[n]) {
        ResolveOne(l, ts[n]);
        idx := idx + [n];
        assert idx[|idx| - 1] == n;
      }
    }
  }

  /** Every upstream stands where its group has its home. */
  ghost predicate Placed(l: Legacy, siteOf: map<int, int>, home: Routes.Placement<GroupKey>) {
    forall u :: u in l.upstreams ==> u.id in siteOf && siteOf[u.id] == home(KeyOf(u))
  }

  lemma SiteIsHome(l: Legacy, siteOf: map<int, int>, home: Routes.Placement<GroupKey>, t: LegacyTarget,
      r: Routes.Target<GroupKey>)
    requires Placed(l, siteOf, home) && ResolvesTo(l, t, r)
    ensures SiteOf(siteOf, t) == home(r.group)
  {
  }

  /** From the resolved targets back to the legacy ones. */
  lemma RowsPublished(l: Legacy, siteOf: map<int, int>, home: Routes.Placement<GroupKey>, ts: seq<LegacyTarget>)
    returns (picks: seq<nat>)
    requires DistinctUpstreams(l.upstreams) && Placed(l, siteOf, home)
    ensures Published(l, siteOf, ts, Routes.Rows(Resolve(l, ts), home), picks)
  {
    var r := Resolve(l, ts);
    var idx := ResolveIs(l, ts);
    var chosen := Routes.RowsAre(r, home);
    forall k | 0 <= k < |r| ensures SiteOf(siteOf, ts[idx[k]]) == home(r[k].group) {
      SiteIsHome(l, siteOf, home, ts[idx[k]], r[k]);
    }
    forall k | 0 <= k < |r|
      ensures Routes.FirstOfSite(r, home, k) <==> FirstThere(l, siteOf, ts, idx[k])
    {
      FirstMeansFirst(l, siteOf, home, ts, idx, k);
    }
    picks := seq(|chosen|, k requires 0 <= k < |chosen| && chosen[k] < |idx| => idx[chosen[k]]);
    PicksAre(l, siteOf, home, ts, idx, chosen, picks);
  }

  lemma PicksAre(l: Legacy, siteOf: map<int, int>, home: Routes.Placement<GroupKey>, ts: seq<LegacyTarget>,
      idx: seq<nat>, chosen: seq<nat>, picks: seq<nat>)
    requires ResolvedAt(l, ts, idx, Resolve(l, ts))
    requires var r := Resolve(l, ts);
      && Routes.RowsOf(r, home, Routes.Rows(r, home), chosen) && Routes.PickedBefore(r, home, chosen, |r|)
      && (forall k :: 0 <= k < |r| ==> SiteOf(siteOf, ts[idx[k]]) == home(r[k].group))
      && (forall k :: 0 <= k < |r| ==> (Routes.FirstOfSite(r, home, k) <==> FirstThere(l, siteOf, ts, idx[k])))
    requires |picks| == |chosen| && forall k :: 0 <= k < |chosen| ==> chosen[k] < |idx| && picks[k] == idx[chosen[k]]
    ensures Published(l, siteOf, ts, Routes.Rows(Resolve(l, ts), home), picks)
  {
    forall i | 0 <= i < |ts| && FirstThere(l, siteOf, ts, i) ensures i in picks {
      var k :| 0 <= k < |idx| && idx[k] == i;
      assert k in chosen;
      var m :| 0 <= m < |chosen| && chosen[m] == k;
      assert picks[m] == i;
    }
  }

  lemma Earlier(idx: seq<nat>, n: nat, k: nat)
    requires n < |idx| && k < |idx| && idx[n] < idx[k]
    requires forall i, j :: 0 <= i < j < |idx| ==> idx[i] < idx[j]
    ensures n < k
  {
  }

  lemma FirstMeansFirst(l: Legacy, siteOf: map<int, int>, home: Routes.Placement<GroupKey>, ts: seq<LegacyTarget>,
      idx: seq<nat>, k: nat)
    requires var r := Resolve(l, ts);
      && ResolvedAt(l, ts, idx, r) && k < |r|
      && forall n :: 0 <= n < |r| ==> SiteOf(siteOf, ts[idx[n]]) == home(r[n].group)
    ensures Routes.FirstOfSite(Resolve(l, ts), home, k) <==> FirstThere(l, siteOf, ts, idx[k])
  {
    var r := Resolve(l, ts);
    if Routes.FirstOfSite(r, home, k) {
      forall j | 0 <= j < idx[k] && Routable(l, ts[j]) ensures SiteOf(siteOf, ts[j]) != SiteOf(siteOf, ts[idx[k]]) {
        var n :| 0 <= n < |idx| && idx[n] == j;
        Earlier(idx, n, k);
      }
    }
    if FirstThere(l, siteOf, ts, idx[k]) {
      forall n | 0 <= n < k && r[n].eligible ensures home(r[n].group) != home(r[k].group) {
        assert idx[n] < idx[k];
      }
    }
  }

  /** How many of the first `n` routes have no model yet. */
  function Fresh(db: Db, rs: seq<Route>, n: nat): nat
    requires n <= |rs|
  {
    if n == 0 then 0 else Fresh(db, rs, n - 1) + if rs[n - 1].id in db.modelOf then 0 else 1
  }

  /** What was there before is there still. */
  predicate ModelsKept(d: Db, e: Db) {
    && (forall m :: m in d.names ==> m in e.names && e.names[m] == d.names[m])
    && (forall m :: m in d.rows ==> m in e.rows && e.rows[m] == d.rows[m])
    && (forall id :: id in d.modelOf ==> id in e.modelOf && e.modelOf[id] == d.modelOf[id])
  }

  /** The route's model is the given one, with the given name and rows. */
  predicate ModelAt(e: Db, route: int, name: string, rows: seq<Routes.Row>, m: int) {
    && route in e.modelOf && e.modelOf[route] == m < e.nextModel
    && m in e.names && e.names[m] == name && m in e.rows && e.rows[m] == rows
  }

  function RowsOf(l: Legacy, db: Db, r: Route): seq<Routes.Row> {
    Routes.Rows(Resolve(l, r.targets), Placement(l, db))
  }

  lemma PublishAdds(e: Db, route: int, name: string, rows: seq<Routes.Row>)
    requires ModelsOk(e) && route !in e.modelOf && name !in e.names.Values
    ensures var f := Publish(e, route, name, rows);
      && ModelsOk(f) && ModelsKept(e, f)
      && ModelAt(f, route, name, rows, e.nextModel) && f.nextModel == e.nextModel + 1
      && f.names.Keys == e.names.Keys + {e.nextModel} && f.modelOf.Keys == e.modelOf.Keys + {route}
  {
    forall m | m in e.names ensures e.names[m] != name { assert e.names[m] in e.names.Values; }
  }

  lemma PublishStays(e: Db, route: int, name: string, rows: seq<Routes.Row>, r: int, n: string, rs: seq<Routes.Row>,
      m: int)
    requires ModelAt(e, r, n, rs, m) && route != r
    ensures ModelAt(Publish(e, route, name, rows), r, n, rs, m)
  {
  }

  /** What a route's model is to be called and to contain. */
  datatype Wanted = Wanted(name: string, rows: seq<Routes.Row>)

  function WantedOf(l: Legacy, db: Db, r: Route): Wanted { Wanted(TrimSpace(r.name), RowsOf(l, db, r)) }

  /** One route: nothing, if it has a model, and otherwise the next model, under a name no other model has. */
  predicate OneStep(db: Db, e: Db, r: Route, w: Wanted, f: Db) {
    if r.id in db.modelOf then f == e
    else w.name != "" && w.name !in e.names.Values && f == Publish(e, r.id, w.name, w.rows)
  }

  lemma RouteIs(l: Legacy, db: Db, e: Db, r: Route)
    requires MigrateRoute(l, db, e, r).Some?
    ensures OneStep(db, e, r, WantedOf(l, db, r), MigrateRoute(l, db, e, r).value)
  {
  }

  /** The new models are the next ones, and nothing else changes. */
  ghost predicate TablesGrew(d: Db, e: Db, added: int, routes: set<int>) {
    && ModelsKept(d, e) && e.nextModel == d.nextModel + added
    && (forall m :: m in e.names <==> m in d.names || d.nextModel <= m < e.nextModel)
    && e.modelOf.Keys == d.modelOf.Keys + routes
  }

  /** The i-th route has its model, the next one of its own, unless it was mapped before. */
  predicate AddedAt(want: Route -> Wanted, db: Db, d: Db, rs: seq<Route>, e: Db, i: nat)
    requires i < |rs|
  {
    rs[i].id in db.modelOf ||
    (want(rs[i]).name != "" &&
     ModelAt(e, rs[i].id, want(rs[i]).name, want(rs[i]).rows, d.nextModel + Fresh(db, rs, i)))
  }

  /** What the route loop adds to `d`: a model of its own for every unmapped route, in their order, and nothing else. */
  ghost predicate ModelsAdded(want: Route -> Wanted, db: Db, d: Db, rs: seq<Route>, ids: set<int>, e: Db) {
    && ModelsOk(e) && TablesGrew(d, e, Fresh(db, rs, |rs|), ids)
    && forall i :: 0 <= i < |rs| ==> AddedAt(want, db, d, rs, e, i)
  }

  lemma {:induction false} RoutesAdd(l: Legacy, db: Db, d: Db, rs: seq<Route>)
    requires DistinctRoutes(rs) && ModelsOk(d) && d.modelOf == db.modelOf && MigrateRoutes(l, db, d, rs).Some?
    ensures ModelsAdded((r: Route) => WantedOf(l, db, r), db, d, rs, RouteIds(rs),
                        MigrateRoutes(l, db, d, rs).value)
  {
    var want := (r: Route) => WantedOf(l, db, r);
    if rs == [] {
      assert RouteIds(rs) == {};
    } else {
      var n := |rs| - 1;
      var e := MigrateRoutes(l, db, d, rs[..n]);
      assert e.Some?;
      RoutesAdd(l, db, d, rs[..n]);
      RouteIs(l, db, e.value, rs[n]);
      RouteIdsGrow(rs);
      NotAmong(rs);
      NextRoute(want, db, d, rs, e.value, MigrateRoute(l, db, e.value, rs[n]).value,
                RouteIds(rs[..n]), RouteIds(rs));
    }
  }

  lemma NextRoute(want: Route -> Wanted, db: Db, d: Db, rs: seq<Route>, e: Db, f: Db, before: set<int>,
      after: set<int>)
    requires rs != [] && DistinctRoutes(rs) && d.modelOf == db.modelOf
    requires rs[|rs| - 1].id !in before && after == before + {rs[|rs| - 1].id}
    requires ModelsAdded(want, db, d, rs[..|rs| - 1], before, e)
    requires OneStep(db, e, rs[|rs| - 1], want(rs[|rs| - 1]), f)
    ensures ModelsAdded(want, db, d, rs, after, f)
  {
    NextTables(want, db, d, rs, e, f, before, after);
    EarlierRoutes(want, db, d, rs, rs[..|rs| - 1], e, f);
  }

  lemma EarlierRoutes(want: Route -> Wanted, db: Db, d: Db, rs: seq<Route>, before: seq<Route>, e: Db, f: Db)
    requires rs != [] && DistinctRoutes(rs) && before == rs[..|rs| - 1]
    requires OneStep(db, e, rs[|rs| - 1], want(rs[|rs| - 1]), f)
    requires forall i :: 0 <= i < |before| ==> AddedAt(want, db, d, before, e, i)
    ensures forall i :: 0 <= i < |before| ==> AddedAt(want, db, d, rs, f, i)
  {
    forall i | 0 <= i < |before| ensures AddedAt(want, db, d, rs, f, i) {
      assert AddedAt(want, db, d, before, e, i);
      EarlierRoute(want, db, d, rs, e, f, i);
    }
  }

  lemma NextTables(want: Route -> Wanted, db: Db, d: Db, rs: seq<Route>, e: Db, f: Db, before: set<int>,
      after: set<int>)
    requires rs != [] && d.modelOf == db.modelOf
    requires rs[|rs| - 1].id !in before && after == before + {rs[|rs| - 1].id}
    requires var n := |rs| - 1; ModelsOk(e) && TablesGrew(d, e, Fresh(db, rs[..n], n), before)
    requires OneStep(db, e, rs[|rs| - 1], want(rs[|rs| - 1]), f)
    ensures ModelsOk(f) && TablesGrew(d, f, Fresh(db, rs, |rs|), after)
    ensures AddedAt(want, db, d, rs, f, |rs| - 1)
  {
    var n := |rs| - 1;
    FreshAt(db, rs, n, n);
    TableStep(db, d, e, Fresh(db, rs, n), before, after, rs[n], want(rs[n]), f);
  }

  lemma NotAmong(rs: seq<Route>)
    requires rs != [] && DistinctRoutes(rs)
    ensures rs[|rs| - 1].id !in RouteIds(rs[..|rs| - 1])
  {
  }

  lemma EarlierRoute(want: Route -> Wanted, db: Db, d: Db, rs: seq<Route>, e: Db, f: Db, i: nat)
    requires i < |rs| - 1 && rs[i].id != rs[|rs| - 1].id
    requires AddedAt(want, db, d, rs[..|rs| - 1], e, i) && OneStep(db, e, rs[|rs| - 1], want(rs[|rs| - 1]), f)
    ensures AddedAt(want, db, d, rs, f, i)
  {
    var n := |rs| - 1;
    var r, w, s := rs[i], want(rs[i]), rs[n];
    assert rs[..n][i] == r;
    FreshAt(db, rs, n, i);
    if r.id !in db.modelOf && s.id !in db.modelOf {
      PublishStays(e, s.id, want(s).name, want(s).rows, r.id, w.name, w.rows, d.nextModel + Fresh(db, rs, i));
    }
  }

  lemma TableStep(db: Db, d: Db, e: Db, added: nat, routes: set<int>, more: set<int>, r: Route, w: Wanted, f: Db)
    requires ModelsOk(e) && TablesGrew(d, e, added, routes) && d.modelOf == db.modelOf && r.id !in routes
    requires more == routes + {r.id}
    requires OneStep(db, e, r, w, f)
    ensures ModelsOk(f) && TablesGrew(d, f, added + if r.id in db.modelOf then 0 else 1, more)
    ensures r.id !in db.modelOf ==> w.name != "" && ModelAt(f, r.id, w.name, w.rows, d.nextModel + added)
  {
    if r.id in db.modelOf {
      assert e.modelOf.Keys + {r.id} == e.modelOf.Keys;
    } else {
      PublishAdds(e, r.id, w.name, w.rows);
    }
  }

  lemma {:induction false} FreshAt(db: Db, rs: seq<Route>, n: nat, i: nat)
    requires i <= n <= |rs|
    ensures Fresh(db, rs[..n], i) == Fresh(db, rs, i)
  {
    if i > 0 { FreshAt(db, rs, n, i - 1); }
  }

  /** The published models after any successful migration. Every route that had none has a model of its own, under its
      trimmed name, whose rows are its routable targets as legacy tables tell them, on the sites their upstreams have;
      models that were there before are left alone, and there are as many new ones as the plan announced. */
  lemma ModelsPublished(forms: Forms, l: Legacy, db: Db, refused: bool, i: nat) returns (picks: seq<nat>)
    requires Schema(l, db) && ModelsOk(db) && Consistent(l.upstreams, db.siteOf)
    requires Apply(forms, l, db, refused).Some? && i < |l.routes| && l.routes[i].id !in db.modelOf
    ensures var d, r := Apply(forms, l, db, refused).value, l.routes[i];
      && r.id in d.modelOf
      && var m := d.modelOf[r.id];
      && m !in db.names && m in d.names && m in d.rows
      && d.names[m] == TrimSpace(r.name) != ""
      && Published(l, d.siteOf, r.targets, d.rows[m], picks)
    ensures var d := Apply(forms, l, db, refused).value;
      && ModelsOk(d) && ModelsKept(db, d)
      && d.nextModel == db.nextModel + Fresh(db, l.routes, |l.routes|)
      && (forall m :: m in d.names <==> m in db.names || db.nextModel <= m < d.nextModel)
  {
    var d, r := Apply(forms, l, db, refused).value, l.routes[i];
    Applies(forms, l, db, refused);
    RoutesAdded(forms, l, db, refused);
    assert AddedAt((q: Route) => WantedOf(l, db, q), db, db, l.routes, d, i);
    AllPlacedAtHome(l, db, d.siteOf);
    picks := RowsPublished(l, d.siteOf, Placement(l, db), r.targets);
  }

  /** What the whole transaction adds to the models is what its route loop adds. */
  lemma RoutesAdded(forms: Forms, l: Legacy, db: Db, refused: bool)
    requires DistinctRoutes(l.routes) && ModelsOk(db) && Apply(forms, l, db, refused).Some?
    ensures ModelsAdded((q: Route) => WantedOf(l, db, q), db, db, l.routes, RouteIds(l.routes),
                        Apply(forms, l, db, refused).value)
  {
    var e := Place(l, db).(accounts := DepositAll(db.accounts, Jobs(forms, l, db)).value);
    Phases(forms, l, db, refused);
    RoutesAdd(l, db, e, l.routes);
    SameModels((q: Route) => WantedOf(l, db, q), db, e, l.routes, RouteIds(l.routes),
               Apply(forms, l, db, refused).value);
  }

  lemma SameModels(want: Route -> Wanted, db: Db, e: Db, rs: seq<Route>, ids: set<int>, f: Db)
    requires e.names == db.names && e.rows == db.rows && e.modelOf == db.modelOf && e.nextModel == db.nextModel
    requires ModelsAdded(want, db, e, rs, ids, f)
    ensures ModelsAdded(want, db, db, rs, ids, f)
  {
    forall i | 0 <= i < |rs| ensures AddedAt(want, db, db, rs, f, i) { assert AddedAt(want, db, e, rs, f, i); }
  }

  lemma AllPlacedAtHome(l: Legacy, db: Db, siteOf: map<int, int>)
    requires DistinctUpstreams(l.upstreams) && Consistent(l.upstreams, db.siteOf)
    requires db.siteOf.Keys <= UpstreamIds(l.upstreams)
    requires siteOf == MapUpstreams(l.upstreams, db.siteOf, Placement(l, db))
    ensures Placed(l, siteOf, Placement(l, db))
  {
    PlacedOk(l, db);
    forall u | u in l.upstreams ensures u.id in siteOf {
      var j :| 0 <= j < |l.upstreams| && l.upstreams[j] == u;
      assert u.id in UpstreamIds(l.upstreams);
    }
  }

  // ----- where the upstreams are placed

  /** The two upstreams make one site: they have the same origin, or are one. */
  predicate Together(u: Upstream, v: Upstream) {
    if u.origin.Some? && v.origin.Some? then u.origin == v.origin
    else u.origin == v.origin && u.id == v.id
  }

  lemma SameKey(u: Upstream, v: Upstream)
    ensures KeyOf(u) == KeyOf(v) <==> Together(u, v)
  {
  }

  /** An earlier migration mapped the upstream or one that belongs with it. */
  ghost predicate KnownGroup(l: Legacy, db: Db, u: Upstream) {
    exists v :: v in l.upstreams && Together(u, v) && v.id in db.siteOf
  }

  lemma KnownIs(l: Legacy, db: Db, u: Upstream)
    ensures KnownGroup(l, db, u) <==> MappedSite(l.upstreams, db.siteOf, KeyOf(u)).Some?
    ensures var site := MappedSite(l.upstreams, db.siteOf, KeyOf(u));
      site.Some? ==> exists v :: v in l.upstreams && v.id in db.siteOf && db.siteOf[v.id] == site.value
  {
    var us := l.upstreams;
    MappedMember(us, db.siteOf, KeyOf(u));
    if KnownGroup(l, db, u) {
      var v :| v in us && Together(u, v) && v.id in db.siteOf;
      var i :| 0 <= i < |us| && us[i] == v;
      SameKey(us[i], u);
    }
    if MappedSite(us, db.siteOf, KeyOf(u)).Some? {
      var i :| 0 <= i < |us| && KeyOf(us[i]) == KeyOf(u) && us[i].id in db.siteOf
               && db.siteOf[us[i].id] == MappedSite(us, db.siteOf, KeyOf(u)).value;
      SameKey(us[i], u);
      assert us[i] in us;
    }
  }

  lemma {:induction false} MoreNewSites(l: Legacy, db: Db, i: nat, j: nat)
    requires i < j <= |Keys(l.upstreams)|
    ensures NewSites(l, db, i) <= NewSites(l, db, j)
    ensures MappedSite(l.upstreams, db.siteOf, Keys(l.upstreams)[i]).None? ==> NewSites(l, db, i) < NewSites(l, db, j)
  {
    if i + 1 < j { MoreNewSites(l, db, i, j - 1); }
  }

  /** A group without a mapping gets a site of its own. */
  lemma OwnSite(l: Legacy, db: Db, i: nat, j: nat)
    requires i < |Keys(l.upstreams)| && j < |Keys(l.upstreams)| && i != j
    requires SitesOk(db.sites, db.nextSite, db.siteOf, db.accounts)
    requires MappedSite(l.upstreams, db.siteOf, Keys(l.upstreams)[i]).None?
    ensures Home(l, db, i) != Home(l, db, j) && Home(l, db, i) >= db.nextSite
  {
    var key := Keys(l.upstreams)[j];
    if MappedSite(l.upstreams, db.siteOf, key).Some? {
      MappedMember(l.upstreams, db.siteOf, key);
    } else if i < j {
      MoreNewSites(l, db, i, j);
    } else {
      MoreNewSites(l, db, j, i);
    }
  }

  /** Where a successful migration places two upstreams: what was mapped stays, what belongs together is together, and
      what belongs to a group that was not there before gets a new site that no other group shares. */
  lemma UpstreamsPlaced(forms: Forms, l: Legacy, db: Db, refused: bool, u: Upstream, v: Upstream)
    requires Schema(l, db) && Consistent(l.upstreams, db.siteOf) && Apply(forms, l, db, refused).Some?
    requires u in l.upstreams && v in l.upstreams
    ensures var d := Apply(forms, l, db, refused).value;
      && u.id in d.siteOf && v.id in d.siteOf && d.siteOf[u.id] in d.sites
      && (u.id in db.siteOf ==> d.siteOf[u.id] == db.siteOf[u.id])
      && (Together(u, v) ==> d.siteOf[u.id] == d.siteOf[v.id])
      && (!Together(u, v) && !KnownGroup(l, db, u) ==> d.siteOf[u.id] != d.siteOf[v.id])
      && (!KnownGroup(l, db, u) <==> d.siteOf[u.id] !in db.sites)
  {
    var d, us := Apply(forms, l, db, refused).value, l.upstreams;
    Applies(forms, l, db, refused);
    AllPlacedAtHome(l, db, d.siteOf);
    Mapped(us, db.siteOf, Placement(l, db));
    PlacedSites(l, db);
    var i := KeyIndex(l, u);
    var j := KeyIndex(l, v);
    PlacementIs(l, db, i);
    PlacementIs(l, db, j);
    SameKey(u, v);
    KnownIs(l, db, u);
    if !KnownGroup(l, db, u) && i != j { OwnSite(l, db, i, j); }
    if u.id in db.siteOf {
      var k :| 0 <= k < |us| && us[k] == u;
    }
  }

  lemma KeyIndex(l: Legacy, u: Upstream) returns (i: nat)
    requires u in l.upstreams
    ensures i < |Keys(l.upstreams)| && Keys(l.upstreams)[i] == KeyOf(u)
  {
    var k :| 0 <= k < |l.upstreams| && l.upstreams[k] == u;
    KeysCover(l.upstreams, k);
    i := Index(Keys(l.upstreams), KeyOf(u));
  }
}
