/** The migration as the store runs it: loops over groups, upstreams and routes that fill the tables in place. */
module MigrationStore {
  import opened Wrappers
  import opened MigrationAccounts
  import opened Migration
  import opened MigrationTheorems
  import Routes = MigrationRoutes

  class Store {
    var db: Db

    constructor (db: Db)
      ensures this.db == db
    {
      this.db := db;
    }

    /** One migration transaction: the whole new state, or the old one. */
    method ApplyLegacyMigration(forms: Forms, l: Legacy, samePlan: bool, force: bool, refused: bool)
      returns (verdict: Verdict)
      requires Schema(l, db)
      modifies this
      ensures (db, verdict) == Migrate(forms, l, old(db), samePlan, force, refused)
    {
      var preview := Build(forms, l, db);
      if preview.None? {
        return Error;
      }
      if !samePlan {
        return PlanChanged;
      }
      if preview.value.hard || (preview.value.needsForce && !force) {
        return Blocked;
      }
      if preview.value.alreadyApplied || preview.value.plan == NOTHING {
        return NothingToDo;
      }
      var next := PlaceGroups(l, db);
      var deposited := DepositAccounts(db.accounts, Jobs(forms, l, db));
      if deposited.None? {
        return Error;
      }
      var migrated := MigrateModels(l, db, next.(accounts := deposited.value));
      if migrated.None? || refused || Build(forms, l, migrated.value).None? {
        return Error;
      }
      db := migrated.value;
      return Applied;
    }
  }

  // ----- placing

  /** The mapping table after the pending upstreams of one group are mapped to its site. */
  function MapGroup(us: seq<Upstream>, before: map<int, int>, siteOf: map<int, int>, key: GroupKey,
      site: int): map<int, int> {
    if us == [] then siteOf
    else
      var rest, u := MapGroup(us[..|us| - 1], before, siteOf, key, site), us[|us| - 1];
      if KeyOf(u) == key && u.id !in before then rest[u.id := site] else rest
  }

  function MapGroups(us: seq<Upstream>, before: map<int, int>, home: Routes.Placement<GroupKey>,
      keys: seq<GroupKey>): map<int, int> {
    if keys == [] then before
    else
      var key := keys[|keys| - 1];
      MapGroup(us, before, MapGroups(us, before, home, keys[..|keys| - 1]), key, home(key))
  }

  /** The mapping table after the first `n` groups. */
  function MappedTo(l: Legacy, db: Db, n: nat): map<int, int>
    requires n <= |Keys(l.upstreams)|
  {
    MapGroups(l.upstreams, db.siteOf, Placement(l, db), Keys(l.upstreams)[..n])
  }

  /** Group after group, each pending upstream is mapped to the group's site, which is created when it has none. */
  method PlaceGroups(l: Legacy, db: Db) returns (next: Db)
    requires DistinctUpstreams(l.upstreams) && db.siteOf.Keys <= UpstreamIds(l.upstreams)
    ensures next == Place(l, db)
  {
    var keys, us := Keys(l.upstreams), l.upstreams;
    var sites, added, siteOf: map<int, int> := {}, 0, db.siteOf;
    for n := 0 to |keys|
      invariant PlacedThrough(l, db, n, sites, added, siteOf)
    {
      var mapped := MappedSite(us, db.siteOf, keys[n]);
      var site := if mapped.Some? then mapped.value else db.nextSite + added;
      ghost var before, homes := siteOf, sites;
      siteOf := PlaceGroup(us, db.siteOf, siteOf, keys[n], site);
      PlacedNext(l, db, n, homes, added, before);
      if mapped.None? {
        added := added + 1;
      }
      sites := sites + {site};
    }
    AllPlaced(l, db);
    next := WithSites(db, sites, added, siteOf);
  }

  /** The tables after the first `n` groups. */
  ghost predicate PlacedThrough(l: Legacy, db: Db, n: nat, sites: set<int>, added: nat, siteOf: map<int, int>) {
    && n <= |Keys(l.upstreams)| && added == NewSites(l, db, n)
    && sites == HomeSites(l, db, n) && siteOf == MappedTo(l, db, n)
  }

  lemma PlacedNext(l: Legacy, db: Db, n: nat, sites: set<int>, added: nat, siteOf: map<int, int>)
    requires n < |Keys(l.upstreams)| && PlacedThrough(l, db, n, sites, added, siteOf)
    ensures var key := Keys(l.upstreams)[n];
      var mapped := MappedSite(l.upstreams, db.siteOf, key);
      var site := if mapped.Some? then mapped.value else db.nextSite + added;
      PlacedThrough(l, db, n + 1, sites + {site}, if mapped.None? then added + 1 else added,
                    MapGroup(l.upstreams, db.siteOf, siteOf, key, site))
  {
    MappedNext(l, db, n);
  }

  lemma MappedNext(l: Legacy, db: Db, n: nat)
    requires n < |Keys(l.upstreams)|
    ensures MappedTo(l, db, n + 1) ==
      MapGroup(l.upstreams, db.siteOf, MappedTo(l, db, n), Keys(l.upstreams)[n], Home(l, db, n))
  {
    PlacementIs(l, db, n);
    assert Keys(l.upstreams)[..n + 1][..n] == Keys(l.upstreams)[..n];
  }

  method PlaceGroup(us: seq<Upstream>, before: map<int, int>, siteOf: map<int, int>, key: GroupKey, site: int)
    returns (after: map<int, int>)
    ensures after == MapGroup(us, before, siteOf, key, site)
  {
    after := siteOf;
    for k := 0 to |us|
      invariant after == MapGroup(us[..k], before, siteOf, key, site)
    {
      assert us[..k + 1][..k] == us[..k];
      if KeyOf(us[k]) == key && us[k].id !in before {
        after := after[us[k].id := site];
      }
    }
    assert us[..|us|] == us;
  }

  /** An upstream with this id is pending in the group. */
  predicate PendingIn(us: seq<Upstream>, before: map<int, int>, key: GroupKey, id: int) {
    id !in before && exists j :: 0 <= j < |us| && us[j].id == id && KeyOf(us[j]) == key
  }

  lemma {:induction false} MapGroupIs(us: seq<Upstream>, before: map<int, int>, siteOf: map<int, int>, key: GroupKey,
      site: int, id: int)
    ensures var after := MapGroup(us, before, siteOf, key, site);
      if PendingIn(us, before, key, id) then id in after && after[id] == site
      else (id in after <==> id in siteOf) && (id in siteOf ==> after[id] == siteOf[id])
  {
    if us != [] {
      var n := |us| - 1;
      MapGroupIs(us[..n], before, siteOf, key, site, id);
      assert forall j :: 0 <= j < n ==> us[..n][j] == us[j];
      if PendingIn(us, before, key, id) && us[n].id != id {
        var j :| 0 <= j < |us| && us[j].id == id && KeyOf(us[j]) == key;
        assert us[..n][j].id == id;
      }
    }
  }

  /** Group by group, an upstream ends up where its group is. */
  lemma {:induction false} MapGroupsIs(us: seq<Upstream>, before: map<int, int>, home: Routes.Placement<GroupKey>,
                                       keys: seq<GroupKey>, id: int)
    requires DistinctUpstreams(us)
    ensures var after := MapGroups(us, before, home, keys);
      && (id in before ==> id in after && after[id] == before[id])
      && (id !in before && id in after ==> id in UpstreamIds(us))
      && (forall j :: 0 <= j < |us| && us[j].id == id && id !in before && KeyOf(us[j]) in keys ==>
           id in after && after[id] == home(KeyOf(us[j])))
  {
    if keys != [] {
      var n := |keys| - 1;
      MapGroupsIs(us, before, home, keys[..n], id);
      MapGroupIs(us, before, MapGroups(us, before, home, keys[..n]), keys[n], home(keys[n]), id);
      assert forall key :: key in keys ==> key in keys[..n] || key == keys[n];
    }
  }

  lemma AllPlaced(l: Legacy, db: Db)
    requires DistinctUpstreams(l.upstreams) && db.siteOf.Keys <= UpstreamIds(l.upstreams)
    ensures MappedTo(l, db, |Keys(l.upstreams)|) == MapUpstreams(l.upstreams, db.siteOf, Placement(l, db))
  {
    var us, home := l.upstreams, Placement(l, db);
    var grouped, mapped := MapGroups(us, db.siteOf, home, Keys(us)), MapUpstreams(us, db.siteOf, home);
    Mapped(us, db.siteOf, home);
    assert Keys(us)[..|Keys(us)|] == Keys(us);
    forall id
      ensures id in grouped <==> id in mapped
      ensures id in grouped ==> grouped[id] == mapped[id]
    {
      MapGroupsIs(us, db.siteOf, home, Keys(us), id);
      if id in UpstreamIds(us) {
        var j :| 0 <= j < |us| && us[j].id == id;
        KeysCover(us, j);
      }
    }
  }

  // ----- depositing and publishing

  /** The accounts, snapshots and usage of every unit in order; None when a constraint refuses a row. */
  method DepositAccounts(accounts: map<int, SiteAccount>, jobs: seq<Job>)
    returns (result: Option<map<int, SiteAccount>>)
    ensures result == DepositAll(accounts, jobs)
  {
    var filled := accounts;
    for i := 0 to |jobs|
      invariant DepositAll(accounts, jobs[..i]) == Some(filled)
    {
      assert jobs[..i + 1][..i] == jobs[..i];
      if jobs[i].unit.None? {
        continue;
      }
      var unit := jobs[i].unit.value;
      var deposited := if unit.Unit? then Deposit(Lookup(filled, jobs[i].site), unit) else None;
      if deposited.None? {
        RefusedStays(accounts, jobs, i + 1);
        return None;
      }
      filled := filled[jobs[i].site := deposited.value];
    }
    assert jobs[..|jobs|] == jobs;
    return Some(filled);
  }

  lemma {:induction false} RefusedStays(accounts: map<int, SiteAccount>, jobs: seq<Job>, n: nat)
    requires n <= |jobs| && DepositAll(accounts, jobs[..n]).None?
    ensures DepositAll(accounts, jobs).None?
    decreases |jobs|
  {
    if n == |jobs| {
      assert jobs[..n] == jobs;
    } else {
      assert jobs[..|jobs| - 1][..n] == jobs[..n];
      RefusedStays(accounts, jobs[..|jobs| - 1], n);
    }
  }

  /** One published model with its rows for every route that has none. */
  method MigrateModels(l: Legacy, db: Db, placed: Db) returns (result: Option<Db>)
    ensures result == MigrateRoutes(l, db, placed, l.routes)
  {
    var rs, d := l.routes, placed;
    for i := 0 to |rs|
      invariant MigrateRoutes(l, db, placed, rs[..i]) == Some(d)
    {
      var next := MigrateModel(l, db, d, rs[i]);
      NextModel(l, db, placed, rs, i, d);
      if next.None? {
        TakenStays(l, db, placed, rs, i + 1);
        return None;
      }
      d := next.value;
    }
    assert rs[..|rs|] == rs;
    return Some(d);
  }

  lemma NextModel(l: Legacy, db: Db, placed: Db, rs: seq<Route>, i: nat, d: Db)
    requires i < |rs| && MigrateRoutes(l, db, placed, rs[..i]) == Some(d)
    ensures MigrateRoutes(l, db, placed, rs[..i + 1]) == MigrateRoute(l, db, d, rs[i])
  {
    assert rs[..i + 1][..i] == rs[..i];
  }

  method MigrateModel(l: Legacy, db: Db, d: Db, r: Route) returns (next: Option<Db>)
    ensures next == MigrateRoute(l, db, d, r)
  {
    if r.id in db.modelOf {
      return Some(d);
    }
    var name := TrimSpace(r.name);
    if name == "" || name in d.names.Values {
      return None;
    }
    var rows := Routes.ApplyTargets(Resolve(l, r.targets), Placement(l, db));
    return Some(Publish(d, r.id, name, rows));
  }

  lemma {:induction false} TakenStays(l: Legacy, db: Db, placed: Db, rs: seq<Route>, n: nat)
    requires n <= |rs| && MigrateRoutes(l, db, placed, rs[..n]).None?
    ensures MigrateRoutes(l, db, placed, rs).None?
    decreases |rs|
  {
    if n == |rs| {
      assert rs[..n] == rs;
    } else {
      assert rs[..|rs| - 1][..n] == rs[..n];
      TakenStays(l, db, placed, rs[..|rs| - 1], n);
    }
  }
}
