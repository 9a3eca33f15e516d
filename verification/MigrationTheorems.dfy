/** The migration is a fixed point: what the plan rebuilt after a successful apply looks like. */
module MigrationTheorems {
  import opened Wrappers
  import opened MigrationAccounts
  import opened Migration
  import Routes = MigrationRoutes

  // ----- placing the groups

  /** The group keys are distinct. */
  lemma {:induction false} KeysDistinct(us: seq<Upstream>, i: nat, j: nat)
    requires i < |Keys(us)| && j < |Keys(us)| && Keys(us)[i] == Keys(us)[j]
    ensures i == j
  {
    var rest := Keys(us[..|us| - 1]);
    if i < |rest| && j < |rest| {
      KeysDistinct(us[..|us| - 1], i, j);
    } else {
      assert KeyOf(us[|us| - 1]) !in rest;
    }
  }

  /** Every upstream's key is among them. */
  lemma {:induction false} KeysCover(us: seq<Upstream>, i: nat)
    requires i < |us|
    ensures KeyOf(us[i]) in Keys(us)
  {
    if i < |us| - 1 {
      KeysCover(us[..|us| - 1], i);
    }
  }

  lemma {:induction false} MappedMember(us: seq<Upstream>, siteOf: map<int, int>, key: GroupKey)
    ensures var site := MappedSite(us, siteOf, key);
      site.Some? <==> exists i :: 0 <= i < |us| && KeyOf(us[i]) == key && us[i].id in siteOf
    ensures var site := MappedSite(us, siteOf, key);
      site.Some? ==> exists i ::
        0 <= i < |us| && KeyOf(us[i]) == key && us[i].id in siteOf && siteOf[us[i].id] == site.value
  {
    if us != [] {
      var n := |us| - 1;
      MappedMember(us[..n], siteOf, key);
      assert forall i :: 0 <= i < n ==> us[..n][i] == us[i];
    }
  }

  /** After placing, the upstreams are mapped: as before, or to the home of their group. */
  lemma {:induction false} Mapped(us: seq<Upstream>, siteOf: map<int, int>, home: Routes.Placement<GroupKey>)
    requires DistinctUpstreams(us)
    ensures var after := MapUpstreams(us, siteOf, home);
      && after.Keys == siteOf.Keys + UpstreamIds(us)
      && (forall id :: id in siteOf ==> after[id] == siteOf[id])
      && forall i :: 0 <= i < |us| && us[i].id !in siteOf ==>
           us[i].id in after && after[us[i].id] == home(KeyOf(us[i]))
  {
    if us == [] {
      assert UpstreamIds(us) == {};
    } else {
      var n := |us| - 1;
      var before := us[..n];
      Mapped(before, siteOf, home);
      IdsGrow(us);
      MappedLast(us, siteOf, home);
    }
  }

  lemma MappedLast(us: seq<Upstream>, siteOf: map<int, int>, home: Routes.Placement<GroupKey>)
    requires us != [] && DistinctUpstreams(us)
    requires var before, after := us[..|us| - 1], MapUpstreams(us[..|us| - 1], siteOf, home);
      forall i :: 0 <= i < |before| && before[i].id !in siteOf ==>
        before[i].id in after && after[before[i].id] == home(KeyOf(before[i]))
    ensures var after := MapUpstreams(us, siteOf, home);
      forall i :: 0 <= i < |us| && us[i].id !in siteOf ==> us[i].id in after && after[us[i].id] == home(KeyOf(us[i]))
  {
    var n, after := |us| - 1, MapUpstreams(us, siteOf, home);
    forall i | 0 <= i < |us| && us[i].id !in siteOf
      ensures us[i].id in after && after[us[i].id] == home(KeyOf(us[i]))
    {
      if i < n { assert us[..n][i] == us[i]; }
    }
  }

  lemma IdsGrow(us: seq<Upstream>)
    requires us != []
    ensures UpstreamIds(us) == UpstreamIds(us[..|us| - 1]) + {us[|us| - 1].id}
  {
    var n := |us| - 1;
    forall id | id in UpstreamIds(us) ensures id in UpstreamIds(us[..n]) + {us[n].id} {
      var i :| 0 <= i < |us| && us[i].id == id;
      if i < n { assert us[..n][i].id == id; }
    }
    forall id | id in UpstreamIds(us[..n]) ensures id in UpstreamIds(us) {
      var i :| 0 <= i < n && us[..n][i].id == id;
      assert us[i].id == id;
    }
  }

  /** Every upstream that is mapped is mapped to its group's home. */
  ghost predicate AtHome(us: seq<Upstream>, siteOf: map<int, int>, home: Routes.Placement<GroupKey>) {
    forall u :: u in us && u.id in siteOf ==> siteOf[u.id] == home(KeyOf(u))
  }

  /** The home of a group is the site it is mapped to, if it is. */
  lemma PlacementIs(l: Legacy, db: Db, i: nat)
    requires i < |Keys(l.upstreams)|
    ensures Placement(l, db)(Keys(l.upstreams)[i]) == Home(l, db, i)
  {
    var keys := Keys(l.upstreams);
    KeysDistinct(l.upstreams, Index(keys, keys[i]), i);
  }

  lemma MappedAtHome(l: Legacy, db: Db)
    requires Consistent(l.upstreams, db.siteOf)
    ensures AtHome(l.upstreams, db.siteOf, Placement(l, db))
  {
    var us := l.upstreams;
    forall u | u in us && u.id in db.siteOf ensures db.siteOf[u.id] == Placement(l, db)(KeyOf(u)) {
      var j :| 0 <= j < |us| && us[j] == u;
      var key := KeyOf(u);
      KeysCover(us, j);
      var k := Index(Keys(us), key);
      PlacementIs(l, db, k);
      MappedMember(us, db.siteOf, key);
      var i :| 0 <= i < |us| && KeyOf(us[i]) == key && us[i].id in db.siteOf
               && db.siteOf[us[i].id] == MappedSite(us, db.siteOf, key).value;
      assert db.siteOf[us[i].id] == db.siteOf[us[j].id];
    }
  }

  lemma AllAtHome(us: seq<Upstream>, siteOf: map<int, int>, home: Routes.Placement<GroupKey>)
    requires DistinctUpstreams(us)
    requires AtHome(us, siteOf, home)
    ensures var after := MapUpstreams(us, siteOf, home);
      && after.Keys == siteOf.Keys + UpstreamIds(us)
      && AtHome(us, after, home) && Consistent(us, after)
      && forall key :: key in Keys(us) ==> MappedSite(us, after, key) == Some(home(key))
  {
    var after := MapUpstreams(us, siteOf, home);
    Mapped(us, siteOf, home);
    forall u | u in us && u.id in after ensures after[u.id] == home(KeyOf(u)) {
      var i :| 0 <= i < |us| && us[i] == u;
    }
    forall key | key in Keys(us) ensures MappedSite(us, after, key) == Some(home(key)) {
      KeyHasMember(us, key);
      MappedMember(us, after, key);
      var i :| 0 <= i < |us| && KeyOf(us[i]) == key;
      assert us[i].id in UpstreamIds(us);
    }
  }

  /** Placing maps every upstream, keeps the state consistent, and gives every group its home as mapped site. */
  lemma PlacedOk(l: Legacy, db: Db)
    requires DistinctUpstreams(l.upstreams) && Consistent(l.upstreams, db.siteOf)
    requires db.siteOf.Keys <= UpstreamIds(l.upstreams)
    ensures var siteOf := MapUpstreams(l.upstreams, db.siteOf, Placement(l, db));
      && siteOf.Keys == UpstreamIds(l.upstreams)
      && Consistent(l.upstreams, siteOf) && AtHome(l.upstreams, siteOf, Placement(l, db))
      && forall i :: 0 <= i < |Keys(l.upstreams)| ==>
           MappedSite(l.upstreams, siteOf, Keys(l.upstreams)[i]) == Some(Home(l, db, i))
  {
    var keys := Keys(l.upstreams);
    var siteOf := MapUpstreams(l.upstreams, db.siteOf, Placement(l, db));
    MappedAtHome(l, db);
    AllAtHome(l.upstreams, db.siteOf, Placement(l, db));
    forall i | 0 <= i < |keys| ensures MappedSite(l.upstreams, siteOf, keys[i]) == Some(Home(l, db, i)) {
      PlacementIs(l, db, i);
      assert keys[i] in keys;
    }
  }

  lemma {:induction false} KeyHasMember(us: seq<Upstream>, key: GroupKey)
    requires key in Keys(us)
    ensures exists i :: 0 <= i < |us| && KeyOf(us[i]) == key
  {
    var n := |us| - 1;
    if KeyOf(us[n]) != key {
      KeyHasMember(us[..n], key);
      var i :| 0 <= i < n && KeyOf(us[..n][i]) == key;
      assert KeyOf(us[i]) == key;
    }
  }

  // ----- depositing the accounts

  /** The rows a unit brings parse. */
  ghost predicate CleanUnit(forms: Forms, u: UnitPlan) {
    u.Unit? ==>
      && (forall s :: s in u.snapshots ==> forms.json(s.json).Some?)
      && (forall k :: k in u.usage ==> Load(forms, Store(u.usage[k])).Some?)
  }

  /** A unit that extends an account was planned on one whose JSON parses. */
  ghost predicate CleanJob(forms: Forms, accounts: map<int, SiteAccount>, job: Job) {
    job.unit.Some? && job.unit.value.Unit? ==>
      && CleanUnit(forms, job.unit.value)
      && (!job.unit.value.create ==> job.site in accounts && Clean(forms, accounts[job.site]))
  }

  /** Accounts only grow, and each is as it was before the migration or all its JSON parses. */
  ghost predicate Sound(forms: Forms, before: map<int, SiteAccount>, after: map<int, SiteAccount>) {
    && (forall s :: s in before ==> s in after && Grew(before[s], after[s]))
    && (forall s :: s in after ==> (s in before && after[s] == before[s]) || Clean(forms, after[s]))
  }

  lemma DepositClean(forms: Forms, now: Option<SiteAccount>, u: UnitPlan)
    requires u.Unit? && CleanUnit(forms, u) && Deposit(now, u).Some?
    requires now.Some? ==> Clean(forms, now.value)
    ensures Clean(forms, Deposit(now, u).value)
    ensures now.Some? ==> Grew(now.value, Deposit(now, u).value)
  {
  }

  lemma SoundStep(forms: Forms, accounts: map<int, SiteAccount>, before: map<int, SiteAccount>, job: Job)
    requires Sound(forms, accounts, before) && CleanJob(forms, accounts, job)
    requires job.unit.Some? && job.unit.value.Unit? && Deposit(Lookup(before, job.site), job.unit.value).Some?
    ensures var acc := Deposit(Lookup(before, job.site), job.unit.value).value;
      && Sound(forms, accounts, before[job.site := acc])
      && Clean(forms, acc)
      && (job.site in before ==> Grew(before[job.site], acc))
  {
    DepositClean(forms, Lookup(before, job.site), job.unit.value);
  }

  lemma {:induction false} DepositsSound(forms: Forms, accounts: map<int, SiteAccount>, jobs: seq<Job>)
    requires forall i :: 0 <= i < |jobs| ==> CleanJob(forms, accounts, jobs[i])
    requires DepositAll(accounts, jobs).Some?
    ensures Sound(forms, accounts, DepositAll(accounts, jobs).value)
    ensures forall i :: 0 <= i < |jobs| ==> jobs[i].unit.None? || jobs[i].unit.value.Unit?
  {
    if jobs != [] {
      var n := |jobs| - 1;
      DepositsSound(forms, accounts, jobs[..n]);
      if jobs[n].unit.Some? { SoundStep(forms, accounts, DepositAll(accounts, jobs[..n]).value, jobs[n]); }
    }
  }

  /** What the i-th job found, and what it left to the end: its account there has only grown. */
  lemma {:induction false} JobDone(forms: Forms, accounts: map<int, SiteAccount>, jobs: seq<Job>, i: nat)
    returns (now: Option<SiteAccount>)
    requires forall k :: 0 <= k < |jobs| ==> CleanJob(forms, accounts, jobs[k])
    requires DepositAll(accounts, jobs).Some? && i < |jobs| && jobs[i].unit.Some?
    ensures jobs[i].unit.value.Unit? && Deposit(now, jobs[i].unit.value).Some?
    ensures jobs[i].site in accounts ==> now.Some? && Grew(accounts[jobs[i].site], now.value)
    ensures now.Some? && !jobs[i].unit.value.create ==> Clean(forms, now.value)
    ensures var final := DepositAll(accounts, jobs).value;
      && jobs[i].site in final && Clean(forms, final[jobs[i].site])
      && Grew(Deposit(now, jobs[i].unit.value).value, final[jobs[i].site])
  {
    var n := |jobs| - 1;
    var before := DepositAll(accounts, jobs[..n]).value;
    DepositsSound(forms, accounts, jobs[..n]);
    if i == n {
      SoundStep(forms, accounts, before, jobs[n]);
      now := Lookup(before, jobs[n].site);
    } else {
      assert jobs[..n][i] == jobs[i];
      now := JobDone(forms, accounts, jobs[..n], i);
      if jobs[n].unit.Some? { SoundStep(forms, accounts, before, jobs[n]); }
    }
  }

  /** A planned unit's rows parse, and it was planned on an account whose JSON parses. */
  lemma PlannedIsClean(forms: Forms, accounts: seq<Account>, existing: Option<SiteAccount>)
    requires Idempotent(forms) && accounts != [] && PlanUnit(forms, accounts, existing).Unit?
    ensures CleanUnit(forms, PlanUnit(forms, accounts, existing))
    ensures PlanUnit(forms, accounts, existing).create <==> existing.None?
    ensures existing.Some? ==> Clean(forms, existing.value)
    ensures existing.Some? ==> Compare(forms, accounts[0].config, existing.value.config) == Same
    ensures forms.json(accounts[0].config.capabilities).Some?
  {
    var u := PlanUnit(forms, accounts, existing);
    assert u == Gather(forms, accounts, existing);
    var snaps, usage := DistinctSnaps(forms, AllSnaps(accounts)).value, DistinctUsage(forms, AllUsage(accounts)).value;
    CanonicalSnaps(forms, AllSnaps(accounts));
    CanonicalUsage(forms, AllUsage(accounts));
    if existing.Some? { MissingAre(forms, existing.value, snaps); }
    forall k | k in u.usage ensures Load(forms, Store(u.usage[k])).Some? {
      assert u.usage[k] == usage[k];
      LoadStored(forms, usage[k]);
    }
  }

  // ----- migrating the routes

  lemma RouteIdsGrow(rs: seq<Route>)
    requires rs != []
    ensures RouteIds(rs) == RouteIds(rs[..|rs| - 1]) + {rs[|rs| - 1].id}
  {
    var n := |rs| - 1;
    forall id | id in RouteIds(rs) ensures id in RouteIds(rs[..n]) + {rs[n].id} {
      var i :| 0 <= i < |rs| && rs[i].id == id;
      if i < n { assert rs[..n][i].id == id; }
    }
    forall id | id in RouteIds(rs[..n]) ensures id in RouteIds(rs) {
      var i :| 0 <= i < n && rs[..n][i].id == id;
      assert rs[i].id == id;
    }
  }

  lemma RouteOk(l: Legacy, db: Db, d: Db, r: Route)
    requires MigrateRoute(l, db, d, r).Some? && db.modelOf.Keys <= d.modelOf.Keys
    ensures var e := MigrateRoute(l, db, d, r).value;
      && e.modelOf.Keys == d.modelOf.Keys + {r.id}
      && e.sites == d.sites && e.nextSite == d.nextSite && e.siteOf == d.siteOf && e.accounts == d.accounts
  {
  }

  /** Every route gets its mapping; sites, mappings of upstreams and accounts are left alone. */
  lemma {:induction false} RoutesOk(l: Legacy, db: Db, d: Db, rs: seq<Route>)
    requires MigrateRoutes(l, db, d, rs).Some? && d.modelOf == db.modelOf
    ensures var e := MigrateRoutes(l, db, d, rs).value;
      && e.modelOf.Keys == db.modelOf.Keys + RouteIds(rs)
      && e.sites == d.sites && e.nextSite == d.nextSite && e.siteOf == d.siteOf && e.accounts == d.accounts
  {
    if rs == [] {
      assert RouteIds(rs) == {};
    } else {
      RoutesOk(l, db, d, rs[..|rs| - 1]);
      RouteOk(l, db, MigrateRoutes(l, db, d, rs[..|rs| - 1]).value, rs[|rs| - 1]);
      RouteIdsGrow(rs);
    }
  }

  // ----- the plan afterwards

  /** The group's account is created by this migration under an origin whose stored form is not stable. */
  predicate Unrecognised(forms: Forms, l: Legacy, db: Db, key: GroupKey) {
    && UnitOf(forms, l, db, key).Some? && UnitOf(forms, l, db, key).value.Unit?
    && UnitOf(forms, l, db, key).value.create
    && !Stable(forms, GroupAccounts(l, key)[0].config.origin)
  }

  lemma JobsAreClean(forms: Forms, l: Legacy, db: Db)
    requires Idempotent(forms)
    ensures forall i :: 0 <= i < |Jobs(forms, l, db)| ==> CleanJob(forms, db.accounts, Jobs(forms, l, db)[i])
  {
    var jobs, keys := Jobs(forms, l, db), Keys(l.upstreams);
    forall i | 0 <= i < |jobs| ensures CleanJob(forms, db.accounts, jobs[i]) {
      var key := keys[i];
      if jobs[i].unit.Some? && jobs[i].unit.value.Unit? {
        PlannedIsClean(forms, GroupAccounts(l, key), Existing(l, db, key));
      }
    }
  }

  /** One group once its job is done: `acc` is its account at the end, `now` the one its job found. */
  lemma Recognition(forms: Forms, accounts: seq<Account>, existing: Option<SiteAccount>, now: Option<SiteAccount>,
      acc: SiteAccount)
    requires Idempotent(forms) && accounts != [] && PlanUnit(forms, accounts, existing).Unit?
    requires existing.Some? ==> now.Some? && Grew(existing.value, now.value) && Clean(forms, now.value)
    requires Deposit(now, PlanUnit(forms, accounts, existing)).Some?
    requires Grew(Deposit(now, PlanUnit(forms, accounts, existing)).value, acc) && Clean(forms, acc)
    ensures PlanUnit(forms, accounts, Some(acc)) ==
      if existing.None? && !Stable(forms, accounts[0].config.origin) then Conflict
      else Unit(false, acc.config, [], map[])
  {
    PlannedIsClean(forms, accounts, existing);
    DepositCovers(forms, accounts, existing, now);
    GrewCovers(forms, Deposit(now, PlanUnit(forms, accounts, existing)).value, acc, accounts);
    if existing.None? { StoredIsRecognised(forms, accounts[0].config); }
    ReplanIsEmpty(forms, accounts, existing, acc);
  }

  /** After the apply, a group has nothing left to create; it is a conflict exactly when it is not recognised. */
  lemma UnitAfter(forms: Forms, l: Legacy, db: Db, d: Db, i: nat)
    requires Idempotent(forms) && i < |Keys(l.upstreams)|
    requires DepositAll(db.accounts, Jobs(forms, l, db)) == Some(d.accounts)
    requires MappedSite(l.upstreams, d.siteOf, Keys(l.upstreams)[i]) == Some(Home(l, db, i))
    ensures var key := Keys(l.upstreams)[i];
      var unit := UnitOf(forms, l, d, key);
      && UnitCounts(unit) == NO_ACCOUNTS
      && unit != Some(Failed)
      && (unit == Some(Conflict) <==> Unrecognised(forms, l, db, key))
  {
    var key, site := Keys(l.upstreams)[i], Home(l, db, i);
    var jobs := Jobs(forms, l, db);
    var accounts, existing := GroupAccounts(l, key), Existing(l, db, key);
    if accounts != [] {
      JobsAreClean(forms, l, db);
      var now := JobDone(forms, db.accounts, jobs, i);
      PlannedIsClean(forms, accounts, existing);
      Recognition(forms, accounts, existing, now, d.accounts[site]);
      assert Existing(l, d, key) == Some(d.accounts[site]);
    }
  }

  lemma {:induction false} NothingPending(us: seq<Upstream>, siteOf: map<int, int>, key: GroupKey)
    requires forall i :: 0 <= i < |us| ==> us[i].id in siteOf
    ensures Pending(us, siteOf, key) == []
  {
    if us != [] { NothingPending(us[..|us| - 1], siteOf, key); }
  }

  lemma {:induction false} NoGroupCounts(l: Legacy, d: Db, keys: seq<GroupKey>)
    requires forall i :: 0 <= i < |l.upstreams| ==> l.upstreams[i].id in d.siteOf
    requires forall i :: 0 <= i < |keys| ==> MappedSite(l.upstreams, d.siteOf, keys[i]).Some?
    ensures SitesPlanned(l, d, keys) == NO_SITES
  {
    if keys != [] {
      var n := |keys| - 1;
      NoGroupCounts(l, d, keys[..n]);
      NothingPending(l.upstreams, d.siteOf, keys[n]);
      assert EndpointKeys([]) == {} && ModelKeys([]) == {};
    }
  }

  lemma {:induction false} NoAccountCounts(forms: Forms, l: Legacy, d: Db, keys: seq<GroupKey>)
    requires forall i :: 0 <= i < |keys| ==> UnitCounts(UnitOf(forms, l, d, keys[i])) == NO_ACCOUNTS
    ensures AccountsPlanned(forms, l, d, keys) == NO_ACCOUNTS
  {
    if keys != [] {
      NoAccountCounts(forms, l, d, keys[..|keys| - 1]);
    }
  }

  lemma {:induction false} NoRouteCounts(l: Legacy, d: Db, rs: seq<Route>)
    requires forall i :: 0 <= i < |rs| ==> rs[i].id in d.modelOf
    ensures RoutesPlanned(l, d, rs) == NO_ROUTES
  {
    if rs != [] {
      NoRouteCounts(l, d, rs[..|rs| - 1]);
    }
  }

  lemma {:induction false} CountIds(us: seq<Upstream>)
    requires DistinctUpstreams(us)
    ensures |UpstreamIds(us)| == |us|
  {
    if us == [] {
      assert UpstreamIds(us) == {};
    } else {
      var n := |us| - 1;
      CountIds(us[..n]);
      IdsGrow(us);
      assert us[n].id !in UpstreamIds(us[..n]);
    }
  }

  lemma {:induction false} CountRouteIds(rs: seq<Route>)
    requires DistinctRoutes(rs)
    ensures |RouteIds(rs)| == |rs|
  {
    if rs == [] {
      assert RouteIds(rs) == {};
    } else {
      var n := |rs| - 1;
      CountRouteIds(rs[..n]);
      RouteIdsGrow(rs);
      assert rs[n].id !in RouteIds(rs[..n]);
    }
  }

  lemma MappedAll(l: Legacy, siteOf: map<int, int>, modelOf: map<int, int>)
    requires DistinctUpstreams(l.upstreams) && DistinctRoutes(l.routes)
    requires siteOf.Keys == UpstreamIds(l.upstreams) && modelOf.Keys == RouteIds(l.routes)
    ensures forall i :: 0 <= i < |l.upstreams| ==> l.upstreams[i].id in siteOf
    ensures forall i :: 0 <= i < |l.routes| ==> l.routes[i].id in modelOf
    ensures |siteOf| == |l.upstreams| && |modelOf| == |l.routes|
  {
    CountIds(l.upstreams);
    CountRouteIds(l.routes);
    assert |siteOf| == |siteOf.Keys| && |modelOf| == |modelOf.Keys|;
  }

  ghost predicate AllRecognised(forms: Forms, l: Legacy, db: Db) {
    forall key :: key in Keys(l.upstreams) ==> !Unrecognised(forms, l, db, key)
  }

  /** A successful apply has deposited all accounts and then migrated the routes. */
  lemma Phases(forms: Forms, l: Legacy, db: Db, refused: bool)
    requires Apply(forms, l, db, refused).Some?
    ensures DepositAll(db.accounts, Jobs(forms, l, db)).Some?
    ensures var e := Place(l, db).(accounts := DepositAll(db.accounts, Jobs(forms, l, db)).value);
      MigrateRoutes(l, db, e, l.routes) == Apply(forms, l, db, refused)
  {
  }

  lemma RoutesDone(l: Legacy, db: Db, e: Db)
    requires MigrateRoutes(l, db, e, l.routes).Some? && e.modelOf == db.modelOf
    requires db.modelOf.Keys <= RouteIds(l.routes)
    ensures var d := MigrateRoutes(l, db, e, l.routes).value;
      && d.modelOf.Keys == RouteIds(l.routes)
      && d.sites == e.sites && d.nextSite == e.nextSite && d.siteOf == e.siteOf && d.accounts == e.accounts
  {
    RoutesOk(l, db, e, l.routes);
    assert db.modelOf.Keys + RouteIds(l.routes) == RouteIds(l.routes);
  }

  /** What a successful apply leaves behind. */
  lemma Applies(forms: Forms, l: Legacy, db: Db, refused: bool)
    requires db.modelOf.Keys <= RouteIds(l.routes) && Apply(forms, l, db, refused).Some?
    ensures var d := Apply(forms, l, db, refused).value;
      && DepositAll(db.accounts, Jobs(forms, l, db)) == Some(d.accounts)
      && d.siteOf == MapUpstreams(l.upstreams, db.siteOf, Placement(l, db))
      && d.sites == Place(l, db).sites && d.nextSite == Place(l, db).nextSite
      && d.modelOf.Keys == RouteIds(l.routes)
  {
    Phases(forms, l, db, refused);
    RoutesDone(l, db, Place(l, db).(accounts := DepositAll(db.accounts, Jobs(forms, l, db)).value));
  }

  /** Nothing is left to conflict in a state where everything is mapped. */
  lemma NothingUnfinished(l: Legacy, d: Db)
    requires forall i :: 0 <= i < |l.upstreams| ==> l.upstreams[i].id in d.siteOf
    requires forall i :: 0 <= i < |l.routes| ==> l.routes[i].id in d.modelOf
    ensures !Unfinished(l, d) && !EmptyCredential(l, d)
    ensures forall i :: 0 <= i < |l.routes| ==> !RouteConflict(l, d, l.routes[i])
  {
  }

  lemma GroupsAfter(forms: Forms, l: Legacy, db: Db, d: Db)
    requires Idempotent(forms)
    requires DepositAll(db.accounts, Jobs(forms, l, db)) == Some(d.accounts)
    requires forall i :: 0 <= i < |Keys(l.upstreams)| ==>
      MappedSite(l.upstreams, d.siteOf, Keys(l.upstreams)[i]) == Some(Home(l, db, i))
    ensures AccountsPlanned(forms, l, d, Keys(l.upstreams)) == NO_ACCOUNTS
    ensures !PlanFails(forms, l, d)
    ensures forall key :: key in Keys(l.upstreams) ==>
      (UnitOf(forms, l, d, key) == Some(Conflict) <==> Unrecognised(forms, l, db, key))
  {
    var keys := Keys(l.upstreams);
    forall i | 0 <= i < |keys| ensures UnitCounts(UnitOf(forms, l, d, keys[i])) == NO_ACCOUNTS {
      UnitAfter(forms, l, db, d, i);
    }
    NoAccountCounts(forms, l, d, keys);
    forall key | key in keys
      ensures UnitOf(forms, l, d, key) != Some(Failed)
      ensures UnitOf(forms, l, d, key) == Some(Conflict) <==> Unrecognised(forms, l, db, key)
    {
      UnitAfter(forms, l, db, d, Index(keys, key));
    }
  }

  /** The plan rebuilt after a successful apply never has anything to create and never needs force. It reports the
      migration as already applied exactly when every account that was created has an origin whose stored form is
      stable; otherwise it reports a hard conflict. */
  lemma PlanAfterApply(forms: Forms, l: Legacy, db: Db, refused: bool)
    requires Idempotent(forms) && Schema(l, db) && Consistent(l.upstreams, db.siteOf)
    requires Apply(forms, l, db, refused).Some?
    ensures var d := Apply(forms, l, db, refused).value;
      Build(forms, l, d) == Some(Preview(NOTHING, !AllRecognised(forms, l, db), false, AllRecognised(forms, l, db)))
  {
    var d := Apply(forms, l, db, refused).value;
    Applies(forms, l, db, refused);
    PlacedOk(l, db);
    MappedAll(l, d.siteOf, d.modelOf);
    NoGroupCounts(l, d, Keys(l.upstreams));
    NoRouteCounts(l, d, l.routes);
    GroupsAfter(forms, l, db, d);
    NothingUnfinished(l, d);
    ConflictAfter(forms, l, db, d);
    PreviewOf(forms, l, d, AllRecognised(forms, l, db));
  }

  lemma PreviewOf(forms: Forms, l: Legacy, d: Db, recognised: bool)
    requires !PlanFails(forms, l, d) && Planned(forms, l, d) == NOTHING
    requires !Unfinished(l, d) && HardConflict(forms, l, d) == !recognised
    requires |d.siteOf| == |l.upstreams| && |d.modelOf| == |l.routes|
    ensures Build(forms, l, d) == Some(Preview(NOTHING, !recognised, false, recognised))
  {
    var built := Build(forms, l, d);
    assert built.Some?;
    var p := built.value;
    assert p.plan == NOTHING;
    assert p.hard == !recognised;
    assert !p.needsForce;
    assert p.alreadyApplied == recognised;
  }

  lemma ConflictAfter(forms: Forms, l: Legacy, db: Db, d: Db)
    requires Consistent(l.upstreams, d.siteOf) && !EmptyCredential(l, d)
    requires forall i :: 0 <= i < |l.routes| ==> !RouteConflict(l, d, l.routes[i])
    requires forall key :: key in Keys(l.upstreams) ==>
      (UnitOf(forms, l, d, key) == Some(Conflict) <==> Unrecognised(forms, l, db, key))
    ensures HardConflict(forms, l, d) <==> !AllRecognised(forms, l, db)
  {
  }

  /** Fixed point: once the migration has been applied, applying it again, with or without force, changes nothing: it
      finds nothing to do when all created accounts are recognised, and is blocked when one is not. */
  lemma MigrateTwice(forms: Forms, l: Legacy, db: Db, samePlan: bool, force: bool, refused: bool, again: bool,
      refused2: bool)
    requires Idempotent(forms) && Schema(l, db) && Migrate(forms, l, db, samePlan, force, refused).1 == Applied
    ensures var d := Migrate(forms, l, db, samePlan, force, refused).0;
      Migrate(forms, l, d, true, again, refused2) == (d, if AllRecognised(forms, l, db) then NothingToDo else Blocked)
  {
    assert Consistent(l.upstreams, db.siteOf);
    PlanAfterApply(forms, l, db, refused);
  }

  /** A created account keeps white space at the end of its stored origin. */
  predicate EndsInSpace(json: string -> Option<string>, l: Legacy, db: Db, key: GroupKey) {
    var unit := UnitOf(TheForms(json), l, db, key);
    && unit.Some? && unit.value.Unit? && unit.value.create
    && var origin := Origin(GroupAccounts(l, key)[0].config.origin);
    && origin != [] && IsSpace(origin[|origin| - 1])
  }

  /** The same for the forms the migration really uses: a second migration finds everything applied exactly when no
      account was created whose API origin, once trimmed, had white space before its trailing slashes. */
  lemma FixedPoint(json: string -> Option<string>, l: Legacy, db: Db, samePlan: bool, force: bool, refused: bool,
                   again: bool, refused2: bool)
    requires forall x, y :: json(x) == Some(y) ==> json(y) == Some(y)
    requires Schema(l, db) && Migrate(TheForms(json), l, db, samePlan, force, refused).1 == Applied
    ensures var d := Migrate(TheForms(json), l, db, samePlan, force, refused).0;
      var unstable := exists key :: key in Keys(l.upstreams) && EndsInSpace(json, l, db, key);
      var verdict := if unstable then Blocked else NothingToDo;
      Migrate(TheForms(json), l, d, true, again, refused2) == (d, verdict)
  {
    var forms := TheForms(json);
    TheFormsAre(json);
    MigrateTwice(forms, l, db, samePlan, force, refused, again, refused2);
    forall key | key in Keys(l.upstreams)
      ensures Unrecognised(forms, l, db, key) <==> EndsInSpace(json, l, db, key)
    {
      RecognisedIff(json, l, db, key);
    }
  }

  lemma RecognisedIff(json: string -> Option<string>, l: Legacy, db: Db, key: GroupKey)
    requires forall s :: Stable(TheForms(json), s) <==> Origin(s) == [] || !IsSpace(Origin(s)[|Origin(s)| - 1])
    ensures Unrecognised(TheForms(json), l, db, key) <==> EndsInSpace(json, l, db, key)
  {
  }

  /** Applying keeps the schema, so the theorems hold for any number of migrations, also after legacy rows are added. */
  lemma ApplyKeepsSchema(forms: Forms, l: Legacy, db: Db, refused: bool)
    requires Schema(l, db) && Consistent(l.upstreams, db.siteOf) && Apply(forms, l, db, refused).Some?
    ensures Schema(l, Apply(forms, l, db, refused).value)
  {
    var d := Apply(forms, l, db, refused).value;
    Applies(forms, l, db, refused);
    PlacedKeys(l, db);
    PlacedSites(l, db);
    DepositsAtSites(db.accounts, Jobs(forms, l, db));
    JobSites(forms, l, db);
    assert SitesOk(d.sites, d.nextSite, d.siteOf, d.accounts);
  }

  lemma PlacedKeys(l: Legacy, db: Db)
    requires DistinctUpstreams(l.upstreams) && db.siteOf.Keys <= UpstreamIds(l.upstreams)
    ensures MapUpstreams(l.upstreams, db.siteOf, Placement(l, db)).Keys == UpstreamIds(l.upstreams)
  {
    Mapped(l.upstreams, db.siteOf, Placement(l, db));
  }

  lemma JobSites(forms: Forms, l: Legacy, db: Db)
    requires SitesOk(db.sites, db.nextSite, db.siteOf, db.accounts)
    ensures forall i :: 0 <= i < |Jobs(forms, l, db)| ==> Jobs(forms, l, db)[i].site in Place(l, db).sites
  {
    HomesBelow(l, db, |Keys(l.upstreams)|);
  }

  /** Every mapped site exists, and new sites have new ids. */
  lemma PlacedSites(l: Legacy, db: Db)
    requires DistinctUpstreams(l.upstreams) && Consistent(l.upstreams, db.siteOf)
    requires db.siteOf.Keys <= UpstreamIds(l.upstreams)
    requires SitesOk(db.sites, db.nextSite, db.siteOf, db.accounts)
    ensures var d := Place(l, db);
      && (forall id :: id in d.siteOf ==> d.siteOf[id] in d.sites)
      && (forall s :: s in d.sites ==> s < d.nextSite)
  {
    PlacedOk(l, db);
    HomesBelow(l, db, |Keys(l.upstreams)|);
    var d := Place(l, db);
    forall id | id in d.siteOf ensures d.siteOf[id] in d.sites {
      assert id in UpstreamIds(l.upstreams);
      var i :| 0 <= i < |l.upstreams| && l.upstreams[i].id == id;
      assert l.upstreams[i] in l.upstreams;
      PlacementHome(l, db, l.upstreams[i]);
    }
  }

  lemma PlacementHome(l: Legacy, db: Db, u: Upstream)
    requires u in l.upstreams && SitesOk(db.sites, db.nextSite, db.siteOf, db.accounts)
    ensures Placement(l, db)(KeyOf(u)) in HomeSites(l, db, |Keys(l.upstreams)|)
  {
    var i :| 0 <= i < |l.upstreams| && l.upstreams[i] == u;
    KeysCover(l.upstreams, i);
    HomesBelow(l, db, |Keys(l.upstreams)|);
    PlacementIs(l, db, Index(Keys(l.upstreams), KeyOf(u)));
  }

  lemma {:induction false} HomesBelow(l: Legacy, db: Db, n: nat)
    requires SitesOk(db.sites, db.nextSite, db.siteOf, db.accounts) && n <= |Keys(l.upstreams)|
    ensures forall i :: 0 <= i < n ==> Home(l, db, i) in HomeSites(l, db, n)
    ensures forall s :: s in HomeSites(l, db, n) ==> s < db.nextSite + NewSites(l, db, n)
  {
    if n > 0 {
      HomesBelow(l, db, n - 1);
      var key := Keys(l.upstreams)[n - 1];
      MappedMember(l.upstreams, db.siteOf, key);
    }
  }

  lemma {:induction false} DepositsAtSites(accounts: map<int, SiteAccount>, jobs: seq<Job>)
    requires DepositAll(accounts, jobs).Some?
    ensures forall s :: s in DepositAll(accounts, jobs).value ==>
      s in accounts || exists i :: 0 <= i < |jobs| && s == jobs[i].site
  {
    if jobs != [] {
      var n := |jobs| - 1;
      DepositsAtSites(accounts, jobs[..n]);
      forall s | s in DepositAll(accounts, jobs[..n]).value && s !in accounts
        ensures exists i :: 0 <= i < |jobs| && s == jobs[i].site
      {
        var i :| 0 <= i < n && s == jobs[..n][i].site;
        assert jobs[i].site == s;
      }
    }
  }
}
