/** Exactly when a migration succeeds, and exactly when a call ends with which verdict. */
module MigrationSuccess {
  import opened Wrappers
  import opened MigrationAccounts
  import opened Migration
  import opened MigrationTheorems
  import opened MigrationEffects
  import opened MigrationMoved
  import opened MigrationVerdicts

  // ----- depositing

  /** The keys of the usage records that a job brings. */
  function Records(job: Job): set<string> {
    if job.unit.Some? && job.unit.value.Unit? then job.unit.value.usage.Keys else {}
  }

  /** A new account needs an adapter, an origin and credentials. */
  predicate Storable(u: UnitPlan)
    requires u.Unit?
  {
    u.create ==> u.config.adapter != "" && u.config.origin != "" && u.config.auth != []
  }

  /** The jobs were planned for these accounts: they create what is not there. */
  ghost predicate PlannedFor(accounts: map<int, SiteAccount>, jobs: seq<Job>) {
    forall i :: 0 <= i < |jobs| && jobs[i].unit.Some? && jobs[i].unit.value.Unit? ==>
      if jobs[i].site in accounts
      then !jobs[i].unit.value.create && Records(jobs[i]) !! accounts[jobs[i].site].usage.Keys
      else jobs[i].unit.value.create
  }

  /** The two jobs do not get into each other's way. */
  predicate Apart(a: Job, b: Job) {
    a.unit.Some? && a.unit.value.Unit? && b.unit.Some? && b.unit.value.Unit? && a.site == b.site ==>
      !a.unit.value.create && !b.unit.value.create && Records(a) !! Records(b)
  }

  ghost predicate Depositable(jobs: seq<Job>) {
    && (forall i :: 0 <= i < |jobs| ==> JobFits(jobs[i]))
    && forall i, j :: 0 <= i < j < |jobs| ==> Apart(jobs[i], jobs[j])
  }

  predicate JobFits(job: Job) { job.unit.Some? ==> job.unit.value.Unit? && Storable(job.unit.value) }

  ghost predicate AccountAt(accounts: map<int, SiteAccount>, jobs: seq<Job>, site: int) {
    site in accounts || exists i :: 0 <= i < |jobs| && Brings(jobs[i], site)
  }

  ghost predicate RecordAt(accounts: map<int, SiteAccount>, jobs: seq<Job>, site: int, key: string) {
    (site in accounts && key in accounts[site].usage) ||
    exists i :: 0 <= i < |jobs| && Brings(jobs[i], site) && key in Records(jobs[i])
  }

  /** Which accounts there are after the jobs, and which records they have. */
  ghost predicate Filled(accounts: map<int, SiteAccount>, jobs: seq<Job>, after: map<int, SiteAccount>) {
    && (forall s :: s in after <==> AccountAt(accounts, jobs, s))
    && forall s, k :: s in after ==> (k in after[s].usage <==> RecordAt(accounts, jobs, s, k))
  }

  predicate Brings(job: Job, site: int) { job.unit.Some? && job.unit.value.Unit? && job.site == site }

  lemma OneFilled(existing: Option<SiteAccount>, u: UnitPlan)
    requires u.Unit? && Deposit(existing, u).Some?
    ensures forall k :: k in Deposit(existing, u).value.usage <==>
      k in u.usage || (existing.Some? && k in existing.value.usage)
  {
  }

  lemma {:induction false} DepositsFill(accounts: map<int, SiteAccount>, jobs: seq<Job>)
    requires DepositAll(accounts, jobs).Some?
    ensures Filled(accounts, jobs, DepositAll(accounts, jobs).value)
  {
    if jobs != [] {
      var n := |jobs| - 1;
      DepositsFill(accounts, jobs[..n]);
      var before := DepositAll(accounts, jobs[..n]).value;
      if jobs[n].unit.Some? {
        OneFilled(Lookup(before, jobs[n].site), jobs[n].unit.value);
      }
      FilledNext(accounts, jobs, before, DepositAll(accounts, jobs).value);
    }
  }

  lemma FilledNext(accounts: map<int, SiteAccount>, jobs: seq<Job>, before: map<int, SiteAccount>,
      after: map<int, SiteAccount>)
    requires jobs != [] && Filled(accounts, jobs[..|jobs| - 1], before)
    requires var job := jobs[|jobs| - 1];
      && (forall s :: s in after <==> s in before || Brings(job, s))
      && (forall s :: s in before && !Brings(job, s) ==> after[s] == before[s])
      && forall s, k :: s in after && Brings(job, s) ==>
           (k in after[s].usage <==> k in Records(job) || (s in before && k in before[s].usage))
    ensures Filled(accounts, jobs, after)
  {
    var n := |jobs| - 1;
    forall s ensures AccountAt(accounts, jobs, s) <==> AccountAt(accounts, jobs[..n], s) || Brings(jobs[n], s) {
      AtNext(accounts, jobs, s, "");
    }
    forall s, k
      ensures RecordAt(accounts, jobs, s, k) <==>
        RecordAt(accounts, jobs[..n], s, k) || (Brings(jobs[n], s) && k in Records(jobs[n]))
    {
      AtNext(accounts, jobs, s, k);
    }
  }

  lemma AtNext(accounts: map<int, SiteAccount>, jobs: seq<Job>, s: int, k: string)
    requires jobs != []
    ensures var n := |jobs| - 1;
      && (AccountAt(accounts, jobs, s) <==> AccountAt(accounts, jobs[..n], s) || Brings(jobs[n], s))
      && (RecordAt(accounts, jobs, s, k) <==>
           RecordAt(accounts, jobs[..n], s, k) || (Brings(jobs[n], s) && k in Records(jobs[n])))
  {
    var n := |jobs| - 1;
    assert forall i :: 0 <= i < n ==> jobs[..n][i] == jobs[i];
  }

  lemma LastDeposit(accounts: map<int, SiteAccount>, jobs: seq<Job>, before: map<int, SiteAccount>)
    requires jobs != [] && PlannedFor(accounts, jobs) && Filled(accounts, jobs[..|jobs| - 1], before)
    requires Brings(jobs[|jobs| - 1], jobs[|jobs| - 1].site)
    ensures var job := jobs[|jobs| - 1];
      Deposit(Lookup(before, job.site), job.unit.value).Some? <==>
        Storable(job.unit.value) && forall i :: 0 <= i < |jobs| - 1 ==> Apart(jobs[i], job)
  {
    var n, job := |jobs| - 1, jobs[|jobs| - 1];
    var u := job.unit.value;
    assert forall i :: 0 <= i < n ==> jobs[..n][i] == jobs[i];
    assert job.site in before <==> AccountAt(accounts, jobs[..n], job.site);
    if job.site in before {
      forall k ensures k in before[job.site].usage <==> RecordAt(accounts, jobs[..n], job.site, k) {}
    }
  }

  /** The jobs all succeed exactly when each can be stored and no two are in each other's way. */
  lemma {:induction false} DepositsIff(accounts: map<int, SiteAccount>, jobs: seq<Job>)
    requires PlannedFor(accounts, jobs)
    ensures DepositAll(accounts, jobs).Some? <==> Depositable(jobs)
  {
    if jobs != [] {
      var n := |jobs| - 1;
      var before := DepositAll(accounts, jobs[..n]);
      assert forall i :: 0 <= i < n ==> jobs[..n][i] == jobs[i];
      DepositsIff(accounts, jobs[..n]);
      DepositableNext(jobs);
      if before.Some? && Brings(jobs[n], jobs[n].site) {
        DepositsFill(accounts, jobs[..n]);
        LastDeposit(accounts, jobs, before.value);
      }
    }
  }

  lemma DepositableNext(jobs: seq<Job>)
    requires jobs != []
    ensures var n := |jobs| - 1;
      Depositable(jobs) <==>
        && Depositable(jobs[..n])
        && JobFits(jobs[n])
        && forall i :: 0 <= i < n ==> Apart(jobs[i], jobs[n])
  {
    var n := |jobs| - 1;
    assert forall i :: 0 <= i < n ==> jobs[..n][i] == jobs[i];
  }

  /** The account of a new site gets an adapter and an origin, and two groups on one site bring no record of one key
      that the site's account, which then exists, does not have. */
  ghost predicate AccountsFit(forms: Forms, l: Legacy, db: Db) {
    && (forall i :: 0 <= i < |Keys(l.upstreams)| ==> GroupFits(forms, l, db, i))
    && forall i, j :: 0 <= i < j < |Keys(l.upstreams)| ==> GroupsFit(l, db, i, j)
  }

  ghost predicate Compatible(existing: Option<SiteAccount>, a: seq<Account>, b: seq<Account>) {
    a != [] && b != [] ==>
      && existing.Some?
      && forall r, q :: r in AllUsage(a) && q in AllUsage(b) && r.key == q.key ==> r.key in existing.value.usage
  }

  /** What a planned unit creates where. */
  lemma UnitFits(forms: Forms, accounts: seq<Account>, existing: Option<SiteAccount>)
    requires accounts != [] && PlanUnit(forms, accounts, existing).Unit?
    ensures var u := PlanUnit(forms, accounts, existing);
      && (u.create <==> existing.None?)
      && (existing.Some? ==> u.usage.Keys !! existing.value.usage.Keys)
      && (Storable(u) <==>
           (existing.None? ==> forms.adapter(accounts[0].config.adapter) != "" &&
                               forms.origin(accounts[0].config.origin) != ""))
      && forall k :: k in u.usage <==>
           (exists r :: r in AllUsage(accounts) && r.key == k) && (existing.None? || k !in existing.value.usage)
  {
    UnitIff(forms, accounts, existing);
    UsageKept(forms, AllUsage(accounts));
    assert PlanUnit(forms, accounts, existing) == Gather(forms, accounts, existing);
  }

  lemma UnitsApart(forms: Forms, a: seq<Account>, b: seq<Account>, existing: Option<SiteAccount>, site: int)
    requires a != [] && PlanUnit(forms, a, existing).Unit? && b != [] && PlanUnit(forms, b, existing).Unit?
    ensures Apart(Job(site, Some(PlanUnit(forms, a, existing))), Job(site, Some(PlanUnit(forms, b, existing)))) <==>
      Compatible(existing, a, b)
  {
    UnitFits(forms, a, existing);
    UnitFits(forms, b, existing);
    var u, v := PlanUnit(forms, a, existing).usage, PlanUnit(forms, b, existing).usage;
    if Compatible(existing, a, b) {
      forall k | k in u ensures k !in v {}
    }
    if existing.Some? && u.Keys !! v.Keys {
      forall r, q | r in AllUsage(a) && q in AllUsage(b) && r.key == q.key ensures r.key in existing.value.usage {
        assert r.key in u ==> r.key !in v;
      }
    }
  }

  lemma JobsPlanned(forms: Forms, l: Legacy, db: Db)
    requires SitesOk(db.sites, db.nextSite, db.siteOf, db.accounts)
    ensures PlannedFor(db.accounts, Jobs(forms, l, db))
  {
    var jobs, keys := Jobs(forms, l, db), Keys(l.upstreams);
    forall i | 0 <= i < |jobs| && jobs[i].unit.Some? && jobs[i].unit.value.Unit?
      ensures if jobs[i].site in db.accounts
              then !jobs[i].unit.value.create && Records(jobs[i]) !! db.accounts[jobs[i].site].usage.Keys
              else jobs[i].unit.value.create
    {
      ExistingIs(l, db, i);
      UnitFits(forms, GroupAccounts(l, keys[i]), Existing(l, db, keys[i]));
    }
  }

  /** No group's accounts contradict one another or end the planning. */
  ghost predicate AllPlanned(forms: Forms, l: Legacy, db: Db) {
    forall i :: 0 <= i < |Keys(l.upstreams)| ==>
      UnitOf(forms, l, db, Keys(l.upstreams)[i]).Some? ==> UnitOf(forms, l, db, Keys(l.upstreams)[i]).value.Unit?
  }

  /** The group has no account to store under an empty adapter or origin. */
  ghost predicate GroupFits(forms: Forms, l: Legacy, db: Db, i: nat)
    requires i < |Keys(l.upstreams)|
  {
    var accounts := GroupAccounts(l, Keys(l.upstreams)[i]);
    accounts != [] && Home(l, db, i) !in db.accounts ==>
      forms.adapter(accounts[0].config.adapter) != "" && forms.origin(accounts[0].config.origin) != ""
  }

  ghost predicate GroupsFit(l: Legacy, db: Db, i: nat, j: nat)
    requires i < |Keys(l.upstreams)| && j < |Keys(l.upstreams)|
  {
    var keys := Keys(l.upstreams);
    Home(l, db, i) == Home(l, db, j) ==>
      Compatible(Lookup(db.accounts, Home(l, db, i)), GroupAccounts(l, keys[i]), GroupAccounts(l, keys[j]))
  }

  lemma StorableIs(forms: Forms, l: Legacy, db: Db, i: nat)
    requires SitesOk(db.sites, db.nextSite, db.siteOf, db.accounts) && AllPlanned(forms, l, db)
    requires i < |Keys(l.upstreams)|
    ensures JobFits(Jobs(forms, l, db)[i]) <==> GroupFits(forms, l, db, i)
  {
    var key := Keys(l.upstreams)[i];
    ExistingIs(l, db, i);
    if UnitOf(forms, l, db, key).Some? { UnitFits(forms, GroupAccounts(l, key), Existing(l, db, key)); }
  }

  lemma ApartIs(forms: Forms, l: Legacy, db: Db, i: nat, j: nat)
    requires SitesOk(db.sites, db.nextSite, db.siteOf, db.accounts) && AllPlanned(forms, l, db)
    requires i < |Keys(l.upstreams)| && j < |Keys(l.upstreams)|
    ensures Apart(Jobs(forms, l, db)[i], Jobs(forms, l, db)[j]) <==> GroupsFit(l, db, i, j)
  {
    var jobs, keys := Jobs(forms, l, db), Keys(l.upstreams);
    ExistingIs(l, db, i);
    ExistingIs(l, db, j);
    if jobs[i].unit.Some? && jobs[j].unit.Some? && jobs[i].site == jobs[j].site {
      UnitsApart(forms, GroupAccounts(l, keys[i]), GroupAccounts(l, keys[j]), Existing(l, db, keys[i]), jobs[i].site);
    }
  }

  lemma FitIsDepositable(forms: Forms, l: Legacy, db: Db)
    requires SitesOk(db.sites, db.nextSite, db.siteOf, db.accounts) && AllPlanned(forms, l, db)
    ensures Depositable(Jobs(forms, l, db)) <==> AccountsFit(forms, l, db)
  {
    if Depositable(Jobs(forms, l, db)) { DepositableFit(forms, l, db); }
    if AccountsFit(forms, l, db) { FitDepositable(forms, l, db); }
  }

  lemma DepositableFit(forms: Forms, l: Legacy, db: Db)
    requires SitesOk(db.sites, db.nextSite, db.siteOf, db.accounts) && AllPlanned(forms, l, db)
    requires Depositable(Jobs(forms, l, db))
    ensures AccountsFit(forms, l, db)
  {
    forall i | 0 <= i < |Keys(l.upstreams)| ensures GroupFits(forms, l, db, i) { StorableIs(forms, l, db, i); }
    forall i, j | 0 <= i < j < |Keys(l.upstreams)| ensures GroupsFit(l, db, i, j) { ApartIs(forms, l, db, i, j); }
  }

  lemma FitDepositable(forms: Forms, l: Legacy, db: Db)
    requires SitesOk(db.sites, db.nextSite, db.siteOf, db.accounts) && AllPlanned(forms, l, db)
    requires AccountsFit(forms, l, db)
    ensures Depositable(Jobs(forms, l, db))
  {
    var jobs := Jobs(forms, l, db);
    forall i | 0 <= i < |jobs| ensures JobFits(jobs[i]) { StorableIs(forms, l, db, i); }
    forall i, j | 0 <= i < j < |jobs| ensures Apart(jobs[i], jobs[j]) { ApartIs(forms, l, db, i, j); }
  }

  // ----- publishing

  /** The name under which a route without a model is to be published. */
  function NewName(db: Db, r: Route): Option<string> {
    if r.id in db.modelOf then None else Some(TrimSpace(r.name))
  }

  function NewNames(db: Db, rs: seq<Route>): seq<Option<string>> {
    if rs == [] then [] else NewNames(db, rs[..|rs| - 1]) + [NewName(db, rs[|rs| - 1])]
  }

  /** The names are not blank, not taken, and differ from one another. */
  ghost predicate NamesFit(taken: set<string>, names: seq<Option<string>>) {
    && (forall i :: 0 <= i < |names| && names[i].Some? ==> names[i].value != "" && names[i].value !in taken)
    && forall i, j :: 0 <= i < j < |names| && names[i].Some? ==> names[i] != names[j]
  }

  lemma OneMoreName(taken: set<string>, names: seq<Option<string>>, name: Option<string>)
    ensures NamesFit(taken, names + [name]) <==>
      NamesFit(taken, names) && (name.Some? ==> name.value != "" && name.value !in taken && name !in names)
  {
    var more := names + [name];
    assert more[|names|] == name && forall i :: 0 <= i < |names| ==> more[i] == names[i];
  }

  /** Model ids grow, and the names are those that were there and the new ones. */
  ghost predicate Named(before: set<string>, names: seq<Option<string>>, d: Db) {
    && (forall m :: m in d.names ==> m < d.nextModel)
    && forall x :: x in d.names.Values <==> x in before || Some(x) in names
  }

  lemma IdOf<T>(names: map<int, T>, x: T) returns (m: int)
    requires x in names.Values
    ensures m in names && names[m] == x
  {
    if forall k :: k in names ==> names[k] != x {
      assert false;
    }
    m :| m in names && names[m] == x;
  }

  lemma PublishNames(before: set<string>, names: seq<Option<string>>, d: Db, route: int, name: string,
      rows: seq<Routes.Row>)
    requires Named(before, names, d)
    ensures Named(before, names + [Some(name)], Publish(d, route, name, rows))
  {
    var f := Publish(d, route, name, rows);
    forall x ensures x in f.names.Values <==> x in d.names.Values || x == name {
      if x in d.names.Values {
        var m := IdOf(d.names, x);
        assert f.names[m] == x;
      }
      assert f.names[d.nextModel] == name;
    }
  }

  /** One route, told from the name and rows it asks for. */
  function PublishUnder(d: Db, route: int, name: Option<string>, rows: seq<Routes.Row>): Option<Db> {
    if name.None? then Some(d)
    else if name.value == "" || name.value in d.names.Values then None
    else Some(Publish(d, route, name.value, rows))
  }

  lemma OneRoute(l: Legacy, db: Db, d: Db, r: Route)
    ensures MigrateRoute(l, db, d, r) == PublishUnder(d, r.id, NewName(db, r), RowsOf(l, db, r))
  {
  }

  /** The names fit so far exactly when there is a state, and then it has them. */
  ghost predicate Through(before: set<string>, names: seq<Option<string>>, d: Option<Db>) {
    && (d.Some? <==> NamesFit(before, names))
    && (d.Some? ==> Named(before, names, d.value))
  }

  lemma ThroughNext(before: set<string>, names: seq<Option<string>>, d: Option<Db>, route: int, name: Option<string>,
      rows: seq<Routes.Row>)
    requires Through(before, names, d)
    ensures Through(before, names + [name], if d.None? then None else PublishUnder(d.value, route, name, rows))
  {
    OneMoreName(before, names, name);
    if d.Some? && name.Some? { PublishNames(before, names, d.value, route, name.value, rows); }
  }

  lemma RoutesNext(l: Legacy, db: Db, d: Db, rs: seq<Route>, before: Option<Db>)
    requires rs != [] && before == MigrateRoutes(l, db, d, rs[..|rs| - 1])
    ensures var r := rs[|rs| - 1];
      MigrateRoutes(l, db, d, rs) ==
        if before.None? then None else PublishUnder(before.value, r.id, NewName(db, r), RowsOf(l, db, r))
  {
    if before.Some? { OneRoute(l, db, before.value, rs[|rs| - 1]); }
  }

  /** The routes are all published exactly when their names fit. */
  lemma {:induction false} RoutesIff(l: Legacy, db: Db, d: Db, rs: seq<Route>)
    requires forall m :: m in d.names ==> m < d.nextModel
    ensures Through(d.names.Values, NewNames(db, rs), MigrateRoutes(l, db, d, rs))
  {
    if rs != [] {
      var r, before := rs[|rs| - 1], MigrateRoutes(l, db, d, rs[..|rs| - 1]);
      RoutesIff(l, db, d, rs[..|rs| - 1]);
      ThroughNext(d.names.Values, NewNames(db, rs[..|rs| - 1]), before, r.id, NewName(db, r), RowsOf(l, db, r));
      RoutesNext(l, db, d, rs, before);
    }
  }

  // ----- the transaction and the verdicts

  lemma AllDeposited(forms: Forms, l: Legacy, db: Db)
    requires SitesOk(db.sites, db.nextSite, db.siteOf, db.accounts) && AllPlanned(forms, l, db)
    ensures DepositAll(db.accounts, Jobs(forms, l, db)).Some? <==> AccountsFit(forms, l, db)
  {
    JobsPlanned(forms, l, db);
    DepositsIff(db.accounts, Jobs(forms, l, db));
    FitIsDepositable(forms, l, db);
  }

  lemma AllPublished(l: Legacy, db: Db, accounts: map<int, SiteAccount>)
    requires ModelsOk(db)
    ensures MigrateRoutes(l, db, Place(l, db).(accounts := accounts), l.routes).Some? <==>
      NamesFit(db.names.Values, NewNames(db, l.routes))
  {
    RoutesIff(l, db, Place(l, db).(accounts := accounts), l.routes);
  }

  /** The plan can always be built again at the end of the transaction. */
  lemma CanPlanAgain(forms: Forms, l: Legacy, db: Db, accounts: map<int, SiteAccount>, d: Db)
    requires Idempotent(forms) && Schema(l, db) && Consistent(l.upstreams, db.siteOf)
    requires DepositAll(db.accounts, Jobs(forms, l, db)) == Some(accounts)
    requires MigrateRoutes(l, db, Place(l, db).(accounts := accounts), l.routes) == Some(d)
    ensures Build(forms, l, d).Some?
  {
    RoutesOk(l, db, Place(l, db).(accounts := accounts), l.routes);
    PlacedOk(l, db);
    GroupsAfter(forms, l, db, d);
  }

  /** The transaction commits exactly when no insert is refused elsewhere, the accounts fit and the names fit. */
  lemma AppliesIff(forms: Forms, l: Legacy, db: Db, refused: bool)
    requires Idempotent(forms) && Schema(l, db) && ModelsOk(db)
    requires Consistent(l.upstreams, db.siteOf) && AllPlanned(forms, l, db)
    ensures Apply(forms, l, db, refused).Some? <==>
      !refused && AccountsFit(forms, l, db) && NamesFit(db.names.Values, NewNames(db, l.routes))
  {
    AllDeposited(forms, l, db);
    var deposited := DepositAll(db.accounts, Jobs(forms, l, db));
    if deposited.Some? {
      AllPublished(l, db, deposited.value);
      var migrated := MigrateRoutes(l, db, Place(l, db).(accounts := deposited.value), l.routes);
      if migrated.Some? { CanPlanAgain(forms, l, db, deposited.value, migrated.value); }
    }
  }

  /** The accounts of an upstream's group end the planning: some of their JSON does not parse. */
  ghost predicate Unplannable(forms: Forms, l: Legacy, db: Db) {
    exists u :: u in l.upstreams && UnitOf(forms, l, db, KeyOf(u)) == Some(Failed)
  }

  lemma FailsIs(forms: Forms, l: Legacy, db: Db)
    ensures PlanFails(forms, l, db) <==> Unplannable(forms, l, db)
  {
    if key :| key in Keys(l.upstreams) && UnitOf(forms, l, db, key) == Some(Failed) {
      KeyHasMember(l.upstreams, key);
      var i :| 0 <= i < |l.upstreams| && KeyOf(l.upstreams[i]) == key;
      assert l.upstreams[i] in l.upstreams;
    }
    if u :| u in l.upstreams && UnitOf(forms, l, db, KeyOf(u)) == Some(Failed) {
      var i :| 0 <= i < |l.upstreams| && l.upstreams[i] == u;
      KeysCover(l.upstreams, i);
    }
  }

  /** Everything that has to fit for the transaction to commit. */
  ghost predicate Fits(forms: Forms, l: Legacy, db: Db) {
    AccountsFit(forms, l, db) && NamesFit(db.names.Values, NewNames(db, l.routes))
  }

  /** Every verdict of a call, and exactly when it is given. A changed plan is refused before anything else is looked
      at, but after the plan has been built. */
  lemma VerdictsAre(forms: Forms, l: Legacy, db: Db, samePlan: bool, force: bool, refused: bool)
    requires Idempotent(forms) && Schema(l, db) && ModelsOk(db)
    ensures var verdict, failed := Migrate(forms, l, db, samePlan, force, refused).1, Unplannable(forms, l, db);
      var stuck, empty := Obstructed(forms, l, db, force), Planned(forms, l, db) == NOTHING;
      && (verdict == PlanChanged <==> !failed && !samePlan)
      && (verdict == Blocked <==> !failed && samePlan && stuck)
      && (verdict == NothingToDo <==> !failed && samePlan && !stuck && empty)
      && (verdict == Applied <==> !failed && samePlan && !stuck && !empty && !refused && Fits(forms, l, db))
      && (verdict == Error <==> failed || (samePlan && !stuck && !empty && (refused || !Fits(forms, l, db))))
  {
    FailsIs(forms, l, db);
    if !PlanFails(forms, l, db) && samePlan {
      BlockedExactly(forms, l, db, force, refused);
      if !Obstructed(forms, l, db, force) {
        NoneObstructed(forms, l, db, force);
        AppliesIff(forms, l, db, refused);
        LastVerdicts(forms, l, db, force, refused);
      }
    }
  }

  /** The state changes with the verdict `Applied` only, and then as the transaction says. */
  lemma OnlyAppliedChanges(forms: Forms, l: Legacy, db: Db, samePlan: bool, force: bool, refused: bool)
    ensures var r := Migrate(forms, l, db, samePlan, force, refused);
      && (r.1 != Applied ==> r.0 == db)
      && (r.1 == Applied ==> Apply(forms, l, db, refused) == Some(r.0))
  {
  }

  lemma NoneObstructed(forms: Forms, l: Legacy, db: Db, force: bool)
    requires DistinctUpstreams(l.upstreams) && !PlanFails(forms, l, db) && !Obstructed(forms, l, db, force)
    ensures Consistent(l.upstreams, db.siteOf) && AllPlanned(forms, l, db)
  {
    ConflictIs(forms, l, db);
    var keys := Keys(l.upstreams);
    forall i | 0 <= i < |keys| && UnitOf(forms, l, db, keys[i]).Some?
      ensures UnitOf(forms, l, db, keys[i]).value.Unit?
    {
      assert keys[i] in keys;
    }
  }

  lemma LastVerdicts(forms: Forms, l: Legacy, db: Db, force: bool, refused: bool)
    requires !PlanFails(forms, l, db) && Migrate(forms, l, db, true, force, refused).1 != Blocked
    ensures Migrate(forms, l, db, true, force, refused).1 ==
      if Planned(forms, l, db) == NOTHING then NothingToDo
      else if Apply(forms, l, db, refused).Some? then Applied else Error
  {
    assert Build(forms, l, db).value.plan == Planned(forms, l, db);
  }
}
