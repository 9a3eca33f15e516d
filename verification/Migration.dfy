/**
The legacy migration: a plan built from the legacy tables and the current state, and the transaction that applies it.
Upstreams with one origin form a group and share a site; routes become published models; accounts move to their site.
*/
module Migration {
  import opened Wrappers
  import opened MigrationAccounts
  import Routes = MigrationRoutes

  // ----- the legacy tables

  datatype GroupKey = OfOrigin(origin: string) | OfUpstream(id: int)

  /** `origin` is None without a valid HTTP origin; `credentials` tells of each whether it has a secret. */
  datatype Upstream = Upstream(id: int, origin: Option<string>, routable: bool, endpoints: set<string>,
                               models: set<(string, string)>, credentials: seq<bool>)

  /** A target names the upstream of its model and the upstream of its endpoint, if those exist. */
  datatype LegacyTarget = LegacyTarget(id: int, model: Option<int>, endpoint: Option<int>, enabled: bool)

  datatype Route = Route(id: int, name: string, targets: seq<LegacyTarget>)

  datatype Legacy = Legacy(upstreams: seq<Upstream>, accounts: map<int, Account>, routes: seq<Route>)

  // ----- the new tables

  /** `siteOf` and `modelOf` are the two mapping tables; `names` and `rows` belong to the published models. */
  datatype Db = Db(sites: set<int>, nextSite: int, siteOf: map<int, int>, accounts: map<int, SiteAccount>,
                   names: map<int, string>, nextModel: int, modelOf: map<int, int>, rows: map<int, seq<Routes.Row>>)

  function UpstreamIds(us: seq<Upstream>): set<int> { set i | 0 <= i < |us| :: us[i].id }

  function RouteIds(rs: seq<Route>): set<int> { set i | 0 <= i < |rs| :: rs[i].id }

  predicate DistinctUpstreams(us: seq<Upstream>) {
    forall i, j :: 0 <= i < j < |us| ==> us[i].id != us[j].id
  }

  predicate DistinctRoutes(rs: seq<Route>) {
    forall i, j :: 0 <= i < j < |rs| ==> rs[i].id != rs[j].id
  }

  /** Site ids are handed out in increasing order; mappings and accounts refer to existing sites. */
  ghost predicate SitesOk(sites: set<int>, nextSite: int, siteOf: map<int, int>, accounts: map<int, SiteAccount>) {
    && (forall id :: id in siteOf ==> siteOf[id] in sites)
    && (forall s :: s in accounts ==> s in sites)
    && (forall s :: s in sites ==> s < nextSite)
  }

  /** Primary keys, foreign keys and AUTOINCREMENT. */
  ghost predicate Schema(l: Legacy, db: Db) {
    && DistinctUpstreams(l.upstreams)
    && DistinctRoutes(l.routes)
    && db.siteOf.Keys <= UpstreamIds(l.upstreams)
    && db.modelOf.Keys <= RouteIds(l.routes)
    && SitesOk(db.sites, db.nextSite, db.siteOf, db.accounts)
  }

  // ----- groups

  function KeyOf(u: Upstream): GroupKey {
    if u.origin.Some? then OfOrigin(u.origin.value) else OfUpstream(u.id)
  }

  /** The group keys in order of first appearance. */
  function Keys(us: seq<Upstream>): seq<GroupKey> {
    if us == [] then []
    else
      var rest := Keys(us[..|us| - 1]);
      var key := KeyOf(us[|us| - 1]);
      if key in rest then rest else rest + [key]
  }

  /** The site a group's upstreams are already mapped to, if any is. */
  function MappedSite(us: seq<Upstream>, siteOf: map<int, int>, key: GroupKey): Option<int> {
    if us == [] then None
    else
      var rest := MappedSite(us[..|us| - 1], siteOf, key);
      var last := us[|us| - 1];
      if rest.Some? then rest
      else if KeyOf(last) == key && last.id in siteOf then Some(siteOf[last.id]) else None
  }

  /** No group is mapped to two sites. */
  predicate Consistent(us: seq<Upstream>, siteOf: map<int, int>) {
    forall i, j :: 0 <= i < j < |us| && KeyOf(us[i]) == KeyOf(us[j]) && us[i].id in siteOf && us[j].id in siteOf ==>
      siteOf[us[i].id] == siteOf[us[j].id]
  }

  /** The accounts of a group's upstreams. */
  function AccountsOf(l: Legacy, us: seq<Upstream>, key: GroupKey): seq<Account> {
    if us == [] then []
    else
      var rest := AccountsOf(l, us[..|us| - 1], key);
      var last := us[|us| - 1];
      if KeyOf(last) == key && last.id in l.accounts then rest + [l.accounts[last.id]] else rest
  }

  function GroupAccounts(l: Legacy, key: GroupKey): seq<Account> {
    NewestFirst(AccountsOf(l, l.upstreams, key))
  }

  /** The account that the group's mapped site already has. */
  function Existing(l: Legacy, db: Db, key: GroupKey): Option<SiteAccount> {
    var site := MappedSite(l.upstreams, db.siteOf, key);
    if site.Some? && site.value in db.accounts then Some(db.accounts[site.value]) else None
  }

  /** What a group with accounts has to create; None for a group without any. */
  function UnitOf(forms: Forms, l: Legacy, db: Db, key: GroupKey): Option<UnitPlan> {
    if GroupAccounts(l, key) == [] then None
    else Some(PlanUnit(forms, GroupAccounts(l, key), Existing(l, db, key)))
  }

  // ----- routes

  predicate ValidTarget(l: Legacy, t: LegacyTarget) {
    t.model.Some? && t.model == t.endpoint && exists i :: 0 <= i < |l.upstreams| && l.upstreams[i].id == t.model.value
  }

  function Find(us: seq<Upstream>, id: int): (i: nat)
    requires id in UpstreamIds(us)
    ensures i < |us| && us[i].id == id
  {
    if us[0].id == id then 0
    else
      assert exists k :: 0 <= k < |us[1..]| && us[1..][k].id == id by {
        var k :| 0 <= k < |us| && us[k].id == id;
        assert us[1..][k - 1].id == id;
      }
      1 + Find(us[1..], id)
  }

  /** The valid targets with what the two loops look at: group, protocol and enabled flag. */
  function Resolve(l: Legacy, ts: seq<LegacyTarget>): seq<Routes.Target<GroupKey>> {
    if ts == [] then []
    else
      var rest := Resolve(l, ts[..|ts| - 1]);
      var t := ts[|ts| - 1];
      if !ValidTarget(l, t) then rest
      else
        var u := l.upstreams[Find(l.upstreams, t.model.value)];
        rest + [Routes.Target(t.id, KeyOf(u), u.routable, t.enabled)]
  }

  // ----- the plan

  datatype Counts = Counts(sites: SiteCounts, routes: RouteCounts, accounts: AccountCounts)

  datatype SiteCounts = SiteCounts(sites: int, endpoints: int, credentials: int, siteModels: int)

  datatype RouteCounts = RouteCounts(models: int, targets: int)

  datatype AccountCounts = AccountCounts(accounts: int, snapshots: int, usage: int)

  const NO_SITES := SiteCounts(0, 0, 0, 0)
  const NO_ROUTES := RouteCounts(0, 0)
  const NO_ACCOUNTS := AccountCounts(0, 0, 0)
  const NOTHING := Counts(NO_SITES, NO_ROUTES, NO_ACCOUNTS)

  /** A failed plan is an error; `hard` conflicts block the migration, others can be forced. */
  datatype Preview = Preview(plan: Counts, hard: bool, needsForce: bool, alreadyApplied: bool)

  /** The group's upstreams that are not mapped yet. */
  function Pending(us: seq<Upstream>, siteOf: map<int, int>, key: GroupKey): seq<Upstream> {
    if us == [] then []
    else
      var rest := Pending(us[..|us| - 1], siteOf, key);
      var last := us[|us| - 1];
      if KeyOf(last) == key && last.id !in siteOf then rest + [last] else rest
  }

  function CredentialCount(us: seq<Upstream>): nat {
    if us == [] then 0 else CredentialCount(us[..|us| - 1]) + |us[|us| - 1].credentials|
  }

  function EndpointKeys(us: seq<Upstream>): set<string> {
    set i, e | 0 <= i < |us| && e in us[i].endpoints :: e
  }

  function ModelKeys(us: seq<Upstream>): set<(string, string)> {
    set i, m | 0 <= i < |us| && m in us[i].models :: m
  }

  function UnitCounts(u: Option<UnitPlan>): AccountCounts {
    if u.Some? && u.value.Unit? then
      AccountCounts(if u.value.create then 1 else 0, |u.value.snapshots|, |u.value.usage|)
    else NO_ACCOUNTS
  }

  function GroupCounts(l: Legacy, db: Db, key: GroupKey): SiteCounts {
    var us := Pending(l.upstreams, db.siteOf, key);
    SiteCounts(if MappedSite(l.upstreams, db.siteOf, key).None? then 1 else 0,
               |EndpointKeys(us)|, CredentialCount(us), |ModelKeys(us)|)
  }

  function SitesPlanned(l: Legacy, db: Db, keys: seq<GroupKey>): SiteCounts {
    if keys == [] then NO_SITES
    else
      var a, b := SitesPlanned(l, db, keys[..|keys| - 1]), GroupCounts(l, db, keys[|keys| - 1]);
      SiteCounts(a.sites + b.sites, a.endpoints + b.endpoints, a.credentials + b.credentials,
                 a.siteModels + b.siteModels)
  }

  function AccountsPlanned(forms: Forms, l: Legacy, db: Db, keys: seq<GroupKey>): AccountCounts {
    if keys == [] then NO_ACCOUNTS
    else
      var a := AccountsPlanned(forms, l, db, keys[..|keys| - 1]);
      var b := UnitCounts(UnitOf(forms, l, db, keys[|keys| - 1]));
      AccountCounts(a.accounts + b.accounts, a.snapshots + b.snapshots, a.usage + b.usage)
  }

  function RoutesPlanned(l: Legacy, db: Db, rs: seq<Route>): RouteCounts {
    if rs == [] then NO_ROUTES
    else
      var a, r := RoutesPlanned(l, db, rs[..|rs| - 1]), rs[|rs| - 1];
      if r.id in db.modelOf then a
      else RouteCounts(a.models + 1, a.targets + |Routes.EligibleGroups(Resolve(l, r.targets))|)
  }

  function Fold(name: string): string { Lower(TrimSpace(name)) }

  predicate EmptyCredential(l: Legacy, db: Db) {
    exists i :: 0 <= i < |l.upstreams| && l.upstreams[i].id !in db.siteOf && false in l.upstreams[i].credentials
  }

  predicate RouteConflict(l: Legacy, db: Db, r: Route) {
    r.id !in db.modelOf &&
    ((exists m :: m in db.names && Fold(db.names[m]) == Fold(r.name)) ||
     exists t :: t in r.targets && !ValidTarget(l, t))
  }

  predicate HardConflict(forms: Forms, l: Legacy, db: Db) {
    || !Consistent(l.upstreams, db.siteOf)
    || EmptyCredential(l, db)
    || (exists i :: 0 <= i < |l.routes| && RouteConflict(l, db, l.routes[i]))
    || (exists key :: key in Keys(l.upstreams) && UnitOf(forms, l, db, key) == Some(Conflict))
  }

  predicate Unfinished(l: Legacy, db: Db) {
    || (exists i :: 0 <= i < |l.upstreams| && l.upstreams[i].id !in db.siteOf)
    || (exists i :: 0 <= i < |l.routes| && l.routes[i].id !in db.modelOf)
  }

  /** An error that ends the planning, such as stored JSON that does not parse. */
  predicate PlanFails(forms: Forms, l: Legacy, db: Db) {
    exists key :: key in Keys(l.upstreams) && UnitOf(forms, l, db, key) == Some(Failed)
  }

  function Planned(forms: Forms, l: Legacy, db: Db): Counts {
    var keys := Keys(l.upstreams);
    Counts(SitesPlanned(l, db, keys), RoutesPlanned(l, db, l.routes), AccountsPlanned(forms, l, db, keys))
  }

  predicate Unmanaged(db: Db) {
    db.sites - db.siteOf.Values != {} || db.names.Keys - db.modelOf.Values != {}
  }

  function Build(forms: Forms, l: Legacy, db: Db): Option<Preview> {
    if PlanFails(forms, l, db) then None
    else
      var hard, plan := HardConflict(forms, l, db), Planned(forms, l, db);
      Some(Preview(plan, hard, Unfinished(l, db) && Unmanaged(db),
                   !hard && |l.upstreams| == |db.siteOf| && |l.routes| == |db.modelOf| && plan == NOTHING))
  }

  // ----- applying the plan

  /** How many of the first `n` groups get a new site. */
  function NewSites(l: Legacy, db: Db, n: nat): nat
    requires n <= |Keys(l.upstreams)|
  {
    if n == 0 then 0
    else NewSites(l, db, n - 1) + if MappedSite(l.upstreams, db.siteOf, Keys(l.upstreams)[n - 1]).None? then 1 else 0
  }

  /** The site of the n-th group: the mapped one, or the next new one. */
  function Home(l: Legacy, db: Db, n: nat): int
    requires n < |Keys(l.upstreams)|
  {
    var mapped := MappedSite(l.upstreams, db.siteOf, Keys(l.upstreams)[n]);
    if mapped.Some? then mapped.value else db.nextSite + NewSites(l, db, n)
  }

  function HomeSites(l: Legacy, db: Db, n: nat): set<int>
    requires n <= |Keys(l.upstreams)|
  {
    if n == 0 then {} else HomeSites(l, db, n - 1) + {Home(l, db, n - 1)}
  }

  function Index(keys: seq<GroupKey>, key: GroupKey): (i: nat)
    requires key in keys
    ensures i < |keys| && keys[i] == key
  {
    if keys[0] == key then 0 else 1 + Index(keys[1..], key)
  }

  /** The home of each group; a key without one never occurs. */
  function Placement(l: Legacy, db: Db): Routes.Placement<GroupKey> {
    (key: GroupKey) => if key in Keys(l.upstreams) then Home(l, db, Index(Keys(l.upstreams), key)) else 0
  }

  /** The mapping table after the upstreams have been placed: an unmapped one goes to its group's home. */
  function MapUpstreams(us: seq<Upstream>, siteOf: map<int, int>, home: Routes.Placement<GroupKey>): map<int, int> {
    if us == [] then siteOf
    else
      var rest, u := MapUpstreams(us[..|us| - 1], siteOf, home), us[|us| - 1];
      if u.id in siteOf then rest else rest[u.id := home(KeyOf(u))]
  }

  function Place(l: Legacy, db: Db): Db {
    var n := |Keys(l.upstreams)|;
    WithSites(db, HomeSites(l, db, n), NewSites(l, db, n), MapUpstreams(l.upstreams, db.siteOf, Placement(l, db)))
  }

  function WithSites(db: Db, homes: set<int>, added: nat, siteOf: map<int, int>): Db {
    db.(sites := db.sites + homes, nextSite := db.nextSite + added, siteOf := siteOf)
  }

  function Lookup(accounts: map<int, SiteAccount>, site: int): Option<SiteAccount> {
    if site in accounts then Some(accounts[site]) else None
  }

  /** A planned unit and the site it is for. */
  datatype Job = Job(site: int, unit: Option<UnitPlan>)

  function Jobs(forms: Forms, l: Legacy, db: Db): seq<Job> {
    var keys := Keys(l.upstreams);
    seq(|keys|, i requires 0 <= i < |keys| => Job(Home(l, db, i), UnitOf(forms, l, db, keys[i])))
  }

  /** The accounts after the jobs are done in order; None when one is refused. */
  function DepositAll(accounts: map<int, SiteAccount>, jobs: seq<Job>): Option<map<int, SiteAccount>> {
    if jobs == [] then Some(accounts)
    else match DepositAll(accounts, jobs[..|jobs| - 1])
      case None => None
      case Some(before) =>
        var job := jobs[|jobs| - 1];
        if job.unit.None? then Some(before)
        else if !job.unit.value.Unit? then None
        else match Deposit(Lookup(before, job.site), job.unit.value)
          case None => None
          case Some(acc) => Some(before[job.site := acc])
  }

  /** The published model of a route that has none; None when its name is empty or taken. */
  function MigrateRoute(l: Legacy, db: Db, d: Db, r: Route): Option<Db> {
    var name := TrimSpace(r.name);
    if r.id in db.modelOf then Some(d)
    else if name == "" || name in d.names.Values then None
    else Some(Publish(d, r.id, name, Routes.Rows(Resolve(l, r.targets), Placement(l, db))))
  }

  function Publish(d: Db, route: int, name: string, rows: seq<Routes.Row>): Db {
    d.(names := d.names[d.nextModel := name], nextModel := d.nextModel + 1,
       modelOf := d.modelOf[route := d.nextModel], rows := d.rows[d.nextModel := rows])
  }

  function MigrateRoutes(l: Legacy, db: Db, d: Db, rs: seq<Route>): Option<Db> {
    if rs == [] then Some(d)
    else match MigrateRoutes(l, db, d, rs[..|rs| - 1])
      case None => None
      case Some(e) => MigrateRoute(l, db, e, rs[|rs| - 1])
  }

  /** The whole apply transaction; `refused` is a failed insert into a table that is not modelled here. */
  function Apply(forms: Forms, l: Legacy, db: Db, refused: bool): Option<Db> {
    match DepositAll(db.accounts, Jobs(forms, l, db))
    case None => None
    case Some(accounts) =>
      match MigrateRoutes(l, db, Place(l, db).(accounts := accounts), l.routes)
      case None => None
      case Some(d) => if refused || Build(forms, l, d).None? then None else Some(d)
  }

  datatype Verdict = PlanChanged | Blocked | NothingToDo | Applied | Error

  /** What a call of the migration does: only `Applied` changes the state. */
  function Migrate(forms: Forms, l: Legacy, db: Db, samePlan: bool, force: bool, refused: bool): (Db, Verdict) {
    match Build(forms, l, db)
    case None => (db, Error)
    case Some(p) =>
      if !samePlan then (db, PlanChanged)
      else if p.hard || (p.needsForce && !force) then (db, Blocked)
      else if p.alreadyApplied || p.plan == NOTHING then (db, NothingToDo)
      else match Apply(forms, l, db, refused)
        case None => (db, Error)
        case Some(d) => (d, Applied)
  }
}
