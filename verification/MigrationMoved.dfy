/** What a successful migration moves: every account's snapshots and usage, and as much as the plan announced. */
module MigrationMoved {
  import opened Wrappers
  import opened MigrationAccounts
  import opened Migration
  import opened MigrationTheorems
  import opened MigrationEffects
  import Routes = MigrationRoutes

  // ----- what deduplication keeps

  /** The snapshot with its JSON in canonical form. */
  function SnapOf(forms: Forms, s: Snap): Option<Snap> {
    if forms.json(s.json).None? then None else Some(Snap(s.capturedAt, forms.json(s.json).value))
  }

  function UsageOf(forms: Forms, r: UsageRow): Option<Usage> {
    if forms.json(r.usage.raw).None? then None else Some(r.usage.(raw := forms.json(r.usage.raw).value))
  }

  /** Deduplicated snapshots are exactly the canonical ones, and fail exactly on JSON that does not parse. */
  lemma {:induction false} DistinctSnapsAre(forms: Forms, items: seq<Snap>)
    ensures DistinctSnaps(forms, items).Some? <==> forall s :: s in items ==> SnapOf(forms, s).Some?
    ensures DistinctSnaps(forms, items).Some? ==>
      var r := DistinctSnaps(forms, items).value;
      && (forall s :: s in items ==> SnapOf(forms, s).Some? && SnapOf(forms, s).value in r)
      && (forall x :: x in r ==> exists s :: s in items && SnapOf(forms, s) == Some(x))
      && forall i, j :: 0 <= i < j < |r| ==> r[i] != r[j]
  {
    if items != [] {
      var n := |items| - 1;
      assert items == items[..n] + [items[n]];
      DistinctSnapsAre(forms, items[..n]);
      assert items[n] in items;
      if DistinctSnaps(forms, items).Some? {
        var before := DistinctSnaps(forms, items[..n]).value;
        forall x | x in DistinctSnaps(forms, items).value
          ensures exists s :: s in items && SnapOf(forms, s) == Some(x)
        {
          if x in before {
            var s :| s in items[..n] && SnapOf(forms, s) == Some(x);
          } else {
            assert SnapOf(forms, items[n]) == Some(x);
          }
        }
      }
    }
  }

  /** Every record parses, and no key has two different ones. */
  predicate Agree(forms: Forms, items: seq<UsageRow>) {
    && (forall r :: r in items ==> UsageOf(forms, r).Some?)
    && forall r, q :: r in items && q in items && r.key == q.key ==> UsageOf(forms, r) == UsageOf(forms, q)
  }

  /** Deduplicated usage holds every record under its key. */
  lemma {:induction false} UsageKept(forms: Forms, items: seq<UsageRow>)
    requires DistinctUsage(forms, items).Some?
    ensures var m := DistinctUsage(forms, items).value;
      && (forall r :: r in items ==> r.key in m && UsageOf(forms, r) == Some(m[r.key]))
      && (forall k :: k in m ==> exists r :: r in items && r.key == k)
  {
    if items != [] {
      var n := |items| - 1;
      assert items == items[..n] + [items[n]];
      UsageKept(forms, items[..n]);
      assert items[n] in items;
    }
  }

  /** Deduplication fails exactly on JSON that does not parse and on different records under one key. */
  lemma {:induction false} DistinctUsageIs(forms: Forms, items: seq<UsageRow>)
    ensures DistinctUsage(forms, items).Some? <==> Agree(forms, items)
  {
    if DistinctUsage(forms, items).Some? {
      UsageKept(forms, items);
    } else {
      UsageRefused(forms, items);
    }
  }

  lemma {:induction false} UsageRefused(forms: Forms, items: seq<UsageRow>)
    requires DistinctUsage(forms, items).None?
    ensures !Agree(forms, items)
  {
    var n := |items| - 1;
    assert items == items[..n] + [items[n]];
    var last, before := items[n], DistinctUsage(forms, items[..n]);
    if before.None? {
      UsageRefused(forms, items[..n]);
    } else if UsageOf(forms, last).Some? {
      UsageKept(forms, items[..n]);
      assert last.key in before.value;
      var r :| r in items[..n] && r.key == last.key;
      assert r in items && last in items;
    } else {
      assert last in items;
    }
  }

  lemma {:induction false} AllSnapsAre(accounts: seq<Account>, a: Account)
    requires a in accounts
    ensures forall s :: s in a.snapshots ==> s in AllSnaps(accounts)
    ensures forall r :: r in a.usage ==> r in AllUsage(accounts)
  {
    if a != accounts[0] {
      assert a in accounts[1..];
      AllSnapsAre(accounts[1..], a);
    }
  }

  lemma {:induction false} AccountsOfAre(l: Legacy, us: seq<Upstream>, key: GroupKey, i: nat)
    requires i < |us| && KeyOf(us[i]) == key && us[i].id in l.accounts
    ensures l.accounts[us[i].id] in AccountsOf(l, us, key)
  {
    var n := |us| - 1;
    if i < n { AccountsOfAre(l, us[..n], key, i); }
  }

  lemma {:induction false} AccountsOnlyOf(l: Legacy, us: seq<Upstream>, key: GroupKey, a: Account) returns (w: Upstream)
    requires a in AccountsOf(l, us, key)
    ensures w in us && KeyOf(w) == key && w.id in l.accounts && l.accounts[w.id] == a
  {
    var n := |us| - 1;
    w := us[n];
    if !(KeyOf(w) == key && w.id in l.accounts && l.accounts[w.id] == a) {
      w := AccountsOnlyOf(l, us[..n], key, a);
    }
  }

  lemma GroupHolds(l: Legacy, u: Upstream)
    requires u in l.upstreams && u.id in l.accounts
    ensures l.accounts[u.id] in GroupAccounts(l, KeyOf(u)) && GroupAccounts(l, KeyOf(u)) != []
    ensures Newer(GroupAccounts(l, KeyOf(u))[0], l.accounts[u.id])
  {
    var i :| 0 <= i < |l.upstreams| && l.upstreams[i] == u;
    AccountsOfAre(l, l.upstreams, KeyOf(u), i);
    var accounts, sorted := AccountsOf(l, l.upstreams, KeyOf(u)), GroupAccounts(l, KeyOf(u));
    NewestFirstSorts(accounts);
    assert l.accounts[u.id] in multiset(accounts);
    var k :| 0 <= k < |sorted| && sorted[k] == l.accounts[u.id];
  }

  /** The account of `w` is the newest among those that belong with `u`: the last one updated, and of several that were
      updated at the same time the one with the largest id. */
  ghost predicate NewestOf(l: Legacy, u: Upstream, w: Upstream) {
    && w in l.upstreams && Together(u, w) && w.id in l.accounts
    && forall v :: v in l.upstreams && Together(u, v) && v.id in l.accounts ==>
         var a, b := l.accounts[w.id], l.accounts[v.id];
         b.updatedAt < a.updatedAt || (b.updatedAt == a.updatedAt && b.id <= a.id)
  }

  lemma FirstIsNewest(l: Legacy, u: Upstream) returns (w: Upstream)
    requires u in l.upstreams && u.id in l.accounts
    ensures NewestOf(l, u, w) && GroupAccounts(l, KeyOf(u)) != [] && GroupAccounts(l, KeyOf(u))[0] == l.accounts[w.id]
  {
    GroupHolds(l, u);
    var accounts, sorted := AccountsOf(l, l.upstreams, KeyOf(u)), GroupAccounts(l, KeyOf(u));
    NewestFirstSorts(accounts);
    assert sorted[0] in multiset(sorted);
    w := AccountsOnlyOf(l, l.upstreams, KeyOf(u), sorted[0]);
    SameKey(u, w);
    forall v | v in l.upstreams && Together(u, v) && v.id in l.accounts
      ensures Newer(l.accounts[w.id], l.accounts[v.id])
    {
      SameKey(u, v);
      GroupHolds(l, v);
    }
  }

  // ----- what two configurations have in common

  /** The configurations are the same up to the stored forms, and both parse. */
  predicate Alike(forms: Forms, a: Config, b: Config) {
    && forms.adapter(a.adapter) == forms.adapter(b.adapter) && forms.origin(a.origin) == forms.origin(b.origin)
    && a.auth == b.auth && a.enabled == b.enabled
    && forms.json(a.capabilities).Some? && forms.json(a.capabilities) == forms.json(b.capabilities)
  }

  lemma CompareIs(forms: Forms, a: Config, b: Config)
    ensures Compare(forms, a, b) == Same <==> Alike(forms, a, b)
  {
  }

  lemma {:induction false} OthersAlike(forms: Forms, c: Config, others: seq<Account>, a: Account)
    requires CompareOthers(forms, c, others) == Same && a in others
    ensures Alike(forms, c, a.config)
  {
    CompareIs(forms, c, others[0].config);
    if a != others[0] {
      assert a in others[1..];
      OthersAlike(forms, c, others[1..], a);
    }
  }

  lemma GroupAlike(forms: Forms, accounts: seq<Account>, existing: Option<SiteAccount>, a: Account)
    requires accounts != [] && a in accounts && PlanUnit(forms, accounts, existing).Unit?
    ensures Alike(forms, accounts[0].config, a.config)
    ensures existing.Some? ==> Alike(forms, accounts[0].config, existing.value.config)
  {
    if a != accounts[0] {
      assert a in accounts[1..];
      OthersAlike(forms, accounts[0].config, accounts[1..], a);
    }
    if existing.Some? { CompareIs(forms, accounts[0].config, existing.value.config); }
  }

  // ----- what the accounts hold

  /** The account holds everything of the legacy account. */
  ghost predicate HoldsAll(forms: Forms, acc: SiteAccount, a: Account) {
    && (forall s :: s in a.snapshots ==> SnapOf(forms, s).Some? && Holds(forms, acc, SnapOf(forms, s).value))
    && (forall r :: r in a.usage ==> HoldsUsage(forms, acc, r))
  }

  /** Reading the record back gives the canonical one. */
  predicate HoldsUsage(forms: Forms, acc: SiteAccount, r: UsageRow) {
    && r.key in acc.usage && Load(forms, acc.usage[r.key]).Some?
    && Load(forms, acc.usage[r.key]) == UsageOf(forms, r)
  }

  lemma CoversAll(forms: Forms, acc: SiteAccount, accounts: seq<Account>, a: Account)
    requires Covers(forms, acc, accounts) && a in accounts
    requires DistinctSnaps(forms, AllSnaps(accounts)).Some? && DistinctUsage(forms, AllUsage(accounts)).Some?
    ensures HoldsAll(forms, acc, a)
  {
    AllSnapsAre(accounts, a);
    DistinctSnapsAre(forms, AllSnaps(accounts));
    UsageKept(forms, AllUsage(accounts));
  }

  /** After any successful migration the site of an upstream with an account has an account that holds everything of it:
      the one it had, to which rows were only added, or a new one with the configuration of the newest account of the
      group (that of `w`) in its stored form; and the two accounts are configured alike. */
  lemma AccountsMoved(forms: Forms, l: Legacy, db: Db, refused: bool, u: Upstream) returns (w: Upstream)
    requires Idempotent(forms) && Schema(l, db) && Consistent(l.upstreams, db.siteOf)
    requires Apply(forms, l, db, refused).Some? && u in l.upstreams && u.id in l.accounts
    ensures NewestOf(l, u, w) && Alike(forms, l.accounts[w.id].config, l.accounts[u.id].config)
    ensures var d := Apply(forms, l, db, refused).value;
      u.id in d.siteOf && MovedTo(forms, db.accounts, d.accounts, d.siteOf[u.id], l.accounts[u.id], l.accounts[w.id])
  {
    var d, key := Apply(forms, l, db, refused).value, KeyOf(u);
    var accounts, existing := GroupAccounts(l, key), Existing(l, db, key);
    Applies(forms, l, db, refused);
    AllPlacedAtHome(l, db, d.siteOf);
    var i := KeyIndex(l, u);
    PlacementIs(l, db, i);
    GroupHolds(l, u);
    w := FirstIsNewest(l, u);
    var acc := GroupDone(forms, l, db, d, i);
    CoversAll(forms, acc, accounts, l.accounts[u.id]);
    GroupAlike(forms, accounts, existing, l.accounts[u.id]);
    ExistingIs(l, db, i);
  }

  /** The site's account after the migration holds everything of the legacy account `a`; `newest` configured it if it is
      new. */
  ghost predicate MovedTo(forms: Forms, before: map<int, SiteAccount>, after: map<int, SiteAccount>, site: int,
      a: Account, newest: Account)
  {
    && site in after && HoldsAll(forms, after[site], a)
    && if site in before then Grew(before[site], after[site]) else ConfiguredAs(forms, after[site], newest)
  }

  /** The account has the stored form of the legacy account's configuration. */
  predicate ConfiguredAs(forms: Forms, acc: SiteAccount, a: Account) {
    forms.json(a.config.capabilities).Some? && acc.config == StoredConfig(forms, a.config)
  }

  /** A group's account exists already exactly when its site has one. */
  lemma ExistingIs(l: Legacy, db: Db, i: nat)
    requires i < |Keys(l.upstreams)| && SitesOk(db.sites, db.nextSite, db.siteOf, db.accounts)
    ensures var existing := Existing(l, db, Keys(l.upstreams)[i]);
      if Home(l, db, i) in db.accounts then existing == Some(db.accounts[Home(l, db, i)]) else existing.None?
  {
  }

  lemma GroupDone(forms: Forms, l: Legacy, db: Db, d: Db, i: nat) returns (acc: SiteAccount)
    requires Idempotent(forms) && i < |Keys(l.upstreams)|
    requires DepositAll(db.accounts, Jobs(forms, l, db)) == Some(d.accounts)
    requires SitesOk(db.sites, db.nextSite, db.siteOf, db.accounts)
    requires GroupAccounts(l, Keys(l.upstreams)[i]) != []
    ensures Home(l, db, i) in d.accounts && acc == d.accounts[Home(l, db, i)]
    ensures var accounts, existing := GroupAccounts(l, Keys(l.upstreams)[i]), Existing(l, db, Keys(l.upstreams)[i]);
      && PlanUnit(forms, accounts, existing).Unit? && Covers(forms, acc, accounts)
      && DistinctSnaps(forms, AllSnaps(accounts)).Some? && DistinctUsage(forms, AllUsage(accounts)).Some?
      && (existing.Some? ==> Grew(existing.value, acc))
      && (existing.None? ==> ConfiguredAs(forms, acc, accounts[0]))
  {
    var key, jobs := Keys(l.upstreams)[i], Jobs(forms, l, db);
    var accounts, existing := GroupAccounts(l, key), Existing(l, db, key);
    JobsAreClean(forms, l, db);
    var now := JobDone(forms, db.accounts, jobs, i);
    acc := d.accounts[Home(l, db, i)];
    PlannedIsClean(forms, accounts, existing);
    ExistingIs(l, db, i);
    DepositCovers(forms, accounts, existing, now);
    GrewCovers(forms, Deposit(now, PlanUnit(forms, accounts, existing)).value, acc, accounts);
    assert PlanUnit(forms, accounts, existing) == Gather(forms, accounts, existing);
  }

  // ----- what the plan announced

  lemma {:induction false} SitesAnnounced(l: Legacy, db: Db, n: nat)
    requires n <= |Keys(l.upstreams)|
    ensures SitesPlanned(l, db, Keys(l.upstreams)[..n]).sites == NewSites(l, db, n)
  {
    if n > 0 {
      SitesAnnounced(l, db, n - 1);
      assert Keys(l.upstreams)[..n][..n - 1] == Keys(l.upstreams)[..n - 1];
    }
  }

  /** As many sites are created as are new. */
  lemma {:induction false} SitesCreated(l: Legacy, db: Db, n: nat)
    requires n <= |Keys(l.upstreams)| && SitesOk(db.sites, db.nextSite, db.siteOf, db.accounts)
    ensures Numbered(db, db.sites + HomeSites(l, db, n), NewSites(l, db, n))
  {
    if n == 0 {
      assert db.sites + HomeSites(l, db, 0) == db.sites;
    } else {
      SitesCreated(l, db, n - 1);
      HomeIs(l, db, n - 1);
      var before, home := HomeSites(l, db, n - 1), Home(l, db, n - 1);
      assert db.sites + HomeSites(l, db, n) == (db.sites + before) + {home};
      OneMoreSite(db, db.sites + before, db.sites + HomeSites(l, db, n), home, NewSites(l, db, n - 1));
    }
  }

  /** The old sites and the next `added` ones, no others. */
  ghost predicate Numbered(db: Db, sites: set<int>, added: nat) {
    && |sites| == |db.sites| + added
    && forall s :: s in sites <==> s in db.sites || db.nextSite <= s < db.nextSite + added
  }

  lemma OneMoreSite(db: Db, before: set<int>, after: set<int>, home: int, added: nat)
    requires Numbered(db, before, added) && after == before + {home}
    requires home in db.sites || home == db.nextSite + added
    ensures Numbered(db, after, if home in db.sites then added else added + 1)
  {
    if home in db.sites { assert after == before; }
  }

  lemma HomeIs(l: Legacy, db: Db, i: nat)
    requires i < |Keys(l.upstreams)| && SitesOk(db.sites, db.nextSite, db.siteOf, db.accounts)
    ensures Home(l, db, i) in db.sites || Home(l, db, i) == db.nextSite + NewSites(l, db, i)
    ensures NewSites(l, db, i + 1) == NewSites(l, db, i) + if Home(l, db, i) in db.sites then 0 else 1
  {
    MappedMember(l.upstreams, db.siteOf, Keys(l.upstreams)[i]);
  }

  /** The routes are planned one by one. */
  lemma {:induction false} ModelsCounted(l: Legacy, db: Db, rs: seq<Route>)
    ensures RoutesPlanned(l, db, rs).models == Fresh(db, rs, |rs|)
  {
    if rs != [] {
      ModelsCounted(l, db, rs[..|rs| - 1]);
      FreshAt(db, rs, |rs| - 1, |rs| - 1);
    }
  }

  /** How many rows the new models of the routes have. */
  function RowsInserted(db: Db, d: Db, rs: seq<Route>): nat {
    if rs == [] then 0
    else
      var r := rs[|rs| - 1];
      RowsInserted(db, d, rs[..|rs| - 1]) +
      if r.id !in db.modelOf && r.id in d.modelOf && d.modelOf[r.id] in d.rows then |d.rows[d.modelOf[r.id]]| else 0
  }

  /** The groups of the route's routable targets are on sites of their own. */
  ghost predicate OneSiteEach(l: Legacy, db: Db, r: Route) {
    Routes.Separated(Routes.EligibleGroups(Resolve(l, r.targets)), Placement(l, db))
  }

  predicate HasRows(db: Db, d: Db, route: int, rows: seq<Routes.Row>) {
    route !in db.modelOf ==> route in d.modelOf && d.modelOf[route] in d.rows && d.rows[d.modelOf[route]] == rows
  }

  lemma {:induction false} TargetsCounted(l: Legacy, db: Db, d: Db, rs: seq<Route>)
    requires forall i :: 0 <= i < |rs| ==> HasRows(db, d, rs[i].id, RowsOf(l, db, rs[i]))
    ensures RowsInserted(db, d, rs) <= RoutesPlanned(l, db, rs).targets
    ensures RowsInserted(db, d, rs) == RoutesPlanned(l, db, rs).targets <==>
      forall i :: 0 <= i < |rs| && rs[i].id !in db.modelOf ==> OneSiteEach(l, db, rs[i])
  {
    if rs != [] {
      var n := |rs| - 1;
      assert forall i :: 0 <= i < n ==> rs[..n][i] == rs[i];
      TargetsCounted(l, db, d, rs[..n]);
      Routes.PlannedAreInserted(Resolve(l, rs[n].targets), Placement(l, db));
    }
  }

  /** What a plan announces is what its migration creates: exactly so many sites and published models, and so many route
      targets at most, all of them exactly when no route has two routable groups on one site. */
  lemma PlanIsCreated(forms: Forms, l: Legacy, db: Db, refused: bool)
    requires Schema(l, db) && ModelsOk(db) && Consistent(l.upstreams, db.siteOf)
    requires Apply(forms, l, db, refused).Some?
    ensures var d, plan := Apply(forms, l, db, refused).value, Planned(forms, l, db);
      && |d.sites| == |db.sites| + plan.sites.sites && d.nextSite == db.nextSite + plan.sites.sites
      && (forall s :: s in d.sites <==> s in db.sites || db.nextSite <= s < d.nextSite)
      && d.nextModel == db.nextModel + plan.routes.models
      && RowsInserted(db, d, l.routes) <= plan.routes.targets
      && (RowsInserted(db, d, l.routes) == plan.routes.targets <==>
           forall i :: 0 <= i < |l.routes| && l.routes[i].id !in db.modelOf ==> OneSiteEach(l, db, l.routes[i]))
  {
    Applies(forms, l, db, refused);
    SitesAsPlanned(l, db);
    RowsAsPlanned(forms, l, db, refused);
  }

  lemma SitesAsPlanned(l: Legacy, db: Db)
    requires SitesOk(db.sites, db.nextSite, db.siteOf, db.accounts)
    ensures var d, plan := Place(l, db), SitesPlanned(l, db, Keys(l.upstreams));
      && |d.sites| == |db.sites| + plan.sites && d.nextSite == db.nextSite + plan.sites
      && forall s :: s in d.sites <==> s in db.sites || db.nextSite <= s < d.nextSite
  {
    var n := |Keys(l.upstreams)|;
    SitesAnnounced(l, db, n);
    SitesCreated(l, db, n);
    assert Keys(l.upstreams)[..n] == Keys(l.upstreams);
  }

  lemma RowsAsPlanned(forms: Forms, l: Legacy, db: Db, refused: bool)
    requires Schema(l, db) && ModelsOk(db) && Apply(forms, l, db, refused).Some?
    ensures var d, plan := Apply(forms, l, db, refused).value, RoutesPlanned(l, db, l.routes);
      && d.nextModel == db.nextModel + plan.models
      && RowsInserted(db, d, l.routes) <= plan.targets
      && (RowsInserted(db, d, l.routes) == plan.targets <==>
           forall i :: 0 <= i < |l.routes| && l.routes[i].id !in db.modelOf ==> OneSiteEach(l, db, l.routes[i]))
  {
    var d := Apply(forms, l, db, refused).value;
    AllHaveRows(forms, l, db, refused);
    ModelsCounted(l, db, l.routes);
    TargetsCounted(l, db, d, l.routes);
  }

  lemma AllHaveRows(forms: Forms, l: Legacy, db: Db, refused: bool)
    requires Schema(l, db) && ModelsOk(db) && Apply(forms, l, db, refused).Some?
    ensures var d := Apply(forms, l, db, refused).value;
      && d.nextModel == db.nextModel + Fresh(db, l.routes, |l.routes|)
      && forall i :: 0 <= i < |l.routes| ==> HasRows(db, d, l.routes[i].id, RowsOf(l, db, l.routes[i]))
  {
    RoutesAdded(forms, l, db, refused);
    var d := Apply(forms, l, db, refused).value;
    forall i | 0 <= i < |l.routes| ensures HasRows(db, d, l.routes[i].id, RowsOf(l, db, l.routes[i])) {
      RowsOfRoute((q: Route) => WantedOf(l, db, q), db, d, l.routes, i);
    }
  }

  lemma RowsOfRoute(want: Route -> Wanted, db: Db, d: Db, rs: seq<Route>, i: nat)
    requires i < |rs| && AddedAt(want, db, db, rs, d, i)
    ensures HasRows(db, d, rs[i].id, want(rs[i]).rows)
  {
  }
}
