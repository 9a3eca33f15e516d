/** When a migration is blocked, and when a group of accounts can be moved, told from the rows themselves. */
module MigrationVerdicts {
  import opened Wrappers
  import opened MigrationAccounts
  import opened Migration
  import opened MigrationTheorems
  import opened MigrationEffects
  import opened MigrationMoved

  // ----- one group of accounts

  lemma {:induction false} OthersSame(forms: Forms, c: Config, others: seq<Account>)
    ensures CompareOthers(forms, c, others) == Same <==> forall a :: a in others ==> Alike(forms, c, a.config)
  {
    if others != [] {
      assert others == [others[0]] + others[1..];
      CompareIs(forms, c, others[0].config);
      OthersSame(forms, c, others[1..]);
    }
  }

  /** The configurations of a group, led by its newest account, can be moved to the account its site already has. */
  ghost predicate Configurable(forms: Forms, accounts: seq<Account>, existing: Option<SiteAccount>)
    requires accounts != []
  {
    var rep := accounts[0].config;
    && rep.auth != [] && (forall a :: a in accounts ==> Alike(forms, rep, a.config))
    && (existing.Some? ==> Alike(forms, rep, existing.value.config))
  }

  lemma VetIs(forms: Forms, accounts: seq<Account>, existing: Option<SiteAccount>)
    requires accounts != []
    ensures Vet(forms, accounts, existing) == Same <==> Configurable(forms, accounts, existing)
  {
    assert accounts == [accounts[0]] + accounts[1..];
    OthersSame(forms, accounts[0].config, accounts[1..]);
    if existing.Some? { CompareIs(forms, accounts[0].config, existing.value.config); }
  }

  /** The rows of a group parse, agree with one another, and agree with the account its site already has. */
  ghost predicate Movable(forms: Forms, accounts: seq<Account>, existing: Option<SiteAccount>) {
    && (forall s :: s in AllSnaps(accounts) ==> forms.json(s.json).Some?)
    && Agree(forms, AllUsage(accounts))
    && (existing.Some? ==>
         Clean(forms, existing.value) &&
         forall r :: r in AllUsage(accounts) && r.key in existing.value.usage ==>
           Load(forms, existing.value.usage[r.key]) == UsageOf(forms, r))
  }

  /** A group is planned exactly when its configurations are alike and its rows can be merged. */
  lemma UnitIff(forms: Forms, accounts: seq<Account>, existing: Option<SiteAccount>)
    requires accounts != []
    ensures PlanUnit(forms, accounts, existing).Unit? <==>
      Configurable(forms, accounts, existing) && Movable(forms, accounts, existing)
  {
    VetIs(forms, accounts, existing);
    DistinctSnapsAre(forms, AllSnaps(accounts));
    DistinctUsageIs(forms, AllUsage(accounts));
    assert accounts[0] in accounts;
    if existing.Some? && DistinctUsage(forms, AllUsage(accounts)).Some? {
      AgreesIs(forms, existing.value, AllUsage(accounts));
    }
  }

  lemma AgreesIs(forms: Forms, acc: SiteAccount, items: seq<UsageRow>)
    requires DistinctUsage(forms, items).Some?
    ensures UsageAgrees(forms, acc, DistinctUsage(forms, items).value) <==>
      forall r :: r in items && r.key in acc.usage ==> Load(forms, acc.usage[r.key]) == UsageOf(forms, r)
  {
    UsageKept(forms, items);
  }

  /** What a planned group still has to create: every snapshot and record the site's account does not have. */
  lemma UnitIs(forms: Forms, accounts: seq<Account>, existing: Option<SiteAccount>)
    requires accounts != [] && PlanUnit(forms, accounts, existing).Unit?
    ensures var u := PlanUnit(forms, accounts, existing);
      && (u.create <==> existing.None?)
      && (forall x :: x in u.snapshots <==>
           (exists s :: s in AllSnaps(accounts) && SnapOf(forms, s) == Some(x)) &&
           (existing.None? || !Holds(forms, existing.value, x)))
      && (forall r :: r in AllUsage(accounts) ==>
           (r.key in u.usage <==> existing.None? || r.key !in existing.value.usage) &&
           (r.key in u.usage ==> UsageOf(forms, r) == Some(u.usage[r.key])))
  {
    UnitIff(forms, accounts, existing);
    UsageKept(forms, AllUsage(accounts));
    SnapshotsPlanned(forms, accounts, existing);
  }

  lemma SnapshotsPlanned(forms: Forms, accounts: seq<Account>, existing: Option<SiteAccount>)
    requires accounts != [] && PlanUnit(forms, accounts, existing).Unit?
    ensures forall x :: x in PlanUnit(forms, accounts, existing).snapshots <==>
      (exists s :: s in AllSnaps(accounts) && SnapOf(forms, s) == Some(x)) &&
      (existing.None? || !Holds(forms, existing.value, x))
  {
    DistinctSnapsAre(forms, AllSnaps(accounts));
    var snaps := DistinctSnaps(forms, AllSnaps(accounts)).value;
    if existing.Some? { MissingAre(forms, existing.value, snaps); }
  }

  /** The configurations agree in everything but the capabilities, which do not parse in the second. */
  predicate Unread(forms: Forms, a: Config, b: Config) {
    && forms.adapter(a.adapter) == forms.adapter(b.adapter) && forms.origin(a.origin) == forms.origin(b.origin)
    && a.auth == b.auth && a.enabled == b.enabled && forms.json(b.capabilities).None?
  }

  lemma {:induction false} OthersBroken(forms: Forms, c: Config, others: seq<Account>)
    requires forms.json(c.capabilities).Some?
    ensures CompareOthers(forms, c, others) == Broken <==>
      exists n :: 0 <= n < |others| && Unread(forms, c, others[n].config) &&
        forall k :: 0 <= k < n ==> Alike(forms, c, others[k].config)
  {
    if others != [] {
      var rest := others[1..];
      CompareIs(forms, c, others[0].config);
      OthersBroken(forms, c, rest);
      assert forall k :: 0 <= k < |rest| ==> rest[k] == others[k + 1];
      if n :| 0 <= n < |others| && Unread(forms, c, others[n].config) &&
              forall k :: 0 <= k < n ==> Alike(forms, c, others[k].config) {
        assert n > 0 ==> Unread(forms, c, rest[n - 1].config);
      }
      if n :| 0 <= n < |rest| && Unread(forms, c, rest[n].config) &&
              forall k :: 0 <= k < n ==> Alike(forms, c, rest[k].config) {
        assert Unread(forms, c, others[n + 1].config);
        assert Alike(forms, c, others[0].config) ==> forall k :: 0 <= k < n + 1 ==> Alike(forms, c, others[k].config);
      }
    }
  }

  /** A group ends the whole planning exactly when its newest account parses and capabilities that do not are the first
      difference that turns up, or when only the rows of its site's account do not parse. */
  lemma UnitFails(forms: Forms, accounts: seq<Account>, existing: Option<SiteAccount>)
    requires accounts != []
    ensures PlanUnit(forms, accounts, existing) == Failed <==>
      var rep, others := accounts[0].config, accounts[1..];
      && forms.json(rep.capabilities).Some?
      && (|| (exists n :: 0 <= n < |others| && Unread(forms, rep, others[n].config) &&
               forall k :: 0 <= k < n ==> Alike(forms, rep, others[k].config))
          || (existing.Some? && rep.auth != [] && Unread(forms, rep, existing.value.config) &&
               forall a :: a in others ==> Alike(forms, rep, a.config))
          || (existing.Some? && Configurable(forms, accounts, existing) && !Clean(forms, existing.value) &&
               (forall s :: s in AllSnaps(accounts) ==> forms.json(s.json).Some?) && Agree(forms, AllUsage(accounts))))
  {
    var rep, others := accounts[0].config, accounts[1..];
    VetIs(forms, accounts, existing);
    OthersSame(forms, rep, others);
    if forms.json(rep.capabilities).Some? { OthersBroken(forms, rep, others); }
    DistinctSnapsAre(forms, AllSnaps(accounts));
    DistinctUsageIs(forms, AllUsage(accounts));
  }

  // ----- the whole plan

  /** Two upstreams that belong together were mapped to different sites. */
  ghost predicate Torn(l: Legacy, db: Db) {
    exists u, v :: u in l.upstreams && v in l.upstreams && Together(u, v) && u.id in db.siteOf && v.id in db.siteOf &&
      db.siteOf[u.id] != db.siteOf[v.id]
  }

  /** An upstream that is still to be mapped has a credential without a secret. */
  ghost predicate SecretMissing(l: Legacy, db: Db) {
    exists u :: u in l.upstreams && u.id !in db.siteOf && false in u.credentials
  }

  /** The target's model and endpoint do not belong to one upstream. */
  predicate Astray(l: Legacy, t: LegacyTarget) {
    t.model.None? || t.endpoint != t.model || forall u :: u in l.upstreams ==> u.id != t.model.value
  }

  /** A route that is still to be migrated has a name that is taken, up to case and space, or a target astray. */
  ghost predicate RouteStuck(l: Legacy, db: Db) {
    exists r :: r in l.routes && r.id !in db.modelOf && Stuck(l, db, r)
  }

  /** The accounts of some upstream's group contradict one another or the account of their site. */
  ghost predicate AccountsClash(forms: Forms, l: Legacy, db: Db) {
    exists u :: u in l.upstreams && UnitOf(forms, l, db, KeyOf(u)) == Some(Conflict)
  }

  /** There is a site or a model that no migration made. */
  predicate Foreign(db: Db) {
    (exists s :: s in db.sites && forall id :: id in db.siteOf ==> db.siteOf[id] != s) ||
    exists m :: m in db.names && forall id :: id in db.modelOf ==> db.modelOf[id] != m
  }

  lemma ConflictIs(forms: Forms, l: Legacy, db: Db)
    requires DistinctUpstreams(l.upstreams)
    ensures HardConflict(forms, l, db) <==>
      Torn(l, db) || SecretMissing(l, db) || RouteStuck(l, db) || AccountsClash(forms, l, db)
  {
    TornIs(l, db);
    SecretIs(l, db);
    StuckIs(l, db);
    ClashIs(forms, l, db);
  }

  lemma TornIs(l: Legacy, db: Db)
    requires DistinctUpstreams(l.upstreams)
    ensures !Consistent(l.upstreams, db.siteOf) <==> Torn(l, db)
  {
    var us := l.upstreams;
    forall i, j | 0 <= i < |us| && 0 <= j < |us| ensures KeyOf(us[i]) == KeyOf(us[j]) <==> Together(us[i], us[j]) {
      SameKey(us[i], us[j]);
    }
    if Torn(l, db) {
      TornRows(l, db);
    }
    if !Consistent(us, db.siteOf) {
      var i, j :| 0 <= i < j < |us| && KeyOf(us[i]) == KeyOf(us[j]) && us[i].id in db.siteOf &&
        us[j].id in db.siteOf && db.siteOf[us[i].id] != db.siteOf[us[j].id];
      assert us[i] in us && us[j] in us;
    }
  }

  lemma TornRows(l: Legacy, db: Db)
    requires Torn(l, db)
    ensures !Consistent(l.upstreams, db.siteOf)
  {
    var us := l.upstreams;
    var u, v :| u in us && v in us && Together(u, v) && u.id in db.siteOf && v.id in db.siteOf &&
      db.siteOf[u.id] != db.siteOf[v.id];
    var i :| 0 <= i < |us| && us[i] == u;
    var j :| 0 <= j < |us| && us[j] == v;
    SameKey(u, v);
    assert i < j || j < i;
  }

  lemma SecretIs(l: Legacy, db: Db)
    ensures EmptyCredential(l, db) <==> SecretMissing(l, db)
  {
    if EmptyCredential(l, db) {
      var i :| 0 <= i < |l.upstreams| && l.upstreams[i].id !in db.siteOf && false in l.upstreams[i].credentials;
      assert l.upstreams[i] in l.upstreams;
    }
  }

  lemma AstrayIs(l: Legacy, t: LegacyTarget)
    ensures !ValidTarget(l, t) <==> Astray(l, t)
  {
  }

  /** The route's name is taken, or one of its targets is astray. */
  ghost predicate Stuck(l: Legacy, db: Db, r: Route) {
    || (exists m :: m in db.names && Lower(TrimSpace(db.names[m])) == Lower(TrimSpace(r.name)))
    || (exists t :: t in r.targets && Astray(l, t))
  }

  lemma RouteIsStuck(l: Legacy, db: Db, r: Route)
    ensures RouteConflict(l, db, r) <==> r.id !in db.modelOf && Stuck(l, db, r)
  {
    forall t ensures !ValidTarget(l, t) <==> Astray(l, t) { AstrayIs(l, t); }
  }

  lemma StuckIs(l: Legacy, db: Db)
    ensures (exists i :: 0 <= i < |l.routes| && RouteConflict(l, db, l.routes[i])) <==> RouteStuck(l, db)
  {
    if i :| 0 <= i < |l.routes| && RouteConflict(l, db, l.routes[i]) {
      RouteIsStuck(l, db, l.routes[i]);
      assert l.routes[i] in l.routes;
    }
    if r :| r in l.routes && r.id !in db.modelOf && Stuck(l, db, r) {
      RouteIsStuck(l, db, r);
      var i :| 0 <= i < |l.routes| && l.routes[i] == r;
    }
  }

  lemma ClashIs(forms: Forms, l: Legacy, db: Db)
    ensures (exists key :: key in Keys(l.upstreams) && UnitOf(forms, l, db, key) == Some(Conflict)) <==>
      AccountsClash(forms, l, db)
  {
    if key :| key in Keys(l.upstreams) && UnitOf(forms, l, db, key) == Some(Conflict) {
      KeyHasMember(l.upstreams, key);
      var i :| 0 <= i < |l.upstreams| && KeyOf(l.upstreams[i]) == key;
      assert l.upstreams[i] in l.upstreams;
    }
    if u :| u in l.upstreams && UnitOf(forms, l, db, KeyOf(u)) == Some(Conflict) {
      var i :| 0 <= i < |l.upstreams| && l.upstreams[i] == u;
      KeysCover(l.upstreams, i);
    }
  }

  lemma ForeignIs(db: Db)
    ensures Unmanaged(db) <==> Foreign(db)
  {
    LeftOver(db.sites, db.siteOf, db.sites - db.siteOf.Values);
    LeftOver(db.names.Keys, db.modelOf, db.names.Keys - db.modelOf.Values);
  }

  lemma Pick<T>(rest: set<T>) returns (s: T)
    requires rest != {}
    ensures s in rest
  {
    s :| s in rest;
  }

  lemma LeftOver(ids: set<int>, mapped: map<int, int>, rest: set<int>)
    requires rest == ids - mapped.Values
    ensures rest != {} <==> exists s :: s in ids && forall id :: id in mapped ==> mapped[id] != s
  {
    if rest != {} {
      var s := Pick(rest);
      forall id | id in mapped ensures mapped[id] != s { assert mapped[id] in mapped.Values; }
    }
    if s :| s in ids && forall id :: id in mapped ==> mapped[id] != s {
      assert s in rest;
    }
  }

  /** The legacy rows or the current state contradict themselves, or there is still something to map beside sites or
      models that no migration made, and force was not given. */
  ghost predicate Obstructed(forms: Forms, l: Legacy, db: Db, force: bool) {
    || Torn(l, db) || SecretMissing(l, db) || RouteStuck(l, db) || AccountsClash(forms, l, db)
    || (!force && Foreign(db) &&
        ((exists u :: u in l.upstreams && u.id !in db.siteOf) || exists r :: r in l.routes && r.id !in db.modelOf))
  }

  /** Exactly when a call with the current plan is blocked. */
  lemma BlockedExactly(forms: Forms, l: Legacy, db: Db, force: bool, refused: bool)
    requires DistinctUpstreams(l.upstreams) && !PlanFails(forms, l, db)
    ensures Migrate(forms, l, db, true, force, refused).1 == Blocked <==> Obstructed(forms, l, db, force)
  {
    ConflictIs(forms, l, db);
    ForeignIs(db);
    UnfinishedIs(l, db);
    BlockedIs(forms, l, db, force, refused);
  }

  lemma BlockedIs(forms: Forms, l: Legacy, db: Db, force: bool, refused: bool)
    requires !PlanFails(forms, l, db)
    ensures Migrate(forms, l, db, true, force, refused).1 == Blocked <==>
      HardConflict(forms, l, db) || (!force && Unfinished(l, db) && Unmanaged(db))
  {
    var p := Build(forms, l, db).value;
    assert p.hard == HardConflict(forms, l, db) && p.needsForce == (Unfinished(l, db) && Unmanaged(db));
  }

  lemma UnfinishedIs(l: Legacy, db: Db)
    ensures Unfinished(l, db) <==>
      (exists u :: u in l.upstreams && u.id !in db.siteOf) || exists r :: r in l.routes && r.id !in db.modelOf
  {
    if i :| 0 <= i < |l.upstreams| && l.upstreams[i].id !in db.siteOf { assert l.upstreams[i] in l.upstreams; }
    if i :| 0 <= i < |l.routes| && l.routes[i].id !in db.modelOf { assert l.routes[i] in l.routes; }
  }
}
