/** When the migration has nothing to do, and what it then leaves unmapped. */
module MigrationIdle {
  import opened Wrappers
  import opened MigrationAccounts
  import opened Migration
  import opened MigrationTheorems

  /** An upstream that brings nothing to migrate. */
  predicate Bare(u: Upstream) { u.endpoints == {} && u.models == {} && u.credentials == [] }

  predicate AllMapped(l: Legacy, db: Db) { !Unfinished(l, db) }

  /** An unmapped upstream without anything to migrate, in a group that already has its site. */
  predicate Overlooked(l: Legacy, db: Db, u: Upstream) {
    u in l.upstreams && u.id !in db.siteOf && Bare(u) && MappedSite(l.upstreams, db.siteOf, KeyOf(u)).Some?
  }

  // ----- when the plan is empty

  lemma {:induction false} PendingAre(us: seq<Upstream>, siteOf: map<int, int>, key: GroupKey, u: Upstream)
    ensures u in Pending(us, siteOf, key) <==> u in us && KeyOf(u) == key && u.id !in siteOf
  {
    if us != [] {
      var n := |us| - 1;
      assert us == us[..n] + [us[n]];
      PendingAre(us[..n], siteOf, key, u);
    }
  }

  lemma {:induction false} NoCredentials(us: seq<Upstream>)
    ensures CredentialCount(us) == 0 <==> forall u :: u in us ==> u.credentials == []
  {
    if us != [] {
      var n := |us| - 1;
      assert us == us[..n] + [us[n]];
      NoCredentials(us[..n]);
    }
  }

  lemma NoKeys(us: seq<Upstream>)
    ensures EndpointKeys(us) == {} <==> forall u :: u in us ==> u.endpoints == {}
    ensures ModelKeys(us) == {} <==> forall u :: u in us ==> u.models == {}
  {
    forall u | u in us && EndpointKeys(us) == {} ensures u.endpoints == {} {
      var i :| 0 <= i < |us| && us[i] == u;
      forall e | e in u.endpoints ensures e in EndpointKeys(us) { assert e in us[i].endpoints; }
    }
    forall u | u in us && ModelKeys(us) == {} ensures u.models == {} {
      var i :| 0 <= i < |us| && us[i] == u;
      forall m | m in u.models ensures m in ModelKeys(us) { assert m in us[i].models; }
    }
  }

  /** The group has its site, and its unmapped upstreams bring nothing. */
  predicate Settled(l: Legacy, db: Db, key: GroupKey) {
    && MappedSite(l.upstreams, db.siteOf, key).Some?
    && forall u :: u in l.upstreams && KeyOf(u) == key && u.id !in db.siteOf ==> Bare(u)
  }

  lemma NoGroupPlan(l: Legacy, db: Db, key: GroupKey)
    ensures GroupCounts(l, db, key) == NO_SITES <==> Settled(l, db, key)
  {
    var us := Pending(l.upstreams, db.siteOf, key);
    NoKeys(us);
    NoCredentials(us);
    forall u ensures u in us <==> u in l.upstreams && KeyOf(u) == key && u.id !in db.siteOf {
      PendingAre(l.upstreams, db.siteOf, key, u);
    }
    assert |EndpointKeys(us)| == 0 <==> EndpointKeys(us) == {};
    assert |ModelKeys(us)| == 0 <==> ModelKeys(us) == {};
  }

  predicate NonNegative(c: SiteCounts) {
    c.sites >= 0 && c.endpoints >= 0 && c.credentials >= 0 && c.siteModels >= 0
  }

  lemma {:induction false} NoSitesPlanned(l: Legacy, db: Db, keys: seq<GroupKey>)
    ensures NonNegative(SitesPlanned(l, db, keys))
    ensures SitesPlanned(l, db, keys) == NO_SITES <==> forall key :: key in keys ==> Settled(l, db, key)
  {
    if keys != [] {
      var n := |keys| - 1;
      assert keys == keys[..n] + [keys[n]];
      NoSitesPlanned(l, db, keys[..n]);
      NoGroupPlan(l, db, keys[n]);
    }
  }

  /** Nothing is planned for the accounts of a group. */
  predicate NoUnit(forms: Forms, l: Legacy, db: Db, key: GroupKey) {
    UnitCounts(UnitOf(forms, l, db, key)) == NO_ACCOUNTS
  }

  predicate CountsUp(a: AccountCounts) { a.accounts >= 0 && a.snapshots >= 0 && a.usage >= 0 }

  lemma OneMoreUnit(forms: Forms, l: Legacy, db: Db, keys: seq<GroupKey>)
    requires keys != [] && CountsUp(AccountsPlanned(forms, l, db, keys[..|keys| - 1]))
    ensures CountsUp(AccountsPlanned(forms, l, db, keys))
    ensures AccountsPlanned(forms, l, db, keys) == NO_ACCOUNTS <==>
      AccountsPlanned(forms, l, db, keys[..|keys| - 1]) == NO_ACCOUNTS && NoUnit(forms, l, db, keys[|keys| - 1])
  {
    var u := UnitCounts(UnitOf(forms, l, db, keys[|keys| - 1]));
    assert CountsUp(u);
  }

  lemma {:induction false} NoAccountsPlanned(forms: Forms, l: Legacy, db: Db, keys: seq<GroupKey>)
    ensures CountsUp(AccountsPlanned(forms, l, db, keys))
    ensures AccountsPlanned(forms, l, db, keys) == NO_ACCOUNTS <==>
      forall key :: key in keys ==> NoUnit(forms, l, db, key)
  {
    if keys != [] {
      var n := |keys| - 1;
      assert keys == keys[..n] + [keys[n]];
      NoAccountsPlanned(forms, l, db, keys[..n]);
      OneMoreUnit(forms, l, db, keys);
    }
  }

  lemma {:induction false} NoRoutesPlanned(l: Legacy, db: Db, rs: seq<Route>)
    ensures RoutesPlanned(l, db, rs).models >= 0 && RoutesPlanned(l, db, rs).targets >= 0
    ensures RoutesPlanned(l, db, rs) == NO_ROUTES <==> forall i :: 0 <= i < |rs| ==> rs[i].id in db.modelOf
  {
    if rs != [] {
      var n := |rs| - 1;
      NoRoutesPlanned(l, db, rs[..n]);
      assert forall i :: 0 <= i < n ==> rs[..n][i] == rs[i];
    }
  }

  predicate AccountsDone(forms: Forms, l: Legacy, db: Db) {
    forall key :: key in Keys(l.upstreams) ==> NoUnit(forms, l, db, key)
  }

  /** The plan is empty exactly when every route is mapped, no group has accounts to move, and every upstream is mapped
      or overlooked. */
  lemma EmptyPlan(forms: Forms, l: Legacy, db: Db)
    ensures Planned(forms, l, db) == NOTHING <==>
      && (forall i :: 0 <= i < |l.routes| ==> l.routes[i].id in db.modelOf)
      && (forall u :: u in l.upstreams ==> u.id in db.siteOf || Overlooked(l, db, u))
      && AccountsDone(forms, l, db)
  {
    var keys := Keys(l.upstreams);
    NoSitesPlanned(l, db, keys);
    NoAccountsPlanned(forms, l, db, keys);
    NoRoutesPlanned(l, db, l.routes);
    AllSettled(l, db);
  }

  lemma AllSettled(l: Legacy, db: Db)
    ensures (forall key :: key in Keys(l.upstreams) ==> Settled(l, db, key)) <==>
      forall u :: u in l.upstreams ==> u.id in db.siteOf || Overlooked(l, db, u)
  {
    var us := l.upstreams;
    if forall key :: key in Keys(us) ==> Settled(l, db, key) {
      forall u | u in us && u.id !in db.siteOf ensures Overlooked(l, db, u) {
        var i :| 0 <= i < |us| && us[i] == u;
        KeysCover(us, i);
      }
    }
    if forall u :: u in us ==> u.id in db.siteOf || Overlooked(l, db, u) {
      forall key | key in Keys(us) ensures Settled(l, db, key) {
        KeyHasMember(us, key);
        var i :| 0 <= i < |us| && KeyOf(us[i]) == key;
        MappedMember(us, db.siteOf, key);
        assert us[i] in us;
      }
    }
  }

  // ----- what nothing to do means

  lemma SameSize<T>(a: set<T>, b: set<T>)
    requires a <= b && |a| == |b|
    ensures a == b
  {
    assert |b - a| == 0;
  }

  /** All rows are mapped exactly when there are as many mappings as rows. */
  lemma MappedByCount(l: Legacy, db: Db)
    requires Schema(l, db)
    ensures AllMapped(l, db) <==> |l.upstreams| == |db.siteOf| && |l.routes| == |db.modelOf|
  {
    var us, rs := UpstreamIds(l.upstreams), RouteIds(l.routes);
    CountIds(l.upstreams);
    CountRouteIds(l.routes);
    assert |db.siteOf| == |db.siteOf.Keys| && |db.modelOf| == |db.modelOf.Keys|;
    if AllMapped(l, db) {
      assert db.siteOf.Keys == us && db.modelOf.Keys == rs;
    }
    if |us| == |db.siteOf| && |rs| == |db.modelOf| {
      SameSize(db.siteOf.Keys, us);
      SameSize(db.modelOf.Keys, rs);
      assert forall i :: 0 <= i < |l.upstreams| ==> l.upstreams[i].id in us;
      assert forall i :: 0 <= i < |l.routes| ==> l.routes[i].id in rs;
    }
  }

  /** A migration is reported as applied exactly when nothing conflicts and everything is mapped and moved. */
  lemma AppliedIsMapped(forms: Forms, l: Legacy, db: Db)
    requires Schema(l, db) && Build(forms, l, db).Some?
    ensures Build(forms, l, db).value.alreadyApplied <==>
      !HardConflict(forms, l, db) && AllMapped(l, db) && AccountsDone(forms, l, db)
  {
    EmptyPlan(forms, l, db);
    MappedByCount(l, db);
  }

  lemma MappedOrOverlooked(l: Legacy, db: Db)
    requires forall i :: 0 <= i < |l.routes| ==> l.routes[i].id in db.modelOf
    requires forall u :: u in l.upstreams ==> u.id in db.siteOf || Overlooked(l, db, u)
    ensures AllMapped(l, db) <==> !exists u :: Overlooked(l, db, u)
  {
    forall i | 0 <= i < |l.upstreams| && !exists u :: Overlooked(l, db, u) ensures l.upstreams[i].id in db.siteOf {
      assert l.upstreams[i] in l.upstreams;
    }
    if u :| Overlooked(l, db, u) {
      var i :| 0 <= i < |l.upstreams| && l.upstreams[i] == u;
      assert l.upstreams[i].id !in db.siteOf;
    }
  }

  /** What it means that there is nothing to do: all routes are mapped, and all upstreams are exactly when none was
      overlooked; only then does the preview also say that the migration has been applied. */
  lemma NothingToDoMeans(forms: Forms, l: Legacy, db: Db, samePlan: bool, force: bool, refused: bool)
    requires Schema(l, db) && Migrate(forms, l, db, samePlan, force, refused).1 == NothingToDo
    ensures forall i :: 0 <= i < |l.routes| ==> l.routes[i].id in db.modelOf
    ensures forall u :: u in l.upstreams ==> u.id in db.siteOf || Overlooked(l, db, u)
    ensures AllMapped(l, db) <==> !exists u :: Overlooked(l, db, u)
    ensures AllMapped(l, db) <==> Build(forms, l, db).value.alreadyApplied
  {
    EmptyPlan(forms, l, db);
    AppliedIsMapped(forms, l, db);
    MappedOrOverlooked(l, db);
  }

  // ----- an upstream that comes late

  function Joined(l: Legacy, u: Upstream): Legacy { l.(upstreams := l.upstreams + [u]) }

  lemma {:induction false} AccountsJoined(l: Legacy, us: seq<Upstream>, u: Upstream, key: GroupKey)
    ensures AccountsOf(Joined(l, u), us, key) == AccountsOf(l, us, key)
  {
    if us != [] { AccountsJoined(l, us[..|us| - 1], u, key); }
  }

  /** Without an account and a mapping of its own, the newcomer changes nothing about its group. */
  lemma GroupJoined(forms: Forms, l: Legacy, db: Db, u: Upstream, key: GroupKey)
    requires u.id !in db.siteOf && u.id !in l.accounts && KeyOf(u) in Keys(l.upstreams)
    ensures var l' := Joined(l, u);
      && Keys(l'.upstreams) == Keys(l.upstreams)
      && MappedSite(l'.upstreams, db.siteOf, key) == MappedSite(l.upstreams, db.siteOf, key)
      && UnitOf(forms, l', db, key) == UnitOf(forms, l, db, key)
  {
    var l' := Joined(l, u);
    assert l'.upstreams[..|l'.upstreams| - 1] == l.upstreams;
    AccountsJoined(l, l.upstreams, u, key);
    assert GroupAccounts(l', key) == GroupAccounts(l, key);
  }

  /** Once everything has been applied, an upstream that joins an existing group without anything to migrate is not
      mapped: a call finds nothing to do (or asks for force first), changes nothing, so that repeating it does not help,
      and does not say that the migration has been applied. */
  lemma Latecomer(forms: Forms, l: Legacy, db: Db, u: Upstream, force: bool, refused: bool)
    requires Schema(l, db) && Build(forms, l, db).Some? && Build(forms, l, db).value.alreadyApplied
    requires u.id !in UpstreamIds(l.upstreams) && u.id !in l.accounts && Bare(u) && KeyOf(u) in Keys(l.upstreams)
    ensures var l' := Joined(l, u);
      && Migrate(forms, l', db, true, force, refused) ==
           (db, if Unmanaged(db) && !force then Blocked else NothingToDo)
      && Overlooked(l', db, u) && !Build(forms, l', db).value.alreadyApplied
  {
    var l' := Joined(l, u);
    assert u.id !in db.siteOf;
    AppliedIsMapped(forms, l, db);
    forall key ensures MappedSite(l'.upstreams, db.siteOf, key) == MappedSite(l.upstreams, db.siteOf, key)
               ensures Keys(l'.upstreams) == Keys(l.upstreams)
               ensures UnitOf(forms, l', db, key) == UnitOf(forms, l, db, key)
    {
      GroupJoined(forms, l, db, u, key);
    }
    JoinedOverlooked(l, db, u);
    EmptyPlan(forms, l', db);
    NoConflictJoined(forms, l, db, u);
    assert l'.upstreams[|l.upstreams|] == u;
  }

  lemma JoinedOverlooked(l: Legacy, db: Db, u: Upstream)
    requires AllMapped(l, db) && u.id !in db.siteOf && Bare(u) && KeyOf(u) in Keys(l.upstreams)
    ensures Overlooked(Joined(l, u), db, u)
    ensures forall v :: v in Joined(l, u).upstreams && v != u ==> v.id in db.siteOf
  {
    var us := Joined(l, u).upstreams;
    KeyHasMember(l.upstreams, KeyOf(u));
    var i :| 0 <= i < |l.upstreams| && KeyOf(l.upstreams[i]) == KeyOf(u);
    assert us[i] == l.upstreams[i];
    MappedMember(us, db.siteOf, KeyOf(u));
  }

  lemma NoConflictJoined(forms: Forms, l: Legacy, db: Db, u: Upstream)
    requires AllMapped(l, db) && !HardConflict(forms, l, db) && u.id !in db.siteOf && Bare(u)
    requires Keys(Joined(l, u).upstreams) == Keys(l.upstreams)
    requires forall key :: UnitOf(forms, Joined(l, u), db, key) == UnitOf(forms, l, db, key)
    ensures !HardConflict(forms, Joined(l, u), db)
  {
    var l' := Joined(l, u);
    var us := l'.upstreams;
    assert forall i :: 0 <= i < |us| ==> us[i] == u || (i < |l.upstreams| && us[i] == l.upstreams[i]);
    assert Consistent(us, db.siteOf);
  }

  // ----- the same from an empty database

  const ORIGIN := OfOrigin("https://h")
  const EARLY := Upstream(1, Some("https://h"), true, {}, {}, [])
  const LATE := Upstream(2, Some("https://h"), true, {}, {}, [])
  const LEGACY := Legacy([EARLY], map[], [])
  const EMPTY := Db({}, 1, map[], map[], map[], 1, map[], map[])

  /** Two upstreams of one origin: the first is migrated, the second one comes late and is left behind. */
  lemma LeftBehind(forms: Forms)
    requires Idempotent(forms)
    ensures var (d, verdict) := Migrate(forms, LEGACY, EMPTY, true, false, false);
      && verdict == Applied && LATE.id !in d.siteOf
      && Migrate(forms, Joined(LEGACY, LATE), d, true, true, false) == (d, NothingToDo)
  {
    EarlyGroup(forms);
    EarlyPlan(forms);
    EarlyApplies(forms);
    var d := Apply(forms, LEGACY, EMPTY, false).value;
    PlanAfterApply(forms, LEGACY, EMPTY, false);
    ApplyKeepsSchema(forms, LEGACY, EMPTY, false);
    Latecomer(forms, LEGACY, d, LATE, true, false);
  }

  lemma EarlyGroup(forms: Forms)
    ensures Keys([EARLY]) == [ORIGIN] && Schema(LEGACY, EMPTY) && Consistent([EARLY], map[])
    ensures MappedSite([EARLY], map[], ORIGIN) == None
    ensures forall db :: UnitOf(forms, LEGACY, db, ORIGIN) == None
  {
    assert [EARLY][..0] == [];
    assert AccountsOf(LEGACY, [EARLY], ORIGIN) == [];
  }

  lemma EarlyPlan(forms: Forms)
    ensures var p := Build(forms, LEGACY, EMPTY);
      p.Some? && !p.value.hard && !p.value.needsForce && !p.value.alreadyApplied && p.value.plan != NOTHING
  {
    EarlyGroup(forms);
    EmptyPlan(forms, LEGACY, EMPTY);
    assert EARLY in LEGACY.upstreams && !Overlooked(LEGACY, EMPTY, EARLY);
    assert EMPTY.sites - EMPTY.siteOf.Values == {} && EMPTY.names.Keys - EMPTY.modelOf.Values == {};
    assert !HardConflict(forms, LEGACY, EMPTY);
  }

  lemma EarlyApplies(forms: Forms)
    ensures Apply(forms, LEGACY, EMPTY, false).Some?
  {
    EarlyGroup(forms);
    var jobs := Jobs(forms, LEGACY, EMPTY);
    assert |jobs| == 1 && jobs[0].unit == None && jobs[..0] == [];
    assert DepositAll(EMPTY.accounts, jobs) == Some(EMPTY.accounts);
    var d := Place(LEGACY, EMPTY).(accounts := EMPTY.accounts);
    assert MigrateRoutes(LEGACY, EMPTY, d, []) == Some(d);
    assert !PlanFails(forms, LEGACY, d);
  }
}
