/** Small legacy databases: one account, whose migration is a fixed point or not, and a plan that cannot be applied. */
module MigrationExample {
  import opened Wrappers
  import opened MigrationAccounts
  import opened Migration
  import opened MigrationTheorems
  import opened MigrationEffects
  import opened MigrationVerdicts
  import opened MigrationSuccess
  import MigrationIdle

  const UPSTREAM := Upstream(1, None, true, {}, {}, [])
  const KEY := OfUpstream(1)
  const FRESH := Db({}, 1, map[], map[], map[], 1, map[], map[])

  function AccountWith(c: Config): Account { Account(1, 0, c, [], []) }

  function LegacyWith(c: Config): Legacy { Legacy([UPSTREAM], map[1 := AccountWith(c)], []) }

  /** The account can be stored at all. */
  predicate Storable(forms: Forms, c: Config) {
    forms.json(c.capabilities).Some? && c.auth != [] && forms.adapter(c.adapter) != "" && forms.origin(c.origin) != ""
  }

  lemma OneGroup(c: Config)
    ensures Keys([UPSTREAM]) == [KEY]
    ensures GroupAccounts(LegacyWith(c), KEY) == [AccountWith(c)]
    ensures MappedSite([UPSTREAM], map[], KEY) == None
  {
    var us := [UPSTREAM];
    assert us[..0] == [];
    var accounts := AccountsOf(LegacyWith(c), us, KEY);
    assert AccountsOf(LegacyWith(c), us[..0], KEY) == [] && accounts == [AccountWith(c)];
    assert accounts[..0] == [];
  }

  lemma OneUnit(forms: Forms, c: Config)
    requires Storable(forms, c)
    ensures UnitOf(forms, LegacyWith(c), FRESH, KEY) == Some(Unit(true, StoredConfig(forms, c), [], map[]))
  {
    OneGroup(c);
    var accounts := [AccountWith(c)];
    assert accounts[1..] == [];
    assert AllSnaps(accounts[1..]) == [] && AllUsage(accounts[1..]) == [];
    assert AllSnaps(accounts) == [];
    assert AllUsage(accounts) == AccountWith(c).usage;
    assert Vet(forms, accounts, None) == Same;
  }

  lemma FirstPlan(forms: Forms, c: Config)
    requires Storable(forms, c)
    ensures var p := Build(forms, LegacyWith(c), FRESH);
      p.Some? && !p.value.hard && !p.value.needsForce && !p.value.alreadyApplied && p.value.plan != NOTHING
  {
    var l := LegacyWith(c);
    OneGroup(c);
    OneUnit(forms, c);
    assert [KEY][..0] == [];
    assert AccountsPlanned(forms, l, FRESH, [KEY]).accounts == 1;
    assert FRESH.sites - FRESH.siteOf.Values == {} && FRESH.names.Keys - FRESH.modelOf.Values == {};
    assert !HardConflict(forms, l, FRESH);
  }

  lemma FirstDeposit(forms: Forms, c: Config)
    requires Storable(forms, c)
    ensures DepositAll(FRESH.accounts, Jobs(forms, LegacyWith(c), FRESH)).Some?
  {
    var jobs := Jobs(forms, LegacyWith(c), FRESH);
    OneGroup(c);
    OneUnit(forms, c);
    assert |jobs| == 1 && jobs[0].unit == Some(Unit(true, StoredConfig(forms, c), [], map[]));
    assert jobs[..0] == [];
  }

  /** One account is enough: its first migration succeeds, and the second finds nothing to do if the stored form of
      its origin is stable, but is blocked by a conflict with the account it created itself if it is not. */
  lemma OneAccount(forms: Forms, c: Config, force: bool)
    requires Idempotent(forms) && Storable(forms, c)
    ensures var l := LegacyWith(c);
      var (d, verdict) := Migrate(forms, l, FRESH, true, force, false);
      && verdict == Applied
      && Migrate(forms, l, d, true, true, false) == (d, if Stable(forms, c.origin) then NothingToDo else Blocked)
  {
    var l := LegacyWith(c);
    OneGroup(c);
    OneUnit(forms, c);
    FirstPlan(forms, c);
    FirstDeposit(forms, c);
    FirstApplies(forms, c);
    assert Schema(l, FRESH);
    MigrateTwice(forms, l, FRESH, true, force, false, true, false);
    assert Unrecognised(forms, l, FRESH, KEY) <==> !Stable(forms, c.origin);
    assert KEY in Keys(l.upstreams);
  }

  lemma FirstApplies(forms: Forms, c: Config)
    requires Idempotent(forms) && Storable(forms, c)
    ensures Apply(forms, LegacyWith(c), FRESH, false).Some?
  {
    var l := LegacyWith(c);
    FirstDeposit(forms, c);
    var d := Place(l, FRESH).(accounts := DepositAll(FRESH.accounts, Jobs(forms, l, FRESH)).value);
    assert MigrateRoutes(l, FRESH, d, l.routes) == Some(d);
    PlacedOk(l, FRESH);
    GroupsAfter(forms, l, FRESH, d);
  }

  /** With the forms the migration really uses, and a legacy row as its writers store it: an account configured under
      `v`, whose path ends in spaced slashes, is stored under a form of `v` that the second migration trips over. */
  lemma SpaceBeforeSlash(json: string -> Option<string>, c: Config, h: string, v: string)
    requires forall x, y :: json(x) == Some(y) ==> json(y) == Some(y)
    requires h != [] && Bare(h) && h[|h| - 1] != '/' && v == h + " / / /"
    requires c.origin == Origin(Origin(v)) && c.adapter == Adapter(c.adapter) != ""
    requires json(c.capabilities).Some? && c.auth != []
    ensures var l := LegacyWith(c);
      var (d, verdict) := Migrate(TheForms(json), l, FRESH, true, true, false);
      verdict == Applied && Migrate(TheForms(json), l, d, true, true, false) == (d, Blocked)
  {
    TheFormsAre(json);
    UnstableOrigin(h);
    assert Origin(c.origin) != Origin(Origin(c.origin)) by { assert |h + " "| != |h|; }
    OneAccount(TheForms(json), c, true);
  }

  // ----- a plan without conflicts that cannot be applied

  const FIRST := Upstream(1, Some("https://h"), true, {}, {}, [])
  const SECOND := Upstream(2, Some("https://h"), true, {}, {}, [])
  const MOVED := Upstream(2, Some("https://g"), true, {}, {}, [])

  /** Two upstreams of one origin. */
  const PAIR := Legacy([FIRST, SECOND], map[], [])

  /** The same two later: the second has moved to another origin, and both have accounts. */
  function Parted(c: Config): Legacy {
    Legacy([FIRST, MOVED], map[1 := AccountWith(c), 2 := Account(2, 0, c, [], [])], [])
  }

  const OLD := OfOrigin("https://h")
  const NEW := OfOrigin("https://g")

  lemma KeysOfTwo(u: Upstream)
    ensures Keys([FIRST, u]) == if KeyOf(u) == OLD then [OLD] else [OLD, KeyOf(u)]
  {
    assert [FIRST, u][..1] == [FIRST] && [FIRST][..0] == [];
    assert Keys([FIRST]) == [OLD];
  }

  lemma AccountsOfTwo(l: Legacy, u: Upstream, key: GroupKey)
    requires l.upstreams == [FIRST, u]
    ensures var first := if key == OLD && 1 in l.accounts then [l.accounts[1]] else [];
      AccountsOf(l, l.upstreams, key) ==
        first + if KeyOf(u) == key && u.id in l.accounts then [l.accounts[u.id]] else []
    ensures |AccountsOf(l, l.upstreams, key)| <= 1 ==> GroupAccounts(l, key) == AccountsOf(l, l.upstreams, key)
  {
    assert [FIRST, u][..1] == [FIRST] && [FIRST][..0] == [];
    var first := if key == OLD && 1 in l.accounts then [l.accounts[1]] else [];
    assert AccountsOf(l, [FIRST][..0], key) == [];
    assert AccountsOf(l, [FIRST], key) == first;
    var accounts := AccountsOf(l, l.upstreams, key);
    if |accounts| == 1 { assert accounts[..0] == [] && NewestFirst(accounts[..0]) == []; }
  }

  lemma PairKeys()
    ensures OLD != NEW && Keys([FIRST, SECOND]) == [OLD] && Keys([FIRST, MOVED]) == [OLD, NEW]
  {
    assert "https://h"[8] != "https://g"[8];
    KeysOfTwo(SECOND);
    KeysOfTwo(MOVED);
  }

  lemma PartedAccounts(c: Config)
    ensures GroupAccounts(Parted(c), OLD) == [AccountWith(c)]
    ensures GroupAccounts(Parted(c), NEW) == [Account(2, 0, c, [], [])]
  {
    PairKeys();
    AccountsOfTwo(Parted(c), MOVED, OLD);
    AccountsOfTwo(Parted(c), MOVED, NEW);
    assert AccountsOf(Parted(c), [FIRST, MOVED], OLD) == [AccountWith(c)] + [];
    assert AccountsOf(Parted(c), [FIRST, MOVED], NEW) == [] + [Account(2, 0, c, [], [])];
  }

  lemma PairIsPlanned(forms: Forms)
    ensures Schema(PAIR, FRESH) && ModelsOk(FRESH) && !Unplannable(forms, PAIR, FRESH)
    ensures !Obstructed(forms, PAIR, FRESH, false)
    ensures GroupAccounts(PAIR, OLD) == []
  {
    PairKeys();
    AccountsOfTwo(PAIR, SECOND, OLD);
    assert GroupAccounts(PAIR, OLD) == [];
  }

  lemma PairApplies(forms: Forms)
    requires Idempotent(forms)
    ensures Migrate(forms, PAIR, FRESH, true, false, false).1 == Applied
    ensures Apply(forms, PAIR, FRESH, false).Some?
  {
    PairKeys();
    PairIsPlanned(forms);
    VerdictsAre(forms, PAIR, FRESH, true, false, false);
    MigrationIdle.EmptyPlan(forms, PAIR, FRESH);
    assert FIRST in PAIR.upstreams;
    MappedMember(PAIR.upstreams, FRESH.siteOf, OLD);
    assert Planned(forms, PAIR, FRESH) != NOTHING;
    assert AccountsFit(forms, PAIR, FRESH);
    assert NewNames(FRESH, PAIR.routes) == [];
    assert Fits(forms, PAIR, FRESH);
    OnlyAppliedChanges(forms, PAIR, FRESH, true, false, false);
  }

  /** Both upstreams on one site that has no account yet, and no models. */
  ghost predicate OnOneSite(d: Db) {
    && d.siteOf.Keys == {1, 2} && d.siteOf[1] == d.siteOf[2]
    && d.accounts == map[] && d.names == map[] && d.modelOf == map[]
    && SitesOk(d.sites, d.nextSite, d.siteOf, d.accounts) && ModelsOk(d)
  }

  lemma TwoIds(u: Upstream)
    ensures UpstreamIds([FIRST, u]) == {1, u.id}
  {
    var us := [FIRST, u];
    assert us[0].id == 1 && us[1].id == u.id;
  }

  lemma PairSites(forms: Forms)
    requires Idempotent(forms) && Apply(forms, PAIR, FRESH, false).Some?
    ensures var d := Apply(forms, PAIR, FRESH, false).value;
      d.siteOf.Keys == {1, 2} && d.siteOf[1] == d.siteOf[2] && Schema(PAIR, d)
  {
    PairIsPlanned(forms);
    ApplyKeepsSchema(forms, PAIR, FRESH, false);
    TwoIds(SECOND);
    assert FIRST in PAIR.upstreams && SECOND in PAIR.upstreams;
    UpstreamsPlaced(forms, PAIR, FRESH, false, FIRST, SECOND);
  }

  lemma PairModels(forms: Forms)
    requires Apply(forms, PAIR, FRESH, false).Some?
    ensures var d := Apply(forms, PAIR, FRESH, false).value;
      d.names == map[] && d.modelOf == map[] && ModelsOk(d)
  {
    RoutesAdded(forms, PAIR, FRESH, false);
    var d := Apply(forms, PAIR, FRESH, false).value;
    assert d.modelOf.Keys == {} && d.names.Keys == {};
  }

  lemma PairOnOneSite(forms: Forms)
    requires Idempotent(forms) && Apply(forms, PAIR, FRESH, false).Some?
    ensures OnOneSite(Apply(forms, PAIR, FRESH, false).value)
  {
    PairSites(forms);
    PairModels(forms);
    Applies(forms, PAIR, FRESH, false);
    PairHasNoAccounts(forms);
  }

  lemma PairHasNoAccounts(forms: Forms)
    ensures DepositAll(FRESH.accounts, Jobs(forms, PAIR, FRESH)) == Some(map[])
  {
    PairKeys();
    PairIsPlanned(forms);
    var jobs := Jobs(forms, PAIR, FRESH);
    assert |jobs| == 1 && jobs[0].unit == None && jobs[..0] == [];
  }

  lemma PartedUnits(forms: Forms, c: Config, d: Db)
    requires OnOneSite(d) && Storable(forms, c)
    ensures UnitOf(forms, Parted(c), d, OLD).Some? && UnitOf(forms, Parted(c), d, OLD).value.Unit?
    ensures UnitOf(forms, Parted(c), d, NEW).Some? && UnitOf(forms, Parted(c), d, NEW).value.Unit?
  {
    PartedAccounts(c);
    OneAccountUnit(forms, AccountWith(c));
    OneAccountUnit(forms, Account(2, 0, c, [], []));
    assert Existing(Parted(c), d, OLD) == None && Existing(Parted(c), d, NEW) == None;
  }

  lemma OneAccountUnit(forms: Forms, a: Account)
    requires Storable(forms, a.config) && a.snapshots == [] && a.usage == []
    ensures PlanUnit(forms, [a], None).Unit?
  {
    assert [a][1..] == [] && AllSnaps([a]) == a.snapshots + AllSnaps([]) && AllUsage([a]) == a.usage + AllUsage([]);
    assert Vet(forms, [a], None) == Same;
  }

  lemma PartedSchema(c: Config, d: Db)
    requires OnOneSite(d)
    ensures Schema(Parted(c), d)
  {
    TwoIds(MOVED);
  }

  lemma PartedIsPlanned(forms: Forms, c: Config, d: Db)
    requires OnOneSite(d) && Storable(forms, c)
    ensures !Unplannable(forms, Parted(c), d) && !AccountsClash(forms, Parted(c), d)
  {
    PartedUnits(forms, c, d);
    forall u | u in Parted(c).upstreams ensures KeyOf(u) == OLD || KeyOf(u) == NEW {}
  }

  lemma PartedIsClear(forms: Forms, c: Config, d: Db)
    requires OnOneSite(d) && !AccountsClash(forms, Parted(c), d)
    ensures !Obstructed(forms, Parted(c), d, false)
  {
    var l := Parted(c);
    forall u | u in l.upstreams ensures u == FIRST || u == MOVED {}
    assert FIRST.id in d.siteOf && MOVED.id in d.siteOf;
    assert !Torn(l, d);
  }

  lemma PartedDoesNotFit(forms: Forms, c: Config, d: Db)
    requires OnOneSite(d)
    ensures !Fits(forms, Parted(c), d)
  {
    var l := Parted(c);
    PairKeys();
    PartedAccounts(c);
    MappedMember(l.upstreams, d.siteOf, OLD);
    MappedMember(l.upstreams, d.siteOf, NEW);
    assert l.upstreams[0] == FIRST && l.upstreams[1] == MOVED;
    assert Home(l, d, 0) == d.siteOf[1] && Home(l, d, 1) == d.siteOf[2];
    assert !GroupsFit(l, d, 0, 1);
  }

  lemma PartedHasAPlan(forms: Forms, c: Config, d: Db)
    requires OnOneSite(d) && Storable(forms, c)
    ensures Planned(forms, Parted(c), d) != NOTHING
  {
    PairKeys();
    PartedUnits(forms, c, d);
    PartedAccounts(c);
    MigrationIdle.EmptyPlan(forms, Parted(c), d);
    UnitFits(forms, GroupAccounts(Parted(c), OLD), Existing(Parted(c), d, OLD));
    assert OLD in Keys(Parted(c).upstreams) && !MigrationIdle.NoUnit(forms, Parted(c), d, OLD);
  }

  /** A preview without any conflict that cannot be applied: two upstreams of one origin are migrated, one of them then
      moves to another origin, and both get an account. Planning sees two groups that each create an account, but both
      of them are for the one site they were migrated to: the second insert fails, now and on every later call. */
  lemma TwoAccountsForOneSite(forms: Forms, c: Config, force: bool)
    requires Idempotent(forms) && Storable(forms, c)
    ensures var (d, verdict) := Migrate(forms, PAIR, FRESH, true, false, false);
      && verdict == Applied
      && var preview := Build(forms, Parted(c), d);
      && preview.Some? && !preview.value.hard && !preview.value.needsForce
      && Migrate(forms, Parted(c), d, true, force, false) == (d, Error)
  {
    PairApplies(forms);
    OnlyAppliedChanges(forms, PAIR, FRESH, true, false, false);
    PairOnOneSite(forms);
    Parting(forms, c, Apply(forms, PAIR, FRESH, false).value, force);
  }

  lemma ClearPreview(forms: Forms, l: Legacy, d: Db)
    requires DistinctUpstreams(l.upstreams) && !Unplannable(forms, l, d) && !Obstructed(forms, l, d, false)
    ensures var preview := Build(forms, l, d);
      preview.Some? && !preview.value.hard && !preview.value.needsForce
  {
    FailsIs(forms, l, d);
    BlockedExactly(forms, l, d, false, false);
  }

  lemma Parting(forms: Forms, c: Config, d: Db, force: bool)
    requires Idempotent(forms) && Storable(forms, c) && OnOneSite(d)
    ensures var preview := Build(forms, Parted(c), d);
      preview.Some? && !preview.value.hard && !preview.value.needsForce
    ensures Migrate(forms, Parted(c), d, true, force, false) == (d, Error)
  {
    PartedSchema(c, d);
    PartedIsPlanned(forms, c, d);
    PartedIsClear(forms, c, d);
    PartedDoesNotFit(forms, c, d);
    PartedHasAPlan(forms, c, d);
    ClearPreview(forms, Parted(c), d);
    Unfit(forms, Parted(c), d, force);
  }

  lemma Unfit(forms: Forms, l: Legacy, d: Db, force: bool)
    requires Idempotent(forms) && Schema(l, d) && ModelsOk(d)
    requires !Unplannable(forms, l, d) && !Obstructed(forms, l, d, false)
    requires Planned(forms, l, d) != NOTHING && !Fits(forms, l, d)
    ensures Migrate(forms, l, d, true, force, false) == (d, Error)
  {
    assert !Obstructed(forms, l, d, force);
    VerdictsAre(forms, l, d, true, force, false);
    OnlyAppliedChanges(forms, l, d, true, force, false);
  }
}
