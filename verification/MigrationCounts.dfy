/** The rows a migration adds to the account tables are as many as its plan announced. */
module MigrationCounts {
  import opened Wrappers
  import opened MigrationAccounts
  import opened Migration
  import opened MigrationTheorems

  // ----- sums over all accounts

  ghost function Total(size: SiteAccount -> nat, accounts: map<int, SiteAccount>): nat
    decreases |accounts|
  {
    if exists s :: s in accounts then
      var s :| s in accounts;
      size(accounts[s]) + Total(size, accounts - {s})
    else 0
  }

  /** Any account can be taken out of the sum. */
  lemma {:induction false} TotalWithout(size: SiteAccount -> nat, accounts: map<int, SiteAccount>, s: int)
    requires s in accounts
    ensures Total(size, accounts) == size(accounts[s]) + Total(size, accounts - {s})
    decreases |accounts|
  {
    var t :| t in accounts && Total(size, accounts) == size(accounts[t]) + Total(size, accounts - {t});
    if t != s {
      TotalWithout(size, accounts - {t}, s);
      TotalWithout(size, accounts - {s}, t);
      assert accounts - {t} - {s} == accounts - {s} - {t};
    }
  }

  lemma TotalUpdate(size: SiteAccount -> nat, accounts: map<int, SiteAccount>, s: int, acc: SiteAccount)
    ensures Total(size, accounts[s := acc]) ==
      Total(size, accounts) + size(acc) - if s in accounts then size(accounts[s]) else 0
  {
    TotalWithout(size, accounts[s := acc], s);
    assert accounts[s := acc] - {s} == accounts - {s};
    if s in accounts { TotalWithout(size, accounts, s); } else { assert accounts - {s} == accounts; }
  }

  function SnapshotsOf(acc: SiteAccount): nat { |acc.snapshots| }

  function RecordsOf(acc: SiteAccount): nat { |acc.usage| }

  /** How many accounts, snapshots and usage records there are. */
  ghost function Held(accounts: map<int, SiteAccount>): AccountCounts {
    AccountCounts(|accounts|, Total(SnapshotsOf, accounts), Total(RecordsOf, accounts))
  }

  function Plus(a: AccountCounts, b: AccountCounts): AccountCounts {
    AccountCounts(a.accounts + b.accounts, a.snapshots + b.snapshots, a.usage + b.usage)
  }

  // ----- one deposit after another

  lemma UnionSize<V>(a: map<string, V>, b: map<string, V>)
    requires a.Keys !! b.Keys
    ensures |a + b| == |a| + |b|
  {
    assert (a + b).Keys == a.Keys + b.Keys;
    assert |a + b| == |(a + b).Keys| && |a| == |a.Keys| && |b| == |b.Keys|;
  }

  lemma StoredSize(usage: map<string, Usage>)
    ensures StoreAll(usage).Keys == usage.Keys && |StoreAll(usage)| == |usage|
  {
    assert |StoreAll(usage)| == |StoreAll(usage).Keys| && |usage| == |usage.Keys|;
  }

  lemma OneDeposit(existing: Option<SiteAccount>, u: UnitPlan)
    requires u.Unit? && Deposit(existing, u).Some?
    ensures var acc := Deposit(existing, u).value;
      && u.create == existing.None?
      && |acc.snapshots| == |u.snapshots| + (if existing.Some? then |existing.value.snapshots| else 0)
      && |acc.usage| == |u.usage| + if existing.Some? then |existing.value.usage| else 0
  {
    StoredSize(u.usage);
    if existing.Some? { UnionSize(existing.value.usage, StoreAll(u.usage)); }
  }

  lemma OneMore(before: map<int, SiteAccount>, site: int, acc: SiteAccount)
    ensures |before[site := acc]| == |before| + if site in before then 0 else 1
  {
    var after := before[site := acc];
    assert after.Keys == before.Keys + {site};
    assert |after| == |after.Keys| && |before| == |before.Keys|;
  }

  /** One account more, or one that has grown. */
  lemma HeldAfter(before: map<int, SiteAccount>, site: int, acc: SiteAccount, added: AccountCounts)
    requires added.accounts == if site in before then 0 else 1
    requires |acc.snapshots| == added.snapshots + if site in before then |before[site].snapshots| else 0
    requires |acc.usage| == added.usage + if site in before then |before[site].usage| else 0
    ensures Held(before[site := acc]) == Plus(Held(before), added)
  {
    OneMore(before, site, acc);
    TotalUpdate(SnapshotsOf, before, site, acc);
    TotalUpdate(RecordsOf, before, site, acc);
  }

  /** One job adds what it was counted for. */
  lemma UnitCounted(before: map<int, SiteAccount>, site: int, u: UnitPlan)
    requires u.Unit? && Deposit(Lookup(before, site), u).Some?
    ensures Held(before[site := Deposit(Lookup(before, site), u).value]) == Plus(Held(before), UnitCounts(Some(u)))
  {
    OneDeposit(Lookup(before, site), u);
    HeldAfter(before, site, Deposit(Lookup(before, site), u).value, UnitCounts(Some(u)));
  }

  /** A measure of the accounts that every deposit raises by what was counted for its unit. */
  ghost predicate Counts(held: map<int, SiteAccount> -> AccountCounts) {
    forall before, site, u: UnitPlan | u.Unit? && Deposit(Lookup(before, site), u).Some? ::
      held(before[site := Deposit(Lookup(before, site), u).value]) == Plus(held(before), UnitCounts(Some(u)))
  }

  lemma HeldCounts(held: map<int, SiteAccount> -> AccountCounts)
    requires forall accounts :: held(accounts) == Held(accounts)
    ensures Counts(held)
  {
    forall before, site, u: UnitPlan | u.Unit? && Deposit(Lookup(before, site), u).Some?
      ensures held(before[site := Deposit(Lookup(before, site), u).value]) == Plus(held(before), UnitCounts(Some(u)))
    {
      UnitCounted(before, site, u);
    }
  }

  function JobCounts(jobs: seq<Job>): AccountCounts {
    if jobs == [] then NO_ACCOUNTS
    else Plus(JobCounts(jobs[..|jobs| - 1]), UnitCounts(jobs[|jobs| - 1].unit))
  }

  lemma {:induction false} AllCounted(held: map<int, SiteAccount> -> AccountCounts, accounts: map<int, SiteAccount>,
      jobs: seq<Job>)
    requires Counts(held) && DepositAll(accounts, jobs).Some?
    ensures held(DepositAll(accounts, jobs).value) == Plus(held(accounts), JobCounts(jobs))
  {
    if jobs != [] {
      var before, job := DepositAll(accounts, jobs[..|jobs| - 1]), jobs[|jobs| - 1];
      AllCounted(held, accounts, jobs[..|jobs| - 1]);
      PlusPlus(held(accounts), JobCounts(jobs[..|jobs| - 1]), UnitCounts(job.unit));
      if job.unit.Some? { assert Deposit(Lookup(before.value, job.site), job.unit.value).Some?; }
    }
  }

  lemma PlusPlus(a: AccountCounts, b: AccountCounts, c: AccountCounts)
    ensures Plus(Plus(a, b), c) == Plus(a, Plus(b, c))
  {
  }

  lemma {:induction false} JobsAnnounced(forms: Forms, l: Legacy, db: Db, keys: seq<GroupKey>, jobs: seq<Job>)
    requires |jobs| == |keys| && forall i :: 0 <= i < |keys| ==> jobs[i].unit == UnitOf(forms, l, db, keys[i])
    ensures JobCounts(jobs) == AccountsPlanned(forms, l, db, keys)
  {
    if keys != [] {
      JobsAnnounced(forms, l, db, keys[..|keys| - 1], jobs[..|keys| - 1]);
    }
  }

  /** Conservation: after any successful migration there are exactly as many more accounts, snapshots and usage records
      as its plan announced. */
  lemma AccountsAsPlanned(forms: Forms, l: Legacy, db: Db, refused: bool)
    requires db.modelOf.Keys <= RouteIds(l.routes) && Apply(forms, l, db, refused).Some?
    ensures Held(Apply(forms, l, db, refused).value.accounts) ==
      Plus(Held(db.accounts), Planned(forms, l, db).accounts)
  {
    var jobs := Jobs(forms, l, db);
    var held := (accounts: map<int, SiteAccount>) => Held(accounts);
    HeldCounts(held);
    Applies(forms, l, db, refused);
    AllCounted(held, db.accounts, jobs);
    JobsAnnounced(forms, l, db, Keys(l.upstreams), jobs);
  }
}
