/** What each transaction does to the tables, row by row: when it commits, what it changes, and what it leaves alone. */
module QuotaEffects {
  import opened Wrappers
  import opened QuotaLedger
  import opened QuotaRuns
  import opened QuotaProofs
  import opened QuotaRecovery

  /** No row of any table but that of one key differs. */
  predicate OnlyKey(before: Db, after: Db, key: KeyId) {
    && after.requests == before.requests && after.ledger == before.ledger
    && after.keys.Keys == before.keys.Keys + {key}
    && forall k :: k in before.keys && k != key ==> after.keys[k] == before.keys[k]
  }

  /** A created key starts unused with exactly the settings asked for; creation fails on a negative quota, and only
      then. */
  lemma CreateEffect(db: Db, key: KeyId, enabled: bool, quota: Option<int>, expiresAt: Option<int>)
    requires key !in db.keys
    ensures var (db', outcome) := CreateKey(db, key, enabled, quota, expiresAt);
      && (outcome == Done <==> quota.None? || quota.value >= 0)
      && (outcome != Done ==> db' == db)
      && (outcome == Done ==> OnlyKey(db, db', key) && db'.keys[key] == Key(enabled, quota, 0, 0, expiresAt))
  {
  }

  /** An edit commits exactly when the key exists and a finite quota covers what is used and reserved; then all three
      settings take effect, while usage, reservation and every other row stay as they were. */
  lemma UpdateEffect(w: World, key: KeyId, enabled: bool, quota: Option<int>, expiresAt: Option<int>)
    requires Inv(w)
    ensures var (db', outcome) := UpdateKey(w.db, key, enabled, quota, expiresAt);
      && (outcome == Done <==>
           key in w.db.keys && (quota.Some? ==> quota.value >= w.db.keys[key].used + w.db.keys[key].reserved))
      && (outcome != Done ==> db' == w.db)
      && (outcome == Done ==>
           OnlyKey(w.db, db', key) &&
           db'.keys[key] == Key(enabled, quota, w.db.keys[key].used, w.db.keys[key].reserved, expiresAt))
  {
    if key in w.db.keys { assert KeyOk(w.db.keys[key]); }
  }

  /** So the very next request is admitted or refused under the new settings. */
  lemma UpdateGoverns(w: World, key: KeyId, enabled: bool, quota: Option<int>, expiresAt: Option<int>,
      id: RequestId, amount: int, at: int)
    requires Inv(w) && id !in w.accounts && amount > 0
    requires Contract(w, UpdateStep(key, enabled, quota, expiresAt))
    requires UpdateKey(w.db, key, enabled, quota, expiresAt).1 == Done
    ensures key in w.db.keys
    ensures Start(UpdateKey(w.db, key, enabled, quota, expiresAt).0, id, key, amount, true, at).1 == Done <==>
      && enabled && quota.Some? && w.db.keys[key].used + w.db.keys[key].reserved + amount <= quota.value
      && (expiresAt.None? || at < expiresAt.value)
  {
    UpdateEffect(w, key, enabled, quota, expiresAt);
    var s := UpdateStep(key, enabled, quota, expiresAt);
    UpdateKeeps(w, s);
    StartOutcome(Next(w, s), id, key, amount, true, at);
  }

  /** What a finite quota lets a request charge: all of it, or what is left once the other reservations are honoured. */
  function Payable(k: Key, own: int, charge: int): int {
    if k.quota.None? || charge <= k.quota.value - k.used - k.reserved + own then charge
    else k.quota.value - k.used - k.reserved + own
  }

  lemma OnlyRow(requests: seq<Request>, id: RequestId)
    requires forall i, j :: 0 <= i < j < |requests| ==> requests[i].id != requests[j].id
    ensures forall j :: 0 <= j < |requests| && requests[j].id == id ==> j == IndexOf(requests, id)
  {
  }

  /** A committed finish takes the request's own reservation off its key, adds what the quota lets it charge, and marks
      exactly that request; ids are unique in every reachable table. */
  lemma FinishEffect(db: Db, id: RequestId, key: KeyId, reserved: int, charge: int, success: bool)
    requires forall i, j :: 0 <= i < j < |db.requests| ==> db.requests[i].id != db.requests[j].id
    requires Finish(db, id, key, reserved, charge, success).1 == Done
    ensures key in db.keys
    ensures var db' := Finish(db, id, key, reserved, charge, success).0;
      var k := db.keys[key];
      var paid := Payable(k, reserved, charge);
      && db'.keys == db.keys[key := k.(used := k.used + paid, reserved := k.reserved - reserved)]
      && db'.ledger == db.ledger + Settlement(key, id, reserved, paid)
      && Marked(db.requests, db'.requests, id, if success then Succeeded else Failed)
  {
    OnlyRow(db.requests, id);
    assert Applied(db.keys[key], reserved, charge) == Payable(db.keys[key], reserved, charge);
  }

  /** The rows of one request have the given status, and nothing else in the table differs. */
  ghost predicate Marked(before: seq<Request>, after: seq<Request>, id: RequestId, status: Status) {
    && |after| == |before|
    && (exists i :: 0 <= i < |before| && before[i].id == id)
    && forall i :: 0 <= i < |before| ==>
         after[i] == if before[i].id == id then before[i].(status := status) else before[i]
  }

  /** The rows that settle a request: the reservation is split into what is charged and what is given back, and what is
      charged beyond it is a row of its own; no row has a zero amount. */
  lemma SettlementIs(key: KeyId, id: RequestId, reserved: int, applied: int)
    requires reserved >= 0 && applied >= 0
    ensures var rows := Settlement(key, id, reserved, applied);
      && (forall e :: e in rows ==>
           e == Entry(key, id, Settle, if 0 < reserved < applied then reserved else applied) ||
           e == Entry(key, id, Release, reserved - applied) ||
           e == Entry(key, id, Additional, applied - reserved))
      && (applied > 0 <==> exists e :: e in rows && e.kind == Settle)
      && (reserved > applied <==> exists e :: e in rows && e.kind == Release)
      && (0 < reserved < applied <==> exists e :: e in rows && e.kind == Additional)
  {
    var settled := if 0 < reserved < applied then reserved else applied;
    var rows := Settlement(key, id, reserved, applied);
    if applied > 0 { assert rows[0] == Entry(key, id, Settle, settled); }
    if reserved > applied { assert rows[|rows| - 1] == Entry(key, id, Release, reserved - applied); }
    if 0 < reserved < applied { assert rows[|rows| - 1] == Entry(key, id, Additional, applied - reserved); }
  }

  /** Recovery fails exactly the running requests, zeroes every reservation, and writes a release for each of them. */
  lemma RecoverEffect(w: World)
    requires Inv(w)
    ensures var db' := Recover(w.db).0;
      && |db'.requests| == |w.db.requests|
      && (forall i :: 0 <= i < |w.db.requests| ==>
           db'.requests[i] == if w.db.requests[i].status == Running then w.db.requests[i].(status := Failed)
                              else w.db.requests[i])
      && db'.keys == (map k | k in w.db.keys :: w.db.keys[k].(reserved := 0))
    ensures var db' := Recover(w.db).0;
      && w.db.ledger <= db'.ledger
      && forall e :: e in db'.ledger[|w.db.ledger|..] <==> ReleaseOwed(w, e)
  {
    RecoverClears(w);
    var db' := Recover(w.db).0;
    var releases := Releases(Expected(w.db.requests, w.accounts));
    assert db'.ledger[|w.db.ledger|..] == releases;
    forall e ensures e in releases <==> ReleaseOwed(w, e) { ReleasesOwed(w, |w.db.requests|, e); }
  }

  /** The row gives back what a running request holds. */
  predicate ReleaseOwed(w: World, e: Entry) {
    exists r :: r in w.db.requests && OwedTo(w.accounts, r, e)
  }

  predicate OwedTo(accounts: map<RequestId, Account>, r: Request, e: Entry) {
    && r.status == Running && r.id in accounts && accounts[r.id].reserved > 0
    && e == Entry(accounts[r.id].key, r.id, Release, accounts[r.id].reserved)
  }

  lemma {:induction false} ReleasesOwed(w: World, n: nat, e: Entry)
    requires n <= |w.db.requests|
    ensures e in Releases(Expected(w.db.requests[..n], w.accounts)) <==>
      exists i :: 0 <= i < n && OwedTo(w.accounts, w.db.requests[i], e)
    ensures n == |w.db.requests| ==>
      (e in Releases(Expected(w.db.requests, w.accounts)) <==> ReleaseOwed(w, e))
  {
    var rs := w.db.requests;
    if n > 0 {
      ReleasesOwed(w, n - 1, e);
      assert rs[..n][..n - 1] == rs[..n - 1];
      var rest, all := Expected(rs[..n - 1], w.accounts), Expected(rs[..n], w.accounts);
      if |all| > |rest| {
        assert Releases(all) == Releases(rest) + [Releases(all)[|rest|]];
      }
    }
    if n == |rs| {
      assert rs[..n] == rs;
      if ReleaseOwed(w, e) {
        var r :| r in rs && OwedTo(w.accounts, r, e);
        var i :| 0 <= i < |rs| && rs[i] == r;
      }
    }
  }

  /** A deleted key takes its ledger rows with it, and its requests stay without a key. */
  lemma DeleteEffect(w: World, key: KeyId)
    requires Inv(w)
    ensures var (db', outcome) := DeleteKey(w.db, key);
      && (outcome == Done <==> key in w.db.keys && w.db.keys[key].reserved == 0)
      && (outcome != Done ==> db' == w.db)
      && (outcome == Done ==>
           && db'.keys == w.db.keys - {key}
           && (forall e :: e in db'.ledger <==> e in w.db.ledger && e.key != key)
           && |db'.requests| == |w.db.requests|
           && forall i :: 0 <= i < |w.db.requests| ==>
                db'.requests[i] ==
                  if w.db.requests[i].key == Some(key) then w.db.requests[i].(key := None) else w.db.requests[i])
  {
    if key in w.db.keys { assert KeyOk(w.db.keys[key]); }
    WithoutKeyIs(w.db.ledger, key);
  }

  lemma {:induction false} WithoutKeyIs(l: seq<Entry>, key: KeyId)
    ensures forall e :: e in WithoutKey(l, key) <==> e in l && e.key != key
  {
    if l != [] {
      WithoutKeyIs(l[..|l| - 1], key);
      assert l == l[..|l| - 1] + [l[|l| - 1]];
    }
  }

  /** A reset forgets the usage of a key without reservations and the ledger rows behind it, and nothing else. */
  lemma ResetEffect(db: Db, key: KeyId)
    ensures var (db', outcome) := ResetUsage(db, key);
      && (outcome == Done <==> key in db.keys && db.keys[key].reserved == 0)
      && (outcome != Done ==> db' == db)
      && (outcome == Done ==>
           && db'.keys == db.keys[key := db.keys[key].(used := 0)] && db'.requests == db.requests
           && forall e :: e in db'.ledger <==> e in db.ledger && e.key != key)
  {
    WithoutKeyIs(db.ledger, key);
  }

  /** Pruning keeps exactly the requests that started at the cutoff or later or are still running, and exactly the
      ledger rows of those; keys are not touched. */
  lemma PruneEffect(w: World, cutoff: int)
    requires Inv(w)
    ensures var db' := Prune(w.db, cutoff);
      && db'.keys == w.db.keys
      && (forall r :: r in db'.requests <==> r in w.db.requests && (r.startedAt >= cutoff || r.status == Running))
      && (forall e :: e in db'.ledger <==>
           e in w.db.ledger && exists r :: r in db'.requests && r.id == e.request)
      && forall id :: Of(db'.ledger, id) == [] || Of(db'.ledger, id) == Of(w.db.ledger, id)
  {
    var db' := Prune(w.db, cutoff);
    UnexpiredRows(w.db.requests, cutoff);
    LiveIs(db'.requests);
    SelectIs(w.db.ledger, Ids(db'.requests));
    forall id ensures Of(db'.ledger, id) == [] || Of(db'.ledger, id) == Of(w.db.ledger, id) {
      SelectRows(w.db.ledger, Ids(db'.requests), true, id);
    }
  }

  lemma LiveIs(requests: seq<Request>)
    ensures forall id :: id in Ids(requests) <==> exists r :: r in requests && r.id == id
  {
    forall id | id in Ids(requests) ensures exists r :: r in requests && r.id == id {
      var i :| 0 <= i < |requests| && requests[i].id == id;
      assert requests[i] in requests;
    }
  }

  lemma {:induction false} SelectIs(l: seq<Entry>, live: set<RequestId>)
    ensures forall e :: e in Select(l, live, true) <==> e in l && e.request in live
  {
    if l != [] {
      SelectIs(l[..|l| - 1], live);
      assert l == l[..|l| - 1] + [l[|l| - 1]];
    }
  }
}
