/** Every step keeps the invariant, so every reachable world has it. */
module QuotaProofs {
  import opened Wrappers
  import opened QuotaLedger
  import opened QuotaRuns

  /** The ledger grew by rows of one request only. */
  ghost predicate Appended(w: World, w': World, id: RequestId, rows: seq<Entry>) {
    && (Of(w'.db.ledger, id) == Of(w.db.ledger, id) + rows)
    && (forall other :: other != id ==> Of(w'.db.ledger, other) == Of(w.db.ledger, other))
  }

  lemma Append(w: World, w': World, id: RequestId, rows: seq<Entry>)
    requires w'.db.ledger == w.db.ledger + rows
    requires forall e :: e in rows ==> e.request == id
    ensures Appended(w, w', id, rows)
  {
    forall other ensures Of(w'.db.ledger, other) == Of(w.db.ledger, other) + if other == id then rows else [] {
      OfConcat(w.db.ledger, rows, other);
      OfOwn(rows, id, other);
    }
  }

  lemma OfAbsent(l: seq<Entry>, id: RequestId)
    requires forall e :: e in l ==> e.request != id
    ensures Of(l, id) == []
  {
    OfMembers(l, id);
    if Of(l, id) != [] { assert Of(l, id)[0] in Of(l, id); }
  }

  // ----- start

  lemma StartKeeps(w: World, s: Step)
    requires Inv(w) && Contract(w, s) && s.StartStep?
    ensures Inv(Next(w, s))
  {
    if Outcomes(w, s).1 == Done {
      StartRows(w, s);
      StartRequests(w, s);
      StartHistory(w, s);
      StartKeys(w, s);
    }
  }

  /** In every good world a metered request is admitted exactly when its key is enabled, finite, unexpired and has room
      for the whole amount beside all it has used and reserved; an unmetered one when its key exists. A refusal leaves
      the database as it was. */
  lemma StartOutcome(w: World, id: RequestId, key: KeyId, amount: int, finite: bool, at: int)
    requires Inv(w) && Contract(w, StartStep(id, key, amount, finite, at))
    ensures var (db', outcome) := Start(w.db, id, key, amount, finite, at);
      && (outcome == Done <==> key in w.db.keys && (finite ==> HasRoom(w.db.keys[key], amount, at)))
      && (outcome != Done ==> db' == w.db && outcome == if finite then QuotaExceeded else Conflict)
  {
    NewId(w, id);
    if key in w.db.keys {
      assert KeyOk(w.db.keys[key]);
      if finite { AdmitsIff(w.db.keys[key], amount, at); }
    }
  }

  /** An admitted request runs and holds its amount, and no other key changes. */
  lemma StartEffect(db: Db, id: RequestId, key: KeyId, amount: int, finite: bool, at: int)
    requires Start(db, id, key, amount, finite, at).1 == Done && (!finite ==> amount == 0)
    ensures var db' := Start(db, id, key, amount, finite, at).0;
      && key in db.keys
      && db'.keys == db.keys[key := db.keys[key].(reserved := db.keys[key].reserved + amount)]
      && db'.requests == db.requests + [Request(id, Some(key), Running, at)]
      && db'.ledger == db.ledger + Reservation(id, Account(key, amount))
  {
    assert !finite ==> db.keys[key := db.keys[key]] == db.keys;
  }

  /** On an orderly key the overflow-safe guard is the plain comparison. */
  lemma AdmitsIff(k: Key, amount: int, at: int)
    requires KeyOk(k) && amount > 0
    ensures Admits(k, amount, at) <==> HasRoom(k, amount, at)
  {
  }

  predicate HasRoom(k: Key, amount: int, at: int) {
    && k.enabled && k.quota.Some? && k.used + k.reserved + amount <= k.quota.value
    && (k.expiresAt.None? || k.expiresAt.value > at)
  }

  lemma NewId(w: World, id: RequestId)
    requires RequestsOk(w) && id !in w.accounts
    ensures IndexOf(w.db.requests, id) == |w.db.requests|
  {
    forall i | 0 <= i < |w.db.requests| ensures w.db.requests[i].id != id {
      assert RequestOk(w, w.db.requests[i]);
    }
  }

  lemma StartRows(w: World, s: Step)
    requires LedgerOk(w) && Contract(w, s) && s.StartStep? && Outcomes(w, s).1 == Done
    ensures Appended(w, Next(w, s), s.id, Reservation(s.id, Account(s.key, s.amount)))
    ensures Of(w.db.ledger, s.id) == []
    ensures LedgerOk(Next(w, s))
  {
    var rows := Reservation(s.id, Account(s.key, s.amount));
    assert Next(w, s).db.ledger == w.db.ledger + rows;
    Append(w, Next(w, s), s.id, rows);
    OfAbsent(w.db.ledger, s.id);
  }

  lemma StartKeys(w: World, s: Step)
    requires AccountsOk(w) && KeysOk(w) && Contract(w, s) && s.StartStep? && Outcomes(w, s).1 == Done
    requires forall i :: 0 <= i < |w.db.requests| ==> w.db.requests[i].id in w.accounts
    ensures KeysOk(Next(w, s))
  {
    var w' := Next(w, s);
    var rows := Reservation(s.id, Account(s.key, s.amount));
    assert w'.db.ledger == w.db.ledger + rows;
    forall k ensures Charged(w'.db.ledger, k) == Charged(w.db.ledger, k)
             ensures ReservedSum(w'.db.requests, w'.accounts, k) ==
               ReservedSum(w.db.requests, w.accounts, k) + if k == s.key then s.amount else 0
    {
      ChargedConcat(w.db.ledger, rows, k);
      if s.finite { ChargedOne(rows[0], k); }
      SumWithNew(w.db.requests, Request(s.id, Some(s.key), Running, s.at), w.accounts, Account(s.key, s.amount), k);
    }
    StartKeyRow(w, s);
  }

  /** A new request adds its own reservation to its key's sum. */
  lemma SumWithNew(requests: seq<Request>, r: Request, accounts: map<RequestId, Account>, a: Account, k: KeyId)
    requires r.id !in accounts && r.status == Running
    requires forall i :: 0 <= i < |requests| ==> requests[i].id in accounts
    ensures ReservedSum(requests + [r], accounts[r.id := a], k) ==
      ReservedSum(requests, accounts, k) + if k == a.key then a.reserved else 0
  {
    SumSame(requests, requests, accounts, accounts[r.id := a], k);
    assert (requests + [r])[..|requests|] == requests;
  }

  /** Only the request's own key changes, and stays in order. */
  lemma StartKeyRow(w: World, s: Step)
    requires KeysOk(w) && Contract(w, s) && s.StartStep? && Outcomes(w, s).1 == Done
    ensures var w' := Next(w, s);
      && w'.db.keys.Keys == w.db.keys.Keys && w'.pruned == w.pruned
      && forall k :: k in w.db.keys ==>
           && KeyOk(w'.db.keys[k]) && w'.db.keys[k].used == w.db.keys[k].used
           && w'.db.keys[k].reserved == w.db.keys[k].reserved + if k == s.key then s.amount else 0
  {
    assert KeyOk(w.db.keys[s.key]);
  }

  lemma StartRequests(w: World, s: Step)
    requires AccountsOk(w) && RequestsOk(w) && Contract(w, s) && s.StartStep? && Outcomes(w, s).1 == Done
    requires Appended(w, Next(w, s), s.id, Reservation(s.id, Account(s.key, s.amount)))
    requires Of(w.db.ledger, s.id) == []
    ensures AccountsOk(Next(w, s)) && RequestsOk(Next(w, s))
  {
    StartTables(w, s);
    RequestsGrow(w, Next(w, s), Request(s.id, Some(s.key), Running, s.at), Account(s.key, s.amount));
  }

  lemma StartTables(w: World, s: Step)
    requires AccountsOk(w) && Contract(w, s) && s.StartStep? && Outcomes(w, s).1 == Done
    ensures var w' := Next(w, s);
      && AccountsOk(w')
      && w'.db.requests == w.db.requests + [Request(s.id, Some(s.key), Running, s.at)]
      && w'.db.keys.Keys == w.db.keys.Keys && s.key in w.db.keys
      && w'.accounts == w.accounts[s.id := Account(s.key, s.amount)] && w'.charged == w.charged[s.id := 0]
  {
  }

  /** A new request row beside the old ones. */
  lemma RequestsGrow(w: World, w': World, r: Request, a: Account)
    requires RequestsOk(w) && r.id !in w.accounts && r.status == Running && r.key == Some(a.key) && a.key in w.db.keys
    requires w'.db.requests == w.db.requests + [r] && w'.db.keys.Keys == w.db.keys.Keys
    requires w'.accounts == w.accounts[r.id := a] && w'.charged == w.charged[r.id := 0]
    requires Appended(w, w', r.id, Reservation(r.id, a)) && Of(w.db.ledger, r.id) == []
    ensures RequestsOk(w')
  {
    var n := |w.db.requests|;
    forall i | 0 <= i < n ensures RequestOk(w', w'.db.requests[i]) && w.db.requests[i].id != r.id {
      assert RequestOk(w, w.db.requests[i]);
      RequestStays(w, w', w.db.requests[i]);
    }
    NewRequestOk(w', r, a);
  }

  /** A request row stays in order when its account, its history and the existence of its key do not change. */
  lemma RequestStays(w: World, w': World, r: Request)
    requires RequestOk(w, r) && r.id in w'.accounts && r.id in w'.charged
    requires w'.accounts[r.id] == w.accounts[r.id] && w'.charged[r.id] == w.charged[r.id]
    requires Of(w'.db.ledger, r.id) == Of(w.db.ledger, r.id)
    requires w.accounts[r.id].key in w'.db.keys <==> w.accounts[r.id].key in w.db.keys
    ensures RequestOk(w', r)
  {
  }

  lemma NewRequestOk(w: World, r: Request, a: Account)
    requires r.id in w.accounts && r.id in w.charged && w.accounts[r.id] == a && w.charged[r.id] == 0
    requires Of(w.db.ledger, r.id) == Reservation(r.id, a) && r.key == Some(a.key) && a.key in w.db.keys
    ensures RequestOk(w, r)
  {
  }

  lemma StartHistory(w: World, s: Step)
    requires Inv(w) && Contract(w, s) && s.StartStep? && Outcomes(w, s).1 == Done
    requires Appended(w, Next(w, s), s.id, Reservation(s.id, Account(s.key, s.amount)))
    ensures AccountsOk(Next(w, s)) && HistoryOk(Next(w, s))
  {
    var w' := Next(w, s);
    forall id | id in w'.accounts && !IsRunning(w', id)
      ensures Of(w'.db.ledger, id) == [] || Of(w'.db.ledger, id) == Closed(id, w'.accounts[id], w'.charged[id])
    {
      assert w'.db.requests[|w.db.requests|].status == Running;
      assert id != s.id;
      StillRunning(w, w', id);
    }
  }

  /** A row that ran before and was not touched still runs. */
  lemma StillRunning(w: World, w': World, id: RequestId)
    requires |w.db.requests| <= |w'.db.requests|
    requires forall i :: 0 <= i < |w.db.requests| && w.db.requests[i].id == id ==>
      w'.db.requests[i].id == id && w'.db.requests[i].status == w.db.requests[i].status
    ensures IsRunning(w, id) ==> IsRunning(w', id)
  {
    if IsRunning(w, id) {
      var i :| 0 <= i < |w.db.requests| && w.db.requests[i].id == id && w.db.requests[i].status == Running;
      assert w'.db.requests[i].id == id && w'.db.requests[i].status == Running;
    }
  }

  // ----- finish

  /** The log row a finish looks at is the one running row of its request, and its reservation is covered. */
  lemma RunningRow(w: World, id: RequestId)
    requires AccountsOk(w) && RequestsOk(w) && id in w.accounts
    ensures var i := IndexOf(w.db.requests, id);
      IsRunning(w, id) <==> i < |w.db.requests| && w.db.requests[i].status == Running
    ensures var i := IndexOf(w.db.requests, id);
      IsRunning(w, id) ==>
        && RequestOk(w, w.db.requests[i])
        && w.accounts[id].reserved <= ReservedSum(w.db.requests, w.accounts, w.accounts[id].key)
  {
    var i := IndexOf(w.db.requests, id);
    if IsRunning(w, id) {
      var j :| 0 <= j < |w.db.requests| && w.db.requests[j].id == id && w.db.requests[j].status == Running;
      assert i == j;
      SumAtLeast(w.db.requests, i, w.accounts, w.accounts[id].key);
    }
  }

  /** In every good world a finish of a request commits exactly when the request is still running, its key still
      exists, and (on an unlimited key) the usage counter does not overflow; it then applies at least the smaller
      of the charge and the request's own reservation. */
  lemma FinishOutcome(w: World, id: RequestId, charge: int, success: bool)
    requires Inv(w) && id in w.accounts && 0 <= charge <= MAX_INT64
    ensures var a := w.accounts[id];
      Finish(w.db, id, a.key, a.reserved, charge, success).1 == Done <==>
        && IsRunning(w, id)
        && a.key in w.db.keys
        && (w.db.keys[a.key].quota.None? ==> w.db.keys[a.key].used <= MAX_INT64 - charge)
    ensures var a := w.accounts[id];
      IsRunning(w, id) && a.key in w.db.keys ==>
        && Min(charge, a.reserved) <= AppliedBy(w, id, charge) <= charge
        && (w.db.keys[a.key].quota.None? ==> AppliedBy(w, id, charge) == charge)
  {
    RunningRow(w, id);
    AppliedRange(w, id, charge);
    var a := w.accounts[id];
    if a.key in w.db.keys && IsRunning(w, id) {
      FinishCommits(w.db, id, a, charge, success);
    }
  }

  /** A finish of a running request on an orderly key commits unless its counter overflows. */
  lemma FinishCommits(db: Db, id: RequestId, a: Account, charge: int, success: bool)
    requires a.key in db.keys && a.key > 0 && KeyOk(db.keys[a.key])
    requires 0 <= a.reserved <= db.keys[a.key].reserved && 0 <= charge
    requires var i := IndexOf(db.requests, id);
      i < |db.requests| && db.requests[i].key == Some(a.key) && db.requests[i].status == Running
    ensures Finish(db, id, a.key, a.reserved, charge, success).1 == Done <==>
      (db.keys[a.key].quota.None? ==> db.keys[a.key].used <= MAX_INT64 - charge)
  {
    AppliedBounds(db.keys[a.key], a.reserved, charge);
  }

  lemma AppliedRange(w: World, id: RequestId, charge: int)
    requires Inv(w) && id in w.accounts && 0 <= charge
    requires IsRunning(w, id) ==> w.accounts[id].reserved <= ReservedSum(w.db.requests, w.accounts, w.accounts[id].key)
    ensures var a := w.accounts[id];
      IsRunning(w, id) && a.key in w.db.keys ==>
        && Min(charge, a.reserved) <= AppliedBy(w, id, charge) <= charge
        && (w.db.keys[a.key].quota.None? ==> AppliedBy(w, id, charge) == charge)
  {
    var a := w.accounts[id];
    if IsRunning(w, id) && a.key in w.db.keys { AppliedBounds(w.db.keys[a.key], a.reserved, charge); }
  }

  lemma AppliedBounds(k: Key, reserved: int, charge: int)
    requires KeyOk(k) && 0 <= reserved <= k.reserved && 0 <= charge
    ensures Min(charge, reserved) <= Applied(k, reserved, charge) <= charge
    ensures k.quota.None? ==> Applied(k, reserved, charge) == charge
    ensures k.quota.Some? ==> Available(k, reserved) >= reserved && k.used + Applied(k, reserved, charge) <= MAX_INT64
  {
  }

  lemma FinishKeeps(w: World, s: Step)
    requires Inv(w) && Contract(w, s) && s.FinishStep?
    ensures Inv(Next(w, s))
  {
    if Outcomes(w, s).1 == Done {
      FinishOutcome(w, s.id, s.charge, s.success);
      var applied := AppliedBy(w, s.id, s.charge);
      FinishRows(w, s, applied);
      FinishKeys(w, s, applied);
      FinishRequests(w, s, IndexOf(w.db.requests, s.id), applied);
    }
  }

  lemma FinishRows(w: World, s: Step, applied: int)
    requires AccountsOk(w) && LedgerOk(w) && Contract(w, s) && s.FinishStep? && Outcomes(w, s).1 == Done
    requires applied == AppliedBy(w, s.id, s.charge) >= 0
    ensures Appended(w, Next(w, s), s.id, Settlement(w.accounts[s.id].key, s.id, w.accounts[s.id].reserved, applied))
    ensures AccountsOk(Next(w, s)) && LedgerOk(Next(w, s))
  {
    var a := w.accounts[s.id];
    SettlementRows(a.key, s.id, a.reserved, applied);
    Append(w, Next(w, s), s.id, Settlement(a.key, s.id, a.reserved, applied));
  }

  lemma FinishKeys(w: World, s: Step, applied: int)
    requires AccountsOk(w) && KeysOk(w) && Contract(w, s) && s.FinishStep? && Outcomes(w, s).1 == Done
    requires applied == AppliedBy(w, s.id, s.charge) >= 0
    ensures KeysOk(Next(w, s))
  {
    var w' := Next(w, s);
    var a := w.accounts[s.id];
    var i := IndexOf(w.db.requests, s.id);
    var rows := Settlement(a.key, s.id, a.reserved, applied);
    FinishKeyRow(w, s, applied);
    forall k ensures Charged(w'.db.ledger, k) == Charged(w.db.ledger, k) + if k == a.key then applied else 0
             ensures ReservedSum(w'.db.requests, w'.accounts, k) ==
               ReservedSum(w.db.requests, w.accounts, k) - if k == a.key then a.reserved else 0
    {
      ChargedConcat(w.db.ledger, rows, k);
      SettlementCharges(a.key, s.id, a.reserved, applied, k);
      SumUpdate(w.db.requests, i, w'.db.requests[i], w.accounts, k);
    }
  }

  /** Only the request's own key changes, and stays in order. */
  lemma FinishKeyRow(w: World, s: Step, applied: int)
    requires AccountsOk(w) && KeysOk(w) && Contract(w, s) && s.FinishStep? && Outcomes(w, s).1 == Done
    requires applied == AppliedBy(w, s.id, s.charge) >= 0
    ensures var w', a := Next(w, s), w.accounts[s.id];
      && w'.db.keys.Keys == w.db.keys.Keys && w'.pruned == w.pruned
      && forall k :: k in w.db.keys ==>
           && KeyOk(w'.db.keys[k])
           && w'.db.keys[k].used == w.db.keys[k].used + (if k == a.key then applied else 0)
           && w'.db.keys[k].reserved == w.db.keys[k].reserved - if k == a.key then a.reserved else 0
  {
    assert KeyOk(w.db.keys[w.accounts[s.id].key]);
  }

  lemma FinishRequests(w: World, s: Step, i: nat, applied: int)
    requires Inv(w) && Contract(w, s) && s.FinishStep? && Outcomes(w, s).1 == Done
    requires i == IndexOf(w.db.requests, s.id) && applied == AppliedBy(w, s.id, s.charge)
    requires AccountsOk(Next(w, s))
    requires Appended(w, Next(w, s), s.id, Settlement(w.accounts[s.id].key, s.id, w.accounts[s.id].reserved, applied))
    ensures RequestsOk(Next(w, s)) && HistoryOk(Next(w, s))
  {
    FinishTables(w, s, i, applied);
    assert RequestOk(w, w.db.requests[i]);
    RequestsFinish(w, Next(w, s), i, s.success);
    HistoryFinishes(w, Next(w, s), i, applied);
  }

  lemma FinishTables(w: World, s: Step, i: nat, applied: int)
    requires Contract(w, s) && s.FinishStep? && Outcomes(w, s).1 == Done
    requires i == IndexOf(w.db.requests, s.id) && applied == AppliedBy(w, s.id, s.charge)
    ensures i < |w.db.requests| && w.db.requests[i].id == s.id && w.db.requests[i].status == Running
    ensures var w' := Next(w, s);
      && w'.db.requests == w.db.requests[i := w.db.requests[i].(status := if s.success then Succeeded else Failed)]
      && w'.db.keys.Keys == w.db.keys.Keys && w'.accounts == w.accounts && w'.charged == w.charged[s.id := applied]
  {
  }

  /** One request row leaves `running`; the others stay as they are. */
  lemma RequestsFinish(w: World, w': World, i: nat, success: bool)
    requires RequestsOk(w) && i < |w.db.requests| && w.db.requests[i].id in w.accounts
    requires w'.db.requests == w.db.requests[i := w.db.requests[i].(status := if success then Succeeded else Failed)]
    requires w'.db.keys.Keys == w.db.keys.Keys && w'.accounts == w.accounts
    requires w'.charged.Keys == w.charged.Keys
    requires forall id :: id in w.charged && id != w.db.requests[i].id ==> w'.charged[id] == w.charged[id]
    requires forall other :: other != w.db.requests[i].id ==> Of(w'.db.ledger, other) == Of(w.db.ledger, other)
    ensures RequestsOk(w')
  {
    assert RequestOk(w, w.db.requests[i]);
    forall j | 0 <= j < |w.db.requests| ensures RequestOk(w', w'.db.requests[j]) {
      assert RequestOk(w, w.db.requests[j]);
      if j != i { RequestStays(w, w', w.db.requests[j]); }
    }
  }

  /** A settled request has a closed account. */
  lemma HistoryFinishes(w: World, w': World, i: nat, applied: int)
    requires AccountsOk(w) && HistoryOk(w) && AccountsOk(w') && i < |w.db.requests|
    requires |w'.db.requests| == |w.db.requests| && w'.accounts == w.accounts
    requires forall j :: 0 <= j < |w.db.requests| && j != i ==> w'.db.requests[j] == w.db.requests[j]
    requires RequestOk(w, w.db.requests[i]) && w.db.requests[i].status == Running
    requires var id := w.db.requests[i].id;
      && w'.charged == w.charged[id := applied]
      && Appended(w, w', id, Settlement(w.accounts[id].key, id, w.accounts[id].reserved, applied))
    ensures HistoryOk(w')
  {
    forall id | id in w'.accounts && !IsRunning(w', id)
      ensures Of(w'.db.ledger, id) == [] || Of(w'.db.ledger, id) == Closed(id, w'.accounts[id], w'.charged[id])
    {
      if id != w.db.requests[i].id { StillRunning(w, w', id); }
    }
  }

  // ----- key administration

  /** A step that touches neither requests nor ledger keeps everything about them. */
  lemma AdminKeeps(w: World, w': World)
    requires Inv(w)
    requires w'.db.requests == w.db.requests && w'.db.ledger == w.db.ledger
    requires w'.accounts == w.accounts && w'.charged == w.charged
    requires w.db.keys.Keys <= w'.db.keys.Keys
    requires forall id :: id in w.accounts ==> (w.accounts[id].key in w'.db.keys <==> w.accounts[id].key in w.db.keys)
    ensures AccountsOk(w') && RequestsOk(w') && HistoryOk(w') && LedgerOk(w')
  {
    forall i | 0 <= i < |w'.db.requests| ensures RequestOk(w', w'.db.requests[i]) {
      assert RequestOk(w, w.db.requests[i]);
    }
    forall id | id in w'.accounts && !IsRunning(w', id)
      ensures Of(w'.db.ledger, id) == [] || Of(w'.db.ledger, id) == Closed(id, w'.accounts[id], w'.charged[id])
    {
      StillRunning(w, w', id);
    }
  }

  lemma {:induction false} NoCharge(l: seq<Entry>, key: KeyId)
    requires forall e :: e in l ==> e.key != key
    ensures Charged(l, key) == 0
  {
    if l != [] {
      assert l[|l| - 1] in l;
      NoCharge(l[..|l| - 1], key);
    }
  }

  lemma {:induction false} NoShare(requests: seq<Request>, accounts: map<RequestId, Account>, key: KeyId)
    requires forall id :: id in accounts ==> accounts[id].key != key
    ensures ReservedSum(requests, accounts, key) == 0
  {
    if requests != [] {
      NoShare(requests[..|requests| - 1], accounts, key);
    }
  }

  lemma CreateKeeps(w: World, s: Step)
    requires Inv(w) && Contract(w, s) && s.CreateStep?
    ensures Inv(Next(w, s))
  {
    if Outcomes(w, s).1 == Done {
      NoCharge(w.db.ledger, s.key);
      NoShare(w.db.requests, w.accounts, s.key);
      AdminKeeps(w, Next(w, s));
    }
  }

  lemma UpdateKeeps(w: World, s: Step)
    requires Inv(w) && Contract(w, s) && s.UpdateStep?
    ensures Inv(Next(w, s))
  {
    if Outcomes(w, s).1 == Done {
      AdminKeeps(w, Next(w, s));
    }
  }

  // ----- bulk deletes

  /** Removing a key's rows removes whole requests. */
  lemma {:induction false} DropKeyRows(l: seq<Entry>, key: KeyId, id: RequestId, owner: KeyId)
    requires forall e :: e in l && e.request == id ==> e.key == owner
    ensures Of(WithoutKey(l, key), id) == if owner == key then [] else Of(l, id)
  {
    if l != [] {
      var m := l[..|l| - 1];
      assert l[|l| - 1] in l;
      assert forall e :: e in m ==> e in l;
      DropKeyRows(m, key, id, owner);
      var kept := WithoutKey(l, key);
      if l[|l| - 1].key != key { assert kept[..|kept| - 1] == WithoutKey(m, key); }
    }
  }

  lemma {:induction false} DropKeyCharges(l: seq<Entry>, key: KeyId, other: KeyId)
    ensures Charged(WithoutKey(l, key), other) == if other == key then 0 else Charged(l, other)
    ensures forall e :: e in WithoutKey(l, key) ==> e in l && e.key != key
  {
    if l != [] {
      var m := l[..|l| - 1];
      assert l == m + [l[|l| - 1]];
      DropKeyCharges(m, key, other);
      var kept := WithoutKey(l, key);
      if l[|l| - 1].key != key { assert kept[..|kept| - 1] == WithoutKey(m, key); }
    }
  }

  /** Reset and delete drop the rows of a key that has no reservation left. */
  lemma DropKeeps(w: World, w': World, key: KeyId)
    requires Inv(w) && key in w.db.keys && w.db.keys[key].reserved == 0
    requires w'.db.ledger == WithoutKey(w.db.ledger, key)
    requires w'.accounts == w.accounts && w'.charged == w.charged
    requires |w'.db.requests| == |w.db.requests|
    requires forall i :: 0 <= i < |w.db.requests| ==>
      && w'.db.requests[i].id == w.db.requests[i].id
      && w'.db.requests[i].status == w.db.requests[i].status
      && (key in w'.db.keys || w.db.requests[i].key != Some(key) ==> w'.db.requests[i].key == w.db.requests[i].key)
    requires w.db.keys.Keys - {key} <= w'.db.keys.Keys <= w.db.keys.Keys
    ensures AccountsOk(w') && RequestsOk(w') && HistoryOk(w') && LedgerOk(w')
    ensures forall k :: ReservedSum(w'.db.requests, w'.accounts, k) == ReservedSum(w.db.requests, w.accounts, k)
    ensures forall k :: Charged(w'.db.ledger, k) == if k == key then 0 else Charged(w.db.ledger, k)
  {
    SumZero(w.db.requests, w.accounts, key);
    forall k ensures Charged(w'.db.ledger, k) == if k == key then 0 else Charged(w.db.ledger, k) {
      DropKeyCharges(w.db.ledger, key, k);
    }
    forall k ensures ReservedSum(w'.db.requests, w'.accounts, k) == ReservedSum(w.db.requests, w.accounts, k) {
      SumSame(w'.db.requests, w.db.requests, w.accounts, w.accounts, k);
    }
    DropKeyCharges(w.db.ledger, key, key);
    forall i | 0 <= i < |w'.db.requests| ensures RequestOk(w', w'.db.requests[i]) {
      DropRequest(w, w', key, i);
    }
    forall id | id in w'.accounts && !IsRunning(w', id)
      ensures Of(w'.db.ledger, id) == [] || Of(w'.db.ledger, id) == Closed(id, w'.accounts[id], w'.charged[id])
    {
      StillRunning(w, w', id);
      DropKeyRows(w.db.ledger, key, id, w.accounts[id].key);
    }
  }

  lemma DropRequest(w: World, w': World, key: KeyId, i: nat)
    requires Inv(w) && i < |w.db.requests| == |w'.db.requests|
    requires Share(w.db.requests[i], w.accounts, key) == 0
    requires w'.db.ledger == WithoutKey(w.db.ledger, key) && w'.accounts == w.accounts && w'.charged == w.charged
    requires var r, r' := w.db.requests[i], w'.db.requests[i];
      r'.id == r.id && r'.status == r.status && (key in w'.db.keys || r.key != Some(key) ==> r'.key == r.key)
    requires w.db.keys.Keys - {key} <= w'.db.keys.Keys <= w.db.keys.Keys
    ensures RequestOk(w', w'.db.requests[i])
  {
    var r := w.db.requests[i];
    assert RequestOk(w, r);
    DropKeyRows(w.db.ledger, key, r.id, w.accounts[r.id].key);
  }

  lemma ResetKeeps(w: World, s: Step)
    requires Inv(w) && Contract(w, s) && (s.ResetStep? || s.DeleteStep?)
    ensures Inv(Next(w, s))
  {
    if Outcomes(w, s).1 == Done {
      DropKeeps(w, Next(w, s), s.key);
    }
  }

  // ----- pruning

  lemma {:induction false} UnexpiredRows(requests: seq<Request>, cutoff: int)
    requires forall i, j :: 0 <= i < j < |requests| ==> requests[i].id != requests[j].id
    ensures var kept := Unexpired(requests, cutoff);
      && (forall i, j :: 0 <= i < j < |kept| ==> kept[i].id != kept[j].id)
      && (forall r :: r in kept <==> r in requests && !Expired(r, cutoff))
  {
    if requests != [] {
      var m := requests[..|requests| - 1];
      assert requests == m + [requests[|requests| - 1]];
      UnexpiredRows(m, cutoff);
      var last := requests[|requests| - 1];
      forall r | r in Unexpired(m, cutoff) ensures r.id != last.id {
        var x :| 0 <= x < |m| && m[x] == r;
        assert requests[x] == r;
      }
    }
  }

  lemma {:induction false} UnexpiredSum(requests: seq<Request>, cutoff: int, accounts: map<RequestId, Account>,
      key: KeyId)
    ensures ReservedSum(Unexpired(requests, cutoff), accounts, key) == ReservedSum(requests, accounts, key)
  {
    if requests != [] {
      var m := requests[..|requests| - 1];
      UnexpiredSum(m, cutoff, accounts, key);
      var kept := Unexpired(requests, cutoff);
      if !Expired(requests[|requests| - 1], cutoff) { assert kept[..|kept| - 1] == Unexpired(m, cutoff); }
    }
  }

  /** Splitting the ledger by live requests splits the charges and keeps or drops whole requests. */
  lemma {:induction false} SelectRows(l: seq<Entry>, live: set<RequestId>, keep: bool, id: RequestId)
    ensures Of(Select(l, live, keep), id) == if (id in live) == keep then Of(l, id) else []
    ensures forall e :: e in Select(l, live, keep) ==> e in l
  {
    if l != [] {
      var m, last := l[..|l| - 1], l[|l| - 1];
      assert l == m + [last];
      SelectRows(m, live, keep, id);
      OfSnoc(m, last, id);
      OfSnoc(Select(m, live, keep), last, id);
    }
  }

  lemma {:induction false} SelectCharges(l: seq<Entry>, live: set<RequestId>, key: KeyId)
    ensures Charged(Select(l, live, true), key) + Charged(Select(l, live, false), key) == Charged(l, key)
  {
    if l != [] {
      var m := l[..|l| - 1];
      SelectCharges(m, live, key);
      var keep := l[|l| - 1].request in live;
      var kept := Select(l, live, keep);
      assert kept[..|kept| - 1] == Select(m, live, keep);
      assert Select(l, live, !keep) == Select(m, live, !keep);
    }
  }

  lemma PruneKeeps(w: World, s: Step)
    requires Inv(w) && Contract(w, s) && s.PruneStep?
    ensures Inv(Next(w, s))
  {
    PruneKeys(w, s);
    PruneRequests(w, s);
    PruneHistory(w, s);
  }

  lemma PruneKeys(w: World, s: Step)
    requires AccountsOk(w) && KeysOk(w) && RequestsOk(w) && s.PruneStep?
    ensures KeysOk(Next(w, s))
  {
    var w' := Next(w, s);
    var live := Ids(w'.db.requests);
    forall k ensures Charged(w'.db.ledger, k) + Charged(Select(w.db.ledger, live, false), k) == Charged(w.db.ledger, k)
             ensures ReservedSum(w'.db.requests, w'.accounts, k) == ReservedSum(w.db.requests, w.accounts, k)
    {
      SelectCharges(w.db.ledger, live, k);
      UnexpiredSum(w.db.requests, s.cutoff, w.accounts, k);
    }
  }

  lemma PruneRequests(w: World, s: Step)
    requires AccountsOk(w) && RequestsOk(w) && s.PruneStep?
    ensures AccountsOk(Next(w, s)) && RequestsOk(Next(w, s))
  {
    var w' := Next(w, s);
    var live := Ids(w'.db.requests);
    UnexpiredRows(w.db.requests, s.cutoff);
    forall i | 0 <= i < |w'.db.requests| ensures RequestOk(w', w'.db.requests[i]) {
      var r := w'.db.requests[i];
      assert r in w'.db.requests;
      assert RequestOk(w, r);
      SelectRows(w.db.ledger, live, true, r.id);
      RequestStays(w, w', r);
    }
  }

  lemma PruneHistory(w: World, s: Step)
    requires AccountsOk(w) && RequestsOk(w) && HistoryOk(w) && LedgerOk(w) && s.PruneStep?
    ensures AccountsOk(Next(w, s)) && HistoryOk(Next(w, s)) && LedgerOk(Next(w, s))
  {
    var w' := Next(w, s);
    var live := Ids(w'.db.requests);
    UnexpiredRows(w.db.requests, s.cutoff);
    SelectRows(w.db.ledger, live, true, "");
    forall id | id in w'.accounts && !IsRunning(w', id)
      ensures Of(w'.db.ledger, id) == [] || Of(w'.db.ledger, id) == Closed(id, w'.accounts[id], w'.charged[id])
    {
      SelectRows(w.db.ledger, live, true, id);
      PruneKeepsRunning(w, w', id);
    }
  }

  lemma PruneKeepsRunning(w: World, w': World, id: RequestId)
    requires forall r :: r in w.db.requests && r.status == Running ==> r in w'.db.requests
    ensures IsRunning(w, id) ==> IsRunning(w', id)
  {
    if IsRunning(w, id) {
      var i :| 0 <= i < |w.db.requests| && w.db.requests[i].id == id && w.db.requests[i].status == Running;
      assert w.db.requests[i] in w'.db.requests;
    }
  }
}
