/** Crash recovery: what the recovery query finds, what it releases, and the world it leaves. */
module QuotaRecovery {
  import opened Wrappers
  import opened QuotaLedger
  import opened QuotaRuns
  import opened QuotaProofs

  /** One release per running reservation, in table order. */
  function Expected(requests: seq<Request>, accounts: map<RequestId, Account>): seq<Orphan> {
    if requests == [] then []
    else
      var rest := Expected(requests[..|requests| - 1], accounts);
      var last := requests[|requests| - 1];
      if last.status == Running && last.id in accounts && accounts[last.id].reserved > 0 then
        rest + [Orphan(last.id, accounts[last.id].key, accounts[last.id].reserved)]
      else rest
  }

  function Releases(orphans: seq<Orphan>): seq<Entry> {
    seq(|orphans|, i requires 0 <= i < |orphans| =>
      Entry(orphans[i].key, orphans[i].request, Release, orphans[i].amount))
  }

  /** The grouped sum of a running request is its whole reservation. */
  lemma OrphanRow(id: RequestId, a: Account)
    requires a.reserved >= 0
    ensures OrphansOfKeys(id, Reservation(id, a), KeysOf(Reservation(id, a))) ==
      if a.reserved > 0 then [Orphan(id, a.key, a.reserved)] else []
  {
    var rows := Reservation(id, a);
    if a.reserved > 0 {
      assert rows[..0] == [];
      assert KeysOf(rows) == [a.key];
      assert [a.key][..0] == [];
      assert Outstanding(rows, a.key) == a.reserved;
    }
  }

  lemma {:induction false} OutstandingConcat(l: seq<Entry>, m: seq<Entry>, key: KeyId)
    ensures Outstanding(l + m, key) == Outstanding(l, key) + Outstanding(m, key)
  {
    if m == [] {
      assert l + m == l;
    } else {
      assert (l + m)[..|l + m| - 1] == l + m[..|m| - 1];
      OutstandingConcat(l, m[..|m| - 1], key);
    }
  }

  lemma OutstandingOne(e: Entry)
    ensures Outstanding([e], e.key) ==
      match e.kind case Reserve => e.amount case Additional => 0 case _ => -e.amount
  {
    assert [e][..0] == [];
  }

  /** A settled reservation has nothing outstanding, `reserve` equals `settle` plus `release`, and its rows charge
      exactly the applied amount. */
  lemma ClosedBalances(id: RequestId, a: Account, applied: int)
    requires a.reserved > 0 && applied >= 0
    ensures Outstanding(Closed(id, a, applied), a.key) == 0
    ensures Charged(Closed(id, a, applied), a.key) == applied
  {
    var r := Reservation(id, a);
    var settled := Min(applied, a.reserved);
    var s := Entry(a.key, id, Settle, settled);
    var l := Entry(a.key, id, Release, a.reserved - applied);
    var x := Entry(a.key, id, Additional, applied - a.reserved);
    var ss := if settled > 0 then [s] else [];
    var ls := if applied < a.reserved then [l] else [];
    var xs := if applied > a.reserved then [x] else [];
    OutstandingOne(r[0]);
    OutstandingOne(s);
    OutstandingOne(l);
    OutstandingOne(x);
    OutstandingConcat(ss, ls, a.key);
    OutstandingConcat(ss + ls, xs, a.key);
    OutstandingConcat(r, Settlement(a.key, id, a.reserved, applied), a.key);
    ChargedConcat(r, Settlement(a.key, id, a.reserved, applied), a.key);
    ChargedOne(r[0], a.key);
    SettlementCharges(a.key, id, a.reserved, applied, a.key);
  }

  /** The rows of a closed account charge exactly the applied amount, with or without a reservation. */
  lemma ClosedCharges(id: RequestId, a: Account, applied: int)
    requires a.reserved >= 0 && applied >= 0
    ensures Charged(Closed(id, a, applied), a.key) == applied
  {
    ChargedConcat(Reservation(id, a), Settlement(a.key, id, a.reserved, applied), a.key);
    if a.reserved > 0 { ChargedOne(Reservation(id, a)[0], a.key); }
    SettlementCharges(a.key, id, a.reserved, applied, a.key);
  }

  lemma {:induction false} OrphansExpected(w: World, n: nat)
    requires AccountsOk(w) && RequestsOk(w) && n <= |w.db.requests|
    ensures Orphans(w.db.requests[..n], w.db.ledger) == Expected(w.db.requests[..n], w.accounts)
  {
    if n > 0 {
      var last := w.db.requests[n - 1];
      assert w.db.requests[..n][..n - 1] == w.db.requests[..n - 1];
      OrphansExpected(w, n - 1);
      assert RequestOk(w, last);
      if last.status == Running { OrphanRow(last.id, w.accounts[last.id]); }
    }
  }

  lemma {:induction false} SumPrefix(requests: seq<Request>, n: nat, accounts: map<RequestId, Account>, key: KeyId)
    requires n <= |requests|
    requires forall id :: id in accounts ==> accounts[id].reserved >= 0
    ensures ReservedSum(requests[..n], accounts, key) <= ReservedSum(requests, accounts, key)
  {
    if n < |requests| {
      var m := requests[..|requests| - 1];
      assert m[..n] == requests[..n];
      SumPrefix(m, n, accounts, key);
    } else {
      assert requests[..n] == requests;
    }
  }

  /** What one more request adds to the expected orphans and to their releases. */
  lemma ExpectedNext(requests: seq<Request>, n: nat, accounts: map<RequestId, Account>)
    requires 0 < n <= |requests| && requests[n - 1].id in accounts
    ensures var last := requests[n - 1];
      var orphan := OrphanOf(last, accounts[last.id]);
      && Expected(requests[..n], accounts) == Expected(requests[..n - 1], accounts) + orphan
      && Releases(Expected(requests[..n], accounts)) ==
           Releases(Expected(requests[..n - 1], accounts)) +
           if last.status == Running then ReleaseOf(last.id, accounts[last.id]) else []
  {
    assert requests[..n][..n - 1] == requests[..n - 1];
  }

  function OrphanOf(r: Request, a: Account): seq<Orphan> {
    if r.status == Running && a.reserved > 0 then [Orphan(r.id, a.key, a.reserved)] else []
  }

  lemma ReleaseNext(keys: map<KeyId, Key>, ledger: seq<Entry>, orphans: seq<Orphan>, o: Orphan)
    requires ReleaseAll(keys, ledger, orphans).Some?
    requires var ks := ReleaseAll(keys, ledger, orphans).value.0;
      o.key in ks && ks[o.key].reserved >= o.amount > 0
    ensures var (ks, l) := ReleaseAll(keys, ledger, orphans).value;
      ReleaseAll(keys, ledger, orphans + [o]) ==
        Some((ks[o.key := ks[o.key].(reserved := ks[o.key].reserved - o.amount)],
              l + [Entry(o.key, o.request, Release, o.amount)]))
  {
    var more := orphans + [o];
    assert more[..|more| - 1] == orphans && more[|more| - 1] == o;
  }

  lemma ReservedNext(requests: seq<Request>, n: nat, accounts: map<RequestId, Account>)
    requires 0 < n <= |requests|
    ensures var before, after := requests[..n - 1], requests[..n];
      forall k ::
        ReservedSum(after, accounts, k) - ReservedSum(before, accounts, k) == Share(requests[n - 1], accounts, k)
  {
    assert requests[..n][..n - 1] == requests[..n - 1];
  }

  /** The update loop never misses a row; after the first n requests each key has given back exactly their sum. */
  lemma {:induction false} ReleaseExpected(w: World, n: nat)
    requires AccountsOk(w) && KeysOk(w) && RequestsOk(w) && n <= |w.db.requests|
    ensures var orphans := Expected(w.db.requests[..n], w.accounts);
      var result := ReleaseAll(w.db.keys, w.db.ledger, orphans);
      && result.Some?
      && result.value.1 == w.db.ledger + Releases(orphans)
      && result.value.0.Keys == w.db.keys.Keys
      && (forall k :: k in w.db.keys ==> (result.value.0[k] ==
        w.db.keys[k].(reserved := w.db.keys[k].reserved - ReservedSum(w.db.requests[..n], w.accounts, k))))
  {
    if n > 0 {
      var last := w.db.requests[n - 1];
      ReleaseExpected(w, n - 1);
      assert RequestOk(w, last);
      var a := w.accounts[last.id];
      ExpectedNext(w.db.requests, n, w.accounts);
      ReservedNext(w.db.requests, n, w.accounts);
      var before := Expected(w.db.requests[..n - 1], w.accounts);
      if last.status == Running && a.reserved > 0 {
        SumPrefix(w.db.requests, n, w.accounts, a.key);
        ReleaseNext(w.db.keys, w.db.ledger, before, Orphan(last.id, a.key, a.reserved));
        var l, rows := w.db.ledger, Releases(before);
        assert l + (rows + ReleaseOf(last.id, a)) == (l + rows) + ReleaseOf(last.id, a);
      } else {
        assert before + [] == before && Releases(before) + [] == Releases(before);
      }
    } else {
      assert w.db.ledger + Releases([]) == w.db.ledger;
    }
  }

  ghost predicate RunsBefore(w: World, n: nat, id: RequestId)
    requires n <= |w.db.requests|
  {
    exists i :: 0 <= i < n && w.db.requests[i].id == id && w.db.requests[i].status == Running
  }

  ghost predicate Released(w: World, n: nat, e: Entry)
    requires n <= |w.db.requests|
  {
    && e.kind == Release && e.amount > 0
    && e.request in w.accounts
    && w.accounts[e.request] == Account(e.key, e.amount)
    && RunsBefore(w, n, e.request)
  }

  /** Only running reservations are released, each for its whole amount. */
  lemma {:induction false} ReleasedRows(w: World, n: nat)
    requires AccountsOk(w) && RequestsOk(w) && n <= |w.db.requests|
    ensures forall e :: e in Releases(Expected(w.db.requests[..n], w.accounts)) ==> Released(w, n, e)
  {
    if n > 0 {
      var last := w.db.requests[n - 1];
      ReleasedRows(w, n - 1);
      assert RequestOk(w, last);
      ExpectedNext(w.db.requests, n, w.accounts);
      var before := Releases(Expected(w.db.requests[..n - 1], w.accounts));
      forall e | e in Releases(Expected(w.db.requests[..n], w.accounts)) ensures Released(w, n, e) {
        if e in before { assert Released(w, n - 1, e); }
      }
    }
  }

  function ReleaseOf(id: RequestId, a: Account): seq<Entry> {
    if a.reserved > 0 then [Entry(a.key, id, Release, a.reserved)] else []
  }

  /** A closed account with nothing charged is a reservation and its whole release. */
  lemma ClosedUncharged(id: RequestId, a: Account)
    requires a.reserved >= 0
    ensures Settlement(a.key, id, a.reserved, 0) == ReleaseOf(id, a)
    ensures Closed(id, a, 0) == Reservation(id, a) + ReleaseOf(id, a)
    ensures a.reserved > 0 ==>
      Closed(id, a, 0) == [Entry(a.key, id, Reserve, a.reserved), Entry(a.key, id, Release, a.reserved)]
    ensures a.reserved == 0 ==> Closed(id, a, 0) == []
  {
  }

  /** The rows of the j-th request grow by its own release, if it was running. */
  lemma {:induction false} ReleasesOf(w: World, n: nat, j: nat)
    requires AccountsOk(w) && RequestsOk(w) && n <= |w.db.requests| && j < |w.db.requests|
    requires w.db.requests[j].id in w.accounts
    ensures var r := w.db.requests[j];
      Of(Releases(Expected(w.db.requests[..n], w.accounts)), r.id) ==
        if j < n && r.status == Running then ReleaseOf(r.id, w.accounts[r.id]) else []
  {
    if n > 0 {
      var last := w.db.requests[n - 1];
      ReleasesOf(w, n - 1, j);
      assert RequestOk(w, last);
      ExpectedNext(w.db.requests, n, w.accounts);
      var before := Releases(Expected(w.db.requests[..n - 1], w.accounts));
      if last.status == Running && w.accounts[last.id].reserved > 0 {
        OfSnoc(before, ReleaseOf(last.id, w.accounts[last.id])[0], w.db.requests[j].id);
      } else {
        assert before + [] == before;
      }
      assert j != n - 1 ==> w.db.requests[j].id != last.id;
    }
  }

  lemma {:induction false} ReleaseCharges(l: seq<Entry>, key: KeyId)
    requires forall e :: e in l ==> e.kind == Release
    ensures Charged(l, key) == 0
  {
    if l != [] {
      assert l[|l| - 1] in l;
      ReleaseCharges(l[..|l| - 1], key);
    }
  }

  lemma {:induction false} NoneRunning(requests: seq<Request>, accounts: map<RequestId, Account>, key: KeyId)
    requires forall i :: 0 <= i < |requests| ==> requests[i].status != Running
    ensures ReservedSum(requests, accounts, key) == 0
  {
    if requests != [] {
      NoneRunning(requests[..|requests| - 1], accounts, key);
    }
  }

  /** Recovery always commits. It gives every key its whole reservation back, charges nobody, and leaves no
      request running. */
  lemma RecoverClears(w: World)
    requires Inv(w)
    ensures Recover(w.db).1 == Done
    ensures var db' := Recover(w.db).0;
      && db'.keys == (map k | k in w.db.keys :: w.db.keys[k].(reserved := 0))
      && (forall i :: 0 <= i < |db'.requests| ==> db'.requests[i].status != Running)
      && db'.ledger == w.db.ledger + Releases(Expected(w.db.requests, w.accounts))
  {
    var n := |w.db.requests|;
    assert w.db.requests[..n] == w.db.requests;
    OrphansExpected(w, n);
    ReleaseExpected(w, n);
    var keys := Recover(w.db).0.keys;
    forall k | k in w.db.keys ensures keys[k] == w.db.keys[k].(reserved := 0) {
      assert w.db.keys[k].reserved == ReservedSum(w.db.requests, w.accounts, k);
    }
  }

  lemma RecoverKeeps(w: World)
    requires Inv(w)
    ensures Inv(Next(w, RecoverStep))
  {
    var w' := Next(w, RecoverStep);
    RecoverClears(w);
    RecoverKeys(w);
    RecoverLedger(w);
    RecoverRequests(w);
    forall id | id in w'.accounts && !IsRunning(w', id)
      ensures Of(w'.db.ledger, id) == [] || Of(w'.db.ledger, id) == Closed(id, w'.accounts[id], w'.charged[id])
    {
      RecoverRows(w, Releases(Expected(w.db.requests, w.accounts)), id);
    }
  }

  lemma RecoverRequests(w: World)
    requires Inv(w)
    ensures RequestsOk(Next(w, RecoverStep))
  {
    var w' := Next(w, RecoverStep);
    RecoverClears(w);
    forall i | 0 <= i < |w.db.requests| ensures RequestOk(w', w'.db.requests[i]) {
      assert RequestOk(w, w.db.requests[i]);
    }
  }

  lemma RecoverKeys(w: World)
    requires Inv(w)
    ensures KeysOk(Next(w, RecoverStep))
  {
    var w' := Next(w, RecoverStep);
    var rows := Releases(Expected(w.db.requests, w.accounts));
    RecoverClears(w);
    forall k ensures Charged(w'.db.ledger, k) == Charged(w.db.ledger, k)
             ensures ReservedSum(w'.db.requests, w'.accounts, k) == 0
    {
      ChargedConcat(w.db.ledger, rows, k);
      ReleaseCharges(rows, k);
      NoneRunning(w'.db.requests, w'.accounts, k);
    }
  }

  lemma RecoverLedger(w: World)
    requires Inv(w)
    ensures LedgerOk(Next(w, RecoverStep))
  {
    var n := |w.db.requests|;
    assert w.db.requests[..n] == w.db.requests;
    RecoverClears(w);
    ReleasedRows(w, n);
    forall e | e in Releases(Expected(w.db.requests, w.accounts)) ensures e.key in w.db.keys {
      assert Released(w, n, e);
      var i :| 0 <= i < n && w.db.requests[i].id == e.request && w.db.requests[i].status == Running;
      assert RequestOk(w, w.db.requests[i]);
    }
  }

  /** With its release a request that was running has a closed account with nothing charged. */
  lemma RecoverRows(w: World, rows: seq<Entry>, id: RequestId)
    requires AccountsOk(w) && RequestsOk(w) && HistoryOk(w) && id in w.accounts
    requires rows == Releases(Expected(w.db.requests, w.accounts))
    ensures Of(w.db.ledger + rows, id) == [] || Of(w.db.ledger + rows, id) == Closed(id, w.accounts[id], w.charged[id])
  {
    var n := |w.db.requests|;
    OfConcat(w.db.ledger, rows, id);
    assert w.db.requests[..n] == w.db.requests;
    if IsRunning(w, id) {
      var i :| 0 <= i < n && w.db.requests[i].id == id && w.db.requests[i].status == Running;
      assert RequestOk(w, w.db.requests[i]);
      ReleasesOf(w, n, i);
      ClosedUncharged(id, w.accounts[id]);
    } else {
      ReleasedRows(w, n);
      forall e | e in rows ensures e.request != id { assert Released(w, n, e); }
      OfAbsent(rows, id);
    }
  }
}
