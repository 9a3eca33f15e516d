/**
Whole runs of the quota ledger. A world is the database, what the gateway remembers about each request it
started (the key and the amount it reserved, which it hands back to every finish of that request), and two
history variables: the amount each request was charged, and the charges pruned from a key since its last reset.
*/
module QuotaRuns {
  import opened Wrappers
  import opened QuotaLedger

  datatype Account = Account(key: KeyId, reserved: int)

  datatype World = World(db: Db, accounts: map<RequestId, Account>,
                         charged: map<RequestId, int>, pruned: map<KeyId, int>)

  datatype Step =
    | StartStep(id: RequestId, key: KeyId, amount: int, finite: bool, at: int)
    | FinishStep(id: RequestId, charge: int, success: bool)
    | RecoverStep
    | CreateStep(key: KeyId, enabled: bool, quota: Option<int>, expiresAt: Option<int>)
    | UpdateStep(key: KeyId, enabled: bool, quota: Option<int>, expiresAt: Option<int>)
    | DeleteStep(key: KeyId)
    | ResetStep(key: KeyId)
    | PruneStep(cutoff: int)

  predicate Int64(quota: Option<int>) { quota.Some? ==> quota.value <= MAX_INT64 }

  /** What the callers of the store and SQLite guarantee: fresh request ids and key ids (AUTOINCREMENT never
      reuses one), an amount that is positive exactly when the quota is finite, finishes of requests they
      started, and 64-bit amounts. */
  predicate Contract(w: World, s: Step) {
    match s
    case StartStep(id, key, amount, finite, _) => id !in w.accounts && 0 <= amount && (finite <==> amount > 0)
    case FinishStep(id, charge, _) => id in w.accounts && 0 <= charge <= MAX_INT64
    case CreateStep(key, _, quota, _) =>
      key > 0 && Int64(quota) && forall id :: id in w.accounts ==> w.accounts[id].key != key
    case UpdateStep(_, _, quota, _) => Int64(quota)
    case _ => true
  }

  /** The amount a committed finish applies to its key. */
  function AppliedBy(w: World, id: RequestId, charge: int): int
    requires id in w.accounts
  {
    var a := w.accounts[id];
    if a.key in w.db.keys then Applied(w.db.keys[a.key], a.reserved, charge) else 0
  }

  function Outcomes(w: World, s: Step): (Db, Outcome)
    requires Contract(w, s)
  {
    match s
    case StartStep(id, key, amount, finite, at) => Start(w.db, id, key, amount, finite, at)
    case FinishStep(id, charge, success) =>
      Finish(w.db, id, w.accounts[id].key, w.accounts[id].reserved, charge, success)
    case RecoverStep => Recover(w.db)
    case CreateStep(key, enabled, quota, expiresAt) => CreateKey(w.db, key, enabled, quota, expiresAt)
    case UpdateStep(key, enabled, quota, expiresAt) => UpdateKey(w.db, key, enabled, quota, expiresAt)
    case DeleteStep(key) => DeleteKey(w.db, key)
    case ResetStep(key) => ResetUsage(w.db, key)
    case PruneStep(cutoff) => (Prune(w.db, cutoff), Done)
  }

  function Next(w: World, s: Step): World
    requires Contract(w, s)
  {
    var (db, outcome) := Outcomes(w, s);
    if outcome != Done then w
    else match s
      case StartStep(id, key, amount, _, _) =>
        w.(db := db, accounts := w.accounts[id := Account(key, amount)], charged := w.charged[id := 0])
      case FinishStep(id, charge, _) => w.(db := db, charged := w.charged[id := AppliedBy(w, id, charge)])
      case CreateStep(key, _, _, _) => w.(db := db, pruned := w.pruned[key := 0])
      case DeleteStep(key) => w.(db := db, pruned := w.pruned - {key})
      case ResetStep(key) => w.(db := db, pruned := w.pruned[key := 0])
      case PruneStep(cutoff) =>
        var dropped := Select(w.db.ledger, Ids(Unexpired(w.db.requests, cutoff)), false);
        w.(db := db, pruned := map k | k in w.pruned :: w.pruned[k] + Charged(dropped, k))
      case _ => w.(db := db)
  }

  const EMPTY: World := World(Db(map[], [], []), map[], map[], map[])

  /** Every step of the run meets its caller contract in the world it is taken in. */
  predicate Legal(steps: seq<Step>)
    decreases |steps|, 0
  {
    steps == [] ||
    (Legal(steps[..|steps| - 1]) && Contract(After(steps[..|steps| - 1]), steps[|steps| - 1]))
  }

  function After(steps: seq<Step>): World
    requires Legal(steps)
    decreases |steps|, 1
  {
    if steps == [] then EMPTY else Next(After(steps[..|steps| - 1]), steps[|steps| - 1])
  }

  // ----- the invariant

  function Share(r: Request, accounts: map<RequestId, Account>, key: KeyId): int {
    if r.status == Running && r.id in accounts && accounts[r.id].key == key then accounts[r.id].reserved else 0
  }

  /** The sum of the reservations of the running requests of a key. */
  function ReservedSum(requests: seq<Request>, accounts: map<RequestId, Account>, key: KeyId): int {
    if requests == [] then 0
    else
      ReservedSum(requests[..|requests| - 1], accounts, key) + Share(requests[|requests| - 1], accounts, key)
  }

  function Reservation(id: RequestId, a: Account): seq<Entry> {
    if a.reserved > 0 then [Entry(a.key, id, Reserve, a.reserved)] else []
  }

  /** The rows of a request that was finished and charged `applied`, or recovered (`applied == 0`). */
  function Closed(id: RequestId, a: Account, applied: int): seq<Entry> {
    Reservation(id, a) + Settlement(a.key, id, a.reserved, applied)
  }

  predicate KeyOk(k: Key) {
    && 0 <= k.used <= MAX_INT64
    && 0 <= k.reserved
    && (k.quota.Some? ==> 0 <= k.quota.value <= MAX_INT64 && k.used + k.reserved <= k.quota.value)
  }

  ghost predicate KeysOk(w: World) {
    && w.pruned.Keys == w.db.keys.Keys
    && forall k :: k in w.db.keys ==>
      && k > 0
      && KeyOk(w.db.keys[k])
      && w.db.keys[k].reserved == ReservedSum(w.db.requests, w.accounts, k)
      && w.db.keys[k].used == Charged(w.db.ledger, k) + w.pruned[k]
  }

  ghost predicate AccountsOk(w: World) {
    && w.charged.Keys == w.accounts.Keys
    && forall id :: id in w.accounts ==> w.accounts[id].reserved >= 0 && w.charged[id] >= 0
  }

  ghost predicate RequestOk(w: World, r: Request) {
    && r.id in w.accounts && r.id in w.charged
    && (r.status == Running ==> w.charged[r.id] == 0)
    && var a := w.accounts[r.id];
    && (r.status == Running ==> Of(w.db.ledger, r.id) == Reservation(r.id, a))
    && (r.status == Running && a.key in w.db.keys ==> r.key == Some(a.key))
    && (r.status == Running && a.reserved > 0 ==> a.key in w.db.keys)
  }

  ghost predicate RequestsOk(w: World) {
    && (forall i, j :: 0 <= i < j < |w.db.requests| ==> w.db.requests[i].id != w.db.requests[j].id)
    && forall i :: 0 <= i < |w.db.requests| ==> RequestOk(w, w.db.requests[i])
  }

  ghost predicate IsRunning(w: World, id: RequestId) {
    exists i :: 0 <= i < |w.db.requests| && w.db.requests[i].id == id && w.db.requests[i].status == Running
  }

  /** A request that is no longer running has either no live rows (reset, deleted or pruned) or a closed account. */
  ghost predicate HistoryOk(w: World)
    requires AccountsOk(w)
  {
    forall id :: id in w.accounts && !IsRunning(w, id) ==>
      Of(w.db.ledger, id) == [] || Of(w.db.ledger, id) == Closed(id, w.accounts[id], w.charged[id])
  }

  ghost predicate LedgerOk(w: World) {
    forall e :: e in w.db.ledger ==>
      e.key in w.db.keys && e.request in w.accounts && w.accounts[e.request].key == e.key && e.amount > 0
  }

  ghost predicate Inv(w: World) {
    AccountsOk(w) && KeysOk(w) && RequestsOk(w) && HistoryOk(w) && LedgerOk(w)
  }

  // ----- sums over the tables

  lemma {:induction false} OfConcat(l: seq<Entry>, m: seq<Entry>, id: RequestId)
    ensures Of(l + m, id) == Of(l, id) + Of(m, id)
  {
    if m == [] {
      assert l + m == l;
    } else {
      var n := m[..|m| - 1];
      assert (l + m)[..|l + m| - 1] == l + n;
      OfConcat(l, n, id);
    }
  }

  lemma {:induction false} ChargedConcat(l: seq<Entry>, m: seq<Entry>, key: KeyId)
    ensures Charged(l + m, key) == Charged(l, key) + Charged(m, key)
  {
    if m == [] {
      assert l + m == l;
    } else {
      var n := m[..|m| - 1];
      assert (l + m)[..|l + m| - 1] == l + n;
      ChargedConcat(l, n, key);
    }
  }

  /** One more row at the end of the ledger. */
  lemma OfSnoc(l: seq<Entry>, e: Entry, id: RequestId)
    ensures Of(l + [e], id) == if e.request == id then Of(l, id) + [e] else Of(l, id)
  {
    assert (l + [e])[..|l + [e]| - 1] == l;
  }

  /** Rows that all belong to one request are that request's rows and nobody else's. */
  lemma {:induction false} OfOwn(m: seq<Entry>, id: RequestId, other: RequestId)
    requires forall e :: e in m ==> e.request == id
    ensures Of(m, other) == if other == id then m else []
  {
    if m != [] {
      var n := m[..|m| - 1];
      assert m == n + [m[|m| - 1]];
      assert m[|m| - 1] in m;
      assert forall e :: e in n ==> e in m;
      OfOwn(n, id, other);
    }
  }

  lemma SettlementRows(key: KeyId, id: RequestId, reserved: int, applied: int)
    requires reserved >= 0 && applied >= 0
    ensures forall e :: e in Settlement(key, id, reserved, applied) ==>
      e.key == key && e.request == id && e.amount > 0 && e.kind != Reserve
  {
  }

  lemma {:induction false} ChargedOne(e: Entry, key: KeyId)
    ensures Charged([e], key) == if e.key == key && (e.kind == Settle || e.kind == Additional) then e.amount else 0
  {
    assert [e][..0] == [];
  }

  /** A settlement charges its own key exactly the applied amount. */
  lemma SettlementCharges(key: KeyId, id: RequestId, reserved: int, applied: int, other: KeyId)
    requires reserved >= 0 && applied >= 0
    ensures Charged(Settlement(key, id, reserved, applied), other) == if other == key then applied else 0
  {
    var settled := Min(applied, reserved);
    var s, r, a := Entry(key, id, Settle, settled), Entry(key, id, Release, reserved - applied),
      Entry(key, id, Additional, applied - reserved);
    ChargedOne(Entry(key, id, Settle, applied), other);
    ChargedOne(s, other);
    ChargedOne(r, other);
    ChargedOne(a, other);
    if reserved > 0 {
      var ss := if settled > 0 then [s] else [];
      var rs := if applied < reserved then [r] else [];
      var xs := if applied > reserved then [a] else [];
      ChargedConcat(ss, rs, other);
      ChargedConcat(ss + rs, xs, other);
    }
  }

  lemma {:induction false} SumUpdate(requests: seq<Request>, i: nat, r: Request, accounts: map<RequestId, Account>,
      key: KeyId)
    requires i < |requests|
    ensures ReservedSum(requests[i := r], accounts, key) ==
      ReservedSum(requests, accounts, key) - Share(requests[i], accounts, key) + Share(r, accounts, key)
  {
    var n := |requests| - 1;
    if i == n {
      assert requests[i := r][..n] == requests[..n];
    } else {
      assert requests[i := r][..n] == requests[..n][i := r];
      SumUpdate(requests[..n], i, r, accounts, key);
    }
  }

  /** Two tables with the same shares row by row have the same sum. */
  lemma {:induction false} SumSame(a: seq<Request>, b: seq<Request>, accounts: map<RequestId, Account>,
                                   accounts': map<RequestId, Account>, key: KeyId)
    requires |a| == |b|
    requires forall i :: 0 <= i < |a| ==> Share(a[i], accounts, key) == Share(b[i], accounts', key)
    ensures ReservedSum(a, accounts, key) == ReservedSum(b, accounts', key)
  {
    if a != [] {
      SumSame(a[..|a| - 1], b[..|b| - 1], accounts, accounts', key);
    }
  }

  lemma {:induction false} SumZero(requests: seq<Request>, accounts: map<RequestId, Account>, key: KeyId)
    requires forall id :: id in accounts ==> accounts[id].reserved >= 0
    ensures ReservedSum(requests, accounts, key) >= 0
    ensures ReservedSum(requests, accounts, key) == 0 ==>
      forall i :: 0 <= i < |requests| ==> Share(requests[i], accounts, key) == 0
  {
    if requests != [] {
      SumZero(requests[..|requests| - 1], accounts, key);
    }
  }

  /** The reservation of one running request is part of its key's sum. */
  lemma {:induction false} SumAtLeast(requests: seq<Request>, i: nat, accounts: map<RequestId, Account>, key: KeyId)
    requires i < |requests|
    requires forall id :: id in accounts ==> accounts[id].reserved >= 0
    ensures ReservedSum(requests, accounts, key) >= Share(requests[i], accounts, key)
  {
    var n := |requests| - 1;
    SumZero(requests[..n], accounts, key);
    if i < n { SumAtLeast(requests[..n], i, accounts, key); }
  }

  lemma {:induction false} OfMembers(l: seq<Entry>, id: RequestId)
    ensures forall e :: e in Of(l, id) <==> e in l && e.request == id
  {
    if l != [] {
      OfMembers(l[..|l| - 1], id);
      assert l == l[..|l| - 1] + [l[|l| - 1]];
    }
  }
}
