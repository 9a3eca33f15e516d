/**
The quota ledger as a value: the rows of `downstream_keys`, `request_logs` and `quota_ledger`, and one
function per SQL transaction. A transaction either commits a whole new database or returns the old one.
*/
module QuotaLedger {
  import opened Wrappers

  type KeyId = int
  type RequestId = string

  datatype Key = Key(enabled: bool, quota: Option<int>, used: int, reserved: int, expiresAt: Option<int>)

  datatype Status = Running | Succeeded | Failed

  datatype Request = Request(id: RequestId, key: Option<KeyId>, status: Status, startedAt: int)

  datatype Kind = Reserve | Settle | Release | Additional

  datatype Entry = Entry(key: KeyId, request: RequestId, kind: Kind, amount: int)

  datatype Db = Db(keys: map<KeyId, Key>, requests: seq<Request>, ledger: seq<Entry>)

  datatype Outcome =
    | Done | QuotaExceeded | InvalidQuotaState | AlreadyFinished | NotFound | Conflict | HasReservations | BadInput

  // ----- queries

  function IndexOf(requests: seq<Request>, id: RequestId): (i: nat)
    ensures i <= |requests|
    ensures i < |requests| ==> requests[i].id == id
    ensures forall j :: 0 <= j < i ==> requests[j].id != id
  {
    if requests == [] then 0
    else if requests[0].id == id then 0
    else 1 + IndexOf(requests[1..], id)
  }

  /** The ledger rows of one request, in insertion order. */
  function Of(ledger: seq<Entry>, id: RequestId): seq<Entry> {
    if ledger == [] then []
    else
      var rest := Of(ledger[..|ledger| - 1], id);
      var last := ledger[|ledger| - 1];
      if last.request == id then rest + [last] else rest
  }

  /** `reserve` minus `settle` and `release`: what the recovery query sums for one request and key. */
  function Outstanding(entries: seq<Entry>, key: KeyId): int {
    if entries == [] then 0
    else
      var last := entries[|entries| - 1];
      Outstanding(entries[..|entries| - 1], key) +
      if last.key != key then 0
      else match last.kind
        case Reserve => last.amount
        case Settle => -last.amount
        case Release => -last.amount
        case Additional => 0
  }

  /** The keys a request's rows mention: the groups of the recovery query. */
  function KeysOf(entries: seq<Entry>): seq<KeyId> {
    if entries == [] then []
    else
      var rest := KeysOf(entries[..|entries| - 1]);
      var last := entries[|entries| - 1];
      if last.key in rest then rest else rest + [last.key]
  }

  /** What the live ledger says was charged to a key. */
  function Charged(ledger: seq<Entry>, key: KeyId): int {
    if ledger == [] then 0
    else
      var last := ledger[|ledger| - 1];
      Charged(ledger[..|ledger| - 1], key) +
      if last.key == key && (last.kind == Settle || last.kind == Additional) then last.amount else 0
  }

  function Ids(requests: seq<Request>): set<RequestId> {
    set i | 0 <= i < |requests| :: requests[i].id
  }

  // ----- bulk deletes

  function WithoutKey(ledger: seq<Entry>, key: KeyId): seq<Entry> {
    if ledger == [] then []
    else
      var rest := WithoutKey(ledger[..|ledger| - 1], key);
      var last := ledger[|ledger| - 1];
      if last.key == key then rest else rest + [last]
  }

  /** The rows whose request is (`keep`) or is not (`!keep`) among the live ones. */
  function Select(ledger: seq<Entry>, live: set<RequestId>, keep: bool): seq<Entry> {
    if ledger == [] then []
    else
      var rest := Select(ledger[..|ledger| - 1], live, keep);
      var last := ledger[|ledger| - 1];
      if (last.request in live) == keep then rest + [last] else rest
  }

  predicate Expired(r: Request, cutoff: int) {
    r.startedAt < cutoff && r.status != Running
  }

  function Unexpired(requests: seq<Request>, cutoff: int): seq<Request> {
    if requests == [] then []
    else
      var rest := Unexpired(requests[..|requests| - 1], cutoff);
      var last := requests[|requests| - 1];
      if Expired(last, cutoff) then rest else rest + [last]
  }

  function Orphaned(requests: seq<Request>, key: KeyId): (r: seq<Request>)
    ensures |r| == |requests|
  {
    seq(|requests|, i requires 0 <= i < |requests| =>
      if requests[i].key == Some(key) then requests[i].(key := None) else requests[i])
  }

  function AllFailed(requests: seq<Request>): (r: seq<Request>)
    ensures |r| == |requests|
  {
    seq(|requests|, i requires 0 <= i < |requests| =>
      if requests[i].status == Running then requests[i].(status := Failed) else requests[i])
  }

  // ----- transactions

  /** The WHERE clause of the reservation update. */
  predicate Admits(k: Key, amount: int, at: int) {
    && k.enabled
    && k.quota.Some?
    && 0 <= k.quota.value && 0 <= k.used && 0 <= k.reserved
    && k.used <= k.quota.value
    && k.reserved <= k.quota.value - k.used
    && amount <= k.quota.value - k.used - k.reserved
    && (k.expiresAt.None? || k.expiresAt.value > at)
  }

  function Start(db: Db, id: RequestId, key: KeyId, amount: int, finite: bool, at: int): (Db, Outcome) {
    if amount < 0 || (finite && amount == 0) then (db, InvalidQuotaState)
    else if finite && (key !in db.keys || !Admits(db.keys[key], amount, at)) then (db, QuotaExceeded)
    else if key !in db.keys || IndexOf(db.requests, id) < |db.requests| then (db, Conflict)
    else
      var k := db.keys[key];
      var requests := db.requests + [Request(id, Some(key), Running, at)];
      if finite then
        (Db(db.keys[key := k.(reserved := k.reserved + amount)], requests,
            db.ledger + [Entry(key, id, Reserve, amount)]), Done)
      else
        (Db(db.keys, requests, db.ledger), Done)
  }

  function Min(a: int, b: int): int { if a <= b then a else b }

  /** What is left for a request on a finite key once the other reservations are honoured. */
  function Available(k: Key, reserved: int): int
    requires k.quota.Some?
  {
    k.quota.value - k.used - (k.reserved - reserved)
  }

  /** The charge that is really applied: a finite key is never charged beyond what is available. */
  function Applied(k: Key, reserved: int, charged: int): int {
    if k.quota.Some? then Min(charged, Available(k, reserved)) else charged
  }

  /** The rows that settle a reservation: a zero amount never makes a row. */
  function Settlement(key: KeyId, id: RequestId, reserved: int, applied: int): seq<Entry> {
    if reserved == 0 then
      if applied > 0 then [Entry(key, id, Settle, applied)] else []
    else
      var settled := Min(applied, reserved);
      (if settled > 0 then [Entry(key, id, Settle, settled)] else []) +
      (if applied < reserved then [Entry(key, id, Release, reserved - applied)] else []) +
      (if applied > reserved then [Entry(key, id, Additional, applied - reserved)] else [])
  }

  function Finish(db: Db, id: RequestId, key: KeyId, reserved: int, charged: int, success: bool): (Db, Outcome) {
    if key <= 0 || reserved < 0 || charged < 0 then (db, InvalidQuotaState)
    else if key !in db.keys then (db, NotFound)
    else
      var k := db.keys[key];
      var i := IndexOf(db.requests, id);
      if k.used < 0 || k.reserved < reserved then (db, InvalidQuotaState)
      else if k.quota.Some? && (k.quota.value < 0 || Available(k, reserved) < 0) then (db, InvalidQuotaState)
      else if i == |db.requests| || db.requests[i].key != Some(key) || db.requests[i].status != Running then
        (db, AlreadyFinished)
      else
        var applied := Applied(k, reserved, charged);
        if k.used > MAX_INT64 - applied then (db, InvalidQuotaState)
        else
          (Db(db.keys[key := k.(used := k.used + applied, reserved := k.reserved - reserved)],
              db.requests[i := db.requests[i].(status := if success then Succeeded else Failed)],
              db.ledger + Settlement(key, id, reserved, applied)), Done)
  }

  /** One row of the recovery query. */
  datatype Orphan = Orphan(request: RequestId, key: KeyId, amount: int)

  function OrphansOfKeys(id: RequestId, entries: seq<Entry>, keys: seq<KeyId>): seq<Orphan> {
    if keys == [] then []
    else
      var rest := OrphansOfKeys(id, entries, keys[..|keys| - 1]);
      var key := keys[|keys| - 1];
      var amount := Outstanding(entries, key);
      if amount == 0 then rest else rest + [Orphan(id, key, amount)]
  }

  function Orphans(requests: seq<Request>, ledger: seq<Entry>): seq<Orphan> {
    if requests == [] then []
    else
      var rest := Orphans(requests[..|requests| - 1], ledger);
      var last := requests[|requests| - 1];
      if last.status != Running then rest
      else rest + OrphansOfKeys(last.id, Of(ledger, last.id), KeysOf(Of(ledger, last.id)))
  }

  /** Releases the orphans in order; None is the guarded update that matches no row. */
  function ReleaseAll(keys: map<KeyId, Key>, ledger: seq<Entry>,
      orphans: seq<Orphan>): Option<(map<KeyId, Key>, seq<Entry>)> {
    if orphans == [] then Some((keys, ledger))
    else
      var o := orphans[|orphans| - 1];
      match ReleaseAll(keys, ledger, orphans[..|orphans| - 1])
      case None => None
      case Some((ks, l)) =>
        if o.key !in ks || ks[o.key].reserved < o.amount || o.amount <= 0 then None
        else
          Some((ks[o.key := ks[o.key].(reserved := ks[o.key].reserved - o.amount)],
                l + [Entry(o.key, o.request, Release, o.amount)]))
  }

  function Recover(db: Db): (Db, Outcome) {
    match ReleaseAll(db.keys, db.ledger, Orphans(db.requests, db.ledger))
    case None => (db, InvalidQuotaState)
    case Some((keys, ledger)) => (Db(keys, AllFailed(db.requests), ledger), Done)
  }

  function CreateKey(db: Db, key: KeyId, enabled: bool, quota: Option<int>, expiresAt: Option<int>): (Db, Outcome) {
    if quota.Some? && quota.value < 0 then (db, BadInput)
    else if key in db.keys then (db, Conflict)
    else (db.(keys := db.keys[key := Key(enabled, quota, 0, 0, expiresAt)]), Done)
  }

  function UpdateKey(db: Db, key: KeyId, enabled: bool, quota: Option<int>, expiresAt: Option<int>): (Db, Outcome) {
    if quota.Some? && quota.value < 0 then (db, BadInput)
    else if key !in db.keys then (db, NotFound)
    else
      var k := db.keys[key];
      if quota.Some? && !(quota.value >= k.used && quota.value - k.used >= k.reserved) then (db, NotFound)
      else (db.(keys := db.keys[key := k.(enabled := enabled, quota := quota, expiresAt := expiresAt)]), Done)
  }

  function DeleteKey(db: Db, key: KeyId): (Db, Outcome) {
    if key !in db.keys then (db, NotFound)
    else if db.keys[key].reserved > 0 then (db, HasReservations)
    else if db.keys[key].reserved < 0 then (db, InvalidQuotaState)
    else (Db(db.keys - {key}, Orphaned(db.requests, key), WithoutKey(db.ledger, key)), Done)
  }

  function ResetUsage(db: Db, key: KeyId): (Db, Outcome) {
    if key !in db.keys || db.keys[key].reserved != 0 then (db, NotFound)
    else
      (Db(db.keys[key := db.keys[key].(used := 0)], db.requests, WithoutKey(db.ledger, key)), Done)
  }

  function Prune(db: Db, cutoff: int): Db {
    var requests := Unexpired(db.requests, cutoff);
    Db(db.keys, requests, Select(db.ledger, Ids(requests), true))
  }
}
