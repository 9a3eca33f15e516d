/**
The store: the three tables as fields that transactions rewrite. Each method runs one transaction statement by
statement, rolls the tables back on an error, and is proved against the value-level transaction of QuotaLedger.
*/
module QuotaStore {
  import opened Wrappers
  import opened QuotaLedger

  class Store {
    var keys: map<KeyId, Key>
    var requests: seq<Request>
    var ledger: seq<Entry>

    ghost function Tables(): Db
      reads this
    {
      Db(keys, requests, ledger)
    }

    constructor ()
      ensures Tables() == Db(map[], [], [])
    {
      keys, requests, ledger := map[], [], [];
    }

    /** Reserves quota, logs the request and writes the ledger row, or changes nothing. */
    method StartRequestWithReservation(id: RequestId, key: KeyId, amount: int, finite: bool, at: int)
      returns (outcome: Outcome)
      modifies this
      ensures (Tables(), outcome) == Start(old(Tables()), id, key, amount, finite, at)
    {
      if amount < 0 || (finite && amount == 0) {
        return InvalidQuotaState;
      }
      var savedKeys := keys;
      if finite {
        if key !in keys || !Admits(keys[key], amount, at) {
          return QuotaExceeded;
        }
        keys := keys[key := keys[key].(reserved := keys[key].reserved + amount)];
      }
      if key !in keys || IndexOf(requests, id) < |requests| {
        keys := savedKeys;
        return Conflict;
      }
      requests := requests + [Request(id, Some(key), Running, at)];
      if finite {
        ledger := ledger + [Entry(key, id, Reserve, amount)];
      }
      return Done;
    }

    /** Finalizes the request, removes its whole reservation, charges what the quota allows and writes the ledger. */
    method FinishRequestAndSettle(id: RequestId, key: KeyId, reserved: int, charged: int, success: bool)
      returns (outcome: Outcome)
      modifies this
      ensures (Tables(), outcome) == Finish(old(Tables()), id, key, reserved, charged, success)
    {
      if key <= 0 || reserved < 0 || charged < 0 {
        return InvalidQuotaState;
      }
      if key !in keys {
        return NotFound;
      }
      var k := keys[key];
      if k.used < 0 || k.reserved < reserved {
        return InvalidQuotaState;
      }
      var applied := charged;
      if k.quota.Some? {
        var otherReservations := k.reserved - reserved;
        var available := k.quota.value - k.used - otherReservations;
        if k.quota.value < 0 || available < 0 {
          return InvalidQuotaState;
        }
        if applied > available {
          applied := available;
        }
      }
      var i := IndexOf(requests, id);
      if i == |requests| || requests[i].key != Some(key) || requests[i].status != Running {
        return AlreadyFinished;
      }
      var savedRequests := requests;
      requests := requests[i := requests[i].(status := if success then Succeeded else Failed)];
      if k.used > MAX_INT64 - applied {
        requests := savedRequests;
        return InvalidQuotaState;
      }
      keys := keys[key := k.(used := k.used + applied, reserved := k.reserved - reserved)];
      WriteSettlement(key, id, reserved, applied);
      return Done;
    }

    /** The ledger rows of a settlement; a zero amount never makes a row. */
    method WriteSettlement(key: KeyId, id: RequestId, reserved: int, applied: int)
      modifies this`ledger
      ensures ledger == old(ledger) + Settlement(key, id, reserved, applied)
    {
      if reserved == 0 {
        if applied > 0 {
          ledger := ledger + [Entry(key, id, Settle, applied)];
        }
        return;
      }
      var settled := applied;
      if settled > reserved {
        settled := reserved;
      }
      if settled > 0 {
        ledger := ledger + [Entry(key, id, Settle, settled)];
      }
      if applied < reserved {
        ledger := ledger + [Entry(key, id, Release, reserved - applied)];
      }
      if applied > reserved {
        ledger := ledger + [Entry(key, id, Additional, applied - reserved)];
      }
    }

    /** Releases every outstanding reservation of an interrupted request and fails those requests. */
    method RecoverRunningRequests() returns (outcome: Outcome)
      modifies this
      ensures (Tables(), outcome) == Recover(old(Tables()))
    {
      var savedKeys, savedLedger := keys, ledger;
      var orphans := Orphans(requests, ledger);
      var i := 0;
      while i < |orphans|
        invariant 0 <= i <= |orphans|
        invariant ReleaseAll(old(keys), old(ledger), orphans[..i]) == Some((keys, ledger))
        invariant requests == old(requests)
      {
        var o := orphans[i];
        assert orphans[..i + 1][..i] == orphans[..i];
        if o.key !in keys || keys[o.key].reserved < o.amount || o.amount <= 0 {
          ReleaseFails(old(keys), old(ledger), orphans, i + 1);
          keys, ledger := savedKeys, savedLedger;
          return InvalidQuotaState;
        }
        keys := keys[o.key := keys[o.key].(reserved := keys[o.key].reserved - o.amount)];
        ledger := ledger + [Entry(o.key, o.request, Release, o.amount)];
        i := i + 1;
      }
      assert orphans[..i] == orphans;
      requests := AllFailed(requests);
      return Done;
    }

    method CreateDownstreamKey(key: KeyId, enabled: bool, quota: Option<int>, expiresAt: Option<int>)
      returns (outcome: Outcome)
      modifies this`keys
      ensures (Tables(), outcome) == CreateKey(old(Tables()), key, enabled, quota, expiresAt)
    {
      if quota.Some? && quota.value < 0 {
        return BadInput;
      }
      if key in keys {
        return Conflict;
      }
      keys := keys[key := Key(enabled, quota, 0, 0, expiresAt)];
      return Done;
    }

    /** Edits a key; a quota below what is used and reserved is refused. */
    method UpdateDownstreamKey(key: KeyId, enabled: bool, quota: Option<int>, expiresAt: Option<int>)
      returns (outcome: Outcome)
      modifies this`keys
      ensures (Tables(), outcome) == UpdateKey(old(Tables()), key, enabled, quota, expiresAt)
    {
      if quota.Some? && quota.value < 0 {
        return BadInput;
      }
      if key !in keys ||
         (quota.Some? && !(quota.value >= keys[key].used && quota.value - keys[key].used >= keys[key].reserved)) {
        return NotFound;
      }
      keys := keys[key := keys[key].(enabled := enabled, quota := quota, expiresAt := expiresAt)];
      return Done;
    }

    method DeleteDownstreamKey(key: KeyId) returns (outcome: Outcome)
      modifies this
      ensures (Tables(), outcome) == DeleteKey(old(Tables()), key)
    {
      if key in keys && keys[key].reserved == 0 {
        keys := keys - {key};
        requests := Orphaned(requests, key);
        ledger := WithoutKey(ledger, key);
        return Done;
      }
      if key !in keys {
        return NotFound;
      }
      return if keys[key].reserved > 0 then HasReservations else InvalidQuotaState;
    }

    method ResetDownstreamKeyUsage(key: KeyId) returns (outcome: Outcome)
      modifies this`keys, this`ledger
      ensures (Tables(), outcome) == ResetUsage(old(Tables()), key)
    {
      if key !in keys || keys[key].reserved != 0 {
        return NotFound;
      }
      keys := keys[key := keys[key].(used := 0)];
      ledger := WithoutKey(ledger, key);
      return Done;
    }

    method DeleteOldLogs(cutoff: int)
      modifies this`requests, this`ledger
      ensures Tables() == Prune(old(Tables()), cutoff)
    {
      requests := Unexpired(requests, cutoff);
      ledger := Select(ledger, Ids(requests), true);
    }
  }

  /** Once a release fails the whole recovery fails. */
  lemma {:induction false} ReleaseFails(keys: map<KeyId, Key>, ledger: seq<Entry>, orphans: seq<Orphan>, n: nat)
    requires n <= |orphans| && ReleaseAll(keys, ledger, orphans[..n]) == None
    ensures ReleaseAll(keys, ledger, orphans) == None
  {
    if n < |orphans| {
      var before := orphans[..|orphans| - 1];
      assert before[..n] == orphans[..n];
      ReleaseFails(keys, ledger, before, n);
    } else {
      assert orphans[..n] == orphans;
    }
  }
}
