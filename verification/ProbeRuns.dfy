/**
A probe run of a published model: attempt indices allotted before the workers start, workers that take targets from a
queue and try the keys of each in turn, and the summary written when the run is completed.
*/
module ProbeRuns {
  import opened Wrappers

  // ----- allotting indices

  /** How many attempt indices a target with so many keys is given. */
  function Span(keys: nat): nat { if keys == 0 then 1 else keys }

  /** The first index of the i-th target. */
  function Base(keys: seq<nat>, i: nat): nat
    requires i <= |keys|
  {
    if i == 0 then 0 else Base(keys, i - 1) + Span(keys[i - 1])
  }

  method AllotIndices(keys: seq<nat>) returns (bases: seq<nat>)
    ensures |bases| == |keys|
    ensures forall i {:trigger bases[i]} :: 0 <= i < |keys| ==> bases[i] == Base(keys, i)
  {
    bases := [];
    var nextIndex := 0;
    for i := 0 to |keys|
      invariant |bases| == i && nextIndex == Base(keys, i)
      invariant forall k {:trigger bases[k]} :: 0 <= k < i ==> bases[k] == Base(keys, k)
    {
      bases := bases + [nextIndex];
      var span := keys[i];
      if span == 0 {
        span := 1;
      }
      nextIndex := nextIndex + span;
    }
  }

  /** The ranges of different targets do not meet. */
  lemma {:induction false} RangesAreDisjoint(keys: seq<nat>, i: nat, j: nat)
    requires i < j <= |keys|
    ensures Base(keys, i) + Span(keys[i]) <= Base(keys, j)
  {
    if i + 1 < j {
      RangesAreDisjoint(keys, i, j - 1);
    }
  }

  // ----- workers

  datatype Status = Success | Failed | Skipped

  /** A persisted attempt; `job` is the position of its target in the queue. */
  datatype Attempt = Attempt(job: nat, index: nat, status: Status)

  /** A worker is idle or about to try a key of a target. */
  datatype Worker = Idle | Busy(job: nat, key: nat)

  datatype State = State(next: nat, workers: seq<Worker>, attempts: seq<Attempt>)

  /** `Skip` is a refused permit or a target without keys, `Cancel` an expired run, `Try` an attempt with a key, after
      which another key may be tried (`more`) because the fault was the key's own. */
  datatype Move = Take | Skip | Cancel | Try(success: bool, more: bool)

  /** One move of one worker; persisting its attempt may fail. */
  datatype Step = Step(worker: nat, move: Move, stored: bool)

  function Record(keys: seq<nat>, s: State, w: Worker, status: Status, stored: bool): seq<Attempt>
    requires w.Busy? && w.job < |keys|
  {
    if stored then s.attempts + [Attempt(w.job, Base(keys, w.job) + w.key, status)] else s.attempts
  }

  function Next(keys: seq<nat>, s: State, t: Step): State {
    if t.worker >= |s.workers| then s
    else
      var w := s.workers[t.worker];
      match t.move
      case Take =>
        if w.Busy? || s.next >= |keys| then s
        else s.(next := s.next + 1, workers := s.workers[t.worker := Busy(s.next, 0)])
      case Skip =>
        if w.Idle? || w.job >= |keys| || w.key > 0 then s
        else s.(workers := s.workers[t.worker := Idle], attempts := Record(keys, s, w, Skipped, t.stored))
      case Cancel =>
        if w.Idle? || w.job >= |keys| || w.key >= keys[w.job] then s
        else s.(workers := s.workers[t.worker := Idle], attempts := Record(keys, s, w, Skipped, t.stored))
      case Try(success, more) =>
        if w.Idle? || w.job >= |keys| || w.key >= keys[w.job] then s
        else
          var on := t.stored && !success && more && w.key + 1 < keys[w.job];
          s.(workers := s.workers[t.worker := if on then Busy(w.job, w.key + 1) else Idle],
             attempts := Record(keys, s, w, if success then Success else Failed, t.stored))
  }

  /** Any interleaving of any number of workers. */
  function After(keys: seq<nat>, workers: nat, steps: seq<Step>): State {
    if steps == [] then State(0, seq(workers, _ => Idle), [])
    else Next(keys, After(keys, workers, steps[..|steps| - 1]), steps[|steps| - 1])
  }

  ghost predicate WorkerOk(keys: seq<nat>, s: State, w: Worker) {
    w.Busy? ==> w.job < s.next && w.job < |keys| && w.key < Span(keys[w.job])
  }

  /** An attempt lies in its target's range; while its target is still worked on, it failed and lies behind. */
  ghost predicate AttemptOk(keys: seq<nat>, s: State, a: Attempt) {
    && a.job < s.next && a.job < |keys|
    && Base(keys, a.job) <= a.index < Base(keys, a.job) + Span(keys[a.job])
    && forall w :: w in s.workers && w.Busy? && w.job == a.job ==>
         a.index < Base(keys, a.job) + w.key && a.status == Failed
  }

  ghost predicate Inv(keys: seq<nat>, s: State) {
    && s.next <= |keys|
    && (forall i :: 0 <= i < |s.workers| ==> WorkerOk(keys, s, s.workers[i]))
    && (forall i, j :: 0 <= i < j < |s.workers| && s.workers[i].Busy? && s.workers[j].Busy? ==>
         s.workers[i].job != s.workers[j].job)
    && (forall k :: 0 <= k < |s.attempts| ==> AttemptOk(keys, s, s.attempts[k]))
    && UniqueIndices(s.attempts)
  }

  /** What the table's UNIQUE(probe_run_id, attempt_index) demands. */
  predicate UniqueIndices(attempts: seq<Attempt>) {
    forall k, l :: 0 <= k < l < |attempts| ==> attempts[k].index != attempts[l].index
  }

  lemma TakeKeeps(keys: seq<nat>, s: State, i: nat)
    requires Inv(keys, s) && i < |s.workers| && s.workers[i].Idle? && s.next < |keys|
    ensures Inv(keys, s.(next := s.next + 1, workers := s.workers[i := Busy(s.next, 0)]))
  {
    var s' := s.(next := s.next + 1, workers := s.workers[i := Busy(s.next, 0)]);
    forall k | 0 <= k < |s'.attempts| ensures AttemptOk(keys, s', s'.attempts[k]) {
      assert AttemptOk(keys, s, s.attempts[k]);
    }
    forall k | 0 <= k < |s'.workers| ensures WorkerOk(keys, s', s'.workers[k]) {
      assert WorkerOk(keys, s, s.workers[k]);
    }
  }

  /** A worker records its current attempt and either moves to the next key or lets go of the target. */
  lemma RecordKeeps(keys: seq<nat>, s: State, i: nat, status: Status, stored: bool, on: bool)
    requires Inv(keys, s) && i < |s.workers| && s.workers[i].Busy?
    requires on ==> stored && status == Failed && s.workers[i].key + 1 < keys[s.workers[i].job]
    ensures var w := s.workers[i];
      Inv(keys, s.(workers := s.workers[i := if on then Busy(w.job, w.key + 1) else Idle],
                   attempts := Record(keys, s, w, status, stored)))
  {
    var w := s.workers[i];
    assert WorkerOk(keys, s, w);
    var w' := if on then Busy(w.job, w.key + 1) else Idle;
    var s' := s.(workers := s.workers[i := w'], attempts := Record(keys, s, w, status, stored));
    forall k | 0 <= k < |s.attempts| ensures AttemptOk(keys, s', s.attempts[k]) {
      assert AttemptOk(keys, s, s.attempts[k]);
    }
    if stored {
      NewIndex(keys, s, w, i);
      AttemptRecorded(keys, s, s', i, Attempt(w.job, Base(keys, w.job) + w.key, status), on);
    }
    forall k | 0 <= k < |s'.workers| ensures WorkerOk(keys, s', s'.workers[k]) {
      assert WorkerOk(keys, s, s.workers[k]);
    }
  }

  lemma NewIndex(keys: seq<nat>, s: State, w: Worker, i: nat)
    requires Inv(keys, s) && i < |s.workers| && s.workers[i] == w
    requires w.Busy? && w.job < |keys| && w.key < Span(keys[w.job])
    ensures forall k :: 0 <= k < |s.attempts| ==> s.attempts[k].index != Base(keys, w.job) + w.key
  {
    forall k | 0 <= k < |s.attempts| ensures s.attempts[k].index != Base(keys, w.job) + w.key {
      var a := s.attempts[k];
      assert AttemptOk(keys, s, a) && w in s.workers;
      if a.job < w.job {
        RangesAreDisjoint(keys, a.job, w.job);
      } else if w.job < a.job {
        RangesAreDisjoint(keys, w.job, a.job);
      }
    }
  }

  lemma AttemptRecorded(keys: seq<nat>, s: State, s': State, i: nat, a: Attempt, on: bool)
    requires Inv(keys, s) && i < |s.workers| && s.workers[i].Busy?
    requires WorkerOk(keys, s, s.workers[i])
    requires var w := s.workers[i];
      a.job == w.job && a.index == Base(keys, w.job) + w.key && s'.next == s.next &&
      s'.workers == s.workers[i := if on then Busy(w.job, w.key + 1) else Idle]
    requires on ==> a.status == Failed
    ensures AttemptOk(keys, s', a)
  {
    forall v | v in s'.workers && v.Busy? && v.job == a.job
      ensures a.index < Base(keys, a.job) + v.key && a.status == Failed
    {
      var j :| 0 <= j < |s'.workers| && s'.workers[j] == v;
      assert j == i;
    }
  }

  lemma NextKeeps(keys: seq<nat>, s: State, t: Step)
    requires Inv(keys, s)
    ensures Inv(keys, Next(keys, s, t))
  {
    if t.worker < |s.workers| {
      var w := s.workers[t.worker];
      assert WorkerOk(keys, s, w);
      match t.move
      case Take => if w.Idle? && s.next < |keys| { TakeKeeps(keys, s, t.worker); }
      case Skip => if w.Busy? { RecordKeeps(keys, s, t.worker, Skipped, t.stored, false); }
      case Cancel => if w.Busy? { RecordKeeps(keys, s, t.worker, Skipped, t.stored, false); }
      case Try(success, more) =>
        if w.Busy? && w.key < keys[w.job] {
          RecordKeeps(keys, s, t.worker, if success then Success else Failed, t.stored,
                      t.stored && !success && more && w.key + 1 < keys[w.job]);
        }
    }
  }

  lemma {:induction false} AlwaysInv(keys: seq<nat>, workers: nat, steps: seq<Step>)
    ensures Inv(keys, After(keys, workers, steps))
  {
    if steps != [] {
      AlwaysInv(keys, workers, steps[..|steps| - 1]);
      NextKeeps(keys, After(keys, workers, steps[..|steps| - 1]), steps[|steps| - 1]);
    }
  }

  /** No interleaving of the workers uses an attempt index twice; every index lies in the range allotted to its
      target, which it therefore identifies; and a target has at most one success, its last attempt. */
  lemma IndicesNeverClash(keys: seq<nat>, workers: nat, steps: seq<Step>)
    ensures var attempts := After(keys, workers, steps).attempts;
      && UniqueIndices(attempts)
      && (forall k :: 0 <= k < |attempts| ==>
           attempts[k].job < |keys| &&
           Base(keys, attempts[k].job) <= attempts[k].index < Base(keys, attempts[k].job) + Span(keys[attempts[k].job]))
      && SuccessIsLast(attempts)
  {
    var s := After(keys, workers, steps);
    AlwaysInv(keys, workers, steps);
    forall k | 0 <= k < |s.attempts|
      ensures s.attempts[k].job < |keys| && Base(keys, s.attempts[k].job) <= s.attempts[k].index
        < Base(keys, s.attempts[k].job) + Span(keys[s.attempts[k].job])
    {
      assert AttemptOk(keys, s, s.attempts[k]);
    }
    AlwaysLast(keys, workers, steps);
  }

  predicate SuccessIsLast(attempts: seq<Attempt>) {
    forall k, l :: 0 <= k < l < |attempts| && attempts[k].job == attempts[l].job ==>
      attempts[k].status == Failed && attempts[k].index < attempts[l].index
  }

  lemma {:induction false} AlwaysLast(keys: seq<nat>, workers: nat, steps: seq<Step>)
    ensures SuccessIsLast(After(keys, workers, steps).attempts)
  {
    if steps != [] {
      var before, t := steps[..|steps| - 1], steps[|steps| - 1];
      var s := After(keys, workers, before);
      AlwaysLast(keys, workers, before);
      AlwaysInv(keys, workers, before);
      if t.worker < |s.workers| && s.workers[t.worker].Busy? {
        var w := s.workers[t.worker];
        forall k | 0 <= k < |s.attempts| && s.attempts[k].job == w.job
          ensures s.attempts[k].status == Failed && w.job < |keys| && s.attempts[k].index < Base(keys, w.job) + w.key
        {
          assert AttemptOk(keys, s, s.attempts[k]) && w in s.workers;
        }
      }
    }
  }

  /** The key with this index was tried for the target, and failed. */
  predicate Tried(attempts: seq<Attempt>, job: nat, index: nat) {
    exists k :: 0 <= k < |attempts| && attempts[k] == Attempt(job, index, Failed)
  }

  /** All keys of the target before this index were tried. */
  ghost predicate TriedUpTo(keys: seq<nat>, attempts: seq<Attempt>, job: nat, index: nat)
    requires job <= |keys|
  {
    forall i :: Base(keys, job) <= i < index ==> Tried(attempts, job, i)
  }

  ghost predicate WorkerInOrder(keys: seq<nat>, attempts: seq<Attempt>, w: Worker) {
    w.Busy? ==> w.job < |keys| && TriedUpTo(keys, attempts, w.job, Base(keys, w.job) + w.key)
  }

  ghost predicate RowInOrder(keys: seq<nat>, attempts: seq<Attempt>, a: Attempt) {
    a.job < |keys| && TriedUpTo(keys, attempts, a.job, a.index)
  }

  ghost predicate InOrder(keys: seq<nat>, s: State) {
    && (forall i :: 0 <= i < |s.workers| ==> WorkerInOrder(keys, s.attempts, s.workers[i]))
    && forall k :: 0 <= k < |s.attempts| ==> RowInOrder(keys, s.attempts, s.attempts[k])
  }

  lemma TriedStill(keys: seq<nat>, attempts: seq<Attempt>, more: seq<Attempt>, job: nat, index: nat)
    requires job <= |keys| && TriedUpTo(keys, attempts, job, index) && attempts <= more
    ensures TriedUpTo(keys, more, job, index)
  {
    forall i | Base(keys, job) <= i < index ensures Tried(more, job, i) {
      assert Tried(attempts, job, i);
      var k :| 0 <= k < |attempts| && attempts[k] == Attempt(job, i, Failed);
      assert more[k] == attempts[k];
    }
  }

  lemma OrderKept(keys: seq<nat>, s: State, t: Step)
    requires Inv(keys, s) && InOrder(keys, s)
    ensures InOrder(keys, Next(keys, s, t))
  {
    if t.worker < |s.workers| {
      var w := s.workers[t.worker];
      match t.move
      case Take =>
        if w.Idle? && s.next < |keys| { MoveKept(keys, s, t.worker, Busy(s.next, 0), s.attempts, s.next + 1); }
      case Skip => if w.Busy? { RecordedKept(keys, s, t.worker, Skipped, t.stored, false); }
      case Cancel => if w.Busy? { RecordedKept(keys, s, t.worker, Skipped, t.stored, false); }
      case Try(success, more) =>
        if w.Busy? {
          RecordedKept(keys, s, t.worker, if success then Success else Failed, t.stored,
                       t.stored && !success && more && w.key + 1 < keys[w.job]);
        }
    }
  }

  lemma RecordedKept(keys: seq<nat>, s: State, i: nat, status: Status, stored: bool, on: bool)
    requires InOrder(keys, s) && i < |s.workers| && s.workers[i].Busy? && (on ==> stored && status == Failed)
    ensures var w := s.workers[i];
      InOrder(keys, s.(workers := s.workers[i := if on then Busy(w.job, w.key + 1) else Idle],
                       attempts := Record(keys, s, w, status, stored)))
  {
    var w, more := s.workers[i], Record(keys, s, s.workers[i], status, stored);
    assert WorkerInOrder(keys, s.attempts, w);
    TriedStill(keys, s.attempts, more, w.job, Base(keys, w.job) + w.key);
    if on { assert more[|s.attempts|] == Attempt(w.job, Base(keys, w.job) + w.key, Failed); }
    MoveKept(keys, s, i, if on then Busy(w.job, w.key + 1) else Idle, more, s.next);
  }

  /** A worker moves on, and rows are added behind the others. */
  lemma MoveKept(keys: seq<nat>, s: State, i: nat, w: Worker, more: seq<Attempt>, next: nat)
    requires InOrder(keys, s) && i < |s.workers| && s.attempts <= more
    requires WorkerInOrder(keys, more, w)
    requires forall k :: |s.attempts| <= k < |more| ==> RowInOrder(keys, more, more[k])
    ensures InOrder(keys, State(next, s.workers[i := w], more))
  {
    forall j | 0 <= j < |s.workers| ensures WorkerInOrder(keys, more, s.workers[j]) {
      var v := s.workers[j];
      assert WorkerInOrder(keys, s.attempts, v);
      if v.Busy? { TriedStill(keys, s.attempts, more, v.job, Base(keys, v.job) + v.key); }
    }
    forall k | 0 <= k < |more| ensures RowInOrder(keys, more, more[k]) {
      if k < |s.attempts| {
        assert RowInOrder(keys, s.attempts, s.attempts[k]);
        TriedStill(keys, s.attempts, more, more[k].job, more[k].index);
      }
    }
  }

  /** The keys of a target are tried in their order and none is passed over: every attempt comes after a failed one with
      each key before its own, in any interleaving. */
  lemma {:induction false} NoKeyPassedOver(keys: seq<nat>, workers: nat, steps: seq<Step>)
    ensures InOrder(keys, After(keys, workers, steps))
  {
    if steps != [] {
      var before := steps[..|steps| - 1];
      NoKeyPassedOver(keys, workers, before);
      AlwaysInv(keys, workers, before);
      OrderKept(keys, After(keys, workers, before), steps[|steps| - 1]);
    }
  }

  // ----- completing the run

  /** A row of the attempts table; a target deleted meanwhile leaves NULL behind. */
  datatype Row = Row(target: Option<int>, status: Status)

  datatype RunStatus = Running | AllGood | Partial | Bad | Cancelled

  datatype Summary = Summary(status: RunStatus, targets: nat, success: nat, failure: nat, skipped: nat)

  function Targets(rows: seq<Row>): set<Option<int>> { set r | r in rows :: r.target }

  /** The targets with an attempt of the given status. */
  function With(rows: seq<Row>, status: Status): set<Option<int>> {
    set r | r in rows && r.status == status :: r.target
  }

  /** The rows of the query that groups attempts by target and counts each group once, by its best attempt. */
  function Succeeded(rows: seq<Row>): set<Option<int>> { With(rows, Success) }

  function FailedOnly(rows: seq<Row>): set<Option<int>> { With(rows, Failed) - With(rows, Success) }

  function SkippedOnly(rows: seq<Row>): set<Option<int>> {
    With(rows, Skipped) - With(rows, Success) - With(rows, Failed)
  }

  function Complete(rows: seq<Row>, planned: nat): Summary {
    var observed := |Targets(rows)|;
    var targets := if observed > planned then observed else planned;
    var success := |Succeeded(rows)|;
    var skipped := |SkippedOnly(rows)| + (if observed < targets then targets - observed else 0);
    var status := if targets > 0 && success == targets then AllGood else if success > 0 then Partial else Bad;
    Summary(status, targets, success, |FailedOnly(rows)|, skipped)
  }

  /** Every observed target is counted exactly once. */
  lemma EachCountedOnce(rows: seq<Row>)
    ensures Targets(rows) == Succeeded(rows) + FailedOnly(rows) + SkippedOnly(rows)
    ensures |Targets(rows)| == |Succeeded(rows)| + |FailedOnly(rows)| + |SkippedOnly(rows)|
  {
    var a, b, c := Succeeded(rows), FailedOnly(rows), SkippedOnly(rows);
    forall t | t in Targets(rows) ensures t in a + b + c {
      var r :| r in rows && r.target == t;
      assert t in With(rows, r.status);
    }
    assert Targets(rows) == a + b + c;
    Disjoint(a, b);
    Disjoint(a + b, c);
  }

  /** A target counts by its best attempt: as a success with one success, as a failure with a failed attempt and no
      success, as skipped when all its attempts were. */
  lemma BestAttemptCounts(rows: seq<Row>, planned: nat, t: Option<int>)
    ensures t in Succeeded(rows) <==> Row(t, Success) in rows
    ensures t in FailedOnly(rows) <==> Row(t, Failed) in rows && Row(t, Success) !in rows
    ensures t in SkippedOnly(rows) <==> Row(t, Skipped) in rows && Row(t, Failed) !in rows && Row(t, Success) !in rows
    ensures var s := Complete(rows, planned);
      s.success == |Succeeded(rows)| && s.failure == |FailedOnly(rows)| && s.targets in {planned, |Targets(rows)|}
  {
    WithIs(rows, Success, t);
    WithIs(rows, Failed, t);
    WithIs(rows, Skipped, t);
  }

  lemma WithIs(rows: seq<Row>, status: Status, t: Option<int>)
    ensures t in With(rows, status) <==> Row(t, status) in rows
  {
    if t in With(rows, status) {
      var r :| r in rows && r.status == status && r.target == t;
      assert r == Row(t, status);
    }
  }

  lemma Disjoint<T>(a: set<T>, b: set<T>)
    requires a !! b
    ensures |a + b| == |a| + |b|
  {
  }

  /** On completion the three counts always add up to the number of targets, which is never below the planned one; the
      run is a success exactly when there are targets and all of them succeeded, partial when some did, else failed. */
  lemma CountsAddUp(rows: seq<Row>, planned: nat)
    ensures var s := Complete(rows, planned);
      && s.success + s.failure + s.skipped == s.targets
      && s.targets >= planned && s.targets >= |Targets(rows)|
      && (s.status == AllGood <==> s.targets > 0 && s.failure == 0 && s.skipped == 0)
      && (s.status == Partial <==> 0 < s.success < s.targets)
      && (s.status == Bad <==> s.success == 0)
  {
    EachCountedOnce(rows);
  }

  /** The rows of a run whose targets all still exist. */
  function RowsOf(attempts: seq<Attempt>, targets: seq<int>): seq<Row>
    requires forall k :: 0 <= k < |attempts| ==> attempts[k].job < |targets|
  {
    seq(|attempts|, k requires 0 <= k < |attempts| => Row(Some(targets[attempts[k].job]), attempts[k].status))
  }

  function Ids(targets: seq<int>): set<Option<int>> { set i | 0 <= i < |targets| :: Some(targets[i]) }

  lemma {:induction false} FewIds(targets: seq<int>)
    ensures |Ids(targets)| <= |targets|
  {
    if targets == [] {
      assert Ids(targets) == {};
    } else {
      var n := |targets| - 1;
      FewIds(targets[..n]);
      assert Ids(targets) <= Ids(targets[..n]) + {Some(targets[n])} by {
        forall t | t in Ids(targets) ensures t in Ids(targets[..n]) + {Some(targets[n])} {
          var i :| 0 <= i < |targets| && Some(targets[i]) == t;
          if i < n { assert targets[..n][i] == targets[i]; }
        }
      }
      Smaller(Ids(targets), Ids(targets[..n]) + {Some(targets[n])});
    }
  }

  lemma {:induction false} Smaller<T>(a: set<T>, b: set<T>)
    requires a <= b
    ensures |a| <= |b|
    decreases |a|
  {
    if a != {} {
      var x :| x in a;
      Smaller(a - {x}, b - {x});
    }
  }

  lemma FewTargets(attempts: seq<Attempt>, targets: seq<int>)
    requires forall k :: 0 <= k < |attempts| ==> attempts[k].job < |targets|
    ensures |Targets(RowsOf(attempts, targets))| <= |targets|
  {
    var rows := RowsOf(attempts, targets);
    FewIds(targets);
    forall t | t in Targets(rows) ensures t in Ids(targets) {
      var r :| r in rows && r.target == t;
      var k :| 0 <= k < |rows| && rows[k] == r;
      assert t == Some(targets[attempts[k].job]);
    }
    Smaller(Targets(rows), Ids(targets));
  }

  /** Whatever the workers did, a completed run accounts for exactly the targets it was started with. */
  lemma EveryTargetIsAccountedFor(keys: seq<nat>, targets: seq<int>, workers: nat, steps: seq<Step>)
    requires |targets| == |keys|
    ensures var attempts := After(keys, workers, steps).attempts;
      && (forall k :: 0 <= k < |attempts| ==> attempts[k].job < |targets|)
      && var s := Complete(RowsOf(attempts, targets), |targets|);
      s.targets == |targets| && s.success + s.failure + s.skipped == |targets|
  {
    IndicesNeverClash(keys, workers, steps);
    var attempts := After(keys, workers, steps).attempts;
    FewTargets(attempts, targets);
    CountsAddUp(RowsOf(attempts, targets), |targets|);
  }

  /** The run's row. */
  class ProbeRun {
    var summary: Summary

    constructor (targets: nat)
      ensures summary == Summary(Running, targets, 0, 0, 0)
    {
      summary := Summary(Running, targets, 0, 0, 0);
    }

    /** Completes a running run once; a finished one is left as it is. */
    method CompleteProbeRun(rows: seq<Row>)
      modifies this
      ensures summary == if old(summary).status == Running then Complete(rows, old(summary).targets) else old(summary)
      ensures old(summary).status == Running ==>
        summary.status != Running && summary.success + summary.failure + summary.skipped == summary.targets
    {
      CountsAddUp(rows, summary.targets);
      if summary.status != Running {
        return;
      }
      var targetCount, observed := summary.targets, |Targets(rows)|;
      var successes, failures, skipped := |Succeeded(rows)|, |FailedOnly(rows)|, |SkippedOnly(rows)|;
      if observed > targetCount {
        targetCount := observed;
      }
      if observed < targetCount {
        skipped := skipped + (targetCount - observed);
      }
      var status := Bad;
      if targetCount > 0 && successes == targetCount {
        status := AllGood;
      } else if successes > 0 {
        status := Partial;
      }
      summary := Summary(status, targetCount, successes, failures, skipped);
    }

    method CancelProbeRun() returns (ok: bool)
      modifies this
      ensures ok == (old(summary).status == Running)
      ensures summary == if ok then old(summary).(status := Cancelled) else old(summary)
    {
      ok := summary.status == Running;
      if ok {
        summary := summary.(status := Cancelled);
      }
    }
  }
}
