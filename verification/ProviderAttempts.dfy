/** Attempt counters of worker rows, exact in every run. */
module ProviderAttempts {
  import opened Common
  import opened ProviderDb
  import opened ProviderFrames
  import opened ProviderWorker

  // ---------------------------------------------------------------- worker rows

  ghost predicate FetchesRow(db: Db, op: Op, r: nat) {
    op.OpFetchWork? && op.row == r && RowAvailable(db, r)
  }

  ghost predicate IgnoresRow(db: Db, op: Op, r: nat) {
    op.OpAbandonWork? && op.ignoreAttempt && RowOf(db, op.token) == Some(r)
  }

  /** Successful fetches of the row in the first n steps, and its abandons with the attempt ignored. */
  ghost function RowFetches(ops: seq<Op>, n: nat, r: nat): nat
    requires n <= |ops|
  {
    if n == 0 then 0 else RowFetches(ops, n - 1, r) + if FetchesRow(At(ops, n - 1), ops[n - 1], r) then 1 else 0
  }

  ghost function RowIgnored(ops: seq<Op>, n: nat, r: nat): nat
    requires n <= |ops|
  {
    if n == 0 then 0 else RowIgnored(ops, n - 1, r) + if IgnoresRow(At(ops, n - 1), ops[n - 1], r) then 1 else 0
  }

  ghost predicate LockedRowsCounted(db: Db) {
    forall r :: r in db.wq && db.wq[r].lock.Some? ==> db.wq[r].attempts >= 1
  }

  /** What a step does to the counter of a row that stays. */
  ghost predicate RowCounts(op: Op, a: Db, b: Db, r: nat)
    requires r in a.wq && r in b.wq
  {
    && b.wq[r].attempts == a.wq[r].attempts
         + (if FetchesRow(a, op, r) then 1 else 0) - (if IgnoresRow(a, op, r) then 1 else 0)
    && (b.wq[r].lock.Some? ==> b.wq[r].attempts >= 1)
  }

  lemma AckCounts(db: Db, t: nat, a: AckArgs, r: nat)
    requires IdsOk(db) && LockedRowsCounted(db) && r in db.wq && r in AckOrchestration(db, t, a).0.wq
    ensures RowCounts(OpAck(t, a), db, AckOrchestration(db, t, a).0, r)
  {
    var inserted := InsertRows(db.wq, db.nextRow, a.workerItems, db.now);
    if AckAccepted(db, t, a) {
      assert AckOrchestration(db, t, a).0.wq == WithoutKeys(inserted, a.cancelled);
    }
  }

  lemma AbandonCounts(db: Db, t: nat, delay: Option<nat>, ignore: bool, r: nat)
    requires TokensOk(db) && LockedRowsCounted(db) && r in db.wq && r in AbandonWork(db, t, delay, ignore).0.wq
    ensures RowCounts(OpAbandonWork(t, delay, ignore), db, AbandonWork(db, t, delay, ignore).0, r)
  {
  }

  lemma FetchCounts(db: Db, s: nat, timeout: nat, r: nat)
    requires LockedRowsCounted(db) && r in db.wq && r in FetchWork(db, s, timeout).0.wq
    ensures RowCounts(OpFetchWork(s, timeout), db, FetchWork(db, s, timeout).0, r)
  {
  }

  lemma RenewCounts(db: Db, t: nat, extend: nat, r: nat)
    requires LockedRowsCounted(db) && r in db.wq && r in RenewWork(db, t, extend).0.wq
    ensures RowCounts(OpRenewWork(t, extend), db, RenewWork(db, t, extend).0, r)
  {
  }

  lemma AckWorkCounts(db: Db, t: nat, c: Option<WorkItem>, r: nat)
    requires LockedRowsCounted(db) && r in db.wq && r in AckWork(db, t, c).0.wq
    ensures RowCounts(OpAckWork(t, c), db, AckWork(db, t, c).0, r)
  {
  }

  lemma DeleteCounts(db: Db, ids: set<string>, force: bool, r: nat)
    requires LockedRowsCounted(db) && r in db.wq && r in DeleteInstances(db, ids, force).0.wq
    ensures RowCounts(OpDelete(ids, force), db, DeleteInstances(db, ids, force).0, r)
  {
  }

  lemma EnqueueCounts(db: Db, key: ActivityKey, r: nat)
    requires IdsOk(db) && LockedRowsCounted(db) && r in db.wq
    ensures RowCounts(OpEnqueueWorker(key), db, EnqueueWorker(db, key), r)
  {
  }

  lemma StepCounts(db: Db, op: Op, r: nat)
    requires WellFormed(db) && LockedRowsCounted(db) && r in db.wq && r in Step(db, op).wq
    ensures RowCounts(op, db, Step(db, op), r)
  {
    hide AckOrchestration, AckWork, DeleteInstances, FetchWork, AbandonWork, RenewWork, EnqueueWorker;
    hide LockTokensOk, MsgIdsOk, ForestOk;
    match op
    case OpAck(t, a) => AckCounts(db, t, a, r);
    case OpFetchWork(s, timeout) => FetchCounts(db, s, timeout, r);
    case OpRenewWork(t, extend) => RenewCounts(db, t, extend, r);
    case OpAckWork(t, c) => AckWorkCounts(db, t, c, r);
    case OpAbandonWork(t, delay, ignore) => AbandonCounts(db, t, delay, ignore, r);
    case OpDelete(ids, force) => DeleteCounts(db, ids, force, r);
    case OpEnqueueWorker(key) => EnqueueCounts(db, key, r);
    case _ => StepFrame(db, op);
  }

  lemma AbsentRowsAreNotCounted(db: Db, op: Op, r: nat)
    requires r !in db.wq
    ensures !FetchesRow(db, op, r) && !IgnoresRow(db, op, r)
  {
  }

  /** Rows not inserted yet have no history. */
  lemma {:induction false} UnusedRowsHaveNoCounts(ops: seq<Op>, n: nat, r: nat)
    requires n <= |ops| && r >= At(ops, n).nextRow
    ensures RowFetches(ops, n, r) == 0 && RowIgnored(ops, n, r) == 0
  {
    if n > 0 {
      StepFrame(At(ops, n - 1), ops[n - 1]);
      UnusedRowsHaveNoCounts(ops, n - 1, r);
      ReachableIsWellFormed(ops, n - 1);
    }
  }

  /**
   In every reachable state a worker row's attempt counter equals its fetches minus its ignored
   abandons; a held row has been counted at least once, so the decrement never meets its floor.
   */
  lemma {:induction false} WorkerAttemptsAreExact(ops: seq<Op>, n: nat)
    requires n <= |ops|
    ensures LockedRowsCounted(At(ops, n))
    ensures forall r :: r in At(ops, n).wq ==>
              At(ops, n).wq[r].attempts == RowFetches(ops, n, r) - RowIgnored(ops, n, r)
  {
    if n > 0 {
      WorkerAttemptsAreExact(ops, n - 1);
      ReachableIsWellFormed(ops, n - 1);
      StepRows(At(ops, n - 1), ops[n - 1]);
      forall r | r in At(ops, n).wq
        ensures At(ops, n).wq[r].attempts == RowFetches(ops, n, r) - RowIgnored(ops, n, r)
        ensures At(ops, n).wq[r].lock.Some? ==> At(ops, n).wq[r].attempts >= 1
      {
        RowAttemptsAfter(ops, n, r);
      }
    }
  }

  lemma RowAttemptsAfter(ops: seq<Op>, n: nat, r: nat)
    requires 0 < n <= |ops| && r in At(ops, n).wq
    requires LockedRowsCounted(At(ops, n - 1))
    requires r in At(ops, n - 1).wq ==>
              At(ops, n - 1).wq[r].attempts == RowFetches(ops, n - 1, r) - RowIgnored(ops, n - 1, r)
    ensures At(ops, n).wq[r].attempts == RowFetches(ops, n, r) - RowIgnored(ops, n, r)
    ensures At(ops, n).wq[r].lock.Some? ==> At(ops, n).wq[r].attempts >= 1
  {
    hide Step, FetchesRow, IgnoresRow, RowGone;
    ReachableIsWellFormed(ops, n - 1);
    StepRows(At(ops, n - 1), ops[n - 1]);
    if r in At(ops, n - 1).wq {
      StepCounts(At(ops, n - 1), ops[n - 1], r);
    } else {
      UnusedRowsHaveNoCounts(ops, n - 1, r);
      AbsentRowsAreNotCounted(At(ops, n - 1), ops[n - 1], r);
    }
  }
}
