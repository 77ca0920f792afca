/**
 The worker queue in every run: each row leaves it exactly once, yields at most one completion, and
 a row that was cancelled or whose instance was deleted yields none.
 */
module ProviderWorker {
  import opened Common
  import opened ProviderDb
  import opened ProviderFrames

  /** A worker reports the outcome of an activity, or nothing. */
  predicate ReportsActivity(c: Option<WorkItem>) {
    match c
    case None => true
    case Some(ActivityCompleted(_, _, _, _)) => true
    case Some(ActivityFailed(_, _, _, _)) => true
    case _ => false
  }

  ghost predicate WorkAccepted(db: Db, token: nat, c: Option<WorkItem>) {
    RowOf(db, token).Some? && RowLive(db, RowOf(db, token).value, token) && ReportsActivity(c)
  }

  /** Why a step removes a row: its own ack, a cancellation inside an ack, or a deletion. */
  ghost predicate RowGone(db: Db, op: Op, r: nat)
    requires r in db.wq
  {
    match op
    case OpAckWork(token, c) => WorkAccepted(db, token, c) && RowHolds(db, r, token)
    case OpAck(token, args) => AckAccepted(db, token, args) && db.wq[r].key in args.cancelled
    case OpDelete(ids, force) => DeleteAccepted(db, ids, force) && db.wq[r].key.instance in ids
    case _ => false
  }

  ghost predicate RowsEvolve(op: Op, a: Db, b: Db) {
    && (forall r :: r in a.wq ==> (r in b.wq <==> !RowGone(a, op, r)))
    && (forall r :: r in a.wq && r in b.wq ==> b.wq[r].key == a.wq[r].key)
    && (forall r :: r in b.wq && r !in a.wq ==> a.nextRow <= r && b.wq[r].lock == None && b.wq[r].attempts == 0)
  }

  // ---------------------------------------------------------------- one step

  lemma AckRows(db: Db, t: nat, a: AckArgs)
    requires IdsOk(db)
    ensures RowsEvolve(OpAck(t, a), db, AckOrchestration(db, t, a).0)
  {
    var inserted := InsertRows(db.wq, db.nextRow, a.workerItems, db.now);
    if AckAccepted(db, t, a) {
      assert AckOrchestration(db, t, a).0.wq == WithoutKeys(inserted, a.cancelled);
    }
  }

  lemma AckWorkRows(db: Db, t: nat, c: Option<WorkItem>)
    requires TokensOk(db)
    ensures RowsEvolve(OpAckWork(t, c), db, AckWork(db, t, c).0)
  {
    if WorkAccepted(db, t, c) {
      assert AckWork(db, t, c).0.wq == db.wq - {RowOf(db, t).value};
    }
  }

  lemma DeleteRows(db: Db, ids: set<string>, force: bool)
    ensures RowsEvolve(OpDelete(ids, force), db, DeleteInstances(db, ids, force).0)
  {
  }

  lemma FetchWorkRows(db: Db, r: nat, timeout: nat)
    ensures RowsEvolve(OpFetchWork(r, timeout), db, FetchWork(db, r, timeout).0)
  {
  }

  lemma AbandonWorkRows(db: Db, t: nat, delay: Option<nat>, ignore: bool)
    ensures RowsEvolve(OpAbandonWork(t, delay, ignore), db, AbandonWork(db, t, delay, ignore).0)
  {
  }

  lemma RenewWorkRows(db: Db, t: nat, extend: nat)
    ensures RowsEvolve(OpRenewWork(t, extend), db, RenewWork(db, t, extend).0)
  {
  }

  lemma EnqueuedRow(db: Db, key: ActivityKey)
    requires IdsOk(db)
    ensures RowsEvolve(OpEnqueueWorker(key), db, EnqueueWorker(db, key))
  {
  }

  lemma StepRows(db: Db, op: Op)
    requires WellFormed(db)
    ensures RowsEvolve(op, db, Step(db, op))
  {
    hide AckOrchestration, AckWork, DeleteInstances, FetchWork, AbandonWork, RenewWork, EnqueueWorker, TokensOk,
         ForestOk;
    match op
    case OpAck(t, a) => AckRows(db, t, a);
    case OpAckWork(t, c) => AckWorkRows(db, t, c);
    case OpDelete(ids, force) => DeleteRows(db, ids, force);
    case OpFetchWork(r, timeout) => FetchWorkRows(db, r, timeout);
    case OpAbandonWork(t, delay, ignore) => AbandonWorkRows(db, t, delay, ignore);
    case OpRenewWork(t, extend) => RenewWorkRows(db, t, extend);
    case OpEnqueueWorker(key) => EnqueuedRow(db, key);
    case _ => StepFrame(db, op);
  }

  // ---------------------------------------------------------------- tokens of rows

  /** No row can be acked or renewed with this token any more. */
  ghost predicate RowDead(db: Db, token: nat) {
    token < db.nextToken && forall r :: !RowLive(db, r, token)
  }

  /** Every row that carries the token carried it before, until the same time. */
  ghost predicate NoNewRowHold(a: Db, b: Db, token: nat) {
    && a.now <= b.now && a.nextToken <= b.nextToken
    && forall r :: RowHolds(b, r, token) ==> r in a.wq && a.wq[r].lock == b.wq[r].lock
  }

  lemma RowStillDead(a: Db, b: Db, token: nat)
    requires RowDead(a, token) && NoNewRowHold(a, b, token)
    ensures RowDead(b, token)
  {
    forall r | RowLive(b, r, token) ensures false {
      assert RowLive(a, r, token);
    }
  }

  lemma AckMakesNoRowHold(db: Db, t: nat, a: AckArgs, token: nat)
    requires IdsOk(db)
    ensures NoNewRowHold(db, AckOrchestration(db, t, a).0, token)
  {
    var inserted := InsertRows(db.wq, db.nextRow, a.workerItems, db.now);
    if AckAccepted(db, t, a) {
      assert AckOrchestration(db, t, a).0.wq == WithoutKeys(inserted, a.cancelled);
    }
  }

  lemma FetchMakesNoRowHold(db: Db, r: nat, timeout: nat, token: nat)
    requires token < db.nextToken
    ensures NoNewRowHold(db, FetchWork(db, r, timeout).0, token)
  {
  }

  lemma AbandonMakesNoRowHold(db: Db, t: nat, delay: Option<nat>, ignore: bool, token: nat)
    ensures NoNewRowHold(db, AbandonWork(db, t, delay, ignore).0, token)
  {
  }

  lemma AckWorkMakesNoRowHold(db: Db, t: nat, c: Option<WorkItem>, token: nat)
    ensures NoNewRowHold(db, AckWork(db, t, c).0, token)
  {
  }

  lemma RenewMakesNoRowHold(db: Db, t: nat, extend: nat, token: nat)
    requires TokensOk(db) && RowDead(db, token)
    ensures NoNewRowHold(db, RenewWork(db, t, extend).0, token)
  {
  }

  lemma DeleteMakesNoRowHold(db: Db, ids: set<string>, force: bool, token: nat)
    ensures NoNewRowHold(db, DeleteInstances(db, ids, force).0, token)
  {
  }

  lemma RowDeadStaysDead(db: Db, op: Op, token: nat)
    requires WellFormed(db) && RowDead(db, token)
    ensures RowDead(Step(db, op), token)
  {
    hide AckOrchestration, AckWork, DeleteInstances, FetchWork, AbandonWork, RenewWork;
    match op {
      case OpAck(t, a) => AckMakesNoRowHold(db, t, a, token);
      case OpFetchWork(r, timeout) => FetchMakesNoRowHold(db, r, timeout, token);
      case OpAbandonWork(t, delay, ignore) => AbandonMakesNoRowHold(db, t, delay, ignore, token);
      case OpAckWork(t, c) => AckWorkMakesNoRowHold(db, t, c, token);
      case OpRenewWork(t, extend) => RenewMakesNoRowHold(db, t, extend, token);
      case OpDelete(ids, force) => DeleteMakesNoRowHold(db, ids, force, token);
      case _ => StepFrame(db, op);
    }
    RowStillDead(db, Step(db, op), token);
  }

  /** A dead token's ack and renewal fail, and the whole state stays as it was. */
  lemma RowDeadIsRefused(db: Db, token: nat, c: Option<WorkItem>, extend: nat)
    requires RowDead(db, token)
    ensures AckWork(db, token, c) == (db, false) && RenewWork(db, token, extend) == (db, false)
  {
  }

  /** The token of a row that is gone is dead: cancellation and deletion steal the lock. */
  lemma GoneRowsAreDead(db: Db, op: Op, r: nat, token: nat)
    requires WellFormed(db) && RowHolds(db, r, token) && RowGone(db, op, r)
    ensures RowDead(Step(db, op), token)
  {
    StepRows(db, op);
    StepFrame(db, op);
    match op {
      case OpAck(t, a) => AckMakesNoRowHold(db, t, a, token);
      case OpAckWork(t, c) => AckWorkMakesNoRowHold(db, t, c, token);
      case OpDelete(ids, force) => DeleteMakesNoRowHold(db, ids, force, token);
    }
    forall s | RowLive(Step(db, op), s, token) ensures false {
      assert RowHolds(db, s, token);
    }
  }

  // ---------------------------------------------------------------- whole runs

  ghost predicate RowGoneAt(ops: seq<Op>, j: nat, r: nat)
    requires j < |ops|
  {
    r in At(ops, j).wq && RowGone(At(ops, j), ops[j], r)
  }

  lemma OneRowStep(ops: seq<Op>, j: nat, r: nat)
    requires j < |ops| && r < At(ops, j).nextRow
    ensures r < At(ops, j + 1).nextRow
    ensures r in At(ops, j + 1).wq <==> r in At(ops, j).wq && !RowGoneAt(ops, j, r)
    ensures r in At(ops, j + 1).wq ==> At(ops, j + 1).wq[r].key == At(ops, j).wq[r].key
  {
    ReachableIsWellFormed(ops, j);
    StepRows(At(ops, j), ops[j]);
    StepFrame(At(ops, j), ops[j]);
    assert At(ops, j + 1) == Step(At(ops, j), ops[j]);
  }

  /** A row stays queued, for the same activity, exactly as long as nothing removed it, and never returns. */
  lemma {:induction false} RowsAreConserved(ops: seq<Op>, k: nat, n: nat, r: nat)
    requires k <= n <= |ops| && r in At(ops, k).wq
    ensures r in At(ops, n).wq <==> forall j :: k <= j < n ==> !RowGoneAt(ops, j, r)
    ensures r in At(ops, n).wq ==> At(ops, n).wq[r].key == At(ops, k).wq[r].key
    ensures r < At(ops, n).nextRow
  {
    hide At, Step, RowGoneAt;
    if k < n {
      RowsAreConserved(ops, k, n - 1, r);
      OneRowStep(ops, n - 1, r);
    } else {
      ReachableIsWellFormed(ops, k);
    }
  }

  /** The step is a successful ack of this row. */
  ghost predicate Completes(ops: seq<Op>, j: nat, r: nat)
    requires j < |ops|
  {
    ops[j].OpAckWork? && WorkAccepted(At(ops, j), ops[j].token, ops[j].completion)
        && RowOf(At(ops, j), ops[j].token) == Some(r)
  }

  /** A cancellation of this row inside a successful orchestration ack. */
  ghost predicate Cancels(ops: seq<Op>, j: nat, r: nat)
    requires j < |ops|
  {
    ops[j].OpAck? && AckAccepted(At(ops, j), ops[j].token, ops[j].args)
    && r in At(ops, j).wq && At(ops, j).wq[r].key in ops[j].args.cancelled
  }

  lemma CompletionRemoves(ops: seq<Op>, j: nat, r: nat)
    requires j < |ops| && (Completes(ops, j, r) || Cancels(ops, j, r))
    ensures RowGoneAt(ops, j, r)
  {
  }

  /**
   Whatever mix of expiry, redelivery, abandon and renew a run contains, a row is completed at most
   once, and not at all once it was cancelled.
   */
  lemma OneCompletionPerRow(ops: seq<Op>, j: nat, k: nat, r: nat)
    requires j < |ops| && k < |ops| && Completes(ops, k, r)
    requires Completes(ops, j, r) || Cancels(ops, j, r)
    ensures k <= j
    ensures Completes(ops, j, r) ==> j == k
  {
    CompletionRemoves(ops, j, r);
    CompletionRemoves(ops, k, r);
    if j < k {
      RowsAreConserved(ops, j, k, r);
    } else if k < j {
      RowsAreConserved(ops, k, j, r);
    }
  }

  lemma {:induction false} RowDeadForever(ops: seq<Op>, k: nat, n: nat, token: nat)
    requires k <= n <= |ops| && RowDead(At(ops, k), token)
    ensures RowDead(At(ops, n), token)
  {
    hide Step, WellFormed, RowDead;
    if k < n {
      RowDeadForever(ops, k, n - 1, token);
      ReachableIsWellFormed(ops, n - 1);
      RowDeadStaysDead(At(ops, n - 1), ops[n - 1], token);
    }
  }

  /**
   After a row was completed, cancelled or deleted, the worker that held it is refused for the rest
   of the run: its ack enqueues no completion and its renewal extends nothing.
   */
  lemma HolderOfGoneRowIsRefused(ops: seq<Op>, j: nat, n: nat, r: nat, token: nat, c: Option<WorkItem>, extend: nat)
    requires j < n <= |ops| && RowHolds(At(ops, j), r, token) && RowGoneAt(ops, j, r)
    ensures AckWork(At(ops, n), token, c) == (At(ops, n), false)
    ensures RenewWork(At(ops, n), token, extend) == (At(ops, n), false)
  {
    ReachableIsWellFormed(ops, j);
    GoneRowsAreDead(At(ops, j), ops[j], r, token);
    RowDeadForever(ops, j + 1, n, token);
    RowDeadIsRefused(At(ops, n), token, c, extend);
  }

  /** An activity scheduled and cancelled by the same ack never reaches a worker. */
  lemma CancelledInSameAck(db: Db, token: nat, args: AckArgs, r: nat)
    requires WellFormed(db) && AckAccepted(db, token, args) && r in AckOrchestration(db, token, args).0.wq
    ensures AckOrchestration(db, token, args).0.wq[r].key !in args.cancelled
  {
  }

  /** A successful ack replaces its row by exactly one message, or by none when there is no completion. */
  lemma CompletionIsEnqueuedOnce(db: Db, token: nat, c: Option<WorkItem>)
    requires WellFormed(db) && WorkAccepted(db, token, c)
    ensures var after := AckWork(db, token, c).0;
            && after.wq == db.wq - {RowOf(db, token).value}
            && (c.None? ==> after.oq == db.oq)
            && (c.Some? ==>
                  && db.nextMsg !in db.oq && after.oq.Keys == db.oq.Keys + {db.nextMsg}
                  && after.oq[db.nextMsg] == Msg(c.value, c.value.instance, db.now, None, 0)
                  && after.oq - {db.nextMsg} == db.oq)
  {
  }

  /**
   Which calls of a worker are answered with success: an ack or a renewal while its lock has not run out,
   the ack only with the outcome of an activity or none; an abandon as long as nobody took the row. Any
   other call changes nothing.
   */
  lemma WorkCallsSucceedIff(db: Db, token: nat, c: Option<WorkItem>, extend: nat, delay: Option<nat>, ignore: bool)
    requires WellFormed(db)
    ensures AckWork(db, token, c).1
            <==> ReportsActivity(c) && exists r :: RowHolds(db, r, token) && db.wq[r].lock.value.until > db.now
    ensures RenewWork(db, token, extend).1
            <==> exists r :: RowHolds(db, r, token) && db.wq[r].lock.value.until > db.now
    ensures AbandonWork(db, token, delay, ignore).1 <==> exists r :: RowHolds(db, r, token)
    ensures !AckWork(db, token, c).1 ==> AckWork(db, token, c).0 == db
    ensures !RenewWork(db, token, extend).1 ==> RenewWork(db, token, extend).0 == db
    ensures !AbandonWork(db, token, delay, ignore).1 ==> AbandonWork(db, token, delay, ignore).0 == db
  {
    forall r: nat | RowHolds(db, r, token) ensures RowOf(db, token) == Some(r) {
      RowIsUnique(db, r, token);
    }
  }

  /** A row is only handed out again once its lock ran out, so the first worker is refused from then on. */
  lemma RefetchFencesTheFirst(ops: seq<Op>, g: nat, n: nat, r: nat, token: nat, c: Option<WorkItem>, extend: nat)
    requires g <= n <= |ops| && g < |ops|
    requires ops[g].OpFetchWork? && ops[g].row == r && RowAvailable(At(ops, g), r) && RowHolds(At(ops, g), r, token)
    ensures AckWork(At(ops, n), token, c) == (At(ops, n), false)
    ensures RenewWork(At(ops, n), token, extend) == (At(ops, n), false)
  {
    ReachableIsWellFormed(ops, g);
    assert forall s :: RowHolds(At(ops, g), s, token) ==> s == r;
    RowDeadForever(ops, g, n, token);
    RowDeadIsRefused(At(ops, n), token, c, extend);
  }

  // ---------------------------------------------------------------- how long a row is held

  /** What ends the hold of a live token on its row. */
  ghost predicate ReleasesRow(db: Db, op: Op, r: nat, token: nat)
    requires RowHolds(db, r, token)
  {
    match op
    case OpAckWork(t, c) => t == token && ReportsActivity(c)
    case OpAbandonWork(t, _, _) => t == token
    case OpRenewWork(t, extend) => t == token && extend == 0
    case OpAck(t, args) => AckAccepted(db, t, args) && db.wq[r].key in args.cancelled
    case OpDelete(ids, force) => DeleteAccepted(db, ids, force) && db.wq[r].key.instance in ids
    case OpTick(duration) => db.wq[r].lock.value.until <= db.now + duration
    case _ => false
  }

  lemma AckWorkReleases(db: Db, r: nat, token: nat, t: nat, c: Option<WorkItem>)
    requires WellFormed(db) && RowLive(db, r, token)
    ensures RowLive(AckWork(db, t, c).0, r, token) <==> !ReleasesRow(db, OpAckWork(t, c), r, token)
  {
  }

  lemma AbandonWorkReleases(db: Db, r: nat, token: nat, t: nat, delay: Option<nat>, ignore: bool)
    requires WellFormed(db) && RowLive(db, r, token)
    ensures RowLive(AbandonWork(db, t, delay, ignore).0, r, token) <==>
              !ReleasesRow(db, OpAbandonWork(t, delay, ignore), r, token)
  {
    RowIsUnique(db, r, token);
  }

  lemma RenewWorkReleases(db: Db, r: nat, token: nat, t: nat, extend: nat)
    requires WellFormed(db) && RowLive(db, r, token)
    ensures RowLive(RenewWork(db, t, extend).0, r, token) <==> !ReleasesRow(db, OpRenewWork(t, extend), r, token)
  {
    RowIsUnique(db, r, token);
  }

  lemma AckReleases(db: Db, r: nat, token: nat, t: nat, a: AckArgs)
    requires WellFormed(db) && RowLive(db, r, token)
    ensures RowLive(AckOrchestration(db, t, a).0, r, token) <==> !ReleasesRow(db, OpAck(t, a), r, token)
  {
  }

  lemma OthersRelease(db: Db, r: nat, token: nat, s: nat, timeout: nat, ids: set<string>, force: bool)
    requires WellFormed(db) && RowLive(db, r, token)
    ensures RowLive(FetchWork(db, s, timeout).0, r, token)
    ensures RowLive(DeleteInstances(db, ids, force).0, r, token) <==> !ReleasesRow(db, OpDelete(ids, force), r, token)
  {
  }

  /** A live worker token stays live until one of these happens, and not a step longer. */
  lemma RowLiveUntilReleased(db: Db, op: Op, r: nat, token: nat)
    requires WellFormed(db) && RowLive(db, r, token)
    ensures RowLive(Step(db, op), r, token) <==> !ReleasesRow(db, op, r, token)
  {
    hide AckOrchestration, AckWork, DeleteInstances, FetchWork, AbandonWork, RenewWork, TokensOk, ForestOk;
    match op
    case OpAck(t, a) => AckReleases(db, r, token, t, a);
    case OpAckWork(t, c) => AckWorkReleases(db, r, token, t, c);
    case OpRenewWork(t, extend) => RenewWorkReleases(db, r, token, t, extend);
    case OpAbandonWork(t, delay, ignore) => AbandonWorkReleases(db, r, token, t, delay, ignore);
    case OpFetchWork(s, timeout) => OthersRelease(db, r, token, s, timeout, {}, false);
    case OpDelete(ids, force) => OthersRelease(db, r, token, 0, 0, ids, force);
    case _ => StepFrame(db, op);
  }

  lemma {:induction false} InsertedRows(wq: map<nat, Row>, base: nat, keys: seq<ActivityKey>, now: nat, n: nat)
    requires n < |keys|
    ensures Lookup(InsertRows(wq, base, keys, now), base + n) == Some(Row(keys[n], now, None, 0))
  {
    var last := |keys| - 1;
    if n < last {
      InsertedRows(wq, base, keys[..last], now, n);
    }
  }

  /** An accepted ack schedules each of its activities once, in order, unless it cancels it as well. */
  lemma AckSchedulesExactly(db: Db, token: nat, a: AckArgs, n: nat)
    requires AckAccepted(db, token, a) && n < |a.workerItems|
    ensures Lookup(AckOrchestration(db, token, a).0.wq, db.nextRow + n)
            == if a.workerItems[n] in a.cancelled then None else Some(Row(a.workerItems[n], db.now, None, 0))
  {
    InsertedRows(db.wq, db.nextRow, a.workerItems, db.now, n);
  }

  // ---------------------------------------------------------------- order

  /** The row the fetch query picks: the available one with the least id. */
  ghost predicate IsFirst(db: Db, r: nat) {
    RowAvailable(db, r) && forall s :: RowAvailable(db, s) ==> r <= s
  }

  /** Fetching until nothing is available hands out these rows. */
  ghost predicate Drains(db: Db, order: seq<nat>, timeout: nat)
    decreases order
  {
    if order == [] then forall r :: !RowAvailable(db, r)
    else IsFirst(db, order[0]) && Drains(FetchWork(db, order[0], timeout).0, order[1..], timeout)
  }

  /** Draining hands out exactly the available rows, each once, in the order they were enqueued. */
  lemma {:induction false} DrainIsFifo(db: Db, order: seq<nat>, timeout: nat)
    requires Drains(db, order, timeout) && timeout > 0
    ensures forall a, b :: 0 <= a < b < |order| ==> order[a] < order[b]
    ensures forall r :: r in order <==> RowAvailable(db, r)
    decreases order
  {
    if order != [] {
      var next := FetchWork(db, order[0], timeout).0;
      DrainIsFifo(next, order[1..], timeout);
      assert forall r :: RowAvailable(next, r) <==> RowAvailable(db, r) && r != order[0];
      assert forall r :: r in order <==> r == order[0] || r in order[1..];
      assert forall a :: 0 < a < |order| ==> order[a] == order[1..][a - 1];
      assert forall a :: 0 < a < |order| ==> order[a] in order[1..];
    }
  }
}
