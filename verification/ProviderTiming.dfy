/**
 When work shows up again, whatever happens in between: a message is fetchable exactly from the time
 it is due, an instance and its whole batch exactly from the expiry of an unrenewed lock, a worker
 row exactly from the expiry of its lock or the end of its delay.
 */
module ProviderTiming {
  import opened Common
  import opened ProviderDb
  import opened ProviderFrames
  import opened ProviderFencing
  import opened ProviderHistory
  import opened ProviderInstances
  import opened ProviderMessages
  import opened ProviderWorker

  // ---------------------------------------------------------------- messages

  /** The step is an abandon that delays the message. */
  ghost predicate Delays(db: Db, op: Op, m: nat)
    requires m in db.oq
  {
    op.OpAbandon? && op.delay.Some? && HolderOf(db, op.token) == Some(db.oq[m].instance) && db.oq[m].visibleAt <= db.now
  }

  ghost predicate DueEvolves(op: Op, a: Db, b: Db) {
    forall m :: m in a.oq && m in b.oq ==>
      b.oq[m].visibleAt == if Delays(a, op, m) then a.now + op.delay.value else a.oq[m].visibleAt
  }

  lemma EnqueueDue(db: Db, item: WorkItem, delay: Option<nat>)
    requires MsgIdsOk(db)
    ensures DueEvolves(OpEnqueue(item, delay), db, EnqueueOrchestrator(db, item, delay).0)
  {
  }

  lemma FetchDue(db: Db, i: string, timeout: nat)
    ensures DueEvolves(OpFetch(i, timeout), db, FetchOrchestration(db, i, timeout).0)
  {
    hide HasContext;
  }

  lemma AckDue(db: Db, t: nat, a: AckArgs)
    requires MsgIdsOk(db)
    ensures DueEvolves(OpAck(t, a), db, AckOrchestration(db, t, a).0)
  {
    if AckAccepted(db, t, a) {
      var kept := WithoutTag(db.oq, t);
      assert AckOrchestration(db, t, a).0.oq == InsertMsgs(kept, db.nextMsg, a.orchestratorItems, db.now);
    }
  }

  lemma AbandonDue(db: Db, t: nat, delay: Option<nat>, ignore: bool)
    ensures DueEvolves(OpAbandon(t, delay, ignore), db, AbandonOrchestration(db, t, delay, ignore).0)
  {
  }

  lemma AckWorkDue(db: Db, t: nat, c: Option<WorkItem>)
    requires MsgIdsOk(db)
    ensures DueEvolves(OpAckWork(t, c), db, AckWork(db, t, c).0)
  {
  }

  lemma DeleteDue(db: Db, ids: set<string>, force: bool)
    ensures DueEvolves(OpDelete(ids, force), db, DeleteInstances(db, ids, force).0)
  {
  }

  lemma StepDue(db: Db, op: Op)
    requires WellFormed(db)
    ensures DueEvolves(op, db, Step(db, op))
  {
    hide EnqueueOrchestrator, FetchOrchestration, AckOrchestration, AbandonOrchestration, AckWork, DeleteInstances;
    hide LockTokensOk, RowTokensOk, RowIdsOk, ForestOk;
    match op
    case OpEnqueue(item, delay) => EnqueueDue(db, item, delay);
    case OpFetch(i, timeout) => FetchDue(db, i, timeout);
    case OpAck(t, a) => AckDue(db, t, a);
    case OpAbandon(t, delay, ignore) => AbandonDue(db, t, delay, ignore);
    case OpAckWork(t, c) => AckWorkDue(db, t, c);
    case OpDelete(ids, force) => DeleteDue(db, ids, force);
    case _ => StepFrame(db, op);
  }

  ghost predicate DelayedAt(ops: seq<Op>, j: nat, m: nat)
    requires j < |ops|
  {
    m in At(ops, j).oq && Delays(At(ops, j), ops[j], m)
  }

  lemma OneStepDue(ops: seq<Op>, j: nat, m: nat)
    requires j < |ops| && m < At(ops, j).nextMsg && m in At(ops, j + 1).oq && !DelayedAt(ops, j, m)
    ensures m in At(ops, j).oq && At(ops, j + 1).oq[m].visibleAt == At(ops, j).oq[m].visibleAt
  {
    OneStepFate(ops, j, m);
    ReachableIsWellFormed(ops, j);
    StepDue(At(ops, j), ops[j]);
    assert At(ops, j + 1) == Step(At(ops, j), ops[j]);
  }

  lemma {:induction false} DueStays(ops: seq<Op>, k: nat, n: nat, m: nat)
    requires k <= n <= |ops| && m in At(ops, k).oq && m in At(ops, n).oq
    requires forall j :: k <= j < n ==> !DelayedAt(ops, j, m)
    ensures At(ops, n).oq[m].visibleAt == At(ops, k).oq[m].visibleAt
    ensures At(ops, n).oq[m].instance == At(ops, k).oq[m].instance
  {
    hide At, Step, DelayedAt, RemovedAt;
    MessagesAreConserved(ops, k, n, m);
    if k < n {
      MessagesAreConserved(ops, k, n - 1, m);
      OneStepDue(ops, n - 1, m);
      DueStays(ops, k, n - 1, m);
    }
  }

  /**
   Over any run: as long as a message is queued and no abandon delays it, a fetch of its instance
   would return it exactly from the time it was due at.
   */
  lemma MessageShowsWhenDue(ops: seq<Op>, k: nat, n: nat, m: nat)
    requires k <= n <= |ops| && m in At(ops, k).oq && m in At(ops, n).oq
    requires forall j :: k <= j < n ==> !DelayedAt(ops, j, m)
    ensures m in Batch(At(ops, n), At(ops, k).oq[m].instance) <==> At(ops, k).oq[m].visibleAt <= At(ops, n).now
  {
    hide At, DelayedAt;
    DueStays(ops, k, n, m);
  }

  /**
   A message enqueued with a delay shows for its addressee exactly when the delay is over, with its
   content unchanged, whatever happens in between.
   */
  lemma DelayedMessageAppears(ops: seq<Op>, k: nat, n: nat, item: WorkItem, delay: Option<nat>)
    requires k < n <= |ops| && ops[k] == OpEnqueue(item, delay) && !item.ActivityExecute?
    requires var m := At(ops, k).nextMsg; m in At(ops, n).oq && forall j :: k < j < n ==> !DelayedAt(ops, j, m)
    ensures Addressee(item).Some?
    ensures At(ops, n).oq[At(ops, k).nextMsg].item == item
    ensures At(ops, k).nextMsg in Batch(At(ops, n), Addressee(item).value)
            <==> At(ops, k).now + (if delay.Some? then delay.value else 0) <= At(ops, n).now
  {
    hide DelayedAt, At, Step, RemovedAt, EnqueueOrchestrator, Addressee;
    var m := At(ops, k).nextMsg;
    EnqueuedMessage(ops, k, item, delay);
    MessagesAreConserved(ops, k + 1, n, m);
    MessageShowsWhenDue(ops, k + 1, n, m);
  }

  lemma EnqueuedMessage(ops: seq<Op>, k: nat, item: WorkItem, delay: Option<nat>)
    requires k < |ops| && ops[k] == OpEnqueue(item, delay) && !item.ActivityExecute?
    ensures Addressee(item).Some?
    ensures Lookup(At(ops, k + 1).oq, At(ops, k).nextMsg)
            == Some(Msg(item, Addressee(item).value,
                        At(ops, k).now + (if delay.Some? then delay.value else 0), None, 0))
  {
    EnqueueIsExact(At(ops, k), item, delay);
    assert At(ops, k + 1) == EnqueueOrchestrator(At(ops, k), item, delay).0;
    hide At, EnqueueOrchestrator, Addressee;
  }

  /** After an abandon the instance is free until somebody fetches it. */
  lemma AbandonedIsFree(ops: seq<Op>, k: nat, n: nat, i: string, token: nat) returns (f: nat, t: nat, batch: set<nat>)
    requires k < n <= |ops| && ops[k].OpAbandon? && ops[k].token == token && Holds(At(ops, k), i, token)
    ensures i !in At(ops, n).locks || (k < f < n && FetchReturns(ops, f, i, t, batch))
  {
    f, t, batch := 0, 0, {};
    if i in At(ops, n).locks {
      t := At(ops, n).locks[i].token;
      assert Holds(At(ops, n), i, t);
      f, batch := HeldTokensWereFetched(ops, n, i, t);
      if f < k {
        ReachableIsWellFormed(ops, k);
        FetchedBeforeIsUnheld(ops, f, k, i, t, batch, token);
        UnheldForever(ops, k + 1, n, t);
        assert false;
      }
      assert f != k;
    }
  }

  /** Once a later holder abandoned the instance, no token from before holds it. */
  lemma FetchedBeforeIsUnheld(ops: seq<Op>, f: nat, k: nat, i: string, t: nat, batch: set<nat>, token: nat)
    requires f < k < |ops| && FetchReturns(ops, f, i, t, batch)
    requires ops[k].OpAbandon? && ops[k].token == token && Holds(At(ops, k), i, token)
    ensures Unheld(At(ops, k + 1), t)
  {
    var a, b := At(ops, k), At(ops, k + 1);
    ReachableIsWellFormed(ops, f);
    ReachableIsWellFormed(ops, k);
    FetchGivesFreshToken(At(ops, f), i, ops[f].timeout, t, batch);
    TokenStaysWithInstance(ops, f + 1, k, i, t);
    HolderIsUnique(a, i, token);
    assert b.locks == a.locks - {i} && b.nextToken == a.nextToken;
    forall j ensures !Holds(b, j, t) {
      assert Holds(b, j, t) ==> Holds(a, j, t);
    }
  }

  /**
   What was visible when the instance was abandoned is hidden exactly until the delay is over, or
   not at all without one.
   */
  lemma AbandonedMessagesReappear(ops: seq<Op>, k: nat, n: nat, i: string, token: nat, m: nat)
    requires k < n <= |ops| && ops[k].OpAbandon? && ops[k].token == token && Holds(At(ops, k), i, token)
    requires m in Batch(At(ops, k), i) && m in At(ops, n).oq && forall j :: k < j < n ==> !DelayedAt(ops, j, m)
    ensures m in Batch(At(ops, n), i)
            <==> (ops[k].delay.Some? ==> At(ops, k).now + ops[k].delay.value <= At(ops, n).now)
  {
    hide DelayedAt;
    ReachableIsWellFormed(ops, k);
    HolderIsUnique(At(ops, k), i, token);
    assert At(ops, k + 1).oq == Abandoned(At(ops, k), i, ops[k].delay, ops[k].ignoreAttempt);
    RunAdvances(ops, k, n);
    MessageShowsWhenDue(ops, k + 1, n, m);
  }

  // ---------------------------------------------------------------- a held instance

  /** The lock of a token only moves by its own renewal, before it has run out. */
  lemma LockStays(db: Db, op: Op, i: string, token: nat)
    requires WellFormed(db) && Holds(db, i, token) && Holds(Step(db, op), i, token)
    requires !(op.OpRenew? && op.token == token && db.locks[i].until > db.now)
    ensures Step(db, op).locks[i] == db.locks[i]
  {
    HolderIsUnique(db, i, token);
    match op
    case OpFetch(j, timeout) => FetchLocks(db, j, timeout);
    case OpRenew(t, extend) => RenewMovesOneLock(db, t, extend, i, token);
    case OpAck(t, args) => AckMakesNoHold(db, t, args, token);
    case OpAbandon(t, delay, ignore) => AbandonMakesNoHold(db, t, delay, ignore, token);
    case OpDelete(ids, force) => DeleteMakesNoHold(db, ids, force, token);
    case OpTick(duration) =>
    case _ => LocksUntouched(db, op);
  }

  lemma RenewMovesOneLock(db: Db, t: nat, extend: nat, i: string, token: nat)
    requires WellFormed(db) && Holds(db, i, token)
    ensures var after := RenewOrchestration(db, t, extend).0;
            i in after.locks
            && after.locks[i] == if t == token && db.locks[i].until > db.now then Lock(token, db.now + extend)
                                 else db.locks[i]
  {
    HolderIsUnique(db, i, token);
    if Live(db, t) {
      var j :| j in db.locks && Holds(db, j, t) && db.locks[j].until > db.now;
      HolderIsUnique(db, j, t);
    }
  }

  /** The step hands the instance out under this token, or renews the lock of this token before it ran out. */
  ghost predicate Grants(ops: seq<Op>, s: nat, i: string, token: nat)
    requires s < |ops|
  {
    var db := At(ops, s);
    match ops[s]
    case OpFetch(j, timeout) =>
      j == i && FetchOrchestration(db, i, timeout).1.Fetched? && FetchOrchestration(db, i, timeout).1.token == token
    case OpRenew(t, _) => t == token && Holds(db, i, token) && db.locks[i].until > db.now
    case _ => false
  }

  /** The time a grant lasts to: the lock timeout of the fetch, or the extension, from then on. */
  ghost function GrantedUntil(ops: seq<Op>, s: nat): nat
    requires s < |ops|
  {
    At(ops, s).now + match ops[s] case OpFetch(_, timeout) => timeout case OpRenew(_, extend) => extend case _ => 0
  }

  lemma GrantSetsLock(ops: seq<Op>, s: nat, i: string, token: nat)
    requires s < |ops| && Grants(ops, s, i, token)
    ensures Holds(At(ops, s + 1), i, token) && At(ops, s + 1).locks[i].until == GrantedUntil(ops, s)
  {
    ReachableIsWellFormed(ops, s);
    var db, op := At(ops, s), ops[s];
    assert At(ops, s + 1) == Step(db, op);
    if op.OpRenew? {
      RenewMovesOneLock(db, token, op.extend, i, token);
    } else {
      assert FetchOrchestration(db, i, op.timeout).0 == FetchEffects(db, i, op.timeout);
    }
  }

  lemma NoGrantKeepsLock(ops: seq<Op>, s: nat, i: string, token: nat)
    requires s < |ops| && !Grants(ops, s, i, token) && Holds(At(ops, s + 1), i, token)
    ensures Holds(At(ops, s), i, token) && At(ops, s + 1).locks[i] == At(ops, s).locks[i]
  {
    ReachableIsWellFormed(ops, s);
    var db, op := At(ops, s), ops[s];
    assert At(ops, s + 1) == Step(db, op);
    if !Holds(db, i, token) {
      NewHoldsAreFetches(db, op, i, token);
    }
    hide At, Step;
    LockStays(db, op, i, token);
  }

  /** A held lock always runs from the last fetch or renewal of its token. */
  lemma {:induction false} LockRunsFromLastGrant(ops: seq<Op>, n: nat, i: string, token: nat) returns (s: nat)
    requires n <= |ops| && Holds(At(ops, n), i, token)
    ensures s < n && Grants(ops, s, i, token) && forall j :: s < j < n ==> !Grants(ops, j, i, token)
    ensures At(ops, n).locks[i].until == GrantedUntil(ops, s)
  {
    assert n > 0;
    hide At, Grants;
    if Grants(ops, n - 1, i, token) {
      GrantSetsLock(ops, n - 1, i, token);
      s := n - 1;
    } else {
      NoGrantKeepsLock(ops, n - 1, i, token);
      s := LockRunsFromLastGrant(ops, n - 1, i, token);
    }
  }

  /**
   As long as a token keeps its lock it can ack, renew and so on exactly until the time its last fetch or
   renewal gave it has passed.
   */
  lemma HeldTokenIsLiveUntilGranted(ops: seq<Op>, s: nat, n: nat, i: string, token: nat)
    requires s < n <= |ops| && Grants(ops, s, i, token) && forall j :: s < j < n ==> !Grants(ops, j, i, token)
    requires Holds(At(ops, n), i, token)
    ensures At(ops, n).locks[i].until == GrantedUntil(ops, s)
    ensures Live(At(ops, n), token) <==> At(ops, n).now < GrantedUntil(ops, s)
  {
    var last := LockRunsFromLastGrant(ops, n, i, token);
    assert last == s;
    ReachableIsWellFormed(ops, n);
    ExpiredIsDead(At(ops, n), i, token);
    TokenIsOld(At(ops, n), i, token);
  }

  lemma TokenIsOld(db: Db, i: string, token: nat)
    requires WellFormed(db) && Holds(db, i, token)
    ensures token < db.nextToken
  {
  }

  /** The step takes the lock of the instance away. */
  ghost predicate TakesLock(db: Db, op: Op, i: string) {
    match op
    case OpAck(t, args) => AckAccepted(db, t, args) && HolderOf(db, t) == Some(i)
    case OpAbandon(t, _, _) => HolderOf(db, t) == Some(i)
    case OpFetch(j, timeout) => j == i && !FetchOrchestration(db, j, timeout).1.NothingFetched?
    case OpDelete(ids, force) => DeleteAccepted(db, ids, force) && i in ids
    case _ => false
  }

  lemma TakenIsNotHeld(db: Db, op: Op, i: string, token: nat)
    requires WellFormed(db) && Holds(db, i, token) && TakesLock(db, op, i)
    ensures !Holds(Step(db, op), i, token)
  {
    hide HasContext;
  }

  /** The batch is still queued for the instance and visible. */
  ghost predicate BatchWaits(db: Db, i: string, batch: set<nat>) {
    forall m :: m in batch ==> m in db.oq && db.oq[m].instance == i && db.oq[m].visibleAt <= db.now
  }

  lemma BatchStays(db: Db, op: Op, i: string, token: nat, batch: set<nat>)
    requires WellFormed(db) && Holds(db, i, token) && !TakesLock(db, op, i)
    requires BatchWaits(db, i, batch) && BatchIs(db, i, token, batch)
    ensures BatchWaits(Step(db, op), i, batch)
    ensures forall m :: m in batch ==> Step(db, op).oq[m].item == db.oq[m].item
  {
    StepEvolves(db, op);
    StepDue(db, op);
    StepFrame(db, op);
    HolderIsUnique(db, i, token);
    hide Step, WellFormed, Gone, TagsFresh, Delays, TakesLock, BatchIs;
    forall m | m in batch ensures m in db.oq && m !in Gone(db, op) && !Delays(db, op, m) {
      BatchIsSpared(db, op, i, token, batch, m);
    }
  }

  /** A step that leaves the lock alone neither removes nor delays a message of the batch. */
  lemma BatchIsSpared(db: Db, op: Op, i: string, token: nat, batch: set<nat>, m: nat)
    requires WellFormed(db) && Holds(db, i, token) && !TakesLock(db, op, i) && m in batch
    requires BatchWaits(db, i, batch) && BatchIs(db, i, token, batch)
    ensures m in db.oq && m !in Gone(db, op) && !Delays(db, op, m)
  {
    HolderIsUnique(db, i, token);
    hide WellFormed, HasContext;
    assert m in db.oq && db.oq[m].tag == Some(token) && db.oq[m].instance == i;
  }

  /** Neither the histories nor the executions of the instance change, and it keeps its row. */
  ghost predicate SameRecords(a: Db, b: Db, i: string) {
    && (i in a.instances ==> i in b.instances)
    && (i !in a.instances ==>
          && (forall k: ExecutionKey :: k.instance == i ==> Lookup(a.executions, k) == Lookup(b.executions, k))
          && (forall k: EventKey :: k.instance == i ==> Lookup(a.history, k) == Lookup(b.history, k)))
  }

  lemma AckSameRecords(db: Db, t: nat, a: AckArgs, i: string)
    requires !(AckAccepted(db, t, a) && HolderOf(db, t) == Some(i))
    ensures SameRecords(db, AckOrchestration(db, t, a).0, i)
  {
    if AckAccepted(db, t, a) {
      AppendIsExact(db.history, HolderOf(db, t).value, a.execution, a.delta);
    }
  }

  lemma DeleteSameRecords(db: Db, ids: set<string>, force: bool, i: string)
    requires !(DeleteAccepted(db, ids, force) && i in ids)
    ensures SameRecords(db, DeleteInstances(db, ids, force).0, i)
  {
  }

  lemma PruneSameRecords(db: Db, j: string, options: PruneOptions, i: string)
    ensures SameRecords(db, PruneExecutions(db, j, options).0, i)
  {
  }

  lemma RecordsStay(db: Db, op: Op, i: string)
    requires !TakesLock(db, op, i)
    ensures SameRecords(db, Step(db, op), i)
  {
    hide AckOrchestration, DeleteInstances, PruneExecutions;
    match op
    case OpAck(t, a) => AckSameRecords(db, t, a, i);
    case OpDelete(ids, force) => DeleteSameRecords(db, ids, force, i);
    case OpPrune(j, options) => PruneSameRecords(db, j, options, i);
    case _ => StepFrame(db, op);
  }

  /** What a fetch of the instance goes by: its row, its history, or a start item in the batch. */
  ghost predicate ContextIn(db: Db, i: string, batch: set<nat>) {
    || i in db.instances
    || (exists k :: k in db.history && k.instance == i && db.history[k] == OrchestrationStarted
                    && IsLatestExecution(db, i, k.execution))
    || (exists m :: m in batch && m in db.oq && IsStart(db.oq[m].item))
  }

  lemma ContextStays(a: Db, b: Db, i: string, batch: set<nat>)
    requires ContextIn(a, i, batch) && SameRecords(a, b, i)
    requires forall m :: m in batch ==> m in a.oq && m in b.oq && b.oq[m].item == a.oq[m].item
    ensures ContextIn(b, i, batch)
  {
    if i !in a.instances {
      if k :| k in a.history && k.instance == i && a.history[k] == OrchestrationStarted
              && IsLatestExecution(a, i, k.execution) {
        assert Lookup(a.history, k) == Lookup(b.history, k);
        SameLatest(a, b, i, k.execution);
      }
    }
  }

  lemma SameLatest(a: Db, b: Db, i: string, e: nat)
    requires forall k: ExecutionKey :: k.instance == i ==> Lookup(a.executions, k) == Lookup(b.executions, k)
    requires IsLatestExecution(a, i, e)
    ensures IsLatestExecution(b, i, e)
  {
    forall k | k in b.executions && k.instance == i ensures k in a.executions {
      assert Lookup(a.executions, k) == Lookup(b.executions, k);
    }
    assert Lookup(a.executions, ExecutionKey(i, e)) == Lookup(b.executions, ExecutionKey(i, e));
  }

  /** Everything the next fetch of a held instance goes by. */
  ghost predicate Waits(db: Db, i: string, token: nat, batch: set<nat>) {
    && Holds(db, i, token) && token < db.nextToken
    && BatchIs(db, i, token, batch) && BatchWaits(db, i, batch) && ContextIn(db, i, batch)
  }

  lemma FetchWaits(db: Db, i: string, timeout: nat, token: nat, batch: set<nat>)
    requires WellFormed(db) && FetchOrchestration(db, i, timeout).1 == Fetched(token, batch)
    ensures Waits(FetchOrchestration(db, i, timeout).0, i, token, batch)
  {
    FetchSetsBatch(db, i, timeout, token, batch);
    var after := FetchEffects(db, i, timeout);
    assert HasContext(db, i) ==> ContextIn(db, i, batch);
    ContextStays(db, after, i, batch);
  }

  lemma WaitsOn(db: Db, op: Op, i: string, token: nat, batch: set<nat>)
    requires WellFormed(db) && Waits(db, i, token, batch) && Holds(Step(db, op), i, token)
    ensures Waits(Step(db, op), i, token, batch)
  {
    hide Step, WellFormed, TakesLock, ContextIn, BatchIs, BatchWaits, SameRecords;
    assert !TakesLock(db, op, i) by {
      if TakesLock(db, op, i) {
        TakenIsNotHeld(db, op, i, token);
      }
    }
    StepKeepsBatch(db, op, i, token, batch);
    BatchStays(db, op, i, token, batch);
    RecordsStay(db, op, i);
    StepFrame(db, op);
    BatchIsQueued(db, i, batch);
    BatchIsQueued(Step(db, op), i, batch);
    ContextStays(db, Step(db, op), i, batch);
  }

  lemma BatchIsQueued(db: Db, i: string, batch: set<nat>)
    requires BatchWaits(db, i, batch)
    ensures forall m :: m in batch ==> m in db.oq
  {
  }

  lemma {:induction false} HeldInstanceWaits(ops: seq<Op>, f: nat, n: nat, i: string, token: nat, batch: set<nat>)
    requires f < n <= |ops| && FetchReturns(ops, f, i, token, batch) && Holds(At(ops, n), i, token)
    ensures Waits(At(ops, n), i, token, batch)
  {
    hide WellFormed, Waits, FetchOrchestration;
    if n == f + 1 {
      ReachableIsWellFormed(ops, f);
      FetchWaits(At(ops, f), i, ops[f].timeout, token, batch);
    } else {
      HoldsBefore(ops, f, n, i, token, batch);
      HeldInstanceWaits(ops, f, n - 1, i, token, batch);
      ReachableIsWellFormed(ops, n - 1);
      WaitsOn(At(ops, n - 1), ops[n - 1], i, token, batch);
    }
  }

  lemma ReturnedIsNotEmpty(ops: seq<Op>, f: nat, i: string, token: nat, batch: set<nat>)
    requires f < |ops| && FetchReturns(ops, f, i, token, batch)
    ensures ops[f].OpFetch? && batch != {}
  {
    hide At, HasContext;
  }

  lemma WaitingIsFetchable(db: Db, i: string, token: nat, batch: set<nat>, timeout: nat)
    requires Waits(db, i, token, batch) && batch != {}
    ensures var again := FetchOrchestration(db, i, timeout).1;
            && (again.Fetched? <==> db.locks[i].until <= db.now)
            && (again.Fetched? ==> batch <= again.batch && again.token != token)
  {
    assert batch <= Batch(db, i);
    assert HasContext(db, i);
  }

  /**
   Work that is not acked comes back: after any run in which the token still has its lock, the instance
   can be fetched exactly from the time its last fetch or renewal lasts to, and the fetch returns the
   whole batch, and whatever arrived meanwhile, under a new token.
   */
  lemma UnackedBatchIsRedelivered(
    ops: seq<Op>, f: nat, s: nat, n: nat, i: string, token: nat, batch: set<nat>, timeout: nat)
    requires f <= s < n <= |ops| && FetchReturns(ops, f, i, token, batch) && Holds(At(ops, n), i, token)
    requires Grants(ops, s, i, token) && forall j :: s < j < n ==> !Grants(ops, j, i, token)
    ensures var again := FetchOrchestration(At(ops, n), i, timeout).1;
            && (again.Fetched? <==> GrantedUntil(ops, s) <= At(ops, n).now)
            && (again.Fetched? ==> batch <= again.batch && again.token != token)
  {
    hide At, Waits, FetchOrchestration, FetchReturns, Holds, Grants, GrantedUntil;
    ReturnedIsNotEmpty(ops, f, i, token, batch);
    HeldInstanceWaits(ops, f, n, i, token, batch);
    HeldTokenIsLiveUntilGranted(ops, s, n, i, token);
    WaitingIsFetchable(At(ops, n), i, token, batch, timeout);
  }

  // ---------------------------------------------------------------- worker rows

  /** The step fetches the row, or abandons or renews it with its token. */
  ghost predicate HandlesRow(db: Db, op: Op, r: nat) {
    match op
    case OpFetchWork(s, _) => s == r && RowAvailable(db, r)
    case OpAbandonWork(t, _, _) => RowHolds(db, r, t)
    case OpRenewWork(t, _) => RowHolds(db, r, t)
    case _ => false
  }

  ghost predicate RowsStay(op: Op, a: Db, b: Db) {
    forall r :: r in a.wq && r in b.wq && !HandlesRow(a, op, r) ==> b.wq[r] == a.wq[r]
  }

  lemma AckRowsStay(db: Db, t: nat, a: AckArgs)
    requires RowIdsOk(db)
    ensures RowsStay(OpAck(t, a), db, AckOrchestration(db, t, a).0)
  {
    if AckAccepted(db, t, a) {
      var inserted := InsertRows(db.wq, db.nextRow, a.workerItems, db.now);
      assert AckOrchestration(db, t, a).0.wq == WithoutKeys(inserted, a.cancelled);
    }
  }

  lemma WorkRowsStay(db: Db, t: nat, delay: Option<nat>, ignore: bool, extend: nat)
    ensures RowsStay(OpAbandonWork(t, delay, ignore), db, AbandonWork(db, t, delay, ignore).0)
    ensures RowsStay(OpRenewWork(t, extend), db, RenewWork(db, t, extend).0)
  {
  }

  lemma OtherRowsStay(db: Db, s: nat, timeout: nat, t: nat, c: Option<WorkItem>, ids: set<string>, force: bool)
    ensures RowsStay(OpFetchWork(s, timeout), db, FetchWork(db, s, timeout).0)
    ensures RowsStay(OpAckWork(t, c), db, AckWork(db, t, c).0)
    ensures RowsStay(OpDelete(ids, force), db, DeleteInstances(db, ids, force).0)
  {
  }

  lemma EnqueueRowsStay(db: Db, key: ActivityKey)
    requires RowIdsOk(db)
    ensures RowsStay(OpEnqueueWorker(key), db, EnqueueWorker(db, key))
  {
  }

  lemma StepRowsStay(db: Db, op: Op)
    requires WellFormed(db)
    ensures RowsStay(op, db, Step(db, op))
  {
    hide AckOrchestration, AckWork, DeleteInstances, FetchWork, AbandonWork, RenewWork, EnqueueWorker;
    hide LockTokensOk, RowTokensOk, MsgIdsOk, ForestOk;
    match op
    case OpAck(t, a) => AckRowsStay(db, t, a);
    case OpFetchWork(s, timeout) => OtherRowsStay(db, s, timeout, 0, None, {}, false);
    case OpAckWork(t, c) => OtherRowsStay(db, 0, 0, t, c, {}, false);
    case OpDelete(ids, force) => OtherRowsStay(db, 0, 0, 0, None, ids, force);
    case OpAbandonWork(t, delay, ignore) => WorkRowsStay(db, t, delay, ignore, 0);
    case OpRenewWork(t, extend) => WorkRowsStay(db, t, None, false, extend);
    case OpEnqueueWorker(key) => EnqueueRowsStay(db, key);
    case _ => StepFrame(db, op);
  }

  ghost predicate HandledAt(ops: seq<Op>, j: nat, r: nat)
    requires j < |ops|
  {
    HandlesRow(At(ops, j), ops[j], r)
  }

  lemma OneStepRow(ops: seq<Op>, j: nat, r: nat)
    requires j < |ops| && r < At(ops, j).nextRow && r in At(ops, j + 1).wq && !HandledAt(ops, j, r)
    ensures r in At(ops, j).wq && At(ops, j + 1).wq[r] == At(ops, j).wq[r]
  {
    OneRowStep(ops, j, r);
    ReachableIsWellFormed(ops, j);
    StepRowsStay(At(ops, j), ops[j]);
    assert At(ops, j + 1) == Step(At(ops, j), ops[j]);
  }

  /** A row nobody fetches, abandons or renews stays as it is, for as long as it is queued. */
  lemma {:induction false} UnhandledRowStays(ops: seq<Op>, k: nat, n: nat, r: nat)
    requires k <= n <= |ops| && r in At(ops, k).wq && r in At(ops, n).wq
    requires forall j :: k <= j < n ==> !HandledAt(ops, j, r)
    ensures At(ops, n).wq[r] == At(ops, k).wq[r]
  {
    hide At, Step, HandledAt, RowGoneAt;
    RowsAreConserved(ops, k, n, r);
    if k < n {
      RowsAreConserved(ops, k, n - 1, r);
      OneStepRow(ops, n - 1, r);
      UnhandledRowStays(ops, k, n - 1, r);
    }
  }

  /** A row enqueued for a worker is available, for its activity, until somebody fetches it. */
  lemma EnqueuedRowIsAvailable(ops: seq<Op>, k: nat, n: nat, key: ActivityKey)
    requires k < n <= |ops| && ops[k] == OpEnqueueWorker(key)
    requires var r := At(ops, k).nextRow; r in At(ops, n).wq && forall j :: k < j < n ==> !HandledAt(ops, j, r)
    ensures var r := At(ops, k).nextRow;
            RowAvailable(At(ops, n), r) && At(ops, n).wq[r].key == key && At(ops, n).wq[r].attempts == 0
  {
    hide HandledAt;
    assert At(ops, k + 1) == EnqueueWorker(At(ops, k), key);
    UnhandledRowStays(ops, k + 1, n, At(ops, k).nextRow);
    RunAdvances(ops, k, n);
  }

  /** The step hands the row out under this token, or renews the row's lock before it ran out. */
  ghost predicate GrantsRow(ops: seq<Op>, s: nat, r: nat, token: nat)
    requires s < |ops|
  {
    var db := At(ops, s);
    match ops[s]
    case OpFetchWork(x, _) => x == r && RowAvailable(db, r) && token == db.nextToken
    case OpRenewWork(t, _) => t == token && RowHolds(db, r, token) && db.wq[r].lock.value.until > db.now
    case _ => false
  }

  ghost function RowGrantedUntil(ops: seq<Op>, s: nat): nat
    requires s < |ops|
  {
    At(ops, s).now
    + match ops[s] case OpFetchWork(_, timeout) => timeout case OpRenewWork(_, extend) => extend case _ => 0
  }

  lemma RenewMovesOneRow(db: Db, t: nat, extend: nat, r: nat, token: nat)
    requires WellFormed(db) && RowHolds(db, r, token)
    ensures var after := RenewWork(db, t, extend).0;
            r in after.wq
            && after.wq[r] == if t == token && db.wq[r].lock.value.until > db.now
                              then db.wq[r].(lock := Some(Lock(token, db.now + extend))) else db.wq[r]
  {
    RowIsUnique(db, r, token);
  }

  lemma GrantSetsRowLock(ops: seq<Op>, s: nat, r: nat, token: nat)
    requires s < |ops| && GrantsRow(ops, s, r, token)
    ensures RowHolds(At(ops, s + 1), r, token) && At(ops, s + 1).wq[r].lock.value.until == RowGrantedUntil(ops, s)
    ensures At(ops, s + 1).wq[r].visibleAt == At(ops, s).wq[r].visibleAt
  {
    ReachableIsWellFormed(ops, s);
    assert At(ops, s + 1) == Step(At(ops, s), ops[s]);
    if ops[s].OpRenewWork? {
      RenewMovesOneRow(At(ops, s), token, ops[s].extend, r, token);
    }
  }

  lemma NoGrantKeepsRow(ops: seq<Op>, s: nat, r: nat, token: nat)
    requires s < |ops| && !GrantsRow(ops, s, r, token) && RowHolds(At(ops, s + 1), r, token)
    ensures RowHolds(At(ops, s), r, token) && At(ops, s + 1).wq[r] == At(ops, s).wq[r]
  {
    ReachableIsWellFormed(ops, s);
    var db, op := At(ops, s), ops[s];
    assert At(ops, s + 1) == Step(db, op);
    StepRowsStay(db, op);
    StepRows(db, op);
    if HandlesRow(db, op, r) {
      HandledRow(db, op, r, token);
    }
    hide RowGone, HandlesRow;
  }

  lemma HandledRow(db: Db, op: Op, r: nat, token: nat)
    requires WellFormed(db) && HandlesRow(db, op, r) && RowHolds(Step(db, op), r, token)
    ensures op.OpFetchWork? ==> op.row == r && RowAvailable(db, r) && token == db.nextToken
    ensures op.OpRenewWork? ==> RowHolds(db, r, token) && op.token == token
                                && (db.wq[r].lock.value.until <= db.now ==> Step(db, op).wq[r] == db.wq[r])
    ensures !op.OpAbandonWork?
  {
    match op
    case OpFetchWork(_, _) =>
    case OpRenewWork(t, extend) => RenewMovesOneRow(db, t, extend, r, t);
    case OpAbandonWork(t, delay, ignore) => AbandonedRow(db, r, t, delay, ignore);
  }

  /** The lock of a held row always runs from the last fetch or renewal under its token, and the row is visible. */
  lemma {:induction false} RowLockRunsFromLastGrant(ops: seq<Op>, n: nat, r: nat, token: nat) returns (s: nat)
    requires n <= |ops| && RowHolds(At(ops, n), r, token)
    ensures s < n && GrantsRow(ops, s, r, token) && forall j :: s < j < n ==> !GrantsRow(ops, j, r, token)
    ensures At(ops, n).wq[r].lock.value.until == RowGrantedUntil(ops, s)
    ensures At(ops, n).wq[r].visibleAt <= At(ops, n).now
  {
    assert n > 0;
    hide GrantsRow, Step;
    RunAdvances(ops, n - 1, n);
    if GrantsRow(ops, n - 1, r, token) {
      GrantSetsRowLock(ops, n - 1, r, token);
      s := n - 1;
      GrantedIsVisible(ops, n - 1, r, token);
    } else {
      NoGrantKeepsRow(ops, n - 1, r, token);
      s := RowLockRunsFromLastGrant(ops, n - 1, r, token);
    }
  }

  lemma {:induction false} GrantedIsVisible(ops: seq<Op>, s: nat, r: nat, token: nat)
    requires s < |ops| && GrantsRow(ops, s, r, token)
    ensures r in At(ops, s).wq && At(ops, s).wq[r].visibleAt <= At(ops, s).now
  {
    if ops[s].OpRenewWork? {
      HeldRowIsVisible(ops, s, r, token);
    }
  }

  lemma {:induction false} HeldRowIsVisible(ops: seq<Op>, n: nat, r: nat, token: nat)
    requires n <= |ops| && RowHolds(At(ops, n), r, token)
    ensures At(ops, n).wq[r].visibleAt <= At(ops, n).now
  {
    assert n > 0;
    hide Step;
    RunAdvances(ops, n - 1, n);
    if GrantsRow(ops, n - 1, r, token) {
      GrantSetsRowLock(ops, n - 1, r, token);
      if ops[n - 1].OpRenewWork? {
        HeldRowIsVisible(ops, n - 1, r, token);
      }
    } else {
      NoGrantKeepsRow(ops, n - 1, r, token);
      HeldRowIsVisible(ops, n - 1, r, token);
    }
  }

  /**
   A row that its worker holds and does not finish can be fetched again exactly from the time the last
   fetch or renewal under its token lasts to, and until then the worker can ack and renew.
   */
  lemma UnackedRowReappears(ops: seq<Op>, s: nat, n: nat, r: nat, token: nat)
    requires s < n <= |ops| && GrantsRow(ops, s, r, token) && RowHolds(At(ops, n), r, token)
    requires forall j :: s < j < n ==> !GrantsRow(ops, j, r, token)
    ensures RowAvailable(At(ops, n), r) <==> RowGrantedUntil(ops, s) <= At(ops, n).now
    ensures RowLive(At(ops, n), r, token) <==> At(ops, n).now < RowGrantedUntil(ops, s)
  {
    hide At, GrantsRow, RowGrantedUntil;
    var last := RowLockRunsFromLastGrant(ops, n, r, token);
    assert last == s;
  }

  /** An abandoned row that is still queued and was not fetched since is available exactly after its delay. */
  lemma AbandonedRowReappears(ops: seq<Op>, k: nat, n: nat, r: nat, token: nat)
    requires k < n <= |ops| && ops[k].OpAbandonWork? && ops[k].token == token && RowHolds(At(ops, k), r, token)
    requires r in At(ops, n).wq && forall j :: k < j < n ==> !HandledAt(ops, j, r)
    ensures RowAvailable(At(ops, n), r)
            <==> At(ops, k).now + (if ops[k].delay.Some? then ops[k].delay.value else 0) <= At(ops, n).now
  {
    hide HandledAt;
    ReachableIsWellFormed(ops, k);
    AbandonedRow(At(ops, k), r, token, ops[k].delay, ops[k].ignoreAttempt);
    assert At(ops, k + 1) == AbandonWork(At(ops, k), token, ops[k].delay, ops[k].ignoreAttempt).0;
    hide At, AbandonWork, WellFormed;
    UnhandledRowStays(ops, k + 1, n, r);
  }

  lemma AbandonedRow(db: Db, r: nat, token: nat, delay: Option<nat>, ignore: bool)
    requires WellFormed(db) && RowHolds(db, r, token)
    ensures var after := AbandonWork(db, token, delay, ignore).0;
            && r in after.wq && after.wq[r].lock == None
            && after.wq[r].visibleAt == db.now + (if delay.Some? then delay.value else 0)
  {
    RowIsUnique(db, r, token);
  }
}
