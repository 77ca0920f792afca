/**
 Conservation of orchestrator messages: in every run a queued message leaves the queue exactly
 once and only for one of three reasons, and an ack deletes exactly what its fetch returned.
 */
module ProviderMessages {
  import opened Common
  import opened ProviderDb
  import opened ProviderFrames
  import opened ProviderFencing

  /** The messages a step removes: an accepted ack, an orphan drop or a deletion. */
  ghost function Gone(db: Db, op: Op): set<nat> {
    match op
    case OpAck(token, args) =>
      if AckAccepted(db, token, args) then set m | m in db.oq && db.oq[m].tag == Some(token) else {}
    case OpFetch(i, timeout) =>
      if FetchOrchestration(db, i, timeout).1.DroppedOrphans? then Batch(db, i) else {}
    case OpDelete(ids, force) =>
      if DeleteAccepted(db, ids, force) then set m | m in db.oq && db.oq[m].instance in ids else {}
    case _ => {}
  }

  /** The messages a step tags, and with what. */
  ghost predicate TagsFresh(db: Db, op: Op, m: nat) {
    op.OpFetch? && FetchOrchestration(db, op.instance, op.timeout).1.Fetched? && m in Batch(db, op.instance)
  }

  ghost predicate Evolves(op: Op, a: Db, b: Db) {
    && (forall m :: m in a.oq ==> (m in b.oq <==> m !in Gone(a, op)))
    && (forall m :: m in a.oq && m in b.oq ==>
          && b.oq[m].item == a.oq[m].item && b.oq[m].instance == a.oq[m].instance
          && b.oq[m].tag == if TagsFresh(a, op, m) then Some(a.nextToken) else a.oq[m].tag)
    && (forall m :: m in b.oq && m !in a.oq ==> a.nextMsg <= m && b.oq[m].tag == None && b.oq[m].attempts == 0)
  }

  // ---------------------------------------------------------------- one step

  lemma EnqueueEvolves(db: Db, item: WorkItem, delay: Option<nat>)
    requires IdsOk(db)
    ensures Evolves(OpEnqueue(item, delay), db, EnqueueOrchestrator(db, item, delay).0)
  {
    hide RowIdsOk;
    assert db.nextMsg !in db.oq;
  }

  lemma FetchEvolves(db: Db, i: string, timeout: nat)
    ensures Evolves(OpFetch(i, timeout), db, FetchOrchestration(db, i, timeout).0)
  {
    hide HasContext, OnlyQueueMessages, Available;
    assert forall m :: m in FetchEffects(db, i, timeout).oq <==> m in db.oq;
    assert forall m :: m in DropEffects(db, i).oq <==> m in db.oq && m !in Batch(db, i);
  }

  lemma AckEvolves(db: Db, t: nat, a: AckArgs)
    requires IdsOk(db)
    ensures Evolves(OpAck(t, a), db, AckOrchestration(db, t, a).0)
  {
    if AckAccepted(db, t, a) {
      var kept := WithoutTag(db.oq, t);
      var after := AckOrchestration(db, t, a).0;
      assert after.oq == InsertMsgs(kept, db.nextMsg, a.orchestratorItems, db.now);
      assert forall m :: m in kept ==> m < db.nextMsg;
    }
  }

  lemma AbandonEvolves(db: Db, t: nat, delay: Option<nat>, ignore: bool)
    ensures Evolves(OpAbandon(t, delay, ignore), db, AbandonOrchestration(db, t, delay, ignore).0)
  {
  }

  lemma AckWorkEvolves(db: Db, t: nat, c: Option<WorkItem>)
    requires IdsOk(db)
    ensures Evolves(OpAckWork(t, c), db, AckWork(db, t, c).0)
  {
  }

  lemma DeleteEvolves(db: Db, ids: set<string>, force: bool)
    ensures Evolves(OpDelete(ids, force), db, DeleteInstances(db, ids, force).0)
  {
  }

  lemma StepEvolves(db: Db, op: Op)
    requires IdsOk(db)
    ensures Evolves(op, db, Step(db, op))
  {
    hide EnqueueOrchestrator, FetchOrchestration, AckOrchestration, AbandonOrchestration, AckWork, DeleteInstances;
    match op
    case OpEnqueue(item, delay) => EnqueueEvolves(db, item, delay);
    case OpFetch(i, timeout) => FetchEvolves(db, i, timeout);
    case OpAck(t, a) => AckEvolves(db, t, a);
    case OpAbandon(t, delay, ignore) => AbandonEvolves(db, t, delay, ignore);
    case OpAckWork(t, c) => AckWorkEvolves(db, t, c);
    case OpDelete(ids, force) => DeleteEvolves(db, ids, force);
    case _ => StepFrame(db, op);
  }

  // ---------------------------------------------------------------- whole runs

  ghost predicate RemovedAt(ops: seq<Op>, j: nat, m: nat)
    requires j < |ops|
  {
    m in At(ops, j).oq && m in Gone(At(ops, j), ops[j])
  }

  lemma OneStepFate(ops: seq<Op>, j: nat, m: nat)
    requires j < |ops| && m < At(ops, j).nextMsg
    ensures m < At(ops, j + 1).nextMsg
    ensures m in At(ops, j + 1).oq <==> m in At(ops, j).oq && !RemovedAt(ops, j, m)
    ensures m in At(ops, j + 1).oq ==>
              At(ops, j + 1).oq[m].item == At(ops, j).oq[m].item
                  && At(ops, j + 1).oq[m].instance == At(ops, j).oq[m].instance
  {
    ReachableIsWellFormed(ops, j);
    StepEvolves(At(ops, j), ops[j]);
    StepFrame(At(ops, j), ops[j]);
    assert At(ops, j + 1) == Step(At(ops, j), ops[j]);
  }

  /**
   Once queued, a message is queued for as long as no ack, orphan drop or deletion removed it, with
   its content unchanged; and a removed message never comes back.
   */
  lemma {:induction false} MessagesAreConserved(ops: seq<Op>, k: nat, n: nat, m: nat)
    requires k <= n <= |ops| && m in At(ops, k).oq
    ensures m in At(ops, n).oq <==> forall j :: k <= j < n ==> !RemovedAt(ops, j, m)
    ensures m in At(ops, n).oq ==>
              At(ops, n).oq[m].item == At(ops, k).oq[m].item && At(ops, n).oq[m].instance == At(ops, k).oq[m].instance
    ensures m < At(ops, n).nextMsg
  {
    hide At, Step, RemovedAt;
    if k < n {
      MessagesAreConserved(ops, k, n - 1, m);
      OneStepFate(ops, n - 1, m);
    } else {
      ReachableIsWellFormed(ops, k);
    }
  }

  /** Exactly once: no two steps of a run remove the same message. */
  lemma RemovedAtMostOnce(ops: seq<Op>, j: nat, k: nat, m: nat)
    requires j < |ops| && k < |ops| && RemovedAt(ops, j, m) && RemovedAt(ops, k, m)
    ensures j == k
  {
    if j < k {
      MessagesAreConserved(ops, j, k, m);
    } else if k < j {
      MessagesAreConserved(ops, k, j, m);
    }
  }

  /** Every held token was handed out by a fetch of that instance. */
  lemma {:induction false} HeldTokensWereFetched(ops: seq<Op>, n: nat, i: string, token: nat)
    returns (f: nat, batch: set<nat>)
    requires n <= |ops| && Holds(At(ops, n), i, token)
    ensures f < n && FetchReturns(ops, f, i, token, batch)
  {
    var db := At(ops, n - 1);
    if Holds(db, i, token) {
      f, batch := HeldTokensWereFetched(ops, n - 1, i, token);
    } else {
      NewHoldsAreFetches(db, ops[n - 1], i, token);
      f, batch := n - 1, Batch(db, i);
    }
  }

  lemma NewHoldsAreFetches(db: Db, op: Op, i: string, token: nat)
    requires !Holds(db, i, token) && Holds(Step(db, op), i, token)
    ensures op.OpFetch? && op.instance == i && FetchOrchestration(db, i, op.timeout).1 == Fetched(token, Batch(db, i))
  {
    match op
    case OpFetch(j, timeout) => FetchLocks(db, j, timeout);
    case OpRenew(t, extend) =>
    case OpAck(t, a) => AckMakesNoHold(db, t, a, token);
    case OpAbandon(t, delay, ignore) => AbandonMakesNoHold(db, t, delay, ignore, token);
    case OpDelete(ids, force) => DeleteMakesNoHold(db, ids, force, token);
    case OpTick(duration) => TickMakesNoHold(db, duration, token);
    case _ => LocksUntouched(db, op);
  }

  /** The queued messages that carry the token are those of the batch, and they belong to the instance. */
  ghost predicate BatchIs(db: Db, i: string, token: nat, batch: set<nat>) {
    && (forall m :: m in db.oq ==> (db.oq[m].tag == Some(token) <==> m in batch))
    && (forall m :: m in db.oq && m in batch ==> db.oq[m].instance == i)
    && (forall m :: m in batch ==> m < db.nextMsg)
    && token < db.nextToken
  }

  lemma FetchSetsBatch(db: Db, i: string, timeout: nat, token: nat, batch: set<nat>)
    requires WellFormed(db) && FetchOrchestration(db, i, timeout).1 == Fetched(token, batch)
    ensures BatchIs(FetchOrchestration(db, i, timeout).0, i, token, batch)
  {
  }

  /** A step that tags none of the batch keeps it marked. */
  lemma EvolvesKeepsBatch(op: Op, a: Db, b: Db, i: string, token: nat, batch: set<nat>)
    requires Evolves(op, a, b) && a.nextToken <= b.nextToken && a.nextMsg <= b.nextMsg && BatchIs(a, i, token, batch)
    requires forall m :: m in a.oq && TagsFresh(a, op, m) ==> m !in batch
    ensures BatchIs(b, i, token, batch)
  {
    hide Gone, TagsFresh;
    forall m | m in b.oq ensures b.oq[m].tag == Some(token) <==> m in batch {
      if m in a.oq {
        assert b.oq[m].tag == Some(token) ==> !TagsFresh(a, op, m);
      }
    }
  }

  /** A fetch tags messages of another instance, or takes the lock away. */
  lemma FetchMissesBatch(db: Db, j: string, timeout: nat, i: string, token: nat, batch: set<nat>)
    requires BatchIs(db, i, token, batch) && Holds(FetchOrchestration(db, j, timeout).0, i, token)
    ensures FetchOrchestration(db, j, timeout).1.Fetched? ==> Batch(db, j) !! batch
  {
    hide HasContext;
    if FetchOrchestration(db, j, timeout).1.Fetched? {
      assert FetchEffects(db, j, timeout).locks[j].token == db.nextToken;
    }
  }

  lemma StepKeepsBatch(db: Db, op: Op, i: string, token: nat, batch: set<nat>)
    requires WellFormed(db) && BatchIs(db, i, token, batch) && Holds(Step(db, op), i, token)
    ensures BatchIs(Step(db, op), i, token, batch)
  {
    StepEvolves(db, op);
    StepFrame(db, op);
    if op.OpFetch? {
      FetchMissesBatch(db, op.instance, op.timeout, i, token, batch);
    }
    assert forall m :: m in db.oq && TagsFresh(db, op, m) ==> m !in batch;
    hide BatchIs, Evolves, WellFormed, FetchOrchestration;
    EvolvesKeepsBatch(op, db, Step(db, op), i, token, batch);
  }

  /** While the token holds its instance, its tag marks exactly the batch its fetch returned. */
  lemma {:induction false} TagMarksBatch(ops: seq<Op>, f: nat, n: nat, i: string, token: nat, batch: set<nat>)
    requires f < n <= |ops| && FetchReturns(ops, f, i, token, batch) && Holds(At(ops, n), i, token)
    ensures BatchIs(At(ops, n), i, token, batch)
  {
    hide WellFormed, BatchIs, FetchOrchestration;
    ReachableIsWellFormed(ops, f);
    if n == f + 1 {
      FetchSetsBatch(At(ops, f), i, ops[f].timeout, token, batch);
    } else {
      HoldsBefore(ops, f, n, i, token, batch);
      TagMarksBatch(ops, f, n - 1, i, token, batch);
      ReachableIsWellFormed(ops, n - 1);
      StepKeepsBatch(At(ops, n - 1), ops[n - 1], i, token, batch);
    }
  }

  lemma HoldsBefore(ops: seq<Op>, f: nat, n: nat, i: string, token: nat, batch: set<nat>)
    requires f + 1 < n <= |ops| && FetchReturns(ops, f, i, token, batch) && Holds(At(ops, n), i, token)
    ensures Holds(At(ops, n - 1), i, token)
  {
    ReachableIsWellFormed(ops, f);
    FetchGivesFreshToken(At(ops, f), i, ops[f].timeout, token, batch);
    TokenStaysWithInstance(ops, f + 1, n - 1, i, token);
    HoldersComeFromBefore(At(ops, n - 1), ops[n - 1], token);
  }

  /**
   Whatever happened in between, a successful ack removes exactly the messages its own fetch
   returned; everything that arrived during the lock, for this instance or another, survives it.
   */
  lemma AckDeletesExactlyItsBatch(ops: seq<Op>, k: nat, token: nat) returns (f: nat, i: string, batch: set<nat>)
    requires k < |ops| && AckSucceeds(ops, k, token)
    ensures f < k && FetchReturns(ops, f, i, token, batch)
    ensures forall m :: m in At(ops, k).oq ==> (m in At(ops, k + 1).oq <==> m !in batch)
    ensures forall m :: m in At(ops, k).oq && m !in At(ops, f).oq ==> m in At(ops, k + 1).oq
  {
    var db := At(ops, k);
    i :| i in db.locks && Holds(db, i, token);
    f, batch := HeldTokensWereFetched(ops, k, i, token);
    TagMarksBatch(ops, f, k, i, token, batch);
    ReachableIsWellFormed(ops, k);
    StepEvolves(db, ops[k]);
    assert At(ops, k + 1) == Step(db, ops[k]);
    assert batch == Batch(At(ops, f), i);
  }

  // ---------------------------------------------------------------- what is enqueued and what is dropped

  /** Whom an item is for: a child's outcome for its parent, an activity to execute for no orchestrator. */
  function Addressee(item: WorkItem): Option<string> {
    match item
    case StartOrchestration(instance) => Some(instance)
    case ContinueAsNew(instance) => Some(instance)
    case ActivityCompleted(instance, _, _, _) => Some(instance)
    case ActivityFailed(instance, _, _, _) => Some(instance)
    case TimerFired(instance, _) => Some(instance)
    case ExternalRaised(instance, _, _) => Some(instance)
    case QueueMessage(instance, _, _) => Some(instance)
    case CancelInstance(instance) => Some(instance)
    case SubOrchCompleted(parent, _) => Some(parent)
    case SubOrchFailed(parent, _) => Some(parent)
    case ActivityExecute(_, _, _) => None
  }

  lemma TargetIsAddressee(item: WorkItem)
    ensures Target(item) == Addressee(item)
  {
  }

  /** Every queued message is queued for the instance its item is for. */
  ghost predicate RightlyAddressed(oq: map<nat, Msg>) {
    forall m :: m in oq ==> Addressee(oq[m].item) == Some(oq[m].instance)
  }

  lemma {:induction false} InsertedAreAddressed(oq: map<nat, Msg>, base: nat, items: seq<WorkItem>, now: nat)
    requires RightlyAddressed(oq)
    ensures RightlyAddressed(InsertMsgs(oq, base, items, now))
  {
    if items != [] {
      InsertedAreAddressed(oq, base, items[..|items| - 1], now);
      TargetIsAddressee(items[|items| - 1]);
      hide Addressee, Target;
    }
  }

  lemma FetchKeepsAddresses(db: Db, i: string, timeout: nat)
    requires RightlyAddressed(db.oq)
    ensures RightlyAddressed(FetchOrchestration(db, i, timeout).0.oq)
  {
    hide Addressee, HasContext, OnlyQueueMessages;
  }

  lemma AckKeepsAddresses(db: Db, t: nat, a: AckArgs)
    requires RightlyAddressed(db.oq)
    ensures RightlyAddressed(AckOrchestration(db, t, a).0.oq)
  {
    hide Addressee, InsertMsgs;
    InsertedAreAddressed(WithoutTag(db.oq, t), db.nextMsg, a.orchestratorItems, db.now);
  }

  lemma OthersKeepAddresses(db: Db, t: nat, delay: Option<nat>, ignore: bool, c: Option<WorkItem>, ids: set<string>,
                            force: bool)
    requires RightlyAddressed(db.oq)
    ensures RightlyAddressed(AbandonOrchestration(db, t, delay, ignore).0.oq)
    ensures RightlyAddressed(AckWork(db, t, c).0.oq)
    ensures RightlyAddressed(DeleteInstances(db, ids, force).0.oq)
  {
  }

  lemma EnqueueKeepsAddresses(db: Db, item: WorkItem, delay: Option<nat>)
    requires RightlyAddressed(db.oq)
    ensures RightlyAddressed(EnqueueOrchestrator(db, item, delay).0.oq)
  {
    TargetIsAddressee(item);
    hide Addressee, Target;
  }

  lemma StepKeepsAddresses(db: Db, op: Op)
    requires RightlyAddressed(db.oq)
    ensures RightlyAddressed(Step(db, op).oq)
  {
    hide EnqueueOrchestrator, FetchOrchestration, AckOrchestration, AbandonOrchestration, AckWork, DeleteInstances;
    match op
    case OpEnqueue(item, delay) => EnqueueKeepsAddresses(db, item, delay);
    case OpFetch(i, timeout) => FetchKeepsAddresses(db, i, timeout);
    case OpAck(t, a) => AckKeepsAddresses(db, t, a);
    case OpAbandon(t, delay, ignore) => OthersKeepAddresses(db, t, delay, ignore, None, {}, false);
    case OpAckWork(t, c) => OthersKeepAddresses(db, t, None, false, c, {}, false);
    case OpDelete(ids, force) => OthersKeepAddresses(db, 0, None, false, None, ids, force);
    case _ => StepFrame(db, op);
  }

  /** In every reachable state each queued message is queued for the instance its item is for. */
  lemma {:induction false} QueuedForAddressee(ops: seq<Op>, n: nat)
    requires n <= |ops|
    ensures RightlyAddressed(At(ops, n).oq)
  {
    hide Step, RightlyAddressed;
    if n > 0 {
      QueuedForAddressee(ops, n - 1);
      StepKeepsAddresses(At(ops, n - 1), ops[n - 1]);
    } else {
      NothingQueued();
    }
  }

  lemma NothingQueued()
    ensures RightlyAddressed(map[])
  {
  }

  /**
   Enqueueing is refused exactly for activities to execute, and then changes nothing; otherwise it adds
   the item, uncounted and untagged, for its addressee, due after the delay, and nothing else.
   */
  lemma EnqueueIsExact(db: Db, item: WorkItem, delay: Option<nat>)
    ensures var (after, ok) := EnqueueOrchestrator(db, item, delay);
            && (ok <==> !item.ActivityExecute?) && (!ok ==> after == db)
            && (ok ==> Addressee(item).Some? && after.nextMsg == db.nextMsg + 1
                       && after.oq == db.oq[db.nextMsg := Msg(
                         item, Addressee(item).value, db.now + (if delay.Some? then delay.value else 0), None, 0)])
  {
    TargetIsAddressee(item);
  }

  lemma {:induction false} InsertedItems(oq: map<nat, Msg>, base: nat, items: seq<WorkItem>, now: nat, n: nat)
    requires n < |items| && base + n !in oq
    ensures Lookup(InsertMsgs(oq, base, items, now), base + n)
            == if Target(items[n]).Some? then Some(NewMsg(items[n], now)) else None
  {
    var last := |items| - 1;
    if n < last {
      InsertedItems(oq, base, items[..last], now, n);
    }
  }

  /**
   An accepted ack enqueues each of its items once, in order, behind everything queued before, for its
   addressee: a timer shows from its due time, everything else at once. Only activities to execute
   are skipped, and nothing else is added.
   */
  lemma AckEnqueuesExactly(db: Db, token: nat, a: AckArgs, n: nat)
    requires WellFormed(db) && AckAccepted(db, token, a) && n < |a.orchestratorItems|
    ensures var item, after := a.orchestratorItems[n], AckOrchestration(db, token, a).0;
            Lookup(after.oq, db.nextMsg + n)
            == match Addressee(item)
               case Some(instance) =>
                 Some(Msg(item, instance, if item.TimerFired? then item.fireAt else db.now, None, 0))
               case None => None
    ensures forall m :: m in AckOrchestration(db, token, a).0.oq && m !in db.oq ==>
                db.nextMsg <= m < db.nextMsg + |a.orchestratorItems|
  {
    TargetIsAddressee(a.orchestratorItems[n]);
    InsertedItems(WithoutTag(db.oq, token), db.nextMsg, a.orchestratorItems, db.now, n);
    hide Addressee, Target;
  }

  /** The messages waiting for an instance that are due. */
  function Waiting(db: Db, i: string): set<nat> {
    set m | m in db.oq && db.oq[m].instance == i && db.oq[m].visibleAt <= db.now
  }

  /**
   The orchestration is known: it has its row, or its latest execution has a start event, or a start
   or continue-as-new item is among what is waiting. Without any execution row the latest is the first.
   */
  ghost predicate Known(db: Db, i: string) {
    || i in db.instances
    || (exists k :: k in db.history && k.instance == i && db.history[k].OrchestrationStarted?
                    && (forall x :: x in db.executions && x.instance == i ==> x.execution <= k.execution)
                    && (ExecutionKey(i, k.execution) in db.executions
                        || (k.execution == 1 && forall x :: x in db.executions ==> x.instance != i)))
    || (exists m :: m in Waiting(db, i) && (db.oq[m].item.StartOrchestration? || db.oq[m].item.ContinueAsNew?))
  }

  lemma KnownIsContext(db: Db, i: string)
    ensures Waiting(db, i) == Batch(db, i) && (Known(db, i) <==> HasContext(db, i))
  {
  }

  /**
   What a fetch does with an instance, whatever the lock timeout. If it is unlocked and something is
   waiting: a known orchestration is returned with all that is waiting; an unknown one with nothing but
   queue messages loses these, and its lock; anything else stays as it was.
   */
  lemma OnlyOrphansAreDropped(db: Db, i: string, timeout: nat)
    ensures var (after, result) := FetchOrchestration(db, i, timeout);
            var ready := (i in db.locks ==> db.locks[i].until <= db.now) && Waiting(db, i) != {};
            var orphans := !Known(db, i) && forall m :: m in Waiting(db, i) ==> db.oq[m].item.QueueMessage?;
            && (result.Fetched? <==> ready && Known(db, i))
            && (result.Fetched? ==> result.batch == Waiting(db, i))
            && (result.DroppedOrphans? <==> ready && orphans)
            && (result.DroppedOrphans? ==>
                  after.oq == db.oq - Waiting(db, i) && after.locks == db.locks - {i} && result.batch == Waiting(db, i))
            && (result.NothingFetched? ==> after == db)
  {
    KnownIsContext(db, i);
    hide Known, HasContext;
  }

  /** The queue messages of an orchestration that is not known are gone for good once it was fetched. */
  lemma OrphansAreGoneForGood(ops: seq<Op>, j: nat, n: nat, i: string, m: nat)
    requires j < n <= |ops| && ops[j].OpFetch? && ops[j].instance == i && m in Waiting(At(ops, j), i)
    requires i in At(ops, j).locks ==> At(ops, j).locks[i].until <= At(ops, j).now
    requires !Known(At(ops, j), i)
    requires forall x :: x in Waiting(At(ops, j), i) ==> At(ops, j).oq[x].item.QueueMessage?
    ensures m !in At(ops, n).oq
  {
    OnlyOrphansAreDropped(At(ops, j), i, ops[j].timeout);
    assert RemovedAt(ops, j, m) by {
      KnownIsContext(At(ops, j), i);
    }
    hide At, RemovedAt, Known;
    MessagesAreConserved(ops, j, n, m);
  }
}
