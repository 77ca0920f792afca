/**
 Attempt counters of orchestrator messages. Abandoning with the attempt ignored decrements every
 queued message of the instance, fetched or not, so the counters are exact in precisely the runs
 in which no such abandon meets an already counted message outside its batch.
 */
module MessageAttempts {
  import opened Common
  import opened ProviderDb
  import opened ProviderFrames
  import opened ProviderMessages

  /** The step is an ignored abandon of the fetch that returned the message last. */
  ghost predicate IgnoresMsg(db: Db, op: Op, m: nat) {
    op.OpAbandon? && op.ignoreAttempt && HolderOf(db, op.token).Some? && m in db.oq && db.oq[m].tag == Some(op.token)
  }

  ghost function MsgFetches(ops: seq<Op>, n: nat, m: nat): nat
    requires n <= |ops|
  {
    if n == 0 then 0 else MsgFetches(ops, n - 1, m) + if TagsFresh(At(ops, n - 1), ops[n - 1], m) then 1 else 0
  }

  ghost function MsgIgnored(ops: seq<Op>, n: nat, m: nat): nat
    requires n <= |ops|
  {
    if n == 0 then 0 else MsgIgnored(ops, n - 1, m) + if IgnoresMsg(At(ops, n - 1), ops[n - 1], m) then 1 else 0
  }

  /** Every queued message has been counted as often as it was fetched, less its ignored abandons. */
  ghost predicate Exact(ops: seq<Op>, n: nat)
    requires n <= |ops|
  {
    forall m :: m in At(ops, n).oq ==> At(ops, n).oq[m].attempts == MsgFetches(ops, n, m) - MsgIgnored(ops, n, m)
  }

  /** No counted message of the instance lies outside the batch that is being abandoned. */
  ghost predicate CleanAbandon(db: Db, op: Op) {
    op.OpAbandon? && op.ignoreAttempt && HolderOf(db, op.token).Some? ==>
      forall m :: m in db.oq && db.oq[m].instance == HolderOf(db, op.token).value && db.oq[m].tag != Some(op.token) ==>
        db.oq[m].attempts == 0
  }

  // ---------------------------------------------------------------- batches of held locks

  /** A held token tags only messages of its instance, and those have been counted. */
  ghost predicate HeldTags(db: Db) {
    forall i, m :: i in db.locks && m in db.oq && db.oq[m].tag == Some(db.locks[i].token) ==>
      db.oq[m].instance == i && db.oq[m].attempts >= 1
  }

  lemma FetchHeldTags(db: Db, i: string, timeout: nat)
    requires WellFormed(db) && HeldTags(db)
    ensures HeldTags(FetchOrchestration(db, i, timeout).0)
  {
    assert HeldTags(FetchEffects(db, i, timeout));
    assert HeldTags(DropEffects(db, i));
  }

  lemma AbandonHeldTags(db: Db, t: nat, delay: Option<nat>, ignore: bool)
    requires WellFormed(db) && HeldTags(db)
    ensures HeldTags(AbandonOrchestration(db, t, delay, ignore).0)
  {
  }

  lemma AckHeldTags(db: Db, t: nat, a: AckArgs)
    requires WellFormed(db) && HeldTags(db)
    ensures HeldTags(AckOrchestration(db, t, a).0)
  {
    if AckAccepted(db, t, a) {
      var kept := WithoutTag(db.oq, t);
      var after := AckOrchestration(db, t, a).0;
      assert after.oq == InsertMsgs(kept, db.nextMsg, a.orchestratorItems, db.now);
      assert forall m :: m in kept ==> m < db.nextMsg;
      assert forall m :: m in after.oq && after.oq[m].tag.Some? ==> m in db.oq && after.oq[m] == db.oq[m];
    }
  }

  lemma QueuedHeldTags(db: Db, item: WorkItem, delay: Option<nat>)
    requires MsgIdsOk(db) && HeldTags(db)
    ensures HeldTags(EnqueueOrchestrator(db, item, delay).0)
  {
  }

  lemma AckWorkHeldTags(db: Db, t: nat, c: Option<WorkItem>)
    requires MsgIdsOk(db) && HeldTags(db)
    ensures HeldTags(AckWork(db, t, c).0)
  {
  }

  lemma DeleteHeldTags(db: Db, ids: set<string>, force: bool)
    requires HeldTags(db)
    ensures HeldTags(DeleteInstances(db, ids, force).0)
  {
  }

  lemma RenewHeldTags(db: Db, t: nat, extend: nat)
    requires HeldTags(db)
    ensures HeldTags(RenewOrchestration(db, t, extend).0)
  {
    if HolderOf(db, t).Some? {
      assert Holds(db, HolderOf(db, t).value, t);
    }
  }

  lemma StepHeldTags(db: Db, op: Op)
    requires WellFormed(db) && HeldTags(db)
    ensures HeldTags(Step(db, op))
  {
    hide FetchOrchestration, AckOrchestration, AbandonOrchestration, AckWork, DeleteInstances, EnqueueOrchestrator,
         RenewOrchestration;
    hide LockTokensOk, RowTokensOk, RowIdsOk, ForestOk;
    match op
    case OpEnqueue(item, delay) => QueuedHeldTags(db, item, delay);
    case OpFetch(i, timeout) => FetchHeldTags(db, i, timeout);
    case OpAck(t, a) => AckHeldTags(db, t, a);
    case OpRenew(t, extend) => RenewHeldTags(db, t, extend);
    case OpAbandon(t, delay, ignore) => AbandonHeldTags(db, t, delay, ignore);
    case OpAckWork(t, c) => AckWorkHeldTags(db, t, c);
    case OpDelete(ids, force) => DeleteHeldTags(db, ids, force);
    case _ => StepFrame(db, op);
  }

  lemma {:induction false} ReachableHeldTags(ops: seq<Op>, n: nat)
    requires n <= |ops|
    ensures HeldTags(At(ops, n))
  {
    hide Step, WellFormed;
    if n > 0 {
      hide HeldTags;
      ReachableHeldTags(ops, n - 1);
      ReachableIsWellFormed(ops, n - 1);
      StepHeldTags(At(ops, n - 1), ops[n - 1]);
    }
  }

  // ---------------------------------------------------------------- one step

  /** The step counts one message exactly. */
  ghost predicate CountsMsg(op: Op, a: Db, b: Db, m: nat)
    requires m in a.oq && m in b.oq
  {
    b.oq[m].attempts == a.oq[m].attempts
        + (if TagsFresh(a, op, m) then 1 else 0) - (if IgnoresMsg(a, op, m) then 1 else 0)
  }

  ghost predicate CountsAll(op: Op, a: Db, b: Db) {
    forall m :: m in a.oq && m in b.oq ==> CountsMsg(op, a, b, m)
  }

  /** An abandon counts exactly if and only if it is clean. */
  lemma AbandonCountsIffClean(db: Db, t: nat, delay: Option<nat>, ignore: bool)
    requires WellFormed(db) && HeldTags(db)
    ensures CountsAll(OpAbandon(t, delay, ignore), db, AbandonOrchestration(db, t, delay, ignore).0)
            <==> CleanAbandon(db, OpAbandon(t, delay, ignore))
  {
    var op, after := OpAbandon(t, delay, ignore), AbandonOrchestration(db, t, delay, ignore).0;
    if HolderOf(db, t).Some? && ignore {
      var i := HolderOf(db, t).value;
      assert Holds(db, i, t);
      assert after.oq == Abandoned(db, i, delay, ignore);
      forall m | m in db.oq && db.oq[m].instance == i && db.oq[m].tag != Some(t)
        ensures CountsMsg(op, db, after, m) <==> db.oq[m].attempts == 0
      {
      }
      forall m | m in db.oq && (db.oq[m].instance != i || db.oq[m].tag == Some(t)) ensures CountsMsg(op, db, after, m) {
      }
    }
  }

  lemma FetchCounts(db: Db, i: string, timeout: nat)
    ensures CountsAll(OpFetch(i, timeout), db, FetchOrchestration(db, i, timeout).0)
  {
  }

  lemma AckCountsMsgs(db: Db, t: nat, a: AckArgs)
    requires IdsOk(db)
    ensures CountsAll(OpAck(t, a), db, AckOrchestration(db, t, a).0)
  {
    if AckAccepted(db, t, a) {
      var kept := WithoutTag(db.oq, t);
      var after := AckOrchestration(db, t, a).0;
      assert after.oq == InsertMsgs(kept, db.nextMsg, a.orchestratorItems, db.now);
    }
  }

  lemma SimpleCounts(db: Db, item: WorkItem, delay: Option<nat>, t: nat, c: Option<WorkItem>, ids: set<string>,
      force: bool)
    requires IdsOk(db)
    ensures CountsAll(OpEnqueue(item, delay), db, EnqueueOrchestrator(db, item, delay).0)
    ensures CountsAll(OpAckWork(t, c), db, AckWork(db, t, c).0)
    ensures CountsAll(OpDelete(ids, force), db, DeleteInstances(db, ids, force).0)
  {
  }

  lemma StepCountsIffClean(db: Db, op: Op)
    requires WellFormed(db) && HeldTags(db)
    ensures CountsAll(op, db, Step(db, op)) <==> CleanAbandon(db, op)
  {
    hide FetchOrchestration, AckOrchestration, AbandonOrchestration, AckWork, DeleteInstances, EnqueueOrchestrator;
    hide LockTokensOk, RowTokensOk, ForestOk, HeldTags;
    match op
    case OpEnqueue(item, delay) => SimpleCounts(db, item, delay, 0, None, {}, false);
    case OpFetch(i, timeout) => FetchCounts(db, i, timeout);
    case OpAck(t, a) => AckCountsMsgs(db, t, a);
    case OpAbandon(t, delay, ignore) => AbandonCountsIffClean(db, t, delay, ignore);
    case OpAckWork(t, c) => SimpleCounts(db, CancelInstance(""), None, t, c, {}, false);
    case OpDelete(ids, force) => SimpleCounts(db, CancelInstance(""), None, 0, None, ids, force);
    case _ => StepFrame(db, op);
  }

  // ---------------------------------------------------------------- whole runs

  lemma AbsentIsNotCounted(db: Db, op: Op, m: nat)
    requires m !in db.oq
    ensures !TagsFresh(db, op, m) && !IgnoresMsg(db, op, m)
  {
  }

  lemma {:induction false} UnusedHasNoCounts(ops: seq<Op>, n: nat, m: nat)
    requires n <= |ops| && m >= At(ops, n).nextMsg
    ensures MsgFetches(ops, n, m) == 0 && MsgIgnored(ops, n, m) == 0
  {
    hide Step, TagsFresh, IgnoresMsg;
    if n > 0 {
      StepFrame(At(ops, n - 1), ops[n - 1]);
      UnusedHasNoCounts(ops, n - 1, m);
      ReachableIsWellFormed(ops, n - 1);
      AbsentIsNotCounted(At(ops, n - 1), ops[n - 1], m);
    }
  }

  /** From exact counters, a step keeps them exact if and only if it is not an unclean abandon. */
  lemma ExactStep(ops: seq<Op>, n: nat)
    requires n < |ops| && Exact(ops, n)
    ensures Exact(ops, n + 1) <==> CleanAbandon(At(ops, n), ops[n])
  {
    hide Step, TagsFresh, IgnoresMsg, CleanAbandon, TokensOk, ForestOk, HeldTags, Gone;
    var a, b := At(ops, n), At(ops, n + 1);
    ReachableIsWellFormed(ops, n);
    ReachableHeldTags(ops, n);
    StepEvolves(a, ops[n]);
    StepCountsIffClean(a, ops[n]);
    assert b == Step(a, ops[n]);
    forall m | m in b.oq
      ensures b.oq[m].attempts == MsgFetches(ops, n + 1, m) - MsgIgnored(ops, n + 1, m)
              <==> (m in a.oq ==> CountsMsg(ops[n], a, b, m))
    {
      if m !in a.oq {
        UnusedHasNoCounts(ops, n, m);
        AbsentIsNotCounted(a, ops[n], m);
      }
    }
  }

  /**
   The counters of a run are exact at every point if and only if each of its ignored abandons finds
   no counted message of the instance outside the batch being given back.
   */
  lemma {:induction false} AttemptsExactIffAbandonsClean(ops: seq<Op>, n: nat)
    requires n <= |ops|
    ensures (forall k :: 0 <= k <= n ==> Exact(ops, k)) <==>
              (forall k :: 0 <= k < n ==> CleanAbandon(At(ops, k), ops[k]))
  {
    hide At, Step, Exact, CleanAbandon;
    if n > 0 {
      AttemptsExactIffAbandonsClean(ops, n - 1);
      if forall k :: 0 <= k <= n - 1 ==> Exact(ops, k) {
        ExactStep(ops, n - 1);
      }
    } else {
      StartIsExact(ops);
    }
  }

  lemma StartIsExact(ops: seq<Op>)
    ensures Exact(ops, 0)
  {
  }

  /**
   A run whose counters go wrong: a message is fetched, given back with a delay, and while it waits
   another message of its instance is fetched and given back ignoring that attempt.
   */
  const SKEWED := [
    OpEnqueue(StartOrchestration("i"), None), OpFetch("i", 10), OpAbandon(0, Some(5), false),
    OpEnqueue(StartOrchestration("i"), None), OpFetch("i", 10), OpAbandon(1, None, true)]

  function SkewedState(k: nat): Db
    requires k <= 6
  {
    var start := StartOrchestration("i");
    match k
    case 0 => EMPTY_DB
    case 1 => EMPTY_DB.(oq := map[0 := Msg(start, "i", 0, None, 0)], nextMsg := 1)
    case 2 =>
      EMPTY_DB.(oq := map[0 := Msg(start, "i", 0, Some(0), 1)], nextMsg := 1, nextToken := 1,
                locks := map["i" := Lock(0, 10)])
    case 3 => EMPTY_DB.(oq := map[0 := Msg(start, "i", 5, Some(0), 1)], nextMsg := 1, nextToken := 1)
    case 4 =>
      EMPTY_DB.(oq := map[0 := Msg(start, "i", 5, Some(0), 1), 1 := Msg(start, "i", 0, None, 0)],
                nextMsg := 2, nextToken := 1)
    case 5 =>
      EMPTY_DB.(oq := map[0 := Msg(start, "i", 5, Some(0), 1), 1 := Msg(start, "i", 0, Some(1), 1)],
                nextMsg := 2, nextToken := 2, locks := map["i" := Lock(1, 10)])
    case 6 =>
      EMPTY_DB.(oq := map[0 := Msg(start, "i", 5, Some(0), 0), 1 := Msg(start, "i", 0, Some(1), 0)],
                nextMsg := 2, nextToken := 2)
  }

  lemma SkewedFetch(k: nat)
    requires k == 1 || k == 4
    ensures FetchOrchestration(SkewedState(k), "i", 10) == (SkewedState(k + 1), Fetched(k / 4, {k / 4}))
  {
    var db := SkewedState(k);
    assert k / 4 in Batch(db, "i");
    assert Batch(db, "i") == {k / 4};
    assert FetchEffects(db, "i", 10) == SkewedState(k + 1);
  }

  lemma SkewedAbandon(k: nat)
    requires k == 2 || k == 5
    ensures Step(SkewedState(k), SKEWED[k]) == SkewedState(k + 1)
  {
    var db, token := SkewedState(k), if k == 2 then 0 else 1;
    assert Holds(db, "i", token);
    assert HolderOf(db, token) == Some("i");
    if k == 2 {
      assert Abandoned(db, "i", Some(5), false) == SkewedState(3).oq;
    } else {
      assert Abandoned(db, "i", None, true) == SkewedState(6).oq;
    }
  }

  lemma SkewedStep(k: nat)
    requires k < 6
    ensures Step(SkewedState(k), SKEWED[k]) == SkewedState(k + 1)
    ensures TagsFresh(SkewedState(k), SKEWED[k], 0) <==> k == 1
    ensures !IgnoresMsg(SkewedState(k), SKEWED[k], 0)
  {
    hide FetchOrchestration, AbandonOrchestration;
    if k == 1 || k == 4 {
      SkewedFetch(k);
    } else if k == 2 || k == 5 {
      SkewedAbandon(k);
    }
  }

  lemma {:induction false} SkewedRun(k: nat)
    requires k <= 6
    ensures At(SKEWED, k) == SkewedState(k)
    ensures MsgFetches(SKEWED, k, 0) == (if k >= 2 then 1 else 0) && MsgIgnored(SKEWED, k, 0) == 0
  {
    hide Step, TagsFresh, IgnoresMsg;
    if k > 0 {
      SkewedRun(k - 1);
      SkewedStep(k - 1);
    }
  }

  lemma SkewedRunLosesAnAttempt()
    ensures 0 in At(SKEWED, 6).oq && At(SKEWED, 6).oq[0].attempts == 0
    ensures MsgFetches(SKEWED, 6, 0) == 1 && MsgIgnored(SKEWED, 6, 0) == 0
    ensures !Exact(SKEWED, 6)
  {
    hide At, Step, MsgFetches, MsgIgnored;
    SkewedRun(6);
  }
}
