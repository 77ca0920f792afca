/** Which tables each provider operation may touch at all; clocks and id counters never run backwards. */
module ProviderFrames {
  import opened Common
  import opened ProviderDb

  ghost predicate Touches(op: Op, a: Db, b: Db) {
    match op
    case OpEnqueue(_, _) => b == a.(oq := b.oq, nextMsg := b.nextMsg)
    case OpEnqueueWorker(_) => b == a.(wq := b.wq, nextRow := b.nextRow)
    case OpFetch(_, _) => b == a.(oq := b.oq, locks := b.locks, nextToken := b.nextToken)
    case OpAck(_, _) => b.now == a.now && b.nextToken == a.nextToken
    case OpRenew(_, _) => b == a.(locks := b.locks)
    case OpAbandon(_, _, _) => b == a.(locks := b.locks, oq := b.oq)
    case OpFetchWork(_, _) => b == a.(wq := b.wq, nextToken := b.nextToken)
    case OpAckWork(_, _) => b == a.(wq := b.wq, oq := b.oq, nextMsg := b.nextMsg)
    case OpRenewWork(_, _) => b == a.(wq := b.wq)
    case OpAbandonWork(_, _, _) => b == a.(wq := b.wq)
    case OpDelete(_, _) =>
      b.now == a.now && b.nextToken == a.nextToken && b.nextMsg == a.nextMsg && b.nextRow == a.nextRow
          && b.nextCreated == a.nextCreated
    case OpPrune(_, _) => b == a.(executions := b.executions, history := b.history)
    case OpTick(_) => b == a.(now := b.now)
  }

  ghost predicate Advances(a: Db, b: Db) {
    a.now <= b.now && a.nextToken <= b.nextToken && a.nextMsg <= b.nextMsg && a.nextRow <= b.nextRow
        && a.nextCreated <= b.nextCreated
  }

  ghost predicate Framed(op: Op, a: Db, b: Db) {
    Touches(op, a, b) && Advances(a, b)
  }

  lemma EnqueueFrame(db: Db, item: WorkItem, delay: Option<nat>)
    ensures Framed(OpEnqueue(item, delay), db, EnqueueOrchestrator(db, item, delay).0)
  {
  }

  lemma FetchFrame(db: Db, i: string, timeout: nat)
    ensures Framed(OpFetch(i, timeout), db, FetchOrchestration(db, i, timeout).0)
  {
  }

  lemma AckFrame(db: Db, t: nat, a: AckArgs)
    ensures Framed(OpAck(t, a), db, AckOrchestration(db, t, a).0)
  {
  }

  lemma AbandonFrame(db: Db, t: nat, delay: Option<nat>, ignore: bool)
    ensures Framed(OpAbandon(t, delay, ignore), db, AbandonOrchestration(db, t, delay, ignore).0)
  {
  }

  lemma FetchWorkFrame(db: Db, r: nat, timeout: nat)
    ensures Framed(OpFetchWork(r, timeout), db, FetchWork(db, r, timeout).0)
  {
  }

  lemma AckWorkFrame(db: Db, t: nat, c: Option<WorkItem>)
    ensures Framed(OpAckWork(t, c), db, AckWork(db, t, c).0)
  {
  }

  lemma AbandonWorkFrame(db: Db, t: nat, delay: Option<nat>, ignore: bool)
    ensures Framed(OpAbandonWork(t, delay, ignore), db, AbandonWork(db, t, delay, ignore).0)
  {
  }

  lemma RenewFrames(db: Db, t: nat, extend: nat)
    ensures Framed(OpRenew(t, extend), db, RenewOrchestration(db, t, extend).0)
    ensures Framed(OpRenewWork(t, extend), db, RenewWork(db, t, extend).0)
  {
  }

  lemma DeleteFrame(db: Db, ids: set<string>, force: bool)
    ensures Framed(OpDelete(ids, force), db, DeleteInstances(db, ids, force).0)
  {
  }

  lemma PruneFrame(db: Db, i: string, options: PruneOptions)
    ensures Framed(OpPrune(i, options), db, PruneExecutions(db, i, options).0)
  {
  }

  lemma StepFrame(db: Db, op: Op)
    ensures Framed(op, db, Step(db, op))
  {
    match op
    case OpEnqueue(item, delay) => EnqueueFrame(db, item, delay);
    case OpEnqueueWorker(key) =>
    case OpFetch(i, timeout) => FetchFrame(db, i, timeout);
    case OpAck(t, a) => AckFrame(db, t, a);
    case OpRenew(t, extend) => RenewFrames(db, t, extend);
    case OpAbandon(t, delay, ignore) => AbandonFrame(db, t, delay, ignore);
    case OpFetchWork(r, timeout) => FetchWorkFrame(db, r, timeout);
    case OpAckWork(t, c) => AckWorkFrame(db, t, c);
    case OpRenewWork(t, extend) => RenewFrames(db, t, extend);
    case OpAbandonWork(t, delay, ignore) => AbandonWorkFrame(db, t, delay, ignore);
    case OpDelete(ids, force) => DeleteFrame(db, ids, force);
    case OpPrune(i, options) => PruneFrame(db, i, options);
    case OpTick(duration) =>
  }

  /** Over any stretch of a run. */
  lemma {:induction false} RunAdvances(ops: seq<Op>, k: nat, n: nat)
    requires k <= n <= |ops|
    ensures Advances(At(ops, k), At(ops, n))
  {
    if k < n {
      RunAdvances(ops, k, n - 1);
      StepFrame(At(ops, n - 1), ops[n - 1]);
    }
  }
}
