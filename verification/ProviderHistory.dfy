/**
 Histories per execution: what an append accepts and adds, that a recorded event never changes,
 that the current execution is the largest one acked, and what pruning keeps.
 */
module ProviderHistory {
  import opened Common
  import opened ProviderDb
  import opened ProviderFrames
  import KvStore

  // ---------------------------------------------------------------- appending

  /** Event ids come from the runtime: none is zero, none repeats, none is taken in this execution. */
  ghost predicate Appendable(h: map<EventKey, EventKind>, i: string, e: nat, delta: seq<Event>) {
    && (forall a :: 0 <= a < |delta| ==> delta[a].id != 0 && EventKey(i, e, delta[a].id) !in h)
    && (forall a, b :: 0 <= a < b < |delta| ==> delta[a].id != delta[b].id)
  }

  /** The table h' holds everything of h and the events of delta under (i, e), and nothing else. */
  ghost predicate Appended(h: map<EventKey, EventKind>, h': map<EventKey, EventKind>, i: string, e: nat,
      delta: seq<Event>) {
    && (forall k :: k in h ==> k in h' && h'[k] == h[k])
    && (forall a :: 0 <= a < |delta| ==>
         EventKey(i, e, delta[a].id) in h' && h'[EventKey(i, e, delta[a].id)] == delta[a].kind)
    && (forall k :: k in h' && k !in h ==> exists a :: 0 <= a < |delta| && k == EventKey(i, e, delta[a].id))
  }

  lemma AppendableSnoc(h: map<EventKey, EventKind>, i: string, e: nat, delta: seq<Event>)
    requires delta != []
    ensures var init, last := delta[..|delta| - 1], delta[|delta| - 1];
            Appendable(h, i, e, delta) <==>
              Appendable(h, i, e, init) && last.id != 0 && EventKey(i, e, last.id) !in h
              && !(exists a :: 0 <= a < |init| && init[a].id == last.id)
  {
    var init, last := delta[..|delta| - 1], delta[|delta| - 1];
    assert forall a :: 0 <= a < |init| ==> init[a] == delta[a];
  }

  /** An append goes through exactly for appendable events, and then adds them all and nothing else. */
  lemma {:induction false} AppendIsExact(h: map<EventKey, EventKind>, i: string, e: nat, delta: seq<Event>)
    ensures AppendHistory(h, i, e, delta).Some? <==> Appendable(h, i, e, delta)
    ensures AppendHistory(h, i, e, delta).Some? ==> Appended(h, AppendHistory(h, i, e, delta).value, i, e, delta)
  {
    if delta != [] {
      hide Appendable, Appended;
      var n := |delta| - 1;
      var init, last := delta[..n], delta[n];
      AppendIsExact(h, i, e, init);
      var prior := AppendHistory(h, i, e, init);
      AppendableSnoc(h, i, e, delta);
      if prior.Some? {
        LastIsTaken(h, prior.value, i, e, init, last.id);
        if EventKey(i, e, last.id) !in prior.value {
          AppendedSnoc(h, prior.value, i, e, init, last);
          assert init + [last] == delta;
        }
      }
    }
  }

  /** An id is taken after the append if it was before or if one of the new events has it. */
  lemma LastIsTaken(h: map<EventKey, EventKind>, h': map<EventKey, EventKind>, i: string, e: nat, delta: seq<Event>,
      id: nat)
    requires Appended(h, h', i, e, delta)
    ensures EventKey(i, e, id) in h' <==> EventKey(i, e, id) in h || exists a :: 0 <= a < |delta| && delta[a].id == id
  {
  }

  lemma AppendedSnoc(h: map<EventKey, EventKind>, h': map<EventKey, EventKind>, i: string, e: nat, delta: seq<Event>,
      last: Event)
    requires Appended(h, h', i, e, delta) && EventKey(i, e, last.id) !in h'
    ensures Appended(h, h'[EventKey(i, e, last.id) := last.kind], i, e, delta + [last])
  {
    var h'' := h'[EventKey(i, e, last.id) := last.kind];
    var all := delta + [last];
    forall k | k in h'' && k !in h ensures exists a :: 0 <= a < |all| && k == EventKey(i, e, all[a].id) {
      if k in h' {
        var a :| 0 <= a < |delta| && k == EventKey(i, e, delta[a].id);
        assert all[a] == delta[a];
      } else {
        assert all[|delta|] == last;
      }
    }
  }

  // ---------------------------------------------------------------- atomicity

  /** Every record the ack was to write or remove for the instance is in place. */
  ghost predicate AckDone(a: Db, b: Db, i: string, token: nat, args: AckArgs) {
    var key := ExecutionKey(i, args.execution);
    && i !in b.locks
    && Appended(a.history, b.history, i, args.execution, args.delta)
    && (args.meta.named ==> i in b.instances)
    && (i in b.instances ==> args.execution <= b.instances[i].current)
    && key in b.executions
    && (args.meta.status.Some? ==> b.executions[key] == Execution(args.meta.status.value, Some(a.now)))
    && (args.meta.status.None? ==>
         b.executions[key] == if key in a.executions then a.executions[key] else Execution(Running, None))
    && (forall m :: m in a.oq ==> (m in b.oq <==> a.oq[m].tag != Some(token)))
    && (forall r :: r in b.wq ==> b.wq[r].key !in args.cancelled)
    && (forall r :: r in a.wq && a.wq[r].key !in args.cancelled ==> r in b.wq && b.wq[r] == a.wq[r])
  }

  /**
   An ack commits everything or nothing. It commits exactly if its token is live, every event can
   be appended and a new instance's parent exists; no other outcome changes any table.
   */
  lemma AckIsAllOrNothing(db: Db, token: nat, args: AckArgs)
    requires WellFormed(db)
    ensures var (after, ok) := AckOrchestration(db, token, args);
            && (ok <==> exists i :: Holds(db, i, token) && db.locks[i].until > db.now
                                    && Appendable(db.history, i, args.execution, args.delta)
                                    && (args.meta.named && i !in db.instances && args.meta.parent.Some? ==>
                                          args.meta.parent.value in db.instances))
            && (ok ==> exists i :: Holds(db, i, token) && AckDone(db, after, i, token, args))
            && (!ok ==> after == db)
  {
    forall i | Holds(db, i, token) ensures HolderOf(db, token) == Some(i) {
      HolderIsUnique(db, i, token);
    }
    if HolderOf(db, token).Some? {
      AppendIsExact(db.history, HolderOf(db, token).value, args.execution, args.delta);
    }
    if AckAccepted(db, token, args) {
      AckEffectsAreDone(db, HolderOf(db, token).value, token, args);
    }
  }

  lemma AckEffectsAreDone(db: Db, i: string, token: nat, args: AckArgs)
    requires WellFormed(db) && AppendHistory(db.history, i, args.execution, args.delta).Some?
    ensures AckDone(db, AckEffects(db, i, token, args), i, token, args)
  {
    AppendIsExact(db.history, i, args.execution, args.delta);
    var kept, inserted := WithoutTag(db.oq, token), InsertRows(db.wq, db.nextRow, args.workerItems, db.now);
    assert forall m :: m in kept ==> m < db.nextMsg;
    assert forall r :: r in db.wq ==> r in inserted && inserted[r] == db.wq[r];
  }

  // ---------------------------------------------------------------- events never change

  /** A step drops an event only with its whole execution (prune) or its whole instance (deletion). */
  ghost predicate EventGone(db: Db, op: Op, k: EventKey) {
    match op
    case OpPrune(i, options) => i in db.instances && k.instance == i && Prunable(db, i, k.execution, options)
    case OpDelete(ids, force) => DeleteAccepted(db, ids, force) && k.instance in ids
    case _ => false
  }

  ghost predicate HistoryEvolves(op: Op, a: Db, b: Db) {
    forall k :: k in a.history ==>
        if EventGone(a, op, k) then k !in b.history else k in b.history && b.history[k] == a.history[k]
  }

  lemma AckHistory(db: Db, t: nat, a: AckArgs)
    ensures HistoryEvolves(OpAck(t, a), db, AckOrchestration(db, t, a).0)
  {
    if AckAccepted(db, t, a) {
      AppendIsExact(db.history, HolderOf(db, t).value, a.execution, a.delta);
    }
  }

  lemma DeleteHistory(db: Db, ids: set<string>, force: bool)
    ensures HistoryEvolves(OpDelete(ids, force), db, DeleteInstances(db, ids, force).0)
  {
  }

  lemma PruneHistory(db: Db, i: string, options: PruneOptions)
    ensures HistoryEvolves(OpPrune(i, options), db, PruneExecutions(db, i, options).0)
  {
  }

  lemma StepHistory(db: Db, op: Op)
    ensures HistoryEvolves(op, db, Step(db, op))
  {
    hide AckOrchestration, DeleteInstances, PruneExecutions;
    match op
    case OpAck(t, a) => AckHistory(db, t, a);
    case OpDelete(ids, force) => DeleteHistory(db, ids, force);
    case OpPrune(i, options) => PruneHistory(db, i, options);
    case _ => StepFrame(db, op);
  }

  /** A recorded event stays, unchanged, until its execution is pruned or its instance deleted. */
  lemma {:induction false} EventsAreImmutable(ops: seq<Op>, k: nat, n: nat, key: EventKey)
    requires k <= n <= |ops| && key in At(ops, k).history
    requires forall j :: k <= j < n ==> !EventGone(At(ops, j), ops[j], key)
    ensures key in At(ops, n).history && At(ops, n).history[key] == At(ops, k).history[key]
  {
    hide Step, EventGone;
    if k < n {
      EventsAreImmutable(ops, k, n - 1, key);
      StepHistory(At(ops, n - 1), ops[n - 1]);
    }
  }

  /** An accepted ack writes to one execution only: the histories of all others are as before. */
  lemma AckTouchesOneExecution(db: Db, t: nat, a: AckArgs, k: EventKey)
    requires AckAccepted(db, t, a)
    requires k.instance != HolderOf(db, t).value || k.execution != a.execution
    ensures Lookup(AckOrchestration(db, t, a).0.history, k) == Lookup(db.history, k)
  {
    AppendIsExact(db.history, HolderOf(db, t).value, a.execution, a.delta);
  }

  // ---------------------------------------------------------------- the current execution

  /** The step is an accepted ack of an instance that has, or now gets, its row. */
  ghost predicate AcksExecution(db: Db, op: Op, i: string) {
    op.OpAck? && AckAccepted(db, op.token, op.args) && HolderOf(db, op.token) == Some(i)
    && (op.args.meta.named || i in db.instances)
  }

  ghost predicate DropsInstance(db: Db, op: Op, i: string) {
    op.OpDelete? && i in op.ids && DeleteAccepted(db, op.ids, op.force)
  }

  /** The executions acked for the instance since its row was created. */
  ghost function Acked(ops: seq<Op>, n: nat, i: string): set<nat>
    requires n <= |ops|
  {
    if n == 0 || DropsInstance(At(ops, n - 1), ops[n - 1], i) then {}
    else if AcksExecution(At(ops, n - 1), ops[n - 1], i) then Acked(ops, n - 1, i) + {ops[n - 1].args.execution}
    else Acked(ops, n - 1, i)
  }

  ghost predicate IsMax(m: nat, s: set<nat>) {
    m in s && forall x :: x in s ==> x <= m
  }

  /** What a step does to the instance's row. */
  ghost predicate RowEvolves(op: Op, a: Db, b: Db, i: string) {
    if DropsInstance(a, op, i) then i !in b.instances
    else if AcksExecution(a, op, i) then
      i in b.instances
      && b.instances[i].current
         == (if i in a.instances then Max(a.instances[i].current, op.args.execution) else op.args.execution)
      && b.instances[i].parent == (if i in a.instances then a.instances[i].parent else op.args.meta.parent)
      && (i !in a.instances ==> op.args.meta.named)
    else Lookup(b.instances, i) == Lookup(a.instances, i)
  }

  lemma AckRow(db: Db, t: nat, a: AckArgs, i: string)
    ensures RowEvolves(OpAck(t, a), db, AckOrchestration(db, t, a).0, i)
  {
  }

  lemma DeleteRow(db: Db, ids: set<string>, force: bool, i: string)
    ensures RowEvolves(OpDelete(ids, force), db, DeleteInstances(db, ids, force).0, i)
  {
  }

  lemma StepRow(db: Db, op: Op, i: string)
    ensures RowEvolves(op, db, Step(db, op), i)
  {
    hide AckOrchestration, DeleteInstances;
    match op
    case OpAck(t, a) => AckRow(db, t, a, i);
    case OpDelete(ids, force) => DeleteRow(db, ids, force, i);
    case _ => StepFrame(db, op);
  }

  /**
   In every reachable state an instance's current execution is the largest execution id acked since
   the instance was created, in whatever order the acks came.
   */
  lemma {:induction false} CurrentIsTheLargestAcked(ops: seq<Op>, n: nat, i: string)
    requires n <= |ops|
    ensures i in At(ops, n).instances ==> IsMax(At(ops, n).instances[i].current, Acked(ops, n, i))
    ensures i !in At(ops, n).instances ==> Acked(ops, n, i) == {}
  {
    hide Step, AcksExecution, DropsInstance;
    if n > 0 {
      CurrentIsTheLargestAcked(ops, n - 1, i);
      StepRow(At(ops, n - 1), ops[n - 1], i);
    }
  }

  /** The row of an instance came with this step. */
  ghost predicate CreatedAt(ops: seq<Op>, c: nat, i: string)
    requires c < |ops|
  {
    AcksExecution(At(ops, c), ops[c], i) && ops[c].args.meta.named && i !in At(ops, c).instances
  }

  /**
   In every reachable state an instance has the parent that was named by the ack which created its row,
   and has had this row without a break since.
   */
  lemma {:induction false} ParentIsNamedByCreator(ops: seq<Op>, n: nat, i: string) returns (c: nat)
    requires n <= |ops| && i in At(ops, n).instances
    ensures c < n && CreatedAt(ops, c, i) && ops[c].OpAck?
    ensures At(ops, n).instances[i].parent == ops[c].args.meta.parent && KeepsRow(ops, c + 1, n, i)
  {
    assert n > 0;
    hide At, CreatedAt, KeepsRow;
    NewRowIsCreated(ops, n - 1, i);
    if i in At(ops, n - 1).instances {
      c := ParentIsNamedByCreator(ops, n - 1, i);
      OneStateMore(ops, c + 1, n - 1, i);
    } else {
      c := n - 1;
      OneState(ops, n, i);
    }
  }

  /** From state k to state n the instance has its row. */
  ghost predicate KeepsRow(ops: seq<Op>, k: nat, n: nat, i: string)
    requires n <= |ops|
  {
    forall j :: k <= j <= n ==> i in At(ops, j).instances
  }

  lemma OneState(ops: seq<Op>, n: nat, i: string)
    requires n <= |ops| && i in At(ops, n).instances
    ensures KeepsRow(ops, n, n, i)
  {
    hide At;
  }

  lemma OneStateMore(ops: seq<Op>, k: nat, n: nat, i: string)
    requires n < |ops| && KeepsRow(ops, k, n, i) && i in At(ops, n + 1).instances
    ensures KeepsRow(ops, k, n + 1, i)
  {
    hide At;
  }

  lemma NewRowIsCreated(ops: seq<Op>, k: nat, i: string)
    requires k < |ops| && i in At(ops, k + 1).instances
    ensures i in At(ops, k).instances ==> At(ops, k + 1).instances[i].parent == At(ops, k).instances[i].parent
    ensures i !in At(ops, k).instances ==>
              CreatedAt(ops, k, i) && ops[k].OpAck? && At(ops, k + 1).instances[i].parent == ops[k].args.meta.parent
  {
    StepRow(At(ops, k), ops[k], i);
    assert At(ops, k + 1) == Step(At(ops, k), ops[k]);
    hide At, Step, DropsInstance;
  }

  // ---------------------------------------------------------------- pruning

  /** The execution ids of the instance that have a row. */
  function Executions(db: Db, i: string): set<nat> {
    set k | k in db.executions && k.instance == i :: k.execution
  }

  function Above(ids: set<nat>, e: nat): set<nat> {
    set l | l in ids && l > e
  }

  /** The ids among the n largest of a set. */
  function Largest(ids: set<nat>, n: nat): set<nat> {
    set e | e in ids && |Above(ids, e)| < n
  }

  lemma {:induction false} LargestCount(ids: set<nat>, n: nat)
    ensures |Largest(ids, n)| == if n <= |ids| then n else |ids|
    decreases |ids|
  {
    if ids == {} {
      assert Largest(ids, n) == {};
    } else if n == 0 {
      assert Largest(ids, n) == {};
    } else {
      var least := Least(ids);
      var rest := ids - {least};
      LargestCount(rest, n);
      assert Above(ids, least) == rest;
      forall e | e in rest ensures Above(ids, e) == Above(rest, e) {
      }
      var last := if |rest| < n then {least} else {};
      forall e ensures e in Largest(ids, n) <==> e in Largest(rest, n) + last {
        if e in rest { assert Above(ids, e) == Above(rest, e); }
      }
      assert Largest(ids, n) == Largest(rest, n) + last;
    }
  }

  /** The least element of a set. */
  lemma {:induction false} Least(ids: set<nat>) returns (least: nat)
    requires ids != {}
    ensures least in ids && forall x :: x in ids ==> least <= x
    decreases |ids|
  {
    least :| least in ids;
    var rest := ids - {least};
    if rest != {} {
      var other := Least(rest);
      assert forall x :: x in ids ==> x == least || x in rest;
      if other < least {
        least := other;
      }
    }
  }

  lemma LaterAreLarger(db: Db, i: string, e: nat)
    ensures |LaterExecutions(db, i, e)| == |Above(Executions(db, i), e)|
  {
    var keys, ids := LaterExecutions(db, i, e), Above(Executions(db, i), e);
    assert forall l :: l in ids ==> ExecutionKey(i, l) in keys;
    SameCount(keys, ids, i);
  }

  lemma {:induction false} SameCount(keys: set<ExecutionKey>, ids: set<nat>, i: string)
    requires forall k :: k in keys ==> k.instance == i && k.execution in ids
    requires forall l :: l in ids ==> ExecutionKey(i, l) in keys
    ensures |keys| == |ids|
    decreases |keys|
  {
    if keys == {} {
      assert ids == {};
    } else {
      var k :| k in keys;
      SameCount(keys - {k}, ids - {k.execution}, i);
    }
  }

  /** The current execution and the running ones, which no prune ever removes. */
  function Protected(db: Db, i: string): set<nat>
    requires i in db.instances
  {
    set e | e in Executions(db, i)
        && (e == db.instances[i].current || db.executions[ExecutionKey(i, e)].status.Running?)
  }

  /** Finished before the time; an execution without a completion time never is. */
  predicate FinishedBefore(x: Execution, time: nat) {
    x.completedAt.Some? && x.completedAt.value < time
  }

  /** What each option retains: the n largest ids, and whatever did not finish before the time. */
  function Retained(db: Db, i: string, options: PruneOptions): set<nat> {
    (if options.keepLast.Some? then Largest(Executions(db, i), options.keepLast.value) else {})
    + (if options.completedBefore.Some?
       then set e | e in Executions(db, i)
           && !FinishedBefore(db.executions[ExecutionKey(i, e)], options.completedBefore.value)
       else {})
  }

  lemma KeptByPrune(db: Db, i: string, options: PruneOptions, e: nat)
    requires i in db.instances
    ensures e in Executions(PruneExecutions(db, i, options).0, i) <==> e in Retained(db, i, options) + Protected(db, i)
  {
    var key, all := ExecutionKey(i, e), Executions(db, i);
    var after := PruneExecutions(db, i, options).0;
    LaterAreLarger(db, i, e);
    assert e in Executions(after, i) <==> key in after.executions;
    assert e in all <==> key in db.executions;
    assert key in after.executions <==> key in db.executions && !Prunable(db, i, e, options);
  }

  /** Pruning leaves exactly what some option retains, the current execution and the running ones. */
  lemma PruneLeavesExactly(db: Db, i: string, options: PruneOptions)
    requires i in db.instances
    ensures Executions(PruneExecutions(db, i, options).0, i) == Retained(db, i, options) + Protected(db, i)
  {
    var after := PruneExecutions(db, i, options).0;
    forall e ensures e in Executions(after, i) <==> e in Retained(db, i, options) + Protected(db, i) {
      KeptByPrune(db, i, options, e);
    }
  }

  // ---------------------------------------------------------------- the status of an execution

  /** The step is an accepted ack of this execution by the holder of the instance. */
  ghost predicate Reports(db: Db, op: Op, i: string, e: nat) {
    op.OpAck? && AckAccepted(db, op.token, op.args) && HolderOf(db, op.token) == Some(i) && op.args.execution == e
  }

  /** The step is a prune that retains the execution for no reason. */
  ghost predicate PrunesAway(db: Db, op: Op, i: string, e: nat) {
    op.OpPrune? && op.instance == i && i in db.instances && e !in Retained(db, i, op.options) + Protected(db, i)
  }

  /**
   What the acks of an execution reported, since it was last pruned away or deleted: the last status
   given, with the time it was given at, and running as long as none was.
   */
  ghost function Reported(ops: seq<Op>, n: nat, i: string, e: nat): Option<Execution>
    requires n <= |ops|
  {
    if n == 0 then None
    else
      var db, op, before := At(ops, n - 1), ops[n - 1], Reported(ops, n - 1, i, e);
      if DropsInstance(db, op, i) || PrunesAway(db, op, i, e) then None
      else if Reports(db, op, i, e) then
        match op.args.meta.status
        case Some(status) => Some(Execution(status, Some(db.now)))
        case None => if before.Some? then before else Some(Execution(Running, None))
      else before
  }

  /** What a step does to the row of an execution. */
  ghost predicate StatusEvolves(op: Op, a: Db, b: Db, i: string, e: nat) {
    var before, after := Lookup(a.executions, ExecutionKey(i, e)), Lookup(b.executions, ExecutionKey(i, e));
    if DropsInstance(a, op, i) || PrunesAway(a, op, i, e) then after == None
    else if Reports(a, op, i, e) then
      after == match op.args.meta.status
               case Some(status) => Some(Execution(status, Some(a.now)))
               case None => if before.Some? then before else Some(Execution(Running, None))
    else after == before
  }

  lemma AckStatus(db: Db, t: nat, a: AckArgs, i: string, e: nat)
    ensures StatusEvolves(OpAck(t, a), db, AckOrchestration(db, t, a).0, i, e)
  {
  }

  lemma DeleteStatus(db: Db, ids: set<string>, force: bool, i: string, e: nat)
    ensures StatusEvolves(OpDelete(ids, force), db, DeleteInstances(db, ids, force).0, i, e)
  {
  }

  lemma PruneStatus(db: Db, j: string, options: PruneOptions, i: string, e: nat)
    ensures StatusEvolves(OpPrune(j, options), db, PruneExecutions(db, j, options).0, i, e)
  {
    if j == i && i in db.instances {
      KeptByPrune(db, i, options, e);
      var key, after := ExecutionKey(i, e), PruneExecutions(db, i, options).0;
      assert e in Executions(after, i) <==> key in after.executions;
      hide Retained, Protected, Prunable;
    }
  }

  lemma StepStatus(db: Db, op: Op, i: string, e: nat)
    ensures StatusEvolves(op, db, Step(db, op), i, e)
  {
    hide AckOrchestration, DeleteInstances, PruneExecutions;
    match op
    case OpAck(t, a) => AckStatus(db, t, a, i, e);
    case OpDelete(ids, force) => DeleteStatus(db, ids, force, i, e);
    case OpPrune(j, options) => PruneStatus(db, j, options, i, e);
    case _ => StepFrame(db, op);
  }

  /** In every reachable state the row of an execution, or its absence, is what its acks reported last. */
  lemma {:induction false} StatusIsTheLastReported(ops: seq<Op>, n: nat, i: string, e: nat)
    requires n <= |ops|
    ensures Lookup(At(ops, n).executions, ExecutionKey(i, e)) == Reported(ops, n, i, e)
  {
    hide Step, DropsInstance, PrunesAway, Reports;
    if n > 0 {
      StatusIsTheLastReported(ops, n - 1, i, e);
      StepStatus(At(ops, n - 1), ops[n - 1], i, e);
    }
  }

  // ---------------------------------------------------------------- the documented counts

  /** The number of executions the documentation promises: none or zero means just the current one. */
  function Promised(keepLast: Option<nat>, total: nat): nat {
    if keepLast.None? || keepLast.value == 0 then 1
    else if keepLast.value <= total then keepLast.value
    else total
  }

  /** min(n, total), where no count at all keeps nothing by count. */
  function Min(keepLast: Option<nat>, total: nat): nat {
    if keepLast.None? then 0 else if keepLast.value <= total then keepLast.value else total
  }

  ghost predicate CurrentHasRow(db: Db, i: string) {
    i in db.instances ==> ExecutionKey(i, db.instances[i].current) in db.executions
  }

  lemma AckKeepsCurrentRow(db: Db, t: nat, a: AckArgs, i: string)
    requires CurrentHasRow(db, i)
    ensures CurrentHasRow(AckOrchestration(db, t, a).0, i)
  {
  }

  lemma DeleteKeepsCurrentRow(db: Db, ids: set<string>, force: bool, i: string)
    requires CurrentHasRow(db, i)
    ensures CurrentHasRow(DeleteInstances(db, ids, force).0, i)
  {
  }

  lemma PruneKeepsCurrentRow(db: Db, j: string, options: PruneOptions, i: string)
    requires CurrentHasRow(db, i)
    ensures CurrentHasRow(PruneExecutions(db, j, options).0, i)
  {
  }

  lemma StepKeepsCurrentRow(db: Db, op: Op, i: string)
    requires CurrentHasRow(db, i)
    ensures CurrentHasRow(Step(db, op), i)
  {
    hide AckOrchestration, DeleteInstances, PruneExecutions;
    match op
    case OpAck(t, a) => AckKeepsCurrentRow(db, t, a, i);
    case OpDelete(ids, force) => DeleteKeepsCurrentRow(db, ids, force, i);
    case OpPrune(j, options) => PruneKeepsCurrentRow(db, j, options, i);
    case _ => StepFrame(db, op);
  }

  /** In every reachable state the current execution of an instance has its row. */
  lemma {:induction false} CurrentAlwaysHasRow(ops: seq<Op>, n: nat, i: string)
    requires n <= |ops|
    ensures CurrentHasRow(At(ops, n), i)
  {
    hide Step;
    if n > 0 {
      hide CurrentHasRow;
      CurrentAlwaysHasRow(ops, n - 1, i);
      StepKeepsCurrentRow(At(ops, n - 1), ops[n - 1], i);
    }
  }

  /**
   Pruning by count alone leaves the n largest execution ids together with the current and the
   running ones. In a reachable state it leaves the documented number if and only if, for n > 0, the
   current and the running ones are among the n largest, and, for none or zero, nothing but the
   current execution is running.
   */
  lemma KeepLastMeetsPromise(ops: seq<Op>, k: nat, i: string, keepLast: Option<nat>)
    requires k <= |ops| && i in At(ops, k).instances
    ensures var db := At(ops, k);
            var left := Executions(PruneExecutions(db, i, PruneOptions(keepLast, None)).0, i);
            var top := Largest(Executions(db, i), if keepLast.Some? then keepLast.value else 0);
            && left == top + Protected(db, i) && |top| == Min(keepLast, |Executions(db, i)|)
            && (|left| == Promised(keepLast, |Executions(db, i)|) <==>
                if keepLast.Some? && keepLast.value > 0 then Protected(db, i) <= top
                else Protected(db, i) == {db.instances[i].current})
  {
    hide At;
    CurrentAlwaysHasRow(ops, k, i);
    PruneCount(At(ops, k), i, keepLast);
  }

  lemma PruneCount(db: Db, i: string, keepLast: Option<nat>)
    requires i in db.instances && CurrentHasRow(db, i)
    ensures var left := Executions(PruneExecutions(db, i, PruneOptions(keepLast, None)).0, i);
            var top := Largest(Executions(db, i), if keepLast.Some? then keepLast.value else 0);
            && left == top + Protected(db, i) && |top| == Min(keepLast, |Executions(db, i)|)
            && (|left| == Promised(keepLast, |Executions(db, i)|) <==>
                if keepLast.Some? && keepLast.value > 0 then Protected(db, i) <= top
                else Protected(db, i) == {db.instances[i].current})
  {
    var options, n := PruneOptions(keepLast, None), if keepLast.Some? then keepLast.value else 0;
    var all, top := Executions(db, i), Largest(Executions(db, i), n);
    LargestCount(all, n);
    PruneLeavesExactly(db, i, options);
    RetainedByCount(db, i, keepLast);
    hide PruneExecutions, Retained, Largest, Executions;
    if n > 0 {
      UnionCount(top, Protected(db, i));
    } else {
      OnlyMember(top + Protected(db, i), db.instances[i].current);
    }
  }

  lemma RetainedByCount(db: Db, i: string, keepLast: Option<nat>)
    requires i in db.instances && CurrentHasRow(db, i)
    ensures var n := if keepLast.Some? then keepLast.value else 0;
            && Retained(db, i, PruneOptions(keepLast, None)) == Largest(Executions(db, i), n)
            && (n == 0 ==> Largest(Executions(db, i), n) == {})
    ensures db.instances[i].current in Protected(db, i)
  {
    assert ExecutionKey(i, db.instances[i].current).execution in Executions(db, i);
  }

  lemma UnionCount(a: set<nat>, b: set<nat>)
    ensures |a + b| == |a| <==> b <= a
  {
    if b <= a {
      assert a + b == a;
    } else {
      ProperSubsetIsSmaller(a, a + b);
    }
  }

  lemma OnlyMember(s: set<nat>, x: nat)
    requires x in s
    ensures |s| == 1 <==> s == {x}
  {
    if |s| == 1 && s != {x} {
      ProperSubsetIsSmaller({x}, s);
    }
  }

  lemma ProperSubsetIsSmaller(a: set<nat>, b: set<nat>)
    requires a < b
    ensures |a| < |b|
  {
    assert |b| == |a| + |b - a| by { assert b == a + (b - a); }
    assert b - a != {};
  }

  /**
   Whatever the options, a prune keeps every current and running execution with its whole history,
   keeps no event of a removed one, and touches no other instance, queue, lock or key-value table.
   */
  lemma PruneKeepsWhatMatters(db: Db, i: string, options: PruneOptions)
    requires i in db.instances
    ensures var after := PruneExecutions(db, i, options).0;
            && Protected(db, i) <= Executions(after, i) <= Executions(db, i)
            && (forall k :: k in db.history ==>
                  (k in after.history <==>
                      k.instance != i || k.execution in Executions(after, i) || k.execution !in Executions(db, i)))
            && (forall k :: k in after.history ==> k in db.history && after.history[k] == db.history[k])
            && (forall k: ExecutionKey :: k.instance != i ==> Lookup(after.executions, k) == Lookup(db.executions, k))
            && after == db.(executions := after.executions, history := after.history)
            && (options == PruneOptions(None, None) ==> Executions(after, i) == Protected(db, i))
  {
    var after := PruneExecutions(db, i, options).0;
    assert forall e :: e in Executions(after, i) <==> ExecutionKey(i, e) in after.executions;
    assert forall e :: e in Executions(db, i) <==> ExecutionKey(i, e) in db.executions;
  }

  // ---------------------------------------------------------------- a promise that fails

  function PlainAck(execution: nat): AckArgs {
    AckArgs(execution, [], [], [], Metadata(true, None, None), {})
  }

  function Round(r: nat): seq<Op> {
    [OpEnqueue(StartOrchestration("i"), None), OpFetch("i", 10), OpAck(r, PlainAck(r + 1))]
  }

  /** Three executions are acked, none of them with a terminal status. */
  const THREE_RUNNING := Round(0) + Round(1) + Round(2)

  function RunningRows(r: nat): map<ExecutionKey, Execution> {
    if r == 0 then map[] else RunningRows(r - 1)[ExecutionKey("i", r) := Execution(Running, None)]
  }

  /** The state after r rounds and some steps of the next one. */
  function RoundState(r: nat, steps: nat): Db {
    var start := StartOrchestration("i");
    var idle := EMPTY_DB.(nextToken := r, nextMsg := r, nextCreated := r, executions := RunningRows(r),
                          instances := if r == 0 then map[] else map["i" := Instance(r, None, 0)],
                          kv := if r == 0 then map[] else map["i" := KvStore.NO_TABLES]);
    if steps == 0 then idle
    else if steps == 1 then idle.(oq := map[r := Msg(start, "i", 0, None, 0)], nextMsg := r + 1)
    else idle.(oq := map[r := Msg(start, "i", 0, Some(r), 1)], nextMsg := r + 1, nextToken := r + 1,
               locks := map["i" := Lock(r, 10)])
  }

  lemma RoundFetch(r: nat)
    ensures FetchOrchestration(RoundState(r, 1), "i", 10).0 == RoundState(r, 2)
  {
    var db := RoundState(r, 1);
    assert r in Batch(db, "i");
    assert FetchEffects(db, "i", 10).oq == RoundState(r, 2).oq;
    assert FetchEffects(db, "i", 10) == RoundState(r, 2);
  }

  lemma {:induction false} RunningRowsUpTo(r: nat, k: ExecutionKey)
    ensures k in RunningRows(r) <==> k.instance == "i" && 1 <= k.execution <= r
    ensures k in RunningRows(r) ==> RunningRows(r)[k] == Execution(Running, None)
  {
    if r > 0 {
      RunningRowsUpTo(r - 1, k);
    }
  }

  lemma RoundAck(r: nat)
    ensures AckOrchestration(RoundState(r, 2), r, PlainAck(r + 1)).0 == RoundState(r + 1, 0)
  {
    var db, a := RoundState(r, 2), PlainAck(r + 1);
    assert Holds(db, "i", r);
    assert HolderOf(db, r) == Some("i");
    assert Live(db, r);
    RunningRowsUpTo(r, ExecutionKey("i", r + 1));
    var after := AckEffects(db, "i", r, a);
    assert after.oq == map[] && after.wq == map[] && after.locks == map[];
    assert after.executions == RunningRows(r + 1);
    assert TablesOf(db, "i") == KvStore.NO_TABLES;
    assert after.kv == map["i" := KvStore.NO_TABLES];
    assert after.instances == map["i" := Instance(r + 1, None, 0)];
  }

  lemma RoundStep(r: nat, steps: nat)
    requires steps < 3
    ensures Step(RoundState(r, steps), Round(r)[steps])
            == if steps < 2 then RoundState(r, steps + 1) else RoundState(r + 1, 0)
  {
    hide FetchOrchestration, AckOrchestration;
    if steps == 1 {
      RoundFetch(r);
    } else if steps == 2 {
      RoundAck(r);
    }
  }

  lemma {:induction false} RoundsRun(n: nat)
    requires n <= 9
    ensures At(THREE_RUNNING, n) == RoundState(n / 3, n % 3)
  {
    hide Step, RoundState, Round;
    if n > 0 {
      RoundsRun(n - 1);
      RoundStep((n - 1) / 3, (n - 1) % 3);
      RoundOp(n - 1);
    } else {
      RoundsStart();
    }
  }

  lemma RoundsStart()
    ensures RoundState(0, 0) == EMPTY_DB
  {
  }

  lemma RoundOp(k: nat)
    requires k < 9
    ensures THREE_RUNNING[k] == Round(k / 3)[k % 3]
  {
  }

  /** A reachable state in which pruning to the last one leaves all three executions. */
  lemma KeepLastOneLeavesThree()
    ensures var db := At(THREE_RUNNING, 9);
            var left := Executions(PruneExecutions(db, "i", PruneOptions(Some(1), None)).0, "i");
            && "i" in db.instances && |left| == 3 && Promised(Some(1), |Executions(db, "i")|) == 1
            && Executions(PruneExecutions(db, "i", PruneOptions(Some(0), None)).0, "i") == left
  {
    hide At, PruneExecutions, RunningRows, Executions, Protected;
    RoundsRun(9);
    var db := At(THREE_RUNNING, 9);
    ThreeAreRunning();
    AllProtected(db, "i", PruneOptions(Some(1), None));
    AllProtected(db, "i", PruneOptions(Some(0), None));
  }

  lemma ThreeAreRunning()
    ensures var db := RoundState(3, 0);
            "i" in db.instances && Executions(db, "i") == {1, 2, 3} && Protected(db, "i") == {1, 2, 3}
  {
    var db := RoundState(3, 0);
    forall e ensures e in Executions(db, "i") <==> e in {1, 2, 3} {
      RunningRowsUpTo(3, ExecutionKey("i", e));
      assert e in Executions(db, "i") <==> ExecutionKey("i", e) in db.executions;
    }
    forall e | e in {1, 2, 3} ensures e in Protected(db, "i") {
      RunningRowsUpTo(3, ExecutionKey("i", e));
    }
  }

  lemma AllProtected(db: Db, i: string, options: PruneOptions)
    requires i in db.instances && Protected(db, i) == Executions(db, i)
    ensures Executions(PruneExecutions(db, i, options).0, i) == Executions(db, i)
  {
    hide PruneExecutions;
    PruneLeavesExactly(db, i, options);
  }
}
