/**
 The key-value tables of the provider over whole runs: the client's view is one simple map of all
 changes acked for the instance, and it is what replaying the current execution's history over
 the snapshot of a fetch rebuilds.
 */
module ProviderKv {
  import opened Common
  import opened KvStore
  import opened ProviderDb
  import opened ProviderFrames
  import opened ProviderHistory

  /** The step is an accepted ack for the instance. */
  ghost predicate AcksInstance(db: Db, op: Op, i: string) {
    op.OpAck? && AckAccepted(db, op.token, op.args) && HolderOf(db, op.token) == Some(i)
  }

  /** An execution ends by completing, by failing or by continuing as new. */
  predicate EndsExecution(status: Option<Status>) {
    match status
    case Some(Completed) => true
    case Some(Failed) => true
    case Some(ContinuedAsNew) => true
    case Some(Running) => false
    case Some(OtherStatus(_)) => false
    case None => false
  }

  lemma TerminalEnds(status: Option<Status>)
    ensures IsTerminal(status) <==> EndsExecution(status)
  {
  }

  // ---------------------------------------------------------------- one step

  ghost predicate KvEvolves(op: Op, a: Db, b: Db, i: string) {
    if DropsInstance(a, op, i) then TablesOf(b, i) == NO_TABLES
    else if AcksInstance(a, op, i) then
      TablesOf(b, i) == AckKv(TablesOf(a, i), KvChanges(op.args.delta), EndsExecution(op.args.meta.status), a.now)
    else TablesOf(b, i) == TablesOf(a, i)
  }

  lemma AckTables(db: Db, t: nat, a: AckArgs, i: string)
    ensures KvEvolves(OpAck(t, a), db, AckOrchestration(db, t, a).0, i)
  {
    TerminalEnds(a.meta.status);
    hide IsTerminal, EndsExecution;
  }

  lemma DeleteTables(db: Db, ids: set<string>, force: bool, i: string)
    ensures KvEvolves(OpDelete(ids, force), db, DeleteInstances(db, ids, force).0, i)
  {
  }

  lemma StepTables(db: Db, op: Op, i: string)
    ensures KvEvolves(op, db, Step(db, op), i)
  {
    hide AckOrchestration, DeleteInstances, AckKv;
    match op
    case OpAck(t, a) => AckTables(db, t, a, i);
    case OpDelete(ids, force) => DeleteTables(db, ids, force, i);
    case _ => StepFrame(db, op);
  }

  // ---------------------------------------------------------------- the view over a run

  /** All changes acked for the instance since it was last deleted, in order. */
  ghost function KvLog(ops: seq<Op>, n: nat, i: string): seq<KvEvent>
    requires n <= |ops|
  {
    if n == 0 || DropsInstance(At(ops, n - 1), ops[n - 1], i) then []
    else if AcksInstance(At(ops, n - 1), ops[n - 1], i) then KvLog(ops, n - 1, i) + KvChanges(ops[n - 1].args.delta)
    else KvLog(ops, n - 1, i)
  }

  /** The part of the log after the last ack that ended an execution. */
  ghost function OwnLog(ops: seq<Op>, n: nat, i: string): seq<KvEvent>
    requires n <= |ops|
  {
    if n == 0 || DropsInstance(At(ops, n - 1), ops[n - 1], i) then []
    else if AcksInstance(At(ops, n - 1), ops[n - 1], i) then
      if EndsExecution(ops[n - 1].args.meta.status) then []
      else OwnLog(ops, n - 1, i) + KvChanges(ops[n - 1].args.delta)
    else OwnLog(ops, n - 1, i)
  }

  /**
   Through any run of acks, completions, continue-as-new, expiry, pruning and deletion, the client's
   view is the fold of every change since the instance came to be, and equally the fold of the
   changes since the last terminal ack over the snapshot that a fetch hands out.
   */
  lemma {:induction false} ViewIsOneMap(ops: seq<Op>, n: nat, i: string)
    requires n <= |ops|
    ensures View(TablesOf(At(ops, n), i)) == Fold(map[], KvLog(ops, n, i))
    ensures View(TablesOf(At(ops, n), i)) == Fold(TablesOf(At(ops, n), i).store, OwnLog(ops, n, i))
  {
    hide Step, AcksInstance, DropsInstance, AckKv, View, KvChanges;
    if n > 0 {
      var db, op := At(ops, n - 1), ops[n - 1];
      ViewIsOneMap(ops, n - 1, i);
      StepTables(db, op, i);
      if DropsInstance(db, op, i) {
        EmptyView();
      } else if AcksInstance(db, op, i) {
        var t, events, terminal := TablesOf(db, i), AckedChanges(db, op, i), AckedTerminal(db, op, i);
        AckRefines(t, events, terminal, db.now);
        FoldConcat(map[], KvLog(ops, n - 1, i), events);
        FoldConcat(t.store, OwnLog(ops, n - 1, i), events);
      }
    } else {
      EmptyView();
    }
  }

  ghost function AckedChanges(db: Db, op: Op, i: string): seq<KvEvent>
    requires AcksInstance(db, op, i)
  {
    KvChanges(op.args.delta)
  }

  ghost predicate AckedTerminal(db: Db, op: Op, i: string)
    requires AcksInstance(db, op, i)
  {
    EndsExecution(op.args.meta.status)
  }

  lemma EmptyView()
    ensures View(NO_TABLES) == map[]
  {
  }

  // ---------------------------------------------------------------- when the snapshot moves on

  /**
   An accepted ack that ends the execution, by continuing as new as much as by completing or failing,
   leaves an empty delta and a store that is all a client sees; any other leaves the store alone.
   */
  lemma AckMergesByStatus(db: Db, t: nat, a: AckArgs, i: string)
    requires AcksInstance(db, OpAck(t, a), i)
    ensures var before, after := TablesOf(db, i), TablesOf(AckOrchestration(db, t, a).0, i);
            match a.meta.status
            case Some(Completed) => after == Tables(Fold(View(before), KvChanges(a.delta)), map[])
            case Some(Failed) => after == Tables(Fold(View(before), KvChanges(a.delta)), map[])
            case Some(ContinuedAsNew) => after == Tables(Fold(View(before), KvChanges(a.delta)), map[])
            case Some(Running) => after.store == before.store
            case Some(OtherStatus(_)) => after.store == before.store
            case None => after.store == before.store
  {
    AckTables(db, t, a, i);
    AckRefines(TablesOf(db, i), KvChanges(a.delta), EndsExecution(a.meta.status), db.now);
    hide AckOrchestration, TablesOf, AckKv, View, Fold, KvChanges;
  }

  /** The changes acked for the instance up to the last ack that ended an execution. */
  ghost function EndedLog(ops: seq<Op>, n: nat, i: string): seq<KvEvent>
    requires n <= |ops|
  {
    if n == 0 || DropsInstance(At(ops, n - 1), ops[n - 1], i) then []
    else if AcksInstance(At(ops, n - 1), ops[n - 1], i) && EndsExecution(ops[n - 1].args.meta.status)
    then KvLog(ops, n, i)
    else EndedLog(ops, n - 1, i)
  }

  /**
   Over every run the snapshot that seeds the next execution is the fold of all changes up to the last
   ack that ended an execution; what came after it is not in there yet.
   */
  lemma {:induction false} SnapshotIsEndedLog(ops: seq<Op>, n: nat, i: string)
    requires n <= |ops|
    ensures TablesOf(At(ops, n), i).store == Fold(map[], EndedLog(ops, n, i))
  {
    hide Step, AcksInstance, DropsInstance, AckKv, View, KvChanges;
    if n > 0 {
      var db, op := At(ops, n - 1), ops[n - 1];
      SnapshotIsEndedLog(ops, n - 1, i);
      StepTables(db, op, i);
      if AcksInstance(db, op, i) && !DropsInstance(db, op, i) {
        ViewIsOneMap(ops, n, i);
        SnapshotAfterAck(db, op, i);
      }
    }
  }

  lemma SnapshotAfterAck(db: Db, op: Op, i: string)
    requires AcksInstance(db, op, i)
    ensures op.OpAck?
    ensures TablesOf(Step(db, op), i).store
            == if EndsExecution(op.args.meta.status) then View(TablesOf(Step(db, op), i)) else TablesOf(db, i).store
  {
    AckIsTheStep(db, op);
    AckMergesByStatus(db, op.token, op.args, i);
    hide AckOrchestration, TablesOf, Fold, KvChanges;
  }

  // ---------------------------------------------------------------- what replay reads

  /** The key-value change recorded under a key, if it is one. */
  function ChangeAt(h: map<EventKey, EventKind>, key: EventKey): seq<KvEvent> {
    if key in h && h[key].KeyValue? then [h[key].change] else []
  }

  /** The key-value changes in the history of one execution, in event id order, up to an id. */
  function ChangesUpTo(h: map<EventKey, EventKind>, i: string, e: nat, bound: nat): seq<KvEvent> {
    if bound == 0 then [] else ChangesUpTo(h, i, e, bound - 1) + ChangeAt(h, EventKey(i, e, bound))
  }

  ghost function LargestId(h: map<EventKey, EventKind>): (bound: nat)
    ensures forall k :: k in h ==> k.id <= bound
    decreases |h|
  {
    if h == map[] then 0
    else
      var key :| key in h;
      Max(key.id, LargestId(h - {key}))
  }

  /** What replaying an execution's history folds into the context. */
  ghost function Recorded(h: map<EventKey, EventKind>, i: string, e: nat): seq<KvEvent> {
    ChangesUpTo(h, i, e, LargestId(h))
  }

  /** No change of the execution has a larger id. */
  ghost predicate Bounded(h: map<EventKey, EventKind>, i: string, e: nat, bound: nat) {
    forall id: nat :: id > bound ==> ChangeAt(h, EventKey(i, e, id)) == []
  }

  lemma {:induction false} SameChangesUpTo(
    h: map<EventKey, EventKind>, h': map<EventKey, EventKind>, i: string, e: nat, bound: nat)
    requires forall id: nat :: id <= bound ==> ChangeAt(h, EventKey(i, e, id)) == ChangeAt(h', EventKey(i, e, id))
    ensures ChangesUpTo(h, i, e, bound) == ChangesUpTo(h', i, e, bound)
  {
    if bound > 0 {
      SameChangesUpTo(h, h', i, e, bound - 1);
    }
  }

  lemma {:induction false} BeyondTheBound(h: map<EventKey, EventKind>, i: string, e: nat, bound: nat, more: nat)
    requires Bounded(h, i, e, bound) && bound <= more
    ensures ChangesUpTo(h, i, e, more) == ChangesUpTo(h, i, e, bound)
  {
    if bound < more {
      BeyondTheBound(h, i, e, bound, more - 1);
      assert ChangeAt(h, EventKey(i, e, more)) == [];
    }
  }

  /** Any bound serves. */
  lemma RecordedUpTo(h: map<EventKey, EventKind>, i: string, e: nat, bound: nat)
    requires Bounded(h, i, e, bound)
    ensures Recorded(h, i, e) == ChangesUpTo(h, i, e, bound)
  {
    var large := bound + LargestId(h);
    BeyondTheBound(h, i, e, bound, large);
    BeyondTheBound(h, i, e, LargestId(h), large);
  }

  lemma SameRecorded(h: map<EventKey, EventKind>, h': map<EventKey, EventKind>, i: string, e: nat)
    requires forall id: nat :: ChangeAt(h, EventKey(i, e, id)) == ChangeAt(h', EventKey(i, e, id))
    ensures Recorded(h, i, e) == Recorded(h', i, e)
  {
    var large := LargestId(h) + LargestId(h');
    RecordedUpTo(h, i, e, large);
    RecordedUpTo(h', i, e, large);
    SameChangesUpTo(h, h', i, e, large);
  }

  /** The ids the runtime assigns grow, past the changes already recorded. */
  ghost predicate Ascending(h: map<EventKey, EventKind>, i: string, e: nat, delta: seq<Event>) {
    && (forall id: nat, a :: ChangeAt(h, EventKey(i, e, id)) != [] && 0 <= a < |delta| ==> id < delta[a].id)
    && (forall a, b :: 0 <= a < b < |delta| ==> delta[a].id < delta[b].id)
  }

  /** Appending an ascending delta appends its changes to what replay reads. */
  lemma {:induction false} AppendExtendsReplay(h: map<EventKey, EventKind>, i: string, e: nat, delta: seq<Event>)
    requires AppendHistory(h, i, e, delta).Some? && Ascending(h, i, e, delta)
    ensures Recorded(AppendHistory(h, i, e, delta).value, i, e) == Recorded(h, i, e) + KvChanges(delta)
  {
    if delta != [] {
      hide Ascending, Recorded, AppendHistory, KvChanges;
      var init, last := delta[..|delta| - 1], delta[|delta| - 1];
      LastAppend(h, i, e, delta);
      PriorIsBelow(h, i, e, delta);
      AppendExtendsReplay(h, i, e, init);
      ReplaySnoc(AppendHistory(h, i, e, init).value, i, e, last);
    }
  }

  lemma LastAppend(h: map<EventKey, EventKind>, i: string, e: nat, delta: seq<Event>)
    requires delta != [] && AppendHistory(h, i, e, delta).Some?
    ensures var last, prior := delta[|delta| - 1], AppendHistory(h, i, e, delta[..|delta| - 1]);
            && prior.Some? && EventKey(i, e, last.id) !in prior.value
            && AppendHistory(h, i, e, delta).value == prior.value[EventKey(i, e, last.id) := last.kind]
            && KvChanges(delta)
               == KvChanges(delta[..|delta| - 1]) + if last.kind.KeyValue? then [last.kind.change] else []
  {
  }

  /** Before its last event is added, an ascending append has only smaller ids. */
  lemma PriorIsBelow(h: map<EventKey, EventKind>, i: string, e: nat, delta: seq<Event>)
    requires delta != [] && AppendHistory(h, i, e, delta).Some? && Ascending(h, i, e, delta)
    ensures delta[|delta| - 1].id > 0
    ensures Ascending(h, i, e, delta[..|delta| - 1])
    ensures Bounded(AppendHistory(h, i, e, delta[..|delta| - 1]).value, i, e, delta[|delta| - 1].id - 1)
  {
    var init, last := delta[..|delta| - 1], delta[|delta| - 1];
    AppendIsExact(h, i, e, init);
    var prior := AppendHistory(h, i, e, init).value;
    forall id: nat ensures ChangeAt(prior, EventKey(i, e, id)) != [] ==> id < last.id {
      var key := EventKey(i, e, id);
      assert key in h ==> ChangeAt(prior, key) == ChangeAt(h, key);
    }
  }

  lemma ReplaySnoc(h: map<EventKey, EventKind>, i: string, e: nat, last: Event)
    requires last.id > 0 && Bounded(h, i, e, last.id - 1)
    ensures Recorded(h[EventKey(i, e, last.id) := last.kind], i, e)
            == Recorded(h, i, e) + (if last.kind.KeyValue? then [last.kind.change] else [])
  {
    var h' := h[EventKey(i, e, last.id) := last.kind];
    SameChangesUpTo(h, h', i, e, last.id - 1);
    RecordedUpTo(h, i, e, last.id - 1);
    RecordedUpTo(h', i, e, last.id);
  }

  /** A delta without changes leaves what replay reads of any execution as it is, whatever its ids. */
  lemma PlainAppendKeepsReplay(h: map<EventKey, EventKind>, i: string, e: nat, delta: seq<Event>, j: string, f: nat)
    requires AppendHistory(h, i, e, delta).Some?
    requires KvChanges(delta) == [] || EventKey(i, e, 0) != EventKey(j, f, 0)
    ensures Recorded(AppendHistory(h, i, e, delta).value, j, f) == Recorded(h, j, f)
  {
    var h' := AppendHistory(h, i, e, delta).value;
    AppendIsExact(h, i, e, delta);
    forall id: nat ensures ChangeAt(h, EventKey(j, f, id)) == ChangeAt(h', EventKey(j, f, id)) {
      var key := EventKey(j, f, id);
      if key in h' && key !in h && KvChanges(delta) == [] {
        var a :| 0 <= a < |delta| && key == EventKey(i, e, delta[a].id);
        NoChangeIsListed(delta, a);
      }
    }
    SameRecorded(h, h', j, f);
  }

  lemma {:induction false} NoChangeIsListed(delta: seq<Event>, a: nat)
    requires a < |delta|
    ensures KvChanges(delta) == [] ==> !delta[a].kind.KeyValue?
  {
    if a < |delta| - 1 {
      NoChangeIsListed(delta[..|delta| - 1], a);
    }
  }

  // ---------------------------------------------------------------- replay against the view

  /** Changes are recorded only for instances with a row, up to the current execution. */
  ghost predicate Placed(db: Db, i: string) {
    forall e: nat, id: nat :: ChangeAt(db.history, EventKey(i, e, id)) != [] ==>
      i in db.instances && e <= db.instances[i].current
  }

  /** Replaying the current execution's history over the snapshot of a fetch gives the client's view. */
  ghost predicate ReplaysView(db: Db, i: string) {
    i in db.instances ==>
      Fold(TablesOf(db, i).store, Recorded(db.history, i, db.instances[i].current)) == View(TablesOf(db, i))
  }

  /**
   What the runtime sees to when an ack carries changes: the event ids grow, and the instance has
   its row or gets it with this ack.
   */
  ghost predicate Disciplined(db: Db, op: Op, i: string) {
    AcksInstance(db, op, i) && KvChanges(op.args.delta) != [] ==>
      Ascending(db.history, i, op.args.execution, op.args.delta) && (op.args.meta.named || i in db.instances)
  }

  /**
   The condition on an ack, key by key. An ack of the current execution is always fine, finished or
   not. One that starts a later execution must be terminal, or touch every key that has not been
   merged yet. The changes of an ack to an older execution must leave what is seen as it is; if the
   ack is terminal, only those to keys that the current execution has touched too must do what that
   did last.
   */
  ghost predicate KeepsReplay(db: Db, op: Op, i: string) {
    AcksInstance(db, op, i) && (op.args.meta.named || i in db.instances) ==>
      var e, changes, terminal := op.args.execution, KvChanges(op.args.delta), EndsExecution(op.args.meta.status);
      if i !in db.instances || e > db.instances[i].current then terminal || TouchesUnmerged(TablesOf(db, i), changes)
      else if e == db.instances[i].current then true
      else if terminal then TouchesAlike(changes, Recorded(db.history, i, db.instances[i].current))
      else ShowsNothing(View(TablesOf(db, i)), changes)
  }

  /** The changes touch every key at which the view differs from the snapshot. */
  ghost predicate TouchesUnmerged(t: Tables, changes: seq<KvEvent>) {
    forall k :: LastTouch(changes, k).None? ==> Lookup(View(t), k) == Lookup(t.store, k)
  }

  /** Keys that both touch are left the same by both. */
  ghost predicate TouchesAlike(changes: seq<KvEvent>, own: seq<KvEvent>) {
    forall k :: LastTouch(changes, k).Some? && LastTouch(own, k).Some? ==> LastTouch(changes, k) == LastTouch(own, k)
  }

  /** The changes leave every key they touch as it is in the view. */
  ghost predicate ShowsNothing(view: map<string, Entry>, changes: seq<KvEvent>) {
    forall k :: LastTouch(changes, k).Some? ==> LastTouch(changes, k).value == Lookup(view, k)
  }

  lemma TouchesUnmergedIff(t: Tables, changes: seq<KvEvent>)
    ensures TouchesUnmerged(t, changes) <==> Fold(t.store, changes) == Fold(View(t), changes)
  {
    hide Fold, View;
    forall k
      ensures Lookup(Fold(t.store, changes), k) == Lookup(Fold(View(t), changes), k)
              <==> (LastTouch(changes, k).None? ==> Lookup(View(t), k) == Lookup(t.store, k))
    {
      FoldByLastTouch(t.store, changes, k);
      FoldByLastTouch(View(t), changes, k);
    }
    if TouchesUnmerged(t, changes) {
      SameLookups(Fold(t.store, changes), Fold(View(t), changes));
    }
  }

  lemma TouchesAlikeIff(store: map<string, Entry>, own: seq<KvEvent>, changes: seq<KvEvent>)
    ensures var view := Fold(Fold(store, own), changes); TouchesAlike(changes, own) <==> Fold(view, own) == view
  {
    hide Fold;
    var before := Fold(store, own);
    var view := Fold(before, changes);
    forall k
      ensures Lookup(Fold(view, own), k) == Lookup(view, k)
              <==> (LastTouch(changes, k).Some? && LastTouch(own, k).Some?
                    ==> LastTouch(changes, k) == LastTouch(own, k))
    {
      FoldByLastTouch(store, own, k);
      FoldByLastTouch(before, changes, k);
      FoldByLastTouch(view, own, k);
    }
    if TouchesAlike(changes, own) {
      SameLookups(Fold(view, own), view);
    }
  }

  lemma ShowsNothingIff(view: map<string, Entry>, changes: seq<KvEvent>)
    ensures ShowsNothing(view, changes) <==> Fold(view, changes) == view
  {
    hide Fold;
    forall k
      ensures Lookup(Fold(view, changes), k) == Lookup(view, k)
              <==> (LastTouch(changes, k).Some? ==> LastTouch(changes, k).value == Lookup(view, k))
    {
      FoldByLastTouch(view, changes, k);
    }
    if ShowsNothing(view, changes) {
      SameLookups(Fold(view, changes), view);
    }
  }

  /** Neither acked nor deleted: same row, same tables, same changes in the current execution. */
  ghost predicate LeavesAlone(a: Db, b: Db, i: string) {
    && Lookup(a.instances, i) == Lookup(b.instances, i) && TablesOf(a, i) == TablesOf(b, i)
    && (forall e: nat, id: nat :: ChangeAt(b.history, EventKey(i, e, id)) != [] ==>
          ChangeAt(a.history, EventKey(i, e, id)) == ChangeAt(b.history, EventKey(i, e, id)))
    && (i in a.instances ==> forall id: nat ::
          ChangeAt(b.history, EventKey(i, a.instances[i].current, id))
          == ChangeAt(a.history, EventKey(i, a.instances[i].current, id)))
  }

  lemma AckLeavesOthers(db: Db, t: nat, a: AckArgs, i: string)
    requires !AcksInstance(db, OpAck(t, a), i)
    ensures LeavesAlone(db, AckOrchestration(db, t, a).0, i)
  {
    if AckAccepted(db, t, a) {
      AppendIsExact(db.history, HolderOf(db, t).value, a.execution, a.delta);
    }
  }

  lemma DeleteLeavesOthers(db: Db, ids: set<string>, force: bool, i: string)
    requires !DropsInstance(db, OpDelete(ids, force), i)
    ensures LeavesAlone(db, DeleteInstances(db, ids, force).0, i)
  {
  }

  lemma PruneLeavesCurrent(db: Db, j: string, options: PruneOptions, i: string)
    ensures LeavesAlone(db, PruneExecutions(db, j, options).0, i)
  {
  }

  lemma OthersLeaveAlone(db: Db, op: Op, i: string)
    requires !AcksInstance(db, op, i) && !DropsInstance(db, op, i)
    ensures LeavesAlone(db, Step(db, op), i)
  {
    hide AckOrchestration, DeleteInstances, PruneExecutions;
    match op
    case OpAck(t, a) => AckLeavesOthers(db, t, a, i);
    case OpDelete(ids, force) => DeleteLeavesOthers(db, ids, force, i);
    case OpPrune(j, options) => PruneLeavesCurrent(db, j, options, i);
    case _ => StepFrame(db, op);
  }

  lemma LeftAloneReplays(a: Db, b: Db, i: string)
    requires LeavesAlone(a, b, i)
    ensures Placed(a, i) ==> Placed(b, i)
    ensures ReplaysView(a, i) <==> ReplaysView(b, i)
  {
    assert Lookup(a.instances, i) == Lookup(b.instances, i);
    if i in a.instances {
      SameRecorded(a.history, b.history, i, a.instances[i].current);
    }
    if Placed(a, i) {
      forall e: nat, id: nat | ChangeAt(b.history, EventKey(i, e, id)) != []
        ensures i in b.instances && e <= b.instances[i].current
      {
        assert ChangeAt(a.history, EventKey(i, e, id)) != [];
      }
    }
  }

  lemma NothingPlaced(h: map<EventKey, EventKind>, i: string, e: nat)
    requires forall id: nat :: ChangeAt(h, EventKey(i, e, id)) == []
    ensures Recorded(h, i, e) == []
  {
    RecordedUpTo(h, i, e, 0);
  }

  lemma AckRecorded(db: Db, i: string, a: AckArgs)
    requires AppendHistory(db.history, i, a.execution, a.delta).Some?
    requires KvChanges(a.delta) != [] ==> Ascending(db.history, i, a.execution, a.delta)
    ensures var h' := AppendHistory(db.history, i, a.execution, a.delta).value;
            && Recorded(h', i, a.execution) == Recorded(db.history, i, a.execution) + KvChanges(a.delta)
            && forall e :: e != a.execution ==> Recorded(h', i, e) == Recorded(db.history, i, e)
  {
    var h' := AppendHistory(db.history, i, a.execution, a.delta).value;
    if KvChanges(a.delta) == [] {
      PlainAppendKeepsReplay(db.history, i, a.execution, a.delta, i, a.execution);
    } else {
      AppendExtendsReplay(db.history, i, a.execution, a.delta);
    }
    forall e | e != a.execution ensures Recorded(h', i, e) == Recorded(db.history, i, e) {
      PlainAppendKeepsReplay(db.history, i, a.execution, a.delta, i, e);
    }
  }

  /** After an ack replay rebuilds the view if and only if the ack met the condition. */
  lemma AckReplaysIff(db: Db, t: nat, a: AckArgs, i: string)
    requires AcksInstance(db, OpAck(t, a), i) && Disciplined(db, OpAck(t, a), i)
    requires Placed(db, i) && ReplaysView(db, i)
    ensures ReplaysView(AckOrchestration(db, t, a).0, i) <==> KeepsReplay(db, OpAck(t, a), i)
  {
    var after, changes, terminal := AckOrchestration(db, t, a).0, KvChanges(a.delta), EndsExecution(a.meta.status);
    var tables := TablesOf(db, i);
    TerminalEnds(a.meta.status);
    hide IsTerminal, EndsExecution;
    assert after.instances == WithInstance(db, i, a);
    assert TablesOf(after, i) == AckKv(tables, changes, terminal, db.now);
    AckRecorded(db, i, a);
    AckRefines(tables, changes, terminal, db.now);
    if i in after.instances {
      hide View, Fold, Recorded, AckKv, AppendHistory, KvChanges, AckOrchestration, TablesOf;
      hide TouchesUnmerged, TouchesAlike, ShowsNothing;
      var opens := i !in db.instances || a.execution > db.instances[i].current;
      if opens {
        NothingPlaced(db.history, i, a.execution);
        assert [] + changes == changes;
        FoldTwice(View(tables), changes);
        TouchesUnmergedIff(tables, changes);
      } else {
        var own := Recorded(db.history, i, db.instances[i].current);
        if a.execution == db.instances[i].current {
          FoldConcat(tables.store, own, changes);
          FoldTwice(tables.store, own + changes);
        } else {
          TouchesAlikeIff(tables.store, own, changes);
          ShowsNothingIff(View(tables), changes);
        }
      }
    }
  }

  lemma AckKeepsPlaced(db: Db, t: nat, a: AckArgs, i: string)
    requires AcksInstance(db, OpAck(t, a), i) && Disciplined(db, OpAck(t, a), i) && Placed(db, i)
    ensures Placed(AckOrchestration(db, t, a).0, i)
  {
    var after := AckOrchestration(db, t, a).0;
    AppendIsExact(db.history, i, a.execution, a.delta);
    forall e: nat, id: nat | ChangeAt(after.history, EventKey(i, e, id)) != []
      ensures i in after.instances && e <= after.instances[i].current
    {
      if EventKey(i, e, id) !in db.history {
        var x :| 0 <= x < |a.delta| && EventKey(i, e, id) == EventKey(i, a.execution, a.delta[x].id);
        NoChangeIsListed(a.delta, x);
      } else {
        assert ChangeAt(db.history, EventKey(i, e, id)) != [];
      }
    }
  }

  lemma AckIsTheStep(db: Db, op: Op)
    requires op.OpAck?
    ensures Step(db, op) == AckOrchestration(db, op.token, op.args).0
  {
  }

  lemma DroppedReplays(db: Db, op: Op, i: string)
    requires DropsInstance(db, op, i)
    ensures Placed(Step(db, op), i) && ReplaysView(Step(db, op), i)
  {
  }

  lemma StepKeepsPlaced(db: Db, op: Op, i: string)
    requires Disciplined(db, op, i) && Placed(db, i)
    ensures Placed(Step(db, op), i)
  {
    hide Step, Placed, DropsInstance, Disciplined;
    if DropsInstance(db, op, i) {
      DroppedReplays(db, op, i);
    } else if AcksInstance(db, op, i) {
      AckIsTheStep(db, op);
      AckKeepsPlaced(db, op.token, op.args, i);
    } else {
      OthersLeaveAlone(db, op, i);
      LeftAloneReplays(db, Step(db, op), i);
    }
  }

  lemma StepReplaysIff(db: Db, op: Op, i: string)
    requires Disciplined(db, op, i) && Placed(db, i) && ReplaysView(db, i)
    ensures ReplaysView(Step(db, op), i) <==> KeepsReplay(db, op, i)
  {
    hide Step, Placed, DropsInstance, Disciplined, ReplaysView;
    if DropsInstance(db, op, i) {
      DroppedReplays(db, op, i);
      assert !AcksInstance(db, op, i) by { DropsAreNoAcks(db, op, i); }
    } else if AcksInstance(db, op, i) {
      AckIsTheStep(db, op);
      AckReplaysIff(db, op.token, op.args, i);
    } else {
      OthersLeaveAlone(db, op, i);
      LeftAloneReplays(db, Step(db, op), i);
    }
  }

  lemma DropsAreNoAcks(db: Db, op: Op, i: string)
    requires DropsInstance(db, op, i)
    ensures !AcksInstance(db, op, i)
  {
  }

  lemma {:induction false} RunIsPlaced(ops: seq<Op>, n: nat, i: string)
    requires n <= |ops| && forall j :: 0 <= j < n ==> Disciplined(At(ops, j), ops[j], i)
    ensures Placed(At(ops, n), i)
  {
    hide Step, Disciplined;
    if n > 0 {
      hide Placed;
      RunIsPlaced(ops, n - 1, i);
      StepKeepsPlaced(At(ops, n - 1), ops[n - 1], i);
    }
  }

  lemma StartReplays(ops: seq<Op>, i: string)
    ensures ReplaysView(At(ops, 0), i)
  {
  }

  /**
   Replay rebuilds what the client sees at every point of a run if and only if every ack meets the
   condition; pruning, expiry, redelivery, deletion and recreation are all part of the run.
   */
  lemma {:induction false} ReplayRebuildsIff(ops: seq<Op>, n: nat, i: string)
    requires n <= |ops| && forall j :: 0 <= j < n ==> Disciplined(At(ops, j), ops[j], i)
    ensures (forall k :: 0 <= k <= n ==> ReplaysView(At(ops, k), i))
            <==> (forall j :: 0 <= j < n ==> KeepsReplay(At(ops, j), ops[j], i))
  {
    hide Step, At, Disciplined, ReplaysView, KeepsReplay, Placed;
    if n > 0 {
      ReplayRebuildsIff(ops, n - 1, i);
      if forall k :: 0 <= k <= n - 1 ==> ReplaysView(At(ops, k), i) {
        RunIsPlaced(ops, n - 1, i);
        StepReplaysIff(At(ops, n - 1), ops[n - 1], i);
        NextIsTheStep(ops, n);
      }
    } else {
      StartReplays(ops, i);
    }
  }

  lemma NextIsTheStep(ops: seq<Op>, n: nat)
    requires 0 < n <= |ops|
    ensures At(ops, n) == Step(At(ops, n - 1), ops[n - 1])
  {
  }

  // ---------------------------------------------------------------- how the dispatcher acks

  /**
   The dispatcher acks the current execution, finished or not, with or without changes; a later
   one once everything is merged; or it acks without any changes.
   */
  ghost predicate Orderly(db: Db, op: Op, i: string) {
    AcksInstance(db, op, i) ==>
      var e, t := op.args.execution, TablesOf(db, i);
      if i in db.instances && e <= db.instances[i].current
      then e == db.instances[i].current || KvChanges(op.args.delta) == []
      else t.delta == map[] || EndsExecution(op.args.meta.status)
  }

  lemma OrderlyKeepsReplay(db: Db, op: Op, i: string)
    requires Orderly(db, op, i)
    ensures KeepsReplay(db, op, i)
  {
    if AcksInstance(db, op, i) && TablesOf(db, i).delta == map[] {
      NothingUnmerged(TablesOf(db, i));
    }
  }

  lemma NothingUnmerged(t: Tables)
    requires t.delta == map[]
    ensures View(t) == t.store
  {
  }

  /**
   Replay rebuilds what the client sees: in every run of a dispatcher, a context that is seeded with
   the snapshot of a fetch and folds the changes found in the current execution's history, up to
   any id past them, holds exactly the values of the client's view.
   */
  lemma {:induction false} ReplayRebuildsTheView(ops: seq<Op>, n: nat, i: string, bound: nat)
    requires n <= |ops| && forall j :: 0 <= j < n ==>
              Disciplined(At(ops, j), ops[j], i) && Orderly(At(ops, j), ops[j], i)
    requires i in At(ops, n).instances && Bounded(At(ops, n).history, i, At(ops, n).instances[i].current, bound)
    ensures var db := At(ops, n);
            Values(View(TablesOf(db, i)))
            == FoldValues(Values(TablesOf(db, i).store), ChangesUpTo(db.history, i, db.instances[i].current, bound))
  {
    var db := At(ops, n);
    OrderlyRunReplays(ops, n, i);
    RecordedUpTo(db.history, i, db.instances[i].current, bound);
    FoldValuesIsFold(TablesOf(db, i).store, Recorded(db.history, i, db.instances[i].current));
  }

  lemma {:induction false} OrderlyRunReplays(ops: seq<Op>, n: nat, i: string)
    requires n <= |ops| && forall j :: 0 <= j < n ==>
              Disciplined(At(ops, j), ops[j], i) && Orderly(At(ops, j), ops[j], i)
    ensures ReplaysView(At(ops, n), i)
  {
    hide Step, At, Disciplined, ReplaysView, KeepsReplay, Placed, Orderly;
    if n > 0 {
      OrderlyRunReplays(ops, n - 1, i);
      RunIsPlaced(ops, n - 1, i);
      OrderlyKeepsReplay(At(ops, n - 1), ops[n - 1], i);
      StepReplaysIff(At(ops, n - 1), ops[n - 1], i);
      NextIsTheStep(ops, n);
    } else {
      StartReplays(ops, i);
    }
  }

  // ---------------------------------------------------------------- an execution started too early

  const SET_K := KeyValueSet("k", "v", 0)

  function EarlyAck(execution: nat, delta: seq<Event>): AckArgs {
    AckArgs(execution, delta, [], [], Metadata(true, None, None), {})
  }

  /** The first execution sets a key; the second one starts before the first has ended. */
  const EARLY := [
    OpEnqueue(StartOrchestration("i"), None), OpFetch("i", 10), OpAck(0, EarlyAck(1, [Event(1, KeyValue(SET_K))])),
    OpEnqueue(StartOrchestration("i"), None), OpFetch("i", 10), OpAck(1, EarlyAck(2, []))]

  /** The state before the n-th step of a round whose records are given. */
  function EarlyState(records: Db, r: nat, steps: nat): Db {
    var start := StartOrchestration("i");
    if steps == 0 then records
    else if steps == 1 then records.(oq := map[r := Msg(start, "i", 0, None, 0)], nextMsg := r + 1)
    else records.(oq := map[r := Msg(start, "i", 0, Some(r), 1)], nextMsg := r + 1, nextToken := r + 1,
                  locks := map["i" := Lock(r, 10)])
  }

  const KEY_IS_SET := EMPTY_DB.(
    nextToken := 1, nextMsg := 1, nextCreated := 1,
    instances := map["i" := Instance(1, None, 0)],
    executions := map[ExecutionKey("i", 1) := Execution(Running, None)],
    history := map[EventKey("i", 1, 1) := KeyValue(SET_K)],
    kv := map["i" := Tables(map[], map["k" := Mark(Some("v"), 0)])])

  /** Queueing a start item and fetching it, from any idle state. */
  lemma EarlyFetch(records: Db, r: nat)
    requires records.oq == map[] && records.locks == map[] && records.now == 0
    requires records.nextToken == r && records.nextMsg == r
    ensures EnqueueOrchestrator(records, StartOrchestration("i"), None).0 == EarlyState(records, r, 1)
    ensures FetchOrchestration(EarlyState(records, r, 1), "i", 10).0 == EarlyState(records, r, 2)
  {
    var db := EarlyState(records, r, 1);
    assert r in Batch(db, "i");
    assert FetchEffects(db, "i", 10).oq == EarlyState(records, r, 2).oq;
    assert FetchEffects(db, "i", 10).locks == EarlyState(records, r, 2).locks;
  }

  lemma EarlyHolds(records: Db, r: nat, a: AckArgs)
    requires records.now == 0
    requires AppendHistory(records.history, "i", a.execution, a.delta).Some? && a.meta.parent == None
    ensures AcksInstance(EarlyState(records, r, 2), OpAck(r, a), "i")
  {
    var db := EarlyState(records, r, 2);
    assert Holds(db, "i", r);
    assert HolderOf(db, r) == Some("i") && Live(db, r);
  }

  lemma SetOneKey()
    ensures AckKv(NO_TABLES, [SET_K], false, 0) == Tables(map[], map["k" := Mark(Some("v"), 0)])
  {
    assert [SET_K][..0] == [];
    assert MaterializeAll(NO_TABLES, [], 0) == NO_TABLES;
    assert MaterializeAll(NO_TABLES, [SET_K], 0) == Materialize(NO_TABLES, SET_K, 0);
  }

  lemma FirstEarlyAck()
    ensures AckOrchestration(EarlyState(EMPTY_DB, 0, 2), 0, EarlyAck(1, [Event(1, KeyValue(SET_K))])).0 == KEY_IS_SET
  {
    var delta := [Event(1, KeyValue(SET_K))];
    var db, a := EarlyState(EMPTY_DB, 0, 2), EarlyAck(1, delta);
    assert delta[..0] == [];
    assert AppendHistory(db.history, "i", 1, delta) == Some(map[EventKey("i", 1, 1) := KeyValue(SET_K)]);
    EarlyHolds(EMPTY_DB, 0, a);
    assert KvChanges(delta) == [SET_K] && [SET_K][..0] == [];
    SetOneKey();
    var after := AckEffects(db, "i", 0, a);
    assert after.oq == map[] && after.wq == map[] && after.locks == map[];
    assert after.instances == KEY_IS_SET.instances && after.executions == KEY_IS_SET.executions;
    assert after.kv == KEY_IS_SET.kv;
  }

  lemma EarlyFirst()
    ensures At(EARLY, 3) == KEY_IS_SET
  {
    hide EarlyState;
    EarlyFetch(EMPTY_DB, 0);
    FirstEarlyAck();
    hide AckOrchestration, FetchOrchestration, EnqueueOrchestrator;
    assert At(EARLY, 1) == EnqueueOrchestrator(At(EARLY, 0), StartOrchestration("i"), None).0;
    assert At(EARLY, 2) == FetchOrchestration(At(EARLY, 1), "i", 10).0;
    assert At(EARLY, 3) == AckOrchestration(At(EARLY, 2), 0, EARLY[2].args).0;
  }

  lemma EarlyRun()
    ensures At(EARLY, 5) == EarlyState(KEY_IS_SET, 1, 2)
  {
    hide EarlyState;
    EarlyFirst();
    EarlyFetch(KEY_IS_SET, 1);
    hide FetchOrchestration, EnqueueOrchestrator;
    assert At(EARLY, 4) == EnqueueOrchestrator(At(EARLY, 3), StartOrchestration("i"), None).0;
    assert At(EARLY, 5) == FetchOrchestration(At(EARLY, 4), "i", 10).0;
  }

  lemma KeyIsRecorded()
    ensures Recorded(KEY_IS_SET.history, "i", 1) == [SET_K]
  {
    var h := KEY_IS_SET.history;
    RecordedUpTo(h, "i", 1, 1);
    assert ChangesUpTo(h, "i", 1, 0) == [];
    assert ChangeAt(h, EventKey("i", 1, 1)) == [SET_K];
  }

  lemma KeyIsSeen()
    ensures View(Tables(map[], map["k" := Mark(Some("v"), 0)])) == Fold(map[], [SET_K])
  {
    assert [SET_K][..0] == [];
    assert Fold(map[], []) == map[];
    assert Fold(map[], [SET_K]) == map["k" := Entry("v", 0)];
  }

  lemma KeyIsReplayed()
    ensures Placed(EarlyState(KEY_IS_SET, 1, 2), "i") && ReplaysView(EarlyState(KEY_IS_SET, 1, 2), "i")
  {
    hide Recorded, View, Fold, ChangesUpTo;
    KeyIsRecorded();
    KeyIsSeen();
  }

  predicate GetsKey(db: Db) {
    ReadKey(TablesOf(db, "i"), "k") == Some("v")
  }

  /** The second ack brings no changes, is not terminal, and finds the key not merged yet. */
  lemma EarlyAckIsTooEarly()
    ensures var db, op := EarlyState(KEY_IS_SET, 1, 2), OpAck(1, EarlyAck(2, []));
            AcksInstance(db, op, "i") && Disciplined(db, op, "i") && !KeepsReplay(db, op, "i")
  {
    var db := EarlyState(KEY_IS_SET, 1, 2);
    EarlyHolds(KEY_IS_SET, 1, EarlyAck(2, []));
    assert Lookup(View(TablesOf(db, "i")), "k").Some? && Lookup(TablesOf(db, "i").store, "k").None?;
    assert KvChanges([]) == [] && LastTouch([], "k").None?;
  }

  lemma EarlyAckKeepsKey()
    ensures var after := AckOrchestration(EarlyState(KEY_IS_SET, 1, 2), 1, EarlyAck(2, [])).0;
            "i" in after.instances && GetsKey(after)
  {
    var db, a := EarlyState(KEY_IS_SET, 1, 2), EarlyAck(2, []);
    EarlyHolds(KEY_IS_SET, 1, a);
    AckTables(db, 1, a, "i");
    assert AckKv(TablesOf(db, "i"), [], false, 0) == TablesOf(db, "i");
  }

  /** A run in which replay loses a key that every client still reads. */
  lemma EarlyExecutionLosesKeys()
    ensures "i" in At(EARLY, 6).instances && GetsKey(At(EARLY, 6)) && !ReplaysView(At(EARLY, 6), "i")
  {
    var db, a := EarlyState(KEY_IS_SET, 1, 2), EarlyAck(2, []);
    EarlyRun();
    assert EARLY[5] == OpAck(1, a) && At(EARLY, 6) == AckOrchestration(db, 1, a).0;
    hide At, Step, AckOrchestration, ReplaysView, Placed, EarlyState, KeepsReplay, Disciplined, AcksInstance, GetsKey;
    KeyIsReplayed();
    EarlyAckIsTooEarly();
    EarlyAckKeepsKey();
    AckReplaysIff(db, 1, a, "i");
  }
}
