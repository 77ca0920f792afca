/**
 The provider as the object it is: one field per table, one method per call, each running the
 statements of its transaction in order and rolling back on failure. Every method is proved
 against the step it stands for in ProviderDb.
 */
module Providers {
  import opened Common
  import opened KvStore
  import opened ProviderDb
  import opened ProviderHistory
  import opened ProviderInstances
  import opened ProviderOrder
  import opened ProviderWorker

  datatype Deletion = Deleted | NotFound | NotRoot | StillRunning

  class Provider {
    var now: nat
    var nextToken: nat
    var nextMsg: nat
    var nextRow: nat
    var nextCreated: nat
    var oq: map<nat, Msg>
    var wq: map<nat, Row>
    var locks: map<string, Lock>
    var instances: map<string, Instance>
    var executions: map<ExecutionKey, Execution>
    var history: map<EventKey, EventKind>
    var kv: map<string, Tables>

    function State(): Db
      reads this
    {
      Db(now, nextToken, nextMsg, nextRow, nextCreated, oq, wq, locks, instances, executions, history, kv)
    }

    ghost predicate Valid()
      reads this
    {
      WellFormed(State())
    }

    constructor ()
      ensures Valid() && State() == EMPTY_DB
    {
      now, nextToken, nextMsg, nextRow, nextCreated := 0, 0, 0, 0, 0;
      oq, wq, locks, instances, executions, history, kv := map[], map[], map[], map[], map[], map[], map[];
    }

    /** Undoes the statements of a transaction. */
    method Rollback(saved: Db)
      modifies this
      ensures State() == saved
    {
      now, nextToken, nextMsg := saved.now, saved.nextToken, saved.nextMsg;
      nextRow, nextCreated := saved.nextRow, saved.nextCreated;
      oq, wq, locks, instances := saved.oq, saved.wq, saved.locks, saved.instances;
      executions, history, kv := saved.executions, saved.history, saved.kv;
    }

    method Tick(duration: nat)
      requires Valid()
      modifies `now
      ensures Valid() && State() == Step(old(State()), OpTick(duration))
    {
      hide WellFormed;
      TickKeepsWellFormed(State(), now + duration);
      now := now + duration;
    }

    // -------------------------------------------------------------- enqueueing

    method EnqueueForOrchestrator(item: WorkItem, delay: Option<nat>) returns (ok: bool)
      requires Valid()
      modifies `oq, `nextMsg
      ensures Valid() && (State(), ok) == EnqueueOrchestrator(old(State()), item, delay)
    {
      hide WellFormed;
      EnqueueKeepsWellFormed(State(), item, delay);
      var target := Target(item);
      if target.None? {
        return false;
      }
      var visibleAt := now;
      if delay.Some? {
        visibleAt := now + delay.value;
      }
      oq := oq[nextMsg := Msg(item, target.value, visibleAt, None, 0)];
      nextMsg := nextMsg + 1;
      ok := true;
    }

    method EnqueueForWorker(key: ActivityKey)
      requires Valid()
      modifies `wq, `nextRow
      ensures Valid() && State() == EnqueueWorker(old(State()), key)
    {
      hide WellFormed;
      EnqueueWorkerKeepsWellFormed(State(), key);
      wq := wq[nextRow := Row(key, now, None, 0)];
      nextRow := nextRow + 1;
    }

    // -------------------------------------------------------------- orchestration items

    /** The select of a fetch: the instance of the first visible message that is not locked. */
    method SelectCandidate() returns (found: Option<string>)
      requires Valid()
      ensures found.None? ==> forall i :: Available(State(), i) ==> Batch(State(), i) == {}
      ensures found.Some? ==> IsCandidate(State(), found.value)
    {
      var id := 0;
      while id < nextMsg
        invariant id <= nextMsg
        invariant forall m :: m in oq && m < id && oq[m].visibleAt <= now ==> !Available(State(), oq[m].instance)
      {
        if id in oq && oq[id].visibleAt <= now && Available(State(), oq[id].instance) {
          assert id in Batch(State(), oq[id].instance);
          return Some(oq[id].instance);
        }
        id := id + 1;
      }
      found := None;
      forall i | Available(State(), i) ensures Batch(State(), i) == {} {
        forall m ensures m !in Batch(State(), i) {
        }
      }
    }

    /** The messages carrying a token in id order, and the largest attempt counter among them. */
    method SelectTagged(token: nat) returns (ids: seq<nat>, attempts: nat)
      requires IdsOk(State())
      ensures forall a, b :: 0 <= a < b < |ids| ==> ids[a] < ids[b]
      ensures forall m :: m in ids <==> m in oq && oq[m].tag == Some(token)
      ensures forall m :: m in ids ==> oq[m].attempts <= attempts
      ensures attempts == 0 || exists m :: m in ids && oq[m].attempts == attempts
    {
      ids, attempts := [], 0;
      var id := 0;
      while id < nextMsg
        invariant id <= nextMsg
        invariant forall a, b :: 0 <= a < b < |ids| ==> ids[a] < ids[b]
        invariant forall m :: m in ids <==> m in oq && m < id && oq[m].tag == Some(token)
        invariant forall m :: m in ids ==> oq[m].attempts <= attempts
        invariant attempts == 0 || exists m :: m in ids && oq[m].attempts == attempts
      {
        if id in oq && oq[id].tag == Some(token) {
          ghost var before := ids;
          ids := ids + [id];
          assert forall m :: m in ids <==> m in before || m == id;
          assert forall a :: 0 <= a < |before| ==> before[a] in before && ids[a] == before[a];
          if attempts < oq[id].attempts {
            attempts := oq[id].attempts;
          }
        }
        id := id + 1;
      }
    }

    /** Upserts the instance lock and tags and counts the visible messages. */
    method Claim(instance: string, timeout: nat) returns (token: nat)
      modifies `oq, `locks, `nextToken
      ensures token == old(nextToken) && State() == FetchEffects(old(State()), instance, timeout)
    {
      token := nextToken;
      nextToken := nextToken + 1;
      locks := locks[instance := Lock(token, now + timeout)];
      oq := map m | m in oq :: if oq[m].instance == instance && oq[m].visibleAt <= now
                               then oq[m].(tag := Some(token), attempts := oq[m].attempts + 1) else oq[m];
    }

    /** Deletes the messages and the lock that carry the token. */
    method DropTagged(token: nat)
      modifies `oq, `locks
      ensures State() == old(State()).(oq := oq, locks := locks)
      ensures oq == map m | m in old(oq) && old(oq)[m].tag != Some(token) :: old(oq)[m]
      ensures locks == map j | j in old(locks) && old(locks)[j].token != token :: old(locks)[j]
    {
      oq := map m | m in oq && oq[m].tag != Some(token) :: oq[m];
      locks := map j | j in locks && locks[j].token != token :: locks[j];
    }

    /**
     Peek-lock: the first available instance is locked under a fresh token, all its visible messages
     are tagged with it and counted, and they are returned in queue order with the largest counter and
     the snapshot of the instance's merged keys.
     Without any context the messages are dropped if all are queue messages, or left for later.
     */
    method FetchOrchestrationItem(timeout: nat)
      returns (i: Option<string>, result: FetchResult, items: seq<WorkItem>, attempts: nat,
               snapshot: map<string, Entry>)
      requires Valid()
      modifies this
      ensures Valid()
      ensures i.None? ==> State() == old(State()) && result == NothingFetched
      ensures i.None? ==> forall j :: Available(State(), j) ==> Batch(State(), j) == {}
      ensures i.Some? ==> IsCandidate(old(State()), i.value)
      ensures i.Some? ==> (State(), result) == FetchOrchestration(old(State()), i.value, timeout)
      ensures result.Fetched? ==> InQueueOrder(oq, result.batch, items) && IsLargestCounter(oq, result.batch, attempts)
      ensures result.Fetched? ==> i.Some? && snapshot == TablesOf(State(), i.value).store
    {
      hide WellFormed, HasContext, IsCandidate, InQueueOrder, IsLargestCounter;
      var saved := State();
      result, items, attempts, snapshot := NothingFetched, [], 0, map[];
      i := SelectCandidate();
      if i.None? {
        return;
      }
      var instance := i.value;
      CandidateIsReady(saved, instance);
      FetchKeepsWellFormed(saved, instance, timeout);
      var token := Claim(instance, timeout);
      FetchEffectsKeepWellFormed(saved, instance, timeout);
      WellFormedParts(State());
      var ids: seq<nat>;
      ids, attempts := SelectTagged(token);
      TaggedIsBatch(saved, instance, timeout, ids);
      items := ItemsOf(oq, ids);
      if HasContext(saved, instance) {
        result := Fetched(token, SetOf(ids));
        snapshot := TablesOf(State(), instance).store;
        ItemsInOrder(oq, ids);
        CounterIsLargest(saved, instance, timeout, ids, attempts);
      } else if forall m :: m in ids ==> oq[m].item.QueueMessage? {
        DropIsRollbackAndDelete(saved, instance, token, timeout);
        DropTagged(token);
        result := DroppedOrphans(SetOf(ids));
      } else {
        Rollback(saved);
      }
    }

    /** The lock row with this token. */
    method SelectHolder(token: nat) returns (i: Option<string>)
      requires Valid()
      ensures i == HolderOf(State(), token)
    {
      if j :| j in locks && locks[j].token == token {
        HolderIsUnique(State(), j, token);
        i := Some(j);
      } else {
        assert forall j :: !Holds(State(), j, token);
        i := None;
      }
    }

    method DeleteTaggedMessages(token: nat)
      modifies `oq
      ensures oq == WithoutTag(old(oq), token)
    {
      oq := map m | m in oq && oq[m].tag != Some(token) :: oq[m];
    }

    /** Inserts the instance row if it is named and new, then raises the current execution. */
    method UpsertInstance(i: string, a: AckArgs) returns (ok: bool)
      modifies `instances, `nextCreated
      ensures ok <==> ParentExists(old(State()), i, a.meta)
      ensures ok ==> instances == WithInstance(old(State()), i, a) && nextCreated == old(nextCreated) + 1
    {
      if a.meta.named && i !in instances {
        if a.meta.parent.Some? && a.meta.parent.value !in instances {
          return false;
        }
        instances := instances[i := Instance(a.execution, a.meta.parent, nextCreated)];
      }
      nextCreated := nextCreated + 1;
      if i in instances {
        instances := instances[i := instances[i].(current := Max(instances[i].current, a.execution))];
      }
      ok := true;
    }

    /** Inserts the execution row if it is new, then sets the status if one is given. */
    method UpsertExecution(i: string, a: AckArgs)
      modifies `executions
      ensures executions == WithExecution(old(State()), i, a)
    {
      var key := ExecutionKey(i, a.execution);
      if key !in executions {
        executions := executions[key := Execution(Running, None)];
      }
      if a.meta.status.Some? {
        executions := executions[key := Execution(a.meta.status.value, Some(now))];
      }
    }

    /** Refuses events without an id, then inserts them one by one under a unique key. */
    method InsertHistory(i: string, e: nat, delta: seq<Event>) returns (ok: bool)
      modifies `history
      ensures ok <==> AppendHistory(old(history), i, e, delta).Some?
      ensures ok ==> history == AppendHistory(old(history), i, e, delta).value
    {
      ghost var before := history;
      AppendIsExact(before, i, e, delta);
      for n := 0 to |delta|
        invariant forall a :: 0 <= a < n ==> delta[a].id != 0
      {
        if delta[n].id == 0 {
          return false;
        }
      }
      assert delta[..|delta|] == delta;
      for n := 0 to |delta|
        invariant AppendHistory(before, i, e, delta[..n]) == Some(history)
      {
        var key := EventKey(i, e, delta[n].id);
        assert delta[..n + 1][..n] == delta[..n] && delta[..n + 1][n] == delta[n];
        if key in history {
          AppendFailsForGood(before, i, e, delta, n + 1);
          return false;
        }
        history := history[key := delta[n].kind];
      }
      ok := true;
    }

    /** Applies the key-value events of the delta to the instance's rows, and merges at a terminal status. */
    method MaterializeKv(i: string, delta: seq<Event>, terminal: bool)
      modifies `kv
      ensures kv == old(kv)[i := AckKv(TablesOf(old(State()), i), KvChanges(delta), terminal, now)]
    {
      ghost var before := TablesOf(State(), i);
      var t := TablesOf(State(), i);
      assert delta[..|delta|] == delta;
      for n := 0 to |delta|
        invariant t == MaterializeAll(before, KvChanges(delta[..n]), now)
      {
        assert delta[..n + 1][..n] == delta[..n] && delta[..n + 1][n] == delta[n];
        match delta[n].kind
        case KeyValue(change) =>
          ghost var changes := KvChanges(delta[..n]);
          assert (changes + [change])[..|changes|] == changes;
          t := Materialize(t, change, now);
        case _ =>
      }
      if terminal {
        t := Merge(t);
      }
      kv := kv[i := t];
    }

    method InsertWorkerItems(keys: seq<ActivityKey>)
      modifies `wq, `nextRow
      ensures wq == InsertRows(old(wq), old(nextRow), keys, now) && nextRow == old(nextRow) + |keys|
    {
      ghost var before := wq;
      assert keys[..|keys|] == keys;
      for n := 0 to |keys|
        invariant nextRow == old(nextRow) + n && wq == InsertRows(before, old(nextRow), keys[..n], now)
      {
        assert keys[..n + 1][..n] == keys[..n];
        wq := wq[nextRow := Row(keys[n], now, None, 0)];
        nextRow := nextRow + 1;
      }
    }

    /** Lock stealing: the rows of cancelled activities go, held or not. */
    method DeleteCancelled(cancelled: set<ActivityKey>)
      modifies `wq
      ensures wq == WithoutKeys(old(wq), cancelled)
    {
      if cancelled != {} {
        wq := map r | r in wq && wq[r].key !in cancelled :: wq[r];
      } else {
        assert wq == WithoutKeys(wq, cancelled);
      }
    }

    method InsertOrchestratorItems(items: seq<WorkItem>)
      modifies `oq, `nextMsg
      ensures oq == InsertMsgs(old(oq), old(nextMsg), items, now) && nextMsg == old(nextMsg) + |items|
    {
      ghost var before := oq;
      assert items[..|items|] == items;
      for n := 0 to |items|
        invariant nextMsg == old(nextMsg) + n && oq == InsertMsgs(before, old(nextMsg), items[..n], now)
      {
        assert items[..n + 1][..n] == items[..n];
        var target := Target(items[n]);
        if target.Some? {
          var visibleAt := if items[n].TimerFired? then items[n].fireAt else now;
          oq := oq[nextMsg := Msg(items[n], target.value, visibleAt, None, 0)];
        }
        nextMsg := nextMsg + 1;
      }
    }

    /** The instance, execution, history and key-value rows of an ack. */
    method WriteRecords(i: string, a: AckArgs) returns (ok: bool)
      modifies `instances, `nextCreated, `executions, `history, `kv
      ensures ok <==>
                ParentExists(old(State()), i, a.meta) && AppendHistory(old(history), i, a.execution, a.delta).Some?
      ensures ok ==> instances == WithInstance(old(State()), i, a) && nextCreated == old(nextCreated) + 1
      ensures ok ==> executions == WithExecution(old(State()), i, a)
      ensures ok ==> history == AppendHistory(old(history), i, a.execution, a.delta).value
      ensures ok ==>
                kv == old(kv)[i := AckKv(TablesOf(old(State()), i), KvChanges(a.delta), IsTerminal(a.meta.status), now)]
    {
      hide WithInstance, WithExecution, AppendHistory, AckKv, KvChanges, ParentExists, IsTerminal;
      ghost var before := State();
      ok := UpsertInstance(i, a);
      if !ok {
        return;
      }
      SameForTables(before, State(), i, a);
      UpsertExecution(i, a);
      ok := InsertHistory(i, a.execution, a.delta);
      if !ok {
        return;
      }
      SameForTables(before, State(), i, a);
      MaterializeKv(i, a.delta, IsTerminal(a.meta.status));
    }

    /** The worker rows, cancellations and messages of an ack; what it cancels may be what it inserts. */
    method WriteQueues(a: AckArgs)
      modifies `oq, `nextMsg, `wq, `nextRow
      ensures wq == WithoutKeys(InsertRows(old(wq), old(nextRow), a.workerItems, now), a.cancelled)
      ensures nextRow == old(nextRow) + |a.workerItems|
      ensures oq == InsertMsgs(old(oq), old(nextMsg), a.orchestratorItems, now)
      ensures nextMsg == old(nextMsg) + |a.orchestratorItems|
    {
      hide WithoutKeys, InsertRows, InsertMsgs;
      InsertWorkerItems(a.workerItems);
      DeleteCancelled(a.cancelled);
      InsertOrchestratorItems(a.orchestratorItems);
    }

    /** The statements of an ack between finding its lock row and checking it. */
    method ApplyTurn(i: string, token: nat, a: AckArgs) returns (ok: bool)
      modifies `oq, `nextMsg, `wq, `nextRow, `instances, `nextCreated, `executions, `history, `kv
      ensures ok <==>
                ParentExists(old(State()), i, a.meta) && AppendHistory(old(history), i, a.execution, a.delta).Some?
      ensures ok ==> State() == AckEffects(old(State()), i, token, a).(locks := old(locks))
    {
      hide WithInstance, WithExecution, WithoutTag, WithoutKeys, InsertRows, InsertMsgs, AppendHistory, AckKv,
           KvChanges, ParentExists, IsTerminal;
      ghost var before := State();
      DeleteTaggedMessages(token);
      SameForTables(before, State(), i, a);
      ok := WriteRecords(i, a);
      if !ok {
        return;
      }
      WriteQueues(a);
    }

    /**
     The turn's ack: messages, instance, execution, history, key-value rows, worker rows,
     cancellations and new messages change together, or nothing changes. The lock is looked up first
     and its expiry is checked last, after every other statement.
     */
    method AckOrchestrationItem(token: nat, a: AckArgs) returns (ok: bool)
      requires Valid()
      modifies this
      ensures Valid() && (State(), ok) == AckOrchestration(old(State()), token, a)
    {
      hide WellFormed, Holds, AckEffects, AckAccepted;
      var saved := State();
      AckKeepsWellFormed(saved, token, a);
      AckDecision(saved, token, a);
      var holder := SelectHolder(token);
      if holder.None? {
        return false;
      }
      var i := holder.value;
      ok := ApplyTurn(i, token, a);
      if !ok || locks[i].until <= now {
        Rollback(saved);
        return false;
      }
      AckEffectsReleaseLock(saved, i, token, a);
      locks := locks - {i};
    }

    method RenewOrchestrationItemLock(token: nat, extend: nat) returns (ok: bool)
      requires Valid()
      modifies `locks
      ensures Valid() && (State(), ok) == RenewOrchestration(old(State()), token, extend)
    {
      hide WellFormed, Holds;
      RenewKeepsWellFormed(State(), token, extend);
      LiveDecision(State(), token);
      var holder := SelectHolder(token);
      ok := holder.Some? && locks[holder.value].until > now;
      if ok {
        locks := locks[holder.value := Lock(token, now + extend)];
      }
    }

    method DecrementAttempts(i: string)
      modifies `oq
      ensures oq == Abandoned(old(State()), i, None, true)
    {
      oq := map m | m in oq :: if oq[m].instance == i then oq[m].(attempts := Decrement(oq[m].attempts)) else oq[m];
    }

    method DelayMessages(i: string, delay: nat)
      modifies `oq
      ensures oq == Abandoned(old(State()), i, Some(delay), false)
    {
      oq := map m | m in oq :: if oq[m].instance == i && oq[m].visibleAt <= now
                               then oq[m].(visibleAt := now + delay) else oq[m];
    }

    /** Releases the lock, expired or not; the decrement and the delay hit every message of the instance. */
    method AbandonOrchestrationItem(token: nat, delay: Option<nat>, ignoreAttempt: bool) returns (ok: bool)
      requires Valid()
      modifies `locks, `oq
      ensures Valid() && (State(), ok) == AbandonOrchestration(old(State()), token, delay, ignoreAttempt)
    {
      hide WellFormed, Holds, Abandoned;
      ghost var before := State();
      AbandonKeepsWellFormed(before, token, delay, ignoreAttempt);
      var holder := SelectHolder(token);
      if holder.None? {
        return false;
      }
      var i := holder.value;
      locks := locks - {i};
      AbandonInTwoSteps(before, State(), i, None);
      if ignoreAttempt {
        DecrementAttempts(i);
      }
      AbandonInTwoSteps(before, State(), i, delay);
      if delay.Some? {
        DelayMessages(i, delay.value);
      }
      ok := true;
    }

    // -------------------------------------------------------------- work items

    /** The select of a work fetch: the first visible row that is not locked. */
    method SelectFirstRow() returns (r: Option<nat>)
      requires Valid()
      ensures r.None? ==> forall x :: !RowAvailable(State(), x)
      ensures r.Some? ==> IsFirst(State(), r.value)
    {
      var id := 0;
      while id < nextRow
        invariant id <= nextRow
        invariant forall x: nat :: x < id ==> !RowAvailable(State(), x)
      {
        if RowAvailable(State(), id) {
          return Some(id);
        }
        id := id + 1;
      }
      r := None;
    }

    /** The available row with the least id is locked under a fresh token and counted. */
    method FetchWorkItem(timeout: nat) returns (r: Option<nat>, token: nat, attempts: nat)
      requires Valid()
      modifies `wq, `nextToken
      ensures Valid()
      ensures r.None? ==> State() == old(State()) && forall x :: !RowAvailable(State(), x)
      ensures r.Some? ==> IsFirst(old(State()), r.value)
      ensures r.Some? ==> (State(), Some(token)) == FetchWork(old(State()), r.value, timeout)
      ensures r.Some? ==> r.value in wq && wq[r.value].attempts == attempts
    {
      hide WellFormed, RowAvailable;
      token, attempts := nextToken, 0;
      r := SelectFirstRow();
      if r.None? {
        return;
      }
      var id := r.value;
      FirstIsQueued(State(), id);
      FetchWorkKeepsWellFormed(State(), id, timeout);
      attempts := wq[id].attempts + 1;
      wq := wq[id := wq[id].(lock := Some(Lock(token, now + timeout)), attempts := attempts)];
      nextToken := nextToken + 1;
    }

    /** The worker row with this token. */
    method SelectRow(token: nat) returns (r: Option<nat>)
      requires Valid()
      ensures r == RowOf(State(), token)
      ensures r.Some? ==> RowHolds(State(), r.value, token)
    {
      if x :| x in wq && wq[x].lock.Some? && wq[x].lock.value.token == token {
        RowIsUnique(State(), x, token);
        r := Some(x);
      } else {
        assert forall x :: !RowHolds(State(), x, token);
        r := None;
      }
    }

    /** Deletes the row under an unexpired lock and enqueues its completion; an invalid completion undoes both. */
    method AckWorkItem(token: nat, completion: Option<WorkItem>) returns (ok: bool)
      requires Valid()
      modifies this
      ensures Valid() && (State(), ok) == AckWork(old(State()), token, completion)
    {
      hide WellFormed;
      var saved := State();
      AckWorkKeepsWellFormed(saved, token, completion);
      var r := SelectRow(token);
      if r.None? || wq[r.value].lock.value.until <= now {
        return false;
      }
      wq := wq - {r.value};
      if completion.Some? {
        if !completion.value.ActivityCompleted? && !completion.value.ActivityFailed? {
          Rollback(saved);
          return false;
        }
        oq := oq[nextMsg := Msg(completion.value, completion.value.instance, now, None, 0)];
        nextMsg := nextMsg + 1;
      }
      ok := true;
    }

    method RenewWorkItemLock(token: nat, extend: nat) returns (ok: bool)
      requires Valid()
      modifies `wq
      ensures Valid() && (State(), ok) == RenewWork(old(State()), token, extend)
    {
      hide WellFormed;
      RenewWorkKeepsWellFormed(State(), token, extend);
      var r := SelectRow(token);
      ok := r.Some? && wq[r.value].lock.value.until > now;
      if ok {
        wq := wq[r.value := wq[r.value].(lock := Some(Lock(token, now + extend)))];
      }
    }

    method AbandonWorkItem(token: nat, delay: Option<nat>, ignoreAttempt: bool) returns (ok: bool)
      requires Valid()
      modifies `wq
      ensures Valid() && (State(), ok) == AbandonWork(old(State()), token, delay, ignoreAttempt)
    {
      hide WellFormed;
      AbandonWorkKeepsWellFormed(State(), token, delay, ignoreAttempt);
      var visibleAt := now;
      if delay.Some? {
        visibleAt := now + delay.value;
      }
      var r := SelectRow(token);
      ok := r.Some?;
      if ok {
        var row := wq[r.value];
        if ignoreAttempt {
          wq := wq[r.value := Row(row.key, visibleAt, None, Decrement(row.attempts))];
        } else {
          wq := wq[r.value := Row(row.key, visibleAt, None, row.attempts)];
        }
      }
    }

    // -------------------------------------------------------------- reads

    /** The delta row decides if there is one, then the store row; either way it is the merged view's value. */
    method GetKvValue(i: string, key: string) returns (value: Option<string>)
      ensures value == Lookup(Values(View(TablesOf(State(), i))), key)
    {
      var t := TablesOf(State(), i);
      if key in t.delta {
        return t.delta[key].value;
      }
      if key in t.store {
        return Some(t.store[key].value);
      }
      value := None;
    }

    /** The store rows overlaid with the delta rows, one by one, in any order. */
    method GetKvAllValues(i: string) returns (values: map<string, string>)
      ensures values == Values(View(TablesOf(State(), i)))
    {
      var t := TablesOf(State(), i);
      values := Values(t.store);
      var rows := t.delta.Keys;
      hide Values, View;
      assert t.delta - rows == map[];
      NoDeltaIsStore(t.store);
      while rows != {}
        invariant rows <= t.delta.Keys
        invariant values == Values(View(Tables(t.store, t.delta - rows)))
        decreases |rows|
      {
        var k :| k in rows;
        OverlayRow(t.store, t.delta - rows, k, t.delta[k]);
        assert (t.delta - rows)[k := t.delta[k]] == t.delta - (rows - {k});
        rows := rows - {k};
        match t.delta[k].value
        case Some(value) => values := values[k := value];
        case None => values := values - {k};
      }
      assert t.delta - {} == t.delta;
    }

    /** SUM(LENGTH(value)) over the rows, in any order. */
    static method SumLengths(rows: set<(string, string)>) returns (total: nat)
      ensures total == TotalLength(rows)
    {
      total := 0;
      var rest := rows;
      while rest != {}
        invariant rest <= rows && total + TotalLength(rest) == TotalLength(rows)
        decreases |rest|
      {
        var row :| row in rest;
        TotalWithout(rest, row);
        total := total + |row.1|;
        rest := rest - {row};
      }
    }

    /** Statistics of an instance: its key count and the total length of its values in the merged view. */
    method GetInstanceStats(i: string) returns (stats: Option<(nat, nat, nat)>)
      ensures stats.Some? <==> i in instances
      ensures stats.Some? ==>
                var view := View(TablesOf(State(), i));
                && stats.value.0 == |set k | k in history && k.instance == i && k.execution == instances[i].current|
                && stats.value.1 == |view| && stats.value.2 == TotalLength(RowsOf(Values(view)))
    {
      if i !in instances {
        return None;
      }
      var events := set k | k in history && k.instance == i && k.execution == instances[i].current;
      var t := TablesOf(State(), i);
      var all := StatRows(t);
      var total := SumLengths(all);
      StatsAreOfTheView(t);
      stats := Some((|events|, |all|, total));
    }

    method ListChildren(p: string) returns (children: seq<string>)
      ensures NoRepeats(children) && forall c :: c in children <==> IsChild(State(), p, c)
    {
      children := [];
      var rest := instances.Keys;
      while rest != {}
        invariant rest <= instances.Keys && NoRepeats(children)
        invariant forall c :: c in children <==> IsChild(State(), p, c) && c !in rest
        decreases |rest|
      {
        var c :| c in rest;
        rest := rest - {c};
        if instances[c].parent == Some(p) {
          ghost var before := children;
          children := children + [c];
          assert forall x :: x in children <==> x in before || x == c;
          assert forall k :: 0 <= k < |before| ==> before[k] in before;
        }
      }
    }

    // -------------------------------------------------------------- trees, deletion, pruning

    /**
     Pops an instance, records it and pushes its children until nothing is left. Terminates on every
     forest and returns the root and exactly its descendants, none of them twice.
     */
    method GetInstanceTree(root: string) returns (ids: seq<string>)
      requires Valid()
      ensures NoRepeats(ids) && forall i :: i in ids <==> i == root || i in Tree(State(), root)
    {
      hide WellFormed;
      WellFormedParts(State());
      ids := [];
      var stack := [root];
      ghost var all := instances.Keys + {root};
      while stack != []
        invariant WalkOk(State(), root, ids, stack)
        decreases |all| - |ids|
      {
        var parent := stack[|stack| - 1];
        ghost var popped := stack[..|stack| - 1];
        var children := ListChildren(parent);
        WalkStep(State(), root, ids, stack, children);
        WalkIsBounded(State(), root, ids + [parent], popped + children);
        stack := stack[..|stack| - 1] + children;
        ids := ids + [parent];
      }
      WalkIsDone(State(), root, ids);
    }

    /** The status check of an unforced delete. */
    method AnyRunning(ids: seq<string>) returns (running: bool)
      ensures running <==> exists i :: i in ids && CurrentlyRunning(State(), i)
    {
      hide CurrentlyRunning;
      for n := 0 to |ids|
        invariant forall k :: 0 <= k < n ==> !CurrentlyRunning(State(), ids[k])
      {
        if CurrentlyRunning(State(), ids[n]) {
          assert ids[n] in ids;
          return true;
        }
      }
      running := false;
    }

    method DeleteHistories(gone: set<string>)
      modifies `history, `executions
      ensures history == WithoutInstances(old(State()), gone).history
      ensures executions == WithoutInstances(old(State()), gone).executions
    {
      history := map k | k in history && k.instance !in gone :: history[k];
      executions := map k | k in executions && k.instance !in gone :: executions[k];
    }

    method DeleteQueued(gone: set<string>)
      modifies `oq, `wq
      ensures oq == WithoutInstances(old(State()), gone).oq
      ensures wq == WithoutInstances(old(State()), gone).wq
    {
      oq := map m | m in oq && oq[m].instance !in gone :: oq[m];
      wq := map r | r in wq && wq[r].key.instance !in gone :: wq[r];
    }

    /** The bulk deletes, table by table. */
    method DeleteRecords(gone: set<string>)
      modifies this
      ensures State() == WithoutInstances(old(State()), gone)
    {
      DeleteHistories(gone);
      DeleteQueued(gone);
      locks := locks - gone;
      kv := kv - gone;
      instances := instances - gone;
    }

    method DeleteInstancesAtomic(ids: seq<string>, force: bool) returns (ok: bool)
      requires Valid()
      modifies this
      ensures Valid() && (State(), ok) == DeleteInstances(old(State()), SetOf(ids), force)
    {
      hide WellFormed, WouldOrphan, CurrentlyRunning, WithoutInstances;
      var gone := SetOf(ids);
      DeleteKeepsWellFormed(State(), gone, force);
      if ids == [] {
        DeletingNothing(State(), gone, force);
        return true;
      }
      if !force {
        var running := AnyRunning(ids);
        if running {
          assert exists i :: i in gone && CurrentlyRunning(State(), i);
          return false;
        }
        assert forall i :: i in gone ==> i in ids;
      }
      if WouldOrphan(State(), gone) {
        return false;
      }
      DeleteRecords(gone);
      ok := true;
    }

    /**
     Deletes a root with its whole tree. Unknown instances and sub-orchestrations are refused; a
     forced delete of a root always succeeds.
     */
    method DeleteInstance(i: string, force: bool) returns (outcome: Deletion)
      requires Valid()
      modifies this
      ensures Valid()
      ensures outcome == NotFound <==> i !in old(instances)
      ensures outcome == NotRoot <==> i in old(instances) && old(instances)[i].parent.Some?
      ensures i in old(instances) && old(instances)[i].parent.None? ==>
                (State(), outcome == Deleted) == DeleteInstances(old(State()), Tree(old(State()), i), force)
      ensures outcome != Deleted ==> State() == old(State())
      ensures force && i in old(instances) && old(instances)[i].parent.None? ==> outcome == Deleted
    {
      hide WellFormed, WouldOrphan, CurrentlyRunning;
      if i !in instances {
        return NotFound;
      }
      if instances[i].parent.Some? {
        return NotRoot;
      }
      WellFormedParts(State());
      var tree := GetInstanceTree(i);
      assert SetOf(tree) == Tree(State(), i);
      TreeIsClosed(State(), i);
      var ok := DeleteInstancesAtomic(tree, force);
      outcome := if ok then Deleted else StillRunning;
    }

    /** Deletes the history and the row of each execution in turn. */
    method DeleteExecutions(i: string, found: set<nat>)
      modifies `executions, `history
      ensures executions == KeptExecutions(old(executions), i, found) && history == KeptHistory(old(history), i, found)
    {
      hide KeptExecutions, KeptHistory;
      ghost var before := State();
      var rest := found;
      KeepingAll(before, i);
      assert found - rest == {};
      while rest != {}
        invariant rest <= found
        invariant executions == KeptExecutions(before.executions, i, found - rest)
        invariant history == KeptHistory(before.history, i, found - rest)
        decreases |rest|
      {
        var e :| e in rest;
        KeepingFewer(before, i, found - rest, e);
        assert found - (rest - {e}) == found - rest + {e};
        rest := rest - {e};
        history := map k | k in history && !(k.instance == i && k.execution == e) :: history[k];
        executions := executions - {ExecutionKey(i, e)};
      }
      assert found - rest == found;
    }

    /** Finds the prunable executions, then deletes the history and the row of each. */
    method PruneExecutions(i: string, options: PruneOptions) returns (pruned: Option<nat>)
      requires Valid()
      modifies `executions, `history
      ensures Valid() && (State(), pruned.Some?) == ProviderDb.PruneExecutions(old(State()), i, options)
      ensures pruned.Some? ==> pruned.value == |Executions(old(State()), i)| - |Executions(State(), i)|
    {
      hide WellFormed, Prunable, ProviderDb.PruneExecutions, Executions, KeptExecutions, KeptHistory;
      ghost var before := State();
      PruneKeepsWellFormed(before, i, options);
      if i !in instances {
        PruneOfUnknown(before, i, options);
        return None;
      }
      var found :=
        set k | k in executions && k.instance == i && Prunable(State(), i, k.execution, options) :: k.execution;
      DeleteExecutions(i, found);
      FoundArePruned(before, State(), i, options, found);
      pruned := Some(|found|);
    }
  }

  /** The two updates of an abandon, one after the other, are the abandon. */
  lemma AbandonInTwoSteps(a: Db, b: Db, i: string, delay: Option<nat>)
    requires a.now == b.now
    ensures Abandoned(a, i, None, false) == a.oq && Abandoned(b, i, None, false) == b.oq
    ensures a.oq == b.oq ==> forall ignore :: Abandoned(a, i, delay, ignore) == Abandoned(b, i, delay, ignore)
    ensures b.oq == Abandoned(a, i, None, true) ==> Abandoned(b, i, delay, false) == Abandoned(a, i, delay, true)
  {
  }

  lemma AckEffectsReleaseLock(db: Db, i: string, token: nat, a: AckArgs)
    requires AppendHistory(db.history, i, a.execution, a.delta).Some?
    ensures AckEffects(db, i, token, a).(locks := db.locks).(locks := db.locks - {i}) == AckEffects(db, i, token, a)
  {
  }

  /** The upserts of an ack look only at the tables they change. */
  lemma SameForTables(a: Db, b: Db, i: string, args: AckArgs)
    ensures a.instances == b.instances ==> (ParentExists(a, i, args.meta) <==> ParentExists(b, i, args.meta))
    ensures a.instances == b.instances && a.nextCreated == b.nextCreated ==>
              WithInstance(a, i, args) == WithInstance(b, i, args)
    ensures a.executions == b.executions && a.now == b.now ==> WithExecution(a, i, args) == WithExecution(b, i, args)
    ensures a.kv == b.kv ==> TablesOf(a, i) == TablesOf(b, i)
  {
  }

  // ---------------------------------------------------------------- the tree walk

  /**
   Recorded and pending instances are distinct members of the tree, each but the root below a
   recorded one, and no child of a recorded instance is missing.
   */
  ghost predicate WalkOk(db: Db, root: string, ids: seq<string>, stack: seq<string>) {
    && NoRepeats(ids) && NoRepeats(stack) && (forall i :: i in ids ==> i !in stack)
    && (root in ids || root in stack)
    && (forall i :: i in ids || i in stack ==> InWalk(db, root, ids, i))
    && (forall p, c :: p in ids && IsChild(db, p, c) ==> c in ids || c in stack)
  }

  ghost predicate InWalk(db: Db, root: string, ids: seq<string>, i: string) {
    i == root
    || (i in db.instances && Under(db, root, i) && db.instances[i].parent.Some? && db.instances[i].parent.value in ids)
  }

  lemma WalkStep(db: Db, root: string, ids: seq<string>, stack: seq<string>, children: seq<string>)
    requires ForestOk(db) && stack != [] && WalkOk(db, root, ids, stack)
    requires NoRepeats(children) && forall c :: c in children <==> IsChild(db, stack[|stack| - 1], c)
    ensures WalkOk(db, root, ids + [stack[|stack| - 1]], stack[..|stack| - 1] + children)
  {
    var n := |stack| - 1;
    var parent, popped := stack[n], stack[..n];
    assert stack == popped + [parent];
    assert forall a :: 0 <= a < n ==> popped[a] == stack[a];
    assert parent in stack && parent !in popped && InWalk(db, root, ids, parent);
    forall c | c in children ensures c !in ids && c !in stack && InWalk(db, root, ids + [parent], c) {
      ChildIsNew(db, root, ids, stack, parent, c);
    }
    assert forall x :: x in ids + [parent] <==> x in ids || x == parent;
    assert forall x :: x in popped + children <==> x in popped || x in children;
    assert forall x :: x in stack <==> x in popped || x == parent;
    assert NoRepeats(ids + [parent]) by {
      assert forall a :: 0 <= a < |ids| ==> ids[a] in ids;
    }
    assert NoRepeats(popped + children) by {
      assert forall a :: 0 <= a < n ==> popped[a] in stack;
      assert forall a :: 0 <= a < |children| ==> children[a] in children;
    }
  }

  /** A child of the popped instance was not met before, and belongs to the tree. */
  lemma ChildIsNew(db: Db, root: string, ids: seq<string>, stack: seq<string>, parent: string, c: string)
    requires ForestOk(db) && WalkOk(db, root, ids, stack) && parent in stack && IsChild(db, parent, c)
    ensures c !in ids && c !in stack && InWalk(db, root, ids + [parent], c)
  {
    assert InWalk(db, root, ids, parent);
    if c == root {
      ParentIsNotBelow(db, root, parent);
    }
    assert InWalk(db, root, ids, c) ==> c == root || parent in ids;
  }

  /** The root is no child of anything in its own tree. */
  lemma ParentIsNotBelow(db: Db, root: string, p: string)
    requires ForestOk(db) && (p == root || (p in db.instances && Under(db, root, p)))
    ensures !IsChild(db, p, root)
  {
    if IsChild(db, p, root) {
      UnderIsOlder(db, root, p);
    }
  }

  lemma WalkIsBounded(db: Db, root: string, ids: seq<string>, stack: seq<string>)
    requires WalkOk(db, root, ids, stack)
    ensures |ids| <= |db.instances.Keys + {root}|
  {
    NoRepeatsCard(ids);
    assert forall i :: i in ids ==> InWalk(db, root, ids, i);
    SubsetCard(SetOf(ids), db.instances.Keys + {root});
  }

  lemma SubsetCard(a: set<string>, b: set<string>)
    requires a <= b
    ensures |a| <= |b|
  {
    assert b == a + (b - a);
  }

  lemma WalkIsDone(db: Db, root: string, ids: seq<string>)
    requires ForestOk(db) && WalkOk(db, root, ids, [])
    ensures NoRepeats(ids) && forall i :: i in ids <==> i == root || i in Tree(db, root)
  {
    assert forall i :: i in ids ==> InWalk(db, root, ids, i);
    forall i | i in Tree(db, root) ensures i in ids {
      ClosedHasAll(db, root, ids, i);
    }
  }

  lemma {:induction false} ClosedHasAll(db: Db, root: string, ids: seq<string>, i: string)
    requires ForestOk(db) && root in ids && i in Tree(db, root)
    requires forall p, c :: p in ids && IsChild(db, p, c) ==> c in ids
    ensures i in ids
    decreases db.instances[i].created
  {
    if i != root {
      var p := db.instances[i].parent.value;
      ClosedHasAll(db, root, ids, p);
      assert IsChild(db, p, i);
    }
  }

  // ---------------------------------------------------------------- statements and steps

  lemma DeletingNothing(db: Db, ids: set<string>, force: bool)
    requires ids == {}
    ensures DeleteInstances(db, ids, force) == (db, true)
  {
    var after := WithoutInstances(db, ids);
    assert after.oq == db.oq && after.wq == db.wq && after.locks == db.locks && after.kv == db.kv;
    assert after.instances == db.instances && after.executions == db.executions && after.history == db.history;
  }

  function KeptExecutions(m: map<ExecutionKey, Execution>, i: string, gone: set<nat>): map<ExecutionKey, Execution> {
    map k | k in m && !(k.instance == i && k.execution in gone) :: m[k]
  }

  function KeptHistory(m: map<EventKey, EventKind>, i: string, gone: set<nat>): map<EventKey, EventKind> {
    map k | k in m && !(k.instance == i && k.execution in gone) :: m[k]
  }

  lemma KeepingAll(db: Db, i: string)
    ensures KeptExecutions(db.executions, i, {}) == db.executions && KeptHistory(db.history, i, {}) == db.history
  {
  }

  lemma KeepingFewer(db: Db, i: string, gone: set<nat>, e: nat)
    ensures KeptExecutions(db.executions, i, gone + {e})
              == KeptExecutions(db.executions, i, gone) - {ExecutionKey(i, e)}
    ensures var h := KeptHistory(db.history, i, gone);
            KeptHistory(db.history, i, gone + {e}) == map k | k in h && !(k.instance == i && k.execution == e) :: h[k]
  {
  }

  lemma PruneOfUnknown(db: Db, i: string, options: PruneOptions)
    requires i !in db.instances
    ensures ProviderDb.PruneExecutions(db, i, options) == (db, false)
  {
  }

  lemma FoundArePruned(db: Db, after: Db, i: string, options: PruneOptions, found: set<nat>)
    requires i in db.instances
    requires found
             == set k | k in db.executions && k.instance == i && Prunable(db, i, k.execution, options) :: k.execution
    requires after == db.(executions := after.executions, history := after.history)
    requires after.executions == KeptExecutions(db.executions, i, found)
    requires after.history == KeptHistory(db.history, i, found)
    ensures (after, true) == ProviderDb.PruneExecutions(db, i, options)
    ensures |found| == |Executions(db, i)| - |Executions(after, i)|
  {
    forall e ensures e in found <==> ExecutionKey(i, e) in db.executions && Prunable(db, i, e, options) {
      if ExecutionKey(i, e) in db.executions && Prunable(db, i, e, options) {
        assert ExecutionKey(i, e).execution in found;
      }
    }
    var pruned := ProviderDb.PruneExecutions(db, i, options).0;
    assert after.executions == pruned.executions;
    assert after.history == pruned.history;
    assert forall e :: e in Executions(after, i) <==> ExecutionKey(i, e) in after.executions;
    assert forall e :: e in Executions(db, i) <==> ExecutionKey(i, e) in db.executions;
    assert Executions(db, i) == Executions(after, i) + found;
  }

  lemma FirstIsQueued(db: Db, r: nat)
    requires IsFirst(db, r)
    ensures RowAvailable(db, r) && r in db.wq
  {
  }

  lemma NoDeltaIsStore(store: map<string, Entry>)
    ensures Values(View(Tables(store, map[]))) == Values(store)
  {
  }

  /** What an ack that found its lock row still has to check. */
  lemma AckDecision(db: Db, token: nat, a: AckArgs)
    requires WellFormed(db)
    ensures LiveDecisionHolds(db, token)
    ensures HolderOf(db, token).None? ==> !AckAccepted(db, token, a)
    ensures HolderOf(db, token).Some? ==>
              var i := HolderOf(db, token).value;
              i in db.locks && (AckAccepted(db, token, a) <==>
                db.locks[i].until > db.now && ParentExists(db, i, a.meta)
                    && AppendHistory(db.history, i, a.execution, a.delta).Some?)
  {
    LiveDecision(db, token);
  }

  /** A token is live exactly if the lock row it is found in has not run out. */
  ghost predicate LiveDecisionHolds(db: Db, token: nat) {
    && (HolderOf(db, token).None? ==> !Live(db, token))
    && (HolderOf(db, token).Some? ==>
          HolderOf(db, token).value in db.locks
              && (Live(db, token) <==> db.locks[HolderOf(db, token).value].until > db.now))
  }

  lemma LiveDecision(db: Db, token: nat)
    requires WellFormed(db)
    ensures LiveDecisionHolds(db, token)
  {
    if Live(db, token) {
      var i :| i in db.locks && Holds(db, i, token) && db.locks[i].until > db.now;
      HolderIsUnique(db, i, token);
    }
    if HolderOf(db, token).Some? {
      assert Holds(db, HolderOf(db, token).value, token);
    }
  }

  /** Once a prefix cannot be appended, the whole cannot. */
  lemma {:induction false} AppendFailsForGood(h: map<EventKey, EventKind>, i: string, e: nat, delta: seq<Event>, n: nat)
    requires n <= |delta| && AppendHistory(h, i, e, delta[..n]).None?
    ensures AppendHistory(h, i, e, delta).None?
  {
    if n == |delta| {
      assert delta[..n] == delta;
    } else {
      assert delta[..|delta| - 1][..n] == delta[..n];
      AppendFailsForGood(h, i, e, delta[..|delta| - 1], n);
    }
  }

  lemma TaggedIsBatch(db: Db, i: string, timeout: nat, ids: seq<nat>)
    requires WellFormed(db)
    requires forall m :: m in ids <==>
              m in FetchEffects(db, i, timeout).oq && FetchEffects(db, i, timeout).oq[m].tag == Some(db.nextToken)
    ensures SetOf(ids) == Batch(db, i)
    ensures OnlyQueueMessages(db, i) <==> forall m :: m in ids ==> FetchEffects(db, i, timeout).oq[m].item.QueueMessage?
  {
    assert forall m :: m in SetOf(ids) <==> m in Batch(db, i);
  }

  lemma CounterIsLargest(db: Db, i: string, timeout: nat, ids: seq<nat>, attempts: nat)
    requires SetOf(ids) == Batch(db, i) && Batch(db, i) != {}
    requires forall m :: m in ids ==> m in db.oq && FetchEffects(db, i, timeout).oq[m].attempts <= attempts
    requires attempts == 0 || exists m :: m in ids && FetchEffects(db, i, timeout).oq[m].attempts == attempts
    ensures IsLargestCounter(FetchEffects(db, i, timeout).oq, SetOf(ids), attempts)
  {
    var m :| m in Batch(db, i);
    assert m in SetOf(ids);
    assert m in ids && FetchEffects(db, i, timeout).oq[m].attempts >= 1;
  }

  function ItemsOf(oq: map<nat, Msg>, ids: seq<nat>): seq<WorkItem>
    requires forall m :: m in ids ==> m in oq
  {
    seq(|ids|, k requires 0 <= k < |ids| => oq[ids[k]].item)
  }

  /** The items of the batch, one for each message, in the order of their ids. */
  ghost predicate InQueueOrder(oq: map<nat, Msg>, batch: set<nat>, items: seq<WorkItem>) {
    exists ids: seq<nat> ::
      && SetOf(ids) == batch && |ids| == |items|
      && (forall a, b :: 0 <= a < b < |ids| ==> ids[a] < ids[b])
      && (forall a :: 0 <= a < |ids| ==> ids[a] in oq && oq[ids[a]].item == items[a])
  }

  ghost predicate IsLargestCounter(oq: map<nat, Msg>, batch: set<nat>, attempts: nat) {
    && (forall m :: m in batch ==> m in oq && oq[m].attempts <= attempts)
    && (exists m :: m in batch && m in oq && oq[m].attempts == attempts)
  }

  lemma ItemsInOrder(oq: map<nat, Msg>, ids: seq<nat>)
    requires forall m :: m in ids ==> m in oq
    requires forall a, b :: 0 <= a < b < |ids| ==> ids[a] < ids[b]
    ensures InQueueOrder(oq, SetOf(ids), ItemsOf(oq, ids))
  {
    assert forall a :: 0 <= a < |ids| ==> ids[a] in ids;
  }

  /** Deleting what the fresh token marks, messages and lock, is what dropping the orphans amounts to. */
  lemma DropIsRollbackAndDelete(db: Db, i: string, token: nat, timeout: nat)
    requires WellFormed(db) && token == db.nextToken
    ensures var fetched := FetchEffects(db, i, timeout);
            && (map m | m in fetched.oq && fetched.oq[m].tag != Some(token) :: fetched.oq[m]) == DropEffects(db, i).oq
            && (map j | j in fetched.locks && fetched.locks[j].token != token :: fetched.locks[j])
                 == DropEffects(db, i).locks
  {
  }
}
