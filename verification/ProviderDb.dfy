/**
 The provider's tables as one value, and every provider operation as a step on it. Queue rows are
 keyed by their auto-increment id, so map keys give the queue order; lock tokens are fresh
 numbers; time is a clock that only Tick advances.
 */
module ProviderDb {
  import opened Common
  import KvStore

  datatype WorkItem =
    | StartOrchestration(instance: string)
    | ContinueAsNew(instance: string)
    | ActivityCompleted(instance: string, execution: nat, activity: nat, text: string)
    | ActivityFailed(instance: string, execution: nat, activity: nat, text: string)
    | TimerFired(instance: string, fireAt: nat)
    | ExternalRaised(instance: string, name: string, text: string)
    | QueueMessage(instance: string, name: string, text: string)
    | CancelInstance(instance: string)
    | SubOrchCompleted(parent: string, text: string)
    | SubOrchFailed(parent: string, text: string)
    | ActivityExecute(instance: string, execution: nat, activity: nat)

  datatype Status = Running | Completed | Failed | ContinuedAsNew | OtherStatus(text: string)

  datatype Lock = Lock(token: nat, until: nat)

  /** A row of orchestrator_queue; the tag is the token of the last fetch that returned it. */
  datatype Msg = Msg(item: WorkItem, instance: string, visibleAt: nat, tag: Option<nat>, attempts: nat)

  datatype ActivityKey = ActivityKey(instance: string, execution: nat, activity: nat)

  /** A row of worker_queue. */
  datatype Row = Row(key: ActivityKey, visibleAt: nat, lock: Option<Lock>, attempts: nat)

  datatype Instance = Instance(current: nat, parent: Option<string>, created: nat)

  datatype ExecutionKey = ExecutionKey(instance: string, execution: nat)

  datatype Execution = Execution(status: Status, completedAt: Option<nat>)

  datatype EventKind = OrchestrationStarted | KeyValue(change: KvStore.KvEvent) | OtherEvent(text: string)

  datatype Event = Event(id: nat, kind: EventKind)

  datatype EventKey = EventKey(instance: string, execution: nat, id: nat)

  datatype Db = Db(
    now: nat,
    nextToken: nat,
    nextMsg: nat,
    nextRow: nat,
    nextCreated: nat,
    oq: map<nat, Msg>,
    wq: map<nat, Row>,
    locks: map<string, Lock>,
    instances: map<string, Instance>,
    executions: map<ExecutionKey, Execution>,
    history: map<EventKey, EventKind>,
    kv: map<string, KvStore.Tables>)

  const EMPTY_DB := Db(0, 0, 0, 0, 0, map[], map[], map[], map[], map[], map[], map[])

  // ---------------------------------------------------------------- enqueueing

  /** The instance whose queue an item belongs to; activities to execute are not for the orchestrator. */
  function Target(item: WorkItem): Option<string> {
    match item
    case SubOrchCompleted(parent, _) => Some(parent)
    case SubOrchFailed(parent, _) => Some(parent)
    case ActivityExecute(_, _, _) => None
    case _ => Some(item.instance)
  }

  function EnqueueOrchestrator(db: Db, item: WorkItem, delay: Option<nat>): (Db, bool) {
    if Target(item).None? then (db, false)
    else
      var visibleAt := db.now + (if delay.Some? then delay.value else 0);
      (db.(oq := db.oq[db.nextMsg := Msg(item, Target(item).value, visibleAt, None, 0)], nextMsg := db.nextMsg + 1),
       true)
  }

  function EnqueueWorker(db: Db, key: ActivityKey): Db {
    db.(wq := db.wq[db.nextRow := Row(key, db.now, None, 0)], nextRow := db.nextRow + 1)
  }

  // ---------------------------------------------------------------- orchestration items

  predicate Available(db: Db, instance: string) {
    instance !in db.locks || db.locks[instance].until <= db.now
  }

  /** The visible messages of an instance. */
  function Batch(db: Db, instance: string): set<nat> {
    set m | m in db.oq && db.oq[m].instance == instance && db.oq[m].visibleAt <= db.now
  }

  predicate IsStart(item: WorkItem) {
    item.StartOrchestration? || item.ContinueAsNew?
  }

  /** The latest execution with a row; execution 1 when there is none. */
  predicate IsLatestExecution(db: Db, instance: string, execution: nat) {
    && (forall k :: k in db.executions && k.instance == instance ==> k.execution <= execution)
    && (ExecutionKey(instance, execution) in db.executions
        || (execution == 1 && forall k :: k in db.executions ==> k.instance != instance))
  }

  /** A fetch knows the orchestration from its row, from its history, or from a start item in the batch. */
  predicate HasContext(db: Db, instance: string) {
    || instance in db.instances
    || (exists k :: k in db.history && k.instance == instance && db.history[k] == OrchestrationStarted
                    && IsLatestExecution(db, instance, k.execution))
    || (exists m :: m in Batch(db, instance) && IsStart(db.oq[m].item))
  }

  datatype FetchResult =
    | Fetched(token: nat, batch: set<nat>)
    | DroppedOrphans(batch: set<nat>)
    | NothingFetched

  function Tagged(db: Db, batch: set<nat>, token: nat): map<nat, Msg> {
    map m | m in db.oq ::
      if m in batch then db.oq[m].(tag := Some(token), attempts := db.oq[m].attempts + 1) else db.oq[m]
  }

  /** The fetched messages get the new token as their tag and the instance is locked with it. */
  function FetchEffects(db: Db, instance: string, timeout: nat): Db {
    db.(oq := Tagged(db, Batch(db, instance), db.nextToken),
        locks := db.locks[instance := Lock(db.nextToken, db.now + timeout)],
        nextToken := db.nextToken + 1)
  }

  /** Queue messages for an orchestration that never started are thrown away. */
  function DropEffects(db: Db, instance: string): Db {
    db.(oq := db.oq - Batch(db, instance), locks := db.locks - {instance}, nextToken := db.nextToken + 1)
  }

  predicate OnlyQueueMessages(db: Db, instance: string) {
    forall m :: m in Batch(db, instance) ==> db.oq[m].item.QueueMessage?
  }

  /** A fetch that picked this instance. */
  function FetchOrchestration(db: Db, instance: string, timeout: nat): (Db, FetchResult) {
    if !Available(db, instance) || Batch(db, instance) == {} then (db, NothingFetched)
    else if HasContext(db, instance) then
      (FetchEffects(db, instance, timeout), Fetched(db.nextToken, Batch(db, instance)))
    else if OnlyQueueMessages(db, instance) then
      (DropEffects(db, instance), DroppedOrphans(Batch(db, instance)))
    else (db, NothingFetched)
  }

  predicate Holds(db: Db, instance: string, token: nat) {
    instance in db.locks && db.locks[instance].token == token
  }

  predicate Live(db: Db, token: nat) {
    exists i :: i in db.locks && Holds(db, i, token) && db.locks[i].until > db.now
  }

  ghost function HolderOf(db: Db, token: nat): Option<string> {
    if exists i :: Holds(db, i, token) then var i :| Holds(db, i, token); Some(i) else None
  }

  datatype Metadata = Metadata(named: bool, parent: Option<string>, status: Option<Status>)

  datatype AckArgs = AckArgs(
    execution: nat,
    delta: seq<Event>,
    workerItems: seq<ActivityKey>,
    orchestratorItems: seq<WorkItem>,
    meta: Metadata,
    cancelled: set<ActivityKey>)

  predicate IsTerminal(status: Option<Status>) {
    status.Some? && (status.value.Completed? || status.value.Failed? || status.value.ContinuedAsNew?)
  }

  /** Appending needs event ids from the runtime that are not in the table yet. */
  function AppendHistory(h: map<EventKey, EventKind>, instance: string, execution: nat, delta: seq<Event>)
    : Option<map<EventKey, EventKind>>
  {
    if delta == [] then Some(h)
    else
      var prior := AppendHistory(h, instance, execution, delta[..|delta| - 1]);
      var last := delta[|delta| - 1];
      var key := EventKey(instance, execution, last.id);
      if prior.None? || last.id == 0 || key in prior.value then None
      else Some(prior.value[key := last.kind])
  }

  function KvChanges(delta: seq<Event>): seq<KvStore.KvEvent> {
    if delta == [] then []
    else
      var last := delta[|delta| - 1];
      if last.kind.KeyValue? then KvChanges(delta[..|delta| - 1]) + [last.kind.change]
      else KvChanges(delta[..|delta| - 1])
  }

  function TablesOf(db: Db, instance: string): KvStore.Tables {
    if instance in db.kv then db.kv[instance] else KvStore.NO_TABLES
  }

  /** The parent must exist when the instance row is inserted (foreign key). */
  predicate ParentExists(db: Db, instance: string, meta: Metadata) {
    meta.named && instance !in db.instances && meta.parent.Some? ==> meta.parent.value in db.instances
  }

  ghost predicate AckAccepted(db: Db, token: nat, a: AckArgs) {
    Live(db, token)
    && HolderOf(db, token).Some?
    && AppendHistory(db.history, HolderOf(db, token).value, a.execution, a.delta).Some?
    && ParentExists(db, HolderOf(db, token).value, a.meta)
  }

  function Max(a: nat, b: nat): nat {
    if a >= b then a else b
  }

  function WithInstance(db: Db, i: string, a: AckArgs): map<string, Instance> {
    var inserted :=
      if a.meta.named && i !in db.instances
      then db.instances[i := Instance(a.execution, a.meta.parent, db.nextCreated)]
      else db.instances;
    if i in inserted then inserted[i := inserted[i].(current := Max(inserted[i].current, a.execution))] else inserted
  }

  function WithExecution(db: Db, i: string, a: AckArgs): map<ExecutionKey, Execution> {
    var key := ExecutionKey(i, a.execution);
    var inserted := if key in db.executions then db.executions else db.executions[key := Execution(Running, None)];
    if a.meta.status.Some? then inserted[key := Execution(a.meta.status.value, Some(db.now))] else inserted
  }

  function VisibleFrom(item: WorkItem, now: nat): nat {
    if item.TimerFired? then item.fireAt else now
  }

  function NewMsg(item: WorkItem, now: nat): Msg
    requires Target(item).Some?
  {
    Msg(item, Target(item).value, VisibleFrom(item, now), None, 0)
  }

  /** Inserts the items one by one under consecutive ids; items without a target are skipped. */
  function InsertMsgs(oq: map<nat, Msg>, base: nat, items: seq<WorkItem>, now: nat): (r: map<nat, Msg>)
    ensures forall m :: m in oq && m < base ==> m in r && r[m] == oq[m]
    ensures forall m :: m in r && m !in oq ==> base <= m < base + |items|
    ensures forall m :: m in r && (m < base || m !in oq) ==> m in oq || (r[m].tag == None && r[m].attempts == 0)
  {
    if items == [] then oq
    else
      var n, last := |items| - 1, items[|items| - 1];
      var prior := InsertMsgs(oq, base, items[..n], now);
      if Target(last).Some? then prior[base + n := NewMsg(last, now)] else prior
  }

  function InsertRows(wq: map<nat, Row>, base: nat, keys: seq<ActivityKey>, now: nat): (r: map<nat, Row>)
    ensures forall x :: x in wq && x < base ==> x in r && r[x] == wq[x]
    ensures forall x :: x in r && x !in wq ==> base <= x < base + |keys| && r[x].lock == None && r[x].attempts == 0
  {
    if keys == [] then wq
    else
      var n := |keys| - 1;
      InsertRows(wq, base, keys[..n], now)[base + n := Row(keys[n], now, None, 0)]
  }

  function WithoutTag(oq: map<nat, Msg>, token: nat): map<nat, Msg> {
    map m | m in oq && oq[m].tag != Some(token) :: oq[m]
  }

  function WithoutKeys(wq: map<nat, Row>, keys: set<ActivityKey>): map<nat, Row> {
    map r | r in wq && wq[r].key !in keys :: wq[r]
  }

  /** The effects of an accepted ack, all of them together. */
  function AckEffects(db: Db, i: string, token: nat, a: AckArgs): Db
    requires AppendHistory(db.history, i, a.execution, a.delta).Some?
  {
    db.(oq := InsertMsgs(WithoutTag(db.oq, token), db.nextMsg, a.orchestratorItems, db.now),
        nextMsg := db.nextMsg + |a.orchestratorItems|,
        wq := WithoutKeys(InsertRows(db.wq, db.nextRow, a.workerItems, db.now), a.cancelled),
        nextRow := db.nextRow + |a.workerItems|,
        locks := db.locks - {i},
        instances := WithInstance(db, i, a),
        nextCreated := db.nextCreated + 1,
        executions := WithExecution(db, i, a),
        history := AppendHistory(db.history, i, a.execution, a.delta).value,
        kv := db.kv[i := KvStore.AckKv(TablesOf(db, i), KvChanges(a.delta), IsTerminal(a.meta.status), db.now)])
  }

  ghost function AckOrchestration(db: Db, token: nat, a: AckArgs): (Db, bool) {
    if AckAccepted(db, token, a) then (AckEffects(db, HolderOf(db, token).value, token, a), true) else (db, false)
  }

  ghost function RenewOrchestration(db: Db, token: nat, extend: nat): (Db, bool) {
    if Live(db, token) && HolderOf(db, token).Some?
    then (db.(locks := db.locks[HolderOf(db, token).value := Lock(token, db.now + extend)]), true)
    else (db, false)
  }

  function Decrement(n: nat): nat {
    if n == 0 then 0 else n - 1
  }

  /** Abandoning touches every queue row of the instance, fetched or not. */
  function Abandoned(db: Db, i: string, delay: Option<nat>, ignoreAttempt: bool): map<nat, Msg> {
    map m | m in db.oq ::
      if db.oq[m].instance != i then db.oq[m]
      else db.oq[m].(
        attempts := if ignoreAttempt then Decrement(db.oq[m].attempts) else db.oq[m].attempts,
        visibleAt := if delay.Some? && db.oq[m].visibleAt <= db.now then db.now + delay.value else db.oq[m].visibleAt)
  }

  ghost function AbandonOrchestration(db: Db, token: nat, delay: Option<nat>, ignoreAttempt: bool): (Db, bool) {
    if HolderOf(db, token).Some? then
      var i := HolderOf(db, token).value;
      (db.(locks := db.locks - {i}, oq := Abandoned(db, i, delay, ignoreAttempt)), true)
    else (db, false)
  }

  // ---------------------------------------------------------------- work items

  predicate RowAvailable(db: Db, r: nat) {
    r in db.wq && db.wq[r].visibleAt <= db.now && (db.wq[r].lock.None? || db.wq[r].lock.value.until <= db.now)
  }

  /** A fetch that picked this row. */
  function FetchWork(db: Db, r: nat, timeout: nat): (Db, Option<nat>) {
    if RowAvailable(db, r) then
      var row := db.wq[r];
      (db.(wq := db.wq[r := row.(lock := Some(Lock(db.nextToken, db.now + timeout)), attempts := row.attempts + 1)],
           nextToken := db.nextToken + 1),
       Some(db.nextToken))
    else (db, None)
  }

  predicate RowHolds(db: Db, r: nat, token: nat) {
    r in db.wq && db.wq[r].lock.Some? && db.wq[r].lock.value.token == token
  }

  predicate RowLive(db: Db, r: nat, token: nat) {
    RowHolds(db, r, token) && db.wq[r].lock.value.until > db.now
  }

  ghost function RowOf(db: Db, token: nat): Option<nat> {
    if exists r :: RowHolds(db, r, token) then var r :| RowHolds(db, r, token); Some(r) else None
  }

  predicate ValidCompletion(c: Option<WorkItem>) {
    c.Some? ==> c.value.ActivityCompleted? || c.value.ActivityFailed?
  }

  /** The row and its completion change hands in one step. */
  ghost function AckWork(db: Db, token: nat, completion: Option<WorkItem>): (Db, bool) {
    var r := RowOf(db, token);
    if r.Some? && RowLive(db, r.value, token) && ValidCompletion(completion) then
      var db' := db.(wq := db.wq - {r.value});
      (if completion.Some?
       then db'.(oq := db.oq[db.nextMsg := Msg(completion.value, completion.value.instance, db.now, None, 0)],
                 nextMsg := db.nextMsg + 1)
       else db',
       true)
    else (db, false)
  }

  ghost function RenewWork(db: Db, token: nat, extend: nat): (Db, bool) {
    var r := RowOf(db, token);
    if r.Some? && RowLive(db, r.value, token)
    then (db.(wq := db.wq[r.value := db.wq[r.value].(lock := Some(Lock(token, db.now + extend)))]), true)
    else (db, false)
  }

  ghost function AbandonWork(db: Db, token: nat, delay: Option<nat>, ignoreAttempt: bool): (Db, bool) {
    var r := RowOf(db, token);
    if r.Some? then
      var row := db.wq[r.value];
      (db.(wq := db.wq[r.value := Row(row.key, db.now + (if delay.Some? then delay.value else 0), None,
                                      if ignoreAttempt then Decrement(row.attempts) else row.attempts)]),
       true)
    else (db, false)
  }

  // ---------------------------------------------------------------- deletion and pruning

  predicate CurrentlyRunning(db: Db, i: string) {
    i in db.instances
    && var key := ExecutionKey(i, db.instances[i].current);
       key in db.executions && db.executions[key].status.Running?
  }

  /** Some child outside the set has its parent inside. */
  predicate WouldOrphan(db: Db, ids: set<string>) {
    exists c :: c in db.instances && c !in ids && db.instances[c].parent.Some? && db.instances[c].parent.value in ids
  }

  predicate DeleteAccepted(db: Db, ids: set<string>, force: bool) {
    (force || forall i :: i in ids ==> !CurrentlyRunning(db, i)) && !WouldOrphan(db, ids)
  }

  function WithoutInstances(db: Db, ids: set<string>): Db {
    db.(oq := map m | m in db.oq && db.oq[m].instance !in ids :: db.oq[m],
        wq := map r | r in db.wq && db.wq[r].key.instance !in ids :: db.wq[r],
        locks := db.locks - ids,
        instances := db.instances - ids,
        executions := map k | k in db.executions && k.instance !in ids :: db.executions[k],
        history := map k | k in db.history && k.instance !in ids :: db.history[k],
        kv := db.kv - ids)
  }

  function DeleteInstances(db: Db, ids: set<string>, force: bool): (Db, bool) {
    if DeleteAccepted(db, ids, force) then (WithoutInstances(db, ids), true) else (db, false)
  }

  datatype PruneOptions = PruneOptions(keepLast: Option<nat>, completedBefore: Option<nat>)

  function LaterExecutions(db: Db, i: string, e: nat): set<ExecutionKey> {
    set k | k in db.executions && k.instance == i && k.execution > e
  }

  /** Old executions that are neither current nor running and that no option retains. */
  predicate Prunable(db: Db, i: string, e: nat, options: PruneOptions)
    requires i in db.instances
  {
    var key := ExecutionKey(i, e);
    && key in db.executions
    && e != db.instances[i].current
    && !db.executions[key].status.Running?
    && (options.keepLast.Some? ==> |LaterExecutions(db, i, e)| >= options.keepLast.value)
    && (options.completedBefore.Some? ==>
          db.executions[key].completedAt.Some? && db.executions[key].completedAt.value < options.completedBefore.value)
  }

  function PruneExecutions(db: Db, i: string, options: PruneOptions): (Db, bool) {
    if i !in db.instances then (db, false)
    else
      (db.(executions :=
             map k | k in db.executions && !(k.instance == i && Prunable(db, i, k.execution, options))
               :: db.executions[k],
           history :=
             map k | k in db.history && !(k.instance == i && Prunable(db, i, k.execution, options))
               :: db.history[k]),
       true)
  }

  // ---------------------------------------------------------------- steps

  datatype Op =
    | OpEnqueue(item: WorkItem, delay: Option<nat>)
    | OpEnqueueWorker(key: ActivityKey)
    | OpFetch(instance: string, timeout: nat)
    | OpAck(token: nat, args: AckArgs)
    | OpRenew(token: nat, extend: nat)
    | OpAbandon(token: nat, delay: Option<nat>, ignoreAttempt: bool)
    | OpFetchWork(row: nat, timeout: nat)
    | OpAckWork(token: nat, completion: Option<WorkItem>)
    | OpRenewWork(token: nat, extend: nat)
    | OpAbandonWork(token: nat, delay: Option<nat>, ignoreAttempt: bool)
    | OpDelete(ids: set<string>, force: bool)
    | OpPrune(instance: string, options: PruneOptions)
    | OpTick(duration: nat)

  ghost function Step(db: Db, op: Op): Db {
    match op
    case OpEnqueue(item, delay) => EnqueueOrchestrator(db, item, delay).0
    case OpEnqueueWorker(key) => EnqueueWorker(db, key)
    case OpFetch(i, timeout) => FetchOrchestration(db, i, timeout).0
    case OpAck(token, args) => AckOrchestration(db, token, args).0
    case OpRenew(token, extend) => RenewOrchestration(db, token, extend).0
    case OpAbandon(token, delay, ignore) => AbandonOrchestration(db, token, delay, ignore).0
    case OpFetchWork(r, timeout) => FetchWork(db, r, timeout).0
    case OpAckWork(token, completion) => AckWork(db, token, completion).0
    case OpRenewWork(token, extend) => RenewWork(db, token, extend).0
    case OpAbandonWork(token, delay, ignore) => AbandonWork(db, token, delay, ignore).0
    case OpDelete(ids, force) => DeleteInstances(db, ids, force).0
    case OpPrune(i, options) => PruneExecutions(db, i, options).0
    case OpTick(duration) => db.(now := db.now + duration)
  }

  /** The state after the first n operations of a run that starts with empty tables. */
  ghost function At(ops: seq<Op>, n: nat): Db
    requires n <= |ops|
  {
    if n == 0 then EMPTY_DB else Step(At(ops, n - 1), ops[n - 1])
  }

  // ---------------------------------------------------------------- well-formedness

  /** Instance locks carry tokens that were handed out, no two the same. */
  ghost predicate LockTokensOk(db: Db) {
    && (forall i :: i in db.locks ==> db.locks[i].token < db.nextToken)
    && (forall i, j :: i in db.locks && j in db.locks && db.locks[i].token == db.locks[j].token ==> i == j)
  }

  predicate SameToken(a: Row, b: Row) {
    a.lock.Some? && b.lock.Some? && a.lock.value.token == b.lock.value.token
  }

  /** So do the locks of worker rows. */
  ghost predicate RowTokensOk(db: Db) {
    && (forall r :: r in db.wq && db.wq[r].lock.Some? ==> db.wq[r].lock.value.token < db.nextToken)
    && (forall r, s :: r in db.wq && s in db.wq && SameToken(db.wq[r], db.wq[s]) ==> r == s)
  }

  ghost predicate TokensOk(db: Db) {
    LockTokensOk(db) && RowTokensOk(db)
  }

  ghost predicate MsgIdsOk(db: Db) {
    && (forall m :: m in db.oq ==> m < db.nextMsg)
    && (forall m :: m in db.oq && db.oq[m].tag.Some? ==> db.oq[m].tag.value < db.nextToken)
  }

  ghost predicate RowIdsOk(db: Db) {
    forall r :: r in db.wq ==> r < db.nextRow
  }

  ghost predicate IdsOk(db: Db) {
    MsgIdsOk(db) && RowIdsOk(db)
  }

  /** Parents exist and are older than their children. */
  ghost predicate ForestOk(db: Db) {
    && (forall i :: i in db.instances ==> db.instances[i].created < db.nextCreated)
    && (forall i :: i in db.instances && db.instances[i].parent.Some? ==>
          db.instances[i].parent.value in db.instances
          && db.instances[db.instances[i].parent.value].created < db.instances[i].created)
  }

  ghost predicate WellFormed(db: Db) {
    TokensOk(db) && IdsOk(db) && ForestOk(db)
  }

  lemma HolderIsUnique(db: Db, i: string, token: nat)
    requires TokensOk(db) && Holds(db, i, token)
    ensures HolderOf(db, token) == Some(i)
  {
  }

  lemma RowIsUnique(db: Db, r: nat, token: nat)
    requires TokensOk(db) && RowHolds(db, r, token)
    ensures RowOf(db, token) == Some(r)
  {
  }

  // ---------------------------------------------------------------- every operation keeps the tables well formed

  /** Counters only grow between the two states. */
  ghost predicate Grown(a: Db, b: Db) {
    a.nextToken <= b.nextToken && a.nextMsg <= b.nextMsg && a.nextRow <= b.nextRow && a.nextCreated <= b.nextCreated
  }

  /** What holds of a table goes on holding when the table is not touched. */
  lemma UntouchedStays(a: Db, b: Db)
    requires WellFormed(a) && Grown(a, b)
    ensures b.locks == a.locks ==> LockTokensOk(b)
    ensures b.wq == a.wq ==> RowTokensOk(b) && RowIdsOk(b)
    ensures b.oq == a.oq ==> MsgIdsOk(b)
    ensures b.instances == a.instances ==> ForestOk(b)
  {
  }

  lemma EnqueueKeepsWellFormed(db: Db, item: WorkItem, delay: Option<nat>)
    requires WellFormed(db)
    ensures WellFormed(EnqueueOrchestrator(db, item, delay).0)
  {
    hide LockTokensOk, RowTokensOk, RowIdsOk, ForestOk;
    UntouchedStays(db, EnqueueOrchestrator(db, item, delay).0);
  }

  lemma EnqueueWorkerKeepsWellFormed(db: Db, key: ActivityKey)
    requires WellFormed(db)
    ensures WellFormed(EnqueueWorker(db, key))
  {
    hide LockTokensOk, MsgIdsOk, ForestOk;
    UntouchedStays(db, EnqueueWorker(db, key));
  }

  lemma FetchKeepsWellFormed(db: Db, i: string, timeout: nat)
    requires WellFormed(db)
    ensures WellFormed(FetchOrchestration(db, i, timeout).0)
  {
    hide WellFormed, HasContext;
    FetchEffectsKeepWellFormed(db, i, timeout);
    DropEffectsKeepWellFormed(db, i);
  }

  lemma FetchEffectsKeepWellFormed(db: Db, i: string, timeout: nat)
    requires WellFormed(db)
    ensures WellFormed(FetchEffects(db, i, timeout))
  {
    hide RowTokensOk, RowIdsOk, ForestOk;
    UntouchedStays(db, FetchEffects(db, i, timeout));
  }

  lemma DropEffectsKeepWellFormed(db: Db, i: string)
    requires WellFormed(db)
    ensures WellFormed(DropEffects(db, i))
  {
    hide RowTokensOk, RowIdsOk, ForestOk;
    UntouchedStays(db, DropEffects(db, i));
  }

  lemma AckKeepsWellFormed(db: Db, token: nat, a: AckArgs)
    requires WellFormed(db)
    ensures WellFormed(AckOrchestration(db, token, a).0)
  {
    hide AckEffects;
    if AckAccepted(db, token, a) {
      var i := HolderOf(db, token).value;
      AckEffectsKeepLocks(db, i, token, a);
      AckEffectsKeepRows(db, i, token, a);
      AckEffectsKeepMsgs(db, i, token, a);
      AckEffectsKeepForest(db, i, token, a);
    }
  }

  lemma AckEffectsKeepLocks(db: Db, i: string, token: nat, a: AckArgs)
    requires LockTokensOk(db) && AppendHistory(db.history, i, a.execution, a.delta).Some?
    ensures LockTokensOk(AckEffects(db, i, token, a))
  {
  }

  lemma AckEffectsKeepRows(db: Db, i: string, token: nat, a: AckArgs)
    requires RowTokensOk(db) && RowIdsOk(db) && AppendHistory(db.history, i, a.execution, a.delta).Some?
    ensures RowTokensOk(AckEffects(db, i, token, a)) && RowIdsOk(AckEffects(db, i, token, a))
  {
    var inserted := InsertRows(db.wq, db.nextRow, a.workerItems, db.now);
    assert forall r :: r in inserted && inserted[r].lock.Some? ==> r in db.wq && inserted[r] == db.wq[r];
  }

  lemma AckEffectsKeepMsgs(db: Db, i: string, token: nat, a: AckArgs)
    requires MsgIdsOk(db) && AppendHistory(db.history, i, a.execution, a.delta).Some?
    ensures MsgIdsOk(AckEffects(db, i, token, a))
  {
  }

  lemma AckEffectsKeepForest(db: Db, i: string, token: nat, a: AckArgs)
    requires ForestOk(db) && AppendHistory(db.history, i, a.execution, a.delta).Some? && ParentExists(db, i, a.meta)
    ensures ForestOk(AckEffects(db, i, token, a))
  {
    var after := AckEffects(db, i, token, a);
    InsertKeepsForest(db, i, a);
    assert after.instances == WithInstance(db, i, a) && after.nextCreated == db.nextCreated + 1;
    hide AckEffects, WithInstance;
  }

  lemma InsertKeepsForest(db: Db, i: string, a: AckArgs)
    requires ForestOk(db) && ParentExists(db, i, a.meta)
    ensures ForestOk(db.(instances := WithInstance(db, i, a), nextCreated := db.nextCreated + 1))
  {
  }

  lemma RenewKeepsWellFormed(db: Db, token: nat, extend: nat)
    requires WellFormed(db)
    ensures WellFormed(RenewOrchestration(db, token, extend).0)
  {
    UntouchedStays(db, RenewOrchestration(db, token, extend).0);
    RenewKeepsLockTokens(db, token, extend);
    hide LockTokensOk, RowTokensOk, MsgIdsOk, RowIdsOk, ForestOk;
  }

  lemma RenewKeepsLockTokens(db: Db, token: nat, extend: nat)
    requires LockTokensOk(db)
    ensures LockTokensOk(RenewOrchestration(db, token, extend).0)
  {
    hide LockTokensOk;
    if HolderOf(db, token).Some? {
      RenewedLockIsOk(db, HolderOf(db, token).value, token, extend);
    }
  }

  lemma RenewedLockIsOk(db: Db, i: string, token: nat, extend: nat)
    requires LockTokensOk(db) && Holds(db, i, token)
    ensures LockTokensOk(db.(locks := db.locks[i := Lock(token, db.now + extend)]))
  {
  }

  lemma AbandonKeepsWellFormed(db: Db, token: nat, delay: Option<nat>, ignoreAttempt: bool)
    requires WellFormed(db)
    ensures WellFormed(AbandonOrchestration(db, token, delay, ignoreAttempt).0)
  {
    hide RowTokensOk, RowIdsOk, ForestOk;
    UntouchedStays(db, AbandonOrchestration(db, token, delay, ignoreAttempt).0);
  }

  lemma FetchWorkKeepsWellFormed(db: Db, r: nat, timeout: nat)
    requires WellFormed(db)
    ensures WellFormed(FetchWork(db, r, timeout).0)
  {
    hide LockTokensOk, MsgIdsOk, ForestOk;
    UntouchedStays(db, FetchWork(db, r, timeout).0);
  }

  lemma AckWorkKeepsWellFormed(db: Db, token: nat, completion: Option<WorkItem>)
    requires WellFormed(db)
    ensures WellFormed(AckWork(db, token, completion).0)
  {
    hide LockTokensOk, ForestOk;
    UntouchedStays(db, AckWork(db, token, completion).0);
  }

  lemma RenewWorkKeepsWellFormed(db: Db, token: nat, extend: nat)
    requires WellFormed(db)
    ensures WellFormed(RenewWork(db, token, extend).0)
  {
    hide LockTokensOk, MsgIdsOk, ForestOk;
    UntouchedStays(db, RenewWork(db, token, extend).0);
  }

  lemma AbandonWorkKeepsWellFormed(db: Db, token: nat, delay: Option<nat>, ignoreAttempt: bool)
    requires WellFormed(db)
    ensures WellFormed(AbandonWork(db, token, delay, ignoreAttempt).0)
  {
    hide LockTokensOk, MsgIdsOk, ForestOk;
    UntouchedStays(db, AbandonWork(db, token, delay, ignoreAttempt).0);
  }

  lemma DeleteKeepsWellFormed(db: Db, ids: set<string>, force: bool)
    requires WellFormed(db)
    ensures WellFormed(DeleteInstances(db, ids, force).0)
  {
  }

  lemma PruneKeepsWellFormed(db: Db, i: string, options: PruneOptions)
    requires WellFormed(db)
    ensures WellFormed(PruneExecutions(db, i, options).0)
  {
    hide LockTokensOk, RowTokensOk, MsgIdsOk, RowIdsOk, ForestOk;
    UntouchedStays(db, PruneExecutions(db, i, options).0);
  }

  lemma TickKeepsWellFormed(db: Db, now: nat)
    requires WellFormed(db)
    ensures WellFormed(db.(now := now))
  {
    hide LockTokensOk, RowTokensOk, MsgIdsOk, RowIdsOk, ForestOk;
    UntouchedStays(db, db.(now := now));
  }

  lemma StepKeepsWellFormed(db: Db, op: Op)
    requires WellFormed(db)
    ensures WellFormed(Step(db, op))
  {
    hide WellFormed, EnqueueOrchestrator, EnqueueWorker, FetchOrchestration, AckOrchestration, RenewOrchestration,
         AbandonOrchestration;
    hide FetchWork, AckWork, RenewWork, AbandonWork, DeleteInstances, PruneExecutions;
    match op
    case OpEnqueue(item, delay) => EnqueueKeepsWellFormed(db, item, delay);
    case OpEnqueueWorker(key) => EnqueueWorkerKeepsWellFormed(db, key);
    case OpFetch(i, timeout) => FetchKeepsWellFormed(db, i, timeout);
    case OpAck(token, args) => AckKeepsWellFormed(db, token, args);
    case OpRenew(token, extend) => RenewKeepsWellFormed(db, token, extend);
    case OpAbandon(token, delay, ignore) => AbandonKeepsWellFormed(db, token, delay, ignore);
    case OpFetchWork(r, timeout) => FetchWorkKeepsWellFormed(db, r, timeout);
    case OpAckWork(token, completion) => AckWorkKeepsWellFormed(db, token, completion);
    case OpRenewWork(token, extend) => RenewWorkKeepsWellFormed(db, token, extend);
    case OpAbandonWork(token, delay, ignore) => AbandonWorkKeepsWellFormed(db, token, delay, ignore);
    case OpDelete(ids, force) => DeleteKeepsWellFormed(db, ids, force);
    case OpPrune(i, options) => PruneKeepsWellFormed(db, i, options);
    case OpTick(duration) => TickKeepsWellFormed(db, db.now + duration);
  }

  /** Every reachable state is well formed. */
  lemma {:induction false} ReachableIsWellFormed(ops: seq<Op>, n: nat)
    requires n <= |ops|
    ensures WellFormed(At(ops, n))
  {
    if n > 0 {
      ReachableIsWellFormed(ops, n - 1);
      StepKeepsWellFormed(At(ops, n - 1), ops[n - 1]);
    }
  }
}
