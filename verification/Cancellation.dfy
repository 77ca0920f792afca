/**
 Dropping durable futures. A future that is dropped before it completed puts its token on the
 cancellation list of the context; after the turn the replay engine reads four lists of schedule
 ids from there (activities, external waits, queue waits, sub-orchestrations) and clears them.
 */
module Cancellation {
  import opened Common
  import opened TokenTable

  datatype Future = Future(kind: Kind, completed: bool)

  /** live holds the futures the orchestration still owns, by token. */
  datatype World = World(
    nextToken: nat,
    live: map<nat, Future>,
    table: Table,
    instances: map<nat, string>,
    cancelledTokens: set<nat>,
    cancelledKinds: map<nat, Kind>)

  const START := World(0, map[], EMPTY_TABLE, map[], {}, map[])

  datatype Step =
    | Schedule(kind: Kind)
    | Bind(token: nat, id: nat)
    | BindInstance(token: nat, instance: string)
    | Complete(token: nat)
    | MapFuture(token: nat)
    | DropFuture(token: nat)
    | ClearCancelled

  /** A sub-orchestration future carries its own token in its kind. */
  function KindFor(kind: Kind, token: nat): Kind {
    if kind.SubOrchestration? then SubOrchestration(token) else kind
  }

  function MarkCancelled(w: World, token: nat, kind: Kind): World {
    w.(cancelledTokens := w.cancelledTokens + {token}, cancelledKinds := w.cancelledKinds[token := kind])
  }

  function Apply(w: World, s: Step): World {
    match s
    case Schedule(kind) =>
      var token := w.nextToken + 1;
      w.(nextToken := token, live := w.live[token := Future(KindFor(kind, token), false)])
    case Bind(token, id) => w.(table := BindToken(w.table, token, id))
    case BindInstance(token, instance) => w.(instances := w.instances[token := instance])
    case Complete(token) =>
      if token in w.live then
        w.(live := w.live[token := w.live[token].(completed := true)], table := ClearWaker(w.table, token))
      else w
    case MapFuture(token) =>
      // The wrapper is a new future with the same token and kind that has not completed.
      if token in w.live then w.(live := w.live[token := w.live[token].(completed := false)]) else w
    case DropFuture(token) =>
      if token in w.live then
        var f := w.live[token];
        var w' := w.(live := w.live - {token}, table := ClearWaker(w.table, token));
        if f.completed then w' else MarkCancelled(w', token, f.kind)
      else w
    case ClearCancelled => w.(cancelledTokens := {}, cancelledKinds := map[])
  }

  function Run(h: seq<Step>): World {
    if h == [] then START else Apply(Run(h[..|h| - 1]), h[|h| - 1])
  }

  predicate Fresh(h: seq<Step>) {
    h == []
    || (Fresh(h[..|h| - 1]) && (h[|h| - 1].Bind? ==> h[|h| - 1].id !in Run(h[..|h| - 1]).table.owners))
  }

  // ---------------------------------------------------------------- the four lists

  datatype CancelList = Activities | ExternalWaits | QueueWaits

  predicate BelongsTo(kind: Kind, list: CancelList) {
    match list
    case Activities => kind.Activity?
    case ExternalWaits => kind.ExternalWait?
    case QueueWaits => kind.QueueDequeue?
  }

  /** A cancelled token whose kind belongs to the list and that is bound to a schedule id. */
  predicate Qualifies(w: World, list: CancelList, token: nat) {
    token in w.cancelledKinds && BelongsTo(w.cancelledKinds[token], list) && token in w.table.bindings
  }

  function IdsIn(w: World, list: CancelList, tokens: set<nat>): set<nat> {
    set t | t in tokens && Qualifies(w, list, t) :: w.table.bindings[t]
  }

  function ActivityIds(w: World): set<nat> {
    IdsIn(w, Activities, w.cancelledTokens)
  }

  function ExternalWaitIds(w: World): set<nat> {
    IdsIn(w, ExternalWaits, w.cancelledTokens)
  }

  function QueueIds(w: World): set<nat> {
    IdsIn(w, QueueWaits, w.cancelledTokens)
  }

  predicate QualifiesSub(w: World, token: nat) {
    token in w.cancelledKinds && w.cancelledKinds[token].SubOrchestration? && token in w.table.bindings
    && w.cancelledKinds[token].subToken in w.instances
  }

  function SubsIn(w: World, tokens: set<nat>): set<(nat, string)> {
    set t | t in tokens && QualifiesSub(w, t) :: (w.table.bindings[t], w.instances[w.cancelledKinds[t].subToken])
  }

  function SubOrchestrations(w: World): set<(nat, string)> {
    SubsIn(w, w.cancelledTokens)
  }

  /** Visiting one more token adds its schedule id, which no visited token has. */
  lemma VisitToken(w: World, list: CancelList, done: set<nat>, token: nat)
    requires Inverse(w.table) && token !in done
    ensures IdsIn(w, list, done + {token})
         == IdsIn(w, list, done) + (if Qualifies(w, list, token) then {w.table.bindings[token]} else {})
    ensures Qualifies(w, list, token) ==> w.table.bindings[token] !in IdsIn(w, list, done)
  {
  }

  lemma VisitSubToken(w: World, done: set<nat>, token: nat)
    requires Inverse(w.table) && token !in done
    ensures SubsIn(w, done + {token})
         == SubsIn(w, done)
            + (if QualifiesSub(w, token)
               then {(w.table.bindings[token], w.instances[w.cancelledKinds[token].subToken])} else {})
    ensures QualifiesSub(w, token) ==> forall p :: p in SubsIn(w, done) ==> p.0 != w.table.bindings[token]
  {
  }

  function SubOrchestrationIds(w: World): set<nat> {
    set p | p in SubOrchestrations(w) :: p.0
  }

  /** The number of the four lists that a schedule id appears in. */
  function ListsWith(w: World, id: nat): nat {
    (if id in ActivityIds(w) then 1 else 0)
    + (if id in ExternalWaitIds(w) then 1 else 0)
    + (if id in QueueIds(w) then 1 else 0)
    + (if id in SubOrchestrationIds(w) then 1 else 0)
  }

  ghost predicate Valid(w: World) {
    && Inverse(w.table)
    && w.cancelledTokens == w.cancelledKinds.Keys
    && (forall t :: t in w.live ==> t <= w.nextToken && t !in w.cancelledTokens)
    && (forall t :: t in w.cancelledTokens ==> t <= w.nextToken)
    && (forall t :: t in w.live && w.live[t].kind.SubOrchestration? ==> w.live[t].kind.subToken == t)
    && (forall t :: t in w.cancelledKinds && w.cancelledKinds[t].SubOrchestration? ==>
         w.cancelledKinds[t].subToken == t)
  }

  lemma StepKeepsValid(w: World, s: Step)
    requires Valid(w) && (s.Bind? ==> s.id !in w.table.owners)
    ensures Valid(Apply(w, s))
  {
    if s.Bind? { BindKeepsInverse(w.table, s.token, s.id); }
  }

  lemma {:induction false} RunIsValid(h: seq<Step>)
    requires Fresh(h)
    ensures Valid(Run(h))
  {
    hide Valid, Apply;
    if h != [] {
      RunIsValid(h[..|h| - 1]);
      StepKeepsValid(Run(h[..|h| - 1]), h[|h| - 1]);
    } else {
      StartIsValid();
    }
  }

  lemma StartIsValid()
    ensures Valid(START)
  {
  }

  /** What must be known about a token for its drop to be reported. */
  predicate Reportable(w: World, token: nat, kind: Kind) {
    token in w.table.bindings && !kind.Timer? && (kind.SubOrchestration? ==> kind.subToken in w.instances)
  }

  /**
   A cancelled token is reported, in exactly one list, exactly when it is bound, is no timer and,
   for a sub-orchestration, has its instance mapping. A schedule id of any other token is in none.
   */
  lemma ExactlyOneList(w: World, token: nat)
    requires Valid(w) && token in w.table.bindings
    ensures ListsWith(w, w.table.bindings[token])
         == if token in w.cancelledTokens && Reportable(w, token, w.cancelledKinds[token]) then 1 else 0
  {
    var id := w.table.bindings[token];
    forall t | t in w.table.bindings && w.table.bindings[t] == id ensures t == token {
      assert w.table.owners[id] == t && w.table.owners[id] == token;
    }
    var reported := token in w.cancelledTokens;
    assert id in ActivityIds(w) <==> reported && w.cancelledKinds[token].Activity?;
    assert id in ExternalWaitIds(w) <==> reported && w.cancelledKinds[token].ExternalWait?;
    assert id in QueueIds(w) <==> reported && w.cancelledKinds[token].QueueDequeue?;
    SubOrchestrationListed(w, token);
  }

  lemma SubOrchestrationListed(w: World, token: nat)
    requires Valid(w) && token in w.table.bindings
    ensures w.table.bindings[token] in SubOrchestrationIds(w)
            <==> token in w.cancelledTokens && w.cancelledKinds[token].SubOrchestration?
                 && w.cancelledKinds[token].subToken in w.instances
  {
    var id := w.table.bindings[token];
    if id in SubOrchestrationIds(w) {
      var p :| p in SubOrchestrations(w) && p.0 == id;
      var t :| t in w.cancelledTokens && QualifiesSub(w, t)
               && p == (w.table.bindings[t], w.instances[w.cancelledKinds[t].subToken]);
      assert w.table.owners[id] == t && w.table.owners[id] == token;
    }
    if token in w.cancelledTokens && w.cancelledKinds[token].SubOrchestration?
       && w.cancelledKinds[token].subToken in w.instances {
      assert (id, w.instances[w.cancelledKinds[token].subToken]) in SubOrchestrations(w);
    }
  }

  // ---------------------------------------------------------------- over runs

  /** The token's future is dropped at step i while it has not completed. */
  predicate DropsUnfinished(h: seq<Step>, i: nat, token: nat)
    requires i < |h|
  {
    h[i] == DropFuture(token) && token in Run(h[..i]).live && !Run(h[..i]).live[token].completed
  }

  /** The drop at step i is still on the list at the end: nothing cleared it. */
  predicate ListedBy(h: seq<Step>, i: nat, token: nat)
    requires i < |h|
  {
    DropsUnfinished(h, i, token) && ClearCancelled !in h[i..]
  }

  lemma ListedBySnoc(h: seq<Step>, i: nat, token: nat)
    requires i < |h| - 1
    ensures ListedBy(h, i, token) <==> ListedBy(h[..|h| - 1], i, token) && h[|h| - 1] != ClearCancelled
  {
    assert h[..|h| - 1][..i] == h[..i];
    assert h[i..] == h[..|h| - 1][i..] + [h[|h| - 1]];
  }

  /**
   A token is on the cancellation list at the end of a run exactly when its future was dropped
   unfinished at some step and the list has not been cleared since.
   */
  lemma {:induction false} ListedExactlyAfterUnfinishedDrop(h: seq<Step>, token: nat)
    ensures token in Run(h).cancelledTokens <==> exists i :: 0 <= i < |h| && ListedBy(h, i, token)
  {
    if h != [] {
      var g, s, n := h[..|h| - 1], h[|h| - 1], |h| - 1;
      ListedExactlyAfterUnfinishedDrop(g, token);
      assert h[n..] == [s];
      assert token in Run(h).cancelledTokens
             <==> ListedBy(h, n, token) || (s != ClearCancelled && token in Run(g).cancelledTokens);
      forall i | 0 <= i < n ensures ListedBy(h, i, token) <==> ListedBy(g, i, token) && s != ClearCancelled {
        ListedBySnoc(h, i, token);
      }
    }
  }

  /** Once gone, a token's future does not come back: tokens are never handed out twice. */
  lemma {:induction false} GoneForever(h: seq<Step>, i: nat, token: nat)
    requires Fresh(h) && i <= |h|
    requires token <= Run(h[..i]).nextToken && token !in Run(h[..i]).live
    ensures token <= Run(h).nextToken && token !in Run(h).live
  {
    hide Apply;
    if i == |h| {
      assert h[..i] == h;
    } else {
      assert h[..|h| - 1][..i] == h[..i];
      GoneForever(h[..|h| - 1], i, token);
      TokensAreNotReused(Run(h[..|h| - 1]), h[|h| - 1], token);
    }
  }

  lemma TokensAreNotReused(w: World, s: Step, token: nat)
    requires token <= w.nextToken && token !in w.live
    ensures token <= Apply(w, s).nextToken && token !in Apply(w, s).live
  {
  }

  lemma {:induction false} FreshPrefix(h: seq<Step>, i: nat)
    requires Fresh(h) && i <= |h|
    ensures Fresh(h[..i])
  {
    if i == |h| {
      assert h[..i] == h;
    } else {
      assert h[..|h| - 1][..i] == h[..i];
      FreshPrefix(h[..|h| - 1], i);
    }
  }

  lemma ClearInTail(h: seq<Step>, i: nat, clear: nat)
    requires i < |h| && clear < |h| && h[clear] == ClearCancelled && ClearCancelled !in h[i..]
    ensures clear < i
  {
    forall k | i <= k < |h| ensures h[k] in h[i..] {
      assert h[i..][k - i] == h[k];
    }
  }

  /**
   A drop is reported in at most one turn: a token that was listed before a clear is never listed
   again after it.
   */
  lemma NeverListedAgain(h: seq<Step>, clear: nat, token: nat)
    requires Fresh(h) && clear < |h| && h[clear] == ClearCancelled
    requires token in Run(h[..clear]).cancelledTokens
    ensures token !in Run(h).cancelledTokens
  {
    ListedExactlyAfterUnfinishedDrop(h, token);
    FreshPrefix(h, clear);
    RunIsValid(h[..clear]);
    if i :| 0 <= i < |h| && ListedBy(h, i, token) {
      ClearInTail(h, i, clear);
      assert clear < i;
      FreshPrefix(h, i);
      assert h[..i][..clear] == h[..clear];
      GoneForever(h[..i], clear, token);
    }
  }

  predicate NoMap(mid: seq<Step>, token: nat) {
    forall s :: s in mid ==> s != MapFuture(token)
  }

  ghost predicate StaysQuiet(w: World, token: nat) {
    token <= w.nextToken && token !in w.cancelledTokens && (token in w.live ==> w.live[token].completed)
  }

  lemma QuietStep(w: World, s: Step, token: nat)
    requires StaysQuiet(w, token) && s != MapFuture(token)
    ensures StaysQuiet(Apply(w, s), token)
  {
  }

  lemma {:induction false} StaysCompleted(g: seq<Step>, mid: seq<Step>, token: nat)
    requires NoMap(mid, token) && StaysQuiet(Run(g), token)
    ensures StaysQuiet(Run(g + mid), token)
  {
    hide Apply, StaysQuiet;
    if mid == [] {
      assert g + mid == g;
    } else {
      var rest, last := mid[..|mid| - 1], mid[|mid| - 1];
      assert (g + mid)[..|g + mid| - 1] == g + rest;
      assert last in mid && forall s :: s in rest ==> s in mid;
      StaysCompleted(g, rest, token);
      QuietStep(Run(g + rest), last, token);
    }
  }

  /** A future that completed and is not mapped afterwards is never reported, whatever follows. */
  lemma CompletedIsNeverListed(g: seq<Step>, mid: seq<Step>, token: nat)
    requires Fresh(g + [Complete(token)] + mid) && token in Run(g).live && NoMap(mid, token)
    ensures token !in Run(g + [Complete(token)] + mid).cancelledTokens
  {
    var done := g + [Complete(token)];
    assert done[..|done| - 1] == g;
    assert (done + mid)[..|g|] == g;
    FreshPrefix(done + mid, |g|);
    RunIsValid(g);
    StaysCompleted(done, mid, token);
  }

  /** The step completes the live future of the token. */
  predicate CompletesAt(h: seq<Step>, i: nat, token: nat)
    requires i < |h|
  {
    h[i] == Complete(token) && token in Run(h[..i]).live
  }

  /** The future of the token completed at some step and was not mapped since. */
  predicate Finished(h: seq<Step>, token: nat) {
    exists i :: 0 <= i < |h| && CompletesAt(h, i, token) && MapFuture(token) !in h[i..]
  }

  lemma FinishedSnoc(h: seq<Step>, token: nat)
    requires h != []
    ensures var g, s := h[..|h| - 1], h[|h| - 1];
            Finished(h, token) <==>
              CompletesAt(h, |h| - 1, token) || (Finished(g, token) && s != MapFuture(token))
  {
    var g, s, n := h[..|h| - 1], h[|h| - 1], |h| - 1;
    assert h[n..] == [s] && h[..n] == g;
    forall i | 0 <= i < n
      ensures CompletesAt(h, i, token) <==> CompletesAt(g, i, token)
      ensures MapFuture(token) in h[i..] <==> MapFuture(token) in g[i..] || s == MapFuture(token)
    {
      assert h[..i] == g[..i];
      assert h[i..] == g[i..] + [s];
    }
    if Finished(h, token) && !CompletesAt(h, n, token) {
      var i :| 0 <= i < |h| && CompletesAt(h, i, token) && MapFuture(token) !in h[i..];
      assert CompletesAt(g, i, token) && MapFuture(token) !in g[i..];
    }
    if Finished(g, token) && s != MapFuture(token) {
      var i :| 0 <= i < |g| && CompletesAt(g, i, token) && MapFuture(token) !in g[i..];
      assert CompletesAt(h, i, token) && MapFuture(token) !in h[i..];
    }
  }

  lemma {:induction false} FinishedWasHandedOut(h: seq<Step>, token: nat)
    requires Fresh(h) && Finished(h, token)
    ensures token <= Run(h).nextToken
  {
    hide Finished;
    if h != [] {
      var g := h[..|h| - 1];
      FinishedSnoc(h, token);
      if Finished(g, token) {
        FinishedWasHandedOut(g, token);
      } else {
        RunIsValid(g);
      }
    } else {
      NothingFinished(token);
    }
  }

  lemma NothingFinished(token: nat)
    ensures !Finished([], token)
  {
  }

  /** The completed flag of a live future says whether it finished. */
  lemma {:induction false} CompletedMeansFinished(h: seq<Step>, token: nat)
    requires Fresh(h) && token in Run(h).live
    ensures Run(h).live[token].completed <==> Finished(h, token)
  {
    hide Finished;
    var g, s := h[..|h| - 1], h[|h| - 1];
    FinishedSnoc(h, token);
    RunIsValid(g);
    if token in Run(g).live {
      CompletedMeansFinished(g, token);
    } else if Finished(g, token) {
      FinishedWasHandedOut(g, token);
      TokensAreNotReused(Run(g), s, token);
    }
  }

  /**
   Dropping a live future reports its token if and only if the future has not finished: it never
   completed, or it was mapped after its last completion. So a completed future is never reported
   exactly as long as nobody maps it; mapping it re-arms the drop.
   */
  lemma DropIsReportedIffUnfinished(h: seq<Step>, token: nat)
    requires Fresh(h) && token in Run(h).live
    ensures token in Run(h + [DropFuture(token)]).cancelledTokens <==> !Finished(h, token)
  {
    CompletedMeansFinished(h, token);
    RunIsValid(h);
    var all := h + [DropFuture(token)];
    assert all[..|all| - 1] == h;
  }

  /** A completed future that is mapped and then dropped is reported although its work has finished. */
  lemma MapReArms(g: seq<Step>, token: nat)
    requires Fresh(g) && token in Run(g).live
    ensures var h := g + [Complete(token)];
            && token !in Run(h + [DropFuture(token)]).cancelledTokens
            && token in Run(h + [MapFuture(token)] + [DropFuture(token)]).cancelledTokens
  {
    var h := g + [Complete(token)];
    assert h[..|h| - 1] == g;
    FinishedSnoc(h, token);
    DropIsReportedIffUnfinished(h, token);
    var mapped := h + [MapFuture(token)];
    assert mapped[..|mapped| - 1] == h;
    FinishedSnoc(mapped, token);
    DropIsReportedIffUnfinished(mapped, token);
  }

  /** A chain of maps keeps the token's identity: any number of maps and one drop report it once. */
  lemma {:induction false} MapChainKeepsIdentity(g: seq<Step>, maps: nat, token: nat)
    requires token in Run(g).live && !Run(g).live[token].completed
    ensures Run(g + Repeat(MapFuture(token), maps)) == Run(g)
  {
    if maps == 0 {
      assert g + Repeat(MapFuture(token), 0) == g;
    } else {
      var h := g + Repeat(MapFuture(token), maps);
      assert h[..|h| - 1] == g + Repeat(MapFuture(token), maps - 1);
      MapChainKeepsIdentity(g, maps - 1, token);
      assert Run(g).live[token := Run(g).live[token].(completed := false)] == Run(g).live;
    }
  }

  function Repeat(s: Step, n: nat): (r: seq<Step>)
    ensures |r| == n
  {
    if n == 0 then [] else Repeat(s, n - 1) + [s]
  }

  // ---------------------------------------------------------------- which list

  /** A cancelled token of this kind is bound to the schedule id. */
  ghost predicate CancelledWith(w: World, kind: Kind, id: nat) {
    exists t :: t in w.cancelledTokens && Lookup(w.cancelledKinds, t) == Some(kind)
                && Lookup(w.table.bindings, t) == Some(id)
  }

  /** The three lists of schedule ids, kind by kind. */
  lemma ListsByKind(w: World, id: nat)
    ensures id in ActivityIds(w) <==> CancelledWith(w, Activity, id)
    ensures id in ExternalWaitIds(w) <==> CancelledWith(w, ExternalWait, id)
    ensures id in QueueIds(w) <==> CancelledWith(w, QueueDequeue, id)
  {
  }

  function Schedules(h: seq<Step>): nat {
    if h == [] then 0 else Schedules(h[..|h| - 1]) + if h[|h| - 1].Schedule? then 1 else 0
  }

  /** The kind that was scheduled under a token: tokens number the schedule steps. */
  function ScheduledKind(h: seq<Step>, token: nat): Option<Kind> {
    if h == [] then None
    else
      var g, s := h[..|h| - 1], h[|h| - 1];
      if s.Schedule? && token == Schedules(g) + 1 then Some(s.kind) else ScheduledKind(g, token)
  }

  function LastBoundId(h: seq<Step>, token: nat): Option<nat> {
    if h == [] then None
    else if h[|h| - 1].Bind? && h[|h| - 1].token == token then Some(h[|h| - 1].id)
    else LastBoundId(h[..|h| - 1], token)
  }

  function LastInstance(h: seq<Step>, token: nat): Option<string> {
    if h == [] then None
    else if h[|h| - 1].BindInstance? && h[|h| - 1].token == token then Some(h[|h| - 1].instance)
    else LastInstance(h[..|h| - 1], token)
  }

  /** A future has the kind it was scheduled with; a sub-orchestration's names its token. */
  predicate HasKind(kind: Kind, scheduled: Option<Kind>, token: nat) {
    match scheduled
    case Some(SubOrchestration(_)) => kind == SubOrchestration(token)
    case Some(k) => kind == k
    case None => false
  }

  ghost predicate KindsKept(h: seq<Step>) {
    && Run(h).nextToken == Schedules(h)
    && (forall t :: t in Run(h).live ==> HasKind(Run(h).live[t].kind, ScheduledKind(h, t), t))
    && (forall t :: t in Run(h).cancelledKinds ==> HasKind(Run(h).cancelledKinds[t], ScheduledKind(h, t), t))
  }

  lemma {:induction false} KindsAreScheduled(h: seq<Step>)
    requires Fresh(h)
    ensures KindsKept(h)
  {
    if h != [] {
      var g, s := h[..|h| - 1], h[|h| - 1];
      KindsAreScheduled(g);
      RunIsValid(g);
      StepKeepsKinds(g, s);
      assert g + [s] == h;
    }
  }

  lemma StepKeepsKinds(g: seq<Step>, s: Step)
    requires KindsKept(g) && Valid(Run(g))
    ensures KindsKept(g + [s])
  {
    var h := g + [s];
    assert h[..|h| - 1] == g;
    forall t ensures ScheduledKind(h, t) == if s.Schedule? && t == Run(g).nextToken + 1 then Some(s.kind)
                                            else ScheduledKind(g, t) {
    }
    hide Inverse, BindToken, ClearWaker, ScheduledKind;
  }

  lemma BindingStep(w: World, s: Step, token: nat)
    ensures Lookup(Apply(w, s).table.bindings, token)
            == if s.Bind? && s.token == token then Some(s.id) else Lookup(w.table.bindings, token)
    ensures Lookup(Apply(w, s).instances, token)
            == if s.BindInstance? && s.token == token then Some(s.instance) else Lookup(w.instances, token)
  {
  }

  lemma {:induction false} BindingsAreLast(h: seq<Step>, token: nat)
    ensures Lookup(Run(h).table.bindings, token) == LastBoundId(h, token)
    ensures Lookup(Run(h).instances, token) == LastInstance(h, token)
  {
    if h != [] {
      BindingsAreLast(h[..|h| - 1], token);
      BindingStep(Run(h[..|h| - 1]), h[|h| - 1], token);
      hide Apply;
    }
  }

  /** The token's future was dropped unfinished, and the list was not cleared since. */
  ghost predicate Outstanding(h: seq<Step>, token: nat) {
    exists i :: 0 <= i < |h| && ListedBy(h, i, token)
  }

  /**
   The schedule id of every token is in the list of the kind it was scheduled with, and in no other,
   exactly while an unfinished drop is outstanding; for a sub-orchestration, with the instance last
   bound to the token, if there is one; for a timer, in none.
   */
  lemma UnfinishedDropIsListedByKind(h: seq<Step>, token: nat, id: nat)
    requires Fresh(h) && LastBoundId(h, token) == Some(id)
    ensures id in ActivityIds(Run(h)) <==> ScheduledKind(h, token) == Some(Activity) && Outstanding(h, token)
    ensures id in ExternalWaitIds(Run(h)) <==> ScheduledKind(h, token) == Some(ExternalWait) && Outstanding(h, token)
    ensures id in QueueIds(Run(h)) <==> ScheduledKind(h, token) == Some(QueueDequeue) && Outstanding(h, token)
    ensures forall instance :: (id, instance) in SubOrchestrations(Run(h))
                               <==> ScheduledKind(h, token).Some? && ScheduledKind(h, token).value.SubOrchestration?
                                    && Outstanding(h, token) && LastInstance(h, token) == Some(instance)
  {
    RunIsValid(h);
    KindsAreScheduled(h);
    BindingsAreLast(h, token);
    ListedExactlyAfterUnfinishedDrop(h, token);
    ListsByKind(Run(h), id);
    OnlyOwner(Run(h), token, id);
    hide Run, Fresh, ScheduledKind, LastBoundId, LastInstance, Outstanding, ListedBy;
    hide ActivityIds, ExternalWaitIds, QueueIds;
  }

  /** Only the token itself is bound to its schedule id. */
  lemma OnlyOwner(w: World, token: nat, id: nat)
    requires Inverse(w.table) && Lookup(w.table.bindings, token) == Some(id)
    ensures forall t :: Lookup(w.table.bindings, t) == Some(id) ==> t == token
  {
  }
}
