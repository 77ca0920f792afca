/**
 The in-memory context that every orchestration turn is replayed into, and the durable futures
 that refer to it. The methods work on the maps and vectors of the context in place; their
 contracts relate them to the value models of the other modules.
 */
module ReplayContext {
  import opened Common
  import opened SubscriptionLog
  import opened TokenTable
  import BoardRuns
  import ExternalEvents
  import Mailbox
  import Cancellation
  import KvStore
  import KvTurns

  datatype Action =
    | CallActivity(name: string, input: string, session: Option<string>, tag: Option<string>)
    | CreateTimer(fireAt: nat)
    | WaitExternal(name: string)
    | DequeueEvent(name: string)
    | StartSubOrchestration(name: string, instance: string, input: string)
    | SetKeyValue(key: string, value: string, ts: nat)
    | ClearKeyValue(key: string)
    | ClearKeyValues
    | OtherAction(text: string)

  /** The history event a key-value action becomes; other actions change no keys. */
  function KvEventOf(a: Action): seq<KvStore.KvEvent> {
    match a
    case SetKeyValue(key, value, ts) => [KvStore.KeyValueSet(key, value, ts)]
    case ClearKeyValue(key) => [KvStore.KeyValueCleared(key)]
    case ClearKeyValues => [KvStore.KeyValuesCleared]
    case _ => []
  }

  function KvEvents(actions: seq<(nat, Action)>): seq<KvStore.KvEvent> {
    if actions == [] then []
    else KvEvents(actions[..|actions| - 1]) + KvEventOf(actions[|actions| - 1].1)
  }

  /** The key-value entries after the emitted actions of a turn. */
  function StateAfter(seed: map<string, KvStore.Entry>, emitted: seq<(nat, Action)>): map<string, KvStore.Entry> {
    KvStore.Fold(seed, KvEvents(emitted))
  }

  /** The n-th emitted action has token n. */
  predicate Numbered(emitted: seq<(nat, Action)>) {
    emitted == [] || (emitted[|emitted| - 1].0 == |emitted| && Numbered(emitted[..|emitted| - 1]))
  }

  lemma {:induction false} NextEvents(emitted: seq<(nat, Action)>, token: nat, action: Action)
    ensures KvEvents(emitted + [(token, action)]) == KvEvents(emitted) + KvEventOf(action)
  {
    assert (emitted + [(token, action)])[..|emitted|] == emitted;
  }

  lemma {:induction false} NextIsNumbered(emitted: seq<(nat, Action)>, action: Action)
    requires Numbered(emitted)
    ensures Numbered(emitted + [(|emitted| + 1, action)])
  {
    var longer := emitted + [(|emitted| + 1, action)];
    assert longer[..|emitted|] == emitted;
  }

  /** One more action: its key-value event, if it is one, takes effect. */
  lemma {:induction false} NextTakesEffect(
    seed: map<string, KvStore.Entry>, emitted: seq<(nat, Action)>, token: nat, action: Action)
    ensures var event, before := KvEventOf(action), StateAfter(seed, emitted);
            StateAfter(seed, emitted + [(token, action)])
            == if event == [] then before else KvStore.Effect(before, event[0])
  {
    var event, before := KvEventOf(action), StateAfter(seed, emitted);
    NextEvents(emitted, token, action);
    hide KvEvents, KvStore.Fold, KvStore.Effect;
    KvStore.FoldConcat(seed, KvEvents(emitted), event);
    if event == [] {
      KvStore.FoldNone(before);
    } else {
      assert event == [event[0]];
      KvStore.FoldOne(before, event[0]);
    }
  }

  lemma {:induction false} NumberedAt(emitted: seq<(nat, Action)>, i: nat)
    requires Numbered(emitted) && i < |emitted|
    ensures emitted[i].0 == i + 1
  {
    if i < |emitted| - 1 { NumberedAt(emitted[..|emitted| - 1], i); }
  }

  /** Tokens number the emitted actions; values and timestamps are those of the fold of their events. */
  predicate Consistent(seed: map<string, KvStore.Entry>, emitted: seq<(nat, Action)>, lastToken: nat,
                       values: map<string, string>, stamps: map<string, nat>) {
    && |emitted| == lastToken && Numbered(emitted)
    && values == KvStore.Values(StateAfter(seed, emitted)) && stamps == KvStore.Stamps(StateAfter(seed, emitted))
  }

  /** Emitting a key-value action and applying it to values and timestamps keeps them consistent. */
  lemma ActionKeepsConsistent(seed: map<string, KvStore.Entry>, emitted: seq<(nat, Action)>, last: nat,
                              values: map<string, string>, stamps: map<string, nat>, action: Action)
    requires Consistent(seed, emitted, last, values, stamps)
    ensures KvEvents(emitted + [(last + 1, action)]) == KvEvents(emitted) + KvEventOf(action)
    ensures var longer := emitted + [(last + 1, action)];
            match action
            case SetKeyValue(key, value, ts) =>
              Consistent(seed, longer, last + 1, values[key := value], stamps[key := ts])
            case ClearKeyValue(key) => Consistent(seed, longer, last + 1, values - {key}, stamps - {key})
            case ClearKeyValues => Consistent(seed, longer, last + 1, map[], map[])
            case _ => Consistent(seed, longer, last + 1, values, stamps)
  {
    hide StateAfter, Numbered, KvEvents, KvStore.Values, KvStore.Stamps, KvStore.Effect;
    NextEvents(emitted, last + 1, action);
    NextIsNumbered(emitted, action);
    NextTakesEffect(seed, emitted, last + 1, action);
    if KvEventOf(action) != [] {
      KvStore.EffectOnBoth(StateAfter(seed, emitted), KvEventOf(action)[0]);
    }
  }

  lemma OneLonger<T>(a: seq<T>, b: seq<T>, x: T)
    ensures a + (b + [x]) == (a + b) + [x]
  {
  }

  /** Changing the tag of an activity changes neither the numbering nor the key-value events. */
  lemma {:induction false} TagKeepsEvents(a: seq<(nat, Action)>, i: nat, tag: string)
    requires i < |a| && a[i].1.CallActivity?
    ensures var b := a[i := (a[i].0, a[i].1.(tag := Some(tag)))];
            (Numbered(a) <==> Numbered(b)) && KvEvents(b) == KvEvents(a)
  {
    var b := a[i := (a[i].0, a[i].1.(tag := Some(tag)))];
    var n := |a| - 1;
    if i == n {
      assert b[..n] == a[..n];
    } else {
      assert b[..n] == a[..n][i := (a[i].0, a[i].1.(tag := Some(tag)))];
      TagKeepsEvents(a[..n], i, tag);
    }
  }

  class CtxInner {
    var nextToken: nat
    var emittedActions: seq<(nat, Action)>
    var completionResults: map<nat, Completion>
    var tokenBindings: map<nat, nat>
    var scheduleBindings: map<nat, nat>
    var tokenWakers: map<nat, Waker>
    var externalSubscriptions: map<nat, (string, nat)>
    var externalArrivals: map<string, seq<string>>
    var externalNextIndex: map<string, nat>
    var externalCancelled: set<nat>
    var queueSubscriptions: seq<Sub>
    var queueArrivals: map<string, seq<string>>
    var queueCancelled: set<nat>
    var queueResolved: set<nat>
    var subOrchestrationInstances: map<nat, string>
    var cancelledTokens: set<nat>
    var cancelledTokenKinds: map<nat, Kind>
    var kvState: map<string, string>
    var kvMetadata: map<string, nat>

    /** The external subscriptions in bind order. */
    ghost var externalLog: seq<Sub>
    /** Actions already drained in this turn, and the key-value state the turn was seeded with. */
    ghost var drained: seq<(nat, Action)>
    ghost var kvSeed: map<string, KvStore.Entry>

    ghost function Table(): TokenTable.Table
      reads `tokenBindings, `scheduleBindings, `completionResults, `tokenWakers
    {
      TokenTable.Table(tokenBindings, scheduleBindings, completionResults, tokenWakers)
    }

    function Externals(): ExternalEvents.Externals
      reads `externalSubscriptions, `externalArrivals, `externalNextIndex, `externalCancelled
    {
      ExternalEvents.Externals(externalSubscriptions, externalArrivals, externalNextIndex, externalCancelled)
    }

    ghost function ExternalBoard(): Board
      reads `externalLog, `externalCancelled, `externalArrivals
    {
      Board(externalLog, externalCancelled, externalArrivals)
    }

    function Mail(): Mailbox.Mail
      reads `queueSubscriptions, `queueCancelled, `queueArrivals, `queueResolved
    {
      Mailbox.Mail(Board(queueSubscriptions, queueCancelled, queueArrivals), queueResolved)
    }

    /** Everything emitted so far in this turn, drained or not. */
    ghost function Emitted(): seq<(nat, Action)>
      reads `drained, `emittedActions
    {
      drained + emittedActions
    }

    /** The cancellation side of the context; which futures are live is the orchestration's business. */
    ghost function Cancellations(): Cancellation.World
      reads `nextToken, `tokenBindings, `scheduleBindings, `completionResults, `tokenWakers
      reads `subOrchestrationInstances, `cancelledTokens, `cancelledTokenKinds
    {
      Cancellation.World(nextToken, map[], Table(), subOrchestrationInstances, cancelledTokens, cancelledTokenKinds)
    }

    ghost predicate TokensValid()
      reads `tokenBindings, `scheduleBindings, `completionResults, `tokenWakers
    {
      Inverse(Table())
    }

    ghost predicate ExternalsValid()
      reads `externalSubscriptions, `externalArrivals, `externalNextIndex, `externalCancelled, `externalLog
    {
      ExternalEvents.Linked(Externals(), ExternalBoard())
    }

    ghost predicate QueueValid()
      reads `queueSubscriptions
    {
      Distinct(queueSubscriptions)
    }

    ghost predicate CancelledValid()
      reads `cancelledTokens, `cancelledTokenKinds
    {
      cancelledTokens == cancelledTokenKinds.Keys
    }

    ghost predicate ActionsValid()
      reads `nextToken, `emittedActions, `drained, `kvState, `kvSeed, `kvMetadata
    {
      Consistent(kvSeed, Emitted(), nextToken, kvState, kvMetadata)
    }

    ghost predicate Valid()
      reads this
    {
      TokensValid() && ExternalsValid() && QueueValid() && CancelledValid() && ActionsValid()
    }

    /** A new context, seeded with the provider's key-value snapshot. */
    constructor (snapshot: map<string, KvStore.Entry>)
      ensures Valid()
      ensures kvSeed == snapshot && kvState == KvStore.Values(snapshot) && kvMetadata == KvStore.Stamps(snapshot)
      ensures Table() == EMPTY_TABLE && Externals() == ExternalEvents.NO_EXTERNALS
      ensures Mail() == Mailbox.Mail(EMPTY_BOARD, {}) && Emitted() == [] && cancelledTokens == {}
    {
      nextToken := 0;
      emittedActions, drained := [], [];
      completionResults, tokenBindings, scheduleBindings, tokenWakers := map[], map[], map[], map[];
      externalSubscriptions, externalArrivals, externalNextIndex, externalCancelled := map[], map[], map[], {};
      externalLog := [];
      queueSubscriptions, queueArrivals, queueCancelled, queueResolved := [], map[], {}, {};
      subOrchestrationInstances := map[];
      cancelledTokens, cancelledTokenKinds := {}, map[];
      kvSeed := snapshot;
      kvState, kvMetadata := KvStore.Values(snapshot), KvStore.Stamps(snapshot);
      new;
      assert Emitted() == [];
    }

    // -------------------------------------------------------------- actions

    /** The next token and the action under it, whatever the action. */
    method PushAction(action: Action) returns (token: nat)
      modifies `nextToken, `emittedActions
      ensures token == nextToken == old(nextToken) + 1
      ensures emittedActions == old(emittedActions) + [(token, action)]
      ensures Emitted() == old(Emitted()) + [(token, action)]
    {
      nextToken := nextToken + 1;
      token := nextToken;
      emittedActions := emittedActions + [(token, action)];
      OneLonger(drained, old(emittedActions), (token, action));
    }

    method EmitAction(action: Action) returns (token: nat)
      requires ActionsValid() && KvEventOf(action) == []
      modifies `nextToken, `emittedActions
      ensures ActionsValid()
      ensures token == old(nextToken) + 1 && emittedActions == old(emittedActions) + [(token, action)]
    {
      hide Consistent, KvEvents, Emitted;
      ActionKeepsConsistent(kvSeed, Emitted(), nextToken, kvState, kvMetadata, action);
      token := PushAction(action);
    }

    method DrainEmittedActions() returns (actions: seq<(nat, Action)>)
      requires ActionsValid()
      modifies `emittedActions, `drained
      ensures ActionsValid()
      ensures actions == old(emittedActions) && emittedActions == [] && drained == old(drained) + actions
    {
      actions := emittedActions;
      emittedActions, drained := [], drained + actions;
      assert Emitted() == old(Emitted());
    }

    // -------------------------------------------------------------- tokens

    method BindToken(token: nat, id: nat)
      requires TokensValid() && id !in scheduleBindings
      modifies `tokenBindings, `scheduleBindings
      ensures TokensValid()
      ensures Table() == TokenTable.BindToken(old(Table()), token, id)
    {
      BindKeepsInverse(Table(), token, id);
      if token in tokenBindings {
        scheduleBindings := scheduleBindings - {tokenBindings[token]};
      }
      tokenBindings := tokenBindings[token := id];
      scheduleBindings := scheduleBindings[id := token];
    }

    method DeliverResult(id: nat, result: Completion) returns (wake: Option<Waker>)
      requires TokensValid()
      modifies `completionResults, `tokenWakers
      ensures TokensValid()
      ensures (Table(), wake) == TokenTable.DeliverResult(old(Table()), id, result)
    {
      if id in scheduleBindings {
        var token := scheduleBindings[id];
        completionResults := completionResults[token := result];
        wake := Lookup(tokenWakers, token);
        tokenWakers := tokenWakers - {token};
        return;
      }
      wake := None;
    }

    method RegisterTokenWaker(token: nat, waker: Waker)
      requires TokensValid()
      modifies `tokenWakers
      ensures TokensValid()
      ensures Table() == TokenTable.RegisterWaker(old(Table()), token, waker)
    {
      if token in tokenWakers && WillWake(tokenWakers[token], waker) {
      } else {
        tokenWakers := tokenWakers[token := waker];
      }
    }

    method ClearTokenWaker(token: nat)
      requires TokensValid()
      modifies `tokenWakers
      ensures TokensValid()
      ensures Table() == ClearWaker(old(Table()), token)
    {
      tokenWakers := tokenWakers - {token};
    }

    // -------------------------------------------------------------- positional external events

    method BindExternalSubscription(id: nat, name: string)
      requires ExternalsValid() && id !in externalSubscriptions
      modifies `externalSubscriptions, `externalNextIndex, `externalLog
      ensures ExternalsValid()
      ensures externalLog == old(externalLog) + [Sub(id, name)]
    {
      ExternalEvents.UnboundIsFresh(Externals(), ExternalBoard(), id);
      ExternalEvents.BindKeepsLink(Externals(), ExternalBoard(), id, name);
      var index := if name in externalNextIndex then externalNextIndex[name] else 0;
      externalNextIndex := externalNextIndex[name := index + 1];
      externalSubscriptions := externalSubscriptions[id := (name, index)];
      externalLog := externalLog + [Sub(id, name)];
    }

    /** True when some active subscription of the name would still get nothing. */
    function HasPendingSubscriptionSlot(name: string): (pending: bool)
      requires ExternalsValid()
      reads `externalSubscriptions, `externalArrivals, `externalNextIndex, `externalCancelled, `externalLog
      ensures pending <==> exists id :: id in ExternalEvents.ActiveIds(Externals(), name)
                                        && ExternalEvents.GetEvent(Externals(), id) == None
    {
      ExternalEvents.PendingSlotMeansWaiting(Externals(), ExternalBoard(), name);
      ExternalEvents.HasPendingSlot(Externals(), name)
    }

    method DeliverExternalEvent(name: string, data: string)
      requires ExternalsValid()
      modifies `externalArrivals
      ensures ExternalsValid()
      ensures ExternalBoard() == BoardRuns.Apply(old(ExternalBoard()), BoardRuns.Deliver(name, data))
    {
      var list := if name in externalArrivals then externalArrivals[name] else [];
      externalArrivals := externalArrivals[name := list + [data]];
    }

    /** The payload at the subscription's position among the active ones of its name. */
    function GetExternalEvent(id: nat): (data: Option<string>)
      requires ExternalsValid()
      reads `externalSubscriptions, `externalArrivals, `externalNextIndex, `externalCancelled, `externalLog
      ensures data == Get(ExternalBoard(), id)
    {
      ExternalEvents.GetMatchesBoard(Externals(), ExternalBoard(), id);
      ExternalEvents.GetEvent(Externals(), id)
    }

    method MarkExternalSubscriptionCancelled(id: nat)
      requires ExternalsValid()
      modifies `externalCancelled
      ensures ExternalsValid()
      ensures ExternalBoard() == BoardRuns.Apply(old(ExternalBoard()), BoardRuns.Cancel(id))
    {
      externalCancelled := externalCancelled + {id};
    }

    // -------------------------------------------------------------- mailbox

    method BindQueueSubscription(id: nat, name: string)
      requires QueueValid() && !Bound(queueSubscriptions, id)
      modifies `queueSubscriptions
      ensures QueueValid()
      ensures Mail() == old(Mail()).(board := BoardRuns.Apply(old(Mail()).board, BoardRuns.Bind(id, name)))
    {
      forall i | 0 <= i < |queueSubscriptions| ensures queueSubscriptions[i].id != id {
        assert !Bound(queueSubscriptions, id);
      }
      queueSubscriptions := queueSubscriptions + [Sub(id, name)];
    }

    method DeliverQueueMessage(name: string, data: string)
      requires QueueValid()
      modifies `queueArrivals
      ensures QueueValid()
      ensures Mail() == old(Mail()).(board := BoardRuns.Apply(old(Mail()).board, BoardRuns.Deliver(name, data)))
    {
      var list := if name in queueArrivals then queueArrivals[name] else [];
      queueArrivals := queueArrivals[name := list + [data]];
    }

    method MarkQueueSubscriptionCancelled(id: nat)
      requires QueueValid()
      modifies `queueCancelled
      ensures QueueValid()
      ensures Mail() == old(Mail()).(board := BoardRuns.Apply(old(Mail()).board, BoardRuns.Cancel(id)))
    {
      queueCancelled := queueCancelled + {id};
    }

    /** A dequeue: the message the board entitles the subscription to, unless it already took it. */
    method GetQueueMessage(id: nat) returns (data: Option<string>)
      requires QueueValid()
      modifies `queueResolved
      ensures QueueValid()
      ensures data == if id in old(queueResolved) then None else Get(old(Mail()).board, id)
      ensures queueResolved == old(queueResolved) + (if data.Some? then {id} else {})
    {
      Mailbox.PeekMatchesBoard(Mail(), id);
      var name := Mailbox.FindName(queueSubscriptions, id);
      if name.None? || id in queueResolved || id in queueCancelled {
        return None;
      }
      var index := Mailbox.ActiveAhead(queueSubscriptions, queueCancelled, id, name.value);
      if name.value !in queueArrivals {
        return None;
      }
      var arrivals := queueArrivals[name.value];
      if index < |arrivals| {
        queueResolved := queueResolved + {id};
        data := Some(arrivals[index]);
      } else {
        data := None;
      }
    }

    // -------------------------------------------------------------- cancellation

    method MarkTokenCancelled(token: nat, kind: Kind)
      requires CancelledValid()
      modifies `cancelledTokens, `cancelledTokenKinds
      ensures CancelledValid()
      ensures Cancellations() == Cancellation.MarkCancelled(old(Cancellations()), token, kind)
    {
      cancelledTokens := cancelledTokens + {token};
      cancelledTokenKinds := cancelledTokenKinds[token := kind];
    }

    method BindSubOrchestrationInstance(token: nat, instance: string)
      requires CancelledValid()
      modifies `subOrchestrationInstances
      ensures CancelledValid()
      ensures Cancellations() == Cancellation.Apply(old(Cancellations()), Cancellation.BindInstance(token, instance))
    {
      subOrchestrationInstances := subOrchestrationInstances[token := instance];
    }

    method ClearCancelledTokens()
      requires CancelledValid()
      modifies `cancelledTokens, `cancelledTokenKinds
      ensures CancelledValid()
      ensures Cancellations() == Cancellation.Apply(old(Cancellations()), Cancellation.ClearCancelled)
    {
      cancelledTokens := {};
      cancelledTokenKinds := map[];
    }

    /** The bound schedule ids of the cancelled activities, in hash order, each once. */
    method GetCancelledActivityIds() returns (ids: seq<nat>)
      requires TokensValid() && CancelledValid()
      ensures SetOf(ids) == Cancellation.ActivityIds(Cancellations()) && NoRepeats(ids)
      ensures forall id :: id in ids <==> Cancellation.CancelledWith(Cancellations(), Activity, id)
    {
      ids := [];
      var rest := cancelledTokens;
      while rest != {}
        invariant rest <= cancelledTokens
        invariant SetOf(ids) == Cancellation.IdsIn(Cancellations(), Cancellation.Activities, cancelledTokens - rest)
        invariant NoRepeats(ids)
      {
        var token :| token in rest;
        Cancellation.VisitToken(Cancellations(), Cancellation.Activities, cancelledTokens - rest, token);
        if token in cancelledTokenKinds && cancelledTokenKinds[token].Activity? && token in tokenBindings {
          AppendSet(ids, tokenBindings[token]);
          ids := ids + [tokenBindings[token]];
        }
        rest := rest - {token};
        assert cancelledTokens - rest == cancelledTokens - (rest + {token}) + {token};
      }
      assert cancelledTokens - rest == cancelledTokens;
      forall id ensures id in ids <==> Cancellation.CancelledWith(Cancellations(), Activity, id) {
        Cancellation.ListsByKind(Cancellations(), id);
        assert id in ids <==> id in SetOf(ids);
      }
    }

    /** The bound schedule ids of the cancelled external waits, in hash order, each once. */
    method GetCancelledExternalWaitIds() returns (ids: seq<nat>)
      requires TokensValid() && CancelledValid()
      ensures SetOf(ids) == Cancellation.ExternalWaitIds(Cancellations()) && NoRepeats(ids)
      ensures forall id :: id in ids <==> Cancellation.CancelledWith(Cancellations(), ExternalWait, id)
    {
      ids := [];
      var rest := cancelledTokens;
      while rest != {}
        invariant rest <= cancelledTokens
        invariant SetOf(ids) == Cancellation.IdsIn(Cancellations(), Cancellation.ExternalWaits, cancelledTokens - rest)
        invariant NoRepeats(ids)
      {
        var token :| token in rest;
        Cancellation.VisitToken(Cancellations(), Cancellation.ExternalWaits, cancelledTokens - rest, token);
        if token in cancelledTokenKinds && cancelledTokenKinds[token].ExternalWait? && token in tokenBindings {
          AppendSet(ids, tokenBindings[token]);
          ids := ids + [tokenBindings[token]];
        }
        rest := rest - {token};
        assert cancelledTokens - rest == cancelledTokens - (rest + {token}) + {token};
      }
      assert cancelledTokens - rest == cancelledTokens;
      forall id ensures id in ids <==> Cancellation.CancelledWith(Cancellations(), ExternalWait, id) {
        Cancellation.ListsByKind(Cancellations(), id);
        assert id in ids <==> id in SetOf(ids);
      }
    }

    /** The bound schedule ids of the cancelled queue waits, in hash order, each once. */
    method GetCancelledQueueIds() returns (ids: seq<nat>)
      requires TokensValid() && CancelledValid()
      ensures SetOf(ids) == Cancellation.QueueIds(Cancellations()) && NoRepeats(ids)
      ensures forall id :: id in ids <==> Cancellation.CancelledWith(Cancellations(), QueueDequeue, id)
    {
      ids := [];
      var rest := cancelledTokens;
      while rest != {}
        invariant rest <= cancelledTokens
        invariant SetOf(ids) == Cancellation.IdsIn(Cancellations(), Cancellation.QueueWaits, cancelledTokens - rest)
        invariant NoRepeats(ids)
      {
        var token :| token in rest;
        Cancellation.VisitToken(Cancellations(), Cancellation.QueueWaits, cancelledTokens - rest, token);
        if token in cancelledTokenKinds && cancelledTokenKinds[token].QueueDequeue? && token in tokenBindings {
          AppendSet(ids, tokenBindings[token]);
          ids := ids + [tokenBindings[token]];
        }
        rest := rest - {token};
        assert cancelledTokens - rest == cancelledTokens - (rest + {token}) + {token};
      }
      assert cancelledTokens - rest == cancelledTokens;
      forall id ensures id in ids <==> Cancellation.CancelledWith(Cancellations(), QueueDequeue, id) {
        Cancellation.ListsByKind(Cancellations(), id);
        assert id in ids <==> id in SetOf(ids);
      }
    }

    /** Schedule id and child instance of the cancelled sub-orchestrations that have an instance mapping. */
    method GetCancelledSubOrchestrationCancellations() returns (cancels: seq<(nat, string)>)
      requires TokensValid() && CancelledValid()
      ensures SetOf(cancels) == Cancellation.SubOrchestrations(Cancellations()) && NoRepeats(cancels)
    {
      cancels := [];
      var rest := cancelledTokens;
      while rest != {}
        invariant rest <= cancelledTokens
        invariant SetOf(cancels) == Cancellation.SubsIn(Cancellations(), cancelledTokens - rest)
        invariant NoRepeats(cancels)
      {
        var token :| token in rest;
        Cancellation.VisitSubToken(Cancellations(), cancelledTokens - rest, token);
        if token in cancelledTokenKinds && cancelledTokenKinds[token].SubOrchestration? && token in tokenBindings {
          var subToken := cancelledTokenKinds[token].subToken;
          if subToken in subOrchestrationInstances {
            var cancel := (tokenBindings[token], subOrchestrationInstances[subToken]);
            AppendSet(cancels, cancel);
            cancels := cancels + [cancel];
          }
        }
        rest := rest - {token};
        assert cancelledTokens - rest == cancelledTokens - (rest + {token}) + {token};
      }
      assert cancelledTokens - rest == cancelledTokens;
    }

    // -------------------------------------------------------------- key-value state

    /** now is the wall clock reading. */
    method SetKvValue(key: string, value: string, now: nat)
      requires ActionsValid()
      modifies `nextToken, `emittedActions, `kvState, `kvMetadata
      ensures ActionsValid()
      ensures emittedActions == old(emittedActions) + [(nextToken, SetKeyValue(key, value, now))]
      ensures KvEvents(Emitted()) == old(KvEvents(Emitted())) + KvTurns.Emits(KvTurns.SetKey(key, value), now, [])
      ensures nextToken == old(nextToken) + 1
      ensures kvState == old(kvState)[key := value] && kvMetadata == old(kvMetadata)[key := now]
    {
      hide Consistent, KvEvents, Emitted;
      var action := SetKeyValue(key, value, now);
      ActionKeepsConsistent(kvSeed, Emitted(), nextToken, kvState, kvMetadata, action);
      kvState := kvState[key := value];
      kvMetadata := kvMetadata[key := now];
      var token := PushAction(action);
    }

    method ClearKvValue(key: string)
      requires ActionsValid()
      modifies `nextToken, `emittedActions, `kvState, `kvMetadata
      ensures ActionsValid()
      ensures emittedActions == old(emittedActions) + [(nextToken, ClearKeyValue(key))]
      ensures KvEvents(Emitted()) == old(KvEvents(Emitted())) + KvTurns.Emits(KvTurns.ClearKey(key), 0, [])
      ensures nextToken == old(nextToken) + 1
      ensures kvState == old(kvState) - {key} && kvMetadata == old(kvMetadata) - {key}
    {
      hide Consistent, KvEvents, Emitted;
      var action := ClearKeyValue(key);
      ActionKeepsConsistent(kvSeed, Emitted(), nextToken, kvState, kvMetadata, action);
      kvState := kvState - {key};
      kvMetadata := kvMetadata - {key};
      var token := PushAction(action);
    }

    method ClearAllKvValues()
      requires ActionsValid()
      modifies `nextToken, `emittedActions, `kvState, `kvMetadata
      ensures ActionsValid()
      ensures emittedActions == old(emittedActions) + [(nextToken, ClearKeyValues)]
      ensures KvEvents(Emitted()) == old(KvEvents(Emitted())) + KvTurns.Emits(KvTurns.ClearAll, 0, [])
      ensures nextToken == old(nextToken) + 1
      ensures kvState == map[] && kvMetadata == map[]
    {
      hide Consistent, KvEvents, Emitted;
      var action := ClearKeyValues;
      ActionKeepsConsistent(kvSeed, Emitted(), nextToken, kvState, kvMetadata, action);
      kvState := map[];
      kvMetadata := map[];
      var token := PushAction(action);
    }

    /** The keys whose timestamp is older than the bound. */
    function OlderKeys(updatedBefore: nat): set<string>
      reads `kvMetadata, `kvState
    {
      set k | k in kvMetadata && kvMetadata[k] < updatedBefore && k in kvState
    }

    /**
     Clears every key whose timestamp is older than the bound, in whatever order the map yields
     them, by emitting one clear action for each, and returns their number.
     */
    method PruneKvValuesUpdatedBefore(updatedBefore: nat) returns (count: nat, ghost order: seq<string>)
      requires ActionsValid()
      modifies `nextToken, `emittedActions, `kvState, `kvMetadata
      ensures ActionsValid()
      ensures count == |old(OlderKeys(updatedBefore))| && nextToken == old(nextToken) + count
      ensures kvState == old(kvState) - old(OlderKeys(updatedBefore))
      ensures kvMetadata == old(kvMetadata) - old(OlderKeys(updatedBefore))
      ensures KvTurns.Lists(order, old(OlderKeys(updatedBefore)))
      ensures emittedActions == old(emittedActions) + ClearActions(old(nextToken), order)
      ensures KvEvents(Emitted()) == old(KvEvents(Emitted())) + KvTurns.Emits(KvTurns.Prune(updatedBefore), 0, order)
    {
      var keys := Listed(OlderKeys(updatedBefore));
      order := keys;
      count := |keys|;
      NoRepeatsCard(keys);
      ClearEach(keys);
    }

    method ClearEach(keys: seq<string>)
      requires ActionsValid()
      modifies `nextToken, `emittedActions, `kvState, `kvMetadata
      ensures ActionsValid()
      ensures nextToken == old(nextToken) + |keys|
      ensures kvState == old(kvState) - SetOf(keys) && kvMetadata == old(kvMetadata) - SetOf(keys)
      ensures emittedActions == old(emittedActions) + ClearActions(old(nextToken), keys)
      ensures KvEvents(Emitted()) == old(KvEvents(Emitted())) + KvTurns.Clears(keys)
    {
      hide ActionsValid, KvEvents;
      for i := 0 to |keys|
        invariant ActionsValid() && nextToken == old(nextToken) + i
        invariant kvState == old(kvState) - SetOf(keys[..i]) && kvMetadata == old(kvMetadata) - SetOf(keys[..i])
        invariant emittedActions == old(emittedActions) + ClearActions(old(nextToken), keys[..i])
        invariant KvEvents(Emitted()) == old(KvEvents(Emitted())) + KvTurns.Clears(keys[..i])
      {
        ClearKvValue(keys[i]);
        OneMoreKey(keys, i, old(nextToken), old(emittedActions));
        OneMoreClear(keys, i, old(KvEvents(Emitted())));
        WithoutOneMore(old(kvState), SetOf(keys[..i]), keys[i]);
        WithoutOneMore(old(kvMetadata), SetOf(keys[..i]), keys[i]);
      }
      assert keys[..|keys|] == keys;
    }

    /**
     Values and timestamps are the seed snapshot with the events of all emitted actions folded in:
     for each key what the last event that touches it left, and else the snapshot's entry.
     */
    lemma StateIsFoldOfEmitted(key: string)
      requires ActionsValid()
      ensures kvState == KvStore.Values(KvStore.Fold(kvSeed, KvEvents(Emitted())))
      ensures kvMetadata == KvStore.Stamps(KvStore.Fold(kvSeed, KvEvents(Emitted())))
      ensures var entry := match KvStore.LastTouch(KvEvents(Emitted()), key)
                           case Some(touched) => touched
                           case None => Lookup(kvSeed, key);
              && Lookup(kvState, key) == (if entry.Some? then Some(entry.value.value) else None)
              && Lookup(kvMetadata, key) == (if entry.Some? then Some(entry.value.ts) else None)
    {
      KvStore.FoldByLastTouch(kvSeed, KvEvents(Emitted()), key);
    }

    /**
     The keys a prune would clear: those the turn last set at a clock reading older than the bound,
     and those it left alone whose timestamp in the snapshot is older.
     */
    lemma OlderKeysByLastTouch(bound: nat, key: string)
      requires ActionsValid()
      ensures OlderKeys(bound) == KvStore.Older(KvStore.Fold(kvSeed, KvEvents(Emitted())), bound)
      ensures key in OlderKeys(bound)
              <==> match KvStore.LastTouch(KvEvents(Emitted()), key)
                   case Some(Some(entry)) => entry.ts < bound
                   case Some(None) => false
                   case None => key in kvSeed && kvSeed[key].ts < bound
    {
      KvStore.FoldByLastTouch(kvSeed, KvEvents(Emitted()), key);
    }

    // -------------------------------------------------------------- tags

    /**
     Sets the routing tag of the activity action that was emitted for the token. The program
     panics if the action was drained already or is not an activity.
     */
    method SetTag(token: nat, tag: string) returns (ok: bool)
      requires ActionsValid()
      modifies `emittedActions
      ensures ActionsValid()
      ensures ok <==> exists i :: 0 <= i < |old(emittedActions)| && IsActivityFor(old(emittedActions)[i], token)
      ensures emittedActions == if ok then Tagged(old(emittedActions), token, tag) else old(emittedActions)
    {
      var i := 0;
      while i < |emittedActions|
        invariant 0 <= i <= |emittedActions| && emittedActions == old(emittedActions)
        invariant forall j :: 0 <= j < i ==> emittedActions[j].0 != token
      {
        if emittedActions[i].0 == token {
          if emittedActions[i].1.CallActivity? {
            TagOne(drained, emittedActions, i, tag, kvSeed);
            emittedActions := emittedActions[i := (token, emittedActions[i].1.(tag := Some(tag)))];
            return true;
          }
          TokenIsUnique(drained, emittedActions, i);
          return false;
        }
        i := i + 1;
      }
      ok := false;
    }
  }

  /**
   Two contexts with one snapshot whose key-value events match, timestamps aside, prune the same keys
   if and only if every key last set by those events has both its timestamps on the same side of the bound.
   */
  lemma ContextsPruneAlikeIff(c: CtxInner, d: CtxInner, bound: nat)
    requires c.ActionsValid() && d.ActionsValid() && c.kvSeed == d.kvSeed
    requires KvStore.Alike(KvEvents(c.Emitted()), KvEvents(d.Emitted()))
    ensures c.OlderKeys(bound) == d.OlderKeys(bound)
            <==> forall k: string :: OneSide(c, d, bound, k)
  {
    forall k: string ensures (k in c.OlderKeys(bound) <==> k in d.OlderKeys(bound)) <==> OneSide(c, d, bound, k) {
      KvStore.AlikeTouches(KvEvents(c.Emitted()), KvEvents(d.Emitted()), k);
      c.OlderKeysByLastTouch(bound, k);
      d.OlderKeysByLastTouch(bound, k);
    }
  }

  /** If both contexts last set the key, both timestamps lie on the same side of the bound. */
  ghost predicate OneSide(c: CtxInner, d: CtxInner, bound: nat, key: string)
    reads c, d
  {
    match (KvStore.LastTouch(KvEvents(c.Emitted()), key), KvStore.LastTouch(KvEvents(d.Emitted()), key))
    case (Some(Some(x)), Some(Some(y))) => x.ts < bound <==> y.ts < bound
    case _ => true
  }

  predicate IsActivityFor(a: (nat, Action), token: nat) {
    a.0 == token && a.1.CallActivity?
  }

  /** The same actions, with the tag set on the activity of the token. */
  function Tagged(actions: seq<(nat, Action)>, token: nat, tag: string): (r: seq<(nat, Action)>)
    ensures |r| == |actions|
  {
    seq(|actions|, i requires 0 <= i < |actions| =>
      if IsActivityFor(actions[i], token) then (token, actions[i].1.(tag := Some(tag))) else actions[i])
  }

  lemma TokenIsUnique(drained: seq<(nat, Action)>, actions: seq<(nat, Action)>, i: nat)
    requires Numbered(drained + actions) && i < |actions|
    ensures forall j :: 0 <= j < |actions| && actions[j].0 == actions[i].0 ==> j == i
  {
    forall j | 0 <= j < |actions| ensures actions[j].0 == |drained| + j + 1 {
      NumberedAt(drained + actions, |drained| + j);
    }
  }

  lemma TagOne(drained: seq<(nat, Action)>, actions: seq<(nat, Action)>, i: nat, tag: string,
               seed: map<string, KvStore.Entry>)
    requires Numbered(drained + actions) && i < |actions| && actions[i].1.CallActivity?
    ensures var updated := actions[i := (actions[i].0, actions[i].1.(tag := Some(tag)))];
            updated == Tagged(actions, actions[i].0, tag)
            && Numbered(drained + updated) && StateAfter(seed, drained + updated) == StateAfter(seed, drained + actions)
  {
    var updated := actions[i := (actions[i].0, actions[i].1.(tag := Some(tag)))];
    TokenIsUnique(drained, actions, i);
    TagKeepsEvents(drained + actions, |drained| + i, tag);
    assert drained + updated == (drained + actions)[|drained| + i := updated[i]];
  }

  /** The elements of a set as a sequence, in hash order. */
  method Listed<T>(s: set<T>) returns (list: seq<T>)
    ensures SetOf(list) == s && NoRepeats(list)
  {
    list := [];
    var rest := s;
    while rest != {}
      invariant rest <= s && SetOf(list) == s - rest && NoRepeats(list)
    {
      var x :| x in rest;
      AppendSet(list, x);
      list, rest := list + [x], rest - {x};
    }
  }

  lemma OneMoreKey(keys: seq<string>, i: nat, base: nat, before: seq<(nat, Action)>)
    requires i < |keys|
    ensures SetOf(keys[..i + 1]) == SetOf(keys[..i]) + {keys[i]}
    ensures before + ClearActions(base, keys[..i + 1])
         == before + ClearActions(base, keys[..i]) + [(base + i + 1, ClearKeyValue(keys[i]))]
  {
    assert keys[..i + 1] == keys[..i] + [keys[i]];
    AppendSet(keys[..i], keys[i]);
    assert keys[..i + 1][..i] == keys[..i];
  }

  lemma OneMoreClear(keys: seq<string>, i: nat, before: seq<KvStore.KvEvent>)
    requires i < |keys|
    ensures before + KvTurns.Clears(keys[..i + 1])
            == before + KvTurns.Clears(keys[..i]) + [KvStore.KeyValueCleared(keys[i])]
  {
  }

  lemma WithoutOneMore<V>(m: map<string, V>, done: set<string>, key: string)
    ensures (m - done) - {key} == m - (done + {key})
  {
  }

  lemma AppendSet<T>(s: seq<T>, x: T)
    ensures SetOf(s + [x]) == SetOf(s) + {x}
    ensures NoRepeats(s) && x !in SetOf(s) ==> NoRepeats(s + [x])
  {
    assert x in s + [x];
    assert forall y :: y in s + [x] <==> y in s || y == x;
  }

  /** The clear actions for a list of keys, with consecutive tokens. */
  function ClearActions(base: nat, keys: seq<string>): (actions: seq<(nat, Action)>)
    ensures |actions| == |keys|
  {
    if keys == [] then []
    else ClearActions(base, keys[..|keys| - 1]) + [(base + |keys|, ClearKeyValue(keys[|keys| - 1]))]
  }
}
