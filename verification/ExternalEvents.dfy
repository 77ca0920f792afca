/**
 Positional external events. Every subscription of a name gets the next raw index; a cancelled
 subscription gives up its place, and the lookup compresses raw indices by subtracting the number
 of cancelled subscriptions below. This module shows that the arithmetic is exact: it computes the
 position in the plain list of active subscriptions.
 */
module ExternalEvents {
  import opened Common
  import opened SubscriptionLog
  import BoardRuns

  datatype Externals = Externals(
    subs: map<nat, (string, nat)>,
    arrivals: map<string, seq<string>>,
    next: map<string, nat>,
    cancelled: set<nat>)

  const NO_EXTERNALS := Externals(map[], map[], map[], {})

  function NextIndex(next: map<string, nat>, name: string): nat {
    if name in next then next[name] else 0
  }

  function BindSub(e: Externals, id: nat, name: string): Externals {
    var index := NextIndex(e.next, name);
    e.(next := e.next[name := index + 1], subs := e.subs[id := (name, index)])
  }

  function DeliverEvent(e: Externals, name: string, data: string): Externals {
    e.(arrivals := e.arrivals[name := Arrived(e.arrivals, name) + [data]])
  }

  function MarkCancelled(e: Externals, id: nat): Externals {
    e.(cancelled := e.cancelled + {id})
  }

  /** The number of active subscriptions of the name exceeds the number of arrivals. */
  predicate HasPendingSlot(e: Externals, name: string) {
    |ActiveIds(e, name)| > |Arrived(e.arrivals, name)|
  }

  function ActiveIds(e: Externals, name: string): set<nat> {
    set id | id in e.subs && e.subs[id].0 == name && id !in e.cancelled
  }

  /** Some subscription with this name and raw index is in the cancelled set. */
  predicate IndexCancelled(e: Externals, name: string, index: nat) {
    exists id :: id in e.subs && e.subs[id].0 == name && e.subs[id].1 == index && id in e.cancelled
  }

  function CancelledBelow(e: Externals, name: string, index: nat): set<nat> {
    set id | id in e.subs && e.subs[id].0 == name && e.subs[id].1 < index && IndexCancelled(e, name, e.subs[id].1)
  }

  /** The subtraction on machine words; a negative value is the underflow. */
  function EffectiveIndex(e: Externals, id: nat): int
    requires id in e.subs
  {
    e.subs[id].1 - |CancelledBelow(e, e.subs[id].0, e.subs[id].1)|
  }

  function GetEvent(e: Externals, id: nat): Option<string> {
    if id !in e.subs || id in e.cancelled then None
    else
      var arrivals, index := Arrived(e.arrivals, e.subs[id].0), EffectiveIndex(e, id);
      if 0 <= index < |arrivals| then Some(arrivals[index]) else None
  }

  // ---------------------------------------------------------------- the maps are the log

  /** Raw indices count the earlier subscriptions of the name, cancelled or not. */
  function RawIndex(log: seq<Sub>, name: string): nat {
    ActiveCount(log, {}, name)
  }

  ghost predicate Linked(e: Externals, b: Board) {
    && Distinct(b.log)
    && e.arrivals == b.arrivals
    && e.cancelled == b.cancelled
    && (forall id :: Lookup(e.subs, id) == Subscription(b.log, id))
    && (forall name :: NextIndex(e.next, name) == RawIndex(b.log, name))
  }

  /** The name and raw index of a subscription, read off the log. */
  function Subscription(log: seq<Sub>, id: nat): Option<(string, nat)> {
    if log == [] then None
    else if log[|log| - 1].id == id then Some((log[|log| - 1].name, RawIndex(log[..|log| - 1], log[|log| - 1].name)))
    else Subscription(log[..|log| - 1], id)
  }

  lemma {:induction false} SubscriptionIsRawSlot(log: seq<Sub>, id: nat)
    ensures Subscription(log, id).Some? <==> NameOf(log, id).Some?
    ensures Subscription(log, id).Some? ==>
              SlotOf(log, {}, id) == Some(Subscription(log, id).value.1)
              && NameOf(log, id) == Some(Subscription(log, id).value.0)
  {
    if log != [] { SubscriptionIsRawSlot(log[..|log| - 1], id); }
  }

  lemma UnboundIsFresh(e: Externals, b: Board, id: nat)
    requires Linked(e, b) && id !in e.subs
    ensures !Bound(b.log, id)
  {
    assert Lookup(e.subs, id) == Subscription(b.log, id);
    SubscriptionIsRawSlot(b.log, id);
    if k :| 0 <= k < |b.log| && b.log[k].id == id {
      LookupAt(b.log, {}, k);
    }
  }

  lemma EmptyIsLinked()
    ensures Linked(NO_EXTERNALS, EMPTY_BOARD)
  {
  }

  lemma BindKeepsLink(e: Externals, b: Board, id: nat, name: string)
    requires Linked(e, b) && !Bound(b.log, id)
    ensures Linked(BindSub(e, id, name), BoardRuns.Apply(b, BoardRuns.Bind(id, name)))
  {
    var log' := b.log + [Sub(id, name)];
    assert log'[..|log'| - 1] == b.log;
    forall i | 0 <= i < |b.log| ensures b.log[i].id != id { assert !Bound(b.log, id); }
    forall n ensures NextIndex(BindSub(e, id, name).next, n) == RawIndex(log', n) {
      assert NextIndex(e.next, n) == RawIndex(b.log, n);
    }
  }

  lemma DeliverKeepsLink(e: Externals, b: Board, name: string, data: string)
    requires Linked(e, b)
    ensures Linked(DeliverEvent(e, name, data), BoardRuns.Apply(b, BoardRuns.Deliver(name, data)))
  {
  }

  lemma CancelKeepsLink(e: Externals, b: Board, id: nat)
    requires Linked(e, b)
    ensures Linked(MarkCancelled(e, id), BoardRuns.Apply(b, BoardRuns.Cancel(id)))
  {
  }

  // ---------------------------------------------------------------- counting

  /** The cancelled subscriptions of a name in the log. */
  function CancelledIn(log: seq<Sub>, cancelled: set<nat>, name: string): set<nat> {
    if log == [] then {}
    else CancelledIn(log[..|log| - 1], cancelled, name)
         + (if log[|log| - 1].name == name && log[|log| - 1].id in cancelled then {log[|log| - 1].id} else {})
  }

  lemma {:induction false} CancelledInMembers(log: seq<Sub>, cancelled: set<nat>, name: string, id: nat)
    requires Distinct(log)
    ensures id in CancelledIn(log, cancelled, name) <==> NameOf(log, id) == Some(name) && id in cancelled
  {
    if log != [] {
      var rest, last := log[..|log| - 1], log[|log| - 1];
      CancelledInMembers(rest, cancelled, name, id);
      LastIsNew(log);
      LookupNone(rest, cancelled, last.id);
    }
  }

  lemma LastIsNew(log: seq<Sub>)
    requires Distinct(log) && log != []
    ensures !Bound(log[..|log| - 1], log[|log| - 1].id)
  {
    var rest, last := log[..|log| - 1], log[|log| - 1];
    forall i | 0 <= i < |rest| ensures rest[i].id != last.id { assert log[i] == rest[i]; }
  }

  lemma {:induction false} CancelledInCount(log: seq<Sub>, cancelled: set<nat>, name: string)
    requires Distinct(log)
    ensures |CancelledIn(log, cancelled, name)| == RawIndex(log, name) - ActiveCount(log, cancelled, name)
  {
    if log != [] {
      var rest, last := log[..|log| - 1], log[|log| - 1];
      CancelledInCount(rest, cancelled, name);
      CancelledInMembers(rest, cancelled, name, last.id);
      LastIsNew(log);
      LookupNone(rest, cancelled, last.id);
    }
  }

  /** The entries of a name in a prefix of the log are those with a smaller raw index. */
  lemma {:induction false} PrefixByRawIndex(log: seq<Sub>, k: nat, name: string, id: nat)
    requires Distinct(log) && k <= |log|
    ensures NameOf(log[..k], id) == Some(name)
            <==> exists index :: Subscription(log, id) == Some((name, index)) && index < RawIndex(log[..k], name)
  {
    if k == |log| {
      assert log[..k] == log;
      SlotIsActivePosition(log, {}, name);
      SubscriptionIsRawSlot(log, id);
    } else {
      var rest, last := log[..|log| - 1], log[|log| - 1];
      assert rest[..k] == log[..k];
      PrefixByRawIndex(rest, k, name, id);
      ActiveCountPrefix(rest, k, {}, name);
      if last.id == id {
        LastIsNew(log);
        LookupNone(rest, {}, id);
        SubscriptionIsRawSlot(rest, id);
      }
    }
  }

  /** Raw indices of one name are distinct, so "some cancelled one has this index" means "this one is cancelled". */
  lemma CancelledBelowIsPrefix(e: Externals, b: Board, k: nat)
    requires Linked(e, b) && k < |b.log|
    ensures CancelledBelow(e, b.log[k].name, RawIndex(b.log[..k], b.log[k].name))
         == CancelledIn(b.log[..k], b.cancelled, b.log[k].name)
  {
    var log, name := b.log, b.log[k].name;
    var index := RawIndex(log[..k], name);
    SlotIsActivePosition(log, {}, name);
    forall id ensures id in CancelledBelow(e, name, index) <==> id in CancelledIn(log[..k], b.cancelled, name) {
      CancelledInMembers(log[..k], b.cancelled, name, id);
      PrefixByRawIndex(log, k, name, id);
      SubscriptionIsRawSlot(log, id);
      assert Lookup(e.subs, id) == Subscription(log, id);
      if id in CancelledBelow(e, name, index) {
        var c :| c in e.subs && e.subs[c].0 == name && e.subs[c].1 == e.subs[id].1 && c in e.cancelled;
        assert Lookup(e.subs, c) == Subscription(log, c);
        SubscriptionIsRawSlot(log, c);
        assert c == id;
      }
      if id in CancelledIn(log[..k], b.cancelled, name) {
        assert IndexCancelled(e, name, e.subs[id].1);
      }
    }
  }

  // ---------------------------------------------------------------- main results

  /**
   Index compression is exact: for every bound and active subscription the subtraction does not
   underflow and yields its position in the list of active subscriptions of its name.
   */
  lemma CompressionIsExact(e: Externals, b: Board, id: nat)
    requires Linked(e, b) && id in e.subs && id !in e.cancelled
    ensures 0 <= EffectiveIndex(e, id) < |ActiveList(b.log, b.cancelled, e.subs[id].0)|
    ensures ActiveList(b.log, b.cancelled, e.subs[id].0)[EffectiveIndex(e, id)] == id
    ensures SlotOf(b.log, b.cancelled, id) == Some(EffectiveIndex(e, id))
    ensures NameOf(b.log, id) == Some(e.subs[id].0)
  {
    hide CancelledBelow, CancelledIn;
    assert Lookup(e.subs, id) == Subscription(b.log, id);
    SubscriptionIsRawSlot(b.log, id);
    var k := SlotIsBound(b.log, b.cancelled, id);
    LookupAt(b.log, {}, k);
    LookupAt(b.log, b.cancelled, k);
    CancelledBelowIsPrefix(e, b, k);
    CancelledInCount(b.log[..k], b.cancelled, b.log[k].name);
    SlotIsActivePosition(b.log, b.cancelled, e.subs[id].0);
  }

  /** The compressed lookup returns what the plain two-list picture gives. */
  lemma GetMatchesBoard(e: Externals, b: Board, id: nat)
    requires Linked(e, b)
    ensures GetEvent(e, id) == Get(b, id)
  {
    assert Lookup(e.subs, id) == Subscription(b.log, id);
    SubscriptionIsRawSlot(b.log, id);
    if id in e.subs && id in e.cancelled {
      var k := SlotIsBound(b.log, b.cancelled, id);
      LookupAt(b.log, b.cancelled, k);
    } else if id in e.subs {
      CompressionIsExact(e, b, id);
    }
  }

  /** A slot is pending exactly when some active subscription of the name would still get nothing. */
  lemma PendingSlotMeansWaiting(e: Externals, b: Board, name: string)
    requires Linked(e, b)
    ensures HasPendingSlot(e, name) <==> exists id :: id in ActiveIds(e, name) && GetEvent(e, id) == None
  {
    var active, arrivals := ActiveList(b.log, b.cancelled, name), Arrived(e.arrivals, name);
    ActiveIdsAreTheList(e, b, name);
    SlotIsActivePosition(b.log, b.cancelled, name);
    if |active| > |arrivals| {
      var id := active[|arrivals|];
      GetMatchesBoard(e, b, id);
      assert id in ActiveIds(e, name) && GetEvent(e, id) == None;
    }
    if id :| id in ActiveIds(e, name) && GetEvent(e, id) == None {
      CompressionIsExact(e, b, id);
    }
  }

  lemma ActiveIdsAreTheList(e: Externals, b: Board, name: string)
    requires Linked(e, b)
    ensures ActiveIds(e, name) == SetOf(ActiveList(b.log, b.cancelled, name))
    ensures |ActiveIds(e, name)| == ActiveCount(b.log, b.cancelled, name)
  {
    var active := ActiveList(b.log, b.cancelled, name);
    SlotIsActivePosition(b.log, b.cancelled, name);
    forall id ensures id in ActiveIds(e, name) <==> id in active {
      assert Lookup(e.subs, id) == Subscription(b.log, id);
      SubscriptionIsRawSlot(b.log, id);
      if id in ActiveIds(e, name) { CompressionIsExact(e, b, id); }
      if id in active {
        var k := SlotIsBound(b.log, b.cancelled, id);
        LookupAt(b.log, b.cancelled, k);
      }
    }
    assert NoRepeats(active) by {
      forall i, j | 0 <= i < j < |active| ensures active[i] != active[j] {
        assert SlotOf(b.log, b.cancelled, active[i]) == Some(i);
      }
    }
    NoRepeatsCard(active);
  }

  // ---------------------------------------------------------------- guarded delivery

  /** The replay loop delivers an event only when a slot is pending; otherwise it skips it. */
  function Raise(e: Externals, name: string, data: string): Externals {
    if HasPendingSlot(e, name) then DeliverEvent(e, name, data) else e
  }

  /** No arrival list is longer than the list of active subscriptions of its name. */
  ghost predicate EveryArrivalHasASlot(e: Externals) {
    forall name :: |Arrived(e.arrivals, name)| <= |ActiveIds(e, name)|
  }

  lemma RaiseKeepsSlots(e: Externals, name: string, data: string)
    requires EveryArrivalHasASlot(e)
    ensures EveryArrivalHasASlot(Raise(e, name, data))
  {
    var e' := Raise(e, name, data);
    forall n ensures |Arrived(e'.arrivals, n)| <= |ActiveIds(e', n)| {
      assert ActiveIds(e', n) == ActiveIds(e, n);
    }
  }

  lemma BindKeepsSlots(e: Externals, id: nat, name: string)
    requires EveryArrivalHasASlot(e) && id !in e.subs
    ensures EveryArrivalHasASlot(BindSub(e, id, name))
  {
    var e' := BindSub(e, id, name);
    hide ActiveIds;
    forall n ensures |Arrived(e'.arrivals, n)| <= |ActiveIds(e', n)| {
      BindAddsOne(e, id, name, n);
    }
  }

  lemma BindAddsOne(e: Externals, id: nat, name: string, n: string)
    requires id !in e.subs
    ensures |ActiveIds(BindSub(e, id, name), n)| == |ActiveIds(e, n)| + if n == name && id !in e.cancelled then 1 else 0
  {
    assert ActiveIds(BindSub(e, id, name), n) == ActiveIds(e, n) + if n == name && id !in e.cancelled then {id} else {};
  }

  /**
   The claim that the arrival list only holds events with a matching active slot survives a
   cancellation exactly when the cancelled subscription was not active or its name still had a
   pending slot. Cancelling a subscription whose event has already been delivered leaves a stale
   event behind, which the next subscription of the name receives.
   */
  lemma CancelKeepsSlots(e: Externals, id: nat)
    requires EveryArrivalHasASlot(e)
    ensures EveryArrivalHasASlot(MarkCancelled(e, id))
            <==> id !in e.subs || id in e.cancelled || HasPendingSlot(e, e.subs[id].0)
  {
    var e' := MarkCancelled(e, id);
    forall n ensures ActiveIds(e', n) == ActiveIds(e, n) - {id} {
    }
    if id in e.subs && id !in e.cancelled {
      var name := e.subs[id].0;
      assert id in ActiveIds(e, name) && |ActiveIds(e', name)| == |ActiveIds(e, name)| - 1;
      assert Arrived(e'.arrivals, name) == Arrived(e.arrivals, name);
      forall n | n != name ensures ActiveIds(e', n) == ActiveIds(e, n) {
      }
      if HasPendingSlot(e, name) {
        forall n ensures |Arrived(e'.arrivals, n)| <= |ActiveIds(e', n)| {
          assert n != name ==> ActiveIds(e', n) == ActiveIds(e, n);
          assert |Arrived(e.arrivals, n)| <= |ActiveIds(e, n)|;
        }
      }
    } else {
      forall n ensures ActiveIds(e', n) == ActiveIds(e, n) {
      }
    }
  }

  /**
   The stale event in general: if every arrival of the name was taken by an active slot and one of
   the active subscriptions is cancelled, a subscription bound next receives the newest arrival.
   */
  lemma StaleEventReachesTheNextSubscription(e: Externals, b: Board, id: nat, later: nat)
    requires Linked(e, b) && id in e.subs && id !in e.cancelled && later !in e.subs && later !in e.cancelled
    requires var name := e.subs[id].0;
             0 < |Arrived(e.arrivals, name)| == |ActiveIds(e, name)|
    ensures var name := e.subs[id].0;
            var arrived := Arrived(e.arrivals, name);
            GetEvent(BindSub(MarkCancelled(e, id), later, name), later) == Some(arrived[|arrived| - 1])
  {
    var name := e.subs[id].0;
    var e1, b1 := MarkCancelled(e, id), BoardRuns.Apply(b, BoardRuns.Cancel(id));
    CancelKeepsLink(e, b, id);
    UnboundIsFresh(e, b, later);
    BindKeepsLink(e1, b1, later, name);
    var e2, b2 := BindSub(e1, later, name), BoardRuns.Apply(b1, BoardRuns.Bind(later, name));
    ActiveIdsAreTheList(e, b, name);
    ActiveIdsAreTheList(e1, b1, name);
    assert ActiveIds(e1, name) == ActiveIds(e, name) - {id} && id in ActiveIds(e, name);
    assert b2.log[..|b2.log| - 1] == b1.log;
    GetMatchesBoard(e2, b2, later);
  }

  // ---------------------------------------------------------------- whole runs

  function Step(e: Externals, s: BoardRuns.Step): Externals {
    match s
    case Bind(id, name) => BindSub(e, id, name)
    case Deliver(name, data) => DeliverEvent(e, name, data)
    case Cancel(id) => MarkCancelled(e, id)
    case Poll(_) => e
  }

  function Run(h: seq<BoardRuns.Step>): Externals {
    if h == [] then NO_EXTERNALS else Step(Run(h[..|h| - 1]), h[|h| - 1])
  }

  /**
   After every history with fresh schedule ids the maps answer every subscription as the
   reference board does, so the theorems about runs of the board are theorems about these maps.
   */
  lemma {:induction false} RunMatchesBoard(h: seq<BoardRuns.Step>)
    requires BoardRuns.Fresh(h)
    ensures Linked(Run(h), BoardRuns.Run(h))
    ensures forall id :: GetEvent(Run(h), id) == Get(BoardRuns.Run(h), id)
  {
    if h == [] {
      EmptyIsLinked();
    } else {
      var g, s := h[..|h| - 1], h[|h| - 1];
      RunMatchesBoard(g);
      match s {
        case Bind(id, name) => BindKeepsLink(Run(g), BoardRuns.Run(g), id, name);
        case Deliver(name, data) => DeliverKeepsLink(Run(g), BoardRuns.Run(g), name, data);
        case Cancel(id) => CancelKeepsLink(Run(g), BoardRuns.Run(g), id);
        case Poll(_) =>
      }
    }
    forall id ensures GetEvent(Run(h), id) == Get(BoardRuns.Run(h), id) {
      GetMatchesBoard(Run(h), BoardRuns.Run(h), id);
    }
  }
}
