/**
 The plain reference picture behind both kinds of external events: a log of subscriptions in
 bind order, a set of cancelled schedule ids, and the arrivals of each event name in order.
 The active subscriptions of a name form a list; the k-th of them receives the k-th arrival.
 */
module SubscriptionLog {
  import opened Common

  datatype Sub = Sub(id: nat, name: string)

  datatype Board = Board(log: seq<Sub>, cancelled: set<nat>, arrivals: map<string, seq<string>>)

  const EMPTY_BOARD := Board([], {}, map[])

  predicate Bound(log: seq<Sub>, id: nat) {
    exists i :: 0 <= i < |log| && log[i].id == id
  }

  predicate Distinct(log: seq<Sub>) {
    forall i, j :: 0 <= i < j < |log| ==> log[i].id != log[j].id
  }

  /** How many entries of the log subscribe to name and are not cancelled. */
  function ActiveCount(log: seq<Sub>, cancelled: set<nat>, name: string): nat {
    if log == [] then 0
    else
      ActiveCount(log[..|log| - 1], cancelled, name)
      + (if log[|log| - 1].name == name && log[|log| - 1].id !in cancelled then 1 else 0)
  }

  /** The active subscriptions of name, oldest first. */
  function ActiveList(log: seq<Sub>, cancelled: set<nat>, name: string): (ids: seq<nat>)
    ensures |ids| == ActiveCount(log, cancelled, name)
  {
    if log == [] then []
    else
      ActiveList(log[..|log| - 1], cancelled, name)
      + (if log[|log| - 1].name == name && log[|log| - 1].id !in cancelled then [log[|log| - 1].id] else [])
  }

  function Arrived(arrivals: map<string, seq<string>>, name: string): seq<string> {
    if name in arrivals then arrivals[name] else []
  }

  /** The name a schedule id is subscribed to. */
  function NameOf(log: seq<Sub>, id: nat): Option<string> {
    if log == [] then None
    else if log[|log| - 1].id == id then Some(log[|log| - 1].name)
    else NameOf(log[..|log| - 1], id)
  }

  /** The arrival slot of an active subscription: the number of active ones before it. */
  function SlotOf(log: seq<Sub>, cancelled: set<nat>, id: nat): Option<nat> {
    if log == [] then None
    else if log[|log| - 1].id == id then
      if id in cancelled then None else Some(ActiveCount(log[..|log| - 1], cancelled, log[|log| - 1].name))
    else SlotOf(log[..|log| - 1], cancelled, id)
  }

  /** The payload a subscription is entitled to, if it has arrived. */
  function Get(b: Board, id: nat): Option<string> {
    var slot := SlotOf(b.log, b.cancelled, id);
    var name := NameOf(b.log, id);
    if slot.Some? && name.Some? && slot.value < |Arrived(b.arrivals, name.value)|
    then Some(Arrived(b.arrivals, name.value)[slot.value])
    else None
  }

  // ---------------------------------------------------------------- basic facts

  lemma {:induction false} ActiveCountPrefix(log: seq<Sub>, k: nat, cancelled: set<nat>, name: string)
    requires k <= |log|
    ensures ActiveCount(log[..k], cancelled, name) <= ActiveCount(log, cancelled, name)
    ensures k < |log| && log[k].name == name && log[k].id !in cancelled
            ==> ActiveCount(log[..k], cancelled, name) < ActiveCount(log, cancelled, name)
  {
    if k < |log| {
      var rest := log[..|log| - 1];
      assert rest[..k] == log[..k];
      ActiveCountPrefix(rest, k, cancelled, name);
    } else {
      assert log[..k] == log;
    }
  }

  /** Both lookups are determined by the position of the id in the log. */
  lemma {:induction false} LookupAt(log: seq<Sub>, cancelled: set<nat>, k: nat)
    requires Distinct(log) && k < |log|
    ensures NameOf(log, log[k].id) == Some(log[k].name)
    ensures SlotOf(log, cancelled, log[k].id)
         == if log[k].id in cancelled then None else Some(ActiveCount(log[..k], cancelled, log[k].name))
  {
    if k < |log| - 1 {
      var rest := log[..|log| - 1];
      assert rest[..k] == log[..k];
      LookupAt(rest, cancelled, k);
    }
  }

  lemma {:induction false} LookupNone(log: seq<Sub>, cancelled: set<nat>, id: nat)
    requires !Bound(log, id)
    ensures NameOf(log, id) == None && SlotOf(log, cancelled, id) == None
  {
    if log != [] {
      var rest := log[..|log| - 1];
      assert log[|log| - 1].id != id;
      forall i | 0 <= i < |rest| ensures rest[i].id != id { assert log[i].id != id; }
      LookupNone(rest, cancelled, id);
    }
  }

  lemma {:induction false} SlotIsBound(log: seq<Sub>, cancelled: set<nat>, id: nat) returns (k: nat)
    requires NameOf(log, id).Some?
    ensures k < |log| && log[k].id == id && NameOf(log, id) == Some(log[k].name)
  {
    if log[|log| - 1].id == id {
      k := |log| - 1;
    } else {
      k := SlotIsBound(log[..|log| - 1], cancelled, id);
    }
  }

  // ---------------------------------------------------------------- slots are positions in the active list

  /**
   The slot of an active subscription is its position in the active list of its name, and every
   position of that list is the slot of the subscription standing there: slots run through
   0 .. active-1 without a gap or a repetition.
   */
  lemma {:induction false} SlotIsActivePosition(log: seq<Sub>, cancelled: set<nat>, name: string)
    requires Distinct(log)
    ensures forall k :: 0 <= k < |ActiveList(log, cancelled, name)| ==>
              NameOf(log, ActiveList(log, cancelled, name)[k]) == Some(name)
              && SlotOf(log, cancelled, ActiveList(log, cancelled, name)[k]) == Some(k)
    ensures forall id :: NameOf(log, id) == Some(name) && SlotOf(log, cancelled, id).Some? ==>
              SlotOf(log, cancelled, id).value < |ActiveList(log, cancelled, name)|
              && ActiveList(log, cancelled, name)[SlotOf(log, cancelled, id).value] == id
  {
    if log != [] {
      var rest, last := log[..|log| - 1], log[|log| - 1];
      SlotIsActivePosition(rest, cancelled, name);
      var before := ActiveList(rest, cancelled, name);
      assert !Bound(rest, last.id) by {
        forall i | 0 <= i < |rest| ensures rest[i].id != last.id { assert log[i] == rest[i]; }
      }
      LookupNone(rest, cancelled, last.id);
      assert forall k :: 0 <= k < |before| ==> before[k] != last.id;
    }
  }

  /** Two active subscriptions of a name have slots ordered as they were bound. */
  lemma SlotsFollowBindOrder(log: seq<Sub>, cancelled: set<nat>, i: nat, j: nat)
    requires Distinct(log) && i < j < |log| && log[i].name == log[j].name
    requires log[i].id !in cancelled && log[j].id !in cancelled
    ensures SlotOf(log, cancelled, log[i].id).Some? && SlotOf(log, cancelled, log[j].id).Some?
    ensures SlotOf(log, cancelled, log[i].id).value < SlotOf(log, cancelled, log[j].id).value
  {
    LookupAt(log, cancelled, i);
    LookupAt(log, cancelled, j);
    assert log[..j][..i] == log[..i];
    ActiveCountPrefix(log[..j], i, cancelled, log[i].name);
  }

  /**
   What a subscription receives, read off the two lists: the payload v is handed to id exactly
   when some position k holds id in the active list and v in the arrival list.
   */
  lemma ReceivesByPosition(b: Board, id: nat, v: string)
    requires Distinct(b.log)
    ensures Get(b, id) == Some(v) <==>
            exists name: string, k: nat ::
              k < |ActiveList(b.log, b.cancelled, name)| && k < |Arrived(b.arrivals, name)|
              && ActiveList(b.log, b.cancelled, name)[k] == id && Arrived(b.arrivals, name)[k] == v
  {
    if Get(b, id) == Some(v) {
      var name, k := NameOf(b.log, id).value, SlotOf(b.log, b.cancelled, id).value;
      SlotIsActivePosition(b.log, b.cancelled, name);
      assert ActiveList(b.log, b.cancelled, name)[k] == id;
    }
    if name: string, k: nat :|
      k < |ActiveList(b.log, b.cancelled, name)| && k < |Arrived(b.arrivals, name)|
      && ActiveList(b.log, b.cancelled, name)[k] == id && Arrived(b.arrivals, name)[k] == v
    {
      SlotIsActivePosition(b.log, b.cancelled, name);
    }
  }

  // ---------------------------------------------------------------- cancelling

  lemma {:induction false} CancelCount(log: seq<Sub>, cancelled: set<nat>, c: nat, name: string)
    requires Distinct(log)
    ensures ActiveCount(log, cancelled + {c}, name)
         == ActiveCount(log, cancelled, name)
            - (if c !in cancelled && Bound(log, c) && NameOf(log, c) == Some(name) then 1 else 0)
  {
    if log != [] {
      var rest, last := log[..|log| - 1], log[|log| - 1];
      CancelCount(rest, cancelled, c, name);
      if last.id == c {
        forall i | 0 <= i < |rest| ensures rest[i].id != c { assert log[i].id != log[|log| - 1].id; }
        assert !Bound(rest, c);
        assert Bound(log, c);
      } else {
        assert Bound(log, c) <==> Bound(rest, c) by {
          if Bound(rest, c) { var i :| 0 <= i < |rest| && rest[i].id == c; assert log[i].id == c; }
          if Bound(log, c) { var i :| 0 <= i < |log| && log[i].id == c; assert rest[i].id == c; }
        }
      }
    }
  }

  /**
   The cancellation guard a caller can check: c is already cancelled, or was never bound, or
   neither c nor any later subscription of the same name has been observed.
   */
  predicate CancelGuard(log: seq<Sub>, cancelled: set<nat>, observed: set<nat>, c: nat) {
    c in cancelled
    || forall i :: 0 <= i < |log| && log[i].id == c ==>
         forall j :: i <= j < |log| && log[j].name == log[i].name ==> log[j].id !in observed
  }

  /**
   Cancelling moves nobody who has already been observed to another slot exactly when the guard
   holds. Observed subscriptions are active ones.
   */
  lemma CancelKeepsObservedSlots(log: seq<Sub>, cancelled: set<nat>, observed: set<nat>, c: nat)
    requires Distinct(log)
    requires forall id :: id in observed ==> Bound(log, id) && id !in cancelled
    ensures CancelGuard(log, cancelled, observed, c) <==>
            forall id :: id in observed ==> SlotOf(log, cancelled + {c}, id) == SlotOf(log, cancelled, id)
  {
    forall j | 0 <= j < |log| && log[j].id in observed
      ensures SlotOf(log, cancelled + {c}, log[j].id) == SlotOf(log, cancelled, log[j].id)
              <==> (c in cancelled || forall i :: 0 <= i <= j && log[i].id == c ==> log[i].name != log[j].name)
    {
      SlotAfterCancel(log, cancelled, c, j);
    }
  }

  lemma SlotAfterCancel(log: seq<Sub>, cancelled: set<nat>, c: nat, j: nat)
    requires Distinct(log) && j < |log| && log[j].id !in cancelled
    ensures SlotOf(log, cancelled + {c}, log[j].id) == SlotOf(log, cancelled, log[j].id)
            <==> (c in cancelled || forall i :: 0 <= i <= j && log[i].id == c ==> log[i].name != log[j].name)
  {
    LookupAt(log, cancelled, j);
    LookupAt(log, cancelled + {c}, j);
    var before := log[..j];
    CancelCount(before, cancelled, c, log[j].name);
    if Bound(before, c) {
      var i :| 0 <= i < |before| && before[i].id == c;
      LookupAt(before, cancelled, i);
      assert log[i].id == c;
    } else {
      forall i | 0 <= i < j ensures log[i].id != c { assert before[i].id != c; }
    }
  }
}
