/**
 The key-value calls of one orchestration turn and of its replays. A replay makes the same calls
 over the same snapshot, but reads the wall clock again for every key it sets, and its map yields
 the keys to prune in an order of its own. The replay engine compares what is emitted with the
 recorded events, timestamps aside.
 */
module KvTurns {
  import opened Common
  import opened KvStore

  datatype Call =
    | SetKey(key: string, value: string)
    | ClearKey(key: string)
    | ClearAll
    | Prune(updatedBefore: nat)

  /** The clock reading at each call, and the order in which each prune lists the keys it clears. */
  datatype Turn = Turn(clock: seq<nat>, orders: seq<seq<string>>)

  predicate Fits(calls: seq<Call>, t: Turn) {
    |t.clock| == |calls| && |t.orders| == |calls|
  }

  function Clears(order: seq<string>): (events: seq<KvEvent>)
    ensures |events| == |order|
  {
    seq(|order|, i requires 0 <= i < |order| => KeyValueCleared(order[i]))
  }

  /** The events of one call. */
  function Emits(call: Call, reading: nat, order: seq<string>): seq<KvEvent> {
    match call
    case SetKey(key, value) => [KeyValueSet(key, value, reading)]
    case ClearKey(key) => [KeyValueCleared(key)]
    case ClearAll => [KeyValuesCleared]
    case Prune(_) => Clears(order)
  }

  /** The events of the first n calls. */
  function Emitted(calls: seq<Call>, t: Turn, n: nat): seq<KvEvent>
    requires Fits(calls, t) && n <= |calls|
  {
    if n == 0 then [] else Emitted(calls, t, n - 1) + Emits(calls[n - 1], t.clock[n - 1], t.orders[n - 1])
  }

  function State(seed: map<string, Entry>, calls: seq<Call>, t: Turn, n: nat): map<string, Entry>
    requires Fits(calls, t) && n <= |calls|
  {
    Fold(seed, Emitted(calls, t, n))
  }

  /** The order lists each key of the set once. */
  predicate Lists(order: seq<string>, keys: set<string>) {
    SetOf(order) == keys && NoRepeats(order)
  }

  /** Each of the first n calls that is a prune lists the keys that are older than its bound. */
  ghost predicate PrunesRight(seed: map<string, Entry>, calls: seq<Call>, t: Turn, n: nat)
    requires Fits(calls, t) && n <= |calls|
  {
    forall j :: 0 <= j < n && calls[j].Prune? ==>
      Lists(t.orders[j], Older(State(seed, calls, t, j), calls[j].updatedBefore))
  }

  /** A turn of these calls over the snapshot, with the given clock readings. */
  ghost predicate IsTurn(seed: map<string, Entry>, calls: seq<Call>, clock: seq<nat>, t: Turn) {
    Fits(calls, t) && t.clock == clock && PrunesRight(seed, calls, t, |calls|)
  }

  /** After every call, the replay has emitted what the turn emitted, timestamps aside. */
  ghost predicate Replays(calls: seq<Call>, t: Turn, u: Turn, n: nat)
    requires Fits(calls, t) && Fits(calls, u) && n <= |calls|
  {
    forall m :: 0 <= m <= n ==> Alike(Emitted(calls, t, m), Emitted(calls, u, m))
  }

  // ---------------------------------------------------------------- the state of a turn

  lemma {:induction false} FoldClears(m: map<string, Entry>, order: seq<string>)
    ensures Fold(m, Clears(order)) == m - SetOf(order)
  {
    if order != [] {
      var rest, last := order[..|order| - 1], order[|order| - 1];
      FoldClears(m, rest);
      assert Clears(order)[..|order| - 1] == Clears(rest);
      assert SetOf(order) == SetOf(rest) + {last};
    }
  }

  function NextState(m: map<string, Entry>, call: Call, reading: nat, order: seq<string>): map<string, Entry> {
    match call
    case SetKey(key, value) => m[key := Entry(value, reading)]
    case ClearKey(key) => m - {key}
    case ClearAll => map[]
    case Prune(_) => m - SetOf(order)
  }

  lemma FoldCall(m: map<string, Entry>, call: Call, reading: nat, order: seq<string>)
    ensures Fold(m, Emits(call, reading, order)) == NextState(m, call, reading, order)
  {
    if call.Prune? {
      FoldClears(m, order);
    } else {
      assert Emits(call, reading, order)[..0] == [] && Fold(m, []) == m;
    }
  }

  lemma StateStep(seed: map<string, Entry>, calls: seq<Call>, t: Turn, n: nat)
    requires Fits(calls, t) && n < |calls|
    ensures State(seed, calls, t, n + 1) == NextState(State(seed, calls, t, n), calls[n], t.clock[n], t.orders[n])
  {
    FoldConcat(seed, Emitted(calls, t, n), Emits(calls[n], t.clock[n], t.orders[n]));
    FoldCall(State(seed, calls, t, n), calls[n], t.clock[n], t.orders[n]);
  }

  /** What one call does to a key, if anything. */
  function Touched(call: Call, reading: nat, order: seq<string>, k: string): Option<Option<Entry>> {
    match call
    case SetKey(key, value) => if key == k then Some(Some(Entry(value, reading))) else None
    case ClearKey(key) => if key == k then Some(None) else None
    case ClearAll => Some(None)
    case Prune(_) => if k in order then Some(None) else None
  }

  lemma LookupNext(m: map<string, Entry>, call: Call, reading: nat, order: seq<string>, k: string)
    ensures Lookup(NextState(m, call, reading, order), k)
            == match Touched(call, reading, order, k) case Some(entry) => entry case None => Lookup(m, k)
  {
  }

  lemma LookupStep(seed: map<string, Entry>, calls: seq<Call>, t: Turn, n: nat, k: string)
    requires Fits(calls, t) && n < |calls|
    ensures Lookup(State(seed, calls, t, n + 1), k)
            == match Touched(calls[n], t.clock[n], t.orders[n], k)
               case Some(entry) => entry
               case None => Lookup(State(seed, calls, t, n), k)
  {
    hide State, NextState, Touched, Lookup;
    StateStep(seed, calls, t, n);
    LookupNext(State(seed, calls, t, n), calls[n], t.clock[n], t.orders[n], k);
  }

  /** The call that last set the key, if nothing has cleared the key since. */
  function SetBy(calls: seq<Call>, orders: seq<seq<string>>, n: nat, k: string): (c: Option<nat>)
    requires |orders| == |calls| && n <= |calls|
    ensures c.Some? ==> c.value < n && calls[c.value].SetKey?
  {
    if n == 0 then None
    else
      match calls[n - 1]
      case SetKey(key, _) => if key == k then Some(n - 1) else SetBy(calls, orders, n - 1, k)
      case ClearKey(key) => if key == k then None else SetBy(calls, orders, n - 1, k)
      case ClearAll => None
      case Prune(_) => if k in orders[n - 1] then None else SetBy(calls, orders, n - 1, k)
  }

  lemma SetByStep(calls: seq<Call>, orders: seq<seq<string>>, n: nat, r: nat, s: nat, k: string)
    requires |orders| == |calls| && n < |calls|
    ensures match Touched(calls[n], r, orders[n], k)
            case Some(Some(entry)) =>
              && SetBy(calls, orders, n + 1, k) == Some(n) && entry == Entry(calls[n].value, r)
              && Touched(calls[n], s, orders[n], k) == Some(Some(Entry(calls[n].value, s)))
            case Some(None) =>
              SetBy(calls, orders, n + 1, k) == None && Touched(calls[n], s, orders[n], k) == Some(None)
            case None =>
              SetBy(calls, orders, n + 1, k) == SetBy(calls, orders, n, k) && Touched(calls[n], s, orders[n], k) == None
  {
  }

  /** The first prunes cleared the same keys in the same order. */
  predicate SameOrders(calls: seq<Call>, t: Turn, u: Turn, n: nat)
    requires Fits(calls, t) && Fits(calls, u) && n <= |calls|
  {
    forall j :: 0 <= j < n && calls[j].Prune? ==> t.orders[j] == u.orders[j]
  }

  lemma OrderOfOther(call: Call, reading: nat, a: seq<string>, b: seq<string>, k: string)
    requires call.Prune? ==> a == b
    ensures Touched(call, reading, a, k) == Touched(call, reading, b, k)
  {
  }

  /** Two turns that have pruned alike differ in the timestamps of the keys they have set, and in nothing else. */
  lemma {:induction false} EntriesOf(seed: map<string, Entry>, calls: seq<Call>, t: Turn, u: Turn, n: nat, k: string)
    requires Fits(calls, t) && Fits(calls, u) && n <= |calls| && SameOrders(calls, t, u, n)
    ensures var a, b := Lookup(State(seed, calls, t, n), k), Lookup(State(seed, calls, u, n), k);
            match SetBy(calls, t.orders, n, k)
            case Some(c) => a == Some(Entry(calls[c].value, t.clock[c])) && b == Some(Entry(calls[c].value, u.clock[c]))
            case None => a == b
  {
    if n > 0 {
      hide State, Lookup, SetBy, Touched;
      EntriesOf(seed, calls, t, u, n - 1, k);
      LookupStep(seed, calls, t, n - 1, k);
      LookupStep(seed, calls, u, n - 1, k);
      SetByStep(calls, t.orders, n - 1, t.clock[n - 1], u.clock[n - 1], k);
      OrderOfOther(calls[n - 1], u.clock[n - 1], t.orders[n - 1], u.orders[n - 1], k);
    }
  }

  // ---------------------------------------------------------------- one prune

  /** Every key set in the turn was set at two clock readings on the same side of the bound. */
  ghost predicate SameSide(calls: seq<Call>, t: Turn, clock: seq<nat>, n: nat, bound: nat)
    requires Fits(calls, t) && |clock| == |calls| && n <= |calls|
  {
    forall k :: match SetBy(calls, t.orders, n, k)
                case Some(c) => t.clock[c] < bound <==> clock[c] < bound
                case None => true
  }

  /**
   A prune finds the same keys in the turn and in its replay if and only if the two clock readings
   of every key set before it lie on the same side of its bound.
   */
  lemma SameKeysIff(seed: map<string, Entry>, calls: seq<Call>, t: Turn, u: Turn, n: nat, bound: nat)
    requires Fits(calls, t) && Fits(calls, u) && n <= |calls| && SameOrders(calls, t, u, n)
    ensures Older(State(seed, calls, t, n), bound) == Older(State(seed, calls, u, n), bound)
            <==> SameSide(calls, t, u.clock, n, bound)
  {
    var a, b := State(seed, calls, t, n), State(seed, calls, u, n);
    hide State;
    forall k
      ensures (k in Older(a, bound) <==> k in Older(b, bound))
              <==> match SetBy(calls, t.orders, n, k)
                   case Some(c) => t.clock[c] < bound <==> u.clock[c] < bound
                   case None => true
    {
      EntriesOf(seed, calls, t, u, n, k);
    }
  }

  // ---------------------------------------------------------------- replays of a whole turn

  lemma ClearsAlike(a: seq<string>, b: seq<string>)
    ensures Alike(Clears(a), Clears(b)) <==> a == b
  {
    if Alike(Clears(a), Clears(b)) {
      forall i | 0 <= i < |a| ensures a[i] == b[i] {
        assert Matches(Clears(a)[i], Clears(b)[i]);
      }
    }
  }

  lemma AlikeAppend(a: seq<KvEvent>, x: seq<KvEvent>, b: seq<KvEvent>, y: seq<KvEvent>)
    requires Alike(a, b)
    ensures Alike(a + x, b + y) <==> Alike(x, y)
  {
    if Alike(a + x, b + y) {
      forall i | 0 <= i < |x| ensures Matches(x[i], y[i]) {
        assert Matches((a + x)[|a| + i], (b + y)[|a| + i]);
      }
    }
  }

  /** A replay emits what the turn emitted exactly when it prunes the same keys in the same order. */
  lemma {:induction false} ReplaysIffSameOrders(calls: seq<Call>, t: Turn, u: Turn, n: nat)
    requires Fits(calls, t) && Fits(calls, u) && n <= |calls|
    ensures Replays(calls, t, u, n) <==> SameOrders(calls, t, u, n)
  {
    if n > 0 {
      ReplaysIffSameOrders(calls, t, u, n - 1);
      if Replays(calls, t, u, n - 1) {
        var x := Emits(calls[n - 1], t.clock[n - 1], t.orders[n - 1]);
        var y := Emits(calls[n - 1], u.clock[n - 1], u.orders[n - 1]);
        AlikeAppend(Emitted(calls, t, n - 1), x, Emitted(calls, u, n - 1), y);
        ClearsAlike(t.orders[n - 1], u.orders[n - 1]);
        assert Alike(Emitted(calls, t, n), Emitted(calls, u, n)) <==> Alike(x, y);
      }
    }
  }

  /** The orders of later prunes do not show in what was emitted before. */
  lemma {:induction false} EmittedByOrders(calls: seq<Call>, t: Turn, u: Turn, n: nat)
    requires Fits(calls, t) && Fits(calls, u) && n <= |calls| && SameOrders(calls, t, u, n) && t.clock == u.clock
    ensures Emitted(calls, t, n) == Emitted(calls, u, n)
  {
    if n > 0 {
      EmittedByOrders(calls, t, u, n - 1);
    }
  }

  lemma StatesByOrders(seed: map<string, Entry>, calls: seq<Call>, t: Turn, u: Turn, n: nat)
    requires Fits(calls, t) && Fits(calls, u) && n <= |calls| && SameOrders(calls, t, u, n) && t.clock == u.clock
    ensures PrunesRight(seed, calls, t, n) <==> PrunesRight(seed, calls, u, n)
    ensures State(seed, calls, t, n) == State(seed, calls, u, n)
  {
    forall j | 0 <= j <= n ensures Emitted(calls, t, j) == Emitted(calls, u, j) {
      EmittedByOrders(calls, t, u, j);
    }
  }

  ghost function AnyOrder(keys: set<string>): seq<string>
    decreases |keys|
  {
    if keys == {} then []
    else
      var k :| k in keys;
      AnyOrder(keys - {k}) + [k]
  }

  lemma {:induction false} AnyOrderLists(keys: set<string>)
    ensures Lists(AnyOrder(keys), keys)
    decreases |keys|
  {
    if keys != {} {
      var k :| k in keys && AnyOrder(keys) == AnyOrder(keys - {k}) + [k];
      AnyOrderLists(keys - {k});
      assert k !in SetOf(AnyOrder(keys - {k}));
      assert SetOf(AnyOrder(keys)) == SetOf(AnyOrder(keys - {k})) + {k};
    }
  }

  /** A turn that is right so far can be continued: some order is there for every later prune. */
  lemma {:induction false} Continue(seed: map<string, Entry>, calls: seq<Call>, t: Turn, n: nat) returns (u: Turn)
    requires Fits(calls, t) && n <= |calls| && PrunesRight(seed, calls, t, n)
    ensures IsTurn(seed, calls, t.clock, u) && SameOrders(calls, t, u, n)
    decreases |calls| - n
  {
    if n == |calls| {
      u := t;
    } else {
      var next := t;
      if calls[n].Prune? {
        var keys := Older(State(seed, calls, t, n), calls[n].updatedBefore);
        AnyOrderLists(keys);
        next := Turn(t.clock, t.orders[n := AnyOrder(keys)]);
        StatesByOrders(seed, calls, t, next, n);
      }
      u := Continue(seed, calls, next, n + 1);
    }
  }

  /** Up to call n, each prune finds the same keys in the turn and at the other clock readings. */
  ghost predicate SameSides(calls: seq<Call>, t: Turn, clock: seq<nat>, n: nat)
    requires Fits(calls, t) && |clock| == |calls| && n <= |calls|
  {
    forall j :: 0 <= j < n && calls[j].Prune? ==> SameSide(calls, t, clock, j, calls[j].updatedBefore)
  }

  /** With its prunes in the recorded order, a replay is right as long as the readings stay on their sides. */
  lemma {:induction false} RecordedOrdersServe(
    seed: map<string, Entry>, calls: seq<Call>, t: Turn, clock: seq<nat>, n: nat)
    requires Fits(calls, t) && |clock| == |calls| && n <= |calls|
    requires PrunesRight(seed, calls, t, n) && SameSides(calls, t, clock, n)
    ensures PrunesRight(seed, calls, Turn(clock, t.orders), n)
  {
    var u := Turn(clock, t.orders);
    forall j | 0 <= j < n && calls[j].Prune?
      ensures Lists(u.orders[j], Older(State(seed, calls, u, j), calls[j].updatedBefore))
    {
      SameKeysIff(seed, calls, t, u, j, calls[j].updatedBefore);
    }
  }

  /** Some replay at the clock readings emits what the turn emitted. */
  ghost predicate CanBeReplayed(seed: map<string, Entry>, calls: seq<Call>, t: Turn, clock: seq<nat>)
    requires Fits(calls, t)
  {
    exists u :: IsTurn(seed, calls, clock, u) && Replays(calls, t, u, |calls|)
  }

  lemma MatchingReplayNeeds(seed: map<string, Entry>, calls: seq<Call>, t: Turn, clock: seq<nat>)
    requires IsTurn(seed, calls, t.clock, t) && |clock| == |calls| && CanBeReplayed(seed, calls, t, clock)
    ensures SameSides(calls, t, clock, |calls|)
  {
    var n := |calls|;
    var u :| IsTurn(seed, calls, clock, u) && Replays(calls, t, u, n);
    ReplaysIffSameOrders(calls, t, u, n);
    forall j | 0 <= j < n && calls[j].Prune? ensures SameSide(calls, t, clock, j, calls[j].updatedBefore) {
      SameKeysIff(seed, calls, t, u, j, calls[j].updatedBefore);
    }
  }

  /**
   A turn can be replayed at other clock readings, given the right order of its prunes, if and only
   if for every prune the readings of the keys set before it stay on the same side of its bound.
   */
  lemma ReplayCanMatchIff(seed: map<string, Entry>, calls: seq<Call>, t: Turn, clock: seq<nat>)
    requires IsTurn(seed, calls, t.clock, t) && |clock| == |calls|
    ensures CanBeReplayed(seed, calls, t, clock) <==> SameSides(calls, t, clock, |calls|)
  {
    if SameSides(calls, t, clock, |calls|) {
      var u := Turn(clock, t.orders);
      RecordedOrdersServe(seed, calls, t, clock, |calls|);
      ReplaysIffSameOrders(calls, t, u, |calls|);
    }
    hide IsTurn, SameSides, CanBeReplayed;
    if CanBeReplayed(seed, calls, t, clock) {
      MatchingReplayNeeds(seed, calls, t, clock);
    }
  }

  // ---------------------------------------------------------------- whatever the order

  lemma SwapLists(order: seq<string>, keys: set<string>)
    requires |order| >= 2 && Lists(order, keys)
    ensures var swapped := [order[1], order[0]] + order[2..]; Lists(swapped, keys) && swapped != order
  {
    var swapped := [order[1], order[0]] + order[2..];
    assert order == [order[0], order[1]] + order[2..];
    assert swapped[0] != order[0];
  }

  lemma OnlyOrder(a: seq<string>, b: seq<string>, keys: set<string>)
    requires Lists(a, keys) && Lists(b, keys) && |a| <= 1
    ensures a == b
  {
    NoRepeatsCard(a);
    NoRepeatsCard(b);
    if a != [] {
      assert a[0] in SetOf(b);
    }
  }

  /** Every prune among the first n calls clears at most one key. */
  predicate PrunesOne(calls: seq<Call>, t: Turn, n: nat)
    requires Fits(calls, t) && n <= |calls|
  {
    forall j :: 0 <= j < n && calls[j].Prune? ==> |t.orders[j]| <= 1
  }

  lemma OneOrderAt(seed: map<string, Entry>, calls: seq<Call>, t: Turn, u: Turn, n: nat, bound: nat)
    requires Fits(calls, t) && Fits(calls, u) && n < |calls| && SameOrders(calls, t, u, n)
    requires Lists(t.orders[n], Older(State(seed, calls, t, n), bound)) && |t.orders[n]| <= 1
    requires Lists(u.orders[n], Older(State(seed, calls, u, n), bound)) && SameSide(calls, t, u.clock, n, bound)
    ensures t.orders[n] == u.orders[n]
  {
    hide State, SameSide, Older, Lists;
    SameKeysIff(seed, calls, t, u, n, bound);
    OnlyOrder(t.orders[n], u.orders[n], Older(State(seed, calls, t, n), bound));
  }

  lemma LastPrune(seed: map<string, Entry>, calls: seq<Call>, t: Turn, n: nat)
    requires Fits(calls, t) && n < |calls| && PrunesRight(seed, calls, t, n + 1)
    ensures PrunesRight(seed, calls, t, n)
    ensures calls[n].Prune? ==> Lists(t.orders[n], Older(State(seed, calls, t, n), calls[n].updatedBefore))
  {
  }

  lemma OneMoreOrder(calls: seq<Call>, t: Turn, u: Turn, n: nat)
    requires Fits(calls, t) && Fits(calls, u) && n < |calls| && SameOrders(calls, t, u, n)
    requires calls[n].Prune? ==> t.orders[n] == u.orders[n]
    ensures SameOrders(calls, t, u, n + 1)
  {
  }

  lemma LastSides(calls: seq<Call>, t: Turn, clock: seq<nat>, n: nat)
    requires Fits(calls, t) && |clock| == |calls| && n < |calls|
    requires SameSides(calls, t, clock, n + 1) && PrunesOne(calls, t, n + 1)
    ensures SameSides(calls, t, clock, n) && PrunesOne(calls, t, n)
    ensures calls[n].Prune? ==> SameSide(calls, t, clock, n, calls[n].updatedBefore) && |t.orders[n]| <= 1
  {
  }

  lemma {:induction false} OneOrderIsShared(
    seed: map<string, Entry>, calls: seq<Call>, t: Turn, u: Turn, n: nat)
    requires Fits(calls, t) && Fits(calls, u) && n <= |calls|
    requires PrunesRight(seed, calls, t, n) && PrunesRight(seed, calls, u, n)
    requires SameSides(calls, t, u.clock, n) && PrunesOne(calls, t, n)
    ensures SameOrders(calls, t, u, n)
  {
    if n > 0 {
      hide State, SameSide, SameSides, PrunesRight, PrunesOne, Older, Lists;
      LastPrune(seed, calls, t, n - 1);
      LastPrune(seed, calls, u, n - 1);
      LastSides(calls, t, u.clock, n - 1);
      hide SameOrders;
      OneOrderIsShared(seed, calls, t, u, n - 1);
      if calls[n - 1].Prune? {
        OneOrderAt(seed, calls, t, u, n - 1, calls[n - 1].updatedBefore);
      }
      OneMoreOrder(calls, t, u, n - 1);
    }
  }

  /** A prune whose keys changed sides, or that cleared two keys, has a replay that goes another way. */
  lemma SomeReplayDiffers(seed: map<string, Entry>, calls: seq<Call>, t: Turn, clock: seq<nat>, n: nat)
    returns (u: Turn)
    requires IsTurn(seed, calls, t.clock, t) && |clock| == |calls| && n < |calls| && calls[n].Prune?
    requires SameSides(calls, t, clock, n)
    requires !SameSide(calls, t, clock, n, calls[n].updatedBefore) || |t.orders[n]| > 1
    ensures IsTurn(seed, calls, clock, u) && !SameOrders(calls, t, u, |calls|)
  {
    var bound := calls[n].updatedBefore;
    var v := Turn(clock, t.orders);
    RecordedOrdersServe(seed, calls, t, clock, n);
    SameKeysIff(seed, calls, t, v, n, bound);
    var keys := Older(State(seed, calls, v, n), bound);
    var order := AnyOrder(keys);
    AnyOrderLists(keys);
    if SameSide(calls, t, clock, n, bound) {
      SwapLists(t.orders[n], keys);
      order := [t.orders[n][1], t.orders[n][0]] + t.orders[n][2..];
    }
    assert Lists(order, keys) && order != t.orders[n];
    var w := Turn(clock, t.orders[n := order]);
    StatesByOrders(seed, calls, v, w, n);
    u := Continue(seed, calls, w, n + 1);
    assert w.orders[n] == u.orders[n];
  }

  /** Every replay at the clock readings emits what the turn emitted. */
  ghost predicate AlwaysReplayed(seed: map<string, Entry>, calls: seq<Call>, t: Turn, clock: seq<nat>)
    requires Fits(calls, t)
  {
    forall u :: IsTurn(seed, calls, clock, u) ==> Replays(calls, t, u, |calls|)
  }

  /** The first prune whose keys change sides, or that clears two keys. */
  lemma {:induction false} FirstUnsafePrune(calls: seq<Call>, t: Turn, clock: seq<nat>, n: nat) returns (j: nat)
    requires Fits(calls, t) && |clock| == |calls| && n <= |calls|
    requires !SameSides(calls, t, clock, n) || !PrunesOne(calls, t, n)
    ensures j < n && calls[j].Prune? && SameSides(calls, t, clock, j)
    ensures !SameSide(calls, t, clock, j, calls[j].updatedBefore) || |t.orders[j]| > 1
  {
    hide SameSide;
    if SameSides(calls, t, clock, n - 1) && PrunesOne(calls, t, n - 1) {
      j := n - 1;
    } else {
      j := FirstUnsafePrune(calls, t, clock, n - 1);
    }
  }

  /**
   Every replay of a turn at the given clock readings emits what the turn emitted if and only if,
   for every prune of the turn, the readings of the keys set before it stay on the same side of its
   bound and it clears at most one key. No turn that prunes two keys at once is sure to be replayed.
   */
  lemma ReplayAlwaysMatchesIff(seed: map<string, Entry>, calls: seq<Call>, t: Turn, clock: seq<nat>)
    requires IsTurn(seed, calls, t.clock, t) && |clock| == |calls|
    ensures AlwaysReplayed(seed, calls, t, clock)
            <==> SameSides(calls, t, clock, |calls|) && PrunesOne(calls, t, |calls|)
  {
    var n := |calls|;
    if SameSides(calls, t, clock, n) && PrunesOne(calls, t, n) {
      forall u | IsTurn(seed, calls, clock, u) ensures Replays(calls, t, u, n) {
        OneOrderIsShared(seed, calls, t, u, n);
        ReplaysIffSameOrders(calls, t, u, n);
      }
    } else {
      var j := FirstUnsafePrune(calls, t, clock, n);
      var u := SomeReplayDiffers(seed, calls, t, clock, j);
      ReplaysIffSameOrders(calls, t, u, n);
    }
  }

  // ---------------------------------------------------------------- two turns that cannot be replayed

  const SET_AND_PRUNE := [SetKey("k", "v"), Prune(10)]
  const PRUNED_EARLY := Turn([5, 5], [[], ["k"]])

  lemma PrunedEarly()
    ensures IsTurn(map[], SET_AND_PRUNE, [5, 5], PRUNED_EARLY)
    ensures SetBy(SET_AND_PRUNE, PRUNED_EARLY.orders, 1, "k") == Some(0)
  {
    assert State(map[], SET_AND_PRUNE, PRUNED_EARLY, 0) == map[];
    StateStep(map[], SET_AND_PRUNE, PRUNED_EARLY, 0);
    hide State, Fold, Emitted;
    var m := State(map[], SET_AND_PRUNE, PRUNED_EARLY, 1);
    assert m == map["k" := Entry("v", 5)];
    assert Older(m, 10) == {"k"} == SetOf(["k"]);
  }

  /** A key set at 5 and pruned with the bound 10 is not pruned when the turn is replayed at 15. */
  lemma LaterClockCannotReplay()
    ensures IsTurn(map[], SET_AND_PRUNE, [5, 5], PRUNED_EARLY)
    ensures !CanBeReplayed(map[], SET_AND_PRUNE, PRUNED_EARLY, [15, 15])
  {
    hide State, Replays, SetBy;
    PrunedEarly();
    ReplayCanMatchIff(map[], SET_AND_PRUNE, PRUNED_EARLY, [15, 15]);
    assert SET_AND_PRUNE[1] == Prune(10);
    assert !SameSide(SET_AND_PRUNE, PRUNED_EARLY, [15, 15], 1, 10);
  }

  const TWO_OLD_KEYS := map["a" := Entry("v", 1), "b" := Entry("v", 2)]

  /** Two keys pruned at once: another map order is a replay that emits something else, at any clock. */
  lemma OtherOrderIsNoReplay(clock: nat)
    ensures IsTurn(TWO_OLD_KEYS, [Prune(10)], [5], Turn([5], [["a", "b"]]))
    ensures exists u :: IsTurn(TWO_OLD_KEYS, [Prune(10)], [clock], u)
                        && !Replays([Prune(10)], Turn([5], [["a", "b"]]), u, 1)
  {
    var t := Turn([5], [["a", "b"]]);
    assert State(TWO_OLD_KEYS, [Prune(10)], t, 0) == TWO_OLD_KEYS;
    assert Older(TWO_OLD_KEYS, 10) == {"a", "b"} == SetOf(["a", "b"]);
    assert "a"[0] != "b"[0];
    ReplayAlwaysMatchesIff(TWO_OLD_KEYS, [Prune(10)], t, [clock]);
    assert !PrunesOne([Prune(10)], t, 1);
  }
}
