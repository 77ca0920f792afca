/**
 Runs over the reference board. A step binds a fresh schedule id, delivers a payload, cancels a
 subscription or polls one; the polls that return a payload are the observations of the run.
 */
module BoardRuns {
  import opened Common
  import opened SubscriptionLog

  datatype Step =
    | Bind(id: nat, name: string)
    | Deliver(name: string, data: string)
    | Cancel(id: nat)
    | Poll(id: nat)

  /** A poll of id that returned data from the given slot of the arrivals of name. */
  datatype Obs = Obs(id: nat, name: string, slot: nat, data: string)

  function Apply(b: Board, s: Step): Board {
    match s
    case Bind(id, name) => b.(log := b.log + [Sub(id, name)])
    case Deliver(name, data) => b.(arrivals := b.arrivals[name := Arrived(b.arrivals, name) + [data]])
    case Cancel(id) => b.(cancelled := b.cancelled + {id})
    case Poll(_) => b
  }

  function Run(h: seq<Step>): Board {
    if h == [] then EMPTY_BOARD else Apply(Run(h[..|h| - 1]), h[|h| - 1])
  }

  function Observe(b: Board, id: nat): seq<Obs> {
    if Get(b, id).Some?
    then [Obs(id, NameOf(b.log, id).value, SlotOf(b.log, b.cancelled, id).value, Get(b, id).value)]
    else []
  }

  /** The observations of a run in which a poll may be repeated (positional events). */
  function Observations(h: seq<Step>): seq<Obs> {
    if h == [] then []
    else Observations(h[..|h| - 1])
         + (if h[|h| - 1].Poll? then Observe(Run(h[..|h| - 1]), h[|h| - 1].id) else [])
  }

  function Ids(obs: seq<Obs>): set<nat> {
    set o | o in obs :: o.id
  }

  /** Schedule ids are event ids: each is bound at most once. */
  predicate FreshStep(b: Board, s: Step) {
    s.Bind? ==> !Bound(b.log, s.id)
  }

  predicate Fresh(h: seq<Step>) {
    h == [] || (Fresh(h[..|h| - 1]) && FreshStep(Run(h[..|h| - 1]), h[|h| - 1]))
  }

  /** Cancellations respect the guard with respect to what has been observed so far. */
  predicate Guarded(h: seq<Step>) {
    h == []
    || (Guarded(h[..|h| - 1])
        && (h[|h| - 1].Cancel? ==>
              var b := Run(h[..|h| - 1]);
              CancelGuard(b.log, b.cancelled, Ids(Observations(h[..|h| - 1])), h[|h| - 1].id)))
  }

  lemma {:induction false} FreshIsDistinct(h: seq<Step>)
    requires Fresh(h)
    ensures Distinct(Run(h).log)
  {
    if h != [] {
      var b, s := Run(h[..|h| - 1]), h[|h| - 1];
      FreshIsDistinct(h[..|h| - 1]);
      if s.Bind? {
        forall i | 0 <= i < |b.log| ensures b.log[i].id != s.id { assert !Bound(b.log, s.id); }
      }
    }
  }

  // ---------------------------------------------------------------- observations stay true

  /** o still describes what a poll of its subscription returns. */
  predicate Holds(b: Board, o: Obs) {
    Bound(b.log, o.id) && o.id !in b.cancelled
    && Observe(b, o.id) == [o]
  }

  lemma {:induction false} ObservationsHold(h: seq<Step>)
    requires Fresh(h) && Guarded(h)
    ensures forall o :: o in Observations(h) ==> Holds(Run(h), o)
  {
    if h != [] {
      var g, s := h[..|h| - 1], h[|h| - 1];
      ObservationsHold(g);
      FreshIsDistinct(g);
      FreshIsDistinct(h);
      forall o | o in Observations(h) ensures Holds(Run(h), o) {
        if o in Observations(g) {
          StepKeeps(Run(g), s, o, Observations(g));
        } else {
          assert o in Observe(Run(g), s.id);
          var k := SlotIsBound(Run(g).log, Run(g).cancelled, o.id);
          LookupAt(Run(g).log, Run(g).cancelled, k);
        }
      }
    }
  }

  lemma StepKeeps(b: Board, s: Step, o: Obs, obs: seq<Obs>)
    requires Distinct(b.log) && FreshStep(b, s) && Holds(b, o) && o in obs
    requires forall p :: p in obs ==> Holds(b, p)
    requires s.Cancel? ==> CancelGuard(b.log, b.cancelled, Ids(obs), s.id)
    ensures Holds(Apply(b, s), o)
  {
    match s
    case Bind(id, name) =>
      var i :| 0 <= i < |b.log| && b.log[i].id == o.id;
      var log' := Apply(b, s).log;
      assert log'[i].id == o.id;
      assert log'[..|log'| - 1] == b.log;
    case Deliver(_, _) =>
    case Cancel(c) =>
      assert o.id in Ids(obs);
      CancelKeepsObservedSlots(b.log, b.cancelled, Ids(obs), c);
      assert SlotOf(b.log, b.cancelled + {c}, o.id) == SlotOf(b.log, b.cancelled, o.id);
    case Poll(_) =>
  }

  ghost predicate AllHold(h: seq<Step>) {
    forall o :: o in Observations(h) ==> Holds(Run(h), o)
  }

  /**
   The guard is exact: over a run with fresh ids every observation goes on holding at every later
   point if and only if every cancellation respects the guard.
   */
  lemma {:induction false} ObservationsHoldIffGuarded(h: seq<Step>)
    requires Fresh(h)
    ensures Guarded(h) <==> forall k :: 0 <= k <= |h| ==> AllHold(h[..k])
  {
    hide AllHold, CancelGuard;
    assert h[..|h|] == h;
    if h != [] {
      var g, s := h[..|h| - 1], h[|h| - 1];
      ObservationsHoldIffGuarded(g);
      assert forall k :: 0 <= k <= |g| ==> h[..k] == g[..k];
      if Guarded(h) {
        AllHoldIfGuarded(h);
      } else if Guarded(g) {
        AllHoldIfGuarded(g);
        UnguardedCancelBreaks(h);
      }
    } else {
      AllHoldIfGuarded(h);
    }
  }

  lemma AllHoldIfGuarded(h: seq<Step>)
    requires Fresh(h) && Guarded(h)
    ensures AllHold(h)
  {
    ObservationsHold(h);
  }

  /** The first cancellation against the guard moves a subscription that has been observed. */
  lemma UnguardedCancelBreaks(h: seq<Step>)
    requires Fresh(h) && h != [] && !Guarded(h) && Guarded(h[..|h| - 1]) && AllHold(h[..|h| - 1])
    ensures !AllHold(h)
  {
    var g, c := h[..|h| - 1], h[|h| - 1].id;
    var b, obs := Run(g), Observations(g);
    FreshIsDistinct(g);
    CancelKeepsObservedSlots(b.log, b.cancelled, Ids(obs), c);
    var id :| id in Ids(obs) && SlotOf(b.log, b.cancelled + {c}, id) != SlotOf(b.log, b.cancelled, id);
    var o :| o in obs && o.id == id;
    assert Holds(b, o) && o in Observations(h);
    MovedIsBroken(b, c, o);
  }

  lemma MovedIsBroken(b: Board, c: nat, o: Obs)
    requires Holds(b, o) && SlotOf(b.log, b.cancelled + {c}, o.id) != SlotOf(b.log, b.cancelled, o.id)
    ensures !Holds(Apply(b, Cancel(c)), o)
  {
    hide SlotOf, NameOf, Bound;
  }

  /** The place of id in bind order. */
  predicate BoundBefore(log: seq<Sub>, a: nat, b: nat) {
    exists i, j :: 0 <= i < j < |log| && log[i].id == a && log[j].id == b
  }

  /**
   Over every run with fresh ids and guarded cancellations, take any two observations on one
   name: they belong to the same subscription exactly when they come from the same arrival slot
   (no payload is handed to two subscriptions); a subscription keeps returning the same value;
   and the earlier-bound subscription gets the earlier arrival.
   */
  lemma PayloadsAreHandedOutOnceInOrder(h: seq<Step>, p: Obs, q: Obs)
    requires Fresh(h) && Guarded(h) && p in Observations(h) && q in Observations(h)
    requires p.name == q.name
    ensures p.id == q.id <==> p.slot == q.slot
    ensures p.id == q.id ==> p == q
    ensures BoundBefore(Run(h).log, p.id, q.id) <==> p.slot < q.slot
    ensures p.slot < |Arrived(Run(h).arrivals, p.name)| && Arrived(Run(h).arrivals, p.name)[p.slot] == p.data
  {
    ObservationsHold(h);
    FreshIsDistinct(h);
    var b := Run(h);
    var i := SlotIsBound(b.log, b.cancelled, p.id);
    var j := SlotIsBound(b.log, b.cancelled, q.id);
    if i < j {
      SlotsFollowBindOrder(b.log, b.cancelled, i, j);
      assert BoundBefore(b.log, p.id, q.id);
    } else if j < i {
      SlotsFollowBindOrder(b.log, b.cancelled, j, i);
    }
  }

  // ---------------------------------------------------------------- no payload is handed out twice

  ghost predicate PollsAndBinds(steps: seq<Step>) {
    forall s :: s in steps ==> s.Poll? || s.Bind?
  }

  /** An arrival goes to one subscription only. */
  ghost predicate OncePerSlot(obs: seq<Obs>) {
    forall p, q :: p in obs && q in obs && p.name == q.name && p.slot == q.slot ==> p.id == q.id
  }

  /** However polls and fresh subscriptions continue the run, no arrival goes to two subscriptions. */
  ghost predicate NeverTwice(h: seq<Step>) {
    forall more :: PollsAndBinds(more) && Fresh(h + more) ==> OncePerSlot(Observations(h + more))
  }

  /**
   The guard is exactly what keeps payloads from being handed out twice: every cancellation of a run
   respects it if and only if no point of the run can be continued, by polls and fresh
   subscriptions alone, to one where two subscriptions were given the same arrival.
   */
  lemma {:induction false} NeverTwiceIffGuarded(h: seq<Step>)
    requires Fresh(h)
    ensures Guarded(h) <==> forall k :: 0 <= k <= |h| ==> NeverTwice(h[..k])
  {
    hide NeverTwice, CancelGuard;
    assert h[..|h|] == h;
    if h != [] {
      var g := h[..|h| - 1];
      NeverTwiceIffGuarded(g);
      assert forall k :: 0 <= k <= |g| ==> h[..k] == g[..k];
      if Guarded(h) {
        GuardedIsNeverTwice(h);
      } else if Guarded(g) {
        UnguardedGivesTwice(h);
      }
    } else {
      GuardedIsNeverTwice(h);
    }
  }

  lemma GuardedIsNeverTwice(h: seq<Step>)
    requires Fresh(h) && Guarded(h)
    ensures NeverTwice(h)
  {
    forall more | PollsAndBinds(more) && Fresh(h + more) ensures OncePerSlot(Observations(h + more)) {
      StaysGuarded(h, more);
      forall p, q | p in Observations(h + more) && q in Observations(h + more) && p.name == q.name && p.slot == q.slot
        ensures p.id == q.id
      {
        PayloadsAreHandedOutOnceInOrder(h + more, p, q);
      }
    }
  }

  lemma {:induction false} StaysGuarded(h: seq<Step>, more: seq<Step>)
    requires Guarded(h) && PollsAndBinds(more)
    ensures Guarded(h + more)
  {
    if more == [] {
      assert h + more == h;
    } else {
      assert (h + more)[..|h + more| - 1] == h + more[..|more| - 1];
      assert (h + more)[|h + more| - 1] == more[|more| - 1] && more[|more| - 1] in more;
      StaysGuarded(h, more[..|more| - 1]);
    }
  }

  /**
   The first cancellation against the guard moves an observed subscription off its arrival, and
   whoever is there now, or subscribes next, receives that arrival again.
   */
  lemma UnguardedGivesTwice(h: seq<Step>)
    requires Fresh(h) && h != [] && !Guarded(h) && Guarded(h[..|h| - 1])
    ensures !NeverTwice(h)
  {
    hide Run, Observations, Fresh, Guarded, CancelGuard, Holds, SlotOf, NeverTwice, Distinct, Bound, Takes;
    var o := MovedObservation(h);
    var g, c := h[..|h| - 1], h[|h| - 1].id;
    var x, more := NextReceiver(Run(g), c, o);
    CancelHandsOutNothing(g, c);
    assert h == g + [Cancel(c)];
    ReceivesAgain(h, o, x, more);
  }

  lemma CancelHandsOutNothing(g: seq<Step>, c: nat)
    ensures Run(g + [Cancel(c)]) == Apply(Run(g), Cancel(c)) && Observations(g + [Cancel(c)]) == Observations(g)
  {
    Snoc(g, Cancel(c));
  }

  lemma ReceivesAgain(h: seq<Step>, o: Obs, x: nat, more: seq<Step>)
    requires Fresh(h) && o in Observations(h) && x != o.id
    requires || (more == [Poll(x)] && Takes(Run(h), x, o))
             || (more == [Bind(x, o.name), Poll(x)] && !Bound(Run(h).log, x)
                 && Takes(Apply(Run(h), Bind(x, o.name)), x, o))
    ensures !NeverTwice(h)
  {
    if more == [Poll(x)] {
      TwiceNow(h, x, o);
    } else {
      Snoc(h, Bind(x, o.name));
      TwiceNow(h + [Bind(x, o.name)], x, o);
      assert h + [Bind(x, o.name)] + [Poll(x)] == h + more;
    }
    TwiceThen(h, more);
  }

  lemma TwiceNow(h: seq<Step>, x: nat, o: Obs)
    requires Fresh(h) && o in Observations(h) && Takes(Run(h), x, o) && x != o.id
    ensures Fresh(h + [Poll(x)]) && !OncePerSlot(Observations(h + [Poll(x)]))
  {
    Snoc(h, Poll(x));
    var p := Obs(x, o.name, o.slot, o.data);
    assert p in Observe(Run(h), x);
    assert p in Observations(h + [Poll(x)]) && o in Observations(h + [Poll(x)]);
  }

  lemma TwiceThen(h: seq<Step>, more: seq<Step>)
    requires PollsAndBinds(more) && Fresh(h + more) && !OncePerSlot(Observations(h + more))
    ensures !NeverTwice(h)
  {
  }

  /** Some observation made before the last step has lost its slot. */
  lemma MovedObservation(h: seq<Step>) returns (o: Obs)
    requires Fresh(h) && h != [] && !Guarded(h) && Guarded(h[..|h| - 1])
    ensures h[|h| - 1].Cancel? && Distinct(Run(h[..|h| - 1]).log)
    ensures var g, c, b := h[..|h| - 1], h[|h| - 1].id, Run(h[..|h| - 1]);
            && o in Observations(g) && Holds(b, o)
            && SlotOf(b.log, b.cancelled + {c}, o.id) != SlotOf(b.log, b.cancelled, o.id)
  {
    var g, c := h[..|h| - 1], h[|h| - 1].id;
    var b, obs := Run(g), Observations(g);
    ObservationsHold(g);
    FreshIsDistinct(g);
    CancelKeepsObservedSlots(b.log, b.cancelled, Ids(obs), c);
    var id :| id in Ids(obs) && SlotOf(b.log, b.cancelled + {c}, id) != SlotOf(b.log, b.cancelled, id);
    o :| o in obs && o.id == id;
  }

  /** Polling one subscription, bound already or next, gives the arrival that o was given. */
  lemma NextReceiver(b: Board, c: nat, o: Obs) returns (x: nat, more: seq<Step>)
    requires Distinct(b.log) && Holds(b, o)
    requires SlotOf(b.log, b.cancelled + {c}, o.id) != SlotOf(b.log, b.cancelled, o.id)
    ensures x != o.id
    ensures var b' := Apply(b, Cancel(c));
            || (more == [Poll(x)] && Takes(b', x, o))
            || (more == [Bind(x, o.name), Poll(x)] && !Bound(b'.log, x) && Takes(Apply(b', Bind(x, o.name)), x, o))
  {
    var b', s := Apply(b, Cancel(c)), o.slot;
    var active := ActiveList(b'.log, b'.cancelled, o.name);
    SlotIsActivePosition(b.log, b.cancelled, o.name);
    SlotIsActivePosition(b'.log, b'.cancelled, o.name);
    CancelCount(b.log, b.cancelled, c, o.name);
    if s < |active| {
      x := active[s];
      more := [Poll(x)];
    } else {
      x := UnusedId(b'.log, b'.cancelled);
      more := [Bind(x, o.name), Poll(x)];
      var next := Apply(b', Bind(x, o.name));
      assert next.log[..|next.log| - 1] == b'.log;
    }
  }

  /** Polled now, the subscription is handed the arrival of the observation. */
  ghost predicate Takes(b: Board, x: nat, o: Obs) {
    Observe(b, x) == [Obs(x, o.name, o.slot, o.data)]
  }

  lemma UnusedId(log: seq<Sub>, cancelled: set<nat>) returns (x: nat)
    ensures !Bound(log, x) && x !in cancelled
  {
    var used := cancelled + set s | s in log :: s.id;
    x := AboveAll(used);
    assert x !in used;
    forall k | 0 <= k < |log| ensures log[k].id != x {
      assert log[k] in log && log[k].id in used;
    }
  }

  lemma {:induction false} AboveAll(used: set<nat>) returns (x: nat)
    ensures forall y :: y in used ==> y < x
    decreases |used|
  {
    if used == {} {
      x := 0;
    } else {
      var some :| some in used;
      var rest := AboveAll(used - {some});
      x := if rest <= some then some + 1 else rest;
      assert forall y :: y in used ==> y == some || y in used - {some};
    }
  }

  lemma Snoc(h: seq<Step>, s: Step)
    ensures Run(h + [s]) == Apply(Run(h), s)
    ensures Observations(h + [s]) == Observations(h) + (if s.Poll? then Observe(Run(h), s.id) else [])
    ensures Fresh(h + [s]) <==> Fresh(h) && FreshStep(Run(h), s)
    ensures Guarded(h + [s]) <==> Guarded(h) && (s.Cancel? ==>
              CancelGuard(Run(h).log, Run(h).cancelled, Ids(Observations(h)), s.id))
  {
    assert (h + [s])[..|h + [s]| - 1] == h;
  }

  const TWO_BOUND := [Bind(1, "e")] + [Bind(2, "e")]
  const TWO_WAITING := TWO_BOUND + [Deliver("e", "x")] + [Deliver("e", "y")]
  const TWO_SUBS := [Sub(1, "e"), Sub(2, "e")]

  lemma TwoBound()
    ensures Run(TWO_BOUND) == Board(TWO_SUBS, {}, map[])
    ensures Observations(TWO_BOUND) == [] && Fresh(TWO_BOUND) && Guarded(TWO_BOUND)
  {
    assert [] + [Bind(1, "e")] == [Bind(1, "e")];
    Snoc([], Bind(1, "e"));
    Snoc([Bind(1, "e")], Bind(2, "e"));
    assert Run(TWO_BOUND).log == TWO_SUBS;
  }

  lemma TwoWaiting()
    ensures Run(TWO_WAITING) == Board(TWO_SUBS, {}, map["e" := ["x", "y"]])
    ensures Observations(TWO_WAITING) == [] && Fresh(TWO_WAITING) && Guarded(TWO_WAITING)
  {
    hide Run, Observations, Fresh, Guarded, CancelGuard;
    TwoBound();
    Snoc(TWO_BOUND, Deliver("e", "x"));
    Snoc(TWO_BOUND + [Deliver("e", "x")], Deliver("e", "y"));
    DeliverTwo();
  }

  lemma DeliverTwo()
    ensures Apply(Apply(Board(TWO_SUBS, {}, map[]), Deliver("e", "x")), Deliver("e", "y"))
         == Board(TWO_SUBS, {}, map["e" := ["x", "y"]])
  {
    var none: seq<string> := [];
    var noMap: map<string, seq<string>> := map[];
    assert none + ["x"] == ["x"] && noMap["e" := ["x"]] == map["e" := ["x"]];
    assert ["x"] + ["y"] == ["x", "y"];
    assert map["e" := ["x"]]["e" := ["x", "y"]] == map["e" := ["x", "y"]];
  }

  /**
   Without the guard the law fails: with two payloads waiting, the second subscription is polled,
   then the first one is cancelled, and a third subscription is given the payload that the second
   has already returned.
   */
  lemma UnguardedCancelHandsOutTwice()
    ensures var h := TWO_WAITING + [Poll(2)] + [Cancel(1)] + [Bind(3, "e")] + [Poll(3)];
            Fresh(h) && !Guarded(h)
            && Observations(h) == [Obs(2, "e", 1, "y"), Obs(3, "e", 1, "y")]
  {
    hide Run, Observations, Fresh, Guarded, CancelGuard, Observe;
    TwoWaiting();
    Snoc(TWO_WAITING, Poll(2));
    var h5 := TWO_WAITING + [Poll(2)];
    SecondTakesSecondSlot();
    Snoc(h5, Cancel(1));
    Snoc(h5 + [Cancel(1)], Bind(3, "e"));
    Snoc(h5 + [Cancel(1)] + [Bind(3, "e")], Poll(3));
    ThirdTakesSecondSlot();
    assert Observations(h5) == [Obs(2, "e", 1, "y")];
    assert {1} == {} + {1};
  }

  lemma SecondTakesSecondSlot()
    ensures Observe(Board(TWO_SUBS, {}, map["e" := ["x", "y"]]), 2) == [Obs(2, "e", 1, "y")]
    ensures !CancelGuard(TWO_SUBS, {}, Ids([Obs(2, "e", 1, "y")]), 1)
  {
    LookupAt(TWO_SUBS, {}, 1);
    assert TWO_SUBS[..1] == [Sub(1, "e")];
    assert ActiveCount([Sub(1, "e")], {}, "e") == 1;
    assert Obs(2, "e", 1, "y") in [Obs(2, "e", 1, "y")];
    assert TWO_SUBS[0].id == 1 && TWO_SUBS[1].id in Ids([Obs(2, "e", 1, "y")]);
  }

  lemma ThirdTakesSecondSlot()
    ensures var log := TWO_SUBS + [Sub(3, "e")];
            Observe(Board(log, {1}, map["e" := ["x", "y"]]), 3) == [Obs(3, "e", 1, "y")]
  {
    var log := TWO_SUBS + [Sub(3, "e")];
    LookupAt(log, {1}, 2);
    assert log[..2] == TWO_SUBS && TWO_SUBS[..1] == [Sub(1, "e")];
    assert ActiveCount([Sub(1, "e")], {1}, "e") == 0;
    assert ActiveCount(TWO_SUBS, {1}, "e") == 1;
  }
}
