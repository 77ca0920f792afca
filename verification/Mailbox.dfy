/**
 Mailbox queues. A dequeue counts the active subscriptions of its name that were bound before it
 and takes the message with that number, once.
 */
module Mailbox {
  import opened Common
  import opened SubscriptionLog
  import opened BoardRuns

  datatype Mail = Mail(board: Board, resolved: set<nat>)

  /** The name of the first entry with this id. */
  function FindName(subs: seq<Sub>, id: nat): Option<string> {
    if subs == [] then None
    else if subs[0].id == id then Some(subs[0].name)
    else FindName(subs[1..], id)
  }

  /** Active subscriptions of the name ahead of the first entry with this id. */
  function ActiveAhead(subs: seq<Sub>, cancelled: set<nat>, id: nat, name: string): nat {
    if subs == [] || subs[0].id == id then 0
    else
      (if subs[0].name == name && subs[0].id !in cancelled then 1 else 0)
      + ActiveAhead(subs[1..], cancelled, id, name)
  }

  function Peek(m: Mail, id: nat): Option<string> {
    var name := FindName(m.board.log, id);
    if name.None? || id in m.resolved || id in m.board.cancelled then None
    else
      var index := ActiveAhead(m.board.log, m.board.cancelled, id, name.value);
      var arrivals := Arrived(m.board.arrivals, name.value);
      if index < |arrivals| then Some(arrivals[index]) else None
  }

  /** A dequeue that finds its message marks the subscription as resolved. */
  function Dequeue(m: Mail, id: nat): (Mail, Option<string>) {
    (if Peek(m, id).Some? then m.(resolved := m.resolved + {id}) else m, Peek(m, id))
  }

  // ---------------------------------------------------------------- agreement with the board

  lemma {:induction false} CountSplits(a: seq<Sub>, b: seq<Sub>, cancelled: set<nat>, name: string)
    ensures ActiveCount(a + b, cancelled, name) == ActiveCount(a, cancelled, name) + ActiveCount(b, cancelled, name)
  {
    if b == [] {
      assert a + b == a;
    } else {
      assert (a + b)[..|a + b| - 1] == a + b[..|b| - 1];
      CountSplits(a, b[..|b| - 1], cancelled, name);
    }
  }

  lemma {:induction false} AheadIsPrefixCount(subs: seq<Sub>, cancelled: set<nat>, k: nat, name: string)
    requires Distinct(subs) && k < |subs|
    ensures FindName(subs, subs[k].id) == Some(subs[k].name)
    ensures ActiveAhead(subs, cancelled, subs[k].id, name) == ActiveCount(subs[..k], cancelled, name)
  {
    if k > 0 {
      var rest := subs[1..];
      assert rest[k - 1] == subs[k] && subs[0].id != subs[k].id;
      AheadIsPrefixCount(rest, cancelled, k - 1, name);
      assert subs[..k] == [subs[0]] + rest[..k - 1];
      CountSplits([subs[0]], rest[..k - 1], cancelled, name);
      assert [subs[0]][..0] == [];
    }
  }

  lemma {:induction false} FindNameIsBound(subs: seq<Sub>, id: nat)
    ensures FindName(subs, id).Some? <==> Bound(subs, id)
  {
    if subs != [] {
      FindNameIsBound(subs[1..], id);
      if Bound(subs[1..], id) { var i :| 0 <= i < |subs[1..]| && subs[1..][i].id == id; assert subs[i + 1].id == id; }
      if Bound(subs, id) && subs[0].id != id {
        var i :| 0 <= i < |subs| && subs[i].id == id;
        assert subs[1..][i - 1].id == id;
      }
    }
  }

  /** An unresolved subscription is given exactly what the two-list picture gives it. */
  lemma PeekMatchesBoard(m: Mail, id: nat)
    requires Distinct(m.board.log)
    ensures Peek(m, id) == if id in m.resolved then None else Get(m.board, id)
  {
    FindNameIsBound(m.board.log, id);
    if Bound(m.board.log, id) {
      var k :| 0 <= k < |m.board.log| && m.board.log[k].id == id;
      AheadIsPrefixCount(m.board.log, m.board.cancelled, k, m.board.log[k].name);
      LookupAt(m.board.log, m.board.cancelled, k);
    } else {
      LookupNone(m.board.log, m.board.cancelled, id);
    }
  }

  // ---------------------------------------------------------------- exactly once, in order

  function Step(m: Mail, s: BoardRuns.Step): Mail {
    if s.Poll? then Dequeue(m, s.id).0 else m.(board := Apply(m.board, s))
  }

  function MailRun(h: seq<BoardRuns.Step>): Mail {
    if h == [] then Mail(EMPTY_BOARD, {}) else Step(MailRun(h[..|h| - 1]), h[|h| - 1])
  }

  /** The dequeues of a run that returned a message, with the slot the message came from. */
  function Handed(h: seq<BoardRuns.Step>): seq<Obs> {
    if h == [] then []
    else
      var m, s := MailRun(h[..|h| - 1]), h[|h| - 1];
      Handed(h[..|h| - 1])
      + if s.Poll? && Peek(m, s.id).Some? && SlotOf(m.board.log, m.board.cancelled, s.id).Some?
        then [Obs(s.id, FindName(m.board.log, s.id).value, SlotOf(m.board.log, m.board.cancelled, s.id).value,
                  Peek(m, s.id).value)]
        else []
  }

  predicate GuardedMail(h: seq<BoardRuns.Step>) {
    h == []
    || (GuardedMail(h[..|h| - 1])
        && (h[|h| - 1].Cancel? ==>
              var m := MailRun(h[..|h| - 1]);
              CancelGuard(m.board.log, m.board.cancelled, m.resolved, h[|h| - 1].id)))
  }

  /** What a poll adds to the handed-out messages: an observation of an unresolved subscription. */
  lemma HandedSnoc(g: seq<BoardRuns.Step>, s: BoardRuns.Step)
    requires Distinct(MailRun(g).board.log)
    ensures var m := MailRun(g);
            Handed(g + [s]) == Handed(g) + (if s.Poll? && s.id !in m.resolved then Observe(m.board, s.id) else [])
            && MailRun(g + [s]) == Step(m, s)
            && (s.Poll? ==> MailRun(g + [s]).resolved
                            == m.resolved
                               + (if s.id !in m.resolved && Observe(m.board, s.id) != [] then {s.id} else {}))
  {
    assert (g + [s])[..|g + [s]| - 1] == g;
    var m := MailRun(g);
    if s.Poll? {
      PeekMatchesBoard(m, s.id);
      if Peek(m, s.id).Some? {
        var k := SlotIsBound(m.board.log, m.board.cancelled, s.id);
        AheadIsPrefixCount(m.board.log, m.board.cancelled, k, m.board.log[k].name);
      }
    }
  }

  lemma IdsConcat(a: seq<Obs>, b: seq<Obs>)
    ensures Ids(a + b) == Ids(a) + Ids(b)
  {
    assert forall o :: o in a + b <==> o in a || o in b;
  }

  lemma ObserveHolds(b: Board, id: nat)
    requires Distinct(b.log)
    ensures forall o :: o in Observe(b, id) ==> o.id == id && Holds(b, o)
  {
    if Observe(b, id) != [] {
      var k := SlotIsBound(b.log, b.cancelled, id);
      LookupAt(b.log, b.cancelled, k);
    }
  }

  /** Whatever is cancelled: the resolved subscriptions are those that were handed a message, each once. */
  lemma {:induction false} MailRunFacts(h: seq<BoardRuns.Step>)
    requires Fresh(h)
    ensures MailRun(h).board == BoardRuns.Run(h)
    ensures Ids(Handed(h)) == MailRun(h).resolved
    ensures forall i, j :: 0 <= i < j < |Handed(h)| ==> Handed(h)[i].id != Handed(h)[j].id
  {
    if h != [] {
      var g, s := h[..|h| - 1], h[|h| - 1];
      assert h == g + [s];
      MailRunFacts(g);
      FreshIsDistinct(g);
      HandedSnoc(g, s);
      var m, obs := MailRun(g), Handed(g);
      var added := if s.Poll? && s.id !in m.resolved then Observe(m.board, s.id) else [];
      IdsConcat(obs, added);
      assert Ids(added) == if added == [] then {} else {s.id};
      forall i | 0 <= i < |obs| && added != [] ensures obs[i].id != s.id {
        assert obs[i].id in Ids(obs);
      }
    }
  }

  ghost predicate AllHandedHold(h: seq<BoardRuns.Step>) {
    forall o :: o in Handed(h) ==> Holds(MailRun(h).board, o)
  }

  lemma {:induction false} MailRunInvariant(h: seq<BoardRuns.Step>)
    requires Fresh(h) && GuardedMail(h)
    ensures MailRun(h).board == BoardRuns.Run(h)
    ensures Ids(Handed(h)) == MailRun(h).resolved
    ensures AllHandedHold(h)
    ensures forall i, j :: 0 <= i < j < |Handed(h)| ==> Handed(h)[i].id != Handed(h)[j].id
  {
    MailRunFacts(h);
    if h != [] {
      MailRunInvariant(h[..|h| - 1]);
      MailStepKeeps(h);
    }
  }

  lemma MailStepKeeps(h: seq<BoardRuns.Step>)
    requires Fresh(h) && GuardedMail(h) && h != [] && AllHandedHold(h[..|h| - 1])
    ensures AllHandedHold(h)
  {
    var g, s := h[..|h| - 1], h[|h| - 1];
    assert h == g + [s];
    MailRunFacts(g);
    FreshIsDistinct(g);
    HandedSnoc(g, s);
    var m, obs := MailRun(g), Handed(g);
    ObserveHolds(m.board, if s.Poll? then s.id else 0);
    forall o | o in obs ensures Holds(MailRun(h).board, o) {
      StepKeeps(m.board, s, o, obs);
    }
  }

  /**
   The guard is exact for mailboxes as well: every message handed out stays the one its
   subscription is entitled to, at every later point, if and only if every cancellation respects it.
   */
  lemma {:induction false} HandedHoldIffGuarded(h: seq<BoardRuns.Step>)
    requires Fresh(h)
    ensures GuardedMail(h) <==> forall k :: 0 <= k <= |h| ==> AllHandedHold(h[..k])
  {
    hide AllHandedHold, CancelGuard;
    assert h[..|h|] == h;
    if h != [] {
      var g, s := h[..|h| - 1], h[|h| - 1];
      HandedHoldIffGuarded(g);
      assert forall k :: 0 <= k <= |g| ==> h[..k] == g[..k];
      if GuardedMail(h) {
        MailRunInvariant(h);
      } else if GuardedMail(g) {
        MailRunInvariant(g);
        UnguardedCancelMovesHanded(h);
      }
    } else {
      MailRunInvariant(h);
    }
  }

  lemma UnguardedCancelMovesHanded(h: seq<BoardRuns.Step>)
    requires Fresh(h) && h != [] && !GuardedMail(h) && GuardedMail(h[..|h| - 1]) && AllHandedHold(h[..|h| - 1])
    ensures !AllHandedHold(h)
  {
    var g, c := h[..|h| - 1], h[|h| - 1].id;
    var b, obs := MailRun(g).board, Handed(g);
    MailRunFacts(g);
    FreshIsDistinct(g);
    CancelKeepsObservedSlots(b.log, b.cancelled, Ids(obs), c);
    var id :| id in Ids(obs) && SlotOf(b.log, b.cancelled + {c}, id) != SlotOf(b.log, b.cancelled, id);
    var o :| o in obs && o.id == id;
    assert Holds(b, o) && o in Handed(h);
    MovedIsBroken(b, c, o);
  }

  /**
   Over every run with fresh ids and guarded cancellations, any two dequeues that returned a
   message belong to different subscriptions; on one queue they took different messages, and the
   subscription bound earlier took the earlier message.
   */
  lemma MessagesAreHandedOutOnceInOrder(h: seq<BoardRuns.Step>, i: nat, j: nat)
    requires Fresh(h) && GuardedMail(h) && i < j < |Handed(h)|
    ensures Handed(h)[i].id != Handed(h)[j].id
    ensures Handed(h)[i].name == Handed(h)[j].name ==>
              Handed(h)[i].slot != Handed(h)[j].slot
              && (BoundBefore(BoardRuns.Run(h).log, Handed(h)[i].id, Handed(h)[j].id) <==>
                   Handed(h)[i].slot < Handed(h)[j].slot)
  {
    MailRunInvariant(h);
    FreshIsDistinct(h);
    var b, p, q := BoardRuns.Run(h), Handed(h)[i], Handed(h)[j];
    assert p in Handed(h) && q in Handed(h);
    if p.name == q.name {
      var k := SlotIsBound(b.log, b.cancelled, p.id);
      var l := SlotIsBound(b.log, b.cancelled, q.id);
      if k < l {
        SlotsFollowBindOrder(b.log, b.cancelled, k, l);
        assert BoundBefore(b.log, p.id, q.id);
      } else {
        SlotsFollowBindOrder(b.log, b.cancelled, l, k);
      }
    }
  }

  // ---------------------------------------------------------------- poll order

  function DequeueAll(m: Mail, order: seq<nat>): (r: (Mail, seq<Option<string>>))
    ensures |r.1| == |order|
  {
    if order == [] then (m, [])
    else
      var (m', answers) := DequeueAll(m, order[..|order| - 1]);
      var (m'', answer) := Dequeue(m', order[|order| - 1]);
      (m'', answers + [answer])
  }

  /** The subscriptions among ids whose message has arrived. */
  function Served(b: Board, ids: set<nat>): set<nat> {
    set id | id in ids && Get(b, id).Some?
  }

  lemma {:induction false} DequeueAllAnswers(m: Mail, order: seq<nat>)
    requires Distinct(m.board.log) && NoRepeats(order)
    ensures var r := DequeueAll(m, order);
            r.0 == m.(resolved := m.resolved + Served(m.board, SetOf(order)))
            && forall i :: 0 <= i < |order| ==> r.1[i] == Peek(m, order[i])
  {
    if order != [] {
      var rest, last := order[..|order| - 1], order[|order| - 1];
      DequeueAllAnswers(m, rest);
      var m' := DequeueAll(m, rest).0;
      assert last !in rest;
      PeekMatchesBoard(m', last);
      PeekMatchesBoard(m, last);
      assert SetOf(order) == SetOf(rest) + {last};
      assert Served(m.board, SetOf(order))
          == Served(m.board, SetOf(rest)) + (if Get(m.board, last).Some? then {last} else {});
    }
  }

  /**
   Polling in any order makes no difference: two orders over the same subscriptions leave the
   same mailbox behind and hand every subscription the same message.
   */
  lemma PollOrderIsIrrelevant(m: Mail, order: seq<nat>, other: seq<nat>)
    requires Distinct(m.board.log) && NoRepeats(order) && NoRepeats(other) && SetOf(order) == SetOf(other)
    ensures DequeueAll(m, order).0 == DequeueAll(m, other).0
    ensures forall i, j :: 0 <= i < |order| && 0 <= j < |other| && order[i] == other[j]
              ==> DequeueAll(m, order).1[i] == DequeueAll(m, other).1[j]
  {
    DequeueAllAnswers(m, order);
    DequeueAllAnswers(m, other);
  }

  /**
   After polling all active subscriptions of a queue, in any order, exactly the first
   min(active, arrived) of them are resolved.
   */
  lemma FirstOnesResolve(m: Mail, order: seq<nat>, name: string)
    requires Distinct(m.board.log) && NoRepeats(order)
    requires SetOf(order) == SetOf(ActiveList(m.board.log, m.board.cancelled, name))
    requires forall id :: id in m.resolved ==> Get(m.board, id).Some?
    ensures var active := ActiveList(m.board.log, m.board.cancelled, name);
            var arrived := |Arrived(m.board.arrivals, name)|;
            var taken := if |active| < arrived then |active| else arrived;
            forall k :: 0 <= k < |active| ==> (active[k] in DequeueAll(m, order).0.resolved <==> k < taken)
  {
    var active := ActiveList(m.board.log, m.board.cancelled, name);
    DequeueAllAnswers(m, order);
    SlotIsActivePosition(m.board.log, m.board.cancelled, name);
    forall k | 0 <= k < |active| ensures active[k] in order {
      assert active[k] in SetOf(active) && active[k] in SetOf(order);
    }
  }

  /** The resolved set of a guarded run meets what FirstOnesResolve asks for. */
  lemma ResolvedHaveTheirMessage(h: seq<BoardRuns.Step>)
    requires Fresh(h) && GuardedMail(h)
    ensures forall id :: id in MailRun(h).resolved ==> Get(MailRun(h).board, id).Some?
  {
    MailRunInvariant(h);
    forall id | id in MailRun(h).resolved ensures Get(MailRun(h).board, id).Some? {
      var o :| o in Handed(h) && o.id == id;
      assert Holds(MailRun(h).board, o);
    }
  }
}
