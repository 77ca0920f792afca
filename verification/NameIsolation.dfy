/** Events and messages of different names do not interfere, whatever the interleaving of the steps. */
module NameIsolation {
  import opened Common
  import opened SubscriptionLog
  import opened BoardRuns
  import Mailbox

  function OnlyName(log: seq<Sub>, name: string): seq<Sub> {
    if log == [] then []
    else if log[|log| - 1].name == name then OnlyName(log[..|log| - 1], name) + [log[|log| - 1]]
    else OnlyName(log[..|log| - 1], name)
  }

  /** A step on the given name: steps that carry an id concern the name if the id is in ids. */
  predicate Concerns(s: Step, name: string, ids: set<nat>) {
    match s
    case Bind(_, n) => n == name
    case Deliver(n, _) => n == name
    case Cancel(id) => id in ids
    case Poll(id) => id in ids
  }

  function Filter(h: seq<Step>, name: string, ids: set<nat>): seq<Step> {
    if h == [] then []
    else if Concerns(h[|h| - 1], name, ids) then Filter(h[..|h| - 1], name, ids) + [h[|h| - 1]]
    else Filter(h[..|h| - 1], name, ids)
  }

  /** The schedule ids that a history binds to a name. */
  function IdsOf(h: seq<Step>, name: string): set<nat> {
    set s | s in h && s.Bind? && s.name == name :: s.id
  }

  lemma {:induction false} OnlyNameCount(log: seq<Sub>, cancelled: set<nat>, name: string, ids: set<nat>)
    requires forall i :: 0 <= i < |log| && log[i].name == name ==> log[i].id in ids
    ensures ActiveCount(OnlyName(log, name), cancelled * ids, name) == ActiveCount(log, cancelled, name)
  {
    if log != [] {
      var rest, last := log[..|log| - 1], log[|log| - 1];
      OnlyNameCount(rest, cancelled, name, ids);
      if last.name == name {
        assert OnlyName(log, name)[..|OnlyName(log, name)| - 1] == OnlyName(rest, name);
      }
    }
  }

  lemma {:induction false} OnlyNameLookup(log: seq<Sub>, cancelled: set<nat>, name: string, ids: set<nat>, id: nat)
    requires Distinct(log) && NameOf(log, id) == Some(name)
    requires forall i :: 0 <= i < |log| && log[i].name == name ==> log[i].id in ids
    ensures NameOf(OnlyName(log, name), id) == Some(name)
    ensures SlotOf(OnlyName(log, name), cancelled * ids, id) == SlotOf(log, cancelled, id)
  {
    var rest, last := log[..|log| - 1], log[|log| - 1];
    if last.name == name {
      assert OnlyName(log, name)[..|OnlyName(log, name)| - 1] == OnlyName(rest, name);
    }
    if last.id == id {
      OnlyNameCount(rest, cancelled, name, ids);
    } else {
      OnlyNameLookup(rest, cancelled, name, ids, id);
    }
  }

  lemma {:induction false} FilteredRun(h: seq<Step>, name: string, ids: set<nat>)
    ensures var f, b := Run(Filter(h, name, ids)), Run(h);
            f.log == OnlyName(b.log, name)
            && Arrived(f.arrivals, name) == Arrived(b.arrivals, name)
            && f.cancelled == b.cancelled * ids
  {
    if h != [] {
      var g, s := h[..|h| - 1], h[|h| - 1];
      FilteredRun(g, name, ids);
      Snoc(Filter(g, name, ids), s);
      if s.Bind? {
        assert Run(h).log[..|Run(h).log| - 1] == Run(g).log;
      }
    }
  }

  lemma {:induction false} LogIsBindings(h: seq<Step>, i: nat)
    requires i < |Run(h).log|
    ensures Run(h).log[i].id in IdsOf(h, Run(h).log[i].name)
  {
    var g, s := h[..|h| - 1], h[|h| - 1];
    if i < |Run(g).log| {
      LogIsBindings(g, i);
      assert forall x :: x in g ==> x in h;
    } else {
      assert s in h;
    }
  }

  /**
   What a subscription on a name receives after any history with fresh ids is what it receives
   after the part of that history that concerns its own name.
   */
  lemma NamesAreIsolated(h: seq<Step>, name: string, id: nat)
    requires Fresh(h) && NameOf(Run(h).log, id) == Some(name)
    ensures Get(Run(h), id) == Get(Run(Filter(h, name, IdsOf(h, name))), id)
  {
    var b, ids := Run(h), IdsOf(h, name);
    FreshIsDistinct(h);
    FilteredRun(h, name, ids);
    forall i | 0 <= i < |b.log| && b.log[i].name == name ensures b.log[i].id in ids { LogIsBindings(h, i); }
    OnlyNameLookup(b.log, b.cancelled, name, ids, id);
  }

  lemma {:induction false} FilterConcat(g: seq<Step>, h: seq<Step>, name: string, ids: set<nat>)
    ensures Filter(g + h, name, ids) == Filter(g, name, ids) + Filter(h, name, ids)
  {
    if h == [] {
      assert g + h == g;
    } else {
      assert (g + h)[..|g + h| - 1] == g + h[..|h| - 1];
      FilterConcat(g, h[..|h| - 1], name, ids);
    }
  }

  // ---------------------------------------------------------------- mailboxes

  /** A filtered history binds the ids of the name only, each still once. */
  lemma {:induction false} FilterStaysFresh(h: seq<Step>, name: string, ids: set<nat>)
    requires Fresh(h)
    ensures Fresh(Filter(h, name, ids))
  {
    if h != [] {
      var g, s := h[..|h| - 1], h[|h| - 1];
      FilterStaysFresh(g, name, ids);
      Snoc(Filter(g, name, ids), s);
      if s.Bind? && s.name == name {
        FilteredRun(g, name, ids);
        OnlyNameIsPart(Run(g).log, name, s.id);
      }
    }
  }

  lemma {:induction false} OnlyNameIsPart(log: seq<Sub>, name: string, id: nat)
    ensures Bound(OnlyName(log, name), id) ==> Bound(log, id)
    ensures forall i :: 0 <= i < |OnlyName(log, name)| ==> OnlyName(log, name)[i] in log
  {
    if log != [] {
      OnlyNameIsPart(log[..|log| - 1], name, id);
      var only := OnlyName(log, name);
      forall i | 0 <= i < |only| ensures only[i] in log {
        assert only[i] in log[..|log| - 1] || only[i] == log[|log| - 1];
      }
      if Bound(only, id) {
        var i :| 0 <= i < |only| && only[i].id == id;
        var k :| 0 <= k < |log| && log[k] == only[i];
      }
    }
  }

  /** The ids belong to the name: whoever has one is bound to the name, if to any. */
  ghost predicate Owned(h: seq<Step>, name: string, ids: set<nat>) {
    forall s :: s in h && s.Bind? ==> (s.id in ids <==> s.name == name)
  }

  lemma OwnedByName(h: seq<Step>, name: string)
    requires Fresh(h)
    ensures Owned(h, name, IdsOf(h, name))
  {
    forall s | s in h && s.Bind? && s.id in IdsOf(h, name) ensures s.name == name {
      var t :| t in h && t.Bind? && t.name == name && t.id == s.id;
      BindingIsUnique(h, s, t);
    }
  }

  lemma {:induction false} BindingIsUnique(h: seq<Step>, s: Step, t: Step)
    requires Fresh(h) && s in h && t in h && s.Bind? && t.Bind? && s.id == t.id
    ensures s == t
  {
    var g, last := h[..|h| - 1], h[|h| - 1];
    if s in g && t in g {
      BindingIsUnique(g, s, t);
    } else if s in g {
      BoundByBinding(g, s);
    } else if t in g {
      BoundByBinding(g, t);
    }
  }

  lemma {:induction false} BoundByBinding(h: seq<Step>, s: Step)
    requires s in h && s.Bind?
    ensures Bound(Run(h).log, s.id)
  {
    var g, last := h[..|h| - 1], h[|h| - 1];
    if s in g {
      BoundByBinding(g, s);
      var i :| 0 <= i < |Run(g).log| && Run(g).log[i].id == s.id;
      assert Run(h).log[i].id == s.id;
    } else {
      assert Run(h).log[|Run(g).log|].id == s.id;
    }
  }

  lemma LogIsOwned(h: seq<Step>, name: string, ids: set<nat>)
    requires Fresh(h) && Owned(h, name, ids)
    ensures forall i :: 0 <= i < |Run(h).log| ==> (Run(h).log[i].id in ids <==> Run(h).log[i].name == name)
  {
    forall i | 0 <= i < |Run(h).log| ensures Run(h).log[i].id in ids <==> Run(h).log[i].name == name {
      LogIsBindings(h, i);
      var s :| s in h && s.Bind? && s.name == Run(h).log[i].name && s.id == Run(h).log[i].id;
    }
  }

  /** The two-list picture gives an owned id the same in the filtered history. */
  lemma OwnedGet(h: seq<Step>, name: string, ids: set<nat>, id: nat)
    requires Fresh(h) && Owned(h, name, ids) && id in ids
    ensures Observe(Run(h), id) == Observe(Run(Filter(h, name, ids)), id)
  {
    hide Run, Filter, OnlyName, Fresh, Owned, ActiveCount;
    var b, f := Run(h), Run(Filter(h, name, ids));
    FreshIsDistinct(h);
    FilteredRun(h, name, ids);
    LogIsOwned(h, name, ids);
    if Bound(b.log, id) {
      var k :| 0 <= k < |b.log| && b.log[k].id == id;
      LookupAt(b.log, b.cancelled, k);
      OnlyNameLookup(b.log, b.cancelled, name, ids, id);
    } else {
      OnlyNameIsPart(b.log, name, id);
      LookupNone(b.log, b.cancelled, id);
      LookupNone(f.log, f.cancelled, id);
    }
  }

  /** Of the resolved subscriptions the filtered history resolves exactly those of its name. */
  lemma {:induction false} ResolvedIsFiltered(h: seq<Step>, name: string, ids: set<nat>)
    requires Fresh(h) && Owned(h, name, ids)
    ensures Mailbox.MailRun(Filter(h, name, ids)).resolved == Mailbox.MailRun(h).resolved * ids
  {
    if h != [] {
      ResolvedIsFiltered(h[..|h| - 1], name, ids);
      ResolvedStep(h[..|h| - 1], h[|h| - 1], name, ids);
      assert h == h[..|h| - 1] + [h[|h| - 1]];
    }
  }

  lemma ResolvedStep(g: seq<Step>, s: Step, name: string, ids: set<nat>)
    requires Fresh(g) && Owned(g, name, ids)
    requires Mailbox.MailRun(Filter(g, name, ids)).resolved == Mailbox.MailRun(g).resolved * ids
    ensures Mailbox.MailRun(Filter(g + [s], name, ids)).resolved == Mailbox.MailRun(g + [s]).resolved * ids
  {
    var f := Filter(g, name, ids);
    assert (g + [s])[..|g + [s]| - 1] == g;
    FilterStaysFresh(g, name, ids);
    BoardsOfMail(g);
    BoardsOfMail(f);
    hide Fresh, Owned, Observe, Mailbox.MailRun, Mailbox.Peek;
    Mailbox.HandedSnoc(g, s);
    Mailbox.HandedSnoc(f, s);
    if s.Poll? && s.id in ids {
      OwnedGet(g, name, ids, s.id);
    }
  }

  lemma BoardsOfMail(h: seq<Step>)
    requires Fresh(h)
    ensures Mailbox.MailRun(h).board == Run(h) && Distinct(Run(h).log)
  {
    Mailbox.MailRunFacts(h);
    FreshIsDistinct(h);
  }

  /**
   What a dequeue on a queue is given after any history with fresh ids, and which of the queue's
   subscriptions are resolved, is as after the part of the history that concerns the queue.
   */
  lemma QueuesAreIsolated(h: seq<Step>, name: string, id: nat)
    requires Fresh(h) && NameOf(Run(h).log, id) == Some(name)
    ensures var part := Filter(h, name, IdsOf(h, name));
            && Mailbox.Peek(Mailbox.MailRun(h), id) == Mailbox.Peek(Mailbox.MailRun(part), id)
            && Mailbox.MailRun(part).resolved == Mailbox.MailRun(h).resolved * IdsOf(h, name)
  {
    var ids := IdsOf(h, name);
    var part := Filter(h, name, ids);
    OwnedByName(h, name);
    ResolvedIsFiltered(h, name, ids);
    FilterStaysFresh(h, name, ids);
    FreshIsDistinct(h);
    FreshIsDistinct(part);
    Mailbox.MailRunFacts(h);
    Mailbox.MailRunFacts(part);
    Mailbox.PeekMatchesBoard(Mailbox.MailRun(h), id);
    Mailbox.PeekMatchesBoard(Mailbox.MailRun(part), id);
    NamesAreIsolated(h, name, id);
    var k := SlotIsBound(Run(h).log, Run(h).cancelled, id);
    LogIsBindings(h, k);
  }

  // ---------------------------------------------------------------- exchanging steps

  lemma {:induction false} SwapKeepsBound(before: seq<Step>, s: Step, t: Step, after: seq<Step>, id: nat)
    ensures Bound(Run(before + [s, t] + after).log, id) <==> Bound(Run(before + [t, s] + after).log, id)
  {
    var h, g := before + [s, t] + after, before + [t, s] + after;
    if after != [] {
      var rest, last := after[..|after| - 1], after[|after| - 1];
      assert h[..|h| - 1] == before + [s, t] + rest && g[..|g| - 1] == before + [t, s] + rest;
      SwapKeepsBound(before, s, t, rest, id);
      BoundNext(Run(h[..|h| - 1]), last, id);
      BoundNext(Run(g[..|g| - 1]), last, id);
    } else {
      assert h == before + [s] + [t] && g == before + [t] + [s];
      Snoc(before, s);
      Snoc(before + [s], t);
      Snoc(before, t);
      Snoc(before + [t], s);
      BoundNext(Run(before), s, id);
      BoundNext(Run(before), t, id);
      BoundNext(Run(before + [s]), t, id);
      BoundNext(Run(before + [t]), s, id);
    }
  }

  /** Exchanging neighbours keeps ids fresh and names in place: both depend on which binds there are. */
  lemma {:induction false} SwapStaysFresh(before: seq<Step>, s: Step, t: Step, after: seq<Step>)
    requires Fresh(before + [s, t] + after)
    ensures Fresh(before + [t, s] + after)
  {
    var h, g := before + [s, t] + after, before + [t, s] + after;
    if after != [] {
      var rest, last := after[..|after| - 1], after[|after| - 1];
      assert h[..|h| - 1] == before + [s, t] + rest && g[..|g| - 1] == before + [t, s] + rest;
      SwapStaysFresh(before, s, t, rest);
      if last.Bind? { SwapKeepsBound(before, s, t, rest, last.id); }
    } else {
      assert h == before + [s] + [t] && g == before + [t] + [s];
      Snoc(before, s);
      Snoc(before + [s], t);
      Snoc(before, t);
      Snoc(before + [t], s);
      if t.Bind? { BoundNext(Run(before), s, t.id); }
      if s.Bind? { BoundNext(Run(before), t, s.id); }
    }
  }

  lemma BoundNext(b: Board, s: Step, id: nat)
    ensures Bound(Apply(b, s).log, id) <==> Bound(b.log, id) || (s.Bind? && s.id == id)
  {
    var log := Apply(b, s).log;
    if Bound(b.log, id) {
      var k :| 0 <= k < |b.log| && b.log[k].id == id;
      assert log[k].id == id;
    }
    if s.Bind? && s.id == id {
      assert log[|b.log|].id == id;
    }
  }

  /** The name of an id is the name of its bind step. */
  lemma NameIsOfBinding(h: seq<Step>, id: nat, name: string)
    requires Fresh(h)
    ensures NameOf(Run(h).log, id) == Some(name) <==> Bind(id, name) in h
  {
    var log := Run(h).log;
    FreshIsDistinct(h);
    if NameOf(log, id) == Some(name) {
      var k := SlotIsBound(log, {}, id);
      LogIsBindings(h, k);
      var s :| s in h && s.Bind? && s.name == name && s.id == id;
      assert s == Bind(id, name);
    }
    if Bind(id, name) in h {
      BoundByBinding(h, Bind(id, name));
      var k :| 0 <= k < |log| && log[k].id == id;
      LookupAt(log, {}, k);
      LogIsBindings(h, k);
      var s :| s in h && s.Bind? && s.name == log[k].name && s.id == id;
      BindingIsUnique(h, s, Bind(id, name));
    }
  }

  /**
   Two neighbouring steps of which at most one concerns the name of a subscription may be
   exchanged anywhere in a history: what the subscription receives as an event, what it is given as
   a message and whether it is resolved stay the same.
   */
  lemma StepsOnDifferentNamesCommute(before: seq<Step>, s: Step, t: Step, after: seq<Step>, name: string, id: nat)
    requires Fresh(before + [s, t] + after) && NameOf(Run(before + [s, t] + after).log, id) == Some(name)
    requires var ids := IdsOf(before + [s, t] + after, name);
             !(Concerns(s, name, ids) && Concerns(t, name, ids))
    ensures var h, g := before + [s, t] + after, before + [t, s] + after;
            && Fresh(g) && NameOf(Run(g).log, id) == Some(name)
            && Get(Run(h), id) == Get(Run(g), id)
            && Mailbox.Peek(Mailbox.MailRun(h), id) == Mailbox.Peek(Mailbox.MailRun(g), id)
            && (id in Mailbox.MailRun(h).resolved <==> id in Mailbox.MailRun(g).resolved)
  {
    hide Get, Filter, Mailbox.Peek, Mailbox.MailRun, Fresh, Run, Concerns, NameOf, IdsOf;
    var h, g := before + [s, t] + after, before + [t, s] + after;
    SwapStaysFresh(before, s, t, after);
    NameIsOfBinding(h, id, name);
    NameIsOfBinding(g, id, name);
    assert Bind(id, name) in h && (Bind(id, name) in g);
    SwapKeepsIds(before, s, t, after, name);
    SwapKeepsFilter(before, s, t, after, name, IdsOf(h, name));
    NamesAreIsolated(h, name, id);
    NamesAreIsolated(g, name, id);
    QueuesAreIsolated(h, name, id);
    QueuesAreIsolated(g, name, id);
    var ids := IdsOf(h, name);
    assert id in ids by { BoundIsListed(h, id, name); }
    assert Mailbox.MailRun(h).resolved * ids == Mailbox.MailRun(g).resolved * ids;
    assert id in Mailbox.MailRun(h).resolved * ids <==> id in Mailbox.MailRun(g).resolved * ids;
  }

  lemma BoundIsListed(h: seq<Step>, id: nat, name: string)
    requires Bind(id, name) in h
    ensures id in IdsOf(h, name)
  {
  }

  lemma SwapKeepsIds(before: seq<Step>, s: Step, t: Step, after: seq<Step>, name: string)
    ensures IdsOf(before + [s, t] + after, name) == IdsOf(before + [t, s] + after, name)
  {
    assert forall x :: x in before + [s, t] + after <==> x in before || x == s || x == t || x in after;
    assert forall x :: x in before + [t, s] + after <==> x in before || x == s || x == t || x in after;
  }

  lemma SwapKeepsFilter(before: seq<Step>, s: Step, t: Step, after: seq<Step>, name: string, ids: set<nat>)
    requires !(Concerns(s, name, ids) && Concerns(t, name, ids))
    ensures Filter(before + [s, t] + after, name, ids) == Filter(before + [t, s] + after, name, ids)
  {
    FilterConcat(before + [s, t], after, name, ids);
    FilterConcat(before + [t, s], after, name, ids);
    FilterConcat(before, [s, t], name, ids);
    FilterConcat(before, [t, s], name, ids);
    assert [s, t][..1] == [s] && [t, s][..1] == [t];
    assert [s][..0] == [] && [t][..0] == [];
  }
}
