/**
 Tokens, schedule ids, completion results and wakers of one replay context. A token is handed out
 when work is scheduled; the replay engine binds it to a schedule id; completions arrive for
 schedule ids and wake the token's last waker.
 */
module TokenTable {
  import opened Common

  /** What kind of scheduled work a durable future stands for. */
  datatype Kind = Activity | Timer | ExternalWait | QueueDequeue | SubOrchestration(subToken: nat)

  datatype Completion =
    | ActivityOk(text: string)
    | ActivityErr(text: string)
    | TimerFired
    | SubOrchOk(text: string)
    | SubOrchErr(text: string)
    | ExternalData(text: string)

  /** Two wakers with the same target wake the same task; handles tell clones apart. */
  datatype Waker = Waker(target: nat, handle: nat)

  predicate WillWake(a: Waker, b: Waker) {
    a.target == b.target
  }

  datatype Table = Table(
    bindings: map<nat, nat>,
    owners: map<nat, nat>,
    results: map<nat, Completion>,
    wakers: map<nat, Waker>)

  const EMPTY_TABLE := Table(map[], map[], map[], map[])

  /** Events and messages are looked up by their own matching, not among the completion results. */
  predicate IsEvent(kind: Kind) {
    kind.ExternalWait? || kind.QueueDequeue?
  }

  /** A completion of the wrong type leaves the future waiting. */
  predicate Accepts(kind: Kind, c: Completion) {
    match kind
    case Activity => c.ActivityOk? || c.ActivityErr?
    case Timer => c.TimerFired?
    case SubOrchestration(_) => c.SubOrchOk? || c.SubOrchErr?
    case ExternalWait => false
    case QueueDequeue => false
  }

  /** Whether a poll is answered; arrived says whether a lookup of the event or message found it. */
  predicate Ready(t: Table, token: nat, kind: Kind, arrived: bool) {
    if IsEvent(kind) then arrived else token in t.results && Accepts(kind, t.results[token])
  }

  // ---------------------------------------------------------------- operations

  function BindToken(t: Table, token: nat, id: nat): Table {
    var owners := if token in t.bindings then t.owners - {t.bindings[token]} else t.owners;
    t.(bindings := t.bindings[token := id], owners := owners[id := token])
  }

  function DeliverResult(t: Table, id: nat, c: Completion): (Table, Option<Waker>) {
    if id in t.owners then
      var token := t.owners[id];
      (t.(results := t.results[token := c], wakers := t.wakers - {token}), Lookup(t.wakers, token))
    else (t, None)
  }

  /** An existing waker that would wake the same task is kept. */
  function RegisterWaker(t: Table, token: nat, w: Waker): Table {
    if token in t.wakers && WillWake(t.wakers[token], w) then t
    else t.(wakers := t.wakers[token := w])
  }

  function ClearWaker(t: Table, token: nat): Table {
    t.(wakers := t.wakers - {token})
  }

  /** One poll of a future: ready clears the waker, pending registers it. */
  function PollToken(t: Table, token: nat, kind: Kind, arrived: bool, w: Waker): Table {
    if Ready(t, token, kind, arrived) then ClearWaker(t, token) else RegisterWaker(t, token, w)
  }

  // ---------------------------------------------------------------- inverse maps

  ghost predicate Inverse(t: Table) {
    && (forall token :: token in t.bindings ==> t.bindings[token] in t.owners && t.owners[t.bindings[token]] == token)
    && (forall id :: id in t.owners ==> t.owners[id] in t.bindings && t.bindings[t.owners[id]] == id)
  }

  /** Binding keeps the two maps inverse exactly when no other token owns the schedule id. */
  lemma BindKeepsInverse(t: Table, token: nat, id: nat)
    requires Inverse(t)
    ensures Inverse(BindToken(t, token, id)) <==> id !in t.owners || t.owners[id] == token
  {
    var t' := BindToken(t, token, id);
    if id in t.owners && t.owners[id] != token {
      var other := t.owners[id];
      assert other in t'.bindings && t'.bindings[other] == id && t'.owners[id] == token;
    }
  }

  // ---------------------------------------------------------------- runs and their meaning

  datatype Step =
    | Bind(token: nat, id: nat)
    | Deliver(id: nat, result: Completion)
    | Poll(token: nat, kind: Kind, arrived: bool, waker: Waker)
    | Drop(token: nat)

  function Apply(t: Table, s: Step): Table {
    match s
    case Bind(token, id) => BindToken(t, token, id)
    case Deliver(id, c) => DeliverResult(t, id, c).0
    case Poll(token, kind, arrived, w) => PollToken(t, token, kind, arrived, w)
    case Drop(token) => ClearWaker(t, token)
  }

  function Run(h: seq<Step>): Table {
    if h == [] then EMPTY_TABLE else Apply(Run(h[..|h| - 1]), h[|h| - 1])
  }

  /** No schedule id is bound while another binding still uses it. */
  predicate Fresh(h: seq<Step>) {
    h == []
    || (Fresh(h[..|h| - 1]) && (h[|h| - 1].Bind? ==> h[|h| - 1].id !in Run(h[..|h| - 1]).owners))
  }

  /** The schedule id a token is bound to: its last binding in the history. */
  function BoundId(h: seq<Step>, token: nat): Option<nat> {
    if h == [] then None
    else if h[|h| - 1].Bind? && h[|h| - 1].token == token then Some(h[|h| - 1].id)
    else BoundId(h[..|h| - 1], token)
  }

  predicate Completes(h: seq<Step>, s: Step, token: nat) {
    s.Deliver? && BoundId(h, token) == Some(s.id)
  }

  /** The last completion delivered for the schedule id the token was bound to at that moment. */
  function ResultOf(h: seq<Step>, token: nat): Option<Completion> {
    if h == [] then None
    else if Completes(h[..|h| - 1], h[|h| - 1], token) then Some(h[|h| - 1].result)
    else ResultOf(h[..|h| - 1], token)
  }

  predicate Pending(h: seq<Step>, token: nat, kind: Kind, arrived: bool) {
    if IsEvent(kind) then !arrived else ResultOf(h, token).None? || !Accepts(kind, ResultOf(h, token).value)
  }

  /** The waker of the token's last pending poll, unless it was used up or dropped since. */
  function WakerOf(h: seq<Step>, token: nat): Option<Waker> {
    if h == [] then None
    else
      var g, s := h[..|h| - 1], h[|h| - 1];
      if s.Poll? && s.token == token then (if Pending(g, token, s.kind, s.arrived) then Some(s.waker) else None)
      else if (s.Drop? && s.token == token) || Completes(g, s, token) then None
      else WakerOf(g, token)
  }

  predicate SameWake(a: Option<Waker>, b: Option<Waker>) {
    (a.Some? <==> b.Some?) && (a.Some? ==> a.value.target == b.value.target)
  }

  /**
   Over every run that binds fresh schedule ids the tables are what the history says, for every
   token: its binding is the last one, its result is the last completion delivered for the
   schedule id bound at that moment, and its waker is that of its last pending poll, up to
   wakers of the same task. The two binding maps stay inverse.
   */
  lemma {:induction false} RunMatchesHistory(h: seq<Step>)
    requires Fresh(h)
    ensures Inverse(Run(h))
    ensures forall token :: Lookup(Run(h).bindings, token) == BoundId(h, token)
    ensures forall token :: Lookup(Run(h).results, token) == ResultOf(h, token)
    ensures forall token :: SameWake(Lookup(Run(h).wakers, token), WakerOf(h, token))
  {
    if h != [] {
      var g, s := h[..|h| - 1], h[|h| - 1];
      RunMatchesHistory(g);
      var t := Run(g);
      if s.Bind? { BindKeepsInverse(t, s.token, s.id); }
      forall token
        ensures Lookup(Run(h).bindings, token) == BoundId(h, token)
        ensures Lookup(Run(h).results, token) == ResultOf(h, token)
        ensures SameWake(Lookup(Run(h).wakers, token), WakerOf(h, token))
      {
        assert h == g + [s] && Matches(g, token);
        OneStepMatches(g, s, token);
      }
    }
  }

  /** The tables are what the history says, as far as one token goes. */
  ghost predicate Matches(h: seq<Step>, token: nat) {
    && Lookup(Run(h).bindings, token) == BoundId(h, token)
    && Lookup(Run(h).results, token) == ResultOf(h, token)
    && SameWake(Lookup(Run(h).wakers, token), WakerOf(h, token))
  }

  lemma OneStepMatches(g: seq<Step>, s: Step, token: nat)
    requires Inverse(Run(g)) && Matches(g, token)
    ensures Matches(g + [s], token)
  {
    assert (g + [s])[..|g + [s]| - 1] == g;
    hide Inverse, Accepts;
    match s
    case Deliver(id, c) => OwnerIsBound(Run(g), token, id);
    case Bind(_, _) =>
    case Poll(_, _, _, _) => PollMatches(g, s, token);
    case Drop(_) =>
  }

  lemma PollMatches(g: seq<Step>, s: Step, token: nat)
    requires s.Poll? && Matches(g, token)
    ensures Matches(g + [s], token)
  {
    assert (g + [s])[..|g + [s]| - 1] == g;
    hide Accepts;
  }

  lemma OwnerIsBound(t: Table, token: nat, id: nat)
    requires Inverse(t)
    ensures Lookup(t.bindings, token) == Some(id) <==> Lookup(t.owners, id) == Some(token)
  {
  }

  /** What a delivery wakes: the waker of the owning token's last pending poll, or nothing. */
  lemma DeliveryWakes(h: seq<Step>, id: nat, c: Completion)
    requires Fresh(h)
    ensures var wake := DeliverResult(Run(h), id, c).1;
            && (forall token :: BoundId(h, token) == Some(id) ==> SameWake(wake, WakerOf(h, token)))
            && ((forall token :: BoundId(h, token) != Some(id)) ==>
                 wake == None && DeliverResult(Run(h), id, c).0 == Run(h))
  {
    RunMatchesHistory(h);
    var t := Run(h);
    forall token ensures BoundId(h, token) == Some(id) <==> id in t.owners && t.owners[id] == token {
      assert Lookup(t.bindings, token) == BoundId(h, token);
    }
  }

  /** No step in the stretch touches the token: no poll, drop, rebinding or completion of it. */
  predicate Quiet(mid: seq<Step>, token: nat, id: nat) {
    forall s :: s in mid ==>
      match s
      case Bind(t, _) => t != token
      case Deliver(i, _) => i != id
      case Poll(t, _, _, _) => t != token
      case Drop(t) => t != token
  }

  lemma {:induction false} QuietKeeps(g: seq<Step>, mid: seq<Step>, token: nat, id: nat)
    requires Quiet(mid, token, id) && BoundId(g, token) == Some(id)
    ensures BoundId(g + mid, token) == Some(id)
    ensures WakerOf(g + mid, token) == WakerOf(g, token)
    ensures ResultOf(g + mid, token) == ResultOf(g, token)
  {
    if mid == [] {
      assert g + mid == g;
    } else {
      var rest, last := mid[..|mid| - 1], mid[|mid| - 1];
      assert (g + mid)[..|g + mid| - 1] == g + rest;
      assert last in mid && forall s :: s in rest ==> s in mid;
      QuietKeeps(g, rest, token, id);
    }
  }

  lemma SnocFacts(h: seq<Step>, s: Step, token: nat)
    ensures WakerOf(h + [s], token)
         == (if s.Poll? && s.token == token then (if Pending(h, token, s.kind, s.arrived) then Some(s.waker) else None)
             else if (s.Drop? && s.token == token) || Completes(h, s, token) then None
             else WakerOf(h, token))
    ensures BoundId(h + [s], token) == if s.Bind? && s.token == token then Some(s.id) else BoundId(h, token)
  {
    assert (h + [s])[..|h + [s]| - 1] == h;
  }

  /**
   No wakeup is lost or doubled. A bound token is polled pending with waker w; whatever happens to
   others meanwhile, the next completion of its schedule id wakes w's task; and a further
   completion without a new poll wakes nobody.
   */
  lemma WokenExactlyOnce(g: seq<Step>, token: nat, id: nat, kind: Kind, arrived: bool, w: Waker,
                         mid: seq<Step>, c: Completion, later: seq<Step>, d: Completion)
    requires BoundId(g, token) == Some(id) && Pending(g, token, kind, arrived)
    requires Quiet(mid, token, id) && Quiet(later, token, id)
    requires var first := g + [Poll(token, kind, arrived, w)] + mid;
             Fresh(first) && Fresh(first + [Deliver(id, c)] + later)
    ensures var first := g + [Poll(token, kind, arrived, w)] + mid;
            SameWake(DeliverResult(Run(first), id, c).1, Some(w))
            && DeliverResult(Run(first + [Deliver(id, c)] + later), id, d).1 == None
  {
    SnocFacts(g, Poll(token, kind, arrived, w), token);
    var polled := g + [Poll(token, kind, arrived, w)];
    QuietKeeps(polled, mid, token, id);
    var first := polled + mid;
    DeliveryWakes(first, id, c);
    SnocFacts(first, Deliver(id, c), token);
    var second := first + [Deliver(id, c)];
    QuietKeeps(second, later, token, id);
    DeliveryWakes(second + later, id, d);
  }

  /** The last poll of the token was answered. */
  predicate Answered(h: seq<Step>, token: nat) {
    h != []
    && var g, s := h[..|h| - 1], h[|h| - 1];
       if s.Poll? && s.token == token then !Pending(g, token, s.kind, s.arrived) else Answered(g, token)
  }

  /**
   No run leaves a waker behind for a future that has been answered: from a ready poll on, of
   whatever kind, there is none until a later poll is pending again.
   */
  lemma {:induction false} AnsweredHasNoWaker(h: seq<Step>, token: nat)
    requires Fresh(h) && Answered(h, token)
    ensures token !in Run(h).wakers
  {
    AnsweredMeansNone(h, token);
    RunMatchesHistory(h);
    assert SameWake(Lookup(Run(h).wakers, token), WakerOf(h, token));
  }

  lemma {:induction false} AnsweredMeansNone(h: seq<Step>, token: nat)
    requires Answered(h, token)
    ensures WakerOf(h, token) == None
  {
    var g, s := h[..|h| - 1], h[|h| - 1];
    if !(s.Poll? && s.token == token) {
      AnsweredMeansNone(g, token);
    }
  }

  /**
   What answers a poll, kind by kind: an activity either of its two results, a sub-orchestration
   either of its own two, a timer its firing, an external wait the event, a dequeue the message. A
   result of another kind leaves the poll pending: it answers nobody and the waker stays.
   */
  lemma PollIsAnsweredIff(h: seq<Step>, token: nat, kind: Kind, arrived: bool, w: Waker)
    requires Fresh(h)
    ensures token !in Run(h + [Poll(token, kind, arrived, w)]).wakers
            <==> match kind
                 case Activity => ResultOf(h, token).Some?
                                  && (ResultOf(h, token).value.ActivityOk? || ResultOf(h, token).value.ActivityErr?)
                 case Timer => ResultOf(h, token) == Some(TimerFired)
                 case SubOrchestration(_) => ResultOf(h, token).Some?
                                             && (ResultOf(h, token).value.SubOrchOk?
                                                 || ResultOf(h, token).value.SubOrchErr?)
                 case ExternalWait => arrived
                 case QueueDequeue => arrived
  {
    FreshPoll(h, token, kind, arrived, w);
    hide Run, Fresh, WakerOf, ResultOf, BoundId, Inverse;
    var polled := h + [Poll(token, kind, arrived, w)];
    SnocFacts(h, Poll(token, kind, arrived, w), token);
    RunMatchesHistory(polled);
    assert SameWake(Lookup(Run(polled).wakers, token), WakerOf(polled, token));
  }

  lemma FreshPoll(h: seq<Step>, token: nat, kind: Kind, arrived: bool, w: Waker)
    requires Fresh(h)
    ensures Fresh(h + [Poll(token, kind, arrived, w)])
  {
    var polled := h + [Poll(token, kind, arrived, w)];
    assert polled[..|polled| - 1] == h;
  }
}
