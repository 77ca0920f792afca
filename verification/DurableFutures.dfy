/**
 A durable future is a token, a kind and a flag, with a reference to the context it was scheduled
 in. Polling it looks the answer up in the context; dropping it may cancel the scheduled work.
 */
module DurableFutures {
  import opened Common
  import opened SubscriptionLog
  import opened TokenTable
  import opened ReplayContext
  import Cancellation

  /** What the orchestration is given for a completion: a value or an error; timers give no text. */
  function OutcomeOf(c: Completion): Result<string, string> {
    match c
    case ActivityOk(text) => Ok(text)
    case ActivityErr(text) => Err(text)
    case TimerFired => Ok("")
    case SubOrchOk(text) => Ok(text)
    case SubOrchErr(text) => Err(text)
    case ExternalData(text) => Ok(text)
  }

  function AsValue(data: Option<string>): Option<Result<string, string>> {
    if data.Some? then Some(Ok(data.value)) else None
  }

  /** The outcome an awaited activity, timer or sub-orchestration has for a completion result. */
  predicate Gives(kind: Kind, result: Option<Completion>, value: Option<Result<string, string>>) {
    match (kind, result)
    case (Activity, Some(ActivityOk(text))) => value == Some(Ok(text))
    case (Activity, Some(ActivityErr(text))) => value == Some(Err(text))
    case (Timer, Some(TimerFired)) => value == Some(Ok(""))
    case (SubOrchestration(_), Some(SubOrchOk(text))) => value == Some(Ok(text))
    case (SubOrchestration(_), Some(SubOrchErr(text))) => value == Some(Err(text))
    case _ => value == None
  }

  class DurableFuture {
    const token: nat
    const kind: Kind
    const ctx: CtxInner
    var completed: bool

    constructor (token: nat, kind: Kind, ctx: CtxInner)
      ensures this.token == token && this.kind == kind && this.ctx == ctx && !completed
    {
      this.token, this.kind, this.ctx, this.completed := token, kind, ctx, false;
    }

    /** This future as the only live one of the cancellation model. */
    ghost function World(): Cancellation.World
      reads this, ctx
    {
      ctx.Cancellations().(live := map[token := Cancellation.Future(kind, completed)])
    }

    /** What a poll finds: a completion of the right type, the arrived event, or the next message. */
    ghost function Answer(): Option<Result<string, string>>
      reads this, ctx
    {
      match kind
      case ExternalWait =>
        if token in ctx.tokenBindings then AsValue(Get(ctx.ExternalBoard(), ctx.tokenBindings[token])) else None
      case QueueDequeue =>
        if token in ctx.tokenBindings && ctx.tokenBindings[token] !in ctx.queueResolved
        then AsValue(Get(ctx.Mail().board, ctx.tokenBindings[token]))
        else None
      case _ =>
        if Ready(ctx.Table(), token, kind, false) then Some(OutcomeOf(ctx.completionResults[token])) else None
    }

    method PollInner() returns (value: Option<Result<string, string>>)
      requires ctx.ExternalsValid() && ctx.QueueValid()
      modifies ctx`queueResolved
      ensures value == old(Answer())
      ensures !kind.ExternalWait? && !kind.QueueDequeue? ==>
                Gives(kind, Lookup(ctx.completionResults, token), value)
      ensures ctx.queueResolved
           == old(ctx.queueResolved) + (if kind.QueueDequeue? && value.Some? then {ctx.tokenBindings[token]} else {})
    {
      match kind
      case ExternalWait =>
        value := None;
        if token in ctx.tokenBindings {
          var data := ctx.GetExternalEvent(ctx.tokenBindings[token]);
          value := AsValue(data);
        }
      case QueueDequeue =>
        value := None;
        if token in ctx.tokenBindings {
          var data := ctx.GetQueueMessage(ctx.tokenBindings[token]);
          value := AsValue(data);
        }
      case _ =>
        value := if token in ctx.completionResults && Accepts(kind, ctx.completionResults[token])
                 then Some(OutcomeOf(ctx.completionResults[token]))
                 else None;
    }

    /** A ready future is completed and gives up its waker. */
    method Finish()
      requires ctx.TokensValid()
      modifies this`completed, ctx`tokenWakers
      ensures ctx.TokensValid() && completed && ctx.Table() == ClearWaker(old(ctx.Table()), token)
      ensures World() == Cancellation.Apply(old(World()), Cancellation.Complete(token))
    {
      completed := true;
      ctx.ClearTokenWaker(token);
    }

    /**
     What a poll is answered in any run of bindings, deliveries, polls and drops that led to the
     context's tables: an activity its last completion, as a value or an error, and so on by kind.
     */
    lemma AnswerOfRun(h: seq<Step>)
      requires Fresh(h) && ctx.Table() == Run(h) && !kind.ExternalWait? && !kind.QueueDequeue?
      ensures Gives(kind, ResultOf(h, token), Answer())
    {
      RunMatchesHistory(h);
      assert Lookup(ctx.Table().results, token) == ResultOf(h, token);
    }

    /**
     One poll: a ready future completes and gives up its waker; a pending one registers the waker.
     A message is consumed only by the dequeue that returns it.
     */
    method Poll(waker: Waker) returns (value: Option<Result<string, string>>)
      requires ctx.TokensValid() && ctx.ExternalsValid() && ctx.QueueValid()
      modifies this`completed, ctx`tokenWakers, ctx`queueResolved
      ensures ctx.TokensValid()
      ensures value == old(Answer())
      ensures value.Some? ==> completed && ctx.Table() == ClearWaker(old(ctx.Table()), token)
      ensures value.Some? ==> World() == Cancellation.Apply(old(World()), Cancellation.Complete(token))
      ensures value.None? ==>
                completed == old(completed) && ctx.Table() == RegisterWaker(old(ctx.Table()), token, waker)
      ensures ctx.queueResolved
           == old(ctx.queueResolved) + (if kind.QueueDequeue? && value.Some? then {ctx.tokenBindings[token]} else {})
    {
      hide Get, CtxInner.ExternalsValid, CtxInner.QueueValid, CtxInner.TokensValid, ClearWaker, RegisterWaker, Ready,
           Cancellation.Apply;
      value := PollInner();
      if value.Some? {
        Finish();
      } else {
        ctx.RegisterTokenWaker(token, waker);
      }
    }

    /** Consumes the future; the wrapper keeps token and kind and starts as not completed. */
    method MapFuture() returns (mapped: DurableFuture)
      ensures fresh(mapped) && mapped.token == token && mapped.kind == kind && mapped.ctx == ctx
      ensures mapped.World() == Cancellation.Apply(World(), Cancellation.MapFuture(token))
    {
      mapped := new DurableFuture(token, kind, ctx);
    }

    /** Dropping gives up the waker and, unless the future completed, cancels its token. */
    method Drop()
      requires ctx.TokensValid() && ctx.CancelledValid()
      modifies ctx`tokenWakers, ctx`cancelledTokens, ctx`cancelledTokenKinds
      ensures ctx.TokensValid() && ctx.CancelledValid()
      ensures ctx.Cancellations() == Cancellation.Apply(old(World()), Cancellation.DropFuture(token))
      ensures token in ctx.cancelledTokens <==> !completed || token in old(ctx.cancelledTokens)
    {
      ctx.ClearTokenWaker(token);
      if !completed {
        ctx.MarkTokenCancelled(token, kind);
      }
      assert (map[token := Cancellation.Future(kind, completed)]) - {token} == map[];
    }

    /** Routing tags are for activities; on any other future, or a drained action, the program panics. */
    method WithTag(tag: string) returns (ok: bool)
      requires ctx.ActionsValid()
      modifies ctx`emittedActions
      ensures ctx.ActionsValid()
      ensures ok <==> kind.Activity? && exists i :: 0 <= i < |old(ctx.emittedActions)|
                                                    && IsActivityFor(old(ctx.emittedActions)[i], token)
      ensures ctx.emittedActions
           == if ok then Tagged(old(ctx.emittedActions), token, tag) else old(ctx.emittedActions)
      // Only the tag of the token's activity changes: name, input and session are as they were.
      ensures |ctx.emittedActions| == |old(ctx.emittedActions)|
      ensures ok ==> forall i :: 0 <= i < |ctx.emittedActions| ==>
                var before := old(ctx.emittedActions)[i];
                ctx.emittedActions[i]
                == match before.1
                   case CallActivity(name, input, session, _) =>
                     if before.0 == token then (token, CallActivity(name, input, session, Some(tag))) else before
                   case _ => before
    {
      if !kind.Activity? {
        return false;
      }
      ok := ctx.SetTag(token, tag);
    }
  }
}
