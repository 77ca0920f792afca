/**
 Fencing and mutual exclusion of the instance locks, in every reachable state: which tokens can
 still ack, abandon or renew, and what a rejected call leaves behind.
 */
module ProviderFencing {
  import opened Common
  import opened ProviderDb
  import opened ProviderFrames

  /** A token that was handed out and can no longer ack. */
  ghost predicate Dead(db: Db, token: nat) {
    token < db.nextToken && !Live(db, token)
  }

  /** What ends the hold of a live token on its instance. */
  ghost predicate Releases(db: Db, op: Op, i: string, token: nat)
    requires Holds(db, i, token)
  {
    match op
    case OpAck(t, args) => t == token && AckAccepted(db, t, args)
    case OpAbandon(t, _, _) => t == token
    case OpRenew(t, extend) => t == token && extend == 0
    case OpDelete(ids, force) => i in ids && DeleteAccepted(db, ids, force)
    case OpTick(duration) => db.locks[i].until <= db.now + duration
    case _ => false
  }

  // ---------------------------------------------------------------- one step

  ghost predicate SameLocks(db: Db, after: Db) {
    after.locks == db.locks && after.now == db.now && db.nextToken <= after.nextToken
  }

  /** The operations that leave every instance lock alone. */
  lemma LocksUntouched(db: Db, op: Op)
    requires !op.OpFetch? && !op.OpRenew? && !op.OpAck? && !op.OpAbandon? && !op.OpDelete? && !op.OpTick?
    ensures SameLocks(db, Step(db, op))
  {
    StepFrame(db, op);
  }

  lemma FetchLocks(db: Db, i: string, timeout: nat)
    ensures var after := FetchOrchestration(db, i, timeout).0;
            && (forall j :: j != i ==> (j in after.locks <==> j in db.locks))
            && (forall j :: j != i && j in db.locks ==> after.locks[j] == db.locks[j])
            && (i in after.locks && after.locks != db.locks ==> after.locks[i].token == db.nextToken)
            && (after.locks != db.locks ==> Available(db, i) && after.nextToken == db.nextToken + 1)
            && after.now == db.now && db.nextToken <= after.nextToken
  {
    hide HasContext, OnlyQueueMessages, Batch, Tagged;
  }

  /** A live token stays live until it is released, and not a step longer. */
  lemma LiveUntilReleased(db: Db, op: Op, i: string, token: nat)
    requires WellFormed(db) && Holds(db, i, token) && db.locks[i].until > db.now
    ensures Live(Step(db, op), token) <==> !Releases(db, op, i, token)
  {
    HolderIsUnique(db, i, token);
    var after := Step(db, op);
    match op
    case OpFetch(j, timeout) =>
      FetchLocks(db, j, timeout);
      assert Holds(after, i, token);
    case OpAck(t, args) => AckLocks(db, t, args, i, token);
    case OpRenew(t, extend) => RenewLocks(db, t, extend, i, token);
    case OpAbandon(t, delay, ignore) => AbandonLocks(db, t, delay, ignore, i, token);
    case OpDelete(ids, force) => DeleteLocks(db, ids, force, i, token);
    case OpTick(duration) => TickLocks(db, duration, i, token);
    case _ =>
      LocksUntouched(db, op);
      assert Holds(after, i, token);
  }

  lemma AckLocks(db: Db, t: nat, args: AckArgs, i: string, token: nat)
    requires WellFormed(db) && Holds(db, i, token) && db.locks[i].until > db.now
    ensures Live(AckOrchestration(db, t, args).0, token) <==> !(t == token && AckAccepted(db, t, args))
  {
    HolderIsUnique(db, i, token);
    var after := AckOrchestration(db, t, args).0;
    if AckAccepted(db, t, args) {
      var j := HolderOf(db, t).value;
      assert after.locks == db.locks - {j} && after.now == db.now;
      if t == token {
        assert i == j;
        assert forall k :: k in after.locks ==> !Holds(db, k, token);
      } else {
        assert Holds(after, i, token);
      }
    }
  }

  lemma RenewLocks(db: Db, t: nat, extend: nat, i: string, token: nat)
    requires WellFormed(db) && Holds(db, i, token) && db.locks[i].until > db.now
    ensures Live(RenewOrchestration(db, t, extend).0, token) <==> !(t == token && extend == 0)
  {
    hide RowTokensOk, MsgIdsOk, RowIdsOk, ForestOk;
    HolderIsUnique(db, i, token);
    var after := RenewOrchestration(db, t, extend).0;
    if Live(db, t) && HolderOf(db, t).Some? {
      var j := HolderOf(db, t).value;
      assert Holds(db, j, t);
      assert after.locks == db.locks[j := Lock(t, db.now + extend)];
    }
    assert Holds(after, i, token);
    assert forall k :: Holds(after, k, token) ==> k == i;
  }

  lemma AbandonLocks(db: Db, t: nat, delay: Option<nat>, ignore: bool, i: string, token: nat)
    requires WellFormed(db) && Holds(db, i, token) && db.locks[i].until > db.now
    ensures Live(AbandonOrchestration(db, t, delay, ignore).0, token) <==> t != token
  {
    HolderIsUnique(db, i, token);
    var after := AbandonOrchestration(db, t, delay, ignore).0;
    if t == token {
      assert after.locks == db.locks - {i};
      assert forall k :: k in after.locks ==> !Holds(db, k, token);
    } else {
      assert Holds(after, i, token);
    }
  }

  lemma DeleteLocks(db: Db, ids: set<string>, force: bool, i: string, token: nat)
    requires WellFormed(db) && Holds(db, i, token) && db.locks[i].until > db.now
    ensures Live(DeleteInstances(db, ids, force).0, token) <==> !(i in ids && DeleteAccepted(db, ids, force))
  {
    var after := DeleteInstances(db, ids, force).0;
    if DeleteAccepted(db, ids, force) && i in ids {
      assert forall k :: k in after.locks ==> !Holds(db, k, token);
    } else {
      assert Holds(after, i, token);
    }
  }

  lemma TickLocks(db: Db, duration: nat, i: string, token: nat)
    requires WellFormed(db) && Holds(db, i, token) && db.locks[i].until > db.now
    ensures Live(db.(now := db.now + duration), token) <==> db.locks[i].until > db.now + duration
  {
    var after := db.(now := db.now + duration);
    assert Holds(after, i, token);
    assert forall k :: Holds(after, k, token) ==> Holds(db, k, token);
  }

  /** Every lock that carries the token was there before, and time did not run backwards. */
  ghost predicate NoNewHold(db: Db, after: Db, token: nat) {
    && db.now <= after.now && db.nextToken <= after.nextToken
    && forall k :: Holds(after, k, token) ==> k in db.locks && after.locks[k] == db.locks[k]
  }

  lemma StillDead(db: Db, after: Db, token: nat)
    requires Dead(db, token) && NoNewHold(db, after, token)
    ensures Dead(after, token)
  {
    assert forall k :: Holds(after, k, token) ==> Holds(db, k, token);
  }

  lemma FetchMakesNoHold(db: Db, i: string, timeout: nat, token: nat)
    requires token < db.nextToken
    ensures NoNewHold(db, FetchOrchestration(db, i, timeout).0, token)
  {
    FetchLocks(db, i, timeout);
  }

  lemma RenewMakesNoHold(db: Db, t: nat, extend: nat, token: nat)
    requires WellFormed(db) && Dead(db, token)
    ensures NoNewHold(db, RenewOrchestration(db, t, extend).0, token)
  {
    if Live(db, t) {
      var i :| i in db.locks && Holds(db, i, t) && db.locks[i].until > db.now;
      HolderIsUnique(db, i, t);
    }
  }

  lemma AckMakesNoHold(db: Db, t: nat, args: AckArgs, token: nat)
    ensures NoNewHold(db, AckOrchestration(db, t, args).0, token)
  {
  }

  lemma AbandonMakesNoHold(db: Db, t: nat, delay: Option<nat>, ignore: bool, token: nat)
    ensures NoNewHold(db, AbandonOrchestration(db, t, delay, ignore).0, token)
  {
  }

  lemma DeleteMakesNoHold(db: Db, ids: set<string>, force: bool, token: nat)
    ensures NoNewHold(db, DeleteInstances(db, ids, force).0, token)
  {
  }

  lemma TickMakesNoHold(db: Db, duration: nat, token: nat)
    ensures NoNewHold(db, Step(db, OpTick(duration)), token)
  {
  }

  /** Nothing revives a dead token: fetches hand out new ones and only a live token can renew. */
  lemma DeadStaysDead(db: Db, op: Op, token: nat)
    requires WellFormed(db) && Dead(db, token)
    ensures Dead(Step(db, op), token)
  {
    match op {
      case OpFetch(i, timeout) => FetchMakesNoHold(db, i, timeout, token);
      case OpRenew(t, extend) => RenewMakesNoHold(db, t, extend, token);
      case OpAck(t, args) => AckMakesNoHold(db, t, args, token);
      case OpAbandon(t, delay, ignore) => AbandonMakesNoHold(db, t, delay, ignore, token);
      case OpDelete(ids, force) => DeleteMakesNoHold(db, ids, force, token);
      case OpTick(duration) => TickMakesNoHold(db, duration, token);
      case _ => LocksUntouched(db, op);
    }
    StillDead(db, Step(db, op), token);
  }

  /** A dead token is refused by ack and by renew, and the refusal changes nothing at all. */
  lemma DeadIsRefused(db: Db, token: nat, args: AckArgs, extend: nat)
    requires !Live(db, token)
    ensures AckOrchestration(db, token, args) == (db, false)
    ensures RenewOrchestration(db, token, extend) == (db, false)
  {
  }

  // ---------------------------------------------------------------- whole runs

  lemma {:induction false} DeadForever(ops: seq<Op>, k: nat, n: nat, token: nat)
    requires k <= n <= |ops| && Dead(At(ops, k), token)
    ensures Dead(At(ops, n), token)
  {
    if k < n {
      DeadForever(ops, k, n - 1, token);
      ReachableIsWellFormed(ops, n - 1);
      DeadStaysDead(At(ops, n - 1), ops[n - 1], token);
    }
  }

  ghost predicate AckSucceeds(ops: seq<Op>, k: nat, token: nat)
    requires k < |ops|
  {
    ops[k].OpAck? && ops[k].token == token && AckAccepted(At(ops, k), token, ops[k].args)
  }

  /** The step is a fetch that returned this instance under this token. */
  ghost predicate FetchReturns(ops: seq<Op>, k: nat, i: string, token: nat, batch: set<nat>)
    requires k < |ops|
  {
    ops[k].OpFetch? && ops[k].instance == i
    && FetchOrchestration(At(ops, k), i, ops[k].timeout).1 == Fetched(token, batch)
  }

  lemma AckKillsItsToken(db: Db, token: nat, args: AckArgs)
    requires WellFormed(db) && AckAccepted(db, token, args)
    ensures Dead(Step(db, OpAck(token, args)), token)
  {
    var i :| i in db.locks && Holds(db, i, token) && db.locks[i].until > db.now;
    LiveUntilReleased(db, OpAck(token, args), i, token);
  }

  /** In every run a token acks successfully at most once. */
  lemma OneAckPerToken(ops: seq<Op>, j: nat, k: nat, token: nat)
    requires j < |ops| && k < |ops| && AckSucceeds(ops, j, token) && AckSucceeds(ops, k, token)
    ensures j == k
  {
    if j < k {
      ReachableIsWellFormed(ops, j);
      AckKillsItsToken(At(ops, j), token, ops[j].args);
      DeadForever(ops, j + 1, k, token);
    } else if k < j {
      OneAckPerToken(ops, k, j, token);
    }
  }

  /** A returned fetch holds a token nobody had before, live exactly when its timeout is not zero. */
  lemma FetchGivesFreshToken(db: Db, i: string, timeout: nat, token: nat, batch: set<nat>)
    requires WellFormed(db) && FetchOrchestration(db, i, timeout).1 == Fetched(token, batch)
    ensures token == db.nextToken && !Live(db, token) && forall j :: !Holds(db, j, token)
    ensures Holds(FetchOrchestration(db, i, timeout).0, i, token)
    ensures Live(FetchOrchestration(db, i, timeout).0, token) <==> timeout > 0
    ensures forall t :: Holds(db, i, t) ==> !Live(db, t)
  {
    var after := FetchOrchestration(db, i, timeout).0;
    assert after.locks == db.locks[i := Lock(token, db.now + timeout)];
    assert forall k :: Holds(after, k, token) ==> k == i;
    assert Holds(after, i, token);
  }

  /** While an instance is locked no fetch returns it: the lock gives exclusion. */
  lemma LockedIsNotFetched(db: Db, i: string, timeout: nat)
    requires i in db.locks && Live(db, db.locks[i].token) && WellFormed(db)
    ensures FetchOrchestration(db, i, timeout) == (db, NothingFetched)
  {
  }

  /**
   Between two fetches of the same instance the first token dies: from the second fetch on, the
   first holder can neither ack nor renew, and its attempts change nothing.
   */
  lemma SecondFetchFencesTheFirst(ops: seq<Op>, f: nat, g: nat, h: nat, i: string,
                                  token: nat, batch: set<nat>, token': nat, batch': set<nat>,
                                  args: AckArgs, extend: nat)
    requires f < g <= h <= |ops| && g < |ops|
    requires FetchReturns(ops, f, i, token, batch) && FetchReturns(ops, g, i, token', batch')
    ensures token != token'
    ensures AckOrchestration(At(ops, h), token, args) == (At(ops, h), false)
    ensures RenewOrchestration(At(ops, h), token, extend) == (At(ops, h), false)
  {
    hide WellFormed, AckOrchestration, RenewOrchestration;
    ReachableIsWellFormed(ops, f);
    ReachableIsWellFormed(ops, g);
    FetchGivesFreshToken(At(ops, f), i, ops[f].timeout, token, batch);
    FetchGivesFreshToken(At(ops, g), i, ops[g].timeout, token', batch');
    TokenStaysWithInstance(ops, f + 1, g, i, token);
    DeadForever(ops, g, h, token);
    DeadIsRefused(At(ops, h), token, args, extend);
  }

  /** A token never moves to another instance. */
  lemma {:induction false} TokenStaysWithInstance(ops: seq<Op>, k: nat, n: nat, i: string, token: nat)
    requires k <= n <= |ops| && Holds(At(ops, k), i, token)
    ensures token < At(ops, n).nextToken && forall j :: Holds(At(ops, n), j, token) ==> j == i
  {
    ReachableIsWellFormed(ops, k);
    if k < n {
      TokenStaysWithInstance(ops, k, n - 1, i, token);
      HoldersComeFromBefore(At(ops, n - 1), ops[n - 1], token);
    }
  }

  lemma HoldersComeFromBefore(db: Db, op: Op, token: nat)
    requires token < db.nextToken
    ensures token < Step(db, op).nextToken && forall j :: Holds(Step(db, op), j, token) ==> Holds(db, j, token)
  {
    match op
    case OpFetch(j, timeout) => FetchLocks(db, j, timeout);
    case OpRenew(t, extend) =>
    case OpAck(t, args) => AckMakesNoHold(db, t, args, token);
    case OpAbandon(t, delay, ignore) => AbandonMakesNoHold(db, t, delay, ignore, token);
    case OpDelete(ids, force) => DeleteMakesNoHold(db, ids, force, token);
    case OpTick(duration) => TickMakesNoHold(db, duration, token);
    case _ => LocksUntouched(db, op);
  }

  /**
   An ack of an issued token succeeds only while the token has been live without a break since its
   fetch; otherwise the run goes on as if the ack had not been there.
   */
  lemma RefusedAckChangesNothing(ops: seq<Op>, k: nat, n: nat, token: nat)
    requires k <= n < |ops| && Dead(At(ops, k), token) && ops[n].OpAck? && ops[n].token == token
    ensures At(ops, n + 1) == At(ops, n)
  {
    DeadForever(ops, k, n, token);
    DeadIsRefused(At(ops, n), token, ops[n].args, 0);
  }

  /** Expiry alone is enough: a lock whose time has passed is dead even if nobody fetched again. */
  lemma ExpiredIsDead(db: Db, i: string, token: nat)
    requires WellFormed(db) && Holds(db, i, token)
    ensures Dead(db, token) <==> db.locks[i].until <= db.now
  {
    assert forall j :: Holds(db, j, token) ==> j == i;
  }

  /**
   Which calls of a holder are answered with success: a renewal while the lock has not run out, an abandon
   as long as nobody took the instance. Any other call changes nothing.
   */
  lemma HolderCallsSucceedIff(db: Db, token: nat, extend: nat, delay: Option<nat>, ignore: bool)
    requires WellFormed(db)
    ensures RenewOrchestration(db, token, extend).1
            <==> exists i :: Holds(db, i, token) && db.locks[i].until > db.now
    ensures AbandonOrchestration(db, token, delay, ignore).1 <==> exists i :: Holds(db, i, token)
    ensures !RenewOrchestration(db, token, extend).1 ==> RenewOrchestration(db, token, extend).0 == db
    ensures !AbandonOrchestration(db, token, delay, ignore).1 ==> AbandonOrchestration(db, token, delay, ignore).0 == db
  {
    forall i | Holds(db, i, token) ensures HolderOf(db, token) == Some(i) {
      HolderIsUnique(db, i, token);
    }
  }
}
