/**
 Instance trees and cascading deletion: which sets may be deleted, what a deletion leaves, and why
 an instance created again under the same id never meets anything of its earlier life.
 */
module ProviderInstances {
  import opened Common
  import opened ProviderDb
  import opened ProviderFrames
  import opened ProviderFencing
  import opened ProviderMessages
  import opened ProviderWorker

  // ---------------------------------------------------------------- trees

  /** i is root or a descendant of it, following parent links. */
  predicate Under(db: Db, root: string, i: string)
    decreases if i in db.instances then db.instances[i].created + 1 else 0
  {
    i == root
    || (i in db.instances && db.instances[i].parent.Some?
        && var p := db.instances[i].parent.value;
           (p in db.instances ==> db.instances[p].created < db.instances[i].created) && Under(db, root, p))
  }

  /** The instances in the tree of a root. */
  function Tree(db: Db, root: string): set<string> {
    set i | i in db.instances && Under(db, root, i)
  }

  predicate IsChild(db: Db, p: string, c: string) {
    c in db.instances && db.instances[c].parent == Some(p)
  }

  /** A set that contains every descendant of its members. */
  ghost predicate DescendantClosed(db: Db, ids: set<string>) {
    forall r :: r in ids ==> Tree(db, r) <= ids
  }

  lemma {:induction false} ChildClosedCovers(db: Db, ids: set<string>, r: string, i: string)
    requires !WouldOrphan(db, ids) && r in ids && Under(db, r, i)
    ensures i in ids || i !in db.instances
    decreases if i in db.instances then db.instances[i].created + 1 else 0
  {
    if i != r {
      var p := db.instances[i].parent.value;
      ChildClosedCovers(db, ids, r, p);
      if p !in db.instances {
        assert !Under(db, r, p) || p == r;
      }
    }
  }

  /**
   The check for orphans looks only at direct children, and yet it accepts exactly the sets that
   contain all descendants of their members.
   */
  lemma OrphanCheckIsDescendantClosure(db: Db, ids: set<string>)
    requires ForestOk(db)
    ensures !WouldOrphan(db, ids) <==> DescendantClosed(db, ids)
  {
    if !WouldOrphan(db, ids) {
      forall r, i | r in ids && i in Tree(db, r) ensures i in ids {
        ChildClosedCovers(db, ids, r, i);
      }
    }
    if WouldOrphan(db, ids) {
      var c :| c in db.instances && c !in ids && db.instances[c].parent.Some? && db.instances[c].parent.value in ids;
      var p := db.instances[c].parent.value;
      assert Under(db, p, p);
      assert c in Tree(db, p);
    }
  }

  lemma {:induction false} UnderIsTransitive(db: Db, a: string, b: string, c: string)
    requires Under(db, a, b) && Under(db, b, c)
    ensures Under(db, a, c)
    decreases if c in db.instances then db.instances[c].created + 1 else 0
  {
    if c != b {
      UnderIsTransitive(db, a, b, db.instances[c].parent.value);
    }
  }

  /** The tree of any instance passes the orphan check, so a forced delete of a tree always succeeds. */
  lemma TreeIsClosed(db: Db, root: string)
    requires ForestOk(db)
    ensures !WouldOrphan(db, Tree(db, root))
    ensures DeleteAccepted(db, Tree(db, root), true)
  {
    forall r, i | r in Tree(db, root) && i in Tree(db, r) ensures i in Tree(db, root) {
      UnderIsTransitive(db, root, r, i);
    }
    OrphanCheckIsDescendantClosure(db, Tree(db, root));
  }

  // ---------------------------------------------------------------- deletion

  /** No table mentions the instance as the owner of a record. */
  ghost predicate NoTrace(db: Db, i: string) {
    && i !in db.instances && i !in db.locks && i !in db.kv
    && (forall m :: m in db.oq ==> db.oq[m].instance != i)
    && (forall r :: r in db.wq ==> db.wq[r].key.instance != i)
    && (forall k :: k in db.executions ==> k.instance != i)
    && (forall k :: k in db.history ==> k.instance != i)
  }

  /** Everything the tables hold about the instance is the same. */
  ghost predicate SameTrace(a: Db, b: Db, i: string) {
    && Lookup(a.instances, i) == Lookup(b.instances, i)
    && Lookup(a.locks, i) == Lookup(b.locks, i)
    && Lookup(a.kv, i) == Lookup(b.kv, i)
    && (forall m :: m in a.oq && a.oq[m].instance == i ==> m in b.oq && b.oq[m] == a.oq[m])
    && (forall m :: m in b.oq && b.oq[m].instance == i ==> m in a.oq && b.oq[m] == a.oq[m])
    && (forall r :: r in a.wq && a.wq[r].key.instance == i ==> r in b.wq && b.wq[r] == a.wq[r])
    && (forall r :: r in b.wq && b.wq[r].key.instance == i ==> r in a.wq && b.wq[r] == a.wq[r])
    && (forall k: ExecutionKey :: k.instance == i ==> Lookup(a.executions, k) == Lookup(b.executions, k))
    && (forall k: EventKey :: k.instance == i ==> Lookup(a.history, k) == Lookup(b.history, k))
  }

  /** The status of the instance's current execution is running. */
  ghost predicate IsRunning(db: Db, i: string) {
    i in db.instances
    && var key := ExecutionKey(i, db.instances[i].current);
       exists row :: Lookup(db.executions, key) == Some(row) && row.status == Running
  }

  /**
   Deletion is all or nothing. It succeeds exactly on descendant-closed sets whose members are not
   running, unless forced; then nothing of the members is left and everything else is untouched.
   Otherwise no table changes.
   */
  lemma DeleteIsAllOrNothing(db: Db, ids: set<string>, force: bool)
    requires ForestOk(db)
    ensures var (after, ok) := DeleteInstances(db, ids, force);
            && (ok <==> DescendantClosed(db, ids) && (force || !exists i :: i in ids && IsRunning(db, i)))
            && (ok ==> forall i :: i in ids ==> NoTrace(after, i))
            && (ok ==> forall i :: i !in ids ==> SameTrace(db, after, i))
            && (!ok ==> after == db)
  {
    OrphanCheckIsDescendantClosure(db, ids);
    assert forall i :: IsRunning(db, i) <==> CurrentlyRunning(db, i);
    if DeleteAccepted(db, ids, force) {
      var after := WithoutInstances(db, ids);
      forall i | i !in ids ensures SameTrace(db, after, i) {
        OthersKeepTheirTrace(db, ids, i);
      }
    }
  }

  lemma OthersKeepTheirTrace(db: Db, ids: set<string>, i: string)
    requires i !in ids
    ensures SameTrace(db, WithoutInstances(db, ids), i)
  {
  }

  /** No run ever leaves an instance whose parent is missing, whatever was deleted in between. */
  lemma NoOrphanInAnyRun(ops: seq<Op>, n: nat, c: string)
    requires n <= |ops| && c in At(ops, n).instances && At(ops, n).instances[c].parent.Some?
    ensures At(ops, n).instances[c].parent.value in At(ops, n).instances
    ensures !Under(At(ops, n), c, At(ops, n).instances[c].parent.value)
  {
    ReachableIsWellFormed(ops, n);
    var db := At(ops, n);
    if Under(db, c, db.instances[c].parent.value) {
      UnderIsOlder(db, c, db.instances[c].parent.value);
    }
  }

  /** Descendants are younger, so parent links have no cycles. */
  lemma {:induction false} UnderIsOlder(db: Db, root: string, i: string)
    requires ForestOk(db) && root in db.instances && Under(db, root, i)
    ensures i in db.instances && (i == root || db.instances[root].created < db.instances[i].created)
    decreases if i in db.instances then db.instances[i].created + 1 else 0
  {
    if i != root {
      UnderIsOlder(db, root, db.instances[i].parent.value);
    }
  }

  // ---------------------------------------------------------------- life after deletion

  ghost predicate DeletedAt(ops: seq<Op>, d: nat, i: string)
    requires d < |ops|
  {
    ops[d].OpDelete? && i in ops[d].ids && DeleteAccepted(At(ops, d), ops[d].ids, ops[d].force)
  }

  /** Every queue record and lock of the instance is younger than the given counters. */
  ghost predicate YoungerThan(db: Db, i: string, past: Db) {
    && Advances(past, db)
    && (forall m :: m in db.oq && db.oq[m].instance == i ==> past.nextMsg <= m)
    && (forall r :: r in db.wq && db.wq[r].key.instance == i ==> past.nextRow <= r)
    && (i in db.locks ==> past.nextToken <= db.locks[i].token)
  }

  lemma StepKeepsYounger(db: Db, op: Op, i: string, past: Db)
    requires WellFormed(db) && YoungerThan(db, i, past)
    ensures YoungerThan(Step(db, op), i, past)
  {
    hide Step, Gone, RowGone, TagsFresh, WellFormed;
    var after := Step(db, op);
    StepFrame(db, op);
    WellFormedParts(db);
    StepEvolves(db, op);
    StepRows(db, op);
    if i in after.locks {
      assert Holds(after, i, after.locks[i].token);
      if after.locks[i].token < db.nextToken {
        HoldersComeFromBefore(db, op, after.locks[i].token);
      }
    }
  }

  lemma WellFormedParts(db: Db)
    requires WellFormed(db)
    ensures TokensOk(db) && IdsOk(db) && ForestOk(db)
  {
  }

  lemma DeletionLeavesNothing(ops: seq<Op>, d: nat, i: string)
    requires d < |ops| && DeletedAt(ops, d, i)
    ensures YoungerThan(At(ops, d + 1), i, At(ops, d))
  {
    StepFrame(At(ops, d), ops[d]);
  }

  lemma NextState(ops: seq<Op>, k: nat)
    requires k < |ops|
    ensures At(ops, k + 1) == Step(At(ops, k), ops[k])
  {
  }

  /** After its deletion an instance only ever has records that were made after it. */
  lemma {:induction false} NewLifeHasOnlyNewRecords(ops: seq<Op>, d: nat, n: nat, i: string)
    requires d < n <= |ops| && DeletedAt(ops, d, i)
    ensures YoungerThan(At(ops, n), i, At(ops, d))
  {
    if n == d + 1 {
      DeletionLeavesNothing(ops, d, i);
    } else {
      hide At, Step, YoungerThan, DeletedAt;
      NextState(ops, n - 1);
      NewLifeHasOnlyNewRecords(ops, d, n - 1, i);
      ReachableIsWellFormed(ops, n - 1);
      StepKeepsYounger(At(ops, n - 1), ops[n - 1], i, At(ops, d));
    }
  }

  /** Whatever activity of a deleted instance is completed later was enqueued after the deletion. */
  lemma NoCompletionFromAnEarlierLife(ops: seq<Op>, d: nat, j: nat, i: string, r: nat)
    requires d < j < |ops| && DeletedAt(ops, d, i)
    requires Completes(ops, j, r) && At(ops, j).wq[r].key.instance == i
    ensures At(ops, d).nextRow <= r && r !in At(ops, d).wq
  {
    NewLifeHasOnlyNewRecords(ops, d, j, i);
    ReachableIsWellFormed(ops, d);
  }

  /** The step that enqueued a message. */
  lemma {:induction false} EnqueuedAt(ops: seq<Op>, n: nat, m: nat) returns (o: nat)
    requires n <= |ops| && m in At(ops, n).oq
    ensures o < n && m !in At(ops, o).oq && m in At(ops, o + 1).oq
  {
    hide Step;
    if m in At(ops, n - 1).oq {
      o := EnqueuedAt(ops, n - 1, m);
    } else {
      o := n - 1;
    }
  }

  /** The worker reports the outcome to the instance whose activity it ran. */
  ghost predicate ReportsItsOwn(ops: seq<Op>, o: nat, r: nat)
    requires o < |ops| && Completes(ops, o, r)
  {
    ops[o].completion.Some? ==> ops[o].completion.value.instance == At(ops, o).wq[r].key.instance
  }

  /** The only message an ack of a work item adds is its completion. */
  lemma AddedByWorkAck(ops: seq<Op>, o: nat, m: nat) returns (r: nat)
    requires o < |ops| && ops[o].OpAckWork? && m !in At(ops, o).oq && m in At(ops, o + 1).oq
    ensures Completes(ops, o, r) && r in At(ops, o).wq && ops[o].completion.Some?
    ensures At(ops, o + 1).oq[m].item == ops[o].completion.value
    ensures At(ops, o + 1).oq[m].instance == ops[o].completion.value.instance
  {
    assert At(ops, o + 1) == AckWork(At(ops, o), ops[o].token, ops[o].completion).0;
    r := RowOf(At(ops, o), ops[o].token).value;
  }

  /**
   A recreated instance never sees a completion of its earlier incarnation. Every message a fetch
   returns for it was enqueued after the deletion; and if a worker enqueued it, reporting to the
   instance it worked for, it completed a row of this instance that did not exist at the deletion.
   Only a worker that reports to a foreign instance could complete anything else.
   */
  lemma CompletionsAreOfThisLife(
    ops: seq<Op>, d: nat, j: nat, i: string, token: nat, batch: set<nat>, m: nat) returns (o: nat, r: nat)
    requires d < j < |ops| && DeletedAt(ops, d, i) && FetchReturns(ops, j, i, token, batch) && m in batch
    ensures d <= o < j && m !in At(ops, o).oq && m in At(ops, o + 1).oq
    ensures ops[o].OpAckWork? ==> Completes(ops, o, r) && r in At(ops, o).wq
    ensures ops[o].OpAckWork? && ReportsItsOwn(ops, o, r) ==> At(ops, o).wq[r].key.instance == i
    ensures ops[o].OpAckWork? && At(ops, o).wq[r].key.instance == i ==> At(ops, d).nextRow <= r && r !in At(ops, d).wq
  {
    r := 0;
    NewLifeHasOnlyNewRecords(ops, d, j, i);
    assert m in At(ops, j).oq && At(ops, j).oq[m].instance == i;
    o := EnqueuedAt(ops, j, m);
    ReachableIsWellFormed(ops, o + 1);
    assert m < At(ops, o + 1).nextMsg;
    if o + 1 <= d {
      RunAdvances(ops, o + 1, d);
    }
    if ops[o].OpAckWork? {
      r := AddedByWorkAck(ops, o, m);
      MessagesAreConserved(ops, o + 1, j, m);
      if At(ops, o).wq[r].key.instance == i {
        NoCompletionFromAnEarlierLife(ops, d, o, i, r);
      }
    }
  }

  lemma NoMessageFromAnEarlierLife(ops: seq<Op>, d: nat, j: nat, i: string, token: nat, batch: set<nat>, m: nat)
    requires d < j < |ops| && DeletedAt(ops, d, i) && FetchReturns(ops, j, i, token, batch) && m in batch
    ensures m !in At(ops, d).oq
  {
    NewLifeHasOnlyNewRecords(ops, d, j, i);
    ReachableIsWellFormed(ops, d);
  }

  /** Nobody holds the token any more. */
  ghost predicate Unheld(db: Db, token: nat) {
    token < db.nextToken && forall i :: !Holds(db, i, token)
  }

  lemma {:induction false} UnheldForever(ops: seq<Op>, k: nat, n: nat, token: nat)
    requires k <= n <= |ops| && Unheld(At(ops, k), token)
    ensures Unheld(At(ops, n), token)
  {
    hide Step;
    if k < n {
      UnheldForever(ops, k, n - 1, token);
      HoldersComeFromBefore(At(ops, n - 1), ops[n - 1], token);
    }
  }

  /**
   No zombies: the dispatcher that held the instance when it was deleted is refused for the rest of
   the run, by ack, by renew and by abandon, so it cannot bring any of its state back.
   */
  lemma DeletionFencesTheHolder(ops: seq<Op>, d: nat, n: nat, i: string, token: nat,
                                args: AckArgs, extend: nat, delay: Option<nat>, ignore: bool)
    requires d < n <= |ops| && DeletedAt(ops, d, i) && Holds(At(ops, d), i, token)
    ensures AckOrchestration(At(ops, n), token, args) == (At(ops, n), false)
    ensures RenewOrchestration(At(ops, n), token, extend) == (At(ops, n), false)
    ensures AbandonOrchestration(At(ops, n), token, delay, ignore) == (At(ops, n), false)
  {
    var db := At(ops, d);
    ReachableIsWellFormed(ops, d);
    HoldersComeFromBefore(db, ops[d], token);
    assert forall j :: Holds(db, j, token) ==> j == i;
    assert At(ops, d + 1).locks == db.locks - ops[d].ids;
    UnheldForever(ops, d + 1, n, token);
    DeadIsRefused(At(ops, n), token, args, extend);
  }

  /** The same for the workers that held its activities. */
  lemma DeletionFencesTheWorkers(ops: seq<Op>, d: nat, n: nat, i: string, r: nat, token: nat, c: Option<WorkItem>,
      extend: nat)
    requires d < n <= |ops| && DeletedAt(ops, d, i)
    requires RowHolds(At(ops, d), r, token) && At(ops, d).wq[r].key.instance == i
    ensures AckWork(At(ops, n), token, c) == (At(ops, n), false)
    ensures RenewWork(At(ops, n), token, extend) == (At(ops, n), false)
  {
    HolderOfGoneRowIsRefused(ops, d, n, r, token, c, extend);
  }
}
