/**
 In which order the orchestrator queue is served, and when it gets stuck: a fetch always picks the
 instance of the first due message that is not locked, even if it can neither return nor drop it.
 */
module ProviderOrder {
  import opened Common
  import opened ProviderDb
  import opened ProviderMessages

  /** Nobody holds the instance, and something is due for it. */
  predicate Ready(db: Db, i: string) {
    (i in db.locks ==> db.locks[i].until <= db.now) && Waiting(db, i) != {}
  }

  /** The message is due, and its instance is not held. */
  predicate Due(db: Db, m: nat) {
    m in db.oq && db.oq[m].visibleAt <= db.now
    && (db.oq[m].instance in db.locks ==> db.locks[db.oq[m].instance].until <= db.now)
  }

  /** What the query picks: the instance of the first due message. */
  ghost predicate IsCandidate(db: Db, i: string) {
    exists m :: Due(db, m) && db.oq[m].instance == i && forall x :: Due(db, x) ==> m <= x
  }

  /** A fetch can neither return the instance nor drop what is waiting for it. */
  ghost predicate Stuck(db: Db, i: string) {
    !Known(db, i) && exists m :: m in Waiting(db, i) && !db.oq[m].item.QueueMessage?
  }

  lemma DueIsReady(db: Db, i: string)
    ensures Ready(db, i) <==> exists m :: Due(db, m) && db.oq[m].instance == i
  {
    if Ready(db, i) {
      var m :| m in Waiting(db, i);
      assert Due(db, m);
    }
    if m :| Due(db, m) && db.oq[m].instance == i {
      assert m in Waiting(db, i);
    }
  }

  lemma CandidateIsReady(db: Db, i: string)
    requires IsCandidate(db, i)
    ensures Ready(db, i) && Available(db, i) && Batch(db, i) != {}
  {
    DueIsReady(db, i);
    KnownIsContext(db, i);
  }

  /** The first due message belongs to a candidate. */
  lemma {:induction false} CandidateExists(db: Db, m: nat) returns (i: string)
    requires Due(db, m)
    ensures IsCandidate(db, i)
    decreases m
  {
    if x: nat :| Due(db, x) && x < m {
      i := CandidateExists(db, x);
    } else {
      i := db.oq[m].instance;
    }
  }

  /** A fetch of the candidate gets somewhere exactly if the candidate is not stuck; if it is, nothing changes. */
  lemma CandidateIsServedIff(db: Db, i: string, timeout: nat)
    requires IsCandidate(db, i)
    ensures FetchOrchestration(db, i, timeout).1.NothingFetched? <==> Stuck(db, i)
    ensures Stuck(db, i) ==> FetchOrchestration(db, i, timeout).0 == db
  {
    CandidateIsReady(db, i);
    OnlyOrphansAreDropped(db, i, timeout);
    hide Known, FetchOrchestration, IsCandidate;
  }

  // ---------------------------------------------------------------- serving the queue

  /** Serving one instance leaves all others as they were. */
  lemma OthersStayReady(db: Db, i: string, timeout: nat, j: string)
    requires timeout > 0 && !FetchOrchestration(db, i, timeout).1.NothingFetched?
    ensures var next := FetchOrchestration(db, i, timeout).0;
            && (Ready(next, j) <==> Ready(db, j) && j != i)
            && (j != i ==> Waiting(next, j) == Waiting(db, j) && (Stuck(next, j) <==> Stuck(db, j)))
  {
    var next := FetchOrchestration(db, i, timeout).0;
    KnownIsContext(db, i);
    assert Waiting(db, i) == Batch(db, i);
    assert next == FetchEffects(db, i, timeout) || next == DropEffects(db, i);
    hide HasContext, Known, OnlyQueueMessages;
    if j != i {
      assert Waiting(next, j) == Waiting(db, j);
      assert forall m :: m in Waiting(db, j) ==> next.oq[m].item == db.oq[m].item;
      SameKnown(db, next, j);
    }
  }

  lemma SameKnown(a: Db, b: Db, j: string)
    requires b == a.(oq := b.oq, locks := b.locks, nextToken := b.nextToken) && Waiting(a, j) == Waiting(b, j)
    requires forall m :: m in Waiting(a, j) ==> b.oq[m].item == a.oq[m].item
    ensures Known(a, j) <==> Known(b, j)
  {
  }

  /** Fetching as long as something is ready serves these instances: each is returned, or its orphans dropped. */
  ghost predicate Serves(db: Db, order: seq<string>, timeout: nat)
    decreases order
  {
    if order == [] then forall i :: !Ready(db, i)
    else
      && IsCandidate(db, order[0]) && !FetchOrchestration(db, order[0], timeout).1.NothingFetched?
      && Serves(FetchOrchestration(db, order[0], timeout).0, order[1..], timeout)
  }

  /** Something is waiting for a that came before everything waiting for b. */
  ghost predicate Earlier(db: Db, a: string, b: string) {
    exists m :: m in Waiting(db, a) && forall x :: x in Waiting(db, b) ==> m < x
  }

  lemma CandidateIsEarliest(db: Db, i: string, j: string)
    requires IsCandidate(db, i) && Ready(db, j) && j != i
    ensures Earlier(db, i, j)
  {
    var m :| Due(db, m) && db.oq[m].instance == i && forall x :: Due(db, x) ==> m <= x;
    assert m in Waiting(db, i);
    forall x | x in Waiting(db, j) ensures m < x {
      assert Due(db, x);
    }
  }

  /**
   Serving the queue until nothing is ready returns, or frees of orphans, exactly the instances that were
   ready, each once, in the order of their oldest messages.
   */
  lemma {:induction false} QueueIsServedInOrder(db: Db, order: seq<string>, timeout: nat)
    requires Serves(db, order, timeout) && timeout > 0
    ensures forall i :: i in order <==> Ready(db, i)
    ensures forall a, b :: 0 <= a < b < |order| ==> order[a] != order[b] && Earlier(db, order[a], order[b])
    decreases order
  {
    if order != [] {
      var first, rest := order[0], order[1..];
      var next := FetchOrchestration(db, first, timeout).0;
      QueueIsServedInOrder(next, rest, timeout);
      CandidateIsReady(db, first);
      hide FetchOrchestration, IsCandidate, Ready, Earlier, Serves;
      forall j ensures Ready(next, j) <==> Ready(db, j) && j != first {
        OthersStayReady(db, first, timeout, j);
      }
      assert forall i :: i in order <==> i == first || i in rest;
      forall a, b | 0 <= a < b < |order| ensures order[a] != order[b] && Earlier(db, order[a], order[b]) {
        assert order[b] == rest[b - 1] && order[b] in rest;
        if a == 0 {
          CandidateIsEarliest(db, first, order[b]);
        } else {
          assert order[a] == rest[a - 1] && order[a] in rest;
          SameEarlier(db, next, first, timeout, order[a], order[b]);
        }
      }
    }
  }

  lemma SameEarlier(db: Db, next: Db, i: string, timeout: nat, a: string, b: string)
    requires timeout > 0 && !FetchOrchestration(db, i, timeout).1.NothingFetched?
    requires next == FetchOrchestration(db, i, timeout).0 && a != i && b != i
    ensures Earlier(next, a, b) <==> Earlier(db, a, b)
  {
    OthersStayReady(db, i, timeout, a);
    OthersStayReady(db, i, timeout, b);
    hide FetchOrchestration;
  }

  // ---------------------------------------------------------------- when it cannot be served

  ghost function ReadyOnes(db: Db): set<string> {
    set m | m in db.oq && Due(db, m) :: db.oq[m].instance
  }

  lemma ReadyOnesAreReady(db: Db, i: string)
    ensures i in ReadyOnes(db) <==> Ready(db, i)
  {
    DueIsReady(db, i);
  }

  lemma {:induction false} ServingOrder(db: Db, timeout: nat) returns (order: seq<string>)
    requires timeout > 0 && forall i :: Ready(db, i) ==> !Stuck(db, i)
    ensures Serves(db, order, timeout)
    decreases |ReadyOnes(db)|
  {
    if i :| Ready(db, i) {
      DueIsReady(db, i);
      var m :| Due(db, m) && db.oq[m].instance == i;
      var first := CandidateExists(db, m);
      CandidateIsReady(db, first);
      CandidateIsServedIff(db, first, timeout);
      var next := FetchOrchestration(db, first, timeout).0;
      hide FetchOrchestration, IsCandidate, Ready, Stuck, ReadyOnes;
      forall j ensures Ready(next, j) <==> Ready(db, j) && j != first
               ensures Ready(next, j) ==> (Stuck(next, j) <==> Stuck(db, j)) {
        OthersStayReady(db, first, timeout, j);
      }
      FewerReady(db, next, first);
      var rest := ServingOrder(next, timeout);
      order := [first] + rest;
      assert order[1..] == rest;
    } else {
      order := [];
    }
  }

  lemma FewerReady(db: Db, next: Db, first: string)
    requires Ready(db, first) && forall j :: Ready(next, j) <==> Ready(db, j) && j != first
    ensures |ReadyOnes(next)| < |ReadyOnes(db)|
  {
    forall j ensures j in ReadyOnes(next) <==> j in ReadyOnes(db) && j != first {
      ReadyOnesAreReady(db, j);
      ReadyOnesAreReady(next, j);
    }
    ReadyOnesAreReady(db, first);
    assert ReadyOnes(next) == ReadyOnes(db) - {first};
  }

  lemma {:induction false} ServedAreNotStuck(db: Db, order: seq<string>, timeout: nat, i: string)
    requires Serves(db, order, timeout) && timeout > 0 && Ready(db, i)
    ensures !Stuck(db, i)
    decreases order
  {
    if order != [] {
      var first := order[0];
      CandidateIsServedIff(db, first, timeout);
      hide FetchOrchestration, IsCandidate, Ready, Stuck;
      if i != first {
        OthersStayReady(db, first, timeout, i);
        ServedAreNotStuck(FetchOrchestration(db, first, timeout).0, order[1..], timeout, i);
      }
    }
  }

  /**
   The queue can be served to the end if and only if none of the ready instances is stuck. One that is,
   such as an unknown instance with a cancellation waiting, keeps everybody behind it from being fetched.
   */
  lemma QueueIsServedIff(db: Db, timeout: nat)
    requires timeout > 0
    ensures (exists order :: Serves(db, order, timeout)) <==> forall i :: Ready(db, i) ==> !Stuck(db, i)
  {
    hide Serves, Ready, Stuck;
    if order :| Serves(db, order, timeout) {
      forall i | Ready(db, i) ensures !Stuck(db, i) {
        ServedAreNotStuck(db, order, timeout, i);
      }
    }
    if forall i :: Ready(db, i) ==> !Stuck(db, i) {
      var order := ServingOrder(db, timeout);
    }
  }

  const CANCEL_FIRST := [OpEnqueue(CancelInstance("unknown"), None), OpEnqueue(StartOrchestration("new"), None)]

  /** A cancellation of an unknown instance, ahead of a start: the start is ready, and no fetch ever gets to it. */
  lemma CancelOfUnknownBlocks(timeout: nat)
    ensures var db := At(CANCEL_FIRST, 2);
            && Ready(db, "new") && Known(db, "new") && IsCandidate(db, "unknown")
            && FetchOrchestration(db, "unknown", timeout) == (db, NothingFetched)
            && forall i :: IsCandidate(db, i) ==> i == "unknown"
  {
    var db := At(CANCEL_FIRST, 2);
    BothAreQueued();
    hide At, FetchOrchestration;
    assert 1 in Waiting(db, "new") && 0 in Waiting(db, "unknown");
    assert db.oq[0].instance == "unknown" && db.oq[1].instance == "new" && "unknown"[0] != "new"[0];
    assert Due(db, 0) && forall i :: IsCandidate(db, i) ==> i == "unknown";
    assert Stuck(db, "unknown") by {
      assert forall m :: m in Waiting(db, "unknown") ==> m == 0;
    }
    hide Known, Stuck, IsCandidate;
    CandidateIsServedIff(db, "unknown", timeout);
  }

  lemma BothAreQueued()
    ensures At(CANCEL_FIRST, 2) == EMPTY_DB.(nextMsg := 2, oq := map[
                0 := Msg(CancelInstance("unknown"), "unknown", 0, None, 0),
                1 := Msg(StartOrchestration("new"), "new", 0, None, 0)])
  {
    assert At(CANCEL_FIRST, 1) == EnqueueOrchestrator(EMPTY_DB, CancelInstance("unknown"), None).0;
    assert At(CANCEL_FIRST, 2) == EnqueueOrchestrator(At(CANCEL_FIRST, 1), StartOrchestration("new"), None).0;
  }
}
