/**
 The instance-scoped key-value store: the history events that change it, the provider's two-level
 tables (kv_store for finished executions, kv_delta with tombstones for the current one), and the
 simple map that both must agree with.
 */
module KvStore {
  import opened Common

  datatype KvEvent =
    | KeyValueSet(key: string, value: string, ts: nat)
    | KeyValueCleared(key: string)
    | KeyValuesCleared

  datatype Entry = Entry(value: string, ts: nat)

  /** A row of kv_delta; a missing value is a tombstone. */
  datatype Mark = Mark(value: Option<string>, ts: nat)

  datatype Tables = Tables(store: map<string, Entry>, delta: map<string, Mark>)

  const NO_TABLES := Tables(map[], map[])

  // ---------------------------------------------------------------- the simple map

  function Effect(m: map<string, Entry>, e: KvEvent): map<string, Entry> {
    match e
    case KeyValueSet(key, value, ts) => m[key := Entry(value, ts)]
    case KeyValueCleared(key) => m - {key}
    case KeyValuesCleared => map[]
  }

  function Fold(m: map<string, Entry>, events: seq<KvEvent>): map<string, Entry> {
    if events == [] then m else Effect(Fold(m, events[..|events| - 1]), events[|events| - 1])
  }

  lemma {:induction false} FoldConcat(m: map<string, Entry>, a: seq<KvEvent>, b: seq<KvEvent>)
    ensures Fold(m, a + b) == Fold(Fold(m, a), b)
  {
    if b == [] {
      assert a + b == a;
    } else {
      assert (a + b)[..|a + b| - 1] == a + b[..|b| - 1];
      FoldConcat(m, a, b[..|b| - 1]);
    }
  }

  lemma FoldNone(m: map<string, Entry>)
    ensures Fold(m, []) == m
  {
  }

  lemma FoldOne(m: map<string, Entry>, e: KvEvent)
    ensures Fold(m, [e]) == Effect(m, e)
  {
    assert [e][..0] == [];
  }

  /** What the last event that touches the key does to it. */
  function LastTouch(events: seq<KvEvent>, k: string): Option<Option<Entry>> {
    if events == [] then None
    else
      match events[|events| - 1]
      case KeyValueSet(key, value, ts) =>
        if key == k then Some(Some(Entry(value, ts))) else LastTouch(events[..|events| - 1], k)
      case KeyValueCleared(key) => if key == k then Some(None) else LastTouch(events[..|events| - 1], k)
      case KeyValuesCleared => Some(None)
  }

  lemma {:induction false} FoldByLastTouch(m: map<string, Entry>, events: seq<KvEvent>, k: string)
    ensures Lookup(Fold(m, events), k) == match LastTouch(events, k) case Some(entry) => entry case None => Lookup(m, k)
  {
    if events != [] {
      FoldByLastTouch(m, events[..|events| - 1], k);
    }
  }

  /** Folding the same events a second time changes nothing. */
  lemma FoldTwice(m: map<string, Entry>, events: seq<KvEvent>)
    ensures Fold(Fold(m, events), events) == Fold(m, events)
  {
    var once, twice := Fold(m, events), Fold(Fold(m, events), events);
    forall k ensures Lookup(twice, k) == Lookup(once, k) {
      FoldByLastTouch(m, events, k);
      FoldByLastTouch(once, events, k);
    }
    SameLookups(twice, once);
  }

  lemma SameLookups(a: map<string, Entry>, b: map<string, Entry>)
    requires forall k :: Lookup(a, k) == Lookup(b, k)
    ensures a == b
  {
    assert forall k :: k in a <==> k in b by {
      forall k ensures k in a <==> k in b {
        assert Lookup(a, k) == Lookup(b, k);
      }
    }
    forall k | k in a ensures a[k] == b[k] {
      assert Lookup(a, k) == Lookup(b, k);
    }
  }

  // ---------------------------------------------------------------- the two tables

  /** One history event materialized into kv_delta at time now. */
  function Materialize(t: Tables, e: KvEvent, now: nat): Tables {
    match e
    case KeyValueSet(key, value, ts) => t.(delta := t.delta[key := Mark(Some(value), ts)])
    case KeyValueCleared(key) => t.(delta := t.delta[key := Mark(None, now)])
    case KeyValuesCleared => t.(delta := map k | k in t.delta.Keys + t.store.Keys :: Mark(None, now))
  }

  function MaterializeAll(t: Tables, events: seq<KvEvent>, now: nat): Tables {
    if events == [] then t
    else Materialize(MaterializeAll(t, events[..|events| - 1], now), events[|events| - 1], now)
  }

  /** At a terminal status the delta is merged into the store and cleared. */
  function Merge(t: Tables): Tables {
    var written := map k | k in t.delta && t.delta[k].value.Some? :: Entry(t.delta[k].value.value, t.delta[k].ts);
    var erased := set k | k in t.delta && t.delta[k].value.None?;
    Tables((t.store + written) - erased, map[])
  }

  function AckKv(t: Tables, events: seq<KvEvent>, terminal: bool, now: nat): Tables {
    var t' := MaterializeAll(t, events, now);
    if terminal then Merge(t') else t'
  }

  /** What a client reads for one key: the delta row decides if there is one. */
  function ReadKey(t: Tables, key: string): Option<string> {
    if key in t.delta then t.delta[key].value
    else if key in t.store then Some(t.store[key].value)
    else None
  }

  /** The merged view: the store overlaid with the delta. */
  function View(t: Tables): map<string, Entry> {
    map k | k in t.store.Keys + t.delta.Keys && (k in t.delta ==> t.delta[k].value.Some?)
      :: if k in t.delta then Entry(t.delta[k].value.value, t.delta[k].ts) else t.store[k]
  }

  function Values(m: map<string, Entry>): map<string, string> {
    map k | k in m :: m[k].value
  }

  function Stamps(m: map<string, Entry>): map<string, nat> {
    map k | k in m :: m[k].ts
  }

  /** Each key-value event changes values and timestamps side by side. */
  lemma EffectOnBoth(m: map<string, Entry>, e: KvEvent)
    ensures e.KeyValueSet? ==>
              Values(Effect(m, e)) == Values(m)[e.key := e.value] && Stamps(Effect(m, e)) == Stamps(m)[e.key := e.ts]
    ensures e.KeyValueCleared? ==>
              Values(Effect(m, e)) == Values(m) - {e.key} && Stamps(Effect(m, e)) == Stamps(m) - {e.key}
    ensures e.KeyValuesCleared? ==> Values(Effect(m, e)) == map[] && Stamps(Effect(m, e)) == map[]
  {
  }

  /** The keys whose entry is older than the bound. */
  function Older(m: map<string, Entry>, bound: nat): set<string> {
    set k | k in m && m[k].ts < bound
  }

  // ---------------------------------------------------------------- refinement of the simple map

  lemma MaterializeRefines(t: Tables, e: KvEvent, now: nat)
    ensures View(Materialize(t, e, now)) == Effect(View(t), e)
    ensures Materialize(t, e, now).store == t.store
  {
  }

  lemma {:induction false} MaterializeAllRefines(t: Tables, events: seq<KvEvent>, now: nat)
    ensures View(MaterializeAll(t, events, now)) == Fold(View(t), events)
    ensures MaterializeAll(t, events, now).store == t.store
  {
    if events != [] {
      MaterializeAllRefines(t, events[..|events| - 1], now);
      MaterializeRefines(MaterializeAll(t, events[..|events| - 1], now), events[|events| - 1], now);
    }
  }

  lemma MergeKeepsView(t: Tables)
    ensures View(Merge(t)) == View(t)
    ensures Merge(t).store == View(t) && Merge(t).delta == map[]
  {
  }

  /**
   One ack refines the simple map, whether or not it merges: the client's view afterwards is the
   fold of the ack's events over the view before. The snapshot handed to the next fetch changes
   only at a terminal ack, and is then the whole view.
   */
  lemma AckRefines(t: Tables, events: seq<KvEvent>, terminal: bool, now: nat)
    ensures View(AckKv(t, events, terminal, now)) == Fold(View(t), events)
    ensures AckKv(t, events, terminal, now).store == if terminal then Fold(View(t), events) else t.store
    ensures terminal ==> AckKv(t, events, terminal, now).delta == map[]
  {
    MaterializeAllRefines(t, events, now);
    MergeKeepsView(MaterializeAll(t, events, now));
  }

  /** The per-key read and the read of all values give the merged view. */
  lemma ReadsAgree(t: Tables, key: string)
    ensures ReadKey(t, key) == Lookup(Values(View(t)), key)
  {
  }

  /** Overlaying one more delta row changes the view at that key only. */
  lemma OverlayRow(store: map<string, Entry>, delta: map<string, Mark>, k: string, mark: Mark)
    ensures var before, after := Values(View(Tables(store, delta))), Values(View(Tables(store, delta[k := mark])));
            after == if mark.value.Some? then before[k := mark.value.value] else before - {k}
  {
  }

  // ---------------------------------------------------------------- statistics

  /** The rows of the statistics query: store rows overridden by delta rows, and delta-only rows. */
  function StatRows(t: Tables): set<(string, string)> {
    var overridden := set k | k in t.store && k in t.delta && t.delta[k].value.Some? :: (k, t.delta[k].value.value);
    var plain := set k | k in t.store && k !in t.delta :: (k, t.store[k].value);
    var added := set k | k in t.delta && k !in t.store && t.delta[k].value.Some? :: (k, t.delta[k].value.value);
    overridden + plain + added
  }

  /** The total length of the values in a set of rows. */
  ghost function TotalLength(rows: set<(string, string)>): nat
    decreases |rows|
  {
    if rows == {} then 0
    else
      var r :| r in rows;
      |r.1| + TotalLength(rows - {r})
  }

  /** The same total, adding any row first. */
  lemma {:induction false} TotalWithout(rows: set<(string, string)>, r: (string, string))
    requires r in rows
    ensures TotalLength(rows) == |r.1| + TotalLength(rows - {r})
    decreases |rows|
  {
    var first :| first in rows && TotalLength(rows) == |first.1| + TotalLength(rows - {first});
    if first != r {
      TotalWithout(rows - {first}, r);
      TotalWithout(rows - {r}, first);
      assert rows - {first} - {r} == rows - {r} - {first};
    }
  }

  /** The rows of a plain map. */
  function RowsOf(m: map<string, string>): set<(string, string)> {
    set k | k in m :: (k, m[k])
  }

  lemma RowIn(m: map<string, string>, r: (string, string))
    ensures r in RowsOf(m) <==> r.0 in m && m[r.0] == r.1
  {
    if r.0 in m && m[r.0] == r.1 { assert r == (r.0, m[r.0]); }
  }

  lemma StatRowsAreView(t: Tables)
    ensures StatRows(t) == RowsOf(Values(View(t)))
  {
    var view := Values(View(t));
    forall r ensures r in StatRows(t) <==> r in RowsOf(view) {
      RowIn(view, r);
      var k := r.0;
      if r in RowsOf(view) {
        if k in t.delta {
          assert r == (k, t.delta[k].value.value);
        } else {
          assert r == (k, t.store[k].value);
        }
      }
    }
  }

  lemma {:induction false} RowCount(m: map<string, string>)
    ensures |RowsOf(m)| == |m|
    decreases |m|
  {
    if m != map[] {
      var k :| k in m;
      var rest := m - {k};
      RowCount(rest);
      forall r ensures r in RowsOf(m) <==> r in RowsOf(rest) + {(k, m[k])} {
        RowIn(m, r);
        RowIn(rest, r);
      }
      RowIn(rest, (k, m[k]));
      assert RowsOf(m) == RowsOf(rest) + {(k, m[k])};
      assert m.Keys == rest.Keys + {k};
    } else {
      assert RowsOf(m) == {};
    }
  }

  /** The provider's key count and value total, before and after a merge, are those of the merged view. */
  lemma StatsAreOfTheView(t: Tables)
    ensures |StatRows(t)| == |View(t)|
    ensures TotalLength(StatRows(t)) == TotalLength(RowsOf(Values(View(t))))
    ensures |StatRows(Merge(t))| == |StatRows(t)| && TotalLength(StatRows(Merge(t))) == TotalLength(StatRows(t))
  {
    StatRowsAreView(t);
    StatRowsAreView(Merge(t));
    MergeKeepsView(t);
    RowCount(Values(View(t)));
    assert Values(View(t)).Keys == View(t).Keys;
  }

  // ---------------------------------------------------------------- the replay side

  /** Replay compares kind, key and value; the timestamp is not compared. */
  predicate Matches(a: KvEvent, b: KvEvent) {
    match (a, b)
    case (KeyValueSet(k, v, _), KeyValueSet(l, w, _)) => k == l && v == w
    case (KeyValueCleared(k), KeyValueCleared(l)) => k == l
    case (KeyValuesCleared, KeyValuesCleared) => true
    case _ => false
  }

  /** So two events match exactly if they are the same once both timestamps are set to zero. */
  lemma MatchesUpToTime(a: KvEvent, b: KvEvent)
    ensures Matches(a, b)
            <==> (if a.KeyValueSet? then a.(ts := 0) else a) == (if b.KeyValueSet? then b.(ts := 0) else b)
  {
  }

  predicate Alike(a: seq<KvEvent>, b: seq<KvEvent>) {
    |a| == |b| && forall i :: 0 <= i < |a| ==> Matches(a[i], b[i])
  }

  /** Matching events touch a key last in the same way, with a timestamp of their own. */
  lemma {:induction false} AlikeTouches(a: seq<KvEvent>, b: seq<KvEvent>, k: string)
    requires Alike(a, b)
    ensures match LastTouch(a, k)
            case Some(Some(x)) => LastTouch(b, k).Some? && LastTouch(b, k).value.Some?
            case touch => LastTouch(b, k) == touch
  {
    if a != [] {
      assert Matches(a[|a| - 1], b[|b| - 1]);
      AlikeTouches(a[..|a| - 1], b[..|b| - 1], k);
    }
  }

  function EffectOnValues(m: map<string, string>, e: KvEvent): map<string, string> {
    match e
    case KeyValueSet(key, value, _) => m[key := value]
    case KeyValueCleared(key) => m - {key}
    case KeyValuesCleared => map[]
  }

  /** Folding events over values only, as the orchestration context does. */
  function FoldValues(m: map<string, string>, events: seq<KvEvent>): map<string, string> {
    if events == [] then m
    else EffectOnValues(FoldValues(m, events[..|events| - 1]), events[|events| - 1])
  }

  lemma {:induction false} FoldValuesIsFold(m: map<string, Entry>, events: seq<KvEvent>)
    ensures FoldValues(Values(m), events) == Values(Fold(m, events))
  {
    if events != [] {
      FoldValuesIsFold(m, events[..|events| - 1]);
    }
  }
}
