/** The response-history cache (src/state.rs, `ResponseHistoryStore`) and the log of insertions it summarises. */
module ResponseHistory {
  import opened Collections

  /** Downstream key and response id. */
  type Key = (string, string)

  datatype Entry = Entry(content: nat, createdAt: nat)

  const MAX_ENTRIES := 2048
  const TTL_SECONDS := 12 * 60 * 60

  datatype State = State(entries: map<Key, Entry>, order: seq<Key>)

  predicate IsExpired(entry: Entry, now: nat) {
    now >= entry.createdAt && now - entry.createdAt > TTL_SECONDS
  }

  function KeySet(order: seq<Key>): set<Key> {
    set i | 0 <= i < |order| :: order[i]
  }

  /** The order without `k`. */
  function Erase(order: seq<Key>, k: Key): seq<Key> {
    if order == [] then [] else (if order[0] == k then [] else [order[0]]) + Erase(order[1..], k)
  }

  function EvictExpired(st: State, now: nat): State
    decreases |st.order|
  {
    if st.order != [] && (st.order[0] in st.entries ==> IsExpired(st.entries[st.order[0]], now))
    then EvictExpired(State(st.entries - {st.order[0]}, st.order[1..]), now)
    else st
  }

  function EvictExcess(st: State): State
    decreases |st.order|
  {
    if |st.order| > MAX_ENTRIES then EvictExcess(State(st.entries - {st.order[0]}, st.order[1..])) else st
  }

  function Inserted(st: State, k: Key, entry: Entry, now: nat): State {
    EvictExcess(EvictExpired(State(st.entries[k := entry], Erase(st.order, k) + [k]), now))
  }

  function Lookup(st: State, k: Key): Option<Entry> {
    if k in st.entries then Some(st.entries[k]) else None
  }

  // ---- The cache as the object it is ----

  class ResponseHistoryStore {
    var entries: map<Key, Entry>
    var order: seq<Key>

    function Model(): State
      reads this
    {
      State(entries, order)
    }

    constructor ()
      ensures Model() == State(map[], [])
    {
      entries, order := map[], [];
    }

    method EvictExpiredEntries(now: nat)
      modifies this
      ensures Model() == EvictExpired(old(Model()), now)
    {
      while order != [] && (order[0] in entries ==> IsExpired(entries[order[0]], now))
        invariant EvictExpired(Model(), now) == EvictExpired(old(Model()), now)
        decreases |order|
      {
        entries, order := entries - {order[0]}, order[1..];
      }
    }

    method Insert(k: Key, entry: Entry, now: nat)
      modifies this
      ensures Model() == Inserted(old(Model()), k, entry, now)
    {
      hide EvictExpired;
      entries := entries[k := entry];
      order := Erase(order, k) + [k];
      EvictExpiredEntries(now);
      ghost var before := Model();
      while |order| > MAX_ENTRIES
        invariant EvictExcess(Model()) == EvictExcess(before)
        decreases |order|
      {
        entries, order := entries - {order[0]}, order[1..];
      }
    }

    method Get(k: Key, now: nat) returns (found: Option<Entry>)
      modifies this
      ensures Model() == EvictExpired(old(Model()), now) && found == Lookup(Model(), k)
    {
      EvictExpiredEntries(now);
      found := if k in entries then Some(entries[k]) else None;
    }
  }

  // ---- The log ----

  datatype Insertion = Insertion(key: Key, entry: Entry)

  /** The last insertion of a key. */
  function Latest(log: seq<Insertion>, k: Key): Option<Entry> {
    if log == [] then None
    else if log[|log| - 1].key == k then Some(log[|log| - 1].entry)
    else Latest(log[..|log| - 1], k)
  }

  /** The distinct keys inserted after the last insertion of a key. */
  function KeysAfter(log: seq<Insertion>, k: Key): set<Key> {
    if log == [] || log[|log| - 1].key == k then {}
    else KeysAfter(log[..|log| - 1], k) + {log[|log| - 1].key}
  }

  /** The cache's promise: the latest insertion, if it is young enough and few enough other keys followed. */
  function Remembered(log: seq<Insertion>, k: Key, now: nat): Option<Entry> {
    var latest := Latest(log, k);
    if latest.Some? && !IsExpired(latest.value, now) && |KeysAfter(log, k)| < MAX_ENTRIES then latest else None
  }

  lemma LogSnoc(log: seq<Insertion>, last: Insertion, k: Key)
    ensures Latest(log + [last], k) == if last.key == k then Some(last.entry) else Latest(log, k)
    ensures KeysAfter(log + [last], k) == if last.key == k then {} else KeysAfter(log, k) + {last.key}
  {
    assert (log + [last])[..|log|] == log;
  }

  // ---- The invariant ----

  /** The order lists its keys from the longest ago inserted: behind each key stand exactly the keys inserted after
      it, none of them older. */
  ghost predicate Stacked(log: seq<Insertion>, order: seq<Key>) {
    order != [] ==>
      && order[0] !in KeySet(order[1..])
      && KeysAfter(log, order[0]) == KeySet(order[1..])
      && Latest(log, order[0]).Some?
      && (forall k | k in KeySet(order[1..]) ::
            Latest(log, k).Some? && Latest(log, order[0]).value.createdAt <= Latest(log, k).value.createdAt)
      && Stacked(log, order[1..])
  }

  /** The entries are the latest insertions of the listed keys. */
  ghost predicate Mirrors(st: State, log: seq<Insertion>) {
    && st.entries.Keys == KeySet(st.order)
    && forall k | k in st.entries :: Latest(log, k) == Some(st.entries[k])
  }

  /** What the cache forgot it was entitled to forget. */
  ghost predicate Forgot(st: State, log: seq<Insertion>, clock: nat) {
    forall k | Latest(log, k).Some? && k !in KeySet(st.order) :: Remembered(log, k, clock).None?
  }

  ghost predicate Timely(log: seq<Insertion>, clock: nat) {
    forall k | Latest(log, k).Some? :: Latest(log, k).value.createdAt <= clock
  }

  ghost predicate Inv(st: State, log: seq<Insertion>, clock: nat) {
    Stacked(log, st.order) && Mirrors(st, log) && Forgot(st, log, clock) && Timely(log, clock) && |st.order| <= MAX_ENTRIES
  }

  lemma KeySetCons(order: seq<Key>)
    requires order != []
    ensures KeySet(order) == {order[0]} + KeySet(order[1..])
  {
    assert order == [order[0]] + order[1..];
    forall k | k in KeySet(order[1..])
      ensures k in KeySet(order)
    {
      var i :| 0 <= i < |order[1..]| && order[1..][i] == k;
      assert order[i + 1] == k;
    }
    forall k | k in KeySet(order)
      ensures k == order[0] || k in KeySet(order[1..])
    {
      var i :| 0 <= i < |order| && order[i] == k;
      assert i > 0 ==> order[1..][i - 1] == k;
    }
  }

  lemma {:induction false} StackedSize(log: seq<Insertion>, order: seq<Key>)
    requires Stacked(log, order)
    ensures |KeySet(order)| == |order|
  {
    if order != [] {
      KeySetCons(order);
      StackedSize(log, order[1..]);
    }
  }

  /** Forgetting the front of the order when it may be forgotten. */
  lemma PopKeeps(st: State, log: seq<Insertion>, clock: nat)
    requires Stacked(log, st.order) && Mirrors(st, log) && Forgot(st, log, clock) && st.order != []
    requires Remembered(log, st.order[0], clock).None?
    ensures var popped := State(st.entries - {st.order[0]}, st.order[1..]);
            Stacked(log, popped.order) && Mirrors(popped, log) && Forgot(popped, log, clock)
  {
    KeySetCons(st.order);
    hide Remembered, KeySet, Latest, KeysAfter;
  }

  lemma {:induction false} EvictExpiredKeeps(st: State, log: seq<Insertion>, clock: nat)
    requires Stacked(log, st.order) && Mirrors(st, log) && Forgot(st, log, clock)
    ensures var next := EvictExpired(st, clock);
            && Stacked(log, next.order) && Mirrors(next, log) && Forgot(next, log, clock) && |next.order| <= |st.order|
            && (next.order != [] ==> Latest(log, next.order[0]).Some? && !IsExpired(Latest(log, next.order[0]).value,
                                                                                    clock))
    decreases |st.order|
  {
    if st.order != [] {
      KeySetCons(st.order);
      assert st.order[0] in st.entries;
      if IsExpired(st.entries[st.order[0]], clock) {
        PopKeeps(st, log, clock);
        EvictExpiredKeeps(State(st.entries - {st.order[0]}, st.order[1..]), log, clock);
      }
    }
  }

  lemma {:induction false} EvictExcessKeeps(st: State, log: seq<Insertion>, clock: nat)
    requires Stacked(log, st.order) && Mirrors(st, log) && Forgot(st, log, clock)
    ensures var next := EvictExcess(st);
            Stacked(log, next.order) && Mirrors(next, log) && Forgot(next, log, clock) && |next.order| <= MAX_ENTRIES
    decreases |st.order|
  {
    if |st.order| > MAX_ENTRIES {
      StackedSize(log, st.order[1..]);
      PopKeeps(st, log, clock);
      EvictExcessKeeps(State(st.entries - {st.order[0]}, st.order[1..]), log, clock);
    }
  }

  lemma {:induction false} EraseMeaning(order: seq<Key>, k: Key)
    ensures KeySet(Erase(order, k)) == KeySet(order) - {k}
  {
    if order != [] {
      KeySetCons(order);
      EraseMeaning(order[1..], k);
      var head := if order[0] == k then [] else [order[0]];
      if head != [] {
        KeySetCons(Erase(order, k));
        assert Erase(order, k)[1..] == Erase(order[1..], k);
      } else {
        assert Erase(order, k) == Erase(order[1..], k);
      }
    }
  }

  lemma KeySetSnoc(order: seq<Key>, k: Key)
    ensures KeySet(order + [k]) == KeySet(order) + {k}
  {
    var all := order + [k];
    assert all[|order|] == k;
    forall other | other in KeySet(order)
      ensures other in KeySet(all)
    {
      var i :| 0 <= i < |order| && order[i] == other;
      assert all[i] == other;
    }
  }

  /** Moving the inserted key to the end keeps the order stacked. */
  lemma {:induction false} InsertStacks(log: seq<Insertion>, last: Insertion, order: seq<Key>)
    requires Stacked(log, order) && Timely(log, last.entry.createdAt)
    ensures Stacked(log + [last], Erase(order, last.key) + [last.key])
  {
    var k := last.key;
    LogSnoc(log, last, k);
    if order == [] {
      assert Erase(order, k) + [k] == [k] && [k][1..] == [];
    } else {
      InsertStacks(log, last, order[1..]);
      var h, rest := order[0], Erase(order[1..], k) + [k];
      if h == k {
        assert Erase(order, k) == Erase(order[1..], k);
      } else {
        assert Erase(order, k) + [k] == [h] + rest;
        assert ([h] + rest)[1..] == rest;
        EraseMeaning(order[1..], k);
        KeySetSnoc(Erase(order[1..], k), k);
        LogSnoc(log, last, h);
        HeadStaysOldest(log, last, order);
      }
    }
  }

  lemma HeadStaysOldest(log: seq<Insertion>, last: Insertion, order: seq<Key>)
    requires Stacked(log, order) && order != [] && order[0] != last.key && Timely(log, last.entry.createdAt)
    ensures forall q | q in KeySet(order[1..]) + {last.key} ::
              Latest(log + [last], q).Some?
              && Latest(log, order[0]).value.createdAt <= Latest(log + [last], q).value.createdAt
  {
    hide KeysAfter;
    forall q | q in KeySet(order[1..]) + {last.key}
      ensures Latest(log + [last], q).Some?
      ensures Latest(log, order[0]).value.createdAt <= Latest(log + [last], q).value.createdAt
    {
      LogSnoc(log, last, q);
    }
  }

  /** Before the evictions, an insertion is recorded and nothing forgotten comes back. */
  lemma RecordKeeps(st: State, log: seq<Insertion>, clock: nat, last: Insertion)
    requires Inv(st, log, clock) && last.entry.createdAt >= clock
    ensures var next := State(st.entries[last.key := last.entry], Erase(st.order, last.key) + [last.key]);
            var now := last.entry.createdAt;
            Stacked(log + [last], next.order) && Mirrors(next, log + [last]) && Forgot(next, log + [last], now)
            && Timely(log + [last], now)
  {
    hide Remembered;
    var k, now := last.key, last.entry.createdAt;
    assert Timely(log, now);
    InsertStacks(log, last, st.order);
    hide Stacked;
    EraseMeaning(st.order, k);
    KeySetSnoc(Erase(st.order, k), k);
    var next := State(st.entries[k := last.entry], Erase(st.order, k) + [k]);
    forall q
      ensures q in next.entries ==> Latest(log + [last], q) == Some(next.entries[q])
      ensures Latest(log + [last], q).Some? ==> Latest(log + [last], q).value.createdAt <= now
    {
      LogSnoc(log, last, q);
    }
    forall q | Latest(log + [last], q).Some? && q !in KeySet(next.order)
      ensures Remembered(log + [last], q, now).None?
    {
      LogSnoc(log, last, q);
      StaysForgotten(log, last, q, clock);
    }
  }

  lemma StaysForgotten(log: seq<Insertion>, last: Insertion, q: Key, clock: nat)
    requires q != last.key && Latest(log, q).Some? && last.entry.createdAt >= clock
    requires Latest(log, q).value.createdAt <= clock
    requires Remembered(log, q, clock).None?
    ensures Remembered(log + [last], q, last.entry.createdAt).None?
  {
    LogSnoc(log, last, q);
    var before, after := KeysAfter(log, q), KeysAfter(log + [last], q);
    assert after == before + (after - before);
  }

  lemma InsertKeeps(st: State, log: seq<Insertion>, clock: nat, k: Key, entry: Entry)
    requires Inv(st, log, clock) && entry.createdAt >= clock
    ensures Inv(Inserted(st, k, entry, entry.createdAt), log + [Insertion(k, entry)], entry.createdAt)
  {
    var last, now := Insertion(k, entry), entry.createdAt;
    hide Stacked, Mirrors, Forgot, Timely;
    RecordKeeps(st, log, clock, last);
    var recorded := State(st.entries[k := entry], Erase(st.order, k) + [k]);
    EvictExpiredKeeps(recorded, log + [last], now);
    EvictExcessKeeps(EvictExpired(recorded, now), log + [last], now);
  }

  lemma LaterForgot(st: State, log: seq<Insertion>, clock: nat, now: nat)
    requires Forgot(st, log, clock) && Timely(log, clock) && clock <= now
    ensures Forgot(st, log, now) && Timely(log, now)
  {
    hide KeysAfter, KeySet, Latest;
  }

  /** A lookup answers exactly what the log promises. */
  lemma GetAgrees(st: State, log: seq<Insertion>, clock: nat, k: Key, now: nat)
    requires Inv(st, log, clock) && clock <= now
    ensures Inv(EvictExpired(st, now), log, now)
    ensures Lookup(EvictExpired(st, now), k) == Remembered(log, k, now)
  {
    LaterForgot(st, log, clock, now);
    EvictExpiredKeeps(st, log, now);
    var next := EvictExpired(st, now);
    if k in next.entries {
      KeptIsFresh(log, next.order, now, k);
      KeptIsShallow(log, next.order, k);
    } else {
      assert k !in KeySet(next.order);
    }
  }

  /** Behind an unexpired front nothing is expired. */
  lemma KeptIsFresh(log: seq<Insertion>, order: seq<Key>, now: nat, k: Key)
    requires Stacked(log, order) && k in KeySet(order)
    requires Latest(log, order[0]).Some? && !IsExpired(Latest(log, order[0]).value, now)
    ensures Latest(log, k).Some? && !IsExpired(Latest(log, k).value, now)
  {
    KeySetCons(order);
    hide KeySet, KeysAfter, Latest;
  }

  /** A listed key has fewer keys after it than the list is long. */
  lemma {:induction false} KeptIsShallow(log: seq<Insertion>, order: seq<Key>, k: Key)
    requires Stacked(log, order) && k in KeySet(order)
    ensures |KeysAfter(log, k)| < |order|
  {
    KeySetCons(order);
    if k == order[0] {
      StackedSize(log, order[1..]);
    } else {
      KeptIsShallow(log, order[1..], k);
    }
  }

  // ---- Runs ----

  datatype Step = Put(elapsed: nat, key: Key, content: nat) | Find(elapsed: nat, key: Key)

  /** The cache, the log and the clock; entries are created at the moment of insertion. */
  datatype World = World(cache: State, log: seq<Insertion>, clock: nat)

  function Do(w: World, step: Step): World {
    var now := w.clock + step.elapsed;
    match step
    case Put(_, k, content) =>
      World(Inserted(w.cache, k, Entry(content, now), now), w.log + [Insertion(k, Entry(content, now))], now)
    case Find(_, _) => World(EvictExpired(w.cache, now), w.log, now)
  }

  function Run(steps: seq<Step>): World {
    if steps == [] then World(State(map[], []), [], 0) else Do(Run(steps[..|steps| - 1]), steps[|steps| - 1])
  }

  lemma InitialKeeps()
    ensures Inv(State(map[], []), [], 0)
  {
  }

  lemma StepKeeps(w: World, step: Step)
    requires Inv(w.cache, w.log, w.clock)
    ensures Inv(Do(w, step).cache, Do(w, step).log, Do(w, step).clock)
  {
    hide Inv, Inserted, EvictExpired;
    match step
    case Put(elapsed, k, content) => InsertKeeps(w.cache, w.log, w.clock, k, Entry(content, w.clock + elapsed));
    case Find(elapsed, k) => GetAgrees(w.cache, w.log, w.clock, k, w.clock + elapsed);
  }

  lemma {:induction false} RunKeeps(steps: seq<Step>)
    ensures Inv(Run(steps).cache, Run(steps).log, Run(steps).clock)
  {
    hide Inv, Do;
    if steps == [] {
      InitialKeeps();
    } else {
      RunKeeps(steps[..|steps| - 1]);
      StepKeeps(Run(steps[..|steps| - 1]), steps[|steps| - 1]);
    }
  }

  /** After any run, a lookup returns the latest insertion of the key exactly when it is within the TTL and fewer than
      2048 distinct other keys were inserted after it. */
  lemma LookupIsExact(steps: seq<Step>, elapsed: nat, k: Key)
    ensures var w := Run(steps);
            Lookup(EvictExpired(w.cache, w.clock + elapsed), k) == Remembered(w.log, k, w.clock + elapsed)
  {
    hide Run, Inv, EvictExpired, Remembered, Lookup;
    RunKeeps(steps);
    GetAgrees(Run(steps).cache, Run(steps).log, Run(steps).clock, k, Run(steps).clock + elapsed);
  }

  /** The promise in numbers: twelve hours and 2048 entries, both inclusive of the last. */
  lemma RememberedIff(log: seq<Insertion>, k: Key, now: nat)
    ensures Remembered(log, k, now).Some? <==>
      && Latest(log, k).Some?
      && now <= Latest(log, k).value.createdAt + 43200
      && |KeysAfter(log, k)| + 1 <= 2048
    ensures Remembered(log, k, now).Some? ==> Remembered(log, k, now) == Latest(log, k)
  {
  }
}
