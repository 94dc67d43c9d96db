/** The downstream concurrency gate (src/state.rs): admitted and waiting leases per downstream and model group. */
module DownstreamGate {
  import opened Collections

  /** A downstream and the model group its request matched, "" for none. */
  datatype Key = Key(downstream: string, group: string)

  /** `DownstreamLeaseState`: expiry of each admitted lease, and the leases waiting for an upstream. */
  datatype Bucket = Bucket(admitted: map<nat, nat>, waiting: set<nat>)

  type Runtime = map<Key, Bucket>

  /** Caps of the configured groups, which have non-empty names, and of whole downstreams; milliseconds a lease
      lives. */
  datatype Config = Config(groupCaps: map<Key, nat>, globalCaps: map<string, nat>, ttl: nat)

  /** The limit that was hit, and the group of the request. */
  datatype Rejection = ConcurrencyLimitExceeded(limit: nat, group: string)

  datatype Counts = Counts(admitted: nat, waiting: nat, running: nat)

  const EMPTY := Bucket(map[], {})

  function AtLeastOne(n: nat): nat {
    if n == 0 then 1 else n
  }

  function GroupCap(c: Config, key: Key): Option<nat> {
    if key.group != "" && key in c.groupCaps then Some(AtLeastOne(c.groupCaps[key])) else None
  }

  function GlobalCap(c: Config, downstream: string): nat {
    AtLeastOne(if downstream in c.globalCaps then c.globalCaps[downstream] else 0)
  }

  function BucketAt(r: Runtime, key: Key): Bucket {
    if key in r then r[key] else EMPTY
  }

  /** `prune_expired`. */
  function Pruned(b: Bucket, now: nat): Bucket {
    var admitted := map id | id in b.admitted && b.admitted[id] > now :: b.admitted[id];
    Bucket(admitted, b.waiting * admitted.Keys)
  }

  /** The leases of a downstream in some of its buckets, each with its bucket. */
  function LeasesIn(r: Runtime, keys: set<Key>): set<(Key, nat)> {
    set k, id | k in keys && k in r && id in r[k].admitted.Keys :: (k, id)
  }

  function WaitingIn(r: Runtime, keys: set<Key>): set<(Key, nat)> {
    set k, id | k in keys && k in r && id in r[k].waiting :: (k, id)
  }

  function KeysOf(r: Runtime, downstream: string): set<Key> {
    set k | k in r && k.downstream == downstream
  }

  /** `downstream_total_admitted`; leases that lapsed and were not pruned count. */
  function TotalAdmitted(r: Runtime, downstream: string): nat {
    |LeasesIn(r, KeysOf(r, downstream))|
  }

  function Admit(r: Runtime, key: Key, id: nat, now: nat, ttl: nat): Runtime {
    var bucket := Pruned(BucketAt(r, key), now);
    r[key := bucket.(admitted := bucket.admitted[id := now + ttl])]
  }

  /** The group gate prunes the group's bucket; without a group nothing happens before the global gate. */
  function GroupGate(c: Config, r: Runtime, key: Key, now: nat): Runtime {
    if GroupCap(c, key).Some? then r[key := Pruned(BucketAt(r, key), now)] else r
  }

  /** `try_reserve_downstream_concurrency`: the group cap first, then the cap over all groups. */
  function TryReserve(c: Config, r: Runtime, key: Key, id: nat, now: nat): (Runtime, Option<Rejection>) {
    var gated := GroupGate(c, r, key, now);
    if GroupCap(c, key).Some? && |BucketAt(gated, key).admitted| >= GroupCap(c, key).value
    then (gated, Some(ConcurrencyLimitExceeded(GroupCap(c, key).value, key.group)))
    else if TotalAdmitted(gated, key.downstream) >= GlobalCap(c, key.downstream)
    then (gated, Some(ConcurrencyLimitExceeded(GlobalCap(c, key.downstream), key.group)))
    else (Admit(gated, key, id, now, c.ttl), None)
  }

  function Dropped(b: Bucket, id: nat): Bucket {
    Bucket(b.admitted - {id}, b.waiting - {id})
  }

  /** A release; an emptied bucket goes. */
  function Release(r: Runtime, key: Key, id: nat): Runtime {
    if key !in r then r
    else if Dropped(r[key], id) == EMPTY then r - {key}
    else r[key := Dropped(r[key], id)]
  }

  // ---- What a release reports ----

  /** The release reports that the bucket became empty and went. */
  predicate Reported(r: Runtime, key: Key, id: nat) {
    key in r && key !in Release(r, key, id)
  }

  /** Something was there to remove. */
  predicate Removes(r: Runtime, key: Key, id: nat) {
    key in r && id in r[key].admitted
  }

  /** The report tells whether the lease was removed exactly when the bucket is missing, or holds that lease and
      nothing of any other, or does not hold it but holds something of another. */
  lemma ReportTellsRemovalIff(r: Runtime, key: Key, id: nat)
    ensures Reported(r, key, id) == Removes(r, key, id) <==>
      || key !in r
      || (r[key].admitted.Keys == {id} && r[key].waiting <= {id})
      || (id !in r[key].admitted && !(r[key].admitted == map[] && r[key].waiting <= {id}))
  {
    if key in r {
      DroppedIsEmpty(r[key], id);
      hide Dropped;
    }
  }

  lemma DroppedIsEmpty(b: Bucket, id: nat)
    ensures Dropped(b, id) == EMPTY <==> b.admitted.Keys <= {id} && b.waiting <= {id}
    ensures b.admitted.Keys <= {id} <==> b.admitted == map[] || b.admitted.Keys == {id}
  {
    if b.admitted.Keys <= {id} {
      assert (b.admitted - {id}).Keys == {};
      if id !in b.admitted {
        assert b.admitted.Keys == {};
      }
    }
    if Dropped(b, id) == EMPTY {
      assert forall k | k in b.admitted.Keys :: k in (b.admitted - {id}).Keys || k == id;
      assert forall k | k in b.waiting :: k in b.waiting - {id} || k == id;
    }
  }

  function Renew(c: Config, r: Runtime, key: Key, id: nat, now: nat): Runtime {
    if key in r && id in r[key].admitted
    then r[key := r[key].(admitted := r[key].admitted[id := now + c.ttl])]
    else r
  }

  /** `mark_downstream_waiting`: a lease that lapsed, or was never there, cannot wait. */
  function MarkWaiting(r: Runtime, key: Key, id: nat, now: nat): (Runtime, bool) {
    if key !in r then (r, false)
    else
      var bucket := Pruned(r[key], now);
      if id in bucket.admitted then (r[key := bucket.(waiting := bucket.waiting + {id})], true)
      else (r[key := bucket], false)
  }

  function UnmarkWaiting(r: Runtime, key: Key, id: nat): Runtime {
    if key in r then r[key := r[key].(waiting := r[key].waiting - {id})] else r
  }

  /** A waiting lease that is granted a probe stops waiting. */
  function ProbeGrant(r: Runtime, key: Key, id: nat, granted: bool): (Runtime, bool) {
    if key !in r || id !in r[key].admitted || id !in r[key].waiting then (r, false)
    else (if granted then UnmarkWaiting(r, key, id) else r, true)
  }

  /** Every bucket of the downstream is pruned before counting. */
  function PrunedFor(r: Runtime, downstream: string, now: nat): Runtime {
    map k | k in r :: if k.downstream == downstream then Pruned(r[k], now) else r[k]
  }

  function Forget(r: Runtime, downstream: string): Runtime {
    r - KeysOf(r, downstream)
  }

  // ---- Counting ----

  function Tagged(key: Key, ids: set<nat>): set<(Key, nat)> {
    set id | id in ids :: (key, id)
  }

  lemma {:induction false} TaggedSize(key: Key, ids: set<nat>)
    ensures |Tagged(key, ids)| == |ids|
  {
    if ids != {} {
      var id :| id in ids;
      TaggedSize(key, ids - {id});
      assert Tagged(key, ids) == Tagged(key, ids - {id}) + {(key, id)};
    }
  }

  lemma OneMoreBucket(r: Runtime, keys: set<Key>, key: Key)
    requires key in r && key !in keys
    ensures |LeasesIn(r, keys + {key})| == |LeasesIn(r, keys)| + |r[key].admitted|
  {
    var added := Tagged(key, r[key].admitted.Keys);
    TaggedSize(key, r[key].admitted.Keys);
    assert LeasesIn(r, keys + {key}) == LeasesIn(r, keys) + added;
    assert LeasesIn(r, keys) !! added;
  }

  lemma OneMoreWaiting(r: Runtime, keys: set<Key>, key: Key)
    requires key in r && key !in keys
    ensures |WaitingIn(r, keys + {key})| == |WaitingIn(r, keys)| + |r[key].waiting|
  {
    var added := Tagged(key, r[key].waiting);
    TaggedSize(key, r[key].waiting);
    assert WaitingIn(r, keys + {key}) == WaitingIn(r, keys) + added;
    assert WaitingIn(r, keys) !! added;
  }

  // ---- The gate as the object it is ----

  class Gate {
    const config: Config
    var runtime: Runtime

    constructor (config: Config)
      ensures runtime == map[] && this.config == config
    {
      this.config, runtime := config, map[];
    }

    /** The sum over the downstream's buckets, in any order. */
    method CountAdmitted(downstream: string) returns (total: nat)
      ensures total == TotalAdmitted(runtime, downstream)
    {
      hide LeasesIn;
      var keys := KeysOf(runtime, downstream);
      var rest := keys;
      total := 0;
      assert keys - rest == {};
      assert LeasesIn(runtime, {}) == {} by {
        NoBuckets(runtime);
      }
      while rest != {}
        invariant rest <= keys && total == |LeasesIn(runtime, keys - rest)|
        decreases rest
      {
        var k: Key :| k in rest;
        OneMoreBucket(runtime, keys - rest, k);
        assert keys - (rest - {k}) == keys - rest + {k};
        total := total + |runtime[k].admitted|;
        rest := rest - {k};
      }
      assert keys - rest == keys;
    }

    lemma NoBuckets(r: Runtime)
      ensures LeasesIn(r, {}) == {} && WaitingIn(r, {}) == {}
    {
    }

    method TryReserveConcurrency(key: Key, id: nat, now: nat) returns (rejection: Option<Rejection>)
      modifies this
      ensures (runtime, rejection) == TryReserve(config, old(runtime), key, id, now)
    {
      hide Pruned, TotalAdmitted;
      var cap := GroupCap(config, key);
      if cap.Some? {
        var current := Pruned(BucketAt(runtime, key), now);
        runtime := runtime[key := current];
        if |current.admitted| >= cap.value {
          return Some(ConcurrencyLimitExceeded(cap.value, key.group));
        }
      }
      var total := CountAdmitted(key.downstream);
      if total >= GlobalCap(config, key.downstream) {
        return Some(ConcurrencyLimitExceeded(GlobalCap(config, key.downstream), key.group));
      }
      var current := Pruned(BucketAt(runtime, key), now);
      runtime := runtime[key := current.(admitted := current.admitted[id := now + config.ttl])];
      return None;
    }

    method ReleaseConcurrency(key: Key, id: nat) returns (emptied: bool)
      modifies this
      ensures runtime == Release(old(runtime), key, id)
      ensures emptied == (key in old(runtime) && key !in runtime)
    {
      emptied := false;
      if key in runtime {
        var bucket := Bucket(runtime[key].admitted - {id}, runtime[key].waiting - {id});
        emptied := bucket.admitted == map[] && bucket.waiting == {};
        if emptied {
          runtime := runtime - {key};
        } else {
          runtime := runtime[key := bucket];
        }
      }
    }

    method RenewConcurrency(key: Key, id: nat, now: nat)
      modifies this
      ensures runtime == Renew(config, old(runtime), key, id, now)
    {
      if key in runtime && id in runtime[key].admitted {
        runtime := runtime[key := runtime[key].(admitted := runtime[key].admitted[id := now + config.ttl])];
      }
    }

    method Mark(key: Key, id: nat, now: nat) returns (ok: bool)
      modifies this
      ensures (runtime, ok) == MarkWaiting(old(runtime), key, id, now)
    {
      ok := false;
      if key in runtime {
        var bucket := Pruned(runtime[key], now);
        ok := id in bucket.admitted;
        if ok {
          bucket := bucket.(waiting := bucket.waiting + {id});
        }
        runtime := runtime[key := bucket];
      }
    }

    method Unmark(key: Key, id: nat)
      modifies this
      ensures runtime == UnmarkWaiting(old(runtime), key, id)
    {
      if key in runtime {
        runtime := runtime[key := runtime[key].(waiting := runtime[key].waiting - {id})];
      }
    }

    /** `downstream_runtime_snapshot`: prune, sum both columns, subtract; the subtraction may fail. */
    method Snapshot(downstream: string, now: nat) returns (counts: Option<Counts>)
      modifies this
      ensures runtime == PrunedFor(old(runtime), downstream, now)
      ensures var keys := KeysOf(runtime, downstream);
              var admitted, waiting := |LeasesIn(runtime, keys)|, |WaitingIn(runtime, keys)|;
              counts == if waiting <= admitted then Some(Counts(admitted, waiting, admitted - waiting)) else None
    {
      hide LeasesIn, WaitingIn, Pruned;
      runtime := PrunedFor(runtime, downstream, now);
      ghost var pruned := runtime;
      var keys := KeysOf(runtime, downstream);
      var rest, admitted, waiting := keys, 0, 0;
      assert keys - rest == {};
      NoBuckets(runtime);
      while rest != {}
        invariant rest <= keys && runtime == pruned
        invariant admitted == |LeasesIn(runtime, keys - rest)| && waiting == |WaitingIn(runtime, keys - rest)|
        decreases rest
      {
        var k: Key :| k in rest;
        OneMoreBucket(runtime, keys - rest, k);
        OneMoreWaiting(runtime, keys - rest, k);
        assert keys - (rest - {k}) == keys - rest + {k};
        admitted, waiting := admitted + |runtime[k].admitted|, waiting + |runtime[k].waiting|;
        rest := rest - {k};
      }
      assert keys - rest == keys;
      counts := if waiting <= admitted then Some(Counts(admitted, waiting, admitted - waiting)) else None;
    }
  }
}
