/** Whole-run properties of the downstream gate with a fixed configuration. */
module DownstreamGateRuns {
  import opened Collections
  import opened DownstreamGate

  /** The gate, the clock, and the supply of lease ids. */
  datatype State = State(runtime: Runtime, clock: nat, nextId: nat)

  const INITIAL := State(map[], 0, 0)

  datatype Step =
    | Tick(elapsed: nat)
    | Reserve(key: Key)
    | Free(key: Key, id: nat)
    | Extend(key: Key, id: nat)
    | Mark(key: Key, id: nat)
    | Unmark(key: Key, id: nat)
    | Probe(key: Key, id: nat, granted: bool)
    | Observe(downstream: string)
    | Remove(downstream: string)

  function Do(c: Config, st: State, step: Step): State {
    match step
    case Tick(elapsed) => st.(clock := st.clock + elapsed)
    case Reserve(key) => st.(runtime := TryReserve(c, st.runtime, key, st.nextId, st.clock).0, nextId := st.nextId + 1)
    case Free(key, id) => st.(runtime := Release(st.runtime, key, id))
    case Extend(key, id) => st.(runtime := Renew(c, st.runtime, key, id, st.clock))
    case Mark(key, id) => st.(runtime := MarkWaiting(st.runtime, key, id, st.clock).0)
    case Unmark(key, id) => st.(runtime := UnmarkWaiting(st.runtime, key, id))
    case Probe(key, id, granted) => st.(runtime := ProbeGrant(st.runtime, key, id, granted).0)
    case Observe(downstream) => st.(runtime := PrunedFor(st.runtime, downstream, st.clock))
    case Remove(downstream) => st.(runtime := Forget(st.runtime, downstream))
  }

  function Run(c: Config, steps: seq<Step>): State {
    if steps == [] then INITIAL else Do(c, Run(c, steps[..|steps| - 1]), steps[|steps| - 1])
  }

  // ---- The invariant ----

  predicate BucketOk(c: Config, key: Key, b: Bucket) {
    && b.waiting <= b.admitted.Keys
    && (GroupCap(c, key).Some? ==> |b.admitted| <= GroupCap(c, key).value)
  }

  ghost predicate BucketsOk(c: Config, r: Runtime) {
    forall k | k in r :: BucketOk(c, k, r[k])
  }

  ghost predicate TotalsOk(c: Config, r: Runtime) {
    forall downstream: string :: TotalAdmitted(r, downstream) <= GlobalCap(c, downstream)
  }

  ghost predicate Inv(c: Config, r: Runtime) {
    BucketsOk(c, r) && TotalsOk(c, r)
  }

  /** Changing one bucket without admitting a lease. */
  lemma Shrinks(c: Config, r: Runtime, next: Runtime)
    requires TotalsOk(c, r)
    requires next.Keys <= r.Keys && forall k | k in next :: next[k].admitted.Keys <= r[k].admitted.Keys
    ensures TotalsOk(c, next)
  {
    forall downstream: string
      ensures TotalAdmitted(next, downstream) <= GlobalCap(c, downstream)
    {
      assert TotalAdmitted(r, downstream) <= GlobalCap(c, downstream);
      SubsetSize(LeasesIn(next, KeysOf(next, downstream)), LeasesIn(r, KeysOf(r, downstream)));
    }
  }

  lemma PrunedOk(c: Config, key: Key, b: Bucket, now: nat)
    requires BucketOk(c, key, b)
    ensures BucketOk(c, key, Pruned(b, now)) && Pruned(b, now).admitted.Keys <= b.admitted.Keys
  {
    SubsetSize(Pruned(b, now).admitted.Keys, b.admitted.Keys);
  }

  /** Putting a bucket that admits nothing new in its place. */
  lemma PutKeeps(c: Config, r: Runtime, key: Key, b: Bucket)
    requires Inv(c, r) && BucketOk(c, key, b) && b.admitted.Keys <= BucketAt(r, key).admitted.Keys
    ensures Inv(c, r[key := b])
  {
    hide BucketOk;
    var next := r[key := b];
    forall downstream: string
      ensures TotalAdmitted(next, downstream) <= GlobalCap(c, downstream)
    {
      assert TotalAdmitted(r, downstream) <= GlobalCap(c, downstream);
      SubsetSize(LeasesIn(next, KeysOf(next, downstream)), LeasesIn(r, KeysOf(r, downstream)));
    }
  }

  lemma BucketAtOk(c: Config, r: Runtime, key: Key)
    requires BucketsOk(c, r)
    ensures BucketOk(c, key, BucketAt(r, key))
  {
  }

  lemma GateKeeps(c: Config, r: Runtime, key: Key, now: nat)
    requires Inv(c, r)
    ensures Inv(c, GroupGate(c, r, key, now))
  {
    hide BucketOk, TotalsOk, Pruned;
    BucketAtOk(c, r, key);
    PrunedOk(c, key, BucketAt(r, key), now);
    PutKeeps(c, r, key, Pruned(BucketAt(r, key), now));
  }

  /** One more lease in a bucket adds one to its downstream's total. */
  lemma OneMoreLease(r: Runtime, key: Key, id: nat, expiry: nat, downstream: string)
    ensures var b := BucketAt(r, key);
            TotalAdmitted(r[key := b.(admitted := b.admitted[id := expiry])], downstream)
              <= TotalAdmitted(r, downstream) + if key.downstream == downstream then 1 else 0
  {
    var b := BucketAt(r, key);
    var next := r[key := b.(admitted := b.admitted[id := expiry])];
    var before, after := LeasesIn(r, KeysOf(r, downstream)), LeasesIn(next, KeysOf(next, downstream));
    if key.downstream == downstream {
      assert after == before + {(key, id)};
    } else {
      assert after == before;
    }
  }

  lemma AdmitTotals(c: Config, r: Runtime, key: Key, id: nat, now: nat)
    requires Inv(c, r) && TotalAdmitted(r, key.downstream) < GlobalCap(c, key.downstream)
    ensures TotalsOk(c, Admit(r, key, id, now, c.ttl))
  {
    BucketAtOk(c, r, key);
    PrunedOk(c, key, BucketAt(r, key), now);
    var pruned := r[key := Pruned(BucketAt(r, key), now)];
    PutKeeps(c, r, key, Pruned(BucketAt(r, key), now));
    PutShrinks(r, key, Pruned(BucketAt(r, key), now));
    hide BucketOk, Pruned, TotalAdmitted, BucketsOk;
    var next := Admit(r, key, id, now, c.ttl);
    assert next == pruned[key := BucketAt(pruned, key).(admitted := BucketAt(pruned, key).admitted[id := now + c.ttl])];
    forall downstream: string
      ensures TotalAdmitted(next, downstream) <= GlobalCap(c, downstream)
    {
      assert TotalAdmitted(pruned, downstream) <= GlobalCap(c, downstream);
      OneMoreLease(pruned, key, id, now + c.ttl, downstream);
    }
  }

  lemma PutShrinks(r: Runtime, key: Key, b: Bucket)
    requires b.admitted.Keys <= BucketAt(r, key).admitted.Keys
    ensures TotalAdmitted(r[key := b], key.downstream) <= TotalAdmitted(r, key.downstream)
  {
    var next := r[key := b];
    SubsetSize(LeasesIn(next, KeysOf(next, key.downstream)), LeasesIn(r, KeysOf(r, key.downstream)));
  }

  lemma AdmitBuckets(c: Config, r: Runtime, key: Key, id: nat, now: nat)
    requires BucketsOk(c, r)
    requires GroupCap(c, key).Some? ==> |BucketAt(r, key).admitted| < GroupCap(c, key).value
    ensures BucketsOk(c, Admit(r, key, id, now, c.ttl))
  {
    BucketAtOk(c, r, key);
    PrunedOk(c, key, BucketAt(r, key), now);
    var b := Pruned(BucketAt(r, key), now);
    SubsetSize(b.admitted.Keys, BucketAt(r, key).admitted.Keys);
    assert b.admitted[id := now + c.ttl].Keys == b.admitted.Keys + {id};
  }

  lemma ReserveKeeps(c: Config, r: Runtime, key: Key, id: nat, now: nat)
    requires Inv(c, r)
    ensures Inv(c, TryReserve(c, r, key, id, now).0)
  {
    GateKeeps(c, r, key, now);
    hide Inv, TotalAdmitted, GroupGate, Admit;
    var gated := GroupGate(c, r, key, now);
    if TryReserve(c, r, key, id, now).1.None? {
      AdmitKeeps(c, gated, key, id, now);
    }
  }

  lemma AdmitKeeps(c: Config, r: Runtime, key: Key, id: nat, now: nat)
    requires Inv(c, r) && TotalAdmitted(r, key.downstream) < GlobalCap(c, key.downstream)
    requires GroupCap(c, key).Some? ==> |BucketAt(r, key).admitted| < GroupCap(c, key).value
    ensures Inv(c, Admit(r, key, id, now, c.ttl))
  {
    AdmitTotals(c, r, key, id, now);
    AdmitBuckets(c, r, key, id, now);
  }

  lemma DroppedOk(c: Config, key: Key, b: Bucket, id: nat)
    requires BucketOk(c, key, b)
    ensures BucketOk(c, key, Dropped(b, id))
  {
    SubsetSize(Dropped(b, id).admitted.Keys, b.admitted.Keys);
  }

  lemma ReleaseKeeps(c: Config, r: Runtime, key: Key, id: nat)
    requires Inv(c, r)
    ensures Inv(c, Release(r, key, id))
  {
    if key in r {
      DroppedOk(c, key, r[key], id);
      Shrinks(c, r, Release(r, key, id));
    }
  }

  lemma RenewKeeps(c: Config, r: Runtime, key: Key, id: nat, now: nat)
    requires Inv(c, r)
    ensures Inv(c, Renew(c, r, key, id, now))
  {
    if key in r && id in r[key].admitted {
      var b := r[key].(admitted := r[key].admitted[id := now + c.ttl]);
      assert b.admitted.Keys == r[key].admitted.Keys;
      PutKeeps(c, r, key, b);
    }
  }

  lemma MarkKeeps(c: Config, r: Runtime, key: Key, id: nat, now: nat)
    requires Inv(c, r)
    ensures Inv(c, MarkWaiting(r, key, id, now).0)
  {
    if key in r {
      PrunedOk(c, key, r[key], now);
      var b := Pruned(r[key], now);
      PutKeeps(c, r, key, b);
      if id in b.admitted {
        PutKeeps(c, r, key, b.(waiting := b.waiting + {id}));
      }
    }
  }

  lemma UnmarkKeeps(c: Config, r: Runtime, key: Key, id: nat)
    requires Inv(c, r)
    ensures Inv(c, UnmarkWaiting(r, key, id))
  {
    if key in r {
      PutKeeps(c, r, key, r[key].(waiting := r[key].waiting - {id}));
    }
  }

  lemma ObserveKeeps(c: Config, r: Runtime, downstream: string, now: nat)
    requires Inv(c, r)
    ensures Inv(c, PrunedFor(r, downstream, now))
  {
    var next := PrunedFor(r, downstream, now);
    forall k | k in r
      ensures BucketOk(c, k, next[k]) && next[k].admitted.Keys <= r[k].admitted.Keys
    {
      PrunedOk(c, k, r[k], now);
    }
    Shrinks(c, r, next);
  }

  lemma ForgetKeeps(c: Config, r: Runtime, downstream: string)
    requires Inv(c, r)
    ensures Inv(c, Forget(r, downstream))
  {
    Shrinks(c, r, Forget(r, downstream));
  }

  lemma StepKeeps(c: Config, st: State, step: Step)
    requires Inv(c, st.runtime)
    ensures Inv(c, Do(c, st, step).runtime)
  {
    hide Inv, TryReserve, Release, Renew, MarkWaiting, UnmarkWaiting, PrunedFor, Forget;
    match step
    case Tick(_) =>
    case Reserve(key) => ReserveKeeps(c, st.runtime, key, st.nextId, st.clock);
    case Free(key, id) => ReleaseKeeps(c, st.runtime, key, id);
    case Extend(key, id) => RenewKeeps(c, st.runtime, key, id, st.clock);
    case Mark(key, id) => MarkKeeps(c, st.runtime, key, id, st.clock);
    case Unmark(key, id) => UnmarkKeeps(c, st.runtime, key, id);
    case Probe(key, id, _) => UnmarkKeeps(c, st.runtime, key, id);
    case Observe(downstream) => ObserveKeeps(c, st.runtime, downstream, st.clock);
    case Remove(downstream) => ForgetKeeps(c, st.runtime, downstream);
  }

  lemma InitialKeeps(c: Config)
    ensures Inv(c, INITIAL.runtime)
  {
    forall downstream: string
      ensures TotalAdmitted(map[], downstream) <= GlobalCap(c, downstream)
    {
      assert LeasesIn(map[], KeysOf(map[], downstream)) == {};
    }
  }

  /** In every run, each group stays within its cap, each downstream within its cap over all groups, and only admitted
      leases wait. */
  lemma {:induction false} GateNeverOverAdmits(c: Config, steps: seq<Step>)
    ensures Inv(c, Run(c, steps).runtime)
  {
    hide Inv, Do;
    if steps == [] {
      InitialKeeps(c);
    } else {
      GateNeverOverAdmits(c, steps[..|steps| - 1]);
      StepKeeps(c, Run(c, steps[..|steps| - 1]), steps[|steps| - 1]);
    }
  }

  /** After any run the snapshot's subtraction succeeds: no more leases wait than are admitted. */
  lemma SnapshotNeverFails(c: Config, steps: seq<Step>, downstream: string)
    ensures var st := Run(c, steps);
            var r := PrunedFor(st.runtime, downstream, st.clock);
            |WaitingIn(r, KeysOf(r, downstream))| <= |LeasesIn(r, KeysOf(r, downstream))|
  {
    hide Run;
    var st := Run(c, steps);
    GateNeverOverAdmits(c, steps);
    ObserveKeeps(c, st.runtime, downstream, st.clock);
    WaitingIsAdmitted(c, PrunedFor(st.runtime, downstream, st.clock), downstream);
  }

  lemma WaitingIsAdmitted(c: Config, r: Runtime, downstream: string)
    requires BucketsOk(c, r)
    ensures |WaitingIn(r, KeysOf(r, downstream))| <= |LeasesIn(r, KeysOf(r, downstream))|
  {
    var keys := KeysOf(r, downstream);
    assert forall k | k in r :: BucketOk(c, k, r[k]);
    SubsetSize(WaitingIn(r, keys), LeasesIn(r, keys));
  }

  // ---- What a release reports ----

  /** After any run the report is right exactly when the bucket is missing, or the lease is the only one admitted
      there, or it is not admitted and another is. */
  lemma ReportTellsRemovalInRuns(c: Config, steps: seq<Step>, key: Key, id: nat)
    ensures var r := Run(c, steps).runtime;
            Reported(r, key, id) == Removes(r, key, id) <==>
              || key !in r
              || r[key].admitted.Keys == {id}
              || (id !in r[key].admitted && r[key].admitted != map[])
  {
    hide Run, Reported, Removes;
    GateNeverOverAdmits(c, steps);
    var r := Run(c, steps).runtime;
    ReportTellsRemovalIff(r, key, id);
    if key in r {
      assert BucketOk(c, key, r[key]);
    }
  }

  /** The first reservation is always admitted. */
  lemma FirstIsAdmitted(c: Config, key: Key)
    ensures Run(c, [Reserve(key)]) == State(map[key := Bucket(map[0 := c.ttl], {})], 0, 1)
  {
    assert [Reserve(key)][..0] == [];
    assert Run(c, []) == INITIAL;
    var gated := GroupGate(c, map[], key, 0);
    assert Pruned(EMPTY, 0) == EMPTY;
    assert LeasesIn(gated, KeysOf(gated, key.downstream)) == {};
    assert Admit(gated, key, 0, 0, c.ttl) == map[key := Bucket(map[0 := c.ttl], {})];
  }

  lemma RunNext(c: Config, steps: seq<Step>, step: Step)
    ensures Run(c, steps + [step]) == Do(c, Run(c, steps), step)
  {
    assert (steps + [step])[..|steps|] == steps;
  }

  /** Releasing a lease that lapsed and was pruned reports a removal, although nothing was there to remove: this
      happens under every configuration. */
  lemma LapsedReleaseReportsRemoval(c: Config, key: Key)
    ensures var r := Run(c, [Reserve(key)] + [Tick(c.ttl)] + [Observe(key.downstream)]).runtime;
            Reported(r, key, 0) && !Removes(r, key, 0)
  {
    hide Run;
    FirstIsAdmitted(c, key);
    RunNext(c, [Reserve(key)], Tick(c.ttl));
    RunNext(c, [Reserve(key)] + [Tick(c.ttl)], Observe(key.downstream));
    var lapsed := Bucket(map[0 := c.ttl], {});
    assert Pruned(lapsed, c.ttl) == EMPTY;
    assert PrunedFor(map[key := lapsed], key.downstream, c.ttl) == map[key := EMPTY];
    assert Dropped(EMPTY, 0) == EMPTY;
  }

  /** Releasing one of two leases reports nothing, although the lease went: under every configuration that admits
      two. */
  lemma SharedReleaseReportsNothing(c: Config, key: Key)
    requires 0 < c.ttl && 2 <= GlobalCap(c, key.downstream) && (GroupCap(c, key).Some? ==> 2 <= GroupCap(c, key).value)
    ensures var r := Run(c, [Reserve(key)] + [Reserve(key)]).runtime;
            !Reported(r, key, 0) && Removes(r, key, 0) && 0 !in Release(r, key, 0)[key].admitted
  {
    hide Run;
    FirstIsAdmitted(c, key);
    RunNext(c, [Reserve(key)], Reserve(key));
    var one := map[key := Bucket(map[0 := c.ttl], {})];
    assert Pruned(one[key], 0) == one[key];
    assert GroupGate(c, one, key, 0) == one;
    assert LeasesIn(one, KeysOf(one, key.downstream)) == {(key, 0)};
    assert TryReserve(c, one, key, 1, 0).1.None?;
    var two := Bucket(map[0 := c.ttl, 1 := c.ttl], {});
    assert Admit(one, key, 1, 0, c.ttl)[key] == two;
    assert 1 in Dropped(two, 0).admitted;
  }

  /** A rejection admits nothing: at most the group's own lapsed leases go. */
  lemma RejectionAdmitsNothing(c: Config, r: Runtime, key: Key, id: nat, now: nat)
    requires TryReserve(c, r, key, id, now).1.Some?
    ensures var next := TryReserve(c, r, key, id, now).0;
            && next == GroupGate(c, r, key, now)
            && (forall k | k in r && k != key :: k in next && next[k] == r[k])
            && BucketAt(next, key).admitted.Keys <= BucketAt(r, key).admitted.Keys
  {
  }

  // ---- Admission ----

  /** The unlapsed leases of a bucket. */
  function LiveIds(b: Bucket, now: nat): set<nat> {
    set id | id in b.admitted && now < b.admitted[id]
  }

  /** Leases of the downstream outside one bucket, lapsed ones included. */
  function Elsewhere(r: Runtime, key: Key): set<(Key, nat)> {
    set k, id | k in r && k != key && k.downstream == key.downstream && id in r[k].admitted.Keys :: (k, id)
  }

  /** Main result: a request is admitted exactly when its group, if it has a cap, holds fewer unlapsed leases than
      the cap, and its downstream fewer leases than the cap over all groups; a lapsed lease of a capped group stands
      in the way of neither, one that lies elsewhere counts until it is pruned. */
  lemma AdmittedIff(c: Config, r: Runtime, key: Key, id: nat, now: nat)
    ensures var bucket, capped := BucketAt(r, key), key.group != "" && key in c.groupCaps;
            var live := |LiveIds(bucket, now)|;
            var own := if capped then live else |bucket.admitted|;
            var groupCap := if capped then (if c.groupCaps[key] < 1 then 1 else c.groupCaps[key]) else 0;
            var known := key.downstream in c.globalCaps && c.globalCaps[key.downstream] >= 1;
            var globalCap := if known then c.globalCaps[key.downstream] else 1;
            match TryReserve(c, r, key, id, now).1
            case None => (capped ==> live < groupCap) && own + |Elsewhere(r, key)| < globalCap
            case Some(ConcurrencyLimitExceeded(limit, group)) =>
              && group == key.group
              && if capped && live >= groupCap then limit == groupCap
                 else limit == globalCap && own + |Elsewhere(r, key)| >= globalCap
  {
    var bucket, gated := BucketAt(r, key), GroupGate(c, r, key, now);
    assert Pruned(bucket, now).admitted.Keys == LiveIds(bucket, now);
    assert |Pruned(bucket, now).admitted| == |LiveIds(bucket, now)|;
    OwnAndElsewhere(gated, key);
    assert Elsewhere(gated, key) == Elsewhere(r, key);
    hide TotalAdmitted, Elsewhere, LiveIds, Pruned;
  }

  lemma OwnAndElsewhere(r: Runtime, key: Key)
    ensures TotalAdmitted(r, key.downstream) == |BucketAt(r, key).admitted| + |Elsewhere(r, key)|
  {
    var all, own := LeasesIn(r, KeysOf(r, key.downstream)), Tagged(key, BucketAt(r, key).admitted.Keys);
    TaggedSize(key, BucketAt(r, key).admitted.Keys);
    assert all == own + Elsewhere(r, key);
    assert own !! Elsewhere(r, key);
  }

  /** An admitted lease lasts one TTL, and beside it only the lapsed leases of its bucket go. */
  lemma AdmittedLasts(c: Config, r: Runtime, key: Key, id: nat, now: nat)
    requires TryReserve(c, r, key, id, now).1.None?
    ensures var next := TryReserve(c, r, key, id, now).0;
            && key in next && id in next[key].admitted && next[key].admitted[id] == now + c.ttl
            && (forall other | other != id && other in BucketAt(r, key).admitted
                               && BucketAt(r, key).admitted[other] > now ::
                  other in next[key].admitted && next[key].admitted[other] == BucketAt(r, key).admitted[other])
            && forall k | k in r && k != key :: k in next && next[k] == r[k]
  {
  }

  /** A renewal moves the expiry of an admitted lease one TTL from now; marking makes an unlapsed lease wait,
      unmarking ends it, and a granted probe ends it for a lease that waits. */
  lemma LeaseSteps(c: Config, r: Runtime, key: Key, id: nat, now: nat, granted: bool)
    requires key in r
    ensures id in r[key].admitted ==>
      Renew(c, r, key, id, now) == r[key := r[key].(admitted := r[key].admitted[id := now + c.ttl])]
    ensures var (next, ok) := MarkWaiting(r, key, id, now);
            && (ok <==> id in LiveIds(r[key], now))
            && key in next && (ok ==> id in next[key].waiting)
            && next[key].admitted.Keys == LiveIds(r[key], now)
    ensures key in UnmarkWaiting(r, key, id) && UnmarkWaiting(r, key, id)[key].waiting == r[key].waiting - {id}
    ensures var (next, ok) := ProbeGrant(r, key, id, granted);
            && (ok <==> id in r[key].admitted && id in r[key].waiting)
            && key in next && (id in next[key].waiting <==> id in r[key].waiting && !(ok && granted))
  {
  }

  /** Forgetting a downstream frees all its slots and touches no other's. */
  lemma ForgetFrees(r: Runtime, downstream: string)
    ensures TotalAdmitted(Forget(r, downstream), downstream) == 0
    ensures forall k | k in r && k.downstream != downstream ::
              k in Forget(r, downstream) && Forget(r, downstream)[k] == r[k]
    ensures Forget(r, downstream).Keys <= r.Keys
  {
    assert LeasesIn(Forget(r, downstream), KeysOf(Forget(r, downstream), downstream)) == {};
  }
}
