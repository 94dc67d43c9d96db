/** The bounded probe queue (src/capabilities/probe_queue.rs, `ProbeQueueState`). */
module ProbeQueue {
  import opened Collections

  /** `DialectProfileKey`: an upstream and what distinguishes its routes. */
  datatype Key = Key(upstream: string, route: string)

  /** A job; `id` tells submissions apart, `configuration` stands for the binding and the plan digest. */
  datatype Job = Job(id: nat, key: Key, models: set<string>, configuration: nat)

  datatype State = State(
    pending: seq<Job>, known: set<Key>, active: set<Key>, activeJobs: map<Key, Job>, activeByUpstream: map<string, nat>,
    maxGlobal: nat, maxPerUpstream: nat, maxJobs: nat)

  datatype Outcome = Enqueued | Unchanged | Replaced(discarded: Job) | Rejected(job: Job)

  function AtLeastOne(n: nat): nat {
    if n == 0 then 1 else n
  }

  function Initial(maxGlobal: nat, maxPerUpstream: nat, maxJobs: nat): State {
    State([], {}, {}, map[], map[], AtLeastOne(maxGlobal), AtLeastOne(maxPerUpstream), AtLeastOne(maxJobs))
  }

  predicate SameConfiguration(left: Job, right: Job) {
    left.configuration == right.configuration
  }

  /** Position of the first pending job with the key, or the length. */
  function PositionOf(pending: seq<Job>, key: Key): (i: nat)
    ensures i <= |pending|
    ensures i < |pending| ==> pending[i].key == key
    ensures forall k | 0 <= k < i :: pending[k].key != key
  {
    if pending == [] || pending[0].key == key then 0 else 1 + PositionOf(pending[1..], key)
  }

  predicate IsFull(st: State) {
    |st.active| + |st.pending| >= st.maxJobs
  }

  /** A job for a key that is already pending. */
  function Fold(st: State, i: nat, job: Job): (State, Outcome)
    requires i < |st.pending|
  {
    var twin := st.pending[i];
    if SameConfiguration(twin, job)
    then (st.(pending := st.pending[i := twin.(models := twin.models + job.models)]), Unchanged)
    else (st.(pending := st.pending[i := job]), Replaced(twin))
  }

  predicate CoveredByActive(st: State, job: Job) {
    && job.key in st.activeJobs
    && SameConfiguration(st.activeJobs[job.key], job)
    && job.models <= st.activeJobs[job.key].models
  }

  function Append(st: State, job: Job): (State, Outcome) {
    if IsFull(st) then (st, Rejected(job)) else (st.(known := st.known + {job.key}, pending := st.pending + [job]),
                                                 Enqueued)
  }

  /** `enqueue_with_outcome`. */
  function Enqueue(st: State, job: Job): (State, Outcome) {
    if job.key !in st.known then Append(st, job)
    else
      var i := PositionOf(st.pending, job.key);
      if i < |st.pending| then Fold(st, i, job)
      else if job.key !in st.active || CoveredByActive(st, job) then (st, Unchanged)
      else Append(st, job)
  }

  /** `enqueue_batch_with_outcome`: what remains of the batch, and the jobs it displaced. */
  function EnqueueBatch(st: State, jobs: seq<Job>): (State, seq<Job>, seq<Job>)
    decreases |jobs|
  {
    if jobs == [] then (st, [], [])
    else
      var (st, outcome) := Enqueue(st, jobs[0]);
      if outcome.Rejected? then (st, jobs, [])
      else
        var (st, remaining, replaced) := EnqueueBatch(st, jobs[1..]);
        (st, remaining, (if outcome.Replaced? then [outcome.discarded] else []) + replaced)
  }

  function CountAt(counts: map<string, nat>, upstream: string): nat {
    if upstream in counts then counts[upstream] else 0
  }

  predicate Eligible(st: State, job: Job) {
    job.key !in st.active && CountAt(st.activeByUpstream, job.key.upstream) < st.maxPerUpstream
  }

  /** Position of the first eligible pending job from `i` on, or the length. */
  function FirstEligible(st: State, i: nat): (found: nat)
    requires i <= |st.pending|
    ensures i <= found <= |st.pending|
    ensures found < |st.pending| ==> Eligible(st, st.pending[found])
    ensures forall k | i <= k < found :: !Eligible(st, st.pending[k])
    decreases |st.pending| - i
  {
    if i == |st.pending| || Eligible(st, st.pending[i]) then i else FirstEligible(st, i + 1)
  }

  /** The pending job at `i` becomes active. */
  function Start(st: State, i: nat): State
    requires i < |st.pending|
  {
    var job := st.pending[i];
    var upstream := job.key.upstream;
    st.(pending := st.pending[..i] + st.pending[i + 1..],
        active := st.active + {job.key},
        activeJobs := st.activeJobs[job.key := job],
        activeByUpstream := st.activeByUpstream[upstream := CountAt(st.activeByUpstream, upstream) + 1])
  }

  function StartNext(st: State): (State, Option<Job>) {
    if |st.active| >= st.maxGlobal then (st, None)
    else
      var i := FirstEligible(st, 0);
      if i == |st.pending| then (st, None) else (Start(st, i), Some(st.pending[i]))
  }

  function Released(counts: map<string, nat>, upstream: string): map<string, nat> {
    if upstream in counts then
      if counts[upstream] <= 1 then counts - {upstream} else counts[upstream := counts[upstream] - 1]
    else counts
  }

  function Finish(st: State, key: Key): State {
    var st := if key in st.active
              then st.(active := st.active - {key}, activeJobs := st.activeJobs - {key},
                       activeByUpstream := Released(st.activeByUpstream, key.upstream))
              else st;
    if PositionOf(st.pending, key) == |st.pending| then st.(known := st.known - {key}) else st
  }

  function ClearPending(st: State): (State, seq<Job>) {
    (st.(pending := [], known := st.active), st.pending)
  }

  function SetLimits(st: State, maxGlobal: nat, maxPerUpstream: nat): State {
    st.(maxGlobal := AtLeastOne(maxGlobal), maxPerUpstream := AtLeastOne(maxPerUpstream))
  }

  // ---- The queue as the object it is ----

  class ProbeQueueState {
    var pending: seq<Job>
    var known: set<Key>
    var active: set<Key>
    var activeJobs: map<Key, Job>
    var activeByUpstream: map<string, nat>
    var maxGlobal: nat
    var maxPerUpstream: nat
    const maxJobs: nat

    function Model(): State
      reads this
    {
      State(pending, known, active, activeJobs, activeByUpstream, maxGlobal, maxPerUpstream, maxJobs)
    }

    constructor (maxGlobal: nat, maxPerUpstream: nat, maxJobs: nat)
      ensures Model() == Initial(maxGlobal, maxPerUpstream, maxJobs)
    {
      pending, known, active, activeJobs, activeByUpstream := [], {}, {}, map[], map[];
      this.maxGlobal, this.maxPerUpstream := AtLeastOne(maxGlobal), AtLeastOne(maxPerUpstream);
      this.maxJobs := AtLeastOne(maxJobs);
    }

    method EnqueueWithOutcome(job: Job) returns (outcome: Outcome)
      modifies this
      ensures (Model(), outcome) == Enqueue(old(Model()), job)
    {
      if job.key in known {
        var i := PositionOf(pending, job.key);
        if i < |pending| {
          var twin := pending[i];
          if SameConfiguration(twin, job) {
            pending := pending[i := twin.(models := twin.models + job.models)];
            return Unchanged;
          }
          pending := pending[i := job];
          return Replaced(twin);
        }
        if job.key !in active || CoveredByActive(Model(), job) {
          return Unchanged;
        }
      }
      if |active| + |pending| >= maxJobs {
        return Rejected(job);
      }
      known, pending := known + {job.key}, pending + [job];
      return Enqueued;
    }

    method EnqueueBatchWithOutcome(jobs: seq<Job>) returns (remaining: seq<Job>, replaced: seq<Job>)
      modifies this
      ensures (Model(), remaining, replaced) == EnqueueBatch(old(Model()), jobs)
    {
      hide Enqueue;
      remaining, replaced := jobs, [];
      assert [] + EnqueueBatch(Model(), jobs).2 == EnqueueBatch(Model(), jobs).2;
      while remaining != []
        invariant var before, here := EnqueueBatch(old(Model()), jobs), EnqueueBatch(Model(), remaining);
                  before == (here.0, here.1, replaced + here.2)
        decreases |remaining|
      {
        ghost var here := EnqueueBatch(Model(), remaining);
        var outcome := EnqueueWithOutcome(remaining[0]);
        if outcome.Rejected? {
          assert replaced + here.2 == replaced;
          return;
        }
        ghost var later := EnqueueBatch(Model(), remaining[1..]).2;
        if outcome.Replaced? {
          assert replaced + ([outcome.discarded] + later) == replaced + [outcome.discarded] + later;
          replaced := replaced + [outcome.discarded];
        } else {
          assert [] + later == later;
        }
        remaining := remaining[1..];
      }
      assert replaced + EnqueueBatch(Model(), remaining).2 == replaced;
    }

    method StartNextJob() returns (started: Option<Job>)
      modifies this
      ensures (Model(), started) == StartNext(old(Model()))
    {
      if |active| >= maxGlobal {
        return None;
      }
      var i := 0;
      while i < |pending| && !Eligible(Model(), pending[i])
        invariant 0 <= i <= |pending|
        invariant FirstEligible(Model(), 0) == FirstEligible(Model(), i)
      {
        i := i + 1;
      }
      if i == |pending| {
        return None;
      }
      var job := pending[i];
      var upstream := job.key.upstream;
      pending := pending[..i] + pending[i + 1..];
      active := active + {job.key};
      activeJobs := activeJobs[job.key := job];
      activeByUpstream := activeByUpstream[upstream := CountAt(activeByUpstream, upstream) + 1];
      return Some(job);
    }

    method FinishJob(key: Key)
      modifies this
      ensures Model() == Finish(old(Model()), key)
    {
      if key in active {
        active, activeJobs := active - {key}, activeJobs - {key};
        if key.upstream in activeByUpstream {
          var count := activeByUpstream[key.upstream];
          if count <= 1 {
            activeByUpstream := activeByUpstream - {key.upstream};
          } else {
            activeByUpstream := activeByUpstream[key.upstream := count - 1];
          }
        }
      }
      if PositionOf(pending, key) == |pending| {
        known := known - {key};
      }
    }

    method ClearPendingJobs() returns (discarded: seq<Job>)
      modifies this
      ensures (Model(), discarded) == ClearPending(old(Model()))
    {
      discarded, pending, known := pending, [], active;
    }

    method ChangeLimits(maxGlobal: nat, maxPerUpstream: nat)
      modifies this
      ensures Model() == SetLimits(old(Model()), maxGlobal, maxPerUpstream)
    {
      this.maxGlobal, this.maxPerUpstream := AtLeastOne(maxGlobal), AtLeastOne(maxPerUpstream);
    }
  }
}
