/** What the probe queue keeps in every reachable state: limits, exact bookkeeping, coverage, conservation,
    draining. */
module ProbeQueueRuns {
  import opened Collections
  import opened ProbeQueue

  // ---- The invariant ----

  function KeysOf(pending: seq<Job>): set<Key> {
    set i | 0 <= i < |pending| :: pending[i].key
  }

  function ActiveOf(active: set<Key>, upstream: string): set<Key> {
    set k | k in active && k.upstream == upstream
  }

  ghost predicate DistinctKeys(pending: seq<Job>) {
    forall i, j | 0 <= i < j < |pending| :: pending[i].key != pending[j].key
  }

  predicate CountFits(active: set<Key>, counts: map<string, nat>, u: string) {
    CountAt(counts, u) == |ActiveOf(active, u)|
  }

  /** Per-upstream counts are exact, without zero entries. */
  ghost predicate ExactCounts(active: set<Key>, counts: map<string, nat>) {
    && (forall u: string :: CountFits(active, counts, u))
    && (forall u | u in counts :: counts[u] > 0)
  }

  /** Known keys are the pending and the active ones; no key is pending twice; the active jobs are the active keys'. */
  ghost predicate Keyed(st: State) {
    && st.known == KeysOf(st.pending) + st.active
    && DistinctKeys(st.pending)
    && st.activeJobs.Keys == st.active
    && (forall k | k in st.activeJobs :: st.activeJobs[k].key == k)
  }

  ghost predicate Bounded(st: State) {
    && |st.active| + |st.pending| <= st.maxJobs
    && st.maxGlobal > 0 && st.maxPerUpstream > 0 && st.maxJobs > 0
  }

  ghost predicate Valid(st: State) {
    Keyed(st) && ExactCounts(st.active, st.activeByUpstream) && Bounded(st)
  }

  lemma KeysSnoc(pending: seq<Job>, job: Job)
    ensures KeysOf(pending + [job]) == KeysOf(pending) + {job.key}
  {
    var all := pending + [job];
    assert all[|pending|] == job;
    forall k | k in KeysOf(pending)
      ensures k in KeysOf(all)
    {
      var i :| 0 <= i < |pending| && pending[i].key == k;
      assert all[i] == pending[i];
    }
  }

  lemma KeysUpdate(pending: seq<Job>, i: nat, job: Job)
    requires i < |pending| && job.key == pending[i].key
    ensures KeysOf(pending[i := job]) == KeysOf(pending)
    ensures DistinctKeys(pending) ==> DistinctKeys(pending[i := job])
  {
    var next := pending[i := job];
    assert forall j | 0 <= j < |pending| :: next[j].key == pending[j].key;
    forall k | k in KeysOf(pending)
      ensures k in KeysOf(next)
    {
      var j :| 0 <= j < |pending| && pending[j].key == k;
      assert next[j].key == k;
    }
  }

  lemma KeysRemove(pending: seq<Job>, i: nat)
    requires i < |pending| && DistinctKeys(pending)
    ensures var rest := pending[..i] + pending[i + 1..];
            KeysOf(rest) == KeysOf(pending) - {pending[i].key} && DistinctKeys(rest)
  {
    var rest := pending[..i] + pending[i + 1..];
    assert forall j | 0 <= j < |rest| :: rest[j] == if j < i then pending[j] else pending[j + 1];
    forall k | k in KeysOf(pending) - {pending[i].key}
      ensures k in KeysOf(rest)
    {
      var j :| 0 <= j < |pending| && pending[j].key == k;
      assert rest[if j < i then j else j - 1].key == k;
    }
  }

  lemma PositionMeaning(pending: seq<Job>, key: Key)
    ensures PositionOf(pending, key) < |pending| <==> key in KeysOf(pending)
  {
  }

  // ---- Steps ----

  lemma FoldKeeps(st: State, i: nat, job: Job)
    requires Valid(st) && i < |st.pending| && st.pending[i].key == job.key
    ensures Valid(Fold(st, i, job).0)
  {
    hide KeysOf, DistinctKeys, ExactCounts;
    var twin := st.pending[i];
    KeysUpdate(st.pending, i, twin.(models := twin.models + job.models));
    KeysUpdate(st.pending, i, job);
  }

  lemma AppendDistinct(pending: seq<Job>, job: Job)
    requires DistinctKeys(pending) && job.key !in KeysOf(pending)
    ensures DistinctKeys(pending + [job])
  {
    assert forall i | 0 <= i < |pending| :: pending[i].key in KeysOf(pending);
  }

  lemma AppendKeeps(st: State, job: Job)
    requires Valid(st) && job.key !in KeysOf(st.pending)
    ensures Valid(Append(st, job).0)
  {
    hide KeysOf, DistinctKeys, ExactCounts;
    KeysSnoc(st.pending, job);
    AppendDistinct(st.pending, job);
  }

  lemma EnqueueKeeps(st: State, job: Job)
    requires Valid(st)
    ensures Valid(Enqueue(st, job).0)
  {
    PositionMeaning(st.pending, job.key);
    hide KeysOf, DistinctKeys, ExactCounts, Bounded, Fold, Append;
    var i := PositionOf(st.pending, job.key);
    if job.key !in st.known {
      AppendKeeps(st, job);
    } else if i < |st.pending| {
      FoldKeeps(st, i, job);
    } else if job.key !in st.active || CoveredByActive(st, job) {
    } else {
      AppendKeeps(st, job);
    }
  }

  /** A known key is pending or active, so no submission is dropped silently. */
  lemma KnownIsSomewhere(st: State, job: Job)
    requires Valid(st) && job.key in st.known && PositionOf(st.pending, job.key) == |st.pending|
    ensures job.key in st.active
  {
    PositionMeaning(st.pending, job.key);
  }

  lemma OneMoreActive(active: set<Key>, counts: map<string, nat>, key: Key)
    requires ExactCounts(active, counts) && key !in active
    ensures ExactCounts(active + {key}, counts[key.upstream := CountAt(counts, key.upstream) + 1])
  {
    var next := counts[key.upstream := CountAt(counts, key.upstream) + 1];
    forall u: string
      ensures CountFits(active + {key}, next, u)
    {
      assert CountFits(active, counts, u);
      if u == key.upstream {
        assert ActiveOf(active + {key}, u) == ActiveOf(active, u) + {key};
      } else {
        assert ActiveOf(active + {key}, u) == ActiveOf(active, u);
      }
    }
  }

  lemma OneLessActive(active: set<Key>, counts: map<string, nat>, key: Key)
    requires ExactCounts(active, counts) && key in active
    ensures ExactCounts(active - {key}, Released(counts, key.upstream))
  {
    assert CountFits(active, counts, key.upstream);
    assert key in ActiveOf(active, key.upstream);
    forall u: string
      ensures CountFits(active - {key}, Released(counts, key.upstream), u)
    {
      assert CountFits(active, counts, u);
      if u == key.upstream {
        assert ActiveOf(active - {key}, u) == ActiveOf(active, u) - {key};
      } else {
        assert ActiveOf(active - {key}, u) == ActiveOf(active, u);
      }
    }
  }

  lemma StartKeyed(st: State, i: nat)
    requires Keyed(st) && i < |st.pending| && st.pending[i].key !in st.active
    ensures Keyed(Start(st, i))
  {
    assert st.pending[i].key in KeysOf(st.pending);
    hide KeysOf, DistinctKeys;
    KeysRemove(st.pending, i);
  }

  lemma StartKeeps(st: State, i: nat)
    requires Valid(st) && i < |st.pending| && st.pending[i].key !in st.active
    ensures Valid(Start(st, i))
  {
    hide Keyed, ExactCounts;
    StartKeyed(st, i);
    OneMoreActive(st.active, st.activeByUpstream, st.pending[i].key);
  }

  lemma FinishKeyed(st: State, key: Key)
    requires Keyed(st)
    ensures Keyed(Finish(st, key)) && Finish(st, key).pending == st.pending && Finish(st, key).active == st.active - {key}
  {
    PositionMeaning(st.pending, key);
    hide KeysOf, DistinctKeys, Released;
    assert key in KeysOf(st.pending) ==> st.known - {key} + {key} == st.known;
  }

  lemma FinishKeeps(st: State, key: Key)
    requires Valid(st)
    ensures Valid(Finish(st, key)) && Finish(st, key).pending == st.pending && Finish(st, key).active == st.active - {key}
  {
    hide Keyed, ExactCounts, Released;
    FinishKeyed(st, key);
    if key in st.active {
      OneLessActive(st.active, st.activeByUpstream, key);
    } else {
      assert st.active - {key} == st.active;
    }
  }

  lemma ClearKeeps(st: State)
    requires Valid(st)
    ensures Valid(ClearPending(st).0)
  {
    assert KeysOf([]) == {};
    hide ExactCounts, KeysOf;
  }

  // ---- Starting ----

  /** The job at position `i` was taken out of the pending list, and nothing before it could have started. */
  ghost predicate FirstTaken(st: State, next: State, job: Job, i: int) {
    && 0 <= i < |st.pending| && st.pending[i] == job
    && next.pending == st.pending[..i] + st.pending[i + 1..]
    && forall k | 0 <= k < i :: !Eligible(st, st.pending[k])
  }

  /** Starting an eligible job respects the current limits and runs no key twice at once. */
  lemma StartWithinLimits(st: State, i: nat)
    requires Valid(st) && i < |st.pending| && Eligible(st, st.pending[i]) && |st.active| < st.maxGlobal
    ensures var next, key := Start(st, i), st.pending[i].key;
            && Valid(next) && key !in st.active && next.active == st.active + {key}
            && |next.active| <= next.maxGlobal
            && |ActiveOf(next.active, key.upstream)| <= next.maxPerUpstream
  {
    StartKeeps(st, i);
    var next, upstream := Start(st, i), st.pending[i].key.upstream;
    assert CountFits(next.active, next.activeByUpstream, upstream);
    hide Keyed, ExactCounts, ActiveOf;
  }

  /** A start picks the first eligible job; nothing starts only when the global limit is reached or no pending job is
      eligible. */
  lemma StartIsRight(st: State)
    requires Valid(st)
    ensures var (next, started) := StartNext(st);
            && Valid(next)
            && match started
               case Some(job) =>
                 && job.key !in st.active && next.active == st.active + {job.key}
                 && |next.active| <= next.maxGlobal
                 && |ActiveOf(next.active, job.key.upstream)| <= next.maxPerUpstream
                 && exists i :: FirstTaken(st, next, job, i)
               case None =>
                 next == st
                 && (|st.active| >= st.maxGlobal || forall k | 0 <= k < |st.pending| :: !Eligible(st, st.pending[k]))
  {
    hide Valid, Eligible, ActiveOf;
    if |st.active| < st.maxGlobal {
      var i := FirstEligible(st, 0);
      if i < |st.pending| {
        StartWithinLimits(st, i);
        assert FirstTaken(st, Start(st, i), st.pending[i], i);
      }
    }
  }

  // ---- Coverage ----

  predicate Covers(job: Job, wanted: Job) {
    job.key == wanted.key && SameConfiguration(job, wanted) && wanted.models <= job.models
  }

  ghost predicate Covered(st: State, job: Job) {
    || (exists i :: 0 <= i < |st.pending| && Covers(st.pending[i], job))
    || (job.key in st.activeJobs && Covers(st.activeJobs[job.key], job))
  }

  /** After any accepted submission some pending or active job of that key and configuration covers all its models. */
  lemma AcceptedIsCovered(st: State, job: Job)
    requires Valid(st) && !Enqueue(st, job).1.Rejected?
    ensures Covered(Enqueue(st, job).0, job)
  {
    PositionMeaning(st.pending, job.key);
    var next := Enqueue(st, job).0;
    var i := PositionOf(st.pending, job.key);
    if job.key in st.known && i < |st.pending| {
      assert Covers(next.pending[i], job);
    } else if job.key in st.known && CoveredByActive(st, job) {
    } else {
      assert next.pending[|st.pending|] == job;
    }
  }

  // ---- Draining ----

  /** Alternating start and finish until nothing starts: the jobs in the order they ran. */
  function Drained(st: State, rounds: nat): (State, seq<Job>)
    decreases rounds
  {
    if rounds == 0 then (st, [])
    else
      var (next, started) := StartNext(st);
      match started
      case None => (next, [])
      case Some(job) =>
        var (last, ran) := Drained(Finish(next, job.key), rounds - 1);
        (last, [job] + ran)
  }

  /** The state after the jobs of these keys finished, in this order. */
  function AllFinished(st: State, keys: seq<Key>): State {
    if keys == [] then st else Finish(AllFinished(st, keys[..|keys| - 1]), keys[|keys| - 1])
  }

  lemma {:induction false} FinishedAllKeeps(st: State, keys: seq<Key>)
    requires Valid(st)
    ensures var next := AllFinished(st, keys);
            Valid(next) && next.pending == st.pending && next.active == st.active - set i | 0 <= i < |keys| :: keys[i]
  {
    hide Valid, Finish;
    if keys != [] {
      var init, last := keys[..|keys| - 1], keys[|keys| - 1];
      FinishedAllKeeps(st, init);
      FinishKeeps(AllFinished(st, init), last);
      assert (set i | 0 <= i < |keys| :: keys[i]) == (set i | 0 <= i < |init| :: init[i]) + {last};
    }
  }

  /** From any valid state, once the active jobs have finished, in any order, alternating start and finish runs every
      pending job, in order, and empties the queue. */
  lemma Drains(st: State, keys: seq<Key>)
    requires Valid(st) && forall k | k in st.active :: k in keys
    ensures var (last, ran) := Drained(AllFinished(st, keys), |st.pending|);
            ran == st.pending && last.pending == [] && last.active == {}
            && last.known == {} && last.activeByUpstream == map[]
  {
    hide Valid, Drained, AllFinished;
    FinishedAllKeeps(st, keys);
    DrainsIdle(AllFinished(st, keys));
  }

  /** With nothing active, alternating start and finish runs every pending job. */
  lemma {:induction false} DrainsIdle(st: State)
    requires Valid(st) && st.active == {}
    ensures var (last, ran) := Drained(st, |st.pending|);
            ran == st.pending && last.pending == [] && last.active == {}
            && last.known == {} && last.activeByUpstream == map[]
    decreases |st.pending|
  {
    hide Valid, StartNext, Finish;
    if st.pending == [] {
      NothingLeft(st);
    } else {
      var next := Finish(StartNext(st).0, st.pending[0].key);
      HeadRuns(st);
      DrainsIdle(next);
      assert st.pending == [st.pending[0]] + st.pending[1..];
    }
  }

  lemma NothingLeft(st: State)
    requires Valid(st) && st.active == {} && st.pending == []
    ensures st.known == {} && st.activeByUpstream == map[]
  {
    NothingActive(st.activeByUpstream);
    assert KeysOf([]) == {};
  }

  lemma NothingActive(counts: map<string, nat>)
    requires ExactCounts({}, counts)
    ensures counts == map[]
  {
    forall u: string
      ensures u !in counts
    {
      assert CountFits({}, counts, u);
      assert ActiveOf({}, u) == {};
    }
    assert counts.Keys == {};
  }

  /** One round runs the job at the head. */
  lemma HeadRuns(st: State)
    requires Valid(st) && st.active == {} && st.pending != []
    ensures StartNext(st).1 == Some(st.pending[0])
    ensures var next := Finish(StartNext(st).0, st.pending[0].key);
            Valid(next) && next.active == {} && next.pending == st.pending[1..]
  {
    NothingActive(st.activeByUpstream);
    assert Eligible(st, st.pending[0]);
    StartKeeps(st, 0);
    FinishKeeps(Start(st, 0), st.pending[0].key);
    hide Keyed, ExactCounts;
  }

  // ---- Batches ----

  /** The state after submitting every job. */
  function After(st: State, jobs: seq<Job>): State
    decreases |jobs|
  {
    if jobs == [] then st else After(Enqueue(st, jobs[0]).0, jobs[1..])
  }

  /** Job `k` was accepted when its turn came. */
  ghost predicate AcceptedInTurn(st: State, jobs: seq<Job>, k: nat)
    requires k < |jobs|
  {
    !Enqueue(After(st, jobs[..k]), jobs[k]).1.Rejected?
  }

  lemma RejectedUnchanged(st: State, job: Job)
    ensures Enqueue(st, job).1.Rejected? ==> Enqueue(st, job).0 == st
  {
  }

  /** A batch is taken in order up to its first rejection, and exactly the rest remains. */
  lemma {:induction false} BatchStopsAtFirstRejection(st: State, jobs: seq<Job>)
    ensures var (next, remaining, replaced) := EnqueueBatch(st, jobs);
            && |remaining| <= |jobs|
            && var n := |jobs| - |remaining|;
               && remaining == jobs[n..]
               && next == After(st, jobs[..n])
               && (forall k | 0 <= k < n :: AcceptedInTurn(st, jobs, k))
               && (remaining != [] ==> !AcceptedInTurn(st, jobs, n))
    decreases |jobs|
  {
    hide Enqueue;
    if jobs != [] {
      var (mid, outcome) := Enqueue(st, jobs[0]);
      RejectedUnchanged(st, jobs[0]);
      if outcome.Rejected? {
        assert jobs[..0] == [];
      } else {
        BatchStopsAtFirstRejection(mid, jobs[1..]);
        var n := |jobs| - |EnqueueBatch(st, jobs).1|;
        forall k: nat | 0 < k < |jobs|
          ensures AcceptedInTurn(st, jobs, k) == AcceptedInTurn(mid, jobs[1..], k - 1)
        {
          assert jobs[..k][1..] == jobs[1..][..k - 1];
        }
        assert jobs[..n][1..] == jobs[1..][..n - 1];
        assert jobs[..0] == [];
      }
    }
  }

  // ---- Conservation ----

  /** What became of a submission the queue accepted. */
  datatype Fate = Waiting | Running | Finished | Absorbed | Returned | Discarded

  /** The queue, the supply of job ids, and the fate of every accepted job. */
  datatype World = World(queue: State, nextId: nat, fates: map<nat, Fate>)

  datatype Step =
    | Submit(key: Key, models: set<string>, configuration: nat)
    | StartOne
    | FinishOne(key: Key)
    | Clear
    | Limit(maxGlobal: nat, maxPerUpstream: nat)

  function SubmitStep(w: World, key: Key, models: set<string>, configuration: nat): World {
    var job := Job(w.nextId, key, models, configuration);
    var (queue, outcome) := Enqueue(w.queue, job);
    match outcome
    case Rejected(_) => w.(nextId := w.nextId + 1)
    case Enqueued => World(queue, w.nextId + 1, w.fates[job.id := Waiting])
    case Unchanged => World(queue, w.nextId + 1, w.fates[job.id := Absorbed])
    case Replaced(twin) => World(queue, w.nextId + 1, w.fates[job.id := Waiting][twin.id := Returned])
  }

  function Do(w: World, step: Step): World {
    match step
    case Submit(key, models, configuration) => SubmitStep(w, key, models, configuration)
    case StartOne =>
      var (queue, started) := StartNext(w.queue);
      w.(queue := queue, fates := if started.Some? then w.fates[started.value.id := Running] else w.fates)
    case FinishOne(key) =>
      w.(queue := Finish(w.queue, key),
         fates := if key in w.queue.activeJobs then w.fates[w.queue.activeJobs[key].id := Finished] else w.fates)
    case Clear =>
      w.(queue := ClearPending(w.queue).0,
         fates := map id | id in w.fates :: if w.fates[id] == Waiting then Discarded else w.fates[id])
    case Limit(maxGlobal, maxPerUpstream) => w.(queue := SetLimits(w.queue, maxGlobal, maxPerUpstream))
  }

  function Run(maxGlobal: nat, maxPerUpstream: nat, maxJobs: nat, steps: seq<Step>): World {
    if steps == [] then World(Initial(maxGlobal, maxPerUpstream, maxJobs), 0, map[])
    else Do(Run(maxGlobal, maxPerUpstream, maxJobs, steps[..|steps| - 1]), steps[|steps| - 1])
  }

  predicate Pends(pending: seq<Job>, id: nat) {
    exists i :: 0 <= i < |pending| && pending[i].id == id
  }

  predicate Runs(active: map<Key, Job>, id: nat) {
    exists k :: k in active && active[k].id == id
  }

  ghost predicate DistinctIds(pending: seq<Job>) {
    forall i, j | 0 <= i < j < |pending| :: pending[i].id != pending[j].id
  }

  ghost predicate DistinctRuns(active: map<Key, Job>) {
    forall k, l | k in active && l in active && k != l :: active[k].id != active[l].id
  }

  /** What the books say about one submission. */
  ghost predicate Accounted(w: World, id: nat) {
    && (id in w.fates ==> id < w.nextId)
    && (Pends(w.queue.pending, id) <==> id in w.fates && w.fates[id] == Waiting)
    && (Runs(w.queue.activeJobs, id) <==> id in w.fates && w.fates[id] == Running)
  }

  /** The waiting jobs are exactly the pending ones and the running jobs exactly the active ones; no job counts
      twice. */
  ghost predicate Conserved(w: World) {
    && (forall id: nat :: Accounted(w, id))
    && DistinctIds(w.queue.pending) && DistinctRuns(w.queue.activeJobs)
  }

  lemma PendsSnoc(pending: seq<Job>, job: Job, id: nat)
    ensures Pends(pending + [job], id) <==> Pends(pending, id) || id == job.id
  {
    var all := pending + [job];
    assert all[|pending|] == job;
    if Pends(pending, id) {
      var i :| 0 <= i < |pending| && pending[i].id == id;
      assert all[i].id == id;
    }
  }

  lemma PendsUpdate(pending: seq<Job>, i: nat, job: Job, id: nat)
    requires i < |pending| && DistinctIds(pending)
    ensures Pends(pending[i := job], id) <==> (Pends(pending, id) && id != pending[i].id) || id == job.id
  {
    var next := pending[i := job];
    assert next[i] == job;
    if Pends(pending, id) && id != pending[i].id {
      var j :| 0 <= j < |pending| && pending[j].id == id;
      assert next[j].id == id;
    }
    if Pends(next, id) && id != job.id {
      var j :| 0 <= j < |next| && next[j].id == id;
      assert j != i && pending[j].id == id;
    }
  }

  lemma PendsRemove(pending: seq<Job>, i: nat, id: nat)
    requires i < |pending| && DistinctIds(pending)
    ensures Pends(pending[..i] + pending[i + 1..], id) <==> Pends(pending, id) && id != pending[i].id
    ensures DistinctIds(pending[..i] + pending[i + 1..])
  {
    var rest := pending[..i] + pending[i + 1..];
    assert forall j | 0 <= j < |rest| :: rest[j] == if j < i then pending[j] else pending[j + 1];
    if Pends(pending, id) && id != pending[i].id {
      var j :| 0 <= j < |pending| && pending[j].id == id;
      assert rest[if j < i then j else j - 1].id == id;
    }
  }

  lemma RunsAdd(active: map<Key, Job>, job: Job, id: nat)
    requires job.key !in active
    ensures Runs(active[job.key := job], id) <==> Runs(active, id) || id == job.id
  {
    var next := active[job.key := job];
    assert next[job.key] == job;
    if Runs(active, id) {
      var k :| k in active && active[k].id == id;
      assert next[k].id == id;
    }
  }

  lemma RunsRemove(active: map<Key, Job>, key: Key, id: nat)
    requires key in active && DistinctRuns(active)
    ensures Runs(active - {key}, id) <==> Runs(active, id) && id != active[key].id
  {
    var next := active - {key};
    if Runs(active, id) && id != active[key].id {
      var k :| k in active && active[k].id == id;
      assert k in next && next[k].id == id;
    }
    if Runs(next, id) {
      var k :| k in next && next[k].id == id;
      assert active[k].id == id;
    }
  }

  // ---- Each step conserves ----

  lemma EnqueuedConserves(w: World, job: Job)
    requires Conserved(w) && job.id == w.nextId
    ensures Conserved(World(w.queue.(known := w.queue.known + {job.key}, pending := w.queue.pending + [job]),
                            w.nextId + 1, w.fates[job.id := Waiting]))
  {
    var next := World(w.queue.(known := w.queue.known + {job.key}, pending := w.queue.pending + [job]),
                      w.nextId + 1, w.fates[job.id := Waiting]);
    hide Pends, Runs, DistinctRuns;
    forall id: nat
      ensures Accounted(next, id)
    {
      assert Accounted(w, id) && Accounted(w, job.id);
      PendsSnoc(w.queue.pending, job, id);
    }
    forall i | 0 <= i < |w.queue.pending|
      ensures w.queue.pending[i].id != job.id
    {
      PendingId(w.queue.pending, i);
      assert Accounted(w, w.queue.pending[i].id);
    }
  }

  lemma PendingId(pending: seq<Job>, i: nat)
    requires i < |pending|
    ensures Pends(pending, pending[i].id)
  {
  }

  lemma RunningId(active: map<Key, Job>, k: Key)
    requires k in active
    ensures Runs(active, active[k].id)
  {
  }

  lemma AbsorbedConserves(w: World, queue: State, id: nat)
    requires Conserved(w) && id == w.nextId && queue.activeJobs == w.queue.activeJobs
    requires |queue.pending| == |w.queue.pending|
    requires forall i | 0 <= i < |queue.pending| :: queue.pending[i].id == w.queue.pending[i].id
    ensures Conserved(World(queue, w.nextId + 1, w.fates[id := Absorbed]))
  {
    var next := World(queue, w.nextId + 1, w.fates[id := Absorbed]);
    SameIds(w.queue.pending, queue.pending);
    SameIds(queue.pending, w.queue.pending);
    hide Pends, Runs, DistinctRuns;
    forall other: nat
      ensures Accounted(next, other)
    {
      assert Accounted(w, other) && Accounted(w, id);
    }
  }

  lemma SameIds(left: seq<Job>, right: seq<Job>)
    requires |left| == |right| && forall i | 0 <= i < |left| :: left[i].id == right[i].id
    ensures forall id: nat :: Pends(left, id) ==> Pends(right, id)
  {
    forall id: nat | Pends(left, id)
      ensures Pends(right, id)
    {
      var i :| 0 <= i < |left| && left[i].id == id;
      assert right[i].id == id;
    }
  }

  lemma ReplacedConserves(w: World, i: nat, job: Job)
    requires Conserved(w) && job.id == w.nextId && i < |w.queue.pending|
    ensures Conserved(World(w.queue.(pending := w.queue.pending[i := job]), w.nextId + 1,
                            w.fates[job.id := Waiting][w.queue.pending[i].id := Returned]))
  {
    var next := World(w.queue.(pending := w.queue.pending[i := job]), w.nextId + 1,
                      w.fates[job.id := Waiting][w.queue.pending[i].id := Returned]);
    PendingId(w.queue.pending, i);
    assert Accounted(w, w.queue.pending[i].id);
    forall j | 0 <= j < |w.queue.pending|
      ensures w.queue.pending[j].id != job.id
    {
      PendingId(w.queue.pending, j);
      assert Accounted(w, w.queue.pending[j].id);
    }
    hide Pends, Runs, DistinctRuns;
    forall id: nat
      ensures Accounted(next, id)
    {
      assert Accounted(w, id) && Accounted(w, job.id);
      PendsUpdate(w.queue.pending, i, job, id);
    }
  }

  lemma SubmitConserves(w: World, key: Key, models: set<string>, configuration: nat)
    requires Conserved(w)
    ensures Conserved(SubmitStep(w, key, models, configuration))
  {
    var job := Job(w.nextId, key, models, configuration);
    var i := PositionOf(w.queue.pending, key);
    hide Conserved;
    if key in w.queue.known && i < |w.queue.pending| {
      if SameConfiguration(w.queue.pending[i], job) {
        AbsorbedConserves(w, Fold(w.queue, i, job).0, job.id);
      } else {
        ReplacedConserves(w, i, job);
      }
    } else if key in w.queue.known && (key !in w.queue.active || CoveredByActive(w.queue, job)) {
      AbsorbedConserves(w, w.queue, job.id);
    } else if IsFull(w.queue) {
      SkippedConserves(w);
    } else {
      EnqueuedConserves(w, job);
    }
  }

  lemma SkippedConserves(w: World)
    requires Conserved(w)
    ensures Conserved(w.(nextId := w.nextId + 1))
  {
    hide Pends, Runs;
    var next := w.(nextId := w.nextId + 1);
    forall id: nat
      ensures Accounted(next, id)
    {
      assert Accounted(w, id);
    }
  }

  lemma StartConserves(w: World, i: nat)
    requires Conserved(w) && Keyed(w.queue) && i < |w.queue.pending| && w.queue.pending[i].key !in w.queue.active
    ensures Conserved(w.(queue := Start(w.queue, i), fates := w.fates[w.queue.pending[i].id := Running]))
  {
    var job := w.queue.pending[i];
    var next := w.(queue := Start(w.queue, i), fates := w.fates[job.id := Running]);
    assert job.key !in w.queue.activeJobs;
    PendingId(w.queue.pending, i);
    assert Accounted(w, job.id);
    hide Pends, Runs, Keyed;
    PendsRemove(w.queue.pending, i, job.id);
    forall id: nat
      ensures Accounted(next, id)
    {
      assert Accounted(w, id);
      PendsRemove(w.queue.pending, i, id);
      RunsAdd(w.queue.activeJobs, job, id);
    }
    forall k | k in w.queue.activeJobs
      ensures w.queue.activeJobs[k].id != job.id
    {
      RunningId(w.queue.activeJobs, k);
      assert Accounted(w, w.queue.activeJobs[k].id);
    }
  }

  lemma FinishConserves(w: World, key: Key)
    requires Conserved(w) && Keyed(w.queue)
    ensures Conserved(Do(w, FinishOne(key)))
  {
    var next := Do(w, FinishOne(key));
    FinishKeyed(w.queue, key);
    var jobs := w.queue.activeJobs;
    assert next.queue.activeJobs == jobs - {key};
    hide Pends, Runs, Keyed, Finish;
    if key in jobs {
      RunningId(jobs, key);
      assert Accounted(w, jobs[key].id);
    } else {
      assert jobs - {key} == jobs;
    }
    forall id: nat
      ensures Accounted(next, id)
    {
      assert Accounted(w, id);
      if key in jobs {
        RunsRemove(jobs, key, id);
      }
    }
  }

  lemma ClearConserves(w: World)
    requires Conserved(w)
    ensures Conserved(Do(w, Clear))
  {
    var next := Do(w, Clear);
    assert forall id: nat :: !Pends([], id);
    hide Pends, Runs, DistinctRuns;
    forall id: nat
      ensures Accounted(next, id)
    {
      assert Accounted(w, id);
    }
  }

  lemma LimitConserves(w: World, maxGlobal: nat, maxPerUpstream: nat)
    requires Conserved(w)
    ensures Conserved(Do(w, Limit(maxGlobal, maxPerUpstream)))
  {
    var next := Do(w, Limit(maxGlobal, maxPerUpstream));
    hide Pends, Runs, DistinctRuns, DistinctIds;
    forall id: nat
      ensures Accounted(next, id)
    {
      assert Accounted(w, id);
    }
  }

  lemma KeyedOf(q: State)
    requires Valid(q)
    ensures Keyed(q)
  {
  }

  lemma StepKeeps(w: World, step: Step)
    requires Valid(w.queue) && Conserved(w)
    ensures Valid(Do(w, step).queue) && Conserved(Do(w, step))
  {
    KeyedOf(w.queue);
    hide Valid, Keyed, Conserved, Enqueue, Finish;
    match step
    case Submit(key, models, configuration) =>
      EnqueueKeeps(w.queue, Job(w.nextId, key, models, configuration));
      RejectedUnchanged(w.queue, Job(w.nextId, key, models, configuration));
      SubmitConserves(w, key, models, configuration);
    case StartOne =>
      StartIsRight(w.queue);
      if |w.queue.active| < w.queue.maxGlobal && FirstEligible(w.queue, 0) < |w.queue.pending| {
        StartConserves(w, FirstEligible(w.queue, 0));
      }
    case FinishOne(key) =>
      FinishKeeps(w.queue, key);
      FinishConserves(w, key);
    case Clear =>
      ClearKeeps(w.queue);
      ClearConserves(w);
    case Limit(maxGlobal, maxPerUpstream) =>
      LimitKeeps(w.queue, maxGlobal, maxPerUpstream);
      LimitConserves(w, maxGlobal, maxPerUpstream);
  }

  lemma LimitKeeps(st: State, maxGlobal: nat, maxPerUpstream: nat)
    requires Valid(st)
    ensures Valid(SetLimits(st, maxGlobal, maxPerUpstream))
  {
    hide KeysOf, ExactCounts, DistinctKeys;
  }

  lemma InitialKeeps(maxGlobal: nat, maxPerUpstream: nat, maxJobs: nat)
    ensures Valid(Initial(maxGlobal, maxPerUpstream, maxJobs))
    ensures Conserved(World(Initial(maxGlobal, maxPerUpstream, maxJobs), 0, map[]))
  {
    assert KeysOf([]) == {};
    forall u: string
      ensures CountFits({}, map[], u)
    {
      assert ActiveOf({}, u) == {};
    }
    assert forall id: nat :: !Pends([], id) && !Runs(map[], id);
  }

  /** Every reachable queue is valid, and every job it ever accepted is pending, active, finished, absorbed by the job
      that covers it, returned as replaced, or discarded by a clear. */
  lemma {:induction false} RunKeeps(maxGlobal: nat, maxPerUpstream: nat, maxJobs: nat, steps: seq<Step>)
    ensures var w := Run(maxGlobal, maxPerUpstream, maxJobs, steps); Valid(w.queue) && Conserved(w)
  {
    hide Valid, Conserved, Do;
    if steps == [] {
      InitialKeeps(maxGlobal, maxPerUpstream, maxJobs);
    } else {
      RunKeeps(maxGlobal, maxPerUpstream, maxJobs, steps[..|steps| - 1]);
      StepKeeps(Run(maxGlobal, maxPerUpstream, maxJobs, steps[..|steps| - 1]), steps[|steps| - 1]);
    }
  }

  // ---- What decides, said without the queue's own words ----

  /** A submission is rejected exactly when it needs a new place and there is none: no pending job has its key, no
      active job of its key and configuration covers it, and pending and active jobs fill the queue. */
  lemma RejectedIff(st: State, job: Job)
    requires Valid(st)
    ensures Enqueue(st, job).1.Rejected? <==>
      && (forall i | 0 <= i < |st.pending| :: st.pending[i].key != job.key)
      && !(job.key in st.activeJobs && st.activeJobs[job.key].configuration == job.configuration
           && job.models <= st.activeJobs[job.key].models)
      && |st.active| + |st.pending| >= st.maxJobs
  {
    PositionMeaning(st.pending, job.key);
  }

  /** What an accepted submission does to the pending jobs: one more at the end, the models of its pending twin of
      the same configuration widened by its own, a twin of another configuration replaced, or nothing. */
  lemma AcceptedPending(st: State, job: Job)
    requires Valid(st)
    ensures var (next, outcome) := Enqueue(st, job);
            match outcome
            case Enqueued => next.pending == st.pending + [job]
            case Rejected(_) => next == st
            case Replaced(twin) =>
              exists i :: 0 <= i < |st.pending| && st.pending[i] == twin && twin.key == job.key
                && twin.configuration != job.configuration && next.pending == st.pending[i := job]
            case Unchanged =>
              || next == st
              || exists i :: 0 <= i < |st.pending| && st.pending[i].key == job.key
                   && st.pending[i].configuration == job.configuration
                   && next.pending == st.pending[i := st.pending[i].(models := st.pending[i].models + job.models)]
  {
    var i := PositionOf(st.pending, job.key);
    if job.key in st.known && i < |st.pending| {
      assert st.pending[i].key == job.key;
    }
  }

  /** Nothing starts exactly when the global limit is reached, or each pending job's key runs already or its
      upstream has as many active jobs as it may. */
  lemma NothingStartsIff(st: State)
    requires Valid(st)
    ensures StartNext(st).1.None? <==>
      || |st.active| >= st.maxGlobal
      || forall i | 0 <= i < |st.pending| ::
           st.pending[i].key in st.active || |ActiveOf(st.active, st.pending[i].key.upstream)| >= st.maxPerUpstream
  {
    forall i | 0 <= i < |st.pending|
      ensures Eligible(st, st.pending[i]) <==>
        !(st.pending[i].key in st.active || |ActiveOf(st.active, st.pending[i].key.upstream)| >= st.maxPerUpstream)
    {
      assert CountFits(st.active, st.activeByUpstream, st.pending[i].key.upstream);
    }
    hide Eligible, ActiveOf, ExactCounts, Keyed;
    var i := FirstEligible(st, 0);
    if i < |st.pending| {
      assert Eligible(st, st.pending[i]);
    }
  }

  /** Every limit is at least one, from the start and after every change. */
  lemma LimitsAtLeastOne(maxGlobal: nat, maxPerUpstream: nat, maxJobs: nat, st: State)
    ensures var q := Initial(maxGlobal, maxPerUpstream, maxJobs);
            && q.maxGlobal == (if maxGlobal < 1 then 1 else maxGlobal)
            && q.maxPerUpstream == (if maxPerUpstream < 1 then 1 else maxPerUpstream)
            && q.maxJobs == (if maxJobs < 1 then 1 else maxJobs)
    ensures var q := SetLimits(st, maxGlobal, maxPerUpstream);
            && q.maxGlobal == (if maxGlobal < 1 then 1 else maxGlobal)
            && q.maxPerUpstream == (if maxPerUpstream < 1 then 1 else maxPerUpstream)
            && q == st.(maxGlobal := q.maxGlobal, maxPerUpstream := q.maxPerUpstream)
  {
  }
}
