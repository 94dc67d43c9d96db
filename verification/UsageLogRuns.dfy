/** What every interleaving of appenders, flushers, pruning and snapshots keeps. */
module UsageLogRuns {
  import opened Ordering
  import opened Text
  import opened UsageLogs

  // ---- The order and the merge ----

  lemma BeforeOrders()
    ensures WeakOrder(Before)
  {
    forall a, b, c
      ensures Before(a, b) ==> !Before(b, a)
      ensures !Before(b, a) && !Before(c, b) ==> !Before(c, a)
    {
      BeforeOrder(a, b, c);
    }
  }

  lemma BeforeOrder(a: Log, b: Log, c: Log)
    ensures Before(a, b) ==> !Before(b, a)
    ensures !Before(b, a) && !Before(c, b) ==> !Before(c, a)
  {
    TextOrder(a.requestId, b.requestId, c.requestId);
    TextOrder(b.requestId, c.requestId, a.requestId);
    TextOrder(c.requestId, a.requestId, b.requestId);
    TextOrder(c.requestId, b.requestId, a.requestId);
    TextOrder(a.id, b.id, c.id);
    TextOrder(b.id, c.id, a.id);
    TextOrder(c.id, a.id, b.id);
    TextOrder(c.id, b.id, a.id);
  }

  ghost predicate DistinctIds(logs: seq<Log>) {
    forall i, j | 0 <= i < j < |logs| :: logs[i].id != logs[j].id
  }

  lemma IdsOfMembers(logs: seq<Log>)
    ensures forall i | 0 <= i < |logs| :: logs[i].id in IdsOf(logs)
  {
  }

  lemma {:induction false} DeduplicatedIds(logs: seq<Log>, n: nat)
    requires n <= |logs|
    ensures DistinctIds(Deduplicated(logs, n)) && IdsOf(Deduplicated(logs, n)) == IdsOf(logs[..n])
  {
    if n > 0 {
      DeduplicatedIds(logs, n - 1);
      hide IdsOf;
      var before, last := Deduplicated(logs, n - 1), logs[n - 1];
      assert logs[..n] == logs[..n - 1] + [last];
      IdsOfSnoc(logs[..n - 1], last);
      IdsOfSnoc(before, last);
      IdsOfMembers(before);
    }
  }

  lemma {:induction false} DeduplicatedOrder(logs: seq<Log>, n: nat)
    requires n <= |logs| && SortedBy(logs, Before)
    ensures var kept := Deduplicated(logs, n); SortedBy(kept, Before) && forall i | 0 <= i < |kept| :: kept[i] in logs[..n]
  {
    hide IdsOf, Before;
    if n > 0 {
      DeduplicatedOrder(logs, n - 1);
      var before, last := Deduplicated(logs, n - 1), logs[n - 1];
      assert logs[..n] == logs[..n - 1] + [last];
      forall i | 0 <= i < |before|
        ensures !Before(last, before[i])
      {
        var j :| 0 <= j < n - 1 && logs[j] == before[i];
      }
    }
  }

  /** Exactly one entry has the id. */
  ghost predicate Once(logs: seq<Log>, id: string) {
    exists k :: 0 <= k < |logs| && logs[k].id == id && forall j | 0 <= j < |logs| && j != k :: logs[j].id != id
  }

  /** What the three lists come to: every id of the pending and archived lists exactly once, in order, nothing
      that was in none of the lists. */
  lemma MergedMeaning(inner: seq<Log>, pending: seq<Log>, archived: seq<Log>)
    ensures var all := pending + archived + inner;
            var shown := Merged(inner, pending, archived);
            && (forall log | log in pending + archived :: Once(shown, log.id))
            && (forall i | 0 <= i < |shown| :: shown[i] in all)
            && (pending + archived != [] ==> SortedBy(shown, Before) && DistinctIds(shown) && IdsOf(shown) == IdsOf(all))
            && (pending + archived == [] ==> shown == inner)
  {
    var all := pending + archived + inner;
    var shown := Merged(inner, pending, archived);
    if archived == [] && pending == [] {
    } else {
      var sorted := SortBy(all, Before);
      BeforeOrders();
      SortBySorts(all, Before);
      DeduplicatedIds(sorted, |sorted|);
      DeduplicatedOrder(sorted, |sorted|);
      assert sorted[..|sorted|] == sorted;
      SameIds(sorted, all);
      assert DistinctIds(shown) && IdsOf(shown) == IdsOf(all) && SortedBy(shown, Before);
      hide IdsOf, Before, DistinctIds, Merged, SortBy, Deduplicated;
      ShownWasThere(shown, sorted, all);
      forall log | log in pending + archived
        ensures Once(shown, log.id)
      {
        assert log in all;
        ShownOnce(shown, all, log);
      }
    }
  }

  lemma ShownWasThere(shown: seq<Log>, sorted: seq<Log>, all: seq<Log>)
    requires multiset(sorted) == multiset(all) && forall i | 0 <= i < |shown| :: shown[i] in sorted
    ensures forall i | 0 <= i < |shown| :: shown[i] in all
  {
    forall i | 0 <= i < |shown|
      ensures shown[i] in all
    {
      assert shown[i] in multiset(sorted);
    }
  }

  lemma ShownOnce(shown: seq<Log>, all: seq<Log>, log: Log)
    requires log in all && DistinctIds(shown) && IdsOf(shown) == IdsOf(all)
    ensures Once(shown, log.id)
  {
    IdsOfMembers(all);
    var i :| 0 <= i < |all| && all[i] == log;
    assert log.id in IdsOf(shown);
    var k :| 0 <= k < |shown| && shown[k].id == log.id;
  }

  lemma SameIds(left: seq<Log>, right: seq<Log>)
    requires multiset(left) == multiset(right)
    ensures IdsOf(left) == IdsOf(right)
  {
    forall id | id in IdsOf(left)
      ensures id in IdsOf(right)
    {
      var i :| 0 <= i < |left| && left[i].id == id;
      assert left[i] in multiset(right);
    }
    forall id | id in IdsOf(right)
      ensures id in IdsOf(left)
    {
      var i :| 0 <= i < |right| && right[i].id == id;
      assert right[i] in multiset(left);
    }
  }

  // ---- Removal ----

  lemma {:induction false} KeepKeeps(logs: seq<Log>, dropped: set<string>)
    ensures forall log | log in logs :: log in Keep(logs, dropped) || log.id in dropped
    ensures forall log | log in Keep(logs, dropped) :: log in logs
  {
    if logs != [] {
      var init, last := logs[..|logs| - 1], logs[|logs| - 1];
      assert logs == init + [last];
      KeepKeeps(init, dropped);
    }
  }

  lemma {:induction false} KeepFreshKeeps(logs: seq<Log>, cutoff: nat)
    ensures forall log | log in logs :: log in KeepFresh(logs, cutoff) || log.id in Expired(logs, cutoff)
    ensures forall log | log in KeepFresh(logs, cutoff) :: log in logs
  {
    if logs != [] {
      var init, last := logs[..|logs| - 1], logs[|logs| - 1];
      assert logs == init + [last];
      KeepFreshKeeps(init, cutoff);
      forall id | id in Expired(init, cutoff)
        ensures id in Expired(logs, cutoff)
      {
        var i :| 0 <= i < |init| && init[i].createdAt < cutoff && init[i].id == id;
        assert logs[i] == init[i];
      }
      if last.createdAt < cutoff {
        assert logs[|logs| - 1].id in Expired(logs, cutoff);
      }
    }
  }

  // ---- The invariant ----

  /** The tasks that hold the running flag. */
  predicate Holding(at: Task) {
    at.Sleeping? || at.Taking? || at.Taken? || at.Persisted? || at.Archived? || at.Draining? || at.Checking? || at.Clearing?
  }

  /** The tasks that will still try to take the flag if they find something to flush. */
  predicate Obliged(at: Task) {
    at.Pushed? || at.Rechecking? || at.Restarting?
  }

  predicate HasBatch(at: Task) {
    at.Taken? || at.Persisted? || at.Archived? || at.Draining?
  }

  /** At most one task holds the flag, and a set flag has its holder. */
  ghost predicate Exclusive(st: State) {
    && (forall t | t in st.tasks :: Holding(st.tasks[t]) ==> st.flag && t == st.holder)
    && (st.flag ==> st.holder in st.tasks && Holding(st.tasks[st.holder]))
  }

  /** No lost wake-up. */
  ghost predicate Awake(st: State) {
    st.pending != [] && !st.flag ==> exists t :: t in st.tasks && Obliged(st.tasks[t])
  }

  /** What is pending is what was appended and not drained; a batch under way is still at its front. */
  ghost predicate Queued(st: State) {
    && st.drained <= |st.appended| && st.pending == st.appended[st.drained..]
    && forall t | t in st.tasks && HasBatch(st.tasks[t]) :: st.tasks[t].batch != [] && st.tasks[t].batch <= st.pending
  }

  /** Still in the archived list, or removed by pruning or the archive limit. */
  predicate Survives(st: State, log: Log) {
    log in st.archived || log.id in st.removed
  }

  ghost predicate Saved(st: State) {
    && st.drained <= |st.appended|
    && (forall i | 0 <= i < st.drained :: Survives(st, st.appended[i]))
    && (forall t | t in st.tasks && (st.tasks[t].Archived? || st.tasks[t].Draining?) ::
          forall i | 0 <= i < |st.tasks[t].batch| :: Survives(st, st.tasks[t].batch[i]))
  }

  /** A snapshot under way has not lost sight of a log appended before it began. */
  ghost predicate Watching(st: State, at: Task) {
    match at
    case Listing(since, _) => since <= |st.appended|
    case Joining(since, _, pending) =>
      since <= |st.appended|
      && forall i | 0 <= i < since :: st.appended[i] in pending || Survives(st, st.appended[i])
    case _ => true
  }

  ghost predicate Honest(st: State, s: Snapshot) {
    && s.since <= |st.appended|
    && forall i | 0 <= i < s.since :: st.appended[i].id in s.removed || Once(s.logs, st.appended[i].id)
  }

  ghost predicate Snapshots(st: State) {
    && (forall t | t in st.tasks :: Watching(st, st.tasks[t]))
    && (forall k | 0 <= k < |st.snapshots| :: Honest(st, st.snapshots[k]))
  }

  ghost predicate Inv(st: State) {
    Exclusive(st) && Awake(st) && Queued(st) && Saved(st) && Snapshots(st)
  }

  lemma StepExclusive(st: State, step: Step)
    requires Exclusive(st) && Do(st, step).Some?
    ensures Exclusive(Do(st, step).value)
  {
    hide Keep, KeepFresh, Expired, Merged;
  }

  lemma StepAwake(st: State, step: Step)
    requires Exclusive(st) && Awake(st) && Do(st, step).Some?
    ensures Awake(Do(st, step).value)
  {
    hide Keep, KeepFresh, Expired, Merged;
    var next := Do(st, step).value;
    if next.pending != [] && !next.flag {
      if step.PruneArchived? || step.PruneInner? {
      } else if step.Push? || step.Clear? || step.Recheck? {
        assert step.task in next.tasks && Obliged(next.tasks[step.task]);
      } else {
        var t :| t in st.tasks && Obliged(st.tasks[t]);
        assert t in next.tasks && Obliged(next.tasks[t]);
      }
    }
  }

  lemma StepQueued(st: State, step: Step)
    requires Exclusive(st) && Queued(st) && Do(st, step).Some?
    ensures Queued(Do(st, step).value)
  {
    hide Keep, KeepFresh, Expired, Merged;
    if step.Drain? {
      DrainQueued(st, step.task);
    } else if step.Push? {
    } else {
      hide Drained;
    }
  }

  /** Only the holder has a batch, so draining disturbs no other. */
  lemma DrainQueued(st: State, t: nat)
    requires Exclusive(st) && Queued(st) && t in st.tasks && st.tasks[t].Draining?
    ensures Queued(Goto(Drained(st, st.tasks[t].batch), t, Taking))
  {
    assert t == st.holder;
  }

  // ---- Saving ----

  /** Every pending log is on its way: a step only adds to what survives, apart from what it records as removed. */
  lemma StepSurvives(st: State, step: Step, log: Log)
    requires Survives(st, log) && Do(st, step).Some?
    ensures Survives(Do(st, step).value, log)
  {
    hide Merged;
    match step
    case Enforce(_, Some(dropped)) => KeepKeeps(st.archived, dropped);
    case PruneArchived(cutoff) => KeepFreshKeeps(st.archived, cutoff);
    case _ =>
  }

  /** Draining removes exactly the batch that was persisted and archived. */
  lemma DrainRemovesBatch(st: State, t: nat)
    requires Queued(st) && t in st.tasks && st.tasks[t].Draining?
    ensures st.tasks[t].batch + Drained(st, st.tasks[t].batch).pending == st.pending
    ensures st.tasks[t].batch == st.appended[st.drained..Drained(st, st.tasks[t].batch).drained]
  {
    var batch := st.tasks[t].batch;
    assert batch == st.pending[..|batch|];
  }

  /** The batch of a task after a step was there before it. */
  lemma BatchFrom(st: State, step: Step, t: nat)
    requires Do(st, step).Some? && t in Do(st, step).value.tasks
    requires var at := Do(st, step).value.tasks[t]; at.Archived? || at.Draining?
    ensures t in st.tasks && HasBatch(st.tasks[t]) && st.tasks[t].batch == Do(st, step).value.tasks[t].batch
    ensures st.tasks[t].Archived? || st.tasks[t].Draining? || (st.tasks[t].Persisted? && step == Archive(t))
  {
    hide Keep, KeepFresh, Expired, Merged;
  }

  lemma DrainedSaved(st: State, step: Step, i: nat)
    requires Queued(st) && Saved(st) && Do(st, step).Some? && i < Do(st, step).value.drained
    ensures st.appended <= Do(st, step).value.appended && i < |st.appended|
    ensures Survives(Do(st, step).value, st.appended[i])
  {
    StepAppends(st, step);
    if i < st.drained {
      hide Keep, KeepFresh, Expired, Merged, Survives, Drained, StepOf;
      StepSurvives(st, step, st.appended[i]);
    } else {
      hide Keep, KeepFresh, Expired, Merged, Survives;
      DrainRemovesBatch(st, step.task);
      StepSurvives(st, step, st.tasks[step.task].batch[i - st.drained]);
    }
  }

  lemma StepSaved(st: State, step: Step)
    requires Exclusive(st) && Queued(st) && Saved(st) && Do(st, step).Some?
    ensures Saved(Do(st, step).value)
  {
    hide Do, Survives, Exclusive;
    var next := Do(st, step).value;
    StepQueued(st, step);
    forall i | 0 <= i < next.drained
      ensures Survives(next, next.appended[i])
    {
      DrainedSaved(st, step, i);
    }
    forall t, i | t in next.tasks && (next.tasks[t].Archived? || next.tasks[t].Draining?) && 0 <= i < |next.tasks[t].batch|
      ensures Survives(next, next.tasks[t].batch[i])
    {
      BatchFrom(st, step, t);
      if st.tasks[t].Persisted? {
        ArchiveSaves(st, t, i);
      } else {
        StepSurvives(st, step, st.tasks[t].batch[i]);
      }
    }
  }

  lemma ArchiveSaves(st: State, t: nat, i: nat)
    requires t in st.tasks && st.tasks[t].Persisted? && i < |st.tasks[t].batch|
    ensures Survives(Do(st, Archive(t)).value, st.tasks[t].batch[i])
  {
  }

  // ---- Snapshots ----

  lemma Whereabouts(st: State, i: nat)
    requires Queued(st) && Saved(st) && i < |st.appended|
    ensures st.appended[i] in st.pending || Survives(st, st.appended[i])
  {
    hide Survives;
    if i >= st.drained {
      assert st.appended[i] == st.pending[i - st.drained];
    }
  }

  lemma StepAppends(st: State, step: Step)
    requires Do(st, step).Some?
    ensures st.appended <= Do(st, step).value.appended
    ensures st.snapshots <= Do(st, step).value.snapshots
  {
    hide Keep, KeepFresh, Expired, Merged;
  }

  lemma SnapshotHonest(st: State, at: Task)
    requires at.Joining? && Watching(st, at)
    ensures Honest(st, Snapshot(at.since, Merged(at.inner, at.pending, st.archived), st.removed))
  {
    hide Merged;
    MergedMeaning(at.inner, at.pending, st.archived);
    forall i | 0 <= i < at.since
      ensures st.appended[i].id in st.removed || Once(Merged(at.inner, at.pending, st.archived), st.appended[i].id)
    {
      if st.appended[i].id !in st.removed {
        assert st.appended[i] in at.pending + st.archived;
      }
    }
  }

  /** The step that reads the pending list misses nothing; other steps leave the task as it was. */
  lemma WatchingBefore(st: State, step: Step, t: nat)
    requires Queued(st) && Saved(st) && Snapshots(st) && Do(st, step).Some?
    requires t in Do(st, step).value.tasks && Do(st, step).value.tasks[t].Joining?
    ensures Watching(st, Do(st, step).value.tasks[t])
  {
    hide Keep, KeepFresh, Expired, Merged, Survives, Honest;
    assert t in st.tasks && Watching(st, st.tasks[t]);
    if st.tasks[t].Listing? {
      forall i | 0 <= i < |st.appended|
        ensures st.appended[i] in st.pending || Survives(st, st.appended[i])
      {
        Whereabouts(st, i);
      }
    }
  }

  lemma StepWatching(st: State, step: Step, t: nat)
    requires Queued(st) && Saved(st) && Snapshots(st) && Do(st, step).Some? && t in Do(st, step).value.tasks
    ensures Watching(Do(st, step).value, Do(st, step).value.tasks[t])
  {
    hide Keep, KeepFresh, Expired, Merged, Survives, Honest, Queued, Saved;
    var next := Do(st, step).value;
    StepAppends(st, step);
    var at := next.tasks[t];
    if at.Joining? {
      WatchingBefore(st, step, t);
      forall i | 0 <= i < at.since
        ensures next.appended[i] in at.pending || Survives(next, next.appended[i])
      {
        assert next.appended[i] == st.appended[i];
        if Survives(st, st.appended[i]) {
          StepSurvives(st, step, st.appended[i]);
        }
      }
    }
  }

  lemma StepSnapshots(st: State, step: Step)
    requires Queued(st) && Saved(st) && Snapshots(st) && Do(st, step).Some?
    ensures Snapshots(Do(st, step).value)
  {
    hide Keep, KeepFresh, Expired, Merged, Survives, Queued, Saved;
    var next := Do(st, step).value;
    StepAppends(st, step);
    forall t | t in next.tasks
      ensures Watching(next, next.tasks[t])
    {
      StepWatching(st, step, t);
    }
    if step.ReadArchived? {
      SnapshotHonest(st, st.tasks[step.task]);
    }
    forall k | 0 <= k < |next.snapshots|
      ensures Honest(next, next.snapshots[k])
    {
      if k < |st.snapshots| {
        assert Honest(st, st.snapshots[k]);
      }
    }
  }

  // ---- Runs ----

  lemma {:induction false} RunKeepsInv(inner: seq<Log>, archived: seq<Log>, steps: seq<Step>)
    requires Run(inner, archived, steps).Some?
    ensures Inv(Run(inner, archived, steps).value)
  {
    hide Exclusive, Awake, Queued, Saved, Snapshots, Do;
    if steps == [] {
      InitialInv(inner, archived);
    } else {
      var init, step := steps[..|steps| - 1], steps[|steps| - 1];
      RunKeepsInv(inner, archived, init);
      var st := Run(inner, archived, init).value;
      StepExclusive(st, step);
      StepAwake(st, step);
      StepQueued(st, step);
      StepSaved(st, step);
      StepSnapshots(st, step);
    }
  }

  lemma InitialInv(inner: seq<Log>, archived: seq<Log>)
    ensures Inv(Initial(inner, archived))
  {
  }

  /** In every reachable state: pending logs always have a flusher, or a task that will start one; at most one task
      holds the flag; a drain takes exactly the batch that is in the archived list. */
  lemma NoLostWakeUp(inner: seq<Log>, archived: seq<Log>, steps: seq<Step>)
    requires Run(inner, archived, steps).Some?
    ensures var st := Run(inner, archived, steps).value;
            && (st.pending != [] ==> exists t :: t in st.tasks && (Holding(st.tasks[t]) || Obliged(st.tasks[t])))
            && (forall t, u | t in st.tasks && u in st.tasks && Holding(st.tasks[t]) && Holding(st.tasks[u]) :: t == u)
            && (forall t | t in st.tasks && st.tasks[t].Draining? ::
                  st.tasks[t].batch + Drained(st, st.tasks[t].batch).pending == st.pending)
  {
    RunKeepsInv(inner, archived, steps);
    var st := Run(inner, archived, steps).value;
    forall t | t in st.tasks && st.tasks[t].Draining?
      ensures st.tasks[t].batch + Drained(st, st.tasks[t].batch).pending == st.pending
    {
      DrainRemovesBatch(st, t);
    }
    if st.pending != [] && !st.flag {
      var t :| t in st.tasks && Obliged(st.tasks[t]);
    }
  }

  /** When every task is done, everything appended was flushed: it is in the archived list or was removed. */
  lemma QuiescentMeansFlushed(inner: seq<Log>, archived: seq<Log>, steps: seq<Step>)
    requires Run(inner, archived, steps).Some? && Run(inner, archived, steps).value.tasks == map[]
    ensures var st := Run(inner, archived, steps).value;
            st.pending == [] && !st.flag && forall i | 0 <= i < |st.appended| :: Survives(st, st.appended[i])
  {
    RunKeepsInv(inner, archived, steps);
  }

  /** A finished snapshot shows every log appended before it began, and not removed by its end, exactly once. */
  lemma SnapshotsLoseNothing(inner: seq<Log>, archived: seq<Log>, steps: seq<Step>)
    requires Run(inner, archived, steps).Some?
    ensures var st := Run(inner, archived, steps).value;
            forall k | 0 <= k < |st.snapshots| :: Honest(st, st.snapshots[k])
  {
    RunKeepsInv(inner, archived, steps);
  }
}
