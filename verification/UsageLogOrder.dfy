/** In which order the flusher works, what a snapshot shows of what was there at the start, and which of several
    logs with one id it shows. */
module UsageLogOrder {
  import opened Collections
  import opened Ordering
  import opened Text
  import opened UsageLogs
  import Runs = UsageLogRuns

  // ---- The order of the steps ----

  function TaskOf(step: Step): Option<nat> {
    if step.PruneArchived? || step.PruneInner? then None else Some(step.task)
  }

  /** What a task does next after `step`, taken in the state `before`. */
  predicate Continues(before: State, step: Step, next: Step) {
    match step
    case Push(_, _) => next.Schedule?
    case Schedule(_) => !before.flag && next.Wake?
    case Wake(_) => next.Take?
    case Take(_) => if before.pending == [] then next.Check? else next.Persist?
    case Persist(_, ok) => if ok then next.Archive? else next.Wake?
    case Archive(_) => next.Enforce?
    case Enforce(_, dropped) => if dropped.Some? then next.Drain? else next.Wake?
    case Drain(_) => next.Take?
    case Check(_) => if before.pending == [] then next.Clear? else next.Wake?
    case Clear(_) => next.Recheck?
    case Recheck(_) => before.pending != [] && next.Restart?
    case Restart(_) => !before.flag && next.Wake?
    case ReadInner(_) => next.ReadPending?
    case ReadPending(_) => next.ReadArchived?
    case ReadArchived(_) => false
    case PruneArchived(_) => false
    case PruneInner(_) => false
  }

  /** The task ends with `step`: another one holds the flag, nothing is pending any more, or its snapshot is
      complete. */
  predicate Stops(before: State, step: Step) {
    match step
    case Schedule(_) => before.flag
    case Restart(_) => before.flag
    case Recheck(_) => before.pending == []
    case ReadArchived(_) => true
    case _ => false
  }

  /** The kinds of step a task at a point can take. */
  predicate Awaits(at: Task, next: Step) {
    match at
    case Pushed => next.Schedule?
    case Sleeping => next.Wake?
    case Taking => next.Take?
    case Taken(_) => next.Persist?
    case Persisted(_) => next.Archive?
    case Archived(_) => next.Enforce?
    case Draining(_) => next.Drain?
    case Checking => next.Check?
    case Clearing => next.Clear?
    case Rechecking => next.Recheck?
    case Restarting => next.Restart?
    case Listing(_, _) => next.ReadPending?
    case Joining(_, _, _) => next.ReadArchived?
  }

  lemma EnabledIsAwaited(st: State, step: Step, t: nat)
    requires Do(st, step).Some? && TaskOf(step) == Some(t)
    ensures t in st.tasks ==> Awaits(st.tasks[t], step)
    ensures t !in st.tasks ==> step.Push? || step.ReadInner?
  {
    hide Keep, KeepFresh, Expired, Merged, Drained;
  }

  /** A step moves its own task to where the next one is awaited, or ends it. */
  lemma MovesOn(st: State, step: Step, t: nat, next: Step)
    requires Do(st, step).Some? && TaskOf(step) == Some(t)
    ensures var after := Do(st, step).value;
            && (t in after.tasks <==> !Stops(st, step))
            && (t in after.tasks && Awaits(after.tasks[t], next) ==> Continues(st, step, next))
  {
    hide Keep, KeepFresh, Expired, Merged, Drained;
  }

  lemma OthersStay(st: State, step: Step, t: nat)
    requires Do(st, step).Some? && TaskOf(step) != Some(t)
    ensures var after := Do(st, step).value;
            (t in after.tasks <==> t in st.tasks) && (t in st.tasks ==> after.tasks[t] == st.tasks[t])
  {
    hide Keep, KeepFresh, Expired, Merged;
  }

  lemma RunUpTo(inner: seq<Log>, archived: seq<Log>, steps: seq<Step>, n: nat)
    requires Run(inner, archived, steps).Some? && n <= |steps|
    ensures Run(inner, archived, steps[..n]).Some?
    ensures n < |steps| ==> Do(Run(inner, archived, steps[..n]).value, steps[n]).Some?
    ensures n < |steps| ==> Run(inner, archived, steps[..n + 1]) == Do(Run(inner, archived, steps[..n]).value, steps[n])
    decreases |steps|
  {
    hide Do;
    if n == |steps| {
      assert steps[..n] == steps;
    } else if n == |steps| - 1 {
      assert steps[..n + 1] == steps;
    } else {
      var init := steps[..|steps| - 1];
      assert init[..n] == steps[..n] && init[..n + 1] == steps[..n + 1] && init[n] == steps[n];
      RunUpTo(inner, archived, init, n);
    }
  }

  /** Nothing moves a task but its own steps. */
  lemma {:induction false} Waits(inner: seq<Log>, archived: seq<Log>, steps: seq<Step>, from: nat, to: nat, t: nat)
    requires Run(inner, archived, steps).Some? && from <= to <= |steps|
    requires forall k | from <= k < to :: TaskOf(steps[k]) != Some(t)
    ensures Run(inner, archived, steps[..from]).Some? && Run(inner, archived, steps[..to]).Some?
    ensures var early, late := Run(inner, archived, steps[..from]).value, Run(inner, archived, steps[..to]).value;
            (t in late.tasks <==> t in early.tasks) && (t in early.tasks ==> late.tasks[t] == early.tasks[t])
  {
    hide Do, Run;
    RunUpTo(inner, archived, steps, from);
    RunUpTo(inner, archived, steps, to);
    if from < to {
      Waits(inner, archived, steps, from, to - 1, t);
      RunUpTo(inner, archived, steps, to - 1);
      OthersStay(Run(inner, archived, steps[..to - 1]).value, steps[to - 1], t);
    }
  }

  /** Main result: in every interleaving, a task takes its steps in one order.  A log is drained only after its
      batch was taken, written without error, archived and the archive limit enforced, one after the other; every
      failure sends the flusher back to sleep, and it gives up the flag only after it found nothing pending, and
      looks once more. */
  lemma StepsInOrder(inner: seq<Log>, archived: seq<Log>, steps: seq<Step>, m: nat, n: nat, t: nat)
    requires Run(inner, archived, steps).Some? && m < n < |steps|
    requires TaskOf(steps[m]) == TaskOf(steps[n]) == Some(t)
    requires forall k | m < k < n :: TaskOf(steps[k]) != Some(t)
    ensures Run(inner, archived, steps[..m]).Some?
    ensures var before := Run(inner, archived, steps[..m]).value;
            if Stops(before, steps[m]) then steps[n].Push? || steps[n].ReadInner?
            else Continues(before, steps[m], steps[n])
  {
    RunUpTo(inner, archived, steps, m);
    RunUpTo(inner, archived, steps, n);
    Waits(inner, archived, steps, m + 1, n, t);
    hide Do, Run, Stops, Continues, Awaits;
    MovesOn(Run(inner, archived, steps[..m]).value, steps[m], t, steps[n]);
    EnabledIsAwaited(Run(inner, archived, steps[..n]).value, steps[n], t);
  }

  // ---- What was there at the start ----

  /** The log is in the list, or its id was removed. */
  predicate Traced(log: Log, list: seq<Log>, removed: set<string>) {
    log in list || log.id in removed
  }

  ghost predicate AllTraced(logs: seq<Log>, list: seq<Log>, removed: set<string>) {
    forall i | 0 <= i < |logs| :: Traced(logs[i], list, removed)
  }

  /** Each id is shown, or was removed. */
  ghost predicate Accounted(logs: seq<Log>, s: Snapshot) {
    forall i | 0 <= i < |logs| :: logs[i].id in s.removed || logs[i].id in IdsOf(s.logs)
  }

  /** The list a snapshot under way read first. */
  predicate Reads(at: Task) {
    at.Listing? || at.Joining?
  }

  ghost predicate Initially(st: State, inner: seq<Log>, archived: seq<Log>) {
    && AllTraced(inner, st.inner, st.removed) && AllTraced(archived, st.archived, st.removed)
    && (forall t | t in st.tasks && Reads(st.tasks[t]) :: AllTraced(inner, st.tasks[t].inner, st.removed))
    && (forall k | 0 <= k < |st.snapshots| ::
          Accounted(inner, st.snapshots[k]) && Accounted(archived, st.snapshots[k]))
  }

  lemma TracedFurther(logs: seq<Log>, list: seq<Log>, removed: set<string>, later: seq<Log>, more: set<string>)
    requires AllTraced(logs, list, removed) && removed <= more
    requires forall log | log in list :: log in later || log.id in more
    ensures AllTraced(logs, later, more)
  {
    forall i | 0 <= i < |logs|
      ensures Traced(logs[i], later, more)
    {
      assert Traced(logs[i], list, removed);
    }
  }

  /** A step removes from the inner list only what it records, as it does from the archived one. */
  lemma InnerAfter(st: State, step: Step)
    requires Do(st, step).Some?
    ensures var next := Do(st, step).value;
            && st.removed <= next.removed
            && (forall log | log in st.inner :: log in next.inner || log.id in next.removed)
            && (forall log | log in st.archived :: log in next.archived || log.id in next.removed)
            && (forall log | log in next.inner :: log in st.inner)
  {
    match step
    case PruneInner(cutoff) =>
      Runs.KeepFreshKeeps(st.inner, cutoff);
      hide Keep, KeepFresh, Expired, Merged;
    case PruneArchived(cutoff) =>
      Runs.KeepFreshKeeps(st.archived, cutoff);
      hide Keep, KeepFresh, Expired, Merged;
    case Enforce(_, Some(dropped)) =>
      Runs.KeepKeeps(st.archived, dropped);
      hide Keep, KeepFresh, Expired, Merged;
    case _ =>
      hide Keep, KeepFresh, Expired, Merged;
  }

  lemma ReadersAfter(st: State, step: Step, t: nat)
    requires Do(st, step).Some? && t in Do(st, step).value.tasks && Reads(Do(st, step).value.tasks[t])
    ensures var at := Do(st, step).value.tasks[t];
            if t in st.tasks then Reads(st.tasks[t]) && at.inner == st.tasks[t].inner
            else at.inner == st.inner
  {
    hide Keep, KeepFresh, Expired, Merged;
  }

  lemma ShowsAll(logs: seq<Log>, inner: seq<Log>, pending: seq<Log>, archived: seq<Log>, since: nat, removed: set<string>)
    requires AllTraced(logs, inner, removed) || AllTraced(logs, archived, removed)
    ensures Accounted(logs, Snapshot(since, Merged(inner, pending, archived), removed))
  {
    var shown := Merged(inner, pending, archived);
    Runs.MergedMeaning(inner, pending, archived);
    hide Merged, SortedBy, Runs.DistinctIds;
    forall i | 0 <= i < |logs|
      ensures logs[i].id in removed || logs[i].id in IdsOf(shown)
    {
      if logs[i].id !in removed {
        assert Traced(logs[i], inner, removed) || Traced(logs[i], archived, removed);
        Runs.IdsOfMembers(shown);
        if logs[i] in pending + archived {
          var k :| 0 <= k < |shown| && shown[k].id == logs[i].id;
        } else if pending + archived == [] {
          assert shown == inner;
        } else {
          assert logs[i] in pending + archived + inner;
          Runs.IdsOfMembers(pending + archived + inner);
        }
      }
    }
  }

  lemma SnapshotsAfter(st: State, step: Step)
    requires Do(st, step).Some?
    ensures var next := Do(st, step).value;
            next.snapshots == st.snapshots
            || (step.ReadArchived? && step.task in st.tasks && st.tasks[step.task].Joining?
                && var at := st.tasks[step.task];
                   next.snapshots
                   == st.snapshots + [Snapshot(at.since, Merged(at.inner, at.pending, st.archived), st.removed)])
  {
    hide Keep, KeepFresh, Expired, Merged;
  }

  lemma StepInitially(st: State, step: Step, inner: seq<Log>, archived: seq<Log>)
    requires Initially(st, inner, archived) && Do(st, step).Some?
    ensures Initially(Do(st, step).value, inner, archived)
  {
    var next := Do(st, step).value;
    InnerAfter(st, step);
    SnapshotsAfter(st, step);
    TracedFurther(inner, st.inner, st.removed, next.inner, next.removed);
    TracedFurther(archived, st.archived, st.removed, next.archived, next.removed);
    hide Do, Merged, IdsOf, AllTraced, Accounted;
    forall t | t in next.tasks && Reads(next.tasks[t])
      ensures AllTraced(inner, next.tasks[t].inner, next.removed)
    {
      ReadersAfter(st, step, t);
      var list := next.tasks[t].inner;
      TracedFurther(inner, list, st.removed, list, next.removed);
    }
    if next.snapshots != st.snapshots {
      var at := st.tasks[step.task];
      assert Reads(at);
      ShowsAll(inner, at.inner, at.pending, st.archived, at.since, st.removed);
      ShowsAll(archived, at.inner, at.pending, st.archived, at.since, st.removed);
    }
  }

  lemma NothingRemoved(inner: seq<Log>, archived: seq<Log>)
    ensures Initially(Initial(inner, archived), inner, archived)
  {
  }

  /** In every interleaving, every finished snapshot shows each log that the inner and the archived list held at the
      start, unless its id was removed. */
  lemma {:induction false} StartIsShown(inner: seq<Log>, archived: seq<Log>, steps: seq<Step>)
    requires Run(inner, archived, steps).Some?
    ensures Initially(Run(inner, archived, steps).value, inner, archived)
  {
    hide Do, Initially;
    if steps == [] {
      NothingRemoved(inner, archived);
    } else {
      var init, step := steps[..|steps| - 1], steps[|steps| - 1];
      StartIsShown(inner, archived, init);
      StepInitially(Run(inner, archived, init).value, step, inner, archived);
    }
  }

  // ---- One of several ----

  /** Earlier by creation time, then by request id, then by id. */
  predicate Earlier(a: Log, b: Log) {
    || a.createdAt < b.createdAt
    || (a.createdAt == b.createdAt && TextBefore(a.requestId, b.requestId))
    || (a.createdAt == b.createdAt && a.requestId == b.requestId && TextBefore(a.id, b.id))
  }

  lemma EarlierIsBefore(a: Log, b: Log)
    ensures Before(a, b) <==> Earlier(a, b)
  {
    TextOrder(a.requestId, a.requestId, a.requestId);
  }

  function HasId(id: string): Log -> bool {
    (log: Log) => log.id == id
  }

  function Head(logs: seq<Log>): seq<Log> {
    if logs == [] then [] else [logs[0]]
  }

  lemma HeadSnoc(logs: seq<Log>, last: Log)
    ensures logs + [last] != []
    ensures Head(logs + [last]) == if logs == [] then [last] else Head(logs)
  {
  }

  lemma NothingKept(logs: seq<Log>, id: string)
    ensures Deduplicated(logs, 0) == [] && logs[..0] == []
    ensures Filter(Deduplicated(logs, 0), HasId(id)) == [] == Filter(logs[..0], HasId(id))
    ensures id !in IdsOf(Deduplicated(logs, 0))
  {
    NothingToKeep(Deduplicated(logs, 0), HasId(id));
    NothingToKeep(logs[..0], HasId(id));
  }

  /** One log more, which is kept if none with its id was. */
  lemma KeepsFirstOf(front: seq<Log>, before: seq<Log>, last: Log, id: string)
    requires Filter(before, HasId(id)) == Head(Filter(front, HasId(id)))
    requires id in IdsOf(before) <==> Filter(front, HasId(id)) != []
    ensures var after := if last.id in IdsOf(before) then before else before + [last];
            && Filter(after, HasId(id)) == Head(Filter(front + [last], HasId(id)))
            && (id in IdsOf(after) <==> Filter(front + [last], HasId(id)) != [])
  {
    hide Filter, IdsOf, Head;
    IdsOfSnoc(before, last);
    FilterSnoc(before, last, HasId(id));
    FilterSnoc(front, last, HasId(id));
    if last.id == id {
      assert HasId(id)(last);
      HeadSnoc(Filter(front, HasId(id)), last);
      HeadIs(Filter(front, HasId(id)));
      assert [] + [last] == [last];
    } else {
      assert !HasId(id)(last);
    }
  }

  lemma DeduplicatedNext(logs: seq<Log>, n: nat)
    requires 0 < n <= |logs|
    ensures logs[..n] == logs[..n - 1] + [logs[n - 1]]
    ensures var before, last := Deduplicated(logs, n - 1), logs[n - 1];
            Deduplicated(logs, n) == if last.id in IdsOf(before) then before else before + [last]
  {
    hide IdsOf;
  }

  /** What is kept of a list has the first log of each id. */
  lemma {:induction false} KeepsFirst(logs: seq<Log>, n: nat, id: string)
    requires n <= |logs|
    ensures Filter(Deduplicated(logs, n), HasId(id)) == Head(Filter(logs[..n], HasId(id)))
    ensures id in IdsOf(Deduplicated(logs, n)) <==> Filter(logs[..n], HasId(id)) != []
  {
    hide Filter, IdsOf, Head, HasId;
    if n == 0 {
      NothingKept(logs, id);
      HeadIs([]);
    } else {
      KeepsFirst(logs, n - 1, id);
      DeduplicatedNext(logs, n);
      hide Deduplicated;
      KeepsFirstOf(logs[..n - 1], Deduplicated(logs, n - 1), logs[n - 1], id);
    }
  }

  lemma HeadIs(logs: seq<Log>)
    ensures Head(logs) == [] <==> logs == []
  {
  }

  lemma {:induction false} OnlyOne(logs: seq<Log>, i: nat)
    requires Runs.DistinctIds(logs) && i < |logs|
    ensures Filter(logs, HasId(logs[i].id)) == [logs[i]]
  {
    hide Filter, HasId;
    var init, last := logs[..|logs| - 1], logs[|logs| - 1];
    assert logs == init + [last];
    FilterSnoc(init, last, HasId(logs[i].id));
    HasIdIs(logs[i].id, last);
    if i < |init| {
      OnlyOne(init, i);
    } else {
      NoneHasIt(init, last.id);
    }
  }

  lemma HasIdIs(id: string, log: Log)
    ensures HasId(id)(log) <==> log.id == id
  {
  }

  lemma {:induction false} NoneHasIt(logs: seq<Log>, id: string)
    requires forall i | 0 <= i < |logs| :: logs[i].id != id
    ensures Filter(logs, HasId(id)) == []
  {
    if logs != [] {
      NoneHasIt(logs[..|logs| - 1], id);
    }
  }

  lemma ShownBefore(a: Log, b: Log)
    requires !Before(b, a) && a.id != b.id
    ensures Earlier(a, b)
  {
    EarlierIsBefore(b, a);
    TextOrder(a.requestId, b.requestId, a.requestId);
    TextOrder(a.id, b.id, a.id);
  }

  /** Main result: as soon as anything is pending or archived, the merged list runs strictly from earlier to later,
      and shows of all logs with one id the earliest, of equally early ones the first in the order pending,
      archived, inner. */
  lemma ShowsEarliest(inner: seq<Log>, pending: seq<Log>, archived: seq<Log>)
    requires pending + archived != []
    ensures var shown, all := Merged(inner, pending, archived), pending + archived + inner;
            && (forall i, j | 0 <= i < j < |shown| :: Earlier(shown[i], shown[j]))
            && (forall i | 0 <= i < |shown| :: FirstBest(Filter(all, HasId(shown[i].id)), Before) == Some(shown[i]))
  {
    var shown, all := Merged(inner, pending, archived), pending + archived + inner;
    var sorted := SortBy(all, Before);
    Runs.MergedMeaning(inner, pending, archived);
    Runs.BeforeOrders();
    assert shown == Deduplicated(sorted, |sorted|);
    assert sorted[..|sorted|] == sorted;
    hide Merged, SortBy, Before, FirstBest, Filter, IdsOf, Deduplicated;
    forall i, j | 0 <= i < j < |shown|
      ensures Earlier(shown[i], shown[j])
    {
      ShownBefore(shown[i], shown[j]);
    }
    forall i | 0 <= i < |shown|
      ensures FirstBest(Filter(all, HasId(shown[i].id)), Before) == Some(shown[i])
    {
      var keeps := HasId(shown[i].id);
      OnlyOne(shown, i);
      KeepsFirst(sorted, |sorted|, shown[i].id);
      FilterSort(all, keeps, Before);
      SortedHead(Filter(all, keeps), Before);
    }
  }
}
