/** What the flusher wrote, and why a log is gone: histories read off the steps of a run, not off its state. */
module UsageLogStorage {
  import opened UsageLogs
  import Runs = UsageLogRuns

  // ---- Durable storage ----

  /** The batch a step writes: only a write that succeeds writes one. */
  function WrittenBy(st: State, step: Step): seq<Log> {
    match step
    case Persist(t, ok) => if ok && t in st.tasks && st.tasks[t].Taken? then st.tasks[t].batch else []
    case _ => []
  }

  /** Everything written during a run, in order. */
  function Stored(inner: seq<Log>, archived: seq<Log>, steps: seq<Step>): seq<Log> {
    if steps == [] then []
    else
      var init := steps[..|steps| - 1];
      Stored(inner, archived, init) + match Run(inner, archived, init)
        case None => []
        case Some(st) => WrittenBy(st, steps[|steps| - 1])
  }

  /** The batch was written before it was archived and drained. */
  predicate PastWriting(at: Task) {
    at.Persisted? || at.Archived? || at.Draining?
  }

  ghost predicate AllIn(logs: seq<Log>, stored: seq<Log>) {
    forall i | 0 <= i < |logs| :: logs[i] in stored
  }

  ghost predicate Durable(st: State, stored: seq<Log>, atStart: seq<Log>) {
    && st.drained <= |st.appended| && AllIn(st.appended[..st.drained], stored)
    && (forall t | t in st.tasks && PastWriting(st.tasks[t]) :: AllIn(st.tasks[t].batch, stored))
    && AllIn(st.archived, atStart + stored)
    && AllIn(stored, st.appended)
  }

  lemma {:induction false} KeptWereThere(logs: seq<Log>, dropped: set<string>, cutoff: nat)
    ensures AllIn(Keep(logs, dropped), logs) && AllIn(KeepFresh(logs, cutoff), logs)
  {
    if logs != [] {
      KeptWereThere(logs[..|logs| - 1], dropped, cutoff);
    }
  }

  /** What a step makes of the archived list and of the removed ids. */
  lemma ArchivedAfter(st: State, step: Step)
    requires Do(st, step).Some?
    ensures Do(st, step).value.archived == match step
              case Archive(t) => st.archived + (if t in st.tasks && st.tasks[t].Persisted? then st.tasks[t].batch else [])
              case PruneArchived(cutoff) => KeepFresh(st.archived, cutoff)
              case Enforce(_, Some(dropped)) => Keep(st.archived, dropped)
              case _ => st.archived
    ensures Do(st, step).value.removed == match step
              case PruneArchived(cutoff) => st.removed + Expired(st.archived, cutoff)
              case PruneInner(cutoff) => st.removed + Expired(st.inner, cutoff)
              case Enforce(_, Some(dropped)) => st.removed + dropped
              case _ => st.removed
  {
    hide Merged, Keep, KeepFresh, Expired;
    match step
    case Push(_, _) =>
    case Schedule(_) =>
    case Wake(_) =>
    case Take(_) =>
    case Persist(_, _) =>
    case Archive(_) =>
    case Enforce(_, dropped) =>
      if dropped.Some? {
      } else {
      }
    case Drain(_) =>
    case Check(_) =>
    case Clear(_) =>
    case Recheck(_) =>
    case Restart(_) =>
    case PruneArchived(_) =>
    case PruneInner(_) =>
    case ReadInner(_) =>
    case ReadPending(_) =>
    case ReadArchived(_) =>
  }

  lemma ArchivedDurable(st: State, step: Step, stored: seq<Log>, atStart: seq<Log>)
    requires Durable(st, stored, atStart) && Do(st, step).Some?
    ensures AllIn(Do(st, step).value.archived, atStart + (stored + WrittenBy(st, step)))
  {
    ArchivedAfter(st, step);
    hide Merged, Keep, KeepFresh, Expired, Drained, Do;
    assert AllIn(st.archived, atStart + (stored + WrittenBy(st, step)));
    match step
    case Archive(t) =>
      if t in st.tasks && st.tasks[t].Persisted? {
        assert PastWriting(st.tasks[t]);
      }
    case PruneArchived(cutoff) => KeptWereThere(st.archived, {}, cutoff);
    case Enforce(t, Some(dropped)) => KeptWereThere(st.archived, dropped, 0);
    case _ =>
  }

  lemma BatchesDurable(st: State, step: Step, stored: seq<Log>, atStart: seq<Log>, t: nat)
    requires Durable(st, stored, atStart) && Do(st, step).Some?
    requires t in Do(st, step).value.tasks && PastWriting(Do(st, step).value.tasks[t])
    ensures AllIn(Do(st, step).value.tasks[t].batch, stored + WrittenBy(st, step))
  {
    hide Merged, Keep, KeepFresh, Expired;
  }

  lemma DrainedDurable(st: State, step: Step, stored: seq<Log>, atStart: seq<Log>)
    requires Durable(st, stored, atStart) && Runs.Queued(st) && Do(st, step).Some?
    ensures var next := Do(st, step).value;
            next.drained <= |next.appended| && AllIn(next.appended[..next.drained], stored + WrittenBy(st, step))
  {
    hide Merged, Keep, KeepFresh, Expired;
    var next := Do(st, step).value;
    if step.Drain? {
      var batch := st.tasks[step.task].batch;
      Runs.DrainRemovesBatch(st, step.task);
      assert next.appended[..next.drained] == st.appended[..st.drained] + batch;
    } else {
      assert next.drained == st.drained && next.appended[..st.drained] == st.appended[..st.drained];
    }
  }

  lemma StoredAppended(st: State, step: Step, stored: seq<Log>, atStart: seq<Log>)
    requires Durable(st, stored, atStart) && Runs.Queued(st) && Do(st, step).Some?
    ensures AllIn(stored + WrittenBy(st, step), Do(st, step).value.appended)
  {
    Runs.StepAppends(st, step);
    hide Merged, Keep, KeepFresh, Expired, Drained, Do;
    assert AllIn(st.appended, Do(st, step).value.appended);
    if step.Persist? && WrittenBy(st, step) != [] {
      var batch := st.tasks[step.task].batch;
      assert batch <= st.pending && Runs.HasBatch(st.tasks[step.task]);
      assert forall i | 0 <= i < |batch| :: batch[i] == st.appended[st.drained + i];
    }
  }

  /** Main result: in every interleaving, every drained log, every log of a batch past its write, and every archived
      log that was not there at the start was written; and nothing was written that had not been appended. */
  lemma {:induction false} DrainedWasStored(inner: seq<Log>, archived: seq<Log>, steps: seq<Step>)
    requires Run(inner, archived, steps).Some?
    ensures Durable(Run(inner, archived, steps).value, Stored(inner, archived, steps), archived)
  {
    hide Do, Durable;
    if steps == [] {
      NothingStored(inner, archived);
    } else {
      var init, step := steps[..|steps| - 1], steps[|steps| - 1];
      var st, stored := Run(inner, archived, init).value, Stored(inner, archived, init);
      DrainedWasStored(inner, archived, init);
      Runs.RunKeepsInv(inner, archived, init);
      hide Runs.Exclusive, Runs.Awake, Runs.Saved, Runs.Snapshots, WrittenBy, Run, Stored;
      assert Runs.Queued(st);
      DrainedDurable(st, step, stored, archived);
      ArchivedDurable(st, step, stored, archived);
      StoredAppended(st, step, stored, archived);
      var next := Do(st, step).value;
      forall t | t in next.tasks && PastWriting(next.tasks[t])
        ensures AllIn(next.tasks[t].batch, stored + WrittenBy(st, step))
      {
        BatchesDurable(st, step, stored, archived, t);
      }
      DurableIf(next, stored + WrittenBy(st, step), archived);
      StoredNext(inner, archived, steps);
    }
  }

  lemma NothingStored(inner: seq<Log>, archived: seq<Log>)
    ensures Durable(Initial(inner, archived), [], archived)
  {
  }

  lemma DurableIf(st: State, stored: seq<Log>, atStart: seq<Log>)
    requires st.drained <= |st.appended| && AllIn(st.appended[..st.drained], stored)
    requires forall t | t in st.tasks && PastWriting(st.tasks[t]) :: AllIn(st.tasks[t].batch, stored)
    requires AllIn(st.archived, atStart + stored) && AllIn(stored, st.appended)
    ensures Durable(st, stored, atStart)
  {
  }

  lemma StoredNext(inner: seq<Log>, archived: seq<Log>, steps: seq<Step>)
    requires Run(inner, archived, steps).Some? && steps != []
    ensures var init, step := steps[..|steps| - 1], steps[|steps| - 1];
            && Run(inner, archived, init).Some?
            && Do(Run(inner, archived, init).value, step) == Run(inner, archived, steps)
            && Stored(inner, archived, steps)
               == Stored(inner, archived, init) + WrittenBy(Run(inner, archived, init).value, step)
  {
    hide Do, WrittenBy;
  }

  /** A write that fails leaves every list and the flag as they were, and the flusher goes on holding the flag. */
  lemma FailedWriteKeeps(st: State, t: nat)
    requires Do(st, Persist(t, false)).Some?
    ensures var next := Do(st, Persist(t, false)).value;
            && next == st.(tasks := next.tasks) && next.tasks == st.tasks[t := next.tasks[t]]
            && next.tasks[t] == Sleeping && WrittenBy(st, Persist(t, false)) == []
  {
  }

  // ---- Why a log is gone ----

  /** The step takes this archived log away: pruning because it is older than the cutoff, the limit by its id. */
  predicate TakesAway(step: Step, log: Log) {
    match step
    case PruneArchived(cutoff) => log.createdAt < cutoff
    case Enforce(_, Some(dropped)) => log.id in dropped
    case _ => false
  }

  ghost predicate TakenAway(steps: seq<Step>, log: Log) {
    exists n :: 0 <= n < |steps| && TakesAway(steps[n], log)
  }

  lemma {:induction false} KeepExactly(logs: seq<Log>, dropped: set<string>, cutoff: nat, log: Log)
    ensures log in Keep(logs, dropped) <==> log in logs && log.id !in dropped
    ensures log in KeepFresh(logs, cutoff) <==> log in logs && log.createdAt >= cutoff
  {
    if logs != [] {
      KeepExactly(logs[..|logs| - 1], dropped, cutoff, log);
      assert logs == logs[..|logs| - 1] + [logs[|logs| - 1]];
    }
  }

  /** An archived log stays until a step takes it away, and a step that takes it away leaves none. */
  lemma StepTakesAway(st: State, step: Step, log: Log)
    requires Do(st, step).Some?
    ensures log in st.archived && !TakesAway(step, log) ==> log in Do(st, step).value.archived
    ensures TakesAway(step, log) ==> log !in Do(st, step).value.archived
  {
    ArchivedAfter(st, step);
    hide Merged, Keep, KeepFresh, Expired, Drained, Do;
    match step
    case PruneArchived(cutoff) => KeepExactly(st.archived, {}, cutoff, log);
    case Enforce(_, Some(dropped)) => KeepExactly(st.archived, dropped, 0, log);
    case _ =>
  }

  /** What was archived, or drained, is in the archived list unless a step of the run took it away. */
  ghost predicate Kept(st: State, steps: seq<Step>) {
    && st.drained <= |st.appended|
    && (forall i | 0 <= i < st.drained :: st.appended[i] in st.archived || TakenAway(steps, st.appended[i]))
    && (forall t | t in st.tasks && (st.tasks[t].Archived? || st.tasks[t].Draining?) ::
          forall i | 0 <= i < |st.tasks[t].batch| ::
            st.tasks[t].batch[i] in st.archived || TakenAway(steps, st.tasks[t].batch[i]))
  }

  lemma TakenAwaySnoc(steps: seq<Step>, step: Step, log: Log)
    ensures TakenAway(steps + [step], log) <==> TakenAway(steps, log) || TakesAway(step, log)
  {
    var all := steps + [step];
    assert all[|steps|] == step;
    if TakenAway(steps, log) {
      var n :| 0 <= n < |steps| && TakesAway(steps[n], log);
      assert TakesAway(all[n], log);
    }
  }

  lemma StillKept(st: State, step: Step, steps: seq<Step>, log: Log)
    requires Do(st, step).Some? && (log in st.archived || TakenAway(steps, log))
    ensures log in Do(st, step).value.archived || TakenAway(steps + [step], log)
  {
    StepTakesAway(st, step, log);
    TakenAwaySnoc(steps, step, log);
    hide Do, TakenAway;
  }

  lemma ArchiveKeeps(st: State, t: nat, i: nat)
    requires t in st.tasks && st.tasks[t].Persisted? && i < |st.tasks[t].batch|
    ensures st.tasks[t].batch[i] in Do(st, Archive(t)).value.archived
  {
  }

  lemma StepKept(st: State, step: Step, steps: seq<Step>)
    requires Kept(st, steps) && Runs.Queued(st) && Do(st, step).Some?
    ensures Kept(Do(st, step).value, steps + [step])
  {
    var next := Do(st, step).value;
    DrainedFrom(st, step);
    forall i | 0 <= i < next.drained
      ensures next.appended[i] in next.archived || TakenAway(steps + [step], next.appended[i])
    {
      StillKept(st, step, steps, next.appended[i]);
    }
    forall t, i | t in next.tasks && (next.tasks[t].Archived? || next.tasks[t].Draining?)
                  && 0 <= i < |next.tasks[t].batch|
      ensures next.tasks[t].batch[i] in next.archived || TakenAway(steps + [step], next.tasks[t].batch[i])
    {
      Runs.BatchFrom(st, step, t);
      if st.tasks[t].Persisted? {
        ArchiveKeeps(st, t, i);
      } else {
        StillKept(st, step, steps, st.tasks[t].batch[i]);
      }
    }
    hide Do, TakenAway;
  }

  /** What a step drains is the front of the pending list: a batch that was archived. */
  lemma DrainedFrom(st: State, step: Step)
    requires Runs.Queued(st) && Do(st, step).Some?
    ensures var next := Do(st, step).value;
            && st.drained <= next.drained <= |next.appended| && st.appended <= next.appended
            && (st.drained < next.drained ==>
                  && step.Drain? && step.task in st.tasks && st.tasks[step.task].Draining?
                  && next.appended[st.drained..next.drained] == st.tasks[step.task].batch)
  {
    Runs.StepAppends(st, step);
    hide Merged, Keep, KeepFresh, Expired;
    if step.Drain? {
      Runs.DrainRemovesBatch(st, step.task);
    }
  }

  /** Main result: a drained log is in the archived list unless pruning with a later cutoff or the archive limit
      took it away during the run. */
  lemma {:induction false} DrainedStays(inner: seq<Log>, archived: seq<Log>, steps: seq<Step>)
    requires Run(inner, archived, steps).Some?
    ensures Kept(Run(inner, archived, steps).value, steps)
  {
    hide Do, Kept;
    if steps == [] {
      NothingKept(inner, archived);
    } else {
      var init, step := steps[..|steps| - 1], steps[|steps| - 1];
      DrainedStays(inner, archived, init);
      Runs.RunKeepsInv(inner, archived, init);
      assert steps == init + [step];
      hide Runs.Exclusive, Runs.Awake, Runs.Saved, Runs.Snapshots;
      StepKept(Run(inner, archived, init).value, step, init);
    }
  }

  lemma NothingKept(inner: seq<Log>, archived: seq<Log>)
    ensures Kept(Initial(inner, archived), [])
  {
  }

  /** The ids a snapshot may miss: those pruning found too old in either list, and those the limit dropped. */
  ghost predicate RemovedBy(st: State, step: Step, id: string) {
    match step
    case PruneArchived(cutoff) => exists log :: log in st.archived && log.id == id && log.createdAt < cutoff
    case PruneInner(cutoff) => exists log :: log in st.inner && log.id == id && log.createdAt < cutoff
    case Enforce(_, Some(dropped)) => id in dropped
    case _ => false
  }

  /** A step removes no other id. */
  lemma RemovedExactly(st: State, step: Step, id: string)
    requires Do(st, step).Some?
    ensures id in Do(st, step).value.removed <==> id in st.removed || RemovedBy(st, step, id)
  {
    ArchivedAfter(st, step);
    hide Do, Expired;
    match step
    case PruneArchived(cutoff) => ExpiredIds(st.archived, cutoff, id);
    case PruneInner(cutoff) => ExpiredIds(st.inner, cutoff, id);
    case _ =>
  }

  lemma ExpiredIds(logs: seq<Log>, cutoff: nat, id: string)
    ensures id in Expired(logs, cutoff) <==> exists log :: log in logs && log.id == id && log.createdAt < cutoff
  {
    if id in Expired(logs, cutoff) {
      var i :| 0 <= i < |logs| && logs[i].createdAt < cutoff && logs[i].id == id;
      assert logs[i] in logs;
    }
  }
}
