/** The usage-log buffer of a file-backed gateway (src/state.rs): appenders, the background flusher, pruning and
    snapshots as interleaved atomic steps, one per lock acquisition or compare-and-swap. */
module UsageLogs {
  import opened Collections
  import opened Ordering
  import opened Text

  datatype Log = Log(id: string, createdAt: nat, requestId: string, body: nat)

  // ---- What a snapshot shows ----

  /** By creation time, then request id, then id. */
  predicate Before(a: Log, b: Log) {
    if a.createdAt != b.createdAt then a.createdAt < b.createdAt
    else if a.requestId != b.requestId then TextBefore(a.requestId, b.requestId)
    else TextBefore(a.id, b.id)
  }

  function IdsOf(logs: seq<Log>): set<string> {
    set i | 0 <= i < |logs| :: logs[i].id
  }

  /** The first `n` logs without the later entries of an id. */
  function Deduplicated(logs: seq<Log>, n: nat): seq<Log>
    requires n <= |logs|
  {
    if n == 0 then []
    else
      var before := Deduplicated(logs, n - 1);
      if logs[n - 1].id in IdsOf(before) then before else before + [logs[n - 1]]
  }

  /** What `snapshot` makes of the three lists it read. */
  function Merged(inner: seq<Log>, pending: seq<Log>, archived: seq<Log>): seq<Log> {
    if archived == [] && pending == [] then inner
    else
      var all := SortBy(pending + archived + inner, Before);
      Deduplicated(all, |all|)
  }

  /** The deduplicating loop of `snapshot`. */
  method Deduplicate(logs: seq<Log>) returns (kept: seq<Log>)
    ensures kept == Deduplicated(logs, |logs|)
  {
    var seen: set<string>, i := {}, 0;
    kept := [];
    while i < |logs|
      invariant 0 <= i <= |logs| && kept == Deduplicated(logs, i) && seen == IdsOf(kept)
    {
      if logs[i].id !in seen {
        IdsOfSnoc(kept, logs[i]);
        seen, kept := seen + {logs[i].id}, kept + [logs[i]];
      }
      i := i + 1;
    }
  }

  lemma IdsOfSnoc(logs: seq<Log>, last: Log)
    ensures IdsOf(logs + [last]) == IdsOf(logs) + {last.id}
  {
    var all := logs + [last];
    assert all[|logs|] == last;
    forall id | id in IdsOf(logs)
      ensures id in IdsOf(all)
    {
      var i :| 0 <= i < |logs| && logs[i].id == id;
      assert all[i].id == id;
    }
  }

  // ---- The protocol ----

  /** Where a task is between two atomic steps.  `Pushed` is an appender before its compare-and-swap; `Sleeping` to
      `Restarting` are a flusher; the last two are a snapshot under way. */
  datatype Task =
    | Pushed
    | Sleeping
    | Taking
    | Taken(batch: seq<Log>)
    | Persisted(batch: seq<Log>)
    | Archived(batch: seq<Log>)
    | Draining(batch: seq<Log>)
    | Checking
    | Clearing
    | Rechecking
    | Restarting
    | Listing(since: nat, inner: seq<Log>)
    | Joining(since: nat, inner: seq<Log>, pending: seq<Log>)

  /** A finished snapshot: how many logs had been appended when it began, what it showed, and which ids had been
      removed by pruning or by the archive limit when it ended. */
  datatype Snapshot = Snapshot(since: nat, logs: seq<Log>, removed: set<string>)

  /** The shared fields and the tasks.  `holder` is the task that last set the flag; the remaining fields are
      histories. */
  datatype State = State(
    flag: bool, pending: seq<Log>, archived: seq<Log>, inner: seq<Log>, tasks: map<nat, Task>,
    holder: nat, appended: seq<Log>, drained: nat, removed: set<string>, snapshots: seq<Snapshot>)

  function Initial(inner: seq<Log>, archived: seq<Log>): State {
    State(false, [], archived, inner, map[], 0, [], 0, {}, [])
  }

  datatype Step =
    | Push(task: nat, log: Log)
    | Schedule(task: nat)
    | Wake(task: nat)
    | Take(task: nat)
    | Persist(task: nat, ok: bool)
    | Archive(task: nat)
    | Enforce(task: nat, dropped: Option<set<string>>)
    | Drain(task: nat)
    | Check(task: nat)
    | Clear(task: nat)
    | Recheck(task: nat)
    | Restart(task: nat)
    | PruneArchived(cutoff: nat)
    | PruneInner(cutoff: nat)
    | ReadInner(task: nat)
    | ReadPending(task: nat)
    | ReadArchived(task: nat)

  function Goto(st: State, t: nat, at: Task): State {
    st.(tasks := st.tasks[t := at])
  }

  function End(st: State, t: nat): State {
    st.(tasks := st.tasks - {t})
  }

  /** The compare-and-swap on the running flag: the winner becomes, or stays, the flusher. */
  function Claim(st: State, t: nat): State {
    if st.flag then End(st, t) else Goto(st, t, Sleeping).(flag := true, holder := t)
  }

  function Keep(logs: seq<Log>, dropped: set<string>): seq<Log> {
    if logs == [] then []
    else
      Keep(logs[..|logs| - 1], dropped)
      + if logs[|logs| - 1].id in dropped then [] else [logs[|logs| - 1]]
  }

  /** Ids of the logs older than the cutoff. */
  function Expired(logs: seq<Log>, cutoff: nat): set<string> {
    set i | 0 <= i < |logs| && logs[i].createdAt < cutoff :: logs[i].id
  }

  function KeepFresh(logs: seq<Log>, cutoff: nat): seq<Log> {
    if logs == [] then []
    else
      KeepFresh(logs[..|logs| - 1], cutoff)
      + if logs[|logs| - 1].createdAt >= cutoff then [logs[|logs| - 1]] else []
  }

  /** `pending.drain(..batch.len().min(pending.len()))`. */
  function Drained(st: State, batch: seq<Log>): State {
    var count := if |batch| <= |st.pending| then |batch| else |st.pending|;
    st.(pending := st.pending[count..], drained := st.drained + count)
  }

  /** A snapshot ends with the archived list read last. */
  function Shown(st: State, since: nat, inner: seq<Log>, pending: seq<Log>): State {
    st.(snapshots := st.snapshots + [Snapshot(since, Merged(inner, pending, st.archived), st.removed)])
  }

  /** One step of the task at `at`; none when the step does not fit there. */
  function StepOf(st: State, step: Step, at: Task): Option<State>
    requires !step.Push? && !step.ReadInner? && !step.PruneArchived? && !step.PruneInner?
  {
    var t := step.task;
    match (step, at)
    case (Schedule(_), Pushed) => Some(Claim(st, t))
    case (Wake(_), Sleeping) => Some(Goto(st, t, Taking))
    case (Take(_), Taking) => Some(Goto(st, t, if st.pending == [] then Checking else Taken(st.pending)))
    case (Persist(_, ok), Taken(batch)) => Some(Goto(st, t, if ok then Persisted(batch) else Sleeping))
    case (Archive(_), Persisted(batch)) => Some(Goto(st.(archived := st.archived + batch), t, Archived(batch)))
    case (Enforce(_, None), Archived(_)) => Some(Goto(st, t, Sleeping))
    case (Enforce(_, Some(dropped)), Archived(batch)) =>
      Some(Goto(st.(archived := Keep(st.archived, dropped), removed := st.removed + dropped), t, Draining(batch)))
    case (Drain(_), Draining(batch)) => Some(Goto(Drained(st, batch), t, Taking))
    case (Check(_), Checking) => Some(Goto(st, t, if st.pending == [] then Clearing else Sleeping))
    case (Clear(_), Clearing) => Some(Goto(st.(flag := false), t, Rechecking))
    case (Recheck(_), Rechecking) => Some(if st.pending == [] then End(st, t) else Goto(st, t, Restarting))
    case (Restart(_), Restarting) => Some(Claim(st, t))
    case (ReadPending(_), Listing(since, inner)) => Some(Goto(st, t, Joining(since, inner, st.pending)))
    case (ReadArchived(_), Joining(since, inner, pending)) => Some(Shown(End(st, t), since, inner, pending))
    case _ => None
  }

  /** One atomic step; none when it is not enabled. */
  function Do(st: State, step: Step): Option<State> {
    match step
    case Push(t, log) =>
      if t in st.tasks then None
      else Some(Goto(st, t, Pushed).(pending := st.pending + [log], appended := st.appended + [log]))
    case ReadInner(t) => if t in st.tasks then None else Some(Goto(st, t, Listing(|st.appended|, st.inner)))
    case PruneArchived(cutoff) =>
      Some(st.(archived := KeepFresh(st.archived, cutoff), removed := st.removed + Expired(st.archived, cutoff)))
    case PruneInner(cutoff) =>
      Some(st.(inner := KeepFresh(st.inner, cutoff), removed := st.removed + Expired(st.inner, cutoff)))
    case _ => if step.task in st.tasks then StepOf(st, step, st.tasks[step.task]) else None
  }

  /** The state after a run of enabled steps. */
  function Run(inner: seq<Log>, archived: seq<Log>, steps: seq<Step>): Option<State> {
    if steps == [] then Some(Initial(inner, archived))
    else match Run(inner, archived, steps[..|steps| - 1])
      case None => None
      case Some(st) => Do(st, steps[|steps| - 1])
  }
}
