/** The release guard and the lease table over whole runs, read off the steps. */
module UpstreamLeaseHistory {
  import opened Collections
  import opened UpstreamLeases
  import opened UpstreamLeaseRuns

  // ---- The guard ----

  /** A guard is taken only while some task is under way for its lease. */
  ghost predicate TakenByTask(st: State) {
    forall k | k in st.guards && st.guards[k] == Releasing :: exists t :: t in st.tasks && st.tasks[t].key == k
  }

  lemma StepTaken(c: Config, st: State, step: Step)
    requires TakenByTask(st) && Guarded(st) && Do(c, st, step).Some?
    ensures TakenByTask(Do(c, st, step).value)
  {
    hide Pruned, Settle, Removed, WithoutUpstream, Forgotten, Renewed, Inserted;
    var next := Do(c, st, step).value;
    forall k | k in next.guards && next.guards[k] == Releasing
      ensures exists t :: t in next.tasks && next.tasks[t].key == k
    {
      if step.Acquire? && k == step.key && st.guards[k].Active? {
        assert next.tasks[step.task].key == k;
      } else {
        assert k in st.guards && st.guards[k] == Releasing;
        var t :| t in st.tasks && st.tasks[t].key == k;
        assert t in next.tasks && next.tasks[t].key == k;
      }
    }
  }

  lemma GuardedOf(c: Config, st: State)
    requires Inv(c, st)
    ensures Guarded(st)
  {
  }

  /** In every reachable state, a guard is taken exactly when a task for its lease is under way. */
  lemma {:induction false} GuardTakenIff(c: Config, steps: seq<Step>, k: Key)
    requires Run(c, steps).Some? && k in Run(c, steps).value.guards
    ensures var st := Run(c, steps).value;
            st.guards[k] == Releasing <==> exists t :: t in st.tasks && st.tasks[t].key == k
  {
    RunTaken(c, steps);
    RunKeeps(c, steps);
    GuardedOf(c, Run(c, steps).value);
    hide Run, Inv, SampledOnce, Rings;
  }

  lemma {:induction false} RunTaken(c: Config, steps: seq<Step>)
    requires Run(c, steps).Some?
    ensures TakenByTask(Run(c, steps).value)
  {
    hide Do, Inv;
    if steps != [] {
      var init := steps[..|steps| - 1];
      RunTaken(c, init);
      RunKeeps(c, init);
      hide SampledOnce, Rings, TakenByTask;
      GuardedOf(c, Run(c, init).value);
      StepTaken(c, Run(c, init).value, steps[|steps| - 1]);
    }
  }

  /** The step completes the release of the lease. */
  ghost predicate CompletesAt(c: Config, steps: seq<Step>, n: nat, k: Key)
    requires n < |steps|
  {
    && Run(c, steps[..n]).Some?
    && var st := Run(c, steps[..n]).value;
       steps[n].Complete? && steps[n].task in st.tasks && st.tasks[steps[n].task].key == k
  }

  lemma RunPrefix(c: Config, steps: seq<Step>, n: nat)
    requires Run(c, steps).Some? && n <= |steps|
    ensures Run(c, steps[..n]).Some?
  {
    if n < |steps| {
      assert steps[..|steps| - 1][..n] == steps[..n];
      RunPrefix(c, steps[..|steps| - 1], n);
    } else {
      assert steps[..n] == steps;
    }
  }

  lemma RunTo(c: Config, steps: seq<Step>, n: nat)
    requires Run(c, steps).Some? && n < |steps|
    ensures Run(c, steps[..n]).Some? && Run(c, steps[..n + 1]) == Do(c, Run(c, steps[..n]).value, steps[n])
  {
    RunPrefix(c, steps, n);
    RunPrefix(c, steps, n + 1);
    assert steps[..n + 1][..n] == steps[..n] && steps[..n + 1][n] == steps[n];
    hide Do;
  }

  /** After a release completes, in every later state the guard is released, the lease is out of the table, and a
      further acquisition starts nothing. */
  lemma CompletedForever(c: Config, steps: seq<Step>, m: nat, n: nat, k: Key, t: nat)
    requires Run(c, steps).Some? && m < n <= |steps| && CompletesAt(c, steps, m, k)
    ensures Run(c, steps[..n]).Some?
    ensures var st := Run(c, steps[..n]).value;
            && k in st.guards && st.guards[k] == Released && k !in st.table.leases
            && (t !in st.tasks ==> Do(c, st, Acquire(t, k)) == Some(st))
  {
    RunTo(c, steps, m);
    RunPrefix(c, steps, m + 1);
    RunPrefix(c, steps, n);
    var before, after := Run(c, steps[..m]).value, Run(c, steps[..m + 1]).value;
    CompleteReleases(c, before, steps[m].task);
    hide Run, Do;
    ReleasedIsForever(c, steps, m + 1, n, k);
    AcquireNothing(c, Run(c, steps[..n]).value, t, k);
  }

  lemma CompleteReleases(c: Config, st: State, t: nat)
    requires Do(c, st, Complete(t)).Some?
    ensures var k := st.tasks[t].key;
            k in Do(c, st, Complete(t)).value.guards && Do(c, st, Complete(t)).value.guards[k] == Released
  {
  }

  lemma AcquireNothing(c: Config, st: State, t: nat, k: Key)
    requires k in st.guards && st.guards[k] == Released
    ensures t !in st.tasks ==> Do(c, st, Acquire(t, k)) == Some(st)
  {
  }

  /** Exactly-once release: no run completes the release of a lease twice. */
  lemma NoSecondComplete(c: Config, steps: seq<Step>, m: nat, n: nat, k: Key)
    requires Run(c, steps).Some? && m < n < |steps| && CompletesAt(c, steps, m, k)
    ensures !CompletesAt(c, steps, n, k)
  {
    CompletedForever(c, steps, m, n, k, 0);
    if CompletesAt(c, steps, n, k) {
      RunKeeps(c, steps[..n]);
      GuardedOf(c, Run(c, steps[..n]).value);
      hide Run, Inv, SampledOnce, Rings;
    }
  }

  /** A release that is given up can be started again: in any reachable state, right after it, an acquisition under
      a new task starts one. */
  lemma CancelledRestarts(c: Config, steps: seq<Step>, t: nat, u: nat)
    requires Run(c, steps).Some? && t in Run(c, steps).value.tasks
    ensures var st := Run(c, steps).value;
            var k := st.tasks[t].key;
            && Do(c, st, Cancel(t)).Some?
            && var next := Do(c, st, Cancel(t)).value;
               && k in next.guards && next.guards[k] == Active
               && (u !in next.tasks ==>
                     && Do(c, next, Acquire(u, k)).Some?
                     && var again := Do(c, next, Acquire(u, k)).value;
                        again.tasks == next.tasks[u := Task(k, false)] && again.guards[k] == Releasing)
  {
    RunKeeps(c, steps);
    GuardedOf(c, Run(c, steps).value);
    hide Run, Inv, SampledOnce, Rings;
  }

  // ---- Admission ----

  /** The reservation of the runs is the method's critical section, for the next unused id. */
  lemma ReserveIsReserved(c: Config, st: State, account: Account)
    ensures var k := Key(account, st.nextId);
            var (table, admitted) := Reserved(st.table, k, c.cap(account), st.clock, c.ttl, c.staleAfter);
            var next := ReserveStep(c, st, account);
            && next.table == table
            && next.nextId == st.nextId + (if admitted then 1 else 0)
            && (admitted ==> k in next.guards && next.guards[k] == Active)
  {
    hide Pruned, Settle;
  }

  /** The lease counts against its account: it has not expired and its heartbeat is recent. */
  predicate Counts(c: Config, st: State, k: Key) {
    && k in st.table.leases && st.clock < st.table.leases[k].expiresAt
    && Since(st.clock, st.table.leases[k].lastRenewedAt) <= c.staleAfter
  }

  /** A reservation succeeds exactly when fewer leases than the cap count against the account; lapsed and silent
      ones do not stand in its way. */
  lemma AdmittedIff(c: Config, st: State, account: Account)
    ensures var held := set k | k in st.table.leases && k.account == account && Counts(c, st, k);
            var next := ReserveStep(c, st, account);
            && (next.nextId == st.nextId + 1 <==> |held| < c.cap(account))
            && (next.nextId == st.nextId || next.nextId == st.nextId + 1)
            && (Key(account, st.nextId) in next.table.leases && next.nextId == st.nextId + 1 ==>
                  next.table.leases[Key(account, st.nextId)] == Record(st.clock + c.ttl, st.clock, st.clock))
            && (next.nextId == st.nextId + 1 ==> Key(account, st.nextId) in next.table.leases)
  {
    var held := set k | k in st.table.leases && k.account == account && Counts(c, st, k);
    var swept := Swept(c, st);
    assert OfAccount(swept.table.leases.Keys, account) == held by {
      forall k: Key
        ensures k in OfAccount(swept.table.leases.Keys, account) <==> k in held
      {
        SweepIsExact(c, st, k);
      }
    }
    hide Swept, Settle, Pruned;
    SweptFrame(c, st);
  }

  lemma SweptFrame(c: Config, st: State)
    ensures Swept(c, st).nextId == st.nextId && Swept(c, st).clock == st.clock
  {
  }

  // ---- What operators remove ----

  /** A reset takes exactly the leases of the upstream, and of the key when one is given. */
  lemma ResetIsExact(st: State, upstream: string, fingerprint: Option<string>, k: Key)
    ensures k in ResetStep(st, upstream, fingerprint).table.leases <==>
      k in st.table.leases
      && !(k.account.upstream == upstream && (fingerprint.None? || fingerprint.value == k.account.fingerprint))
  {
  }

  /** Removing an upstream takes exactly its leases and its counters. */
  lemma ForgetIsExact(st: State, upstream: string, k: Key, u: string)
    ensures k in ForgetStep(st, upstream).table.leases <==> k in st.table.leases && k.account.upstream != upstream
    ensures var next := ForgetStep(st, upstream).table;
            && CountAt(next.leaked, u) == (if u == upstream then 0 else CountAt(st.table.leaked, u))
            && CountAt(next.stale, u) == (if u == upstream then 0 else CountAt(st.table.stale, u))
  {
  }

  // ---- Hold durations ----

  /** When each lease was reserved, read off the steps. */
  function Births(c: Config, steps: seq<Step>): map<Key, nat> {
    if steps == [] then map[]
    else
      var init := steps[..|steps| - 1];
      match Run(c, init)
      case None => Births(c, init)
      case Some(st) => WithBirth(c, st, steps[|steps| - 1], Births(c, init))
  }

  function WithBirth(c: Config, st: State, step: Step, births: map<Key, nat>): map<Key, nat> {
    match step
    case Reserve(account) =>
      if AccountCount(Swept(c, st).table, account) < c.cap(account)
      then births[Key(account, st.nextId) := st.clock] else births
    case _ => births
  }

  /** Hold durations of the leases taken out by a release or a drop, in order: from reservation to removal. */
  function Holds(c: Config, steps: seq<Step>): seq<Sample> {
    if steps == [] then []
    else
      var init := steps[..|steps| - 1];
      Holds(c, init) + match Run(c, init)
        case None => []
        case Some(st) => HoldOf(Births(c, init), st, steps[|steps| - 1])
  }

  /** The lease a step takes out through a release path. */
  function TakesOut(st: State, step: Step): Option<Key> {
    match step
    case Remove(t) => if t in st.tasks then Some(st.tasks[t].key) else None
    case DropLease(k) => Some(k)
    case _ => None
  }

  function HoldOf(births: map<Key, nat>, st: State, step: Step): seq<Sample> {
    match TakesOut(st, step)
    case None => []
    case Some(k) => if k in st.table.leases && k in births then [Sample(k, Since(st.clock, births[k]))] else []
  }

  ghost predicate Born(st: State, births: map<Key, nat>) {
    forall k | k in st.table.leases :: k in births && st.table.leases[k].reservedAt == births[k]
  }

  lemma SweptBorn(c: Config, st: State, births: map<Key, nat>)
    requires Born(st, births)
    ensures Born(Swept(c, st), births)
  {
    hide Settle, Bump;
  }

  lemma ReserveBorn(c: Config, st: State, account: Account, births: map<Key, nat>)
    requires Born(st, births)
    ensures Born(ReserveStep(c, st, account), WithBirth(c, st, Reserve(account), births))
  {
    SweptBorn(c, st, births);
    SweptFrame(c, st);
    hide Swept, Settle;
  }

  lemma RenewBorn(c: Config, st: State, k: Key, births: map<Key, nat>)
    requires Born(st, births)
    ensures Born(Extended(c, Swept(c, st), k), births)
  {
    SweptBorn(c, st, births);
    hide Swept;
  }

  lemma StepBorn(c: Config, st: State, step: Step, births: map<Key, nat>)
    requires Born(st, births) && Do(c, st, step).Some?
    ensures Born(Do(c, st, step).value, WithBirth(c, st, step, births))
  {
    match step
    case Reserve(account) =>
      hide ReserveStep, Born;
      ReserveBorn(c, st, account, births);
    case Renew(k) =>
      hide Extended, Swept, Born;
      RenewBorn(c, st, k, births);
    case Sweep =>
      hide Swept, Born;
      SweptBorn(c, st, births);
    case _ => hide Swept, Settle, Bump;
  }

  lemma StepHolds(c: Config, st: State, step: Step, births: map<Key, nat>)
    requires Born(st, births) && Do(c, st, step).Some?
    ensures Do(c, st, step).value.sampled == st.sampled + HoldOf(births, st, step)
  {
    hide Pruned, Settle, WithoutUpstream, Forgotten, Renewed, Inserted;
    match step
    case Remove(t) =>
    case DropLease(k) =>
    case _ =>
  }

  /** Main result: the samples are the real hold durations, each from the reservation of its lease to its release or
      drop. */
  lemma {:induction false} SamplesAreHolds(c: Config, steps: seq<Step>)
    requires Run(c, steps).Some?
    ensures Born(Run(c, steps).value, Births(c, steps)) && Run(c, steps).value.sampled == Holds(c, steps)
  {
    assert Born(INITIAL, map[]);
    if steps != [] {
      var init := steps[..|steps| - 1];
      assert Run(c, init).Some?;
      SamplesAreHolds(c, init);
      hide Do, Born, HoldOf, WithBirth;
      StepBorn(c, Run(c, init).value, steps[|steps| - 1], Births(c, init));
      StepHolds(c, Run(c, init).value, steps[|steps| - 1], Births(c, init));
    }
  }
}
