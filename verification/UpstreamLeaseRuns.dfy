/** Every interleaving of reservations, renewals, sweeps, guarded releases, drops and resets of upstream leases
    (src/state.rs), one step per lock acquisition or compare-and-swap. */
module UpstreamLeaseRuns {
  import opened Collections
  import opened UpstreamLeases

  // ---- The system ----

  /** Milliseconds; each limit is at least one unit, as the configuration's `.max(1)` makes it. */
  datatype Config = Config(ttl: nat, staleAfter: nat, cap: Account -> nat)

  /** The release state shared by all copies of a lease. */
  datatype Guard = Active | Releasing | Released

  /** A release holding the guard, before or after it removed the lease. */
  datatype Task = Task(key: Key, removed: bool)

  /** What became of a lease. */
  datatype Fate = Held | ByRelease | ByExpiry | ByStaleness | ByReset

  datatype Sample = Sample(key: Key, hold: nat)

  /** The last three fields are histories: the fate of every lease since its upstream was last removed, every hold
      duration sampled, and when each lease was reserved or last renewed. */
  datatype State = State(
    table: Table, guards: map<Key, Guard>, tasks: map<nat, Task>, clock: nat, nextId: nat,
    fates: map<Key, Fate>, sampled: seq<Sample>, beats: map<Key, nat>)

  const INITIAL := State(Table(map[], map[], map[], map[]), map[], map[], 0, 0, map[], [], map[])

  datatype Step =
    | Tick(elapsed: nat)
    | Reserve(account: Account)
    | Renew(key: Key)
    | Sweep
    | Acquire(task: nat, key: Key)
    | Remove(task: nat)
    | Complete(task: nat)
    | Cancel(task: nat)
    | DropLease(key: Key)
    | Reset(upstream: string, fingerprint: Option<string>)
    | RemoveUpstream(upstream: string)

  function Settle(fates: map<Key, Fate>, keys: set<Key>, fate: Fate): map<Key, Fate> {
    map k | k in fates :: if k in keys then fate else fates[k]
  }

  function Swept(c: Config, st: State): State {
    st.(table := Pruned(st.table, st.clock, c.staleAfter),
        fates := Settle(Settle(st.fates, ExpiredKeys(st.table, st.clock), ByExpiry),
                        StaleKeys(st.table, st.clock, c.staleAfter), ByStaleness))
  }

  /** A fresh lease for an account that has room. */
  function Admit(c: Config, st: State, account: Account): State {
    var k := Key(account, st.nextId);
    st.(table := Inserted(st.table, k, Fresh(st.clock, c.ttl)), guards := st.guards[k := Active], nextId := st.nextId + 1,
        fates := st.fates[k := Held], beats := st.beats[k := st.clock])
  }

  function ReserveStep(c: Config, st: State, account: Account): State {
    var swept := Swept(c, st);
    if AccountCount(swept.table, account) >= c.cap(account) then swept else Admit(c, swept, account)
  }

  function Extended(c: Config, st: State, k: Key): State {
    st.(table := Renewed(st.table, k, st.clock, c.ttl), beats := st.beats[k := st.clock])
  }

  /** The lease leaves the table through a release path. */
  function TakenOut(st: State, k: Key): State {
    if k in st.table.leases then
      st.(table := Removed(st.table, k, st.clock), fates := Settle(st.fates, {k}, ByRelease),
          sampled := st.sampled + [Sample(k, Since(st.clock, st.table.leases[k].reservedAt))])
    else st
  }

  function ResetStep(st: State, upstream: string, fingerprint: Option<string>): State {
    st.(table := WithoutUpstream(st.table, upstream, fingerprint),
        fates := Settle(st.fates, ResetKeys(st.table, upstream, fingerprint), ByReset))
  }

  /** The upstream's books are closed with it. */
  function ForgetStep(st: State, upstream: string): State {
    st.(table := Forgotten(st.table, upstream), fates := st.fates - OfUpstream(st.fates.Keys, upstream))
  }

  /** `LeaseReleaseGuard::acquire`: only an active lease starts a release; a released one is done, a releasing one
      is refused. */
  function AcquireStep(st: State, t: nat, k: Key): State
    requires k in st.guards
  {
    if st.guards[k].Active? then st.(guards := st.guards[k := Releasing], tasks := st.tasks[t := Task(k, false)]) else st
  }

  /** The guard ends, completed or dropped. */
  function EndTask(st: State, t: nat, outcome: Guard): State
    requires t in st.tasks
  {
    st.(guards := st.guards[st.tasks[t].key := outcome], tasks := st.tasks - {t})
  }

  function Do(c: Config, st: State, step: Step): Option<State> {
    match step
    case Tick(elapsed) => Some(st.(clock := st.clock + elapsed))
    case Reserve(account) => Some(ReserveStep(c, st, account))
    case Renew(k) => if k in st.guards then Some(Extended(c, Swept(c, st), k)) else None
    case Sweep => Some(Swept(c, st))
    case Acquire(t, k) => if k in st.guards && t !in st.tasks then Some(AcquireStep(st, t, k)) else None
    case Remove(t) =>
      if t in st.tasks && !st.tasks[t].removed
      then Some(TakenOut(st, st.tasks[t].key).(tasks := st.tasks[t := st.tasks[t].(removed := true)]))
      else None
    case Complete(t) => if t in st.tasks && st.tasks[t].removed then Some(EndTask(st, t, Released)) else None
    case Cancel(t) => if t in st.tasks then Some(EndTask(st, t, Active)) else None
    case DropLease(k) => if k in st.guards then Some(TakenOut(st, k)) else None
    case Reset(upstream, fingerprint) => Some(ResetStep(st, upstream, fingerprint))
    case RemoveUpstream(upstream) => Some(ForgetStep(st, upstream))
  }

  /** The state after a run of enabled steps. */
  function Run(c: Config, steps: seq<Step>): Option<State> {
    if steps == [] then Some(INITIAL)
    else match Run(c, steps[..|steps| - 1])
      case None => None
      case Some(st) => Do(c, st, steps[|steps| - 1])
  }

  // ---- The ledger ----

  function Fated(fates: map<Key, Fate>, upstream: string, fate: Fate): set<Key> {
    set k | k in fates && k.account.upstream == upstream && fates[k] == fate
  }

  /** The table holds exactly the leases whose fate is open; ids are never reused. */
  ghost predicate Ledger(st: State) {
    && (forall k | k in st.table.leases :: k in st.fates && st.fates[k] == Held)
    && (forall k | k in st.fates :: (st.fates[k] == Held ==> k in st.table.leases))
    && (forall k | k in st.fates :: k.id < st.nextId && k in st.guards)
    && (forall k | k in st.guards :: k.id < st.nextId)
  }

  /** The reclamation counters count what they say. */
  ghost predicate Books(st: State) {
    forall u: string :: CountedAt(st, u)
  }

  ghost predicate CountedAt(st: State, u: string) {
    && CountAt(st.table.leaked, u) == |Fated(st.fates, u, ByExpiry)|
    && CountAt(st.table.stale, u) == |Fated(st.fates, u, ByStaleness)|
  }

  /** One release at a time per lease; a finished release found, or left, the lease out of the table. */
  ghost predicate Guarded(st: State) {
    && (forall t | t in st.tasks :: st.tasks[t].key in st.guards && st.guards[st.tasks[t].key] == Releasing)
    && (forall t, u | t in st.tasks && u in st.tasks && st.tasks[t].key == st.tasks[u].key :: t == u)
    && (forall t | t in st.tasks && st.tasks[t].removed :: st.tasks[t].key !in st.table.leases)
    && (forall k | k in st.guards && st.guards[k] == Released :: k !in st.table.leases)
  }

  ghost predicate Capped(c: Config, st: State) {
    forall account: Account :: AccountCount(st.table, account) <= c.cap(account)
  }

  /** Every record expires one TTL after its last heartbeat. */
  ghost predicate Beating(c: Config, st: State) {
    forall k | k in st.table.leases ::
      var r := st.table.leases[k];
      && k in st.beats && r.lastRenewedAt == st.beats[k] <= st.clock
      && r.expiresAt == r.lastRenewedAt + c.ttl && r.reservedAt <= st.clock
  }

  lemma SettleAt(fates: map<Key, Fate>, keys: set<Key>, fate: Fate, u: string)
    requires keys <= fates.Keys && forall k | k in keys :: fates[k] == Held
    requires fate != Held
    ensures |Fated(Settle(fates, keys, fate), u, fate)| == |Fated(fates, u, fate)| + |OfUpstream(keys, u)|
  {
    var before, added, after := Fated(fates, u, fate), OfUpstream(keys, u), Fated(Settle(fates, keys, fate), u, fate);
    forall k
      ensures k in after <==> k in before || k in added
    {
    }
    assert after == before + added;
    assert before !! added;
  }

  lemma SettleOther(fates: map<Key, Fate>, keys: set<Key>, fate: Fate, u: string, other: Fate)
    requires keys <= fates.Keys && forall k | k in keys :: fates[k] == Held
    requires other != fate && other != Held
    ensures Fated(Settle(fates, keys, fate), u, other) == Fated(fates, u, other)
  {
  }

  lemma SweptLedger(c: Config, st: State)
    requires Ledger(st)
    ensures Ledger(Swept(c, st))
  {
  }

  lemma SweptBooks(c: Config, st: State)
    requires Ledger(st) && Books(st)
    ensures Books(Swept(c, st))
  {
    var expired, stale := ExpiredKeys(st.table, st.clock), StaleKeys(st.table, st.clock, c.staleAfter);
    var first := Settle(st.fates, expired, ByExpiry);
    assert forall k | k in stale :: k !in expired && first[k] == Held;
    forall u: string
      ensures CountedAt(Swept(c, st), u)
    {
      assert CountedAt(st, u);
      SettleAt(st.fates, expired, ByExpiry, u);
      SettleOther(st.fates, expired, ByExpiry, u, ByStaleness);
      SettleAt(first, stale, ByStaleness, u);
      SettleOther(first, stale, ByStaleness, u, ByExpiry);
      BumpCounts(st.table.leaked, expired, u);
      BumpCounts(st.table.stale, stale, u);
    }
  }

  lemma AccountCountShrinks(left: Table, right: Table, account: Account)
    requires left.leases.Keys <= right.leases.Keys
    ensures AccountCount(left, account) <= AccountCount(right, account)
  {
    SubsetSize(OfAccount(left.leases.Keys, account), OfAccount(right.leases.Keys, account));
  }

  lemma SweptRest(c: Config, st: State)
    requires Guarded(st) && Capped(c, st) && Beating(c, st)
    ensures Guarded(Swept(c, st)) && Capped(c, Swept(c, st)) && Beating(c, Swept(c, st))
  {
    forall account: Account
      ensures AccountCount(Swept(c, st).table, account) <= c.cap(account)
    {
      AccountCountShrinks(Swept(c, st).table, st.table, account);
    }
  }

  lemma AdmitLedger(c: Config, st: State, account: Account)
    requires Ledger(st)
    ensures Ledger(Admit(c, st, account))
  {
  }

  /** A fate that stays open changes no count of settled ones. */
  lemma OpenFate(fates: map<Key, Fate>, k: Key, u: string, fate: Fate)
    requires k !in fates && fate != Held
    ensures Fated(fates[k := Held], u, fate) == Fated(fates, u, fate)
  {
  }

  lemma AdmitBooks(c: Config, st: State, account: Account)
    requires Ledger(st) && Books(st)
    ensures Books(Admit(c, st, account))
  {
    var next, k := Admit(c, st, account), Key(account, st.nextId);
    assert k !in st.fates;
    hide Ledger, Fated;
    forall u: string
      ensures CountedAt(next, u)
    {
      assert CountedAt(st, u);
      OpenFate(st.fates, k, u, ByExpiry);
      OpenFate(st.fates, k, u, ByStaleness);
    }
  }

  lemma OneMoreLease(keys: set<Key>, k: Key, account: Account)
    requires k !in keys
    ensures |OfAccount(keys + {k}, account)| == |OfAccount(keys, account)| + if k.account == account then 1 else 0
  {
    if k.account == account {
      assert OfAccount(keys + {k}, account) == OfAccount(keys, account) + {k};
    } else {
      assert OfAccount(keys + {k}, account) == OfAccount(keys, account);
    }
  }

  lemma AdmitCapped(c: Config, st: State, account: Account)
    requires Ledger(st) && Capped(c, st) && AccountCount(st.table, account) < c.cap(account)
    ensures Capped(c, Admit(c, st, account))
  {
    var next, k := Admit(c, st, account), Key(account, st.nextId);
    assert k !in st.table.leases;
    assert next.table.leases.Keys == st.table.leases.Keys + {k};
    hide Ledger, OfAccount;
    forall other: Account
      ensures AccountCount(next.table, other) <= c.cap(other)
    {
      assert AccountCount(st.table, other) <= c.cap(other);
      OneMoreLease(st.table.leases.Keys, k, other);
    }
  }

  lemma AdmitRest(c: Config, st: State, account: Account)
    requires Ledger(st) && Guarded(st) && Beating(c, st)
    ensures Guarded(Admit(c, st, account)) && Beating(c, Admit(c, st, account))
  {
  }

  lemma ExtendedBooks(c: Config, st: State, k: Key)
    requires Books(st) && Capped(c, st)
    ensures Books(Extended(c, st, k)) && Capped(c, Extended(c, st, k))
  {
    hide Fated;
    var next := Extended(c, st, k);
    assert next.table.leases.Keys == st.table.leases.Keys;
    forall u: string
      ensures CountedAt(next, u)
    {
      assert CountedAt(st, u);
    }
    forall account: Account
      ensures AccountCount(next.table, account) <= c.cap(account)
    {
      assert AccountCount(st.table, account) <= c.cap(account);
    }
  }

  lemma ExtendedRest(c: Config, st: State, k: Key)
    requires Ledger(st) && Guarded(st) && Beating(c, st)
    ensures var next := Extended(c, st, k); Ledger(next) && Guarded(next) && Beating(c, next)
  {
    var next := Extended(c, st, k);
    assert next.table.leases.Keys == st.table.leases.Keys;
    if k in st.table.leases {
      assert forall other | other in next.table.leases && other != k :: next.table.leases[other] == st.table.leases[other];
    } else {
      assert next.table == st.table;
    }
  }

  lemma TakenOutLedger(st: State, k: Key)
    requires Ledger(st)
    ensures Ledger(TakenOut(st, k))
  {
  }

  lemma TakenOutBooks(st: State, k: Key)
    requires Ledger(st) && Books(st)
    ensures Books(TakenOut(st, k))
  {
    if k in st.table.leases {
      forall u: string
        ensures CountedAt(TakenOut(st, k), u)
      {
        assert CountedAt(st, u);
        SettleOther(st.fates, {k}, ByRelease, u, ByExpiry);
        SettleOther(st.fates, {k}, ByRelease, u, ByStaleness);
      }
    }
  }

  lemma TakenOutRest(c: Config, st: State, k: Key)
    requires Guarded(st) && Capped(c, st) && Beating(c, st)
    ensures Guarded(TakenOut(st, k)) && Capped(c, TakenOut(st, k)) && Beating(c, TakenOut(st, k))
    ensures k !in TakenOut(st, k).table.leases
  {
    forall account: Account
      ensures AccountCount(TakenOut(st, k).table, account) <= c.cap(account)
    {
      AccountCountShrinks(TakenOut(st, k).table, st.table, account);
    }
  }

  lemma ResetLedger(st: State, u: string, fingerprint: Option<string>)
    requires Ledger(st)
    ensures Ledger(ResetStep(st, u, fingerprint))
  {
  }

  lemma ResetBooks(st: State, upstream: string, fingerprint: Option<string>)
    requires Ledger(st) && Books(st)
    ensures Books(ResetStep(st, upstream, fingerprint))
  {
    forall u: string
      ensures CountedAt(ResetStep(st, upstream, fingerprint), u)
    {
      assert CountedAt(st, u);
      SettleOther(st.fates, ResetKeys(st.table, upstream, fingerprint), ByReset, u, ByExpiry);
      SettleOther(st.fates, ResetKeys(st.table, upstream, fingerprint), ByReset, u, ByStaleness);
    }
  }

  lemma ResetRest(c: Config, st: State, u: string, fingerprint: Option<string>)
    requires Guarded(st) && Capped(c, st) && Beating(c, st)
    ensures var next := ResetStep(st, u, fingerprint); Guarded(next) && Capped(c, next) && Beating(c, next)
  {
    forall account: Account
      ensures AccountCount(ResetStep(st, u, fingerprint).table, account) <= c.cap(account)
    {
      AccountCountShrinks(ResetStep(st, u, fingerprint).table, st.table, account);
    }
  }

  lemma ForgetLedger(st: State, upstream: string)
    requires Ledger(st)
    ensures Ledger(ForgetStep(st, upstream))
  {
  }

  lemma ForgetBooks(st: State, upstream: string)
    requires Ledger(st) && Books(st)
    ensures Books(ForgetStep(st, upstream))
  {
    var next := ForgetStep(st, upstream);
    forall u: string
      ensures CountedAt(next, u)
    {
      assert CountedAt(st, u);
      if u == upstream {
        assert Fated(next.fates, u, ByExpiry) == {} == Fated(next.fates, u, ByStaleness);
      } else {
        assert Fated(next.fates, u, ByExpiry) == Fated(st.fates, u, ByExpiry);
        assert Fated(next.fates, u, ByStaleness) == Fated(st.fates, u, ByStaleness);
      }
    }
  }

  lemma ForgetRest(c: Config, st: State, upstream: string)
    requires Guarded(st) && Capped(c, st) && Beating(c, st)
    ensures var next := ForgetStep(st, upstream); Guarded(next) && Capped(c, next) && Beating(c, next)
  {
    forall account: Account
      ensures AccountCount(ForgetStep(st, upstream).table, account) <= c.cap(account)
    {
      AccountCountShrinks(ForgetStep(st, upstream).table, st.table, account);
    }
  }

  ghost predicate Inv(c: Config, st: State) {
    Ledger(st) && Books(st) && Guarded(st) && Capped(c, st) && Beating(c, st)
  }

  /** The table and the ledger were not touched. */
  lemma SameBooks(c: Config, st: State, next: State)
    requires Inv(c, st)
    requires next.table == st.table && next.fates == st.fates && next.nextId == st.nextId
    requires next.guards.Keys == st.guards.Keys
    requires next.beats == st.beats && next.clock >= st.clock
    ensures Ledger(next) && Books(next) && Capped(c, next) && Beating(c, next)
  {
    forall u: string
      ensures CountedAt(next, u)
    {
      assert CountedAt(st, u);
    }
  }

  lemma AcquireGuarded(st: State, t: nat, k: Key)
    requires Guarded(st) && k in st.guards && t !in st.tasks
    ensures Guarded(AcquireStep(st, t, k))
  {
  }

  lemma EndGuarded(st: State, t: nat, outcome: Guard)
    requires Guarded(st) && t in st.tasks && (outcome.Released? ==> st.tasks[t].removed)
    ensures Guarded(EndTask(st, t, outcome)) && EndTask(st, t, outcome).guards.Keys == st.guards.Keys
  {
  }

  lemma MarkRemoved(st: State, t: nat)
    requires Guarded(st) && t in st.tasks && st.tasks[t].key !in st.table.leases
    ensures Guarded(st.(tasks := st.tasks[t := st.tasks[t].(removed := true)]))
  {
  }

  lemma StepKeeps(c: Config, st: State, step: Step)
    requires Inv(c, st) && Do(c, st, step).Some?
    ensures Inv(c, Do(c, st, step).value)
  {
    hide Ledger, Books, Guarded, Capped, Beating, Swept, Admit, Extended, TakenOut, ResetStep, ForgetStep;
    match step
    case Tick(elapsed) =>
      SameBooks(c, st, st.(clock := st.clock + elapsed));
      GuardedAlone(st, st.(clock := st.clock + elapsed));
    case Reserve(account) =>
      SweepKeeps(c, st);
      var swept := Swept(c, st);
      if AccountCount(swept.table, account) < c.cap(account) {
        AdmitLedger(c, swept, account);
        AdmitBooks(c, swept, account);
        AdmitCapped(c, swept, account);
        AdmitRest(c, swept, account);
      }
    case Renew(k) =>
      SweepKeeps(c, st);
      ExtendedBooks(c, Swept(c, st), k);
      ExtendedRest(c, Swept(c, st), k);
    case Sweep => SweepKeeps(c, st);
    case Acquire(t, k) =>
      SameBooks(c, st, AcquireStep(st, t, k));
      AcquireGuarded(st, t, k);
    case Remove(t) =>
      var out := TakenOut(st, st.tasks[t].key);
      TakenOutKeeps(c, st, st.tasks[t].key);
      SameBooks(c, out, Do(c, st, step).value);
      MarkRemoved(out, t);
    case Complete(t) =>
      EndGuarded(st, t, Released);
      SameBooks(c, st, EndTask(st, t, Released));
    case Cancel(t) =>
      EndGuarded(st, t, Active);
      SameBooks(c, st, EndTask(st, t, Active));
    case DropLease(k) => TakenOutKeeps(c, st, k);
    case Reset(upstream, fingerprint) =>
      ResetLedger(st, upstream, fingerprint);
      ResetBooks(st, upstream, fingerprint);
      ResetRest(c, st, upstream, fingerprint);
    case RemoveUpstream(upstream) =>
      ForgetLedger(st, upstream);
      ForgetBooks(st, upstream);
      ForgetRest(c, st, upstream);
  }

  lemma GuardedAlone(st: State, next: State)
    requires Guarded(st) && next.tasks == st.tasks && next.guards == st.guards && next.table == st.table
    ensures Guarded(next)
  {
  }

  lemma SweepKeeps(c: Config, st: State)
    requires Inv(c, st)
    ensures Inv(c, Swept(c, st)) && Swept(c, st).guards == st.guards
  {
    hide Ledger, Books, Guarded, Capped, Beating;
    SweptLedger(c, st);
    SweptBooks(c, st);
    SweptRest(c, st);
  }

  lemma TakenOutKeeps(c: Config, st: State, k: Key)
    requires Inv(c, st)
    ensures var out := TakenOut(st, k); Inv(c, out) && out.tasks == st.tasks && k !in out.table.leases
  {
    hide Ledger, Books, Guarded, Capped, Beating;
    TakenOutLedger(st, k);
    TakenOutBooks(st, k);
    TakenOutRest(c, st, k);
  }

  // ---- Samples ----

  /** Hold durations of one account, in release order. */
  function HoldsOf(sampled: seq<Sample>, account: Account): seq<nat> {
    if sampled == [] then []
    else
      var last := sampled[|sampled| - 1];
      HoldsOf(sampled[..|sampled| - 1], account) + if last.key.account == account then [last.hold] else []
  }

  function Latest(holds: seq<nat>): seq<nat> {
    if |holds| <= SAMPLE_SIZE then holds else holds[|holds| - SAMPLE_SIZE..]
  }

  /** No lease is sampled twice, only released leases are sampled, and a ring holds the latest samples. */
  ghost predicate SampledOnce(st: State) {
    && (forall i, j | 0 <= i < j < |st.sampled| :: st.sampled[i].key != st.sampled[j].key)
    && (forall i | 0 <= i < |st.sampled| :: st.sampled[i].key.id < st.nextId && st.sampled[i].key !in st.table.leases)
    && (forall i | 0 <= i < |st.sampled| && st.sampled[i].key in st.fates :: st.fates[st.sampled[i].key] == ByRelease)
    && (forall k | k in st.fates && st.fates[k] == ByRelease :: exists i :: 0 <= i < |st.sampled| && st.sampled[i].key == k)
  }

  ghost predicate Rings(st: State) {
    forall account: Account :: RingAt(st.table.samples, account) == Latest(HoldsOf(st.sampled, account))
  }

  lemma PushLatest(holds: seq<nat>, hold: nat)
    ensures PushSample(Latest(holds), hold) == Latest(holds + [hold])
  {
  }

  lemma TakenOutRings(st: State, k: Key)
    requires Rings(st)
    ensures Rings(TakenOut(st, k))
  {
    hide PushSample, Latest;
    var next := TakenOut(st, k);
    if k in st.table.leases {
      var hold := Since(st.clock, st.table.leases[k].reservedAt);
      forall account: Account
        ensures RingAt(next.table.samples, account) == Latest(HoldsOf(next.sampled, account))
      {
        assert RingAt(st.table.samples, account) == Latest(HoldsOf(st.sampled, account));
        assert next.sampled[..|next.sampled| - 1] == st.sampled;
        PushLatest(HoldsOf(st.sampled, account), hold);
        if account == k.account {
          assert HoldsOf(next.sampled, account) == HoldsOf(st.sampled, account) + [hold];
        } else {
          assert HoldsOf(next.sampled, account) == HoldsOf(st.sampled, account);
        }
      }
    }
  }

  lemma TakenOutSampled(st: State, k: Key)
    requires Ledger(st) && SampledOnce(st)
    ensures SampledOnce(TakenOut(st, k))
  {
    var next := TakenOut(st, k);
    if k in st.table.leases {
      forall other | other in next.fates && next.fates[other] == ByRelease
        ensures exists i :: 0 <= i < |next.sampled| && next.sampled[i].key == other
      {
        if other == k {
          assert next.sampled[|st.sampled|].key == k;
        } else {
          var i :| 0 <= i < |st.sampled| && st.sampled[i].key == other;
          assert next.sampled[i].key == other;
        }
      }
    }
  }

  /** A step that releases nothing and reopens no settled fate. */
  lemma QuietSampled(st: State, next: State)
    requires SampledOnce(st) && next.sampled == st.sampled && next.nextId >= st.nextId
    requires forall k | k in next.table.leases :: k in st.table.leases || k.id >= st.nextId
    requires forall k | k in next.fates :: k in st.fates || k.id >= st.nextId
    requires forall k | k in next.fates :: next.fates[k] == ByRelease <==> k in st.fates && st.fates[k] == ByRelease
    ensures SampledOnce(next)
  {
  }

  lemma SweptQuiet(c: Config, st: State)
    requires Ledger(st) && SampledOnce(st)
    ensures SampledOnce(Swept(c, st))
  {
    QuietSampled(st, Swept(c, st));
  }

  lemma ReserveQuiet(c: Config, st: State, account: Account)
    requires Ledger(st) && SampledOnce(st)
    ensures SampledOnce(ReserveStep(c, st, account))
  {
    SweptQuiet(c, st);
    hide Swept;
    var swept := Swept(c, st);
    if AccountCount(swept.table, account) < c.cap(account) {
      QuietSampled(swept, Admit(c, swept, account));
    }
  }

  lemma StepSampled(c: Config, st: State, step: Step)
    requires Ledger(st) && SampledOnce(st) && Do(c, st, step).Some?
    ensures SampledOnce(Do(c, st, step).value)
  {
    match step
    case Remove(t) =>
      TakenOutSampled(st, st.tasks[t].key);
      hide TakenOut;
      QuietSampled(TakenOut(st, st.tasks[t].key), Do(c, st, step).value);
    case DropLease(k) => TakenOutSampled(st, k);
    case Reserve(account) => ReserveQuiet(c, st, account);
    case Sweep => SweptQuiet(c, st);
    case Renew(k) =>
      SweptQuiet(c, st);
      hide Swept;
      QuietSampled(Swept(c, st), Extended(c, Swept(c, st), k));
    case Reset(upstream, fingerprint) => QuietSampled(st, ResetStep(st, upstream, fingerprint));
    case RemoveUpstream(upstream) => QuietSampled(st, ForgetStep(st, upstream));
    case _ => QuietSampled(st, Do(c, st, step).value);
  }

  lemma StepRings(c: Config, st: State, step: Step)
    requires Rings(st) && Do(c, st, step).Some?
    ensures Rings(Do(c, st, step).value)
  {
    hide HoldsOf, Latest;
    match step
    case Remove(t) =>
      TakenOutRings(st, st.tasks[t].key);
      hide TakenOut;
      SameRings(TakenOut(st, st.tasks[t].key), Do(c, st, step).value);
    case DropLease(k) => TakenOutRings(st, k);
    case _ => SameRings(st, Do(c, st, step).value);
  }

  lemma SameRings(st: State, next: State)
    requires Rings(st) && next.sampled == st.sampled && next.table.samples == st.table.samples
    ensures Rings(next)
  {
    forall account: Account
      ensures RingAt(next.table.samples, account) == Latest(HoldsOf(next.sampled, account))
    {
      assert RingAt(st.table.samples, account) == Latest(HoldsOf(st.sampled, account));
    }
  }

  // ---- Whole runs ----

  lemma InitialKeeps(c: Config)
    ensures Inv(c, INITIAL) && SampledOnce(INITIAL) && Rings(INITIAL)
  {
    assert forall account: Account :: OfAccount({}, account) == {};
    assert forall u: string, fate: Fate :: Fated(map[], u, fate) == {};
    forall u: string
      ensures CountedAt(INITIAL, u)
    {
    }
  }

  lemma {:induction false} RunKeeps(c: Config, steps: seq<Step>)
    requires Run(c, steps).Some?
    ensures Inv(c, Run(c, steps).value) && SampledOnce(Run(c, steps).value) && Rings(Run(c, steps).value)
  {
    hide Inv, SampledOnce, Rings, Do;
    if steps == [] {
      InitialKeeps(c);
    } else {
      var init, step := steps[..|steps| - 1], steps[|steps| - 1];
      RunKeeps(c, init);
      var st := Run(c, init).value;
      StepKeeps(c, st, step);
      assert Ledger(st) by {
        LedgerOf(c, st);
      }
      StepSampled(c, st, step);
      StepRings(c, st, step);
    }
  }

  lemma LedgerOf(c: Config, st: State)
    requires Inv(c, st)
    ensures Ledger(st)
  {
  }

  /** Every lease inserted for an upstream is live, was released, expired, went stale, or was reset, once: the counts
      and the two counters add up. */
  lemma LeasesAreAccounted(c: Config, steps: seq<Step>, u: string)
    requires Run(c, steps).Some?
    ensures var st := Run(c, steps).value;
            |OfUpstream(st.fates.Keys, u)| ==
              |OfUpstream(st.table.leases.Keys, u)| + |Fated(st.fates, u, ByRelease)|
              + CountAt(st.table.leaked, u) + CountAt(st.table.stale, u) + |Fated(st.fates, u, ByReset)|
  {
    RunKeeps(c, steps);
    var st := Run(c, steps).value;
    assert CountedAt(st, u);
    assert OfUpstream(st.table.leases.Keys, u) == Fated(st.fates, u, Held);
    hide Inv, Run, SampledOnce, Rings;
    FatesPartition(st.fates, u);
  }

  lemma DisjointUnion<T>(left: set<T>, right: set<T>)
    requires left !! right
    ensures |left + right| == |left| + |right|
  {
  }

  /** The leases of an upstream that have one of the given fates. */
  function FatedIn(fates: map<Key, Fate>, u: string, among: set<Fate>): set<Key> {
    set k | k in fates && k.account.upstream == u && fates[k] in among
  }

  lemma OneMoreFate(fates: map<Key, Fate>, u: string, among: set<Fate>, fate: Fate)
    requires fate !in among
    ensures |FatedIn(fates, u, among + {fate})| == |FatedIn(fates, u, among)| + |Fated(fates, u, fate)|
  {
    assert FatedIn(fates, u, among + {fate}) == FatedIn(fates, u, among) + Fated(fates, u, fate);
    DisjointUnion(FatedIn(fates, u, among), Fated(fates, u, fate));
  }

  lemma FatesPartition(fates: map<Key, Fate>, u: string)
    ensures |OfUpstream(fates.Keys, u)| ==
      |Fated(fates, u, Held)| + |Fated(fates, u, ByRelease)| + |Fated(fates, u, ByExpiry)|
      + |Fated(fates, u, ByStaleness)| + |Fated(fates, u, ByReset)|
  {
    assert FatedIn(fates, u, {}) == {};
    var all: set<Fate> := {} + {Held} + {ByRelease} + {ByExpiry} + {ByStaleness} + {ByReset};
    forall fate: Fate
      ensures fate in all
    {
      match fate
      case Held =>
      case ByRelease =>
      case ByExpiry =>
      case ByStaleness =>
      case ByReset =>
    }
    assert OfUpstream(fates.Keys, u) == FatedIn(fates, u, all);
    hide Fated, FatedIn, OfUpstream;
    OneMoreFate(fates, u, {}, Held);
    OneMoreFate(fates, u, {} + {Held}, ByRelease);
    OneMoreFate(fates, u, {} + {Held} + {ByRelease}, ByExpiry);
    OneMoreFate(fates, u, {} + {Held} + {ByRelease} + {ByExpiry}, ByStaleness);
    OneMoreFate(fates, u, {} + {Held} + {ByRelease} + {ByExpiry} + {ByStaleness}, ByReset);
  }

  /** At most one guarded release of a lease is under way, no account exceeds its cap, no lease is sampled twice, and
      the ring of an account holds its latest hold durations. */
  lemma LeasesAreSafe(c: Config, steps: seq<Step>)
    requires Run(c, steps).Some?
    ensures var st := Run(c, steps).value;
            && (forall t, u | t in st.tasks && u in st.tasks && st.tasks[t].key == st.tasks[u].key :: t == u)
            && (forall account: Account :: AccountCount(st.table, account) <= c.cap(account))
            && (forall i, j | 0 <= i < j < |st.sampled| :: st.sampled[i].key != st.sampled[j].key)
            && (forall account: Account :: RingAt(st.table.samples, account) == Latest(HoldsOf(st.sampled, account)))
  {
    RunKeeps(c, steps);
  }

  lemma ReleasedStep(c: Config, st: State, step: Step, k: Key)
    requires Inv(c, st) && Do(c, st, step).Some? && k in st.guards && st.guards[k] == Released
    ensures var next := Do(c, st, step).value;
            k in next.guards && next.guards[k] == Released && k !in next.table.leases
  {
    hide Books, Capped, Beating, Ledger;
    StepKeeps(c, st, step);
    ReleasedStays(c, st, step, k);
  }

  /** Once released, a lease stays released and out of the table for the rest of the run. */
  lemma {:induction false} ReleasedIsForever(c: Config, steps: seq<Step>, from: nat, n: nat, k: Key)
    requires from <= n <= |steps| && Run(c, steps[..from]).Some? && Run(c, steps[..n]).Some?
    requires k in Run(c, steps[..from]).value.guards && Run(c, steps[..from]).value.guards[k] == Released
    ensures var st := Run(c, steps[..n]).value; k in st.guards && st.guards[k] == Released && k !in st.table.leases
  {
    hide Inv, Do;
    RunKeeps(c, steps[..n]);
    if n > from {
      assert steps[..n][..n - 1] == steps[..n - 1] && steps[..n][n - 1] == steps[n - 1];
      ReleasedIsForever(c, steps, from, n - 1, k);
      RunKeeps(c, steps[..n - 1]);
      ReleasedStep(c, Run(c, steps[..n - 1]).value, steps[n - 1], k);
    } else {
      ReleasedIsOut(c, Run(c, steps[..n]).value, k);
    }
  }

  lemma ReleasedIsOut(c: Config, st: State, k: Key)
    requires Inv(c, st) && k in st.guards && st.guards[k] == Released
    ensures k !in st.table.leases
  {
    hide Books, Capped, Beating, Ledger;
  }

  lemma ReleasedStays(c: Config, st: State, step: Step, k: Key)
    requires Ledger(st) && Guarded(st) && Do(c, st, step).Some? && k in st.guards && st.guards[k] == Released
    ensures var next := Do(c, st, step).value; k in next.guards && next.guards[k] == Released
  {
    hide Pruned, Settle, Removed, WithoutUpstream, Forgotten, Renewed;
  }

  // ---- Heartbeats ----

  /** The lease's last heartbeat is recent enough for any sweep at this moment. */
  ghost predicate Recent(c: Config, st: State, k: Key) {
    k in st.beats && Since(st.clock, st.beats[k]) < c.ttl && Since(st.clock, st.beats[k]) <= c.staleAfter
  }

  /** Steps that take the lease out on purpose. */
  predicate Withdraws(st: State, step: Step, k: Key) {
    match step
    case Remove(t) => t in st.tasks && st.tasks[t].key == k
    case DropLease(other) => other == k
    case Reset(upstream, _) => k.account.upstream == upstream
    case RemoveUpstream(upstream) => k.account.upstream == upstream
    case _ => false
  }

  lemma RecentSurvivesStep(c: Config, st: State, step: Step, k: Key)
    requires Inv(c, st) && Do(c, st, step).Some? && k in st.table.leases
    requires Recent(c, st, k) && !Withdraws(st, step, k)
    ensures k in Do(c, st, step).value.table.leases
  {
    hide Books, Capped, Guarded, Ledger;
    assert !IsExpired(st.table.leases[k], st.clock) && !IsStale(st.table.leases[k], st.clock, c.staleAfter);
    assert k in Swept(c, st).table.leases;
    hide Bump, Settle;
    match step
    case Reserve(_) => hide Swept;
    case Renew(_) => hide Swept;
    case Sweep => hide Swept;
    case _ =>
  }

  /** In every state of the run the heartbeat is recent, and no step withdraws the lease. */
  ghost predicate KeptAlive(c: Config, steps: seq<Step>, from: nat, k: Key) {
    forall n | from <= n < |steps| && Run(c, steps[..n]).Some? ::
      Recent(c, Run(c, steps[..n]).value, k) && !Withdraws(Run(c, steps[..n]).value, steps[n], k)
  }

  /** A lease renewed with every gap below the TTL and at most the staleness bound is never reclaimed. */
  lemma {:induction false} HeartbeatSurvives(c: Config, steps: seq<Step>, from: nat, n: nat, k: Key)
    requires from <= n <= |steps| && Run(c, steps[..n]).Some? && Run(c, steps[..from]).Some?
    requires k in Run(c, steps[..from]).value.table.leases && KeptAlive(c, steps, from, k)
    ensures k in Run(c, steps[..n]).value.table.leases
  {
    if n > from {
      assert steps[..n][..n - 1] == steps[..n - 1] && steps[..n][n - 1] == steps[n - 1];
      HeartbeatSurvives(c, steps, from, n - 1, k);
      var st := Run(c, steps[..n - 1]).value;
      RunKeeps(c, steps[..n - 1]);
      RecentSurvivesStep(c, st, steps[n - 1], k);
    }
  }

  /** One sweep leaves neither an expired nor a stale lease, and keeps all others. */
  lemma SweepIsExact(c: Config, st: State, k: Key)
    ensures k in Swept(c, st).table.leases <==>
      k in st.table.leases && st.clock < st.table.leases[k].expiresAt
      && Since(st.clock, st.table.leases[k].lastRenewedAt) <= c.staleAfter
  {
  }

  /** Where the staleness bound is no shorter than the TTL, leases expire before they can go stale. */
  lemma {:induction false} NothingGoesStale(c: Config, steps: seq<Step>, u: string)
    requires Run(c, steps).Some? && c.staleAfter >= c.ttl
    ensures CountAt(Run(c, steps).value.table.stale, u) == 0
  {
    if steps != [] {
      var init, step := steps[..|steps| - 1], steps[|steps| - 1];
      NothingGoesStale(c, init, u);
      RunKeeps(c, init);
      StaleUnmoved(c, Run(c, init).value, step, u);
    }
  }

  lemma StaleUnmoved(c: Config, st: State, step: Step, u: string)
    requires Beating(c, st) && c.staleAfter >= c.ttl && Do(c, st, step).Some? && CountAt(st.table.stale, u) == 0
    ensures CountAt(Do(c, st, step).value.table.stale, u) == 0
  {
    assert StaleKeys(st.table, st.clock, c.staleAfter) == {};
    BumpNone(st.table.stale);
    assert Swept(c, st).table.stale == st.table.stale;
    hide Swept;
  }
}
