/** The sliding-window bound over whole runs of attempts and rollbacks, with fixed limits and a clock that never goes
    back. */
module RequestWindowRuns {
  import opened Collections
  import opened RequestWindows

  /** `admitted` is a history: every admission not rolled back. */
  datatype State = State(window: seq<Event>, clock: nat, nextId: nat, admitted: seq<Event>)

  const INITIAL := State([], 0, 0, [])

  datatype Step =
    | TryReserve(elapsed: nat, costAllows: bool)
    | Rollback(id: nat)

  function Do(limits: Limits, st: State, step: Step): State {
    match step
    case TryReserve(elapsed, costAllows) =>
      var now := st.clock + elapsed;
      var (window, refusal) := Attempt(limits, st.window, now, st.nextId, costAllows);
      State(window, now, st.nextId + 1, if refusal.Some? then st.admitted else st.admitted + [Event(st.nextId, now)])
    case Rollback(id) => st.(window := Without(st.window, id), admitted := Without(st.admitted, id))
  }

  function Run(limits: Limits, steps: seq<Step>): State {
    if steps == [] then INITIAL else Do(limits, Run(limits, steps[..|steps| - 1]), steps[|steps| - 1])
  }

  /** The window is the recent part of the admissions: whatever it lacks is older than any later gate looks. */
  ghost predicate Tracks(limits: Limits, st: State) {
    && |st.window| <= |st.admitted|
    && st.window == st.admitted[|st.admitted| - |st.window|..]
    && (forall i | 0 <= i < |st.admitted| - |st.window| ::
          st.admitted[i].createdAt < WindowStart(st.clock, Retention(limits)))
    && Chronological(st.admitted) && Past(st.admitted, st.clock)
    && (forall i | 0 <= i < |st.admitted| :: st.admitted[i].id < st.nextId)
  }

  /** Admissions in the `seconds` seconds from `from` on. */
  function CountWithin(events: seq<Event>, from: nat, seconds: nat): nat {
    if events == [] then 0
    else
      var last := events[|events| - 1];
      CountWithin(events[..|events| - 1], from, seconds) + if from <= last.createdAt < from + seconds then 1 else 0
  }

  ghost predicate Bounded(events: seq<Event>, seconds: nat, limit: nat) {
    forall from: nat :: CountWithin(events, from, seconds) <= limit
  }

  // ---- Counting ----

  lemma {:induction false} WithinPast(events: seq<Event>, from: nat, seconds: nat, now: nat)
    requires Past(events, now)
    ensures CountWithin(events, from, seconds) <= CountSince(events, from)
    ensures now < from + seconds ==> CountWithin(events, from, seconds) == CountSince(events, from)
  {
    if events != [] {
      var init, last := events[..|events| - 1], events[|events| - 1];
      assert events == init + [last];
      CountAppend(init, [last], from);
      WithinPast(init, from, seconds, now);
    }
  }

  lemma {:induction false} NoneCount(events: seq<Event>, start: nat)
    requires forall i | 0 <= i < |events| :: events[i].createdAt < start
    ensures CountSince(events, start) == 0
  {
    if events != [] {
      NoneCount(events[1..], start);
    }
  }

  /** What the gate counts in the window is what it would count in all admissions. */
  lemma WindowCounts(limits: Limits, st: State, start: nat)
    requires Tracks(limits, st) && start >= WindowStart(st.clock, Retention(limits))
    ensures CountSince(st.window, start) == CountSince(st.admitted, start)
  {
    var cut := |st.admitted| - |st.window|;
    assert st.admitted == st.admitted[..cut] + st.window;
    NoneCount(st.admitted[..cut], start);
    CountAppend(st.admitted[..cut], st.window, start);
  }

  /** Pruning keeps the correspondence and changes no later count. */
  lemma PrunedTracks(limits: Limits, st: State, now: nat)
    requires Tracks(limits, st) && st.clock <= now
    ensures Tracks(limits, st.(window := DropOld(st.window, WindowStart(now, Retention(limits))), clock := now))
  {
    var start := WindowStart(now, Retention(limits));
    var pruned := DropOld(st.window, start);
    DropOldCounts(st.window, start, start);
    var cut := |st.admitted| - |st.window|;
    assert pruned == st.admitted[|st.admitted| - |pruned|..];
    forall i | 0 <= i < |st.admitted| - |pruned|
      ensures st.admitted[i].createdAt < start
    {
      if i >= cut {
        assert st.admitted[i] == st.window[i - cut];
      }
    }
  }

  lemma AdmitTracks(limits: Limits, st: State)
    requires Tracks(limits, st)
    ensures Tracks(limits, st.(window := st.window + [Event(st.nextId, st.clock)], nextId := st.nextId + 1,
                               admitted := st.admitted + [Event(st.nextId, st.clock)]))
  {
  }

  lemma {:induction false} WithoutMeaning(events: seq<Event>, id: nat)
    ensures |Without(events, id)| <= |events|
    ensures forall i | 0 <= i < |Without(events, id)| :: Without(events, id)[i] in events
    ensures Chronological(events) ==> Chronological(Without(events, id))
  {
    if events != [] {
      WithoutMeaning(events[1..], id);
      forall i | 0 <= i < |Without(events[1..], id)|
        ensures Chronological(events) ==> events[0].createdAt <= Without(events[1..], id)[i].createdAt
      {
        var j :| 0 <= j < |events[1..]| && events[1..][j] == Without(events[1..], id)[i];
        assert events[j + 1] == events[1..][j];
      }
    }
  }

  lemma {:induction false} WithoutAppend(left: seq<Event>, right: seq<Event>, id: nat)
    ensures Without(left + right, id) == Without(left, id) + Without(right, id)
  {
    if left == [] {
      assert left + right == right;
    } else {
      assert (left + right)[1..] == left[1..] + right;
      WithoutAppend(left[1..], right, id);
    }
  }

  lemma RollbackTracks(limits: Limits, st: State, id: nat)
    requires Tracks(limits, st)
    ensures Tracks(limits, st.(window := Without(st.window, id), admitted := Without(st.admitted, id)))
  {
    var cut := |st.admitted| - |st.window|;
    var earlier, recent := st.admitted[..cut], st.window;
    assert st.admitted == earlier + recent;
    WithoutAppend(earlier, recent, id);
    WithoutMeaning(earlier, id);
    WithoutMeaning(recent, id);
    WithoutMeaning(st.admitted, id);
    var kept := Without(st.admitted, id);
    forall i | 0 <= i < |kept|
      ensures kept[i].createdAt <= st.clock && kept[i].id < st.nextId
    {
      assert kept[i] in st.admitted;
    }
    forall i | 0 <= i < |kept| - |Without(recent, id)|
      ensures kept[i].createdAt < WindowStart(st.clock, Retention(limits))
    {
      assert kept[i] == Without(earlier, id)[i] && Without(earlier, id)[i] in earlier;
    }
  }

  lemma StepTracks(limits: Limits, st: State, step: Step)
    requires Tracks(limits, st)
    ensures Tracks(limits, Do(limits, st, step))
  {
    hide Tracks, Refusal, Without;
    match step
    case Rollback(id) => RollbackTracks(limits, st, id);
    case TryReserve(elapsed, costAllows) =>
      var now := st.clock + elapsed;
      PrunedTracks(limits, st, now);
      var pruned := st.(window := DropOld(st.window, WindowStart(now, Retention(limits))), clock := now);
      if Refusal(limits, pruned.window, now, costAllows).Some? {
        NextIdTracks(limits, pruned);
      } else {
        AdmitTracks(limits, pruned);
      }
  }

  lemma NextIdTracks(limits: Limits, st: State)
    requires Tracks(limits, st)
    ensures Tracks(limits, st.(nextId := st.nextId + 1))
  {
  }

  // ---- The bound ----

  /** An admission through an open gate keeps the bound on every window of that length. */
  lemma AdmissionBounded(events: seq<Event>, e: Event, seconds: nat, limit: nat)
    requires Bounded(events, seconds, limit) && Past(events, e.createdAt) && seconds > 0
    requires CountSince(events, WindowStart(e.createdAt, seconds)) < limit
    ensures Bounded(events + [e], seconds, limit)
  {
    forall from: nat
      ensures CountWithin(events + [e], from, seconds) <= limit
    {
      assert (events + [e])[..|events|] == events;
      if from <= e.createdAt < from + seconds {
        WithinPast(events, from, seconds, e.createdAt);
        CountMonotone(events, WindowStart(e.createdAt, seconds), from);
      }
    }
  }

  lemma {:induction false} WithoutCounts(events: seq<Event>, id: nat, from: nat, seconds: nat)
    ensures CountWithin(Without(events, id), from, seconds) <= CountWithin(events, from, seconds)
  {
    if events != [] {
      var init, last := events[..|events| - 1], events[|events| - 1];
      assert events == init + [last];
      WithoutAppend(init, [last], id);
      WithoutCounts(init, id, from, seconds);
      if last.id == id {
        assert Without(events, id) == Without(init, id);
      } else {
        assert Without([last], id) == [last] + Without([], id);
        assert Without(events, id)[..|Without(init, id)|] == Without(init, id);
      }
    }
  }

  lemma WithoutBounded(events: seq<Event>, id: nat, seconds: nat, limit: nat)
    requires Bounded(events, seconds, limit)
    ensures Bounded(Without(events, id), seconds, limit)
  {
    forall from: nat
      ensures CountWithin(Without(events, id), from, seconds) <= limit
    {
      WithoutCounts(events, id, from, seconds);
    }
  }

  /** The gate a step passes through, if it guards windows of that length. */
  ghost predicate Guards(limits: Limits, seconds: nat, limit: nat) {
    (seconds == MINUTE && limit == limits.perMinute)
    || (QuotaApplies(limits) && seconds == QuotaSeconds(limits).value && limit == QuotaLimit(limits))
  }

  lemma StepBounded(limits: Limits, st: State, step: Step, seconds: nat, limit: nat)
    requires Tracks(limits, st) && Guards(limits, seconds, limit) && Bounded(st.admitted, seconds, limit)
    ensures Bounded(Do(limits, st, step).admitted, seconds, limit)
  {
    hide Bounded, Without, DropOld, Tracks, CountSince;
    match step
    case Rollback(id) => WithoutBounded(st.admitted, id, seconds, limit);
    case TryReserve(elapsed, costAllows) =>
      var now := st.clock + elapsed;
      PrunedTracks(limits, st, now);
      var pruned := st.(window := DropOld(st.window, WindowStart(now, Retention(limits))), clock := now);
      WindowCounts(limits, pruned, WindowStart(now, seconds));
      if Refusal(limits, pruned.window, now, costAllows).None? {
        TracksPast(limits, pruned);
        AdmissionBounded(st.admitted, Event(st.nextId, now), seconds, limit);
      }
  }

  lemma TracksPast(limits: Limits, st: State)
    requires Tracks(limits, st)
    ensures Past(st.admitted, st.clock)
  {
  }

  lemma {:induction false} RunTracks(limits: Limits, steps: seq<Step>)
    ensures Tracks(limits, Run(limits, steps))
  {
    hide Do;
    if steps != [] {
      RunTracks(limits, steps[..|steps| - 1]);
      hide Tracks;
      StepTracks(limits, Run(limits, steps[..|steps| - 1]), steps[|steps| - 1]);
    }
  }

  /** Any 60 consecutive seconds hold at most the per-minute limit of admissions that were not rolled back; likewise
      the request-quota window, outside token billing. */
  lemma {:induction false} SlidingBound(limits: Limits, steps: seq<Step>, seconds: nat, limit: nat, from: nat)
    requires Guards(limits, seconds, limit)
    ensures CountWithin(Run(limits, steps).admitted, from, seconds) <= limit
  {
    RunBounded(limits, steps, seconds, limit);
  }

  lemma {:induction false} RunBounded(limits: Limits, steps: seq<Step>, seconds: nat, limit: nat)
    requires Guards(limits, seconds, limit)
    ensures Bounded(Run(limits, steps).admitted, seconds, limit)
  {
    hide Do, Guards, Tracks;
    if steps != [] {
      RunBounded(limits, steps[..|steps| - 1], seconds, limit);
      RunTracks(limits, steps[..|steps| - 1]);
      StepBounded(limits, Run(limits, steps[..|steps| - 1]), steps[|steps| - 1], seconds, limit);
    }
  }

  // ---- Retry-After over runs ----

  /** In every reachable state, a rejection by a gate with a positive limit advertises exactly the time after which
      that gate lets the same window through. */
  lemma RejectionTellsTheTruth(limits: Limits, steps: seq<Step>, elapsed: nat, costAllows: bool, wait: nat)
    ensures var st := Run(limits, steps);
            var now := st.clock + elapsed;
            var (window, refusal) := Attempt(limits, st.window, now, st.nextId, costAllows);
            match refusal
            case Some(PerMinuteLimitExceeded(retry, limit, used)) =>
              limit > 0 ==> (GateOpen(window, now + wait, MINUTE, limit) <==> wait >= retry)
            case Some(RequestQuotaExceeded(retry, limit, used, seconds)) =>
              GateOpen(window, now + wait, seconds, limit) <==> wait >= retry
            case _ => true
  {
    hide Run, Tracks, GateOpen, RetryAfter, DropOld, Bounded;
    var st := Run(limits, steps);
    var now := st.clock + elapsed;
    RunTracks(limits, steps);
    PrunedTracks(limits, st, now);
    var pruned := st.(window := DropOld(st.window, WindowStart(now, Retention(limits))), clock := now);
    if !GateOpen(pruned.window, now, MINUTE, limits.perMinute) {
      if limits.perMinute > 0 {
        RunBounded(limits, steps, MINUTE, limits.perMinute);
        GateTruth(limits, pruned, MINUTE, limits.perMinute, wait);
      }
    } else if QuotaApplies(limits) && !GateOpen(pruned.window, now, QuotaSeconds(limits).value, QuotaLimit(limits)) {
      RunBounded(limits, steps, QuotaSeconds(limits).value, QuotaLimit(limits));
      GateTruth(limits, pruned, QuotaSeconds(limits).value, QuotaLimit(limits), wait);
    }
  }

  lemma GateTruth(limits: Limits, st: State, seconds: nat, limit: nat, wait: nat)
    requires Tracks(limits, st) && Guards(limits, seconds, limit) && Bounded(st.admitted, seconds, limit)
    requires limit > 0 && !GateOpen(st.window, st.clock, seconds, limit)
    ensures GateOpen(st.window, st.clock + wait, seconds, limit) <==> wait >= RetryAfter(st.window, st.clock, seconds)
  {
    GateFull(limits, st, seconds, limit);
    SuffixInOrder(limits, st);
    hide Tracks, Bounded, GateOpen, RetryAfter;
    RetryIsExact(st.window, st.clock, seconds, limit, wait);
  }

  /** A closed gate is exactly full. */
  lemma GateFull(limits: Limits, st: State, seconds: nat, limit: nat)
    requires Tracks(limits, st) && Guards(limits, seconds, limit) && Bounded(st.admitted, seconds, limit)
    requires !GateOpen(st.window, st.clock, seconds, limit)
    ensures seconds > 0 && CountSince(st.window, WindowStart(st.clock, seconds)) == limit
  {
    var start := WindowStart(st.clock, seconds);
    WindowCounts(limits, st, start);
    WithinPast(st.admitted, start, seconds, st.clock);
    assert CountWithin(st.admitted, start, seconds) <= limit;
  }

  lemma SuffixInOrder(limits: Limits, st: State)
    requires Tracks(limits, st)
    ensures Chronological(st.window) && Past(st.window, st.clock)
  {
    var cut := |st.admitted| - |st.window|;
    assert forall i | 0 <= i < |st.window| :: st.window[i] == st.admitted[cut + i];
  }

  // ---- Rollback ----

  lemma {:induction false} WithoutAbsent(events: seq<Event>, id: nat)
    requires forall i | 0 <= i < |events| :: events[i].id != id
    ensures Without(events, id) == events
  {
    if events != [] {
      WithoutAbsent(events[1..], id);
    }
  }

  /** What one attempt does to the window: it prunes, and appends the request when it was admitted. */
  datatype Visit = Visit(now: nat, admitted: Option<nat>)

  function Visited(limits: Limits, window: seq<Event>, visit: Visit): seq<Event> {
    var pruned := DropOld(window, WindowStart(visit.now, Retention(limits)));
    match visit.admitted
    case None => pruned
    case Some(id) => pruned + [Event(id, visit.now)]
  }

  function Visits(limits: Limits, window: seq<Event>, visits: seq<Visit>): seq<Event> {
    if visits == [] then window
    else Visited(limits, Visits(limits, window, visits[..|visits| - 1]), visits[|visits| - 1])
  }

  function VisitOf(limits: Limits, window: seq<Event>, now: nat, id: nat, costAllows: bool): Visit {
    Visit(now, if Attempt(limits, window, now, id, costAllows).1.Some? then None else Some(id))
  }

  /** Every attempt, admitted or not, is such a visit. */
  lemma AttemptIsVisit(limits: Limits, window: seq<Event>, now: nat, id: nat, costAllows: bool)
    ensures Attempt(limits, window, now, id, costAllows).0
         == Visited(limits, window, VisitOf(limits, window, now, id, costAllows))
  {
    hide Refusal;
  }

  /** Visits by other requests from `now` on, at times that never go back. */
  ghost predicate ByOthers(visits: seq<Visit>, now: nat, id: nat) {
    && (forall i | 0 <= i < |visits| :: now <= visits[i].now && visits[i].admitted != Some(id))
    && (forall i, j | 0 <= i < j < |visits| :: visits[i].now <= visits[j].now)
  }

  lemma {:induction false} DropOldInOrder(window: seq<Event>, start: nat)
    requires Chronological(window)
    ensures Chronological(DropOld(window, start))
    ensures forall i | 0 <= i < |DropOld(window, start)| :: DropOld(window, start)[i].createdAt >= start
    ensures forall e | e in DropOld(window, start) :: e in window
  {
    if window != [] && window[0].createdAt < start {
      DropOldInOrder(window[1..], start);
    }
  }

  /** Pruning and rolling back commute on a window in order of time. */
  lemma {:induction false} WithoutDropOld(window: seq<Event>, id: nat, start: nat)
    requires Chronological(window)
    ensures Without(DropOld(window, start), id) == DropOld(Without(window, id), start)
  {
    if window != [] {
      var rest := window[1..];
      if window[0].createdAt < start {
        WithoutDropOld(rest, id, start);
        assert [] + Without(rest, id) == Without(rest, id) == ([window[0]] + Without(rest, id))[1..];
      } else {
        WithoutMeaning(window, id);
        assert forall i | 0 <= i < |Without(window, id)| :: Without(window, id)[i].createdAt >= start;
      }
    }
  }

  lemma {:induction false} VisitsInOrder(limits: Limits, window: seq<Event>, visits: seq<Visit>, now: nat, id: nat)
    requires Chronological(window) && Past(window, now) && ByOthers(visits, now, id)
    ensures var after := Visits(limits, window, visits);
            Chronological(after) && Past(after, if visits == [] then now else visits[|visits| - 1].now)
  {
    if visits != [] {
      var init, last := visits[..|visits| - 1], visits[|visits| - 1];
      VisitsInOrder(limits, window, init, now, id);
      var before := Visits(limits, window, init);
      var start := WindowStart(last.now, Retention(limits));
      var pruned := DropOld(before, start);
      DropOldInOrder(before, start);
      assert Past(before, last.now);
      hide DropOld, WindowStart;
      assert Past(pruned, last.now) by {
        assert forall i | 0 <= i < |pruned| :: pruned[i] in before;
      }
      if last.admitted.Some? {
        OneMoreInOrder(pruned, last.now, last.admitted.value);
      }
    }
  }

  /** Rolling a slot back after other requests came and went is the same as never having taken it: the others' pruning
      and admissions apply to the window without it. */
  lemma {:induction false} VisitsWithout(limits: Limits, window: seq<Event>, visits: seq<Visit>, now: nat, id: nat)
    requires Chronological(window) && Past(window, now) && ByOthers(visits, now, id)
    ensures Without(Visits(limits, window, visits), id) == Visits(limits, Without(window, id), visits)
  {
    if visits != [] {
      var init, last := visits[..|visits| - 1], visits[|visits| - 1];
      VisitsWithout(limits, window, init, now, id);
      VisitsInOrder(limits, window, init, now, id);
      var before, start := Visits(limits, window, init), WindowStart(last.now, Retention(limits));
      WithoutDropOld(before, id, start);
      hide DropOld, Without, Chronological;
      if last.admitted.Some? {
        var mine := [Event(last.admitted.value, last.now)];
        WithoutAppend(DropOld(before, start), mine, id);
        WithoutAbsent(mine, id);
      }
    }
  }

  /** Rolling back the slot just taken, before anything else happens, leaves the pruned window. */
  lemma SlotGone(window: seq<Event>, now: nat, id: nat)
    requires forall i | 0 <= i < |window| :: window[i].id != id
    ensures Without(window, id) == window && Without(window + [Event(id, now)], id) == window
  {
    hide Without;
    WithoutAbsent(window, id);
    WithoutOne(Event(id, now));
    WithoutAppend(window, [Event(id, now)], id);
    assert window + [] == window;
  }

  /** Admission is all or nothing: in any reachable state, rolling back the slot just taken, whatever other requests
      did meanwhile, leaves the window the others' visits make of the pruned one. */
  lemma RollbackUndoes(limits: Limits, steps: seq<Step>, elapsed: nat, costAllows: bool, visits: seq<Visit>)
    requires ByOthers(visits, Run(limits, steps).clock + elapsed, Run(limits, steps).nextId)
    ensures var st := Run(limits, steps);
            var now := st.clock + elapsed;
            Without(Visits(limits, Attempt(limits, st.window, now, st.nextId, costAllows).0, visits), st.nextId)
              == Visits(limits, DropOld(st.window, WindowStart(now, Retention(limits))), visits)
  {
    hide Run, Refusal, DropOld, Visits, ByOthers, Without, Chronological, Past, Tracks, WindowStart;
    var st := Run(limits, steps);
    var now := st.clock + elapsed;
    RunTracks(limits, steps);
    PrunedTracks(limits, st, now);
    var pruned := st.(window := DropOld(st.window, WindowStart(now, Retention(limits))), clock := now);
    TrackedFresh(limits, pruned);
    SlotGone(pruned.window, now, st.nextId);
    SuffixInOrder(limits, pruned);
    OneMoreInOrder(pruned.window, now, st.nextId);
    var after := Attempt(limits, st.window, now, st.nextId, costAllows).0;
    assert after == pruned.window || after == pruned.window + [Event(st.nextId, now)];
    VisitsWithout(limits, after, visits, now, st.nextId);
  }

  lemma OneMoreInOrder(window: seq<Event>, now: nat, id: nat)
    requires Chronological(window) && Past(window, now)
    ensures Chronological(window + [Event(id, now)]) && Past(window + [Event(id, now)], now)
  {
  }

  lemma TrackedFresh(limits: Limits, st: State)
    requires Tracks(limits, st)
    ensures forall i | 0 <= i < |st.window| :: st.window[i].id != st.nextId
  {
    var cut := |st.admitted| - |st.window|;
    assert forall i | 0 <= i < |st.window| :: st.window[i] == st.admitted[cut + i];
  }

  lemma WithoutOne(e: Event)
    ensures Without([e], e.id) == []
  {
  }

  // ---- Admission ----

  /** The first second of the window of that length that ends now. */
  function FirstSecond(now: nat, seconds: nat): nat {
    if now + 1 <= seconds then 0 else now + 1 - seconds
  }

  /** Length and limit of the request-quota window, when one is configured and requests are not billed by tokens. */
  function QuotaWindow(limits: Limits): Option<(nat, nat)> {
    if limits.tokenBilling || limits.quotaHours.None? || limits.quotaRequests.None? then None
    else
      var hours, requests := limits.quotaHours.value, limits.quotaRequests.value;
      Some(((if hours < 1 then 1 else hours) * 3600, if requests < 1 then 1 else requests))
  }

  lemma QuotaWindowMeaning(limits: Limits)
    ensures QuotaWindow(limits).Some? <==> QuotaApplies(limits)
    ensures QuotaApplies(limits) ==> QuotaWindow(limits) == Some((QuotaSeconds(limits).value, QuotaLimit(limits)))
  {
  }

  /** The decision that counts of these admissions lead to. */
  ghost predicate Decides(limits: Limits, admitted: seq<Event>, now: nat, costAllows: bool, refusal: Option<Rejection>) {
    var inMinute, quota := CountSince(admitted, FirstSecond(now, 60)), QuotaWindow(limits);
    var inQuota := if quota.Some? then CountSince(admitted, FirstSecond(now, quota.value.0)) else 0;
    var minuteOpen, quotaOpen := inMinute < limits.perMinute, quota.Some? ==> inQuota < quota.value.1;
    match refusal
    case None => minuteOpen && quotaOpen && costAllows
    case Some(PerMinuteLimitExceeded(_, limit, used)) => !minuteOpen && limit == limits.perMinute && used == inMinute
    case Some(RequestQuotaExceeded(_, limit, used, seconds)) =>
      minuteOpen && quota == Some((seconds, limit)) && used == inQuota >= limit
    case Some(CostQuotaExceeded) => minuteOpen && quotaOpen && !costAllows
  }

  lemma WindowDecides(limits: Limits, window: seq<Event>, now: nat, costAllows: bool)
    ensures Decides(limits, window, now, costAllows, Refusal(limits, window, now, costAllows))
  {
    QuotaWindowMeaning(limits);
    StartsAgree(now, 60);
    if QuotaApplies(limits) {
      StartsAgree(now, QuotaSeconds(limits).value);
    }
    hide CountSince, RetryAfter, FirstSecond, WindowStart, QuotaWindow, QuotaLimit, QuotaApplies, QuotaSeconds;
  }

  /** Main result: in every run, a request is admitted exactly when fewer than the per-minute limit of the
      admissions not rolled back fall in the last 60 seconds, fewer than the quota in the quota window where that
      applies, and the cost gate lets it through; the first of these that fails is the reason given, with the count
      it found. */
  lemma AdmittedIff(limits: Limits, steps: seq<Step>, elapsed: nat, costAllows: bool)
    ensures var st := Run(limits, steps);
            var now := st.clock + elapsed;
            Decides(limits, st.admitted, now, costAllows, Attempt(limits, st.window, now, st.nextId, costAllows).1)
  {
    hide *;
    var st := Run(limits, steps);
    var now := st.clock + elapsed;
    RunTracks(limits, steps);
    PrunedTracks(limits, st, now);
    var pruned := st.(window := DropOld(st.window, WindowStart(now, Retention(limits))), clock := now);
    CountsAgree(limits, pruned);
    var refusal := Refusal(limits, pruned.window, now, costAllows);
    WindowDecides(limits, pruned.window, now, costAllows);
    DecidesAlike(limits, pruned.window, st.admitted, now, costAllows, refusal);
    AttemptRefusal(limits, st.window, now, st.nextId, costAllows);
  }

  lemma AttemptRefusal(limits: Limits, window: seq<Event>, now: nat, id: nat, costAllows: bool)
    ensures Attempt(limits, window, now, id, costAllows).1
         == Refusal(limits, DropOld(window, WindowStart(now, Retention(limits))), now, costAllows)
  {
    hide Refusal, DropOld;
  }

  /** Only the two counts matter. */
  lemma DecidesAlike(limits: Limits, left: seq<Event>, right: seq<Event>, now: nat, costAllows: bool,
                     refusal: Option<Rejection>)
    requires CountSince(left, FirstSecond(now, 60)) == CountSince(right, FirstSecond(now, 60))
    requires QuotaWindow(limits).Some? ==>
      var start := FirstSecond(now, QuotaWindow(limits).value.0); CountSince(left, start) == CountSince(right, start)
    requires Decides(limits, left, now, costAllows, refusal)
    ensures Decides(limits, right, now, costAllows, refusal)
  {
    hide CountSince, FirstSecond, QuotaWindow;
  }

  /** The gates count in the window what they would count in all admissions. */
  lemma CountsAgree(limits: Limits, st: State)
    requires Tracks(limits, st)
    ensures CountSince(st.window, FirstSecond(st.clock, 60)) == CountSince(st.admitted, FirstSecond(st.clock, 60))
    ensures QuotaWindow(limits).Some? ==>
      var start := FirstSecond(st.clock, QuotaWindow(limits).value.0);
      CountSince(st.window, start) == CountSince(st.admitted, start)
  {
    QuotaWindowMeaning(limits);
    StartsAgree(st.clock, 60);
    WindowCounts(limits, st, WindowStart(st.clock, 60));
    if QuotaApplies(limits) {
      StartsAgree(st.clock, QuotaSeconds(limits).value);
      WindowCounts(limits, st, WindowStart(st.clock, QuotaSeconds(limits).value));
    }
    hide Tracks, CountSince;
  }

  lemma StartsAgree(now: nat, seconds: nat)
    requires seconds > 0
    ensures FirstSecond(now, seconds) == WindowStart(now, seconds)
  {
  }

  /** Counting since a second counts exactly the events from it on. */
  lemma {:induction false} CountMeaning(events: seq<Event>, start: nat)
    ensures CountSince(events, start) == |set i | 0 <= i < |events| && events[i].createdAt >= start|
  {
    var counted := set i | 0 <= i < |events| && events[i].createdAt >= start;
    if events == [] {
      assert counted == {};
    } else {
      var init, last := events[..|events| - 1], events[|events| - 1];
      assert events == init + [last];
      CountMeaning(init, start);
      CountAppend(init, [last], start);
      var before := set i | 0 <= i < |init| && init[i].createdAt >= start;
      assert counted == before + (if last.createdAt >= start then {|init|} else {});
    }
  }
}
