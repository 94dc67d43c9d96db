/** Sliding request windows of a downstream (src/state.rs, `reserve_downstream_request` and its rollback). */
module RequestWindows {
  import opened Collections

  /** An admitted request; ids are drawn from the supply of unused names. */
  datatype Event = Event(id: nat, createdAt: nat)

  datatype Limits = Limits(perMinute: nat, quotaHours: Option<nat>, quotaRequests: Option<nat>, tokenBilling: bool)

  datatype Rejection =
    | PerMinuteLimitExceeded(retryAfter: nat, limit: nat, used: nat)
    | RequestQuotaExceeded(retryAfter: nat, limit: nat, used: nat, windowSeconds: nat)
    | CostQuotaExceeded

  const MINUTE := 60

  function Max(a: nat, b: nat): nat {
    if a < b then b else a
  }

  function Monus(a: nat, b: nat): nat {
    if a < b then 0 else a - b
  }

  /** Length of the request-quota window, when one is configured. */
  function QuotaSeconds(limits: Limits): Option<nat> {
    if limits.quotaHours.Some? && limits.quotaRequests.Some? then Some(Max(limits.quotaHours.value, 1) * 3600) else None
  }

  function QuotaLimit(limits: Limits): nat {
    Max(limits.quotaRequests.GetOr(0), 1)
  }

  function Retention(limits: Limits): nat {
    Max(QuotaSeconds(limits).GetOr(MINUTE), MINUTE)
  }

  /** First second of the window of that length that ends now. */
  function WindowStart(now: nat, seconds: nat): nat {
    Monus(now, Monus(seconds, 1))
  }

  /** The window without the events at its front that are older than `start`. */
  function DropOld(window: seq<Event>, start: nat): seq<Event> {
    if window != [] && window[0].createdAt < start then DropOld(window[1..], start) else window
  }

  function CountSince(window: seq<Event>, start: nat): nat {
    if window == [] then 0
    else CountSince(window[1..], start) + if window[0].createdAt >= start then 1 else 0
  }

  /** When the first event in the window happened, or now. */
  function OldestSince(window: seq<Event>, start: nat, now: nat): nat {
    if window == [] then now
    else if window[0].createdAt >= start then window[0].createdAt
    else OldestSince(window[1..], start, now)
  }

  predicate GateOpen(window: seq<Event>, now: nat, seconds: nat, limit: nat) {
    CountSince(window, WindowStart(now, seconds)) < limit
  }

  function RetryAfter(window: seq<Event>, now: nat, seconds: nat): nat {
    Max(Monus(OldestSince(window, WindowStart(now, seconds), now) + seconds, now), 1)
  }

  /** Whether the request-quota gate applies. */
  predicate QuotaApplies(limits: Limits) {
    !limits.tokenBilling && QuotaSeconds(limits).Some?
  }

  /** The rejection of a pruned window, if any; `costAllows` stands for the daily-cost gate. */
  function Refusal(limits: Limits, window: seq<Event>, now: nat, costAllows: bool): Option<Rejection> {
    if !GateOpen(window, now, MINUTE, limits.perMinute) then
      Some(PerMinuteLimitExceeded(RetryAfter(window, now, MINUTE), limits.perMinute,
                                  CountSince(window, WindowStart(now, MINUTE))))
    else if QuotaApplies(limits) && !GateOpen(window, now, QuotaSeconds(limits).value, QuotaLimit(limits)) then
      var seconds := QuotaSeconds(limits).value;
      Some(RequestQuotaExceeded(RetryAfter(window, now, seconds), QuotaLimit(limits),
                                CountSince(window, WindowStart(now, seconds)), seconds))
    else if !costAllows then Some(CostQuotaExceeded)
    else None
  }

  /** The window after an attempt: always pruned, extended only when admitted. */
  function Attempt(limits: Limits, window: seq<Event>, now: nat, id: nat, costAllows: bool): (seq<Event>,
                                                                                              Option<Rejection>) {
    var pruned := DropOld(window, WindowStart(now, Retention(limits)));
    var refusal := Refusal(limits, pruned, now, costAllows);
    (if refusal.Some? then pruned else pruned + [Event(id, now)], refusal)
  }

  function Without(window: seq<Event>, id: nat): seq<Event> {
    if window == [] then []
    else (if window[0].id == id then [] else [window[0]]) + Without(window[1..], id)
  }

  // ---- The map of windows ----

  function WindowAt(windows: map<string, seq<Event>>, downstream: string): seq<Event> {
    if downstream in windows then windows[downstream] else []
  }

  class RequestWindowStore {
    var windows: map<string, seq<Event>>

    constructor ()
      ensures windows == map[]
    {
      windows := map[];
    }

    method Reserve(downstream: string, limits: Limits, now: nat, id: nat, costAllows: bool)
      returns (refusal: Option<Rejection>)
      modifies this
      ensures (WindowAt(windows, downstream), refusal)
           == Attempt(limits, WindowAt(old(windows), downstream), now, id, costAllows)
      ensures windows == old(windows)[downstream := WindowAt(windows, downstream)]
    {
      hide Refusal;
      var window := WindowAt(windows, downstream);
      var start := WindowStart(now, Retention(limits));
      while window != [] && window[0].createdAt < start
        invariant DropOld(window, start) == DropOld(WindowAt(old(windows), downstream), start)
        decreases |window|
      {
        window := window[1..];
      }
      refusal := Refusal(limits, window, now, costAllows);
      if refusal.None? {
        window := window + [Event(id, now)];
      }
      windows := windows[downstream := window];
    }

    method Rollback(downstream: string, id: nat)
      modifies this
      ensures WindowAt(windows, downstream) == Without(WindowAt(old(windows), downstream), id)
      ensures forall other | other != downstream :: WindowAt(windows, other) == WindowAt(old(windows), other)
    {
      if downstream in windows {
        var window := Without(windows[downstream], id);
        if window == [] {
          windows := windows - {downstream};
        } else {
          windows := windows[downstream := window];
        }
      }
    }
  }

  // ---- Counting facts ----

  ghost predicate Chronological(window: seq<Event>) {
    forall i, j | 0 <= i < j < |window| :: window[i].createdAt <= window[j].createdAt
  }

  ghost predicate Past(window: seq<Event>, now: nat) {
    forall i | 0 <= i < |window| :: window[i].createdAt <= now
  }

  lemma {:induction false} CountAppend(left: seq<Event>, right: seq<Event>, start: nat)
    ensures CountSince(left + right, start) == CountSince(left, start) + CountSince(right, start)
  {
    if left == [] {
      assert left + right == right;
    } else {
      assert (left + right)[1..] == left[1..] + right;
      CountAppend(left[1..], right, start);
    }
  }

  lemma {:induction false} CountMonotone(window: seq<Event>, early: nat, late: nat)
    requires early <= late
    ensures CountSince(window, late) <= CountSince(window, early)
  {
    if window != [] {
      CountMonotone(window[1..], early, late);
    }
  }

  /** Pruning never drops an event that a later gate would count. */
  lemma {:induction false} DropOldCounts(window: seq<Event>, start: nat, later: nat)
    requires start <= later
    ensures CountSince(DropOld(window, start), later) == CountSince(window, later)
    ensures |DropOld(window, start)| <= |window|
    ensures DropOld(window, start) == window[|window| - |DropOld(window, start)|..]
    ensures forall i | 0 <= i < |window| - |DropOld(window, start)| :: window[i].createdAt < start
  {
    if window != [] && window[0].createdAt < start {
      DropOldCounts(window[1..], start, later);
      assert window[1..][|window| - 1 - |DropOld(window, start)|..] == window[|window| - |DropOld(window, start)|..];
    }
  }

  // ---- Exact Retry-After ----

  /** Nothing older than the window counts, and the oldest counted event is in it. */
  lemma {:induction false} OldestMeaning(window: seq<Event>, start: nat, now: nat)
    requires Chronological(window) && CountSince(window, start) > 0
    ensures var oldest := OldestSince(window, start, now);
            && start <= oldest
            && CountSince(window, oldest) == CountSince(window, start)
            && CountSince(window, oldest + 1) < CountSince(window, start)
  {
    if window[0].createdAt >= start {
      AllCount(window[1..], window[0].createdAt);
      CountMonotone(window[1..], window[0].createdAt, window[0].createdAt + 1);
      AllCount(window[1..], start);
    } else {
      OldestMeaning(window[1..], start, now);
    }
  }

  lemma {:induction false} AllCount(window: seq<Event>, start: nat)
    requires forall i | 0 <= i < |window| :: window[i].createdAt >= start
    ensures CountSince(window, start) == |window|
  {
    if window != [] {
      AllCount(window[1..], start);
    }
  }

  /** A full gate reopens after exactly the advertised time: not one second earlier, and from then on. */
  lemma RetryIsExact(window: seq<Event>, now: nat, seconds: nat, limit: nat, wait: nat)
    requires Chronological(window) && Past(window, now) && seconds > 0
    requires CountSince(window, WindowStart(now, seconds)) == limit > 0
    ensures GateOpen(window, now + wait, seconds, limit) <==> wait >= RetryAfter(window, now, seconds)
  {
    var start := WindowStart(now, seconds);
    var oldest := OldestSince(window, start, now);
    OldestMeaning(window, start, now);
    OldestIsPast(window, start, now);
    var later := WindowStart(now + wait, seconds);
    if wait >= RetryAfter(window, now, seconds) {
      assert later >= oldest + 1;
      CountMonotone(window, oldest + 1, later);
    } else {
      assert later <= oldest;
      CountMonotone(window, later, oldest);
    }
  }

  lemma {:induction false} OldestIsPast(window: seq<Event>, start: nat, now: nat)
    requires Past(window, now)
    ensures OldestSince(window, start, now) <= now
  {
    if window != [] {
      OldestIsPast(window[1..], start, now);
    }
  }

  /** A limit of zero never lets a request through, whatever is advertised. */
  lemma ZeroLimitNeverOpens(window: seq<Event>, now: nat, wait: nat)
    ensures !GateOpen(window, now + wait, MINUTE, 0)
  {
  }
}
