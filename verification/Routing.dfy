/** Upstream selection (src/routing.rs): weighted round-robin within the highest tier, and the priority pick. */
module Routing {
  import opened Collections
  import opened Ordering

  datatype Protocol = ChatCompletions | Responses

  datatype Candidate = Candidate(id: string, protocol: Protocol, models: seq<string>, priority: nat, weight: nat,
                                 failures: nat)

  datatype RouteError = ModelUnavailable(model: string) | NoHealthyUpstream(model: string)

  // ---- Weighted round-robin ----

  function HighestPriority(candidates: seq<Candidate>): (highest: nat)
    requires candidates != []
    ensures forall i | 0 <= i < |candidates| :: candidates[i].priority <= highest
    ensures exists i :: 0 <= i < |candidates| && candidates[i].priority == highest
  {
    var last := candidates[|candidates| - 1].priority;
    if |candidates| == 1 then last
    else
      var rest := HighestPriority(candidates[..|candidates| - 1]);
      assert candidates[|candidates| - 1].priority == last;
      if rest < last then last else rest
  }

  /** Positions of the highest tier with a weight of at least `least`, in order. */
  function Tier(candidates: seq<Candidate>, priority: nat, least: nat): seq<nat> {
    if candidates == [] then []
    else
      var n := |candidates| - 1;
      Tier(candidates[..n], priority, least)
      + if candidates[n].priority == priority && candidates[n].weight >= least then [n] else []
  }

  function WeightsOf(candidates: seq<Candidate>, positions: seq<nat>): seq<nat>
    requires forall i | 0 <= i < |positions| :: positions[i] < |candidates|
  {
    seq(|positions|, i requires 0 <= i < |positions| => candidates[positions[i]].weight)
  }

  function Total(weights: seq<nat>): nat {
    if weights == [] then 0 else weights[0] + Total(weights[1..])
  }

  /** The member whose share of the cumulative weights contains the bucket. */
  function Share(weights: seq<nat>, bucket: nat): Option<nat> {
    if weights == [] then None
    else if bucket < weights[0] then Some(0)
    else match Share(weights[1..], bucket - weights[0])
      case None => None
      case Some(i) => Some(i + 1)
  }

  lemma {:induction false} TierMeaning(candidates: seq<Candidate>, priority: nat, least: nat)
    ensures var tier := Tier(candidates, priority, least);
            && (forall i | 0 <= i < |tier| ::
                  tier[i] < |candidates| && candidates[tier[i]].priority == priority && candidates[tier[i]].weight >= least)
            && (forall i, j | 0 <= i < j < |tier| :: tier[i] < tier[j])
            && (forall k | 0 <= k < |candidates| && candidates[k].priority == priority && candidates[k].weight >= least
                  :: k in tier)
  {
    if candidates != [] {
      var n := |candidates| - 1;
      TierMeaning(candidates[..n], priority, least);
      forall k | 0 <= k < |candidates| && candidates[k].priority == priority && candidates[k].weight >= least
        ensures k in Tier(candidates, priority, least)
      {
        if k < n {
          assert candidates[..n][k] == candidates[k];
          assert k in Tier(candidates[..n], priority, least);
        }
      }
    }
  }

  /** The positive-weight members of the highest tier. */
  function Members(candidates: seq<Candidate>): (members: seq<nat>)
    requires candidates != []
    ensures forall i | 0 <= i < |members| :: members[i] < |candidates| && candidates[members[i]].weight > 0
  {
    TierMeaning(candidates, HighestPriority(candidates), 1);
    Tier(candidates, HighestPriority(candidates), 1)
  }

  lemma MembersHaveWeight(candidates: seq<Candidate>)
    requires candidates != [] && Members(candidates) != []
    ensures Total(WeightsOf(candidates, Members(candidates))) > 0
  {
    var members := Members(candidates);
    assert WeightsOf(candidates, members)[0] == candidates[members[0]].weight;
  }

  /** What the pick comes to. */
  function Pick(candidates: seq<Candidate>, cursor: nat): Option<nat> {
    if candidates == [] then None
    else
      var members := Members(candidates);
      if members == [] then
        TierMeaning(candidates, HighestPriority(candidates), 0);
        HighestTierExists(candidates);
        Some(Tier(candidates, HighestPriority(candidates), 0)[0])
      else
        var weights := WeightsOf(candidates, members);
        MembersHaveWeight(candidates);
        match Share(weights, cursor % Total(weights))
        case None => None
        case Some(i) => if i < |members| then Some(members[i]) else None
  }

  lemma HighestTierExists(candidates: seq<Candidate>)
    requires candidates != []
    ensures Tier(candidates, HighestPriority(candidates), 0) != []
  {
    TierMeaning(candidates, HighestPriority(candidates), 0);
  }

  lemma {:induction false} ShareExists(weights: seq<nat>, bucket: nat)
    requires bucket < Total(weights)
    ensures Share(weights, bucket).Some? && Share(weights, bucket).value < |weights|
    ensures weights[Share(weights, bucket).value] > 0
  {
    if bucket >= weights[0] {
      ShareExists(weights[1..], bucket - weights[0]);
    }
  }

  /** `select_weighted_candidate_index`; the line after the loop is never reached. */
  method SelectWeightedCandidateIndex(candidates: seq<Candidate>, cursor: nat) returns (picked: Option<nat>)
    ensures picked == Pick(candidates, cursor)
  {
    if candidates == [] {
      return None;
    }
    var highest := HighestPriority(candidates);
    var positive := Members(candidates);
    if positive == [] {
      HighestTierExists(candidates);
      return Some(Tier(candidates, highest, 0)[0]);
    }
    var weights := WeightsOf(candidates, positive);
    MembersHaveWeight(candidates);
    var bucket := cursor % Total(weights);
    ghost var start := bucket;
    ShareExists(weights, start);
    var i := 0;
    assert weights[0..] == weights;
    while i < |positive|
      invariant 0 <= i <= |positive|
      invariant 0 <= bucket < Total(weights[i..])
      invariant Share(weights[i..], bucket).Some?
      invariant Share(weights, start) == Some(Share(weights[i..], bucket).value + i)
    {
      assert weights[i..][0] == weights[i] && weights[i..][1..] == weights[i + 1..];
      if bucket < weights[i] {
        return Some(positive[i]);
      }
      bucket := bucket - weights[i];
      i := i + 1;
    }
    assert false; // the fallback to the first member is never needed
    return None;
  }

  // ---- Fairness ----

  /** How many of `n` consecutive cursors from `from` on pick position `k`. */
  function PickCount(candidates: seq<Candidate>, k: nat, from: nat, n: nat): nat {
    if n == 0 then 0
    else PickCount(candidates, k, from, n - 1) + if Pick(candidates, from + n - 1) == Some(k) then 1 else 0
  }

  function ShareCount(weights: seq<nat>, i: nat, n: nat): nat {
    if n == 0 then 0 else ShareCount(weights, i, n - 1) + if Share(weights, n - 1) == Some(i) then 1 else 0
  }

  /** Within its own share a member is picked every time. */
  lemma {:induction false} HeadShare(weights: seq<nat>, i: nat, n: nat)
    requires weights != [] && n <= weights[0]
    ensures ShareCount(weights, i, n) == if i == 0 then n else 0
  {
    if n > 0 {
      HeadShare(weights, i, n - 1);
    }
  }

  lemma {:induction false} TailShare(weights: seq<nat>, i: nat, n: nat)
    requires weights != []
    ensures ShareCount(weights, i, weights[0] + n)
         == if i == 0 then weights[0] else ShareCount(weights[1..], i - 1, n)
  {
    if n == 0 {
      HeadShare(weights, i, weights[0]);
    } else {
      TailShare(weights, i, n - 1);
      var bucket := weights[0] + n - 1;
      assert bucket - weights[0] == n - 1;
      assert Share(weights, bucket) == match Share(weights[1..], n - 1) case None => None case Some(j) => Some(j + 1);
    }
  }

  /** Over one full turn each member is picked exactly as often as it weighs. */
  lemma {:induction false} FullTurn(weights: seq<nat>, i: nat)
    ensures ShareCount(weights, i, Total(weights)) == if i < |weights| then weights[i] else 0
  {
    if weights != [] {
      TailShare(weights, i, Total(weights[1..]));
      if i > 0 {
        FullTurn(weights[1..], i - 1);
      }
    }
  }

  /** A cursor one full turn later picks the same. */
  lemma PickIsPeriodic(candidates: seq<Candidate>, cursor: nat)
    requires candidates != [] && Members(candidates) != []
    ensures Pick(candidates, cursor + Total(WeightsOf(candidates, Members(candidates)))) == Pick(candidates, cursor)
  {
    var total := Total(WeightsOf(candidates, Members(candidates)));
    MembersHaveWeight(candidates);
    Wraps(cursor, total);
  }

  lemma Wraps(cursor: nat, total: nat)
    requires total > 0
    ensures (cursor + total) % total == cursor % total
  {
    var more := (cursor + total) / total - cursor / total - 1;
    assert more * total == cursor % total - (cursor + total) % total by {
      assert cursor == cursor / total * total + cursor % total;
      assert cursor + total == (cursor + total) / total * total + (cursor + total) % total;
      Distribute((cursor + total) / total, cursor / total, total);
    }
    OnlyZeroIsSmall(more, total);
  }

  lemma Distribute(a: int, b: int, total: int)
    ensures (a - b - 1) * total == a * total - b * total - total
  {
  }

  lemma AtLeastTotal(d: nat, total: nat)
    requires d >= 1
    ensures d * total >= total
  {
    assert (d - 1) * total >= 0;
  }

  lemma OnlyZeroIsSmall(d: int, total: int)
    requires total > 0 && -total < d * total < total
    ensures d == 0
  {
    if d >= 1 {
      AtLeastTotal(d, total);
    } else if d <= -1 {
      assert -d * total == -(d * total);
      AtLeastTotal(-d, total);
    }
  }

  /** The window of cursors can be slid by one. */
  lemma {:induction false} DropFirst(candidates: seq<Candidate>, k: nat, from: nat, n: nat)
    ensures PickCount(candidates, k, from, n + 1)
         == PickCount(candidates, k, from + 1, n) + if Pick(candidates, from) == Some(k) then 1 else 0
  {
    hide Pick;
    if n > 0 {
      DropFirst(candidates, k, from, n - 1);
      assert from + 1 + n - 1 == from + n;
    }
  }

  lemma {:induction false} StartIsImmaterial(candidates: seq<Candidate>, k: nat, from: nat)
    requires candidates != [] && Members(candidates) != []
    ensures var total := Total(WeightsOf(candidates, Members(candidates)));
            PickCount(candidates, k, from, total) == PickCount(candidates, k, 0, total)
  {
    if from > 0 {
      var total := Total(WeightsOf(candidates, Members(candidates)));
      StartIsImmaterial(candidates, k, from - 1);
      PickIsPeriodic(candidates, from - 1);
      DropFirst(candidates, k, from - 1, total);
      hide Pick, Members, Total;
      assert from - 1 + (total + 1) - 1 == from - 1 + total;
    }
  }

  /** Cursors below the total fall where the shares say. */
  lemma {:induction false} FirstTurn(candidates: seq<Candidate>, i: nat, n: nat)
    requires candidates != [] && Members(candidates) != [] && i < |Members(candidates)|
    requires n <= Total(WeightsOf(candidates, Members(candidates)))
    ensures PickCount(candidates, Members(candidates)[i], 0, n)
         == ShareCount(WeightsOf(candidates, Members(candidates)), i, n)
  {
    if n > 0 {
      FirstTurn(candidates, i, n - 1);
      PickInTurn(candidates, i, n - 1);
      hide Pick, Members, Share;
      assert 0 + n - 1 == n - 1;
    }
  }

  lemma PickInTurn(candidates: seq<Candidate>, i: nat, cursor: nat)
    requires candidates != [] && Members(candidates) != [] && i < |Members(candidates)|
    requires cursor < Total(WeightsOf(candidates, Members(candidates)))
    ensures Pick(candidates, cursor) == Some(Members(candidates)[i])
       <==> Share(WeightsOf(candidates, Members(candidates)), cursor) == Some(i)
  {
    var members, weights := Members(candidates), WeightsOf(candidates, Members(candidates));
    TierMeaning(candidates, HighestPriority(candidates), 1);
    ShareExists(weights, cursor);
    Below(cursor, Total(weights));
    var j := Share(weights, cursor).value;
    hide Share, Total, HighestPriority;
    assert Pick(candidates, cursor) == Some(members[j]);
    assert j != i ==> members[j] != members[i];
  }

  lemma Below(cursor: nat, total: nat)
    requires cursor < total
    ensures cursor % total == cursor
  {
  }

  /** Over any `total` consecutive cursors each positive-weight member of the highest tier is picked exactly as often
      as it weighs. */
  lemma RoundRobinIsFair(candidates: seq<Candidate>, i: nat, from: nat)
    requires candidates != [] && i < |Members(candidates)|
    ensures var total := Total(WeightsOf(candidates, Members(candidates)));
            PickCount(candidates, Members(candidates)[i], from, total) == candidates[Members(candidates)[i]].weight
  {
    var weights := WeightsOf(candidates, Members(candidates));
    StartIsImmaterial(candidates, Members(candidates)[i], from);
    FirstTurn(candidates, i, Total(weights));
    FullTurn(weights, i);
  }

  /** When the highest tier weighs nothing, its first member is picked. */
  lemma WeightlessTier(candidates: seq<Candidate>)
    requires candidates != [] && Members(candidates) == []
    ensures var highest := HighestPriority(candidates);
            && Tier(candidates, highest, 0) != []
            && var k := Tier(candidates, highest, 0)[0];
               k < |candidates| && candidates[k].priority == highest
               && forall i | 0 <= i < |candidates| && candidates[i].priority == highest
                    :: candidates[i].weight == 0 && k <= i
  {
    var highest := HighestPriority(candidates);
    TierMeaning(candidates, highest, 1);
    TierMeaning(candidates, highest, 0);
    HighestTierExists(candidates);
    hide Tier, HighestPriority;
    var k := Tier(candidates, highest, 0)[0];
    assert k in Tier(candidates, highest, 0);
    forall i: nat | i < |candidates| && candidates[i].priority == highest
      ensures candidates[i].weight == 0 && k <= i
    {
      assert i in Tier(candidates, highest, 0);
    }
  }

  lemma MembersInTier(candidates: seq<Candidate>)
    requires candidates != []
    ensures forall k | k in Members(candidates) ::
              k < |candidates| && candidates[k].priority == HighestPriority(candidates) && candidates[k].weight > 0
  {
    TierMeaning(candidates, HighestPriority(candidates), 1);
    hide Tier, HighestPriority;
  }

  /** Otherwise the picked member has weight. */
  lemma WeightyPick(candidates: seq<Candidate>, cursor: nat)
    requires candidates != [] && Members(candidates) != []
    ensures Pick(candidates, cursor).Some?
    ensures var k := Pick(candidates, cursor).value;
            k < |candidates| && candidates[k].priority == HighestPriority(candidates) && candidates[k].weight > 0
  {
    MembersInTier(candidates);
    var k := PickIsMember(candidates, cursor);
    hide Pick, Members, HighestPriority;
  }

  lemma PickIsMember(candidates: seq<Candidate>, cursor: nat) returns (k: nat)
    requires candidates != [] && Members(candidates) != []
    ensures Pick(candidates, cursor) == Some(k) && k in Members(candidates)
  {
    MembersHaveWeight(candidates);
    hide Tier, Share, Total, HighestPriority, WeightsOf, Members;
    var members, weights := Members(candidates), WeightsOf(candidates, Members(candidates));
    OneWeightEach(candidates, members);
    var bucket := cursor % Total(weights);
    ShareExists(weights, bucket);
    k := members[Share(weights, bucket).value];
  }

  lemma OneWeightEach(candidates: seq<Candidate>, positions: seq<nat>)
    requires forall i | 0 <= i < |positions| :: positions[i] < |candidates|
    ensures |WeightsOf(candidates, positions)| == |positions|
  {
  }

  /** Something is picked unless there is nothing to pick from: a positive-weight member of the highest tier, or, when
      the whole tier weighs nothing, its first member. */
  lemma PickIsInHighestTier(candidates: seq<Candidate>, cursor: nat)
    ensures Pick(candidates, cursor).None? <==> candidates == []
    ensures Pick(candidates, cursor).Some? ==>
      var k := Pick(candidates, cursor).value;
      && k < |candidates|
      && (forall i | 0 <= i < |candidates| :: candidates[i].priority <= candidates[k].priority)
      && (candidates[k].weight == 0 ==>
            forall i | 0 <= i < |candidates| && candidates[i].priority == candidates[k].priority ::
              candidates[i].weight == 0 && k <= i)
  {
    if candidates != [] {
      HighestTierExists(candidates);
      if Members(candidates) == [] {
        WeightlessTier(candidates);
      } else {
        WeightyPick(candidates, cursor);
        hide Pick, Members;
      }
      hide Tier, HighestPriority, Share, Total, WeightsOf;
    }
  }

  // ---- The priority pick ----

  /** Higher priority first, then fewer failures. */
  predicate Preferred(a: Candidate, b: Candidate) {
    a.priority > b.priority || (a.priority == b.priority && a.failures < b.failures)
  }

  predicate Healthy(c: Candidate) {
    c.failures < 3
  }

  /** Candidates of the protocol that serve the model; `equivalent` is the configured model-name comparison. */
  function Serves(protocol: Protocol, model: string, equivalent: (string, string) -> bool): Candidate -> bool {
    (c: Candidate) => c.protocol == protocol && exists i :: 0 <= i < |c.models| && equivalent(c.models[i], model)
  }

  /** The first healthy candidate of the list. */
  method FindHealthy(preferred: seq<Candidate>) returns (found: Option<Candidate>)
    ensures found.None? <==> forall i | 0 <= i < |preferred| :: !Healthy(preferred[i])
    ensures found.Some? ==> Filter(preferred, Healthy) != [] && Filter(preferred, Healthy)[0] == found.value
  {
    hide Filter;
    var i := 0;
    NothingToKeep(preferred[..0], Healthy);
    while i < |preferred|
      invariant 0 <= i <= |preferred| && Filter(preferred[..i], Healthy) == []
      invariant forall k | 0 <= k < i :: !Healthy(preferred[k])
    {
      assert preferred[..i + 1] == preferred[..i] + [preferred[i]];
      FilterSnoc(preferred[..i], preferred[i], Healthy);
      if Healthy(preferred[i]) {
        FilterPrefix(preferred, i + 1, Healthy);
        return Some(preferred[i]);
      }
      i := i + 1;
    }
    return None;
  }

  /** The first healthy candidate of the sorted list is the best healthy one of the list as it came. */
  lemma SortedPick(supported: seq<Candidate>)
    ensures var preferred := SortBy(supported, Preferred);
            && multiset(preferred) == multiset(supported)
            && (Filter(preferred, Healthy) != [] ==>
                  FirstBest(Filter(supported, Healthy), Preferred) == Some(Filter(preferred, Healthy)[0]))
  {
    PreferredOrders();
    hide Filter, SortBy, FirstBest, Preferred;
    SortBySorts(supported, Preferred);
    FilterSort(supported, Healthy, Preferred);
    SortedHead(Filter(supported, Healthy), Preferred);
  }

  /** `select_upstream_with_model_matching`: filter, sort, take the first healthy one. */
  method SelectUpstream(candidates: seq<Candidate>, protocol: Protocol, model: string,
                        equivalent: (string, string) -> bool)
    returns (result: Result<Candidate, RouteError>)
    ensures var supported := Filter(candidates, Serves(protocol, model, equivalent));
            match result
            case Ok(c) => FirstBest(Filter(supported, Healthy), Preferred) == Some(c)
            case Err(ModelUnavailable(m)) => m == model && supported == []
            case Err(NoHealthyUpstream(m)) =>
              m == model && supported != [] && forall i | 0 <= i < |supported| :: !Healthy(supported[i])
  {
    hide Filter, SortBy, FirstBest, Preferred, Serves, Healthy;
    var supported := Filter(candidates, Serves(protocol, model, equivalent));
    if supported == [] {
      return Err(ModelUnavailable(model));
    }
    var preferred := SortBy(supported, Preferred);
    SortedPick(supported);
    var found := FindHealthy(preferred);
    if found.Some? {
      return Ok(found.value);
    }
    forall k | 0 <= k < |supported|
      ensures !Healthy(supported[k])
    {
      assert supported[k] in multiset(preferred);
    }
    return Err(NoHealthyUpstream(model));
  }

  lemma PreferredOrders()
    ensures WeakOrder(Preferred)
  {
  }

  lemma FilterPrefix<T>(s: seq<T>, n: nat, keeps: T -> bool)
    requires n <= |s|
    ensures Filter(s[..n], keeps) <= Filter(s, keeps)
  {
    if n < |s| {
      FilterPrefix(s[..|s| - 1], n, keeps);
      assert s[..|s| - 1][..n] == s[..n];
    } else {
      assert s[..n] == s;
    }
  }

  /** The pick is the healthy supporting candidate of the highest priority, among those the one with the fewest
      failures, among those the first as listed. */
  lemma FirstBestMeaning(candidates: seq<Candidate>)
    requires candidates != []
    ensures exists k :: 0 <= k < |candidates| && FirstBest(candidates, Preferred) == Some(candidates[k])
              && (forall i | 0 <= i < |candidates| :: !Preferred(candidates[i], candidates[k]))
              && (forall i | 0 <= i < k :: Preferred(candidates[k], candidates[i]))
  {
    var k := FirstBestAt(candidates, Preferred);
  }

  /** The candidate speaks the protocol and serves the model. */
  ghost predicate Offers(c: Candidate, protocol: Protocol, model: string, equivalent: (string, string) -> bool) {
    c.protocol == protocol && exists name :: name in c.models && equivalent(name, model)
  }

  /** Better: a higher priority, or the same one with fewer failures. */
  predicate Better(a: Candidate, b: Candidate) {
    a.priority > b.priority || (a.priority == b.priority && a.failures < b.failures)
  }

  lemma ServesIff(c: Candidate, protocol: Protocol, model: string, equivalent: (string, string) -> bool)
    ensures Serves(protocol, model, equivalent)(c) <==> Offers(c, protocol, model, equivalent)
  {
    if Offers(c, protocol, model, equivalent) {
      var name :| name in c.models && equivalent(name, model);
      var i :| 0 <= i < |c.models| && c.models[i] == name;
    }
  }

  /** The candidate at `k` is the best one that fits. */
  ghost predicate BestAt(s: seq<Candidate>, fits: Candidate -> bool, k: nat) {
    && k < |s| && fits(s[k])
    && forall i | 0 <= i < |s| && fits(s[i]) :: !Better(s[i], s[k]) && (i < k ==> Better(s[k], s[i]))
  }

  lemma BestSnoc(s: seq<Candidate>, last: Candidate, fits: Candidate -> bool, k: nat)
    requires BestAt(s, fits, k)
    ensures BestAt(s + [last], fits, if fits(last) && Better(last, s[k]) then |s| else k)
  {
  }

  lemma FirstBestSnoc(s: seq<Candidate>, last: Candidate)
    ensures FirstBest(s + [last], Preferred) == match FirstBest(s, Preferred)
              case None => Some(last)
              case Some(best) => if Better(last, best) then Some(last) else Some(best)
    ensures FirstBest(s, Preferred).None? <==> s == []
  {
    assert (s + [last])[..|s|] == s;
  }

  ghost predicate NoneFits(s: seq<Candidate>, fits: Candidate -> bool) {
    forall i | 0 <= i < |s| :: !fits(s[i])
  }

  lemma FirstFit(s: seq<Candidate>, last: Candidate, fits: Candidate -> bool)
    requires NoneFits(s, fits)
    ensures if fits(last) then BestAt(s + [last], fits, |s|) else NoneFits(s + [last], fits)
  {
  }

  /** The best element of a filtered list, and where it stood. */
  lemma {:induction false} BestFit(s: seq<Candidate>, fits: Candidate -> bool) returns (k: nat)
    ensures FirstBest(Filter(s, fits), Preferred).None? ==> NoneFits(s, fits)
    ensures FirstBest(Filter(s, fits), Preferred).Some? ==>
      BestAt(s, fits, k) && k < |s| && FirstBest(Filter(s, fits), Preferred) == Some(s[k])
  {
    hide Filter, FirstBest, BestAt, NoneFits, Better;
    k := 0;
    if s == [] {
      NoBest(s, fits);
    } else {
      var init, last := s[..|s| - 1], s[|s| - 1];
      assert s == init + [last];
      k := BestFit(init, fits);
      FilterSnoc(init, last, fits);
      FirstBestSnoc(Filter(init, fits), last);
      if FirstBest(Filter(init, fits), Preferred).None? {
        FirstFit(init, last, fits);
        k := |init|;
      } else {
        BestSnoc(init, last, fits, k);
        if fits(last) && Better(last, init[k]) {
          k := |init|;
        }
      }
    }
  }

  lemma NoBest(s: seq<Candidate>, fits: Candidate -> bool)
    requires s == []
    ensures FirstBest(Filter(s, fits), Preferred).None? && NoneFits(s, fits)
  {
  }

  lemma {:induction false} FilterTwice(s: seq<Candidate>, first: Candidate -> bool, second: Candidate -> bool,
                                       both: Candidate -> bool)
    requires forall c :: both(c) <==> first(c) && second(c)
    ensures Filter(Filter(s, first), second) == Filter(s, both)
  {
    hide Filter;
    if s == [] {
      NothingToKeep(s, first);
      NothingToKeep(s, both);
      NothingToKeep(Filter(s, first), second);
    } else {
      var init, last := s[..|s| - 1], s[|s| - 1];
      assert s == init + [last];
      FilterTwice(init, first, second, both);
      FilterSnoc(init, last, first);
      FilterSnoc(init, last, both);
      FilterSnoc(Filter(init, first), last, second);
    }
  }

  /** Main result on selection, in plain terms: with no candidate that offers the model, or none of those with fewer
      than three failures, nothing is selected; otherwise a candidate that offers it with fewer than three failures,
      to which no other such one is preferable by priority and then by failures, and all earlier such ones are
      worse. */
  lemma SelectionIs(candidates: seq<Candidate>, protocol: Protocol, model: string, equivalent: (string, string) -> bool)
    returns (k: nat)
    ensures var supported := Filter(candidates, Serves(protocol, model, equivalent));
            var pick := FirstBest(Filter(supported, Healthy), Preferred);
            && (supported == [] <==> forall i | 0 <= i < |candidates| :: !Offers(candidates[i], protocol, model,
                                                                                 equivalent))
            && (pick.None? <==> forall i | 0 <= i < |candidates| ::
                  Offers(candidates[i], protocol, model, equivalent) ==> candidates[i].failures >= 3)
            && (pick.Some? ==>
                  && k < |candidates| && pick == Some(candidates[k])
                  && Offers(candidates[k], protocol, model, equivalent) && candidates[k].failures < 3
                  && forall i | 0 <= i < |candidates| && Offers(candidates[i], protocol, model, equivalent)
                                && candidates[i].failures < 3 ::
                       !Better(candidates[i], candidates[k]) && (i < k ==> Better(candidates[k], candidates[i])))
  {
    var serves := Serves(protocol, model, equivalent);
    var fits := (c: Candidate) => serves(c) && Healthy(c);
    forall i | 0 <= i < |candidates|
      ensures serves(candidates[i]) <==> Offers(candidates[i], protocol, model, equivalent)
    {
      ServesIff(candidates[i], protocol, model, equivalent);
    }
    k := BestFit(candidates, fits);
    FilterTwice(candidates, serves, Healthy, fits);
    FilterNone(candidates, serves);
    hide Serves, Offers, Better, Filter, FirstBest;
  }

  lemma FilterNone(s: seq<Candidate>, keeps: Candidate -> bool)
    ensures Filter(s, keeps) == [] <==> forall i | 0 <= i < |s| :: !keeps(s[i])
  {
    hide Filter;
    if i :| 0 <= i < |s| && keeps(s[i]) {
      assert s[i] in Filter(s, keeps);
    } else if Filter(s, keeps) != [] {
      assert Filter(s, keeps)[0] in s;
    }
  }
}
