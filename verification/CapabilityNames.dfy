/** Overrides and their names (src/capabilities/policy.rs, src/capabilities/resolver.rs): where the order in which
    they were written and the ids they carry are immaterial, and where they decide. */
module CapabilityNames {
  import opened Collections
  import opened Ordering
  import opened RankedRules
  import opened Text
  import opened CapabilityPolicy
  import opened CapabilitySemantics
  import opened CapabilityResolver

  // ---- Rewriting a configuration ----

  function Nameless(o: Override): Override {
    o.(id := "")
  }

  function NamelessAll(overrides: seq<Override>): seq<Override> {
    seq(|overrides|, i requires 0 <= i < |overrides| => Nameless(overrides[i]))
  }

  /** The same overrides in any order and under any names; everything else as it was. */
  ghost predicate Rewrites(config: Configuration, other: Configuration) {
    && other.policies == config.policies && other.tagAssignments == config.tagAssignments
    && multiset(NamelessAll(other.overrides)) == multiset(NamelessAll(config.overrides))
  }

  ghost predicate IgnoresName<V(!new)>(get: Override -> Option<V>) {
    forall o: Override :: get(o) == get(Nameless(o))
  }

  function Written(config: Configuration, route: Route): seq<Override> {
    Filter(config.overrides, SelectsOverride(route))
  }

  /** What the overrides of a configuration set for a route. */
  function ValueFor<V>(config: Configuration, route: Route, get: Override -> Option<V>): Option<V> {
    LastSet(OverridesFor(CompiledFrom(config), route), get)
  }

  lemma NamelessMatches(a: Override, b: Override, route: Route)
    requires Nameless(a) == Nameless(b)
    ensures OverrideRank(a) == OverrideRank(b) && SelectsOverride(route)(a) == SelectsOverride(route)(b)
  {
    hide Matches, Specificity;
    assert a.selector == Nameless(a).selector == b.selector && a.priority == Nameless(a).priority == b.priority;
  }

  lemma NamelessTwin(left: seq<Override>, right: seq<Override>, a: Override) returns (b: Override)
    requires multiset(NamelessAll(left)) == multiset(NamelessAll(right)) && a in left
    ensures b in right && Nameless(a) == Nameless(b)
  {
    var i :| 0 <= i < |left| && left[i] == a;
    assert NamelessAll(left)[i] in multiset(NamelessAll(right));
    var j :| 0 <= j < |right| && NamelessAll(right)[j] == Nameless(a);
    b := right[j];
  }

  lemma WrittenMirror<V(!new)>(left: Configuration, right: Configuration, route: Route, get: Override -> Option<V>)
    requires multiset(NamelessAll(left.overrides)) == multiset(NamelessAll(right.overrides)) && IgnoresName(get)
    ensures Mirrors(Written(left, route), Written(right, route), OverrideRank, get)
  {
    hide SelectsOverride, OverrideRank, Nameless;
    var mine, theirs := Written(left, route), Written(right, route);
    forall i | 0 <= i < |mine|
      ensures HasMirror(mine[i], theirs, OverrideRank, get)
    {
      assert mine[i] in left.overrides && SelectsOverride(route)(mine[i]);
      var twin := NamelessTwin(left.overrides, right.overrides, mine[i]);
      NamelessMatches(mine[i], twin, route);
      var k :| 0 <= k < |right.overrides| && right.overrides[k] == twin;
      assert twin in theirs;
      var j :| 0 <= j < |theirs| && theirs[j] == twin;
      assert get(mine[i]) == get(Nameless(mine[i])) == get(theirs[j]);
    }
  }

  lemma MirrorsThrough<R, V>(a: seq<R>, b: seq<R>, c: seq<R>, rank: R -> Rank, get: R -> Option<V>)
    requires Mirrors(a, b, rank, get) && Mirrors(b, c, rank, get)
    ensures Mirrors(a, c, rank, get)
  {
    hide Mirrors;
    forall i | 0 <= i < |a|
      ensures HasMirror(a[i], c, rank, get)
    {
      var j := MirrorOf(a, b, rank, get, i);
      var k := MirrorOf(b, c, rank, get, j);
    }
    assert Mirrors(a, c, rank, get) by {
      MirrorsIf(a, c, rank, get);
    }
  }

  lemma MirrorsIf<R, V>(a: seq<R>, c: seq<R>, rank: R -> Rank, get: R -> Option<V>)
    requires forall i | 0 <= i < |a| :: HasMirror(a[i], c, rank, get)
    ensures Mirrors(a, c, rank, get)
  {
  }

  /** The overrides a rewritten configuration gives for the route, in rank order, beside the original's as written. */
  lemma RewrittenMirror<V(!new)>(config: Configuration, other: Configuration, route: Route, get: Override -> Option<V>)
    requires Rewrites(config, other) && IgnoresName(get)
    ensures var sorted, written := OverridesFor(CompiledFrom(other), route), Written(config, route);
            && ByRank(sorted, OverrideRank)
            && Mirrors(sorted, written, OverrideRank, get) && Mirrors(written, sorted, OverrideRank, get)
  {
    MatchingOverrides(other, route);
    var sorted, theirs, written := OverridesFor(CompiledFrom(other), route), Written(other, route), Written(config,
                                                                                                            route);
    hide Filter, OverridesFor, OverrideRank;
    SameMembersMirror(sorted, theirs, OverrideRank, get);
    SameMembersMirror(theirs, sorted, OverrideRank, get);
    WrittenMirror(other, config, route, get);
    WrittenMirror(config, other, route, get);
    hide Mirrors;
    MirrorsThrough(sorted, theirs, written, OverrideRank, get);
    MirrorsThrough(written, theirs, sorted, OverrideRank, get);
  }

  // ---- Immaterial names ----

  lemma DecidedOnce<R, V>(rules: seq<R>, rank: R -> Rank, get: R -> Option<V>, one: Option<V>, two: Option<V>)
    requires Decided(rules, rank, get, one) && Decided(rules, rank, get, two)
    ensures one == two
  {
    hide Wins;
  }

  /** Where the winning overrides agree, neither their order nor their names matter. */
  lemma NamesImmaterial<V(!new)>(config: Configuration, other: Configuration, route: Route, get: Override -> Option<V>)
    requires Rewrites(config, other) && IgnoresName(get)
    requires WinnersAgree(Written(config, route), OverrideRank, get)
    ensures ValueFor(other, route, get) == ValueFor(config, route, get)
  {
    RewrittenMirror(config, other, route, get);
    RewrittenMirror(config, config, route, get);
    var written := Written(config, route);
    hide Filter, OverridesFor, OverrideRank, LastSet, Mirrors, ByRank, WinnersAgree, Decided;
    AgreeingWinnersDecide(OverridesFor(CompiledFrom(other), route), written, OverrideRank, get);
    AgreeingWinnersDecide(OverridesFor(CompiledFrom(config), route), written, OverrideRank, get);
    DecidedOnce(written, OverrideRank, get, ValueFor(other, route, get), ValueFor(config, route, get));
  }

  lemma AgreementOfWinners<R, V>(rules: seq<R>, rank: R -> Rank, get: R -> Option<V>)
    requires Agree(rules, rank, get)
    ensures WinnersAgree(rules, rank, get)
  {
    forall i, j | Wins(rules, rank, get, i) && Wins(rules, rank, get, j)
      ensures get(rules[i]) == get(rules[j])
    {
      assert rank(rules[i]) == rank(rules[j]);
    }
  }

  lemma WrittenDrawn(config: Configuration, route: Route)
    ensures OverridesDrawn(config, route, Written(config, route))
  {
  }

  /** With the overrides of a conflict-free configuration, the whole resolution is the same whatever the order and the
      names of the overrides. */
  lemma OverrideNamesImmaterial(config: Configuration, other: Configuration, input: Input)
    requires ConflictFree(config) && Rewrites(config, other)
    ensures Layered(input.(overrides := OverridesFor(CompiledFrom(other), input.route)))
         == Layered(input.(overrides := OverridesFor(CompiledFrom(config), input.route)))
  {
    var mine, theirs := OverridesFor(CompiledFrom(config), input.route), OverridesFor(CompiledFrom(other), input.route);
    WrittenDrawn(config, input.route);
    hide Filter, OverridesFor, OverrideRank, LastSet, Fallback, ConflictFree, OverridesDrawn, Agree, Rewrites;
    hide EvidenceOf, TokenOf, CarrierOf, CorrectionsOf;
    forall c: Capability
      ensures LastSet(theirs, EvidenceOf(c)) == LastSet(mine, EvidenceOf(c))
    {
      FieldImmaterial(config, other, input.route, c);
    }
    FieldImmaterial(config, other, input.route, TextInput);
    FallbackUnmoved(input, mine);
    FallbackUnmoved(input, theirs);
    SameOverlay(input, mine, theirs);
  }

  lemma NamesIgnored(c: Capability)
    ensures IgnoresName(EvidenceOf(c)) && IgnoresName(TokenOf()) && IgnoresName(CarrierOf())
    ensures IgnoresName(CorrectionsOf()) && IgnoresName(ControlOf())
  {
  }

  lemma FieldImmaterial(config: Configuration, other: Configuration, route: Route, c: Capability)
    requires ConflictFree(config) && Rewrites(config, other)
    ensures ValueFor(other, route, EvidenceOf(c)) == ValueFor(config, route, EvidenceOf(c))
    ensures ValueFor(other, route, TokenOf()) == ValueFor(config, route, TokenOf())
    ensures ValueFor(other, route, CarrierOf()) == ValueFor(config, route, CarrierOf())
    ensures ValueFor(other, route, CorrectionsOf()) == ValueFor(config, route, CorrectionsOf())
  {
    var written := Written(config, route);
    WrittenDrawn(config, route);
    NamesIgnored(c);
    hide EvidenceOf, TokenOf, CarrierOf, CorrectionsOf, OverrideRank, ConflictFree, Rewrites, Agree, WinnersAgree;
    hide IgnoresName, OverridesDrawn, Written, ValueFor;
    OverrideFieldsAgree(config, route, written, c);
    AgreementOfWinners(written, OverrideRank, EvidenceOf(c));
    AgreementOfWinners(written, OverrideRank, TokenOf());
    AgreementOfWinners(written, OverrideRank, CarrierOf());
    AgreementOfWinners(written, OverrideRank, CorrectionsOf());
    NamesImmaterial(config, other, route, EvidenceOf(c));
    NamesImmaterial(config, other, route, TokenOf());
    NamesImmaterial(config, other, route, CarrierOf());
    NamesImmaterial(config, other, route, CorrectionsOf());
  }

  lemma FallbackUnmoved(input: Input, overrides: seq<Override>)
    ensures Fallback(input.(overrides := overrides)) == Fallback(input)
  {
  }

  lemma SameOverlay(input: Input, mine: seq<Override>, theirs: seq<Override>)
    requires forall c: Capability :: LastSet(theirs, EvidenceOf(c)) == LastSet(mine, EvidenceOf(c))
    ensures Overlaid(Fallback(input), theirs) == Overlaid(Fallback(input), mine)
  {
    hide LastSet, EvidenceOf, Fallback, Overlaid;
    forall c: Capability
      ensures c in Overlaid(Fallback(input), theirs) && c in Overlaid(Fallback(input), mine)
      ensures Overlaid(Fallback(input), theirs)[c] == Overlaid(Fallback(input), mine)[c]
    {
      BaselineTotal(input, c);
      OverlaidAt(Fallback(input), theirs, c);
      OverlaidAt(Fallback(input), mine, c);
    }
  }

  // ---- Names that decide ----

  /** The `k`-th of arbitrarily many names, each longer than `past`, and one that comes after all of them. */
  function NameOf(past: nat, k: nat): string {
    seq(past + k + 1, i => 'a')
  }

  function LastName(past: nat): string {
    seq(past + 1, i => 'b')
  }

  lemma NamesDiffer(past: nat, j: nat, k: nat)
    ensures TextBefore(NameOf(past, k), LastName(past)) && !TextBefore(LastName(past), NameOf(past, k))
    ensures NameOf(past, k) != LastName(past) && (j != k ==> NameOf(past, j) != NameOf(past, k))
    ensures Trim(NameOf(past, k)) != "" && Trim(LastName(past)) != ""
    ensures |NameOf(past, k)| > past && |LastName(past)| > past
  {
    assert NameOf(past, k)[0] == 'a' && LastName(past)[0] == 'b';
    NotBlank(NameOf(past, k));
    NotBlank(LastName(past));
  }

  lemma NotBlank(s: string)
    requires s != "" && !IsTrimmed(s[0])
    ensures Trim(s) != ""
  {
    TrimSplits(s);
    hide Trim;
    assert s[0] == (LeftMargin(s) + Trim(s) + RightMargin(s))[0];
  }

  /** New names for all overrides, so that the one at `a` comes last among those of its rank. */
  function Favouring(config: Configuration, a: nat, past: nat): Configuration {
    config.(overrides := seq(|config.overrides|, k requires 0 <= k < |config.overrides| =>
      config.overrides[k].(id := if k == a then LastName(past) else NameOf(past, k))))
  }

  lemma FavouringRewrites(config: Configuration, a: nat, past: nat)
    ensures Rewrites(config, Favouring(config, a, past))
  {
    assert NamelessAll(Favouring(config, a, past).overrides) == NamelessAll(config.overrides);
  }

  /** All ids of the configuration are at most this long. */
  function Longest(ids: seq<string>): nat {
    if ids == [] then 0
    else
      var rest, last := Longest(ids[..|ids| - 1]), |ids[|ids| - 1]|;
      if rest < last then last else rest
  }

  lemma {:induction false} LongestBounds(ids: seq<string>)
    ensures forall i | 0 <= i < |ids| :: |ids[i]| <= Longest(ids)
  {
    if ids != [] {
      LongestBounds(ids[..|ids| - 1]);
      assert forall i | 0 <= i < |ids| - 1 :: ids[..|ids| - 1][i] == ids[i];
    }
  }

  /** `renamed` replaces the names from `from` to `to` by new ones. */
  ghost predicate RenamedBetween(ids: seq<string>, renamed: seq<string>, from: nat, to: nat, a: nat, past: nat) {
    && from <= to <= |ids| == |renamed|
    && forall i | 0 <= i < |ids| ::
         renamed[i] == if i < from || to <= i then ids[i]
                       else if i - from == a then LastName(past)
                       else NameOf(past, i - from)
  }

  lemma RenamedAreGood(ids: seq<string>, renamed: seq<string>, from: nat, to: nat, a: nat, past: nat)
    requires RenamedBetween(ids, renamed, from, to, a, past) && GoodIds(ids)
    requires forall i | 0 <= i < |ids| :: |ids[i]| <= past
    ensures GoodIds(renamed)
  {
    hide NameOf, LastName, Trim, TextBefore;
    forall i | 0 <= i < |ids|
      ensures Trim(renamed[i]) != "" && (from <= i < to <==> |renamed[i]| > past)
    {
      if from <= i < to {
        NamesDiffer(past, 0, i - from);
      }
    }
    forall i, j | 0 <= i < j < |ids|
      ensures renamed[i] != renamed[j]
    {
      if from <= i && j < to {
        NamesDiffer(past, i - from, j - from);
        NamesDiffer(past, j - from, i - from);
      }
    }
  }

  lemma FavouringGoodIds(config: Configuration, a: nat)
    requires GoodIds(Ids(config))
    ensures GoodIds(Ids(Favouring(config, a, Longest(Ids(config)))))
  {
    hide GoodIds, Longest, NameOf, LastName;
    var ids, past := Ids(config), Longest(Ids(config));
    LongestBounds(ids);
    RenamedAreGood(ids, Ids(Favouring(config, a, past)), |config.policies|, |config.policies| + |config.overrides|, a,
                   past);
  }

  lemma FavouringAcceptable(config: Configuration, a: nat)
    requires Acceptable(config)
    ensures Acceptable(Favouring(config, a, Longest(Ids(config))))
  {
    FavouringGoodIds(config, a);
    var other := Favouring(config, a, Longest(Ids(config)));
    hide GoodIds, Ids, Longest, GoodAssignment, Overlap, Specificity, PolicyConflict, NameOf, LastName;
    forall i | 0 <= i < |other.overrides|
      ensures GoodReasoning(other.overrides[i])
    {
      assert GoodReasoning(config.overrides[i]);
    }
    forall i, j | 0 <= i < j < |other.overrides|
      ensures OverrideConflict(other.overrides[i], other.overrides[j]).None?
    {
      assert OverrideConflict(config.overrides[i], config.overrides[j]).None?;
      SameConflict(config.overrides[i], config.overrides[j], other.overrides[i].id, other.overrides[j].id);
    }
  }

  lemma SameConflict(a: Override, b: Override, aId: string, bId: string)
    ensures OverrideConflict(a.(id := aId), b.(id := bId)) == OverrideConflict(a, b)
  {
    hide Overlap, Specificity;
  }

  lemma {:induction false} LastNamed(overrides: seq<Override>, id: string) returns (p: nat)
    requires exists i :: 0 <= i < |overrides| && overrides[i].id == id
    ensures p < |overrides| && overrides[p].id == id
    ensures forall q | p < q < |overrides| :: overrides[q].id != id
  {
    p := |overrides| - 1;
    if overrides[p].id != id {
      var i :| 0 <= i < |overrides| && overrides[i].id == id;
      assert overrides[..p][i].id == id;
      p := LastNamed(overrides[..p], id);
      assert forall q | p < q < |overrides| - 1 :: overrides[..|overrides| - 1][q] == overrides[q];
    }
  }

  lemma {:induction false} LastSetAt<R, V>(rules: seq<R>, get: R -> Option<V>, p: nat)
    requires p < |rules| && get(rules[p]).Some? && forall q | p < q < |rules| :: get(rules[q]).None?
    ensures LastSet(rules, get) == get(rules[p])
  {
    if p < |rules| - 1 {
      LastSetAt(rules[..|rules| - 1], get, p);
    }
  }

  /** Behind the favoured override the sorted list holds only higher ranks. */
  lemma BehindFavoured(config: Configuration, a: nat, past: nat, route: Route, p: nat, q: nat)
    requires a < |config.overrides|
    requires var sorted := OverridesFor(CompiledFrom(Favouring(config, a, past)), route);
             p < q < |sorted| && sorted[p].id == LastName(past) && sorted[q].id != LastName(past)
    ensures var sorted := OverridesFor(CompiledFrom(Favouring(config, a, past)), route);
            RankBefore(OverrideRank(sorted[p]), OverrideRank(sorted[q]))
  {
    var other := Favouring(config, a, past);
    OverrideBeforeOrders();
    SortBySorts(other.overrides, OverrideBefore);
    FilterSorted(CompiledFrom(other).overrides, SelectsOverride(route), OverrideBefore);
    SortedMembers(other, route);
    var sorted := OverridesFor(CompiledFrom(other), route);
    hide SortBy, Filter, OverridesFor, CompiledFrom, TextBefore, NameOf, LastName, OverrideRank;
    assert !OverrideBefore(sorted[q], sorted[p]);
    var k :| 0 <= k < |other.overrides| && other.overrides[k] == sorted[q];
    NamesDiffer(past, 0, k);
  }

  lemma SortedMembers(other: Configuration, route: Route)
    ensures forall i | 0 <= i < |OverridesFor(CompiledFrom(other), route)| ::
              OverridesFor(CompiledFrom(other), route)[i] in other.overrides
  {
    MatchingOverrides(other, route);
    hide Matches;
  }

  /** The favoured override, and no other, carries the last name. */
  lemma OnlyFavoured(config: Configuration, a: nat, past: nat, o: Override)
    requires a < |config.overrides| && o in Favouring(config, a, past).overrides && o.id == LastName(past)
    ensures Nameless(o) == Nameless(config.overrides[a])
  {
    hide NameOf, LastName, TextBefore, Trim;
    var k :| 0 <= k < |config.overrides| && Favouring(config, a, past).overrides[k] == o;
    NamesDiffer(past, 0, k);
  }

  lemma HigherSetsNothing<R, V>(sorted: seq<R>, written: seq<R>, rank: R -> Rank, get: R -> Option<V>, i: nat, q: nat)
    requires Wins(written, rank, get, i) && Mirrors(sorted, written, rank, get) && q < |sorted|
    requires RankBefore(rank(written[i]), rank(sorted[q]))
    ensures get(sorted[q]).None?
  {
    var m := MirrorOf(sorted, written, rank, get, q);
    hide Mirrors;
  }

  /** A winner that is given the last name decides. */
  lemma FavouredDecides<V(!new)>(config: Configuration, a: nat, past: nat, route: Route, get: Override -> Option<V>,
                                 i: nat)
    requires a < |config.overrides| && IgnoresName(get)
    requires Wins(Written(config, route), OverrideRank, get, i) && Written(config, route)[i] == config.overrides[a]
    ensures ValueFor(Favouring(config, a, past), route, get) == get(config.overrides[a])
  {
    var other, written := Favouring(config, a, past), Written(config, route);
    var sorted := OverridesFor(CompiledFrom(other), route);
    FavouringRewrites(config, a, past);
    RewrittenMirror(config, other, route, get);
    SortedMembers(other, route);
    FavouredSelected(config, a, past, route);
    WinsMeans(written, OverrideRank, get, i);
    hide OverridesFor, CompiledFrom, OverrideRank, NameOf, LastName, Written, Mirrors, LastSet, Rewrites, SelectsOverride;
    hide Favouring, Wins, Nameless, ByRank, RankBefore;
    var p := LastNamed(sorted, LastName(past));
    OnlyFavoured(config, a, past, sorted[p]);
    NamelessMatches(sorted[p], config.overrides[a], route);
    assert get(sorted[p]) == get(Nameless(sorted[p])) == get(config.overrides[a]);
    forall q | p < q < |sorted|
      ensures get(sorted[q]).None?
    {
      BehindFavoured(config, a, past, route, p, q);
      HigherSetsNothing(sorted, written, OverrideRank, get, i, q);
    }
    LastSetAt(sorted, get, p);
  }

  lemma FavouredSelected(config: Configuration, a: nat, past: nat, route: Route)
    requires a < |config.overrides| && SelectsOverride(route)(config.overrides[a])
    ensures var sorted := OverridesFor(CompiledFrom(Favouring(config, a, past)), route);
            exists i :: 0 <= i < |sorted| && sorted[i].id == LastName(past)
  {
    var other := Favouring(config, a, past);
    MatchingOverrides(other, route);
    var favoured := other.overrides[a];
    assert favoured.id == LastName(past) && SelectsOverride(route)(favoured);
    assert favoured in Filter(other.overrides, SelectsOverride(route));
    hide Filter, OverridesFor, CompiledFrom, LastName, NameOf;
    var written := Filter(other.overrides, SelectsOverride(route));
    var j :| 0 <= j < |written| && written[j] == favoured;
    assert favoured in OverridesFor(CompiledFrom(other), route);
  }

  /** Every configuration that compiles and differs only in the order and the names of its overrides gives the route
      the same value. */
  ghost predicate Nominal<V(!new)>(config: Configuration, route: Route, get: Override -> Option<V>) {
    forall other: Configuration | Rewrites(config, other) && Acceptable(other) ::
      ValueFor(other, route, get) == ValueFor(config, route, get)
  }

  /** A winner's value is that of some configuration with other names. */
  lemma WinnerCanDecide<V(!new)>(config: Configuration, route: Route, get: Override -> Option<V>, i: nat)
    requires Acceptable(config) && IgnoresName(get) && Wins(Written(config, route), OverrideRank, get, i)
    requires Nominal(config, route, get)
    ensures ValueFor(config, route, get) == get(Written(config, route)[i])
  {
    assert Written(config, route)[i] in config.overrides;
    var a :| 0 <= a < |config.overrides| && config.overrides[a] == Written(config, route)[i];
    hide Wins, Written, ValueFor, Acceptable, IgnoresName, Rewrites;
    FavouringAcceptable(config, a);
    FavouringRewrites(config, a, Longest(Ids(config)));
    FavouredDecides(config, a, Longest(Ids(config)), route, get, i);
  }

  /** Main result: among the configurations that compile, what the overrides set for a route is independent of their
      order and names exactly when the highest-ranked matching overrides that set it agree. */
  lemma NamesImmaterialIff<V(!new)>(config: Configuration, route: Route, get: Override -> Option<V>)
    requires Acceptable(config) && IgnoresName(get)
    ensures Nominal(config, route, get) <==> WinnersAgree(Written(config, route), OverrideRank, get)
  {
    hide Acceptable, IgnoresName, Rewrites, ValueFor, Written;
    if WinnersAgree(Written(config, route), OverrideRank, get) {
      forall other: Configuration | Rewrites(config, other) && Acceptable(other)
        ensures ValueFor(other, route, get) == ValueFor(config, route, get)
      {
        NamesImmaterial(config, other, route, get);
      }
    }
    if Nominal(config, route, get) {
      hide Nominal, Wins;
      forall i, j | Wins(Written(config, route), OverrideRank, get, i) && Wins(Written(config, route), OverrideRank,
                                                                               get, j)
        ensures get(Written(config, route)[i]) == get(Written(config, route)[j])
      {
        WinsMeans(Written(config, route), OverrideRank, get, i);
        WinsMeans(Written(config, route), OverrideRank, get, j);
        WinnerCanDecide(config, route, get, i);
        WinnerCanDecide(config, route, get, j);
      }
    }
  }

  /** The effort map: two overrides of one rank may set disjoint maps and still compile, and then the names decide;
      they are immaterial for a route exactly when the highest-ranked matching overrides with a control field carry
      the same field and the same whole map, and then what the route gets is that rank's. */
  lemma EffortNamesImmaterialIff(config: Configuration, route: Route)
    requires Acceptable(config)
    ensures Nominal(config, route, ControlOf()) <==> WinnersAgree(Written(config, route), OverrideRank, ControlOf())
    ensures Nominal(config, route, ControlOf()) <==>
      Decided(Written(config, route), OverrideRank, ControlOf(), ValueFor(config, route, ControlOf()))
  {
    NamesIgnored(TextInput);
    EffortDecidedIff(config, route);
    hide Acceptable, IgnoresName, WinnersAgree, Nominal, ControlOf, Decided;
    NamesImmaterialIff(config, route, ControlOf());
  }
}
