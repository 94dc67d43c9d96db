/** What a compiled configuration says about a route: which policy decides each field, and why the order in which
    policies were written, and their names, cannot matter. */
module CapabilitySemantics {
  import opened Collections
  import opened Ordering
  import opened RankedRules
  import opened Text
  import opened CapabilityPolicy

  // ---- Fields as rules ----

  function Selects(route: Route): Policy -> bool {
    (p: Policy) => Matches(p.selector, route)
  }

  function ModeOf(): Policy -> Option<ReasoningMode> {
    (p: Policy) => p.semantic.reasoningMode
  }

  function ReplayOf(): Policy -> Option<bool> {
    (p: Policy) => p.semantic.replayRequired
  }

  function WindowOf(): Policy -> Option<nat> {
    (p: Policy) => p.semantic.contextWindow
  }

  function OutputOf(): Policy -> Option<nat> {
    (p: Policy) => p.semantic.maxOutputTokens
  }

  function EffortOf(key: string): Policy -> Option<string> {
    (p: Policy) => if key in p.semantic.effortMap then Some(p.semantic.effortMap[key]) else None
  }

  function MergedEfforts(policies: seq<Policy>): map<string, string> {
    if policies == [] then map[]
    else MergedEfforts(policies[..|policies| - 1]) + policies[|policies| - 1].semantic.effortMap
  }

  function MergedOmissions(policies: seq<Policy>): set<string> {
    if policies == [] then {}
    else MergedOmissions(policies[..|policies| - 1]) + policies[|policies| - 1].semantic.omitFields
  }

  /** The fold of `semantic_for` over the matching policies. */
  function Folded(policies: seq<Policy>): Semantic {
    Semantic(LastSet(policies, ModeOf()), LastSet(policies, ReplayOf()), LastSet(policies, WindowOf()),
             LastSet(policies, OutputOf()), MergedEfforts(policies), MergedOmissions(policies))
  }

  function SemanticFor(compiled: Compiled, route: Route): Semantic {
    Folded(Filter(compiled.policies, Selects(route)))
  }

  /** `semantic_for`: later policies overwrite what earlier ones set. */
  method Accumulate(compiled: Compiled, route: Route) returns (semantic: Semantic)
    ensures semantic == SemanticFor(compiled, route)
  {
    hide LastSet;
    var matching := Filter(compiled.policies, Selects(route));
    semantic := Semantic(None, None, None, None, map[], {});
    var i := 0;
    NothingFolded();
    assert matching[..0] == [];
    while i < |matching|
      invariant 0 <= i <= |matching| && semantic == Folded(matching[..i])
    {
      var source := matching[i].semantic;
      FoldOneMore(matching[..i], matching[i]);
      assert matching[..i + 1] == matching[..i] + [matching[i]];
      if source.reasoningMode.Some? {
        semantic := semantic.(reasoningMode := source.reasoningMode);
      }
      if source.replayRequired.Some? {
        semantic := semantic.(replayRequired := source.replayRequired);
      }
      if source.contextWindow.Some? {
        semantic := semantic.(contextWindow := source.contextWindow);
      }
      if source.maxOutputTokens.Some? {
        semantic := semantic.(maxOutputTokens := source.maxOutputTokens);
      }
      semantic := semantic.(effortMap := semantic.effortMap + source.effortMap,
                            omitFields := semantic.omitFields + source.omitFields);
      i := i + 1;
    }
    assert matching[..i] == matching;
  }

  lemma NothingFolded()
    ensures Folded([]) == Semantic(None, None, None, None, map[], {})
  {
  }

  lemma FoldOneMore(policies: seq<Policy>, last: Policy)
    ensures var before, after := Folded(policies), Folded(policies + [last]);
            && after.reasoningMode
                  == (if last.semantic.reasoningMode.Some? then last.semantic.reasoningMode else before.reasoningMode)
            && after.replayRequired
                  == (if last.semantic.replayRequired.Some? then last.semantic.replayRequired else before.replayRequired)
            && after.contextWindow
                  == (if last.semantic.contextWindow.Some? then last.semantic.contextWindow else before.contextWindow)
            && after.maxOutputTokens
                  == (if last.semantic.maxOutputTokens.Some? then last.semantic.maxOutputTokens else before.maxOutputTokens)
            && after.effortMap == before.effortMap + last.semantic.effortMap
            && after.omitFields == before.omitFields + last.semantic.omitFields
  {
    assert (policies + [last])[..|policies|] == policies;
    LastSetSnoc(policies, last, ModeOf());
    LastSetSnoc(policies, last, ReplayOf());
    LastSetSnoc(policies, last, WindowOf());
    LastSetSnoc(policies, last, OutputOf());
  }

  function EffortAt(efforts: map<string, string>, key: string): Option<string> {
    if key in efforts then Some(efforts[key]) else None
  }

  lemma {:induction false} MergedEffortsAt(policies: seq<Policy>, key: string)
    ensures EffortAt(MergedEfforts(policies), key) == LastSet(policies, EffortOf(key))
  {
    if policies != [] {
      MergedEffortsAt(policies[..|policies| - 1], key);
    }
  }

  ghost predicate Omits(policies: seq<Policy>, field: string) {
    exists i :: 0 <= i < |policies| && field in policies[i].semantic.omitFields
  }

  lemma OmitsSnoc(policies: seq<Policy>, last: Policy, field: string)
    ensures Omits(policies + [last], field) <==> Omits(policies, field) || field in last.semantic.omitFields
  {
    var all := policies + [last];
    assert all[|policies|] == last;
    if Omits(policies, field) {
      var i :| 0 <= i < |policies| && field in policies[i].semantic.omitFields;
      assert all[i] == policies[i];
    }
  }

  lemma {:induction false} MergedOmissionsMeaning(policies: seq<Policy>, field: string)
    ensures field in MergedOmissions(policies) <==> Omits(policies, field)
  {
    if policies != [] {
      var init, last := policies[..|policies| - 1], policies[|policies| - 1];
      assert policies == init + [last];
      OmitsSnoc(init, last, field);
      MergedOmissionsMeaning(init, field);
    }
  }

  // ---- The deciding policy ----

  /** Nothing is set when no rule sets it; otherwise some rule of the highest rank among those that set it gave the
      value, and all rules of that rank that set it give the same one. */
  ghost predicate Decided<R, V>(rules: seq<R>, rank: R -> Rank, get: R -> Option<V>, value: Option<V>) {
    && (value.None? <==> forall i | 0 <= i < |rules| :: get(rules[i]).None?)
    && (value.Some? ==> exists k :: Wins(rules, rank, get, k))
    && (forall k | Wins(rules, rank, get, k) :: get(rules[k]) == value)
  }

  lemma WinsMeans<R, V>(rules: seq<R>, rank: R -> Rank, get: R -> Option<V>, k: int)
    requires Wins(rules, rank, get, k)
    ensures 0 <= k < |rules| && get(rules[k]).Some?
  {
  }

  lemma NothingMirrored<R, V>(sorted: seq<R>, rules: seq<R>, rank: R -> Rank, get: R -> Option<V>)
    requires Mirrors(rules, sorted, rank, get)
    requires forall i | 0 <= i < |sorted| :: get(sorted[i]).None?
    ensures forall i | 0 <= i < |rules| :: get(rules[i]).None?
  {
    hide Mirrors;
    forall i | 0 <= i < |rules|
      ensures get(rules[i]).None?
    {
      var m := MirrorOf(rules, sorted, rank, get, i);
    }
  }

  lemma SomeWinner<R, V>(sorted: seq<R>, rules: seq<R>, rank: R -> Rank, get: R -> Option<V>) returns (j: nat)
    requires ByRank(sorted, rank) && LastSet(sorted, get).Some?
    requires Mirrors(sorted, rules, rank, get) && Mirrors(rules, sorted, rank, get)
    ensures Wins(rules, rank, get, j) && get(rules[j]) == LastSet(sorted, get)
  {
    LastSetWins(sorted, rank, get);
    hide Mirrors, ByRank, LastSet;
    var k :| Wins(sorted, rank, get, k) && get(sorted[k]) == LastSet(sorted, get);
    j := WinnerTransfers(sorted, rules, rank, get, k);
  }

  lemma WinnerGives<R, V>(sorted: seq<R>, rules: seq<R>, rank: R -> Rank, get: R -> Option<V>, k: nat)
    requires ByRank(sorted, rank) && Agree(sorted, rank, get) && Wins(rules, rank, get, k)
    requires Mirrors(sorted, rules, rank, get) && Mirrors(rules, sorted, rank, get)
    ensures k < |rules| && get(rules[k]) == LastSet(sorted, get)
  {
    WinsMeans(rules, rank, get, k);
    WinnerDecides(sorted, rank, get);
    hide Mirrors, Wins, Agree, ByRank, LastSet;
    var j := WinnerTransfers(rules, sorted, rank, get, k);
    WinsMeans(sorted, rank, get, j);
  }

  /** Rank order leaves the decision to the unique value of the highest rank, in whatever order the rules came. */
  lemma SortedDecides<R, V>(sorted: seq<R>, rules: seq<R>, rank: R -> Rank, get: R -> Option<V>)
    requires ByRank(sorted, rank) && Agree(sorted, rank, get)
    requires Mirrors(sorted, rules, rank, get) && Mirrors(rules, sorted, rank, get)
    ensures Decided(rules, rank, get, LastSet(sorted, get))
  {
    hide Mirrors, Wins, Agree, ByRank, LastSet;
    if LastSet(sorted, get).Some? {
      var j := SomeWinner(sorted, rules, rank, get);
      WinsMeans(rules, rank, get, j);
    } else {
      LastSetWins(sorted, rank, get);
      NothingMirrored(sorted, rules, rank, get);
    }
    forall k | Wins(rules, rank, get, k)
      ensures 0 <= k < |rules| && get(rules[k]) == LastSet(sorted, get)
    {
      WinsMeans(rules, rank, get, k);
      WinnerGives(sorted, rules, rank, get, k);
    }
  }

  ghost predicate SameMembers<R>(left: seq<R>, right: seq<R>) {
    (forall i | 0 <= i < |left| :: left[i] in right) && (forall i | 0 <= i < |right| :: right[i] in left)
  }

  /** Lists with the same members mirror each other. */
  lemma SameMembersMirror<R, V>(left: seq<R>, right: seq<R>, rank: R -> Rank, get: R -> Option<V>)
    requires forall i | 0 <= i < |left| :: left[i] in right
    ensures Mirrors(left, right, rank, get)
  {
    forall i | 0 <= i < |left|
      ensures HasMirror(left[i], right, rank, get)
    {
      var j :| 0 <= j < |right| && right[j] == left[i];
      assert get(left[i]) == get(right[j]);
    }
  }

  // ---- Rank order ----

  lemma RankThenIdOrder(a: Rank, aId: string, b: Rank, bId: string, c: Rank, cId: string)
    ensures RankThenId(a, aId, b, bId) ==> !RankThenId(b, bId, a, aId)
    ensures !RankThenId(b, bId, a, aId) && !RankThenId(c, cId, b, bId) ==> !RankThenId(c, cId, a, aId)
  {
    TextOrder(aId, bId, cId);
    TextOrder(bId, cId, aId);
    TextOrder(cId, aId, bId);
    TextOrder(cId, bId, aId);
  }

  lemma PolicyBeforeOrders()
    ensures WeakOrder(PolicyBefore)
  {
    forall a, b, c
      ensures PolicyBefore(a, b) ==> !PolicyBefore(b, a)
      ensures !PolicyBefore(b, a) && !PolicyBefore(c, b) ==> !PolicyBefore(c, a)
    {
      RankThenIdOrder(PolicyRank(a), a.id, PolicyRank(b), b.id, PolicyRank(c), c.id);
    }
  }

  /** The matching policies in rank order, and the same ones as written. */
  lemma MatchingPolicies(config: Configuration, route: Route)
    ensures var sorted := Filter(CompiledFrom(config).policies, Selects(route));
            var written := Filter(config.policies, Selects(route));
            ByRank(sorted, PolicyRank) && SameMembers(sorted, written)
  {
    hide Matches, RankBefore, Specificity;
    PolicyBeforeOrders();
    SortBySorts(config.policies, PolicyBefore);
    var all := CompiledFrom(config).policies;
    FilterSorted(all, Selects(route), PolicyBefore);
    var sorted, written := Filter(all, Selects(route)), Filter(config.policies, Selects(route));
    forall i, j | 0 <= i < j < |sorted|
      ensures !RankBefore(PolicyRank(sorted[j]), PolicyRank(sorted[i]))
    {
      assert !PolicyBefore(sorted[j], sorted[i]);
      RankIrreflexive(PolicyRank(sorted[i]));
    }
    SameElements(config.policies, all);
  }

  lemma RankIrreflexive(r: Rank)
    ensures !RankBefore(r, r)
  {
  }

  lemma SameElements<R>(left: seq<R>, right: seq<R>)
    requires multiset(left) == multiset(right)
    ensures forall r :: r in left <==> r in right
  {
    assert forall r :: r in left <==> r in multiset(left);
    assert forall r :: r in right <==> r in multiset(right);
  }

  // ---- Equal ranks agree ----

  /** Two policies of one rank that match one route give no field two values. */
  lemma RanksAgree(config: Configuration, route: Route, a: Policy, b: Policy)
    requires ConflictFree(config) && a in config.policies && b in config.policies
    requires Matches(a.selector, route) && Matches(b.selector, route) && PolicyRank(a) == PolicyRank(b)
    ensures ConflictingSemanticField(a.semantic, b.semantic).None?
  {
    OverlapSound(a.selector, b.selector, route);
    OverlapSound(b.selector, a.selector, route);
    var i :| 0 <= i < |config.policies| && config.policies[i] == a;
    var j :| 0 <= j < |config.policies| && config.policies[j] == b;
    hide Matches, Overlap, Specificity;
    if i < j {
      assert PolicyConflict(config.policies[i], config.policies[j]).None?;
    } else if j < i {
      assert PolicyConflict(config.policies[j], config.policies[i]).None?;
      ConflictSymmetric(b.semantic, a.semantic);
    }
  }

  lemma ConflictSymmetric(left: Semantic, right: Semantic)
    requires ConflictingSemanticField(left, right).None?
    ensures ConflictingSemanticField(right, left).None?
  {
    if MapsConflict(right.effortMap, left.effortMap) {
      var k :| k in right.effortMap && k in left.effortMap && right.effortMap[k] != left.effortMap[k];
      assert MapsConflict(left.effortMap, right.effortMap);
    }
  }

  /** The list is made of policies that match the route. */
  ghost predicate Drawn(config: Configuration, route: Route, policies: seq<Policy>) {
    forall i | 0 <= i < |policies| :: policies[i] in config.policies && Matches(policies[i].selector, route)
  }

  lemma FieldsAgree(config: Configuration, route: Route, policies: seq<Policy>)
    requires ConflictFree(config) && Drawn(config, route, policies)
    ensures Agree(policies, PolicyRank, ModeOf()) && Agree(policies, PolicyRank, ReplayOf())
    ensures Agree(policies, PolicyRank, WindowOf()) && Agree(policies, PolicyRank, OutputOf())
  {
    hide Matches, PolicyRank, ConflictFree;
    forall i, j | 0 <= i < |policies| && 0 <= j < |policies| && PolicyRank(policies[i]) == PolicyRank(policies[j])
      ensures ConflictingSemanticField(policies[i].semantic, policies[j].semantic).None?
    {
      RanksAgree(config, route, policies[i], policies[j]);
    }
  }

  lemma EffortsAgree(config: Configuration, route: Route, policies: seq<Policy>, key: string)
    requires ConflictFree(config) && Drawn(config, route, policies)
    ensures Agree(policies, PolicyRank, EffortOf(key))
  {
    hide Matches, PolicyRank, ConflictFree;
    forall i, j | 0 <= i < |policies| && 0 <= j < |policies| && PolicyRank(policies[i]) == PolicyRank(policies[j])
      ensures ConflictingSemanticField(policies[i].semantic, policies[j].semantic).None?
    {
      RanksAgree(config, route, policies[i], policies[j]);
    }
  }

  // ---- The theorems ----

  /** Every field, and every effort level, is decided by the policies that match the route alone: it is the value
      of the highest rank that sets it, and that value is unique. */
  lemma SemanticIsDecided(config: Configuration, route: Route)
    requires ConflictFree(config)
    ensures var written := Filter(config.policies, Selects(route));
            var semantic := SemanticFor(CompiledFrom(config), route);
            && Decided(written, PolicyRank, ModeOf(), semantic.reasoningMode)
            && Decided(written, PolicyRank, ReplayOf(), semantic.replayRequired)
            && Decided(written, PolicyRank, WindowOf(), semantic.contextWindow)
            && Decided(written, PolicyRank, OutputOf(), semantic.maxOutputTokens)
  {
    var sorted := Filter(CompiledFrom(config).policies, Selects(route));
    var written := Filter(config.policies, Selects(route));
    MatchingPolicies(config, route);
    assert Drawn(config, route, sorted);
    hide Filter, PolicyRank, ModeOf, ReplayOf, WindowOf, OutputOf, LastSet;
    FieldsAgree(config, route, sorted);
    FieldDecided(sorted, written, ModeOf());
    FieldDecided(sorted, written, ReplayOf());
    FieldDecided(sorted, written, WindowOf());
    FieldDecided(sorted, written, OutputOf());
  }

  lemma FieldDecided<V>(sorted: seq<Policy>, written: seq<Policy>, get: Policy -> Option<V>)
    requires ByRank(sorted, PolicyRank) && Agree(sorted, PolicyRank, get)
    requires SameMembers(sorted, written)
    ensures Decided(written, PolicyRank, get, LastSet(sorted, get))
  {
    SameMembersMirror(sorted, written, PolicyRank, get);
    SameMembersMirror(written, sorted, PolicyRank, get);
    SortedDecides(sorted, written, PolicyRank, get);
  }

  lemma EffortIsDecided(config: Configuration, route: Route, key: string)
    requires ConflictFree(config)
    ensures Decided(Filter(config.policies, Selects(route)), PolicyRank, EffortOf(key),
                    EffortAt(SemanticFor(CompiledFrom(config), route).effortMap, key))
  {
    var sorted := Filter(CompiledFrom(config).policies, Selects(route));
    MatchingPolicies(config, route);
    assert Drawn(config, route, sorted);
    hide Filter, PolicyRank, EffortOf, LastSet;
    EffortsAgree(config, route, sorted, key);
    MergedEffortsAt(sorted, key);
    FieldDecided(sorted, Filter(config.policies, Selects(route)), EffortOf(key));
  }

  /** A sampling field is omitted exactly when some matching policy omits it. */
  lemma OmissionsAreUnion(config: Configuration, route: Route, field: string)
    ensures field in SemanticFor(CompiledFrom(config), route).omitFields
       <==> Omits(Filter(config.policies, Selects(route)), field)
  {
    hide Omits, SameMembers;
    MatchingPolicies(config, route);
    var sorted, written := Filter(CompiledFrom(config).policies, Selects(route)), Filter(config.policies, Selects(route));
    SameOmissions(sorted, written, field);
    MergedOmissionsMeaning(sorted, field);
  }

  lemma OmitsIfMember(left: seq<Policy>, right: seq<Policy>, field: string)
    requires Omits(left, field) && SameMembers(left, right)
    ensures Omits(right, field)
  {
    var i :| 0 <= i < |left| && field in left[i].semantic.omitFields;
    var j :| 0 <= j < |right| && right[j] == left[i];
  }

  lemma SameOmissions(left: seq<Policy>, right: seq<Policy>, field: string)
    requires SameMembers(left, right)
    ensures Omits(left, field) <==> Omits(right, field)
  {
    if Omits(left, field) {
      OmitsIfMember(left, right, field);
    } else if Omits(right, field) {
      OmitsIfMember(right, left, field);
    }
  }

  // ---- Order and names ----

  ghost predicate SameUpToId(a: Policy, b: Policy) {
    a.(id := b.id) == b
  }

  /** Every policy of `left` appears in `right`, possibly under another name. */
  ghost predicate Renamed(left: seq<Policy>, right: seq<Policy>) {
    forall i | 0 <= i < |left| :: AppearsIn(left[i], right)
  }

  ghost predicate AppearsIn(p: Policy, policies: seq<Policy>) {
    exists j :: 0 <= j < |policies| && SameUpToId(p, policies[j])
  }

  /** Selection by rank order keeps the correspondence. */
  lemma MatchingRenamed(left: Configuration, right: Configuration, route: Route)
    requires Renamed(left.policies, right.policies)
    ensures Renamed(Filter(CompiledFrom(left).policies, Selects(route)),
                    Filter(CompiledFrom(right).policies, Selects(route)))
  {
    hide Matches, SameUpToId, CompiledFrom, ByRank;
    MatchingPolicies(left, route);
    MatchingPolicies(right, route);
    var mine := Filter(CompiledFrom(left).policies, Selects(route));
    var theirs := Filter(CompiledFrom(right).policies, Selects(route));
    forall i | 0 <= i < |mine|
      ensures AppearsIn(mine[i], theirs)
    {
      assert mine[i] in Filter(left.policies, Selects(route)) && Selects(route)(mine[i]);
      var a :| 0 <= a < |left.policies| && left.policies[a] == mine[i];
      assert AppearsIn(left.policies[a], right.policies);
      var b :| 0 <= b < |right.policies| && SameUpToId(mine[i], right.policies[b]);
      RenamedMatches(mine[i], right.policies[b], route);
      assert Selects(route)(right.policies[b]);
      assert right.policies[b] in Filter(right.policies, Selects(route));
      var c :| 0 <= c < |Filter(right.policies, Selects(route))|
               && Filter(right.policies, Selects(route))[c] == right.policies[b];
      var d :| 0 <= d < |theirs| && theirs[d] == right.policies[b];
    }
  }

  lemma RenamedMatches(a: Policy, b: Policy, route: Route)
    requires SameUpToId(a, b)
    ensures Matches(a.selector, route) == Matches(b.selector, route) && PolicyRank(a) == PolicyRank(b)
    ensures a.semantic == b.semantic
  {
  }

  lemma RenamedMirrors<V>(left: seq<Policy>, right: seq<Policy>, get: Policy -> Option<V>)
    requires Renamed(left, right)
    requires forall a, b | SameUpToId(a, b) :: get(a) == get(b)
    ensures Mirrors(left, right, PolicyRank, get)
  {
    hide Specificity;
    forall i | 0 <= i < |left|
      ensures HasMirror(left[i], right, PolicyRank, get)
    {
      assert AppearsIn(left[i], right);
      var j :| 0 <= j < |right| && SameUpToId(left[i], right[j]);
      assert get(left[i]) == get(right[j]);
    }
  }

  lemma FieldUnmoved<V>(left: seq<Policy>, right: seq<Policy>, get: Policy -> Option<V>)
    requires ByRank(left, PolicyRank) && ByRank(right, PolicyRank) && Agree(right, PolicyRank, get)
    requires Renamed(left, right) && Renamed(right, left)
    requires forall a, b | SameUpToId(a, b) :: get(a) == get(b)
    ensures LastSet(left, get) == LastSet(right, get)
  {
    RenamedMirrors(left, right, get);
    RenamedMirrors(right, left, get);
    OrderIsImmaterial(left, right, PolicyRank, get);
  }

  lemma OmissionsUnmoved(left: seq<Policy>, right: seq<Policy>)
    requires Renamed(left, right)
    ensures MergedOmissions(left) <= MergedOmissions(right)
  {
    forall field | field in MergedOmissions(left)
      ensures field in MergedOmissions(right)
    {
      MergedOmissionsMeaning(left, field);
      MergedOmissionsMeaning(right, field);
      var i :| 0 <= i < |left| && field in left[i].semantic.omitFields;
      assert AppearsIn(left[i], right);
      var j :| 0 <= j < |right| && SameUpToId(left[i], right[j]);
      assert field in right[j].semantic.omitFields;
    }
  }

  lemma EffortsUnmoved(config: Configuration, route: Route, left: seq<Policy>, right: seq<Policy>)
    requires ConflictFree(config) && Drawn(config, route, right)
    requires ByRank(left, PolicyRank) && ByRank(right, PolicyRank)
    requires Renamed(left, right) && Renamed(right, left)
    ensures MergedEfforts(left) == MergedEfforts(right)
  {
    hide ConflictFree, Drawn, ByRank, Renamed, PolicyRank, MergedEfforts;
    var ours, theirs := MergedEfforts(left), MergedEfforts(right);
    forall key: string
      ensures EffortAt(ours, key) == EffortAt(theirs, key)
    {
      EffortsAgree(config, route, right, key);
      FieldUnmoved(left, right, EffortOf(key));
      MergedEffortsAt(left, key);
      MergedEffortsAt(right, key);
    }
    SameEfforts(ours, theirs);
  }

  lemma SameEfforts(ours: map<string, string>, theirs: map<string, string>)
    requires forall key: string :: EffortAt(ours, key) == EffortAt(theirs, key)
    ensures ours == theirs
  {
    forall key
      ensures key in ours <==> key in theirs
      ensures key in ours && key in theirs ==> ours[key] == theirs[key]
    {
      assert EffortAt(ours, key) == EffortAt(theirs, key);
    }
  }

  lemma FoldUnmoved(config: Configuration, route: Route, left: seq<Policy>, right: seq<Policy>)
    requires ConflictFree(config) && Drawn(config, route, right)
    requires ByRank(left, PolicyRank) && ByRank(right, PolicyRank)
    requires Renamed(left, right) && Renamed(right, left)
    ensures Folded(left) == Folded(right)
  {
    FieldsAgree(config, route, right);
    hide ConflictFree, Drawn, ByRank, Renamed, Agree, PolicyRank, MergedEfforts, MergedOmissions, LastSet;
    FieldUnmoved(left, right, ModeOf());
    FieldUnmoved(left, right, ReplayOf());
    FieldUnmoved(left, right, WindowOf());
    FieldUnmoved(left, right, OutputOf());
    EffortsUnmoved(config, route, left, right);
    OmissionsUnmoved(left, right);
    OmissionsUnmoved(right, left);
  }

  /** The answer does not depend on the order in which policies were written or on their names: the tie-break by id
      is never felt. */
  lemma OrderAndNamesImmaterial(left: Configuration, right: Configuration, route: Route)
    requires ConflictFree(right)
    requires Renamed(left.policies, right.policies) && Renamed(right.policies, left.policies)
    ensures SemanticFor(CompiledFrom(left), route) == SemanticFor(CompiledFrom(right), route)
  {
    hide ConflictFree, Renamed, ByRank, Folded;
    var mine, theirs := Filter(CompiledFrom(left).policies, Selects(route)), Filter(CompiledFrom(right).policies,
                                                                                    Selects(route));
    MatchingPolicies(left, route);
    MatchingPolicies(right, route);
    assert Drawn(right, route, theirs);
    MatchingRenamed(left, right, route);
    MatchingRenamed(right, left, route);
    FoldUnmoved(right, route, mine, theirs);
  }

  /** Whether policies conflict does not depend on their order or names either. */
  lemma ConflictsUnmoved(left: Configuration, right: Configuration)
    requires ConflictFree(right) && left.overrides == right.overrides
    requires Renamed(left.policies, right.policies)
    ensures ConflictFree(left)
  {
    forall i, j | 0 <= i < j < |left.policies|
      ensures PolicyConflict(left.policies[i], left.policies[j]).None?
    {
      assert AppearsIn(left.policies[i], right.policies) && AppearsIn(left.policies[j], right.policies);
      var a :| 0 <= a < |right.policies| && SameUpToId(left.policies[i], right.policies[a]);
      var b :| 0 <= b < |right.policies| && SameUpToId(left.policies[j], right.policies[b]);
      assert PolicyConflict(left.policies[i], left.policies[j]) == PolicyConflict(right.policies[a], right.policies[b]);
      NoConflict(right, a, b);
    }
  }

  lemma NoConflict(config: Configuration, a: nat, b: nat)
    requires ConflictFree(config) && a < |config.policies| && b < |config.policies|
    ensures PolicyConflict(config.policies[a], config.policies[b]).None?
  {
    if a < b {
      assert PolicyConflict(config.policies[a], config.policies[b]).None?;
    } else if b < a {
      assert PolicyConflict(config.policies[b], config.policies[a]).None?;
      var first, second := config.policies[b], config.policies[a];
      if PolicyRank(first) == PolicyRank(second) && Overlap(first.selector, second.selector) {
        ConflictSymmetric(first.semantic, second.semantic);
      }
    }
  }

  // ---- Route tags ----

  /** Tags of the assignments that match a route. */
  function AssignedTags(assignments: seq<TagAssignment>, route: Route): set<string> {
    if assignments == [] then {}
    else
      var last := assignments[|assignments| - 1];
      AssignedTags(assignments[..|assignments| - 1], route) + if Matches(last.selector, route) then last.tags else {}
  }

  lemma {:induction false} AssignedTagsMeaning(assignments: seq<TagAssignment>, route: Route, tag: string)
    ensures tag in AssignedTags(assignments, route) <==>
      exists i :: 0 <= i < |assignments| && Matches(assignments[i].selector, route) && tag in assignments[i].tags
  {
    hide Matches;
    if assignments != [] {
      var n := |assignments| - 1;
      AssignedTagsMeaning(assignments[..n], route, tag);
      if i :| 0 <= i < |assignments| && Matches(assignments[i].selector, route) && tag in assignments[i].tags {
        assert i < n ==> assignments[..n][i] == assignments[i];
      }
      if tag in AssignedTags(assignments[..n], route) {
        var i :| 0 <= i < n && Matches(assignments[..n][i].selector, route) && tag in assignments[..n][i].tags;
        assert assignments[i] == assignments[..n][i];
      }
    }
  }

  /** `apply_route_tags` matches against the route it is changing; since no assignment selects by tag, it adds exactly
      the tags of the assignments that match the route as it came. */
  method ApplyRouteTags(assignments: seq<TagAssignment>, route: Route) returns (tagged: Route)
    requires forall i | 0 <= i < |assignments| :: assignments[i].selector.tag.None?
    ensures tagged == route.(tags := route.tags + AssignedTags(assignments, route))
  {
    hide AssignedTags;
    tagged := route;
    var i := 0;
    NoAssignedTags(route);
    assert assignments[..0] == [];
    while i < |assignments|
      invariant 0 <= i <= |assignments|
      invariant tagged == route.(tags := route.tags + AssignedTags(assignments[..i], route))
    {
      TagsIgnored(assignments[i].selector, route, tagged);
      OneMoreAssignment(assignments, i, route);
      if Matches(assignments[i].selector, tagged) {
        tagged := tagged.(tags := tagged.tags + assignments[i].tags);
      }
      i := i + 1;
    }
    assert assignments[..i] == assignments;
  }

  lemma NoAssignedTags(route: Route)
    ensures AssignedTags([], route) == {}
  {
  }

  lemma OneMoreAssignment(assignments: seq<TagAssignment>, i: nat, route: Route)
    requires i < |assignments|
    ensures AssignedTags(assignments[..i + 1], route)
         == AssignedTags(assignments[..i], route)
            + if Matches(assignments[i].selector, route) then assignments[i].tags else {}
  {
    assert assignments[..i + 1][..i] == assignments[..i];
  }

  lemma TagsIgnored(s: Selector, route: Route, tagged: Route)
    requires s.tag.None? && tagged == route.(tags := tagged.tags)
    ensures Matches(s, route) == Matches(s, tagged)
  {
  }
}
