/** Last-writer-wins over rules in rank order: which rule decides, and when the order of the rules is immaterial. */
module RankedRules {
  import opened Collections

  /** Priority, then specificity. */
  datatype Rank = Rank(priority: int, specificity: nat)

  predicate RankBefore(a: Rank, b: Rank) {
    a.priority < b.priority || (a.priority == b.priority && a.specificity < b.specificity)
  }

  /** The value of the last rule that sets one. */
  function LastSet<R, V>(rules: seq<R>, get: R -> Option<V>): Option<V> {
    if rules == [] then None
    else if get(rules[|rules| - 1]).Some? then get(rules[|rules| - 1])
    else LastSet(rules[..|rules| - 1], get)
  }

  lemma LastSetSnoc<R, V>(rules: seq<R>, last: R, get: R -> Option<V>)
    ensures LastSet(rules + [last], get) == if get(last).Some? then get(last) else LastSet(rules, get)
  {
    assert (rules + [last])[..|rules|] == rules;
  }

  ghost predicate ByRank<R>(rules: seq<R>, rank: R -> Rank) {
    forall i, j | 0 <= i < j < |rules| :: !RankBefore(rank(rules[j]), rank(rules[i]))
  }

  /** Two rules of one rank never set different values. */
  ghost predicate Agree<R, V>(rules: seq<R>, rank: R -> Rank, get: R -> Option<V>) {
    forall i, j | 0 <= i < |rules| && 0 <= j < |rules| && rank(rules[i]) == rank(rules[j])
                  && get(rules[i]).Some? && get(rules[j]).Some? ::
      get(rules[i]) == get(rules[j])
  }

  /** The rule at `k` sets a value, and no rule that sets one ranks higher. */
  ghost predicate Wins<R, V>(rules: seq<R>, rank: R -> Rank, get: R -> Option<V>, k: int) {
    && 0 <= k < |rules| && get(rules[k]).Some?
    && forall i | 0 <= i < |rules| && get(rules[i]).Some? :: !RankBefore(rank(rules[k]), rank(rules[i]))
  }

  /** The last setter wins, and nothing is set when no rule sets anything. */
  lemma {:induction false} LastSetWins<R, V>(rules: seq<R>, rank: R -> Rank, get: R -> Option<V>)
    requires ByRank(rules, rank)
    ensures LastSet(rules, get).None? <==> forall i | 0 <= i < |rules| :: get(rules[i]).None?
    ensures LastSet(rules, get).Some? ==> exists k :: Wins(rules, rank, get, k) && get(rules[k]) == LastSet(rules, get)
  {
    if rules != [] {
      var n := |rules| - 1;
      if get(rules[n]).Some? {
        assert Wins(rules, rank, get, n);
      } else {
        LastSetWins(rules[..n], rank, get);
        if LastSet(rules[..n], get).Some? {
          var k :| Wins(rules[..n], rank, get, k) && get(rules[..n][k]) == LastSet(rules[..n], get);
          assert forall i | 0 <= i < n :: rules[..n][i] == rules[i];
          assert Wins(rules, rank, get, k);
        }
      }
    }
  }

  /** When equal ranks agree, every winner gives the value that was chosen: it is the unique value of the highest
      rank. */
  lemma WinnerDecides<R, V>(rules: seq<R>, rank: R -> Rank, get: R -> Option<V>)
    requires ByRank(rules, rank) && Agree(rules, rank, get)
    ensures forall k | Wins(rules, rank, get, k) :: get(rules[k]) == LastSet(rules, get)
  {
    LastSetWins(rules, rank, get);
    forall k | Wins(rules, rank, get, k)
      ensures get(rules[k]) == LastSet(rules, get)
    {
      var w :| Wins(rules, rank, get, w) && get(rules[w]) == LastSet(rules, get);
      assert rank(rules[k]) == rank(rules[w]);
    }
  }

  /** Every rule of `left` has one in `right` with the same rank and the same value. */
  ghost predicate Mirrors<R, V>(left: seq<R>, right: seq<R>, rank: R -> Rank, get: R -> Option<V>) {
    forall i | 0 <= i < |left| :: HasMirror(left[i], right, rank, get)
  }

  ghost predicate HasMirror<R, V>(a: R, right: seq<R>, rank: R -> Rank, get: R -> Option<V>) {
    exists j :: 0 <= j < |right| && rank(a) == rank(right[j]) && get(a) == get(right[j])
  }

  lemma MirrorOf<R, V>(left: seq<R>, right: seq<R>, rank: R -> Rank, get: R -> Option<V>, i: nat) returns (j: nat)
    requires Mirrors(left, right, rank, get) && i < |left|
    ensures j < |right| && rank(left[i]) == rank(right[j]) && get(left[i]) == get(right[j])
  {
    assert HasMirror(left[i], right, rank, get);
    j :| 0 <= j < |right| && rank(left[i]) == rank(right[j]) && get(left[i]) == get(right[j]);
  }

  lemma WinnerTransfers<R, V>(left: seq<R>, right: seq<R>, rank: R -> Rank, get: R -> Option<V>, k: nat) returns (j: nat)
    requires Mirrors(left, right, rank, get) && Mirrors(right, left, rank, get) && Wins(left, rank, get, k)
    ensures Wins(right, rank, get, j) && get(right[j]) == get(left[k])
  {
    hide Mirrors;
    j := MirrorOf(left, right, rank, get, k);
    forall i | 0 <= i < |right| && get(right[i]).Some?
      ensures !RankBefore(rank(right[j]), rank(right[i]))
    {
      var m := MirrorOf(right, left, rank, get, i);
    }
  }

  /** The decision depends on which rules there are, not on how ties between them are ordered. */
  lemma OrderIsImmaterial<R, V>(left: seq<R>, right: seq<R>, rank: R -> Rank, get: R -> Option<V>)
    requires ByRank(left, rank) && ByRank(right, rank)
    requires Mirrors(left, right, rank, get) && Mirrors(right, left, rank, get)
    requires Agree(right, rank, get)
    ensures LastSet(left, get) == LastSet(right, get)
  {
    hide Mirrors, Agree, ByRank;
    LastSetWins(left, rank, get);
    LastSetWins(right, rank, get);
    WinnerDecides(right, rank, get);
    if LastSet(left, get).Some? {
      var k :| Wins(left, rank, get, k) && get(left[k]) == LastSet(left, get);
      var j := WinnerTransfers(left, right, rank, get, k);
    } else if LastSet(right, get).Some? {
      var k :| Wins(right, rank, get, k) && get(right[k]) == LastSet(right, get);
      var m := WinnerTransfers(right, left, rank, get, k);
    }
  }
}
