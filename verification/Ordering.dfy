/** Stable sorting and filtering, as the standard library's `sort_by` and `filter` provide them. */
module Ordering {
  import opened Collections

  /** Stable insertion after every element that is not later. */
  function InsertBy<T>(x: T, sorted: seq<T>, before: (T, T) -> bool): seq<T> {
    if sorted == [] || before(x, sorted[0]) then [x] + sorted
    else [sorted[0]] + InsertBy(x, sorted[1..], before)
  }

  function SortBy<T>(s: seq<T>, before: (T, T) -> bool): seq<T> {
    if s == [] then [] else InsertBy(s[|s| - 1], SortBy(s[..|s| - 1], before), before)
  }

  /** A strict order whose ties form an equivalence. */
  ghost predicate WeakOrder<T(!new)>(before: (T, T) -> bool) {
    && (forall a, b :: before(a, b) ==> !before(b, a))
    && (forall a, b, c :: !before(b, a) && !before(c, b) ==> !before(c, a))
  }

  ghost predicate SortedBy<T>(s: seq<T>, before: (T, T) -> bool) {
    forall i, j | 0 <= i < j < |s| :: !before(s[j], s[i])
  }

  lemma {:induction false} InsertKeepsAll<T>(x: T, sorted: seq<T>, before: (T, T) -> bool)
    ensures multiset(InsertBy(x, sorted, before)) == multiset(sorted) + multiset{x}
  {
    if sorted != [] && !before(x, sorted[0]) {
      InsertKeepsAll(x, sorted[1..], before);
      assert sorted == [sorted[0]] + sorted[1..];
    }
  }

  lemma {:induction false} InsertBySorts<T(!new)>(x: T, sorted: seq<T>, before: (T, T) -> bool)
    requires WeakOrder(before) && SortedBy(sorted, before)
    ensures SortedBy(InsertBy(x, sorted, before), before)
  {
    if sorted == [] {
    } else {
      var head, rest := sorted[0], sorted[1..];
      assert sorted == [head] + rest;
      if before(x, head) {
        forall j | 0 <= j < |sorted|
          ensures !before(sorted[j], x)
        {
          assert !before(head, x) && !before(sorted[j], head);
        }
      } else {
        InsertBySorts(x, rest, before);
        InsertKeepsAll(x, rest, before);
        var inserted := InsertBy(x, rest, before);
        forall j | 0 <= j < |inserted|
          ensures !before(inserted[j], head)
        {
          assert inserted[j] in multiset(inserted);
          assert inserted[j] == x || inserted[j] in rest;
        }
      }
    }
  }

  lemma {:induction false} SortBySorts<T(!new)>(s: seq<T>, before: (T, T) -> bool)
    requires WeakOrder(before)
    ensures SortedBy(SortBy(s, before), before) && multiset(SortBy(s, before)) == multiset(s)
  {
    if s != [] {
      var init, last := s[..|s| - 1], s[|s| - 1];
      assert s == init + [last];
      SortBySorts(init, before);
      InsertBySorts(last, SortBy(init, before), before);
      InsertKeepsAll(last, SortBy(init, before), before);
    }
  }

  // ---- Filtering ----

  function Filter<R>(rules: seq<R>, keeps: R -> bool): (kept: seq<R>)
    ensures forall i | 0 <= i < |kept| :: kept[i] in rules && keeps(kept[i])
    ensures forall i | 0 <= i < |rules| && keeps(rules[i]) :: rules[i] in kept
  {
    if rules == [] then []
    else
      var init, last := rules[..|rules| - 1], rules[|rules| - 1];
      Filter(init, keeps) + if keeps(last) then [last] else []
  }

  lemma {:induction false} FilterSorted<R>(rules: seq<R>, keeps: R -> bool, before: (R, R) -> bool)
    requires SortedBy(rules, before)
    ensures SortedBy(Filter(rules, keeps), before)
  {
    if rules != [] {
      FilterSorted(rules[..|rules| - 1], keeps, before);
    }
  }

  lemma FilterSnoc<T>(s: seq<T>, last: T, keeps: T -> bool)
    ensures Filter(s + [last], keeps) == if keeps(last) then Filter(s, keeps) + [last] else Filter(s, keeps)
  {
    assert (s + [last])[..|s|] == s;
  }

  lemma {:induction false} FilterCons<T>(first: T, s: seq<T>, keeps: T -> bool)
    ensures Filter([first] + s, keeps) == if keeps(first) then [first] + Filter(s, keeps) else Filter(s, keeps)
  {
    hide Filter;
    if s == [] {
      NothingToKeep(s, keeps);
      assert [first] + s == s + [first];
      FilterSnoc(s, first, keeps);
    } else {
      var init, last := s[..|s| - 1], s[|s| - 1];
      FilterCons(first, init, keeps);
      assert [first] + s == ([first] + init) + [last] && s == init + [last];
      FilterSnoc([first] + init, last, keeps);
      FilterSnoc(init, last, keeps);
    }
  }

  // ---- The head of a sorted list ----

  /** The first of the elements no other comes before. */
  function FirstBest<T>(s: seq<T>, before: (T, T) -> bool): Option<T> {
    if s == [] then None
    else
      var last := s[|s| - 1];
      match FirstBest(s[..|s| - 1], before)
      case None => Some(last)
      case Some(best) => if before(last, best) then Some(last) else Some(best)
  }

  lemma {:induction false} SortedHead<T>(s: seq<T>, before: (T, T) -> bool)
    ensures FirstBest(s, before) == if s == [] then None else Some(SortBy(s, before)[0])
    ensures |SortBy(s, before)| == |s|
  {
    if s != [] {
      SortedHead(s[..|s| - 1], before);
      InsertLength(s[|s| - 1], SortBy(s[..|s| - 1], before), before);
    }
  }

  lemma {:induction false} InsertLength<T>(x: T, sorted: seq<T>, before: (T, T) -> bool)
    ensures |InsertBy(x, sorted, before)| == |sorted| + 1
    ensures InsertBy(x, sorted, before)[0] == if sorted == [] || before(x, sorted[0]) then x else sorted[0]
  {
    if sorted != [] && !before(x, sorted[0]) {
      InsertLength(x, sorted[1..], before);
    }
  }

  /** Whatever comes before `h` comes before everything that does not come before `h`. */
  lemma AheadOfAll<T(!new)>(x: T, h: T, y: T, before: (T, T) -> bool)
    requires WeakOrder(before) && before(x, h) && !before(y, h)
    ensures before(x, y) && !before(y, x)
  {
  }

  lemma {:induction false} FirstBestAt<T(!new)>(s: seq<T>, before: (T, T) -> bool) returns (k: nat)
    requires s != [] && WeakOrder(before)
    ensures k < |s| && FirstBest(s, before) == Some(s[k])
    ensures forall i | 0 <= i < |s| :: !before(s[i], s[k])
    ensures forall i | 0 <= i < k :: before(s[k], s[i])
  {
    var n := |s| - 1;
    if n == 0 {
      k := 0;
      assert !before(s[0], s[0]);
    } else {
      k := FirstBestAt(s[..n], before);
      if before(s[n], s[k]) {
        forall i | 0 <= i < n
          ensures before(s[n], s[i]) && !before(s[i], s[n])
        {
          assert !before(s[..n][i], s[k]);
          AheadOfAll(s[n], s[k], s[i], before);
        }
        assert !before(s[n], s[n]);
        k := n;
      } else {
        assert forall i | 0 <= i < n :: s[..n][i] == s[i];
      }
    }
  }

  lemma SortSnoc<T>(s: seq<T>, last: T, before: (T, T) -> bool)
    ensures SortBy(s + [last], before) == InsertBy(last, SortBy(s, before), before)
  {
    assert (s + [last])[..|s|] == s;
  }

  /** Sorting and filtering commute: ties keep their order. */
  lemma {:induction false} FilterSort<T(!new)>(s: seq<T>, keeps: T -> bool, before: (T, T) -> bool)
    requires WeakOrder(before)
    ensures Filter(SortBy(s, before), keeps) == SortBy(Filter(s, keeps), before)
  {
    hide WeakOrder, SortedBy, InsertBy, Filter, SortBy;
    if s == [] {
      NothingToSort(s, keeps, before);
    } else {
      var init, last := s[..|s| - 1], s[|s| - 1];
      assert s == init + [last];
      FilterSort(init, keeps, before);
      SortBySorts(init, before);
      FilterInsert(last, SortBy(init, before), keeps, before);
      SortSnoc(init, last, before);
      SortSnoc(Filter(init, keeps), last, before);
      FilterSnoc(init, last, keeps);
    }
  }

  lemma NothingToSort<T>(s: seq<T>, keeps: T -> bool, before: (T, T) -> bool)
    requires s == []
    ensures Filter(SortBy(s, before), keeps) == [] == SortBy(Filter(s, keeps), before)
  {
  }

  lemma SortedTail<T>(sorted: seq<T>, before: (T, T) -> bool)
    requires SortedBy(sorted, before) && sorted != []
    ensures SortedBy(sorted[1..], before)
  {
  }

  lemma InsertAhead<T>(x: T, sorted: seq<T>, before: (T, T) -> bool)
    requires sorted == [] || before(x, sorted[0])
    ensures InsertBy(x, sorted, before) == [x] + sorted
  {
  }

  lemma InsertBehind<T>(x: T, head: T, rest: seq<T>, before: (T, T) -> bool)
    ensures !before(x, head) ==> InsertBy(x, [head] + rest, before) == [head] + InsertBy(x, rest, before)
  {
    assert ([head] + rest)[1..] == rest;
  }

  lemma {:induction false} FilterInsert<T(!new)>(x: T, sorted: seq<T>, keeps: T -> bool, before: (T, T) -> bool)
    requires WeakOrder(before) && SortedBy(sorted, before)
    ensures Filter(InsertBy(x, sorted, before), keeps)
         == if keeps(x) then InsertBy(x, Filter(sorted, keeps), before) else Filter(sorted, keeps)
  {
    hide WeakOrder, SortedBy, InsertBy, Filter;
    if sorted == [] {
      InsertAhead(x, sorted, before);
      FilterCons(x, [], keeps);
      NothingToKeep(sorted, keeps);
      InsertAhead(x, [], before);
    } else {
      var head, rest := sorted[0], sorted[1..];
      assert sorted == [head] + rest;
      if before(x, head) {
        InsertAhead(x, sorted, before);
        FilterCons(x, sorted, keeps);
        InsertInFront(x, sorted, keeps, before);
      } else {
        SortedTail(sorted, before);
        FilterInsert(x, rest, keeps, before);
        FilterCons(head, rest, keeps);
        InsertBehind(x, head, rest, before);
        FilterCons(head, InsertBy(x, rest, before), keeps);
        InsertBehind(x, head, Filter(rest, keeps), before);
      }
    }
  }

  lemma NothingToKeep<T>(s: seq<T>, keeps: T -> bool)
    requires s == []
    ensures Filter(s, keeps) == []
  {
  }

  /** What comes before the head of a sorted list comes before everything in it that is kept. */
  lemma InsertInFront<T(!new)>(x: T, sorted: seq<T>, keeps: T -> bool, before: (T, T) -> bool)
    requires WeakOrder(before) && SortedBy(sorted, before) && sorted != [] && before(x, sorted[0])
    ensures InsertBy(x, Filter(sorted, keeps), before) == [x] + Filter(sorted, keeps)
  {
    var kept := Filter(sorted, keeps);
    if kept != [] {
      var j :| 0 <= j < |sorted| && sorted[j] == kept[0];
      assert j > 0 ==> !before(sorted[j], sorted[0]);
      assert !before(sorted[0], sorted[0]);
      AheadOfAll(x, sorted[0], kept[0], before);
    }
  }
}
