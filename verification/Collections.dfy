/** Shared vocabulary: options, results, text concatenation, and ordered views of finite sets of naturals
    (the iteration order of the gateway's `BTreeMap<usize, _>` fields). */
module Collections {

  datatype Option<+T> = None | Some(value: T) {
    function GetOr(default: T): T {
      match this
      case Some(v) => v
      case None => default
    }
  }

  datatype Result<+T, +E> = Ok(value: T) | Err(error: E)

  /** The text obtained by joining `parts` in order. */
  function Join(parts: seq<string>): string {
    if parts == [] then "" else Join(parts[..|parts| - 1]) + parts[|parts| - 1]
  }

  lemma JoinSnoc(parts: seq<string>, last: string)
    ensures Join(parts + [last]) == Join(parts) + last
  {
    assert (parts + [last])[..|parts|] == parts;
  }

  lemma {:induction false} JoinAppend(left: seq<string>, right: seq<string>)
    ensures Join(left + right) == Join(left) + Join(right)
  {
    if right == [] {
      assert left + right == left;
    } else {
      var init, last := right[..|right| - 1], right[|right| - 1];
      JoinAppend(left, init);
      assert left + right == (left + init) + [last];
      JoinSnoc(left + init, last);
    }
  }

  lemma SplitSlice(s: string, i: nat, head: string, rest: string)
    requires i + |head| + |rest| <= |s| && s[i..i + |head| + |rest|] == head + rest
    ensures s[i..i + |head|] == head
    ensures s[i + |head|..i + |head| + |rest|] == rest
  {
    var whole := head + rest;
    assert s[i..i + |head|] == whole[..|head|];
    assert s[i + |head|..i + |head| + |rest|] == whole[|head|..];
  }

  lemma {:induction false} ExtremeKeys(keys: set<nat>) returns (least: nat, greatest: nat)
    requires keys != {}
    ensures least in keys && greatest in keys
    ensures forall k | k in keys :: least <= k <= greatest
  {
    var some :| some in keys;
    least, greatest := some, some;
    if keys != {some} {
      least, greatest := ExtremeKeys(keys - {some});
      assert forall k | k in keys :: k == some || k in keys - {some};
      least := if some < least then some else least;
      greatest := if greatest < some then some else greatest;
    }
  }

  lemma ExtremesExist(keys: set<nat>)
    requires keys != {}
    ensures exists k :: k in keys && forall other | other in keys :: k <= other
    ensures exists k :: k in keys && forall other | other in keys :: other <= k
  {
    var least, greatest := ExtremeKeys(keys);
  }

  /** The least key. */
  function Least(keys: set<nat>): (k: nat)
    requires keys != {}
    ensures k in keys && forall other | other in keys :: k <= other
  {
    ExtremesExist(keys);
    var k :| k in keys && forall other | other in keys :: k <= other;
    k
  }

  /** One more than the greatest key, 0 for no keys: `keys().next_back().map_or(0, |max| max + 1)`. */
  function NextKey(keys: set<nat>): (next: nat)
    ensures forall k | k in keys :: k < next
    ensures keys == {} ==> next == 0
    ensures keys != {} ==> next > 0 && next - 1 in keys
  {
    if keys == {} then 0
    else
      ExtremesExist(keys);
      var k :| k in keys && forall other | other in keys :: other <= k;
      k + 1
  }

  /** The keys in increasing order. */
  function Ascending(keys: set<nat>): (order: seq<nat>)
    ensures forall k :: k in order <==> k in keys
    ensures forall i | 0 <= i < |order| :: order[i] in keys
    ensures forall i, j | 0 <= i < j < |order| :: order[i] < order[j]
  {
    if keys == {} then []
    else
      var k := Least(keys);
      [k] + Ascending(keys - {k})
  }

  lemma SubsetSize<T>(small: set<T>, large: set<T>)
    requires small <= large
    ensures |small| <= |large|
  {
    assert large == small + (large - small);
  }
}
