/** Repair of a finished argument buffer (src/protocol.rs, `normalize_tool_arguments`): what it leaves alone, what it
    repairs, and that a repaired text needs no further repair. */
module ToolRepair {
  import opened Collections
  import opened JsonText
  import opened JsonSlices
  import opened Text
  import opened ToolArguments

  // ---- A value starts and ends with characters `trim` keeps ----

  lemma {:induction false} StringEnds(s: string, i: nat)
    requires i <= |s| && ScanString(s, i).Some?
    ensures s[ScanString(s, i).value - 1] == '"'
    decreases |s| - i
  {
    if s[i] == '"' {
    } else if s[i] == '\\' {
      StringEnds(s, ScanEscape(s, i).value);
    } else {
      StringEnds(s, i + 1);
    }
  }

  lemma {:induction false} DigitsEnd(s: string, i: nat)
    requires i < |s| && SkipDigits(s, i) > i
    ensures IsDigit(s[SkipDigits(s, i) - 1])
    decreases |s| - i
  {
    if SkipDigits(s, i + 1) > i + 1 {
      DigitsEnd(s, i + 1);
    }
  }

  lemma NumberEnds(s: string, i: nat)
    requires i < |s| && ScanNumber(s, i).Some?
    ensures IsDigit(s[ScanNumber(s, i).value - 1])
  {
    var start := if s[i] == '-' then i + 1 else i;
    var whole := if s[start] == '0' then start + 1 else SkipDigits(s, start);
    var fraction := ScanFraction(s, whole).value;
    if s[start] != '0' {
      DigitsEnd(s, start);
    }
    if fraction > whole {
      DigitsEnd(s, whole + 1);
    }
    if ScanExponent(s, fraction).value > fraction {
      var k := if fraction + 1 < |s| && (s[fraction + 1] == '+' || s[fraction + 1] == '-')
               then fraction + 2 else fraction + 1;
      DigitsEnd(s, k);
    }
  }

  lemma {:induction false} ElementsEnd(s: string, i: nat, depth: nat)
    requires i <= |s| && ScanElements(s, i, depth).Some?
    ensures s[ScanElements(s, i, depth).value - 1] == ']'
    decreases |s| - i
  {
    hide ScanItem, SkipSpace;
    var k := ScanItem(s, SkipSpace(s, i), depth).value;
    if s[k] == ',' {
      ElementsEnd(s, k + 1, depth);
    }
  }

  lemma {:induction false} MembersEnd(s: string, i: nat, depth: nat)
    requires i <= |s| && ScanMembers(s, i, depth).Some?
    ensures s[ScanMembers(s, i, depth).value - 1] == '}'
    decreases |s| - i
  {
    hide ScanItem, ScanName;
    var k := ScanItem(s, ScanName(s, i).value, depth).value;
    if s[k] == ',' {
      MembersEnd(s, k + 1, depth);
    }
  }

  lemma ValueEdges(s: string, i: nat, depth: nat)
    requires i < |s| && ScanValue(s, i, depth).Some?
    ensures !IsTrimmed(s[i]) && !IsTrimmed(s[ScanValue(s, i, depth).value - 1]) && !IsSpace(s[i])
  {
    hide ScanMembers, ScanElements, ScanString, ScanNumber, SkipSpace;
    if s[i] == '"' {
      StringEnds(s, i + 1);
    } else if s[i] == '{' {
      var j := SkipSpace(s, i + 1);
      if !(j < |s| && s[j] == '}') {
        MembersEnd(s, i + 1, depth - 1);
      }
    } else if s[i] == '[' {
      var j := SkipSpace(s, i + 1);
      if !(j < |s| && s[j] == ']') {
        ElementsEnd(s, i + 1, depth - 1);
      }
    } else if HasAt(s, i, "true") || HasAt(s, i, "null") || HasAt(s, i, "false") {
      WordEdges(s, i);
    } else {
      NumberEnds(s, i);
    }
  }

  lemma WordEdges(s: string, i: nat)
    requires i < |s|
    ensures HasAt(s, i, "true") ==> s[i] == 't' && s[i + 3] == 'e'
    ensures HasAt(s, i, "null") ==> s[i] == 'n' && s[i + 3] == 'l'
    ensures HasAt(s, i, "false") ==> s[i] == 'f' && s[i + 4] == 'e'
  {
    if HasAt(s, i, "true") {
      assert s[i..i + 4][0] == 't' && s[i..i + 4][3] == 'e';
    }
    if HasAt(s, i, "null") {
      assert s[i..i + 4][0] == 'n' && s[i..i + 4][3] == 'l';
    }
    if HasAt(s, i, "false") {
      assert s[i..i + 5][0] == 'f' && s[i..i + 5][4] == 'e';
    }
  }

  // ---- Trimming ----

  lemma {:induction false} TrimStartSkips(left: string, rest: string)
    requires AllTrimmed(left) && rest != "" && !IsTrimmed(rest[0])
    ensures TrimStart(left + rest) == rest
  {
    if left == "" {
      assert left + rest == rest;
    } else {
      assert (left + rest)[1..] == left[1..] + rest;
      TrimStartSkips(left[1..], rest);
    }
  }

  lemma {:induction false} TrimEndSkips(rest: string, right: string)
    requires AllTrimmed(right) && rest != "" && !IsTrimmed(rest[|rest| - 1])
    ensures TrimEnd(rest + right) == rest
  {
    if right == "" {
      assert rest + right == rest;
    } else {
      assert (rest + right)[..|rest + right| - 1] == rest + right[..|right| - 1];
      TrimEndSkips(rest, right[..|right| - 1]);
    }
  }

  /** Trimming cuts exactly the blank margins. */
  lemma TrimMargins(left: string, middle: string, right: string)
    requires AllTrimmed(left) && AllTrimmed(right)
    requires middle != "" && !IsTrimmed(middle[0]) && !IsTrimmed(middle[|middle| - 1])
    ensures Trim(left + middle + right) == middle
  {
    assert left + middle + right == left + (middle + right);
    TrimStartSkips(left, middle + right);
    TrimEndSkips(middle, right);
  }

  // ---- One complete value ----

  /** A text that is exactly one value, without margins. */
  predicate IsValue(v: string) {
    ScanValue(v, 0, MAX_DEPTH) == Some(|v|)
  }

  lemma SkipsNothing(s: string, i: nat)
    requires i < |s| ==> !IsSpace(s[i])
    requires i <= |s|
    ensures SkipSpace(s, i) == i
  {
  }

  /** One value with blank margins is left as it came. */
  lemma MarginsKept(left: string, v: string, right: string)
    requires AllTrimmed(left) && AllTrimmed(right) && IsValue(v)
    ensures NormalizeArguments(left + v + right) == (left + v + right, None)
  {
    assert v != "";
    ValueEdges(v, 0, MAX_DEPTH);
    TrimMargins(left, v, right);
    hide ScanValue, Trim, LastObject;
    SkipsNothing(v, 0);
    SkipsNothing(v, |v|);
  }

  /** An accepted text is one value between whitespace margins. */
  lemma AcceptedShape(raw: string) returns (left: string, v: string, right: string)
    requires Accepts(raw)
    ensures raw == left + v + right && AllSpace(left) && AllSpace(right) && IsValue(v)
  {
    hide ScanValue, SkipSpace;
    var from := SkipSpace(raw, 0);
    var to := ScanValue(raw, from, MAX_DEPTH).value;
    SkippedIsSpace(raw, 0, from);
    SkippedIsSpace(raw, to, |raw|);
    ValueAlone(raw, from, to, MAX_DEPTH);
    left, v, right := raw[0..from], raw[from..to], raw[to..|raw|];
    InThree(raw, from, to);
  }

  lemma SkippedIsSpace(raw: string, i: nat, j: nat)
    requires i <= |raw| && SkipSpace(raw, i) == j
    ensures AllSpace(raw[i..j])
  {
    SkipSpaceMeaning(raw, i);
    hide SkipSpace;
  }

  lemma SpaceIsTrimmed(s: string)
    requires AllSpace(s)
    ensures AllTrimmed(s)
  {
  }

  lemma InThree(raw: string, i: nat, j: nat)
    requires i <= j <= |raw|
    ensures raw == raw[0..i] + raw[i..j] + raw[j..|raw|]
  {
  }

  /** A complete text, as the parser accepts it, is unchanged and needs no repair. */
  lemma CompleteIsUnchanged(raw: string)
    requires Accepts(raw)
    ensures NormalizeArguments(raw) == (raw, None)
  {
    hide Accepts, NormalizeArguments, IsValue;
    var left, v, right := AcceptedShape(raw);
    SpaceIsTrimmed(left);
    SpaceIsTrimmed(right);
    MarginsKept(left, v, right);
  }

  // ---- When an unrepaired text is a JSON text ----

  lemma SkipSpaceOver(left: string, rest: string)
    requires AllSpace(left) && (rest != "" ==> !IsSpace(rest[0]))
    ensures SkipSpace(left + rest, 0) == |left|
  {
    SkipSpaceMeaning(left + rest, 0);
    hide SkipSpace;
    var all, end := left + rest, SkipSpace(left + rest, 0);
    assert forall k | 0 <= k < |left| :: all[k] == left[k];
    assert rest != "" ==> all[|left|] == rest[0];
  }

  lemma SkipSpaceToEnd(s: string, i: nat)
    requires i <= |s| && AllSpace(s[i..])
    ensures SkipSpace(s, i) == |s|
    decreases |s| - i
  {
    if i < |s| {
      assert s[i] == s[i..][0];
      assert s[i + 1..] == s[i..][1..];
      SkipSpaceToEnd(s, i + 1);
    }
  }

  /** What stands at `i`, if anything, continues no number. */
  predicate NoNumberAt(s: string, i: nat) {
    i < |s| ==> !IsDigit(s[i]) && s[i] != '.' && s[i] != 'e' && s[i] != 'E'
  }

  lemma DigitsBefore(v: string, s: string, i: nat)
    requires v <= s && i <= |v| && NoNumberAt(s, |v|)
    ensures SkipDigits(s, i) == SkipDigits(v, i)
    decreases |v| - i
  {
    if i < |v| && IsDigit(v[i]) {
      DigitsBefore(v, s, i + 1);
    }
  }

  lemma FractionBefore(v: string, s: string, i: nat)
    requires v <= s && i <= |v| && NoNumberAt(s, |v|)
    ensures ScanFraction(s, i) == ScanFraction(v, i)
  {
    if i < |v| {
      DigitsBefore(v, s, i + 1);
    }
  }

  lemma ExponentBefore(v: string, s: string, i: nat)
    requires v <= s && i <= |v| && NoNumberAt(s, |v|) && ScanExponent(v, i).Some?
    ensures ScanExponent(s, i) == ScanExponent(v, i)
  {
    if i < |v| {
      DigitsBefore(v, s, i + 1);
      if i + 1 < |v| {
        DigitsBefore(v, s, i + 2);
      }
    }
  }

  lemma NumberBefore(v: string, s: string)
    requires v <= s && v != "" && NoNumberAt(s, |v|) && ScanNumber(v, 0).Some?
    ensures ScanNumber(s, 0) == ScanNumber(v, 0)
  {
    var start := if v[0] == '-' then 1 else 0;
    var whole := if v[start] == '0' then start + 1 else SkipDigits(v, start);
    DigitsBefore(v, s, start);
    FractionBefore(v, s, whole);
    ExponentBefore(v, s, ScanFraction(v, whole).value);
  }

  /** A value is read to the same end when something follows that continues no number. */
  lemma ValueBefore(v: string, s: string)
    requires v <= s && IsValue(v) && NoNumberAt(s, |v|)
    ensures ScanValue(s, 0, MAX_DEPTH) == Some(|v|)
  {
    assert v[0] == s[0];
    if IsOpening(v[0]) {
      ScanValueStable(v, s, 0, MAX_DEPTH);
    } else {
      WordEdges(v, 0);
      WordEdges(s, 0);
      if HasAt(v, 0, "true") {
        HasAtStable(v, s, 0, "true");
      } else if HasAt(v, 0, "null") {
        HasAtStable(v, s, 0, "null");
      } else if HasAt(v, 0, "false") {
        HasAtStable(v, s, 0, "false");
      } else {
        NumberBefore(v, s);
      }
    }
  }

  lemma ValueThenSpace(v: string, right: string)
    requires IsValue(v) && AllSpace(right)
    ensures ScanValue(v + right, 0, MAX_DEPTH) == Some(|v|) && !IsSpace((v + right)[0])
  {
    assert v != "";
    ValueEdges(v, 0, MAX_DEPTH);
    var rest := v + right;
    assert rest[0] == v[0] && (right != "" ==> rest[|v|] == right[0]);
    hide ScanValue;
    ValueBefore(v, rest);
  }

  /** One value between whitespace is accepted. */
  lemma SpacedIsAccepted(left: string, v: string, right: string)
    requires AllSpace(left) && AllSpace(right) && IsValue(v)
    ensures Accepts(left + v + right)
  {
    hide ScanValue, SkipSpace, IsValue, AllSpace;
    var raw, rest := left + v + right, v + right;
    ValueThenSpace(v, right);
    assert raw == left + rest && raw[|left|..] == rest;
    SkipSpaceOver(left, rest);
    ScanValueShift(raw, |left|, 0, MAX_DEPTH);
    assert raw[|left| + |v|..] == right;
    SkipSpaceToEnd(raw, |left| + |v|);
  }

  /** Both margins are whitespace to the parser too. */
  predicate PlainMargins(raw: string) {
    AllSpace(LeftMargin(raw)) && AllSpace(RightMargin(raw))
  }

  /** What passes unrepaired holds one value between its margins. */
  lemma UnrepairedHoldsValue(raw: string)
    requires NormalizeArguments(raw) == (raw, None)
    ensures IsValue(Trim(raw))
  {
    TrimSplits(raw);
    var s := Trim(raw);
    EmptyObjectTrimmed();
    hide ScanValue, Trim, LastObject, SkipSpace;
    assert s != "";
    SkipsToContent(s);
    var to := ScanValue(s, 0, MAX_DEPTH).value;
    SkipSpaceMeaning(s, to);
    assert to < |s| ==> IsSpace(s[|s| - 1]);
  }

  lemma EmptyObjectTrimmed()
    ensures Trim("{}") == "{}"
  {
    assert "" + "{}" + "" == "{}";
    TrimMargins("", "{}", "");
  }

  lemma SkipsToContent(s: string)
    requires s != "" && !IsTrimmed(s[0])
    ensures SkipSpace(s, 0) == 0
  {
  }

  /** Main result: the parser accepts a text exactly when the text passes unrepaired and every character that `trim`
      takes off either end is whitespace to the parser as well. */
  lemma AcceptedIff(raw: string)
    ensures Accepts(raw) <==> NormalizeArguments(raw) == (raw, None) && PlainMargins(raw)
  {
    hide Accepts, NormalizeArguments, IsValue;
    if Accepts(raw) {
      CompleteIsUnchanged(raw);
      var left, v, right := AcceptedShape(raw);
      MarginsAre(left, v, right);
    }
    if NormalizeArguments(raw) == (raw, None) && PlainMargins(raw) {
      UnrepairedHoldsValue(raw);
      TrimSplits(raw);
      hide Trim;
      SpacedIsAccepted(LeftMargin(raw), Trim(raw), RightMargin(raw));
    }
  }

  lemma MarginsAre(left: string, v: string, right: string)
    requires AllSpace(left) && AllSpace(right) && IsValue(v)
    ensures LeftMargin(left + v + right) == left && RightMargin(left + v + right) == right
  {
    assert v != "";
    ValueEdges(v, 0, MAX_DEPTH);
    hide IsValue;
    SpaceIsTrimmed(left);
    SpaceIsTrimmed(right);
    TrimMargins(left, v, right);
    assert left + v + right == left + (v + right);
    TrimStartSkips(left, v + right);
  }

  /** The converse fails on margins only `trim` knows: the text passes unrepaired although no parser accepts it. */
  lemma UnicodeMarginPasses(v: string)
    requires IsValue(v)
    ensures NormalizeArguments("\U{A0}" + v) == ("\U{A0}" + v, None) && !Accepts("\U{A0}" + v)
  {
    var raw := "\U{A0}" + v;
    assert "\U{A0}" + v + "" == raw;
    MarginsKept("\U{A0}", v, "");
    assert raw[0] == '\U{A0}';
    SkipsNothing(raw, 0);
    NoWordAt(raw);
  }

  lemma NoWordAt(raw: string)
    requires raw != "" && raw[0] == '\U{A0}'
    ensures ScanValue(raw, 0, MAX_DEPTH).None?
  {
    WordEdges(raw, 0);
  }

  // ---- Repair ----

  /** What the parser reports as a value is a value on its own. */
  lemma NextIsValue(s: string, i: nat)
    requires i <= |s| && NextValue(s, i).Value?
    ensures IsValue(s[NextValue(s, i).from..NextValue(s, i).to])
  {
    var next := NextValue(s, i);
    ValueAlone(s, next.from, next.to, MAX_DEPTH);
  }

  lemma {:induction false} LastObjectIsValue(s: string, i: nat, found: Option<string>)
    requires i <= |s| && (found.Some? ==> IsValue(found.value))
    ensures LastObject(s, i, found).Some? ==> IsValue(LastObject(s, i, found).value)
    decreases |s| - i
  {
    hide NextValue;
    match NextValue(s, i)
    case Value(from, to) =>
      NextIsValue(s, i);
      LastObjectIsValue(s, to, if s[from] == '{' then Some(s[from..to]) else found);
    case _ =>
  }

  /** The finished arguments as the source writes them: a value kept from text with trailing data is parsed and
      printed again, by a printer whose spacing and number format are left open. */
  function Reprinted(raw: string, printed: string -> string): (string, Option<Repair>) {
    var (arguments, repair) := NormalizeArguments(raw);
    (if repair == Some(TrailingData) then printed(arguments) else arguments, repair)
  }

  /** All that is asked of the printer. */
  ghost predicate PrintsValues(printed: string -> string) {
    forall v | IsValue(v) :: IsValue(printed(v))
  }

  /** Whatever is repaired becomes exactly one complete value, or an empty object for blank arguments. */
  lemma KeptIsValue(raw: string)
    ensures var (arguments, repair) := NormalizeArguments(raw);
            (arguments != raw || repair == Some(TrailingData)) ==> IsValue(arguments)
  {
    var s := Trim(raw);
    if s == "" || NextValue(s, 0).End? {
      EmptyObject();
    } else if NextValue(s, 0).Value? && !NextValue(s, NextValue(s, 0).to).End? {
      NextIsValue(s, 0);
      LastObjectIsValue(s, NextValue(s, 0).to, None);
    }
  }

  lemma RepairedIsValue(raw: string, printed: string -> string)
    requires PrintsValues(printed)
    ensures var (arguments, repair) := Reprinted(raw, printed);
            (arguments != raw || repair == Some(TrailingData)) ==> IsValue(arguments)
  {
    KeptIsValue(raw);
    var kept := NormalizeArguments(raw).0;
    hide IsValue, NormalizeArguments;
    assert IsValue(kept) ==> IsValue(printed(kept));
  }

  lemma EmptyObject()
    ensures IsValue("{}")
  {
    assert SkipSpace("{}", 1) == 1;
  }

  /** Repairing twice is repairing once, and a repaired text reports nothing the second time. */
  lemma RepairIsIdempotent(raw: string, printed: string -> string)
    requires PrintsValues(printed)
    ensures var (arguments, repair) := Reprinted(raw, printed);
            var (again, second) := Reprinted(arguments, printed);
            again == arguments && (second.Some? ==> second == repair == Some(Unparseable))
  {
    hide IsValue, NormalizeArguments;
    RepairedIsValue(raw, printed);
    var (arguments, repair) := Reprinted(raw, printed);
    if arguments != raw || repair == Some(TrailingData) {
      assert "" + arguments + "" == arguments;
      MarginsKept("", arguments, "");
    } else if repair.Some? {
      assert repair.value.Unparseable?;
    }
  }

  /** Where the parser finds the two values of a concatenation. */
  lemma TwoValues(first: string, second: string)
    requires IsValue(first) && IsOpening(first[0]) && IsValue(second) && IsOpening(second[0])
    ensures var all, n := first + second, |first|;
            NextValue(all, 0) == Value(0, n) && NextValue(all, n) == Value(n, |all|) && NextValue(all, |all|) == End
  {
    var all, n := first + second, |first|;
    ValueEdges(first, 0, MAX_DEPTH);
    ValueEdges(second, 0, MAX_DEPTH);
    ScanValueStable(first, all, 0, MAX_DEPTH);
    assert all[n..] == second;
    ScanValueShift(all, n, 0, MAX_DEPTH);
    hide ScanValue;
    SkipsNothing(all, 0);
    SkipsNothing(all, n);
    SkipsNothing(all, |all|);
  }

  lemma ConcatenationTrimmed(first: string, second: string)
    requires IsValue(first) && IsValue(second)
    ensures Trim(first + second) == first + second
  {
    ValueEdges(first, 0, MAX_DEPTH);
    ValueEdges(second, 0, MAX_DEPTH);
    hide Trim;
    assert "" + (first + second) + "" == first + second;
    TrimMargins("", first + second, "");
  }

  /** A complete object that follows another complete delimited value is what the repair keeps: the real arguments win
      over a placeholder sent before them. */
  lemma PlaceholderRepaired(placeholder: string, arguments: string, printed: string -> string)
    requires IsValue(placeholder) && IsOpening(placeholder[0])
    requires IsValue(arguments) && arguments[0] == '{'
    ensures Reprinted(placeholder + arguments, printed) == (printed(arguments), Some(TrailingData))
  {
    var all, n := placeholder + arguments, |placeholder|;
    TwoValues(placeholder, arguments);
    ConcatenationTrimmed(placeholder, arguments);
    hide IsValue, NextValue, Trim;
    assert all[n..|all|] == arguments && all[n] == '{';
    assert LastObject(all, |all|, Some(arguments)) == Some(arguments);
    assert LastObject(all, n, None) == Some(arguments);
  }
}
