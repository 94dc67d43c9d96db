/** A recogniser for JSON texts (section 2 of RFC 8259) with the nesting limit of the JSON parser the gateway
    uses, and the fact everything else rests on: a complete object, array or string cannot be extended to a
    longer complete text except by whitespace. */
module JsonText {
  import opened Collections

  /** The parser refuses the 128th level of nesting. */
  const MAX_DEPTH: nat := 127

  predicate IsSpace(c: char) {
    c == ' ' || c == '\t' || c == '\n' || c == '\r'
  }

  predicate IsDigit(c: char) {
    '0' <= c <= '9'
  }

  predicate IsHex(c: char) {
    IsDigit(c) || 'a' <= c <= 'f' || 'A' <= c <= 'F'
  }

  /** A value that ends by its own closing byte. */
  predicate IsOpening(c: char) {
    c == '{' || c == '[' || c == '"'
  }

  predicate AllSpace(s: string) {
    forall i | 0 <= i < |s| :: IsSpace(s[i])
  }

  /** First position at or after `i` that does not hold whitespace. */
  function SkipSpace(s: string, i: nat): (j: nat)
    requires i <= |s|
    ensures i <= j <= |s|
    decreases |s| - i
  {
    if i < |s| && IsSpace(s[i]) then SkipSpace(s, i + 1) else i
  }

  function SkipDigits(s: string, i: nat): (j: nat)
    requires i <= |s|
    ensures i <= j <= |s|
    decreases |s| - i
  {
    if i < |s| && IsDigit(s[i]) then SkipDigits(s, i + 1) else i
  }

  predicate HasAt(s: string, i: nat, word: string) {
    i + |word| <= |s| && s[i..i + |word|] == word
  }

  function HexValue(c: char): nat
    requires IsHex(c)
  {
    if IsDigit(c) then c as nat - '0' as nat
    else if 'a' <= c <= 'f' then c as nat - 'a' as nat + 10
    else c as nat - 'A' as nat + 10
  }

  /** The code unit written by four hexadecimal digits at `i`. */
  function Hex4(s: string, i: nat): (unit: Option<nat>)
    ensures unit.Some? ==> i + 4 <= |s|
  {
    if i + 4 <= |s| && (forall k | i <= k < i + 4 :: IsHex(s[k])) then
      Some(((HexValue(s[i]) * 16 + HexValue(s[i + 1])) * 16 + HexValue(s[i + 2])) * 16 + HexValue(s[i + 3]))
    else None
  }

  /** End of the escape sequence whose backslash is at `i`.  A high surrogate must be followed by a low one. */
  function ScanEscape(s: string, i: nat): (end: Option<nat>)
    requires i < |s|
    ensures end.Some? ==> i + 2 <= end.value <= |s|
  {
    if i + 1 >= |s| then None
    else if s[i + 1] in "\"\\/bfnrt" then Some(i + 2)
    else if s[i + 1] != 'u' then None
    else match Hex4(s, i + 2)
      case None => None
      case Some(unit) =>
        if 0xDC00 <= unit <= 0xDFFF then None
        else if 0xD800 <= unit <= 0xDBFF then
          if HasAt(s, i + 6, "\\u") then
            match Hex4(s, i + 8)
            case Some(low) => if 0xDC00 <= low <= 0xDFFF then Some(i + 12) else None
            case None => None
          else None
        else Some(i + 6)
  }

  /** End of the string whose content starts at `i` (just past the opening quote). */
  function ScanString(s: string, i: nat): (end: Option<nat>)
    requires i <= |s|
    ensures end.Some? ==> i < end.value <= |s|
    decreases |s| - i
  {
    if i >= |s| then None
    else if s[i] == '"' then Some(i + 1)
    else if s[i] == '\\' then
      match ScanEscape(s, i)
      case None => None
      case Some(j) => ScanString(s, j)
    else if s[i] < ' ' then None
    else ScanString(s, i + 1)
  }

  /** Optional fraction at `i`. */
  function ScanFraction(s: string, i: nat): (end: Option<nat>)
    requires i <= |s|
    ensures end.Some? ==> i <= end.value <= |s|
  {
    if i < |s| && s[i] == '.' then
      var j := SkipDigits(s, i + 1);
      if j > i + 1 then Some(j) else None
    else Some(i)
  }

  /** Optional exponent at `i`. */
  function ScanExponent(s: string, i: nat): (end: Option<nat>)
    requires i <= |s|
    ensures end.Some? ==> i <= end.value <= |s|
  {
    if i < |s| && (s[i] == 'e' || s[i] == 'E') then
      var k := if i + 1 < |s| && (s[i + 1] == '+' || s[i + 1] == '-') then i + 2 else i + 1;
      var j := SkipDigits(s, k);
      if j > k then Some(j) else None
    else Some(i)
  }

  /** End of the longest number at `i`. */
  function ScanNumber(s: string, i: nat): (end: Option<nat>)
    requires i < |s|
    ensures end.Some? ==> i < end.value <= |s|
  {
    var start := if s[i] == '-' then i + 1 else i;
    if start >= |s| || !IsDigit(s[start]) then None
    else
      var whole := if s[start] == '0' then start + 1 else SkipDigits(s, start);
      match ScanFraction(s, whole)
      case None => None
      case Some(j) => ScanExponent(s, j)
  }

  /** End of the literal or number at `i`. */
  function ScanAtom(s: string, i: nat): (end: Option<nat>)
    requires i < |s|
    ensures end.Some? ==> i < end.value <= |s|
  {
    if HasAt(s, i, "true") || HasAt(s, i, "null") then Some(i + 4)
    else if HasAt(s, i, "false") then Some(i + 5)
    else if s[i] == '-' || IsDigit(s[i]) then ScanNumber(s, i)
    else None
  }

  /** End of the value whose first character is at `i`, with `depth` more levels of nesting allowed. */
  function ScanValue(s: string, i: nat, depth: nat): (end: Option<nat>)
    requires i <= |s|
    ensures end.Some? ==> i < end.value <= |s|
    decreases |s| - i, 1
  {
    if i >= |s| then None
    else if s[i] == '"' then ScanString(s, i + 1)
    else if s[i] == '{' then
      if depth == 0 then None
      else
        var j := SkipSpace(s, i + 1);
        if j < |s| && s[j] == '}' then Some(j + 1) else ScanMembers(s, i + 1, depth - 1)
    else if s[i] == '[' then
      if depth == 0 then None
      else
        var j := SkipSpace(s, i + 1);
        if j < |s| && s[j] == ']' then Some(j + 1) else ScanElements(s, i + 1, depth - 1)
    else ScanAtom(s, i)
  }

  /** Position of the separator that follows the value at `i`. */
  function ScanItem(s: string, i: nat, depth: nat): (separator: Option<nat>)
    requires i <= |s|
    ensures separator.Some? ==> i < separator.value < |s|
    decreases |s| - i, 2
  {
    match ScanValue(s, i, depth)
    case None => None
    case Some(v) =>
      var k := SkipSpace(s, v);
      if k < |s| then Some(k) else None
  }

  /** End of an array whose next element starts at or after `i`. */
  function ScanElements(s: string, i: nat, depth: nat): (end: Option<nat>)
    requires i <= |s|
    ensures end.Some? ==> i < end.value <= |s|
    decreases |s| - i, 3
  {
    match ScanItem(s, SkipSpace(s, i), depth)
    case None => None
    case Some(k) =>
      if s[k] == ',' then ScanElements(s, k + 1, depth)
      else if s[k] == ']' then Some(k + 1)
      else None
  }

  /** Start of the value of the member whose name starts at or after `i`. */
  function ScanName(s: string, i: nat): (value: Option<nat>)
    requires i <= |s|
    ensures value.Some? ==> i < value.value <= |s|
  {
    var q := SkipSpace(s, i);
    if q >= |s| || s[q] != '"' then None
    else match ScanString(s, q + 1)
      case None => None
      case Some(e) =>
        var c := SkipSpace(s, e);
        if c >= |s| || s[c] != ':' then None else Some(SkipSpace(s, c + 1))
  }

  /** End of an object whose next member starts at or after `i`. */
  function ScanMembers(s: string, i: nat, depth: nat): (end: Option<nat>)
    requires i <= |s|
    ensures end.Some? ==> i < end.value <= |s|
    decreases |s| - i, 3
  {
    match ScanName(s, i)
    case None => None
    case Some(first) =>
      match ScanItem(s, first, depth)
      case None => None
      case Some(k) =>
        if s[k] == ',' then ScanMembers(s, k + 1, depth)
        else if s[k] == '}' then Some(k + 1)
        else None
  }

  /** `s` is one JSON value surrounded by optional whitespace, nested at most `depth` levels deep. */
  predicate IsTextWithin(s: string, depth: nat) {
    match ScanValue(s, SkipSpace(s, 0), depth)
    case None => false
    case Some(j) => SkipSpace(s, j) == |s|
  }

  /** What the gateway's parser accepts. */
  predicate Accepts(s: string) {
    IsTextWithin(s, MAX_DEPTH)
  }

  /** A text whose value is an object, an array or a string. */
  predicate IsDelimitedText(s: string, depth: nat) {
    IsTextWithin(s, depth) && IsOpening(s[SkipSpace(s, 0)])
  }

  lemma SkipSpaceMeaning(s: string, i: nat)
    requires i <= |s|
    ensures forall k | i <= k < SkipSpace(s, i) :: IsSpace(s[k])
    ensures SkipSpace(s, i) < |s| ==> !IsSpace(s[SkipSpace(s, i)])
    decreases |s| - i
  {
    if i < |s| && IsSpace(s[i]) {
      SkipSpaceMeaning(s, i + 1);
    }
  }

  // ---- Scanning looks no further than the end it reports ----

  lemma SkipSpaceStable(p: string, s: string, i: nat)
    requires p <= s && i <= |p|
    ensures SkipSpace(p, i) < |p| ==> SkipSpace(s, i) == SkipSpace(p, i)
    ensures SkipSpace(p, i) == |p| ==> SkipSpace(s, i) >= |p|
    decreases |p| - i
  {
    if i < |p| && IsSpace(p[i]) {
      SkipSpaceStable(p, s, i + 1);
    }
  }

  lemma SkipDigitsStable(p: string, s: string, i: nat)
    requires p <= s && i <= |p|
    ensures SkipDigits(p, i) < |p| ==> SkipDigits(s, i) == SkipDigits(p, i)
    decreases |p| - i
  {
    if i < |p| && IsDigit(p[i]) {
      SkipDigitsStable(p, s, i + 1);
    }
  }

  lemma {:induction false} ScanStringStable(p: string, s: string, i: nat)
    requires p <= s && i <= |p| && ScanString(p, i).Some?
    ensures ScanString(s, i) == ScanString(p, i)
    decreases |p| - i
  {
    if p[i] == '"' {
    } else if p[i] == '\\' {
      assert ScanEscape(s, i) == ScanEscape(p, i);
      ScanStringStable(p, s, ScanEscape(p, i).value);
    } else {
      ScanStringStable(p, s, i + 1);
    }
  }

  lemma ScanFractionStable(p: string, s: string, i: nat)
    requires p <= s && i <= |p| && ScanFraction(p, i).Some? && ScanFraction(p, i).value < |p|
    ensures ScanFraction(s, i) == ScanFraction(p, i)
  {
    if p[i] == '.' {
      SkipDigitsStable(p, s, i + 1);
    }
  }

  lemma ScanExponentStable(p: string, s: string, i: nat)
    requires p <= s && i <= |p| && ScanExponent(p, i).Some? && ScanExponent(p, i).value < |p|
    ensures ScanExponent(s, i) == ScanExponent(p, i)
  {
    if p[i] == 'e' || p[i] == 'E' {
      SkipDigitsStable(p, s, i + 1);
      if i + 1 < |p| && (p[i + 1] == '+' || p[i + 1] == '-') {
        SkipDigitsStable(p, s, i + 2);
      }
    }
  }

  lemma ScanNumberStable(p: string, s: string, i: nat)
    requires p <= s && i < |p| && ScanNumber(p, i).Some? && ScanNumber(p, i).value < |p|
    ensures ScanNumber(s, i) == ScanNumber(p, i)
  {
    var start := if p[i] == '-' then i + 1 else i;
    var whole := if p[start] == '0' then start + 1 else SkipDigits(p, start);
    var fraction := ScanFraction(p, whole);
    assert whole <= fraction.value <= ScanExponent(p, fraction.value).value < |p|;
    SkipDigitsStable(p, s, start);
    ScanFractionStable(p, s, whole);
    ScanExponentStable(p, s, fraction.value);
  }

  lemma ScanNameStable(p: string, s: string, i: nat)
    requires p <= s && i <= |p| && ScanName(p, i).Some? && ScanName(p, i).value < |p|
    ensures ScanName(s, i) == ScanName(p, i)
  {
    var q := SkipSpace(p, i);
    SkipSpaceStable(p, s, i);
    ScanStringStable(p, s, q + 1);
    var e := ScanString(p, q + 1).value;
    SkipSpaceStable(p, s, e);
    SkipSpaceStable(p, s, SkipSpace(p, e) + 1);
  }

  lemma HasAtStable(p: string, s: string, i: nat, word: string)
    requires p <= s && i + |word| <= |p|
    ensures HasAt(p, i, word) == HasAt(s, i, word)
  {
    assert p[i..i + |word|] == s[i..i + |word|];
  }

  lemma ScanAtomStable(p: string, s: string, i: nat)
    requires p <= s && i < |p| && ScanAtom(p, i).Some? && ScanAtom(p, i).value < |p|
    ensures ScanAtom(s, i) == ScanAtom(p, i)
  {
    if HasAt(p, i, "true") {
      HasAtStable(p, s, i, "true");
    } else if HasAt(p, i, "null") {
      HasAtStable(p, s, i, "null");
    } else if HasAt(p, i, "false") {
      HasAtStable(p, s, i, "false");
      assert s[i] == p[i] == 'f';
    } else {
      ScanNumberStable(p, s, i);
      assert s[i] == p[i];
    }
  }

  /** A value that ends inside the prefix, or closes itself, ends at the same place in every extension. */
  lemma {:induction false} ScanValueStable(p: string, s: string, i: nat, depth: nat)
    requires p <= s && i < |p| && ScanValue(p, i, depth).Some?
    requires ScanValue(p, i, depth).value < |p| || IsOpening(p[i])
    ensures ScanValue(s, i, depth) == ScanValue(p, i, depth)
    decreases |p| - i, 1
  {
    if p[i] == '"' {
      ScanStringStable(p, s, i + 1);
    } else if p[i] == '{' {
      SkipSpaceStable(p, s, i + 1);
      var j := SkipSpace(p, i + 1);
      if !(j < |p| && p[j] == '}') {
        ScanMembersStable(p, s, i + 1, depth - 1);
      }
    } else if p[i] == '[' {
      SkipSpaceStable(p, s, i + 1);
      var j := SkipSpace(p, i + 1);
      if !(j < |p| && p[j] == ']') {
        ScanElementsStable(p, s, i + 1, depth - 1);
      }
    } else {
      ScanAtomStable(p, s, i);
    }
  }

  lemma {:induction false} ScanItemStable(p: string, s: string, i: nat, depth: nat)
    requires p <= s && i <= |p| && ScanItem(p, i, depth).Some?
    ensures ScanItem(s, i, depth) == ScanItem(p, i, depth)
    decreases |p| - i, 2
  {
    ScanValueStable(p, s, i, depth);
    SkipSpaceStable(p, s, ScanValue(p, i, depth).value);
  }

  lemma {:induction false} ScanElementsStable(p: string, s: string, i: nat, depth: nat)
    requires p <= s && i <= |p| && ScanElements(p, i, depth).Some?
    ensures ScanElements(s, i, depth) == ScanElements(p, i, depth)
    decreases |p| - i, 3
  {
    hide ScanItem, SkipSpace, ScanName;
    var first := SkipSpace(p, i);
    SkipSpaceStable(p, s, i);
    ScanItemStable(p, s, first, depth);
    var k := ScanItem(p, first, depth).value;
    if p[k] == ',' {
      ScanElementsStable(p, s, k + 1, depth);
    }
  }

  lemma {:induction false} ScanMembersStable(p: string, s: string, i: nat, depth: nat)
    requires p <= s && i <= |p| && ScanMembers(p, i, depth).Some?
    ensures ScanMembers(s, i, depth) == ScanMembers(p, i, depth)
    decreases |p| - i, 3
  {
    hide ScanItem, SkipSpace, ScanName;
    ScanNameStable(p, s, i);
    var first := ScanName(p, i).value;
    ScanItemStable(p, s, first, depth);
    var k := ScanItem(p, first, depth).value;
    if p[k] == ',' {
      ScanMembersStable(p, s, k + 1, depth);
    }
  }

  // ---- A larger nesting budget changes no successful scan ----

  lemma {:induction false} ScanValueDeeper(s: string, i: nat, depth: nat, deeper: nat)
    requires i <= |s| && depth <= deeper && ScanValue(s, i, depth).Some?
    ensures ScanValue(s, i, deeper) == ScanValue(s, i, depth)
    decreases |s| - i, 1
  {
    if s[i] == '{' {
      var j := SkipSpace(s, i + 1);
      if !(j < |s| && s[j] == '}') {
        ScanMembersDeeper(s, i + 1, depth - 1, deeper - 1);
      }
    } else if s[i] == '[' {
      var j := SkipSpace(s, i + 1);
      if !(j < |s| && s[j] == ']') {
        ScanElementsDeeper(s, i + 1, depth - 1, deeper - 1);
      }
    }
  }

  lemma {:induction false} ScanElementsDeeper(s: string, i: nat, depth: nat, deeper: nat)
    requires i <= |s| && depth <= deeper && ScanElements(s, i, depth).Some?
    ensures ScanElements(s, i, deeper) == ScanElements(s, i, depth)
    decreases |s| - i, 3
  {
    hide ScanValue, SkipSpace, ScanName;
    var first := SkipSpace(s, i);
    ScanValueDeeper(s, first, depth, deeper);
    var k := ScanItem(s, first, depth).value;
    if s[k] == ',' {
      ScanElementsDeeper(s, k + 1, depth, deeper);
    }
  }

  lemma {:induction false} ScanMembersDeeper(s: string, i: nat, depth: nat, deeper: nat)
    requires i <= |s| && depth <= deeper && ScanMembers(s, i, depth).Some?
    ensures ScanMembers(s, i, deeper) == ScanMembers(s, i, depth)
    decreases |s| - i, 3
  {
    hide ScanValue, SkipSpace, ScanName;
    var first := ScanName(s, i).value;
    ScanValueDeeper(s, first, depth, deeper);
    var k := ScanItem(s, first, depth).value;
    if s[k] == ',' {
      ScanMembersDeeper(s, k + 1, depth, deeper);
    }
  }

  /** The grammar fact behind argument accumulation: once a proper prefix of an object, array or string text is
      itself a complete text, only whitespace can follow. */
  lemma {:induction false} CompletePrefixLeavesSpace(p: string, s: string, pDepth: nat, sDepth: nat)
    requires p <= s && IsTextWithin(p, pDepth) && IsDelimitedText(s, sDepth)
    ensures AllSpace(s[|p|..])
  {
    var i := SkipSpace(p, 0);
    SkipSpaceStable(p, s, 0);
    var j := ScanValue(p, i, pDepth).value;
    ScanValueStable(p, s, i, pDepth);
    var deep := if pDepth <= sDepth then sDepth else pDepth;
    ScanValueDeeper(s, i, pDepth, deep);
    ScanValueDeeper(s, i, sDepth, deep);
    SkipSpaceMeaning(s, j);
  }
}
