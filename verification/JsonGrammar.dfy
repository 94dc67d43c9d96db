/** The grammar of JSON (sections 2 to 7 of RFC 8259) as it is written down, and the theorem that the recogniser
    accepts exactly its texts. */
module JsonGrammar {
  import opened Collections
  import opened JsonText

  // ---- The grammar, of the part of `s` from `i` up to `j` ----

  predicate Blank(c: char) {
    c in " \t\n\r"
  }

  predicate HexDigit(c: char) {
    c in "0123456789abcdefABCDEF"
  }

  ghost predicate SpaceIn(s: string, i: nat, j: nat) {
    i <= j <= |s| && forall k | i <= k < j :: Blank(s[k])
  }

  ghost predicate DigitsIn(s: string, i: nat, j: nat) {
    i < j <= |s| && forall k | i <= k < j :: '0' <= s[k] <= '9'
  }

  predicate WordIn(s: string, i: nat, j: nat) {
    i <= j <= |s| && (s[i..j] == "true" || s[i..j] == "false" || s[i..j] == "null")
  }

  predicate MinusIn(s: string, i: nat, j: nat) {
    i <= j <= |s| && (j == i || (j == i + 1 && s[i] == '-'))
  }

  /** A zero alone, or digits that do not start with it. */
  ghost predicate WholeIn(s: string, i: nat, j: nat) {
    i < j <= |s| && ((j == i + 1 && s[i] == '0') || (s[i] != '0' && DigitsIn(s, i, j)))
  }

  ghost predicate FractionIn(s: string, i: nat, j: nat) {
    i <= j <= |s| && (j == i || (s[i] == '.' && DigitsIn(s, i + 1, j)))
  }

  ghost predicate ExponentIn(s: string, i: nat, j: nat) {
    && i <= j <= |s|
    && (j == i
        || ((s[i] == 'e' || s[i] == 'E')
            && (DigitsIn(s, i + 1, j) || (i + 1 < j && (s[i + 1] == '+' || s[i + 1] == '-') && DigitsIn(s, i + 2, j)))))
  }

  ghost predicate NumberIn(s: string, i: nat, j: nat) {
    exists a, b, c :: MinusIn(s, i, a) && WholeIn(s, a, b) && FractionIn(s, b, c) && ExponentIn(s, c, j)
  }

  predicate HexAt(s: string, i: nat) {
    i + 4 <= |s| && forall k | i <= k < i + 4 :: HexDigit(s[k])
  }

  /** Four hexadecimal digits from D800 to DBFF, and from DC00 to DFFF. */
  predicate HighAt(s: string, i: nat) {
    HexAt(s, i) && s[i] in "dD" && s[i + 1] in "89abAB"
  }

  predicate LowAt(s: string, i: nat) {
    HexAt(s, i) && s[i] in "dD" && s[i + 1] in "cdefCDEF"
  }

  /** An unescaped character, a short escape, or one or two code units written out. */
  predicate CharIn(s: string, i: nat, j: nat) {
    && i < j <= |s|
    && ((j == i + 1 && s[i] >= ' ' && s[i] != '"' && s[i] != '\\')
        || (j == i + 2 && s[i] == '\\' && s[i + 1] in "\"\\/bfnrt")
        || (j == i + 6 && s[i] == '\\' && s[i + 1] == 'u' && HexAt(s, i + 2) && !HighAt(s, i + 2) && !LowAt(s, i + 2))
        || (j == i + 12 && s[i] == '\\' && s[i + 1] == 'u' && HighAt(s, i + 2)
            && s[i + 6] == '\\' && s[i + 7] == 'u' && LowAt(s, i + 8)))
  }

  ghost predicate CharsIn(s: string, i: nat, j: nat)
    decreases j - i
  {
    i <= j <= |s| && (i == j || exists k :: i < k <= j && CharIn(s, i, k) && CharsIn(s, k, j))
  }

  ghost predicate StringIn(s: string, i: nat, j: nat) {
    i + 2 <= j <= |s| && s[i] == '"' && s[j - 1] == '"' && CharsIn(s, i + 1, j - 1)
  }

  /** A value with at most `depth` levels of nesting. */
  ghost predicate ValueIn(s: string, i: nat, j: nat, depth: nat)
    decreases j - i, 0
  {
    && i < j <= |s|
    && (WordIn(s, i, j) || NumberIn(s, i, j) || StringIn(s, i, j)
        || (depth > 0 && i + 2 <= j && s[i] == '[' && s[j - 1] == ']'
            && (SpaceIn(s, i + 1, j - 1) || ElementsIn(s, i + 1, j - 1, depth - 1)))
        || (depth > 0 && i + 2 <= j && s[i] == '{' && s[j - 1] == '}'
            && (SpaceIn(s, i + 1, j - 1) || MembersIn(s, i + 1, j - 1, depth - 1))))
  }

  /** A value between optional whitespace. */
  ghost predicate ElementIn(s: string, i: nat, j: nat, depth: nat)
    decreases j - i, 1
  {
    exists a, b :: i <= a <= b <= j && SpaceIn(s, i, a) && ValueIn(s, a, b, depth) && SpaceIn(s, b, j)
  }

  ghost predicate ElementsIn(s: string, i: nat, j: nat, depth: nat)
    decreases j - i, 2
  {
    || ElementIn(s, i, j, depth)
    || (exists k :: i <= k < j <= |s| && s[k] == ',' && ElementIn(s, i, k, depth) && ElementsIn(s, k + 1, j, depth))
  }

  ghost predicate MemberIn(s: string, i: nat, j: nat, depth: nat)
    decreases j - i, 1
  {
    exists c :: i <= c < j <= |s| && s[c] == ':' && NameIn(s, i, c) && ElementIn(s, c + 1, j, depth)
  }

  /** A string between optional whitespace. */
  ghost predicate NameIn(s: string, i: nat, j: nat) {
    exists a, b :: i <= a <= b <= j && SpaceIn(s, i, a) && StringIn(s, a, b) && SpaceIn(s, b, j)
  }

  ghost predicate MembersIn(s: string, i: nat, j: nat, depth: nat)
    decreases j - i, 2
  {
    || MemberIn(s, i, j, depth)
    || (exists k :: i <= k < j <= |s| && s[k] == ',' && MemberIn(s, i, k, depth) && MembersIn(s, k + 1, j, depth))
  }

  // ---- Whitespace and digits ----

  lemma BlankIsSpace(c: char)
    ensures Blank(c) <==> IsSpace(c)
  {
  }

  lemma SkipsSpace(s: string, i: nat)
    requires i <= |s|
    ensures SpaceIn(s, i, SkipSpace(s, i))
  {
    SkipSpaceMeaning(s, i);
    hide Blank, IsSpace;
    forall k | i <= k < SkipSpace(s, i)
      ensures Blank(s[k])
    {
      BlankIsSpace(s[k]);
    }
  }

  lemma {:induction false} SpaceIsSkipped(s: string, i: nat, j: nat)
    requires SpaceIn(s, i, j) && (j < |s| ==> !IsSpace(s[j]))
    ensures SkipSpace(s, i) == j
    decreases j - i
  {
    if i < j {
      BlankIsSpace(s[i]);
      SpaceIsSkipped(s, i + 1, j);
    }
  }

  lemma {:induction false} SkipsDigits(s: string, i: nat)
    requires i <= |s|
    ensures SkipDigits(s, i) > i ==> DigitsIn(s, i, SkipDigits(s, i))
    ensures SkipDigits(s, i) < |s| ==> !IsDigit(s[SkipDigits(s, i)])
    decreases |s| - i
  {
    if i < |s| && IsDigit(s[i]) {
      SkipsDigits(s, i + 1);
    }
  }

  lemma {:induction false} DigitsAreSkipped(s: string, i: nat, j: nat)
    requires i <= j <= |s| && (forall k | i <= k < j :: IsDigit(s[k])) && (j < |s| ==> !IsDigit(s[j]))
    ensures SkipDigits(s, i) == j
    decreases j - i
  {
    if i < j {
      DigitsAreSkipped(s, i + 1, j);
    }
  }

  // ---- Numbers ----

  lemma NumberScanned(s: string, i: nat)
    requires i < |s| && ScanNumber(s, i).Some?
    ensures NumberIn(s, i, ScanNumber(s, i).value)
  {
    var a := if s[i] == '-' then i + 1 else i;
    var b := if s[a] == '0' then a + 1 else SkipDigits(s, a);
    SkipsDigits(s, a);
    var c := ScanFraction(s, b).value;
    SkipsDigits(s, if b < |s| then b + 1 else b);
    var j := ScanExponent(s, c).value;
    ExponentScanned(s, c);
    assert MinusIn(s, i, a) && WholeIn(s, a, b) && FractionIn(s, b, c) && ExponentIn(s, c, j);
  }

  lemma ExponentScanned(s: string, c: nat)
    requires c <= |s| && ScanExponent(s, c).Some?
    ensures ExponentIn(s, c, ScanExponent(s, c).value)
  {
    if c < |s| && (s[c] == 'e' || s[c] == 'E') {
      var k := if c + 1 < |s| && (s[c + 1] == '+' || s[c + 1] == '-') then c + 2 else c + 1;
      SkipsDigits(s, k);
    }
  }

  /** Nothing at `j` could continue a number. */
  predicate NumberEnds(s: string, j: nat) {
    j < |s| ==> !IsDigit(s[j]) && s[j] != '.' && s[j] != 'e' && s[j] != 'E'
  }

  lemma NumberIsScanned(s: string, i: nat, j: nat)
    requires NumberIn(s, i, j) && NumberEnds(s, j)
    ensures i < j <= |s| && ScanNumber(s, i) == Some(j) && (s[i] == '-' || IsDigit(s[i]))
  {
    var a: nat, b: nat, c: nat :| MinusIn(s, i, a) && WholeIn(s, a, b) && FractionIn(s, b, c) && ExponentIn(s, c, j);
    ExponentIsScanned(s, c, j);
    FractionIsScanned(s, b, c, j);
    if s[a] != '0' {
      assert b < |s| ==> !IsDigit(s[b]);
      DigitsAreSkipped(s, a, b);
    }
    hide ScanFraction, ScanExponent;
  }

  lemma FractionIsScanned(s: string, b: nat, c: nat, j: nat)
    requires FractionIn(s, b, c) && ExponentIn(s, c, j) && NumberEnds(s, j)
    ensures ScanFraction(s, b) == Some(c)
  {
    if b < c {
      assert c < |s| ==> !IsDigit(s[c]);
      DigitsAreSkipped(s, b + 1, c);
    }
  }

  lemma ExponentIsScanned(s: string, c: nat, j: nat)
    requires ExponentIn(s, c, j) && NumberEnds(s, j)
    ensures ScanExponent(s, c) == Some(j)
  {
    if c < j {
      if DigitsIn(s, c + 1, j) {
        DigitsAreSkipped(s, c + 1, j);
      } else {
        DigitsAreSkipped(s, c + 2, j);
      }
    }
  }

  // ---- Strings ----

  lemma HexDigitValue(c: char)
    requires IsHex(c)
    ensures HexValue(c) < 16
    ensures HexValue(c) == 13 <==> c in "dD"
    ensures 8 <= HexValue(c) <= 11 <==> c in "89abAB"
    ensures 12 <= HexValue(c) <==> c in "cdefCDEF"
  {
  }

  lemma HexRange(a: nat, b: nat, c: nat, d: nat)
    requires a < 16 && b < 16 && c < 16 && d < 16
    ensures var unit := ((a * 16 + b) * 16 + c) * 16 + d;
            && (0xD800 <= unit <= 0xDBFF <==> a == 13 && 8 <= b <= 11)
            && (0xDC00 <= unit <= 0xDFFF <==> a == 13 && 12 <= b)
  {
  }

  lemma HexDigitIs(c: char)
    ensures HexDigit(c) <==> IsHex(c)
  {
  }

  lemma HexDigitsAt(s: string, i: nat)
    ensures Hex4(s, i).Some? <==> HexAt(s, i)
  {
    hide IsHex, HexValue, HexDigit;
    if i + 4 <= |s| {
      forall k | i <= k < i + 4
        ensures HexDigit(s[k]) <==> IsHex(s[k])
      {
        HexDigitIs(s[k]);
      }
    }
  }

  lemma HexIs(s: string, i: nat)
    ensures Hex4(s, i).Some? <==> HexAt(s, i)
    ensures HexAt(s, i) ==> (0xD800 <= Hex4(s, i).value <= 0xDBFF <==> HighAt(s, i))
    ensures HexAt(s, i) ==> (0xDC00 <= Hex4(s, i).value <= 0xDFFF <==> LowAt(s, i))
  {
    HexDigitsAt(s, i);
    if HexAt(s, i) {
      HexDigitIs(s[i]);
      HexDigitIs(s[i + 1]);
      HexDigitIs(s[i + 2]);
      HexDigitIs(s[i + 3]);
      hide HexDigit;
      HexDigitValue(s[i]);
      HexDigitValue(s[i + 1]);
      HexDigitValue(s[i + 2]);
      HexDigitValue(s[i + 3]);
      HexRange(HexValue(s[i]), HexValue(s[i + 1]), HexValue(s[i + 2]), HexValue(s[i + 3]));
      hide IsHex, HexValue;
    }
  }

  lemma EscapeIs(s: string, i: nat, j: nat)
    requires i < |s| && s[i] == '\\'
    ensures ScanEscape(s, i) == Some(j) <==> CharIn(s, i, j)
  {
    hide Hex4, HexAt;
    HexIs(s, i + 2);
    HexIs(s, i + 8);
    if i + 8 <= |s| {
      assert HasAt(s, i + 6, "\\u") <==> s[i + 6] == '\\' && s[i + 7] == 'u';
    }
    if i + 12 <= |s| {
    } else {
      HexNeedsFour(s, i + 8);
    }
    if i + 6 <= |s| {
    } else {
      HexNeedsFour(s, i + 2);
    }
  }

  lemma HexNeedsFour(s: string, i: nat)
    ensures HexAt(s, i) ==> i + 4 <= |s|
  {
    hide HexDigit;
  }

  lemma {:induction false} StringScanned(s: string, i: nat)
    requires i <= |s| && ScanString(s, i).Some?
    ensures var j := ScanString(s, i).value; i < j && s[j - 1] == '"' && CharsIn(s, i, j - 1)
    decreases |s| - i
  {
    hide ScanEscape;
    if s[i] == '"' {
    } else if s[i] == '\\' {
      var k := ScanEscape(s, i).value;
      EscapeIs(s, i, k);
      StringScanned(s, k);
    } else {
      StringScanned(s, i + 1);
      assert CharIn(s, i, i + 1);
    }
  }

  lemma CharsParts(s: string, i: nat, j: nat) returns (k: nat)
    requires CharsIn(s, i, j) && i < j
    ensures i < k <= j <= |s| && CharIn(s, i, k) && CharsIn(s, k, j)
  {
    hide CharIn;
    k :| i < k <= j && CharIn(s, i, k) && CharsIn(s, k, j);
  }

  lemma CharIsScanned(s: string, i: nat, k: nat)
    requires CharIn(s, i, k)
    ensures i < k <= |s| && ScanString(s, i) == ScanString(s, k)
  {
    if s[i] == '\\' {
      EscapeIs(s, i, k);
    }
    hide ScanEscape, HexAt, HighAt, LowAt;
  }

  lemma StringCloses(s: string, i: nat)
    requires i < |s| && s[i] == '"'
    ensures ScanString(s, i) == Some(i + 1)
  {
  }

  lemma {:induction false} StringIsScanned(s: string, i: nat, j: nat)
    requires CharsIn(s, i, j) && i <= j < |s| && s[j] == '"'
    ensures ScanString(s, i) == Some(j + 1)
    decreases j - i
  {
    hide *;
    if i < j {
      var k := CharsParts(s, i, j);
      CharIsScanned(s, i, k);
      StringIsScanned(s, k, j);
    } else {
      StringCloses(s, i);
    }
  }

  // ---- What the recogniser finds is in the grammar ----

  lemma {:induction false} ValueScanned(s: string, i: nat, depth: nat)
    requires i < |s| && ScanValue(s, i, depth).Some?
    ensures ValueIn(s, i, ScanValue(s, i, depth).value, depth)
    decreases |s| - i, 1
  {
    hide SpaceIn, SkipSpace, ScanMembers, ScanElements, MembersIn, ElementsIn, WordIn, NumberIn, ScanAtom;
    hide ScanString, CharsIn;
    var j := ScanValue(s, i, depth).value;
    if s[i] == '"' {
      StringScanned(s, i + 1);
      assert StringIn(s, i, j);
    } else if s[i] == '{' {
      SkipsSpace(s, i + 1);
      var k := SkipSpace(s, i + 1);
      if !(k < |s| && s[k] == '}') {
        MembersScanned(s, i + 1, depth - 1);
      }
    } else if s[i] == '[' {
      SkipsSpace(s, i + 1);
      var k := SkipSpace(s, i + 1);
      if !(k < |s| && s[k] == ']') {
        ElementsScanned(s, i + 1, depth - 1);
      }
    } else {
      AtomScanned(s, i);
    }
  }

  lemma AtomScanned(s: string, i: nat)
    requires i < |s| && ScanAtom(s, i).Some?
    ensures WordIn(s, i, ScanAtom(s, i).value) || NumberIn(s, i, ScanAtom(s, i).value)
  {
    if !(HasAt(s, i, "true") || HasAt(s, i, "null") || HasAt(s, i, "false")) {
      NumberScanned(s, i);
      hide NumberIn, ScanNumber;
    }
  }

  lemma {:induction false} ItemScanned(s: string, i: nat, first: nat, depth: nat)
    requires i <= first <= |s| && SpaceIn(s, i, first) && ScanItem(s, first, depth).Some?
    ensures ElementIn(s, i, ScanItem(s, first, depth).value, depth)
    decreases |s| - first, 2
  {
    var v := ScanValue(s, first, depth).value;
    ValueScanned(s, first, depth);
    SkipsSpace(s, v);
    hide ScanValue, ValueIn, SpaceIn;
    assert ValueIn(s, first, v, depth);
  }

  lemma ElementsGrow(s: string, i: nat, k: nat, j: nat, depth: nat)
    requires ElementIn(s, i, k, depth)
    ensures ElementsIn(s, i, k, depth)
    ensures i <= k < j <= |s| && s[k] == ',' && ElementsIn(s, k + 1, j, depth) ==> ElementsIn(s, i, j, depth)
  {
    hide ElementIn;
  }

  lemma ElementsUnfold(s: string, i: nat, depth: nat)
    requires i <= |s| && ScanElements(s, i, depth).Some?
    ensures ScanItem(s, SkipSpace(s, i), depth).Some?
    ensures var k := ScanItem(s, SkipSpace(s, i), depth).value;
            if s[k] == ',' then ScanElements(s, i, depth) == ScanElements(s, k + 1, depth)
            else s[k] == ']' && ScanElements(s, i, depth) == Some(k + 1)
  {
    hide SkipSpace, ScanItem;
  }

  lemma {:induction false} ElementsScanned(s: string, i: nat, depth: nat)
    requires i <= |s| && ScanElements(s, i, depth).Some?
    ensures var j := ScanElements(s, i, depth).value; i < j && s[j - 1] == ']' && ElementsIn(s, i, j - 1, depth)
    decreases |s| - i, 3
  {
    hide *;
    ElementsUnfold(s, i, depth);
    SkipsSpace(s, i);
    var k := ScanItem(s, SkipSpace(s, i), depth).value;
    ItemScanned(s, i, SkipSpace(s, i), depth);
    ElementsGrow(s, i, k, ScanElements(s, i, depth).value - 1, depth);
    if s[k] == ',' {
      ElementsScanned(s, k + 1, depth);
    }
  }

  lemma NameUnfold(s: string, i: nat)
    requires i <= |s| && ScanName(s, i).Some?
    ensures var q := SkipSpace(s, i);
            && q < |s| && s[q] == '"' && ScanString(s, q + 1).Some?
            && var c := SkipSpace(s, ScanString(s, q + 1).value);
               c < |s| && s[c] == ':' && ScanName(s, i).value == SkipSpace(s, c + 1)
  {
    hide SkipSpace, ScanString;
  }

  lemma StringIf(s: string, i: nat, j: nat)
    requires i + 1 < j <= |s| && s[i] == '"' && s[j - 1] == '"' && CharsIn(s, i + 1, j - 1)
    ensures StringIn(s, i, j)
  {
    hide CharsIn;
  }

  lemma NameIf(s: string, i: nat, a: nat, b: nat, j: nat)
    requires i <= a <= b <= j && SpaceIn(s, i, a) && StringIn(s, a, b) && SpaceIn(s, b, j)
    ensures NameIn(s, i, j)
  {
    hide SpaceIn, StringIn;
  }

  lemma NameScanned(s: string, i: nat)
    requires i <= |s| && ScanName(s, i).Some?
    ensures exists c :: i <= c < |s| && s[c] == ':' && NameIn(s, i, c) && ScanName(s, i).value == SkipSpace(s, c + 1)
  {
    hide *;
    NameUnfold(s, i);
    var q := SkipSpace(s, i);
    var e := ScanString(s, q + 1).value;
    SkipsSpace(s, i);
    StringScanned(s, q + 1);
    SkipsSpace(s, e);
    StringIf(s, q, e);
    NameIf(s, i, q, e, SkipSpace(s, e));
  }

  lemma MembersGrow(s: string, i: nat, k: nat, j: nat, depth: nat)
    requires MemberIn(s, i, k, depth)
    ensures MembersIn(s, i, k, depth)
    ensures i <= k < j <= |s| && s[k] == ',' && MembersIn(s, k + 1, j, depth) ==> MembersIn(s, i, j, depth)
  {
    hide MemberIn;
  }

  lemma MembersUnfold(s: string, i: nat, depth: nat)
    requires i <= |s| && ScanMembers(s, i, depth).Some?
    ensures ScanName(s, i).Some? && ScanItem(s, ScanName(s, i).value, depth).Some?
    ensures var k := ScanItem(s, ScanName(s, i).value, depth).value;
            if s[k] == ',' then ScanMembers(s, i, depth) == ScanMembers(s, k + 1, depth)
            else s[k] == '}' && ScanMembers(s, i, depth) == Some(k + 1)
  {
    hide ScanName, ScanItem;
  }

  lemma {:induction false} MembersScanned(s: string, i: nat, depth: nat)
    requires i <= |s| && ScanMembers(s, i, depth).Some?
    ensures var j := ScanMembers(s, i, depth).value; i < j && s[j - 1] == '}' && MembersIn(s, i, j - 1, depth)
    decreases |s| - i, 3
  {
    hide *;
    MembersUnfold(s, i, depth);
    var k := ScanItem(s, ScanName(s, i).value, depth).value;
    MemberScanned(s, i, depth);
    MembersGrow(s, i, k, ScanMembers(s, i, depth).value - 1, depth);
    if s[k] == ',' {
      MembersScanned(s, k + 1, depth);
    }
  }

  lemma {:induction false} MemberScanned(s: string, i: nat, depth: nat)
    requires i <= |s| && ScanName(s, i).Some? && ScanItem(s, ScanName(s, i).value, depth).Some?
    ensures MemberIn(s, i, ScanItem(s, ScanName(s, i).value, depth).value, depth)
    decreases |s| - i, 2
  {
    hide *;
    NameScanned(s, i);
    var first := ScanName(s, i).value;
    var c :| i <= c < |s| && s[c] == ':' && NameIn(s, i, c) && first == SkipSpace(s, c + 1);
    SkipsSpace(s, c + 1);
    ItemScanned(s, c + 1, first, depth);
    MemberIf(s, i, c, ScanItem(s, first, depth).value, depth);
  }

  lemma MemberIf(s: string, i: nat, c: nat, j: nat, depth: nat)
    requires i <= c < j <= |s| && s[c] == ':' && NameIn(s, i, c) && ElementIn(s, c + 1, j, depth)
    ensures MemberIn(s, i, j, depth)
  {
    hide NameIn, ElementIn;
  }

  // ---- What is in the grammar is found ----

  lemma WordIsScanned(s: string, i: nat, j: nat)
    requires WordIn(s, i, j)
    ensures i < j && !IsOpening(s[i]) && !IsSpace(s[i]) && ScanAtom(s, i) == Some(j)
  {
    var word := s[i..j];
    assert s[i] == word[0];
    assert HasAt(s, i, word);
    if word == "false" {
      assert !HasAt(s, i, "true") && !HasAt(s, i, "null") by {
        assert |s| < i + 4 || (s[i..i + 4][0] == 'f' && "true"[0] == 't' && "null"[0] == 'n');
      }
    }
  }

  /** A value starts with neither whitespace nor a closing bracket. */
  lemma ValueStarts(s: string, i: nat, j: nat, depth: nat)
    requires ValueIn(s, i, j, depth)
    ensures i < j <= |s| && !IsSpace(s[i]) && s[i] != ']' && s[i] != '}' && s[i] != ','
  {
    hide SpaceIn, ElementsIn, MembersIn, CharsIn;
    if WordIn(s, i, j) {
      assert s[i] == s[i..j][0];
    } else if NumberIn(s, i, j) {
      var a: nat, b: nat, c: nat :| MinusIn(s, i, a) && WholeIn(s, a, b) && FractionIn(s, b, c) && ExponentIn(s, c, j);
    }
  }

  /** Whatever stands at `j` does not continue the value. */
  lemma {:induction false} ValueIsScanned(s: string, i: nat, j: nat, depth: nat)
    requires ValueIn(s, i, j, depth) && NumberEnds(s, j)
    ensures ScanValue(s, i, depth) == Some(j)
    decreases j - i, 1
  {
    hide WordIn, NumberIn, CharsIn, SpaceIn, ElementsIn, MembersIn;
    if WordIn(s, i, j) {
      WordIsScanned(s, i, j);
      AtomIsValue(s, i, depth);
    } else if NumberIn(s, i, j) {
      NumberIsScanned(s, i, j);
      NumberIsAtom(s, i);
      AtomIsValue(s, i, depth);
    } else if StringIn(s, i, j) {
      StringIsScanned(s, i + 1, j - 1);
      StringIsValue(s, i, depth);
    } else if s[i] == '[' {
      ArrayIsScanned(s, i, j, depth);
    } else {
      ObjectIsScanned(s, i, j, depth);
    }
    hide ScanValue, ScanAtom, ScanNumber, ScanString, StringIn;
  }

  lemma AtomIsValue(s: string, i: nat, depth: nat)
    requires i < |s| && !IsOpening(s[i])
    ensures ScanValue(s, i, depth) == ScanAtom(s, i)
  {
    hide ScanAtom;
  }

  lemma StringIsValue(s: string, i: nat, depth: nat)
    requires i < |s| && s[i] == '"'
    ensures ScanValue(s, i, depth) == ScanString(s, i + 1)
  {
    hide ScanString;
  }

  lemma NumberIsAtom(s: string, i: nat)
    requires i < |s| && (s[i] == '-' || IsDigit(s[i]))
    ensures ScanAtom(s, i) == ScanNumber(s, i) && !IsOpening(s[i])
  {
    hide ScanNumber;
    if HasAt(s, i, "true") {
      StartsWith(s, i, "true");
    } else if HasAt(s, i, "null") {
      StartsWith(s, i, "null");
    } else if HasAt(s, i, "false") {
      StartsWith(s, i, "false");
    }
  }

  lemma StartsWith(s: string, i: nat, word: string)
    requires word != "" && HasAt(s, i, word)
    ensures s[i] == word[0]
  {
    assert s[i] == s[i..i + |word|][0];
  }

  lemma {:induction false} ArrayIsScanned(s: string, i: nat, j: nat, depth: nat)
    requires depth > 0 && i + 2 <= j <= |s| && s[i] == '[' && s[j - 1] == ']'
    requires SpaceIn(s, i + 1, j - 1) || ElementsIn(s, i + 1, j - 1, depth - 1)
    ensures ScanValue(s, i, depth) == Some(j)
    decreases j - i, 0
  {
    hide ScanMembers, ScanElements, MembersIn, ElementsIn, SkipSpace, SpaceIn, ScanString, ScanAtom;
    if SpaceIn(s, i + 1, j - 1) {
      SpaceIsSkipped(s, i + 1, j - 1);
    } else {
      ElementsAreScanned(s, i + 1, j - 1, depth - 1);
      ElementsStart(s, i + 1, j - 1, depth - 1);
    }
  }

  lemma ElementStarts(s: string, i: nat, j: nat, depth: nat) returns (a: nat)
    requires ElementIn(s, i, j, depth)
    ensures i <= a < |s| && SkipSpace(s, i) == a && s[a] != ']' && s[a] != '}' && s[a] != ','
  {
    hide ValueIn, ElementIn;
    var b;
    a, b := ElementParts(s, i, j, depth);
    ValueStarts(s, a, b, depth);
    SpaceIsSkipped(s, i, a);
  }

  lemma ElementsStart(s: string, i: nat, j: nat, depth: nat)
    requires ElementsIn(s, i, j, depth)
    ensures i <= |s| && SkipSpace(s, i) < |s| && s[SkipSpace(s, i)] != ']'
  {
    hide ElementIn;
    if ElementIn(s, i, j, depth) {
      var a := ElementStarts(s, i, j, depth);
    } else {
      var k :| i <= k < j <= |s| && s[k] == ',' && ElementIn(s, i, k, depth) && ElementsIn(s, k + 1, j, depth);
      var a := ElementStarts(s, i, k, depth);
    }
  }

  /** A separator or a closing bracket ends an element. */
  predicate Separates(c: char) {
    c == ',' || c == ']' || c == '}'
  }

  lemma {:induction false} ElementIsScanned(s: string, i: nat, j: nat, depth: nat)
    requires ElementIn(s, i, j, depth) && j < |s| && Separates(s[j])
    ensures i <= j && ScanItem(s, SkipSpace(s, i), depth) == Some(j)
    decreases j - i, 2
  {
    hide ValueIn, ScanValue, ElementIn;
    var a, b := ElementParts(s, i, j, depth);
    ValueStarts(s, a, b, depth);
    SpaceIsSkipped(s, i, a);
    SpaceIsSkipped(s, b, j);
    assert NumberEnds(s, b);
    ValueIsScanned(s, a, b, depth);
    hide SkipSpace;
  }

  lemma {:induction false} ElementsAreScanned(s: string, i: nat, j: nat, depth: nat)
    requires ElementsIn(s, i, j, depth) && j < |s| && s[j] == ']'
    ensures i <= j && ScanElements(s, i, depth) == Some(j + 1)
    decreases j - i, 3
  {
    hide ElementIn, ScanItem, SkipSpace;
    if ElementIn(s, i, j, depth) {
      ElementIsScanned(s, i, j, depth);
    } else {
      var k :| i <= k < j <= |s| && s[k] == ',' && ElementIn(s, i, k, depth) && ElementsIn(s, k + 1, j, depth);
      ElementIsScanned(s, i, k, depth);
      ElementsAreScanned(s, k + 1, j, depth);
    }
  }

  lemma {:induction false} ObjectIsScanned(s: string, i: nat, j: nat, depth: nat)
    requires depth > 0 && i + 2 <= j <= |s| && s[i] == '{' && s[j - 1] == '}'
    requires SpaceIn(s, i + 1, j - 1) || MembersIn(s, i + 1, j - 1, depth - 1)
    ensures ScanValue(s, i, depth) == Some(j)
    decreases j - i, 0
  {
    hide ScanMembers, ScanElements, MembersIn, ElementsIn, SkipSpace, SpaceIn, ScanString, ScanAtom;
    if SpaceIn(s, i + 1, j - 1) {
      SpaceIsSkipped(s, i + 1, j - 1);
    } else {
      MembersAreScanned(s, i + 1, j - 1, depth - 1);
      MembersStart(s, i + 1, j - 1, depth - 1);
    }
  }

  lemma NameIsScanned(s: string, i: nat, c: nat)
    requires NameIn(s, i, c) && c < |s| && s[c] == ':'
    ensures i < c && SkipSpace(s, i) < |s| && s[SkipSpace(s, i)] == '"'
    ensures ScanName(s, i) == Some(SkipSpace(s, c + 1))
  {
    hide ScanString, CharsIn, SkipSpace, SpaceIn;
    var a: nat, b: nat :| i <= a <= b <= c && SpaceIn(s, i, a) && StringIn(s, a, b) && SpaceIn(s, b, c);
    SpaceIsSkipped(s, i, a);
    SpaceIsSkipped(s, b, c);
    StringIsScanned(s, a + 1, b - 1);
  }

  lemma MembersStart(s: string, i: nat, j: nat, depth: nat)
    requires MembersIn(s, i, j, depth)
    ensures i <= |s| && SkipSpace(s, i) < |s| && s[SkipSpace(s, i)] == '"'
  {
    hide ElementIn, NameIn, SkipSpace;
    if MemberIn(s, i, j, depth) {
      var c :| i <= c < j <= |s| && s[c] == ':' && NameIn(s, i, c) && ElementIn(s, c + 1, j, depth);
      NameIsScanned(s, i, c);
    } else {
      var k :| i <= k < j <= |s| && s[k] == ',' && MemberIn(s, i, k, depth) && MembersIn(s, k + 1, j, depth);
      var c :| i <= c < k <= |s| && s[c] == ':' && NameIn(s, i, c) && ElementIn(s, c + 1, k, depth);
      NameIsScanned(s, i, c);
    }
  }

  lemma {:induction false} MemberIsScanned(s: string, i: nat, j: nat, depth: nat)
    requires MemberIn(s, i, j, depth) && j < |s| && Separates(s[j])
    ensures i <= j && ScanName(s, i).Some? && ScanItem(s, ScanName(s, i).value, depth) == Some(j)
    decreases j - i, 1
  {
    hide ElementIn, NameIn, SkipSpace, ScanItem, ScanName;
    var c :| i <= c < j <= |s| && s[c] == ':' && NameIn(s, i, c) && ElementIn(s, c + 1, j, depth);
    NameIsScanned(s, i, c);
    ElementIsScanned(s, c + 1, j, depth);
  }

  lemma {:induction false} MembersAreScanned(s: string, i: nat, j: nat, depth: nat)
    requires MembersIn(s, i, j, depth) && j < |s| && s[j] == '}'
    ensures i <= j && ScanMembers(s, i, depth) == Some(j + 1)
    decreases j - i, 3
  {
    hide MemberIn, ScanItem, ScanName;
    if MemberIn(s, i, j, depth) {
      MemberIsScanned(s, i, j, depth);
    } else {
      var k :| i <= k < j <= |s| && s[k] == ',' && MemberIn(s, i, k, depth) && MembersIn(s, k + 1, j, depth);
      MemberIsScanned(s, i, k, depth);
      MembersAreScanned(s, k + 1, j, depth);
    }
  }

  // ---- The theorem ----

  /** Main result: with any nesting budget, the recogniser accepts exactly the texts of the grammar, one value of at
      most that many levels between optional whitespace. */
  lemma RecognisesGrammar(s: string, depth: nat)
    ensures IsTextWithin(s, depth) <==> ElementIn(s, 0, |s|, depth)
  {
    hide *;
    if IsTextWithin(s, depth) {
      RecognisedIsGrammar(s, depth);
    }
    if ElementIn(s, 0, |s|, depth) {
      var a, b := ElementParts(s, 0, |s|, depth);
      GrammarIsRecognised(s, a, b, depth);
    }
  }

  lemma ElementParts(s: string, i: nat, j: nat, depth: nat) returns (a: nat, b: nat)
    requires ElementIn(s, i, j, depth)
    ensures i <= a <= b <= j && SpaceIn(s, i, a) && ValueIn(s, a, b, depth) && SpaceIn(s, b, j)
  {
    hide SpaceIn, ValueIn;
    a, b :| i <= a <= b <= j && SpaceIn(s, i, a) && ValueIn(s, a, b, depth) && SpaceIn(s, b, j);
  }

  lemma RecognisedIsGrammar(s: string, depth: nat)
    requires IsTextWithin(s, depth)
    ensures ElementIn(s, 0, |s|, depth)
  {
    hide ScanValue, SkipSpace, ValueIn, SpaceIn;
    var i := SkipSpace(s, 0);
    var j := ScanValue(s, i, depth).value;
    SkipsSpace(s, 0);
    TextStarts(s, depth);
    ValueScanned(s, i, depth);
    SkipsSpace(s, j);
    assert ValueIn(s, i, j, depth) && SpaceIn(s, j, |s|);
  }

  lemma TextStarts(s: string, depth: nat)
    requires IsTextWithin(s, depth)
    ensures SkipSpace(s, 0) < |s|
  {
    hide SkipSpace;
  }

  lemma GrammarIsRecognised(s: string, a: nat, b: nat, depth: nat)
    requires a <= b <= |s| && SpaceIn(s, 0, a) && ValueIn(s, a, b, depth) && SpaceIn(s, b, |s|)
    ensures IsTextWithin(s, depth)
  {
    hide ValueIn;
    ValueStarts(s, a, b, depth);
    SpaceIsSkipped(s, 0, a);
    assert NumberEnds(s, b);
    ValueIsScanned(s, a, b, depth);
    SpaceIsSkipped(s, b, |s|);
    hide ScanValue, SkipSpace;
  }
}
