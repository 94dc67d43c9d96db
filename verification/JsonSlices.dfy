/** Scanning a slice of a text agrees with scanning the text: a value cut out of a stream is a value on its own. */
module JsonSlices {
  import opened Collections
  import opened JsonText

  /** A position in the slice that starts at `a`, as a position in the whole text. */
  function Shifted(end: Option<nat>, a: nat): Option<nat> {
    match end
    case None => None
    case Some(e) => Some(e + a)
  }

  // ---- Dropping a prefix ----

  lemma SkipSpaceShift(s: string, a: nat, i: nat)
    requires a + i <= |s|
    ensures SkipSpace(s, a + i) == a + SkipSpace(s[a..], i)
    decreases |s| - a - i
  {
    if a + i < |s| && IsSpace(s[a + i]) {
      SkipSpaceShift(s, a, i + 1);
    }
  }

  lemma SkipDigitsShift(s: string, a: nat, i: nat)
    requires a + i <= |s|
    ensures SkipDigits(s, a + i) == a + SkipDigits(s[a..], i)
    decreases |s| - a - i
  {
    if a + i < |s| && IsDigit(s[a + i]) {
      SkipDigitsShift(s, a, i + 1);
    }
  }

  lemma HasAtShift(s: string, a: nat, i: nat, word: string)
    requires a + i <= |s|
    ensures HasAt(s, a + i, word) == HasAt(s[a..], i, word)
  {
    if a + i + |word| <= |s| {
      assert s[a + i..a + i + |word|] == s[a..][i..i + |word|];
    }
  }

  lemma Hex4Shift(s: string, a: nat, i: nat)
    requires a <= |s|
    ensures Hex4(s, a + i) == Hex4(s[a..], i)
  {
    var t := s[a..];
    if a + i + 4 <= |s| {
      assert forall k | i <= k < i + 4 :: t[k] == s[a + k];
      assert (forall k | i <= k < i + 4 :: IsHex(t[k])) <==> (forall k | a + i <= k < a + i + 4 :: IsHex(s[k])) by {
        assert forall k | a + i <= k < a + i + 4 :: s[k] == t[k - a];
      }
    }
  }

  lemma ScanEscapeShift(s: string, a: nat, i: nat)
    requires a + i < |s|
    ensures ScanEscape(s, a + i) == Shifted(ScanEscape(s[a..], i), a)
  {
    hide Hex4, HasAt;
    var t := s[a..];
    Hex4Shift(s, a, i + 2);
    Hex4Shift(s, a, i + 8);
    if i + 6 <= |t| {
      HasAtShift(s, a, i + 6, "\\u");
    }
    assert i + 1 < |t| ==> t[i + 1] == s[a + i + 1];
  }

  lemma {:induction false} ScanStringShift(s: string, a: nat, i: nat)
    requires a + i <= |s|
    ensures ScanString(s, a + i) == Shifted(ScanString(s[a..], i), a)
    decreases |s| - a - i
  {
    hide ScanEscape;
    if a + i < |s| {
      assert s[a..][i] == s[a + i];
      if s[a + i] == '"' {
      } else if s[a + i] == '\\' {
        ScanEscapeShift(s, a, i);
        if ScanEscape(s[a..], i).Some? {
          ScanStringShift(s, a, ScanEscape(s[a..], i).value);
        }
      } else if s[a + i] >= ' ' {
        ScanStringShift(s, a, i + 1);
      }
    }
  }

  lemma ScanFractionShift(s: string, a: nat, i: nat)
    requires a + i <= |s|
    ensures ScanFraction(s, a + i) == Shifted(ScanFraction(s[a..], i), a)
  {
    if a + i < |s| {
      SkipDigitsShift(s, a, i + 1);
    }
  }

  lemma ScanExponentShift(s: string, a: nat, i: nat)
    requires a + i <= |s|
    ensures ScanExponent(s, a + i) == Shifted(ScanExponent(s[a..], i), a)
  {
    if a + i < |s| {
      SkipDigitsShift(s, a, i + 1);
      if a + i + 1 < |s| {
        SkipDigitsShift(s, a, i + 2);
      }
    }
  }

  lemma ScanNumberShift(s: string, a: nat, i: nat)
    requires a + i < |s|
    ensures ScanNumber(s, a + i) == Shifted(ScanNumber(s[a..], i), a)
  {
    hide ScanFraction, ScanExponent, SkipDigits;
    var t := s[a..];
    var start := if t[i] == '-' then i + 1 else i;
    if start < |t| && IsDigit(t[start]) {
      assert t[start] == s[a + start];
      SkipDigitsShift(s, a, start);
      var whole := if t[start] == '0' then start + 1 else SkipDigits(t, start);
      ScanFractionShift(s, a, whole);
      if ScanFraction(t, whole).Some? {
        ScanExponentShift(s, a, ScanFraction(t, whole).value);
      }
    }
  }

  lemma ScanAtomShift(s: string, a: nat, i: nat)
    requires a + i < |s|
    ensures ScanAtom(s, a + i) == Shifted(ScanAtom(s[a..], i), a)
  {
    hide ScanNumber, HasAt;
    HasAtShift(s, a, i, "true");
    HasAtShift(s, a, i, "null");
    HasAtShift(s, a, i, "false");
    ScanNumberShift(s, a, i);
  }

  lemma ScanNameShift(s: string, a: nat, i: nat)
    requires a + i <= |s|
    ensures ScanName(s, a + i) == Shifted(ScanName(s[a..], i), a)
  {
    hide ScanString, SkipSpace;
    var t := s[a..];
    var q := SkipSpace(t, i);
    SkipSpaceShift(s, a, i);
    if q < |t| && t[q] == '"' {
      ScanStringShift(s, a, q + 1);
      if ScanString(t, q + 1).Some? {
        var e := ScanString(t, q + 1).value;
        SkipSpaceShift(s, a, e);
        var c := SkipSpace(t, e);
        if c < |t| {
          SkipSpaceShift(s, a, c + 1);
        }
      }
    }
  }

  lemma {:induction false} ScanValueShift(s: string, a: nat, i: nat, depth: nat)
    requires a + i <= |s|
    ensures ScanValue(s, a + i, depth) == Shifted(ScanValue(s[a..], i, depth), a)
    decreases |s| - a - i, 1
  {
    hide ScanMembers, ScanElements, ScanString, ScanAtom, SkipSpace;
    var t := s[a..];
    if i < |t| {
      assert t[i] == s[a + i];
      if t[i] == '"' {
        ScanStringShift(s, a, i + 1);
      } else if t[i] == '{' {
        SkipSpaceShift(s, a, i + 1);
        if depth > 0 {
          ScanMembersShift(s, a, i + 1, depth - 1);
        }
      } else if t[i] == '[' {
        SkipSpaceShift(s, a, i + 1);
        if depth > 0 {
          ScanElementsShift(s, a, i + 1, depth - 1);
        }
      } else {
        ScanAtomShift(s, a, i);
      }
    }
  }

  lemma {:induction false} ScanItemShift(s: string, a: nat, i: nat, depth: nat)
    requires a + i <= |s|
    ensures ScanItem(s, a + i, depth) == Shifted(ScanItem(s[a..], i, depth), a)
    decreases |s| - a - i, 2
  {
    hide ScanValue, SkipSpace;
    ScanValueShift(s, a, i, depth);
    if ScanValue(s[a..], i, depth).Some? {
      SkipSpaceShift(s, a, ScanValue(s[a..], i, depth).value);
    }
  }

  lemma {:induction false} ScanElementsShift(s: string, a: nat, i: nat, depth: nat)
    requires a + i <= |s|
    ensures ScanElements(s, a + i, depth) == Shifted(ScanElements(s[a..], i, depth), a)
    decreases |s| - a - i, 3
  {
    hide ScanItem, SkipSpace;
    var t := s[a..];
    SkipSpaceShift(s, a, i);
    ScanItemShift(s, a, SkipSpace(t, i), depth);
    if ScanItem(t, SkipSpace(t, i), depth).Some? {
      var k := ScanItem(t, SkipSpace(t, i), depth).value;
      assert t[k] == s[a + k];
      if t[k] == ',' {
        ScanElementsShift(s, a, k + 1, depth);
      }
    }
  }

  lemma {:induction false} ScanMembersShift(s: string, a: nat, i: nat, depth: nat)
    requires a + i <= |s|
    ensures ScanMembers(s, a + i, depth) == Shifted(ScanMembers(s[a..], i, depth), a)
    decreases |s| - a - i, 3
  {
    hide ScanItem, SkipSpace, ScanName;
    var t := s[a..];
    ScanNameShift(s, a, i);
    if ScanName(t, i).Some? {
      var first := ScanName(t, i).value;
      ScanItemShift(s, a, first, depth);
      if ScanItem(t, first, depth).Some? {
        var k := ScanItem(t, first, depth).value;
        assert t[k] == s[a + k];
        if t[k] == ',' {
          ScanMembersShift(s, a, k + 1, depth);
        }
      }
    }
  }

  // ---- Cutting off what follows ----

  lemma SkipSpaceCut(p: string, s: string, i: nat)
    requires p <= s && i <= |p|
    ensures SkipSpace(p, i) == if SkipSpace(s, i) <= |p| then SkipSpace(s, i) else |p|
    decreases |p| - i
  {
    if i < |p| && IsSpace(p[i]) {
      SkipSpaceCut(p, s, i + 1);
    }
  }

  lemma SkipDigitsCut(p: string, s: string, i: nat)
    requires p <= s && i <= |p| && SkipDigits(s, i) <= |p|
    ensures SkipDigits(p, i) == SkipDigits(s, i)
    decreases |p| - i
  {
    if i < |p| && IsDigit(p[i]) {
      SkipDigitsCut(p, s, i + 1);
    }
  }

  lemma {:induction false} ScanStringCut(p: string, s: string, i: nat)
    requires p <= s && i <= |p| && ScanString(s, i).Some? && ScanString(s, i).value <= |p|
    ensures ScanString(p, i) == ScanString(s, i)
    decreases |p| - i
  {
    if s[i] == '"' {
    } else if s[i] == '\\' {
      var next := ScanEscape(s, i).value;
      assert next < ScanString(s, i).value;
      ScanEscapeCut(p, s, i);
      ScanStringCut(p, s, next);
    } else {
      ScanStringCut(p, s, i + 1);
    }
  }

  lemma ScanEscapeCut(p: string, s: string, i: nat)
    requires p <= s && i < |p| && ScanEscape(s, i).Some? && ScanEscape(s, i).value <= |p|
    ensures ScanEscape(p, i) == ScanEscape(s, i)
  {
    assert i + 8 <= |p| ==> p[i + 6..i + 8] == s[i + 6..i + 8];
  }

  lemma ScanFractionCut(p: string, s: string, i: nat)
    requires p <= s && i <= |p| && ScanFraction(s, i).Some? && ScanFraction(s, i).value <= |p|
    ensures ScanFraction(p, i) == ScanFraction(s, i)
  {
    if i < |p| && p[i] == '.' {
      SkipDigitsCut(p, s, i + 1);
    }
  }

  lemma ScanExponentCut(p: string, s: string, i: nat)
    requires p <= s && i <= |p| && ScanExponent(s, i).Some? && ScanExponent(s, i).value <= |p|
    ensures ScanExponent(p, i) == ScanExponent(s, i)
  {
    if i < |p| && (p[i] == 'e' || p[i] == 'E') {
      var k := if i + 1 < |s| && (s[i + 1] == '+' || s[i + 1] == '-') then i + 2 else i + 1;
      SkipDigitsCut(p, s, k);
    }
  }

  lemma ScanNumberCut(p: string, s: string, i: nat)
    requires p <= s && i < |p| && ScanNumber(s, i).Some? && ScanNumber(s, i).value <= |p|
    ensures ScanNumber(p, i) == ScanNumber(s, i)
  {
    var start := if s[i] == '-' then i + 1 else i;
    var whole := if s[start] == '0' then start + 1 else SkipDigits(s, start);
    var fraction := ScanFraction(s, whole).value;
    assert start < whole <= fraction <= ScanExponent(s, fraction).value <= |p|;
    if s[start] != '0' {
      SkipDigitsCut(p, s, start);
    }
    ScanFractionCut(p, s, whole);
    ScanExponentCut(p, s, fraction);
  }

  lemma ScanAtomCut(p: string, s: string, i: nat)
    requires p <= s && i < |p| && ScanAtom(s, i).Some? && ScanAtom(s, i).value <= |p|
    ensures ScanAtom(p, i) == ScanAtom(s, i)
  {
    hide ScanNumber;
    if HasAt(s, i, "true") {
      HasAtStable(p, s, i, "true");
    } else if HasAt(s, i, "null") {
      HasAtStable(p, s, i, "null");
    } else if HasAt(s, i, "false") {
      HasAtStable(p, s, i, "false");
      assert p[i] == s[i] == 'f';
    } else {
      assert p[i] == s[i];
      ScanNumberCut(p, s, i);
    }
  }

  lemma ScanNameCut(p: string, s: string, i: nat)
    requires p <= s && i <= |p| && ScanName(s, i).Some? && ScanName(s, i).value <= |p|
    ensures ScanName(p, i) == ScanName(s, i)
  {
    hide ScanString;
    var q := SkipSpace(s, i);
    var e := ScanString(s, q + 1).value;
    var c := SkipSpace(s, e);
    assert q < e <= c < SkipSpace(s, c + 1) <= |p|;
    SkipSpaceCut(p, s, i);
    ScanStringCut(p, s, q + 1);
    SkipSpaceCut(p, s, e);
    SkipSpaceCut(p, s, c + 1);
  }

  /** A value that ends within the prefix is there in the prefix alone. */
  lemma {:induction false} ScanValueCut(p: string, s: string, i: nat, depth: nat)
    requires p <= s && i < |p| && ScanValue(s, i, depth).Some? && ScanValue(s, i, depth).value <= |p|
    ensures ScanValue(p, i, depth) == ScanValue(s, i, depth)
    decreases |p| - i, 1
  {
    hide ScanAtom, ScanString;
    assert p[i] == s[i];
    if s[i] == '"' {
      ScanStringCut(p, s, i + 1);
    } else if s[i] == '{' {
      SkipSpaceCut(p, s, i + 1);
      var j := SkipSpace(s, i + 1);
      if j < |s| && s[j] == '}' {
        assert p[j] == '}';
      } else {
        ScanMembersCut(p, s, i + 1, depth - 1);
        NotClosed(p, s, i + 1, '}');
      }
    } else if s[i] == '[' {
      SkipSpaceCut(p, s, i + 1);
      var j := SkipSpace(s, i + 1);
      if j < |s| && s[j] == ']' {
        assert p[j] == ']';
      } else {
        ScanElementsCut(p, s, i + 1, depth - 1);
        NotClosed(p, s, i + 1, ']');
      }
    } else {
      ScanAtomCut(p, s, i);
    }
  }

  lemma NotClosed(p: string, s: string, i: nat, close: char)
    requires p <= s && i <= |p|
    requires !(SkipSpace(s, i) < |s| && s[SkipSpace(s, i)] == close)
    ensures !(SkipSpace(p, i) < |p| && p[SkipSpace(p, i)] == close)
  {
    SkipSpaceCut(p, s, i);
  }

  lemma {:induction false} ScanItemCut(p: string, s: string, i: nat, depth: nat)
    requires p <= s && i <= |p| && ScanItem(s, i, depth).Some? && ScanItem(s, i, depth).value < |p|
    ensures ScanItem(p, i, depth) == ScanItem(s, i, depth)
    decreases |p| - i, 2
  {
    hide ScanValue;
    var v := ScanValue(s, i, depth).value;
    assert i < v <= SkipSpace(s, v) < |p|;
    ScanValueCut(p, s, i, depth);
    SkipSpaceCut(p, s, v);
  }

  lemma {:induction false} ScanElementsCut(p: string, s: string, i: nat, depth: nat)
    requires p <= s && i <= |p| && ScanElements(s, i, depth).Some? && ScanElements(s, i, depth).value <= |p|
    ensures ScanElements(p, i, depth) == ScanElements(s, i, depth)
    decreases |p| - i, 3
  {
    hide ScanItem, SkipSpace;
    var first := SkipSpace(s, i);
    var k := ScanItem(s, first, depth).value;
    assert k < |p| by {
      if s[k] == ',' {
        assert k + 1 < ScanElements(s, k + 1, depth).value <= |p|;
      }
    }
    SkipSpaceCut(p, s, i);
    ScanItemCut(p, s, first, depth);
    if s[k] == ',' {
      ScanElementsCut(p, s, k + 1, depth);
    }
  }

  lemma {:induction false} ScanMembersCut(p: string, s: string, i: nat, depth: nat)
    requires p <= s && i <= |p| && ScanMembers(s, i, depth).Some? && ScanMembers(s, i, depth).value <= |p|
    ensures ScanMembers(p, i, depth) == ScanMembers(s, i, depth)
    decreases |p| - i, 3
  {
    hide ScanItem, SkipSpace, ScanName;
    var first := ScanName(s, i).value;
    var k := ScanItem(s, first, depth).value;
    assert k < |p| by {
      if s[k] == ',' {
        assert k + 1 < ScanMembers(s, k + 1, depth).value <= |p|;
      }
    }
    ScanNameCut(p, s, i);
    ScanItemCut(p, s, first, depth);
    if s[k] == ',' {
      ScanMembersCut(p, s, k + 1, depth);
    }
  }

  // ---- Slices ----

  /** A value found inside a text is a value on its own. */
  lemma ValueAlone(s: string, from: nat, to: nat, depth: nat)
    requires from <= |s| && ScanValue(s, from, depth) == Some(to)
    ensures ScanValue(s[from..to], 0, depth) == Some(to - from)
  {
    hide ScanValue;
    ScanValueShift(s, from, 0, depth);
    assert s[from..to] <= s[from..];
    ScanValueCut(s[from..to], s[from..], 0, depth);
  }
}
