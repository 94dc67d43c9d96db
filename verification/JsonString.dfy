/** String encoding of the JSON printer the gateway uses (section 7 of RFC 8259), and the `{"input": ...}`
    object that carries a custom tool's free-form input in Chat function-call arguments. */
module JsonString {
  import opened Collections
  import opened JsonText

  function HexDigit(n: nat): (c: char)
    requires n < 16
    ensures IsHex(c) && HexValue(c) == n
  {
    if n < 10 then ('0' as int + n) as char else ('a' as int + n - 10) as char
  }

  function EscapeChar(c: char): string {
    match c
    case '"' => "\\\""
    case '\\' => "\\\\"
    case '\n' => "\\n"
    case '\r' => "\\r"
    case '\t' => "\\t"
    case '\U{08}' => "\\b"
    case '\U{0C}' => "\\f"
    case _ =>
      if c < ' ' then "\\u00" + [HexDigit(c as nat / 16), HexDigit(c as nat % 16)] else [c]
  }

  /** The encoded content of a string, without the surrounding quotes: `json_string_fragment`. */
  function Escape(s: string): string {
    if s == "" then "" else EscapeChar(s[0]) + Escape(s[1..])
  }

  /** Encoding is a homomorphism: fragments may be encoded one by one. */
  lemma {:induction false} EscapeAppend(left: string, right: string)
    ensures Escape(left + right) == Escape(left) + Escape(right)
  {
    if left == "" {
      assert left + right == right;
    } else {
      assert (left + right)[1..] == left[1..] + right;
      EscapeAppend(left[1..], right);
    }
  }

  /** `{"input": input}` as the batch translation prints it. */
  function InputObject(input: string): string {
    "{\"input\":\"" + Escape(input) + "\"}"
  }

  /** Scanning an encoded string stops at the closing quote, wherever it stands. */
  lemma {:induction false} ScanEscaped(s: string, i: nat, input: string)
    requires i + |Escape(input)| < |s|
    requires s[i..i + |Escape(input)|] == Escape(input) && s[i + |Escape(input)|] == '"'
    ensures ScanString(s, i) == Some(i + |Escape(input)| + 1)
    decreases |input|
  {
    if input != "" {
      hide ScanString, EscapeChar;
      var head, rest := EscapeChar(input[0]), Escape(input[1..]);
      assert Escape(input) == head + rest;
      hide Escape;
      SplitSlice(s, i, head, rest);
      ScanEscapedChar(s, i, input[0]);
      ScanEscaped(s, i + |head|, input[1..]);
    }
  }

  lemma ScanEscapedChar(s: string, i: nat, c: char)
    requires i + |EscapeChar(c)| <= |s| && s[i..i + |EscapeChar(c)|] == EscapeChar(c)
    ensures ScanString(s, i) == ScanString(s, i + |EscapeChar(c)|)
  {
    var head := EscapeChar(c);
    assert forall k | 0 <= k < |head| :: s[i + k] == s[i..i + |head|][k] == head[k];
    if |head| == 6 {
      assert s[i + 1] == 'u' && s[i + 2] == '0' && s[i + 3] == '0';
      assert Hex4(s, i + 2).Some? && Hex4(s, i + 2).value < 256;
      assert ScanEscape(s, i) == Some(i + 6);
    } else if |head| == 2 {
      assert ScanEscape(s, i) == Some(i + 2);
    }
  }

  /** The printed input object is a complete JSON object text. */
  lemma InputObjectAccepted(input: string)
    ensures IsDelimitedText(InputObject(input), MAX_DEPTH)
  {
    var s, body := InputObject(input), Escape(input);
    var n := |body|;
    assert |s| == n + 12 && s[0] == '{' && s[1] == '"' && s[8] == ':'
      && s[9] == '"' && s[10 + n] == '"' && s[11 + n] == '}';
    assert s[2..7] == "input" && s[7] == '"';
    assert s[10..10 + n] == body;
    InputObjectScan(s, input, MAX_DEPTH);
  }

  lemma InputNameScan(s: string)
    requires |s| >= 12 && s[1] == '"' && s[2..7] == "input" && s[7] == '"' && s[8] == ':' && s[9] == '"'
    ensures ScanName(s, 1) == Some(9)
  {
    EscapePlain("input");
    ScanEscaped(s, 2, "input");
    hide ScanString;
    assert SkipSpace(s, 1) == 1 && SkipSpace(s, 8) == 8 && SkipSpace(s, 9) == 9;
  }

  lemma InputObjectScan(s: string, input: string, depth: nat)
    requires depth > 0
    requires var n := |Escape(input)|;
             && |s| == n + 12 && s[0] == '{' && s[1] == '"' && s[8] == ':' && s[9] == '"'
             && s[10 + n] == '"' && s[11 + n] == '}'
             && s[2..7] == "input" && s[7] == '"' && s[10..10 + n] == Escape(input)
    ensures IsDelimitedText(s, depth)
  {
    hide Escape, ScanString, ScanName;
    var n := |Escape(input)|;
    InputNameScan(s);
    ScanEscaped(s, 10, input);
    assert ScanValue(s, 9, depth - 1) == Some(11 + n);
    hide ScanValue;
    assert SkipSpace(s, 11 + n) == 11 + n;
    assert ScanMembers(s, 1, depth - 1) == Some(12 + n);
    InputObjectOpen(s, depth);
  }

  lemma InputObjectOpen(s: string, depth: nat)
    requires depth > 0 && |s| > 1 && s[0] == '{' && s[1] == '"' && ScanMembers(s, 1, depth - 1) == Some(|s|)
    ensures IsDelimitedText(s, depth)
  {
    hide ScanMembers;
    assert SkipSpace(s, 0) == 0 && SkipSpace(s, 1) == 1;
  }

  lemma {:induction false} EscapePlain(s: string)
    requires forall k | 0 <= k < |s| :: 'a' <= s[k] <= 'z'
    ensures Escape(s) == s
  {
    if s != "" {
      EscapePlain(s[1..]);
      assert EscapeChar(s[0]) == [s[0]];
      assert s == [s[0]] + s[1..];
    }
  }

  /** Encoding loses nothing. */
  lemma {:induction false} EscapeInjective(a: string, b: string)
    requires Escape(a) == Escape(b)
    ensures a == b
  {
    if a != "" && b != "" {
      EscapeCharPrefixFree(a[0], Escape(a[1..]), b[0], Escape(b[1..]));
      EscapeInjective(a[1..], b[1..]);
      assert a == [a[0]] + a[1..] && b == [b[0]] + b[1..];
    }
  }

  lemma EscapeCharShape(c: char)
    ensures var e := EscapeChar(c);
            || (e == [c] && c != '\\')
            || (|e| == 2 && e[0] == '\\' && e[1] != 'u')
            || (|e| == 6 && e[..2] == "\\u" && c as nat == HexValue(e[4]) * 16 + HexValue(e[5]))
  {
  }

  lemma EscapeCharPrefixFree(a: char, restA: string, b: char, restB: string)
    requires EscapeChar(a) + restA == EscapeChar(b) + restB
    ensures a == b && restA == restB
  {
    var left, right := EscapeChar(a), EscapeChar(b);
    EscapeCharShape(a);
    EscapeCharShape(b);
    assert left[0] == (left + restA)[0] == (right + restB)[0] == right[0];
    assert |left| > 1 && |right| > 1 ==> left[1] == (left + restA)[1] == (right + restB)[1] == right[1];
    assert |left| == |right|;
    assert left == (left + restA)[..|left|] == (right + restB)[..|right|] == right;
    assert restA == (left + restA)[|left|..] == (right + restB)[|right|..] == restB;
  }
}
