/** Text order and trimming, as the standard library's `cmp` and `trim` provide them. */
module Text {

  /** Lexicographic order by code point. */
  predicate TextBefore(a: string, b: string) {
    b != "" && (a == "" || a[0] < b[0] || (a[0] == b[0] && TextBefore(a[1..], b[1..])))
  }

  lemma {:induction false} TextOrder(a: string, b: string, c: string)
    ensures TextBefore(a, b) ==> !TextBefore(b, a)
    ensures a == b || TextBefore(a, b) || TextBefore(b, a)
    ensures TextBefore(a, b) && TextBefore(b, c) ==> TextBefore(a, c)
    decreases |a|
  {
    if a != "" {
      TextOrder(a[1..], if b == "" then "" else b[1..], if c == "" then "" else c[1..]);
      if b != "" && a[0] == b[0] && a[1..] == b[1..] {
        assert a == [a[0]] + a[1..] == [b[0]] + b[1..] == b;
      }
    }
  }

  /** Unicode White_Space, what the standard library's `trim` removes. */
  predicate IsTrimmed(c: char) {
    || '\U{09}' <= c <= '\U{0D}' || c == ' ' || c == '\U{85}' || c == '\U{A0}' || c == '\U{1680}'
    || '\U{2000}' <= c <= '\U{200A}' || c == '\U{2028}' || c == '\U{2029}' || c == '\U{202F}'
    || c == '\U{205F}' || c == '\U{3000}'
  }

  predicate AllTrimmed(s: string) {
    forall i | 0 <= i < |s| :: IsTrimmed(s[i])
  }

  function TrimStart(s: string): (rest: string)
    ensures |rest| <= |s|
  {
    if s != "" && IsTrimmed(s[0]) then TrimStart(s[1..]) else s
  }

  function TrimEnd(s: string): (rest: string)
    ensures |rest| <= |s|
  {
    if s != "" && IsTrimmed(s[|s| - 1]) then TrimEnd(s[..|s| - 1]) else s
  }

  function Trim(s: string): (rest: string)
    ensures |rest| <= |s|
  {
    TrimEnd(TrimStart(s))
  }

  /** What `trim` removes in front. */
  function LeftMargin(s: string): string {
    s[..|s| - |TrimStart(s)|]
  }

  /** What `trim` removes behind. */
  function RightMargin(s: string): string {
    TrimStart(s)[|Trim(s)|..]
  }

  lemma {:induction false} TrimStartSplits(s: string)
    ensures s == LeftMargin(s) + TrimStart(s) && AllTrimmed(LeftMargin(s))
    ensures TrimStart(s) != "" ==> !IsTrimmed(TrimStart(s)[0])
  {
    if s != "" && IsTrimmed(s[0]) {
      TrimStartSplits(s[1..]);
      assert LeftMargin(s) == [s[0]] + LeftMargin(s[1..]);
      assert s == [s[0]] + s[1..];
    }
  }

  lemma {:induction false} TrimEndSplits(s: string)
    ensures TrimEnd(s) <= s && AllTrimmed(s[|TrimEnd(s)|..])
    ensures TrimEnd(s) != "" ==> !IsTrimmed(TrimEnd(s)[|TrimEnd(s)| - 1])
  {
    hide IsTrimmed;
    if s != "" && IsTrimmed(s[|s| - 1]) {
      var init, n := s[..|s| - 1], |TrimEnd(s[..|s| - 1])|;
      TrimEndSplits(init);
      assert forall i | n <= i < |s| - 1 :: s[i] == init[n..][i - n];
    }
  }

  /** Trimming takes off two margins it is made for, and what is left starts and ends with something else. */
  lemma TrimSplits(s: string)
    ensures s == LeftMargin(s) + Trim(s) + RightMargin(s)
    ensures AllTrimmed(LeftMargin(s)) && AllTrimmed(RightMargin(s))
    ensures Trim(s) != "" ==> !IsTrimmed(Trim(s)[0]) && !IsTrimmed(Trim(s)[|Trim(s)| - 1])
  {
    TrimStartSplits(s);
    TrimEndSplits(TrimStart(s));
    hide TrimStart, TrimEnd;
  }
}
