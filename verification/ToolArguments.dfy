/** Accumulation of streamed tool-call argument fragments (src/protocol.rs, `merge_tool_call_arguments`). */
module ToolArguments {
  import opened Collections
  import opened JsonText
  import opened Text

  /** Whether a fragment continued the buffer or replaced a complete value in it. */
  datatype Merge = Appended | Replaced

  /** The strict guard: the buffer already holds a complete value and the fragment opens a new one. */
  predicate CompleteThenNew(buffer: string, fragment: string) {
    && buffer != ""
    && Accepts(buffer)
    && fragment != ""
    && IsOpening(fragment[0])
  }

  function MergeArguments(buffer: string, fragment: string, strict: bool): (merged: (string, Merge)) {
    if strict && CompleteThenNew(buffer, fragment) then (fragment, Replaced)
    else (buffer + fragment, Appended)
  }

  /** The buffer after merging `fragments`, in order, into `start`. */
  function Accumulate(start: string, fragments: seq<string>, strict: bool): string {
    if fragments == [] then start
    else MergeArguments(Accumulate(start, fragments[..|fragments| - 1], strict), fragments[|fragments| - 1], strict).0
  }

  /** Some fragment replaced the buffer on the way. */
  predicate EverReplaced(start: string, fragments: seq<string>, strict: bool) {
    exists n :: 0 <= n < |fragments|
      && MergeArguments(Accumulate(start, fragments[..n], strict), fragments[n], strict).1 == Replaced
  }

  lemma AccumulateSnoc(start: string, fragments: seq<string>, last: string, strict: bool)
    ensures var merged := MergeArguments(Accumulate(start, fragments, strict), last, strict);
            && Accumulate(start, fragments + [last], strict) == merged.0
            && (EverReplaced(start, fragments + [last], strict) <==>
                EverReplaced(start, fragments, strict) || merged.1.Replaced?)
  {
    hide MergeArguments;
    var all := fragments + [last];
    assert all[..|fragments|] == fragments && all[|fragments|] == last;
    assert forall n | 0 <= n < |fragments| :: all[..n] == fragments[..n] && all[n] == fragments[n];
    if EverReplaced(start, fragments, strict) {
      var n :| 0 <= n < |fragments|
        && MergeArguments(Accumulate(start, fragments[..n], strict), fragments[n], strict).1 == Replaced;
      assert MergeArguments(Accumulate(start, all[..n], strict), all[n], strict).1 == Replaced;
    }
  }

  lemma {:induction false} AccumulateAfterFirst(first: string, fragments: seq<string>, strict: bool)
    ensures Accumulate("", [first] + fragments, strict) == Accumulate(first, fragments, strict)
  {
    hide Accepts;
    if fragments == [] {
      assert [first] + fragments == [first] && [first][..0] == [];
      assert Accumulate("", [], strict) == "" && "" + first == first;
    } else {
      var init := fragments[..|fragments| - 1];
      assert ([first] + fragments)[..|fragments|] == [first] + init;
      AccumulateAfterFirst(first, init, strict);
    }
  }

  /** A buffer that was never replaced is the concatenation of its fragments. */
  lemma {:induction false} NeverReplacedJoins(fragments: seq<string>, strict: bool)
    requires !EverReplaced("", fragments, strict)
    ensures Accumulate("", fragments, strict) == Join(fragments)
  {
    if fragments != [] {
      var init, last := fragments[..|fragments| - 1], fragments[|fragments| - 1];
      assert fragments == init + [last];
      AccumulateSnoc("", init, last, strict);
      NeverReplacedJoins(init, strict);
    }
  }

  lemma JoinPrefix(fragments: seq<string>, n: nat)
    requires n <= |fragments|
    ensures Join(fragments[..n]) <= Join(fragments)
  {
    hide Join;
    var left, right := fragments[..n], fragments[n..];
    assert fragments == left + right;
    JoinAppend(left, right);
  }

  /** While the fragments spell a prefix of one object, array or string text, the guard never fires. */
  lemma {:induction false} GuardSilent(text: string, depth: nat, buffer: string, fragment: string)
    requires IsDelimitedText(text, depth)
    requires buffer + fragment <= text
    ensures !CompleteThenNew(buffer, fragment)
  {
    assert buffer <= text;
    if Accepts(buffer) && fragment != "" {
      assert fragment[0] == (buffer + fragment)[|buffer|] == text[|buffer|] == text[|buffer|..][0];
      CompletePrefixLeavesSpace(buffer, text, MAX_DEPTH, depth);
    }
  }

  /** Split invariance: however the upstream cuts one object, array or string text into fragments, merging
      rebuilds exactly what was sent so far, strictly or not, and never replaces the buffer. */
  lemma {:induction false} SplitInvariance(text: string, depth: nat, fragments: seq<string>, strict: bool)
    requires IsDelimitedText(text, depth)
    requires Join(fragments) <= text
    ensures Accumulate("", fragments, strict) == Join(fragments)
    ensures !EverReplaced("", fragments, strict)
  {
    forall n | 0 <= n <= |fragments|
      ensures Accumulate("", fragments[..n], strict) == Join(fragments[..n])
    {
      SplitInvarianceUpTo(text, depth, fragments, strict, n);
    }
    assert fragments[..|fragments|] == fragments;
    forall n | 0 <= n < |fragments|
      ensures MergeArguments(Accumulate("", fragments[..n], strict), fragments[n], strict).1 == Appended
    {
      SnocOf(fragments, n);
      GuardSilent(text, depth, Join(fragments[..n]), fragments[n]);
    }
  }

  lemma SnocSlice(fragments: seq<string>, n: nat)
    requires n < |fragments|
    ensures fragments[..n + 1] == fragments[..n] + [fragments[n]]
    ensures fragments[..n + 1][..n] == fragments[..n]
  {
  }

  lemma SnocOf(fragments: seq<string>, n: nat)
    requires n < |fragments|
    ensures Join(fragments[..n + 1]) == Join(fragments[..n]) + fragments[n]
    ensures Join(fragments[..n]) + fragments[n] <= Join(fragments)
  {
    hide Join;
    SnocSlice(fragments, n);
    JoinSnoc(fragments[..n], fragments[n]);
    JoinPrefix(fragments, n + 1);
  }

  lemma {:induction false} SplitInvarianceUpTo(text: string, depth: nat, fragments: seq<string>, strict: bool, n: nat)
    requires IsDelimitedText(text, depth)
    requires Join(fragments) <= text
    requires n <= |fragments|
    ensures Accumulate("", fragments[..n], strict) == Join(fragments[..n])
  {
    if n > 0 {
      SplitInvarianceUpTo(text, depth, fragments, strict, n - 1);
      SnocSlice(fragments, n - 1);
      SnocOf(fragments, n - 1);
      GuardSilent(text, depth, Join(fragments[..n - 1]), fragments[n - 1]);
    }
  }

  /** A complete placeholder sent ahead of the real arguments is discarded exactly when the real text does not
      start with whitespace; otherwise the buffer ends up different from the text. */
  lemma {:induction false} PlaceholderDiscarded(placeholder: string, text: string, depth: nat, fragments: seq<string>)
    requires placeholder != "" && Accepts(placeholder)
    requires IsDelimitedText(text, depth) && Join(fragments) == text
    ensures Accumulate(placeholder, fragments, true) == text <==> !IsSpace(text[0])
  {
    SkipSpaceMeaning(text, 0);
    assert fragments[..|fragments|] == fragments;
    if IsSpace(text[0]) {
      PlaceholderKept(placeholder, text, fragments, |fragments|);
    } else {
      PlaceholderReplaced(placeholder, text, depth, fragments, |fragments|);
    }
  }

  lemma {:induction false} PlaceholderReplaced(placeholder: string, text: string, depth: nat, fragments: seq<string>,
                                               n: nat)
    requires placeholder != "" && Accepts(placeholder)
    requires IsDelimitedText(text, depth) && Join(fragments) == text && IsOpening(text[0])
    requires n <= |fragments|
    ensures Accumulate(placeholder, fragments[..n], true)
         == if Join(fragments[..n]) == "" then placeholder else Join(fragments[..n])
  {
    if n > 0 {
      PlaceholderReplaced(placeholder, text, depth, fragments, n - 1);
      SnocSlice(fragments, n - 1);
      SnocOf(fragments, n - 1);
      var sent, fragment := Join(fragments[..n - 1]), fragments[n - 1];
      if sent == "" {
        if fragment != "" {
          assert fragment[0] == Join(fragments)[0];
        }
      } else {
        GuardSilent(text, depth, sent, fragment);
      }
    }
  }

  /** After leading whitespace the placeholder either stays in front or something already sent is lost. */
  lemma KeptStep(placeholder: string, sent: string, buffer: string, fragment: string)
    requires placeholder != "" && (buffer == placeholder + sent || |buffer| < |sent|)
    requires sent == "" && fragment != "" ==> !IsOpening(fragment[0])
    ensures var next := MergeArguments(buffer, fragment, true).0;
            next == placeholder + (sent + fragment) || |next| < |sent + fragment|
  {
    hide Accepts;
    assert placeholder + (sent + fragment) == placeholder + sent + fragment;
  }

  lemma {:induction false} PlaceholderKept(placeholder: string, text: string, fragments: seq<string>, n: nat)
    requires placeholder != ""
    requires Join(fragments) == text && text != "" && IsSpace(text[0])
    requires n <= |fragments|
    ensures var buffer, sent := Accumulate(placeholder, fragments[..n], true), Join(fragments[..n]);
            buffer == placeholder + sent || |buffer| < |sent|
  {
    if n == 0 {
      assert placeholder + "" == placeholder;
    } else {
      PlaceholderKept(placeholder, text, fragments, n - 1);
      SnocSlice(fragments, n - 1);
      SnocOf(fragments, n - 1);
      hide Join, MergeArguments;
      SpaceFirst(text, Join(fragments[..n - 1]), fragments[n - 1]);
      KeptStep(placeholder, Join(fragments[..n - 1]), Accumulate(placeholder, fragments[..n - 1], true),
               fragments[n - 1]);
    }
  }

  lemma SpaceFirst(text: string, sent: string, fragment: string)
    requires sent + fragment <= text && text != "" && IsSpace(text[0])
    ensures sent == "" && fragment != "" ==> !IsOpening(fragment[0])
  {
    if sent == "" && fragment != "" {
      assert fragment[0] == (sent + fragment)[0] == text[0];
    }
  }

  // ---- Repair of a finished buffer (`normalize_tool_arguments`) ----

  datatype Repair = TrailingData | Unparseable

  /** What the streaming parser reports next: the end of input, an error, or a value occupying `from..to`. */
  datatype Next = End | Bad | Value(from: nat, to: nat)

  /** After a literal or a number the parser insists on a delimiter or the end of input. */
  predicate EndsCleanly(s: string, i: nat)
    requires i <= |s|
  {
    i == |s| || IsSpace(s[i]) || s[i] in "\"[]{},:"
  }

  function NextValue(s: string, i: nat): (next: Next)
    requires i <= |s|
    ensures next.Value? ==> i <= next.from < next.to <= |s|
  {
    var from := SkipSpace(s, i);
    if from == |s| then End
    else match ScanValue(s, from, MAX_DEPTH)
      case None => Bad
      case Some(to) => if IsOpening(s[from]) || EndsCleanly(s, to) then Value(from, to) else Bad
  }

  /** The last object among the values at and after `i`, or `found`. */
  function LastObject(s: string, i: nat, found: Option<string>): Option<string>
    requires i <= |s|
    decreases |s| - i
  {
    match NextValue(s, i)
    case Value(from, to) => LastObject(s, to, if s[from] == '{' then Some(s[from..to]) else found)
    case _ => found
  }

  /** The arguments a finished call reports, and why they differ from the buffer. */
  function NormalizeArguments(raw: string): (string, Option<Repair>) {
    var s := Trim(raw);
    if s == "" then ("{}", None)
    else match NextValue(s, 0)
      case End => ("{}", None)
      case Bad => (raw, Some(Unparseable))
      case Value(from, to) =>
        if NextValue(s, to).End? then (raw, None)
        else (LastObject(s, to, None).GetOr(s[from..to]), Some(TrailingData))
  }
}
