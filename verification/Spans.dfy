/**
 Which characters of a text its code spans cover, said by its backticks alone: as many backticks as
 can be paired open a span, and it ends with the next run of as many (CommonMark 0.31, section 6.1,
 as far as the pattern of triggers/mention.py follows it).
 */
module Spans {
  import opened Wrappers
  import opened Scanner
  import Edits

  /** From `p` to before `end`: `k` backticks, and what follows up to the next `k` backticks. */
  predicate Ticked(s: string, p: nat, k: nat, end: nat) {
    && 0 < k && p + 2 * k <= end && TicksAt(s, p, k) && TicksAt(s, end - k, k)
    && forall j | p + k <= j < end - k :: !TicksAt(s, j, k)
  }

  /** No more than `k` backticks at `p`, and up to `top`, are followed by as many. */
  predicate NoMoreTicked(s: string, p: nat, k: nat, top: nat) {
    forall m, j | k < m <= top && p + m <= j <= |s| :: !(TicksAt(s, p, m) && TicksAt(s, j, m))
  }

  /** A code span: as many backticks as possible are paired. */
  predicate Span(s: string, p: nat, k: nat, end: nat) {
    Ticked(s, p, k, end) && NoMoreTicked(s, p, k, |s|)
  }

  predicate SpanStarts(s: string, p: nat) {
    exists k: nat, end: nat | k <= end <= |s| :: Span(s, p, k, end)
  }

  /** What is before `p` is whole spans and characters outside any span. */
  predicate BetweenSpans(s: string, p: nat) {
    || p == 0
    || (BetweenSpans(s, p - 1) && !SpanStarts(s, p - 1))
    || exists start: nat, k: nat | start < p && k <= p :: BetweenSpans(s, start) && Span(s, start, k, p)
  }

  predicate InSpan(s: string, i: nat) {
    exists start: nat, k: nat, end: nat | start <= i < end && k <= end <= |s| ::
      BetweenSpans(s, start) && Span(s, start, k, end)
  }

  // ----- The pattern of a code span finds these spans ------------------------------------------

  lemma TicksFrom(s: string, p: nat, j: nat, k: nat)
    requires p <= |s|
    ensures TicksAt(s[p..], j, k) <==> TicksAt(s, p + j, k)
  {
    assert s == s[..p] + s[p..];
    Edits.TicksAfter(s[..p], s[p..], j, k);
  }

  lemma {:induction false} SpanWithFinds(s: string, k: nat, top: nat) returns (j: nat)
    requires k <= top && TicksAt(s, 0, top) && NoMoreTicked(s, 0, k, top)
    ensures SpanWith(s, k).Some? ==> Ticked(s, 0, j, SpanWith(s, k).value) && NoMoreTicked(s, 0, j, top)
    ensures SpanWith(s, k).None? ==> NoMoreTicked(s, 0, 0, top)
  {
    j := k;
    if k > 0 && FirstTicks(s, k, k).None? {
      j := SpanWithFinds(s, k - 1, top);
    }
  }

  /** What the pattern matches at `p` is the span that starts there. */
  lemma CodeSpanFinds(s: string, p: nat) returns (k: nat)
    requires p < |s|
    ensures CodeSpan(s[p..]).Some? ==> Span(s, p, k, p + CodeSpan(s[p..]).value)
    ensures CodeSpan(s[p..]).None? ==> !SpanStarts(s, p)
  {
    var t := s[p..];
    var run := RunLength('`', t);
    k := SpanWithFinds(t, run, run);
    var least := if CodeSpan(t).Some? then k else 0;
    forall m, j | least < m <= |s| && p + m <= j <= |s| ensures !(TicksAt(s, p, m) && TicksAt(s, j, m)) {
      TicksFrom(s, p, 0, m);
      TicksFrom(s, p, j - p, m);
    }
    if CodeSpan(t).Some? {
      TickedFrom(s, p, k, CodeSpan(t).value);
    }
  }

  lemma TickedFrom(s: string, p: nat, k: nat, end: nat)
    requires p <= |s| && Ticked(s[p..], 0, k, end)
    ensures Ticked(s, p, k, p + end)
  {
    TicksFrom(s, p, 0, k);
    TicksFrom(s, p, end - k, k);
    forall j | p + k <= j < p + end - k ensures !TicksAt(s, j, k) {
      TicksFrom(s, p, j - p, k);
    }
  }

  /** The pattern finds at most one span at a place. */
  lemma OneSpan(s: string, p: nat, k: nat, end: nat)
    requires Span(s, p, k, end)
    ensures p < |s| && CodeSpan(s[p..]) == Some(end - p)
  {
    var j := CodeSpanFinds(s, p);
    assert SpanStarts(s, p);
    var found := p + CodeSpan(s[p..]).value;
    assert TicksAt(s, p, j) && TicksAt(s, p, k) && TicksAt(s, found - j, j) && TicksAt(s, end - k, k);
  }

  /** Between two spans, what is before ends with a span, or with a character outside any. */
  lemma StepBefore(s: string, p: nat) returns (start: nat)
    requires 0 < p <= |s| && BetweenSpans(s, p)
    ensures start < p && BetweenSpans(s, start) && start + Edits.SpanStep(s[start..]) == p
  {
    if BetweenSpans(s, p - 1) && !SpanStarts(s, p - 1) {
      start := p - 1;
      NoSpanThere(s, start);
    } else {
      var k: nat;
      start, k :| start < p && k <= p && BetweenSpans(s, start) && Span(s, start, k, p);
      OneSpan(s, start, k, p);
    }
  }

  lemma DropAfterDrop(s: string, n: nat, m: nat)
    requires n <= m <= |s|
    ensures s[n..][m - n..] == s[m..]
  {
  }

  /** One step of blanking: what comes after it is blanked by itself. */
  lemma StepBlanks(s: string, tail: string, n: nat, i: nat, j: nat)
    requires s != "" && n == Edits.SpanStep(s) && tail == s[n..] && i == n + j < |s|
    ensures BlankSpans(s)[i] == BlankSpans(tail)[j]
  {
    Edits.SpanTail(s, i);
  }

  /** The places that the steps of blanking come to, from the start on. */
  ghost predicate Stops(s: string, stops: seq<nat>) {
    && stops != [] && stops[0] == 0 && (forall k | 0 <= k < |stops| :: stops[k] <= |s|)
    && forall k | 0 <= k < |stops| - 1 ::
         stops[k] < |s| && stops[k + 1] == stops[k] + Edits.SpanStep(s[stops[k]..])
  }

  lemma {:induction false} StopsAt(s: string, p: nat) returns (stops: seq<nat>)
    requires p <= |s| && BetweenSpans(s, p)
    ensures Stops(s, stops) && stops[|stops| - 1] == p
  {
    if p == 0 {
      stops := [0];
    } else {
      var start := StepBefore(s, p);
      var before := StopsAt(s, start);
      stops := before + [p];
    }
  }

  /** Blanking the spans of a text blanks those of what follows, from where its steps come to. */
  lemma {:induction false} BlankSpansFrom(s: string, stops: seq<nat>, tail: string, i: nat, j: nat)
    requires Stops(s, stops) && tail == s[stops[|stops| - 1]..] && i == stops[|stops| - 1] + j < |s|
    ensures BlankSpans(s)[i] == BlankSpans(tail)[j]
    decreases |stops|
  {
    var n := |stops| - 1;
    if n == 0 {
      assert tail == s;
    } else {
      var start, p := stops[n - 1], stops[n];
      DropAfterDrop(s, start, p);
      BlankSpansFrom(s, stops[..n], s[start..], i, i - start);
      StepBlanks(s[start..], tail, p - start, i - start, j);
    }
  }

  lemma NoSpanThere(s: string, p: nat)
    requires p < |s| && !SpanStarts(s, p)
    ensures CodeSpan(s[p..]).None?
  {
    var k := CodeSpanFinds(s, p);
  }

  /** Every character is outside any span, or in the span found where the one before ends. */
  lemma {:induction false} SpanAround(s: string, i: nat) returns (p: nat)
    requires i < |s|
    ensures BetweenSpans(s, p) && p <= i < p + Edits.SpanStep(s[p..])
  {
    if i == 0 {
      p := 0;
    } else {
      p := SpanAround(s, i - 1);
      if i >= p + Edits.SpanStep(s[p..]) {
        var k := CodeSpanFinds(s, p);
        assert CodeSpan(s[p..]).Some? ==> Span(s, p, k, i);
        p := i;
      }
    }
  }

  /** Of the text from between two spans on: a span there is blanked, and a character outside any is kept. */
  lemma FirstStepBlanks(s: string, p: nat, i: nat)
    requires BetweenSpans(s, p) && p <= i < |s| && i < p + Edits.SpanStep(s[p..])
    ensures BlankSpans(s)[i] == if CodeSpan(s[p..]).Some? then ' ' else s[i]
  {
    var stops := StopsAt(s, p);
    BlankSpansFrom(s, stops, s[p..], i, i - p);
    Edits.SpansUnfold(s[p..]);
  }

  lemma InSpanIsBlanked(s: string, i: nat)
    requires i < |s| && InSpan(s, i)
    ensures BlankSpans(s)[i] == ' '
  {
    var start: nat, k: nat, end: nat :| start <= i < end && k <= end <= |s|
      && BetweenSpans(s, start) && Span(s, start, k, end);
    OneSpan(s, start, k, end);
    FirstStepBlanks(s, start, i);
  }

  /** Exactly the characters in a span are blanked. */
  lemma SpansAreBlanked(s: string, i: nat)
    requires i < |s|
    ensures BlankSpans(s)[i] == if InSpan(s, i) then ' ' else s[i]
  {
    if InSpan(s, i) {
      InSpanIsBlanked(s, i);
    } else {
      var p := SpanAround(s, i);
      var k := CodeSpanFinds(s, p);
      FirstStepBlanks(s, p, i);
    }
  }
}
