/**
 Why escapes found in the stripped text may be written into the original.

 Replacing prose characters by text that is inert to the scanner changes no decision of the
 scanner: stripping the edited body gives the edited strip.
 */
module Edits {
  import opened Wrappers
  import opened Lines
  import opened Scanner

  /** Characters that no block rule and no code span looks at. */
  predicate InertChar(c: char) {
    c !in " \t\n`~>"
  }

  predicate Inert(w: string) {
    w != "" && forall i | 0 <= i < |w| :: InertChar(w[i])
  }

  // ----- One line ------------------------------------------------------------------------------

  lemma {:induction false} RunStops(m: char, a: string, b: string)
    requires b != "" && b[0] != m
    ensures RunLength(m, a + b) == RunLength(m, a)
  {
    if a == "" {
      assert a + b == b;
    } else {
      assert (a + b)[1..] == a[1..] + b;
      RunStops(m, a[1..], b);
    }
  }

  /** An inert edit keeps a line's kind: fence marker, quote, indented code or none. */
  lemma LineKindStable(la: string, v: string, w: string, lb: string)
    requires Inert(v) && Inert(w)
    ensures FenceMatch(la + v + lb).Some? == FenceMatch(la + w + lb).Some?
    ensures IsBlockquote(la + v + lb) == IsBlockquote(la + w + lb)
    ensures IsIndentedCode(la + v + lb) == IsIndentedCode(la + w + lb)
  {
    LineKind(la, v, lb);
    LineKind(la, w, lb);
  }

  lemma LineKind(la: string, v: string, lb: string)
    requires Inert(v)
    ensures FenceMatch(la + v + lb).Some? == FenceMatch(la).Some?
    ensures IsBlockquote(la + v + lb) == IsBlockquote(la)
    ensures IsIndentedCode(la + v + lb) == IsIndentedCode(la)
  {
    var tail := v + lb;
    assert la + v + lb == la + tail;
    RunStops(' ', la, tail);
    var n := RunLength(' ', la);
    if n < |la| {
      assert (la + tail)[n..] == la[n..] + tail;
      if la[n] != tail[0] {
        RunStops(la[n], la[n..], tail);
      }
    } else {
      assert (la + tail)[n..] == tail;
    }
  }

  // ----- Code spans ----------------------------------------------------------------------------

  lemma SpansOfOne(c: char, b: string, s: string)
    requires s == [c] + b && c != '`'
    ensures BlankSpans(s) == [c] + BlankSpans(b)
  {
    assert CodeSpan(s) == None && s[1..] == b;
  }

  lemma {:induction false} SpansOfInert(w: string, b: string)
    requires Inert(w) || w == ""
    ensures BlankSpans(w + b) == w + BlankSpans(b)
  {
    if w == "" {
      assert w + b == b;
    } else {
      assert w + b == [w[0]] + (w[1..] + b);
      SpansOfOne(w[0], w[1..] + b, w + b);
      SpansOfInert(w[1..], b);
      assert [w[0]] + (w[1..] + BlankSpans(b)) == w + BlankSpans(b);
    }
  }

  lemma TicksBefore(a: string, b: string, j: nat, k: nat)
    requires j + k <= |a|
    ensures TicksAt(a + b, j, k) <==> TicksAt(a, j, k)
  {
    if TicksAt(a + b, j, k) {
      assert forall i | j <= i < j + k :: a[i] == (a + b)[i];
    }
  }

  lemma TicksAfter(a: string, b: string, j: nat, k: nat)
    ensures TicksAt(a + b, |a| + j, k) <==> TicksAt(b, j, k)
  {
    assert forall i | 0 <= i < |b| :: (a + b)[|a| + i] == b[i];
    if TicksAt(a + b, |a| + j, k) {
      assert forall i | j <= i < j + k :: b[i] == (a + b)[|a| + i];
    }
    if TicksAt(b, j, k) {
      forall i | |a| + j <= i < |a| + j + k ensures (a + b)[i] == '`' {
        assert b[i - |a|] == '`';
      }
    }
  }

  /** Backticks stand either wholly before an inert edit or wholly after it. */
  lemma TicksAvoidEdit(a: string, v: string, b: string, j: nat, k: nat)
    requires Inert(v) && k > 0 && TicksAt(a + (v + b), j, k)
    ensures j + k <= |a| || j >= |a| + |v|
  {
    var i := if j < |a| then |a| else j;
    if i < |a| + |v| {
      assert (a + (v + b))[i] == v[i - |a|];
    }
  }

  /** Where a place or an end before or after the edit of `v` into `w` moves to. */
  function Moved(i: nat, a: string, v: string, w: string): (m: int) {
    if i <= |a| then i else i - |v| + |w|
  }

  lemma TicksMove(a: string, v: string, w: string, b: string, r: nat, k: nat)
    requires Inert(v) && Inert(w) && k > 0 && TicksAt(a + (v + b), r, k)
    ensures r + k <= |a| || r >= |a| + |v|
    ensures TicksAt(a + (w + b), Moved(r + k, a, v, w) - k, k)
  {
    TicksAvoidEdit(a, v, b, r, k);
    if r + k <= |a| {
      TicksBefore(a, v + b, r, k);
      TicksBefore(a, w + b, r, k);
    } else {
      var d := r - |a| - |v|;
      TicksAfter(a, v + b, |v| + d, k);
      TicksAfter(v, b, d, k);
      TicksAfter(w, b, d, k);
      TicksAfter(a, w + b, |w| + d, k);
    }
  }

  /** The first `k` backticks survive the edit, and are found no later than where they moved. */
  lemma FirstTicksMove(a: string, v: string, w: string, b: string, j: nat, k: nat, s: string, s': string)
    requires s == a + (v + b) && s' == a + (w + b)
    requires Inert(v) && Inert(w) && k > 0 && j <= |a| && FirstTicks(s, j, k).Some?
    ensures var r := FirstTicks(s, j, k).value;
      && (r + k <= |a| || r >= |a| + |v|)
      && FirstTicks(s', j, k).Some? && FirstTicks(s', j, k).value <= Moved(r + k, a, v, w) - k
  {
    var r := FirstTicks(s, j, k).value;
    TicksMove(a, v, w, b, r, k);
    FirstTicksFinds(s', j, k, Moved(r + k, a, v, w) - k);
  }

  lemma FirstTicksFinds(s: string, j: nat, k: nat, m: nat)
    requires j <= m && j <= |s| && TicksAt(s, m, k)
    ensures FirstTicks(s, j, k).Some? && FirstTicks(s, j, k).value <= m
  {
  }

  /** An end found in the edited text is the end found in the text, moved. */
  predicate SameEnd(r: Option<nat>, r': Option<nat>, a: string, v: string, w: string) {
    && r.Some? == r'.Some?
    && (r.Some? ==> r'.value == Moved(r.value, a, v, w) && (r.value <= |a| || r.value > |a| + |v|))
  }

  lemma {:induction false} SpanWithAroundEdit(a: string, v: string, w: string, b: string, k: nat)
    requires Inert(v) && Inert(w) && k <= |a|
    ensures SameEnd(SpanWith(a + (v + b), k), SpanWith(a + (w + b), k), a, v, w)
  {
    if k > 0 {
      if FirstTicks(a + (v + b), k, k).Some? {
        FirstTicksMove(a, v, w, b, k, k, a + (v + b), a + (w + b));
      }
      if FirstTicks(a + (w + b), k, k).Some? {
        FirstTicksMove(a, w, v, b, k, k, a + (w + b), a + (v + b));
      }
      SpanWithAroundEdit(a, v, w, b, k - 1);
    }
  }

  lemma CodeSpanAroundEdit(a: string, v: string, w: string, b: string)
    requires Inert(v) && Inert(w) && a != ""
    ensures SameEnd(CodeSpan(a + (v + b)), CodeSpan(a + (w + b)), a, v, w)
  {
    RunStops('`', a, v + b);
    RunStops('`', a, w + b);
    SpanWithAroundEdit(a, v, w, b, RunLength('`', a));
  }

  /** `out` is `t` with its character at `i` replaced by `w`. */
  predicate ReplacedAt(out: string, t: string, i: nat, w: string) {
    i < |t| && out == t[..i] + (w + t[i + 1..])
  }

  /** One step of `BlankSpans`: how much it consumes, and what it emits. */
  function SpanStep(s: string): (n: nat)
    requires s != ""
    ensures 0 < n <= |s|
  {
    if CodeSpan(s).Some? then CodeSpan(s).value else 1
  }

  function SpanHead(s: string): (h: string)
    requires s != ""
    ensures |h| == SpanStep(s)
  {
    if CodeSpan(s).Some? then Blank(s[..SpanStep(s)]) else [s[0]]
  }

  lemma SpansUnfold(s: string)
    requires s != ""
    ensures BlankSpans(s) == SpanHead(s) + BlankSpans(s[SpanStep(s)..])
  {
  }

  lemma ReplacedUnder(head: string, out: string, t: string, i: nat, w: string, out': string, t': string, at: nat)
    requires ReplacedAt(out, t, i, w) && out' == head + out && t' == head + t && at == |head| + i
    ensures ReplacedAt(out', t', at, w)
  {
    assert t'[..at] == head + t[..i];
    assert t'[at + 1..] == t[i + 1..];
    assert head + (t[..i] + (w + t[i + 1..])) == (head + t[..i]) + (w + t[i + 1..]);
  }

  /** A prose character is not inside the span that starts before it. */
  lemma StepBeforeEdit(a: string, c: char, w: string, b: string, s: string, s': string)
    requires s == a + ([c] + b) && s' == a + (w + b)
    requires InertChar(c) && Inert(w) && a != "" && BlankSpans(s)[|a|] == c
    ensures SpanStep(s) == SpanStep(s') <= |a| && SpanHead(s) == SpanHead(s')
  {
    CodeSpanAroundEdit(a, [c], w, b);
    SpanNotPast(s, |a|, c);
    SameSpan(CodeSpan(s), CodeSpan(s'), a, [c], w);
    SameHead(s, s');
  }

  lemma SameSpan(r: Option<nat>, r': Option<nat>, a: string, v: string, w: string)
    requires SameEnd(r, r', a, v, w) && (r.Some? ==> r.value <= |a|)
    ensures r == r'
  {
  }

  lemma SpanNotPast(s: string, i: nat, c: char)
    requires 0 < i < |s| && InertChar(c) && BlankSpans(s)[i] == c
    ensures SpanStep(s) <= i
    ensures CodeSpan(s).Some? ==> CodeSpan(s).value <= i
  {
    if SpanStep(s) > i {
      InSpan(s, i);
    }
  }

  lemma InSpan(s: string, i: nat)
    requires s != "" && i < SpanStep(s) && CodeSpan(s).Some?
    ensures BlankSpans(s)[i] == ' '
  {
  }

  lemma SameHead(s: string, s': string)
    requires s != "" && s' != "" && s[0] == s'[0] && CodeSpan(s) == CodeSpan(s')
    ensures SpanStep(s) == SpanStep(s') && SpanHead(s) == SpanHead(s')
  {
  }

  lemma DropBeforeEdit(a: string, vb: string, n: nat)
    requires n <= |a|
    ensures (a + vb)[n..] == a[n..] + vb
  {
  }

  /** The step before the edit is the same in both texts, and leaves the same edit to be made. */
  lemma EditAfterStep(a: string, c: char, w: string, b: string, s: string, s': string) returns (n: nat)
    requires s == a + ([c] + b) && s' == a + (w + b)
    requires InertChar(c) && Inert(w) && a != "" && BlankSpans(s)[|a|] == c
    ensures SpanStep(s) == n == SpanStep(s') && n <= |a| && SpanHead(s) == SpanHead(s')
    ensures s[n..] == a[n..] + ([c] + b) && s'[n..] == a[n..] + (w + b)
    ensures BlankSpans(s[n..])[|a| - n] == c
  {
    StepBeforeEdit(a, c, w, b, s, s');
    n := SpanStep(s);
    DropBeforeEdit(a, [c] + b, n);
    DropBeforeEdit(a, w + b, n);
    SpanTail(s, |a|);
  }

  lemma EditUnderStep(s: string, s': string, n: nat, head: string, t: string, t': string, at: nat, w: string)
    requires s != "" && s' != "" && SpanStep(s) == n == SpanStep(s') && n <= at
    requires SpanHead(s) == head == SpanHead(s') && BlankSpans(s[n..]) == t && BlankSpans(s'[n..]) == t'
    requires ReplacedAt(t', t, at - n, w)
    ensures ReplacedAt(BlankSpans(s'), BlankSpans(s), at, w)
  {
    SpansUnfold(s);
    SpansUnfold(s');
    ReplacedUnder(head, t', t, at - n, w, BlankSpans(s'), BlankSpans(s), at);
  }

  /** Editing an unblanked inert character moves no code span. */
  lemma {:induction false} SpansEdit(a: string, c: char, w: string, b: string, s: string, s': string)
    requires s == a + ([c] + b) && s' == a + (w + b)
    requires InertChar(c) && Inert(w) && BlankSpans(s)[|a|] == c
    ensures ReplacedAt(BlankSpans(s'), BlankSpans(s), |a|, w)
    decreases |a|
  {
    if a == "" {
      assert s == [c] + b && s' == w + b;
      SpansOfInert([c], b);
      SpansOfInert(w, b);
    } else {
      var n := EditAfterStep(a, c, w, b, s, s');
      SpansEdit(a[n..], c, w, b, s[n..], s'[n..]);
      EditUnderStep(s, s', n, SpanHead(s), BlankSpans(s[n..]), BlankSpans(s'[n..]), |a|, w);
    }
  }

  lemma SpanTail(s: string, i: nat)
    requires s != "" && SpanStep(s) <= i < |s|
    ensures BlankSpans(s)[i] == BlankSpans(s[SpanStep(s)..])[i - SpanStep(s)]
  {
    SpansUnfold(s);
    IndexInTail(SpanHead(s), BlankSpans(s[SpanStep(s)..]), i, BlankSpans(s));
  }

  lemma IndexInTail(head: string, rest: string, i: nat, s: string)
    requires s == head + rest && |head| <= i < |s|
    ensures s[i] == rest[i - |head|]
  {
  }

  // ----- The whole scanner ---------------------------------------------------------------------

  /** What the block rules make of one line, and of the lines before and after it. */
  function KeptPieces(xs: seq<string>, line: string, ys: seq<string>): (string, string, string) {
    var open := FenceAfter(xs, None);
    (LinesBefore(KeptLines(BlankFenced(xs, None))),
     KeptLine(if open.Some? || FenceMatch(line).Some? then Blank(line) else line),
     LinesAfter(KeptLines(BlankFenced(ys, NextFence(open, line)))))
  }

  lemma KeptAround(xs: seq<string>, line: string, ys: seq<string>, s: string)
    requires Split(s) == xs + [line] + ys
    ensures KeptText(s) == KeptPieces(xs, line, ys).0 + KeptPieces(xs, line, ys).1 + KeptPieces(xs, line, ys).2
  {
    var open := FenceAfter(xs, None);
    FencedAround(xs, line, ys);
    KeptLinesAround(BlankFenced(xs, None), if open.Some? || FenceMatch(line).Some? then Blank(line) else line,
                    BlankFenced(ys, NextFence(open, line)));
  }

  lemma FencedAround(xs: seq<string>, line: string, ys: seq<string>)
    ensures var open := FenceAfter(xs, None);
      BlankFenced(xs + [line] + ys, None) == BlankFenced(xs, None)
        + ([if open.Some? || FenceMatch(line).Some? then Blank(line) else line]
           + BlankFenced(ys, NextFence(open, line)))
  {
    BlankFencedSplit(xs, [line] + ys, None);
    assert xs + [line] + ys == xs + ([line] + ys);
    assert ([line] + ys)[1..] == ys;
  }

  lemma KeptLinesAround(xs: seq<string>, line: string, ys: seq<string>)
    ensures Join(KeptLines(xs + ([line] + ys)))
            == LinesBefore(KeptLines(xs)) + KeptLine(line) + LinesAfter(KeptLines(ys))
  {
    assert KeptLines(xs + ([line] + ys)) == KeptLines(xs) + [KeptLine(line)] + KeptLines(ys);
    JoinAround(KeptLines(xs), KeptLine(line), KeptLines(ys));
  }

  lemma {:induction false} BeforeLength(xs: seq<string>, zs: seq<string>)
    requires BlankedLines(zs, xs)
    ensures |LinesBefore(zs)| == |LinesBefore(xs)|
  {
    if xs != [] {
      BeforeLength(xs[1..], zs[1..]);
    }
  }

  lemma BeforeKeptLength(xs: seq<string>)
    ensures |LinesBefore(KeptLines(BlankFenced(xs, None)))| == |LinesBefore(xs)|
  {
    FencedBlanked(xs, None);
    KeptLinesBlanked(BlankFenced(xs, None), xs);
    BeforeLength(xs, KeptLines(BlankFenced(xs, None)));
  }

  lemma KeptLinesBlanked(zs: seq<string>, xs: seq<string>)
    requires BlankedLines(zs, xs)
    ensures BlankedLines(KeptLines(zs), xs)
  {
  }

  /** A line that the block rules leave as it is. */
  predicate LineKept(xs: seq<string>, line: string) {
    FenceAfter(xs, None).None? && FenceMatch(line).None? && !IsBlockquote(line) && !IsIndentedCode(line)
  }

  lemma LineKeptEdit(xs: seq<string>, la: string, c: char, w: string, lb: string)
    requires InertChar(c) && Inert(w) && LineKept(xs, la + [c] + lb)
    ensures LineKept(xs, la + w + lb)
  {
    LineKindStable(la, [c], w, lb);
  }

  lemma KeptPiecesEdit(xs: seq<string>, line: string, line': string, ys: seq<string>)
    requires LineKept(xs, line) && LineKept(xs, line')
    ensures |KeptPieces(xs, line, ys).0| == |LinesBefore(xs)|
    ensures KeptPieces(xs, line, ys).1 == line
    ensures KeptPieces(xs, line', ys) == (KeptPieces(xs, line, ys).0, line', KeptPieces(xs, line, ys).2)
  {
    BeforeKeptLength(xs);
  }

  /** A line whose piece holds a character that is no blank is kept. */
  lemma PieceKeepsLine(xs: seq<string>, line: string, ys: seq<string>, i: nat, c: char)
    requires i < |line| && KeptPieces(xs, line, ys).1[i] == c && InertChar(c)
    ensures LineKept(xs, line)
  {
  }

  /** A line with a character that is kept, and is no blank, is kept. */
  lemma KeptCharKeepsLine(xs: seq<string>, line: string, i: nat, ys: seq<string>, s: string, c: char)
    requires Split(s) == xs + [line] + ys && i < |line| && InertChar(c)
    requires |KeptText(s)| > |LinesBefore(xs)| + i && KeptText(s)[|LinesBefore(xs)| + i] == c
    ensures LineKept(xs, line)
  {
    KeptAround(xs, line, ys, s);
    BeforeKeptLength(xs);
    KeptLineLength(xs, line, ys);
    InMiddle(KeptPieces(xs, line, ys).0, KeptPieces(xs, line, ys).1, KeptPieces(xs, line, ys).2, i);
    PieceKeepsLine(xs, line, ys, i, c);
  }

  /** What is kept around the line is the same whether the line is edited or not. */
  lemma KeptAroundEdit(xs: seq<string>, line: string, line': string, ys: seq<string>, s: string, s': string)
    returns (p: string, q: string)
    requires Split(s) == xs + [line] + ys && Split(s') == xs + [line'] + ys
    requires LineKept(xs, line) && LineKept(xs, line')
    ensures |p| == |LinesBefore(xs)| && KeptText(s) == p + line + q && KeptText(s') == p + line' + q
  {
    p, q := KeptPieces(xs, line, ys).0, KeptPieces(xs, line, ys).2;
    KeptPiecesEdit(xs, line, line', ys);
    KeptAround(xs, line, ys, s);
    KeptAround(xs, line', ys, s');
  }

  lemma KeptLineEdit(xs: seq<string>, la: string, c: char, w: string, lb: string, ys: seq<string>,
                     s: string, s': string, at: nat)
    requires InertChar(c) && Inert(w) && at == |LinesBefore(xs)| + |la|
    requires Split(s) == xs + [la + [c] + lb] + ys && Split(s') == xs + [la + w + lb] + ys
    requires |KeptText(s)| > at && KeptText(s)[at] == c
    ensures ReplacedAt(KeptText(s'), KeptText(s), at, w)
  {
    KeptCharKeepsLine(xs, la + [c] + lb, |la|, ys, s, c);
    LineKeptEdit(xs, la, c, w, lb);
    var p, q := KeptAroundEdit(xs, la + [c] + lb, la + w + lb, ys, s, s');
    ReplacedInMiddle(p, la, c, w, lb, q, KeptText(s), KeptText(s'), at);
  }

  lemma InMiddle(p: string, k: string, q: string, i: nat)
    requires i < |k|
    ensures (p + k + q)[|p| + i] == k[i]
  {
  }

  lemma ReplacedInMiddle(p: string, la: string, c: char, w: string, lb: string, q: string,
                         t: string, t': string, at: nat)
    requires t == p + (la + [c] + lb) + q && t' == p + (la + w + lb) + q && at == |p| + |la|
    ensures ReplacedAt(t', t, at, w)
  {
    Reassociate(p, la, [c], lb, q);
    Reassociate(p, la, w, lb, q);
    ReplaceOne(p + la, c, w, lb + q);
  }

  /** The same string, split at an edit and split at the line the edit is in. */
  lemma SplitAtLine(a: string, v: string, b: string, xs: seq<string>, la: string, lb: string, ys: seq<string>)
    returns (s: string)
    requires a == LinesBefore(xs) + la && b == lb + LinesAfter(ys)
    requires AllOneLine(xs) && OneLine(la) && OneLine(v) && OneLine(lb) && AllOneLine(ys)
    ensures s == a + (v + b) && Split(s) == xs + [la + v + lb] + ys && |a| == |LinesBefore(xs)| + |la|
  {
    s := a + (v + b);
    Reassociate(LinesBefore(xs), la, v, lb, LinesAfter(ys));
    SplitAround(xs, la + v + lb, ys);
  }

  /** A character kept by the block rules may be edited without moving a block. */
  lemma KeptEdit(a: string, c: char, w: string, b: string)
    requires InertChar(c) && Inert(w)
    requires |KeptText(a + ([c] + b))| > |a| && KeptText(a + ([c] + b))[|a|] == c
    ensures ReplacedAt(KeptText(a + (w + b)), KeptText(a + ([c] + b)), |a|, w)
  {
    var xs, la, lb, ys := LineAt(a, b);
    var s := SplitAtLine(a, [c], b, xs, la, lb, ys);
    var s' := SplitAtLine(a, w, b, xs, la, lb, ys);
    KeptLineEdit(xs, la, c, w, lb, ys, s, s', |a|);
  }

  lemma KeptLineLength(xs: seq<string>, line: string, ys: seq<string>)
    ensures |KeptPieces(xs, line, ys).1| == |line|
  {
  }

  lemma Reassociate(p: string, la: string, v: string, lb: string, q: string)
    ensures p + (la + v + lb) + q == (p + la) + (v + (lb + q))
  {
  }

  lemma ReplaceOne(a: string, c: char, w: string, b: string)
    ensures ReplacedAt(a + (w + b), a + ([c] + b), |a|, w)
  {
    assert (a + ([c] + b))[..|a|] == a && (a + ([c] + b))[|a| + 1..] == b;
  }

  lemma SplitAtChar(t: string, i: nat)
    requires i < |t|
    ensures t == t[..i] + ([t[i]] + t[i + 1..])
  {
  }

  /** Editing one prose character of a body edits the stripped text at the same offset. */
  lemma StripEdit(a: string, c: char, w: string, b: string)
    requires InertChar(c) && Inert(w)
    requires |StripNonProse(a + ([c] + b))| > |a| && StripNonProse(a + ([c] + b))[|a|] == c
    ensures ReplacedAt(StripNonProse(a + (w + b)), StripNonProse(a + ([c] + b)), |a|, w)
  {
    var s := a + ([c] + b);
    SpansBlanked(KeptText(s));
    KeptEdit(a, c, w, b);
    var t := KeptText(s);
    var ta, tb := t[..|a|], t[|a| + 1..];
    SplitAtChar(t, |a|);
    SpansEdit(ta, c, w, tb, ta + ([c] + tb), ta + (w + tb));
  }

  // ----- Many edits at once --------------------------------------------------------------------

  /** `"".join(pieces)` */
  function Flatten(pieces: seq<string>): string {
    if pieces == [] then "" else pieces[0] + Flatten(pieces[1..])
  }

  /** One piece per character of `s`: the character itself, or what replaces it where it is prose. */
  predicate ProseEdits(pieces: seq<string>, s: string) {
    var t := StripNonProse(s);
    && |pieces| == |s| == |t|
    && forall i | 0 <= i < |s| :: pieces[i] == [s[i]] || (InertChar(t[i]) && Inert(pieces[i]))
  }

  /** The same edits, made in the stripped text. */
  function StrippedPieces(pieces: seq<string>, s: string): (out: seq<string>)
    requires ProseEdits(pieces, s)
    ensures |out| == |s|
  {
    var t := StripNonProse(s);
    seq(|s|, i requires 0 <= i < |s| => if pieces[i] == [s[i]] then [t[i]] else pieces[i])
  }

  /** Stripping an edited body gives the edited strip. */
  lemma StripEdits(pieces: seq<string>, s: string)
    requires ProseEdits(pieces, s)
    ensures StripNonProse(Flatten(pieces)) == Flatten(StrippedPieces(pieces, s))
  {
    StripEditsFrom(pieces, s, 0);
    assert s[..0] + Flatten(pieces[0..]) == Flatten(pieces);
    assert StripNonProse(s)[..0] + Flatten(StrippedPieces(pieces, s)[0..]) == Flatten(StrippedPieces(pieces, s));
  }

  lemma FlattenFrom(pieces: seq<string>, n: nat)
    requires n < |pieces|
    ensures Flatten(pieces[n..]) == pieces[n] + Flatten(pieces[n + 1..])
  {
    assert pieces[n..][1..] == pieces[n + 1..];
  }

  lemma {:induction false} StripEditsFrom(pieces: seq<string>, s: string, n: nat)
    requires ProseEdits(pieces, s) && n <= |s|
    ensures StripNonProse(s[..n] + Flatten(pieces[n..]))
            == StripNonProse(s)[..n] + Flatten(StrippedPieces(pieces, s)[n..])
    decreases |s| - n
  {
    var t, marked := StripNonProse(s), StrippedPieces(pieces, s);
    if n == |s| {
      assert s[..n] + Flatten(pieces[n..]) == s;
      assert t[..n] + Flatten(marked[n..]) == t;
    } else {
      StripEditsFrom(pieces, s, n + 1);
      FlattenFrom(pieces, n);
      FlattenFrom(marked, n);
      OneMoreEdit(pieces, s, n);
    }
  }

  lemma OneMoreEdit(pieces: seq<string>, s: string, n: nat)
    requires ProseEdits(pieces, s) && n < |s|
    requires StripNonProse(s[..n + 1] + Flatten(pieces[n + 1..]))
             == StripNonProse(s)[..n + 1] + Flatten(StrippedPieces(pieces, s)[n + 1..])
    ensures StripNonProse(s[..n] + (pieces[n] + Flatten(pieces[n + 1..])))
            == StripNonProse(s)[..n] + (StrippedPieces(pieces, s)[n] + Flatten(StrippedPieces(pieces, s)[n + 1..]))
  {
    var t := StripNonProse(s);
    var a, b, tb := s[..n], Flatten(pieces[n + 1..]), Flatten(StrippedPieces(pieces, s)[n + 1..]);
    TakeOneMore(s, n, b);
    TakeOneMore(t, n, tb);
    if pieces[n] != [s[n]] {
      StripKeepsOffsets(s);
      StripEdit(a, s[n], pieces[n], b);
    }
  }

  lemma TakeOneMore(s: string, n: nat, b: string)
    requires n < |s|
    ensures s[..n + 1] + b == s[..n] + ([s[n]] + b)
    ensures (s[..n] + ([s[n]] + b))[..n] == s[..n] && (s[..n] + ([s[n]] + b))[n + 1..] == b
  {
  }

  // ----- Reading a flattened text --------------------------------------------------------------

  function CharBefore(s: string, j: nat): Option<char>
    requires j <= |s|
  {
    if j == 0 then None else Some(s[j - 1])
  }

  /** Which piece holds the character at `j` of the flattened text, and what surrounds it. */
  lemma {:induction false} PieceAt(pieces: seq<string>, j: nat) returns (i: nat, d: nat)
    requires j < |Flatten(pieces)| && forall k | 0 <= k < |pieces| :: pieces[k] != ""
    ensures i < |pieces| && d < |pieces[i]| && j == |Flatten(pieces[..i])| + d
    ensures Flatten(pieces)[j..] == pieces[i][d..] + Flatten(pieces[i + 1..])
    ensures CharBefore(Flatten(pieces), j) ==
            if d > 0 then Some(pieces[i][d - 1])
            else if i > 0 then Some(pieces[i - 1][|pieces[i - 1]| - 1])
            else None
  {
    var head, tail := pieces[0], Flatten(pieces[1..]);
    if j < |head| {
      i, d := 0, j;
      assert pieces[..0] == [];
      assert (head + tail)[j..] == head[j..] + tail;
    } else {
      i, d := PieceAt(pieces[1..], j - |head|);
      assert pieces[..i + 1] == [head] + pieces[1..][..i];
      assert ([head] + pieces[1..][..i])[1..] == pieces[1..][..i];
      assert (head + tail)[j..] == tail[j - |head|..];
      assert pieces[1..][i + 1..] == pieces[i + 2..];
      i := i + 1;
    }
  }

  lemma {:induction false} FlattenChars(s: string)
    ensures Flatten(seq(|s|, i requires 0 <= i < |s| => [s[i]])) == s
  {
    var pieces := seq(|s|, i requires 0 <= i < |s| => [s[i]]);
    if s != "" {
      assert pieces[1..] == seq(|s| - 1, i requires 0 <= i < |s| - 1 => [s[1..][i]]);
      FlattenChars(s[1..]);
      assert s == [s[0]] + s[1..];
    }
  }

  lemma FlattenOne(a: string)
    ensures Flatten([a]) == a
  {
    assert [a][1..] == [] && Flatten([]) == "";
  }

  lemma Associates(a: string, b: string, c: string)
    ensures a + (b + c) == (a + b) + c
  {
  }

  lemma {:induction false} FlattenSplit(a: seq<string>, b: seq<string>)
    ensures Flatten(a + b) == Flatten(a) + Flatten(b)
  {
    if a == [] {
      assert a + b == b;
    } else {
      assert (a + b)[1..] == a[1..] + b;
      FlattenSplit(a[1..], b);
      Associates(a[0], Flatten(a[1..]), Flatten(b));
    }
  }
}
