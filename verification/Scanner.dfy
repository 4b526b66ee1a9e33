/**
 The scanner of triggers/mention.py: which characters of a body are prose.

 Fenced blocks, block quotes, indented code and code spans are blanked in place. The block rules
 follow CommonMark 0.31 (sections 4.4, 4.5, 5.1 and 6.1) as far as the program's own patterns do.
 */
module Scanner {
  import opened Wrappers
  import opened Lines

  /** How many times `c` is repeated at the start of `s`. */
  function RunLength(c: char, s: string): (n: nat)
    ensures n <= |s|
    ensures forall i | 0 <= i < n :: s[i] == c
    ensures n < |s| ==> s[n] != c
  {
    if s == "" || s[0] != c then 0 else 1 + RunLength(c, s[1..])
  }

  function Repeat(c: char, n: nat): (s: string)
    ensures |s| == n && forall i | 0 <= i < n :: s[i] == c
  {
    seq(n, _ => c)
  }

  function Blank(s: string): string {
    Repeat(' ', |s|)
  }

  /** The whitespace that Python's `str.strip` removes. */
  predicate IsSpace(c: char) {
    || c in "\t\n\r \U{000B}\U{000C}\U{001C}\U{001D}\U{001E}\U{001F}\U{0085}\U{00A0}\U{1680}"
    || '\U{2000}' <= c <= '\U{200A}'
    || c in "\U{2028}\U{2029}\U{202F}\U{205F}\U{3000}"
  }

  // ----- Fenced blocks -------------------------------------------------------------------------

  datatype FenceLine = FenceLine(mark: char, length: nat, info: string)

  /** `_FENCE_RE`: at most 3 spaces, then a run of 3 or more backticks or tildes, then anything. */
  function FenceMatch(line: string): Option<FenceLine> {
    var indent := RunLength(' ', line);
    var rest := line[indent..];
    if indent > 3 || rest == "" || rest[0] !in "`~" then None
    else
      var length := RunLength(rest[0], rest);
      if length >= 3 then Some(FenceLine(rest[0], length, rest[length..])) else None
  }

  /** The fence that is open, and how long it is. */
  datatype Fence = Fence(mark: char, length: nat)

  predicate Closes(open: Fence, m: FenceLine) {
    m.mark == open.mark && m.length >= open.length && forall c | c in m.info :: IsSpace(c)
  }

  function NextFence(open: Option<Fence>, line: string): Option<Fence> {
    match (open, FenceMatch(line))
    case (None, Some(m)) => Some(Fence(m.mark, m.length))
    case (None, None) => None
    case (Some(f), Some(m)) => if Closes(f, m) then None else open
    case (Some(f), None) => open
  }

  /** The fence open after reading `lines`. */
  function FenceAfter(lines: seq<string>, open: Option<Fence>): Option<Fence> {
    if lines == [] then open else FenceAfter(lines[1..], NextFence(open, lines[0]))
  }

  function BlankFenced(lines: seq<string>, open: Option<Fence>): (out: seq<string>)
    ensures |out| == |lines|
  {
    if lines == [] then []
    else
      var line := if open.Some? || FenceMatch(lines[0]).Some? then Blank(lines[0]) else lines[0];
      [line] + BlankFenced(lines[1..], NextFence(open, lines[0]))
  }

  lemma {:induction false} BlankFencedSplit(a: seq<string>, b: seq<string>, open: Option<Fence>)
    ensures FenceAfter(a + b, open) == FenceAfter(b, FenceAfter(a, open))
    ensures BlankFenced(a + b, open) == BlankFenced(a, open) + BlankFenced(b, FenceAfter(a, open))
  {
    if a == [] {
      assert a + b == b;
    } else {
      assert (a + b)[1..] == a[1..] + b;
      BlankFencedSplit(a[1..], b, NextFence(open, a[0]));
    }
  }

  /** `_blank_fenced_blocks`: one pass over the lines, remembering the open fence. */
  method BlankFencedBlocks(lines: seq<string>) returns (out: seq<string>)
    ensures out == BlankFenced(lines, None)
  {
    out := [];
    var openFence: Option<Fence> := None;
    for i := 0 to |lines|
      invariant openFence == FenceAfter(lines[..i], None)
      invariant out == BlankFenced(lines[..i], None)
    {
      var line := lines[i];
      BlankFencedSplit(lines[..i], [line], None);
      assert lines[..i + 1] == lines[..i] + [line];
      var m := FenceMatch(line);
      if openFence == None {
        if m.Some? {
          openFence := Some(Fence(m.value.mark, m.value.length));
        }
        out := out + [if m.Some? then Blank(line) else line];
        continue;
      }
      var f := openFence.value;
      if m.Some? && m.value.mark == f.mark {
        var closes := m.value.length >= f.length && forall c | c in m.value.info :: IsSpace(c);
        openFence := if closes then None else openFence;
      }
      out := out + [Blank(line)];
    }
    assert lines[..|lines|] == lines;
  }

  // ----- Quotes and indented code --------------------------------------------------------------

  predicate IsBlockquote(line: string) {
    var indent := RunLength(' ', line);
    indent <= 3 && indent < |line| && line[indent] == '>'
  }

  predicate IsIndentedCode(line: string) {
    RunLength(' ', line) >= 4 || (line != "" && line[0] == '\t')
  }

  function KeptLine(line: string): string {
    if IsBlockquote(line) || IsIndentedCode(line) then Blank(line) else line
  }

  function KeptLines(lines: seq<string>): (out: seq<string>)
    ensures |out| == |lines|
  {
    seq(|lines|, i requires 0 <= i < |lines| => KeptLine(lines[i]))
  }

  // ----- Code spans ----------------------------------------------------------------------------

  /** Whether `k` backticks stand in `s` from index `j` on. */
  predicate TicksAt(s: string, j: nat, k: nat) {
    j + k <= |s| && forall i | j <= i < j + k :: s[i] == '`'
  }

  /** The first place at or after `j` where `k` backticks stand. */
  function FirstTicks(s: string, j: nat, k: nat): (r: Option<nat>)
    requires j <= |s|
    ensures r.Some? ==> j <= r.value && TicksAt(s, r.value, k) && forall i | j <= i < r.value :: !TicksAt(s, i, k)
    ensures r.None? ==> forall i | j <= i :: !TicksAt(s, i, k)
    decreases |s| - j
  {
    if TicksAt(s, j, k) then Some(j)
    else if j == |s| then None
    else FirstTicks(s, j + 1, k)
  }

  /** What the pattern matches with `k`, `k - 1`, ..., 1 opening backticks: the end of the match. */
  function SpanWith(s: string, k: nat): (end: Option<nat>)
    requires k <= |s|
    ensures end.Some? ==> 0 < end.value <= |s|
  {
    if k == 0 then None
    else
      var close := FirstTicks(s, k, k);
      if close.Some? then Some(close.value + k) else SpanWith(s, k - 1)
  }

  /**
   `_INLINE_CODE_RE` at the start of `s`: where the code span ends. The opening run is greedy and
   gives backticks back; what follows it is lazy.
   */
  function CodeSpan(s: string): (end: Option<nat>)
    ensures end.Some? ==> 0 < end.value <= |s|
  {
    SpanWith(s, RunLength('`', s))
  }

  function BlankSpans(s: string): (t: string)
    ensures |t| == |s|
    decreases |s|
  {
    if s == "" then ""
    else
      var end := CodeSpan(s);
      if end.Some? then Blank(s[..end.value]) + BlankSpans(s[end.value..])
      else [s[0]] + BlankSpans(s[1..])
  }

  // ----- The whole scanner ---------------------------------------------------------------------

  function KeptText(body: string): string {
    Join(KeptLines(BlankFenced(Split(body), None)))
  }

  /** `strip_non_prose` */
  function StripNonProse(body: string): string {
    BlankSpans(KeptText(body))
  }

  /** `t` is `s` with some characters blanked. */
  predicate Blanked(t: string, s: string) {
    |t| == |s| && forall i | 0 <= i < |s| :: t[i] == s[i] || t[i] == ' '
  }

  predicate BlankedLines(t: seq<string>, s: seq<string>) {
    |t| == |s| && forall i | 0 <= i < |s| :: Blanked(t[i], s[i])
  }

  lemma {:induction false} JoinBlanked(t: seq<string>, s: seq<string>)
    requires |s| > 0 && BlankedLines(t, s)
    ensures Blanked(Join(t), Join(s))
  {
    if |s| > 1 {
      JoinBlanked(t[1..], s[1..]);
    }
  }

  lemma {:induction false} FencedBlanked(lines: seq<string>, open: Option<Fence>)
    ensures BlankedLines(BlankFenced(lines, open), lines)
  {
    if lines != [] {
      FencedBlanked(lines[1..], NextFence(open, lines[0]));
    }
  }

  lemma {:induction false} SpansBlanked(s: string)
    ensures Blanked(BlankSpans(s), s)
    decreases |s|
  {
    if s != "" {
      var end := CodeSpan(s);
      SpansBlanked(s[if end.Some? then end.value else 1..]);
    }
  }

  lemma KeptTextBlanked(body: string)
    ensures Blanked(KeptText(body), body)
  {
    var lines := Split(body);
    FencedBlanked(lines, None);
    JoinBlanked(KeptLines(BlankFenced(lines, None)), lines);
    JoinSplit(body);
  }

  /** Every character of the result sits at the offset it sat at in `body`, or is blanked. */
  lemma StripKeepsOffsets(body: string)
    ensures Blanked(StripNonProse(body), body)
  {
    KeptTextBlanked(body);
    SpansBlanked(KeptText(body));
  }
}
