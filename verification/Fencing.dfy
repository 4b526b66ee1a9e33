/**
 Fences that untrusted text cannot leave: `_fence` and `_backtick_runs` of engine/prompt.py and
 `_code` of report.py, read by the agent's own scanner.
 */
module Fencing {
  import opened Wrappers
  import opened Lines
  import opened Numbers
  import opened Scanner
  import Edits

  /** The length of the longest run of backticks in `s`. */
  function LongestRun(s: string): nat {
    if s == "" then 0 else Max(RunLength('`', s), LongestRun(s[1..]))
  }

  lemma {:induction false} LongestRunIsLongest(s: string, j: nat, k: nat)
    requires k > 0 && TicksAt(s, j, k)
    ensures k <= LongestRun(s)
    decreases j
  {
    if j > 0 {
      Edits.TicksAfter(s[..1], s[1..], j - 1, k);
      assert s == s[..1] + s[1..];
      LongestRunIsLongest(s[1..], j - 1, k);
    }
  }

  function LongestOf(runs: seq<string>): nat {
    if runs == [] then 0 else Max(LongestOf(runs[..|runs| - 1]), |runs[|runs| - 1]|)
  }

  ghost predicate HasRun(text: string, n: nat) {
    exists j: nat :: TicksAt(text, j, n)
  }

  /** No backticks that end at or before `end` are more than `n`. */
  ghost predicate RunsBounded(text: string, end: int, n: nat) {
    forall j: nat, k: nat | k > 0 && j + k <= end && TicksAt(text, j, k) :: k <= n
  }

  /** Backticks that reach into the run of `n` before `end` start inside it. */
  lemma BoundGrows(text: string, end: nat, n: nat, bound: nat)
    requires n <= end <= |text| && (n < end ==> text[end - n - 1] != '`')
    requires RunsBounded(text, end - n, bound)
    ensures RunsBounded(text, end, Max(bound, n))
  {
    forall j: nat, k: nat | k > 0 && j + k <= end && TicksAt(text, j, k) ensures k <= Max(bound, n) {
      assert j + k > end - n ==> j >= end - n;
    }
  }

  lemma BoundIsLongest(text: string, n: nat)
    requires RunsBounded(text, |text|, n) && (n > 0 ==> HasRun(text, n))
    ensures n == LongestRun(text)
  {
    var j := LongestRunAttained(text);
    if n > 0 {
      var k: nat :| TicksAt(text, k, n);
      LongestRunIsLongest(text, k, n);
    }
  }

  /** After `i` characters a run of `n` is under way, and `bound` is the longest run before it. */
  ghost predicate Collected(text: string, i: nat, n: nat, bound: nat) {
    && n <= i <= |text| && TicksAt(text, i - n, n) && (n < i ==> text[i - n - 1] != '`')
    && RunsBounded(text, i - n, bound) && (bound > 0 ==> HasRun(text, bound))
  }

  lemma OneMoreTick(text: string, i: nat, n: nat, bound: nat)
    requires Collected(text, i, n, bound) && i < |text| && text[i] == '`'
    ensures Collected(text, i + 1, n + 1, bound)
  {
  }

  lemma RunEnds(text: string, i: nat, n: nat, bound: nat)
    requires Collected(text, i, n, bound)
    ensures RunsBounded(text, i, Max(bound, n)) && (Max(bound, n) > 0 ==> HasRun(text, Max(bound, n)))
    ensures i < |text| && text[i] != '`' ==> Collected(text, i + 1, 0, Max(bound, n))
  {
    BoundGrows(text, i, n, bound);
  }

  lemma LongestOfMore(runs: seq<string>, run: string)
    ensures LongestOf(runs + [run]) == Max(LongestOf(runs), |run|)
  {
    assert (runs + [run])[..|runs|] == runs;
  }

  /** `_backtick_runs`: the longest of the runs it collects is the longest run there is. */
  method BacktickRuns(text: string) returns (runs: seq<string>)
    ensures LongestOf(runs) == LongestRun(text)
  {
    runs := [];
    var current := "";
    for i := 0 to |text|
      invariant Collected(text, i, |current|, LongestOf(runs))
    {
      var c := text[i];
      if c == '`' {
        OneMoreTick(text, i, |current|, LongestOf(runs));
        current := current + [c];
        continue;
      }
      RunEnds(text, i, |current|, LongestOf(runs));
      LongestOfMore(runs, current);
      if current != "" {
        runs := runs + [current];
        current := "";
      }
    }
    RunEnds(text, |text|, |current|, LongestOf(runs));
    LongestOfMore(runs, current);
    if current != "" {
      runs := runs + [current];
    }
    BoundIsLongest(text, LongestOf(runs));
  }

  // ----- A fenced block ------------------------------------------------------------------------

  function FenceLength(text: string): nat {
    Max(3, LongestRun(text) + 1)
  }

  function Fenced(text: string, info: string): string {
    var fence := Repeat('`', FenceLength(text));
    fence + info + "\n" + text + "\n" + fence
  }

  /** `_fence` */
  method FenceText(text: string, info: string) returns (r: string)
    ensures r == Fenced(text, info)
  {
    var runs := BacktickRuns(text);
    var longest := 0;
    for i := 0 to |runs|
      invariant longest == LongestOf(runs[..i])
    {
      assert runs[..i + 1][..i] == runs[..i];
      longest := Max(longest, |runs[i]|);
    }
    assert runs[..|runs|] == runs;
    var fence := Repeat('`', Max(3, longest + 1));
    r := fence + info + "\n" + text + "\n" + fence;
  }

  lemma {:induction false} LongestRunAttained(s: string) returns (j: nat)
    ensures TicksAt(s, j, LongestRun(s))
  {
    if s == "" || RunLength('`', s) == LongestRun(s) {
      j := 0;
    } else {
      j := LongestRunAttained(s[1..]);
      assert s == s[..1] + s[1..];
      Edits.TicksAfter(s[..1], s[1..], j, LongestRun(s));
      j := j + 1;
    }
  }

  lemma {:induction false} BeforeAll(lines: seq<string>)
    requires lines != []
    ensures LinesBefore(lines) == Join(lines) + "\n"
  {
    if |lines| == 1 {
      assert lines[1..] == [] && LinesBefore([]) == "";
    } else {
      BeforeAll(lines[1..]);
    }
  }

  /** The lines of a fenced block: the opening, the lines of the text, the closing. */
  lemma FencedLines(text: string, info: string)
    requires OneLine(info)
    ensures var fence := Repeat('`', FenceLength(text));
      Split(Fenced(text, info)) == [fence + info] + Split(text) + [fence]
  {
    var fence := Repeat('`', FenceLength(text));
    LinesAround(fence + info, text, fence);
    assert Fenced(text, info) == (fence + info) + "\n" + text + "\n" + fence;
  }

  lemma LinesAround(head: string, text: string, foot: string)
    requires OneLine(head) && OneLine(foot)
    ensures Split(head + "\n" + text + "\n" + foot) == [head] + Split(text) + [foot]
  {
    var lines := [head] + Split(text);
    JoinSplit(text);
    BeforeAll(Split(text));
    assert lines[1..] == Split(text);
    SplitAround(lines, foot, []);
    BeforeThenFoot(head, text, foot, LinesBefore(Split(text)), LinesBefore(lines));
    assert lines + [foot] + [] == lines + [foot];
  }

  lemma BeforeThenFoot(head: string, text: string, foot: string, lines: string, all: string)
    requires lines == text + "\n" && all == head + "\n" + lines
    ensures head + "\n" + text + "\n" + foot == all + foot + LinesAfter([])
  {
  }

  lemma LineInText(text: string, n: nat) returns (before: string, after: string)
    requires n < |Split(text)|
    ensures text == before + (Split(text)[n] + after)
  {
    var lines := Split(text);
    JoinSplit(text);
    assert lines == lines[..n] + [lines[n]] + lines[n + 1..];
    JoinAround(lines[..n], lines[n], lines[n + 1..]);
    before, after := LinesBefore(lines[..n]), LinesAfter(lines[n + 1..]);
  }

  lemma TicksOfLineInText(text: string, before: string, line: string, after: string, j: nat, k: nat)
    requires text == before + (line + after) && j + k <= |line| && k > 0 && TicksAt(line, j, k)
    ensures k <= LongestRun(text)
  {
    Edits.TicksBefore(line, after, j, k);
    Edits.TicksAfter(before, line + after, j, k);
    LongestRunIsLongest(text, |before| + j, k);
  }

  /** No line of the text closes a fence longer than its longest run of backticks. */
  lemma TextLineKeepsFence(text: string, n: nat, length: nat)
    requires n < |Split(text)| && length > LongestRun(text)
    ensures NextFence(Some(Fence('`', length)), Split(text)[n]) == Some(Fence('`', length))
  {
    var line := Split(text)[n];
    var m := FenceMatch(line);
    if m.Some? && m.value.mark == '`' {
      var before, after := LineInText(text, n);
      TicksInLine(line, RunLength(' ', line));
      TicksOfLineInText(text, before, line, after, RunLength(' ', line), m.value.length);
    }
  }

  lemma TicksInLine(line: string, indent: nat)
    requires indent <= |line|
    ensures TicksAt(line, indent, RunLength('`', line[indent..]))
  {
    var n := RunLength('`', line[indent..]);
    assert forall i | 0 <= i < n :: line[indent..][i] == line[indent + i];
  }

  lemma {:induction false} TextKeepsFence(text: string, n: nat, length: nat)
    requires n <= |Split(text)| && length > LongestRun(text)
    ensures FenceAfter(Split(text)[..n], Some(Fence('`', length))) == Some(Fence('`', length))
  {
    if n > 0 {
      TextKeepsFence(text, n - 1, length);
      TextLineKeepsFence(text, n - 1, length);
      assert Split(text)[..n] == Split(text)[..n - 1] + [Split(text)[n - 1]];
      BlankFencedSplit(Split(text)[..n - 1], [Split(text)[n - 1]], Some(Fence('`', length)));
    }
  }

  function BlankAll(lines: seq<string>): (out: seq<string>)
    ensures |out| == |lines|
  {
    seq(|lines|, i requires 0 <= i < |lines| => Blank(lines[i]))
  }

  lemma {:induction false} OpenFenceBlanks(lines: seq<string>, open: Option<Fence>)
    requires forall n | 0 <= n < |lines| :: FenceAfter(lines[..n], open).Some?
    ensures BlankFenced(lines, open) == BlankAll(lines)
  {
    if lines != [] {
      assert FenceAfter(lines[..0], open).Some?;
      forall n | 0 <= n < |lines| - 1 ensures FenceAfter(lines[1..][..n], NextFence(open, lines[0])).Some? {
        assert lines[..n + 1][1..] == lines[1..][..n];
      }
      OpenFenceBlanks(lines[1..], NextFence(open, lines[0]));
    }
  }

  lemma FenceOpens(length: nat, info: string)
    requires length >= 3 && (info != "" ==> info[0] != '`')
    ensures FenceMatch(Repeat('`', length) + info) == Some(FenceLine('`', length, info))
  {
    var fence := Repeat('`', length);
    var line := fence + info;
    assert line[0] == '`' && line[0..] == line;
    TicksRun(length, info);
    assert line[length..] == info;
  }

  lemma {:induction false} TicksRun(length: nat, rest: string)
    requires rest != "" ==> rest[0] != '`'
    ensures RunLength('`', Repeat('`', length) + rest) == length
  {
    if length > 0 {
      assert (Repeat('`', length) + rest)[1..] == Repeat('`', length - 1) + rest;
      TicksRun(length - 1, rest);
    } else {
      assert Repeat('`', 0) + rest == rest;
    }
  }

  /** A fenced block is open from its first line until its last, whatever the text in it. */
  lemma FencedStaysOpen(text: string, info: string, n: nat)
    requires OneLine(info) && (info != "" ==> info[0] != '`')
    requires 0 < n < |Split(Fenced(text, info))|
    ensures FenceAfter(Split(Fenced(text, info))[..n], None) == Some(Fence('`', FenceLength(text)))
  {
    var length := FenceLength(text);
    var head := Repeat('`', length) + info;
    FencedLines(text, info);
    var all := Split(Fenced(text, info));
    assert all[..n] == [head] + Split(text)[..n - 1];
    FenceOpens(length, info);
    assert ([head] + Split(text)[..n - 1])[1..] == Split(text)[..n - 1];
    TextKeepsFence(text, n - 1, length);
  }

  /**
   The block is blanked whole, it is open until its last line and closed after it, and what
   follows is scanned as if the block had not been there.
   */
  lemma FencedIsInescapable(text: string, info: string, rest: seq<string>)
    requires OneLine(info) && (info != "" ==> info[0] != '`')
    ensures var lines := Split(Fenced(text, info));
      && (forall n | 0 < n < |lines| :: FenceAfter(lines[..n], None).Some?)
      && FenceAfter(lines, None) == None
      && BlankFenced(lines + rest, None) == BlankAll(lines) + BlankFenced(rest, None)
  {
    var length := FenceLength(text);
    var fence := Repeat('`', length);
    FencedLines(text, info);
    var lines := Split(Fenced(text, info));
    forall n | 0 < n < |lines| ensures FenceAfter(lines[..n], None).Some? {
      FencedStaysOpen(text, info, n);
    }
    var n := |lines| - 1;
    FencedStaysOpen(text, info, n);
    assert lines == lines[..n] + [fence];
    BlankFencedSplit(lines[..n], [fence], None);
    FenceOpens(length, "");
    assert fence + "" == fence;
    assert lines == [fence + info] + lines[1..];
    FencedBlanks(fence + info, lines[1..]);
    BlankFencedSplit(lines, rest, None);
  }

  lemma FencedBlanks(head: string, rest: seq<string>)
    requires FenceMatch(head).Some?
    requires forall n | 0 < n < |rest| + 1 :: FenceAfter(([head] + rest)[..n], None).Some?
    ensures BlankFenced([head] + rest, None) == BlankAll([head] + rest)
  {
    var open := NextFence(None, head);
    forall n | 0 <= n < |rest| ensures FenceAfter(rest[..n], open).Some? {
      assert ([head] + rest)[..n + 1] == [head] + rest[..n];
      FenceAfterFirst(head, rest[..n]);
    }
    OpenFenceBlanks(rest, open);
    BlankAllSplit(head, rest);
    assert ([head] + rest)[1..] == rest;
  }

  lemma FenceAfterFirst(head: string, rest: seq<string>)
    ensures FenceAfter([head] + rest, None) == FenceAfter(rest, NextFence(None, head))
  {
    assert ([head] + rest)[1..] == rest;
  }

  lemma BlankAllSplit(head: string, rest: seq<string>)
    ensures BlankAll([head] + rest) == [Blank(head)] + BlankAll(rest)
  {
  }

  // ----- A code span ---------------------------------------------------------------------------

  /** `path` with every character that is not printable shown as a question mark. */
  function Shown(path: string, printable: char -> bool): (shown: string)
    ensures |shown| == |path|
  {
    seq(|path|, i requires 0 <= i < |path| => if printable(path[i]) then path[i] else '?')
  }

  /** `_code`: whatever counts as printable. */
  function Code(path: string, printable: char -> bool): string {
    var shown := Shown(path, printable);
    var fence := Repeat('`', LongestRun(shown) + 1);
    var pad := if |fence| > 1 then " " else "";
    fence + (pad + shown + pad) + fence
  }

  /** Between its fences, and a space on either side if it needs it, a path shows what of it is printable. */
  lemma CodeShows(path: string, printable: char -> bool, i: nat)
    requires i < |path|
    ensures var code := Code(path, printable); var before := (|code| - |path|) / 2;
      && |code| == |path| + 2 * before
      && code[before + i] == (if printable(path[i]) then path[i] else '?')
      && forall k | 0 <= k < before || before + |path| <= k < |code| :: code[k] == '`' || code[k] == ' '
  {
  }

  /** A newline, which is not printable, never gets into the line a path is named on. */
  lemma CodeStaysOnItsLine(path: string, printable: char -> bool)
    requires !printable('\n')
    ensures OneLine(Code(path, printable))
  {
    var code := Code(path, printable);
    var before := (|code| - |path|) / 2;
    forall k | 0 <= k < |code| ensures code[k] != '\n' {
      if path != "" {
        CodeShows(path, printable, if before <= k < before + |path| then k - before else 0);
      }
    }
  }

  /** Text between two fences that it cannot end early. */
  predicate Sealed(inner: string, length: nat) {
    inner != "" && inner[0] != '`' && inner[|inner| - 1] != '`' && LongestRun(inner) < length
  }

  lemma {:induction false} SealedSpan(inner: string, length: nat, rest: string)
    requires length > 0 && Sealed(inner, length)
    ensures var fence := Repeat('`', length);
      CodeSpan(fence + (inner + (fence + rest))) == Some(|inner| + 2 * length)
  {
    var fence := Repeat('`', length);
    var tail := inner + (fence + rest);
    var s := fence + tail;
    TicksRun(length, tail);
    assert RunLength('`', s) == length;
    var close := FirstTicks(s, length, length);
    SealedClose(inner, length, rest);
    assert close == Some(length + |inner|);
  }

  lemma SealedClose(inner: string, length: nat, rest: string)
    requires length > 0 && Sealed(inner, length)
    ensures var fence := Repeat('`', length);
      FirstTicks(fence + (inner + (fence + rest)), length, length) == Some(length + |inner|)
  {
    var fence := Repeat('`', length);
    var tail := inner + (fence + rest);
    var s := fence + tail;
    assert TicksAt(fence + rest, 0, length);
    Edits.TicksAfter(inner, fence + rest, 0, length);
    Edits.TicksAfter(fence, tail, |inner|, length);
    Edits.FirstTicksFinds(s, length, length, length + |inner|);
    var j := FirstTicks(s, length, length).value;
    if j < length + |inner| {
      Edits.TicksAfter(fence, tail, j - length, length);
      assert tail[|inner| - 1] == inner[|inner| - 1];
      if j - length + length <= |inner| {
        Edits.TicksBefore(inner, fence + rest, j - length, length);
        LongestRunIsLongest(inner, j - length, length);
      }
    }
  }

  lemma {:induction false} NoRunNoTick(s: string)
    ensures LongestRun(s) == 0 <==> '`' !in s
  {
    if s != "" {
      NoRunNoTick(s[1..]);
    }
  }

  lemma PaddedRun(s: string)
    ensures LongestRun(" " + s + " ") == LongestRun(s)
  {
    var p := " " + s + " ";
    var j := LongestRunAttained(p);
    var k := LongestRunAttained(s);
    if LongestRun(s) > 0 {
      Edits.TicksAfter(" ", s, k, LongestRun(s));
      Edits.TicksBefore(" " + s, " ", k + 1, LongestRun(s));
      LongestRunIsLongest(p, k + 1, LongestRun(s));
    }
    if LongestRun(p) > 0 {
      assert p == " " + (s + " ");
      assert p[j] == '`' && p[j + LongestRun(p) - 1] == '`' && p[|p| - 1] == ' ';
      Edits.TicksAfter(" ", s + " ", j - 1, LongestRun(p));
      Edits.TicksBefore(s, " ", j - 1, LongestRun(p));
      LongestRunIsLongest(s, j - 1, LongestRun(p));
    }
  }

  /** What a path is shown as between its fences, padded when it has backticks. */
  function Inner(shown: string): string {
    var pad := if LongestRun(shown) > 0 then " " else "";
    pad + shown + pad
  }

  lemma InnerIsSealed(shown: string)
    requires shown != ""
    ensures Sealed(Inner(shown), LongestRun(shown) + 1)
  {
    PaddedRun(shown);
    if LongestRun(shown) == 0 {
      NoRunNoTick(shown);
      assert Inner(shown) == shown;
      assert shown[0] in shown && shown[|shown| - 1] in shown;
    }
  }

  lemma CodeIsInner(path: string, printable: char -> bool, fence: string)
    requires fence == Repeat('`', LongestRun(Shown(path, printable)) + 1)
    ensures Code(path, printable) == fence + Inner(Shown(path, printable)) + fence
  {
  }

  lemma Nested(fence: string, inner: string, rest: string, code: string)
    requires code == fence + inner + fence
    ensures code + rest == fence + (inner + (fence + rest))
  {
  }

  lemma ShownIsOneSpan(path: string, printable: char -> bool, rest: string)
    requires path != ""
    ensures CodeSpan(Code(path, printable) + rest) == Some(|Code(path, printable)|)
  {
    var shown := Shown(path, printable);
    var length := LongestRun(shown) + 1;
    var fence := Repeat('`', length);
    InnerIsSealed(shown);
    SealedSpan(Inner(shown), length, rest);
    CodeIsInner(path, printable, fence);
    Nested(fence, Inner(shown), rest, Code(path, printable));
  }

  /** With two or more opening backticks, two bare ones close again only where the rest has two in a row. */
  lemma {:induction false} TwoTicksAlone(s: string, rest: string, k: nat)
    requires s == "``" + rest && 1 <= k <= |s|
    ensures LongestRun(rest) < 2 ==> SpanWith(s, k) == Some(2)
    ensures LongestRun(rest) >= 2 && k >= 2 ==> SpanWith(s, k).Some? && SpanWith(s, k).value > 2
  {
    var close := FirstTicks(s, k, k);
    if k == 1 {
      assert TicksAt(s, 1, 1);
    } else {
      if close.Some? {
        Edits.TicksAfter("``", rest, close.value - 2, k);
        LongestRunIsLongest(rest, close.value - 2, k);
      } else if k == 2 {
        TwoTicksClose(s, rest);
      }
      TwoTicksAlone(s, rest, k - 1);
    }
  }

  lemma TwoTicksClose(s: string, rest: string)
    requires s == "``" + rest
    ensures LongestRun(rest) >= 2 ==> FirstTicks(s, 2, 2).Some?
  {
    if LongestRun(rest) >= 2 {
      var j := LongestRunAttained(rest);
      assert TicksAt(rest, j, 2);
      Edits.TicksAfter("``", rest, j, 2);
      Edits.FirstTicksFinds(s, 2, 2, 2 + j);
    }
  }

  lemma EmptyIsOneSpan(printable: char -> bool, rest: string)
    ensures CodeSpan(Code("", printable) + rest) == Some(|Code("", printable)|) <==> LongestRun(rest) < 2
  {
    var s := "``" + rest;
    assert Repeat('`', 1) == "`" && Code("", printable) == "``";
    assert s[1..][1..] == rest && RunLength('`', s) >= 2;
    TwoTicksAlone(s, rest, RunLength('`', s));
  }

  /**
   The code span a path is shown in is matched as one whole span, whatever text comes after it; that of an
   empty path, which is two bare backticks, exactly when no two backticks in a row come after it.
   */
  lemma CodeIsOneSpan(path: string, printable: char -> bool, rest: string)
    ensures CodeSpan(Code(path, printable) + rest) == Some(|Code(path, printable)|) <==>
      path != "" || LongestRun(rest) < 2
  {
    if path == "" {
      EmptyIsOneSpan(printable, rest);
    } else {
      ShownIsOneSpan(path, printable, rest);
    }
  }
}
