/**
 Which characters of a body the strip leaves, said by the characters alone: the lines that
 CommonMark 0.31 quotes or sets as code (sections 4.4, 4.5 and 5.1, as far as the patterns of
 triggers/mention.py follow them), and the code spans in what is left.
 */
module Prose {
  import opened Wrappers
  import opened Lines
  import opened Scanner
  import opened Spans
  import opened Mention

  // ----- The shapes of a line ------------------------------------------------------------------

  /** At most three spaces, then `k` characters `c`. */
  predicate MarkedWith(line: string, indent: nat, c: char, k: nat) {
    && indent <= 3 && indent + k <= |line|
    && (forall i | 0 <= i < indent :: line[i] == ' ')
    && (forall i | indent <= i < indent + k :: line[i] == c)
  }

  predicate Quoted(line: string) {
    exists indent: nat | indent <= 3 :: MarkedWith(line, indent, '>', 1)
  }

  predicate SetAsCode(line: string) {
    "    " <= line || "\t" <= line
  }

  /** The line opens a fence of exactly `k` characters `c`. */
  predicate OpensFence(line: string, c: char, k: nat) {
    && c in {'`', '~'} && k >= 3
    && exists indent: nat | indent <= 3 ::
         MarkedWith(line, indent, c, k) && (indent + k < |line| ==> line[indent + k] != c)
  }

  /** Whitespace by code point, as the Unicode database has it. */
  predicate White(c: char) {
    var p := c as int;
    || 0x09 <= p <= 0x0D || 0x1C <= p <= 0x20 || p == 0x85 || p == 0xA0 || p == 0x1680
    || 0x2000 <= p <= 0x200A || p == 0x2028 || p == 0x2029 || p == 0x202F || p == 0x205F || p == 0x3000
  }

  /** The line closes a fence of `k` characters `c`: as many or more, and nothing after them. */
  predicate ClosesFence(line: string, c: char, k: nat) {
    exists indent: nat, m: nat | indent <= 3 && k <= m <= |line| ::
      MarkedWith(line, indent, c, m) && forall i | indent + m <= i < |line| :: White(line[i])
  }

  // ----- The fenced blocks of a body -----------------------------------------------------------

  /** No line from `from` on, and before `to`, closes a fence of `k` characters `c`. */
  predicate NoneCloses(lines: seq<string>, from: nat, to: nat, c: char, k: nat) {
    to <= |lines| && forall i | from <= i < to :: !ClosesFence(lines[i], c, k)
  }

  /** The lines from `i` to `last` are one fenced block. */
  predicate Block(lines: seq<string>, i: nat, last: nat)
    requires i < last < |lines|
  {
    exists c, k: nat | c in {'`', '~'} && k <= |lines[i]| ::
      OpensFence(lines[i], c, k) && NoneCloses(lines, i + 1, last, c, k) && ClosesFence(lines[last], c, k)
  }

  predicate OpensSome(line: string) {
    exists c, k: nat | c in {'`', '~'} && k <= |line| :: OpensFence(line, c, k)
  }

  /** The lines before `n` are whole blocks and lines outside any block. */
  predicate Outside(lines: seq<string>, n: nat)
    requires n <= |lines|
  {
    || n == 0
    || (Outside(lines, n - 1) && !OpensSome(lines[n - 1]))
    || exists i: nat | i < n - 1 :: Outside(lines, i) && Block(lines, i, n - 1)
  }

  /** A fence of `k` characters `c` is opened before line `n`, outside any other, and not closed before it. */
  predicate Inside(lines: seq<string>, n: nat, c: char, k: nat)
    requires n <= |lines|
  {
    exists i: nat | i < n ::
      Outside(lines, i) && OpensFence(lines[i], c, k) && NoneCloses(lines, i + 1, n, c, k)
  }

  /** The line is prose: outside any fenced block, opening none, and neither quoted nor code. */
  predicate ProseLine(lines: seq<string>, n: nat)
    requires n < |lines|
  {
    Outside(lines, n) && !OpensSome(lines[n]) && !Quoted(lines[n]) && !SetAsCode(lines[n])
  }

  // ----- The scanner's patterns find these shapes ----------------------------------------------

  lemma RunIs(c: char, s: string, n: nat)
    requires n <= |s| && (forall i | 0 <= i < n :: s[i] == c) && (n < |s| ==> s[n] != c)
    ensures RunLength(c, s) == n
  {
  }

  lemma QuotedIsBlockquote(line: string)
    ensures Quoted(line) <==> IsBlockquote(line)
  {
    if Quoted(line) {
      var indent: nat :| indent <= 3 && MarkedWith(line, indent, '>', 1);
      RunIs(' ', line, indent);
    }
    if IsBlockquote(line) {
      assert MarkedWith(line, RunLength(' ', line), '>', 1);
    }
  }

  lemma CodeIsIndented(line: string)
    ensures SetAsCode(line) <==> IsIndentedCode(line)
  {
    if RunLength(' ', line) >= 4 {
      assert line[..4] == "    ";
    } else if RunLength(' ', line) < |line| {
      assert line[RunLength(' ', line)] != ' ';
    }
  }

  lemma SpaceIsWhite(c: char)
    ensures IsSpace(c) <==> White(c)
  {
  }

  lemma OpensIsMatch(line: string, c: char, k: nat)
    ensures OpensFence(line, c, k) <==>
            FenceMatch(line).Some? && FenceMatch(line).value.mark == c && FenceMatch(line).value.length == k
  {
    if OpensFence(line, c, k) {
      var indent: nat :| indent <= 3 && MarkedWith(line, indent, c, k)
        && (indent + k < |line| ==> line[indent + k] != c);
      RunIs(' ', line, indent);
      RunIs(c, line[indent..], k);
    }
    if FenceMatch(line).Some? && FenceMatch(line).value.mark == c && FenceMatch(line).value.length == k {
      var indent := RunLength(' ', line);
      var rest := line[indent..];
      assert forall i | indent <= i < indent + k :: line[i] == rest[i - indent];
      assert MarkedWith(line, indent, c, k);
    }
  }

  lemma OpensSomeIsMatch(line: string)
    ensures OpensSome(line) <==> FenceMatch(line).Some?
  {
    if FenceMatch(line).Some? {
      OpensIsMatch(line, FenceMatch(line).value.mark, FenceMatch(line).value.length);
    }
    if OpensSome(line) {
      var c, k: nat :| c in {'`', '~'} && k <= |line| && OpensFence(line, c, k);
      OpensIsMatch(line, c, k);
    }
  }

  lemma ClosesIsMatch(line: string, c: char, k: nat)
    requires c in {'`', '~'} && k >= 3
    ensures ClosesFence(line, c, k) <==> FenceMatch(line).Some? && Closes(Fence(c, k), FenceMatch(line).value)
  {
    if ClosesFence(line, c, k) {
      var indent: nat, m: nat :| indent <= 3 && k <= m <= |line|
        && MarkedWith(line, indent, c, m) && forall i | indent + m <= i < |line| :: White(line[i]);
      RunIs(' ', line, indent);
      RunIs(c, line[indent..], m);
      forall d | d in FenceMatch(line).value.info ensures IsSpace(d) {
        SpaceIsWhite(d);
      }
    }
    if FenceMatch(line).Some? && Closes(Fence(c, k), FenceMatch(line).value) {
      MatchCloses(line, c, k);
    }
  }

  lemma MatchCloses(line: string, c: char, k: nat)
    requires c in {'`', '~'} && k >= 3
    requires FenceMatch(line).Some? && Closes(Fence(c, k), FenceMatch(line).value)
    ensures ClosesFence(line, c, k)
  {
    var m := FenceMatch(line).value;
    var indent := RunLength(' ', line);
    var rest := line[indent..];
    assert forall i | indent <= i < indent + m.length :: line[i] == rest[i - indent];
    forall i | indent + m.length <= i < |line| ensures White(line[i]) {
      assert line[i] == m.info[i - indent - m.length];
      SpaceIsWhite(line[i]);
    }
    assert MarkedWith(line, indent, c, m.length);
  }

  // ----- The fence machine finds these blocks --------------------------------------------------

  /** The machine has read the lines before `n` as the blocks say. */
  ghost predicate Agrees(lines: seq<string>, n: nat)
    requires n <= |lines|
  {
    var open := FenceAfter(lines[..n], None);
    && (open.None? <==> Outside(lines, n))
    && forall c, k: nat :: Inside(lines, n, c, k) <==> open == Some(Fence(c, k))
  }

  /** A block that ends with line `n` is a fence still open before it. */
  lemma BlockWasOpen(lines: seq<string>, n: nat) returns (c: char, k: nat)
    requires n < |lines| && Outside(lines, n + 1) && !(Outside(lines, n) && !OpensSome(lines[n]))
    ensures Inside(lines, n, c, k) && ClosesFence(lines[n], c, k)
  {
    var i: nat :| i < n && Outside(lines, i) && Block(lines, i, n);
    c, k :| OpensFence(lines[i], c, k) && NoneCloses(lines, i + 1, n, c, k) && ClosesFence(lines[n], c, k);
  }

  /** A fence open after line `n` was open before it, unless line `n` opened it. */
  lemma OpenOneLess(lines: seq<string>, n: nat, c: char, k: nat)
    requires n < |lines| && Inside(lines, n + 1, c, k)
    ensures (Outside(lines, n) && OpensFence(lines[n], c, k))
            || (Inside(lines, n, c, k) && !ClosesFence(lines[n], c, k))
  {
    var i: nat :| i < n + 1 && Outside(lines, i) && OpensFence(lines[i], c, k) && NoneCloses(lines, i + 1, n + 1, c, k);
    if i < n {
      assert NoneCloses(lines, i + 1, n, c, k);
    }
  }

  lemma OpenOneMore(lines: seq<string>, n: nat, c: char, k: nat)
    requires n < |lines|
    requires (Outside(lines, n) && OpensFence(lines[n], c, k))
             || (Inside(lines, n, c, k) && !ClosesFence(lines[n], c, k))
    ensures Inside(lines, n + 1, c, k)
  {
    if Outside(lines, n) && OpensFence(lines[n], c, k) {
      assert NoneCloses(lines, n + 1, n + 1, c, k);
    } else {
      var i: nat :| i < n && Outside(lines, i) && OpensFence(lines[i], c, k) && NoneCloses(lines, i + 1, n, c, k);
      assert NoneCloses(lines, i + 1, n + 1, c, k);
    }
  }

  lemma ClosedIsOutside(lines: seq<string>, n: nat, c: char, k: nat)
    requires n < |lines| && Inside(lines, n, c, k) && ClosesFence(lines[n], c, k)
    ensures Outside(lines, n + 1)
  {
    var i: nat :| i < n && Outside(lines, i) && OpensFence(lines[i], c, k) && NoneCloses(lines, i + 1, n, c, k);
    assert c in {'`', '~'} && k <= |lines[i]|;
    assert Block(lines, i, n);
  }

  lemma FenceOneMore(lines: seq<string>, n: nat)
    requires n < |lines|
    ensures FenceAfter(lines[..n + 1], None) == NextFence(FenceAfter(lines[..n], None), lines[n])
  {
    assert lines[..n + 1] == lines[..n] + [lines[n]];
    BlankFencedSplit(lines[..n], [lines[n]], None);
  }

  lemma AgreesInside(lines: seq<string>, n: nat, c: char, k: nat)
    requires n < |lines| && Agrees(lines, n)
    ensures Inside(lines, n + 1, c, k) <==> FenceAfter(lines[..n + 1], None) == Some(Fence(c, k))
  {
    var open := FenceAfter(lines[..n], None);
    FenceOneMore(lines, n);
    OpensIsMatch(lines[n], c, k);
    if Inside(lines, n + 1, c, k) {
      OpenOneLess(lines, n, c, k);
      InsideMark(lines, n + 1, c, k);
      ClosesIsMatch(lines[n], c, k);
    }
    if FenceAfter(lines[..n + 1], None) == Some(Fence(c, k)) {
      if open.Some? {
        InsideMark(lines, n, c, k);
        ClosesIsMatch(lines[n], c, k);
      }
      OpenOneMore(lines, n, c, k);
    }
  }

  lemma InsideMark(lines: seq<string>, n: nat, c: char, k: nat)
    requires n <= |lines| && Inside(lines, n, c, k)
    ensures c in {'`', '~'} && k >= 3
  {
  }

  lemma AgreesOutside(lines: seq<string>, n: nat)
    requires n < |lines| && Agrees(lines, n)
    ensures Outside(lines, n + 1) <==> FenceAfter(lines[..n + 1], None).None?
  {
    FenceOneMore(lines, n);
    OpensSomeIsMatch(lines[n]);
    if Outside(lines, n + 1) && !(Outside(lines, n) && !OpensSome(lines[n])) {
      var c, k := BlockWasOpen(lines, n);
      InsideMark(lines, n, c, k);
      ClosesIsMatch(lines[n], c, k);
    }
    if FenceAfter(lines[..n + 1], None).None? && FenceAfter(lines[..n], None).Some? {
      var f := FenceAfter(lines[..n], None).value;
      assert Inside(lines, n, f.mark, f.length);
      InsideMark(lines, n, f.mark, f.length);
      ClosesIsMatch(lines[n], f.mark, f.length);
      ClosedIsOutside(lines, n, f.mark, f.length);
    }
  }

  /** The fence that the scanner remembers is the one open there, by the blocks before. */
  lemma {:induction false} FenceIsOpen(lines: seq<string>, n: nat)
    requires n <= |lines|
    ensures FenceAfter(lines[..n], None).None? <==> Outside(lines, n)
    ensures forall c, k: nat :: Inside(lines, n, c, k) <==> FenceAfter(lines[..n], None) == Some(Fence(c, k))
  {
    if n > 0 {
      FenceIsOpen(lines, n - 1);
      AgreesOutside(lines, n - 1);
      forall c, k: nat ensures Inside(lines, n, c, k) <==> FenceAfter(lines[..n], None) == Some(Fence(c, k)) {
        AgreesInside(lines, n - 1, c, k);
      }
    }
  }

  // ----- What is left of a body ----------------------------------------------------------------

  /** Where line `n` starts in the text of the lines. */
  function LineStart(lines: seq<string>, n: nat): nat
    requires n <= |lines|
  {
    |LinesBefore(lines[..n])|
  }

  lemma BlankFencedAt(lines: seq<string>, n: nat)
    requires n < |lines|
    ensures BlankFenced(lines, None)[n]
            == if FenceAfter(lines[..n], None).Some? || FenceMatch(lines[n]).Some? then Blank(lines[n]) else lines[n]
  {
    assert lines == lines[..n] + lines[n..] && lines[n..][0] == lines[n];
    BlankFencedSplit(lines[..n], lines[n..], None);
  }

  lemma KeptLineIs(lines: seq<string>, n: nat)
    requires n < |lines|
    ensures KeptLines(BlankFenced(lines, None))[n] == if ProseLine(lines, n) then lines[n] else Blank(lines[n])
  {
    BlankFencedAt(lines, n);
    FenceIsOpen(lines, n);
    OpensSomeIsMatch(lines[n]);
    QuotedIsBlockquote(lines[n]);
    CodeIsIndented(lines[n]);
    assert Blank(Blank(lines[n])) == Blank(lines[n]);
  }

  lemma SplitJoin(lines: seq<string>)
    requires lines != [] && AllOneLine(lines)
    ensures Split(Join(lines)) == lines
  {
    assert lines == [] + [lines[0]] + lines[1..];
    JoinAround([], lines[0], lines[1..]);
    SplitAround([], lines[0], lines[1..]);
  }

  /** The block rules keep the prose lines of a body, and leave the others as spaces. */
  lemma BlocksLeaveProse(body: string)
    ensures |Split(KeptText(body))| == |Split(body)|
    ensures forall n | 0 <= n < |Split(body)| ::
              Split(KeptText(body))[n] == if ProseLine(Split(body), n) then Split(body)[n] else Blank(Split(body)[n])
  {
    var lines := Split(body);
    var kept := KeptLines(BlankFenced(lines, None));
    JoinSplit(body);
    forall n | 0 <= n < |lines|
      ensures kept[n] == (if ProseLine(lines, n) then lines[n] else Blank(lines[n])) && OneLine(kept[n])
    {
      KeptLineIs(lines, n);
    }
    SplitJoin(kept);
  }

  lemma LineAround(s: string, n: nat)
    requires n < |Split(s)|
    ensures s == LinesBefore(Split(s)[..n]) + (Split(s)[n] + LinesAfter(Split(s)[n + 1..]))
  {
    var lines := Split(s);
    JoinSplit(s);
    assert lines == lines[..n] + [lines[n]] + lines[n + 1..];
    JoinAround(lines[..n], lines[n], lines[n + 1..]);
  }

  lemma CharOfLine(s: string, n: nat, d: nat)
    requires n < |Split(s)| && d < |Split(s)[n]|
    ensures LineStart(Split(s), n) + d < |s| && s[LineStart(Split(s), n) + d] == Split(s)[n][d]
  {
    LineAround(s, n);
  }

  lemma {:induction false} SameStart(a: seq<string>, b: seq<string>, n: nat)
    requires |a| == |b| && n <= |a| && forall i | 0 <= i < |a| :: |a[i]| == |b[i]|
    ensures LineStart(a, n) == LineStart(b, n)
  {
    if n > 0 {
      assert a[..n][1..] == a[1..][..n - 1] && b[..n][1..] == b[1..][..n - 1];
      SameStart(a[1..], b[1..], n - 1);
    }
  }

  lemma KeptCharOfLine(body: string, n: nat, d: nat, i: nat)
    requires n < |Split(body)| && d < |Split(body)[n]| && i == LineStart(Split(body), n) + d
    ensures i < |body| && body[i] == Split(body)[n][d]
    ensures i < |KeptText(body)| && KeptText(body)[i] == if ProseLine(Split(body), n) then body[i] else ' '
  {
    CharOfLine(body, n, d);
    BlocksLeaveProse(body);
    SameStart(Split(body), Split(KeptText(body)), n);
    CharOfLine(KeptText(body), n, d);
  }

  /**
   A character of a line is left exactly when the line is prose and the character is in no code
   span of the prose; it is a space otherwise.
   */
  lemma StripLeavesProse(body: string, n: nat, d: nat, i: nat)
    requires n < |Split(body)| && d < |Split(body)[n]| && i == LineStart(Split(body), n) + d
    ensures i < |body| == |StripNonProse(body)| && body[i] == Split(body)[n][d]
    ensures StripNonProse(body)[i] == if ProseLine(Split(body), n) && !InSpan(KeptText(body), i) then body[i] else ' '
  {
    StripKeepsOffsets(body);
    KeptCharOfLine(body, n, d, i);
    SpansAreBlanked(KeptText(body), i);
  }

  /** A character that is no newline is in some line. */
  lemma {:induction false} LineOf(lines: seq<string>, i: nat) returns (n: nat, d: nat)
    requires lines != [] && i < |Join(lines)| && Join(lines)[i] != '\n'
    ensures n < |lines| && d < |lines[n]| && LineStart(lines, n) + d == i
  {
    if i < |lines[0]| {
      n, d := 0, i;
    } else {
      n, d := LineOf(lines[1..], i - |lines[0]| - 1);
      assert lines[..n + 1][1..] == lines[1..][..n];
      n := n + 1;
    }
  }

  // ----- What a mention is ---------------------------------------------------------------------

  /** `c` is the letter `l`, in either case or as one of the four signs that read as one. */
  predicate IsLetter(c: char, l: char) {
    && 'a' <= l <= 'z'
    && (|| c == l || c as int == l as int - 32
        || (l == 'i' && c in {'\U{0130}', '\U{0131}'}) || (l == 's' && c == '\U{017F}')
        || (l == 'k' && c == '\U{212A}'))
  }

  ghost predicate IsSomeLetter(c: char) {
    exists l :: IsLetter(c, l)
  }

  ghost predicate ReadsAlike(c: char, d: char) {
    c == d || exists l :: IsLetter(c, l) && IsLetter(d, l)
  }

  /** A letter, a digit, or one of `signs`. */
  ghost predicate IsOneOf(c: char, signs: set<char>) {
    IsSomeLetter(c) || '0' <= c <= '9' || c in signs
  }

  lemma LetterIsFolded(c: char, l: char)
    ensures IsLetter(c, l) <==> 'a' <= l <= 'z' && FoldCase(c) == l
  {
  }

  lemma FoldsAlike(c: char, d: char)
    ensures FoldCase(c) == FoldCase(d) <==> ReadsAlike(c, d)
  {
    LetterIsFolded(c, FoldCase(c));
    LetterIsFolded(d, FoldCase(c));
    if ReadsAlike(c, d) && c != d {
      var l :| IsLetter(c, l) && IsLetter(d, l);
      LetterIsFolded(c, l);
      LetterIsFolded(d, l);
    }
  }

  lemma SomeLetterIsFolded(c: char)
    ensures IsAsciiAlnum(FoldCase(c)) <==> IsOneOf(c, {})
  {
    LetterIsFolded(c, FoldCase(c));
    if IsSomeLetter(c) {
      var l :| IsLetter(c, l);
      LetterIsFolded(c, l);
    }
  }

  /**
   A mention is an `@` and the handle, read without case, that continue no word, path or address
   before them, and that no longer name starts with.
   */
  lemma MentionByCharacters(s: string, i: nat, handle: string)
    ensures MentionAt(s, i, handle) <==>
      && i + 1 + |handle| <= |s| && s[i] == '@'
      && (forall k | 0 <= k < |handle| :: ReadsAlike(s[i + 1 + k], handle[k]))
      && (i > 0 ==> !IsOneOf(s[i - 1], {'_', '/', '.', '@', '-'}))
      && (i + 1 + |handle| < |s| ==> !IsOneOf(s[i + 1 + |handle|], {'_', '-'}))
  {
    if i + 1 + |handle| <= |s| {
      forall k | 0 <= k < |handle|
        ensures FoldCase(s[i..][1..][k]) == FoldCase(handle[k]) <==> ReadsAlike(s[i + 1 + k], handle[k])
      {
        FoldsAlike(s[i + 1 + k], handle[k]);
      }
      if i > 0 {
        SomeLetterIsFolded(s[i - 1]);
      }
      if i + 1 + |handle| < |s| {
        SomeLetterIsFolded(s[i + 1 + |handle|]);
      }
    }
  }

  // ----- Where a mention can be ----------------------------------------------------------------

  /** A mention that is found stands in a prose line, outside its code spans. */
  lemma MentionIsProse(body: string, i: nat, handle: string) returns (n: nat, d: nat)
    requires MentionAt(StripNonProse(body), i, handle)
    ensures n < |Split(body)| && d < |Split(body)[n]| && i == LineStart(Split(body), n) + d
    ensures ProseLine(Split(body), n) && Split(body)[n][d] == '@' && !InSpan(KeptText(body), i)
  {
    StripKeepsOffsets(body);
    JoinSplit(body);
    n, d := LineOf(Split(body), i);
    StripLeavesProse(body, n, d, i);
  }

  /** A body whose every line is quoted or code, in a fenced block or indented, has no mention. */
  lemma QuotedIsNoMention(body: string, handle: string)
    requires forall n | 0 <= n < |Split(body)| :: !ProseLine(Split(body), n)
    ensures !HasMention(body, handle)
  {
    if HasMention(body, handle) {
      var i :| 0 <= i < |StripNonProse(body)| && MentionAt(StripNonProse(body), i, handle);
      var n, d := MentionIsProse(body, i, handle);
    }
  }

  /** What follows a line does not matter to a name of one line. */
  lemma NameEndsWithLine(line: string, rest: string, s: string, handle: string)
    requires s == line + rest && OneLine(line) && OneLine(handle) && (rest != "" ==> rest[0] == '\n')
    ensures NamesHandle(s, handle) <==> NamesHandle(line, handle)
  {
    assert forall i | 0 <= i < |line| :: s[i] == line[i];
    if rest != "" {
      assert s[|line|] == '\n' && !BlocksAfter('\n');
      assert forall i | 0 <= i < |handle| :: FoldCase(handle[i]) != '\n';
    }
  }

  /** A mention in a text is a mention in its line. */
  lemma MentionInLine(before: string, line: string, rest: string, s: string, d: nat, handle: string)
    requires s == before + (line + rest) && OneLine(line) && OneLine(handle) && d < |line|
    requires (before != "" ==> before[|before| - 1] == '\n') && (rest != "" ==> rest[0] == '\n')
    ensures MentionAt(s, |before| + d, handle) <==> MentionAt(line, d, handle)
  {
    assert s[|before| + d..][1..] == line[d..][1..] + rest;
    NameEndsWithLine(line[d..][1..], rest, s[|before| + d..][1..], handle);
    if d == 0 && before != "" {
      assert !BlocksBefore('\n');
    }
  }

  lemma {:induction false} EndsInNewline(xs: seq<string>)
    ensures LinesBefore(xs) != "" ==> LinesBefore(xs)[|LinesBefore(xs)| - 1] == '\n'
  {
    if xs != [] {
      EndsInNewline(xs[1..]);
    }
  }

  /** The text before a line ends in a newline, and what follows it starts with one. */
  lemma AroundLine(s: string, n: nat) returns (before: string, rest: string)
    requires n < |Split(s)|
    ensures s == before + (Split(s)[n] + rest) && |before| == LineStart(Split(s), n) && OneLine(Split(s)[n])
    ensures (before != "" ==> before[|before| - 1] == '\n') && (rest != "" ==> rest[0] == '\n')
  {
    LineAround(s, n);
    JoinSplit(s);
    EndsInNewline(Split(s)[..n]);
    before, rest := LinesBefore(Split(s)[..n]), LinesAfter(Split(s)[n + 1..]);
  }

  lemma MentionOfLine(s: string, n: nat, line: string, d: nat, i: nat, handle: string)
    requires n < |Split(s)| && line == Split(s)[n] && d < |line| && i == LineStart(Split(s), n) + d && OneLine(handle)
    ensures MentionAt(s, i, handle) <==> MentionAt(line, d, handle)
  {
    var before, rest := AroundLine(s, n);
    assert i == |before| + d;
    MentionInLine(before, line, rest, s, d, handle);
  }

  /** The prose lines of a body without backticks are left as they are. */
  lemma PlainBody(body: string)
    requires '`' !in body
    ensures StripNonProse(body) == KeptText(body)
  {
    KeptTextBlanked(body);
    NoTicksNoSpans(KeptText(body));
  }

  lemma KeptLineOfBody(body: string, n: nat, d: nat, i: nat)
    requires n < |Split(body)| && d < |Split(body)[n]| && i == LineStart(Split(body), n) + d
    requires ProseLine(Split(body), n)
    ensures n < |Split(KeptText(body))| && Split(KeptText(body))[n] == Split(body)[n]
    ensures i == LineStart(Split(KeptText(body)), n) + d
  {
    BlocksLeaveProse(body);
    SameStart(Split(body), Split(KeptText(body)), n);
  }

  lemma MentionOfBody(body: string, n: nat, d: nat, i: nat, kept: string, handle: string)
    requires '`' !in body && OneLine(handle) && kept == StripNonProse(body)
    requires n < |Split(body)| && d < |Split(body)[n]| && i == LineStart(Split(body), n) + d
    requires ProseLine(Split(body), n)
    ensures MentionAt(kept, i, handle) <==> MentionAt(Split(body)[n], d, handle)
  {
    PlainBody(body);
    KeptLineOfBody(body, n, d, i);
    MentionOfLine(kept, n, Split(body)[n], d, i, handle);
  }

  /** A body without backticks has a mention exactly when one of its prose lines has one. */
  lemma MentionedInALine(body: string, handle: string)
    requires '`' !in body && OneLine(handle)
    ensures HasMention(body, handle) <==>
            exists n, d :: 0 <= n < |Split(body)| && ProseLine(Split(body), n)
              && 0 <= d < |Split(body)[n]| && MentionAt(Split(body)[n], d, handle)
  {
    if HasMention(body, handle) {
      var i :| 0 <= i < |StripNonProse(body)| && MentionAt(StripNonProse(body), i, handle);
      var n, d := MentionIsProse(body, i, handle);
      MentionOfBody(body, n, d, i, StripNonProse(body), handle);
    }
    forall n, d | 0 <= n < |Split(body)| && ProseLine(Split(body), n)
                  && 0 <= d < |Split(body)[n]| && MentionAt(Split(body)[n], d, handle)
      ensures HasMention(body, handle)
    {
      MentionOfBody(body, n, d, LineStart(Split(body), n) + d, StripNonProse(body), handle);
    }
  }
}
