/** Splitting a body on "\n" and joining it back, as `str.split` and `str.join` do. */
module Lines {

  predicate OneLine(s: string) {
    '\n' !in s
  }

  predicate AllOneLine(lines: seq<string>) {
    forall i | 0 <= i < |lines| :: OneLine(lines[i])
  }

  function Split(s: string): (lines: seq<string>)
    ensures |lines| > 0
  {
    if s == "" then [""]
    else
      var rest := Split(s[1..]);
      if s[0] == '\n' then [""] + rest else [[s[0]] + rest[0]] + rest[1..]
  }

  /** Splitting loses nothing: the pieces hold no newline and join back to the text. */
  lemma {:induction false} JoinSplit(s: string)
    ensures AllOneLine(Split(s))
    ensures Join(Split(s)) == s
  {
    if s != "" {
      JoinSplit(s[1..]);
      var rest := Split(s[1..]);
      if s[0] == '\n' {
        assert ([""] + rest)[1..] == rest;
      } else {
        assert ([[s[0]] + rest[0]] + rest[1..])[1..] == rest[1..];
      }
    }
  }

  function Join(lines: seq<string>): string
    requires |lines| > 0
  {
    if |lines| == 1 then lines[0] else lines[0] + "\n" + Join(lines[1..])
  }

  /** The text of the lines `xs` that come before some line: each ends in its newline. */
  function LinesBefore(xs: seq<string>): string {
    if xs == [] then "" else xs[0] + "\n" + LinesBefore(xs[1..])
  }

  /** The text of the lines `ys` that come after some line: each starts with its newline. */
  function LinesAfter(ys: seq<string>): string {
    if ys == [] then "" else "\n" + ys[0] + LinesAfter(ys[1..])
  }

  lemma {:induction false} JoinAround(xs: seq<string>, line: string, ys: seq<string>)
    ensures Join(xs + [line] + ys) == LinesBefore(xs) + line + LinesAfter(ys)
    decreases |xs| + |ys|
  {
    var all := xs + [line] + ys;
    if xs != [] {
      assert all[1..] == xs[1..] + [line] + ys;
      JoinAround(xs[1..], line, ys);
    } else if ys != [] {
      assert all[1..] == [] + [ys[0]] + ys[1..];
      JoinAround([], ys[0], ys[1..]);
      assert line + "\n" + (ys[0] + LinesAfter(ys[1..])) == line + ("\n" + ys[0] + LinesAfter(ys[1..]));
    }
  }

  lemma {:induction false} SplitOneLine(line: string)
    requires OneLine(line)
    ensures Split(line) == [line]
  {
    if line != "" {
      SplitOneLine(line[1..]);
      assert [line[0]] + line[1..] == line;
    }
  }

  lemma {:induction false} SplitFirst(line: string, rest: string)
    requires OneLine(line)
    ensures Split(line + "\n" + rest) == [line] + Split(rest)
  {
    var s := line + "\n" + rest;
    if line == "" {
      assert s[1..] == rest;
    } else {
      assert s[1..] == line[1..] + "\n" + rest;
      SplitFirst(line[1..], rest);
      assert [s[0]] + line[1..] == line;
      assert ([line[1..]] + Split(rest))[1..] == Split(rest);
    }
  }

  lemma {:induction false} SplitAround(xs: seq<string>, line: string, ys: seq<string>)
    requires AllOneLine(xs) && OneLine(line) && AllOneLine(ys)
    ensures Split(LinesBefore(xs) + line + LinesAfter(ys)) == xs + [line] + ys
    decreases |xs| + |ys|
  {
    if xs != [] {
      var rest := LinesBefore(xs[1..]) + line + LinesAfter(ys);
      assert LinesBefore(xs) + line + LinesAfter(ys) == xs[0] + "\n" + rest;
      SplitFirst(xs[0], rest);
      SplitAround(xs[1..], line, ys);
    } else if ys != [] {
      var rest := ys[0] + LinesAfter(ys[1..]);
      assert LinesBefore([]) + line + LinesAfter(ys) == line + "\n" + rest;
      SplitFirst(line, rest);
      SplitAround([], ys[0], ys[1..]);
      assert LinesBefore([]) + ys[0] + LinesAfter(ys[1..]) == rest;
    } else {
      assert LinesBefore([]) + line + LinesAfter([]) == line;
      SplitOneLine(line);
    }
  }

  /** The line that the boundary between `a` and `b` falls in, and the lines around it. */
  lemma LineAt(a: string, b: string) returns (xs: seq<string>, la: string, lb: string, ys: seq<string>)
    ensures AllOneLine(xs) && OneLine(la) && OneLine(lb) && AllOneLine(ys)
    ensures a == LinesBefore(xs) + la && b == lb + LinesAfter(ys)
  {
    xs, la := LastLine(a);
    lb, ys := FirstLine(b);
  }

  lemma LastLine(a: string) returns (xs: seq<string>, la: string)
    ensures AllOneLine(xs) && OneLine(la) && a == LinesBefore(xs) + la
  {
    var lines := Split(a);
    JoinSplit(a);
    xs, la := lines[..|lines| - 1], lines[|lines| - 1];
    assert lines == xs + [la] + [];
    JoinAround(xs, la, []);
  }

  lemma FirstLine(b: string) returns (lb: string, ys: seq<string>)
    ensures OneLine(lb) && AllOneLine(ys) && b == lb + LinesAfter(ys)
  {
    var lines := Split(b);
    JoinSplit(b);
    lb, ys := lines[0], lines[1..];
    assert lines == [] + [lb] + ys;
    JoinAround([], lb, ys);
  }
}
