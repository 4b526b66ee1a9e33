/** Making engine prose inert before it is posted: sanitise.py. */
module Sanitise {
  import opened Wrappers
  import opened Scanner
  import opened Edits
  import Mention

  /**
   `\d`: the ASCII digits, and whichever other decimal digits the Unicode version knows.
   Nothing below depends on which those are.
   */
  type DigitClass = digit: char -> bool | forall c: char | c < '\U{0080}' :: digit(c) <==> '0' <= c <= '9'
    witness c => '0' <= c <= '9'

  datatype Unsafe = At | Gh | Hash | Lt

  function Escape(u: Unsafe): string {
    match u
    case At => "&#64;"
    case Gh => "GH&#45;"
    case Hash => "&#35;"
    case Lt => "&lt;"
  }

  function MatchLength(u: Unsafe): nat {
    if u == Gh then 3 else 1
  }

  predicate NotAfter(s: string, i: nat, symbols: string)
    requires i <= |s|
  {
    i > 0 ==> !Mention.IsAsciiAlnum(s[i - 1]) && s[i - 1] !in symbols
  }

  /** `_UNSAFE_RE` at `i`. */
  function UnsafeAt(digit: DigitClass, s: string, i: nat): Option<Unsafe> {
    if i >= |s| then None
    else if s[i] == '@' then
      if NotAfter(s, i, "_/.@-") && i + 1 < |s| && Mention.IsAsciiAlnum(s[i + 1]) then Some(At) else None
    else if s[i] == 'G' then
      if i + 3 < |s| && s[i + 1] == 'H' && s[i + 2] == '-' && digit(s[i + 3]) && NotAfter(s, i, "_-") then Some(Gh)
      else None
    else if s[i] == '#' then
      if i + 1 < |s| && digit(s[i + 1]) then Some(Hash) else None
    else if s[i] == '<' then Some(Lt)
    else None
  }

  /** `finditer`: where the next match at or after `from` is. */
  function NextUnsafe(digit: DigitClass, s: string, from: nat): (r: Option<nat>)
    requires from <= |s|
    ensures r.Some? ==> from <= r.value < |s| && UnsafeAt(digit, s, r.value).Some?
    ensures forall i | from <= i < (if r.Some? then r.value else |s|) :: UnsafeAt(digit, s, i).None?
    decreases |s| - from
  {
    if from == |s| then None
    else if UnsafeAt(digit, s, from).Some? then Some(from)
    else NextUnsafe(digit, s, from + 1)
  }

  /** What the escapes change at one character. Of "GH-" it is the hyphen. */
  function EscapeAt(digit: DigitClass, t: string, i: nat): Option<string> {
    if UnsafeAt(digit, t, i).Some? && UnsafeAt(digit, t, i).value != Gh then Some(Escape(UnsafeAt(digit, t, i).value))
    else if i >= 2 && UnsafeAt(digit, t, i - 2) == Some(Gh) then Some("&#45;")
    else None
  }

  /** The characters of `text`, with an entity in place of each one that acts in the strip `t`. */
  function SafePieces(digit: DigitClass, t: string, text: string): (pieces: seq<string>)
    ensures |pieces| == |text|
  {
    seq(|text|, i requires 0 <= i < |text| =>
      if EscapeAt(digit, t, i).Some? then EscapeAt(digit, t, i).value else [text[i]])
  }

  function Sanitised(digit: DigitClass, text: string): string {
    Flatten(SafePieces(digit, StripNonProse(text), text))
  }

  // ----- The one pass over the matches ---------------------------------------------------------

  /** No "GH-" match is under way at `i`. */
  predicate Between(digit: DigitClass, t: string, i: nat) {
    && (i >= 1 ==> UnsafeAt(digit, t, i - 1) != Some(Gh))
    && (i >= 2 ==> UnsafeAt(digit, t, i - 2) != Some(Gh))
  }

  lemma UnmatchedPiece(digit: DigitClass, t: string, text: string, from: nat, i: nat)
    requires |t| == |text| && from <= i < |t| && Between(digit, t, from)
    requires forall k | from <= k <= i :: UnsafeAt(digit, t, k).None?
    ensures SafePieces(digit, t, text)[i] == [text[i]]
  {
    assert i >= 2 && i - 2 >= from ==> UnsafeAt(digit, t, i - 2).None?;
  }

  lemma PlainPieces(digit: DigitClass, t: string, text: string, from: nat, to: nat)
    requires |t| == |text| && from <= to <= |t| && Between(digit, t, from)
    requires forall i | from <= i < to :: UnsafeAt(digit, t, i).None?
    ensures Flatten(SafePieces(digit, t, text)[from..to]) == text[from..to]
  {
    var part, pieces := text[from..to], SafePieces(digit, t, text);
    var plain := seq(|part|, i requires 0 <= i < |part| => [part[i]]);
    forall i | 0 <= i < |part| ensures pieces[from..to][i] == plain[i] {
      UnmatchedPiece(digit, t, text, from, from + i);
    }
    assert pieces[from..to] == plain;
    FlattenChars(part);
  }

  lemma AfterMatch(digit: DigitClass, t: string, i: nat, u: Unsafe)
    requires UnsafeAt(digit, t, i) == Some(u)
    ensures i + MatchLength(u) <= |t| && Between(digit, t, i + MatchLength(u))
    ensures u == Gh ==> t[i] == 'G' && t[i + 1] == 'H' && t[i + 2] == '-'
    ensures u == At ==> t[i] == '@'
    ensures u == Hash ==> t[i] == '#'
    ensures u == Lt ==> t[i] == '<'
  {
  }

  /** The pieces of one match are its escape. */
  lemma MatchPieces(digit: DigitClass, t: string, text: string, i: nat, u: Unsafe)
    requires Blanked(t, text) && UnsafeAt(digit, t, i) == Some(u)
    requires i + MatchLength(u) <= |t|
    ensures Flatten(SafePieces(digit, t, text)[i..i + MatchLength(u)]) == Escape(u)
  {
    AfterMatch(digit, t, i, u);
    var part := SafePieces(digit, t, text)[i..i + MatchLength(u)];
    if u == Gh {
      NoMatchInside(digit, t, i);
      assert text[i] == 'G' && text[i + 1] == 'H';
      assert part[0] == "G";
      assert part[1] == "H";
      assert part[2] == "&#45;";
      assert part == ["G", "H", "&#45;"];
      FlattenThree("G", "H", "&#45;");
    } else {
      assert part == [Escape(u)];
      FlattenOne(Escape(u));
    }
  }

  lemma NoMatchInside(digit: DigitClass, t: string, i: nat)
    requires UnsafeAt(digit, t, i) == Some(Gh)
    ensures i + 3 <= |t| && EscapeAt(digit, t, i) == None && EscapeAt(digit, t, i + 1) == None
    ensures EscapeAt(digit, t, i + 2) == Some("&#45;")
  {
    AfterMatch(digit, t, i, Gh);
  }

  lemma FlattenThree(a: string, b: string, c: string)
    ensures Flatten([a, b, c]) == a + b + c
  {
    FlattenSplit([a, b], [c]);
    FlattenSplit([a], [b]);
    FlattenOne(a);
    FlattenOne(b);
    FlattenOne(c);
    assert [a, b] + [c] == [a, b, c] && [a] + [b] == [a, b];
  }

  lemma Cut(pieces: seq<string>, n: nat)
    requires n <= |pieces|
    ensures pieces == pieces[..n] + pieces[n..|pieces|]
  {
  }

  lemma CutPrefix(pieces: seq<string>, n: nat, m: nat)
    requires n <= m <= |pieces|
    ensures pieces[..m] == pieces[..n] + pieces[n..m]
  {
  }

  lemma PrefixGrows(pieces: seq<string>, a: nat, b: nat, c: nat)
    requires a <= b <= c <= |pieces|
    ensures Flatten(pieces[..c]) == Flatten(pieces[..a]) + Flatten(pieces[a..b]) + Flatten(pieces[b..c])
  {
    CutPrefix(pieces, b, c);
    CutPrefix(pieces, a, b);
    FlattenSplit(pieces[..b], pieces[b..c]);
    FlattenSplit(pieces[..a], pieces[a..b]);
  }

  /** One match: the text before it and its escape are the next pieces. */
  lemma WroteMatch(digit: DigitClass, t: string, text: string, pieces: seq<string>, last: nat, next: nat, u: Unsafe,
                   end: nat)
    requires Blanked(t, text) && pieces == SafePieces(digit, t, text) && last <= |t| && Between(digit, t, last)
    requires NextUnsafe(digit, t, last) == Some(next) && UnsafeAt(digit, t, next) == Some(u)
    requires end == next + MatchLength(u) && end <= |t|
    ensures Flatten(pieces[..end]) == Flatten(pieces[..last]) + text[last..next] + Escape(u)
  {
    PlainPieces(digit, t, text, last, next);
    MatchPieces(digit, t, text, next, u);
    WroteText(pieces, last, next, end, text[last..next], Escape(u));
  }

  lemma WroteText(pieces: seq<string>, last: nat, next: nat, end: nat, plain: string, escape: string)
    requires last <= next <= end <= |pieces|
    requires Flatten(pieces[last..next]) == plain && Flatten(pieces[next..end]) == escape
    ensures Flatten(pieces[..end]) == Flatten(pieces[..last]) + plain + escape
  {
    PrefixGrows(pieces, last, next, end);
  }

  /** After the last match the text is left alone. */
  lemma WroteRest(digit: DigitClass, t: string, text: string, pieces: seq<string>, last: nat)
    requires Blanked(t, text) && pieces == SafePieces(digit, t, text) && last <= |t| && Between(digit, t, last)
    requires NextUnsafe(digit, t, last).None?
    ensures Flatten(pieces) == Flatten(pieces[..last]) + text[last..]
  {
    PlainPieces(digit, t, text, last, |text|);
    FlattenRest(pieces, last);
    assert text[last..|text|] == text[last..];
  }

  lemma FlattenRest(pieces: seq<string>, last: nat)
    requires last <= |pieces|
    ensures Flatten(pieces) == Flatten(pieces[..last]) + Flatten(pieces[last..|pieces|])
  {
    Cut(pieces, last);
    FlattenSplit(pieces[..last], pieces[last..|pieces|]);
  }

  /** `sanitise`: the text between the matches, with an escape for each match. */
  method SanitiseText(digit: DigitClass, text: string) returns (r: string)
    ensures r == Sanitised(digit, text)
  {
    var stripped := StripNonProse(text);
    StripKeepsOffsets(text);
    ghost var pieces := SafePieces(digit, stripped, text);
    r := "";
    var last := 0;
    var next := NextUnsafe(digit, stripped, last);
    while next.Some?
      invariant last <= |stripped| == |text| && next == NextUnsafe(digit, stripped, last)
      invariant Between(digit, stripped, last) && r == Flatten(pieces[..last])
      decreases |text| - last
    {
      var u := UnsafeAt(digit, stripped, next.value).value;
      var end := next.value + MatchLength(u);
      AfterMatch(digit, stripped, next.value, u);
      WroteMatch(digit, stripped, text, pieces, last, next.value, u, end);
      r, last := r + text[last..next.value] + Escape(u), end;
      next := NextUnsafe(digit, stripped, last);
    }
    WroteRest(digit, stripped, text, pieces, last);
    r := r + text[last..];
  }

  // ----- What is left to act -------------------------------------------------------------------

  lemma EscapeShape(digit: DigitClass, t: string, i: nat)
    requires i < |t| && EscapeAt(digit, t, i).Some?
    ensures t[i] in "@#<-" && (t[i] == '-' ==> i >= 2 && UnsafeAt(digit, t, i - 2) == Some(Gh))
    ensures t[i] == '@' ==> UnsafeAt(digit, t, i) == Some(At)
    ensures EscapeAt(digit, t, i).value in ["&#64;", "&#35;", "&#45;", "&lt;"]
  {
  }

  predicate IsEntity(e: string) {
    |e| >= 4 && e[0] == '&' && e[|e| - 1] == ';' && Inert(e)
    && forall d | 0 <= d < |e| :: e[d] !in "@G<" && (e[d] == '#' ==> d == 1)
  }

  lemma EscapesAreEntities(e: string)
    requires e in ["&#64;", "&#35;", "&#45;", "&lt;"]
    ensures IsEntity(e)
  {
  }

  /** The characters of the strip `t`, with an entity in place of each one that acts. */
  predicate MarkedStrip(digit: DigitClass, marked: seq<string>, t: string) {
    && |marked| == |t|
    && forall i | 0 <= i < |t| :: if EscapeAt(digit, t, i).Some? then IsEntity(marked[i]) else marked[i] == [t[i]]
  }

  lemma NextPiece(marked: seq<string>, i: nat, s: string)
    requires i <= |marked| && s == Flatten(marked[i..]) && s != ""
    requires forall k | 0 <= k < |marked| :: marked[k] != ""
    ensures i < |marked| && s[0] == marked[i][0]
    ensures |marked[i]| <= |s| && s[|marked[i]|..] == Flatten(marked[i + 1..])
  {
    if i < |marked| {
      FlattenFrom(marked, i);
    }
  }

  lemma EscapedBefore(digit: DigitClass, t: string, i: nat)
    requires i + 1 < |t| && EscapeAt(digit, t, i).Some? && t[i + 1] in "@G"
    ensures t[i] in "@#<" && (t[i] == '@' ==> t[i + 1] == 'G')
  {
    EscapeShape(digit, t, i);
    assert t[i + 1] == '@' || t[i + 1] == 'G';
  }

  /** The character before a plain piece blocks a match exactly when it did in the strip. */
  lemma SameBefore(digit: DigitClass, marked: seq<string>, t: string, i: nat, before: Option<char>)
    requires MarkedStrip(digit, marked, t) && i < |t| && t[i] in "@G"
    requires marked[if i > 0 then i - 1 else i] != ""
    requires before == if i > 0 then Some(marked[i - 1][|marked[i - 1]| - 1]) else None
    ensures i > 0 ==> before == Some(t[i - 1]) || (t[i - 1] in "@#<" && (t[i - 1] == '@' ==> t[i] == 'G'))
  {
    if i > 0 && EscapeAt(digit, t, i - 1).Some? {
      EscapedBefore(digit, t, i - 1);
    }
  }

  /** What follows a plain piece, as far as a match looks. */
  lemma PlainNext(digit: DigitClass, marked: seq<string>, t: string, i: nat, rest: string)
    requires MarkedStrip(digit, marked, t) && i < |t| && rest == Flatten(marked[i + 1..])
    requires forall k | 0 <= k < |marked| :: marked[k] != ""
    requires rest != "" && rest[0] != '&'
    ensures i + 1 < |t| && t[i + 1] == rest[0] && marked[i + 1] == [t[i + 1]]
    ensures rest[1..] == Flatten(marked[i + 2..])
  {
    NextPiece(marked, i + 1, rest);
  }

  lemma PlainGh(digit: DigitClass, marked: seq<string>, t: string, i: nat, rest: string)
    requires MarkedStrip(digit, marked, t) && i < |t| && rest == Flatten(marked[i + 1..])
    requires forall k | 0 <= k < |marked| :: marked[k] != ""
    requires |rest| > 2 && rest[0] == 'H' && rest[1] == '-' && digit(rest[2])
    ensures i + 3 < |t| && t[i + 1] == 'H' && t[i + 2] == '-' && digit(t[i + 3])
    ensures EscapeAt(digit, t, i + 2).None?
  {
    PlainNext(digit, marked, t, i, rest);
    assert rest[1..][0] == rest[1] && rest[1..][1..][0] == rest[2];
    PlainNext(digit, marked, t, i + 1, rest[1..]);
    PlainNext(digit, marked, t, i + 2, rest[1..][1..]);
  }

  /** Where a plain piece ended up, and what came before it. */
  predicate PlainPiece(digit: DigitClass, marked: seq<string>, t: string, i: nat, out: string, j: nat) {
    && MarkedStrip(digit, marked, t) && i < |t| && j < |out| && EscapeAt(digit, t, i).None?
    && (forall k | 0 <= k < |marked| :: marked[k] != "")
    && out[j..] == [t[i]] + Flatten(marked[i + 1..])
    && CharBefore(out, j) == if i > 0 then Some(marked[i - 1][|marked[i - 1]| - 1]) else None
  }

  lemma PlainPieceChars(digit: DigitClass, marked: seq<string>, t: string, i: nat, out: string, j: nat)
    requires PlainPiece(digit, marked, t, i, out, j)
    ensures out[j] == t[i] && out[j + 1..] == Flatten(marked[i + 1..])
    ensures t[i] in "@G" && i > 0 ==>
      out[j - 1] == t[i - 1] || (t[i - 1] in "@#<" && (t[i - 1] == '@' ==> t[i] == 'G'))
  {
    assert out[j] == out[j..][0];
    assert out[j + 1..] == out[j..][1..];
    if t[i] in "@G" {
      SameBefore(digit, marked, t, i, CharBefore(out, j));
    }
  }

  lemma PlainIsNotGh(digit: DigitClass, marked: seq<string>, t: string, i: nat, out: string, j: nat)
    requires PlainPiece(digit, marked, t, i, out, j)
    ensures UnsafeAt(digit, out, j) != Some(Gh)
  {
    if UnsafeAt(digit, out, j) == Some(Gh) {
      PlainPieceChars(digit, marked, t, i, out, j);
      PlainGh(digit, marked, t, i, out[j + 1..]);
    }
  }

  /** A plain piece does not act: the escapes would have taken it. */
  lemma PlainPieceIsSafe(digit: DigitClass, marked: seq<string>, t: string, i: nat, out: string, j: nat)
    requires PlainPiece(digit, marked, t, i, out, j)
    ensures UnsafeAt(digit, out, j).None?
  {
    PlainIsNotGh(digit, marked, t, i, out, j);
    PlainPieceChars(digit, marked, t, i, out, j);
    if UnsafeAt(digit, out, j).Some? && t[i] != '<' {
      PlainNext(digit, marked, t, i, out[j + 1..]);
    }
  }

  /**
   Rescanning the sanitised text finds nothing that acts: no mention, no "GH-" reference, no "<",
   and no "#" before a digit but the one inside each escape.
   */
  lemma SanitisedIsInert(digit: DigitClass, text: string)
    ensures var out, t := StripNonProse(Sanitised(digit, text)), StripNonProse(text);
      forall j: nat | UnsafeAt(digit, out, j).Some? ::
        && UnsafeAt(digit, out, j) == Some(Hash) && 0 < j < |out| && out[j - 1] == '&'
        && exists i :: 0 <= i < |text| == |t| && EscapeAt(digit, t, i).Some?
                       && j == |Flatten(SafePieces(digit, t, text)[..i])| + 1
  {
    var t := StripNonProse(text);
    StripKeepsOffsets(text);
    var pieces := SafePieces(digit, t, text);
    SafePiecesAreProseEdits(digit, text);
    StripEdits(pieces, text);
    var marked := StrippedPieces(pieces, text);
    MarkedPieces(digit, text);
    var out := Flatten(marked);
    forall j: nat | UnsafeAt(digit, out, j).Some?
      ensures UnsafeAt(digit, out, j) == Some(Hash) && 0 < j < |out| && out[j - 1] == '&'
      ensures exists i :: 0 <= i < |text| && EscapeAt(digit, t, i).Some? && j == |Flatten(pieces[..i])| + 1
    {
      var i := UnsafeIsInEscape(digit, marked, t, out, j);
      SameLengths(pieces[..i], marked[..i]);
    }
  }

  /** What is found in the rescan is the "#" of an escape. */
  lemma UnsafeIsInEscape(digit: DigitClass, marked: seq<string>, t: string, out: string, j: nat) returns (i: nat)
    requires MarkedStrip(digit, marked, t) && out == Flatten(marked) && UnsafeAt(digit, out, j).Some?
    requires forall k | 0 <= k < |marked| :: marked[k] != ""
    ensures i < |t| && EscapeAt(digit, t, i).Some? && j == |Flatten(marked[..i])| + 1
    ensures UnsafeAt(digit, out, j) == Some(Hash) && 0 < j < |out| && out[j - 1] == '&'
  {
    var d;
    i, d := PieceAt(marked, j);
    assert out[j] == out[j..][0] == marked[i][d];
    if EscapeAt(digit, t, i).None? {
      PlainPieceIsSafe(digit, marked, t, i, out, j);
    }
  }

  lemma {:induction false} SameLengths(a: seq<string>, b: seq<string>)
    requires |a| == |b| && forall i | 0 <= i < |a| :: |a[i]| == |b[i]|
    ensures |Flatten(a)| == |Flatten(b)|
  {
    if a != [] {
      SameLengths(a[1..], b[1..]);
    }
  }

  lemma SafePiecesAreProseEdits(digit: DigitClass, text: string)
    ensures ProseEdits(SafePieces(digit, StripNonProse(text), text), text)
  {
    var t := StripNonProse(text);
    StripKeepsOffsets(text);
    var pieces := SafePieces(digit, t, text);
    forall i | 0 <= i < |text| ensures pieces[i] == [text[i]] || (InertChar(t[i]) && Inert(pieces[i])) {
      SafePieceIsInert(digit, t, i);
    }
  }

  lemma SafePieceIsInert(digit: DigitClass, t: string, i: nat)
    requires i < |t|
    ensures EscapeAt(digit, t, i).Some? ==> InertChar(t[i]) && Inert(EscapeAt(digit, t, i).value)
  {
    if EscapeAt(digit, t, i).Some? {
      EscapeShape(digit, t, i);
      EscapesAreEntities(EscapeAt(digit, t, i).value);
    }
  }

  lemma MarkedPieces(digit: DigitClass, text: string)
    requires ProseEdits(SafePieces(digit, StripNonProse(text), text), text)
    ensures var t := StripNonProse(text);
      var pieces := SafePieces(digit, t, text);
      var marked := StrippedPieces(pieces, text);
      && MarkedStrip(digit, marked, t)
      && forall i | 0 <= i < |t| :: marked[i] != "" && |marked[i]| == |pieces[i]|
  {
    var t := StripNonProse(text);
    var pieces := SafePieces(digit, t, text);
    var marked := StrippedPieces(pieces, text);
    forall i | 0 <= i < |t|
      ensures if EscapeAt(digit, t, i).Some? then IsEntity(marked[i]) else marked[i] == [t[i]]
      ensures |marked[i]| == |pieces[i]|
    {
      if EscapeAt(digit, t, i).Some? {
        EscapeShape(digit, t, i);
        EscapesAreEntities(pieces[i]);
      }
    }
  }

  // ----- Reading the escapes back --------------------------------------------------------------

  function EntityOf(c: char): string {
    match c
    case '@' => "&#64;"
    case '#' => "&#35;"
    case '-' => "&#45;"
    case _ => "&lt;"
  }

  /** The character whose entity `t` starts with. */
  function EntityAt(t: string): (c: Option<char>)
    ensures c.Some? ==> |EntityOf(c.value)| <= |t|
  {
    if LtStands(t, 0) then Some('<')
    else if |t| < 5 || t[0] != '&' || t[1] != '#' || t[4] != ';' then None
    else if t[2] == '6' && t[3] == '4' then Some('@')
    else if t[2] == '3' && t[3] == '5' then Some('#')
    else if t[2] == '4' && t[3] == '5' then Some('-')
    else None
  }

  /** "&lt;" stands in `t` at `i`. */
  predicate LtStands(t: string, i: nat) {
    i + 4 <= |t| && t[i] == '&' && t[i + 1] == 'l' && t[i + 2] == 't' && t[i + 3] == ';'
  }

  /** `out`, with its character put back for each entity that stands in the strip `t`. */
  function PutBack(out: string, t: string): string
    requires |out| == |t|
    decreases |t|
  {
    if t == "" then ""
    else
      match EntityAt(t)
      case Some(c) => [c] + PutBack(out[|EntityOf(c)|..], t[|EntityOf(c)|..])
      case None => [out[0]] + PutBack(out[1..], t[1..])
  }

  /** What a reader sees: of the text alone, every entity in its prose is read as its character. */
  function ReadBack(out: string): string {
    StripKeepsOffsets(out);
    PutBack(out, StripNonProse(out))
  }

  /** `text`, with "<" for each "&lt;" that was in its prose to begin with. */
  function WithLt(text: string, t: string): (r: string)
    requires |text| == |t|
    ensures |r| <= |text|
    decreases |t|
  {
    if t == "" then ""
    else if LtStands(t, 0) then "<" + WithLt(text[4..], t[4..])
    else [text[0]] + WithLt(text[1..], t[1..])
  }

  /** An escape reads as the character it replaced, whatever follows it. */
  lemma EscapeReads(digit: DigitClass, t: string, i: nat, rest: string)
    requires i < |t| && EscapeAt(digit, t, i).Some?
    ensures EscapeAt(digit, t, i).value == EntityOf(t[i]) && EntityAt(EntityOf(t[i]) + rest) == Some(t[i])
  {
    EscapeShape(digit, t, i);
    var e, s := EntityOf(t[i]), EntityOf(t[i]) + rest;
    assert s[0] == e[0] && s[1] == e[1] && s[2] == e[2] && s[3] == e[3];
    assert t[i] != '<' ==> s[4] == e[4];
  }

  lemma LtIsPlain(digit: DigitClass, t: string, i: nat)
    requires LtStands(t, i)
    ensures forall k | i <= k < i + 4 :: EscapeAt(digit, t, k).None?
  {
    forall k | i <= k < i + 4 ensures EscapeAt(digit, t, k).None? {
      if EscapeAt(digit, t, k).Some? {
        EscapeShape(digit, t, k);
      }
    }
  }

  /** A plain "#" before a plain digit does not stand in the marked strip: it would have been escaped. */
  lemma NoPlainHash(digit: DigitClass, marked: seq<string>, t: string, i: nat, rest: string)
    requires MarkedStrip(digit, marked, t) && i < |t| && rest == Flatten(marked[i + 1..])
    requires forall k | 0 <= k < |marked| :: marked[k] != ""
    ensures |rest| >= 2 && rest[0] == '#' ==> !('0' <= rest[1] <= '9')
  {
    if |rest| >= 2 && rest[0] == '#' && '0' <= rest[1] <= '9' {
      PlainNext(digit, marked, t, i, rest);
      PlainNext(digit, marked, t, i + 1, rest[1..]);
      assert false;
    }
  }

  /** Where a plain piece starts an entity, it is a "&lt;" of the text. */
  lemma PlainReadsLt(digit: DigitClass, marked: seq<string>, t: string, i: nat, rest: string)
    requires MarkedStrip(digit, marked, t) && i < |t| && EscapeAt(digit, t, i).None?
    requires forall k | 0 <= k < |marked| :: marked[k] != ""
    requires rest == Flatten(marked[i + 1..]) && EntityAt([t[i]] + rest).Some?
    ensures LtStands(t, i)
  {
    var s := [t[i]] + rest;
    assert s[1] == rest[0] && s[2] == rest[1] && s[3] == rest[2];
    NoPlainHash(digit, marked, t, i, rest);
    PlainLt(digit, marked, t, i, rest);
  }

  lemma PlainLt(digit: DigitClass, marked: seq<string>, t: string, i: nat, rest: string)
    requires MarkedStrip(digit, marked, t) && i < |t| && rest == Flatten(marked[i + 1..])
    requires forall k | 0 <= k < |marked| :: marked[k] != ""
    requires |rest| >= 3 && rest[0] == 'l' && rest[1] == 't' && rest[2] == ';'
    ensures i + 4 <= |t| && t[i + 1] == 'l' && t[i + 2] == 't' && t[i + 3] == ';'
  {
    PlainNext(digit, marked, t, i, rest);
    assert rest[1..][0] == 't' && rest[1..][1..][0] == ';';
    PlainNext(digit, marked, t, i + 1, rest[1..]);
    PlainNext(digit, marked, t, i + 2, rest[1..][1..]);
  }

  lemma LtPieces(digit: DigitClass, marked: seq<string>, t: string, i: nat)
    requires MarkedStrip(digit, marked, t) && LtStands(t, i)
    ensures Flatten(marked[i..]) == "&lt;" + Flatten(marked[i + 4..])
  {
    LtIsPlain(digit, t, i);
    FourPlain(marked, t, i);
    assert t[i..i + 4] == "&lt;";
  }

  lemma FourPlain(pieces: seq<string>, t: string, i: nat)
    requires |pieces| == |t| && i + 4 <= |t| && forall k | i <= k < i + 4 :: pieces[k] == [t[k]]
    ensures Flatten(pieces[i..]) == t[i..i + 4] + Flatten(pieces[i + 4..])
  {
    FlattenFrom(pieces, i);
    FlattenFrom(pieces, i + 1);
    FlattenFrom(pieces, i + 2);
    FlattenFrom(pieces, i + 3);
  }

  /** The pieces that were written and what the rescan sees of them. */
  predicate Written(digit: DigitClass, pieces: seq<string>, marked: seq<string>, text: string, t: string) {
    && Blanked(t, text) && pieces == SafePieces(digit, t, text) && MarkedStrip(digit, marked, t)
    && forall i | 0 <= i < |t| :: marked[i] != "" && |marked[i]| == |pieces[i]|
                                  && (EscapeAt(digit, t, i).Some? ==> marked[i] == pieces[i])
  }

  lemma PutBackEntity(c: char, e: string, a: string, b: string)
    requires |e| == |EntityOf(c)| && |a| == |b| && EntityAt(EntityOf(c) + b) == Some(c)
    ensures PutBack(e + a, EntityOf(c) + b) == [c] + PutBack(a, b)
  {
    assert (e + a)[|e|..] == a && (EntityOf(c) + b)[|e|..] == b;
  }

  lemma PutBackPlain(c: char, d: char, a: string, b: string)
    requires |a| == |b| && EntityAt([d] + b).None?
    ensures PutBack([c] + a, [d] + b) == [c] + PutBack(a, b)
  {
    assert ([c] + a)[1..] == a && ([d] + b)[1..] == b;
  }

  lemma WithLtStep(text: string, t: string, i: nat)
    requires |text| == |t| && i < |t|
    ensures !LtStands(t, i) ==> WithLt(text[i..], t[i..]) == [text[i]] + WithLt(text[i + 1..], t[i + 1..])
    ensures LtStands(t, i) ==> WithLt(text[i..], t[i..]) == "<" + WithLt(text[i + 4..], t[i + 4..])
  {
    assert LtStands(t[i..], 0) <==> LtStands(t, i);
    if LtStands(t, i) {
      assert text[i..][4..] == text[i + 4..] && t[i..][4..] == t[i + 4..];
    } else {
      assert text[i..][1..] == text[i + 1..] && t[i..][1..] == t[i + 1..];
    }
  }

  lemma {:induction false} PutBackFrom(digit: DigitClass, pieces: seq<string>, marked: seq<string>, text: string,
                                       t: string, i: nat)
    requires Written(digit, pieces, marked, text, t) && i <= |t|
    ensures |Flatten(pieces[i..])| == |Flatten(marked[i..])|
    ensures PutBack(Flatten(pieces[i..]), Flatten(marked[i..])) == WithLt(text[i..], t[i..])
    decreases |t| - i
  {
    if i < |t| {
      FlattenFrom(pieces, i);
      FlattenFrom(marked, i);
      WithLtStep(text, t, i);
      PutBackFrom(digit, pieces, marked, text, t, i + 1);
      var a, b := Flatten(pieces[i + 1..]), Flatten(marked[i + 1..]);
      if EscapeAt(digit, t, i).Some? {
        EscapeReads(digit, t, i, b);
        EscapeShape(digit, t, i);
        PutBackEntity(t[i], pieces[i], a, b);
      } else if LtStands(t, i) {
        PutBackFrom(digit, pieces, marked, text, t, i + 4);
        LtWritten(digit, pieces, marked, text, t, i);
      } else {
        if EntityAt([t[i]] + b).Some? {
          PlainReadsLt(digit, marked, t, i, b);
        }
        PutBackPlain(text[i], t[i], a, b);
      }
    }
  }

  lemma LtWritten(digit: DigitClass, pieces: seq<string>, marked: seq<string>, text: string, t: string, i: nat)
    requires Written(digit, pieces, marked, text, t) && LtStands(t, i)
    requires |Flatten(pieces[i + 4..])| == |Flatten(marked[i + 4..])|
    ensures |Flatten(pieces[i..])| == |Flatten(marked[i..])|
    ensures PutBack(Flatten(pieces[i..]), Flatten(marked[i..]))
            == "<" + PutBack(Flatten(pieces[i + 4..]), Flatten(marked[i + 4..]))
  {
    LtPieces(digit, marked, t, i);
    LtIsPlain(digit, t, i);
    FourPlain(pieces, text, i);
    LtReads(Flatten(marked[i + 4..]));
    PutBackEntity('<', text[i..i + 4], Flatten(pieces[i + 4..]), Flatten(marked[i + 4..]));
  }

  lemma LtReads(rest: string)
    ensures EntityAt("&lt;" + rest) == Some('<')
  {
    var s := "&lt;" + rest;
    assert s[0] == '&' && s[1] == 'l' && s[2] == 't' && s[3] == ';';
  }

  lemma SafePiecesAreWritten(digit: DigitClass, text: string)
    ensures ProseEdits(SafePieces(digit, StripNonProse(text), text), text)
    ensures var t := StripNonProse(text);
      var pieces := SafePieces(digit, t, text);
      Written(digit, pieces, StrippedPieces(pieces, text), text, t)
  {
    StripKeepsOffsets(text);
    SafePiecesAreProseEdits(digit, text);
    MarkedPieces(digit, text);
  }

  /** What is read back is the text itself, but that a "&lt;" its prose held is read as "<" too. */
  lemma ReadBackIsWithLt(digit: DigitClass, text: string)
    ensures |StripNonProse(text)| == |text|
    ensures ReadBack(Sanitised(digit, text)) == WithLt(text, StripNonProse(text))
  {
    var t := StripNonProse(text);
    StripKeepsOffsets(text);
    SafePiecesAreWritten(digit, text);
    var pieces := SafePieces(digit, t, text);
    var marked := StrippedPieces(pieces, text);
    StripEdits(pieces, text);
    StripKeepsOffsets(Flatten(pieces));
    assert pieces[0..] == pieces && marked[0..] == marked && text[0..] == text && t[0..] == t;
    PutBackFrom(digit, pieces, marked, text, t, 0);
  }

  lemma {:induction false} WithLtChanges(text: string, t: string)
    requires |text| == |t|
    ensures (forall i: nat :: !LtStands(t, i)) ==> WithLt(text, t) == text
    ensures (exists i: nat :: LtStands(t, i)) ==> |WithLt(text, t)| < |text|
    decreases |t|
  {
    if t != "" && !LtStands(t, 0) {
      WithLtChanges(text[1..], t[1..]);
      if i: nat :| LtStands(t, i) {
        assert LtStands(t[1..], i - 1);
      } else {
        assert forall i: nat :: LtStands(t[1..], i) ==> LtStands(t, i + 1);
      }
    }
  }

  /**
   The escapes can be undone from what was written alone, exactly when the prose of the text held no
   "&lt;": otherwise what is read back is shorter than the text was.
   */
  lemma SanitisedReadsBack(digit: DigitClass, text: string)
    ensures ReadBack(Sanitised(digit, text)) == text <==> !exists i: nat :: LtStands(StripNonProse(text), i)
    ensures (exists i: nat :: LtStands(StripNonProse(text), i)) ==> |ReadBack(Sanitised(digit, text))| < |text|
  {
    ReadBackIsWithLt(digit, text);
    WithLtChanges(text, StripNonProse(text));
  }

  /** So two texts can be sanitised to one: "<", and the entity that stands for it. */
  lemma SanitisingMergesTexts(digit: DigitClass)
    ensures Sanitised(digit, "<") == "&lt;" && Sanitised(digit, "&lt;") == "&lt;"
  {
    Mention.OneLineIsProse("<");
    FlattenOne("&lt;");
    assert SafePieces(digit, "<", "<") == ["&lt;"];
    LtIsLeft(digit, "&lt;");
  }

  lemma LtIsLeft(digit: DigitClass, text: string)
    requires text == "&lt;"
    ensures Sanitised(digit, text) == text
  {
    Mention.OneLineIsProse(text);
    LtIsPlain(digit, text, 0);
    var plain := seq(|text|, i requires 0 <= i < |text| => [text[i]]);
    assert SafePieces(digit, text, text) == plain;
    FlattenChars(text);
  }
}
