/**
 Detecting an agent mention in prose, and rewriting a body so that none is found:
 the two halves of triggers/mention.py.
 */
module Mention {
  import opened Wrappers
  import opened Lines
  import opened Scanner
  import opened Edits

  const AT_ENTITY := "&#64;"

  predicate IsAsciiAlnum(c: char) {
    '0' <= c <= '9' || 'A' <= c <= 'Z' || 'a' <= c <= 'z'
  }

  /**
   What `re.IGNORECASE` compares: ASCII letters without case, and the four other characters that
   Python folds onto one (dotted and dotless i, long s, the Kelvin sign).
   */
  function FoldCase(c: char): char {
    if 'A' <= c <= 'Z' then (c as int + 32) as char
    else if c == '\U{0130}' || c == '\U{0131}' then 'i'
    else if c == '\U{017F}' then 's'
    else if c == '\U{212A}' then 'k'
    else c
  }

  /** `[A-Za-z0-9_/.@-]`, what a mention may not follow. */
  predicate BlocksBefore(c: char) {
    IsAsciiAlnum(FoldCase(c)) || c in "_/.@-"
  }

  /** `[A-Za-z0-9_-]`, what may not follow a mention. */
  predicate BlocksAfter(c: char) {
    IsAsciiAlnum(FoldCase(c)) || c in "_-"
  }

  /** `s` starts with the handle, and the handle is not the start of a longer name. */
  predicate NamesHandle(s: string, handle: string) {
    && |handle| <= |s|
    && (forall i | 0 <= i < |handle| :: FoldCase(s[i]) == FoldCase(handle[i]))
    && (|s| > |handle| ==> !BlocksAfter(s[|handle|]))
  }

  /** The pattern of `_mention_re` at the start of `s`, with `before` the character before it. */
  predicate MentionStarts(before: Option<char>, s: string, handle: string) {
    && s != "" && s[0] == '@'
    && (before.Some? ==> !BlocksBefore(before.value))
    && NamesHandle(s[1..], handle)
  }

  predicate MentionAt(s: string, i: nat, handle: string) {
    i < |s| && MentionStarts(CharBefore(s, i), s[i..], handle)
  }

  predicate HasMention(body: string, handle: string) {
    var stripped := StripNonProse(body);
    exists i | 0 <= i < |stripped| :: MentionAt(stripped, i, handle)
  }

  /** `finditer`: the starts of the matches from `from` on; a match is skipped over whole. */
  function FindMentions(s: string, from: nat, handle: string): seq<nat>
    requires from <= |s|
    decreases |s| - from
  {
    if from == |s| then []
    else if MentionAt(s, from, handle) then [from] + FindMentions(s, from + 1 + |handle|, handle)
    else FindMentions(s, from + 1, handle)
  }

  /** The characters of `body`, with the entity in place of every matched `@`. */
  function NeutralPieces(body: string, handle: string): (pieces: seq<string>)
    ensures |pieces| == |body|
  {
    StripKeepsOffsets(body);
    var matches := FindMentions(StripNonProse(body), 0, handle);
    seq(|body|, i requires 0 <= i < |body| => if i in matches then AT_ENTITY else [body[i]])
  }

  function Neutralised(body: string, handle: string): string {
    Flatten(NeutralPieces(body, handle))
  }

  lemma {:induction false} MentionsInRange(s: string, from: nat, handle: string)
    requires from <= |s|
    ensures forall m | m in FindMentions(s, from, handle) :: from <= m && MentionAt(s, m, handle)
    decreases |s| - from
  {
    if from < |s| {
      MentionsInRange(s, if MentionAt(s, from, handle) then from + 1 + |handle| else from + 1, handle);
    }
  }

  lemma OneMoreMatch(matches: seq<nat>, k: nat)
    requires k < |matches|
    ensures forall i :: i in matches[..k + 1] <==> i in matches[..k] || i == matches[k]
  {
    assert matches[..k + 1] == matches[..k] + [matches[k]];
  }

  /** `neutralise`: the list of characters is edited in place, one match at a time. */
  method Neutralise(body: string, handle: string) returns (r: string)
    ensures r == Neutralised(body, handle)
  {
    var stripped := StripNonProse(body);
    StripKeepsOffsets(body);
    var out := new string[|body|](i requires 0 <= i < |body| => [body[i]]);
    var matches := FindMentions(stripped, 0, handle);
    MentionsInRange(stripped, 0, handle);
    for k := 0 to |matches|
      invariant forall i | 0 <= i < |body| :: out[i] == if i in matches[..k] then AT_ENTITY else [body[i]]
    {
      var at := matches[k];
      assert at in matches;
      OneMoreMatch(matches, k);
      out[at] := AT_ENTITY;
    }
    assert matches[..|matches|] == matches;
    assert out[..] == NeutralPieces(body, handle);
    r := Flatten(out[..]);
  }

  // ----- Which handles the rewriter can serve --------------------------------------------------

  /** The character of `s` at `from + k` is the handle's at `k`, but for case. */
  predicate SameLetter(s: string, from: nat, handle: string, k: nat)
    requires from + k < |s| && k < |handle|
  {
    FoldCase(s[from + k]) == FoldCase(handle[k])
  }

  /** From `from` on `s` reads like the first `n` characters of the handle. */
  predicate Reads(s: string, from: nat, handle: string, n: nat) {
    from + n <= |s| && n <= |handle| && forall k | 0 <= k < n :: SameLetter(s, from, handle, k)
  }

  /**
   An "@" inside the handle can be the "@" of a second mention that overlaps the first: it follows a
   character that blocks nothing, and what follows it goes on like the handle.
   */
  predicate OverlapsAt(handle: string, d: nat) {
    && 1 <= d < |handle| && handle[d] == '@' && !BlocksBefore(handle[d - 1])
    && Reads(handle, d + 1, handle, |handle| - d - 1) && !BlocksAfter(handle[|handle| - d - 1])
  }

  predicate Overlaps(handle: string) {
    exists d | 0 <= d < |handle| :: OverlapsAt(handle, d)
  }

  predicate EntityChar(handle: string, e: nat, q: nat)
    requires e + q < |handle| && q < 5
  {
    handle[e + q] == AT_ENTITY[q]
  }

  /** The entity itself can be read as part of the handle: whole, or cut off after "&" or "&#64". */
  predicate CreatesAt(handle: string, e: nat) {
    && 1 <= e < |handle| && !BlocksBefore(handle[e - 1])
    && (forall q | 0 <= q < 5 && q < |handle| - e :: EntityChar(handle, e, q))
    && (|| |handle| == e + 1 || |handle| == e + 4
        || (&& |handle| >= e + 5 && Reads(handle, e + 5, handle, |handle| - e - 5)
            && !BlocksAfter(handle[|handle| - e - 5])))
  }

  predicate Creates(handle: string) {
    exists e | 0 <= e < |handle| :: CreatesAt(handle, e)
  }

  /** What the loader promises: leading "@"s are stripped. */
  predicate Loaded(handle: string) {
    handle != "" ==> handle[0] != '@'
  }

  /** A handle the detector and the rewriter agree on. */
  predicate GoodHandle(handle: string) {
    handle != "" && Loaded(handle) && !Overlaps(handle) && !Creates(handle)
  }

  /** Every GitHub account name is one: letters, digits and hyphens. */
  lemma AccountNamesAreGood(handle: string)
    requires handle != "" && '@' !in handle && '&' !in handle
    ensures GoodHandle(handle)
  {
    assert handle[0] in handle;
    if e :| 0 <= e < |handle| && CreatesAt(handle, e) {
      EntityInHandle(handle, e);
    }
  }

  lemma EntityInHandle(handle: string, e: nat)
    requires CreatesAt(handle, e)
    ensures handle[e] == '&' && '&' in handle
  {
    assert EntityChar(handle, e, 0);
  }

  lemma FoldKeepsKinds(c: char, d: char)
    requires FoldCase(c) == FoldCase(d)
    ensures BlocksBefore(c) <==> BlocksBefore(d)
    ensures BlocksAfter(c) <==> BlocksAfter(d)
    ensures d in "@&#64;" ==> c == d
  {
  }

  // ----- A mention, character by character -----------------------------------------------------

  /** The same as `MentionAt`, by the characters of the whole text. */
  predicate Mentions(s: string, i: nat, handle: string) {
    && i + |handle| < |s| && s[i] == '@' && (i > 0 ==> !BlocksBefore(s[i - 1]))
    && Reads(s, i + 1, handle, |handle|)
    && (i + 1 + |handle| < |s| ==> !BlocksAfter(s[i + 1 + |handle|]))
  }

  lemma NamesIsReads(s: string, from: nat, name: string, handle: string)
    requires from <= |s| && name == s[from..]
    ensures NamesHandle(name, handle) <==>
      Reads(s, from, handle, |handle|) && (from + |handle| < |s| ==> !BlocksAfter(s[from + |handle|]))
  {
    if NamesHandle(name, handle) {
      forall k | 0 <= k < |handle| ensures SameLetter(s, from, handle, k) {
        assert name[k] == s[from + k];
      }
    }
    if Reads(s, from, handle, |handle|) {
      forall k | 0 <= k < |handle| ensures FoldCase(name[k]) == FoldCase(handle[k]) {
        assert SameLetter(s, from, handle, k);
      }
    }
  }

  lemma MentionsIsMentionAt(s: string, i: nat, handle: string)
    ensures Mentions(s, i, handle) <==> MentionAt(s, i, handle)
  {
    if i < |s| {
      assert s[i..][1..] == s[i + 1..];
      NamesIsReads(s, i + 1, s[i + 1..], handle);
    }
  }

  /** Two mentions nearer to each other than the handle is long show where it overlaps itself. */
  lemma OverlapShows(s: string, m: nat, i: nat, handle: string)
    requires Mentions(s, m, handle) && Mentions(s, i, handle) && m < i <= m + |handle|
    ensures OverlapsAt(handle, i - m - 1)
  {
    var d := i - m - 1;
    assert SameLetter(s, m + 1, handle, d);
    FoldKeepsKinds(handle[d], s[i]);
    assert d > 0 by {
      assert s[m] == '@' && BlocksBefore('@') && !BlocksBefore(s[i - 1]);
    }
    assert SameLetter(s, m + 1, handle, d - 1);
    FoldKeepsKinds(handle[d - 1], s[i - 1]);
    var from := d + 1;
    forall k | 0 <= k < |handle| - from ensures SameLetter(handle, from, handle, k) {
      assert SameLetter(s, m + 1, handle, d + 1 + k) && SameLetter(s, i + 1, handle, k);
    }
    assert SameLetter(s, i + 1, handle, |handle| - d - 1);
    FoldKeepsKinds(handle[|handle| - d - 1], s[m + 1 + |handle|]);
  }

  /** So matches of a good handle do not overlap. */
  lemma MatchesDoNotOverlap(s: string, m: nat, i: nat, handle: string)
    requires !Overlaps(handle) && MentionAt(s, m, handle) && MentionAt(s, i, handle) && m < i
    ensures m + 1 + |handle| <= i
  {
    MentionsIsMentionAt(s, m, handle);
    MentionsIsMentionAt(s, i, handle);
    if i <= m + |handle| {
      OverlapShows(s, m, i, handle);
    }
  }

  /** One step of `finditer`: what it finds here is found, and so is what it finds from `next` on. */
  lemma FindsOneMore(s: string, from: nat, handle: string, next: nat, i: nat)
    requires from < |s| && next == (if MentionAt(s, from, handle) then from + 1 + |handle| else from + 1)
    ensures next <= |s|
    ensures (MentionAt(s, from, handle) && i == from) || i in FindMentions(s, next, handle) ==>
      i in FindMentions(s, from, handle)
  {
  }

  /** So `finditer` finds them all. */
  lemma {:induction false} FindMentionsFindsAll(s: string, from: nat, handle: string, i: nat)
    requires !Overlaps(handle) && from <= i && MentionAt(s, i, handle)
    ensures i in FindMentions(s, from, handle)
    decreases |s| - from
  {
    var next := if MentionAt(s, from, handle) then from + 1 + |handle| else from + 1;
    FindsOneMore(s, from, handle, next, i);
    if from < i {
      if MentionAt(s, from, handle) {
        MatchesDoNotOverlap(s, from, i, handle);
      }
      FindMentionsFindsAll(s, next, handle, i);
    }
  }

  lemma EntityIsInert()
    ensures Inert(AT_ENTITY) && InertChar('@')
  {
  }

  lemma NeutralPiecesAreProseEdits(body: string, handle: string)
    ensures ProseEdits(NeutralPieces(body, handle), body)
  {
    var t, pieces := StripNonProse(body), NeutralPieces(body, handle);
    StripKeepsOffsets(body);
    EntityIsInert();
    MentionsInRange(t, 0, handle);
    forall i | 0 <= i < |body| ensures pieces[i] == [body[i]] || (InertChar(t[i]) && Inert(pieces[i])) {
      if i in FindMentions(t, 0, handle) {
        assert MentionAt(t, i, handle);
      }
    }
  }

  // ----- Rescanning the rewritten text ---------------------------------------------------------

  /** `marked` is `t` with the entity in place of the `@` of each of `matches`. */
  predicate Marks(marked: seq<string>, t: string, matches: seq<nat>) {
    |marked| == |t| && forall i | 0 <= i < |t| :: marked[i] == if i in matches then AT_ENTITY else [t[i]]
  }

  /** The matches are mentions, and none is inside another. */
  ghost predicate Spaced(t: string, matches: seq<nat>, handle: string) {
    && (forall m | m in matches :: Mentions(t, m, handle))
    && forall m, i | m in matches && i in matches && m < i :: m + |handle| < i
  }

  lemma FoundAreSpaced(t: string, handle: string)
    requires !Overlaps(handle)
    ensures Spaced(t, FindMentions(t, 0, handle), handle)
  {
    MentionsInRange(t, 0, handle);
    forall m | m in FindMentions(t, 0, handle) ensures Mentions(t, m, handle) {
      MentionsIsMentionAt(t, m, handle);
    }
    forall m, i | m in FindMentions(t, 0, handle) && i in FindMentions(t, 0, handle) && m < i ensures m + |handle| < i {
      MatchesDoNotOverlap(t, m, i, handle);
    }
  }

  /** How far the text goes on unchanged from `start`, looking no further than `n`. */
  function PlainUntil(matches: seq<nat>, start: nat, n: nat): (e: nat)
    ensures e <= n && forall k | start <= k < start + e :: k !in matches
    ensures e < n ==> start + e in matches
    decreases n
  {
    if n == 0 || start in matches then 0 else 1 + PlainUntil(matches, start + 1, n - 1)
  }

  /** Without matches from `start` to `end` the text goes on unchanged. */
  lemma {:induction false} FlattenPlain(marked: seq<string>, t: string, matches: seq<nat>, start: nat, end: nat)
    requires Marks(marked, t, matches) && start <= end <= |t| && forall k | start <= k < end :: k !in matches
    ensures Flatten(marked[start..]) == t[start..end] + Flatten(marked[end..])
    decreases end - start
  {
    if start < end {
      FlattenFrom(marked, start);
      FlattenPlain(marked, t, matches, start + 1, end);
      PlainStep(t, start, end, Flatten(marked[start + 1..]), Flatten(marked[end..]));
    }
  }

  lemma PlainStep(t: string, start: nat, end: nat, next: string, rest: string)
    requires start < end <= |t| && next == t[start + 1..end] + rest
    ensures [t[start]] + next == t[start..end] + rest
  {
    assert t[start..end] == [t[start]] + t[start + 1..end];
  }

  /** The matches' own facts, at one of them. */
  lemma AtMatch(t: string, matches: seq<nat>, p: nat, handle: string)
    requires Spaced(t, matches, handle) && p in matches
    ensures Mentions(t, p, handle) && forall k | p < k <= p + |handle| :: k !in matches
  {
  }

  /** What follows a matched `@` in the rewritten text is the name it matched. */
  lemma NameAfterMatch(marked: seq<string>, t: string, matches: seq<nat>, p: nat, n: nat) returns (rest: string)
    requires Marks(marked, t, matches) && p + n < |t| && forall k | p < k <= p + n :: k !in matches
    ensures Flatten(marked[p + 1..]) == t[p + 1..p + 1 + n] + rest
  {
    rest := Flatten(marked[p + 1 + n..]);
    FlattenPlain(marked, t, matches, p + 1, p + 1 + n);
  }

  lemma InSecond(a: string, b: string, c: string, s: string, k: nat)
    requires s == a + (b + c) && k < |b|
    ensures |a| + k < |s| && s[|a| + k] == b[k]
  {
  }

  lemma InThird(a: string, b: string, c: string, s: string, k: nat)
    requires s == a + (b + c) && k < |c|
    ensures |a| + |b| + k < |s| && s[|a| + |b| + k] == c[k]
  {
  }

  /** A text that names the handle across an entity: where the entity is, and what is on both sides of it. */
  lemma EntityInName(handle: string, e: nat, plain: string, rest: string, s: string)
    requires 1 <= e == |plain| < |handle| && s == plain + (AT_ENTITY + rest) && !BlocksBefore(plain[e - 1])
    requires Reads(s, 0, handle, |handle|) && (|s| > |handle| ==> !BlocksAfter(s[|handle|]))
    requires Reads(rest, 0, handle, |handle|)
    ensures CreatesAt(handle, e)
  {
    assert SameLetter(s, 0, handle, e - 1) && s[e - 1] == plain[e - 1];
    FoldKeepsKinds(handle[e - 1], s[e - 1]);
    forall q | 0 <= q < 5 && q < |handle| - e ensures EntityChar(handle, e, q) {
      EntityCharRead(handle, e, plain, rest, s, q);
    }
    if |handle| >= e + 5 {
      EntityWhole(handle, e, plain, rest, s);
    } else {
      InSecond(plain, AT_ENTITY, rest, s, |handle| - e);
    }
  }

  lemma EntityCharRead(handle: string, e: nat, plain: string, rest: string, s: string, q: nat)
    requires e == |plain| && s == plain + (AT_ENTITY + rest) && q < 5 && e + q < |handle|
    requires Reads(s, 0, handle, |handle|)
    ensures EntityChar(handle, e, q)
  {
    InSecond(plain, AT_ENTITY, rest, s, q);
    assert SameLetter(s, 0, handle, e + q);
    FoldKeepsKinds(handle[e + q], AT_ENTITY[q]);
  }

  lemma EntityWhole(handle: string, e: nat, plain: string, rest: string, s: string)
    requires e == |plain| && s == plain + (AT_ENTITY + rest) && e + 5 <= |handle|
    requires Reads(s, 0, handle, |handle|) && (|s| > |handle| ==> !BlocksAfter(s[|handle|]))
    requires Reads(rest, 0, handle, |handle|)
    ensures Reads(handle, e + 5, handle, |handle| - e - 5) && !BlocksAfter(handle[|handle| - e - 5])
  {
    var n := |handle| - e - 5;
    var from := e + 5;
    forall k | 0 <= k < n ensures SameLetter(handle, from, handle, k) {
      InThird(plain, AT_ENTITY, rest, s, k);
      assert SameLetter(s, 0, handle, e + 5 + k) && SameLetter(rest, 0, handle, k);
    }
    InThird(plain, AT_ENTITY, rest, s, n);
    assert SameLetter(rest, 0, handle, n);
    FoldKeepsKinds(handle[n], rest[n]);
  }

  /** The rewritten text from `start` runs into the entity at `p`, and on into the name matched there. */
  lemma FlattenAcross(marked: seq<string>, t: string, matches: seq<nat>, start: nat, p: nat, handle: string)
    returns (rest: string)
    requires Marks(marked, t, matches) && start <= p && p in matches && Mentions(t, p, handle)
    requires forall k | start <= k < p :: k !in matches
    requires forall k | p < k <= p + |handle| :: k !in matches
    ensures Flatten(marked[start..]) == t[start..p] + (AT_ENTITY + rest)
    ensures Reads(rest, 0, handle, |handle|)
  {
    rest := Flatten(marked[p + 1..]);
    FlattenToMatch(marked, t, matches, start, p);
    ReadsAfterMatch(marked, t, matches, p, handle);
  }

  lemma FlattenToMatch(marked: seq<string>, t: string, matches: seq<nat>, start: nat, p: nat)
    requires Marks(marked, t, matches) && start <= p < |t| && p in matches
    requires forall k | start <= k < p :: k !in matches
    ensures Flatten(marked[start..]) == t[start..p] + (AT_ENTITY + Flatten(marked[p + 1..]))
  {
    FlattenPlain(marked, t, matches, start, p);
    FlattenFrom(marked, p);
  }

  lemma ReadsAfterMatch(marked: seq<string>, t: string, matches: seq<nat>, p: nat, handle: string)
    requires Marks(marked, t, matches) && Mentions(t, p, handle)
    requires forall k | p < k <= p + |handle| :: k !in matches
    ensures Reads(Flatten(marked[p + 1..]), 0, handle, |handle|)
  {
    var more := NameAfterMatch(marked, t, matches, p, |handle|);
    ReadsOn(t, p, handle, more, Flatten(marked[p + 1..]));
  }

  lemma ReadsOn(t: string, p: nat, handle: string, more: string, rest: string)
    requires Mentions(t, p, handle) && rest == t[p + 1..p + 1 + |handle|] + more
    ensures Reads(rest, 0, handle, |handle|)
  {
    forall k | 0 <= k < |handle| ensures SameLetter(rest, 0, handle, k) {
      assert SameLetter(t, p + 1, handle, k) && rest[k] == t[p + 1..p + 1 + |handle|][k] == t[p + 1 + k];
    }
  }

  /** The name read from `start` runs into an entity after `e` characters. */
  lemma EntityAcross(marked: seq<string>, t: string, matches: seq<nat>, start: nat, e: nat, handle: string, all: string)
    requires Marks(marked, t, matches) && Spaced(t, matches, handle) && 1 <= e < |handle| && start + e in matches
    requires forall k | start <= k < start + e :: k !in matches
    requires all == Flatten(marked[start..])
    requires Reads(all, 0, handle, |handle|) && (|all| > |handle| ==> !BlocksAfter(all[|handle|]))
    ensures CreatesAt(handle, e)
  {
    var p := start + e;
    AtMatch(t, matches, p, handle);
    var rest := FlattenAcross(marked, t, matches, start, p, handle);
    var plain := t[start..p];
    assert plain[e - 1] == t[p - 1];
    EntityInName(handle, e, plain, rest, all);
  }

  /** Without a match in reach the name is read as it stood. */
  lemma PlainToTheEnd(marked: seq<string>, t: string, matches: seq<nat>, start: nat)
    requires Marks(marked, t, matches) && start <= |t| && forall k | start <= k < |t| :: k !in matches
    ensures |Flatten(marked[start..])| == |t| - start
  {
    FlattenPlain(marked, t, matches, start, |t|);
    assert marked[|t|..] == [];
  }

  lemma PlainIsLong(marked: seq<string>, t: string, matches: seq<nat>, start: nat, n: nat)
    requires Marks(marked, t, matches) && start <= |t| && n <= |Flatten(marked[start..])|
    requires forall k | start <= k < start + n :: k !in matches
    ensures start + n <= |t|
  {
    if start + n > |t| {
      PlainToTheEnd(marked, t, matches, start);
      assert false;
    }
  }

  lemma PlainName(marked: seq<string>, t: string, matches: seq<nat>, start: nat, handle: string)
    requires Marks(marked, t, matches) && start <= |t| && (start + |handle| in matches ==> start + |handle| < |t|)
    requires forall k | start <= k < start + |handle| :: k !in matches
    requires start + |handle| in matches ==> t[start + |handle|] == '@'
    requires NamesHandle(Flatten(marked[start..]), handle)
    ensures NamesHandle(t[start..], handle)
  {
    var n := |handle|;
    PlainIsLong(marked, t, matches, start, n);
    FlattenPlain(marked, t, matches, start, start + n);
    if start + n < |t| {
      FlattenFrom(marked, start + n);
    }
    PlainStart(t, start, n, Flatten(marked[start + n..]), handle);
  }

  lemma PlainStart(t: string, start: nat, n: nat, rest: string, handle: string)
    requires start + n <= |t| && n == |handle| && NamesHandle(t[start..start + n] + rest, handle)
    requires start + n < |t| ==> rest != "" && (rest[0] == t[start + n] || t[start + n] == '@')
    ensures NamesHandle(t[start..], handle)
  {
    var s := t[start..start + n] + rest;
    NamesIsReads(s, 0, s[0..], handle);
    forall k | 0 <= k < n ensures SameLetter(t, start, handle, k) {
      assert SameLetter(s, 0, handle, k) && s[k] == t[start..start + n][k];
    }
    assert start + n < |t| ==> s[n] == rest[0];
    NamesIsReads(t, start, t[start..], handle);
  }

  /** A match is not right behind another `@`. */
  lemma MatchNotBehindAt(t: string, matches: seq<nat>, i: nat, handle: string)
    requires Spaced(t, matches, handle) && i < |t| && t[i] == '@'
    ensures i + 1 !in matches
  {
    assert BlocksBefore('@');
    assert forall m | m in matches :: Mentions(t, m, handle);
  }

  /** The rewritten text names the handle only where the text did before, but right at a match. */
  lemma NamesHandleBefore(marked: seq<string>, t: string, matches: seq<nat>, start: nat, handle: string)
    requires !Creates(handle) && Marks(marked, t, matches) && Spaced(t, matches, handle)
    requires start <= |t| && start !in matches && NamesHandle(Flatten(marked[start..]), handle)
    ensures NamesHandle(t[start..], handle)
  {
    var e := PlainUntil(matches, start, |handle|);
    if e < |handle| {
      var all := Flatten(marked[start..]);
      NamesIsReads(all, 0, all[0..], handle);
      EntityAcross(marked, t, matches, start, e, handle, all);
    } else {
      NameIsPlain(marked, t, matches, start, handle);
    }
  }

  lemma NameIsPlain(marked: seq<string>, t: string, matches: seq<nat>, start: nat, handle: string)
    requires Marks(marked, t, matches) && Spaced(t, matches, handle) && start <= |t|
    requires forall k | start <= k < start + |handle| :: k !in matches
    requires NamesHandle(Flatten(marked[start..]), handle)
    ensures NamesHandle(t[start..], handle)
  {
    if start + |handle| in matches {
      AtMatch(t, matches, start + |handle|, handle);
    }
    PlainName(marked, t, matches, start, handle);
  }

  /** A matched `@` is followed by the handle, so never by another `@`. */
  lemma NotAfterMatch(t: string, handle: string, i: nat)
    requires handle != "" && Loaded(handle) && Mentions(t, i, handle)
    ensures t[i + 1] != '@'
  {
    assert SameLetter(t, i + 1, handle, 0);
    FoldKeepsKinds(handle[0], t[i + 1]);
  }

  /** No `@` left in the rewritten text starts a mention, whatever is now before or after it. */
  lemma NoMentionAtPiece(t: string, marked: seq<string>, matches: seq<nat>, handle: string, i: nat,
                         before: Option<char>, s: string)
    requires GoodHandle(handle) && matches == FindMentions(t, 0, handle) && Marks(marked, t, matches)
    requires i < |t| && i !in matches && s == [t[i]] + Flatten(marked[i + 1..])
    requires before == if i > 0 then Some(marked[i - 1][|marked[i - 1]| - 1]) else None
    ensures !MentionStarts(before, s, handle)
  {
    if MentionStarts(before, s, handle) {
      assert s[1..] == Flatten(marked[i + 1..]);
      FoundAreSpaced(t, handle);
      MatchNotBehindAt(t, matches, i, handle);
      NamesHandleBefore(marked, t, matches, i + 1, handle);
      if i > 0 && i - 1 in matches {
        NotAfterMatch(t, handle, i - 1);
      }
      assert before == CharBefore(t, i);
      MentionFrom(t, i, handle);
      FindMentionsFindsAll(t, 0, handle, i);
    }
  }

  lemma MentionFrom(t: string, i: nat, handle: string)
    requires i < |t| && t[i] == '@' && NamesHandle(t[i + 1..], handle)
    requires CharBefore(t, i).Some? ==> !BlocksBefore(CharBefore(t, i).value)
    ensures MentionAt(t, i, handle)
  {
    assert t[i..][1..] == t[i + 1..];
  }

  lemma NoMentionInMarked(t: string, marked: seq<string>, handle: string, j: nat)
    requires GoodHandle(handle) && Marks(marked, t, FindMentions(t, 0, handle))
    ensures !MentionAt(Flatten(marked), j, handle)
  {
    var out := Flatten(marked);
    if MentionAt(out, j, handle) {
      var i, d := PieceAt(marked, j);
      assert out[j..][0] == marked[i][d] == '@';
      assert i !in FindMentions(t, 0, handle);
      NoMentionAtPiece(t, marked, FindMentions(t, 0, handle), handle, i, CharBefore(out, j), out[j..]);
    }
  }

  /** The strip of a neutralised body is the body's strip, with the entity in place of each match. */
  lemma NeutralisedStrip(body: string, handle: string) returns (marked: seq<string>)
    ensures Marks(marked, StripNonProse(body), FindMentions(StripNonProse(body), 0, handle))
    ensures StripNonProse(Neutralised(body, handle)) == Flatten(marked)
  {
    var pieces := NeutralPieces(body, handle);
    NeutralPiecesAreProseEdits(body, handle);
    StripEdits(pieces, body);
    StripKeepsOffsets(body);
    MentionsInRange(StripNonProse(body), 0, handle);
    marked := StrippedPieces(pieces, body);
  }

  /** `has_mention` is false of every neutralised body. */
  lemma NeutralisedHasNoMention(body: string, handle: string)
    requires GoodHandle(handle)
    ensures !HasMention(Neutralised(body, handle), handle)
  {
    var marked := NeutralisedStrip(body, handle);
    forall j: nat ensures !MentionAt(Flatten(marked), j, handle) {
      NoMentionInMarked(StripNonProse(body), marked, handle, j);
    }
  }

  /** A body without a mention is left alone. */
  lemma NoMentionUnchanged(body: string, handle: string)
    requires !HasMention(body, handle)
    ensures Neutralised(body, handle) == body
  {
    StripKeepsOffsets(body);
    MentionsInRange(StripNonProse(body), 0, handle);
    assert NeutralPieces(body, handle) == seq(|body|, i requires 0 <= i < |body| => [body[i]]);
    FlattenChars(body);
  }

  /** So neutralising twice is neutralising once. */
  lemma NeutraliseIdempotent(body: string, once: string, handle: string)
    requires GoodHandle(handle) && once == Neutralised(body, handle)
    ensures Neutralised(once, handle) == once
  {
    NeutralisedHasNoMention(body, handle);
    NoMentionUnchanged(once, handle);
  }

  // ----- The handles it cannot serve -----------------------------------------------------------

  lemma {:induction false} NoTicksNoSpans(s: string)
    requires '`' !in s
    ensures BlankSpans(s) == s
  {
    if s != "" {
      assert s == [s[0]] + s[1..] && s[0] in s;
      SpansOfOne(s[0], s[1..], s);
      NoTicksNoSpans(s[1..]);
    }
  }

  predicate Clean(s: string) {
    '\n' !in s && '`' !in s
  }

  lemma CleanParts(s: string, i: nat, j: nat)
    requires Clean(s) && i <= j <= |s|
    ensures Clean(s[i..j])
  {
  }

  lemma CleanJoin(a: string, b: string)
    requires Clean(a) && Clean(b)
    ensures Clean(a + b)
  {
  }

  /** One line that starts with no mark of a block, and without backticks, is all prose. */
  predicate OneProseLine(s: string) {
    s != "" && s[0] in "@&<" && Clean(s)
  }

  lemma OneLineIsProse(s: string)
    requires OneProseLine(s)
    ensures StripNonProse(s) == s
  {
    SplitOneLine(s);
    assert s[0..] == s;
    assert FenceMatch(s) == None && !IsBlockquote(s) && !IsIndentedCode(s);
    assert BlankFenced([s], None) == [s] && KeptLines([s]) == [s];
    NoTicksNoSpans(s);
  }

  lemma {:induction false} NoRoomForMore(s: string, from: nat, handle: string)
    requires from <= |s| <= from + |handle|
    ensures FindMentions(s, from, handle) == []
    decreases |s| - from
  {
    if from < |s| {
      MentionsIsMentionAt(s, from, handle);
      NoRoomForMore(s, from + 1, handle);
    }
  }

  lemma {:induction false} NoneUntil(s: string, from: nat, to: nat, handle: string)
    requires from <= to <= |s| && forall i | from <= i < to :: !MentionAt(s, i, handle)
    ensures FindMentions(s, from, handle) == FindMentions(s, to, handle)
    decreases |s| - from
  {
    if from < to {
      NoneUntil(s, from + 1, to, handle);
    }
  }

  /** A line of prose in which one mention is found, and what neutralising makes of it. */
  lemma OneReplaced(body: string, p: nat, handle: string)
    requires OneProseLine(body) && p < |body| && FindMentions(body, 0, handle) == [p]
    ensures Neutralised(body, handle) == body[..p] + (AT_ENTITY + body[p + 1..])
  {
    OneLineIsProse(body);
    OneMatchMarked(NeutralPieces(body, handle), body, p);
  }

  /** A line of prose in which one mention is found and replaced, and another is left. */
  lemma OneIsLeft(body: string, p: nat, out: string, i: nat, handle: string)
    requires OneProseLine(body) && p < |body| && FindMentions(body, 0, handle) == [p]
    requires out == body[..p] + (AT_ENTITY + body[p + 1..]) && OneProseLine(out) && Mentions(out, i, handle)
    ensures HasMention(Neutralised(body, handle), handle)
  {
    OneReplaced(body, p, handle);
    MentionIsLeft(out, i, handle);
  }

  lemma MentionIsLeft(out: string, i: nat, handle: string)
    requires OneProseLine(out) && Mentions(out, i, handle)
    ensures HasMention(out, handle)
  {
    OneLineIsProse(out);
    MentionsIsMentionAt(out, i, handle);
  }

  /** The body whose second mention overlaps the first. */
  function Overlapping(handle: string, d: nat): string
    requires d < |handle|
  {
    "@" + (handle + handle[|handle| - d - 1..])
  }

  lemma OverlapFound(handle: string, d: nat, tail: string, body: string)
    requires OverlapsAt(handle, d) && tail == handle[|handle| - d - 1..] && body == "@" + (handle + tail)
    ensures FindMentions(body, 0, handle) == [0]
  {
    var from := 1;
    forall k | 0 <= k < |handle| ensures SameLetter(body, from, handle, k) {
      InSecond("@", handle, tail, body, k);
    }
    InThird("@", handle, tail, body, 0);
    assert Mentions(body, 0, handle);
    MentionsIsMentionAt(body, 0, handle);
    NoRoomForMore(body, 1 + |handle|, handle);
  }

  lemma OverlapRemains(handle: string, d: nat, tail: string, out: string, i: nat)
    requires OverlapsAt(handle, d) && tail == handle[|handle| - d - 1..] && out == AT_ENTITY + (handle + tail)
    requires i == 5 + d
    ensures Mentions(out, i, handle)
  {
    var n := |handle| - d - 1;
    InSecond(AT_ENTITY, handle, tail, out, d);
    InSecond(AT_ENTITY, handle, tail, out, d - 1);
    var from := i + 1;
    forall k | 0 <= k < |handle| ensures SameLetter(out, from, handle, k) {
      if k < n {
        InSecond(AT_ENTITY, handle, tail, out, d + 1 + k);
        assert SameLetter(handle, d + 1, handle, k);
      } else {
        InThird(AT_ENTITY, handle, tail, out, k - n);
      }
    }
  }

  lemma OverlapIsClean(handle: string, d: nat)
    requires d < |handle| && Clean(handle)
    ensures OneProseLine(Overlapping(handle, d))
    ensures OneProseLine(AT_ENTITY + (handle + handle[|handle| - d - 1..]))
  {
    var tail := handle[|handle| - d - 1..];
    CleanParts(handle, |handle| - d - 1, |handle|);
    CleanJoin(handle, tail);
    CleanJoin("@", handle + tail);
    CleanJoin(AT_ENTITY, handle + tail);
  }

  lemma OverlapRewritten(handle: string, d: nat, tail: string, body: string, out: string)
    requires d < |handle| && tail == handle[|handle| - d - 1..] && body == Overlapping(handle, d)
    requires out == AT_ENTITY + (handle + tail)
    ensures out == body[..0] + (AT_ENTITY + body[1..])
  {
    assert body[1..] == handle + tail;
  }

  /** A handle that overlaps itself leaves the second of two mentions. */
  lemma OverlapIsNotNeutralised(handle: string, d: nat)
    requires OverlapsAt(handle, d) && Clean(handle)
    ensures HasMention(Neutralised(Overlapping(handle, d), handle), handle)
  {
    var body, tail := Overlapping(handle, d), handle[|handle| - d - 1..];
    var out := AT_ENTITY + (handle + tail);
    OverlapIsClean(handle, d);
    OverlapFound(handle, d, tail, body);
    OverlapRewritten(handle, d, tail, body, out);
    var i := 5 + d;
    OverlapRemains(handle, d, tail, out, i);
    OneIsLeft(body, 0, out, i, handle);
  }

  /** The body in which the entity completes a mention that was none. */
  function Completing(handle: string, e: nat): string
    requires e <= |handle|
  {
    "@" + (handle[..e] + ("@" + handle))
  }

  lemma NotMentionedBefore(handle: string, e: nat, body: string, i: nat)
    requires !Overlaps(handle) && CreatesAt(handle, e) && i < 1 + e < |body| && Mentions(body, 1 + e, handle)
    ensures !MentionAt(body, i, handle)
  {
    MentionsIsMentionAt(body, i, handle);
    if Mentions(body, i, handle) {
      if i == 0 {
        EntityInHandle(handle, e);
        assert SameLetter(body, 0 + 1, handle, e);
        FoldKeepsKinds(handle[e], body[1 + e]);
      } else {
        OverlapShows(body, i, 1 + e, handle);
      }
    }
  }

  lemma SecondIsMention(handle: string, e: nat, front: string, body: string)
    requires CreatesAt(handle, e) && front == "@" + handle[..e] && body == front + ("@" + handle)
    ensures |body| == 2 + e + |handle| && Mentions(body, 1 + e, handle)
  {
    assert front[e] == handle[..e][e - 1] && body[e] == front[e];
    InSecond(front, "@", handle, body, 0);
    var from := 2 + e;
    forall k | 0 <= k < |handle| ensures SameLetter(body, from, handle, k) {
      InThird(front, "@", handle, body, k);
    }
  }

  lemma CompletingFound(handle: string, e: nat, body: string, p: nat)
    requires !Overlaps(handle) && CreatesAt(handle, e) && p == 1 + e
    requires |body| == p + 1 + |handle| && Mentions(body, p, handle)
    ensures FindMentions(body, 0, handle) == [p]
  {
    forall i | 0 <= i < p ensures !MentionAt(body, i, handle) {
      NotMentionedBefore(handle, e, body, i);
    }
    NoneUntil(body, 0, p, handle);
    OnlyMention(body, p, handle);
  }

  lemma OnlyMention(body: string, p: nat, handle: string)
    requires Mentions(body, p, handle) && |body| == p + 1 + |handle|
    ensures FindMentions(body, p, handle) == [p]
  {
    MentionsIsMentionAt(body, p, handle);
    NoRoomForMore(body, p + 1 + |handle|, handle);
  }

  lemma CompletedIsMentioned(handle: string, e: nat, front: string, out: string)
    requires CreatesAt(handle, e) && front == "@" + handle[..e] && out == front + (AT_ENTITY + handle)
    ensures Mentions(out, 0, handle)
  {
    var from := 1;
    forall k | 0 <= k < |handle| ensures SameLetter(out, from, handle, k) {
      CompletedChar(handle, e, front, out, k);
    }
    if |handle| >= e + 5 {
      InThird(front, AT_ENTITY, handle, out, |handle| - e - 5);
    } else {
      InSecond(front, AT_ENTITY, handle, out, |handle| - e);
    }
  }

  lemma CompletedChar(handle: string, e: nat, front: string, out: string, k: nat)
    requires CreatesAt(handle, e) && front == "@" + handle[..e] && out == front + (AT_ENTITY + handle) && k < |handle|
    ensures SameLetter(out, 1, handle, k)
  {
    if k < e {
      assert out[1 + k] == front[1 + k] == handle[..e][k];
    } else if k < e + 5 {
      InSecond(front, AT_ENTITY, handle, out, k - e);
      assert EntityChar(handle, e, k - e);
    } else {
      InThird(front, AT_ENTITY, handle, out, k - e - 5);
      assert SameLetter(handle, e + 5, handle, k - e - 5);
    }
  }

  lemma CompletingIsClean(handle: string, e: nat)
    requires e <= |handle| && Clean(handle)
    ensures OneProseLine(Completing(handle, e))
    ensures OneProseLine("@" + handle[..e] + (AT_ENTITY + handle))
  {
    CleanParts(handle, 0, e);
    CleanJoin("@", handle);
    CleanJoin(handle[..e], "@" + handle);
    CleanJoin("@", handle[..e] + ("@" + handle));
    CleanJoin("@", handle[..e]);
    CleanJoin(AT_ENTITY, handle);
    CleanJoin("@" + handle[..e], AT_ENTITY + handle);
  }

  lemma CompletingRewritten(handle: string, e: nat, front: string, body: string, out: string)
    requires e < |handle| && front == "@" + handle[..e]
    requires body == front + ("@" + handle) && out == front + (AT_ENTITY + handle)
    ensures body == Completing(handle, e) && out == body[..1 + e] + (AT_ENTITY + body[2 + e..])
  {
    assert body[..1 + e] == front && body[2 + e..] == handle;
  }

  lemma CompletingSetUp(handle: string, e: nat, body: string, out: string)
    requires !Overlaps(handle) && CreatesAt(handle, e) && Clean(handle)
    requires body == Completing(handle, e) && out == "@" + handle[..e] + (AT_ENTITY + handle)
    ensures OneProseLine(body) && FindMentions(body, 0, handle) == [1 + e]
    ensures out == body[..1 + e] + (AT_ENTITY + body[2 + e..]) && OneProseLine(out) && Mentions(out, 0, handle)
  {
    var front := "@" + handle[..e];
    CompletingIsClean(handle, e);
    CompletingRewritten(handle, e, front, front + ("@" + handle), out);
    SecondIsMention(handle, e, front, body);
    CompletingFound(handle, e, body, 1 + e);
    CompletedIsMentioned(handle, e, front, out);
  }

  /** A handle that the entity completes is found where it was not before. */
  lemma CompletingIsNotNeutralised(handle: string, e: nat)
    requires !Overlaps(handle) && CreatesAt(handle, e) && Clean(handle)
    ensures HasMention(Neutralised(Completing(handle, e), handle), handle)
  {
    var body, out := Completing(handle, e), "@" + handle[..e] + (AT_ENTITY + handle);
    CompletingSetUp(handle, e, body, out);
    OneIsLeft(body, 1 + e, out, 0, handle);
  }

  /**
   The handle must not be empty. The loader strips leading `@`s after it has checked the handle,
   so a configured "@" is an empty handle, and then a rewritten body can still hold a mention.
   */
  lemma EmptyHandleIsNotNeutralised()
    ensures HasMention(Neutralised("@@", ""), "")
  {
    TwoAtsFound("@@");
    EntityThenAt("@@", AT_ENTITY + "@");
    OneIsLeft("@@", 0, AT_ENTITY + "@", 5, "");
  }

  lemma TwoAtsFound(body: string)
    requires body == "@@"
    ensures FindMentions(body, 0, "") == [0] && OneProseLine(body)
  {
    MentionsIsMentionAt(body, 0, "");
    MentionsIsMentionAt(body, 1, "");
    assert BlocksBefore('@');
    assert FindMentions(body, 1, "") == FindMentions(body, 2, "") == [];
  }

  lemma EntityThenAt(body: string, out: string)
    requires body == "@@" && out == AT_ENTITY + "@"
    ensures out == body[..0] + (AT_ENTITY + body[1..]) && OneProseLine(out) && Mentions(out, 5, "")
  {
    assert out == "&#64;@";
  }

  // ----- Handles with a backtick ---------------------------------------------------------------

  lemma {:induction false} NoSpanNoTick(s: string, k: nat)
    requires 1 <= k <= |s| && SpanWith(s, k).None?
    ensures forall i | 1 <= i < |s| :: s[i] != '`'
  {
    if k == 1 {
      forall i | 1 <= i < |s| ensures s[i] != '`' {
        assert !TicksAt(s, i, 1);
      }
    } else {
      NoSpanNoTick(s, k - 1);
    }
  }

  /** A backtick that opens no code span is the last one. */
  lemma LastTick(s: string, y: nat)
    requires s != "" && s[0] == '`' && CodeSpan(s).None? && 1 <= y < |s|
    ensures BlankSpans(s)[y] != '`'
  {
    SpansBlanked(s);
    NoSpanNoTick(s, RunLength('`', s));
  }

  /** A backtick in what one step emits opens no code span. */
  lemma TickInHead(s: string, x: nat)
    requires s != "" && x < SpanStep(s) && BlankSpans(s)[x] == '`'
    ensures CodeSpan(s).None? && s[0] == '`'
  {
    SpansUnfold(s);
    assert BlankSpans(s)[x] == SpanHead(s)[x];
  }

  /** Of two backticks, the first would open a code span: at most one is left. */
  lemma {:induction false} OneTickLeft(s: string, x: nat, y: nat)
    requires x < y < |s| && BlankSpans(s)[x] == '`'
    ensures BlankSpans(s)[y] != '`'
    decreases |s|
  {
    var n := SpanStep(s);
    if x < n {
      TickInHead(s, x);
      LastTick(s, y);
    } else {
      SpanTail(s, x);
      SpanTail(s, y);
      OneTickLeft(s[n..], x - n, y - n);
    }
  }

  /** At most one backtick. */
  predicate OneTick(s: string) {
    forall x, y | 0 <= x < |s| && 0 <= y < |s| && s[x] == '`' && s[y] == '`' :: x == y
  }

  lemma StripHasOneTick(body: string)
    ensures OneTick(StripNonProse(body))
  {
    var kept := KeptText(body);
    var t := BlankSpans(kept);
    SpansBlanked(kept);
    forall x, y | 0 <= x < |t| && 0 <= y < |t| && t[x] == '`' && t[y] == '`' ensures x == y {
      if x < y {
        OneTickLeft(kept, x, y);
      } else if y < x {
        OneTickLeft(kept, y, x);
      }
    }
  }

  lemma TickOfMention(s: string, i: nat, handle: string, p: nat)
    requires MentionAt(s, i, handle) && p < |handle| && handle[p] == '`'
    ensures i + 1 + p < |s| && s[i] == '@' && s[i + 1 + p] == '`'
  {
    MentionsIsMentionAt(s, i, handle);
    var from := i + 1;
    assert SameLetter(s, from, handle, p);
  }

  lemma {:induction false} NoneFound(s: string, from: nat, handle: string, i: nat)
    requires from <= i < |s| && FindMentions(s, from, handle) == []
    ensures !MentionAt(s, i, handle)
    decreases |s| - from
  {
    if from < i {
      NoneFound(s, from + 1, handle, i);
    }
  }

  lemma OneMatchMarked(marked: seq<string>, t: string, m: nat)
    requires m < |t| && Marks(marked, t, [m])
    ensures Flatten(marked) == t[..m] + (AT_ENTITY + t[m + 1..])
  {
    var before, after := t[..m], t[m + 1..];
    var plain := seq(|before|, i requires 0 <= i < |before| => [before[i]]);
    var rest := seq(|after|, i requires 0 <= i < |after| => [after[i]]);
    assert marked == plain + ([AT_ENTITY] + rest);
    FlattenSplit(plain, [AT_ENTITY] + rest);
    FlattenSplit([AT_ENTITY], rest);
    FlattenOne(AT_ENTITY);
    FlattenChars(before);
    FlattenChars(after);
  }

  lemma UnmatchedMarked(marked: seq<string>, t: string)
    requires Marks(marked, t, [])
    ensures Flatten(marked) == t
  {
    assert marked == seq(|t|, i requires 0 <= i < |t| => [t[i]]);
    FlattenChars(t);
  }

  lemma Shifted(t: string, m: nat, out: string, p: nat)
    requires m + 1 + p < |t| && out == t[..m] + (AT_ENTITY + t[m + 1..])
    ensures |out| == |t| + 4 && out[m + 4] == ';' && out[m + 5 + p] == t[m + 1 + p]
  {
    assert out[m + 4] == AT_ENTITY[4];
    assert out[m + 5 + p] == t[m + 1..][p];
  }

  /** The one backtick tells where a mention is, and where one was. */
  lemma TickMovesOn(t: string, m: nat, out: string, j: nat, handle: string, p: nat)
    requires MentionAt(t, m, handle) && p < |handle| && handle[p] == '`'
    requires out == t[..m] + (AT_ENTITY + t[m + 1..]) && OneTick(out)
    ensures !MentionAt(out, j, handle)
  {
    TickOfMention(t, m, handle, p);
    Shifted(t, m, out, p);
    if MentionAt(out, j, handle) {
      TickOfMention(out, j, handle, p);
      assert false;
    }
  }

  lemma OnlyOneMatch(t: string, handle: string, p: nat, m: nat, matches: seq<nat>)
    requires OneTick(t) && p < |handle| && handle[p] == '`' && m in matches
    requires forall i | i in matches :: MentionAt(t, i, handle)
    ensures forall i | i in matches :: i == m
  {
    TickOfMention(t, m, handle, p);
    forall i | i in matches ensures i == m {
      TickOfMention(t, i, handle, p);
    }
  }

  lemma TickInMarked(t: string, marked: seq<string>, handle: string, p: nat, j: nat)
    requires p < |handle| && handle[p] == '`' && OneTick(t) && OneTick(Flatten(marked)) && j < |Flatten(marked)|
    requires Marks(marked, t, FindMentions(t, 0, handle))
    ensures !MentionAt(Flatten(marked), j, handle)
  {
    var matches := FindMentions(t, 0, handle);
    MentionsInRange(t, 0, handle);
    if matches == [] {
      UnmatchedMarked(marked, t);
      NoneFound(t, 0, handle, j);
    } else {
      var m := matches[0];
      OnlyOneMatch(t, handle, p, m, matches);
      assert Marks(marked, t, [m]);
      OneMatchMarked(marked, t, m);
      TickMovesOn(t, m, Flatten(marked), j, handle, p);
    }
  }

  /** A handle with a backtick is neutralised in every body. */
  lemma TickIsNeutralised(body: string, handle: string, p: nat)
    requires p < |handle| && handle[p] == '`'
    ensures !HasMention(Neutralised(body, handle), handle)
  {
    var marked := NeutralisedStrip(body, handle);
    StripHasOneTick(body);
    StripHasOneTick(Neutralised(body, handle));
    forall j | 0 <= j < |Flatten(marked)| ensures !MentionAt(Flatten(marked), j, handle) {
      TickInMarked(StripNonProse(body), marked, handle, p, j);
    }
  }

  /**
   Exactly which handles: of every handle of one line that the loader can hand over, neutralising works on
   every body if and only if the handle is not empty, does not overlap itself and cannot be completed by the
   entity; or holds a backtick, of which a strip has one at most.
   */
  lemma NeutraliseWorksExactlyFor(handle: string)
    requires Loaded(handle) && '\n' !in handle
    ensures (forall body :: !HasMention(Neutralised(body, handle), handle)) <==> GoodHandle(handle) || '`' in handle
  {
    if GoodHandle(handle) {
      forall body ensures !HasMention(Neutralised(body, handle), handle) {
        NeutralisedHasNoMention(body, handle);
      }
    } else if p :| 0 <= p < |handle| && handle[p] == '`' {
      forall body ensures !HasMention(Neutralised(body, handle), handle) {
        TickIsNeutralised(body, handle, p);
      }
    } else {
      BadHandleFails(handle);
    }
  }

  lemma BadHandleFails(handle: string)
    requires Loaded(handle) && Clean(handle) && !GoodHandle(handle)
    ensures exists body :: HasMention(Neutralised(body, handle), handle)
  {
    if handle == "" {
      EmptyHandleIsNotNeutralised();
    } else if d :| 0 <= d < |handle| && OverlapsAt(handle, d) {
      OverlapIsNotNeutralised(handle, d);
    } else {
      var e :| 0 <= e < |handle| && CreatesAt(handle, e);
      CompletingIsNotNeutralised(handle, e);
    }
  }
}
