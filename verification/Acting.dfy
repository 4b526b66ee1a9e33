/**
 What acts in a text, by its characters alone: what the sanitiser escapes is exactly that, and which
 mentions the detector still finds in what it wrote.
 */
module Acting {
  import opened Wrappers
  import opened Lines
  import opened Scanner
  import opened Edits
  import opened Mention
  import opened Sanitise
  import Classifier

  predicate IsWord(c: char) {
    '0' <= c <= '9' || 'A' <= c <= 'Z' || 'a' <= c <= 'z'
  }

  /** Nothing before `i`, or a character that is no word's and none of `signs`. */
  predicate Apart(s: string, i: nat, signs: set<char>)
    requires i <= |s|
  {
    i == 0 || (!IsWord(s[i - 1]) && s[i - 1] !in signs)
  }

  /** An `@` that names an account or a team. */
  predicate Notifies(s: string, i: nat) {
    i + 1 < |s| && s[i] == '@' && IsWord(s[i + 1]) && Apart(s, i, {'_', '/', '.', '@', '-'})
  }

  /** The hyphen of a "GH-1". */
  predicate Refers(digit: DigitClass, s: string, i: nat) {
    && 2 <= i && i + 1 < |s| && s[i - 2] == 'G' && s[i - 1] == 'H' && s[i] == '-' && digit(s[i + 1])
    && Apart(s, i - 2, {'_', '-'})
  }

  predicate Numbers(digit: DigitClass, s: string, i: nat) {
    i + 1 < |s| && s[i] == '#' && digit(s[i + 1])
  }

  predicate OpensTag(s: string, i: nat) {
    i < |s| && s[i] == '<'
  }

  /** The character acts: it notifies, refers to an issue, or starts a tag. */
  predicate Acts(digit: DigitClass, s: string, i: nat) {
    Notifies(s, i) || Refers(digit, s, i) || Numbers(digit, s, i) || OpensTag(s, i)
  }

  /** Exactly the characters that act in the prose are escaped. */
  lemma ActingIsEscaped(digit: DigitClass, t: string, i: nat)
    ensures EscapeAt(digit, t, i).Some? <==> Acts(digit, t, i)
  {
  }

  /** Nothing is found but the "#" of entities. */
  predicate Escaped(digit: DigitClass, s: string) {
    forall j | 0 <= j < |s| && UnsafeAt(digit, s, j).Some? ::
      UnsafeAt(digit, s, j) == Some(Hash) && 0 < j && s[j - 1] == '&'
  }

  lemma SanitisedIsEscaped(digit: DigitClass, text: string, out: string)
    requires out == StripNonProse(Sanitised(digit, text))
    ensures Escaped(digit, out)
  {
    SanitisedIsInert(digit, text);
  }

  lemma ActsInEntity(digit: DigitClass, s: string, j: nat)
    requires Escaped(digit, s) && Acts(digit, s, j)
    ensures 0 < j < |s| && s[j - 1] == '&' && Numbers(digit, s, j)
  {
    ActingIsEscaped(digit, s, j);
  }

  /** In the prose of what was written nothing acts but the "#" after the "&" of an entity. */
  lemma NothingActs(digit: DigitClass, text: string, out: string, j: nat)
    requires out == StripNonProse(Sanitised(digit, text)) && Acts(digit, out, j)
    ensures 0 < j < |out| && out[j - 1] == '&' && Numbers(digit, out, j)
  {
    SanitisedIsEscaped(digit, text, out);
    ActsInEntity(digit, out, j);
  }

  /** A text in whose prose nothing acts is written as it is. */
  lemma InertIsUnchanged(digit: DigitClass, text: string)
    requires forall i: nat :: !Acts(digit, StripNonProse(text), i)
    ensures Sanitised(digit, text) == text
  {
    var t := StripNonProse(text);
    forall i: nat ensures EscapeAt(digit, t, i).None? {
      ActingIsEscaped(digit, t, i);
    }
    assert SafePieces(digit, t, text) == seq(|text|, i requires 0 <= i < |text| => [text[i]]);
    FlattenChars(text);
  }

  // ----- The mentions that are left ------------------------------------------------------------

  /** A letter that is also read from a sign beyond ASCII. */
  function SignOf(c: char): (sign: Option<char>)
    ensures sign.Some? ==> FoldCase(sign.value) == FoldCase(c) && !IsWord(sign.value)
  {
    match FoldCase(c)
    case 'i' => Some('\U{0131}')
    case 's' => Some('\U{017F}')
    case 'k' => Some('\U{212A}')
    case _ => None
  }

  /** A mention that notifies nobody starts with a sign that is read as its handle's first letter. */
  lemma MentionIsBySign(s: string, j: nat, handle: string)
    requires handle != "" && IsWord(handle[0]) && MentionAt(s, j, handle) && !Notifies(s, j)
    ensures SignOf(handle[0]).Some?
  {
    assert s[j..][1..][0] == s[j + 1];
  }

  lemma SanitisedNotifiesNobody(digit: DigitClass, text: string, out: string, j: nat)
    requires out == StripNonProse(Sanitised(digit, text))
    ensures !Notifies(out, j)
  {
    if Acts(digit, out, j) {
      NothingActs(digit, text, out, j);
    }
  }

  predicate IsAccountName(handle: string) {
    handle != "" && IsWord(handle[0]) && forall c | c in handle :: IsWord(c) || c == '-'
  }

  /** The handle in small letters. */
  function Small(handle: string): (small: string)
    ensures |small| == |handle|
  {
    seq(|handle|, i requires 0 <= i < |handle| => FoldCase(handle[i]))
  }

  function BySign(handle: string): string
    requires handle != "" && SignOf(handle[0]).Some?
  {
    "@" + [SignOf(handle[0]).value] + Small(handle)[1..]
  }

  lemma BySignIsProse(digit: DigitClass, handle: string)
    requires IsAccountName(handle) && SignOf(handle[0]).Some?
    ensures StripNonProse(BySign(handle)) == BySign(handle)
    ensures forall i: nat :: !Acts(digit, BySign(handle), i)
  {
    var body := BySign(handle);
    forall i | 0 <= i < |body| ensures body[i] !in "\n`#<G" && (i > 0 ==> body[i] != '@') {
      if i >= 2 {
        assert handle[i - 1] in handle && body[i] == FoldCase(handle[i - 1]);
      }
    }
    OneLineIsProse(body);
  }

  lemma BySignIsMention(handle: string)
    requires IsAccountName(handle) && SignOf(handle[0]).Some?
    ensures MentionAt(BySign(handle), 0, handle)
  {
    var rest := BySign(handle)[0..][1..];
    assert rest == [SignOf(handle[0]).value] + Small(handle)[1..];
    forall i | 0 <= i < |handle| ensures FoldCase(rest[i]) == FoldCase(handle[i]) {
      assert FoldCase(FoldCase(handle[i])) == FoldCase(handle[i]);
    }
  }

  /**
   The sanitiser's `@` is before an ASCII letter or digit, and the detector reads without case: so some
   sanitised text still mentions an account exactly when its name starts with i, s or k.
   */
  lemma StillMentionsExactly(digit: DigitClass, handle: string)
    requires IsAccountName(handle)
    ensures (exists text :: HasMention(Sanitised(digit, text), handle)) <==> FoldCase(handle[0]) in "isk"
  {
    assert SignOf(handle[0]).Some? <==> FoldCase(handle[0]) in "isk";
    if SignOf(handle[0]).Some? {
      var body := BySign(handle);
      BySignIsProse(digit, handle);
      InertIsUnchanged(digit, body);
      BySignIsMention(handle);
      assert HasMention(Sanitised(digit, body), handle);
    }
    forall text | HasMention(Sanitised(digit, text), handle) ensures SignOf(handle[0]).Some? {
      var out := StripNonProse(Sanitised(digit, text));
      var j :| 0 <= j < |out| && MentionAt(out, j, handle);
      SanitisedNotifiesNobody(digit, text, out, j);
      MentionIsBySign(out, j, handle);
    }
  }

  // ----- What a reader sees --------------------------------------------------------------------

  /** The character reference of `c`, in decimal. */
  function Reference(c: char): string {
    "&#" + Classifier.Decimal(c as int) + ";"
  }

  /** What `neutralise` writes for a character shows that character: only an `@` is written as its reference. */
  lemma NeutralisedShowsTheSame(body: string, handle: string, i: nat)
    requires i < |body|
    ensures var piece := NeutralPieces(body, handle)[i];
      piece == [body[i]] || (body[i] == '@' && piece == Reference(body[i]))
  {
    var t := StripNonProse(body);
    StripKeepsOffsets(body);
    if i in FindMentions(t, 0, handle) {
      MentionsInRange(t, 0, handle);
      assert MentionAt(t, i, handle) && t[i] == '@';
      ReferenceOfAt();
    }
  }

  lemma ReferenceOfAt()
    ensures Reference('@') == AT_ENTITY
  {
    assert Classifier.Decimal(64) == Classifier.Decimal(6) + "4" && Classifier.Decimal(6) == "6";
  }
}
