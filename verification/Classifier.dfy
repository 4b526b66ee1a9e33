/** Whether a polled event may start a review: triggers/classifier.py. */
module Classifier {
  import opened Wrappers
  import opened Model
  import Mention

  datatype Actor = Actor(id: int, isBot: bool)

  /** `asks` is what the mention's verb says it asks for. */
  datatype Item =
    | Pull(repo: string, number: nat, author: Actor, at: Time, sha: string, isDraft: bool)
    | Comment(repo: string, number: nat, author: Actor, at: Time, id: nat, body: string,
              headSha: Option<string>, asks: Command)

  datatype Verdict =
    | Accepted(trigger: Trigger)
    | NotFresh | BotAuthor | Draft | NotAllowlisted | PullNotOpen | SelfComment | NoMention

  function Decimal(n: nat): string {
    if n < 10 then ['0' + n as char] else Decimal(n / 10) + ['0' + (n % 10) as char]
  }

  function PullKey(repo: string, number: nat, sha: string): string {
    "pr_opened:" + repo + ":" + Decimal(number) + ":" + sha
  }

  function MentionKey(repo: string, number: nat, id: nat): string {
    "mention:" + repo + ":" + Decimal(number) + ":" + Decimal(id)
  }

  /** What eligibility depends on besides the item and the watermark. */
  datatype Rules = Rules(allowed: set<int>, handle: string, openPulls: Option<set<nat>>, posted: set<nat>)

  /** `_decide_pull_request` and `_decide_comment`. The comparison with the watermark is strict. */
  function Decide(rules: Rules, since: Time, item: Item): Verdict {
    if item.at < since then NotFresh
    else match item
      case Pull(repo, number, author, _, sha, isDraft) =>
        if author.isBot then BotAuthor
        else if isDraft then Draft
        else if author.id !in rules.allowed then NotAllowlisted
        else Accepted(Trigger(PrOpened, repo, number, Some(sha), author.id, PullKey(repo, number, sha), Review))
      case Comment(repo, number, author, _, id, body, headSha, asks) =>
        if rules.openPulls.Some? && number !in rules.openPulls.value then PullNotOpen
        else if author.isBot then BotAuthor
        else if id in rules.posted then SelfComment
        else if !Mention.HasMention(body, rules.handle) then NoMention
        else if author.id !in rules.allowed then NotAllowlisted
        else Accepted(Trigger(Kind.Mention, repo, number, headSha, author.id, MentionKey(repo, number, id), asks))
  }

  /** The agent's own comment starts no review, whichever account posted it and whatever it quotes. */
  lemma OwnCommentStartsNoReview(rules: Rules, since: Time, comment: Item, text: string)
    requires comment.Comment? && comment.body == Mention.Neutralised(text, rules.handle)
    requires Mention.GoodHandle(rules.handle)
    ensures !Decide(rules, since, comment).Accepted?
  {
    Mention.NeutralisedHasNoMention(text, rules.handle);
  }

  /** Freely of the order of the questions: fresh, by an allowed person, and asking for something new. */
  lemma AcceptedExactlyWhen(rules: Rules, since: Time, item: Item)
    ensures Decide(rules, since, item).Accepted? <==>
      && item.at >= since && !item.author.isBot && item.author.id in rules.allowed
      && match item
         case Pull(_, _, _, _, _, isDraft) => !isDraft
         case Comment(_, number, _, _, id, body, _, _) =>
           && (rules.openPulls.Some? ==> number in rules.openPulls.value)
           && id !in rules.posted && Mention.HasMention(body, rules.handle)
    ensures Decide(rules, since, item).Accepted? ==>
      var t := Decide(rules, since, item).trigger;
      && t.repo == item.repo && t.pr == item.number && t.actor == item.author.id
      && t.kind == (if item.Pull? then PrOpened else Kind.Mention) && t.key == KeyOf(item)
      && t.headSha == (if item.Pull? then Some(item.sha) else item.headSha)
      && t.command == (if item.Pull? then Review else item.asks)
  {
  }

  /** A later watermark refuses more and accepts nothing else: the decision is otherwise the same. */
  lemma FreshnessIsMonotone(rules: Rules, since: Time, later: Time, item: Item)
    requires since <= later
    ensures Decide(rules, later, item) == if item.at < later then NotFresh else Decide(rules, since, item)
  {
  }

  /** The key an accepted item gets. */
  function KeyOf(item: Item): string {
    match item
    case Pull(repo, number, _, _, sha, _) => PullKey(repo, number, sha)
    case Comment(repo, number, _, _, id, _, _, _) => MentionKey(repo, number, id)
  }

  lemma FirstFieldTells(a: string, rest: string, b: string, rest': string)
    requires ':' !in a && ':' !in b && a + ":" + rest == b + ":" + rest'
    ensures a == b
  {
    var s := a + ":" + rest;
    assert forall i | 0 <= i < |a| :: s[i] == a[i] && a[i] in a;
    assert forall i | 0 <= i < |b| :: s[i] == b[i] && b[i] in b;
    assert s[|a|] == ':' && s[|b|] == ':';
    assert a == s[..|a|] && b == s[..|b|];
  }

  function AfterRepository(item: Item): string {
    match item
    case Pull(_, number, _, _, sha, _) => Decimal(number) + (":" + sha)
    case Comment(_, number, _, _, id, _, _, _) => Decimal(number) + (":" + Decimal(id))
  }

  lemma Regroup(kind: string, repo: string, number: string, last: string)
    ensures kind + repo + ":" + number + ":" + last == kind + (repo + ":" + (number + (":" + last)))
  {
  }

  lemma RepositoryOfKey(kind: string, item: Item)
    requires kind == if item.Pull? then "pr_opened:" else "mention:"
    ensures KeyOf(item) == kind + (item.repo + ":" + AfterRepository(item))
  {
    Regroup(kind, item.repo, Decimal(item.number), if item.Pull? then item.sha else Decimal(item.id));
  }

  lemma DropKind(kind: string, a: string, b: string)
    requires kind + a == kind + b
    ensures a == b
  {
    assert a == (kind + a)[|kind|..] && b == (kind + b)[|kind|..];
  }

  /** Classified items and publications are different rows of the queue. */
  lemma EventsAreNotPublications(rules: Rules, since: Time, item: Item, key: string)
    requires Decide(rules, since, item).Accepted?
    ensures Decide(rules, since, item).trigger.key != "publish:" + key
    ensures Decide(rules, since, item).trigger.kind != Publish
  {
    var kind := if item.Pull? then "pr_opened:" else "mention:";
    RepositoryOfKey(kind, item);
    DifferAt(kind, item.repo + ":" + AfterRepository(item), "publish:", key, if item.Pull? then 1 else 0);
  }

  lemma DifferAt(a: string, rest: string, b: string, rest': string, i: nat)
    requires i < |a| && i < |b| && a[i] != b[i]
    ensures a + rest != b + rest'
  {
    assert (a + rest)[i] == a[i] && (b + rest')[i] == b[i];
  }

  /** The last digit, and the number without it, make the number. */
  lemma {:induction false} DecimalTells(m: nat, n: nat)
    requires Decimal(m) == Decimal(n)
    ensures m == n
  {
    var a, b := Decimal(m), Decimal(n);
    DecimalLast(m);
    DecimalLast(n);
    if m >= 10 && n >= 10 {
      assert a[..|a| - 1] == Decimal(m / 10) && b[..|b| - 1] == Decimal(n / 10);
      DecimalTells(m / 10, n / 10);
    }
  }

  lemma DecimalLast(n: nat)
    ensures |Decimal(n)| >= 1 && Decimal(n)[|Decimal(n)| - 1] == '0' + (n % 10) as char
    ensures |Decimal(n)| == 1 <==> n < 10
  {
    if n >= 10 {
      assert |Decimal(n / 10)| >= 1;
    }
  }

  lemma {:induction false} DecimalHasNoColon(n: nat)
    ensures ':' !in Decimal(n)
  {
    if n >= 10 {
      DecimalHasNoColon(n / 10);
    }
  }

  /** The same event: the same head of the same pull request, or the same comment on it. */
  predicate SameEvent(a: Item, b: Item) {
    && a.repo == b.repo && a.number == b.number && a.Pull? == b.Pull?
    && (if a.Pull? then a.sha == b.sha else a.id == b.id)
  }

  /** Within one repository the fields after it tell the rest. */
  lemma AfterRepositoryTells(a: Item, b: Item)
    requires a.Pull? == b.Pull? && AfterRepository(a) == AfterRepository(b)
    ensures a.number == b.number && if a.Pull? then a.sha == b.sha else a.id == b.id
  {
    var x, y := if a.Pull? then a.sha else Decimal(a.id), if b.Pull? then b.sha else Decimal(b.id);
    var m, n := Decimal(a.number), Decimal(b.number);
    DecimalHasNoColon(a.number);
    DecimalHasNoColon(b.number);
    Colons(m, x);
    Colons(n, y);
    FirstFieldTells(m, x, n, y);
    DecimalTells(a.number, b.number);
    DropKind(m + ":", x, y);
    if a.Comment? {
      DecimalTells(a.id, b.id);
    }
  }

  lemma Colons(a: string, b: string)
    ensures a + (":" + b) == a + ":" + b
  {
  }

  /** A key names its event and no other, as long as no repository has a colon in its name. */
  lemma KeyNamesTheEvent(a: Item, b: Item)
    requires ':' !in a.repo && ':' !in b.repo
    ensures KeyOf(a) == KeyOf(b) <==> SameEvent(a, b)
  {
    if KeyOf(a) == KeyOf(b) {
      KeysTellKinds(a, b);
      var kind := if a.Pull? then "pr_opened:" else "mention:";
      RepositoryOfKey(kind, a);
      RepositoryOfKey(kind, b);
      DropKind(kind, a.repo + ":" + AfterRepository(a), b.repo + ":" + AfterRepository(b));
      FirstFieldTells(a.repo, AfterRepository(a), b.repo, AfterRepository(b));
      DropKind(a.repo + ":", AfterRepository(a), AfterRepository(b));
      AfterRepositoryTells(a, b);
    }
  }

  lemma KeysTellKinds(a: Item, b: Item)
    requires KeyOf(a) == KeyOf(b)
    ensures a.Pull? == b.Pull?
  {
    if a.Pull? != b.Pull? {
      var p, c := if a.Pull? then a else b, if a.Pull? then b else a;
      RepositoryOfKey("pr_opened:", p);
      RepositoryOfKey("mention:", c);
      DifferAt("pr_opened:", p.repo + ":" + AfterRepository(p), "mention:", c.repo + ":" + AfterRepository(c), 0);
    }
  }

  /** A pull request and a comment, or items of two repositories, never have the same key. */
  lemma KeysTellItemsApart(a: Item, b: Item)
    requires a.Pull? != b.Pull? || (a.repo != b.repo && ':' !in a.repo && ':' !in b.repo)
    ensures KeyOf(a) != KeyOf(b)
  {
    if KeyOf(a) == KeyOf(b) {
      KeysTellKinds(a, b);
      KeyNamesTheEvent(a, b);
    }
  }

  /** Two events of one repository have keys of their own, whatever the repository is called. */
  lemma EventsOfOneRepositoryAreApart(a: Item, b: Item)
    requires a.repo == b.repo
    ensures KeyOf(a) == KeyOf(b) <==> SameEvent(a, b)
  {
    if KeyOf(a) == KeyOf(b) {
      KeysTellKinds(a, b);
      var kind := if a.Pull? then "pr_opened:" else "mention:";
      RepositoryOfKey(kind, a);
      RepositoryOfKey(kind, b);
      DropKind(kind, a.repo + ":" + AfterRepository(a), b.repo + ":" + AfterRepository(b));
      DropKind(a.repo + ":", AfterRepository(a), AfterRepository(b));
      AfterRepositoryTells(a, b);
    }
  }
}
