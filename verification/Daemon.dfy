/** The poll, classify and enqueue loop of one repository: daemon.py. */
module Daemon {
  import opened Wrappers
  import opened Model
  import opened Numbers
  import opened Store
  import opened Queue
  import opened Classifier

  const PULL_REQUESTS := "pull_requests"
  const COMMENTS := "comments"

  /** What the classifier says of each item. */
  function Verdicts(rules: Rules, since: Time, items: seq<Item>): (vs: seq<Verdict>)
    ensures |vs| == |items| && forall i | 0 <= i < |vs| :: vs[i] == Decide(rules, since, items[i])
  {
    seq(|items|, i requires 0 <= i < |items| => Decide(rules, since, items[i]))
  }

  /** The queue once every accepted item was enqueued, in turn. */
  function EnqueuedAll(q: Model.Queue, verdicts: seq<Verdict>, now: Time): Model.Queue {
    if verdicts == [] then q
    else
      var n := |verdicts| - 1;
      var before := EnqueuedAll(q, verdicts[..n], now);
      if verdicts[n].Accepted? then Enqueued(before, verdicts[n].trigger, now) else before
  }

  /** The newest instant seen, or the watermark in force. */
  function Newest(since: Time, items: seq<Item>): Time {
    if items == [] then since else Max(Newest(since, items[..|items| - 1]), items[|items| - 1].at)
  }

  function InForce(marks: Watermarks, name: string, now: Time): Time {
    if name in marks then marks[name] else now
  }

  function Seeded(marks: Watermarks, name: string, now: Time): Watermarks {
    if name in marks then marks else marks[name := now]
  }

  /** What processing one changed payload leaves on the watermarks. */
  function MarkedBy(marks: Watermarks, name: string, items: seq<Item>, now: Time): Watermarks {
    Advanced(Seeded(marks, name, now), name, Newest(InForce(marks, name, now), items))
  }

  function Flat(batches: seq<seq<Item>>): seq<Item> {
    if batches == [] then [] else Flat(batches[..|batches| - 1]) + batches[|batches| - 1]
  }

  /** What a daemon's cycle reads and writes. */
  datatype Polled = Polled(queue: Model.Queue, marks: Watermarks, rules: Rules)

  /** One payload processed against the watermark called `name`. */
  function Processed(p: Polled, name: string, items: seq<Item>, now: Time): Polled {
    p.(queue := EnqueuedAll(p.queue, Verdicts(p.rules, InForce(p.marks, name, now), items), now),
       marks := MarkedBy(p.marks, name, items, now))
  }

  /** A pulls payload also says which pull requests are open, for the comments to be filtered by. */
  function PullsLeg(p: Polled, name: string, changed: Option<seq<Item>>, now: Time): Polled {
    if changed.None? then p
    else
      var open := set item | item in changed.value :: item.number;
      Processed(p, name, changed.value, now).(rules := p.rules.(openPulls := Some(open)))
  }

  function CommentsLeg(p: Polled, name: string, batches: seq<seq<Item>>, posted: set<nat>, now: Time): Polled {
    if batches == [] then p else Processed(p.(rules := p.rules.(posted := posted)), name, Flat(batches), now)
  }

  class Daemon {
    const repo: string
    const store: SqliteStore
    const queue: ReviewQueue
    var rules: Rules

    constructor (repo: string, store: SqliteStore, queue: ReviewQueue, allowed: set<int>, handle: string)
      requires queue.store == store
      ensures this.repo == repo && this.store == store && this.queue == queue && Valid()
      ensures rules == Rules(allowed, handle, None, {})
    {
      this.repo, this.store, this.queue := repo, store, queue;
      rules := Rules(allowed, handle, None, {});
    }

    predicate Valid() {
      queue.store == store
    }

    ghost function View(): Polled
      reads this`rules, store
    {
      Polled(store.queue, store.watermarks, rules)
    }

    function WatermarkName(stem: string): string {
      stem + ":" + repo
    }

    /** `_since`: the watermark in force, seeding an unset one to `now`. */
    method Since(stem: string, now: Time) returns (at: Time)
      modifies store`watermarks
      ensures store.watermarks == Seeded(old(store.watermarks), WatermarkName(stem), now)
      ensures at == InForce(old(store.watermarks), WatermarkName(stem), now)
    {
      var name := WatermarkName(stem);
      if name in store.watermarks {
        return store.watermarks[name];
      }
      at := store.AdvanceWatermark(name, now);
    }

    /** `seed_watermarks`: bound a fresh database to `now` before the first poll. */
    method SeedWatermarks(now: Time)
      modifies store`watermarks
      ensures var names := [WatermarkName(PULL_REQUESTS), WatermarkName(COMMENTS)];
        var adopted := Adopted(old(store.watermarks), [PULL_REQUESTS, COMMENTS], names);
        store.watermarks == Seeded(Seeded(adopted, names[0], now), names[1], now)
    {
      var names := [WatermarkName(PULL_REQUESTS), WatermarkName(COMMENTS)];
      Qualified(PULL_REQUESTS);
      Qualified(COMMENTS);
      store.AdoptLegacyWatermarks([PULL_REQUESTS, COMMENTS], names);
      var _ := Since(PULL_REQUESTS, now);
      var _ := Since(COMMENTS, now);
    }

    lemma Qualified(stem: string)
      ensures IsQualified(WatermarkName(stem))
    {
      assert WatermarkName(stem)[|stem|] == ':';
    }

    /** `_enqueue` */
    method Offer(item: Item, since: Time, now: Time) returns (added: nat)
      requires Valid()
      modifies store`queue
      ensures var verdict := Decide(rules, since, item);
        && store.queue == (if verdict.Accepted? then Enqueued(old(store.queue), verdict.trigger, now)
                           else old(store.queue))
        && added == (if verdict.Accepted? && verdict.trigger.key !in old(store.queue) then 1 else 0)
    {
      var verdict := Decide(rules, since, item);
      added := 0;
      if verdict.Accepted? {
        var isNew := queue.Enqueue(verdict.trigger, now);
        added := if isNew then 1 else 0;
      }
    }

    /** Classify and enqueue one payload, keeping the newest instant in it. */
    method Sweep(items: seq<Item>, since: Time, now: Time, newest: Time) returns (newest': Time, enqueued: nat)
      requires Valid()
      modifies store`queue
      ensures store.queue == EnqueuedAll(old(store.queue), Verdicts(rules, since, items), now)
      ensures newest' == Newest(newest, items)
      ensures |store.queue| == |old(store.queue)| + enqueued
    {
      newest', enqueued := newest, 0;
      ghost var verdicts := Verdicts(rules, since, items);
      for i := 0 to |items|
        invariant store.queue == EnqueuedAll(old(store.queue), verdicts[..i], now)
        invariant newest' == Newest(newest, items[..i])
        invariant |store.queue| == |old(store.queue)| + enqueued
      {
        assert items[..i + 1][..i] == items[..i] && verdicts[..i + 1][..i] == verdicts[..i];
        newest' := Max(newest', items[i].at);
        var added := Offer(items[i], since, now);
        enqueued := enqueued + added;
      }
      assert items[..|items|] == items && verdicts[..|items|] == verdicts;
    }

    /** `_pull_requests`: nothing changed, or a payload; which pull requests are open is remembered. */
    method PullRequests(changed: Option<seq<Item>>, now: Time) returns (enqueued: nat)
      requires Valid()
      modifies store`queue, store`watermarks, `rules
      ensures View() == PullsLeg(old(View()), WatermarkName(PULL_REQUESTS), changed, now)
    {
      if changed.None? {
        return 0;
      }
      var items := changed.value;
      var since := Since(PULL_REQUESTS, now);
      var newest;
      newest, enqueued := Sweep(items, since, now, since);
      rules := rules.(openPulls := Some(set item | item in items :: item.number));
      var _ := store.AdvanceWatermark(WatermarkName(PULL_REQUESTS), newest);
    }

    /** `_comments`: both changed payloads against one watermark. */
    method Comments(batches: seq<seq<Item>>, posted: set<nat>, now: Time) returns (enqueued: nat)
      requires Valid()
      modifies store`queue, store`watermarks, `rules
      ensures View() == CommentsLeg(old(View()), WatermarkName(COMMENTS), batches, posted, now)
    {
      enqueued := 0;
      if batches == [] {
        return;
      }
      var since := Since(COMMENTS, now);
      rules := rules.(posted := posted);
      var newest := since;
      for i := 0 to |batches|
        invariant rules == old(rules).(posted := posted)
        invariant store.watermarks == Seeded(old(store.watermarks), WatermarkName(COMMENTS), now)
        invariant store.queue == EnqueuedAll(old(store.queue), Verdicts(rules, since, Flat(batches[..i])), now)
        invariant newest == Newest(since, Flat(batches[..i]))
      {
        assert batches[..i + 1][..i] == batches[..i];
        VerdictsInParts(rules, since, Flat(batches[..i]), batches[i]);
        EnqueuedInParts(old(store.queue), Verdicts(rules, since, Flat(batches[..i])),
                        Verdicts(rules, since, batches[i]), now);
        NewestInParts(since, Flat(batches[..i]), batches[i]);
        var added;
        newest, added := Sweep(batches[i], since, now, newest);
        enqueued := enqueued + added;
      }
      assert batches[..|batches|] == batches;
      var _ := store.AdvanceWatermark(WatermarkName(COMMENTS), newest);
    }

    /** `_process`: the pulls leg first, because it refreshes what the comments leg filters on. */
    method Process(pulls: Option<seq<Item>>, comments: seq<seq<Item>>, posted: set<nat>, now: Time)
      returns (enqueued: nat)
      requires Valid()
      modifies store`queue, store`watermarks, `rules
      ensures View() == CommentsLeg(PullsLeg(old(View()), WatermarkName(PULL_REQUESTS), pulls, now),
                                    WatermarkName(COMMENTS), comments, posted, now)
    {
      var fromPulls := PullRequests(pulls, now);
      var fromComments := Comments(comments, posted, now);
      enqueued := fromPulls + fromComments;
    }
  }

  lemma VerdictsInParts(rules: Rules, since: Time, a: seq<Item>, b: seq<Item>)
    ensures Verdicts(rules, since, a + b) == Verdicts(rules, since, a) + Verdicts(rules, since, b)
  {
    PartsOf(Verdicts(rules, since, a + b), Verdicts(rules, since, a), Verdicts(rules, since, b), a, b,
            item => Decide(rules, since, item));
  }

  /** What is made of each item of two payloads in turn is made of each item of both. */
  lemma PartsOf(all: seq<Verdict>, first: seq<Verdict>, second: seq<Verdict>, a: seq<Item>, b: seq<Item>,
                verdict: Item -> Verdict)
    requires |all| == |a + b| && |first| == |a| && |second| == |b|
    requires forall i | 0 <= i < |all| :: all[i] == verdict((a + b)[i])
    requires forall i | 0 <= i < |first| :: first[i] == verdict(a[i])
    requires forall i | 0 <= i < |second| :: second[i] == verdict(b[i])
    ensures all == first + second
  {
  }

  lemma {:induction false} EnqueuedInParts(q: Model.Queue, a: seq<Verdict>, b: seq<Verdict>, now: Time)
    ensures EnqueuedAll(q, a + b, now) == EnqueuedAll(EnqueuedAll(q, a, now), b, now)
    decreases |b|
  {
    if b == [] {
      assert a + b == a;
    } else {
      var n := |b| - 1;
      EnqueuedInParts(q, a, b[..n], now);
      assert (a + b)[..|a + b| - 1] == a + b[..n];
    }
  }

  lemma {:induction false} NewestInParts(since: Time, a: seq<Item>, b: seq<Item>)
    ensures Newest(since, a + b) == Newest(Newest(since, a), b)
    decreases |b|
  {
    if b == [] {
      assert a + b == a;
    } else {
      NewestInParts(since, a, b[..|b| - 1]);
      assert (a + b)[..|a + b| - 1] == a + b[..|b| - 1];
    }
  }
}
