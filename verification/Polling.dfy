/** What the watermarks promise over any sequence of poll cycles, of any repositories, with crashes. */
module Polling {
  import opened Wrappers
  import opened Model
  import opened Store
  import opened Classifier
  import opened Daemon
  import Mention

  /**
   One payload processed against one watermark. A cycle that crashes has enqueued only the first
   `reached` items, and has not advanced the watermark.
   */
  datatype Cycle = Cycle(name: string, rules: Rules, items: seq<Item>, now: Time, reached: Option<nat>)

  datatype State = State(queue: Model.Queue, marks: Watermarks)

  function Seen(c: Cycle): seq<Item> {
    if c.reached.Some? && c.reached.value <= |c.items| then c.items[..c.reached.value] else c.items
  }

  function Since(s: State, c: Cycle): Time {
    InForce(s.marks, c.name, c.now)
  }

  function AfterCycle(s: State, c: Cycle): State {
    State(EnqueuedAll(s.queue, Verdicts(c.rules, Since(s, c), Seen(c)), c.now),
          if c.reached.Some? then Seeded(s.marks, c.name, c.now) else MarkedBy(s.marks, c.name, c.items, c.now))
  }

  function AfterCycles(s: State, cycles: seq<Cycle>): State {
    if cycles == [] then s else AfterCycle(AfterCycles(s, cycles[..|cycles| - 1]), cycles[|cycles| - 1])
  }

  /** A cycle that is not cut short is what the daemon's legs do. */
  lemma CompleteCycleIsProcessed(p: Polled, c: Cycle)
    requires c.reached.None? && c.rules == p.rules
    ensures var p' := Processed(p, c.name, c.items, c.now);
      AfterCycle(State(p.queue, p.marks), c) == State(p'.queue, p'.marks)
  {
  }

  // ----- One payload ---------------------------------------------------------------------------

  predicate Eligible(rules: Rules, since: Time, item: Item) {
    Decide(rules, since, item).Accepted?
  }

  predicate HasRow(q: Model.Queue, v: Verdict) {
    v.Accepted? ==> v.trigger.key in q
  }

  lemma {:induction false} RowStays(q: Model.Queue, verdicts: seq<Verdict>, now: Time, k: string)
    requires k in q
    ensures k in EnqueuedAll(q, verdicts, now) && EnqueuedAll(q, verdicts, now)[k] == q[k]
  {
    if verdicts != [] {
      RowStays(q, verdicts[..|verdicts| - 1], now, k);
    }
  }

  /** Every accepted item of a payload that was reached has its row. */
  lemma {:induction false} AcceptedIsEnqueued(q: Model.Queue, verdicts: seq<Verdict>, now: Time, i: nat)
    requires i < |verdicts|
    ensures HasRow(EnqueuedAll(q, verdicts, now), verdicts[i])
  {
    if i < |verdicts| - 1 {
      AcceptedIsEnqueued(q, verdicts[..|verdicts| - 1], now, i);
    }
  }

  /** Every new row is an accepted item's. */
  lemma {:induction false} NewRowIsAccepted(q: Model.Queue, verdicts: seq<Verdict>, now: Time, k: string)
    returns (i: nat)
    requires k in EnqueuedAll(q, verdicts, now) && k !in q
    ensures i < |verdicts| && verdicts[i].Accepted? && verdicts[i].trigger.key == k
    ensures verdicts[i].trigger == EnqueuedAll(q, verdicts, now)[k].trigger
  {
    var n := |verdicts| - 1;
    if k in EnqueuedAll(q, verdicts[..n], now) {
      i := NewRowIsAccepted(q, verdicts[..n], now, k);
    } else {
      i := n;
    }
  }

  lemma {:induction false} NewestIsMaximum(since: Time, items: seq<Item>)
    ensures Newest(since, items) >= since
    ensures forall i | 0 <= i < |items| :: items[i].at <= Newest(since, items)
    ensures Newest(since, items) == since || exists i :: 0 <= i < |items| && items[i].at == Newest(since, items)
  {
    if items != [] {
      var n := |items| - 1;
      NewestIsMaximum(since, items[..n]);
      if Newest(since, items) != since && items[n].at != Newest(since, items) {
        var i :| 0 <= i < n && items[..n][i].at == Newest(since, items[..n]);
        assert items[i].at == Newest(since, items);
      }
    }
  }

  // ----- Over cycles ---------------------------------------------------------------------------

  /** An instant that a cycle of this watermark saw in a payload it processed to the end. */
  predicate Saw(c: Cycle, name: string, at: Time) {
    c.name == name && c.reached.None? && exists i | 0 <= i < |c.items| :: c.items[i].at == at
  }

  /** What the watermark starts from: what is stored, or the clock of the first cycle that finds it unset. */
  function Seed(s: State, cycles: seq<Cycle>, name: string): Option<Time> {
    if cycles == [] then (if name in s.marks then Some(s.marks[name]) else None)
    else
      var n := |cycles| - 1;
      var before := Seed(s, cycles[..n], name);
      if before.None? && cycles[n].name == name then Some(cycles[n].now) else before
  }

  lemma CycleMovesMark(s: State, c: Cycle, name: string)
    ensures name in AfterCycle(s, c).marks <==> name in s.marks || c.name == name
    ensures c.name != name && name in s.marks ==> AfterCycle(s, c).marks[name] == s.marks[name]
    ensures c.name == name ==>
      var mark := AfterCycle(s, c).marks[name];
      && Since(s, c) <= mark
      && (mark == Since(s, c) || Saw(c, name, mark))
      && forall at | Saw(c, name, at) :: at <= mark
  {
    NewestIsMaximum(Since(s, c), c.items);
  }

  /** `mark` is the seed or an instant seen, and no earlier than either. */
  ghost predicate IsHighest(mark: Time, seed: Time, cycles: seq<Cycle>, name: string) {
    && seed <= mark
    && (mark == seed || exists i :: 0 <= i < |cycles| && Saw(cycles[i], name, mark))
    && forall i, at | 0 <= i < |cycles| && Saw(cycles[i], name, at) :: at <= mark
  }

  lemma OneMoreHighest(mark: Time, mark': Time, seed: Time, cycles: seq<Cycle>, last: Cycle, name: string)
    requires cycles != [] && last == cycles[|cycles| - 1] && mark <= mark'
    requires IsHighest(mark, seed, cycles[..|cycles| - 1], name)
    requires mark' == mark || Saw(last, name, mark')
    requires forall at | Saw(last, name, at) :: at <= mark'
    ensures IsHighest(mark', seed, cycles, name)
  {
    var n := |cycles| - 1;
    forall i, at | 0 <= i < |cycles| && Saw(cycles[i], name, at) ensures at <= mark' {
      if i < n {
        assert Saw(cycles[..n][i], name, at);
      }
    }
    if mark' == mark && mark != seed {
      var i :| 0 <= i < n && Saw(cycles[..n][i], name, mark);
      assert Saw(cycles[i], name, mark);
    }
  }

  /**
   Each watermark is exactly the highest of its seed and of the instants its cycles saw in payloads
   they processed to the end: it never moves backwards, never to a clock, and never past what was seen.
   */
  lemma {:induction false} WatermarkMovesForward(s: State, cycles: seq<Cycle>, name: string)
    ensures name in s.marks ==> Seed(s, cycles, name) == Some(s.marks[name])
    ensures name in AfterCycles(s, cycles).marks <==> Seed(s, cycles, name).Some?
    ensures Seed(s, cycles, name).Some? ==>
      IsHighest(AfterCycles(s, cycles).marks[name], Seed(s, cycles, name).value, cycles, name)
  {
    if cycles != [] {
      var n := |cycles| - 1;
      var before, c := AfterCycles(s, cycles[..n]), cycles[n];
      WatermarkMovesForward(s, cycles[..n], name);
      CycleMovesMark(before, c, name);
      if name in before.marks {
        OneMoreHighest(before.marks[name], AfterCycle(before, c).marks[name], Seed(s, cycles, name).value, cycles, c,
                       name);
      } else if c.name == name {
        NoneSeenBefore(s, cycles[..n], name);
        OneMoreHighest(c.now, AfterCycle(before, c).marks[name], c.now, cycles, c, name);
      }
    }
  }

  /** A watermark without a seed has met none of its cycles. */
  lemma {:induction false} NoneSeenBefore(s: State, cycles: seq<Cycle>, name: string)
    requires Seed(s, cycles, name).None?
    ensures forall i | 0 <= i < |cycles| :: cycles[i].name != name
  {
    if cycles != [] {
      var n := |cycles| - 1;
      NoneSeenBefore(s, cycles[..n], name);
      assert forall i | 0 <= i < n :: cycles[i] == cycles[..n][i];
    }
  }

  /** The trigger is that of one of the cycle's items, no older than `seed`. */
  predicate EnqueuedBy(c: Cycle, seed: Time, t: Trigger) {
    exists i | 0 <= i < |c.items| :: c.items[i].at >= seed && Decide(c.rules, seed, c.items[i]) == Accepted(t)
  }

  /** The trigger is one of the cycles', from an item no older than the seed of that cycle's watermark. */
  ghost predicate EnqueuedFresh(s: State, cycles: seq<Cycle>, t: Trigger) {
    exists i :: 0 <= i < |cycles| && Seed(s, cycles, cycles[i].name).Some?
      && EnqueuedBy(cycles[i], Seed(s, cycles, cycles[i].name).value, t)
  }

  /**
   Nothing older than its seed is enqueued: over any cycles of any watermarks, every row that appears holds
   the trigger of an accepted item no older than the seed of its own watermark.
   */
  lemma {:induction false} NothingOlderThanSeed(s: State, cycles: seq<Cycle>, k: string)
    requires k in AfterCycles(s, cycles).queue && k !in s.queue
    ensures EnqueuedFresh(s, cycles, AfterCycles(s, cycles).queue[k].trigger)
  {
    var n := |cycles| - 1;
    var before, c, t := AfterCycles(s, cycles[..n]), cycles[n], AfterCycles(s, cycles).queue[k].trigger;
    if k in before.queue {
      NothingOlderThanSeed(s, cycles[..n], k);
      RowStays(before.queue, Verdicts(c.rules, Since(before, c), Seen(c)), c.now, k);
      var i :| 0 <= i < n && Seed(s, cycles[..n], cycles[..n][i].name).Some?
        && EnqueuedBy(cycles[..n][i], Seed(s, cycles[..n], cycles[..n][i].name).value, t);
      assert EnqueuedBy(cycles[i], Seed(s, cycles, cycles[i].name).value, t);
    } else {
      WatermarkMovesForward(s, cycles[..n], c.name);
      var seed := Seed(s, cycles, c.name).value;
      var i := NewRowIsAccepted(before.queue, Verdicts(c.rules, Since(before, c), Seen(c)), c.now, k);
      assert c.items[i] == Seen(c)[i] && seed <= Since(before, c);
      FreshnessIsMonotone(c.rules, seed, Since(before, c), c.items[i]);
      assert EnqueuedBy(c, seed, t);
    }
  }

  lemma {:induction false} RowStaysOverCycles(s: State, cycles: seq<Cycle>, k: string)
    requires k in s.queue
    ensures k in AfterCycles(s, cycles).queue && AfterCycles(s, cycles).queue[k] == s.queue[k]
  {
    if cycles != [] {
      var n := |cycles| - 1;
      RowStaysOverCycles(s, cycles[..n], k);
      var before, c := AfterCycles(s, cycles[..n]), cycles[n];
      RowStays(before.queue, Verdicts(c.rules, Since(before, c), Seen(c)), c.now, k);
    }
  }

  /**
   Every eligible item of a processed payload, no older than the watermark in force, has its one row
   from then on: neither the boundary second nor a later cycle can lose it.
   */
  lemma EligibleItemsAreNeverLost(s: State, c: Cycle, later: seq<Cycle>, i: nat)
    requires c.reached.None? && i < |c.items| && Eligible(c.rules, Since(s, c), c.items[i])
    ensures Decide(c.rules, Since(s, c), c.items[i]).trigger.key in AfterCycles(AfterCycle(s, c), later).queue
  {
    AcceptedIsEnqueued(s.queue, Verdicts(c.rules, Since(s, c), c.items), c.now, i);
    RowStaysOverCycles(AfterCycle(s, c), later, Decide(c.rules, Since(s, c), c.items[i]).trigger.key);
  }

  lemma AcceptedKey(rules: Rules, since: Time, item: Item)
    requires Decide(rules, since, item).Accepted?
    ensures Decide(rules, since, item).trigger.key == KeyOf(item)
  {
  }

  /** Two events of one payload have a row each: neither is taken for the other, now or later. */
  lemma EventsHaveTheirOwnRows(s: State, c: Cycle, later: seq<Cycle>, i: nat, j: nat)
    requires c.reached.None? && i < |c.items| && j < |c.items|
    requires Eligible(c.rules, Since(s, c), c.items[i]) && Eligible(c.rules, Since(s, c), c.items[j])
    requires c.items[i].repo == c.items[j].repo && !SameEvent(c.items[i], c.items[j])
    ensures var q := AfterCycles(AfterCycle(s, c), later).queue;
      KeyOf(c.items[i]) in q && KeyOf(c.items[j]) in q && KeyOf(c.items[i]) != KeyOf(c.items[j])
  {
    EligibleItemsAreNeverLost(s, c, later, i);
    EligibleItemsAreNeverLost(s, c, later, j);
    AcceptedKey(c.rules, Since(s, c), c.items[i]);
    AcceptedKey(c.rules, Since(s, c), c.items[j]);
    EventsOfOneRepositoryAreApart(c.items[i], c.items[j]);
  }

  predicate NoColons(items: seq<Item>) {
    forall i | 0 <= i < |items| :: ':' !in items[i].repo
  }

  /** The row that an item's key names, if it is new, was made for the very event the item is of. */
  lemma RowIsItsEvents(s: State, cycles: seq<Cycle>, item: Item) returns (i: nat, j: nat)
    requires KeyOf(item) in AfterCycles(s, cycles).queue && KeyOf(item) !in s.queue && ':' !in item.repo
    requires forall i | 0 <= i < |cycles| :: NoColons(cycles[i].items)
    ensures i < |cycles| && j < |cycles[i].items| && SameEvent(cycles[i].items[j], item)
    ensures var row := AfterCycles(s, cycles).queue[KeyOf(item)];
      && row.trigger.repo == item.repo && row.trigger.pr == item.number && row.trigger.key == KeyOf(item)
      && (row.trigger.kind == PrOpened <==> item.Pull?)
  {
    NothingOlderThanSeed(s, cycles, KeyOf(item));
    var t := AfterCycles(s, cycles).queue[KeyOf(item)].trigger;
    RowIsKeyed(s, cycles, KeyOf(item));
    i :| 0 <= i < |cycles| && Seed(s, cycles, cycles[i].name).Some?
      && EnqueuedBy(cycles[i], Seed(s, cycles, cycles[i].name).value, t);
    var seed := Seed(s, cycles, cycles[i].name).value;
    j :| 0 <= j < |cycles[i].items| && Decide(cycles[i].rules, seed, cycles[i].items[j]) == Accepted(t);
    AcceptedKey(cycles[i].rules, seed, cycles[i].items[j]);
    KeyNamesTheEvent(cycles[i].items[j], item);
    AcceptedExactlyWhen(cycles[i].rules, seed, cycles[i].items[j]);
  }

  lemma {:induction false} RowsAreKeyed(q: Model.Queue, verdicts: seq<Verdict>, now: Time, k: string)
    requires k in EnqueuedAll(q, verdicts, now) && k !in q
    ensures EnqueuedAll(q, verdicts, now)[k].trigger.key == k
  {
    var i := NewRowIsAccepted(q, verdicts, now, k);
  }

  lemma {:induction false} RowIsKeyed(s: State, cycles: seq<Cycle>, k: string)
    requires k in AfterCycles(s, cycles).queue && k !in s.queue
    ensures AfterCycles(s, cycles).queue[k].trigger.key == k
  {
    var n := |cycles| - 1;
    var before, c := AfterCycles(s, cycles[..n]), cycles[n];
    if k in before.queue {
      RowIsKeyed(s, cycles[..n], k);
      RowStays(before.queue, Verdicts(c.rules, Since(before, c), Seen(c)), c.now, k);
    } else {
      RowsAreKeyed(before.queue, Verdicts(c.rules, Since(before, c), Seen(c)), c.now, k);
    }
  }

  // ----- Replaying a crashed cycle -------------------------------------------------------------

  lemma {:induction false} EnqueuedAgain(q: Model.Queue, verdicts: seq<Verdict>, now: Time)
    requires forall i | 0 <= i < |verdicts| :: HasRow(q, verdicts[i])
    ensures EnqueuedAll(q, verdicts, now) == q
  {
    if verdicts != [] {
      EnqueuedAgain(q, verdicts[..|verdicts| - 1], now);
    }
  }

  /** The same rows for the same triggers; only the rows' own clocks and order may differ. */
  predicate SameTriggers(q: Model.Queue, q': Model.Queue) {
    q.Keys == q'.Keys && forall k | k in q :: q[k].trigger == q'[k].trigger
  }

  lemma {:induction false} EnqueuedAtAnotherTime(q: Model.Queue, q': Model.Queue, verdicts: seq<Verdict>, now: Time,
                                                 now': Time)
    requires SameTriggers(q, q')
    ensures SameTriggers(EnqueuedAll(q, verdicts, now), EnqueuedAll(q', verdicts, now'))
  {
    if verdicts != [] {
      EnqueuedAtAnotherTime(q, q', verdicts[..|verdicts| - 1], now, now');
    }
  }

  /** Enqueuing a payload after a part of it is enqueuing the payload. */
  lemma EnqueuedAfterPart(q: Model.Queue, verdicts: seq<Verdict>, n: nat, now: Time)
    requires n <= |verdicts|
    ensures EnqueuedAll(EnqueuedAll(q, verdicts[..n], now), verdicts, now) == EnqueuedAll(q, verdicts, now)
  {
    var part, rest := verdicts[..n], verdicts[n..];
    var q' := EnqueuedAll(q, part, now);
    assert verdicts == part + rest;
    forall i | 0 <= i < n ensures HasRow(q', part[i]) {
      AcceptedIsEnqueued(q, part, now, i);
    }
    EnqueuedAgain(q', part, now);
    EnqueuedInParts(q', part, rest, now);
    EnqueuedInParts(q, part, rest, now);
  }

  /** None of the accepted items has this key. */
  predicate Without(verdicts: seq<Verdict>, key: string) {
    forall i | 0 <= i < |verdicts| && verdicts[i].Accepted? :: verdicts[i].trigger.key != key
  }

  /** Enqueuing one trigger before a payload or after it is the same, unless the payload has it too. */
  lemma {:induction false} EnqueuedBeforeOrAfter(q: Model.Queue, t: Trigger, at: Time, verdicts: seq<Verdict>,
                                                 now: Time)
    requires Without(verdicts, t.key)
    ensures SameTriggers(EnqueuedAll(Enqueued(q, t, at), verdicts, now), Enqueued(EnqueuedAll(q, verdicts, now), t, at))
  {
    if verdicts != [] {
      EnqueuedBeforeOrAfter(q, t, at, verdicts[..|verdicts| - 1], now);
    }
  }

  lemma SameTriggersTransitive(q: Model.Queue, q1: Model.Queue, q2: Model.Queue)
    requires SameTriggers(q, q1) && SameTriggers(q1, q2)
    ensures SameTriggers(q, q2)
  {
  }

  /** What a replay of `verdicts` on `q` would reach is still `whole` after both enqueued another payload. */
  lemma {:induction false} StillReplays(q: Model.Queue, whole: Model.Queue, verdicts: seq<Verdict>,
                                        others: seq<Verdict>, at: Time, now: Time)
    requires SameTriggers(EnqueuedAll(q, verdicts, now), whole)
    requires forall i | 0 <= i < |others| && others[i].Accepted? :: Without(verdicts, others[i].trigger.key)
    ensures SameTriggers(EnqueuedAll(EnqueuedAll(q, others, at), verdicts, now), EnqueuedAll(whole, others, at))
  {
    if others != [] {
      var n := |others| - 1;
      StillReplays(q, whole, verdicts, others[..n], at, now);
      if others[n].Accepted? {
        var q1 := EnqueuedAll(q, others[..n], at);
        var t := others[n].trigger;
        EnqueuedBeforeOrAfter(q1, t, at, verdicts, now);
        assert SameTriggers(Enqueued(EnqueuedAll(q1, verdicts, now), t, at),
                            Enqueued(EnqueuedAll(whole, others[..n], at), t, at));
        SameTriggersTransitive(EnqueuedAll(Enqueued(q1, t, at), verdicts, now),
                               Enqueued(EnqueuedAll(q1, verdicts, now), t, at),
                               Enqueued(EnqueuedAll(whole, others[..n], at), t, at));
      }
    }
  }

  /** The other cycle is of another watermark, and none of its items is one of these. */
  ghost predicate Apart(other: Cycle, name: string, verdicts: seq<Verdict>) {
    && other.name != name
    && forall since: Time, i | 0 <= i < |other.items| && Decide(other.rules, since, other.items[i]).Accepted? ::
         Without(verdicts, Decide(other.rules, since, other.items[i]).trigger.key)
  }

  /** Two items of different kinds, or of different repositories. */
  predicate ItemsApart(a: Item, b: Item) {
    a.Pull? != b.Pull? || (a.repo != b.repo && ':' !in a.repo && ':' !in b.repo)
  }

  lemma ItemIsApart(other: Item, rules: Rules, since: Time, items: seq<Item>)
    requires forall j | 0 <= j < |items| :: ItemsApart(other, items[j])
    ensures Without(Verdicts(rules, since, items), KeyOf(other))
  {
    forall j | 0 <= j < |items| && Decide(rules, since, items[j]).Accepted?
      ensures Decide(rules, since, items[j]).trigger.key != KeyOf(other)
    {
      AcceptedKey(rules, since, items[j]);
      KeysTellItemsApart(other, items[j]);
    }
  }

  /** As are the cycles of the other leg, and those of any other repository. */
  lemma OtherLegsAreApart(other: Cycle, name: string, rules: Rules, since: Time, items: seq<Item>)
    requires other.name != name
    requires forall i, j | 0 <= i < |other.items| && 0 <= j < |items| :: ItemsApart(other.items[i], items[j])
    ensures Apart(other, name, Verdicts(rules, since, items))
  {
    forall at: Time, i | 0 <= i < |other.items| && Decide(other.rules, at, other.items[i]).Accepted?
      ensures Without(Verdicts(rules, since, items), Decide(other.rules, at, other.items[i]).trigger.key)
    {
      AcceptedKey(other.rules, at, other.items[i]);
      ItemIsApart(other.items[i], rules, since, items);
    }
  }

  ghost predicate SameMarksBut(marks: Watermarks, marks': Watermarks, name: string) {
    forall n | n != name :: (n in marks <==> n in marks') && (n in marks ==> marks[n] == marks'[n])
  }

  lemma OneApart(s: State, whole: State, other: Cycle, name: string, verdicts: seq<Verdict>, now: Time)
    requires Apart(other, name, verdicts) && SameMarksBut(s.marks, whole.marks, name)
    requires SameTriggers(EnqueuedAll(s.queue, verdicts, now), whole.queue)
    ensures SameMarksBut(AfterCycle(s, other).marks, AfterCycle(whole, other).marks, name)
    ensures SameTriggers(EnqueuedAll(AfterCycle(s, other).queue, verdicts, now), AfterCycle(whole, other).queue)
  {
    var since := Since(s, other);
    assert since == Since(whole, other);
    var others := Verdicts(other.rules, since, Seen(other));
    forall i | 0 <= i < |others| && others[i].Accepted? ensures Without(verdicts, others[i].trigger.key) {
      assert Seen(other)[i] == other.items[i];
      assert Decide(other.rules, since, other.items[i]).Accepted?;
    }
    StillReplays(s.queue, whole.queue, verdicts, others, other.now, now);
  }

  lemma {:induction false} ManyApart(s: State, whole: State, others: seq<Cycle>, name: string, verdicts: seq<Verdict>,
                                     now: Time)
    requires forall i | 0 <= i < |others| :: Apart(others[i], name, verdicts)
    requires SameMarksBut(s.marks, whole.marks, name)
    requires SameTriggers(EnqueuedAll(s.queue, verdicts, now), whole.queue)
    ensures SameMarksBut(AfterCycles(s, others).marks, AfterCycles(whole, others).marks, name)
    ensures SameTriggers(EnqueuedAll(AfterCycles(s, others).queue, verdicts, now), AfterCycles(whole, others).queue)
    ensures name in s.marks ==>
      name in AfterCycles(s, others).marks && AfterCycles(s, others).marks[name] == s.marks[name]
    ensures name in whole.marks ==>
      name in AfterCycles(whole, others).marks && AfterCycles(whole, others).marks[name] == whole.marks[name]
  {
    if others != [] {
      var n := |others| - 1;
      assert forall i | 0 <= i < n :: others[..n][i] == others[i];
      ManyApart(s, whole, others[..n], name, verdicts, now);
      OneApart(AfterCycles(s, others[..n]), AfterCycles(whole, others[..n]), others[n], name, verdicts, now);
      CycleMovesMark(AfterCycles(s, others[..n]), others[n], name);
      CycleMovesMark(AfterCycles(whole, others[..n]), others[n], name);
    }
  }

  /** The two rules decide every one of the items alike. */
  ghost predicate DecideAlike(rules: Rules, rules': Rules, items: seq<Item>) {
    forall since: Time, i | 0 <= i < |items| :: Decide(rules', since, items[i]) == Decide(rules, since, items[i])
  }

  /** Pull requests are decided alike by a restarted daemon, which knows nothing open and nothing posted. */
  lemma RestartDecidesPullsAlike(rules: Rules, items: seq<Item>, openPulls: Option<set<nat>>, posted: set<nat>)
    requires forall i | 0 <= i < |items| :: items[i].Pull?
    ensures DecideAlike(rules, rules.(openPulls := openPulls, posted := posted), items)
  {
  }

  /**
   Replaying a crashed cycle reaches what the cycle would have reached: the same watermarks and the same
   triggers, whatever cycles of other watermarks came between the crash and the replay, under any rules
   that decide its items alike. Replayed at once and with the same clock, it is the same state.
   */
  lemma ReplayReachesTheSameState(s: State, c: Cycle, reached: nat, between: seq<Cycle>, rules: Rules, now: Time)
    requires c.reached.None? && DecideAlike(c.rules, rules, c.items)
    requires forall i | 0 <= i < |between| :: Apart(between[i], c.name, Verdicts(c.rules, Since(s, c), c.items))
    ensures var whole := AfterCycles(AfterCycle(s, c), between);
      var crashed := AfterCycle(s, c.(reached := Some(reached)));
      var replayed := AfterCycle(AfterCycles(crashed, between), c.(rules := rules, now := now));
      && replayed.marks == whole.marks && SameTriggers(replayed.queue, whole.queue)
      && (between == [] && now == c.now ==> replayed == whole)
  {
    var s1, whole1 := AfterCycle(s, c.(reached := Some(reached))), AfterCycle(s, c);
    var verdicts := Verdicts(c.rules, Since(s, c), c.items);
    CrashedIsBehind(s, c, reached, now);
    ManyApart(s1, whole1, between, c.name, verdicts, now);
    var s2, whole2 := AfterCycles(s1, between), AfterCycles(whole1, between);
    ReplayedMarks(s, c, s2.marks, whole2.marks, now);
    ReplayedQueue(s2, c, rules, now, verdicts, Since(s, c));
  }

  /** What a crashed cycle left is what its replay makes whole. */
  lemma CrashedIsBehind(s: State, c: Cycle, reached: nat, now: Time)
    requires c.reached.None?
    ensures var s1, whole := AfterCycle(s, c.(reached := Some(reached))), AfterCycle(s, c);
      var verdicts := Verdicts(c.rules, Since(s, c), c.items);
      && SameTriggers(EnqueuedAll(s1.queue, verdicts, now), whole.queue)
      && (now == c.now ==> EnqueuedAll(s1.queue, verdicts, now) == whole.queue)
      && s1.marks == Seeded(s.marks, c.name, c.now) && whole.marks == MarkedBy(s.marks, c.name, c.items, c.now)
      && SameMarksBut(s1.marks, whole.marks, c.name)
  {
    var crashed := c.(reached := Some(reached));
    var s1 := AfterCycle(s, crashed);
    var n := if reached <= |c.items| then reached else |c.items|;
    var verdicts := Verdicts(c.rules, Since(s, c), c.items);
    assert Verdicts(c.rules, Since(s, c), Seen(crashed)) == verdicts[..n];
    EnqueuedAfterPart(s.queue, verdicts, n, c.now);
    EnqueuedAtAnotherTime(s1.queue, s1.queue, verdicts, now, c.now);
  }

  lemma ReplayedQueue(s: State, c: Cycle, rules: Rules, now: Time, verdicts: seq<Verdict>, since: Time)
    requires c.reached.None? && c.name in s.marks && s.marks[c.name] == since && DecideAlike(c.rules, rules, c.items)
    requires verdicts == Verdicts(c.rules, since, c.items)
    ensures AfterCycle(s, c.(rules := rules, now := now)).queue == EnqueuedAll(s.queue, verdicts, now)
  {
    assert Verdicts(rules, since, c.items) == verdicts;
  }

  lemma ReplayedMarks(s: State, c: Cycle, marks: Watermarks, whole: Watermarks, now: Time)
    requires SameMarksBut(marks, whole, c.name)
    requires c.name in marks && marks[c.name] == Since(s, c)
    requires c.name in whole && whole[c.name] == MarkedBy(s.marks, c.name, c.items, c.now)[c.name]
    ensures MarkedBy(marks, c.name, c.items, now) == whole
  {
    NewestIsMaximum(Since(s, c), c.items);
  }

  // ----- What one poll enqueues ----------------------------------------------------------------

  /** A key has a row exactly if it had one, or an accepted item has it. */
  lemma EnqueuedExactly(q: Model.Queue, verdicts: seq<Verdict>, now: Time, k: string)
    ensures k in EnqueuedAll(q, verdicts, now) <==>
      k in q || exists i | 0 <= i < |verdicts| :: verdicts[i].Accepted? && verdicts[i].trigger.key == k
  {
    if k in q {
      RowStays(q, verdicts, now, k);
    } else if k in EnqueuedAll(q, verdicts, now) {
      var i := NewRowIsAccepted(q, verdicts, now, k);
    }
    forall i | 0 <= i < |verdicts| && verdicts[i].Accepted? && verdicts[i].trigger.key == k
      ensures k in EnqueuedAll(q, verdicts, now)
    {
      AcceptedIsEnqueued(q, verdicts, now, i);
    }
  }

  lemma {:induction false} FlatHas(batches: seq<seq<Item>>, item: Item)
    ensures item in Flat(batches) <==> exists batch | batch in batches :: item in batch
  {
    if batches != [] {
      var n := |batches| - 1;
      FlatHas(batches[..n], item);
      assert batches == batches[..n] + [batches[n]];
    }
  }

  predicate ByAllowedPerson(item: Item, allowed: set<int>) {
    !item.author.isBot && item.author.id in allowed
  }

  /** Opened or pushed to since, and ready, by an allowed person. */
  predicate AsksByPull(rules: Rules, since: Time, item: Item) {
    item.Pull? && item.at >= since && !item.isDraft && ByAllowedPerson(item, rules.allowed)
  }

  /** A mention by an allowed person since then, on an open pull request, in a comment the agent did not post. */
  predicate AsksByComment(rules: Rules, since: Time, open: seq<Item>, posted: set<nat>, item: Item) {
    && item.Comment? && item.at >= since && ByAllowedPerson(item, rules.allowed)
    && (exists pull | pull in open :: pull.number == item.number) && item.id !in posted
    && Mention.HasMention(item.body, rules.handle)
  }

  lemma LegEnqueuesExactly(p: Polled, name: string, items: seq<Item>, now: Time, k: string)
    ensures k in Processed(p, name, items, now).queue <==>
      k in p.queue
      || exists item | item in items :: Decide(p.rules, InForce(p.marks, name, now), item).Accepted? && KeyOf(item) == k
  {
    var since := InForce(p.marks, name, now);
    var verdicts := Verdicts(p.rules, since, items);
    EnqueuedExactly(p.queue, verdicts, now, k);
    forall i | 0 <= i < |items| ensures verdicts[i].Accepted? ==> verdicts[i].trigger.key == KeyOf(items[i]) {
      AcceptedExactlyWhen(p.rules, since, items[i]);
    }
    if i: nat :| i < |items| && verdicts[i].Accepted? && verdicts[i].trigger.key == k {
      assert items[i] in items;
    }
    if item :| item in items && Decide(p.rules, since, item).Accepted? && KeyOf(item) == k {
      var i :| 0 <= i < |items| && items[i] == item;
      assert verdicts[i].Accepted?;
    }
  }

  /**
   A poll that finds both payloads changed enqueues exactly what asks in them: the comments are weighed against the
   pull requests that this very poll reported, and each payload against its own watermark.
   */
  lemma PollEnqueuesExactly(p: Polled, pulls: seq<Item>, comments: seq<seq<Item>>, posted: set<nat>, now: Time,
                            pullsName: string, commentsName: string, k: string)
    requires pullsName != commentsName && comments != []
    requires (forall item | item in pulls :: item.Pull?)
    requires (forall batch, item | batch in comments && item in batch :: item.Comment?)
    ensures var after := CommentsLeg(PullsLeg(p, pullsName, Some(pulls), now), commentsName, comments, posted, now);
      k in after.queue <==>
        || k in p.queue
        || (exists item | item in pulls ::
              AsksByPull(p.rules, InForce(p.marks, pullsName, now), item) && KeyOf(item) == k)
        || (exists batch, item | batch in comments && item in batch ::
              AsksByComment(p.rules, InForce(p.marks, commentsName, now), pulls, posted, item) && KeyOf(item) == k)
  {
    var since, since' := InForce(p.marks, pullsName, now), InForce(p.marks, commentsName, now);
    var p1 := PullsLeg(p, pullsName, Some(pulls), now);
    var p2 := p1.(rules := p1.rules.(posted := posted));
    LegEnqueuesExactly(p, pullsName, pulls, now, k);
    LegEnqueuesExactly(p2, commentsName, Flat(comments), now, k);
    forall item | item in pulls ensures Decide(p.rules, since, item).Accepted? <==> AsksByPull(p.rules, since, item) {
      AcceptedExactlyWhen(p.rules, since, item);
    }
    forall item
      ensures item in Flat(comments) <==> exists batch | batch in comments :: item in batch
      ensures item.Comment? ==>
                (Decide(p2.rules, since', item).Accepted? <==> AsksByComment(p.rules, since', pulls, posted, item))
    {
      FlatHas(comments, item);
      AcceptedExactlyWhen(p2.rules, since', item);
    }
  }
}
