/** One review at a time: claim, run, settle, publish and finish. worker.py. */
module Worker {
  import opened Wrappers
  import opened Model
  import opened Config
  import opened Store
  import opened Budget
  import opened Queue
  import opened Runs
  import opened Ending
  import opened Protocol
  import Breaker
  import Numbering

  // ----- What the world answers ----------------------------------------------------------------

  predicate FromEngine(f: Failure) {
    f.UsageLimited? || f.EngineNotStarted? || f.EngineFailed?
  }

  /** `_review` turns whatever an adapter raises into one of these. */
  type EngineFailure = f: Failure | FromEngine(f) witness EngineNotStarted

  type AgentFailure = f: Failure | !FromEngine(f) witness GitHubError

  datatype Answer<T, F> = Answered(value: T) | Raised(failure: F)

  datatype Facts = Facts(isOpen: bool, headSha: string)

  datatype Checkout = Checkout(lines: int, since: Option<string>)

  datatype Review = Review(outcome: Outcome, usage: Usage, carried: seq<Option<int>>)

  /** Everything one run learns from outside, and the clocks it reads. */
  datatype World = World(
    facts: Answer<Facts, AgentFailure>,
    checkout: Answer<Checkout, AgentFailure>,
    predicted: nat,
    review: Answer<Review, EngineFailure>,
    teardown: Option<AgentFailure>,
    post: PostAnswer,
    startedAt: Time, recordedAt: Time, trippedAt: Time, settledAt: Time)

  // ----- How a run goes ------------------------------------------------------------------------

  /** The way a run went, and so what ends it. */
  datatype Course =
    | WasClosed
    | WasRefused
    | Broke(failure: Failure, spend: Usage)
    | Reviewed(review: Review, headSha: string, checkout: Checkout)

  /** `preflight`: nothing left to review, or more than one run may spend. */
  predicate Refuses(checkout: Checkout, predicted: nat, ceiling: nat) {
    checkout.lines <= 0 || predicted > ceiling
  }

  const NOTHING_YET := Usage(0, Unavailable)

  /** `ceiling` is the effective `max_run_tokens` and `local` the worker's own. */
  function CourseOf(w: World, ceiling: nat, local: nat): Course {
    if w.facts.Raised? then Broke(w.facts.failure, NOTHING_YET)
    else if !w.facts.value.isOpen then WasClosed
    else if w.checkout.Raised? then Broke(w.checkout.failure, NOTHING_YET)
    else if Refuses(w.checkout.value, w.predicted, ceiling) then WasRefused
    else if w.review.Raised? then Broke(w.review.failure, NOTHING_YET.(tokens := local))
    else if w.teardown.Some? then Broke(w.teardown.value, NOTHING_YET.(tokens := local))
    else Reviewed(w.review.value, w.facts.value.headSha, w.checkout.value)
  }

  function EndOfCourse(c: Course): RunEnd {
    match c
    case WasClosed => RunEnd(Usage(0, Exact), Closed, Abandon)
    case WasRefused => RunEnd(Usage(0, Exact), Refused, Abandon)
    case Broke(failure, spend) => ClassifyFailure(failure, spend)
    case Reviewed(review, _, _) => EndOf(review.outcome, review.usage)
  }

  /** Only a completed review leaves something to publish. */
  predicate Records(c: Course) {
    c.Reviewed? && c.review.outcome == OutcomeCompleted
  }

  function SettlementOf(claim: Claim, c: Course, at: Time): Settlement {
    var end := EndOfCourse(c);
    Settlement(end.usage, end.reason,
               if Records(c) && claim.trigger.command == Command.Review then Some(c.checkout.lines) else None,
               if Records(c) then c.checkout.since else None, at)
  }

  // ----- What a run leaves ---------------------------------------------------------------------

  datatype Tables = Tables(queue: Model.Queue, ledger: Ledger, breaker: Breaker.State, runs: Runs.Table)

  function RunOf(rs: Runs.Table, claim: Claim, c: Course, at: Time): Run
    requires Records(c)
  {
    var t := claim.trigger;
    RunFor(t, c.headSha, Numbering.Assigned(c.review.carried, Numbering.ReadFor(rs, t)), at)
  }

  function Published(q: Model.Queue, rs: Runs.Table, claim: Claim, run: Run, w: World): Model.Queue {
    if Owes(rs, run.key, w.post) then Enqueued(q, PublicationOf(claim.trigger, run), w.post.at) else q
  }

  predicate HasReservation(t: Tables, claim: Claim) {
    CountHeld(t.ledger, claim.trigger.key, claim.owner) == 1
  }

  /**
   What is left by a worker that has recorded its run: if it has no reservation to settle any more, the run
   is not posted and the row is not closed; what waited for the review is folded either way.
   */
  function TablesAfterRecorded(t: Tables, repo: string, claim: Claim, c: Course, run: Run, w: World): Tables {
    var ledger := Settled(t.ledger, claim.trigger.key, claim.owner, SettlementOf(claim, c, w.settledAt));
    var runs := if HasReservation(t, claim) then Attended(t.runs, run.key, w.post) else t.runs;
    var queue := if HasReservation(t, claim)
                 then Verb(Published(t.queue, runs, claim, run, w), claim, EndOfCourse(c).finish) else t.queue;
    Tables(Folded(queue, repo, claim.trigger, w.startedAt, run.headSha), ledger, t.breaker, runs)
  }

  function TablesAfter(t: Tables, repo: string, claim: Claim, c: Course, w: World): Tables {
    if Records(c) then
      var run := RunOf(t.runs, claim, c, w.recordedAt);
      TablesAfterRecorded(t.(runs := Recorded(t.runs, run)), repo, claim, c, run, w)
    else
      var end := EndOfCourse(c);
      var closes := HasReservation(t, claim) || c.WasClosed? || c.WasRefused?;
      Tables(if closes then Verb(t.queue, claim, end.finish) else t.queue,
             Settled(t.ledger, claim.trigger.key, claim.owner, SettlementOf(claim, c, w.settledAt)),
             if end.reason == UsageLimit then Breaker.Trip(t.breaker, w.trippedAt) else t.breaker, t.runs)
  }

  /** What posting a recorded run leaves, when the item's lease still holds. */
  function TablesAfterPost(t: Tables, claim: Claim, w: World): Tables
    requires claim.trigger.kind == Publish
  {
    var key := PublishedRunKey(claim.trigger);
    if !Unposted(t.runs, key) then t.(queue := Verb(t.queue, claim, Complete))
    else
      var runs := Attended(t.runs, key, w.post);
      t.(runs := runs, queue := Verb(t.queue, claim, if Owes(runs, key, w.post) then ReleaseUnattempted else Complete))
  }

  // ----- The worker ----------------------------------------------------------------------------

  class ReviewWorker {
    const store: SqliteStore
    const queue: ReviewQueue
    const governor: Governor
    const runs: RunStore
    const owner: string
    var completed: nat

    constructor (store: SqliteStore, queue: ReviewQueue, governor: Governor, runs: RunStore, owner: string)
      requires queue.store == store && governor.store == store && runs.store == store
      ensures Valid() && this.store == store && this.queue == queue && this.governor == governor
      ensures this.runs == runs && this.owner == owner && completed == 0
    {
      this.store, this.queue, this.governor, this.runs, this.owner := store, queue, governor, runs, owner;
      completed := 0;
    }

    predicate Valid() {
      queue.store == store && governor.store == store && runs.store == store
    }

    ghost function View(): Tables
      reads store
    {
      Tables(store.queue, store.ledger, store.breaker, store.runs)
    }

    ghost function Course(w: World): Course
      reads governor`config, governor.store`policy
    {
      CourseOf(w, governor.Effective().pool.maxRunTokens, governor.config.pool.maxRunTokens)
    }

    /** `_verb` */
    method Close(claim: Claim, finish: Finish)
      requires Valid()
      modifies store`queue
      ensures store.queue == Verb(old(store.queue), claim, finish)
    {
      var held: bool;
      match finish {
        case Complete => held := queue.Finish(claim, Done);
        case Release => held := queue.Finish(claim, Pending);
        case ReleaseUnattempted => held := queue.ReleaseUnattempted(claim);
        case Abandon => held := queue.Finish(claim, Abandoned);
      }
    }

    /** `_published`: false if the write is worth another attempt. */
    method Post(key: string, w: World) returns (ok: bool)
      requires Valid()
      modifies store`runs
      ensures ok == w.post.accepted
      ensures store.runs == if w.post.accepted then Runs.Posted(old(store.runs), key, w.post.at) else old(store.runs)
    {
      if w.post.accepted {
        var _ := runs.MarkPublished(key, w.post.at);
      }
      ok := w.post.accepted;
    }

    /** The post, and on its failure the count: true if the run needs posting no longer. */
    method PostOrGiveUp(key: string, w: World) returns (closed: bool)
      requires Valid()
      modifies store`runs
      ensures store.runs == Attended(old(store.runs), key, w.post)
      ensures closed <==> !Owes(store.runs, key, w.post)
    {
      closed := Post(key, w);
      if !closed {
        closed := runs.PublishFailed(key, w.post.limit, w.post.at);
      }
    }

    /** `_publish_recorded`: post the run this item names, and close its row. */
    method PublishRecorded(claim: Claim, w: World)
      requires Valid() && claim.trigger.kind == Publish
      modifies store`queue, store`runs
      ensures View() ==
        if Unposted(old(store.runs), PublishedRunKey(claim.trigger)) && !old(queue.Holds(claim, w.startedAt))
        then old(View()) else TablesAfterPost(old(View()), claim, w)
      ensures Unposted(old(store.runs), PublishedRunKey(claim.trigger)) && claim.trigger.key in old(store.queue) ==>
        var row := old(store.queue)[claim.trigger.key];
        (row.owner != Some(claim.owner) || (row.leasedUntil.Some? && row.leasedUntil.value <= w.startedAt)) ==>
          View() == old(View())
    {
      var key := PublishedRunKey(claim.trigger);
      var pending := runs.Unpublished(key);
      if pending.None? {
        Close(claim, Complete);
        return;
      }
      if !queue.Holds(claim, w.startedAt) {
        return;
      }
      var closed := PostOrGiveUp(key, w);
      Close(claim, if closed then Complete else ReleaseUnattempted);
    }

    /** `_abandon_closed`, and the refusal of the pre-flight: settle at zero, then abandon. */
    method EndFree(claim: Claim, reason: StopReason, w: World)
      requires Valid()
      modifies store`queue, store`ledger
      ensures store.ledger == Settled(old(store.ledger), claim.trigger.key, claim.owner,
                                      Settlement(Usage(0, Exact), reason, None, None, w.settledAt))
      ensures store.queue == Verb(old(store.queue), claim, Abandon)
    {
      var _ := governor.Settle(claim, Settlement(Usage(0, Exact), reason, None, None, w.settledAt));
      Close(claim, Abandon);
    }

    /** `_attempt`: run one review. The row is already ended when the course is a free refusal. */
    method Attempt(claim: Claim, w: World) returns (c: Course, run: Option<Run>)
      requires Valid()
      modifies store`queue, store`ledger, store`runs, `completed
      ensures c == old(Course(w)) && (run.Some? <==> Records(c))
      ensures if c.WasClosed? || c.WasRefused?
              then store.ledger == Settled(old(store.ledger), claim.trigger.key, claim.owner,
                                           SettlementOf(claim, c, w.settledAt))
                   && store.queue == Verb(old(store.queue), claim, EndOfCourse(c).finish)
              else store.ledger == old(store.ledger) && store.queue == old(store.queue)
      ensures if Records(c)
              then run.value == RunOf(old(store.runs), claim, c, w.recordedAt)
                   && store.runs == Recorded(old(store.runs), run.value)
              else store.runs == old(store.runs)
      ensures completed == old(completed) + if Records(c) then 1 else 0
    {
      run := None;
      var spend := NOTHING_YET;
      if w.facts.Raised? {
        return Broke(w.facts.failure, spend), None;
      }
      if !w.facts.value.isOpen {
        EndFree(claim, Closed, w);
        return WasClosed, None;
      }
      var high := 0;
      if claim.trigger.command == Command.Review {
        high := HighWater(store.runs, claim.trigger.repo, claim.trigger.pr);
      }
      if w.checkout.Raised? {
        return Broke(w.checkout.failure, spend), None;
      }
      var checkout := w.checkout.value;
      if Refuses(checkout, w.predicted, governor.Effective().pool.maxRunTokens) {
        EndFree(claim, Refused, w);
        return WasRefused, None;
      }
      spend := spend.(tokens := governor.config.pool.maxRunTokens);
      if w.review.Raised? {
        return Broke(w.review.failure, spend), None;
      }
      if w.teardown.Some? {
        return Broke(w.teardown.value, spend), None;
      }
      c := Reviewed(w.review.value, w.facts.value.headSha, checkout);
      if w.review.value.outcome == OutcomeCompleted {
        completed := completed + 1;
        var numbers := Numbering.Assign(w.review.value.carried, high);
        var recorded := runs.Record(claim.trigger, w.facts.value.headSha, numbers, w.recordedAt);
        run := Some(recorded);
      }
    }

    /** `_settle_publish_and_finish`: a run that finds no reservation to settle is discarded. */
    method SettlePublishAndFinish(claim: Claim, s: Settlement, finish: Finish, run: Option<Run>, w: World)
      requires Valid()
      modifies store`queue, store`ledger, store`runs
      ensures store.ledger == Settled(old(store.ledger), claim.trigger.key, claim.owner, s)
      ensures CountHeld(old(store.ledger), claim.trigger.key, claim.owner) != 1 ==>
        store.queue == old(store.queue) && store.runs == old(store.runs)
      ensures CountHeld(old(store.ledger), claim.trigger.key, claim.owner) == 1 ==>
        && store.runs == (if run.Some? then Attended(old(store.runs), run.value.key, w.post) else old(store.runs))
        && store.queue == Verb(if run.Some? then Published(old(store.queue), store.runs, claim, run.value, w)
                               else old(store.queue), claim, finish)
    {
      var held := governor.Settle(claim, s);
      if !held {
        return;
      }
      if run.Some? {
        var closed := PostOrGiveUp(run.value.key, w);
        if !closed {
          var _ := queue.Enqueue(PublicationOf(claim.trigger, run.value), w.post.at);
        }
      }
      Close(claim, finish);
    }

    /** `run_one`: review one claim, settle it, and finish its row. */
    method RunOne(claim: Claim, w: World)
      requires Valid() && claim.trigger.kind != Publish && OpenIsLast(store.ledger)
      modifies store`queue, store`ledger, store`breaker, store`runs, `completed
      ensures CountHeld(old(store.ledger), claim.trigger.key, claim.owner) == 0 ==> View() == old(View())
      ensures CountHeld(old(store.ledger), claim.trigger.key, claim.owner) == 1 ==>
        View() == TablesAfter(old(View()), queue.repo, claim, old(Course(w)), w)
    {
      var mode := governor.AdmittedMode(claim);
      HeldAtMostOnce(store.ledger, claim.trigger.key, claim.owner);
      if mode.None? {
        return;
      }
      var c, run := Attempt(claim, w);
      if c.WasClosed? || c.WasRefused? {
        return;
      }
      var end := EndOfCourse(c);
      if c.Broke? && c.failure.UsageLimited? {
        var _ := governor.Trip(w.trippedAt);
      }
      SettlePublishAndFinish(claim, SettlementOf(claim, c, w.settledAt), end.finish, run, w);
      if run.Some? {
        var _ := queue.Fold(claim, w.startedAt, run.value.headSha);
      }
    }

    /** Either kind of claim, just taken. */
    method RunClaimed(claim: Claim, w: World)
      requires Valid() && OpenIsLast(store.ledger)
      requires claim.trigger.kind != Publish ==> CountHeld(store.ledger, claim.trigger.key, claim.owner) == 1
      modifies store`queue, store`ledger, store`breaker, store`runs, `completed
      ensures claim.trigger.kind != Publish ==> View() == TablesAfter(old(View()), queue.repo, claim, old(Course(w)), w)
      ensures claim.trigger.kind == Publish ==>
        View() == old(View()) || View() == TablesAfterPost(old(View()), claim, w)
    {
      if claim.trigger.kind == Publish {
        PublishRecorded(claim, w);
      } else {
        RunOne(claim, w);
      }
    }

    /** The tables a claim is taken on: the exhausted rows are given up on first. */
    ghost function Swept(now: Time): Tables
      reads store
    {
      View().(queue := AbandonExhausted(store.queue, queue.repo, queue.maxAttempts, now))
    }

    /** Claim one trigger: a review that was claimed is held. */
    method Take(now: Time) returns (claim: Option<Claim>)
      requires Valid() && Numbered(store.queue) && OpenIsLast(store.ledger)
      requires governor.Effective().pool.maxRunTokens > 0 && Breaker.Sound(store.breaker)
      modifies store`queue, store`ledger
      ensures Taken(claim, old(Swept(now)), governor.Effective(), now, View())
      ensures OpenIsLast(store.ledger)
      ensures claim.Some? && claim.value.trigger.kind != Publish ==>
        CountHeld(store.ledger, claim.value.trigger.key, claim.value.owner) == 1
    {
      ghost var swept, config := Swept(now), governor.Effective();
      claim := queue.Claim(now, owner, governor);
      if claim.Some? {
        TakenIsHeld(queue, claim.value, swept.queue, swept.ledger, swept.breaker, config, owner, now, store.queue,
                    store.ledger);
      }
    }

    /** What the queue's choice says of a claim, and nothing else changed. */
    ghost predicate Taken(claim: Option<Claim>, swept: Tables, config: BudgetConfig, now: Time, claimed: Tables) {
      && claimed.breaker == swept.breaker && claimed.runs == swept.runs
      && queue.ClaimTaken(claim, swept.queue, swept.ledger, swept.breaker, config, owner, now,
                          claimed.queue, claimed.ledger)
    }

    /** `run_once`: claim one trigger and review it; nothing if none was claimable. */
    method RunOnce(now: Time, w: World) returns (claim: Option<Claim>, ghost claimed: Tables)
      requires Valid() && Numbered(store.queue) && OpenIsLast(store.ledger)
      requires governor.Effective().pool.maxRunTokens > 0 && Breaker.Sound(store.breaker)
      modifies store`queue, store`ledger, store`breaker, store`runs, `completed
      ensures Taken(claim, old(Swept(now)), old(governor.Effective()), now, claimed)
      ensures claim.None? ==> View() == claimed
      ensures claim.Some? && claim.value.trigger.kind != Publish ==>
        View() == TablesAfter(claimed, queue.repo, claim.value, old(Course(w)), w)
      ensures claim.Some? && claim.value.trigger.kind == Publish ==>
        View() == claimed || View() == TablesAfterPost(claimed, claim.value, w)
    {
      claim := Take(now);
      claimed := View();
      if claim.Some? {
        RunClaimed(claim.value, w);
      }
    }
  }

  // ----- The ledger has one reservation to settle ----------------------------------------------

  lemma {:induction false} HeldAtMostOnce(l: Ledger, key: string, owner: string)
    requires OpenIsLast(l)
    ensures CountHeld(l, key, owner) <= 1
    ensures CountHeld(l, key, owner) == 1 <==> exists i :: 0 <= i < |l| && HeldBy(l[i], key, owner)
    ensures CountHeld(l, key, owner) == 1 <==> exists r | r in l :: HeldBy(r, key, owner)
  {
    HeldIsCounted(l, key, owner);
    if l != [] {
      var n := |l| - 1;
      HeldAtMostOnce(l[..n], key, owner);
      if HeldBy(l[n], key, owner) {
        HeldIsCounted(l[..n], key, owner);
      }
    }
  }

  /** A worker that has just claimed a review holds the one open reservation for it. */
  lemma ClaimIsHeld(l: Ledger, b: Breaker.State, config: BudgetConfig, c: Claim, now: Time)
    requires OpenIsLast(l) && c.trigger.kind != Publish
    ensures OpenIsLast(LedgerAfterClaim(l, b, config, c, now))
    ensures CountHeld(LedgerAfterClaim(l, b, config, c, now), c.trigger.key, c.owner) == 1
  {
    var mode, tokens := Rung(l, b, config, c.trigger, now), config.pool.maxRunTokens;
    var l' := Admitted(l, c, mode, tokens, now);
    AdmittedRows(l, c, mode, tokens, now);
    HeldAtMostOnce(l', c.trigger.key, c.owner);
    assert HeldBy(l'[|l|], c.trigger.key, c.owner);
  }

  lemma TakenIsHeld(queue: ReviewQueue, c: Claim, q: Model.Queue, l: Ledger, b: Breaker.State, config: BudgetConfig,
                    owner: string, now: Time, q': Model.Queue, l': Ledger)
    requires queue.ClaimTaken(Some(c), q, l, b, config, owner, now, q', l') && OpenIsLast(l)
    ensures OpenIsLast(l')
    ensures c.trigger.kind != Publish ==> CountHeld(l', c.trigger.key, c.owner) == 1
  {
    if c.trigger.kind != Publish {
      ClaimIsHeld(l, b, config, c, now);
    }
  }
}
