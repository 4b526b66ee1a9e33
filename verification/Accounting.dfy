/** What one crash-free run leaves behind, on every path; and that it is a run of the protocol. */
module Accounting {
  import opened Wrappers
  import opened Model
  import opened Config
  import opened Store
  import opened Budget
  import opened Queue
  import opened Runs
  import opened Ending
  import opened Protocol
  import opened Worker
  import Breaker

  // ----- The ledger ----------------------------------------------------------------------------

  /** On every path the one open reservation is closed, once, and no other row is touched. */
  lemma SettledExactlyOnce(t: Tables, repo: string, claim: Claim, c: Course, w: World) returns (i: nat)
    requires OpenIsLast(t.ledger) && CountHeld(t.ledger, claim.trigger.key, claim.owner) == 1
    ensures i < |t.ledger| && HeldBy(t.ledger[i], claim.trigger.key, claim.owner)
    ensures TablesAfter(t, repo, claim, c, w).ledger
            == t.ledger[i := t.ledger[i].(settled := Some(SettlementOf(claim, c, w.settledAt)))]
    ensures CountHeld(TablesAfter(t, repo, claim, c, w).ledger, claim.trigger.key, claim.owner) == 0
  {
    HeldIsCounted(t.ledger, claim.trigger.key, claim.owner);
    i :| 0 <= i < |t.ledger| && HeldBy(t.ledger[i], claim.trigger.key, claim.owner);
    HeldIsCounted(TablesAfter(t, repo, claim, c, w).ledger, claim.trigger.key, claim.owner);
  }

  /** The pull request is open, and its checkout is there to be weighed. */
  predicate ReachesPreflight(w: World) {
    w.facts.Answered? && w.facts.value.isOpen && w.checkout.Answered?
  }

  /** The engine was reached: there are lines to review, and they are predicted to cost no more than the ceiling. */
  predicate ReachesEngine(w: World, ceiling: nat) {
    ReachesPreflight(w) && w.checkout.value.lines > 0 && w.predicted <= ceiling
  }

  predicate EngineStarted(w: World, ceiling: nat) {
    ReachesEngine(w, ceiling) && !(w.review.Raised? && w.review.failure.EngineNotStarted?)
  }

  /** The engine ended without an envelope to measure the run by. */
  predicate Unmeasured(w: World) {
    if w.review.Raised? then w.review.failure.EngineFailed? && w.review.failure.usage.None?
    else w.teardown.Some?
  }

  /** What the engine said it spent; nothing, if it was refused before doing any work. */
  function MeasuredTokens(answer: Answer<Review, EngineFailure>): nat {
    match answer
    case Answered(review) => review.usage.tokens
    case Raised(UsageLimited(Some(usage))) => usage.tokens
    case Raised(EngineFailed(_, Some(usage))) => usage.tokens
    case Raised(_) => 0
  }

  /**
   A run costs nothing unless its engine started; a run whose engine started and was not measured
   costs what the worker's own file lets a run spend; and any other costs what was measured.
   */
  lemma FreeUntilEngineStarts(w: World, ceiling: nat, local: nat)
    ensures var tokens := EndOfCourse(CourseOf(w, ceiling, local)).usage.tokens;
      && (!EngineStarted(w, ceiling) ==> tokens == 0)
      && (EngineStarted(w, ceiling) && Unmeasured(w) ==> tokens == local)
      && (EngineStarted(w, ceiling) && !Unmeasured(w) ==> tokens == MeasuredTokens(w.review))
  {
  }

  /**
   A claim admitted under `admitted` reserves that file's ceiling, and an unmeasured run of it closes that
   very row, at the reservation exactly when the worker's own ceiling is the one it was admitted under;
   whatever ceiling the pre-flight was held against in between.
   */
  lemma UnmeasuredSettlesAtReservation(queue: ReviewQueue, claim: Claim, q: Model.Queue, l: Ledger, b: Breaker.State,
                                       admitted: BudgetConfig, owner: string, now: Time,
                                       t: Tables, repo: string, w: World, ceiling: nat, local: nat)
    returns (i: nat)
    requires queue.ClaimTaken(Some(claim), q, l, b, admitted, owner, now, t.queue, t.ledger)
    requires OpenIsLast(l) && claim.trigger.kind != Publish && EngineStarted(w, ceiling) && Unmeasured(w)
    ensures var c := CourseOf(w, ceiling, local); var l' := TablesAfter(t, repo, claim, c, w).ledger;
      && i < |t.ledger| && HeldBy(t.ledger[i], claim.trigger.key, claim.owner)
      && t.ledger[i].reserved == admitted.pool.maxRunTokens
      && l' == t.ledger[i := t.ledger[i].(settled := Some(SettlementOf(claim, c, w.settledAt)))]
      && (Committed(l'[i]) == t.ledger[i].reserved <==> local == admitted.pool.maxRunTokens)
  {
    var c := CourseOf(w, ceiling, local);
    TakenIsHeld(queue, claim, q, l, b, admitted, owner, now, t.queue, t.ledger);
    i := SettledExactlyOnce(t, repo, claim, c, w);
    AdmittedRows(l, claim, Rung(l, b, admitted, claim.trigger, now), admitted.pool.maxRunTokens, now);
    FreeUntilEngineStarts(w, ceiling, local);
  }

  /**
   Of a governor that admits and runs a claim under one file: an unmeasured run settles at its reservation
   unless the governor complies with a policy that gives a run another ceiling, and only then not.
   */
  lemma OnlyComplyingSettlesElsewhere(governor: Governor, queue: ReviewQueue, claim: Claim, q: Model.Queue, l: Ledger,
                                      owner: string, now: Time, t: Tables, repo: string, w: World)
    returns (i: nat)
    requires queue.ClaimTaken(Some(claim), q, l, t.breaker, governor.Effective(), owner, now, t.queue, t.ledger)
    requires OpenIsLast(l) && claim.trigger.kind != Publish
    requires EngineStarted(w, governor.Effective().pool.maxRunTokens) && Unmeasured(w)
    ensures var local := governor.config.pool.maxRunTokens;
      var c := CourseOf(w, governor.Effective().pool.maxRunTokens, local);
      && i < |t.ledger| && HeldBy(t.ledger[i], claim.trigger.key, claim.owner)
      && i < |TablesAfter(t, repo, claim, c, w).ledger|
      && (Committed(TablesAfter(t, repo, claim, c, w).ledger[i]) != t.ledger[i].reserved <==>
            governor.comply && governor.store.policy.Some? && governor.store.policy.value.fields.maxRunTokens != local)
  {
    var effective := governor.Effective();
    i := UnmeasuredSettlesAtReservation(queue, claim, q, l, t.breaker, effective, owner, now, t, repo, w,
                                        effective.pool.maxRunTokens, governor.config.pool.maxRunTokens);
  }

  /** What trips the breaker, and what hands the attempt back: the account's limit and nothing else. */
  lemma OnlyTheAccountLimitIsFree(t: Tables, repo: string, claim: Claim, w: World, ceiling: nat, local: nat)
    ensures var c := CourseOf(w, ceiling, local);
      && (c.Broke? && c.failure.UsageLimited? <==>
            ReachesEngine(w, ceiling) && w.review.Raised? && w.review.failure.UsageLimited?)
      && (EndOfCourse(c).finish == ReleaseUnattempted <==> c.Broke? && c.failure.UsageLimited?)
      && TablesAfter(t, repo, claim, c, w).breaker
         == if c.Broke? && c.failure.UsageLimited? then Breaker.Trip(t.breaker, w.trippedAt) else t.breaker
  {
  }

  /** Something other than the engine broke: the facts, the checkout or its teardown. */
  predicate BreaksOutside(w: World, ceiling: nat) {
    || w.facts.Raised?
    || (w.facts.value.isOpen && w.checkout.Raised?)
    || (ReachesEngine(w, ceiling) && w.review.Answered? && w.teardown.Some?)
  }

  /** The engine's answer stands. */
  predicate Answers(w: World, ceiling: nat, outcome: Outcome) {
    ReachesEngine(w, ceiling) && w.review.Answered? && w.teardown.None? && w.review.value.outcome == outcome
  }

  /** Each reason on the ledger has its one cause. */
  lemma ReasonTellsTheCause(w: World, ceiling: nat, local: nat)
    ensures var reason := EndOfCourse(CourseOf(w, ceiling, local)).reason;
      var failed := ReachesEngine(w, ceiling) && w.review.Raised?;
      && (reason == Closed <==> w.facts.Answered? && !w.facts.value.isOpen)
      && (reason == Refused <==> ReachesPreflight(w) && !ReachesEngine(w, ceiling))
      && (reason == Infrastructure <==> BreaksOutside(w, ceiling))
      && (reason == UsageLimit <==> failed && w.review.failure.UsageLimited?)
      && (reason == EngineUnavailable <==> failed && w.review.failure.EngineNotStarted?)
      && (reason == Timeout <==> failed && w.review.failure.EngineFailed? && w.review.failure.timedOut)
      && (reason == EngineError <==> failed && w.review.failure.EngineFailed? && !w.review.failure.timedOut)
      && (reason == Completed <==> Answers(w, ceiling, OutcomeCompleted))
      && (reason == Truncated <==> Answers(w, ceiling, OutcomeTruncated))
      && (reason == Failed <==> Answers(w, ceiling, OutcomeFailed))
  {
  }

  /** What the engine reported of its usage. */
  function ReportOf(answer: Answer<Review, EngineFailure>): Option<Usage> {
    match answer
    case Answered(review) => Some(review.usage)
    case Raised(UsageLimited(measured)) => measured
    case Raised(EngineFailed(_, usage)) => usage
    case Raised(_) => None
  }

  /** A cost is marked as what it is: measured as the engine says, exactly nothing, or not available. */
  lemma ConfidenceTellsTheMeasure(w: World, ceiling: nat, local: nat)
    ensures var end := EndOfCourse(CourseOf(w, ceiling, local));
      var reported := && ReachesEngine(w, ceiling) && ReportOf(w.review).Some?
                      && (w.review.Answered? ==> w.teardown.None?);
      && (reported ==> end.usage == ReportOf(w.review).value)
      && (!reported && end.reason in {Closed, Refused, UsageLimit} ==> end.usage == Usage(0, Exact))
      && (!reported && end.reason !in {Closed, Refused, UsageLimit} ==> end.usage.confidence == Unavailable)
  {
  }

  /** Only a completed review is a sample of what its lines cost; and a completed run says what it started from. */
  lemma SettlementIsASample(claim: Claim, w: World, ceiling: nat, local: nat, at: Time)
    ensures var s := SettlementOf(claim, CourseOf(w, ceiling, local), at);
      var completed := Answers(w, ceiling, OutcomeCompleted);
      && s.lines == (if completed && claim.trigger.command == Command.Review
                     then Some(w.checkout.value.lines) else None)
      && s.since == (if completed then w.checkout.value.since else None)
      && s.at == at
  {
  }

  // ----- The queue -----------------------------------------------------------------------------

  /** A publication is another row than the review it is made for. */
  lemma PublicationIsAnotherRow(t: Trigger, run: Run)
    requires run.key == t.key
    ensures PublicationOf(t, run).key != t.key
  {
    assert |PublicationOf(t, run).key| == |PUBLISH_PREFIX| + |t.key|;
  }

  /** What the row of a finished run looks like, by how the run went. */
  function ClosedRow(row: QueueRow, finish: Finish): QueueRow {
    row.(owner := None, leasedUntil := None,
         status := match finish case Complete => Done case Abandon => Abandoned case _ => Pending,
         attempts := if finish == ReleaseUnattempted && row.attempts > 0 then row.attempts - 1 else row.attempts)
  }

  /**
   On every path the row is left unheld, closed as the course of the run says; an attempt is given back only
   at the account's limit. Without a reservation only a free refusal closes the row.
   */
  lemma RowIsLeftUnheld(t: Tables, repo: string, claim: Claim, c: Course, w: World)
    requires OwnedBy(t.queue, claim.trigger.key, claim.owner)
    requires t.queue[claim.trigger.key].trigger.key == claim.trigger.key
    ensures claim.trigger.key in TablesAfter(t, repo, claim, c, w).queue
    ensures TablesAfter(t, repo, claim, c, w).queue[claim.trigger.key]
            == if HasReservation(t, claim) || c.WasClosed? || c.WasRefused?
               then ClosedRow(t.queue[claim.trigger.key], EndOfCourse(c).finish) else t.queue[claim.trigger.key]
  {
    if Records(c) {
      PublicationIsAnotherRow(claim.trigger, RunOf(t.runs, claim, c, w.recordedAt));
    }
  }

  /** A row that the answered claim leaves alone: not its own, and not one its review answers. */
  predicate NotAnswered(row: QueueRow, repo: string, claim: Claim, w: World, head: string) {
    || row.status != Pending || row.trigger.kind == Publish
    || row.trigger.repo != repo || row.trigger.pr != claim.trigger.pr || row.trigger.command != claim.trigger.command
    || row.enqueuedAt > w.startedAt || (row.trigger.headSha.Some? && row.trigger.headSha.value != head)
  }

  /** Every other row that a recorded run answers is closed, even if the run was discarded. */
  lemma RecordedRunClosesWaiting(t: Tables, repo: string, claim: Claim, c: Course, w: World, k: string)
    requires Records(c) && k in t.queue && k != claim.trigger.key
    requires !NotAnswered(t.queue[k], repo, claim, w, c.headSha)
    requires t.queue[k].trigger.key == k && !OwnedBy(t.queue, k, claim.owner)
    ensures k in TablesAfter(t, repo, claim, c, w).queue && TablesAfter(t, repo, claim, c, w).queue[k].status == Done
  {
    if HasReservation(t, claim) {
      var run := RunOf(t.runs, claim, c, w.recordedAt);
      var published := Published(t.queue, TablesAfter(t, repo, claim, c, w).runs, claim, run, w);
      assert published[k] == t.queue[k];
      assert Verb(published, claim, EndOfCourse(c).finish)[k] == t.queue[k];
    }
  }

  /** A run closes no other row: not one enqueued after it started, nor of another head, command or pull request. */
  lemma OtherRowsAreLeftAlone(t: Tables, repo: string, claim: Claim, c: Course, w: World, k: string)
    requires k in t.queue && k != claim.trigger.key && t.queue[k].trigger.key == k
    requires Records(c) ==> NotAnswered(t.queue[k], repo, claim, w, c.headSha)
    ensures k in TablesAfter(t, repo, claim, c, w).queue && TablesAfter(t, repo, claim, c, w).queue[k] == t.queue[k]
  {
    if Records(c) && HasReservation(t, claim) {
      var run := RunOf(t.runs, claim, c, w.recordedAt);
      var published := Published(t.queue, TablesAfter(t, repo, claim, c, w).runs, claim, run, w);
      assert Verb(published, claim, EndOfCourse(c).finish)[k] == t.queue[k];
    }
  }

  /** A failure that the same attempt would meet again. */
  predicate Deterministic(f: Failure) {
    f.PullRequestTooLarge? || f.PayloadError?
  }

  /**
   What becomes of the row: done exactly for a completed review; abandoned exactly when another attempt
   would end the same way or the review failed; and otherwise offered again.
   */
  lemma RetriedUnlessDeterministic(w: World, ceiling: nat, local: nat)
    ensures var c := CourseOf(w, ceiling, local); var finish := EndOfCourse(c).finish;
      && (finish == Complete <==> Records(c))
      && (finish == Abandon <==>
            || (w.facts.Raised? && Deterministic(w.facts.failure))
            || (w.facts.Answered? && !w.facts.value.isOpen)
            || (w.facts.Answered? && w.facts.value.isOpen && w.checkout.Raised? && Deterministic(w.checkout.failure))
            || (ReachesPreflight(w) && (w.checkout.value.lines <= 0 || w.predicted > ceiling))
            || (ReachesEngine(w, ceiling) && w.review.Answered?
                && if w.teardown.Some? then Deterministic(w.teardown.value)
                   else w.review.value.outcome == OutcomeFailed))
  {
  }

  // ----- The runs ------------------------------------------------------------------------------

  /** The queue's item for a run after the run's own row is closed and the waiting rows are folded. */
  lemma ItemSurvives(q: Model.Queue, repo: string, claim: Claim, finish: Finish, before: Time, head: string,
                     key: string)
    requires PUBLISH_PREFIX + key != claim.trigger.key
    ensures IsOwed(Folded(Verb(q, claim, finish), repo, claim.trigger, before, head), key) <==> IsOwed(q, key)
    ensures IsOwed(Folded(q, repo, claim.trigger, before, head), key) <==> IsOwed(q, key)
  {
    var item, closed := PUBLISH_PREFIX + key, Verb(q, claim, finish);
    assert item in closed <==> item in q;
    assert item in q ==> closed[item] == q[item];
  }

  /**
   What a worker that has recorded its run leaves, exactly when the run is accounted for: with its reservation,
   unless the post failed below the limit while the run's item was closed already; without it, only if it was
   accounted for before. What other transactions may do meanwhile and afterwards is the matter of `Delivery`.
   */
  lemma RecordedRunIsAccountedFor(t: Tables, repo: string, claim: Claim, c: Course, run: Run, w: World)
    requires Records(c) && run.key == claim.trigger.key && run.key in t.runs
    ensures var t' := TablesAfterRecorded(t, repo, claim, c, run, w);
      AccountedFor(t'.queue, t'.runs, run.key) <==>
        if HasReservation(t, claim) then
          || w.post.accepted
          || t.runs[run.key].publishedAt.Some?
          || t.runs[run.key].publishAttempts + 1 >= w.post.limit
          || PUBLISH_PREFIX + run.key !in t.queue || IsOwed(t.queue, run.key)
        else AccountedFor(t.queue, t.runs, run.key)
  {
    var t' := TablesAfterRecorded(t, repo, claim, c, run, w);
    PublicationIsAnotherRow(claim.trigger, run);
    ItemSurvives(t.queue, repo, claim, EndOfCourse(c).finish, w.startedAt, run.headSha, run.key);
    ItemSurvives(Published(t.queue, t'.runs, claim, run, w), repo, claim, EndOfCourse(c).finish, w.startedAt,
                 run.headSha, run.key);
  }

  /**
   Posting a recorded run under a live lease: the item is closed exactly when there is nothing left to
   post, and handed back with its attempt otherwise. Nothing is spent, and the breaker is not asked.
   */
  lemma PublicationEndsItsRun(t: Tables, claim: Claim, w: World)
    requires claim.trigger.kind == Publish
    requires OwnedBy(t.queue, claim.trigger.key, claim.owner) && t.queue[claim.trigger.key].attempts > 0
    ensures var t' := TablesAfterPost(t, claim, w); var row := t'.queue[claim.trigger.key];
      && t'.ledger == t.ledger && t'.breaker == t.breaker
      && (row.status == Done <==> !Unposted(t'.runs, PublishedRunKey(claim.trigger)))
      && (row.status != Done ==> row.status == Pending && row.attempts == t.queue[claim.trigger.key].attempts - 1)
      && row.owner.None? && row.leasedUntil.None?
  {
  }

  // ----- How often a run is posted -------------------------------------------------------------

  /**
   One worker's claim, as the runs table sees it: a review, which may crash, or find its reservation gone,
   after it recorded and before its post was attended to; or the post of a recorded run. What a crash leaves
   of the queue is another matter: a row that was not closed is claimed again, and its review is another visit.
   */
  datatype Visit =
    | Reviews(claim: Claim, course: Course, w: World, crashed: bool)
    | Posts(claim: Claim, w: World)

  /** Each visit is under the one limit, and a post is of a publication. */
  predicate Proper(v: Visit, limit: nat) {
    v.w.post.limit == limit && (v.claim.trigger.kind == Publish <==> v.Posts?)
  }

  function RunsAfter(rs: Runs.Table, v: Visit): Runs.Table
    requires v.Posts? ==> v.claim.trigger.kind == Publish
  {
    match v
    case Posts(claim, w) =>
      if Unposted(rs, PublishedRunKey(claim.trigger)) then Attended(rs, PublishedRunKey(claim.trigger), w.post) else rs
    case Reviews(claim, course, w, crashed) =>
      if !Records(course) then rs
      else
        var run := RunOf(rs, claim, course, w.recordedAt);
        if crashed then Recorded(rs, run) else Attended(Recorded(rs, run), run.key, w.post)
  }

  /** These are the runs that the worker's own methods leave. */
  lemma VisitsAreRuns(t: Tables, repo: string, v: Visit)
    requires v.Posts? ==> v.claim.trigger.kind == Publish
    ensures v.Reviews? && (v.crashed <==> !HasReservation(t, v.claim)) ==>
      TablesAfter(t, repo, v.claim, v.course, v.w).runs == RunsAfter(t.runs, v)
    ensures v.Posts? ==> TablesAfterPost(t, v.claim, v.w).runs == RunsAfter(t.runs, v)
  {
  }

  /** A completed review whose post fails although the run it records again was given up, and never posted. */
  predicate ReviewsGivenUp(rs: Runs.Table, v: Visit) {
    && v.Reviews? && Records(v.course) && !v.crashed && !v.w.post.accepted
    && GivenUp(rs, v.claim.trigger.key) && rs[v.claim.trigger.key].publishedAt.None?
  }

  lemma RecordKeepsCounts(rs: Runs.Table, run: Run, limit: nat)
    requires limit >= 1 && StampedAtLimit(rs, limit) && PostsWithin(rs, limit) && FreshRecord(Record(run))
    ensures StampedAtLimit(Recorded(rs, run), limit) && PostsWithin(Recorded(rs, run), limit)
    ensures GivenUp(Recorded(rs, run), run.key) <==> GivenUp(rs, run.key)
    ensures Recorded(rs, run)[run.key].publishedAt == if run.key in rs then rs[run.key].publishedAt else None
  {
    OneChange(rs, Record(run), limit);
  }

  lemma AttendedKeepsCounts(rs: Runs.Table, key: string, w: World, limit: nat)
    requires limit >= 1 && StampedAtLimit(rs, limit) && PostsWithin(rs, limit) && w.post.limit == limit
    ensures StampedAtLimit(Attended(rs, key, w.post), limit)
    ensures PostsWithin(Attended(rs, key, w.post), limit) <==>
      w.post.accepted || !(GivenUp(rs, key) && rs[key].publishedAt.None?)
  {
    OneChange(rs, PostChange(key, w.post), limit);
  }

  /**
   One visit keeps every run within the limit: the post of a recorded run always, because only a run that is
   offered is posted; and a review exactly unless its failed post is of a run already given up.
   */
  lemma VisitKeepsLimit(rs: Runs.Table, v: Visit, limit: nat)
    requires limit >= 1 && StampedAtLimit(rs, limit) && PostsWithin(rs, limit) && Proper(v, limit)
    ensures StampedAtLimit(RunsAfter(rs, v), limit)
    ensures PostsWithin(RunsAfter(rs, v), limit) <==> !ReviewsGivenUp(rs, v)
    ensures v.Posts? ==> PostsWithin(RunsAfter(rs, v), limit)
  {
    match v
    case Posts(claim, w) =>
      if Unposted(rs, PublishedRunKey(claim.trigger)) {
        AttendedKeepsCounts(rs, PublishedRunKey(claim.trigger), w, limit);
      }
    case Reviews(claim, course, w, crashed) =>
      if Records(course) {
        var run := RunOf(rs, claim, course, w.recordedAt);
        RecordKeepsCounts(rs, run, limit);
        if !crashed {
          AttendedKeepsCounts(Recorded(rs, run), run.key, w, limit);
        }
      }
  }

  function RunsAfterAll(rs: Runs.Table, visits: seq<Visit>, limit: nat): Runs.Table
    requires forall i | 0 <= i < |visits| :: Proper(visits[i], limit)
    decreases |visits|
  {
    if visits == [] then rs
    else
      assert Proper(visits[0], limit);
      RunsAfterAll(RunsAfter(rs, visits[0]), visits[1..], limit)
  }

  predicate NeverReviewsGivenUp(rs: Runs.Table, visits: seq<Visit>, limit: nat)
    requires forall i | 0 <= i < |visits| :: Proper(visits[i], limit)
    decreases |visits|
  {
    if visits == [] then true
    else
      assert Proper(visits[0], limit);
      !ReviewsGivenUp(rs, visits[0]) && NeverReviewsGivenUp(RunsAfter(rs, visits[0]), visits[1..], limit)
  }

  lemma VisitOnlyCountsUp(rs: Runs.Table, v: Visit, limit: nat, key: string)
    requires Proper(v, limit) && key in rs
    ensures key in RunsAfter(rs, v) && rs[key].publishAttempts <= RunsAfter(rs, v)[key].publishAttempts
  {
  }

  lemma {:induction false} VisitsOnlyCountUp(rs: Runs.Table, visits: seq<Visit>, limit: nat, key: string)
    requires forall i | 0 <= i < |visits| :: Proper(visits[i], limit)
    requires key in rs
    ensures key in RunsAfterAll(rs, visits, limit)
    ensures rs[key].publishAttempts <= RunsAfterAll(rs, visits, limit)[key].publishAttempts
    decreases |visits|
  {
    if visits != [] {
      VisitOnlyCountsUp(rs, visits[0], limit, key);
      VisitsOnlyCountUp(RunsAfter(rs, visits[0]), visits[1..], limit, key);
    }
  }

  /**
   Over any sequence of visits, with any crashes between them: a run's counted failed posts stay within the
   limit exactly when no trigger is reviewed again, and its post fails again, after its run was given up.
   */
  lemma {:induction false} VisitsKeepLimit(rs: Runs.Table, visits: seq<Visit>, limit: nat)
    requires limit >= 1 && StampedAtLimit(rs, limit) && PostsWithin(rs, limit)
    requires forall i | 0 <= i < |visits| :: Proper(visits[i], limit)
    ensures PostsWithin(RunsAfterAll(rs, visits, limit), limit) <==> NeverReviewsGivenUp(rs, visits, limit)
    decreases |visits|
  {
    if visits != [] {
      var rs1 := RunsAfter(rs, visits[0]);
      VisitKeepsLimit(rs, visits[0], limit);
      if ReviewsGivenUp(rs, visits[0]) {
        var key :| key in rs1 && rs1[key].publishAttempts > limit;
        VisitsOnlyCountUp(rs1, visits[1..], limit, key);
      } else {
        VisitsKeepLimit(rs1, visits[1..], limit);
      }
    }
  }

  /**
   One worker is enough: it gives a run up under a limit of one and crashes before it closes its row; the
   row is claimed again, reviewed again, and its post is counted again.
   */
  lemma ReviewedAgainExceedsTheLimit(claim: Claim, course: Course, w: World)
    requires claim.trigger.kind != Publish && Records(course) && !w.post.accepted && w.post.limit == 1
    ensures var v := Reviews(claim, course, w, false); var key := claim.trigger.key;
      && GivenUp(RunsAfter(map[], v), key)
      && key in RunsAfterAll(map[], [v, v], 1) && RunsAfterAll(map[], [v, v], 1)[key].publishAttempts == 2
  {
    var v := Reviews(claim, course, w, false);
    assert [v, v][1..] == [v] && [v][1..] == [];
    var once := RunsAfter(map[], v);
    assert RunsAfterAll(map[], [v, v], 1) == RunsAfterAll(once, [v], 1) == RunsAfter(once, v);
  }

  // ----- A run of the worker is a run of the protocol ------------------------------------------

  /** The settle of one run. */
  function SettleOf(claim: Claim, c: Course, w: World): Action {
    var s := SettlementOf(claim, c, w.settledAt);
    SettleRun(claim.owner, EndOfCourse(c), s.lines, s.since, w.settledAt)
  }

  /** What follows the record of a run whose reservation is there to settle. */
  function PostSteps(t: Tables, claim: Claim, run: Run, w: World): seq<Action> {
    [AttendRun(claim.owner, w.post)]
    + (if Owes(Attended(t.runs, run.key, w.post), run.key, w.post) then [OfferRun(claim.owner, w.post.at)] else [])
    + [FinishRun(claim.owner)]
  }

  /** The transactions of a worker that has recorded its run. */
  function RestSteps(t: Tables, repo: string, claim: Claim, c: Course, run: Run, w: World): seq<Action> {
    [SettleOf(claim, c, w)] + (if HasReservation(t, claim) then PostSteps(t, claim, run, w) else [])
    + [FoldWaiting(claim.owner, repo, w.startedAt)]
  }

  /** The transactions of one run, in their order. */
  function RunSteps(t: Tables, repo: string, claim: Claim, c: Course, w: World): seq<Action> {
    if Records(c) then
      var run := RunOf(t.runs, claim, c, w.recordedAt);
      [ReadHistory(claim.owner)] + [RecordRun(claim.owner, c.headSha, c.review.carried, w.recordedAt)]
      + RestSteps(t.(runs := Recorded(t.runs, run)), repo, claim, c, run, w)
    else
      (if EndOfCourse(c).reason == UsageLimit then [TripBreaker(w.trippedAt)] else [])
      + [SettleOf(claim, c, w)] + [FinishRun(claim.owner)]
  }

  predicate TablesOf(s: System, t: Tables) {
    s.queue == t.queue && s.ledger == t.ledger && s.breaker == t.breaker && s.runs == t.runs
  }

  /** The worker, settled. */
  function AfterSettle(s: System, claim: Claim, c: Course, w: World, phase: Phase): System {
    s.(ledger := Settled(s.ledger, claim.trigger.key, claim.owner, SettlementOf(claim, c, w.settledAt)),
       workers := s.workers[claim.owner := phase])
  }

  function AfterFinish(s: System, claim: Claim, finish: Finish, phase: Phase): System {
    s.(queue := Verb(s.queue, claim, finish), workers := s.workers[claim.owner := phase])
  }

  lemma SettleStep(setup: Setup, s: System, phase: Phase, claim: Claim, c: Course, w: World)
    requires phase == PhaseOf(s, claim.owner) && InReview(phase) && phase.claim == claim
    requires claim.trigger.kind != Publish && WellEnded(EndOfCourse(c)) && (phase.Keeping? <==> Records(c))
    ensures var held := CountHeld(s.ledger, claim.trigger.key, claim.owner) == 1;
      && Enabled(setup, s, SettleOf(claim, c, w))
      && Step(setup, s, SettleOf(claim, c, w))
         == AfterSettle(s, claim, c, w, AfterSettling(phase, EndOfCourse(c), held))
  {
  }

  lemma CourseEndsWell(w: World, ceiling: nat, local: nat)
    ensures WellEnded(EndOfCourse(CourseOf(w, ceiling, local)))
  {
  }

  lemma UnrecordedIsProtocol(setup: Setup, s: System, t: Tables, repo: string, claim: Claim, c: Course, w: World)
    returns (s': System)
    requires TablesOf(s, t) && PhaseOf(s, claim.owner) == Running(claim) && claim.trigger.kind != Publish
    requires WellEnded(EndOfCourse(c)) && HasReservation(t, claim) && !Records(c)
    ensures ValidRun(setup, s, RunSteps(t, repo, claim, c, w)) && After(setup, s, RunSteps(t, repo, claim, c, w)) == s'
    ensures TablesOf(s', TablesAfter(t, repo, claim, c, w)) && PhaseOf(s', claim.owner) == Idle
  {
    var end := EndOfCourse(c);
    var trip := if end.reason == UsageLimit then [TripBreaker(w.trippedAt)] else [];
    var s1 := if end.reason == UsageLimit then s.(breaker := Breaker.Trip(s.breaker, w.trippedAt)) else s;
    if end.reason == UsageLimit {
      OneStep(setup, s, TripBreaker(w.trippedAt), s1);
    }
    SettleStep(setup, s1, Running(claim), claim, c, w);
    var s2 := AfterSettle(s1, claim, c, w, Settling(claim, end.finish, None));
    AndThen(setup, s, trip, SettleOf(claim, c, w), s2);
    s' := AfterFinish(s2, claim, end.finish, Idle);
    AndThen(setup, s, trip + [SettleOf(claim, c, w)], FinishRun(claim.owner), s');
  }

  /** A worker that posts its run, offers it if it must, and closes its row. */
  lemma PostIsProtocol(setup: Setup, s: System, t: Tables, claim: Claim, run: Run, w: World) returns (s': System)
    requires PhaseOf(s, claim.owner) == Posting(claim, run) && claim.trigger.kind != Publish
    requires s.queue == t.queue && s.runs == t.runs
    ensures ValidRun(setup, s, PostSteps(t, claim, run, w)) && After(setup, s, PostSteps(t, claim, run, w)) == s'
    ensures var runs := Attended(t.runs, run.key, w.post);
      && s'.runs == runs && s'.queue == Verb(Published(t.queue, runs, claim, run, w), claim, Complete)
      && s'.ledger == s.ledger && s'.breaker == s.breaker && PhaseOf(s', claim.owner) == Folding(claim, run)
  {
    var runs := Attended(t.runs, run.key, w.post);
    var attend := [AttendRun(claim.owner, w.post)];
    var s1 := Step(setup, s, attend[0]);
    OneStep(setup, s, attend[0], s1);
    if Owes(runs, run.key, w.post) {
      var s2 := Step(setup, s1, OfferRun(claim.owner, w.post.at));
      AndThen(setup, s, attend, OfferRun(claim.owner, w.post.at), s2);
      s' := Step(setup, s2, FinishRun(claim.owner));
      AndThen(setup, s, attend + [OfferRun(claim.owner, w.post.at)], FinishRun(claim.owner), s');
    } else {
      s' := Step(setup, s1, FinishRun(claim.owner));
      AndThen(setup, s, attend, FinishRun(claim.owner), s');
      assert attend + [] == attend;
    }
  }

  /** What a worker that has recorded its run leaves, whether or not it still has its reservation. */
  lemma RestIsProtocol(setup: Setup, s: System, t: Tables, repo: string, claim: Claim, c: Course, run: Run, w: World)
    returns (s': System)
    requires TablesOf(s, t) && PhaseOf(s, claim.owner) == Keeping(claim, run) && claim.trigger.kind != Publish
    requires WellEnded(EndOfCourse(c)) && Records(c)
    ensures ValidRun(setup, s, RestSteps(t, repo, claim, c, run, w))
    ensures After(setup, s, RestSteps(t, repo, claim, c, run, w)) == s'
    ensures TablesOf(s', TablesAfterRecorded(t, repo, claim, c, run, w)) && PhaseOf(s', claim.owner) == Idle
  {
    var settle, fold := SettleOf(claim, c, w), FoldWaiting(claim.owner, repo, w.startedAt);
    SettleStep(setup, s, Keeping(claim, run), claim, c, w);
    var s1 := Step(setup, s, settle);
    OneStep(setup, s, settle, s1);
    if HasReservation(t, claim) {
      var s2 := PostIsProtocol(setup, s1, t, claim, run, w);
      RunsCompose(setup, s, [settle], PostSteps(t, claim, run, w));
      s' := Step(setup, s2, fold);
      AndThen(setup, s, [settle] + PostSteps(t, claim, run, w), fold, s');
    } else {
      s' := Step(setup, s1, fold);
      AndThen(setup, s, [settle], fold, s');
      assert [settle] + [] == [settle];
    }
  }

  lemma RecordedIsProtocol(setup: Setup, s: System, t: Tables, repo: string, claim: Claim, c: Course, w: World)
    returns (s': System)
    requires TablesOf(s, t) && PhaseOf(s, claim.owner) == Running(claim) && claim.trigger.kind != Publish
    requires WellEnded(EndOfCourse(c)) && Records(c)
    ensures ValidRun(setup, s, RunSteps(t, repo, claim, c, w)) && After(setup, s, RunSteps(t, repo, claim, c, w)) == s'
    ensures TablesOf(s', TablesAfter(t, repo, claim, c, w)) && PhaseOf(s', claim.owner) == Idle
  {
    var run := RunOf(t.runs, claim, c, w.recordedAt);
    var t1 := t.(runs := Recorded(t.runs, run));
    var read := ReadHistory(claim.owner);
    var record := RecordRun(claim.owner, c.headSha, c.review.carried, w.recordedAt);
    var s1 := Step(setup, s, read);
    OneStep(setup, s, read, s1);
    var s2 := Step(setup, s1, record);
    AndThen(setup, s, [read], record, s2);
    s' := RestIsProtocol(setup, s2, t1, repo, claim, c, run, w);
    RunsCompose(setup, s, [read] + [record], RestSteps(t1, repo, claim, c, run, w));
  }

  /**
   What `RunOne` leaves is what the protocol's own transactions leave, so everything proved over all
   runs of the protocol holds of it.
   */
  lemma RunIsProtocol(setup: Setup, s: System, t: Tables, repo: string, claim: Claim, w: World, ceiling: nat,
                      local: nat)
    returns (s': System)
    requires TablesOf(s, t) && PhaseOf(s, claim.owner) == Running(claim) && claim.trigger.kind != Publish
    requires CountHeld(t.ledger, claim.trigger.key, claim.owner) == 1
    ensures var c := CourseOf(w, ceiling, local);
      && ValidRun(setup, s, RunSteps(t, repo, claim, c, w)) && After(setup, s, RunSteps(t, repo, claim, c, w)) == s'
      && TablesOf(s', TablesAfter(t, repo, claim, c, w)) && PhaseOf(s', claim.owner) == Idle
  {
    var c := CourseOf(w, ceiling, local);
    CourseEndsWell(w, ceiling, local);
    if Records(c) {
      s' := RecordedIsProtocol(setup, s, t, repo, claim, c, w);
    } else {
      s' := UnrecordedIsProtocol(setup, s, t, repo, claim, c, w);
    }
  }

  /** The transactions of the post of a recorded run. */
  function PublicationSteps(t: Tables, claim: Claim, w: World): seq<Action>
    requires claim.trigger.kind == Publish
  {
    [LookUpRun(claim.owner)]
    + (if Unposted(t.runs, PublishedRunKey(claim.trigger)) then [AttendRun(claim.owner, w.post)] else [])
    + [FinishRun(claim.owner)]
  }

  /** What `PublishRecorded` leaves is what the protocol's transactions leave; a lapsed lease leaves it at a crash. */
  lemma PublicationIsProtocol(setup: Setup, s: System, t: Tables, claim: Claim, w: World) returns (s': System)
    requires TablesOf(s, t) && PhaseOf(s, claim.owner) == Running(claim) && claim.trigger.kind == Publish
    requires forall k | k in t.runs :: t.runs[k].key == k
    ensures ValidRun(setup, s, PublicationSteps(t, claim, w)) && After(setup, s, PublicationSteps(t, claim, w)) == s'
    ensures TablesOf(s', TablesAfterPost(t, claim, w)) && PhaseOf(s', claim.owner) == Idle
    ensures Enabled(setup, s, Crash(claim.owner)) && TablesOf(Step(setup, s, Crash(claim.owner)), t)
  {
    var lookUp := [LookUpRun(claim.owner)];
    var s1 := Step(setup, s, lookUp[0]);
    OneStep(setup, s, lookUp[0], s1);
    if Unposted(t.runs, PublishedRunKey(claim.trigger)) {
      var s2 := Step(setup, s1, AttendRun(claim.owner, w.post));
      AndThen(setup, s, lookUp, AttendRun(claim.owner, w.post), s2);
      s' := Step(setup, s2, FinishRun(claim.owner));
      AndThen(setup, s, lookUp + [AttendRun(claim.owner, w.post)], FinishRun(claim.owner), s');
    } else {
      s' := Step(setup, s1, FinishRun(claim.owner));
      AndThen(setup, s, lookUp, FinishRun(claim.owner), s');
      assert lookUp + [] == lookUp;
    }
  }

  /** A claim the queue's method takes is one the protocol allows, and leaves the same tables. */
  lemma ClaimIsProtocol(setup: Setup, s: System, queue: ReviewQueue, config: BudgetConfig, owner: string, now: Time,
                        claim: Option<Claim>, q': Model.Queue, l': Ledger)
    requires setup == Setup(queue.lease, queue.maxAttempts) && PhaseOf(s, owner) == Idle && config.Valid()
    requires queue.ClaimTaken(claim, AbandonExhausted(s.queue, queue.repo, queue.maxAttempts, now), s.ledger, s.breaker,
                              config, owner, now, q', l')
    ensures var key := if claim.Some? then Some(claim.value.trigger.key) else None;
      var a := TakeClaim(owner, queue.repo, config, now, key);
      && Enabled(setup, s, a) && Step(setup, s, a).queue == q' && Step(setup, s, a).ledger == l'
      && (claim.Some? ==> PhaseOf(Step(setup, s, a), owner) == Running(claim.value))
  {
    var key := if claim.Some? then Some(claim.value.trigger.key) else None;
    assert Swept(setup, s, queue.repo, now).queue == AbandonExhausted(s.queue, queue.repo, queue.maxAttempts, now);
    if claim.Some? {
      ClaimStep(setup, s, owner, queue.repo, config, now, key.value, claim.value);
    }
  }
}
