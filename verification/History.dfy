/** What the spending protocol promises over whole runs. */
module History {
  import opened Wrappers
  import opened Model
  import opened Config
  import opened Budget
  import opened Queue
  import opened Runs
  import opened Ending
  import opened Protocol
  import Breaker

  lemma FreshSound(setup: Setup, start: Time)
    ensures Sound(setup, Fresh(start))
  {
  }

  // ----- The tables together -------------------------------------------------------------------

  /**
   Over every run: the insert of a reservation never breaks `ledger_open`, because each trigger has
   at most one open reservation, made for its last admitted claimant; a waiting or finished row has
   none; a publication never has a ledger row; and the attempts bound the reservations.
   */
  lemma TablesAgree(setup: Setup, start: Time, actions: seq<Action>)
    requires ValidRun(setup, Fresh(start), actions)
    ensures var s := After(setup, Fresh(start), actions);
      && (forall i, j | 0 <= i < j < |s.ledger| && Open(s.ledger[i]) :: s.ledger[i].key != s.ledger[j].key)
      && (forall i | 0 <= i < |s.ledger| && Open(s.ledger[i]) ::
            s.ledger[i].key in s.queue &&
            var row := s.queue[s.ledger[i].key];
            row.status == Abandoned || (row.status == Claimed && row.owner == Some(s.ledger[i].owner)))
      && (forall i | 0 <= i < |s.ledger| ::
            s.ledger[i].key in s.queue && s.queue[s.ledger[i].key].trigger.kind != Publish)
      && (forall k | k in s.queue ::
            (s.queue[k].status == Claimed <==> s.queue[k].owner.Some? && s.queue[k].leasedUntil.Some?))
      && (forall k | k in s.queue :: 0 <= s.queue[k].attempts <= setup.maxAttempts)
      && (forall k | k in s.queue && s.queue[k].trigger.kind != Publish :: Counted(s.ledger, k) <= setup.maxAttempts)
  {
    FreshSound(setup, start);
    RunSound(setup, Fresh(start), actions);
    var s := After(setup, Fresh(start), actions);
    assert forall i | 0 <= i < |s.ledger| :: ReservedFor(s.ledger[i], s.queue) && OpenIsHeld(s.ledger[i], s.queue);
    assert forall k | k in s.queue :: RowShaped(k, s.queue[k], setup.maxAttempts);
  }

  /** A worker whose row another now holds settles nothing, and learns it. */
  lemma DisplacedSettleFails(setup: Setup, s: System, key: string, owner: string, holder: string,
                             settlement: Settlement)
    requires Sound(setup, s) && OwnedBy(s.queue, key, holder) && holder != owner
    ensures CountHeld(s.ledger, key, owner) == 0
    ensures Settled(s.ledger, key, owner, settlement) == s.ledger
  {
    forall i | 0 <= i < |s.ledger| ensures !HeldBy(s.ledger[i], key, owner) {
      assert ReservedFor(s.ledger[i], s.queue) && OpenIsHeld(s.ledger[i], s.queue);
      assert RowShaped(key, s.queue[key], setup.maxAttempts);
    }
    HeldIsCounted(s.ledger, key, owner);
  }

  // ----- While a trip holds --------------------------------------------------------------------

  /** The clock of the last trip among the actions, or of the one before them. */
  function LastTrip(actions: seq<Action>, before: Time): Time
    decreases |actions|
  {
    if actions == [] then before
    else LastTrip(actions[1..], if actions[0].TripBreaker? then actions[0].at else before)
  }

  lemma StepHold(setup: Setup, s: System, a: Action, until: Time)
    requires Possible(setup, s, a) && s.breaker.trippedUntil == Some(until)
    ensures Step(setup, s, a).breaker.trippedUntil
            == Some(if a.TripBreaker? then a.at + Breaker.TRIP_HOLD else until)
  {
  }

  /** A hold ends with the last trip there was, whichever way the clocks of the trips ran. */
  lemma {:induction false} HoldIsTheLastTrips(setup: Setup, s: System, actions: seq<Action>, at: Time)
    requires ValidRun(setup, s, actions) && s.breaker.trippedUntil == Some(at + Breaker.TRIP_HOLD)
    ensures After(setup, s, actions).breaker.trippedUntil == Some(LastTrip(actions, at) + Breaker.TRIP_HOLD)
    decreases |actions|
  {
    if actions != [] {
      var a := actions[0];
      StepHold(setup, s, a, at + Breaker.TRIP_HOLD);
      HoldIsTheLastTrips(setup, Step(setup, s, a), actions[1..], if a.TripBreaker? then a.at else at);
    }
  }

  predicate TripsNoEarlier(actions: seq<Action>, at: Time) {
    forall i | 0 <= i < |actions| && actions[i].TripBreaker? :: actions[i].at >= at
  }

  lemma {:induction false} LastTripNoEarlier(actions: seq<Action>, before: Time, at: Time)
    requires before >= at && TripsNoEarlier(actions, at)
    ensures LastTrip(actions, before) >= at
    decreases |actions|
  {
    if actions != [] {
      LastTripNoEarlier(actions[1..], if actions[0].TripBreaker? then actions[0].at else before, at);
    }
  }

  predicate IsHeld(s: System, at: Time) {
    s.breaker.trippedUntil.Some? && at + Breaker.TRIP_HOLD <= s.breaker.trippedUntil.value
  }

  /**
   Over any run after a trip: it still holds, for its whole time, exactly when the last trip since was no
   earlier by its own clock, as it is when no trip since was.
   */
  lemma HoldSurvives(setup: Setup, s: System, at: Time, actions: seq<Action>)
    requires ValidRun(setup, Step(setup, s, TripBreaker(at)), actions)
    ensures IsHeld(After(setup, Step(setup, s, TripBreaker(at)), actions), at) <==> LastTrip(actions, at) >= at
    ensures TripsNoEarlier(actions, at) ==> IsHeld(After(setup, Step(setup, s, TripBreaker(at)), actions), at)
  {
    HoldIsTheLastTrips(setup, Step(setup, s, TripBreaker(at)), actions, at);
    if TripsNoEarlier(actions, at) {
      LastTripNoEarlier(actions, at, at);
    }
  }

  /** While a trip holds, over any run, no worker of any daemon claims anything but a publication. */
  lemma NoReviewWhileHeld(setup: Setup, s: System, at: Time, actions: seq<Action>,
                          owner: string, repo: string, config: BudgetConfig, now: Time, key: string)
    requires ValidRun(setup, Step(setup, s, TripBreaker(at)), actions) && LastTrip(actions, at) >= at
    requires now < at + Breaker.TRIP_HOLD
    requires Enabled(setup, After(setup, Step(setup, s, TripBreaker(at)), actions),
                     TakeClaim(owner, repo, config, now, Some(key)))
    ensures var held := After(setup, Step(setup, s, TripBreaker(at)), actions);
      key in held.queue && held.queue[key].trigger.kind == Publish
  {
    HoldSurvives(setup, s, at, actions);
    assert Breaker.Tripped(After(setup, Step(setup, s, TripBreaker(at)), actions).breaker, now);
  }

  /** A later trip with an earlier clock ends the hold early: trips at 10 and then at 0. */
  lemma EarlierClockEndsTheHold(setup: Setup, start: Time)
    ensures var s := Step(setup, Step(setup, Fresh(start), TripBreaker(10)), TripBreaker(0));
      var now := Breaker.TRIP_HOLD; now < 10 + Breaker.TRIP_HOLD && !Breaker.Tripped(s.breaker, now)
  {
  }

  // ----- What no later transaction undoes ------------------------------------------------------

  /** Rows stay, triggers stay, and a finished row stays finished. */
  predicate QueueKept(q: Model.Queue, q': Model.Queue) {
    forall k | k in q :: k in q' && q'[k].trigger == q[k].trigger && q'[k].enqueuedAt == q[k].enqueuedAt
      && (q[k].status == Done || q[k].status == Abandoned ==> q'[k] == q[k])
  }

  /** Rows are only appended, keep what they were reserved for, and never change once closed. */
  predicate LedgerKept(l: Ledger, l': Ledger) {
    && |l| <= |l'|
    && forall i | 0 <= i < |l| :: l'[i].(settled := None) == l[i].(settled := None) && (!Open(l[i]) ==> l'[i] == l[i])
  }

  /** No row gets a lease. */
  predicate NoNewLease(q: Model.Queue, q': Model.Queue) {
    forall k | k in q' && q'[k].leasedUntil.Some? ::
      k in q && q[k].leasedUntil == q'[k].leasedUntil && q[k].trigger == q'[k].trigger
  }

  lemma EnqueueTidy(q: Model.Queue, trigger: Trigger, at: Time)
    ensures QueueKept(q, Enqueued(q, trigger, at)) && NoNewLease(q, Enqueued(q, trigger, at))
  {
  }

  lemma SweepTidy(q: Model.Queue, repo: string, maxAttempts: nat, now: Time)
    ensures QueueKept(q, AbandonExhausted(q, repo, maxAttempts, now))
    ensures NoNewLease(q, AbandonExhausted(q, repo, maxAttempts, now))
  {
  }

  lemma FoldTidy(q: Model.Queue, repo: string, answered: Trigger, before: Time, head: string)
    ensures QueueKept(q, Folded(q, repo, answered, before, head))
    ensures NoNewLease(q, Folded(q, repo, answered, before, head))
  {
  }

  lemma VerbTidy(q: Model.Queue, maxAttempts: nat, c: Claim, finish: Finish)
    requires RowsShaped(q, maxAttempts)
    ensures QueueKept(q, Verb(q, c, finish)) && NoNewLease(q, Verb(q, c, finish))
  {
    if c.trigger.key in q {
      assert RowShaped(c.trigger.key, q[c.trigger.key], maxAttempts);
    }
  }

  lemma LeaseKeeps(q: Model.Queue, k: string, repo: string, maxAttempts: nat, now: Time, owner: string, until: Time)
    requires Claimable(q, k, repo, maxAttempts, now)
    ensures QueueKept(q, Leased(q, k, owner, until))
  {
  }

  lemma TakeStepKeeps(setup: Setup, s: System, a: Action, q': Model.Queue)
    requires a.TakeClaim? && Possible(setup, s, a) && q' == Step(setup, s, a).queue
    ensures QueueKept(s.queue, q')
    ensures a.key.None? ==> NoNewLease(s.queue, q')
  {
    SweepTidy(s.queue, a.repo, setup.maxAttempts, a.now);
    if a.key.Some? {
      LeaseKeeps(Swept(setup, s, a.repo, a.now).queue, a.key.value, a.repo, setup.maxAttempts, a.now, a.owner,
                 a.now + setup.lease);
    }
  }

  /** Of the other transactions that touch the queue, each is one statement. */
  lemma StatementKeeps(setup: Setup, s: System, a: Action, q': Model.Queue)
    requires RowsShaped(s.queue, setup.maxAttempts) && Possible(setup, s, a) && q' == Step(setup, s, a).queue
    requires a.Enqueue? || a.OfferRun? || a.FinishRun? || a.FoldWaiting?
    ensures QueueKept(s.queue, q') && NoNewLease(s.queue, q')
  {
    match a
    case Enqueue(trigger, at) => EnqueueTidy(s.queue, trigger, at);
    case OfferRun(owner, at) =>
      EnqueueTidy(s.queue, PublicationOf(PhaseOf(s, owner).claim.trigger, PhaseOf(s, owner).run), at);
    case FinishRun(owner) => VerbTidy(s.queue, setup.maxAttempts, PhaseOf(s, owner).claim, PhaseOf(s, owner).finish);
    case FoldWaiting(owner, repo, before) =>
      FoldTidy(s.queue, repo, PhaseOf(s, owner).claim.trigger, before, PhaseOf(s, owner).run.headSha);
  }

  lemma QueueUntouched(setup: Setup, s: System, a: Action)
    requires Possible(setup, s, a)
    requires !(a.TakeClaim? || a.Enqueue? || a.OfferRun? || a.FinishRun? || a.FoldWaiting?)
    ensures Step(setup, s, a).queue == s.queue
  {
  }

  lemma QueueStepKeeps(setup: Setup, s: System, a: Action, q': Model.Queue)
    requires RowsShaped(s.queue, setup.maxAttempts) && Possible(setup, s, a) && q' == Step(setup, s, a).queue
    ensures QueueKept(s.queue, q')
    ensures !(a.TakeClaim? && a.key.Some?) ==> NoNewLease(s.queue, q')
  {
    if a.TakeClaim? {
      TakeStepKeeps(setup, s, a, q');
    } else if a.Enqueue? || a.OfferRun? || a.FinishRun? || a.FoldWaiting? {
      StatementKeeps(setup, s, a, q');
    } else {
      QueueUntouched(setup, s, a);
    }
  }

  /** What one transaction does to the ledger: nothing, one settle, or one admission. */
  lemma LedgerStep(setup: Setup, s: System, a: Action, l': Ledger)
    requires Possible(setup, s, a) && l' == Step(setup, s, a).ledger
    ensures !a.SettleRun? && !(a.TakeClaim? && a.key.Some?) ==> l' == s.ledger
    ensures a.SettleRun? ==> l' == Settled(s.ledger, PhaseOf(s, a.owner).claim.trigger.key, a.owner,
                                           Settlement(a.end.usage, a.end.reason, a.lines, a.since, a.at))
    ensures a.TakeClaim? && a.key.Some? ==>
      var c := ClaimOf(Swept(setup, s, a.repo, a.now).queue[a.key.value], a.owner, a.now + setup.lease);
      l' == LedgerAfterClaim(s.ledger, s.breaker, a.config, c, a.now)
  {
  }

  lemma LedgerStepKeeps(setup: Setup, s: System, a: Action, l': Ledger)
    requires Possible(setup, s, a) && l' == Step(setup, s, a).ledger
    ensures LedgerKept(s.ledger, l')
  {
    LedgerStep(setup, s, a, l');
    if a.TakeClaim? && a.key.Some? {
      var c := ClaimOf(Swept(setup, s, a.repo, a.now).queue[a.key.value], a.owner, a.now + setup.lease);
      if c.trigger.kind != Publish {
        AdmissionKeeps(s.ledger, c, Rung(s.ledger, s.breaker, a.config, c.trigger, a.now), a.config.pool.maxRunTokens,
                       a.now);
      }
    }
  }

  lemma AdmissionKeeps(l: Ledger, c: Claim, mode: Mode, tokens: nat, now: Time)
    ensures LedgerKept(l, Admitted(l, c, mode, tokens, now))
  {
  }

  lemma StepKeeps(setup: Setup, s: System, a: Action, s': System)
    requires Sound(setup, s) && Possible(setup, s, a) && s' == Step(setup, s, a)
    ensures QueueKept(s.queue, s'.queue) && LedgerKept(s.ledger, s'.ledger)
  {
    QueueStepKeeps(setup, s, a, s'.queue);
    LedgerStepKeeps(setup, s, a, s'.ledger);
  }

  /** `done` and `abandoned` are absorbing and the ledger is append-only, over every run. */
  lemma {:induction false} RunKeeps(setup: Setup, s: System, actions: seq<Action>)
    requires Sound(setup, s) && ValidRun(setup, s, actions)
    ensures QueueKept(s.queue, After(setup, s, actions).queue)
    ensures LedgerKept(s.ledger, After(setup, s, actions).ledger)
    decreases |actions|
  {
    if actions != [] {
      var s1 := Step(setup, s, actions[0]);
      StepSound(setup, s, actions[0]);
      StepKeeps(setup, s, actions[0], s1);
      RunKeeps(setup, s1, actions[1..]);
      var s2 := After(setup, s1, actions[1..]);
      KeptTransitive(s.queue, s1.queue, s2.queue, s.ledger, s1.ledger, s2.ledger);
    }
  }

  lemma KeptTransitive(q: Model.Queue, q1: Model.Queue, q2: Model.Queue, l: Ledger, l1: Ledger, l2: Ledger)
    requires QueueKept(q, q1) && QueueKept(q1, q2) && LedgerKept(l, l1) && LedgerKept(l1, l2)
    ensures QueueKept(q, q2) && LedgerKept(l, l2)
  {
    forall i | 0 <= i < |l|
      ensures l2[i].(settled := None) == l[i].(settled := None) && (!Open(l[i]) ==> l2[i] == l[i])
    {
      assert l1[i].(settled := None) == l[i].(settled := None);
    }
  }

  // ----- One worker per pull request -----------------------------------------------------------

  predicate SamePull(a: QueueRow, b: QueueRow) {
    a.trigger.repo == b.trigger.repo && a.trigger.pr == b.trigger.pr
  }

  /** Of two claimed rows of one pull request, one lease is over by `at`. */
  predicate OneLive(q: Model.Queue, at: Time) {
    forall j, k | j in q && k in q && j != k && SamePull(q[j], q[k]) ::
      !(q[j].leasedUntil.Some? && q[j].leasedUntil.value > at && q[k].leasedUntil.Some? && q[k].leasedUntil.value > at)
  }

  lemma TidyOneLive(q: Model.Queue, q': Model.Queue, at: Time, at': Time)
    requires OneLive(q, at) && at <= at' && NoNewLease(q, q')
    ensures OneLive(q', at')
  {
  }

  lemma LeaseOneLive(q: Model.Queue, k: string, repo: string, maxAttempts: nat, now: Time, owner: string, until: Time,
                     at: Time)
    requires RowsShaped(q, maxAttempts) && Claimable(q, k, repo, maxAttempts, now) && OneLive(q, at) && now <= at
    ensures OneLive(Leased(q, k, owner, until), at)
  {
    forall j | j in q && SamePull(q[j], q[k]) ensures q[j].leasedUntil.Some? ==> q[j].leasedUntil.value <= at {
      assert RowShaped(j, q[j], maxAttempts) && !LeaseLive(q[j], now);
    }
  }

  lemma StepOneLive(setup: Setup, s: System, a: Action, s': System)
    requires Sound(setup, s) && Possible(setup, s, a) && OneLive(s.queue, s.latest) && s' == Step(setup, s, a)
    ensures OneLive(s'.queue, s'.latest)
  {
    if a.TakeClaim? && a.key.Some? {
      ClaimedQueue(setup, s, a, s');
      ClaimOneLive(setup, s.queue, s.latest, a, s'.queue, s'.latest);
    } else {
      QueueStepKeeps(setup, s, a, s'.queue);
      LatestGrows(setup, s, a);
      TidyOneLive(s.queue, s'.queue, s.latest, s'.latest);
    }
  }

  lemma LatestGrows(setup: Setup, s: System, a: Action)
    requires Possible(setup, s, a)
    ensures s.latest <= Step(setup, s, a).latest
  {
  }

  /** The row a claim takes is claimable once the exhausted ones are swept, and is leased. */
  predicate Claims(setup: Setup, q: Model.Queue, at: Time, a: Action, q': Model.Queue, at': Time) {
    && a.TakeClaim? && a.key.Some? && at <= at' && a.now <= at'
    && var swept := AbandonExhausted(q, a.repo, setup.maxAttempts, a.now);
       Claimable(swept, a.key.value, a.repo, setup.maxAttempts, a.now)
       && q' == Leased(swept, a.key.value, a.owner, a.now + setup.lease)
  }

  lemma ClaimedQueue(setup: Setup, s: System, a: Action, s': System)
    requires Possible(setup, s, a) && s' == Step(setup, s, a) && a.TakeClaim? && a.key.Some?
    ensures Claims(setup, s.queue, s.latest, a, s'.queue, s'.latest)
  {
  }

  lemma ClaimOneLive(setup: Setup, q: Model.Queue, at: Time, a: Action, q': Model.Queue, at': Time)
    requires RowsShaped(q, setup.maxAttempts) && OneLive(q, at) && Claims(setup, q, at, a, q', at')
    ensures OneLive(q', at')
  {
    LeasedOneLive(q, a.key.value, a.repo, setup.maxAttempts, a.now, a.owner, a.now + setup.lease, at, at');
  }

  /** Swept, and then leased. */
  lemma LeasedOneLive(q: Model.Queue, k: string, repo: string, maxAttempts: nat, now: Time, owner: string, until: Time,
                      at: Time, at': Time)
    requires RowsShaped(q, maxAttempts) && OneLive(q, at) && at <= at' && now <= at'
    requires Claimable(AbandonExhausted(q, repo, maxAttempts, now), k, repo, maxAttempts, now)
    ensures OneLive(Leased(AbandonExhausted(q, repo, maxAttempts, now), k, owner, until), at')
  {
    var swept := AbandonExhausted(q, repo, maxAttempts, now);
    SweptShaped(q, repo, maxAttempts, now);
    SweepTidy(q, repo, maxAttempts, now);
    TidyOneLive(q, swept, at, at');
    LeaseOneLive(swept, k, repo, maxAttempts, now, owner, until, at');
  }

  lemma SweptShaped(q: Model.Queue, repo: string, maxAttempts: nat, now: Time)
    requires RowsShaped(q, maxAttempts)
    ensures RowsShaped(AbandonExhausted(q, repo, maxAttempts, now), maxAttempts)
  {
  }

  /**
   At every instant no earlier than any clock a claim has used, at most one row per pull request is
   claimed under a live lease, in whatever order those clocks came.
   */
  lemma {:induction false} OneWorkerPerPull(setup: Setup, s: System, actions: seq<Action>, at: Time)
    requires Sound(setup, s) && OneLive(s.queue, s.latest) && ValidRun(setup, s, actions)
    requires at >= After(setup, s, actions).latest
    ensures OneLive(After(setup, s, actions).queue, at)
    decreases |actions|
  {
    if actions != [] {
      StepSound(setup, s, actions[0]);
      StepOneLive(setup, s, actions[0], Step(setup, s, actions[0]));
      OneWorkerPerPull(setup, Step(setup, s, actions[0]), actions[1..], at);
    }
  }

  // ----- First come, first served --------------------------------------------------------------

  /** Rows keep their numbers, and what is added is numbered after all of them. */
  predicate OrderKept(q: Model.Queue, q': Model.Queue) {
    && |q| <= |q'|
    && (forall k | k in q :: k in q' && q'[k].rowid == q[k].rowid && q'[k].enqueuedAt == q[k].enqueuedAt)
    && forall k | k in q' && k !in q :: q'[k].rowid > |q|
  }

  lemma EnqueueKeepsOrder(q: Model.Queue, trigger: Trigger, at: Time)
    ensures OrderKept(q, Enqueued(q, trigger, at))
  {
  }

  lemma SameRowsKeepOrder(q: Model.Queue, q': Model.Queue)
    requires RowsKept(q, q') && QueueKept(q, q')
    ensures OrderKept(q, q')
  {
    assert |q'| == |q'.Keys| == |q.Keys| == |q|;
  }

  lemma OrderStep(setup: Setup, s: System, a: Action, q': Model.Queue)
    requires Sound(setup, s) && Possible(setup, s, a) && q' == Step(setup, s, a).queue
    ensures OrderKept(s.queue, q')
  {
    QueueStepKeeps(setup, s, a, q');
    match a
    case Enqueue(trigger, at) => EnqueueKeepsOrder(s.queue, trigger, at);
    case OfferRun(owner, at) =>
      EnqueueKeepsOrder(s.queue, PublicationOf(PhaseOf(s, owner).claim.trigger, PhaseOf(s, owner).run), at);
    case _ =>
      RowsStep(setup, s, a, q');
      SameRowsKeepOrder(s.queue, q');
  }

  /** The other transactions add no row and renumber none. */
  lemma RowsStep(setup: Setup, s: System, a: Action, q': Model.Queue)
    requires Possible(setup, s, a) && q' == Step(setup, s, a).queue && !a.Enqueue? && !a.OfferRun?
    ensures RowsKept(s.queue, q')
  {
    match a
    case TakeClaim(_, _, _, _, _) =>
      assert RowsKept(s.queue, Swept(setup, s, a.repo, a.now).queue);
    case FinishRun(owner) => VerbKeepsRows(s.queue, PhaseOf(s, owner).claim, PhaseOf(s, owner).finish);
    case FoldWaiting(_, _, _) =>
    case _ => QueueUntouched(setup, s, a);
  }

  lemma VerbKeepsRows(q: Model.Queue, c: Claim, finish: Finish)
    ensures RowsKept(q, Verb(q, c, finish))
  {
  }

  lemma {:induction false} OrderOverRun(setup: Setup, s: System, actions: seq<Action>)
    requires Sound(setup, s) && ValidRun(setup, s, actions)
    ensures OrderKept(s.queue, After(setup, s, actions).queue)
    decreases |actions|
  {
    if actions != [] {
      var s1 := Step(setup, s, actions[0]);
      StepSound(setup, s, actions[0]);
      OrderStep(setup, s, actions[0], s1.queue);
      OrderOverRun(setup, s1, actions[1..]);
    }
  }

  /** The first admitted row is not one that came later, and no earlier by its clock, than a row that is admitted. */
  lemma LaterWaits(q0: Model.Queue, q1: Model.Queue, q: Model.Queue, l: Ledger, b: Breaker.State,
                   config: BudgetConfig, repo: string, maxAttempts: nat, now: Time, j: string, k: string)
    requires Numbered(q0) && OrderKept(q0, q1) && OrderKept(q1, q) && q1.Keys == q.Keys
    requires FirstAdmitted(q, l, b, config, repo, maxAttempts, now, k)
    requires j in q0 && k !in q0 && q0[j].enqueuedAt <= q[k].enqueuedAt
    ensures !(Claimable(q, j, repo, maxAttempts, now) && WorkerAdmits(l, b, config, q[j].trigger, now))
  {
    assert q[j].rowid == q0[j].rowid <= |q0| < q1[k].rowid == q[k].rowid;
    assert !Earlier(q[k], q[j]);
  }

  /**
   Over every run: a trigger that was enqueued after another, and no earlier by its clock, is not claimed
   while the other could be.
   */
  lemma LaterIsNotClaimedFirst(setup: Setup, s: System, actions: seq<Action>, j: string, owner: string, repo: string,
                               config: BudgetConfig, now: Time, k: string)
    requires Sound(setup, s) && ValidRun(setup, s, actions) && j in s.queue && k !in s.queue
    requires Enabled(setup, After(setup, s, actions), TakeClaim(owner, repo, config, now, Some(k)))
    ensures var s' := After(setup, s, actions);
      var q := Swept(setup, s', repo, now).queue;
      && k in s'.queue
      && (s.queue[j].enqueuedAt <= s'.queue[k].enqueuedAt ==>
            !(Claimable(q, j, repo, setup.maxAttempts, now)
              && WorkerAdmits(s'.ledger, s'.breaker, config, s.queue[j].trigger, now)))
  {
    var s' := After(setup, s, actions);
    var q := Swept(setup, s', repo, now).queue;
    OrderOverRun(setup, s, actions);
    RunKeeps(setup, s, actions);
    SweepKeepsOrder(s'.queue, repo, setup.maxAttempts, now);
    assert TakesFirst(setup, s', TakeClaim(owner, repo, config, now, Some(k)));
    if s.queue[j].enqueuedAt <= s'.queue[k].enqueuedAt {
      LaterWaits(s.queue, s'.queue, q, s'.ledger, s'.breaker, config, repo, setup.maxAttempts, now, j, k);
    }
  }

  lemma SweepKeepsOrder(q: Model.Queue, repo: string, maxAttempts: nat, now: Time)
    ensures OrderKept(q, AbandonExhausted(q, repo, maxAttempts, now))
    ensures RowsKept(q, AbandonExhausted(q, repo, maxAttempts, now))
  {
    var q' := AbandonExhausted(q, repo, maxAttempts, now);
    assert |q'| == |q'.Keys| == |q.Keys| == |q|;
  }
}
