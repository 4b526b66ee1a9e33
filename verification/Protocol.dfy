/**
 The spending protocol as a state machine: any number of workers in any number of daemons, whose
 transactions interleave in any order, and which may crash between any two of them.

 Each action is one `BEGIN IMMEDIATE` transaction. The clocks that actions carry are arbitrary:
 `now` is read before a transaction opens, so clock order need not be transaction order.
 */
module Protocol {
  import opened Wrappers
  import opened Model
  import opened Config
  import opened Budget
  import opened Queue
  import opened Runs
  import opened Ending
  import Breaker
  import Numbering

  /** Where one worker is between its transactions. */
  datatype Phase =
    | Idle
    // About to read the history of its pull request; or, of a publication, to look up its run.
    | Running(claim: Claim)
    // Reviewing, with the highest number that was read back.
    | Reviewing(claim: Claim, high: nat)
    // The review is recorded and not settled.
    | Keeping(claim: Claim, run: Store.Run)
    // The run is to be posted: the review is settled, or the publication found it unposted.
    | Posting(claim: Claim, run: Store.Run)
    // The post failed and may be tried again: a publication of it is to be enqueued.
    | Owing(claim: Claim, run: Store.Run)
    // The row is to be closed, and then what waited for this run folded.
    | Settling(claim: Claim, finish: Finish, folds: Option<Store.Run>)
    | Folding(claim: Claim, run: Store.Run)

  datatype System = System(queue: Model.Queue, ledger: Ledger, breaker: Breaker.State, runs: Runs.Table,
                           workers: map<string, Phase>, latest: Time)

  /** What every queue is constructed with. */
  datatype Setup = Setup(lease: int, maxAttempts: nat)

  datatype Action =
    | Enqueue(trigger: Trigger, at: Time)
    | TakeClaim(owner: string, repo: string, config: BudgetConfig, now: Time, key: Option<string>)
    | ReadHistory(owner: string)
    | RecordRun(owner: string, head: string, carried: seq<Option<int>>, at: Time)
    | SettleRun(owner: string, end: RunEnd, lines: Option<int>, since: Option<string>, at: Time)
    | LookUpRun(owner: string)
    | AttendRun(owner: string, post: PostAnswer)
    | OfferRun(owner: string, at: Time)
    | FinishRun(owner: string)
    | FoldWaiting(owner: string, repo: string, before: Time)
    | TripBreaker(at: Time)
    // The worker dies; or it finds its lease over and leaves everything as it is.
    | Crash(owner: string)

  function PhaseOf(s: System, owner: string): Phase {
    if owner in s.workers then s.workers[owner] else Idle
  }

  function Verb(q: Model.Queue, c: Claim, finish: Finish): Model.Queue {
    match finish
    case Complete => Finished(q, c.trigger.key, c.owner, Done)
    case Release => Finished(q, c.trigger.key, c.owner, Pending)
    case ReleaseUnattempted => ReleasedUnattempted(q, c.trigger.key, c.owner)
    case Abandon => Finished(q, c.trigger.key, c.owner, Abandoned)
  }

  /** A claim first gives up on the rows that have no attempts left. */
  function Swept(setup: Setup, s: System, repo: string, now: Time): System {
    s.(queue := AbandonExhausted(s.queue, repo, setup.maxAttempts, now),
       latest := if s.latest < now then now else s.latest)
  }

  /** A worker that has a reservation to settle. */
  predicate InReview(phase: Phase) {
    phase.Running? || phase.Reviewing? || phase.Keeping?
  }

  /** Whether the tables and the worker's phase let this transaction happen. */
  predicate Possible(setup: Setup, s: System, a: Action) {
    match a
    case Enqueue(trigger, _) => trigger.kind != Publish
    case TakeClaim(owner, repo, _, now, key) =>
      && PhaseOf(s, owner) == Idle
      && (key.Some? ==> Claimable(Swept(setup, s, repo, now).queue, key.value, repo, setup.maxAttempts, now))
    case ReadHistory(owner) => PhaseOf(s, owner).Running? && PhaseOf(s, owner).claim.trigger.kind != Publish
    case RecordRun(owner, _, _, _) => PhaseOf(s, owner).Reviewing? && PhaseOf(s, owner).claim.trigger.kind != Publish
    case SettleRun(owner, end, _, _, _) =>
      // Exactly the completed reviews are recorded.
      && InReview(PhaseOf(s, owner))
      && PhaseOf(s, owner).claim.trigger.kind != Publish && WellEnded(end)
      && (PhaseOf(s, owner).Keeping? <==> end.finish == Complete)
    case LookUpRun(owner) => PhaseOf(s, owner).Running? && PhaseOf(s, owner).claim.trigger.kind == Publish
    case AttendRun(owner, _) => PhaseOf(s, owner).Posting?
    case OfferRun(owner, _) => PhaseOf(s, owner).Owing?
    case FinishRun(owner) => PhaseOf(s, owner).Settling?
    case FoldWaiting(owner, _, _) => PhaseOf(s, owner).Folding?
    case _ => true
  }

  /** A claim takes, under a valid file, the first row the worker admits, or finds that it admits none. */
  predicate TakesFirst(setup: Setup, s: System, a: Action)
    requires a.TakeClaim?
  {
    var q := Swept(setup, s, a.repo, a.now).queue;
    match a.key
    case Some(key) =>
      && a.config.Valid()
      && FirstAdmitted(q, s.ledger, s.breaker, a.config, a.repo, setup.maxAttempts, a.now, key)
    case None =>
      forall k | k in q && Claimable(q, k, a.repo, setup.maxAttempts, a.now) ::
        !WorkerAdmits(s.ledger, s.breaker, a.config, q[k].trigger, a.now)
  }

  /** A possible transaction, and of a claim the one that the queue would take. */
  predicate Enabled(setup: Setup, s: System, a: Action) {
    Possible(setup, s, a) && (a.TakeClaim? ==> TakesFirst(setup, s, a))
  }

  /** The row leased, the ceiling reserved, and the worker running: one transaction. */
  function WithClaim(s: System, config: BudgetConfig, key: string, c: Claim, now: Time): System
    requires key in s.queue
  {
    s.(queue := Leased(s.queue, key, c.owner, c.leasedUntil),
       ledger := LedgerAfterClaim(s.ledger, s.breaker, config, c, now),
       workers := s.workers[c.owner := Running(c)])
  }

  /** What a review produced, its findings numbered from what was read back. */
  function RunBy(phase: Phase, head: string, carried: seq<Option<int>>, at: Time): Store.Run
    requires phase.Reviewing?
  {
    RunFor(phase.claim.trigger, head, Numbering.Assigned(carried, phase.high), at)
  }

  /** Where a settle leaves the worker: without a reservation its run is discarded, unless it was refused for free. */
  function AfterSettling(phase: Phase, end: RunEnd, held: bool): Phase
    requires InReview(phase)
  {
    if phase.Keeping? then (if held then Posting(phase.claim, phase.run) else Folding(phase.claim, phase.run))
    else if held || end.reason == Refused || end.reason == Closed then Settling(phase.claim, end.finish, None)
    else Idle
  }

  /** A publication whose run needs no posting is closed. */
  function AfterLookUp(claim: Claim, rs: Runs.Table): Phase
    requires claim.trigger.kind == Publish
  {
    var key := PublishedRunKey(claim.trigger);
    if Unposted(rs, key) then Posting(claim, rs[key]) else Settling(claim, Complete, None)
  }

  /** After the post: a publication is handed back if its run is still owed; a review's run has yet to be offered. */
  function AfterPost(claim: Claim, run: Store.Run, owes: bool): Phase {
    if claim.trigger.kind == Publish then Settling(claim, if owes then ReleaseUnattempted else Complete, None)
    else if owes then Owing(claim, run)
    else Settling(claim, Complete, Some(run))
  }

  function Step(setup: Setup, s: System, a: Action): System
    requires Possible(setup, s, a)
  {
    match a
    case Enqueue(trigger, at) => s.(queue := Enqueued(s.queue, trigger, at))
    case TakeClaim(owner, repo, config, now, key) =>
      var swept := Swept(setup, s, repo, now);
      if key.None? then swept
      else WithClaim(swept, config, key.value, ClaimOf(swept.queue[key.value], owner, now + setup.lease), now)
    case ReadHistory(owner) =>
      var c := PhaseOf(s, owner).claim;
      s.(workers := s.workers[owner := Reviewing(c, Numbering.ReadFor(s.runs, c.trigger))])
    case RecordRun(owner, head, carried, at) =>
      var run := RunBy(PhaseOf(s, owner), head, carried, at);
      s.(runs := Recorded(s.runs, run), workers := s.workers[owner := Keeping(PhaseOf(s, owner).claim, run)])
    case SettleRun(owner, end, lines, since, at) =>
      var c := PhaseOf(s, owner).claim;
      var held := CountHeld(s.ledger, c.trigger.key, owner) == 1;
      s.(ledger := Settled(s.ledger, c.trigger.key, owner, Settlement(end.usage, end.reason, lines, since, at)),
         workers := s.workers[owner := AfterSettling(PhaseOf(s, owner), end, held)])
    case LookUpRun(owner) => s.(workers := s.workers[owner := AfterLookUp(PhaseOf(s, owner).claim, s.runs)])
    case AttendRun(owner, post) =>
      var phase := PhaseOf(s, owner);
      var runs := Attended(s.runs, phase.run.key, post);
      s.(runs := runs,
         workers := s.workers[owner := AfterPost(phase.claim, phase.run, Owes(runs, phase.run.key, post))])
    case OfferRun(owner, at) =>
      var phase := PhaseOf(s, owner);
      s.(queue := Enqueued(s.queue, PublicationOf(phase.claim.trigger, phase.run), at),
         workers := s.workers[owner := Settling(phase.claim, Complete, Some(phase.run))])
    case FinishRun(owner) =>
      var phase := PhaseOf(s, owner);
      s.(queue := Verb(s.queue, phase.claim, phase.finish),
         workers := s.workers[owner := if phase.folds.Some? then Folding(phase.claim, phase.folds.value) else Idle])
    case FoldWaiting(owner, repo, before) =>
      var phase := PhaseOf(s, owner);
      s.(queue := Folded(s.queue, repo, phase.claim.trigger, before, phase.run.headSha),
         workers := s.workers[owner := Idle])
    case TripBreaker(at) => s.(breaker := Breaker.Trip(s.breaker, at))
    case Crash(owner) => s.(workers := s.workers[owner := Idle])
  }

  predicate ValidRun(setup: Setup, s: System, actions: seq<Action>)
    decreases |actions|
  {
    actions == [] || (Enabled(setup, s, actions[0]) && ValidRun(setup, Step(setup, s, actions[0]), actions[1..]))
  }

  function After(setup: Setup, s: System, actions: seq<Action>): System
    requires ValidRun(setup, s, actions)
    decreases |actions|
  {
    if actions == [] then s else After(setup, Step(setup, s, actions[0]), actions[1..])
  }

  function Fresh(start: Time): System {
    System(map[], [], Breaker.NEVER_TRIPPED, map[], map[], start)
  }

  // ----- What every transaction keeps ----------------------------------------------------------

  /** A row is claimed exactly when it has an owner and a lease; attempts stay within the bound. */
  predicate RowShaped(k: string, row: QueueRow, maxAttempts: nat) {
    && row.trigger.key == k && row.attempts <= maxAttempts
    && (row.status == Claimed <==> row.owner.Some?) && (row.status == Claimed <==> row.leasedUntil.Some?)
  }

  predicate RowsShaped(q: Model.Queue, maxAttempts: nat) {
    forall k | k in q :: RowShaped(k, q[k], maxAttempts)
  }

  /** An open reservation is the last one made for its trigger, so there is at most one. */
  predicate OpenIsLast(l: Ledger) {
    forall i, j | 0 <= i < j < |l| && Open(l[i]) :: l[i].key != l[j].key
  }

  /** Every ledger row was reserved for a queued trigger, and never for a publication. */
  predicate ReservedFor(r: LedgerRow, q: Model.Queue) {
    && r.key in q && q[r.key].trigger.kind != Publish
    && r.repo == q[r.key].trigger.repo && r.pr == q[r.key].trigger.pr && r.actor == q[r.key].trigger.actor
  }

  /** An open reservation belongs to the worker that holds the row, or its row was given up on. */
  predicate OpenIsHeld(r: LedgerRow, q: Model.Queue)
    requires r.key in q
  {
    Open(r) ==> q[r.key].status == Abandoned || (q[r.key].status == Claimed && q[r.key].owner == Some(r.owner))
  }

  predicate LedgerJoinsQueue(l: Ledger, q: Model.Queue) {
    forall i | 0 <= i < |l| :: ReservedFor(l[i], q) && OpenIsHeld(l[i], q)
  }

  predicate NoneOpen(l: Ledger, key: string) {
    forall i | 0 <= i < |l| && l[i].key == key :: !Open(l[i])
  }

  predicate CountsFor(r: LedgerRow, key: string) {
    r.key == key && !(r.settled.Some? && r.settled.value.reason == UsageLimit)
  }

  function CountFor(key: string): LedgerRow -> nat {
    (r: LedgerRow) => if CountsFor(r, key) then 1 else 0
  }

  /** Reservations for `key` that were not ended by the account's limit. */
  function Counted(l: Ledger, key: string): nat {
    Total(l, CountFor(key))
  }

  predicate AttemptsCover(l: Ledger, q: Model.Queue) {
    forall k | k in q && q[k].trigger.kind != Publish :: Counted(l, k) <= q[k].attempts
  }

  /** A review past its settle. */
  predicate IsSettled(phase: Phase) {
    (phase.Posting? || phase.Owing? || phase.Settling?) && phase.claim.trigger.kind != Publish
  }

  predicate HandsBack(phase: Phase) {
    phase.Settling? && phase.finish == ReleaseUnattempted
  }

  /** What a worker between its transactions may rely on. */
  predicate WorkerSound(owner: string, phase: Phase, q: Model.Queue, l: Ledger) {
    phase.Idle? ||
    (&& phase.claim.owner == owner && phase.claim.trigger.key in q
     && q[phase.claim.trigger.key].trigger == phase.claim.trigger
     && (IsSettled(phase) && OwnedBy(q, phase.claim.trigger.key, owner) ==>
           && NoneOpen(l, phase.claim.trigger.key)
           && (HandsBack(phase) ==> Counted(l, phase.claim.trigger.key) < q[phase.claim.trigger.key].attempts)))
  }

  predicate WorkersSound(s: System) {
    forall o | o in s.workers :: WorkerSound(o, s.workers[o], s.queue, s.ledger)
  }

  predicate TablesSound(q: Model.Queue, l: Ledger, maxAttempts: nat) {
    && Numbered(q) && RowsShaped(q, maxAttempts) && OpenIsLast(l) && LedgerJoinsQueue(l, q) && AttemptsCover(l, q)
  }

  predicate Sound(setup: Setup, s: System) {
    TablesSound(s.queue, s.ledger, setup.maxAttempts) && WorkersSound(s) && Breaker.Sound(s.breaker)
  }

  // ----- The ledger's own lemmas ---------------------------------------------------------------

  lemma LostKeepsCount(l: Ledger, key: string, now: Time, k: string)
    ensures Counted(SettledLost(l, key, now), k) <= Counted(l, k)
  {
    TotalAtMost(l, SettledLost(l, key, now), CountFor(k), CountFor(k));
  }

  lemma AdmittedCount(l: Ledger, c: Claim, mode: Mode, tokens: nat, now: Time, k: string)
    ensures Counted(Admitted(l, c, mode, tokens, now), k) <= Counted(l, k) + (if k == c.trigger.key then 1 else 0)
  {
    LostKeepsCount(l, c.trigger.key, now, k);
    var lost := SettledLost(l, c.trigger.key, now);
    var r := Reserved(lost, c, mode, tokens, now)[|l|];
    TotalAppend(lost, r, CountFor(k));
  }

  lemma SettledCount(l: Ledger, key: string, owner: string, s: Settlement, k: string)
    ensures Counted(Settled(l, key, owner, s), k) <= Counted(l, k)
    ensures s.reason == UsageLimit && k == key ==>
      Counted(Settled(l, key, owner, s), k) + CountHeld(l, key, owner) <= Counted(l, k)
  {
    TotalAtMost(l, Settled(l, key, owner, s), CountFor(k), CountFor(k));
    if s.reason == UsageLimit && k == key {
      LimitedCount(l, key, owner, s);
    }
  }

  lemma {:induction false} LimitedCount(l: Ledger, key: string, owner: string, s: Settlement)
    requires s.reason == UsageLimit
    ensures Counted(Settled(l, key, owner, s), key) + CountHeld(l, key, owner) <= Counted(l, key)
  {
    if l != [] {
      var n := |l| - 1;
      assert Settled(l, key, owner, s)[..n] == Settled(l[..n], key, owner, s);
      LimitedCount(l[..n], key, owner, s);
    }
  }

  lemma {:induction false} HeldIsCounted(l: Ledger, key: string, owner: string)
    ensures CountHeld(l, key, owner) > 0 <==> exists i :: 0 <= i < |l| && HeldBy(l[i], key, owner)
  {
    if l != [] {
      HeldIsCounted(l[..|l| - 1], key, owner);
      assert l == l[..|l| - 1] + [l[|l| - 1]];
    }
  }

  // ----- One action at a time ------------------------------------------------------------------

  lemma EnqueueKeepsTables(q: Model.Queue, l: Ledger, maxAttempts: nat, trigger: Trigger, at: Time)
    requires TablesSound(q, l, maxAttempts)
    ensures TablesSound(Enqueued(q, trigger, at), l, maxAttempts)
  {
    var q' := Enqueued(q, trigger, at);
    EnqueuedNumbered(q, trigger, at);
    if trigger.key !in q {
      forall i | 0 <= i < |l| ensures l[i].key != trigger.key {
        assert ReservedFor(l[i], q);
      }
      CountNone(l, trigger.key);
    }
    forall i | 0 <= i < |l| ensures ReservedFor(l[i], q') && OpenIsHeld(l[i], q') {
      assert ReservedFor(l[i], q) && OpenIsHeld(l[i], q);
    }
  }

  lemma EnqueueSound(setup: Setup, s: System, trigger: Trigger, at: Time)
    requires Sound(setup, s)
    ensures Sound(setup, s.(queue := Enqueued(s.queue, trigger, at)))
  {
    EnqueueKeepsTables(s.queue, s.ledger, setup.maxAttempts, trigger, at);
    forall o | o in s.workers ensures WorkerSound(o, s.workers[o], Enqueued(s.queue, trigger, at), s.ledger) {
      assert WorkerSound(o, s.workers[o], s.queue, s.ledger);
    }
  }

  /** A worker that goes on to a phase in which it relies on no more. */
  lemma PhaseSound(setup: Setup, s: System, owner: string, phase: Phase, runs: Runs.Table)
    requires Sound(setup, s) && !PhaseOf(s, owner).Idle? && (phase.Idle? || phase.claim == PhaseOf(s, owner).claim)
    requires IsSettled(phase) ==> IsSettled(PhaseOf(s, owner))
    requires HandsBack(phase) ==> HandsBack(PhaseOf(s, owner)) || phase.claim.trigger.kind == Publish
    ensures Sound(setup, s.(runs := runs, workers := s.workers[owner := phase]))
  {
    assert WorkerSound(owner, s.workers[owner], s.queue, s.ledger);
  }

  lemma {:induction false} CountNone(l: Ledger, key: string)
    requires forall i | 0 <= i < |l| :: l[i].key != key
    ensures Counted(l, key) == 0
  {
    if l != [] {
      CountNone(l[..|l| - 1], key);
    }
  }

  /** A queue statement that only closes rows, or hands them back, keeps what the ledger relies on. */
  predicate RowsKept(q: Model.Queue, q': Model.Queue) {
    && q'.Keys == q.Keys
    && forall k | k in q :: q'[k].trigger == q[k].trigger && q'[k].rowid == q[k].rowid
  }

  lemma KeptNumbered(q: Model.Queue, q': Model.Queue)
    requires Numbered(q) && RowsKept(q, q')
    ensures Numbered(q')
  {
    assert |q'| == |q'.Keys| == |q.Keys| == |q|;
  }

  /** A row left alone, or closed while nothing was reserved for it, or given up on. */
  predicate LeftOrClosed(row: QueueRow, row': QueueRow) {
    row' == row ||
    (&& row' == row.(status := row'.status, leasedUntil := None, owner := None)
     && (row'.status == Abandoned || (row'.status == Done && row.status == Pending)))
  }

  predicate AllLeftOrClosed(q: Model.Queue, q': Model.Queue) {
    q'.Keys == q.Keys && forall k | k in q :: LeftOrClosed(q[k], q'[k])
  }

  lemma ClosedJoins(q: Model.Queue, q': Model.Queue, l: Ledger, maxAttempts: nat)
    requires LedgerJoinsQueue(l, q) && RowsShaped(q, maxAttempts) && AllLeftOrClosed(q, q')
    ensures LedgerJoinsQueue(l, q')
  {
    forall i | 0 <= i < |l| ensures ReservedFor(l[i], q') && OpenIsHeld(l[i], q') {
      assert ReservedFor(l[i], q) && OpenIsHeld(l[i], q) && RowShaped(l[i].key, q[l[i].key], maxAttempts);
      assert LeftOrClosed(q[l[i].key], q'[l[i].key]);
    }
  }

  lemma ClosedShaped(q: Model.Queue, q': Model.Queue, maxAttempts: nat)
    requires RowsShaped(q, maxAttempts) && AllLeftOrClosed(q, q')
    ensures RowsShaped(q', maxAttempts)
  {
    forall k | k in q' ensures RowShaped(k, q'[k], maxAttempts) {
      assert RowShaped(k, q[k], maxAttempts) && LeftOrClosed(q[k], q'[k]);
    }
  }

  lemma ClosedKeepsWorker(o: string, phase: Phase, q: Model.Queue, q': Model.Queue, l: Ledger)
    requires WorkerSound(o, phase, q, l) && AllLeftOrClosed(q, q')
    ensures WorkerSound(o, phase, q', l)
  {
    if !phase.Idle? {
      assert LeftOrClosed(q[phase.claim.trigger.key], q'[phase.claim.trigger.key]);
    }
  }

  /** Closing rows that hold no reservation, and giving up on rows, keeps everything. */
  lemma ClosingSound(setup: Setup, s: System, s': System)
    requires Sound(setup, s) && AllLeftOrClosed(s.queue, s'.queue)
    requires s'.ledger == s.ledger && s'.breaker == s.breaker && s'.workers == s.workers
    ensures Sound(setup, s')
  {
    KeptNumbered(s.queue, s'.queue);
    ClosedShaped(s.queue, s'.queue, setup.maxAttempts);
    ClosedJoins(s.queue, s'.queue, s.ledger, setup.maxAttempts);
    forall o | o in s.workers ensures WorkerSound(o, s.workers[o], s'.queue, s.ledger) {
      ClosedKeepsWorker(o, s.workers[o], s.queue, s'.queue, s.ledger);
    }
  }

  lemma SweptSound(setup: Setup, s: System, repo: string, now: Time)
    requires Sound(setup, s)
    ensures Sound(setup, Swept(setup, s, repo, now))
  {
    SweepCloses(s.queue, repo, setup.maxAttempts, now);
    ClosingSound(setup, s, Swept(setup, s, repo, now));
  }

  lemma SweepCloses(q: Model.Queue, repo: string, maxAttempts: nat, now: Time)
    ensures AllLeftOrClosed(q, AbandonExhausted(q, repo, maxAttempts, now))
  {
  }

  lemma FoldKeeps(setup: Setup, s: System, repo: string, answered: Trigger, before: Time, head: string)
    requires Sound(setup, s)
    ensures Sound(setup, s.(queue := Folded(s.queue, repo, answered, before, head)))
  {
    FoldCloses(s.queue, repo, answered, before, head);
    ClosingSound(setup, s, s.(queue := Folded(s.queue, repo, answered, before, head)));
  }

  lemma FoldSound(setup: Setup, s: System, owner: string, repo: string, before: Time)
    requires Sound(setup, s) && PhaseOf(s, owner).Folding?
    ensures var phase := PhaseOf(s, owner);
      Sound(setup, s.(queue := Folded(s.queue, repo, phase.claim.trigger, before, phase.run.headSha),
                      workers := s.workers[owner := Idle]))
  {
    var phase := PhaseOf(s, owner);
    PhaseSound(setup, s, owner, Idle, s.runs);
    FoldKeeps(setup, s.(runs := s.runs, workers := s.workers[owner := Idle]), repo, phase.claim.trigger, before,
              phase.run.headSha);
  }

  lemma OfferSound(setup: Setup, s: System, owner: string, at: Time)
    requires Sound(setup, s) && PhaseOf(s, owner).Owing?
    ensures var phase := PhaseOf(s, owner);
      Sound(setup, s.(queue := Enqueued(s.queue, PublicationOf(phase.claim.trigger, phase.run), at),
                      workers := s.workers[owner := Settling(phase.claim, Complete, Some(phase.run))]))
  {
    var phase := PhaseOf(s, owner);
    var settling := Settling(phase.claim, Complete, Some(phase.run));
    PhaseSound(setup, s, owner, settling, s.runs);
    EnqueueSound(setup, s.(runs := s.runs, workers := s.workers[owner := settling]),
                 PublicationOf(phase.claim.trigger, phase.run), at);
  }

  lemma FoldCloses(q: Model.Queue, repo: string, answered: Trigger, before: Time, head: string)
    ensures AllLeftOrClosed(q, Folded(q, repo, answered, before, head))
  {
  }

  lemma ClosedRowKeepsTables(q: Model.Queue, l: Ledger, maxAttempts: nat, k: string, row: QueueRow)
    requires TablesSound(q, l, maxAttempts) && k in q
    requires row.trigger == q[k].trigger && row.rowid == q[k].rowid && RowShaped(k, row, maxAttempts)
    requires row.status != Claimed
    requires row.trigger.kind != Publish ==> NoneOpen(l, k) && Counted(l, k) <= row.attempts
    ensures TablesSound(q[k := row], l, maxAttempts)
  {
    var q' := q[k := row];
    KeptNumbered(q, q');
    forall i | 0 <= i < |l| ensures ReservedFor(l[i], q') && OpenIsHeld(l[i], q') {
      assert ReservedFor(l[i], q) && OpenIsHeld(l[i], q);
    }
  }

  /** The row a queue verb leaves: not held, and with the attempt counted or given back. */
  lemma VerbKeepsTables(q: Model.Queue, l: Ledger, maxAttempts: nat, c: Claim, finish: Finish)
    requires TablesSound(q, l, maxAttempts) && c.trigger.key in q
    requires OwnedBy(q, c.trigger.key, c.owner) && q[c.trigger.key].trigger.kind != Publish ==>
      NoneOpen(l, c.trigger.key)
      && (finish == ReleaseUnattempted ==> Counted(l, c.trigger.key) < q[c.trigger.key].attempts)
    ensures TablesSound(Verb(q, c, finish), l, maxAttempts)
  {
    var k := c.trigger.key;
    if OwnedBy(q, k, c.owner) {
      assert RowShaped(k, q[k], maxAttempts);
      ClosedRowKeepsTables(q, l, maxAttempts, k, Verb(q, c, finish)[k]);
      assert Verb(q, c, finish) == q[k := Verb(q, c, finish)[k]];
    }
  }

  /** A verb changes at most the row it names, and only for its owner. */
  lemma VerbRow(q: Model.Queue, c: Claim, finish: Finish, k: string)
    requires k in q
    ensures k in Verb(q, c, finish) && Verb(q, c, finish)[k].trigger == q[k].trigger
    ensures Verb(q, c, finish)[k] == q[k] || (k == c.trigger.key && OwnedBy(q, k, c.owner)
                                              && Verb(q, c, finish)[k].owner.None?)
  {
  }

  lemma VerbKeepsWorker(q: Model.Queue, l: Ledger, c: Claim, finish: Finish, o: string, phase: Phase)
    requires WorkerSound(o, phase, q, l)
    ensures WorkerSound(o, phase, Verb(q, c, finish), l)
  {
    if !phase.Idle? {
      VerbRow(q, c, finish, phase.claim.trigger.key);
    }
  }

  lemma VerbKeeps(setup: Setup, s: System, owner: string, next: Phase)
    requires Sound(setup, s) && PhaseOf(s, owner).Settling?
    requires next.Idle? || (next.Folding? && next.claim == PhaseOf(s, owner).claim)
    ensures Sound(setup, s.(queue := Verb(s.queue, PhaseOf(s, owner).claim, PhaseOf(s, owner).finish),
                            workers := s.workers[owner := next]))
  {
    var c, finish := PhaseOf(s, owner).claim, PhaseOf(s, owner).finish;
    assert WorkerSound(owner, s.workers[owner], s.queue, s.ledger);
    VerbKeepsTables(s.queue, s.ledger, setup.maxAttempts, c, finish);
    var workers := s.workers[owner := next];
    forall o | o in workers ensures WorkerSound(o, workers[o], Verb(s.queue, c, finish), s.ledger) {
      if o == owner {
        VerbRow(s.queue, c, finish, c.trigger.key);
      } else {
        VerbKeepsWorker(s.queue, s.ledger, c, finish, o, s.workers[o]);
      }
    }
  }

  lemma SettleKeepsTables(q: Model.Queue, l: Ledger, maxAttempts: nat, key: string, owner: string,
                          settlement: Settlement)
    requires TablesSound(q, l, maxAttempts)
    ensures TablesSound(q, Settled(l, key, owner, settlement), maxAttempts)
  {
    var l' := Settled(l, key, owner, settlement);
    assert forall i | 0 <= i < |l| ::
      l'[i].(settled := None) == l[i].(settled := None) && (Open(l'[i]) ==> l'[i] == l[i]);
    forall i | 0 <= i < |l'| ensures ReservedFor(l'[i], q) && OpenIsHeld(l'[i], q) {
      assert ReservedFor(l[i], q) && OpenIsHeld(l[i], q);
    }
    forall k | k in q && q[k].trigger.kind != Publish ensures Counted(l', k) <= q[k].attempts {
      SettledCount(l, key, owner, settlement, k);
    }
  }

  lemma SettleKeepsWorker(q: Model.Queue, l: Ledger, o: string, phase: Phase, key: string, owner: string,
                          settlement: Settlement)
    requires WorkerSound(o, phase, q, l)
    ensures WorkerSound(o, phase, q, Settled(l, key, owner, settlement))
  {
    if !phase.Idle? {
      SettledCount(l, key, owner, settlement, phase.claim.trigger.key);
    }
  }

  lemma SettleSound(setup: Setup, s: System, owner: string, end: RunEnd, lines: Option<int>, since: Option<string>,
                    at: Time)
    requires Sound(setup, s) && Possible(setup, s, SettleRun(owner, end, lines, since, at))
    ensures Sound(setup, Step(setup, s, SettleRun(owner, end, lines, since, at)))
  {
    var s' := Step(setup, s, SettleRun(owner, end, lines, since, at));
    var c := PhaseOf(s, owner).claim;
    var settlement := Settlement(end.usage, end.reason, lines, since, at);
    assert WorkerSound(owner, s.workers[owner], s.queue, s.ledger);
    SettleKeepsTables(s.queue, s.ledger, setup.maxAttempts, c.trigger.key, owner, settlement);
    forall o | o in s'.workers ensures WorkerSound(o, s'.workers[o], s'.queue, s'.ledger) {
      if o != owner {
        SettleKeepsWorker(s.queue, s.ledger, o, s.workers[o], c.trigger.key, owner, settlement);
      } else if IsSettled(s'.workers[o]) {
        SettlerSound(setup, s, owner, s.workers[o], end, settlement);
      }
    }
  }

  /** The settling worker, if it still holds the row, has left no reservation open. */
  lemma SettlerSound(setup: Setup, s: System, owner: string, phase: Phase, end: RunEnd, settlement: Settlement)
    requires Sound(setup, s) && PhaseOf(s, owner) == phase && InReview(phase) && WellEnded(end)
    requires phase.claim.trigger.kind != Publish && settlement.reason == end.reason
    requires CountHeld(s.ledger, phase.claim.trigger.key, owner) == 1 || end.reason == Refused || end.reason == Closed
    ensures var held := CountHeld(s.ledger, phase.claim.trigger.key, owner) == 1;
      WorkerSound(owner, AfterSettling(phase, end, held), s.queue,
                  Settled(s.ledger, phase.claim.trigger.key, owner, settlement))
  {
    var key := phase.claim.trigger.key;
    assert WorkerSound(owner, s.workers[owner], s.queue, s.ledger);
    SettledCount(s.ledger, key, owner, settlement, key);
    if OwnedBy(s.queue, key, owner) {
      SettlerLeavesNoneOpen(setup, s, key, owner, settlement);
    }
  }

  lemma SettlerLeavesNoneOpen(setup: Setup, s: System, key: string, owner: string, settlement: Settlement)
    requires Sound(setup, s) && OwnedBy(s.queue, key, owner)
    ensures NoneOpen(Settled(s.ledger, key, owner, settlement), key)
  {
    var l' := Settled(s.ledger, key, owner, settlement);
    forall i | 0 <= i < |l'| && l'[i].key == key ensures !Open(l'[i]) {
      assert OpenIsHeld(s.ledger[i], s.queue) && RowShaped(key, s.queue[key], setup.maxAttempts);
    }
  }

  lemma ClaimSound(setup: Setup, s: System, config: BudgetConfig, c: Claim, now: Time)
    requires Sound(setup, s) && PhaseOf(s, c.owner) == Idle
    requires c.trigger.key in s.queue && s.queue[c.trigger.key].trigger == c.trigger
    requires s.queue[c.trigger.key].attempts < setup.maxAttempts
    ensures Sound(setup, WithClaim(s, config, c.trigger.key, c, now))
  {
    ClaimKeepsTables(s.queue, s.ledger, setup.maxAttempts, s.breaker, config, c, now);
    forall o | o in s.workers && o != c.owner
      ensures WorkerSound(o, s.workers[o], Leased(s.queue, c.trigger.key, c.owner, c.leasedUntil),
                          LedgerAfterClaim(s.ledger, s.breaker, config, c, now))
    {
      assert WorkerSound(o, s.workers[o], s.queue, s.ledger);
      ClaimKeepsWorker(s.queue, s.ledger, s.breaker, config, c, now, o, s.workers[o]);
    }
  }

  lemma ClaimStep(setup: Setup, s: System, owner: string, repo: string, config: BudgetConfig, now: Time, key: string,
                  c: Claim)
    requires Possible(setup, s, TakeClaim(owner, repo, config, now, Some(key)))
    requires c == ClaimOf(Swept(setup, s, repo, now).queue[key], owner, now + setup.lease)
    ensures Step(setup, s, TakeClaim(owner, repo, config, now, Some(key)))
            == WithClaim(Swept(setup, s, repo, now), config, key, c, now)
  {
  }

  lemma TakeClaimSound(setup: Setup, s: System, owner: string, repo: string, config: BudgetConfig, now: Time,
                       key: Option<string>, s': System)
    requires Sound(setup, s) && Possible(setup, s, TakeClaim(owner, repo, config, now, key))
    requires s' == Step(setup, s, TakeClaim(owner, repo, config, now, key))
    ensures Sound(setup, s')
  {
    SweptSound(setup, s, repo, now);
    if key.Some? {
      var swept := Swept(setup, s, repo, now);
      var c := ClaimOf(swept.queue[key.value], owner, now + setup.lease);
      assert c.trigger.key == key.value;
      ClaimSound(setup, swept, config, c, now);
      ClaimStep(setup, s, owner, repo, config, now, key.value, c);
    }
  }

  /** What admission does to the rows there were: a lost predecessor is closed, nothing else. */
  lemma AdmittedRows(l: Ledger, c: Claim, mode: Mode, tokens: nat, now: Time)
    ensures var l' := Admitted(l, c, mode, tokens, now);
      && |l'| == |l| + 1
      && (forall i | 0 <= i < |l| :: l'[i].(settled := None) == l[i].(settled := None)
                                   && (Open(l'[i]) ==> l'[i] == l[i] && l'[i].key != c.trigger.key))
      && l'[|l|] == LedgerRow(c.trigger.key, c.owner, c.trigger.actor, c.trigger.repo, c.trigger.pr,
                              mode, tokens, now, None)
  {
  }

  lemma ClaimKeepsTables(q: Model.Queue, l: Ledger, maxAttempts: nat, b: Breaker.State, config: BudgetConfig,
                         c: Claim, now: Time)
    requires TablesSound(q, l, maxAttempts) && c.trigger.key in q && q[c.trigger.key].trigger == c.trigger
    requires q[c.trigger.key].attempts < maxAttempts
    ensures TablesSound(Leased(q, c.trigger.key, c.owner, c.leasedUntil), LedgerAfterClaim(l, b, config, c, now),
                        maxAttempts)
  {
    var q' := Leased(q, c.trigger.key, c.owner, c.leasedUntil);
    KeptNumbered(q, q');
    if c.trigger.kind == Publish {
      forall i | 0 <= i < |l| ensures ReservedFor(l[i], q') && OpenIsHeld(l[i], q') {
        assert ReservedFor(l[i], q) && OpenIsHeld(l[i], q);
      }
    } else {
      ReservationKeepsTables(q, l, c, Rung(l, b, config, c.trigger, now), config.pool.maxRunTokens, now);
    }
  }

  lemma ReservationKeepsTables(q: Model.Queue, l: Ledger, c: Claim, mode: Mode, tokens: nat, now: Time)
    requires OpenIsLast(l) && LedgerJoinsQueue(l, q) && AttemptsCover(l, q)
    requires c.trigger.key in q && q[c.trigger.key].trigger == c.trigger && c.trigger.kind != Publish
    ensures var q', l' := Leased(q, c.trigger.key, c.owner, c.leasedUntil), Admitted(l, c, mode, tokens, now);
      OpenIsLast(l') && LedgerJoinsQueue(l', q') && AttemptsCover(l', q')
  {
    var q', l' := Leased(q, c.trigger.key, c.owner, c.leasedUntil), Admitted(l, c, mode, tokens, now);
    AdmittedRows(l, c, mode, tokens, now);
    forall i | 0 <= i < |l'| ensures ReservedFor(l'[i], q') && OpenIsHeld(l'[i], q') {
      if i < |l| {
        assert ReservedFor(l[i], q) && OpenIsHeld(l[i], q);
      }
    }
    forall k | k in q' && q'[k].trigger.kind != Publish ensures Counted(l', k) <= q'[k].attempts {
      AdmittedCount(l, c, mode, tokens, now, k);
    }
  }

  lemma ClaimKeepsWorker(q: Model.Queue, l: Ledger, b: Breaker.State, config: BudgetConfig, c: Claim, now: Time,
                         o: string, phase: Phase)
    requires o != c.owner && WorkerSound(o, phase, q, l)
    requires c.trigger.key in q && q[c.trigger.key].trigger == c.trigger
    ensures WorkerSound(o, phase, Leased(q, c.trigger.key, c.owner, c.leasedUntil),
                        LedgerAfterClaim(l, b, config, c, now))
  {
    if !phase.Idle? && phase.claim.trigger.key != c.trigger.key && c.trigger.kind != Publish {
      var mode := Rung(l, b, config, c.trigger, now);
      AdmittedRows(l, c, mode, config.pool.maxRunTokens, now);
      AdmittedCount(l, c, mode, config.pool.maxRunTokens, now, phase.claim.trigger.key);
    }
  }

  lemma StepSound(setup: Setup, s: System, a: Action)
    requires Sound(setup, s) && Possible(setup, s, a)
    ensures Sound(setup, Step(setup, s, a))
  {
    match a
    case Enqueue(trigger, at) => EnqueueSound(setup, s, trigger, at);
    case TakeClaim(owner, repo, config, now, key) =>
      TakeClaimSound(setup, s, owner, repo, config, now, key, Step(setup, s, a));
    case SettleRun(owner, end, lines, since, at) => SettleSound(setup, s, owner, end, lines, since, at);
    case OfferRun(owner, at) => OfferSound(setup, s, owner, at);
    case FinishRun(owner) => VerbKeeps(setup, s, owner, PhaseOf(Step(setup, s, a), owner));
    case FoldWaiting(owner, repo, before) => FoldSound(setup, s, owner, repo, before);
    case TripBreaker(at) => Breaker.TripSound(s.breaker, at);
    case _ => GoingOnSound(setup, s, a);
  }

  /** The transactions that touch the runs at most. */
  lemma GoingOnSound(setup: Setup, s: System, a: Action)
    requires Sound(setup, s) && Possible(setup, s, a)
    requires a.ReadHistory? || a.RecordRun? || a.LookUpRun? || a.AttendRun? || a.Crash?
    ensures Sound(setup, Step(setup, s, a))
  {
    if !PhaseOf(s, a.owner).Idle? {
      PhaseSound(setup, s, a.owner, PhaseOf(Step(setup, s, a), a.owner), Step(setup, s, a).runs);
    }
  }

  lemma OneStep(setup: Setup, s: System, a: Action, s': System)
    requires Enabled(setup, s, a) && s' == Step(setup, s, a)
    ensures ValidRun(setup, s, [a]) && After(setup, s, [a]) == s'
  {
    assert [a][1..] == [];
    assert After(setup, s, [a]) == After(setup, s', []);
  }

  lemma {:induction false} RunsCompose(setup: Setup, s: System, a: seq<Action>, b: seq<Action>)
    requires ValidRun(setup, s, a) && ValidRun(setup, After(setup, s, a), b)
    ensures ValidRun(setup, s, a + b) && After(setup, s, a + b) == After(setup, After(setup, s, a), b)
    decreases |a|
  {
    if a == [] {
      assert a + b == b;
    } else {
      var ab := a + b;
      assert ab[0] == a[0] && ab[1..] == a[1..] + b;
      RunsCompose(setup, Step(setup, s, a[0]), a[1..], b);
    }
  }

  /** One more transaction after a run. */
  lemma AndThen(setup: Setup, s: System, actions: seq<Action>, a: Action, s': System)
    requires ValidRun(setup, s, actions) && Enabled(setup, After(setup, s, actions), a)
    requires s' == Step(setup, After(setup, s, actions), a)
    ensures ValidRun(setup, s, actions + [a]) && After(setup, s, actions + [a]) == s'
  {
    OneStep(setup, After(setup, s, actions), a, s');
    RunsCompose(setup, s, actions, [a]);
  }

  /** Over every run of the protocol the joint invariant holds. */
  lemma {:induction false} RunSound(setup: Setup, s: System, actions: seq<Action>)
    requires Sound(setup, s) && ValidRun(setup, s, actions)
    ensures Sound(setup, After(setup, s, actions))
    decreases |actions|
  {
    if actions != [] {
      StepSound(setup, s, actions[0]);
      RunSound(setup, Step(setup, s, actions[0]), actions[1..]);
    }
  }
}
