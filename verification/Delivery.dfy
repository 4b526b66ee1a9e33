/**
 Whether what was reviewed is ever posted: the runs table over every run of the protocol, with any number of
 workers, crashes, lapsed leases and limits that are reloaded in between.
 */
module Delivery {
  import opened Wrappers
  import opened Model
  import opened Config
  import opened Budget
  import opened Queue
  import opened Runs
  import opened Ending
  import opened Protocol
  import opened History
  import Breaker

  // ----- What the workers know of the runs -----------------------------------------------------

  /** The run a worker has yet to post or to offer. */
  function HandOf(phase: Phase): Option<string> {
    if phase.Keeping? || phase.Posting? || phase.Owing? then Some(phase.run.key) else None
  }

  /** The run a worker goes by. */
  function RunKeyOf(phase: Phase): Option<string> {
    if phase.Folding? then Some(phase.run.key)
    else if phase.Settling? && phase.folds.Some? then Some(phase.folds.value.key)
    else HandOf(phase)
  }

  /** A worker goes by the run of its own trigger, or the one its publication names; and it is recorded. */
  predicate GoesByItsRun(phase: Phase, rs: Runs.Table) {
    RunKeyOf(phase).Some? ==>
      && RunKeyOf(phase).value in rs
      && (phase.claim.trigger.kind != Publish ==> RunKeyOf(phase).value == phase.claim.trigger.key)
      && (phase.claim.trigger.kind == Publish ==> phase.Posting?)
  }

  predicate RunsSound(s: System) {
    && (forall k | k in s.runs :: s.runs[k].key == k)
    && forall o | o in s.workers :: GoesByItsRun(s.workers[o], s.runs)
  }

  predicate Acts(a: Action, o: string) {
    match a
    case Enqueue(_, _) => false
    case TripBreaker(_) => false
    case TakeClaim(owner, _, _, _, key) => key.Some? && owner == o
    case _ => a.owner == o
  }

  lemma OthersStay(setup: Setup, s: System, a: Action, o: string)
    requires Possible(setup, s, a) && !Acts(a, o)
    ensures PhaseOf(Step(setup, s, a), o) == PhaseOf(s, o)
  {
  }

  lemma RunsGrow(setup: Setup, s: System, a: Action, k: string)
    requires Possible(setup, s, a) && forall j | j in s.runs :: s.runs[j].key == j
    ensures k in s.runs ==> k in Step(setup, s, a).runs
    ensures k in Step(setup, s, a).runs ==> Step(setup, s, a).runs[k].key == k
  {
  }

  lemma BeginnerGoesByItsRun(setup: Setup, s: System, a: Action, o: string)
    requires RunsSound(s) && Possible(setup, s, a) && Acts(a, o)
    requires a.TakeClaim? || a.ReadHistory? || a.RecordRun? || a.LookUpRun? || a.Crash?
    ensures GoesByItsRun(PhaseOf(Step(setup, s, a), o), Step(setup, s, a).runs)
  {
  }

  lemma PosterGoesByItsRun(setup: Setup, s: System, a: Action, o: string)
    requires RunsSound(s) && Possible(setup, s, a) && (a.AttendRun? || a.OfferRun?) && a.owner == o
    ensures GoesByItsRun(PhaseOf(Step(setup, s, a), o), Step(setup, s, a).runs)
  {
    assert GoesByItsRun(s.workers[o], s.runs);
  }

  lemma CloserGoesByItsRun(setup: Setup, s: System, a: Action, o: string)
    requires RunsSound(s) && Possible(setup, s, a) && (a.FinishRun? || a.FoldWaiting?) && a.owner == o
    ensures GoesByItsRun(PhaseOf(Step(setup, s, a), o), Step(setup, s, a).runs)
  {
    assert GoesByItsRun(s.workers[o], s.runs);
  }

  lemma SettlerGoesByItsRun(setup: Setup, s: System, a: Action, o: string)
    requires RunsSound(s) && Possible(setup, s, a) && a.SettleRun? && a.owner == o
    ensures GoesByItsRun(PhaseOf(Step(setup, s, a), o), Step(setup, s, a).runs)
  {
    assert GoesByItsRun(s.workers[o], s.runs);
  }

  lemma ActorGoesByItsRun(setup: Setup, s: System, a: Action, o: string)
    requires RunsSound(s) && Possible(setup, s, a) && Acts(a, o)
    ensures GoesByItsRun(PhaseOf(Step(setup, s, a), o), Step(setup, s, a).runs)
  {
    if a.TakeClaim? || a.ReadHistory? || a.RecordRun? || a.LookUpRun? || a.Crash? {
      BeginnerGoesByItsRun(setup, s, a, o);
    } else if a.AttendRun? || a.OfferRun? {
      PosterGoesByItsRun(setup, s, a, o);
    } else if a.SettleRun? {
      SettlerGoesByItsRun(setup, s, a, o);
    } else {
      CloserGoesByItsRun(setup, s, a, o);
    }
  }

  lemma RunsStepSound(setup: Setup, s: System, a: Action)
    requires RunsSound(s) && Possible(setup, s, a)
    ensures RunsSound(Step(setup, s, a))
  {
    var s' := Step(setup, s, a);
    forall k | k in s'.runs ensures s'.runs[k].key == k {
      RunsGrow(setup, s, a, k);
    }
    forall o | o in s'.workers ensures GoesByItsRun(s'.workers[o], s'.runs) {
      WorkerGoesByItsRun(setup, s, a, o);
    }
  }

  lemma WorkerGoesByItsRun(setup: Setup, s: System, a: Action, o: string)
    requires RunsSound(s) && Possible(setup, s, a)
    ensures GoesByItsRun(PhaseOf(Step(setup, s, a), o), Step(setup, s, a).runs)
  {
    if Acts(a, o) {
      ActorGoesByItsRun(setup, s, a, o);
    } else {
      OthersStay(setup, s, a, o);
      var phase := PhaseOf(s, o);
      if RunKeyOf(phase).Some? {
        assert GoesByItsRun(s.workers[o], s.runs);
        RunsGrow(setup, s, a, RunKeyOf(phase).value);
      }
    }
  }

  lemma {:induction false} RunsAlwaysSound(setup: Setup, s: System, actions: seq<Action>)
    requires RunsSound(s) && ValidRun(setup, s, actions)
    ensures RunsSound(After(setup, s, actions))
    decreases |actions|
  {
    if actions != [] {
      RunsStepSound(setup, s, actions[0]);
      RunsAlwaysSound(setup, Step(setup, s, actions[0]), actions[1..]);
    }
  }

  // ----- Rows that will still be claimed -------------------------------------------------------

  /** The transaction closes the row: it sweeps it, finishes it, or folds it. */
  predicate ClosesRow(setup: Setup, s: System, a: Action, k: string)
    requires Possible(setup, s, a)
  {
    k in s.queue &&
    match a
    case TakeClaim(_, repo, _, now, _) => OutOfAttempts(s.queue[k], repo, setup.maxAttempts, now)
    case FinishRun(owner) =>
      var phase := PhaseOf(s, owner);
      && phase.claim.trigger.key == k && OwnedBy(s.queue, k, owner)
      && (phase.finish == Complete || phase.finish == Abandon)
    case FoldWaiting(owner, repo, before) =>
      Folds(s.queue[k], repo, PhaseOf(s, owner).claim.trigger, before, PhaseOf(s, owner).run.headSha)
    case _ => false
  }

  /** The transaction adds the row. */
  predicate AddsRow(setup: Setup, s: System, a: Action, k: string)
    requires Possible(setup, s, a)
  {
    k !in s.queue &&
    match a
    case Enqueue(trigger, _) => trigger.key == k
    case OfferRun(owner, _) => PUBLISH_PREFIX + PhaseOf(s, owner).run.key == k
    case _ => false
  }

  lemma SweepClosesRow(q: Model.Queue, repo: string, maxAttempts: nat, now: Time, k: string)
    ensures RowOpen(AbandonExhausted(q, repo, maxAttempts, now), k) <==>
      RowOpen(q, k) && !OutOfAttempts(q[k], repo, maxAttempts, now)
  {
  }

  lemma LeaseKeepsRow(q: Model.Queue, key: string, owner: string, until: Time, now: Time, k: string)
    requires key in q && Offered(q[key], now)
    ensures RowOpen(Leased(q, key, owner, until), k) <==> RowOpen(q, k)
  {
  }

  lemma VerbClosesRow(q: Model.Queue, maxAttempts: nat, c: Claim, finish: Finish, k: string)
    requires RowsShaped(q, maxAttempts)
    ensures RowOpen(Verb(q, c, finish), k) <==>
      RowOpen(q, k)
      && !(c.trigger.key == k && OwnedBy(q, k, c.owner) && (finish == Complete || finish == Abandon))
  {
    assert k in q ==> RowShaped(k, q[k], maxAttempts);
  }

  lemma FoldClosesRow(q: Model.Queue, repo: string, answered: Trigger, before: Time, head: string, k: string)
    ensures RowOpen(Folded(q, repo, answered, before, head), k) <==>
      RowOpen(q, k) && !Folds(q[k], repo, answered, before, head)
  {
  }

  lemma TakeStep(setup: Setup, s: System, a: Action, k: string)
    requires a.TakeClaim? && Possible(setup, s, a)
    ensures RowOpen(Step(setup, s, a).queue, k) <==> RowOpen(s.queue, k) && !ClosesRow(setup, s, a, k)
  {
    SweepClosesRow(s.queue, a.repo, setup.maxAttempts, a.now, k);
    if a.key.Some? {
      LeaseKeepsRow(Swept(setup, s, a.repo, a.now).queue, a.key.value, a.owner, a.now + setup.lease, a.now, k);
    }
  }

  lemma FinishStep(setup: Setup, s: System, a: Action, k: string)
    requires a.FinishRun? && Possible(setup, s, a) && Sound(setup, s)
    ensures RowOpen(Step(setup, s, a).queue, k) <==> RowOpen(s.queue, k) && !ClosesRow(setup, s, a, k)
  {
    assert WorkerSound(a.owner, s.workers[a.owner], s.queue, s.ledger);
    VerbClosesRow(s.queue, setup.maxAttempts, PhaseOf(s, a.owner).claim, PhaseOf(s, a.owner).finish, k);
  }

  lemma FoldStep(setup: Setup, s: System, a: Action, k: string)
    requires a.FoldWaiting? && Possible(setup, s, a)
    ensures RowOpen(Step(setup, s, a).queue, k) <==> RowOpen(s.queue, k) && !ClosesRow(setup, s, a, k)
  {
    var phase := PhaseOf(s, a.owner);
    FoldClosesRow(s.queue, a.repo, phase.claim.trigger, a.before, phase.run.headSha, k);
  }

  lemma RowStep(setup: Setup, s: System, a: Action, k: string)
    requires Sound(setup, s) && Possible(setup, s, a)
    ensures RowOpen(Step(setup, s, a).queue, k) <==>
      (RowOpen(s.queue, k) && !ClosesRow(setup, s, a, k)) || AddsRow(setup, s, a, k)
  {
    match a
    case TakeClaim(_, _, _, _, _) => TakeStep(setup, s, a, k);
    case FinishRun(_) => FinishStep(setup, s, a, k);
    case FoldWaiting(_, _, _) => FoldStep(setup, s, a, k);
    case _ =>
  }

  // ----- Owed, or over -------------------------------------------------------------------------

  /** The item of a run goes on to be claimed unless its row is closed, and starts to when it is first offered. */
  predicate StartsOwing(setup: Setup, s: System, a: Action, k: string)
    requires Possible(setup, s, a)
  {
    a.OfferRun? && PhaseOf(s, a.owner).run.key == k && PUBLISH_PREFIX + k !in s.queue
  }

  lemma OwedStep(setup: Setup, s: System, a: Action, k: string)
    requires Sound(setup, s) && Possible(setup, s, a)
    ensures IsOwed(Step(setup, s, a).queue, k) <==>
      (IsOwed(s.queue, k) && !ClosesRow(setup, s, a, PUBLISH_PREFIX + k)) || StartsOwing(setup, s, a, k)
  {
    var item, q' := PUBLISH_PREFIX + k, Step(setup, s, a).queue;
    RowStep(setup, s, a, item);
    QueueStepKeeps(setup, s, a, q');
    assert item in s.queue ==> q'[item].trigger == s.queue[item].trigger;
    if item !in s.queue && a.OfferRun? {
      ItemsAreApart(PhaseOf(s, a.owner).run.key, k);
    }
  }

  lemma ItemsAreApart(j: string, k: string)
    ensures PUBLISH_PREFIX + j == PUBLISH_PREFIX + k <==> j == k
  {
    assert (PUBLISH_PREFIX + j)[|PUBLISH_PREFIX|..] == j && (PUBLISH_PREFIX + k)[|PUBLISH_PREFIX|..] == k;
  }

  /** Posted or given up. */
  predicate IsOver(rs: Runs.Table, k: string) {
    k in rs && (rs[k].publishedAt.Some? || rs[k].publishFailedAt.Some?)
  }

  /** A failed post of an unposted run, counted against a limit it does not reach: a stamp there was is taken back. */
  predicate Reopens(setup: Setup, s: System, a: Action, k: string)
    requires Possible(setup, s, a)
  {
    && a.AttendRun? && PhaseOf(s, a.owner).run.key == k && !a.post.accepted
    && k in s.runs && s.runs[k].publishedAt.None? && s.runs[k].publishAttempts + 1 < a.post.limit
  }

  /** The post is taken, or its failure reaches the limit. */
  predicate Ends(setup: Setup, s: System, a: Action, k: string)
    requires Possible(setup, s, a)
  {
    && a.AttendRun? && PhaseOf(s, a.owner).run.key == k && k in s.runs
    && (a.post.accepted || s.runs[k].publishAttempts + 1 >= a.post.limit)
  }

  lemma OverStep(setup: Setup, s: System, a: Action, k: string)
    requires RunsSound(s) && Possible(setup, s, a)
    ensures IsOver(Step(setup, s, a).runs, k) <==>
      (IsOver(s.runs, k) && !Reopens(setup, s, a, k)) || Ends(setup, s, a, k)
  {
  }

  // ----- Exactly when a run stays accounted for ------------------------------------------------

  predicate Accounted(s: System, k: string) {
    AccountedFor(s.queue, s.runs, k)
  }

  /**
   What loses a run: its item is swept or closed while it is neither posted nor given up; or it was given up,
   its item is closed, and one more failed post is counted against a raised limit.
   */
  predicate Loses(setup: Setup, s: System, a: Action, k: string)
    requires Possible(setup, s, a)
  {
    || (!IsOver(s.runs, k) && ClosesRow(setup, s, a, PUBLISH_PREFIX + k))
    || (!IsOwed(s.queue, k) && Reopens(setup, s, a, k))
  }

  /** What brings a run to account: a post that ends it, a first offer, or a record while an item waits for it. */
  predicate Gains(setup: Setup, s: System, a: Action, k: string)
    requires Possible(setup, s, a)
  {
    || Ends(setup, s, a, k)
    || (k in s.runs && StartsOwing(setup, s, a, k))
    || (a.RecordRun? && PhaseOf(s, a.owner).claim.trigger.key == k && IsOwed(s.queue, k))
  }

  lemma AccountedByParts(setup: Setup, s: System, a: Action, s': System, k: string)
    requires Possible(setup, s, a)
    requires IsOwed(s'.queue, k) <==>
      (IsOwed(s.queue, k) && !ClosesRow(setup, s, a, PUBLISH_PREFIX + k)) || StartsOwing(setup, s, a, k)
    requires IsOver(s'.runs, k) <==> (IsOver(s.runs, k) && !Reopens(setup, s, a, k)) || Ends(setup, s, a, k)
    requires k in s'.runs <==> k in s.runs || (a.RecordRun? && PhaseOf(s, a.owner).claim.trigger.key == k)
    ensures Accounted(s, k) ==> (Accounted(s', k) <==> !Loses(setup, s, a, k))
    ensures !Accounted(s, k) ==> (Accounted(s', k) <==> Gains(setup, s, a, k))
  {
  }

  lemma RecordedStep(setup: Setup, s: System, a: Action, k: string)
    requires Possible(setup, s, a)
    ensures k in Step(setup, s, a).runs <==> k in s.runs || (a.RecordRun? && PhaseOf(s, a.owner).claim.trigger.key == k)
  {
  }

  /** One transaction, exactly. */
  lemma AccountedStep(setup: Setup, s: System, a: Action, k: string)
    requires Sound(setup, s) && RunsSound(s) && Possible(setup, s, a)
    ensures Accounted(s, k) ==> (Accounted(Step(setup, s, a), k) <==> !Loses(setup, s, a, k))
    ensures !Accounted(s, k) ==> (Accounted(Step(setup, s, a), k) <==> Gains(setup, s, a, k))
  {
    OwedStep(setup, s, a, k);
    OverStep(setup, s, a, k);
    RecordedStep(setup, s, a, k);
    AccountedByParts(setup, s, a, Step(setup, s, a), k);
  }

  /** At the beginning, and after each of the actions. */
  predicate AlwaysAccounted(setup: Setup, s: System, actions: seq<Action>, k: string)
    requires ValidRun(setup, s, actions)
    decreases |actions|
  {
    Accounted(s, k) && (actions == [] || AlwaysAccounted(setup, Step(setup, s, actions[0]), actions[1..], k))
  }

  predicate NeverLoses(setup: Setup, s: System, actions: seq<Action>, k: string)
    requires ValidRun(setup, s, actions)
    decreases |actions|
  {
    actions == [] ||
    (!Loses(setup, s, actions[0], k) && NeverLoses(setup, Step(setup, s, actions[0]), actions[1..], k))
  }

  /** Over every interleaving: a run that is accounted for stays so exactly if no transaction loses it. */
  lemma {:induction false} StaysAccounted(setup: Setup, s: System, actions: seq<Action>, k: string)
    requires Sound(setup, s) && RunsSound(s) && ValidRun(setup, s, actions) && Accounted(s, k)
    ensures AlwaysAccounted(setup, s, actions, k) <==> NeverLoses(setup, s, actions, k)
    decreases |actions|
  {
    if actions != [] {
      var s1 := Step(setup, s, actions[0]);
      AccountedStep(setup, s, actions[0], k);
      StepSound(setup, s, actions[0]);
      RunsStepSound(setup, s, actions[0]);
      if Accounted(s1, k) {
        StaysAccounted(setup, s1, actions[1..], k);
      }
    }
  }

  /** A posted run is never lost: whatever follows, it stays posted. */
  lemma {:induction false} PostedForGood(setup: Setup, s: System, actions: seq<Action>, k: string)
    requires ValidRun(setup, s, actions) && k in s.runs && s.runs[k].publishedAt.Some?
    ensures k in After(setup, s, actions).runs
    ensures After(setup, s, actions).runs[k].publishedAt == s.runs[k].publishedAt
    decreases |actions|
  {
    if actions != [] {
      PostedForGood(setup, Step(setup, s, actions[0]), actions[1..], k);
    }
  }

  // ----- Exactly when a recorded run is dropped ------------------------------------------------

  predicate InHand(s: System, k: string) {
    exists o | o in s.workers :: HandOf(s.workers[o]) == Some(k)
  }

  /** Something is still to come of a recorded run, or has come of it already. */
  predicate Pursued(s: System, k: string) {
    Accounted(s, k) || RowOpen(s.queue, k) || InHand(s, k)
  }

  /**
   The acting worker has the run in hand and lets it go: it dies, finds no reservation to settle, offers the
   run, or has posted it, as far as it will.
   */
  predicate LetsGo(setup: Setup, s: System, a: Action, owner: string, k: string)
    requires Possible(setup, s, a)
  {
    HandOf(PhaseOf(s, owner)) == Some(k) &&
    match a
    case Crash(o) => o == owner
    case SettleRun(o, _, _, _, _) => o == owner && CountHeld(s.ledger, PhaseOf(s, o).claim.trigger.key, o) != 1
    case AttendRun(o, post) =>
      o == owner && (PhaseOf(s, o).claim.trigger.kind == Publish || !Owes(Attended(s.runs, k, post), k, post))
    case OfferRun(o, _) => o == owner
    case _ => false
  }

  /** The acting worker takes the run in hand: it records it, or looks it up unposted. */
  predicate TakesUp(setup: Setup, s: System, a: Action, k: string)
    requires Possible(setup, s, a)
  {
    match a
    case RecordRun(owner, _, _, _) => PhaseOf(s, owner).claim.trigger.key == k
    case LookUpRun(owner) => PublishedRunKey(PhaseOf(s, owner).claim.trigger) == k && Unposted(s.runs, k)
    case _ => false
  }

  lemma ActorsHandStep(setup: Setup, s: System, a: Action, o: string, k: string)
    requires RunsSound(s) && Possible(setup, s, a) && Acts(a, o)
    ensures HandOf(PhaseOf(Step(setup, s, a), o)) == Some(k) <==>
      || (HandOf(PhaseOf(s, o)) == Some(k) && !LetsGo(setup, s, a, o, k))
      || (TakesUp(setup, s, a, k) && a.owner == o)
  {
    assert o in s.workers ==> GoesByItsRun(s.workers[o], s.runs);
  }

  lemma HandStep(setup: Setup, s: System, a: Action, o: string, k: string)
    requires RunsSound(s) && Possible(setup, s, a)
    ensures HandOf(PhaseOf(Step(setup, s, a), o)) == Some(k) <==>
      || (HandOf(PhaseOf(s, o)) == Some(k) && !LetsGo(setup, s, a, o, k))
      || (TakesUp(setup, s, a, k) && a.owner == o)
  {
    if Acts(a, o) {
      ActorsHandStep(setup, s, a, o, k);
    } else {
      OthersStay(setup, s, a, o);
    }
  }

  predicate StaysInHand(setup: Setup, s: System, a: Action, k: string)
    requires Possible(setup, s, a)
  {
    || TakesUp(setup, s, a, k)
    || exists o | o in s.workers :: HandOf(s.workers[o]) == Some(k) && !LetsGo(setup, s, a, o, k)
  }

  lemma InHandByWorkers(setup: Setup, s: System, a: Action, s': System, k: string)
    requires Possible(setup, s, a)
    requires forall o :: HandOf(PhaseOf(s', o)) == Some(k) <==>
      || (HandOf(PhaseOf(s, o)) == Some(k) && !LetsGo(setup, s, a, o, k))
      || (TakesUp(setup, s, a, k) && a.owner == o)
    ensures InHand(s', k) <==> StaysInHand(setup, s, a, k)
  {
    if InHand(s', k) {
      var o :| o in s'.workers && HandOf(s'.workers[o]) == Some(k);
      assert HandOf(PhaseOf(s', o)) == Some(k);
    }
    if TakesUp(setup, s, a, k) {
      assert HandOf(PhaseOf(s', a.owner)) == Some(k);
    } else if StaysInHand(setup, s, a, k) {
      var o :| o in s.workers && HandOf(s.workers[o]) == Some(k) && !LetsGo(setup, s, a, o, k);
      assert HandOf(PhaseOf(s', o)) == Some(k);
    }
  }

  lemma InHandStep(setup: Setup, s: System, a: Action, k: string)
    requires RunsSound(s) && Possible(setup, s, a)
    ensures InHand(Step(setup, s, a), k) <==> StaysInHand(setup, s, a, k)
  {
    forall o
      ensures HandOf(PhaseOf(Step(setup, s, a), o)) == Some(k) <==>
        || (HandOf(PhaseOf(s, o)) == Some(k) && !LetsGo(setup, s, a, o, k))
        || (TakesUp(setup, s, a, k) && a.owner == o)
    {
      HandStep(setup, s, a, o, k);
    }
    InHandByWorkers(setup, s, a, Step(setup, s, a), k);
  }

  /** After this transaction nothing more will come of the run, and nothing has. */
  predicate Drops(setup: Setup, s: System, a: Action, k: string)
    requires Possible(setup, s, a)
  {
    && (if Accounted(s, k) then Loses(setup, s, a, k) else !Gains(setup, s, a, k))
    && (RowOpen(s.queue, k) ==> ClosesRow(setup, s, a, k)) && !AddsRow(setup, s, a, k)
    && !StaysInHand(setup, s, a, k)
  }

  lemma PursuedStep(setup: Setup, s: System, a: Action, k: string)
    requires Sound(setup, s) && RunsSound(s) && Possible(setup, s, a)
    ensures Pursued(Step(setup, s, a), k) <==> !Drops(setup, s, a, k)
  {
    AccountedStep(setup, s, a, k);
    RowStep(setup, s, a, k);
    InHandStep(setup, s, a, k);
  }

  /** A worker that lets go of a run which was not accounted for, and is not now. */
  lemma WaysToLetGo(setup: Setup, s: System, a: Action, o: string, k: string)
    requires o in s.workers && GoesByItsRun(s.workers[o], s.runs)
    requires Possible(setup, s, a) && LetsGo(setup, s, a, o, k) && !Accounted(s, k) && !Gains(setup, s, a, k)
    ensures
      || (a.Crash? && HandOf(PhaseOf(s, a.owner)) == Some(k))
      || (a.SettleRun? && LetsGo(setup, s, a, a.owner, k))
      || (a.OfferRun? && PhaseOf(s, a.owner).run.key == k && PUBLISH_PREFIX + k in s.queue)
      || (a.AttendRun? && Reopens(setup, s, a, k))
  {
  }

  /** The ways a run that was pursued is dropped. */
  lemma WaysToDrop(setup: Setup, s: System, a: Action, k: string)
    requires Sound(setup, s) && RunsSound(s) && Possible(setup, s, a) && Pursued(s, k) && Drops(setup, s, a, k)
    ensures
      || (a.Crash? && HandOf(PhaseOf(s, a.owner)) == Some(k))
      || (a.SettleRun? && LetsGo(setup, s, a, a.owner, k))
      || (a.OfferRun? && PhaseOf(s, a.owner).run.key == k && PUBLISH_PREFIX + k in s.queue)
      || (a.AttendRun? && Reopens(setup, s, a, k))
      || ClosesRow(setup, s, a, k)
      || ClosesRow(setup, s, a, PUBLISH_PREFIX + k)
  {
    if InHand(s, k) && !RowOpen(s.queue, k) && !Accounted(s, k) {
      var o :| o in s.workers && HandOf(s.workers[o]) == Some(k);
      WaysToLetGo(setup, s, a, o, k);
    }
  }

  predicate AlwaysPursued(setup: Setup, s: System, actions: seq<Action>, k: string)
    requires ValidRun(setup, s, actions)
    decreases |actions|
  {
    && (k in s.runs ==> Pursued(s, k))
    && (actions == [] || AlwaysPursued(setup, Step(setup, s, actions[0]), actions[1..], k))
  }

  predicate NeverDrops(setup: Setup, s: System, actions: seq<Action>, k: string)
    requires ValidRun(setup, s, actions)
    decreases |actions|
  {
    actions == [] ||
    (&& (k in Step(setup, s, actions[0]).runs ==> !Drops(setup, s, actions[0], k))
     && NeverDrops(setup, Step(setup, s, actions[0]), actions[1..], k))
  }

  /** Over every interleaving: something is still to come, or has come, of a recorded run exactly if none drops it. */
  lemma {:induction false} StaysPursued(setup: Setup, s: System, actions: seq<Action>, k: string)
    requires Sound(setup, s) && RunsSound(s) && ValidRun(setup, s, actions) && (k in s.runs ==> Pursued(s, k))
    ensures AlwaysPursued(setup, s, actions, k) <==> NeverDrops(setup, s, actions, k)
    decreases |actions|
  {
    if actions != [] {
      var s1 := Step(setup, s, actions[0]);
      PursuedStep(setup, s, actions[0], k);
      StepSound(setup, s, actions[0]);
      RunsStepSound(setup, s, actions[0]);
      if k in s1.runs ==> Pursued(s1, k) {
        StaysPursued(setup, s1, actions[1..], k);
      }
    }
  }

  lemma {:induction false} PursuedAtLast(setup: Setup, s: System, actions: seq<Action>, k: string)
    requires ValidRun(setup, s, actions) && AlwaysPursued(setup, s, actions, k)
    ensures k in After(setup, s, actions).runs ==> Pursued(After(setup, s, actions), k)
    decreases |actions|
  {
    if actions != [] {
      PursuedAtLast(setup, Step(setup, s, actions[0]), actions[1..], k);
    }
  }

  /**
   Over every run from the empty tables: once its row is closed and no worker has it in hand, a recorded run
   that no transaction dropped is posted, given up or owed.
   */
  lemma RecordedEndsAccounted(setup: Setup, start: Time, actions: seq<Action>, k: string)
    requires ValidRun(setup, Fresh(start), actions) && NeverDrops(setup, Fresh(start), actions, k)
    ensures var s := After(setup, Fresh(start), actions);
      k in s.runs && !RowOpen(s.queue, k) && !InHand(s, k) ==> Accounted(s, k)
  {
    FreshSound(setup, start);
    StaysPursued(setup, Fresh(start), actions, k);
    PursuedAtLast(setup, Fresh(start), actions, k);
  }

  /**
   A fold closes what waited, and the run it answers it with is recorded. Before the fold something is still to
   come of that run, or has come, if no transaction dropped it; and after it exactly if the fold does not drop it.
   */
  lemma FoldedIsAnswered(setup: Setup, start: Time, actions: seq<Action>, owner: string, repo: string, before: Time)
    requires ValidRun(setup, Fresh(start), actions)
    requires PhaseOf(After(setup, Fresh(start), actions), owner).Folding?
    ensures var s := After(setup, Fresh(start), actions); var a := FoldWaiting(owner, repo, before);
      var run := PhaseOf(s, owner).run; var s' := Step(setup, s, a);
      && run.key in s'.runs
      && (forall j | j in s.queue && Folds(s.queue[j], repo, PhaseOf(s, owner).claim.trigger, before, run.headSha) ::
            s'.queue[j].status == Done)
      && (Pursued(s', run.key) <==> !Drops(setup, s, a, run.key))
      && (NeverDrops(setup, Fresh(start), actions, run.key) ==> Pursued(s, run.key))
  {
    var s := After(setup, Fresh(start), actions);
    var k := PhaseOf(s, owner).run.key;
    FreshSound(setup, start);
    RunSound(setup, Fresh(start), actions);
    RunsAlwaysSound(setup, Fresh(start), actions);
    assert GoesByItsRun(s.workers[owner], s.runs);
    PursuedStep(setup, s, FoldWaiting(owner, repo, before), k);
    if NeverDrops(setup, Fresh(start), actions, k) {
      StaysPursued(setup, Fresh(start), actions, k);
      PursuedAtLast(setup, Fresh(start), actions, k);
    }
  }

  // ----- How often one run is posted -----------------------------------------------------------

  /** What a transaction changes in the runs table. */
  function ChangesOf(setup: Setup, s: System, a: Action): seq<Change>
    requires Possible(setup, s, a)
  {
    match a
    case RecordRun(owner, head, carried, at) => [Change.Record(RunBy(PhaseOf(s, owner), head, carried, at))]
    case AttendRun(owner, post) => [PostChange(PhaseOf(s, owner).run.key, post)]
    case _ => []
  }

  function AllChanges(setup: Setup, s: System, actions: seq<Action>): seq<Change>
    requires ValidRun(setup, s, actions)
    decreases |actions|
  {
    if actions == [] then []
    else ChangesOf(setup, s, actions[0]) + AllChanges(setup, Step(setup, s, actions[0]), actions[1..])
  }

  predicate UnderLimit(actions: seq<Action>, limit: nat) {
    forall i | 0 <= i < |actions| && actions[i].AttendRun? :: actions[i].post.limit == limit
  }

  lemma {:induction false} RunsAreChanges(setup: Setup, s: System, actions: seq<Action>, limit: nat)
    requires ValidRun(setup, s, actions) && UnderLimit(actions, limit)
    ensures After(setup, s, actions).runs == AfterChanges(s.runs, AllChanges(setup, s, actions), limit)
    ensures forall i | 0 <= i < |AllChanges(setup, s, actions)| :: FreshRecord(AllChanges(setup, s, actions)[i])
    decreases |actions|
  {
    if actions != [] {
      var s1, rest := Step(setup, s, actions[0]), AllChanges(setup, Step(setup, s, actions[0]), actions[1..]);
      RunsAreChanges(setup, s1, actions[1..], limit);
      var first := ChangesOf(setup, s, actions[0]);
      if first == [] {
        assert first + rest == rest;
      } else {
        assert (first + rest)[1..] == rest;
      }
    }
  }

  /**
   Over every run of the protocol under one limit: no run's counted failures pass the limit exactly when no
   worker counts one for a run that is given up already and not posted.
   */
  lemma PostsStayWithin(setup: Setup, start: Time, actions: seq<Action>, limit: nat)
    requires ValidRun(setup, Fresh(start), actions) && UnderLimit(actions, limit) && limit >= 1
    ensures PostsWithin(After(setup, Fresh(start), actions).runs, limit) <==>
      NeverCountsGivenUp(map[], AllChanges(setup, Fresh(start), actions), limit)
  {
    RunsAreChanges(setup, Fresh(start), actions, limit);
    FailedPostsBounded(map[], AllChanges(setup, Fresh(start), actions), limit);
  }

  // ----- Three ways to lose a run --------------------------------------------------------------

  /** A row at its lapsed lease: its holder crashed, or is slower than its lease. */
  function Lapsed(t: Trigger, owner: string, attempts: nat, rowid: nat): QueueRow {
    QueueRow(t, Claimed, attempts, 0, rowid, Some(0), Some(owner))
  }

  /** A run whose item is at its last attempt, and the holder of that gone. */
  function AtItsLastAttempt(setup: Setup, t: Trigger, run: Store.Run): System {
    var item := PublicationOf(t, run);
    System(map[item.key := Lapsed(item, "gone", setup.maxAttempts, 1)], [], Breaker.NEVER_TRIPPED,
           map[run.key := run], map[], 0)
  }

  lemma LastAttemptIsSound(setup: Setup, t: Trigger, run: Store.Run)
    requires run == RunFor(t, run.headSha, [], 0)
    ensures Sound(setup, AtItsLastAttempt(setup, t, run)) && RunsSound(AtItsLastAttempt(setup, t, run))
  {
    assert |AtItsLastAttempt(setup, t, run).queue| == 1;
  }

  /** The sweep alone: the next claim, whatever it takes, gives up on the item. */
  lemma SweepLosesARun(setup: Setup, t: Trigger, run: Store.Run, config: BudgetConfig)
    requires run == RunFor(t, run.headSha, [], 0)
    ensures var s := AtItsLastAttempt(setup, t, run); var sweep := TakeClaim("next", t.repo, config, 0, None);
      && Sound(setup, s) && RunsSound(s) && Accounted(s, run.key)
      && Enabled(setup, s, sweep) && !Pursued(Step(setup, s, sweep), run.key)
  {
    LastAttemptIsSound(setup, t, run);
    ItemIsAnother(run.key);
  }

  /** A run given up after one failed post, its item closed; and a worker that reviewed its trigger again. */
  function GivenUpOnce(t: Trigger, run: Store.Run): System {
    var item := PublicationOf(t, run);
    System(map[t.key := Lapsed(t, "again", 1, 1), item.key := QueueRow(item, Done, 0, 0, 2, None, None)],
           [], Breaker.NEVER_TRIPPED, map[run.key := run.(publishAttempts := 1, publishFailedAt := Some(0))],
           map["again" := Posting(Claim(t, 1, "again", 0), run)], 0)
  }

  /** The post fails again, under a limit raised to five: the stamp is taken back, and the offer adds no item. */
  lemma RaisedLimitLosesARun(setup: Setup, t: Trigger, run: Store.Run)
    requires t.kind != Publish && run == RunFor(t, run.headSha, [], 0)
    ensures var s := GivenUpOnce(t, run); var attend := AttendRun("again", PostAnswer(false, 5, 0));
      && Accounted(s, run.key) && Enabled(setup, s, attend)
      && var s1 := Step(setup, s, attend);
      && !Accounted(s1, run.key) && Enabled(setup, s1, OfferRun("again", 0))
      && var s2 := Step(setup, s1, OfferRun("again", 0));
      && s2.queue == s.queue && Enabled(setup, s2, FinishRun("again"))
      && !Pursued(Step(setup, s2, FinishRun("again")), run.key)
  {
    ItemIsAnother(t.key);
  }

  /** A worker that has recorded its run, whose lease is over; and a trigger that waits for the same review. */
  function Slow(t: Trigger, waiting: Trigger, run: Store.Run): System {
    System(map[t.key := Lapsed(t, "slow", 1, 1), waiting.key := QueueRow(waiting, Pending, 0, 0, 2, None, None)],
           [LedgerRow(t.key, "slow", t.actor, t.repo, t.pr, Full, 5, 0, None)], Breaker.NEVER_TRIPPED,
           map[run.key := run], map["slow" := Keeping(Claim(t, 1, "slow", 0), run)], 0)
  }

  predicate WaitsFor(t: Trigger, waiting: Trigger) {
    && t.kind != Publish && waiting.kind != Publish && waiting.key != t.key && waiting.headSha.None?
    && waiting.repo == t.repo && waiting.pr == t.pr && waiting.command == t.command
  }

  lemma CountedOne(r: LedgerRow, k: string)
    ensures Counted([r], k) == if CountsFor(r, k) then 1 else 0
  {
    assert [] + [r] == [r];
    TotalAppend([], r, CountFor(k));
  }

  lemma SlowRowsAreSound(setup: Setup, t: Trigger, waiting: Trigger, run: Store.Run)
    requires WaitsFor(t, waiting) && setup.maxAttempts > 1
    ensures var q := Slow(t, waiting, run).queue; Numbered(q) && RowsShaped(q, setup.maxAttempts)
  {
    var q := Slow(t, waiting, run).queue;
    assert q.Keys == {t.key, waiting.key};
    assert |q| == |q.Keys| == 2;
  }

  lemma SlowTablesAreSound(setup: Setup, t: Trigger, waiting: Trigger, run: Store.Run)
    requires WaitsFor(t, waiting) && setup.maxAttempts > 1
    ensures TablesSound(Slow(t, waiting, run).queue, Slow(t, waiting, run).ledger, setup.maxAttempts)
  {
    var q, l := Slow(t, waiting, run).queue, Slow(t, waiting, run).ledger;
    SlowRowsAreSound(setup, t, waiting, run);
    forall k | k in q && q[k].trigger.kind != Publish ensures Counted(l, k) <= q[k].attempts {
      CountedOne(l[0], k);
    }
  }

  lemma SlowIsSound(setup: Setup, t: Trigger, waiting: Trigger, run: Store.Run)
    requires WaitsFor(t, waiting) && setup.maxAttempts > 1 && run == RunFor(t, run.headSha, [], 0)
    ensures Sound(setup, Slow(t, waiting, run)) && RunsSound(Slow(t, waiting, run))
  {
    SlowTablesAreSound(setup, t, waiting, run);
  }

  /** The slow worker is displaced: its settle finds nothing, and it folds all the same. The other gives the row up. */
  function Displacing(t: Trigger, config: BudgetConfig): seq<Action> {
    [TakeClaim("next", t.repo, config, 0, Some(t.key)),
     SettleRun("slow", RunEnd(Usage(5, Exact), Completed, Complete), None, None, 0),
     FoldWaiting("slow", t.repo, 0),
     SettleRun("next", RunEnd(Usage(0, Exact), Closed, Abandon), None, None, 0),
     FinishRun("next")]
  }

  /** The slow worker's row as the next one claims it. */
  function Displaced(setup: Setup, t: Trigger, waiting: Trigger, run: Store.Run, config: BudgetConfig): System {
    var s := Slow(t, waiting, run);
    var c := Claim(t, 2, "next", setup.lease);
    s.(queue := Leased(s.queue, t.key, "next", setup.lease),
       ledger := LedgerAfterClaim(s.ledger, s.breaker, config, c, 0), workers := s.workers["next" := Running(c)])
  }

  lemma ClaimDisplaces(setup: Setup, t: Trigger, waiting: Trigger, run: Store.Run, config: BudgetConfig)
    requires WaitsFor(t, waiting) && setup.maxAttempts > 1
    requires config.Valid() && WorkerAdmits(Slow(t, waiting, run).ledger, Breaker.NEVER_TRIPPED, config, t, 0)
    ensures var take := TakeClaim("next", t.repo, config, 0, Some(t.key));
      && Enabled(setup, Slow(t, waiting, run), take)
      && Step(setup, Slow(t, waiting, run), take) == Displaced(setup, t, waiting, run, config)
  {
    var s := Slow(t, waiting, run);
    NothingIsSwept(setup, t, waiting, run);
    ClaimStep(setup, s, "next", t.repo, config, 0, t.key, Claim(t, 2, "next", setup.lease));
  }

  lemma NothingIsSwept(setup: Setup, t: Trigger, waiting: Trigger, run: Store.Run)
    requires WaitsFor(t, waiting) && setup.maxAttempts > 1
    ensures Swept(setup, Slow(t, waiting, run), t.repo, 0) == Slow(t, waiting, run)
    ensures Claimable(Slow(t, waiting, run).queue, t.key, t.repo, setup.maxAttempts, 0)
  {
    var s := Slow(t, waiting, run);
    assert AbandonExhausted(s.queue, t.repo, setup.maxAttempts, 0) == s.queue;
  }

  /** A displaced worker's settle finds nothing; its run is discarded, and it folds all the same. */
  lemma DiscardedFoldsAllTheSame(setup: Setup, s: System, owner: string, holder: string, settle: Action, fold: Action)
    requires Sound(setup, s) && PhaseOf(s, owner).Keeping? && holder != owner
    requires OwnedBy(s.queue, PhaseOf(s, owner).claim.trigger.key, holder)
    requires settle.SettleRun? && fold.FoldWaiting? && settle.owner == owner && fold.owner == owner
    requires Enabled(setup, s, settle)
    ensures Enabled(setup, Step(setup, s, settle), fold)
    ensures var phase := PhaseOf(s, owner);
      Step(setup, Step(setup, s, settle), fold)
      == s.(queue := Folded(s.queue, fold.repo, phase.claim.trigger, fold.before, phase.run.headSha),
            workers := s.workers[owner := Idle])
  {
    var c := PhaseOf(s, owner).claim;
    DisplacedSettleFails(setup, s, c.trigger.key, owner, holder,
                         Settlement(settle.end.usage, settle.end.reason, settle.lines, settle.since, settle.at));
    assert s.workers[owner := Folding(c, PhaseOf(s, owner).run)][owner := Idle] == s.workers[owner := Idle];
  }

  /** The holder ends the row at a free refusal: the pull request was closed meanwhile. */
  lemma RefusedRowIsAbandoned(setup: Setup, s: System, c: Claim, settle: Action)
    requires PhaseOf(s, c.owner) == Running(c) && c.trigger.kind != Publish && OwnedBy(s.queue, c.trigger.key, c.owner)
    requires settle == SettleRun(c.owner, RunEnd(Usage(0, Exact), Closed, Abandon), None, None, 0)
    ensures Enabled(setup, s, settle) && Enabled(setup, Step(setup, s, settle), FinishRun(c.owner))
    ensures var s' := Step(setup, Step(setup, s, settle), FinishRun(c.owner));
      && s'.queue == Finished(s.queue, c.trigger.key, c.owner, Abandoned)
      && s'.runs == s.runs && s'.workers == s.workers[c.owner := Idle]
  {
    assert s.workers[c.owner := Settling(c, Abandon, None)][c.owner := Idle] == s.workers[c.owner := Idle];
  }

  lemma FiveSteps(setup: Setup, s: System, actions: seq<Action>, s1: System, s3: System, s5: System)
    requires |actions| == 5 && Enabled(setup, s, actions[0]) && s1 == Step(setup, s, actions[0])
    requires Enabled(setup, s1, actions[1]) && Enabled(setup, Step(setup, s1, actions[1]), actions[2])
    requires s3 == Step(setup, Step(setup, s1, actions[1]), actions[2])
    requires Enabled(setup, s3, actions[3]) && Enabled(setup, Step(setup, s3, actions[3]), actions[4])
    requires s5 == Step(setup, Step(setup, s3, actions[3]), actions[4])
    ensures ValidRun(setup, s, actions) && After(setup, s, actions) == s5
  {
    OneStep(setup, s, actions[0], s1);
    AndThen(setup, s, [actions[0]], actions[1], Step(setup, s1, actions[1]));
    AndThen(setup, s, [actions[0]] + [actions[1]], actions[2], s3);
    AndThen(setup, s, [actions[0]] + [actions[1]] + [actions[2]], actions[3], Step(setup, s3, actions[3]));
    AndThen(setup, s, [actions[0]] + [actions[1]] + [actions[2]] + [actions[3]], actions[4], s5);
    assert actions == [actions[0]] + [actions[1]] + [actions[2]] + [actions[3]] + [actions[4]];
  }

  lemma LostInTheEnd(setup: Setup, t: Trigger, waiting: Trigger, run: Store.Run, config: BudgetConfig,
                     q: Model.Queue, s: System)
    requires WaitsFor(t, waiting) && run == RunFor(t, run.headSha, [], 0)
    requires var displaced := Displaced(setup, t, waiting, run, config);
      && q == Folded(displaced.queue, t.repo, t, 0, run.headSha) && t.key in q
      && OwnedBy(q, t.key, "next") && s.queue == Finished(q, t.key, "next", Abandoned)
      && s.runs == displaced.runs && s.workers == displaced.workers["slow" := Idle]["next" := Idle]
    ensures IsLost(s, run, waiting)
  {
    ItemIsAnother(t.key);
    assert q.Keys == {t.key, waiting.key};
    assert forall o | o in s.workers :: s.workers[o] == Idle;
  }

  lemma DisplacedHolds(setup: Setup, t: Trigger, waiting: Trigger, run: Store.Run, config: BudgetConfig)
    requires WaitsFor(t, waiting) && run.key == t.key
    ensures var s := Displaced(setup, t, waiting, run, config);
      var q := Folded(s.queue, t.repo, t, 0, run.headSha);
      && PhaseOf(s, "slow") == Keeping(Claim(t, 1, "slow", 0), run)
      && s.workers["slow" := Idle]["next"] == Running(Claim(t, 2, "next", setup.lease))
      && OwnedBy(s.queue, t.key, "next") && OwnedBy(q, t.key, "next")
  {
  }

  /** What the other worker finds once the slow one is through. */
  function Discarded(setup: Setup, t: Trigger, waiting: Trigger, run: Store.Run, config: BudgetConfig): System {
    var s := Displaced(setup, t, waiting, run, config);
    s.(queue := Folded(s.queue, t.repo, t, 0, run.headSha), workers := s.workers["slow" := Idle])
  }

  lemma DisplacedIsDiscarded(setup: Setup, t: Trigger, waiting: Trigger, run: Store.Run, config: BudgetConfig,
                             settle: Action, fold: Action)
    requires WaitsFor(t, waiting) && setup.maxAttempts > 1 && run == RunFor(t, run.headSha, [], 0)
    requires config.Valid() && WorkerAdmits(Slow(t, waiting, run).ledger, Breaker.NEVER_TRIPPED, config, t, 0)
    requires settle == SettleRun("slow", RunEnd(Usage(5, Exact), Completed, Complete), None, None, 0)
    requires fold == FoldWaiting("slow", t.repo, 0)
    ensures var s := Displaced(setup, t, waiting, run, config);
      && Enabled(setup, s, settle) && Enabled(setup, Step(setup, s, settle), fold)
      && Step(setup, Step(setup, s, settle), fold) == Discarded(setup, t, waiting, run, config)
  {
    ClaimDisplaces(setup, t, waiting, run, config);
    SlowIsSound(setup, t, waiting, run);
    StepSound(setup, Slow(t, waiting, run), TakeClaim("next", t.repo, config, 0, Some(t.key)));
    DisplacedHolds(setup, t, waiting, run, config);
    DiscardedFoldsAllTheSame(setup, Displaced(setup, t, waiting, run, config), "slow", "next", settle, fold);
  }

  lemma DiscardedIsLost(setup: Setup, t: Trigger, waiting: Trigger, run: Store.Run, config: BudgetConfig,
                        settle: Action)
    requires WaitsFor(t, waiting) && run == RunFor(t, run.headSha, [], 0)
    requires settle == SettleRun("next", RunEnd(Usage(0, Exact), Closed, Abandon), None, None, 0)
    ensures var s := Discarded(setup, t, waiting, run, config);
      && Enabled(setup, s, settle) && Enabled(setup, Step(setup, s, settle), FinishRun("next"))
      && IsLost(Step(setup, Step(setup, s, settle), FinishRun("next")), run, waiting)
  {
    var s := Discarded(setup, t, waiting, run, config);
    DisplacedHolds(setup, t, waiting, run, config);
    RefusedRowIsAbandoned(setup, s, Claim(t, 2, "next", setup.lease), settle);
    LostInTheEnd(setup, t, waiting, run, config, s.queue, Step(setup, Step(setup, s, settle), FinishRun("next")));
  }

  /** Nothing will come of the run, and what waited for it is closed. */
  predicate IsLost(s: System, run: Store.Run, waiting: Trigger) {
    && run.key in s.runs && !Pursued(s, run.key)
    && waiting.key in s.queue && s.queue[waiting.key].status == Done
  }

  /** Its run ends neither posted, given up nor owed, and what waited for it is closed without an answer. */
  lemma DisplacedRunIsLost(setup: Setup, t: Trigger, waiting: Trigger, run: Store.Run, config: BudgetConfig)
    requires WaitsFor(t, waiting) && setup.maxAttempts > 1 && run == RunFor(t, run.headSha, [], 0)
    requires config.Valid() && WorkerAdmits(Slow(t, waiting, run).ledger, Breaker.NEVER_TRIPPED, config, t, 0)
    ensures ValidRun(setup, Slow(t, waiting, run), Displacing(t, config))
    ensures IsLost(After(setup, Slow(t, waiting, run), Displacing(t, config)), run, waiting)
  {
    var s0, actions := Slow(t, waiting, run), Displacing(t, config);
    ClaimDisplaces(setup, t, waiting, run, config);
    DisplacedIsDiscarded(setup, t, waiting, run, config, actions[1], actions[2]);
    DiscardedIsLost(setup, t, waiting, run, config, actions[3]);
    var s3 := Discarded(setup, t, waiting, run, config);
    FiveSteps(setup, s0, actions, Displaced(setup, t, waiting, run, config), s3,
              Step(setup, Step(setup, s3, actions[3]), actions[4]));
  }

  lemma ItemIsAnother(k: string)
    ensures PUBLISH_PREFIX + k != k
  {
    assert |PUBLISH_PREFIX + k| == |PUBLISH_PREFIX| + |k|;
  }
}
