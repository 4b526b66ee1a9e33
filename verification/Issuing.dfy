/** The numbers that the workers give to findings, over their runs and over the protocol's. */
module Issuing {
  import opened Wrappers
  import opened Model
  import opened Store
  import opened Runs
  import opened Protocol
  import opened Worker
  import opened Numbering

  // ----- One review ----------------------------------------------------------------------------

  /** The number is not above all that the pull request has issued. */
  predicate WasReached(rs: Runs.Table, repo: string, pr: int, number: int) {
    number >= 1 && exists issued | issued in Issued(rs, repo, pr) :: number <= issued
  }

  predicate FirstToCarry(carried: seq<Option<int>>, i: nat)
    requires i < |carried|
  {
    carried[i].Some? && forall j | 0 <= j < i :: carried[j] != carried[i]
  }

  /**
   The findings of a review are numbered apart: one that carries a number that was reached, first among
   them, keeps it, and any other gets one above everything its pull request has issued.
   */
  predicate NumberedAfter(numbers: seq<nat>, carried: seq<Option<int>>, rs: Runs.Table, repo: string, pr: int) {
    && |numbers| == |carried|
    && (forall i, j | 0 <= i < j < |numbers| :: numbers[i] != numbers[j])
    && forall i | 0 <= i < |carried| ::
         if FirstToCarry(carried, i) && WasReached(rs, repo, pr, carried[i].value) then numbers[i] == carried[i].value
         else forall issued | issued in Issued(rs, repo, pr) :: numbers[i] > issued
  }

  lemma KeptIsReached(rs: Runs.Table, repo: string, pr: int, carried: seq<Option<int>>, i: nat)
    requires i < |carried|
    ensures Keeps(carried, HighWater(rs, repo, pr), i) <==>
      FirstToCarry(carried, i) && WasReached(rs, repo, pr, carried[i].value)
  {
  }

  lemma AssignedAfter(rs: Runs.Table, repo: string, pr: int, carried: seq<Option<int>>)
    ensures NumberedAfter(Assigned(carried, HighWater(rs, repo, pr)), carried, rs, repo, pr)
  {
    RoundIsNumbered(carried, HighWater(rs, repo, pr));
    forall i | 0 <= i < |carried|
      ensures Keeps(carried, HighWater(rs, repo, pr), i) <==>
        FirstToCarry(carried, i) && WasReached(rs, repo, pr, carried[i].value)
    {
      KeptIsReached(rs, repo, pr, carried, i);
    }
  }

  /** What the worker leaves of a completed review, by what was issued when it read the history. */
  lemma ReviewIsNumbered(t: Tables, repo: string, claim: Claim, c: Course, w: World)
    requires Records(c) && claim.trigger.command == Command.Review
    ensures var rs := TablesAfter(t, repo, claim, c, w).runs;
      && claim.trigger.key in rs
      && NumberedAfter(rs[claim.trigger.key].numbers, c.review.carried, t.runs, claim.trigger.repo, claim.trigger.pr)
  {
    AssignedAfter(t.runs, claim.trigger.repo, claim.trigger.pr, c.review.carried);
  }

  lemma {:induction false} NothingIsKept(carried: seq<Option<int>>, n: nat)
    requires n <= |carried|
    ensures NewBefore(carried, 0, n) == n
  {
    if n > 0 {
      NothingIsKept(carried, n - 1);
    }
  }

  /** A description is shown no history: what it carries is dropped, and it numbers from 1. */
  lemma DescriptionNumbersFromOne(t: Tables, repo: string, claim: Claim, c: Course, w: World, i: nat)
    requires Records(c) && claim.trigger.command == Command.Describe && i < |c.review.carried|
    ensures var rs := TablesAfter(t, repo, claim, c, w).runs;
      && claim.trigger.key in rs && |rs[claim.trigger.key].numbers| == |c.review.carried|
      && rs[claim.trigger.key].numbers[i] == i + 1
  {
    NothingIsKept(c.review.carried, i);
  }

  /** The round that a completed review is. */
  function RoundOf(claim: Claim, c: Course, w: World): Round
    requires Records(c)
  {
    Round(RunFor(claim.trigger, c.headSha, [], w.recordedAt), c.review.carried)
  }

  /** A review a worker records is a round of its pull request; posting it changes none of its numbers. */
  lemma ReviewIsARound(t: Tables, repo: string, claim: Claim, c: Course, w: World)
    requires Records(c) && claim.trigger.command == Command.Review
    ensures var rs, round := TablesAfter(t, repo, claim, c, w).runs, AfterRound(t.runs, RoundOf(claim, c, w));
      && rs == (if HasReservation(t, claim) then Attended(round, claim.trigger.key, w.post) else round)
      && forall repo, pr :: Issued(rs, repo, pr) == Issued(round, repo, pr)
  {
    var round := AfterRound(t.runs, RoundOf(claim, c, w));
    forall repo, pr
      ensures Issued(Attended(round, claim.trigger.key, w.post), repo, pr) == Issued(round, repo, pr)
    {
      PostKeepsIssued(round, claim.trigger.key, w.post, repo, pr);
    }
  }

  /** The runs keep what they are of. */
  predicate SameNumbers(rs: Runs.Table, rs': Runs.Table) {
    && rs.Keys == rs'.Keys
    && forall k | k in rs ::
         && rs'[k].repo == rs[k].repo && rs'[k].pr == rs[k].pr
         && rs'[k].command == rs[k].command && rs'[k].numbers == rs[k].numbers
  }

  lemma SameIssued(rs: Runs.Table, rs': Runs.Table, repo: string, pr: int)
    requires SameNumbers(rs, rs')
    ensures Issued(rs, repo, pr) == Issued(rs', repo, pr)
  {
    forall n | n in Issued(rs, repo, pr) ensures n in Issued(rs', repo, pr) {
      var k :| k in rs && IsRound(rs[k], repo, pr) && n in rs[k].numbers;
      assert IsRound(rs'[k], repo, pr) && n in rs'[k].numbers;
    }
    forall n | n in Issued(rs', repo, pr) ensures n in Issued(rs, repo, pr) {
      var k :| k in rs' && IsRound(rs'[k], repo, pr) && n in rs'[k].numbers;
      assert IsRound(rs[k], repo, pr) && n in rs[k].numbers;
    }
  }

  lemma PostKeepsIssued(rs: Runs.Table, key: string, post: PostAnswer, repo: string, pr: int)
    ensures Issued(Attended(rs, key, post), repo, pr) == Issued(rs, repo, pr)
  {
    SameIssued(rs, Attended(rs, key, post), repo, pr);
  }

  // ----- Over the protocol's runs --------------------------------------------------------------

  /** The transaction records a round of this pull request. */
  predicate RecordsRound(s: System, a: Action, repo: string, pr: int) {
    && a.RecordRun? && PhaseOf(s, a.owner).Reviewing?
    && IsRound(RunBy(PhaseOf(s, a.owner), a.head, a.carried, a.at), repo, pr)
  }

  /** Nothing is recorded over a run that there is. */
  predicate RecordsFresh(s: System, a: Action) {
    a.RecordRun? && PhaseOf(s, a.owner).Reviewing? ==> PhaseOf(s, a.owner).claim.trigger.key !in s.runs
  }

  predicate AllFresh(setup: Setup, s: System, actions: seq<Action>)
    requires ValidRun(setup, s, actions)
    decreases |actions|
  {
    actions == [] || (RecordsFresh(s, actions[0]) && AllFresh(setup, Step(setup, s, actions[0]), actions[1..]))
  }

  /** None of the actions records a round of this pull request. */
  predicate NoRound(setup: Setup, s: System, actions: seq<Action>, repo: string, pr: int)
    requires ValidRun(setup, s, actions)
    decreases |actions|
  {
    actions == []
    || (!RecordsRound(s, actions[0], repo, pr) && NoRound(setup, Step(setup, s, actions[0]), actions[1..], repo, pr))
  }

  lemma RecordIssues(rs: Runs.Table, run: Run, repo: string, pr: int)
    requires run.key !in rs
    ensures Issued(Recorded(rs, run), repo, pr)
            == Issued(rs, repo, pr) + if IsRound(run, repo, pr) then set n | n in run.numbers else {}
  {
    var rs' := Recorded(rs, run);
    assert rs'[run.key] == run && forall k | k in rs :: k in rs' && rs'[k] == rs[k];
    forall n | n in Issued(rs, repo, pr) ensures n in Issued(rs', repo, pr) {
      var k :| k in rs && IsRound(rs[k], repo, pr) && n in rs[k].numbers;
      assert IsRound(rs'[k], repo, pr) && n in rs'[k].numbers;
    }
    if IsRound(run, repo, pr) {
      forall n | n in run.numbers ensures n in Issued(rs', repo, pr) {
        assert IsRound(rs'[run.key], repo, pr) && n in rs'[run.key].numbers;
      }
    }
    forall n | n in Issued(rs', repo, pr)
      ensures n in Issued(rs, repo, pr) || (IsRound(run, repo, pr) && n in run.numbers)
    {
      var k :| k in rs' && IsRound(rs'[k], repo, pr) && n in rs'[k].numbers;
      assert k != run.key ==> IsRound(rs[k], repo, pr) && n in rs[k].numbers;
    }
  }

  /** Only reviews issue numbers: what a description records changes no pull request's. */
  lemma DescriptionIssuesNothing(t: Tables, repo: string, claim: Claim, c: Course, w: World, of: string, pr: int)
    requires Records(c) && claim.trigger.command == Command.Describe && claim.trigger.key !in t.runs
    ensures Issued(TablesAfter(t, repo, claim, c, w).runs, of, pr) == Issued(t.runs, of, pr)
  {
    var run := RunOf(t.runs, claim, c, w.recordedAt);
    RecordIssues(t.runs, run, of, pr);
    PostKeepsIssued(Recorded(t.runs, run), run.key, w.post, of, pr);
  }

  lemma UnrecordedIssues(setup: Setup, s: System, a: Action, repo: string, pr: int)
    requires Possible(setup, s, a) && !a.RecordRun?
    ensures Issued(Step(setup, s, a).runs, repo, pr) == Issued(s.runs, repo, pr)
  {
    if a.AttendRun? {
      PostKeepsIssued(s.runs, PhaseOf(s, a.owner).run.key, a.post, repo, pr);
    }
  }

  /** What one transaction issues: the numbers of the round it records, and otherwise nothing. */
  lemma IssuedStep(setup: Setup, s: System, a: Action, repo: string, pr: int)
    requires Possible(setup, s, a) && RecordsFresh(s, a)
    ensures Issued(Step(setup, s, a).runs, repo, pr)
            == Issued(s.runs, repo, pr)
               + if RecordsRound(s, a, repo, pr)
                 then set n | n in RunBy(PhaseOf(s, a.owner), a.head, a.carried, a.at).numbers else {}
  {
    if a.RecordRun? {
      RecordIssues(s.runs, RunBy(PhaseOf(s, a.owner), a.head, a.carried, a.at), repo, pr);
    } else {
      UnrecordedIssues(setup, s, a, repo, pr);
    }
  }

  lemma {:induction false} IssuedGrows(setup: Setup, s: System, actions: seq<Action>, repo: string, pr: int)
    requires ValidRun(setup, s, actions) && AllFresh(setup, s, actions)
    ensures Issued(s.runs, repo, pr) <= Issued(After(setup, s, actions).runs, repo, pr)
    ensures NoRound(setup, s, actions, repo, pr) ==>
              Issued(After(setup, s, actions).runs, repo, pr) == Issued(s.runs, repo, pr)
    decreases |actions|
  {
    if actions != [] {
      IssuedStep(setup, s, actions[0], repo, pr);
      IssuedGrows(setup, Step(setup, s, actions[0]), actions[1..], repo, pr);
    }
  }

  /** New numbers are above all that is issued exactly when nothing was issued above what was read, or none is new. */
  lemma NewNumbersAreAbove(rs: Runs.Table, repo: string, pr: int, carried: seq<Option<int>>, high: nat)
    ensures (forall i, issued | 0 <= i < |carried| && !Keeps(carried, high, i) && issued in Issued(rs, repo, pr) ::
               Assigned(carried, high)[i] > issued)
            <==> HighWater(rs, repo, pr) <= high || forall i | 0 <= i < |carried| :: Keeps(carried, high, i)
  {
    RoundIsNumbered(carried, high);
    if HighWater(rs, repo, pr) > high && exists i | 0 <= i < |carried| :: !Keeps(carried, high, i) {
      SomeNew(carried, high, |carried|);
      var i := NewNumbersAreConsecutive(carried, high, |carried|, 0);
      assert !Keeps(carried, high, i) && HighWater(rs, repo, pr) in Issued(rs, repo, pr);
    }
  }

  /**
   Over every run of the protocol: a number newly given by a review is on no finding its pull request was ever
   given before, unless another round of it was recorded since the review read the history.
   */
  lemma NumbersAreFresh(setup: Setup, first: System, earlier: seq<Action>, owner: string, during: seq<Action>,
                        head: string, carried: seq<Option<int>>, at: Time, i: nat)
    requires ValidRun(setup, first, earlier) && AllFresh(setup, first, earlier)
    requires Enabled(setup, After(setup, first, earlier), ReadHistory(owner))
    requires var read := Step(setup, After(setup, first, earlier), ReadHistory(owner));
      && ValidRun(setup, read, during) && AllFresh(setup, read, during)
      && PhaseOf(After(setup, read, during), owner) == PhaseOf(read, owner)
      && PhaseOf(read, owner).claim.trigger.command == Command.Review
      && NoRound(setup, read, during, PhaseOf(read, owner).claim.trigger.repo, PhaseOf(read, owner).claim.trigger.pr)
    ensures var read := Step(setup, After(setup, first, earlier), ReadHistory(owner));
      var now, t := After(setup, read, during), PhaseOf(read, owner).claim.trigger;
      var numbers := RunBy(PhaseOf(now, owner), head, carried, at).numbers;
      && NumberedAfter(numbers, carried, now.runs, t.repo, t.pr)
      && Issued(first.runs, t.repo, t.pr) <= Issued(now.runs, t.repo, t.pr)
      && (i < |carried| && !(FirstToCarry(carried, i) && WasReached(now.runs, t.repo, t.pr, carried[i].value)) ==>
            numbers[i] !in Issued(first.runs, t.repo, t.pr))
  {
    var before := After(setup, first, earlier);
    var read := Step(setup, before, ReadHistory(owner));
    var t := PhaseOf(read, owner).claim.trigger;
    IssuedGrows(setup, first, earlier, t.repo, t.pr);
    IssuedGrows(setup, read, during, t.repo, t.pr);
    var now := After(setup, read, during);
    HighIsIssued(before.runs, now.runs, t.repo, t.pr);
    AssignedAfter(now.runs, t.repo, t.pr, carried);
  }

  lemma HighIsIssued(rs: Runs.Table, rs': Runs.Table, repo: string, pr: int)
    requires Issued(rs, repo, pr) == Issued(rs', repo, pr)
    ensures HighWater(rs, repo, pr) == HighWater(rs', repo, pr)
  {
  }
}
