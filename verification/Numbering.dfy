/** Finding numbers that survive a re-review: numbering.py. */
module Numbering {
  import opened Wrappers
  import opened Model
  import opened Store
  import opened Runs

  /** The number a finding arrived with is honoured: it was issued, and no earlier finding carries it. */
  predicate Keeps(carried: seq<Option<int>>, highWater: nat, i: nat)
    requires i < |carried|
  {
    carried[i].Some? && 1 <= carried[i].value <= highWater && forall j | 0 <= j < i :: carried[j] != carried[i]
  }

  /** How many of the first `n` findings are new. */
  function NewBefore(carried: seq<Option<int>>, highWater: nat, n: nat): (count: nat)
    requires n <= |carried|
    ensures count <= n
  {
    if n == 0 then 0 else NewBefore(carried, highWater, n - 1) + (if Keeps(carried, highWater, n - 1) then 0 else 1)
  }

  function Assigned(carried: seq<Option<int>>, highWater: nat): (numbers: seq<nat>)
    ensures |numbers| == |carried|
  {
    seq(|carried|, i requires 0 <= i < |carried| =>
      if Keeps(carried, highWater, i) then carried[i].value else highWater + 1 + NewBefore(carried, highWater, i))
  }

  /** What a number in `1..highWater` was claimed by: some earlier finding that carries it. */
  lemma {:induction false} FirstClaim(carried: seq<Option<int>>, highWater: nat, i: nat, number: int)
    requires i <= |carried| && 1 <= number <= highWater
    ensures (exists j :: 0 <= j < i && Keeps(carried, highWater, j) && carried[j] == Some(number))
            <==> exists j :: 0 <= j < i && carried[j] == Some(number)
  {
    if i > 0 {
      FirstClaim(carried, highWater, i - 1, number);
    }
  }

  /** The numbers that the first `n` findings are honoured for. */
  predicate AreClaimed(carried: seq<Option<int>>, highWater: nat, claimed: set<int>, n: nat)
    requires n <= |carried|
  {
    && (forall j | 0 <= j < n && Keeps(carried, highWater, j) :: carried[j].value in claimed)
    && forall number | number in claimed :: exists j | 0 <= j < n :: carried[j] == Some(number)
  }

  /** A finding is honoured exactly if its number was issued and nobody has claimed it before. */
  lemma OneMoreClaim(carried: seq<Option<int>>, highWater: nat, claimed: set<int>, i: nat)
    requires i < |carried| && AreClaimed(carried, highWater, claimed, i)
    ensures Keeps(carried, highWater, i) <==>
      carried[i].Some? && 1 <= carried[i].value <= highWater && carried[i].value !in claimed
    ensures Keeps(carried, highWater, i) ==> AreClaimed(carried, highWater, claimed + {carried[i].value}, i + 1)
    ensures !Keeps(carried, highWater, i) ==> AreClaimed(carried, highWater, claimed, i + 1)
  {
    if carried[i].Some? && 1 <= carried[i].value <= highWater {
      FirstClaim(carried, highWater, i, carried[i].value);
    }
  }

  lemma NextNumber(carried: seq<Option<int>>, highWater: nat, i: nat)
    requires i < |carried|
    ensures Assigned(carried, highWater)[..i + 1]
            == Assigned(carried, highWater)[..i] + [Assigned(carried, highWater)[i]]
    ensures Assigned(carried, highWater)[i]
            == if Keeps(carried, highWater, i) then carried[i].value
               else highWater + 1 + NewBefore(carried, highWater, i)
    ensures NewBefore(carried, highWater, i + 1)
            == NewBefore(carried, highWater, i) + if Keeps(carried, highWater, i) then 0 else 1
  {
  }

  /** `assign` */
  method Assign(carried: seq<Option<int>>, highWater: nat) returns (numbers: seq<nat>)
    ensures numbers == Assigned(carried, highWater)
  {
    var claimed: set<int> := {};
    var kept: seq<Option<nat>> := [];
    for i := 0 to |carried|
      invariant |kept| == i && AreClaimed(carried, highWater, claimed, i)
      invariant forall j | 0 <= j < i ::
        if Keeps(carried, highWater, j) then kept[j] == Some(carried[j].value) else kept[j].None?
    {
      var number := carried[i];
      OneMoreClaim(carried, highWater, claimed, i);
      if number.Some? && 1 <= number.value <= highWater && number.value !in claimed {
        claimed := claimed + {number.value};
        kept := kept + [Some(number.value)];
      } else {
        kept := kept + [None];
      }
    }
    var next := highWater + 1;
    numbers := [];
    for i := 0 to |carried|
      invariant next == highWater + 1 + NewBefore(carried, highWater, i)
      invariant numbers == Assigned(carried, highWater)[..i]
    {
      assert Keeps(carried, highWater, i) <==> kept[i].Some?;
      NextNumber(carried, highWater, i);
      if kept[i].None? {
        numbers, next := numbers + [next], next + 1;
      } else {
        numbers := numbers + [kept[i].value];
      }
    }
  }

  lemma {:induction false} NewBeforeGrows(carried: seq<Option<int>>, highWater: nat, i: nat, j: nat)
    requires i < j <= |carried|
    ensures NewBefore(carried, highWater, i) + (if Keeps(carried, highWater, i) then 0 else 1)
            <= NewBefore(carried, highWater, j)
  {
    if i < j - 1 {
      NewBeforeGrows(carried, highWater, i, j - 1);
    }
  }

  /** The numbers of one round are positive and pairwise distinct; each is an honoured claim or new. */
  lemma RoundIsNumbered(carried: seq<Option<int>>, highWater: nat)
    ensures var numbers := Assigned(carried, highWater);
      && (forall i, j | 0 <= i < j < |numbers| :: numbers[i] != numbers[j])
      && (forall i | 0 <= i < |numbers| ::
            numbers[i] >= 1 && (numbers[i] <= highWater <==> Keeps(carried, highWater, i)))
      && (forall i | 0 <= i < |numbers| :: numbers[i] <= highWater + NewBefore(carried, highWater, |carried|))
  {
    var numbers := Assigned(carried, highWater);
    forall i, j | 0 <= i < j < |numbers| ensures numbers[i] != numbers[j] {
      NewBeforeGrows(carried, highWater, i, j);
    }
    forall i | 0 <= i < |numbers| ensures numbers[i] <= highWater + NewBefore(carried, highWater, |carried|) {
      NewBeforeGrows(carried, highWater, i, |carried|);
    }
  }

  /** The new findings take `highWater + 1`, `+ 2`, ... in the order they arrived, with no gap. */
  lemma {:induction false} NewNumbersAreConsecutive(carried: seq<Option<int>>, highWater: nat, n: nat, k: nat)
    returns (i: nat)
    requires n <= |carried| && k < NewBefore(carried, highWater, n)
    ensures i < n && !Keeps(carried, highWater, i) && Assigned(carried, highWater)[i] == highWater + 1 + k
  {
    if k == NewBefore(carried, highWater, n - 1) {
      i := n - 1;
    } else {
      i := NewNumbersAreConsecutive(carried, highWater, n - 1, k);
    }
  }

  /** The highest number a review of this trigger reads back; a description reads no history. */
  function ReadFor(rs: Table, t: Trigger): nat {
    if t.command == Command.Review then HighWater(rs, t.repo, t.pr) else 0
  }

  // ----- Over rounds ---------------------------------------------------------------------------

  /** One completed review: the run as recorded, but for its numbers, and what its findings carried. */
  datatype Round = Round(run: Run, carried: seq<Option<int>>)

  function NumbersOf(rs: Table, round: Round): seq<nat> {
    Assigned(round.carried, HighWater(rs, round.run.repo, round.run.pr))
  }

  function AfterRound(rs: Table, round: Round): Table {
    Recorded(rs, round.run.(command := Command.Review, numbers := NumbersOf(rs, round)))
  }

  function AfterRounds(rs: Table, rounds: seq<Round>): Table
    decreases |rounds|
  {
    if rounds == [] then rs else AfterRounds(AfterRound(rs, rounds[0]), rounds[1..])
  }

  /** No round is recorded under a key another round used. */
  predicate DistinctKeys(rs: Table, rounds: seq<Round>) {
    && (forall i | 0 <= i < |rounds| :: rounds[i].run.key !in rs)
    && (forall i, j | 0 <= i < j < |rounds| :: rounds[i].run.key != rounds[j].run.key)
  }

  lemma RoundKeepsIssued(rs: Table, round: Round, repo: string, pr: int)
    requires round.run.key !in rs
    ensures Issued(rs, repo, pr) <= Issued(AfterRound(rs, round), repo, pr)
    ensures round.run.repo == repo && round.run.pr == pr ==>
      forall n | n in NumbersOf(rs, round) :: n in Issued(AfterRound(rs, round), repo, pr)
  {
    var rs' := AfterRound(rs, round);
    assert forall k | k in rs :: k in rs' && rs'[k] == rs[k];
    forall n | n in NumbersOf(rs, round) && round.run.repo == repo && round.run.pr == pr
      ensures n in Issued(rs', repo, pr)
    {
      assert n in rs'[round.run.key].numbers;
    }
  }

  lemma {:induction false} RoundsKeepIssued(rs: Table, rounds: seq<Round>, repo: string, pr: int)
    requires DistinctKeys(rs, rounds)
    ensures Issued(rs, repo, pr) <= Issued(AfterRounds(rs, rounds), repo, pr)
    ensures HighWater(rs, repo, pr) <= HighWater(AfterRounds(rs, rounds), repo, pr)
    decreases |rounds|
  {
    if rounds != [] {
      RoundKeepsIssued(rs, rounds[0], repo, pr);
      RoundsKeepIssued(AfterRound(rs, rounds[0]), rounds[1..], repo, pr);
    }
  }

  /**
   Over any sequence of rounds of any pull requests under distinct keys: the high water read back
   never falls, and a number newly handed out to a pull request was on none of its earlier findings.
   */
  lemma NumbersAreNeverReissued(rs: Table, earlier: seq<Round>, round: Round, later: seq<Round>, next: Round, i: nat)
    requires DistinctKeys(rs, earlier) && DistinctKeys(AfterRounds(rs, earlier), [round] + later)
    requires round.run.repo == next.run.repo && round.run.pr == next.run.pr
    ensures var before := AfterRounds(rs, earlier); var after := AfterRounds(AfterRound(before, round), later);
      && HighWater(rs, round.run.repo, round.run.pr) <= HighWater(before, round.run.repo, round.run.pr)
         <= HighWater(after, round.run.repo, round.run.pr)
      && (i < |next.carried| && !Keeps(next.carried, HighWater(after, next.run.repo, next.run.pr), i) ==>
            && NumbersOf(after, next)[i] !in NumbersOf(before, round)
            && NumbersOf(after, next)[i] !in Issued(after, next.run.repo, next.run.pr))
  {
    var before := AfterRounds(rs, earlier);
    var now := AfterRound(before, round);
    RoundsKeepIssued(rs, earlier, round.run.repo, round.run.pr);
    assert ([round] + later)[0] == round;
    forall k | 0 <= k < |later| ensures later[k].run.key !in now {
      assert ([round] + later)[k + 1] == later[k];
    }
    forall j, k | 0 <= j < k < |later| ensures later[j].run.key != later[k].run.key {
      assert ([round] + later)[j + 1] == later[j] && ([round] + later)[k + 1] == later[k];
    }
    RoundKeepsIssued(before, round, round.run.repo, round.run.pr);
    RoundsKeepIssued(now, later, round.run.repo, round.run.pr);
  }

  predicate HasNew(rs: Table, round: Round) {
    exists i | 0 <= i < |round.carried| :: !Keeps(round.carried, HighWater(rs, round.run.repo, round.run.pr), i)
  }

  lemma {:induction false} SomeNew(carried: seq<Option<int>>, highWater: nat, n: nat)
    requires n <= |carried|
    ensures NewBefore(carried, highWater, n) > 0 <==> exists i | 0 <= i < n :: !Keeps(carried, highWater, i)
  {
    if n > 0 {
      SomeNew(carried, highWater, n - 1);
    }
  }

  /** The same number is new in both rounds. */
  predicate ShareNew(rs: Table, a: Round, b: Round) {
    exists i, j | 0 <= i < |a.carried| && 0 <= j < |b.carried| ::
      && !Keeps(a.carried, HighWater(rs, a.run.repo, a.run.pr), i)
      && !Keeps(b.carried, HighWater(rs, b.run.repo, b.run.pr), j)
      && NumbersOf(rs, a)[i] == NumbersOf(rs, b)[j]
  }

  /**
   Two workers of one pull request that read the same history, the first under a lapsed lease: they hand out
   the same new number exactly when each of them has a new finding.
   */
  lemma SameHistorySharesNumbers(rs: Table, a: Round, b: Round)
    requires a.run.repo == b.run.repo && a.run.pr == b.run.pr
    ensures ShareNew(rs, a, b) <==> HasNew(rs, a) && HasNew(rs, b)
  {
    var high := HighWater(rs, a.run.repo, a.run.pr);
    if HasNew(rs, a) && HasNew(rs, b) {
      SomeNew(a.carried, high, |a.carried|);
      SomeNew(b.carried, high, |b.carried|);
      var i := NewNumbersAreConsecutive(a.carried, high, |a.carried|, 0);
      var j := NewNumbersAreConsecutive(b.carried, high, |b.carried|, 0);
      assert NumbersOf(rs, a)[i] == NumbersOf(rs, b)[j];
    }
  }

  /** Why the keys must be distinct: a run recorded again with no findings frees its numbers. */
  lemma RepeatedKeyLowersHighWater(run: Run)
    requires run.numbers == [1] && run.command == Command.Review
    ensures HighWater(Recorded(map[], run), run.repo, run.pr) == 1
    ensures HighWater(Recorded(Recorded(map[], run), run.(numbers := [])), run.repo, run.pr) == 0
  {
    var one := Recorded(map[], run);
    assert 1 in one[run.key].numbers;
    assert 1 in Issued(one, run.repo, run.pr);
  }
}
