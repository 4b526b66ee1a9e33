/** What a paid review produced, kept so publishing it can be retried: runs.py. */
module Runs {
  import opened Wrappers
  import opened Model
  import opened Store

  /** The runs table, by its primary key. */
  type Table = map<string, Run>

  const PUBLISH_PREFIX := "publish:"

  /** `publication_of`: the work item that posts `run`, when a first post failed. */
  function PublicationOf(t: Trigger, run: Run): Trigger {
    t.(kind := Publish, key := PUBLISH_PREFIX + run.key, headSha := Some(run.headSha))
  }

  /** `published_run_key` */
  function PublishedRunKey(t: Trigger): string
    requires t.kind == Publish
  {
    if |t.key| < |PUBLISH_PREFIX| then "" else t.key[|PUBLISH_PREFIX|..]
  }

  /** `_RECORD`: a repeated key is overwritten, all but what was learnt by posting it. */
  function Recorded(rs: Table, run: Run): Table {
    if run.key in rs
    then rs[run.key := rs[run.key].(command := run.command, headSha := run.headSha, numbers := run.numbers,
                                    recordedAt := run.recordedAt)]
    else rs[run.key := run]
  }

  /** A publication item for this run that will still be claimed. */
  predicate IsOwed(q: Queue, key: string) {
    RowOpen(q, PUBLISH_PREFIX + key) && q[PUBLISH_PREFIX + key].trigger.kind == Publish
  }

  /** A recorded run is posted, given up, or owed. */
  predicate AccountedFor(q: Queue, rs: Table, key: string) {
    key in rs && (rs[key].publishedAt.Some? || rs[key].publishFailedAt.Some? || IsOwed(q, key))
  }

  /** The `WHERE` of `_UNPUBLISHED`. */
  predicate Unposted(rs: Table, key: string) {
    key in rs && rs[key].publishedAt.None? && rs[key].publishFailedAt.None?
  }

  /** `_MARK_PUBLISHED` */
  function Posted(rs: Table, key: string, now: Time): Table {
    if key in rs && rs[key].publishedAt.None? then rs[key := rs[key].(publishedAt := Some(now))] else rs
  }

  /** `_PUBLISH_FAILED` */
  function PostFailed(rs: Table, key: string, limit: nat, now: Time): Table {
    if key in rs && rs[key].publishedAt.None? then
      var tried := rs[key].publishAttempts + 1;
      rs[key := rs[key].(publishAttempts := tried, publishFailedAt := if tried >= limit then Some(now) else None)]
    else rs
  }

  predicate GivenUp(rs: Table, key: string) {
    key in rs && rs[key].publishFailedAt.Some?
  }

  /** What came of a post, and what its failure is counted against. */
  datatype PostAnswer = PostAnswer(accepted: bool, limit: nat, at: Time)

  /** The table once a post of the run was taken, or was counted as failed. */
  function Attended(rs: Table, key: string, post: PostAnswer): Table {
    if post.accepted then Posted(rs, key, post.at) else PostFailed(rs, key, post.limit, post.at)
  }

  /** A failed post that was not the last one allowed is owed. */
  predicate Owes(rs: Table, key: string, post: PostAnswer) {
    !post.accepted && !GivenUp(rs, key)
  }

  predicate IsMax(m: nat, s: set<nat>) {
    m in s && forall n | n in s :: n <= m
  }

  lemma AnotherMax(s: set<nat>, any: nat, most: nat)
    requires any in s && IsMax(most, s - {any})
    ensures IsMax(if any > most then any else most, s)
  {
    assert s == (s - {any}) + {any};
  }

  lemma {:induction false} MaxExists(s: set<nat>)
    requires s != {}
    ensures exists m :: IsMax(m, s)
  {
    var any :| any in s;
    if s - {any} == {} {
      assert s == {any};
      assert IsMax(any, s);
    } else {
      MaxExists(s - {any});
      var most :| IsMax(most, s - {any});
      AnotherMax(s, any, most);
    }
  }

  /** The `WHERE` of `_HISTORY`: a description is no round. */
  predicate IsRound(run: Run, repo: string, pr: int) {
    run.repo == repo && run.pr == pr && run.command == Command.Review
  }

  /** Every number the recorded rounds of a pull request carry. */
  function Issued(rs: Table, repo: string, pr: int): set<nat> {
    set k, n | k in rs && IsRound(rs[k], repo, pr) && n in rs[k].numbers :: n
  }

  /** `high_water`, read back from the rows. */
  function HighWater(rs: Table, repo: string, pr: int): (high: nat)
    ensures forall n | n in Issued(rs, repo, pr) :: n <= high
    ensures high == 0 || high in Issued(rs, repo, pr)
  {
    var issued := Issued(rs, repo, pr);
    if issued == {} then 0
    else
      MaxExists(issued);
      var m :| m in issued && IsMax(m, issued);
      m
  }

  /** What a worker has just produced: neither posted nor tried. */
  function RunFor(t: Trigger, headSha: string, numbers: seq<nat>, now: Time): Run {
    Run(t.key, t.repo, t.pr, t.command, headSha, numbers, now, None, 0, None)
  }

  class RunStore {
    const store: SqliteStore

    constructor (store: SqliteStore)
      ensures this.store == store
    {
      this.store := store;
    }

    /** Store what this run produced, before anything is posted. */
    method Record(trigger: Trigger, headSha: string, numbers: seq<nat>, now: Time) returns (run: Run)
      modifies store`runs
      ensures run == RunFor(trigger, headSha, numbers, now)
      ensures store.runs == Recorded(old(store.runs), run)
    {
      run := RunFor(trigger, headSha, numbers, now);
      store.runs := Recorded(store.runs, run);
    }

    /** The run `key` names, or nothing if it needs no posting. */
    method Unpublished(key: string) returns (run: Option<Run>)
      ensures run.Some? <==> Unposted(store.runs, key)
      ensures run.Some? ==> run.value == store.runs[key]
    {
      run := if Unposted(store.runs, key) then Some(store.runs[key]) else None;
    }

    /** False when the run was already stamped. */
    method MarkPublished(key: string, now: Time) returns (ok: bool)
      modifies store`runs
      ensures store.runs == Posted(old(store.runs), key, now)
      ensures ok <==> key in old(store.runs) && old(store.runs)[key].publishedAt.None?
    {
      ok := key in store.runs && store.runs[key].publishedAt.None?;
      store.runs := Posted(store.runs, key, now);
    }

    /** Count a failed post; true when that was the last one allowed. */
    method PublishFailed(key: string, limit: nat, now: Time) returns (gaveUp: bool)
      modifies store`runs
      ensures store.runs == PostFailed(old(store.runs), key, limit, now)
      ensures gaveUp <==> GivenUp(store.runs, key)
    {
      store.runs := PostFailed(store.runs, key, limit, now);
      gaveUp := GivenUp(store.runs, key);
    }
  }

  /** A run recorded again is the new one, of the same pull request, with what was learnt by posting the old. */
  lemma RecordedAgain(rs: Table, run: Run)
    ensures var r := Recorded(rs, run)[run.key];
      && r.headSha == run.headSha && r.numbers == run.numbers && r.recordedAt == run.recordedAt
      && r.command == run.command
      && (run.key !in rs ==> r == run)
      && (run.key in rs ==>
            && r.publishedAt == rs[run.key].publishedAt && r.publishAttempts == rs[run.key].publishAttempts
            && r.publishFailedAt == rs[run.key].publishFailedAt
            && r.repo == rs[run.key].repo && r.pr == rs[run.key].pr)
      && Recorded(rs, run) - {run.key} == rs - {run.key}
  {
  }

  /** A publication item names the run it was made for, and asks for its head to be posted where it was asked for. */
  lemma PublicationNamesItsRun(t: Trigger, run: Run)
    ensures var item := PublicationOf(t, run);
      && PublishedRunKey(item) == run.key && item.key == "publish:" + run.key
      && item.kind == Publish && item.headSha == Some(run.headSha)
      && item.repo == t.repo && item.pr == t.pr && item.actor == t.actor && item.command == t.command
  {
    assert (PUBLISH_PREFIX + run.key)[|PUBLISH_PREFIX|..] == run.key;
  }

  // ----- How often one run is posted -----------------------------------------------------------

  datatype Change = Record(run: Run) | MarkPublished(key: string, at: Time) | CountFailure(key: string, at: Time)

  function Changed(rs: Table, c: Change, limit: nat): Table {
    match c
    case Record(run) => Recorded(rs, run)
    case MarkPublished(key, at) => Posted(rs, key, at)
    case CountFailure(key, at) => PostFailed(rs, key, limit, at)
  }

  /** The change that attending to a post makes. */
  function PostChange(key: string, post: PostAnswer): Change {
    if post.accepted then Change.MarkPublished(key, post.at) else CountFailure(key, post.at)
  }

  function AfterChanges(rs: Table, changes: seq<Change>, limit: nat): Table
    decreases |changes|
  {
    if changes == [] then rs else AfterChanges(Changed(rs, changes[0], limit), changes[1..], limit)
  }

  /** What a worker has just written is not stamped yet. */
  predicate FreshRecord(c: Change) {
    c.Record? ==> c.run.publishedAt.None? && c.run.publishAttempts == 0 && c.run.publishFailedAt.None?
  }

  /** A run is stamped exactly when its failed posts reached the limit. */
  predicate StampedAtLimit(rs: Table, limit: nat) {
    forall k | k in rs :: rs[k].publishFailedAt.Some? <==> rs[k].publishAttempts >= limit
  }

  predicate PostsWithin(rs: Table, limit: nat) {
    forall k | k in rs :: rs[k].publishAttempts <= limit
  }

  /** A failed post that is counted although the run was given up before. */
  predicate CountsGivenUp(rs: Table, c: Change) {
    c.CountFailure? && GivenUp(rs, c.key) && rs[c.key].publishedAt.None?
  }

  predicate NeverCountsGivenUp(rs: Table, changes: seq<Change>, limit: nat)
    decreases |changes|
  {
    changes == [] ||
    (!CountsGivenUp(rs, changes[0]) && NeverCountsGivenUp(Changed(rs, changes[0], limit), changes[1..], limit))
  }

  /** Counts are never taken back, whatever is recorded or posted. */
  lemma {:induction false} CountsOnlyGrow(rs: Table, changes: seq<Change>, limit: nat, key: string)
    requires key in rs
    ensures key in AfterChanges(rs, changes, limit)
    ensures rs[key].publishAttempts <= AfterChanges(rs, changes, limit)[key].publishAttempts
    decreases |changes|
  {
    if changes != [] {
      CountsOnlyGrow(Changed(rs, changes[0], limit), changes[1..], limit, key);
    }
  }

  lemma OneChange(rs: Table, c: Change, limit: nat)
    requires limit >= 1 && StampedAtLimit(rs, limit) && PostsWithin(rs, limit) && FreshRecord(c)
    ensures StampedAtLimit(Changed(rs, c, limit), limit)
    ensures PostsWithin(Changed(rs, c, limit), limit) <==> !CountsGivenUp(rs, c)
  {
    if CountsGivenUp(rs, c) {
      assert Changed(rs, c, limit)[c.key].publishAttempts > limit;
    }
  }

  /**
   With a fixed limit, over any interleaving of the records, posts and counted failures of any number of
   workers, crashed or not: no run is counted past the limit exactly when none is counted that was given
   up and is not posted.
   */
  lemma {:induction false} FailedPostsBounded(rs: Table, changes: seq<Change>, limit: nat)
    requires limit >= 1 && StampedAtLimit(rs, limit) && PostsWithin(rs, limit)
    requires forall i | 0 <= i < |changes| :: FreshRecord(changes[i])
    ensures PostsWithin(AfterChanges(rs, changes, limit), limit) <==> NeverCountsGivenUp(rs, changes, limit)
    decreases |changes|
  {
    if changes != [] {
      var rs1 := Changed(rs, changes[0], limit);
      OneChange(rs, changes[0], limit);
      if CountsGivenUp(rs, changes[0]) {
        CountsOnlyGrow(rs1, changes[1..], limit, changes[0].key);
        assert AfterChanges(rs, changes, limit) == AfterChanges(rs1, changes[1..], limit);
        assert AfterChanges(rs, changes, limit)[changes[0].key].publishAttempts > limit;
      } else {
        FailedPostsBounded(rs1, changes[1..], limit);
      }
    }
  }

  /** Two workers that were both offered a run, the first under a lapsed lease, count past a limit of one. */
  lemma TwoPostersExceedTheLimit(run: Run, at: Time)
    requires FreshRecord(Record(run))
    ensures var offered := Recorded(map[], run);
      && Unposted(offered, run.key)
      && AfterChanges(offered, [CountFailure(run.key, at), CountFailure(run.key, at)], 1)
         == map[run.key := run.(publishAttempts := 2, publishFailedAt := Some(at))]
  {
    var count := CountFailure(run.key, at);
    var one := Recorded(map[], run);
    var two := PostFailed(one, run.key, 1, at);
    assert [count, count][1..] == [count];
    calc {
      AfterChanges(one, [count, count], 1);
      AfterChanges(two, [count], 1);
      AfterChanges(PostFailed(two, run.key, 1, at), [], 1);
    }
  }
}
