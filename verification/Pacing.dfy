/** How often one pull request may be reviewed: pacing.py. */
module Pacing {
  import opened Wrappers
  import opened Model
  import opened Config

  predicate OfPull(r: LedgerRow, repo: string, pr: int) {
    r.repo == repo && r.pr == pr
  }

  /** `_LAST_RESERVED_AT` */
  function LastReservedAt(l: Ledger, repo: string, pr: int): (last: Option<Time>)
    ensures last.None? ==> forall i | 0 <= i < |l| :: !OfPull(l[i], repo, pr)
    ensures last.Some? ==> forall i | 0 <= i < |l| && OfPull(l[i], repo, pr) :: l[i].reservedAt <= last.value
    ensures last.Some? ==> exists i :: 0 <= i < |l| && OfPull(l[i], repo, pr) && l[i].reservedAt == last.value
  {
    if l == [] then None
    else
      var n := |l| - 1;
      var before := LastReservedAt(l[..n], repo, pr);
      if !OfPull(l[n], repo, pr) then before
      else if before.Some? && before.value > l[n].reservedAt then before
      else Some(l[n].reservedAt)
  }

  function ReviewSince(repo: string, pr: int, start: Time): LedgerRow -> nat {
    (r: LedgerRow) => if OfPull(r, repo, pr) && r.reservedAt > start then 1 else 0
  }

  /** `_RESERVED_SINCE` */
  function ReservedSince(l: Ledger, repo: string, pr: int, start: Time): nat {
    Total(l, ReviewSince(repo, pr, start))
  }

  predicate WithinInterval(t: Trigger, now: Time, last: Time, config: BudgetConfig) {
    var interval := config.ReviewInterval(t.kind == Mention);
    interval == 0 || now - last >= interval
  }

  predicate UnderCap(l: Ledger, t: Trigger, now: Time, config: BudgetConfig) {
    config.maxReviewsPerPullRequest.Some? ==>
      ReservedSince(l, t.repo, t.pr, now - DAILY) < config.maxReviewsPerPullRequest.value
  }

  predicate Paced(l: Ledger, t: Trigger, now: Time, config: BudgetConfig) {
    var last := LastReservedAt(l, t.repo, t.pr);
    last.Some? ==> WithinInterval(t, now, last.value, config) && UnderCap(l, t, now, config)
  }

  /** The reservations of the pull request after `start`. */
  function ReviewsAfter(l: Ledger, repo: string, pr: int, start: Time): (rows: set<nat>)
    ensures forall i :: i in rows <==> 0 <= i < |l| && OfPull(l[i], repo, pr) && l[i].reservedAt > start
  {
    set i: nat | i < |l| && OfPull(l[i], repo, pr) && l[i].reservedAt > start
  }

  lemma {:induction false} ReservedSinceCounts(l: Ledger, repo: string, pr: int, start: Time)
    ensures ReservedSince(l, repo, pr, start) == |ReviewsAfter(l, repo, pr, start)|
  {
    if l == [] {
      assert ReviewsAfter(l, repo, pr, start) == {};
    } else {
      var n := |l| - 1;
      ReservedSinceCounts(l[..n], repo, pr, start);
      var counted := if OfPull(l[n], repo, pr) && l[n].reservedAt > start then {n} else {};
      assert ReviewsAfter(l, repo, pr, start) == ReviewsAfter(l[..n], repo, pr, start) + counted;
    }
  }

  /**
   A pull request may be reviewed exactly when none of its reservations is younger than the file's
   interval (a mention's or the other), and those of the last day are fewer than the file's cap.
   */
  lemma PacedExactlyWhen(l: Ledger, t: Trigger, now: Time, config: BudgetConfig)
    ensures var seconds := if t.kind == Mention then config.mentionMinReviewIntervalSeconds
                           else config.minReviewIntervalSeconds;
      var cap := config.maxReviewsPerPullRequest;
      Paced(l, t, now, config) <==>
        || (forall i | 0 <= i < |l| :: !OfPull(l[i], t.repo, t.pr))
        || (&& (seconds == 0 || forall i | 0 <= i < |l| && OfPull(l[i], t.repo, t.pr) ::
                                  now - l[i].reservedAt >= seconds * SECOND)
            && (cap.Some? ==> |ReviewsAfter(l, t.repo, t.pr, now - 24 * 3600 * SECOND)| < cap.value))
  {
    ReservedSinceCounts(l, t.repo, t.pr, now - DAILY);
  }
}
