/** The `budget` section: config/budget.py. */
module Config {
  import opened Wrappers
  import opened Numbers

  const SECOND := 1_000_000
  const SESSION := 5 * 3600 * SECOND
  const WEEKLY := 7 * 24 * 3600 * SECOND
  const DAILY := 24 * 3600 * SECOND

  /** The pool arithmetic that an authority publishes and a complier adopts. */
  datatype Shared = Shared(
    sessionTokens: nat, weeklyTokens: nat, maxRunTokens: nat, sharePct: nat, perContributorPct: Option<nat>)

  datatype BudgetConfig = BudgetConfig(
    pool: Shared, enabled: bool, authority: bool, comply: bool,
    minReviewIntervalSeconds: nat, mentionMinReviewIntervalSeconds: nat, maxReviewsPerPullRequest: Option<nat>)
  {
    function Share(planTokens: nat): nat {
      planTokens * pool.sharePct / 100
    }

    function SessionLimit(): nat {
      Share(pool.sessionTokens)
    }

    function WeeklyLimit(): nat {
      Share(pool.weeklyTokens)
    }

    function DailyLimit(): nat {
      Share(pool.weeklyTokens) / 7
    }

    function PerContributorLimit(): Option<nat> {
      if pool.perContributorPct.None? then None
      else Some(WeeklyLimit() * pool.perContributorPct.value / 100)
    }

    function ReviewInterval(mention: bool): int {
      (if mention then mentionMinReviewIntervalSeconds else minReviewIntervalSeconds) * SECOND
    }

    /** `adopt`: the local settings under another file's pool arithmetic. */
    function Adopt(shared: Shared): BudgetConfig {
      this.(pool := shared)
    }

    /** The two cross-field limits that are arithmetic over the pool. */
    predicate RunFits() {
      && pool.maxRunTokens <= DailyLimit()
      && (PerContributorLimit().Some? ==> pool.maxRunTokens <= PerContributorLimit().value)
    }

    /** What `parse` lets through. */
    predicate Valid() {
      && pool.sessionTokens > 0 && pool.weeklyTokens > 0 && pool.maxRunTokens > 0
      && 1 <= pool.sharePct <= 100
      && (pool.perContributorPct.Some? ==> 1 <= pool.perContributorPct.value <= 100)
      && (maxReviewsPerPullRequest.Some? ==> maxReviewsPerPullRequest.value >= 1)
      && mentionMinReviewIntervalSeconds <= minReviewIntervalSeconds
      && RunFits()
    }
  }

  /** Adopting needs no second validation: the pool was checked in the authority's own file. */
  lemma AdoptedIsValid(local: BudgetConfig, authority: BudgetConfig)
    requires local.Valid() && authority.Valid()
    ensures local.Adopt(authority.pool).Valid()
  {
    var adopted := local.Adopt(authority.pool);
    assert adopted.DailyLimit() == authority.DailyLimit();
    assert adopted.PerContributorLimit() == authority.PerContributorLimit();
  }

  /**
   The limits in the file's own numbers: the share of the plan's session and week, a seventh of the
   week's, and a contributor's percentage of the week's, each rounded down.
   */
  lemma LimitsOfTheFile(c: BudgetConfig)
    ensures Whole(c.SessionLimit(), c.pool.sessionTokens * c.pool.sharePct, 100)
    ensures Whole(c.WeeklyLimit(), c.pool.weeklyTokens * c.pool.sharePct, 100)
    ensures Whole(c.DailyLimit(), c.pool.weeklyTokens * c.pool.sharePct, 700)
    ensures c.PerContributorLimit().Some? <==> c.pool.perContributorPct.Some?
    ensures c.PerContributorLimit().Some? ==>
      && Whole(c.PerContributorLimit().value, c.WeeklyLimit() * c.pool.perContributorPct.value, 100)
      && 10_000 * c.PerContributorLimit().value
         <= c.pool.weeklyTokens * c.pool.sharePct * c.pool.perContributorPct.value
  {
    WholeIsQuotient(c.pool.sessionTokens * c.pool.sharePct, 100);
    WholeIsQuotient(c.pool.weeklyTokens * c.pool.sharePct, 100);
    WholeIsQuotient(c.WeeklyLimit(), 7);
    if c.PerContributorLimit().Some? {
      WholeIsQuotient(c.WeeklyLimit() * c.pool.perContributorPct.value, 100);
      assert 100 * c.WeeklyLimit() * c.pool.perContributorPct.value
        <= c.pool.weeklyTokens * c.pool.sharePct * c.pool.perContributorPct.value;
    }
  }

  /**
   What loading lets through, in the file's own numbers: among the rest, a run that fits in a seventh
   of the share of the week and in what one contributor is given.
   */
  lemma ValidExactlyWhen(c: BudgetConfig, weekly: nat)
    requires Whole(weekly, c.pool.weeklyTokens * c.pool.sharePct, 100)
    ensures c.Valid() <==>
      && c.pool.sessionTokens > 0 && c.pool.weeklyTokens > 0 && c.pool.maxRunTokens > 0
      && 1 <= c.pool.sharePct <= 100
      && c.mentionMinReviewIntervalSeconds <= c.minReviewIntervalSeconds
      && c.maxReviewsPerPullRequest != Some(0)
      && 700 * c.pool.maxRunTokens <= c.pool.weeklyTokens * c.pool.sharePct
      && (c.pool.perContributorPct.Some? ==>
            && 1 <= c.pool.perContributorPct.value <= 100
            && 100 * c.pool.maxRunTokens <= weekly * c.pool.perContributorPct.value)
  {
    LimitsOfTheFile(c);
    OneWhole(c.WeeklyLimit(), weekly, c.pool.weeklyTokens * c.pool.sharePct, 100);
  }
}
