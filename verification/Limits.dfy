/**
 The spending limits over whole histories: no interval of a window's length ever holds more than the
 window allows, whichever way the clocks ran and whatever the breaker did.
 */
module Limits {
  import opened Wrappers
  import opened Model
  import opened Numbers
  import opened Config
  import opened Budget
  import opened Queue
  import opened Pacing
  import opened Protocol
  import opened History
  import Breaker

  /** Reserved in the interval `(start, start + length]`, by this contributor if one is named. */
  predicate Within(r: LedgerRow, start: Time, length: int, actor: Option<int>) {
    start < r.reservedAt <= start + length && ByActor(r, actor)
  }

  /** Tokens committed in the interval. */
  function CommittedIn(l: Ledger, start: Time, length: int, actor: Option<int>): nat {
    Total(l, (r: LedgerRow) => if Within(r, start, length, actor) then Committed(r) else 0)
  }

  /** By how much a run settled above what it had reserved. */
  function Overrun(r: LedgerRow): nat {
    if Committed(r) > r.reserved then Committed(r) - r.reserved else 0
  }

  function OverrunIn(l: Ledger, start: Time, length: int, actor: Option<int>): nat {
    Total(l, (r: LedgerRow) => if Within(r, start, length, actor) then Overrun(r) else 0)
  }

  /** What a row is charged when overruns are left out: it can only fall as the row settles. */
  function Charge(r: LedgerRow): nat {
    if Committed(r) > r.reserved then r.reserved else Committed(r)
  }

  function ChargeOf(start: Time, length: int, actor: Option<int>): LedgerRow -> nat {
    (r: LedgerRow) => if Within(r, start, length, actor) then Charge(r) else 0
  }

  function ChargedIn(l: Ledger, start: Time, length: int, actor: Option<int>): nat {
    Total(l, ChargeOf(start, length, actor))
  }

  lemma {:induction false} CommittedIsChargePlusOverrun(l: Ledger, start: Time, length: int, actor: Option<int>)
    ensures CommittedIn(l, start, length, actor)
            == ChargedIn(l, start, length, actor) + OverrunIn(l, start, length, actor)
  {
    if l != [] {
      CommittedIsChargePlusOverrun(l[..|l| - 1], start, length, actor);
    }
  }

  ghost predicate ChargeBounded(l: Ledger, length: int, actor: Option<int>, limit: nat) {
    forall start: Time :: ChargedIn(l, start, length, actor) <= limit
  }

  lemma SettleKeepsCharge(l: Ledger, key: string, owner: string, s: Settlement, start: Time, length: int,
                          actor: Option<int>)
    ensures ChargedIn(Settled(l, key, owner, s), start, length, actor) <= ChargedIn(l, start, length, actor)
  {
    var w := ChargeOf(start, length, actor);
    TotalAtMost(l, Settled(l, key, owner, s), w, w);
  }

  lemma LostKeepsCharge(l: Ledger, key: string, now: Time, start: Time, length: int, actor: Option<int>)
    ensures ChargedIn(SettledLost(l, key, now), start, length, actor) <= ChargedIn(l, start, length, actor)
  {
    var w := ChargeOf(start, length, actor);
    TotalAtMost(l, SettledLost(l, key, now), w, w);
  }

  /** A window read at an instant of the interval counts everything charged in the interval. */
  lemma WindowCountsInterval(l: Ledger, now: Time, start: Time, length: int, actor: Option<int>)
    requires now <= start + length
    ensures ChargedIn(l, start, length, actor) <= UsedSince(l, now - length, actor)
  {
    TotalAtMost(l, l, UsageSince(now - length, actor), ChargeOf(start, length, actor));
  }

  lemma AdmissionKeepsCharge(l: Ledger, c: Claim, mode: Mode, tokens: nat, now: Time, length: int, actor: Option<int>,
                             limit: nat)
    requires ChargeBounded(l, length, actor, limit)
    requires (actor.Some? ==> c.trigger.actor == actor.value) ==> UsedSince(l, now - length, actor) + tokens <= limit
    ensures ChargeBounded(Admitted(l, c, mode, tokens, now), length, actor, limit)
  {
    var lost := SettledLost(l, c.trigger.key, now);
    var row := LedgerRow(c.trigger.key, c.owner, c.trigger.actor, c.trigger.repo, c.trigger.pr,
                         mode, tokens, now, None);
    forall start: Time ensures ChargedIn(lost + [row], start, length, actor) <= limit {
      LostKeepsCharge(l, c.trigger.key, now, start, length, actor);
      TotalAppend(lost, row, ChargeOf(start, length, actor));
      if Within(row, start, length, actor) {
        WindowCountsInterval(l, now, start, length, actor);
      }
    }
  }

  /** The configuration measures this window, under at most this limit. */
  predicate Governs(config: BudgetConfig, length: int, actor: Option<int>, limit: nat) {
    exists i | 0 <= i < |AllWindows(config, actor)| ::
      var w := AllWindows(config, actor)[i];
      w.duration == length && w.actor == actor && w.limit <= limit
  }

  /** An admitted run fits in every window it was weighed against. */
  lemma AdmissibleFits(l: Ledger, b: Breaker.State, config: BudgetConfig, t: Trigger, now: Time, length: int,
                       actor: Option<int>, limit: nat)
    requires Breaker.Sound(b) && Admissible(l, b, config, t, now) && Governs(config, length, actor, limit)
    requires actor.Some? ==> t.actor == actor.value
    ensures UsedSince(l, now - length, actor) + config.pool.maxRunTokens <= Max(1, limit)
  {
    var i :| 0 <= i < |AllWindows(config, actor)| && AllWindows(config, actor)[i].duration == length
             && AllWindows(config, actor)[i].actor == actor && AllWindows(config, actor)[i].limit <= limit;
    var windows := AllWindows(config, Some(t.actor));
    var w := AllWindows(config, actor)[i];
    assert i < |windows| && windows[i] == w;
    var rs := MeasuredFor(l, b, config, t, now);
    assert Affords(rs[i], t.kind, config.pool.maxRunTokens);
    Breaker.CalibrationSound(b, now);
    Breaker.CalibratedAtMost(w.limit, Breaker.Calibration(b, now));
  }

  /** Every claim that the actions take is under a file that measures this window. */
  predicate AllGovern(actions: seq<Action>, length: int, actor: Option<int>, limit: nat) {
    forall i | 0 <= i < |actions| && actions[i].TakeClaim? && actions[i].key.Some? ::
      Governs(actions[i].config, length, actor, limit)
  }

  lemma StepKeepsCharge(setup: Setup, s: System, a: Action, l': Ledger, length: int, actor: Option<int>, limit: nat)
    requires Sound(setup, s) && Enabled(setup, s, a) && l' == Step(setup, s, a).ledger
    requires AllGovern([a], length, actor, limit) && ChargeBounded(s.ledger, length, actor, Max(1, limit))
    ensures ChargeBounded(l', length, actor, Max(1, limit))
  {
    LedgerStep(setup, s, a, l');
    if a.SettleRun? {
      var settlement := Settlement(a.end.usage, a.end.reason, a.lines, a.since, a.at);
      forall start: Time ensures ChargedIn(l', start, length, actor) <= Max(1, limit) {
        SettleKeepsCharge(s.ledger, PhaseOf(s, a.owner).claim.trigger.key, a.owner, settlement, start, length, actor);
      }
    } else if a.TakeClaim? && a.key.Some? {
      var c := ClaimOf(Swept(setup, s, a.repo, a.now).queue[a.key.value], a.owner, a.now + setup.lease);
      assert Governs([a][0].config, length, actor, limit);
      ClaimKeepsCharge(s.ledger, s.breaker, a.config, c, a.now, length, actor, limit);
    }
  }

  lemma ClaimKeepsCharge(l: Ledger, b: Breaker.State, config: BudgetConfig, c: Claim, now: Time, length: int,
                         actor: Option<int>, limit: nat)
    requires Breaker.Sound(b) && WorkerAdmits(l, b, config, c.trigger, now) && Governs(config, length, actor, limit)
    requires ChargeBounded(l, length, actor, Max(1, limit))
    ensures ChargeBounded(LedgerAfterClaim(l, b, config, c, now), length, actor, Max(1, limit))
  {
    if c.trigger.kind != Publish {
      if actor.Some? ==> c.trigger.actor == actor.value {
        AdmissibleFits(l, b, config, c.trigger, now, length, actor, limit);
      }
      AdmissionKeepsCharge(l, c, Rung(l, b, config, c.trigger, now), config.pool.maxRunTokens, now, length, actor,
                           Max(1, limit));
    }
  }

  lemma {:induction false} RunKeepsCharge(setup: Setup, s: System, actions: seq<Action>, length: int,
                                          actor: Option<int>, limit: nat)
    requires Sound(setup, s) && ValidRun(setup, s, actions)
    requires AllGovern(actions, length, actor, limit) && ChargeBounded(s.ledger, length, actor, Max(1, limit))
    ensures ChargeBounded(After(setup, s, actions).ledger, length, actor, Max(1, limit))
    decreases |actions|
  {
    if actions != [] {
      assert [actions[0]][0] == actions[0];
      var s1 := Step(setup, s, actions[0]);
      StepSound(setup, s, actions[0]);
      StepKeepsCharge(setup, s, actions[0], s1.ledger, length, actor, limit);
      RunKeepsCharge(setup, s1, actions[1..], length, actor, limit);
    }
  }

  /**
   Sliding-window safety. Over every run, every interval of a window's length, whether or not it ends
   at an admission, holds at most the limit plus what the runs in it settled above their reservations.
   With an actor, the same for one contributor's window.
   */
  lemma SlidingWindowSafe(setup: Setup, begin: Time, actions: seq<Action>, length: int, actor: Option<int>,
                          limit: nat, start: Time)
    requires ValidRun(setup, Fresh(begin), actions) && AllGovern(actions, length, actor, limit)
    ensures var l := After(setup, Fresh(begin), actions).ledger;
      CommittedIn(l, start, length, actor) <= Max(1, limit) + OverrunIn(l, start, length, actor)
  {
    FreshSound(setup, begin);
    RunKeepsCharge(setup, Fresh(begin), actions, length, actor, limit);
    CommittedIsChargePlusOverrun(After(setup, Fresh(begin), actions).ledger, start, length, actor);
  }

  /** The windows there are: five hours, a week and a day for everybody, and a week for a contributor. */
  lemma WindowsGovern(config: BudgetConfig, actor: int)
    ensures Governs(config, SESSION, None, config.SessionLimit())
    ensures Governs(config, WEEKLY, None, config.WeeklyLimit())
    ensures Governs(config, DAILY, None, config.DailyLimit())
    ensures config.PerContributorLimit().Some? ==>
      Governs(config, WEEKLY, Some(actor), config.PerContributorLimit().value)
  {
    assert AllWindows(config, None)[0].duration == SESSION;
    assert AllWindows(config, None)[1].duration == WEEKLY;
    assert AllWindows(config, None)[2].duration == DAILY;
    if config.PerContributorLimit().Some? {
      assert AllWindows(config, Some(actor))[3].actor == Some(actor);
    }
  }

  // ----- In the file's own numbers -------------------------------------------------------------

  /** The window has room for a run under a limit: all of it, and for another kind than a mention 85 %. */
  ghost predicate Room(limit: nat, calibration: int, used: nat, run: nat, kind: Kind) {
    exists scaled: nat | Whole(scaled, limit * calibration, 100) ::
      used + run <= Max(1, scaled) && (kind != Mention ==> 100 * used < 85 * Max(1, scaled))
  }

  lemma RoomIsAffords(w: Window, l: Ledger, now: Time, calibration: nat, run: nat, kind: Kind)
    requires run > 0
    ensures Affords(Read(l, w, now, calibration), kind, run)
            <==> Room(w.limit, calibration, UsedSince(l, now - w.duration, w.actor), run, kind)
  {
    var scaled := w.limit * calibration / 100;
    WholeIsQuotient(w.limit * calibration, 100);
    forall other: nat | Whole(other, w.limit * calibration, 100) ensures other == scaled {
      OneWhole(other, scaled, w.limit * calibration, 100);
    }
  }

  /**
   A run is admitted exactly when the file enables reviews, no trip holds, its pull request is
   paced, and there is room under the share of the plan's session over five hours, of its week over
   a week, of a seventh of its week over a day, and of the contributor's part over a week.
   */
  lemma AdmittedExactlyWhen(l: Ledger, b: Breaker.State, config: BudgetConfig, t: Trigger, now: Time, session: nat,
                            weekly: nat, daily: nat, contributor: nat)
    requires Breaker.Sound(b) && config.pool.maxRunTokens > 0
    requires Whole(session, config.pool.sessionTokens * config.pool.sharePct, 100)
    requires Whole(weekly, config.pool.weeklyTokens * config.pool.sharePct, 100) && Whole(daily, weekly, 7)
    requires config.pool.perContributorPct.Some? ==>
               Whole(contributor, weekly * config.pool.perContributorPct.value, 100)
    ensures var c, run := Breaker.Calibration(b, now), config.pool.maxRunTokens;
      Admissible(l, b, config, t, now) <==>
        && config.enabled && !Breaker.Tripped(b, now) && Paced(l, t, now, config)
        && Room(session, c, UsedSince(l, now - 5 * 3600 * SECOND, None), run, t.kind)
        && Room(weekly, c, UsedSince(l, now - 7 * 24 * 3600 * SECOND, None), run, t.kind)
        && Room(daily, c, UsedSince(l, now - 24 * 3600 * SECOND, None), run, t.kind)
        && (config.pool.perContributorPct.Some? ==>
              Room(contributor, c, UsedSince(l, now - 7 * 24 * 3600 * SECOND, Some(t.actor)), run, t.kind))
  {
    Breaker.CalibrationSound(b, now);
    LimitsAre(config, session, weekly, daily, contributor);
    EachAffords(l, b, config, t, now, Breaker.Calibration(b, now), config.pool.maxRunTokens);
  }

  ghost predicate RoomFor(l: Ledger, w: Window, now: Time, calibration: int, run: nat, kind: Kind) {
    Room(w.limit, calibration, UsedSince(l, now - w.duration, w.actor), run, kind)
  }

  lemma AffordsIsRoom(l: Ledger, ws: seq<Window>, now: Time, calibration: nat, run: nat, kind: Kind)
    requires run > 0
    ensures AllAfford(Readings(l, ws, now, calibration), kind, run)
            <==> forall i | 0 <= i < |ws| :: RoomFor(l, ws[i], now, calibration, run, kind)
  {
    var rs := Readings(l, ws, now, calibration);
    forall i | 0 <= i < |ws| ensures Affords(rs[i], kind, run) <==> RoomFor(l, ws[i], now, calibration, run, kind) {
      RoomIsAffords(ws[i], l, now, calibration, run, kind);
    }
  }

  /** Every window affords the run when each has room for it. */
  lemma EachAffords(l: Ledger, b: Breaker.State, config: BudgetConfig, t: Trigger, now: Time, c: nat, run: nat)
    requires c == Breaker.Calibration(b, now) && run > 0
    ensures AllAfford(MeasuredFor(l, b, config, t, now), t.kind, run) <==>
      && Room(config.SessionLimit(), c, UsedSince(l, now - SESSION, None), run, t.kind)
      && Room(config.WeeklyLimit(), c, UsedSince(l, now - WEEKLY, None), run, t.kind)
      && Room(config.DailyLimit(), c, UsedSince(l, now - DAILY, None), run, t.kind)
      && (config.PerContributorLimit().Some? ==>
            Room(config.PerContributorLimit().value, c, UsedSince(l, now - WEEKLY, Some(t.actor)), run, t.kind))
  {
    var ws := AllWindows(config, Some(t.actor));
    WindowsAre(config, t.actor);
    AffordsIsRoom(l, ws, now, c, run, t.kind);
    assert MeasuredFor(l, b, config, t, now) == Readings(l, ws, now, c);
    assert (forall i | 0 <= i < |ws| :: RoomFor(l, ws[i], now, c, run, t.kind)) <==>
      && RoomFor(l, ws[0], now, c, run, t.kind) && RoomFor(l, ws[1], now, c, run, t.kind)
      && RoomFor(l, ws[2], now, c, run, t.kind) && (|ws| == 4 ==> RoomFor(l, ws[3], now, c, run, t.kind));
  }

  lemma WindowsAre(config: BudgetConfig, actor: int)
    ensures var ws := AllWindows(config, Some(actor));
      && |ws| == (if config.PerContributorLimit().Some? then 4 else 3)
      && ws[0] == Window("session", SESSION, config.SessionLimit(), None)
      && ws[1] == Window("weekly", WEEKLY, config.WeeklyLimit(), None)
      && ws[2] == Window("daily", DAILY, config.DailyLimit(), None)
      && (config.PerContributorLimit().Some? ==>
            ws[3] == Window("contributor", WEEKLY, config.PerContributorLimit().value, Some(actor)))
  {
  }

  lemma LimitsAre(config: BudgetConfig, session: nat, weekly: nat, daily: nat, contributor: nat)
    requires Whole(session, config.pool.sessionTokens * config.pool.sharePct, 100)
    requires Whole(weekly, config.pool.weeklyTokens * config.pool.sharePct, 100) && Whole(daily, weekly, 7)
    requires config.pool.perContributorPct.Some? ==>
               Whole(contributor, weekly * config.pool.perContributorPct.value, 100)
    ensures config.SessionLimit() == session && config.WeeklyLimit() == weekly && config.DailyLimit() == daily
    ensures config.PerContributorLimit()
            == if config.pool.perContributorPct.Some? then Some(contributor) else None
  {
    LimitsOfTheFile(config);
    OneWhole(config.SessionLimit(), session, config.pool.sessionTokens * config.pool.sharePct, 100);
    OneWhole(config.WeeklyLimit(), weekly, config.pool.weeklyTokens * config.pool.sharePct, 100);
    OneWhole(config.DailyLimit(), daily, config.pool.weeklyTokens * config.pool.sharePct, 700);
    if config.pool.perContributorPct.Some? {
      OneWhole(config.PerContributorLimit().value, contributor, weekly * config.pool.perContributorPct.value, 100);
    }
  }

  /** On an empty ledger, before any trip, a run waits for nothing but its own ceiling. */
  lemma EmptyLedgerAdmits(config: BudgetConfig, t: Trigger, now: Time)
    requires config.Valid() && config.enabled && config.pool.maxRunTokens <= Max(1, config.SessionLimit())
    ensures Admissible([], Breaker.NEVER_TRIPPED, config, t, now)
  {
    var run := config.pool.maxRunTokens;
    EachAffords([], Breaker.NEVER_TRIPPED, config, t, now, 100, run);
    RoomWhenEmpty(config.SessionLimit(), run, t.kind);
    RoomWhenEmpty(config.WeeklyLimit(), run, t.kind);
    RoomWhenEmpty(config.DailyLimit(), run, t.kind);
    if config.PerContributorLimit().Some? {
      RoomWhenEmpty(config.PerContributorLimit().value, run, t.kind);
    }
  }

  lemma RoomWhenEmpty(limit: nat, run: nat, kind: Kind)
    requires run <= Max(1, limit)
    ensures Room(limit, 100, 0, run, kind)
  {
    assert Whole(limit, limit * 100, 100);
  }

  /**
   Loading refuses a file under which no run could ever be admitted, but for the session: a file it lets through
   admits some run exactly when the ceiling of a run is within the share of the plan's session.
   */
  lemma AdmitsSomethingExactlyWhen(config: BudgetConfig)
    requires config.Valid() && config.enabled
    ensures (exists l, b, t, now :: Breaker.Sound(b) && Admissible(l, b, config, t, now))
            <==> 100 * config.pool.maxRunTokens <= Max(100, config.pool.sessionTokens * config.pool.sharePct)
  {
    LimitsOfTheFile(config);
    WindowsGovern(config, 0);
    forall l, b, t, now | Breaker.Sound(b) && Admissible(l, b, config, t, now)
      ensures config.pool.maxRunTokens <= Max(1, config.SessionLimit())
    {
      AdmissibleFits(l, b, config, t, now, SESSION, None, config.SessionLimit());
    }
    if config.pool.maxRunTokens <= Max(1, config.SessionLimit()) {
      var t := Trigger(PrOpened, "", 0, None, 0, "", Command.Review);
      EmptyLedgerAdmits(config, t, 0);
      assert Breaker.Sound(Breaker.NEVER_TRIPPED) && Admissible([], Breaker.NEVER_TRIPPED, config, t, 0);
    }
  }

  /** A session of 100 tokens and a run of 200: let through, and never admits anything. */
  lemma SmallSessionAdmitsNothing(l: Ledger, b: Breaker.State, t: Trigger, now: Time)
    requires Breaker.Sound(b)
    ensures var config := BudgetConfig(Shared(100, 7000, 200, 100, None), true, true, true, 0, 0, None);
      config.Valid() && !Admissible(l, b, config, t, now)
  {
    var config := BudgetConfig(Shared(100, 7000, 200, 100, None), true, true, true, 0, 0, None);
    AdmitsSomethingExactlyWhen(config);
  }

  /** The claims are under files whose share of the plan's session and week is at most these, in hundredths. */
  predicate AllShare(actions: seq<Action>, session: nat, week: nat) {
    forall i | 0 <= i < |actions| && actions[i].TakeClaim? && actions[i].key.Some? ::
      var pool := actions[i].config.pool;
      pool.sessionTokens * pool.sharePct <= session && pool.weeklyTokens * pool.sharePct <= week
  }

  /** The claims are under files that give a contributor at most this, in ten-thousandths. */
  predicate AllGive(actions: seq<Action>, each: nat) {
    forall i | 0 <= i < |actions| && actions[i].TakeClaim? && actions[i].key.Some? ::
      var pool := actions[i].config.pool;
      pool.perContributorPct.Some? && pool.weeklyTokens * pool.sharePct * pool.perContributorPct.value <= each
  }

  /**
   Over every run, any five hours hold at most the share of the plan's session, any week at most the
   share of its week and any day a seventh of that, but for what runs settled above their reservations.
   */
  lemma PlanIsKept(setup: Setup, begin: Time, actions: seq<Action>, session: nat, week: nat, start: Time)
    requires ValidRun(setup, Fresh(begin), actions) && AllShare(actions, session, week)
    ensures var l := After(setup, Fresh(begin), actions).ledger;
      && 100 * CommittedIn(l, start, 5 * 3600 * SECOND, None)
         <= Max(100, session) + 100 * OverrunIn(l, start, 5 * 3600 * SECOND, None)
      && 100 * CommittedIn(l, start, 7 * 24 * 3600 * SECOND, None)
         <= Max(100, week) + 100 * OverrunIn(l, start, 7 * 24 * 3600 * SECOND, None)
      && 700 * CommittedIn(l, start, 24 * 3600 * SECOND, None)
         <= Max(700, week) + 700 * OverrunIn(l, start, 24 * 3600 * SECOND, None)
  {
    forall i | 0 <= i < |actions| && actions[i].TakeClaim? && actions[i].key.Some?
      ensures Governs(actions[i].config, SESSION, None, session / 100)
      ensures Governs(actions[i].config, WEEKLY, None, week / 100)
      ensures Governs(actions[i].config, DAILY, None, week / 700)
    {
      ShareGoverns(actions[i].config, session, week);
    }
    SlidingWindowSafe(setup, begin, actions, SESSION, None, session / 100, start);
    SlidingWindowSafe(setup, begin, actions, WEEKLY, None, week / 100, start);
    SlidingWindowSafe(setup, begin, actions, DAILY, None, week / 700, start);
  }

  /** The same for one contributor: any week holds at most the percentage of the share of the week. */
  lemma ContributorIsKept(setup: Setup, begin: Time, actions: seq<Action>, actor: int, each: nat, start: Time)
    requires ValidRun(setup, Fresh(begin), actions) && AllGive(actions, each)
    ensures var l := After(setup, Fresh(begin), actions).ledger;
      10_000 * CommittedIn(l, start, 7 * 24 * 3600 * SECOND, Some(actor))
      <= Max(10_000, each) + 10_000 * OverrunIn(l, start, 7 * 24 * 3600 * SECOND, Some(actor))
  {
    forall i | 0 <= i < |actions| && actions[i].TakeClaim? && actions[i].key.Some?
      ensures Governs(actions[i].config, WEEKLY, Some(actor), each / 10_000)
    {
      LimitsOfTheFile(actions[i].config);
      WindowsGovern(actions[i].config, actor);
      GovernsMore(actions[i].config, WEEKLY, Some(actor), actions[i].config.PerContributorLimit().value, each / 10_000);
    }
    SlidingWindowSafe(setup, begin, actions, WEEKLY, Some(actor), each / 10_000, start);
  }

  lemma GovernsMore(config: BudgetConfig, length: int, actor: Option<int>, limit: nat, more: nat)
    requires Governs(config, length, actor, limit) && limit <= more
    ensures Governs(config, length, actor, more)
  {
    var i :| 0 <= i < |AllWindows(config, actor)| && AllWindows(config, actor)[i].duration == length
             && AllWindows(config, actor)[i].actor == actor && AllWindows(config, actor)[i].limit <= limit;
    assert AllWindows(config, actor)[i].limit <= more;
  }

  lemma ShareGoverns(config: BudgetConfig, session: nat, week: nat)
    requires config.pool.sessionTokens * config.pool.sharePct <= session
    requires config.pool.weeklyTokens * config.pool.sharePct <= week
    ensures Governs(config, SESSION, None, session / 100)
    ensures Governs(config, WEEKLY, None, week / 100)
    ensures Governs(config, DAILY, None, week / 700)
  {
    LimitsOfTheFile(config);
    WindowsGovern(config, 0);
    GovernsMore(config, SESSION, None, config.SessionLimit(), session / 100);
    GovernsMore(config, WEEKLY, None, config.WeeklyLimit(), week / 100);
    GovernsMore(config, DAILY, None, config.DailyLimit(), week / 700);
  }

  // ----- What a window is charged, exactly -----------------------------------------------------

  predicate Counts(r: LedgerRow, start: Time, actor: Option<int>) {
    r.reservedAt > start && ByActor(r, actor)
  }

  lemma LostIsConserved(l: Ledger, key: string, now: Time, start: Time, actor: Option<int>)
    ensures UsedSince(SettledLost(l, key, now), start, actor) == UsedSince(l, start, actor)
  {
    var w := UsageSince(start, actor);
    TotalAtMost(l, SettledLost(l, key, now), w, w);
    TotalAtMost(SettledLost(l, key, now), l, w, w);
  }

  lemma RowIsCharged(l: Ledger, row: LedgerRow, start: Time, actor: Option<int>)
    ensures UsedSince(l + [row], start, actor)
            == UsedSince(l, start, actor) + if Counts(row, start, actor) then Committed(row) else 0
  {
    TotalAppend(l, row, UsageSince(start, actor));
  }

  /** An admission charges each window its own ceiling and nothing else: a lost run is not refunded. */
  lemma AdmissionChargesItsCeiling(l: Ledger, c: Claim, mode: Mode, tokens: nat, now: Time, start: Time,
                                   actor: Option<int>)
    ensures UsedSince(Admitted(l, c, mode, tokens, now), start, actor)
            == UsedSince(l, start, actor)
               + if now > start && (actor.Some? ==> c.trigger.actor == actor.value) then tokens else 0
  {
    var row := LedgerRow(c.trigger.key, c.owner, c.trigger.actor, c.trigger.repo, c.trigger.pr,
                         mode, tokens, now, None);
    LostIsConserved(l, c.trigger.key, now, start, actor);
    RowIsCharged(SettledLost(l, c.trigger.key, now), row, start, actor);
  }

  lemma SettlesNone(l: Ledger, key: string, owner: string, s: Settlement)
    requires CountHeld(l, key, owner) == 0
    ensures Settled(l, key, owner, s) == l
  {
    HeldIsCounted(l, key, owner);
  }

  /** A settle exchanges one reservation for what the run cost, in every window that counts it. */
  lemma {:induction false} SettleExchangesItsReservation(l: Ledger, key: string, owner: string, s: Settlement,
                                                         start: Time, actor: Option<int>)
    returns (i: nat)
    requires CountHeld(l, key, owner) == 1
    ensures i < |l| && HeldBy(l[i], key, owner)
    ensures UsedSince(Settled(l, key, owner, s), start, actor)
            + (if Counts(l[i], start, actor) then l[i].reserved else 0)
            == UsedSince(l, start, actor) + (if Counts(l[i], start, actor) then s.usage.tokens else 0)
  {
    var n := |l| - 1;
    var before, after := l[..n], Settled(l, key, owner, s);
    assert after[..n] == Settled(before, key, owner, s);
    if HeldBy(l[n], key, owner) {
      i := n;
      SettlesNone(before, key, owner, s);
    } else {
      i := SettleExchangesItsReservation(before, key, owner, s, start, actor);
    }
  }

  // ----- One pull request ----------------------------------------------------------------------

  function ReviewOf(repo: string, pr: int, start: Time): LedgerRow -> nat {
    (r: LedgerRow) => if OfPull(r, repo, pr) && start < r.reservedAt <= start + DAILY then 1 else 0
  }

  /** How many reservations the pull request has in `(start, start + DAILY]`. */
  function ReviewsIn(l: Ledger, repo: string, pr: int, start: Time): nat {
    Total(l, ReviewOf(repo, pr, start))
  }

  ghost predicate CapKept(l: Ledger, repo: string, pr: int, cap: nat) {
    forall start: Time :: ReviewsIn(l, repo, pr, start) <= cap
  }

  /** A later reservation keeps its distance: the mention interval, or the ordinary one. */
  predicate SpacedBy(l: Ledger, q: Model.Queue, repo: string, pr: int, mention: int, ordinary: int) {
    forall i, j | 0 <= i < j < |l| && OfPull(l[i], repo, pr) && OfPull(l[j], repo, pr) && l[j].key in q ::
      l[j].reservedAt - l[i].reservedAt >= if q[l[j].key].trigger.kind == Mention then mention else ordinary
  }

  /** The files the actions claim under pace at least this much. */
  predicate AllPace(actions: seq<Action>, mention: int, ordinary: int) {
    forall i | 0 <= i < |actions| && actions[i].TakeClaim? && actions[i].key.Some? ::
      0 < mention <= actions[i].config.ReviewInterval(true) && 0 < ordinary <= actions[i].config.ReviewInterval(false)
  }

  predicate AllCap(actions: seq<Action>, cap: nat) {
    forall i | 0 <= i < |actions| && actions[i].TakeClaim? && actions[i].key.Some? ::
      var c := actions[i].config.maxReviewsPerPullRequest;
      c.Some? && 1 <= c.value <= cap
  }

  lemma {:induction false} NoReviews(l: Ledger, repo: string, pr: int, start: Time)
    requires forall i | 0 <= i < |l| :: !OfPull(l[i], repo, pr)
    ensures ReviewsIn(l, repo, pr, start) == 0
  {
    if l != [] {
      NoReviews(l[..|l| - 1], repo, pr, start);
    }
  }

  lemma ReservationKeepsReviews(l: Ledger, t: Trigger, row: LedgerRow, now: Time, config: BudgetConfig, repo: string,
                                pr: int, cap: nat, start: Time)
    requires ReviewsIn(l, repo, pr, start) <= cap && Paced(l, t, now, config)
    requires row.reservedAt == now && row.repo == t.repo && row.pr == t.pr
    requires config.maxReviewsPerPullRequest.Some? && 1 <= config.maxReviewsPerPullRequest.value <= cap
    ensures ReviewsIn(l, repo, pr, start)
            + (if OfPull(row, repo, pr) && start < now <= start + DAILY then 1 else 0) <= cap
  {
    if OfPull(row, repo, pr) && start < now <= start + DAILY {
      if LastReservedAt(l, repo, pr).None? {
        NoReviews(l, repo, pr, start);
      } else {
        TotalAtMost(l, l, ReviewSince(repo, pr, now - DAILY), ReviewOf(repo, pr, start));
      }
    }
  }

  lemma AdmissionKeepsReviews(l: Ledger, lost: Ledger, t: Trigger, row: LedgerRow, now: Time, config: BudgetConfig,
                              repo: string, pr: int, cap: nat, start: Time)
    requires ReviewsIn(l, repo, pr, start) <= cap && Paced(l, t, now, config)
    requires row.reservedAt == now && row.repo == t.repo && row.pr == t.pr
    requires config.maxReviewsPerPullRequest.Some? && 1 <= config.maxReviewsPerPullRequest.value <= cap
    requires ReviewsIn(lost, repo, pr, start) <= ReviewsIn(l, repo, pr, start)
    ensures ReviewsIn(lost + [row], repo, pr, start) <= cap
  {
    ReservationKeepsReviews(l, t, row, now, config, repo, pr, cap, start);
    TotalAppend(lost, row, ReviewOf(repo, pr, start));
  }

  lemma AdmissionKeepsCap(l: Ledger, c: Claim, mode: Mode, tokens: nat, now: Time, config: BudgetConfig, repo: string,
                          pr: int, cap: nat)
    requires CapKept(l, repo, pr, cap) && Paced(l, c.trigger, now, config)
    requires config.maxReviewsPerPullRequest.Some? && 1 <= config.maxReviewsPerPullRequest.value <= cap
    ensures CapKept(Admitted(l, c, mode, tokens, now), repo, pr, cap)
  {
    var lost := SettledLost(l, c.trigger.key, now);
    var row := LedgerRow(c.trigger.key, c.owner, c.trigger.actor, c.trigger.repo, c.trigger.pr,
                         mode, tokens, now, None);
    forall start: Time ensures ReviewsIn(lost + [row], repo, pr, start) <= cap {
      ClosedKeepsReviews(l, lost, repo, pr, start);
      assert ReviewsIn(l, repo, pr, start) <= cap;
      AdmissionKeepsReviews(l, lost, c.trigger, row, now, config, repo, pr, cap, start);
    }
  }

  lemma ClosedKeepsReviews(l: Ledger, l': Ledger, repo: string, pr: int, start: Time)
    requires |l'| == |l| && forall i | 0 <= i < |l| :: l'[i].(settled := None) == l[i].(settled := None)
    ensures ReviewsIn(l', repo, pr, start) <= ReviewsIn(l, repo, pr, start)
  {
    var w := ReviewOf(repo, pr, start);
    forall i | 0 <= i < |l| ensures w(l'[i]) <= w(l[i]) {
      assert l'[i].(settled := None) == l[i].(settled := None);
    }
    TotalAtMost(l, l', w, w);
  }

  lemma SettleKeepsCap(l: Ledger, key: string, owner: string, s: Settlement, repo: string, pr: int, cap: nat)
    requires CapKept(l, repo, pr, cap)
    ensures CapKept(Settled(l, key, owner, s), repo, pr, cap)
  {
    forall start: Time ensures ReviewsIn(Settled(l, key, owner, s), repo, pr, start) <= cap {
      ClosedKeepsReviews(l, Settled(l, key, owner, s), repo, pr, start);
      assert ReviewsIn(l, repo, pr, start) <= cap;
    }
  }

  lemma StepKeepsCap(setup: Setup, s: System, a: Action, l': Ledger, repo: string, pr: int, cap: nat)
    requires Enabled(setup, s, a) && l' == Step(setup, s, a).ledger
    requires AllCap([a], cap) && CapKept(s.ledger, repo, pr, cap)
    ensures CapKept(l', repo, pr, cap)
  {
    LedgerStep(setup, s, a, l');
    if a.SettleRun? {
      SettleKeepsCap(s.ledger, PhaseOf(s, a.owner).claim.trigger.key, a.owner,
                     Settlement(a.end.usage, a.end.reason, a.lines, a.since, a.at), repo, pr, cap);
    } else if a.TakeClaim? && a.key.Some? {
      var c := ClaimOf(Swept(setup, s, a.repo, a.now).queue[a.key.value], a.owner, a.now + setup.lease);
      assert AllCap([a], cap) && [a][0] == a;
      if c.trigger.kind != Publish {
        AdmissionKeepsCap(s.ledger, c, Rung(s.ledger, s.breaker, a.config, c.trigger, a.now),
                          a.config.pool.maxRunTokens,
                          a.now, a.config, repo, pr, cap);
      }
    }
  }

  /** With a cap, every interval of one day holds at most that many reservations of a pull request. */
  lemma {:induction false} DailyCapHolds(setup: Setup, s: System, actions: seq<Action>, repo: string, pr: int, cap: nat)
    requires Sound(setup, s) && ValidRun(setup, s, actions) && AllCap(actions, cap) && CapKept(s.ledger, repo, pr, cap)
    ensures CapKept(After(setup, s, actions).ledger, repo, pr, cap)
    decreases |actions|
  {
    if actions != [] {
      assert [actions[0]][0] == actions[0];
      var s1 := Step(setup, s, actions[0]);
      StepSound(setup, s, actions[0]);
      StepKeepsCap(setup, s, actions[0], s1.ledger, repo, pr, cap);
      DailyCapHolds(setup, s1, actions[1..], repo, pr, cap);
    }
  }

  lemma KeptSpaced(l: Ledger, l': Ledger, q: Model.Queue, q': Model.Queue, repo: string, pr: int, mention: int,
                   ordinary: int)
    requires SpacedBy(l, q, repo, pr, mention, ordinary) && LedgerKept(l, l') && |l'| == |l| && QueueKept(q, q')
    requires forall i | 0 <= i < |l| :: l[i].key in q
    ensures SpacedBy(l', q', repo, pr, mention, ordinary)
  {
    assert forall i | 0 <= i < |l| :: l'[i].(settled := None) == l[i].(settled := None);
    forall i, j | 0 <= i < j < |l'| && OfPull(l'[i], repo, pr) && OfPull(l'[j], repo, pr) && l'[j].key in q'
      ensures l'[j].reservedAt - l'[i].reservedAt >= if q'[l'[j].key].trigger.kind == Mention then mention else ordinary
    {
      assert OfPull(l[i], repo, pr) && OfPull(l[j], repo, pr) && l[j].key in q;
    }
  }

  lemma AdmissionSpaced(l: Ledger, q: Model.Queue, q': Model.Queue, c: Claim, mode: Mode, tokens: nat, now: Time,
                        config: BudgetConfig, repo: string, pr: int, mention: int, ordinary: int)
    requires SpacedBy(l, q, repo, pr, mention, ordinary) && QueueKept(q, q') && forall i | 0 <= i < |l| :: l[i].key in q
    requires c.trigger.key in q' && q'[c.trigger.key].trigger == c.trigger && Paced(l, c.trigger, now, config)
    requires 0 < mention <= config.ReviewInterval(true) && 0 < ordinary <= config.ReviewInterval(false)
    ensures SpacedBy(Admitted(l, c, mode, tokens, now), q', repo, pr, mention, ordinary)
  {
    var lost := SettledLost(l, c.trigger.key, now);
    KeptSpaced(l, lost, q, q', repo, pr, mention, ordinary);
    var l' := Admitted(l, c, mode, tokens, now);
    AdmittedRows(l, c, mode, tokens, now);
    assert forall i | 0 <= i < |l| :: l'[i] == lost[i] && OfPull(lost[i], repo, pr) == OfPull(l[i], repo, pr);
  }

  /** The pace of one pull request, over every run. */
  lemma {:induction false} ReviewsAreSpaced(setup: Setup, s: System, actions: seq<Action>, repo: string, pr: int,
                                            mention: int, ordinary: int)
    requires Sound(setup, s) && ValidRun(setup, s, actions) && AllPace(actions, mention, ordinary)
    requires SpacedBy(s.ledger, s.queue, repo, pr, mention, ordinary)
    ensures SpacedBy(After(setup, s, actions).ledger, After(setup, s, actions).queue, repo, pr, mention, ordinary)
    decreases |actions|
  {
    if actions != [] {
      assert [actions[0]][0] == actions[0];
      var s1 := Step(setup, s, actions[0]);
      StepSound(setup, s, actions[0]);
      StepSpaced(setup, s, actions[0], s1, repo, pr, mention, ordinary);
      ReviewsAreSpaced(setup, s1, actions[1..], repo, pr, mention, ordinary);
    }
  }

  /** What a claim by an admitted worker leaves for the next one to keep its distance from. */
  lemma ClaimSpaced(l: Ledger, q: Model.Queue, q': Model.Queue, b: Breaker.State, c: Claim, now: Time,
                    config: BudgetConfig, repo: string, pr: int, mention: int, ordinary: int)
    requires SpacedBy(l, q, repo, pr, mention, ordinary) && QueueKept(q, q') && forall i | 0 <= i < |l| :: l[i].key in q
    requires c.trigger.key in q' && q'[c.trigger.key].trigger == c.trigger && WorkerAdmits(l, b, config, c.trigger, now)
    requires 0 < mention <= config.ReviewInterval(true) && 0 < ordinary <= config.ReviewInterval(false)
    ensures SpacedBy(LedgerAfterClaim(l, b, config, c, now), q', repo, pr, mention, ordinary)
  {
    if c.trigger.kind == Publish {
      KeptSpaced(l, l, q, q', repo, pr, mention, ordinary);
    } else {
      AdmissionSpaced(l, q, q', c, Rung(l, b, config, c.trigger, now), config.pool.maxRunTokens, now,
                      config, repo, pr, mention, ordinary);
    }
  }

  /** The tables a claim leaves, without the rest of the state. */
  lemma ClaimTables(setup: Setup, s: System, a: Action, s': System) returns (c: Claim)
    requires Possible(setup, s, a) && a.TakeClaim? && a.key.Some? && s' == Step(setup, s, a)
    requires RowsShaped(s.queue, setup.maxAttempts)
    ensures s'.ledger == LedgerAfterClaim(s.ledger, s.breaker, a.config, c, a.now)
    ensures c.trigger.key in s'.queue && s'.queue[c.trigger.key].trigger == c.trigger
    ensures a.key.value in Swept(setup, s, a.repo, a.now).queue
    ensures c.trigger == Swept(setup, s, a.repo, a.now).queue[a.key.value].trigger
  {
    var swept := Swept(setup, s, a.repo, a.now);
    c := ClaimOf(swept.queue[a.key.value], a.owner, a.now + setup.lease);
    ClaimStep(setup, s, a.owner, a.repo, a.config, a.now, a.key.value, c);
    assert RowShaped(a.key.value, s.queue[a.key.value], setup.maxAttempts);
  }

  lemma LedgerKeysQueued(l: Ledger, q: Model.Queue)
    requires LedgerJoinsQueue(l, q)
    ensures forall i | 0 <= i < |l| :: l[i].key in q
  {
    forall i | 0 <= i < |l| ensures l[i].key in q {
      assert ReservedFor(l[i], q);
    }
  }

  lemma QuietStepSpaced(setup: Setup, s: System, a: Action, s': System, repo: string, pr: int, mention: int,
                        ordinary: int)
    requires Possible(setup, s, a) && s' == Step(setup, s, a) && !(a.TakeClaim? && a.key.Some?)
    requires QueueKept(s.queue, s'.queue) && LedgerKept(s.ledger, s'.ledger) && LedgerJoinsQueue(s.ledger, s.queue)
    requires SpacedBy(s.ledger, s.queue, repo, pr, mention, ordinary)
    ensures SpacedBy(s'.ledger, s'.queue, repo, pr, mention, ordinary)
  {
    LedgerStep(setup, s, a, s'.ledger);
    LedgerKeysQueued(s.ledger, s.queue);
    KeptSpaced(s.ledger, s'.ledger, s.queue, s'.queue, repo, pr, mention, ordinary);
  }

  lemma StepSpaced(setup: Setup, s: System, a: Action, s': System, repo: string, pr: int, mention: int, ordinary: int)
    requires Sound(setup, s) && Enabled(setup, s, a) && s' == Step(setup, s, a)
    requires AllPace([a], mention, ordinary) && SpacedBy(s.ledger, s.queue, repo, pr, mention, ordinary)
    ensures SpacedBy(s'.ledger, s'.queue, repo, pr, mention, ordinary)
  {
    StepKeeps(setup, s, a, s');
    if a.TakeClaim? && a.key.Some? {
      var c := ClaimTables(setup, s, a, s');
      assert [a][0] == a;
      LedgerKeysQueued(s.ledger, s.queue);
      ClaimSpaced(s.ledger, s.queue, s'.queue, s.breaker, c, a.now, a.config, repo, pr, mention, ordinary);
    } else {
      QuietStepSpaced(setup, s, a, s', repo, pr, mention, ordinary);
    }
  }
}
