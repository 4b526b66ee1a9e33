/** The spending rails: budget.py. Nothing reaches a review engine except through `Admit`. */
module Budget {
  import opened Wrappers
  import opened Model
  import opened Numbers
  import opened Config
  import opened Store
  import opened Pacing
  import Breaker

  datatype Window = Window(name: string, duration: int, limit: nat, actor: Option<int>)

  datatype Headroom = Headroom(mode: Mode, remaining: nat, tightest: string)

  /** `_windows` */
  function Windows(config: BudgetConfig): seq<Window> {
    [Window("session", SESSION, config.SessionLimit(), None),
     Window("weekly", WEEKLY, config.WeeklyLimit(), None),
     Window("daily", DAILY, config.DailyLimit(), None)]
  }

  /** `_contributor_window` */
  function ContributorWindow(config: BudgetConfig, actor: Option<int>): seq<Window> {
    if actor.None? || config.PerContributorLimit().None? then []
    else [Window("contributor", WEEKLY, config.PerContributorLimit().value, actor)]
  }

  function AllWindows(config: BudgetConfig, actor: Option<int>): seq<Window> {
    Windows(config) + ContributorWindow(config, actor)
  }

  /** One window measured: its calibrated limit, and the tokens committed in it. */
  datatype Reading = Reading(name: string, limit: nat, used: nat) {
    function Left(): int {
      limit - used
    }

    /** Spent to at least `percent` of the limit. */
    predicate SpentTo(percent: nat) {
      100 * used >= percent * limit
    }
  }

  function Read(l: Ledger, w: Window, now: Time, calibration: nat): (r: Reading)
    ensures r.limit > 0
  {
    Reading(w.name, Breaker.Calibrated(w.limit, calibration), UsedSince(l, now - w.duration, w.actor))
  }

  function Readings(l: Ledger, windows: seq<Window>, now: Time, calibration: nat): (rs: seq<Reading>)
    ensures |rs| == |windows| && forall i | 0 <= i < |rs| :: rs[i] == Read(l, windows[i], now, calibration)
  {
    seq(|windows|, i requires 0 <= i < |windows| => Read(l, windows[i], now, calibration))
  }

  /** `_mode_for`, over exact quotients. */
  function ModeFor(worst: real): Mode {
    if worst >= 1.0 then Exhausted
    else if worst >= 0.85 then MentionOnly
    else Full
  }

  lemma ProductOrder(q: real, p: real, b: real)
    requires b > 0.0
    ensures q >= p <==> q * b >= p * b
  {
  }

  lemma QuotientOrder(a: real, b: real, p: real)
    requires b > 0.0
    ensures a / b >= p <==> a >= p * b
  {
    ProductOrder(a / b, p, b);
    assert (a / b) * b == a;
  }

  lemma QuotientIsPercent(r: Reading)
    requires r.limit > 0
    ensures (r.used as real / r.limit as real >= 1.0) <==> r.SpentTo(100)
    ensures (r.used as real / r.limit as real >= 0.85) <==> r.SpentTo(85)
  {
    QuotientOrder(r.used as real, r.limit as real, 1.0);
    QuotientOrder(r.used as real, r.limit as real, 0.85);
  }

  predicate AnySpentTo(rs: seq<Reading>, percent: nat) {
    exists i | 0 <= i < |rs| :: rs[i].SpentTo(percent)
  }

  /** `left` is what the window named `name` has left, and no window has less. */
  predicate Tightest(rs: seq<Reading>, left: int, name: string) {
    && (forall i | 0 <= i < |rs| :: left <= rs[i].Left())
    && exists i | 0 <= i < |rs| :: rs[i].name == name && left == rs[i].Left()
  }

  lemma OneMoreSpent(rs: seq<Reading>, i: nat)
    requires i < |rs|
    ensures forall p: nat :: AnySpentTo(rs[..i + 1], p) <==> AnySpentTo(rs[..i], p) || rs[i].SpentTo(p)
  {
    var more := rs[..i + 1];
    forall p: nat ensures AnySpentTo(more, p) <==> AnySpentTo(rs[..i], p) || rs[i].SpentTo(p) {
      if AnySpentTo(rs[..i], p) {
        var k :| 0 <= k < i && rs[..i][k].SpentTo(p);
        assert more[k].SpentTo(p);
      }
      if rs[i].SpentTo(p) {
        assert more[i].SpentTo(p);
      }
    }
  }

  lemma OneMoreReading(rs: seq<Reading>, i: nat, left: Option<int>, name: string)
    requires i < |rs| && (left.None? ==> i == 0) && (left.Some? ==> Tightest(rs[..i], left.value, name))
    ensures left.None? || rs[i].Left() < left.value ==> Tightest(rs[..i + 1], rs[i].Left(), rs[i].name)
    ensures left.Some? && rs[i].Left() >= left.value ==> Tightest(rs[..i + 1], left.value, name)
  {
    var more := rs[..i + 1];
    assert forall k | 0 <= k < i :: more[k] == rs[..i][k];
    assert more[i] == rs[i];
    if left.Some? {
      var k :| 0 <= k < i && rs[..i][k].name == name && left.value == rs[..i][k].Left();
      assert more[k].name == name && left.value == more[k].Left();
    }
  }

  /** The rung of the worst utilisation, and the tightest remainder. */
  predicate HeadroomOf(h: Headroom, rs: seq<Reading>) {
    && h.mode == (if AnySpentTo(rs, 100) then Exhausted else if AnySpentTo(rs, 85) then MentionOnly else Full)
    && (Tightest(rs, h.remaining, h.tightest)
        || (h.remaining == 0 && exists i | 0 <= i < |rs| :: rs[i].name == h.tightest && rs[i].Left() <= 0))
  }

  /** Whether the ladder and the remaining allowance let a run start, asked of one window. */
  predicate Affords(r: Reading, kind: Kind, tokens: nat) {
    && !r.SpentTo(100)
    && (kind != Mention ==> !r.SpentTo(85))
    && tokens <= r.Left()
  }

  predicate AllAfford(rs: seq<Reading>, kind: Kind, tokens: nat) {
    forall i | 0 <= i < |rs| :: Affords(rs[i], kind, tokens)
  }

  /** `_allows` */
  predicate Allows(h: Headroom, kind: Kind, tokens: nat) {
    && h.mode != Exhausted
    && !(h.mode == MentionOnly && kind != Mention)
    && h.remaining >= tokens
  }

  /** What `_allows` decides from the two summary numbers is what each window would say by itself. */
  lemma AllowsIsAffords(h: Headroom, rs: seq<Reading>, kind: Kind, tokens: nat)
    requires HeadroomOf(h, rs) && tokens > 0
    ensures Allows(h, kind, tokens) <==> AllAfford(rs, kind, tokens)
  {
    if AllAfford(rs, kind, tokens) {
      assert !AnySpentTo(rs, 100);
    }
  }

  function MeasuredFor(l: Ledger, b: Breaker.State, config: BudgetConfig, t: Trigger, now: Time): seq<Reading> {
    Readings(l, AllWindows(config, Some(t.actor)), now, Max(0, Breaker.Calibration(b, now)))
  }

  /** Everything `admit` asks, before it writes. */
  predicate Admissible(l: Ledger, b: Breaker.State, config: BudgetConfig, t: Trigger, now: Time) {
    && config.enabled && !Breaker.Tripped(b, now)
    && AllAfford(MeasuredFor(l, b, config, t, now), t.kind, config.pool.maxRunTokens)
    && Paced(l, t, now, config)
  }

  /** The rung an admitted run is recorded under. */
  function Rung(l: Ledger, b: Breaker.State, config: BudgetConfig, t: Trigger, now: Time): Mode {
    if AnySpentTo(MeasuredFor(l, b, config, t, now), 85) then MentionOnly else Full
  }

  /** The ledger after an admitted claim: the lost predecessor is closed, and the ceiling reserved. */
  function Admitted(l: Ledger, c: Claim, mode: Mode, tokens: nat, now: Time): Ledger {
    Reserved(SettledLost(l, c.trigger.key, now), c, mode, tokens, now)
  }

  function HeldOf(key: string, owner: string): LedgerRow -> nat {
    (r: LedgerRow) => if HeldBy(r, key, owner) then 1 else 0
  }

  function CountHeld(l: Ledger, key: string, owner: string): nat {
    Total(l, HeldOf(key, owner))
  }

  /** `_effective`: for a complier, the local file under the published pool arithmetic. */
  function EffectiveUnder(config: BudgetConfig, comply: bool, policy: Option<Store.Policy>): BudgetConfig {
    if !comply || policy.None? then config else config.Adopt(policy.value.fields)
  }

  class Governor {
    const store: SqliteStore
    var config: BudgetConfig
    const comply: bool

    constructor (store: SqliteStore, config: BudgetConfig, comply: bool)
      ensures this.store == store && this.config == config && this.comply == comply
    {
      this.store, this.config, this.comply := store, config, comply;
    }

    /** Adopt `latest`, so a reload needs no restart to take effect. */
    method Reload(latest: BudgetConfig)
      modifies this
      ensures config == latest
    {
      config := latest;
    }

    function Effective(): BudgetConfig
      reads this`config, store`policy
    {
      EffectiveUnder(config, comply, store.policy)
    }

    /** `_headroom` */
    method MeasureHeadroom(now: Time, effective: BudgetConfig, actor: Option<int>, calibration: nat)
      returns (h: Headroom)
      ensures HeadroomOf(h, Readings(store.ledger, AllWindows(effective, actor), now, calibration))
    {
      var windows := AllWindows(effective, actor);
      ghost var rs := Readings(store.ledger, windows, now, calibration);
      var worst: real, tightest := 0.0, windows[0].name;
      var remaining: Option<int> := None;
      for i := 0 to |windows|
        invariant worst >= 1.0 <==> AnySpentTo(rs[..i], 100)
        invariant worst >= 0.85 <==> AnySpentTo(rs[..i], 85)
        invariant remaining.None? <==> i == 0
        invariant remaining.Some? ==> Tightest(rs[..i], remaining.value, tightest)
      {
        var window := windows[i];
        var reading := Read(store.ledger, window, now, calibration);
        QuotientIsPercent(reading);
        OneMoreSpent(rs, i);
        var utilisation := reading.used as real / reading.limit as real;
        worst := if worst < utilisation then utilisation else worst;
        var left := reading.limit - reading.used;
        OneMoreReading(rs, i, remaining, tightest);
        if remaining.None? || left < remaining.value {
          remaining, tightest := Some(left), window.name;
        }
      }
      assert rs[..|windows|] == rs;
      h := Headroom(ModeFor(worst), Max(0, remaining.value), tightest);
    }

    /** `admit`: reserve this run's ceiling, or refuse it and write nothing. */
    method Admit(claim: Claim, now: Time) returns (ok: bool)
      requires Effective().pool.maxRunTokens > 0 && Breaker.Sound(store.breaker)
      modifies store`ledger
      ensures ok <==> Admissible(old(store.ledger), store.breaker, Effective(), claim.trigger, now)
      ensures !ok ==> store.ledger == old(store.ledger)
      ensures ok ==> store.ledger == Admitted(
        old(store.ledger), claim, Rung(old(store.ledger), store.breaker, Effective(), claim.trigger, now),
        Effective().pool.maxRunTokens, now)
    {
      var effective := Effective();
      if !effective.enabled || Breaker.Tripped(store.breaker, now) {
        return false;
      }
      Breaker.CalibrationSound(store.breaker, now);
      var calibration := Breaker.Calibration(store.breaker, now);
      var headroom := MeasureHeadroom(now, effective, Some(claim.trigger.actor), calibration);
      var tokens := effective.pool.maxRunTokens;
      AllowsIsAffords(headroom, MeasuredFor(store.ledger, store.breaker, effective, claim.trigger, now),
                      claim.trigger.kind, tokens);
      if !Allows(headroom, claim.trigger.kind, tokens) {
        return false;
      }
      if !Paced(store.ledger, claim.trigger, now, effective) {
        return false;
      }
      store.ledger := SettledLost(store.ledger, claim.trigger.key, now);
      store.ledger := Reserved(store.ledger, claim, headroom.mode, tokens, now);
      return true;
    }

    /** `settle`: whether exactly one reservation was held for this claim and is now closed. */
    method Settle(claim: Claim, s: Settlement) returns (ok: bool)
      modifies store`ledger
      ensures store.ledger == Settled(old(store.ledger), claim.trigger.key, claim.owner, s)
      ensures ok <==> CountHeld(old(store.ledger), claim.trigger.key, claim.owner) == 1
    {
      ok := CountHeld(store.ledger, claim.trigger.key, claim.owner) == 1;
      store.ledger := Settled(store.ledger, claim.trigger.key, claim.owner, s);
    }

    /** `trip` */
    method Trip(now: Time) returns (calibration: int)
      modifies store`breaker
      ensures store.breaker == Breaker.Trip(old(store.breaker), now)
      ensures calibration == store.breaker.calibratedPct
    {
      calibration := Breaker.Decay(Breaker.Calibration(store.breaker, now));
      store.breaker := Breaker.State(calibration, Some(now + Breaker.TRIP_HOLD), Some(now));
    }

    /** `admitted_mode`: the rung this claim's open reservation was admitted under. */
    method AdmittedMode(claim: Claim) returns (mode: Option<Mode>)
      ensures mode.None? <==> forall r | r in store.ledger :: !HeldBy(r, claim.trigger.key, claim.owner)
      ensures mode.Some? ==>
        exists r | r in store.ledger :: HeldBy(r, claim.trigger.key, claim.owner) && r.mode == mode.value
    {
      mode := None;
      for i := 0 to |store.ledger|
        invariant mode.None? <==> forall k | 0 <= k < i :: !HeldBy(store.ledger[k], claim.trigger.key, claim.owner)
        invariant mode.Some? ==>
          exists r | r in store.ledger :: HeldBy(r, claim.trigger.key, claim.owner) && r.mode == mode.value
      {
        if mode.None? && HeldBy(store.ledger[i], claim.trigger.key, claim.owner) {
          mode := Some(store.ledger[i].mode);
        }
      }
    }
  }
}
