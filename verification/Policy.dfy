/** Whose numbers govern a shared store: `resolve_budget` and `reload_config` of daemon.py. */
module Policy {
  import opened Wrappers
  import opened Config
  import opened Store
  import opened Budget

  /** A daemon that started: the policy it left in the store, and whether its governor complies. */
  datatype Resolution = Resolution(policy: Option<Store.Policy>, comply: bool)

  /** `resolve_budget`; nothing when startup is refused. */
  function Resolved(policy: Option<Store.Policy>, repo: string, budget: BudgetConfig): Option<Resolution> {
    if budget.authority then
      if policy.Some? && policy.value.authorityRepo != repo then None
      else Some(Resolution(Some(Store.Policy(repo, budget.pool)), false))
    else if budget.comply then
      if policy.None? then None else Some(Resolution(policy, true))
    else Some(Resolution(policy, false))
  }

  method ResolveBudget(store: SqliteStore, repo: string, budget: BudgetConfig) returns (comply: Option<bool>)
    modifies store`policy
    ensures var r := Resolved(old(store.policy), repo, budget);
      && comply == (if r.Some? then Some(r.value.comply) else None)
      && store.policy == (if r.Some? then r.value.policy else old(store.policy))
  {
    var published := store.policy;
    if budget.authority {
      if published.Some? && published.value.authorityRepo != repo {
        return None;
      }
      store.PublishBudgetPolicy(Store.Policy(repo, budget.pool));
      return Some(false);
    }
    if budget.comply {
      if published.None? {
        return None;
      }
      return Some(true);
    }
    return Some(false);
  }

  /** A reload keeps the role that was settled at startup. */
  function Pinned(latest: BudgetConfig, current: BudgetConfig): BudgetConfig {
    latest.(authority := current.authority, comply := current.comply)
  }

  class Settings {
    const repo: string
    const store: SqliteStore
    const governor: Governor
    var budget: BudgetConfig

    constructor (repo: string, store: SqliteStore, governor: Governor)
      requires governor.store == store
      ensures this.repo == repo && this.store == store && this.governor == governor && budget == governor.config
    {
      this.repo, this.store, this.governor, this.budget := repo, store, governor, governor.config;
    }

    /** `reload_config`: `latest` is nothing when the file is broken, which keeps the configuration in force. */
    method ReloadConfig(latest: Option<BudgetConfig>)
      modifies `budget, governor, store`policy
      ensures latest.None? ==>
        budget == old(budget) && governor.config == old(governor.config) && store.policy == old(store.policy)
      ensures latest.Some? ==>
        && budget == governor.config == Pinned(latest.value, old(budget))
        && store.policy == if budget.authority then Some(Store.Policy(repo, budget.pool)) else old(store.policy)
    {
      if latest.None? {
        return;
      }
      var next := latest.value;
      if (next.authority, next.comply) != (budget.authority, budget.comply) {
        next := Pinned(next, budget);
      }
      budget := next;
      governor.Reload(next);
      if next.authority {
        store.PublishBudgetPolicy(Store.Policy(repo, next.pool));
      }
    }
  }

  // ----- Any number of daemons over one store --------------------------------------------------

  /** A running daemon: its repository, its file, and whether its governor complies. */
  datatype RunningDaemon = RunningDaemon(repo: string, budget: BudgetConfig, comply: bool)

  datatype Fleet = Fleet(policy: Option<Store.Policy>, daemons: map<int, RunningDaemon>)

  datatype Event =
    | Start(id: int, repo: string, budget: BudgetConfig)
    | Reload(id: int, latest: BudgetConfig)
    | Stop(id: int)

  /** Every file was let through by `parse`; only a running daemon is signalled. */
  predicate MayHappen(f: Fleet, e: Event) {
    match e
    case Start(_, _, budget) => budget.Valid()
    case Reload(id, latest) => id in f.daemons && latest.Valid()
    case Stop(_) => true
  }

  function Next(f: Fleet, e: Event): Fleet
    requires MayHappen(f, e)
  {
    match e
    case Start(id, repo, budget) =>
      var r := Resolved(f.policy, repo, budget);
      if r.None? then f.(daemons := f.daemons - {id})
      else Fleet(r.value.policy, f.daemons[id := RunningDaemon(repo, budget, r.value.comply)])
    case Reload(id, latest) =>
      var d := f.daemons[id];
      var budget := Pinned(latest, d.budget);
      Fleet(if budget.authority then Some(Store.Policy(d.repo, budget.pool)) else f.policy,
            f.daemons[id := d.(budget := budget)])
    case Stop(id) => f.(daemons := f.daemons - {id})
  }

  predicate ValidEvents(f: Fleet, events: seq<Event>)
    decreases |events|
  {
    events == [] || (MayHappen(f, events[0]) && ValidEvents(Next(f, events[0]), events[1..]))
  }

  function FleetAfter(f: Fleet, events: seq<Event>): Fleet
    requires ValidEvents(f, events)
    decreases |events|
  {
    if events == [] then f else FleetAfter(Next(f, events[0]), events[1..])
  }

  /** Pool arithmetic that some file was checked for. */
  predicate Checked(pool: Shared) {
    BudgetConfig(pool, true, true, true, 0, 0, None).Valid()
  }

  predicate DaemonSound(d: RunningDaemon, policy: Option<Store.Policy>) {
    && d.budget.Valid()
    && (d.budget.authority ==> !d.comply && policy.Some? && policy.value.authorityRepo == d.repo)
    && (d.comply ==> policy.Some?)
  }

  predicate FleetSound(f: Fleet) {
    && (f.policy.Some? ==> Checked(f.policy.value.fields))
    && forall id | id in f.daemons :: DaemonSound(f.daemons[id], f.policy)
  }

  /** The repository whose numbers are published. */
  function AuthorityOf(f: Fleet): Option<string> {
    if f.policy.Some? then Some(f.policy.value.authorityRepo) else None
  }

  lemma EventKeepsFleet(f: Fleet, e: Event)
    requires FleetSound(f) && MayHappen(f, e)
    ensures FleetSound(Next(f, e))
    ensures f.policy.Some? ==> AuthorityOf(Next(f, e)) == Some(f.policy.value.authorityRepo)
  {
  }

  /** The authority's repository never changes once published, and every running authority is that one. */
  lemma {:induction false} AuthorityNeverChanges(f: Fleet, events: seq<Event>)
    requires FleetSound(f) && ValidEvents(f, events)
    ensures FleetSound(FleetAfter(f, events))
    ensures f.policy.Some? ==> AuthorityOf(FleetAfter(f, events)) == Some(f.policy.value.authorityRepo)
    ensures forall id | id in FleetAfter(f, events).daemons && FleetAfter(f, events).daemons[id].budget.authority ::
      AuthorityOf(FleetAfter(f, events)) == Some(FleetAfter(f, events).daemons[id].repo)
    decreases |events|
  {
    if events == [] {
      assert forall id | id in f.daemons :: DaemonSound(f.daemons[id], f.policy);
    } else {
      EventKeepsFleet(f, events[0]);
      AuthorityNeverChanges(Next(f, events[0]), events[1..]);
    }
  }

  /** What an event publishes, if it does. */
  function Publishes(f: Fleet, e: Event): Option<Shared>
    requires MayHappen(f, e)
  {
    match e
    case Start(_, repo, budget) =>
      if budget.authority && Resolved(f.policy, repo, budget).Some? then Some(budget.pool) else None
    case Reload(id, latest) => if f.daemons[id].budget.authority then Some(latest.pool) else None
    case Stop(_) => None
  }

  /** The last pool numbers published during `events`, or those there were. */
  function LastPublished(f: Fleet, events: seq<Event>, before: Option<Shared>): Option<Shared>
    requires ValidEvents(f, events)
    decreases |events|
  {
    if events == [] then before
    else
      var p := Publishes(f, events[0]);
      LastPublished(Next(f, events[0]), events[1..], if p.Some? then p else before)
  }

  lemma {:induction false} PolicyIsLastPublished(f: Fleet, events: seq<Event>, before: Option<Shared>)
    requires ValidEvents(f, events) && before == if f.policy.Some? then Some(f.policy.value.fields) else None
    ensures var p := FleetAfter(f, events).policy;
      LastPublished(f, events, before) == if p.Some? then Some(p.value.fields) else None
    decreases |events|
  {
    if events != [] {
      var p := Publishes(f, events[0]);
      PolicyIsLastPublished(Next(f, events[0]), events[1..], if p.Some? then p else before);
    }
  }

  /**
   Over any sequence of starts, reloads and stops: a complier's next admission is weighed against the
   pool numbers published last, within the limits every file is checked for, and its own settings.
   */
  lemma CompliersFollowTheAuthority(events: seq<Event>, id: int)
    requires ValidEvents(Fleet(None, map[]), events)
    requires id in FleetAfter(Fleet(None, map[]), events).daemons
    ensures var f := FleetAfter(Fleet(None, map[]), events); var d := f.daemons[id];
      var effective := EffectiveUnder(d.budget, d.comply, f.policy);
      && effective.Valid()
      && (d.comply ==> LastPublished(Fleet(None, map[]), events, None) == Some(effective.pool))
      && (!d.comply ==> effective == d.budget)
      && effective.(pool := d.budget.pool) == d.budget
  {
    var none := Fleet(None, map[]);
    AuthorityNeverChanges(none, events);
    PolicyIsLastPublished(none, events, None);
    var f := FleetAfter(none, events);
    assert DaemonSound(f.daemons[id], f.policy);
    if f.policy.Some? {
      AdoptedIsValid(f.daemons[id].budget, BudgetConfig(f.policy.value.fields, true, true, true, 0, 0, None));
    }
  }
}
