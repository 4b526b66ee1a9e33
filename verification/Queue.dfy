/** The review queue and its per-pull-request leases: queue.py, and `ReviewWorker.admit`. */
module Queue {
  import opened Wrappers
  import opened Model
  import opened Config
  import opened Store
  import opened Budget
  import Breaker

  /** Rows are numbered as they are inserted, and none is deleted. */
  predicate Numbered(q: Queue) {
    && (forall k | k in q :: q[k].trigger.key == k && q[k].rowid <= |q|)
    && (forall j, k | j in q && k in q && j != k :: q[j].rowid != q[k].rowid)
  }

  lemma EnqueuedNumbered(q: Queue, t: Trigger, now: Time)
    requires Numbered(q)
    ensures Numbered(Enqueued(q, t, now))
  {
  }

  lemma AbandonNumbered(q: Queue, repo: string, maxAttempts: nat, now: Time)
    requires Numbered(q)
    ensures Numbered(AbandonExhausted(q, repo, maxAttempts, now))
  {
    var q' := AbandonExhausted(q, repo, maxAttempts, now);
    assert |q'| == |q'.Keys| == |q.Keys| == |q|;
  }

  /** `ReviewWorker.admit`: the governor, and the one exemption for a publication. */
  predicate WorkerAdmits(l: Ledger, b: Breaker.State, config: BudgetConfig, t: Trigger, now: Time) {
    t.kind == Publish || Admissible(l, b, config, t, now)
  }

  /** What taking a claim leaves on the ledger. */
  function LedgerAfterClaim(l: Ledger, b: Breaker.State, config: BudgetConfig, c: Claim, now: Time): Ledger {
    if c.trigger.kind == Publish then l
    else Admitted(l, c, Rung(l, b, config, c.trigger, now), config.pool.maxRunTokens, now)
  }

  /** The claimable row that comes before every other claimable row the worker would admit. */
  predicate FirstAdmitted(q: Queue, l: Ledger, b: Breaker.State, config: BudgetConfig,
                          repo: string, maxAttempts: nat, now: Time, k: string) {
    && Claimable(q, k, repo, maxAttempts, now) && WorkerAdmits(l, b, config, q[k].trigger, now)
    && forall j | j in q && j != k && Claimable(q, j, repo, maxAttempts, now)
                  && WorkerAdmits(l, b, config, q[j].trigger, now) :: Earlier(q[k], q[j])
  }

  lemma {:induction false} EarliestExists(q: Queue, rest: set<string>) returns (k: string)
    requires Numbered(q) && rest != {} && rest <= q.Keys
    ensures k in rest && forall j | j in rest && j != k :: Earlier(q[k], q[j])
    decreases rest
  {
    var any :| any in rest;
    if rest == {any} {
      k := any;
    } else {
      var first := EarliestExists(q, rest - {any});
      k := if Earlier(q[any], q[first]) then any else first;
    }
  }

  /** These are the claimable rows, in the order of the statement. */
  ghost predicate InOrder(q: Queue, rows: seq<string>, repo: string, maxAttempts: nat, now: Time) {
    && (forall k :: k in rows <==> Claimable(q, k, repo, maxAttempts, now))
    && (forall i | 0 <= i < |rows| :: rows[i] in q)
    && forall i, j | 0 <= i < j < |rows| :: rows[i] != rows[j] && Earlier(q[rows[i]], q[rows[j]])
  }

  /** The rows chosen so far are in order, and before all the rest. */
  predicate Chosen(q: Queue, rows: seq<string>, rest: set<string>)
    requires rest <= q.Keys
  {
    && (forall i | 0 <= i < |rows| :: rows[i] in q && rows[i] !in rest)
    && (forall i, k | 0 <= i < |rows| && k in rest :: Earlier(q[rows[i]], q[k]))
    && forall i, j | 0 <= i < j < |rows| :: rows[i] != rows[j] && Earlier(q[rows[i]], q[rows[j]])
  }

  lemma OneMoreChosen(q: Queue, rows: seq<string>, rest: set<string>, k: string)
    requires rest <= q.Keys && Chosen(q, rows, rest) && k in rest
    requires forall j | j in rest && j != k :: Earlier(q[k], q[j])
    ensures Chosen(q, rows + [k], rest - {k})
    ensures forall j :: j in rest - {k} || j in rows + [k] <==> j in rest || j in rows
  {
  }

  ghost predicate RefusedBefore(q: Queue, rows: seq<string>, i: nat, l: Ledger, b: Breaker.State,
                                config: BudgetConfig, now: Time)
    requires i <= |rows| && forall k | 0 <= k < |rows| :: rows[k] in q
  {
    forall k | 0 <= k < i :: !WorkerAdmits(l, b, config, q[rows[k]].trigger, now)
  }

  lemma OneMoreRefused(q: Queue, rows: seq<string>, i: nat, l: Ledger, b: Breaker.State, config: BudgetConfig,
                       now: Time)
    requires i < |rows| && forall k | 0 <= k < |rows| :: rows[k] in q
    requires RefusedBefore(q, rows, i, l, b, config, now) && !WorkerAdmits(l, b, config, q[rows[i]].trigger, now)
    ensures RefusedBefore(q, rows, i + 1, l, b, config, now)
  {
  }

  lemma FirstInOrder(q: Queue, rows: seq<string>, i: nat, l: Ledger, b: Breaker.State, config: BudgetConfig,
                     repo: string, maxAttempts: nat, now: Time)
    requires InOrder(q, rows, repo, maxAttempts, now) && i < |rows|
    requires RefusedBefore(q, rows, i, l, b, config, now)
    requires WorkerAdmits(l, b, config, q[rows[i]].trigger, now)
    ensures FirstAdmitted(q, l, b, config, repo, maxAttempts, now, rows[i])
  {
    forall j | j in q && j != rows[i] && Claimable(q, j, repo, maxAttempts, now)
               && WorkerAdmits(l, b, config, q[j].trigger, now)
      ensures Earlier(q[rows[i]], q[j])
    {
      var k :| 0 <= k < |rows| && rows[k] == j;
      assert k > i;
    }
    assert rows[i] in rows;
  }

  class ReviewQueue {
    const store: SqliteStore
    const repo: string
    const lease: int
    const maxAttempts: nat

    constructor (store: SqliteStore, repo: string, lease: int, maxAttempts: nat)
      ensures this.store == store && this.repo == repo && this.lease == lease && this.maxAttempts == maxAttempts
    {
      this.store, this.repo, this.lease, this.maxAttempts := store, repo, lease, maxAttempts;
    }

    /** Add `trigger`; false if its dedupe key is already known. */
    method Enqueue(trigger: Trigger, now: Time) returns (added: bool)
      modifies store`queue
      ensures store.queue == Enqueued(old(store.queue), trigger, now)
      ensures added <==> trigger.key !in old(store.queue)
    {
      added := trigger.key !in store.queue;
      store.queue := Enqueued(store.queue, trigger, now);
    }

    /** `_CLAIMABLE`, in its order. */
    method SelectClaimable(now: Time) returns (rows: seq<string>)
      requires Numbered(store.queue)
      ensures InOrder(store.queue, rows, repo, maxAttempts, now)
      ensures forall i, j | 0 <= i < j < |rows| ::
        var a, b := store.queue[rows[i]], store.queue[rows[j]];
        a.enqueuedAt <= b.enqueuedAt && (a.enqueuedAt == b.enqueuedAt ==> a.rowid < b.rowid)
    {
      var rest := set k | k in store.queue && Claimable(store.queue, k, repo, maxAttempts, now);
      rows := [];
      while rest != {}
        invariant rest <= store.queue.Keys
        invariant forall k :: k in rest || k in rows <==> Claimable(store.queue, k, repo, maxAttempts, now)
        invariant Chosen(store.queue, rows, rest)
        decreases rest
      {
        ghost var first := EarliestExists(store.queue, rest);
        var k :| k in rest && forall j | j in rest && j != k :: Earlier(store.queue[k], store.queue[j]);
        OneMoreChosen(store.queue, rows, rest, k);
        rows, rest := rows + [k], rest - {k};
      }
    }

    /** The worker's hook into a claim: what it admits, it reserves. */
    method Admit(candidate: Claim, now: Time, governor: Governor) returns (ok: bool)
      requires governor.store == store
      requires governor.Effective().pool.maxRunTokens > 0 && Breaker.Sound(store.breaker)
      modifies store`ledger
      ensures ok <==> WorkerAdmits(old(store.ledger), store.breaker, governor.Effective(), candidate.trigger, now)
      ensures store.ledger ==
        if ok then LedgerAfterClaim(old(store.ledger), store.breaker, governor.Effective(), candidate, now)
                              else old(store.ledger)
    {
      if candidate.trigger.kind == Publish {
        return true;
      }
      ok := governor.Admit(candidate, now);
    }

    /** What a claim leaves: the first admissible row leased, or nothing but the exhausted rows abandoned. */
    ghost predicate ClaimTaken(claim: Option<Claim>, q: Queue, l: Ledger, b: Breaker.State, config: BudgetConfig,
                               owner: string, now: Time, q': Queue, l': Ledger) {
      match claim
      case None =>
        && q' == q && l' == l
        && forall k | k in q && Claimable(q, k, repo, maxAttempts, now) ::
             !WorkerAdmits(l, b, config, q[k].trigger, now)
      case Some(c) =>
        && FirstAdmitted(q, l, b, config, repo, maxAttempts, now, c.trigger.key)
        && c == ClaimOf(q[c.trigger.key], owner, now + lease)
        && q' == Leased(q, c.trigger.key, owner, now + lease)
        && l' == LedgerAfterClaim(l, b, config, c, now)
    }

    lemma TookRow(q: Queue, rows: seq<string>, i: nat, l: Ledger, b: Breaker.State, config: BudgetConfig,
                  owner: string, now: Time, c: Claim)
      requires InOrder(q, rows, repo, maxAttempts, now) && i < |rows| && Numbered(q)
      requires RefusedBefore(q, rows, i, l, b, config, now) && WorkerAdmits(l, b, config, q[rows[i]].trigger, now)
      requires c == ClaimOf(q[rows[i]], owner, now + lease)
      ensures ClaimTaken(Some(c), q, l, b, config, owner, now,
                         Leased(q, rows[i], owner, now + lease), LedgerAfterClaim(l, b, config, c, now))
    {
      FirstInOrder(q, rows, i, l, b, config, repo, maxAttempts, now);
    }

    lemma TookNothing(q: Queue, rows: seq<string>, l: Ledger, b: Breaker.State, config: BudgetConfig, owner: string,
                      now: Time)
      requires InOrder(q, rows, repo, maxAttempts, now) && RefusedBefore(q, rows, |rows|, l, b, config, now)
      ensures ClaimTaken(None, q, l, b, config, owner, now, q, l)
    {
      forall k | k in q && Claimable(q, k, repo, maxAttempts, now)
        ensures !WorkerAdmits(l, b, config, q[k].trigger, now)
      {
        var n :| 0 <= n < |rows| && rows[n] == k;
      }
    }

    /** Offer the rows to the worker in turn, stopping at the first it admits. */
    method AdmitFirst(rows: seq<string>, now: Time, owner: string, governor: Governor) returns (i: nat)
      requires governor.store == store && forall k | 0 <= k < |rows| :: rows[k] in store.queue
      requires governor.Effective().pool.maxRunTokens > 0 && Breaker.Sound(store.breaker)
      modifies store`ledger
      ensures i <= |rows|
      ensures RefusedBefore(store.queue, rows, i, old(store.ledger), store.breaker, governor.Effective(), now)
      ensures i == |rows| ==> store.ledger == old(store.ledger)
      ensures i < |rows| ==>
        && WorkerAdmits(old(store.ledger), store.breaker, governor.Effective(), store.queue[rows[i]].trigger, now)
        && store.ledger == LedgerAfterClaim(old(store.ledger), store.breaker, governor.Effective(),
                                            ClaimOf(store.queue[rows[i]], owner, now + lease), now)
    {
      i := 0;
      while i < |rows|
        invariant i <= |rows| && store.ledger == old(store.ledger)
        invariant RefusedBefore(store.queue, rows, i, store.ledger, store.breaker, governor.Effective(), now)
      {
        var candidate := ClaimOf(store.queue[rows[i]], owner, now + lease);
        var admitted := Admit(candidate, now, governor);
        if admitted {
          return;
        }
        OneMoreRefused(store.queue, rows, i, store.ledger, store.breaker, governor.Effective(), now);
        i := i + 1;
      }
    }

    /** Lease the first of the rows that the worker admits. */
    method ClaimFrom(rows: seq<string>, now: Time, owner: string, governor: Governor) returns (claim: Option<Claim>)
      requires governor.store == store && Numbered(store.queue) && InOrder(store.queue, rows, repo, maxAttempts, now)
      requires governor.Effective().pool.maxRunTokens > 0 && Breaker.Sound(store.breaker)
      modifies store`queue, store`ledger
      ensures ClaimTaken(claim, old(store.queue), old(store.ledger), store.breaker, governor.Effective(), owner, now,
                         store.queue, store.ledger)
    {
      ghost var q, l, b, config := store.queue, store.ledger, store.breaker, governor.Effective();
      var i := AdmitFirst(rows, now, owner, governor);
      if i == |rows| {
        TookNothing(q, rows, l, b, config, owner, now);
        return None;
      }
      var candidate := ClaimOf(store.queue[rows[i]], owner, now + lease);
      TookRow(q, rows, i, l, b, config, owner, now, candidate);
      store.queue := Leased(store.queue, rows[i], owner, now + lease);
      return Some(candidate);
    }

    /**
     Lease the oldest claimable trigger the worker admits. A refused candidate is passed over, and
     leaves the queue, its attempts and the ledger as they were.
     */
    method Claim(now: Time, owner: string, governor: Governor) returns (claim: Option<Claim>)
      requires governor.store == store && Numbered(store.queue)
      requires governor.Effective().pool.maxRunTokens > 0 && Breaker.Sound(store.breaker)
      modifies store`queue, store`ledger
      ensures ClaimTaken(claim, AbandonExhausted(old(store.queue), repo, maxAttempts, now), old(store.ledger),
                         store.breaker, governor.Effective(), owner, now, store.queue, store.ledger)
    {
      AbandonNumbered(store.queue, repo, maxAttempts, now);
      store.queue := AbandonExhausted(store.queue, repo, maxAttempts, now);
      var rows := SelectClaimable(now);
      claim := ClaimFrom(rows, now, owner, governor);
    }

    method Finish(claim: Claim, status: Status) returns (held: bool)
      modifies store`queue
      ensures store.queue == Finished(old(store.queue), claim.trigger.key, claim.owner, status)
      ensures held <==> OwnedBy(old(store.queue), claim.trigger.key, claim.owner)
    {
      held := OwnedBy(store.queue, claim.trigger.key, claim.owner);
      store.queue := Finished(store.queue, claim.trigger.key, claim.owner, status);
    }

    /** Hand `claim` back without counting the attempt. */
    method ReleaseUnattempted(claim: Claim) returns (held: bool)
      modifies store`queue
      ensures store.queue == ReleasedUnattempted(old(store.queue), claim.trigger.key, claim.owner)
      ensures held <==> OwnedBy(old(store.queue), claim.trigger.key, claim.owner)
    {
      held := OwnedBy(store.queue, claim.trigger.key, claim.owner);
      store.queue := ReleasedUnattempted(store.queue, claim.trigger.key, claim.owner);
    }

    /** Close the triggers that `claim`'s review already answered. */
    method Fold(claim: Claim, before: Time, head: string) returns (folded: nat)
      modifies store`queue
      ensures store.queue == Folded(old(store.queue), repo, claim.trigger, before, head)
      ensures folded == |set k | k in old(store.queue) && Folds(old(store.queue)[k], repo, claim.trigger, before, head)|
    {
      folded := |set k | k in store.queue && Folds(store.queue[k], repo, claim.trigger, before, head)|;
      store.queue := Folded(store.queue, repo, claim.trigger, before, head);
    }

    /** Does the claim's owner still hold a live lease on its row? */
    predicate Holds(claim: Claim, now: Time)
      reads store
    {
      OwnedBy(store.queue, claim.trigger.key, claim.owner) && LeaseLive(store.queue[claim.trigger.key], now)
    }
  }

  // ----- Which row is taken --------------------------------------------------------------------

  /** Waiting for a worker: not out of attempts, not leased, and no other row of its pull request leased. */
  ghost predicate Waiting(q: Queue, k: string, repo: string, maxAttempts: nat, now: Time) {
    && k in q && q[k].trigger.repo == repo && q[k].attempts < maxAttempts
    && (q[k].status == Pending || q[k].status == Claimed)
    && forall j | j in q && q[j].trigger.repo == repo && q[j].trigger.pr == q[k].trigger.pr && q[j].status == Claimed ::
         q[j].leasedUntil.Some? && q[j].leasedUntil.value <= now
  }

  /** A claimed row has a lease. */
  predicate Leases(q: Queue) {
    forall k | k in q && q[k].status == Claimed :: q[k].leasedUntil.Some?
  }

  lemma ClaimableIsWaiting(q: Queue, k: string, repo: string, maxAttempts: nat, now: Time)
    requires Leases(q)
    ensures Claimable(q, k, repo, maxAttempts, now) <==> Waiting(q, k, repo, maxAttempts, now)
  {
  }

  /**
   A row is taken exactly when it waits and is admitted, and every other row that waits and is admitted
   was enqueued later: by its clock, or at the same instant with a larger number.
   */
  lemma OldestIsTaken(queue: ReviewQueue, claim: Option<Claim>, q: Queue, l: Ledger, b: Breaker.State,
                      config: BudgetConfig, owner: string, now: Time, q': Queue, l': Ledger, k: string)
    requires Numbered(q) && Leases(q) && queue.ClaimTaken(claim, q, l, b, config, owner, now, q', l')
    ensures (claim.Some? && claim.value.trigger.key == k) <==>
      && Waiting(q, k, queue.repo, queue.maxAttempts, now) && WorkerAdmits(l, b, config, q[k].trigger, now)
      && forall j | j != k && Waiting(q, j, queue.repo, queue.maxAttempts, now)
                    && WorkerAdmits(l, b, config, q[j].trigger, now) ::
           q[k].enqueuedAt < q[j].enqueuedAt || (q[k].enqueuedAt == q[j].enqueuedAt && q[k].rowid < q[j].rowid)
  {
    forall j ensures Claimable(q, j, queue.repo, queue.maxAttempts, now)
                     <==> Waiting(q, j, queue.repo, queue.maxAttempts, now)
    {
      ClaimableIsWaiting(q, j, queue.repo, queue.maxAttempts, now);
    }
  }

  /** A new row waits at once, unless a lease on its pull request is live, and behind all that is no younger. */
  lemma NewRowWaits(q: Queue, t: Trigger, now: Time, maxAttempts: nat, at: Time, j: string)
    requires Numbered(q) && Leases(q) && t.key !in q && maxAttempts > 0
    ensures var q' := Enqueued(q, t, now);
      && q'.Keys == q.Keys + {t.key} && q'[t.key].trigger == t && q'[t.key].enqueuedAt == now
      && (Waiting(q', t.key, t.repo, maxAttempts, at) <==>
            forall k | k in q && q[k].trigger.repo == t.repo && q[k].trigger.pr == t.pr && q[k].status == Claimed ::
              q[k].leasedUntil.value <= at)
      && (j in q ==> q'[j] == q[j] && (Earlier(q'[j], q'[t.key]) <==> q[j].enqueuedAt <= now))
  {
    var q' := Enqueued(q, t, now);
    assert forall k | k in q :: k in q' && q'[k] == q[k];
  }

  /** The sweep gives up exactly on rows without an attempt left that nobody works on; so none lingers. */
  lemma SweptExactly(q: Queue, repo: string, maxAttempts: nat, now: Time, k: string)
    requires Leases(q) && k in q
    ensures var row, row' := q[k], AbandonExhausted(q, repo, maxAttempts, now)[k];
      && (row' != row ==> row' == row.(status := Abandoned, leasedUntil := None, owner := None))
      && (row'.status == Abandoned <==>
            || row.status == Abandoned
            || (&& row.trigger.repo == repo && row.attempts >= maxAttempts
                && (row.status == Pending || (row.status == Claimed && row.leasedUntil.value <= now))))
      && (row'.trigger.repo == repo && (row'.status == Pending || row'.status == Claimed) ==>
            row'.attempts < maxAttempts || (row'.status == Claimed && now < row'.leasedUntil.value))
  {
  }
}
