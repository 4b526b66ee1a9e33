/** The rows of the shared SQLite file, and the statements that read and change them. */
module Model {
  import opened Wrappers

  /** An instant in UTC, in microseconds. */
  type Time = int

  datatype Kind = PrOpened | Mention | Publish

  datatype Command = Review | Describe

  datatype Trigger = Trigger(
    kind: Kind, repo: string, pr: int, headSha: Option<string>, actor: int, key: string, command: Command)

  datatype Claim = Claim(trigger: Trigger, attempts: nat, owner: string, leasedUntil: Time)

  // ----- The queue -----------------------------------------------------------------------------

  datatype Status = Pending | Claimed | Done | Abandoned

  datatype QueueRow = QueueRow(
    trigger: Trigger, status: Status, attempts: nat, enqueuedAt: Time, rowid: nat,
    leasedUntil: Option<Time>, owner: Option<string>)

  /** The queue table, by its primary key. */
  type Queue = map<string, QueueRow>

  /** `_ENQUEUE`: `INSERT OR IGNORE`. */
  function Enqueued(q: Queue, t: Trigger, now: Time): Queue {
    if t.key in q then q
    else q[t.key := QueueRow(t, Pending, 0, now, |q| + 1, None, None)]
  }

  predicate LeaseOver(row: QueueRow, now: Time) {
    row.status == Claimed && row.leasedUntil.Some? && row.leasedUntil.value <= now
  }

  predicate LeaseLive(row: QueueRow, now: Time) {
    row.status == Claimed && row.leasedUntil.Some? && row.leasedUntil.value > now
  }

  /** A row that is waiting, or whose lease has lapsed. */
  predicate Offered(row: QueueRow, now: Time) {
    row.status == Pending || LeaseOver(row, now)
  }

  /** The `WHERE` of `_ABANDON_EXHAUSTED`. */
  predicate OutOfAttempts(row: QueueRow, repo: string, maxAttempts: nat, now: Time) {
    row.trigger.repo == repo && row.attempts >= maxAttempts && Offered(row, now)
  }

  /** `_ABANDON_EXHAUSTED` */
  function AbandonExhausted(q: Queue, repo: string, maxAttempts: nat, now: Time): (q': Queue)
    ensures q'.Keys == q.Keys
  {
    map k | k in q :: if OutOfAttempts(q[k], repo, maxAttempts, now)
                      then q[k].(status := Abandoned, leasedUntil := None, owner := None)
                      else q[k]
  }

  /** A row that will still be claimed, or is. */
  predicate RowOpen(q: Queue, k: string) {
    k in q && q[k].status != Done && q[k].status != Abandoned
  }

  /** The `WHERE` of `_CLAIMABLE`. */
  predicate Claimable(q: Queue, k: string, repo: string, maxAttempts: nat, now: Time) {
    && k in q && q[k].trigger.repo == repo && q[k].attempts < maxAttempts && Offered(q[k], now)
    && forall j | j in q :: !(q[j].trigger.repo == q[k].trigger.repo && q[j].trigger.pr == q[k].trigger.pr
                              && LeaseLive(q[j], now))
  }

  /** `ORDER BY enqueued_at, rowid` */
  predicate Earlier(a: QueueRow, b: QueueRow) {
    a.enqueuedAt < b.enqueuedAt || (a.enqueuedAt == b.enqueuedAt && a.rowid < b.rowid)
  }

  /** The claim a worker would hold on row `k`. */
  function ClaimOf(row: QueueRow, owner: string, until: Time): Claim {
    Claim(row.trigger, row.attempts + 1, owner, until)
  }

  /** `_TAKE_LEASE` */
  function Leased(q: Queue, k: string, owner: string, until: Time): Queue
    requires k in q
  {
    q[k := q[k].(status := Claimed, attempts := q[k].attempts + 1, leasedUntil := Some(until), owner := Some(owner))]
  }

  predicate OwnedBy(q: Queue, k: string, owner: string) {
    k in q && q[k].owner == Some(owner)
  }

  /** `_FINISH`: guarded on the owner. */
  function Finished(q: Queue, k: string, owner: string, status: Status): Queue {
    if OwnedBy(q, k, owner) then q[k := q[k].(status := status, leasedUntil := None, owner := None)] else q
  }

  /** `_RELEASE_UNATTEMPTED` */
  function ReleasedUnattempted(q: Queue, k: string, owner: string): Queue {
    if OwnedBy(q, k, owner) then
      q[k := q[k].(status := Pending, leasedUntil := None, owner := None,
                   attempts := if q[k].attempts == 0 then 0 else q[k].attempts - 1)]
    else q
  }

  /** The `WHERE` of `_FOLD`. */
  predicate Folds(row: QueueRow, repo: string, c: Trigger, before: Time, head: string) {
    && row.trigger.repo == repo && row.trigger.pr == c.pr && row.status == Pending
    && row.trigger.kind != Publish && row.trigger.key != c.key && row.enqueuedAt <= before
    && (row.trigger.headSha == None || row.trigger.headSha == Some(head)) && row.trigger.command == c.command
  }

  function Folded(q: Queue, repo: string, c: Trigger, before: Time, head: string): (q': Queue)
    ensures q'.Keys == q.Keys
  {
    map k | k in q :: if Folds(q[k], repo, c, before, head)
                      then q[k].(status := Done, leasedUntil := None, owner := None)
                      else q[k]
  }

  // ----- The ledger ----------------------------------------------------------------------------

  datatype Mode = Full | MentionOnly | Exhausted

  datatype Confidence = Exact | Estimated | Unavailable

  datatype StopReason =
    | Completed | Truncated | Failed | Timeout | EngineError | EngineUnavailable
    | Refused | Closed | Lost | Infrastructure | UsageLimit

  datatype Usage = Usage(tokens: nat, confidence: Confidence)

  /** What a settle writes on a row. */
  datatype Settlement = Settlement(
    usage: Usage, reason: StopReason, lines: Option<int>, since: Option<string>, at: Time)

  datatype LedgerRow = LedgerRow(
    key: string, owner: string, actor: int, repo: string, pr: int, mode: Mode,
    reserved: nat, reservedAt: Time, settled: Option<Settlement>)

  /** The ledger table, in the order of its ids; rows are only appended. */
  type Ledger = seq<LedgerRow>

  predicate Open(r: LedgerRow) {
    r.settled.None?
  }

  /** `_SETTLE_LOST`: unguarded by the owner, at the full reservation. */
  function SettledLost(l: Ledger, key: string, now: Time): (l': Ledger)
    ensures |l'| == |l|
  {
    seq(|l|, i requires 0 <= i < |l| =>
      if l[i].key == key && Open(l[i])
      then l[i].(settled := Some(Settlement(Usage(l[i].reserved, Unavailable), Lost, None, None, now)))
      else l[i])
  }

  /** `_RESERVE` */
  function Reserved(l: Ledger, c: Claim, mode: Mode, tokens: nat, now: Time): Ledger {
    l + [LedgerRow(c.trigger.key, c.owner, c.trigger.actor, c.trigger.repo, c.trigger.pr, mode, tokens, now, None)]
  }

  predicate HeldBy(r: LedgerRow, key: string, owner: string) {
    r.key == key && r.owner == owner && Open(r)
  }

  /** `_SETTLE`: guarded on the owner. */
  function Settled(l: Ledger, key: string, owner: string, s: Settlement): (l': Ledger)
    ensures |l'| == |l|
  {
    seq(|l|, i requires 0 <= i < |l| => if HeldBy(l[i], key, owner) then l[i].(settled := Some(s)) else l[i])
  }

  /** `SELECT SUM(weight)` */
  function Total(l: Ledger, weight: LedgerRow -> nat): nat {
    if l == [] then 0 else Total(l[..|l| - 1], weight) + weight(l[|l| - 1])
  }

  /** Tokens spent, or reserved while the row is open. */
  function Committed(r: LedgerRow): nat {
    if r.settled.Some? then r.settled.value.usage.tokens else r.reserved
  }

  predicate ByActor(r: LedgerRow, actor: Option<int>) {
    actor.Some? ==> r.actor == actor.value
  }

  function UsageSince(start: Time, actor: Option<int>): LedgerRow -> nat {
    (r: LedgerRow) => if r.reservedAt > start && ByActor(r, actor) then Committed(r) else 0
  }

  /** `_USED_SINCE` and `_USED_SINCE_BY_ACTOR` */
  function UsedSince(l: Ledger, start: Time, actor: Option<int>): nat {
    Total(l, UsageSince(start, actor))
  }

  // ----- Sums ----------------------------------------------------------------------------------

  lemma TotalAppend(l: Ledger, r: LedgerRow, weight: LedgerRow -> nat)
    ensures Total(l + [r], weight) == Total(l, weight) + weight(r)
  {
    assert (l + [r])[..|l|] == l;
  }

  lemma {:induction false} TotalAtMost(l: Ledger, l': Ledger, weight: LedgerRow -> nat, weight': LedgerRow -> nat)
    requires |l'| == |l| && forall i | 0 <= i < |l| :: weight'(l'[i]) <= weight(l[i])
    ensures Total(l', weight') <= Total(l, weight)
  {
    if l != [] {
      TotalAtMost(l[..|l| - 1], l'[..|l| - 1], weight, weight');
    }
  }
}
