/**
 The durable inbox of Strike notifications (src/ledger/inbox.rs) and the order in which the recovery
 worker drains it (src/strike.rs `recovery_step`).

 The schema's defaults make a new row pending, due at once and stamped with the current second
 (migrations/0007_strike_recovery.sql).
 */
module StrikeInbox {
  import opened Wrappers

  const CAPACITY: nat := 10_000
  const QUARANTINE_AFTER: nat := 7
  const QUARANTINE_DELAY: nat := 3600
  const MAX_ATTEMPTS: nat := 30

  /** `webhook:<event id>` or `recovery:<receive id>`; canonical lower-case UUID text orders as the number. */
  datatype WorkKey = Recovery(receive: Uuid) | Webhook(event: Uuid)

  datatype WorkStatus = Pending | Quarantined | Done

  datatype Work = Work(
    key: WorkKey, request: Uuid, receive: Uuid, status: WorkStatus, attempts: nat, nextAttempt: int, createdAt: int)

  predicate Open(w: Work) { w.status != Done }

  // --- Order ---------------------------------------------------------------------

  predicate KeyBefore(a: WorkKey, b: WorkKey) {
    match (a, b)
    case (Recovery(x), Recovery(y)) => x < y
    case (Webhook(x), Webhook(y)) => x < y
    case (Recovery(_), Webhook(_)) => true
    case (Webhook(_), Recovery(_)) => false
  }

  /** `ORDER BY next_attempt,created_at,work_key`. */
  predicate Before(a: Work, b: Work) {
    if a.nextAttempt != b.nextAttempt then a.nextAttempt < b.nextAttempt
    else if a.createdAt != b.createdAt then a.createdAt < b.createdAt
    else KeyBefore(a.key, b.key)
  }

  predicate Due(w: Work, now: int) { Open(w) && w.nextAttempt <= now }

  // --- Operations ------------------------------------------------------------------

  function Find(rows: seq<Work>, key: WorkKey): (r: Option<nat>)
    ensures r.Some? ==> r.value < |rows| && rows[r.value].key == key
    ensures r.None? <==> forall i | 0 <= i < |rows| :: rows[i].key != key
  {
    if rows == [] then None
    else if rows[|rows| - 1].key == key then Some(|rows| - 1)
    else Find(rows[..|rows| - 1], key)
  }

  function PendingCount(rows: seq<Work>): nat {
    if rows == [] then 0
    else PendingCount(rows[..|rows| - 1]) + if rows[|rows| - 1].status == Pending then 1 else 0
  }

  function Enqueue(rows: seq<Work>, now: int, key: WorkKey, request: Uuid, receive: Uuid): (seq<Work>, Result<()>) {
    match Find(rows, key)
    case Some(i) =>
      (rows, if rows[i].request != request || rows[i].receive != receive then Err else Ok(()))
    case None =>
      if PendingCount(rows) >= CAPACITY then (rows, Err)
      else (rows + [Work(key, request, receive, Pending, 0, now, now)], Ok(()))
  }

  /** The first due row of the order; it is due, and no due row comes before it. */
  function DueWork(rows: seq<Work>, now: int): (r: Option<nat>)
    ensures r.Some? ==> r.value < |rows| && Due(rows[r.value], now)
                        && forall i | 0 <= i < |rows| && Due(rows[i], now) :: !Before(rows[i], rows[r.value])
    ensures r.None? <==> forall i | 0 <= i < |rows| :: !Due(rows[i], now)
  {
    if rows == [] then None
    else
      var last := rows[|rows| - 1];
      match DueWork(rows[..|rows| - 1], now)
      case None => if Due(last, now) then Some(|rows| - 1) else None
      case Some(i) => if Due(last, now) && Before(last, rows[i]) then Some(|rows| - 1) else Some(i)
  }

  function Finish(rows: seq<Work>, key: WorkKey): seq<Work> {
    match Find(rows, key)
    case Some(i) => rows[i := rows[i].(status := Done)]
    case None => rows
  }

  function Pow2(n: nat): (r: nat)
    ensures r >= 1
  {
    if n == 0 then 1 else 2 * Pow2(n - 1)
  }

  function RetryDelay(attempts: nat): nat { Min(Pow2(Min(attempts, 8)), 300) }

  function RetriedRow(w: Work, now: int, attempts: nat): Work {
    var quarantined := attempts >= QUARANTINE_AFTER;
    w.(status := if quarantined then Quarantined else Pending,
       attempts := Min(w.attempts + 1, MAX_ATTEMPTS),
       nextAttempt := now + if quarantined then QUARANTINE_DELAY else RetryDelay(attempts))
  }

  function Retry(rows: seq<Work>, now: int, key: WorkKey, attempts: nat): seq<Work> {
    match Find(rows, key)
    case Some(i) => if Open(rows[i]) then rows[i := RetriedRow(rows[i], now, attempts)] else rows
    case None => rows
  }

  class Inbox {
    var rows: seq<Work>

    constructor ()
      ensures rows == []
    {
      rows := [];
    }

    method EnqueueStrikeWork(now: int, key: WorkKey, request: Uuid, receive: Uuid) returns (r: Result<()>)
      modifies this
      ensures (rows, r) == Enqueue(old(rows), now, key, request, receive)
    {
      var existing := Find(rows, key);
      if existing.Some? {
        var row := rows[existing.value];
        return if row.request != request || row.receive != receive then Err else Ok(());
      }
      if PendingCount(rows) >= CAPACITY {
        return Err;
      }
      rows := rows + [Work(key, request, receive, Pending, 0, now, now)];
      r := Ok(());
    }

    method FinishStrikeWork(key: WorkKey)
      modifies this
      ensures rows == Finish(old(rows), key)
    {
      var row := Find(rows, key);
      if row.Some? {
        rows := rows[row.value := rows[row.value].(status := Done)];
      }
    }

    method RetryStrikeWork(now: int, key: WorkKey, attempts: nat)
      modifies this
      ensures rows == Retry(old(rows), now, key, attempts)
    {
      var row := Find(rows, key);
      if row.Some? && Open(rows[row.value]) {
        rows := rows[row.value := RetriedRow(rows[row.value], now, attempts)];
      }
    }

    /** The inbox half of one recovery step; `credited` is whether reconciliation and crediting succeeded. */
    method Drain(now: int, later: int, credited: bool) returns (worked: Option<WorkKey>)
      modifies this
      ensures rows == Drained(old(rows), now, later, credited)
      ensures worked.Some? <==> DueWork(old(rows), now).Some?
    {
      var due := DueWork(rows, now);
      if due.None? {
        return None;
      }
      var work := rows[due.value];
      if credited {
        FinishStrikeWork(work.key);
      } else {
        RetryStrikeWork(later, work.key, work.attempts);
      }
      worked := Some(work.key);
    }
  }

  function Drained(rows: seq<Work>, now: int, later: int, credited: bool): seq<Work> {
    match DueWork(rows, now)
    case None => rows
    case Some(i) =>
      if credited then Finish(rows, rows[i].key) else Retry(rows, later, rows[i].key, rows[i].attempts)
  }

  // --- Invariants ------------------------------------------------------------------

  ghost predicate Keyed(rows: seq<Work>) {
    forall i, j | 0 <= i < j < |rows| :: rows[i].key != rows[j].key
  }

  /** Capacity holds, quarantine is never left except by success, and every row is retried within the hour. */
  ghost predicate Inv(rows: seq<Work>, clock: int) {
    && Keyed(rows)
    && PendingCount(rows) <= CAPACITY
    && forall i | 0 <= i < |rows| ::
         && (rows[i].status == Quarantined ==> rows[i].attempts > QUARANTINE_AFTER)
         && rows[i].attempts <= MAX_ATTEMPTS
         && rows[i].createdAt <= clock && rows[i].nextAttempt <= clock + QUARANTINE_DELAY
  }

  lemma {:induction false} PendingChange(rows: seq<Work>, i: nat, w: Work)
    requires i < |rows|
    ensures PendingCount(rows[i := w])
            == PendingCount(rows) - (if rows[i].status == Pending then 1 else 0) + if w.status == Pending then 1 else 0
  {
    var front, after := rows[..|rows| - 1], rows[i := w];
    if i < |front| {
      PendingChange(front, i, w);
      assert after[..|rows| - 1] == front[i := w];
    } else {
      assert after[..|rows| - 1] == front;
    }
  }

  datatype Op =
    | Arrive(now: int, key: WorkKey, request: Uuid, receive: Uuid)
    | Drain(now: int, later: int, credited: bool)

  function Apply(rows: seq<Work>, op: Op): seq<Work> {
    match op
    case Arrive(now, key, request, receive) => Enqueue(rows, now, key, request, receive).0
    case Drain(now, later, credited) => Drained(rows, now, later, credited)
  }

  function RunFrom(rows: seq<Work>, ops: seq<Op>): seq<Work> {
    if ops == [] then rows else Apply(RunFrom(rows, ops[..|ops| - 1]), ops[|ops| - 1])
  }

  function StartOf(op: Op): int { op.now }

  function EndOf(op: Op): int { match op case Arrive(now, _, _, _) => now case Drain(_, later, _) => later }

  /** The clock never goes back, within an operation or between two. */
  predicate Monotone(clock: int, ops: seq<Op>) {
    ops == [] ||
    var front, last := ops[..|ops| - 1], ops[|ops| - 1];
    Monotone(clock, front) && ClockAfter(clock, front) <= StartOf(last) <= EndOf(last)
  }

  function ClockAfter(clock: int, ops: seq<Op>): int { if ops == [] then clock else EndOf(ops[|ops| - 1]) }

  lemma FoundAt(rows: seq<Work>, i: nat)
    requires Keyed(rows) && i < |rows|
    ensures Find(rows, rows[i].key) == Some(i)
  {
  }

  lemma {:induction false} DelayBounds(attempts: nat)
    ensures 1 <= RetryDelay(attempts) <= 256
    ensures RetryDelay(attempts) == Pow2(Min(attempts, 8))
  {
    PowersGrow(Min(attempts, 8), 8);
  }

  lemma {:induction false} PowersGrow(a: nat, b: nat)
    requires a <= b
    ensures Pow2(a) <= Pow2(b) && Pow2(8) == 256
  {
    if a < b {
      PowersGrow(a, b - 1);
    }
  }

  lemma ArrivalKeepsInv(rows: seq<Work>, now: int, key: WorkKey, request: Uuid, receive: Uuid, clock: int)
    requires Inv(rows, clock) && clock <= now
    ensures Inv(Enqueue(rows, now, key, request, receive).0, now)
  {
    var after := Enqueue(rows, now, key, request, receive).0;
    if after != rows {
      assert after[..|rows|] == rows;
    }
  }

  /** The worked row after the step. */
  function Worn(w: Work, later: int, credited: bool): Work {
    if credited then w.(status := Done) else RetriedRow(w, later, w.attempts)
  }

  lemma DrainedIs(rows: seq<Work>, now: int, later: int, credited: bool)
    requires Keyed(rows)
    ensures Drained(rows, now, later, credited)
            == match DueWork(rows, now)
               case None => rows
               case Some(i) => rows[i := Worn(rows[i], later, credited)]
  {
    if DueWork(rows, now).Some? {
      FoundAt(rows, DueWork(rows, now).value);
    }
  }

  lemma WornKeepsInv(rows: seq<Work>, i: nat, later: int, credited: bool, clock: int)
    requires Inv(rows, clock) && clock <= later && i < |rows| && Open(rows[i])
    ensures Inv(rows[i := Worn(rows[i], later, credited)], later)
  {
    DelayBounds(rows[i].attempts);
    PendingChange(rows, i, Worn(rows[i], later, credited));
  }

  lemma ApplyKeepsInv(rows: seq<Work>, op: Op, clock: int)
    requires Inv(rows, clock) && clock <= StartOf(op) <= EndOf(op)
    ensures Inv(Apply(rows, op), EndOf(op))
  {
    match op
    case Arrive(now, key, request, receive) => ArrivalKeepsInv(rows, now, key, request, receive, clock);
    case Drain(now, later, credited) =>
      DrainedIs(rows, now, later, credited);
      if DueWork(rows, now).Some? {
        WornKeepsInv(rows, DueWork(rows, now).value, later, credited, clock);
      }
  }

  lemma {:induction false} RunKeepsInv(rows: seq<Work>, ops: seq<Op>, clock: int)
    requires Inv(rows, clock) && Monotone(clock, ops)
    ensures Inv(RunFrom(rows, ops), ClockAfter(clock, ops))
  {
    if ops != [] {
      var front := ops[..|ops| - 1];
      RunKeepsInv(rows, front, clock);
      ApplyKeepsInv(RunFrom(rows, front), ops[|ops| - 1], ClockAfter(clock, front));
    }
  }

  // --- Nobody starves ----------------------------------------------------------------

  /** Open rows that come before `w`. */
  function Ahead(rows: seq<Work>, w: Work): nat {
    if rows == [] then 0
    else
      var last := rows[|rows| - 1];
      Ahead(rows[..|rows| - 1], w) + if Open(last) && Before(last, w) then 1 else 0
  }

  lemma {:induction false} AheadChange(rows: seq<Work>, i: nat, r: Work, w: Work)
    requires i < |rows|
    ensures Ahead(rows[i := r], w)
            == Ahead(rows, w) - (if Open(rows[i]) && Before(rows[i], w) then 1 else 0)
               + if Open(r) && Before(r, w) then 1 else 0
  {
    var front, after := rows[..|rows| - 1], rows[i := r];
    if i < |front| {
      AheadChange(front, i, r, w);
      assert after[..|rows| - 1] == front[i := r];
    } else {
      assert after[..|rows| - 1] == front;
    }
  }

  lemma {:induction false} AheadAtMost(rows: seq<Work>, i: nat)
    requires i <= |rows|
    ensures forall w: Work :: Ahead(rows[..i], w) <= i
  {
    if i > 0 {
      AheadAtMost(rows, i - 1);
      assert rows[..i][..i - 1] == rows[..i - 1];
    }
  }

  /** Two different keys are never tied. */
  lemma OrderIsTotal(a: Work, b: Work)
    requires a.key != b.key
    ensures Before(a, b) || Before(b, a)
    ensures !(Before(a, b) && Before(b, a))
  {
  }

  /** A row waiting since before the current second. */
  predicate Overdue(rows: seq<Work>, i: nat, clock: int) {
    i < |rows| && Open(rows[i]) && rows[i].nextAttempt < clock
  }

  /**
   One operation: an arriving row queues behind an overdue row, and each worked row either is that
   row or leaves the rows ahead of it, by success or by a retry at least a second in the future.
   */
  lemma ApplyAdvances(rows: seq<Work>, op: Op, clock: int, i: nat)
    requires Inv(rows, clock) && clock <= StartOf(op) <= EndOf(op) && Overdue(rows, i, clock)
    ensures op.Arrive? ==> Overdue(Apply(rows, op), i, EndOf(op)) && Apply(rows, op)[i] == rows[i]
                           && Ahead(Apply(rows, op), rows[i]) == Ahead(rows, rows[i])
    ensures op.Drain? && DueWork(rows, op.now) != Some(i) ==>
              Overdue(Apply(rows, op), i, EndOf(op)) && Apply(rows, op)[i] == rows[i]
              && Ahead(Apply(rows, op), rows[i]) == Ahead(rows, rows[i]) - 1
  {
    match op
    case Arrive(now, key, request, receive) =>
      var after := Apply(rows, op);
      if after != rows {
        assert after[..|rows|] == rows;
      }
    case Drain(now, later, credited) =>
      assert Due(rows[i], now);
      var j := DueWork(rows, now).value;
      if j != i {
        FoundAt(rows, j);
        DelayBounds(rows[j].attempts);
        OrderIsTotal(rows[i], rows[j]);
        AheadChange(rows, j, Worn(rows[j], later, credited), rows[i]);
      }
  }

  function Worked(ops: seq<Op>): nat {
    if ops == [] then 0 else Worked(ops[..|ops| - 1]) + if ops[|ops| - 1].Drain? then 1 else 0
  }

  /** Operation `k` of the run works row `i`. */
  predicate WorksAt(rows: seq<Work>, ops: seq<Op>, k: nat, i: nat) {
    k < |ops| && ops[k].Drain? && DueWork(RunFrom(rows, ops[..k]), ops[k].now) == Some(i)
  }

  lemma {:induction false} UnworkedWaits(rows: seq<Work>, ops: seq<Op>, clock: int, i: nat)
    requires Inv(rows, clock) && Monotone(clock, ops) && Overdue(rows, i, clock)
    requires forall k | 0 <= k < |ops| :: !WorksAt(rows, ops, k, i)
    ensures Overdue(RunFrom(rows, ops), i, ClockAfter(clock, ops)) && RunFrom(rows, ops)[i] == rows[i]
    ensures Ahead(RunFrom(rows, ops), rows[i]) + Worked(ops) == Ahead(rows, rows[i])
  {
    if ops != [] {
      var last := |ops| - 1;
      var front := ops[..last];
      forall k | 0 <= k < |front| ensures !WorksAt(rows, front, k, i) {
        assert front[..k] == ops[..k];
        assert !WorksAt(rows, ops, k, i);
      }
      UnworkedWaits(rows, front, clock, i);
      RunKeepsInv(rows, front, clock);
      assert !WorksAt(rows, ops, last, i);
      ApplyAdvances(RunFrom(rows, front), ops[last], ClockAfter(clock, front), i);
    }
  }

  /**
   No starvation: once a row is overdue, whatever arrives and whatever fails, it is worked before one
   more step than there were rows ahead of it.
   */
  lemma {:induction false} NobodyStarves(rows: seq<Work>, ops: seq<Op>, clock: int, i: nat)
    requires Inv(rows, clock) && Monotone(clock, ops) && Overdue(rows, i, clock)
    requires Worked(ops) > Ahead(rows, rows[i])
    ensures exists k :: WorksAt(rows, ops, k, i)
    ensures Ahead(rows, rows[i]) <= |rows|
  {
    AheadAtMost(rows, |rows|);
    assert rows[..|rows|] == rows;
    if forall k | 0 <= k < |ops| :: !WorksAt(rows, ops, k, i) {
      UnworkedWaits(rows, ops, clock, i);
      assert false;
    }
  }
}
