/**
 The integration gateway's durable admission store (src/gateway/store.rs).

 One SQLite transaction is one step. The tables are sequences in insertion order, and
 `unixepoch()` is the parameter `now`. `Begin` and `Acknowledge` specify the two writing
 transactions; class `Store` performs them in place.
 */
module GatewayStore {
  import opened Wrappers

  const WINDOW_SECONDS: int := 3600
  const MAX_RETRY_SECONDS: int := 86_400
  const FIXED_RETRY_SECONDS: nat := 5

  datatype RequestStatus = Pending | Acknowledged

  datatype Request = Request(id: Uuid, status: RequestStatus, createdAt: int, updatedAt: int)

  datatype RefusalReason = Safety | Unresolved | Capacity

  datatype Refusal = Refusal(reason: RefusalReason, retryAfterSeconds: nat)

  datatype EventKind = ReservedEvent | AcknowledgedEvent

  datatype Event = Event(id: Uuid, kind: EventKind, at: int)

  datatype BeginOutcome = New | StillPending | AlreadyAcknowledged | NotDispatched(refusal: Refusal)

  datatype StoredStatus = StoredPending | StoredAcknowledged | StoredNotDispatched(refusal: Refusal)

  /** `feeder_requests`, `feeder_refusals` and `feeder_request_events`. */
  datatype Tables = Tables(
    requests: seq<Request>, refusals: map<Uuid, Refusal>, events: seq<Event>)

  const EMPTY: Tables := Tables([], map[], [])

  datatype Limits = Limits(minInterval: nat, maxPerHour: nat)

  predicate Safe(limits: Limits) {
    5 <= limits.minInterval <= I64_MAX && 1 <= limits.maxPerHour <= I64_MAX
  }

  // --- The queries ---------------------------------------------------------------

  function Find(rows: seq<Request>, id: Uuid): (r: Option<nat>)
    ensures r.Some? ==> r.value < |rows| && rows[r.value].id == id
    ensures r.None? <==> forall i | 0 <= i < |rows| :: rows[i].id != id
  {
    if rows == [] then None
    else if rows[|rows| - 1].id == id then Some(|rows| - 1)
    else Find(rows[..|rows| - 1], id)
  }

  /** `EXISTS(... WHERE status='pending')`. */
  predicate AnyPending(rows: seq<Request>) {
    exists i | 0 <= i < |rows| :: rows[i].status == Pending
  }

  /** `MAX(updated_at)`. */
  function LatestUpdate(rows: seq<Request>): Option<int> {
    if rows == [] then None
    else
      var last := rows[|rows| - 1].updatedAt;
      match LatestUpdate(rows[..|rows| - 1])
      case None => Some(last)
      case Some(m) => Some(Max(m, last))
  }

  /** `COUNT(*) ... WHERE updated_at >= since`. */
  function CountSince(rows: seq<Request>, since: int): nat {
    if rows == [] then 0
    else CountSince(rows[..|rows| - 1], since) + if rows[|rows| - 1].updatedAt >= since then 1 else 0
  }

  /** `MIN(updated_at) ... WHERE updated_at >= since`. */
  function EarliestSince(rows: seq<Request>, since: int): Option<int> {
    if rows == [] then None
    else
      var last := rows[|rows| - 1].updatedAt;
      var before := EarliestSince(rows[..|rows| - 1], since);
      if last < since then before
      else match before
        case None => Some(last)
        case Some(m) => Some(Min(m, last))
  }

  function IntervalDelay(rows: seq<Request>, interval: int, now: int): int {
    match LatestUpdate(rows)
    case None => 0
    case Some(latest) => latest + interval - now
  }

  function WindowDelay(rows: seq<Request>, cap: int, now: int): int {
    if CountSince(rows, now - WINDOW_SECONDS) >= cap then
      match EarliestSince(rows, now - WINDOW_SECONDS)
      case None => 0
      case Some(earliest) => earliest + WINDOW_SECONDS + 1 - now
    else 0
  }

  /** The single SELECT that computes how long a fresh request must wait. */
  function Delay(rows: seq<Request>, limits: Limits, now: int): nat {
    Max(0, Max(IntervalDelay(rows, limits.minInterval, now), WindowDelay(rows, limits.maxPerHour, now)))
  }

  // --- The transactions ----------------------------------------------------------

  function RefusalFor(rows: seq<Request>, limits: Limits, now: int, safetyRefusal: bool): Option<Refusal> {
    if safetyRefusal then Some(Refusal(Safety, FIXED_RETRY_SECONDS))
    else if AnyPending(rows) then Some(Refusal(Unresolved, FIXED_RETRY_SECONDS))
    else if Delay(rows, limits, now) > 0 then
      Some(Refusal(Capacity, Min(Delay(rows, limits, now), MAX_RETRY_SECONDS)))
    else None
  }

  function Begin(t: Tables, now: int, id: Uuid, limits: Limits, safetyRefusal: bool): (Tables, Result<BeginOutcome>)
  {
    if !Safe(limits) then (t, Err)
    else match Find(t.requests, id)
      case Some(i) => (t, Ok(if t.requests[i].status == Pending then StillPending else AlreadyAcknowledged))
      case None =>
        if id in t.refusals then (t, Ok(NotDispatched(t.refusals[id])))
        else match RefusalFor(t.requests, limits, now, safetyRefusal)
          case Some(refusal) => (t.(refusals := t.refusals[id := refusal]), Ok(NotDispatched(refusal)))
          case None =>
            (t.(requests := t.requests + [Request(id, Pending, now, now)],
                events := t.events + [Event(id, ReservedEvent, now)]), Ok(New))
  }

  function Acknowledge(t: Tables, now: int, id: Uuid): (Tables, Result<()>) {
    match Find(t.requests, id)
    case Some(i) =>
      if t.requests[i].status == Pending then
        (t.(requests := t.requests[i := t.requests[i].(status := Acknowledged, updatedAt := now)],
            events := t.events + [Event(id, AcknowledgedEvent, now)]), Ok(()))
      else (t, Ok(()))
    case None => (t, Err)
  }

  function Status(t: Tables, id: Uuid): Option<StoredStatus> {
    match Find(t.requests, id)
    case Some(i) => Some(if t.requests[i].status == Pending then StoredPending else StoredAcknowledged)
    case None => if id in t.refusals then Some(StoredNotDispatched(t.refusals[id])) else None
  }

  /** The store, updating its tables in place. */
  class Store {
    var requests: seq<Request>
    var refusals: map<Uuid, Refusal>
    var events: seq<Event>

    function State(): Tables
      reads this
    {
      Tables(requests, refusals, events)
    }

    constructor ()
      ensures State() == EMPTY
    {
      requests, refusals, events := [], map[], [];
    }

    method BeginRequest(now: int, id: Uuid, limits: Limits, safetyRefusal: bool)
      returns (outcome: Result<BeginOutcome>)
      modifies this
      ensures (State(), outcome) == Begin(old(State()), now, id, limits, safetyRefusal)
    {
      if !Safe(limits) {
        return Err;
      }
      var existing := Find(requests, id);
      if existing.Some? {
        return Ok(if requests[existing.value].status == Pending then StillPending else AlreadyAcknowledged);
      }
      if id in refusals {
        return Ok(NotDispatched(refusals[id]));
      }
      var refusal: Option<Refusal> := None;
      if safetyRefusal {
        refusal := Some(Refusal(Safety, FIXED_RETRY_SECONDS));
      } else if AnyPending(requests) {
        refusal := Some(Refusal(Unresolved, FIXED_RETRY_SECONDS));
      } else {
        var delay := Delay(requests, limits, now);
        if delay > 0 {
          refusal := Some(Refusal(Capacity, Min(delay, MAX_RETRY_SECONDS)));
        }
      }
      if refusal.Some? {
        refusals := refusals[id := refusal.value];
        return Ok(NotDispatched(refusal.value));
      }
      requests := requests + [Request(id, Pending, now, now)];
      events := events + [Event(id, ReservedEvent, now)];
      outcome := Ok(New);
    }

    method MarkAcknowledged(now: int, id: Uuid) returns (outcome: Result<()>)
      modifies this
      ensures (State(), outcome) == Acknowledge(old(State()), now, id)
    {
      var row := Find(requests, id);
      if row.Some? && requests[row.value].status == Pending {
        requests := requests[row.value := requests[row.value].(status := Acknowledged, updatedAt := now)];
        events := events + [Event(id, AcknowledgedEvent, now)];
        return Ok(());
      }
      outcome := if Status(State(), id) == Some(StoredAcknowledged) then Ok(()) else Err;
    }
  }

  // --- What every transaction keeps ----------------------------------------------

  function Ids(rows: seq<Request>): (ids: seq<Uuid>)
    ensures |ids| == |rows|
    ensures forall i | 0 <= i < |rows| :: ids[i] == rows[i].id
  {
    seq(|rows|, i requires 0 <= i < |rows| => rows[i].id)
  }

  /** The identities an audit trail records for one kind of event, in order. */
  function Audited(events: seq<Event>, kind: EventKind): seq<Uuid> {
    if events == [] then []
    else
      var last := events[|events| - 1];
      Audited(events[..|events| - 1], kind) + if last.kind == kind then [last.id] else []
  }

  /** Rows acknowledged so far; only the last row can still be pending. */
  function Settled(rows: seq<Request>): (n: nat)
    ensures n <= |rows|
  {
    if rows != [] && rows[|rows| - 1].status == Pending then |rows| - 1 else |rows|
  }

  ghost predicate Identified(t: Tables) {
    && (forall i, j | 0 <= i < j < |t.requests| :: t.requests[i].id != t.requests[j].id)
    && (forall i | 0 <= i < |t.requests| :: t.requests[i].id !in t.refusals)
    && (forall id | id in t.refusals :: 1 <= t.refusals[id].retryAfterSeconds <= MAX_RETRY_SECONDS)
  }

  /** Admissions are spaced, and any `maxPerHour + 1` of them span more than an hour. */
  ghost predicate Paced(rows: seq<Request>, limits: Limits, now: int) {
    && (forall i | 0 <= i < |rows| :: rows[i].createdAt <= rows[i].updatedAt <= now)
    && (forall i | 0 <= i < |rows| - 1 :: rows[i].status == Acknowledged)
    && (forall i, j | 0 <= i < j < |rows| :: rows[i].updatedAt + limits.minInterval <= rows[j].createdAt)
    && (forall i, j | 0 <= i && i + limits.maxPerHour <= j < |rows| ::
          rows[i].updatedAt + WINDOW_SECONDS < rows[j].createdAt)
  }

  ghost predicate AuditTrail(t: Tables) {
    && Audited(t.events, ReservedEvent) == Ids(t.requests)
    && Audited(t.events, AcknowledgedEvent) == Ids(t.requests)[..Settled(t.requests)]
  }

  ghost predicate Inv(t: Tables, limits: Limits, now: int) {
    Identified(t) && Paced(t.requests, limits, now) && AuditTrail(t)
  }

  /** The rows inside the hour window are a suffix of the table. */
  lemma {:induction false} CountSuffix(rows: seq<Request>, since: int, k: nat)
    requires k <= |rows|
    requires forall i | 0 <= i < k :: rows[i].updatedAt < since
    ensures CountSince(rows, since) <= |rows| - k
  {
    if k < |rows| {
      CountSuffix(rows[..|rows| - 1], since, k);
    } else if k > 0 {
      CountSuffix(rows[..|rows| - 1], since, k - 1);
    }
  }

  ghost predicate SortedByUpdate(rows: seq<Request>) {
    forall i, j | 0 <= i < j < |rows| :: rows[i].updatedAt <= rows[j].updatedAt
  }

  lemma PacedIsSorted(rows: seq<Request>, limits: Limits, now: int)
    requires Paced(rows, limits, now)
    ensures SortedByUpdate(rows)
  {
    forall i, j | 0 <= i < j < |rows| ensures rows[i].updatedAt <= rows[j].updatedAt {
      assert rows[i].updatedAt + limits.minInterval <= rows[j].createdAt;
    }
  }

  lemma {:induction false} LatestIsLast(rows: seq<Request>)
    requires SortedByUpdate(rows)
    ensures LatestUpdate(rows) == if rows == [] then None else Some(rows[|rows| - 1].updatedAt)
  {
    if |rows| > 1 {
      LatestIsLast(rows[..|rows| - 1]);
    }
  }

  /** `k` splits a sorted table into the rows before `since` and the rows in the window. */
  ghost predicate Splits(rows: seq<Request>, since: int, k: int) {
    && 0 <= k <= |rows|
    && (forall i | 0 <= i < k :: rows[i].updatedAt < since)
    && (forall i | k <= i < |rows| :: rows[i].updatedAt >= since)
  }

  /** In a sorted table the count locates the window, and the window's oldest member is its first. */
  lemma {:induction false} WindowSplits(rows: seq<Request>, since: int)
    requires SortedByUpdate(rows)
    ensures Splits(rows, since, |rows| - CountSince(rows, since))
  {
    if rows != [] {
      var front := rows[..|rows| - 1];
      WindowSplits(front, since);
      if rows[|rows| - 1].updatedAt < since {
        CountSuffix(front, since, |front|);
      }
    }
  }

  lemma {:induction false} EarliestIsFirst(rows: seq<Request>, since: int, k: int)
    requires SortedByUpdate(rows) && Splits(rows, since, k)
    ensures EarliestSince(rows, since) == if k < |rows| then Some(rows[k].updatedAt) else None
  {
    if rows != [] {
      var front := rows[..|rows| - 1];
      EarliestIsFirst(front, since, Min(k, |front|));
    }
  }

  /** Acknowledgement moves `updated_at` forward, yet the window never exceeds the cap. */
  lemma WindowWithinCap(rows: seq<Request>, limits: Limits, now: int)
    requires Paced(rows, limits, now)
    ensures CountSince(rows, now - WINDOW_SECONDS) <= limits.maxPerHour
  {
    var k := Max(0, |rows| - limits.maxPerHour);
    if |rows| > limits.maxPerHour {
      var last := rows[|rows| - 1];
      assert last.createdAt <= now;
      forall i | 0 <= i < k ensures rows[i].updatedAt < now - WINDOW_SECONDS {
        assert rows[i].updatedAt + WINDOW_SECONDS < last.createdAt;
      }
    }
    CountSuffix(rows, now - WINDOW_SECONDS, k);
  }

  lemma BeginKeepsInv(t: Tables, before: int, now: int, id: Uuid, limits: Limits, safetyRefusal: bool)
    requires Inv(t, limits, before) && before <= now
    ensures Inv(Begin(t, now, id, limits, safetyRefusal).0, limits, now)
  {
    BeginKeepsIdentity(t, now, id, limits, safetyRefusal);
    BeginKeepsPace(t, before, now, id, limits, safetyRefusal);
    BeginKeepsAudit(t, now, id, limits, safetyRefusal);
  }

  /** A request is admitted exactly when nothing refuses it, and otherwise the table stays. */
  lemma BeginAdmits(t: Tables, now: int, id: Uuid, limits: Limits, safetyRefusal: bool)
    ensures var (u, outcome) := Begin(t, now, id, limits, safetyRefusal);
            if outcome == Ok(New) then
              && Safe(limits) && RefusalFor(t.requests, limits, now, false) == None
              && u.requests == t.requests + [Request(id, Pending, now, now)]
            else u.requests == t.requests
  {
  }

  lemma BeginKeepsPace(t: Tables, before: int, now: int, id: Uuid, limits: Limits, safetyRefusal: bool)
    requires Paced(t.requests, limits, before) && before <= now
    ensures Paced(Begin(t, now, id, limits, safetyRefusal).0.requests, limits, now)
  {
    BeginAdmits(t, now, id, limits, safetyRefusal);
    if Begin(t, now, id, limits, safetyRefusal).1 == Ok(New) {
      AdmissionKeepsPace(t.requests, before, now, id, limits);
    } else {
      PaceKeeps(t.requests, limits, before, now);
    }
  }

  lemma BeginKeepsAudit(t: Tables, now: int, id: Uuid, limits: Limits, safetyRefusal: bool)
    requires AuditTrail(t)
    ensures AuditTrail(Begin(t, now, id, limits, safetyRefusal).0)
  {
    if Begin(t, now, id, limits, safetyRefusal).1 == Ok(New) {
      AdmissionKeepsAudit(t, now, id);
    }
  }

  lemma BeginKeepsIdentity(t: Tables, now: int, id: Uuid, limits: Limits, safetyRefusal: bool)
    requires Identified(t)
    ensures Identified(Begin(t, now, id, limits, safetyRefusal).0)
  {
  }

  /** What an admission proves about the rows before it. */
  lemma AdmissionFacts(rows: seq<Request>, before: int, now: int, limits: Limits)
    requires Paced(rows, limits, before) && before <= now && Safe(limits)
    requires RefusalFor(rows, limits, now, false) == None
    ensures forall i | 0 <= i < |rows| ::
              rows[i].status == Acknowledged && rows[i].updatedAt + limits.minInterval <= now
    ensures forall i | 0 <= i && i + limits.maxPerHour <= |rows| && i < |rows| ::
              rows[i].updatedAt + WINDOW_SECONDS < now
  {
    PacedIsSorted(rows, limits, before);
    LatestIsLast(rows);
    var since := now - WINDOW_SECONDS;
    WindowSplits(rows, since);
    EarliestIsFirst(rows, since, |rows| - CountSince(rows, since));
  }

  lemma AdmissionKeepsPace(rows: seq<Request>, before: int, now: int, id: Uuid, limits: Limits)
    requires Paced(rows, limits, before) && before <= now && Safe(limits)
    requires RefusalFor(rows, limits, now, false) == None
    ensures Paced(rows + [Request(id, Pending, now, now)], limits, now)
  {
    AdmissionFacts(rows, before, now, limits);
  }

  lemma AdmissionKeepsAudit(t: Tables, now: int, id: Uuid)
    requires AuditTrail(t) && !AnyPending(t.requests)
    ensures AuditTrail(t.(requests := t.requests + [Request(id, Pending, now, now)],
                          events := t.events + [Event(id, ReservedEvent, now)]))
  {
    var rows := t.requests + [Request(id, Pending, now, now)];
    AuditedGrows(t.events, Event(id, ReservedEvent, now), ReservedEvent);
    AuditedGrows(t.events, Event(id, ReservedEvent, now), AcknowledgedEvent);
    assert Ids(rows) == Ids(t.requests) + [id];
    assert Settled(t.requests) == |t.requests| == Settled(rows);
    assert Ids(rows)[..|t.requests|] == Ids(t.requests)[..|t.requests|];
  }

  lemma AuditedGrows(events: seq<Event>, event: Event, kind: EventKind)
    ensures Audited(events + [event], kind) == Audited(events, kind) + if event.kind == kind then [event.id] else []
  {
    assert (events + [event])[..|events|] == events;
  }

  lemma AcknowledgeKeepsAudit(t: Tables, now: int, id: Uuid, limits: Limits)
    requires AuditTrail(t) && Paced(t.requests, limits, now)
    ensures AuditTrail(Acknowledge(t, now, id).0)
  {
    var u := Acknowledge(t, now, id).0;
    if u != t {
      var i := Find(t.requests, id).value;
      assert i == |t.requests| - 1;
      AuditedGrows(t.events, Event(id, AcknowledgedEvent, now), ReservedEvent);
      AuditedGrows(t.events, Event(id, AcknowledgedEvent, now), AcknowledgedEvent);
      LastSettles(t.requests, now);
    }
  }

  /** Acknowledging the last row moves no identity and settles it. */
  lemma LastSettles(rows: seq<Request>, now: int)
    requires rows != [] && rows[|rows| - 1].status == Pending
    ensures var last := |rows| - 1;
            var after := rows[last := rows[last].(status := Acknowledged, updatedAt := now)];
            && Ids(after) == Ids(rows)
            && Ids(after)[..Settled(after)] == Ids(rows)[..Settled(rows)] + [rows[last].id]
  {
    var last := |rows| - 1;
    var after := rows[last := rows[last].(status := Acknowledged, updatedAt := now)];
    assert Ids(after) == Ids(rows);
    assert Settled(after) == last + 1 && Settled(rows) == last;
  }

  /** Settling the last row keeps the pace: no later row was admitted yet. */
  lemma LastKeepsPace(rows: seq<Request>, before: int, now: int, limits: Limits)
    requires Paced(rows, limits, before) && before <= now && rows != []
    ensures var last := |rows| - 1;
            Paced(rows[last := rows[last].(status := Acknowledged, updatedAt := now)], limits, now)
  {
  }

  lemma AcknowledgeKeepsPace(t: Tables, before: int, now: int, id: Uuid, limits: Limits)
    requires Paced(t.requests, limits, before) && before <= now
    ensures Paced(Acknowledge(t, now, id).0.requests, limits, now)
  {
    if Acknowledge(t, now, id).0 != t {
      assert Find(t.requests, id).value == |t.requests| - 1;
      LastKeepsPace(t.requests, before, now, limits);
    }
  }

  lemma AcknowledgeKeepsIdentified(t: Tables, now: int, id: Uuid)
    requires Identified(t)
    ensures Identified(Acknowledge(t, now, id).0)
  {
  }

  lemma AcknowledgeKeepsInv(t: Tables, before: int, now: int, id: Uuid, limits: Limits)
    requires Inv(t, limits, before) && before <= now
    ensures Inv(Acknowledge(t, now, id).0, limits, now)
  {
    AcknowledgeKeepsIdentified(t, now, id);
    AcknowledgeKeepsPace(t, before, now, id, limits);
    AcknowledgeKeepsAudit(t, now, id, limits);
  }

  // --- Whole runs ----------------------------------------------------------------

  datatype Call = BeginCall(id: Uuid, safetyRefusal: bool) | AcknowledgeCall(id: Uuid)

  datatype TimedCall = TimedCall(at: int, call: Call)

  function Apply(t: Tables, limits: Limits, c: TimedCall): Tables {
    match c.call
    case BeginCall(id, safetyRefusal) => Begin(t, c.at, id, limits, safetyRefusal).0
    case AcknowledgeCall(id) => Acknowledge(t, c.at, id).0
  }

  function Run(t: Tables, limits: Limits, calls: seq<TimedCall>): Tables {
    if calls == [] then t
    else Apply(Run(t, limits, calls[..|calls| - 1]), limits, calls[|calls| - 1])
  }

  ghost predicate Monotone(calls: seq<TimedCall>) {
    forall i, j | 0 <= i < j < |calls| :: calls[i].at <= calls[j].at
  }

  lemma ApplyKeepsInv(t: Tables, limits: Limits, c: TimedCall, now: int)
    requires Inv(t, limits, c.at) && c.at <= now
    ensures Inv(Apply(t, limits, c), limits, now)
  {
    match c.call
    case BeginCall(id, safetyRefusal) =>
      BeginKeepsInv(t, c.at, c.at, id, limits, safetyRefusal);
      PaceKeeps(Apply(t, limits, c).requests, limits, c.at, now);
    case AcknowledgeCall(id) =>
      AcknowledgeKeepsInv(t, c.at, c.at, id, limits);
      PaceKeeps(Apply(t, limits, c).requests, limits, c.at, now);
  }

  lemma PaceKeeps(rows: seq<Request>, limits: Limits, before: int, now: int)
    requires Paced(rows, limits, before) && before <= now
    ensures Paced(rows, limits, now)
  {
  }

  lemma {:induction false} RunKeepsInv(limits: Limits, calls: seq<TimedCall>, now: int)
    requires Monotone(calls)
    requires calls != [] ==> calls[|calls| - 1].at <= now
    ensures Inv(Run(EMPTY, limits, calls), limits, now)
  {
    if calls != [] {
      var front, last := calls[..|calls| - 1], calls[|calls| - 1];
      RunKeepsInv(limits, front, last.at);
      ApplyKeepsInv(Run(EMPTY, limits, front), limits, last, now);
    }
  }

  /** Admissions whose `created_at` lies in `[lo, hi]`. */
  function AdmittedIn(rows: seq<Request>, lo: int, hi: int): nat {
    if rows == [] then 0
    else AdmittedIn(rows[..|rows| - 1], lo, hi) + if lo <= rows[|rows| - 1].createdAt <= hi then 1 else 0
  }

  ghost function AdmittedRows(rows: seq<Request>, lo: int, hi: int): set<nat> {
    set i: nat | i < |rows| && lo <= rows[i].createdAt <= hi
  }

  lemma AdmittedGrows(rows: seq<Request>, last: Request, lo: int, hi: int)
    ensures AdmittedRows(rows + [last], lo, hi)
            == AdmittedRows(rows, lo, hi) + (if lo <= last.createdAt <= hi then {|rows|} else {})
  {
  }

  lemma {:induction false} AdmittedIsCardinality(rows: seq<Request>, lo: int, hi: int)
    ensures AdmittedIn(rows, lo, hi) == |AdmittedRows(rows, lo, hi)|
  {
    if rows != [] {
      var front, last := rows[..|rows| - 1], rows[|rows| - 1];
      AdmittedIsCardinality(front, lo, hi);
      AdmittedGrows(front, last, lo, hi);
      assert front + [last] == rows;
    }
  }

  lemma {:induction false} AdmittedSuffix(rows: seq<Request>, lo: int, hi: int, k: nat)
    requires k <= |rows|
    requires forall i | 0 <= i < k :: rows[i].createdAt < lo
    ensures AdmittedIn(rows, lo, hi) <= |rows| - k
  {
    if k < |rows| {
      AdmittedSuffix(rows[..|rows| - 1], lo, hi, k);
    } else if k > 0 {
      AdmittedSuffix(rows[..|rows| - 1], lo, hi, k - 1);
    }
  }

  lemma {:induction false} PacedBoundsAdmissions(rows: seq<Request>, limits: Limits, now: int, lo: int)
    requires Paced(rows, limits, now)
    ensures AdmittedIn(rows, lo, lo + WINDOW_SECONDS) <= limits.maxPerHour
  {
    if rows != [] {
      var last := rows[|rows| - 1];
      if last.createdAt > lo + WINDOW_SECONDS {
        PacedBoundsAdmissions(rows[..|rows| - 1], limits, now, lo);
      } else {
        var k := Max(0, |rows| - limits.maxPerHour);
        forall i | 0 <= i < k ensures rows[i].createdAt < lo {
          assert rows[i].updatedAt + WINDOW_SECONDS < rows[|rows| - 1].createdAt;
        }
        AdmittedSuffix(rows, lo, lo + WINDOW_SECONDS, k);
      }
    }
  }

  /**
   From an empty store under a monotone clock: no hour holds more than `maxPerHour` admissions,
   successive admissions are `minInterval` apart, and at most one row is pending.
   */
  lemma {:induction false} AdmissionsAreBounded(limits: Limits, calls: seq<TimedCall>, lo: int)
    requires Monotone(calls)
    ensures var rows := Run(EMPTY, limits, calls).requests;
            && AdmittedIn(rows, lo, lo + WINDOW_SECONDS) <= limits.maxPerHour
            && (forall i, j | 0 <= i < j < |rows| :: rows[i].createdAt + limits.minInterval <= rows[j].createdAt)
            && (forall i | 0 <= i < |rows| - 1 :: rows[i].status == Acknowledged)
  {
    var now := if calls == [] then 0 else calls[|calls| - 1].at;
    RunKeepsInv(limits, calls, now);
    var rows := Run(EMPTY, limits, calls).requests;
    PacedBoundsAdmissions(rows, limits, now, lo);
    forall i, j | 0 <= i < j < |rows| ensures rows[i].createdAt + limits.minInterval <= rows[j].createdAt {
      assert rows[i].updatedAt + limits.minInterval <= rows[j].createdAt;
    }
  }

  // --- The retry hint ------------------------------------------------------------

  /** While a paced table is unchanged, its delay counts down second by second and never restarts. */
  lemma DelayCountsDown(rows: seq<Request>, limits: Limits, now: int, later: int)
    requires Paced(rows, limits, now) && Safe(limits) && now <= later
    requires Delay(rows, limits, now) > 0
    ensures Delay(rows, limits, later) == Max(0, Delay(rows, limits, now) - (later - now))
  {
    PacedIsSorted(rows, limits, now);
    LatestIsLast(rows);
    WindowCountsDown(rows, limits, now, later);
  }

  lemma WindowCountsDown(rows: seq<Request>, limits: Limits, now: int, later: int)
    requires Paced(rows, limits, now) && limits.maxPerHour >= 1 && now <= later
    ensures Max(0, WindowDelay(rows, limits.maxPerHour, later))
            == Max(0, WindowDelay(rows, limits.maxPerHour, now) - (later - now))
  {
    PacedIsSorted(rows, limits, now);
    WindowWithinCap(rows, limits, now);
    var since, next := now - WINDOW_SECONDS, later - WINDOW_SECONDS;
    var k, m := |rows| - CountSince(rows, since), |rows| - CountSince(rows, next);
    WindowSplits(rows, since);
    WindowSplits(rows, next);
    EarliestIsFirst(rows, since, k);
    EarliestIsFirst(rows, next, m);
    assert k <= m;
  }

  lemma DelayWithinDay(rows: seq<Request>, limits: Limits, now: int)
    requires Paced(rows, limits, now) && limits.minInterval <= MAX_RETRY_SECONDS
    ensures Delay(rows, limits, now) <= MAX_RETRY_SECONDS
  {
    PacedIsSorted(rows, limits, now);
    LatestIsLast(rows);
    var since := now - WINDOW_SECONDS;
    WindowSplits(rows, since);
    EarliestIsFirst(rows, since, |rows| - CountSince(rows, since));
  }

  /** Calls from one moment on and before another. */
  predicate Between(calls: seq<TimedCall>, lo: int, hi: int) {
    forall c | c in calls :: lo <= c.at < hi
  }

  /** While a capacity delay runs, no call admits or acknowledges anything: only tombstones are added. */
  lemma CallIsRefused(t: Tables, u: Tables, limits: Limits, now: int, c: TimedCall)
    requires Paced(t.requests, limits, now) && Safe(limits) && !AnyPending(t.requests)
    requires now <= c.at < now + Delay(t.requests, limits, now)
    requires u.requests == t.requests
    ensures Apply(u, limits, c).requests == t.requests
  {
    DelayCountsDown(t.requests, limits, now, c.at);
  }

  /** So nothing that happens before the delay has run out changes the request table. */
  lemma {:induction false} CallsAreRefused(t: Tables, limits: Limits, now: int, calls: seq<TimedCall>)
    requires Paced(t.requests, limits, now) && Safe(limits) && !AnyPending(t.requests)
    requires Between(calls, now, now + Delay(t.requests, limits, now))
    ensures Run(t, limits, calls).requests == t.requests
  {
    if calls != [] {
      var front := calls[..|calls| - 1];
      CallsAreRefused(t, limits, now, front);
      CallIsRefused(t, Run(t, limits, front), limits, now, calls[|calls| - 1]);
    }
  }

  /** Refused for capacity with a wait of `wait` seconds, cut to a day. */
  predicate RefusedFor(outcome: Result<BeginOutcome>, wait: int) {
    outcome == Ok(NotDispatched(Refusal(Capacity, Max(0, Min(wait, MAX_RETRY_SECONDS)))))
  }

  /** What the refusal itself says: nothing is pending, and the hint is the delay cut to a day. */
  lemma HintIsDelay(t: Tables, limits: Limits, now: int, id: Uuid, d: nat)
    requires Status(t, id).None?
    requires Begin(t, now, id, limits, false).1 == Ok(NotDispatched(Refusal(Capacity, d)))
    ensures Safe(limits) && !AnyPending(t.requests)
    ensures 0 < d == Min(Delay(t.requests, limits, now), MAX_RETRY_SECONDS)
    ensures Begin(t, now, id, limits, false).0.requests == t.requests
  {
  }

  lemma FreshAfter(u: Tables, rows: seq<Request>, limits: Limits, now: int, later: int, other: Uuid)
    requires u.requests == rows && Status(u, other).None? && Safe(limits) && !AnyPending(rows)
    requires Paced(rows, limits, now) && now <= later && Delay(rows, limits, now) > 0
    ensures later < now + Delay(rows, limits, now) ==>
              RefusedFor(Begin(u, later, other, limits, false).1, now + Delay(rows, limits, now) - later)
    ensures later >= now + Delay(rows, limits, now) ==> Begin(u, later, other, limits, false).1 == Ok(New)
  {
    DelayCountsDown(rows, limits, now, later);
  }

  /**
   A capacity refusal's hint `d` is exact. Whatever calls arrive before the hinted second, nothing is
   admitted; a fresh identity among them is refused for capacity with the wait that is left. At the
   hinted second one is admitted if and only if the wait was not cut to a day, which the gateway's own
   limits guarantee.
   */
  lemma {:induction false} RetryHintIsExact(
      t: Tables, limits: Limits, now: int, id: Uuid, d: nat, calls: seq<TimedCall>, later: int, other: Uuid)
    requires Inv(t, limits, now) && Status(t, id).None?
    requires Begin(t, now, id, limits, false).1 == Ok(NotDispatched(Refusal(Capacity, d)))
    requires Between(calls, now, now + d)
    requires Status(Run(Begin(t, now, id, limits, false).0, limits, calls), other).None? && now <= later
    ensures var u := Run(Begin(t, now, id, limits, false).0, limits, calls);
            && u.requests == t.requests
            && (later < now + d ==>
                  RefusedFor(Begin(u, later, other, limits, false).1, now + Delay(t.requests, limits, now) - later))
            && (Begin(u, now + d, other, limits, false).1 == Ok(New) <==>
                  Delay(t.requests, limits, now) <= MAX_RETRY_SECONDS)
    ensures limits.minInterval <= MAX_RETRY_SECONDS ==> Delay(t.requests, limits, now) <= MAX_RETRY_SECONDS
  {
    var refused := Begin(t, now, id, limits, false).0;
    HintIsDelay(t, limits, now, id, d);
    CallsAreRefused(refused, limits, now, calls);
    var u := Run(refused, limits, calls);
    FreshAfter(u, t.requests, limits, now, later, other);
    FreshAfter(u, t.requests, limits, now, now + d, other);
    if limits.minInterval <= MAX_RETRY_SECONDS {
      DelayWithinDay(t.requests, limits, now);
    }
  }

  const SLOW: Limits := Limits(100_000, 1)

  const SLOW_CALLS: seq<TimedCall> := [TimedCall(0, BeginCall(1, false)), TimedCall(1, AcknowledgeCall(1))]

  lemma SlowRun()
    ensures Run(EMPTY, SLOW, SLOW_CALLS).requests == [Request(1, Acknowledged, 0, 1)]
    ensures Run(EMPTY, SLOW, SLOW_CALLS).refusals == map[]
  {
    var first := SLOW_CALLS[..1];
    assert first[..0] == [] && SLOW_CALLS[..1] == first;
    assert Run(EMPTY, SLOW, first) == Begin(EMPTY, 0, 1, SLOW, false).0;
    assert Run(EMPTY, SLOW, first).requests == [Request(1, Pending, 0, 0)];
    assert Run(EMPTY, SLOW, SLOW_CALLS) == Acknowledge(Run(EMPTY, SLOW, first), 1, 1).0;
  }

  lemma SlowDelay(now: int)
    requires 2 <= now <= 100_001
    ensures Delay([Request(1, Acknowledged, 0, 1)], SLOW, now) == 100_001 - now
  {
    var rows := [Request(1, Acknowledged, 0, 1)];
    assert rows[..|rows| - 1] == [];
    assert LatestUpdate(rows) == Some(1);
    var since := now - WINDOW_SECONDS;
    assert EarliestSince(rows, since) == if 1 < since then None else Some(1);
    assert IntervalDelay(rows, SLOW.minInterval, now) == 100_001 - now;
    assert WindowDelay(rows, SLOW.maxPerHour, now) <= 100_001 - now;
  }

  lemma SlowIsMonotone()
    ensures Monotone(SLOW_CALLS)
  {
  }

  lemma SlowIsClamped(t: Tables)
    requires t.requests == [Request(1, Acknowledged, 0, 1)] && t.refusals == map[]
    ensures Begin(t, 2, 2, SLOW, false)
            == (t.(refusals := map[2 := Refusal(Capacity, 86_400)]), Ok(NotDispatched(Refusal(Capacity, 86_400))))
  {
    SlowDelay(2);
    assert t.refusals[2 := Refusal(Capacity, 86_400)] == map[2 := Refusal(Capacity, 86_400)];
  }

  lemma SlowIsRefusedAgain(t: Tables)
    requires t.requests == [Request(1, Acknowledged, 0, 1)] && 3 !in t.refusals
    ensures RefusedFor(Begin(t, 2 + 86_400, 3, SLOW, false).1, 13_599)
  {
    SlowDelay(2 + 86_400);
  }

  /**
   The condition can fail: under an interval of more than a day, the hint of a reachable refusal is one
   day, and a fresh identity at that moment is refused again.
   */
  lemma ClampedHintIsRefusedAgain()
    ensures Monotone(SLOW_CALLS)
    ensures var t := Run(EMPTY, SLOW, SLOW_CALLS);
            && Begin(t, 2, 2, SLOW, false).1 == Ok(NotDispatched(Refusal(Capacity, 86_400)))
            && RefusedFor(Begin(Begin(t, 2, 2, SLOW, false).0, 2 + 86_400, 3, SLOW, false).1, 13_599)
  {
    SlowIsMonotone();
    SlowRun();
    SlowIsClamped(Run(EMPTY, SLOW, SLOW_CALLS));
    SlowIsRefusedAgain(Begin(Run(EMPTY, SLOW, SLOW_CALLS), 2, 2, SLOW, false).0);
  }
}
