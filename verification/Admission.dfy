/**
 Shared admission of public invoice creation (src/ledger/admission.rs) and its use around one Strike
 request (src/strike.rs `create_and_record_receive_request`).

 Each SQL statement reads the clock itself. A reservation lives 30 seconds by the schema
 (migrations/0008_invoice_admission.sql).
 */
module Admission {
  import opened Wrappers

  const RECENT: nat := 60
  const MAX_RECENT: nat := 30
  const MAX_ACTIVE: nat := 4
  const LEASE: nat := 30
  const DAY: nat := 86_400
  const MAX_DAILY: nat := 10_000

  datatype Reservation = Reservation(createdAt: int, expiresAt: int, finished: bool)

  type Admissions = map<Uuid, Reservation>

  /** `strike_receive_requests.created_at` by request. */
  type Issued = map<Uuid, int>

  /** The clock at the statements of one transaction. */
  datatype Times = Times(prune: int, recent: int, active: int, issued: int, insert: int)

  predicate Flowing(t: Times) { t.prune <= t.recent <= t.active <= t.issued <= t.insert }

  // --- Operations ------------------------------------------------------------------

  predicate Dead(r: Reservation, now: int) { r.createdAt <= now - RECENT && (r.finished || r.expiresAt <= now) }

  predicate Live(r: Reservation, now: int) { !r.finished && r.expiresAt > now }

  function Prune(a: Admissions, now: int): Admissions { map id | id in a && !Dead(a[id], now) :: a[id] }

  function Started(a: Admissions, now: int): set<Uuid> { set id | id in a && a[id].createdAt > now - RECENT }

  function Active(a: Admissions, now: int): set<Uuid> { set id | id in a && Live(a[id], now) }

  function IssuedSince(issued: Issued, now: int): set<Uuid> { set r | r in issued && issued[r] > now - DAY }

  predicate Admits(a: Admissions, issued: Issued, t: Times) {
    && |Started(a, t.recent)| < MAX_RECENT
    && |Active(a, t.active)| < MAX_ACTIVE
    && |IssuedSince(issued, t.issued)| + |Active(a, t.active)| < MAX_DAILY
  }

  function Insert(a: Admissions, id: Uuid, now: int): Admissions { a[id := Reservation(now, now + LEASE, false)] }

  function Finish(a: Admissions, id: Uuid): Admissions {
    if id in a then a[id := a[id].(finished := true)] else a
  }

  /** `record_strike_receive_request`: repeating a recorded request changes nothing. */
  function Record(issued: Issued, request: Uuid, now: int): Issued {
    if request in issued then issued else issued[request := now]
  }

  class Store {
    var admissions: Admissions
    var issued: Issued

    constructor ()
      ensures admissions == map[] && issued == map[]
    {
      admissions, issued := map[], map[];
    }

    /** `id` is the identity `Uuid::new_v4()` returns; `None` is a full house. */
    method ReserveInvoice(t: Times, id: Uuid) returns (r: Option<Uuid>)
      requires id !in admissions
      modifies this`admissions
      ensures var kept := Prune(old(admissions), t.prune);
              && r == (if Admits(kept, issued, t) then Some(id) else None)
              && admissions == (if r.Some? then Insert(kept, id, t.insert) else kept)
    {
      admissions := map key | key in admissions && !Dead(admissions[key], t.prune) :: admissions[key];
      var recent, active := |Started(admissions, t.recent)|, |Active(admissions, t.active)|;
      var recentlyIssued := |IssuedSince(issued, t.issued)|;
      if recent >= MAX_RECENT || active >= MAX_ACTIVE || recentlyIssued + active >= MAX_DAILY {
        return None;
      }
      admissions := admissions[id := Reservation(t.insert, t.insert + LEASE, false)];
      r := Some(id);
    }

    method FinishInvoiceAdmission(id: Uuid)
      modifies this`admissions
      ensures admissions == Finish(old(admissions), id)
    {
      if id in admissions {
        admissions := admissions[id := admissions[id].(finished := true)];
      }
    }

    method RecordStrikeReceiveRequest(now: int, request: Uuid)
      modifies this`issued
      ensures issued == Record(old(issued), request, now)
    {
      if request !in issued {
        issued := issued[request := now];
      }
    }
  }

  // --- Runs, with and without pruning ------------------------------------------------

  datatype State = State(admissions: Admissions, issued: Issued, decisions: seq<bool>)

  const EMPTY: State := State(map[], map[], [])

  datatype Op =
    | Reserve(t: Times, id: Uuid)
    | Release(now: int, id: Uuid)
    | Issue(now: int, reservation: Uuid, request: Uuid)

  function Apply(s: State, op: Op, pruning: bool): State {
    match op
    case Reserve(t, id) =>
      var kept := if pruning then Prune(s.admissions, t.prune) else s.admissions;
      var admitted := Admits(kept, s.issued, t);
      State(if admitted then Insert(kept, id, t.insert) else kept, s.issued, s.decisions + [admitted])
    case Release(_, id) => s.(admissions := Finish(s.admissions, id))
    case Issue(now, _, request) => s.(issued := Record(s.issued, request, now))
  }

  function Run(ops: seq<Op>, pruning: bool): State {
    if ops == [] then EMPTY else Apply(Run(ops[..|ops| - 1], pruning), ops[|ops| - 1], pruning)
  }

  function StartOf(op: Op): int {
    match op case Reserve(t, _) => t.prune case Release(now, _) => now case Issue(now, _, _) => now
  }

  function EndOf(op: Op): int { if op.Reserve? then op.t.insert else StartOf(op) }

  function Clock(ops: seq<Op>): int
    requires ops != []
  {
    EndOf(ops[|ops| - 1])
  }

  /** A monotone clock and new identities. */
  predicate Timely(ops: seq<Op>) {
    ops == [] ||
    var front, op := ops[..|ops| - 1], ops[|ops| - 1];
    && Timely(front)
    && (front != [] ==> Clock(front) <= StartOf(op))
    && (op.Reserve? ==> Flowing(op.t) && op.id !in Run(front, false).admissions)
  }

  // --- Pruning is invisible ----------------------------------------------------------

  /** The pruned table lacks only rows that no later query can count. */
  ghost predicate PrunedFrom(pruned: Admissions, full: Admissions, clock: int) {
    && (forall id | id in pruned :: id in full && pruned[id] == full[id])
    && (forall id | id in full && id !in pruned :: Dead(full[id], clock))
  }

  lemma CountsAgree(pruned: Admissions, full: Admissions, clock: int, now: int)
    requires PrunedFrom(pruned, full, clock) && clock <= now
    ensures Started(pruned, now) == Started(full, now) && Active(pruned, now) == Active(full, now)
  {
  }

  lemma {:induction false} PruningRuns(ops: seq<Op>)
    requires Timely(ops)
    ensures ops != [] ==> PrunedFrom(Run(ops, true).admissions, Run(ops, false).admissions, Clock(ops))
    ensures Run(ops, true).issued == Run(ops, false).issued
    ensures Run(ops, true).decisions == Run(ops, false).decisions
  {
    if ops != [] {
      var front, op := ops[..|ops| - 1], ops[|ops| - 1];
      PruningRuns(front);
      if op.Reserve? {
        var pruned, full := Run(front, true).admissions, Run(front, false).admissions;
        assert PrunedFrom(Prune(pruned, op.t.prune), full, op.t.prune);
        CountsAgree(Prune(pruned, op.t.prune), full, op.t.prune, op.t.recent);
        CountsAgree(Prune(pruned, op.t.prune), full, op.t.prune, op.t.active);
      }
    }
  }

  /** Admission on the pruned table decides, on every run, exactly as on the table that keeps everything. */
  lemma {:induction false} PruningIsInvisible(ops: seq<Op>)
    requires Timely(ops)
    ensures Run(ops, true).decisions == Run(ops, false).decisions
  {
    PruningRuns(ops);
  }

  // --- Bounds --------------------------------------------------------------------------

  lemma {:induction false} SubsetSize<T>(a: set<T>, b: set<T>)
    requires a <= b
    ensures |a| <= |b|
  {
    if x :| x in a {
      SubsetSize(a - {x}, b - {x});
    }
  }

  lemma GrownSize<T>(a: set<T>, b: set<T>, x: T)
    requires a <= b + {x}
    ensures |a| <= |b| + 1
  {
    SubsetSize(a, b + {x});
    assert |b + {x}| <= |b| + 1;
  }

  /** Reservations started in the `RECENT` seconds up to `end`. */
  function StartedIn(a: Admissions, end: int): set<Uuid> {
    set id | id in a && end - RECENT < a[id].createdAt <= end
  }

  function IssuedIn(issued: Issued, end: int): set<Uuid> {
    set r | r in issued && end - DAY < issued[r] <= end
  }

  /** Reservations that may still issue. */
  function Unused(a: Admissions, used: set<Uuid>, now: int): set<Uuid> { Active(a, now) - used }

  function Used(ops: seq<Op>): set<Uuid> { set op | op in ops && op.Issue? :: op.reservation }

  /** Every reservation issues at most once, while it is live. */
  predicate Reserved(ops: seq<Op>) {
    ops == [] ||
    var front, op := ops[..|ops| - 1], ops[|ops| - 1];
    && Reserved(front)
    && (op.Issue? ==>
          var s := Run(front, false);
          && op.reservation in s.admissions && Live(s.admissions[op.reservation], op.now)
          && op.reservation !in Used(front))
  }

  ghost predicate StartsBounded(a: Admissions) { forall end :: |StartedIn(a, end)| <= MAX_RECENT }

  ghost predicate IssuesBounded(issued: Issued) { forall end :: |IssuedIn(issued, end)| <= MAX_DAILY }

  predicate Past(a: Admissions, issued: Issued, clock: int) {
    && (forall id | id in a :: a[id].createdAt <= clock)
    && (forall r | r in issued :: issued[r] <= clock)
  }

  /** Issued within the day or still able to issue. */
  predicate LoadBounded(a: Admissions, issued: Issued, used: set<Uuid>, clock: int) {
    && |Active(a, clock)| <= MAX_ACTIVE
    && |IssuedSince(issued, clock)| + |Unused(a, used, clock)| <= MAX_DAILY
  }

  ghost predicate Bounded(s: State, used: set<Uuid>, clock: int) {
    && StartsBounded(s.admissions) && IssuesBounded(s.issued)
    && Past(s.admissions, s.issued, clock) && LoadBounded(s.admissions, s.issued, used, clock)
  }

  lemma TimePasses(s: State, used: set<Uuid>, clock: int, now: int)
    requires Bounded(s, used, clock) && clock <= now
    ensures Bounded(s, used, now)
  {
    SubsetSize(Active(s.admissions, now), Active(s.admissions, clock));
    SubsetSize(IssuedSince(s.issued, now), IssuedSince(s.issued, clock));
    SubsetSize(Unused(s.admissions, used, now), Unused(s.admissions, used, clock));
  }

  lemma InsertStarts(a: Admissions, id: Uuid, t: Times)
    requires |Started(a, t.recent)| < MAX_RECENT && StartsBounded(a) && Flowing(t) && id !in a
    ensures StartsBounded(Insert(a, id, t.insert))
  {
    var after := Insert(a, id, t.insert);
    forall end ensures |StartedIn(after, end)| <= MAX_RECENT {
      if end < t.insert {
        assert StartedIn(after, end) == StartedIn(a, end);
        assert |StartedIn(a, end)| <= MAX_RECENT;
      } else {
        GrownSize(StartedIn(after, end), Started(a, t.recent), id);
      }
    }
  }

  lemma InsertLoads(a: Admissions, issued: Issued, used: set<Uuid>, id: Uuid, t: Times)
    requires Flowing(t) && Admits(a, issued, t)
    ensures LoadBounded(Insert(a, id, t.insert), issued, used, t.insert)
  {
    var after := Insert(a, id, t.insert);
    GrownSize(Active(after, t.insert), Active(a, t.active), id);
    GrownSize(Unused(after, used, t.insert), Active(a, t.active), id);
    SubsetSize(IssuedSince(issued, t.insert), IssuedSince(issued, t.issued));
  }

  lemma ReserveBounded(s: State, used: set<Uuid>, t: Times, id: Uuid)
    requires Bounded(s, used, t.prune) && Flowing(t) && id !in s.admissions
    ensures Bounded(Apply(s, Reserve(t, id), false), used, t.insert)
  {
    TimePasses(s, used, t.prune, t.insert);
    if Admits(s.admissions, s.issued, t) {
      InsertStarts(s.admissions, id, t);
      InsertLoads(s.admissions, s.issued, used, id, t);
    }
  }

  lemma ReleaseKeepsStarts(a: Admissions, id: Uuid)
    requires StartsBounded(a)
    ensures StartsBounded(Finish(a, id))
  {
    forall end ensures |StartedIn(Finish(a, id), end)| <= MAX_RECENT {
      assert StartedIn(Finish(a, id), end) == StartedIn(a, end);
      assert |StartedIn(a, end)| <= MAX_RECENT;
    }
  }

  lemma ReleaseBounded(s: State, used: set<Uuid>, now: int, id: Uuid)
    requires Bounded(s, used, now)
    ensures Bounded(Apply(s, Release(now, id), false), used, now)
  {
    ReleaseKeepsStarts(s.admissions, id);
    SubsetSize(Active(Finish(s.admissions, id), now), Active(s.admissions, now));
    SubsetSize(Unused(Finish(s.admissions, id), used, now), Unused(s.admissions, used, now));
  }

  lemma IssueBounded(s: State, used: set<Uuid>, now: int, reservation: Uuid, request: Uuid)
    requires Bounded(s, used, now) && reservation in s.admissions && Live(s.admissions[reservation], now)
    requires reservation !in used
    ensures Bounded(Apply(s, Issue(now, reservation, request), false), used + {reservation}, now)
  {
    var issued := Record(s.issued, request, now);
    assert reservation in Unused(s.admissions, used, now);
    assert Unused(s.admissions, used + {reservation}, now) == Unused(s.admissions, used, now) - {reservation};
    GrownSize(IssuedSince(issued, now), IssuedSince(s.issued, now), request);
    forall end ensures |IssuedIn(issued, end)| <= MAX_DAILY {
      if end < now {
        assert IssuedIn(issued, end) == IssuedIn(s.issued, end);
      } else {
        SubsetSize(IssuedIn(issued, end), IssuedSince(issued, now));
      }
    }
  }

  lemma UsedStep(ops: seq<Op>)
    requires ops != []
    ensures Used(ops) == Used(ops[..|ops| - 1]) + if ops[|ops| - 1].Issue? then {ops[|ops| - 1].reservation} else {}
  {
    assert ops == ops[..|ops| - 1] + [ops[|ops| - 1]];
  }

  lemma {:induction false} RunBounded(ops: seq<Op>)
    requires ops != [] && Timely(ops) && Reserved(ops)
    ensures Bounded(Run(ops, false), Used(ops), Clock(ops))
  {
    var front, op := ops[..|ops| - 1], ops[|ops| - 1];
    var s := Run(front, false);
    UsedStep(ops);
    if front != [] {
      RunBounded(front);
      TimePasses(s, Used(front), Clock(front), StartOf(op));
    } else {
      assert Bounded(EMPTY, {}, StartOf(op));
    }
    match op
    case Reserve(t, id) => ReserveBounded(s, Used(front), t, id);
    case Release(now, id) => ReleaseBounded(s, Used(front), now, id);
    case Issue(now, reservation, request) => IssueBounded(s, Used(front), now, reservation, request);
  }

  /**
   On every run: never more than 4 active reservations, never more than 30 started in any 60 seconds,
   and, when each request is issued within its live reservation, never more than 10,000 issued in any
   day. The table that is actually kept holds the same active reservations.
   */
  lemma {:induction false} IssuanceIsBounded(ops: seq<Op>, end: int)
    requires ops != [] && Timely(ops) && Reserved(ops)
    ensures |StartedIn(Run(ops, false).admissions, end)| <= MAX_RECENT
    ensures |IssuedIn(Run(ops, true).issued, end)| <= MAX_DAILY
    ensures end >= Clock(ops) ==>
              && Active(Run(ops, true).admissions, end) == Active(Run(ops, false).admissions, end)
              && |Active(Run(ops, true).admissions, end)| <= MAX_ACTIVE
  {
    RunBounded(ops);
    PruningRuns(ops);
    if end >= Clock(ops) {
      CountsAgree(Run(ops, true).admissions, Run(ops, false).admissions, Clock(ops), end);
      TimePasses(Run(ops, false), Used(ops), Clock(ops), end);
    }
  }

  // --- The decision itself -----------------------------------------------------------------

  /** Kept is what started within a minute, or is neither finished nor expired. */
  lemma PruningIsExact(a: Admissions, now: int)
    ensures forall id :: id in Prune(a, now) <==>
              id in a && (a[id].createdAt > now - 60 || (!a[id].finished && a[id].expiresAt > now))
    ensures forall id | id in Prune(a, now) :: Prune(a, now)[id] == a[id]
  {
  }

  /**
   An invoice is admitted if and only if fewer than 30 were started in the last minute, fewer than 4 are
   active, and those together with the issues of the last day are fewer than 10,000.
   */
  lemma AdmissionIsExact(a: Admissions, issued: Issued, t: Times)
    ensures var started := set id | id in a && a[id].createdAt > t.recent - 60;
            var active := set id | id in a && !a[id].finished && a[id].expiresAt > t.active;
            var today := set r | r in issued && issued[r] > t.issued - 86_400;
            Admits(a, issued, t) <==> |started| < 30 && |active| < 4 && |today| + |active| < 10_000
  {
    assert Started(a, t.recent) == set id | id in a && a[id].createdAt > t.recent - 60;
    assert Active(a, t.active) == set id | id in a && !a[id].finished && a[id].expiresAt > t.active;
    assert IssuedSince(issued, t.issued) == set r | r in issued && issued[r] > t.issued - 86_400;
  }

  /** A reservation lives 30 seconds, is finished once, and a recorded request keeps its first time. */
  lemma RowsAreExact(a: Admissions, issued: Issued, id: Uuid, request: Uuid, now: int)
    ensures Insert(a, id, now) == a[id := Reservation(now, now + 30, false)]
    ensures Finish(a, id)
            == if id in a then a[id := Reservation(a[id].createdAt, a[id].expiresAt, true)] else a
    ensures Record(issued, request, now) == if request in issued then issued else issued[request := now]
  {
  }

  /** What one more operation adds to a run, pruned or not. */
  lemma OperationIsExact(s: State, op: Op, pruning: bool)
    ensures var after := Apply(s, op, pruning);
            match op
            case Reserve(t, id) =>
              && after.issued == s.issued && |after.decisions| == |s.decisions| + 1
              && after.decisions[..|s.decisions|] == s.decisions
              && (after.decisions[|s.decisions|] ==>
                    id in after.admissions && after.admissions[id] == Reservation(t.insert, t.insert + 30, false))
            case Release(_, id) =>
              && after.issued == s.issued && after.decisions == s.decisions
              && after.admissions.Keys == s.admissions.Keys && (id in s.admissions ==> after.admissions[id].finished)
              && forall other | other in s.admissions && other != id :: after.admissions[other] == s.admissions[other]
            case Issue(now, _, request) =>
              && after.admissions == s.admissions && after.decisions == s.decisions
              && request in after.issued && (request !in s.issued ==> after.issued[request] == now)
              && forall other | other in s.issued :: other in after.issued && after.issued[other] == s.issued[other]
  {
  }
}
