/**
 The recovery scan over the provider's own records (src/strike.rs `recovery_step`, src/ledger/inbox.rs
 `due_strike_scan` and `record_strike_scan`): one page of one receive request at a time, each request
 rescanned from the start for ever, so that a receive no webhook announced reaches the inbox.
 */
module StrikeScan {
  import opened Wrappers
  import I = StrikeInbox

  const PAGE_ROWS: nat := 100
  const LAST_OFFSET: nat := 1_000_000
  const RESCAN_DELAY: nat := 300

  datatype Scan = Scan(offset: nat, attempts: nat, nextAttempt: int)

  /** An issued request with its row of `strike_recovery_scan`, if it has one. */
  datatype Issued = Issued(id: Uuid, createdAt: int, scan: Option<Scan>)

  /** What the provider lists for a request. */
  datatype Receive = Receive(id: Uuid, completed: bool)

  function DueAt(r: Issued): int { if r.scan.Some? then r.scan.value.nextAttempt else r.createdAt }

  function Offset(r: Issued): nat { if r.scan.Some? then r.scan.value.offset else 0 }

  function Attempts(r: Issued): nat { if r.scan.Some? then r.scan.value.attempts else 0 }

  // --- Which request is scanned --------------------------------------------------------

  /** `ORDER BY COALESCE(next_attempt,created_at),created_at,receive_request_id`. */
  predicate Before(a: Issued, b: Issued) {
    if DueAt(a) != DueAt(b) then DueAt(a) < DueAt(b)
    else if a.createdAt != b.createdAt then a.createdAt < b.createdAt
    else a.id < b.id
  }

  /** The first due request of the order; it is due, and no due request comes before it. */
  function DueScan(rows: seq<Issued>, now: int): (r: Option<nat>)
    ensures r.Some? ==> r.value < |rows| && DueAt(rows[r.value]) <= now
                        && forall i | 0 <= i < |rows| && DueAt(rows[i]) <= now :: !Before(rows[i], rows[r.value])
    ensures r.None? <==> forall i | 0 <= i < |rows| :: DueAt(rows[i]) > now
  {
    if rows == [] then None
    else
      var last := rows[|rows| - 1];
      match DueScan(rows[..|rows| - 1], now)
      case None => if DueAt(last) <= now then Some(|rows| - 1) else None
      case Some(i) => if DueAt(last) <= now && Before(last, rows[i]) then Some(|rows| - 1) else Some(i)
  }

  // --- One scan --------------------------------------------------------------------------

  /** Where the next scan of the request continues after a page of `count` receives. */
  function NextOffset(offset: nat, count: nat): nat {
    if count == PAGE_ROWS && offset < LAST_OFFSET then offset + PAGE_ROWS else 0
  }

  function AfterPage(r: Issued, count: nat, later: int): Issued {
    var next := NextOffset(Offset(r), count);
    r.(scan := Some(Scan(next, 0, later + if next == 0 then RESCAN_DELAY else 1)))
  }

  function AfterFailure(r: Issued, later: int): Issued {
    r.(scan := Some(Scan(Offset(r), Min(Attempts(r) + 1, I.MAX_ATTEMPTS), later + I.RetryDelay(Attempts(r)))))
  }

  /** The completed receives of a page enter the inbox one by one; the first refusal ends the step. */
  function EnqueueAll(inbox: seq<I.Work>, now: int, request: Uuid, page: seq<Receive>): (seq<I.Work>, bool) {
    if page == [] then (inbox, true)
    else
      var (before, ok) := EnqueueAll(inbox, now, request, page[..|page| - 1]);
      var last := page[|page| - 1];
      if !ok || !last.completed then (before, ok)
      else
        var (after, r) := I.Enqueue(before, now, I.Recovery(last.id), request, last.id);
        (after, r.Ok?)
  }

  datatype World = World(issued: seq<Issued>, inbox: seq<I.Work>)

  /** The scan half of one recovery step; `reply` is the provider's page for the due request, if it answers. */
  function Step(w: World, now: int, later: int, reply: Option<seq<Receive>>): World {
    match DueScan(w.issued, now)
    case None => w
    case Some(i) =>
      match reply
      case None => w.(issued := w.issued[i := AfterFailure(w.issued[i], later)])
      case Some(page) =>
        var (inbox, ok) := EnqueueAll(w.inbox, later, w.issued[i].id, page);
        if ok then World(w.issued[i := AfterPage(w.issued[i], |page|, later)], inbox) else w.(inbox := inbox)
  }

  class Recovery {
    var issued: seq<Issued>
    const inbox: I.Inbox

    constructor (work: I.Inbox)
      ensures issued == [] && inbox == work
    {
      issued, inbox := [], work;
    }

    function State(): World
      reads this, inbox
    {
      World(issued, inbox.rows)
    }

    /** The loop over one page. */
    method EnqueuePage(now: int, request: Uuid, page: seq<Receive>) returns (ok: bool)
      modifies inbox
      ensures (inbox.rows, ok) == EnqueueAll(old(inbox.rows), now, request, page)
    {
      for n := 0 to |page|
        invariant (inbox.rows, true) == EnqueueAll(old(inbox.rows), now, request, page[..n])
      {
        assert page[..n + 1][..n] == page[..n];
        if page[n].completed {
          var r := inbox.EnqueueStrikeWork(now, I.Recovery(page[n].id), request, page[n].id);
          if r.Err? {
            FailureSpreads(old(inbox.rows), now, request, page, n + 1);
            return false;
          }
        }
      }
      assert page[..|page|] == page;
      ok := true;
    }

    method ScanStep(now: int, later: int, reply: Option<seq<Receive>>)
      modifies this, inbox
      ensures State() == Step(old(State()), now, later, reply)
    {
      var due := DueScan(issued, now);
      if due.None? {
        return;
      }
      var row := issued[due.value];
      if reply.None? {
        issued := issued[due.value := AfterFailure(row, later)];
        return;
      }
      var ok := EnqueuePage(later, row.id, reply.value);
      if ok {
        issued := issued[due.value := AfterPage(row, |reply.value|, later)];
      }
    }
  }

  /** A refused receive ends the page: nothing after it is enqueued. */
  lemma {:induction false} FailureSpreads(inbox: seq<I.Work>, now: int, request: Uuid, page: seq<Receive>, n: nat)
    requires n <= |page| && !EnqueueAll(inbox, now, request, page[..n]).1
    ensures EnqueueAll(inbox, now, request, page) == EnqueueAll(inbox, now, request, page[..n])
  {
    if n == |page| {
      assert page[..n] == page;
    } else {
      var front := page[..|page| - 1];
      assert front[..n] == page[..n];
      FailureSpreads(inbox, now, request, front, n);
    }
  }

  // --- Runs over a stable provider ---------------------------------------------------------

  /** What the provider lists for each request, in its paging order. */
  type Provider = map<Uuid, seq<Receive>>

  function Listed(provider: Provider, id: Uuid): seq<Receive> { if id in provider then provider[id] else [] }

  function PageAt(list: seq<Receive>, offset: nat): seq<Receive> {
    list[Min(offset, |list|)..Min(offset + PAGE_ROWS, |list|)]
  }

  datatype Op =
    | Issue(at: int, id: Uuid)
    | Scanning(now: int, later: int, answered: bool)
    | Working(op: I.Op)

  function StartOf(op: Op): int {
    match op case Issue(at, _) => at case Scanning(now, _, _) => now case Working(o) => I.StartOf(o)
  }

  function EndOf(op: Op): int {
    match op case Issue(at, _) => at case Scanning(_, later, _) => later case Working(o) => I.EndOf(o)
  }

  function Apply(w: World, provider: Provider, op: Op): World {
    match op
    case Issue(at, id) =>
      if exists i | 0 <= i < |w.issued| :: w.issued[i].id == id then w
      else w.(issued := w.issued + [Issued(id, at, None)])
    case Working(o) => w.(inbox := I.Apply(w.inbox, o))
    case Scanning(now, later, answered) => Step(w, now, later, ReplyTo(w, provider, now, answered))
  }

  function ReplyTo(w: World, provider: Provider, now: int, answered: bool): Option<seq<Receive>> {
    match DueScan(w.issued, now)
    case None => None
    case Some(i) => if answered then Some(PageAt(Listed(provider, w.issued[i].id), Offset(w.issued[i]))) else None
  }

  function RunFrom(w: World, provider: Provider, ops: seq<Op>): World {
    if ops == [] then w else Apply(RunFrom(w, provider, ops[..|ops| - 1]), provider, ops[|ops| - 1])
  }

  /** The clock never goes back, within an operation or between two. */
  predicate Monotone(clock: int, ops: seq<Op>) {
    ops == [] ||
    var front, last := ops[..|ops| - 1], ops[|ops| - 1];
    Monotone(clock, front) && ClockAfter(clock, front) <= StartOf(last) <= EndOf(last)
  }

  function ClockAfter(clock: int, ops: seq<Op>): int { if ops == [] then clock else EndOf(ops[|ops| - 1]) }

  /** The operation scans request `i`: its page is enqueued, or the provider's failure is booked. */
  predicate Books(w: World, provider: Provider, op: Op, i: nat) {
    && op.Scanning? && DueScan(w.issued, op.now) == Some(i)
    && Apply(w, provider, op).issued != w.issued
  }

  predicate Completes(w: World, provider: Provider, op: Op, i: nat) { Books(w, provider, op, i) && op.answered }

  // --- What every operation keeps ------------------------------------------------------------

  predicate RowValid(r: Issued, clock: int) {
    && r.createdAt <= clock
    && Offset(r) % PAGE_ROWS == 0 && Offset(r) <= LAST_OFFSET
    && Attempts(r) <= I.MAX_ATTEMPTS
    && DueAt(r) <= clock + RESCAN_DELAY
  }

  ghost predicate IssuedInv(rows: seq<Issued>, clock: int) {
    && (forall i, j | 0 <= i < j < |rows| :: rows[i].id != rows[j].id)
    && (forall i | 0 <= i < |rows| :: RowValid(rows[i], clock))
  }

  ghost predicate Inv(w: World, clock: int) { IssuedInv(w.issued, clock) && I.Inv(w.inbox, clock) }

  lemma ScannedIsValid(r: Issued, count: nat, later: int, clock: int)
    requires RowValid(r, clock) && clock <= later
    ensures RowValid(AfterPage(r, count, later), later) && RowValid(AfterFailure(r, later), later)
    ensures later < DueAt(AfterPage(r, count, later)) && later < DueAt(AfterFailure(r, later))
  {
    I.DelayBounds(Attempts(r));
  }

  lemma UpdateKeepsIssued(rows: seq<Issued>, i: nat, r: Issued, clock: int, later: int)
    requires IssuedInv(rows, clock) && clock <= later && i < |rows| && r.id == rows[i].id && RowValid(r, later)
    ensures IssuedInv(rows[i := r], later)
  {
  }

  lemma {:induction false} EnqueueAllKeepsInv(
      inbox: seq<I.Work>, now: int, request: Uuid, page: seq<Receive>, clock: int)
    requires I.Inv(inbox, clock) && clock <= now
    ensures I.Inv(EnqueueAll(inbox, now, request, page).0, now)
  {
    if page != [] {
      var front, last := page[..|page| - 1], page[|page| - 1];
      EnqueueAllKeepsInv(inbox, now, request, front, clock);
      I.ArrivalKeepsInv(EnqueueAll(inbox, now, request, front).0, now, I.Recovery(last.id), request, last.id, now);
    }
  }

  lemma StepKeepsInv(w: World, now: int, later: int, reply: Option<seq<Receive>>, clock: int)
    requires Inv(w, clock) && clock <= now <= later
    ensures Inv(Step(w, now, later, reply), later)
  {
    var due := DueScan(w.issued, now);
    if due.Some? {
      var r := w.issued[due.value];
      var count := if reply.Some? then |reply.value| else 0;
      ScannedIsValid(r, count, later, clock);
      UpdateKeepsIssued(w.issued, due.value, AfterFailure(r, later), clock, later);
      UpdateKeepsIssued(w.issued, due.value, AfterPage(r, count, later), clock, later);
      if reply.Some? {
        EnqueueAllKeepsInv(w.inbox, later, r.id, reply.value, clock);
      }
    }
  }

  lemma ApplyKeepsInv(w: World, provider: Provider, op: Op, clock: int)
    requires Inv(w, clock) && clock <= StartOf(op) <= EndOf(op)
    ensures Inv(Apply(w, provider, op), EndOf(op))
  {
    match op
    case Issue(at, id) =>
    case Working(o) => I.ApplyKeepsInv(w.inbox, o, clock);
    case Scanning(now, later, answered) => StepKeepsInv(w, now, later, ReplyTo(w, provider, now, answered), clock);
  }

  lemma {:induction false} RunKeepsInv(w: World, provider: Provider, ops: seq<Op>, clock: int)
    requires Inv(w, clock) && Monotone(clock, ops)
    ensures Inv(RunFrom(w, provider, ops), ClockAfter(clock, ops))
  {
    if ops != [] {
      var front := ops[..|ops| - 1];
      RunKeepsInv(w, provider, front, clock);
      ApplyKeepsInv(RunFrom(w, provider, front), provider, ops[|ops| - 1], ClockAfter(clock, front));
    }
  }

  // --- No request starves ----------------------------------------------------------------------

  /** Requests that come before `r`. */
  function Ahead(rows: seq<Issued>, r: Issued): nat {
    if rows == [] then 0
    else Ahead(rows[..|rows| - 1], r) + if Before(rows[|rows| - 1], r) then 1 else 0
  }

  lemma {:induction false} AheadChange(rows: seq<Issued>, i: nat, s: Issued, r: Issued)
    requires i < |rows|
    ensures Ahead(rows[i := s], r)
            == Ahead(rows, r) - (if Before(rows[i], r) then 1 else 0) + if Before(s, r) then 1 else 0
  {
    var front, after := rows[..|rows| - 1], rows[i := s];
    if i < |front| {
      AheadChange(front, i, s, r);
      assert after[..|rows| - 1] == front[i := s];
    } else {
      assert after[..|rows| - 1] == front;
    }
  }

  /** A request waiting since before the current second. */
  predicate Overdue(rows: seq<Issued>, i: nat, clock: int) { i < |rows| && DueAt(rows[i]) < clock }

  /** The operation scans some request. */
  predicate Booked(w: World, provider: Provider, op: Op) { op.Scanning? && Apply(w, provider, op).issued != w.issued }

  /** Two different requests are never tied. */
  lemma OrderIsTotal(a: Issued, b: Issued)
    requires a.id != b.id
    ensures Before(a, b) || Before(b, a)
  {
  }

  /** A request that is scanned goes behind the overdue one. */
  lemma UpdateAdvances(rows: seq<Issued>, i: nat, j: nat, s: Issued, clock: int, later: int)
    requires IssuedInv(rows, clock) && Overdue(rows, i, clock) && clock <= later
    requires j < |rows| && j != i && !Before(rows[i], rows[j]) && later < DueAt(s)
    ensures Overdue(rows[j := s], i, later) && rows[j := s][i] == rows[i]
    ensures Ahead(rows[j := s], rows[i]) == Ahead(rows, rows[i]) - 1
  {
    OrderIsTotal(rows[i], rows[j]);
    AheadChange(rows, j, s, rows[i]);
  }

  lemma IssueAdvances(rows: seq<Issued>, i: nat, at: int, id: Uuid, clock: int)
    requires Overdue(rows, i, clock) && clock <= at
    ensures var after := rows + [Issued(id, at, None)];
            Overdue(after, i, at) && after[i] == rows[i] && Ahead(after, rows[i]) == Ahead(rows, rows[i])
  {
    var after := rows + [Issued(id, at, None)];
    assert after[..|rows|] == rows;
  }

  /** The scanned request after a step, if the scan is booked. */
  lemma BookedIs(w: World, now: int, later: int, reply: Option<seq<Receive>>, clock: int) returns (s: Issued)
    requires Inv(w, clock) && clock <= now <= later && Step(w, now, later, reply).issued != w.issued
    ensures DueScan(w.issued, now).Some? && later < DueAt(s)
    ensures var i := DueScan(w.issued, now).value;
            && s == (if reply.Some? then AfterPage(w.issued[i], |reply.value|, later)
                     else AfterFailure(w.issued[i], later))
            && Step(w, now, later, reply).issued == w.issued[i := s]
  {
    var r := w.issued[DueScan(w.issued, now).value];
    var count := if reply.Some? then |reply.value| else 0;
    ScannedIsValid(r, count, later, clock);
    s := if reply.Some? then AfterPage(r, count, later) else AfterFailure(r, later);
  }

  lemma ScanAdvances(w: World, now: int, later: int, reply: Option<seq<Receive>>, clock: int, i: nat)
    requires Inv(w, clock) && clock <= now <= later && Overdue(w.issued, i, clock)
    requires Step(w, now, later, reply).issued != w.issued && DueScan(w.issued, now) != Some(i)
    ensures var after := Step(w, now, later, reply).issued;
            && Overdue(after, i, later) && after[i] == w.issued[i]
            && Ahead(after, w.issued[i]) == Ahead(w.issued, w.issued[i]) - 1
  {
    var s := BookedIs(w, now, later, reply, clock);
    UpdateAdvances(w.issued, i, DueScan(w.issued, now).value, s, clock, later);
  }

  /** A booked scan of another request leaves one request fewer ahead; nothing else changes the order. */
  lemma ApplyAdvances(w: World, provider: Provider, op: Op, clock: int, i: nat)
    requires Inv(w, clock) && clock <= StartOf(op) <= EndOf(op) && Overdue(w.issued, i, clock)
    requires !Books(w, provider, op, i)
    ensures var after := Apply(w, provider, op).issued;
            && Overdue(after, i, EndOf(op)) && after[i] == w.issued[i]
            && Ahead(after, w.issued[i]) == Ahead(w.issued, w.issued[i]) - if Booked(w, provider, op) then 1 else 0
  {
    match op
    case Issue(at, id) => IssueAdvances(w.issued, i, at, id, clock);
    case Working(_) =>
    case Scanning(now, later, answered) =>
      if Booked(w, provider, op) {
        ScanAdvances(w, now, later, ReplyTo(w, provider, now, answered), clock, i);
      }
  }

  /** Scans booked over a run. */
  function Scans(w: World, provider: Provider, ops: seq<Op>): nat {
    if ops == [] then 0
    else
      var front := ops[..|ops| - 1];
      Scans(w, provider, front) + if Booked(RunFrom(w, provider, front), provider, ops[|ops| - 1]) then 1 else 0
  }

  /** Operation `k` of the run scans request `i`. */
  predicate BooksAt(w: World, provider: Provider, ops: seq<Op>, k: nat, i: nat) {
    k < |ops| && Books(RunFrom(w, provider, ops[..k]), provider, ops[k], i)
  }

  lemma {:induction false} UnscannedWaits(w: World, provider: Provider, ops: seq<Op>, clock: int, i: nat)
    requires Inv(w, clock) && Monotone(clock, ops) && Overdue(w.issued, i, clock)
    requires forall k | 0 <= k < |ops| :: !BooksAt(w, provider, ops, k, i)
    ensures var after := RunFrom(w, provider, ops).issued;
            && Overdue(after, i, ClockAfter(clock, ops)) && after[i] == w.issued[i]
            && Ahead(after, w.issued[i]) + Scans(w, provider, ops) == Ahead(w.issued, w.issued[i])
  {
    if ops != [] {
      var last := |ops| - 1;
      var front := ops[..last];
      forall k | 0 <= k < |front| ensures !BooksAt(w, provider, front, k, i) {
        assert front[..k] == ops[..k];
        assert !BooksAt(w, provider, ops, k, i);
      }
      UnscannedWaits(w, provider, front, clock, i);
      RunKeepsInv(w, provider, front, clock);
      assert !BooksAt(w, provider, ops, last, i);
      ApplyAdvances(RunFrom(w, provider, front), provider, ops[last], ClockAfter(clock, front), i);
    }
  }

  /**
   No starvation: once a request is overdue it is scanned before one more scan is booked than there were
   requests ahead of it, whatever is issued, fails or is worked meanwhile.
   */
  lemma {:induction false} NoRequestStarves(w: World, provider: Provider, ops: seq<Op>, clock: int, i: nat)
    requires Inv(w, clock) && Monotone(clock, ops) && Overdue(w.issued, i, clock)
    requires Scans(w, provider, ops) > Ahead(w.issued, w.issued[i])
    ensures exists k :: BooksAt(w, provider, ops, k, i)
  {
    if forall k | 0 <= k < |ops| :: !BooksAt(w, provider, ops, k, i) {
      UnscannedWaits(w, provider, ops, clock, i);
      assert false;
    }
  }

  /** The first due request stays first until a row changes. */
  lemma FirstStaysFirst(rows: seq<Issued>, now: int, later: int)
    requires forall i, j | 0 <= i < j < |rows| :: rows[i].id != rows[j].id
    requires DueScan(rows, now).Some? && now <= later
    ensures DueScan(rows, later) == DueScan(rows, now)
  {
    var i, j := DueScan(rows, now).value, DueScan(rows, later).value;
    if i != j {
      OrderIsTotal(rows[i], rows[j]);
      assert false;
    }
  }

  /** Why only booked scans count: a page the inbox refuses is asked for again before any other request. */
  lemma RefusedPageIsTriedAgain(w: World, now: int, later: int, page: seq<Receive>, next: int, clock: int)
    requires Inv(w, clock) && DueScan(w.issued, now).Some? && now <= next
    requires !EnqueueAll(w.inbox, later, w.issued[DueScan(w.issued, now).value].id, page).1
    ensures var after := Step(w, now, later, Some(page));
            after.issued == w.issued && DueScan(after.issued, next) == DueScan(w.issued, now)
  {
    FirstStaysFirst(w.issued, now, next);
  }

  // --- Every completed receive reaches the inbox -------------------------------------------------

  ghost predicate Enqueued(inbox: seq<I.Work>, request: Uuid, receive: Uuid) {
    exists k | 0 <= k < |inbox| ::
      inbox[k].key == I.Recovery(receive) && inbox[k].request == request && inbox[k].receive == receive
  }

  /** Rows are never removed, and never change what they stand for. */
  ghost predicate Retained(before: seq<I.Work>, after: seq<I.Work>) {
    && |before| <= |after|
    && forall k | 0 <= k < |before| ::
         && after[k].key == before[k].key && after[k].request == before[k].request
         && after[k].receive == before[k].receive
  }

  lemma RetainedKeeps(before: seq<I.Work>, after: seq<I.Work>, request: Uuid, receive: Uuid)
    requires Retained(before, after) && Enqueued(before, request, receive)
    ensures Enqueued(after, request, receive)
  {
    var k :| 0 <= k < |before|
             && before[k].key == I.Recovery(receive) && before[k].request == request && before[k].receive == receive;
    assert after[k].key == I.Recovery(receive);
  }

  lemma {:induction false} EnqueueAllRetains(inbox: seq<I.Work>, now: int, request: Uuid, page: seq<Receive>)
    ensures Retained(inbox, EnqueueAll(inbox, now, request, page).0)
  {
    if page != [] {
      EnqueueAllRetains(inbox, now, request, page[..|page| - 1]);
    }
  }

  /** A page that went through put each of its completed receives into the inbox. */
  lemma {:induction false} PageIsEnqueued(inbox: seq<I.Work>, now: int, request: Uuid, page: seq<Receive>, j: nat)
    requires EnqueueAll(inbox, now, request, page).1 && j < |page| && page[j].completed
    ensures Enqueued(EnqueueAll(inbox, now, request, page).0, request, page[j].id)
  {
    var front, last := page[..|page| - 1], page[|page| - 1];
    var before := EnqueueAll(inbox, now, request, front).0;
    var after := EnqueueAll(inbox, now, request, page).0;
    if j < |front| {
      PageIsEnqueued(inbox, now, request, front, j);
      RetainedKeeps(before, after, request, page[j].id);
    } else {
      var key := I.Recovery(last.id);
      var k := I.Find(before, key);
      if k.Some? {
        assert before[k.value].receive == last.id;
      } else {
        assert after[|before|].key == key;
      }
    }
  }

  lemma ApplyRetains(w: World, provider: Provider, op: Op)
    ensures Retained(w.inbox, Apply(w, provider, op).inbox)
  {
    match op
    case Issue(_, _) =>
    case Working(o) =>
    case Scanning(now, later, answered) =>
      var reply := ReplyTo(w, provider, now, answered);
      if reply.Some? {
        EnqueueAllRetains(w.inbox, later, w.issued[DueScan(w.issued, now).value].id, reply.value);
      }
  }

  // --- The offset cycle ----------------------------------------------------------------------

  /** Completed scans from `offset` until the cycle starts again at 0. */
  function ToWrap(offset: nat, size: nat): nat
    decreases LAST_OFFSET - offset
  {
    if offset + PAGE_ROWS > size || offset >= LAST_OFFSET then 1 else 1 + ToWrap(offset + PAGE_ROWS, size)
  }

  /** Completed scans before the page at `target` is the next one. */
  function Distance(offset: nat, target: nat, size: nat): nat {
    if offset <= target then (target - offset) / PAGE_ROWS else ToWrap(offset, size) + target / PAGE_ROWS
  }

  lemma PageSize(list: seq<Receive>, offset: nat)
    ensures |PageAt(list, offset)| == Max(0, Min(PAGE_ROWS, |list| - offset))
  {
  }

  /** Each completed scan of another page comes one step closer. */
  lemma ScanCloses(list: seq<Receive>, offset: nat, target: nat)
    requires offset % PAGE_ROWS == 0 && target % PAGE_ROWS == 0 && offset != target
    requires offset <= LAST_OFFSET && target <= LAST_OFFSET && target < |list|
    ensures Distance(NextOffset(offset, |PageAt(list, offset)|), target, |list|) == Distance(offset, target, |list|) - 1
  {
    PageSize(list, offset);
  }

  /** Every page is at most one cycle away. */
  lemma {:induction false} WrapIsNear(offset: nat, size: nat)
    ensures ToWrap(offset, size) <= (if offset <= size then (size - offset) / PAGE_ROWS else 0) + 1
    decreases LAST_OFFSET - offset
  {
    if offset + PAGE_ROWS <= size && offset < LAST_OFFSET {
      WrapIsNear(offset + PAGE_ROWS, size);
    }
  }

  lemma DistanceIsShort(offset: nat, target: nat, size: nat)
    requires offset % PAGE_ROWS == 0 && target % PAGE_ROWS == 0 && target < size
    ensures Distance(offset, target, size) <= size / PAGE_ROWS + 1
  {
    WrapIsNear(offset, size);
  }

  /** Only a completed scan of the request moves its offset. */
  lemma ApplyMovesOffset(w: World, provider: Provider, op: Op, clock: int, i: nat)
    requires Inv(w, clock) && clock <= StartOf(op) <= EndOf(op) && i < |w.issued|
    ensures var after := Apply(w, provider, op).issued;
            && i < |after| && after[i].id == w.issued[i].id
            && Offset(after[i]) == if Completes(w, provider, op, i)
                                   then NextOffset(Offset(w.issued[i]), |Next(w, provider, i)|)
                                   else Offset(w.issued[i])
  {
    if Booked(w, provider, op) {
      var s := BookedIs(w, op.now, op.later, ReplyTo(w, provider, op.now, op.answered), clock);
    }
  }

  /** The page the next scan of request `i` asks for. */
  function Next(w: World, provider: Provider, i: nat): seq<Receive>
    requires i < |w.issued|
  {
    PageAt(Listed(provider, w.issued[i].id), Offset(w.issued[i]))
  }

  /** Completed scans of request `i` over a run. */
  function CompletedScans(w: World, provider: Provider, ops: seq<Op>, i: nat): nat {
    if ops == [] then 0
    else
      var front := ops[..|ops| - 1];
      CompletedScans(w, provider, front, i)
      + if Completes(RunFrom(w, provider, front), provider, ops[|ops| - 1], i) then 1 else 0
  }

  /** Operation `k` of the run completes a scan of request `i` at offset `target`. */
  predicate CompletesAt(w: World, provider: Provider, ops: seq<Op>, k: nat, i: nat, target: nat) {
    && k < |ops|
    && var v := RunFrom(w, provider, ops[..k]);
       i < |v.issued| && Completes(v, provider, ops[k], i) && Offset(v.issued[i]) == target
  }

  lemma {:induction false} UnreachedComesCloser(
      w: World, provider: Provider, ops: seq<Op>, clock: int, i: nat, target: nat, list: seq<Receive>)
    requires Inv(w, clock) && Monotone(clock, ops) && i < |w.issued| && list == Listed(provider, w.issued[i].id)
    requires target % PAGE_ROWS == 0 && target <= LAST_OFFSET && target < |list|
    requires forall k | 0 <= k < |ops| :: !CompletesAt(w, provider, ops, k, i, target)
    ensures var after := RunFrom(w, provider, ops).issued;
            && i < |after| && after[i].id == w.issued[i].id
            && Distance(Offset(after[i]), target, |list|) + CompletedScans(w, provider, ops, i)
               == Distance(Offset(w.issued[i]), target, |list|)
  {
    if ops != [] {
      var last := |ops| - 1;
      var front := ops[..last];
      forall k | 0 <= k < |front| ensures !CompletesAt(w, provider, front, k, i, target) {
        assert front[..k] == ops[..k];
        assert !CompletesAt(w, provider, ops, k, i, target);
      }
      UnreachedComesCloser(w, provider, front, clock, i, target, list);
      RunKeepsInv(w, provider, front, clock);
      var v := RunFrom(w, provider, front);
      assert !CompletesAt(w, provider, ops, last, i, target);
      ApplyMovesOffset(v, provider, ops[last], ClockAfter(clock, front), i);
      if Completes(v, provider, ops[last], i) {
        ScanCloses(list, Offset(v.issued[i]), target);
      }
    }
  }

  /** A completed scan enqueues what its page lists. */
  lemma CompletedIsEnqueued(w: World, provider: Provider, op: Op, i: nat, j: nat)
    requires i < |w.issued| && Completes(w, provider, op, i)
    requires j < |Next(w, provider, i)| && Next(w, provider, i)[j].completed
    ensures Enqueued(Apply(w, provider, op).inbox, w.issued[i].id, Next(w, provider, i)[j].id)
  {
    PageIsEnqueued(w.inbox, op.later, w.issued[i].id, Next(w, provider, i), j);
  }

  lemma {:induction false} RunRetains(w: World, provider: Provider, ops: seq<Op>, k: nat)
    requires k <= |ops|
    ensures Retained(RunFrom(w, provider, ops[..k]).inbox, RunFrom(w, provider, ops).inbox)
  {
    if k == |ops| {
      assert ops[..k] == ops;
    } else {
      var front := ops[..|ops| - 1];
      assert front[..k] == ops[..k];
      RunRetains(w, provider, front, k);
      ApplyRetains(RunFrom(w, provider, front), provider, ops[|ops| - 1]);
    }
  }

  /** Over a run, the request keeps its place. */
  lemma {:induction false} RequestStays(w: World, provider: Provider, ops: seq<Op>, clock: int, i: nat)
    requires Inv(w, clock) && Monotone(clock, ops) && i < |w.issued|
    ensures i < |RunFrom(w, provider, ops).issued| && RunFrom(w, provider, ops).issued[i].id == w.issued[i].id
  {
    if ops != [] {
      var front := ops[..|ops| - 1];
      RequestStays(w, provider, front, clock, i);
      RunKeepsInv(w, provider, front, clock);
      ApplyMovesOffset(RunFrom(w, provider, front), provider, ops[|ops| - 1], ClockAfter(clock, front), i);
    }
  }

  lemma {:induction false} MonotonePrefix(clock: int, ops: seq<Op>, k: nat)
    requires Monotone(clock, ops) && k <= |ops|
    ensures Monotone(clock, ops[..k])
  {
    if k == |ops| {
      assert ops[..k] == ops;
    } else {
      var front := ops[..|ops| - 1];
      assert front[..k] == ops[..k];
      MonotonePrefix(clock, front, k);
    }
  }

  /** The page at `target` shows the receive at `j`. */
  lemma PageShows(list: seq<Receive>, target: nat, j: nat)
    requires target <= j < |list| && j < target + PAGE_ROWS
    ensures j - target < |PageAt(list, target)| && PageAt(list, target)[j - target] == list[j]
  {
  }

  lemma ScanEnqueues(w: World, provider: Provider, op: Op, i: nat, list: seq<Receive>, j: nat)
    requires i < |w.issued| && Completes(w, provider, op, i) && list == Listed(provider, w.issued[i].id)
    requires Offset(w.issued[i]) <= j < |list| && j < Offset(w.issued[i]) + PAGE_ROWS && list[j].completed
    ensures Enqueued(Apply(w, provider, op).inbox, w.issued[i].id, list[j].id)
  {
    PageShows(list, Offset(w.issued[i]), j);
    CompletedIsEnqueued(w, provider, op, i, j - Offset(w.issued[i]));
  }

  /** What a step of the run enqueued is in the inbox at the end. */
  lemma EnqueuedStays(w: World, provider: Provider, ops: seq<Op>, k: nat, request: Uuid, receive: Uuid)
    requires k < |ops| && Enqueued(Apply(RunFrom(w, provider, ops[..k]), provider, ops[k]).inbox, request, receive)
    ensures Enqueued(RunFrom(w, provider, ops).inbox, request, receive)
  {
    assert ops[..k + 1][..k] == ops[..k];
    RunRetains(w, provider, ops, k + 1);
    RetainedKeeps(RunFrom(w, provider, ops[..k + 1]).inbox, RunFrom(w, provider, ops).inbox, request, receive);
  }

  /** The page that was scanned at step `k` is in the inbox at the end. */
  lemma ScannedStaysEnqueued(
      w: World, provider: Provider, ops: seq<Op>, clock: int, i: nat, k: nat, target: nat, list: seq<Receive>, j: nat)
    requires Inv(w, clock) && Monotone(clock, ops) && i < |w.issued| && list == Listed(provider, w.issued[i].id)
    requires CompletesAt(w, provider, ops, k, i, target)
    requires target <= j < |list| && j < target + PAGE_ROWS && list[j].completed
    ensures Enqueued(RunFrom(w, provider, ops).inbox, w.issued[i].id, list[j].id)
  {
    MonotonePrefix(clock, ops, k);
    RequestStays(w, provider, ops[..k], clock, i);
    ScanEnqueues(RunFrom(w, provider, ops[..k]), provider, ops[k], i, list, j);
    EnqueuedStays(w, provider, ops, k, w.issued[i].id, list[j].id);
  }

  lemma TargetIsScanned(
      w: World, provider: Provider, ops: seq<Op>, clock: int, i: nat, target: nat, list: seq<Receive>) returns (k: nat)
    requires Inv(w, clock) && Monotone(clock, ops) && i < |w.issued| && list == Listed(provider, w.issued[i].id)
    requires target % PAGE_ROWS == 0 && target <= LAST_OFFSET && target < |list|
    requires CompletedScans(w, provider, ops, i) >= |list| / PAGE_ROWS + 2
    ensures CompletesAt(w, provider, ops, k, i, target)
  {
    DistanceIsShort(Offset(w.issued[i]), target, |list|);
    if forall k | 0 <= k < |ops| :: !CompletesAt(w, provider, ops, k, i, target) {
      UnreachedComesCloser(w, provider, ops, clock, i, target, list);
      assert false;
    }
    k :| 0 <= k < |ops| && CompletesAt(w, provider, ops, k, i, target);
  }

  lemma PageStart(j: nat) returns (target: nat)
    ensures target % PAGE_ROWS == 0 && target <= j < target + PAGE_ROWS
    ensures j < LAST_OFFSET + PAGE_ROWS ==> target <= LAST_OFFSET
  {
    target := j / PAGE_ROWS * PAGE_ROWS;
  }

  /**
   While the provider's list of a request is stable, one full cycle of completed scans, wherever it
   starts and however it interleaves with other requests, failures and work, puts every completed receive
   of the first 1,000,100 into the inbox. No notification is needed.
   */
  lemma EveryReceiveIsEnqueued(
      w: World, provider: Provider, ops: seq<Op>, clock: int, i: nat, list: seq<Receive>, j: nat)
    requires Inv(w, clock) && Monotone(clock, ops) && i < |w.issued|
    requires w.issued[i].id in provider && list == provider[w.issued[i].id]
    requires j < |list| && j < LAST_OFFSET + PAGE_ROWS && list[j].completed
    requires CompletedScans(w, provider, ops, i) >= |list| / PAGE_ROWS + 2
    ensures Enqueued(RunFrom(w, provider, ops).inbox, w.issued[i].id, list[j].id)
  {
    var target := PageStart(j);
    var k := TargetIsScanned(w, provider, ops, clock, i, target, list);
    ScannedStaysEnqueued(w, provider, ops, clock, i, k, target, list, j);
  }

  // --- Nothing else does --------------------------------------------------------------------------

  /** The provider lists the receive as completed, within reach of the offset cycle. */
  ghost predicate Reachable(provider: Provider, request: Uuid, receive: Uuid) {
    exists j | 0 <= j < |Listed(provider, request)| && j < LAST_OFFSET + PAGE_ROWS ::
      Listed(provider, request)[j] == Receive(receive, true)
  }

  /** Every row the scan made stands for a reachable completed receive. */
  ghost predicate AllListed(inbox: seq<I.Work>, provider: Provider) {
    forall k | 0 <= k < |inbox| && inbox[k].key.Recovery? ::
      inbox[k].key.receive == inbox[k].receive && Reachable(provider, inbox[k].request, inbox[k].receive)
  }

  lemma {:induction false} EnqueueAllIsListed(
      inbox: seq<I.Work>, now: int, provider: Provider, request: Uuid, page: seq<Receive>)
    requires AllListed(inbox, provider)
    requires forall r | r in page && r.completed :: Reachable(provider, request, r.id)
    ensures AllListed(EnqueueAll(inbox, now, request, page).0, provider)
  {
    if page != [] {
      EnqueueAllIsListed(inbox, now, provider, request, page[..|page| - 1]);
    }
  }

  lemma PageIsReachable(provider: Provider, request: Uuid, offset: nat)
    requires offset <= LAST_OFFSET
    ensures forall r | r in PageAt(Listed(provider, request), offset) && r.completed ::
              Reachable(provider, request, r.id)
  {
    var list := Listed(provider, request);
    var page := PageAt(list, offset);
    forall r | r in page && r.completed ensures Reachable(provider, request, r.id) {
      var k :| 0 <= k < |page| && page[k] == r;
      assert list[offset + k] == Receive(r.id, true);
    }
  }

  lemma ApplyKeepsListed(w: World, provider: Provider, op: Op, clock: int)
    requires Inv(w, clock) && AllListed(w.inbox, provider)
    requires op.Working? && op.op.Arrive? ==> op.op.key.Webhook?
    ensures AllListed(Apply(w, provider, op).inbox, provider)
  {
    match op
    case Issue(_, _) =>
    case Working(o) =>
    case Scanning(now, later, answered) =>
      var reply := ReplyTo(w, provider, now, answered);
      if reply.Some? {
        var r := w.issued[DueScan(w.issued, now).value];
        PageIsReachable(provider, r.id, Offset(r));
        EnqueueAllIsListed(w.inbox, later, provider, r.id, reply.value);
      }
  }

  const EMPTY: World := World([], [])

  /** The bound of EveryReceiveIsEnqueued is exact: the scan never enqueues a receive listed beyond it only. */
  lemma {:induction false} OnlyListedIsEnqueued(provider: Provider, ops: seq<Op>, clock: int)
    requires Monotone(clock, ops)
    requires forall op | op in ops :: op.Working? && op.op.Arrive? ==> op.op.key.Webhook?
    ensures AllListed(RunFrom(EMPTY, provider, ops).inbox, provider)
  {
    if ops != [] {
      var front := ops[..|ops| - 1];
      OnlyListedIsEnqueued(provider, front, clock);
      RunKeepsInv(EMPTY, provider, front, clock);
      ApplyKeepsListed(RunFrom(EMPTY, provider, front), provider, ops[|ops| - 1], ClockAfter(clock, front));
    }
  }
}
