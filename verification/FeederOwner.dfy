/**
 The OpenHAB feeder owner (deploy/openhab/feeder-owner-v2.js).

 The owner is the only party that switches the actuator. Its durable memory is the JDBC history of
 one String item; the item state, the guard and the cached start time are volatile. Every
 asynchronous boundary of the script is a step of its own: an item update or a JDBC write lands
 some time after it was requested, or never, and a restart may come between any two steps.
 Times are milliseconds.
 */
module FeederOwner {
  import opened Wrappers

  const MAX_ENTRIES: nat := 32
  const COOLDOWN_MS: int := 5000
  const MAX_AGE_MS: int := 120_000
  const MAX_SKEW_MS: int := 30_000
  const PULSE_MS: int := 1000

  datatype EntryStatus = Accepted | Running | Complete | Failed | Denied

  datatype Entry = Entry(id: Uuid, status: EntryStatus, at: int, updatedAt: Option<int>)

  type Ledger = seq<Entry>

  datatype Request = Request(id: Uuid, requestedAt: int)

  predicate ValidEntry(e: Entry) {
    && (e.status == Complete ==> e.updatedAt.Some?)
    && (e.updatedAt.Some? ==> e.updatedAt.value >= e.at)
  }

  predicate UniqueIds(ledger: Ledger) {
    forall i, j | 0 <= i < j < |ledger| :: ledger[i].id != ledger[j].id
  }

  /** What `parseLedger` demands of the decoded text. */
  predicate ValidLedger(ledger: Ledger) {
    && |ledger| <= MAX_ENTRIES
    && UniqueIds(ledger)
    && forall i | 0 <= i < |ledger| :: ValidEntry(ledger[i])
  }

  function Receipt(ledger: Ledger, id: Uuid): (r: Option<Entry>)
    ensures r.Some? ==> r.value in ledger && r.value.id == id
    ensures r.None? <==> forall i | 0 <= i < |ledger| :: ledger[i].id != id
  {
    if ledger == [] then None
    else if ledger[0].id == id then Some(ledger[0])
    else Receipt(ledger[1..], id)
  }

  function Without(ledger: Ledger, id: Uuid): Ledger {
    if ledger == [] then []
    else (if ledger[0].id == id then [] else [ledger[0]]) + Without(ledger[1..], id)
  }

  function AcceptedLedger(ledger: Ledger, id: Uuid, at: int): Ledger {
    [Entry(id, Accepted, at, None)] + Without(ledger, id)
  }

  function TerminalLedger(ledger: Ledger, id: Uuid, status: EntryStatus, updatedAt: int): Ledger {
    if ledger == [] then []
    else
      [if ledger[0].id == id then ledger[0].(status := status, updatedAt := Some(updatedAt)) else ledger[0]]
      + TerminalLedger(ledger[1..], id, status, updatedAt)
  }

  /** The newest durable start bound: the latest completion, or the cached start if it is later. */
  function LastStart(ledger: Ledger, cached: Option<int>): Option<int> {
    if ledger == [] then cached
    else
      var rest := LastStart(ledger[1..], cached);
      match ledger[0].updatedAt
      case None => rest
      case Some(u) => if rest.Some? then Some(Max(u, rest.value)) else Some(u)
  }

  // --- State ---------------------------------------------------------------------

  datatype Phase =
    | AcceptPosted        // item update requested for the accepted receipt
    | AcceptPersisting    // item read back; JDBC write requested
    | Armed               // accepted receipt read back from item and JDBC
    | Pulsing(onAt: int)  // ON sent; the one-second timer is running
    | CompletePosted
    | CompletePersisting
    | Held                // an error: ownership stays held and nothing more runs

  /** The invocation that owns the guard, and the ledger it is writing. */
  datatype Run = Run(token: nat, id: Uuid, startedAt: int, ledger: Ledger, phase: Phase)

  datatype Snapshot = Snapshot(at: int, ledger: Ledger)

  datatype Pulse = Pulse(id: Uuid, at: int)

  datatype Owner = Owner(
    item: Option<Ledger>,            // ledger item state; None is NULL or undecodable
    history: seq<Snapshot>,          // JDBC rows, oldest first
    guard: Option<Run>,
    nextToken: nat,
    cachedStart: Option<int>,
    pendingItem: Option<Ledger>,     // requested item update that has not landed
    pendingPersist: Option<Ledger>,  // requested JDBC write that has not landed
    pulses: seq<Pulse>)              // ON commands the actuator received

  /** A provisioned owner: an empty ledger, restored and persisted. */
  const INITIAL: Owner := Owner(Some([]), [Snapshot(0, [])], None, 0, None, None, None, [])

  function Persisted(o: Owner): Option<Ledger> {
    if o.history == [] then None else Some(o.history[|o.history| - 1].ledger)
  }

  datatype Reply =
    | Busy
    | RestoreMissing
    | LedgerInvalid
    | RestoreConflict
    | Replayed(status: EntryStatus)
    | RestartUncertain
    | RequestStale
    | LedgerFull
    | Cooldown
    | Admitted

  /** The checks between taking the guard and writing the receipt, in order. */
  function Screen(o: Owner, request: Request, now: int, fits: bool): Reply {
    match o.item
    case None => RestoreMissing
    case Some(ledger) =>
      if !ValidLedger(ledger) then LedgerInvalid
      else if Persisted(o) != Some(ledger) then RestoreConflict
      else if Receipt(ledger, request.id).Some? then Replayed(Receipt(ledger, request.id).value.status)
      else if exists i | 0 <= i < |ledger| :: ledger[i].status != Complete then RestartUncertain
      else if now - request.requestedAt > MAX_AGE_MS || request.requestedAt - now > MAX_SKEW_MS then RequestStale
      else if |ledger| >= MAX_ENTRIES then LedgerFull
      else
        var last := LastStart(ledger, o.cachedStart);
        if last.Some? && now - last.value < COOLDOWN_MS then Cooldown
        else if !fits then LedgerFull
        else Admitted
  }

  /** `runFeederOwner` up to the first asynchronous write; `fits` is the byte-budget check. */
  function Receive(o: Owner, request: Request, now: int, fits: bool): (Owner, Reply) {
    if o.guard.Some? then (o.(nextToken := o.nextToken + 1), Busy)
    else
      var reply := Screen(o, request, now, fits);
      if reply != Admitted then (o.(nextToken := o.nextToken + 1), reply)
      else
        var ledger := AcceptedLedger(o.item.value, request.id, now);
        (o.(guard := Some(Run(o.nextToken, request.id, now, ledger, AcceptPosted)),
            pendingItem := Some(ledger), nextToken := o.nextToken + 1), Admitted)
  }

  function SetPhase(o: Owner, phase: Phase): Owner
    requires o.guard.Some?
  {
    o.(guard := Some(o.guard.value.(phase := phase)))
  }

  /** The item readback of `writeLedger` succeeded, so the item is handed to JDBC. */
  function ItemReadBack(o: Owner): Owner {
    if o.guard.None? || o.item != Some(o.guard.value.ledger) then o
    else match o.guard.value.phase
      case AcceptPosted => SetPhase(o, AcceptPersisting).(pendingPersist := o.item)
      case CompletePosted => SetPhase(o, CompletePersisting).(pendingPersist := o.item)
      case _ => o
  }

  /** Item and newest JDBC row both read back as written: go on to the pulse, or release. */
  function PersistReadBack(o: Owner): Owner {
    if o.guard.None? || o.item != Some(o.guard.value.ledger) || Persisted(o) != o.item then o
    else match o.guard.value.phase
      case AcceptPersisting => SetPhase(o, Armed)
      case CompletePersisting => o.(guard := None)
      case _ => o
  }

  /** A readback deadline passed or a call threw: the guard stays held. */
  function GiveUp(o: Owner): Owner {
    if o.guard.None? then o else SetPhase(o, Held)
  }

  /** ON is sent unless the clock went backwards; sending may throw after the command left. */
  function SwitchOn(o: Owner, now: int, threw: bool): Owner {
    if o.guard.None? || o.guard.value.phase != Armed then o
    else if now < o.guard.value.startedAt then SetPhase(o, Held)
    else
      SetPhase(o, if threw then Held else Pulsing(now))
      .(cachedStart := Some(now), pulses := o.pulses + [Pulse(o.guard.value.id, now)])
  }

  /** The timer callback; only the token that still owns the guard may complete. */
  function TimerFires(o: Owner, token: nat, now: int, counterOk: bool): Owner {
    if o.guard.None? || o.guard.value.token != token then o
    else match o.guard.value.phase
      case Pulsing(onAt) =>
        if now < onAt + PULSE_MS then o
        else if !counterOk then SetPhase(o, Held)
        else
          var run := o.guard.value;
          var ledger := TerminalLedger(run.ledger, run.id, Complete, now);
          o.(guard := Some(run.(ledger := ledger, phase := CompletePosted)), pendingItem := Some(ledger))
      case _ => o
  }

  // --- The environment -----------------------------------------------------------

  function ItemLands(o: Owner): Owner {
    if o.pendingItem.None? then o else o.(item := o.pendingItem, pendingItem := None)
  }

  function PersistLands(o: Owner, at: int): Owner {
    if o.pendingPersist.None? then o
    else o.(history := o.history + [Snapshot(at, o.pendingPersist.value)], pendingPersist := None)
  }

  /** Any other update of the item: a foreign writer, or one of an earlier run that lands late. */
  function ItemWritten(o: Owner, state: Option<Ledger>): Owner { o.(item := state) }

  /** Cache, guard, running script and unlanded writes are lost; the item restores to anything. */
  function Restart(o: Owner, restored: Option<Ledger>): Owner {
    o.(item := restored, guard := None, cachedStart := None, pendingItem := None, pendingPersist := None)
  }

  datatype Step =
    | ReceiveStep(request: Request, fits: bool)
    | ItemReadBackStep
    | PersistReadBackStep
    | GiveUpStep
    | SwitchOnStep(threw: bool)
    | TimerStep(token: nat, counterOk: bool)
    | ItemLandsStep
    | PersistLandsStep
    | ItemWrittenStep(state: Option<Ledger>)
    | RestartStep(restored: Option<Ledger>)

  function Apply(o: Owner, now: int, step: Step): Owner {
    match step
    case ReceiveStep(request, fits) => Receive(o, request, now, fits).0
    case ItemReadBackStep => ItemReadBack(o)
    case PersistReadBackStep => PersistReadBack(o)
    case GiveUpStep => GiveUp(o)
    case SwitchOnStep(threw) => SwitchOn(o, now, threw)
    case TimerStep(token, counterOk) => TimerFires(o, token, now, counterOk)
    case ItemLandsStep => ItemLands(o)
    case PersistLandsStep => PersistLands(o, now)
    case ItemWrittenStep(state) => ItemWritten(o, state)
    case RestartStep(restored) => Restart(o, restored)
  }

  /** The script's own entry points, updating items, guard and cache in place. */
  class Script {
    var item: Option<Ledger>
    var history: seq<Snapshot>
    var guard: Option<Run>
    var nextToken: nat
    var cachedStart: Option<int>
    var pendingItem: Option<Ledger>
    var pendingPersist: Option<Ledger>
    var pulses: seq<Pulse>

    function State(): Owner
      reads this
    {
      Owner(item, history, guard, nextToken, cachedStart, pendingItem, pendingPersist, pulses)
    }

    constructor ()
      ensures State() == INITIAL
    {
      item, history, guard, nextToken := Some([]), [Snapshot(0, [])], None, 0;
      cachedStart, pendingItem, pendingPersist, pulses := None, None, None, [];
    }

    method RunFeederOwner(request: Request, now: int, fits: bool) returns (reply: Reply)
      modifies this
      ensures (State(), reply) == Receive(old(State()), request, now, fits)
    {
      var token := nextToken;
      nextToken := nextToken + 1;
      if guard.Some? {
        return Busy;
      }
      if item.None? {
        return RestoreMissing;
      }
      var ledger := item.value;
      if !ValidLedger(ledger) {
        return LedgerInvalid;
      }
      if Persisted(State()) != Some(ledger) {
        return RestoreConflict;
      }
      var previous := Receipt(ledger, request.id);
      if previous.Some? {
        return Replayed(previous.value.status);
      }
      if exists i | 0 <= i < |ledger| :: ledger[i].status != Complete {
        return RestartUncertain;
      }
      if now - request.requestedAt > MAX_AGE_MS || request.requestedAt - now > MAX_SKEW_MS {
        return RequestStale;
      }
      if |ledger| >= MAX_ENTRIES {
        return LedgerFull;
      }
      var last := LastStart(ledger, cachedStart);
      if last.Some? && now - last.value < COOLDOWN_MS {
        return Cooldown;
      }
      if !fits {
        return LedgerFull;
      }
      var accepted := AcceptedLedger(ledger, request.id, now);
      guard := Some(Run(token, request.id, now, accepted, AcceptPosted));
      pendingItem := Some(accepted);
      reply := Admitted;
    }

    method Actuate(now: int, threw: bool)
      modifies this
      ensures State() == SwitchOn(old(State()), now, threw)
    {
      if guard.None? || guard.value.phase != Armed {
        return;
      }
      if now < guard.value.startedAt {
        guard := Some(guard.value.(phase := Held));
        return;
      }
      cachedStart := Some(now);
      pulses := pulses + [Pulse(guard.value.id, now)];
      guard := Some(guard.value.(phase := if threw then Held else Pulsing(now)));
    }

    method TimerCallback(token: nat, now: int, counterOk: bool)
      modifies this
      ensures State() == TimerFires(old(State()), token, now, counterOk)
    {
      if guard.None? || guard.value.token != token || !guard.value.phase.Pulsing? {
        return;
      }
      if now < guard.value.phase.onAt + PULSE_MS {
        return;
      }
      if !counterOk {
        guard := Some(guard.value.(phase := Held));
        return;
      }
      var complete := TerminalLedger(guard.value.ledger, guard.value.id, Complete, now);
      guard := Some(guard.value.(ledger := complete, phase := CompletePosted));
      pendingItem := Some(complete);
    }
  }

  // --- What every step keeps -----------------------------------------------------

  /** `b` retains every receipt of `a`, and completions are final. */
  ghost predicate Extends(a: Ledger, b: Ledger) {
    forall id :: Receipt(a, id).Some? ==>
      && Receipt(b, id).Some?
      && Receipt(b, id).value.at == Receipt(a, id).value.at
      && (Receipt(a, id).value.status == Complete ==> Receipt(b, id) == Receipt(a, id))
  }

  ghost predicate Pulsed(pulses: seq<Pulse>, id: Uuid) {
    exists k | 0 <= k < |pulses| :: pulses[k].id == id
  }

  predicate IsComplete(ledger: Ledger, id: Uuid) {
    Receipt(ledger, id).Some? && Receipt(ledger, id).value.status == Complete
  }

  predicate AllKnown(ledger: Ledger) {
    forall i | 0 <= i < |ledger| ::
      (ledger[i].status == Accepted && ledger[i].updatedAt.None?) || ledger[i].status == Complete
  }

  /** A ledger the owner itself may have written: each pulse has its receipt, each completion its pulse. */
  ghost predicate Accounts(ledger: Ledger, pulses: seq<Pulse>) {
    && ValidLedger(ledger)
    && AllKnown(ledger)
    && (forall k | 0 <= k < |pulses| ::
          && Receipt(ledger, pulses[k].id).Some?
          && (IsComplete(ledger, pulses[k].id) ==>
                Receipt(ledger, pulses[k].id).value.updatedAt.value >= pulses[k].at + PULSE_MS))
    && (forall id :: IsComplete(ledger, id) ==> Pulsed(pulses, id))
  }

  ghost predicate Spaced(pulses: seq<Pulse>, now: int) {
    && (forall i | 0 <= i < |pulses| :: pulses[i].at <= now)
    && (forall i, j | 0 <= i < j < |pulses| ::
          pulses[i].id != pulses[j].id && pulses[i].at + PULSE_MS + COOLDOWN_MS <= pulses[j].at)
  }

  ghost predicate Retained(history: seq<Snapshot>, pulses: seq<Pulse>) {
    && history != []
    && (forall i | 0 <= i < |history| :: ValidLedger(history[i].ledger) && AllKnown(history[i].ledger))
    && (forall i | 0 <= i < |history| :: forall id :: IsComplete(history[i].ledger, id) ==> Pulsed(pulses, id))
    && (forall i, j | 0 <= i <= j < |history| :: Extends(history[i].ledger, history[j].ledger))
  }

  /** The newest JDBC row. */
  function Latest(history: seq<Snapshot>): Ledger
    requires history != []
  {
    history[|history| - 1].ledger
  }

  ghost predicate Durable(history: seq<Snapshot>, pulses: seq<Pulse>, now: int) {
    Retained(history, pulses) && Accounts(Latest(history), pulses) && Spaced(pulses, now)
  }

  /** `ledger` may become the row after `durable`. */
  ghost predicate Candidate(durable: Ledger, pulses: seq<Pulse>, ledger: Ledger) {
    Extends(durable, ledger) && Accounts(ledger, pulses)
  }

  /** The invocation may still pulse: its receipt is written but the actuator never saw its id. */
  ghost predicate Ready(pulses: seq<Pulse>, run: Run, now: int) {
    && !Pulsed(pulses, run.id)
    && Receipt(run.ledger, run.id) == Some(Entry(run.id, Accepted, run.startedAt, None))
    && run.startedAt <= now
    && (forall k | 0 <= k < |pulses| :: pulses[k].at + PULSE_MS + COOLDOWN_MS <= run.startedAt)
  }

  ghost predicate RunValid(durable: Ledger, pulses: seq<Pulse>, pending: Option<Ledger>, run: Run, now: int) {
    match run.phase
    case AcceptPosted =>
      && pending.None? && Receipt(durable, run.id).None?
      && Candidate(durable, pulses, run.ledger) && Ready(pulses, run, now)
    case AcceptPersisting =>
      && Candidate(durable, pulses, run.ledger) && Ready(pulses, run, now)
      && (pending.None? || (pending == Some(run.ledger) && Receipt(durable, run.id).None?))
    case Armed => pending.None? && durable == run.ledger && Ready(pulses, run, now)
    case Pulsing(onAt) =>
      && pending.None? && durable == run.ledger
      && Receipt(durable, run.id) == Some(Entry(run.id, Accepted, run.startedAt, None)) && run.startedAt <= now
      && pulses != [] && pulses[|pulses| - 1] == Pulse(run.id, onAt) && onAt <= now
    case CompletePosted =>
      && pending.None? && Candidate(durable, pulses, run.ledger)
      && !IsComplete(durable, run.id) && IsComplete(run.ledger, run.id)
    case CompletePersisting =>
      && Candidate(durable, pulses, run.ledger) && IsComplete(run.ledger, run.id)
      && (pending.None? || (pending == Some(run.ledger) && !IsComplete(durable, run.id)))
    case Held => true
  }

  ghost predicate Inv(o: Owner, now: int) {
    && Durable(o.history, o.pulses, now)
    && (o.pendingPersist.Some? ==> Candidate(Latest(o.history), o.pulses, o.pendingPersist.value))
    && (match o.guard
        case None => o.pendingPersist.None?
        case Some(run) => RunValid(Latest(o.history), o.pulses, o.pendingPersist, run, now))
  }

  lemma InitialInv(now: int)
    ensures Inv(INITIAL, now)
  {
  }

  lemma {:induction false} WithoutAbsent(ledger: Ledger, id: Uuid)
    requires Receipt(ledger, id).None?
    ensures Without(ledger, id) == ledger
  {
    if ledger != [] {
      assert ledger[0].id != id;
      forall i | 0 <= i < |ledger[1..]| ensures ledger[1..][i].id != id {
        assert ledger[i + 1].id != id;
      }
      WithoutAbsent(ledger[1..], id);
    }
  }

  lemma ReceiptOfPrepended(entry: Entry, ledger: Ledger, id: Uuid)
    ensures Receipt([entry] + ledger, id) == if entry.id == id then Some(entry) else Receipt(ledger, id)
  {
    assert ([entry] + ledger)[1..] == ledger;
  }

  /** Accepting a new identity keeps every receipt and adds exactly one, unfinished. */
  lemma {:induction false} AcceptExtends(ledger: Ledger, id: Uuid, at: int, pulses: seq<Pulse>)
    requires Accounts(ledger, pulses) && |ledger| < MAX_ENTRIES && Receipt(ledger, id).None?
    ensures var after := AcceptedLedger(ledger, id, at);
            && Extends(ledger, after)
            && Accounts(after, pulses)
            && Receipt(after, id) == Some(Entry(id, Accepted, at, None))
  {
    WithoutAbsent(ledger, id);
    var entry := Entry(id, Accepted, at, None);
    forall other
      ensures Receipt([entry] + ledger, other) == if id == other then Some(entry) else Receipt(ledger, other)
    {
      ReceiptOfPrepended(entry, ledger, other);
    }
  }

  lemma {:induction false} TerminalEntries(ledger: Ledger, id: Uuid, status: EntryStatus, updatedAt: int)
    ensures var after := TerminalLedger(ledger, id, status, updatedAt);
            && |after| == |ledger|
            && forall i | 0 <= i < |ledger| ::
                 after[i] == if ledger[i].id == id then ledger[i].(status := status, updatedAt := Some(updatedAt))
                             else ledger[i]
  {
    if ledger != [] {
      TerminalEntries(ledger[1..], id, status, updatedAt);
    }
  }

  lemma {:induction false} TerminalReceipt(ledger: Ledger, id: Uuid, status: EntryStatus, updatedAt: int, other: Uuid)
    ensures var after := TerminalLedger(ledger, id, status, updatedAt);
            Receipt(after, other)
            == if other == id && Receipt(ledger, id).Some?
               then Some(Receipt(ledger, id).value.(status := status, updatedAt := Some(updatedAt)))
               else Receipt(ledger, other)
  {
    if ledger != [] {
      TerminalReceipt(ledger[1..], id, status, updatedAt, other);
      var head := TerminalLedger(ledger, id, status, updatedAt)[0];
      ReceiptOfPrepended(head, TerminalLedger(ledger[1..], id, status, updatedAt), other);
    }
  }

  lemma TerminalValid(ledger: Ledger, id: Uuid, now: int)
    requires ValidLedger(ledger) && AllKnown(ledger)
    requires Receipt(ledger, id).Some? && Receipt(ledger, id).value.at <= now
    ensures var after := TerminalLedger(ledger, id, Complete, now); ValidLedger(after) && AllKnown(after)
  {
    var after := TerminalLedger(ledger, id, Complete, now);
    TerminalEntries(ledger, id, Complete, now);
    forall i | 0 <= i < |after| ensures ValidEntry(after[i]) {
      if ledger[i].id == id {
        assert ledger[i] == Receipt(ledger, id).value;
      }
    }
  }

  /** Completing the pulsed receipt keeps every other one. */
  lemma CompleteExtends(ledger: Ledger, id: Uuid, now: int, pulses: seq<Pulse>, onAt: int)
    requires Accounts(ledger, pulses) && Spaced(pulses, now)
    requires Receipt(ledger, id).Some? && !IsComplete(ledger, id)
    requires pulses != [] && pulses[|pulses| - 1] == Pulse(id, onAt) && onAt + PULSE_MS <= now
    requires Receipt(ledger, id).value.at <= now
    ensures var after := TerminalLedger(ledger, id, Complete, now);
            Extends(ledger, after) && Accounts(after, pulses) && IsComplete(after, id)
  {
    TerminalValid(ledger, id, now);
    forall other { TerminalReceipt(ledger, id, Complete, now, other); }
    CompletedAccounts(ledger, TerminalLedger(ledger, id, Complete, now), id, now, pulses, onAt);
  }

  lemma CompletedAccounts(ledger: Ledger, after: Ledger, id: Uuid, now: int, pulses: seq<Pulse>, onAt: int)
    requires Accounts(ledger, pulses) && Spaced(pulses, now)
    requires Receipt(ledger, id).Some? && !IsComplete(ledger, id)
    requires pulses != [] && pulses[|pulses| - 1] == Pulse(id, onAt) && onAt + PULSE_MS <= now
    requires ValidLedger(after) && AllKnown(after)
    requires forall other ::
               Receipt(after, other)
               == if other == id then Some(Receipt(ledger, id).value.(status := Complete, updatedAt := Some(now)))
                  else Receipt(ledger, other)
    ensures Extends(ledger, after) && Accounts(after, pulses) && IsComplete(after, id)
  {
    assert Pulsed(pulses, id);
  }

  lemma ExtendsTransitive(a: Ledger, b: Ledger, c: Ledger)
    requires Extends(a, b) && Extends(b, c)
    ensures Extends(a, c)
  {
  }

  /** A landing row retains what came before it. */
  lemma LandKeepsRetained(history: seq<Snapshot>, pulses: seq<Pulse>, ledger: Ledger, at: int)
    requires Retained(history, pulses) && Candidate(Latest(history), pulses, ledger)
    ensures Retained(history + [Snapshot(at, ledger)], pulses)
  {
    var after := history + [Snapshot(at, ledger)];
    forall i, j | 0 <= i <= j < |after| ensures Extends(after[i].ledger, after[j].ledger) {
      if i < |history| == j {
        ExtendsTransitive(history[i].ledger, Latest(history), ledger);
      }
    }
  }

  /** The run whose write landed goes on from it. */
  lemma LandKeepsRun(durable: Ledger, pulses: seq<Pulse>, ledger: Ledger, run: Run, now: int)
    requires RunValid(durable, pulses, Some(ledger), run, now) && Accounts(ledger, pulses)
    ensures RunValid(ledger, pulses, None, run, now)
  {
  }

  lemma PersistKeepsInv(o: Owner, now: int, at: int)
    requires Inv(o, now)
    ensures Inv(PersistLands(o, at), now)
  {
    if o.pendingPersist.Some? {
      LandKeepsRetained(o.history, o.pulses, o.pendingPersist.value, at);
      LandKeepsRun(Latest(o.history), o.pulses, o.pendingPersist.value, o.guard.value, now);
    }
  }

  /** Every pulse is complete in an admitting ledger, and the cooldown has passed since. */
  lemma AdmissionRested(ledger: Ledger, cached: Option<int>, pulses: seq<Pulse>, id: Uuid, now: int)
    requires Accounts(ledger, pulses) && Receipt(ledger, id).None?
    requires forall i | 0 <= i < |ledger| :: ledger[i].status == Complete
    requires LastStart(ledger, cached).Some? ==> now - LastStart(ledger, cached).value >= COOLDOWN_MS
    ensures !Pulsed(pulses, id)
    ensures forall k | 0 <= k < |pulses| :: pulses[k].at + PULSE_MS + COOLDOWN_MS <= now
  {
    forall k | 0 <= k < |pulses| ensures pulses[k].id != id && pulses[k].at + PULSE_MS + COOLDOWN_MS <= now {
      var receipt := Receipt(ledger, pulses[k].id).value;
      assert receipt.status == Complete;
      LastStartBounds(ledger, cached, receipt);
    }
  }

  lemma ReceiveKeepsInv(o: Owner, now: int, request: Request, fits: bool)
    requires Inv(o, now)
    ensures Inv(Receive(o, request, now, fits).0, now)
  {
    if o.guard.None? && Screen(o, request, now, fits) == Admitted {
      AcceptExtends(o.item.value, request.id, now, o.pulses);
      AdmissionRested(o.item.value, o.cachedStart, o.pulses, request.id, now);
    }
  }

  /** The start bound covers every completion retained in the ledger. */
  lemma {:induction false} LastStartBounds(ledger: Ledger, cached: Option<int>, entry: Entry)
    requires entry in ledger && entry.updatedAt.Some?
    ensures LastStart(ledger, cached).Some? && entry.updatedAt.value <= LastStart(ledger, cached).value
  {
    if entry in ledger[1..] {
      LastStartBounds(ledger[1..], cached, entry);
    }
  }

  lemma SwitchOnKeepsInv(o: Owner, now: int, threw: bool)
    requires Inv(o, now)
    ensures Inv(SwitchOn(o, now, threw), now)
  {
    if o.guard.Some? && o.guard.value.phase == Armed && now >= o.guard.value.startedAt {
      var run := o.guard.value;
      PulseKeepsAccounts(run.ledger, o.pulses, Pulse(run.id, now));
      PulseKeepsRetained(o.history, o.pulses, Pulse(run.id, now));
    }
  }

  lemma PulseKeepsAccounts(ledger: Ledger, pulses: seq<Pulse>, pulse: Pulse)
    requires Accounts(ledger, pulses)
    requires Receipt(ledger, pulse.id).Some? && !IsComplete(ledger, pulse.id)
    ensures Accounts(ledger, pulses + [pulse])
  {
    PulseAppended(pulses, pulse);
  }

  lemma PulseKeepsRetained(history: seq<Snapshot>, pulses: seq<Pulse>, pulse: Pulse)
    requires Retained(history, pulses)
    ensures Retained(history, pulses + [pulse])
  {
    PulseAppended(pulses, pulse);
  }

  lemma PulseAppended(pulses: seq<Pulse>, pulse: Pulse)
    ensures forall id :: Pulsed(pulses + [pulse], id) <==> Pulsed(pulses, id) || id == pulse.id
  {
    var after := pulses + [pulse];
    assert after[|pulses|] == pulse;
    forall id | Pulsed(pulses, id) ensures Pulsed(after, id) {
      var k :| 0 <= k < |pulses| && pulses[k].id == id;
      assert after[k].id == id;
    }
  }

  lemma TimerKeepsInv(o: Owner, now: int, token: nat, counterOk: bool)
    requires Inv(o, now)
    ensures Inv(TimerFires(o, token, now, counterOk), now)
  {
    if o.guard.Some? && o.guard.value.phase.Pulsing? && now >= o.guard.value.phase.onAt + PULSE_MS {
      var run := o.guard.value;
      CompleteExtends(run.ledger, run.id, now, o.pulses, run.phase.onAt);
    }
  }

  lemma ItemReadBackKeepsInv(o: Owner, now: int)
    requires Inv(o, now)
    ensures Inv(ItemReadBack(o), now)
  {
  }

  /** The accepted receipt is the newest row, so its write has landed. */
  lemma ArmedIsValid(durable: Ledger, pulses: seq<Pulse>, pending: Option<Ledger>, run: Run, now: int)
    requires RunValid(durable, pulses, pending, run, now) && run.phase == AcceptPersisting && durable == run.ledger
    ensures pending.None? && RunValid(durable, pulses, pending, run.(phase := Armed), now)
  {
  }

  lemma CompletedHasLanded(durable: Ledger, pulses: seq<Pulse>, pending: Option<Ledger>, run: Run, now: int)
    requires RunValid(durable, pulses, pending, run, now) && run.phase == CompletePersisting && durable == run.ledger
    ensures pending.None?
  {
  }

  lemma PersistReadBackKeepsInv(o: Owner, now: int)
    requires Inv(o, now)
    ensures Inv(PersistReadBack(o), now)
  {
    if PersistReadBack(o) != o {
      var run := o.guard.value;
      if run.phase == AcceptPersisting {
        ArmedIsValid(Latest(o.history), o.pulses, o.pendingPersist, run, now);
      } else {
        CompletedHasLanded(Latest(o.history), o.pulses, o.pendingPersist, run, now);
      }
    }
  }

  lemma TimeKeepsInv(o: Owner, before: int, now: int)
    requires Inv(o, before) && before <= now
    ensures Inv(o, now)
  {
  }

  lemma ApplyKeepsInv(o: Owner, before: int, now: int, step: Step)
    requires Inv(o, before) && before <= now
    ensures Inv(Apply(o, now, step), now)
  {
    TimeKeepsInv(o, before, now);
    match step
    case ReceiveStep(request, fits) => ReceiveKeepsInv(o, now, request, fits);
    case ItemReadBackStep => ItemReadBackKeepsInv(o, now);
    case PersistReadBackStep => PersistReadBackKeepsInv(o, now);
    case GiveUpStep =>
    case SwitchOnStep(threw) => SwitchOnKeepsInv(o, now, threw);
    case TimerStep(token, counterOk) => TimerKeepsInv(o, now, token, counterOk);
    case ItemLandsStep =>
    case PersistLandsStep => PersistKeepsInv(o, now, now);
    case ItemWrittenStep(state) =>
    case RestartStep(restored) =>
  }

  // --- Timestamps ----------------------------------------------------------------

  ghost predicate StampedBy(ledger: Ledger, time: int) {
    forall id :: IsComplete(ledger, id) ==>
      var updatedAt := Receipt(ledger, id).value.updatedAt; updatedAt.Some? && updatedAt.value <= time
  }

  /** JDBC rows are stamped in order, and never before a completion they contain. */
  ghost predicate Stamped(history: seq<Snapshot>, now: int) {
    && (forall i, j | 0 <= i < j < |history| :: history[i].at <= history[j].at)
    && (forall i | 0 <= i < |history| :: history[i].at <= now && StampedBy(history[i].ledger, history[i].at))
  }

  ghost predicate Stamps(o: Owner, now: int) {
    && Stamped(o.history, now)
    && (o.pendingPersist.Some? ==> StampedBy(o.pendingPersist.value, now))
    && (o.guard.Some? ==> StampedBy(o.guard.value.ledger, now))
  }

  lemma ReceiveKeepsStamps(o: Owner, now: int, request: Request, fits: bool)
    requires Stamps(o, now)
    ensures Stamps(Receive(o, request, now, fits).0, now)
  {
    if o.guard.None? && Screen(o, request, now, fits) == Admitted {
      var ledger := o.item.value;
      WithoutAbsent(ledger, request.id);
      assert ledger == o.history[|o.history| - 1].ledger;
      forall id { ReceiptOfPrepended(Entry(request.id, Accepted, now, None), ledger, id); }
    }
  }

  lemma TimerKeepsStamps(o: Owner, now: int, token: nat, counterOk: bool)
    requires Stamps(o, now)
    ensures Stamps(TimerFires(o, token, now, counterOk), now)
  {
    if o.guard.Some? {
      var run := o.guard.value;
      forall id { TerminalReceipt(run.ledger, run.id, Complete, now, id); }
    }
  }

  lemma PersistKeepsStamps(o: Owner, now: int)
    requires Stamps(o, now)
    ensures Stamps(PersistLands(o, now), now)
  {
  }

  lemma TimeKeepsStamps(o: Owner, before: int, now: int)
    requires Stamps(o, before) && before <= now
    ensures Stamps(o, now)
  {
  }

  /** Steps that write no ledger of their own. */
  lemma OtherStepsKeepStamps(o: Owner, now: int, step: Step)
    requires Stamps(o, now) && !step.ReceiveStep? && !step.TimerStep? && !step.PersistLandsStep?
    ensures Stamps(Apply(o, now, step), now)
  {
  }

  lemma ApplyKeepsStamps(o: Owner, before: int, now: int, step: Step)
    requires Stamps(o, before) && before <= now
    ensures Stamps(Apply(o, now, step), now)
  {
    TimeKeepsStamps(o, before, now);
    match step
    case ReceiveStep(request, fits) => ReceiveKeepsStamps(o, now, request, fits);
    case TimerStep(token, counterOk) => TimerKeepsStamps(o, now, token, counterOk);
    case PersistLandsStep => PersistKeepsStamps(o, now);
    case _ => OtherStepsKeepStamps(o, now, step);
  }

  // --- The pace of the history ----------------------------------------------------

  predicate AllComplete(ledger: Ledger) { forall i | 0 <= i < |ledger| :: ledger[i].status == Complete }

  predicate PacedAt(history: seq<Snapshot>, i: nat)
    requires 1 <= i < |history|
  {
    && history[i - 1].at <= history[i].at
    && (i >= 2 ==> history[i - 2].at + PULSE_MS <= history[i].at)
  }

  /** Rows are ordered, and of any three in a row the last is a pulse later than the first. */
  ghost predicate Paced(history: seq<Snapshot>, now: int) {
    && history != [] && history[|history| - 1].at <= now
    && (forall i | 1 <= i < |history| :: PacedAt(history, i))
    && (AllComplete(Latest(history)) && |history| >= 2 ==>
          history[|history| - 2].at + PULSE_MS <= history[|history| - 1].at)
  }

  /** `ledger` may land: it opens an attempt on a finished ledger, or comes a pulse after the newest row. */
  ghost predicate Due(history: seq<Snapshot>, ledger: Ledger, now: int)
    requires history != []
  {
    || (AllComplete(Latest(history)) && !AllComplete(ledger))
    || history[|history| - 1].at + PULSE_MS <= now
  }

  ghost predicate RunPaced(history: seq<Snapshot>, run: Run, now: int)
    requires history != []
  {
    match run.phase
    case AcceptPosted => Due(history, run.ledger, now)
    case Pulsing(onAt) => history[|history| - 1].at <= onAt
    case CompletePosted => Due(history, run.ledger, now)
    case _ => true
  }

  ghost predicate Tempo(o: Owner, now: int) {
    && Paced(o.history, now)
    && (o.pendingPersist.Some? ==> Due(o.history, o.pendingPersist.value, now))
    && (o.guard.Some? ==> RunPaced(o.history, o.guard.value, now))
  }

  lemma LandKeepsPace(history: seq<Snapshot>, ledger: Ledger, now: int)
    requires Paced(history, now) && Due(history, ledger, now)
    ensures Paced(history + [Snapshot(now, ledger)], now)
  {
    var after := history + [Snapshot(now, ledger)];
    assert |history| >= 2 ==> PacedAt(history, |history| - 1);
    forall i | 1 <= i < |after| ensures PacedAt(after, i) {
      assert i < |history| ==> PacedAt(history, i);
    }
  }

  lemma TimeKeepsTempo(o: Owner, before: int, now: int)
    requires Tempo(o, before) && before <= now
    ensures Tempo(o, now)
  {
  }

  lemma ReceiveKeepsTempo(o: Owner, now: int, request: Request, fits: bool)
    requires Tempo(o, now)
    ensures Tempo(Receive(o, request, now, fits).0, now)
  {
    if o.guard.None? && Screen(o, request, now, fits) == Admitted {
      assert AllComplete(Latest(o.history));
      assert AcceptedLedger(o.item.value, request.id, now)[0].status == Accepted;
    }
  }

  lemma PersistKeepsTempo(o: Owner, now: int)
    requires Inv(o, now) && Tempo(o, now)
    ensures Tempo(PersistLands(o, now), now)
  {
    if o.pendingPersist.Some? {
      LandKeepsPace(o.history, o.pendingPersist.value, now);
    }
  }

  /** Steps that neither admit a request nor land a row. */
  lemma OtherStepsKeepTempo(o: Owner, now: int, step: Step)
    requires Tempo(o, now) && !step.ReceiveStep? && !step.PersistLandsStep?
    ensures Tempo(Apply(o, now, step), now)
  {
  }

  lemma ApplyKeepsTempo(o: Owner, before: int, now: int, step: Step)
    requires Inv(o, now) && Tempo(o, before) && before <= now
    ensures Tempo(Apply(o, now, step), now)
  {
    TimeKeepsTempo(o, before, now);
    match step
    case ReceiveStep(request, fits) => ReceiveKeepsTempo(o, now, request, fits);
    case PersistLandsStep => PersistKeepsTempo(o, now);
    case _ => OtherStepsKeepTempo(o, now, step);
  }

  /** Every second row is at least a pulse later. */
  lemma {:induction false} PaceSpreads(history: seq<Snapshot>, now: int, i: nat, k: nat)
    requires Paced(history, now) && i + 2 * k < |history|
    ensures history[i].at + PULSE_MS * k <= history[i + 2 * k].at
  {
    if k > 0 {
      PaceSpreads(history, now, i, k - 1);
      assert PacedAt(history, i + 2 * k);
    }
  }

  lemma {:induction false} PaceOrders(history: seq<Snapshot>, now: int, i: nat, j: nat)
    requires Paced(history, now) && i <= j < |history|
    ensures history[i].at <= history[j].at
  {
    if i < j {
      PaceOrders(history, now, i, j - 1);
      assert PacedAt(history, j);
    }
  }

  // --- Dates ----------------------------------------------------------------------

  /** Every time in the ledger was read from the clock between two moments. */
  predicate Dated(ledger: Ledger, lo: int, now: int) {
    forall i | 0 <= i < |ledger| ::
      && lo <= ledger[i].at <= now
      && (ledger[i].updatedAt.Some? ==> lo <= ledger[i].updatedAt.value <= now)
  }

  ghost predicate Dates(o: Owner, lo: int, now: int) {
    && o.history != []
    && (forall i | 0 <= i < |o.history| :: Dated(o.history[i].ledger, lo, now))
    && (o.pendingPersist.Some? ==> Dated(o.pendingPersist.value, lo, now))
    && (o.guard.Some? ==> Dated(o.guard.value.ledger, lo, now))
  }

  lemma TimeKeepsDates(o: Owner, lo: int, before: int, now: int)
    requires Dates(o, lo, before) && before <= now
    ensures Dates(o, lo, now)
  {
  }

  lemma ReceiveKeepsDates(o: Owner, lo: int, now: int, request: Request, fits: bool)
    requires Dates(o, lo, now) && lo <= now
    ensures Dates(Receive(o, request, now, fits).0, lo, now)
  {
    if o.guard.None? && Screen(o, request, now, fits) == Admitted {
      WithoutAbsent(o.item.value, request.id);
      assert o.item.value == o.history[|o.history| - 1].ledger;
    }
  }

  lemma TimerKeepsDates(o: Owner, lo: int, now: int, token: nat, counterOk: bool)
    requires Dates(o, lo, now) && lo <= now
    ensures Dates(TimerFires(o, token, now, counterOk), lo, now)
  {
    if o.guard.Some? {
      TerminalEntries(o.guard.value.ledger, o.guard.value.id, Complete, now);
    }
  }

  lemma ApplyKeepsDates(o: Owner, lo: int, before: int, now: int, step: Step)
    requires Dates(o, lo, before) && lo <= before <= now
    ensures Dates(Apply(o, now, step), lo, now)
  {
    TimeKeepsDates(o, lo, before, now);
    match step
    case ReceiveStep(request, fits) => ReceiveKeepsDates(o, lo, now, request, fits);
    case TimerStep(token, counterOk) => TimerKeepsDates(o, lo, now, token, counterOk);
    case _ =>
  }

  // --- Whole runs ----------------------------------------------------------------

  datatype TimedStep = TimedStep(at: nat, step: Step)

  function RunAll(steps: seq<TimedStep>): Owner {
    if steps == [] then INITIAL
    else Apply(RunAll(steps[..|steps| - 1]), steps[|steps| - 1].at, steps[|steps| - 1].step)
  }

  ghost predicate Monotone(steps: seq<TimedStep>) {
    forall i, j | 0 <= i < j < |steps| :: steps[i].at <= steps[j].at
  }

  lemma {:induction false} RunKeepsInv(steps: seq<TimedStep>, now: nat)
    requires Monotone(steps) && (steps != [] ==> steps[|steps| - 1].at <= now)
    ensures Inv(RunAll(steps), now) && Stamps(RunAll(steps), now)
  {
    if steps == [] {
      InitialInv(now);
    } else {
      var front, last := steps[..|steps| - 1], steps[|steps| - 1];
      RunKeepsInv(front, last.at);
      ApplyKeepsInv(RunAll(front), last.at, last.at, last.step);
      ApplyKeepsStamps(RunAll(front), last.at, last.at, last.step);
      assert Inv(RunAll(steps), now);
    }
  }

  lemma {:induction false} RunKeepsTempo(steps: seq<TimedStep>, now: nat)
    requires Monotone(steps) && (steps != [] ==> steps[|steps| - 1].at <= now)
    ensures Tempo(RunAll(steps), now)
  {
    if steps != [] {
      var front, last := steps[..|steps| - 1], steps[|steps| - 1];
      RunKeepsTempo(front, last.at);
      RunKeepsInv(front, last.at);
      ApplyKeepsTempo(RunAll(front), last.at, last.at, last.step);
      TimeKeepsTempo(RunAll(steps), last.at, now);
    }
  }

  lemma {:induction false} RunKeepsDates(steps: seq<TimedStep>, lo: nat, now: nat)
    requires Monotone(steps) && (steps != [] ==> steps[|steps| - 1].at <= now)
    requires lo <= now && forall i | 0 <= i < |steps| :: lo <= steps[i].at
    ensures Dates(RunAll(steps), lo, now)
  {
    if steps != [] {
      var front, last := steps[..|steps| - 1], steps[|steps| - 1];
      RunKeepsDates(front, lo, last.at);
      ApplyKeepsDates(RunAll(front), lo, last.at, last.at, last.step);
      TimeKeepsDates(RunAll(steps), lo, last.at, now);
    }
  }

  /**
   Over every run, restarts included: no identity is pulsed twice, any two ON commands are at least
   the cooldown apart (the one-second pulse comes on top), no durable receipt is ever lost or
   reopened, and no durable ledger holds more than 32 entries.
   */
  lemma {:induction false} ActuationIsSafe(steps: seq<TimedStep>)
    requires Monotone(steps)
    ensures var o := RunAll(steps);
            && (forall i, j | 0 <= i < j < |o.pulses| ::
                  o.pulses[i].id != o.pulses[j].id && o.pulses[i].at + COOLDOWN_MS + PULSE_MS <= o.pulses[j].at)
            && (forall i, j | 0 <= i <= j < |o.history| :: Extends(o.history[i].ledger, o.history[j].ledger))
            && Persisted(o).Some? && |Persisted(o).value| <= MAX_ENTRIES
            && (forall k | 0 <= k < |o.pulses| :: Receipt(Persisted(o).value, o.pulses[k].id).Some?)
            && (forall id :: IsComplete(Persisted(o).value, id) ==> Pulsed(o.pulses, id))
  {
    RunKeepsInv(steps, if steps == [] then 0 else steps[|steps| - 1].at);
  }
}
