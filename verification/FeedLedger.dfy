/**
 The feed part of the daemon's ledger (src/ledger/feed.rs) with the two tables it shares with
 the payment code: `ledger_entries` and `event_log`.

 One SQLite transaction is one step and a failed transaction leaves every table as it was.
 */
module FeedLedger {
  import opened Wrappers

  const MAX_COOLDOWN: int := 86_400

  datatype AttemptStatus = IntentCommitted | Unknown | Confirmed | ReconciledNotFed

  datatype Attempt = Attempt(id: Uuid, status: AttemptStatus, threshold: int)

  /** `ledger_entries.source_key`, unique by the schema. */
  datatype SourceKey =
    | PaymentKey(source: string, sourceId: string)
    | ReceiptKey(receipt: nat)
    | FeedKey(attempt: Uuid)

  datatype Entry = Entry(key: SourceKey, delta: int)

  /** `event_log`; the sequence number of an event is its index plus one. */
  datatype Event =
    | PaymentReceived(amount: nat, credit: int)
    | FeederConfirmed(id: Uuid, threshold: int, credit: int)
    | FeedReconciledNotFed(id: Uuid, credit: int)
    | FeederNotDispatched(id: Uuid, retryAfter: int)
    | ProcessingError(attempt: Option<Uuid>)
    | Informational(name: string)

  datatype Tables = Tables(entries: seq<Entry>, attempts: seq<Attempt>, resumeAfter: int, events: seq<Event>)

  const EMPTY: Tables := Tables([], [], 0, [])

  predicate Unresolved(a: Attempt) { a.status == IntentCommitted || a.status == Unknown }

  // --- Queries -------------------------------------------------------------------

  /** `SUM(delta_sats)`. */
  function Sum(entries: seq<Entry>): int {
    if entries == [] then 0 else Sum(entries[..|entries| - 1]) + entries[|entries| - 1].delta
  }

  /** SQLite aborts the query when the running total leaves the 64-bit range. */
  predicate SumInRange(entries: seq<Entry>) {
    entries == []
    || (SumInRange(entries[..|entries| - 1]) && -I64_MAX - 1 <= Sum(entries) <= I64_MAX)
  }

  /** `feed_credit_in_transaction`: a negative balance is an invariant violation. */
  function FeedCredit(entries: seq<Entry>): Result<nat> {
    if !SumInRange(entries) || Sum(entries) < 0 then Err else Ok(Sum(entries))
  }

  predicate HasKey(entries: seq<Entry>, key: SourceKey) {
    exists i | 0 <= i < |entries| :: entries[i].key == key
  }

  /** `SELECT ... WHERE status IN ('intent_committed','unknown') LIMIT 1`. */
  function FindUnresolved(attempts: seq<Attempt>): (r: Option<nat>)
    ensures r.Some? ==> r.value < |attempts| && Unresolved(attempts[r.value])
    ensures r.None? <==> forall i | 0 <= i < |attempts| :: !Unresolved(attempts[i])
  {
    if attempts == [] then None
    else if Unresolved(attempts[|attempts| - 1]) then Some(|attempts| - 1)
    else FindUnresolved(attempts[..|attempts| - 1])
  }

  function FindAttempt(attempts: seq<Attempt>, id: Uuid): (r: Option<nat>)
    ensures r.Some? ==> r.value < |attempts| && attempts[r.value].id == id
    ensures r.None? <==> forall i | 0 <= i < |attempts| :: attempts[i].id != id
  {
    if attempts == [] then None
    else if attempts[|attempts| - 1].id == id then Some(|attempts| - 1)
    else FindAttempt(attempts[..|attempts| - 1], id)
  }

  /** The attempt with this identity, when it is in one of the given states. */
  function FindIn(attempts: seq<Attempt>, id: Uuid, statuses: set<AttemptStatus>): (r: Option<nat>)
    ensures r.Some? ==> r.value < |attempts| && attempts[r.value].id == id && attempts[r.value].status in statuses
  {
    match FindAttempt(attempts, id)
    case Some(i) => if attempts[i].status in statuses then Some(i) else None
    case None => None
  }

  function SetStatus(attempts: seq<Attempt>, i: nat, status: AttemptStatus): seq<Attempt>
    requires i < |attempts|
  {
    attempts[i := attempts[i].(status := status)]
  }

  // --- Transactions --------------------------------------------------------------

  /** Credit one receipt: a ledger entry and its public event, in the caller's transaction. */
  function Receive(t: Tables, key: SourceKey, amount: nat): Result<Tables> {
    if HasKey(t.entries, key) then Err
    else
      var entries := t.entries + [Entry(key, amount)];
      match FeedCredit(entries)
      case Err => Err
      case Ok(credit) => Ok(t.(entries := entries, events := t.events + [PaymentReceived(amount, credit)]))
  }

  function MarkInterrupted(t: Tables): Tables {
    match FindUnresolved(t.attempts)
    case Some(i) =>
      if t.attempts[i].status == IntentCommitted then
        t.(attempts := SetStatus(t.attempts, i, Unknown), events := t.events + [ProcessingError(None)])
      else t
    case None => t
  }

  /** `newId` is the identity `Uuid::new_v4()` returns. */
  function BeginAttempt(t: Tables, now: int, threshold: nat, newId: Uuid): (Tables, Result<Option<Uuid>>) {
    if threshold == 0 || threshold > I64_MAX then (t, Err)
    else if FindUnresolved(t.attempts).Some? then (t, Err)
    else if t.resumeAfter > now then (t, Ok(None))
    else match FeedCredit(t.entries)
      case Err => (t, Err)
      case Ok(credit) =>
        if credit < threshold then (t, Ok(None))
        else if FindAttempt(t.attempts, newId).Some? then (t, Err)
        else (t.(attempts := t.attempts + [Attempt(newId, IntentCommitted, threshold)]), Ok(Some(newId)))
  }

  function MarkUnknown(t: Tables, id: Uuid): (Tables, Result<()>) {
    match FindIn(t.attempts, id, {IntentCommitted})
    case None => (t, Err)
    case Some(i) =>
      (t.(attempts := SetStatus(t.attempts, i, Unknown), events := t.events + [ProcessingError(Some(id))]), Ok(()))
  }

  /** `confirm_feed_attempt` expects an intent, `reconcile_unknown_as_fed` an unknown attempt. */
  function ResolveAsFed(t: Tables, id: Uuid, expected: AttemptStatus): (Tables, Result<()>) {
    match FindIn(t.attempts, id, {expected})
    case None => (t, Err)
    case Some(i) =>
      var threshold := t.attempts[i].threshold;
      match FeedCredit(t.entries)
      case Err => (t, Err)
      case Ok(credit) =>
        if threshold < 0 || credit < threshold || HasKey(t.entries, FeedKey(id)) then (t, Err)
        else
          var entries := t.entries + [Entry(FeedKey(id), -threshold)];
          match FeedCredit(entries)
          case Err => (t, Err)
          case Ok(left) =>
            (t.(attempts := SetStatus(t.attempts, i, Confirmed), entries := entries,
                events := t.events + [FeederConfirmed(id, threshold, left)]), Ok(()))
  }

  function ReconcileNotFed(t: Tables, id: Uuid): (Tables, Result<()>) {
    match FindIn(t.attempts, id, {Unknown})
    case None => (t, Err)
    case Some(i) =>
      match FeedCredit(t.entries)
      case Err => (t, Err)
      case Ok(credit) =>
        (t.(attempts := SetStatus(t.attempts, i, ReconciledNotFed),
            events := t.events + [FeedReconciledNotFed(id, credit)]), Ok(()))
  }

  function ResolveNotDispatched(t: Tables, now: int, id: Uuid, retryAfter: nat): (Tables, Result<()>) {
    if !(1 <= retryAfter <= MAX_COOLDOWN) then (t, Err)
    else match FindIn(t.attempts, id, {IntentCommitted, Unknown})
      case None => (t, Err)
      case Some(i) =>
        (t.(attempts := SetStatus(t.attempts, i, ReconciledNotFed),
            resumeAfter := Max(t.resumeAfter, now + retryAfter),
            events := t.events + [FeederNotDispatched(id, retryAfter)]), Ok(()))
  }

  // --- The store -----------------------------------------------------------------

  class Store {
    var entries: seq<Entry>
    var attempts: seq<Attempt>
    var resumeAfter: int
    var events: seq<Event>

    function State(): Tables
      reads this
    {
      Tables(entries, attempts, resumeAfter, events)
    }

    constructor ()
      ensures State() == EMPTY
    {
      entries, attempts, resumeAfter, events := [], [], 0, [];
    }

    method MarkInterruptedIntentsUnknown() returns (affected: nat)
      modifies this
      ensures State() == MarkInterrupted(old(State()))
      ensures affected == if State() == old(State()) then 0 else 1
    {
      affected := 0;
      var row := FindUnresolved(attempts);
      if row.Some? && attempts[row.value].status == IntentCommitted {
        attempts := SetStatus(attempts, row.value, Unknown);
        events := events + [ProcessingError(None)];
        affected := 1;
        assert |events| == |old(events)| + 1;
      }
    }

    method BeginFeedAttempt(now: int, threshold: nat, newId: Uuid) returns (r: Result<Option<Uuid>>)
      modifies this
      ensures (State(), r) == BeginAttempt(old(State()), now, threshold, newId)
    {
      if threshold == 0 || threshold > I64_MAX {
        return Err;
      }
      if FindUnresolved(attempts).Some? {
        return Err;
      }
      if resumeAfter > now {
        return Ok(None);
      }
      var credit := FeedCredit(entries);
      if credit.Err? {
        return Err;
      }
      if credit.value < threshold {
        return Ok(None);
      }
      if FindAttempt(attempts, newId).Some? {
        return Err;
      }
      attempts := attempts + [Attempt(newId, IntentCommitted, threshold)];
      r := Ok(Some(newId));
    }

    method MarkFeedUnknown(id: Uuid) returns (r: Result<()>)
      modifies this
      ensures (State(), r) == MarkUnknown(old(State()), id)
    {
      var row := FindIn(attempts, id, {IntentCommitted});
      if row.None? {
        return Err;
      }
      attempts := SetStatus(attempts, row.value, Unknown);
      events := events + [ProcessingError(Some(id))];
      r := Ok(());
    }

    method Resolve(id: Uuid, expected: AttemptStatus) returns (r: Result<()>)
      modifies this
      ensures (State(), r) == ResolveAsFed(old(State()), id, expected)
    {
      var row := FindIn(attempts, id, {expected});
      if row.None? {
        return Err;
      }
      var threshold := attempts[row.value].threshold;
      var current := FeedCredit(entries);
      if current.Err? || threshold < 0 || current.value < threshold || HasKey(entries, FeedKey(id)) {
        return Err;
      }
      var left := FeedCredit(entries + [Entry(FeedKey(id), -threshold)]);
      if left.Err? {
        return Err;
      }
      attempts := SetStatus(attempts, row.value, Confirmed);
      entries := entries + [Entry(FeedKey(id), -threshold)];
      events := events + [FeederConfirmed(id, threshold, left.value)];
      r := Ok(());
    }

    method ReconcileUnknownAsNotFed(id: Uuid) returns (r: Result<()>)
      modifies this
      ensures (State(), r) == ReconcileNotFed(old(State()), id)
    {
      var row := FindIn(attempts, id, {Unknown});
      var credit := FeedCredit(entries);
      if row.None? || credit.Err? {
        return Err;
      }
      attempts := SetStatus(attempts, row.value, ReconciledNotFed);
      events := events + [FeedReconciledNotFed(id, credit.value)];
      r := Ok(());
    }

    method ResolveFeedNotDispatched(now: int, id: Uuid, retryAfter: nat) returns (r: Result<()>)
      modifies this
      ensures (State(), r) == ResolveNotDispatched(old(State()), now, id, retryAfter)
    {
      if !(1 <= retryAfter <= MAX_COOLDOWN) {
        return Err;
      }
      var row := FindIn(attempts, id, {IntentCommitted, Unknown});
      if row.None? {
        return Err;
      }
      attempts := SetStatus(attempts, row.value, ReconciledNotFed);
      resumeAfter := Max(resumeAfter, now + retryAfter);
      events := events + [FeederNotDispatched(id, retryAfter)];
      r := Ok(());
    }
  }

  // --- What every transaction keeps ----------------------------------------------

  /** Thresholds of the confirmed attempts. */
  function Debits(attempts: seq<Attempt>): int {
    if attempts == [] then 0
    else
      var last := attempts[|attempts| - 1];
      Debits(attempts[..|attempts| - 1]) + if last.status == Confirmed then last.threshold else 0
  }

  /** Credit granted by receipts. */
  function Receipts(entries: seq<Entry>): int {
    if entries == [] then 0
    else
      var last := entries[|entries| - 1];
      Receipts(entries[..|entries| - 1]) + if last.key.FeedKey? then 0 else last.delta
  }

  /** The balance a reader reconstructs from the public events alone. */
  function Balance(events: seq<Event>): int {
    if events == [] then 0
    else match events[|events| - 1]
      case PaymentReceived(_, credit) => credit
      case FeederConfirmed(_, _, credit) => credit
      case FeedReconciledNotFed(_, credit) => credit
      case _ => Balance(events[..|events| - 1])
  }

  /** A balance-carrying event differs from the balance before it by exactly what it announces. */
  predicate Announces(event: Event, balance: int) {
    match event
    case PaymentReceived(amount, credit) => credit == balance + amount
    case FeederConfirmed(_, threshold, credit) => credit == balance - threshold
    case FeedReconciledNotFed(_, credit) => credit == balance
    case _ => true
  }

  ghost predicate AnnouncedAt(events: seq<Event>, i: nat)
    requires i < |events|
  {
    Announces(events[i], Balance(events[..i]))
  }

  ghost predicate Announced(events: seq<Event>) { forall i | 0 <= i < |events| :: AnnouncedAt(events, i) }

  ghost predicate AttemptsValid(attempts: seq<Attempt>) {
    && (forall i, j | 0 <= i < j < |attempts| :: attempts[i].id != attempts[j].id)
    && (forall i | 0 <= i < |attempts| :: 1 <= attempts[i].threshold <= I64_MAX)
    && (forall i | 0 <= i < |attempts| - 1 :: !Unresolved(attempts[i]))
  }

  ghost predicate EntriesValid(entries: seq<Entry>) {
    && SumInRange(entries)
    && Sum(entries) >= 0
    && (forall i, j | 0 <= i < j < |entries| :: entries[i].key != entries[j].key)
  }

  /** Exactly the confirmed attempts are debited. */
  ghost predicate DebitsMatch(entries: seq<Entry>, attempts: seq<Attempt>) {
    && (forall i | 0 <= i < |entries| && entries[i].key.FeedKey? ::
          exists j | 0 <= j < |attempts| ::
            attempts[j] == Attempt(entries[i].key.attempt, Confirmed, -entries[i].delta))
    && (forall j {:trigger HasKey(entries, FeedKey(attempts[j].id))}
          | 0 <= j < |attempts| && attempts[j].status == Confirmed ::
          HasKey(entries, FeedKey(attempts[j].id)))
    && Sum(entries) == Receipts(entries) - Debits(attempts)
  }

  ghost predicate Covered(t: Tables) {
    forall i | 0 <= i < |t.attempts| && Unresolved(t.attempts[i]) :: t.attempts[i].threshold <= Sum(t.entries)
  }

  ghost predicate Inv(t: Tables) {
    && AttemptsValid(t.attempts)
    && EntriesValid(t.entries)
    && DebitsMatch(t.entries, t.attempts)
    && Covered(t)
    && Announced(t.events)
    && Balance(t.events) == Sum(t.entries)
  }

  lemma Announce(events: seq<Event>, event: Event)
    requires Announced(events) && Announces(event, Balance(events))
    ensures Announced(events + [event])
    ensures Balance(events + [event]) ==
            match event
            case PaymentReceived(_, credit) => credit
            case FeederConfirmed(_, _, credit) => credit
            case FeedReconciledNotFed(_, credit) => credit
            case _ => Balance(events)
  {
    var after := events + [event];
    assert after[..|events|] == events;
    forall i | 0 <= i < |after| ensures AnnouncedAt(after, i) {
      if i < |events| {
        assert after[..i] == events[..i];
        assert AnnouncedAt(events, i);
      }
    }
  }

  lemma CreditIsSum(entries: seq<Entry>)
    requires EntriesValid(entries)
    ensures FeedCredit(entries) == Ok(Sum(entries))
  {
  }

  lemma FoundIs(attempts: seq<Attempt>, i: nat)
    requires AttemptsValid(attempts) && i < |attempts|
    ensures FindAttempt(attempts, attempts[i].id) == Some(i)
    ensures Unresolved(attempts[i]) ==> FindUnresolved(attempts) == Some(i)
  {
  }

  lemma AppendEntry(entries: seq<Entry>, entry: Entry)
    ensures Sum(entries + [entry]) == Sum(entries) + entry.delta
    ensures Receipts(entries + [entry]) == Receipts(entries) + if entry.key.FeedKey? then 0 else entry.delta
    ensures SumInRange(entries) && 0 <= Sum(entries) + entry.delta <= I64_MAX ==> SumInRange(entries + [entry])
    ensures SumInRange(entries + [entry]) ==> SumInRange(entries)
  {
    assert (entries + [entry])[..|entries|] == entries;
  }

  lemma {:induction false} DebitsChange(attempts: seq<Attempt>, i: nat, status: AttemptStatus)
    requires i < |attempts| && attempts[i].status != Confirmed
    ensures Debits(SetStatus(attempts, i, status))
            == Debits(attempts) + if status == Confirmed then attempts[i].threshold else 0
  {
    var front, after := attempts[..|attempts| - 1], SetStatus(attempts, i, status);
    if i < |front| {
      DebitsChange(front, i, status);
      assert after[..|attempts| - 1] == SetStatus(front, i, status);
    } else {
      assert after[..|attempts| - 1] == front;
    }
  }

  /** Every status change of the one unresolved attempt that does not debit it. */
  lemma StatusChangeKeepsInv(t: Tables, i: nat, status: AttemptStatus, event: Event)
    requires Inv(t) && i < |t.attempts| && Unresolved(t.attempts[i]) && status != Confirmed
    requires match event
             case PaymentReceived(_, _) => false
             case FeederConfirmed(_, _, _) => false
             case FeedReconciledNotFed(_, credit) => credit == Sum(t.entries)
             case _ => true
    ensures Inv(t.(attempts := SetStatus(t.attempts, i, status), events := t.events + [event]))
  {
    DebitsChange(t.attempts, i, status);
    Announce(t.events, event);
    var after := SetStatus(t.attempts, i, status);
    forall k | 0 <= k < |t.entries| && t.entries[k].key.FeedKey?
      ensures exists j | 0 <= j < |after| ::
                after[j] == Attempt(t.entries[k].key.attempt, Confirmed, -t.entries[k].delta)
    {
      var j :| 0 <= j < |t.attempts|
               && t.attempts[j] == Attempt(t.entries[k].key.attempt, Confirmed, -t.entries[k].delta);
      assert after[j] == t.attempts[j];
    }
  }

  /** Entries of receipts do not touch the debits. */
  lemma ReceiptKeepsDebits(entries: seq<Entry>, attempts: seq<Attempt>, entry: Entry)
    requires DebitsMatch(entries, attempts) && !entry.key.FeedKey?
    ensures DebitsMatch(entries + [entry], attempts)
  {
    AppendEntry(entries, entry);
    forall j | 0 <= j < |attempts| && attempts[j].status == Confirmed
      ensures HasKey(entries + [entry], FeedKey(attempts[j].id))
    {
      KeysGrow(entries, entry, FeedKey(attempts[j].id));
    }
  }

  /** The tables after a receipt. */
  function Received(t: Tables, key: SourceKey, amount: nat): Tables {
    t.(entries := t.entries + [Entry(key, amount)],
       events := t.events + [PaymentReceived(amount, Sum(t.entries) + amount)])
  }

  /** A receipt is refused only for a used key or a full ledger. */
  lemma ReceiveIs(t: Tables, key: SourceKey, amount: nat)
    requires EntriesValid(t.entries)
    ensures Receive(t, key, amount)
            == if HasKey(t.entries, key) || Sum(t.entries) + amount > I64_MAX then Err else Ok(Received(t, key, amount))
  {
    AppendEntry(t.entries, Entry(key, amount));
  }

  lemma MoreCreditCovers(t: Tables, entries: seq<Entry>)
    requires Covered(t) && Sum(t.entries) <= Sum(entries)
    ensures Covered(t.(entries := entries))
  {
  }

  /** The parts of the invariant after a receipt, each from its own part before. */
  lemma ReceivedParts(t: Tables, key: SourceKey, amount: nat)
    requires EntriesValid(t.entries) && DebitsMatch(t.entries, t.attempts) && Covered(t)
    requires !key.FeedKey? && !HasKey(t.entries, key) && Sum(t.entries) + amount <= I64_MAX
    ensures var u := Received(t, key, amount);
            && EntriesValid(u.entries) && DebitsMatch(u.entries, u.attempts) && Covered(u)
            && Sum(u.entries) == Sum(t.entries) + amount
  {
    var entry := Entry(key, amount);
    AppendEntry(t.entries, entry);
    AppendKeepsEntries(t.entries, entry);
    ReceiptKeepsDebits(t.entries, t.attempts, entry);
    MoreCreditCovers(t, t.entries + [entry]);
  }

  lemma ReceivedAnnounced(events: seq<Event>, amount: nat, sum: int)
    requires Announced(events) && Balance(events) == sum
    ensures Announced(events + [PaymentReceived(amount, sum + amount)])
    ensures Balance(events + [PaymentReceived(amount, sum + amount)]) == sum + amount
  {
    Announce(events, PaymentReceived(amount, sum + amount));
  }

  lemma ReceivedKeepsInv(t: Tables, key: SourceKey, amount: nat)
    requires Inv(t) && !key.FeedKey? && !HasKey(t.entries, key) && Sum(t.entries) + amount <= I64_MAX
    ensures Inv(Received(t, key, amount))
  {
    ReceivedParts(t, key, amount);
    ReceivedAnnounced(t.events, amount, Sum(t.entries));
  }

  lemma ReceiveKeepsInv(t: Tables, key: SourceKey, amount: nat)
    requires Inv(t) && !key.FeedKey?
    ensures Receive(t, key, amount).Ok? ==> Inv(Receive(t, key, amount).value)
    ensures Receive(t, key, amount).Ok? <==> !HasKey(t.entries, key) && Sum(t.entries) + amount <= I64_MAX
  {
    ReceiveIs(t, key, amount);
    if Receive(t, key, amount).Ok? {
      ReceivedKeepsInv(t, key, amount);
    }
  }

  lemma KeysGrow(entries: seq<Entry>, entry: Entry, key: SourceKey)
    ensures HasKey(entries + [entry], key) <==> HasKey(entries, key) || entry.key == key
  {
    var after := entries + [entry];
    if HasKey(entries, key) {
      var i :| 0 <= i < |entries| && entries[i].key == key;
      assert after[i].key == key;
    }
    assert after[|entries|] == entry;
  }

  lemma BeginKeepsInv(t: Tables, now: int, threshold: nat, newId: Uuid)
    requires Inv(t)
    ensures Inv(BeginAttempt(t, now, threshold, newId).0)
  {
    var (u, r) := BeginAttempt(t, now, threshold, newId);
    if u != t {
      assert u.attempts[..|t.attempts|] == t.attempts;
      forall k | 0 <= k < |t.entries| && t.entries[k].key.FeedKey?
        ensures exists j | 0 <= j < |u.attempts| ::
                  u.attempts[j] == Attempt(t.entries[k].key.attempt, Confirmed, -t.entries[k].delta)
      {
        var j :| 0 <= j < |t.attempts|
                 && t.attempts[j] == Attempt(t.entries[k].key.attempt, Confirmed, -t.entries[k].delta);
        assert u.attempts[j] == t.attempts[j];
      }
    }
  }

  /** The tables after the debit of attempt `i`. */
  function Debited(t: Tables, i: nat): Tables
    requires i < |t.attempts|
  {
    var a := t.attempts[i];
    t.(attempts := SetStatus(t.attempts, i, Confirmed),
       entries := t.entries + [Entry(FeedKey(a.id), -a.threshold)],
       events := t.events + [FeederConfirmed(a.id, a.threshold, Sum(t.entries) - a.threshold)])
  }

  lemma AppendKeepsEntries(entries: seq<Entry>, entry: Entry)
    requires EntriesValid(entries) && !HasKey(entries, entry.key)
    requires 0 <= Sum(entries) + entry.delta <= I64_MAX
    ensures EntriesValid(entries + [entry])
  {
    AppendEntry(entries, entry);
  }

  lemma DebitedCovered(t: Tables, i: nat)
    requires AttemptsValid(t.attempts) && i < |t.attempts| && Unresolved(t.attempts[i])
    ensures Covered(Debited(t, i))
  {
  }

  lemma DebitedAnnounced(events: seq<Event>, a: Attempt, sum: int)
    requires Announced(events) && Balance(events) == sum
    ensures Announced(events + [FeederConfirmed(a.id, a.threshold, sum - a.threshold)])
    ensures Balance(events + [FeederConfirmed(a.id, a.threshold, sum - a.threshold)]) == sum - a.threshold
  {
    Announce(events, FeederConfirmed(a.id, a.threshold, sum - a.threshold));
  }

  /** The parts of the invariant after a debit, each from its own part before. */
  lemma DebitedParts(t: Tables, i: nat)
    requires AttemptsValid(t.attempts) && EntriesValid(t.entries) && DebitsMatch(t.entries, t.attempts)
    requires i < |t.attempts| && Unresolved(t.attempts[i]) && t.attempts[i].threshold <= Sum(t.entries)
    requires !HasKey(t.entries, FeedKey(t.attempts[i].id))
    ensures var u := Debited(t, i);
            && AttemptsValid(u.attempts) && EntriesValid(u.entries) && DebitsMatch(u.entries, u.attempts)
            && Sum(u.entries) == Sum(t.entries) - t.attempts[i].threshold
  {
    DebitAppears(t.entries, t.attempts, i);
  }

  lemma DebitedKeepsInv(t: Tables, i: nat)
    requires Inv(t) && i < |t.attempts| && Unresolved(t.attempts[i])
    ensures Inv(Debited(t, i))
  {
    DebitedParts(t, i);
    DebitedCovered(t, i);
    DebitedAnnounced(t.events, t.attempts[i], Sum(t.entries));
  }

  /**
   Resolving as fed never meets a "ledger invariant violated" branch: it succeeds exactly when
   the attempt is in the expected state, and then debits it.
   */
  lemma {:induction false} FedResult(t: Tables, id: Uuid, expected: AttemptStatus)
    requires AttemptsValid(t.attempts) && EntriesValid(t.entries) && DebitsMatch(t.entries, t.attempts) && Covered(t)
    requires expected == IntentCommitted || expected == Unknown
    ensures ResolveAsFed(t, id, expected)
            == match FindIn(t.attempts, id, {expected})
               case Some(i) => (Debited(t, i), Ok(()))
               case None => (t, Err)
  {
    var row := FindIn(t.attempts, id, {expected});
    if row.Some? {
      var a := t.attempts[row.value];
      AppendEntry(t.entries, Entry(FeedKey(a.id), -a.threshold));
    }
  }

  lemma FedKeepsInv(t: Tables, id: Uuid, expected: AttemptStatus)
    requires Inv(t) && (expected == IntentCommitted || expected == Unknown)
    ensures Inv(ResolveAsFed(t, id, expected).0)
  {
    FedResult(t, id, expected);
    var row := FindIn(t.attempts, id, {expected});
    if row.Some? {
      DebitedKeepsInv(t, row.value);
    }
  }

  lemma DebitAppears(entries: seq<Entry>, attempts: seq<Attempt>, i: nat)
    requires AttemptsValid(attempts) && DebitsMatch(entries, attempts)
    requires i < |attempts| && attempts[i].status != Confirmed
    ensures DebitsMatch(entries + [Entry(FeedKey(attempts[i].id), -attempts[i].threshold)],
                        SetStatus(attempts, i, Confirmed))
  {
    var entry := Entry(FeedKey(attempts[i].id), -attempts[i].threshold);
    var after, debited := entries + [entry], SetStatus(attempts, i, Confirmed);
    AppendEntry(entries, entry);
    DebitsChange(attempts, i, Confirmed);
    forall k | 0 <= k < |after| && after[k].key.FeedKey?
      ensures exists j | 0 <= j < |debited| ::
                debited[j] == Attempt(after[k].key.attempt, Confirmed, -after[k].delta)
    {
      if k < |entries| {
        var j :| 0 <= j < |attempts|
                 && attempts[j] == Attempt(entries[k].key.attempt, Confirmed, -entries[k].delta);
        assert debited[j] == attempts[j];
      } else {
        assert debited[i] == Attempt(after[k].key.attempt, Confirmed, -after[k].delta);
      }
    }
    forall j | 0 <= j < |debited| && debited[j].status == Confirmed
      ensures HasKey(after, FeedKey(debited[j].id))
    {
      KeysGrow(entries, entry, FeedKey(debited[j].id));
    }
  }

  // --- Whole runs ----------------------------------------------------------------

  datatype Step =
    | ReceiveStep(key: SourceKey, amount: nat)
    | InformStep(name: string)
    | InterruptedStep
    | BeginStep(now: int, threshold: nat, newId: Uuid)
    | UnknownStep(id: Uuid)
    | FedStep(id: Uuid, expected: AttemptStatus)
    | NotFedStep(id: Uuid)
    | NotDispatchedStep(now: int, id: Uuid, retryAfter: nat)

  predicate Legal(s: Step) {
    match s
    case ReceiveStep(key, _) => !key.FeedKey?
    case FedStep(_, expected) => expected == IntentCommitted || expected == Unknown
    case _ => true
  }

  function Apply(t: Tables, s: Step): Tables {
    match s
    case ReceiveStep(key, amount) => (match Receive(t, key, amount) case Ok(u) => u case Err => t)
    case InformStep(name) => t.(events := t.events + [Informational(name)])
    case InterruptedStep => MarkInterrupted(t)
    case BeginStep(now, threshold, newId) => BeginAttempt(t, now, threshold, newId).0
    case UnknownStep(id) => MarkUnknown(t, id).0
    case FedStep(id, expected) => ResolveAsFed(t, id, expected).0
    case NotFedStep(id) => ReconcileNotFed(t, id).0
    case NotDispatchedStep(now, id, retryAfter) => ResolveNotDispatched(t, now, id, retryAfter).0
  }

  lemma ApplyKeepsInv(t: Tables, s: Step)
    requires Inv(t) && Legal(s)
    ensures Inv(Apply(t, s))
  {
    match s
    case ReceiveStep(key, amount) => ReceiveKeepsInv(t, key, amount);
    case InformStep(name) => Announce(t.events, Informational(name));
    case InterruptedStep =>
      if Apply(t, s) != t {
        StatusChangeKeepsInv(t, FindUnresolved(t.attempts).value, Unknown, ProcessingError(None));
      }
    case BeginStep(now, threshold, newId) => BeginKeepsInv(t, now, threshold, newId);
    case UnknownStep(id) =>
      if Apply(t, s) != t {
        StatusChangeKeepsInv(t, FindIn(t.attempts, id, {IntentCommitted}).value, Unknown, ProcessingError(Some(id)));
      }
    case FedStep(id, expected) => FedKeepsInv(t, id, expected);
    case NotFedStep(id) =>
      if Apply(t, s) != t {
        StatusChangeKeepsInv(t, FindIn(t.attempts, id, {Unknown}).value, ReconciledNotFed,
                             FeedReconciledNotFed(id, Sum(t.entries)));
      }
    case NotDispatchedStep(now, id, retryAfter) =>
      if Apply(t, s) != t {
        var i := FindIn(t.attempts, id, {IntentCommitted, Unknown}).value;
        StatusChangeKeepsInv(t, i, ReconciledNotFed, FeederNotDispatched(id, retryAfter));
      }
  }

  /** Attempts are never removed or renamed. */
  lemma ApplyKeepsIds(t: Tables, s: Step)
    ensures var u := Apply(t, s);
            && |t.attempts| <= |u.attempts|
            && (forall i | 0 <= i < |t.attempts| :: u.attempts[i].id == t.attempts[i].id)
  {
  }

  function Run(steps: seq<Step>): Tables {
    if steps == [] then EMPTY else Apply(Run(steps[..|steps| - 1]), steps[|steps| - 1])
  }

  lemma {:induction false} RunKeepsInv(steps: seq<Step>)
    requires forall s | s in steps :: Legal(s)
    ensures Inv(Run(steps))
  {
    if steps != [] {
      RunKeepsInv(steps[..|steps| - 1]);
      ApplyKeepsInv(Run(steps[..|steps| - 1]), steps[|steps| - 1]);
    }
  }

  // --- The event log determines the balance --------------------------------------

  /** An event announces `change`: what a subscriber adds to the balance when it arrives. */
  function Change(event: Event): int {
    match event
    case PaymentReceived(amount, _) => amount
    case FeederConfirmed(_, threshold, _) => -threshold
    case _ => 0
  }

  function Fold(events: seq<Event>): int {
    if events == [] then 0 else Fold(events[..|events| - 1]) + Change(events[|events| - 1])
  }

  lemma {:induction false} FoldIsBalance(events: seq<Event>, n: nat)
    requires Announced(events) && n <= |events|
    ensures Fold(events[..n]) == Balance(events[..n])
  {
    if n > 0 {
      FoldIsBalance(events, n - 1);
      assert events[..n][..n - 1] == events[..n - 1];
      assert AnnouncedAt(events, n - 1);
    }
  }

  /**
   In every reachable state the ledger sum is the balance of the last balance-carrying event, and
   both are the announced amounts added up: an overlay snapshot (last sequence number, credit)
   agrees with replaying the log up to it.
   */
  lemma {:induction false} LogDeterminesBalance(steps: seq<Step>)
    requires forall s | s in steps :: Legal(s)
    ensures var t := Run(steps);
            && FeedCredit(t.entries) == Ok(Balance(t.events))
            && Sum(t.entries) == Fold(t.events)
            && Sum(t.entries) == Receipts(t.entries) - Debits(t.attempts)
            && Announced(t.events)
  {
    RunKeepsInv(steps);
    var t := Run(steps);
    FoldIsBalance(t.events, |t.events|);
    assert t.events[..|t.events|] == t.events;
  }
}
