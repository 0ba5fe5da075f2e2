/**
 Receipts, valuations, grants and allocations on top of the feed ledger (src/ledger/mod.rs
 `record_payment`, src/ledger/credit.rs).

 Tables are sequences in rowid order, so a row's index is its rowid; the two tables keyed by a
 valuation are maps. One transaction is one step; a failed one changes nothing. Textual validation
 of identifiers and JSON is the `formatted` flag of an input.
 */
module CreditLedger {
  import opened Wrappers
  import L = FeedLedger
  import C = CreditTerms

  datatype Payment = Payment(
    formatted: bool, source: string, sourceId: string, hash: Option<string>, user: string, pool: string,
    amountMsat: nat, settledAt: Option<int>)

  datatype ValuationId = BtcId(settlement: nat) | XmrId(intent: Uuid)

  datatype Binding = Binding(asset: C.Asset, network: string, provider: string, account: string, receive: string)

  datatype Window = Window(issuedAt: int, expiresAt: int)

  datatype Valuation = Valuation(
    binding: Binding, user: string, pool: string, expected: nat, target: nat, maxCredit: nat,
    rate: Option<C.Rate>, window: Option<Window>)

  datatype Hold =
    | ReceiptConflict
    | FinalityRegression
    | DoubleSpend
    | AllocationMismatch
    | CreditLimit
    | ProviderInconsistency

  datatype Allocation = Allocation(eligible: nat, credited: nat, hold: Option<Hold>)

  datatype Receipt = Receipt(
    valuation: ValuationId, key: string, amount: nat, firstSeen: Option<int>, unlocked: bool, eligible: bool,
    settlement: Option<nat>)

  datatype Grant = Grant(
    receipt: nat, delta: nat, cumulativeAtomic: nat, cumulativeSats: nat, entry: Option<nat>, event: Option<nat>)

  datatype Conflict = Conflict(
    valuation: ValuationId, key: string, amount: nat, firstSeen: int, unlocked: bool, reason: Hold)

  datatype Books = Books(
    feed: L.Tables,
    settled: seq<Payment>,
    valuations: map<ValuationId, Valuation>,
    allocations: map<ValuationId, Allocation>,
    receipts: seq<Receipt>,
    grants: seq<Grant>,
    conflicts: set<Conflict>)

  const EMPTY: Books := Books(L.EMPTY, [], map[], map[], [], [], {})

  datatype Settlement = Credited(sats: nat) | AlreadySettled

  datatype ReceiptOutcome = Duplicate | Pending | Held | Recorded(delta: nat, feedCredit: nat)

  datatype Observation = Observation(
    formatted: bool, binding: Binding, key: string, amount: nat, firstSeen: int, unlocked: bool, doubleSpend: bool)

  // --- Queries -------------------------------------------------------------------

  function FindSettled(settled: seq<Payment>, source: string, sourceId: string): (r: Option<nat>)
    ensures r.Some? ==>
              && r.value < |settled|
              && settled[r.value].source == source && settled[r.value].sourceId == sourceId
    ensures r.None? <==> forall i | 0 <= i < |settled| :: settled[i].source != source || settled[i].sourceId != sourceId
  {
    if settled == [] then None
    else if settled[|settled| - 1].source == source && settled[|settled| - 1].sourceId == sourceId
    then Some(|settled| - 1)
    else FindSettled(settled[..|settled| - 1], source, sourceId)
  }

  predicate HashTaken(settled: seq<Payment>, hash: Option<string>) {
    hash.Some? && exists i | 0 <= i < |settled| :: settled[i].hash == hash
  }

  function FindReceipt(receipts: seq<Receipt>, v: ValuationId, key: string): (r: Option<nat>)
    ensures r.Some? ==> r.value < |receipts| && receipts[r.value].valuation == v && receipts[r.value].key == key
    ensures r.None? <==> forall i | 0 <= i < |receipts| :: receipts[i].valuation != v || receipts[i].key != key
  {
    if receipts == [] then None
    else if receipts[|receipts| - 1].valuation == v && receipts[|receipts| - 1].key == key then Some(|receipts| - 1)
    else FindReceipt(receipts[..|receipts| - 1], v, key)
  }

  predicate Granted(grants: seq<Grant>, receipt: nat) {
    exists i | 0 <= i < |grants| :: grants[i].receipt == receipt
  }

  /** `SUM(r.amount_atomic)` over the grants of one valuation. */
  function GrantedAtomic(receipts: seq<Receipt>, grants: seq<Grant>, v: ValuationId): nat {
    if grants == [] then 0
    else
      var r := grants[|grants| - 1].receipt;
      GrantedAtomic(receipts, grants[..|grants| - 1], v)
      + if r < |receipts| && receipts[r].valuation == v then receipts[r].amount else 0
  }

  /** `SUM(g.delta_sats)` over the grants of one valuation. */
  function GrantedSats(receipts: seq<Receipt>, grants: seq<Grant>, v: ValuationId): nat {
    if grants == [] then 0
    else
      var g := grants[|grants| - 1];
      GrantedSats(receipts, grants[..|grants| - 1], v)
      + if g.receipt < |receipts| && receipts[g.receipt].valuation == v then g.delta else 0
  }

  function GrantTotal(grants: seq<Grant>): nat {
    if grants == [] then 0 else GrantTotal(grants[..|grants| - 1]) + grants[|grants| - 1].delta
  }

  predicate BindingTaken(valuations: map<ValuationId, Valuation>, binding: Binding) {
    exists v | v in valuations :: valuations[v].binding == binding
  }

  // --- Native BTC ----------------------------------------------------------------

  function NativeBinding(p: Payment): Binding {
    Binding(C.Btc, "legacy-unspecified", p.source, "legacy-settled-payment", p.sourceId)
  }

  function NativeValuation(p: Payment): Valuation {
    Valuation(NativeBinding(p), p.user, p.pool, 1, 1, I64_MAX, None, None)
  }

  function NativeReceipt(p: Payment, settlement: nat): Receipt {
    Receipt(BtcId(settlement), p.sourceId, p.amountMsat / 1000, None, true, true, Some(settlement))
  }

  /** The EXISTS of `verify_native_btc`. */
  predicate NativeVerified(b: Books, i: nat)
    requires i < |b.settled|
  {
    var p := b.settled[i];
    var sats := p.amountMsat / 1000;
    && p.amountMsat % 1000 == 0
    && BtcId(i) in b.valuations && b.valuations[BtcId(i)] == NativeValuation(p)
    && BtcId(i) in b.allocations && b.allocations[BtcId(i)] == Allocation(sats, sats, None)
    && exists k | 0 <= k < |b.grants| ::
         var g := b.grants[k];
         && g.receipt < |b.receipts| && b.receipts[g.receipt] == NativeReceipt(p, i)
         && g.delta == g.cumulativeAtomic == g.cumulativeSats == sats
         && g.entry.Some? && g.entry.value < |b.feed.entries|
         && b.feed.entries[g.entry.value] == L.Entry(L.PaymentKey(p.source, p.sourceId), sats)
  }

  predicate PaymentAcceptable(p: Payment) {
    && p.formatted && p.amountMsat > 0 && p.amountMsat % 1000 == 0 && p.amountMsat <= I64_MAX
    && (p.settledAt.Some? ==> p.settledAt.value >= 0)
  }

  predicate SamePayment(a: Payment, p: Payment) {
    && a.hash == p.hash && a.user == p.user && a.pool == p.pool
    && a.amountMsat == p.amountMsat && a.settledAt == p.settledAt
  }

  /** The rows a new settlement adds. */
  function Settle(b: Books, p: Payment, feed: L.Tables): Books {
    var sats, i, r := p.amountMsat / 1000, |b.settled|, |b.receipts|;
    b.(feed := feed,
       settled := b.settled + [p],
       valuations := b.valuations[BtcId(i) := NativeValuation(p)],
       allocations := b.allocations[BtcId(i) := Allocation(sats, sats, None)],
       receipts := b.receipts + [NativeReceipt(p, i)],
       grants := b.grants + [Grant(r, sats, sats, sats, Some(|b.feed.entries|), Some(|feed.events|))])
  }

  function RecordPayment(b: Books, p: Payment): (Books, Result<Settlement>) {
    if !PaymentAcceptable(p) then (b, Err)
    else match FindSettled(b.settled, p.source, p.sourceId)
      case Some(i) =>
        if SamePayment(b.settled[i], p) && NativeVerified(b, i) then (b, Ok(AlreadySettled)) else (b, Err)
      case None =>
        if HashTaken(b.settled, p.hash) then (b, Err)
        else match L.Receive(b.feed, L.PaymentKey(p.source, p.sourceId), p.amountMsat / 1000)
          case Err => (b, Err)
          case Ok(feed) =>
            if BindingTaken(b.valuations, NativeBinding(p)) || BtcId(|b.settled|) in b.valuations
            then (b, Err)
            else (Settle(b, p, feed), Ok(Credited(p.amountMsat / 1000)))
  }

  // --- XMR intents ---------------------------------------------------------------

  datatype Intent = Intent(id: Uuid, formatted: bool, binding: Binding, user: string, pool: string,
                           quote: C.Quote, maxCredit: nat)

  function IntentValuation(n: Intent): Valuation {
    Valuation(n.binding, n.user, n.pool, n.quote.terms.expected, n.quote.terms.target, n.maxCredit,
              Some(n.quote.rate), Some(Window(n.quote.issuedAt, n.quote.expiresAt)))
  }

  function RegisterIntent(b: Books, n: Intent): (Books, Result<()>) {
    var v := XmrId(n.id);
    if !n.formatted || n.binding.asset != C.Xmr then (b, Err)
    else if n.maxCredit < n.quote.terms.target || n.maxCredit > I64_MAX then (b, Err)
    else if v in b.valuations then (b, if b.valuations[v] == IntentValuation(n) then Ok(()) else Err)
    else if BindingTaken(b.valuations, n.binding) then (b, Err)
    else (b.(valuations := b.valuations[v := IntentValuation(n)],
             allocations := b.allocations[v := Allocation(0, 0, None)]), Ok(()))
  }

  /** `xmr_credit_intent`: the saved row rebuilt as an intent, its quote recomputed from the saved rate. */
  function StoredIntent(b: Books, id: Uuid): Result<Intent> {
    if XmrId(id) !in b.valuations || b.valuations[XmrId(id)].binding.asset != C.Xmr then Err
    else
      var v := b.valuations[XmrId(id)];
      if v.rate.None? || v.window.None? || !C.Priced(v.rate.value) then Err
      else match C.MakeQuote(v.rate.value, v.target, v.window.value.issuedAt, v.window.value.expiresAt, U64_MAX)
        case Err => Err
        case Ok(quote) =>
          if quote.terms.expected != v.expected then Err
          else Ok(Intent(id, true, v.binding, v.user, v.pool, quote, v.maxCredit))
  }

  /** `COALESCE(hold_reason, reason)`: the first reason stays. */
  function SetHold(b: Books, v: ValuationId, reason: Hold): Books
    requires v in b.allocations
  {
    var a := b.allocations[v];
    b.(allocations := b.allocations[v := a.(hold := if a.hold.Some? then a.hold else Some(reason))])
  }

  function HoldObservation(b: Books, v: ValuationId, o: Observation, reason: Hold): Books
    requires v in b.allocations
  {
    SetHold(b, v, reason).(conflicts := b.conflicts + {Conflict(v, o.key, o.amount, o.firstSeen, o.unlocked, reason)})
  }

  function HoldIntent(b: Books, intent: Uuid): (Books, Result<()>) {
    if XmrId(intent) !in b.allocations then (b, Err)
    else (SetHold(b, XmrId(intent), ProviderInconsistency), Ok(()))
  }

  // --- XMR receipts ----------------------------------------------------------------

  /** Why an observation of a known receipt contradicts the stored row. */
  function Contradiction(r: Receipt, o: Observation): Option<Hold> {
    if r.amount != o.amount || r.firstSeen != Some(o.firstSeen) then Some(ReceiptConflict)
    else if r.unlocked && !o.unlocked then Some(FinalityRegression)
    else if o.doubleSpend then Some(DoubleSpend)
    else None
  }

  predicate Timely(w: Window, o: Observation) { w.issuedAt <= o.firstSeen < w.expiresAt }

  /** Insert the receipt if it is new, and record that it unlocked. */
  function StoreReceipt(receipts: seq<Receipt>, v: ValuationId, o: Observation, timely: bool): (r: (seq<Receipt>, nat))
    ensures r.1 < |r.0|
  {
    match FindReceipt(receipts, v, o.key)
    case Some(i) => (receipts[i := receipts[i].(unlocked := receipts[i].unlocked || o.unlocked)], i)
    case None =>
      var row := Receipt(v, o.key, o.amount, Some(o.firstSeen), o.unlocked, timely && !o.doubleSpend, None);
      (receipts + [row], |receipts|)
  }

  /** Stored watermarks agree with the grant history and with the valuation. */
  predicate WatermarksAgree(b: Books, v: ValuationId, t: C.Terms, a: Allocation)
    requires C.Agreed(t)
  {
    && GrantedAtomic(b.receipts, b.grants, v) == a.eligible
    && GrantedSats(b.receipts, b.grants, v) == a.credited
    && a.eligible <= C.MAX_UNITS
    && C.CumulativeSats(t, C.AssetAmount(C.Xmr, a.eligible)) == Ok(a.credited)
  }

  /** The new watermark, unless it cannot be stored or exceeds the intent's limit. */
  function Valued(t: C.Terms, a: Allocation, amount: nat, limit: nat): Option<C.Update>
    requires C.Agreed(t)
  {
    if a.eligible + amount > C.MAX_UNITS then None
    else
      match C.AssessUpdate(t, C.AssetAmount(C.Xmr, a.eligible), a.credited, C.AssetAmount(C.Xmr, a.eligible + amount))
      case Err => None
      case Ok(u) => if u.credit <= limit then Some(u) else None
  }

  /** Grant receipt `r` its increment of the cumulative valuation. */
  function GrantReceipt(b: Books, v: ValuationId, o: Observation, t: C.Terms, limit: nat, r: nat)
    : (Books, Result<ReceiptOutcome>)
    requires C.Agreed(t) && v in b.allocations
  {
    match Valued(t, b.allocations[v], o.amount, limit)
    case None => (HoldObservation(b, v, o, CreditLimit), Ok(Held))
    case Some(u) =>
      match L.FeedCredit(b.feed.entries)
      case Err => (b, Err)
      case Ok(before) =>
        if before + u.delta > C.MAX_UNITS then (HoldObservation(b, v, o, CreditLimit), Ok(Held))
        else
          var allocations :=
            b.allocations[v := b.allocations[v].(eligible := u.eligible.units, credited := u.credit)];
          if u.delta == 0 then
            (b.(grants := b.grants + [Grant(r, 0, u.eligible.units, u.credit, None, None)], allocations := allocations),
             Ok(Recorded(0, before)))
          else match L.Receive(b.feed, L.ReceiptKey(r), u.delta)
            case Err => (b, Err)
            case Ok(feed) =>
              (b.(feed := feed,
                  grants := b.grants + [Grant(r, u.delta, u.eligible.units, u.credit,
                                              Some(|b.feed.entries|), Some(|feed.events|))],
                  allocations := allocations),
               Ok(Recorded(u.delta, before + u.delta)))
  }

  /** The part of `record_xmr_receipt` after the conflict check. */
  function StoreAndGrant(b: Books, v: ValuationId, o: Observation): (Books, Result<ReceiptOutcome>)
    requires v in b.valuations && v in b.allocations && b.valuations[v].window.Some?
  {
    var val, hold := b.valuations[v], b.allocations[v].hold;
    var timely := Timely(val.window.value, o);
    var (receipts, r) := StoreReceipt(b.receipts, v, o, timely);
    var stored := b.(receipts := receipts);
    if o.doubleSpend then (HoldObservation(stored, v, o, DoubleSpend), Ok(Held))
    else if hold.Some? || !timely then (stored, Ok(Held))
    else if !o.unlocked then (stored, Ok(Pending))
    else match C.QuotedXmr(val.expected, val.target)
      case Err => (b, Err)
      case Ok(t) =>
        if !WatermarksAgree(stored, v, t, b.allocations[v]) then
          (HoldObservation(stored, v, o, AllocationMismatch), Ok(Held))
        else if Granted(b.grants, r) then (stored, Ok(Duplicate))
        else
          var (after, outcome) := GrantReceipt(stored, v, o, t, val.maxCredit, r);
          if outcome.Err? then (b, Err) else (after, outcome)
  }

  function RecordReceipt(b: Books, intent: Uuid, o: Observation): (Books, Result<ReceiptOutcome>) {
    var v := XmrId(intent);
    if !o.formatted || o.amount == 0 || o.amount > C.MAX_UNITS || o.firstSeen < 0 then (b, Err)
    else if v !in b.valuations || v !in b.allocations || b.valuations[v].window.None? then (b, Err)
    else if o.binding != b.valuations[v].binding then (b, Err)
    else
      var existing := FindReceipt(b.receipts, v, o.key);
      if existing.Some? && Contradiction(b.receipts[existing.value], o).Some? then
        (HoldObservation(b, v, o, Contradiction(b.receipts[existing.value], o).value), Ok(Held))
      else StoreAndGrant(b, v, o)
  }

  // --- The store -----------------------------------------------------------------

  class Store {
    var feed: L.Tables
    var settled: seq<Payment>
    var valuations: map<ValuationId, Valuation>
    var allocations: map<ValuationId, Allocation>
    var receipts: seq<Receipt>
    var grants: seq<Grant>
    var conflicts: set<Conflict>

    function State(): Books
      reads this
    {
      Books(feed, settled, valuations, allocations, receipts, grants, conflicts)
    }

    constructor ()
      ensures State() == EMPTY
    {
      feed, settled, valuations, allocations := L.EMPTY, [], map[], map[];
      receipts, grants, conflicts := [], [], {};
    }

    method Record(p: Payment) returns (r: Result<Settlement>)
      modifies this
      ensures (State(), r) == RecordPayment(old(State()), p)
    {
      if !PaymentAcceptable(p) {
        return Err;
      }
      var existing := FindSettled(settled, p.source, p.sourceId);
      if existing.Some? {
        var matches := SamePayment(settled[existing.value], p) && NativeVerified(State(), existing.value);
        return if matches then Ok(AlreadySettled) else Err;
      }
      if HashTaken(settled, p.hash) {
        return Err;
      }
      var settlement, receipt, entry, sats := |settled|, |receipts|, |feed.entries|, p.amountMsat / 1000;
      var credited := L.Receive(feed, L.PaymentKey(p.source, p.sourceId), sats);
      if credited.Err? || BindingTaken(valuations, NativeBinding(p)) || BtcId(settlement) in valuations {
        return Err;
      }
      settled := settled + [p];
      feed := credited.value;
      valuations := valuations[BtcId(settlement) := NativeValuation(p)];
      receipts := receipts + [NativeReceipt(p, settlement)];
      grants := grants + [Grant(receipt, sats, sats, sats, Some(entry), Some(|feed.events|))];
      allocations := allocations[BtcId(settlement) := Allocation(sats, sats, None)];
      r := Ok(Credited(sats));
    }

    method Register(n: Intent) returns (r: Result<()>)
      modifies this
      ensures (State(), r) == RegisterIntent(old(State()), n)
    {
      var v := XmrId(n.id);
      if !n.formatted || n.binding.asset != C.Xmr || n.maxCredit < n.quote.terms.target || n.maxCredit > I64_MAX {
        return Err;
      }
      if v in valuations {
        return if valuations[v] == IntentValuation(n) then Ok(()) else Err;
      }
      if BindingTaken(valuations, n.binding) {
        return Err;
      }
      valuations := valuations[v := IntentValuation(n)];
      allocations := allocations[v := Allocation(0, 0, None)];
      r := Ok(());
    }

    method HoldForProvider(intent: Uuid) returns (r: Result<()>)
      modifies this
      ensures (State(), r) == HoldIntent(old(State()), intent)
    {
      var v := XmrId(intent);
      if v !in allocations {
        return Err;
      }
      if allocations[v].hold.None? {
        allocations := allocations[v := allocations[v].(hold := Some(ProviderInconsistency))];
      } else {
        assert allocations == allocations[v := allocations[v]];
      }
      r := Ok(());
    }

    method HoldFor(v: ValuationId, o: Observation, reason: Hold)
      requires v in allocations
      modifies this
      ensures State() == HoldObservation(old(State()), v, o, reason)
    {
      conflicts := conflicts + {Conflict(v, o.key, o.amount, o.firstSeen, o.unlocked, reason)};
      if allocations[v].hold.None? {
        allocations := allocations[v := allocations[v].(hold := Some(reason))];
      } else {
        assert allocations == allocations[v := allocations[v]];
      }
    }

    method GrantOne(v: ValuationId, o: Observation, t: C.Terms, limit: nat, row: nat)
      returns (r: Result<ReceiptOutcome>)
      requires C.Agreed(t) && v in allocations
      modifies this
      ensures (State(), r) == GrantReceipt(old(State()), v, o, t, limit, row)
    {
      var update := Valued(t, allocations[v], o.amount, limit);
      if update.None? {
        HoldFor(v, o, CreditLimit);
        return Ok(Held);
      }
      var u := update.value;
      var before := L.FeedCredit(feed.entries);
      if before.Err? {
        return Err;
      }
      if before.value + u.delta > C.MAX_UNITS {
        HoldFor(v, o, CreditLimit);
        return Ok(Held);
      }
      var entry, event := None, None;
      if u.delta > 0 {
        var credited := L.Receive(feed, L.ReceiptKey(row), u.delta);
        if credited.Err? {
          return Err;
        }
        entry, event := Some(|feed.entries|), Some(|credited.value.events|);
        feed := credited.value;
      }
      grants := grants + [Grant(row, u.delta, u.eligible.units, u.credit, entry, event)];
      allocations := allocations[v := allocations[v].(eligible := u.eligible.units, credited := u.credit)];
      r := Ok(Recorded(u.delta, before.value + u.delta));
    }

    method RecordXmrReceipt(intent: Uuid, o: Observation) returns (r: Result<ReceiptOutcome>)
      modifies this
      ensures (State(), r) == RecordReceipt(old(State()), intent, o)
    {
      var v := XmrId(intent);
      if !o.formatted || o.amount == 0 || o.amount > C.MAX_UNITS || o.firstSeen < 0 {
        return Err;
      }
      if v !in valuations || v !in allocations || valuations[v].window.None? || o.binding != valuations[v].binding {
        return Err;
      }
      var valuation, hold := valuations[v], allocations[v].hold;
      var existing := FindReceipt(receipts, v, o.key);
      if existing.Some? {
        var contradiction := Contradiction(receipts[existing.value], o);
        if contradiction.Some? {
          HoldFor(v, o, contradiction.value);
          return Ok(Held);
        }
      }
      var timely := Timely(valuation.window.value, o);
      var before := receipts;
      var stored := StoreReceipt(receipts, v, o, timely);
      receipts := stored.0;
      if o.doubleSpend {
        HoldFor(v, o, DoubleSpend);
        return Ok(Held);
      }
      if hold.Some? || !timely {
        return Ok(Held);
      }
      if !o.unlocked {
        return Ok(Pending);
      }
      var terms := C.QuotedXmr(valuation.expected, valuation.target);
      if terms.Err? {
        receipts := before;
        return Err;
      }
      if !WatermarksAgree(State(), v, terms.value, allocations[v]) {
        HoldFor(v, o, AllocationMismatch);
        return Ok(Held);
      }
      if Granted(grants, stored.1) {
        return Ok(Duplicate);
      }
      r := GrantOne(v, o, terms.value, valuation.maxCredit, stored.1);
      if r.Err? {
        receipts := before;
      }
    }
  }
}
