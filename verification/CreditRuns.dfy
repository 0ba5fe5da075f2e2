/**
 Whole runs of the credit ledger: conservation, replay, holds and independence of the order in which
 receipts arrive.
 */
module CreditRuns {
  import opened Wrappers
  import opened CreditLedger
  import opened CreditInvariants
  import L = FeedLedger
  import C = CreditTerms

  datatype Op =
    | Pay(payment: Payment)
    | Register(intent: Intent)
    | Suspend(id: Uuid)
    | Observe(id: Uuid, observation: Observation)
    | Feed(step: L.Step)

  /** Terms come from `quoted_xmr`, and credit reaches the feed tables only through receipts. */
  predicate Legal(op: Op) {
    match op
    case Register(n) => C.Agreed(n.quote.terms)
    case Feed(s) => FeedOnly(s)
    case _ => true
  }

  function Apply(b: Books, op: Op): Books {
    match op
    case Pay(p) => RecordPayment(b, p).0
    case Register(n) => RegisterIntent(b, n).0
    case Suspend(id) => HoldIntent(b, id).0
    case Observe(id, o) => RecordReceipt(b, id, o).0
    case Feed(s) => b.(feed := L.Apply(b.feed, s))
  }

  function RunFrom(b: Books, ops: seq<Op>): Books {
    if ops == [] then b else Apply(RunFrom(b, ops[..|ops| - 1]), ops[|ops| - 1])
  }

  lemma ApplyKeepsInv(b: Books, op: Op)
    requires Inv(b) && Legal(op)
    ensures Inv(Apply(b, op))
  {
    match op
    case Pay(p) => SettleKeepsInv(b, p);
    case Register(n) => RegisterKeepsInv(b, n);
    case Suspend(id) =>
      if XmrId(id) in b.allocations {
        HoldKeepsInv(b, XmrId(id), ProviderInconsistency, b.conflicts);
      }
    case Observe(id, o) => ReceiptKeepsInv(b, id, o);
    case Feed(s) => FeedKeepsInv(b, s);
  }

  lemma {:induction false} RunKeepsInv(b: Books, ops: seq<Op>)
    requires Inv(b) && forall op | op in ops :: Legal(op)
    ensures Inv(RunFrom(b, ops))
  {
    if ops != [] {
      RunKeepsInv(b, ops[..|ops| - 1]);
      ApplyKeepsInv(RunFrom(b, ops[..|ops| - 1]), ops[|ops| - 1]);
    }
  }

  lemma EmptyInv()
    ensures Inv(EMPTY)
  {
  }

  /**
   In every reachable state the watermark of a valuation is the sum of its granted receipts, its
   credit is the sum of its grants and their floor valuation within its limit, and the balance is all
   grants minus the thresholds of the confirmed attempts, as the event log says.
   */
  lemma {:induction false} CreditIsConserved(ops: seq<Op>)
    requires forall op | op in ops :: Legal(op)
    ensures var b := RunFrom(EMPTY, ops);
            && b.valuations.Keys == b.allocations.Keys
            && (forall v | v in b.valuations ::
                  var val, a := b.valuations[v], b.allocations[v];
                  && a.eligible == GrantedAtomic(b.receipts, b.grants, v)
                  && a.credited == GrantedSats(b.receipts, b.grants, v)
                  && val.expected > 0 && a.credited == a.eligible * val.target / val.expected
                  && a.credited <= val.maxCredit)
            && L.Sum(b.feed.entries) == GrantTotal(b.grants) - L.Debits(b.feed.attempts)
            && L.FeedCredit(b.feed.entries) == Ok(L.Balance(b.feed.events))
  {
    EmptyInv();
    RunKeepsInv(EMPTY, ops);
    var b := RunFrom(EMPTY, ops);
    forall v | v in b.valuations ensures Watermarked(b, v) {
    }
  }

  /**
   `record_payment` in every reachable state: a replay always finds its provenance intact, and a new
   settlement is refused only for a reused payment hash or a full ledger. Nothing else changes the books.
   */
  lemma {:induction false} PaymentOutcome(b: Books, p: Payment)
    requires Inv(b) && PaymentAcceptable(p)
    ensures RecordPayment(b, p).0 != b <==> RecordPayment(b, p).1 == Ok(Credited(p.amountMsat / 1000))
    ensures var known := FindSettled(b.settled, p.source, p.sourceId);
            RecordPayment(b, p).1 ==
            if known.Some? then
              if SamePayment(b.settled[known.value], p) then Ok(AlreadySettled) else Err
            else if HashTaken(b.settled, p.hash) || L.Sum(b.feed.entries) + p.amountMsat / 1000 > I64_MAX then Err
            else Ok(Credited(p.amountMsat / 1000))
  {
    var known := FindSettled(b.settled, p.source, p.sourceId);
    if known.Some? {
      assert NativeVerified(b, known.value);
    } else if !HashTaken(b.settled, p.hash) {
      SettlementAccepted(b, p);
    }
  }

  /** No source identity and no payment hash is credited twice, and each credited row has one entry. */
  lemma {:induction false} PaymentsAreUnique(ops: seq<Op>)
    requires forall op | op in ops :: Legal(op)
    ensures var b := RunFrom(EMPTY, ops);
            && (forall i, j | 0 <= i < j < |b.settled| ::
                  && (b.settled[i].source != b.settled[j].source || b.settled[i].sourceId != b.settled[j].sourceId)
                  && (b.settled[i].hash.Some? ==> b.settled[i].hash != b.settled[j].hash))
            && (forall i, j | 0 <= i < j < |b.feed.entries| :: b.feed.entries[i].key != b.feed.entries[j].key)
            && (forall i | 0 <= i < |b.settled| ::
                  exists k | 0 <= k < |b.feed.entries| ::
                    b.feed.entries[k] == L.Entry(L.PaymentKey(b.settled[i].source, b.settled[i].sourceId),
                                                 b.settled[i].amountMsat / 1000))
  {
    EmptyInv();
    RunKeepsInv(EMPTY, ops);
    var b := RunFrom(EMPTY, ops);
    forall i | 0 <= i < |b.settled|
      ensures exists k | 0 <= k < |b.feed.entries| ::
                b.feed.entries[k] == L.Entry(L.PaymentKey(b.settled[i].source, b.settled[i].sourceId),
                                             b.settled[i].amountMsat / 1000)
    {
      assert NativeVerified(b, i);
    }
  }

  // --- Valuations are immutable -------------------------------------------------------

  lemma ValuationStays(b: Books, op: Op, v: ValuationId)
    requires Inv(b) && v in b.valuations
    ensures v in Apply(b, op).valuations && Apply(b, op).valuations[v] == b.valuations[v]
  {
    match op
    case Pay(p) => PayKeepsValuations(b, p, v);
    case Observe(id, o) => ObserveKeepsValuations(b, id, o);
    case _ =>
  }

  lemma PayKeepsValuations(b: Books, p: Payment, v: ValuationId)
    requires v in b.valuations
    ensures var a := RecordPayment(b, p).0; v in a.valuations && a.valuations[v] == b.valuations[v]
  {
  }

  lemma ObserveKeepsValuations(b: Books, id: Uuid, o: Observation)
    requires b.valuations.Keys == b.allocations.Keys
    ensures RecordReceipt(b, id, o).0.valuations == b.valuations
  {
  }

  lemma {:induction false} ValuationsAreImmutable(b: Books, ops: seq<Op>, v: ValuationId)
    requires Inv(b) && v in b.valuations && forall op | op in ops :: Legal(op)
    ensures v in RunFrom(b, ops).valuations && RunFrom(b, ops).valuations[v] == b.valuations[v]
  {
    if ops != [] {
      var front := ops[..|ops| - 1];
      RunKeepsInv(b, front);
      ValuationsAreImmutable(b, front, v);
      ValuationStays(RunFrom(b, front), ops[|ops| - 1], v);
    }
  }

  /**
   A registered intent whose quote came from `XmrBtcRate::quote` under any age limit is read back
   unchanged, with the same recomputed quote, after anything else has happened.
   */
  lemma {:induction false} IntentReadsBack(b: Books, n: Intent, ops: seq<Op>, maxAge: nat)
    requires Inv(b) && C.Agreed(n.quote.terms) && RegisterIntent(b, n).1.Ok?
    requires C.Priced(n.quote.rate) && n.quote.issuedAt <= I64_MAX
    requires forall op | op in ops :: Legal(op)
    ensures C.MakeQuote(n.quote.rate, n.quote.terms.target, n.quote.issuedAt, n.quote.expiresAt, maxAge)
            == Ok(n.quote) ==>
              StoredIntent(RunFrom(RegisterIntent(b, n).0, ops), n.id) == Ok(n)
  {
    RegisterKeepsInv(b, n);
    ValuationsAreImmutable(RegisterIntent(b, n).0, ops, XmrId(n.id));
    C.RebuiltQuoteIsEqual(n.quote.rate, n.quote.terms.target, n.quote.issuedAt, n.quote.expiresAt, maxAge);
  }

  // --- Holds are permanent ----------------------------------------------------------

  lemma ObserveKeepsHeld(b: Books, id: Uuid, o: Observation, v: ValuationId)
    requires Inv(b) && v in b.allocations && b.allocations[v].hold.Some?
    ensures var a := RecordReceipt(b, id, o).0; v in a.allocations && a.allocations[v] == b.allocations[v]
  {
    if XmrId(id) in b.valuations && Consistent(b, XmrId(id), o) {
      ReceiptResult(b, XmrId(id), o);
    }
  }

  lemma PayKeepsAllocations(b: Books, p: Payment, v: ValuationId)
    requires Inv(b) && v in b.allocations
    ensures var a := RecordPayment(b, p).0; v in a.allocations && a.allocations[v] == b.allocations[v]
  {
  }

  lemma {:induction false} HeldStays(b: Books, op: Op, v: ValuationId)
    requires Inv(b) && Legal(op) && v in b.allocations && b.allocations[v].hold.Some?
    ensures v in Apply(b, op).allocations && Apply(b, op).allocations[v] == b.allocations[v]
  {
    match op
    case Pay(p) => PayKeepsAllocations(b, p, v);
    case Observe(id, o) => ObserveKeepsHeld(b, id, o, v);
    case _ =>
  }

  /** Once an intent is held it gains nothing more, whatever happens, and its first reason never changes. */
  lemma {:induction false} HoldsArePermanent(b: Books, ops: seq<Op>, v: ValuationId)
    requires Inv(b) && forall op | op in ops :: Legal(op)
    requires v in b.allocations && b.allocations[v].hold.Some?
    ensures var a := RunFrom(b, ops);
            && v in a.allocations && a.allocations[v] == b.allocations[v]
            && GrantedSats(a.receipts, a.grants, v) == GrantedSats(b.receipts, b.grants, v)
  {
    RunKeepsInv(b, ops);
    assert Watermarked(b, v) && (v in RunFrom(b, ops).allocations ==> Watermarked(RunFrom(b, ops), v));
    if ops != [] {
      var front := ops[..|ops| - 1];
      RunKeepsInv(b, front);
      HoldsArePermanent(b, front, v);
      HeldStays(RunFrom(b, front), ops[|ops| - 1], v);
    }
  }

  // --- The order of receipts does not matter -----------------------------------------

  /** What the chain says about one transfer to an intent. */
  datatype Transfer = Transfer(amount: nat, firstSeen: int)

  ghost function TotalOf(plan: map<string, Transfer>, keys: set<string>): nat
    requires keys <= plan.Keys
  {
    if keys == {} then 0
    else
      var k :| k in keys;
      plan[k].amount + TotalOf(plan, keys - {k})
  }

  lemma {:induction false} TotalAdds(plan: map<string, Transfer>, keys: set<string>, k: string)
    requires keys <= plan.Keys && k in plan && k !in keys
    ensures TotalOf(plan, keys + {k}) == TotalOf(plan, keys) + plan[k].amount
  {
    var all := keys + {k};
    var c :| c in all && TotalOf(plan, all) == plan[c].amount + TotalOf(plan, all - {c});
    if c == k {
      assert all - {k} == keys;
    } else {
      var rest := keys - {c};
      assert all - {c} == rest + {k};
      TotalAdds(plan, rest, k);
      assert rest + {c} == keys;
      TotalAdds(plan, rest, c);
    }
  }

  lemma {:induction false} TotalGrows(plan: map<string, Transfer>, some: set<string>, all: set<string>)
    requires some <= all <= plan.Keys
    ensures TotalOf(plan, some) <= TotalOf(plan, all)
    decreases |all - some|
  {
    if k :| k in all - some {
      assert all - (some + {k}) == (all - some) - {k};
      TotalGrows(plan, some + {k}, all);
      TotalAdds(plan, some, k);
    } else {
      assert some == all;
    }
  }

  /** Every observation of the intent reports a planned transfer, timely or late. */
  predicate Planned(plan: map<string, Transfer>, val: Valuation, o: Observation) {
    && o.formatted && o.binding == val.binding && !o.doubleSpend
    && o.key in plan && o.amount == plan[o.key].amount && o.firstSeen == plan[o.key].firstSeen
    && 0 < o.amount <= C.MAX_UNITS && o.firstSeen >= 0
  }

  /** The keys of transfers first seen inside the quote's window: only these are ever credited. */
  function TimelyKeys(plan: map<string, Transfer>, val: Valuation): set<string> {
    set k | k in plan && val.window.Some? && val.window.value.issuedAt <= plan[k].firstSeen < val.window.value.expiresAt
  }

  function Unlocked(ops: seq<Op>, id: Uuid): set<string> {
    set op | op in ops && op.Observe? && op.id == id && op.observation.unlocked :: op.observation.key
  }

  /** Duplicates and pending observations in any order, but finality never regresses. */
  predicate ConflictFree(plan: map<string, Transfer>, val: Valuation, ops: seq<Op>, id: Uuid) {
    forall i | 0 <= i < |ops| ::
      && ops[i] != Suspend(id)
      && (ops[i].Observe? && ops[i].id == id ==>
            && Planned(plan, val, ops[i].observation)
            && (!ops[i].observation.unlocked ==> ops[i].observation.key !in Unlocked(ops[..i], id)))
  }

  /** The timely transfers, worth `full`, fit the storage range and the intent's limit. */
  ghost predicate Fits(plan: map<string, Transfer>, val: Valuation, full: nat) {
    && C.Agreed(TermsOf(val)) && TotalOf(plan, TimelyKeys(plan, val)) <= C.MAX_UNITS
    && full == TotalOf(plan, TimelyKeys(plan, val)) * val.target / val.expected <= val.maxCredit
  }

  /** The balance leaves room for what is still missing from `full`. */
  predicate Spare(b: Books, v: ValuationId, full: nat) {
    v in b.allocations ==> L.Sum(b.feed.entries) + full - b.allocations[v].credited <= C.MAX_UNITS
  }

  predicate Room(full: nat, b: Books, v: ValuationId, ops: seq<Op>) {
    forall k | 0 <= k <= |ops| :: Spare(RunFrom(b, ops[..k]), v, full)
  }

  /** The rows of the intent are planned transfers, unlocked and granted as the two sets say. */
  ghost predicate Rows(
      b: Books, plan: map<string, Transfer>, v: ValuationId, granted: set<string>, unlocked: set<string>)
  {
    && (forall i | 0 <= i < |b.receipts| && b.receipts[i].valuation == v ::
          && RowPlanned(b.receipts[i], plan)
          && (b.receipts[i].unlocked <==> b.receipts[i].key in unlocked)
          && (Granted(b.grants, i) <==> b.receipts[i].key in granted))
    && (forall k {:trigger FindReceipt(b.receipts, v, k)} | k in unlocked :: FindReceipt(b.receipts, v, k).Some?)
  }

  predicate RowPlanned(r: Receipt, plan: map<string, Transfer>) {
    r.key in plan && r.amount == plan[r.key].amount && r.firstSeen == Some(plan[r.key].firstSeen)
  }

  /** The books know exactly the unlocked keys, and have granted exactly the timely ones among them. */
  ghost predicate Reached(b: Books, plan: map<string, Transfer>, v: ValuationId, val: Valuation, keys: set<string>) {
    && v in b.valuations && b.valuations[v] == val && v in b.allocations
    && b.allocations[v].hold.None? && keys <= plan.Keys
    && b.allocations[v].eligible == TotalOf(plan, keys * TimelyKeys(plan, val))
    && Rows(b, plan, v, keys * TimelyKeys(plan, val), keys)
  }

  lemma UnlockedStep(ops: seq<Op>, id: Uuid)
    requires ops != []
    ensures var front, op := ops[..|ops| - 1], ops[|ops| - 1];
            Unlocked(ops, id)
            == Unlocked(front, id)
               + if op.Observe? && op.id == id && op.observation.unlocked then {op.observation.key} else {}
  {
    var front, op := ops[..|ops| - 1], ops[|ops| - 1];
    assert ops == front + [op];
  }

  // Transactions that do not concern the intent leave its rows alone.

  ghost predicate SameRows(b: Books, a: Books, v: ValuationId) {
    && v in b.valuations && v in a.valuations && a.valuations[v] == b.valuations[v]
    && v in b.allocations && v in a.allocations && a.allocations[v] == b.allocations[v]
    && |b.receipts| <= |a.receipts|
    && (forall i | 0 <= i < |b.receipts| && b.receipts[i].valuation == v :: a.receipts[i] == b.receipts[i])
    && (forall i | 0 <= i < |a.receipts| && a.receipts[i].valuation == v ::
          && i < |b.receipts| && a.receipts[i] == b.receipts[i]
          && (Granted(a.grants, i) <==> Granted(b.grants, i)))
  }

  lemma SameRowsReached(
      b: Books, a: Books, plan: map<string, Transfer>, v: ValuationId, val: Valuation, keys: set<string>)
    requires Reached(b, plan, v, val, keys) && SameRows(b, a, v)
    ensures Reached(a, plan, v, val, keys)
  {
    forall k | k in keys ensures FindReceipt(a.receipts, v, k).Some? {
      var i := FindReceipt(b.receipts, v, k).value;
      assert a.receipts[i] == b.receipts[i];
    }
  }

  lemma PaySameRows(b: Books, p: Payment, v: ValuationId)
    requires Inv(b) && v in b.valuations && v.XmrId?
    ensures SameRows(b, RecordPayment(b, p).0, v)
  {
    var a := RecordPayment(b, p).0;
    if a != b {
      assert a.grants == b.grants + [a.grants[|b.grants|]];
      GrantedGrows(b.grants, a.grants[|b.grants|]);
    }
  }

  lemma WithGrantSameRows(b: Books, w: ValuationId, amount: nat, delta: nat, r: nat, v: ValuationId)
    requires v in b.valuations && v in b.allocations && w in b.allocations && v != w
    requires r < |b.receipts| && b.receipts[r].valuation == w
    ensures SameRows(b, WithGrant(b, w, amount, delta, r), v)
  {
    var a := WithGrant(b, w, amount, delta, r);
    assert a.grants == b.grants + [a.grants[|b.grants|]];
    GrantedGrows(b.grants, a.grants[|b.grants|]);
  }

  lemma StoreSameRows(b: Books, w: ValuationId, o: Observation, v: ValuationId)
    requires ReceiptsValid(b) && GrantsValid(b.receipts, b.grants) && b.valuations.Keys == b.allocations.Keys
    requires w in b.valuations && b.valuations[w].window.Some? && v in b.valuations && v != w
    ensures SameRows(b, Stored(b, w, o).0, v)
  {
    StoredRow(b, w, o);
  }

  lemma OutcomeSameRows(b: Books, w: ValuationId, o: Observation, fits: bool, delta: nat, v: ValuationId)
    requires Inv(b) && w in b.valuations && w.XmrId? && v in b.valuations && v != w
    ensures SameRows(b, Outcome(b, w, o, fits, delta).0, v)
  {
    var (stored, r) := Stored(b, w, o);
    StoreSameRows(b, w, o, v);
    StoredRow(b, w, o);
    WithGrantSameRows(stored, w, o.amount, delta, r, v);
  }

  lemma RegisterSameRows(b: Books, n: Intent, v: ValuationId)
    requires v in b.valuations && v in b.allocations
    ensures SameRows(b, RegisterIntent(b, n).0, v)
  {
  }

  lemma OthersSameRows(b: Books, op: Op, id: Uuid)
    requires Inv(b) && Legal(op) && XmrId(id) in b.valuations
    requires op != Suspend(id) && !(op.Observe? && op.id == id)
    ensures SameRows(b, Apply(b, op), XmrId(id))
  {
    match op
    case Pay(p) => PaySameRows(b, p, XmrId(id));
    case Register(n) => RegisterSameRows(b, n, XmrId(id));
    case Suspend(other) =>
    case Observe(other, o) =>
      if XmrId(other) in b.valuations {
        ObserveSameRows(b, other, o, XmrId(id));
      }
    case Feed(s) =>
  }

  lemma ObserveSameRows(b: Books, other: Uuid, o: Observation, v: ValuationId)
    requires Inv(b) && XmrId(other) in b.valuations && v in b.valuations && v != XmrId(other)
    ensures SameRows(b, RecordReceipt(b, other, o).0, v)
  {
    var w := XmrId(other);
    if Consistent(b, w, o) {
      ReceiptResult(b, w, o);
      OutcomeSameRows(b, w, o, WithinLimits(b, w, o.amount), Increment(b, w, o.amount), v);
    }
  }

  lemma StoreReaches(
      b: Books, plan: map<string, Transfer>, v: ValuationId, val: Valuation, keys: set<string>, o: Observation)
    requires val.window.Some?
    requires ReceiptsValid(b) && GrantsValid(b.receipts, b.grants)
    requires Reached(b, plan, v, val, keys) && Planned(plan, val, o)
    requires o.unlocked || o.key !in keys
    ensures Consistent(b, v, o)
    ensures Rows(Stored(b, v, o).0, plan, v, keys * TimelyKeys(plan, val), keys + if o.unlocked then {o.key} else {})
  {
    StoredRow(b, v, o);
    var (stored, r) := Stored(b, v, o);
    var unlocked := keys + if o.unlocked then {o.key} else {};
    forall k | k in unlocked ensures FindReceipt(stored.receipts, v, k).Some? {
      var i := if k == o.key then r else FindReceipt(b.receipts, v, k).value;
      assert stored.receipts[i].valuation == v && stored.receipts[i].key == k;
    }
  }

  /** `StoreReceipt` touches one row only. */
  lemma StoredRow(b: Books, v: ValuationId, o: Observation)
    requires v in b.valuations && b.valuations[v].window.Some?
    requires ReceiptsValid(b) && GrantsValid(b.receipts, b.grants)
    ensures var (a, r) := Stored(b, v, o);
            && |b.receipts| <= |a.receipts| && r < |a.receipts|
            && (forall i | 0 <= i < |a.receipts| && i != r ::
                  && i < |b.receipts| && a.receipts[i] == b.receipts[i]
                  && (a.receipts[i].valuation != v || a.receipts[i].key != o.key))
            && a.receipts[r].valuation == v && a.receipts[r].key == o.key
            && (match FindReceipt(b.receipts, v, o.key)
                case Some(i) =>
                  r == i && a.receipts[r] == b.receipts[r].(unlocked := b.receipts[r].unlocked || o.unlocked)
                case None =>
                  && r == |b.receipts| && !Granted(b.grants, r) && a.receipts[r].unlocked == o.unlocked
                  && a.receipts[r].amount == o.amount && a.receipts[r].firstSeen == Some(o.firstSeen))
  {
  }

  lemma PlannedFits(
      b: Books, plan: map<string, Transfer>, v: ValuationId, val: Valuation, keys: set<string>, key: string, full: nat)
    requires Inv(b) && Reached(b, plan, v, val, keys) && Fits(plan, val, full) && Spare(b, v, full)
    requires key in TimelyKeys(plan, val) && key !in keys
    ensures TotalOf(plan, (keys + {key}) * TimelyKeys(plan, val))
            == TotalOf(plan, keys * TimelyKeys(plan, val)) + plan[key].amount
    ensures WithinLimits(b, v, plan[key].amount)
  {
    var timely := TimelyKeys(plan, val);
    var granted := keys * timely;
    assert (keys + {key}) * timely == granted + {key};
    TotalAdds(plan, granted, key);
    TotalGrows(plan, granted + {key}, timely);
    C.CumulativeMonotone(TermsOf(val), TotalOf(plan, granted + {key}), TotalOf(plan, timely));
  }

  lemma GrantReaches(
      b: Books, plan: map<string, Transfer>, v: ValuationId, val: Valuation, keys: set<string>, r: nat, delta: nat)
    requires v in b.valuations && b.valuations[v] == val && v in b.allocations && b.allocations[v].hold.None?
    requires ReceiptsValid(b) && r < |b.receipts| && b.receipts[r].valuation == v && keys <= plan.Keys
    requires var key, timely := b.receipts[r].key, TimelyKeys(plan, val);
             && key in timely && Rows(b, plan, v, keys * timely, keys + {key})
             && b.allocations[v].eligible == TotalOf(plan, keys * timely)
             && TotalOf(plan, (keys + {key}) * timely) == TotalOf(plan, keys * timely) + plan[key].amount
    ensures Reached(WithGrant(b, v, plan[b.receipts[r].key].amount, delta, r), plan, v, val, keys + {b.receipts[r].key})
  {
    var key, timely := b.receipts[r].key, TimelyKeys(plan, val);
    var a := WithGrant(b, v, plan[key].amount, delta, r);
    assert a.grants == b.grants + [a.grants[|b.grants|]];
    GrantedGrows(b.grants, a.grants[|b.grants|]);
    assert (keys + {key}) * timely == keys * timely + {key};
  }

  lemma OutcomeReaches(
      b: Books, plan: map<string, Transfer>, v: ValuationId, val: Valuation, keys: set<string>, o: Observation,
      fits: bool, delta: nat)
    requires ReceiptsValid(b) && GrantsValid(b.receipts, b.grants) && L.Sum(b.feed.entries) >= 0
    requires Reached(b, plan, v, val, keys) && Planned(plan, val, o) && val.window.Some?
    requires o.unlocked || o.key !in keys
    requires o.unlocked && o.key !in keys && o.key in TimelyKeys(plan, val) ==>
               && fits
               && TotalOf(plan, (keys + {o.key}) * TimelyKeys(plan, val))
                  == TotalOf(plan, keys * TimelyKeys(plan, val)) + plan[o.key].amount
    ensures Reached(Outcome(b, v, o, fits, delta).0, plan, v, val, keys + if o.unlocked then {o.key} else {})
  {
    var (stored, r) := Stored(b, v, o);
    var timely := TimelyKeys(plan, val);
    StoredRow(b, v, o);
    StoreReaches(b, plan, v, val, keys, o);
    assert Timely(val.window.value, o) <==> o.key in timely;
    if o.unlocked && o.key !in keys && o.key in timely {
      GrantReaches(stored, plan, v, val, keys, r, delta);
    } else {
      assert (keys + if o.unlocked then {o.key} else {}) * timely == keys * timely;
    }
  }

  lemma ObserveReaches(
      b: Books, plan: map<string, Transfer>, id: Uuid, val: Valuation, keys: set<string>, o: Observation, full: nat)
    requires Inv(b) && Reached(b, plan, XmrId(id), val, keys) && Planned(plan, val, o) && Fits(plan, val, full)
    requires o.unlocked || o.key !in keys
    requires Spare(b, XmrId(id), full)
    ensures Reached(RecordReceipt(b, id, o).0, plan, XmrId(id), val, keys + if o.unlocked then {o.key} else {})
  {
    var v := XmrId(id);
    StoreReaches(b, plan, v, val, keys, o);
    ReceiptResult(b, v, o);
    if o.unlocked && o.key !in keys && o.key in TimelyKeys(plan, val) {
      PlannedFits(b, plan, v, val, keys, o.key, full);
    }
    OutcomeReaches(b, plan, v, val, keys, o, WithinLimits(b, v, o.amount), Increment(b, v, o.amount));
  }

  lemma StepReaches(
      b: Books, plan: map<string, Transfer>, id: Uuid, val: Valuation, keys: set<string>, op: Op, full: nat)
    requires Inv(b) && Reached(b, plan, XmrId(id), val, keys) && Legal(op) && op != Suspend(id)
    requires op.Observe? && op.id == id ==>
               Planned(plan, val, op.observation) && (op.observation.unlocked || op.observation.key !in keys)
    requires Fits(plan, val, full) && Spare(b, XmrId(id), full)
    ensures Reached(Apply(b, op), plan, XmrId(id), val,
                    keys + if op.Observe? && op.id == id && op.observation.unlocked then {op.observation.key} else {})
  {
    if op.Observe? && op.id == id {
      ObserveReaches(b, plan, id, val, keys, op.observation, full);
    } else {
      OthersSameRows(b, op, id);
      SameRowsReached(b, Apply(b, op), plan, XmrId(id), val, keys);
      assert keys + {} == keys;
    }
  }

  lemma FrontIsConflictFree(plan: map<string, Transfer>, val: Valuation, ops: seq<Op>, id: Uuid, full: nat, b: Books)
    requires ops != [] && ConflictFree(plan, val, ops, id) && Room(full, b, XmrId(id), ops)
    ensures ConflictFree(plan, val, ops[..|ops| - 1], id) && Room(full, b, XmrId(id), ops[..|ops| - 1])
    ensures Spare(RunFrom(b, ops[..|ops| - 1]), XmrId(id), full)
  {
    var front := ops[..|ops| - 1];
    assert forall k | 0 <= k <= |front| :: front[..k] == ops[..k];
  }

  lemma {:induction false} RunReaches(
      b: Books, plan: map<string, Transfer>, id: Uuid, val: Valuation, ops: seq<Op>, full: nat)
    requires Inv(b) && Reached(b, plan, XmrId(id), val, {})
    requires (forall op | op in ops :: Legal(op)) && ConflictFree(plan, val, ops, id)
    requires Fits(plan, val, full) && Room(full, b, XmrId(id), ops)
    ensures Reached(RunFrom(b, ops), plan, XmrId(id), val, Unlocked(ops, id))
  {
    if ops != [] {
      var front, op := ops[..|ops| - 1], ops[|ops| - 1];
      FrontIsConflictFree(plan, val, ops, id, full, b);
      RunReaches(b, plan, id, val, front, full);
      RunKeepsInv(b, front);
      UnlockedStep(ops, id);
      StepReaches(RunFrom(b, front), plan, id, val, Unlocked(front, id), op, full);
    }
  }

  /** Transfers worth `total` are credited at the floor of their value, and nothing is held. */
  ghost predicate CreditedFor(b: Books, v: ValuationId, val: Valuation, total: nat) {
    && v in b.allocations && val.expected > 0
    && b.allocations[v] == Allocation(total, total * val.target / val.expected, None)
    && GrantedSats(b.receipts, b.grants, v) == total * val.target / val.expected
  }

  lemma ReachedCredit(b: Books, plan: map<string, Transfer>, v: ValuationId, val: Valuation, keys: set<string>)
    requires AllWatermarked(b) && Reached(b, plan, v, val, keys)
    ensures CreditedFor(b, v, val, TotalOf(plan, keys * TimelyKeys(plan, val)))
  {
    assert Watermarked(b, v);
  }

  lemma RunCredits(b: Books, plan: map<string, Transfer>, id: Uuid, val: Valuation, ops: seq<Op>, full: nat)
    requires Inv(b) && Reached(b, plan, XmrId(id), val, {})
    requires (forall op | op in ops :: Legal(op)) && ConflictFree(plan, val, ops, id)
    requires Fits(plan, val, full) && Room(full, b, XmrId(id), ops)
    ensures Unlocked(ops, id) <= plan.Keys
    ensures CreditedFor(RunFrom(b, ops), XmrId(id), val,
                        TotalOf(plan, Unlocked(ops, id) * TimelyKeys(plan, val)))
  {
    RunReaches(b, plan, id, val, ops, full);
    RunKeepsInv(b, ops);
    ReachedCredit(RunFrom(b, ops), plan, XmrId(id), val, Unlocked(ops, id));
  }

  /** A registered intent starts with no receipts and no credit. */
  lemma RegisteredIsReached(b: Books, n: Intent, plan: map<string, Transfer>)
    requires Inv(b) && XmrId(n.id) !in b.valuations && RegisterIntent(b, n).1.Ok?
    ensures Reached(RegisterIntent(b, n).0, plan, XmrId(n.id), IntentValuation(n), {})
  {
  }

  /**
   Every arrival order, duplication and pending-then-unlocked interleaving of a conflict-free set of
   transfers, among any other payments, intents and feedings, ends with the same unheld credit:
   floor(total * target / expected) of the timely transfers that unlocked. Late ones change nothing.
   */
  lemma {:induction false} OrderDoesNotMatter(
      b: Books, n: Intent, plan: map<string, Transfer>, ops: seq<Op>, full: nat)
    requires Inv(b) && C.Agreed(n.quote.terms) && XmrId(n.id) !in b.valuations && RegisterIntent(b, n).1.Ok?
    requires forall op | op in ops :: Legal(op)
    requires ConflictFree(plan, IntentValuation(n), ops, n.id) && Fits(plan, IntentValuation(n), full)
    requires Room(full, RegisterIntent(b, n).0, XmrId(n.id), ops)
    ensures Unlocked(ops, n.id) <= plan.Keys
    ensures CreditedFor(RunFrom(RegisterIntent(b, n).0, ops), XmrId(n.id), IntentValuation(n),
                        TotalOf(plan, Unlocked(ops, n.id) * TimelyKeys(plan, IntentValuation(n))))
  {
    RegisterKeepsInv(b, n);
    RegisteredIsReached(b, n, plan);
    RunCredits(RegisterIntent(b, n).0, plan, n.id, IntentValuation(n), ops, full);
  }
}
