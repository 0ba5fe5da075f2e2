/**
 What each transaction of the credit ledger answers and changes, said of the rows it finds: which
 payments are taken, which observations are held and why, and what a grant adds.
 */
module CreditOutcomes {
  import opened Wrappers
  import opened CreditLedger
  import opened CreditInvariants
  import L = FeedLedger
  import C = CreditTerms

  // --- Observations of XMR receipts ------------------------------------------------------

  /** A positive storable amount, a time, and an intent with the same receive binding. */
  predicate Acceptable(b: Books, v: ValuationId, o: Observation) {
    && o.formatted && 1 <= o.amount <= 0x7FFF_FFFF_FFFF_FFFF && 0 <= o.firstSeen
    && v in b.valuations && v in b.allocations && b.valuations[v].window.Some? && o.binding == b.valuations[v].binding
  }

  /** Row `i` is the stored receipt of the observation; the table holds each receipt once. */
  predicate IsRow(b: Books, v: ValuationId, o: Observation, i: nat) {
    i < |b.receipts| && b.receipts[i].valuation == v && b.receipts[i].key == o.key
  }

  ghost predicate HasNoRow(b: Books, v: ValuationId, o: Observation) {
    forall i | 0 <= i < |b.receipts| :: b.receipts[i].valuation != v || b.receipts[i].key != o.key
  }

  /** The intent is held for a reason, unless it was held before; the observation is kept as evidence. */
  function HeldFor(b: Books, v: ValuationId, o: Observation, reason: Hold): Books
    requires v in b.allocations
  {
    var a := b.allocations[v];
    b.(allocations := b.allocations[v := Allocation(a.eligible, a.credited,
                                                    if a.hold == None then Some(reason) else a.hold)],
       conflicts := b.conflicts + {Conflict(v, o.key, o.amount, o.firstSeen, o.unlocked, reason)})
  }

  lemma FoundRow(b: Books, v: ValuationId, o: Observation, i: nat)
    requires ReceiptsValid(b) && IsRow(b, v, o, i)
    ensures FindReceipt(b.receipts, v, o.key) == Some(i)
  {
  }

  lemma RejectedIsIdle(b: Books, intent: Uuid, o: Observation)
    ensures !Acceptable(b, XmrId(intent), o) ==> RecordReceipt(b, intent, o) == (b, Err)
  {
  }

  /**
   A stored receipt seen with another amount or time, or locked again after it was unlocked, or spent
   twice, is always held, for the first of these reasons, and nothing but the hold and the evidence changes.
   */
  lemma ContradictionIsHeld(b: Books, intent: Uuid, o: Observation, i: nat)
    requires ReceiptsValid(b) && Acceptable(b, XmrId(intent), o) && IsRow(b, XmrId(intent), o, i)
    ensures var r, v := b.receipts[i], XmrId(intent);
            var changed := r.amount != o.amount || r.firstSeen != Some(o.firstSeen);
            var regressed := r.unlocked && !o.unlocked;
            changed || regressed || o.doubleSpend ==>
              RecordReceipt(b, intent, o)
              == (HeldFor(b, v, o, if changed then ReceiptConflict else if regressed then FinalityRegression
                                   else DoubleSpend), Ok(Held))
  {
    FoundRow(b, XmrId(intent), o, i);
  }

  /** The rows after an observation that contradicts none: its own, new or unlocked, and every other as it was. */
  ghost predicate Kept(b: Books, a: seq<Receipt>, v: ValuationId, o: Observation, timely: bool, r: nat) {
    || (IsRow(b, v, o, r)
        && a == b.receipts[r := b.receipts[r].(unlocked := b.receipts[r].unlocked || o.unlocked)])
    || (HasNoRow(b, v, o) && r == |b.receipts|
        && a == b.receipts
                + [Receipt(v, o.key, o.amount, Some(o.firstSeen), o.unlocked, timely && !o.doubleSpend, None)])
  }

  /** The observation agrees with its stored row, if it has one. */
  predicate Agrees(b: Books, v: ValuationId, o: Observation) {
    forall i | 0 <= i < |b.receipts| && b.receipts[i].valuation == v && b.receipts[i].key == o.key ::
      && b.receipts[i].amount == o.amount && b.receipts[i].firstSeen == Some(o.firstSeen)
      && (b.receipts[i].unlocked ==> o.unlocked)
  }

  /** Seen from the issue of the quote until before its expiry. */
  predicate InTime(w: Window, o: Observation) { w.issuedAt <= o.firstSeen && o.firstSeen < w.expiresAt }

  /** Where the receipt is kept. */
  function RowOf(b: Books, v: ValuationId, o: Observation): nat {
    match FindReceipt(b.receipts, v, o.key) case Some(i) => i case None => |b.receipts|
  }

  lemma StoredIsKept(b: Books, v: ValuationId, o: Observation)
    requires ReceiptsValid(b) && v in b.valuations && b.valuations[v].window.Some?
    ensures var (receipts, r) := StoreReceipt(b.receipts, v, o, Timely(b.valuations[v].window.value, o));
            && r == RowOf(b, v, o)
            && Kept(b, receipts, v, o, InTime(b.valuations[v].window.value, o), r)
  {
  }

  lemma AgreeingIsStored(b: Books, intent: Uuid, o: Observation)
    requires Acceptable(b, XmrId(intent), o) && Agrees(b, XmrId(intent), o)
    requires !o.doubleSpend || HasNoRow(b, XmrId(intent), o)
    ensures RecordReceipt(b, intent, o) == StoreAndGrant(b, XmrId(intent), o)
  {
  }

  /** On any books: an observation that fails leaves nothing behind, not even its receipt. */
  lemma FailureIsIdle(b: Books, intent: Uuid, o: Observation)
    ensures RecordReceipt(b, intent, o).1.Err? ==> RecordReceipt(b, intent, o).0 == b
  {
  }

  /** A new receipt spent twice is stored as ineligible and held. */
  lemma NewDoubleSpendIsHeld(b: Books, intent: Uuid, o: Observation)
    requires ReceiptsValid(b) && Acceptable(b, XmrId(intent), o) && HasNoRow(b, XmrId(intent), o) && o.doubleSpend
    ensures var row := Receipt(XmrId(intent), o.key, o.amount, Some(o.firstSeen), o.unlocked, false, None);
            RecordReceipt(b, intent, o)
            == (HeldFor(b.(receipts := b.receipts + [row]), XmrId(intent), o, DoubleSpend), Ok(Held))
  {
    AgreeingIsStored(b, intent, o);
  }

  /**
   An observation that contradicts nothing is stored. If its intent is held, or it came late, it waits
   as held; if it is still locked, it is pending; in either case nothing else changes.
   */
  lemma UngrantableIsStored(b: Books, intent: Uuid, o: Observation)
    requires ReceiptsValid(b) && Acceptable(b, XmrId(intent), o) && Agrees(b, XmrId(intent), o) && !o.doubleSpend
    ensures var v := XmrId(intent);
            var (a, outcome) := RecordReceipt(b, intent, o);
            var stopped := b.allocations[v].hold.Some? || !InTime(b.valuations[v].window.value, o);
            && (stopped || !o.unlocked ==>
                  && outcome == Ok(if stopped then Held else Pending)
                  && Kept(b, a.receipts, v, o, InTime(b.valuations[v].window.value, o), RowOf(b, v, o))
                  && a == b.(receipts := a.receipts))
  {
    AgreeingIsStored(b, intent, o);
    StoredIsKept(b, XmrId(intent), o);
  }

  /** In time, unlocked, of an intent without a hold: the receipt may be granted. */
  predicate Grantable(b: Books, v: ValuationId, o: Observation)
    requires v in b.valuations && v in b.allocations && b.valuations[v].window.Some?
  {
    o.unlocked && !o.doubleSpend && b.allocations[v].hold == None && InTime(b.valuations[v].window.value, o)
  }

  /** What the intent's credit is worth after one more receipt of `amount`. */
  function Total(b: Books, v: ValuationId, amount: nat): nat
    requires v in b.valuations && v in b.allocations && b.valuations[v].expected > 0
  {
    (b.allocations[v].eligible + amount) * b.valuations[v].target / b.valuations[v].expected
  }

  /** The receipt fits the stored range, its intent's limit and the balance. */
  predicate Affordable(b: Books, v: ValuationId, amount: nat)
    requires v in b.valuations && v in b.allocations && b.valuations[v].expected > 0
  {
    && b.allocations[v].eligible + amount <= 0x7FFF_FFFF_FFFF_FFFF
    && Total(b, v, amount) <= b.valuations[v].maxCredit
    && L.Sum(b.feed.entries) + Total(b, v, amount) - b.allocations[v].credited <= 0x7FFF_FFFF_FFFF_FFFF
  }

  lemma GrantableOutcome(b: Books, intent: Uuid, o: Observation)
    requires Inv(b) && Acceptable(b, XmrId(intent), o) && Agrees(b, XmrId(intent), o)
    requires Grantable(b, XmrId(intent), o)
    ensures Increment(b, XmrId(intent), o.amount) >= 0
    ensures var (a, outcome) := Outcome(b, XmrId(intent), o, WithinLimits(b, XmrId(intent), o.amount),
                                        Increment(b, XmrId(intent), o.amount));
            RecordReceipt(b, intent, o) == (a, Ok(outcome))
  {
    AgreeingIsStored(b, intent, o);
    ReceiptResult(b, XmrId(intent), o);
  }

  /** A receipt granted before is a duplicate and adds nothing. */
  lemma GrantedIsDuplicate(b: Books, intent: Uuid, o: Observation)
    requires Inv(b) && Acceptable(b, XmrId(intent), o) && Agrees(b, XmrId(intent), o)
    requires Grantable(b, XmrId(intent), o)
    ensures var v := XmrId(intent);
            var (a, outcome) := RecordReceipt(b, intent, o);
            (outcome == Ok(Duplicate) <==> exists k | 0 <= k < |b.grants| :: b.grants[k].receipt == RowOf(b, v, o))
            && (outcome == Ok(Duplicate) ==> a == b.(receipts := a.receipts))
  {
    GrantableOutcome(b, intent, o);
    StoredIsKept(b, XmrId(intent), o);
  }

  /** The books after a grant of `delta` to row `r`. */
  ghost predicate Grants(b: Books, a: Books, v: ValuationId, amount: nat, delta: nat, r: nat)
    requires v in b.allocations
  {
    var x := b.allocations[v];
    && a.allocations == b.allocations[v := Allocation(x.eligible + amount, x.credited + delta, x.hold)]
    && |a.grants| == |b.grants| + 1 && a.grants[..|b.grants|] == b.grants
    && a.grants[|b.grants|].receipt == r && a.grants[|b.grants|].delta == delta
    && a.feed.entries == b.feed.entries + (if delta == 0 then [] else [L.Entry(L.ReceiptKey(r), delta)])
    && a.feed.attempts == b.feed.attempts && a.valuations == b.valuations && a.settled == b.settled
    && a.receipts == b.receipts && a.conflicts == b.conflicts
  }

  lemma WithGrantGrants(b: Books, v: ValuationId, amount: nat, delta: nat, r: nat)
    requires v in b.allocations
    ensures Grants(b, WithGrant(b, v, amount, delta, r), v, amount, delta, r)
  {
    assert b.feed.entries + [] == b.feed.entries;
  }

  lemma AffordableFits(b: Books, v: ValuationId, amount: nat)
    requires v in b.valuations && v in b.allocations && b.valuations[v].expected > 0
    ensures WithinLimits(b, v, amount) <==> Affordable(b, v, amount)
    ensures Increment(b, v, amount) == Total(b, v, amount) - b.allocations[v].credited
  {
  }

  lemma FittingOutcome(b: Books, v: ValuationId, o: Observation, delta: nat, r: nat)
    requires ReceiptsValid(b) && Acceptable(b, v, o) && Grantable(b, v, o) && L.Sum(b.feed.entries) >= 0
    requires r == RowOf(b, v, o) && forall k | 0 <= k < |b.grants| :: b.grants[k].receipt != r
    ensures Outcome(b, v, o, true, delta)
            == (WithGrant(Stored(b, v, o).0, v, o.amount, delta, r), Recorded(delta, L.Sum(b.feed.entries) + delta))
  {
    StoredIsKept(b, v, o);
    assert !Granted(b.grants, r);
  }

  lemma AffordableGrants(b: Books, v: ValuationId, o: Observation)
    requires ReceiptsValid(b) && Acceptable(b, v, o) && Grantable(b, v, o) && L.Sum(b.feed.entries) >= 0
    requires b.valuations[v].expected > 0 && Increment(b, v, o.amount) >= 0 && Affordable(b, v, o.amount)
    requires forall k | 0 <= k < |b.grants| :: b.grants[k].receipt != RowOf(b, v, o)
    ensures var (a, outcome) := Outcome(b, v, o, WithinLimits(b, v, o.amount), Increment(b, v, o.amount));
            var delta := Total(b, v, o.amount) - b.allocations[v].credited;
            && delta >= 0 && outcome == Recorded(delta, L.Sum(b.feed.entries) + delta)
            && Kept(b, a.receipts, v, o, true, RowOf(b, v, o))
            && Grants(b.(receipts := a.receipts), a, v, o.amount, delta, RowOf(b, v, o))
  {
    StoredIsKept(b, v, o);
    AffordableFits(b, v, o.amount);
    FittingOutcome(b, v, o, Increment(b, v, o.amount), RowOf(b, v, o));
    WithGrantGrants(Stored(b, v, o).0, v, o.amount, Increment(b, v, o.amount), RowOf(b, v, o));
  }

  /** `r` stores the receipt and holds its intent. */
  ghost predicate HoldsFor(b: Books, v: ValuationId, o: Observation, reason: Hold, r: (Books, Result<ReceiptOutcome>))
    requires v in b.allocations
  {
    && r.1 == Ok(Held) && Kept(b, r.0.receipts, v, o, true, RowOf(b, v, o))
    && r.0 == HeldFor(b.(receipts := r.0.receipts), v, o, reason)
  }

  lemma UnaffordableHolds(b: Books, v: ValuationId, o: Observation, delta: nat)
    requires ReceiptsValid(b) && Acceptable(b, v, o) && Grantable(b, v, o) && L.Sum(b.feed.entries) >= 0
    requires forall k | 0 <= k < |b.grants| :: b.grants[k].receipt != RowOf(b, v, o)
    ensures var (a, outcome) := Outcome(b, v, o, false, delta);
            HoldsFor(b, v, o, CreditLimit, (a, Ok(outcome)))
  {
    StoredIsKept(b, v, o);
    assert !Granted(b.grants, RowOf(b, v, o));
  }

  lemma UnaffordableIsStored(b: Books, v: ValuationId, o: Observation)
    requires Inv(b) && v.XmrId? && Acceptable(b, v, o) && Grantable(b, v, o) && !Affordable(b, v, o.amount)
    requires forall k | 0 <= k < |b.grants| :: b.grants[k].receipt != RowOf(b, v, o)
    ensures HoldsFor(b, v, o, CreditLimit, StoreAndGrant(b, v, o))
  {
    ReceiptResult(b, v, o);
    AffordableFits(b, v, o.amount);
    UnaffordableHolds(b, v, o, Increment(b, v, o.amount));
  }

  /** What does not fit is held for its limit, and only the receipt is stored. */
  lemma UnaffordableIsHeld(b: Books, intent: Uuid, o: Observation)
    requires Inv(b) && Acceptable(b, XmrId(intent), o) && Agrees(b, XmrId(intent), o)
    requires Grantable(b, XmrId(intent), o) && !Affordable(b, XmrId(intent), o.amount)
    requires forall k | 0 <= k < |b.grants| :: b.grants[k].receipt != RowOf(b, XmrId(intent), o)
    ensures HoldsFor(b, XmrId(intent), o, CreditLimit, RecordReceipt(b, intent, o))
  {
    AgreeingIsStored(b, intent, o);
    UnaffordableIsStored(b, XmrId(intent), o);
  }

  /** `r` stores the receipt and records the grant of what one more receipt of the observed amount is worth. */
  ghost predicate GrantsWorth(b: Books, v: ValuationId, o: Observation, r: (Books, Result<ReceiptOutcome>))
    requires v in b.valuations && v in b.allocations && b.valuations[v].expected > 0 && L.Sum(b.feed.entries) >= 0
  {
    var delta := Total(b, v, o.amount) - b.allocations[v].credited;
    && delta >= 0 && r.1 == Ok(Recorded(delta, L.Sum(b.feed.entries) + delta))
    && Kept(b, r.0.receipts, v, o, true, RowOf(b, v, o))
    && Grants(b.(receipts := r.0.receipts), r.0, v, o.amount, delta, RowOf(b, v, o))
  }

  lemma AffordableIsStored(b: Books, v: ValuationId, o: Observation)
    requires Inv(b) && v.XmrId? && Acceptable(b, v, o) && Grantable(b, v, o) && Affordable(b, v, o.amount)
    requires forall k | 0 <= k < |b.grants| :: b.grants[k].receipt != RowOf(b, v, o)
    ensures GrantsWorth(b, v, o, StoreAndGrant(b, v, o))
  {
    ReceiptResult(b, v, o);
    AffordableGrants(b, v, o);
  }

  /** What fits is granted once, to the satoshi, with one entry under the receipt's own key. */
  lemma AffordableIsGranted(b: Books, intent: Uuid, o: Observation)
    requires Inv(b) && Acceptable(b, XmrId(intent), o) && Agrees(b, XmrId(intent), o)
    requires Grantable(b, XmrId(intent), o) && Affordable(b, XmrId(intent), o.amount)
    requires forall k | 0 <= k < |b.grants| :: b.grants[k].receipt != RowOf(b, XmrId(intent), o)
    ensures GrantsWorth(b, XmrId(intent), o, RecordReceipt(b, intent, o))
  {
    AgreeingIsStored(b, intent, o);
    AffordableIsStored(b, XmrId(intent), o);
  }

  /** On any books: a receipt is granted only when the stored watermarks are the sums of the grants and their floor. */
  lemma MismatchIsHeld(b: Books, intent: Uuid, o: Observation)
    requires ReceiptsValid(b) && Acceptable(b, XmrId(intent), o) && Agrees(b, XmrId(intent), o)
    requires Grantable(b, XmrId(intent), o)
    requires C.Agreed(TermsOf(b.valuations[XmrId(intent)])) && b.valuations[XmrId(intent)].binding.asset == C.Xmr
    ensures var v := XmrId(intent);
            var (a, outcome) := RecordReceipt(b, intent, o);
            var held, val := b.allocations[v], b.valuations[v];
            var (receipts, _) := StoreReceipt(b.receipts, v, o, Timely(val.window.value, o));
            !(held.eligible == GrantedAtomic(receipts, b.grants, v)
              && held.credited == GrantedSats(receipts, b.grants, v) && held.eligible <= 0x7FFF_FFFF_FFFF_FFFF
              && held.credited == held.eligible * val.target / val.expected <= 0x7FFF_FFFF_FFFF_FFFF) ==>
              outcome == Ok(Held) && a == HeldFor(b.(receipts := receipts), v, o, AllocationMismatch)
  {
    var v, t := XmrId(intent), TermsOf(b.valuations[XmrId(intent)]);
    AgreeingIsStored(b, intent, o);
    if b.allocations[v].eligible <= 0x7FFF_FFFF_FFFF_FFFF {
      C.CumulativeIsFloor(t, C.AssetAmount(C.Xmr, b.allocations[v].eligible));
    }
  }

  // --- Payments --------------------------------------------------------------------------

  /** Whole satoshis, positive and storable, settled at no negative time. */
  predicate Payable(p: Payment) {
    && p.formatted && 0 < p.amountMsat <= 0x7FFF_FFFF_FFFF_FFFF && p.amountMsat % 1000 == 0
    && (p.settledAt.Some? ==> p.settledAt.value >= 0)
  }

  /** On any books: a replay is verified against its own valuation, allocation, receipt, grant and entry. */
  lemma VerificationIsExact(b: Books, i: nat)
    requires i < |b.settled|
    ensures var p, v := b.settled[i], BtcId(i);
            var sats := p.amountMsat / 1000;
            NativeVerified(b, i) <==>
              && p.amountMsat % 1000 == 0
              && v in b.valuations && v in b.allocations && b.allocations[v] == Allocation(sats, sats, None)
              && b.valuations[v]
                 == Valuation(Binding(C.Btc, "legacy-unspecified", p.source, "legacy-settled-payment", p.sourceId),
                              p.user, p.pool, 1, 1, 0x7FFF_FFFF_FFFF_FFFF, None, None)
              && exists k | 0 <= k < |b.grants| ::
                   var g := b.grants[k];
                   && g.receipt < |b.receipts|
                   && b.receipts[g.receipt] == Receipt(v, p.sourceId, sats, None, true, true, Some(i))
                   && g.delta == sats && g.cumulativeAtomic == sats && g.cumulativeSats == sats
                   && g.entry.Some? && g.entry.value < |b.feed.entries|
                   && b.feed.entries[g.entry.value] == L.Entry(L.PaymentKey(p.source, p.sourceId), sats)
  {
  }

  lemma UnverifiedReplayFails(b: Books, p: Payment, i: nat)
    requires FindSettled(b.settled, p.source, p.sourceId) == Some(i) && !NativeVerified(b, i)
    ensures RecordPayment(b, p) == (b, Err)
  {
  }

  /** On any books: a new payment whose receive binding or row is in use is refused and leaves nothing behind. */
  lemma TakenBindingFails(b: Books, p: Payment)
    requires FindSettled(b.settled, p.source, p.sourceId) == None
    requires BtcId(|b.settled|) in b.valuations
             || exists w | w in b.valuations ::
                  b.valuations[w].binding
                  == Binding(C.Btc, "legacy-unspecified", p.source, "legacy-settled-payment", p.sourceId)
    ensures RecordPayment(b, p) == (b, Err)
  {
  }

  predicate IsSettled(b: Books, p: Payment, i: nat) {
    i < |b.settled| && b.settled[i].source == p.source && b.settled[i].sourceId == p.sourceId
  }

  lemma UnpayableIsIdle(b: Books, p: Payment)
    ensures !Payable(p) ==> RecordPayment(b, p) == (b, Err)
  {
  }

  /** A settled identity is accepted only with the same hash, owner, pool, amount and time, and stays as it is. */
  lemma ReplayIsExact(b: Books, p: Payment, i: nat)
    requires Inv(b) && Payable(p) && IsSettled(b, p, i)
    ensures var q := b.settled[i];
            RecordPayment(b, p)
            == (b, if q.hash == p.hash && q.user == p.user && q.pool == p.pool && q.amountMsat == p.amountMsat
                      && q.settledAt == p.settledAt then Ok(AlreadySettled) else Err)
  {
    assert FindSettled(b.settled, p.source, p.sourceId) == Some(i);
    assert NativeVerified(b, i);
  }

  /** The rows a settlement adds: itself, its receipt, its grant, its entry with the event, its valuation. */
  ghost predicate Settles(b: Books, a: Books, p: Payment) {
    var sats, v := p.amountMsat / 1000, BtcId(|b.settled|);
    && a.settled == b.settled + [p]
    && a.feed.entries == b.feed.entries + [L.Entry(L.PaymentKey(p.source, p.sourceId), sats)]
    && a.feed.events == b.feed.events + [L.PaymentReceived(sats, L.Sum(b.feed.entries) + sats)]
    && a.feed.attempts == b.feed.attempts && a.conflicts == b.conflicts
    && a.receipts == b.receipts + [Receipt(v, p.sourceId, sats, None, true, true, Some(|b.settled|))]
    && a.grants == b.grants + [Grant(|b.receipts|, sats, sats, sats, Some(|b.feed.entries|),
                                     Some(|b.feed.events| + 1))]
    && a.allocations == b.allocations[v := Allocation(sats, sats, None)]
    && v in a.valuations && a.valuations == b.valuations[v := a.valuations[v]]
    && var row := a.valuations[v];
       && row.binding.asset == C.Btc && row.binding.provider == p.source && row.binding.receive == p.sourceId
       && row.user == p.user && row.pool == p.pool && row.expected == 1 && row.target == 1
       && row.maxCredit == 0x7FFF_FFFF_FFFF_FFFF && row.rate == None && row.window == None
  }

  lemma SettleSettles(b: Books, p: Payment)
    ensures Settles(b, Settle(b, p, L.Received(b.feed, L.PaymentKey(p.source, p.sourceId), p.amountMsat / 1000)), p)
  {
  }

  /** A new payment is refused for a used hash or a full ledger, and otherwise settled and credited once. */
  lemma SettlementIsExact(b: Books, p: Payment)
    requires Inv(b) && Payable(p)
    requires forall i | 0 <= i < |b.settled| :: b.settled[i].source != p.source || b.settled[i].sourceId != p.sourceId
    ensures var (a, r) := RecordPayment(b, p);
            var used := p.hash.Some? && exists i | 0 <= i < |b.settled| :: b.settled[i].hash == p.hash;
            if used || L.Sum(b.feed.entries) + p.amountMsat / 1000 > 0x7FFF_FFFF_FFFF_FFFF then (a, r) == (b, Err)
            else r == Ok(Credited(p.amountMsat / 1000)) && Settles(b, a, p)
  {
    if !HashTaken(b.settled, p.hash) {
      SettlementAccepted(b, p);
      L.ReceiveIs(b.feed, L.PaymentKey(p.source, p.sourceId), p.amountMsat / 1000);
      SettleSettles(b, p);
    }
  }

  // --- Intents ---------------------------------------------------------------------------

  /** An intent in XMR whose limit covers its target. */
  predicate Registrable(n: Intent) {
    n.formatted && n.binding.asset == C.Xmr && n.quote.terms.target <= n.maxCredit <= 0x7FFF_FFFF_FFFF_FFFF
  }

  /** A stored intent is accepted only unchanged; a new one needs a receive binding no other valuation uses. */
  lemma RegistrationIsExact(b: Books, n: Intent)
    ensures var (a, r), v := RegisterIntent(b, n), XmrId(n.id);
            var row := Valuation(n.binding, n.user, n.pool, n.quote.terms.expected, n.quote.terms.target, n.maxCredit,
                                 Some(n.quote.rate), Some(Window(n.quote.issuedAt, n.quote.expiresAt)));
            if Registrable(n) && v in b.valuations && b.valuations[v] == row then (a, r) == (b, Ok(()))
            else if Registrable(n) && v !in b.valuations
                    && (forall w | w in b.valuations :: b.valuations[w].binding != n.binding) then
              && r == Ok(())
              && a == b.(valuations := b.valuations[v := row],
                         allocations := b.allocations[v := Allocation(0, 0, None)])
            else (a, r) == (b, Err)
  {
  }

  /** A provider hold is set once: an earlier reason stays, and the credit is not touched. */
  lemma ProviderHoldIsExact(b: Books, intent: Uuid)
    ensures var (a, r), v := HoldIntent(b, intent), XmrId(intent);
            if v !in b.allocations then (a, r) == (b, Err)
            else
              var x := b.allocations[v];
              && r == Ok(())
              && a == b.(allocations := b.allocations[v :=
                           Allocation(x.eligible, x.credited,
                                      if x.hold == None then Some(ProviderInconsistency) else x.hold)])
  {
  }

  /** A stored intent reads back as the row it was made from, its quote recomputed from the stored rate. */
  lemma StoredIntentIsRow(b: Books, id: Uuid)
    requires StoredIntent(b, id).Ok?
    ensures XmrId(id) in b.valuations
    ensures var n, row := StoredIntent(b, id).value, b.valuations[XmrId(id)];
            && n.id == id && n.binding == row.binding && n.binding.asset == C.Xmr
            && n.user == row.user && n.pool == row.pool && n.maxCredit == row.maxCredit
            && row.rate == Some(n.quote.rate) && n.quote.terms.expected == row.expected
            && row.window == Some(Window(n.quote.issuedAt, n.quote.expiresAt)) && n.quote.terms.target == row.target
  {
  }
}
