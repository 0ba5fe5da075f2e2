/**
 What the credit ledger keeps over every run: watermarks, grants, ledger and event log agree, so the
 mismatch branches of the store are unreachable.
 */
module CreditInvariants {
  import opened Wrappers
  import opened CreditLedger
  import L = FeedLedger
  import C = CreditTerms

  // --- The invariant --------------------------------------------------------------

  function TermsOf(val: Valuation): C.Terms { C.Terms(val.binding.asset, val.expected, val.target) }

  ghost predicate ValuationsValid(b: Books) {
    && b.valuations.Keys == b.allocations.Keys
    && forall v | v in b.valuations ::
         var val := b.valuations[v];
         && C.Agreed(TermsOf(val)) && val.target <= val.maxCredit <= C.MAX_UNITS
         && match v
            case BtcId(i) => i < |b.settled|
            case XmrId(_) => val.binding.asset == C.Xmr && val.window.Some?
  }

  ghost predicate ReceiptsValid(b: Books) {
    && (forall i | 0 <= i < |b.receipts| :: b.receipts[i].valuation in b.valuations)
    && (forall i, j | 0 <= i < j < |b.receipts| ::
          b.receipts[i].valuation != b.receipts[j].valuation || b.receipts[i].key != b.receipts[j].key)
  }

  ghost predicate GrantsValid(receipts: seq<Receipt>, grants: seq<Grant>) {
    && (forall k | 0 <= k < |grants| :: grants[k].receipt < |receipts|)
    && (forall j, k | 0 <= j < k < |grants| :: grants[j].receipt != grants[k].receipt)
  }

  /** The watermark is the sum of the granted receipts, and the credit is its floor valuation. */
  ghost predicate Watermarked(b: Books, v: ValuationId)
    requires v in b.valuations && v in b.allocations
  {
    var val, a := b.valuations[v], b.allocations[v];
    && a.eligible == GrantedAtomic(b.receipts, b.grants, v) <= C.MAX_UNITS
    && a.credited == GrantedSats(b.receipts, b.grants, v) <= val.maxCredit
    && val.expected > 0 && a.credited == a.eligible * val.target / val.expected
  }

  ghost predicate AllWatermarked(b: Books) {
    b.valuations.Keys == b.allocations.Keys
    && forall v {:trigger Watermarked(b, v)} | v in b.valuations :: Watermarked(b, v)
  }

  /** What one entry of the ledger stands for. */
  predicate EntryTraced(key: L.SourceKey, settled: seq<Payment>, grants: seq<Grant>) {
    match key
    case ReceiptKey(r) => Granted(grants, r)
    case PaymentKey(source, sourceId) => FindSettled(settled, source, sourceId).Some?
    case FeedKey(_) => true
  }

  /** Every credit entry of the ledger comes from one grant or one settlement, and only once. */
  ghost predicate Traced(b: Books) {
    && GrantTotal(b.grants) == L.Receipts(b.feed.entries)
    && (forall i | 0 <= i < |b.feed.entries| :: EntryTraced(b.feed.entries[i].key, b.settled, b.grants))
  }

  ghost predicate Settlements(b: Books) {
    && (forall i, j | 0 <= i < j < |b.settled| ::
          b.settled[i].source != b.settled[j].source || b.settled[i].sourceId != b.settled[j].sourceId)
    && (forall i, j | 0 <= i < j < |b.settled| :: b.settled[i].hash.Some? ==> b.settled[i].hash != b.settled[j].hash)
    && (forall i {:trigger NativeVerified(b, i)} | 0 <= i < |b.settled| :: NativeVerified(b, i))
  }

  ghost predicate Inv(b: Books) {
    && L.Inv(b.feed)
    && ValuationsValid(b) && ReceiptsValid(b) && GrantsValid(b.receipts, b.grants)
    && AllWatermarked(b) && Traced(b) && Settlements(b)
  }

  // --- Sums -----------------------------------------------------------------------

  ghost predicate SameGrantedRows(before: seq<Receipt>, after: seq<Receipt>) {
    && |before| <= |after|
    && forall i | 0 <= i < |before| ::
         && after[i].valuation == before[i].valuation && after[i].amount == before[i].amount
         && after[i].key == before[i].key
  }

  lemma {:induction false} SumsStable(before: seq<Receipt>, after: seq<Receipt>, grants: seq<Grant>, v: ValuationId)
    requires SameGrantedRows(before, after)
    requires forall k | 0 <= k < |grants| :: grants[k].receipt < |before|
    ensures GrantedAtomic(after, grants, v) == GrantedAtomic(before, grants, v)
    ensures GrantedSats(after, grants, v) == GrantedSats(before, grants, v)
  {
    if grants != [] {
      SumsStable(before, after, grants[..|grants| - 1], v);
    }
  }

  lemma {:induction false} NoReceiptsNoSums(receipts: seq<Receipt>, grants: seq<Grant>, v: ValuationId)
    requires forall i | 0 <= i < |receipts| :: receipts[i].valuation != v
    ensures GrantedAtomic(receipts, grants, v) == 0 && GrantedSats(receipts, grants, v) == 0
  {
    if grants != [] {
      NoReceiptsNoSums(receipts, grants[..|grants| - 1], v);
    }
  }

  lemma GrantedGrows(grants: seq<Grant>, g: Grant)
    ensures forall r :: Granted(grants + [g], r) <==> Granted(grants, r) || g.receipt == r
  {
    var after := grants + [g];
    assert after[|grants|] == g;
    forall r | Granted(grants, r) ensures Granted(after, r) {
      var k :| 0 <= k < |grants| && grants[k].receipt == r;
      assert after[k].receipt == r;
    }
  }

  lemma SumsAppend(receipts: seq<Receipt>, grants: seq<Grant>, g: Grant, v: ValuationId)
    requires g.receipt < |receipts|
    ensures GrantedAtomic(receipts, grants + [g], v)
            == GrantedAtomic(receipts, grants, v)
               + if receipts[g.receipt].valuation == v then receipts[g.receipt].amount else 0
    ensures GrantedSats(receipts, grants + [g], v)
            == GrantedSats(receipts, grants, v) + if receipts[g.receipt].valuation == v then g.delta else 0
  {
    assert (grants + [g])[..|grants|] == grants;
  }

  /** Adding rows never disturbs the provenance of an earlier settlement. */
  lemma VerifiedStays(b: Books, a: Books, i: nat)
    requires i < |b.settled| && NativeVerified(b, i)
    requires b.settled <= a.settled && b.grants <= a.grants && b.feed.entries <= a.feed.entries
    requires |b.receipts| <= |a.receipts|
    requires forall r | 0 <= r < |b.receipts| && b.receipts[r].unlocked :: a.receipts[r] == b.receipts[r]
    requires BtcId(i) in a.valuations && a.valuations[BtcId(i)] == b.valuations[BtcId(i)]
    requires BtcId(i) in a.allocations && a.allocations[BtcId(i)] == b.allocations[BtcId(i)]
    ensures NativeVerified(a, i)
  {
    var p := b.settled[i];
    assert a.settled[i] == p;
    var sats := p.amountMsat / 1000;
    var k :| 0 <= k < |b.grants| &&
      var g := b.grants[k];
      && g.receipt < |b.receipts| && b.receipts[g.receipt] == NativeReceipt(p, i)
      && g.delta == g.cumulativeAtomic == g.cumulativeSats == sats
      && g.entry.Some? && g.entry.value < |b.feed.entries|
      && b.feed.entries[g.entry.value] == L.Entry(L.PaymentKey(p.source, p.sourceId), sats);
    assert a.grants[k] == b.grants[k];
  }

  // --- Feed transactions ------------------------------------------------------------

  predicate FeedOnly(s: L.Step) { L.Legal(s) && !s.ReceiveStep? }

  /** A debit appends at most one entry, under the attempt's key. */
  lemma FedEntries(t: L.Tables, id: Uuid, expected: L.AttemptStatus)
    ensures var entries := L.ResolveAsFed(t, id, expected).0.entries;
            || entries == t.entries
            || exists delta :: entries == t.entries + [L.Entry(L.FeedKey(id), delta)]
  {
    var row := L.FindIn(t.attempts, id, {expected});
    if row.Some? {
      var delta := -t.attempts[row.value].threshold;
      assert L.ResolveAsFed(t, id, expected).1.Ok? ==>
          L.ResolveAsFed(t, id, expected).0.entries == t.entries + [L.Entry(L.FeedKey(id), delta)];
    }
  }

  lemma OthersKeepEntries(t: L.Tables, s: L.Step)
    requires FeedOnly(s) && !s.FedStep?
    ensures L.Apply(t, s).entries == t.entries
  {
  }

  lemma FeedEntries(t: L.Tables, s: L.Step)
    requires FeedOnly(s)
    ensures var u := L.Apply(t, s);
            && t.entries <= u.entries
            && L.Receipts(u.entries) == L.Receipts(t.entries)
            && (forall i | |t.entries| <= i < |u.entries| :: u.entries[i].key.FeedKey?)
  {
    if s.FedStep? {
      FedEntries(t, s.id, s.expected);
      var entries := L.ResolveAsFed(t, s.id, s.expected).0.entries;
      if entries != t.entries {
        var delta :| entries == t.entries + [L.Entry(L.FeedKey(s.id), delta)];
        L.AppendEntry(t.entries, L.Entry(L.FeedKey(s.id), delta));
      }
    } else {
      OthersKeepEntries(t, s);
    }
  }

  lemma FeedKeepsInv(b: Books, s: L.Step)
    requires Inv(b) && FeedOnly(s)
    ensures Inv(b.(feed := L.Apply(b.feed, s)))
  {
    var a := b.(feed := L.Apply(b.feed, s));
    L.ApplyKeepsInv(b.feed, s);
    FeedEntries(b.feed, s);
    forall v | v in b.valuations ensures Watermarked(a, v) {
      assert Watermarked(b, v);
    }
    forall i | 0 <= i < |b.settled| ensures NativeVerified(a, i) {
      VerifiedStays(b, a, i);
    }
  }

  // --- Holds and intents --------------------------------------------------------------

  lemma HoldKeepsInv(b: Books, v: ValuationId, reason: Hold, conflicts: set<Conflict>)
    requires Inv(b) && v in b.allocations && v.XmrId?
    ensures Inv(SetHold(b, v, reason).(conflicts := conflicts))
  {
    var a := SetHold(b, v, reason).(conflicts := conflicts);
    forall w | w in a.valuations ensures Watermarked(a, w) {
      assert Watermarked(b, w);
    }
    forall i | 0 <= i < |b.settled| ensures NativeVerified(a, i) {
      VerifiedStays(b, a, i);
    }
  }

  lemma RegisterKeepsWatermarks(b: Books, n: Intent)
    requires AllWatermarked(b) && ReceiptsValid(b) && b.valuations.Keys == b.allocations.Keys
    requires XmrId(n.id) !in b.valuations && C.Agreed(n.quote.terms)
    ensures AllWatermarked(RegisterIntent(b, n).0)
  {
    var a, v := RegisterIntent(b, n).0, XmrId(n.id);
    NoReceiptsNoSums(b.receipts, b.grants, v);
    forall w | w in a.valuations ensures Watermarked(a, w) {
      if w != v {
        assert Watermarked(b, w);
      } else {
        assert 0 * n.quote.terms.target / n.quote.terms.expected == 0;
      }
    }
  }

  lemma RegisterKeepsSettlements(b: Books, n: Intent)
    requires Settlements(b) && ValuationsValid(b)
    ensures Settlements(RegisterIntent(b, n).0)
  {
    var a := RegisterIntent(b, n).0;
    forall i | 0 <= i < |b.settled| ensures NativeVerified(a, i) {
      VerifiedStays(b, a, i);
    }
  }

  lemma RegisterKeepsInv(b: Books, n: Intent)
    requires Inv(b) && C.Agreed(n.quote.terms)
    ensures Inv(RegisterIntent(b, n).0)
  {
    if RegisterIntent(b, n).0 != b {
      RegisterKeepsWatermarks(b, n);
      RegisterKeepsSettlements(b, n);
    }
  }

  // --- Settlements --------------------------------------------------------------------

  lemma BtcBindingSettled(b: Books, v: ValuationId)
    requires Inv(b) && v in b.valuations && b.valuations[v].binding.asset == C.Btc
    ensures v.BtcId? && v.settlement < |b.settled|
    ensures b.valuations[v].binding == NativeBinding(b.settled[v.settlement])
  {
    assert NativeVerified(b, v.settlement);
  }

  /** The rows of a fresh settlement never collide, so only a full ledger can refuse it. */
  lemma SettlementAccepted(b: Books, p: Payment)
    requires Inv(b) && PaymentAcceptable(p)
    requires FindSettled(b.settled, p.source, p.sourceId).None? && !HashTaken(b.settled, p.hash)
    ensures !L.HasKey(b.feed.entries, L.PaymentKey(p.source, p.sourceId))
    ensures BtcId(|b.settled|) !in b.valuations && !BindingTaken(b.valuations, NativeBinding(p))
    ensures RecordPayment(b, p).1.Ok? <==> L.Sum(b.feed.entries) + p.amountMsat / 1000 <= I64_MAX
  {
    L.ReceiveKeepsInv(b.feed, L.PaymentKey(p.source, p.sourceId), p.amountMsat / 1000);
    if BindingTaken(b.valuations, NativeBinding(p)) {
      var v :| v in b.valuations && b.valuations[v].binding == NativeBinding(p);
      BtcBindingSettled(b, v);
      assert false;
    }
  }

  lemma {:induction false} SettleKeepsInv(b: Books, p: Payment)
    requires Inv(b)
    ensures Inv(RecordPayment(b, p).0)
  {
    var (a, r) := RecordPayment(b, p);
    if r.Ok? && r.value.Credited? {
      var sats := p.amountMsat / 1000;
      SettlementAccepted(b, p);
      L.ReceiveKeepsInv(b.feed, L.PaymentKey(p.source, p.sourceId), sats);
      L.AppendEntry(b.feed.entries, L.Entry(L.PaymentKey(p.source, p.sourceId), sats));
      SettleKeepsRows(b, p, a.feed);
      SettleKeepsWatermarks(b, p, a.feed);
      SettleKeepsTrace(b, p, a.feed);
      SettleKeepsProvenance(b, p, a.feed);
    }
  }

  predicate Received(before: L.Tables, after: L.Tables, key: L.SourceKey, amount: nat) {
    after.entries == before.entries + [L.Entry(key, amount)]
  }

  lemma SettleKeepsRows(b: Books, p: Payment, feed: L.Tables)
    requires ValuationsValid(b) && ReceiptsValid(b) && GrantsValid(b.receipts, b.grants)
    requires PaymentAcceptable(p) && BtcId(|b.settled|) !in b.valuations
    ensures var a := Settle(b, p, feed); ValuationsValid(a) && ReceiptsValid(a) && GrantsValid(a.receipts, a.grants)
  {
  }

  /** A settlement does not touch the watermark of another valuation. */
  lemma SettleKeepsOldWatermark(b: Books, p: Payment, feed: L.Tables, w: ValuationId)
    requires AllWatermarked(b) && GrantsValid(b.receipts, b.grants)
    requires w in b.valuations && w != BtcId(|b.settled|)
    ensures Watermarked(Settle(b, p, feed), w)
  {
    var a := Settle(b, p, feed);
    assert Watermarked(b, w);
    SumsStable(b.receipts, a.receipts, b.grants, w);
    SumsAppend(a.receipts, b.grants, a.grants[|b.grants|], w);
  }

  lemma SettleSetsWatermark(b: Books, p: Payment, feed: L.Tables)
    requires ReceiptsValid(b) && GrantsValid(b.receipts, b.grants)
    requires PaymentAcceptable(p) && BtcId(|b.settled|) !in b.valuations
    ensures Watermarked(Settle(b, p, feed), BtcId(|b.settled|))
  {
    var a, v, sats := Settle(b, p, feed), BtcId(|b.settled|), p.amountMsat / 1000;
    NoReceiptsNoSums(b.receipts, b.grants, v);
    SumsStable(b.receipts, a.receipts, b.grants, v);
    SumsAppend(a.receipts, b.grants, a.grants[|b.grants|], v);
    assert sats * 1 / 1 == sats;
  }

  lemma SettleKeepsWatermarks(b: Books, p: Payment, feed: L.Tables)
    requires AllWatermarked(b) && ReceiptsValid(b) && GrantsValid(b.receipts, b.grants)
    requires PaymentAcceptable(p) && BtcId(|b.settled|) !in b.valuations
    ensures AllWatermarked(Settle(b, p, feed))
  {
    var a := Settle(b, p, feed);
    SettleSetsWatermark(b, p, feed);
    forall w | w in a.valuations ensures Watermarked(a, w) {
      if w in b.valuations {
        SettleKeepsOldWatermark(b, p, feed, w);
      }
    }
  }

  lemma SettleKeepsTrace(b: Books, p: Payment, feed: L.Tables)
    requires Traced(b) && Received(b.feed, feed, L.PaymentKey(p.source, p.sourceId), p.amountMsat / 1000)
    ensures Traced(Settle(b, p, feed))
  {
    var a := Settle(b, p, feed);
    assert a.settled[|b.settled|] == p;
    TraceExtends(b, a, a.grants[|b.grants|], L.Entry(L.PaymentKey(p.source, p.sourceId), p.amountMsat / 1000));
  }

  /** What an entry stands for stays recorded. */
  lemma EntryStays(key: L.SourceKey, settled: seq<Payment>, after: seq<Payment>, grants: seq<Grant>, more: seq<Grant>)
    requires EntryTraced(key, settled, grants) && settled <= after && grants <= more
    ensures EntryTraced(key, after, more)
  {
    match key
    case ReceiptKey(r) =>
      var k :| 0 <= k < |grants| && grants[k].receipt == r;
      assert more[k].receipt == r;
    case PaymentKey(source, sourceId) =>
      var i := FindSettled(settled, source, sourceId).value;
      assert after[i] == settled[i];
    case FeedKey(_) =>
  }

  lemma GrantTotalGrows(grants: seq<Grant>, g: Grant)
    ensures GrantTotal(grants + [g]) == GrantTotal(grants) + g.delta
  {
    assert (grants + [g])[..|grants|] == grants;
  }

  /** One more grant and its entry. */
  lemma TraceExtends(b: Books, a: Books, g: Grant, entry: L.Entry)
    requires Traced(b) && b.settled <= a.settled
    requires a.grants == b.grants + [g] && a.feed.entries == b.feed.entries + [entry]
    requires entry.delta == g.delta && !entry.key.FeedKey? && EntryTraced(entry.key, a.settled, a.grants)
    ensures Traced(a)
  {
    L.AppendEntry(b.feed.entries, entry);
    GrantTotalGrows(b.grants, g);
    forall i | 0 <= i < |a.feed.entries| ensures EntryTraced(a.feed.entries[i].key, a.settled, a.grants) {
      if i < |b.feed.entries| {
        EntryStays(b.feed.entries[i].key, b.settled, a.settled, b.grants, a.grants);
      }
    }
  }

  lemma SettleKeepsProvenance(b: Books, p: Payment, feed: L.Tables)
    requires Inv(b) && PaymentAcceptable(p) && BtcId(|b.settled|) !in b.valuations
    requires FindSettled(b.settled, p.source, p.sourceId).None? && !HashTaken(b.settled, p.hash)
    requires Received(b.feed, feed, L.PaymentKey(p.source, p.sourceId), p.amountMsat / 1000)
    ensures Settlements(Settle(b, p, feed))
  {
    var a := Settle(b, p, feed);
    SettledIsVerified(b, p, feed);
    forall i | 0 <= i < |a.settled| ensures NativeVerified(a, i) {
      if i < |b.settled| {
        VerifiedStays(b, a, i);
      }
    }
  }

  /** A new settlement passes its own check. */
  lemma SettledIsVerified(b: Books, p: Payment, feed: L.Tables)
    requires PaymentAcceptable(p)
    requires Received(b.feed, feed, L.PaymentKey(p.source, p.sourceId), p.amountMsat / 1000)
    ensures NativeVerified(Settle(b, p, feed), |b.settled|)
  {
    assert Settle(b, p, feed).grants[|b.grants|].receipt == |b.receipts|;
  }

  // --- Receipts -----------------------------------------------------------------------

  /** The books after `StoreReceipt`. */
  function Stored(b: Books, v: ValuationId, o: Observation): (r: (Books, nat))
    requires v in b.valuations && b.valuations[v].window.Some?
    ensures r.1 < |r.0.receipts|
  {
    var (receipts, r) := StoreReceipt(b.receipts, v, o, Timely(b.valuations[v].window.value, o));
    (b.(receipts := receipts), r)
  }

  /** An observation that contradicts no stored row. */
  predicate Consistent(b: Books, v: ValuationId, o: Observation) {
    match FindReceipt(b.receipts, v, o.key)
    case Some(i) => Contradiction(b.receipts[i], o).None?
    case None => true
  }

  lemma StoreKeepsWatermarks(b: Books, v: ValuationId, o: Observation)
    requires AllWatermarked(b) && GrantsValid(b.receipts, b.grants) && v in b.valuations && b.valuations[v].window.Some?
    ensures AllWatermarked(Stored(b, v, o).0)
  {
    var a := Stored(b, v, o).0;
    assert SameGrantedRows(b.receipts, a.receipts);
    forall w | w in b.valuations ensures Watermarked(a, w) {
      assert Watermarked(b, w);
      SumsStable(b.receipts, a.receipts, b.grants, w);
    }
  }

  lemma StoreKeepsSettlements(b: Books, v: ValuationId, o: Observation)
    requires Settlements(b) && v in b.valuations && b.valuations[v].window.Some?
    ensures Settlements(Stored(b, v, o).0)
  {
    var a := Stored(b, v, o).0;
    forall i | 0 <= i < |b.settled| ensures NativeVerified(a, i) {
      VerifiedStays(b, a, i);
    }
  }

  lemma StoreKeepsRows(b: Books, v: ValuationId, o: Observation)
    requires ValuationsValid(b) && ReceiptsValid(b) && GrantsValid(b.receipts, b.grants)
    requires v in b.valuations && b.valuations[v].window.Some?
    ensures var a := Stored(b, v, o).0; ValuationsValid(a) && ReceiptsValid(a) && GrantsValid(a.receipts, a.grants)
  {
  }

  lemma StoreKeepsInv(b: Books, v: ValuationId, o: Observation)
    requires Inv(b) && v in b.valuations && v.XmrId? && b.valuations[v].window.Some?
    ensures Inv(Stored(b, v, o).0)
    ensures var (a, r) := Stored(b, v, o);
            && a.receipts[r].valuation == v && a.receipts[r].key == o.key
            && (Consistent(b, v, o) ==> a.receipts[r].amount == o.amount)
            && (r >= |b.receipts| ==> !Granted(a.grants, r))
  {
    StoreKeepsRows(b, v, o);
    StoreKeepsWatermarks(b, v, o);
    StoreKeepsSettlements(b, v, o);
  }

  /** Saved watermarks always agree with the grant history: `AllocationMismatch` is never set. */
  lemma WatermarksNeverDisagree(b: Books, v: ValuationId)
    requires Inv(b) && v in b.valuations && v.XmrId?
    ensures C.QuotedXmr(b.valuations[v].expected, b.valuations[v].target) == Ok(TermsOf(b.valuations[v]))
    ensures WatermarksAgree(b, v, TermsOf(b.valuations[v]), b.allocations[v])
  {
    assert Watermarked(b, v);
    C.CumulativeIsFloor(TermsOf(b.valuations[v]), C.AssetAmount(C.Xmr, b.allocations[v].eligible));
  }

  /** What the next receipt of `amount` adds to the credit of a valuation. */
  function Increment(b: Books, v: ValuationId, amount: nat): int
    requires v in b.valuations && v in b.allocations && b.valuations[v].expected > 0
  {
    (b.allocations[v].eligible + amount) * b.valuations[v].target / b.valuations[v].expected - b.allocations[v].credited
  }

  /** The receipt fits the storage range, the limit of its intent and the range of the balance. */
  predicate WithinLimits(b: Books, v: ValuationId, amount: nat)
    requires v in b.valuations && v in b.allocations && b.valuations[v].expected > 0
  {
    && b.allocations[v].eligible + amount <= C.MAX_UNITS
    && (b.allocations[v].eligible + amount) * b.valuations[v].target / b.valuations[v].expected
       <= b.valuations[v].maxCredit
    && L.Sum(b.feed.entries) + Increment(b, v, amount) <= C.MAX_UNITS
  }

  lemma ValuedIs(b: Books, v: ValuationId, amount: nat)
    requires Inv(b) && v in b.valuations && v.XmrId?
    ensures Increment(b, v, amount) >= 0
    ensures var val, a := b.valuations[v], b.allocations[v];
            var after := (a.eligible + amount) * val.target / val.expected;
            Valued(TermsOf(val), a, amount, val.maxCredit)
            == if a.eligible + amount <= C.MAX_UNITS && after <= val.maxCredit then
                 Some(C.Update(C.AssetAmount(C.Xmr, a.eligible + amount), after, Increment(b, v, amount)))
               else None
  {
    var val, a := b.valuations[v], b.allocations[v];
    assert Watermarked(b, v);
    C.CumulativeMonotone(TermsOf(val), a.eligible, a.eligible + amount);
    if a.eligible + amount <= C.MAX_UNITS {
      C.AssessFromConsistent(TermsOf(val), a.eligible, a.eligible + amount, a.credited,
                             (a.eligible + amount) * val.target / val.expected);
    }
  }

  /** The books after receipt `r` of `v` is granted `delta`. */
  function WithGrant(b: Books, v: ValuationId, amount: nat, delta: nat, r: nat): Books
    requires v in b.allocations
  {
    var a := b.allocations[v];
    var grown := a.(eligible := a.eligible + amount, credited := a.credited + delta);
    var raised := b.(allocations := b.allocations[v := grown]);
    if delta == 0 then
      raised.(grants := b.grants + [Grant(r, 0, grown.eligible, grown.credited, None, None)])
    else
      var feed := Announced(b.feed, r, delta);
      raised.(
        feed := feed,
        grants := b.grants + [Grant(r, delta, grown.eligible, grown.credited,
                                    Some(|b.feed.entries|), Some(|feed.events|))])
  }

  /** The entry of a grant and its public event. */
  function Announced(t: L.Tables, r: nat, delta: nat): L.Tables { L.Received(t, L.ReceiptKey(r), delta) }

  lemma AnnouncedIs(t: L.Tables, r: nat, delta: nat)
    requires L.Inv(t) && !L.HasKey(t.entries, L.ReceiptKey(r)) && L.Sum(t.entries) + delta <= C.MAX_UNITS
    ensures L.FeedCredit(t.entries) == Ok(L.Sum(t.entries))
    ensures L.Receive(t, L.ReceiptKey(r), delta) == Ok(Announced(t, r, delta))
    ensures L.Inv(Announced(t, r, delta))
  {
    L.ReceiveIs(t, L.ReceiptKey(r), delta);
    L.ReceivedKeepsInv(t, L.ReceiptKey(r), delta);
  }

  lemma NotYetEntered(b: Books, r: nat)
    requires Traced(b) && !Granted(b.grants, r)
    ensures !L.HasKey(b.feed.entries, L.ReceiptKey(r))
  {
  }

  /** `u` is the update of a receipt that raises the watermark by `amount`, if it is within the limit. */
  ghost predicate Offers(b: Books, v: ValuationId, amount: nat, w: Option<C.Update>, fits: bool, delta: nat)
    requires v in b.allocations
  {
    var a := b.allocations[v];
    && (w.Some? ==>
          && w.value.delta == delta && w.value.eligible.units == a.eligible + amount
          && w.value.credit == a.credited + delta)
    && (fits <==> w.Some? && L.Sum(b.feed.entries) + delta <= C.MAX_UNITS)
  }

  lemma WithGrantKeepsTrace(b: Books, v: ValuationId, amount: nat, delta: nat, r: nat)
    requires Traced(b) && v in b.allocations
    ensures Traced(WithGrant(b, v, amount, delta, r))
  {
    var a := WithGrant(b, v, amount, delta, r);
    var g := a.grants[|b.grants|];
    assert a.grants == b.grants + [g];
    if delta == 0 {
      GrantTotalGrows(b.grants, g);
      forall i | 0 <= i < |a.feed.entries| ensures EntryTraced(a.feed.entries[i].key, a.settled, a.grants) {
        EntryStays(b.feed.entries[i].key, b.settled, a.settled, b.grants, a.grants);
      }
    } else {
      assert Granted(a.grants, r);
      TraceExtends(b, a, g, L.Entry(L.ReceiptKey(r), delta));
    }
  }

  lemma WithGrantKeepsLedger(b: Books, v: ValuationId, amount: nat, delta: nat, r: nat)
    requires L.Inv(b.feed) && v in b.allocations && !L.HasKey(b.feed.entries, L.ReceiptKey(r))
    requires L.Sum(b.feed.entries) + delta <= C.MAX_UNITS
    ensures L.Inv(WithGrant(b, v, amount, delta, r).feed)
  {
    if delta != 0 {
      AnnouncedIs(b.feed, r, delta);
    }
  }

  /** The grown watermark is still the floor valuation, within the limit. */
  ghost predicate Grows(b: Books, v: ValuationId, amount: nat, delta: nat)
    requires v in b.valuations && v in b.allocations
  {
    var val, a := b.valuations[v], b.allocations[v];
    && val.expected > 0 && a.eligible + amount <= C.MAX_UNITS && a.credited + delta <= val.maxCredit
    && a.credited + delta == (a.eligible + amount) * val.target / val.expected
  }

  lemma WithGrantKeepsWatermark(b: Books, v: ValuationId, amount: nat, delta: nat, r: nat, w: ValuationId)
    requires AllWatermarked(b) && v in b.valuations && w in b.valuations && Grows(b, v, amount, delta)
    requires r < |b.receipts| && b.receipts[r].valuation == v && b.receipts[r].amount == amount
    ensures Watermarked(WithGrant(b, v, amount, delta, r), w)
  {
    var a := WithGrant(b, v, amount, delta, r);
    var g := a.grants[|b.grants|];
    assert a.grants == b.grants + [g];
    assert Watermarked(b, w);
    SumsAppend(b.receipts, b.grants, g, w);
  }

  lemma WithGrantKeepsWatermarks(b: Books, v: ValuationId, amount: nat, delta: nat, r: nat)
    requires AllWatermarked(b) && v in b.valuations && Grows(b, v, amount, delta)
    requires r < |b.receipts| && b.receipts[r].valuation == v && b.receipts[r].amount == amount
    ensures AllWatermarked(WithGrant(b, v, amount, delta, r))
  {
    var a := WithGrant(b, v, amount, delta, r);
    forall w | w in a.valuations ensures Watermarked(a, w) {
      WithGrantKeepsWatermark(b, v, amount, delta, r, w);
    }
  }

  lemma WithGrantKeepsSettlements(b: Books, v: ValuationId, amount: nat, delta: nat, r: nat)
    requires Settlements(b) && v in b.allocations && v.XmrId?
    ensures Settlements(WithGrant(b, v, amount, delta, r))
  {
    var a := WithGrant(b, v, amount, delta, r);
    forall i | 0 <= i < |b.settled| ensures NativeVerified(a, i) {
      VerifiedStays(b, a, i);
    }
  }

  lemma WithGrantKeepsRows(b: Books, v: ValuationId, amount: nat, delta: nat, r: nat)
    requires ValuationsValid(b) && ReceiptsValid(b) && GrantsValid(b.receipts, b.grants)
    requires v in b.allocations && !Granted(b.grants, r) && r < |b.receipts|
    ensures var a := WithGrant(b, v, amount, delta, r);
            ValuationsValid(a) && ReceiptsValid(a) && GrantsValid(a.receipts, a.grants)
  {
    var a := WithGrant(b, v, amount, delta, r);
    assert a.grants == b.grants + [a.grants[|b.grants|]];
  }

  lemma WithGrantKeepsInv(b: Books, v: ValuationId, amount: nat, delta: nat, r: nat)
    requires Inv(b) && v in b.valuations && v.XmrId? && !Granted(b.grants, r)
    requires Grows(b, v, amount, delta) && L.Sum(b.feed.entries) + delta <= C.MAX_UNITS
    requires r < |b.receipts| && b.receipts[r].valuation == v && b.receipts[r].amount == amount
    ensures Inv(WithGrant(b, v, amount, delta, r))
  {
    NotYetEntered(b, r);
    WithGrantKeepsLedger(b, v, amount, delta, r);
    WithGrantKeepsTrace(b, v, amount, delta, r);
    WithGrantKeepsRows(b, v, amount, delta, r);
    WithGrantKeepsWatermarks(b, v, amount, delta, r);
    WithGrantKeepsSettlements(b, v, amount, delta, r);
  }

  /**
   What `record_xmr_receipt` does in a reachable state, without its unreachable branches: a receipt
   not granted before is granted `delta` if it fits every limit and held if not.
   */
  function Outcome(b: Books, v: ValuationId, o: Observation, fits: bool, delta: nat): (Books, ReceiptOutcome)
    requires v in b.valuations && v in b.allocations && b.valuations[v].window.Some? && L.Sum(b.feed.entries) >= 0
  {
    var (stored, r) := Stored(b, v, o);
    if o.doubleSpend then (HoldObservation(stored, v, o, DoubleSpend), Held)
    else if b.allocations[v].hold.Some? || !Timely(b.valuations[v].window.value, o) then (stored, Held)
    else if !o.unlocked then (stored, Pending)
    else if Granted(b.grants, r) then (stored, Duplicate)
    else if !fits then (HoldObservation(stored, v, o, CreditLimit), Held)
    else (WithGrant(stored, v, o.amount, delta, r), Recorded(delta, L.Sum(b.feed.entries) + delta))
  }

  lemma GrantFits(b: Books, v: ValuationId, o: Observation, t: C.Terms, limit: nat, r: nat, u: C.Update)
    requires v in b.allocations && C.Agreed(t) && Valued(t, b.allocations[v], o.amount, limit) == Some(u)
    requires u.eligible.units == b.allocations[v].eligible + o.amount && u.credit == b.allocations[v].credited + u.delta
    requires L.FeedCredit(b.feed.entries) == Ok(L.Sum(b.feed.entries)) && L.Sum(b.feed.entries) + u.delta <= C.MAX_UNITS
    requires L.Receive(b.feed, L.ReceiptKey(r), u.delta) == Ok(Announced(b.feed, r, u.delta))
    ensures GrantReceipt(b, v, o, t, limit, r)
            == (WithGrant(b, v, o.amount, u.delta, r), Ok(Recorded(u.delta, L.Sum(b.feed.entries) + u.delta)))
  {
  }

  lemma GrantHeld(b: Books, v: ValuationId, o: Observation, t: C.Terms, limit: nat, r: nat)
    requires v in b.allocations && C.Agreed(t) && L.FeedCredit(b.feed.entries) == Ok(L.Sum(b.feed.entries))
    requires var w := Valued(t, b.allocations[v], o.amount, limit);
             w.None? || L.Sum(b.feed.entries) + w.value.delta > C.MAX_UNITS
    ensures GrantReceipt(b, v, o, t, limit, r) == (HoldObservation(b, v, o, CreditLimit), Ok(Held))
  {
  }

  lemma GrantEither(b: Books, v: ValuationId, o: Observation, t: C.Terms, limit: nat, r: nat, fits: bool, delta: nat)
    requires v in b.allocations && C.Agreed(t) && L.Inv(b.feed) && !L.HasKey(b.feed.entries, L.ReceiptKey(r))
    requires Offers(b, v, o.amount, Valued(t, b.allocations[v], o.amount, limit), fits, delta)
    ensures GrantReceipt(b, v, o, t, limit, r)
            == if fits then
                 (WithGrant(b, v, o.amount, delta, r), Ok(Recorded(delta, L.Sum(b.feed.entries) + delta)))
               else (HoldObservation(b, v, o, CreditLimit), Ok(Held))
  {
    if fits {
      AnnouncedIs(b.feed, r, delta);
      GrantFits(b, v, o, t, limit, r, Valued(t, b.allocations[v], o.amount, limit).value);
    } else {
      GrantHeld(b, v, o, t, limit, r);
    }
  }

  lemma OutcomeIs(b: Books, v: ValuationId, o: Observation, t: C.Terms, fits: bool, delta: nat)
    requires v in b.valuations && v in b.allocations && b.valuations[v].window.Some? && L.Inv(b.feed) && Traced(b)
    requires C.Agreed(t) && C.QuotedXmr(b.valuations[v].expected, b.valuations[v].target) == Ok(t)
    requires WatermarksAgree(Stored(b, v, o).0, v, t, b.allocations[v])
    requires Offers(b, v, o.amount, Valued(t, b.allocations[v], o.amount, b.valuations[v].maxCredit), fits, delta)
    ensures var (a, outcome) := Outcome(b, v, o, fits, delta); StoreAndGrant(b, v, o) == (a, Ok(outcome))
  {
    var (stored, r) := Stored(b, v, o);
    if !Granted(b.grants, r) {
      NotYetEntered(b, r);
      GrantEither(stored, v, o, t, b.valuations[v].maxCredit, r, fits, delta);
    }
  }

  lemma OffersIs(b: Books, v: ValuationId, amount: nat)
    requires Inv(b) && v in b.valuations && v.XmrId?
    ensures Increment(b, v, amount) >= 0
    ensures Offers(b, v, amount, Valued(TermsOf(b.valuations[v]), b.allocations[v], amount, b.valuations[v].maxCredit),
                   WithinLimits(b, v, amount), Increment(b, v, amount))
    ensures WithinLimits(b, v, amount) ==> Grows(b, v, amount, Increment(b, v, amount))
  {
    ValuedIs(b, v, amount);
  }

  /**
   An observation that reaches the store never fails and never meets disagreeing watermarks: a
   contradiction is held, everything else has the outcome above.
   */
  lemma ReceiptResult(b: Books, v: ValuationId, o: Observation)
    requires Inv(b) && v in b.valuations && v.XmrId?
    ensures Increment(b, v, o.amount) >= 0
    ensures var (a, outcome) := Outcome(b, v, o, WithinLimits(b, v, o.amount), Increment(b, v, o.amount));
            StoreAndGrant(b, v, o) == (a, Ok(outcome))
  {
    var fits, t := WithinLimits(b, v, o.amount), TermsOf(b.valuations[v]);
    StoreKeepsInv(b, v, o);
    WatermarksNeverDisagree(Stored(b, v, o).0, v);
    OffersIs(b, v, o.amount);
    OutcomeIs(b, v, o, t, fits, Increment(b, v, o.amount));
  }

  lemma {:induction false} ReceiptKeepsInv(b: Books, intent: Uuid, o: Observation)
    requires Inv(b)
    ensures Inv(RecordReceipt(b, intent, o).0)
  {
    var v := XmrId(intent);
    if o.formatted && 0 < o.amount <= C.MAX_UNITS && v in b.valuations && o.binding == b.valuations[v].binding {
      if Consistent(b, v, o) {
        ReceiptResult(b, v, o);
        OffersIs(b, v, o.amount);
        OutcomeKeepsInv(b, v, o, WithinLimits(b, v, o.amount), Increment(b, v, o.amount));
      } else {
        ObservationHoldKeepsInv(b, v, o, Contradiction(b.receipts[FindReceipt(b.receipts, v, o.key).value], o).value);
      }
    }
  }

  lemma ObservationHoldKeepsInv(b: Books, v: ValuationId, o: Observation, reason: Hold)
    requires Inv(b) && v in b.allocations && v.XmrId?
    ensures Inv(HoldObservation(b, v, o, reason))
  {
    HoldKeepsInv(b, v, reason, b.conflicts + {Conflict(v, o.key, o.amount, o.firstSeen, o.unlocked, reason)});
  }

  lemma OutcomeKeepsInv(b: Books, v: ValuationId, o: Observation, fits: bool, delta: nat)
    requires Inv(b) && v in b.valuations && v.XmrId? && Consistent(b, v, o)
    requires fits ==> Grows(b, v, o.amount, delta) && L.Sum(b.feed.entries) + delta <= C.MAX_UNITS
    ensures Inv(Outcome(b, v, o, fits, delta).0)
  {
    var (stored, r) := Stored(b, v, o);
    StoreKeepsInv(b, v, o);
    if o.doubleSpend {
      ObservationHoldKeepsInv(stored, v, o, DoubleSpend);
    } else if b.allocations[v].hold.None? && Timely(b.valuations[v].window.value, o) && o.unlocked
              && !Granted(b.grants, r) {
      if fits {
        GrowsStored(b, stored, v, o.amount, delta);
        WithGrantKeepsInv(stored, v, o.amount, delta, r);
      } else {
        ObservationHoldKeepsInv(stored, v, o, CreditLimit);
      }
    }
  }

  lemma GrowsStored(b: Books, stored: Books, v: ValuationId, amount: nat, delta: nat)
    requires stored.valuations == b.valuations && stored.allocations == b.allocations
    requires v in b.valuations && v in b.allocations && Grows(b, v, amount, delta)
    ensures Grows(stored, v, amount, delta)
  {
  }
}
