/**
 Webhooks, recovery pages, retries and crashes all lead to one credit per completed receive
 (src/strike.rs `recovery_step`, `reconcile_and_credit`).

 `Provider` is what the provider's records reconcile each receive to: `reconcile_completed_receive`
 fails or yields that payment. Receive ids have distinct texts.
 */
module StrikeCredit {
  import opened Wrappers
  import I = StrikeInbox
  import B = CreditLedger
  import opened CreditInvariants
  import R = CreditRuns
  import L = FeedLedger

  const SOURCE: string := "strike"

  type Provider = map<Uuid, B.Payment>

  ghost predicate ProviderValid(provider: Provider) {
    && (forall r | r in provider :: provider[r].source == SOURCE)
    && (forall r, s | r in provider && s in provider && r != s :: provider[r].sourceId != provider[s].sourceId)
  }

  /** `credited` is history: the receives for which `reconcile_and_credit` returned success. */
  datatype World = World(inbox: seq<I.Work>, books: B.Books, credited: set<Uuid>)

  const EMPTY: World := World([], B.EMPTY, {})

  datatype Op =
    | Notify(now: int, key: I.WorkKey, request: Uuid, receive: Uuid)
    | Recover(now: int, later: int, reconciled: bool, crashed: bool)
    | Other(op: R.Op)

  /** Only the recovery worker records payments of this source. */
  predicate Legal(op: Op) {
    op.Other? ==> R.Legal(op.op) && !(op.op.Pay? && op.op.payment.source == SOURCE)
  }

  /** `reconcile_and_credit`: the new books and whether it succeeded. */
  function ReconcileAndCredit(b: B.Books, provider: Provider, receive: Uuid, reconciled: bool): (B.Books, bool) {
    if reconciled && receive in provider then
      var (after, r) := B.RecordPayment(b, provider[receive]);
      (after, r.Ok?)
    else (b, false)
  }

  /** A crash may fall between the credit and the inbox update. */
  function Apply(w: World, provider: Provider, op: Op): World {
    match op
    case Notify(now, key, request, receive) => w.(inbox := I.Enqueue(w.inbox, now, key, request, receive).0)
    case Other(other) => w.(books := R.Apply(w.books, other))
    case Recover(now, later, reconciled, crashed) =>
      match I.DueWork(w.inbox, now)
      case None => w
      case Some(i) =>
        var receive := w.inbox[i].receive;
        var (books, success) := ReconcileAndCredit(w.books, provider, receive, reconciled);
        World(if crashed then w.inbox else I.Drained(w.inbox, now, later, success),
              books,
              if success then w.credited + {receive} else w.credited)
  }

  function Run(provider: Provider, ops: seq<Op>): World {
    if ops == [] then EMPTY else Apply(Run(provider, ops[..|ops| - 1]), provider, ops[|ops| - 1])
  }

  /** Credit of this source in the ledger. */
  function StrikeTotal(entries: seq<L.Entry>): int {
    if entries == [] then 0
    else
      var last := entries[|entries| - 1];
      StrikeTotal(entries[..|entries| - 1])
      + if last.key.PaymentKey? && last.key.source == SOURCE then last.delta else 0
  }

  ghost function Worth(provider: Provider, receives: set<Uuid>): int
    requires receives <= provider.Keys
  {
    if receives == {} then 0
    else
      var r :| r in receives;
      provider[r].amountMsat / 1000 + Worth(provider, receives - {r})
  }

  lemma {:induction false} WorthAdds(provider: Provider, receives: set<Uuid>, r: Uuid)
    requires receives <= provider.Keys && r in provider && r !in receives
    ensures Worth(provider, receives + {r}) == Worth(provider, receives) + provider[r].amountMsat / 1000
  {
    var all := receives + {r};
    var c :| c in all && Worth(provider, all) == provider[c].amountMsat / 1000 + Worth(provider, all - {c});
    if c == r {
      assert all - {r} == receives;
    } else {
      var rest := receives - {c};
      assert all - {c} == rest + {r};
      WorthAdds(provider, rest, r);
      assert rest + {c} == receives;
      WorthAdds(provider, rest, c);
    }
  }

  ghost predicate CreditedRow(provider: Provider, credited: set<Uuid>, p: B.Payment) {
    exists r :: r in credited && r in provider && provider[r] == p
  }

  /** The credited receives are exactly the settlements of this source, and the done work is credited. */
  ghost predicate Converged(w: World, provider: Provider) {
    && w.credited <= provider.Keys
    && StrikeTotal(w.books.feed.entries) == Worth(provider, w.credited)
    && (forall i | 0 <= i < |w.books.settled| && w.books.settled[i].source == SOURCE ::
          CreditedRow(provider, w.credited, w.books.settled[i]))
    && (forall r | r in w.credited :: B.FindSettled(w.books.settled, SOURCE, provider[r].sourceId).Some?)
    && (forall i | 0 <= i < |w.inbox| && w.inbox[i].status == I.Done :: w.inbox[i].receive in w.credited)
  }

  ghost predicate Inv(w: World, provider: Provider) {
    && CreditInvariants.Inv(w.books) && I.Keyed(w.inbox) && Converged(w, provider)
  }

  lemma {:induction false} TotalExtends(entries: seq<L.Entry>, more: seq<L.Entry>)
    requires entries <= more
    requires forall i | |entries| <= i < |more| :: !(more[i].key.PaymentKey? && more[i].key.source == SOURCE)
    ensures StrikeTotal(more) == StrikeTotal(entries)
  {
    if |more| > |entries| {
      TotalExtends(entries, more[..|more| - 1]);
    } else {
      assert more == entries;
    }
  }

  /** Transactions of other sources leave the settlements and the credit of this source alone. */
  ghost predicate SameStrike(b: B.Books, a: B.Books) {
    && b.settled <= a.settled
    && (forall i | |b.settled| <= i < |a.settled| :: a.settled[i].source != SOURCE)
    && StrikeTotal(a.feed.entries) == StrikeTotal(b.feed.entries)
  }

  lemma PaySameStrike(b: B.Books, p: B.Payment)
    requires p.source != SOURCE
    ensures SameStrike(b, B.RecordPayment(b, p).0)
  {
    TotalExtends(b.feed.entries, B.RecordPayment(b, p).0.feed.entries);
  }

  lemma FeedSameStrike(b: B.Books, s: L.Step)
    requires FeedOnly(s)
    ensures SameStrike(b, b.(feed := L.Apply(b.feed, s)))
  {
    FeedEntries(b.feed, s);
    TotalExtends(b.feed.entries, L.Apply(b.feed, s).entries);
  }

  lemma OthersSameStrike(b: B.Books, op: R.Op)
    requires CreditInvariants.Inv(b) && Legal(Other(op))
    ensures SameStrike(b, R.Apply(b, op))
  {
    match op
    case Pay(p) => PaySameStrike(b, p);
    case Register(n) =>
    case Suspend(id) =>
    case Observe(id, o) => ObserveSameStrike(b, id, o);
    case Feed(s) => FeedSameStrike(b, s);
  }

  lemma OutcomeSameStrike(b: B.Books, v: B.ValuationId, o: B.Observation, fits: bool, delta: nat)
    requires v in b.valuations && v in b.allocations && b.valuations[v].window.Some? && L.Sum(b.feed.entries) >= 0
    ensures SameStrike(b, Outcome(b, v, o, fits, delta).0)
  {
    TotalExtends(b.feed.entries, Outcome(b, v, o, fits, delta).0.feed.entries);
  }

  lemma ObserveSameStrike(b: B.Books, id: Uuid, o: B.Observation)
    requires CreditInvariants.Inv(b)
    ensures SameStrike(b, B.RecordReceipt(b, id, o).0)
  {
    var v := B.XmrId(id);
    if v in b.valuations && Consistent(b, v, o) {
      ReceiptResult(b, v, o);
      OutcomeSameStrike(b, v, o, WithinLimits(b, v, o.amount), Increment(b, v, o.amount));
    }
  }

  lemma SettledStays(b: B.Books, a: B.Books, source: string, sourceId: string)
    requires b.settled <= a.settled && B.FindSettled(b.settled, source, sourceId).Some?
    ensures B.FindSettled(a.settled, source, sourceId).Some?
  {
    var i := B.FindSettled(b.settled, source, sourceId).value;
    assert a.settled[i] == b.settled[i];
  }

  lemma SameStrikeConverged(w: World, provider: Provider, a: B.Books)
    requires Converged(w, provider) && SameStrike(w.books, a)
    ensures Converged(w.(books := a), provider)
  {
    forall r | r in w.credited ensures B.FindSettled(a.settled, SOURCE, provider[r].sourceId).Some? {
      SettledStays(w.books, a, SOURCE, provider[r].sourceId);
    }
  }

  /** A replayed receive was credited before, so nothing changes. */
  lemma ReplayConverges(w: World, provider: Provider, receive: Uuid)
    requires Converged(w, provider) && ProviderValid(provider) && receive in provider
    requires B.FindSettled(w.books.settled, SOURCE, provider[receive].sourceId).Some?
    ensures receive in w.credited
  {
    var known := B.FindSettled(w.books.settled, SOURCE, provider[receive].sourceId).value;
    assert CreditedRow(provider, w.credited, w.books.settled[known]);
  }

  /** The rows of one new settlement of this source. */
  ghost predicate Credited(b: B.Books, a: B.Books, p: B.Payment) {
    && a.settled == b.settled + [p]
    && a.feed.entries == b.feed.entries + [L.Entry(L.PaymentKey(p.source, p.sourceId), p.amountMsat / 1000)]
  }

  lemma CreditedTotal(b: B.Books, a: B.Books, p: B.Payment)
    requires Credited(b, a, p) && p.source == SOURCE
    ensures StrikeTotal(a.feed.entries) == StrikeTotal(b.feed.entries) + p.amountMsat / 1000
  {
    assert a.feed.entries[..|b.feed.entries|] == b.feed.entries;
  }

  lemma CreditedSettlements(w: World, provider: Provider, receive: Uuid, a: B.Books)
    requires Converged(w, provider) && ProviderValid(provider) && receive in provider
    requires Credited(w.books, a, provider[receive])
    ensures var credited := w.credited + {receive};
            && (forall i | 0 <= i < |a.settled| && a.settled[i].source == SOURCE ::
                  CreditedRow(provider, credited, a.settled[i]))
            && (forall r | r in credited :: B.FindSettled(a.settled, SOURCE, provider[r].sourceId).Some?)
  {
    var credited := w.credited + {receive};
    assert a.settled[|w.books.settled|] == provider[receive];
    forall r | r in credited ensures B.FindSettled(a.settled, SOURCE, provider[r].sourceId).Some? {
      if r in w.credited {
        SettledStays(w.books, a, SOURCE, provider[r].sourceId);
      }
    }
    forall i | 0 <= i < |a.settled| && a.settled[i].source == SOURCE
      ensures CreditedRow(provider, credited, a.settled[i])
    {
      if i < |w.books.settled| {
        assert CreditedRow(provider, w.credited, w.books.settled[i]);
      }
    }
  }

  lemma FirstCreditConverges(w: World, provider: Provider, receive: Uuid, a: B.Books)
    requires Converged(w, provider) && ProviderValid(provider) && receive in provider
    requires B.FindSettled(w.books.settled, SOURCE, provider[receive].sourceId).None?
    requires Credited(w.books, a, provider[receive])
    ensures Converged(w.(books := a, credited := w.credited + {receive}), provider)
  {
    assert receive !in w.credited;
    WorthAdds(provider, w.credited, receive);
    CreditedTotal(w.books, a, provider[receive]);
    CreditedSettlements(w, provider, receive, a);
  }

  lemma RecordedIsCredited(b: B.Books, p: B.Payment)
    requires B.RecordPayment(b, p).1.Ok?
    ensures if B.FindSettled(b.settled, p.source, p.sourceId).Some? then B.RecordPayment(b, p).0 == b
            else Credited(b, B.RecordPayment(b, p).0, p)
  {
  }

  /** A reconciled receive that is recorded is credited once: the first time. */
  lemma CreditConverges(w: World, provider: Provider, receive: Uuid)
    requires Converged(w, provider) && ProviderValid(provider) && receive in provider
    requires B.RecordPayment(w.books, provider[receive]).1.Ok?
    ensures Converged(w.(books := B.RecordPayment(w.books, provider[receive]).0, credited := w.credited + {receive}),
                      provider)
  {
    RecordedIsCredited(w.books, provider[receive]);
    if B.FindSettled(w.books.settled, SOURCE, provider[receive].sourceId).Some? {
      ReplayConverges(w, provider, receive);
      assert w.credited + {receive} == w.credited;
    } else {
      FirstCreditConverges(w, provider, receive, B.RecordPayment(w.books, provider[receive]).0);
    }
  }

  /** The inbox after one row was worked. */
  lemma DrainKeepsDone(inbox: seq<I.Work>, now: int, later: int, success: bool, credited: set<Uuid>)
    requires I.Keyed(inbox) && I.DueWork(inbox, now).Some?
    requires forall i | 0 <= i < |inbox| && inbox[i].status == I.Done :: inbox[i].receive in credited
    requires success ==> inbox[I.DueWork(inbox, now).value].receive in credited
    ensures var after := I.Drained(inbox, now, later, success);
            I.Keyed(after)
            && forall i | 0 <= i < |after| && after[i].status == I.Done :: after[i].receive in credited
  {
    I.FoundAt(inbox, I.DueWork(inbox, now).value);
  }

  lemma WorkKeepsBooks(w: World, provider: Provider, receive: Uuid, reconciled: bool)
    requires Inv(w, provider) && ProviderValid(provider)
    ensures var (books, success) := ReconcileAndCredit(w.books, provider, receive, reconciled);
            var credited := if success then w.credited + {receive} else w.credited;
            CreditInvariants.Inv(books) && Converged(w.(books := books, credited := credited), provider)
  {
    if reconciled && receive in provider {
      SettleKeepsInv(w.books, provider[receive]);
      if B.RecordPayment(w.books, provider[receive]).1.Ok? {
        CreditConverges(w, provider, receive);
      }
    }
  }

  lemma RecoverKeepsInv(w: World, provider: Provider, op: Op)
    requires Inv(w, provider) && ProviderValid(provider) && op.Recover?
    ensures Inv(Apply(w, provider, op), provider)
  {
    var due := I.DueWork(w.inbox, op.now);
    if due.Some? {
      var receive := w.inbox[due.value].receive;
      var (books, success) := ReconcileAndCredit(w.books, provider, receive, op.reconciled);
      var credited := if success then w.credited + {receive} else w.credited;
      WorkKeepsBooks(w, provider, receive, op.reconciled);
      DrainKeepsDone(w.inbox, op.now, op.later, success, credited);
    }
  }

  lemma ApplyKeepsInv(w: World, provider: Provider, op: Op)
    requires Inv(w, provider) && ProviderValid(provider) && Legal(op)
    ensures Inv(Apply(w, provider, op), provider)
  {
    match op
    case Notify(now, key, request, receive) =>
    case Recover(_, _, _, _) => RecoverKeepsInv(w, provider, op);
    case Other(other) =>
      R.ApplyKeepsInv(w.books, other);
      OthersSameStrike(w.books, other);
      SameStrikeConverged(w, provider, R.Apply(w.books, other));
  }

  lemma {:induction false} RunKeepsInv(provider: Provider, ops: seq<Op>)
    requires ProviderValid(provider) && forall op | op in ops :: Legal(op)
    ensures Inv(Run(provider, ops), provider)
  {
    if ops == [] {
      R.EmptyInv();
    } else {
      RunKeepsInv(provider, ops[..|ops| - 1]);
      ApplyKeepsInv(Run(provider, ops[..|ops| - 1]), provider, ops[|ops| - 1]);
    }
  }

  /**
   Over every run of duplicate webhooks, recovery pages, retries and crashes, the credit of this
   source is the sum over the distinct receives that were reconciled, each with one ledger entry, and
   a finished row stands for a credited receive.
   */
  lemma {:induction false} EachReceiveIsCreditedOnce(provider: Provider, ops: seq<Op>)
    requires ProviderValid(provider) && forall op | op in ops :: Legal(op)
    ensures var w := Run(provider, ops);
            && w.credited <= provider.Keys
            && StrikeTotal(w.books.feed.entries) == Worth(provider, w.credited)
            && (forall i, j | 0 <= i < j < |w.books.feed.entries| ::
                  w.books.feed.entries[i].key != w.books.feed.entries[j].key)
            && (forall r | r in w.credited :: B.FindSettled(w.books.settled, SOURCE, provider[r].sourceId).Some?)
            && (forall i | 0 <= i < |w.inbox| && w.inbox[i].status == I.Done :: w.inbox[i].receive in w.credited)
  {
    RunKeepsInv(provider, ops);
  }

  /**
   Working a row whose receive reconciles to an acceptable payment credits it, unless its hash already
   settled another payment or the ledger is full.
   */
  lemma {:induction false} ReconciledWorkIsCredited(provider: Provider, ops: seq<Op>, op: Op, i: nat)
    requires ProviderValid(provider) && forall o | o in ops :: Legal(o)
    requires op.Recover? && op.reconciled && I.DueWork(Run(provider, ops).inbox, op.now) == Some(i)
    requires var w := Run(provider, ops);
             && w.inbox[i].receive in provider && B.PaymentAcceptable(provider[w.inbox[i].receive])
             && (w.inbox[i].receive !in w.credited ==>
                   && !B.HashTaken(w.books.settled, provider[w.inbox[i].receive].hash)
                   && L.Sum(w.books.feed.entries) + provider[w.inbox[i].receive].amountMsat / 1000 <= I64_MAX)
    ensures var w, after := Run(provider, ops), Run(provider, ops + [op]);
            && w.inbox[i].receive in after.credited
            && (!op.crashed ==> i < |after.inbox| && after.inbox[i].status == I.Done)
  {
    var w := Run(provider, ops);
    var receive := w.inbox[i].receive;
    RunKeepsInv(provider, ops);
    assert (ops + [op])[..|ops|] == ops;
    R.PaymentOutcome(w.books, provider[receive]);
    I.FoundAt(w.inbox, i);
    var known := B.FindSettled(w.books.settled, SOURCE, provider[receive].sourceId);
    if known.Some? {
      assert CreditedRow(provider, w.credited, w.books.settled[known.value]);
    }
  }

  /**
   One recovery step works the row `i` that is due: the payment its receive reconciles to is offered to the
   books, and nothing else is. The row is done if and only if that succeeded and no crash came in between;
   without success it is postponed, and a crash leaves every row as it was.
   */
  lemma RecoveryIsExact(w: World, provider: Provider, op: Op, i: nat)
    requires I.Keyed(w.inbox) && op.Recover? && I.DueWork(w.inbox, op.now) == Some(i)
    ensures var receive, after := w.inbox[i].receive, Apply(w, provider, op);
            var offered := op.reconciled && receive in provider;
            var success := offered && B.RecordPayment(w.books, provider[receive]).1.Ok?;
            && after.books == (if offered then B.RecordPayment(w.books, provider[receive]).0 else w.books)
            && after.credited == (if success then w.credited + {receive} else w.credited)
            && |after.inbox| == |w.inbox| && (forall j | 0 <= j < |w.inbox| && j != i :: after.inbox[j] == w.inbox[j])
            && (op.crashed ==> after.inbox == w.inbox)
            && (!op.crashed && success ==> after.inbox[i] == w.inbox[i].(status := I.Done))
            && (!op.crashed && !success ==> after.inbox[i].status != I.Done && after.inbox[i].nextAttempt > op.later)
  {
    I.FoundAt(w.inbox, i);
    I.DelayBounds(w.inbox[i].attempts);
  }
}
