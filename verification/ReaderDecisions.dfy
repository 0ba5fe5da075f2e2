/**
 What the recovery reader accepts and answers, said of the decoded texts, rows and times themselves.
 */
module ReaderDecisions {
  import opened Wrappers
  import opened FeederOwner
  import opened OwnerReader

  /** From the year 2000 until half a minute ahead of the clock. */
  predicate Plausible(at: int, now: int) { 946_684_800_000 <= at && at <= now + 30_000 }

  /**
   A ledger is accepted if and only if it has at most 32 distinct receipts, each either accepted and not
   updated, or complete and updated no earlier than admitted, with plausible times.
   */
  lemma ParsedIsExact(ledger: Ledger, now: int)
    ensures LedgerParses(ledger, now) <==>
              && |ledger| <= 32
              && (forall i, j | 0 <= i < j < |ledger| :: ledger[i].id != ledger[j].id)
              && forall i | 0 <= i < |ledger| ::
                   && Plausible(ledger[i].at, now)
                   && ((ledger[i].status == Accepted && ledger[i].updatedAt == None)
                       || (ledger[i].status == Complete && ledger[i].updatedAt.Some?
                           && Plausible(ledger[i].updatedAt.value, now) && ledger[i].at <= ledger[i].updatedAt.value))
  {
    if LedgerParses(ledger, now) {
      forall i | 0 <= i < |ledger| ensures EntryParses(ledger[i], now) {
      }
    }
  }

  /** A notification says nothing about another request, and about its own never more than it can know. */
  lemma NotificationIsExact(noted: Uuid, at: int, notice: Notice, id: Uuid, now: int)
    ensures ParseResult(ResultEmpty, id, now) == Ok(OutcomeAbsent)
    ensures ParseResult(ResultMalformed, id, now) == Err
    ensures var r := ParseResult(ResultNote(noted, at, notice), id, now);
            && (!Plausible(at, now) ==> r == Err)
            && (Plausible(at, now) && noted != id ==> r == Ok(OutcomeAbsent))
            && (Plausible(at, now) && noted == id ==>
                  && (notice in {NoticeAccepted, NoticeRunning} ==> r == Ok(OutcomePending))
                  && (notice in {NoticeComplete, NoticeFailed} ==> r == Ok(OutcomeAmbiguous))
                  && (notice == NoticeDenied ==> r == Ok(OutcomeRejected))
                  && (notice == NoticeUnknown ==> r == Err))
  {
  }

  /** The receipt comes before the notification: only a missing one lets the notification speak. */
  lemma LocatedIsExact(item: Option<Ledger>, note: ResultItem, pages: seq<Page>, id: Uuid, now: int)
    ensures var r := ResultV2(item, note, pages, id, now);
            && (item.None? || !LedgerParses(item.value, now) ==> r == Err)
            && (item.Some? && LedgerParses(item.value, now) ==>
                  && ((forall i | 0 <= i < |item.value| :: item.value[i].id != id) ==> r == ParseResult(note, id, now))
                  && (forall i | 0 <= i < |item.value| && item.value[i].id == id ::
                        r == if item.value[i].status == Accepted then Ok(OutcomePending)
                             else PagedOutcome(pages, item.value[i], now)))
  {
    if item.Some? && LedgerParses(item.value, now) {
      forall i | 0 <= i < |item.value| && item.value[i].id == id
        ensures Receipt(item.value, id) == Some(item.value[i])
      {
        ReceiptIsRow(item.value, i);
      }
    }
  }

  lemma {:induction false} ReceiptIsRow(ledger: Ledger, i: nat)
    requires i < |ledger| && UniqueIds(ledger)
    ensures Receipt(ledger, ledger[i].id) == Some(ledger[i])
  {
    if i > 0 {
      assert ledger[1..][i - 1] == ledger[i];
      forall a, b | 0 <= a < b < |ledger[1..]| ensures ledger[1..][a].id != ledger[1..][b].id {
        assert ledger[1..][a] == ledger[a + 1] && ledger[1..][b] == ledger[b + 1];
      }
      ReceiptIsRow(ledger[1..], i - 1);
      assert ledger[0].id != ledger[i].id;
    }
  }

  // --- Paged history ---------------------------------------------------------------------

  /** A page that was fetched, is about the item, and holds as many rows as it says, at most eight. */
  predicate Sane(page: Page) {
    page.Page? && page.named && |page.rows| <= 8 && page.datapoints == Some(|page.rows|)
  }

  /** Page `k` is the first that is not full; there are at most eight. */
  predicate LastPage(pages: seq<Page>, k: nat) {
    && k < 8 && k < |pages| && (forall i | 0 <= i <= k :: Sane(pages[i]))
    && (forall i | 0 <= i < k :: |pages[i].rows| == 8) && |pages[k].rows| < 8
  }

  lemma {:induction false} EndIsExact(pages: seq<Page>, n: nat, k: nat)
    requires n <= 8 && (forall i | 0 <= i < n :: i < |pages| && Sane(pages[i]) && |pages[i].rows| == 8)
    ensures LastPage(pages, k) ==> EndFrom(pages, n) == Some(k)
    ensures EndFrom(pages, n).Some? ==> LastPage(pages, EndFrom(pages, n).value)
    decreases 8 - n
  {
    if n < 8 && n < |pages| && Sane(pages[n]) && |pages[n].rows| == 8 {
      EndIsExact(pages, n + 1, k);
    }
  }

  /** A row within ten seconds of the completion that decodes and does not contradict the receipt. */
  predicate Consistent(row: Row, e: Entry, now: int)
    requires e.updatedAt.Some?
  {
    && e.updatedAt.value - 10_000 <= row.time <= e.updatedAt.value + 10_000 && row.time <= now + 30_000
    && row.state.Some? && LedgerParses(row.state.value, now)
    && forall i | 0 <= i < |row.state.value| && row.state.value[i].id == e.id ::
         && row.state.value[i].at == e.at
         && (row.state.value[i].status == Complete ==> row.state.value[i] == e && e.updatedAt.value <= row.time)
  }

  /** The row shows the receipt complete. */
  predicate Shows(row: Row, id: Uuid) {
    row.state.Some? && exists i | 0 <= i < |row.state.value| ::
      row.state.value[i].id == id && row.state.value[i].status == Complete
  }

  lemma RowIsExact(row: Row, e: Entry, now: int)
    requires e.updatedAt.Some?
    ensures RowAgrees(row, e, now) <==> Consistent(row, e, now)
    ensures row.state.Some? && LedgerParses(row.state.value, now) ==> (RowCompletes(row, e.id) <==> Shows(row, e.id))
  {
    if row.state.Some? && LedgerParses(row.state.value, now) {
      var ledger := row.state.value;
      forall i | 0 <= i < |ledger| && ledger[i].id == e.id ensures Receipt(ledger, e.id) == Some(ledger[i]) {
        ReceiptIsRow(ledger, i);
      }
    }
  }

  /** Every row is consistent, times never fall, and a completion once shown stays. */
  predicate Orderly(rows: seq<Row>, e: Entry, now: int)
    requires e.updatedAt.Some?
  {
    && (forall i | 0 <= i < |rows| :: Consistent(rows[i], e, now))
    && (forall i, j | 0 <= i < j < |rows| :: rows[i].time <= rows[j].time)
    && (forall i, j | 0 <= i < j < |rows| && Shows(rows[i], e.id) :: Shows(rows[j], e.id))
  }

  lemma CleanIsOrderly(rows: seq<Row>, e: Entry, now: int)
    requires e.updatedAt.Some?
    ensures Clean(rows, e, now) <==> Orderly(rows, e, now)
    ensures Clean(rows, e, now) ==> (AnyCompletes(rows, e.id) <==> exists i | 0 <= i < |rows| :: Shows(rows[i], e.id))
  {
    forall i | 0 <= i < |rows| ensures RowAgrees(rows[i], e, now) <==> Consistent(rows[i], e, now) {
      RowIsExact(rows[i], e, now);
    }
    forall i | 0 <= i < |rows| && Consistent(rows[i], e, now)
      ensures RowCompletes(rows[i], e.id) <==> Shows(rows[i], e.id)
    {
      RowIsExact(rows[i], e, now);
    }
  }

  /** The history is read up to its first short page, and answers Complete exactly if an orderly row shows it. */
  lemma PagedIsExact(pages: seq<Page>, e: Entry, now: int, k: nat)
    requires e.updatedAt.Some?
    ensures (forall n: nat :: !LastPage(pages, n)) ==> PagedOutcome(pages, e, now) == Err
    ensures LastPage(pages, k) ==>
              var rows := Collected(pages[..k + 1]);
              PagedOutcome(pages, e, now)
              == if !Orderly(rows, e, now) then Err
                 else if exists i | 0 <= i < |rows| :: Shows(rows[i], e.id) then Ok(OutcomeComplete)
                 else Ok(OutcomeAmbiguous)
  {
    EndIsExact(pages, 0, k);
    if LastPage(pages, k) {
      CleanIsOrderly(Collected(pages[..k + 1]), e, now);
    }
  }

  /** The collected history is the rows of the pages, one after the other. */
  lemma {:induction false} CollectedIsConcatenation(pages: seq<Page>)
    requires forall i | 0 <= i < |pages| :: pages[i].Page?
    ensures pages == [] ==> Collected(pages) == []
    ensures pages != [] ==> Collected(pages) == pages[0].rows + Collected(pages[1..])
  {
    if |pages| > 1 {
      var front := pages[..|pages| - 1];
      CollectedIsConcatenation(front);
      assert front[1..] == pages[1..][..|pages| - 2];
    } else if |pages| == 1 {
      assert pages[..0] == [] && pages[1..] == [];
    }
  }
}
