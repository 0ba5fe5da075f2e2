/**
 Recovery read of the owner's receipt (src/openhab.rs, `feeder_result_v2`).

 The current item only locates a receipt; completion is certified from paged JDBC history. Decoded
 texts are values: a state that is not a v2 ledger decodes to None. Times are milliseconds and
 `now` is the one clock reading of a call.
 */
module OwnerReader {
  import opened Wrappers
  import opened FeederOwner

  const MIN_TIME_MS: int := 946_684_800_000
  const FUTURE_SKEW_MS: int := 30_000
  const WINDOW_MS: int := 10_000
  const PAGE_ROWS: nat := 8
  const MAX_PAGES: nat := 8

  datatype OwnerOutcome = OutcomeAbsent | OutcomePending | OutcomeComplete | OutcomeRejected | OutcomeAmbiguous

  /** `parse_v2_time`. */
  predicate TimeInRange(at: int, now: int) {
    MIN_TIME_MS <= at <= now + FUTURE_SKEW_MS
  }

  predicate EntryParses(e: Entry, now: int) {
    && TimeInRange(e.at, now)
    && match e.status
       case Accepted => e.updatedAt.None?
       case Complete => e.updatedAt.Some? && TimeInRange(e.updatedAt.value, now) && e.updatedAt.value >= e.at
       case _ => false
  }

  /** What `parse_ledger_v2` accepts. */
  predicate LedgerParses(ledger: Ledger, now: int) {
    && |ledger| <= MAX_ENTRIES
    && UniqueIds(ledger)
    && forall i | 0 <= i < |ledger| :: EntryParses(ledger[i], now)
  }

  method ParseLedger(raw: Option<Ledger>, now: int) returns (r: Result<Ledger>)
    ensures r == if raw.Some? && LedgerParses(raw.value, now) then Ok(raw.value) else Err
  {
    if raw.None? || |raw.value| > MAX_ENTRIES {
      return Err;
    }
    var ledger := raw.value;
    var ids: set<Uuid> := {};
    for i := 0 to |ledger|
      invariant UniqueIds(ledger[..i])
      invariant forall k | 0 <= k < i :: EntryParses(ledger[k], now)
      invariant ids == set k | 0 <= k < i :: ledger[k].id
    {
      if ledger[i].id in ids {
        var k :| 0 <= k < i && ledger[k].id == ledger[i].id;
        assert !UniqueIds(ledger);
        return Err;
      }
      ids := ids + {ledger[i].id};
      if !EntryParses(ledger[i], now) {
        return Err;
      }
    }
    assert ledger[..|ledger|] == ledger;
    r := Ok(ledger);
  }

  // --- Notifications -------------------------------------------------------------

  datatype Notice = NoticeComplete | NoticeAccepted | NoticeRunning | NoticeDenied | NoticeFailed | NoticeUnknown

  datatype ResultItem = ResultEmpty | ResultMalformed | ResultNote(id: Uuid, at: int, notice: Notice)

  /** `parse_result_v2`: a notification alone never certifies completion. */
  function ParseResult(item: ResultItem, id: Uuid, now: int): (r: Result<OwnerOutcome>)
    ensures r != Ok(OutcomeComplete)
  {
    match item
    case ResultEmpty => Ok(OutcomeAbsent)
    case ResultMalformed => Err
    case ResultNote(noted, at, notice) =>
      if !TimeInRange(at, now) then Err
      else if noted != id then Ok(OutcomeAbsent)
      else match notice
        case NoticeComplete => Ok(OutcomeAmbiguous)
        case NoticeAccepted => Ok(OutcomePending)
        case NoticeRunning => Ok(OutcomePending)
        case NoticeDenied => Ok(OutcomeRejected)
        case NoticeFailed => Ok(OutcomeAmbiguous)
        case NoticeUnknown => Err
  }

  // --- Paged history -------------------------------------------------------------

  datatype Row = Row(time: int, state: Option<Ledger>)

  datatype Page = FetchFailed | Page(named: bool, datapoints: Option<nat>, rows: seq<Row>)

  predicate PageUsable(page: Page) {
    page.Page? && page.named && |page.rows| <= PAGE_ROWS && page.datapoints == Some(|page.rows|)
  }

  /** The first short page from `n` on, when every page up to it is usable and within the limit. */
  function EndFrom(pages: seq<Page>, n: nat): (r: Option<nat>)
    requires n <= MAX_PAGES
    ensures r.Some? ==>
              && n <= r.value < |pages| && r.value < MAX_PAGES
              && (forall i | n <= i <= r.value :: PageUsable(pages[i]))
              && |pages[r.value].rows| < PAGE_ROWS
    decreases MAX_PAGES - n
  {
    if n >= MAX_PAGES || n >= |pages| || !PageUsable(pages[n]) then None
    else if |pages[n].rows| < PAGE_ROWS then Some(n)
    else EndFrom(pages, n + 1)
  }

  function Collected(pages: seq<Page>): seq<Row>
    requires forall i | 0 <= i < |pages| :: pages[i].Page?
  {
    if pages == [] then [] else Collected(pages[..|pages| - 1]) + pages[|pages| - 1].rows
  }

  predicate RowHas(row: Row, id: Uuid) { row.state.Some? && Receipt(row.state.value, id).Some? }

  predicate RowCompletes(row: Row, id: Uuid) { row.state.Some? && IsComplete(row.state.value, id) }

  /** One row on its own: in the window, decodable, and not contradicting the located receipt. */
  ghost predicate RowAgrees(row: Row, e: Entry, now: int)
    requires e.updatedAt.Some?
  {
    && e.updatedAt.value - WINDOW_MS <= row.time <= e.updatedAt.value + WINDOW_MS
    && row.time <= now + FUTURE_SKEW_MS
    && row.state.Some? && LedgerParses(row.state.value, now)
    && (RowHas(row, e.id) ==> Receipt(row.state.value, e.id).value.at == e.at)
    && (RowCompletes(row, e.id) ==>
          Receipt(row.state.value, e.id) == Some(e) && row.time >= e.updatedAt.value)
  }

  /** The collected history is ordered, agrees with the receipt, and never loses a completion. */
  ghost predicate Clean(rows: seq<Row>, e: Entry, now: int)
    requires e.updatedAt.Some?
  {
    && (forall i | 0 <= i < |rows| :: RowAgrees(rows[i], e, now))
    && (forall i, j | 0 <= i < j < |rows| :: rows[i].time <= rows[j].time)
    && (forall i, j | 0 <= i < j < |rows| && RowCompletes(rows[i], e.id) :: RowCompletes(rows[j], e.id))
  }

  ghost predicate AnyCompletes(rows: seq<Row>, id: Uuid) {
    exists i | 0 <= i < |rows| :: RowCompletes(rows[i], id)
  }

  ghost function PagedOutcome(pages: seq<Page>, e: Entry, now: int): Result<OwnerOutcome>
    requires e.updatedAt.Some?
  {
    match EndFrom(pages, 0)
    case None => Err
    case Some(k) =>
      var rows := Collected(pages[..k + 1]);
      if !Clean(rows, e, now) then Err
      else Ok(if AnyCompletes(rows, e.id) then OutcomeComplete else OutcomeAmbiguous)
  }

  /** `feeder_result_v2` as a function of what the item, the result item and the pages returned. */
  ghost function ResultV2(item: Option<Ledger>, note: ResultItem, pages: seq<Page>, id: Uuid, now: int)
    : Result<OwnerOutcome>
  {
    if item.None? || !LedgerParses(item.value, now) then Err
    else match Receipt(item.value, id)
      case None => ParseResult(note, id, now)
      case Some(e) =>
        if e.status == Accepted then Ok(OutcomePending)
        else if e.updatedAt.None? then Err
        else PagedOutcome(pages, e, now)
  }

  /** One row of the scan: the loop body of the source. */
  method ScanRow(row: Row, e: Entry, now: int, previous: Option<int>, seen: bool) returns (r: Result<bool>)
    requires e.updatedAt.Some?
    ensures r.Ok? <==>
              && RowAgrees(row, e, now)
              && (previous.Some? ==> previous.value <= row.time)
              && (seen ==> RowCompletes(row, e.id))
    ensures r.Ok? ==> r.value == (seen || RowCompletes(row, e.id))
  {
    var completedAt := e.updatedAt.value;
    if (previous.Some? && row.time < previous.value)
       || row.time < completedAt - WINDOW_MS || row.time > completedAt + WINDOW_MS
       || row.time > now + FUTURE_SKEW_MS {
      return Err;
    }
    var snapshot := ParseLedger(row.state, now);
    if snapshot.Err? {
      return Err;
    }
    var receipt := Receipt(snapshot.value, e.id);
    r := Ok(seen);
    if receipt.Some? {
      if receipt.value.at != e.at {
        return Err;
      }
      if receipt.value.status == Complete {
        if receipt.value != e || row.time < completedAt {
          return Err;
        }
        r := Ok(true);
      } else if seen {
        return Err;
      }
    } else if seen {
      return Err;
    }
  }

  /** The state of the scan after a clean prefix of rows. */
  ghost predicate Scanned(rows: seq<Row>, e: Entry, now: int, previous: Option<int>, seen: bool)
    requires e.updatedAt.Some?
  {
    && Clean(rows, e, now)
    && previous == (if rows == [] then None else Some(rows[|rows| - 1].time))
    && (seen <==> AnyCompletes(rows, e.id))
  }

  lemma AnyCompletesGrows(rows: seq<Row>, row: Row, id: Uuid)
    ensures AnyCompletes(rows + [row], id) <==> AnyCompletes(rows, id) || RowCompletes(row, id)
  {
    var after := rows + [row];
    assert after[|rows|] == row;
    if AnyCompletes(rows, id) {
      var i :| 0 <= i < |rows| && RowCompletes(rows[i], id);
      assert RowCompletes(after[i], id);
    }
  }

  /** A row that passes the loop body extends the clean prefix. */
  lemma ScanAccepts(rows: seq<Row>, row: Row, e: Entry, now: int, previous: Option<int>, seen: bool)
    requires e.updatedAt.Some? && Scanned(rows, e, now, previous, seen)
    requires RowAgrees(row, e, now) && (previous.Some? ==> previous.value <= row.time)
    requires seen ==> RowCompletes(row, e.id)
    ensures Scanned(rows + [row], e, now, Some(row.time), seen || RowCompletes(row, e.id))
  {
    AnyCompletesGrows(rows, row, e.id);
    var after := rows + [row];
    forall i, j | 0 <= i < j < |after| && RowCompletes(after[i], e.id) ensures RowCompletes(after[j], e.id) {
      assert i < |rows| && RowCompletes(rows[i], e.id);
    }
  }

  /** A row that fails it cannot belong to a clean history. */
  lemma ScanRejects(rows: seq<Row>, row: Row, e: Entry, now: int, previous: Option<int>, seen: bool)
    requires e.updatedAt.Some? && Scanned(rows, e, now, previous, seen)
    requires Clean(rows + [row], e, now)
    ensures RowAgrees(row, e, now) && (previous.Some? ==> previous.value <= row.time)
    ensures seen ==> RowCompletes(row, e.id)
  {
    var after := rows + [row];
    assert after[|rows|] == row;
    if rows != [] {
      assert after[|rows| - 1] == rows[|rows| - 1];
    }
    if seen {
      var i :| 0 <= i < |rows| && RowCompletes(rows[i], e.id);
      assert after[i] == rows[i];
    }
  }

  lemma CleanPrefix(rows: seq<Row>, more: seq<Row>, e: Entry, now: int)
    requires e.updatedAt.Some? && Clean(rows + more, e, now)
    ensures Clean(rows, e, now)
  {
    var all := rows + more;
    assert forall i | 0 <= i < |rows| :: rows[i] == all[i];
  }

  /** A row that fails the loop body spoils every history that starts with the rows before it. */
  lemma RejectedIsDirty(
      scanned: seq<Row>, row: Row, rest: seq<Row>, all: seq<Row>, e: Entry, now: int, previous: Option<int>, seen: bool)
    requires e.updatedAt.Some? && Scanned(scanned, e, now, previous, seen) && all == scanned + [row] + rest
    requires !(RowAgrees(row, e, now) && (previous.Some? ==> previous.value <= row.time)
               && (seen ==> RowCompletes(row, e.id)))
    ensures !Clean(all, e, now)
  {
    if Clean(all, e, now) {
      CleanPrefix(scanned + [row], rest, e, now);
      ScanRejects(scanned, row, e, now, previous, seen);
      assert false;
    }
  }

  lemma PageSplits(before: seq<Row>, page: seq<Row>, i: nat)
    requires i < |page|
    ensures before + page[..i + 1] == before + page[..i] + [page[i]]
    ensures before + page == before + page[..i] + [page[i]] + page[i + 1..]
  {
  }

  method ScanPage(page: seq<Row>, ghost before: seq<Row>, e: Entry, now: int, previous: Option<int>, seen: bool)
    returns (ok: bool, previous': Option<int>, seen': bool)
    requires e.updatedAt.Some? && Scanned(before, e, now, previous, seen)
    ensures ok <==> Clean(before + page, e, now)
    ensures ok ==> Scanned(before + page, e, now, previous', seen')
  {
    previous', seen' := previous, seen;
    assert before + page[..0] == before;
    for i := 0 to |page|
      invariant Scanned(before + page[..i], e, now, previous', seen')
    {
      ghost var scanned := before + page[..i];
      PageSplits(before, page, i);
      var r := ScanRow(page[i], e, now, previous', seen');
      if r.Err? {
        RejectedIsDirty(scanned, page[i], page[i + 1..], before + page, e, now, previous', seen');
        return false, previous', seen';
      }
      ScanAccepts(scanned, page[i], e, now, previous', seen');
      previous', seen' := Some(page[i].time), r.value;
    }
    assert page[..|page|] == page;
    ok := true;
  }

  lemma CollectedGrows(pages: seq<Page>, k: nat)
    requires k < |pages| && forall i | 0 <= i <= k :: pages[i].Page?
    ensures Collected(pages[..k + 1]) == Collected(pages[..k]) + pages[k].rows
  {
    assert pages[..k + 1][..k] == pages[..k];
  }

  lemma {:induction false} CollectedPrefix(pages: seq<Page>, j: nat, k: nat)
    requires j <= k <= |pages| && forall i | 0 <= i < k :: pages[i].Page?
    ensures exists more :: Collected(pages[..k]) == Collected(pages[..j]) + more
  {
    if j == k {
      assert Collected(pages[..k]) == Collected(pages[..j]) + [];
    } else {
      CollectedPrefix(pages, j, k - 1);
      CollectedGrows(pages, k - 1);
      var more :| Collected(pages[..k - 1]) == Collected(pages[..j]) + more;
      assert Collected(pages[..k]) == Collected(pages[..j]) + (more + pages[k - 1].rows);
    }
  }

  /** A dirty prefix of the pages spoils the whole scan. */
  lemma DirtyPages(pages: seq<Page>, n: nat, k: nat, e: Entry, now: int)
    requires e.updatedAt.Some? && n <= k < |pages| && forall i | 0 <= i <= k :: pages[i].Page?
    requires Clean(Collected(pages[..k + 1]), e, now)
    ensures Clean(Collected(pages[..n + 1]), e, now)
  {
    CollectedPrefix(pages, n + 1, k + 1);
    var more :| Collected(pages[..k + 1]) == Collected(pages[..n + 1]) + more;
    CleanPrefix(Collected(pages[..n + 1]), more, e, now);
  }

  /** So a page that spoils the scan settles the outcome. */
  lemma DirtyOutcome(pages: seq<Page>, n: nat, e: Entry, now: int)
    requires e.updatedAt.Some? && n < MAX_PAGES && n < |pages| && EndFrom(pages, 0) == EndFrom(pages, n)
    requires forall i | 0 <= i <= n :: PageUsable(pages[i])
    requires !Clean(Collected(pages[..n + 1]), e, now)
    ensures PagedOutcome(pages, e, now).Err?
  {
    var end := EndFrom(pages, n);
    if end.Some? && Clean(Collected(pages[..end.value + 1]), e, now) {
      DirtyPages(pages, n, end.value, e, now);
      assert false;
    }
  }

  /** The first short page ends a clean scan with its outcome. */
  lemma ShortPageDecides(pages: seq<Page>, n: nat, e: Entry, now: int, previous: Option<int>, seen: bool)
    requires e.updatedAt.Some? && n < MAX_PAGES && n < |pages| && EndFrom(pages, 0) == EndFrom(pages, n)
    requires (forall i | 0 <= i <= n :: PageUsable(pages[i])) && |pages[n].rows| < PAGE_ROWS
    requires Scanned(Collected(pages[..n + 1]), e, now, previous, seen)
    ensures PagedOutcome(pages, e, now) == Ok(if seen then OutcomeComplete else OutcomeAmbiguous)
  {
  }

  lemma FullPageGoesOn(pages: seq<Page>, n: nat)
    requires n < MAX_PAGES && n < |pages| && PageUsable(pages[n]) && |pages[n].rows| == PAGE_ROWS
    ensures EndFrom(pages, n) == EndFrom(pages, n + 1)
  {
  }

  lemma BadPageEnds(pages: seq<Page>, n: nat)
    requires n < MAX_PAGES && n < |pages| && !PageUsable(pages[n])
    ensures EndFrom(pages, n) == None
  {
  }

  /** The page loop of `feeder_result_v2`; `pages[i]` is the answer to the request for page `i`. */
  method ReadHistory(pages: seq<Page>, e: Entry, now: int) returns (r: Result<OwnerOutcome>)
    requires e.updatedAt.Some? && |pages| >= MAX_PAGES
    ensures r == PagedOutcome(pages, e, now)
  {
    var seen, previous := false, None;
    for n := 0 to MAX_PAGES
      invariant EndFrom(pages, 0) == EndFrom(pages, n)
      invariant forall i | 0 <= i < n :: PageUsable(pages[i])
      invariant Scanned(Collected(pages[..n]), e, now, previous, seen)
    {
      var page := pages[n];
      if !PageUsable(page) {
        BadPageEnds(pages, n);
        return Err;
      }
      CollectedGrows(pages, n);
      var ok;
      ok, previous, seen := ScanPage(page.rows, Collected(pages[..n]), e, now, previous, seen);
      if !ok {
        DirtyOutcome(pages, n, e, now);
        return Err;
      }
      if |page.rows| < PAGE_ROWS {
        ShortPageDecides(pages, n, e, now, previous, seen);
        return Ok(if seen then OutcomeComplete else OutcomeAmbiguous);
      }
      FullPageGoesOn(pages, n);
    }
    r := Err;
  }

  method FeederResult(item: Option<Ledger>, note: ResultItem, pages: seq<Page>, id: Uuid, now: int)
    returns (r: Result<OwnerOutcome>)
    requires |pages| >= MAX_PAGES
    ensures r == ResultV2(item, note, pages, id, now)
  {
    var parsed := ParseLedger(item, now);
    if parsed.Err? {
      return Err;
    }
    var entry := Receipt(parsed.value, id);
    if entry.None? {
      return ParseResult(note, id, now);
    }
    if entry.value.status == Accepted {
      return Ok(OutcomePending);
    }
    if entry.value.updatedAt.None? {
      return Err;
    }
    r := ReadHistory(pages, entry.value, now);
  }

  // --- What certification means ---------------------------------------------------

  /** Every row the pages return was really committed: persistence history is faithful. */
  ghost predicate Faithful(pages: seq<Page>, history: seq<Snapshot>) {
    forall i, j | 0 <= i < |pages| && pages[i].Page? && 0 <= j < |pages[i].rows| ::
      exists k | 0 <= k < |history| :: pages[i].rows[j] == Row(history[k].at, Some(history[k].ledger))
  }

  lemma {:induction false} CollectedRows(pages: seq<Page>, row: Row)
    requires forall i | 0 <= i < |pages| :: pages[i].Page?
    requires row in Collected(pages)
    ensures exists i, j | 0 <= i < |pages| && 0 <= j < |pages[i].rows| :: pages[i].rows[j] == row
  {
    var last := pages[|pages| - 1];
    if row in last.rows {
      var j :| 0 <= j < |last.rows| && last.rows[j] == row;
      assert pages[|pages| - 1].rows[j] == row;
    } else {
      var front := pages[..|pages| - 1];
      CollectedRows(front, row);
      var i, j :| 0 <= i < |front| && 0 <= j < |front[i].rows| && front[i].rows[j] == row;
      assert pages[i].rows[j] == row;
    }
  }

  /** A complete answer rests on a collected row that shows exactly the located receipt. */
  lemma CompletedRow(pages: seq<Page>, e: Entry, now: int) returns (row: Row)
    requires e.updatedAt.Some? && PagedOutcome(pages, e, now) == Ok(OutcomeComplete)
    ensures RowAgrees(row, e, now) && RowCompletes(row, e.id)
    ensures exists i, j | 0 <= i < |pages| && pages[i].Page? && 0 <= j < |pages[i].rows| :: pages[i].rows[j] == row
  {
    var used := pages[..EndFrom(pages, 0).value + 1];
    var rows := Collected(used);
    var i :| 0 <= i < |rows| && RowCompletes(rows[i], e.id);
    row := rows[i];
    CollectedRows(used, row);
    var p, q :| 0 <= p < |used| && 0 <= q < |used[p].rows| && used[p].rows[q] == row;
    assert pages[p].rows[q] == row;
  }

  lemma CommittedRow(pages: seq<Page>, history: seq<Snapshot>, row: Row) returns (k: nat)
    requires Faithful(pages, history)
    requires exists i, j | 0 <= i < |pages| && pages[i].Page? && 0 <= j < |pages[i].rows| :: pages[i].rows[j] == row
    ensures k < |history| && row == Row(history[k].at, Some(history[k].ledger))
  {
    var i, j :| 0 <= i < |pages| && pages[i].Page? && 0 <= j < |pages[i].rows| && pages[i].rows[j] == row;
    k :| 0 <= k < |history| && pages[i].rows[j] == Row(history[k].at, Some(history[k].ledger));
  }

  /** Whatever the item and the notification claim, Complete is only ever answered for a durable receipt. */
  lemma CompleteIsDurable(
      item: Option<Ledger>, note: ResultItem, pages: seq<Page>, id: Uuid, now: int, history: seq<Snapshot>)
    requires Faithful(pages, history)
    requires ResultV2(item, note, pages, id, now) == Ok(OutcomeComplete)
    ensures exists k | 0 <= k < |history| :: IsComplete(history[k].ledger, id)
  {
    var row := CompletedRow(pages, Receipt(item.value, id).value, now);
    var k := CommittedRow(pages, history, row);
    assert IsComplete(history[k].ledger, id);
  }

  /** History rows as the persistence service reports them, between two bounds. */
  function RowsBetween(history: seq<Snapshot>, lo: int, hi: int): seq<Row> {
    if history == [] then []
    else
      var last := history[|history| - 1];
      RowsBetween(history[..|history| - 1], lo, hi)
      + if lo <= last.at <= hi then [Row(last.at, Some(last.ledger))] else []
  }

  ghost predicate TimesInRange(history: seq<Snapshot>, now: int) {
    forall i, j | 0 <= i < |history| && 0 <= j < |history[i].ledger| ::
      var e := history[i].ledger[j];
      TimeInRange(e.at, now) && (e.updatedAt.Some? ==> TimeInRange(e.updatedAt.value, now))
  }

  lemma {:induction false} RowsFromHistory(history: seq<Snapshot>, lo: int, hi: int) returns (index: seq<nat>)
    ensures var rows := RowsBetween(history, lo, hi);
            && |index| == |rows|
            && (forall i | 0 <= i < |rows| ::
                  && index[i] < |history|
                  && rows[i] == Row(history[index[i]].at, Some(history[index[i]].ledger))
                  && lo <= rows[i].time <= hi)
            && (forall i, j | 0 <= i < j < |rows| :: index[i] < index[j])
            && (forall k | 0 <= k < |history| && lo <= history[k].at <= hi :: k in index)
  {
    index := [];
    if history != [] {
      var front, last := history[..|history| - 1], history[|history| - 1];
      index := RowsFromHistory(front, lo, hi);
      if lo <= last.at <= hi {
        var before := index;
        index := index + [|front|];
        assert index[|before|] == |front|;
        forall k | 0 <= k < |history| && lo <= history[k].at <= hi ensures k in index {
          if k < |front| {
            assert k in before;
          }
        }
      }
    }
  }

  /** `index` places the rows of a window in the history. */
  ghost predicate Places(rows: seq<Row>, history: seq<Snapshot>, index: seq<nat>) {
    && |index| == |rows|
    && (forall i | 0 <= i < |rows| ::
          index[i] < |history| && rows[i] == Row(history[index[i]].at, Some(history[index[i]].ledger)))
    && (forall i, j | 0 <= i < j < |rows| :: index[i] < index[j])
  }

  ghost predicate Ordered(history: seq<Snapshot>) {
    && (forall i, j | 0 <= i < j < |history| :: history[i].at <= history[j].at)
    && (forall i, j | 0 <= i <= j < |history| :: Extends(history[i].ledger, history[j].ledger))
  }

  predicate InWindow(at: int, e: Entry)
    requires e.updatedAt.Some?
  {
    e.updatedAt.value - WINDOW_MS <= at <= e.updatedAt.value + WINDOW_MS
  }

  ghost predicate HistoryAgrees(history: seq<Snapshot>, e: Entry, now: int)
    requires e.updatedAt.Some?
  {
    forall k | 0 <= k < |history| && InWindow(history[k].at, e) ::
      RowAgrees(Row(history[k].at, Some(history[k].ledger)), e, now)
  }

  lemma WindowIsClean(history: seq<Snapshot>, e: Entry, now: int)
    requires e.updatedAt.Some? && Ordered(history) && HistoryAgrees(history, e, now)
    ensures Clean(RowsBetween(history, e.updatedAt.value - WINDOW_MS, e.updatedAt.value + WINDOW_MS), e, now)
  {
    var lo, hi := e.updatedAt.value - WINDOW_MS, e.updatedAt.value + WINDOW_MS;
    var rows := RowsBetween(history, lo, hi);
    var index := RowsFromHistory(history, lo, hi);
  }

  /** Over the owner's own history no conflict, regression or eviction branch can be taken. */
  lemma OwnHistoryIsClean(o: Owner, now: int, e: Entry)
    requires Inv(o, now) && Stamps(o, now) && TimesInRange(o.history, now)
    requires Receipt(Persisted(o).value, e.id) == Some(e) && IsComplete(Persisted(o).value, e.id)
    ensures e.updatedAt.Some?
    ensures Clean(RowsBetween(o.history, e.updatedAt.value - WINDOW_MS, e.updatedAt.value + WINDOW_MS), e, now)
  {
    forall k | 0 <= k < |o.history| && InWindow(o.history[k].at, e)
      ensures RowAgrees(Row(o.history[k].at, Some(o.history[k].ledger)), e, now)
    {
      SnapshotAgrees(o, now, e, k);
    }
    WindowIsClean(o.history, e, now);
  }

  lemma SnapshotAgrees(o: Owner, now: int, e: Entry, k: nat)
    requires Inv(o, now) && Stamps(o, now) && TimesInRange(o.history, now) && k < |o.history|
    requires Receipt(Persisted(o).value, e.id) == Some(e) && e.updatedAt.Some?
    ensures LedgerParses(o.history[k].ledger, now)
    ensures Receipt(o.history[k].ledger, e.id).Some? ==> Receipt(o.history[k].ledger, e.id).value.at == e.at
    ensures IsComplete(o.history[k].ledger, e.id) ==>
              Receipt(o.history[k].ledger, e.id) == Some(e) && o.history[k].at >= e.updatedAt.value
    ensures o.history[k].at <= now
  {
    assert Extends(o.history[k].ledger, o.history[|o.history| - 1].ledger);
  }

  // --- Eight pages are always enough -----------------------------------------------

  /** Page `k` of a faithful persistence service. */
  function PageOf(rows: seq<Row>, k: nat): Page {
    var lo, hi := Min(k * PAGE_ROWS, |rows|), Min((k + 1) * PAGE_ROWS, |rows|);
    Page(true, Some(hi - lo), rows[lo..hi])
  }

  function PagesOf(rows: seq<Row>): (pages: seq<Page>)
    ensures |pages| == MAX_PAGES && forall k | 0 <= k < MAX_PAGES :: pages[k] == PageOf(rows, k)
  {
    seq(MAX_PAGES, k requires 0 <= k => PageOf(rows, k))
  }

  lemma {:induction false} PagesCollect(rows: seq<Row>, k: nat)
    requires k <= MAX_PAGES
    ensures Collected(PagesOf(rows)[..k]) == rows[..Min(k * PAGE_ROWS, |rows|)]
  {
    if k > 0 {
      PagesCollect(rows, k - 1);
      CollectedGrows(PagesOf(rows), k - 1);
    }
  }

  /** Fewer than 64 rows end within the eight pages, on the first short one. */
  lemma {:induction false} PagesEnd(rows: seq<Row>, k: nat)
    requires |rows| < MAX_PAGES * PAGE_ROWS && k <= |rows| / PAGE_ROWS
    ensures EndFrom(PagesOf(rows), k) == Some(|rows| / PAGE_ROWS)
    decreases MAX_PAGES - k
  {
    if k < |rows| / PAGE_ROWS {
      PagesEnd(rows, k + 1);
    }
  }

  lemma {:induction false} IndexSpreads(index: seq<nat>, k: nat)
    requires k < |index| && forall i, j | 0 <= i < j < |index| :: index[i] < index[j]
    ensures index[k] >= index[0] + k
  {
    if k > 0 {
      IndexSpreads(index, k - 1);
    }
  }

  lemma RowsSpread(rows: seq<Row>, history: seq<Snapshot>, index: seq<nat>, now: int, k: nat)
    requires Paced(history, now) && Places(rows, history, index) && 2 * k < |rows|
    ensures rows[0].time + PULSE_MS * k <= rows[2 * k].time
  {
    IndexSpreads(index, 2 * k);
    PaceSpreads(history, now, index[0], k);
    PaceOrders(history, now, index[0] + 2 * k, index[2 * k]);
  }

  /**
   The owner paces its own history: any three rows span a pulse, so the twenty seconds of a read hold
   at most 42 rows, and the pagination limit is never reached.
   */
  lemma WindowIsShort(history: seq<Snapshot>, now: int, lo: int)
    requires Paced(history, now)
    ensures |RowsBetween(history, lo, lo + 2 * WINDOW_MS)| <= 42
  {
    var rows := RowsBetween(history, lo, lo + 2 * WINDOW_MS);
    var index := RowsFromHistory(history, lo, lo + 2 * WINDOW_MS);
    if |rows| > 42 {
      RowsSpread(rows, history, index, now, 21);
      assert false;
    }
  }

  lemma PagesDeliver(rows: seq<Row>)
    requires |rows| < MAX_PAGES * PAGE_ROWS
    ensures EndFrom(PagesOf(rows), 0).Some?
    ensures Collected(PagesOf(rows)[..EndFrom(PagesOf(rows), 0).value + 1]) == rows
  {
    PagesEnd(rows, 0);
    PagesCollect(rows, |rows| / PAGE_ROWS + 1);
    assert rows[..|rows|] == rows;
  }

  /** Every row of the pages is a row of the history. */
  lemma PagesAreFaithful(history: seq<Snapshot>, lo: int, hi: int)
    ensures Faithful(PagesOf(RowsBetween(history, lo, hi)), history)
  {
    var rows := RowsBetween(history, lo, hi);
    var index := RowsFromHistory(history, lo, hi);
    forall k, j | 0 <= k < MAX_PAGES && 0 <= j < |PageOf(rows, k).rows|
      ensures exists h | 0 <= h < |history| :: PageOf(rows, k).rows[j] == Row(history[h].at, Some(history[h].ledger))
    {
      var i := Min(k * PAGE_ROWS, |rows|) + j;
      assert PageOf(rows, k).rows[j] == rows[i];
      assert rows[i] == Row(history[index[i]].at, Some(history[index[i]].ledger));
    }
  }

  // --- When a completion is certified ------------------------------------------------

  /** The window the reader asks for, around a completion. */
  function AskedWindow(history: seq<Snapshot>, updatedAt: int): seq<Row> {
    RowsBetween(history, updatedAt - WINDOW_MS, updatedAt + WINDOW_MS)
  }

  /** A row that holds the completion was committed soon enough after it. */
  ghost predicate LandedInTime(history: seq<Snapshot>, id: Uuid, updatedAt: int) {
    exists k | 0 <= k < |history| :: IsComplete(history[k].ledger, id) && history[k].at <= updatedAt + WINDOW_MS
  }

  /** What a read of `e` finds: a short, clean window that shows the completion if it landed in time. */
  ghost predicate Readable(history: seq<Snapshot>, e: Entry, now: int) {
    && e.updatedAt.Some?
    && |AskedWindow(history, e.updatedAt.value)| <= 42
    && Clean(AskedWindow(history, e.updatedAt.value), e, now)
    && (AnyCompletes(AskedWindow(history, e.updatedAt.value), e.id) <==>
          LandedInTime(history, e.id, e.updatedAt.value))
  }

  lemma WindowIsReadable(o: Owner, e: Entry, now: int)
    requires Inv(o, now) && Stamps(o, now) && Tempo(o, now) && TimesInRange(o.history, now)
    requires Receipt(Persisted(o).value, e.id) == Some(e) && e.status == Complete
    ensures Readable(o.history, e, now)
  {
    OwnHistoryIsClean(o, now, e);
    forall k | 0 <= k < |o.history| && IsComplete(o.history[k].ledger, e.id)
      ensures e.updatedAt.value <= o.history[k].at
    {
      SnapshotAgrees(o, now, e, k);
    }
    CompletionsInWindow(o.history, e.id, e.updatedAt.value);
    WindowIsShort(o.history, now, e.updatedAt.value - WINDOW_MS);
  }

  lemma WindowRead(item: Ledger, note: ResultItem, e: Entry, now: int, history: seq<Snapshot>)
    requires LedgerParses(item, now) && Receipt(item, e.id) == Some(e) && e.status == Complete
    requires Readable(history, e, now)
    ensures ResultV2(Some(item), note, PagesOf(AskedWindow(history, e.updatedAt.value)), e.id, now)
            == Ok(if LandedInTime(history, e.id, e.updatedAt.value) then OutcomeComplete else OutcomeAmbiguous)
  {
    var rows := AskedWindow(history, e.updatedAt.value);
    PagesDeliver(rows);
  }

  /** The pages a faithful service answers with when the item shows `item`. */
  function AnswerPages(history: seq<Snapshot>, item: Option<Ledger>, id: Uuid): seq<Page> {
    if item.Some? && Receipt(item.value, id).Some? && Receipt(item.value, id).value.updatedAt.Some?
    then PagesOf(AskedWindow(history, Receipt(item.value, id).value.updatedAt.value))
    else []
  }

  /** The item can be parsed and shows the durable completion, and the completion landed in time. */
  ghost predicate Certifiable(o: Owner, item: Option<Ledger>, id: Uuid, now: int) {
    && item.Some? && LedgerParses(item.value, now) && IsComplete(item.value, id)
    && Persisted(o).Some? && Receipt(Persisted(o).value, id) == Receipt(item.value, id)
    && var updatedAt := Receipt(item.value, id).value.updatedAt;
       updatedAt.Some? && LandedInTime(o.history, id, updatedAt.value)
  }

  /** Whatever committed rows the pages hold, Complete is only answered for a certifiable receipt. */
  lemma CompleteIsCertifiable(o: Owner, item: Option<Ledger>, note: ResultItem, pages: seq<Page>, id: Uuid, now: int)
    requires Retained(o.history, o.pulses) && Faithful(pages, o.history)
    requires ResultV2(item, note, pages, id, now) == Ok(OutcomeComplete)
    ensures Certifiable(o, item, id, now)
  {
    var e := Receipt(item.value, id).value;
    var row := CompletedRow(pages, e, now);
    var k := CommittedRow(pages, o.history, row);
    assert Extends(o.history[k].ledger, o.history[|o.history| - 1].ledger);
  }

  /** A read of the owner's own paged history certifies a certifiable receipt. */
  lemma CertifiableIsRead(o: Owner, item: Ledger, note: ResultItem, e: Entry, now: int)
    requires Inv(o, now) && Stamps(o, now) && Tempo(o, now) && Dates(o, MIN_TIME_MS, now)
    requires Certifiable(o, Some(item), e.id, now) && Receipt(item, e.id) == Some(e)
    ensures ResultV2(Some(item), note, PagesOf(AskedWindow(o.history, e.updatedAt.value)), e.id, now)
            == Ok(OutcomeComplete)
  {
    WindowIsReadable(o, e, now);
    WindowRead(item, note, e, now, o.history);
  }

  /**
   The partner of CompleteIsDurable, for any item text: a read of the owner's own paged history answers
   Complete exactly for a certifiable receipt.
   */
  lemma ReadIsExact(o: Owner, item: Option<Ledger>, note: ResultItem, id: Uuid, now: int)
    requires Inv(o, now) && Stamps(o, now) && Tempo(o, now) && Dates(o, MIN_TIME_MS, now)
    ensures ResultV2(item, note, AnswerPages(o.history, item, id), id, now) == Ok(OutcomeComplete)
            <==> Certifiable(o, item, id, now)
  {
    if Certifiable(o, item, id, now) {
      CertifiableIsRead(o, item.value, note, Receipt(item.value, id).value, now);
    } else if ResultV2(item, note, AnswerPages(o.history, item, id), id, now) == Ok(OutcomeComplete) {
      AnswersAreFaithful(o.history, item, id);
      CompleteIsCertifiable(o, item, note, AnswerPages(o.history, item, id), id, now);
      assert false;
    }
  }

  lemma AnswersAreFaithful(history: seq<Snapshot>, item: Option<Ledger>, id: Uuid)
    ensures Faithful(AnswerPages(history, item, id), history)
  {
    if item.Some? && Receipt(item.value, id).Some? && Receipt(item.value, id).value.updatedAt.Some? {
      AskedPagesAreFaithful(history, Receipt(item.value, id).value.updatedAt.value);
    }
  }

  lemma AskedPagesAreFaithful(history: seq<Snapshot>, at: int)
    ensures Faithful(PagesOf(AskedWindow(history, at)), history)
  {
    PagesAreFaithful(history, at - WINDOW_MS, at + WINDOW_MS);
  }

  /** Certification never gets lost by waiting. */
  lemma CertifiableLater(o: Owner, item: Option<Ledger>, id: Uuid, now: int, later: int)
    requires Certifiable(o, item, id, now) && now <= later
    ensures Certifiable(o, item, id, later)
  {
  }

  /**
   For every run of the owner whose clock is past the year 2000: when the item shows its newest durable
   ledger and the service pages the history around the completion, the answer is exactly Complete if a
   row holding the completion was committed within the window, Ambiguous otherwise. No other outcome
   or failure, the pagination limit included, is possible.
   */
  lemma {:induction false} FaithfulReadCertifies(steps: seq<TimedStep>, note: ResultItem, id: Uuid, now: nat)
    requires Monotone(steps) && (steps != [] ==> steps[|steps| - 1].at <= now) && MIN_TIME_MS <= now
    requires forall i | 0 <= i < |steps| :: MIN_TIME_MS <= steps[i].at
    requires Persisted(RunAll(steps)).Some? && IsComplete(Persisted(RunAll(steps)).value, id)
    ensures var o := RunAll(steps);
            var updatedAt := Receipt(Persisted(o).value, id).value.updatedAt;
            && updatedAt.Some?
            && ResultV2(Persisted(o), note, PagesOf(AskedWindow(o.history, updatedAt.value)), id, now)
               == Ok(if LandedInTime(o.history, id, updatedAt.value) then OutcomeComplete else OutcomeAmbiguous)
  {
    RunKeepsInv(steps, now);
    RunKeepsTempo(steps, now);
    RunKeepsDates(steps, MIN_TIME_MS, now);
    var o := RunAll(steps);
    var e := Receipt(Persisted(o).value, id).value;
    WindowIsReadable(o, e, now);
    WindowRead(Persisted(o).value, note, e, now, o.history);
  }

  /** Completed rows of the window are completed rows of the history. */
  lemma CompletionLanded(history: seq<Snapshot>, lo: int, hi: int, id: Uuid)
    requires AnyCompletes(RowsBetween(history, lo, hi), id)
    ensures exists k | 0 <= k < |history| :: IsComplete(history[k].ledger, id) && history[k].at <= hi
  {
    var rows := RowsBetween(history, lo, hi);
    var index := RowsFromHistory(history, lo, hi);
    var i :| 0 <= i < |rows| && RowCompletes(rows[i], id);
    assert IsComplete(history[index[i]].ledger, id) && history[index[i]].at <= hi;
  }

  lemma LandedIsRead(history: seq<Snapshot>, lo: int, hi: int, id: Uuid, k: nat)
    requires k < |history| && IsComplete(history[k].ledger, id) && lo <= history[k].at <= hi
    ensures AnyCompletes(RowsBetween(history, lo, hi), id)
  {
    var rows := RowsBetween(history, lo, hi);
    var index := RowsFromHistory(history, lo, hi);
    assert k in index;
    var i :| 0 <= i < |index| && index[i] == k;
    assert RowCompletes(rows[i], id);
  }

  /** No row shows a completion before it happened, so the window's start hides none. */
  lemma CompletionsInWindow(history: seq<Snapshot>, id: Uuid, updatedAt: int)
    requires forall k | 0 <= k < |history| && IsComplete(history[k].ledger, id) :: updatedAt <= history[k].at
    ensures AnyCompletes(AskedWindow(history, updatedAt), id) <==> LandedInTime(history, id, updatedAt)
  {
    var lo, hi := updatedAt - WINDOW_MS, updatedAt + WINDOW_MS;
    if LandedInTime(history, id, updatedAt) {
      var k :| 0 <= k < |history| && IsComplete(history[k].ledger, id) && history[k].at <= hi;
      LandedIsRead(history, lo, hi, id, k);
    }
    if AnyCompletes(RowsBetween(history, lo, hi), id) {
      CompletionLanded(history, lo, hi, id);
    }
  }

  // --- A completion that lands late ----------------------------------------------------

  const START: nat := MIN_TIME_MS

  /** One feeding whose completion row lands eleven seconds after it happened. */
  const LATE_RUN: seq<TimedStep> := [
    TimedStep(START, ReceiveStep(Request(7, START), true)),
    TimedStep(START, ItemLandsStep),
    TimedStep(START, ItemReadBackStep),
    TimedStep(START, PersistLandsStep),
    TimedStep(START, PersistReadBackStep),
    TimedStep(START, SwitchOnStep(false)),
    TimedStep(START + 1000, TimerStep(0, true)),
    TimedStep(START + 1000, ItemLandsStep),
    TimedStep(START + 1000, ItemReadBackStep),
    TimedStep(START + 12_000, PersistLandsStep)
  ]

  const ACCEPTED: Ledger := [Entry(7, Accepted, START, None)]
  const COMPLETE: Ledger := [Entry(7, Complete, START, Some(START + 1000))]
  const ROWS: seq<Snapshot> := [Snapshot(0, []), Snapshot(START, ACCEPTED)]

  /** The owner while it holds the guard for its one request. */
  function Holding(
      item: Ledger, rows: seq<Snapshot>, ledger: Ledger, phase: Phase, posted: Option<Ledger>, written: Option<Ledger>)
    : Owner
  {
    var pulsed := ledger == COMPLETE || phase.Pulsing?;
    Owner(Some(item), rows, Some(Run(0, 7, START, ledger, phase)), 1, if pulsed then Some(START) else None, posted,
          written, if pulsed then [Pulse(7, START)] else [])
  }

  /** The owner before each step. */
  function LateState(k: nat): Owner
    requires k <= |LATE_RUN|
  {
    if k == 0 then INITIAL
    else if k == 1 then Holding([], [Snapshot(0, [])], ACCEPTED, AcceptPosted, Some(ACCEPTED), None)
    else if k == 2 then Holding(ACCEPTED, [Snapshot(0, [])], ACCEPTED, AcceptPosted, None, None)
    else if k == 3 then Holding(ACCEPTED, [Snapshot(0, [])], ACCEPTED, AcceptPersisting, None, Some(ACCEPTED))
    else if k == 4 then Holding(ACCEPTED, ROWS, ACCEPTED, AcceptPersisting, None, None)
    else if k == 5 then Holding(ACCEPTED, ROWS, ACCEPTED, Armed, None, None)
    else if k == 6 then Holding(ACCEPTED, ROWS, ACCEPTED, Pulsing(START), None, None)
    else if k == 7 then Holding(ACCEPTED, ROWS, COMPLETE, CompletePosted, Some(COMPLETE), None)
    else if k == 8 then Holding(COMPLETE, ROWS, COMPLETE, CompletePosted, None, None)
    else if k == 9 then Holding(COMPLETE, ROWS, COMPLETE, CompletePersisting, None, Some(COMPLETE))
    else Holding(COMPLETE, ROWS + [Snapshot(START + 12_000, COMPLETE)], COMPLETE, CompletePersisting, None, None)
  }

  ghost predicate LateLeads(k: nat)
    requires k < |LATE_RUN|
  {
    Apply(LateState(k), LATE_RUN[k].at, LATE_RUN[k].step) == LateState(k + 1)
  }

  lemma LateAccepts()
    ensures LateLeads(0)
  {
    assert AcceptedLedger([], 7, START) == ACCEPTED;
  }

  lemma LateWrites(k: nat)
    requires 1 <= k < 4 || 7 <= k < 10
    ensures LateLeads(k)
  {
  }

  lemma LatePulses(k: nat)
    requires 4 <= k < 6
    ensures LateLeads(k)
  {
  }

  lemma LateTimer()
    ensures LateLeads(6)
  {
    assert TerminalLedger(ACCEPTED, 7, Complete, START + 1000) == COMPLETE;
  }

  lemma LateStep(k: nat)
    requires k < |LATE_RUN|
    ensures LateLeads(k)
  {
    if k == 0 {
      LateAccepts();
    } else if k == 6 {
      LateTimer();
    } else if k == 4 || k == 5 {
      LatePulses(k);
    } else {
      LateWrites(k);
    }
  }

  lemma {:induction false} LateReaches(k: nat)
    requires k <= |LATE_RUN|
    ensures RunAll(LATE_RUN[..k]) == LateState(k)
  {
    if k > 0 {
      LateReaches(k - 1);
      LateStep(k - 1);
      assert LATE_RUN[..k][..k - 1] == LATE_RUN[..k - 1];
    }
  }

  lemma LateEnds()
    ensures RunAll(LATE_RUN) == LateState(10)
  {
    LateReaches(10);
    assert LATE_RUN[..10] == LATE_RUN;
  }

  lemma LateIsMonotone()
    ensures Monotone(LATE_RUN) && forall i | 0 <= i < |LATE_RUN| :: MIN_TIME_MS <= LATE_RUN[i].at <= START + 12_000
  {
  }

  lemma LateIsOutside(o: Owner)
    requires o == LateState(10)
    ensures Receipt(Persisted(o).value, 7) == Some(COMPLETE[0]) && !LandedInTime(o.history, 7, START + 1000)
  {
  }

  /** The condition of FaithfulReadCertifies can fail: this durably completed receipt is answered Ambiguous. */
  lemma LateRowIsAmbiguous(note: ResultItem)
    ensures var o := RunAll(LATE_RUN);
            && Monotone(LATE_RUN)
            && Persisted(o).Some? && IsComplete(Persisted(o).value, 7)
            && ResultV2(Persisted(o), note, PagesOf(AskedWindow(o.history, START + 1000)), 7, START + 12_000)
               == Ok(OutcomeAmbiguous)
  {
    LateEnds();
    LateIsMonotone();
    LateIsOutside(RunAll(LATE_RUN));
    FaithfulReadCertifies(LATE_RUN, note, 7, START + 12_000);
  }
}
