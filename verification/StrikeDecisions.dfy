/**
 What each operation on the provider inbox and on the scan rows does, said of the rows, counts and times.
 */
module StrikeDecisions {
  import opened Wrappers
  import opened StrikeInbox
  import S = StrikeScan

  // --- The inbox ---------------------------------------------------------------------------

  ghost function PendingRows(rows: seq<Work>): set<nat> {
    set i: nat | i < |rows| && rows[i].status == Pending
  }

  lemma {:induction false} CountIsCardinality(rows: seq<Work>)
    ensures PendingCount(rows) == |PendingRows(rows)|
  {
    if rows != [] {
      var front := rows[..|rows| - 1];
      CountIsCardinality(front);
      assert PendingRows(rows) == PendingRows(front)
                                  + (if rows[|rows| - 1].status == Pending then {|rows| - 1} else {});
    }
  }

  /** A known key is accepted only for the same receive; a new one while fewer than 10,000 are pending, and due now. */
  lemma EnqueueIsExact(rows: seq<Work>, now: int, key: WorkKey, request: Uuid, receive: Uuid)
    requires Keyed(rows)
    ensures var (after, r) := Enqueue(rows, now, key, request, receive);
            && (forall i | 0 <= i < |rows| && rows[i].key == key ::
                  (after, r)
                  == (rows, if rows[i].request == request && rows[i].receive == receive then Ok(()) else Err))
            && ((forall i | 0 <= i < |rows| :: rows[i].key != key) ==>
                  (after, r)
                  == if |PendingRows(rows)| < 10_000
                     then (rows + [Work(key, request, receive, Pending, 0, now, now)], Ok(()))
                     else (rows, Err))
  {
    CountIsCardinality(rows);
  }

  /** Earlier next attempts come first, then earlier arrivals, then recovery keys before webhook keys by number. */
  predicate Earlier(a: Work, b: Work) {
    || a.nextAttempt < b.nextAttempt
    || (a.nextAttempt == b.nextAttempt && a.createdAt < b.createdAt)
    || (a.nextAttempt == b.nextAttempt && a.createdAt == b.createdAt
        && match (a.key, b.key)
           case (Recovery(x), Recovery(y)) => x < y
           case (Webhook(x), Webhook(y)) => x < y
           case (Recovery(_), Webhook(_)) => true
           case (Webhook(_), Recovery(_)) => false)
  }

  /** The selected row is open and due, and no other open and due row is earlier. */
  lemma SelectionIsExact(rows: seq<Work>, now: int)
    ensures DueWork(rows, now) == None
            <==> forall i | 0 <= i < |rows| :: rows[i].status == Done || rows[i].nextAttempt > now
    ensures DueWork(rows, now).Some? ==>
              var k := DueWork(rows, now).value;
              && k < |rows| && rows[k].status in {Pending, Quarantined} && rows[k].nextAttempt <= now
              && forall i | 0 <= i < |rows| && rows[i].status != Done && rows[i].nextAttempt <= now ::
                   !Earlier(rows[i], rows[k])
  {
    if DueWork(rows, now).Some? {
      var k := DueWork(rows, now).value;
      forall i | 0 <= i < |rows| && rows[i].status != Done && rows[i].nextAttempt <= now
        ensures !Earlier(rows[i], rows[k])
      {
        assert Due(rows[i], now);
      }
    } else {
      forall i | 0 <= i < |rows| ensures rows[i].status == Done || rows[i].nextAttempt > now {
        assert !Due(rows[i], now);
      }
    }
  }

  /** 1, 2, 4, ... seconds, and 256 from the eighth failure on. */
  function Backoff(attempts: nat): nat {
    if attempts == 0 then 1 else if attempts == 1 then 2 else if attempts == 2 then 4 else if attempts == 3 then 8
    else if attempts == 4 then 16 else if attempts == 5 then 32 else if attempts == 6 then 64
    else if attempts == 7 then 128 else 256
  }

  lemma BackoffIsExact(attempts: nat)
    ensures RetryDelay(attempts) == Backoff(attempts)
  {
    DelayBounds(attempts);
    assert Pow2(2) == 4 && Pow2(4) == 16 && Pow2(6) == 64;
  }

  /** A failure moves an open row: back off while young, an hour in quarantine from the eighth attempt on. */
  lemma RetryIsExact(rows: seq<Work>, now: int, i: nat, attempts: nat)
    requires Keyed(rows) && i < |rows|
    ensures var w := rows[i];
            Retry(rows, now, w.key, attempts)
            == if w.status == Done then rows
               else rows[i := Work(w.key, w.request, w.receive, if attempts >= 7 then Quarantined else Pending,
                                   if w.attempts < 30 then w.attempts + 1 else 30,
                                   now + if attempts >= 7 then 3600 else Backoff(attempts), w.createdAt)]
  {
    FoundAt(rows, i);
    BackoffIsExact(attempts);
  }

  lemma FinishIsExact(rows: seq<Work>, i: nat)
    requires Keyed(rows) && i < |rows|
    ensures Finish(rows, rows[i].key) == rows[i := rows[i].(status := Done)]
  {
    FoundAt(rows, i);
  }

  lemma StrangersStay(rows: seq<Work>, now: int, key: WorkKey, attempts: nat)
    requires forall i | 0 <= i < |rows| :: rows[i].key != key
    ensures Finish(rows, key) == rows && Retry(rows, now, key, attempts) == rows
  {
  }

  /** One step finishes the selected row if it was credited, and postpones it otherwise. */
  lemma DrainIsExact(rows: seq<Work>, now: int, later: int, credited: bool)
    requires Keyed(rows)
    ensures Drained(rows, now, later, credited)
            == match DueWork(rows, now)
               case None => rows
               case Some(i) =>
                 var w := rows[i];
                 rows[i := if credited then w.(status := Done)
                           else Work(w.key, w.request, w.receive, if w.attempts >= 7 then Quarantined else Pending,
                                     if w.attempts < 30 then w.attempts + 1 else 30,
                                     later + if w.attempts >= 7 then 3600 else Backoff(w.attempts), w.createdAt)]
  {
    if DueWork(rows, now).Some? {
      FinishIsExact(rows, DueWork(rows, now).value);
      RetryIsExact(rows, later, DueWork(rows, now).value, rows[DueWork(rows, now).value].attempts);
    }
  }

  // --- The scan ------------------------------------------------------------------------------

  /** A request without a scan row is due from its creation on, at offset 0. */
  lemma NeverScanned(r: S.Issued)
    requires r.scan == None
    ensures S.DueAt(r) == r.createdAt && S.Offset(r) == 0 && S.Attempts(r) == 0
  {
  }

  lemma ScannedBefore(r: S.Issued)
    requires r.scan.Some?
    ensures S.DueAt(r) == r.scan.value.nextAttempt && S.Offset(r) == r.scan.value.offset
    ensures S.Attempts(r) == r.scan.value.attempts
  {
  }

  predicate ScannedEarlier(a: S.Issued, b: S.Issued) {
    || S.DueAt(a) < S.DueAt(b)
    || (S.DueAt(a) == S.DueAt(b) && a.createdAt < b.createdAt)
    || (S.DueAt(a) == S.DueAt(b) && a.createdAt == b.createdAt && a.id < b.id)
  }

  lemma ScanOrderIsExact(rows: seq<S.Issued>, now: int)
    ensures S.DueScan(rows, now).Some? ==>
              var k := S.DueScan(rows, now).value;
              && k < |rows| && S.DueAt(rows[k]) <= now
              && forall i | 0 <= i < |rows| && S.DueAt(rows[i]) <= now :: !ScannedEarlier(rows[i], rows[k])
    ensures S.DueScan(rows, now) == None <==> forall i | 0 <= i < |rows| :: S.DueAt(rows[i]) > now
  {
  }

  /**
   A full page below offset 1,000,000 is followed by the next 100 a second later; any other page ends the
   cycle, which starts again at 0 after five minutes. A failure keeps the offset and backs off.
   */
  lemma ScanIsExact(r: S.Issued, count: nat, later: int)
    ensures S.AfterPage(r, count, later)
            == r.(scan := Some(if count == 100 && S.Offset(r) < 1_000_000 then S.Scan(S.Offset(r) + 100, 0, later + 1)
                               else S.Scan(0, 0, later + 300)))
    ensures S.AfterFailure(r, later)
            == r.(scan := Some(S.Scan(S.Offset(r), if S.Attempts(r) < 30 then S.Attempts(r) + 1 else 30,
                                      later + Backoff(S.Attempts(r)))))
  {
    BackoffIsExact(S.Attempts(r));
  }

  /** A step without a due request, or with a refused page, moves no scan row; otherwise exactly the due one. */
  lemma StepIsExact(w: S.World, now: int, later: int, reply: Option<seq<S.Receive>>)
    ensures var a := S.Step(w, now, later, reply);
            match S.DueScan(w.issued, now)
            case None => a == w
            case Some(i) =>
              match reply
              case None => a == S.World(w.issued[i := S.AfterFailure(w.issued[i], later)], w.inbox)
              case Some(page) =>
                var (inbox, ok) := S.EnqueueAll(w.inbox, later, w.issued[i].id, page);
                && a.inbox == inbox
                && a.issued == if ok then w.issued[i := S.AfterPage(w.issued[i], |page|, later)] else w.issued
  {
  }

  /** A new request joins the scan, due at once; one that is there already changes nothing. */
  lemma IssueIsScheduled(w: S.World, provider: S.Provider, at: int, id: Uuid)
    ensures var after := S.Apply(w, provider, S.Issue(at, id));
            && (exists i | 0 <= i < |after.issued| :: after.issued[i].id == id)
            && ((exists i | 0 <= i < |w.issued| :: w.issued[i].id == id) ==> after == w)
            && ((forall i | 0 <= i < |w.issued| :: w.issued[i].id != id) ==>
                  after == S.World(w.issued + [S.Issued(id, at, None)], w.inbox))
  {
    var after := S.Apply(w, provider, S.Issue(at, id));
    if i: nat :| i < |w.issued| && w.issued[i].id == id {
      assert after.issued[i].id == id;
    } else {
      assert after.issued[|w.issued|].id == id;
    }
  }

  /** Between scans the inbox runs as it does without them. */
  lemma {:induction false} WorkingRunsInbox(w: S.World, provider: S.Provider, ops: seq<S.Op>, work: seq<Op>)
    requires |ops| == |work| && forall k | 0 <= k < |ops| :: ops[k] == S.Working(work[k])
    ensures S.RunFrom(w, provider, ops) == S.World(w.issued, RunFrom(w.inbox, work))
  {
    if ops != [] {
      var last := |ops| - 1;
      WorkingRunsInbox(w, provider, ops[..last], work[..last]);
      assert ops[last] == S.Working(work[last]);
    }
  }
}
