/**
 Recoverable replacement of a set of files (deploy/scripts/inactive_file_transaction.py).

 A fingerprint (digest, owner, mode and attributes) stands for a file's version. The process may die,
 or its guard may raise, at every moment at which that matters, and other writers may act at the
 moments the script checks for; `Outside` says what happens. `os.replace` is atomic.
 */
module FileTransaction {
  import opened Wrappers

  type Path = string

  datatype Version = Version(sha: nat, metadata: nat)

  type Files = map<Path, Version>

  datatype Row = Row(destination: Path, oldVersion: Version, newVersion: Version)

  /** A retained copy `<index>.old` or `<index>.new`. */
  datatype Copy = Copy(index: nat, back: bool)

  datatype Directory = Directory(made: bool, copies: map<Copy, Version>, manifest: Option<seq<Row>>, lock: bool)

  const NOTHING: Directory := Directory(false, map[], None, false)

  datatype Replacement = Replacement(destination: Path, source: Path, expected: Version)

  datatype Moment =
    | Start
    | Before(index: nat)   // before row `index` is read
    | Staged(index: nat)   // while its replacement is staged
    | Checked(index: nat)  // between the last fingerprint check and the rename
    | After(index: nat)
    | Finish

  datatype Change = Change(removed: set<Path>, written: Files)

  datatype Outside = Outside(go: Moment -> bool, writes: Moment -> Change)

  function Disturb(files: Files, c: Change): Files { (files - c.removed) + c.written }

  function Target(row: Row, back: bool): Version { if back then row.oldVersion else row.newVersion }

  function VersionAt(files: Files, path: Path): Option<Version> {
    if path in files then Some(files[path]) else None
  }

  predicate Holds(files: Files, path: Path, v: Version) { path in files && files[path] == v }

  // --- Preparation -------------------------------------------------------------------

  predicate Unique(replacements: seq<Replacement>) {
    forall i, j | 0 <= i < j < |replacements| :: replacements[i].destination != replacements[j].destination
  }

  predicate Absolute(path: Path) { path != "" && path[0] == '/' }

  /** The checks of `prepare` before anything is created. */
  predicate Preparable(files: Files, replacements: seq<Replacement>) {
    && replacements != [] && Unique(replacements)
    && (forall r | r in replacements :: Absolute(r.destination))
    && (forall r | r in replacements :: Holds(files, r.destination, r.expected))
  }

  /** The source is there, and the destination still holds the version it is meant to replace. */
  predicate Ready(files: Files, r: Replacement) { r.source in files && Holds(files, r.destination, r.expected) }

  /** The step that copies row `k` succeeds. */
  predicate Copies(
      start: Files, writes: nat -> Change, alive: nat -> bool, replacements: seq<Replacement>, k: nat)
    requires k < |replacements|
  {
    alive(1 + k) && Ready(DisturbedBy(start, writes, k + 2), replacements[k])
  }

  /** The process survives every step of a preparation of `n` rows. */
  lemma SurvivesEachStep(
      start: Files, writes: nat -> Change, alive: nat -> bool, replacements: seq<Replacement>)
    ensures var n := |replacements|;
            (alive(0) && (forall k | 0 <= k < n :: Copies(start, writes, alive, replacements, k))
             && alive(1 + n) && alive(2 + n))
            <==> ((forall m: nat | m <= n + 2 :: alive(m))
                  && forall k | 0 <= k < n :: Ready(DisturbedBy(start, writes, k + 2), replacements[k]))
  {
    var n := |replacements|;
    if alive(0) && (forall k | 0 <= k < n :: Copies(start, writes, alive, replacements, k))
       && alive(1 + n) && alive(2 + n) {
      forall m: nat | m <= n + 2 ensures alive(m) {
        if 1 <= m <= n {
          assert Copies(start, writes, alive, replacements, m - 1);
        }
      }
      forall k | 0 <= k < n ensures Ready(DisturbedBy(start, writes, k + 2), replacements[k]) {
        assert Copies(start, writes, alive, replacements, k);
      }
    }
  }

  lemma PreparableIs(files: Files, replacements: seq<Replacement>)
    ensures Preparable(files, replacements) <==>
              && replacements != []
              && (forall i, j | 0 <= i < j < |replacements| ::
                    replacements[i].destination != replacements[j].destination)
              && (forall i | 0 <= i < |replacements| ::
                    && replacements[i].destination != "" && replacements[i].destination[0] == '/'
                    && Holds(files, replacements[i].destination, replacements[i].expected))
  {
    if Preparable(files, replacements) {
      forall i | 0 <= i < |replacements|
        ensures Absolute(replacements[i].destination)
        ensures Holds(files, replacements[i].destination, replacements[i].expected)
      {
        assert replacements[i] in replacements;
      }
    }
  }

  function RowFor(files: Files, r: Replacement): Row
    requires r.source in files
  {
    Row(r.destination, r.expected, r.expected.(sha := files[r.source].sha))
  }

  /** The files after other writers acted before each of the first `n` steps. */
  function DisturbedBy(files: Files, writes: nat -> Change, n: nat): Files {
    if n == 0 then files else Disturb(DisturbedBy(files, writes, n - 1), writes(n - 1))
  }

  /** The row was made from files that held the expected version at its destination. */
  predicate CopiedFrom(files: Files, r: Replacement, row: Row) {
    r.source in files && Holds(files, r.destination, r.expected) && row == RowFor(files, r)
  }

  function WithRow(copies: map<Copy, Version>, i: nat, row: Row): map<Copy, Version> {
    copies[Copy(i, true) := row.oldVersion][Copy(i, false) := row.newVersion]
  }

  /** The rows made so far, each from the files at its own step, with both copies retained. */
  predicate Copied(
      start: Files, writes: nat -> Change, replacements: seq<Replacement>, rows: seq<Row>, copies: map<Copy, Version>)
  {
    && |rows| <= |replacements| && Retained(copies, rows, |rows|)
    && forall k | 0 <= k < |rows| :: CopiedFrom(DisturbedBy(start, writes, k + 2), replacements[k], rows[k])
  }

  lemma CopiedGrows(
      start: Files, writes: nat -> Change, replacements: seq<Replacement>, rows: seq<Row>, copies: map<Copy, Version>,
      row: Row)
    requires Copied(start, writes, replacements, rows, copies) && |rows| < |replacements|
    requires CopiedFrom(DisturbedBy(start, writes, |rows| + 2), replacements[|rows|], row)
    ensures Copied(start, writes, replacements, rows + [row], WithRow(copies, |rows|, row))
  {
  }

  lemma DistinctRows(replacements: seq<Replacement>, rows: seq<Row>)
    requires Unique(replacements) && |rows| == |replacements|
    requires forall i | 0 <= i < |rows| :: rows[i].destination == replacements[i].destination
    ensures UniqueRows(rows)
  {
  }

  /** Without other writers a finished preparation leaves every destination at its recorded old version. */
  lemma {:induction false} QuietPreparation(files: Files, writes: nat -> Change, n: nat)
    requires forall k: nat :: writes(k) == Change({}, map[])
    ensures DisturbedBy(files, writes, n) == files
  {
    if n > 0 {
      QuietPreparation(files, writes, n - 1);
    }
  }

  lemma {:induction false} PreparedIsAtOld(
      files: Files, writes: nat -> Change, replacements: seq<Replacement>, rows: seq<Row>)
    requires (forall k: nat :: writes(k) == Change({}, map[])) && |rows| == |replacements|
    requires forall i | 0 <= i < |replacements| ::
               CopiedFrom(DisturbedBy(files, writes, i + 2), replacements[i], rows[i])
    ensures AllAt(files, rows, true)
  {
    forall i | 0 <= i < |rows| ensures Holds(files, rows[i].destination, rows[i].oldVersion) {
      QuietPreparation(files, writes, i + 2);
      assert CopiedFrom(DisturbedBy(files, writes, i + 2), replacements[i], rows[i]);
    }
  }

  /** Both copies of each of the first `n` rows are retained. */
  predicate Retained(copies: map<Copy, Version>, rows: seq<Row>, n: nat)
    requires n <= |rows|
  {
    forall i | 0 <= i < n ::
      && Copy(i, true) in copies && copies[Copy(i, true)] == rows[i].oldVersion
      && Copy(i, false) in copies && copies[Copy(i, false)] == rows[i].newVersion
  }

  predicate UniqueRows(rows: seq<Row>) {
    forall i, j | 0 <= i < j < |rows| :: rows[i].destination != rows[j].destination
  }

  /** A manifest is only ever seen complete: written last, over distinct rows whose copies are all there. */
  predicate Sound(d: Directory) {
    && (d.manifest.Some? ==>
          && d.made && UniqueRows(d.manifest.value)
          && Retained(d.copies, d.manifest.value, |d.manifest.value|))
    && (d.lock ==> d.manifest.Some?)
  }

  /** Where every destination is at one of its two versions. */
  predicate Known(files: Files, rows: seq<Row>) {
    forall i | 0 <= i < |rows| ::
      Holds(files, rows[i].destination, rows[i].oldVersion) || Holds(files, rows[i].destination, rows[i].newVersion)
  }

  predicate AllAt(files: Files, rows: seq<Row>, back: bool) {
    forall i | 0 <= i < |rows| :: Holds(files, rows[i].destination, Target(rows[i], back))
  }

  // --- Execution ---------------------------------------------------------------------

  /** One atomic rename onto a destination: the version that was there, if any, and the one it put there. */
  datatype Replaced = Replaced(index: nat, before: Option<Version>, after: Version)

  datatype Outcome = Outcome(files: Files, returned: bool, log: seq<Replaced>)

  /** The loop of `execute` from row `i` on. */
  function Resume(
      files: Files, d: Directory, rows: seq<Row>, i: nat, back: bool, o: Outside, log: seq<Replaced>)
    : Outcome
    requires i <= |rows|
    decreases |rows| - i
  {
    if i == |rows| then
      var last := Disturb(files, o.writes(Finish));
      Outcome(last, o.go(Finish) && AllAt(last, rows, back), log)
    else
      var row, target := rows[i], Target(rows[i], back);
      var found := Disturb(files, o.writes(Before(i)));
      if !o.go(Before(i)) || row.destination !in found then Outcome(found, false, log)
      else
        var actual := found[row.destination];
        if actual == target then Resume(found, d, rows, i + 1, back, o, log)
        else if actual != row.oldVersion && actual != row.newVersion then Outcome(found, false, log)
        else
          var staged := Disturb(found, o.writes(Staged(i)));
          if Copy(i, back) !in d.copies || d.copies[Copy(i, back)] != target || !o.go(Staged(i))
             || !Holds(staged, row.destination, actual) then
            Outcome(staged, false, log)
          else
            var checked := Disturb(staged, o.writes(Checked(i)));
            var replaced := checked[row.destination := target];
            var more := log + [Replaced(i, VersionAt(checked, row.destination), target)];
            if !o.go(After(i)) then Outcome(replaced, false, more)
            else Resume(replaced, d, rows, i + 1, back, o, more)
  }

  function Executed(files: Files, d: Directory, back: bool, o: Outside): Outcome {
    var found := Disturb(files, o.writes(Start));
    if !d.lock || d.manifest.None? || !o.go(Start) then Outcome(found, false, [])
    else
      var rows := d.manifest.value;
      if !Retained(d.copies, rows, |rows|) || !Known(found, rows) then Outcome(found, false, [])
      else Resume(found, d, rows, 0, back, o, [])
  }

  /** The file system and the transaction's directory. */
  class Host {
    var files: Files
    var directory: Directory

    constructor (existing: Files)
      ensures files == existing && directory == NOTHING
    {
      files, directory := existing, NOTHING;
    }

    /** Both copies of one row, each checked against its fingerprint. */
    method CopyRow(i: nat, r: Replacement, alive: bool, write: Change) returns (row: Option<Row>)
      modifies this
      ensures files == Disturb(old(files), write)
      ensures row.Some? <==> alive && r.source in files && Holds(files, r.destination, r.expected)
      ensures row.None? ==> directory == old(directory)
      ensures row.Some? ==>
                && CopiedFrom(files, r, row.value)
                && directory == old(directory).(copies := WithRow(old(directory).copies, i, row.value))
    {
      files := Disturb(files, write);
      if !alive || r.source !in files || !Holds(files, r.destination, r.expected) {
        return None;
      }
      row := Some(RowFor(files, r));
      directory := directory.(copies := WithRow(directory.copies, i, row.value));
    }

    method CopyRows(replacements: seq<Replacement>, alive: nat -> bool, writes: nat -> Change, ghost start: Files)
      returns (r: Result<seq<Row>>, ghost steps: nat)
      requires directory == Directory(true, map[], None, false) && files == DisturbedBy(start, writes, 1)
      modifies this
      ensures directory.made && directory.manifest.None? && !directory.lock
      ensures 1 <= steps <= |replacements| + 1 && files == DisturbedBy(start, writes, steps)
      ensures r.Ok? <==>
                forall k | 0 <= k < |replacements| :: Copies(start, writes, alive, replacements, k)
      ensures r.Ok? ==>
                |r.value| == |replacements| && Copied(start, writes, replacements, r.value, directory.copies)
    {
      var records: seq<Row>, i := [], 0;
      steps := 1;
      while i < |replacements|
        invariant 0 <= i <= |replacements| && |records| == i && steps == i + 1
        invariant directory.made && directory.manifest.None? && !directory.lock
        invariant files == DisturbedBy(start, writes, steps)
        invariant Copied(start, writes, replacements, records, directory.copies)
        invariant forall k | 0 <= k < i :: Copies(start, writes, alive, replacements, k)
      {
        ghost var copies := directory.copies;
        var row := CopyRow(i, replacements[i], alive(1 + i), writes(1 + i));
        steps := steps + 1;
        assert row.Some? <==> Copies(start, writes, alive, replacements, i);
        if row.None? {
          return Err, steps;
        }
        CopiedGrows(start, writes, replacements, records, copies, row.value);
        records := records + [row.value];
        i := i + 1;
      }
      r := Ok(records);
    }

    /**
     `alive(n)` is whether the process survives its n-th durable step, and `writes(n)` what other writers
     do before it. The script itself touches no destination, copies only what its check found, and leaves
     an interrupted preparation without a manifest or without a lock, so it can never be executed.
     */
    method Prepare(replacements: seq<Replacement>, alive: nat -> bool, writes: nat -> Change)
      returns (r: Result<seq<Row>>, ghost steps: nat)
      requires Sound(directory)
      modifies this
      ensures Sound(directory)
      ensures old(directory).made ==> r.Err? && directory == old(directory)
      ensures !Preparable(DisturbedBy(old(files), writes, 1), replacements) ==> r.Err? && directory == old(directory)
      ensures r.Err? && directory != old(directory) ==> !directory.lock
      ensures 1 <= steps <= |replacements| + 1 && files == DisturbedBy(old(files), writes, steps)
      ensures r.Ok? <==>
                && !old(directory).made && replacements != []
                && (forall i, j | 0 <= i < j < |replacements| ::
                      replacements[i].destination != replacements[j].destination)
                && (forall i | 0 <= i < |replacements| ::
                      && replacements[i].destination != "" && replacements[i].destination[0] == '/'
                      && Holds(DisturbedBy(old(files), writes, 1), replacements[i].destination,
                               replacements[i].expected))
                && (forall n: nat | n <= |replacements| + 2 :: alive(n))
                && (forall k | 0 <= k < |replacements| ::
                      var found := DisturbedBy(old(files), writes, k + 2);
                      && replacements[k].source in found
                      && Holds(found, replacements[k].destination, replacements[k].expected))
      ensures r.Ok? ==>
                && directory.manifest == Some(r.value) && directory.lock && |r.value| == |replacements|
                && forall i | 0 <= i < |replacements| ::
                     && CopiedFrom(DisturbedBy(old(files), writes, i + 2), replacements[i], r.value[i])
                     && r.value[i] == Row(replacements[i].destination, replacements[i].expected,
                                          Version(DisturbedBy(old(files), writes, i + 2)[replacements[i].source].sha,
                                                  replacements[i].expected.metadata))
    {
      files := Disturb(files, writes(0));
      steps := 1;
      assert files == DisturbedBy(old(files), writes, 1) by {
        assert DisturbedBy(old(files), writes, 0) == old(files);
      }
      SurvivesEachStep(old(files), writes, alive, replacements);
      PreparableIs(files, replacements);
      if directory.made || !Preparable(files, replacements) || !alive(0) {
        return Err, steps;
      }
      directory := Directory(true, map[], None, false);
      r, steps := CopyRows(replacements, alive, writes, old(files));
      if r.Err? || !alive(1 + |replacements|) {
        return Err, steps;
      }
      directory := directory.(manifest := Some(r.value));
      assert UniqueRows(r.value) by {
        DistinctRows(replacements, r.value);
      }
      if !alive(2 + |replacements|) {
        return Err, steps;
      }
      directory := directory.(lock := true);
    }

    method Execute(back: bool, o: Outside) returns (returned: bool, log: seq<Replaced>)
      modifies this`files
      ensures Outcome(files, returned, log) == Executed(old(files), directory, back, o)
    {
      returned, log := false, [];
      files := Disturb(files, o.writes(Start));
      if !directory.lock || directory.manifest.None? || !o.go(Start) {
        return;
      }
      var rows := directory.manifest.value;
      if !Retained(directory.copies, rows, |rows|) || !Known(files, rows) {
        return;
      }
      var i := 0;
      ghost var found := files;
      while i < |rows|
        invariant 0 <= i <= |rows| && !returned
        invariant Resume(files, directory, rows, i, back, o, log) == Resume(found, directory, rows, 0, back, o, [])
      {
        var row, target := rows[i], Target(rows[i], back);
        files := Disturb(files, o.writes(Before(i)));
        if !o.go(Before(i)) || row.destination !in files {
          return;
        }
        var actual := files[row.destination];
        if actual != target {
          if actual != row.oldVersion && actual != row.newVersion {
            return;
          }
          files := Disturb(files, o.writes(Staged(i)));
          if Copy(i, back) !in directory.copies || directory.copies[Copy(i, back)] != target || !o.go(Staged(i)) {
            return;
          }
          if !Holds(files, row.destination, actual) {
            return;
          }
          files := Disturb(files, o.writes(Checked(i)));
          log := log + [Replaced(i, VersionAt(files, row.destination), target)];
          files := files[row.destination := target];
          if !o.go(After(i)) {
            return;
          }
        }
        i := i + 1;
      }
      files := Disturb(files, o.writes(Finish));
      returned := o.go(Finish) && AllAt(files, rows, back);
    }
  }

  /**
   No file is renamed unless the lock is held over a manifest, both copies of every row are as recorded, and
   every destination is at its old or its new version.
   */
  lemma StartIsExact(files: Files, d: Directory, back: bool, o: Outside)
    ensures var found := Disturb(files, o.writes(Start));
            (&& d.lock && d.manifest.Some? && o.go(Start)
             && forall i | 0 <= i < |d.manifest.value| ::
                  var row := d.manifest.value[i];
                  && Copy(i, true) in d.copies && d.copies[Copy(i, true)] == row.oldVersion
                  && Copy(i, false) in d.copies && d.copies[Copy(i, false)] == row.newVersion
                  && row.destination in found
                  && (found[row.destination] == row.oldVersion || found[row.destination] == row.newVersion))
            || Executed(files, d, back, o) == Outcome(found, false, [])
  {
  }

  // --- Nobody else writes ------------------------------------------------------------

  ghost predicate Alone(o: Outside) { forall m :: o.writes(m) == Change({}, map[]) }

  /** Outside the destinations nothing differs. */
  predicate SameElsewhere(before: Files, after: Files, rows: seq<Row>) {
    && before.Keys == after.Keys
    && forall p | p in before && (forall i | 0 <= i < |rows| :: rows[i].destination != p) :: after[p] == before[p]
  }

  lemma Undisturbed(files: Files, o: Outside, m: Moment)
    requires Alone(o)
    ensures Disturb(files, o.writes(m)) == files
  {
  }

  /** One replacement keeps every destination at one of its versions. */
  lemma ReplaceKeepsKnown(files: Files, rows: seq<Row>, i: nat, back: bool)
    requires i < |rows| && Known(files, rows) && UniqueRows(rows)
    ensures var replaced := files[rows[i].destination := Target(rows[i], back)];
            Known(replaced, rows) && SameElsewhere(files, replaced, rows)
  {
  }

  lemma {:induction false} ResumeKeepsKnown(
      files: Files, d: Directory, rows: seq<Row>, i: nat, back: bool, o: Outside, log: seq<Replaced>)
    requires i <= |rows| && Known(files, rows) && UniqueRows(rows) && Alone(o)
    ensures var after := Resume(files, d, rows, i, back, o, log);
            && Known(after.files, rows) && SameElsewhere(files, after.files, rows)
            && (after.returned ==> AllAt(after.files, rows, back))
    decreases |rows| - i
  {
    Undisturbed(files, o, Finish);
    Undisturbed(files, o, Before(i));
    Undisturbed(files, o, Staged(i));
    Undisturbed(files, o, Checked(i));
    if i < |rows| {
      var replaced := files[rows[i].destination := Target(rows[i], back)];
      if files[rows[i].destination] == Target(rows[i], back) {
        ResumeKeepsKnown(files, d, rows, i + 1, back, o, log);
      } else if Copy(i, back) in d.copies && d.copies[Copy(i, back)] == Target(rows[i], back)
                && o.go(Before(i)) && o.go(Staged(i)) {
        ReplaceKeepsKnown(files, rows, i, back);
        if o.go(After(i)) {
          ResumeKeepsKnown(replaced, d, rows, i + 1, back, o,
                           log + [Replaced(i, Some(files[rows[i].destination]), Target(rows[i], back))]);
        }
      }
    }
  }

  /** One run of `execute`: its direction and what happened around it. */
  datatype Attempt = Attempt(back: bool, outside: Outside)

  function RunAll(files: Files, d: Directory, attempts: seq<Attempt>): Files {
    if attempts == [] then files
    else
      var before, last := RunAll(files, d, attempts[..|attempts| - 1]), attempts[|attempts| - 1];
      Executed(before, d, last.back, last.outside).files
  }

  lemma ExecuteKeepsKnown(files: Files, d: Directory, back: bool, o: Outside)
    requires Sound(d) && d.manifest.Some? && Known(files, d.manifest.value) && Alone(o)
    ensures var rows, after := d.manifest.value, Executed(files, d, back, o);
            && Known(after.files, rows) && SameElsewhere(files, after.files, rows)
            && (after.returned ==> AllAt(after.files, rows, back))
  {
    Undisturbed(files, o, Start);
    ResumeKeepsKnown(files, d, d.manifest.value, 0, back, o, []);
  }

  /** After any sequence of interrupted runs in either direction each destination is exactly old or new. */
  lemma {:induction false} InterruptedRunsKeepVersions(files: Files, d: Directory, attempts: seq<Attempt>)
    requires Sound(d) && d.manifest.Some? && Known(files, d.manifest.value)
    requires forall a | a in attempts :: Alone(a.outside)
    ensures Known(RunAll(files, d, attempts), d.manifest.value)
    ensures SameElsewhere(files, RunAll(files, d, attempts), d.manifest.value)
  {
    if attempts != [] {
      var front, last := attempts[..|attempts| - 1], attempts[|attempts| - 1];
      InterruptedRunsKeepVersions(files, d, front);
      ExecuteKeepsKnown(RunAll(files, d, front), d, last.back, last.outside);
    }
  }

  /** A rollback that returns, after any partial applies and rollbacks, restores every file exactly. */
  lemma {:induction false} RollbackRestoresEverything(files: Files, d: Directory, attempts: seq<Attempt>, o: Outside)
    requires Sound(d) && d.manifest.Some? && AllAt(files, d.manifest.value, true) && Alone(o)
    requires forall a | a in attempts :: Alone(a.outside)
    requires Executed(RunAll(files, d, attempts), d, true, o).returned
    ensures Executed(RunAll(files, d, attempts), d, true, o).files == files
  {
    var rows := d.manifest.value;
    InterruptedRunsKeepVersions(files, d, attempts);
    var before := RunAll(files, d, attempts);
    ExecuteKeepsKnown(before, d, true, o);
    var after := Executed(before, d, true, o).files;
    forall p | p in files ensures after[p] == files[p] {
      if i :| 0 <= i < |rows| && rows[i].destination == p {
        assert Holds(after, p, rows[i].oldVersion) && Holds(files, p, rows[i].oldVersion);
      }
    }
  }

  // --- Progress ----------------------------------------------------------------------

  ghost predicate Unharmed(o: Outside) { Alone(o) && forall m :: o.go(m) }

  lemma {:induction false} ResumeReturns(
      files: Files, d: Directory, rows: seq<Row>, i: nat, back: bool, o: Outside, log: seq<Replaced>)
    requires i <= |rows| && Known(files, rows) && UniqueRows(rows) && Retained(d.copies, rows, |rows|) && Unharmed(o)
    requires forall k | 0 <= k < i :: Holds(files, rows[k].destination, Target(rows[k], back))
    ensures Resume(files, d, rows, i, back, o, log).returned
    decreases |rows| - i
  {
    Undisturbed(files, o, Finish);
    Undisturbed(files, o, Before(i));
    Undisturbed(files, o, Staged(i));
    Undisturbed(files, o, Checked(i));
    if i < |rows| {
      var target := Target(rows[i], back);
      if files[rows[i].destination] == target {
        ResumeReturns(files, d, rows, i + 1, back, o, log);
      } else {
        ReplaceKeepsKnown(files, rows, i, back);
        ResumeReturns(files[rows[i].destination := target], d, rows, i + 1, back, o,
                      log + [Replaced(i, Some(files[rows[i].destination]), target)]);
      }
    }
  }

  /** Left alone, a prepared transaction completes in the requested direction after any interruptions. */
  lemma {:induction false} UninterruptedRunCompletes(
      files: Files, d: Directory, attempts: seq<Attempt>, back: bool, o: Outside)
    requires Sound(d) && d.lock && AllAt(files, d.manifest.value, true) && Unharmed(o)
    requires forall a | a in attempts :: Alone(a.outside)
    ensures var after := Executed(RunAll(files, d, attempts), d, back, o);
            after.returned && AllAt(after.files, d.manifest.value, back)
  {
    InterruptedRunsKeepVersions(files, d, attempts);
    var before := RunAll(files, d, attempts);
    Undisturbed(before, o, Start);
    ResumeReturns(before, d, d.manifest.value, 0, back, o, []);
    ExecuteKeepsKnown(before, d, back, o);
  }

  /** Without other writers a row can be copied at its step exactly when it can be copied now. */
  lemma QuietRowsAreReady(files: Files, writes: nat -> Change, replacements: seq<Replacement>)
    requires forall k: nat :: writes(k) == Change({}, map[])
    ensures forall k | 0 <= k < |replacements| ::
              Ready(DisturbedBy(files, writes, k + 2), replacements[k]) <==> Ready(files, replacements[k])
  {
    forall k | 0 <= k < |replacements|
      ensures Ready(DisturbedBy(files, writes, k + 2), replacements[k]) <==> Ready(files, replacements[k])
    {
      QuietPreparation(files, writes, k + 2);
    }
  }

  lemma QuietTarget(
      files: Files, writes: nat -> Change, n: nat, replacement: Replacement, row: Row, back: bool)
    requires forall k: nat :: writes(k) == Change({}, map[])
    requires CopiedFrom(DisturbedBy(files, writes, n), replacement, row)
    ensures replacement.source in files && row.destination == replacement.destination
    ensures Target(row, back) == if back then replacement.expected
                                 else Version(files[replacement.source].sha, replacement.expected.metadata)
  {
    QuietPreparation(files, writes, n);
  }

  /** What a quiet preparation returned can be applied or rolled back, after any interruptions. */
  lemma PreparedRunCompletes(
      files: Files, writes: nat -> Change, replacements: seq<Replacement>, d: Directory, attempts: seq<Attempt>,
      back: bool, o: Outside)
    requires Sound(d) && d.lock && |d.manifest.value| == |replacements|
    requires forall k: nat :: writes(k) == Change({}, map[])
    requires forall i | 0 <= i < |replacements| ::
               CopiedFrom(DisturbedBy(files, writes, i + 2), replacements[i], d.manifest.value[i])
    requires Unharmed(o) && forall a | a in attempts :: Alone(a.outside)
    ensures var after := Executed(RunAll(files, d, attempts), d, back, o);
            && after.returned
            && forall i | 0 <= i < |replacements| ::
                 && replacements[i].source in files
                 && Holds(after.files, replacements[i].destination,
                          if back then replacements[i].expected
                          else Version(files[replacements[i].source].sha, replacements[i].expected.metadata))
  {
    PreparedIsAtOld(files, writes, replacements, d.manifest.value);
    UninterruptedRunCompletes(files, d, attempts, back, o);
    forall i | 0 <= i < |replacements|
      ensures replacements[i].source in files
      ensures d.manifest.value[i].destination == replacements[i].destination
      ensures Target(d.manifest.value[i], back)
              == if back then replacements[i].expected
                 else Version(files[replacements[i].source].sha, replacements[i].expected.metadata)
    {
      QuietTarget(files, writes, i + 2, replacements[i], d.manifest.value[i], back);
    }
  }

  // --- Other writers -----------------------------------------------------------------

  predicate Recorded(v: Version, row: Row) { v == row.oldVersion || v == row.newVersion }

  /** The rename put the requested version over a recorded one, or where no file was. */
  predicate KnownReplaced(r: Replaced, rows: seq<Row>, back: bool) {
    && r.index < |rows| && r.after == Target(rows[r.index], back)
    && (r.before.Some? ==> Recorded(r.before.value, rows[r.index]))
  }

  predicate OnlyKnownReplaced(log: seq<Replaced>, rows: seq<Row>, back: bool) {
    forall r | r in log :: KnownReplaced(r, rows, back)
  }

  /** The change leaves a version at the row's destination that the manifest does not record. */
  predicate LeavesDrift(c: Change, row: Row) {
    row.destination in c.written && !Recorded(c.written[row.destination], row)
  }

  /** The renames reached are the logged ones: no writer slipped drift in right before one of them. */
  predicate NoneSlippedIn(log: seq<Replaced>, rows: seq<Row>, o: Outside) {
    forall r | r in log :: r.index < |rows| && !LeavesDrift(o.writes(Checked(r.index)), rows[r.index])
  }

  /** A rename replaces drift exactly when a writer left it between the check and the rename. */
  lemma RenameReplaces(staged: Files, row: Row, c: Change, rows: seq<Row>, i: nat, back: bool)
    requires i < |rows| && rows[i] == row
    requires row.destination in staged && Recorded(staged[row.destination], row)
    ensures KnownReplaced(Replaced(i, VersionAt(Disturb(staged, c), row.destination), Target(row, back)), rows, back)
            <==> !LeavesDrift(c, row)
  {
  }

  /** Every entry the run adds to the log overwrites drift exactly when drift slipped in. */
  lemma {:induction false} ResumeReplaces(
      files: Files, d: Directory, rows: seq<Row>, i: nat, back: bool, o: Outside, log: seq<Replaced>)
    requires i <= |rows| && (forall r | r in log :: r.index < |rows|)
    requires forall r | r in log ::
               KnownReplaced(r, rows, back) <==> !LeavesDrift(o.writes(Checked(r.index)), rows[r.index])
    ensures var after := Resume(files, d, rows, i, back, o, log).log;
            forall r | r in after ::
              && r.index < |rows|
              && (KnownReplaced(r, rows, back) <==> !LeavesDrift(o.writes(Checked(r.index)), rows[r.index]))
    decreases |rows| - i
  {
    if i < |rows| {
      var row, target := rows[i], Target(rows[i], back);
      var found := Disturb(files, o.writes(Before(i)));
      if o.go(Before(i)) && row.destination in found {
        var actual := found[row.destination];
        if actual == target {
          ResumeReplaces(found, d, rows, i + 1, back, o, log);
        } else if Recorded(actual, row) {
          var staged := Disturb(found, o.writes(Staged(i)));
          if Holds(staged, row.destination, actual) {
            RenameReplaces(staged, row, o.writes(Checked(i)), rows, i, back);
            var checked := Disturb(staged, o.writes(Checked(i)));
            ResumeReplaces(checked[row.destination := target], d, rows, i + 1, back, o,
                           log + [Replaced(i, VersionAt(checked, row.destination), target)]);
          }
        }
      }
    }
  }

  lemma {:induction false} ReturnedIsAtTarget(
      files: Files, d: Directory, rows: seq<Row>, i: nat, back: bool, o: Outside, log: seq<Replaced>)
    requires i <= |rows| && Resume(files, d, rows, i, back, o, log).returned
    ensures AllAt(Resume(files, d, rows, i, back, o, log).files, rows, back)
    decreases |rows| - i
  {
    if i < |rows| {
      var row, target := rows[i], Target(rows[i], back);
      var found := Disturb(files, o.writes(Before(i)));
      if found[row.destination] == target {
        ReturnedIsAtTarget(found, d, rows, i + 1, back, o, log);
      } else {
        var checked := Disturb(Disturb(found, o.writes(Staged(i))), o.writes(Checked(i)));
        ReturnedIsAtTarget(checked[row.destination := target], d, rows, i + 1, back, o,
                           log + [Replaced(i, VersionAt(checked, row.destination), target)]);
      }
    }
  }

  /**
   Other writers may act at every moment. Only recorded versions are replaced if and only if none of
   them leaves drift at a destination between its last check and its rename: drift that is there at any
   check is never overwritten. A run that returns leaves every destination at the requested version,
   and drift present at the start stops the run before it changes anything.
   */
  lemma {:induction false} DriftIsOverwrittenOnlyUnchecked(files: Files, d: Directory, back: bool, o: Outside)
    requires d.manifest.Some?
    ensures var rows, after := d.manifest.value, Executed(files, d, back, o);
            && (OnlyKnownReplaced(after.log, rows, back) <==> NoneSlippedIn(after.log, rows, o))
            && (after.returned ==> AllAt(after.files, rows, back))
            && (!Known(Disturb(files, o.writes(Start)), rows) ==>
                  !after.returned && after.files == Disturb(files, o.writes(Start)) && after.log == [])
  {
    var rows, found := d.manifest.value, Disturb(files, o.writes(Start));
    ResumeReplaces(found, d, rows, 0, back, o, []);
    if Executed(files, d, back, o).returned {
      ReturnedIsAtTarget(found, d, rows, 0, back, o, []);
    }
  }

  // --- A writer between the check and the rename ---------------------------------------

  const RACED: Row := Row("/f", Version(1, 0), Version(2, 0))
  const RACED_DIRECTORY: Directory :=
    Directory(true, map[Copy(0, true) := Version(1, 0), Copy(0, false) := Version(2, 0)], Some([RACED]), true)

  /** Version 3 is written right before the rename. */
  function Intruder(m: Moment): Change {
    Change({}, if m == Checked(0) then map["/f" := Version(3, 0)] else map[])
  }

  /** The condition can fail: this write of a foreign version is lost, and the run still returns. */
  lemma UncheckedWriteIsLost()
    ensures Executed(map["/f" := Version(1, 0)], RACED_DIRECTORY, false, Outside(m => true, Intruder))
            == Outcome(map["/f" := Version(2, 0)], true, [Replaced(0, Some(Version(3, 0)), Version(2, 0))])
    ensures LeavesDrift(Intruder(Checked(0)), RACED)
  {
    var o, before := Outside(m => true, Intruder), map["/f" := Version(1, 0)];
    assert Disturb(before, o.writes(Start)) == before && Disturb(before, o.writes(Before(0))) == before;
    assert Disturb(before, o.writes(Staged(0))) == before;
    assert Disturb(before, o.writes(Checked(0))) == map["/f" := Version(3, 0)];
    var renamed := map["/f" := Version(3, 0)]["/f" := Version(2, 0)];
    assert renamed == map["/f" := Version(2, 0)];
    assert Disturb(renamed, o.writes(Finish)) == renamed;
    var rows, log := [RACED], [Replaced(0, Some(Version(3, 0)), Version(2, 0))];
    assert Resume(renamed, RACED_DIRECTORY, rows, 1, false, o, log) == Outcome(renamed, true, log);
    assert [] + log == log;
    assert Resume(before, RACED_DIRECTORY, rows, 0, false, o, []) == Outcome(renamed, true, log);
    assert Holds(before, "/f", Version(1, 0)) && Known(before, rows);
    assert Retained(RACED_DIRECTORY.copies, rows, 1);
  }
}
