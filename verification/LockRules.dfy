/**
 * When is the writer lock dead, and what does `openDatabase` do to the lockfile? Pure rules. Of the
 * operating system there is only `signalable`: the pids of the user's live processes.
 */
module LockRules {
  import opened Basics
  import Decimal

  const LOCK_STALE_AFTER_MS := 60_000

  datatype LockFile = LockFile(text: string, mtime: int)

  /** What a sidecar writes into the lockfile it has just created. */
  function StampText(pid: nat): string {
    Decimal.Show(pid) + "\n"
  }

  function RecordedPid(text: string): Option<int> {
    Decimal.ParseInt(Decimal.Trim(text))
  }

  predicate CouldBeOurSidecar(pid: int, signalable: set<int>) {
    pid > 0 && pid in signalable
  }

  /** `mtime` is None when the file vanished before it could be examined. */
  predicate IsLockAbandoned(mtime: Option<int>, now: int) {
    mtime.None? || now - mtime.value > LOCK_STALE_AFTER_MS
  }

  predicate IsLockDead(recorded: Option<int>, own: int, signalable: set<int>, mtime: Option<int>, now: int) {
    || recorded.None?
    || recorded.value == own
    || !CouldBeOurSidecar(recorded.value, signalable)
    || IsLockAbandoned(mtime, now)
  }

  predicate IsFileDead(file: LockFile, own: int, signalable: set<int>, now: int) {
    IsLockDead(RecordedPid(file.text), own, signalable, Some(file.mtime), now)
  }

  /** A process reading its own stamp, or another's, gets back exactly the pid that was written. */
  lemma StampReadsBack(pid: nat)
    ensures RecordedPid(StampText(pid)) == Some(pid)
  {
    Decimal.ShowReadsBack(pid);
    var digits := Decimal.Show(pid);
    var text := StampText(pid);
    assert text[0] == digits[0] && Decimal.IsDigit(digits[0]) && Decimal.IsDigit(digits[|digits| - 1]);
    assert text[..|text| - 1] == digits;
    assert Decimal.TrimRight(text) == Decimal.TrimRight(digits) == digits;
    Decimal.ParseIntOfNumeral(pid);
  }

  /** A lockfile that exists but is not stamped yet is indistinguishable from garbage. */
  lemma UnstampedReadsAsDead(mtime: int, own: int, signalable: set<int>, now: int)
    ensures IsFileDead(LockFile("", mtime), own, signalable, now)
  {
  }

  // ---- one call of openDatabase on one lock path ----

  /** What can go wrong around the lock during one call. */
  datatype Faults = Faults(
    unlinkFails: bool,        // every unlink of the lockfile is refused (and swallowed)
    createFails: bool,        // the exclusive create fails with something other than EEXIST
    stampFails: bool,         // the lockfile was created but the pid could not be written
    databaseFails: bool       // SQLite refuses to open, the schema is newer, or a migration step throws
  )

  const NO_FAULTS := Faults(false, false, false, false)

  datatype Outcome = Opened | HeldByAnother | CreateError | StampError | DatabaseError

  datatype OpenResult = OpenResult(file: Option<LockFile>, held: bool, outcome: Outcome)

  /** The lockfile after stale-lock recovery. */
  function Recovered(file: Option<LockFile>, held: bool, own: nat, signalable: set<int>, now: int, faults: Faults)
    : Option<LockFile>
  {
    if file.Some? && !held && IsFileDead(file.value, own, signalable, now) && !faults.unlinkFails
    then None
    else file
  }

  /** The whole effect of one call: recovery, exclusive create, stamp, and release when a later step throws. */
  function Open(file: Option<LockFile>, held: bool, own: nat, signalable: set<int>, now: int, faults: Faults)
      : OpenResult {
    var left := Recovered(file, held, own, signalable, now, faults);
    if left.Some? then OpenResult(left, held, HeldByAnother)
    else if faults.createFails then OpenResult(None, held, CreateError)
    else if faults.stampFails then OpenResult(Some(LockFile("", now)), held, StampError)
    else
      var mine := Some(LockFile(StampText(own), now));
      if faults.databaseFails then OpenResult(if faults.unlinkFails then mine else None, false, DatabaseError)
      else OpenResult(mine, true, Opened)
  }

  /** When does a call get the lock? Exactly when nobody's file is in the way, or the one there is dead and not ours. */
  lemma OpensExactlyWhen(file: Option<LockFile>, held: bool, own: nat, signalable: set<int>, now: int)
    ensures Open(file, held, own, signalable, now, NO_FAULTS).outcome == Opened
       <==> file.None? || (!held && IsFileDead(file.value, own, signalable, now))
  {
  }

  /** Opening twice in one process: refused, with nothing touched, exactly while the lockfile is on disk. */
  lemma SecondOpenThrowsExactlyWhileFileExists(file: Option<LockFile>, own: nat, signalable: set<int>, now: int,
      faults: Faults)
    ensures var r := Open(file, true, own, signalable, now, faults);
            (r.outcome == HeldByAnother <==> file.Some?) && (file.Some? ==> r.file == file && r.held)
  {
  }

  /**
   * A call that created the lockfile and then threw gives the lock back (no file, no entry in
   * `heldLocks`) exactly when the pid had been written and the unlink was not refused: the
   * failed-write branch never reaches `releaseOnFailure`.
   */
  lemma ThrowAfterAcquisitionReleasesExactlyWhen(file: Option<LockFile>, held: bool, own: nat,
      signalable: set<int>, now: int, faults: Faults)
    requires Open(file, held, own, signalable, now, faults).outcome in {StampError, DatabaseError}
    ensures var r := Open(file, held, own, signalable, now, faults);
            (r.file.None? && !r.held) <==> (!faults.stampFails && !faults.unlinkFails)
  {
  }

  /**
   * Whatever a throwing call left behind, the next open by the same process succeeds, except exactly
   * when the process still counted the path as held, its file being gone, and the stamp failed: the
   * unstamped file then passes for its own, and no open by this process removes it.
   */
  lemma LeftoverAdmitsTheSameProcessExactlyWhen(file: Option<LockFile>, held: bool, own: nat,
      signalable: set<int>, now: int, faults: Faults, later: int, signalableLater: set<int>)
    requires Open(file, held, own, signalable, now, faults).outcome in {StampError, DatabaseError}
    ensures var r := Open(file, held, own, signalable, now, faults);
            Open(r.file, r.held, own, signalableLater, later, NO_FAULTS).outcome == Opened
            <==> !(held && faults.stampFails)
  {
    StampReadsBack(own);
  }

  /**
   * For any other process the leftover is just as harmless when it is the unstamped file; the
   * stamped file that a refused unlink left behind locks it out until it ages, if the pid is live.
   */
  lemma LeftoverForAnotherProcess(file: Option<LockFile>, held: bool, own: nat, signalable: set<int>, now: int,
      faults: Faults, other: nat, later: int, signalableLater: set<int>)
    requires Open(file, held, own, signalable, now, faults).outcome in {StampError, DatabaseError}
    requires other != own
    ensures var left := Open(file, held, own, signalable, now, faults).file;
            (Open(left, false, other, signalableLater, later, NO_FAULTS).outcome == Opened
             <==> (faults.stampFails || !faults.unlinkFails
                   || !CouldBeOurSidecar(own, signalableLater) || later - now > LOCK_STALE_AFTER_MS))
  {
    StampReadsBack(own);
  }
}
