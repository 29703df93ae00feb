/**
 * Boot: wait up to a minute for a predecessor that is still shutting down, then open. What the disk, the
 * probe and this process's own locks say, and how long a nap takes, are functions of time.
 */
module LockWait {
  import opened Basics
  import opened LockRules

  const POLL_MS := 500
  const BOOT_WAIT_MS := 60_000

  datatype Env = Env(
    own: nat,
    disk: int -> Option<LockFile>,
    probe: int -> set<int>,
    held: int -> bool,
    naps: nat -> nat
  )

  /** A timer never fires early. */
  ghost predicate TimersHold(env: Env) {
    forall i :: env.naps(i) >= POLL_MS
  }

  function FileAt(env: Env, t: int): Option<LockFile> {
    env.disk(t)
  }

  /** The poll reads the recorded pid and asks whether anybody can still be holding the lock. */
  predicate DeadAt(env: Env, t: int) {
    FileAt(env, t).Some? && IsFileDead(FileAt(env, t).value, env.own, env.probe(t), t)
  }

  predicate NothingToWaitFor(env: Env, deadline: int, t: int) {
    t >= deadline || FileAt(env, t).None? || env.held(t) || DeadAt(env, t)
  }

  /** When the wait that is awake at `t`, having slept `i` times, is over. */
  ghost function WaitEnds(env: Env, deadline: int, t: int, i: nat): int
    requires TimersHold(env)
    decreases deadline - t
  {
    if NothingToWaitFor(env, deadline, t) then t else WaitEnds(env, deadline, t + env.naps(i), i + 1)
  }

  /** The wait ends, and not before there is nothing to wait for or the time is up. */
  lemma {:induction false} WaitEndsProperly(env: Env, deadline: int, t: int, i: nat)
    requires TimersHold(env)
    ensures WaitEnds(env, deadline, t, i) >= t && NothingToWaitFor(env, deadline, WaitEnds(env, deadline, t, i))
    decreases deadline - t
  {
    if !NothingToWaitFor(env, deadline, t) {
      WaitEndsProperly(env, deadline, t + env.naps(i), i + 1);
    }
  }

  /** The `k`-th look at the lock: after so many naps. */
  function PollTime(env: Env, start: int, k: nat): int {
    if k == 0 then start else PollTime(env, start, k - 1) + env.naps(k - 1)
  }

  /** A reason to sleep: time is left, and a file is there that neither is this process's own nor reads as dead. */
  predicate KeepsWaiting(env: Env, deadline: int, t: int) {
    && t < deadline && env.disk(t).Some? && !env.held(t)
    && var file := env.disk(t).value;
       !IsLockDead(RecordedPid(file.text), env.own, env.probe(t), Some(file.mtime), t)
  }

  /** `end` is the first look that has no reason to sleep. */
  ghost predicate FirstFree(env: Env, deadline: int, start: int, end: int) {
    exists k: nat ::
      && end == PollTime(env, start, k) && !KeepsWaiting(env, deadline, end)
      && forall j: nat | j < k :: KeepsWaiting(env, deadline, PollTime(env, start, j))
  }

  /** Naps take time, so looks come one after the other. */
  lemma {:induction false} PollsGoOn(env: Env, start: int, j: nat, k: nat)
    requires TimersHold(env) && j <= k
    ensures PollTime(env, start, j) + POLL_MS * (k - j) <= PollTime(env, start, k)
  {
    if j < k { PollsGoOn(env, start, j, k - 1); }
  }

  /** There is one such look only. */
  lemma FirstFreeIsUnique(env: Env, deadline: int, start: int, a: int, b: int)
    requires FirstFree(env, deadline, start, a) && FirstFree(env, deadline, start, b)
    ensures a == b
  {
    var j: nat :| a == PollTime(env, start, j) && !KeepsWaiting(env, deadline, a)
        && forall i: nat | i < j :: KeepsWaiting(env, deadline, PollTime(env, start, i));
    var k: nat :| b == PollTime(env, start, k) && !KeepsWaiting(env, deadline, b)
        && forall i: nat | i < k :: KeepsWaiting(env, deadline, PollTime(env, start, i));
    assert !(j < k) && !(k < j);
  }

  /** The wait is over at once exactly when there is no time, no file, or nothing in the file to wait for. */
  lemma NoWaitExactlyWhen(env: Env, start: int, ms: nat, end: int)
    requires TimersHold(env) && FirstFree(env, start + ms, start, end)
    ensures end == start <==>
              || ms == 0 || env.disk(start).None? || env.held(start)
              || IsFileDead(env.disk(start).value, env.own, env.probe(start), start)
  {
    var k: nat :| end == PollTime(env, start, k) && !KeepsWaiting(env, start + ms, end)
        && forall j: nat | j < k :: KeepsWaiting(env, start + ms, PollTime(env, start, j));
    if k > 0 {
      assert KeepsWaiting(env, start + ms, PollTime(env, start, 0));
      PollsGoOn(env, start, 0, k);
    }
  }

  /** What the recursion above computes is that look. */
  lemma {:induction false} WaitEndsFirst(env: Env, start: int, deadline: int, k: nat)
    requires TimersHold(env)
    requires forall j: nat | j < k :: KeepsWaiting(env, deadline, PollTime(env, start, j))
    ensures FirstFree(env, deadline, start, WaitEnds(env, deadline, PollTime(env, start, k), k))
    decreases deadline - PollTime(env, start, k)
  {
    if KeepsWaiting(env, deadline, PollTime(env, start, k)) {
      WaitEndsFirst(env, start, deadline, k + 1);
    }
  }

  /** The boot's wait is over within one nap of the minute. */
  lemma WaitIsBounded(env: Env, deadline: int, start: int, end: int, longest: nat)
    requires TimersHold(env) && FirstFree(env, deadline, start, end) && start <= deadline
    requires forall i :: env.naps(i) <= longest
    ensures start <= end < deadline + longest || end == start
  {
    var k: nat :| end == PollTime(env, start, k) && !KeepsWaiting(env, deadline, end)
        && forall j: nat | j < k :: KeepsWaiting(env, deadline, PollTime(env, start, j));
    if k > 0 {
      assert KeepsWaiting(env, deadline, PollTime(env, start, k - 1));
      PollsGoOn(env, start, 0, k);
    }
  }

  method WaitForWriterLock(env: Env, start: int, ms: nat) returns (end: int)
    requires TimersHold(env)
    ensures end == WaitEnds(env, start + ms, start, 0)
    ensures FirstFree(env, start + ms, start, end)
  {
    var deadline := start + ms;
    ghost var goal := WaitEnds(env, deadline, start, 0);
    var i := 0;
    end := start;
    while end < deadline && FileAt(env, end).Some? && !env.held(end)
      invariant WaitEnds(env, deadline, end, i) == goal
      decreases deadline - end
    {
      var dead := DeadAt(env, end);
      if dead {
        break;
      }
      end, i := end + env.naps(i), i + 1;
    }
    WaitEndsFirst(env, start, deadline, 0);
  }

  /** The predecessor is gone by `start` and nobody else ever takes the lock: its file can only disappear. */
  ghost predicate OnlyTheCorpse(env: Env, start: int) {
    && (forall t | t >= start :: !env.held(t))
    && (forall t, u | start <= t <= u :: env.disk(u).Some? ==> env.disk(t) == env.disk(u))
  }

  /** The pid recorded in the lockfile was free at `t` and is somebody's at `u`. */
  predicate ReissuedBetween(env: Env, t: int, u: int) {
    && env.disk(u).Some?
    && var recorded := RecordedPid(env.disk(u).value.text);
       recorded.Some? && recorded.value !in env.probe(t) && recorded.value in env.probe(u)
  }

  predicate OpensAt(env: Env, t: int) {
    Open(env.disk(t), env.held(t), env.own, env.probe(t), t, NO_FAULTS).outcome == Opened
  }

  /**
   * A dead predecessor never bricks the boot: if its last beat was before the boot began, the wait
   * followed by the open takes the lock, even when a live stranger owns the recorded pid now. The
   * one thing excluded is that the recorded pid, free at the wait's last probe, is reissued before
   * the open; whatever else starts or stops in between does not matter.
   */
  lemma BootAlwaysReclaims(env: Env, start: int, end: int, openAt: int)
    requires TimersHold(env) && OnlyTheCorpse(env, start)
    requires env.disk(start).Some? ==> env.disk(start).value.mtime < start
    requires FirstFree(env, start + BOOT_WAIT_MS, start, end) && openAt >= end
    requires !ReissuedBetween(env, end, openAt)
    ensures OpensAt(env, openAt)
  {
    FirstFreeIsLater(env, start + BOOT_WAIT_MS, start, end);
    if env.disk(openAt).Some? {
      assert env.disk(start) == env.disk(openAt) && env.disk(end) == env.disk(openAt);
    }
  }

  lemma FirstFreeIsLater(env: Env, deadline: int, start: int, end: int)
    requires TimersHold(env) && FirstFree(env, deadline, start, end)
    ensures end >= start && !KeepsWaiting(env, deadline, end)
  {
    var k: nat :| end == PollTime(env, start, k) && !KeepsWaiting(env, deadline, end)
        && forall j: nat | j < k :: KeepsWaiting(env, deadline, PollTime(env, start, j));
    PollsGoOn(env, start, 0, k);
  }

  /** A predecessor's corpse whose pid now belongs to a stranger that stays alive. */
  ghost predicate StrangerWearsThePid(env: Env, file: LockFile) {
    && (forall t :: env.disk(t) == Some(file) && !env.held(t))
    && RecordedPid(file.text).Some?
    && var pid := RecordedPid(file.text).value;
       pid != env.own && forall t :: CouldBeOurSidecar(pid, env.probe(t))
  }

  lemma {:induction false} PunctualWait(env: Env, file: LockFile, start: int, t: int, i: nat)
    requires TimersHold(env) && StrangerWearsThePid(env, file)
    requires forall k :: env.naps(k) == POLL_MS
    requires t == start + i * POLL_MS && t <= start + BOOT_WAIT_MS && file.mtime >= start
    ensures WaitEnds(env, start + BOOT_WAIT_MS, t, i) == start + BOOT_WAIT_MS
    decreases start + BOOT_WAIT_MS - t
  {
    if t < start + BOOT_WAIT_MS {
      assert !NothingToWaitFor(env, start + BOOT_WAIT_MS, t);
      assert t + POLL_MS <= start + BOOT_WAIT_MS by {
        assert i < 120;
      }
      PunctualWait(env, file, start, t + POLL_MS, i + 1);
    }
  }

  /**
   * "Before" cannot be weakened to "at": with punctual timers the boot succeeds exactly when the last beat
   * precedes it.
   */
  lemma PunctualBootSucceedsExactlyWhen(env: Env, file: LockFile, start: int, end: int)
    requires TimersHold(env) && StrangerWearsThePid(env, file)
    requires forall k :: env.naps(k) == POLL_MS
    requires FirstFree(env, start + BOOT_WAIT_MS, start, end)
    ensures OpensAt(env, end) <==> file.mtime < start
  {
    if file.mtime >= start {
      PunctualWait(env, file, start, start, 0);
      WaitEndsFirst(env, start, start + BOOT_WAIT_MS, 0);
      FirstFreeIsUnique(env, start + BOOT_WAIT_MS, start, end, start + BOOT_WAIT_MS);
    } else {
      BootAlwaysReclaims(env, start, end, end);
    }
  }
}
