/**
 * The imperative half of the writer lock: the module-level `heldLocks` set, the lockfiles on
 * disk, and the connection whose `close` and heartbeat act on them. Every method is tied to
 * the rules of LockRules for its own lock path and leaves every other path alone.
 */
module LockOpen {
  import opened Basics
  import opened LockRules

  function At(locks: map<string, LockFile>, path: string): Option<LockFile> {
    if path in locks then Some(locks[path]) else None
  }

  function Put(locks: map<string, LockFile>, path: string, file: Option<LockFile>): map<string, LockFile> {
    if file.Some? then locks[path := file.value] else locks - {path}
  }

  ghost predicate SameElsewhere(a: map<string, LockFile>, b: map<string, LockFile>, path: string) {
    forall p | p != path :: At(a, p) == At(b, p)
  }

  /**
   * What a call leaves on disk and in `heldLocks`, outcome by outcome: the stamped file and an entry when
   * it opened; everything as it was when somebody holds the lock; no file when it could not be created; an
   * unstamped one when the pid could not be written; and after a database error no entry, and no file
   * either unless the unlink was refused.
   */
  ghost predicate Leaves(path: string, pid: nat, now: int, faults: Faults, outcome: Outcome,
      before: map<string, LockFile>, after: map<string, LockFile>, held: set<string>, held': set<string>)
  {
    && SameElsewhere(before, after, path)
    && match outcome
       case Opened =>
         At(after, path) == Some(LockFile(StampText(pid), now)) && held' == held + {path}
       case HeldByAnother => after == before && path in before && held' == held
       case CreateError => faults.createFails && path !in after && held' == held
       case StampError => faults.stampFails && At(after, path) == Some(LockFile("", now)) && held' == held
       case DatabaseError =>
         && faults.databaseFails && held' == held - {path}
         && At(after, path) == if faults.unlinkFails then Some(LockFile(StampText(pid), now)) else None
  }

  lemma OpenLeaves(path: string, pid: nat, signalable: set<int>, now: int, faults: Faults,
      before: map<string, LockFile>, held: set<string>)
    ensures var r := Open(At(before, path), path in held, pid, signalable, now, faults);
            Leaves(path, pid, now, faults, r.outcome, before, Put(before, path, r.file),
                   held, if r.held then held + {path} else held - {path})
  {
  }

  class Disk {
    var locks: map<string, LockFile>

    constructor (locks: map<string, LockFile>)
      ensures this.locks == locks
    {
      this.locks := locks;
    }
  }

  class Sidecar {
    const pid: nat
    const disk: Disk
    var heldLocks: set<string>

    constructor (pid: nat, disk: Disk)
      ensures this.pid == pid && this.disk == disk && heldLocks == {}
    {
      this.pid := pid;
      this.disk := disk;
      heldLocks := {};
    }

    /** `lockPath` is None for an in-memory database, which takes no lock. */
    method OpenDatabase(lockPath: Option<string>, signalable: set<int>, now: int, faults: Faults)
      returns (outcome: Outcome, db: Connection?)
      modifies this`heldLocks, disk`locks
      ensures outcome == Opened <==> db != null
      ensures db != null ==> fresh(db) && db.owner == this && db.lockPath == lockPath && db.beating == lockPath.Some?
      ensures lockPath.None? ==>
                && heldLocks == old(heldLocks) && disk.locks == old(disk.locks)
                && outcome == if faults.databaseFails then DatabaseError else Opened
      ensures lockPath.Some? ==>
                var path := lockPath.value;
                var r := Open(At(old(disk.locks), path), path in old(heldLocks), pid, signalable, now, faults);
                && outcome == r.outcome
                && disk.locks == Put(old(disk.locks), path, r.file)
                && heldLocks == if r.held then old(heldLocks) + {path} else old(heldLocks) - {path}
      ensures lockPath.Some? ==>
                Leaves(lockPath.value, pid, now, faults, outcome,
                       old(disk.locks), disk.locks, old(heldLocks), heldLocks)
    {
      if lockPath.Some? {
        OpenLeaves(lockPath.value, pid, signalable, now, faults, disk.locks, heldLocks);
      }
      db := null;
      if lockPath.Some? {
        var path := lockPath.value;
        RecoverStaleLock(path, signalable, now, faults);
        if path in disk.locks {
          return HeldByAnother, null;
        }
        if faults.createFails {
          return CreateError, null;
        }
        disk.locks := disk.locks[path := LockFile("", now)];
        if faults.stampFails {
          return StampError, null;
        }
        disk.locks := disk.locks[path := LockFile(StampText(pid), now)];
        heldLocks := heldLocks + {path};
      }
      if faults.databaseFails {
        // the lock, if one was taken, must not outlive this call
        ReleaseOnFailure(lockPath, faults.unlinkFails);
        return DatabaseError, null;
      }
      outcome := Opened;
      db := new Connection(this, lockPath);
    }

    method RecoverStaleLock(path: string, signalable: set<int>, now: int, faults: Faults)
      modifies disk`locks
      ensures var file := Recovered(At(old(disk.locks), path), path in heldLocks, pid, signalable, now, faults);
              disk.locks == Put(old(disk.locks), path, file)
    {
      if path in disk.locks {
        var recorded := RecordedPid(disk.locks[path].text);
        var weHoldIt := path in heldLocks;
        var stale := !weHoldIt && IsLockDead(recorded, pid, signalable, Some(disk.locks[path].mtime), now);
        if stale && !faults.unlinkFails {
          disk.locks := disk.locks - {path};
        }
      }
    }

    method ReleaseOnFailure(lockPath: Option<string>, unlinkFails: bool)
      modifies this`heldLocks, disk`locks
      ensures lockPath.None? ==> heldLocks == old(heldLocks) && disk.locks == old(disk.locks)
      ensures lockPath.Some? ==>
                && heldLocks == old(heldLocks) - {lockPath.value}
                && disk.locks == if unlinkFails then old(disk.locks) else old(disk.locks) - {lockPath.value}
    {
      if lockPath.Some? {
        heldLocks := heldLocks - {lockPath.value};
        if !unlinkFails {
          disk.locks := disk.locks - {lockPath.value};
        }
      }
    }
  }

  class Connection {
    const owner: Sidecar
    const lockPath: Option<string>
    var beating: bool

    constructor (owner: Sidecar, lockPath: Option<string>)
      ensures this.owner == owner && this.lockPath == lockPath && beating == lockPath.Some?
    {
      this.owner := owner;
      this.lockPath := lockPath;
      beating := lockPath.Some?;
    }

    /** One tick of the heartbeat timer touches whatever file is at the path now, whoever created it. */
    method Beat(now: int)
      requires beating && lockPath.Some?
      modifies owner.disk`locks
      ensures var before := At(old(owner.disk.locks), lockPath.value);
              owner.disk.locks == if before.None? then old(owner.disk.locks)
                                  else old(owner.disk.locks)[lockPath.value := before.value.(mtime := now)]
    {
      if lockPath.value in owner.disk.locks {
        owner.disk.locks := owner.disk.locks[lockPath.value := owner.disk.locks[lockPath.value].(mtime := now)];
      }
    }

    /**
     * Nothing remembers that the lock was already given back: a second call deletes the file at
     * the path again, and a database handle that refuses to close keeps the lock on disk.
     */
    method Close(databaseThrows: bool, unlinkFails: bool)
      modifies this`beating, owner`heldLocks, owner.disk`locks
      ensures !beating
      ensures databaseThrows || lockPath.None? ==>
                owner.heldLocks == old(owner.heldLocks) && owner.disk.locks == old(owner.disk.locks)
      ensures !databaseThrows && lockPath.Some? ==>
                && owner.heldLocks == old(owner.heldLocks) - {lockPath.value}
                && owner.disk.locks == if unlinkFails then old(owner.disk.locks)
                    else old(owner.disk.locks) - {lockPath.value}
    {
      beating := false;
      if !databaseThrows {
        owner.ReleaseOnFailure(lockPath, unlinkFails);
      }
    }
  }
}
