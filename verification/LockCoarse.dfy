/**
 * The writer lock as a transition system over processes, one lockfile and a clock, with
 * recovery, create and stamp taken as one step. Processes crash, pids are reissued once their
 * owner is dead, and time passes arbitrarily.
 */
module LockCoarse {
  import opened Basics
  import opened LockRules

  datatype Proc = Proc(
    pid: nat,
    user: nat,
    alive: bool,
    held: bool,        // the lock path is in this process's heldLocks
    serving: bool,     // an opened, not yet closed, database connection
    beating: bool,     // its heartbeat timer is running
    closedOnce: bool,  // it has a connection object that was already closed
    lastBeat: int      // when it last opened or beat: history, read by no rule
  )

  /** `creator` is history: the process whose exclusive create made the file. */
  datatype OwnedFile = OwnedFile(lock: LockFile, creator: nat)

  datatype World = World(now: int, file: Option<OwnedFile>, procs: map<nat, Proc>)

  datatype Step =
    | Spawn(id: nat, pid: nat, user: nat)
    | Tick(ms: nat)
    | Beat(id: nat)
    | OpenDb(id: nat, faults: Faults)
    | CloseDb(id: nat, databaseThrows: bool, unlinkFails: bool)
    | CloseAgain(id: nat, unlinkFails: bool)
    | Crash(id: nat)

  predicate Live(w: World, id: nat) {
    id in w.procs && w.procs[id].alive
  }

  predicate Serving(w: World, id: nat) {
    Live(w, id) && w.procs[id].serving
  }

  function Signalable(w: World, user: nat): set<int> {
    set id | id in w.procs && w.procs[id].alive && w.procs[id].user == user :: w.procs[id].pid
  }

  ghost predicate Enabled(w: World, s: Step) {
    match s
    case Spawn(id, pid, _) => id !in w.procs && pid > 0 && forall j | Live(w, j) :: w.procs[j].pid != pid
    case Tick(_) => true
    case Beat(id) => Serving(w, id) && w.procs[id].beating
    case OpenDb(id, _) => Live(w, id)
    case CloseDb(id, _, _) => Serving(w, id)
    case CloseAgain(id, _) => Live(w, id) && w.procs[id].closedOnce
    case Crash(id) => Live(w, id)
  }

  function OpenBy(w: World, id: nat, faults: Faults): OpenResult
    requires id in w.procs
  {
    var p := w.procs[id];
    Open(if w.file.Some? then Some(w.file.value.lock) else None, p.held, p.pid, Signalable(w, p.user), w.now, faults)
  }

  ghost function Apply(w: World, s: Step): World
    requires Enabled(w, s)
  {
    match s
    case Spawn(id, pid, user) => w.(procs := w.procs[id := Proc(pid, user, true, false, false, false, false, w.now)])
    case Tick(ms) => w.(now := w.now + ms)
    case Beat(id) =>
      World(w.now,
            if w.file.Some? then Some(w.file.value.(lock := w.file.value.lock.(mtime := w.now))) else None,
            w.procs[id := w.procs[id].(lastBeat := w.now)])
    case OpenDb(id, faults) =>
      var r := OpenBy(w, id, faults);
      var p := w.procs[id];
      World(w.now,
            if r.outcome == HeldByAnother then w.file
            else if r.file.Some? then Some(OwnedFile(r.file.value, id)) else None,
            w.procs[id := if r.outcome == Opened
                then p.(held := true, serving := true, beating := true, lastBeat := w.now)
                          else p.(held := r.held)])
    case CloseDb(id, databaseThrows, unlinkFails) =>
      var quiet := w.procs[id].(beating := false);
      if databaseThrows then w.(procs := w.procs[id := quiet])
      else World(w.now, if unlinkFails then w.file else None,
                 w.procs[id := quiet.(held := false, serving := false, closedOnce := true)])
    case CloseAgain(id, unlinkFails) =>
      World(w.now, if unlinkFails then w.file else None, w.procs[id := w.procs[id].(held := false)])
    case Crash(id) => w.(procs := w.procs[id := w.procs[id].(alive := false)])
  }

  ghost predicate PidsDistinct(w: World) {
    forall i, j | Live(w, i) && Live(w, j) && w.procs[i].pid == w.procs[j].pid :: i == j
  }

  /** A process that serves has its own, correctly stamped file on disk, as fresh as its last beat. */
  predicate Guarded(w: World, i: nat) {
    Live(w, i) ==>
      && w.procs[i].pid > 0
      && w.procs[i].held == w.procs[i].serving
      && (w.procs[i].serving ==>
            && w.file.Some? && w.file.value.creator == i
            && RecordedPid(w.file.value.lock.text) == Some(w.procs[i].pid)
            && w.file.value.lock.mtime == w.procs[i].lastBeat)
  }

  ghost predicate Protected(w: World) {
    PidsDistinct(w) && forall i :: Guarded(w, i)
  }

  predicate AtMostOneWriter(w: World) {
    forall i, j | i in w.procs && j in w.procs && Serving(w, i) && Serving(w, j) :: i == j
  }

  predicate Recent(w: World, id: nat)
    requires id in w.procs
  {
    w.now - w.procs[id].lastBeat <= LOCK_STALE_AFTER_MS
  }

  /**
   * What the operator must provide at each step: nobody opens while another process serves with
   * a heartbeat older than a minute or under another user, and no connection is closed a second
   * time while somebody serves (if the unlink fails, while the same process serves).
   */
  ghost predicate Disciplined(w: World, s: Step) {
    match s
    case OpenDb(id, faults) =>
      faults.unlinkFails ||
      forall h | Serving(w, h) && h != id && id in w.procs :: Recent(w, h) && w.procs[h].user == w.procs[id].user
    case CloseAgain(id, unlinkFails) => forall h | Serving(w, h) :: unlinkFails && h != id
    case _ => true
  }

  /** From a protected world, a step keeps the protection exactly when it is disciplined. */
  lemma StepProtectsExactlyWhenDisciplined(w: World, s: Step)
    requires Protected(w) && Enabled(w, s)
    ensures Protected(Apply(w, s)) <==> Disciplined(w, s)
  {
    match s {
      case OpenDb(id, faults) => OpenProtectsExactlyWhenDisciplined(w, id, faults);
      case CloseAgain(id, unlinkFails) => CloseAgainProtectsExactlyWhenDisciplined(w, id, unlinkFails);
      case _ => HarmlessStepProtects(w, s);
    }
  }

  lemma HarmlessStepProtects(w: World, s: Step)
    requires Protected(w) && Enabled(w, s) && !s.OpenDb? && !s.CloseAgain?
    ensures Protected(Apply(w, s))
  {
    var w' := Apply(w, s);
    forall i ensures Guarded(w', i) {
      assert Guarded(w, i);
      if s.Beat? || s.CloseDb? { assert Guarded(w, s.id); }
    }
  }

  lemma CloseAgainProtectsExactlyWhenDisciplined(w: World, id: nat, unlinkFails: bool)
    requires Protected(w) && Enabled(w, CloseAgain(id, unlinkFails))
    ensures Protected(Apply(w, CloseAgain(id, unlinkFails))) <==> Disciplined(w, CloseAgain(id, unlinkFails))
  {
    var w' := Apply(w, CloseAgain(id, unlinkFails));
    if h :| Serving(w, h) && !(unlinkFails && h != id) {
      assert Guarded(w, h) && !Guarded(w', h);
    } else {
      assert !Serving(w, id);
      forall i ensures Guarded(w', i) {
        assert Guarded(w, i) && (Serving(w, i) ==> unlinkFails);
      }
    }
  }

  /** The probe of another live process's pid answers "yes" exactly for a process of the same user. */
  lemma ProbeTellsTheUser(w: World, h: nat, q: nat)
    requires Protected(w) && Live(w, h) && Live(w, q)
    ensures CouldBeOurSidecar(w.procs[h].pid, Signalable(w, w.procs[q].user)) <==> w.procs[h].user == w.procs[q].user
  {
    assert Guarded(w, h);
    if w.procs[h].pid in Signalable(w, w.procs[q].user) {
      var j :| Live(w, j) && w.procs[j].user == w.procs[q].user && w.procs[j].pid == w.procs[h].pid;
    }
  }

  /**
   * The stale test, run by `q` against the file of a serving process, says "dead" exactly when it is overdue
   * or foreign.
   */
  lemma JudgementOfALiveHolder(w: World, h: nat, q: nat)
    requires Protected(w) && Serving(w, h) && Live(w, q) && q != h
    ensures Guarded(w, h)
    ensures IsFileDead(w.file.value.lock, w.procs[q].pid, Signalable(w, w.procs[q].user), w.now)
       <==> !(Recent(w, h) && w.procs[h].user == w.procs[q].user)
  {
    assert Guarded(w, h);
    ProbeTellsTheUser(w, h, q);
  }

  lemma OpenProtectsExactlyWhenDisciplined(w: World, id: nat, faults: Faults)
    requires Protected(w) && Enabled(w, OpenDb(id, faults))
    ensures Protected(Apply(w, OpenDb(id, faults))) <==> Disciplined(w, OpenDb(id, faults))
  {
    if h :| Serving(w, h) && h != id {
      OpenAgainstAHolder(w, h, id, faults);
    } else {
      OpenUnopposed(w, id, faults);
    }
  }

  lemma OpenAgainstAHolder(w: World, h: nat, id: nat, faults: Faults)
    requires Protected(w) && Enabled(w, OpenDb(id, faults)) && Serving(w, h) && h != id
    ensures var r := OpenBy(w, id, faults);
            r.outcome == HeldByAnother <==> faults.unlinkFails || (Recent(w, h) && w.procs[h].user == w.procs[id].user)
    ensures Protected(Apply(w, OpenDb(id, faults))) <==> Disciplined(w, OpenDb(id, faults))
  {
    var w' := Apply(w, OpenDb(id, faults));
    assert Guarded(w, h) && Guarded(w, id);
    JudgementOfALiveHolder(w, h, id);
    forall g | Serving(w, g) ensures g == h { assert Guarded(w, g); }
    if OpenBy(w, id, faults).outcome == HeldByAnother {
      assert w' == w.(procs := w.procs[id := w.procs[id]]);
      assert w'.procs == w.procs;
    } else {
      assert !Guarded(w', h);
    }
  }

  lemma OpenUnopposed(w: World, id: nat, faults: Faults)
    requires Protected(w) && Enabled(w, OpenDb(id, faults))
    requires forall h | Serving(w, h) :: h == id
    ensures Protected(Apply(w, OpenDb(id, faults)))
  {
    var w' := Apply(w, OpenDb(id, faults));
    StampReadsBack(w.procs[id].pid);
    assert Guarded(w, id);
    if Serving(w, id) {
      assert OpenBy(w, id, faults).outcome == HeldByAnother;
    }
    forall i ensures Guarded(w', i) {
      assert Guarded(w, i);
      assert Serving(w, i) ==> i == id;
    }
  }

  /**
   * While `h` serves, another process's open succeeds exactly when `h` went silent for over a minute or runs
   * as someone else.
   */
  lemma SecondWriterExactlyWhen(w: World, h: nat, q: nat)
    requires Protected(w) && Serving(w, h) && Live(w, q) && q != h
    ensures var w' := Apply(w, OpenDb(q, NO_FAULTS));
            (Serving(w', h) && Serving(w', q)) <==> !(Recent(w, h) && w.procs[h].user == w.procs[q].user)
  {
    OpenAgainstAHolder(w, h, q, NO_FAULTS);
    assert Guarded(w, h) && Guarded(w, q);
  }

  // ---- whole runs ----

  ghost predicate Legal(w: World, steps: seq<Step>)
    decreases |steps|
  {
    steps == [] || (Enabled(w, steps[0]) && Legal(Apply(w, steps[0]), steps[1..]))
  }

  ghost function Exec(w: World, steps: seq<Step>): World
    requires Legal(w, steps)
    decreases |steps|
  {
    if steps == [] then w else Exec(Apply(w, steps[0]), steps[1..])
  }

  ghost predicate AlwaysDisciplined(w: World, steps: seq<Step>)
    requires Legal(w, steps)
    decreases |steps|
  {
    steps == [] || (Disciplined(w, steps[0]) && AlwaysDisciplined(Apply(w, steps[0]), steps[1..]))
  }

  /** Any lockfile may be lying around when the first process starts: a corpse's, garbage, or none. */
  ghost predicate Initial(w: World) {
    w.procs == map[]
  }

  lemma {:induction false} RunStaysProtected(w: World, steps: seq<Step>)
    requires Protected(w) && Legal(w, steps) && AlwaysDisciplined(w, steps)
    ensures Protected(Exec(w, steps))
    decreases |steps|
  {
    if steps != [] {
      StepProtectsExactlyWhenDisciplined(w, steps[0]);
      RunStaysProtected(Apply(w, steps[0]), steps[1..]);
    }
  }

  /** Mutual exclusion: with crashes, reissued pids and any clock, a disciplined run never has two writers. */
  lemma OneWriter(w: World, steps: seq<Step>)
    requires Initial(w) && Legal(w, steps) && AlwaysDisciplined(w, steps)
    ensures AtMostOneWriter(Exec(w, steps))
  {
    RunStaysProtected(w, steps);
    var last := Exec(w, steps);
    forall i, j | Serving(last, i) && Serving(last, j) ensures i == j {
      assert Guarded(last, i) && Guarded(last, j);
    }
  }

  /**
   * A dead predecessor never locks the successor out for longer than a minute after its last beat, whoever
   * inherited its pid.
   */
  lemma SilentLockIsAlwaysReclaimed(w: World, id: nat)
    requires Live(w, id) && !w.procs[id].held
    requires w.file.Some? ==> w.now - w.file.value.lock.mtime > LOCK_STALE_AFTER_MS
    ensures Enabled(w, OpenDb(id, NO_FAULTS)) && Serving(Apply(w, OpenDb(id, NO_FAULTS)), id)
  {
  }

  /**
   * Why the second close is excluded: it deletes the lock of a process that is serving, and a third process
   * then gets in.
   */
  lemma CloseAgainBreaksExclusion(w: World, a: nat, b: nat, c: nat)
    requires Protected(w) && Serving(w, b) && Live(w, a) && w.procs[a].closedOnce && a != b
    requires Live(w, c) && c != b && c != a && !w.procs[c].held
    ensures Legal(w, [CloseAgain(a, false), OpenDb(c, NO_FAULTS)])
    ensures !AtMostOneWriter(Exec(w, [CloseAgain(a, false), OpenDb(c, NO_FAULTS)]))
  {
    var w1 := Apply(w, CloseAgain(a, false));
    assert Guarded(w, b);
    var w2 := Apply(w1, OpenDb(c, NO_FAULTS));
    var steps := [CloseAgain(a, false), OpenDb(c, NO_FAULTS)];
    assert steps[1..] == [OpenDb(c, NO_FAULTS)] && steps[1..][1..] == [];
    assert Legal(w1, steps[1..]) && Exec(w1, steps[1..]) == w2;
    assert Serving(w2, b) && Serving(w2, c);
  }
}
