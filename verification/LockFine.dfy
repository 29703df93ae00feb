/**
 * The writer lock again, with every file-system access a step of its own. Files carry an identity
 * (`ino`), so that the file a process judged and the file at the path now can differ.
 */
module LockFine {
  import opened Basics
  import opened LockRules

  datatype Pc =
    | Idle
    | Checking
    | Reading
    | Judging(recorded: Option<int>, seen: nat)
    | Statting(seen: nat)
    | Unlinking(seen: nat)
    | Creating
    | Stamping(mine: nat)
    | Serving(mine: nat)
    | Releasing(mine: nat)

  datatype Proc = Proc(pid: nat, user: nat, alive: bool, pc: Pc, closedOnce: bool)

  datatype File = File(ino: nat, creator: nat, lock: LockFile)

  datatype World = World(now: int, file: Option<File>, nextIno: nat, procs: map<nat, Proc>)

  /** `fails` is the refusal of the one system call the step makes, where the code survives or reports it. */
  datatype Step =
    | Spawn(id: nat, pid: nat, user: nat)
    | Tick(ms: nat)
    | Begin(id: nat)
    | Move(id: nat, fails: bool)
    | Beat(id: nat)
    | CloseDb(id: nat)
    | CloseAgain(id: nat)
    | Crash(id: nat)

  predicate Live(w: World, id: nat) {
    id in w.procs && w.procs[id].alive
  }

  ghost predicate Enabled(w: World, s: Step) {
    match s
    case Spawn(id, pid, _) => id !in w.procs && pid > 0 && forall j | Live(w, j) :: w.procs[j].pid != pid
    case Tick(_) => true
    case Begin(id) => Live(w, id) && w.procs[id].pc == Idle
    case Move(id, _) => Live(w, id) && !w.procs[id].pc.Idle? && !w.procs[id].pc.Serving?
    case Beat(id) => Live(w, id) && w.procs[id].pc.Serving?
    case CloseDb(id) => Live(w, id) && w.procs[id].pc.Serving?
    case CloseAgain(id) => Live(w, id) && w.procs[id].closedOnce
    case Crash(id) => Live(w, id)
  }

  function Signalable(w: World, user: nat): set<int> {
    set id | id in w.procs && w.procs[id].alive && w.procs[id].user == user :: w.procs[id].pid
  }

  function At(w: World, id: nat, pc: Pc): World
    requires id in w.procs
  {
    w.(procs := w.procs[id := w.procs[id].(pc := pc)])
  }

  /** One system call of `openDatabase`, or the unlink at the end of `close`. */
  function Moved(w: World, id: nat, fails: bool): World
    requires id in w.procs && !w.procs[id].pc.Idle? && !w.procs[id].pc.Serving?
  {
    var p := w.procs[id];
    match p.pc
    case Checking => At(w, id, if w.file.Some? then Reading else Creating)
    case Reading =>
      At(w, id, if w.file.None? then Idle else Judging(RecordedPid(w.file.value.lock.text), w.file.value.ino))
    case Judging(recorded, seen) =>
      var dead := recorded.None? || recorded.value == p.pid
          || !CouldBeOurSidecar(recorded.value, Signalable(w, p.user));
      At(w, id, if dead then Unlinking(seen) else Statting(seen))
    case Statting(seen) =>
      var mtime := if w.file.None? then None else Some(w.file.value.lock.mtime);
      At(w, id, if IsLockAbandoned(mtime, w.now) then Unlinking(seen) else Creating)
    case Unlinking(_) =>
      At(if fails then w else w.(file := None), id, Creating)
    case Creating =>
      if w.file.Some? || fails then At(w, id, Idle)
      else At(w.(file := Some(File(w.nextIno, id, LockFile("", w.now))), nextIno := w.nextIno + 1),
          id, Stamping(w.nextIno))
    case Stamping(mine) =>
      if fails then At(w, id, Idle)
      else if w.file.Some? && w.file.value.ino == mine
      then At(w.(file := Some(w.file.value.(lock := LockFile(StampText(p.pid), w.now)))), id, Serving(mine))
      else At(w, id, Serving(mine))
    case Releasing(_) =>
      var w1 := At(if fails then w else w.(file := None), id, Idle);
      w1.(procs := w1.procs[id := w1.procs[id].(closedOnce := true)])
  }

  ghost function Apply(w: World, s: Step): World
    requires Enabled(w, s)
  {
    match s
    case Spawn(id, pid, user) => w.(procs := w.procs[id := Proc(pid, user, true, Idle, false)])
    case Tick(ms) => w.(now := w.now + ms)
    case Begin(id) => At(w, id, Checking)
    case Move(id, fails) => Moved(w, id, fails)
    case Beat(id) =>
      if w.file.None? then w
      else w.(file := Some(w.file.value.(lock := w.file.value.lock.(mtime := w.now))))
    case CloseDb(id) => At(w, id, Releasing(w.procs[id].pc.mine))
    case CloseAgain(id) => w.(file := None)
    case Crash(id) => w.(procs := w.procs[id := w.procs[id].(alive := false)])
  }

  /** Between its exclusive create and the close of its database, a process counts as the owner of the file it made. */
  predicate Owns(w: World, r: nat, ino: nat) {
    Live(w, r) && (w.procs[r].pc == Stamping(ino) || w.procs[r].pc == Serving(ino))
  }

  predicate AtMostOneOwner(w: World) {
    forall i, j | i in w.procs && j in w.procs && w.procs[i].alive && w.procs[j].alive
                  && (w.procs[i].pc.Stamping? || w.procs[i].pc.Serving?)
                  && (w.procs[j].pc.Stamping? || w.procs[j].pc.Serving?) :: i == j
  }

  predicate Unlinks(w: World, s: Step) {
    || s.CloseAgain?
    || (s.Move? && !s.fails && s.id in w.procs && (w.procs[s.id].pc.Unlinking? || w.procs[s.id].pc.Releasing?))
  }

  /** The step removes a file whose creator is alive and still relies on it. */
  predicate OrphansAnOwner(w: World, s: Step) {
    Unlinks(w, s) && w.file.Some? && Owns(w, w.file.value.creator, w.file.value.ino)
  }

  // ---- O_EXCL alone: exclusion holds until some owner's file is removed ----

  predicate Anchored(w: World) {
    && (w.file.Some? ==> w.file.value.ino < w.nextIno)
    && forall r | r in w.procs && w.procs[r].alive && (w.procs[r].pc.Stamping? || w.procs[r].pc.Serving?) ::
         w.file.Some? && w.file.value.creator == r && w.file.value.ino == w.procs[r].pc.mine
  }

  lemma AnchoredIsExclusive(w: World)
    requires Anchored(w)
    ensures AtMostOneOwner(w)
  {
  }

  /** A step keeps every owner's file in place exactly when it does not remove one. */
  lemma StepAnchorsExactlyWhen(w: World, s: Step)
    requires Anchored(w) && Enabled(w, s)
    ensures Anchored(Apply(w, s)) <==> !OrphansAnOwner(w, s)
  {
    var w' := Apply(w, s);
    if OrphansAnOwner(w, s) {
      var r := w.file.value.creator;
      assert w'.file.None? && Owns(w', r, w.file.value.ino);
    }
  }

  // ---- whole runs ----

  ghost predicate Legal(w: World, steps: seq<Step>)
    decreases |steps|
  {
    steps == [] || (Enabled(w, steps[0]) && Legal(Apply(w, steps[0]), steps[1..]))
  }

  ghost function Exec(w: World, steps: seq<Step>): World
    requires Legal(w, steps)
    decreases |steps|
  {
    if steps == [] then w else Exec(Apply(w, steps[0]), steps[1..])
  }

  ghost predicate SomeOwnerOrphaned(w: World, steps: seq<Step>)
    requires Legal(w, steps)
    decreases |steps|
  {
    steps != [] && (OrphansAnOwner(w, steps[0]) || SomeOwnerOrphaned(Apply(w, steps[0]), steps[1..]))
  }

  /** No process yet; any file may be lying at the path. */
  predicate Initial(w: World) {
    w.procs == map[] && (w.file.Some? ==> w.file.value.ino < w.nextIno)
  }

  lemma {:induction false} RunStaysAnchored(w: World, steps: seq<Step>)
    requires Anchored(w) && Legal(w, steps) && !SomeOwnerOrphaned(w, steps)
    ensures Anchored(Exec(w, steps))
    decreases |steps|
  {
    if steps != [] {
      StepAnchorsExactlyWhen(w, steps[0]);
      RunStaysAnchored(Apply(w, steps[0]), steps[1..]);
    }
  }

  /** Two owners at once are possible only after some unlink removed the file of a live owner. */
  lemma TwoOwnersNeedAnOrphanedOne(w: World, steps: seq<Step>)
    requires Initial(w) && Legal(w, steps) && !AtMostOneOwner(Exec(w, steps))
    ensures SomeOwnerOrphaned(w, steps)
  {
    if !SomeOwnerOrphaned(w, steps) {
      RunStaysAnchored(w, steps);
    }
  }

  // ---- what the environment must provide for that never to happen ----

  /** From the create to the unlink at close: the span in which the file must stay this process's. */
  predicate Engaged(w: World, r: nat, ino: nat) {
    Live(w, r) && (w.procs[r].pc == Stamping(ino) || w.procs[r].pc == Serving(ino) || w.procs[r].pc == Releasing(ino))
  }

  predicate EngagedAtPath(w: World) {
    w.file.Some? && Engaged(w, w.file.value.creator, w.file.value.ino)
  }

  /**
   * The four windows of the protocol, as conditions on the step that falls into one: no read
   * between create and stamp; a live owner is probed by its own user; it is examined within a
   * minute of its last beat; and recovery deletes the very file it judged. Plus: no second close
   * while somebody's file is in place.
   */
  predicate Careful(w: World, s: Step) {
    match s
    case Move(id, _) =>
      (id in w.procs && EngagedAtPath(w) ==>
         var r := w.procs[w.file.value.creator];
         match w.procs[id].pc
         case Reading => !r.pc.Stamping?
         case Judging(_, _) => r.user == w.procs[id].user
         case Statting(_) => !IsLockAbandoned(Some(w.file.value.lock.mtime), w.now)
         case Unlinking(seen) => w.file.value.ino == seen
         case _ => true)
    case CloseAgain(_) => !EngagedAtPath(w)
    case _ => true
  }

  ghost predicate AlwaysCareful(w: World, steps: seq<Step>)
    requires Legal(w, steps)
    decreases |steps|
  {
    steps == [] || (Careful(w, steps[0]) && AlwaysCareful(Apply(w, steps[0]), steps[1..]))
  }

  ghost predicate PidsDistinct(w: World) {
    forall i, j | Live(w, i) && Live(w, j) && w.procs[i].pid == w.procs[j].pid :: i == j
  }

  /** What a process knows or relies on, per program counter. */
  predicate Tidy(w: World, q: nat) {
    Live(w, q) ==>
      var p := w.procs[q];
      && p.pid > 0
      && match p.pc
         case Stamping(ino) => w.file.Some? && w.file.value.ino == ino && w.file.value.creator == q
         case Serving(ino) => w.file.Some? && w.file.value.ino == ino && w.file.value.creator == q
                              && RecordedPid(w.file.value.lock.text) == Some(p.pid)
         case Releasing(ino) => w.file.Some? && w.file.value.ino == ino && w.file.value.creator == q
                              && RecordedPid(w.file.value.lock.text) == Some(p.pid)
         case Judging(recorded, seen) => seen < w.nextIno
             && (EngagedAtPath(w) && w.file.value.ino == seen ==> recorded == Some(w.procs[w.file.value.creator].pid))
         case Statting(seen) => seen < w.nextIno
         case Unlinking(seen) => seen < w.nextIno && !(EngagedAtPath(w) && w.file.value.ino == seen)
         case _ => true
  }

  ghost predicate AllTidy(w: World) {
    && PidsDistinct(w)
    && (w.file.Some? ==> w.file.value.ino < w.nextIno)
    && forall q :: Tidy(w, q)
  }

  /** The probe answers for a live process of the same user. */
  lemma ProbeFindsTheLiving(w: World, r: nat, user: nat)
    requires Live(w, r) && w.procs[r].user == user && w.procs[r].pid > 0
    ensures CouldBeOurSidecar(w.procs[r].pid, Signalable(w, user))
  {
  }

  lemma CarefulStepStaysTidy(w: World, s: Step)
    requires AllTidy(w) && Enabled(w, s) && Careful(w, s)
    ensures AllTidy(Apply(w, s))
    ensures !OrphansAnOwner(w, s)
  {
    if s.Move? {
      assert Tidy(w, s.id);
      match w.procs[s.id].pc {
        case Checking => LookingStaysTidy(w, s);
        case Reading => LookingStaysTidy(w, s);
        case Judging(_, _) => LookingStaysTidy(w, s);
        case Statting(_) => LookingStaysTidy(w, s);
        case Unlinking(_) => RemovingStaysTidy(w, s);
        case Releasing(_) => RemovingStaysTidy(w, s);
        case Creating => CreatingStaysTidy(w, s);
        case Stamping(_) => StampingStaysTidy(w, s);
      }
    } else if s.CloseAgain? {
      RemovingStaysTidy(w, s);
    } else {
      OtherStepsStayTidy(w, s);
    }
  }

  lemma OtherStepsStayTidy(w: World, s: Step)
    requires AllTidy(w) && Enabled(w, s) && !s.Move? && !s.CloseAgain?
    ensures AllTidy(Apply(w, s)) && !OrphansAnOwner(w, s)
  {
    var w' := Apply(w, s);
    assert s.Beat? || s.CloseDb? ==> Tidy(w, s.id);
    forall q ensures Tidy(w', q) {
      assert Tidy(w, q);
    }
  }

  /** Existence check, read, probe and stat change only what their own process knows. */
  lemma LookingStaysTidy(w: World, s: Step)
    requires AllTidy(w) && Enabled(w, s) && Careful(w, s) && s.Move?
    requires var pc := w.procs[s.id].pc; pc.Checking? || pc.Reading? || pc.Judging? || pc.Statting?
    ensures AllTidy(Apply(w, s)) && !OrphansAnOwner(w, s)
  {
    assert Tidy(w, s.id);
    if EngagedAtPath(w) {
      var r := w.file.value.creator;
      assert Tidy(w, r);
      if w.procs[s.id].pc.Judging? {
        ProbeFindsTheLiving(w, r, w.procs[s.id].user);
      }
    }
    LearningStaysTidy(w, s.id, Moved(w, s.id, s.fails).procs[s.id].pc);
  }

  predicate Engages(pc: Pc) {
    pc.Stamping? || pc.Serving? || pc.Releasing?
  }

  lemma LearningStaysTidy(w: World, id: nat, pc: Pc)
    requires AllTidy(w) && Live(w, id) && !Engages(w.procs[id].pc) && !Engages(pc)
    requires match pc
             case Judging(recorded, seen) => seen < w.nextIno
               && (EngagedAtPath(w) && w.file.value.ino == seen ==> recorded == Some(w.procs[w.file.value.creator].pid))
             case Statting(seen) => seen < w.nextIno
             case Unlinking(seen) => seen < w.nextIno && !(EngagedAtPath(w) && w.file.value.ino == seen)
             case _ => true
    ensures AllTidy(At(w, id, pc))
  {
    var w' := At(w, id, pc);
    assert Tidy(w, id);
    assert EngagedAtPath(w') == EngagedAtPath(w);
    forall q ensures Tidy(w', q) {
      assert Tidy(w, q);
    }
  }

  lemma RemovingStaysTidy(w: World, s: Step)
    requires AllTidy(w) && Enabled(w, s) && Careful(w, s)
    requires s.CloseAgain? || (s.Move? && (w.procs[s.id].pc.Unlinking? || w.procs[s.id].pc.Releasing?))
    ensures AllTidy(Apply(w, s)) && !OrphansAnOwner(w, s)
  {
    var w' := Apply(w, s);
    assert Tidy(w, s.id);
    forall q ensures Tidy(w', q) {
      assert Tidy(w, q);
    }
  }

  lemma CreatingStaysTidy(w: World, s: Step)
    requires AllTidy(w) && Enabled(w, s) && s.Move? && w.procs[s.id].pc.Creating?
    ensures AllTidy(Apply(w, s)) && !OrphansAnOwner(w, s)
  {
    var w' := Apply(w, s);
    forall q ensures Tidy(w', q) {
      assert Tidy(w, q);
    }
  }

  lemma StampingStaysTidy(w: World, s: Step)
    requires AllTidy(w) && Enabled(w, s) && s.Move? && w.procs[s.id].pc.Stamping?
    ensures AllTidy(Apply(w, s)) && !OrphansAnOwner(w, s)
  {
    var w' := Apply(w, s);
    assert Tidy(w, s.id);
    StampReadsBack(w.procs[s.id].pid);
    forall q ensures Tidy(w', q) {
      assert Tidy(w, q);
    }
  }

  lemma {:induction false} CarefulRunStaysTidy(w: World, steps: seq<Step>)
    requires AllTidy(w) && Legal(w, steps) && AlwaysCareful(w, steps)
    ensures AllTidy(Exec(w, steps)) && !SomeOwnerOrphaned(w, steps)
    decreases |steps|
  {
    if steps != [] {
      CarefulStepStaysTidy(w, steps[0]);
      CarefulRunStaysTidy(Apply(w, steps[0]), steps[1..]);
    }
  }

  /**
   * Fine-grained mutual exclusion: no interleaving that stays out of the windows ever orphans an owner or
   * admits a second one.
   */
  lemma OneOwner(w: World, steps: seq<Step>)
    requires Initial(w) && Legal(w, steps) && AlwaysCareful(w, steps)
    ensures AtMostOneOwner(Exec(w, steps)) && !SomeOwnerOrphaned(w, steps)
  {
    CarefulRunStaysTidy(w, steps);
    RunStaysAnchored(w, steps);
  }
}
