/**
 * The windows named in LockFine are real: concrete interleavings, with no time passing and
 * every process of one user, that end with two processes serving the same database.
 */
module LockRaces {
  import opened Basics
  import opened LockRules
  import opened LockFine

  lemma {:induction false} ExecAppend(w: World, a: seq<Step>, b: seq<Step>)
    requires Legal(w, a) && Legal(Exec(w, a), b)
    ensures Legal(w, a + b) && Exec(w, a + b) == Exec(Exec(w, a), b)
    decreases |a|
  {
    if a == [] {
      assert a + b == b;
    } else {
      assert (a + b)[1..] == a[1..] + b;
      ExecAppend(Apply(w, a[0]), a[1..], b);
    }
  }

  /** `v` can come after `w`. */
  ghost predicate Reach(w: World, v: World) {
    exists steps :: Legal(w, steps) && Exec(w, steps) == v
  }

  lemma ReachSelf(w: World)
    ensures Reach(w, w)
  {
    assert Legal(w, []) && Exec(w, []) == w;
  }

  lemma ReachStep(w: World, v: World, s: Step)
    requires Reach(w, v) && Enabled(v, s)
    ensures Reach(w, Apply(v, s))
  {
    var a :| Legal(w, a) && Exec(w, a) == v;
    var one := [s];
    var v' := Apply(v, s);
    assert one[0] == s && one[1..] == [] && Legal(v', []) && Exec(v', []) == v';
    assert Legal(v, one) && Exec(v, one) == Exec(v', one[1..]);
    ExecAppend(w, a, one);
  }

  /** The file at the path is dead already by what is written in it. */
  predicate Corpse(w: World, q: nat) {
    && w.file.Some? && q in w.procs
    && var recorded := RecordedPid(w.file.value.lock.text);
       recorded.None? || recorded.value == w.procs[q].pid
           || !CouldBeOurSidecar(recorded.value, Signalable(w, w.procs[q].user))
  }

  lemma SignalableIgnoresPc(w: World, id: nat, pc: Pc, user: nat)
    requires id in w.procs
    ensures Signalable(At(w, id, pc), user) == Signalable(w, user)
  {
    var w' := At(w, id, pc);
    forall p | p in Signalable(w, user) ensures p in Signalable(w', user) {
      var j :| j in w.procs && w.procs[j].alive && w.procs[j].user == user && w.procs[j].pid == p;
      assert w'.procs[j].pid == p;
    }
    forall p | p in Signalable(w', user) ensures p in Signalable(w, user) {
      var j :| j in w'.procs && w'.procs[j].alive && w'.procs[j].user == user && w'.procs[j].pid == p;
      assert w.procs[j].pid == p;
    }
  }

  lemma AtTwice(v: World, q: nat, first: Pc, second: Pc)
    requires q in v.procs
    ensures At(At(v, q, first), q, second) == At(v, q, second)
  {
    assert v.procs[q := v.procs[q].(pc := first)][q := v.procs[q].(pc := second)]
        == v.procs[q := v.procs[q].(pc := second)];
  }

  /** A move that only changes what its process knows. */
  lemma ReachLook(w: World, v: World, q: nat, from: Pc, to: Pc)
    requires q in v.procs && v.procs[q].alive && Reach(w, At(v, q, from))
    requires !from.Idle? && !from.Serving?
    requires Moved(At(v, q, from), q, false) == At(At(v, q, from), q, to)
    ensures Reach(w, At(v, q, to))
  {
    AtTwice(v, q, from, to);
    ReachStep(w, At(v, q, from), Move(q, false));
  }

  lemma ReachCheck(w: World, v: World, q: nat)
    requires Reach(w, v) && Live(v, q) && v.procs[q].pc == Idle
    ensures Reach(w, At(v, q, if v.file.Some? then Reading else Creating))
  {
    ReachStep(w, v, Begin(q));
    ReachLook(w, v, q, Checking, if v.file.Some? then Reading else Creating);
  }

  /** A process looks at a corpse and makes up its mind to delete it. */
  lemma Condemn(w: World, v: World, q: nat)
    requires Reach(w, v) && Live(v, q) && v.procs[q].pc == Idle && Corpse(v, q)
    ensures Reach(w, At(v, q, Unlinking(v.file.value.ino)))
  {
    var judging := Judging(RecordedPid(v.file.value.lock.text), v.file.value.ino);
    SignalableIgnoresPc(v, q, judging, v.procs[q].user);
    ReachCheck(w, v, q);
    ReachLook(w, v, q, Reading, judging);
    ReachLook(w, v, q, judging, Unlinking(v.file.value.ino));
  }

  function Created(v: World, q: nat, text: string): World
    requires q in v.procs
  {
    v.(file := Some(File(v.nextIno, q, LockFile(text, v.now))), nextIno := v.nextIno + 1)
  }

  /** With no file at the path, a process about to create gets as far as its unstamped file. */
  lemma CreateFile(w: World, v: World, q: nat)
    requires q in v.procs && v.procs[q].alive && v.file.None? && Reach(w, At(v, q, Creating))
    ensures Reach(w, At(Created(v, q, ""), q, Stamping(v.nextIno)))
  {
    AtTwice(Created(v, q, ""), q, Creating, Stamping(v.nextIno));
    ReachStep(w, At(v, q, Creating), Move(q, false));
  }

  lemma StampFile(w: World, v: World, q: nat)
    requires q in v.procs && v.procs[q].alive && Reach(w, At(Created(v, q, ""), q, Stamping(v.nextIno)))
    ensures Reach(w, At(Created(v, q, StampText(v.procs[q].pid)), q, Serving(v.nextIno)))
  {
    AtTwice(Created(v, q, StampText(v.procs[q].pid)), q, Stamping(v.nextIno), Serving(v.nextIno));
    ReachStep(w, At(Created(v, q, ""), q, Stamping(v.nextIno)), Move(q, false));
  }

  /** Having made up its mind, it deletes whatever is at the path, creates, stamps and serves. */
  lemma TakeOver(w: World, v: World, q: nat, seen: nat)
    requires Reach(w, v) && Live(v, q) && v.procs[q].pc == Unlinking(seen)
    ensures Reach(w, At(Created(v, q, StampText(v.procs[q].pid)), q, Serving(v.nextIno)))
  {
    ReachStep(w, v, Move(q, false));
    var gone := v.(file := None);
    CreateFile(w, gone, q);
    StampFile(w, gone, q);
  }

  predicate BothServe(v: World, a: nat, b: nat) {
    a != b && Live(v, a) && v.procs[a].pc.Serving? && Live(v, b) && v.procs[b].pc.Serving?
  }

  /** Two starts find the same dead predecessor's lock; the slower one deletes the faster one's fresh lock. */
  lemma TwoRecoverersBothServe(w: World, a: nat, b: nat)
    requires a != b && Live(w, a) && w.procs[a].pc == Idle && Live(w, b) && w.procs[b].pc == Idle
    requires Corpse(w, a) && Corpse(w, b)
    ensures exists v :: Reach(w, v) && BothServe(v, a, b) && v.now == w.now
  {
    var ino := w.file.value.ino;
    ReachSelf(w);
    Condemn(w, w, a);
    var v1 := At(w, a, Unlinking(ino));
    SignalableIgnoresPc(w, a, Unlinking(ino), w.procs[b].user);
    Condemn(w, v1, b);
    var v2 := At(v1, b, Unlinking(ino));
    TakeOver(w, v2, b, ino);
    var v3 := At(Created(v2, b, StampText(v2.procs[b].pid)), b, Serving(v2.nextIno));
    TakeOver(w, v3, a, ino);
    var v4 := At(Created(v3, a, StampText(v3.procs[a].pid)), a, Serving(v3.nextIno));
    assert BothServe(v4, a, b);
  }

  /** A start reads the lockfile of another in the moment between its create and its stamp. */
  lemma ReadBeforeStampBothServe(w: World, a: nat, b: nat)
    requires a != b && Live(w, a) && w.procs[a].pc == Idle && Live(w, b) && w.procs[b].pc == Idle
    requires w.file.None?
    ensures exists v :: Reach(w, v) && BothServe(v, a, b) && v.now == w.now
  {
    ReachSelf(w);
    ReachCheck(w, w, a);
    CreateFile(w, w, a);
    var v1 := At(Created(w, a, ""), a, Stamping(w.nextIno));
    UnstampedReadsAsDead(w.now, w.procs[b].pid, {}, w.now);
    Condemn(w, v1, b);
    var v2 := At(v1, b, Unlinking(w.nextIno));
    ReachStep(w, v2, Move(a, false));
    var v3 := Apply(v2, Move(a, false));
    assert v3.procs[a].pc == Serving(w.nextIno) && v3.procs[b].pc == Unlinking(w.nextIno);
    TakeOver(w, v3, b, w.nextIno);
    var v4 := At(Created(v3, b, StampText(v3.procs[b].pid)), b, Serving(v3.nextIno));
    assert BothServe(v4, a, b);
  }

  lemma {:induction false} Above(s: set<nat>) returns (n: nat)
    ensures forall x | x in s :: x < n
    decreases |s|
  {
    if s == {} {
      n := 0;
    } else {
      var x :| x in s;
      var m := Above(s - {x});
      n := if m <= x then x + 1 else m;
      forall y | y in s ensures y < n {
        assert y == x || y in s - {x};
      }
    }
  }

  /** Some process starts whose number and pid nobody has. */
  lemma NewcomerStarts(w: World, v: World) returns (u: World, q: nat)
    requires Reach(w, v)
    ensures Reach(w, u) && q !in v.procs && Live(u, q) && u.procs[q].pc == Idle
    ensures u.file == v.file && u.nextIno == v.nextIno && u.now == v.now
    ensures forall r | r in v.procs :: r in u.procs && u.procs[r] == v.procs[r]
  {
    q := Above(v.procs.Keys);
    var pids := set r | r in v.procs :: v.procs[r].pid;
    var top := Above(pids);
    var pid := top + 1;
    forall r | Live(v, r) ensures v.procs[r].pid != pid {
      assert v.procs[r].pid in pids;
    }
    ReachStep(w, v, Spawn(q, pid, 0));
    u := Apply(v, Spawn(q, pid, 0));
  }

  /**
   * After an owner's file was removed, by recovery, by a close or by a second close of its own process,
   * any newcomer becomes a second owner: with TwoOwnersNeedAnOrphanedOne, removing a live owner's file is
   * exactly what breaks exclusion.
   */
  lemma OrphaningIsFatal(w: World, s: Step)
    requires Anchored(w) && Enabled(w, s) && OrphansAnOwner(w, s)
    ensures exists v :: Reach(w, v) && !AtMostOneOwner(v)
  {
    var r, ino := w.file.value.creator, w.file.value.ino;
    ReachSelf(w);
    ReachStep(w, w, s);
    var w1 := Apply(w, s);
    assert w1.file.None? && Owns(w1, r, ino);
    var u, q := NewcomerStarts(w, w1);
    ReachCheck(w, u, q);
    CreateFile(w, u, q);
    var v := At(Created(u, q, ""), q, Stamping(u.nextIno));
    assert q != r && Owns(v, r, ino) && Owns(v, q, u.nextIno);
  }
}
