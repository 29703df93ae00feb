/**
 * What the run protocol promises over whole runs, what it does not, and what goes wrong when a boot
 * pass shares a run with the process that is already working on it.
 */
module RunPromises {
  import opened Basics
  import opened RunStore
  import opened RunDelivery
  import opened RunHooks
  import opened RunProtocol

  ghost predicate Legal(w: World, steps: seq<Step>)
    decreases |steps|
  {
    steps == [] || (Enabled(w, steps[0]) && Legal(Apply(w, steps[0]), steps[1..]))
  }

  ghost function Exec(w: World, steps: seq<Step>): World
    requires Legal(w, steps)
    decreases |steps|
  {
    if steps == [] then w else Exec(Apply(w, steps[0]), steps[1..])
  }

  ghost predicate AlwaysExclusive(w: World, steps: seq<Step>)
    requires Legal(w, steps)
    decreases |steps|
  {
    steps == [] || (Exclusive(w, steps[0]) && AlwaysExclusive(Apply(w, steps[0]), steps[1..]))
  }

  const START := World([], [], [], [], [], [], {}, map[])

  lemma {:induction false} RunStaysSound(w: World, steps: seq<Step>)
    requires Sound(w) && Legal(w, steps) && AlwaysExclusive(w, steps)
    ensures Sound(Exec(w, steps))
    decreases |steps|
  {
    if steps != [] {
      StepStaysSound(w, steps[0]);
      RunStaysSound(Apply(w, steps[0]), steps[1..]);
    }
  }

  // ---- nothing is lost ----

  /** The stored report, word for word, was sent, logged or on screen. */
  predicate Received(w: World, i: nat)
    requires i < |w.rows| && w.rows[i].report.Some?
  {
    (i, w.rows[i].report.value) in w.out || (i, w.rows[i].report.value) in w.screen
  }

  /**
   * Marked delivered although the report itself was not seen: a desktop run that finished with a
   * declared check, or a chat's evidence row whose cleaned copy is not the answer that was shown.
   */
  predicate MarkedUnseen(w: World, i: nat) {
    i in w.silent && match w.silent[i]
      case AnswerShown(_, check) => !check.Unchecked?
      case Copied(answer, text) => text != answer
  }

  /** A delivered report was received exactly when it is none of those. */
  lemma DeliveredWasReceivedExactlyWhen(w: World, i: nat)
    requires Sound(w) && i < |w.rows| && w.rows[i].deliveredAt.Some?
    ensures w.rows[i].report.Some? && (Received(w, i) <==> !MarkedUnseen(w, i))
    ensures MarkedUnseen(w, i) ==> w.rows[i].delivery == Some(Surface.Desktop)
                                   && (w.silent[i].AnswerShown? ==> w.silent[i].run.finished)
  {
    assert RowSound(w, i);
    if i in w.silent && w.silent[i].AnswerShown? {
      var AnswerShown(run, check) := w.silent[i];
      assert !check.Unchecked? ==> |Summary(run, check)| > |run.answer|;
      assert check.Unchecked? ==> Summary(run, check) == run.answer;
    }
  }

  /**
   * No report is lost: at every reachable state, crashes anywhere, each started run is still running,
   * or was ended without a report by a stale reclaim or by the net under a failed give-up, or holds a
   * report that is owed or delivered; and a delivered report was received, except exactly a finished
   * desktop run's with a declared check, and a chat's evidence whose text was changed.
   */
  lemma NoReportIsLost(steps: seq<Step>, i: nat)
    requires Legal(START, steps) && AlwaysExclusive(START, steps) && i < |Exec(START, steps).rows|
    ensures var w := Exec(START, steps);
            var row := w.rows[i];
            && (IsRunning(row) || i in w.silenced || (row.report.Some? && (IsOwed(row) || row.deliveredAt.Some?)))
            && (row.deliveredAt.Some? ==> row.report.Some? && (Received(w, i) <==> !MarkedUnseen(w, i)))
  {
    RunStaysSound(START, steps);
    var w := Exec(START, steps);
    assert RowSound(w, i);
    if w.rows[i].deliveredAt.Some? { DeliveredWasReceivedExactlyWhen(w, i); }
  }

  /** A stored report is never replaced or taken back. */
  lemma StepKeepsReports(w: World, s: Step, i: nat)
    requires Sound(w) && Enabled(w, s) && Exclusive(w, s) && i < |w.rows| && w.rows[i].report.Some?
    ensures i < |Apply(w, s).rows| && Apply(w, s).rows[i].report == w.rows[i].report
  {
    assert RowSound(w, i);
    if IsActStep(s) {
      assert ActSound(w, w.acts[s.a]);
    }
  }

  lemma {:induction false} RunKeepsReports(w: World, steps: seq<Step>, i: nat)
    requires Sound(w) && Legal(w, steps) && AlwaysExclusive(w, steps) && i < |w.rows| && w.rows[i].report.Some?
    ensures i < |Exec(w, steps).rows| && Exec(w, steps).rows[i].report == w.rows[i].report
    decreases |steps|
  {
    if steps != [] {
      StepKeepsReports(w, steps[0], i);
      StepStaysSound(w, steps[0]);
      RunKeepsReports(Apply(w, steps[0]), steps[1..], i);
    }
  }

  /**
   * What one moment stored, every later moment still has, owed or delivered; and delivered means received,
   * with the same exception.
   */
  lemma StoredReportSurvives(past: seq<Step>, future: seq<Step>, i: nat)
    requires Legal(START, past) && AlwaysExclusive(START, past)
    requires Legal(Exec(START, past), future) && AlwaysExclusive(Exec(START, past), future)
    requires var w := Exec(START, past); i < |w.rows| && w.rows[i].report.Some?
    ensures var w := Exec(Exec(START, past), future);
            && i < |w.rows| && w.rows[i].report == Exec(START, past).rows[i].report
            && (IsOwed(w.rows[i]) || (Received(w, i) <==> !MarkedUnseen(w, i)))
  {
    RunStaysSound(START, past);
    RunStaysSound(Exec(START, past), future);
    RunKeepsReports(Exec(START, past), future, i);
    var w := Exec(Exec(START, past), future);
    if w.rows[i].deliveredAt.Some? { DeliveredWasReceivedExactlyWhen(w, i); }
  }

  /** A report goes out a second time only for each crash that fell between its send and its mark. */
  lemma DuplicatesAreSwallowedMarks(steps: seq<Step>, i: nat)
    requires Legal(START, steps) && AlwaysExclusive(START, steps) && i < |Exec(START, steps).rows|
    ensures var w := Exec(START, steps); i < |w.lost| && HandOvers(w.out, i) <= w.lost[i] + 1
  {
    RunStaysSound(START, steps);
    var w := Exec(START, steps);
    assert Accounted(w, i);
    AtMostOneMarkPending(w, i);
  }

  lemma AtMostOneMarkPending(w: World, i: nat)
    requires Sound(w) && i < |w.rows|
    ensures SwallowedMarks(w.acts, i) + (if w.rows[i].deliveredAt.Some? then 1 else 0) <= 1
  {
    if a :| 0 <= a < |w.acts| && w.acts[a] == Accepted(i) {
      assert ActSound(w, w.acts[a]);
      OneMark(w.acts, a, i);
    } else {
      MarksOfIdleRow(w.acts, i);
    }
  }

  lemma OneMark(acts: seq<Act>, a: nat, i: nat)
    requires ActsApart(acts) && a < |acts| && acts[a] == Accepted(i)
    ensures SwallowedMarks(acts, i) == 1
  {
    MarksAfter(acts, a, Over, i);
    var rest := acts[a := Over];
    forall b | 0 <= b < |rest| ensures rest[b] != Accepted(i) {
      assert b < a || b == a || a < b;
    }
    MarksOfIdleRow(rest, i);
  }

  /**
   * After a crash the debt is what a boot picks up, unless the report is the empty text: that one is never
   * offered again.
   */
  lemma CrashedDebtIsPickedUpExactlyWhen(w: World, i: nat)
    requires Sound(w) && i < |w.rows| && IsOwed(w.rows[i])
    ensures var w' := Apply(w, Crash);
            (Enabled(w', PickUpOwed(i)) && Exclusive(w', PickUpOwed(i))) <==> w.rows[i].report.value != ""
  {
  }

  // ---- runs that exist ----

  ghost predicate Reach(w: World, v: World) {
    exists steps :: Legal(w, steps) && Exec(w, steps) == v
  }

  lemma ReachSelf(w: World)
    ensures Reach(w, w)
  {
    assert Legal(w, []) && Exec(w, []) == w;
  }

  lemma {:induction false} ExecAppend(w: World, a: seq<Step>, s: Step)
    requires Legal(w, a) && Enabled(Exec(w, a), s)
    ensures Legal(w, a + [s]) && Exec(w, a + [s]) == Apply(Exec(w, a), s)
    decreases |a|
  {
    if a == [] {
      assert [s][1..] == [] && a + [s] == [s];
      assert Exec(Apply(w, s), []) == Apply(w, s);
    } else {
      assert (a + [s])[1..] == a[1..] + [s];
      ExecAppend(Apply(w, a[0]), a[1..], s);
    }
  }

  lemma ReachStep(w: World, v: World, s: Step)
    requires Reach(w, v) && Enabled(v, s)
    ensures Reach(w, Apply(v, s))
  {
    var a :| Legal(w, a) && Exec(w, a) == v;
    ExecAppend(w, a, s);
  }

  /** The person accepts what activity `a` offers, and the row is marked. */
  lemma OfferedIsMarked(w: World, v: World, a: nat, now: int) returns (end: World)
    requires Reach(w, v) && a < |v.acts| && v.acts[a].Offering? && v.acts[a].row < |v.rows|
    ensures Reach(w, end)
    ensures var r := v.acts[a].row;
            end == v.(rows := v.rows[r := DeliverRow(v.rows[r], now)],
                acts := v.acts[a := Over], out := v.out + [(r, v.acts[a].text)])
  {
    var r := v.acts[a].row;
    ReachStep(w, v, Offer(a, Accepts));
    var u := Apply(v, Offer(a, Accepts));
    ReachStep(w, u, Mark(a, now));
    end := Apply(u, Mark(a, now));
    assert v.acts[a := Accepted(r)][a := Over] == v.acts[a := Over];
  }

  /** From its last turn on, a desktop message runs through: shown, concluded, sent if unfinished, marked. */
  lemma ShownIsMarked(w: World, v: World, a: nat, now: int) returns (end: World)
    requires Reach(w, v) && a < |v.acts| && v.acts[a].Shown? && v.acts[a].row < |v.rows|
    ensures Reach(w, end)
    ensures var Shown(r, run, check) := v.acts[a];
            && end.rows == v.rows[r := DesktopRow(v.rows[r], run, check, now)] && end.acts == v.acts[a := Over]
            && end.turns == v.turns && end.screen == v.screen && end.silenced == v.silenced && end.lost == v.lost
            && end.out == v.out + (if run.finished then [] else [(r, Summary(run, check))])
            && end.silent == if run.finished then v.silent[r := AnswerShown(run, check)] else v.silent
  {
    var Shown(r, run, check) := v.acts[a];
    ReachStep(w, v, ConcludeShown(a, now));
    var u := Apply(v, ConcludeShown(a, now));
    if run.finished {
      ReachStep(w, u, Mark(a, now));
      end := Apply(u, Mark(a, now));
    } else {
      end := OfferedIsMarked(w, u, a, now);
    }
    assert end.acts == v.acts[a := Over];
    assert end.rows == v.rows[r := DesktopRow(v.rows[r], run, check, now)];
  }

  /** The desktop begins a run, and the answer of its last turn is on screen. */
  lemma MessageIsShown(w: World, input: StartInput, run: Ended, check: Check, reclaimed: Option<nat>,
      staleWindow: nat, begun: int)
    returns (v: World)
    requires |w.turns| == |w.rows| && MayReclaim(w.rows, input.session, reclaimed, begun, staleWindow)
    requires input.delivery == Some(Surface.Desktop)
    ensures Reach(w, v) && v.acts == w.acts + [Shown(|w.rows|, run, check)]
    ensures v.rows == AfterReclaim(w.rows, reclaimed, begun) + [NewRow(input, begun)]
    ensures v.out == w.out && v.screen == w.screen + [(|w.rows|, run.answer)]
  {
    var a := |w.acts|;
    ReachSelf(w);
    ReachStep(w, w, Begin(input, AtDesktop, reclaimed, staleWindow, begun));
    var u := Apply(w, Begin(input, AtDesktop, reclaimed, staleWindow, begun));
    ReachStep(w, u, Show(a, run, check));
    v := Apply(u, Show(a, run, check));
  }

  /**
   * The desktop's autonomous message, as RunHooks performs it, is a run of this protocol: it leaves the
   * same row, and the person has seen and been sent the same texts.
   */
  lemma DesktopMessageIsARun(w: World, input: StartInput, run: Ended, check: Check, reclaimed: Option<nat>,
      staleWindow: nat, begun: int, ended: int) returns (end: World)
    requires |w.turns| == |w.rows| && MayReclaim(w.rows, input.session, reclaimed, begun, staleWindow)
    requires input.delivery == Some(Surface.Desktop)
    ensures Reach(w, end) && end.acts == w.acts + [Over]
    ensures end.rows == AfterReclaim(w.rows, reclaimed, begun) + [DesktopRow(NewRow(input, begun), run, check, ended)]
    ensures w.screen <= end.screen && w.out <= end.out
    ensures end.screen[|w.screen|..] + end.out[|w.out|..] == Labelled(|w.rows|, DesktopScreen(true, run, check))
    ensures run.finished ==> end.out == w.out && end.screen == w.screen + [(|w.rows|, run.answer)]
  {
    var v := MessageIsShown(w, input, run, check, reclaimed, staleWindow, begun);
    end := ShownIsMarked(w, v, |w.acts|, ended);
    assert end.screen[|w.screen|..] == [(|w.rows|, run.answer)];
    assert end.out[|w.out|..] == if run.finished then [] else [(|w.rows|, Summary(run, check))];
  }

  function Labelled(id: nat, texts: seq<string>): seq<(nat, string)> {
    seq(|texts|, (i: nat) requires i < |texts| => (id, texts[i]))
  }

  /** A text that is offered, and what the row says after the answer. */
  lemma OfferIsRecorded(w: World, v: World, a: nat, ask: Answer, now: int) returns (end: World)
    requires Reach(w, v) && a < |v.acts| && v.acts[a].Offering? && v.acts[a].row < |v.rows|
    ensures var r := v.acts[a].row;
            && Reach(w, end) && end == v.(rows := end.rows, acts := v.acts[a := Over], out := end.out)
            && end.rows == v.rows[r := DeliverAndMarkRow(v.rows[r], ask, now)]
            && end.out == v.out + if Delivered(v.rows[r], ask) == Accepts then [(r, v.acts[a].text)] else []
  {
    var r := v.acts[a].row;
    var answer := Delivered(v.rows[r], ask);
    ReachStep(w, v, Offer(a, answer));
    end := Apply(v, Offer(a, answer));
    match answer {
      case Accepts =>
        ReachStep(w, end, Mark(a, now));
        end := Apply(end, Mark(a, now));
        assert end.acts == v.acts[a := Over];
      case Refuses =>
        ReachStep(w, end, CountRefusal(a));
        end := Apply(end, CountRefusal(a));
        assert end.acts == v.acts[a := Over];
      case _ => assert v.rows[r := v.rows[r]] == v.rows;
    }
  }

  /**
   * The drain's turn for one row, as RunDelivery performs it, is a run of this protocol: it leaves the same
   * row, and hands the report over exactly when that does.
   */
  lemma DrainOneIsARun(w: World, r: nat, answer: Answer, now: int) returns (end: World)
    requires r < |w.rows| && IsOwed(w.rows[r]) && w.rows[r].report.value != ""
    ensures Reach(w, end) && end.acts == w.acts + [Over]
    ensures end.rows == w.rows[r := DrainRow(w.rows[r], answer, now)]
    ensures end.out == w.out + if DrainOut(r, w.rows[r], answer) == [] then [] else [(r, w.rows[r].report.value)]
  {
    var a := |w.acts|;
    ReachSelf(w);
    ReachStep(w, w, PickUpOwed(r));
    var v := Apply(w, PickUpOwed(r));
    if w.rows[r].deliveryAttempts >= MAX_DELIVERY_REFUSALS {
      ReachStep(w, v, Mark(a, now));
      end := Apply(v, Mark(a, now));
    } else {
      end := OfferIsRecorded(w, v, a, answer, now);
    }
    assert end.acts == w.acts + [Over];
  }

  lemma ConcludedPassIsARun(w: World, r: nat, fate: Fate, now: int) returns (end: World)
    requires r < |w.rows| == |w.turns| && IsRunning(w.rows[r]) && fate.Concludes?
    ensures Reach(w, end) && end.acts == w.acts + [Over]
    ensures end.rows == w.rows[r := PassRow(w.rows[r], w.turns[r], fate, now)]
    ensures end.out == w.out + PassOut(r, w.rows[r], fate)
  {
    var a := |w.acts|;
    ReachSelf(w);
    ReachStep(w, w, PickUpRunning(r, now));
    var v := Apply(w, PickUpRunning(r, now));
    var host := v.acts[a].host;
    var status := if host.GivingUp? then host.status else if fate.finished then Finished else Unfinished;
    var s := Conclude(a, status, if host.GivingUp? then host.reason else fate.reason, fate.text, now);
    ReachStep(w, v, s);
    end := OfferIsRecorded(w, Apply(v, s), a, fate.answer, now);
    assert end.acts == w.acts + [Over];
  }

  /** The same for the pass over interrupted runs: resumed or given up, concluded or not. */
  lemma HandleInterruptedIsARun(w: World, r: nat, fate: Fate, now: int) returns (end: World)
    requires r < |w.rows| == |w.turns| && IsRunning(w.rows[r])
    ensures Reach(w, end) && end.acts == w.acts + [Over]
    ensures end.rows == w.rows[r := PassRow(w.rows[r], w.turns[r], fate, now)]
    ensures end.out == w.out + PassOut(r, w.rows[r], fate)
  {
    if fate.Concludes? {
      end := ConcludedPassIsARun(w, r, fate, now);
    } else {
      var a := |w.acts|;
      ReachSelf(w);
      ReachStep(w, w, PickUpRunning(r, now));
      var v := Apply(w, PickUpRunning(r, now));
      var s := if v.acts[a].host.GivingUp? then EndSilently(a, now) else Drop(a);
      ReachStep(w, v, s);
      end := Apply(v, s);
      assert end.acts == w.acts + [Over];
    }
  }

  /**
   * So what NoReportIsLost excepts does happen, from any state: the message finishes, a check was declared,
   * nobody sees the report.
   */
  lemma CheckedDesktopReportGoesUnseen(w: World, input: StartInput, run: Ended, check: Check,
      reclaimed: Option<nat>, staleWindow: nat, begun: int, ended: int) returns (end: World)
    requires Sound(w) && MayReclaim(w.rows, input.session, reclaimed, begun, staleWindow)
    requires input.delivery == Some(Surface.Desktop) && run.finished && !check.Unchecked?
    ensures Reach(w, end) && |end.rows| == |w.rows| + 1
    ensures var id := |w.rows|;
            end.rows[id].report == Some(Summary(run, check)) && end.rows[id].deliveredAt.Some? && !Received(end, id)
  {
    end := DesktopMessageIsARun(w, input, run, check, reclaimed, staleWindow, begun, ended);
    var id := |w.rows|;
    assert |Summary(run, check)| > |run.answer|;
    assert (id, Summary(run, check)) !in w.out + w.screen;
  }

  // ---- sharing a run ----

  /** A stored report that is not owed and that nobody received, without being one of those marked unseen. */
  predicate Lost(w: World, i: nat) {
    && i < |w.rows| && w.rows[i].report.Some? && !IsOwed(w.rows[i]) && !Received(w, i)
    && !(i in w.silent && SilentSound(w, i, w.silent[i]))
  }

  lemma {:induction false} FreshText(texts: seq<(nat, string)>, other: string) returns (t: string)
    ensures |t| > |other| && forall o | o in texts :: |t| > |o.1|
    decreases |texts|
  {
    if texts == [] {
      t := other + "!";
    } else {
      var u := FreshText(texts[..|texts| - 1], other);
      var last := texts[|texts| - 1];
      t := u + last.1;
      assert texts == texts[..|texts| - 1] + [last];
    }
  }

  /** The activity has been through and the row says delivered; the other activities are where they were. */
  predicate WentThrough(w: World, v: World, a: nat, r: nat) {
    && |v.rows| == |w.rows| && |v.turns| == |w.turns|
    && a < |w.acts| && v.acts == w.acts[a := Over]
    && r < |v.rows| && v.rows[r].deliveredAt.Some?
  }

  predicate CanGoThrough(w: World, a: nat) {
    || (Drives(w, a) && (w.acts[a].host.GivingUp? ==> w.acts[a].host.status != Running))
    || (a < |w.acts| && w.acts[a].Shown? && w.acts[a].row < |w.rows|)
  }

  /** Whoever drives or has shown a run can bring it to its end, with its report marked delivered. */
  lemma ItGoesThrough(w: World, a: nat, now: int) returns (v: World)
    requires |w.rows| == |w.turns| && CanGoThrough(w, a)
    ensures Reach(w, v) && WentThrough(w, v, a, w.acts[a].row)
  {
    var r := w.acts[a].row;
    var run := Ended("answer", false, "banner", Completed);
    ReachSelf(w);
    if w.acts[a].Shown? {
      v := ShownIsMarked(w, w, a, now);
    } else if w.acts[a].host == AtDesktop {
      ReachStep(w, w, Show(a, run, Unchecked));
      v := ShownIsMarked(w, Apply(w, Show(a, run, Unchecked)), a, now);
    } else if w.acts[a].host.ForEvidence? {
      ReachStep(w, w, ConcludeCopy(a, Finished, Completed, "copy", now));
      var u := Apply(w, ConcludeCopy(a, Finished, Completed, "copy", now));
      ReachStep(w, u, Mark(a, now));
      v := Apply(u, Mark(a, now));
    } else {
      v := ConcludedIsMarked(w, a, now);
    }
  }

  lemma ConcludedIsMarked(w: World, a: nat, now: int) returns (v: World)
    requires Drives(w, a) && w.acts[a].host != AtDesktop && !w.acts[a].host.ForEvidence?
    requires w.acts[a].host.GivingUp? ==> w.acts[a].host.status != Running
    ensures Reach(w, v) && WentThrough(w, v, a, w.acts[a].row)
  {
    var host := w.acts[a].host;
    var status := if host.GivingUp? then host.status else Finished;
    var reason := if host.GivingUp? then host.reason else Completed;
    ReachSelf(w);
    ReachStep(w, w, Conclude(a, status, reason, "report", now));
    v := OfferedIsMarked(w, Apply(w, Conclude(a, status, reason, "report", now)), a, now);
    assert v.acts == w.acts[a := Over];
  }

  /** On a run that was delivered already, a second loop concludes and dies: its report is lost. */
  lemma SecondConclusionIsLost(w: World, v: World, n: nat, now: int) returns (end: World)
    requires Reach(w, v) && Drives(v, n) && (v.acts[n].host == Resumed || v.acts[n].host.GivingUp?)
    requires v.acts[n].host.GivingUp? ==> v.acts[n].host.status != Running
    requires v.rows[v.acts[n].row].deliveredAt.Some?
    ensures Reach(w, end) && end.acts == [] && Lost(end, v.acts[n].row)
  {
    var Driving(r, host) := v.acts[n];
    var told := Told(v, r);
    var text := FreshText(v.out + v.screen, told);
    var status := if host.GivingUp? then host.status else Finished;
    var reason := if host.GivingUp? then host.reason else Completed;
    ReachStep(w, v, Conclude(n, status, reason, text, now));
    var u := Apply(v, Conclude(n, status, reason, text, now));
    ReachStep(w, u, Crash);
    end := Apply(u, Crash);
    NewTextIsLost(v, end, r, text, told);
  }

  /** What the silent mark of this run would explain. */
  function Told(w: World, r: nat): string {
    if r !in w.silent then ""
    else match w.silent[r]
      case AnswerShown(run, check) => Summary(run, check)
      case Copied(_, text) => text
  }

  lemma NewTextIsLost(v: World, end: World, r: nat, text: string, told: string)
    requires told == Told(v, r) && |text| > |told| && forall o | o in v.out + v.screen :: |text| > |o.1|
    requires end.out == v.out && end.screen == v.screen && end.silent == v.silent
    requires r < |end.rows| && end.rows[r].report == Some(text) && end.rows[r].deliveredAt.Some?
    ensures Lost(end, r)
  {
    assert (r, text) !in v.out + v.screen;
  }

  /**
   * Why exclusivity matters: from any state, a boot pass that picks up a run somebody is working on can
   * end in a report nobody gets. The first loop goes through and the row says delivered; the second
   * concludes with another report, and the process dies before that is sent.
   */
  lemma SharedRunLosesAReport(w: World, r: nat, now: int) returns (end: World)
    requires Sound(w) && Enabled(w, PickUpRunning(r, now)) && !Exclusive(w, PickUpRunning(r, now))
    ensures Reach(Apply(w, PickUpRunning(r, now)), end) && end.acts == [] && Lost(end, r)
  {
    var w1 := Apply(w, PickUpRunning(r, now));
    var a :| 0 <= a < |w.acts| && On(w.acts[a], r);
    assert ActSound(w, w.acts[a]) && RowSound(w, r);
    assert w1.acts[a] == w.acts[a] && w.acts[a].row == r;
    var v := ItGoesThrough(w1, a, now);
    end := SecondConclusionIsLost(w1, v, |w.acts|, now);
  }

  // ---- sharing a debt ----

  /** Handed over more often than crashes explain. */
  predicate PaidTwice(w: World, r: nat) {
    r < |w.lost| && HandOvers(w.out, r) > w.lost[r] + 1
  }

  /** `v` can come after `w` without any further sharing. */
  ghost predicate ReachAlone(w: World, v: World) {
    exists steps :: Legal(w, steps) && AlwaysExclusive(w, steps) && Exec(w, steps) == v
  }

  lemma {:induction false} ExclusiveAppend(w: World, a: seq<Step>, s: Step)
    requires Legal(w, a) && AlwaysExclusive(w, a) && Enabled(Exec(w, a), s) && Exclusive(Exec(w, a), s)
    ensures Legal(w, a + [s]) && AlwaysExclusive(w, a + [s]) && Exec(w, a + [s]) == Apply(Exec(w, a), s)
    decreases |a|
  {
    ExecAppend(w, a, s);
    if a == [] {
      assert a + [s] == [s] && [s][1..] == [];
    } else {
      assert (a + [s])[1..] == a[1..] + [s];
      ExclusiveAppend(Apply(w, a[0]), a[1..], s);
    }
  }

  /**
   * Once a drain has picked up a report somebody else in the process is carrying, it can go out twice,
   * with no crash in between, exactly when that other one is offering it or has had it accepted: a refusal
   * still to be counted and a mark still to be made do no harm.
   */
  lemma SharedDebtIsPaidTwiceExactlyWhen(w: World, r: nat, a: nat)
    requires Sound(w) && Enabled(w, PickUpOwed(r)) && a < |w.acts| && On(w.acts[a], r)
    ensures (exists end :: ReachAlone(Apply(w, PickUpOwed(r)), end) && PaidTwice(end, r))
            <==> w.acts[a].Offering? || w.acts[a].Accepted?
  {
    var w1 := Apply(w, PickUpOwed(r));
    if w.acts[a].Offering? || w.acts[a].Accepted? {
      var end := SharedDebtIsPaidTwice(w, r, a);
    } else {
      SharedDebtIsCarried(w, r, a);
      forall end | ReachAlone(w1, end) ensures !PaidTwice(end, r) {
        var steps :| Legal(w1, steps) && AlwaysExclusive(w1, steps) && Exec(w1, steps) == end;
        RunStaysCarried(w1, steps, r);
      }
    }
  }

  lemma SharedDebtIsPaidTwice(w: World, r: nat, a: nat) returns (end: World)
    requires Sound(w) && Enabled(w, PickUpOwed(r))
    requires a < |w.acts| && On(w.acts[a], r) && (w.acts[a].Offering? || w.acts[a].Accepted?)
    ensures ReachAlone(Apply(w, PickUpOwed(r)), end) && end.lost == w.lost
    ensures r < |end.lost| && HandOvers(end.out, r) == end.lost[r] + 2
  {
    var w1 := Apply(w, PickUpOwed(r));
    HandedSoFar(w, r, a);
    AppendCounts([], Over, w.out, (r, w.rows[r].report.value), r);
    assert Legal(w1, []) && AlwaysExclusive(w1, []) && Exec(w1, []) == w1;
    var u := HandItOver(w1, w1, |w.acts|, r);
    end := HandItOver(w1, u, a, r);
  }

  /** Besides the swallowed ones, a report under way has been handed over exactly when it was accepted. */
  lemma HandedSoFar(w: World, r: nat, a: nat)
    requires Sound(w) && r < |w.rows| && IsOwed(w.rows[r]) && a < |w.acts| && On(w.acts[a], r)
    ensures SwallowedMarks(w.acts, r) == if w.acts[a].Accepted? then 1 else 0
    ensures HandOvers(w.out, r) == w.lost[r] + if w.acts[a].Accepted? then 1 else 0
  {
    assert Accounted(w, r) && RowSound(w, r);
    if w.acts[a].Accepted? { OneMark(w.acts, a, r); } else { NoMark(w.acts, a, r); }
  }

  lemma NoMark(acts: seq<Act>, a: nat, r: nat)
    requires ActsApart(acts) && a < |acts| && On(acts[a], r) && !acts[a].Accepted?
    ensures SwallowedMarks(acts, r) == 0
  {
    forall b | 0 <= b < |acts| ensures acts[b] != Accepted(r) {
      assert b < a || b == a || a < b;
    }
    MarksOfIdleRow(acts, r);
  }

  /** What is being offered is accepted; what was accepted stays so. */
  lemma HandItOver(w: World, v: World, a: nat, r: nat) returns (end: World)
    requires ReachAlone(w, v) && a < |v.acts| && On(v.acts[a], r) && (v.acts[a].Offering? || v.acts[a].Accepted?)
    ensures ReachAlone(w, end) && end.lost == v.lost && |end.acts| == |v.acts|
    ensures forall b | 0 <= b < |v.acts| && b != a :: end.acts[b] == v.acts[b]
    ensures HandOvers(end.out, r) == HandOvers(v.out, r) + if v.acts[a].Offering? then 1 else 0
  {
    end := v;
    if v.acts[a].Offering? {
      var steps :| Legal(w, steps) && AlwaysExclusive(w, steps) && Exec(w, steps) == v;
      ExclusiveAppend(w, steps, Offer(a, Accepts));
      end := Apply(v, Offer(a, Accepts));
      AppendCounts([], Over, v.out, (r, v.acts[a].text), r);
    }
  }

  // ---- why a refusal or a mark under way does no harm ----

  function Offers(acts: seq<Act>, r: nat): nat {
    if acts == [] then 0
    else Offers(acts[..|acts| - 1], r) + if acts[|acts| - 1].Offering? && acts[|acts| - 1].row == r then 1 else 0
  }

  function OneOffer(act: Act, r: nat): nat {
    if act.Offering? && act.row == r then 1 else 0
  }

  function OneMarkOf(act: Act, r: nat): nat {
    if act == Accepted(r) then 1 else 0
  }

  lemma {:induction false} OffersAfter(acts: seq<Act>, a: nat, act: Act, r: nat)
    requires a < |acts|
    ensures Offers(acts[a := act], r) == Offers(acts, r) - OneOffer(acts[a], r) + OneOffer(act, r)
    decreases |acts|
  {
    var last := |acts| - 1;
    if a < last {
      assert acts[a := act][..last] == acts[..last][a := act];
      OffersAfter(acts[..last], a, act, r);
    } else {
      assert acts[a := act][..last] == acts[..last];
    }
  }

  lemma OffersAppend(acts: seq<Act>, act: Act, r: nat)
    ensures Offers(acts + [act], r) == Offers(acts, r) + OneOffer(act, r)
  {
    assert (acts + [act])[..|acts|] == acts;
  }

  lemma {:induction false} NoOffers(acts: seq<Act>, r: nat)
    requires forall a | 0 <= a < |acts| :: OneOffer(acts[a], r) == 0
    ensures Offers(acts, r) == 0
    decreases |acts|
  {
    if acts != [] {
      assert OneOffer(acts[|acts| - 1], r) == 0;
      NoOffers(acts[..|acts| - 1], r);
    }
  }

  /** How often a report was handed over, and may be still by those who carry it. */
  predicate WithinBounds(w: World, r: nat)
    requires r < |w.rows| == |w.lost|
  {
    && Offers(w.acts, r) + SwallowedMarks(w.acts, r) <= 1
    && if w.rows[r].deliveredAt.None? then HandOvers(w.out, r) <= w.lost[r] + SwallowedMarks(w.acts, r)
       else HandOvers(w.out, r) + Offers(w.acts, r) <= w.lost[r] + 1
  }

  /** A concluded report, which at most one activity hands over, whatever else is still to be noted about it. */
  predicate Carried(w: World, r: nat) {
    && r < |w.rows| == |w.lost| && w.rows[r].report.Some? && !IsRunning(w.rows[r])
    && (forall a | 0 <= a < |w.acts| && On(w.acts[a], r) :: !w.acts[a].Driving? && !w.acts[a].Shown?)
    && WithinBounds(w, r)
  }

  lemma CarriedIsNotPaidTwice(w: World, r: nat)
    requires Carried(w, r)
    ensures !PaidTwice(w, r)
  {
  }

  /** Where one activity is on an owed report without offering it, nobody offers or drives it. */
  lemma NobodyElseCarries(w: World, r: nat, a: nat)
    requires Sound(w) && r < |w.rows| && w.rows[r].report.Some?
    requires a < |w.acts| && On(w.acts[a], r) && !w.acts[a].Offering?
    ensures Offers(w.acts, r) == 0
    ensures forall b | 0 <= b < |w.acts| && On(w.acts[b], r) :: !w.acts[b].Driving? && !w.acts[b].Shown?
  {
    forall b | 0 <= b < |w.acts|
      ensures OneOffer(w.acts[b], r) == 0 && (On(w.acts[b], r) ==> !w.acts[b].Driving? && !w.acts[b].Shown?)
    {
      assert ActSound(w, w.acts[b]);
      assert b < a || b == a || a < b;
    }
    NoOffers(w.acts, r);
  }

  lemma SharedDebtIsCarried(w: World, r: nat, a: nat)
    requires Sound(w) && Enabled(w, PickUpOwed(r)) && a < |w.acts| && On(w.acts[a], r)
    requires !w.acts[a].Offering? && !w.acts[a].Accepted?
    ensures Carried(Apply(w, PickUpOwed(r)), r)
  {
    assert RowSound(w, r);
    HandedSoFar(w, r, a);
    NobodyElseCarries(w, r, a);
    PickedUpDebtIsCarried(w, r);
  }

  lemma PickUpCounts(w: World, s: Step, r: nat)
    requires Enabled(w, s) && s.PickUpOwed?
    ensures var w' := Apply(w, s);
            var act := w'.acts[|w.acts|];
            && w'.acts == w.acts + [act] && act.row == s.row && (act.Offering? || act.Accepted?)
            && w'.rows == w.rows && w'.lost == w.lost
            && Offers(w'.acts, r) == Offers(w.acts, r) + OneOffer(act, r)
            && SwallowedMarks(w'.acts, r) == SwallowedMarks(w.acts, r) + OneMarkOf(act, r)
            && HandOvers(w'.out, r) == HandOvers(w.out, r) + OneMarkOf(act, r)
  {
    var act := Apply(w, s).acts[|w.acts|];
    OffersAppend(w.acts, act, r);
    AppendCounts(w.acts, act, w.out, (s.row, w.rows[s.row].report.value), r);
  }

  lemma PickedUpDebtIsCarried(w: World, r: nat)
    requires Enabled(w, PickUpOwed(r)) && r < |w.lost| && |w.lost| == |w.rows| && !IsRunning(w.rows[r])
    requires forall b | 0 <= b < |w.acts| && On(w.acts[b], r) :: !w.acts[b].Driving? && !w.acts[b].Shown?
    requires Offers(w.acts, r) == 0 && SwallowedMarks(w.acts, r) == 0 && HandOvers(w.out, r) == w.lost[r]
    ensures Carried(Apply(w, PickUpOwed(r)), r)
  {
    PickUpCounts(w, PickUpOwed(r), r);
    var w' := Apply(w, PickUpOwed(r));
    forall b | 0 <= b < |w'.acts| && On(w'.acts[b], r) ensures !w'.acts[b].Driving? && !w'.acts[b].Shown? {
      if b < |w.acts| { assert w'.acts[b] == w.acts[b]; }
    }
  }

  lemma StepStaysCarried(w: World, s: Step, r: nat)
    requires Carried(w, r) && Enabled(w, s) && Exclusive(w, s)
    ensures Carried(Apply(w, s), r)
  {
    match s {
      case Begin(_, _, _, _, _) => NewActKeepsCounts(w, Apply(w, s), r);
      case PickUpRunning(_, _) => NewActKeepsCounts(w, Apply(w, s), r);
      case PickUpOwed(q) => DrainStaysCarried(w, q, r);
      case Crash =>
      case _ => ActStepStaysCarried(w, s, r);
    }
  }

  /** One more activity, which carries nothing. */
  lemma NewActKeepsCounts(w: World, w': World, r: nat)
    requires |w'.acts| == |w.acts| + 1 && w'.acts == w.acts + [w'.acts[|w.acts|]] && w'.acts[|w.acts|].Driving?
    ensures Offers(w'.acts, r) == Offers(w.acts, r) && SwallowedMarks(w'.acts, r) == SwallowedMarks(w.acts, r)
  {
    OffersAppend(w.acts, w'.acts[|w.acts|], r);
    AppendCounts(w.acts, w'.acts[|w.acts|], [], (0, ""), r);
  }

  lemma DrainStaysCarried(w: World, q: nat, r: nat)
    requires Carried(w, r) && Enabled(w, PickUpOwed(q)) && Exclusive(w, PickUpOwed(q))
    ensures Carried(Apply(w, PickUpOwed(q)), r)
  {
    PickUpCounts(w, PickUpOwed(q), r);
    if q == r { IdleCounts(w, r); }
    var w' := Apply(w, PickUpOwed(q));
    forall b | 0 <= b < |w'.acts| && On(w'.acts[b], r) ensures !w'.acts[b].Driving? && !w'.acts[b].Shown? {
      if b < |w.acts| { assert w'.acts[b] == w.acts[b]; }
    }
  }

  lemma IdleCounts(w: World, r: nat)
    requires !Busy(w, r)
    ensures Offers(w.acts, r) == 0 && SwallowedMarks(w.acts, r) == 0
  {
    forall a | 0 <= a < |w.acts| ensures OneOffer(w.acts[a], r) == 0 && w.acts[a] != Accepted(r) {
      assert !On(w.acts[a], r);
    }
    NoOffers(w.acts, r);
    MarksOfIdleRow(w.acts, r);
  }

  lemma ActStepCounts(w: World, s: Step, r: nat)
    requires Enabled(w, s) && IsActStep(s)
    ensures var w' := Apply(w, s);
            var was, now := w.acts[s.a], w'.acts[s.a];
            && w'.acts == w.acts[s.a := now]
            && Offers(w'.acts, r) == Offers(w.acts, r) - OneOffer(was, r) + OneOffer(now, r)
            && SwallowedMarks(w'.acts, r) == SwallowedMarks(w.acts, r) - OneMarkOf(was, r) + OneMarkOf(now, r)
            && HandOvers(w'.out, r) ==
                 HandOvers(w.out, r) + if s.Offer? && s.answer == Accepts && was.row == r then 1 else 0
  {
    var w' := Apply(w, s);
    OffersAfter(w.acts, s.a, w'.acts[s.a], r);
    MarksAfter(w.acts, s.a, w'.acts[s.a], r);
    if s.Offer? && s.answer == Accepts {
      AppendCounts([], Over, w.out, (w.acts[s.a].row, w.acts[s.a].text), r);
    }
  }

  lemma ActStepStaysCarried(w: World, s: Step, r: nat)
    requires Carried(w, r) && Enabled(w, s) && IsActStep(s)
    ensures Carried(Apply(w, s), r)
  {
    assert On(w.acts[s.a], r) ==> !w.acts[s.a].Driving? && !w.acts[s.a].Shown?;
    ActStepKeepsRow(w, s, r);
    ActStepStaysWithinBounds(w, s, r);
    ActStepCounts(w, s, r);
    var w' := Apply(w, s);
    forall b | 0 <= b < |w'.acts| && On(w'.acts[b], r) ensures !w'.acts[b].Driving? && !w'.acts[b].Shown? {
      if b != s.a { assert w'.acts[b] == w.acts[b]; }
    }
  }

  lemma ActStepStaysWithinBounds(w: World, s: Step, r: nat)
    requires Enabled(w, s) && IsActStep(s) && r < |w.rows| == |w.lost| && WithinBounds(w, r)
    requires On(w.acts[s.a], r) ==> !w.acts[s.a].Driving? && !w.acts[s.a].Shown?
    ensures r < |Apply(w, s).rows| == |Apply(w, s).lost| && WithinBounds(Apply(w, s), r)
  {
    ActStepKeepsRow(w, s, r);
    ActStepCounts(w, s, r);
  }

  /** Of a concluded report nothing changes but that it is marked, or a refusal is counted. */
  lemma ActStepKeepsRow(w: World, s: Step, r: nat)
    requires Enabled(w, s) && IsActStep(s) && r < |w.rows|
    requires On(w.acts[s.a], r) ==> !w.acts[s.a].Driving? && !w.acts[s.a].Shown?
    ensures var w' := Apply(w, s);
            && |w'.rows| == |w.rows| && w'.lost == w.lost
            && w'.rows[r].report == w.rows[r].report && w'.rows[r].status == w.rows[r].status
            && (w'.rows[r].deliveredAt == w.rows[r].deliveredAt
                || (w'.rows[r].deliveredAt.Some? && s.Mark? && w.acts[s.a].row == r))
            && (w'.acts[s.a].Driving? || w'.acts[s.a].Shown? ==> w'.acts[s.a].row == w.acts[s.a].row != r)
  {
  }

  lemma {:induction false} RunStaysCarried(w: World, steps: seq<Step>, r: nat)
    requires Carried(w, r) && Legal(w, steps) && AlwaysExclusive(w, steps)
    ensures Carried(Exec(w, steps), r) && !PaidTwice(Exec(w, steps), r)
    decreases |steps|
  {
    if steps == [] {
      CarriedIsNotPaidTwice(w, r);
    } else {
      StepStaysCarried(w, steps[0], r);
      RunStaysCarried(Apply(w, steps[0]), steps[1..], r);
    }
  }
}
