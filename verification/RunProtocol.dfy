/**
 * Runs, reports and crashes. Each statement and each send is one step, and the process may die between
 * any two; then the activities, which drive a run or carry a report, are gone.
 */
module RunProtocol {
  import opened Basics
  import opened RunStore
  import opened RunDelivery
  import opened RunHooks

  /** Who drives a run and will conclude it. */
  datatype Host =
    | AtDesktop                                     // an autonomous message on the desktop
    | AtChannel                                     // a chat channel's message, or a scheduled task
    | ForEvidence(answer: string)                   // an ordinary chat turn, noted once its answer is on screen
    | Resumed                                       // the boot pass, running it again
    | GivingUp(status: Status, reason: StopReason)  // the boot pass, concluding it

  /** Why a report was marked delivered without being sent. */
  datatype Silent =
    | AnswerShown(run: Ended, check: Check)  // a finished desktop run: its answer had been on screen
    | Copied(answer: string, text: string)   // evidence: a cleaned copy of a chat's answer, which had been on screen

  datatype Act =
    | Driving(row: nat, host: Host)                  // a loop is working on the run
    | Shown(row: nat, run: Ended, check: Check)      // the desktop's last answer is on screen, nothing is stored yet
    | Offering(row: nat, text: string)               // the report is stored, the send has not returned
    | Accepted(row: nat)                             // the send succeeded, the row does not say so yet
    | Refusing(row: nat)                             // the target refused, the row does not say so yet
    | Unsent(row: nat, how: Silent)                  // the report is stored and will be marked without a send
    | Over

  /**
   * `out`, `screen`, `lost`, `silenced` and `silent` are history: every report handed over; the last
   * answers the desktop showed, and the answers of chats it noted; per run, the hand-overs whose mark a
   * crash swallowed; the runs that were ended without a report; the runs marked delivered without a send.
   */
  datatype World = World(
    rows: seq<RunRow>,
    turns: seq<seq<Turn>>,
    acts: seq<Act>,
    out: seq<(nat, string)>,
    screen: seq<(nat, string)>,
    lost: seq<nat>,
    silenced: set<nat>,
    silent: map<nat, Silent>
  )

  datatype Step =
    | Begin(input: StartInput, host: Host, reclaimed: Option<nat>, staleWindow: nat, now: int)
    | RecordTurn(a: nat, turn: Turn, now: int)
    | PickUpRunning(row: nat, now: int)
    | PickUpOwed(row: nat)
    | Show(a: nat, run: Ended, check: Check)
    | ConcludeShown(a: nat, now: int)
    | ConcludeCopy(a: nat, status: Status, reason: StopReason, text: string, now: int)
    | Conclude(a: nat, status: Status, reason: StopReason, text: string, now: int)
    | EndSilently(a: nat, now: int)
    | Drop(a: nat)
    | Offer(a: nat, answer: Answer)
    | Mark(a: nat, now: int)
    | CountRefusal(a: nat)
    | Crash

  /** Desktop rows are begun by the desktop only. */
  predicate Begins(host: Host, input: StartInput) {
    match host
    case AtDesktop => input.delivery == Some(Surface.Desktop)
    case ForEvidence(_) => input.delivery == Some(Surface.Desktop)
    case AtChannel => input.delivery != Some(Surface.Desktop)
    case _ => false
  }

  predicate Drives(w: World, a: nat) {
    a < |w.acts| && w.acts[a].Driving? && w.acts[a].row < |w.rows| && w.acts[a].row < |w.turns|
  }

  predicate MayConclude(host: Host, status: Status, reason: StopReason) {
    match host
    case AtChannel => status != Running
    case Resumed => status != Running
    case GivingUp(s, r) => status == s && reason == r
    case _ => false
  }

  predicate Enabled(w: World, s: Step) {
    match s
    case Begin(input, host, reclaimed, staleWindow, now) =>
      Begins(host, input) && MayReclaim(w.rows, input.session, reclaimed, now, staleWindow)
    case RecordTurn(a, _, _) => Drives(w, a) && !w.acts[a].host.GivingUp?
    case PickUpRunning(row, _) => row < |w.rows| && row < |w.turns| && IsRunning(w.rows[row])
    case PickUpOwed(row) => row < |w.rows| && IsOwed(w.rows[row]) && w.rows[row].report.value != ""
    case Show(a, _, _) => Drives(w, a) && w.acts[a].host == AtDesktop
    case ConcludeShown(a, _) => a < |w.acts| && w.acts[a].Shown? && w.acts[a].row < |w.rows|
    case ConcludeCopy(a, status, _, _, _) => Drives(w, a) && w.acts[a].host.ForEvidence? && status != Running
    case Conclude(a, status, reason, _, _) => Drives(w, a) && MayConclude(w.acts[a].host, status, reason)
    case EndSilently(a, _) => Drives(w, a) && w.acts[a].host.GivingUp?
    case Drop(a) => a < |w.acts| && (w.acts[a].Shown? || (w.acts[a].Driving? && !w.acts[a].host.GivingUp?))
    case Offer(a, _) => a < |w.acts| && w.acts[a].Offering?
    case Mark(a, _) => a < |w.acts| && (w.acts[a].Accepted? || w.acts[a].Unsent?) && w.acts[a].row < |w.rows|
    case CountRefusal(a) => a < |w.acts| && w.acts[a].Refusing? && w.acts[a].row < |w.rows|
    case Crash => true
  }

  function SwallowedMarks(acts: seq<Act>, row: nat): nat {
    if acts == [] then 0
    else SwallowedMarks(acts[..|acts| - 1], row) + if acts[|acts| - 1] == Accepted(row) then 1 else 0
  }

  function Apply(w: World, s: Step): World
    requires Enabled(w, s)
  {
    match s
    case Begin(input, host, reclaimed, _, now) =>
      w.(rows := AfterReclaim(w.rows, reclaimed, now) + [NewRow(input, now)], turns := w.turns + [[]],
         acts := w.acts + [Driving(|w.rows|, host)], lost := w.lost + [0],
         screen := if host.ForEvidence? then w.screen + [(|w.rows|, host.answer)] else w.screen,
         silenced := if reclaimed.Some? then w.silenced + {reclaimed.value} else w.silenced)
    case RecordTurn(a, turn, now) =>
      var row := w.acts[a].row;
      w.(rows := w.rows[row := TurnRow(w.rows[row], turn, now)], turns := w.turns[row := w.turns[row] + [turn]])
    case PickUpRunning(row, now) =>
      (match DecideResume(w.rows[row], w.turns[row], now)
       case Resume => w.(rows := w.rows[row := ResumeRow(w.rows[row], |w.turns[row]| + 1, now)],
                         acts := w.acts + [Driving(row, Resumed)])
       case GiveUp(status, reason) => w.(acts := w.acts + [Driving(row, GivingUp(status, reason))]))
    case PickUpOwed(row) =>
      if w.rows[row].deliveryAttempts >= MAX_DELIVERY_REFUSALS
      then w.(out := w.out + [(row, w.rows[row].report.value)], acts := w.acts + [Accepted(row)])
      else w.(acts := w.acts + [Offering(row, w.rows[row].report.value)])
    case Show(a, run, check) =>
      var row := w.acts[a].row;
      w.(screen := w.screen + [(row, run.answer)], acts := w.acts[a := Shown(row, run, check)])
    case ConcludeShown(a, now) =>
      var Shown(row, run, check) := w.acts[a];
      var text := Summary(run, check);
      w.(rows := w.rows[row := FinishRow(w.rows[row], FinalStatus(run, check), run.reason, Some(text), now)],
         acts := w.acts[a := if run.finished then Unsent(row, AnswerShown(run, check)) else Offering(row, text)])
    case ConcludeCopy(a, status, reason, text, now) =>
      var row := w.acts[a].row;
      w.(rows := w.rows[row := FinishRow(w.rows[row], status, reason, Some(text), now)],
          acts := w.acts[a := Unsent(row, Copied(w.acts[a].host.answer, text))])
    case Conclude(a, status, reason, text, now) =>
      var row := w.acts[a].row;
      w.(rows := w.rows[row := FinishRow(w.rows[row], status, reason, Some(text), now)],
          acts := w.acts[a := Offering(row, text)])
    case EndSilently(a, now) =>
      var Driving(row, host) := w.acts[a];
      if IsRunning(w.rows[row])
      then w.(rows := w.rows[row := FinishRow(w.rows[row], host.status, host.reason, None, now)],
          acts := w.acts[a := Over],
              silenced := w.silenced + {row})
      else w.(acts := w.acts[a := Over])
    case Drop(a) => w.(acts := w.acts[a := Over])
    case Offer(a, answer) =>
      var act := w.acts[a];
      (match answer
       case Accepts => w.(out := w.out + [(act.row, act.text)], acts := w.acts[a := Accepted(act.row)])
       case Refuses => w.(acts := w.acts[a := Refusing(act.row)])
       case _ => w.(acts := w.acts[a := Over]))
    case Mark(a, now) =>
      var act := w.acts[a];
      w.(rows := w.rows[act.row := DeliverRow(w.rows[act.row], now)], acts := w.acts[a := Over],
         silent := if act.Unsent? then w.silent[act.row := act.how] else w.silent)
    case CountRefusal(a) =>
      var row := w.acts[a].row;
      w.(rows := w.rows[row := RefuseRow(w.rows[row])], acts := w.acts[a := Over])
    case Crash =>
      w.(acts := [], lost := seq(|w.lost|, (i: nat) requires i < |w.lost| => w.lost[i] + SwallowedMarks(w.acts, i)))
  }

  predicate On(act: Act, row: nat) {
    act != Over && act.row == row
  }

  predicate Busy(w: World, row: nat) {
    exists a :: 0 <= a < |w.acts| && On(w.acts[a], row)
  }

  /**
   * What the code does not check itself: a boot pass leaves alone the runs this same process is
   * working on or reporting right now.
   */
  predicate Exclusive(w: World, s: Step) {
    match s
    case PickUpRunning(row, _) => !Busy(w, row)
    case PickUpOwed(row) => !Busy(w, row)
    case _ => true
  }

  // ---- what every exclusive run keeps ----

  /** Nothing of this run was handed over. */
  predicate Quiet(w: World, i: nat) {
    forall o | o in w.out :: o.0 != i
  }

  predicate Unseen(w: World, i: nat) {
    forall o | o in w.screen :: o.0 != i
  }

  /** What the desktop showed of this run is this answer. */
  predicate Saw(w: World, i: nat, answer: string) {
    (i, answer) in w.screen && forall o | o in w.screen && o.0 == i :: o.1 == answer
  }

  predicate SilentSound(w: World, i: nat, how: Silent)
    requires i < |w.rows|
  {
    && w.rows[i].delivery == Some(Surface.Desktop) && Quiet(w, i)
    && match how
       case AnswerShown(run, check) =>
           run.finished && w.rows[i].report == Some(Summary(run, check)) && Saw(w, i, run.answer)
       case Copied(answer, text) => w.rows[i].report == Some(text) && Saw(w, i, answer)
  }

  predicate HostSound(w: World, i: nat, host: Host)
    requires i < |w.rows|
  {
    match host
    case AtDesktop => w.rows[i].delivery == Some(Surface.Desktop) && Unseen(w, i)
    case ForEvidence(answer) => w.rows[i].delivery == Some(Surface.Desktop) && Saw(w, i, answer)
    case GivingUp(status, _) => status != Running
    case _ => true
  }

  predicate ActSound(w: World, act: Act) {
    act != Over ==>
      && act.row < |w.rows| && w.rows[act.row].deliveredAt.None?
      && match act
         case Driving(r, host) => w.rows[r].report.None? && HostSound(w, r, host)
         case Shown(r, run, _) => w.rows[r].report.None? && w.rows[r].delivery == Some(Surface.Desktop)
             && Saw(w, r, run.answer)
         case Offering(r, t) => w.rows[r].report == Some(t)
         case Accepted(r) => w.rows[r].report.Some? && (r, w.rows[r].report.value) in w.out
         case Refusing(r) => w.rows[r].report.Some?
         case Unsent(r, how) => SilentSound(w, r, how)
  }

  predicate RowSound(w: World, i: nat)
    requires i < |w.rows|
  {
    var row := w.rows[i];
    && (IsRunning(row) ==> row.report.None?)
    && (row.report.None? ==> row.deliveredAt.None? && Quiet(w, i))
    && (!IsRunning(row) && row.report.None? ==> i in w.silenced)
    && (row.deliveredAt.Some? && i !in w.silent ==> (i, row.report.value) in w.out)
    && (i in w.silent ==> row.deliveredAt.Some? && SilentSound(w, i, w.silent[i]))
  }

  function HandOvers(out: seq<(nat, string)>, i: nat): nat {
    if out == [] then 0 else HandOvers(out[..|out| - 1], i) + if out[|out| - 1].0 == i then 1 else 0
  }

  /**
   * Every hand-over of a run is the one its row records, or one still to be marked, or one whose mark died in
   * a crash.
   */
  predicate Accounted(w: World, i: nat)
    requires i < |w.rows| == |w.lost|
  {
    HandOvers(w.out, i)
      == w.lost[i] + (if w.rows[i].deliveredAt.Some? && i !in w.silent then 1 else 0) + SwallowedMarks(w.acts, i)
  }

  predicate ActsApart(acts: seq<Act>) {
    forall a, b | 0 <= a < b < |acts| && acts[a] != Over && acts[b] != Over :: acts[a].row != acts[b].row
  }

  predicate Sound(w: World) {
    && |w.lost| == |w.rows| == |w.turns|
    && ActsApart(w.acts)
    && (forall o | o in w.out + w.screen :: o.0 < |w.rows|)
    && (forall i | i in w.silent :: i < |w.rows|)
    && (forall a | 0 <= a < |w.acts| :: ActSound(w, w.acts[a]))
    && (forall i: nat | i < |w.rows| :: RowSound(w, i) && Accounted(w, i))
  }

  lemma {:induction false} MarksOfIdleRow(acts: seq<Act>, row: nat)
    requires forall a | 0 <= a < |acts| :: acts[a] != Accepted(row)
    ensures SwallowedMarks(acts, row) == 0
    decreases |acts|
  {
    if acts != [] {
      MarksOfIdleRow(acts[..|acts| - 1], row);
    }
  }

  lemma {:induction false} MarksAfter(acts: seq<Act>, a: nat, act: Act, row: nat)
    requires a < |acts|
    ensures SwallowedMarks(acts[a := act], row)
         == SwallowedMarks(acts, row) - (if acts[a] == Accepted(row) then 1 else 0)
             + (if act == Accepted(row) then 1 else 0)
    decreases |acts|
  {
    var last := |acts| - 1;
    if a < last {
      assert acts[a := act][..last] == acts[..last][a := act];
      MarksAfter(acts[..last], a, act, row);
    } else {
      assert acts[a := act][..last] == acts[..last];
    }
  }

  lemma AppendCounts(acts: seq<Act>, act: Act, out: seq<(nat, string)>, o: (nat, string), row: nat)
    ensures SwallowedMarks(acts + [act], row) == SwallowedMarks(acts, row) + if act == Accepted(row) then 1 else 0
    ensures HandOvers(out + [o], row) == HandOvers(out, row) + if o.0 == row then 1 else 0
  {
    assert (acts + [act])[..|acts|] == acts && (out + [o])[..|out|] == out;
  }

  lemma {:induction false} NoHandOvers(out: seq<(nat, string)>, i: nat)
    requires forall o | o in out :: o.0 != i
    ensures HandOvers(out, i) == 0
    decreases |out|
  {
    if out != [] {
      NoHandOvers(out[..|out| - 1], i);
    }
  }

  lemma StepStaysSound(w: World, s: Step)
    requires Sound(w) && Enabled(w, s) && Exclusive(w, s)
    ensures Sound(Apply(w, s))
  {
    match s {
      case Begin(_, _, _, _, _) => BeginStaysSound(w, s);
      case PickUpRunning(_, _) => PickUpStaysSound(w, s);
      case PickUpOwed(_) => PickUpStaysSound(w, s);
      case Crash => CrashStaysSound(w);
      case _ => ActStepStaysSound(w, s);
    }
  }

  /** A step keeps everything accounted for exactly when it is exclusive. */
  lemma StepStaysSoundExactlyWhen(w: World, s: Step)
    requires Sound(w) && Enabled(w, s)
    ensures Sound(Apply(w, s)) <==> Exclusive(w, s)
  {
    if Exclusive(w, s) {
      StepStaysSound(w, s);
    } else {
      var a :| 0 <= a < |w.acts| && On(w.acts[a], s.row);
      var acts := Apply(w, s).acts;
      assert acts[a] == w.acts[a] && On(acts[|w.acts|], s.row);
    }
  }

  lemma BeginStaysSound(w: World, s: Step)
    requires Sound(w) && Enabled(w, s) && s.Begin?
    ensures Sound(Apply(w, s))
  {
    var w' := Apply(w, s);
    forall a | 0 <= a < |w'.acts|
      ensures ActSound(w', w'.acts[a]) && (a < |w.acts| && w.acts[a] != Over ==> w.acts[a].row < |w.rows|)
    {
      BeginActStaysSound(w, s, a);
    }
    forall i: nat | i < |w'.rows| ensures RowSound(w', i) && Accounted(w', i) {
      BeginRowStaysSound(w, s, i);
    }
  }

  lemma BeginActStaysSound(w: World, s: Step, a: nat)
    requires Sound(w) && Enabled(w, s) && s.Begin? && a <= |w.acts|
    ensures ActSound(Apply(w, s), Apply(w, s).acts[a])
            && (a < |w.acts| && w.acts[a] != Over ==> w.acts[a].row < |w.rows|)
  {
    if a < |w.acts| {
      assert ActSound(w, w.acts[a]);
      if s.reclaimed.Some? { assert RowSound(w, s.reclaimed.value); }
    }
  }

  lemma BeginRowStaysSound(w: World, s: Step, i: nat)
    requires Sound(w) && Enabled(w, s) && s.Begin? && i <= |w.rows|
    ensures RowSound(Apply(w, s), i) && Accounted(Apply(w, s), i)
  {
    AppendCounts(w.acts, Apply(w, s).acts[|w.acts|], w.out, (0, ""), i);
    if i < |w.rows| {
      assert RowSound(w, i) && Accounted(w, i);
    } else {
      NoHandOvers(w.out, i);
      forall a | 0 <= a < |w.acts| ensures w.acts[a] != Accepted(i) {
        assert ActSound(w, w.acts[a]);
      }
      MarksOfIdleRow(w.acts, i);
    }
  }

  /** For this run the two worlds look the same. */
  ghost predicate SameAt(w: World, w': World, i: nat) {
    && i < |w.rows| && i < |w'.rows| && w'.rows[i] == w.rows[i]
    && (forall text :: (i, text) in w'.out <==> (i, text) in w.out)
    && (forall text :: (i, text) in w'.screen <==> (i, text) in w.screen)
    && (i in w'.silent <==> i in w.silent) && (i in w.silent ==> w'.silent[i] == w.silent[i])
    && (i in w.silenced ==> i in w'.silenced)
  }

  lemma HistoriesFrame(w: World, w': World, i: nat)
    requires SameAt(w, w', i)
    ensures Quiet(w', i) == Quiet(w, i) && Unseen(w', i) == Unseen(w, i)
    ensures forall answer :: Saw(w', i, answer) == Saw(w, i, answer)
  {
    forall o | o in w.out + w'.out && o.0 == i ensures o == (i, o.1) {}
    forall o | o in w.screen + w'.screen && o.0 == i ensures o == (i, o.1) {}
  }

  lemma RowFrames(w: World, w': World, i: nat)
    requires SameAt(w, w', i) && RowSound(w, i)
    ensures RowSound(w', i)
  {
    HistoriesFrame(w, w', i);
  }

  lemma ActFrames(w: World, w': World, act: Act)
    requires ActSound(w, act) && (act != Over ==> SameAt(w, w', act.row))
    ensures ActSound(w', act)
  {
    if act != Over { HistoriesFrame(w, w', act.row); }
  }

  /**
   * What a pick-up changes: one more activity on this run, and a hand-over at once if that is what the
   * activity says.
   */
  ghost predicate PicksUp(w: World, w': World, r: nat, act: Act) {
    && act != Over && act.row == r && w'.acts == w.acts + [act]
    && r < |w.rows| && |w'.rows| == |w.rows| && w'.rows == w.rows[r := w'.rows[r]]
    && w'.turns == w.turns && w'.lost == w.lost && w'.silenced == w.silenced
        && w'.silent == w.silent && w'.screen == w.screen
    && w'.rows[r].deliveredAt == w.rows[r].deliveredAt
    && if act.Accepted? then |w'.out| == |w.out| + 1 && w'.out == w.out + [(r, w'.out[|w.out|].1)] else w'.out == w.out
  }

  lemma PickUpPicksUp(w: World, s: Step)
    requires Sound(w) && Enabled(w, s) && (s.PickUpRunning? || s.PickUpOwed?)
    ensures PicksUp(w, Apply(w, s), s.row, Apply(w, s).acts[|w.acts|])
    ensures RowSound(Apply(w, s), s.row) && ActSound(Apply(w, s), Apply(w, s).acts[|w.acts|])
  {
    assert RowSound(w, s.row);
    assert Apply(w, s).rows == w.rows[s.row := Apply(w, s).rows[s.row]];
  }

  lemma PickedUpStaysSound(w: World, w': World, r: nat, act: Act)
    requires Sound(w) && PicksUp(w, w', r, act) && !Busy(w, r) && RowSound(w', r) && ActSound(w', act)
    ensures Sound(w')
  {
    forall i: nat | i < |w.rows| && i != r ensures SameAt(w, w', i) {}
    forall a | 0 <= a < |w.acts| ensures ActSound(w', w.acts[a]) && !On(w.acts[a], r) {
      assert ActSound(w, w.acts[a]) && !On(w.acts[a], r);
      ActFrames(w, w', w.acts[a]);
    }
    forall i: nat | i < |w'.rows| ensures RowSound(w', i) && Accounted(w', i) {
      assert RowSound(w, i) && Accounted(w, i);
      PickUpAccounts(w, w', r, act, i);
      if i != r { RowFrames(w, w', i); }
    }
  }

  lemma PickUpAccounts(w: World, w': World, r: nat, act: Act, i: nat)
    requires PicksUp(w, w', r, act) && i < |w.rows| == |w.lost| && Accounted(w, i)
    ensures Accounted(w', i)
  {
    AppendCounts(w.acts, act, w.out, if |w'.out| > |w.out| then w'.out[|w.out|] else (0, ""), i);
  }

  lemma PickUpStaysSound(w: World, s: Step)
    requires Sound(w) && Enabled(w, s) && Exclusive(w, s) && (s.PickUpRunning? || s.PickUpOwed?)
    ensures Sound(Apply(w, s))
  {
    PickUpPicksUp(w, s);
    PickedUpStaysSound(w, Apply(w, s), s.row, Apply(w, s).acts[|w.acts|]);
  }

  lemma CrashStaysSound(w: World)
    requires Sound(w)
    ensures Sound(Apply(w, Crash))
  {
    var w' := Apply(w, Crash);
    forall i: nat | i < |w'.rows| ensures RowSound(w', i) && Accounted(w', i) {
      assert RowSound(w, i) && Accounted(w, i);
    }
  }

  /** What a step of activity `a` may touch: its own run, its own place in the list, and the end of the histories. */
  predicate Local(w: World, w': World, a: nat, handed: seq<(nat, string)>, shown: seq<(nat, string)>) {
    && a < |w.acts| && w.acts[a] != Over && |w'.acts| == |w.acts| && |w'.rows| == |w.rows|
    && w'.acts == w.acts[a := w'.acts[a]] && (w'.acts[a] == Over || w'.acts[a].row == w.acts[a].row)
    && var r := w.acts[a].row;
       && r < |w.rows| && w'.rows == w.rows[r := w'.rows[r]] && |w'.turns| == |w.turns|
       && w'.lost == w.lost && w.silenced <= w'.silenced
       && (w'.silent == w.silent || (r in w'.silent && w'.silent == w.silent[r := w'.silent[r]]))
       && (handed == [] || (|handed| == 1 && handed[0].0 == r)) && w'.out == w.out + handed
       && (shown == [] || (|shown| == 1 && shown[0].0 == r)) && w'.screen == w.screen + shown
  }

  lemma LocalIsElsewhereSame(w: World, w': World, a: nat, handed: seq<(nat, string)>, shown: seq<(nat, string)>, i: nat)
    requires Local(w, w', a, handed, shown) && i < |w.rows| && i != w.acts[a].row
    ensures SameAt(w, w', i)
  {
  }

  lemma LocalActStaysSound(w: World, w': World, a: nat, handed: seq<(nat, string)>, shown: seq<(nat, string)>, b: nat)
    requires Sound(w) && Local(w, w', a, handed, shown) && b < |w.acts| && b != a
    ensures ActSound(w', w.acts[b])
  {
    assert ActSound(w, w.acts[b]);
    if w.acts[b] != Over { LocalIsElsewhereSame(w, w', a, handed, shown, w.acts[b].row); }
    ActFrames(w, w', w.acts[b]);
  }

  lemma LocalRowStaysSound(w: World, w': World, a: nat, handed: seq<(nat, string)>, shown: seq<(nat, string)>, i: nat)
    requires Sound(w) && Local(w, w', a, handed, shown) && i < |w.rows| && i != w.acts[a].row
    ensures RowSound(w', i) && |w'.lost| == |w'.rows| && Accounted(w', i)
  {
    assert RowSound(w, i) && Accounted(w, i);
    LocalIsElsewhereSame(w, w', a, handed, shown, i);
    RowFrames(w, w', i);
    LocalAccounts(w, w', a, handed, shown, i);
  }

  lemma LocalKeepsActs(w: World, w': World, a: nat, handed: seq<(nat, string)>, shown: seq<(nat, string)>)
    requires Sound(w) && Local(w, w', a, handed, shown) && ActSound(w', w'.acts[a])
    ensures ActsApart(w'.acts) && forall b | 0 <= b < |w'.acts| :: ActSound(w', w'.acts[b])
  {
    forall b | 0 <= b < |w'.acts| ensures ActSound(w', w'.acts[b]) {
      if b != a { LocalActStaysSound(w, w', a, handed, shown, b); }
    }
  }

  lemma LocalKeepsHistories(w: World, w': World, a: nat, handed: seq<(nat, string)>, shown: seq<(nat, string)>)
    requires Sound(w) && Local(w, w', a, handed, shown)
    ensures forall o | o in w'.out + w'.screen :: o.0 < |w'.rows|
    ensures forall i | i in w'.silent :: i < |w'.rows|
  {
  }

  /** A local step is sound everywhere when it is sound at its own run. */
  lemma LocalStepStaysSound(w: World, w': World, a: nat, handed: seq<(nat, string)>, shown: seq<(nat, string)>)
    requires Sound(w) && Local(w, w', a, handed, shown)
    requires ActSound(w', w'.acts[a]) && RowSound(w', w.acts[a].row)
            && |w'.lost| == |w'.rows| && Accounted(w', w.acts[a].row)
    ensures Sound(w')
  {
    LocalKeepsActs(w, w', a, handed, shown);
    LocalKeepsHistories(w, w', a, handed, shown);
    forall i: nat | i < |w'.rows| ensures RowSound(w', i) && Accounted(w', i) {
      if i != w.acts[a].row { LocalRowStaysSound(w, w', a, handed, shown, i); }
    }
  }

  lemma LocalAccounts(w: World, w': World, a: nat, handed: seq<(nat, string)>, shown: seq<(nat, string)>, i: nat)
    requires Local(w, w', a, handed, shown) && i < |w.rows| == |w.lost| && i != w.acts[a].row && Accounted(w, i)
    ensures Accounted(w', i)
  {
    MarksAfter(w.acts, a, w'.acts[a], i);
    if handed == [] {
      assert w'.out == w.out;
    } else {
      assert w'.out == w.out + [handed[0]];
      AppendCounts([], Over, w.out, handed[0], i);
    }
  }

  function Handed(w: World, s: Step): seq<(nat, string)> {
    if s.Offer? && s.a < |w.acts| && w.acts[s.a].Offering? && s.answer == Accepts
        then [(w.acts[s.a].row, w.acts[s.a].text)] else []
  }

  function Displayed(w: World, s: Step): seq<(nat, string)> {
    if s.Show? && s.a < |w.acts| && w.acts[s.a].Driving? then [(w.acts[s.a].row, s.run.answer)] else []
  }

  predicate IsActStep(s: Step) {
    !s.Begin? && !s.PickUpRunning? && !s.PickUpOwed? && !s.Crash?
  }

  lemma ActStepStaysSound(w: World, s: Step)
    requires Sound(w) && Enabled(w, s) && IsActStep(s)
    ensures Sound(Apply(w, s))
  {
    ActStepIsLocal(w, s);
    ActSoundAtItsRow(w, s);
    AccountedAtItsRow(w, s);
    LocalStepStaysSound(w, Apply(w, s), s.a, Handed(w, s), Displayed(w, s));
  }

  lemma ActStepIsLocal(w: World, s: Step)
    requires Sound(w) && Enabled(w, s) && IsActStep(s)
    ensures Local(w, Apply(w, s), s.a, Handed(w, s), Displayed(w, s))
  {
    var r := w.acts[s.a].row;
    assert ActSound(w, w.acts[s.a]);
    assert Apply(w, s).rows == w.rows[r := Apply(w, s).rows[r]];
  }

  lemma ActSoundAtItsRow(w: World, s: Step)
    requires Sound(w) && Enabled(w, s) && IsActStep(s)
    ensures var r := w.acts[s.a].row;
            var w' := Apply(w, s);
            r < |w'.rows| && ActSound(w', w'.acts[s.a]) && RowSound(w', r)
  {
    assert ActSound(w, w.acts[s.a]) && RowSound(w, w.acts[s.a].row);
    if s.Show? || s.ConcludeShown? || s.ConcludeCopy? {
      DesktopSoundAtItsRow(w, s);
    } else {
      OthersSoundAtTheirRow(w, s);
    }
  }

  lemma DesktopSoundAtItsRow(w: World, s: Step)
    requires Enabled(w, s) && (s.Show? || s.ConcludeShown? || s.ConcludeCopy?)
    requires ActSound(w, w.acts[s.a]) && RowSound(w, w.acts[s.a].row)
    ensures var r := w.acts[s.a].row;
            ActSound(Apply(w, s), Apply(w, s).acts[s.a]) && RowSound(Apply(w, s), r)
  {
  }

  lemma OthersSoundAtTheirRow(w: World, s: Step)
    requires Enabled(w, s) && IsActStep(s) && !s.Show? && !s.ConcludeShown? && !s.ConcludeCopy?
    requires w.acts[s.a].row < |w.rows| && ActSound(w, w.acts[s.a]) && RowSound(w, w.acts[s.a].row)
    ensures var r := w.acts[s.a].row;
            ActSound(Apply(w, s), Apply(w, s).acts[s.a]) && RowSound(Apply(w, s), r)
  {
  }

  lemma AccountedAtItsRow(w: World, s: Step)
    requires Sound(w) && Enabled(w, s) && IsActStep(s)
    ensures var r := w.acts[s.a].row; r < |Apply(w, s).rows| == |Apply(w, s).lost| && Accounted(Apply(w, s), r)
  {
    var w' := Apply(w, s);
    var r := w.acts[s.a].row;
    assert ActSound(w, w.acts[s.a]) && RowSound(w, r) && Accounted(w, r);
    CountsAtItsRow(w, s);
  }

  lemma CountsAtItsRow(w: World, s: Step)
    requires Enabled(w, s) && IsActStep(s)
    ensures var r := w.acts[s.a].row;
            var w' := Apply(w, s);
            && SwallowedMarks(w'.acts, r) == SwallowedMarks(w.acts, r)
                 - (if w.acts[s.a].Accepted? && !s.RecordTurn? then 1 else 0)
                 + (if s.Offer? && s.answer == Accepts then 1 else 0)
            && HandOvers(w'.out, r) == HandOvers(w.out, r) + if s.Offer? && s.answer == Accepts then 1 else 0
  {
    var w' := Apply(w, s);
    var r := w.acts[s.a].row;
    MarksAfter(w.acts, s.a, w'.acts[s.a], r);
    if s.RecordTurn? { assert w'.acts == w.acts; }
    if s.Offer? && s.answer == Accepts {
      AppendCounts([], Over, w.out, (r, w.acts[s.a].text), r);
    }
  }
}
