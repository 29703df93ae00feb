/**
 * What a boot does with the runs it finds: it hands over owed reports, then resumes or gives up runs still
 * marked running. What targets answer and what becomes of each run are parameters.
 */
module RunDelivery {
  import opened Basics
  import opened RunStore

  const MAX_DELIVERY_REFUSALS := 3
  const DEFAULT_MAX_RESUMES := 3
  const REDELIVERY_NOTE := "_(re-sent after a restart — the process stopped before this reached you)_"

  /** What the channel behind a run does when asked to carry a text. */
  datatype Answer = Accepts | NoChannel | Refuses | Throws

  // ---- what a boot promises a person, said of the columns of a row and of the texts sent ----

  /** The texts that left for the person behind run `i`, in order. */
  function TextsOf(out: seq<(nat, string)>, i: nat): seq<string> {
    if out == [] then []
    else TextsOf(out[..|out| - 1], i) + if out[|out| - 1].0 == i then [out[|out| - 1].1] else []
  }

  predicate Ordered(out: seq<(nat, string)>) {
    forall j, k | 0 <= j < k < |out| :: out[j].0 < out[k].0
  }

  /** Nobody is asked: the text goes to the log. */
  predicate GoesToTheLog(row: RunRow) {
    row.delivery.Some? ==> row.delivery.value in {Cron, Tui, Surface.Desktop}
  }

  /**
   * What a drain does for one row. A report that is neither empty nor delivered is handed over when it
   * goes to the log, when its channel accepts, or when it has been refused three times; then the row is
   * marked, and the text is the report, with the note above it unless the refusals decided. A row that
   * is not newly marked gains no text; a refusal is counted; nothing else changes.
   */
  predicate HandedOver(row: RunRow, answer: Answer, now: int, row': RunRow, texts: seq<string>) {
    var tries := row.report.Some? && row.report.value != "" && row.deliveredAt.None?;
    var givenUp := row.deliveryAttempts >= 3;
    && row' == row.(deliveredAt := row'.deliveredAt, deliveryAttempts := row'.deliveryAttempts)
    && row'.deliveredAt == (if texts == [] then row.deliveredAt else Some(now))
    && texts == (
         if tries && givenUp then [row.report.value]
         else if tries && (GoesToTheLog(row) || answer == Accepts)
         then [REDELIVERY_NOTE + "\n\n" + row.report.value]
         else [])
    && row'.deliveryAttempts == row.deliveryAttempts
         + if tries && !givenUp && !GoesToTheLog(row) && answer == Refuses then 1 else 0
  }

  predicate Scheduled(row: RunRow) {
    row.delivery == Some(Cron) || (|row.session| >= 5 && row.session[..5] == "cron:")
  }

  predicate OutOfTime(row: RunRow, now: int) {
    row.deadlineAt.Some? && row.deadlineAt.value <= now
  }

  /** The turn at position `n` came after the last resume. */
  predicate SinceResume(row: RunRow, turns: seq<Turn>, n: nat) {
    n < |turns| && (row.lastResumeSeq.Some? ==> n + 1 >= row.lastResumeSeq.value)
  }

  /** The run was resumed, its changes are measured, and there are turns since then, none of which moved anything. */
  ghost predicate TriedInVain(row: RunRow, turns: seq<Turn>) {
    && row.resumes > 0 && row.hasSafetyPoint
    && (exists n: nat :: SinceResume(row, turns, n))
    && forall n: nat | SinceResume(row, turns, n) :: turns[n].filesChanged == 0 && turns[n].todosClosed == 0
  }

  /** Which interrupted runs are picked up again. */
  ghost predicate MayResume(row: RunRow, turns: seq<Turn>, now: int) {
    !Scheduled(row) && !OutOfTime(row, now) && row.resumes < 3 && !TriedInVain(row, turns)
  }

  /** How one that is not is concluded: what ended it is the first of the four that applies. */
  predicate GivenUpAs(row: RunRow, now: int, status: Status, reason: StopReason) {
    && (reason == ProcessDied <==> Scheduled(row) || OutOfTime(row, now))
    && (reason == ResumeCap <==> !Scheduled(row) && !OutOfTime(row, now) && row.resumes >= 3)
    && reason in {ProcessDied, ResumeCap, NoProgress}
    && status == if !Scheduled(row) && OutOfTime(row, now) then Unfinished else NeedsAttention
  }

  /**
   * What the pass over interrupted runs does for one of them. A resumed run says so before anything
   * else; it stays running exactly when that attempt throws. A run that is given up leaves `running`
   * in any case. The text the callback concluded with, if any, is stored, and handed over as it is.
   */
  ghost predicate Recovered(row: RunRow, turns: seq<Turn>, fate: Fate, now: int, row': RunRow, texts: seq<string>) {
    var resumed := MayResume(row, turns, now);
    var taken := fate.Concludes? && (GoesToTheLog(row) || fate.answer == Accepts);
    var refused := fate.Concludes? && !GoesToTheLog(row) && fate.answer == Refuses;
    && row' == row.(status := row'.status, stoppedBecause := row'.stoppedBecause, updatedAt := now,
        resumes := row.resumes + (if resumed then 1 else 0),
        lastResumeSeq := if resumed then Some(|turns| + 1) else row.lastResumeSeq,
        report := if fate.Concludes? then Some(fate.text) else if resumed then row.report else None,
        deliveredAt := if taken then Some(now) else row.deliveredAt,
        deliveryAttempts := row.deliveryAttempts + if refused then 1 else 0)
    && (resumed && fate.Concludes? ==>
        row'.status == (if fate.finished then Finished else Unfinished) && row'.stoppedBecause == Some(fate.reason))
    && (resumed && fate.Fails? ==> row'.status == row.status && row'.stoppedBecause == row.stoppedBecause)
    && (!resumed ==> row'.stoppedBecause.Some? && GivenUpAs(row, now, row'.status, row'.stoppedBecause.value))
    && texts == if taken then [fate.text] else []
  }

  ghost predicate RecoveredIfRunning(row: RunRow, turns: seq<Turn>, fate: Fate, now: int, row': RunRow,
      texts: seq<string>)
  {
    if row.status == Running then Recovered(row, turns, fate, now, row', texts) else row' == row && texts == []
  }

  /** A whole drain: every row by itself, oldest first, and nothing else is sent. */
  ghost predicate AllHandedOver(rows: seq<RunRow>, answers: nat -> Answer, now: int, rows': seq<RunRow>,
      sent: seq<(nat, string)>)
  {
    && |rows'| == |rows| && Ordered(sent) && (forall o | o in sent :: o.0 < |rows|)
    && forall i: nat | i < |rows| :: HandedOver(rows[i], answers(i), now, rows'[i], TextsOf(sent, i))
  }

  /** A whole pass over the interrupted runs. */
  ghost predicate AllRecovered(rows: seq<RunRow>, turns: seq<seq<Turn>>, fates: nat -> Fate, now: int,
      rows': seq<RunRow>, sent: seq<(nat, string)>)
    requires |turns| == |rows|
  {
    && |rows'| == |rows| && Ordered(sent) && (forall o | o in sent :: o.0 < |rows|)
    && forall i: nat | i < |rows| ::
         RecoveredIfRunning(rows[i], turns[i], fates(i), now, rows'[i], TextsOf(sent, i))
  }

  // ---- one row ----

  /** Cron, terminal and desktop runs, and runs with no readable target, are delivered by being logged. */
  function Delivered(row: RunRow, answer: Answer): Answer {
    if row.delivery.Some? && row.delivery.value !in {Cron, Tui, Desktop} then answer else Accepts
  }

  /** `deliverAndMark`: sent discharges the debt, a refusal counts against the target, no channel says nothing. */
  function DeliverAndMarkRow(row: RunRow, answer: Answer, now: int): RunRow {
    match Delivered(row, answer)
    case Accepts => DeliverRow(row, now)
    case Refuses => RefuseRow(row)
    case _ => row
  }

  function DrainRow(row: RunRow, answer: Answer, now: int): RunRow {
    if !IsOwed(row) || row.report.value == "" then row
    else if row.deliveryAttempts >= MAX_DELIVERY_REFUSALS then DeliverRow(row, now)
    else DeliverAndMarkRow(row, answer, now)
  }

  /** The texts a row hands over during a drain, to its channel or, past the bound, to the log. */
  function DrainOut(id: nat, row: RunRow, answer: Answer): seq<(nat, string)> {
    if !IsOwed(row) || row.report.value == "" then []
    else if row.deliveryAttempts >= MAX_DELIVERY_REFUSALS then [(id, row.report.value)]
    else if Delivered(row, answer) == Accepts then [(id, REDELIVERY_NOTE + "\n\n" + row.report.value)]
    else []
  }

  // ---- deciding what becomes of an interrupted run ----

  datatype Decision = Resume | GiveUp(status: Status, reason: StopReason)

  predicate Still(turn: Turn) {
    turn.filesChanged == 0 && turn.todosClosed == 0
  }

  predicate MadeNoProgress(turns: seq<Turn>, count: nat) {
    0 < count <= |turns| && forall i | |turns| - count <= i < |turns| :: Still(turns[i])
  }

  predicate LastResumeAchievedNothing(row: RunRow, turns: seq<Turn>) {
    var from := if row.lastResumeSeq.Some? then row.lastResumeSeq.value else 1;
    var since := turns[if from == 0 then 0 else if from - 1 <= |turns| then from - 1 else |turns|..];
    row.resumes != 0 && row.hasSafetyPoint && since != [] && MadeNoProgress(since, |since|)
  }

  /** Cutting off the turns before the last resume and looking whether all the others are still, as the code does. */
  lemma VainExactlyWhen(row: RunRow, turns: seq<Turn>)
    ensures LastResumeAchievedNothing(row, turns) <==> TriedInVain(row, turns)
  {
    var from := if row.lastResumeSeq.Some? then row.lastResumeSeq.value else 1;
    var start := if from == 0 then 0 else if from - 1 <= |turns| then from - 1 else |turns|;
    var since := turns[start..];
    forall n: nat ensures SinceResume(row, turns, n) <==> start <= n < |turns| {}
    if TriedInVain(row, turns) {
      forall i | 0 <= i < |since| ensures Still(since[i]) {
        assert SinceResume(row, turns, start + i);
      }
    }
    if LastResumeAchievedNothing(row, turns) {
      assert SinceResume(row, turns, start);
      forall n: nat | SinceResume(row, turns, n) ensures turns[n].filesChanged == 0 && turns[n].todosClosed == 0 {
        assert since[n - start] == turns[n] && Still(since[n - start]);
      }
    }
  }

  function DecideResume(row: RunRow, turns: seq<Turn>, now: int): (d: Decision)
    ensures d.Resume? <==> MayResume(row, turns, now)
    ensures d.GiveUp? ==> d.status != Running && GivenUpAs(row, now, d.status, d.reason)
  {
    VainExactlyWhen(row, turns);
    if row.delivery == Some(Cron) || "cron:" <= row.session then GiveUp(NeedsAttention, ProcessDied)
    else if row.deadlineAt.Some? && row.deadlineAt.value <= now then GiveUp(Unfinished, ProcessDied)
    else if row.resumes >= DEFAULT_MAX_RESUMES then GiveUp(NeedsAttention, ResumeCap)
    else if LastResumeAchievedNothing(row, turns) then GiveUp(NeedsAttention, NoProgress)
    else Resume
  }

  /**
   * Only what happened after the last resume can condemn it: earlier turns neither vouch for it nor count
   * against it.
   */
  lemma OnlyTurnsSinceTheResumeCount(row: RunRow, earlier: seq<Turn>, later: seq<Turn>, now: int)
    ensures LastResumeAchievedNothing(ResumeRow(row, |earlier| + 1, now), earlier + later)
       <==> row.hasSafetyPoint && later != [] && forall t | t in later :: Still(t)
  {
    assert (earlier + later)[|earlier|..] == later;
  }

  // ---- the pass over interrupted runs ----

  /** How the host's callback for one run ends: it concludes the row, or throws before it could. */
  datatype Fate = Concludes(finished: bool, reason: StopReason, text: string, answer: Answer) | Fails

  function ConcludeRow(row: RunRow, status: Status, reason: StopReason, text: string, answer: Answer, now: int)
      : RunRow {
    DeliverAndMarkRow(FinishRow(row, status, reason, Some(text), now), answer, now)
  }

  function PassRow(row: RunRow, turns: seq<Turn>, fate: Fate, now: int): RunRow {
    if !IsRunning(row) then row else
    match DecideResume(row, turns, now)
    case GiveUp(status, reason) =>
      if fate.Concludes? then ConcludeRow(row, status, reason, fate.text, fate.answer, now)
      else FinishRow(row, status, reason, None, now)
    case Resume =>
      var resumed := ResumeRow(row, |turns| + 1, now);
      if fate.Concludes?
      then ConcludeRow(resumed, if fate.finished then Finished else Unfinished,
                       fate.reason, fate.text, fate.answer, now)
      else resumed
  }

  /** What the pass hands over for one row: the text its callback concluded with, if the channel takes it. */
  function PassOut(id: nat, row: RunRow, fate: Fate): seq<(nat, string)> {
    if IsRunning(row) && fate.Concludes? && Delivered(row, fate.answer) == Accepts then [(id, fate.text)] else []
  }

  class Courier {
    const store: Store
    /** Every text that left the process towards its person, in order. */
    var out: seq<(nat, string)>

    constructor (store: Store)
      ensures this.store == store && out == []
    {
      this.store := store;
      out := [];
    }

    method DeliverAndMark(id: nat, text: string, answer: Answer, now: int)
      requires store.Valid() && id < |store.rows|
      modifies this`out, store`rows
      ensures store.Valid()
      ensures store.rows == old(store.rows)[id := DeliverAndMarkRow(old(store.rows)[id], answer, now)]
      ensures out == old(out) + if Delivered(old(store.rows)[id], answer) == Accepts then [(id, text)] else []
    {
      match Delivered(store.rows[id], answer) {
        case Accepts =>
          out := out + [(id, text)];
          store.MarkDelivered(id, now);
        case Refuses =>
          store.RecordDeliveryRefusal(id);
        case _ =>
      }
    }

    method DrainOne(id: nat, answer: Answer, now: int) returns (ghost sent: seq<string>)
      requires store.Valid() && id < |store.rows| && IsOwed(store.rows[id])
      modifies this`out, store`rows
      ensures store.Valid()
      ensures store.rows == old(store.rows)[id := DrainRow(old(store.rows)[id], answer, now)]
      ensures out == old(out) + DrainOut(id, old(store.rows)[id], answer)
      ensures out == old(out) + (if sent == [] then [] else [(id, sent[0])])
      ensures HandedOver(old(store.rows)[id], answer, now, store.rows[id], sent)
    {
      DrainHandsOver(id, store.rows[id], answer, now);
      sent := TextsOf(DrainOut(id, store.rows[id], answer), id);
      var run := store.rows[id];
      if run.report.value == "" {
        return;
      }
      if run.deliveryAttempts >= MAX_DELIVERY_REFUSALS {
        out := out + [(id, run.report.value)];
        store.MarkDelivered(id, now);
      } else {
        DeliverAndMark(id, REDELIVERY_NOTE + "\n\n" + run.report.value, answer, now);
      }
    }

    /** One turn of the loop below. */
    method DrainNext(ghost before: seq<RunRow>, ghost sent: seq<(nat, string)>, answers: nat -> Answer,
        ids: seq<nat>, k: nat, now: int)
      requires store.Valid() && ids == Select(before, IsOwed) && k < |ids|
      requires store.rows == UpdateEach(before, Drain(answers, now), ids[..k])
      requires out == sent + Gather(before, Drain(answers, now), ids[..k])
      modifies this`out, store`rows
      ensures store.Valid() && store.rows == UpdateEach(before, Drain(answers, now), ids[..k + 1])
      ensures out == sent + Gather(before, Drain(answers, now), ids[..k + 1])
    {
      NextDrained(before, answers, ids, k, now);
      var _ := DrainOne(ids[k], answers(ids[k]), now);
    }

    method DrainUndelivered(answers: nat -> Answer, now: int)
      requires store.Valid()
      modifies this`out, store`rows
      ensures store.Valid()
      ensures store.rows == UpdateEach(old(store.rows), Drain(answers, now), Select(old(store.rows), IsOwed))
      ensures out == old(out) + Gather(old(store.rows), Drain(answers, now), Select(old(store.rows), IsOwed))
      ensures old(out) <= out && AllHandedOver(old(store.rows), answers, now, store.rows, out[|old(out)|..])
    {
      ghost var before, sent := store.rows, out;
      var ids := Select(store.rows, IsOwed);
      var k := 0;
      while k < |ids|
        invariant k <= |ids| && store.Valid()
        invariant store.rows == UpdateEach(before, Drain(answers, now), ids[..k])
        invariant out == sent + Gather(before, Drain(answers, now), ids[..k])
      {
        DrainNext(before, sent, answers, ids, k, now);
        k := k + 1;
      }
      assert ids[..k] == ids;
      DrainHandsOverEach(before, answers, now);
      assert out[|sent|..] == Gather(before, Drain(answers, now), ids);
    }

    /** `finish` with the text it owes, then hand it over. */
    method ConcludeRun(id: nat, status: Status, reason: StopReason, text: string, answer: Answer, now: int)
      requires store.Valid() && id < |store.rows| && status != Running
      modifies this`out, store`rows
      ensures store.Valid()
      ensures store.rows == old(store.rows)[id := ConcludeRow(old(store.rows)[id], status, reason, text, answer, now)]
      ensures out == old(out) + if Delivered(old(store.rows)[id], answer) == Accepts then [(id, text)] else []
    {
      store.Finish(id, status, reason, Some(text), now);
      DeliverAndMark(id, text, answer, now);
    }

    method HandleInterrupted(id: nat, fate: Fate, now: int) returns (ghost sent: seq<string>)
      requires store.Valid() && id < |store.rows| && IsRunning(store.rows[id])
      modifies this`out, store`rows
      ensures store.Valid()
      ensures store.rows == old(store.rows)[id := PassRow(old(store.rows)[id], store.turns[id], fate, now)]
      ensures out == old(out) + PassOut(id, old(store.rows)[id], fate)
      ensures out == old(out) + (if sent == [] then [] else [(id, sent[0])])
      ensures Recovered(old(store.rows)[id], store.turns[id], fate, now, store.rows[id], sent)
    {
      PassRecovers(id, store.rows[id], store.turns[id], fate, now);
      sent := TextsOf(PassOut(id, store.rows[id], fate), id);
      match DecideResume(store.rows[id], store.turns[id], now) {
        case GiveUp(status, reason) =>
          if fate.Concludes? {
            ConcludeRun(id, status, reason, fate.text, fate.answer, now);
          }
          // the net under a callback that threw
          if store.rows[id].status == Running {
            store.Finish(id, status, reason, None, now);
          }
        case Resume =>
          store.MarkResumed(id, |store.turns[id]| + 1, now);
          if fate.Concludes? {
            ConcludeRun(id, if fate.finished then Finished else Unfinished, fate.reason, fate.text, fate.answer, now);
          }
      }
    }

    /** One turn of the loop below. */
    method HandleNext(ghost before: seq<RunRow>, ghost sent: seq<(nat, string)>, fates: nat -> Fate,
        ids: seq<nat>, k: nat, now: int)
      requires store.Valid() && ids == Select(before, IsRunning) && k < |ids|
      requires store.rows == UpdateEach(before, Recover(store.turns, fates, now), ids[..k])
      requires out == sent + Gather(before, Recover(store.turns, fates, now), ids[..k])
      modifies this`out, store`rows
      ensures store.Valid() && store.rows == UpdateEach(before, Recover(store.turns, fates, now), ids[..k + 1])
      ensures out == sent + Gather(before, Recover(store.turns, fates, now), ids[..k + 1])
    {
      NextOf(before, Recover(store.turns, fates, now), IsRunning, k);
      var _ := HandleInterrupted(ids[k], fates(ids[k]), now);
    }

    method ResumeInterruptedRuns(fates: nat -> Fate, now: int)
      requires store.Valid()
      modifies this`out, store`rows
      ensures store.Valid()
      ensures store.rows == UpdateEach(old(store.rows), Recover(store.turns, fates, now),
              Select(old(store.rows), IsRunning))
      ensures out == old(out) + Gather(old(store.rows), Recover(store.turns, fates, now),
              Select(old(store.rows), IsRunning))
      ensures old(out) <= out
      ensures AllRecovered(old(store.rows), store.turns, fates, now, store.rows, out[|old(out)|..])
    {
      ghost var before, sent := store.rows, out;
      var ids := Select(store.rows, IsRunning);
      var k := 0;
      while k < |ids|
        invariant k <= |ids| && store.Valid()
        invariant store.rows == UpdateEach(before, Recover(store.turns, fates, now), ids[..k])
        invariant out == sent + Gather(before, Recover(store.turns, fates, now), ids[..k])
      {
        HandleNext(before, sent, fates, ids, k, now);
        k := k + 1;
      }
      assert ids[..k] == ids;
      PassRecoversEach(before, store.turns, fates, now);
      assert out[|sent|..] == Gather(before, Recover(store.turns, fates, now), ids);
    }

    /** What a boot does once the channels are up: debts first, then work. */
    method Boot(days: nat -> BootDay, now: int)
      returns (ghost drained: seq<RunRow>, ghost debts: seq<(nat, string)>, ghost work: seq<(nat, string)>)
      requires store.Valid()
      modifies this`out, store`rows
      ensures store.Valid() && |store.rows| == |old(store.rows)|
      ensures forall i: nat | i < |store.rows| ::
                store.rows[i] == BootRow(old(store.rows)[i], days(i).(turns := store.turns[i], now := now))
      ensures out == old(out) + debts + work
      ensures AllHandedOver(old(store.rows), AnswersOf(days), now, drained, debts)
      ensures AllRecovered(drained, store.turns, FatesOf(days), now, store.rows, work)
    {
      ghost var before, sent := store.rows, out;
      DrainUndelivered(AnswersOf(days), now);
      drained, debts := store.rows, out[|sent|..];
      ghost var soFar := out;
      ResumeInterruptedRuns(FatesOf(days), now);
      work := out[|soFar|..];
      BootIsPerRow(before, drained, store.rows, store.turns, AnswersOf(days), FatesOf(days), now);
    }
  }

  // ---- going through the selected rows one after the other ----

  /** The two passes of a boot. */
  datatype BootPass =
    | Drain(answers: nat -> Answer, now: int)
    | Recover(turns: seq<seq<Turn>>, fates: nat -> Fate, now: int)
  {
    function Update(i: nat, row: RunRow): RunRow {
      if Drain? then DrainRow(row, answers(i), now)
      else PassRow(row, if i < |turns| then turns[i] else [], fates(i), now)
    }

    function Out(i: nat, row: RunRow): seq<(nat, string)> {
      if Drain? then DrainOut(i, row, answers(i)) else PassOut(i, row, fates(i))
    }
  }

  function UpdateEach(rows: seq<RunRow>, pass: BootPass, ids: seq<nat>): (rows': seq<RunRow>)
    ensures |rows'| == |rows|
  {
    if ids == [] then rows
    else
      var id := ids[|ids| - 1];
      var done := UpdateEach(rows, pass, ids[..|ids| - 1]);
      if id < |rows| then done[id := pass.Update(id, done[id])] else done
  }

  /** What the rows `ids` hand over, in that order. */
  function Gather(rows: seq<RunRow>, pass: BootPass, ids: seq<nat>): seq<(nat, string)> {
    if ids == [] then []
    else
      var id := ids[|ids| - 1];
      Gather(rows, pass, ids[..|ids| - 1]) + if id < |rows| then pass.Out(id, rows[id]) else []
  }

  lemma {:induction false} UpdateEachAt(rows: seq<RunRow>, pass: BootPass, ids: seq<nat>, i: nat)
    requires i < |rows| && forall j, k | 0 <= j < k < |ids| :: ids[j] != ids[k]
    ensures UpdateEach(rows, pass, ids)[i] == if i in ids then pass.Update(i, rows[i]) else rows[i]
    decreases |ids|
  {
    if ids != [] {
      var last := |ids| - 1;
      UpdateEachAt(rows, pass, ids[..last], i);
      assert ids == ids[..last] + [ids[last]];
    }
  }

  /** The next selected row is still as it was found; handling it is the next step of both folds. */
  lemma NextOf(rows: seq<RunRow>, pass: BootPass, p: RunRow -> bool, k: nat)
    requires k < |Select(rows, p)|
    ensures var ids := Select(rows, p);
            var id := ids[k];
            var done := UpdateEach(rows, pass, ids[..k]);
            && id < |rows| && done[id] == rows[id] && p(rows[id])
            && UpdateEach(rows, pass, ids[..k + 1]) == done[id := pass.Update(id, rows[id])]
            && Gather(rows, pass, ids[..k + 1]) == Gather(rows, pass, ids[..k]) + pass.Out(id, rows[id])
  {
    var ids := Select(rows, p);
    assert ids[k] in ids && ids[k] !in ids[..k];
    UpdateEachAt(rows, pass, ids[..k], ids[k]);
    assert ids[..k + 1][..k] == ids[..k];
  }

  lemma EachUpdated(rows: seq<RunRow>, pass: BootPass, p: RunRow -> bool)
    ensures forall i: nat | i < |rows| ::
            UpdateEach(rows, pass, Select(rows, p))[i] == if p(rows[i]) then pass.Update(i, rows[i]) else rows[i]
  {
    forall i: nat | i < |rows|
      ensures UpdateEach(rows, pass, Select(rows, p))[i] == if p(rows[i]) then pass.Update(i, rows[i]) else rows[i]
    {
      UpdateEachAt(rows, pass, Select(rows, p), i);
    }
  }

  lemma NextDrained(rows: seq<RunRow>, answers: nat -> Answer, ids: seq<nat>, k: nat, now: int)
    requires ids == Select(rows, IsOwed) && k < |ids|
    ensures var id := ids[k];
            var pass := Drain(answers, now);
            var done := UpdateEach(rows, pass, ids[..k]);
            && id < |rows| && done[id] == rows[id] && IsOwed(rows[id])
            && UpdateEach(rows, pass, ids[..k + 1]) == done[id := DrainRow(rows[id], answers(id), now)]
            && Gather(rows, pass, ids[..k + 1]) == Gather(rows, pass, ids[..k]) + DrainOut(id, rows[id], answers(id))
  {
    NextOf(rows, Drain(answers, now), IsOwed, k);
  }

  /**
   * Each row's fate in a drain depends on that row and its own channel only, and rows that owe nothing stay as
   * they are.
   */
  lemma DrainIsPerRow(rows: seq<RunRow>, answers: nat -> Answer, now: int)
    ensures forall i: nat | i < |rows| ::
            UpdateEach(rows, Drain(answers, now), Select(rows, IsOwed))[i] == DrainRow(rows[i], answers(i), now)
  {
    EachUpdated(rows, Drain(answers, now), IsOwed);
  }

  /** The same for the pass over interrupted runs: one that throws does not keep the next from its turn. */
  lemma RecoveryIsPerRow(rows: seq<RunRow>, turns: seq<seq<Turn>>, fates: nat -> Fate, now: int)
    requires |turns| == |rows|
    ensures forall i: nat | i < |rows| ::
              UpdateEach(rows, Recover(turns, fates, now), Select(rows, IsRunning))[i]
                  == PassRow(rows[i], turns[i], fates(i), now)
  {
    EachUpdated(rows, Recover(turns, fates, now), IsRunning);
  }

  lemma BootIsPerRow(rows: seq<RunRow>, drained: seq<RunRow>, rows': seq<RunRow>, turns: seq<seq<Turn>>,
      answers: nat -> Answer, fates: nat -> Fate, now: int)
    requires |turns| == |rows| && drained == UpdateEach(rows, Drain(answers, now), Select(rows, IsOwed))
    requires rows' == UpdateEach(drained, Recover(turns, fates, now), Select(drained, IsRunning))
    ensures forall i: nat | i < |rows'| :: rows'[i] == BootRow(rows[i], BootDay(answers(i), turns[i], fates(i), now))
  {
    DrainIsPerRow(rows, answers, now);
    RecoveryIsPerRow(drained, turns, fates, now);
  }

  // ---- what the two passes send ----

  lemma {:induction false} TextsOfAppend(a: seq<(nat, string)>, b: seq<(nat, string)>, i: nat)
    ensures TextsOf(a + b, i) == TextsOf(a, i) + TextsOf(b, i)
    decreases |b|
  {
    if b == [] {
      assert a + b == a;
    } else {
      assert (a + b)[..|a + b| - 1] == a + b[..|b| - 1];
      TextsOfAppend(a, b[..|b| - 1], i);
    }
  }

  lemma TextsOfOne(o: (nat, string), i: nat)
    ensures TextsOf([o], i) == if o.0 == i then [o.1] else []
  {
    assert [o][..0] == [];
  }

  /** A pass sends for a row at most one text, under the row's own id. */
  lemma OutIsOwn(pass: BootPass, id: nat, row: RunRow)
    ensures var o := pass.Out(id, row); o == [] || (|o| == 1 && o[0].0 == id)
    ensures forall i: nat | i != id :: TextsOf(pass.Out(id, row), i) == []
  {
    var o := pass.Out(id, row);
    if o != [] {
      forall i: nat | i != id ensures TextsOf(o, i) == [] {
        TextsOfOne(o[0], i);
        assert o == [o[0]];
      }
    }
  }

  lemma {:induction false} GatheredInOrder(rows: seq<RunRow>, pass: BootPass, ids: seq<nat>)
    requires Ascending(ids) && forall id | id in ids :: id < |rows|
    ensures Ordered(Gather(rows, pass, ids)) && forall o | o in Gather(rows, pass, ids) :: o.0 in ids
    decreases |ids|
  {
    if ids != [] {
      var last := |ids| - 1;
      var init := Gather(rows, pass, ids[..last]);
      assert ids == ids[..last] + [ids[last]] && ids[last] in ids;
      GatheredInOrder(rows, pass, ids[..last]);
      OutIsOwn(pass, ids[last], rows[ids[last]]);
      forall j | 0 <= j < |init| ensures init[j].0 < ids[last] {
        assert init[j] in init;
      }
    }
  }

  lemma NextText(rows: seq<RunRow>, pass: BootPass, ids: seq<nat>, i: nat)
    requires ids != [] && i < |rows|
    ensures var last := |ids| - 1;
            TextsOf(Gather(rows, pass, ids), i) == TextsOf(Gather(rows, pass, ids[..last]), i)
                + if ids[last] == i then TextsOf(pass.Out(i, rows[i]), i) else []
  {
    var last := |ids| - 1;
    if ids[last] < |rows| {
      TextsOfAppend(Gather(rows, pass, ids[..last]), pass.Out(ids[last], rows[ids[last]]), i);
      OutIsOwn(pass, ids[last], rows[ids[last]]);
    } else {
      assert Gather(rows, pass, ids) == Gather(rows, pass, ids[..last]);
    }
  }

  lemma {:induction false} GatheredTexts(rows: seq<RunRow>, pass: BootPass, ids: seq<nat>, i: nat)
    requires i < |rows| && forall j, k | 0 <= j < k < |ids| :: ids[j] != ids[k]
    ensures TextsOf(Gather(rows, pass, ids), i) == if i in ids then TextsOf(pass.Out(i, rows[i]), i) else []
    decreases |ids|
  {
    if ids != [] {
      var last := |ids| - 1;
      assert ids == ids[..last] + [ids[last]];
      assert i in ids <==> i in ids[..last] || i == ids[last];
      GatheredTexts(rows, pass, ids[..last], i);
      NextText(rows, pass, ids, i);
    }
  }

  lemma DrainHandsOver(id: nat, row: RunRow, answer: Answer, now: int)
    ensures HandedOver(row, answer, now, DrainRow(row, answer, now), TextsOf(DrainOut(id, row, answer), id))
  {
    var out := DrainOut(id, row, answer);
    if out == [] {
      assert TextsOf(out, id) == [];
    } else {
      TextsOfOne(out[0], id);
      assert out == [out[0]];
    }
  }

  lemma DrainHandsOverEach(rows: seq<RunRow>, answers: nat -> Answer, now: int)
    ensures var ids := Select(rows, IsOwed);
            var rows' := UpdateEach(rows, Drain(answers, now), ids);
            var sent := Gather(rows, Drain(answers, now), ids);
            AllHandedOver(rows, answers, now, rows', sent)
  {
    var pass, ids := Drain(answers, now), Select(rows, IsOwed);
    DrainIsPerRow(rows, answers, now);
    GatheredInOrder(rows, pass, ids);
    forall i: nat | i < |rows|
      ensures HandedOver(rows[i], answers(i), now, UpdateEach(rows, pass, ids)[i], TextsOf(Gather(rows, pass, ids), i))
    {
      GatheredTexts(rows, pass, ids, i);
      DrainHandsOver(i, rows[i], answers(i), now);
    }
  }

  lemma PassRecovers(id: nat, row: RunRow, turns: seq<Turn>, fate: Fate, now: int)
    ensures RecoveredIfRunning(row, turns, fate, now, PassRow(row, turns, fate, now),
                               TextsOf(PassOut(id, row, fate), id))
  {
    var out := PassOut(id, row, fate);
    if out == [] {
      assert TextsOf(out, id) == [];
    } else {
      TextsOfOne(out[0], id);
      assert out == [out[0]];
    }
  }

  lemma PassRecoversEach(rows: seq<RunRow>, turns: seq<seq<Turn>>, fates: nat -> Fate, now: int)
    requires |turns| == |rows|
    ensures var ids := Select(rows, IsRunning);
            var rows' := UpdateEach(rows, Recover(turns, fates, now), ids);
            var sent := Gather(rows, Recover(turns, fates, now), ids);
            AllRecovered(rows, turns, fates, now, rows', sent)
  {
    var pass, ids := Recover(turns, fates, now), Select(rows, IsRunning);
    GatheredInOrder(rows, pass, ids);
    RecoveryIsPerRow(rows, turns, fates, now);
    forall i: nat | i < |rows|
      ensures RecoveredIfRunning(rows[i], turns[i], fates(i), now, UpdateEach(rows, pass, ids)[i],
                                 TextsOf(Gather(rows, pass, ids), i))
    {
      PassSends(rows, turns, fates, now, i);
      PassRecovers(i, rows[i], turns[i], fates(i), now);
    }
  }

  lemma PassSends(rows: seq<RunRow>, turns: seq<seq<Turn>>, fates: nat -> Fate, now: int, i: nat)
    requires |turns| == |rows| && i < |rows|
    ensures TextsOf(Gather(rows, Recover(turns, fates, now), Select(rows, IsRunning)), i)
            == TextsOf(PassOut(i, rows[i], fates(i)), i)
  {
    GatheredTexts(rows, Recover(turns, fates, now), Select(rows, IsRunning), i);
    if !IsRunning(rows[i]) { assert PassOut(i, rows[i], fates(i)) == []; }
  }

  // ---- what a series of boots achieves ----

  /** A running row has concluded nothing yet. */
  predicate Sane(row: RunRow) {
    IsRunning(row) ==> row.report.None? && row.deliveredAt.None? && row.deliveryAttempts == 0
  }

  function DrainMany(row: RunRow, answers: seq<Answer>, now: int): RunRow {
    if answers == [] then row else DrainRow(DrainMany(row, answers[..|answers| - 1], now), answers[|answers| - 1], now)
  }

  function Refusals(row: RunRow, answers: seq<Answer>): nat {
    if answers == [] then 0
    else Refusals(row, answers[..|answers| - 1]) + if Delivered(row, answers[|answers| - 1]) == Refuses then 1 else 0
  }

  /** At boot `k` this row's debt ends: its channel accepts, or it has been refused often enough to go to the log. */
  predicate DischargedAt(row: RunRow, answers: seq<Answer>, k: nat)
    requires k < |answers|
  {
    || Delivered(row, answers[k]) == Accepts
    || row.deliveryAttempts + Refusals(row, answers[..k]) >= MAX_DELIVERY_REFUSALS
  }

  /**
   * Across any series of boots, an owed report is discharged exactly when some boot found its channel
   * accepting (a run without a channel is always delivered, to the log) or the target had refused three
   * times before it, and never when the report is the empty text. Boots at which the channel is not
   * there change nothing.
   */
  lemma {:induction false} DebtEndsExactlyWhen(row: RunRow, answers: seq<Answer>, now: int)
    requires IsOwed(row)
    ensures var end := DrainMany(row, answers, now);
            && (end.deliveredAt.Some? <==>
                  row.report.value != "" && exists k :: 0 <= k < |answers| && DischargedAt(row, answers, k))
            && end.report == row.report && end.delivery == row.delivery
            && (end.deliveredAt.None? && row.report.value != "" ==>
                  end.deliveryAttempts == row.deliveryAttempts + Refusals(row, answers))
    decreases |answers|
  {
    if answers != [] {
      var last := |answers| - 1;
      DebtEndsExactlyWhen(row, answers[..last], now);
      forall k | 0 <= k < last ensures DischargedAt(row, answers[..last], k) == DischargedAt(row, answers, k) {
        assert answers[..last][..k] == answers[..k];
      }
      var before := DrainMany(row, answers[..last], now);
      if before.deliveredAt.Some? {
        var k :| 0 <= k < last && DischargedAt(row, answers[..last], k);
        assert DischargedAt(row, answers, k);
      } else if row.report.value != "" && DischargedAt(row, answers, last) {
        assert DrainRow(before, answers[last], now).deliveredAt.Some?;
      }
    }
  }

  /** One boot's circumstances for one run. */
  datatype BootDay = BootDay(answer: Answer, turns: seq<Turn>, fate: Fate, now: int)

  function AnswersOf(days: nat -> BootDay): nat -> Answer {
    (i: nat) => days(i).answer
  }

  function FatesOf(days: nat -> BootDay): nat -> Fate {
    (i: nat) => days(i).fate
  }

  function BootRow(row: RunRow, day: BootDay): RunRow {
    PassRow(DrainRow(row, day.answer, day.now), day.turns, day.fate, day.now)
  }

  function BootMany(row: RunRow, days: seq<BootDay>): RunRow {
    if days == [] then row else BootRow(BootMany(row, days[..|days| - 1]), days[|days| - 1])
  }

  /**
   * A completed boot leaves a run running only if it resumed it and that attempt failed; concluded runs stay
   * concluded.
   */
  lemma BootLeavesRunningExactlyWhen(row: RunRow, day: BootDay)
    requires Sane(row)
    ensures Sane(BootRow(row, day))
    ensures IsRunning(BootRow(row, day))
       <==> IsRunning(row) && MayResume(row, day.turns, day.now) && day.fate == Fails
    ensures IsRunning(BootRow(row, day)) ==> BootRow(row, day).resumes == row.resumes + 1 <= DEFAULT_MAX_RESUMES
  {
    if IsRunning(row) { assert DrainRow(row, day.answer, day.now) == row; }
    assert IsRunning(DrainRow(row, day.answer, day.now)) == IsRunning(row);
    PassRecovers(0, row, day.turns, day.fate, day.now);
  }

  /** No run outlives four completed boots, and none is picked up more than three times, whatever goes wrong in each. */
  lemma {:induction false} EveryRunEnds(row: RunRow, days: seq<BootDay>)
    requires Sane(row) && row.resumes == 0
    ensures Sane(BootMany(row, days))
    ensures IsRunning(BootMany(row, days)) ==> BootMany(row, days).resumes == |days| <= DEFAULT_MAX_RESUMES
    decreases |days|
  {
    if days != [] {
      EveryRunEnds(row, days[..|days| - 1]);
      BootLeavesRunningExactlyWhen(BootMany(row, days[..|days| - 1]), days[|days| - 1]);
    }
  }

  /**
   * A crash-free boot settles an interrupted run's report: when the boot ends the run, it is on the
   * row, and handed over if the channel accepts; the one exception is a give-up whose callback threw.
   */
  lemma BootSettlesInterruptedRun(row: RunRow, day: BootDay)
    requires Sane(row) && IsRunning(row) && !IsRunning(BootRow(row, day))
    ensures var end := BootRow(row, day);
            (end.report.Some? <==> day.fate.Concludes?)
            && (day.fate.Concludes? ==>
                  && end.report == Some(day.fate.text)
                  && (end.deliveredAt.Some? <==> Delivered(row, day.fate.answer) == Accepts))
  {
  }
}
