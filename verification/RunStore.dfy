/**
 * Durable state of unattended runs: the `runs` and `run_turns` tables and the statements that
 * change them. A run's id is its position in the table, so reading order is starting order.
 */
module RunStore {
  import opened Basics

  datatype Status = Running | Finished | Unfinished | NeedsAttention

  datatype StopReason =
    | Completed | NotContinuable | ContinuationBudget | Deadline | NoProgress | ProcessDied | ResumeCap

  datatype Surface = Discord | Slack | Whatsapp | Cron | Tui | Desktop

  datatype RunRow = RunRow(
    session: string,
    updatedAt: int,
    deadlineAt: Option<int>,
    continuationsUsed: nat,
    replanUsed: bool,
    hasSafetyPoint: bool,
    delivery: Option<Surface>,
    status: Status,
    stoppedBecause: Option<StopReason>,
    resumes: nat,
    lastResumeSeq: Option<nat>,
    report: Option<string>,
    deliveredAt: Option<int>,
    deliveryAttempts: nat
  )

  /** The turn with sequence number n of a run is at position n - 1. */
  datatype Turn = Turn(filesChanged: nat, todosClosed: nat, continuation: bool, replan: bool)

  datatype StartInput = StartInput(session: string, deadlineAt: Option<int>,
      hasSafetyPoint: bool, delivery: Option<Surface>)

  function NewRow(input: StartInput, now: int): RunRow {
    RunRow(input.session, now, input.deadlineAt, 0, false, input.hasSafetyPoint, input.delivery,
           Running, None, 0, None, None, None, 0)
  }

  // ---- the single-row statements ----

  function FinishRow(row: RunRow, status: Status, reason: StopReason, report: Option<string>, now: int): RunRow {
    row.(status := status, stoppedBecause := Some(reason), report := report, updatedAt := now)
  }

  function DeliverRow(row: RunRow, now: int): RunRow {
    row.(deliveredAt := Some(now))
  }

  function RefuseRow(row: RunRow): RunRow {
    row.(deliveryAttempts := row.deliveryAttempts + 1)
  }

  function ResumeRow(row: RunRow, seq_: nat, now: int): RunRow {
    row.(resumes := row.resumes + 1, lastResumeSeq := Some(seq_), updatedAt := now)
  }

  /** A turn reached the row: the run is alive, and its budget is used up so far. */
  function TurnRow(row: RunRow, turn: Turn, now: int): RunRow {
    row.(updatedAt := now,
         continuationsUsed := row.continuationsUsed + (if turn.continuation then 1 else 0),
         replanUsed := row.replanUsed || turn.replan)
  }

  predicate IsRunning(row: RunRow) {
    row.status == Running
  }

  /** Holding a report nobody has received: what a boot looks for first. */
  predicate IsOwed(row: RunRow) {
    row.report.Some? && row.deliveredAt.None?
  }

  /** The ids that satisfy `p`, oldest first. */
  function Select(rows: seq<RunRow>, p: RunRow -> bool): (ids: seq<nat>)
    ensures forall id | id in ids :: id < |rows|
    ensures forall id: nat | id < |rows| :: id in ids <==> p(rows[id])
    ensures Ascending(ids)
  {
    if rows == [] then []
    else
      var init := Select(rows[..|rows| - 1], p);
      assert forall i | 0 <= i < |init| :: init[i] in init;
      if p(rows[|rows| - 1]) then init + [|rows| - 1] else init
  }

  // ---- what the statements mean for whoever looks for runs to resume or reports to hand over ----

  predicate Ascending(ids: seq<nat>) {
    forall i, j | 0 <= i < j < |ids| :: ids[i] < ids[j]
  }

  function Minus(ids: seq<nat>, id: nat): (less: seq<nat>)
    ensures forall x: nat :: x in less <==> x in ids && x != id
    ensures Ascending(ids) ==> Ascending(less)
  {
    if ids == [] then []
    else
      var last := ids[|ids| - 1];
      assert ids == ids[..|ids| - 1] + [last];
      var init := Minus(ids[..|ids| - 1], id);
      assert forall i | 0 <= i < |init| :: init[i] in init;
      if last == id then init else init + [last]
  }

  lemma GreatestIsLast(ids: seq<nat>, x: nat)
    requires Ascending(ids) && x in ids
    ensures x <= ids[|ids| - 1]
  {
  }

  lemma WithoutLast(ids: seq<nat>, x: nat)
    requires Ascending(ids) && ids != []
    ensures x in ids[..|ids| - 1] <==> x in ids && x != ids[|ids| - 1]
  {
    assert ids == ids[..|ids| - 1] + [ids[|ids| - 1]];
  }

  lemma SameLast(a: seq<nat>, b: seq<nat>)
    requires Ascending(a) && Ascending(b) && a != [] && forall x: nat :: x in a <==> x in b
    ensures b != [] && a[|a| - 1] == b[|b| - 1]
  {
    assert a[|a| - 1] in b;
    assert b[|b| - 1] in a;
    GreatestIsLast(a, b[|b| - 1]);
    GreatestIsLast(b, a[|a| - 1]);
  }

  /** An ascending list is known by what is in it. */
  lemma {:induction false} AscendingIsKnown(a: seq<nat>, b: seq<nat>)
    requires Ascending(a) && Ascending(b) && forall x: nat :: x in a <==> x in b
    ensures a == b
    decreases |a|
  {
    if a != [] {
      SameLast(a, b);
      var a', b' := a[..|a| - 1], b[..|b| - 1];
      forall x: nat ensures x in a' <==> x in b' {
        WithoutLast(a, x);
        WithoutLast(b, x);
      }
      AscendingIsKnown(a', b');
      assert a == a' + [a[|a| - 1]] && b == b' + [b[|b| - 1]];
    } else if b != [] {
      SameLast(b, a);
    }
  }

  /** A changed row leaves the list when it no longer belongs there, and moves nothing otherwise. */
  lemma SelectAfterChange(rows: seq<RunRow>, id: nat, row: RunRow, p: RunRow -> bool)
    requires id < |rows| && (p(row) ==> p(rows[id]))
    ensures Select(rows[id := row], p) == if p(row) then Select(rows, p) else Minus(Select(rows, p), id)
  {
    AscendingIsKnown(Select(rows[id := row], p), if p(row) then Select(rows, p) else Minus(Select(rows, p), id));
  }

  /**
   * Finishing takes exactly this run from those to resume, and makes it owed exactly when it has a report
   * nobody has.
   */
  lemma FinishingEndsExactlyOneRun(rows: seq<RunRow>, id: nat, status: Status, reason: StopReason,
      report: Option<string>, now: int)
    requires id < |rows| && status != Running
    ensures var rows' := rows[id := FinishRow(rows[id], status, reason, report, now)];
            && Select(rows', IsRunning) == Minus(Select(rows, IsRunning), id)
            && forall i: nat :: i in Select(rows', IsOwed) <==>
                 if i == id then report.Some? && rows[id].deliveredAt.None? else i in Select(rows, IsOwed)
  {
    SelectAfterChange(rows, id, FinishRow(rows[id], status, reason, report, now), IsRunning);
  }

  /** Marking takes exactly this report from those owed, and leaves the runs to resume alone. */
  lemma MarkingEndsExactlyOneDebt(rows: seq<RunRow>, id: nat, now: int)
    requires id < |rows|
    ensures var rows' := rows[id := DeliverRow(rows[id], now)];
            Select(rows', IsOwed) == Minus(Select(rows, IsOwed), id)
                && Select(rows', IsRunning) == Select(rows, IsRunning)
  {
    SelectAfterChange(rows, id, DeliverRow(rows[id], now), IsOwed);
    RunningUnchanged(rows, id, DeliverRow(rows[id], now));
  }

  lemma RunningUnchanged(rows: seq<RunRow>, id: nat, row: RunRow)
    requires id < |rows| && row.status == rows[id].status
    ensures Select(rows[id := row], IsRunning) == Select(rows, IsRunning)
  {
    SelectAfterChange(rows, id, row, IsRunning);
    if !IsRunning(row) { AscendingIsKnown(Minus(Select(rows, IsRunning), id), Select(rows, IsRunning)); }
  }

  lemma OwedUnchanged(rows: seq<RunRow>, id: nat, row: RunRow)
    requires id < |rows| && row.report == rows[id].report && row.deliveredAt == rows[id].deliveredAt
    ensures Select(rows[id := row], IsOwed) == Select(rows, IsOwed)
  {
    SelectAfterChange(rows, id, row, IsOwed);
    if !IsOwed(row) { AscendingIsKnown(Minus(Select(rows, IsOwed), id), Select(rows, IsOwed)); }
  }

  /** Counting a refusal or a resume changes neither list: what was owed stays owed, what was running stays running. */
  lemma CountingMovesNothing(rows: seq<RunRow>, id: nat, seq_: nat, now: int)
    requires id < |rows|
    ensures var refused := rows[id := RefuseRow(rows[id])];
            Select(refused, IsOwed) == Select(rows, IsOwed) && Select(refused, IsRunning) == Select(rows, IsRunning)
    ensures var resumed := rows[id := ResumeRow(rows[id], seq_, now)];
            Select(resumed, IsOwed) == Select(rows, IsOwed) && Select(resumed, IsRunning) == Select(rows, IsRunning)
  {
    RunningUnchanged(rows, id, RefuseRow(rows[id]));
    OwedUnchanged(rows, id, RefuseRow(rows[id]));
    RunningUnchanged(rows, id, ResumeRow(rows[id], seq_, now));
    OwedUnchanged(rows, id, ResumeRow(rows[id], seq_, now));
  }

  // ---- starting a run ----

  predicate IsStale(row: RunRow, now: int, staleWindow: nat) {
    (row.deadlineAt.Some? && row.deadlineAt.value < now) || now - row.updatedAt > staleWindow
  }

  predicate ActiveFor(rows: seq<RunRow>, session: string, id: nat) {
    id < |rows| && rows[id].session == session && IsRunning(rows[id])
  }

  /** No two loops drive one transcript: a session has at most one running row. */
  predicate OneRunPerSession(rows: seq<RunRow>) {
    forall i, j | 0 <= i < j < |rows| && IsRunning(rows[i]) && IsRunning(rows[j]) :: rows[i].session != rows[j].session
  }

  /** Closes the stale run that stands in the way, if there is one: it ends without a report. */
  function AfterReclaim(rows: seq<RunRow>, reclaimed: Option<nat>, now: int): seq<RunRow> {
    if reclaimed.Some? && reclaimed.value < |rows|
    then rows[reclaimed.value := FinishRow(rows[reclaimed.value], Unfinished, NotContinuable, None, now)]
    else rows
  }

  /** What `startRun` may have reclaimed: the session's running row if that is stale, else nothing. */
  predicate MayReclaim(rows: seq<RunRow>, session: string, reclaimed: Option<nat>, now: int, staleWindow: nat) {
    match reclaimed
    case Some(id) => ActiveFor(rows, session, id) && IsStale(rows[id], now, staleWindow)
    case None => forall id: nat | id < |rows| :: !ActiveFor(rows, session, id)
  }

  /** A row as it begins: what was asked for, and nothing done, resumed, reported or delivered yet. */
  predicate Begun(row: RunRow, input: StartInput, now: int) {
    && row.session == input.session && row.deadlineAt == input.deadlineAt
    && row.hasSafetyPoint == input.hasSafetyPoint && row.delivery == input.delivery
    && row.status == Running && row.updatedAt == now && row.stoppedBecause.None?
    && row.continuationsUsed == 0 && !row.replanUsed && row.resumes == 0 && row.lastResumeSeq.None?
    && row.report.None? && row.deliveredAt.None? && row.deliveryAttempts == 0
  }

  /** What becomes of a stale run: it is over, unfinished, and owes nobody a report. */
  predicate ClosedUnreported(row: RunRow, row': RunRow, now: int) {
    && row'.status == Unfinished && row'.stoppedBecause == Some(NotContinuable) && row'.report.None?
    && row' == row.(status := row'.status, stoppedBecause := row'.stoppedBecause, report := None, updatedAt := now)
  }

  lemma AdmissionKeepsOneRun(rows: seq<RunRow>, input: StartInput, reclaimed: Option<nat>, now: int, staleWindow: nat)
    requires OneRunPerSession(rows) && MayReclaim(rows, input.session, reclaimed, now, staleWindow)
    ensures OneRunPerSession(AfterReclaim(rows, reclaimed, now) + [NewRow(input, now)])
  {
    var rows' := AfterReclaim(rows, reclaimed, now) + [NewRow(input, now)];
    forall i, j | 0 <= i < j < |rows'| && IsRunning(rows'[i]) && IsRunning(rows'[j])
      ensures rows'[i].session != rows'[j].session
    {
      assert reclaimed.None? ==> !ActiveFor(rows, input.session, i);
    }
  }

  datatype Admission = Admitted(id: nat, reclaimed: Option<nat>) | InFlight(active: nat)

  class Store {
    var rows: seq<RunRow>
    var turns: seq<seq<Turn>>

    ghost predicate Valid()
      reads this
    {
      |turns| == |rows| && OneRunPerSession(rows)
    }

    constructor ()
      ensures Valid() && rows == [] && turns == []
    {
      rows, turns := [], [];
    }

    method ActiveRun(session: string) returns (active: Option<nat>)
      ensures active.Some? ==> ActiveFor(rows, session, active.value)
      ensures active.None? ==> forall id: nat :: !ActiveFor(rows, session, id)
    {
      var ids := Select(rows, (row: RunRow) => row.session == session && IsRunning(row));
      if ids == [] {
        forall id: nat ensures !ActiveFor(rows, session, id) {
          assert id < |rows| ==> id !in ids;
        }
        active := None;
      } else {
        assert ids[0] in ids;
        active := Some(ids[0]);
      }
    }

    /**
     * A session whose run is neither past its deadline nor silent for longer than the window is
     * refused. A stale one is closed first, without a report, and the new run takes its place.
     */
    method StartRun(input: StartInput, now: int, staleWindow: nat) returns (r: Admission)
      requires Valid()
      modifies this
      ensures Valid()
      ensures r.InFlight? <==> exists id: nat ::
              ActiveFor(old(rows), input.session, id) && !IsStale(old(rows)[id], now, staleWindow)
      ensures r.InFlight? ==> rows == old(rows) && turns == old(turns) && ActiveFor(rows, input.session, r.active)
      ensures r.Admitted? ==>
                && r.id == |old(rows)| && turns == old(turns) + [[]]
                && MayReclaim(old(rows), input.session, r.reclaimed, now, staleWindow)
                && rows == AfterReclaim(old(rows), r.reclaimed, now) + [NewRow(input, now)]
      ensures r.Admitted? ==>
                && |rows| == |old(rows)| + 1 && Begun(rows[r.id], input, now)
                && forall i: nat | i < |old(rows)| ::
                     if r.reclaimed == Some(i) then ClosedUnreported(old(rows)[i], rows[i], now)
                     else rows[i] == old(rows)[i]
    {
      var active := ActiveRun(input.session);
      if active.Some? && !IsStale(rows[active.value], now, staleWindow) {
        return InFlight(active.value);
      }
      AdmissionKeepsOneRun(rows, input, active, now, staleWindow);
      if active.Some? {
        rows := rows[active.value := FinishRow(rows[active.value], Unfinished, NotContinuable, None, now)];
      }
      rows := rows + [NewRow(input, now)];
      turns := turns + [[]];
      r := Admitted(|rows| - 1, active);
    }

    method AppendTurn(id: nat, turn: Turn, now: int) returns (seq_: nat)
      requires Valid() && id < |rows|
      modifies this
      ensures Valid() && seq_ == |old(turns)[id]| + 1
      ensures turns == old(turns)[id := old(turns)[id] + [turn]]
      ensures rows == old(rows)[id := TurnRow(old(rows)[id], turn, now)]
      ensures var before, after := old(rows)[id], rows[id];
              && after == before.(updatedAt := now, continuationsUsed := after.continuationsUsed,
                                  replanUsed := after.replanUsed)
              && after.continuationsUsed - before.continuationsUsed == (if turn.continuation then 1 else 0)
              && (after.replanUsed <==> before.replanUsed || turn.replan)
    {
      seq_ := |turns[id]| + 1;
      turns := turns[id := turns[id] + [turn]];
      rows := rows[id := rows[id].(updatedAt := now,
                                   continuationsUsed := rows[id].continuationsUsed
                                       + (if turn.continuation then 1 else 0))];
      if turn.replan {
        rows := rows[id := rows[id].(replanUsed := true)];
      }
    }

    /** One statement: the row leaves the reach of crash recovery at the instant it knows what it owes. */
    method Finish(id: nat, status: Status, reason: StopReason, report: Option<string>, now: int)
      requires Valid() && id < |rows| && status != Running
      modifies this`rows
      ensures Valid() && rows == old(rows)[id := FinishRow(old(rows)[id], status, reason, report, now)]
      ensures rows[id] == old(rows)[id].(status := status, stoppedBecause := Some(reason), report := report,
                                         updatedAt := now)
    {
      rows := rows[id := FinishRow(rows[id], status, reason, report, now)];
    }

    method MarkDelivered(id: nat, now: int)
      requires Valid() && id < |rows|
      modifies this`rows
      ensures Valid() && rows == old(rows)[id := DeliverRow(old(rows)[id], now)]
    {
      rows := rows[id := DeliverRow(rows[id], now)];
    }

    method RecordDeliveryRefusal(id: nat)
      requires Valid() && id < |rows|
      modifies this`rows
      ensures Valid() && rows == old(rows)[id := RefuseRow(old(rows)[id])]
    {
      rows := rows[id := RefuseRow(rows[id])];
    }

    method MarkResumed(id: nat, seq_: nat, now: int)
      requires Valid() && id < |rows|
      modifies this`rows
      ensures Valid() && rows == old(rows)[id := ResumeRow(old(rows)[id], seq_, now)]
    {
      rows := rows[id := ResumeRow(rows[id], seq_, now)];
    }
  }
}
