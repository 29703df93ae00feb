/**
 * The hooks a conversation surface drives a durable run with: begin, done, conclude, delivered. The
 * verdict is known before the text it belongs to, so it waits in the record in between. And the
 * desktop's autonomous message, which drives them in a row.
 */
module RunHooks {
  import opened Basics
  import opened RunStore

  /** What `done_when` says in the end. */
  datatype Check = Unchecked | Passed(detail: string) | NotPassed(detail: string)

  /** How a run's turns ended: the last answer, and for an unfinished run the banner that goes above it. */
  datatype Ended = Ended(answer: string, finished: bool, banner: string, reason: StopReason)

  function RunText(run: Ended): string {
    if run.finished then run.answer else run.banner + "\n\n" + run.answer
  }

  function Verdict(check: Check): Option<string> {
    match check
    case Unchecked => None
    case Passed(detail) => Some("✅ _Checked: " + detail + "_")
    case NotPassed(detail) =>
      Some("❌ **The check you declared did not pass.** " + detail + "\n_Treat the answer above as unverified._")
  }

  function Summary(run: Ended, check: Check): string {
    if Verdict(check).Some? then RunText(run) + "\n\n" + Verdict(check).value else RunText(run)
  }

  function FinalStatus(run: Ended, check: Check): Status {
    if run.finished && !check.NotPassed? then Finished else Unfinished
  }

  class Record {
    const store: Store
    const id: nat
    var verdictStatus: Status
    var verdictReason: StopReason

    ghost predicate Valid()
      reads this, store
    {
      store.Valid() && id < |store.rows| && verdictStatus != Running
    }

    constructor (store: Store, id: nat)
      requires store.Valid() && id < |store.rows|
      ensures Valid() && this.store == store && this.id == id
      ensures verdictStatus == Unfinished && verdictReason == NotContinuable
    {
      this.store, this.id := store, id;
      verdictStatus, verdictReason := Unfinished, NotContinuable;
    }

    method Done(run: Ended, check: Check) returns (verdict: Option<string>)
      requires Valid()
      modifies this`verdictStatus, this`verdictReason
      ensures Valid() && verdictStatus == FinalStatus(run, check) && verdictReason == run.reason
      ensures verdict == Verdict(check)
      ensures verdictStatus == Finished <==> run.finished && (check.Unchecked? || check.Passed?)
      ensures verdictStatus in {Finished, Unfinished} && (verdict.None? <==> check.Unchecked?)
    {
      verdictStatus := if run.finished && !check.NotPassed? then Finished else Unfinished;
      verdictReason := run.reason;
      verdict := Verdict(check);
    }

    /** The row leaves `running` with whatever verdict is known by now: without a Done it is an unfinished one. */
    method Conclude(reply: string, now: int)
      requires Valid()
      modifies store`rows
      ensures Valid()
      ensures store.rows ==
                old(store.rows)[id := FinishRow(old(store.rows)[id], verdictStatus, verdictReason, Some(reply), now)]
    {
      store.Finish(id, verdictStatus, verdictReason, Some(reply), now);
    }

    method Delivered(now: int)
      requires Valid()
      modifies store`rows
      ensures Valid() && store.rows == old(store.rows)[id := DeliverRow(old(store.rows)[id], now)]
    {
      store.MarkDelivered(id, now);
    }
  }

  predicate IsVerdict(text: string, body: string, mark: char, lead: string, detail: string, after: string) {
    lead != "" && lead[0] == mark && text == body + "\n\n" + (lead + detail + after)
  }

  /** After the body, a paragraph of its own that begins with the mark and has the detail in it. */
  ghost predicate AddsVerdict(text: string, body: string, mark: char, detail: string) {
    exists lead, after :: IsVerdict(text, body, mark, lead, detail, after)
  }

  /**
   * The stored text: an unfinished run's banner, the answer, and what the check says. A finished run
   * that nothing was checked of is stored as answered.
   */
  ghost predicate Reports(text: string, run: Ended, check: Check) {
    var body := if run.finished then run.answer else run.banner + "\n\n" + run.answer;
    match check
    case Unchecked => text == body
    case Passed(detail) => AddsVerdict(text, body, '✅', detail)
    case NotPassed(detail) => AddsVerdict(text, body, '❌', detail)
  }

  /**
   * What an autonomous message leaves on the row it began: the status is finished exactly when the run
   * was and no check failed, and the row counts as delivered.
   */
  ghost predicate LeavesBehind(row: RunRow, input: StartInput, run: Ended, check: Check, ended: int) {
    && row.session == input.session && row.delivery == input.delivery && row.deadlineAt == input.deadlineAt
    && row.hasSafetyPoint == input.hasSafetyPoint && row.resumes == 0 && row.lastResumeSeq.None?
    && row.status == (if run.finished && !check.NotPassed? then Finished else Unfinished)
    && row.stoppedBecause == Some(run.reason) && row.updatedAt == ended && row.deliveredAt == Some(ended)
    && row.report.Some? && Reports(row.report.value, run, check) && row.deliveryAttempts == 0
  }

  lemma SummaryReports(run: Ended, check: Check)
    ensures Reports(Summary(run, check), run, check)
  {
    match check {
      case Unchecked =>
      case Passed(detail) => VerdictAdded(RunText(run), '✅', "✅ _Checked: ", detail, "_");
      case NotPassed(detail) =>
        VerdictAdded(RunText(run), '❌', "❌ **The check you declared did not pass.** ", detail,
          "\n_Treat the answer above as unverified._");
    }
  }

  lemma VerdictAdded(body: string, mark: char, lead: string, detail: string, after: string)
    requires lead != "" && lead[0] == mark
    ensures AddsVerdict(body + "\n\n" + (lead + detail + after), body, mark, detail)
  {
    assert IsVerdict(body + "\n\n" + (lead + detail + after), body, mark, lead, detail, after);
  }

  /** The row a desktop run leaves behind. */
  function DesktopRow(row: RunRow, run: Ended, check: Check, now: int): RunRow {
    DeliverRow(FinishRow(row, FinalStatus(run, check), run.reason, Some(Summary(run, check)), now), now)
  }

  /** What the person has seen by the end: the last turn's answer, and the summary of a run that did not finish. */
  function DesktopScreen(recorded: bool, run: Ended, check: Check): seq<string> {
    [run.answer] + if run.finished then [] else [if recorded then Summary(run, check) else RunText(run)]
  }

  lemma DesktopRowIsLeft(input: StartInput, run: Ended, check: Check, begun: int, ended: int)
    ensures LeavesBehind(DesktopRow(NewRow(input, begun), run, check, ended), input, run, check, ended)
    ensures DesktopRow(NewRow(input, begun), run, check, ended).report == Some(Summary(run, check))
  {
    SummaryReports(run, check);
  }

  class Desktop {
    const store: Store
    var screen: seq<string>

    constructor (store: Store)
      ensures this.store == store && screen == []
    {
      this.store := store;
      screen := [];
    }

    method Begin(input: StartInput, now: int, staleWindow: nat) returns (record: Record?, reclaimed: Option<nat>)
      requires store.Valid()
      modifies store
      ensures store.Valid()
      ensures record == null <==> exists id: nat ::
              ActiveFor(old(store.rows), input.session, id) && !IsStale(old(store.rows)[id], now, staleWindow)
      ensures record == null ==> store.rows == old(store.rows) && store.turns == old(store.turns)
      ensures record != null ==>
                && fresh(record) && record.Valid() && record.store == store && record.id == |old(store.rows)|
                && record.verdictStatus == Unfinished && record.verdictReason == NotContinuable
                && MayReclaim(old(store.rows), input.session, reclaimed, now, staleWindow)
                && store.rows == AfterReclaim(old(store.rows), reclaimed, now) + [NewRow(input, now)]
    {
      var admission := store.StartRun(input, now, staleWindow);
      match admission {
        case InFlight(_) => record, reclaimed := null, None;
        case Admitted(id, stale) =>
          record := new Record(store, id);
          reclaimed := stale;
      }
    }

    /**
     * One autonomous message. A session with a run in flight still gets its answer, but no row. The
     * text is concluded with the verdict before anything is sent, and marked delivered after.
     */
    method AutonomousMessage(input: StartInput, run: Ended, check: Check, begun: int, ended: int, staleWindow: nat)
      returns (id: Option<nat>, reclaimed: Option<nat>)
      requires store.Valid()
      modifies this`screen, store
      ensures store.Valid()
      ensures id.None? <==> exists i: nat ::
              ActiveFor(old(store.rows), input.session, i) && !IsStale(old(store.rows)[i], begun, staleWindow)
      ensures id.None? ==> store.rows == old(store.rows)
      ensures id.Some? ==>
                && MayReclaim(old(store.rows), input.session, reclaimed, begun, staleWindow)
                && store.rows == AfterReclaim(old(store.rows), reclaimed, begun)
                    + [DesktopRow(NewRow(input, begun), run, check, ended)]
      ensures screen == old(screen) + DesktopScreen(id.Some?, run, check)
      ensures id.Some? ==>
                && |store.rows| == |old(store.rows)| + 1 && id.value == |old(store.rows)|
                && LeavesBehind(store.rows[id.value], input, run, check, ended)
                && (forall i: nat | i < |old(store.rows)| && Some(i) != reclaimed ::
                      store.rows[i] == old(store.rows)[i])
                && screen == old(screen) + [run.answer]
                    + (if run.finished then [] else [store.rows[id.value].report.value])
      ensures id.None? ==>
                screen == old(screen) + [run.answer]
                  + (if run.finished then [] else [run.banner + "\n\n" + run.answer])
    {
      DesktopRowIsLeft(input, run, check, begun, ended);
      var record;
      record, reclaimed := Begin(input, begun, staleWindow);
      screen := screen + [run.answer];
      if record == null {
        if !run.finished {
          screen := screen + [RunText(run)];
        }
        return None, None;
      }
      ghost var others := AfterReclaim(old(store.rows), reclaimed, begun);
      FinishMessage(record, others, NewRow(input, begun), run, check, ended);
      id := Some(record.id);
    }

    /** From the end of the last turn on, with a record. */
    method FinishMessage(record: Record, ghost others: seq<RunRow>, ghost row: RunRow, run: Ended, check: Check,
        now: int)
      requires record.Valid() && record.store == store && store.rows == others + [row] && record.id == |others|
      modifies this`screen, record`verdictStatus, record`verdictReason, store`rows
      ensures store.Valid() && store.rows == others + [DesktopRow(row, run, check, now)]
      ensures screen == old(screen) + if run.finished then [] else [Summary(run, check)]
    {
      var verdict := record.Done(run, check);
      var summary := if verdict.Some? then RunText(run) + "\n\n" + verdict.value else RunText(run);
      record.Conclude(summary, now);
      if !run.finished {
        screen := screen + [summary];
      }
      record.Delivered(now);
    }
  }

  /**
   * The desktop row always says delivered. What it says was delivered has been on screen exactly when
   * the run was unfinished or nothing was checked: a finished run's verdict, even a failed one, is
   * written down and never shown.
   */
  lemma DesktopReportWasSeenExactlyWhen(row: RunRow, run: Ended, check: Check, now: int)
    ensures var end := DesktopRow(row, run, check, now);
            && !IsRunning(end) && !IsOwed(end) && end.report.Some?
            && (end.report.value in DesktopScreen(true, run, check) <==> !run.finished || check.Unchecked?)
  {
    assert !check.Unchecked? ==> |Summary(run, check)| > |RunText(run)|;
  }
}
