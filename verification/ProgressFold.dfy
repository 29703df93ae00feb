/**
 * From a benchmark's progress stream to one row per task: the stream is cut at its last run_start
 * and replayed into a dictionary of rows, updated in place.
 */
module ProgressFold {
  import opened Basics

  datatype Kind =
    | RunStart | RunDone | TaskStart | InitStart | GradeStart | InitDone | AgentDone | TaskDone | TaskFailed | Other

  datatype Phase = Init | Grade

  /** A parsed event; `task` is empty when the event names none, absent numbers are None. */
  datatype Event = Event(
    kind: Kind, task: string, ts: Option<real>, seconds: Option<real>,
    services: seq<string>, stopReason: string, result: Option<string>, total: Option<string>, error: string)

  /** A dictionary entry that may be missing, or present without a value. */
  datatype Field = Missing | Present(value: Option<real>)

  datatype Row = Row(
    task: string, order: nat,
    phase: Option<Phase>, phaseStartedAt: Option<real>,
    initStartedAt: Field, agentStartedAt: Field, gradeStartedAt: Field, gradeStarted: Option<real>,
    initSeconds: Option<real>, agentSeconds: Option<real>, gradeSeconds: Option<real>,
    services: seq<string>, stopReason: string, score: Option<(Option<string>, Option<string>)>, error: string,
    endedAt: Option<real>)

  datatype Run = Run(startedAt: Option<real>, finishedAt: Option<real>)

  function NewRow(task: string, order: nat): Row {
    Row(task, order, None, None, Missing, Missing, Missing, None, None, None, None, [], "", None, "", None)
  }

  function OrZero(x: Option<real>): real {
    if x.Some? then x.value else 0.0
  }

  function SetDefault(f: Field, value: real): Field {
    if f.Missing? then Present(Some(value)) else f
  }

  /** A start or an end at 0 counts as unknown. */
  function ElapsedSince(started: Option<real>, now: Option<real>): (r: Option<real>)
    ensures r.Some? <==> started.Some? && now.Some? && started.value != 0.0 && now.value != 0.0
    ensures r.Some? ==> r.value == if started.value <= now.value then now.value - started.value else 0.0
  {
    if OrZero(started) == 0.0 || OrZero(now) == 0.0 then None
    else Some(if now.value - started.value < 0.0 then 0.0 else now.value - started.value)
  }

  function Close(row: Row, ev: Event): Row {
    row.(gradeSeconds := ElapsedSince(row.gradeStarted, ev.ts), gradeStarted := None,
         phase := None, phaseStartedAt := None, endedAt := ev.ts)
  }

  /** What one event of a task does to its row. */
  function Update(row: Row, ev: Event): Row {
    match ev.kind
    case TaskStart => row.(phase := Some(Init), phaseStartedAt := ev.ts)
    case InitStart => row.(phase := Some(Init), phaseStartedAt := ev.ts, initStartedAt := Present(ev.ts))
    case GradeStart =>
      row.(phase := Some(Grade), phaseStartedAt := ev.ts, gradeStartedAt := Present(ev.ts), gradeStarted := ev.ts)
    case InitDone =>
      row.(initSeconds := ev.seconds,
          initStartedAt := SetDefault(row.initStartedAt, OrZero(ev.ts) - OrZero(ev.seconds)),
           services := if ev.services != [] then ev.services else row.services)
    case AgentDone =>
      row.(agentSeconds := ev.seconds,
          agentStartedAt := SetDefault(row.agentStartedAt, OrZero(ev.ts) - OrZero(ev.seconds)),
           services := if ev.services != [] then ev.services else row.services,
           stopReason := if ev.stopReason != "" then ev.stopReason else row.stopReason)
    case TaskDone => Close(row.(score := Some((ev.result, ev.total))), ev)
    case TaskFailed => Close(row.(error := if ev.error != "" then Cut(ev.error, 600) else "task failed to run"), ev)
    case _ => row
  }

  function Cut(s: string, n: nat): string {
    if |s| <= n then s else s[..n]
  }

  predicate OfATask(ev: Event) {
    ev.kind != RunStart && ev.kind != RunDone && ev.task != ""
  }

  datatype State = State(run: Run, tasks: map<string, Row>, order: nat)

  const EMPTY := State(Run(None, None), map[], 0)

  function Step(s: State, ev: Event): State {
    if ev.kind == RunStart then s.(run := s.run.(startedAt := ev.ts))
    else if ev.kind == RunDone then s.(run := s.run.(finishedAt := ev.ts))
    else if ev.task == "" then s
    else if ev.task in s.tasks then s.(tasks := s.tasks[ev.task := Update(s.tasks[ev.task], ev)])
    else State(s.run, s.tasks[ev.task := Update(NewRow(ev.task, s.order + 1), ev)], s.order + 1)
  }

  function Replay(evs: seq<Event>): State {
    if evs == [] then EMPTY else Step(Replay(evs[..|evs| - 1]), evs[|evs| - 1])
  }

  /** The events from the last run_start on; all of them when there is none. */
  function CurrentRun(parsed: seq<Event>): seq<Event> {
    if parsed == [] then []
    else
      var last := parsed[|parsed| - 1];
      if last.kind == RunStart then [last] else CurrentRun(parsed[..|parsed| - 1]) + [last]
  }

  method Fold(parsed: seq<Event>) returns (run: Run, tasks: map<string, Row>)
    ensures run == Replay(CurrentRun(parsed)).run && tasks == Replay(CurrentRun(parsed)).tasks
    ensures var evs := CurrentRun(parsed);
            run == Run(TimeOf(Last(evs, Of({RunStart}))), TimeOf(Last(evs, Of({RunDone}))))
    ensures forall name :: name in tasks <==> EventsOf(CurrentRun(parsed), name) != []
    ensures forall name | name in tasks :: Tells(tasks[name], EventsOf(CurrentRun(parsed), name))
  {
    run, tasks := Run(None, None), map[];
    var order := 0;
    var evs := CurrentRun(parsed);
    for i := 0 to |evs|
      invariant State(run, tasks, order) == Replay(evs[..i])
    {
      var ev := evs[i];
      assert evs[..i + 1][..i] == evs[..i];
      if ev.kind == RunStart {
        run := run.(startedAt := ev.ts);
        continue;
      }
      if ev.kind == RunDone {
        run := run.(finishedAt := ev.ts);
        continue;
      }
      if ev.task == "" {
        continue;
      }
      if ev.task !in tasks {
        order := order + 1;
        tasks := tasks[ev.task := NewRow(ev.task, order)];
      }
      tasks := tasks[ev.task := Update(tasks[ev.task], ev)];
    }
    assert evs[..|evs|] == evs;
    RunTells(evs);
    RowsTell(evs);
  }

  // ---- what a row tells ----

  /** What to look for among the events of a task. */
  datatype Wanted = Of(kinds: set<Kind>) | NamingServices | NamingAStopReason

  predicate Is(ev: Event, w: Wanted) {
    match w
    case Of(kinds) => ev.kind in kinds
    case NamingServices => ev.kind in {InitDone, AgentDone} && ev.services != []
    case NamingAStopReason => ev.kind == AgentDone && ev.stopReason != ""
  }

  function Last(evs: seq<Event>, w: Wanted): Option<Event> {
    if evs == [] then None
    else if Is(evs[|evs| - 1], w) then Some(evs[|evs| - 1])
    else Last(evs[..|evs| - 1], w)
  }

  function First(evs: seq<Event>, w: Wanted): Option<Event> {
    if evs == [] then None
    else
      var before := First(evs[..|evs| - 1], w);
      if before.Some? then before else if Is(evs[|evs| - 1], w) then Some(evs[|evs| - 1]) else None
  }

  /** It is the last one, and nothing when there is none. */
  lemma {:induction false} LastExactlyWhen(evs: seq<Event>, w: Wanted, k: nat)
    requires k < |evs|
    ensures Is(evs[k], w) && (forall j | k < j < |evs| :: !Is(evs[j], w)) ==> Last(evs, w) == Some(evs[k])
    ensures Last(evs, w).None? ==> !Is(evs[k], w)
    decreases |evs|
  {
    if k < |evs| - 1 {
      if !Is(evs[|evs| - 1], w) { LastExactlyWhen(evs[..|evs| - 1], w, k); }
    }
  }

  lemma {:induction false} FirstExactlyWhen(evs: seq<Event>, w: Wanted, k: nat)
    requires k < |evs|
    ensures Is(evs[k], w) && (forall j | 0 <= j < k :: !Is(evs[j], w)) ==> First(evs, w) == Some(evs[k])
    ensures First(evs, w).None? ==> !Is(evs[k], w)
    ensures First(evs, w).Some? ==> exists j :: 0 <= j < |evs| && Is(evs[j], w)
    decreases |evs|
  {
    var n := |evs| - 1;
    if n > 0 { FirstExactlyWhen(evs[..n], w, if k < n then k else 0); }
    if First(evs[..n], w).Some? {
      var j :| 0 <= j < n && Is(evs[..n][j], w);
      assert Is(evs[j], w);
    }
  }

  function TimeOf(ev: Option<Event>): Option<real> {
    if ev.Some? then ev.value.ts else None
  }

  function SecondsOf(ev: Option<Event>): Option<real> {
    if ev.Some? then ev.value.seconds else None
  }

  /** The score is the last one reported, as a pair; the error the last failure's, cut at 600 characters. */
  predicate TellsOutcome(row: Row, evs: seq<Event>) {
    var done, failed := Last(evs, Of({TaskDone})), Last(evs, Of({TaskFailed}));
    && row.score == (if done.Some? then Some((done.value.result, done.value.total)) else None)
    && (failed.None? ==> row.error == "")
    && (failed.Some? ==>
          if failed.value.error == "" then row.error == "task failed to run"
          else row.error <= failed.value.error
               && |row.error| == if |failed.value.error| <= 600 then |failed.value.error| else 600)
    && row.endedAt == TimeOf(Last(evs, Of({TaskDone, TaskFailed})))
  }

  /** The services and the stop reason are the last that were named. */
  predicate TellsNames(row: Row, evs: seq<Event>) {
    var services, reason := Last(evs, NamingServices), Last(evs, NamingAStopReason);
    && row.services == (if services.Some? then services.value.services else [])
    && row.stopReason == (if reason.Some? then reason.value.stopReason else "")
  }

  /** A recorded start wins over one worked out from the first end that was seen. */
  predicate TellsStarts(row: Row, evs: seq<Event>) {
    var started, done := Last(evs, Of({InitStart})), First(evs, Of({InitDone}));
    var agent, grade := First(evs, Of({AgentDone})), Last(evs, Of({GradeStart}));
    && row.initStartedAt == (
         if started.Some? then Present(started.value.ts)
         else if done.Some? then Present(Some(OrZero(done.value.ts) - OrZero(done.value.seconds)))
         else Missing)
    && row.agentStartedAt == (
         if agent.Some? then Present(Some(OrZero(agent.value.ts) - OrZero(agent.value.seconds))) else Missing)
    && row.gradeStartedAt == (if grade.Some? then Present(grade.value.ts) else Missing)
  }

  /** When the grading that is going on began. */
  function GradingSince(evs: seq<Event>): Option<real> {
    var last := Last(evs, Of({GradeStart, TaskDone, TaskFailed}));
    if last.Some? && last.value.kind == GradeStart then last.value.ts else None
  }

  /** The phase is that of the last start, unless the task has ended since. */
  predicate TellsPhase(row: Row, evs: seq<Event>) {
    var last := Last(evs, Of({TaskStart, InitStart, GradeStart, TaskDone, TaskFailed}));
    && row.phase == (
         if last.None? || last.value.kind in {TaskDone, TaskFailed} then None
         else if last.value.kind == GradeStart then Some(Grade) else Some(Init))
    && row.phaseStartedAt == (if row.phase.Some? then last.value.ts else None)
    && row.gradeStarted == GradingSince(evs)
  }

  /** Initialising and answering took what their last ends said; grading what lay between its start and the end. */
  ghost predicate TellsDurations(row: Row, evs: seq<Event>) {
    && row.initSeconds == SecondsOf(Last(evs, Of({InitDone})))
    && row.agentSeconds == SecondsOf(Last(evs, Of({AgentDone})))
    && (Last(evs, Of({TaskDone, TaskFailed})).None? ==> row.gradeSeconds.None?)
    && forall k | IsLastEnd(evs, k) :: row.gradeSeconds == ElapsedSince(GradingSince(evs[..k]), evs[k].ts)
  }

  predicate IsLastEnd(evs: seq<Event>, k: int) {
    && 0 <= k < |evs| && evs[k].kind in {TaskDone, TaskFailed}
    && forall j | k < j < |evs| :: evs[j].kind !in {TaskDone, TaskFailed}
  }

  ghost predicate Tells(row: Row, evs: seq<Event>) {
    && TellsOutcome(row, evs) && TellsNames(row, evs) && TellsStarts(row, evs)
    && TellsPhase(row, evs) && TellsDurations(row, evs)
  }

  lemma {:induction false} RowTells(task: string, order: nat, evs: seq<Event>)
    ensures Tells(ReplayTask(NewRow(task, order), evs), evs)
    decreases |evs|
  {
    if evs != [] {
      var n := |evs| - 1;
      RowTells(task, order, evs[..n]);
      var row := ReplayTask(NewRow(task, order), evs[..n]);
      OutcomeGoesOn(row, evs);
      NamesGoOn(row, evs);
      StartsGoOn(row, evs);
      PhaseGoesOn(row, evs);
      DurationsGoOn(row, evs);
    }
  }

  lemma OutcomeGoesOn(row: Row, evs: seq<Event>)
    requires evs != [] && TellsOutcome(row, evs[..|evs| - 1])
    ensures TellsOutcome(Update(row, evs[|evs| - 1]), evs)
  {
  }

  lemma NamesGoOn(row: Row, evs: seq<Event>)
    requires evs != [] && TellsNames(row, evs[..|evs| - 1])
    ensures TellsNames(Update(row, evs[|evs| - 1]), evs)
  {
  }

  lemma StartsGoOn(row: Row, evs: seq<Event>)
    requires evs != [] && TellsStarts(row, evs[..|evs| - 1])
    ensures TellsStarts(Update(row, evs[|evs| - 1]), evs)
  {
  }

  lemma PhaseGoesOn(row: Row, evs: seq<Event>)
    requires evs != [] && TellsPhase(row, evs[..|evs| - 1])
    ensures TellsPhase(Update(row, evs[|evs| - 1]), evs)
  {
  }

  lemma DurationsGoOn(row: Row, evs: seq<Event>)
    requires evs != [] && TellsPhase(row, evs[..|evs| - 1]) && TellsDurations(row, evs[..|evs| - 1])
    ensures TellsDurations(Update(row, evs[|evs| - 1]), evs)
  {
    var n := |evs| - 1;
    GradingGoesOn(row, evs);
    forall k | IsLastEnd(evs, k) && k < n ensures IsLastEnd(evs[..n], k) && evs[..n][..k] == evs[..k] {}
  }

  lemma GradingGoesOn(row: Row, evs: seq<Event>)
    requires evs != [] && row.gradeStarted == GradingSince(evs[..|evs| - 1])
    ensures var n := |evs| - 1;
            Update(row, evs[n]).gradeSeconds ==
              if Ends(evs[n]) then ElapsedSince(GradingSince(evs[..n]), evs[n].ts) else row.gradeSeconds
  {
  }

  lemma {:induction false} RunTells(evs: seq<Event>)
    ensures Replay(evs).run == Run(TimeOf(Last(evs, Of({RunStart}))), TimeOf(Last(evs, Of({RunDone}))))
    decreases |evs|
  {
    if evs != [] { RunTells(evs[..|evs| - 1]); }
  }

  lemma RowsTell(evs: seq<Event>)
    ensures forall name :: name in Replay(evs).tasks <==> EventsOf(evs, name) != []
    ensures forall name | name in Replay(evs).tasks :: Tells(Replay(evs).tasks[name], EventsOf(evs, name))
  {
    AppearancesAreTheTasks(evs);
    forall name ensures name in Replay(evs).tasks <==> EventsOf(evs, name) != [] {
      AppearsExactlyWhen(evs, name);
    }
    forall name | name in Replay(evs).tasks ensures Tells(Replay(evs).tasks[name], EventsOf(evs, name)) {
      assert name in Appearances(evs);
      RowOfTaskTells(evs, name);
    }
  }

  lemma RowOfTaskTells(evs: seq<Event>, name: string)
    requires name in Appearances(evs)
    ensures name in Replay(evs).tasks && Tells(Replay(evs).tasks[name], EventsOf(evs, name))
  {
    var i :| 0 <= i < |Appearances(evs)| && Appearances(evs)[i] == name;
    RowIsProjection(evs, i);
    RowTells(name, i + 1, EventsOf(evs, name));
  }

  lemma {:induction false} AppearsExactlyWhen(evs: seq<Event>, task: string)
    ensures task in Appearances(evs) <==> EventsOf(evs, task) != []
    decreases |evs|
  {
    if evs != [] { AppearsExactlyWhen(evs[..|evs| - 1], task); }
  }

  // ---- what the rows mean ----

  predicate HasRunStart(evs: seq<Event>) {
    exists ev :: ev in evs && ev.kind == RunStart
  }

  /** Nothing before the last run_start matters. */
  lemma {:induction false} OnlyTheLastRunCounts(earlier: seq<Event>, start: Event, later: seq<Event>)
    requires start.kind == RunStart && !HasRunStart(later)
    ensures CurrentRun(earlier + [start] + later) == [start] + later
    decreases |later|
  {
    var all := earlier + [start] + later;
    if later == [] {
      assert all[|all| - 1] == start;
    } else {
      var init, last := later[..|later| - 1], later[|later| - 1];
      assert last in later;
      assert all[..|all| - 1] == earlier + [start] + init && all[|all| - 1] == last;
      OnlyTheLastRunCounts(earlier, start, init);
      assert [start] + init + [last] == [start] + later;
    }
  }

  lemma {:induction false} WithoutRunStartAllCounts(evs: seq<Event>)
    requires !HasRunStart(evs)
    ensures CurrentRun(evs) == evs
    decreases |evs|
  {
    if evs != [] {
      assert evs[|evs| - 1] in evs;
      WithoutRunStartAllCounts(evs[..|evs| - 1]);
      assert evs == evs[..|evs| - 1] + [evs[|evs| - 1]];
    }
  }

  /** The events of one task, in order. */
  function EventsOf(evs: seq<Event>, task: string): seq<Event> {
    if evs == [] then []
    else
      var init := EventsOf(evs[..|evs| - 1], task);
      if OfATask(evs[|evs| - 1]) && evs[|evs| - 1].task == task then init + [evs[|evs| - 1]] else init
  }

  function ReplayTask(row: Row, evs: seq<Event>): Row {
    if evs == [] then row else Update(ReplayTask(row, evs[..|evs| - 1]), evs[|evs| - 1])
  }

  /** The tasks in the order they first appear. */
  function Appearances(evs: seq<Event>): seq<string> {
    if evs == [] then []
    else
      var init := Appearances(evs[..|evs| - 1]);
      var last := evs[|evs| - 1];
      if OfATask(last) && last.task !in init then init + [last.task] else init
  }

  /** The rows are the tasks that appeared, each once. */
  lemma {:induction false} AppearancesAreTheTasks(evs: seq<Event>)
    ensures var s := Replay(evs);
            var names := Appearances(evs);
            && s.order == |names|
            && (forall t :: t in s.tasks <==> t in names)
            && (forall i, j | 0 <= i < j < |names| :: names[i] != names[j])
    decreases |evs|
  {
    if evs != [] {
      AppearancesAreTheTasks(evs[..|evs| - 1]);
    }
  }

  lemma {:induction false} NoEventsBeforeAppearance(evs: seq<Event>, task: string)
    requires task !in Appearances(evs)
    ensures EventsOf(evs, task) == []
    decreases |evs|
  {
    if evs != [] {
      NoEventsBeforeAppearance(evs[..|evs| - 1], task);
    }
  }

  lemma ReplayTaskNext(row: Row, evs: seq<Event>, ev: Event)
    ensures ReplayTask(row, evs + [ev]) == Update(ReplayTask(row, evs), ev)
  {
    assert (evs + [ev])[..|evs|] == evs;
  }

  lemma {:induction false} RowIsProjection(evs: seq<Event>, i: nat)
    requires i < |Appearances(evs)|
    ensures var name := Appearances(evs)[i];
            name in Replay(evs).tasks && Replay(evs).tasks[name] == ReplayTask(NewRow(name, i + 1), EventsOf(evs, name))
    decreases |evs|
  {
    var init, last := evs[..|evs| - 1], evs[|evs| - 1];
    var name, names := Appearances(evs)[i], Appearances(init);
    AppearancesAreTheTasks(init);
    AppearancesAreTheTasks(evs);
    if i < |names| {
      RowIsProjection(init, i);
      ReplayTaskNext(NewRow(name, i + 1), EventsOf(init, name), last);
    } else {
      NoEventsBeforeAppearance(init, name);
      ReplayTaskNext(NewRow(name, i + 1), [], last);
    }
  }

  /**
   * The row of the k-th task to appear is numbered k, and everything else in it comes from that task's events
   * alone.
   */
  lemma RowsAreProjections(evs: seq<Event>)
    ensures var s := Replay(evs);
            var names := Appearances(evs);
            && (forall t :: t in s.tasks <==> t in names)
            && (forall i, j | 0 <= i < j < |names| :: names[i] != names[j])
            && (forall i | 0 <= i < |names| ::
                s.tasks[names[i]] == ReplayTask(NewRow(names[i], i + 1), EventsOf(evs, names[i])))
  {
    AppearancesAreTheTasks(evs);
    forall i | 0 <= i < |Appearances(evs)| { RowIsProjection(evs, i); }
  }

  predicate Starts(ev: Event) {
    ev.kind in {TaskStart, InitStart, GradeStart}
  }

  predicate Ends(ev: Event) {
    ev.kind in {TaskDone, TaskFailed}
  }

  /** The latest event of the task that starts or ends something, starts something. */
  predicate LastIsStart(evs: seq<Event>) {
    evs != [] && (Starts(evs[|evs| - 1]) || (!Ends(evs[|evs| - 1]) && LastIsStart(evs[..|evs| - 1])))
  }

  /** A row shows a phase exactly when the task's latest start or terminal event is a start. */
  lemma {:induction false} PhaseExactlyWhenStarted(task: string, order: nat, evs: seq<Event>)
    ensures ReplayTask(NewRow(task, order), evs).phase.Some? <==> LastIsStart(evs)
    decreases |evs|
  {
    if evs != [] {
      PhaseExactlyWhenStarted(task, order, evs[..|evs| - 1]);
    }
  }

  /** The order number never reaches the rest of the row. */
  lemma {:induction false} OrderIsOnlyALabel(task: string, a: nat, b: nat, evs: seq<Event>)
    ensures ReplayTask(NewRow(task, a), evs).(order := b) == ReplayTask(NewRow(task, b), evs)
    decreases |evs|
  {
    if evs != [] {
      OrderIsOnlyALabel(task, a, b, evs[..|evs| - 1]);
    }
  }
}
