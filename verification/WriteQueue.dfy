/**
 * The write queue: each call waits for the promise `writeChains` has for its path. Which continuation
 * runs next is up to the event loop; the write itself is InFlight, then its outcome.
 */
module WriteQueue {
  import opened Basics

  datatype Phase =
    | Waiting            // chained, writeOnce not entered yet
    | InFlight           // inside writeOnce
    | Settled(ok: bool)  // `next` is settled, its finally continuation has not run
    | Drained(ok: bool)  // the continuation has run; successors may start

  /** `prior` is the call whose `settled` promise this one was chained to, if there was an entry. */
  datatype Call = Call(path: string, contents: string, prior: Option<nat>, phase: Phase)

  datatype State = State(calls: seq<Call>, chains: map<string, nat>, files: map<string, string>)

  datatype Step =
    | Submit(path: string, contents: string)
    | Start(k: nat)
    | Finish(k: nat, ok: bool)
    | Cleanup(k: nat)

  predicate Ready(s: State, k: nat) {
    && k < |s.calls| && s.calls[k].phase == Waiting
    && (s.calls[k].prior.Some? ==> s.calls[k].prior.value < |s.calls| && s.calls[s.calls[k].prior.value].phase.Drained?)
  }

  predicate Enabled(s: State, step: Step) {
    match step
    case Submit(_, _) => true
    case Start(k) => Ready(s, k)
    case Finish(k, _) => k < |s.calls| && s.calls[k].phase == InFlight
    case Cleanup(k) => k < |s.calls| && s.calls[k].phase.Settled?
  }

  function SetPhase(s: State, k: nat, phase: Phase): State
    requires k < |s.calls|
  {
    s.(calls := s.calls[k := s.calls[k].(phase := phase)])
  }

  function Apply(s: State, step: Step): State
    requires Enabled(s, step)
  {
    match step
    case Submit(path, contents) =>
      var prior := if path in s.chains then Some(s.chains[path]) else None;
      s.(calls := s.calls + [Call(path, contents, prior, Waiting)], chains := s.chains[path := |s.calls|])
    case Start(k) => SetPhase(s, k, InFlight)
    case Finish(k, ok) =>
      var c := s.calls[k];
      SetPhase(if ok then s.(files := s.files[c.path := c.contents]) else s, k, Settled(ok))
    case Cleanup(k) =>
      var c := s.calls[k];
      var chains := if c.path in s.chains && s.chains[c.path] == k then s.chains - {c.path} else s.chains;
      SetPhase(s.(chains := chains), k, Drained(c.phase.ok))
  }

  // ---- the code's own form ----

  class Queue {
    var calls: seq<Call>
    var writeChains: map<string, nat>
    var files: map<string, string>

    ghost function Now(): State
      reads this
    {
      State(calls, writeChains, files)
    }

    constructor (files: map<string, string>)
      ensures Now() == State([], map[], files)
    {
      calls, writeChains := [], map[];
      this.files := files;
    }

    method AtomicWriteFile(path: string, contents: string) returns (id: nat)
      modifies this
      ensures id == |old(calls)| && Now() == Apply(old(Now()), Submit(path, contents))
      ensures |calls| == id + 1 && old(calls) <= calls && files == old(files)
      ensures calls[id].path == path && calls[id].contents == contents && calls[id].phase == Waiting
      ensures calls[id].prior == if path in old(writeChains) then Some(old(writeChains)[path]) else None
      ensures writeChains == old(writeChains)[path := id]
    {
      id := |calls|;
      var prior := if path in writeChains then Some(writeChains[path]) else None;
      calls := calls + [Call(path, contents, prior, Waiting)];
      writeChains := writeChains[path := id];
    }

    /** Either handler of `prior.then(...)`: a rejected predecessor starts its successor all the same. */
    method EnterWriteOnce(k: nat)
      requires Enabled(Now(), Start(k))
      modifies this
      ensures Now() == Apply(old(Now()), Start(k))
      ensures calls == old(calls)[k := calls[k]] && calls[k] == old(calls)[k].(phase := InFlight)
      ensures writeChains == old(writeChains) && files == old(files)
    {
      calls := calls[k := calls[k].(phase := InFlight)];
    }

    method LeaveWriteOnce(k: nat, ok: bool)
      requires Enabled(Now(), Finish(k, ok))
      modifies this
      ensures Now() == Apply(old(Now()), Finish(k, ok))
      ensures calls == old(calls)[k := calls[k]] && calls[k] == old(calls)[k].(phase := Settled(ok))
      ensures writeChains == old(writeChains)
      ensures files == if ok then old(files)[calls[k].path := calls[k].contents] else old(files)
    {
      if ok {
        files := files[calls[k].path := calls[k].contents];
      }
      calls := calls[k := calls[k].(phase := Settled(ok))];
    }

    method RunFinally(k: nat)
      requires Enabled(Now(), Cleanup(k))
      modifies this
      ensures Now() == Apply(old(Now()), Cleanup(k))
      ensures calls == old(calls)[k := calls[k]]
      ensures calls[k] == old(calls)[k].(phase := Drained(old(calls)[k].phase.ok))
      ensures files == old(files)
      ensures forall path :: path in writeChains <==>
                path in old(writeChains) && !(path == calls[k].path && old(writeChains)[path] == k)
      ensures forall path | path in writeChains :: writeChains[path] == old(writeChains)[path]
    {
      var path := calls[k].path;
      if path in writeChains && writeChains[path] == k {
        writeChains := writeChains - {path};
      }
      calls := calls[k := calls[k].(phase := Drained(calls[k].phase.ok))];
    }
  }

  // ---- what every run keeps ----

  predicate Same(calls: seq<Call>, i: nat, k: nat) {
    i < |calls| && k < |calls| && calls[i].path == calls[k].path
  }

  /** A call is chained to the nearest earlier call on its path, if to any. */
  predicate Linked(calls: seq<Call>, k: nat)
    requires k < |calls|
  {
    var prior := calls[k].prior;
    prior.Some? ==>
      && prior.value < k && Same(calls, prior.value, k)
      && forall i: nat | prior.value < i < k :: !Same(calls, i, k)
  }

  /** A call that was chained to nothing, or is past waiting, has nothing unfinished before it on its path. */
  predicate Patient(calls: seq<Call>, k: nat)
    requires k < |calls|
  {
    calls[k].prior.None? || calls[k].phase != Waiting ==>
      forall i: nat | i < k && Same(calls, i, k) :: calls[i].phase.Drained?
  }

  predicate InLine(calls: seq<Call>, k: nat)
    requires k < |calls|
  {
    Linked(calls, k) && Patient(calls, k)
  }

  predicate AllInLine(calls: seq<Call>) {
    forall k | 0 <= k < |calls| :: InLine(calls, k)
  }

  /** The map holds, for each path, its latest call, from the call until that call's cleanup. */
  ghost predicate MapTracksLatest(s: State) {
    && (forall path | path in s.chains ::
          var l := s.chains[path];
          && l < |s.calls| && s.calls[l].path == path && !s.calls[l].phase.Drained?
          && forall i | l < i < |s.calls| :: s.calls[i].path != path)
    && (forall k | 0 <= k < |s.calls| && s.calls[k].path !in s.chains :: s.calls[k].phase.Drained?)
  }

  predicate Succeeded(c: Call) {
    c.phase == Settled(true) || c.phase == Drained(true)
  }

  /**
   * What the path should hold: the contents of its last successful call among the first `n`, or what it held
   * before.
   */
  function Expected(before: map<string, string>, calls: seq<Call>, path: string): Option<string> {
    if calls == [] then (if path in before then Some(before[path]) else None)
    else
      var c := calls[|calls| - 1];
      if c.path == path && Succeeded(c) then Some(c.contents) else Expected(before, calls[..|calls| - 1], path)
  }

  ghost predicate FilesAreLastSuccess(before: map<string, string>, s: State) {
    forall path :: (if path in s.files then Some(s.files[path]) else None) == Expected(before, s.calls, path)
  }

  ghost predicate Good(before: map<string, string>, s: State) {
    && AllInLine(s.calls)
    && MapTracksLatest(s)
    && FilesAreLastSuccess(before, s)
  }

  lemma {:induction false} ExpectedIgnoresUnsuccessful(before: map<string, string>, calls: seq<Call>, k: nat,
      c: Call, path: string)
    requires k < |calls| && c.path == calls[k].path && c.contents == calls[k].contents
    requires Succeeded(c) == Succeeded(calls[k]) || calls[k].path != path
    ensures Expected(before, calls[k := c], path) == Expected(before, calls, path)
    decreases |calls|
  {
    var last := |calls| - 1;
    if k < last {
      assert calls[k := c][..last] == calls[..last][k := c];
      ExpectedIgnoresUnsuccessful(before, calls[..last], k, c, path);
    } else {
      assert calls[k := c][..last] == calls[..last];
    }
  }

  lemma {:induction false} ExpectedOfLastSuccess(before: map<string, string>, calls: seq<Call>, k: nat, c: Call)
    requires k < |calls| && Succeeded(c)
    requires forall i | k < i < |calls| && calls[i].path == c.path :: !Succeeded(calls[i])
    ensures Expected(before, calls[k := c], c.path) == Some(c.contents)
    decreases |calls|
  {
    var last := |calls| - 1;
    if k < last {
      assert calls[k := c][..last] == calls[..last][k := c];
      ExpectedOfLastSuccess(before, calls[..last], k, c);
    }
  }

  lemma StepStaysGood(before: map<string, string>, s: State, step: Step)
    requires Good(before, s) && Enabled(s, step)
    ensures Good(before, Apply(s, step))
  {
    match step {
      case Submit(path, contents) => SubmitStaysGood(before, s, path, contents);
      case Start(k) => StartStaysGood(before, s, k);
      case Finish(k, ok) => FinishStaysGood(before, s, k, ok);
      case Cleanup(k) => CleanupStaysGood(before, s, k);
    }
  }

  /** A phase change that never un-drains keeps the line, if the call that moved had its turn. */
  lemma PhaseChangeKeepsLine(calls: seq<Call>, k: nat, phase: Phase)
    requires k < |calls| && !calls[k].phase.Drained?
    requires AllInLine(calls)
    requires forall i: nat | i < k && Same(calls, i, k) :: calls[i].phase.Drained?
    ensures AllInLine(calls[k := calls[k].(phase := phase)])
  {
    var calls' := calls[k := calls[k].(phase := phase)];
    forall i | 0 <= i < |calls| ensures InLine(calls', i) {
      assert InLine(calls, i);
      forall j: nat ensures Same(calls', j, i) == Same(calls, j, i) {}
    }
  }

  lemma SubmitStaysGood(before: map<string, string>, s: State, path: string, contents: string)
    requires Good(before, s)
    ensures Good(before, Apply(s, Submit(path, contents)))
  {
    var s' := Apply(s, Submit(path, contents));
    forall k | 0 <= k < |s'.calls| ensures InLine(s'.calls, k) {
      forall j: nat | j < |s.calls|
        ensures Same(s'.calls, j, k) == if k < |s.calls| then Same(s.calls, j, k) else s.calls[j].path == path {}
      if k < |s.calls| { assert InLine(s.calls, k); }
    }
    assert s'.calls[..|s.calls|] == s.calls;
  }

  lemma StartStaysGood(before: map<string, string>, s: State, k: nat)
    requires Good(before, s) && Enabled(s, Start(k))
    ensures Good(before, Apply(s, Start(k)))
  {
    var s' := Apply(s, Start(k));
    assert InLine(s.calls, k);
    if s.calls[k].prior.Some? {
      var prior := s.calls[k].prior.value;
      assert InLine(s.calls, prior);
      forall i: nat | i < k && Same(s.calls, i, k) ensures s.calls[i].phase.Drained? {
        assert i <= prior && Same(s.calls, i, prior);
      }
    }
    PhaseChangeKeepsLine(s.calls, k, InFlight);
    forall path ensures Expected(before, s'.calls, path) == Expected(before, s.calls, path) {
      ExpectedIgnoresUnsuccessful(before, s.calls, k, s'.calls[k], path);
    }
  }

  lemma FinishStaysGood(before: map<string, string>, s: State, k: nat, ok: bool)
    requires Good(before, s) && Enabled(s, Finish(k, ok))
    ensures Good(before, Apply(s, Finish(k, ok)))
  {
    var s' := Apply(s, Finish(k, ok));
    var c := s'.calls[k];
    assert InLine(s.calls, k);
    PhaseChangeKeepsLine(s.calls, k, Settled(ok));
    forall i | k < i < |s.calls| && s.calls[i].path == c.path ensures s.calls[i].phase == Waiting {
      assert InLine(s.calls, i) && Same(s.calls, k, i);
    }
    forall path ensures (if path in s'.files then Some(s'.files[path]) else None) == Expected(before, s'.calls, path) {
      if ok && path == c.path {
        ExpectedOfLastSuccess(before, s.calls, k, c);
      } else {
        ExpectedIgnoresUnsuccessful(before, s.calls, k, c, path);
      }
    }
  }

  lemma CleanupStaysGood(before: map<string, string>, s: State, k: nat)
    requires Good(before, s) && Enabled(s, Cleanup(k))
    ensures Good(before, Apply(s, Cleanup(k)))
  {
    var s' := Apply(s, Cleanup(k));
    assert InLine(s.calls, k);
    PhaseChangeKeepsLine(s.calls, k, s'.calls[k].phase);
    forall i | 0 <= i < |s'.calls| && s'.calls[i].path !in s'.chains ensures s'.calls[i].phase.Drained? {
      if s.calls[i].path in s.chains && i != k {
        // only `k`, the latest call of this path, can have dropped the entry; everything earlier had drained
        assert s.chains[s.calls[i].path] == k && InLine(s.calls, k) && Same(s.calls, i, k);
      }
    }
    forall path ensures Expected(before, s'.calls, path) == Expected(before, s.calls, path) {
      ExpectedIgnoresUnsuccessful(before, s.calls, k, s'.calls[k], path);
    }
  }

  ghost predicate Legal(s: State, steps: seq<Step>)
    decreases |steps|
  {
    steps == [] || (Enabled(s, steps[0]) && Legal(Apply(s, steps[0]), steps[1..]))
  }

  ghost function Exec(s: State, steps: seq<Step>): State
    requires Legal(s, steps)
    decreases |steps|
  {
    if steps == [] then s else Exec(Apply(s, steps[0]), steps[1..])
  }

  lemma {:induction false} RunStaysGood(before: map<string, string>, s: State, steps: seq<Step>)
    requires Good(before, s) && Legal(s, steps)
    ensures Good(before, Exec(s, steps))
    decreases |steps|
  {
    if steps != [] {
      StepStaysGood(before, s, steps[0]);
      RunStaysGood(before, Apply(s, steps[0]), steps[1..]);
    }
  }

  // ---- the promises ----

  function Fresh(files: map<string, string>): State {
    State([], map[], files)
  }

  /**
   * One write per path at a time, entered in call order: when a call is past waiting, all earlier ones on its
   * path are over.
   */
  lemma SerialAndInOrder(before: map<string, string>, steps: seq<Step>, i: nat, k: nat)
    requires Legal(Fresh(before), steps)
    requires var s := Exec(Fresh(before), steps); i < k && Same(s.calls, i, k) && s.calls[k].phase != Waiting
    ensures Exec(Fresh(before), steps).calls[i].phase.Drained?
  {
    RunStaysGood(before, Fresh(before), steps);
    assert InLine(Exec(Fresh(before), steps).calls, k);
  }

  /**
   * The map has an entry for a path exactly while its latest call has not been cleaned up, and the entry is
   * that call.
   */
  lemma MapLifecycle(before: map<string, string>, steps: seq<Step>, k: nat)
    requires Legal(Fresh(before), steps)
    requires IsLatest(Exec(Fresh(before), steps).calls, k)
    ensures var s := Exec(Fresh(before), steps);
            var path := s.calls[k].path;
            (path in s.chains <==> !s.calls[k].phase.Drained?) && (path in s.chains ==> s.chains[path] == k)
  {
    RunStaysGood(before, Fresh(before), steps);
    LatestIsTheEntry(Exec(Fresh(before), steps), k);
  }

  predicate IsLatest(calls: seq<Call>, k: nat) {
    k < |calls| && forall i | k < i < |calls| :: calls[i].path != calls[k].path
  }

  lemma LatestIsTheEntry(s: State, k: nat)
    requires MapTracksLatest(s) && IsLatest(s.calls, k)
    ensures var path := s.calls[k].path;
            (path in s.chains <==> !s.calls[k].phase.Drained?) && (path in s.chains ==> s.chains[path] == k)
  {
    if s.calls[k].path in s.chains {
      assert s.chains[s.calls[k].path] == k;
    }
  }

  predicate AllDrained(s: State) {
    forall k | 0 <= k < |s.calls| :: s.calls[k].phase.Drained?
  }

  /** Work left: three continuations for a waiting call, two once in flight, one once settled. */
  function Left(calls: seq<Call>): nat {
    if calls == [] then 0 else
      Left(calls[..|calls| - 1]) +
      match calls[|calls| - 1].phase { case Waiting => 3 case InFlight => 2 case Settled(_) => 1 case Drained(_) => 0 }
  }

  lemma {:induction false} LeftAfter(calls: seq<Call>, k: nat, c: Call)
    requires k < |calls|
    ensures Left(calls[k := c]) - Left([c]) == Left(calls) - Left([calls[k]])
    decreases |calls|
  {
    var last := |calls| - 1;
    assert [c][..0] == [] && [calls[k]][..0] == [];
    if k < last {
      assert calls[k := c][..last] == calls[..last][k := c];
      LeftAfter(calls[..last], k, c);
    } else {
      assert calls[k := c][..last] == calls[..last];
    }
  }

  lemma {:induction false} NothingLeft(calls: seq<Call>)
    ensures Left(calls) == 0 <==> forall k | 0 <= k < |calls| :: calls[k].phase.Drained?
    decreases |calls|
  {
    if calls != [] {
      NothingLeft(calls[..|calls| - 1]);
      assert forall k | 0 <= k < |calls| - 1 :: calls[..|calls| - 1][k] == calls[k];
    }
  }

  /** The queue never deadlocks: while work is left, some continuation can run, whatever failed before. */
  lemma {:induction false} SomethingCanRun(before: map<string, string>, s: State)
    requires Good(before, s) && !AllDrained(s)
    ensures exists step: Step :: !step.Submit? && Enabled(s, step)
  {
    var k: nat := 0;
    while s.calls[k].phase.Drained?
      invariant k < |s.calls| && forall i | 0 <= i < k :: s.calls[i].phase.Drained?
      decreases |s.calls| - k
    {
      k := k + 1;
    }
    assert InLine(s.calls, k);
    match s.calls[k].phase {
      case Waiting => assert Enabled(s, Start(k));
      case InFlight => assert Enabled(s, Finish(k, false));
      case Settled(_) => assert Enabled(s, Cleanup(k));
    }
  }

  lemma ContinuationDoesWork(s: State, step: Step)
    requires Enabled(s, step) && !step.Submit?
    ensures Left(Apply(s, step).calls) == Left(s.calls) - 1
  {
    var c := Apply(s, step).calls[step.k];
    LeftAfter(s.calls, step.k, c);
    assert [c][..0] == [] && [s.calls[step.k]][..0] == [];
  }

  lemma {:induction false} WorkDone(s: State, steps: seq<Step>)
    requires Legal(s, steps) && forall step | step in steps :: !step.Submit?
    ensures Left(Exec(s, steps).calls) == Left(s.calls) - |steps|
    decreases |steps|
  {
    if steps != [] {
      ContinuationDoesWork(s, steps[0]);
      WorkDone(Apply(s, steps[0]), steps[1..]);
    }
  }

  // ---- the same, said of what callers asked for and what became of it ----

  /** The writes asked for, in order: call `k` is the `k`-th of them. */
  function Requests(steps: seq<Step>): seq<(string, string)>
    decreases |steps|
  {
    if steps == [] then []
    else (if steps[0].Submit? then [(steps[0].path, steps[0].contents)] else []) + Requests(steps[1..])
  }

  /** Call `k` is the last one on the path whose write succeeded. */
  predicate LastToSucceed(steps: seq<Step>, path: string, k: nat) {
    var asked := Requests(steps);
    && k < |asked| && asked[k].0 == path && Finish(k, true) in steps
    && forall j | k < j < |asked| && asked[j].0 == path :: Finish(j, true) !in steps
  }

  /** Each path holds what the last successful write on it was asked to put there, or what it held before. */
  ghost predicate FilesAsAsked(before: map<string, string>, steps: seq<Step>, files: map<string, string>) {
    && (forall path, k: nat | LastToSucceed(steps, path, k) ::
          path in files && files[path] == Requests(steps)[k].1)
    && (forall path | forall k: nat :: !LastToSucceed(steps, path, k) ::
          (path in files <==> path in before) && (path in files ==> files[path] == before[path]))
  }

  /** The calls from `n` on are the requests in order. */
  ghost predicate Carries(calls: seq<Call>, n: nat, asked: seq<(string, string)>) {
    |calls| == n + |asked| && forall k: nat | k < |asked| :: (calls[n + k].path, calls[n + k].contents) == asked[k]
  }

  /** The calls at the end of a run: the old ones, then those it asked for; the successes are those it reports. */
  lemma {:induction false} CallsAreRequests(s: State, steps: seq<Step>)
    requires Legal(s, steps)
    ensures var end := Exec(s, steps);
            && Carries(end.calls, |s.calls|, Requests(steps))
            && (forall k | 0 <= k < |s.calls| :: SameRequest(end.calls[k], s.calls[k]))
            && forall k | 0 <= k < |end.calls| ::
                 Succeeded(end.calls[k]) <==> (k < |s.calls| && Succeeded(s.calls[k])) || Finish(k, true) in steps
    decreases |steps|
  {
    if steps != [] {
      var next := Apply(s, steps[0]);
      CallsAreRequests(next, steps[1..]);
      assert steps == [steps[0]] + steps[1..];
    }
  }

  predicate SameRequest(a: Call, b: Call) {
    a.path == b.path && a.contents == b.contents
  }

  /** The last call on the path that succeeded, if there is one. */
  lemma {:induction false} ExpectedFromCalls(before: map<string, string>, calls: seq<Call>, path: string)
    returns (last: Option<nat>)
    ensures last.Some? ==>
              && last.value < |calls| && calls[last.value].path == path && Succeeded(calls[last.value])
              && (forall j | last.value < j < |calls| && calls[j].path == path :: !Succeeded(calls[j]))
              && Expected(before, calls, path) == Some(calls[last.value].contents)
    ensures last.None? ==>
              && (forall j | 0 <= j < |calls| && calls[j].path == path :: !Succeeded(calls[j]))
              && Expected(before, calls, path) == if path in before then Some(before[path]) else None
    decreases |calls|
  {
    if calls == [] {
      last := None;
    } else {
      var c := calls[|calls| - 1];
      if c.path == path && Succeeded(c) {
        last := Some(|calls| - 1);
      } else {
        last := ExpectedFromCalls(before, calls[..|calls| - 1], path);
      }
    }
  }

  /** Call `k` is request `k`, and has succeeded when the steps say so. */
  predicate RequestAt(calls: seq<Call>, steps: seq<Step>, k: nat) {
    var asked := Requests(steps);
    && k < |calls| && k < |asked| && calls[k].path == asked[k].0 && calls[k].contents == asked[k].1
    && (Succeeded(calls[k]) <==> Finish(k, true) in steps)
  }

  predicate Matches(calls: seq<Call>, steps: seq<Step>) {
    |calls| == |Requests(steps)| && forall k | 0 <= k < |calls| :: RequestAt(calls, steps, k)
  }

  lemma CallsMatch(before: map<string, string>, steps: seq<Step>)
    requires Legal(Fresh(before), steps)
    ensures Matches(Exec(Fresh(before), steps).calls, steps)
  {
    var calls := Exec(Fresh(before), steps).calls;
    CallsAreRequests(Fresh(before), steps);
    forall k | 0 <= k < |calls| ensures RequestAt(calls, steps, k) {
      assert (calls[0 + k].path, calls[0 + k].contents) == Requests(steps)[k];
    }
  }

  /**
   * At every moment of every run each path holds exactly what the last successful write on it was asked
   * to put there, whatever the interleaving and whatever failed.
   */
  lemma FilesHoldWhatWasAsked(before: map<string, string>, steps: seq<Step>)
    requires Legal(Fresh(before), steps)
    ensures FilesAsAsked(before, steps, Exec(Fresh(before), steps).files)
  {
    RunStaysGood(before, Fresh(before), steps);
    CallsMatch(before, steps);
    LastSuccessIsAsked(before, Exec(Fresh(before), steps), steps);
  }

  lemma LastSuccessIsAsked(before: map<string, string>, s: State, steps: seq<Step>)
    requires FilesAreLastSuccess(before, s) && Matches(s.calls, steps)
    ensures FilesAsAsked(before, steps, s.files)
  {
    forall path, k: nat | LastToSucceed(steps, path, k)
      ensures path in s.files && s.files[path] == Requests(steps)[k].1
    {
      LastOneDecides(before, s.calls, steps, path, k);
    }
    forall path | forall k: nat :: !LastToSucceed(steps, path, k)
      ensures (path in s.files <==> path in before) && (path in s.files ==> s.files[path] == before[path])
    {
      var last := ExpectedFromCalls(before, s.calls, path);
      if last.Some? {
        assert RequestAt(s.calls, steps, last.value);
        forall j | last.value < j < |s.calls| && Requests(steps)[j].0 == path ensures Finish(j, true) !in steps {
          assert RequestAt(s.calls, steps, j);
        }
        assert LastToSucceed(steps, path, last.value);
      }
    }
  }

  lemma LastOneDecides(before: map<string, string>, calls: seq<Call>, steps: seq<Step>, path: string, k: nat)
    requires Matches(calls, steps) && LastToSucceed(steps, path, k)
    ensures Expected(before, calls, path) == Some(Requests(steps)[k].1)
  {
    assert RequestAt(calls, steps, k);
    forall i | k < i < |calls| && calls[i].path == path ensures !Succeeded(calls[i]) {
      assert RequestAt(calls, steps, i);
    }
    ExpectedOfLastSuccess(before, calls, k, calls[k]);
    assert calls[k := calls[k]] == calls;
  }

  lemma {:induction false} ExecAppend(s: State, a: seq<Step>, b: seq<Step>)
    requires Legal(s, a) && Legal(Exec(s, a), b)
    ensures Legal(s, a + b) && Exec(s, a + b) == Exec(Exec(s, a), b)
    decreases |a|
  {
    if a == [] {
      assert a + b == b;
    } else {
      assert (a + b)[0] == a[0] && (a + b)[1..] == a[1..] + b;
      ExecAppend(Apply(s, a[0]), a[1..], b);
    }
  }

  /**
   * Draining: after any history and any schedule of the remaining continuations, exactly as many
   * as there is work left can run; then every call is over, the map is empty, and each path holds
   * what the last successful write on it was asked to put there.
   */
  lemma DrainedQueue(before: map<string, string>, past: seq<Step>, rest: seq<Step>)
    requires Legal(Fresh(before), past)
    requires var s := Exec(Fresh(before), past);
             Legal(s, rest) && (forall step | step in rest :: !step.Submit?)
    ensures var s := Exec(Fresh(before), past); |rest| <= Left(s.calls)
    ensures var s := Exec(Fresh(before), past); |rest| == Left(s.calls) ==>
              var end := Exec(s, rest);
              AllDrained(end) && end.chains == map[] && FilesAsAsked(before, past + rest, end.files)
    ensures var s := Exec(Fresh(before), past); |rest| < Left(s.calls) ==>
              exists step: Step :: !step.Submit? && Enabled(Exec(s, rest), step)
  {
    var s := Exec(Fresh(before), past);
    var end := Exec(s, rest);
    RunStaysGood(before, Fresh(before), past);
    RunStaysGood(before, s, rest);
    WorkDone(s, rest);
    NothingLeft(end.calls);
    ExecAppend(Fresh(before), past, rest);
    FilesHoldWhatWasAsked(before, past + rest);
    if |rest| < Left(s.calls) {
      SomethingCanRun(before, end);
    } else {
      assert forall path | path in end.chains :: false;
    }
  }
}
