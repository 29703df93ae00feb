/**
 * Write-temp, fsync, rename: first one call, in the code's own imperative form with every
 * failure it can meet, then any number of concurrent calls of any number of processes as a
 * transition system that may stop (crash) between any two file-system operations.
 */
module AtomicWrite {
  import opened Basics
  import opened TempNames

  const RENAME_ATTEMPTS := 5

  datatype RenameOutcome = RenameOk | Retryable | Fatal

  /** What the file system answers during one asynchronous write. */
  datatype Weather = Weather(
    opens: bool,                    // mkdir and the open of the temp file succeed
    written: nat,                   // characters that reach the temp file before the write throws, if it does
    writes: bool,                   // write, sync and close all succeed
    renames: nat -> RenameOutcome,  // answer to the i-th rename
    removes: bool                   // the clean-up of the temp file succeeds
  )

  function Prefix(s: string, n: nat): string {
    if n <= |s| then s[..n] else s
  }

  /** How many renames are tried: up to the first answer that is not retryable, at most five. */
  function Attempts(renames: nat -> RenameOutcome, i: nat): (n: nat)
    requires i < RENAME_ATTEMPTS
    ensures i < n <= RENAME_ATTEMPTS
    ensures forall j | i <= j < n - 1 :: renames(j) == Retryable
    ensures n == RENAME_ATTEMPTS || renames(n - 1) != Retryable
    decreases RENAME_ATTEMPTS - i
  {
    if renames(i) != Retryable || i == RENAME_ATTEMPTS - 1 then i + 1 else Attempts(renames, i + 1)
  }

  predicate RenameSucceeds(renames: nat -> RenameOutcome) {
    renames(Attempts(renames, 0) - 1) == RenameOk
  }

  class FileSystem {
    var files: map<string, string>

    constructor (files: map<string, string>)
      ensures this.files == files
    {
      this.files := files;
    }

    method RenameWithRetry(from: string, to: string, renames: nat -> RenameOutcome) returns (ok: bool)
      requires from in files && from != to
      modifies this
      ensures ok == RenameSucceeds(renames)
      ensures files == if ok then old(files)[to := old(files)[from]] - {from} else old(files)
    {
      var i := 0;
      while true
        invariant i < RENAME_ATTEMPTS && files == old(files)
        invariant Attempts(renames, i) == Attempts(renames, 0)
        decreases RENAME_ATTEMPTS - i
      {
        if renames(i) == RenameOk {
          files := files[to := files[from]] - {from};
          return true;
        }
        if renames(i) == Fatal || i >= RENAME_ATTEMPTS - 1 {
          return false;
        }
        i := i + 1;
      }
    }

    /**
     * One asynchronous write. Success replaces the destination by the whole contents and leaves no
     * temp file; failure leaves the destination alone. A temp file survives exactly when the write
     * itself threw (with what had been written of it), or when the clean-up after a lost rename was refused.
     */
    method WriteOnce(path: string, contents: string, stamp: Stamp, w: Weather) returns (ok: bool)
      requires TmpPath(path, stamp) != path
      modifies this
      ensures ok == (w.opens && w.writes && RenameSucceeds(w.renames))
      ensures forall p | p != path && p != TmpPath(path, stamp) :: p in files <==> p in old(files)
      ensures forall p | p != path && p != TmpPath(path, stamp) && p in files :: files[p] == old(files)[p]
      ensures ok ==> path in files && files[path] == contents && TmpPath(path, stamp) !in files
      ensures !ok ==> (path in files <==> path in old(files)) && (path in files ==> files[path] == old(files)[path])
      ensures !ok && w.opens ==>
                (TmpPath(path, stamp) in files <==> !w.writes || !w.removes)
      ensures !w.opens ==> files == old(files)
      ensures !ok && w.opens && !w.writes ==> files[TmpPath(path, stamp)] == Prefix(contents, w.written)
      ensures !ok && w.opens && w.writes && !w.removes ==> files[TmpPath(path, stamp)] == contents
    {
      if !w.opens {
        return false;
      }
      var tmp := TmpPath(path, stamp);
      files := files[tmp := ""];
      if !w.writes {
        files := files[tmp := Prefix(contents, w.written)];
        return false;
      }
      files := files[tmp := contents];
      ok := RenameWithRetry(tmp, path, w.renames);
      if !ok && w.removes {
        files := files - {tmp};
      }
    }

    /**
     * The synchronous twin writes once and ignores how much was written, so what it installs is
     * whole exactly when that one write took everything; a refused rename leaves the temp file behind.
     */
    method AtomicWriteFileSync(path: string, contents: string, stamp: Stamp, written: nat, renames: bool)
      returns (ok: bool)
      requires TmpPath(path, stamp) != path && written <= |contents|
      modifies this
      ensures ok == renames
      ensures files == if ok then old(files)[path := contents[..written]] - {TmpPath(path, stamp)}
                       else old(files)[TmpPath(path, stamp) := contents[..written]]
      ensures ok ==> (files[path] == contents <==> written == |contents|)
    {
      var tmp := TmpPath(path, stamp);
      files := files[tmp := contents[..written]];
      if !renames {
        return false;
      }
      files := files[path := files[tmp]] - {tmp};
      ok := true;
    }
  }

  // ---- concurrent calls, crashes anywhere ----

  /**
   * Where a call is. It ends as Renamed, or it fails: before its temp file existed, while writing it,
   * or on a lost rename, whose clean-up succeeded or was refused.
   */
  datatype Pc =
    | Named | Writing(done: nat) | Whole(attempts: nat) | Removing
    | Renamed | Unopened | Torn(done: nat) | Cleaned | Refused

  datatype Call = Call(dest: string, contents: string, stamp: Stamp, pc: Pc)

  /** A process incarnation: its temp counter, and the millisecond it was born in. */
  datatype Incarnation = Incarnation(counter: nat, bornAt: nat)

  datatype World = World(files: map<string, string>, calls: seq<Call>, procs: map<nat, Incarnation>)

  datatype Step =
    | Boot(pid: nat, ms: nat)
    | Name(pid: nat, ms: nat, dest: string, contents: string)
    | OpenTmp(i: nat)
    | Write(i: nat, upTo: nat)
    | Finish(i: nat)
    | Rename(i: nat)
    | LoseRename(i: nat, retry: bool)
    | Remove(i: nat, removes: bool)
    | Throw(i: nat)

  function Tmp(c: Call): string {
    TmpPath(c.dest, c.stamp)
  }

  /** A pid is handed out again only in a later millisecond than any its earlier owner used. */
  ghost predicate Enabled(w: World, s: Step) {
    match s
    case Boot(pid, ms) => forall c | c in w.calls && c.stamp.pid == pid :: c.stamp.ms < ms
    case Name(pid, ms, dest, _) => pid in w.procs && ms >= w.procs[pid].bornAt
    case OpenTmp(i) => i < |w.calls| && w.calls[i].pc == Named
    case Write(i, upTo) => i < |w.calls| && w.calls[i].pc.Writing?
        && w.calls[i].pc.done <= upTo <= |w.calls[i].contents|
    case Finish(i) => i < |w.calls| && w.calls[i].pc == Writing(|w.calls[i].contents|)
    case Rename(i) => i < |w.calls| && w.calls[i].pc.Whole? && Tmp(w.calls[i]) in w.files
    case LoseRename(i, retry) => i < |w.calls| && w.calls[i].pc.Whole?
    case Remove(i, _) => i < |w.calls| && w.calls[i].pc == Removing
    case Throw(i) => i < |w.calls| && (w.calls[i].pc == Named || w.calls[i].pc.Writing?)
  }

  function At(w: World, i: nat, pc: Pc): World
    requires i < |w.calls|
  {
    w.(calls := w.calls[i := w.calls[i].(pc := pc)])
  }

  ghost function Apply(w: World, s: Step): World
    requires Enabled(w, s)
  {
    match s
    case Boot(pid, ms) => w.(procs := w.procs[pid := Incarnation(0, ms)])
    case Name(pid, ms, dest, contents) =>
      var p := w.procs[pid];
      w.(calls := w.calls + [Call(dest, contents, Stamp(pid, ms, p.counter), Named)],
         procs := w.procs[pid := p.(counter := p.counter + 1)])
    case OpenTmp(i) => At(w.(files := w.files[Tmp(w.calls[i]) := ""]), i, Writing(0))
    case Write(i, upTo) => At(w.(files := w.files[Tmp(w.calls[i]) := w.calls[i].contents[..upTo]]), i, Writing(upTo))
    case Finish(i) => At(w, i, Whole(0))
    case Rename(i) =>
      At(w.(files := w.files[w.calls[i].dest := w.files[Tmp(w.calls[i])]] - {Tmp(w.calls[i])}), i, Renamed)
    case LoseRename(i, retry) =>
      var a := w.calls[i].pc.attempts;
      At(w, i, if retry && a + 1 < RENAME_ATTEMPTS then Whole(a + 1) else Removing)
    case Remove(i, removes) =>
      if removes then At(w.(files := w.files - {Tmp(w.calls[i])}), i, Cleaned) else At(w, i, Refused)
    case Throw(i) => At(w, i, if w.calls[i].pc == Named then Unopened else Torn(w.calls[i].pc.done))
  }

  /** A family of destinations none of which is spelled like a temp file of another. */
  ghost predicate Apart(dests: iset<string>) {
    forall path, file, stamp | path in dests && file in dests :: path != TmpPath(file, stamp)
  }

  ghost predicate StampsDistinct(w: World) {
    && (forall i, j | 0 <= i < j < |w.calls| :: w.calls[i].stamp != w.calls[j].stamp)
    && (forall c | c in w.calls :: c.stamp.pid in w.procs)
    && (forall c | c in w.calls :: var p := w.procs[c.stamp.pid]; c.stamp.ms < p.bornAt || c.stamp.counter < p.counter)
  }

  /**
   * What is in a call's temp file, up to its end and after: nothing is left of it once it was renamed or
   * cleaned up.
   */
  predicate Drafted(w: World, c: Call) {
    var tmp := Read(w.files, Tmp(c));
    match c.pc
    case Writing(done) => done <= |c.contents| && tmp == Some(c.contents[..done])
    case Torn(done) => done <= |c.contents| && tmp == Some(c.contents[..done])
    case Whole(attempts) => attempts < RENAME_ATTEMPTS && tmp == Some(c.contents)
    case Removing => tmp == Some(c.contents)
    case Refused => tmp == Some(c.contents)
    case Renamed => tmp == None
    case Cleaned => tmp == None
    case _ => true
  }

  function Read(files: map<string, string>, path: string): Option<string> {
    if path in files then Some(files[path]) else None
  }

  ghost predicate InstalledBy(w: World, path: string, i: nat) {
    i < |w.calls| && w.calls[i].dest == path && w.calls[i].pc == Renamed
        && Read(w.files, path) == Some(w.calls[i].contents)
  }

  /** The destination shows what was there at the start, or all of what one finished call wrote. */
  ghost predicate WholeOldOrWholeNew(w0: World, w: World, path: string) {
    Read(w.files, path) == Read(w0.files, path) || exists i :: InstalledBy(w, path, i)
  }

  ghost predicate Sound(dests: iset<string>, w0: World, w: World) {
    && StampsDistinct(w)
    && (forall i | 0 <= i < |w.calls| :: w.calls[i].dest in dests && Drafted(w, w.calls[i]))
    && (forall path | path in dests :: WholeOldOrWholeNew(w0, w, path))
  }

  lemma NameKeepsStampsDistinct(w: World, s: Step)
    requires StampsDistinct(w) && Enabled(w, s) && (s.Name? || s.Boot?)
    ensures StampsDistinct(Apply(w, s))
  {
  }

  /** No other call's temp file, and no destination, is this call's temp file. */
  lemma TempIsPrivate(dests: iset<string>, w0: World, w: World, i: nat)
    requires Apart(dests) && Sound(dests, w0, w) && i < |w.calls|
    ensures forall j | 0 <= j < |w.calls| && j != i :: Tmp(w.calls[j]) != Tmp(w.calls[i])
    ensures forall path | path in dests :: path != Tmp(w.calls[i])
    ensures forall j | 0 <= j < |w.calls| :: Tmp(w.calls[j]) != w.calls[i].dest
  {
    forall j | 0 <= j < |w.calls| && j != i ensures Tmp(w.calls[j]) != Tmp(w.calls[i]) {
      assert w.calls[if i < j then i else j].stamp != w.calls[if i < j then j else i].stamp;
      if Tmp(w.calls[j]) == Tmp(w.calls[i]) {
        TmpPathInjective(w.calls[j].dest, w.calls[j].stamp, w.calls[i].dest, w.calls[i].stamp);
      }
    }
  }

  lemma StepStaysSound(dests: iset<string>, w0: World, w: World, s: Step)
    requires Apart(dests) && Sound(dests, w0, w) && Enabled(w, s) && Within(dests, s)
    ensures Sound(dests, w0, Apply(w, s))
  {
    var w' := Apply(w, s);
    if s.Name? || s.Boot? {
      NameKeepsStampsDistinct(w, s);
      forall path | path in dests ensures WholeOldOrWholeNew(w0, w', path) {
        KeepsInstalled(w0, w, w', path);
      }
    } else {
      CallStepStaysSound(dests, w0, w, s);
    }
  }

  lemma KeepsInstalled(w0: World, w: World, w': World, path: string)
    requires WholeOldOrWholeNew(w0, w, path) && Read(w'.files, path) == Read(w.files, path)
    requires |w'.calls| >= |w.calls|
    requires forall i | 0 <= i < |w.calls| && w.calls[i].pc == Renamed :: w'.calls[i] == w.calls[i]
    ensures WholeOldOrWholeNew(w0, w', path)
  {
    if i :| InstalledBy(w, path, i) {
      assert InstalledBy(w', path, i);
    }
  }

  lemma CallStepStaysSound(dests: iset<string>, w0: World, w: World, s: Step)
    requires Apart(dests) && Sound(dests, w0, w) && Enabled(w, s) && !s.Name? && !s.Boot?
    ensures Sound(dests, w0, Apply(w, s))
  {
    var w' := Apply(w, s);
    StampsSurvive(w, w', s.i);
    forall j | 0 <= j < |w'.calls| ensures w'.calls[j].dest in dests && Drafted(w', w'.calls[j]) {
      if j == s.i { OwnDraftMovesOn(dests, w0, w, s); } else { OtherDraftSurvives(dests, w0, w, s, j); }
    }
    forall path | path in dests ensures WholeOldOrWholeNew(w0, w', path) {
      DestinationSurvives(dests, w0, w, s, path);
    }
  }

  lemma StampsSurvive(w: World, w': World, i: nat)
    requires StampsDistinct(w) && i < |w.calls| && w'.procs == w.procs
    requires exists pc :: w'.calls == w.calls[i := w.calls[i].(pc := pc)]
    ensures StampsDistinct(w')
  {
    forall c | c in w'.calls ensures exists b :: b in w.calls && b.stamp == c.stamp {
      var j :| 0 <= j < |w'.calls| && w'.calls[j] == c;
      assert w.calls[j] in w.calls;
    }
  }

  lemma OwnDraftMovesOn(dests: iset<string>, w0: World, w: World, s: Step)
    requires Apart(dests) && Sound(dests, w0, w) && Enabled(w, s) && !s.Name? && !s.Boot?
    ensures Drafted(Apply(w, s), Apply(w, s).calls[s.i])
  {
    TempIsPrivate(dests, w0, w, s.i);
    var c := w.calls[s.i];
    assert Drafted(w, c) && c.contents[..|c.contents|] == c.contents;
  }

  lemma OtherDraftSurvives(dests: iset<string>, w0: World, w: World, s: Step, j: nat)
    requires Apart(dests) && Sound(dests, w0, w) && Enabled(w, s) && !s.Name? && !s.Boot?
    requires j < |w.calls| && j != s.i
    ensures Drafted(Apply(w, s), Apply(w, s).calls[j])
  {
    TempIsPrivate(dests, w0, w, s.i);
    assert Drafted(w, w.calls[j]);
    assert Read(Apply(w, s).files, Tmp(w.calls[j])) == Read(w.files, Tmp(w.calls[j]));
  }

  lemma DestinationSurvives(dests: iset<string>, w0: World, w: World, s: Step, path: string)
    requires Apart(dests) && Sound(dests, w0, w) && Enabled(w, s) && !s.Name? && !s.Boot? && path in dests
    ensures WholeOldOrWholeNew(w0, Apply(w, s), path)
  {
    TempIsPrivate(dests, w0, w, s.i);
    assert Drafted(w, w.calls[s.i]);
    if s.Rename? && path == w.calls[s.i].dest {
      assert InstalledBy(Apply(w, s), path, s.i);
    } else {
      KeepsInstalled(w0, w, Apply(w, s), path);
    }
  }

  // ---- whole runs ----

  predicate Within(dests: iset<string>, s: Step) {
    s.Name? ==> s.dest in dests
  }

  ghost predicate Legal(dests: iset<string>, w: World, steps: seq<Step>)
    decreases |steps|
  {
    steps == [] || (Enabled(w, steps[0]) && Within(dests, steps[0]) && Legal(dests, Apply(w, steps[0]), steps[1..]))
  }

  ghost function Exec(dests: iset<string>, w: World, steps: seq<Step>): World
    requires Legal(dests, w, steps)
    decreases |steps|
  {
    if steps == [] then w else Exec(dests, Apply(w, steps[0]), steps[1..])
  }

  lemma {:induction false} RunStaysSound(dests: iset<string>, w0: World, w: World, steps: seq<Step>)
    requires Apart(dests) && Sound(dests, w0, w) && Legal(dests, w, steps)
    ensures Sound(dests, w0, Exec(dests, w, steps))
    decreases |steps|
  {
    if steps != [] {
      StepStaysSound(dests, w0, w, steps[0]);
      RunStaysSound(dests, w0, Apply(w, steps[0]), steps[1..]);
    }
  }

  /** At every moment of every run, and after a crash at any of them: the whole old file or the whole new one. */
  lemma ReadersSeeWholeFiles(dests: iset<string>, w0: World, steps: seq<Step>, path: string)
    requires Apart(dests) && w0.calls == [] && Legal(dests, w0, steps) && path in dests
    ensures WholeOldOrWholeNew(w0, Exec(dests, w0, steps), path)
  {
    RunStaysSound(dests, w0, w0, steps);
  }

  /**
   * A call that is over has left its temp file behind exactly when it threw while writing or its clean-up was
   * refused.
   */
  lemma TempIsLeftExactlyWhen(dests: iset<string>, w0: World, steps: seq<Step>, i: nat)
    requires Apart(dests) && w0.calls == [] && Legal(dests, w0, steps)
    requires var w := Exec(dests, w0, steps);
             i < |w.calls| && (w.calls[i].pc in {Renamed, Cleaned, Refused} || w.calls[i].pc.Torn?)
    ensures var w := Exec(dests, w0, steps);
            Tmp(w.calls[i]) in w.files <==> w.calls[i].pc.Torn? || w.calls[i].pc == Refused
  {
    RunStaysSound(dests, w0, w0, steps);
    assert Drafted(Exec(dests, w0, steps), Exec(dests, w0, steps).calls[i]);
  }

  // ---- what readers see, said of the writes asked for and the renames that happened ----

  /** The writes asked for, in order: call `i` is the `i`-th of them. */
  function Requests(steps: seq<Step>): seq<(string, string)> {
    if steps == [] then []
    else
      var last := steps[|steps| - 1];
      Requests(steps[..|steps| - 1]) + if last.Name? then [(last.dest, last.contents)] else []
  }

  /** The contents asked for by the call on this path that was renamed last; without one, what was there before. */
  function Shown(before: map<string, string>, steps: seq<Step>, path: string): Option<string> {
    if steps == [] then Read(before, path)
    else
      var init, last := steps[..|steps| - 1], steps[|steps| - 1];
      if last.Rename? && last.i < |Requests(init)| && Requests(init)[last.i].0 == path
      then Some(Requests(init)[last.i].1)
      else Shown(before, init, path)
  }

  predicate Asked(calls: seq<Call>, asked: seq<(string, string)>) {
    |calls| == |asked| && forall i | 0 <= i < |calls| :: calls[i].dest == asked[i].0 && calls[i].contents == asked[i].1
  }

  lemma {:induction false} LastStep(dests: iset<string>, w: World, steps: seq<Step>)
    requires steps != [] && Legal(dests, w, steps)
    ensures var init, last := steps[..|steps| - 1], steps[|steps| - 1];
            && Legal(dests, w, init) && Enabled(Exec(dests, w, init), last) && Within(dests, last)
            && Exec(dests, w, steps) == Apply(Exec(dests, w, init), last)
    decreases |steps|
  {
    if |steps| == 1 {
      assert steps[..0] == [] && steps[1..] == [];
    } else {
      LastStep(dests, Apply(w, steps[0]), steps[1..]);
      assert steps[1..][..|steps| - 2] == steps[..|steps| - 1][1..];
    }
  }

  lemma StepShows(dests: iset<string>, w0: World, w: World, asked: seq<(string, string)>, s: Step, path: string)
    requires Apart(dests) && Sound(dests, w0, w) && Enabled(w, s) && path in dests && Asked(w.calls, asked)
    ensures Asked(Apply(w, s).calls, asked + if s.Name? then [(s.dest, s.contents)] else [])
    ensures Read(Apply(w, s).files, path) ==
              if s.Rename? && asked[s.i].0 == path then Some(asked[s.i].1) else Read(w.files, path)
  {
    if !s.Name? && !s.Boot? {
      TempIsPrivate(dests, w0, w, s.i);
      assert Drafted(w, w.calls[s.i]);
    }
  }

  /** At every moment of every run a destination shows all of what the call renamed last was asked to write there. */
  lemma {:induction false} ReadersSeeTheLastRename(dests: iset<string>, w0: World, steps: seq<Step>, path: string)
    requires Apart(dests) && w0.calls == [] && Legal(dests, w0, steps) && path in dests
    ensures Asked(Exec(dests, w0, steps).calls, Requests(steps))
    ensures Read(Exec(dests, w0, steps).files, path) == Shown(w0.files, steps, path)
    decreases |steps|
  {
    if steps != [] {
      var init := steps[..|steps| - 1];
      LastStep(dests, w0, steps);
      ReadersSeeTheLastRename(dests, w0, init, path);
      RunStaysSound(dests, w0, w0, init);
      StepShows(dests, w0, Exec(dests, w0, init), Requests(init), steps[|steps| - 1], path);
    }
  }

  // ---- which destinations are safe ----

  ghost predicate AlwaysWhole(dests: iset<string>) {
    forall w0: World, steps: seq<Step>, path: string | w0.calls == [] && Legal(dests, w0, steps) && path in dests ::
      WholeOldOrWholeNew(w0, Exec(dests, w0, steps), path)
  }

  /** The destinations a program writes to are always whole exactly when none is spelled like a temp file of another. */
  lemma AlwaysWholeExactlyWhenApart(dests: iset<string>)
    ensures AlwaysWhole(dests) <==> Apart(dests)
  {
    if Apart(dests) {
      forall w0: World, steps: seq<Step>, path: string | w0.calls == [] && Legal(dests, w0, steps) && path in dests
        ensures WholeOldOrWholeNew(w0, Exec(dests, w0, steps), path)
      {
        ReadersSeeWholeFiles(dests, w0, steps, path);
      }
    } else {
      var path, file, stamp :| path in dests && file in dests && path == TmpPath(file, stamp);
      var w0 := World(map[], [], map[]);
      var steps := TempShapedDestinationIsTorn(dests, w0, file, stamp, "a");
    }
  }

  /** One more destination beside all that are no temp names: safe exactly when it is no temp name of one of those. */
  lemma OneMoreDestination(path: string)
    ensures var plain := iset p: string | !IsTempName(p);
            AlwaysWhole(plain + iset{path}) <==> !(IsTempName(path) && !IsTempName(ParseTmp(path).value.0))
  {
    var plain := iset p: string | !IsTempName(p);
    var dests := plain + iset{path};
    AlwaysWholeExactlyWhenApart(dests);
    OneMoreApart(path);
  }

  lemma OneMoreApart(path: string)
    ensures Apart((iset p: string | !IsTempName(p)) + iset{path})
            <==> !(IsTempName(path) && !IsTempName(ParseTmp(path).value.0))
  {
    var dests := (iset p: string | !IsTempName(p)) + iset{path};
    if IsTempName(path) && !IsTempName(ParseTmp(path).value.0) {
      assert ParseTmp(path).value.0 in dests && path in dests;
    } else {
      forall p, file, stamp | p in dests && file in dests ensures p != TmpPath(file, stamp) {
        TempNameExactlyWhen(p);
        TmpPathReadsBack(file, stamp);
      }
    }
  }

  ghost predicate Reach(dests: iset<string>, w: World, v: World) {
    exists steps :: Legal(dests, w, steps) && Exec(dests, w, steps) == v
  }

  lemma {:induction false} ExecAppend(dests: iset<string>, w: World, a: seq<Step>, s: Step)
    requires Legal(dests, w, a) && Enabled(Exec(dests, w, a), s) && Within(dests, s)
    ensures Legal(dests, w, a + [s]) && Exec(dests, w, a + [s]) == Apply(Exec(dests, w, a), s)
    decreases |a|
  {
    if a == [] {
      assert a + [s] == [s] && [s][1..] == [];
      assert Exec(dests, Apply(w, s), []) == Apply(w, s);
    } else {
      assert (a + [s])[1..] == a[1..] + [s];
      ExecAppend(dests, Apply(w, a[0]), a[1..], s);
    }
  }

  lemma ReachStep(dests: iset<string>, w: World, v: World, s: Step)
    requires Reach(dests, w, v) && Enabled(v, s) && Within(dests, s)
    ensures Reach(dests, w, Apply(v, s))
  {
    var a :| Legal(dests, w, a) && Exec(dests, w, a) == v;
    ExecAppend(dests, w, a, s);
  }

  /** A process starts and names temp files until the counter stands at `n`. */
  lemma {:induction false} CountUp(dests: iset<string>, w0: World, pid: nat, ms: nat, file: string, n: nat)
      returns (v: World)
    requires w0.calls == [] && file in dests
    ensures Reach(dests, w0, v) && v.files == w0.files && pid in v.procs && v.procs[pid] == Incarnation(n, ms)
    ensures |v.calls| == n && forall i | 0 <= i < n :: v.calls[i].pc == Named
    decreases n
  {
    if n == 0 {
      assert Legal(dests, w0, []) && Exec(dests, w0, []) == w0;
      ReachStep(dests, w0, w0, Boot(pid, ms));
      v := Apply(w0, Boot(pid, ms));
    } else {
      var u := CountUp(dests, w0, pid, ms, file, n - 1);
      ReachStep(dests, w0, u, Name(pid, ms, file, ""));
      v := Apply(u, Name(pid, ms, file, ""));
    }
  }

  /**
   * A destination spelled like a temp file of another can be seen torn, whatever was there before and
   * whatever is written: opening the temp file empties it, and its first character is not all of it.
   */
  lemma TempShapedDestinationIsTorn(dests: iset<string>, w0: World, file: string, stamp: Stamp, contents: string)
    returns (steps: seq<Step>)
    requires w0.calls == [] && file in dests && contents != ""
    ensures Legal(dests, w0, steps) && !WholeOldOrWholeNew(w0, Exec(dests, w0, steps), TmpPath(file, stamp))
    ensures Read(Exec(dests, w0, steps).files, TmpPath(file, stamp)) in {Some(""), Some(contents[..1])}
  {
    var n := stamp.counter;
    var u := CountUp(dests, w0, stamp.pid, stamp.ms, file, n);
    ReachStep(dests, w0, u, Name(stamp.pid, stamp.ms, file, contents));
    var v := Apply(u, Name(stamp.pid, stamp.ms, file, contents));
    assert v.calls == u.calls + [Call(file, contents, stamp, Named)];
    ReachStep(dests, w0, v, OpenTmp(n));
    v := Apply(v, OpenTmp(n));
    if Read(w0.files, TmpPath(file, stamp)) == Some("") {
      ReachStep(dests, w0, v, Write(n, 1));
      v := Apply(v, Write(n, 1));
    }
    assert forall i :: !InstalledBy(v, TmpPath(file, stamp), i);
    steps :| Legal(dests, w0, steps) && Exec(dests, w0, steps) == v;
  }
}
