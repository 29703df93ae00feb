/**
 * The additive migration of the memory database: about eighty statements, each harmless when it is
 * run again, then the version stamp. A crash leaves a prefix done; the next start runs all of it.
 */
module Migration {
  import opened Basics

  const CURRENT_VERSION := 3.0

  /** The stored version text: no row (or no table), something that is not a number, or a number. */
  datatype Version = Absent | NotANumber | Number(n: real)

  datatype Fact = Fact(key: string, value: string, updatedAt: int, category: string)

  datatype Past = Past(key: string, value: string, category: string, validFrom: int)

  /** The tables by name; a database may hold others. */
  datatype Table =
    | AuditLog | Episodic | EpisodicFts | TokenUsage | CompletionCost | TaskMetrics | Semantic
    | SemanticHistory | Todos | Runs | RunTurns | SessionCheckpoint | Observations | MemoryCard
    | InnerThoughts | CronJobs | SkillLog | RsiGenome | RsiIteration | RsiLineage | RsiHallOfFame
    | RsiStrategyGenome | Meta | Workspaces | CoworkAgents | CoworkMailbox | CoworkHandoffs
    | CoworkApprovals | Artifact | ArtifactVersion
    | Other(name: string)

  datatype Db = Db(
    tables: map<Table, set<string>>,
    indexes: set<string>,
    triggers: set<string>,
    semantic: seq<Fact>,
    history: seq<Past>,
    version: Version
  )

  datatype Stmt =
    | CreateTable(table: Table, columns: set<string>)
    | CreateIndex(name: string, table: Table, columns: set<string>)
    | CreateTrigger(name: string, table: Table)
    | AddColumn(table: Table, column: string)
    | SeedHistory

  predicate Has(db: Db, table: Table, columns: set<string>) {
    table in db.tables && columns <= db.tables[table]
  }

  function Opening(facts: seq<Fact>): seq<Past> {
    seq(|facts|, (i: nat) requires i < |facts| =>
        Past(facts[i].key, facts[i].value, facts[i].category, facts[i].updatedAt))
  }

  function WithCategory(facts: seq<Fact>): seq<Fact> {
    seq(|facts|, (i: nat) requires i < |facts| => facts[i].(category := "fact"))
  }

  /** One statement; None when SQLite refuses it. */
  function Exec(db: Db, s: Stmt): Option<Db> {
    match s
    case CreateTable(table, columns) =>
      Some(if table in db.tables then db else db.(tables := db.tables[table := columns]))
    case CreateIndex(name, table, columns) =>
      if name in db.indexes then Some(db)
      else if Has(db, table, columns) then Some(db.(indexes := db.indexes + {name})) else None
    case CreateTrigger(name, table) =>
      if name in db.triggers then Some(db)
      else if table in db.tables then Some(db.(triggers := db.triggers + {name})) else None
    case AddColumn(table, column) =>
      if table !in db.tables then None
      else if column in db.tables[table] then Some(db)
      else
        var wider := db.(tables := db.tables[table := db.tables[table] + {column}]);
        Some(if table == Semantic && column == "category"
            then wider.(semantic := WithCategory(db.semantic)) else wider)
    case SeedHistory =>
      if !Has(db, SemanticHistory, {"key", "value", "category", "valid_from"}) then None
      else if db.history != [] then Some(db)
      else if !Has(db, Semantic, {"key", "value", "category", "updated_at"}) then None
      else Some(db.(history := Opening(db.semantic)))
  }

  /** When SQLite does not refuse: what is there already is left alone, and what is named must be there. */
  predicate GoesThrough(db: Db, s: Stmt) {
    match s
    case CreateTable(_, _) => true
    case CreateIndex(name, table, columns) =>
      name in db.indexes || (table in db.tables && forall c | c in columns :: c in db.tables[table])
    case CreateTrigger(name, table) => name in db.triggers || table in db.tables
    case AddColumn(table, _) => table in db.tables
    case SeedHistory =>
      && SemanticHistory in db.tables
      && (forall c | c in {"key", "value", "category", "valid_from"} :: c in db.tables[SemanticHistory])
      && (db.history == [] ==>
            && Semantic in db.tables
            && forall c | c in {"key", "value", "category", "updated_at"} :: c in db.tables[Semantic])
  }

  datatype Outcome = Outcome(db: Db, completed: bool)

  /** Statements in order, up to the first that is refused. */
  function Run(db: Db, stmts: seq<Stmt>): Outcome
    decreases |stmts|
  {
    if stmts == [] then Outcome(db, true)
    else
      var next := Exec(db, stmts[0]);
      if next.None? then Outcome(db, false) else Run(next.value, stmts[1..])
  }

  predicate TooNew(db: Db) {
    Meta in db.tables && db.version.Number? && db.version.n > CURRENT_VERSION
  }

  predicate NeedsStamp(v: Version) {
    !v.Number? || v.n < CURRENT_VERSION
  }

  /** The last statement of the migration; it needs the meta table. */
  function Stamp(db: Db): Outcome {
    if Meta !in db.tables then Outcome(db, false)
    else Outcome(if NeedsStamp(db.version) then db.(version := Number(CURRENT_VERSION)) else db, true)
  }

  /** A start of the program on a database: refuse a newer one before touching it, else migrate and stamp. */
  function Start(db: Db, stmts: seq<Stmt>): Outcome {
    if TooNew(db) then Outcome(db, false)
    else
      var r := Run(db, stmts);
      if r.completed then Stamp(r.db) else r
  }

  /** A start that dies after `k` statements (all of them, but not the stamp, when `k` is large). */
  function CrashedStart(db: Db, stmts: seq<Stmt>, k: nat): Db {
    if TooNew(db) then db else Run(db, if k <= |stmts| then stmts[..k] else stmts).db
  }

  function CrashedStarts(db: Db, stmts: seq<Stmt>, ks: seq<nat>): Db {
    if ks == [] then db else CrashedStart(CrashedStarts(db, stmts, ks[..|ks| - 1]), stmts, ks[|ks| - 1])
  }

  class Database {
    var db: Db

    constructor (db: Db)
      ensures this.db == db
    {
      this.db := db;
    }

    method AddColumnIfMissing(table: Table, column: string) returns (ok: bool)
      modifies this
      ensures ok == (table in old(db).tables) && (!ok ==> db == old(db))
      ensures ok ==> db.tables == old(db).tables[table := old(db).tables[table] + {column}]
      ensures db == old(db).(tables := db.tables, semantic := db.semantic)
      ensures db.semantic == old(db).semantic || (table == Semantic && column == "category"
                                                  && db.semantic == WithCategory(old(db).semantic))
      ensures var next := Exec(old(db), AddColumn(table, column));
              ok == next.Some? && db == if ok then next.value else old(db)
    {
      if table !in db.tables {
        return false;
      }
      if column !in db.tables[table] {
        db := db.(tables := db.tables[table := db.tables[table] + {column}]);
        if table == Semantic && column == "category" {
          db := db.(semantic := WithCategory(db.semantic));
        }
      }
      assert db.tables[table] == old(db).tables[table] + {column};
      ok := true;
    }

    method Execute(s: Stmt) returns (ok: bool)
      modifies this
      ensures var next := Exec(old(db), s); ok == next.Some? && db == if ok then next.value else old(db)
      ensures ok <==> GoesThrough(old(db), s)
    {
      if s.AddColumn? {
        ok := AddColumnIfMissing(s.table, s.column);
      } else {
        var next := Exec(db, s);
        ok := next.Some?;
        if ok { db := next.value; }
      }
    }

    method OpenAndMigrate(stmts: seq<Stmt>) returns (ok: bool)
      modifies this
      ensures Outcome(db, ok) == Start(old(db), stmts)
      ensures TooNew(old(db)) ==> !ok && db == old(db)
      ensures ok ==> Named(old(db), stmts, db.(version := old(db).version))
                     && Kept(old(db), stmts, db.(version := old(db).version)) && Meta in db.tables
      ensures db.version == if ok && NeedsStamp(old(db).version) then Number(CURRENT_VERSION) else old(db).version
    {
      RunKeepsVersion(db, stmts);
      if Start(db, stmts).completed {
        CompletedStartLeavesWhatIsNamed(db, stmts);
      }
      if TooNew(db) {
        return false;
      }
      var i := 0;
      while i < |stmts|
        invariant i <= |stmts| && Run(db, stmts[i..]) == Run(old(db), stmts)
      {
        ok := Execute(stmts[i]);
        assert stmts[i..][1..] == stmts[i + 1..];
        if !ok {
          return;
        }
        i := i + 1;
      }
      if Meta !in db.tables {
        return false;
      }
      if NeedsStamp(db.version) {
        db := db.(version := Number(CURRENT_VERSION));
      }
      ok := true;
    }
  }

  // ---- what a run that goes through leaves, said of the statements alone ----

  function IndexesIn(stmts: seq<Stmt>): set<string> {
    set s | s in stmts && s.CreateIndex? :: s.name
  }

  function TriggersIn(stmts: seq<Stmt>): set<string> {
    set s | s in stmts && s.CreateTrigger? :: s.name
  }

  function AddedTo(stmts: seq<Stmt>, table: Table): set<string> {
    set s | s in stmts && s.AddColumn? && s.table == table :: s.column
  }

  /** The columns the first statement that creates the table gives it. */
  function MadeWith(stmts: seq<Stmt>, table: Table): Option<set<string>>
    decreases |stmts|
  {
    if stmts == [] then None
    else if stmts[0].CreateTable? && stmts[0].table == table then Some(stmts[0].columns)
    else MadeWith(stmts[1..], table)
  }

  /** The columns a table has before anything is added to it: those it came with, or those it is created with. */
  function Base(db: Db, stmts: seq<Stmt>, table: Table): Option<set<string>> {
    if table in db.tables then Some(db.tables[table]) else MadeWith(stmts, table)
  }

  /** Every table, column, index and trigger that the statements name, and no other that was not there. */
  ghost predicate Named(db: Db, stmts: seq<Stmt>, end: Db) {
    && end.indexes == db.indexes + IndexesIn(stmts)
    && end.triggers == db.triggers + TriggersIn(stmts)
    && (forall t :: t in end.tables <==> Base(db, stmts, t).Some?)
    && forall t | t in end.tables :: end.tables[t] == Base(db, stmts, t).value + AddedTo(stmts, t)
  }

  /** The facts had no category yet, and learn to have one. */
  predicate LearnsCategory(db: Db, stmts: seq<Stmt>) {
    && "category" in AddedTo(stmts, Semantic)
    && (Base(db, stmts, Semantic).Some? ==> "category" !in Base(db, stmts, Semantic).value)
  }

  /** The facts stay as they are, but for a category they did not have; a history is written only by its seeding. */
  predicate Kept(db: Db, stmts: seq<Stmt>, end: Db) {
    && |end.semantic| == |db.semantic|
    && (forall i | 0 <= i < |db.semantic| ::
          end.semantic[i] == if LearnsCategory(db, stmts) then db.semantic[i].(category := "fact") else db.semantic[i])
    && (db.history != [] || SeedHistory !in stmts ==> end.history == db.history)
    && end.version == db.version
  }

  lemma NamesOfFirst(s: Stmt, rest: seq<Stmt>)
    ensures IndexesIn([s] + rest) == (if s.CreateIndex? then {s.name} else {}) + IndexesIn(rest)
    ensures TriggersIn([s] + rest) == (if s.CreateTrigger? then {s.name} else {}) + TriggersIn(rest)
  {
  }

  lemma AddedByFirst(s: Stmt, rest: seq<Stmt>, table: Table)
    ensures AddedTo([s] + rest, table) ==
              (if s.AddColumn? && s.table == table then {s.column} else {}) + AddedTo(rest, table)
  {
  }

  /** How one statement changes the tables. */
  lemma BaseAfterFirst(db: Db, s: Stmt, rest: seq<Stmt>, t: Table)
    requires Exec(db, s).Some?
    ensures var next := Exec(db, s).value;
            Base(next, rest, t) == match Base(db, [s] + rest, t)
              case Some(columns) => Some(columns + if s.AddColumn? && s.table == t then {s.column} else {})
              case None => None
  {
    assert ([s] + rest)[1..] == rest;
    var next, added := Exec(db, s).value, if s.AddColumn? && s.table == t then {s.column} else {};
    if t in db.tables {
      assert next.tables[t] == db.tables[t] + added;
    } else if s.CreateTable? && s.table == t {
      assert next.tables[t] == s.columns + added;
    } else {
      assert t !in next.tables && added == {};
      assert MadeWith(rest, t).Some? ==> MadeWith(rest, t).value + added == MadeWith(rest, t).value;
    }
  }

  lemma NamedByFirst(db: Db, s: Stmt, rest: seq<Stmt>, end: Db)
    requires Exec(db, s).Some? && Named(Exec(db, s).value, rest, end)
    ensures Named(db, [s] + rest, end)
  {
    NamesOfFirst(s, rest);
    forall t
      ensures t in end.tables <==> Base(db, [s] + rest, t).Some?
      ensures t in end.tables ==> end.tables[t] == Base(db, [s] + rest, t).value + AddedTo([s] + rest, t)
    {
      BaseAfterFirst(db, s, rest, t);
      AddedByFirst(s, rest, t);
    }
  }

  /** A run in which every statement goes through leaves exactly what the statements name. */
  lemma {:induction false} RunLeavesWhatIsNamed(db: Db, stmts: seq<Stmt>)
    requires Run(db, stmts).completed
    ensures Named(db, stmts, Run(db, stmts).db)
    decreases |stmts|
  {
    if stmts != [] {
      RunLeavesWhatIsNamed(Exec(db, stmts[0]).value, stmts[1..]);
      NamedByFirst(db, stmts[0], stmts[1..], Run(db, stmts).db);
      assert stmts == [stmts[0]] + stmts[1..];
    }
  }

  lemma FactsAfterFirst(db: Db, s: Stmt, rest: seq<Stmt>, end: Db)
    requires Exec(db, s).Some? && Kept(Exec(db, s).value, rest, end)
    ensures Kept(db, [s] + rest, end)
  {
    var next := Exec(db, s).value;
    AddedByFirst(s, rest, Semantic);
    BaseAfterFirst(db, s, rest, Semantic);
    if s == AddColumn(Semantic, "category") {
      assert Semantic in db.tables && Base(db, [s] + rest, Semantic) == Some(db.tables[Semantic]);
      assert !LearnsCategory(next, rest);
    } else {
      assert next.semantic == db.semantic;
      assert LearnsCategory(next, rest) == LearnsCategory(db, [s] + rest);
    }
  }

  lemma {:induction false} RunKeepsFacts(db: Db, stmts: seq<Stmt>)
    requires Run(db, stmts).completed
    ensures Kept(db, stmts, Run(db, stmts).db)
    decreases |stmts|
  {
    if stmts != [] {
      RunKeepsFacts(Exec(db, stmts[0]).value, stmts[1..]);
      FactsAfterFirst(db, stmts[0], stmts[1..], Run(db, stmts).db);
      assert stmts == [stmts[0]] + stmts[1..];
    }
  }

  // ---- convergence ----

  /** The statement has nothing left to do here. */
  predicate Settled(db: Db, s: Stmt) {
    Exec(db, s) == Some(db)
  }

  lemma ExecSettles(db: Db, s: Stmt)
    requires Exec(db, s).Some?
    ensures Settled(Exec(db, s).value, s)
  {
  }

  /** No statement undoes another. */
  lemma SettledStays(db: Db, s: Stmt, t: Stmt)
    requires Settled(db, s) && Exec(db, t).Some?
    ensures Settled(Exec(db, t).value, s)
  {
  }

  predicate AllSettled(db: Db, stmts: seq<Stmt>) {
    forall s | s in stmts :: Settled(db, s)
  }

  lemma {:induction false} SettledRunDoesNothing(db: Db, stmts: seq<Stmt>, rest: seq<Stmt>)
    requires AllSettled(db, stmts)
    ensures Run(db, stmts + rest) == Run(db, rest)
    decreases |stmts|
  {
    if stmts == [] {
      assert stmts + rest == rest;
    } else {
      assert stmts[0] in stmts && (stmts + rest)[1..] == stmts[1..] + rest;
      SettledRunDoesNothing(db, stmts[1..], rest);
    }
  }

  lemma SettledPrefix(db: Db, done: seq<Stmt>, todo: seq<Stmt>, rest: seq<Stmt>)
    requires AllSettled(db, done)
    ensures Run(db, done + todo + rest) == Run(db, todo + rest)
  {
    assert done + todo + rest == done + (todo + rest);
    SettledRunDoesNothing(db, done, todo + rest);
  }

  lemma OneMoreSettled(db: Db, done: seq<Stmt>, s: Stmt)
    requires AllSettled(db, done) && Exec(db, s).Some?
    ensures AllSettled(Exec(db, s).value, done + [s])
  {
    ExecSettles(db, s);
    forall t | t in done + [s] ensures Settled(Exec(db, s).value, t) {
      if t in done { SettledStays(db, t, s); }
    }
  }

  lemma RunFirst(db: Db, stmts: seq<Stmt>, rest: seq<Stmt>)
    requires stmts != []
    ensures var next := Exec(db, stmts[0]);
            Run(db, stmts + rest) == if next.None? then Outcome(db, false) else Run(next.value, stmts[1..] + rest)
  {
    assert (stmts + rest)[1..] == stmts[1..] + rest;
  }

  /** What a run got done stays done, and running it all again picks up where it stopped. */
  lemma {:induction false} RunResumes(db: Db, done: seq<Stmt>, todo: seq<Stmt>, k: nat, rest: seq<Stmt>)
    requires AllSettled(db, done) && k <= |todo|
    ensures Run(Run(db, todo[..k]).db, done + todo + rest) == Run(db, todo + rest)
    decreases k
  {
    if k == 0 || Exec(db, todo[0]).None? {
      SettledPrefix(db, done, todo, rest);
    } else {
      var next := Exec(db, todo[0]).value;
      OneMoreSettled(db, done, todo[0]);
      RunResumes(next, done + [todo[0]], todo[1..], k - 1, rest);
      RunFirst(db, todo, rest);
      assert todo[..k][1..] == todo[1..][..k - 1];
      assert done + [todo[0]] + todo[1..] == done + todo;
    }
  }

  lemma {:induction false} RunKeepsVersion(db: Db, stmts: seq<Stmt>)
    ensures Run(db, stmts).db.version == db.version && db.tables.Keys <= Run(db, stmts).db.tables.Keys
    decreases |stmts|
  {
    if stmts != [] && Exec(db, stmts[0]).Some? {
      RunKeepsVersion(Exec(db, stmts[0]).value, stmts[1..]);
    }
  }

  /** A version row needs its table. */
  predicate VersionHasTable(db: Db) {
    Meta !in db.tables ==> db.version == Absent
  }

  lemma CrashChangesNothingInTheEnd(db: Db, stmts: seq<Stmt>, k: nat)
    requires VersionHasTable(db)
    ensures Start(CrashedStart(db, stmts, k), stmts) == Start(db, stmts)
    ensures VersionHasTable(CrashedStart(db, stmts, k))
  {
    if !TooNew(db) {
      var n := if k <= |stmts| then k else |stmts|;
      assert stmts[..|stmts|] == stmts;
      RunKeepsVersion(db, stmts[..n]);
      RunResumes(db, [], stmts, n, []);
      assert [] + stmts + [] == stmts && stmts + [] == stmts;
    }
  }

  /**
   * Convergence: whatever was in the database, however often and wherever earlier starts died, the
   * first start that runs to its end leaves the database one undisturbed start would have left.
   */
  lemma {:induction false} MigrationConverges(db: Db, stmts: seq<Stmt>, ks: seq<nat>)
    requires VersionHasTable(db)
    ensures Start(CrashedStarts(db, stmts, ks), stmts) == Start(db, stmts)
    ensures VersionHasTable(CrashedStarts(db, stmts, ks))
    decreases |ks|
  {
    if ks != [] {
      MigrationConverges(db, stmts, ks[..|ks| - 1]);
      CrashChangesNothingInTheEnd(CrashedStarts(db, stmts, ks[..|ks| - 1]), stmts, ks[|ks| - 1]);
    }
  }

  lemma CompletedStartSettlesAll(db: Db, stmts: seq<Stmt>)
    requires Start(db, stmts).completed
    ensures AllSettled(Start(db, stmts).db, stmts)
  {
    var r := Run(db, stmts);
    RunSettlesAll(db, [], stmts);
    assert [] + stmts == stmts;
    var stamped := Start(db, stmts).db;
    forall s | s in stmts ensures Settled(stamped, s) {
      assert Settled(r.db, s);
    }
  }

  lemma CompletedStartLeavesWhatIsNamed(db: Db, stmts: seq<Stmt>)
    requires Start(db, stmts).completed
    ensures var end := Start(db, stmts).db;
            Named(db, stmts, end) && Kept(db, stmts, end.(version := db.version)) && Meta in end.tables
  {
    RunLeavesWhatIsNamed(db, stmts);
    RunKeepsFacts(db, stmts);
    var run, end := Run(db, stmts).db, Start(db, stmts).db;
    assert end.tables == run.tables && end.(version := db.version) == run;
  }

  /** Starting again after a completed start changes nothing. */
  lemma StartIsIdempotent(db: Db, stmts: seq<Stmt>)
    requires VersionHasTable(db) && Start(db, stmts).completed
    ensures Start(Start(db, stmts).db, stmts) == Start(db, stmts)
  {
    CompletedStartSettlesAll(db, stmts);
    RunKeepsVersion(db, stmts);
    SettledRunDoesNothing(Start(db, stmts).db, stmts, []);
    assert stmts + [] == stmts;
  }

  lemma {:induction false} RunSettlesAll(db: Db, done: seq<Stmt>, stmts: seq<Stmt>)
    requires AllSettled(db, done) && Run(db, stmts).completed
    ensures AllSettled(Run(db, stmts).db, done + stmts)
    decreases |stmts|
  {
    if stmts == [] {
      assert done + stmts == done;
    } else {
      var next := Exec(db, stmts[0]).value;
      OneMoreSettled(db, done, stmts[0]);
      RunSettlesAll(next, done + [stmts[0]], stmts[1..]);
      assert done + [stmts[0]] + stmts[1..] == done + stmts;
    }
  }

  // ---- the version ----

  /** The version moves only by a start in which every statement went through, and then only up to the current one. */
  lemma VersionMovesOnlyWhenComplete(db: Db, stmts: seq<Stmt>)
    ensures var end := Start(db, stmts);
            && (end.db.version != db.version ==> end.completed && Run(db, stmts).completed && NeedsStamp(db.version)
                                                 && end.db.version == Number(CURRENT_VERSION))
            && (end.completed ==> !NeedsStamp(end.db.version))
    ensures TooNew(db) ==> Start(db, stmts) == Outcome(db, false)
    ensures forall k: nat :: CrashedStart(db, stmts, k).version == db.version
  {
    RunKeepsVersion(db, stmts);
    forall k: nat ensures CrashedStart(db, stmts, k).version == db.version {
      RunKeepsVersion(db, if k <= |stmts| then stmts[..k] else stmts);
    }
  }

  // ---- nothing a person stored is lost ----

  predicate SameFact(a: Fact, b: Fact) {
    a.key == b.key && a.value == b.value && a.updatedAt == b.updatedAt
  }

  /**
   * Every fact is still there, in place; every version of a fact is still there; a first history is exactly
   * the facts.
   */
  predicate Preserved(before: Db, after: Db) {
    && |after.semantic| == |before.semantic|
    && (forall i | 0 <= i < |before.semantic| :: SameFact(before.semantic[i], after.semantic[i]))
    && (before.history != [] ==> after.history == before.history)
    && (forall t | t in before.tables :: t in after.tables && before.tables[t] <= after.tables[t])
    && before.indexes <= after.indexes && before.triggers <= after.triggers
  }

  lemma {:induction false} RunPreserves(db: Db, stmts: seq<Stmt>)
    ensures Preserved(db, Run(db, stmts).db)
    decreases |stmts|
  {
    if stmts != [] && Exec(db, stmts[0]).Some? {
      RunPreserves(Exec(db, stmts[0]).value, stmts[1..]);
    }
  }

  /** The history of a database that has just learned to keep one: each fact opened one version, at its last change. */
  predicate Seeded(db: Db) {
    && Has(db, Semantic, {"category"}) && |db.history| == |db.semantic|
    && forall i | 0 <= i < |db.semantic| ::
         var fact, past := db.semantic[i], db.history[i];
         past.key == fact.key && past.value == fact.value && past.category == fact.category
             && past.validFrom == fact.updatedAt
  }

  lemma {:induction false} HistoryIsSeededOnce(db: Db, stmts: seq<Stmt>)
    requires db.history == [] || Seeded(db)
    ensures var end := Run(db, stmts).db; end.history == [] || Seeded(end)
    ensures Run(db, stmts).completed && SeedHistory in stmts ==> Seeded(Run(db, stmts).db)
    decreases |stmts|
  {
    if stmts != [] && Exec(db, stmts[0]).Some? {
      var next := Exec(db, stmts[0]).value;
      HistoryIsSeededOnce(next, stmts[1..]);
      if stmts[0] == SeedHistory && Run(db, stmts).completed {
        RunPreserves(next, stmts[1..]);
        if next.history == [] {
          assert next.semantic == [];
          assert Run(db, stmts).db.semantic == [];
        }
      }
    }
  }

  /**
   * Restarts as a whole: however often the migration died before, once a start completes, exactly the
   * tables, columns, indexes and triggers it names are there besides those that were, everything stored
   * before is there, a history that was empty is the facts, and the version is current.
   */
  lemma RestartsDeliverEverything(db: Db, stmts: seq<Stmt>, ks: seq<nat>)
    requires VersionHasTable(db) && SeedHistory in stmts
    requires Start(CrashedStarts(db, stmts, ks), stmts).completed
    ensures var end := Start(CrashedStarts(db, stmts, ks), stmts).db;
            && Named(db, stmts, end) && Kept(db, stmts, end.(version := db.version))
            && AllSettled(end, stmts) && Preserved(db, end) && !NeedsStamp(end.version)
            && (db.history == [] ==> Seeded(end))
  {
    MigrationConverges(db, stmts, ks);
    CompletedStartLeavesWhatIsNamed(db, stmts);
    CompletedStartSettlesAll(db, stmts);
    RunPreserves(db, stmts);
    if db.history == [] { HistoryIsSeededOnce(db, stmts); }
  }
}
