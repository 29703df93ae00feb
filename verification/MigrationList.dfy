/**
 * The statements of the migration of the memory database, in order and in parts, with the columns each
 * one names; and what they do to a database that has nothing in it yet.
 *
 * A list is in order when every statement finds what it needs among what the earlier ones made. That can
 * be computed from the list alone, and a list in order goes through on a database with nothing in it.
 * Each part is looked at by itself: it leads from one number of tables to the next, so that the list as
 * a whole is in order once its parts are.
 */
module MigrationList {
  import opened Basics
  import opened Migration

  const PART_1: seq<Stmt> := [
    CreateTable(AuditLog, {"id", "timestamp", "session_id", "action_type", "tool_name", "args_json", "result",
      "blocked_reason", "token_cost", "duration_ms"}),
    CreateIndex("idx_audit_session", AuditLog, {"session_id", "timestamp"}),
    AddColumn(AuditLog, "prev_hash"),
    AddColumn(AuditLog, "entry_hash")
  ]

  const PART_2: seq<Stmt> := [
    CreateTable(Episodic, {"id", "session_id", "timestamp", "role", "content"}),
    CreateIndex("idx_episodic_session", Episodic, {"session_id", "timestamp"}),
    AddColumn(Episodic, "embedding"),
    AddColumn(Episodic, "workspace_id"),
    CreateIndex("idx_episodic_workspace", Episodic, {"workspace_id", "timestamp"})
  ]

  const PART_3: seq<Stmt> := [
    CreateTable(EpisodicFts, {"content"}),
    CreateTrigger("episodic_ai", Episodic),
    CreateTrigger("episodic_ad", Episodic)
  ]

  const PART_4: seq<Stmt> := [
    CreateTrigger("episodic_au", Episodic),
    CreateTable(TokenUsage, {"day", "tokens"}),
    CreateTable(CompletionCost, {"id", "ts", "session_id", "model", "base_url", "prompt_tokens",
      "completion_tokens", "fresh_tokens", "cache_read_tokens", "cache_write_tokens", "latency_ms",
      "used_fallback", "breakdown_json", "local_prompt_tokens", "tokens_estimated"}),
    CreateIndex("completion_cost_session", CompletionCost, {"session_id", "ts"})
  ]

  const PART_5: seq<Stmt> := [
    AddColumn(CompletionCost, "tokens_estimated"),
    AddColumn(CompletionCost, "cost_usd"),
    AddColumn(CompletionCost, "provider"),
    AddColumn(CompletionCost, "served_model")
  ]

  const PART_6: seq<Stmt> := [
    AddColumn(CompletionCost, "task_id"),
    AddColumn(CompletionCost, "retries"),
    CreateIndex("completion_cost_task", CompletionCost, {"task_id"})
  ]

  const PART_7: seq<Stmt> := [
    CreateTable(TaskMetrics, {"task_id", "session_id", "started_at", "duration_ms", "outcome", "error_category",
      "tool_calls", "fallbacks", "brsi_on", "memory_on", "feedback", "attempted_provider", "attempted_model"}),
    CreateIndex("task_metrics_started", TaskMetrics, {"started_at"}),
    CreateTable(Semantic, {"key", "value", "updated_at", "category"})
  ]

  const PART_8: seq<Stmt> := [
    CreateTable(SemanticHistory, {"id", "key", "value", "category", "valid_from", "valid_to", "superseded_by"}),
    CreateIndex("semantic_history_key", SemanticHistory, {"key", "valid_from"}),
    CreateTable(Todos, {"id", "content", "status", "created_at", "updated_at"})
  ]

  const PART_9: seq<Stmt> := [
    CreateTable(Runs, {"id", "session_id", "mission", "created_at", "updated_at", "deadline_at",
      "continuations_used", "continuation_budget", "replan_used", "safety_root", "safety_before",
      "safety_git_dir", "done_when", "delivery", "status", "stopped_because", "resumes", "last_resume_seq"}),
    CreateIndex("runs_status", Runs, {"status"}),
    CreateTable(RunTurns, {"run_id", "seq", "started_at", "duration_ms", "outcome", "tool_calls", "continuation",
      "replan", "tokens", "files_changed", "todos_closed", "done_when_pass"})
  ]

  const PART_10: seq<Stmt> := [
    CreateTable(SessionCheckpoint, {"session_id", "message_id", "iteration", "messages", "status", "updated_at"}),
    AddColumn(Runs, "report"),
    AddColumn(Runs, "delivered_at"),
    AddColumn(Runs, "delivery_attempts")
  ]

  const PART_11: seq<Stmt> := [
    AddColumn(Semantic, "workspace_id"),
    AddColumn(Semantic, "category"),
    SeedHistory
  ]

  const PART_12: seq<Stmt> := [
    AddColumn(Episodic, "private"),
    CreateIndex("idx_episodic_recent", Episodic, {"private", "timestamp", "id"}),
    CreateTable(Observations, {"id", "session_id", "scope", "observed_at", "ref_date", "priority", "text",
      "source", "period", "digested_at"}),
    CreateIndex("idx_observations_scope", Observations, {"scope", "observed_at"}),
    CreateIndex("idx_observations_session", Observations, {"session_id", "observed_at"})
  ]

  const PART_13: seq<Stmt> := [
    CreateTable(MemoryCard, {"scope", "text", "updated_at"}),
    CreateTable(InnerThoughts, {"id", "timestamp", "thought", "surfaced", "mood_snapshot"})
  ]

  const PART_14: seq<Stmt> := [
    CreateTable(CronJobs, {"id", "name", "task", "schedule_json", "delivery_json", "enabled", "last_run_ms",
      "next_run_ms", "history_json", "max_retries", "retry_count", "created_at", "updated_at"}),
    AddColumn(CronJobs, "done_when_json"),
    AddColumn(CronJobs, "kind"),
    CreateIndex("idx_cron_jobs_next_run", CronJobs, {"enabled", "next_run_ms"})
  ]

  const PART_15: seq<Stmt> := [
    CreateTable(SkillLog, {"id", "timestamp", "skill_id", "action", "reason", "version"}),
    CreateIndex("idx_skill_log_skill", SkillLog, {"skill_id", "timestamp"})
  ]

  const PART_16: seq<Stmt> := [
    CreateTable(RsiGenome, {"id", "commit_hash", "parent_ids", "strategy_dna", "fitness_score", "behavioral_fp",
      "shared_fitness", "generation", "alive", "explanation", "created_at"}),
    CreateIndex("idx_rsi_genome_generation", RsiGenome, {"generation"}),
    CreateIndex("idx_rsi_genome_alive", RsiGenome, {"alive"})
  ]

  const PART_17: seq<Stmt> := [
    CreateTable(RsiIteration, {"id", "genome_id", "eval_results", "token_cost", "duration_ms", "ratchet_event",
      "pbt_sync", "goodhart_flag", "noise_k", "created_at"}),
    AddColumn(RsiIteration, "improvement_difficulty"),
    CreateIndex("idx_rsi_iteration_genome", RsiIteration, {"genome_id", "created_at"}),
    CreateIndex("idx_rsi_iteration_ratchet", RsiIteration, {"ratchet_event", "created_at"})
  ]

  const PART_18: seq<Stmt> := [
    CreateTable(RsiLineage, {"child_id", "parent_id", "crossover_type", "lca_commit"}),
    CreateIndex("idx_rsi_lineage_parent", RsiLineage, {"parent_id"})
  ]

  const PART_19: seq<Stmt> := [
    CreateTable(RsiHallOfFame, {"genome_id", "inducted_at", "reason"}),
    CreateTable(RsiStrategyGenome, {"id", "hyperparams", "ratchet_count", "active", "last_sync_at"})
  ]

  const PART_20: seq<Stmt> := [
    CreateTable(Meta, {"key", "value", "updated_at"}),
    CreateTable(Workspaces, {"id", "name", "root_path", "created_at", "last_active_at"}),
    CreateIndex("idx_workspaces_last_active", Workspaces, {"last_active_at"})
  ]

  const PART_21: seq<Stmt> := [
    CreateTable(CoworkAgents, {"id", "name", "role", "instructions", "model_pin", "created_at", "updated_at"}),
    AddColumn(CoworkAgents, "tools")
  ]

  const PART_22: seq<Stmt> := [
    CreateTable(CoworkMailbox, {"id", "from_agent_id", "to_agent_id", "thread_id", "body", "payload_json",
      "status", "created_at", "read_at"}),
    CreateIndex("idx_cowork_mailbox_inbox", CoworkMailbox, {"to_agent_id", "status", "created_at"}),
    CreateIndex("idx_cowork_mailbox_outbox", CoworkMailbox, {"from_agent_id", "created_at"})
  ]

  const PART_23: seq<Stmt> := [
    CreateTable(CoworkHandoffs, {"id", "from_agent_id", "to_agent_id", "thread_id", "status", "summary",
      "artifact_refs_json", "result_summary", "created_at", "updated_at", "closed_at"}),
    CreateIndex("idx_cowork_handoffs_to", CoworkHandoffs, {"to_agent_id", "status"})
  ]

  const PART_24: seq<Stmt> := [
    CreateTable(CoworkApprovals, {"id", "agent_id", "session_id", "approval_class", "description", "tool",
      "status", "created_at", "resolved_at"}),
    CreateIndex("idx_cowork_approvals_pending", CoworkApprovals, {"status", "created_at"})
  ]

  const PART_25: seq<Stmt> := [
    CreateTable(Artifact, {"id", "workspace_id", "kind", "title", "path", "mime", "bytes", "version",
      "created_at", "updated_at", "created_by", "modified_by", "origin", "deleted_at"}),
    CreateIndex("idx_artifact_recent", Artifact, {"workspace_id", "updated_at"}),
    AddColumn(Artifact, "archived_at")
  ]

  const PART_26: seq<Stmt> := [
    CreateTable(ArtifactVersion, {"artifact_id", "version", "path", "author", "note", "created_at"})
  ]

  const FIRST: seq<Stmt> := PART_1 + PART_2 + PART_3 + PART_4 + PART_5 + PART_6
  const SECOND: seq<Stmt> := PART_7 + PART_8 + PART_9 + PART_10 + PART_11 + PART_12 + PART_13
  const THIRD: seq<Stmt> := PART_14 + PART_15 + PART_16 + PART_17 + PART_18 + PART_19
  const FOURTH: seq<Stmt> := PART_20 + PART_21 + PART_22 + PART_23 + PART_24 + PART_25 + PART_26
  const MIGRATION: seq<Stmt> := FIRST + SECOND + THIRD + FOURTH

  lemma MigrationSeedsHistory()
    ensures SeedHistory in MIGRATION
  {
    assert PART_11[2] == SeedHistory;
  }

  // ---- when a list goes through on an empty database ----

  const TABLES := 30

  /** The tables numbered as they are made. */
  function Rank(table: Table): nat {
    match table
    case AuditLog => 0
    case Episodic => 1
    case EpisodicFts => 2
    case TokenUsage => 3
    case CompletionCost => 4
    case TaskMetrics => 5
    case Semantic => 6
    case SemanticHistory => 7
    case Todos => 8
    case Runs => 9
    case RunTurns => 10
    case SessionCheckpoint => 11
    case Observations => 12
    case MemoryCard => 13
    case InnerThoughts => 14
    case CronJobs => 15
    case SkillLog => 16
    case RsiGenome => 17
    case RsiIteration => 18
    case RsiLineage => 19
    case RsiHallOfFame => 20
    case RsiStrategyGenome => 21
    case Meta => 22
    case Workspaces => 23
    case CoworkAgents => 24
    case CoworkMailbox => 25
    case CoworkHandoffs => 26
    case CoworkApprovals => 27
    case Artifact => 28
    case ArtifactVersion => 29
    case Other(_) => TABLES
  }

  lemma SameRank(s: Table, t: Table)
    requires Rank(s) == Rank(t) < TABLES
    ensures s == t
  {
  }

  /** Columns that later statements rely on, and that the table is made with. */
  function Sure(table: Table): set<string> {
    match table
    case Episodic => {"timestamp", "id"}
    case Semantic => {"key", "value", "category", "updated_at"}
    case SemanticHistory => {"key", "value", "category", "valid_from"}
    case _ => {}
  }

  /** How far a list has come: so many tables are made, and the one it is at has these columns. */
  datatype Mark = Mark(made: nat, last: Table, columns: set<string>)

  /** The statement finds what it needs: the next table is made, or the table it names is there with its columns. */
  predicate Ready(m: Mark, s: Stmt) {
    match s
    case CreateTable(table, columns) => Rank(table) == m.made < TABLES && Sure(table) <= columns
    case CreateIndex(_, table, columns) => table == m.last && Rank(table) < m.made && columns <= m.columns
    case CreateTrigger(_, table) => Rank(table) < m.made
    case AddColumn(table, _) => Rank(table) < m.made
    case SeedHistory => Rank(Semantic) < m.made && Rank(SemanticHistory) < m.made
  }

  function Next(m: Mark, s: Stmt): Mark {
    match s
    case CreateTable(table, columns) => Mark(m.made + 1, table, columns)
    case AddColumn(table, column) =>
      Mark(m.made, table, (if table == m.last then m.columns else Sure(table)) + {column})
    case _ => m
  }

  predicate Ordered(m: Mark, stmts: seq<Stmt>)
    decreases |stmts|
  {
    stmts == [] || (Ready(m, stmts[0]) && Ordered(Next(m, stmts[0]), stmts[1..]))
  }

  function After(m: Mark, stmts: seq<Stmt>): Mark
    decreases |stmts|
  {
    if stmts == [] then m else After(Next(m, stmts[0]), stmts[1..])
  }

  /** The database stands at the mark: just these tables, with the columns promised, and nothing a person stored. */
  ghost predicate Stands(db: Db, m: Mark) {
    && (forall t :: t in db.tables <==> Rank(t) < m.made)
    && (forall t | t in db.tables :: Sure(t) <= db.tables[t])
    && (Rank(m.last) < m.made ==> m.columns <= db.tables[m.last])
    && db.semantic == [] && db.history == []
  }

  /** `n` tables made, at none of them. */
  function At(n: nat): Mark {
    Mark(n, Other(""), {})
  }

  // ---- a new installation ----

  /** After statements that made no table, the whole list is in order, and makes all its tables. */
  lemma MigrationIsOrdered(done: seq<Stmt>)
    requires Ordered(At(0), done) && After(At(0), done).made == 0
    ensures Ordered(At(0), done + MIGRATION) && After(At(0), done + MIGRATION).made == TABLES
  {
    FirstHalfFollows(done);
    SecondHalfFollows(done + FIRST + SECOND);
    InFourSteps(done, FIRST, SECOND, THIRD, FOURTH);
  }

  lemma InFourSteps(done: seq<Stmt>, a: seq<Stmt>, b: seq<Stmt>, c: seq<Stmt>, d: seq<Stmt>)
    ensures done + a + b + c + d == done + (a + b + c + d)
  {
  }

  predicate Empty(db: Db) {
    db.tables == map[] && db.semantic == [] && db.history == [] && db.version == Absent
  }

  lemma OrderedRunStandsAtTheEnd(db: Db, stmts: seq<Stmt>)
    requires Empty(db) && Ordered(At(0), stmts) && After(At(0), stmts).made == TABLES
    ensures var r := Run(db, stmts);
            r.completed && Stands(r.db, After(At(0), stmts)) && Meta in r.db.tables && r.db.version == Absent
  {
    EmptyStands(db);
    OrderedRunGoes(db, At(0), stmts);
    RunKeepsVersion(db, stmts);
    MetaIsThere(Run(db, stmts).db, After(At(0), stmts));
  }

  lemma EmptyStands(db: Db)
    requires Empty(db)
    ensures Stands(db, At(0))
  {
  }

  lemma MetaIsThere(db: Db, m: Mark)
    requires Stands(db, m) && m.made == TABLES
    ensures Meta in db.tables
  {
    assert Rank(Meta) < TABLES;
  }

  lemma OrderedStartCompletes(db: Db, stmts: seq<Stmt>)
    requires Empty(db) && Ordered(At(0), stmts) && After(At(0), stmts).made == TABLES
    ensures var end := Start(db, stmts);
            && end.completed && end.db.version == Number(CURRENT_VERSION)
            && (forall t :: t in end.db.tables <==> Rank(t) < TABLES)
            && end.db.semantic == [] && end.db.history == []
  {
    OrderedRunStandsAtTheEnd(db, stmts);
  }

  /**
   * A new installation: on an empty database, whatever earlier starts died and wherever, the first start
   * that is left alone goes through to the end, with exactly the tables, columns, indexes and triggers
   * listed here, no facts and no history, and the current version.
   */
  lemma FirstStartCompletes(db: Db, ks: seq<nat>)
    requires Empty(db)
    ensures var end := Start(CrashedStarts(db, MIGRATION, ks), MIGRATION);
            && end.completed && end.db.version == Number(CURRENT_VERSION)
            && (forall t :: t in end.db.tables <==> Rank(t) < TABLES)
            && (forall t, columns | CreateTable(t, columns) in MIGRATION ::
                t in end.db.tables && end.db.tables[t] == columns + LaterColumns(t))
            && end.db.indexes == db.indexes + INDEXES && end.db.triggers == db.triggers + TRIGGERS
            && end.db.semantic == [] && end.db.history == []
  {
    MigrationIsOrdered([]);
    assert [] + MIGRATION == MIGRATION;
    OrderedStartCompletes(db, MIGRATION);
    MigrationConverges(db, MIGRATION, ks);
    CompletedStartLeavesWhatIsNamed(db, MIGRATION);
    MigrationNames();
    var end := Start(db, MIGRATION).db;
    forall t, columns | CreateTable(t, columns) in MIGRATION
      ensures t in end.tables && end.tables[t] == columns + LaterColumns(t)
    {
      MadeOnce(At(0), MIGRATION, t, columns);
      AddedToIsAddedIn(MIGRATION, t);
    }
  }

  // ---- a list in order goes through, statement by statement ----

  lemma ReadyTableIsMade(db: Db, m: Mark, table: Table, columns: set<string>)
    requires Stands(db, m) && Ready(m, CreateTable(table, columns))
    ensures Stands(Exec(db, CreateTable(table, columns)).value, Next(m, CreateTable(table, columns)))
  {
    forall t ensures Rank(t) < m.made + 1 <==> Rank(t) < m.made || t == table {
      if Rank(t) == m.made { SameRank(t, table); }
    }
  }

  lemma ReadyColumnIsAdded(db: Db, m: Mark, table: Table, column: string)
    requires Stands(db, m) && Ready(m, AddColumn(table, column))
    ensures var next := Exec(db, AddColumn(table, column));
            next.Some? && Stands(next.value, Next(m, AddColumn(table, column)))
  {
    assert table in db.tables;
    var next := Exec(db, AddColumn(table, column)).value;
    forall t ensures t in next.tables <==> t in db.tables {}
    assert Has(next, table, Next(m, AddColumn(table, column)).columns);
  }

  lemma ReadySeedingGoes(db: Db, m: Mark)
    requires Stands(db, m) && Ready(m, SeedHistory)
    ensures Exec(db, SeedHistory) == Some(db)
  {
    assert Has(db, Semantic, Sure(Semantic)) && Has(db, SemanticHistory, Sure(SemanticHistory));
    assert Opening(db.semantic) == [];
  }

  lemma ReadyIndexIsMade(db: Db, m: Mark, name: string, table: Table, columns: set<string>)
    requires Stands(db, m) && Ready(m, CreateIndex(name, table, columns))
    ensures var next := Exec(db, CreateIndex(name, table, columns)); next.Some? && Stands(next.value, m)
  {
    assert table in db.tables;
    assert Has(db, table, columns);
  }

  lemma ReadyStatementGoes(db: Db, m: Mark, s: Stmt)
    requires Stands(db, m) && Ready(m, s)
    ensures Exec(db, s).Some? && Stands(Exec(db, s).value, Next(m, s))
  {
    match s
    case CreateTable(table, columns) => ReadyTableIsMade(db, m, table, columns);
    case AddColumn(table, column) => ReadyColumnIsAdded(db, m, table, column);
    case CreateIndex(name, table, columns) => ReadyIndexIsMade(db, m, name, table, columns);
    case CreateTrigger(_, table) => assert table in db.tables;
    case SeedHistory => ReadySeedingGoes(db, m);
  }

  /** A list in order goes through. */
  lemma {:induction false} OrderedRunGoes(db: Db, m: Mark, stmts: seq<Stmt>)
    requires Stands(db, m) && Ordered(m, stmts)
    ensures Run(db, stmts).completed && Stands(Run(db, stmts).db, After(m, stmts))
    decreases |stmts|
  {
    if stmts != [] {
      ReadyStatementGoes(db, m, stmts[0]);
      OrderedRunGoes(Exec(db, stmts[0]).value, Next(m, stmts[0]), stmts[1..]);
    }
  }

  // ---- the listed statements are in order ----

  lemma {:induction false} OrderedAppend(m: Mark, a: seq<Stmt>, b: seq<Stmt>)
    requires Ordered(m, a) && Ordered(After(m, a), b)
    ensures Ordered(m, a + b) && After(m, a + b) == After(After(m, a), b)
    decreases |a|
  {
    if a == [] {
      assert a + b == b;
    } else {
      assert (a + b)[0] == a[0] && (a + b)[1..] == a[1..] + b;
      OrderedAppend(Next(m, a[0]), a[1..], b);
    }
  }

  /** Knowing of a table's columns never hurts. */
  lemma {:induction false} OrderedKnowingMore(m: Mark, more: Mark, stmts: seq<Stmt>)
    requires Ordered(m, stmts) && m.made == more.made && Sure(more.last) <= more.columns
    requires m.made <= TABLES && (m.last == Other("") || (m.last == more.last && m.columns <= more.columns))
    ensures Ordered(more, stmts) && After(more, stmts).made == After(m, stmts).made
    decreases |stmts|
  {
    if stmts != [] {
      OrderedKnowingMore(Next(m, stmts[0]), Next(more, stmts[0]), stmts[1..]);
    }
  }

  lemma {:induction false} AfterIsSure(m: Mark, stmts: seq<Stmt>)
    requires Ordered(m, stmts) && Sure(m.last) <= m.columns
    ensures var after := After(m, stmts); Sure(after.last) <= after.columns
    decreases |stmts|
  {
    if stmts != [] { AfterIsSure(Next(m, stmts[0]), stmts[1..]); }
  }

  lemma Extend(done: seq<Stmt>, n: nat, part: seq<Stmt>)
    requires Ordered(At(0), done) && After(At(0), done).made == n <= TABLES && Ordered(At(n), part)
    ensures Ordered(At(0), done + part) && After(At(0), done + part).made == After(At(n), part).made
  {
    AfterIsSure(At(0), done);
    OrderedKnowingMore(At(n), After(At(0), done), part);
    OrderedAppend(At(0), done, part);
  }

  // ---- what the list names ----

  const FIRST_INDEXES: set<string> := {"idx_audit_session", "idx_episodic_session", "idx_episodic_workspace",
    "completion_cost_session", "completion_cost_task"}
  const SECOND_INDEXES: set<string> := {"task_metrics_started", "semantic_history_key", "runs_status",
    "idx_episodic_recent", "idx_observations_scope", "idx_observations_session"}
  const THIRD_INDEXES: set<string> := {"idx_cron_jobs_next_run", "idx_skill_log_skill",
    "idx_rsi_genome_generation", "idx_rsi_genome_alive", "idx_rsi_iteration_genome", "idx_rsi_iteration_ratchet",
    "idx_rsi_lineage_parent"}
  const FOURTH_INDEXES: set<string> := {"idx_workspaces_last_active", "idx_cowork_mailbox_inbox",
    "idx_cowork_mailbox_outbox", "idx_cowork_handoffs_to", "idx_cowork_approvals_pending", "idx_artifact_recent"}
  const INDEXES: set<string> := FIRST_INDEXES + SECOND_INDEXES + THIRD_INDEXES + FOURTH_INDEXES

  const TRIGGERS: set<string> := {"episodic_ai", "episodic_ad", "episodic_au"}

  const FIRST_ADDED: set<(Table, string)> := {(AuditLog, "prev_hash"), (AuditLog, "entry_hash"),
    (Episodic, "embedding"), (Episodic, "workspace_id"), (CompletionCost, "tokens_estimated"),
    (CompletionCost, "cost_usd"), (CompletionCost, "provider"), (CompletionCost, "served_model"),
    (CompletionCost, "task_id"), (CompletionCost, "retries")}
  const SECOND_ADDED: set<(Table, string)> := {(Runs, "report"), (Runs, "delivered_at"),
    (Runs, "delivery_attempts"), (Semantic, "workspace_id"), (Semantic, "category"), (Episodic, "private")}
  const THIRD_ADDED: set<(Table, string)> := {(CronJobs, "done_when_json"), (CronJobs, "kind"),
    (RsiIteration, "improvement_difficulty")}
  const FOURTH_ADDED: set<(Table, string)> := {(CoworkAgents, "tools"), (Artifact, "archived_at")}
  const ADDED: set<(Table, string)> := FIRST_ADDED + SECOND_ADDED + THIRD_ADDED + FOURTH_ADDED

  /** The columns it got later. */
  function LaterColumns(table: Table): set<string> {
    set p | p in ADDED && p.0 == table :: p.1
  }

  function AddedIn(stmts: seq<Stmt>): set<(Table, string)> {
    set s | s in stmts && s.AddColumn? :: (s.table, s.column)
  }

  /** The statement names nothing else. */
  predicate Fits(s: Stmt, indexes: set<string>, triggers: set<string>, added: set<(Table, string)>) {
    && (s.CreateIndex? ==> s.name in indexes) && (s.CreateTrigger? ==> s.name in triggers)
    && (s.AddColumn? ==> (s.table, s.column) in added)
  }

  /** These are the names in the list. */
  predicate Lists(stmts: seq<Stmt>, indexes: set<string>, triggers: set<string>, added: set<(Table, string)>) {
    && (forall s | s in stmts :: Fits(s, indexes, triggers, added))
    && indexes <= IndexesIn(stmts) && triggers <= TriggersIn(stmts) && added <= AddedIn(stmts)
  }

  lemma ListsExactly(stmts: seq<Stmt>, indexes: set<string>, triggers: set<string>, added: set<(Table, string)>)
    requires Lists(stmts, indexes, triggers, added)
    ensures IndexesIn(stmts) == indexes && TriggersIn(stmts) == triggers && AddedIn(stmts) == added
  {
  }

  lemma NamesAddUp(a: seq<Stmt>, b: seq<Stmt>)
    ensures IndexesIn(a + b) == IndexesIn(a) + IndexesIn(b) && TriggersIn(a + b) == TriggersIn(a) + TriggersIn(b)
    ensures AddedIn(a + b) == AddedIn(a) + AddedIn(b)
  {
    assert forall s :: s in a + b <==> s in a || s in b;
  }

  lemma FourNamesAddUp(a: seq<Stmt>, b: seq<Stmt>, c: seq<Stmt>, d: seq<Stmt>)
    ensures IndexesIn(a + b + c + d) == IndexesIn(a) + IndexesIn(b) + IndexesIn(c) + IndexesIn(d)
    ensures TriggersIn(a + b + c + d) == TriggersIn(a) + TriggersIn(b) + TriggersIn(c) + TriggersIn(d)
    ensures AddedIn(a + b + c + d) == AddedIn(a) + AddedIn(b) + AddedIn(c) + AddedIn(d)
  {
    NamesAddUp(a, b);
    NamesAddUp(a + b, c);
    NamesAddUp(a + b + c, d);
  }

  lemma FirstFits(s: Stmt)
    requires s in FIRST
    ensures Fits(s, FIRST_INDEXES, TRIGGERS, FIRST_ADDED)
  {
  }

  lemma FirstIndexes()
    ensures FIRST_INDEXES <= IndexesIn(FIRST) && TRIGGERS <= TriggersIn(FIRST)
  {
    assert PART_1[1] in FIRST && PART_2[1] in FIRST && PART_2[4] in FIRST && PART_3[1] in FIRST;
    assert PART_3[2] in FIRST && PART_4[0] in FIRST && PART_4[3] in FIRST && PART_6[2] in FIRST;
  }

  lemma FirstColumns()
    ensures FIRST_ADDED <= AddedIn(FIRST)
  {
    assert PART_1[2] in FIRST && PART_1[3] in FIRST && PART_2[2] in FIRST && PART_2[3] in FIRST;
    assert PART_5[0] in FIRST && PART_5[1] in FIRST && PART_5[2] in FIRST && PART_5[3] in FIRST;
    assert PART_6[0] in FIRST && PART_6[1] in FIRST;
  }

  lemma FirstNames()
    ensures IndexesIn(FIRST) == FIRST_INDEXES && TriggersIn(FIRST) == TRIGGERS && AddedIn(FIRST) == FIRST_ADDED
  {
    forall s | s in FIRST { FirstFits(s); }
    FirstIndexes();
    FirstColumns();
    ListsExactly(FIRST, FIRST_INDEXES, TRIGGERS, FIRST_ADDED);
  }

  lemma SecondFits(s: Stmt)
    requires s in SECOND
    ensures Fits(s, SECOND_INDEXES, {}, SECOND_ADDED)
  {
  }

  lemma SecondIndexes()
    ensures SECOND_INDEXES <= IndexesIn(SECOND)
  {
    assert PART_7[1] in SECOND && PART_8[1] in SECOND && PART_9[1] in SECOND && PART_12[1] in SECOND;
    assert PART_12[3] in SECOND && PART_12[4] in SECOND;
  }

  lemma SecondColumns()
    ensures SECOND_ADDED <= AddedIn(SECOND)
  {
    assert PART_10[1] in SECOND && PART_10[2] in SECOND && PART_10[3] in SECOND && PART_11[0] in SECOND;
    assert PART_11[1] in SECOND && PART_12[0] in SECOND;
  }

  lemma SecondNames()
    ensures IndexesIn(SECOND) == SECOND_INDEXES && TriggersIn(SECOND) == {} && AddedIn(SECOND) == SECOND_ADDED
  {
    forall s | s in SECOND { SecondFits(s); }
    SecondIndexes();
    SecondColumns();
    ListsExactly(SECOND, SECOND_INDEXES, {}, SECOND_ADDED);
  }

  lemma ThirdFits(s: Stmt)
    requires s in THIRD
    ensures Fits(s, THIRD_INDEXES, {}, THIRD_ADDED)
  {
  }

  lemma ThirdIndexes()
    ensures THIRD_INDEXES <= IndexesIn(THIRD)
  {
    assert PART_14[3] in THIRD && PART_15[1] in THIRD && PART_16[1] in THIRD && PART_16[2] in THIRD;
    assert PART_17[2] in THIRD && PART_17[3] in THIRD && PART_18[1] in THIRD;
  }

  lemma ThirdColumns()
    ensures THIRD_ADDED <= AddedIn(THIRD)
  {
    assert PART_14[1] in THIRD && PART_14[2] in THIRD && PART_17[1] in THIRD;
  }

  lemma ThirdNames()
    ensures IndexesIn(THIRD) == THIRD_INDEXES && TriggersIn(THIRD) == {} && AddedIn(THIRD) == THIRD_ADDED
  {
    forall s | s in THIRD { ThirdFits(s); }
    ThirdIndexes();
    ThirdColumns();
    ListsExactly(THIRD, THIRD_INDEXES, {}, THIRD_ADDED);
  }

  lemma FourthFits(s: Stmt)
    requires s in FOURTH
    ensures Fits(s, FOURTH_INDEXES, {}, FOURTH_ADDED)
  {
  }

  lemma FourthIndexes()
    ensures FOURTH_INDEXES <= IndexesIn(FOURTH)
  {
    assert PART_20[2] in FOURTH && PART_22[1] in FOURTH && PART_22[2] in FOURTH && PART_23[1] in FOURTH;
    assert PART_24[1] in FOURTH && PART_25[1] in FOURTH;
  }

  lemma FourthColumns()
    ensures FOURTH_ADDED <= AddedIn(FOURTH)
  {
    assert PART_21[1] in FOURTH && PART_25[2] in FOURTH;
  }

  lemma FourthNames()
    ensures IndexesIn(FOURTH) == FOURTH_INDEXES && TriggersIn(FOURTH) == {} && AddedIn(FOURTH) == FOURTH_ADDED
  {
    forall s | s in FOURTH { FourthFits(s); }
    FourthIndexes();
    FourthColumns();
    ListsExactly(FOURTH, FOURTH_INDEXES, {}, FOURTH_ADDED);
  }

  lemma MigrationNames()
    ensures IndexesIn(MIGRATION) == INDEXES && TriggersIn(MIGRATION) == TRIGGERS && AddedIn(MIGRATION) == ADDED
  {
    FirstNames();
    SecondNames();
    ThirdNames();
    FourthNames();
    FourNamesAddUp(FIRST, SECOND, THIRD, FOURTH);
  }

  lemma AddedToIsAddedIn(stmts: seq<Stmt>, t: Table)
    ensures AddedTo(stmts, t) == set p | p in AddedIn(stmts) && p.0 == t :: p.1
  {
    forall c | c in AddedTo(stmts, t) ensures (t, c) in AddedIn(stmts) {
      assert AddColumn(t, c) in stmts;
    }
  }

  /** A list in order makes a table once. */
  lemma {:induction false} MadeOnce(m: Mark, stmts: seq<Stmt>, t: Table, columns: set<string>)
    requires Ordered(m, stmts) && CreateTable(t, columns) in stmts
    ensures Rank(t) >= m.made && MadeWith(stmts, t) == Some(columns)
    decreases |stmts|
  {
    if stmts[0] != CreateTable(t, columns) { MadeOnce(Next(m, stmts[0]), stmts[1..], t, columns); }
  }

  // ---- the parts, one after the other ----

  lemma Part1(done: seq<Stmt>)
    requires Ordered(At(0), done) && After(At(0), done).made == 0
    ensures Ordered(At(0), done + PART_1) && After(At(0), done + PART_1).made == 1
  {
    assert Ordered(At(0), PART_1) && After(At(0), PART_1).made == 1;
    Extend(done, 0, PART_1);
  }

  lemma Part2(done: seq<Stmt>)
    requires Ordered(At(0), done) && After(At(0), done).made == 1
    ensures Ordered(At(0), done + PART_2) && After(At(0), done + PART_2).made == 2
  {
    assert Ordered(At(1), PART_2) && After(At(1), PART_2).made == 2;
    Extend(done, 1, PART_2);
  }

  lemma Part3(done: seq<Stmt>)
    requires Ordered(At(0), done) && After(At(0), done).made == 2
    ensures Ordered(At(0), done + PART_3) && After(At(0), done + PART_3).made == 3
  {
    assert Ordered(At(2), PART_3) && After(At(2), PART_3).made == 3;
    Extend(done, 2, PART_3);
  }

  lemma Part4(done: seq<Stmt>)
    requires Ordered(At(0), done) && After(At(0), done).made == 3
    ensures Ordered(At(0), done + PART_4) && After(At(0), done + PART_4).made == 5
  {
    assert Ordered(At(3), PART_4) && After(At(3), PART_4).made == 5;
    Extend(done, 3, PART_4);
  }

  lemma Part5(done: seq<Stmt>)
    requires Ordered(At(0), done) && After(At(0), done).made == 5
    ensures Ordered(At(0), done + PART_5) && After(At(0), done + PART_5).made == 5
  {
    assert Ordered(At(5), PART_5) && After(At(5), PART_5).made == 5;
    Extend(done, 5, PART_5);
  }

  lemma Part6(done: seq<Stmt>)
    requires Ordered(At(0), done) && After(At(0), done).made == 5
    ensures Ordered(At(0), done + PART_6) && After(At(0), done + PART_6).made == 5
  {
    assert Ordered(At(5), PART_6) && After(At(5), PART_6).made == 5;
    Extend(done, 5, PART_6);
  }

  lemma Part7(done: seq<Stmt>)
    requires Ordered(At(0), done) && After(At(0), done).made == 5
    ensures Ordered(At(0), done + PART_7) && After(At(0), done + PART_7).made == 7
  {
    assert Ordered(At(5), PART_7) && After(At(5), PART_7).made == 7;
    Extend(done, 5, PART_7);
  }

  lemma Part8(done: seq<Stmt>)
    requires Ordered(At(0), done) && After(At(0), done).made == 7
    ensures Ordered(At(0), done + PART_8) && After(At(0), done + PART_8).made == 9
  {
    assert Ordered(At(7), PART_8) && After(At(7), PART_8).made == 9;
    Extend(done, 7, PART_8);
  }

  lemma Part9(done: seq<Stmt>)
    requires Ordered(At(0), done) && After(At(0), done).made == 9
    ensures Ordered(At(0), done + PART_9) && After(At(0), done + PART_9).made == 11
  {
    assert Ordered(At(9), PART_9) && After(At(9), PART_9).made == 11;
    Extend(done, 9, PART_9);
  }

  lemma Part10(done: seq<Stmt>)
    requires Ordered(At(0), done) && After(At(0), done).made == 11
    ensures Ordered(At(0), done + PART_10) && After(At(0), done + PART_10).made == 12
  {
    assert Ordered(At(11), PART_10) && After(At(11), PART_10).made == 12;
    Extend(done, 11, PART_10);
  }

  lemma Part11(done: seq<Stmt>)
    requires Ordered(At(0), done) && After(At(0), done).made == 12
    ensures Ordered(At(0), done + PART_11) && After(At(0), done + PART_11).made == 12
  {
    assert Ordered(At(12), PART_11) && After(At(12), PART_11).made == 12;
    Extend(done, 12, PART_11);
  }

  lemma Part12(done: seq<Stmt>)
    requires Ordered(At(0), done) && After(At(0), done).made == 12
    ensures Ordered(At(0), done + PART_12) && After(At(0), done + PART_12).made == 13
  {
    assert Ordered(At(12), PART_12) && After(At(12), PART_12).made == 13;
    Extend(done, 12, PART_12);
  }

  lemma Part13(done: seq<Stmt>)
    requires Ordered(At(0), done) && After(At(0), done).made == 13
    ensures Ordered(At(0), done + PART_13) && After(At(0), done + PART_13).made == 15
  {
    assert Ordered(At(13), PART_13) && After(At(13), PART_13).made == 15;
    Extend(done, 13, PART_13);
  }

  lemma Part14(done: seq<Stmt>)
    requires Ordered(At(0), done) && After(At(0), done).made == 15
    ensures Ordered(At(0), done + PART_14) && After(At(0), done + PART_14).made == 16
  {
    assert Ordered(At(15), PART_14) && After(At(15), PART_14).made == 16;
    Extend(done, 15, PART_14);
  }

  lemma Part15(done: seq<Stmt>)
    requires Ordered(At(0), done) && After(At(0), done).made == 16
    ensures Ordered(At(0), done + PART_15) && After(At(0), done + PART_15).made == 17
  {
    assert Ordered(At(16), PART_15) && After(At(16), PART_15).made == 17;
    Extend(done, 16, PART_15);
  }

  lemma Part16(done: seq<Stmt>)
    requires Ordered(At(0), done) && After(At(0), done).made == 17
    ensures Ordered(At(0), done + PART_16) && After(At(0), done + PART_16).made == 18
  {
    assert Ordered(At(17), PART_16) && After(At(17), PART_16).made == 18;
    Extend(done, 17, PART_16);
  }

  lemma Part17(done: seq<Stmt>)
    requires Ordered(At(0), done) && After(At(0), done).made == 18
    ensures Ordered(At(0), done + PART_17) && After(At(0), done + PART_17).made == 19
  {
    assert Ordered(At(18), PART_17) && After(At(18), PART_17).made == 19;
    Extend(done, 18, PART_17);
  }

  lemma Part18(done: seq<Stmt>)
    requires Ordered(At(0), done) && After(At(0), done).made == 19
    ensures Ordered(At(0), done + PART_18) && After(At(0), done + PART_18).made == 20
  {
    assert Ordered(At(19), PART_18) && After(At(19), PART_18).made == 20;
    Extend(done, 19, PART_18);
  }

  lemma Part19(done: seq<Stmt>)
    requires Ordered(At(0), done) && After(At(0), done).made == 20
    ensures Ordered(At(0), done + PART_19) && After(At(0), done + PART_19).made == 22
  {
    assert Ordered(At(20), PART_19) && After(At(20), PART_19).made == 22;
    Extend(done, 20, PART_19);
  }

  lemma Part20(done: seq<Stmt>)
    requires Ordered(At(0), done) && After(At(0), done).made == 22
    ensures Ordered(At(0), done + PART_20) && After(At(0), done + PART_20).made == 24
  {
    assert Ordered(At(22), PART_20) && After(At(22), PART_20).made == 24;
    Extend(done, 22, PART_20);
  }

  lemma Part21(done: seq<Stmt>)
    requires Ordered(At(0), done) && After(At(0), done).made == 24
    ensures Ordered(At(0), done + PART_21) && After(At(0), done + PART_21).made == 25
  {
    assert Ordered(At(24), PART_21) && After(At(24), PART_21).made == 25;
    Extend(done, 24, PART_21);
  }

  lemma Part22(done: seq<Stmt>)
    requires Ordered(At(0), done) && After(At(0), done).made == 25
    ensures Ordered(At(0), done + PART_22) && After(At(0), done + PART_22).made == 26
  {
    assert Ordered(At(25), PART_22) && After(At(25), PART_22).made == 26;
    Extend(done, 25, PART_22);
  }

  lemma Part23(done: seq<Stmt>)
    requires Ordered(At(0), done) && After(At(0), done).made == 26
    ensures Ordered(At(0), done + PART_23) && After(At(0), done + PART_23).made == 27
  {
    assert Ordered(At(26), PART_23) && After(At(26), PART_23).made == 27;
    Extend(done, 26, PART_23);
  }

  lemma Part24(done: seq<Stmt>)
    requires Ordered(At(0), done) && After(At(0), done).made == 27
    ensures Ordered(At(0), done + PART_24) && After(At(0), done + PART_24).made == 28
  {
    assert Ordered(At(27), PART_24) && After(At(27), PART_24).made == 28;
    Extend(done, 27, PART_24);
  }

  lemma Part25(done: seq<Stmt>)
    requires Ordered(At(0), done) && After(At(0), done).made == 28
    ensures Ordered(At(0), done + PART_25) && After(At(0), done + PART_25).made == 29
  {
    assert Ordered(At(28), PART_25) && After(At(28), PART_25).made == 29;
    Extend(done, 28, PART_25);
  }

  lemma Part26(done: seq<Stmt>)
    requires Ordered(At(0), done) && After(At(0), done).made == 29
    ensures Ordered(At(0), done + PART_26) && After(At(0), done + PART_26).made == 30
  {
    assert Ordered(At(29), PART_26) && After(At(29), PART_26).made == 30;
    Extend(done, 29, PART_26);
  }

  lemma FirstPartsFollow(done: seq<Stmt>)
    requires Ordered(At(0), done) && After(At(0), done).made == 0
    ensures Ordered(At(0), done + FIRST) && After(At(0), done + FIRST).made == 5
  {
    var d := done;
    Part1(d);
    d := d + PART_1;
    Part2(d);
    d := d + PART_2;
    Part3(d);
    d := d + PART_3;
    Part4(d);
    d := d + PART_4;
    Part5(d);
    d := d + PART_5;
    Part6(d);
    d := d + PART_6;
    assert d == done + FIRST;
  }

  lemma SecondPartsFollow(done: seq<Stmt>)
    requires Ordered(At(0), done) && After(At(0), done).made == 5
    ensures Ordered(At(0), done + SECOND) && After(At(0), done + SECOND).made == 15
  {
    var d := done;
    Part7(d);
    d := d + PART_7;
    Part8(d);
    d := d + PART_8;
    Part9(d);
    d := d + PART_9;
    Part10(d);
    d := d + PART_10;
    Part11(d);
    d := d + PART_11;
    Part12(d);
    d := d + PART_12;
    Part13(d);
    d := d + PART_13;
    assert d == done + SECOND;
  }

  lemma ThirdPartsFollow(done: seq<Stmt>)
    requires Ordered(At(0), done) && After(At(0), done).made == 15
    ensures Ordered(At(0), done + THIRD) && After(At(0), done + THIRD).made == 22
  {
    var d := done;
    Part14(d);
    d := d + PART_14;
    Part15(d);
    d := d + PART_15;
    Part16(d);
    d := d + PART_16;
    Part17(d);
    d := d + PART_17;
    Part18(d);
    d := d + PART_18;
    Part19(d);
    d := d + PART_19;
    assert d == done + THIRD;
  }

  lemma FourthPartsFollow(done: seq<Stmt>)
    requires Ordered(At(0), done) && After(At(0), done).made == 22
    ensures Ordered(At(0), done + FOURTH) && After(At(0), done + FOURTH).made == 30
  {
    var d := done;
    Part20(d);
    d := d + PART_20;
    Part21(d);
    d := d + PART_21;
    Part22(d);
    d := d + PART_22;
    Part23(d);
    d := d + PART_23;
    Part24(d);
    d := d + PART_24;
    Part25(d);
    d := d + PART_25;
    Part26(d);
    d := d + PART_26;
    assert d == done + FOURTH;
  }

  lemma FirstHalfFollows(done: seq<Stmt>)
    requires Ordered(At(0), done) && After(At(0), done).made == 0
    ensures Ordered(At(0), done + FIRST + SECOND) && After(At(0), done + FIRST + SECOND).made == 15
  {
    FirstPartsFollow(done);
    SecondPartsFollow(done + FIRST);
  }

  lemma SecondHalfFollows(done: seq<Stmt>)
    requires Ordered(At(0), done) && After(At(0), done).made == 15
    ensures Ordered(At(0), done + THIRD + FOURTH) && After(At(0), done + THIRD + FOURTH).made == TABLES
  {
    ThirdPartsFollow(done);
    FourthPartsFollow(done + THIRD);
  }
}
