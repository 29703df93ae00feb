/**
 * The full-text index over `episodic`, kept in step by three triggers. A posting is one occurrence
 * of a term in one row; how a text splits into terms is a parameter.
 */
module FtsIndex {

  type Posting = (string, int)

  type Tokenizer = string -> seq<string>

  function PostingsOf(terms: seq<string>, id: int): multiset<Posting> {
    if terms == [] then multiset{} else PostingsOf(terms[..|terms| - 1], id) + multiset{(terms[|terms| - 1], id)}
  }

  lemma {:induction false} PostingsCount(terms: seq<string>, id: int, p: Posting)
    ensures PostingsOf(terms, id)[p] == if p.1 == id then multiset(terms)[p.0] else 0
    decreases |terms|
  {
    if terms != [] {
      PostingsCount(terms[..|terms| - 1], id, p);
      assert terms == terms[..|terms| - 1] + [terms[|terms| - 1]];
    }
  }

  datatype Tables = Tables(episodic: map<int, string>, fts: multiset<Posting>)

  datatype Op = Insert(id: int, content: string) | Update(id: int, newId: int, content: string) | Delete(id: int)

  /** The statement is refused by the primary key, or touches no row. */
  predicate NoEffect(t: Tables, op: Op) {
    match op
    case Insert(id, _) => id in t.episodic
    case Update(id, newId, _) => id !in t.episodic || (newId != id && newId in t.episodic)
    case Delete(id) => id !in t.episodic
  }

  /** One statement with the trigger it fires. */
  function Apply(tok: Tokenizer, t: Tables, op: Op): Tables {
    if NoEffect(t, op) then t else
    match op
    case Insert(id, content) => Tables(t.episodic[id := content], t.fts + PostingsOf(tok(content), id))
    case Update(id, newId, content) =>
      Tables((t.episodic - {id})[newId := content],
             t.fts - PostingsOf(tok(t.episodic[id]), id) + PostingsOf(tok(content), newId))
    case Delete(id) => Tables(t.episodic - {id}, t.fts - PostingsOf(tok(t.episodic[id]), id))
  }

  class Memory {
    const tok: Tokenizer
    var episodic: map<int, string>
    var fts: multiset<Posting>

    ghost function Now(): Tables
      reads this
    {
      Tables(episodic, fts)
    }

    constructor (tok: Tokenizer)
      ensures this.tok == tok && Now() == Tables(map[], multiset{})
    {
      this.tok := tok;
      episodic, fts := map[], multiset{};
    }

    method Execute(op: Op)
      modifies this
      ensures Now() == Apply(tok, old(Now()), op)
      ensures RowsAfter(old(episodic), op, episodic)
      ensures Agrees(tok, old(Now())) ==> Agrees(tok, Now())
    {
      StatementChangesItsRows(tok, Now(), op);
      ghost var before := Now();
      match op {
        case Insert(id, content) =>
          if id !in episodic {
            episodic := episodic[id := content];
            AfterInsert(id, content);
          }
        case Delete(id) =>
          if id in episodic {
            var content := episodic[id];
            episodic := episodic - {id};
            AfterDelete(id, content);
          }
        case Update(id, newId, content) =>
          if id in episodic && (newId == id || newId !in episodic) {
            var oldContent := episodic[id];
            episodic := (episodic - {id})[newId := content];
            AfterDelete(id, oldContent);
            AfterInsert(newId, content);
          }
      }
      if Agrees(tok, before) { StepKeepsAgreement(tok, before, op); }
    }

    method AfterInsert(id: int, content: string)
      modifies this`fts
      ensures fts == old(fts) + PostingsOf(tok(content), id)
    {
      fts := fts + PostingsOf(tok(content), id);
    }

    /** The 'delete' command: the index cannot look the old text up, so it must be told. */
    method AfterDelete(id: int, content: string)
      modifies this`fts
      ensures fts == old(fts) - PostingsOf(tok(content), id)
    {
      fts := fts - PostingsOf(tok(content), id);
    }
  }

  // ---- the table ----

  predicate SameRow(a: map<int, string>, b: map<int, string>, id: int) {
    (id in a <==> id in b) && (id in a ==> b[id] == a[id])
  }

  /**
   * What the table holds after a statement: an insert adds a row unless the id is taken, a delete leaves
   * no row of that id, an update moves the row and gives it the text, if there is one and the new id is
   * free; every other row is as it was.
   */
  ghost predicate RowsAfter(before: map<int, string>, op: Op, after: map<int, string>) {
    match op
    case Insert(id, content) =>
      && id in after && after[id] == (if id in before then before[id] else content)
      && forall k | k != id :: SameRow(before, after, k)
    case Delete(id) => id !in after && forall k | k != id :: SameRow(before, after, k)
    case Update(id, newId, content) =>
      if id in before && (newId == id || newId !in before)
      then
        && newId in after && after[newId] == content && (newId != id ==> id !in after)
        && forall k | k != id && k != newId :: SameRow(before, after, k)
      else after == before
  }

  lemma StatementChangesItsRows(tok: Tokenizer, t: Tables, op: Op)
    ensures RowsAfter(t.episodic, op, Apply(tok, t, op).episodic)
  {
    var before, after := t.episodic, Apply(tok, t, op).episodic;
    if !NoEffect(t, op) {
      match op {
        case Insert(id, content) => assert after == before[id := content];
        case Delete(id) => assert after == before - {id};
        case Update(id, newId, content) =>
          assert after == (before - {id})[newId := content];
          MovedRow(before, id, newId, content);
      }
    }
  }

  lemma MovedRow(before: map<int, string>, id: int, newId: int, content: string)
    ensures var after := (before - {id})[newId := content];
            && newId in after && after[newId] == content && (newId != id ==> id !in after)
            && forall k | k != id && k != newId :: SameRow(before, after, k)
  {
  }

  // ---- agreement ----

  /** How often the table's text has this term in this row. */
  function Occurrences(tok: Tokenizer, table: map<int, string>, p: Posting): nat {
    if p.1 in table then multiset(tok(table[p.1]))[p.0] else 0
  }

  /** The index counts, for every row of the table and no other id, every occurrence of every term. */
  ghost predicate Agrees(tok: Tokenizer, t: Tables) {
    forall p: Posting :: t.fts[p] == Occurrences(tok, t.episodic, p)
  }

  lemma StepKeepsCount(tok: Tokenizer, t: Tables, op: Op, p: Posting)
    requires t.fts[p] == Occurrences(tok, t.episodic, p)
    ensures Apply(tok, t, op).fts[p] == Occurrences(tok, Apply(tok, t, op).episodic, p)
  {
    if !NoEffect(t, op) {
      match op {
        case Insert(id, content) => PostingsCount(tok(content), id, p);
        case Delete(id) => PostingsCount(tok(t.episodic[id]), id, p);
        case Update(id, newId, content) =>
          PostingsCount(tok(t.episodic[id]), id, p);
          PostingsCount(tok(content), newId, p);
      }
    }
  }

  lemma StepKeepsAgreement(tok: Tokenizer, t: Tables, op: Op)
    requires Agrees(tok, t)
    ensures Agrees(tok, Apply(tok, t, op))
  {
    forall p: Posting { StepKeepsCount(tok, t, op, p); }
  }

  function Exec(tok: Tokenizer, t: Tables, ops: seq<Op>): Tables {
    if ops == [] then t else Apply(tok, Exec(tok, t, ops[..|ops| - 1]), ops[|ops| - 1])
  }

  lemma {:induction false} HistoryKeepsAgreement(tok: Tokenizer, t: Tables, ops: seq<Op>)
    requires Agrees(tok, t)
    ensures Agrees(tok, Exec(tok, t, ops))
    decreases |ops|
  {
    if ops != [] {
      HistoryKeepsAgreement(tok, t, ops[..|ops| - 1]);
      StepKeepsAgreement(tok, Exec(tok, t, ops[..|ops| - 1]), ops[|ops| - 1]);
    }
  }

  /** An index made from scratch by reading the rows in some order. */
  function Rebuild(tok: Tokenizer, rows: seq<(int, string)>): multiset<Posting> {
    if rows == [] then multiset{}
    else Rebuild(tok, rows[..|rows| - 1]) + PostingsOf(tok(rows[|rows| - 1].1), rows[|rows| - 1].0)
  }

  predicate Lists(rows: seq<(int, string)>, table: map<int, string>) {
    && (forall r | r in rows :: r.0 in table && table[r.0] == r.1)
    && (forall i, j | 0 <= i < j < |rows| :: rows[i].0 != rows[j].0)
    && (forall id | id in table :: (id, table[id]) in rows)
  }

  lemma {:induction false} RebuildCounts(tok: Tokenizer, rows: seq<(int, string)>, p: Posting)
    requires forall i, j | 0 <= i < j < |rows| :: rows[i].0 != rows[j].0
    ensures (forall r | r in rows :: r.0 != p.1) ==> Rebuild(tok, rows)[p] == 0
    ensures forall r | r in rows && r.0 == p.1 :: Rebuild(tok, rows)[p] == multiset(tok(r.1))[p.0]
    decreases |rows|
  {
    if rows != [] {
      var init, last := rows[..|rows| - 1], rows[|rows| - 1];
      RebuildCounts(tok, init, p);
      PostingsCount(tok(last.1), last.0, p);
      assert rows == init + [last];
    }
  }

  /** After any history from an empty table, in whatever order the rows are read, a rebuild would change nothing. */
  lemma IndexEqualsRebuild(tok: Tokenizer, ops: seq<Op>, rows: seq<(int, string)>)
    requires Lists(rows, Exec(tok, Tables(map[], multiset{}), ops).episodic)
    ensures Exec(tok, Tables(map[], multiset{}), ops).fts == Rebuild(tok, rows)
  {
    HistoryKeepsAgreement(tok, Tables(map[], multiset{}), ops);
    var t := Exec(tok, Tables(map[], multiset{}), ops);
    forall p: Posting ensures t.fts[p] == Rebuild(tok, rows)[p] {
      RebuildCounts(tok, rows, p);
      if p.1 in t.episodic { assert (p.1, t.episodic[p.1]) in rows; }
    }
  }

  /** A search finds exactly the rows whose text has the term. */
  lemma SearchFindsExactly(tok: Tokenizer, ops: seq<Op>, term: string, id: int)
    ensures var t := Exec(tok, Tables(map[], multiset{}), ops);
            (term, id) in t.fts <==> id in t.episodic && term in tok(t.episodic[id])
  {
    HistoryKeepsAgreement(tok, Tables(map[], multiset{}), ops);
    var t := Exec(tok, Tables(map[], multiset{}), ops);
    var p: Posting := (term, id);
    assert (term, id) in t.fts <==> t.fts[p] > 0;
  }

  /** Taking the postings of `claimed` out of the counts leaves exactly the other rows'. */
  ghost predicate SubtractsExactly(tok: Tokenizer, t: Tables, id: int, claimed: string) {
    forall p: Posting ::
      t.fts[p] == PostingsOf(tok(claimed), id)[p]
                  + if p.1 in t.episodic && p.1 != id then multiset(tok(t.episodic[p.1]))[p.0] else 0
  }

  /**
   * The 'delete' command must be told the old text: it undoes a row exactly when the terms it is given are the
   * row's own.
   */
  lemma DeleteUndoesExactlyWhen(tok: Tokenizer, t: Tables, id: int, claimed: string)
    requires Agrees(tok, t) && id in t.episodic
    ensures SubtractsExactly(tok, t, id, claimed) <==> multiset(tok(claimed)) == multiset(tok(t.episodic[id]))
  {
    forall p: Posting ensures PostingsOf(tok(claimed), id)[p] == if p.1 == id then multiset(tok(claimed))[p.0] else 0 {
      PostingsCount(tok(claimed), id, p);
    }
    if SubtractsExactly(tok, t, id, claimed) {
      forall term: string ensures multiset(tok(claimed))[term] == multiset(tok(t.episodic[id]))[term] {
        var p: Posting := (term, id);
        assert t.fts[p] == PostingsOf(tok(claimed), id)[p];
      }
    }
  }
}
