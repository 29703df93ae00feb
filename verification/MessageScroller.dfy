/**
 * The chat scroller's three scans over the rows on screen, and the faster ones a build-time
 * rewrite puts in their place. Rows are a column: what one row measures is its rectangle.
 */
module MessageScroller {
  import opened Basics

  /** `messageId` is empty for a row that is no message; `boxed` means a width or a height that is not zero. */
  datatype Row = Row(messageId: string, anchor: bool, top: real, bottom: real, boxed: bool)

  // ---- the binary search ----

  /** JavaScript's `x >> 1` works on x reduced to a signed 32-bit integer. */
  function ToInt32(x: int): int {
    var m := x % 0x1_0000_0000;
    if m >= 0x8000_0000 then m - 0x1_0000_0000 else m
  }

  function Halve(lo: int, hi: int): int {
    ToInt32(lo + hi) / 2
  }

  /** The shift halves exactly while the sum is below 2^31; from there on it goes negative. */
  lemma HalveIsExactExactlyWhen(lo: nat, hi: nat)
    requires lo + hi < 0x1_0000_0000
    ensures Halve(lo, hi) == (lo + hi) / 2 <==> lo + hi < 0x8000_0000
    ensures lo + hi >= 0x8000_0000 ==> Halve(lo, hi) < 0
  {
  }

  const MAX_ROWS := 0x4000_0000

  /** Where the halving ends up between `lo` and `hi`: for any `past`, at a turn from false to true, or at an end. */
  function Search(past: nat -> bool, lo: nat, hi: nat): (r: nat)
    requires lo <= hi <= MAX_ROWS
    ensures lo <= r <= hi && (r < hi ==> past(r)) && (r > lo ==> !past(r - 1))
    decreases hi - lo
  {
    if lo == hi then lo
    else
      var m := (lo + hi) / 2;
      if past(m) then Search(past, lo, m) else Search(past, m + 1, hi)
  }

  method FirstPast(n: nat, past: nat -> bool) returns (lo: nat)
    requires n <= MAX_ROWS
    ensures lo == Search(past, 0, n)
  {
    lo := 0;
    var hi := n;
    while lo < hi
      invariant lo <= hi <= n && Search(past, lo, hi) == Search(past, 0, n)
    {
      HalveIsExactExactlyWhen(lo, hi);
      var m := Halve(lo, hi);
      if past(m) {
        hi := m;
      } else {
        lo := m + 1;
      }
    }
  }

  /** Top to bottom: neither edge ever moves back up. */
  predicate Column(rows: seq<Row>) {
    forall i, j | 0 <= i < j < |rows| :: rows[i].top <= rows[j].top && rows[i].bottom <= rows[j].bottom
  }

  function PastBottom(rows: seq<Row>, top: real): nat -> bool {
    (j: nat) => j < |rows| && rows[j].bottom > top
  }

  function PastTop(rows: seq<Row>, line: real): nat -> bool {
    (j: nat) => j < |rows| && rows[j].top > line
  }

  lemma InColumn(rows: seq<Row>, i: nat, j: nat)
    requires Column(rows) && i <= j < |rows|
    ensures rows[i].top <= rows[j].top && rows[i].bottom <= rows[j].bottom
  {
  }

  /** In a column the turn the search finds separates the rows above the line from those past it. */
  lemma SearchSplitsBottoms(rows: seq<Row>, line: real)
    requires Column(rows) && |rows| <= MAX_ROWS
    ensures var s := Search(PastBottom(rows, line), 0, |rows|);
            forall k: nat | k < |rows| :: k < s <==> rows[k].bottom <= line
  {
    var s := Search(PastBottom(rows, line), 0, |rows|);
    forall k: nat | k < |rows| ensures k < s <==> rows[k].bottom <= line {
      if k < s { InColumn(rows, k, s - 1); } else { InColumn(rows, s, k); }
    }
  }

  lemma SearchSplitsTops(rows: seq<Row>, line: real)
    requires Column(rows) && |rows| <= MAX_ROWS
    ensures var s := Search(PastTop(rows, line), 0, |rows|);
            forall k: nat | k < |rows| :: k < s <==> rows[k].top <= line
  {
    var s := Search(PastTop(rows, line), 0, |rows|);
    forall k: nat | k < |rows| ensures k < s <==> rows[k].top <= line {
      if k < s { InColumn(rows, k, s - 1); } else { InColumn(rows, s, k); }
    }
  }

  // ---- first message on screen ----

  predicate OnScreen(row: Row, top: real, bottom: real) {
    row.bottom > top && row.top < bottom
  }

  predicate Visible(rows: seq<Row>, k: nat, top: real, bottom: real) {
    k < |rows| && rows[k].messageId != "" && OnScreen(rows[k], top, bottom)
  }

  /** The first message row from `i` on that is on screen. */
  function FirstVisible(rows: seq<Row>, i: nat, top: real, bottom: real): (r: Option<nat>)
    requires i <= |rows|
    ensures r.Some? ==> i <= r.value && Visible(rows, r.value, top, bottom)
    ensures forall k | i <= k < (if r.Some? then r.value else |rows|) :: !Visible(rows, k, top, bottom)
    decreases |rows| - i
  {
    if i == |rows| then None
    else if Visible(rows, i, top, bottom) then Some(i)
    else FirstVisible(rows, i + 1, top, bottom)
  }

  method ScanFirstVisible(rows: seq<Row>, top: real, bottom: real) returns (r: Option<nat>)
    ensures r == FirstVisible(rows, 0, top, bottom)
  {
    for i := 0 to |rows|
      invariant FirstVisible(rows, 0, top, bottom) == FirstVisible(rows, i, top, bottom)
    {
      if rows[i].messageId == "" {
        continue;
      }
      if OnScreen(rows[i], top, bottom) {
        return Some(i);
      }
    }
    r := None;
  }

  /** A message that begins at or below the screen's lower edge: the rewritten walk looks no further. */
  predicate Stops(rows: seq<Row>, k: nat, bottom: real) {
    k < |rows| && rows[k].messageId != "" && rows[k].top >= bottom
  }

  /** The rewritten walk from `i` on. */
  function Walk(rows: seq<Row>, i: nat, top: real, bottom: real): (r: Option<nat>)
    requires i <= |rows|
    ensures r.Some? ==> i <= r.value && Visible(rows, r.value, top, bottom)
    ensures r.Some? ==> forall k | i <= k < r.value :: !Visible(rows, k, top, bottom) && !Stops(rows, k, bottom)
    ensures r.None? && (exists k :: i <= k && Visible(rows, k, top, bottom)) ==>
              exists stop ::
                && i <= stop && Stops(rows, stop, bottom)
                && forall k | i <= k < stop :: !Visible(rows, k, top, bottom)
    decreases |rows| - i
  {
    if i == |rows| then None
    else if Visible(rows, i, top, bottom) then Some(i)
    else if Stops(rows, i, bottom) then None
    else Walk(rows, i + 1, top, bottom)
  }

  /**
   * Nothing on screen lies before `start`, and no stop comes between `start` and the first message on
   * screen: after a stop, something is on screen only if something before the stop is.
   */
  ghost predicate NothingMissed(rows: seq<Row>, start: nat, top: real, bottom: real) {
    && (forall k | 0 <= k < start :: !Visible(rows, k, top, bottom))
    && (forall stop, k | start <= stop < k && Stops(rows, stop, bottom) && Visible(rows, k, top, bottom) ::
          exists j :: start <= j < stop && Visible(rows, j, top, bottom))
  }

  /** For any rows, in a column or not, the walk finds what the full scan finds exactly when nothing is missed. */
  lemma WalkIsExactExactlyWhen(rows: seq<Row>, start: nat, top: real, bottom: real)
    requires start <= |rows|
    ensures Walk(rows, start, top, bottom) == FirstVisible(rows, 0, top, bottom)
            <==> NothingMissed(rows, start, top, bottom)
  {
    var w, f := Walk(rows, start, top, bottom), FirstVisible(rows, 0, top, bottom);
    if w == f && w.Some? {
      forall stop, k | start <= stop < k && Stops(rows, stop, bottom) && Visible(rows, k, top, bottom)
        ensures exists j :: start <= j < stop && Visible(rows, j, top, bottom)
      {
        assert w.value < stop;
      }
    }
  }

  lemma NothingMissedInAColumn(rows: seq<Row>, top: real, bottom: real)
    requires Column(rows) && |rows| <= MAX_ROWS
    ensures NothingMissed(rows, Search(PastBottom(rows, top), 0, |rows|), top, bottom)
  {
    SearchSplitsBottoms(rows, top);
    forall stop, k | 0 <= stop < k && Stops(rows, stop, bottom) && k < |rows| ensures !Visible(rows, k, top, bottom) {
      InColumn(rows, stop, k);
    }
  }

  /**
   * The rewritten scan: jump past the rows above the screen, stop at the first message below it. It
   * finds the same row as the scan it replaces exactly when nothing is missed, so always in a column.
   */
  method FastFirstVisible(rows: seq<Row>, top: real, bottom: real) returns (r: Option<nat>)
    requires |rows| <= MAX_ROWS
    ensures r == FirstVisible(rows, 0, top, bottom)
       <==> NothingMissed(rows, Search(PastBottom(rows, top), 0, |rows|), top, bottom)
    ensures Column(rows) ==> r == FirstVisible(rows, 0, top, bottom)
  {
    var start := FirstPast(|rows|, PastBottom(rows, top));
    WalkIsExactExactlyWhen(rows, start, top, bottom);
    if Column(rows) {
      NothingMissedInAColumn(rows, top, bottom);
    }
    for i := start to |rows|
      invariant Walk(rows, start, top, bottom) == Walk(rows, i, top, bottom)
    {
      if rows[i].messageId == "" {
        continue;
      }
      if OnScreen(rows[i], top, bottom) {
        return Some(i);
      }
      if rows[i].top >= bottom {
        return None;
      }
    }
    r := None;
  }

  // ---- bottom of the content ----

  /** The lowest bottom of all rows, and at least `o`; `shift` is the fixed offset added to every row. */
  function LowestBottom(rows: seq<Row>, o: real, shift: real): real {
    if rows == [] then o else MaxReal(LowestBottom(rows[..|rows| - 1], o, shift), rows[|rows| - 1].bottom + shift)
  }

  function MaxReal(a: real, b: real): real {
    if a < b then b else a
  }

  method ScanContentBottom(rows: seq<Row>, o: real, shift: real) returns (r: real)
    ensures r == LowestBottom(rows, o, shift)
    ensures o <= r && (forall i | 0 <= i < |rows| :: rows[i].bottom + shift <= r)
    ensures r == o || exists i :: 0 <= i < |rows| && r == rows[i].bottom + shift
  {
    r := o;
    for i := 0 to |rows|
      invariant r == LowestBottom(rows[..i], o, shift)
      invariant o <= r && forall k | 0 <= k < i :: rows[k].bottom + shift <= r
      invariant r == o || exists k :: 0 <= k < i && r == rows[k].bottom + shift
    {
      r := MaxReal(r, rows[i].bottom + shift);
      assert rows[..i + 1][..i] == rows[..i];
    }
    assert rows[..|rows|] == rows;
  }

  /** How many rows the walk back never reaches: those before the last one with a box, none if no row has one. */
  function Skipped(rows: seq<Row>): (n: nat)
    ensures n <= |rows| && (0 < n < |rows| ==> rows[n].boxed) && forall k | n < k < |rows| :: !rows[k].boxed
    ensures (forall k | 0 <= k < |rows| :: !rows[k].boxed) ==> n == 0
  {
    if rows == [] then 0 else if rows[|rows| - 1].boxed then |rows| - 1 else Skipped(rows[..|rows| - 1])
  }

  lemma {:induction false} LowestBottomBounds(rows: seq<Row>, o: real, shift: real)
    ensures o <= LowestBottom(rows, o, shift)
    ensures forall i | 0 <= i < |rows| :: rows[i].bottom + shift <= LowestBottom(rows, o, shift)
    decreases |rows|
  {
    if rows != [] {
      LowestBottomBounds(rows[..|rows| - 1], o, shift);
    }
  }

  lemma {:induction false} LowestBottomSplits(rows: seq<Row>, n: nat, o: real, shift: real)
    requires n <= |rows|
    ensures LowestBottom(rows, o, shift)
            == MaxReal(LowestBottom(rows[..n], o, shift), LowestBottom(rows[n..], o, shift))
    decreases |rows|
  {
    if n == |rows| {
      assert rows[..n] == rows;
      LowestBottomBounds(rows, o, shift);
    } else {
      LowestBottomSplits(rows[..|rows| - 1], n, o, shift);
      assert rows[..|rows| - 1][..n] == rows[..n] && rows[..|rows| - 1][n..] == rows[n..][..|rows| - n - 1];
    }
  }

  /**
   * The rewritten scan walks back from the end and stops at the first row with a box. It sees the
   * true bottom exactly when no row it skipped reaches lower than what it saw.
   */
  method FastContentBottom(rows: seq<Row>, o: real, shift: real) returns (r: real)
    ensures r == LowestBottom(rows[Skipped(rows)..], o, shift)
    ensures r == LowestBottom(rows, o, shift)
       <==> forall k | 0 <= k < Skipped(rows) :: rows[k].bottom + shift <= r
  {
    r := o;
    var i := |rows|;
    assert rows[..i] == rows;
    while i > 0
      invariant 0 <= i <= |rows| && r == LowestBottom(rows[i..], o, shift) && Skipped(rows[..i]) == Skipped(rows)
    {
      i := i - 1;
      PrependBottom(rows[i], rows[i + 1..], o, shift);
      assert rows[i..] == [rows[i]] + rows[i + 1..] && rows[..i + 1][..i] == rows[..i];
      r := MaxReal(r, rows[i].bottom + shift);
      if rows[i].boxed {
        break;
      }
    }
    assert i == Skipped(rows);
    SkippingIsExactExactlyWhen(rows, i, o, shift);
  }

  lemma PrependBottom(row: Row, rows: seq<Row>, o: real, shift: real)
    ensures LowestBottom([row] + rows, o, shift) == MaxReal(LowestBottom(rows, o, shift), row.bottom + shift)
  {
    LowestBottomSplits([row] + rows, 1, o, shift);
    assert ([row] + rows)[..1] == [row] && ([row] + rows)[1..] == rows && [row][..0] == [];
    LowestBottomBounds(rows, o, shift);
  }

  lemma {:induction false} LowestBottomAtMost(rows: seq<Row>, o: real, shift: real, bound: real)
    requires o <= bound && forall k | 0 <= k < |rows| :: rows[k].bottom + shift <= bound
    ensures LowestBottom(rows, o, shift) <= bound
    decreases |rows|
  {
    if rows != [] {
      LowestBottomAtMost(rows[..|rows| - 1], o, shift, bound);
    }
  }

  lemma SkippingIsExactExactlyWhen(rows: seq<Row>, n: nat, o: real, shift: real)
    requires n <= |rows|
    ensures LowestBottom(rows[n..], o, shift) == LowestBottom(rows, o, shift)
       <==> forall k | 0 <= k < n :: rows[k].bottom + shift <= LowestBottom(rows[n..], o, shift)
  {
    var seen := LowestBottom(rows[n..], o, shift);
    LowestBottomSplits(rows, n, o, shift);
    LowestBottomBounds(rows[..n], o, shift);
    LowestBottomBounds(rows[n..], o, shift);
    if forall k | 0 <= k < n :: rows[k].bottom + shift <= seen {
      LowestBottomAtMost(rows[..n], o, shift, seen);
    } else {
      var k :| 0 <= k < n && rows[k].bottom + shift > seen;
      assert rows[..n][k] == rows[k];
    }
  }

  /** In a column, with hidden rows anywhere, the walk back always sees the true bottom. */
  lemma ColumnBottomIsExact(rows: seq<Row>, o: real, shift: real)
    requires Column(rows)
    ensures LowestBottom(rows[Skipped(rows)..], o, shift) == LowestBottom(rows, o, shift)
  {
    var n := Skipped(rows);
    SkippingIsExactExactlyWhen(rows, n, o, shift);
    LowestBottomBounds(rows[n..], o, shift);
    if 0 < n < |rows| {
      assert rows[n..][0] == rows[n];
    } else if n == |rows| {
      SkipsAllOnlyWhenEmpty(rows);
    }
  }

  lemma {:induction false} SkipsAllOnlyWhenEmpty(rows: seq<Row>)
    ensures Skipped(rows) == |rows| ==> rows == []
    decreases |rows|
  {
    if rows != [] {
      SkipsAllOnlyWhenEmpty(rows[..|rows| - 1]);
    }
  }

  // ---- the current question ----

  predicate IsQuestion(row: Row) {
    row.messageId != "" && row.anchor
  }

  /** The last question among the first `n` rows whose top has reached the reading line. */
  function LastQuestionAbove(rows: seq<Row>, n: nat, line: real): (m: Option<nat>)
    requires n <= |rows|
    ensures m.Some? ==> m.value < n && IsQuestion(rows[m.value]) && rows[m.value].top <= line
    ensures forall k | (if m.Some? then m.value + 1 else 0) <= k < n :: !(IsQuestion(rows[k]) && rows[k].top <= line)
  {
    if n == 0 then None
    else if IsQuestion(rows[n - 1]) && rows[n - 1].top <= line then Some(n - 1)
    else LastQuestionAbove(rows, n - 1, line)
  }

  /** The last question among the first `n` rows, wherever it is. */
  function LastQuestion(rows: seq<Row>, n: nat): (m: Option<nat>)
    requires n <= |rows|
    ensures m.Some? ==> m.value < n && IsQuestion(rows[m.value])
    ensures forall k | (if m.Some? then m.value + 1 else 0) <= k < n :: !IsQuestion(rows[k])
  {
    if n == 0 then None else if IsQuestion(rows[n - 1]) then Some(n - 1) else LastQuestion(rows, n - 1)
  }

  /** No question from `split` on has reached the line, and the last one before it has. */
  predicate SplitsQuestions(rows: seq<Row>, split: nat, line: real)
    requires split <= |rows|
  {
    && (forall k | split <= k < |rows| && IsQuestion(rows[k]) :: rows[k].top > line)
    && (LastQuestion(rows, split).Some? ==> rows[LastQuestion(rows, split).value].top <= line)
  }

  /** For any rows, stepping back from `split` finds the current question exactly when `split` splits the questions. */
  lemma SteppingBackIsExactExactlyWhen(rows: seq<Row>, split: nat, line: real)
    requires split <= |rows|
    ensures LastQuestion(rows, split) == LastQuestionAbove(rows, |rows|, line) <==> SplitsQuestions(rows, split, line)
  {
    var m, q := LastQuestion(rows, split), LastQuestionAbove(rows, |rows|, line);
    if m == q {
      forall k | split <= k < |rows| && IsQuestion(rows[k]) ensures rows[k].top > line {
        assert m.Some? ==> m.value < k;
      }
    }
  }

  lemma QuestionsSplitInAColumn(rows: seq<Row>, line: real)
    requires Column(rows) && |rows| <= MAX_ROWS
    ensures SplitsQuestions(rows, Search(PastTop(rows, line), 0, |rows|), line)
  {
    SearchSplitsTops(rows, line);
  }

  /**
   * The rewritten scan: find the last row above the line by halving, then step back to the nearest
   * question. It finds the current question exactly when the turn splits the questions, so always in a column.
   */
  method FastCurrentQuestion(rows: seq<Row>, line: real) returns (m: Option<nat>)
    requires |rows| <= MAX_ROWS
    ensures m == LastQuestionAbove(rows, |rows|, line)
       <==> SplitsQuestions(rows, Search(PastTop(rows, line), 0, |rows|), line)
    ensures Column(rows) ==> m == LastQuestionAbove(rows, |rows|, line)
  {
    var i: nat := FirstPast(|rows|, PastTop(rows, line));
    ghost var split := i;
    SteppingBackIsExactExactlyWhen(rows, split, line);
    if Column(rows) {
      QuestionsSplitInAColumn(rows, line);
    }
    while i > 0
      invariant i <= split <= |rows| && LastQuestion(rows, split) == LastQuestion(rows, i)
    {
      i := i - 1;
      if IsQuestion(rows[i]) {
        return Some(i);
      }
    }
    m := None;
  }

  /**
   * A hidden row measures zero and can turn the halving away from a message: any one hidden row below a
   * message that is on screen, the two alone in the list, makes the rewritten scan miss it.
   */
  lemma HiddenRowHidesTheMessage(rows: seq<Row>, top: real, bottom: real)
    requires |rows| == 2 && top >= 0.0 && Visible(rows, 0, top, bottom)
    requires !rows[1].boxed && rows[1].top == rows[1].bottom == 0.0
    ensures !NothingMissed(rows, Search(PastBottom(rows, top), 0, |rows|), top, bottom)
  {
    var past := PastBottom(rows, top);
    assert (0 + 2) / 2 == 1 && !past(1) && Search(past, 0, 2) == Search(past, 2, 2) == 2;
  }
}
