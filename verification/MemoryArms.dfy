/**
 * The arms of the memory-order comparison, and the block of memory lines a model is shown: cut on a
 * line boundary at a fixed number of characters.
 */
module MemoryArms {
  const MAX_CONTEXT_HITS := 10
  const POOL := 40
  const INJECTION_MAX_CHARS := 4000

  datatype Arm = Nothing | Fms | Reversed | Random | Oracle | OracleFull

  predicate Unique(s: seq<int>) {
    forall i, j | 0 <= i < j < |s| :: s[i] != s[j]
  }

  lemma UniqueConcat(a: seq<int>, b: seq<int>)
    requires Unique(a) && Unique(b) && forall x | x in a :: x !in b
    ensures Unique(a + b)
  {
    forall i, j | 0 <= i < j < |a + b| ensures (a + b)[i] != (a + b)[j] {
      if i < |a| <= j { assert a[i] in a && b[j - |a|] in b; }
    }
  }

  function Take(s: seq<int>, n: nat): (r: seq<int>)
    ensures r <= s && |r| == if |s| <= n then |s| else n
    ensures forall x | x in r :: x in s
  {
    if |s| <= n then s else s[..n]
  }

  function Reverse(s: seq<int>): (r: seq<int>)
    ensures |r| == |s| && forall x | x in r :: x in s
    ensures forall i | 0 <= i < |r| :: r[i] == s[|s| - 1 - i]
  {
    seq(|s|, (i: nat) requires i < |s| => s[|s| - 1 - i])
  }

  /** The ids of `s` that are not in `out`, in order. */
  function Without(s: seq<int>, out: seq<int>): (r: seq<int>)
    ensures forall x :: x in r <==> x in s && x !in out
    ensures Unique(s) ==> Unique(r)
  {
    if s == [] then []
    else
      var last := s[|s| - 1];
      assert s == s[..|s| - 1] + [last];
      Without(s[..|s| - 1], out) + if last in out then [] else [last]
  }

  predicate InOrder(s: seq<int>, key: int -> real) {
    forall i, j | 0 <= i < j < |s| :: key(s[i]) <= key(s[j])
  }

  /** Puts an id behind every id with the same or a smaller key. */
  function InsertByKey(x: int, s: seq<int>, key: int -> real): (r: seq<int>)
    requires InOrder(s, key)
    ensures InOrder(r, key) && |r| == |s| + 1
    ensures forall y :: y in r <==> y in s || y == x
    ensures Unique(s) && x !in s ==> Unique(r)
  {
    if s == [] then [x]
    else
      var last := s[|s| - 1];
      assert s == s[..|s| - 1] + [last];
      if key(last) <= key(x) then s + [x]
      else
        var init := InsertByKey(x, s[..|s| - 1], key);
        assert forall i | 0 <= i < |init| :: init[i] in init;
        assert Unique(s) && x !in s ==> Unique(init + [last]) by {
          if Unique(s) && x !in s { UniqueConcat(init, [last]); }
        }
        init + [last]
  }

  function SortByKey(s: seq<int>, key: int -> real): (r: seq<int>)
    ensures InOrder(r, key) && |r| == |s|
    ensures forall y :: y in r <==> y in s
    ensures Unique(s) ==> Unique(r)
  {
    if s == [] then []
    else
      assert s == s[..|s| - 1] + [s[|s| - 1]];
      InsertByKey(s[|s| - 1], SortByKey(s[..|s| - 1], key), key)
  }

  function ArmIds(arm: Arm, ranked: seq<int>, evidence: seq<int>, key: int -> real): seq<int> {
    match arm
    case Nothing => []
    case Fms => Take(ranked, MAX_CONTEXT_HITS)
    case Reversed => Reverse(Take(ranked, MAX_CONTEXT_HITS))
    case Random => Take(SortByKey(Take(ranked, POOL), key), MAX_CONTEXT_HITS)
    case _ =>
      var ev := Take(evidence, MAX_CONTEXT_HITS);
      Take(ev + Without(ranked, ev), MAX_CONTEXT_HITS)
  }

  /** In `s`, `x` comes somewhere before `y`. */
  predicate Before(s: seq<int>, x: int, y: int) {
    exists p, q :: 0 <= p < q < |s| && s[p] == x && s[q] == y
  }

  /** The first ten, or all if there are fewer. */
  predicate TopTen(s: seq<int>, ids: seq<int>) {
    ids <= s && |ids| == if |s| <= 10 then |s| else 10
  }

  /** NONE shows nothing, FMS the first ten as ranked. */
  lemma FmsShowsTheTopTen(ranked: seq<int>, evidence: seq<int>, key: int -> real)
    ensures ArmIds(Nothing, ranked, evidence, key) == [] && TopTen(ranked, ArmIds(Fms, ranked, evidence, key))
  {
  }

  /** No arm shows a memory twice or more than ten, and only the oracle arms show anything FMS did not rank. */
  lemma ArmsAreProper(arm: Arm, ranked: seq<int>, evidence: seq<int>, key: int -> real)
    requires Unique(ranked) && Unique(evidence)
    ensures var ids := ArmIds(arm, ranked, evidence, key);
            && Unique(ids) && |ids| <= MAX_CONTEXT_HITS
            && forall id | id in ids :: id in ranked || (id in evidence && (arm.Oracle? || arm.OracleFull?))
  {
    var ev := Take(evidence, MAX_CONTEXT_HITS);
    UniqueConcat(ev, Without(ranked, ev));
  }

  /** REVERSED shows exactly what FMS shows, last first. */
  lemma ReversedIsFmsBackwards(ranked: seq<int>, evidence: seq<int>, key: int -> real)
    ensures var fms, reversed := ArmIds(Fms, ranked, evidence, key), ArmIds(Reversed, ranked, evidence, key);
            && |reversed| == |fms| && (forall i | 0 <= i < |fms| :: reversed[i] == fms[|fms| - 1 - i])
            && multiset(reversed) == multiset(fms)
  {
    ReverseKeepsContents(Take(ranked, MAX_CONTEXT_HITS));
  }

  lemma {:induction false} ReverseKeepsContents(s: seq<int>)
    ensures multiset(Reverse(s)) == multiset(s)
    decreases |s|
  {
    if s != [] {
      var last := |s| - 1;
      assert s == s[..last] + [s[last]];
      assert Reverse(s) == [s[last]] + Reverse(s[..last]);
      ReverseKeepsContents(s[..last]);
    }
  }

  /**
   * RANDOM is the ten smallest keys of FMS's top forty: nobody left out of the pool has a smaller key than
   * anyone shown.
   */
  lemma RandomTakesTheSmallestKeys(ranked: seq<int>, evidence: seq<int>, key: int -> real, shown: int, other: int)
    requires var ids := ArmIds(Random, ranked, evidence, key);
             shown in ids && other in Take(ranked, POOL) && other !in ids
    ensures shown in Take(ranked, POOL) && key(shown) <= key(other)
    ensures |ArmIds(Random, ranked, evidence, key)| == MAX_CONTEXT_HITS
  {
    var sorted := SortByKey(Take(ranked, POOL), key);
    var ids := ArmIds(Random, ranked, evidence, key);
    assert other in sorted;
    var i :| 0 <= i < |ids| && ids[i] == shown;
    var j :| 0 <= j < |sorted| && sorted[j] == other;
    assert ids == sorted[..|ids|];
    assert sorted[i] == shown;
  }

  /** Ids with the same key stay in the order they came in. */
  predicate Stable(r: seq<int>, s: seq<int>, key: int -> real) {
    forall i, j | 0 <= i < j < |r| && key(r[i]) == key(r[j]) :: Before(s, r[i], r[j])
  }

  lemma BeforeInMore(s: seq<int>, x: int, y: int, z: int)
    ensures Before(s, x, y) ==> Before(s + [z], x, y)
    ensures x in s ==> Before(s + [z], x, z)
  {
    if Before(s, x, y) {
      var p, q :| 0 <= p < q < |s| && s[p] == x && s[q] == y;
      assert (s + [z])[p] == x && (s + [z])[q] == y;
    }
    if x in s {
      var p :| 0 <= p < |s| && s[p] == x;
      assert (s + [z])[p] == x && (s + [z])[|s|] == z;
    }
  }

  lemma {:induction false} InsertIsStable(x: int, r: seq<int>, s: seq<int>, key: int -> real)
    requires InOrder(r, key) && Stable(r, s, key) && forall y | y in r :: y in s
    ensures Stable(InsertByKey(x, r, key), s + [x], key)
    decreases |r|
  {
    var all := InsertByKey(x, r, key);
    if r != [] && !(key(r[|r| - 1]) <= key(x)) {
      var init := r[..|r| - 1];
      InsertIsStable(x, init, s, key);
      forall i, j | 0 <= i < j < |all| && key(all[i]) == key(all[j]) ensures Before(s + [x], all[i], all[j]) {
        if j == |all| - 1 {
          // only ids of `r` share the last one's key
          assert all[i] in InsertByKey(x, init, key) && all[i] != x;
          var k :| 0 <= k < |init| && init[k] == all[i];
          assert Before(s, r[k], r[|r| - 1]);
          BeforeInMore(s, all[i], all[j], x);
        }
      }
    } else {
      forall i, j | 0 <= i < j < |all| && key(all[i]) == key(all[j]) ensures Before(s + [x], all[i], all[j]) {
        BeforeInMore(s, all[i], all[j], x);
      }
    }
  }

  lemma {:induction false} SortIsStable(s: seq<int>, key: int -> real)
    ensures Stable(SortByKey(s, key), s, key)
    decreases |s|
  {
    if s != [] {
      var init := s[..|s| - 1];
      assert s == init + [s[|s| - 1]];
      SortIsStable(init, key);
      InsertIsStable(s[|s| - 1], SortByKey(init, key), init, key);
    }
  }

  /** RANDOM shows ten of the pool, or all there are, by their keys; equal keys as FMS ranked them. */
  lemma RandomGoesByKey(ranked: seq<int>, evidence: seq<int>, key: int -> real)
    ensures var ids := ArmIds(Random, ranked, evidence, key);
            && |ids| == (if |ranked| <= 10 then |ranked| else 10)
            && InOrder(ids, key) && Stable(ids, Take(ranked, POOL), key)
  {
    SortIsStable(Take(ranked, POOL), key);
  }

  predicate KeepsOrder(s: seq<int>, left: seq<int>) {
    forall i, j | 0 <= i < j < |left| :: Before(s, left[i], left[j])
  }

  lemma {:induction false} WithoutKeepsOrder(s: seq<int>, out: seq<int>)
    ensures KeepsOrder(s, Without(s, out))
    decreases |s|
  {
    if s != [] {
      var init, z, left := s[..|s| - 1], s[|s| - 1], Without(s, out);
      WithoutKeepsOrder(init, out);
      assert s == init + [z];
      forall i, j | 0 <= i < j < |left| ensures Before(s, left[i], left[j]) {
        BeforeInMore(init, left[i], left[j], z);
        if j == |Without(init, out)| { assert Without(init, out)[i] in Without(init, out); }
      }
    }
  }

  /** What comes before one of the ids that are left, and is not left out, is left before it. */
  lemma {:induction false} WithoutPassesOverNone(s: seq<int>, out: seq<int>, i: nat, x: int)
    requires Unique(s) && i < |Without(s, out)| && Before(s, x, Without(s, out)[i]) && x !in out
    ensures x in Without(s, out)[..i]
    decreases |s|
  {
    var init, y := s[..|s| - 1], Without(s, out)[i];
    assert s == init + [s[|s| - 1]];
    BeforeLast(init, s[|s| - 1], x, y);
    if i < |Without(init, out)| {
      assert y in Without(init, out);
      WithoutPassesOverNone(init, out, i, x);
      assert Without(s, out)[..i] == Without(init, out)[..i];
    } else {
      assert Without(s, out)[..i] == Without(init, out);
    }
  }

  lemma BeforeLast(init: seq<int>, z: int, x: int, y: int)
    requires Unique(init + [z]) && Before(init + [z], x, y)
    ensures x in init && Unique(init) && (y in init ==> Before(init, x, y))
  {
    var s := init + [z];
    var p, q :| 0 <= p < q < |s| && s[p] == x && s[q] == y;
    assert init[p] == x;
    assert forall i | 0 <= i < |init| :: s[i] == init[i];
    if y in init {
      var k :| 0 <= k < |init| && init[k] == y;
      assert s[k] == y && k == q;
    }
  }

  /**
   * ORACLE shows the first ten pieces of evidence and then, as long as there is room, the other ranked
   * memories exactly in FMS's order: whatever is ranked before one of them and is not shown, is evidence.
   */
  lemma OracleKeepsTheRanking(ranked: seq<int>, evidence: seq<int>, key: int -> real)
    requires Unique(ranked)
    ensures var ids := ArmIds(Oracle, ranked, evidence, key);
            var n := if |evidence| <= 10 then |evidence| else 10;
            && n <= |ids| && TopTen(evidence, ids[..n])
            && (forall i, j | n <= i < j < |ids| :: Before(ranked, ids[i], ids[j]))
            && (forall i | n <= i < |ids| :: ids[i] in ranked && ids[i] !in ids[..n])
            && (forall i, x | n <= i < |ids| && Before(ranked, x, ids[i]) :: x in ids)
  {
    var ids, ev := ArmIds(Oracle, ranked, evidence, key), Take(evidence, MAX_CONTEXT_HITS);
    assert ids[..|ev|] == ev;
    forall i, j | |ev| <= i < j < |ids| ensures Before(ranked, ids[i], ids[j]) {
      FillKeepsOrder(ranked, ev, ids, i, j);
    }
    forall i | |ev| <= i < |ids| ensures ids[i] in ranked && ids[i] !in ev {
      FillIsRanked(ranked, ev, ids, i);
    }
    forall i, x | |ev| <= i < |ids| && Before(ranked, x, ids[i]) ensures x in ids {
      NonePassedOver(ranked, ev, ids, i, x);
    }
  }

  lemma FillIsRanked(ranked: seq<int>, ev: seq<int>, ids: seq<int>, i: nat)
    requires ids <= ev + Without(ranked, ev) && |ev| <= i < |ids|
    ensures ids[i] in ranked && ids[i] !in ev
  {
    assert ids[i] == Without(ranked, ev)[i - |ev|] && ids[i] in Without(ranked, ev);
  }

  lemma FillKeepsOrder(ranked: seq<int>, ev: seq<int>, ids: seq<int>, i: nat, j: nat)
    requires ids <= ev + Without(ranked, ev) && |ev| <= i < j < |ids|
    ensures Before(ranked, ids[i], ids[j])
  {
    WithoutKeepsOrder(ranked, ev);
    assert ids[i] == Without(ranked, ev)[i - |ev|] && ids[j] == Without(ranked, ev)[j - |ev|];
  }

  lemma NonePassedOver(ranked: seq<int>, ev: seq<int>, ids: seq<int>, i: nat, x: int)
    requires Unique(ranked) && ids <= ev + Without(ranked, ev) && |ev| <= i < |ids| && Before(ranked, x, ids[i])
    ensures x in ids
  {
    assert ids[..|ev|] == ev;
    if x !in ev {
      assert ids[i] == Without(ranked, ev)[i - |ev|];
      WithoutPassesOverNone(ranked, ev, i - |ev|, x);
      assert ids[|ev|..i] == Without(ranked, ev)[..i - |ev|];
      assert x in ids[|ev|..i];
    }
  }

  /**
   * ORACLE is a perfect reranking: the evidence comes first (the first ten of it), then FMS in its own
   * order without what was already shown; a ranked memory is missing only when the ten places are full.
   */
  lemma OracleShowsEvidenceThenFms(ranked: seq<int>, evidence: seq<int>, key: int -> real)
    ensures var ids := ArmIds(Oracle, ranked, evidence, key);
            var ev := Take(evidence, MAX_CONTEXT_HITS);
            && ev <= ids && ids[|ev|..] <= Without(ranked, ev)
            && ((exists id :: id in ranked && id !in ids) ==> |ids| == MAX_CONTEXT_HITS)
            && ids == ArmIds(OracleFull, ranked, evidence, key)
  {
    var ids, ev := ArmIds(Oracle, ranked, evidence, key), Take(evidence, MAX_CONTEXT_HITS);
    var fill := Without(ranked, ev);
    assert ids[|ev|..] == fill[..|ids| - |ev|];
    if |ids| < MAX_CONTEXT_HITS {
      assert ids == ev + fill;
      forall id | id in ranked ensures id in ids {
        assert id in ev || id in fill;
      }
    }
  }

  // ---- the block ----

  const HEADER := ["[Memory context]", "Relevant past exchanges (fractal hybrid):"]
  const FOOTER := ["[End memory context]"]

  function Join(lines: seq<string>): string {
    if lines == [] then ""
    else if |lines| == 1 then lines[0]
    else Join(lines[..|lines| - 1]) + "\n" + lines[|lines| - 1]
  }

  /** Every line counts its characters and one for its end. */
  function Cost(lines: seq<string>): nat {
    if lines == [] then 0 else Cost(lines[..|lines| - 1]) + |lines[|lines| - 1]| + 1
  }

  function AllLines(lines: seq<string>): seq<string> {
    HEADER + lines + FOOTER
  }

  /** The longest run of lines from the top that stays within the cap. */
  predicate IsCut(all: seq<string>, k: nat) {
    k <= |all| && Cost(all[..k]) <= INJECTION_MAX_CHARS && (k < |all| ==> Cost(all[..k + 1]) > INJECTION_MAX_CHARS)
  }

  method MemoryBlock(lines: seq<string>) returns (block: string)
    ensures lines == [] ==> block == ""
    ensures lines != [] ==> exists k: nat :: IsCut(AllLines(lines), k) && block == Join(AllLines(lines)[..k])
  {
    if lines == [] {
      return "";
    }
    var all := AllLines(lines);
    var kept: seq<string> := [];
    var used := 0;
    for i := 0 to |all|
      invariant kept == all[..i] && used == Cost(kept) <= INJECTION_MAX_CHARS
    {
      assert all[..i + 1][..i] == all[..i];
      if used + |all[i]| + 1 > INJECTION_MAX_CHARS {
        assert IsCut(all, i);
        return Join(kept);
      }
      kept := kept + [all[i]];
      used := used + |all[i]| + 1;
    }
    assert all[..|all|] == all;
    assert IsCut(all, |all|);
    block := Join(kept);
  }

  lemma {:induction false} JoinLength(lines: seq<string>)
    requires lines != []
    ensures |Join(lines)| + 1 == Cost(lines)
    decreases |lines|
  {
    if |lines| == 1 {
      assert Cost(lines[..0]) == 0;
    } else {
      JoinLength(lines[..|lines| - 1]);
    }
  }

  /** Lines are separated by one line end each, wherever the text is cut in two. */
  lemma {:induction false} JoinOfBoth(a: seq<string>, b: seq<string>)
    requires a != [] && b != []
    ensures Join(a + b) == Join(a) + "\n" + Join(b)
    decreases |b|
  {
    assert (a + b)[..|a + b| - 1] == a + b[..|b| - 1];
    if |b| == 1 {
      assert a + b[..0] == a;
    } else {
      JoinOfBoth(a, b[..|b| - 1]);
    }
  }

  lemma {:induction false} JoinOfPrefix(lines: seq<string>, k: nat)
    requires k <= |lines|
    ensures Join(lines[..k]) <= Join(lines)
    decreases |lines|
  {
    if k < |lines| {
      var last := |lines| - 1;
      assert lines[..last][..k] == lines[..k];
      JoinOfPrefix(lines[..last], k);
    } else {
      assert lines[..k] == lines;
    }
  }

  lemma {:induction false} CostGrows(lines: seq<string>, k: nat)
    requires k <= |lines|
    ensures Cost(lines[..k]) <= Cost(lines)
    decreases |lines|
  {
    if k < |lines| {
      assert lines[..|lines| - 1][..k] == lines[..k];
      CostGrows(lines[..|lines| - 1], k);
    } else {
      assert lines[..k] == lines;
    }
  }

  /** There is one cut only, so the block is determined by the lines. */
  lemma CutIsUnique(all: seq<string>, j: nat, k: nat)
    requires IsCut(all, j) && IsCut(all, k)
    ensures j == k
  {
    if j < k {
      assert all[..k][..j + 1] == all[..j + 1];
      CostGrows(all[..k], j + 1);
    } else if k < j {
      assert all[..j][..k + 1] == all[..k + 1];
      CostGrows(all[..j], k + 1);
    }
  }

  /** The block is a beginning of the whole text, shorter than the cap; it is the whole text exactly when that is. */
  lemma BlockFits(lines: seq<string>, k: nat)
    requires lines != [] && IsCut(AllLines(lines), k)
    ensures var all := AllLines(lines);
            && Join(all[..k]) <= Join(all) && |Join(all[..k])| < INJECTION_MAX_CHARS
            && (Join(all[..k]) == Join(all) <==> |Join(all)| < INJECTION_MAX_CHARS)
  {
    var all := AllLines(lines);
    JoinOfPrefix(all, k);
    JoinLength(all);
    assert all[..|all|] == all;
    assert all[..1] == [HEADER[0]];
    JoinLength(all[..k]);
    if k < |all| {
      CostGrows(all, k + 1);
    }
  }
}
