/**
 * Does the order of recalled memories matter? A paired comparison of two arms with a seeded bootstrap
 * interval.
 *
 * The comparison is proved against the answers, the draws and order statistics. Then follows what its
 * numbers mean, and what swapping the arms does to the interval: it is mirrored unless the number of
 * resamples is a multiple of 40.
 *
 * The last part is an input on which it is not. The eighty turns of the generator are given as numbers,
 * nine to a stretch, each beginning where the one before it ends. That every number follows from the one
 * before is checked stretch by stretch; then the stretches are joined, and the resamples followed along them.
 */
module MemoryOrder {
  import opened Basics

  // ---- the generator ----

  const WORD := 0x1_0000_0000
  const STEP := 1664525
  const SHIFT := 1013904223

  function ToUint32(x: int): int {
    x % WORD
  }

  function ToInt32(x: int): int {
    if x % WORD < 0x8000_0000 then x % WORD else x % WORD - WORD
  }

  function Imul(a: int, b: int): int {
    ToInt32(ToUint32(a) * ToUint32(b))
  }

  predicate IsSeed(s: int) {
    0 <= s < WORD
  }

  /** One turn of the generator, as written: a signed product, then the unsigned sum. */
  function NextSeed(s: int): (s': int)
    ensures IsSeed(s')
  {
    ToUint32(Imul(s, STEP) + SHIFT)
  }

  /** The multiplier's inverse modulo 2^32 undoes a turn. */
  function PreviousSeed(s: int): (p: int)
    ensures IsSeed(p)
  {
    ToUint32((s - SHIFT) * 4276115653)
  }

  lemma SameRemainder(x: int, y: int, k: int)
    requires x == y + k * WORD
    ensures x % WORD == y % WORD
  {
    var q, r := y / WORD, y % WORD;
    assert x == (q + k) * WORD + r;
    assert x / WORD == q + k;
  }

  /** The signed multiply loses nothing: it is the plain linear congruential step. */
  lemma NextSeedIsLinear(s: int)
    requires IsSeed(s)
    ensures NextSeed(s) == (STEP * s + SHIFT) % WORD
  {
    assert ToUint32(s) == s && ToUint32(STEP) == STEP;
    var p := s * STEP;
    assert p == p / WORD * WORD + p % WORD;
    var k := if p % WORD < 0x8000_0000 then -(p / WORD) else -(p / WORD) - 1;
    SameRemainder(Imul(s, STEP) + SHIFT, p + SHIFT, k);
  }

  /** The generator is a bijection on 32-bit words: no two seeds fall together, none is out of reach. */
  lemma NextSeedIsABijection(s: int)
    requires IsSeed(s)
    ensures PreviousSeed(NextSeed(s)) == s && NextSeed(PreviousSeed(s)) == s
  {
    var next := NextSeed(s);
    NextSeedIsLinear(s);
    var j := (STEP * s + SHIFT) / WORD;
    assert next == STEP * s + SHIFT - j * WORD;
    assert STEP * 4276115653 == 1657219 * WORD + 1;
    SameRemainder((next - SHIFT) * 4276115653, s, s * 1657219 - j * 4276115653);
    var p := PreviousSeed(s);
    NextSeedIsLinear(p);
    var i := ((s - SHIFT) * 4276115653) / WORD;
    assert p == (s - SHIFT) * 4276115653 - i * WORD;
    SameRemainder(STEP * p + SHIFT, s, (s - SHIFT) * 1657219 - STEP * i);
  }

  lemma SampleInRange(s: int, n: int)
    requires IsSeed(s) && n > 0
    ensures 0 <= s * n / WORD < n
  {
    assert (WORD - s) * n > 0 && s * n >= 0;
    assert (WORD - s) * n == WORD * n - s * n;
  }

  /** The index drawn from a seed: the seed as a fraction of 2^32, times n, rounded down. */
  function Sample(s: int, n: nat): (i: nat)
    requires IsSeed(s) && n > 0
    ensures i < n
  {
    SampleInRange(s, n);
    s * n / WORD
  }

  /** Index `i` is drawn exactly when the seed lies in the `i`-th of n equal parts of the words. */
  lemma SampleExactlyWhen(s: int, n: nat, i: nat)
    requires IsSeed(s) && n > 0
    ensures Sample(s, n) == i <==> i * WORD <= s * n < (i + 1) * WORD
  {
    var x := s * n;
    assert x == x / WORD * WORD + x % WORD;
  }

  // ---- the bootstrap ----

  function Number(x: bool): int {
    if x then 1 else 0
  }

  predicate IsDifference(d: seq<int>) {
    forall i | 0 <= i < |d| :: -1 <= d[i] <= 1
  }

  function Differences(a: seq<bool>, b: seq<bool>): (d: seq<int>)
    requires |a| == |b|
    ensures |d| == |a| && IsDifference(d)
  {
    seq(|a|, (i: nat) requires i < |a| => Number(b[i]) - Number(a[i]))
  }

  function Sum(d: seq<int>): int {
    if d == [] then 0 else Sum(d[..|d| - 1]) + d[|d| - 1]
  }

  function Count(d: seq<int>, x: int): nat {
    if d == [] then 0 else Count(d[..|d| - 1], x) + if d[|d| - 1] == x then 1 else 0
  }

  function SeedAfter(s: int, draws: nat): (s': int)
    requires IsSeed(s)
    ensures IsSeed(s')
  {
    if draws == 0 then s else NextSeed(SeedAfter(s, draws - 1))
  }

  /** The sum of `draws` draws with replacement. */
  function Total(d: seq<int>, s: int, draws: nat): int
    requires IsSeed(s) && d != []
  {
    if draws == 0 then 0 else Total(d, s, draws - 1) + d[Sample(SeedAfter(s, draws), |d|)]
  }

  /** The totals of the resamples, each going on where the one before left the generator. */
  function Totals(d: seq<int>, s: int, resamples: nat): (ts: seq<int>)
    requires IsSeed(s) && d != []
    ensures |ts| == resamples
  {
    if resamples == 0 then []
    else Totals(d, s, resamples - 1) + [Total(d, SeedAfter(s, (resamples - 1) * |d|), |d|)]
  }

  predicate Ascending(s: seq<int>) {
    forall i | 0 <= i < |s| - 1 :: s[i] <= s[i + 1]
  }

  function Insert(x: int, s: seq<int>): (r: seq<int>)
    requires Ascending(s)
    ensures Ascending(r) && |r| == |s| + 1 && r[0] == if s == [] || x <= s[0] then x else s[0]
    ensures multiset(r) == multiset(s) + multiset{x}
  {
    if s == [] || x <= s[0] then [x] + s
    else
      assert s == [s[0]] + s[1..];
      [s[0]] + Insert(x, s[1..])
  }

  function Sort(s: seq<int>): (r: seq<int>)
    ensures Ascending(r) && |r| == |s| && multiset(r) == multiset(s)
  {
    if s == [] then []
    else
      assert s == [s[0]] + s[1..];
      Insert(s[0], Sort(s[1..]))
  }

  /** The comparison; the means are the sorted totals over n. */
  datatype Comparison = Comparison(diff: real, lo: real, hi: real, wins: nat, losses: nat, ties: nat)

  function LowRank(resamples: nat): (r: nat)
    ensures 40 * r <= resamples < 40 * (r + 1)
  {
    25 * resamples / 1000
  }

  function HighRank(resamples: nat): (r: nat)
    ensures 40 * r <= 39 * resamples < 40 * (r + 1)
  {
    975 * resamples / 1000
  }

  // ---- the same, said of the answers and the draws ----

  /** How many of the numbers are less than `x`, and how many are not greater. */
  function Below(ts: seq<int>, x: int): nat {
    if ts == [] then 0 else (if ts[0] < x then 1 else 0) + Below(ts[1..], x)
  }

  function NotAbove(ts: seq<int>, x: int): nat {
    if ts == [] then 0 else (if ts[0] <= x then 1 else 0) + NotAbove(ts[1..], x)
  }

  /** In whatever order the numbers come, `x` is the one with `rank` of them before it. */
  predicate HasRank(ts: seq<int>, rank: nat, x: int) {
    Below(ts, x) <= rank < NotAbove(ts, x)
  }

  /** The question drawn by the `k`-th turn of the generator. */
  function Drawn(seed: int, n: nat, k: nat): (i: nat)
    requires n > 0
    ensures i < n
  {
    Sample(SeedAfter(ToUint32(seed), k + 1), n)
  }

  /** What resample `r` gains: the right answers of the second arm less those of the first, over its `n` draws. */
  function Gained(a: seq<bool>, b: seq<bool>, seed: int, r: nat): int
    requires |a| == |b| > 0
  {
    Sum(Gains(a, b, seed, r * |a|, |a|))
  }

  /** Draw by draw, after the first `m` draws. */
  function Gains(a: seq<bool>, b: seq<bool>, seed: int, m: nat, draws: nat): seq<int>
    requires |a| == |b| > 0
  {
    seq(draws, (i: nat) requires i < draws => GainOf(a, b, Drawn(seed, |a|, m + i)))
  }

  function GainOf(a: seq<bool>, b: seq<bool>, k: nat): int
    requires k < |a| == |b|
  {
    if b[k] && !a[k] then 1 else if a[k] && !b[k] then -1 else 0
  }

  function AllGained(a: seq<bool>, b: seq<bool>, seed: int, resamples: nat): (ts: seq<int>)
    requires |a| == |b| > 0
    ensures |ts| == resamples
  {
    seq(resamples, (r: nat) requires r < resamples => Gained(a, b, seed, r))
  }

  function Won(a: seq<bool>, b: seq<bool>): set<nat>
    requires |a| == |b|
  {
    set i: nat | i < |a| && b[i] && !a[i]
  }

  function Tied(a: seq<bool>, b: seq<bool>): set<nat>
    requires |a| == |b|
  {
    set i: nat | i < |a| && a[i] == b[i]
  }

  lemma {:induction false} InsertCounts(y: int, s: seq<int>, x: int)
    requires Ascending(s)
    ensures Below(Insert(y, s), x) == Below(s, x) + if y < x then 1 else 0
    ensures NotAbove(Insert(y, s), x) == NotAbove(s, x) + if y <= x then 1 else 0
    decreases |s|
  {
    if s == [] || y <= s[0] {
      assert ([y] + s)[1..] == s;
    } else {
      InsertCounts(y, s[1..], x);
      assert ([s[0]] + Insert(y, s[1..]))[1..] == Insert(y, s[1..]);
    }
  }

  lemma {:induction false} SortCounts(s: seq<int>, x: int)
    ensures Below(Sort(s), x) == Below(s, x) && NotAbove(Sort(s), x) == NotAbove(s, x)
    decreases |s|
  {
    if s != [] {
      SortCounts(s[1..], x);
      InsertCounts(s[0], Sort(s[1..]), x);
    }
  }

  lemma {:induction false} RankInSorted(s: seq<int>, k: nat, x: int)
    requires Ascending(s) && k < |s|
    ensures s[k] >= x ==> Below(s, x) <= k
    ensures s[k] <= x ==> k < NotAbove(s, x)
    decreases |s|
  {
    if k > 0 {
      RankInSorted(s[1..], k - 1, x);
      AscendingFar(s, 0, k);
    } else if s[0] >= x && |s| > 1 {
      assert s[0] <= s[0 + 1];
      RankInSorted(s[1..], 0, x);
    }
  }

  /** Sorting and looking up is taking the number of that rank. */
  lemma SortedHasRank(ts: seq<int>, k: nat)
    requires k < |ts|
    ensures HasRank(ts, k, Sort(ts)[k])
  {
    SortCounts(ts, Sort(ts)[k]);
    RankInSorted(Sort(ts), k, Sort(ts)[k]);
  }

  /** There is one number of a rank only. */
  lemma RankIsUnique(ts: seq<int>, k: nat, x: int, y: int)
    requires HasRank(ts, k, x) && HasRank(ts, k, y)
    ensures x == y
  {
    if x < y { NotAboveIsBelow(ts, x, y); }
    if y < x { NotAboveIsBelow(ts, y, x); }
  }

  lemma {:induction false} NotAboveIsBelow(ts: seq<int>, x: int, y: int)
    requires x < y
    ensures NotAbove(ts, x) <= Below(ts, y)
  {
    if ts != [] { NotAboveIsBelow(ts[1..], x, y); }
  }

  lemma DrawIsGain(a: seq<bool>, b: seq<bool>, seed: int, m: nat, i: nat)
    requires |a| == |b| > 0
    ensures Differences(a, b)[Sample(SeedAfter(SeedAfter(ToUint32(seed), m), i + 1), |a|)]
            == GainOf(a, b, Drawn(seed, |a|, m + i))
  {
    SeedAfterAdds(ToUint32(seed), m, i + 1);
  }

  lemma {:induction false} DrawsAreGains(a: seq<bool>, b: seq<bool>, seed: int, m: nat, draws: nat)
    requires |a| == |b| > 0
    ensures Total(Differences(a, b), SeedAfter(ToUint32(seed), m), draws) == Sum(Gains(a, b, seed, m, draws))
  {
    if draws > 0 {
      DrawsAreGains(a, b, seed, m, draws - 1);
      DrawIsGain(a, b, seed, m, draws - 1);
      assert Gains(a, b, seed, m, draws)[..draws - 1] == Gains(a, b, seed, m, draws - 1);
    }
  }

  lemma AllGainedNext(a: seq<bool>, b: seq<bool>, seed: int, r: nat)
    requires |a| == |b| > 0
    ensures AllGained(a, b, seed, r + 1) == AllGained(a, b, seed, r) + [Gained(a, b, seed, r)]
  {
  }

  lemma {:induction false} TotalsAreGained(a: seq<bool>, b: seq<bool>, seed: int, resamples: nat)
    requires |a| == |b| > 0
    ensures Totals(Differences(a, b), ToUint32(seed), resamples) == AllGained(a, b, seed, resamples)
  {
    if resamples > 0 {
      var r := resamples - 1;
      TotalsAreGained(a, b, seed, r);
      DrawsAreGains(a, b, seed, r * |a|, |a|);
      AllGainedNext(a, b, seed, r);
      assert Gained(a, b, seed, r) == Total(Differences(a, b), SeedAfter(ToUint32(seed), r * |a|), |a|);
    }
  }

  lemma {:induction false} CountIsASet(d: seq<int>, x: int)
    ensures Count(d, x) == |set i: nat | i < |d| && d[i] == x|
    decreases |d|
  {
    if d != [] {
      var n := |d| - 1;
      CountIsASet(d[..n], x);
      var init := set i: nat | i < n && d[..n][i] == x;
      assert (set i: nat | i < |d| && d[i] == x) == init + if d[n] == x then {n} else {};
    }
  }

  lemma CountsAreSets(a: seq<bool>, b: seq<bool>)
    requires |a| == |b|
    ensures var d := Differences(a, b);
            Count(d, 1) == |Won(a, b)| && Count(d, -1) == |Won(b, a)| && Count(d, 0) == |Tied(a, b)|
  {
    var d := Differences(a, b);
    CountIsASet(d, 1);
    CountIsASet(d, -1);
    CountIsASet(d, 0);
    assert Won(a, b) == set i: nat | i < |d| && d[i] == 1;
    assert Won(b, a) == set i: nat | i < |d| && d[i] == -1;
    assert Tied(a, b) == set i: nat | i < |d| && d[i] == 0;
  }

  /** `q` is the mean whose total has this rank among the totals of the resamples. */
  ghost predicate MeanOfRank(a: seq<bool>, b: seq<bool>, seed: int, resamples: nat, rank: nat, q: real)
    requires |a| == |b| > 0
  {
    exists t :: HasRank(AllGained(a, b, seed, resamples), rank, t) && q == Over(t, |a|)
  }

  lemma SortedMeanHasItsRank(a: seq<bool>, b: seq<bool>, seed: int, resamples: nat, rank: nat)
    requires |a| == |b| > 0 && rank < resamples
    ensures var sorted := Sort(Totals(Differences(a, b), ToUint32(seed), resamples));
            MeanOfRank(a, b, seed, resamples, rank, Over(sorted[rank], |a|))
  {
    TotalsAreGained(a, b, seed, resamples);
    SortedHasRank(AllGained(a, b, seed, resamples), rank);
  }

  /**
   * The comparison counts the questions that only the second arm, only the first, or both or neither got
   * right; the difference is wins less losses over all; and the bounds are the means at 2.5 % and 97.5 %.
   */
  ghost predicate Compares(a: seq<bool>, b: seq<bool>, seed: int, resamples: nat, c: Comparison)
    requires |a| == |b| > 0
  {
    && c.wins == |Won(a, b)| && c.losses == |Won(b, a)| && c.ties == |Tied(a, b)|
    && c.diff == Over(c.wins - c.losses, |a|)
    && MeanOfRank(a, b, seed, resamples, LowRank(resamples), c.lo)
    && MeanOfRank(a, b, seed, resamples, HighRank(resamples), c.hi)
  }

  lemma CountsCompare(a: seq<bool>, b: seq<bool>)
    requires |a| == |b|
    ensures var d := Differences(a, b);
            && Count(d, 1) == |Won(a, b)| && Count(d, -1) == |Won(b, a)| && Count(d, 0) == |Tied(a, b)|
            && Sum(d) == |Won(a, b)| - |Won(b, a)|
  {
    CountsAddUp(Differences(a, b));
    CountsAreSets(a, b);
  }

  /** Nothing to say without questions (every mean is a division by zero) or without resamples (no bounds). */
  method PairedDiff(a: seq<bool>, b: seq<bool>, resamples: nat, seed: int) returns (c: Option<Comparison>)
    requires |a| == |b|
    ensures c.None? <==> a == [] || resamples == 0
    ensures c.Some? ==>
              var d := Differences(a, b);
              var sorted := Sort(Totals(d, ToUint32(seed), resamples));
              && c.value.diff == Over(Sum(d), |d|)
              && c.value.lo == Over(sorted[LowRank(resamples)], |d|)
                  && c.value.hi == Over(sorted[HighRank(resamples)], |d|)
              && c.value.wins == Count(d, 1) && c.value.losses == Count(d, -1) && c.value.ties == Count(d, 0)
    ensures c.Some? ==> Compares(a, b, seed, resamples, c.value)
  {
    var d := Differences(a, b);
    var n := |d|;
    if n == 0 || resamples == 0 {
      return None;
    }
    var totals := Bootstrap(d, resamples, ToUint32(seed));
    var sorted := Sort(totals);
    c := Some(Comparison(Over(Sum(d), n), Over(sorted[LowRank(resamples)], n), Over(sorted[HighRank(resamples)], n),
                         Count(d, 1), Count(d, -1), Count(d, 0)));
    CountsCompare(a, b);
    SortedMeanHasItsRank(a, b, seed, resamples, LowRank(resamples));
    SortedMeanHasItsRank(a, b, seed, resamples, HighRank(resamples));
  }

  function Over(x: int, n: nat): (q: real)
    requires n > 0
    ensures q * n as real == x as real
  {
    x as real / n as real
  }

  method Bootstrap(d: seq<int>, resamples: nat, seed: int) returns (totals: seq<int>)
    requires d != [] && IsSeed(seed)
    ensures totals == Totals(d, seed, resamples)
  {
    var n, s := |d|, seed;
    totals := [];
    for r := 0 to resamples
      invariant s == SeedAfter(seed, r * n)
      invariant totals == Totals(d, seed, r)
    {
      var t := 0;
      ghost var start := s;
      for i := 0 to n
        invariant IsSeed(s) && s == SeedAfter(start, i) && t == Total(d, start, i)
      {
        s := NextSeed(s);
        t := t + d[Sample(s, n)];
      }
      SeedAfterAdds(seed, r * n, n);
      assert (r + 1) * n == r * n + n;
      totals := totals + [t];
    }
  }

  lemma {:induction false} SeedAfterAdds(s: int, m: nat, k: nat)
    requires IsSeed(s)
    ensures SeedAfter(SeedAfter(s, m), k) == SeedAfter(s, m + k)
  {
    if k > 0 {
      SeedAfterAdds(s, m, k - 1);
    }
  }

  // ---- what the numbers mean ----

  /** Every question is a win, a loss or a tie, and wins minus losses is the summed difference. */
  lemma {:induction false} CountsAddUp(d: seq<int>)
    requires IsDifference(d)
    ensures Count(d, 1) + Count(d, -1) + Count(d, 0) == |d|
    ensures Count(d, 1) - Count(d, -1) == Sum(d)
    decreases |d|
  {
    if d != [] {
      CountsAddUp(d[..|d| - 1]);
    }
  }

  lemma {:induction false} AscendingFar(s: seq<int>, i: nat, j: nat)
    requires Ascending(s) && i <= j < |s|
    ensures s[i] <= s[j]
    decreases j
  {
    if i < j { AscendingFar(s, i, j - 1); }
  }

  lemma {:induction false} TotalBetween(d: seq<int>, s: int, draws: nat, lo: int, hi: int)
    requires IsSeed(s) && d != [] && forall x | x in d :: lo <= x <= hi
    ensures lo * draws <= Total(d, s, draws) <= hi * draws
  {
    if draws > 0 {
      TotalBetween(d, s, draws - 1, lo, hi);
      assert d[Sample(SeedAfter(s, draws), |d|)] in d;
      assert lo * draws == lo * (draws - 1) + lo && hi * draws == hi * (draws - 1) + hi;
    }
  }

  lemma {:induction false} TotalsBetween(d: seq<int>, s: int, resamples: nat, lo: int, hi: int)
    requires IsSeed(s) && d != [] && forall x | x in d :: lo <= x <= hi
    ensures forall t | t in Totals(d, s, resamples) :: lo * |d| <= t <= hi * |d|
  {
    if resamples > 0 {
      TotalsBetween(d, s, resamples - 1, lo, hi);
      TotalBetween(d, SeedAfter(s, (resamples - 1) * |d|), |d|, lo, hi);
    }
  }

  lemma SortKeepsElements(s: seq<int>, i: nat)
    requires i < |s|
    ensures Sort(s)[i] in s
  {
    assert Sort(s)[i] in multiset(Sort(s));
  }

  lemma SortedTotalBetween(d: seq<int>, s: int, resamples: nat, lo: int, hi: int, i: nat)
    requires IsSeed(s) && d != [] && i < resamples && forall x | x in d :: lo <= x <= hi
    ensures lo * |d| <= Sort(Totals(d, s, resamples))[i] <= hi * |d|
  {
    SortKeepsElements(Totals(d, s, resamples), i);
    TotalsBetween(d, s, resamples, lo, hi);
  }

  lemma OverMonotone(x: int, y: int, n: nat)
    requires n > 0 && x <= y
    ensures Over(x, n) <= Over(y, n)
  {
  }

  lemma OverWhole(k: int, n: nat)
    requires n > 0
    ensures Over(k * n, n) == k as real
  {
    assert (k * n) as real == k as real * n as real;
  }

  /**
   * The interval is ordered and lies between the least and the greatest single difference: so within
   * [-1, 1], and two arms that answer alike give 0 and an interval of one point.
   */
  lemma IntervalIsBounded(d: seq<int>, s: int, resamples: nat, least: int, greatest: int)
    requires IsSeed(s) && d != [] && resamples > 0 && forall x | x in d :: least <= x <= greatest
    ensures var sorted := Sort(Totals(d, s, resamples));
            var lo, hi := Over(sorted[LowRank(resamples)], |d|), Over(sorted[HighRank(resamples)], |d|);
            least as real <= lo <= hi <= greatest as real
  {
    var sorted := Sort(Totals(d, s, resamples));
    var l, h := sorted[LowRank(resamples)], sorted[HighRank(resamples)];
    AscendingFar(sorted, LowRank(resamples), HighRank(resamples));
    SortedTotalBetween(d, s, resamples, least, greatest, LowRank(resamples));
    SortedTotalBetween(d, s, resamples, least, greatest, HighRank(resamples));
    OverWhole(least, |d|);
    OverWhole(greatest, |d|);
    OverMonotone(least * |d|, l, |d|);
    OverMonotone(l, h, |d|);
    OverMonotone(h, greatest * |d|, |d|);
  }

  // ---- swapping the arms ----

  function Negated(d: seq<int>): (r: seq<int>)
    ensures |r| == |d|
  {
    seq(|d|, (i: nat) requires i < |d| => -d[i])
  }

  lemma {:induction false} TotalNegated(d: seq<int>, s: int, draws: nat)
    requires IsSeed(s) && d != []
    ensures Total(Negated(d), s, draws) == -Total(d, s, draws)
  {
    if draws > 0 { TotalNegated(d, s, draws - 1); }
  }

  lemma NegatedAppend(ts: seq<int>, t: int)
    ensures Negated(ts + [t]) == Negated(ts) + [-t]
  {
  }

  lemma {:induction false} TotalsNegated(d: seq<int>, s: int, resamples: nat)
    requires IsSeed(s) && d != []
    ensures Totals(Negated(d), s, resamples) == Negated(Totals(d, s, resamples))
  {
    if resamples > 0 {
      var seed := SeedAfter(s, (resamples - 1) * |d|);
      TotalsNegated(d, s, resamples - 1);
      TotalNegated(d, seed, |d|);
      NegatedAppend(Totals(d, s, resamples - 1), Total(d, seed, |d|));
    }
  }

  lemma TailMultiset(s: seq<int>)
    requires s != []
    ensures multiset(s[1..]) == multiset(s) - multiset{s[0]}
  {
    assert s == [s[0]] + s[1..];
  }

  lemma LeastFirst(s: seq<int>, t: seq<int>)
    requires Ascending(s) && s != [] && t != [] && multiset(s) == multiset(t)
    ensures s[0] <= t[0]
  {
    assert t[0] in multiset(s);
    var j :| 0 <= j < |s| && s[j] == t[0];
    AscendingFar(s, 0, j);
  }

  lemma {:induction false} SortedIsUnique(s: seq<int>, t: seq<int>)
    requires Ascending(s) && Ascending(t) && |s| == |t| && multiset(s) == multiset(t)
    ensures s == t
    decreases |s|
  {
    if s != [] {
      LeastFirst(s, t);
      LeastFirst(t, s);
      TailMultiset(s);
      TailMultiset(t);
      SortedIsUnique(s[1..], t[1..]);
      assert s == [s[0]] + s[1..] && t == [t[0]] + t[1..];
    }
  }

  /** The negation of an ascending sequence, read backwards. */
  function Mirror(s: seq<int>): (r: seq<int>)
    ensures |r| == |s|
  {
    seq(|s|, (i: nat) requires i < |s| => -s[|s| - 1 - i])
  }

  lemma {:induction false} MirrorMultiset(s: seq<int>)
    ensures forall x :: multiset(Mirror(s))[x] == multiset(s)[-x]
    decreases |s|
  {
    if s != [] {
      MirrorMultiset(s[1..]);
      assert s == [s[0]] + s[1..];
      assert Mirror(s) == Mirror(s[1..]) + [-s[0]];
    }
  }

  lemma {:induction false} NegatedMultiset(s: seq<int>)
    ensures forall x :: multiset(Negated(s))[x] == multiset(s)[-x]
    decreases |s|
  {
    if s != [] {
      NegatedMultiset(s[1..]);
      assert s == [s[0]] + s[1..];
      assert Negated(s) == [-s[0]] + Negated(s[1..]);
    }
  }

  lemma MirrorAscends(s: seq<int>)
    requires Ascending(s)
    ensures Ascending(Mirror(s))
  {
    forall i | 0 <= i < |s| - 1 ensures Mirror(s)[i] <= Mirror(s)[i + 1] {
      assert s[|s| - 2 - i] <= s[|s| - 2 - i + 1];
    }
  }

  lemma SameCounts(s: seq<int>, t: seq<int>)
    requires multiset(s) == multiset(t)
    ensures multiset(Negated(s)) == multiset(Mirror(t))
  {
    NegatedMultiset(s);
    MirrorMultiset(t);
    forall x ensures multiset(Negated(s))[x] == multiset(Mirror(t))[x] {
    }
  }

  lemma SortNegated(s: seq<int>)
    ensures Sort(Negated(s)) == Mirror(Sort(s))
  {
    var t, n := Sort(s), Sort(Negated(s));
    SameCounts(s, t);
    MirrorAscends(t);
    SortedIsUnique(n, Mirror(t));
  }

  /** What swapping the arms should do to the interval: the bounds change places and sign. */
  predicate IntervalMirrors(sorted: seq<int>, swapped: seq<int>)
    requires |sorted| == |swapped| > 0
  {
    var low, high := LowRank(|sorted|), HighRank(|sorted|);
    swapped[low] == -sorted[high] && swapped[high] == -sorted[low]
  }

  /** The two ranks are equally far from the two ends exactly when the number of resamples is no multiple of 40. */
  lemma RanksMirrorExactlyWhen(resamples: nat)
    requires resamples > 0
    ensures LowRank(resamples) + HighRank(resamples) == resamples - 1 <==> resamples % 40 != 0
    ensures resamples % 40 == 0 ==> LowRank(resamples) + HighRank(resamples) == resamples
  {
    var q, r := resamples / 40, resamples % 40;
    assert 25 * resamples == 1000 * q + 25 * r && 975 * resamples == 1000 * (39 * q) + 975 * r;
    assert LowRank(resamples) == q && HighRank(resamples) == 39 * q + 975 * r / 1000;
  }

  /**
   * The interval is mirrored when the number of resamples is no multiple of 40. For a multiple, both
   * bounds of the swapped interval are taken one rank higher, and it is mirrored exactly when each
   * bound ties with its lower neighbour.
   */
  predicate MirrorsUpToRanks(sorted: seq<int>, swapped: seq<int>)
    requires |sorted| == |swapped| > 0
  {
    var low, high := LowRank(|sorted|), HighRank(|sorted|);
    if |sorted| % 40 != 0 then IntervalMirrors(sorted, swapped)
    else
      && 0 < low <= high && -sorted[high] <= swapped[low] && -sorted[low] <= swapped[high]
      && (IntervalMirrors(sorted, swapped) <==> sorted[high - 1] == sorted[high] && sorted[low - 1] == sorted[low])
  }

  /** With the arms swapped the same seed draws the mirror image of every resample, and so it goes for the interval. */
  lemma SwappingArmsMirrors(a: seq<bool>, b: seq<bool>, s: int, resamples: nat)
    requires |a| == |b| > 0 && IsSeed(s) && resamples > 0
    ensures Differences(b, a) == Negated(Differences(a, b))
    ensures var sorted := Sort(Totals(Differences(a, b), s, resamples));
            var swapped := Sort(Totals(Differences(b, a), s, resamples));
            swapped == Mirror(sorted) && MirrorsUpToRanks(sorted, swapped)
  {
    var d := Differences(a, b);
    assert Differences(b, a) == Negated(d);
    TotalsNegated(d, s, resamples);
    SortNegated(Totals(d, s, resamples));
    RanksOfMirror(Sort(Totals(d, s, resamples)));
  }

  lemma RanksOfMirror(sorted: seq<int>)
    requires Ascending(sorted) && sorted != []
    ensures MirrorsUpToRanks(sorted, Mirror(sorted))
  {
    var n := |sorted|;
    RanksMirrorExactlyWhen(n);
    if n % 40 == 0 {
      assert sorted[HighRank(n) - 1] <= sorted[HighRank(n) - 1 + 1];
      assert sorted[LowRank(n) - 1] <= sorted[LowRank(n) - 1 + 1];
    }
  }

  // ---- an input whose interval does not mirror ----

  /** Two questions; the second arm is right on one more than the first. */
  const NEITHER := [false, false]
  const ONE_RIGHT := [true, false]

  /** One turn of the generator. */
  predicate Link(s: int, t: int) {
    IsSeed(s) && t == (1664525 * s + 1013904223) % 0x1_0000_0000
  }

  /** Two draws that both fall on the first of two questions. */
  function Bit(s: int, t: int): nat {
    if s < 0x8000_0000 && t < 0x8000_0000 then 1 else 0
  }

  /** How many of the first `r` resamples drew the won question twice. */
  function Twice(seed: int, r: nat): nat
    requires IsSeed(seed)
  {
    Count(Totals(Differences(NEITHER, ONE_RIGHT), seed, r), 2)
  }

  lemma TwoDraws(s: int)
    requires IsSeed(s)
    ensures var s1 := NextSeed(s);
            && SeedAfter(s, 2) == NextSeed(s1)
            && (Total(Differences(NEITHER, ONE_RIGHT), s, 2) == 2 <==> Bit(s1, NextSeed(s1)) == 1)
  {
    var d, s1, s2 := Differences(NEITHER, ONE_RIGHT), NextSeed(s), NextSeed(NextSeed(s));
    assert SeedAfter(s, 0) == s && SeedAfter(s, 1) == s1 && SeedAfter(s, 2) == s2;
    assert Sample(s1, 2) == (if s1 < 0x8000_0000 then 0 else 1) && Sample(s2, 2) == (if s2 < 0x8000_0000 then 0 else 1);
    assert d[0] == 1 && d[1] == 0;
    assert Total(d, s, 0) == 0 && Total(d, s, 1) == d[Sample(s1, 2)];
    assert Total(d, s, 2) == d[Sample(s1, 2)] + d[Sample(s2, 2)];
  }

  lemma NextResample(seed: int, r: nat)
    requires IsSeed(seed)
    ensures var s1 := NextSeed(SeedAfter(seed, r * 2));
            && SeedAfter(seed, (r + 1) * 2) == NextSeed(s1)
            && Twice(seed, r + 1) == Twice(seed, r) + Bit(s1, NextSeed(s1))
  {
    var d, s := Differences(NEITHER, ONE_RIGHT), SeedAfter(seed, r * 2);
    TwoDraws(s);
    SeedAfterAdds(seed, r * 2, 2);
    var totals := Totals(d, seed, r + 1);
    assert totals == Totals(d, seed, r) + [Total(d, s, 2)] && totals[..r] == Totals(d, seed, r);
  }

  lemma LinkIsATurn(s: int, t: int)
    requires Link(s, t)
    ensures NextSeed(s) == t
  {
    NextSeedIsLinear(s);
  }

  /** A stretch of the generator's values, two to a resample after the first. */
  predicate Stretch(ss: seq<int>)
    decreases |ss|
  {
    |ss| >= 3 ==> Link(ss[0], ss[1]) && Link(ss[1], ss[2]) && Stretch(ss[2..])
  }

  function Bits(ss: seq<int>): nat
    decreases |ss|
  {
    if |ss| < 3 then 0 else Bit(ss[1], ss[2]) + Bits(ss[2..])
  }

  lemma FollowOne(seed: int, r: nat, s: int, t: int, u: int)
    requires IsSeed(seed) && SeedAfter(seed, r * 2) == s && Link(s, t) && Link(t, u)
    ensures SeedAfter(seed, (r + 1) * 2) == u && Twice(seed, r + 1) == Twice(seed, r) + Bit(t, u)
  {
    LinkIsATurn(s, t);
    LinkIsATurn(t, u);
    NextResample(seed, r);
  }

  lemma {:induction false} FollowStretch(seed: int, r: nat, ss: seq<int>)
    requires IsSeed(seed) && |ss| % 2 == 1 && Stretch(ss) && SeedAfter(seed, r * 2) == ss[0]
    ensures Twice(seed, r + |ss| / 2) == Twice(seed, r) + Bits(ss)
    decreases |ss|
  {
    if |ss| >= 3 {
      FollowOne(seed, r, ss[0], ss[1], ss[2]);
      FollowStretch(seed, r + 1, ss[2..]);
      assert r + 1 + |ss[2..]| / 2 == r + |ss| / 2;
    }
  }

  lemma {:induction false} StretchesJoin(ss: seq<int>, more: seq<int>, n: nat)
    requires |ss| == 2 * n + 1 && more != [] && ss[|ss| - 1] == more[0] && Stretch(ss) && Stretch(more)
    ensures Stretch(ss + more[1..]) && Bits(ss + more[1..]) == Bits(ss) + Bits(more)
  {
    if n == 0 {
      OneJoins(ss, more);
    } else {
      StretchesJoin(ss[2..], more, n - 1);
      StretchGoesOn(ss, more[1..]);
    }
  }

  lemma OneJoins(ss: seq<int>, more: seq<int>)
    requires |ss| == 1 && more != [] && ss[0] == more[0]
    ensures ss + more[1..] == more && Bits(ss) == 0
  {
  }

  lemma StretchGoesOn(ss: seq<int>, more: seq<int>)
    requires |ss| >= 3 && Stretch(ss) && Stretch(ss[2..] + more)
    ensures Stretch(ss + more) && Bits(ss + more) == Bit(ss[1], ss[2]) + Bits(ss[2..] + more)
  {
    assert (ss + more)[2..] == ss[2..] + more;
    assert (ss + more)[0] == ss[0] && (ss + more)[1] == ss[1] && (ss + more)[2] == ss[2];
  }

  lemma Stretch1() returns (ss: seq<int>)
    ensures |ss| == 9 && Stretch(ss) && Bits(ss) == 0 && ss[0] == 23413 && ss[8] == 2273454525
  {
    ss := [23413, 1330722384, 3976369519, 3841049602, 1426109305, 1540048516, 3334348819, 918103638, 2273454525];
  }

  lemma Stretch2() returns (ss: seq<int>)
    ensures |ss| == 9 && Stretch(ss) && Bits(ss) == 0 && ss[0] == 2273454525 && ss[8] == 868598021
  {
    ss := [2273454525, 237068280, 2677383927, 3759514602, 1051820609, 3719394988, 3397812763, 3518845118,
           868598021];
  }

  lemma Stretch3() returns (ss: seq<int>)
    ensures |ss| == 9 && Stretch(ss) && Bits(ss) == 0 && ss[0] == 868598021 && ss[8] == 772030797
  {
    ss := [868598021, 2178858656, 844259711, 584941778, 3615762953, 4056263636, 228795683, 2398013478, 772030797];
  }

  lemma Stretch4() returns (ss: seq<int>)
    ensures |ss| == 9 && Stretch(ss) && Bits(ss) == 1 && ss[0] == 772030797 && ss[8] == 3868904085
  {
    ss := [772030797, 2771382856, 1668215047, 113834682, 615762641, 2328397308, 1134307627, 3908512910,
           3868904085];
  }

  lemma Stretch5() returns (ss: seq<int>)
    ensures |ss| == 9 && Stretch(ss) && Bits(ss) == 0 && ss[0] == 3868904085 && ss[8] == 4186602717
  {
    ss := [3868904085, 1737464560, 3622138255, 3041636770, 4074734745, 2475599140, 2969415219, 1337204214,
           4186602717];
  }

  lemma Stretch6() returns (ss: seq<int>)
    ensures |ss| == 9 && Stretch(ss) && Bits(ss) == 0 && ss[0] == 4186602717 && ss[8] == 2734192677
  {
    ss := [4186602717, 1204574360, 4092855063, 642598282, 3263854433, 4051741004, 1272435771, 3468115038,
           2734192677];
  }

  lemma Stretch7() returns (ss: seq<int>)
    ensures |ss| == 9 && Stretch(ss) && Bits(ss) == 0 && ss[0] == 2734192677 && ss[8] == 3282951277
  {
    ss := [2734192677, 1049152320, 3281831327, 4004075122, 1151058729, 3608883828, 3963534147, 2210801606,
           3282951277];
  }

  lemma Stretch8() returns (ss: seq<int>)
    ensures |ss| == 9 && Stretch(ss) && Bits(ss) == 0 && ss[0] == 3282951277 && ss[8] == 1972881845
  {
    ss := [3282951277, 4173042408, 4079343911, 3736044634, 1725859825, 1718542492, 2362082123, 3847913518,
           1972881845];
  }

  lemma Stretch9() returns (ss: seq<int>)
    ensures |ss| == 9 && Stretch(ss) && Bits(ss) == 0 && ss[0] == 1972881845 && ss[8] == 809983997
  {
    ss := [1972881845, 1647267728, 3617152431, 1889759042, 4035044793, 2745193412, 2601995347, 3642877334,
           809983997];
  }

  lemma Stretch10() returns (ss: seq<int>)
    ensures |ss| == 9 && Stretch(ss) && Bits(ss) == 0 && ss[0] == 809983997 && ss[8] == 2104606533
  {
    ss := [809983997, 2147655992, 2269475639, 121419562, 2929261697, 3077057516, 1480930907, 2591946750,
           2104606533];
  }

  lemma Joined(ss: seq<int>, more: seq<int>, n: nat) returns (all: seq<int>)
    requires |ss| == 2 * n + 1 && more != [] && ss[|ss| - 1] == more[0] && Stretch(ss) && Stretch(more)
    ensures |all| == |ss| + |more| - 1 && all[0] == ss[0] && all[|all| - 1] == more[|more| - 1]
    ensures Stretch(all) && Bits(all) == Bits(ss) + Bits(more)
  {
    StretchesJoin(ss, more, n);
    all := ss + more[1..];
  }

  /** The first values the seed 23413 leads to; among them is one resample with two draws of the won question. */
  lemma First17() returns (ss: seq<int>)
    ensures |ss| == 17 && Stretch(ss) && Bits(ss) == 0 && ss[0] == 23413 && ss[16] == 868598021
  {
    ss := Stretch1();
    var more := Stretch2();
    ss := Joined(ss, more, 4);
  }

  lemma First33() returns (ss: seq<int>)
    ensures |ss| == 33 && Stretch(ss) && Bits(ss) == 1 && ss[0] == 23413 && ss[32] == 3868904085
  {
    ss := First17();
    var more := Stretch3();
    ss := Joined(ss, more, 8);
    more := Stretch4();
    ss := Joined(ss, more, 12);
  }

  lemma First49() returns (ss: seq<int>)
    ensures |ss| == 49 && Stretch(ss) && Bits(ss) == 1 && ss[0] == 23413 && ss[48] == 2734192677
  {
    ss := First33();
    var more := Stretch5();
    ss := Joined(ss, more, 16);
    more := Stretch6();
    ss := Joined(ss, more, 20);
  }

  lemma First65() returns (ss: seq<int>)
    ensures |ss| == 65 && Stretch(ss) && Bits(ss) == 1 && ss[0] == 23413 && ss[64] == 1972881845
  {
    ss := First49();
    var more := Stretch7();
    ss := Joined(ss, more, 24);
    more := Stretch8();
    ss := Joined(ss, more, 28);
  }

  lemma First81() returns (ss: seq<int>)
    ensures |ss| == 81 && Stretch(ss) && Bits(ss) == 1 && ss[0] == 23413 && ss[80] == 2104606533
  {
    ss := First65();
    var more := Stretch9();
    ss := Joined(ss, more, 32);
    more := Stretch10();
    ss := Joined(ss, more, 36);
  }

  lemma FortyResamples(seed: int, resamples: nat)
    requires seed == 23413 && resamples == 40
    ensures Count(Totals(Differences(NEITHER, ONE_RIGHT), seed, resamples), 2) == 1
  {
    var ss := First81();
    var r := resamples - 40;
    assert Twice(seed, r) == 0 && SeedAfter(seed, r * 2) == seed;
    FollowStretch(seed, r, ss);
  }

  lemma {:induction false} CountIsMultiplicity(s: seq<int>, x: int)
    ensures Count(s, x) == multiset(s)[x]
    decreases |s|
  {
    if s != [] {
      CountIsMultiplicity(s[..|s| - 1], x);
      assert s == s[..|s| - 1] + [s[|s| - 1]];
    }
  }

  lemma {:induction false} NoneAsGreat(s: seq<int>, x: int)
    requires forall i | 0 <= i < |s| :: s[i] < x
    ensures Count(s, x) == 0
    decreases |s|
  {
    if s != [] {
      NoneAsGreat(s[..|s| - 1], x);
    }
  }

  /** A value that occurs once and is the greatest stands alone at the end. */
  lemma GreatestStandsAlone(s: seq<int>, x: int)
    requires |s| >= 2 && Ascending(s) && Count(s, x) == 1 && s[|s| - 1] <= x
    ensures s[|s| - 2] < s[|s| - 1] == x
  {
    var init := s[..|s| - 1];
    assert s[|s| - 2] <= s[|s| - 2 + 1] && init[|init| - 1] == s[|s| - 2];
    if s[|s| - 1] < x {
      forall i | 0 <= i < |s| ensures s[i] < x { AscendingFar(s, i, |s| - 1); }
      NoneAsGreat(s, x);
    }
  }

  lemma SortKeepsCounts(s: seq<int>, x: int)
    ensures Count(Sort(s), x) == Count(s, x)
  {
    CountIsMultiplicity(s, x);
    CountIsMultiplicity(Sort(s), x);
  }

  lemma GreatestOfSorted(s: seq<int>, x: int)
    requires |s| >= 2 && Count(s, x) == 1 && Sort(s)[|s| - 1] <= x
    ensures Sort(s)[|s| - 2] < Sort(s)[|s| - 1]
  {
    SortKeepsCounts(s, x);
    GreatestStandsAlone(Sort(s), x);
  }

  /** Why a multiple of 40 matters: here the upper bound, negated, is not the lower bound of the swapped interval. */
  lemma SwappedIntervalDoesNotMirror(seed: int, resamples: nat)
    requires seed == 23413 && resamples == 40
    ensures var sorted := Sort(Totals(Differences(NEITHER, ONE_RIGHT), seed, resamples));
            var swapped := Sort(Totals(Differences(ONE_RIGHT, NEITHER), seed, resamples));
            sorted[HighRank(resamples) - 1] < sorted[HighRank(resamples)] && !IntervalMirrors(sorted, swapped)
  {
    SwappingArmsMirrors(NEITHER, ONE_RIGHT, seed, resamples);
    GreatestTotalStandsAlone(seed, resamples);
  }

  lemma GreatestTotalStandsAlone(seed: int, resamples: nat)
    requires seed == 23413 && resamples == 40
    ensures var sorted := Sort(Totals(Differences(NEITHER, ONE_RIGHT), seed, resamples));
            sorted[resamples - 2] < sorted[resamples - 1]
  {
    var d := Differences(NEITHER, ONE_RIGHT);
    FortyResamples(seed, resamples);
    SortedTotalBetween(d, seed, resamples, 0, 1, resamples - 1);
    GreatestOfSorted(Totals(d, seed, resamples), 2);
  }
}
