/**
 * Which installed packages leave the binary together with the ones deliberately not bundled? The
 * in-place loop of the licence inventory, and what its result means for the dependency graph.
 */
module LicenseClosure {

  datatype Graph = Graph(installed: seq<string>, pulledBy: map<string, seq<string>>)

  function Parents(g: Graph, name: string): seq<string> {
    if name in g.pulledBy then g.pulledBy[name] else []
  }

  /** Reached only through packages in `s`. */
  predicate LeavesWith(g: Graph, s: set<string>, name: string) {
    Parents(g, name) != [] && forall p | p in Parents(g, name) :: p in s
  }

  predicate Closed(g: Graph, named: set<string>, s: set<string>) {
    forall n | n in g.installed :: n in named || LeavesWith(g, s, n) ==> n in s
  }

  /** The smallest closed set. */
  ghost predicate IsClosure(g: Graph, named: set<string>, s: set<string>) {
    Closed(g, named, s) && InEveryClosedSet(g, named, s)
  }

  ghost predicate InEveryClosedSet(g: Graph, named: set<string>, s: set<string>) {
    forall t: set<string> :: Closed(g, named, t) ==> s <= t
  }

  lemma WhatLeavesIsInEveryClosedSet(g: Graph, named: set<string>, s: set<string>, n: string)
    requires InEveryClosedSet(g, named, s) && n in g.installed && LeavesWith(g, s, n)
    ensures InEveryClosedSet(g, named, s + {n})
  {
    forall t: set<string> | Closed(g, named, t) ensures s + {n} <= t {
      assert LeavesWith(g, t, n);
    }
  }

  /**
   * `named` is the inventory's NOT_BUNDLED table. Grows `excluded` while scanning the installed
   * packages, in any order, until a whole pass adds nothing; every pass but the last adds a package,
   * so there is at most one more pass than packages.
   */
  method NotBundledClosure(g: Graph, named: set<string>) returns (excluded: set<string>, passes: nat)
    ensures IsClosure(g, named, excluded)
    ensures forall n | n in excluded :: n in g.installed
    ensures passes <= |set n | n in g.installed| + 1
  {
    excluded := set n | n in named && n in g.installed;
    ghost var all := set n | n in g.installed;
    passes := 0;
    var changed := true;
    while changed
      invariant excluded <= all
      invariant forall n | n in g.installed && n in named :: n in excluded
      invariant InEveryClosedSet(g, named, excluded)
      invariant !changed ==> Closed(g, named, excluded)
      invariant passes <= |excluded| + if changed then 0 else 1
      decreases |all - excluded|, changed
    {
      changed := false;
      ghost var before := excluded;
      for i := 0 to |g.installed|
        invariant before <= excluded <= all
        invariant InEveryClosedSet(g, named, excluded)
        invariant changed <==> before != excluded
        invariant !changed ==>
                    forall j | 0 <= j < i :: LeavesWith(g, before, g.installed[j]) ==> g.installed[j] in before
      {
        var name := g.installed[i];
        if name !in excluded && LeavesWith(g, excluded, name) {
          WhatLeavesIsInEveryClosedSet(g, named, excluded, name);
          excluded := excluded + {name};
          changed := true;
        }
      }
      GrewByAtLeastOne(before, excluded, all);
      passes := passes + 1;
    }
    SubsetNotLarger(excluded, all);
  }

  lemma SubsetNotLarger(a: set<string>, b: set<string>)
    requires a <= b
    ensures |a| <= |b|
  {
    assert b == a + (b - a);
  }

  lemma GrewByAtLeastOne(a: set<string>, b: set<string>, all: set<string>)
    requires a <= b <= all
    ensures a != b ==> |b| >= |a| + 1 && |all - b| < |all - a|
  {
    if a != b {
      assert b == a + (b - a) && all - a == (all - b) + (b - a);
      assert b - a != {};
    }
  }

  /** The result does not depend on the order in which the packages are scanned. */
  lemma ClosureIsUnique(g: Graph, h: Graph, named: set<string>, s: set<string>, t: set<string>)
    requires IsClosure(g, named, s) && IsClosure(h, named, t)
    requires g.pulledBy == h.pulledBy && forall n :: n in g.installed <==> n in h.installed
    ensures s == t
  {
    assert Closed(g, named, t) && Closed(h, named, s);
  }

  /**
   * Nothing is excluded without a reason: an excluded package is named, or it is pulled in and only by
   * excluded ones.
   */
  lemma ExcludedForAReason(g: Graph, named: set<string>, s: set<string>, n: string)
    requires IsClosure(g, named, s) && n in s
    ensures n in g.installed && (n in named || LeavesWith(g, s, n))
  {
    if !(n in g.installed && (n in named || LeavesWith(g, s, n))) {
      var t := s - {n};
      forall m | m in g.installed && (m in named || LeavesWith(g, t, m)) ensures m in t {
        if m !in named { assert LeavesWith(g, s, m); }
      }
      assert Closed(g, named, t);
    }
  }

  /** So a package nobody named stays in the binary when nothing pulls it in, or when something that stays does. */
  lemma KeptExactlyWhenSupported(g: Graph, named: set<string>, s: set<string>, n: string)
    requires IsClosure(g, named, s) && n in g.installed && n !in named
    ensures n !in s <==> Parents(g, n) == [] || exists p :: p in Parents(g, n) && p !in s
  {
    if n in s { ExcludedForAReason(g, named, s, n); }
  }

  // ---- reachability ----

  /** A chain of dependencies: each package is pulled in by the one before it. */
  predicate Path(g: Graph, p: seq<string>) {
    p != [] && forall i | 0 < i < |p| :: p[i] in g.installed && p[i - 1] in Parents(g, p[i])
  }

  predicate Unnamed(named: set<string>, p: seq<string>) {
    forall i | 0 <= i < |p| :: p[i] !in named
  }

  /** Soundness: whatever a kept package pulls in, directly or through others that nobody named, is kept. */
  lemma {:induction false} ReachedFromKeptIsKept(g: Graph, named: set<string>, s: set<string>, p: seq<string>)
    requires IsClosure(g, named, s) && Path(g, p) && Unnamed(named, p[1..]) && p[0] !in s
    ensures p[|p| - 1] !in s
    decreases |p|
  {
    if |p| > 1 {
      var init := p[..|p| - 1];
      assert forall i | 0 <= i < |init| - 1 :: init[1..][i] == p[1..][i];
      ReachedFromKeptIsKept(g, named, s, init);
      assert p[1..][|p| - 2] == p[|p| - 1];
      KeptExactlyWhenSupported(g, named, s, p[|p| - 1]);
    }
  }

  /** Somewhere to start counting from: parents are installed and come before what they pull in. */
  ghost predicate Acyclic(g: Graph, rank: string -> nat) {
    forall n, p | n in g.installed && p in Parents(g, n) :: p in g.installed && rank(p) < rank(n)
  }

  predicate RootPath(g: Graph, named: set<string>, p: seq<string>, n: string) {
    Path(g, p) && Unnamed(named, p) && p[0] in g.installed && Parents(g, p[0]) == [] && p[|p| - 1] == n
  }

  lemma {:induction false} KeptHasARootPath(g: Graph, named: set<string>, s: set<string>, rank: string -> nat,
      n: string)
    returns (p: seq<string>)
    requires IsClosure(g, named, s) && Acyclic(g, rank) && n in g.installed && n !in s
    ensures RootPath(g, named, p, n)
    decreases rank(n)
  {
    assert n !in named;
    if Parents(g, n) == [] {
      p := [n];
    } else {
      KeptExactlyWhenSupported(g, named, s, n);
      var parent :| parent in Parents(g, n) && parent !in s;
      var up := KeptHasARootPath(g, named, s, rank, parent);
      p := up + [n];
    }
  }

  /** On an acyclic graph the rule is exactly reachability from a top-level package along packages nobody named. */
  lemma KeptExactlyWhenReachable(g: Graph, named: set<string>, s: set<string>, rank: string -> nat, n: string)
    requires IsClosure(g, named, s) && Acyclic(g, rank) && n in g.installed
    ensures n !in s <==> exists p :: RootPath(g, named, p, n)
  {
    if n !in s {
      var p := KeptHasARootPath(g, named, s, rank, n);
    }
    if p :| RootPath(g, named, p, n) {
      KeptExactlyWhenSupported(g, named, s, p[0]);
      assert Unnamed(named, p[1..]);
      ReachedFromKeptIsKept(g, named, s, p);
    }
  }

  /**
   * Without acyclicity the second half fails: packages nobody named that pull each other in are all
   * kept, even when nothing else pulls any of them in.
   */
  lemma CycleIsKept(g: Graph, named: set<string>, s: set<string>, cycle: set<string>)
    requires IsClosure(g, named, s) && cycle !! named
    requires forall n | n in cycle :: exists p :: p in Parents(g, n) && p in cycle
    ensures cycle !! s
  {
    var t := s - cycle;
    forall n | n in g.installed && (n in named || LeavesWith(g, t, n)) ensures n in t {
      if n !in named { assert LeavesWith(g, s, n); }
    }
    assert Closed(g, named, t);
  }
}
