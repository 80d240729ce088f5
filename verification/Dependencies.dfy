/** Occurrence counts in sequences of node indices. */
module Occurrences {

  function Occ(s: seq<nat>, x: nat): nat {
    if s == [] then 0 else Occ(s[..|s| - 1], x) + (if s[|s| - 1] == x then 1 else 0)
  }

  lemma {:induction false} OccSplit(a: seq<nat>, b: seq<nat>, x: nat)
    ensures Occ(a + b, x) == Occ(a, x) + Occ(b, x)
  {
    if b == [] {
      assert a + b == a;
    } else {
      assert (a + b)[..|a + b| - 1] == a + b[..|b| - 1];
      OccSplit(a, b[..|b| - 1], x);
    }
  }

  lemma OccPrefix(s: seq<nat>, k: nat, x: nat)
    requires k < |s|
    ensures Occ(s[..k + 1], x) == Occ(s[..k], x) + (if s[k] == x then 1 else 0)
    ensures Occ(s[..k + 1], x) <= Occ(s, x)
  {
    assert s[..k + 1][..k] == s[..k];
    OccSplit(s[..k + 1], s[k + 1..], x);
    assert s[..k + 1] + s[k + 1..] == s;
  }

  lemma OccWithin(s: seq<nat>, k: nat, x: nat)
    requires k <= |s|
    ensures Occ(s[..k], x) <= Occ(s, x)
  {
    OccSplit(s[..k], s[k..], x);
    assert s[..k] + s[k..] == s;
  }

  lemma {:induction false} OccIn(s: seq<nat>, x: nat)
    ensures Occ(s, x) > 0 <==> x in s
  {
    if s != [] {
      OccIn(s[..|s| - 1], x);
      assert x in s <==> x in s[..|s| - 1] || x == s[|s| - 1];
    }
  }

  /** How many entries of s are below m. */
  function OccBelow(s: seq<nat>, m: nat): nat {
    if m == 0 then 0 else OccBelow(s, m - 1) + Occ(s, m - 1)
  }

  lemma {:induction false} OccBelowSnoc(s: seq<nat>, m: nat)
    requires s != []
    ensures OccBelow(s, m) == OccBelow(s[..|s| - 1], m) + (if s[|s| - 1] < m then 1 else 0)
  {
    if m > 0 {
      OccBelowSnoc(s, m - 1);
    }
  }

  lemma {:induction false} OccBelowAll(s: seq<nat>, m: nat)
    requires forall i :: 0 <= i < |s| ==> s[i] < m
    ensures OccBelow(s, m) == |s|
  {
    if s == [] {
      NoneBelow(m);
    } else {
      OccBelowAll(s[..|s| - 1], m);
      OccBelowSnoc(s, m);
    }
  }

  lemma {:induction false} NoneBelow(m: nat)
    ensures OccBelow([], m) == 0
  {
    if m > 0 {
      NoneBelow(m - 1);
    }
  }
}

/** Dependency lists by node index: their inverse, and when they are free of cycles. */
module Dependencies {
  import opened Occurrences

  ghost predicate InRange(deps: seq<seq<nat>>) {
    forall j, k :: 0 <= j < |deps| && 0 <= k < |deps[j]| ==> deps[j][k] < |deps|
  }

  /** Every node depends on nodes before it only. */
  ghost predicate EarlierOnly(deps: seq<seq<nat>>) {
    forall j, k :: 0 <= j < |deps| && 0 <= k < |deps[j]| ==> deps[j][k] < j
  }

  // ---------------------------------------------------------------- the inverse lists

  /** succ[i] names j as often as deps[j] names i. */
  ghost predicate Inverse(deps: seq<seq<nat>>, succ: seq<seq<nat>>) {
    && |succ| == |deps|
    && (forall i, k :: 0 <= i < |succ| && 0 <= k < |succ[i]| ==> succ[i][k] < |succ|)
    && forall i, j :: 0 <= i < |succ| && 0 <= j < |deps| ==> Occ(succ[i], j) == Occ(deps[j], i)
  }

  /** Nodes below i, and the first k dependencies of node i, have been filed. */
  ghost predicate Filed(deps: seq<seq<nat>>, succ: seq<seq<nat>>, i: nat, k: nat) {
    && |succ| == |deps| && i <= |deps| && (i < |deps| ==> k <= |deps[i]|)
    && (forall x, e :: 0 <= x < |succ| && 0 <= e < |succ[x]| ==> succ[x][e] < |deps|)
    && forall x, j :: 0 <= x < |succ| && 0 <= j < |deps| ==> Occ(succ[x], j) == FiledCount(deps, x, j, i, k)
  }

  function FiledCount(deps: seq<seq<nat>>, x: nat, j: nat, i: nat, k: nat): nat
    requires j < |deps|
  {
    if j < i then Occ(deps[j], x)
    else if j == i && k <= |deps[j]| then Occ(deps[j][..k], x)
    else 0
  }

  lemma FileOne(deps: seq<seq<nat>>, succ: seq<seq<nat>>, i: nat, k: nat)
    requires InRange(deps) && i < |deps| && k < |deps[i]| && Filed(deps, succ, i, k)
    ensures var d := deps[i][k]; Filed(deps, succ[d := succ[d] + [i]], i, k + 1)
  {
    var d := deps[i][k];
    var succ' := succ[d := succ[d] + [i]];
    forall x, j | 0 <= x < |succ| && 0 <= j < |deps|
      ensures Occ(succ'[x], j) == FiledCount(deps, x, j, i, k + 1)
    {
      assert Occ(succ[x], j) == FiledCount(deps, x, j, i, k);
      OccPrefix(deps[i], k, x);
      OccSplit(succ[d], [i], j);
    }
  }

  lemma RowFiled(deps: seq<seq<nat>>, succ: seq<seq<nat>>, i: nat)
    requires i < |deps| && Filed(deps, succ, i, |deps[i]|)
    ensures Filed(deps, succ, i + 1, 0)
  {
    assert deps[i][..|deps[i]|] == deps[i];
    forall x, j | 0 <= x < |succ| && 0 <= j < |deps|
      ensures Occ(succ[x], j) == FiledCount(deps, x, j, i + 1, 0)
    {
      assert Occ(succ[x], j) == FiledCount(deps, x, j, i, |deps[i]|);
      assert j == i + 1 ==> deps[j][..0] == [];
    }
  }

  lemma AllFiled(deps: seq<seq<nat>>, succ: seq<seq<nat>>)
    requires Filed(deps, succ, |deps|, 0)
    ensures Inverse(deps, succ)
  {
    forall x, j | 0 <= x < |succ| && 0 <= j < |deps|
      ensures Occ(succ[x], j) == Occ(deps[j], x)
    {
      assert Occ(succ[x], j) == FiledCount(deps, x, j, |deps|, 0);
    }
  }

  // ---------------------------------------------------------------- cycles

  ghost predicate Ranked(deps: seq<seq<nat>>, rank: seq<nat>) {
    && |rank| == |deps|
    && forall j, k :: 0 <= j < |deps| && 0 <= k < |deps[j]| ==>
         deps[j][k] < |rank| && rank[deps[j][k]] < rank[j]
  }

  ghost predicate Acyclic(deps: seq<seq<nat>>) {
    exists rank: seq<nat> :: Ranked(deps, rank)
  }

  /** A knot: a set of nodes each of which depends on one of the set. */
  ghost predicate Knot(deps: seq<seq<nat>>, knot: set<nat>) {
    knot != {} && forall j {:trigger WaitsInside(deps, knot, j)} :: j in knot ==> WaitsInside(deps, knot, j)
  }

  ghost predicate WaitsInside(deps: seq<seq<nat>>, knot: set<nat>, j: nat) {
    j < |deps| && exists k: nat :: k < |deps[j]| && deps[j][k] in knot
  }

  /** Each node of the walk depends on the next. */
  ghost predicate Walk(deps: seq<seq<nat>>, w: seq<nat>) {
    forall k :: 0 <= k < |w| - 1 ==> DependsOn(deps, w[k], w[k + 1])
  }

  ghost predicate DependsOn(deps: seq<seq<nat>>, j: nat, i: nat) {
    j < |deps| && i in deps[j]
  }

  /** A cycle: a walk that comes back to its first node. */
  ghost predicate Cycle(deps: seq<seq<nat>>, c: seq<nat>) {
    |c| > 1 && c[0] == c[|c| - 1] && Walk(deps, c)
  }

  lemma {:induction false} RankFallsAlong(deps: seq<seq<nat>>, rank: seq<nat>, w: seq<nat>)
    requires Ranked(deps, rank) && Walk(deps, w) && |w| > 1
    ensures w[0] < |rank| && w[|w| - 1] < |rank| && rank[w[|w| - 1]] < rank[w[0]]
  {
    var n := |w| - 1;
    assert DependsOn(deps, w[n - 1], w[n - 1 + 1]);
    if n > 1 {
      RankFallsAlong(deps, rank, w[..n]);
    }
  }

  lemma {:induction false} WalkInKnot(deps: seq<seq<nat>>, knot: set<nat>, start: nat, steps: nat) returns (w: seq<nat>)
    requires Knot(deps, knot) && start in knot
    ensures |w| == steps + 1 && w[0] == start && Walk(deps, w)
    ensures forall k :: 0 <= k < |w| ==> w[k] in knot && w[k] < |deps|
  {
    if steps == 0 {
      assert WaitsInside(deps, knot, start);
      return [start];
    }
    w := WalkInKnot(deps, knot, start, steps - 1);
    var j := w[steps - 1];
    assert WaitsInside(deps, knot, j);
    var k: nat :| k < |deps[j]| && deps[j][k] in knot;
    assert WaitsInside(deps, knot, deps[j][k]);
    w := w + [deps[j][k]];
  }

  /** Among n + 1 nodes below n two are the same. */
  lemma {:induction false} TwoAlike(w: seq<nat>, n: nat) returns (a: nat, b: nat)
    requires |w| > n && forall k :: 0 <= k < |w| ==> w[k] < n
    ensures a < b < |w| && w[a] == w[b]
  {
    var first := w[0];
    if n == 0 {
      assert false;
    }
    if x: nat, y: nat :| x < y < |w| && w[x] == w[y] {
      return x, y;
    }
    // without two alike, drop the entry n - 1 if there is one
    if x: nat :| x < |w| && w[x] == n - 1 {
      a, b := TwoAlike(w[..x] + w[x + 1..], n - 1);
      a, b := if a < x then a else a + 1, if b < x then b else b + 1;
    } else {
      a, b := TwoAlike(w, n - 1);
    }
  }

  /** A walk from j ends on a cycle. */
  ghost predicate ReachesCycle(deps: seq<seq<nat>>, j: nat) {
    exists w, c :: LeadsTo(deps, j, w, c)
  }

  ghost predicate LeadsTo(deps: seq<seq<nat>>, j: nat, w: seq<nat>, c: seq<nat>) {
    |w| > 0 && w[0] == j && Walk(deps, w) && Cycle(deps, c) && c[0] == w[|w| - 1]
  }

  lemma WalkSlice(deps: seq<seq<nat>>, w: seq<nat>, a: nat, b: nat)
    requires Walk(deps, w) && a <= b <= |w|
    ensures Walk(deps, w[a..b])
  {
    forall k | 0 <= k < b - a - 1
      ensures DependsOn(deps, w[a..b][k], w[a..b][k + 1])
    {
      assert DependsOn(deps, w[a + k], w[a + k + 1]);
    }
  }

  /** From every node of a knot a cycle can be reached. */
  lemma KnotReachesCycle(deps: seq<seq<nat>>, knot: set<nat>, j: nat)
    requires Knot(deps, knot) && j in knot
    ensures ReachesCycle(deps, j)
  {
    var w := WalkInKnot(deps, knot, j, |deps|);
    var a, b := TwoAlike(w, |deps|);
    WalkSlice(deps, w, 0, a + 1);
    WalkSlice(deps, w, a, b + 1);
    assert LeadsTo(deps, j, w[0..a + 1], w[a..b + 1]);
  }

  lemma CyclicHasNoRank(deps: seq<seq<nat>>, c: seq<nat>)
    requires Cycle(deps, c)
    ensures !Acyclic(deps)
  {
    if Acyclic(deps) {
      var rank: seq<nat> :| Ranked(deps, rank);
      RankFallsAlong(deps, rank, c);
    }
  }

  /** The nodes outside `left` are ranked below `next`, above their dependencies. */
  ghost predicate RankedOutside(deps: seq<seq<nat>>, left: set<nat>, rank: seq<nat>, next: nat) {
    && |rank| == |deps|
    && forall j :: 0 <= j < |deps| && j !in left ==> RankedNode(deps, left, rank, next, j)
  }

  ghost predicate RankedNode(deps: seq<seq<nat>>, left: set<nat>, rank: seq<nat>, next: nat, j: nat)
    requires j < |deps| == |rank|
  {
    rank[j] < next && forall k :: 0 <= k < |deps[j]| ==>
      deps[j][k] < |rank| && deps[j][k] !in left && rank[deps[j][k]] < rank[j]
  }

  lemma RankOneMore(deps: seq<seq<nat>>, left: set<nat>, rank: seq<nat>, next: nat, j: nat)
    requires InRange(deps) && RankedOutside(deps, left, rank, next) && j in left && j < |deps|
    requires !WaitsInside(deps, left, j)
    ensures RankedOutside(deps, left - {j}, rank[j := next], next + 1)
  {
    forall x | 0 <= x < |deps| && x !in left - {j}
      ensures RankedNode(deps, left - {j}, rank[j := next], next + 1, x)
    {
      if x != j {
        assert RankedNode(deps, left, rank, next, x);
      } else {
        forall k | 0 <= k < |deps[j]|
          ensures deps[j][k] < |rank| && deps[j][k] !in left && rank[deps[j][k]] < next
        {
          assert RankedNode(deps, left, rank, next, deps[j][k]);
        }
      }
    }
  }

  /** Rank whatever depends on ranked nodes only, until none is left or the rest is a knot. */
  lemma {:induction false} RankOrKnot(deps: seq<seq<nat>>, left: set<nat>, rank: seq<nat>, next: nat)
    requires InRange(deps) && RankedOutside(deps, left, rank, next) && forall j :: j in left ==> j < |deps|
    ensures Acyclic(deps) || exists knot :: Knot(deps, knot)
    decreases left
  {
    if left == {} {
      forall j, k | 0 <= j < |deps| && 0 <= k < |deps[j]|
        ensures deps[j][k] < |rank| && rank[deps[j][k]] < rank[j]
      {
        assert RankedNode(deps, left, rank, next, j);
      }
      assert Ranked(deps, rank);
    } else if j :| j in left && !WaitsInside(deps, left, j) {
      RankOneMore(deps, left, rank, next, j);
      RankOrKnot(deps, left - {j}, rank[j := next], next + 1);
    } else {
      assert Knot(deps, left);
    }
  }

  function NodesBelow(n: nat): (nodes: set<nat>)
    ensures forall j: nat :: j in nodes <==> j < n
  {
    if n == 0 then {} else NodesBelow(n - 1) + {n - 1}
  }

  /** A ranking exists exactly when there is no cycle. */
  lemma AcyclicIffNoCycle(deps: seq<seq<nat>>)
    requires InRange(deps)
    ensures Acyclic(deps) <==> !exists c :: Cycle(deps, c)
  {
    if c :| Cycle(deps, c) {
      CyclicHasNoRank(deps, c);
    } else if !Acyclic(deps) {
      RankOrKnot(deps, NodesBelow(|deps|), seq(|deps|, _ => 0), 0);
      var knot :| Knot(deps, knot);
      var j :| j in knot;
      KnotReachesCycle(deps, knot, j);
    }
  }

  /** The nodes of a cycle are a knot. */
  lemma CycleIsKnot(deps: seq<seq<nat>>, c: seq<nat>)
    requires Cycle(deps, c)
    ensures Knot(deps, set k | 0 <= k < |c| :: c[k])
  {
    var knot := set k | 0 <= k < |c| :: c[k];
    assert c[0] in knot;
    forall j | j in knot
      ensures WaitsInside(deps, knot, j)
    {
      var k :| 0 <= k < |c| && c[k] == j;
      var at := if k == |c| - 1 then 0 else k;
      assert DependsOn(deps, c[at], c[at + 1]) && c[at] == j;
      assert c[at + 1] in knot;
    }
  }
}
