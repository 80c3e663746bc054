/** Reachability in a directed graph, shared by every flood fill.
    A graph is a successor function together with the nodes a walk may visit. */
module Reachability {

  datatype Graph<!N(!new)> = Graph(ok: N -> bool, succ: N -> set<N>)

  /** p is a walk that visits only permitted nodes. */
  ghost predicate IsWalk<N(!new)>(g: Graph<N>, p: seq<N>) {
    && (forall i | 0 <= i < |p| :: g.ok(p[i]))
    && (forall i | 0 < i < |p| :: p[i] in g.succ(p[i - 1]))
  }

  ghost predicate Reachable<N(!new)>(g: Graph<N>, source: N, n: N) {
    exists p: seq<N> :: 0 < |p| && p[0] == source && p[|p| - 1] == n && IsWalk(g, p)
  }

  /** s contains every permitted successor of its members. */
  ghost predicate Closed<N(!new)>(g: Graph<N>, s: set<N>) {
    forall u, v | u in s && v in g.succ(u) && g.ok(v) :: v in s
  }

  lemma StepReachable<N(!new)>(g: Graph<N>, source: N, u: N, v: N)
    requires Reachable(g, source, u) && v in g.succ(u) && g.ok(v)
    ensures Reachable(g, source, v)
  {
    var p :| 0 < |p| && p[0] == source && p[|p| - 1] == u && IsWalk(g, p);
    assert IsWalk(g, p + [v]);
  }

  /** A node is reached by being the source, or by a last step. */
  lemma LastStep<N(!new)>(g: Graph<N>, source: N, n: N)
    ensures Reachable(g, source, n) <==>
      g.ok(n) && (n == source || exists u :: Reachable(g, source, u) && n in g.succ(u))
  {
    if Reachable(g, source, n) {
      var p :| 0 < |p| && p[0] == source && p[|p| - 1] == n && IsWalk(g, p);
      if |p| > 1 {
        assert IsWalk(g, p[..|p| - 1]);
        assert Reachable(g, source, p[|p| - 2]);
      }
    }
    if g.ok(n) {
      if n == source {
        assert IsWalk(g, [n]);
        assert [n][0] == source;
      } else if u :| Reachable(g, source, u) && n in g.succ(u) {
        StepReachable(g, source, u, n);
      }
    }
  }

  /** A closed set holding the source holds every reachable node. */
  lemma ClosedHoldsReachable<N(!new)>(g: Graph<N>, source: N, s: set<N>, n: N)
    requires g.ok(source) ==> source in s
    requires Closed(g, s)
    requires Reachable(g, source, n)
    ensures n in s
  {
    var p :| 0 < |p| && p[0] == source && p[|p| - 1] == n && IsWalk(g, p);
    WalkStaysInside(g, p, s, |p| - 1);
  }

  lemma {:induction false} WalkStaysInside<N(!new)>(g: Graph<N>, p: seq<N>, s: set<N>, i: nat)
    requires IsWalk(g, p) && i < |p|
    requires p[0] in s
    requires Closed(g, s)
    ensures p[i] in s
  {
    if i > 0 {
      WalkStaysInside(g, p, s, i - 1);
    }
  }

  /** Reachability is a preorder on the permitted nodes: two walks join. */
  lemma ReachableTransitive<N(!new)>(g: Graph<N>, a: N, b: N, c: N)
    requires Reachable(g, a, b) && Reachable(g, b, c)
    ensures Reachable(g, a, c)
  {
    var p :| 0 < |p| && p[0] == a && p[|p| - 1] == b && IsWalk(g, p);
    var q :| 0 < |q| && q[0] == b && q[|q| - 1] == c && IsWalk(g, q);
    var r := p + q[1..];
    assert forall i | |p| <= i < |r| :: r[i] == q[i - |p| + 1];
    assert IsWalk(g, r);
  }

  /** Where every permitted step can be taken back, reachability is symmetric: the walk reversed. */
  lemma ReachableSymmetric<N(!new)>(g: Graph<N>, a: N, b: N)
    requires Reachable(g, a, b)
    requires forall u, v | g.ok(u) && g.ok(v) && v in g.succ(u) :: u in g.succ(v)
    ensures Reachable(g, b, a)
  {
    var p :| 0 < |p| && p[0] == a && p[|p| - 1] == b && IsWalk(g, p);
    var r := seq(|p|, i requires 0 <= i < |p| => p[|p| - 1 - i]);
    forall i | 0 < i < |r| ensures r[i] in g.succ(r[i - 1]) {
      var j := |p| - i;
      assert r[i] == p[j - 1] && r[i - 1] == p[j];
    }
    assert IsWalk(g, r);
  }

  /** The invariant of an explicit-stack flood: what is marked is reachable, what waits on the stack
      is reachable or not permitted, and every step out of a marked node is marked or waiting. */
  ghost predicate Flooding<N(!new)>(g: Graph<N>, source: N, marked: set<N>, stack: seq<N>) {
    && (forall n | n in marked :: Reachable(g, source, n))
    && (forall n | n in stack && g.ok(n) :: Reachable(g, source, n))
    && (g.ok(source) ==> source in marked || source in stack)
    && (forall u, v | u in marked && v in g.succ(u) && g.ok(v) :: v in marked || v in stack)
  }

  lemma FloodStart<N(!new)>(g: Graph<N>, source: N)
    ensures Flooding(g, source, {}, [source])
  {
  }

  /** Popping a node that is not permitted, or is marked already, keeps the invariant. */
  lemma FloodSkip<N(!new)>(g: Graph<N>, source: N, marked: set<N>, stack: seq<N>, top: N)
    requires Flooding(g, source, marked, stack + [top])
    requires top in marked || !g.ok(top)
    ensures Flooding(g, source, marked, stack)
  {
  }

  /** Popping a permitted node, marking it and pushing its permitted successors, save those already
      marked or waiting, keeps the invariant. */
  lemma FloodMark<N(!new)>(g: Graph<N>, source: N, marked: set<N>, stack: seq<N>, top: N, pushed: seq<N>)
    requires Flooding(g, source, marked, stack + [top])
    requires g.ok(top)
    requires forall n | n in g.succ(top) && g.ok(n) :: n in pushed || n in marked || n in stack || n == top
    requires forall n | n in pushed && g.ok(n) :: n in g.succ(top)
    ensures Flooding(g, source, marked + {top}, stack + pushed)
  {
    assert top in stack + [top];
    assert forall n | n in stack :: n in stack + [top];
    assert forall n | n in stack + [top] :: n == top || n in stack;
    forall n | n in pushed && g.ok(n) ensures Reachable(g, source, n) {
      StepReachable(g, source, top, n);
    }
  }

  /** When the stack is empty the marked nodes are exactly the reachable ones, whatever the order was. */
  lemma FloodDone<N(!new)>(g: Graph<N>, source: N, marked: set<N>)
    requires Flooding(g, source, marked, [])
    ensures forall n :: n in marked <==> Reachable(g, source, n)
  {
    forall n | Reachable(g, source, n) ensures n in marked {
      ClosedHoldsReachable(g, source, marked, n);
    }
  }
}
