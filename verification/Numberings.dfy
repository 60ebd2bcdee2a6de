/** Finite relations: either their elements can be numbered along the relation, or it leads round in a circle. */
module Numberings {

  /** Every edge goes from a lower to a higher number. */
  predicate Numbers<T(==)>(edges: set<(T, T)>, number: map<T, nat>) {
    forall e :: e in edges && e.0 in number && e.1 in number ==> number[e.0] < number[e.1]
  }

  function Following<T>(c: seq<T>, m: nat): T
    requires m < |c|
  {
    if m + 1 < |c| then c[m + 1] else c[0]
  }

  /** Each element of `c` is related to the one after it, and the last one to the first. */
  predicate Circle<T(==)>(edges: set<(T, T)>, c: seq<T>) {
    c != [] && forall m :: 0 <= m < |c| ==> (c[m], Following(c, m)) in edges
  }

  predicate HasNext<T(==)>(edges: set<(T, T)>, nodes: set<T>, x: T) {
    exists y :: y in nodes && (x, y) in edges
  }

  predicate Path<T(==)>(edges: set<(T, T)>, p: seq<T>) {
    forall m :: 0 <= m < |p| - 1 ==> (p[m], p[m + 1]) in edges
  }

  predicate Distinct<T(==)>(p: seq<T>) {
    forall i, j :: 0 <= i < j < |p| ==> p[i] != p[j]
  }

  lemma {:induction false} DistinctFits<T>(p: seq<T>, nodes: set<T>)
    requires Distinct(p) && forall i :: 0 <= i < |p| ==> p[i] in nodes
    ensures |p| <= |nodes|
  {
    if p != [] {
      var init, x := p[..|p| - 1], p[|p| - 1];
      DistinctFits(init, nodes - {x});
    }
  }

  /** The end of a path that comes back to itself. */
  lemma ClosePath<T>(edges: set<(T, T)>, p: seq<T>, k: nat)
    requires Path(edges, p) && k < |p| && (p[|p| - 1], p[k]) in edges
    ensures Circle(edges, p[k..])
  {
  }

  /** If every node has a successor, walking on comes back sooner or later. */
  lemma WalkCloses<T>(edges: set<(T, T)>, nodes: set<T>, start: T) returns (c: seq<T>)
    requires start in nodes && forall x :: x in nodes ==> HasNext(edges, nodes, x)
    ensures Circle(edges, c)
  {
    var p := [start];
    while true
      invariant p != [] && Path(edges, p) && Distinct(p) && forall i :: 0 <= i < |p| ==> p[i] in nodes
      decreases |nodes| - |p|
    {
      DistinctFits(p, nodes);
      assert HasNext(edges, nodes, p[|p| - 1]);
      var y :| y in nodes && (p[|p| - 1], y) in edges;
      if y in p {
        var k :| 0 <= k < |p| && p[k] == y;
        ClosePath(edges, p, k);
        return p[k..];
      }
      p := p + [y];
      DistinctFits(p, nodes);
    }
  }

  lemma NumberLast<T>(edges: set<(T, T)>, nodes: set<T>, x: T, number: map<T, nat>)
    requires x in nodes && !HasNext(edges, nodes, x)
    requires number.Keys == nodes - {x} && Numbers(edges, number) && forall y :: y in number ==> number[y] < |nodes| - 1
    ensures var all := number[x := |nodes| - 1];
            all.Keys == nodes && Numbers(edges, all) && forall y :: y in all ==> all[y] < |nodes|
  {
  }

  /** A finite relation without a numbering of its elements leads round in a circle. */
  lemma {:induction false} NumberingOrCircle<T>(edges: set<(T, T)>, nodes: set<T>) returns (number: map<T, nat>, circle: seq<T>)
    ensures Circle(edges, circle) ||
            (number.Keys == nodes && Numbers(edges, number) && forall x :: x in number ==> number[x] < |nodes|)
    decreases |nodes|
  {
    number, circle := map[], [];
    if nodes != {} {
      if x :| x in nodes && !HasNext(edges, nodes, x) {
        number, circle := NumberingOrCircle(edges, nodes - {x});
        if !Circle(edges, circle) {
          NumberLast(edges, nodes, x, number);
          number := number[x := |nodes| - 1];
        }
      } else {
        var start :| start in nodes;
        circle := WalkCloses(edges, nodes, start);
      }
    }
  }
}
