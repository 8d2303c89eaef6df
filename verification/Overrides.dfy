/** The three-colour depth-first search over override edges
    (`_assert_acyclic_overrides`, backend/bundle/schema.py) and the bundle integrity
    check that ends with it. */
module Overrides {
  import opened Options
  import opened Text

  type Graph = map<string, set<string>>

  ghost predicate Closed(g: Graph) {
    forall n, t :: n in g && t in g[n] ==> t in g
  }

  /** A path along override edges. */
  ghost predicate Walk(g: Graph, w: seq<string>) {
    && w != [] && w[|w| - 1] in g
    && (|w| > 1 ==> Walk(g, w[..|w| - 1]) && w[|w| - 1] in g[w[|w| - 2]])
  }

  ghost predicate Cycle(g: Graph, w: seq<string>) {
    Walk(g, w) && |w| >= 2 && w[0] == w[|w| - 1]
  }

  /** A rank that strictly falls along every edge: a topological order. */
  ghost predicate Ranks(g: Graph, rank: map<string, nat>) {
    && rank.Keys == g.Keys
    && (forall n, t :: n in g && t in g[n] && t in g ==> rank[t] < rank[n])
  }

  lemma {:induction false} RankFallsAlong(g: Graph, rank: map<string, nat>, w: seq<string>)
    requires Ranks(g, rank) && Walk(g, w)
    ensures w[0] in g && rank[w[|w| - 1]] <= rank[w[0]] - (|w| - 1)
  {
    if |w| > 1 {
      RankFallsAlong(g, rank, w[..|w| - 1]);
    }
  }

  /** A ranked graph has no cycle. */
  lemma RankedHasNoCycle(g: Graph, rank: map<string, nat>, w: seq<string>)
    requires Ranks(g, rank)
    ensures !Cycle(g, w)
  {
    if Cycle(g, w) {
      RankFallsAlong(g, rank, w);
    }
  }

  lemma {:induction false} WalkSuffix(g: Graph, w: seq<string>, i: nat)
    requires Walk(g, w) && i < |w|
    ensures Walk(g, w[i..])
  {
    if i < |w| - 1 {
      WalkSuffix(g, w[..|w| - 1], i);
      assert w[i..][..|w[i..]| - 1] == w[..|w| - 1][i..];
    }
  }

  lemma WalkExtends(g: Graph, w: seq<string>, n: string)
    requires Walk(g, w) && n in g && n in g[w[|w| - 1]]
    ensures Walk(g, w + [n])
  {
    assert (w + [n])[..|w|] == w;
  }

  ghost predicate ReturnsToItself(w: seq<string>) {
    exists i :: 0 <= i < |w| - 1 && w[i] == w[|w| - 1]
  }

  /** The path of the error message runs into a cycle and ends by closing it. */
  ghost predicate ContainsCycle(g: Graph, w: seq<string>) {
    exists i :: 0 <= i < |w| - 1 && Cycle(g, w[i..])
  }

  ghost predicate Acyclic(g: Graph) {
    forall w :: !Cycle(g, w)
  }

  lemma ReturnContainsCycle(g: Graph, w: seq<string>)
    requires Walk(g, w) && ReturnsToItself(w)
    ensures ContainsCycle(g, w) && !Acyclic(g)
  {
    var i :| 0 <= i < |w| - 1 && w[i] == w[|w| - 1];
    WalkSuffix(g, w, i);
    assert Cycle(g, w[i..]);
  }

  lemma StackHit(here: seq<string>, next: string)
    requires next in here
    ensures ReturnsToItself(here + [next])
  {
    var i :| 0 <= i < |here| && here[i] == next;
    var w := here + [next];
    assert w[i] == w[|w| - 1];
  }

  datatype Color = White | Gray | Black
  type Coloring = map<string, Color>

  ghost function Whites(color: Coloring): set<string> {
    set n | n in color && color[n] == White
  }

  /** The GRAY nodes are exactly the ones on the recursion stack. */
  ghost predicate GrayAre(color: Coloring, stack: seq<string>) {
    forall n :: n in color ==> (color[n] == Gray <==> n in stack)
  }

  /** The BLACK nodes are ranked by finishing order, and nothing below them is unfinished. */
  ghost predicate Consistent(g: Graph, color: Coloring, rank: map<string, nat>) {
    && Closed(g) && color.Keys == g.Keys
    && (forall n :: n in g ==> (color[n] == Black <==> n in rank))
    && (forall n :: n in rank ==> n in g && rank[n] < |rank|)
    && (forall n, t :: n in rank && t in g[n] ==> t in rank && rank[t] < rank[n])
  }

  lemma EnterNode(g: Graph, color: Coloring, rank: map<string, nat>, stack: seq<string>, node: string)
    requires Consistent(g, color, rank) && GrayAre(color, stack) && node in g && color[node] == White
    ensures Consistent(g, color[node := Gray], rank) && GrayAre(color[node := Gray], stack + [node])
    ensures Whites(color[node := Gray]) == Whites(color) - {node} && node in Whites(color)
  {
  }

  lemma FinishNode(g: Graph, color: Coloring, rank: map<string, nat>, stack: seq<string>, node: string)
    requires Consistent(g, color, rank) && GrayAre(color, stack + [node])
    requires node in g && node !in stack && g[node] <= rank.Keys
    ensures Consistent(g, color[node := Black], rank[node := |rank|])
    ensures GrayAre(color[node := Black], stack) && Whites(color[node := Black]) == Whites(color)
  {
    assert node in stack + [node] && node !in rank;
    assert |rank[node := |rank|]| == |rank| + 1;
  }

  lemma AllFinished(g: Graph, color: Coloring, rank: map<string, nat>)
    requires Consistent(g, color, rank) && g.Keys <= rank.Keys
    ensures Ranks(g, rank) && Acyclic(g)
  {
    forall w ensures !Cycle(g, w) { RankedHasNoCycle(g, rank, w); }
  }

  class CycleCheck {
    const graph: Graph
    var color: Coloring
    /** Finishing order of the BLACK nodes. */
    ghost var rank: map<string, nat>

    ghost predicate Valid()
      reads this
    {
      Consistent(graph, color, rank)
    }

    constructor (g: Graph)
      requires Closed(g)
      ensures graph == g && Valid() && GrayAre(color, []) && rank == map[]
    {
      graph := g;
      color := map n | n in g :: White;
      rank := map[];
    }

    /** `color[node] = GRAY` */
    method Enter(node: string, ghost stack: seq<string>)
      requires Valid() && GrayAre(color, stack) && node in graph && color[node] == White
      modifies this`color
      ensures Valid() && GrayAre(color, stack + [node])
      ensures Whites(color) == old(Whites(color)) - {node} && node in old(Whites(color))
    {
      EnterNode(graph, color, rank, stack, node);
      color := color[node := Gray];
    }

    /** `color[node] = BLACK` */
    method Finish(node: string, ghost stack: seq<string>)
      requires Valid() && GrayAre(color, stack + [node]) && node in graph && node !in stack
      requires graph[node] <= rank.Keys
      modifies this
      ensures Valid() && GrayAre(color, stack)
      ensures Whites(color) == old(Whites(color)) && rank.Keys == old(rank.Keys) + {node}
    {
      FinishNode(graph, color, rank, stack, node);
      rank := rank[node := |rank|];
      color := color[node := Black];
    }

    /** `visit(node, stack)`: either everything below `node` is finished, or the path that
        ran into its own stack is returned. */
    method Visit(node: string, stack: seq<string>) returns (path: Option<seq<string>>)
      requires Valid() && GrayAre(color, stack) && node in graph && color[node] == White
      requires Walk(graph, stack + [node])
      modifies this
      decreases |Whites(color)|
      ensures path.None? ==> Valid() && GrayAre(color, stack) && node in rank
      ensures path.None? ==> old(rank.Keys) <= rank.Keys && Whites(color) <= old(Whites(color))
      ensures path.Some? ==> Walk(graph, path.value) && ReturnsToItself(path.value)
    {
      Enter(node, stack);
      var here := stack + [node];
      var todo := graph[node];
      while todo != {}
        invariant Valid() && GrayAre(color, here) && todo <= graph[node]
        invariant graph[node] - todo <= rank.Keys
        invariant old(rank.Keys) <= rank.Keys && Whites(color) <= old(Whites(color)) - {node}
        decreases todo
      {
        var next :| next in todo;
        todo := todo - {next};
        WalkExtends(graph, here, next);
        if color[next] == Gray {
          StackHit(here, next);
          return Some(here + [next]);
        }
        if color[next] == White {
          SmallerSet(Whites(color), old(Whites(color)), node);
          var r := Visit(next, here);
          if r.Some? { return r; }
        }
      }
      Finish(node, stack);
      path := None;
    }

    /** The loop over all nodes. Success is exactly acyclicity. */
    method Run() returns (path: Option<seq<string>>)
      requires Valid() && GrayAre(color, [])
      modifies this
      ensures path.None? ==> Ranks(graph, rank)
      ensures path.None? ==> Acyclic(graph)
      ensures path.Some? ==> ContainsCycle(graph, path.value)
    {
      var todo := graph.Keys;
      while todo != {}
        invariant Valid() && GrayAre(color, []) && todo <= graph.Keys
        invariant graph.Keys - todo <= rank.Keys
        decreases todo
      {
        var node :| node in todo;
        todo := todo - {node};
        if color[node] == White {
          assert [] + [node] == [node];
          var r := Visit(node, []);
          if r.Some? {
            ReturnContainsCycle(graph, r.value);
            return r;
          }
        }
      }
      AllFinished(graph, color, rank);
      path := None;
    }
  }
}
