/** Dependency graphs: each known id with the ids it depends on. */
module Graphs {
  type Graph = map<string, seq<string>>

  /** A task of a spec or a gate of a configuration, as far as its dependencies go. */
  datatype Node = Node(id: string, dependsOn: seq<string>)

  predicate UniqueIds(nodes: seq<Node>) {
    forall i, j :: 0 <= i < j < |nodes| ==> nodes[i].id != nodes[j].id
  }

  /** The nodes by id; of two nodes with one id the last stays. */
  function GraphOf(nodes: seq<Node>): Graph {
    if nodes == [] then map[]
    else GraphOf(nodes[..|nodes| - 1])[nodes[|nodes| - 1].id := nodes[|nodes| - 1].dependsOn]
  }

  lemma {:induction false} GraphHasNodes(nodes: seq<Node>)
    ensures forall id :: id in GraphOf(nodes) <==> exists t :: t in nodes && t.id == id
    ensures UniqueIds(nodes) ==> forall t :: t in nodes ==> GraphOf(nodes)[t.id] == t.dependsOn
  {
    if nodes != [] {
      var init, last := nodes[..|nodes| - 1], nodes[|nodes| - 1];
      GraphHasNodes(init);
      assert nodes == init + [last];
      assert UniqueIds(nodes) ==> forall i :: 0 <= i < |init| ==> nodes[i].id != last.id;
    }
  }

  predicate Edge(g: Graph, x: string, y: string) {
    x in g && y in g[x]
  }

  predicate Path(g: Graph, p: seq<string>) {
    |p| >= 2 && forall i :: 0 <= i < |p| - 1 ==> Edge(g, p[i], p[i + 1])
  }

  /** One or more dependency steps lead from `x` to `y`. */
  ghost predicate Reaches(g: Graph, x: string, y: string) {
    exists p :: Path(g, p) && p[0] == x && p[|p| - 1] == y
  }

  ghost predicate Acyclic(g: Graph) {
    forall x :: !Reaches(g, x, x)
  }

  predicate Closed(g: Graph) {
    forall x, y :: x in g && y in g[x] ==> y in g
  }

  /** A numbering in which every dependency comes before its dependents. */
  predicate Ranked(g: Graph, rank: map<string, nat>) {
    && (forall x :: x in g ==> x in rank)
    && forall x, y :: x in g && y in g[x] ==> y in g && rank[y] < rank[x]
  }

  lemma EdgeReaches(g: Graph, x: string, y: string)
    requires Edge(g, x, y)
    ensures Reaches(g, x, y)
  {
    assert Path(g, [x, y]);
  }

  lemma ReachesFurther(g: Graph, x: string, y: string, z: string)
    requires Reaches(g, x, y) && Edge(g, y, z)
    ensures Reaches(g, x, z)
  {
    var p :| Path(g, p) && p[0] == x && p[|p| - 1] == y;
    assert Path(g, p + [z]);
  }

  lemma {:induction false} PathDescends(g: Graph, rank: map<string, nat>, p: seq<string>)
    requires Ranked(g, rank) && Path(g, p)
    ensures p[0] in rank && p[|p| - 1] in rank && rank[p[|p| - 1]] < rank[p[0]]
    decreases |p|
  {
    assert Edge(g, p[0], p[1]);
    if |p| > 2 {
      forall i | 0 <= i < |p[1..]| - 1 ensures Edge(g, p[1..][i], p[1..][i + 1]) {
        assert Edge(g, p[i + 1], p[i + 2]);
      }
      PathDescends(g, rank, p[1..]);
    }
  }

  lemma RankedIsAcyclic(g: Graph, rank: map<string, nat>)
    requires Ranked(g, rank)
    ensures Acyclic(g) && Closed(g)
  {
    forall x ensures !Reaches(g, x, x) {
      if Reaches(g, x, x) {
        var p :| Path(g, p) && p[0] == x && p[|p| - 1] == x;
        PathDescends(g, rank, p);
      }
    }
  }
}
