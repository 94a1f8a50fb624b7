/** The shortest upgrade path between two versions of a Cincinnati graph. */
module ShortestPath {
  import opened Options

  datatype Node = Node(version: string, image: string)

  /** Edges are pairs of node indexes; anything else in the list is malformed. */
  datatype Graph = Graph(nodes: seq<Node>, edges: seq<seq<int>>)

  datatype PathResult =
    | Found(path: seq<Node>)
    | VersionNotFound(version: string)
    | NoUpgradePath

  /** A well-formed edge from a to b. */
  predicate Edge(g: Graph, a: int, b: int)
  {
    [a, b] in g.edges && 0 <= a < |g.nodes| && 0 <= b < |g.nodes|
  }

  predicate Walk(g: Graph, p: seq<int>)
  {
    p != [] && (forall i :: 0 <= i < |p| ==> 0 <= p[i] < |g.nodes|) &&
    forall i :: 0 <= i < |p| - 1 ==> Edge(g, p[i], p[i + 1])
  }

  ghost predicate WalkFromTo(g: Graph, p: seq<int>, a: int, b: int)
  {
    Walk(g, p) && p[0] == a && p[|p| - 1] == b
  }

  /** The node a version names; a later node of the same version wins. */
  function VersionIndex(nodes: seq<Node>, version: string): (r: Option<int>)
    ensures r.Some? ==> 0 <= r.value < |nodes| && nodes[r.value].version == version
    ensures r.None? <==> forall i :: 0 <= i < |nodes| ==> nodes[i].version != version
  {
    if nodes == [] then None
    else if nodes[|nodes| - 1].version == version then Some(|nodes| - 1)
    else VersionIndex(nodes[..|nodes| - 1], version)
  }

  function NodesAt(g: Graph, p: seq<int>): seq<Node>
    requires forall i :: 0 <= i < |p| ==> 0 <= p[i] < |g.nodes|
  {
    seq(|p|, i requires 0 <= i < |p| => g.nodes[p[i]])
  }

  ghost predicate Simple(p: seq<int>)
  {
    forall i, j :: 0 <= i < j < |p| ==> p[i] != p[j]
  }

  /** p is a simple walk from a to b with as few edges as possible. */
  ghost predicate IsShortest(g: Graph, p: seq<int>, a: int, b: int)
  {
    WalkFromTo(g, p, a, b) && Simple(p) && forall q :: WalkFromTo(g, q, a, b) ==> |p| <= |q|
  }

  /** The adjacency lists of the well-formed edges. */
  method Adjacency(g: Graph) returns (adj: map<int, seq<int>>)
    ensures forall a, b :: (a in adj && b in adj[a]) <==> Edge(g, a, b)
  {
    adj := map[];
    for i := 0 to |g.edges|
      invariant forall a, b :: (a in adj && b in adj[a]) <==>
        [a, b] in g.edges[..i] && 0 <= a < |g.nodes| && 0 <= b < |g.nodes|
    {
      var edge := g.edges[i];
      assert g.edges[..i + 1] == g.edges[..i] + [edge];
      if |edge| == 2 && 0 <= edge[0] < |g.nodes| && 0 <= edge[1] < |g.nodes| {
        assert edge == [edge[0], edge[1]];
        adj := adj[edge[0] := (if edge[0] in adj then adj[edge[0]] else []) + [edge[1]]];
      }
    }
    assert g.edges[..|g.edges|] == g.edges;
  }

  // ------------------------------------------------------------ search invariant

  /** Distances found so far, with the predecessor of every other vertex. */
  ghost predicate Tree(g: Graph, from: int, dist: map<int, nat>, prev: seq<int>)
  {
    && |prev| == |g.nodes| && from in dist && dist[from] == 0
    && (forall v :: v in dist ==> 0 <= v < |g.nodes|)
    && forall v :: v in dist && v != from ==>
        prev[v] in dist && Edge(g, prev[v], v) && dist[v] == dist[prev[v]] + 1
  }

  ghost predicate Marks(visited: seq<bool>, dist: map<int, nat>, n: nat)
  {
    |visited| == n && forall v :: 0 <= v < n ==> (visited[v] <==> v in dist)
  }

  /** The queue is ordered and holds vertices at distance level or level + 1. */
  ghost predicate Frontier(dist: map<int, nat>, queue: seq<int>, level: nat)
  {
    && (forall i :: 0 <= i < |queue| ==> queue[i] in dist && level <= dist[queue[i]] <= level + 1)
    && forall i, j :: 0 <= i < j < |queue| ==> dist[queue[i]] <= dist[queue[j]]
  }

  /** Every successor of a finished vertex is found, at most one step further. */
  ghost predicate ClosedAt(g: Graph, dist: map<int, nat>, finished: set<int>, level: nat)
  {
    && (forall u :: u in finished ==> u in dist && dist[u] <= level)
    && forall u, v :: u in finished && Edge(g, u, v) ==> v in dist && dist[v] <= dist[u] + 1
  }

  ghost predicate Covers(dist: map<int, nat>, finished: set<int>, queue: seq<int>)
  {
    forall v :: v in dist ==> v in finished || v in queue
  }

  /** Vertices at distance below level are all finished. */
  lemma {:induction false} WalkBound(g: Graph, from: int, dist: map<int, nat>, finished: set<int>, level: nat, q: seq<int>, k: nat)
    requires from in dist && dist[from] == 0 && ClosedAt(g, dist, finished, level)
    requires forall v :: v in dist && v !in finished ==> level <= dist[v]
    requires Walk(g, q) && q[0] == from && k < |q| && k <= level
    ensures q[k] in dist && dist[q[k]] <= k
  {
    if k > 0 {
      WalkBound(g, from, dist, finished, level, q, k - 1);
      assert Edge(g, q[k - 1], q[k - 1 + 1]);
    }
  }

  /** If everything found is finished, nothing else can be reached. */
  lemma {:induction false} WalkStays(g: Graph, from: int, dist: map<int, nat>, finished: set<int>, level: nat, q: seq<int>, k: nat)
    requires from in finished && ClosedAt(g, dist, finished, level)
    requires forall v :: v in dist ==> v in finished
    requires Walk(g, q) && q[0] == from && k < |q|
    ensures q[k] in finished
  {
    if k > 0 {
      WalkStays(g, from, dist, finished, level, q, k - 1);
      assert Edge(g, q[k - 1], q[k - 1 + 1]);
    }
  }

  // ------------------------------------------------------------------- search

  /** Breadth-first search. If found, prev leads from `to` back to `from` along a
      walk of dist[to] edges and no walk is shorter; otherwise there is none. */
  method Search(g: Graph, adj: map<int, seq<int>>, from: int, to: int)
    returns (found: bool, prev: array<int>, ghost dist: map<int, nat>)
    requires 0 <= from < |g.nodes| && 0 <= to < |g.nodes|
    requires forall a, b :: (a in adj && b in adj[a]) <==> Edge(g, a, b)
    ensures fresh(prev)
    ensures found ==> Tree(g, from, dist, prev[..]) && to in dist
    ensures found ==> forall q :: WalkFromTo(g, q, from, to) ==> dist[to] < |q|
    ensures !found ==> forall q :: !WalkFromTo(g, q, from, to)
  {
    var n := |g.nodes|;
    prev := new int[n](_ => -1);
    var visited := new bool[n](_ => false);
    visited[from] := true;
    var queue := [from];
    dist := map[from := 0];
    ghost var finished: set<int> := {};
    ghost var level: nat := 0;
    while queue != []
      invariant Searching(g, from, visited[..], prev[..], dist, finished, queue, level)
      invariant to !in finished
      decreases n - |finished|
    {
      var curr := queue[0];
      Pop(g, from, visited[..], prev[..], dist, finished, queue, level);
      level := dist[curr];
      if curr == to {
        NoShorter(g, from, visited[..], prev[..], dist, finished, queue);
        return true, prev, dist;
      }
      queue, dist := Expand(g, adj, from, curr, visited, prev, queue[1..], dist, finished, level);
      finished := finished + {curr};
    }
    Exhausted(g, from, to, visited[..], prev[..], dist, finished, level);
    found := false;
  }

  /** The state of the search between two pops. */
  ghost predicate Searching(g: Graph, from: int, visited: seq<bool>, prev: seq<int>, dist: map<int, nat>,
                            finished: set<int>, queue: seq<int>, level: nat)
  {
    && Tree(g, from, dist, prev) && Marks(visited, dist, |g.nodes|)
    && Frontier(dist, queue, level) && Covers(dist, finished, queue)
    && ClosedAt(g, dist, finished, level) && Simple(queue)
    && forall v :: v in finished ==> v !in queue
  }

  lemma PopQueue(queue: seq<int>)
    requires queue != [] && Simple(queue)
    ensures Simple(queue[1..]) && queue[0] !in queue[1..]
    ensures forall v :: v in queue <==> v == queue[0] || v in queue[1..]
  {
    var curr, rest := queue[0], queue[1..];
    assert queue == [curr] + rest;
    assert forall i :: 0 <= i < |rest| ==> rest[i] == queue[i + 1] && queue[i + 1] != curr;
  }

  lemma PopFrontier(dist: map<int, nat>, queue: seq<int>, level: nat)
    requires queue != [] && Frontier(dist, queue, level)
    ensures queue[0] in dist && level <= dist[queue[0]] && Frontier(dist, queue[1..], dist[queue[0]])
  {
    var curr, rest := queue[0], queue[1..];
    forall i | 0 <= i < |rest| ensures rest[i] in dist && dist[curr] <= dist[rest[i]] <= dist[curr] + 1
    {
      assert rest[i] == queue[i + 1];
    }
    forall i, j | 0 <= i < j < |rest| ensures dist[rest[i]] <= dist[rest[j]]
    {
      assert rest[i] == queue[i + 1] && rest[j] == queue[j + 1];
    }
  }

  lemma Pop(g: Graph, from: int, visited: seq<bool>, prev: seq<int>, dist: map<int, nat>,
            finished: set<int>, queue: seq<int>, level: nat)
    requires Searching(g, from, visited, prev, dist, finished, queue, level) && queue != []
    ensures Visiting(g, from, visited, prev, dist, finished, queue[0], queue[1..], dist[queue[0]])
    ensures queue[0] !in finished && |finished| < |g.nodes|
  {
    PopQueue(queue);
    PopFrontier(dist, queue, level);
    FinishedSmall(finished, queue[0], |g.nodes|);
  }

  /** When `to` is popped, no walk to it has fewer edges than its distance. */
  lemma NoShorter(g: Graph, from: int, visited: seq<bool>, prev: seq<int>, dist: map<int, nat>,
                  finished: set<int>, queue: seq<int>)
    requires queue != [] && queue[0] in dist
    requires Visiting(g, from, visited, prev, dist, finished, queue[0], queue[1..], dist[queue[0]])
    ensures forall q :: WalkFromTo(g, q, from, queue[0]) ==> dist[queue[0]] < |q|
  {
    var to := queue[0];
    forall v | v in dist && v !in finished ensures dist[to] <= dist[v]
    {
      if v != to {
        assert v in queue[1..];
        var i :| 0 <= i < |queue[1..]| && queue[1..][i] == v;
      }
    }
    forall q | WalkFromTo(g, q, from, to) ensures dist[to] < |q|
    {
      if |q| <= dist[to] {
        WalkBound(g, from, dist, finished, dist[to], q, |q| - 1);
      }
    }
  }

  /** When the queue runs empty without `to`, no walk leads there. */
  lemma Exhausted(g: Graph, from: int, to: int, visited: seq<bool>, prev: seq<int>, dist: map<int, nat>,
                  finished: set<int>, level: nat)
    requires Searching(g, from, visited, prev, dist, finished, [], level) && to !in finished
    ensures forall q :: !WalkFromTo(g, q, from, to)
  {
    forall q ensures !WalkFromTo(g, q, from, to)
    {
      if WalkFromTo(g, q, from, to) {
        WalkStays(g, from, dist, finished, level, q, |q| - 1);
      }
    }
  }

  function Below(n: nat): set<int>
  {
    if n == 0 then {} else Below(n - 1) + {n - 1}
  }

  lemma {:induction false} BelowFacts(n: nat)
    ensures |Below(n)| == n && forall v :: v in Below(n) <==> 0 <= v < n
  {
    if n > 0 {
      BelowFacts(n - 1);
    }
  }

  lemma FinishedSmall(finished: set<int>, curr: int, n: nat)
    requires curr !in finished && 0 <= curr < n && forall v :: v in finished ==> 0 <= v < n
    ensures |finished| < n
  {
    BelowFacts(n);
    forall v | v in finished + {curr} ensures v in Below(n)
    {
      assert 0 <= v < n;
    }
    var rest := Below(n) - (finished + {curr});
    assert Below(n) == (finished + {curr}) + rest;
    assert |Below(n)| == |finished + {curr}| + |rest|;
  }

  /** The search while the successors of curr are being visited. */
  ghost predicate Visiting(g: Graph, from: int, visited: seq<bool>, prev: seq<int>, dist: map<int, nat>,
                           finished: set<int>, curr: int, queue: seq<int>, level: nat)
  {
    && Tree(g, from, dist, prev) && Marks(visited, dist, |g.nodes|)
    && Frontier(dist, queue, level) && Covers(dist, finished + {curr}, queue)
    && ClosedAt(g, dist, finished, level) && Simple(queue)
    && curr in dist && dist[curr] == level
    && forall v :: v in finished + {curr} ==> v !in queue
  }

  lemma TreeGrows(g: Graph, from: int, dist: map<int, nat>, prev: seq<int>, curr: int, v: int)
    requires Tree(g, from, dist, prev) && curr in dist && v !in dist && Edge(g, curr, v)
    ensures Tree(g, from, dist[v := dist[curr] + 1], prev[v := curr])
  {
  }

  lemma VisitGrows(g: Graph, from: int, visited: seq<bool>, prev: seq<int>, dist: map<int, nat>,
                   finished: set<int>, curr: int, queue: seq<int>, level: nat, v: int)
    requires Visiting(g, from, visited, prev, dist, finished, curr, queue, level)
    requires Edge(g, curr, v) && v !in dist
    ensures Visiting(g, from, visited[v := true], prev[v := curr], dist[v := level + 1], finished, curr, queue + [v], level)
  {
    TreeGrows(g, from, dist, prev, curr, v);
    var dist', queue' := dist[v := level + 1], queue + [v];
    assert Frontier(dist', queue', level);
    assert ClosedAt(g, dist', finished, level);
    assert Simple(queue') by { assert v !in queue; }
    forall u | u in dist' ensures u in finished + {curr} || u in queue'
    {
      assert v in queue';
    }
  }

  /** No found vertex is further than one step beyond the level. */
  lemma VisitedNear(g: Graph, from: int, visited: seq<bool>, prev: seq<int>, dist: map<int, nat>,
                    finished: set<int>, curr: int, queue: seq<int>, level: nat, v: int)
    requires Visiting(g, from, visited, prev, dist, finished, curr, queue, level) && v in dist
    ensures dist[v] <= level + 1
  {
    if v in queue {
      var i :| 0 <= i < |queue| && queue[i] == v;
    }
  }

  /** Visits one successor of curr. */
  method Visit(g: Graph, from: int, curr: int, v: int, visited: array<bool>, prev: array<int>,
               queue: seq<int>, ghost dist: map<int, nat>, ghost finished: set<int>, ghost level: nat)
    returns (queue': seq<int>, ghost dist': map<int, nat>)
    requires Edge(g, curr, v)
    requires Visiting(g, from, visited[..], prev[..], dist, finished, curr, queue, level)
    modifies visited, prev
    ensures Visiting(g, from, visited[..], prev[..], dist', finished, curr, queue', level)
    ensures dist'.Keys == dist.Keys + {v}
  {
    queue', dist' := queue, dist;
    if !visited[v] {
      VisitGrows(g, from, visited[..], prev[..], dist, finished, curr, queue, level, v);
      visited[v] := true;
      prev[v] := curr;
      queue' := queue + [v];
      dist' := dist[v := level + 1];
    }
  }

  /** Visits the successors of curr. */
  method Expand(g: Graph, adj: map<int, seq<int>>, from: int, curr: int, visited: array<bool>, prev: array<int>,
                queue: seq<int>, ghost dist: map<int, nat>, ghost finished: set<int>, ghost level: nat)
    returns (queue': seq<int>, ghost dist': map<int, nat>)
    requires forall a, b :: (a in adj && b in adj[a]) <==> Edge(g, a, b)
    requires Visiting(g, from, visited[..], prev[..], dist, finished, curr, queue, level)
    modifies visited, prev
    ensures Visiting(g, from, visited[..], prev[..], dist', finished, curr, queue', level)
    ensures ClosedAt(g, dist', finished + {curr}, level)
  {
    var next := if curr in adj then adj[curr] else [];
    assert forall v :: v in next <==> Edge(g, curr, v);
    queue', dist' := VisitEach(g, from, curr, next, visited, prev, queue, dist, finished, level);
    SuccessorsNear(g, from, visited[..], prev[..], dist', finished, curr, queue', level);
  }

  method VisitEach(g: Graph, from: int, curr: int, next: seq<int>, visited: array<bool>, prev: array<int>,
                   queue: seq<int>, ghost dist: map<int, nat>, ghost finished: set<int>, ghost level: nat)
    returns (queue': seq<int>, ghost dist': map<int, nat>)
    requires forall v :: v in next ==> Edge(g, curr, v)
    requires Visiting(g, from, visited[..], prev[..], dist, finished, curr, queue, level)
    modifies visited, prev
    ensures Visiting(g, from, visited[..], prev[..], dist', finished, curr, queue', level)
    ensures forall v :: v in next ==> v in dist'
  {
    queue', dist' := queue, dist;
    for i := 0 to |next|
      invariant Visiting(g, from, visited[..], prev[..], dist', finished, curr, queue', level)
      invariant forall k :: 0 <= k < i ==> next[k] in dist'
    {
      queue', dist' := Visit(g, from, curr, next[i], visited, prev, queue', dist', finished, level);
    }
  }

  lemma SuccessorsNear(g: Graph, from: int, visited: seq<bool>, prev: seq<int>, dist: map<int, nat>,
                       finished: set<int>, curr: int, queue: seq<int>, level: nat)
    requires Visiting(g, from, visited, prev, dist, finished, curr, queue, level)
    requires forall v :: Edge(g, curr, v) ==> v in dist
    ensures ClosedAt(g, dist, finished + {curr}, level)
  {
    forall u, v | u in finished + {curr} && Edge(g, u, v) ensures v in dist && dist[v] <= dist[u] + 1
    {
      if u == curr {
        VisitedNear(g, from, visited, prev, dist, finished, curr, queue, level, v);
      }
    }
  }

  // ------------------------------------------------------------ reconstruction

  /** Follows prev from `to` back to `from`. */
  method Reconstruct(g: Graph, prev: array<int>, from: int, to: int, ghost dist: map<int, nat>) returns (path: seq<int>)
    requires Tree(g, from, dist, prev[..]) && to in dist
    ensures WalkFromTo(g, path, from, to) && Simple(path) && |path| == dist[to] + 1
  {
    path := [];
    var curr := to;
    while curr != from
      invariant Retraced(g, dist, path, curr, to)
      decreases dist[curr]
    {
      RetraceMore(g, dist, path, curr, to);
      path := [curr] + path;
      curr := prev[curr];
    }
    RetraceMore(g, dist, path, curr, to);
    path := [from] + path;
    LevelsSimple(dist, path);
  }

  /** path leads from a successor of curr to `to`, one level per step. */
  ghost predicate Retraced(g: Graph, dist: map<int, nat>, path: seq<int>, curr: int, to: int)
  {
    && curr in dist && to in dist && |path| + dist[curr] == dist[to] && Levels(dist, path, dist[curr] + 1)
    && (path == [] ==> curr == to)
    && (path != [] ==> Walk(g, path) && Edge(g, curr, path[0]) && path[|path| - 1] == to)
  }

  lemma RetraceMore(g: Graph, dist: map<int, nat>, path: seq<int>, curr: int, to: int)
    requires Retraced(g, dist, path, curr, to) && 0 <= curr < |g.nodes|
    ensures
      var p := [curr] + path;
      Walk(g, p) && Levels(dist, p, dist[curr]) && p[0] == curr && p[|p| - 1] == to && |p| + dist[curr] == dist[to] + 1
  {
    PrependWalk(g, curr, path);
    PrependLevel(dist, curr, path);
  }

  /** Distances along p count up from k. */
  ghost predicate Levels(dist: map<int, nat>, p: seq<int>, k: nat)
  {
    forall i :: 0 <= i < |p| ==> p[i] in dist && dist[p[i]] == k + i
  }

  lemma PrependLevel(dist: map<int, nat>, v: int, p: seq<int>)
    requires v in dist && Levels(dist, p, dist[v] + 1)
    ensures Levels(dist, [v] + p, dist[v])
  {
  }

  lemma LevelsSimple(dist: map<int, nat>, p: seq<int>)
    requires Levels(dist, p, 0)
    ensures Simple(p)
  {
    forall i, j | 0 <= i < j < |p| ensures p[i] != p[j]
    {
      assert dist[p[i]] == i && dist[p[j]] == j;
    }
  }

  lemma PrependWalk(g: Graph, v: int, p: seq<int>)
    requires 0 <= v < |g.nodes| && (p == [] || (Walk(g, p) && Edge(g, v, p[0])))
    ensures Walk(g, [v] + p)
  {
    var q := [v] + p;
    forall i | 0 <= i < |q| - 1 ensures Edge(g, q[i], q[i + 1])
    {
      if i > 0 { assert Edge(g, p[i - 1], p[i - 1 + 1]); }
    }
  }

  /** An upgrade path exists between the named versions. */
  ghost predicate PathExists(g: Graph, a: int, b: int)
  {
    exists p :: WalkFromTo(g, p, a, b)
  }

  method ShortestPathNodes(g: Graph, fromVersion: string, toVersion: string) returns (result: PathResult)
    ensures
      var from, to := VersionIndex(g.nodes, fromVersion), VersionIndex(g.nodes, toVersion);
      match result
      case VersionNotFound(v) => if from.None? then v == fromVersion else v == toVersion && to.None?
      case NoUpgradePath => from.Some? && to.Some? && !PathExists(g, from.value, to.value)
      case Found(nodes) =>
        (from.Some? && to.Some? && exists p :: IsShortest(g, p, from.value, to.value) && nodes == NodesAt(g, p))
    ensures result.Found? ==> LeadsBetween(g, result.path, fromVersion, toVersion)
  {
    var from := VersionIndex(g.nodes, fromVersion);
    if from.None? {
      return VersionNotFound(fromVersion);
    }
    var to := VersionIndex(g.nodes, toVersion);
    if to.None? {
      return VersionNotFound(toVersion);
    }
    var adj := Adjacency(g);
    var found, prev, dist := Search(g, adj, from.value, to.value);
    if !found {
      return NoUpgradePath;
    }
    var path := Reconstruct(g, prev, from.value, to.value, dist);
    assert IsShortest(g, path, from.value, to.value);
    result := Found(NodesAt(g, path));
    WalkConnects(g, path, from.value, to.value);
  }

  /** The graph lists an edge from node x to node y. */
  ghost predicate Connected(g: Graph, x: Node, y: Node)
  {
    exists a, b :: 0 <= a < |g.nodes| && 0 <= b < |g.nodes| && [a, b] in g.edges && g.nodes[a] == x && g.nodes[b] == y
  }

  /** nodes go from one version to the other along edges the graph lists. */
  ghost predicate LeadsBetween(g: Graph, nodes: seq<Node>, fromVersion: string, toVersion: string)
  {
    && nodes != [] && nodes[0].version == fromVersion && nodes[|nodes| - 1].version == toVersion
    && forall i :: 0 <= i < |nodes| - 1 ==> Connected(g, nodes[i], nodes[i + 1])
  }

  lemma WalkConnects(g: Graph, p: seq<int>, a: int, b: int)
    requires WalkFromTo(g, p, a, b)
    ensures LeadsBetween(g, NodesAt(g, p), g.nodes[a].version, g.nodes[b].version)
  {
    var nodes := NodesAt(g, p);
    forall i | 0 <= i < |nodes| - 1 ensures Connected(g, nodes[i], nodes[i + 1])
    {
      assert Edge(g, p[i], p[i + 1]);
    }
  }
}
