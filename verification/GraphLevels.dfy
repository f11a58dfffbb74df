/** The worklist that gives every node of an execution graph its column. The graph may have cycles and
    edges to ids that are no nodes; an id is queued once and expanded once, so a level that is raised
    later is not passed on. */
module GraphLevels {
  import Places

  /** Ids stand for their rank in the collation that orders a column. */
  type Id = int

  datatype Node = Node(id: Id, caption: string)

  datatype Edge = Edge(source: Id, target: Id)

  datatype Graph = Graph(nodes: seq<Node>, edges: seq<Edge>)

  // ---- Edges and starting nodes

  function InDegree(edges: seq<Edge>, id: Id): nat {
    if edges == [] then 0
    else InDegree(edges[..|edges| - 1], id) + if edges[|edges| - 1].target == id then 1 else 0
  }

  function Targets(edges: seq<Edge>, id: Id): seq<Id> {
    if edges == [] then []
    else Targets(edges[..|edges| - 1], id) + if edges[|edges| - 1].source == id then [edges[|edges| - 1].target] else []
  }

  predicate HasEdge(g: Graph, source: Id, target: Id) {
    Edge(source, target) in g.edges
  }

  function Unreferenced(nodes: seq<Node>, edges: seq<Edge>): seq<Id> {
    if nodes == [] then []
    else
      var last := nodes[|nodes| - 1].id;
      Unreferenced(nodes[..|nodes| - 1], edges) + if InDegree(edges, last) == 0 then [last] else []
  }

  /** The nodes without incoming edges, or else the first node. */
  function Starts(g: Graph): seq<Id> {
    var roots := Unreferenced(g.nodes, g.edges);
    if roots == [] && g.nodes != [] then [g.nodes[0].id] else roots
  }

  ghost function Universe(g: Graph): set<Id> {
    (set node | node in g.nodes :: node.id) + (set edge | edge in g.edges :: edge.target)
  }

  function GetOr<T>(m: map<Id, T>, id: Id, default: T): T {
    if id in m then m[id] else default
  }

  ghost predicate Distinct(ids: seq<Id>) {
    forall i, j | 0 <= i < j < |ids| :: ids[i] != ids[j]
  }

  lemma {:induction false} TargetsAreEdges(edges: seq<Edge>, source: Id, target: Id)
    ensures target in Targets(edges, source) <==> Edge(source, target) in edges
    decreases |edges|
  {
    if edges != [] {
      TargetsAreEdges(edges[..|edges| - 1], source, target);
      assert edges == edges[..|edges| - 1] + [edges[|edges| - 1]];
    }
  }

  lemma {:induction false} UnreferencedAreNodes(nodes: seq<Node>, edges: seq<Edge>, id: Id)
    requires id in Unreferenced(nodes, edges)
    ensures exists i :: 0 <= i < |nodes| && nodes[i].id == id
    decreases |nodes|
  {
    var shorter := nodes[..|nodes| - 1];
    if id in Unreferenced(shorter, edges) {
      UnreferencedAreNodes(shorter, edges, id);
      var i :| 0 <= i < |shorter| && shorter[i].id == id;
      assert nodes[i].id == id;
    } else {
      assert nodes[|nodes| - 1].id == id;
    }
  }

  ghost predicate DistinctIds(nodes: seq<Node>) {
    forall i, j | 0 <= i < j < |nodes| :: nodes[i].id != nodes[j].id
  }

  lemma {:induction false} NotUnreferenced(nodes: seq<Node>, edges: seq<Edge>, id: Id)
    requires forall i | 0 <= i < |nodes| :: nodes[i].id != id
    ensures id !in Unreferenced(nodes, edges)
    decreases |nodes|
  {
    if nodes != [] {
      NotUnreferenced(nodes[..|nodes| - 1], edges, id);
    }
  }

  lemma {:induction false} UnreferencedDistinct(nodes: seq<Node>, edges: seq<Edge>)
    requires DistinctIds(nodes)
    ensures Distinct(Unreferenced(nodes, edges))
    decreases |nodes|
  {
    if nodes != [] {
      var shorter, last := nodes[..|nodes| - 1], nodes[|nodes| - 1].id;
      UnreferencedDistinct(shorter, edges);
      NotUnreferenced(shorter, edges, last);
    }
  }

  ghost predicate Untargeted(edges: seq<Edge>, id: Id) {
    forall edge | edge in edges :: edge.target != id
  }

  /** A node that no edge points to. */
  ghost predicate Root(g: Graph, id: Id) {
    (exists node :: node in g.nodes && node.id == id) && Untargeted(g.edges, id)
  }

  /** Where the layout begins: at every root, or at the first node of a graph without one. */
  ghost predicate Beginning(g: Graph, id: Id) {
    if exists root :: Root(g, root) then Root(g, id) else g.nodes != [] && id == g.nodes[0].id
  }

  lemma {:induction false} InDegreeCounts(edges: seq<Edge>, id: Id)
    ensures InDegree(edges, id) == 0 <==> Untargeted(edges, id)
    decreases |edges|
  {
    if edges != [] {
      InDegreeCounts(edges[..|edges| - 1], id);
      assert edges == edges[..|edges| - 1] + [edges[|edges| - 1]];
    }
  }

  lemma {:induction false} UnreferencedExactly(nodes: seq<Node>, edges: seq<Edge>, id: Id)
    ensures id in Unreferenced(nodes, edges) <==>
              (exists node :: node in nodes && node.id == id) && Untargeted(edges, id)
    decreases |nodes|
  {
    if nodes != [] {
      var shorter, last := nodes[..|nodes| - 1], nodes[|nodes| - 1];
      UnreferencedExactly(shorter, edges, id);
      InDegreeCounts(edges, last.id);
      assert nodes == shorter + [last];
      assert last in nodes;
    }
  }

  /** The starting nodes, from the edges alone. */
  lemma StartsExactly(g: Graph)
    ensures forall id :: id in Starts(g) <==> Beginning(g, id)
  {
    var roots := Unreferenced(g.nodes, g.edges);
    forall id
      ensures id in roots <==> Root(g, id)
    {
      UnreferencedExactly(g.nodes, g.edges, id);
    }
    if roots != [] {
      assert Root(g, roots[0]);
    }
  }

  /** The targets of an id are those of its edges, in the order of the edges. */
  ghost predicate TargetPlaces(edges: seq<Edge>, id: Id, targets: seq<Id>, places: seq<nat>) {
    && Places.InOrder(places, |edges|) && |targets| == |places|
    && (forall p | 0 <= p < |places| :: edges[places[p]] == Edge(id, targets[p]))
    && (forall k: nat | k < |edges| && edges[k].source == id :: k in places)
  }

  lemma {:induction false} TargetsInOrder(edges: seq<Edge>, id: Id) returns (places: seq<nat>)
    ensures TargetPlaces(edges, id, Targets(edges, id), places)
    decreases |edges|
  {
    if edges == [] {
      places := [];
    } else {
      var n := |edges| - 1;
      places := TargetsInOrder(edges[..n], id);
      if edges[n].source == id {
        Places.InOrderThen(places, n);
        places := places + [n];
        assert n in places;
      }
    }
  }

  /** The roots come in the order of the nodes. */
  ghost predicate RootPlaces(nodes: seq<Node>, edges: seq<Edge>, roots: seq<Id>, places: seq<nat>) {
    && Places.InOrder(places, |nodes|) && |roots| == |places|
    && (forall p | 0 <= p < |places| :: nodes[places[p]].id == roots[p])
    && (forall k: nat | k < |nodes| :: k in places <==> Untargeted(edges, nodes[k].id))
  }

  lemma {:induction false} RootsInOrder(nodes: seq<Node>, edges: seq<Edge>) returns (places: seq<nat>)
    ensures RootPlaces(nodes, edges, Unreferenced(nodes, edges), places)
    decreases |nodes|
  {
    if nodes == [] {
      places := [];
    } else {
      var n := |nodes| - 1;
      places := RootsInOrder(nodes[..n], edges);
      InDegreeCounts(edges, nodes[n].id);
      if InDegree(edges, nodes[n].id) == 0 {
        Places.InOrderThen(places, n);
        RootNext(nodes, edges, places);
        places := places + [n];
      }
    }
  }

  lemma RootNext(nodes: seq<Node>, edges: seq<Edge>, places: seq<nat>)
    requires nodes != [] && Untargeted(edges, nodes[|nodes| - 1].id)
    requires var n := |nodes| - 1; RootPlaces(nodes[..n], edges, Unreferenced(nodes[..n], edges), places)
    ensures var n := |nodes| - 1;
            forall k: nat | k < |nodes| :: k in places + [n] <==> Untargeted(edges, nodes[k].id)
  {
    var n := |nodes| - 1;
    forall k: nat | k < |nodes|
      ensures k in places + [n] <==> Untargeted(edges, nodes[k].id)
    {
      assert k < n ==> nodes[..n][k] == nodes[k];
    }
  }

  lemma StartsAreNodes(g: Graph)
    ensures forall id | id in Starts(g) :: id in Universe(g)
    ensures DistinctIds(g.nodes) ==> Distinct(Starts(g))
  {
    forall id | id in Unreferenced(g.nodes, g.edges)
      ensures id in Universe(g)
    {
      UnreferencedAreNodes(g.nodes, g.edges, id);
      var i :| 0 <= i < |g.nodes| && g.nodes[i].id == id;
      assert g.nodes[i] in g.nodes;
    }
    if g.nodes != [] {
      assert g.nodes[0] in g.nodes;
    }
    if DistinctIds(g.nodes) {
      UnreferencedDistinct(g.nodes, g.edges);
    }
  }

  // ---- One expansion

  datatype Work = Work(levels: map<Id, nat>, queue: seq<Id>)

  /** One outgoing edge: raise the target's level, and queue it if it never was. */
  function Visit(w: Work, target: Id, level: nat): Work {
    Work(if target !in w.levels || level > w.levels[target] then w.levels[target := level] else w.levels,
         if target !in w.queue then w.queue + [target] else w.queue)
  }

  /** The queue, the levels, and for every position expanded so far the level it was expanded at. Of
      the last expansion only the first `done` edges have been followed. */
  ghost predicate Queued(g: Graph, w: Work) {
    && (forall id :: id in w.levels <==> id in w.queue)
    && (forall id | id in w.queue :: id in Universe(g))
    && (forall id | id in Starts(g) :: id in w.queue)
    && (DistinctIds(g.nodes) ==> Distinct(w.queue))
  }

  /** A level is zero at a starting node, or one more than that of an expansion with an edge to it. */
  ghost predicate Earned(g: Graph, w: Work, at: seq<nat>, id: Id, level: nat, before: nat)
    requires before <= |at| <= |w.queue|
  {
    || (level == 0 && id in Starts(g))
    || exists i | 0 <= i < before :: HasEdge(g, w.queue[i], id) && level == at[i] + 1
  }

  ghost predicate Supported(g: Graph, w: Work, at: seq<nat>) {
    && |at| <= |w.queue|
    && (forall id {:trigger Earned(g, w, at, id, w.levels[id], |at|)} | id in w.levels ::
          Earned(g, w, at, id, w.levels[id], |at|))
    && (forall i {:trigger Earned(g, w, at, w.queue[i], at[i], i)} | 0 <= i < |at| ::
          Earned(g, w, at, w.queue[i], at[i], i))
  }

  ghost predicate Followed(w: Work, at: seq<nat>, i: nat, target: Id)
    requires i < |at|
  {
    target in w.levels && at[i] + 1 <= w.levels[target]
  }

  /** The edges of an expansion have been followed: all of them, or the first `done` of the last one. */
  ghost predicate FollowedAt(g: Graph, w: Work, at: seq<nat>, i: nat, done: nat)
    requires i < |at| <= |w.queue|
  {
    var targets := Targets(g.edges, w.queue[i]);
    forall k | 0 <= k < |targets| && (i < |at| - 1 || k < done) :: Followed(w, at, i, targets[k])
  }

  ghost predicate Passed(g: Graph, w: Work, at: seq<nat>, done: nat) {
    |at| <= |w.queue| && forall i | 0 <= i < |at| :: FollowedAt(g, w, at, i, done)
  }

  ghost predicate Ascending(g: Graph, w: Work, at: seq<nat>) {
    && |at| <= |w.queue|
    && (forall i, j | 0 <= i < j < |at| && HasEdge(g, w.queue[i], w.queue[j]) :: at[i] + 1 <= at[j])
  }

  ghost predicate Inv(g: Graph, w: Work, at: seq<nat>, done: nat) {
    Queued(g, w) && Supported(g, w, at) && Passed(g, w, at, done) && Ascending(g, w, at)
  }

  /** All edges of every expansion have been followed. */
  ghost predicate Complete(g: Graph, w: Work, at: seq<nat>) {
    Inv(g, w, at, |g.edges|)
  }

  lemma {:induction false} TargetsBounded(edges: seq<Edge>, id: Id)
    ensures |Targets(edges, id)| <= |edges|
    decreases |edges|
  {
    if edges != [] {
      TargetsBounded(edges[..|edges| - 1], id);
    }
  }

  lemma EdgeFollowed(g: Graph, w: Work, at: seq<nat>, i: nat, target: Id)
    requires |at| <= |w.queue| && Passed(g, w, at, |g.edges|) && i < |at| && HasEdge(g, w.queue[i], target)
    ensures target in w.levels && at[i] + 1 <= w.levels[target]
  {
    TargetsAreEdges(g.edges, w.queue[i], target);
    TargetsBounded(g.edges, w.queue[i]);
    assert FollowedAt(g, w, at, i, |g.edges|);
    var targets := Targets(g.edges, w.queue[i]);
    var k: nat :| k < |targets| && targets[k] == target;
    assert Followed(w, at, i, targets[k]);
  }

  lemma NextIsLevelled(g: Graph, w: Work, n: nat)
    requires Queued(g, w) && n < |w.queue|
    ensures w.queue[n] in w.levels
  {
    var id: Id := w.queue[n];
    assert id in w.queue;
  }

  lemma StartPassed(g: Graph, w: Work, at: seq<nat>, level: nat)
    requires Passed(g, w, at, |g.edges|) && |at| < |w.queue|
    ensures Passed(g, w, at + [level], 0)
  {
    var at' := at + [level];
    forall i | 0 <= i < |at'|
      ensures FollowedAt(g, w, at', i, 0)
    {
      if i < |at| {
        assert FollowedAt(g, w, at, i, |g.edges|);
        TargetsBounded(g.edges, w.queue[i]);
        var targets := Targets(g.edges, w.queue[i]);
        forall k | 0 <= k < |targets|
          ensures Followed(w, at', i, targets[k])
        {
          assert Followed(w, at, i, targets[k]);
        }
      }
    }
  }

  lemma StartAscending(g: Graph, w: Work, at: seq<nat>)
    requires Passed(g, w, at, |g.edges|) && Ascending(g, w, at) && |at| < |w.queue| && w.queue[|at|] in w.levels
    ensures Ascending(g, w, at + [w.levels[w.queue[|at|]]])
  {
    var n := |at|;
    var at' := at + [w.levels[w.queue[n]]];
    forall i, j | 0 <= i < j < |at'| && HasEdge(g, w.queue[i], w.queue[j])
      ensures at'[i] + 1 <= at'[j]
    {
      if j == n {
        EdgeFollowed(g, w, at, i, w.queue[n]);
      }
    }
  }

  /** Taking the next id from the queue. */
  lemma StartExpansion(g: Graph, w: Work, at: seq<nat>)
    requires Complete(g, w, at) && |at| < |w.queue|
    ensures w.queue[|at|] in w.levels
    ensures Inv(g, w, at + [w.levels[w.queue[|at|]]], 0)
  {
    NextIsLevelled(g, w, |at|);
    StartSupported(g, w, at);
    StartPassed(g, w, at, w.levels[w.queue[|at|]]);
    StartAscending(g, w, at);
  }

  lemma EarnedMore(g: Graph, w: Work, at: seq<nat>, w': Work, at': seq<nat>, id: Id, level: nat, before: nat, more: nat)
    requires before <= |at| <= |w.queue| && before <= more <= |at'| <= |w'.queue|
    requires |at| <= |at'| && at'[..|at|] == at && |w.queue| <= |w'.queue| && w'.queue[..|w.queue|] == w.queue
    requires Earned(g, w, at, id, level, before)
    ensures Earned(g, w', at', id, level, more)
  {
    if !(level == 0 && id in Starts(g)) {
      var i :| 0 <= i < before && HasEdge(g, w.queue[i], id) && level == at[i] + 1;
      assert w'.queue[i] == w'.queue[..|w.queue|][i] && at'[i] == at'[..|at|][i];
    }
  }

  /** One more expansion takes nothing from what was earned before. */
  lemma EarnedBefore(g: Graph, w: Work, at: seq<nat>, next: nat, id: Id, level: nat, before: nat, more: nat)
    requires before <= more <= |at| + 1 && before <= |at| < |w.queue| && Earned(g, w, at, id, level, before)
    ensures Earned(g, w, at + [next], id, level, more)
  {
    assert (at + [next])[..|at|] == at && w.queue[..|w.queue|] == w.queue;
    EarnedMore(g, w, at, w, at + [next], id, level, before, more);
  }

  lemma StartEarned(g: Graph, w: Work, at: seq<nat>, i: nat)
    requires Supported(g, w, at) && i <= |at| < |w.queue| && w.queue[|at|] in w.levels
    ensures var at' := at + [w.levels[w.queue[|at|]]]; Earned(g, w, at', w.queue[i], at'[i], i)
  {
    var next := w.levels[w.queue[|at|]];
    if i < |at| {
      assert Earned(g, w, at, w.queue[i], at[i], i);
      EarnedBefore(g, w, at, next, w.queue[i], at[i], i, i);
    } else {
      assert Earned(g, w, at, w.queue[i], next, i);
      EarnedBefore(g, w, at, next, w.queue[i], next, i, i);
    }
  }

  lemma StartSupported(g: Graph, w: Work, at: seq<nat>)
    requires Supported(g, w, at) && |at| < |w.queue| && w.queue[|at|] in w.levels
    ensures Supported(g, w, at + [w.levels[w.queue[|at|]]])
  {
    var n, next := |at|, w.levels[w.queue[|at|]];
    var at' := at + [next];
    forall id | id in w.levels
      ensures Earned(g, w, at', id, w.levels[id], |at'|)
    {
      EarnedBefore(g, w, at, next, id, w.levels[id], n, n + 1);
    }
    forall i | 0 <= i < |at'|
      ensures Earned(g, w, at', w.queue[i], at'[i], i)
    {
      StartEarned(g, w, at, i);
    }
  }

  lemma VisitQueued(g: Graph, w: Work, target: Id, level: nat)
    requires Queued(g, w) && target in Universe(g)
    ensures Queued(g, Visit(w, target, level))
  {
  }

  lemma VisitEarned(g: Graph, w: Work, at: seq<nat>, target: Id, id: Id)
    requires Supported(g, w, at) && |at| > 0 && HasEdge(g, w.queue[|at| - 1], target)
    requires id in Visit(w, target, at[|at| - 1] + 1).levels
    ensures var w' := Visit(w, target, at[|at| - 1] + 1); Earned(g, w', at, id, w'.levels[id], |at|)
  {
    var n := |at|;
    var w' := Visit(w, target, at[n - 1] + 1);
    assert w'.queue[..|w.queue|] == w.queue && at[..n] == at;
    if id in w.levels && w'.levels[id] == w.levels[id] {
      EarnedMore(g, w, at, w', at, id, w.levels[id], n, n);
    } else {
      assert HasEdge(g, w'.queue[n - 1], id) && w'.levels[id] == at[n - 1] + 1;
    }
  }

  lemma StillEarned(g: Graph, w: Work, at: seq<nat>, w': Work, i: nat)
    requires Supported(g, w, at) && w.queue <= w'.queue && i < |at|
    ensures Earned(g, w', at, w'.queue[i], at[i], i)
  {
    assert Earned(g, w, at, w.queue[i], at[i], i);
    assert at[..|at|] == at && w'.queue[i] == w.queue[i];
    EarnedMore(g, w, at, w', at, w.queue[i], at[i], i, i);
  }

  lemma VisitSupported(g: Graph, w: Work, at: seq<nat>, target: Id)
    requires Supported(g, w, at) && |at| > 0 && HasEdge(g, w.queue[|at| - 1], target)
    ensures Supported(g, Visit(w, target, at[|at| - 1] + 1), at)
  {
    var w' := Visit(w, target, at[|at| - 1] + 1);
    forall id | id in w'.levels
      ensures Earned(g, w', at, id, w'.levels[id], |at|)
    {
      VisitEarned(g, w, at, target, id);
    }
    forall i | 0 <= i < |at|
      ensures Earned(g, w', at, w'.queue[i], at[i], i)
    {
      StillEarned(g, w, at, w', i);
    }
  }

  lemma VisitPassed(g: Graph, w: Work, at: seq<nat>, done: nat)
    requires Passed(g, w, at, done) && |at| > 0 && done < |Targets(g.edges, w.queue[|at| - 1])|
    ensures Passed(g, Visit(w, Targets(g.edges, w.queue[|at| - 1])[done], at[|at| - 1] + 1), at, done + 1)
  {
    var n := |at|;
    var w' := Visit(w, Targets(g.edges, w.queue[n - 1])[done], at[n - 1] + 1);
    var more := done + 1;
    forall i | 0 <= i < n
      ensures FollowedAt(g, w', at, i, more)
    {
      assert w'.queue[i] == w.queue[i];
      assert FollowedAt(g, w, at, i, done);
      var targets := Targets(g.edges, w.queue[i]);
      forall k | 0 <= k < |targets| && (i < n - 1 || k < more)
        ensures Followed(w', at, i, targets[k])
      {
        if i < n - 1 || k < done {
          assert Followed(w, at, i, targets[k]);
        }
      }
    }
  }

  lemma VisitAscending(g: Graph, w: Work, at: seq<nat>, target: Id, level: nat)
    requires Ascending(g, w, at)
    ensures Ascending(g, Visit(w, target, level), at)
  {
    var w' := Visit(w, target, level);
    assert forall i | 0 <= i < |at| :: w'.queue[i] == w.queue[i];
  }

  /** Following the next edge of the expansion. */
  lemma FollowEdge(g: Graph, w: Work, at: seq<nat>, done: nat, target: Id, w': Work)
    requires Inv(g, w, at, done) && |at| > 0 && done < |Targets(g.edges, w.queue[|at| - 1])|
    requires target == Targets(g.edges, w.queue[|at| - 1])[done] && w' == Visit(w, target, at[|at| - 1] + 1)
    ensures Inv(g, w', at, done + 1)
  {
    TargetsAreEdges(g.edges, w.queue[|at| - 1], target);
    assert target in Universe(g);
    VisitQueued(g, w, target, at[|at| - 1] + 1);
    VisitSupported(g, w, at, target);
    VisitPassed(g, w, at, done);
    VisitAscending(g, w, at, target, at[|at| - 1] + 1);
  }

  lemma EndPassed(g: Graph, w: Work, at: seq<nat>)
    requires 0 < |at| <= |w.queue| && Passed(g, w, at, |Targets(g.edges, w.queue[|at| - 1])|)
    ensures Passed(g, w, at, |g.edges|)
  {
    forall i | 0 <= i < |at|
      ensures FollowedAt(g, w, at, i, |g.edges|)
    {
      assert FollowedAt(g, w, at, i, |Targets(g.edges, w.queue[|at| - 1])|);
    }
  }

  // ---- The worklist

  method CountIncoming(g: Graph) returns (incoming: map<Id, nat>, outgoing: map<Id, seq<Id>>)
    ensures forall id :: GetOr(incoming, id, 0) == InDegree(g.edges, id)
    ensures forall id :: GetOr(outgoing, id, []) == Targets(g.edges, id)
  {
    incoming, outgoing := map[], map[];
    for i := 0 to |g.nodes|
      invariant forall id | id in incoming :: incoming[id] == 0
      invariant forall id | id in outgoing :: outgoing[id] == []
    {
      incoming := incoming[g.nodes[i].id := 0];
      outgoing := outgoing[g.nodes[i].id := []];
    }
    for i := 0 to |g.edges|
      invariant forall id :: GetOr(incoming, id, 0) == InDegree(g.edges[..i], id)
      invariant forall id :: GetOr(outgoing, id, []) == Targets(g.edges[..i], id)
    {
      var edge := g.edges[i];
      assert g.edges[..i + 1][..i] == g.edges[..i];
      incoming := incoming[edge.target := GetOr(incoming, edge.target, 0) + 1];
      outgoing := outgoing[edge.source := GetOr(outgoing, edge.source, []) + [edge.target]];
    }
    assert g.edges[..|g.edges|] == g.edges;
  }

  method StartingQueue(g: Graph, incoming: map<Id, nat>) returns (queue: seq<Id>)
    requires forall id :: GetOr(incoming, id, 0) == InDegree(g.edges, id)
    ensures queue == Starts(g)
  {
    queue := [];
    for i := 0 to |g.nodes|
      invariant queue == Unreferenced(g.nodes[..i], g.edges)
    {
      assert g.nodes[..i + 1][..i] == g.nodes[..i];
      if GetOr(incoming, g.nodes[i].id, 0) == 0 {
        queue := queue + [g.nodes[i].id];
      }
    }
    assert g.nodes[..|g.nodes|] == g.nodes;
    if queue == [] && g.nodes != [] {
      queue := queue + [g.nodes[0].id];
    }
  }

  ghost function Ids(queue: seq<Id>): set<Id> {
    set id | id in queue
  }

  /** The queue is left alone, or a new id is on it. */
  ghost predicate Grown(before: seq<Id>, after: seq<Id>) {
    before <= after && (before == after || after[|before|] !in before)
  }

  lemma VisitGrows(before: seq<Id>, w: Work, target: Id, level: nat)
    requires Grown(before, w.queue)
    ensures Grown(before, Visit(w, target, level).queue)
  {
  }

  /** All outgoing edges of one expansion, in order. */
  function VisitAll(w: Work, targets: seq<Id>, level: nat): Work {
    if targets == [] then w
    else Visit(VisitAll(w, targets[..|targets| - 1], level), targets[|targets| - 1], level + 1)
  }

  method Expand(w: Work, targets: seq<Id>, currentLevel: nat) returns (w': Work)
    ensures w' == VisitAll(w, targets, currentLevel)
  {
    var levels: map<Id, nat> := w.levels;
    var queue := w.queue;
    for k := 0 to |targets|
      invariant Work(levels, queue) == VisitAll(w, targets[..k], currentLevel)
    {
      assert targets[..k + 1][..k] == targets[..k];
      var nextLevel := currentLevel + 1;
      if targets[k] !in levels || nextLevel > levels[targets[k]] {
        levels := levels[targets[k] := nextLevel];
      }
      if targets[k] !in queue {
        queue := queue + [targets[k]];
      }
    }
    assert targets[..|targets|] == targets;
    w' := Work(levels, queue);
  }

  lemma {:induction false} VisitAllKeeps(g: Graph, w: Work, at: seq<nat>, targets: seq<Id>)
    requires Inv(g, w, at, 0) && |at| > 0 && targets <= Targets(g.edges, w.queue[|at| - 1])
    ensures Inv(g, VisitAll(w, targets, at[|at| - 1]), at, |targets|)
    ensures Grown(w.queue, VisitAll(w, targets, at[|at| - 1]).queue)
    decreases |targets|
  {
    if targets != [] {
      var n := |targets| - 1;
      var earlier := VisitAll(w, targets[..n], at[|at| - 1]);
      VisitAllKeeps(g, w, at, targets[..n]);
      assert earlier.queue[|at| - 1] == w.queue[|at| - 1];
      var later := VisitAll(w, targets, at[|at| - 1]);
      FollowEdge(g, earlier, at, n, targets[n], later);
      VisitGrows(w.queue, earlier, targets[n], at[|at| - 1] + 1);
    }
  }

  lemma ExpandCompletes(g: Graph, w: Work, at: seq<nat>, w': Work)
    requires Inv(g, w, at, 0) && |at| > 0
    requires w' == VisitAll(w, Targets(g.edges, w.queue[|at| - 1]), at[|at| - 1])
    ensures Complete(g, w', at) && Grown(w.queue, w'.queue)
  {
    VisitAllKeeps(g, w, at, Targets(g.edges, w.queue[|at| - 1]));
    assert w'.queue[|at| - 1] == w.queue[|at| - 1];
    EndPassed(g, w', at);
  }

  method StartLevels(queue: seq<Id>) returns (levels: map<Id, nat>)
    ensures forall id :: id in levels <==> id in queue
    ensures forall id | id in levels :: levels[id] == 0
  {
    levels := map[];
    for i := 0 to |queue|
      invariant forall id :: id in levels <==> id in queue[..i]
      invariant forall id | id in levels :: levels[id] == 0
    {
      levels := levels[queue[i] := 0];
    }
    assert queue[..|queue|] == queue;
  }

  lemma StartComplete(g: Graph, levels: map<Id, nat>)
    requires forall id :: id in levels <==> id in Starts(g)
    requires forall id | id in levels :: levels[id] == 0
    ensures Complete(g, Work(levels, Starts(g)), [])
  {
    StartsAreNodes(g);
  }

  /** What remains to be queued shrinks, or an expansion is done. */
  lemma WorkShrinks(g: Graph, w: Work, before: seq<Id>)
    requires Queued(g, w) && Grown(before, w.queue)
    ensures before == w.queue || Universe(g) - Ids(w.queue) < Universe(g) - Ids(before)
  {
    if before != w.queue {
      var id: Id := w.queue[|before|];
      assert id in w.queue && id in Universe(g) - Ids(before);
      forall other | other in Ids(before)
        ensures other in Ids(w.queue)
      {
        assert other in before;
      }
    }
  }

  /** The outcome of the worklist: every queued id was expanded, once per place in the queue. */
  ghost predicate Settled(g: Graph, w: Work) {
    exists at :: Expanded(g, w, at)
  }

  ghost predicate Expanded(g: Graph, w: Work, at: seq<nat>) {
    Complete(g, w, at) && |at| == |w.queue|
  }

  // ---- The order of the queue

  /** The ids of a list that are not in the queue yet join it, in the order in which they first occur. */
  function Enqueued(queue: seq<Id>, ids: seq<Id>): seq<Id> {
    if ids == [] then queue
    else
      var earlier, last := Enqueued(queue, ids[..|ids| - 1]), ids[|ids| - 1];
      if last in earlier then earlier else earlier + [last]
  }

  /** What the first n expansions of a queue meet. */
  function Met(g: Graph, queue: seq<Id>, n: nat): seq<Id>
    requires n <= |queue|
  {
    if n == 0 then [] else Met(g, queue, n - 1) + Targets(g.edges, queue[n - 1])
  }

  /** The queue holds the starting nodes, and then each id in the order in which the expansions of the
      queue itself first meet it. */
  ghost predicate InTurn(g: Graph, queue: seq<Id>, n: nat) {
    n <= |queue| && queue == Enqueued(Starts(g), Met(g, queue, n))
  }

  lemma {:induction false} EnqueuedConcat(queue: seq<Id>, a: seq<Id>, b: seq<Id>)
    ensures Enqueued(Enqueued(queue, a), b) == Enqueued(queue, a + b)
    ensures queue <= Enqueued(queue, b)
    decreases |b|
  {
    if b == [] {
      assert a + b == a;
    } else {
      assert (a + b)[..|a + b| - 1] == a + b[..|b| - 1];
      EnqueuedConcat(queue, a, b[..|b| - 1]);
    }
  }

  lemma {:induction false} VisitAllEnqueues(w: Work, targets: seq<Id>, level: nat)
    ensures VisitAll(w, targets, level).queue == Enqueued(w.queue, targets)
    decreases |targets|
  {
    if targets != [] {
      VisitAllEnqueues(w, targets[..|targets| - 1], level);
    }
  }

  lemma {:induction false} MetPrefix(g: Graph, queue: seq<Id>, longer: seq<Id>, n: nat)
    requires n <= |queue| && queue <= longer
    ensures Met(g, queue, n) == Met(g, longer, n)
  {
    if n > 0 {
      MetPrefix(g, queue, longer, n - 1);
    }
  }

  lemma NextInTurn(g: Graph, w: Work, n: nat, level: nat)
    requires n < |w.queue| && InTurn(g, w.queue, n)
    ensures InTurn(g, VisitAll(w, Targets(g.edges, w.queue[n]), level).queue, n + 1)
  {
    var targets := Targets(g.edges, w.queue[n]);
    var longer := VisitAll(w, targets, level).queue;
    VisitAllEnqueues(w, targets, level);
    EnqueuedConcat(w.queue, [], targets);
    EnqueuedConcat(Starts(g), Met(g, w.queue, n), targets);
    MetPrefix(g, w.queue, longer, n);
  }

  /** Between two rounds of the worklist. */
  ghost predicate Ongoing(g: Graph, w: Work, at: seq<nat>) {
    Complete(g, w, at) && InTurn(g, w.queue, |at|)
  }

  /** One round: the next id is expanded at its current level. */
  lemma RoundKeeps(g: Graph, w: Work, at: seq<nat>, level: nat, w': Work)
    requires Ongoing(g, w, at) && |at| < |w.queue| && level == GetOr(w.levels, w.queue[|at|], 0)
    requires w' == VisitAll(w, Targets(g.edges, w.queue[|at|]), level)
    ensures Ongoing(g, w', at + [level])
    ensures w'.queue == w.queue || Universe(g) - Ids(w'.queue) < Universe(g) - Ids(w.queue)
  {
    StartExpansion(g, w, at);
    ExpandCompletes(g, w, at + [level], w');
    WorkShrinks(g, w', w.queue);
    NextInTurn(g, w, |at|, level);
  }

  /** The worklist ends on every graph. */
  method LevelNodes(g: Graph) returns (w: Work)
    ensures Settled(g, w) && InTurn(g, w.queue, |w.queue|)
  {
    var incoming, outgoing := CountIncoming(g);
    var queue := StartingQueue(g, incoming);
    var levels := StartLevels(queue);
    StartComplete(g, levels);
    assert Ongoing(g, Work(levels, queue), []);
    w := Work(levels, queue);
    ghost var at := [];
    var index := 0;
    while index < |w.queue|
      invariant index == |at| <= |w.queue|
      invariant Ongoing(g, w, at)
      decreases Universe(g) - Ids(w.queue), |w.queue| - index
    {
      ghost var before := w;
      var currentId := w.queue[index];
      index := index + 1;
      var currentLevel := GetOr(w.levels, currentId, 0);
      w := Expand(w, GetOr(outgoing, currentId, []), currentLevel);
      RoundKeeps(g, before, at, currentLevel, w);
      at := at + [currentLevel];
    }
    assert Expanded(g, w, at);
  }

  // ---- What the levels mean

  ghost predicate Walk(g: Graph, path: seq<Id>, id: Id) {
    && |path| >= 1 && Beginning(g, path[0]) && path[|path| - 1] == id
    && forall k | 0 <= k < |path| - 1 :: HasEdge(g, path[k], path[k + 1])
  }

  /** A walk to an id that leaves the queue's positions in increasing order. */
  ghost predicate ForwardWalk(g: Graph, queue: seq<Id>, positions: seq<nat>, id: Id) {
    && (forall k | 0 <= k < |positions| :: positions[k] < |queue|)
    && (forall k | 0 <= k < |positions| - 1 ::
          positions[k] < positions[k + 1] && HasEdge(g, queue[positions[k]], queue[positions[k + 1]]))
    && (if positions == [] then Beginning(g, id)
        else Beginning(g, queue[positions[0]]) && HasEdge(g, queue[positions[|positions| - 1]], id))
  }

  lemma {:induction false} StartWalk(g: Graph, path: seq<Id>, last: Id, id: Id)
    requires Walk(g, path, last) && HasEdge(g, last, id)
    ensures Walk(g, path + [id], id)
  {
    var longer := path + [id];
    forall k | 0 <= k < |longer| - 1
      ensures HasEdge(g, longer[k], longer[k + 1])
    {
      if k < |path| - 1 {
        assert HasEdge(g, path[k], path[k + 1]);
      }
    }
  }

  /** The forward walk behind the level of an expansion. */
  lemma {:induction false} ExpansionWalk(g: Graph, w: Work, at: seq<nat>, i: nat) returns (positions: seq<nat>)
    requires Supported(g, w, at) && i < |at|
    ensures ForwardWalk(g, w.queue, positions, w.queue[i]) && |positions| == at[i]
    ensures forall k | 0 <= k < |positions| :: positions[k] < i
    ensures at[i] <= i
    decreases i
  {
    StartsExactly(g);
    assert Earned(g, w, at, w.queue[i], at[i], i);
    if at[i] == 0 && w.queue[i] in Starts(g) {
      positions := [];
    } else {
      var j: nat :| j < i && HasEdge(g, w.queue[j], w.queue[i]) && at[i] == at[j] + 1;
      var earlier := ExpansionWalk(g, w, at, j);
      positions := ExtendForward(g, w.queue, earlier, j, w.queue[i]);
    }
  }

  lemma ExtendForward(g: Graph, queue: seq<Id>, earlier: seq<nat>, j: nat, id: Id) returns (positions: seq<nat>)
    requires j < |queue| && ForwardWalk(g, queue, earlier, queue[j]) && HasEdge(g, queue[j], id)
    requires forall k | 0 <= k < |earlier| :: earlier[k] < j
    ensures positions == earlier + [j] && ForwardWalk(g, queue, positions, id)
  {
    positions := earlier + [j];
    forall k | 0 <= k < |positions| - 1
      ensures positions[k] < positions[k + 1] && HasEdge(g, queue[positions[k]], queue[positions[k + 1]])
    {
      if k < |earlier| - 1 {
        assert earlier[k] < earlier[k + 1] && HasEdge(g, queue[earlier[k]], queue[earlier[k + 1]]);
      } else {
        assert positions[k] == earlier[|earlier| - 1] && positions[k + 1] == j;
      }
    }
  }

  /** Every level is the length of a forward walk, and at most the number of expansions. */
  lemma LevelHasWalk(g: Graph, w: Work, at: seq<nat>, id: Id) returns (positions: seq<nat>)
    requires Expanded(g, w, at) && id in w.levels
    ensures ForwardWalk(g, w.queue, positions, id) && |positions| == w.levels[id] <= |w.queue|
  {
    StartsExactly(g);
    assert Earned(g, w, at, id, w.levels[id], |at|);
    if w.levels[id] == 0 && id in Starts(g) {
      positions := [];
    } else {
      var i: nat :| i < |at| && HasEdge(g, w.queue[i], id) && w.levels[id] == at[i] + 1;
      var earlier := ExpansionWalk(g, w, at, i);
      positions := ExtendForward(g, w.queue, earlier, i, id);
    }
  }

  lemma {:induction false} ForwardClimbs(g: Graph, w: Work, at: seq<nat>, positions: seq<nat>, id: Id, k: nat)
    requires Expanded(g, w, at) && ForwardWalk(g, w.queue, positions, id) && k < |positions|
    ensures at[positions[k]] >= k
    decreases k
  {
    if k > 0 {
      ForwardClimbs(g, w, at, positions, id, k - 1);
      assert positions[k - 1] < positions[k - 1 + 1];
    }
  }

  lemma NoForwardIsLonger(g: Graph, w: Work, at: seq<nat>, positions: seq<nat>, id: Id)
    requires Expanded(g, w, at) && ForwardWalk(g, w.queue, positions, id) && id in w.levels
    ensures |positions| <= w.levels[id]
  {
    if positions != [] {
      ForwardClimbs(g, w, at, positions, id, |positions| - 1);
      EdgeFollowed(g, w, at, positions[|positions| - 1], id);
    }
  }

  /** The level of a visited id is the length of the longest walk to it that expands its ids in queue
      order: there is such a walk of that length, and none is longer. */
  lemma LevelIsLongestForward(g: Graph, w: Work, id: Id)
    requires Settled(g, w) && id in w.levels
    ensures exists positions :: ForwardWalk(g, w.queue, positions, id) && |positions| == w.levels[id]
    ensures forall positions | ForwardWalk(g, w.queue, positions, id) :: |positions| <= w.levels[id]
    ensures w.levels[id] <= |w.queue|
  {
    var at :| Expanded(g, w, at);
    var longest := LevelHasWalk(g, w, at, id);
    forall positions | ForwardWalk(g, w.queue, positions, id)
      ensures |positions| <= w.levels[id]
    {
      NoForwardIsLonger(g, w, at, positions, id);
    }
  }

  lemma {:induction false} ForwardIsWalk(g: Graph, queue: seq<Id>, positions: seq<nat>, id: Id) returns (path: seq<Id>)
    requires ForwardWalk(g, queue, positions, id)
    ensures Walk(g, path, id) && |path| == |positions| + 1
    decreases |positions|
  {
    if positions == [] {
      path := [id];
    } else {
      var n := |positions| - 1;
      var shorter := positions[..n];
      if n > 0 {
        assert positions[n - 1] < positions[n - 1 + 1];
      }
      var earlier := ForwardIsWalk(g, queue, shorter, queue[positions[n]]);
      StartWalk(g, earlier, queue[positions[n]], id);
      path := earlier + [id];
    }
  }

  lemma {:induction false} WalkIsQueued(g: Graph, w: Work, at: seq<nat>, path: seq<Id>, id: Id)
    requires Expanded(g, w, at) && Walk(g, path, id)
    ensures id in w.queue
    decreases |path|
  {
    StartsExactly(g);
    if |path| > 1 {
      var shorter := path[..|path| - 1];
      assert HasEdge(g, path[|path| - 2], path[|path| - 2 + 1]);
      WalkIsQueued(g, w, at, shorter, path[|path| - 2]);
      var i: nat :| i < |w.queue| && w.queue[i] == path[|path| - 2];
      EdgeFollowed(g, w, at, i, id);
    }
  }

  /** Exactly what can be reached from a starting node is visited, once each, and its level is the
      length of some walk to it. */
  lemma VisitedIsReachable(g: Graph, w: Work, id: Id)
    requires Settled(g, w)
    ensures id in w.queue <==> exists path :: Walk(g, path, id)
    ensures id in w.queue ==> id in w.levels && exists path :: Walk(g, path, id) && |path| == w.levels[id] + 1
    ensures DistinctIds(g.nodes) ==> Distinct(w.queue)
  {
    var at :| Expanded(g, w, at);
    if id in w.queue {
      var positions := LevelHasWalk(g, w, at, id);
      var path := ForwardIsWalk(g, w.queue, positions, id);
    }
    if path :| Walk(g, path, id) {
      WalkIsQueued(g, w, at, path, id);
    }
  }

  /** The id can be reached from where the layout begins. */
  ghost predicate Reached(g: Graph, id: Id) {
    exists path :: Walk(g, path, id)
  }

  lemma BehindIsReached(g: Graph, w: Work, at: seq<nat>, id: Id)
    requires Expanded(g, w, at) && id in w.levels && w.levels[id] > 0
    ensures exists source :: HasEdge(g, source, id) && Reached(g, source)
  {
    assert Earned(g, w, at, id, w.levels[id], |at|);
    var i :| 0 <= i < |at| && HasEdge(g, w.queue[i], id) && w.levels[id] == at[i] + 1;
    VisitedIsReachable(g, w, w.queue[i]);
  }

  /** A level is above zero exactly if an edge leads to the id from one that is reached. */
  lemma LevelsAboveZero(g: Graph, w: Work, id: Id)
    requires Settled(g, w)
    ensures GetOr(w.levels, id, 0) > 0 <==> exists source :: HasEdge(g, source, id) && Reached(g, source)
    ensures Root(g, id) ==> GetOr(w.levels, id, 0) == 0 && Reached(g, id)
  {
    var at :| Expanded(g, w, at);
    if GetOr(w.levels, id, 0) > 0 {
      BehindIsReached(g, w, at, id);
    }
    if source :| HasEdge(g, source, id) && Reached(g, source) {
      VisitedIsReachable(g, w, source);
      var i: nat :| i < |w.queue| && w.queue[i] == source;
      EdgeFollowed(g, w, at, i, id);
    }
    if Root(g, id) {
      assert Walk(g, [id], id);
      assert forall source :: HasEdge(g, source, id) ==> Edge(source, id).target == id;
    }
  }
}
