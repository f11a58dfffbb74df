/** From levels to positions: a column per level from left to right, and in each column a row per node
    in the order of the ids. */
module GraphPlacement {
  import opened GraphLevels

  datatype Placed = Placed(node: Node, x: nat, y: nat)

  function LevelOf(levels: map<Id, nat>, node: Node): nat {
    GetOr(levels, node.id, 0)
  }

  // ---- Columns and sorting

  function Column(nodes: seq<Node>, levels: map<Id, nat>, level: nat): seq<Node> {
    if nodes == [] then []
    else
      var last := nodes[|nodes| - 1];
      Column(nodes[..|nodes| - 1], levels, level) + if LevelOf(levels, last) == level then [last] else []
  }

  function InsertLevel(levels: seq<nat>, level: nat): seq<nat> {
    if levels != [] && levels[|levels| - 1] > level then InsertLevel(levels[..|levels| - 1], level) + [levels[|levels| - 1]]
    else levels + [level]
  }

  function SortLevels(levels: seq<nat>): seq<nat> {
    if levels == [] then [] else InsertLevel(SortLevels(levels[..|levels| - 1]), levels[|levels| - 1])
  }

  function InsertNode(nodes: seq<Node>, node: Node): seq<Node> {
    if nodes != [] && nodes[|nodes| - 1].id > node.id then InsertNode(nodes[..|nodes| - 1], node) + [nodes[|nodes| - 1]]
    else nodes + [node]
  }

  /** The library's sort keeps nodes of equal id in their order. */
  function SortNodes(nodes: seq<Node>): seq<Node> {
    if nodes == [] then [] else InsertNode(SortNodes(nodes[..|nodes| - 1]), nodes[|nodes| - 1])
  }

  // ---- Positions

  function Rows(column: seq<Node>, level: nat): (rows: seq<Placed>)
    ensures |rows| == |column|
    ensures forall row | 0 <= row < |column| :: rows[row] == Placed(column[row], level * 310, row * 168)
  {
    if column == [] then []
    else Rows(column[..|column| - 1], level) + [Placed(column[|column| - 1], level * 310, (|column| - 1) * 168)]
  }

  function PlaceColumns(nodes: seq<Node>, levels: map<Id, nat>, order: seq<nat>): seq<Placed> {
    if order == [] then []
    else
      var last := order[|order| - 1];
      PlaceColumns(nodes, levels, order[..|order| - 1]) + Rows(SortNodes(Column(nodes, levels, last)), last)
  }

  function NodesOf(placed: seq<Placed>): seq<Node> {
    if placed == [] then [] else NodesOf(placed[..|placed| - 1]) + [placed[|placed| - 1].node]
  }

  /** The levels that occur, once each. */
  ghost predicate Keys(nodes: seq<Node>, levels: map<Id, nat>, keys: seq<nat>) {
    && DistinctLevels(keys)
    && (forall level: nat :: level in keys <==> Column(nodes, levels, level) != [])
  }

  function Grouped(nodes: seq<Node>, levels: map<Id, nat>): map<nat, seq<Node>> {
    if nodes == [] then map[]
    else
      var columns := Grouped(nodes[..|nodes| - 1], levels);
      var level := LevelOf(levels, nodes[|nodes| - 1]);
      columns[level := (if level in columns then columns[level] else []) + [nodes[|nodes| - 1]]]
  }

  /** The keys of the grouping, in the order in which they first occur. */
  function Occurring(nodes: seq<Node>, levels: map<Id, nat>): seq<nat> {
    if nodes == [] then []
    else
      var keys := Occurring(nodes[..|nodes| - 1], levels);
      var level := LevelOf(levels, nodes[|nodes| - 1]);
      if level in keys then keys else keys + [level]
  }

  lemma {:induction false} GroupedMeans(nodes: seq<Node>, levels: map<Id, nat>, level: nat)
    ensures level in Grouped(nodes, levels) <==> level in Occurring(nodes, levels)
    ensures level in Grouped(nodes, levels) <==> Column(nodes, levels, level) != []
    ensures level in Grouped(nodes, levels) ==> Grouped(nodes, levels)[level] == Column(nodes, levels, level)
    decreases |nodes|
  {
    if nodes != [] {
      GroupedMeans(nodes[..|nodes| - 1], levels, level);
    }
  }

  ghost predicate DistinctLevels(keys: seq<nat>) {
    forall i, j | 0 <= i < j < |keys| :: keys[i] != keys[j]
  }

  lemma DistinctThen(keys: seq<nat>, level: nat)
    requires DistinctLevels(keys) && level !in keys
    ensures DistinctLevels(keys + [level])
  {
  }

  lemma {:induction false} OccurringDistinct(nodes: seq<Node>, levels: map<Id, nat>)
    ensures DistinctLevels(Occurring(nodes, levels))
    decreases |nodes|
  {
    if nodes != [] {
      var keys, level := Occurring(nodes[..|nodes| - 1], levels), LevelOf(levels, nodes[|nodes| - 1]);
      OccurringDistinct(nodes[..|nodes| - 1], levels);
      if level !in keys {
        DistinctThen(keys, level);
      }
    }
  }

  lemma OccurringKeys(nodes: seq<Node>, levels: map<Id, nat>)
    ensures Keys(nodes, levels, Occurring(nodes, levels))
  {
    OccurringDistinct(nodes, levels);
    forall level: nat
      ensures level in Occurring(nodes, levels) <==> Column(nodes, levels, level) != []
    {
      GroupedMeans(nodes, levels, level);
    }
  }

  method GroupNodes(nodes: seq<Node>, levels: map<Id, nat>) returns (columns: map<nat, seq<Node>>, keys: seq<nat>)
    ensures columns == Grouped(nodes, levels) && keys == Occurring(nodes, levels)
  {
    columns, keys := map[], [];
    for i := 0 to |nodes|
      invariant columns == Grouped(nodes[..i], levels) && keys == Occurring(nodes[..i], levels)
    {
      var level := LevelOf(levels, nodes[i]);
      assert nodes[..i + 1][..i] == nodes[..i];
      GroupedMeans(nodes[..i], levels, level);
      if level !in columns {
        keys := keys + [level];
      }
      columns := columns[level := (if level in columns then columns[level] else []) + [nodes[i]]];
    }
    assert nodes[..|nodes|] == nodes;
  }

  method PlaceColumn(placed: seq<Placed>, column: seq<Node>, level: nat) returns (longer: seq<Placed>)
    ensures longer == placed + Rows(column, level)
  {
    longer := placed;
    for row := 0 to |column|
      invariant longer == placed + Rows(column[..row], level)
    {
      assert column[..row + 1][..row] == column[..row];
      longer := longer + [Placed(column[row], level * 310, row * 168)];
    }
    assert column[..|column|] == column;
  }

  lemma NextColumn(nodes: seq<Node>, levels: map<Id, nat>, order: seq<nat>, c: nat, column: seq<Node>)
    requires c < |order| && column == Column(nodes, levels, order[c])
    ensures PlaceColumns(nodes, levels, order[..c + 1])
            == PlaceColumns(nodes, levels, order[..c]) + Rows(SortNodes(column), order[c])
  {
    assert order[..c + 1][..c] == order[..c];
  }

  lemma SortedOccurs(nodes: seq<Node>, levels: map<Id, nat>, level: nat)
    requires level in SortLevels(Occurring(nodes, levels))
    ensures level in Grouped(nodes, levels) && Grouped(nodes, levels)[level] == Column(nodes, levels, level)
  {
    OccurringDistinct(nodes, levels);
    SortLevelsKeeps(Occurring(nodes, levels));
    GroupedMeans(nodes, levels, level);
  }

  method PlaceNodes(nodes: seq<Node>, levels: map<Id, nat>) returns (placed: seq<Placed>)
    ensures placed == PlaceColumns(nodes, levels, SortLevels(Occurring(nodes, levels)))
  {
    var columns, keys := GroupNodes(nodes, levels);
    var order := SortLevels(keys);
    placed := [];
    for c := 0 to |order|
      invariant placed == PlaceColumns(nodes, levels, order[..c])
    {
      SortedOccurs(nodes, levels, order[c]);
      NextColumn(nodes, levels, order, c, columns[order[c]]);
      placed := PlaceColumn(placed, SortNodes(columns[order[c]]), order[c]);
    }
    assert order[..|order|] == order;
  }

  // ---- Sorting sorts

  lemma BagOfConcat<T>(a: seq<T>, b: seq<T>)
    ensures multiset(a + b) == multiset(a) + multiset(b)
  {
  }

  ghost predicate Increasing(levels: seq<nat>) {
    forall i, j | 0 <= i < j < |levels| :: levels[i] < levels[j]
  }

  ghost predicate Ordered(nodes: seq<Node>) {
    forall i, j | 0 <= i < j < |nodes| :: nodes[i].id <= nodes[j].id
  }

  lemma IncreasingThen(levels: seq<nat>, last: nat)
    requires Increasing(levels) && forall k | k in levels :: k < last
    ensures Increasing(levels + [last])
  {
    var longer := levels + [last];
    forall i, j | 0 <= i < j < |longer|
      ensures longer[i] < longer[j]
    {
      assert longer[i] in levels;
    }
  }

  lemma {:induction false} InsertLevelKeeps(levels: seq<nat>, level: nat)
    requires Increasing(levels) && level !in levels
    ensures Increasing(InsertLevel(levels, level))
    ensures forall k :: k in InsertLevel(levels, level) <==> k in levels || k == level
    decreases |levels|
  {
    if levels == [] {
    } else if levels[|levels| - 1] > level {
      var shorter, last := levels[..|levels| - 1], levels[|levels| - 1];
      assert levels == shorter + [last];
      InsertLevelKeeps(shorter, level);
      IncreasingThen(InsertLevel(shorter, level), last);
    } else {
      assert levels[|levels| - 1] in levels;
      IncreasingThen(levels, level);
    }
  }

  lemma {:induction false} SortLevelsKeeps(levels: seq<nat>)
    requires DistinctLevels(levels)
    ensures Increasing(SortLevels(levels))
    ensures forall k :: k in SortLevels(levels) <==> k in levels
    decreases |levels|
  {
    if levels != [] {
      var shorter, last := levels[..|levels| - 1], levels[|levels| - 1];
      SortLevelsKeeps(shorter);
      assert levels == shorter + [last];
      assert last !in shorter;
      InsertLevelKeeps(SortLevels(shorter), last);
    }
  }

  lemma OrderedThen(nodes: seq<Node>, last: Node)
    requires Ordered(nodes) && forall node | node in nodes :: node.id <= last.id
    ensures Ordered(nodes + [last])
  {
    var longer := nodes + [last];
    forall i, j | 0 <= i < j < |longer|
      ensures longer[i].id <= longer[j].id
    {
      assert longer[i] in nodes;
    }
  }

  lemma {:induction false} InsertNodeBag(nodes: seq<Node>, node: Node)
    ensures multiset(InsertNode(nodes, node)) == multiset(nodes) + multiset{node}
    decreases |nodes|
  {
    if nodes != [] && nodes[|nodes| - 1].id > node.id {
      var shorter, last := nodes[..|nodes| - 1], nodes[|nodes| - 1];
      InsertNodeBag(shorter, node);
      BagOfConcat(InsertNode(shorter, node), [last]);
      BagOfConcat(shorter, [last]);
      assert nodes == shorter + [last];
    } else {
      BagOfConcat(nodes, [node]);
    }
  }

  lemma {:induction false} InsertNodeKeeps(nodes: seq<Node>, node: Node)
    requires Ordered(nodes)
    ensures Ordered(InsertNode(nodes, node))
    ensures forall other :: other in InsertNode(nodes, node) <==> other in nodes || other == node
    decreases |nodes|
  {
    if nodes == [] {
    } else if nodes[|nodes| - 1].id > node.id {
      var shorter, last := nodes[..|nodes| - 1], nodes[|nodes| - 1];
      assert nodes == shorter + [last];
      InsertNodeKeeps(shorter, node);
      OrderedThen(InsertNode(shorter, node), last);
    } else {
      OrderedThen(nodes, node);
    }
  }

  lemma {:induction false} SortNodesKeeps(nodes: seq<Node>)
    ensures Ordered(SortNodes(nodes)) && multiset(SortNodes(nodes)) == multiset(nodes)
    decreases |nodes|
  {
    if nodes != [] {
      var shorter, last := nodes[..|nodes| - 1], nodes[|nodes| - 1];
      SortNodesKeeps(shorter);
      assert nodes == shorter + [last];
      BagOfConcat(shorter, [last]);
      InsertNodeKeeps(SortNodes(shorter), last);
      InsertNodeBag(SortNodes(shorter), last);
    }
  }

  // ---- Every node once

  function OnLevels(nodes: seq<Node>, levels: map<Id, nat>, order: seq<nat>): seq<Node> {
    if nodes == [] then []
    else
      var last := nodes[|nodes| - 1];
      OnLevels(nodes[..|nodes| - 1], levels, order) + if LevelOf(levels, last) in order then [last] else []
  }

  /** Appending x to the whole and to one of its two parts. */
  lemma BagGrows(whole: seq<Node>, one: seq<Node>, other: seq<Node>, x: Node)
    requires multiset(whole) == multiset(one) + multiset(other)
    ensures multiset(whole + [x]) == multiset(one + [x]) + multiset(other)
    ensures multiset(whole + [x]) == multiset(one) + multiset(other + [x])
  {
    BagOfConcat(whole, [x]);
    BagOfConcat(one, [x]);
    BagOfConcat(other, [x]);
  }

  lemma {:induction false} OneMoreLevel(nodes: seq<Node>, levels: map<Id, nat>, order: seq<nat>, level: nat)
    requires level !in order
    ensures multiset(OnLevels(nodes, levels, order + [level]))
            == multiset(OnLevels(nodes, levels, order)) + multiset(Column(nodes, levels, level))
    decreases |nodes|
  {
    if nodes != [] {
      var shorter, last := nodes[..|nodes| - 1], nodes[|nodes| - 1];
      var whole, one, other :=
        OnLevels(shorter, levels, order + [level]), OnLevels(shorter, levels, order), Column(shorter, levels, level);
      OneMoreLevel(shorter, levels, order, level);
      BagGrows(whole, one, other, last);
      SameBut(nodes, levels, order, level, whole, one, other);
    }
  }

  lemma SameBut(nodes: seq<Node>, levels: map<Id, nat>, order: seq<nat>, level: nat,
                whole: seq<Node>, one: seq<Node>, other: seq<Node>)
    requires nodes != [] && level !in order
    requires whole == OnLevels(nodes[..|nodes| - 1], levels, order + [level])
    requires one == OnLevels(nodes[..|nodes| - 1], levels, order)
    requires other == Column(nodes[..|nodes| - 1], levels, level)
    ensures var last := nodes[|nodes| - 1];
            || (OnLevels(nodes, levels, order + [level]) == whole + [last] && OnLevels(nodes, levels, order) == one + [last]
                && Column(nodes, levels, level) == other)
            || (OnLevels(nodes, levels, order + [level]) == whole + [last] && OnLevels(nodes, levels, order) == one
                && Column(nodes, levels, level) == other + [last])
            || (OnLevels(nodes, levels, order + [level]) == whole && OnLevels(nodes, levels, order) == one
                && Column(nodes, levels, level) == other)
  {
  }

  lemma {:induction false} NoLevels(nodes: seq<Node>, levels: map<Id, nat>)
    ensures OnLevels(nodes, levels, []) == []
    decreases |nodes|
  {
    if nodes != [] {
      NoLevels(nodes[..|nodes| - 1], levels);
    }
  }

  lemma {:induction false} AllLevels(nodes: seq<Node>, levels: map<Id, nat>, order: seq<nat>)
    requires forall node | node in nodes :: LevelOf(levels, node) in order
    ensures OnLevels(nodes, levels, order) == nodes
    decreases |nodes|
  {
    if nodes != [] {
      AllLevels(nodes[..|nodes| - 1], levels, order);
    }
  }

  lemma {:induction false} NodesOfConcat(a: seq<Placed>, b: seq<Placed>)
    ensures NodesOf(a + b) == NodesOf(a) + NodesOf(b)
    decreases |b|
  {
    if b == [] {
      assert a + b == a;
    } else {
      assert (a + b)[..|a + b| - 1] == a + b[..|b| - 1];
      NodesOfConcat(a, b[..|b| - 1]);
    }
  }

  lemma {:induction false} NodesOfRows(column: seq<Node>, level: nat)
    ensures NodesOf(Rows(column, level)) == column
    decreases |column|
  {
    if column != [] {
      NodesOfRows(column[..|column| - 1], level);
      assert Rows(column, level)[..|column| - 1] == Rows(column[..|column| - 1], level);
    }
  }

  lemma ColumnConserves(nodes: seq<Node>, levels: map<Id, nat>, level: nat)
    ensures multiset(NodesOf(Rows(SortNodes(Column(nodes, levels, level)), level))) == multiset(Column(nodes, levels, level))
  {
    SortNodesKeeps(Column(nodes, levels, level));
    NodesOfRows(SortNodes(Column(nodes, levels, level)), level);
  }

  lemma BagsConcat(left: seq<Node>, right: seq<Node>, one: seq<Node>, other: seq<Node>)
    requires multiset(left) == multiset(one) && multiset(right) == multiset(other)
    ensures multiset(left + right) == multiset(one) + multiset(other)
  {
    BagOfConcat(left, right);
  }

  lemma {:induction false} ColumnsConserve(nodes: seq<Node>, levels: map<Id, nat>, order: seq<nat>)
    requires Increasing(order)
    ensures multiset(NodesOf(PlaceColumns(nodes, levels, order))) == multiset(OnLevels(nodes, levels, order))
    decreases |order|
  {
    if order == [] {
      NoLevels(nodes, levels);
    } else {
      var shorter, last := order[..|order| - 1], order[|order| - 1];
      assert order == shorter + [last];
      ColumnsConserve(nodes, levels, shorter);
      ColumnConserves(nodes, levels, last);
      var left, rows := PlaceColumns(nodes, levels, shorter), Rows(SortNodes(Column(nodes, levels, last)), last);
      NodesOfConcat(left, rows);
      BagsConcat(NodesOf(left), NodesOf(rows), OnLevels(nodes, levels, shorter), Column(nodes, levels, last));
      OneMoreLevel(nodes, levels, shorter, last);
    }
  }

  lemma {:induction false} InColumn(nodes: seq<Node>, levels: map<Id, nat>, node: Node)
    requires node in nodes
    ensures node in Column(nodes, levels, LevelOf(levels, node))
    decreases |nodes|
  {
    var shorter := nodes[..|nodes| - 1];
    assert nodes == shorter + [nodes[|nodes| - 1]];
    if node in shorter {
      InColumn(shorter, levels, node);
    }
  }

  /** The nodes placed are the nodes of the graph, each exactly as often as it occurs. */
  lemma EveryNodeOnce(nodes: seq<Node>, levels: map<Id, nat>, keys: seq<nat>)
    requires Keys(nodes, levels, keys)
    ensures multiset(NodesOf(PlaceColumns(nodes, levels, SortLevels(keys)))) == multiset(nodes)
  {
    SortLevelsKeeps(keys);
    ColumnsConserve(nodes, levels, SortLevels(keys));
    forall node | node in nodes
      ensures LevelOf(levels, node) in SortLevels(keys)
    {
      InColumn(nodes, levels, node);
    }
    AllLevels(nodes, levels, SortLevels(keys));
  }

  // ---- Distinct positions, in order

  /** Left to right, then top to bottom with the ids. Two places are never the same. */
  ghost predicate After(a: Placed, b: Placed) {
    a.x < b.x || (a.x == b.x && a.y < b.y && a.node.id <= b.node.id)
  }

  ghost predicate InOrder(placed: seq<Placed>) {
    forall i, j | 0 <= i < j < |placed| :: After(placed[i], placed[j])
  }

  /** Every node stands in the column of its level. */
  ghost predicate OnGrid(levels: map<Id, nat>, placed: seq<Placed>) {
    forall i | 0 <= i < |placed| :: placed[i].x == LevelOf(levels, placed[i].node) * 310
  }

  /** A column starts at the top and leaves no gap. */
  ghost predicate Dense(placed: seq<Placed>) {
    forall i | 0 <= i < |placed| :: DenseAt(placed, i)
  }

  ghost predicate DenseAt(placed: seq<Placed>, i: nat)
    requires i < |placed|
  {
    placed[i].y == if i > 0 && placed[i - 1].x == placed[i].x then placed[i - 1].y + 168 else 0
  }

  lemma {:induction false} ColumnLevel(nodes: seq<Node>, levels: map<Id, nat>, level: nat, node: Node)
    requires node in Column(nodes, levels, level)
    ensures LevelOf(levels, node) == level
    decreases |nodes|
  {
    if node in Column(nodes[..|nodes| - 1], levels, level) {
      ColumnLevel(nodes[..|nodes| - 1], levels, level, node);
    }
  }

  lemma SortedLevel(nodes: seq<Node>, levels: map<Id, nat>, level: nat, i: nat)
    requires i < |SortNodes(Column(nodes, levels, level))|
    ensures LevelOf(levels, SortNodes(Column(nodes, levels, level))[i]) == level
  {
    var column := Column(nodes, levels, level);
    var node := SortNodes(column)[i];
    SortNodesKeeps(column);
    assert node in multiset(SortNodes(column));
    assert node in multiset(column);
    ColumnLevel(nodes, levels, level, node);
  }

  lemma RowsOrdered(column: seq<Node>, level: nat)
    requires Ordered(column)
    ensures InOrder(Rows(column, level)) && Dense(Rows(column, level))
  {
    var rows := Rows(column, level);
    forall i | 0 <= i < |rows|
      ensures DenseAt(rows, i)
    {
      assert i > 0 ==> rows[i - 1].y == (i - 1) * 168;
    }
  }

  lemma RowsStand(nodes: seq<Node>, levels: map<Id, nat>, level: nat)
    ensures var rows := Rows(SortNodes(Column(nodes, levels, level)), level);
            InOrder(rows) && OnGrid(levels, rows) && Dense(rows) && forall i | 0 <= i < |rows| :: rows[i].x == level * 310
  {
    var sorted := SortNodes(Column(nodes, levels, level));
    SortNodesKeeps(Column(nodes, levels, level));
    RowsOrdered(sorted, level);
    var rows := Rows(sorted, level);
    forall i | 0 <= i < |rows|
      ensures rows[i].x == LevelOf(levels, rows[i].node) * 310
    {
      SortedLevel(nodes, levels, level, i);
    }
  }

  lemma DenseBeside(left: seq<Placed>, right: seq<Placed>, x: nat)
    requires Dense(left) && Dense(right)
    requires forall i | 0 <= i < |left| :: left[i].x < x
    requires forall i | 0 <= i < |right| :: right[i].x == x
    ensures Dense(left + right)
  {
    var both := left + right;
    forall i | 0 <= i < |both|
      ensures DenseAt(both, i)
    {
      if i < |left| {
        assert DenseAt(left, i);
      } else {
        assert DenseAt(right, i - |left|);
        assert both[i] == right[i - |left|];
        assert i > 0 ==> both[i - 1] == if i > |left| then right[i - |left| - 1] else left[i - 1];
      }
    }
  }

  lemma Beside(levels: map<Id, nat>, left: seq<Placed>, right: seq<Placed>, x: nat)
    requires InOrder(left) && OnGrid(levels, left)
    requires InOrder(right) && OnGrid(levels, right)
    requires forall i | 0 <= i < |left| :: left[i].x < x
    requires forall i | 0 <= i < |right| :: right[i].x == x
    ensures InOrder(left + right) && OnGrid(levels, left + right)
  {
  }

  lemma {:induction false} ColumnsStand(nodes: seq<Node>, levels: map<Id, nat>, order: seq<nat>)
    requires Increasing(order)
    ensures var placed := PlaceColumns(nodes, levels, order);
            && InOrder(placed) && OnGrid(levels, placed) && Dense(placed)
            && forall i | 0 <= i < |placed| :: order != [] && placed[i].x <= order[|order| - 1] * 310
    decreases |order|
  {
    if order != [] {
      var shorter, last := order[..|order| - 1], order[|order| - 1];
      ColumnsStand(nodes, levels, shorter);
      RowsStand(nodes, levels, last);
      var left := PlaceColumns(nodes, levels, shorter);
      forall i | 0 <= i < |left|
        ensures left[i].x < last * 310
      {
        assert shorter[|shorter| - 1] < last;
      }
      var right := Rows(SortNodes(Column(nodes, levels, last)), last);
      Beside(levels, left, right, last * 310);
      DenseBeside(left, right, last * 310);
    }
  }

  /** In order means at pairwise distinct positions. */
  lemma PositionsDistinct(placed: seq<Placed>, i: nat, j: nat)
    requires InOrder(placed) && i < |placed| && j < |placed| && i != j
    ensures placed[i].x != placed[j].x || placed[i].y != placed[j].y
  {
    assert After(placed[if i < j then i else j], placed[if i < j then j else i]);
  }

  /** A layout for the levels that the worklist gives: every node of the graph is placed exactly once,
      in the column of its level and at a position of its own. */
  ghost predicate LaidOut(g: Graph, w: Work, placed: seq<Placed>) {
    && Settled(g, w)
    && multiset(NodesOf(placed)) == multiset(g.nodes)
    && OnGrid(w.levels, placed) && InOrder(placed) && Dense(placed)
  }

  /** Left of everything stands what no edge points to; and exactly the nodes that some edge points to
      from a node that is reached stand further right. */
  ghost predicate RootsLeft(g: Graph, placed: seq<Placed>) {
    forall i | 0 <= i < |placed| :: RootLeft(g, placed[i])
  }

  ghost predicate RootLeft(g: Graph, p: Placed) {
    && (Root(g, p.node.id) ==> p.x == 0 && Reached(g, p.node.id))
    && (p.x >= 310 <==> exists source :: HasEdge(g, source, p.node.id) && Reached(g, source))
    && (p.x < 310 ==> p.x == 0)
  }

  lemma GridRootsLeft(g: Graph, w: Work, placed: seq<Placed>)
    requires Settled(g, w) && OnGrid(w.levels, placed)
    ensures RootsLeft(g, placed)
  {
    forall i | 0 <= i < |placed|
      ensures RootLeft(g, placed[i])
    {
      assert placed[i].x == LevelOf(w.levels, placed[i].node) * 310;
      LevelsAboveZero(g, w, placed[i].node.id);
    }
  }

  method BuildFlowNodes(g: Graph) returns (placed: seq<Placed>)
    ensures exists w :: LaidOut(g, w, placed) && InTurn(g, w.queue, |w.queue|)
    ensures RootsLeft(g, placed)
    ensures forall i, j | 0 <= i < |placed| && 0 <= j < |placed| && i != j ::
              placed[i].x != placed[j].x || placed[i].y != placed[j].y
  {
    var w := LevelNodes(g);
    ghost var keys := Occurring(g.nodes, w.levels);
    placed := PlaceNodes(g.nodes, w.levels);
    OccurringKeys(g.nodes, w.levels);
    EveryNodeOnce(g.nodes, w.levels, keys);
    SortLevelsKeeps(keys);
    ColumnsStand(g.nodes, w.levels, SortLevels(keys));
    assert LaidOut(g, w, placed);
    GridRootsLeft(g, w, placed);
    forall i, j | 0 <= i < |placed| && 0 <= j < |placed| && i != j
      ensures placed[i].x != placed[j].x || placed[i].y != placed[j].y
    {
      PositionsDistinct(placed, i, j);
    }
  }
}
