/**
 * `graph_t` and the functions of src/graph.c that build it: dense node ids, a square
 * adjacency matrix that doubles when the nodes outgrow it, and the level pass that sizes
 * every node before drawing.  Each method is proved to follow the function of the same
 * operation in module GraphSpec, on the view `View()`.
 */
module Graphs {
  import opened Wrappers
  import opened Nodes
  import opened GraphSpec

  /** A node record as the graph view shows it: the parent pointer becomes the parent's id. */
  ghost function ViewOf(n: Node): NodeView
    reads n, n.parent
  {
    NodeView(n.name, n.text, n.level, if n.parent == null then None else Some(n.parent.id),
             n.numChildren, n.requiredWidth)
  }

  /** `create_graph` allocates a 4 by 4 matrix. */
  const InitialCapacity: nat := 4

  class Graph {
    var title: string
    /** `nodes[0 .. num_nodes]`; the slots past `num_nodes` hold nothing and are not modelled. */
    var nodes: seq<Node>
    /** `edges[i][j]` is 1 exactly when there is an edge from id `i` to id `j`. */
    var edges: array2<bool>
    var capacity: nat
    var highestLevel: int
    ghost var Repr: set<object>

    /**
     * The matrix is `capacity` by `capacity` and holds at least every node; node `i` has id
     * `i`; parents are nodes of this graph; and no edge mentions a slot past the last node.
     */
    ghost predicate Valid()
      reads this, Repr
    {
      && this in Repr && edges in Repr
      && (forall i | 0 <= i < |nodes| :: nodes[i] in Repr)
      && edges.Length0 == capacity && edges.Length1 == capacity
      && InitialCapacity <= capacity && |nodes| <= capacity
      && (forall i | 0 <= i < |nodes| :: nodes[i].id == i)
      && (forall i | 0 <= i < |nodes| :: nodes[i].parent != null ==> nodes[i].parent in nodes)
      && (forall i, j | 0 <= i < capacity && 0 <= j < capacity && edges[i, j] :: i < |nodes| && j < |nodes|)
    }

    ghost function NodeViews(): seq<NodeView>
      requires Valid()
      reads Repr
    {
      var ns := nodes;
      seq(|ns|, i requires 0 <= i < |ns| reads if 0 <= i < |ns| then {ns[i], ns[i].parent} else {} =>
        ViewOf(ns[i]))
    }

    ghost function EdgeSet(): set<(nat, nat)>
      requires Valid()
      reads Repr
    {
      set i: nat, j: nat | i < |nodes| && j < |nodes| && edges[i, j] :: (i, j)
    }

    ghost function View(): GraphView
      requires Valid()
      reads Repr
    {
      GraphView(title, NodeViews(), EdgeSet(), highestLevel)
    }

    /** `create_graph`: no nodes, a zeroed 4 by 4 matrix, an empty title, `highest_level` 0. */
    constructor ()
      ensures Valid() && fresh(Repr)
      ensures View() == EmptyGraph()
      ensures capacity == InitialCapacity
      ensures forall i, j | 0 <= i < capacity && 0 <= j < capacity :: !edges[i, j]
    {
      title := "";
      nodes := [];
      edges := new bool[InitialCapacity, InitialCapacity]((i, j) => false);
      capacity := InitialCapacity;
      highestLevel := 0;
      Repr := {this, edges};
      new;
      assert EdgeSet() == {};
    }

    /**
     * `resize_graph`: doubles the capacity; every existing matrix cell keeps its bit and
     * every new row and column is zero.  The view does not change.
     */
    method Resize()
      requires Valid()
      modifies this
      ensures Valid() && Repr == old(Repr) + {edges}
      ensures nodes == old(nodes) && title == old(title) && highestLevel == old(highestLevel)
      ensures capacity == 2 * old(capacity) && fresh(edges)
      ensures forall i, j | 0 <= i < capacity && 0 <= j < capacity ::
        edges[i, j] == (i < old(capacity) && j < old(capacity) && old(edges[i, j]))
      ensures View() == old(View())
    {
      var newCapacity := capacity * 2;
      var grown := new bool[newCapacity, newCapacity]((i, j) => false);
      for i := 0 to capacity
        modifies grown
        invariant forall a, b | 0 <= a < newCapacity && 0 <= b < newCapacity ::
          grown[a, b] == (a < i && b < capacity && edges[a, b])
      {
        for j := 0 to capacity
          modifies grown
          invariant forall a, b | 0 <= a < newCapacity && 0 <= b < newCapacity ::
            grown[a, b] == (((a < i && b < capacity) || (a == i && b < j)) && edges[a, b])
        {
          grown[i, j] := edges[i, j];
        }
      }
      ghost var before := View();
      edges := grown;
      capacity := newCapacity;
      Repr := Repr + {grown};
      assert NodeViews() == before.nodes;
      assert EdgeSet() == before.edges;
    }

    /** `add_node`: appends a new node whose id is the old node count, growing the matrix if full. */
    method AddNode(name: string, text: string) returns (node: Node)
      requires Valid()
      modifies this
      ensures Valid() && fresh(Repr - old(Repr)) && fresh(node)
      ensures View() == GraphSpec.AddNode(old(View()), name, text)
      ensures |nodes| == |old(nodes)| + 1 && nodes[|old(nodes)|] == node && node.id == |old(nodes)|
      ensures nodes[..|old(nodes)|] == old(nodes)
    {
      if |nodes| >= capacity {
        Resize();
      }
      ghost var before := View();
      node := new Node(name, text);
      node.id := |nodes|;
      nodes := nodes + [node];
      Repr := Repr + {node};
      assert NodeViews() == before.nodes + [NewNode(name, text)];
      assert EdgeSet() == before.edges;
    }

    /** `get_node`: the first node whose name is exactly `name`, or null. */
    method GetNode(name: string) returns (node: Node?)
      requires Valid()
      ensures node == null <==> Find(View().nodes, name).None?
      ensures node != null ==> node == nodes[Find(View().nodes, name).value]
    {
      ghost var ns := View().nodes;
      for i := 0 to |nodes|
        invariant forall k | 0 <= k < i :: ns[k].name != name
      {
        if nodes[i].name == name {
          assert ns[i].name == name;
          return nodes[i];
        }
      }
      return null;
    }

    /**
     * `add_edge`: false, and no change, when either name is missing; otherwise true, with
     * the matrix cell set and levels, parent and child count updated as `AddEdge` says.
     */
    method AddEdge(from: string, to: string) returns (ok: bool)
      requires Valid()
      modifies Repr
      ensures Valid() && Repr == old(Repr)
      ensures (ok, View()) == GraphSpec.AddEdge(old(View()), from, to)
    {
      ghost var g := View();
      var fromNode := GetNode(from);
      var toNode := GetNode(to);
      if fromNode == null || toNode == null {
        return false;
      }
      var f, t := fromNode.id, toNode.id;
      assert Find(g.nodes, from) == Some(f) && Find(g.nodes, to) == Some(t);
      if edges[f, t] {
        assert (f, t) in g.edges;
        return true;
      }
      assert (f, t) !in g.edges;
      AddNewEdge(fromNode, toNode);
      ok := true;
    }

    /** The part of `add_edge` after the early returns: the cell is set and the ends linked. */
    method AddNewEdge(fromNode: Node, toNode: Node)
      requires Valid() && fromNode.id < |nodes| && toNode.id < |nodes|
      requires nodes[fromNode.id] == fromNode && nodes[toNode.id] == toNode
      modifies edges, fromNode`level, fromNode`numChildren, toNode`level, toNode`parent, this`highestLevel
      ensures Valid()
      ensures View() == Link(old(View()).(edges := old(View()).edges + {(fromNode.id, toNode.id)}), fromNode.id, toNode.id)
    {
      SetEdge(fromNode.id, toNode.id);
      LinkNodes(fromNode, toNode);
    }

    /** `g->edges[from][to] = 1` for a new edge: the edge set grows by that pair. */
    method SetEdge(f: nat, t: nat)
      requires Valid() && f < |nodes| && t < |nodes|
      modifies edges
      ensures Valid()
      ensures View() == old(View()).(edges := old(View()).edges + {(f, t)})
    {
      ghost var before := View();
      edges[f, t] := true;
      assert NodeViews() == before.nodes;
      assert EdgeSet() == before.edges + {(f, t)};
    }

    /**
     * The level, parent and child-count updates of `add_edge` on the two end nodes of a
     * new edge, in the order of the C code.
     */
    method LinkNodes(fromNode: Node, toNode: Node)
      requires Valid() && fromNode.id < |nodes| && toNode.id < |nodes|
      requires nodes[fromNode.id] == fromNode && nodes[toNode.id] == toNode
      modifies fromNode`level, fromNode`numChildren, toNode`level, toNode`parent, this`highestLevel
      ensures Valid()
      ensures View() == Link(old(View()), fromNode.id, toNode.id)
    {
      ghost var g0 := View();
      RootSourceNode(fromNode);
      PlaceTargetNode(fromNode, toNode);
      AdoptNode(fromNode, toNode);
      assert View() == Adopt(PlaceTarget(RootSource(g0, fromNode.id), fromNode.id, toNode.id), fromNode.id, toNode.id);
    }

    /** The source step of `add_edge`: an unassigned source becomes a root. */
    method RootSourceNode(fromNode: Node)
      requires Valid() && fromNode.id < |nodes| && nodes[fromNode.id] == fromNode
      modifies fromNode`level
      ensures Valid()
      ensures View() == RootSource(old(View()), fromNode.id)
    {
      ViewAt(fromNode.id);
      if fromNode.level == -1 {
        SetLevel(fromNode, 1);
      }
    }

    /** The target step of `add_edge`: an unassigned target goes one level below the source. */
    method PlaceTargetNode(fromNode: Node, toNode: Node)
      requires Valid() && fromNode.id < |nodes| && toNode.id < |nodes|
      requires nodes[fromNode.id] == fromNode && nodes[toNode.id] == toNode
      modifies toNode`level, this`highestLevel
      ensures Valid()
      ensures View() == PlaceTarget(old(View()), fromNode.id, toNode.id)
    {
      ViewAt(fromNode.id);
      ViewAt(toNode.id);
      if toNode.level == -1 {
        var level := fromNode.level + 1;
        SetLevel(toNode, level);
        RaiseHighest(level);
      }
    }

    /** The child step of `add_edge`: a target one level down is counted and takes the source as parent. */
    method AdoptNode(fromNode: Node, toNode: Node)
      requires Valid() && fromNode.id < |nodes| && toNode.id < |nodes|
      requires nodes[fromNode.id] == fromNode && nodes[toNode.id] == toNode
      modifies fromNode`numChildren, toNode`parent
      ensures Valid()
      ensures View() == Adopt(old(View()), fromNode.id, toNode.id)
    {
      ViewAt(fromNode.id);
      ViewAt(toNode.id);
      if toNode.level - fromNode.level == 1 {
        AddChild(fromNode);
        SetParent(toNode, fromNode);
      }
    }

    /** The view of node `i` is its record. */
    lemma ViewAt(i: nat)
      requires Valid() && i < |nodes|
      ensures View().nodes[i] == ViewOf(nodes[i])
    {
    }

    /** `if (to_node->level > g->highest_level) g->highest_level = to_node->level`. */
    method RaiseHighest(level: int)
      requires Valid()
      modifies this`highestLevel
      ensures Valid()
      ensures View() == Raise(old(View()), level)
    {
      ghost var before := View();
      if level > highestLevel {
        highestLevel := level;
      }
      assert NodeViews() == before.nodes;
      assert EdgeSet() == before.edges;
    }

    method SetLevel(node: Node, level: int)
      requires Valid() && node.id < |nodes| && nodes[node.id] == node
      modifies node`level
      ensures Valid()
      ensures View() == WithLevel(old(View()), node.id, level)
    {
      ghost var before := View();
      node.level := level;
      assert NodeViews() == WithLevel(before, node.id, level).nodes;
    }

    /** The parser's `node->text = value`: node `node.id` gets a new text. */
    method SetNodeText(node: Node, text: string)
      requires Valid() && node.id < |nodes| && nodes[node.id] == node
      modifies node`text
      ensures Valid()
      ensures View() == SetText(old(View()), node.id, text)
    {
      ghost var before := View();
      node.text := text;
      assert NodeViews() == SetText(before, node.id, text).nodes;
    }

    method AddChild(node: Node)
      requires Valid() && node.id < |nodes| && nodes[node.id] == node
      modifies node`numChildren
      ensures Valid()
      ensures View() == old(View()).(nodes := old(View()).nodes[node.id := old(View()).nodes[node.id].(numChildren := node.numChildren)])
      ensures node.numChildren == old(node.numChildren) + 1
    {
      ghost var before := View();
      node.numChildren := node.numChildren + 1;
      assert NodeViews() == before.nodes[node.id := before.nodes[node.id].(numChildren := node.numChildren)];
    }

    method SetParent(node: Node, parent: Node)
      requires Valid() && node.id < |nodes| && nodes[node.id] == node
      requires parent.id < |nodes| && nodes[parent.id] == parent
      modifies node`parent
      ensures Valid()
      ensures View() == old(View()).(nodes := old(View()).nodes[node.id := old(View()).nodes[node.id].(parent := Some(parent.id))])
    {
      ghost var before := View();
      node.parent := parent;
      assert NodeViews() == before.nodes[node.id := before.nodes[node.id].(parent := Some(parent.id))];
    }

    /** `update_graph_title`: the title becomes `title`; nothing else changes. */
    method UpdateTitle(title: string)
      requires Valid()
      modifies this
      ensures Valid() && Repr == old(Repr)
      ensures View() == SetTitle(old(View()), title)
    {
      ghost var before := View();
      this.title := title;
      assert NodeViews() == before.nodes;
      assert EdgeSet() == before.edges;
    }

    /**
     * `calculate_required_widths`: every node's width becomes `RequiredWidth`.  The widths
     * are first reset to the footprint; then the levels are visited from `highest_level`
     * down to 0, and each node on the level takes the larger of its footprint and the sum of
     * its direct children's widths, which the previous round has already fixed.
     */
    method CalculateRequiredWidths()
      requires Valid()
      modifies set k | 0 <= k < |nodes| :: nodes[k]
      ensures Valid()
      ensures View() == WithWidths(old(View()))
    {
      ghost var g := View();
      ResetWidths(g);
      var level := highestLevel;
      while level >= 0
        invariant Valid() && g == old(View()).(nodes := g.nodes)
        invariant level <= highestLevel && (level >= -1 || level == highestLevel)
        invariant forall k | 0 <= k < |nodes| :: ViewOf(nodes[k]) == g.nodes[k].(width := nodes[k].requiredWidth)
        invariant forall k | 0 <= k < |nodes| ::
          nodes[k].requiredWidth ==
            if level < g.nodes[k].level <= highestLevel then RequiredWidth(g, k) else NodeFootprint
      {
        LevelRound(g, level);
        level := level - 1;
      }
      assert forall k | 0 <= k < |nodes| :: nodes[k].requiredWidth == RequiredWidth(g, k);
      assert NodeViews() == WithWidths(g).nodes;
    }

    /** The first loop of `calculate_required_widths`: every width becomes the footprint. */
    method ResetWidths(ghost g: GraphView)
      requires Valid() && g == View()
      modifies set k | 0 <= k < |nodes| :: nodes[k]
      ensures Valid()
      ensures forall k | 0 <= k < |nodes| :: ViewOf(nodes[k]) == g.nodes[k].(width := NodeFootprint)
    {
      for i := 0 to |nodes|
        invariant Valid()
        invariant forall k | 0 <= k < |nodes| :: ViewOf(nodes[k]) == g.nodes[k].(width := nodes[k].requiredWidth)
        invariant forall k | 0 <= k < i :: nodes[k].requiredWidth == NodeFootprint
      {
        nodes[i].requiredWidth := NodeFootprint;
      }
    }

    /**
     * One round of the level loop of `calculate_required_widths`: every node on `level`
     * takes its required width; the children it sums over sit one level down and are fixed.
     */
    method LevelRound(ghost g: GraphView, level: int)
      requires Valid() && 0 <= level <= highestLevel
      requires g.highestLevel == highestLevel && |g.nodes| == |nodes|
      requires forall a, b | 0 <= a < |nodes| && 0 <= b < |nodes| :: edges[a, b] <==> (a, b) in g.edges
      requires forall k | 0 <= k < |nodes| :: ViewOf(nodes[k]) == g.nodes[k].(width := nodes[k].requiredWidth)
      requires forall k | 0 <= k < |nodes| ::
        nodes[k].requiredWidth ==
          if level < g.nodes[k].level <= highestLevel then RequiredWidth(g, k) else NodeFootprint
      modifies set k | 0 <= k < |nodes| :: nodes[k]
      ensures Valid()
      ensures forall k | 0 <= k < |nodes| :: ViewOf(nodes[k]) == g.nodes[k].(width := nodes[k].requiredWidth)
      ensures forall k | 0 <= k < |nodes| ::
        nodes[k].requiredWidth ==
          if level - 1 < g.nodes[k].level <= highestLevel then RequiredWidth(g, k) else NodeFootprint
    {
      for i := 0 to |nodes|
        invariant Valid()
        invariant forall k | 0 <= k < |nodes| :: ViewOf(nodes[k]) == g.nodes[k].(width := nodes[k].requiredWidth)
        invariant forall k | 0 <= k < |nodes| ::
          nodes[k].requiredWidth ==
            if level < g.nodes[k].level <= highestLevel || (k < i && g.nodes[k].level == level)
            then RequiredWidth(g, k) else NodeFootprint
      {
        SettleNode(g, level, nodes[i]);
      }
    }

    /** The body of the level loop for one node: a node on `level` takes its required width. */
    method SettleNode(ghost g: GraphView, level: int, node: Node)
      requires Valid() && 0 <= level <= highestLevel && node.id < |nodes| && nodes[node.id] == node
      requires g.highestLevel == highestLevel && |g.nodes| == |nodes|
      requires forall a, b | 0 <= a < |nodes| && 0 <= b < |nodes| :: edges[a, b] <==> (a, b) in g.edges
      requires forall k | 0 <= k < |nodes| :: ViewOf(nodes[k]) == g.nodes[k].(width := nodes[k].requiredWidth)
      requires forall k | 0 <= k < |nodes| ::
        nodes[k].requiredWidth ==
          if level < g.nodes[k].level <= highestLevel || (k < node.id && g.nodes[k].level == level)
          then RequiredWidth(g, k) else NodeFootprint
      modifies node`requiredWidth
      ensures Valid()
      ensures forall k | 0 <= k < |nodes| :: ViewOf(nodes[k]) == g.nodes[k].(width := nodes[k].requiredWidth)
      ensures forall k | 0 <= k < |nodes| ::
        nodes[k].requiredWidth ==
          if level < g.nodes[k].level <= highestLevel || (k < node.id + 1 && g.nodes[k].level == level)
          then RequiredWidth(g, k) else NodeFootprint
    {
      var parentNode := node;
      if parentNode.level == level {
        var total := SumChildWidths(g, node.id);
        if total > parentNode.requiredWidth {
          parentNode.requiredWidth := total;
        }
      }
    }

    /** The inner loop of `calculate_required_widths`: the widths of node `i`'s direct children. */
    method SumChildWidths(ghost g: GraphView, i: nat) returns (total: int)
      requires Valid() && i < |nodes| == |g.nodes| && InPass(g, i)
      requires nodes[i].level == g.nodes[i].level
      requires forall a, b | 0 <= a < |nodes| && 0 <= b < |nodes| :: edges[a, b] <==> (a, b) in g.edges
      requires forall j | 0 <= j < |nodes| :: nodes[j].level == g.nodes[j].level
      requires forall j | 0 <= j < |nodes| && DirectChild(g, i, j) :: nodes[j].requiredWidth == RequiredWidth(g, j)
      ensures total == ChildWidths(g, i, |nodes|)
    {
      var parentNode := nodes[i];
      total := 0;
      for j := 0 to |nodes|
        invariant total == ChildWidths(g, i, j)
      {
        if edges[parentNode.id, j] {
          if nodes[j].level - parentNode.level == 1 {
            total := total + nodes[j].requiredWidth;
          }
        }
      }
    }
  }
}
