/**
 * The graph of src/graph.c seen as a value: its title, its nodes in id order, the set of
 * matrix cells that hold 1, and `highest_level`.  Every operation of src/graph.c that
 * changes the graph is stated here as a function on this view; the class `Graph` (module
 * Graphs) is proved to follow these functions, and the bookkeeping invariants of `add_edge`
 * and the width pass are proved here once.
 */
module GraphSpec {
  import opened Wrappers

  const RectWidth: int := 400
  /** `PADDING` of `calculate_required_widths`: `RECT_WIDTH * 0.10` stored in an `int`. */
  const Padding: int := 40
  /** The width every node needs for itself: `RECT_WIDTH + PADDING`. */
  const NodeFootprint: int := RectWidth + Padding

  /** A node record as the graph sees it; `parent` is the parent's id. */
  datatype NodeView = NodeView(
    name: string, text: string, level: int, parent: Option<nat>, numChildren: int, width: int)

  /** `graph_t`: the node at index `i` has id `i`; `(i, j)` is in `edges` when `edges[i][j]` is 1. */
  datatype GraphView = GraphView(
    title: string, nodes: seq<NodeView>, edges: set<(nat, nat)>, highestLevel: int)

  /** The graph `create_graph` returns: no nodes, no edges, an empty title, level 0. */
  function EmptyGraph(): GraphView {
    GraphView("", [], {}, 0)
  }

  /** The record `create_node` returns, seen from the graph. */
  function NewNode(name: string, text: string): NodeView {
    NodeView(name, text, -1, None, 0, 0)
  }

  function Max(a: int, b: int): int {
    if a >= b then a else b
  }

  // ---------------------------------------------------------------------------
  // Lookup and simple updates
  // ---------------------------------------------------------------------------

  /** `get_node`: the id of the first node whose name is exactly `name`, or nothing. */
  function Find(nodes: seq<NodeView>, name: string): (r: Option<nat>)
    ensures r.Some? ==> r.value < |nodes| && nodes[r.value].name == name
    ensures r.Some? ==> forall k | 0 <= k < r.value :: nodes[k].name != name
    ensures r.None? <==> forall k | 0 <= k < |nodes| :: nodes[k].name != name
  {
    if |nodes| == 0 then None
    else if nodes[0].name == name then Some(0)
    else match Find(nodes[1..], name)
      case None => None
      case Some(k) => Some(k + 1)
  }

  /** Two node lists with the same names in the same order. */
  predicate SameNames(a: seq<NodeView>, b: seq<NodeView>) {
    |a| == |b| && forall i | 0 <= i < |a| :: a[i].name == b[i].name
  }

  /** Lookups only depend on the names. */
  lemma {:induction false} FindDependsOnNamesOnly(a: seq<NodeView>, b: seq<NodeView>, name: string)
    requires SameNames(a, b)
    ensures Find(a, name) == Find(b, name)
  {
    if |a| > 0 && a[0].name != name {
      FindDependsOnNamesOnly(a[1..], b[1..], name);
    }
  }

  /** `add_node`: appends a fresh node whose id is the old node count. */
  function AddNode(g: GraphView, name: string, text: string): (r: GraphView)
    ensures |r.nodes| == |g.nodes| + 1 && r.nodes[..|g.nodes|] == g.nodes
    ensures r.nodes[|g.nodes|] == NewNode(name, text) && r.nodes[|g.nodes|].level == -1
    ensures r.edges == g.edges && r.title == g.title && r.highestLevel == g.highestLevel
  {
    g.(nodes := g.nodes + [NewNode(name, text)])
  }

  /** A lookup finds the first node with the name. */
  lemma FindsFirst(nodes: seq<NodeView>, name: string, k: nat)
    requires k < |nodes| && nodes[k].name == name
    requires forall j | 0 <= j < k :: nodes[j].name != name
    ensures Find(nodes, name) == Some(k)
  {
    var r := Find(nodes, name);
    assert r.Some? by { assert nodes[k].name == name; }
    assert r.value == k;
  }

  /** After `add_node(name, …)` a lookup of `name` finds the first node so named, old or new. */
  lemma AddNodeThenFind(g: GraphView, name: string, text: string, other: string)
    ensures Find(AddNode(g, name, text).nodes, other) ==
      match Find(g.nodes, other)
      case Some(k) => Some(k)
      case None => if other == name then Some(|g.nodes|) else None
  {
    var ns := AddNode(g, name, text).nodes;
    assert forall j | 0 <= j < |g.nodes| :: ns[j] == g.nodes[j];
    match Find(g.nodes, other)
    case Some(k) =>
      FindsFirst(ns, other, k);
    case None =>
      if other == name {
        FindsFirst(ns, other, |g.nodes|);
      } else {
        assert forall j | 0 <= j < |ns| :: ns[j].name != other;
      }
  }

  /** `update_graph_title`. */
  function SetTitle(g: GraphView, title: string): (r: GraphView)
    ensures r.title == title
    ensures r.nodes == g.nodes && r.edges == g.edges && r.highestLevel == g.highestLevel
  {
    g.(title := title)
  }

  /** The parser's `node->text = value` on the node with id `i`. */
  function SetText(g: GraphView, i: nat, text: string): (r: GraphView)
    requires i < |g.nodes|
    ensures SameNames(g.nodes, r.nodes) && r.nodes[i].text == text
    ensures forall j | 0 <= j < |g.nodes| && j != i :: r.nodes[j] == g.nodes[j]
    ensures r.nodes[i].level == g.nodes[i].level && r.nodes[i].parent == g.nodes[i].parent
    ensures r.nodes[i].numChildren == g.nodes[i].numChildren && r.nodes[i].width == g.nodes[i].width
    ensures r.edges == g.edges && r.title == g.title && r.highestLevel == g.highestLevel
  {
    g.(nodes := g.nodes[i := g.nodes[i].(text := text)])
  }

  // ---------------------------------------------------------------------------
  // add_edge
  // ---------------------------------------------------------------------------

  function WithLevel(g: GraphView, i: nat, level: int): GraphView
    requires i < |g.nodes|
  {
    g.(nodes := g.nodes[i := g.nodes[i].(level := level)])
  }

  /** `if (level > g->highest_level) g->highest_level = level`. */
  function Raise(g: GraphView, level: int): GraphView {
    if level > g.highestLevel then g.(highestLevel := level) else g
  }

  /**
   * The level, parent and child-count bookkeeping `add_edge` does once it has set the
   * matrix cell for a new edge from id `f` to id `t`.  The steps are applied one after the
   * other, as the C code does, so a self-loop (`f == t`) sees its own first update.
   */
  function Link(g: GraphView, f: nat, t: nat): (r: GraphView)
    requires f < |g.nodes| && t < |g.nodes|
    ensures SameNames(g.nodes, r.nodes) && r.title == g.title && r.edges == g.edges
    ensures forall i | 0 <= i < |g.nodes| :: r.nodes[i].text == g.nodes[i].text && r.nodes[i].width == g.nodes[i].width
  {
    Adopt(PlaceTarget(RootSource(g, f), f, t), f, t)
  }

  /** An unassigned source becomes a root, at level 1. */
  function RootSource(g: GraphView, f: nat): (r: GraphView)
    requires f < |g.nodes|
    ensures |r.nodes| == |g.nodes| && r.nodes[f].level != -1
    ensures g.nodes[f].level != -1 ==> r == g
    ensures g.nodes[f].level == -1 ==> r.nodes[f].level == 1 && r.highestLevel == g.highestLevel
    ensures forall j | 0 <= j < |g.nodes| && j != f :: r.nodes[j] == g.nodes[j]
  {
    if g.nodes[f].level == -1 then WithLevel(g, f, 1) else g
  }

  /** An unassigned target goes one level below the source and may raise `highest_level`. */
  function PlaceTarget(g: GraphView, f: nat, t: nat): (r: GraphView)
    requires f < |g.nodes| && t < |g.nodes|
    ensures |r.nodes| == |g.nodes| && r.edges == g.edges
    ensures g.nodes[t].level != -1 ==> r == g
    ensures g.nodes[t].level == -1 ==>
      && r.nodes[t].level == g.nodes[f].level + 1
      && r.highestLevel == Max(g.highestLevel, g.nodes[f].level + 1)
    ensures forall j | 0 <= j < |g.nodes| && j != t :: r.nodes[j] == g.nodes[j]
  {
    if g.nodes[t].level == -1 then
      var level := g.nodes[f].level + 1;
      Raise(WithLevel(g, t, level), level)
    else g
  }

  /** A target one level below the source is counted as its child and takes it as parent. */
  function Adopt(g: GraphView, f: nat, t: nat): (r: GraphView)
    requires f < |g.nodes| && t < |g.nodes|
    ensures |r.nodes| == |g.nodes| && r.edges == g.edges && r.highestLevel == g.highestLevel
    ensures g.nodes[t].level - g.nodes[f].level != 1 ==> r == g
    ensures g.nodes[t].level - g.nodes[f].level == 1 ==>
      && r.nodes[f].numChildren == g.nodes[f].numChildren + 1
      && r.nodes[t].parent == Some(f)
    ensures forall j | 0 <= j < |g.nodes| && j != f && j != t :: r.nodes[j] == g.nodes[j]
    ensures forall j | 0 <= j < |g.nodes| :: r.nodes[j].level == g.nodes[j].level
  {
    if g.nodes[t].level - g.nodes[f].level == 1 then
      var g3 := g.(nodes := g.nodes[f := g.nodes[f].(numChildren := g.nodes[f].numChildren + 1)]);
      g3.(nodes := g3.nodes[t := g3.nodes[t].(parent := Some(f))])
    else g
  }

  /**
   * `add_edge(g, from, to)`: whether both names were found, and the new graph.  A missing
   * name or an edge that is already present leaves the graph as it was.
   */
  function AddEdge(g: GraphView, from: string, to: string): (r: (bool, GraphView))
    ensures r.0 <==> Find(g.nodes, from).Some? && Find(g.nodes, to).Some?
    ensures !r.0 ==> r.1 == g
    ensures r.0 ==> r.1.edges == g.edges + {(Find(g.nodes, from).value, Find(g.nodes, to).value)}
    ensures SameNames(g.nodes, r.1.nodes) && r.1.title == g.title
    ensures forall i | 0 <= i < |g.nodes| :: r.1.nodes[i].text == g.nodes[i].text && r.1.nodes[i].width == g.nodes[i].width
  {
    match (Find(g.nodes, from), Find(g.nodes, to))
    case (Some(f), Some(t)) =>
      if (f, t) in g.edges then (true, g)
      else (true, Link(g.(edges := g.edges + {(f, t)}), f, t))
    case _ => (false, g)
  }

  /** Adding the same edge twice is the same as adding it once. */
  lemma AddEdgeIsIdempotent(g: GraphView, from: string, to: string)
    ensures AddEdge(AddEdge(g, from, to).1, from, to) == AddEdge(g, from, to)
  {
    var r := AddEdge(g, from, to);
    if r.0 {
      FindDependsOnNamesOnly(g.nodes, r.1.nodes, from);
      FindDependsOnNamesOnly(g.nodes, r.1.nodes, to);
    }
  }

  /**
   * The level rules of `add_edge` for a new edge from id `f` to id `t`: a level once
   * assigned never changes; an unassigned source becomes a root (level 1); an unassigned
   * target goes one level below its source and raises `highest_level` to that level; the
   * levels of all other nodes are left alone.
   */
  lemma LinkLevels(g: GraphView, f: nat, t: nat)
    requires f < |g.nodes| && t < |g.nodes|
    ensures var r := Link(g, f, t);
      && |r.nodes| == |g.nodes|
      && (forall i | 0 <= i < |g.nodes| && g.nodes[i].level != -1 :: r.nodes[i].level == g.nodes[i].level)
      && (forall i | 0 <= i < |g.nodes| && i != f && i != t :: r.nodes[i].level == g.nodes[i].level)
      && (g.nodes[f].level == -1 ==> r.nodes[f].level == 1)
      && (g.nodes[t].level == -1 && t != f ==>
            r.nodes[t].level == r.nodes[f].level + 1
            && r.highestLevel == Max(g.highestLevel, r.nodes[t].level))
      && (g.nodes[t].level != -1 || t == f ==> r.highestLevel == g.highestLevel)
  {
  }

  /**
   * The child bookkeeping of `add_edge`: exactly when the target ends up one level below
   * the source, the source's child count goes up by one and the target's parent becomes
   * the source, replacing any earlier parent without lowering that parent's count.
   * Nothing else changes a child count or a parent.
   */
  lemma LinkChildren(g: GraphView, f: nat, t: nat)
    requires f < |g.nodes| && t < |g.nodes|
    ensures var r := Link(g, f, t);
      var direct := r.nodes[t].level - r.nodes[f].level == 1;
      && |r.nodes| == |g.nodes|
      && (direct ==> r.nodes[f].numChildren == g.nodes[f].numChildren + 1 && r.nodes[t].parent == Some(f))
      && (!direct ==> r.nodes[f].numChildren == g.nodes[f].numChildren && r.nodes[t].parent == g.nodes[t].parent)
      && (forall i | 0 <= i < |g.nodes| && i != f :: r.nodes[i].numChildren == g.nodes[i].numChildren)
      && (forall i | 0 <= i < |g.nodes| && i != t :: r.nodes[i].parent == g.nodes[i].parent)
  {
  }

  /** A self-loop as a first edge makes its node a root and leaves `highest_level` alone. */
  lemma SelfLoopOnFreshNode(g: GraphView, name: string)
    requires Inv(g)
    requires Find(g.nodes, name).Some? && g.nodes[Find(g.nodes, name).value].level == -1
    ensures var r := AddEdge(g, name, name).1; var i := Find(g.nodes, name).value;
      && r.nodes[i].level == 1 && r.nodes[i].numChildren == 0 && r.nodes[i].parent == None
      && r.highestLevel == g.highestLevel
  {
    var i := Find(g.nodes, name).value;
    assert Children(g, i) == {};
  }

  // ---------------------------------------------------------------------------
  // The bookkeeping invariant
  // ---------------------------------------------------------------------------

  /** The targets of edges from `p` that sit exactly one level below `p`. */
  function Children(g: GraphView, p: nat): set<nat>
    requires p < |g.nodes|
  {
    set j | 0 <= j < |g.nodes| && (p, j) in g.edges && g.nodes[j].level == g.nodes[p].level + 1
  }

  /** Edges join existing nodes, and both ends of an edge have an assigned level. */
  ghost predicate EdgesLevelled(g: GraphView) {
    forall e | e in g.edges ::
      e.0 < |g.nodes| && e.1 < |g.nodes| && g.nodes[e.0].level >= 1 && g.nodes[e.1].level >= 1
  }

  /**
   * Levels are -1 (unassigned) or at least 1; `highest_level` is 0 or at least 2 and bounds
   * every level, except that roots may exist while it is still 0.
   */
  ghost predicate LevelsInRange(g: GraphView) {
    && (g.highestLevel == 0 || g.highestLevel >= 2)
    && forall i | 0 <= i < |g.nodes| ::
         g.nodes[i].level == -1 || 1 <= g.nodes[i].level <= Max(g.highestLevel, 1)
  }

  /**
   * A node has a parent exactly when its level is 2 or more, and its parent is the source
   * of an edge into it, one level up.
   */
  ghost predicate ParentsOk(g: GraphView) {
    forall i | 0 <= i < |g.nodes| ::
      && (g.nodes[i].parent.Some? <==> g.nodes[i].level >= 2)
      && (g.nodes[i].parent.Some? ==>
            var p := g.nodes[i].parent.value;
            p < |g.nodes| && (p, i) in g.edges && g.nodes[p].level == g.nodes[i].level - 1)
  }

  /** A node's child count is the number of its direct children along edges. */
  ghost predicate CountsOk(g: GraphView) {
    forall p | 0 <= p < |g.nodes| :: g.nodes[p].numChildren == |Children(g, p)|
  }

  /** What `create_graph`, `add_node` and `add_edge` keep true of every graph. */
  ghost predicate Inv(g: GraphView) {
    EdgesLevelled(g) && LevelsInRange(g) && ParentsOk(g) && CountsOk(g)
  }

  lemma EmptyGraphInv()
    ensures Inv(EmptyGraph())
  {
  }

  lemma AddNodePreservesInv(g: GraphView, name: string, text: string)
    requires Inv(g)
    ensures Inv(AddNode(g, name, text))
  {
    var r := AddNode(g, name, text);
    forall p | 0 <= p < |r.nodes|
      ensures r.nodes[p].numChildren == |Children(r, p)|
    {
      if p < |g.nodes| {
        assert Children(r, p) == Children(g, p);
      } else {
        assert Children(r, p) == {};
      }
    }
  }

  lemma SetTitlePreservesInv(g: GraphView, title: string)
    requires Inv(g)
    ensures Inv(SetTitle(g, title))
  {
    var r := SetTitle(g, title);
    forall p | 0 <= p < |r.nodes|
      ensures r.nodes[p].numChildren == |Children(r, p)|
    {
      assert Children(r, p) == Children(g, p);
    }
  }

  lemma SetTextPreservesInv(g: GraphView, i: nat, text: string)
    requires Inv(g) && i < |g.nodes|
    ensures Inv(SetText(g, i, text))
  {
    var r := SetText(g, i, text);
    forall p | 0 <= p < |r.nodes|
      ensures r.nodes[p].numChildren == |Children(r, p)|
    {
      assert Children(r, p) == Children(g, p);
    }
  }

  /** `add_edge` keeps the bookkeeping invariant. */
  lemma AddEdgePreservesInv(g: GraphView, from: string, to: string)
    requires Inv(g)
    ensures Inv(AddEdge(g, from, to).1)
  {
    match (Find(g.nodes, from), Find(g.nodes, to))
    case (Some(f), Some(t)) =>
      if (f, t) !in g.edges {
        var g0 := g.(edges := g.edges + {(f, t)});
        LinkLevelsInRange(g0, f, t);
        LinkEdgesLevelled(g, f, t);
        LinkParentsOk(g, f, t);
        forall p | 0 <= p < |g.nodes|
          ensures Link(g0, f, t).nodes[p].numChildren == |Children(Link(g0, f, t), p)|
        {
          LinkChildCount(g, f, t, p);
        }
      }
    case _ =>
  }

  lemma LinkLevelsInRange(g: GraphView, f: nat, t: nat)
    requires LevelsInRange(g) && f < |g.nodes| && t < |g.nodes|
    ensures LevelsInRange(Link(g, f, t))
  {
    LinkLevels(g, f, t);
  }

  lemma LinkEdgesLevelled(g: GraphView, f: nat, t: nat)
    requires EdgesLevelled(g) && LevelsInRange(g) && f < |g.nodes| && t < |g.nodes|
    ensures EdgesLevelled(Link(g.(edges := g.edges + {(f, t)}), f, t))
  {
    var g0 := g.(edges := g.edges + {(f, t)});
    LinkLevels(g0, f, t);
  }

  lemma LinkParentsOk(g: GraphView, f: nat, t: nat)
    requires EdgesLevelled(g) && LevelsInRange(g) && ParentsOk(g)
    requires f < |g.nodes| && t < |g.nodes|
    ensures ParentsOk(Link(g.(edges := g.edges + {(f, t)}), f, t))
  {
    var g0 := g.(edges := g.edges + {(f, t)});
    var r := Link(g0, f, t);
    LinkLevels(g0, f, t);
    LinkChildren(g0, f, t);
    forall i | 0 <= i < |r.nodes|
      ensures r.nodes[i].parent.Some? <==> r.nodes[i].level >= 2
      ensures r.nodes[i].parent.Some? ==>
            var p := r.nodes[i].parent.value;
            p < |r.nodes| && (p, i) in r.edges && r.nodes[p].level == r.nodes[i].level - 1
    {
      if i != t && g.nodes[i].parent.Some? {
        var p := g.nodes[i].parent.value;
        assert (p, i) in g.edges;
      }
    }
  }

  /** The children of `p` are the same in two graphs that agree on `p`'s edges and levels. */
  lemma SameChildren(a: GraphView, b: GraphView, p: nat)
    requires p < |a.nodes| == |b.nodes| && a.nodes[p].level == b.nodes[p].level
    requires forall j | 0 <= j < |a.nodes| :: (p, j) in a.edges <==> (p, j) in b.edges
    requires forall j | 0 <= j < |a.nodes| && (p, j) in a.edges :: a.nodes[j].level == b.nodes[j].level
    ensures Children(a, p) == Children(b, p)
  {
  }

  lemma LinkChildCount(g: GraphView, f: nat, t: nat, p: nat)
    requires Inv(g) && f < |g.nodes| && t < |g.nodes| && (f, t) !in g.edges && p < |g.nodes|
    ensures var r := Link(g.(edges := g.edges + {(f, t)}), f, t);
      r.nodes[p].numChildren == |Children(r, p)|
  {
    if p == f {
      SourceChildCount(g, f, t);
    } else {
      OtherChildCount(g, f, t, p);
    }
  }

  /** The source of a new edge gains the target as a child exactly when it is one level down. */
  lemma SourceChildCount(g: GraphView, f: nat, t: nat)
    requires EdgesLevelled(g) && CountsOk(g) && f < |g.nodes| && t < |g.nodes| && (f, t) !in g.edges
    ensures var r := Link(g.(edges := g.edges + {(f, t)}), f, t);
      r.nodes[f].numChildren == |Children(r, f)|
  {
    var g0 := g.(edges := g.edges + {(f, t)});
    var r := Link(g0, f, t);
    LinkLevels(g0, f, t);
    LinkChildren(g0, f, t);
    var extra: set<nat> := if r.nodes[t].level - r.nodes[f].level == 1 then {t} else {};
    if g.nodes[f].level == -1 {
      assert Children(g, f) == {};
      forall j | j in Children(r, f) ensures j == t {
        assert (f, j) in g0.edges;
      }
      assert Children(r, f) == extra;
    } else {
      ChildrenWithNewEdge(g, r, f, t);
    }
  }

  /** Adding edge `(p, t)` adds `t` to `p`'s children when it lies one level below, and nothing else. */
  lemma ChildrenWithNewEdge(a: GraphView, b: GraphView, p: nat, t: nat)
    requires p < |a.nodes| == |b.nodes| && t < |a.nodes| && a.nodes[p].level == b.nodes[p].level
    requires (p, t) !in a.edges && (p, t) in b.edges
    requires forall j | 0 <= j < |a.nodes| && j != t :: (p, j) in a.edges <==> (p, j) in b.edges
    requires forall j | 0 <= j < |a.nodes| && (p, j) in a.edges :: a.nodes[j].level == b.nodes[j].level
    ensures Children(b, p) == Children(a, p) + (if DirectChild(b, p, t) then {t} else {})
  {
  }

  /** A node other than the source keeps its children when an edge is added. */
  lemma OtherChildCount(g: GraphView, f: nat, t: nat, p: nat)
    requires EdgesLevelled(g) && CountsOk(g) && f < |g.nodes| && t < |g.nodes| && p < |g.nodes| && p != f
    ensures var r := Link(g.(edges := g.edges + {(f, t)}), f, t);
      r.nodes[p].numChildren == |Children(r, p)|
  {
    var g0 := g.(edges := g.edges + {(f, t)});
    var r := Link(g0, f, t);
    LinkLevels(g0, f, t);
    LinkChildren(g0, f, t);
    if g.nodes[p].level == -1 {
      assert Children(g, p) == {};
      assert Children(r, p) == {};
    } else {
      SameChildren(g, r, p);
    }
  }

  // ---------------------------------------------------------------------------
  // calculate_required_widths
  // ---------------------------------------------------------------------------

  /** Whether the level loop of `calculate_required_widths` visits node `i`. */
  predicate InPass(g: GraphView, i: nat)
    requires i < |g.nodes|
  {
    0 <= g.nodes[i].level <= g.highestLevel
  }

  function Rank(g: GraphView, i: nat): nat
    requires i < |g.nodes|
  {
    if InPass(g, i) then g.highestLevel + 1 - g.nodes[i].level else 0
  }

  /** Whether `j` is a direct child of `i` along an edge: its level is exactly one more. */
  predicate DirectChild(g: GraphView, i: nat, j: nat)
    requires i < |g.nodes| && j < |g.nodes|
  {
    (i, j) in g.edges && g.nodes[j].level == g.nodes[i].level + 1
  }

  /**
   * The width the pass computes for node `i`: the footprint, or the sum of the widths of
   * its direct children when that is larger, for the nodes the level loop visits; the
   * footprint for all others.
   */
  function RequiredWidth(g: GraphView, i: nat): (w: int)
    requires i < |g.nodes|
    ensures w >= NodeFootprint
    decreases Rank(g, i), |g.nodes| + 1
  {
    if InPass(g, i) then Max(NodeFootprint, ChildWidths(g, i, |g.nodes|)) else NodeFootprint
  }

  /** The sum of `RequiredWidth` over the direct children of `i` among the first `n` ids. */
  function ChildWidths(g: GraphView, i: nat, n: nat): (s: int)
    requires i < |g.nodes| && n <= |g.nodes| && InPass(g, i)
    ensures s >= 0
    decreases Rank(g, i), n
  {
    if n == 0 then 0
    else ChildWidths(g, i, n - 1) + (if DirectChild(g, i, n - 1) then RequiredWidth(g, n - 1) else 0)
  }

  /** The graph after `calculate_required_widths`: every width set, nothing else changed. */
  function WithWidths(g: GraphView): (r: GraphView)
    ensures SameNames(g.nodes, r.nodes)
    ensures forall i | 0 <= i < |g.nodes| :: r.nodes[i].width == RequiredWidth(g, i) >= NodeFootprint
    ensures forall i | 0 <= i < |g.nodes| :: r.nodes[i].(width := g.nodes[i].width) == g.nodes[i]
    ensures r.edges == g.edges && r.title == g.title && r.highestLevel == g.highestLevel
  {
    g.(nodes := seq(|g.nodes|, i requires 0 <= i < |g.nodes| => g.nodes[i].(width := RequiredWidth(g, i))))
  }

  /** The sum of the stored widths of the direct children of `i` among the first `n` ids. */
  function StoredChildWidths(g: GraphView, i: nat, n: nat): int
    requires i < |g.nodes| && n <= |g.nodes|
  {
    if n == 0 then 0
    else StoredChildWidths(g, i, n - 1) + (if DirectChild(g, i, n - 1) then g.nodes[n - 1].width else 0)
  }

  lemma {:induction false} StoredChildWidthsAfterPass(g: GraphView, i: nat, n: nat)
    requires i < |g.nodes| && n <= |g.nodes| && InPass(g, i)
    ensures StoredChildWidths(WithWidths(g), i, n) == ChildWidths(g, i, n)
  {
    if n > 0 {
      StoredChildWidthsAfterPass(g, i, n - 1);
    }
  }

  /**
   * What the width pass guarantees: every width is at least the footprint 440; every
   * node on a level the pass visits is at least as wide as its direct children together
   * (summed over matrix edges, not over `parent` links), and no wider than it needs to be.
   */
  lemma WidthsCoverChildren(g: GraphView, i: nat)
    requires i < |g.nodes|
    ensures var w := WithWidths(g);
      && w.nodes[i].width >= NodeFootprint
      && (InPass(g, i) ==> w.nodes[i].width == Max(NodeFootprint, StoredChildWidths(w, i, |g.nodes|)))
      && (!InPass(g, i) ==> w.nodes[i].width == NodeFootprint)
  {
    if InPass(g, i) {
      StoredChildWidthsAfterPass(g, i, |g.nodes|);
    }
  }
}
