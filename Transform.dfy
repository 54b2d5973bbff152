/**
 * The `Transform` scene graph: nodes with a children list, a (weak) parent link, a pose
 * (position, quaternion, scale) and a model matrix that is recomputed from the parent's model
 * matrix and the node's own pose, recursively down the children lists.
 *
 * Every `Transform` object is an entry of the `Scene` table below: a node's fields are the values
 * the class's maps hold under its id. Matrix products are kept uninterpreted: a matrix is the
 * word of factors that were multiplied, so the product is concatenation (associative, with the
 * empty word as identity) and nothing about rotations or scalings is assumed.
 *
 * The source's recursion ends only when the children lists contain no cycle; the model asks for a
 * ghost rank under which every child ranks below each node that lists it.
 */
module Transform {
  import opened Common

  type NodeId = nat
  type Vec3 = (real, real, real)
  type Vec4 = (real, real, real, real)

  /** One factor of a matrix product. */
  datatype Factor = Translation(x: real, y: real, z: real) | Rotation(q: Vec4) | Scaling(s: Vec3)

  /** A 4x4 matrix, as the product of its factors in order. */
  type Matrix = seq<Factor>

  /** `matrix_identity_float4x4` */
  const Identity: Matrix := []

  /** `matrix_multiply` */
  function Multiply(a: Matrix, b: Matrix): Matrix {
    a + b
  }

  /** The local matrix `T(-x, y, -z) · R(q) · S(s)` (translation flipped into Metal's left-handed space). */
  function LocalMatrix(position: Vec3, q: Vec4, scale: Vec3): Matrix {
    Multiply([Translation(-position.0, position.1, -position.2)], Multiply([Rotation(q)], [Scaling(scale)]))
  }

  /** A node's own fields, all but its model matrix. */
  datatype Node = Node(children: seq<NodeId>, parent: Option<NodeId>, position: Vec3, quaternion: Vec4, scale: Vec3)

  /** A snapshot of every node: its fields, and its model matrix. */
  datatype Graph = Graph(nodes: map<NodeId, Node>, model: map<NodeId, Matrix>)

  /** n's links point only at nodes. */
  predicate LinksInside(nodes: map<NodeId, Node>, n: NodeId)
    requires n in nodes
  {
    && (nodes[n].parent.Some? ==> nodes[n].parent.value in nodes)
    && forall c :: c in nodes[n].children ==> c in nodes
  }

  /** n's children rank strictly below n. */
  predicate ChildrenBelow(nodes: map<NodeId, Node>, rank: map<NodeId, nat>, n: NodeId)
    requires n in nodes
  {
    n in rank && forall c :: c in nodes[n].children ==> c in rank && rank[c] < rank[n]
  }

  /** Every node has a model matrix, and links only point at nodes. */
  predicate WellFormed(g: Graph) {
    && g.model.Keys == g.nodes.Keys
    && forall n :: n in g.nodes ==> LinksInside(g.nodes, n)
  }

  /** Every child ranks strictly below each node whose children list holds it. */
  predicate Ranked(g: Graph, rank: map<NodeId, nat>) {
    forall n :: n in g.nodes ==> ChildrenBelow(g.nodes, rank, n)
  }

  predicate Valid(g: Graph, rank: map<NodeId, nat>) {
    WellFormed(g) && Ranked(g, rank)
  }

  /** The model matrix `forceCalculateModelMatrix` gives n: the parent's times n's local matrix. */
  function WorldOf(g: Graph, n: NodeId): Matrix
    requires WellFormed(g) && n in g.nodes
  {
    var node := g.nodes[n];
    var local := LocalMatrix(node.position, node.quaternion, node.scale);
    match node.parent
    case Some(p) => Multiply(g.model[p], local)
    case None => local
  }

  /**
   * `forceCalculateModelMatrix()` on n: set n's model matrix, then recompute each child in order.
   * Only model matrices change, and none of a node ranked at or above n other than n itself.
   */
  function Recalc(g: Graph, rank: map<NodeId, nat>, n: NodeId): (r: Graph)
    requires Valid(g, rank) && n in g.nodes
    ensures r.nodes == g.nodes && r.model.Keys == g.model.Keys
    ensures r.model[n] == WorldOf(g, n)
    ensures forall m :: m in g.model && m != n && rank[m] >= rank[n] ==> r.model[m] == g.model[m]
    decreases rank[n], 1
  {
    RecalcChildren(g.(model := g.model[n := WorldOf(g, n)]), rank, n, 0)
  }

  /** The `children.forEach` loop of a recompute, from the i-th child on. */
  function RecalcChildren(g: Graph, rank: map<NodeId, nat>, n: NodeId, i: nat): (r: Graph)
    requires Valid(g, rank) && n in g.nodes && i <= |g.nodes[n].children|
    ensures r.nodes == g.nodes && r.model.Keys == g.model.Keys
    ensures forall m :: m in g.model && rank[m] >= rank[n] ==> r.model[m] == g.model[m]
    decreases rank[n], 0, |g.nodes[n].children| - i
  {
    if i == |g.nodes[n].children| then g
    else RecalcChildren(Recalc(g, rank, g.nodes[n].children[i]), rank, n, i + 1)
  }

  /** One turn of the children loop. */
  lemma RecalcChildrenStep(g: Graph, rank: map<NodeId, nat>, n: NodeId, i: nat)
    requires Valid(g, rank) && n in g.nodes && i < |g.nodes[n].children|
    ensures g.nodes[n].children[i] in g.nodes && rank[g.nodes[n].children[i]] < rank[n]
    ensures RecalcChildren(g, rank, n, i) == RecalcChildren(Recalc(g, rank, g.nodes[n].children[i]), rank, n, i + 1)
  {
  }

  /** `children` with every occurrence of x removed (`removeAll(where: { $0 == x })`). */
  function Without(s: seq<NodeId>, x: NodeId): seq<NodeId> {
    if |s| == 0 then [] else (if s[0] == x then [] else [s[0]]) + Without(s[1..], x)
  }

  /** Removal keeps every other element the same number of times, and drops all x. */
  lemma {:induction false} WithoutCounts(s: seq<NodeId>, x: NodeId)
    ensures forall y :: multiset(Without(s, x))[y] == if y == x then 0 else multiset(s)[y]
  {
    if |s| > 0 {
      WithoutCounts(s[1..], x);
      assert s == [s[0]] + s[1..];
    }
  }

  /** No x survives removal, and a list without x is left as it is. */
  lemma {:induction false} WithoutOmits(s: seq<NodeId>, x: NodeId)
    ensures x !in Without(s, x)
    ensures x !in s ==> Without(s, x) == s
  {
    if |s| > 0 {
      WithoutOmits(s[1..], x);
      assert s == [s[0]] + s[1..];
    }
  }

  lemma WithoutIsSubsequence(s: seq<NodeId>, x: NodeId)
    ensures forall k :: 0 <= k < |Without(s, x)| ==> Without(s, x)[k] in s
  {
    WithoutCounts(s, x);
    forall k | 0 <= k < |Without(s, x)| ensures Without(s, x)[k] in s {
      assert Without(s, x)[k] in multiset(Without(s, x));
    }
  }

  // ---------------------------------------------------------------------------------------------
  // The operations on a snapshot

  function WithChildren(g: Graph, p: NodeId, cs: seq<NodeId>): Graph
    requires p in g.nodes
  {
    g.(nodes := g.nodes[p := g.nodes[p].(children := cs)])
  }

  /** `self.parent = p` followed by a recompute of self. */
  function Relink(g: Graph, rank: map<NodeId, nat>, n: NodeId, p: Option<NodeId>): (r: Graph)
    requires Valid(g, rank) && n in g.nodes && (p.Some? ==> p.value in g.nodes)
    ensures Valid(r, rank) && r.nodes == g.nodes[n := g.nodes[n].(parent := p)]
  {
    Recalc(g.(nodes := g.nodes[n := g.nodes[n].(parent := p)]), rank, n)
  }

  /** The precondition of `add(child:)`: a new child ranks below its new parent. */
  predicate CanAdd(g: Graph, rank: map<NodeId, nat>, p: NodeId, c: NodeId)
    requires p in g.nodes
  {
    c !in g.nodes[p].children ==> c in rank && p in rank && rank[c] < rank[p]
  }

  /** Appending a child that ranks below p keeps the snapshot well formed and ranked. */
  lemma AppendChildValid(g: Graph, rank: map<NodeId, nat>, p: NodeId, c: NodeId)
    requires Valid(g, rank) && p in g.nodes && c in g.nodes && CanAdd(g, rank, p, c)
    ensures Valid(WithChildren(g, p, g.nodes[p].children + [c]), rank)
  {
  }

  /**
   * `add(child:notifyChild:)`: append c to p's children unless already there; when notifying,
   * `c.setParent(p, notifyParent: false)` and one more recompute of c.
   */
  function AddChild(g: Graph, rank: map<NodeId, nat>, p: NodeId, c: NodeId, notifyChild: bool): (r: Graph)
    requires Valid(g, rank) && p in g.nodes && c in g.nodes && CanAdd(g, rank, p, c)
    ensures Valid(r, rank) && r.nodes.Keys == g.nodes.Keys
  {
    if c in g.nodes[p].children then g
    else
      var g1 := WithChildren(g, p, g.nodes[p].children + [c]);
      if notifyChild then Recalc(Relink(g1, rank, c, Some(p)), rank, c) else g1
  }

  /**
   * `remove(child:notifyChild:)`: when c is among p's children, drop every occurrence; when
   * notifying, `c.setParent(nil, notifyParent: false)` and one more recompute of c.
   */
  function RemoveChild(g: Graph, rank: map<NodeId, nat>, p: NodeId, c: NodeId, notifyChild: bool): (r: Graph)
    requires Valid(g, rank) && p in g.nodes && c in g.nodes
    ensures Valid(r, rank) && r.nodes.Keys == g.nodes.Keys
  {
    if c !in g.nodes[p].children then g
    else
      WithoutIsSubsequence(g.nodes[p].children, c);
      var g1 := WithChildren(g, p, Without(g.nodes[p].children, c));
      if notifyChild then Recalc(Relink(g1, rank, c, None), rank, c) else g1
  }

  /**
   * `setParent(_:notifyParent:)`: when notifying, remove n from p without notifying; then link
   * and recompute; then, when notifying, add n to p without notifying.
   */
  function SetParentOf(g: Graph, rank: map<NodeId, nat>, n: NodeId, p: Option<NodeId>, notifyParent: bool): (r: Graph)
    requires Valid(g, rank) && n in g.nodes && (p.Some? ==> p.value in g.nodes)
    requires notifyParent && p.Some? ==> n in rank && p.value in rank && rank[n] < rank[p.value]
    ensures Valid(r, rank) && r.nodes.Keys == g.nodes.Keys
  {
    var g1 := if notifyParent && p.Some? then RemoveChild(g, rank, p.value, n, false) else g;
    var g2 := Relink(g1, rank, n, p);
    if notifyParent && p.Some? then AddChild(g2, rank, p.value, n, false) else g2
  }

  // ---------------------------------------------------------------------------------------------
  // Properties

  /** `add` never lists a child twice: a duplicate-free list stays so, and holds c once. */
  lemma AddKeepsChildrenDistinct(g: Graph, rank: map<NodeId, nat>, p: NodeId, c: NodeId, notifyChild: bool)
    requires Valid(g, rank) && p in g.nodes && c in g.nodes && CanAdd(g, rank, p, c)
    requires multiset(g.nodes[p].children)[c] <= 1
    ensures multiset(AddChild(g, rank, p, c, notifyChild).nodes[p].children)[c] == 1
  {
    if c !in g.nodes[p].children {
      assert multiset(g.nodes[p].children + [c])[c] == 1;
    }
  }

  /** `add` with notification makes p the child's parent and leaves c's model matrix `p.model · local`. */
  lemma AddLinksParent(g: Graph, rank: map<NodeId, nat>, p: NodeId, c: NodeId)
    requires Valid(g, rank) && p in g.nodes && c in g.nodes && CanAdd(g, rank, p, c)
    requires c !in g.nodes[p].children
    ensures var r := AddChild(g, rank, p, c, true);
      r.nodes[c].parent == Some(p) && r.nodes[p].children == g.nodes[p].children + [c]
      && r.model[c] == WorldOf(r, c)
  {
    var g1 := WithChildren(g, p, g.nodes[p].children + [c]);
    var g2 := Relink(g1, rank, c, Some(p));
    var r := Recalc(g2, rank, c);
    assert r.model[p] == g2.model[p];
  }

  /** `remove` drops every occurrence of c, keeps the other children, and does nothing when c is absent. */
  lemma RemoveDropsAll(g: Graph, rank: map<NodeId, nat>, p: NodeId, c: NodeId, notifyChild: bool)
    requires Valid(g, rank) && p in g.nodes && c in g.nodes
    ensures var r := RemoveChild(g, rank, p, c, notifyChild);
      && multiset(r.nodes[p].children) == multiset(g.nodes[p].children)[c := 0]
      && (forall m :: m in g.nodes && m != p ==> r.nodes[m].children == g.nodes[m].children)
      && (c !in g.nodes[p].children ==> r == g)
      && (c in g.nodes[p].children && notifyChild ==> r.nodes[c].parent == None)
  {
    if c in g.nodes[p].children {
      WithoutCounts(g.nodes[p].children, c);
      RewrittenNodes(g.nodes, p, c, Without(g.nodes[p].children, c), None);
    }
  }

  /** Rewriting p's children and then c's parent leaves p with the new list and every other list as it was. */
  lemma RewrittenNodes(nodes: map<NodeId, Node>, p: NodeId, c: NodeId, cs: seq<NodeId>, parent: Option<NodeId>)
    requires p in nodes && c in nodes
    ensures var n1 := nodes[p := nodes[p].(children := cs)];
      var n2 := n1[c := n1[c].(parent := parent)];
      && n1[p].children == cs && n2[p].children == cs && n2[c].parent == parent
      && forall m :: m in nodes && m != p ==> n1[m].children == nodes[m].children && n2[m].children == nodes[m].children
  {
  }

  /** The fields `setParent(p, notifyParent: true)` leaves: p lists n once, at the end, and n points at p. */
  lemma SetParentNodes(g: Graph, rank: map<NodeId, nat>, n: NodeId, p: NodeId)
    requires Valid(g, rank) && n in g.nodes && p in g.nodes && n in rank && p in rank && rank[n] < rank[p]
    ensures SetParentOf(g, rank, n, Some(p), true).nodes
         == g.nodes[p := g.nodes[p].(children := Without(g.nodes[p].children, n) + [n])][n := g.nodes[n].(parent := Some(p))]
  {
    var cs := Without(g.nodes[p].children, n);
    var g1 := RemoveChild(g, rank, p, n, false);
    RemoveQuietNodes(g, rank, p, n);
    var g2 := Relink(g1, rank, n, Some(p));
    AddQuietNodes(g2, rank, p, n);
    UpdateTwice(g.nodes, p, n, g.nodes[p].(children := cs), g.nodes[n].(parent := Some(p)), g.nodes[p].(children := cs + [n]));
  }

  /** `remove(child:notifyChild: false)` only rewrites the parent's children, and leaves c out of them. */
  lemma RemoveQuietNodes(g: Graph, rank: map<NodeId, nat>, p: NodeId, c: NodeId)
    requires Valid(g, rank) && p in g.nodes && c in g.nodes
    ensures RemoveChild(g, rank, p, c, false).nodes == g.nodes[p := g.nodes[p].(children := Without(g.nodes[p].children, c))]
    ensures c !in Without(g.nodes[p].children, c)
  {
    WithoutOmits(g.nodes[p].children, c);
    if c !in g.nodes[p].children {
      assert g.nodes[p].(children := Without(g.nodes[p].children, c)) == g.nodes[p];
    }
  }

  /** `add(child:notifyChild: false)` of a new child only rewrites the parent's children. */
  lemma AddQuietNodes(g: Graph, rank: map<NodeId, nat>, p: NodeId, c: NodeId)
    requires Valid(g, rank) && p in g.nodes && c in g.nodes && CanAdd(g, rank, p, c)
    ensures c !in g.nodes[p].children ==>
      AddChild(g, rank, p, c, false).nodes == g.nodes[p := g.nodes[p].(children := g.nodes[p].children + [c])]
  {
  }

  lemma UpdateTwice<K, V>(m: map<K, V>, p: K, n: K, a: V, b: V, c: V)
    requires p != n
    ensures m[p := a][n := b][p := c] == m[p := c][n := b]
  {
  }

  /**
   * `setParent(p, notifyParent: true)` leaves n listed exactly once by p, with p as its parent,
   * and does not touch any other node's children, the old parent's included.
   */
  lemma SetParentListsOnce(g: Graph, rank: map<NodeId, nat>, n: NodeId, p: NodeId)
    requires Valid(g, rank) && n in g.nodes && p in g.nodes && n in rank && p in rank && rank[n] < rank[p]
    ensures var r := SetParentOf(g, rank, n, Some(p), true);
      && multiset(r.nodes[p].children)[n] == 1 && r.nodes[n].parent == Some(p)
      && forall m :: m in g.nodes && m != p ==> r.nodes[m].children == g.nodes[m].children
  {
    SetParentNodes(g, rank, n, p);
    WithoutCounts(g.nodes[p].children, n);
    var cs := Without(g.nodes[p].children, n);
    RewrittenNodes(g.nodes, p, n, cs + [n], Some(p));
    assert multiset(cs + [n]) == multiset(cs) + multiset{n};
  }

  /**
   * After a recompute of n, n's model matrix is its parent's times its local matrix, provided
   * the parent lists n (so ranks above it, and is not itself recomputed).
   */
  lemma RecalcSetsWorld(g: Graph, rank: map<NodeId, nat>, n: NodeId)
    requires Valid(g, rank) && n in g.nodes
    requires g.nodes[n].parent.Some? ==> n in g.nodes[g.nodes[n].parent.value].children
    ensures var r := Recalc(g, rank, n); r.model[n] == WorldOf(r, n)
  {
    if g.nodes[n].parent.Some? {
      var p := g.nodes[n].parent.value;
      var k :| 0 <= k < |g.nodes[p].children| && g.nodes[p].children[k] == n;
      assert rank[n] < rank[p];
    }
  }

  // ---------------------------------------------------------------------------------------------
  // What a recompute leaves below the node

  /** Links stay among the nodes and every children list ranks below its owner. */
  predicate Shaped(nodes: map<NodeId, Node>, rank: map<NodeId, nat>) {
    forall n :: n in nodes ==> LinksInside(nodes, n) && ChildrenBelow(nodes, rank, n)
  }

  /** Every node a children list holds has its parent link pointing back at that list's owner. */
  predicate TreeConsistent(nodes: map<NodeId, Node>) {
    forall p, c :: p in nodes && c in nodes[p].children ==> c in nodes && nodes[c].parent == Some(p)
  }

  /** x is m, or lies below m along children lists. */
  ghost predicate Below(nodes: map<NodeId, Node>, rank: map<NodeId, nat>, m: NodeId, x: NodeId)
    requires Shaped(nodes, rank) && m in nodes
    decreases rank[m]
  {
    x == m || exists i :: 0 <= i < |nodes[m].children| && Below(nodes, rank, nodes[m].children[i], x)
  }

  /** A child of a node below m is below m. */
  lemma {:induction false} BelowChild(nodes: map<NodeId, Node>, rank: map<NodeId, nat>, m: NodeId, p: NodeId, k: nat)
    requires Shaped(nodes, rank) && m in nodes && Below(nodes, rank, m, p)
    requires p in nodes && k < |nodes[p].children|
    ensures Below(nodes, rank, m, nodes[p].children[k])
    decreases rank[m]
  {
    if p != m {
      var i :| 0 <= i < |nodes[m].children| && Below(nodes, rank, nodes[m].children[i], p);
      BelowChild(nodes, rank, nodes[m].children[i], p, k);
    }
  }

  /** Anything strictly below m is held by the children list of some node below m. */
  lemma {:induction false} BelowLister(nodes: map<NodeId, Node>, rank: map<NodeId, nat>, m: NodeId, x: NodeId)
    returns (p: NodeId)
    requires Shaped(nodes, rank) && m in nodes && Below(nodes, rank, m, x) && x != m
    ensures p in nodes && Below(nodes, rank, m, p) && x in nodes[p].children
    decreases rank[m]
  {
    var i :| 0 <= i < |nodes[m].children| && Below(nodes, rank, nodes[m].children[i], x);
    var c := nodes[m].children[i];
    if x == c {
      p := m;
    } else {
      p := BelowLister(nodes, rank, c, x);
      assert Below(nodes, rank, m, p);
    }
  }

  /** A recompute of m changes no model matrix outside m's subtree. */
  lemma {:induction false} RecalcFrame(g: Graph, rank: map<NodeId, nat>, m: NodeId, x: NodeId)
    requires Valid(g, rank) && m in g.nodes && x in g.model && !Below(g.nodes, rank, m, x)
    ensures Recalc(g, rank, m).model[x] == g.model[x]
    decreases rank[m], 1
  {
    var g1 := g.(model := g.model[m := WorldOf(g, m)]);
    forall j | 0 <= j < |g.nodes[m].children|
      ensures !Below(g.nodes, rank, g.nodes[m].children[j], x)
    {
    }
    RecalcChildrenFrame(g1, rank, m, 0, x);
  }

  /** The children loop from child i on changes no model matrix outside those children's subtrees. */
  lemma {:induction false} RecalcChildrenFrame(g: Graph, rank: map<NodeId, nat>, n: NodeId, i: nat, x: NodeId)
    requires Valid(g, rank) && n in g.nodes && i <= |g.nodes[n].children| && x in g.model
    requires forall j :: i <= j < |g.nodes[n].children| ==> !Below(g.nodes, rank, g.nodes[n].children[j], x)
    ensures RecalcChildren(g, rank, n, i).model[x] == g.model[x]
    decreases rank[n], 0, |g.nodes[n].children| - i
  {
    if i < |g.nodes[n].children| {
      RecalcChildrenStep(g, rank, n, i);
      var c := g.nodes[n].children[i];
      RecalcFrame(g, rank, c, x);
      RecalcChildrenFrame(Recalc(g, rank, c), rank, n, i + 1, x);
    }
  }

  /**
   * `forceCalculateModelMatrix` recursing through `children`: in a tree-consistent graph (every
   * child's parent link points back at the node listing it), a recompute of m leaves every node
   * strictly below m with its parent's model matrix times its own local matrix.
   */
  lemma RecalcSettles(g: Graph, rank: map<NodeId, nat>, m: NodeId)
    requires Valid(g, rank) && TreeConsistent(g.nodes) && m in g.nodes
    ensures var r := Recalc(g, rank, m);
            forall x :: x in g.nodes && Below(g.nodes, rank, m, x) && x != m ==> r.model[x] == WorldOf(r, x)
  {
    forall x | x in g.nodes && Below(g.nodes, rank, m, x) && x != m
      ensures Recalc(g, rank, m).model[x] == WorldOf(Recalc(g, rank, m), x)
    {
      RecalcSettlesAt(g, rank, m, x);
    }
  }

  /** One node strictly below m, after a recompute of m. */
  lemma {:induction false} RecalcSettlesAt(g: Graph, rank: map<NodeId, nat>, m: NodeId, x: NodeId)
    requires Valid(g, rank) && TreeConsistent(g.nodes) && m in g.nodes && x in g.nodes
    requires Below(g.nodes, rank, m, x) && x != m
    ensures var r := Recalc(g, rank, m); r.model[x] == WorldOf(r, x)
    decreases rank[m], 1
  {
    var i :| 0 <= i < |g.nodes[m].children| && Below(g.nodes, rank, g.nodes[m].children[i], x);
    var g1 := g.(model := g.model[m := WorldOf(g, m)]);
    RecalcChildrenSettlesAt(g1, rank, m, 0, i, x);
  }

  /** One node below child j, after the children loop from child i on (i <= j). */
  lemma {:induction false} RecalcChildrenSettlesAt(g: Graph, rank: map<NodeId, nat>, n: NodeId, i: nat, j: nat, x: NodeId)
    requires Valid(g, rank) && TreeConsistent(g.nodes) && n in g.nodes && x in g.nodes
    requires i <= j < |g.nodes[n].children| && Below(g.nodes, rank, g.nodes[n].children[j], x)
    ensures var r := RecalcChildren(g, rank, n, i); r.model[x] == WorldOf(r, x)
    decreases rank[n], 0, |g.nodes[n].children| - i
  {
    var ch := g.nodes[n].children;
    RecalcChildrenStep(g, rank, n, i);
    var c := ch[i];
    var g2 := Recalc(g, rank, c);
    var r := RecalcChildren(g2, rank, n, i + 1);
    if later :| i + 1 <= later < |ch| && Below(g.nodes, rank, ch[later], x) {
      RecalcChildrenSettlesAt(g2, rank, n, i + 1, later, x);
    } else {
      // x lies below child i and no later child: the rest of the loop leaves it and its parent alone
      RecalcChildrenFrame(g2, rank, n, i + 1, x);
      if x == c {
        assert g.nodes[c].parent == Some(n);
      } else {
        RecalcSettlesAt(g, rank, c, x);
        var p := BelowLister(g.nodes, rank, c, x);
        assert g.nodes[x].parent == Some(p);
        forall k | i + 1 <= k < |ch|
          ensures !Below(g.nodes, rank, ch[k], p)
        {
          if Below(g.nodes, rank, ch[k], p) {
            var e :| 0 <= e < |g.nodes[p].children| && g.nodes[p].children[e] == x;
            BelowChild(g.nodes, rank, ch[k], p, e);
          }
        }
        RecalcChildrenFrame(g2, rank, n, i + 1, p);
      }
    }
  }

  // ---------------------------------------------------------------------------------------------
  // The objects

  /** Every `Transform` object: its fields under its id, and its model matrix. */
  class Scene {
    var nodes: map<NodeId, Node>
    var modelMatrix: map<NodeId, Matrix>
    ghost var rank: map<NodeId, nat>

    function State(): Graph
      reads this
    {
      Graph(nodes, modelMatrix)
    }

    ghost predicate Inv()
      reads this
    {
      Valid(State(), rank)
    }

    constructor()
      ensures Inv() && nodes == map[] && rank == map[]
    {
      nodes, modelMatrix := map[], map[];
      rank := map[];
    }

    /**
     * `Transform()`: no children, no parent, the default pose and an identity model matrix. The
     * caller supplies the new object's identity.
     */
    method NewNode(n: NodeId, ghost r: nat)
      requires Inv() && n !in nodes
      modifies this
      ensures Inv() && rank == old(rank)[n := r]
      ensures nodes == old(nodes)[n := Node([], None, (0.0, 0.0, 0.0), (0.0, 0.0, 0.0, 1.0), (1.0, 1.0, 1.0))]
      ensures modelMatrix == old(modelMatrix)[n := Identity]
    {
      nodes := nodes[n := Node([], None, (0.0, 0.0, 0.0), (0.0, 0.0, 0.0, 1.0), (1.0, 1.0, 1.0))];
      modelMatrix := modelMatrix[n := Identity];
      rank := rank[n := r];
    }

    /** Replaces the ranking, for a caller about to link nodes in an order the old one forbids. */
    ghost method Rerank(newRank: map<NodeId, nat>)
      requires Inv() && Ranked(State(), newRank)
      modifies this
      ensures Inv() && State() == old(State()) && rank == newRank
    {
      rank := newRank;
    }

    /** `forceCalculateModelMatrix()` */
    method ForceCalculateModelMatrix(n: NodeId)
      requires Inv() && n in nodes
      modifies this
      ensures Inv() && rank == old(rank)
      ensures State() == Recalc(old(State()), rank, n)
      decreases rank[n], 1
    {
      UpdateOwnMatrix(n);
      RecalculateChildren(n, 0);
    }

    /** The first half of a recompute: n's own model matrix from its parent's and its pose. */
    method UpdateOwnMatrix(n: NodeId)
      requires Inv() && n in nodes
      modifies this
      ensures Inv() && rank == old(rank)
      ensures State() == old(State()).(model := old(modelMatrix)[n := WorldOf(old(State()), n)])
    {
      var node := nodes[n];
      var local := LocalMatrix(node.position, node.quaternion, node.scale);
      match node.parent {
        case Some(p) =>
          modelMatrix := modelMatrix[n := Multiply(modelMatrix[p], local)];
        case None =>
          modelMatrix := modelMatrix[n := local];
      }
    }

    /** The second half: `children.forEach { $0.forceCalculateModelMatrix() }`, from child i on. */
    method RecalculateChildren(n: NodeId, i: nat)
      requires Inv() && n in nodes && i <= |nodes[n].children|
      modifies this
      ensures Inv() && rank == old(rank)
      ensures State() == RecalcChildren(old(State()), rank, n, i)
      decreases rank[n], 0, |nodes[n].children| - i
    {
      if i < |nodes[n].children| {
        RecalcChildrenStep(State(), rank, n, i);
        ForceCalculateModelMatrix(nodes[n].children[i]);
        RecalculateChildren(n, i + 1);
      }
    }

    /** `add(child:notifyChild:)` */
    method Add(p: NodeId, c: NodeId, notifyChild: bool)
      requires Inv() && p in nodes && c in nodes && CanAdd(State(), rank, p, c)
      modifies this
      ensures Inv() && rank == old(rank)
      ensures State() == AddChild(old(State()), rank, p, c, notifyChild)
      decreases if notifyChild then 2 else 0
    {
      if c !in nodes[p].children {
        AppendChildValid(State(), rank, p, c);
        nodes := nodes[p := nodes[p].(children := nodes[p].children + [c])];
        if notifyChild {
          SetParent(c, Some(p), false);
          ForceCalculateModelMatrix(c);
        }
      }
    }

    /** `remove(child:notifyChild:)` */
    method Remove(p: NodeId, c: NodeId, notifyChild: bool)
      requires Inv() && p in nodes && c in nodes
      modifies this
      ensures Inv() && rank == old(rank)
      ensures State() == RemoveChild(old(State()), rank, p, c, notifyChild)
      decreases if notifyChild then 2 else 0
    {
      if c in nodes[p].children {
        WithoutIsSubsequence(nodes[p].children, c);
        nodes := nodes[p := nodes[p].(children := Without(nodes[p].children, c))];
        if notifyChild {
          SetParent(c, None, false);
          ForceCalculateModelMatrix(c);
        }
      }
    }

    /** `setParent(_:notifyParent:)` */
    method SetParent(n: NodeId, p: Option<NodeId>, notifyParent: bool)
      requires Inv() && n in nodes && (p.Some? ==> p.value in nodes)
      requires notifyParent && p.Some? ==> n in rank && p.value in rank && rank[n] < rank[p.value]
      modifies this
      ensures Inv() && rank == old(rank)
      ensures State() == SetParentOf(old(State()), rank, n, p, notifyParent)
      decreases if notifyParent then 3 else 1
    {
      if notifyParent && p.Some? {
        Remove(p.value, n, false);
      }
      Link(n, p);
      if notifyParent && p.Some? {
        Add(p.value, n, false);
      }
    }

    /** The middle of `setParent`: `self.parent = p`, then `forceCalculateModelMatrix()`. */
    method Link(n: NodeId, p: Option<NodeId>)
      requires Inv() && n in nodes && (p.Some? ==> p.value in nodes)
      modifies this
      ensures Inv() && rank == old(rank)
      ensures State() == Relink(old(State()), rank, n, p)
    {
      nodes := nodes[n := nodes[n].(parent := p)];
      ForceCalculateModelMatrix(n);
    }

    /** Assigning `position`: its `didSet` observer recomputes the node. */
    method SetPosition(n: NodeId, v: Vec3)
      requires Inv() && n in nodes
      modifies this
      ensures Inv() && rank == old(rank)
      ensures State() == Recalc(old(State()).(nodes := old(nodes)[n := old(nodes)[n].(position := v)]), rank, n)
    {
      nodes := nodes[n := nodes[n].(position := v)];
      ForceCalculateModelMatrix(n);
    }

    /** Assigning `quaternionVect` */
    method SetQuaternion(n: NodeId, q: Vec4)
      requires Inv() && n in nodes
      modifies this
      ensures Inv() && rank == old(rank)
      ensures State() == Recalc(old(State()).(nodes := old(nodes)[n := old(nodes)[n].(quaternion := q)]), rank, n)
    {
      nodes := nodes[n := nodes[n].(quaternion := q)];
      ForceCalculateModelMatrix(n);
    }

    /** Assigning `scale` */
    method SetScale(n: NodeId, s: Vec3)
      requires Inv() && n in nodes
      modifies this
      ensures Inv() && rank == old(rank)
      ensures State() == Recalc(old(State()).(nodes := old(nodes)[n := old(nodes)[n].(scale := s)]), rank, n)
    {
      nodes := nodes[n := nodes[n].(scale := s)];
      ForceCalculateModelMatrix(n);
    }
  }
}
