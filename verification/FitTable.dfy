/**
  Fitting a table around the path tree (agent_wrap/domain/display/service.py, `fit_table`, with
  agent_wrap/lib/path_tree.py's `expand_widest_chain` for `shrink`).
  */
module FitTable {
  import opened Totals
  import opened PathTree
  import opened PathTreeExpand
  import opened PathTreeNode
  import opened PathTreeShrink
  import opened PathTreeShown
  import opened Table

  /** A body drawn from a tree, and the tables beside it. */
  type Draw = Tree -> seq<Item>

  ghost predicate Drawable(spec: Spec, body: Draw, others: seq<Sheet>)
  {
    forall t :: Group([Sheet(spec, body(t))] + others)
  }

  /** The objects read off as a value: what rendering sees. */
  function Read(node: Node, ghost g: Shape): (t: Tree)
    requires Holds(g, node)
    reads Nodes(g)
    ensures t == Val(g)
    decreases g, 0
  {
    Unfold(g);
    Tree(node.name, node.row, ReadAll(node.children, g.kids), node.totals)
  }

  function ReadAll(nodes: seq<Node>, ghost kids: seq<Shape>): (r: seq<Tree>)
    requires GoodAll(nodes, kids)
    reads NodesOf(kids)
    ensures r == ValsOf(kids)
    decreases kids, 1
  {
    if nodes == [] then []
    else
      UnfoldAll(nodes, kids);
      [Read(nodes[0], kids[0])] + ReadAll(nodes[1..], kids[1..])
  }

  /** How far the table drawn from `t` is over, widths shared with `others`. */
  ghost function OverBy(cells: Cells, spec: Spec, body: Draw, others: seq<Sheet>, limit: Option<int>, t: Tree): int
    requires Drawable(spec, body, others)
  {
    var group := [Sheet(spec, body(t))] + others;
    assert Group(group);
    assert group[0] == Sheet(spec, body(t));
    TableOverflow(cells, group[0], SharedWidths(cells, group), limit)
  }

  /** A body and the group's shared widths, as they come out for the tree `t`. */
  ghost predicate Drawn(cells: Cells, spec: Spec, build: Draw, others: seq<Sheet>, t: Tree,
                        body: seq<Item>, shared: seq<int>) {
    var group := [Sheet(spec, body)] + others;
    body == build(t) && Group(group) && shared == SharedWidths(cells, group)
  }

  lemma OverflowOfDrawn(cells: Cells, spec: Spec, build: Draw, others: seq<Sheet>, limit: Option<int>, t: Tree,
                        body: seq<Item>, shared: seq<int>)
    requires Drawable(spec, build, others) && Drawn(cells, spec, build, others, t, body, shared)
    ensures Fits(Sheet(spec, body)) && |shared| == Shared(Sheet(spec, body))
    ensures TableOverflow(cells, Sheet(spec, body), shared, limit) == OverBy(cells, spec, build, others, limit, t)
  {
    assert ([Sheet(spec, body)] + others)[0] == Sheet(spec, body);
  }

  method DrawTree(cells: Cells, spec: Spec, build: Draw, others: seq<Sheet>, root: Node, ghost g: Shape)
    returns (body: seq<Item>, shared: seq<int>)
    requires Holds(g, root) && Drawable(spec, build, others)
    ensures Holds(g, root) && Val(g) == old(Val(g))
    ensures Drawn(cells, spec, build, others, old(Val(g)), body, shared)
  {
    Allocated(g);
    body := build(Read(root, g));
    assert Group([Sheet(spec, body)] + others);
    shared := ComputeSharedWidths(cells, [Sheet(spec, body)] + others);
  }

  method Shrink(cells: Cells, root: Node, ghost g: Shape) returns (grown: bool, ghost g': Shape)
    requires Holds(g, root) && Settled(Val(g))
    modifies Nodes(g)
    ensures Holds(g', root) && fresh(Nodes(g') - Nodes(g)) && Settled(Val(g'))
    ensures (grown, Val(g')) == Expand(cells, old(Val(g)))
    ensures if grown then SlashesIn(Val(g')) < SlashesIn(old(Val(g))) else Val(g') == old(Val(g))
  {
    if Expand(cells, Val(g)).0 { AcceptanceKeepsRows(cells, Val(g)); }
    grown, g' := ExpandWidestChain(cells, root, g);
  }

  /** `n` expansions were accepted, none of them once the table fitted, and have led from `t` to `v`. */
  ghost predicate Reached(cells: Cells, spec: Spec, build: Draw, others: seq<Sheet>, limit: Option<int>,
                          t: Tree, n: nat, v: Tree)
    requires Settled(t) && Drawable(spec, build, others)
  {
    && Settled(v) && v == Expanded(cells, t, n) && n + SlashesIn(v) <= SlashesIn(t)
    && forall m: nat | m < n :: OverBy(cells, spec, build, others, limit, Expanded(cells, t, m)) > 0
  }

  lemma ReachedNext(cells: Cells, spec: Spec, build: Draw, others: seq<Sheet>, limit: Option<int>,
                    t: Tree, n: nat, v: Tree)
    requires Settled(t) && Drawable(spec, build, others) && Reached(cells, spec, build, others, limit, t, n, v)
    requires Expand(cells, v).0 && OverBy(cells, spec, build, others, limit, v) != 0
    ensures Reached(cells, spec, build, others, limit, t, n + 1, Expand(cells, v).1)
  {
    OneMore(cells, t, n);
    AcceptanceKeepsRows(cells, v);
  }

  /**
    The loop ends, with the body drawn from the tree as it then stands (a refused last expansion put
    back included): after the fewest expansions that make it fit, or after all there are.
    */
  method FitTable(cells: Cells, spec: Spec, build: Draw, others: seq<Sheet>, limit: Option<int>,
                  root: Node, ghost g: Shape)
    returns (body: seq<Item>, shared: seq<int>, ghost g': Shape, ghost n: nat)
    requires Holds(g, root) && Settled(Val(g)) && Drawable(spec, build, others)
    modifies Nodes(g)
    ensures Holds(g', root) && fresh(Nodes(g') - Nodes(g)) && Settled(Val(g'))
    ensures Reached(cells, spec, build, others, limit, old(Val(g)), n, Val(g'))
    ensures Drawn(cells, spec, build, others, Val(g'), body, shared)
    ensures OverBy(cells, spec, build, others, limit, Val(g')) == 0 || !Expand(cells, Val(g')).0
  {
    ghost var t := Val(g);
    g', n := g, 0;
    body, shared := DrawTree(cells, spec, build, others, root, g);
    while true
      invariant Holds(g', root) && fresh(Nodes(g') - Nodes(g)) && Settled(Val(g'))
      invariant Reached(cells, spec, build, others, limit, t, n, Val(g'))
      invariant Drawn(cells, spec, build, others, Val(g'), body, shared)
      decreases SlashesIn(Val(g'))
    {
      OverflowOfDrawn(cells, spec, build, others, limit, Val(g'), body, shared);
      if TableOverflow(cells, Sheet(spec, body), shared, limit) == 0 {
        break;
      }
      if Expand(cells, Val(g')).0 { ReachedNext(cells, spec, build, others, limit, t, n, Val(g')); }
      var grown;
      ghost var known := Nodes(g');
      label before:
      grown, g' := Shrink(cells, root, g');
      forall k | k in Nodes(g') && k !in known
        ensures fresh(k)
      {
        assert !old@before(allocated(k));
      }
      if !grown {
        break;
      }
      n := n + 1;
      body, shared := DrawTree(cells, spec, build, others, root, g');
    }
  }

  lemma {:induction false} OneMore(cells: Cells, t: Tree, n: nat)
    requires Settled(t)
    ensures Expanded(cells, t, n + 1) == Expand(cells, Expanded(cells, t, n)).1
    decreases n
  {
    ExpandKeeps(cells, t);
    if n > 0 { OneMore(cells, Expand(cells, t).1, n - 1); }
  }
}
