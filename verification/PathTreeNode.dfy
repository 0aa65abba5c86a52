/**
  The trie as the program holds it: mutable nodes changed in place (agent_wrap/lib/path_tree.py).
  Every method is tied to the value-level function of the same name; a Shape is the ghost record of
  which objects make up a tree, so that two trees, or two subtrees, cannot share a node unnoticed.
  */
module PathTreeNode {
  import opened Names
  import opened Totals
  import opened PathTree
  import opened PathTotals
  import opened PathTreeExpand

  class Node {
    var name: string
    var row: Option<ProjectRow>
    var children: seq<Node>
    var totals: Subtree

    constructor (name: string)
      ensures this.name == name && row == None && children == [] && totals == NOTHING
    {
      this.name := name;
      row := None;
      children := [];
      totals := NOTHING;
    }
  }

  datatype Shape = Shape(node: Node, kids: seq<Shape>)

  ghost function Nodes(g: Shape): set<Node> {
    {g.node} + NodesOf(g.kids)
  }

  ghost function NodesOf(kids: seq<Shape>): set<Node> {
    if kids == [] then {} else Nodes(kids[0]) + NodesOf(kids[1..])
  }

  /** The objects' child lists are what the shape says, and no object occurs twice. */
  ghost predicate Good(g: Shape)
    reads Nodes(g)
    decreases g
  {
    g.node !in NodesOf(g.kids) && GoodAll(g.node.children, g.kids)
  }

  ghost predicate GoodAll(nodes: seq<Node>, kids: seq<Shape>)
    reads NodesOf(kids)
    decreases kids
  {
    && |nodes| == |kids|
    && (kids == [] ||
        (nodes[0] == kids[0].node && Good(kids[0]) && Nodes(kids[0]) !! NodesOf(kids[1..])
         && GoodAll(nodes[1..], kids[1..])))
  }

  ghost function Val(g: Shape): Tree
    reads Nodes(g)
    decreases g
  {
    Tree(g.node.name, g.node.row, ValsOf(g.kids), g.node.totals)
  }

  ghost function ValsOf(kids: seq<Shape>): (r: seq<Tree>)
    reads NodesOf(kids)
    ensures |r| == |kids|
    decreases kids
  {
    if kids == [] then [] else [Val(kids[0])] + ValsOf(kids[1..])
  }

  ghost predicate Holds(g: Shape, node: Node)
    reads Nodes(g)
  {
    g.node == node && Good(g)
  }

  /** One level of a shape spelt out. */
  lemma Unfold(g: Shape)
    requires Good(g)
    ensures g.node !in NodesOf(g.kids) && GoodAll(g.node.children, g.kids) && |g.node.children| == |g.kids|
    ensures Nodes(g) == {g.node} + NodesOf(g.kids)
    ensures Val(g) == Tree(g.node.name, g.node.row, ValsOf(g.kids), g.node.totals)
  {
  }

  lemma UnfoldAll(nodes: seq<Node>, kids: seq<Shape>)
    requires GoodAll(nodes, kids) && kids != []
    ensures Holds(kids[0], nodes[0]) && GoodAll(nodes[1..], kids[1..])
    ensures Nodes(kids[0]) !! NodesOf(kids[1..]) && NodesOf(kids) == Nodes(kids[0]) + NodesOf(kids[1..])
    ensures ValsOf(kids) == [Val(kids[0])] + ValsOf(kids[1..])
  {
  }

  /** A shape is made of allocated objects, so a method that does not name them leaves them alone. */
  lemma {:induction false} Allocated(g: Shape)
    ensures forall n :: n in Nodes(g) ==> allocated(n)
    decreases g, 0
  {
    AllocatedOf(g.kids);
  }

  lemma {:induction false} AllocatedOf(kids: seq<Shape>)
    ensures forall n :: n in NodesOf(kids) ==> allocated(n)
    decreases kids, 1
  {
    if kids != [] {
      Allocated(kids[0]);
      AllocatedOf(kids[1..]);
    }
  }

  lemma {:induction false} AtIndex(nodes: seq<Node>, kids: seq<Shape>, i: nat)
    requires GoodAll(nodes, kids) && i < |kids|
    ensures Holds(kids[i], nodes[i]) && Nodes(kids[i]) <= NodesOf(kids)
    ensures ValsOf(kids)[i] == Val(kids[i]) && ValsOf(kids)[i].name == nodes[i].name
    ensures forall j :: 0 <= j < |kids| && j != i ==> Nodes(kids[j]) !! Nodes(kids[i])
    decreases kids
  {
    if i > 0 {
      AtIndex(nodes[1..], kids[1..], i - 1);
      forall j | 0 <= j < |kids| && j != i
        ensures Nodes(kids[j]) !! Nodes(kids[i])
      {
        if j > 0 { assert kids[j] == kids[1..][j - 1]; }
      }
    } else {
      forall j | 0 < j < |kids|
        ensures Nodes(kids[j]) !! Nodes(kids[0])
      {
        NodesIn(kids[1..], j - 1);
      }
    }
  }

  lemma {:induction false} NodesIn(kids: seq<Shape>, i: nat)
    requires i < |kids|
    ensures Nodes(kids[i]) <= NodesOf(kids)
  {
    if i > 0 { NodesIn(kids[1..], i - 1); }
  }

  lemma {:induction false} AppendGood(nodes: seq<Node>, kids: seq<Shape>, k: Node, h: Shape)
    requires GoodAll(nodes, kids) && Holds(h, k) && Nodes(h) !! NodesOf(kids)
    ensures GoodAll(nodes + [k], kids + [h])
    ensures NodesOf(kids + [h]) == NodesOf(kids) + Nodes(h)
    ensures ValsOf(kids + [h]) == ValsOf(kids) + [Val(h)]
    decreases kids
  {
    if kids == [] {
      assert nodes + [k] == [k] && kids + [h] == [h] && [h][1..] == [] && [k][1..] == [];
    } else {
      AppendGood(nodes[1..], kids[1..], k, h);
      assert (nodes + [k])[1..] == nodes[1..] + [k] && (kids + [h])[1..] == kids[1..] + [h];
    }
  }

  lemma {:induction false} ReplaceGood(nodes: seq<Node>, kids: seq<Shape>, i: nat, k: Node, h: Shape)
    requires GoodAll(nodes, kids) && Holds(h, k) && Nodes(h) !! NodesOf(kids) && i < |kids|
    ensures GoodAll(nodes[i := k], kids[i := h])
    ensures NodesOf(kids[i := h]) <= NodesOf(kids) + Nodes(h)
    ensures ValsOf(kids[i := h]) == ValsOf(kids)[i := Val(h)]
    decreases kids
  {
    if i == 0 {
      assert nodes[0 := k][1..] == nodes[1..] && kids[0 := h][1..] == kids[1..];
    } else {
      ReplaceGood(nodes[1..], kids[1..], i - 1, k, h);
      assert nodes[i := k][1..] == nodes[1..][i - 1 := k] && kids[i := h][1..] == kids[1..][i - 1 := h];
    }
  }

  // ---- the children dictionary --------------------------------------------------------------------

  /** Dictionary item assignment under the node's own name. */
  method PutNode(nodes: seq<Node>, ghost kids: seq<Shape>, k: Node, ghost h: Shape)
    returns (r: seq<Node>, ghost kids': seq<Shape>)
    requires GoodAll(nodes, kids) && Holds(h, k) && Nodes(h) !! NodesOf(kids)
    ensures GoodAll(r, kids') && NodesOf(kids') <= NodesOf(kids) + Nodes(h)
    ensures ValsOf(kids') == Put(old(ValsOf(kids)), old(Val(h)))
  {
    var i := 0;
    ghost var vals, val := ValsOf(kids), Val(h);
    while i < |nodes| && nodes[i].name != k.name
      invariant 0 <= i <= |nodes|
      invariant forall j :: 0 <= j < i ==> vals[j].name != k.name
      invariant GoodAll(nodes, kids) && Holds(h, k) && ValsOf(kids) == vals && Val(h) == val
    {
      AtIndex(nodes, kids, i);
      i := i + 1;
    }
    if i < |nodes| {
      AtIndex(nodes, kids, i);
      r, kids' := nodes[i := k], kids[i := h];
      ReplaceGood(nodes, kids, i, k, h);
      PutAt(vals, Val(h), i);
    } else {
      r, kids' := nodes + [k], kids + [h];
      AppendGood(nodes, kids, k, h);
      PutNew(vals, Val(h));
    }
  }

  lemma {:induction false} PutAt(kids: seq<Tree>, k: Tree, i: nat)
    requires i < |kids| && kids[i].name == k.name && forall j :: 0 <= j < i ==> kids[j].name != k.name
    ensures Put(kids, k) == kids[i := k]
  {
    if i > 0 {
      assert kids[0].name != k.name;
      PutAt(kids[1..], k, i - 1);
    }
  }

  // ---- compressing --------------------------------------------------------------------------------

  /** The inner loop: a structural node with one child gives way to it, name joined. */
  method FoldInto(node: Node, ghost g: Shape) returns (child: Node, ghost h: Shape)
    requires Holds(g, node)
    modifies Nodes(g)
    ensures Holds(h, child) && Nodes(h) <= Nodes(g)
    ensures Val(h) == FoldChain(old(Val(g)), old(node.name))
  {
    child, h := node, g;
    Unfold(h);
    while child.row.None? && |child.children| == 1
      invariant Holds(h, child) && Nodes(h) <= Nodes(g)
      invariant FoldChain(Val(h), child.name) == FoldChain(old(Val(g)), old(node.name))
      decreases h
    {
      Unfold(h);
      UnfoldAll(child.children, h.kids);
      var gc := child.children[0];
      ghost var k := h.kids[0];
      Unfold(k);
      ghost var below := ValsOf(k.kids);
      gc.name := child.name + "/" + gc.name;
      assert GoodAll(gc.children, k.kids) && ValsOf(k.kids) == below;
      child, h := gc, k;
    }
    Unfold(h);
  }

  /** The children from `i` on are as they were when the loop started. */
  ghost predicate Left(nodes: seq<Node>, kids: seq<Shape>, vals: seq<Tree>, i: nat)
    requires i <= |nodes| == |kids| == |vals|
    reads NodesOf(kids[i..])
  {
    GoodAll(nodes[i..], kids[i..]) && ValsOf(kids[i..]) == vals[i..]
  }

  lemma LeftNext(nodes: seq<Node>, kids: seq<Shape>, vals: seq<Tree>, i: nat)
    requires i < |nodes| == |kids| == |vals| && Left(nodes, kids, vals, i)
    ensures Left(nodes, kids, vals, i + 1)
    ensures Holds(kids[i], nodes[i]) && Val(kids[i]) == vals[i]
    ensures Nodes(kids[i]) !! NodesOf(kids[i + 1..])
    ensures NodesOf(kids[i..]) == Nodes(kids[i]) + NodesOf(kids[i + 1..])
  {
    assert nodes[i..][1..] == nodes[i + 1..] && vals[i..][1..] == vals[i + 1..] && kids[i..][1..] == kids[i + 1..];
    UnfoldAll(nodes[i..], kids[i..]);
  }

  lemma LeftStart(nodes: seq<Node>, kids: seq<Shape>)
    requires GoodAll(nodes, kids)
    ensures |nodes| == |kids| && Left(nodes, kids, ValsOf(kids), 0)
    ensures NodesOf(kids[0..]) == NodesOf(kids)
  {
    assert nodes[0..] == nodes && kids[0..] == kids && ValsOf(kids)[0..] == ValsOf(kids);
  }

  method CompressAndFold(node: Node, ghost g: Shape) returns (child: Node, ghost h: Shape)
    requires Holds(g, node)
    modifies Nodes(g)
    ensures Holds(h, child) && Nodes(h) <= Nodes(g)
    ensures var k := Compress(old(Val(g))); Val(h) == FoldChain(k, k.name)
    decreases g, 1
  {
    h := CompressNode(node, g);
    Unfold(h);
    child, h := FoldInto(node, h);
  }

  /** One child compressed, folded as far as it goes, and filed; its later siblings do not notice. */
  method CompressChild(nodes: seq<Node>, ghost kids: seq<Shape>, ghost was: seq<Tree>, i: nat,
                       done: seq<Node>, ghost doneKids: seq<Shape>)
    returns (done': seq<Node>, ghost doneKids': seq<Shape>)
    requires i < |nodes| == |kids| == |was| && Left(nodes, kids, was, i)
    requires GoodAll(done, doneKids) && NodesOf(kids[i..]) !! NodesOf(doneKids)
    modifies Nodes(kids[i])
    ensures Left(nodes, kids, was, i + 1)
    ensures GoodAll(done', doneKids') && NodesOf(doneKids') <= NodesOf(doneKids) + Nodes(kids[i])
    ensures var k := Compress(was[i]); ValsOf(doneKids') == Put(old(ValsOf(doneKids)), FoldChain(k, k.name))
    decreases kids[i], 2
  {
    LeftNext(nodes, kids, was, i);
    AllocatedOf(kids[i + 1..]);
    AllocatedOf(doneKids);
    ghost var filed := ValsOf(doneKids);
    var child;
    ghost var h;
    child, h := CompressAndFold(nodes[i], kids[i]);
    ghost var k := Compress(was[i]);
    assert ValsOf(doneKids) == filed && Val(h) == FoldChain(k, k.name);
    done', doneKids' := PutNode(done, doneKids, child, h);
  }

  method CompressNode(node: Node, ghost g: Shape) returns (ghost g': Shape)
    requires Holds(g, node)
    modifies Nodes(g)
    ensures Holds(g', node) && Nodes(g') <= Nodes(g)
    ensures Val(g') == Compress(old(Val(g)))
    decreases g, 0
  {
    var kids := node.children;
    var newChildren: seq<Node> := [];
    ghost var newKids: seq<Shape> := [];
    ghost var was := ValsOf(g.kids);
    Unfold(g);
    LeftStart(kids, g.kids);
    assert CompressEach(was)[..0] == [];
    for i := 0 to |kids|
      invariant unchanged(node)
      invariant Left(kids, g.kids, was, i)
      invariant GoodAll(newChildren, newKids) && NodesOf(g.kids[i..]) !! NodesOf(newKids)
      invariant NodesOf(newKids) <= NodesOf(g.kids) && NodesOf(g.kids[i..]) <= NodesOf(g.kids)
      invariant ValsOf(newKids) == FromItems(CompressEach(was)[..i])
    {
      LeftNext(kids, g.kids, was, i);
      CompressEachAt(was, i);
      newChildren, newKids := CompressChild(kids, g.kids, was, i, newChildren, newKids);
    }
    assert CompressEach(was)[..|kids|] == CompressEach(was);
    node.children := newChildren;
    g' := Shape(node, newKids);
  }

  lemma {:induction false} CompressEachAt(kids: seq<Tree>, i: nat)
    requires i < |kids|
    ensures var k := Compress(kids[i]); CompressEach(kids)[i] == FoldChain(k, k.name)
    ensures FromItems(CompressEach(kids)[..i + 1]) == Put(FromItems(CompressEach(kids)[..i]), CompressEach(kids)[i])
  {
    assert CompressEach(kids)[..i + 1][..i] == CompressEach(kids)[..i];
    if i > 0 {
      CompressEachAt(kids[1..], i - 1);
    }
  }

  /** A dictionary display: the items assigned in turn to an empty one. */
  method FromItemsNodes(nodes: seq<Node>, ghost kids: seq<Shape>) returns (r: seq<Node>, ghost kids': seq<Shape>)
    requires GoodAll(nodes, kids)
    ensures GoodAll(r, kids') && NodesOf(kids') <= NodesOf(kids)
    ensures ValsOf(kids') == FromItems(old(ValsOf(kids)))
  {
    r, kids' := [], [];
    ghost var was := ValsOf(kids);
    LeftStart(nodes, kids);
    for i := 0 to |nodes|
      invariant |kids| == |nodes| && Left(nodes, kids, was, i) && GoodAll(r, kids')
      invariant NodesOf(kids[i..]) !! NodesOf(kids') && NodesOf(kids') + NodesOf(kids[i..]) <= NodesOf(kids)
      invariant ValsOf(kids') == FromItems(was[..i])
    {
      LeftNext(nodes, kids, was, i);
      FromItemsNext(was, i);
      AllocatedOf(kids[i + 1..]);
      r, kids' := PutNode(r, kids', nodes[i], kids[i]);
    }
    assert was[..|nodes|] == was;
  }

  lemma FromItemsNext(items: seq<Tree>, i: nat)
    requires i < |items|
    ensures FromItems(items[..i + 1]) == Put(FromItems(items[..i]), items[i])
  {
    assert items[..i + 1][..i] == items[..i];
  }

  // ---- splitting self-rows off --------------------------------------------------------------------

  method SplitChild(nodes: seq<Node>, ghost kids: seq<Shape>, ghost was: seq<Tree>, i: nat, ghost done: seq<Shape>)
    returns (ghost done': seq<Shape>)
    requires i < |nodes| == |kids| == |was| && Left(nodes, kids, was, i)
    requires GoodAll(nodes[..i], done) && NodesOf(kids[i..]) !! NodesOf(done)
    modifies Nodes(kids[i])
    ensures Left(nodes, kids, was, i + 1)
    ensures GoodAll(nodes[..i + 1], done') && NodesOf(kids[i + 1..]) !! NodesOf(done')
    ensures fresh(NodesOf(done') - (NodesOf(done) + Nodes(kids[i])))
    ensures ValsOf(done') == old(ValsOf(done)) + [SplitSelfRows(was[i])]
    decreases kids[i], 1
  {
    LeftNext(nodes, kids, was, i);
    AllocatedOf(kids[i + 1..]);
    AllocatedOf(done);
    ghost var filed := ValsOf(done);
    ghost var h := SplitSelfRowsNode(nodes[i], kids[i]);
    assert ValsOf(done) == filed && Val(h) == SplitSelfRows(was[i]);
    done' := done + [h];
    AppendGood(nodes[..i], done, nodes[i], h);
    assert nodes[..i + 1] == nodes[..i] + [nodes[i]];
  }

  method SplitKids(nodes: seq<Node>, ghost kids: seq<Shape>) returns (ghost kids': seq<Shape>)
    requires GoodAll(nodes, kids)
    modifies NodesOf(kids)
    ensures GoodAll(nodes, kids') && fresh(NodesOf(kids') - NodesOf(kids))
    ensures ValsOf(kids') == SplitEach(old(ValsOf(kids)))
    decreases kids, 2
  {
    kids' := [];
    ghost var was := ValsOf(kids);
    LeftStart(nodes, kids);
    for i := 0 to |nodes|
      invariant |kids| == |nodes| && Left(nodes, kids, was, i)
      invariant GoodAll(nodes[..i], kids') && NodesOf(kids[i..]) !! NodesOf(kids')
      invariant fresh(NodesOf(kids') - NodesOf(kids)) && NodesOf(kids[i..]) <= NodesOf(kids)
      invariant ValsOf(kids') == SplitEach(was)[..i]
    {
      LeftNext(nodes, kids, was, i);
      SplitEachAt(was, i);
      ghost var known := NodesOf(kids') + Nodes(kids[i]);
      label before:
      kids' := SplitChild(nodes, kids, was, i, kids');
      forall n | n in NodesOf(kids') && n !in known
        ensures fresh(n)
      {
        assert !old@before(allocated(n));
      }
    }
    assert SplitEach(was)[..|nodes|] == SplitEach(was) && nodes[..|nodes|] == nodes;
  }

  method SplitSelfRowsNode(node: Node, ghost g: Shape) returns (ghost g': Shape)
    requires Holds(g, node)
    modifies Nodes(g)
    ensures Holds(g', node) && fresh(Nodes(g') - Nodes(g))
    ensures Val(g') == SplitSelfRows(old(Val(g)))
    decreases g, 0
  {
    Unfold(g);
    ghost var newKids := SplitKids(node.children, g.kids);
    g' := Shape(node, newKids);
    if node.row.Some? && node.children != [] {
      ghost var known := Nodes(g');
      label before:
      g' := AddSelfRow(node, g');
      forall n | n in Nodes(g') && n !in known
        ensures fresh(n)
      {
        assert !old@before(allocated(n));
      }
    }
  }

  method NewSelfRow(row: ProjectRow) returns (dot: Node, ghost leaf: Shape)
    ensures fresh(dot) && leaf == Shape(dot, []) && Holds(leaf, dot) && Nodes(leaf) == {dot}
    ensures Val(leaf) == SelfRow(row)
  {
    dot := new Node(SELF_ROW_NAME);
    dot.row := Some(row);
    leaf := Shape(dot, []);
    assert leaf.kids == [] && ValsOf(leaf.kids) == [];
    assert Holds(leaf, dot);
    Unfold(leaf);
  }

  /** The row moves to a new "." child, put first. */
  method AddSelfRow(node: Node, ghost g: Shape) returns (ghost g': Shape)
    requires Holds(g, node) && node.row.Some?
    modifies node
    ensures Holds(g', node) && fresh(Nodes(g') - Nodes(g))
    ensures Val(g') == old(Val(g)).(row := None,
                         children := FromItems([SelfRow(old(node.row.value))] + old(Val(g)).children))
  {
    Unfold(g);
    AllocatedOf(g.kids);
    var newChildren;
    ghost var newKids;
    newChildren, newKids := SelfRowFirst(node.children, g.kids, node.row.value);
    ghost var newVals := ValsOf(newKids);
    node.row, node.children := None, newChildren;
    assert GoodAll(newChildren, newKids) && ValsOf(newKids) == newVals;
    g' := Shape(node, newKids);
  }

  /** The children with a new "." in front of them. */
  method SelfRowFirst(nodes: seq<Node>, ghost kids: seq<Shape>, row: ProjectRow)
    returns (newNodes: seq<Node>, ghost newKids: seq<Shape>)
    requires GoodAll(nodes, kids)
    ensures GoodAll(newNodes, newKids) && fresh(NodesOf(newKids) - NodesOf(kids))
    ensures ValsOf(newKids) == FromItems([SelfRow(row)] + old(ValsOf(kids)))
  {
    AllocatedOf(kids);
    ghost var vals := ValsOf(kids);
    var dot;
    ghost var leaf;
    dot, leaf := NewSelfRow(row);
    assert GoodAll(nodes, kids) && ValsOf(kids) == vals;
    Prepend(nodes, kids, dot, leaf);
    newNodes, newKids := FromItemsNodes([dot] + nodes, [leaf] + kids);
  }

  lemma Prepend(nodes: seq<Node>, kids: seq<Shape>, k: Node, h: Shape)
    requires GoodAll(nodes, kids) && Holds(h, k) && Nodes(h) !! NodesOf(kids)
    ensures GoodAll([k] + nodes, [h] + kids) && NodesOf([h] + kids) == Nodes(h) + NodesOf(kids)
    ensures ValsOf([h] + kids) == [Val(h)] + ValsOf(kids)
  {
    assert ([k] + nodes)[1..] == nodes && ([h] + kids)[1..] == kids;
  }

  lemma {:induction false} SplitEachAt(kids: seq<Tree>, i: nat)
    requires i < |kids|
    ensures SplitEach(kids)[..i + 1] == SplitEach(kids)[..i] + [SplitSelfRows(kids[i])]
  {
    if i > 0 {
      SplitEachAt(kids[1..], i - 1);
      assert SplitEach(kids)[i] == SplitEach(kids[1..])[i - 1];
    }
  }

  // ---- totals -------------------------------------------------------------------------------------

  /** The children before `i` hold `vals` now, and share nothing with the rest. */
  ghost predicate Finished(nodes: seq<Node>, kids: seq<Shape>, vals: seq<Tree>, i: nat)
    requires i <= |nodes| == |kids|
    reads NodesOf(kids[..i])
  {
    GoodAll(nodes[..i], kids[..i]) && ValsOf(kids[..i]) == vals && NodesOf(kids[..i]) !! NodesOf(kids[i..])
  }

  lemma FinishedNext(nodes: seq<Node>, kids: seq<Shape>, vals: seq<Tree>, i: nat)
    requires i < |nodes| == |kids| && GoodAll(nodes[..i], kids[..i]) && ValsOf(kids[..i]) == vals
    requires Holds(kids[i], nodes[i]) && Nodes(kids[i]) !! NodesOf(kids[..i])
    requires NodesOf(kids[..i]) + Nodes(kids[i]) !! NodesOf(kids[i + 1..])
    ensures Finished(nodes, kids, vals + [Val(kids[i])], i + 1)
    ensures NodesOf(kids[..i + 1]) == NodesOf(kids[..i]) + Nodes(kids[i])
  {
    AppendGood(nodes[..i], kids[..i], nodes[i], kids[i]);
    assert nodes[..i + 1] == nodes[..i] + [nodes[i]] && kids[..i + 1] == kids[..i] + [kids[i]];
  }

  method CountChild(nodes: seq<Node>, ghost kids: seq<Shape>, ghost was: seq<Tree>, i: nat, ghost vals: seq<Tree>)
    requires i < |nodes| == |kids| == |was| && Left(nodes, kids, was, i) && Finished(nodes, kids, vals, i)
    modifies Nodes(kids[i])
    ensures Left(nodes, kids, was, i + 1) && Finished(nodes, kids, vals + [CountRows(was[i])], i + 1)
    ensures nodes[i].totals == CountRows(was[i]).totals
    decreases kids[i], 1
  {
    LeftNext(nodes, kids, was, i);
    AllocatedOf(kids[i + 1..]);
    AllocatedOf(kids[..i]);
    CountRowsNode(nodes[i], kids[i]);
    Unfold(kids[i]);
    FinishedNext(nodes, kids, vals, i);
  }

  method CountRowsNode(node: Node, ghost g: Shape)
    requires Holds(g, node)
    modifies Nodes(g)
    ensures Holds(g, node) && Val(g) == CountRows(old(Val(g)))
    decreases g, 0
  {
    Unfold(g);
    AllocatedOf(g.kids);
    ghost var was := ValsOf(g.kids);
    node.totals := node.totals.(rowCount := if node.row.Some? then 1 else 0);
    assert GoodAll(node.children, g.kids) && ValsOf(g.kids) == was;
    CountKids(node, g.kids);
  }

  /** The loop over the children: each is counted, and its count added to the node's. */
  method CountKids(node: Node, ghost kids: seq<Shape>)
    requires GoodAll(node.children, kids) && node !in NodesOf(kids)
    modifies node`totals, NodesOf(kids)
    ensures GoodAll(node.children, kids) && ValsOf(kids) == CountEach(old(ValsOf(kids)))
    ensures node.totals == old(node.totals).(rowCount :=
              old(node.totals.rowCount) + SumCounts(CountEach(old(ValsOf(kids)))))
    decreases kids, 2
  {
    var nodes := node.children;
    ghost var was, start := ValsOf(kids), node.totals;
    LeftStart(nodes, kids);
    StartCount(nodes, kids, was);
    for i := 0 to |nodes|
      invariant |nodes| == |kids| && Left(nodes, kids, was, i) && Finished(nodes, kids, CountEach(was)[..i], i)
      invariant NodesOf(kids[..i]) + NodesOf(kids[i..]) == NodesOf(kids)
      invariant node.totals == start.(rowCount := start.rowCount + SumCounts(CountEach(was)[..i]))
    {
      CountNext(node, nodes, kids, was, i);
    }
    assert kids[..|kids|] == kids && nodes[..|kids|] == nodes;
    assert CountEach(was)[..|kids|] == CountEach(was);
  }

  /** One more child counted, and its count added to the node's. */
  method CountNext(node: Node, nodes: seq<Node>, ghost kids: seq<Shape>, ghost was: seq<Tree>, i: nat)
    requires i < |nodes| == |kids| == |was| && Left(nodes, kids, was, i) && node !in NodesOf(kids)
    requires Finished(nodes, kids, CountEach(was)[..i], i)
    requires NodesOf(kids[..i]) + NodesOf(kids[i..]) == NodesOf(kids)
    modifies node`totals, Nodes(kids[i])
    ensures Left(nodes, kids, was, i + 1) && Finished(nodes, kids, CountEach(was)[..i + 1], i + 1)
    ensures NodesOf(kids[..i + 1]) + NodesOf(kids[i + 1..]) == NodesOf(kids)
    ensures node.totals == old(node.totals).(rowCount := old(node.totals.rowCount) + CountRows(was[i]).totals.rowCount)
    ensures SumCounts(CountEach(was)[..i + 1]) == SumCounts(CountEach(was)[..i]) + CountRows(was[i]).totals.rowCount
    decreases kids[i], 2
  {
    LeftNext(nodes, kids, was, i);
    CountEachAt(was, i);
    FinishedNodes(kids, i);
    CountChild(nodes, kids, was, i, CountEach(was)[..i]);
    node.totals := node.totals.(rowCount := node.totals.rowCount + nodes[i].totals.rowCount);
  }

  lemma StartCount(nodes: seq<Node>, kids: seq<Shape>, was: seq<Tree>)
    requires |nodes| == |kids| == |was|
    ensures Finished(nodes, kids, [], 0) && CountEach(was)[..0] == []
    ensures NodesOf(kids[..0]) + NodesOf(kids[0..]) == NodesOf(kids)
  {
    assert kids[..0] == [] && nodes[..0] == [] && kids[0..] == kids;
  }

  lemma FinishedNodes(kids: seq<Shape>, i: nat)
    requires i < |kids|
    ensures NodesOf(kids[..i + 1]) == NodesOf(kids[..i]) + Nodes(kids[i])
    ensures NodesOf(kids[i..]) == Nodes(kids[i]) + NodesOf(kids[i + 1..])
  {
    assert kids[..i + 1] == kids[..i] + [kids[i]] && kids[i..][1..] == kids[i + 1..];
    NodesOfAppend(kids[..i], kids[i]);
  }

  lemma {:induction false} NodesOfAppend(kids: seq<Shape>, h: Shape)
    ensures NodesOf(kids + [h]) == NodesOf(kids) + Nodes(h)
    decreases kids
  {
    if kids == [] {
      assert kids + [h] == [h] && [h][1..] == [];
    } else {
      NodesOfAppend(kids[1..], h);
      assert (kids + [h])[1..] == kids[1..] + [h];
    }
  }

  lemma {:induction false} CountEachAt(kids: seq<Tree>, i: nat)
    requires i < |kids|
    ensures CountEach(kids)[..i + 1] == CountEach(kids)[..i] + [CountRows(kids[i])]
    ensures SumCounts(CountEach(kids)[..i + 1]) == SumCounts(CountEach(kids)[..i]) + CountRows(kids[i]).totals.rowCount
  {
    if i > 0 {
      CountEachAt(kids[1..], i - 1);
      assert CountEach(kids)[1..] == CountEach(kids[1..]);
      assert CountEach(kids)[..i + 1][1..] == CountEach(kids[1..])[..i];
      assert CountEach(kids)[..i][1..] == CountEach(kids[1..])[..i - 1];
    } else {
      assert CountEach(kids)[..1] == [CountRows(kids[0])];
    }
  }

  /** One child aggregated, then added to whatever the node already holds. */
  method AggregateChild(node: Node, nodes: seq<Node>, ghost kids: seq<Shape>, ghost was: seq<Tree>, i: nat,
                        ghost vals: seq<Tree>)
    returns (bucket: Bucket)
    requires i < |nodes| == |kids| == |was| && Left(nodes, kids, was, i) && Finished(nodes, kids, vals, i)
    requires node !in NodesOf(kids[i..]) && node !in NodesOf(kids[..i])
    modifies node`totals, Nodes(kids[i])
    ensures Left(nodes, kids, was, i + 1) && Finished(nodes, kids, vals + [Aggregate(was[i])], i + 1)
    ensures node.totals == Absorb(old(node.totals), Aggregate(was[i]).totals)
    ensures bucket == Aggregate(was[i]).totals.bucket
    decreases kids[i], 1
  {
    LeftNext(nodes, kids, was, i);
    AllocatedOf(kids[i + 1..]);
    AllocatedOf(kids[..i]);
    AggregateNode(nodes[i], kids[i]);
    Unfold(kids[i]);
    FinishedNext(nodes, kids, vals, i);
    bucket := nodes[i].totals.bucket;
    node.totals := Absorb(node.totals, nodes[i].totals);
  }

  method AggregateKids(node: Node, ghost kids: seq<Shape>) returns (contributions: seq<Bucket>)
    requires GoodAll(node.children, kids) && node !in NodesOf(kids)
    modifies node`totals, NodesOf(kids)
    ensures GoodAll(node.children, kids) && ValsOf(kids) == AggregateEach(old(ValsOf(kids)))
    ensures var xs := TotalsOf(AggregateEach(old(ValsOf(kids))));
            node.totals == AbsorbAll(old(node.totals), xs) && contributions == BucketsOf(xs)
    decreases kids, 2
  {
    var nodes := node.children;
    ghost var was, start := ValsOf(kids), node.totals;
    ghost var xs := TotalsOf(AggregateEach(was));
    contributions := [];
    LeftStart(nodes, kids);
    StartAggregate(nodes, kids, was);
    for i := 0 to |nodes|
      invariant |nodes| == |kids| && Left(nodes, kids, was, i) && Finished(nodes, kids, AggregateEach(was)[..i], i)
      invariant NodesOf(kids[..i]) + NodesOf(kids[i..]) == NodesOf(kids)
      invariant node.totals == AbsorbAll(start, xs[..i]) && contributions == BucketsOf(xs[..i])
    {
      AggregateEachAt(was, start, i);
      FinishedNodes(kids, i);
      var bucket := AggregateChild(node, nodes, kids, was, i, AggregateEach(was)[..i]);
      contributions := contributions + [bucket];
    }
    assert kids[..|kids|] == kids && nodes[..|kids|] == nodes;
    assert AggregateEach(was)[..|kids|] == AggregateEach(was) && xs[..|kids|] == xs;
  }

  lemma StartAggregate(nodes: seq<Node>, kids: seq<Shape>, was: seq<Tree>)
    requires |nodes| == |kids| == |was|
    ensures Finished(nodes, kids, AggregateEach(was)[..0], 0)
    ensures NodesOf(kids[..0]) + NodesOf(kids[0..]) == NodesOf(kids)
    ensures TotalsOf(AggregateEach(was))[..0] == []
  {
    StartCount(nodes, kids, was);
    assert AggregateEach(was)[..0] == [];
  }

  method AggregateNode(node: Node, ghost g: Shape)
    requires Holds(g, node)
    modifies Nodes(g)
    ensures Holds(g, node) && Val(g) == Aggregate(old(Val(g)))
    decreases g, 0
  {
    Unfold(g);
    ghost var t := Val(g);
    var contributions := AggregateKids(node, g.kids);
    ghost var vals, below := ValsOf(g.kids), node.totals;
    node.totals := WithOwnRow(node.totals, contributions, node.row);
    assert GoodAll(node.children, g.kids) && ValsOf(g.kids) == vals;
    Unfold(g);
    assert Val(g) == t.(children := vals, totals := WithOwnRow(below, contributions, t.row));
  }

  lemma AggregateEachAt(kids: seq<Tree>, start: Subtree, i: nat)
    requires i < |kids|
    ensures AggregateEach(kids)[..i + 1] == AggregateEach(kids)[..i] + [Aggregate(kids[i])]
    ensures var xs := TotalsOf(AggregateEach(kids));
            && AbsorbAll(start, xs[..i + 1]) == Absorb(AbsorbAll(start, xs[..i]), Aggregate(kids[i]).totals)
            && BucketsOf(xs[..i + 1]) == BucketsOf(xs[..i]) + [Aggregate(kids[i]).totals.bucket]
  {
    AggregateEachIs(kids, i);
    TakeOneMore(AggregateEach(kids), i);
    AbsorbNext(start, TotalsOf(AggregateEach(kids)), i);
  }

  lemma TakeOneMore<T>(s: seq<T>, i: nat)
    requires i < |s|
    ensures s[..i + 1] == s[..i] + [s[i]]
  {
  }

  lemma AbsorbNext(start: Subtree, xs: seq<Subtree>, i: nat)
    requires i < |xs|
    ensures AbsorbAll(start, xs[..i + 1]) == Absorb(AbsorbAll(start, xs[..i]), xs[i])
    ensures BucketsOf(xs[..i + 1]) == BucketsOf(xs[..i]) + [xs[i].bucket]
  {
    assert xs[..i + 1] == xs[..i] + [xs[i]];
    AbsorbAppend(start, xs[..i], [xs[i]]);
    BucketsAppend(xs[..i], xs[i]);
  }

  lemma {:induction false} AggregateEachIs(kids: seq<Tree>, i: nat)
    requires i < |kids|
    ensures AggregateEach(kids)[i] == Aggregate(kids[i])
  {
    if i > 0 { AggregateEachIs(kids[1..], i - 1); }
  }

  lemma {:induction false} BucketsAppend(xs: seq<Subtree>, x: Subtree)
    ensures BucketsOf(xs + [x]) == BucketsOf(xs) + [x.bucket]
  {
    if xs == [] {
      assert [x][1..] == [] && xs + [x] == [x];
    } else {
      assert (xs + [x])[1..] == xs[1..] + [x];
      BucketsAppend(xs[1..], x);
    }
  }

  // ---- one node deep inside a tree ----------------------------------------------------------------

  predicate WithinShape(g: Shape, p: Position)
    decreases |p|
  {
    p == [] || (p[0] < |g.kids| && WithinShape(g.kids[p[0]], p[1..]))
  }

  function ShapeAt(g: Shape, p: Position): Shape
    requires WithinShape(g, p)
    decreases |p|
  {
    if p == [] then g else ShapeAt(g.kids[p[0]], p[1..])
  }

  function Plugged(g: Shape, p: Position, h: Shape): Shape
    requires WithinShape(g, p)
    decreases |p|
  {
    if p == [] then h
    else g.(kids := g.kids[p[0] := Plugged(g.kids[p[0]], p[1..], h)])
  }

  /** The objects of `g` outside the subtree at `p`. */
  ghost function Around(g: Shape, p: Position): set<Node>
    requires WithinShape(g, p)
    decreases |p|
  {
    if p == [] then {}
    else {g.node} + NodesOf(g.kids[..p[0]]) + NodesOf(g.kids[p[0] + 1..]) + Around(g.kids[p[0]], p[1..])
  }

  /** Everything outside the subtree at `p` is as it should be. */
  ghost predicate Context(g: Shape, p: Position)
    requires WithinShape(g, p)
    reads Around(g, p)
    decreases |p|
  {
    p == [] ||
    (var i, k := p[0], g.kids[p[0]];
     var left, right := NodesOf(g.kids[..i]), NodesOf(g.kids[i + 1..]);
     && |g.node.children| == |g.kids| && g.node.children[i] == k.node
     && GoodAll(g.node.children[..i], g.kids[..i]) && GoodAll(g.node.children[i + 1..], g.kids[i + 1..])
     && left !! right && g.node !in left + right
     && Around(k, p[1..]) !! ({g.node} + left + right)
     && Context(k, p[1..]))
  }

  /** The tree with `hole` where the subtree at `p` is. */
  ghost function Filled(g: Shape, p: Position, hole: Tree): Tree
    requires WithinShape(g, p)
    reads Around(g, p)
    decreases |p|
  {
    if p == [] then hole
    else Tree(g.node.name, g.node.row,
              ValsOf(g.kids[..p[0]]) + [Filled(g.kids[p[0]], p[1..], hole)] + ValsOf(g.kids[p[0] + 1..]),
              g.node.totals)
  }

  lemma Cons(n: Node, h: Shape, nodes: seq<Node>, kids: seq<Shape>)
    ensures GoodAll([n] + nodes, [h] + kids)
            <==> Holds(h, n) && Nodes(h) !! NodesOf(kids) && GoodAll(nodes, kids)
    ensures NodesOf([h] + kids) == Nodes(h) + NodesOf(kids)
    ensures ValsOf([h] + kids) == [Val(h)] + ValsOf(kids)
  {
    assert ([n] + nodes)[1..] == nodes && ([h] + kids)[1..] == kids;
  }

  lemma {:induction false} Concat(na: seq<Node>, ka: seq<Shape>, nb: seq<Node>, kb: seq<Shape>)
    requires |na| == |ka|
    ensures GoodAll(na + nb, ka + kb)
            <==> GoodAll(na, ka) && GoodAll(nb, kb) && NodesOf(ka) !! NodesOf(kb)
    ensures NodesOf(ka + kb) == NodesOf(ka) + NodesOf(kb)
    ensures ValsOf(ka + kb) == ValsOf(ka) + ValsOf(kb)
    decreases ka
  {
    if ka == [] {
      assert na + nb == nb && ka + kb == kb;
    } else {
      Concat(na[1..], ka[1..], nb, kb);
      ConcatCons(na, ka, nb, kb);
      Cons(na[0], ka[0], na[1..] + nb, ka[1..] + kb);
      Cons(na[0], ka[0], na[1..], ka[1..]);
      Append3([Val(ka[0])], ValsOf(ka[1..]), ValsOf(kb));
    }
  }

  lemma ConcatCons(na: seq<Node>, ka: seq<Shape>, nb: seq<Node>, kb: seq<Shape>)
    requires na != [] && ka != []
    ensures na + nb == [na[0]] + (na[1..] + nb) && ka + kb == [ka[0]] + (ka[1..] + kb)
    ensures na == [na[0]] + na[1..] && ka == [ka[0]] + ka[1..]
  {
  }

  predicate Disjoint3(a: set<Node>, b: set<Node>, c: set<Node>) {
    a !! b && a !! c && b !! c
  }

  /** A child in the middle: good with its siblings iff good on its own and apart from them. */
  lemma Middle(nodes: seq<Node>, kids: seq<Shape>, i: nat)
    requires i < |kids| == |nodes|
    ensures GoodAll(nodes, kids)
            <==> GoodAll(nodes[..i], kids[..i]) && Holds(kids[i], nodes[i])
                 && GoodAll(nodes[i + 1..], kids[i + 1..])
                 && Disjoint3(NodesOf(kids[..i]), Nodes(kids[i]), NodesOf(kids[i + 1..]))
    ensures NodesOf(kids) == NodesOf(kids[..i]) + Nodes(kids[i]) + NodesOf(kids[i + 1..])
    ensures ValsOf(kids) == ValsOf(kids[..i]) + [Val(kids[i])] + ValsOf(kids[i + 1..])
  {
    assert nodes == nodes[..i] + ([nodes[i]] + nodes[i + 1..]);
    assert kids == kids[..i] + ([kids[i]] + kids[i + 1..]);
    Concat(nodes[..i], kids[..i], [nodes[i]] + nodes[i + 1..], [kids[i]] + kids[i + 1..]);
    Cons(nodes[i], kids[i], nodes[i + 1..], kids[i + 1..]);
    Append3(ValsOf(kids[..i]), [Val(kids[i])], ValsOf(kids[i + 1..]));
  }

  lemma MiddleReplaced(nodes: seq<Node>, kids: seq<Shape>, i: nat, h: Shape)
    requires i < |kids| == |nodes|
    requires GoodAll(nodes[..i], kids[..i]) && Holds(h, nodes[i]) && GoodAll(nodes[i + 1..], kids[i + 1..])
    requires Disjoint3(NodesOf(kids[..i]), Nodes(h), NodesOf(kids[i + 1..]))
    ensures GoodAll(nodes, kids[i := h])
    ensures NodesOf(kids[i := h]) == NodesOf(kids[..i]) + Nodes(h) + NodesOf(kids[i + 1..])
    ensures ValsOf(kids[i := h]) == ValsOf(kids[..i]) + [Val(h)] + ValsOf(kids[i + 1..])
  {
    assert kids[i := h][..i] == kids[..i] && kids[i := h][i + 1..] == kids[i + 1..];
    Middle(nodes, kids[i := h], i);
  }

  /** Any node's surroundings can be set aside. */
  lemma {:induction false} Focus(g: Shape, p: Position)
    requires Good(g) && WithinShape(g, p)
    ensures Context(g, p) && Good(ShapeAt(g, p))
    ensures Around(g, p) !! Nodes(ShapeAt(g, p)) && Nodes(g) == Around(g, p) + Nodes(ShapeAt(g, p))
    ensures Within(Val(g), p) && At(Val(g), p) == Val(ShapeAt(g, p))
    decreases |p|
  {
    FocusValue(g, p);
    if p != [] {
      Unfold(g);
      MiddleOf(g.node.children, g.kids, p[0]);
      Focus(g.kids[p[0]], p[1..]);
    }
  }

  lemma {:induction false} FocusValue(g: Shape, p: Position)
    requires Good(g) && WithinShape(g, p)
    ensures Within(Val(g), p) && At(Val(g), p) == Val(ShapeAt(g, p))
    decreases |p|
  {
    if p != [] {
      Unfold(g);
      AtIndex(g.node.children, g.kids, p[0]);
      FocusValue(g.kids[p[0]], p[1..]);
    }
  }

  lemma MiddleOf(nodes: seq<Node>, kids: seq<Shape>, i: nat)
    requires GoodAll(nodes, kids) && i < |kids|
    ensures |nodes| == |kids| && Holds(kids[i], nodes[i])
    ensures GoodAll(nodes[..i], kids[..i]) && GoodAll(nodes[i + 1..], kids[i + 1..])
    ensures Disjoint3(NodesOf(kids[..i]), Nodes(kids[i]), NodesOf(kids[i + 1..]))
    ensures NodesOf(kids) == NodesOf(kids[..i]) + Nodes(kids[i]) + NodesOf(kids[i + 1..])
  {
    Middle(nodes, kids, i);
  }

  lemma {:induction false} FilledIsReplaced(g: Shape, p: Position, hole: Tree)
    requires Good(g) && WithinShape(g, p)
    ensures Within(Val(g), p) && Filled(g, p, hole) == ReplaceAt(Val(g), p, hole)
    decreases |p|
  {
    if p != [] {
      Unfold(g);
      Middle(g.node.children, g.kids, p[0]);
      FilledIsReplaced(g.kids[p[0]], p[1..], hole);
      ReplaceMiddle(ValsOf(g.kids[..p[0]]), Val(g.kids[p[0]]), ValsOf(g.kids[p[0] + 1..]),
                    Filled(g.kids[p[0]], p[1..], hole));
    }
  }

  lemma ReplaceMiddle(left: seq<Tree>, mid: Tree, right: seq<Tree>, mid': Tree)
    ensures (left + [mid] + right)[|left| := mid'] == left + [mid'] + right
    ensures (left + [mid] + right)[|left|] == mid
  {
  }

  /** And a new subtree put back in the same place, the rest untouched. */
  lemma {:induction false} Plug(g: Shape, p: Position, h: Shape)
    requires WithinShape(g, p) && Context(g, p)
    requires Good(h) && h.node == ShapeAt(g, p).node && Nodes(h) !! Around(g, p)
    ensures Good(Plugged(g, p, h)) && Plugged(g, p, h).node == g.node
    ensures Nodes(Plugged(g, p, h)) == Around(g, p) + Nodes(h)
    ensures Val(Plugged(g, p, h)) == Filled(g, p, Val(h))
    decreases |p|
  {
    if p != [] {
      var k := g.kids[p[0]];
      Plug(k, p[1..], h);
      MiddleReplaced(g.node.children, g.kids, p[0], Plugged(k, p[1..], h));
    }
  }

  lemma {:induction false} AroundAllocated(g: Shape, p: Position)
    requires WithinShape(g, p)
    ensures forall n :: n in Around(g, p) ==> allocated(n)
    decreases |p|
  {
    if p != [] {
      AllocatedOf(g.kids[..p[0]]);
      AllocatedOf(g.kids[p[0] + 1..]);
      AroundAllocated(g.kids[p[0]], p[1..]);
    }
  }
}
