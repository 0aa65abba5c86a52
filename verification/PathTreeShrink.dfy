/** Giving folded segments back, in place (agent_wrap/lib/path_tree.py, `expand_widest_chain`). */
module PathTreeShrink {
  import opened Names
  import opened Totals
  import opened PathTree
  import opened PathTreeExpand
  import opened PathTreeNode
  import opened PathTreeBuild

  // ---- measuring and searching, which only read ---------------------------------------------------

  function WidthOfNodes(cells: Cells, nodes: seq<Node>, depth: nat, ghost kids: seq<Shape>): (w: int)
    requires GoodAll(nodes, kids)
    reads NodesOf(kids)
    ensures w == MaxWidthOf(cells, ValsOf(kids), depth)
    decreases kids
  {
    if nodes == [] then 0
    else
      UnfoldAll(nodes, kids);
      Unfold(kids[0]);
      var k := nodes[0];
      var own := depth + cells(k.name) + if k.children != [] then 1 else 0;
      Max(Max(own, WidthOfNodes(cells, k.children, depth + 1, kids[0].kids)),
          WidthOfNodes(cells, nodes[1..], depth, kids[1..]))
  }

  datatype FoundNode = FoundNode(width: int, parent: Node, at: Position)

  function Sought(best: Option<FoundNode>): Option<Found> {
    if best.Some? then Some(Found(best.value.width, best.value.at)) else None
  }

  ghost predicate InPlace(best: Option<FoundNode>, root: Shape) {
    best.Some? ==> WithinShape(root, best.value.at) && ShapeAt(root, best.value.at).node == best.value.parent
  }

  function WidestNode(cells: Cells, node: Node, i: nat, depth: nat, best: Option<FoundNode>, here: Position,
                      ghost g: Shape, ghost root: Shape): (found: Option<FoundNode>)
    requires Holds(g, node) && i <= |node.children| && InPlace(best, root)
    requires WithinShape(root, here) && ShapeAt(root, here) == g
    reads Nodes(g)
    ensures InPlace(found, root)
    ensures |Val(g).children| == |node.children|
    ensures Sought(found) == WidestFrom(cells, Val(g), i, depth, Sought(best), here)
    decreases g, |node.children| - i
  {
    Unfold(g);
    if i == |node.children| then best
    else
      AtIndex(node.children, g.kids, i);
      Unfold(g.kids[i]);
      ShapeStep(root, here, i);
      var k := node.children[i];
      var width := depth + cells(k.name) + if k.children != [] then 1 else 0;
      var best := if '/' in k.name && (best.None? || width > best.value.width) then Some(FoundNode(width, node, here))
                  else best;
      WidestNode(cells, node, i + 1, depth,
                 WidestNode(cells, k, 0, depth + 1, best, here + [i], g.kids[i], root), here, g, root)
  }

  // ---- one child exchanged for another ------------------------------------------------------------

  /** The children on both sides of position `i` hold `left` and `right`, apart from each other. */
  ghost predicate Gap(nodes: seq<Node>, kids: seq<Shape>, i: nat, left: seq<Tree>, right: seq<Tree>)
    requires i < |nodes| == |kids|
    reads NodesOf(kids[..i]), NodesOf(kids[i + 1..])
  {
    && GoodAll(nodes[..i], kids[..i]) && ValsOf(kids[..i]) == left
    && GoodAll(nodes[i + 1..], kids[i + 1..]) && ValsOf(kids[i + 1..]) == right
    && NodesOf(kids[..i]) !! NodesOf(kids[i + 1..])
  }

  ghost function Beside(kids: seq<Shape>, i: nat): set<Node>
    requires i < |kids|
  {
    NodesOf(kids[..i]) + NodesOf(kids[i + 1..])
  }

  lemma OpenGap(h: Shape, i: nat)
    requires Good(h) && i < |h.kids|
    ensures |h.node.children| == |h.kids| == |Val(h).children|
    ensures var vals := Val(h).children; Gap(h.node.children, h.kids, i, vals[..i], vals[i + 1..])
    ensures Holds(h.kids[i], h.node.children[i]) && Val(h).children[i] == Val(h.kids[i])
    ensures Nodes(h) == {h.node} + Beside(h.kids, i) + Nodes(h.kids[i])
    ensures h.node !in Beside(h.kids, i) + Nodes(h.kids[i]) && Beside(h.kids, i) !! Nodes(h.kids[i])
    ensures forall n :: n in Nodes(h) ==> allocated(n)
  {
    Unfold(h);
    Middle(h.node.children, h.kids, i);
    Allocated(h);
    var left, right, mid := ValsOf(h.kids[..i]), ValsOf(h.kids[i + 1..]), Val(h.kids[i]);
    Sides(left, mid, right);
  }

  lemma Sides(left: seq<Tree>, mid: Tree, right: seq<Tree>)
    ensures var all := left + [mid] + right;
            && all[..|left|] == left && all[|left|] == mid && all[|left| + 1..] == right
            && forall k :: all[|left| := k] == left + [k] + right
  {
  }

  method FillGap(parent: Node, i: nat, k: Node, ghost h: Shape, ghost s: Shape, ghost was: seq<Tree>)
    returns (ghost h': Shape)
    requires h.node == parent && i < |parent.children| == |h.kids| == |was| && Holds(s, k)
    requires Gap(parent.children, h.kids, i, was[..i], was[i + 1..])
    requires Nodes(s) !! Beside(h.kids, i) && parent !in Beside(h.kids, i) + Nodes(s)
    modifies parent`children
    ensures h' == Shape(parent, h.kids[i := s]) && Holds(h', parent)
    ensures Nodes(h') == {parent} + Beside(h.kids, i) + Nodes(s)
    ensures parent.children == old(parent.children)[i := k] && Val(s) == old(Val(s))
    ensures Val(h') == Tree(parent.name, parent.row, was[i := Val(s)], parent.totals)
  {
    Exchange(parent.children, h.kids, i, k, s, was);
    parent.children := parent.children[i := k];
    h' := Shape(parent, h.kids[i := s]);
  }

  lemma Exchange(nodes: seq<Node>, kids: seq<Shape>, i: nat, k: Node, s: Shape, was: seq<Tree>)
    requires i < |nodes| == |kids| == |was| && Gap(nodes, kids, i, was[..i], was[i + 1..])
    requires Holds(s, k) && Nodes(s) !! Beside(kids, i)
    ensures GoodAll(nodes[i := k], kids[i := s]) && NodesOf(kids[i := s]) == Beside(kids, i) + Nodes(s)
    ensures ValsOf(kids[i := s]) == was[i := Val(s)]
  {
    assert nodes[i := k][..i] == nodes[..i] && nodes[i := k][i + 1..] == nodes[i + 1..];
    MiddleReplaced(nodes[i := k], kids, i, s);
    assert was == was[..i] + [was[i]] + was[i + 1..];
    Sides(was[..i], was[i], was[i + 1..]);
  }

  // ---- splitting one line and putting it back -----------------------------------------------------

  method MakeStem(node: Node, ghost k: Shape) returns (stem: Node, ghost s: Shape)
    requires Holds(k, node) && '/' in node.name
    modifies node
    ensures Holds(s, stem) && fresh(stem) && Nodes(s) == {stem} + Nodes(k)
    ensures Folded(old(Val(k))) && Val(s) == Stem(old(Val(k)))
  {
    Unfold(k);
    Allocated(k);
    AllocatedOf(k.kids);
    ghost var below := ValsOf(k.kids);
    stem := new Node(Head(node.name));
    stem.totals := node.totals;
    node.name := Tail(node.name);
    stem.children := [node];
    assert GoodAll(node.children, k.kids) && ValsOf(k.kids) == below;
    s := Shape(stem, [k]);
    StemGood(stem, node, k);
  }

  lemma StemGood(stem: Node, node: Node, k: Shape)
    requires Holds(k, node) && stem !in Nodes(k) && stem.children == [node]
    ensures Holds(Shape(stem, [k]), stem)
    ensures Nodes(Shape(stem, [k])) == {stem} + Nodes(k)
    ensures Val(Shape(stem, [k])) == Tree(stem.name, stem.row, [Val(k)], stem.totals)
  {
    Cons(node, k, [], []);
    assert [node] + [] == [node] && [k] + [] == [k];
  }

  /** The child at `i` gives its leading segment to a new structural node standing in its place. */
  method SplitFirstSegment(parent: Node, i: nat, ghost h: Shape) returns (ghost h': Shape)
    requires Holds(h, parent) && i < |parent.children| && DistinctHeads(Val(h).children)
    requires '/' in parent.children[i].name
    modifies Nodes(h)
    ensures Holds(h', parent) && fresh(Nodes(h') - Nodes(h))
    ensures i < |old(Val(h)).children| && Folded(old(Val(h)).children[i])
    ensures var kids := old(Val(h)).children;
            Val(h') == old(Val(h)).(children := Rekeyed(kids, kids[i].name, Stem(kids[i])))
  {
    ghost var v := Val(h);
    Unfold(h);
    OpenGap(h, i);
    AllocatedOf(h.kids[..i]);
    AllocatedOf(h.kids[i + 1..]);
    StemHead(v.children[i]);
    RekeyedInPlace(v.children, i, Stem(v.children[i]));
    var stem;
    ghost var s;
    stem, s := MakeStem(parent.children[i], h.kids[i]);
    h' := FillGap(parent, i, stem, h, s, v.children);
  }

  method RejoinNode(stem: Node, ghost s: Shape) returns (node: Node, ghost k: Shape)
    requires Holds(s, stem) && |Val(s).children| == 1
    modifies Nodes(s)
    ensures Holds(k, node) && Nodes(k) <= Nodes(s)
    ensures Val(k) == Rejoined(old(Val(s)))
  {
    Unfold(s);
    UnfoldAll(stem.children, s.kids);
    node := stem.children[0];
    k := s.kids[0];
    Unfold(k);
    ghost var below := ValsOf(k.kids);
    node.name := stem.name + "/" + node.name;
    assert GoodAll(node.children, k.kids) && ValsOf(k.kids) == below;
  }

  /** The stem at `i` gives its segment back to the node it was taken from, and is dropped. */
  method UnsplitNode(parent: Node, i: nat, ghost h: Shape, ghost orig: seq<Tree>) returns (ghost h': Shape)
    requires Holds(h, parent) && i < |parent.children|
    requires SplitBelow(Val(h).children, orig, i + 1) && Folded(orig[i])
    modifies Nodes(h)
    ensures Holds(h', parent) && Nodes(h') <= Nodes(h)
    ensures Val(h') == old(Val(h)).(children := old(Val(h)).children[i := orig[i]])
    ensures SplitBelow(Val(h').children, orig, i)
  {
    ghost var v := Val(h);
    Unfold(h);
    OpenGap(h, i);
    UnsplitInPlace(v.children, orig, i);
    RejoinedStem(orig[i]);
    var node;
    ghost var k;
    node, k := RejoinNode(parent.children[i], h.kids[i]);
    h' := FillGap(parent, i, node, h, k, v.children);
  }

  // ---- a whole sibling group ----------------------------------------------------------------------

  /** `split[j]` says whether the `j`-th sibling was split. */
  predicate Recorded(split: seq<bool>, orig: seq<Tree>) {
    |split| <= |orig| && forall j :: 0 <= j < |split| ==> (split[j] <==> Folded(orig[j]))
  }

  lemma ChildNames(h: Shape)
    requires Good(h)
    ensures |h.node.children| == |Val(h).children|
    ensures forall j :: 0 <= j < |h.node.children| ==> h.node.children[j].name == Val(h).children[j].name
    ensures forall n :: n in Nodes(h) ==> allocated(n)
  {
    Unfold(h);
    Allocated(h);
    forall j | 0 <= j < |h.node.children|
      ensures h.node.children[j].name == Val(h).children[j].name
    {
      AtIndex(h.node.children, h.kids, j);
    }
  }

  /** One step of the group loop on values: splitting sibling `i` if it is folded. */
  lemma SplitStep(kids: seq<Tree>, orig: seq<Tree>, i: nat)
    requires SplitBelow(kids, orig, i) && i < |orig|
    ensures DistinctHeads(kids) && kids[i] == orig[i]
    ensures Folded(orig[i]) ==> SplitBelow(Rekeyed(kids, kids[i].name, Stem(kids[i])), orig, i + 1)
    ensures !Folded(orig[i]) ==> SplitBelow(kids, orig, i + 1)
  {
    StemsDistinct(orig, kids);
    if Folded(orig[i]) {
      StemHead(kids[i]);
      RekeyedInPlace(kids, i, Stem(kids[i]));
    }
  }

  lemma AllSplit(kids: seq<Tree>, orig: seq<Tree>)
    requires SplitBelow(kids, orig, |orig|)
    ensures kids == SplitGroup(orig, 0)
  {
  }

  method SplitNext(parent: Node, i: nat, ghost h: Shape, ghost orig: seq<Tree>) returns (did: bool, ghost h': Shape)
    requires Holds(h, parent) && SplitBelow(Val(h).children, orig, i) && i < |orig|
    modifies Nodes(h)
    ensures Holds(h', parent) && fresh(Nodes(h') - Nodes(h)) && did == Folded(orig[i])
    ensures Val(h') == old(Val(h)).(children := Val(h').children) && SplitBelow(Val(h').children, orig, i + 1)
    ensures |parent.children| == |orig|
  {
    ghost var kids := Val(h).children;
    ChildNames(h);
    SplitStep(kids, orig, i);
    h' := h;
    did := '/' in parent.children[i].name;
    if did {
      h' := SplitFirstSegment(parent, i, h);
    }
    ChildNames(h');
  }

  /** Every folded child of `parent` is split, in the order of a snapshot taken first. */
  method SplitGroupNode(parent: Node, ghost h: Shape) returns (split: seq<bool>, ghost h': Shape)
    requires Holds(h, parent) && DistinctHeads(Val(h).children)
    modifies Nodes(h)
    ensures Holds(h', parent) && fresh(Nodes(h') - Nodes(h))
    ensures |split| == |old(Val(h)).children| && Recorded(split, old(Val(h)).children)
    ensures Val(h') == Opened(old(Val(h)))
  {
    ghost var v := Val(h);
    split, h' := [], h;
    ChildNames(h);
    while |split| < |parent.children|
      invariant Holds(h', parent) && fresh(Nodes(h') - Nodes(h))
      invariant |parent.children| == |v.children| && Recorded(split, v.children)
      invariant Val(h') == v.(children := Val(h').children) && SplitBelow(Val(h').children, v.children, |split|)
    {
      ghost var known := Nodes(h');
      label before:
      var did;
      did, h' := SplitNext(parent, |split|, h', v.children);
      split := split + [did];
      forall n | n in Nodes(h') && n !in known
        ensures fresh(n)
      {
        assert !old@before(allocated(n));
      }
    }
    AllSplit(Val(h').children, v.children);
  }

  /** The splits undone, last in, first out. */
  method UnsplitGroupNode(parent: Node, split: seq<bool>, ghost h: Shape, ghost orig: seq<Tree>)
    returns (ghost h': Shape)
    requires Holds(h, parent) && SplitBelow(Val(h).children, orig, |orig|)
    requires |split| == |orig| && Recorded(split, orig)
    modifies Nodes(h)
    ensures Holds(h', parent) && Nodes(h') <= Nodes(h)
    ensures Val(h') == old(Val(h)).(children := orig)
  {
    ghost var v := Val(h);
    h' := h;
    for i := |split| downto 0
      invariant Holds(h', parent) && Nodes(h') <= Nodes(h)
      invariant Val(h') == v.(children := Val(h').children) && SplitBelow(Val(h').children, orig, i)
    {
      if split[i] {
        ChildNames(h');
        h' := UnsplitNode(parent, i, h', orig);
      }
    }
    assert Val(h').children == orig;
  }

  // ---- expanding ----------------------------------------------------------------------------------

  lemma WidthOfRoot(cells: Cells, root: Node, g: Shape, depth: nat)
    requires Holds(g, root)
    ensures GoodAll(root.children, g.kids)
    ensures WidthOfNodes(cells, root.children, depth, g.kids) == MaxLabelWidth(cells, Val(g), depth)
  {
    Unfold(g);
  }

  /** `parent`, which stands at `p`, has its group split. */
  method OpenAt(parent: Node, ghost g: Shape, ghost p: Position) returns (split: seq<bool>, ghost g': Shape)
    requires Good(g) && WithinShape(g, p) && ShapeAt(g, p).node == parent
    requires Within(Val(g), p) && DistinctHeads(At(Val(g), p).children)
    modifies Nodes(g)
    ensures Good(g') && g'.node == g.node && fresh(Nodes(g') - Nodes(g))
    ensures WithinShape(g', p) && ShapeAt(g', p).node == parent
    ensures var t := At(old(Val(g)), p);
            && |split| == |t.children| && Recorded(split, t.children)
            && Val(g') == ReplaceAt(old(Val(g)), p, Opened(t))
  {
    ghost var h, t := ShapeAt(g, p), At(Val(g), p);
    SetAside(g, p, Opened(t));
    Allocated(g);
    ghost var around := Filled(g, p, Opened(t));
    ghost var h';
    split, h' := SplitGroupNode(parent, h);
    assert Context(g, p) && Filled(g, p, Opened(t)) == around;
    Plug(g, p, h');
    g' := Plugged(g, p, h');
    PluggedAt(g, p, h');
  }

  method CloseAt(parent: Node, split: seq<bool>, ghost g: Shape, ghost p: Position, ghost t: Tree)
    returns (ghost g': Shape)
    requires Good(g) && WithinShape(g, p) && ShapeAt(g, p).node == parent
    requires DistinctHeads(t.children) && |split| == |t.children| && Recorded(split, t.children)
    requires Within(Val(g), p) && At(Val(g), p) == Opened(t)
    modifies Nodes(g)
    ensures Good(g') && g'.node == g.node && Nodes(g') <= Nodes(g)
    ensures Val(g') == ReplaceAt(old(Val(g)), p, t)
  {
    ghost var h := ShapeAt(g, p);
    SetAside(g, p, t);
    Allocated(g);
    ghost var around := Filled(g, p, t);
    ghost var h' := UnsplitGroupNode(parent, split, h, t.children);
    assert Context(g, p) && Filled(g, p, t) == around;
    Plug(g, p, h');
    g' := Plugged(g, p, h');
  }

  /**
    `expand_widest_chain`: exactly the value-level expansion. Where that refuses, the objects hold the
    very tree they held before, whatever was split and put back on the way.
    */
  method ExpandWidestChain(cells: Cells, root: Node, ghost g: Shape) returns (grown: bool, ghost g': Shape)
    requires Holds(g, root) && Settled(Val(g))
    modifies Nodes(g)
    ensures Holds(g', root) && fresh(Nodes(g') - Nodes(g))
    ensures (grown, Val(g')) == Expand(cells, old(Val(g)))
    ensures !grown ==> Val(g') == old(Val(g))
  {
    ghost var t := Val(g);
    ExpandIs(cells, t);
    WidthOfRoot(cells, root, g, 1);
    var before := WidthOfNodes(cells, root.children, 1, g.kids);
    var found := WidestNode(cells, root, 0, 1, None, [], g, g);
    if found.None? {
      return false, g;
    }
    grown, g' := ExpandAt(cells, root, found.value.parent, before, g, found.value.at);
  }

  /** The expansion by its branches: no candidate, a group opened, or the tree as it was. */
  lemma ExpandIs(cells: Cells, t: Tree)
    requires Settled(t)
    ensures var found := WidestFolded(cells, t, 1, None, []);
            && (found.Some? ==>
                  && Within(t, found.value.parent) && Settled(At(t, found.value.parent))
                  && DistinctHeads(At(t, found.value.parent).children))
            && Expand(cells, t)
               == if found.None? || !Narrower(cells, t, found.value.parent) then (false, t)
                  else (true, OpenedAt(t, found.value.parent))
  {
    WidestIsWidest(cells, t, 1);
    var found := WidestFolded(cells, t, 1, None, []);
    if found.Some? { SettledAt(t, found.value.parent); }
    if !Expand(cells, t).0 { RefusalChangesNothing(cells, t); }
  }

  function OpenedAt(t: Tree, p: Position): Tree
    requires Within(t, p) && DistinctHeads(At(t, p).children)
  {
    ReplaceAt(t, p, Opened(At(t, p)))
  }

  predicate Narrower(cells: Cells, t: Tree, p: Position)
    requires Within(t, p) && DistinctHeads(At(t, p).children)
  {
    MaxLabelWidth(cells, OpenedAt(t, p), 1) <= MaxLabelWidth(cells, t, 1)
  }

  /** The group opened, the tree measured, and the group closed again if that made it wider. */
  method ExpandAt(cells: Cells, root: Node, parent: Node, before: int, ghost g: Shape, ghost p: Position)
    returns (grown: bool, ghost g': Shape)
    requires Holds(g, root) && WithinShape(g, p) && ShapeAt(g, p).node == parent
    requires Within(Val(g), p) && DistinctHeads(At(Val(g), p).children)
    requires before == MaxLabelWidth(cells, Val(g), 1)
    modifies Nodes(g)
    ensures Holds(g', root) && fresh(Nodes(g') - Nodes(g))
    ensures grown <==> Narrower(cells, old(Val(g)), p)
    ensures Val(g') == if grown then OpenedAt(old(Val(g)), p) else old(Val(g))
  {
    ghost var t := Val(g);
    var split;
    split, g' := OpenAt(parent, g, p);
    AtReplaced(t, p, Opened(At(t, p)));
    WidthOfRoot(cells, root, g', 1);
    grown := WidthOfNodes(cells, root.children, 1, g'.kids) <= before;
    if !grown {
      g' := CloseAt(parent, split, g', p, At(t, p));
    }
  }
}
