/**
  Building the mutable trie and undoing its folds in place (agent_wrap/lib/path_tree.py,
  `build_path_tree` and `expand_widest_chain`), each against the value-level function it computes.
  */
module PathTreeBuild {
  import opened Totals
  import opened PathTree
  import opened PathTotals
  import opened PathTreeExpand
  import opened PathTreeNode

  // ---- building -----------------------------------------------------------------------------------

  method FindChild(nodes: seq<Node>, ghost kids: seq<Shape>, name: string) returns (i: nat)
    requires GoodAll(nodes, kids)
    ensures i <= |nodes| == |kids| && i == IndexOf(ValsOf(kids), name)
  {
    i := 0;
    ghost var vals := ValsOf(kids);
    while i < |nodes| && nodes[i].name != name
      invariant i <= |nodes| == |kids| && GoodAll(nodes, kids) && ValsOf(kids) == vals
      invariant forall j :: 0 <= j < i ==> vals[j].name != name
    {
      AtIndex(nodes, kids, i);
      i := i + 1;
    }
    if i < |nodes| {
      AtIndex(nodes, kids, i);
      assert HasName(vals, name);
    }
  }

  /** Where the walk down stands: inserting the rest of the path below `c` is inserting all of it. */
  ghost predicate OnTheWay(v: Tree, p: Position, path: Path, row: ProjectRow, goal: Tree) {
    Within(v, p) && ReplaceAt(v, p, Insert(At(v, p), path, row)) == goal
  }

  lemma StepDown(v: Tree, p: Position, path: Path, row: ProjectRow, goal: Tree)
    requires OnTheWay(v, p, path, row, goal) && path != []
    requires IndexOf(At(v, p).children, path[0]) < |At(v, p).children|
    ensures OnTheWay(v, p + [IndexOf(At(v, p).children, path[0])], path[1..], row, goal)
  {
    var c := At(v, p);
    var i := IndexOf(c.children, path[0]);
    WithinStep(v, p, i);
    ReplaceDeeper(v, p, i, Insert(c.children[i], path[1..], row));
  }

  lemma {:induction false} ReplaceDeeper(t: Tree, p: Position, i: nat, n: Tree)
    requires Within(t, p) && i < |At(t, p).children| && Within(t, p + [i])
    ensures ReplaceAt(t, p + [i], n) == ReplaceAt(t, p, At(t, p).(children := At(t, p).children[i := n]))
    decreases |p|
  {
    if p == [] {
      assert p + [i] == [i] && [i][1..] == [];
    } else {
      assert (p + [i])[1..] == p[1..] + [i];
      ReplaceDeeper(t.children[p[0]], p[1..], i, n);
    }
  }

  /** Creating the missing child changes nothing about what insertion will produce. */
  lemma CreateChild(v: Tree, p: Position, path: Path, row: ProjectRow, goal: Tree)
    requires OnTheWay(v, p, path, row, goal) && path != []
    requires IndexOf(At(v, p).children, path[0]) == |At(v, p).children|
    ensures var c := At(v, p);
            OnTheWay(ReplaceAt(v, p, c.(children := c.children + [NewNode(path[0])])), p, path, row, goal)
  {
    var c := At(v, p);
    var c' := c.(children := c.children + [NewNode(path[0])]);
    AtReplaced(v, p, c');
    IndexOfSameNames(c.children, c'.children, path[0]);
    assert c'.children[|c.children|].name == path[0];
    assert HasName(c'.children, path[0]);
    assert IndexOf(c'.children, path[0]) == |c.children|;
    assert c'.children[|c.children| := Insert(NewNode(path[0]), path[1..], row)]
        == c.children + [Insert(NewNode(path[0]), path[1..], row)];
    assert Insert(c', path, row) == Insert(c, path, row);
  }

  /** A childless node added under the node at `p`. */
  method AddChild(cur: Node, name: string, ghost g: Shape, ghost p: Position) returns (ghost g': Shape)
    requires Good(g) && WithinShape(g, p) && ShapeAt(g, p).node == cur
    modifies cur
    ensures Good(g') && g'.node == g.node && WithinShape(g', p) && ShapeAt(g', p).node == cur
    ensures fresh(Nodes(g') - Nodes(g))
    ensures Within(old(Val(g)), p)
    ensures var c := At(old(Val(g)), p);
            Val(g') == ReplaceAt(old(Val(g)), p, c.(children := c.children + [NewNode(name)]))
  {
    ghost var h := ShapeAt(g, p);
    Focus(g, p);
    ghost var c := At(Val(g), p).(children := At(Val(g), p).children + [NewNode(name)]);
    SetAside(g, p, c);
    Unfold(h);
    AllocatedOf(h.kids);
    AroundAllocated(g, p);
    ghost var around := Filled(g, p, c);
    ghost var h' := GrowNode(cur, name, h);
    assert Context(g, p) && Filled(g, p, c) == around;
    Plug(g, p, h');
    g' := Plugged(g, p, h');
    PluggedAt(g, p, h');
  }

  method GrowNode(cur: Node, name: string, ghost h: Shape) returns (ghost h': Shape)
    requires Holds(h, cur)
    modifies cur
    ensures Holds(h', cur) && fresh(Nodes(h') - Nodes(h)) && Nodes(h) <= Nodes(h')
    ensures Val(h') == old(Val(h)).(children := old(Val(h)).children + [NewNode(name)])
  {
    Unfold(h);
    AllocatedOf(h.kids);
    ghost var below := ValsOf(h.kids);
    var child := new Node(name);
    ghost var leaf := Shape(child, []);
    assert Holds(leaf, child);
    Unfold(leaf);
    assert GoodAll(cur.children, h.kids) && ValsOf(h.kids) == below;
    AppendGood(cur.children, h.kids, child, leaf);
    cur.children := cur.children + [child];
    h' := Shape(cur, h.kids + [leaf]);
  }

  /** Everything a change at `p` needs to know about the rest of the tree beforehand. */
  lemma SetAside(g: Shape, p: Position, hole: Tree)
    requires Good(g) && WithinShape(g, p)
    ensures Context(g, p) && Good(ShapeAt(g, p))
    ensures Around(g, p) !! Nodes(ShapeAt(g, p)) && Nodes(g) == Around(g, p) + Nodes(ShapeAt(g, p))
    ensures Within(Val(g), p) && At(Val(g), p) == Val(ShapeAt(g, p))
    ensures Filled(g, p, hole) == ReplaceAt(Val(g), p, hole)
  {
    Focus(g, p);
    FilledIsReplaced(g, p, hole);
  }

  lemma {:induction false} PluggedAt(g: Shape, p: Position, h: Shape)
    requires WithinShape(g, p)
    ensures WithinShape(Plugged(g, p, h), p) && ShapeAt(Plugged(g, p, h), p) == h
    decreases |p|
  {
    if p != [] { PluggedAt(g.kids[p[0]], p[1..], h); }
  }

  method SetRow(cur: Node, row: ProjectRow, ghost g: Shape, ghost p: Position) returns (ghost g': Shape)
    requires Good(g) && WithinShape(g, p) && ShapeAt(g, p).node == cur
    modifies cur
    ensures Good(g') && g'.node == g.node && Nodes(g') == Nodes(g)
    ensures Within(old(Val(g)), p)
    ensures Val(g') == ReplaceAt(old(Val(g)), p, At(old(Val(g)), p).(row := Some(row)))
  {
    ghost var h := ShapeAt(g, p);
    Focus(g, p);
    ghost var c := At(Val(g), p).(row := Some(row));
    SetAside(g, p, c);
    Unfold(h);
    ghost var around, below := Filled(g, p, c), ValsOf(h.kids);
    cur.row := Some(row);
    assert GoodAll(cur.children, h.kids) && ValsOf(h.kids) == below;
    Unfold(h);
    assert Context(g, p) && Filled(g, p, c) == around;
    Plug(g, p, h);
    g' := Plugged(g, p, h);
  }

  /** `if seg not in cur.children: cur.children[seg] = ...`, and where the child is. */
  method EnsureChild(cur: Node, name: string, ghost g: Shape, ghost p: Position) returns (i: nat, ghost g': Shape)
    requires Good(g) && WithinShape(g, p) && ShapeAt(g, p).node == cur
    modifies cur
    ensures Good(g') && g'.node == g.node && WithinShape(g', p) && ShapeAt(g', p).node == cur
    ensures fresh(Nodes(g') - Nodes(g)) && Within(old(Val(g)), p)
    ensures var kids := At(old(Val(g)), p).children;
            && i == IndexOf(kids, name)
            && Val(g') == (if i < |kids| then old(Val(g))
                           else ReplaceAt(old(Val(g)), p, At(old(Val(g)), p).(children := kids + [NewNode(name)])))
  {
    g' := g;
    Focus(g, p);
    Allocated(g);
    ghost var v := Val(g);
    Unfold(ShapeAt(g, p));
    i := FindChild(cur.children, ShapeAt(g, p).kids, name);
    assert Val(g) == v && Good(g);
    if i == |cur.children| {
      label before:
      g' := AddChild(cur, name, g, p);
      forall n | n in Nodes(g') && n !in Nodes(g)
        ensures fresh(n)
      {
        assert !old@before(allocated(n));
      }
    }
  }

  /** One segment down. */
  method Descend(cur: Node, ghost g: Shape, ghost p: Position, path: Path, k: nat, ghost row: ProjectRow,
                 ghost goal: Tree)
    returns (next: Node, ghost g': Shape, ghost p': Position)
    requires Good(g) && WithinShape(g, p) && ShapeAt(g, p).node == cur && k < |path|
    requires OnTheWay(Val(g), p, path[k..], row, goal)
    modifies cur
    ensures Good(g') && g'.node == g.node && WithinShape(g', p') && ShapeAt(g', p').node == next
    ensures fresh(Nodes(g') - Nodes(g))
    ensures OnTheWay(Val(g'), p', path[k + 1..], row, goal)
  {
    ghost var v, rest := Val(g), path[k..];
    assert rest[0] == path[k] && rest[1..] == path[k + 1..];
    var i;
    i, g' := EnsureChild(cur, path[k], g, p);
    if i == |At(v, p).children| {
      CreateChild(v, p, rest, row, goal);
      AtReplaced(v, p, At(v, p).(children := At(v, p).children + [NewNode(path[k])]));
      NewChildFound(At(v, p).children, path[k]);
    }
    StepDown(Val(g'), p, rest, row, goal);
    Focus(g', p);
    Unfold(ShapeAt(g', p));
    AtIndex(cur.children, ShapeAt(g', p).kids, i);
    ShapeStep(g', p, i);
    next := cur.children[i];
    p' := p + [i];
  }

  lemma NewChildFound(kids: seq<Tree>, name: string)
    requires IndexOf(kids, name) == |kids|
    ensures IndexOf(kids + [NewNode(name)], name) == |kids|
  {
    var kids' := kids + [NewNode(name)];
    IndexOfSameNames(kids, kids', name);
    assert kids'[|kids|].name == name;
    assert HasName(kids', name);
  }

  lemma {:induction false} ShapeStep(g: Shape, p: Position, i: nat)
    requires WithinShape(g, p) && i < |ShapeAt(g, p).kids|
    ensures WithinShape(g, p + [i]) && ShapeAt(g, p + [i]) == ShapeAt(g, p).kids[i]
    decreases |p|
  {
    if p == [] {
      assert p + [i] == [i] && [i][1..] == [];
    } else {
      ShapeStep(g.kids[p[0]], p[1..], i);
      assert (p + [i])[1..] == p[1..] + [i];
    }
  }

  method InsertNode(root: Node, path: Path, row: ProjectRow, ghost g: Shape) returns (ghost g': Shape)
    requires Holds(g, root)
    modifies Nodes(g)
    ensures Holds(g', root) && fresh(Nodes(g') - Nodes(g))
    ensures Val(g') == Insert(old(Val(g)), path, row)
  {
    var cur := root;
    ghost var p: Position := [];
    ghost var goal := Insert(Val(g), path, row);
    g' := g;
    assert path[0..] == path;
    for k := 0 to |path|
      invariant Good(g') && g'.node == root && WithinShape(g', p) && ShapeAt(g', p).node == cur
      invariant fresh(Nodes(g') - Nodes(g))
      invariant OnTheWay(Val(g'), p, path[k..], row, goal)
    {
      InTree(g', p);
      ghost var known := Nodes(g');
      label before:
      cur, g', p := Descend(cur, g', p, path, k, row, goal);
      forall n | n in Nodes(g') && n !in known
        ensures fresh(n)
      {
        assert !old@before(allocated(n));
      }
    }
    InTree(g', p);
    g' := SetRow(cur, row, g', p);
  }

  lemma InTree(g: Shape, p: Position)
    requires Good(g) && WithinShape(g, p)
    ensures ShapeAt(g, p).node in Nodes(g)
  {
    Focus(g, p);
  }

  /** `build_path_tree`: insert every row, then fold, split self-rows off, and count. */
  method BuildNode(rows: seq<Entry>) returns (root: Node, ghost g: Shape)
    ensures Holds(g, root) && fresh(Nodes(g))
    ensures Val(g) == Build(rows)
  {
    root, g := InsertRows(rows);
    label before:
    g := CompressNode(root, g);
    g := SplitSelfRowsNode(root, g);
    forall n | n in Nodes(g)
      ensures fresh(n)
    {
      assert fresh(n) || !old@before(allocated(n));
    }
    CountRowsNode(root, g);
  }

  method InsertRows(rows: seq<Entry>) returns (root: Node, ghost g: Shape)
    ensures Holds(g, root) && fresh(Nodes(g))
    ensures Val(g) == InsertAll(NewNode(ROOT_NAME), rows)
  {
    root := new Node(ROOT_NAME);
    g := Shape(root, []);
    assert Holds(g, root);
    Unfold(g);
    for i := 0 to |rows|
      invariant Holds(g, root) && fresh(Nodes(g))
      invariant Val(g) == InsertAll(NewNode(ROOT_NAME), rows[..i])
    {
      assert rows[..i + 1][..i] == rows[..i];
      if rows[i].path != [] {
        ghost var known := Nodes(g);
        label before:
        g := InsertNode(root, rows[i].path, rows[i].row, g);
        forall n | n in Nodes(g)
          ensures fresh(n)
        {
          assert n in known || !old@before(allocated(n));
        }
      }
    }
    assert rows[..|rows|] == rows;
  }

  /** `build_project_tree`: the same, then one aggregation pass. */
  method BuildProjectTree(rows: seq<Entry>) returns (root: Node, ghost g: Shape)
    ensures Holds(g, root) && fresh(Nodes(g))
    ensures Val(g) == Aggregate(Build(rows))
  {
    root, g := BuildNode(rows);
    AggregateNode(root, g);
  }
}
