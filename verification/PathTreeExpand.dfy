/**
  Undoing folds one segment at a time (agent_wrap/lib/path_tree.py, `expand_widest_chain`): a whole
  sibling group is split at once, and put back exactly when that would widen the tree.
  */
module PathTreeExpand {
  import opened Names
  import opened Totals
  import opened PathTree
  import opened PathTotals

  /** Terminal cells a name occupies: any measure whatever. */
  type Cells = string -> nat

  function Max(a: int, b: int): int {
    if a < b then b else a
  }

  predicate Folded(k: Tree) {
    '/' in k.name
  }

  /** One glyph per level, the name, and a trailing slash on a heading. */
  function LabelWidth(cells: Cells, k: Tree, depth: nat): int {
    depth + cells(k.name) + if k.children != [] then 1 else 0
  }

  function MaxLabelWidth(cells: Cells, t: Tree, depth: nat): (w: int)
    decreases t, 1
  {
    MaxWidthOf(cells, t.children, depth)
  }

  function MaxWidthOf(cells: Cells, kids: seq<Tree>, depth: nat): (w: int)
    ensures w >= 0
    decreases kids, 0
  {
    if kids == [] then 0
    else Max(Max(LabelWidth(cells, kids[0], depth), MaxLabelWidth(cells, kids[0], depth + 1)),
             MaxWidthOf(cells, kids[1..], depth))
  }

  // ---- finding the widest folded line -------------------------------------------------------------

  /** A node's position: the child index taken at each level. */
  type Position = seq<nat>

  datatype Found = Found(width: int, parent: Position)

  function WidestFolded(cells: Cells, t: Tree, depth: nat, best: Option<Found>, here: Position): Option<Found>
    decreases t, |t.children| + 1
  {
    WidestFrom(cells, t, 0, depth, best, here)
  }

  function WidestFrom(cells: Cells, t: Tree, i: nat, depth: nat, best: Option<Found>, here: Position): Option<Found>
    requires i <= |t.children|
    decreases t, |t.children| - i
  {
    if i == |t.children| then best
    else
      var k := t.children[i];
      var width := LabelWidth(cells, k, depth);
      var best := if Folded(k) && (best.None? || width > best.value.width) then Some(Found(width, here)) else best;
      WidestFrom(cells, t, i + 1, depth, WidestFolded(cells, k, depth + 1, best, here + [i]), here)
  }

  predicate Within(t: Tree, p: Position)
    decreases |p|
  {
    p == [] || (p[0] < |t.children| && Within(t.children[p[0]], p[1..]))
  }

  function At(t: Tree, p: Position): Tree
    requires Within(t, p)
    decreases |p|
  {
    if p == [] then t else At(t.children[p[0]], p[1..])
  }

  function ReplaceAt(t: Tree, p: Position, n: Tree): Tree
    requires Within(t, p)
    decreases |p|
  {
    if p == [] then n
    else t.(children := t.children[p[0] := ReplaceAt(t.children[p[0]], p[1..], n)])
  }

  /** The line at position `q` is folded and `w` wide; its parent's lines are drawn at `depth` from here. */
  predicate FoldedLine(cells: Cells, t: Tree, q: Position, depth: nat, w: int)
    decreases |q|
  {
    && q != [] && q[0] < |t.children|
    && var k := t.children[q[0]];
       if |q| == 1 then Folded(k) && LabelWidth(cells, k, depth) == w
       else FoldedLine(cells, k, q[1..], depth + 1, w)
  }

  ghost predicate HasFoldedChild(cells: Cells, t: Tree, p: Position, depth: nat, w: int) {
    exists i: nat :: FoldedLine(cells, t, p + [i], depth, w)
  }

  /** Drawn earlier: a heading before what is below it, and siblings as the dictionaries have them. */
  predicate Precedes(a: Position, b: Position)
    decreases |a|
  {
    b != [] && (a == [] || a[0] < b[0] || (a[0] == b[0] && Precedes(a[1..], b[1..])))
  }

  /** No folded line is wider, and those as wide come later. */
  ghost predicate FirstWidest(cells: Cells, t: Tree, line: Position, depth: nat, w: int) {
    && FoldedLine(cells, t, line, depth, w)
    && forall q, v :: FoldedLine(cells, t, q, depth, v) ==> v <= w && (v == w ==> q == line || Precedes(line, q))
  }

  /** What the search returns: nothing exactly when nothing is folded, otherwise the first widest line's parent. */
  lemma {:induction false} WidestIsWidest(cells: Cells, t: Tree, depth: nat)
    ensures var found := WidestFolded(cells, t, depth, None, []);
            && (found.None? ==> forall q, w :: !FoldedLine(cells, t, q, depth, w))
            && (found.Some? ==>
                  && Within(t, found.value.parent)
                  && HasFoldedChild(cells, t, found.value.parent, depth, found.value.width)
                  && exists i: nat :: FirstWidest(cells, t, found.value.parent + [i], depth, found.value.width))
  {
    var found := WidestFolded(cells, t, depth, None, []);
    var line := WidestFromIs(cells, t, 0, depth, None, []);
    if found.Some? {
      var p, i := line[..|line| - 1], line[|line| - 1];
      assert line == p + [i];
      assert found.value.parent == [] + p == p;
      LineWithin(cells, t, p, i, depth, found.value.width);
    }
  }

  lemma {:induction false} LineWithin(cells: Cells, t: Tree, p: Position, i: nat, depth: nat, w: int)
    requires FoldedLine(cells, t, p + [i], depth, w)
    ensures Within(t, p)
    decreases |p|
  {
    if p != [] {
      assert (p + [i])[1..] == p[1..] + [i];
      LineWithin(cells, t.children[p[0]], p[1..], i, depth + 1, w);
    }
  }

  /**
    What the loop from child `from` on makes of `best`: only something strictly wider found here replaces it, and then
    it is the parent of `line`, the first line of that width.
    */
  ghost predicate Searched(cells: Cells, t: Tree, from: nat, depth: nat, best: Option<Found>, here: Position,
                           found: Option<Found>, line: Position) {
    && (best.Some? ==> found.Some? && best.value.width <= found.value.width)
    && (forall q, w :: FoldedLine(cells, t, q, depth, w) && from <= q[0] ==> found.Some? && w <= found.value.width)
    && (found != best ==>
          && found.Some? && (best.Some? ==> best.value.width < found.value.width)
          && FirstFrom(cells, t, from, line, depth, found.value.width)
          && found.value.parent == here + line[..|line| - 1])
  }

  lemma {:induction false} WidestFromIs(cells: Cells, t: Tree, from: nat, depth: nat, best: Option<Found>,
                                        here: Position) returns (line: Position)
    requires from <= |t.children|
    ensures Searched(cells, t, from, depth, best, here, WidestFrom(cells, t, from, depth, best, here), line)
    decreases t, |t.children| - from
  {
    line := [];
    if from < |t.children| {
      var k := t.children[from];
      var width := LabelWidth(cells, k, depth);
      var best1 := if Folded(k) && (best.None? || width > best.value.width) then Some(Found(width, here)) else best;
      var best2 := WidestFolded(cells, k, depth + 1, best1, here + [from]);
      var below := WidestFromIs(cells, k, 0, depth + 1, best1, here + [from]);
      var later := WidestFromIs(cells, t, from + 1, depth, best2, here);
      line := SearchedOn(cells, t, from, depth, best, best1, best2, here,
                         WidestFrom(cells, t, from + 1, depth, best2, here), below, later);
    }
  }

  lemma SearchedOn(cells: Cells, t: Tree, from: nat, depth: nat, best: Option<Found>, best1: Option<Found>,
                   best2: Option<Found>, here: Position, found: Option<Found>, below: Position, later: Position)
    returns (line: Position)
    requires from < |t.children|
    requires var k := t.children[from];
             var width := LabelWidth(cells, k, depth);
             && best1 == (if Folded(k) && (best.None? || width > best.value.width) then Some(Found(width, here))
                          else best)
             && Searched(cells, k, 0, depth + 1, best1, here + [from], best2, below)
    requires Searched(cells, t, from + 1, depth, best2, here, found, later)
    ensures Searched(cells, t, from, depth, best, here, found, line)
  {
    line := [];
    if found != best2 {
      line := later;
    } else if best2 != best1 {
      line := [from] + below;
      FirstBelow(cells, t, from, below, depth, best2.value.width);
      assert here + line[..|line| - 1] == (here + [from]) + below[..|below| - 1];
    } else if best1 != best {
      line := [from];
      assert here + line[..0] == here;
    }
  }

  /** The first of the folded lines of this width, counting from child `from` on. */
  ghost predicate FirstFrom(cells: Cells, t: Tree, from: nat, line: Position, depth: nat, w: int) {
    && FoldedLine(cells, t, line, depth, w) && from <= line[0]
    && forall q :: FoldedLine(cells, t, q, depth, w) && from <= q[0] ==> q == line || Precedes(line, q)
  }

  lemma FirstBelow(cells: Cells, t: Tree, from: nat, below: Position, depth: nat, w: int)
    requires from < |t.children| && FirstFrom(cells, t.children[from], 0, below, depth + 1, w)
    requires Folded(t.children[from]) ==> LabelWidth(cells, t.children[from], depth) < w
    ensures FirstFrom(cells, t, from, [from] + below, depth, w)
  {
    var line := [from] + below;
    assert line[1..] == below;
    forall q | FoldedLine(cells, t, q, depth, w) && from <= q[0]
      ensures q == line || Precedes(line, q)
    {
      if q[0] == from { assert q == [from] + q[1..]; }
    }
  }

  lemma {:induction false} WithinStep(t: Tree, p: Position, i: nat)
    requires Within(t, p) && i < |At(t, p).children|
    ensures Within(t, p + [i]) && At(t, p + [i]) == At(t, p).children[i]
    decreases |p|
  {
    if p == [] {
      assert p + [i] == [i];
    } else {
      WithinStep(t.children[p[0]], p[1..], i);
      assert (p + [i])[1..] == p[1..] + [i];
    }
  }

  // ---- splitting and un-splitting one sibling group -----------------------------------------------

  /** A new structural parent for the leading segment; the node keeps the rest of its name. */
  function Stem(k: Tree): Tree
    requires Folded(k)
  {
    Tree(Head(k.name), None, [k.(name := Tail(k.name))], k.totals)
  }

  /** The children dictionary rebuilt with the entry under `key` replaced by `k`. */
  function Rekeyed(kids: seq<Tree>, key: string, k: Tree): seq<Tree> {
    FromItems(Substituted(kids, key, k))
  }

  function Substituted(kids: seq<Tree>, key: string, k: Tree): (r: seq<Tree>)
    ensures |r| == |kids|
    ensures forall i :: 0 <= i < |kids| ==> r[i] == if kids[i].name == key then k else kids[i]
  {
    if kids == [] then [] else [if kids[0].name == key then k else kids[0]] + Substituted(kids[1..], key, k)
  }

  lemma RekeyedInPlace(kids: seq<Tree>, i: nat, k: Tree)
    requires i < |kids| && DistinctHeads(kids) && Head(k.name) == Head(kids[i].name)
    ensures Rekeyed(kids, kids[i].name, k) == kids[i := k]
    ensures DistinctHeads(kids[i := k])
  {
    assert Substituted(kids, kids[i].name, k) == kids[i := k];
    DistinctHeadsNames(kids[i := k]);
    FromItemsDistinct(kids[i := k]);
  }

  lemma StemHead(k: Tree)
    requires Folded(k)
    ensures Head(Stem(k).name) == Head(k.name) && !Folded(Stem(k))
  {
    HeadTail(k.name);
    SplitHead(Head(k.name));
  }

  /** From the `i`-th sibling on, every folded one is split, in dictionary order. */
  function SplitGroup(kids: seq<Tree>, i: nat): (r: seq<Tree>)
    requires DistinctHeads(kids) && i <= |kids|
    ensures |r| == |kids|
    ensures forall j :: 0 <= j < |kids| ==>
              r[j] == if i <= j && Folded(kids[j]) then Stem(kids[j]) else kids[j]
    decreases |kids| - i
  {
    if i == |kids| then kids
    else if Folded(kids[i]) then
      StemHead(kids[i]);
      RekeyedInPlace(kids, i, Stem(kids[i]));
      SplitGroup(Rekeyed(kids, kids[i].name, Stem(kids[i])), i + 1)
    else SplitGroup(kids, i + 1)
  }

  /** The node a stem was made from, with its segment put back. */
  function Rejoined(stem: Tree): Tree
    requires |stem.children| == 1
  {
    var k := stem.children[0];
    k.(name := stem.name + "/" + k.name)
  }

  lemma RejoinedStem(k: Tree)
    requires Folded(k)
    ensures Rejoined(Stem(k)) == k
  {
    HeadTail(k.name);
  }

  /** The siblings below `i` are split, the rest as they were in `orig`. */
  ghost predicate SplitBelow(kids: seq<Tree>, orig: seq<Tree>, i: nat) {
    && DistinctHeads(orig) && i <= |orig| == |kids|
    && forall j :: 0 <= j < |orig| ==> kids[j] == if j < i && Folded(orig[j]) then Stem(orig[j]) else orig[j]
  }

  function Unsplit(kids: seq<Tree>, stem: Tree): seq<Tree>
    requires |stem.children| == 1
  {
    Rekeyed(kids, stem.name, Rejoined(stem))
  }

  lemma UnsplitInPlace(kids: seq<Tree>, orig: seq<Tree>, i: nat)
    requires SplitBelow(kids, orig, i + 1) && Folded(orig[i])
    ensures |kids[i].children| == 1 && Unsplit(kids, kids[i]) == kids[i := orig[i]]
    ensures SplitBelow(kids[i := orig[i]], orig, i)
  {
    assert kids[i] == Stem(orig[i]);
    RejoinedStem(orig[i]);
    StemsDistinct(orig, kids);
    StemHead(orig[i]);
    RekeyedInPlace(kids, i, orig[i]);
  }

  /** Undoes the splits of `orig`'s folded siblings below `i`, last in, first out. */
  function UnsplitGroup(kids: seq<Tree>, orig: seq<Tree>, i: nat): (r: seq<Tree>)
    requires SplitBelow(kids, orig, i)
    ensures r == orig
    decreases i
  {
    if i == 0 then
      assert kids == orig;
      kids
    else if Folded(orig[i - 1]) then
      UnsplitInPlace(kids, orig, i - 1);
      UnsplitGroup(Unsplit(kids, kids[i - 1]), orig, i - 1)
    else UnsplitGroup(kids, orig, i - 1)
  }

  lemma StemsDistinct(orig: seq<Tree>, kids: seq<Tree>)
    requires DistinctHeads(orig) && |kids| == |orig|
    requires forall j :: 0 <= j < |orig| ==>
               kids[j] == orig[j] || (Folded(orig[j]) && kids[j] == Stem(orig[j]))
    ensures DistinctHeads(kids)
  {
    forall j | 0 <= j < |orig|
      ensures Head(kids[j].name) == Head(orig[j].name)
    {
      if Folded(orig[j]) { StemHead(orig[j]); }
    }
  }

  function Opened(t: Tree): Tree
    requires DistinctHeads(t.children)
  {
    t.(children := SplitGroup(t.children, 0))
  }

  // ---- expanding ----------------------------------------------------------------------------------

  lemma {:induction false} SettledAt(t: Tree, p: Position)
    requires Settled(t) && Within(t, p)
    ensures Settled(At(t, p))
    decreases |p|
  {
    if p != [] {
      assert SettledChild(t.children[p[0]]);
      SettledAt(t.children[p[0]], p[1..]);
    }
  }

  /** Split the widest folded line's group; put it back and report False if that widened the tree. */
  function Expand(cells: Cells, t: Tree): (r: (bool, Tree))
    requires Settled(t)
  {
    WidestIsWidest(cells, t, 1);
    var found := WidestFolded(cells, t, 1, None, []);
    if found.None? then (false, t)
    else
      var p := found.value.parent;
      SettledAt(t, p);
      var parent := At(t, p);
      var after := ReplaceAt(t, p, Opened(parent));
      if MaxLabelWidth(cells, after, 1) > MaxLabelWidth(cells, t, 1) then
        var kids := UnsplitGroup(SplitGroup(parent.children, 0), parent.children, |parent.children|);
        AtReplaced(t, p, Opened(parent));
        (false, ReplaceAt(after, p, parent.(children := kids)))
      else (true, after)
  }

  lemma {:induction false} AtReplaced(t: Tree, p: Position, n: Tree)
    requires Within(t, p)
    ensures Within(ReplaceAt(t, p, n), p) && At(ReplaceAt(t, p, n), p) == n
    ensures forall m :: ReplaceAt(ReplaceAt(t, p, n), p, m) == ReplaceAt(t, p, m)
    ensures ReplaceAt(t, p, At(t, p)) == t
    decreases |p|
  {
    if p != [] {
      AtReplaced(t.children[p[0]], p[1..], n);
      var k := ReplaceAt(t.children[p[0]], p[1..], n);
      assert t.children[p[0] := k][p[0]] == k;
      forall m
        ensures ReplaceAt(ReplaceAt(t, p, n), p, m) == ReplaceAt(t, p, m)
      {
        var k' := ReplaceAt(t.children[p[0]], p[1..], m);
        assert t.children[p[0] := k][p[0] := k'] == t.children[p[0] := k'];
      }
      assert t.children[p[0] := t.children[p[0]]] == t.children;
    }
  }

  /** Reporting False leaves the tree exactly as it was, children's order included. */
  lemma RefusalChangesNothing(cells: Cells, t: Tree)
    requires Settled(t) && !Expand(cells, t).0
    ensures Expand(cells, t).1 == t
  {
    WidestIsWidest(cells, t, 1);
    var found := WidestFolded(cells, t, 1, None, []);
    if found.Some? {
      SettledAt(t, found.value.parent);
      AtReplaced(t, found.value.parent, Opened(At(t, found.value.parent)));
    }
  }

  lemma {:induction false} OneComesFirst(a: Position, b: Position)
    ensures !(Precedes(a, b) && Precedes(b, a))
    decreases |a|
  {
    if a != [] && b != [] { OneComesFirst(a[1..], b[1..]); }
  }

  lemma OneFirstWidest(cells: Cells, t: Tree, a: Position, b: Position, depth: nat, v: int, w: int)
    requires FirstWidest(cells, t, a, depth, v) && FirstWidest(cells, t, b, depth, w)
    ensures a == b && v == w
  {
    OneComesFirst(a, b);
  }

  /** The search comes back with the parent of the first of the widest folded lines. */
  lemma FoundIsItsParent(cells: Cells, t: Tree, p: Position, i: nat, w: int)
    requires FirstWidest(cells, t, p + [i], 1, w)
    ensures var found := WidestFolded(cells, t, 1, None, []); found.Some? && found.value.parent == p && Within(t, p)
  {
    WidestIsWidest(cells, t, 1);
    var found := WidestFolded(cells, t, 1, None, []).value;
    var j: nat :| FirstWidest(cells, t, found.parent + [j], 1, found.width);
    OneFirstWidest(cells, t, p + [i], found.parent + [j], 1, w, found.width);
    assert p == (p + [i])[..|p|] && found.parent == (found.parent + [j])[..|found.parent|];
    assert |p + [i]| == |found.parent + [j]|;
  }

  /** The group opened is that of the first of the widest folded lines; it stays open unless that widens the tree. */
  lemma FirstWidestIsOpened(cells: Cells, t: Tree, p: Position, i: nat, w: int)
    requires Settled(t) && FirstWidest(cells, t, p + [i], 1, w)
    ensures Within(t, p) && Settled(At(t, p)) && DistinctHeads(At(t, p).children)
    ensures var t' := ReplaceAt(t, p, Opened(At(t, p)));
            Expand(cells, t)
            == if MaxLabelWidth(cells, t', 1) <= MaxLabelWidth(cells, t, 1) then (true, t') else (false, t)
  {
    FoundIsItsParent(cells, t, p, i, w);
    SettledAt(t, p);
    if !Expand(cells, t).0 { RefusalChangesNothing(cells, t); }
  }

  // ---- what a split keeps -------------------------------------------------------------------------

  /** All the separators left in the names below a node. */
  function SlashesIn(t: Tree): nat
    decreases t, 1
  {
    SlashesOf(t.children)
  }

  function SlashesOf(kids: seq<Tree>): nat
    decreases kids, 0
  {
    if kids == [] then 0 else Slashes(kids[0].name) + SlashesIn(kids[0]) + SlashesOf(kids[1..])
  }

  /** As far as its parent can tell, `n'` is `n`: same line, same rows under the same paths, same totals. */
  ghost predicate Equivalent(n: Tree, n': Tree) {
    && n'.name == n.name && n'.row == n.row && n'.totals == n.totals
    && (n'.children == [] <==> n.children == [])
    && Due(n') == Due(n) && (Exact(n) ==> Exact(n'))
    && forall at :: Entries(n', at) == Entries(n, at)
  }

  /** `kids'` is `kids` with some folded siblings split. */
  ghost predicate SomeSplit(kids: seq<Tree>, kids': seq<Tree>) {
    |kids'| == |kids| && forall j :: 0 <= j < |kids| ==>
      kids'[j] == kids[j] || (Folded(kids[j]) && kids'[j] == Stem(kids[j]))
  }

  lemma StemFits(k: Tree)
    requires SettledChild(k) && Folded(k)
    ensures SettledChild(Stem(k)) && AllSegments(Split(Tail(k.name)))
  {
    var inner := k.(name := Tail(k.name));
    HeadTail(k.name);
    assert k.name != SELF_ROW_NAME;
    assert Split(k.name)[0] == Head(k.name) && forall i :: 0 <= i < |Split(inner.name)| ==>
      Split(inner.name)[i] == Split(k.name)[i + 1];
    NotSelfRow(inner.name);
    SettledRename(k, inner.name);
    assert Split(Head(k.name)) == [Head(k.name)];
    assert SettledChild(inner);
  }

  lemma SettledRename(t: Tree, name: string)
    requires Settled(t)
    ensures Settled(t.(name := name))
  {
  }

  lemma StemEntries(k: Tree, at: Path)
    requires SettledChild(k) && Folded(k)
    ensures Entries(Stem(k), at + Steps(Stem(k).name)) == Entries(k, at + Steps(k.name))
  {
    var inner := k.(name := Tail(k.name));
    StemFits(k);
    HeadTail(k.name);
    NotSelfRow(k.name);
    NotSelfRow(Stem(k).name);
    assert SettledChild(Stem(k).children[0]);
    NotSelfRow(inner.name);
    Append3(at, [Head(k.name)], Split(inner.name));
    EntriesRename(k, inner.name, at + Split(k.name));
    EntriesOfOne(inner, at + [Head(k.name)]);
  }

  lemma DueOfOne(k: Tree)
    ensures DueOf([k]) == Due(k)
  {
    assert [k][1..] == [];
    PlusNothing(Due(k));
  }

  lemma PlusNothing(x: Subtree)
    ensures Plus(x, NOTHING) == x
  {
  }

  lemma DueOfHeading(t: Tree)
    requires t.row.None?
    ensures Due(t) == DueOf(t.children)
  {
  }

  lemma StemDue(k: Tree)
    requires Folded(k)
    ensures Due(Stem(k)) == Due(k)
  {
    DueOfHeading(Stem(k));
    DueRename(k, Tail(k.name));
    DueOfOne(k.(name := Tail(k.name)));
  }

  lemma StemExact(k: Tree)
    requires Folded(k) && Exact(k)
    ensures Exact(Stem(k))
  {
    StemDue(k);
    DueRename(k, Tail(k.name));
  }

  lemma StemSlashes(k: Tree)
    requires Folded(k)
    ensures Slashes(Stem(k).name) + SlashesIn(Stem(k)) + 1 == Slashes(k.name) + SlashesIn(k)
  {
    var inner := k.(name := Tail(k.name));
    HeadTail(k.name);
    EntriesRename(k, inner.name, []);
    assert [inner][1..] == [];
    assert SlashesOf([inner]) == Slashes(inner.name) + SlashesIn(inner) + SlashesOf([]);
  }

  lemma EntriesRename(t: Tree, name: string, at: Path)
    ensures Entries(t.(name := name), at) == Entries(t, at)
    ensures SlashesIn(t.(name := name)) == SlashesIn(t)
  {
  }

  lemma DueRename(t: Tree, name: string)
    ensures Due(t.(name := name)) == Due(t)
    ensures Exact(t) ==> Exact(t.(name := name))
  {
  }

  lemma {:induction false} SomeSplitRows(kids: seq<Tree>, kids': seq<Tree>, at: Path)
    requires SomeSplit(kids, kids') && forall j :: 0 <= j < |kids| ==> SettledChild(kids[j])
    ensures EntriesOf(kids', at) == EntriesOf(kids, at) && DueOf(kids') == DueOf(kids)
    ensures SlashesOf(kids') <= SlashesOf(kids)
    ensures kids' != kids ==> SlashesOf(kids') < SlashesOf(kids)
    decreases kids
  {
    if kids != [] {
      HeadSplitRows(kids[0], kids'[0], at);
      SomeSplitRows(kids[1..], kids'[1..], at);
      assert kids == [kids[0]] + kids[1..] && kids' == [kids'[0]] + kids'[1..];
    }
  }

  lemma HeadSplitRows(k: Tree, k': Tree, at: Path)
    requires SettledChild(k) && (k' == k || (Folded(k) && k' == Stem(k)))
    ensures Entries(k', at + Steps(k'.name)) == Entries(k, at + Steps(k.name)) && Due(k') == Due(k)
    ensures Slashes(k'.name) + SlashesIn(k') + (if k' == k then 0 else 1) == Slashes(k.name) + SlashesIn(k)
  {
    if k' != k {
      StemEntries(k, at);
      StemDue(k);
      StemSlashes(k);
    }
  }

  lemma OpenedFits(t: Tree)
    requires Settled(t)
    ensures Settled(Opened(t)) && (Exact(t) ==> forall j :: 0 <= j < |t.children| ==> Exact(Opened(t).children[j]))
  {
    var kids, kids' := t.children, SplitGroup(t.children, 0);
    StemsDistinct(kids, kids');
    forall j | 0 <= j < |kids|
      ensures SettledChild(kids'[j]) && (Exact(kids[j]) ==> Exact(kids'[j]))
    {
      assert SettledChild(kids[j]);
      if Folded(kids[j]) {
        StemFits(kids[j]);
        if Exact(kids[j]) { StemExact(kids[j]); }
      }
    }
  }

  /** Opening a group: the parent keeps its line, its rows and its totals, and loses separators. */
  lemma OpenedKeeps(t: Tree)
    requires Settled(t)
    ensures Settled(Opened(t)) && Equivalent(t, Opened(t))
    ensures (exists j :: 0 <= j < |t.children| && Folded(t.children[j])) ==> SlashesIn(Opened(t)) < SlashesIn(t)
  {
    var kids, kids' := t.children, SplitGroup(t.children, 0);
    OpenedFits(t);
    forall at
      ensures EntriesOf(kids', at) == EntriesOf(kids, at)
    {
      SomeSplitRows(kids, kids', at);
    }
    SomeSplitRows(kids, kids', []);
    FoldedIsSplit(t);
  }

  lemma FoldedIsSplit(t: Tree)
    requires DistinctHeads(t.children)
    ensures (exists j :: 0 <= j < |t.children| && Folded(t.children[j])) ==> Opened(t).children != t.children
  {
    var kids, kids' := t.children, SplitGroup(t.children, 0);
    if j :| 0 <= j < |kids| && Folded(kids[j]) {
      StemHead(kids[j]);
      assert kids'[j] != kids[j];
    }
  }

  lemma {:induction false} ReplaceKeeps(t: Tree, p: Position, n: Tree)
    requires Settled(t) && Within(t, p) && Settled(n) && Equivalent(At(t, p), n)
    ensures var t' := ReplaceAt(t, p, n);
            && Settled(t') && Equivalent(t, t')
            && SlashesIn(t') + SlashesIn(At(t, p)) == SlashesIn(t) + SlashesIn(n)
    decreases |p|
  {
    if p != [] {
      var k := t.children[p[0]];
      assert SettledChild(k);
      ReplaceKeeps(k, p[1..], n);
      ChildReplaced(t, p[0], ReplaceAt(k, p[1..], n));
    }
  }

  lemma ChildReplaced(t: Tree, i: nat, k': Tree)
    requires Settled(t) && i < |t.children| && Settled(k') && Equivalent(t.children[i], k')
    ensures var t' := t.(children := t.children[i := k']);
            && Settled(t') && Equivalent(t, t')
            && SlashesIn(t') + SlashesIn(t.children[i]) == SlashesIn(t) + SlashesIn(k')
  {
    var t' := t.(children := t.children[i := k']);
    assert SettledChild(t.children[i]);
    forall j | 0 <= j < |t'.children|
      ensures SettledChild(t'.children[j])
    {
      assert SettledChild(t.children[j]);
    }
    KidReplaced(t.children, i, k');
    forall at
      ensures EntriesOf(t'.children, at) == EntriesOf(t.children, at)
    {
      KidRowsReplaced(t.children, i, k', at);
    }
  }

  lemma KidRowsReplaced(kids: seq<Tree>, i: nat, k': Tree, at: Path)
    requires i < |kids| && Equivalent(kids[i], k')
    ensures EntriesOf(kids[i := k'], at) == EntriesOf(kids, at)
  {
    var kids' := kids[i := k'];
    EntriesOfAt(kids, i, at);
    EntriesOfAt(kids', i, at);
    assert kids'[..i] == kids[..i] && kids'[i + 1..] == kids[i + 1..];
  }

  lemma {:induction false} KidReplaced(kids: seq<Tree>, i: nat, k': Tree)
    requires i < |kids| && Equivalent(kids[i], k')
    ensures DueOf(kids[i := k']) == DueOf(kids)
    ensures SlashesOf(kids[i := k']) + SlashesIn(kids[i]) == SlashesOf(kids) + SlashesIn(k')
  {
    if i == 0 {
      assert kids[0 := k'][1..] == kids[1..];
    } else {
      assert kids[i := k'][1..] == kids[1..][i - 1 := k'];
      KidReplaced(kids[1..], i - 1, k');
    }
  }

  lemma {:induction false} FoldedLineChild(cells: Cells, t: Tree, p: Position, i: nat, depth: nat, w: int)
    requires Within(t, p) && FoldedLine(cells, t, p + [i], depth, w)
    ensures i < |At(t, p).children| && Folded(At(t, p).children[i])
    decreases |p|
  {
    if p != [] {
      assert (p + [i])[1..] == p[1..] + [i];
      FoldedLineChild(cells, t.children[p[0]], p[1..], i, depth + 1, w);
    }
  }

  /**
    Reporting True keeps every row under its path, every total exact and the width in bounds, and
    removes at least one separator, which is why the caller's loop ends.
    */
  lemma AcceptanceKeepsRows(cells: Cells, t: Tree)
    requires Settled(t) && Expand(cells, t).0
    ensures var t' := Expand(cells, t).1;
            && Settled(t') && Equivalent(t, t')
            && MaxLabelWidth(cells, t', 1) <= MaxLabelWidth(cells, t, 1)
            && SlashesIn(t') < SlashesIn(t)
  {
    WidestIsWidest(cells, t, 1);
    var found := WidestFolded(cells, t, 1, None, []).value;
    SettledAt(t, found.parent);
    var i: nat :| FoldedLine(cells, t, found.parent + [i], 1, found.width);
    FoldedLineChild(cells, t, found.parent, i, 1, found.width);
    OpenedKeeps(At(t, found.parent));
    ReplaceKeeps(t, found.parent, Opened(At(t, found.parent)));
  }
}
