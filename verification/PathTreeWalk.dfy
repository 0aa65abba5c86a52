/**
  Drawing the trie (agent_wrap/lib/path_tree.py, `walk_path_tree`): sibling order and glyphs, and that
  the drawn lines alone give every row back under its path.
  */
module PathTreeWalk {
  import opened Names
  import opened Totals
  import opened PathTree
  import opened Lex
  import opened Sorting

  // ---- sibling order ------------------------------------------------------------------------------

  function ByName(a: Tree, b: Tree): bool {
    LexLess(a.name, b.name)
  }

  function ByCountThenName(a: Tree, b: Tree): bool {
    a.totals.rowCount < b.totals.rowCount
    || (a.totals.rowCount == b.totals.rowCount && LexLess(a.name, b.name))
  }

  function Only(keep: Tree -> bool, kids: seq<Tree>): seq<Tree> {
    if kids == [] then []
    else (if keep(kids[0]) then [kids[0]] else []) + Only(keep, kids[1..])
  }

  predicate IsDot(k: Tree) {
    k.name == SELF_ROW_NAME
  }

  predicate IsLeaf(k: Tree) {
    !IsDot(k) && k.children == []
  }

  predicate IsHeading(k: Tree) {
    !IsDot(k) && k.children != []
  }

  /** The self-row, then leaves by name, then headings by row count, the bushiest last. */
  function Ordered(kids: seq<Tree>): seq<Tree> {
    Only(IsDot, kids) + Sorted(ByName, Only(IsLeaf, kids)) + Sorted(ByCountThenName, Only(IsHeading, kids))
  }

  lemma {:induction false} OnlyPartition(kids: seq<Tree>)
    ensures multiset(kids)
            == multiset(Only(IsDot, kids)) + multiset(Only(IsLeaf, kids)) + multiset(Only(IsHeading, kids))
  {
    if kids != [] {
      OnlyPartition(kids[1..]);
      assert kids == [kids[0]] + kids[1..];
    }
  }

  lemma OrderedPermutes(kids: seq<Tree>)
    ensures multiset(Ordered(kids)) == multiset(kids)
    ensures forall k :: k in Ordered(kids) ==> k in kids
  {
    OnlyPartition(kids);
    forall k | k in Ordered(kids)
      ensures k in kids
    {
      assert k in multiset(Ordered(kids));
    }
  }

  /** Where a line may stand: the self-row, then leaves by name, then headings by count and name. */
  predicate Before(a: Tree, b: Tree) {
    || (IsDot(a) && !IsDot(b))
    || (IsLeaf(a) && IsHeading(b))
    || (IsLeaf(a) && IsLeaf(b) && LexLess(a.name, b.name))
    || (IsHeading(a) && IsHeading(b)
        && (a.totals.rowCount < b.totals.rowCount
            || (a.totals.rowCount == b.totals.rowCount && LexLess(a.name, b.name))))
  }

  lemma NameOrders()
    ensures WeakOrder(ByName) && WeakOrder(ByCountThenName)
  {
    forall a: Tree, b: Tree
      ensures !(ByName(a, b) && ByName(b, a)) && !(ByCountThenName(a, b) && ByCountThenName(b, a))
    {
      LexTotal(a.name, b.name);
    }
    forall a: Tree, b: Tree, c: Tree
      ensures ByName(a, b) && !ByName(c, b) ==> ByName(a, c)
      ensures ByCountThenName(a, b) && !ByCountThenName(c, b) ==> ByCountThenName(a, c)
    {
      LexTotal(c.name, b.name);
      if LexLess(a.name, b.name) && LexLess(b.name, c.name) { LexTransitive(a.name, b.name, c.name); }
    }
  }

  lemma {:induction false} OnlyKept(keep: Tree -> bool, kids: seq<Tree>)
    ensures forall k :: k in Only(keep, kids) ==> keep(k)
  {
    if kids != [] { OnlyKept(keep, kids[1..]); }
  }

  /** No line is drawn after one that should follow it. */
  lemma OrderedInOrder(kids: seq<Tree>)
    ensures InOrder(Before, Ordered(kids)) && multiset(Ordered(kids)) == multiset(kids)
  {
    var dots, leaves, headings := Only(IsDot, kids), Only(IsLeaf, kids), Only(IsHeading, kids);
    NameOrders();
    OnlyKept(IsDot, kids);
    OnlyKept(IsLeaf, kids);
    OnlyKept(IsHeading, kids);
    SortedInOrder(ByName, leaves);
    SortedInOrder(ByCountThenName, headings);
    OrderedPermutes(kids);
    Blocks(dots, Sorted(ByName, leaves), Sorted(ByCountThenName, headings));
  }

  lemma Blocks(dots: seq<Tree>, leaves: seq<Tree>, headings: seq<Tree>)
    requires (forall k :: k in dots ==> IsDot(k)) && (forall k :: k in leaves ==> IsLeaf(k))
    requires forall k :: k in headings ==> IsHeading(k)
    requires InOrder(ByName, leaves) && InOrder(ByCountThenName, headings)
    ensures InOrder(Before, dots + leaves + headings)
  {
    var all := dots + leaves + headings;
    var d, l := |dots|, |dots| + |leaves|;
    forall i, j | 0 <= i < j < |all|
      ensures !Before(all[j], all[i])
    {
      if j < d {
        assert all[j] in dots && all[i] in dots;
      } else if j < l {
        assert all[j] == leaves[j - d] && all[j] in leaves;
        if i < d { assert all[i] in dots; } else { assert all[i] == leaves[i - d] && all[i] in leaves; }
      } else {
        assert all[j] == headings[j - l] && all[j] in headings;
        if i < d {
          assert all[i] in dots;
        } else if i < l {
          assert all[i] == leaves[i - d] && all[i] in leaves;
        } else {
          assert all[i] == headings[i - l] && all[i] in headings;
        }
      }
    }
  }

  // ---- lines --------------------------------------------------------------------------------------

  datatype Line = Line(text: string, prefixLen: nat, node: Tree)

  function Glyphs(continues: seq<bool>): (s: string)
    ensures |s| == |continues|
  {
    if continues == [] then ""
    else [if continues[0] then '│' else ' '] + Glyphs(continues[1..])
  }

  function Label(k: Tree, continues: seq<bool>, isLast: bool): string {
    Glyphs(continues) + (if isLast then "└" else "├") + k.name + (if k.children != [] then "/" else "")
  }

  function Walk(t: Tree, continues: seq<bool>): seq<Line>
    decreases t, |t.children| + 1
  {
    OrderedPermutes(t.children);
    assert |multiset(Ordered(t.children))| == |multiset(t.children)|;
    WalkKids(Ordered(t.children), t, continues)
  }

  function WalkKids(kids: seq<Tree>, t: Tree, continues: seq<bool>): seq<Line>
    requires forall k :: k in kids ==> k in t.children
    decreases t, |kids|
  {
    if kids == [] then []
    else
      assert kids[0] in kids && kids[0] in t.children;
      var k, isLast := kids[0], |kids| == 1;
      [Line(Label(k, continues, isLast), |continues| + 1, k)]
      + Below(k, continues + [!isLast])
      + WalkKids(kids[1..], t, continues)
  }

  function Below(k: Tree, continues: seq<bool>): seq<Line>
    decreases k, |k.children| + 2
  {
    if k.children != [] then Walk(k, continues) else []
  }

  // ---- what the glyphs say ------------------------------------------------------------------------

  /** A line at this depth follows, and none that is less deep before it. */
  ghost predicate GoesOn(later: seq<Line>, depth: nat) {
    exists j :: 0 <= j < |later| && later[j].prefixLen == depth
                && forall m :: 0 <= m < j ==> later[m].prefixLen > depth
  }

  predicate Deeper(later: seq<Line>, depth: nat) {
    later != [] && later[0].prefixLen > depth
  }

  /**
    A line as the lines below it want it drawn: it branches off a bar that goes on iff a sibling follows, under each
    group above a bar iff that group goes on, and its name ends in a slash iff what is below belongs to it.
    */
  ghost predicate Drawn(line: Line, later: seq<Line>) {
    && 0 < line.prefixLen <= |line.text|
    && line.text[line.prefixLen - 1] == (if GoesOn(later, line.prefixLen) then '├' else '└')
    && (forall d :: 0 <= d < line.prefixLen - 1 ==> line.text[d] == if GoesOn(later, d + 1) then '│' else ' ')
    && line.text[line.prefixLen..] == line.node.name + if Deeper(later, line.prefixLen) then "/" else ""
  }

  ghost predicate AllDrawn(lines: seq<Line>, after: seq<Line>)
    decreases lines
  {
    lines == [] || (Drawn(lines[0], lines[1..] + after) && AllDrawn(lines[1..], after))
  }

  lemma {:induction false} DrawnTogether(a: seq<Line>, b: seq<Line>, after: seq<Line>)
    requires AllDrawn(a, b + after) && AllDrawn(b, after)
    ensures AllDrawn(a + b, after)
    decreases a
  {
    if a == [] {
      assert a + b == b;
    } else {
      assert (a + b)[1..] == a[1..] + b;
      Append3(a[1..], b, after);
      DrawnTogether(a[1..], b, after);
    }
  }

  lemma {:induction false} DrawnAt(lines: seq<Line>, i: nat)
    requires AllDrawn(lines, []) && i < |lines|
    ensures Drawn(lines[i], lines[i + 1..])
    decreases lines
  {
    assert lines[1..] + [] == lines[1..];
    if i > 0 {
      DrawnAt(lines[1..], i - 1);
      assert lines[1..][i..] == lines[i + 1..];
    }
  }

  ghost predicate AllBelow(lines: seq<Line>, depth: nat) {
    forall l :: l in lines ==> l.prefixLen > depth
  }

  /** Whether a group goes on is decided behind the lines that are deeper than it. */
  lemma GoesOnBehind(lines: seq<Line>, after: seq<Line>, depth: nat)
    requires AllBelow(lines, depth)
    ensures GoesOn(lines + after, depth) <==> GoesOn(after, depth)
  {
    var all := lines + after;
    assert forall m :: 0 <= m < |lines| ==> all[m] == lines[m] && lines[m] in lines;
    assert forall m :: 0 <= m < |after| ==> all[m + |lines|] == after[m];
    if GoesOn(after, depth) {
      var j :| 0 <= j < |after| && after[j].prefixLen == depth
               && forall m :: 0 <= m < j ==> after[m].prefixLen > depth;
      assert all[j + |lines|].prefixLen == depth;
      assert forall m :: |lines| <= m < j + |lines| ==> all[m] == after[m - |lines|];
    }
    if GoesOn(all, depth) {
      var j :| 0 <= j < |all| && all[j].prefixLen == depth && forall m :: 0 <= m < j ==> all[m].prefixLen > depth;
      assert after[j - |lines|].prefixLen == depth;
    }
  }

  lemma {:induction false} GlyphAt(continues: seq<bool>, d: nat)
    requires d < |continues|
    ensures Glyphs(continues)[d] == if continues[d] then '│' else ' '
  {
    if d > 0 { GlyphAt(continues[1..], d - 1); }
  }

  lemma {:induction false} WalkIsBelow(t: Tree, continues: seq<bool>)
    ensures AllBelow(Walk(t, continues), |continues|)
    ensures t.children != [] ==> Walk(t, continues) != [] && Walk(t, continues)[0].prefixLen == |continues| + 1
    decreases t, |t.children| + 1
  {
    OrderedPermutes(t.children);
    assert |multiset(Ordered(t.children))| == |multiset(t.children)|;
    KidsAreBelow(Ordered(t.children), t, continues);
  }

  lemma {:induction false} KidsAreBelow(kids: seq<Tree>, t: Tree, continues: seq<bool>)
    requires forall k :: k in kids ==> k in t.children
    ensures var lines := WalkKids(kids, t, continues);
            && AllBelow(lines, |continues|) && (kids != [] ==> lines != [] && lines[0].prefixLen == |continues| + 1)
    decreases t, |kids|
  {
    if kids != [] {
      assert kids[0] in kids;
      if kids[0].children != [] { WalkIsBelow(kids[0], continues + [|kids| != 1]); }
      KidsAreBelow(kids[1..], t, continues);
    }
  }

  /** The lines behind a subtree: each group above goes on among them iff it was said to, and they start no deeper. */
  ghost predicate Follow(after: seq<Line>, continues: seq<bool>) {
    && (forall d :: 0 <= d < |continues| ==> (continues[d] <==> GoesOn(after, d + 1)))
    && !Deeper(after, |continues|)
  }

  lemma NothingAsDeep(after: seq<Line>, continues: seq<bool>, depth: nat)
    requires Follow(after, continues) && depth > |continues|
    ensures !GoesOn(after, depth)
  {
  }

  /** Behind the lines below a kid come those of its siblings, if it has any left, and then the ones after. */
  lemma SiblingsFollow(rest: seq<Line>, after: seq<Line>, continues: seq<bool>, goesOn: bool)
    requires Follow(after, continues) && AllBelow(rest, |continues|)
    requires goesOn <==> rest != []
    requires goesOn ==> rest[0].prefixLen == |continues| + 1
    ensures Follow(rest + after, continues + [goesOn])
  {
    var below, all := continues + [goesOn], rest + after;
    forall d | 0 <= d < |below|
      ensures below[d] <==> GoesOn(all, d + 1)
    {
      if d < |continues| {
        assert AllBelow(rest, d + 1) by { assert forall l :: l in rest ==> l.prefixLen > |continues|; }
        GoesOnBehind(rest, after, d + 1);
      } else if goesOn {
        assert all[0] == rest[0];
      } else {
        assert all == after;
        NothingAsDeep(after, continues, d + 1);
      }
    }
  }

  lemma OwnGlyphs(k: Tree, continues: seq<bool>, isLast: bool, below: seq<Line>, behind: seq<Line>)
    requires Follow(behind, continues + [!isLast]) && AllBelow(below, |continues| + 1)
    requires below != [] <==> k.children != []
    ensures Drawn(Line(Label(k, continues, isLast), |continues| + 1, k), below + behind)
  {
    var n := |continues|;
    var head := Glyphs(continues) + (if isLast then "└" else "├");
    var name := k.name + (if k.children != [] then "/" else "");
    assert Label(k, continues, isLast) == head + name;
    assert (head + name)[n + 1..] == name;
    GoOnBelow(continues, !isLast, below, behind);
    forall d | 0 <= d < n
      ensures (head + name)[d] == if GoesOn(below + behind, d + 1) then '│' else ' '
    {
      GlyphAt(continues, d);
    }
    assert Deeper(below + behind, n + 1) <==> below != [] by { if below != [] { assert below[0] in below; } }
  }

  lemma GoOnBelow(continues: seq<bool>, goesOn: bool, below: seq<Line>, behind: seq<Line>)
    requires Follow(behind, continues + [goesOn]) && AllBelow(below, |continues| + 1)
    ensures forall d :: 0 <= d < |continues| ==> (continues[d] <==> GoesOn(below + behind, d + 1))
    ensures goesOn <==> GoesOn(below + behind, |continues| + 1)
  {
    var all := continues + [goesOn];
    forall d | 0 <= d < |all|
      ensures all[d] <==> GoesOn(below + behind, d + 1)
    {
      assert AllBelow(below, d + 1) by { assert forall l :: l in below ==> l.prefixLen > |continues| + 1; }
      GoesOnBehind(below, behind, d + 1);
    }
    assert all[|continues|] == goesOn && forall d :: 0 <= d < |continues| ==> all[d] == continues[d];
  }

  lemma {:induction false} WalkDraws(t: Tree, continues: seq<bool>, after: seq<Line>)
    requires Follow(after, continues)
    ensures AllDrawn(Walk(t, continues), after)
    decreases t, |t.children| + 1
  {
    OrderedPermutes(t.children);
    assert |multiset(Ordered(t.children))| == |multiset(t.children)|;
    WalkKidsDraw(Ordered(t.children), t, continues, after);
  }

  lemma {:induction false} WalkKidsDraw(kids: seq<Tree>, t: Tree, continues: seq<bool>, after: seq<Line>)
    requires Follow(after, continues) && forall k :: k in kids ==> k in t.children
    ensures AllDrawn(WalkKids(kids, t, continues), after)
    decreases t, |kids|
  {
    if kids != [] {
      var k, isLast := kids[0], |kids| == 1;
      assert k in kids && k in t.children && forall j :: j in kids[1..] ==> j in kids;
      var own := Line(Label(k, continues, isLast), |continues| + 1, k);
      var below, rest := Below(k, continues + [!isLast]), WalkKids(kids[1..], t, continues);
      KidsAreBelow(kids[1..], t, continues);
      SiblingsFollow(rest, after, continues, !isLast);
      WalkKidsDraw(kids[1..], t, continues, after);
      if k.children != [] {
        WalkIsBelow(k, continues + [!isLast]);
        WalkDraws(k, continues + [!isLast], rest + after);
      }
      OwnGlyphs(k, continues, isLast, below, rest + after);
      DrawnFirst(own, below, rest, after);
    }
  }

  lemma DrawnFirst(own: Line, below: seq<Line>, rest: seq<Line>, after: seq<Line>)
    requires Drawn(own, below + (rest + after)) && AllDrawn(below, rest + after) && AllDrawn(rest, after)
    ensures AllDrawn([own] + below + rest, after)
  {
    DrawnTogether(below, rest, after);
    assert [own] + below + rest == [own] + (below + rest);
    assert ([own] + (below + rest))[1..] == below + rest;
    Append3(below, rest, after);
  }

  /** Of the list of lines alone: every glyph of every line is the one the lines below it call for. */
  lemma GlyphsAreRight(t: Tree)
    ensures forall i :: 0 <= i < |Walk(t, [])| ==> Drawn(Walk(t, [])[i], Walk(t, [])[i + 1..])
  {
    WalkDraws(t, [], []);
    forall i | 0 <= i < |Walk(t, [])|
      ensures Drawn(Walk(t, [])[i], Walk(t, [])[i + 1..])
    {
      DrawnAt(Walk(t, []), i);
    }
  }

  // ---- reading the lines back ---------------------------------------------------------------------

  /** The name a line shows: what follows the glyphs, a heading's slash aside. */
  function ShownName(line: Line): string {
    if line.prefixLen > |line.text| then ""
    else
      var text := line.text[line.prefixLen..];
      if text != "" && text[|text| - 1] == '/' then text[..|text| - 1] else text
  }

  /** `stack[d]` is the path of the heading last seen `d` levels down. */
  function Decode(lines: seq<Line>, stack: seq<Path>): seq<Entry> {
    if lines == [] then []
    else
      (if lines[0].node.row.Some? then [Entry(PathOf(lines[0], stack), lines[0].node.row.value)] else [])
      + Decode(lines[1..], Stacked(lines[0], stack))
  }

  function PathOf(line: Line, stack: seq<Path>): Path {
    if 0 < line.prefixLen <= |stack| then stack[line.prefixLen - 1] + Steps(ShownName(line)) else []
  }

  function Stacked(line: Line, stack: seq<Path>): seq<Path> {
    if line.prefixLen <= |stack| then stack[..line.prefixLen] + [PathOf(line, stack)] else stack
  }

  function StackAfter(lines: seq<Line>, stack: seq<Path>): seq<Path>
    decreases lines
  {
    if lines == [] then stack else StackAfter(lines[1..], Stacked(lines[0], stack))
  }

  lemma {:induction false} DecodeAppend(a: seq<Line>, b: seq<Line>, stack: seq<Path>)
    ensures Decode(a + b, stack) == Decode(a, stack) + Decode(b, StackAfter(a, stack))
    ensures StackAfter(a + b, stack) == StackAfter(b, StackAfter(a, stack))
    decreases a
  {
    if a == [] {
      assert a + b == b;
    } else {
      assert (a + b)[1..] == a[1..] + b;
      DecodeAppend(a[1..], b, Stacked(a[0], stack));
      var own := if a[0].node.row.Some? then [Entry(PathOf(a[0], stack), a[0].node.row.value)] else [];
      Append3(own, Decode(a[1..], Stacked(a[0], stack)), Decode(b, StackAfter(a, stack)));
    }
  }

  lemma {:induction false} NoTrailingSlash(name: string)
    requires name == SELF_ROW_NAME || AllSegments(Split(name))
    ensures name != "" && name[|name| - 1] != '/'
    decreases |name|
  {
    if name != SELF_ROW_NAME {
      if '/' in name {
        var tail := Tail(name);
        HeadTail(name);
        assert forall i :: 0 <= i < |Split(tail)| ==> Split(tail)[i] == Split(name)[i + 1];
        NoTrailingSlash(tail);
        assert name[|name| - 1] == tail[|tail| - 1];
      } else {
        assert IsSegment(Split(name)[0]);
      }
    }
  }

  lemma ShownNameIsName(k: Tree, continues: seq<bool>, isLast: bool)
    requires SettledChild(k)
    ensures ShownName(Line(Label(k, continues, isLast), |continues| + 1, k)) == k.name
  {
    NoTrailingSlash(k.name);
    var prefix := Glyphs(continues) + (if isLast then "└" else "├");
    var text := k.name + (if k.children != [] then "/" else "");
    assert Label(k, continues, isLast) == prefix + text;
    assert (prefix + text)[|prefix|..] == text;
    assert k.children != [] ==> text[..|text| - 1] == k.name;
  }

  lemma {:induction false} EntriesPermuted(a: seq<Tree>, b: seq<Tree>, at: Path)
    requires multiset(a) == multiset(b)
    ensures multiset(EntriesOf(a, at)) == multiset(EntriesOf(b, at))
    decreases |a|
  {
    if a == [] {
      assert |multiset(b)| == |multiset(a)|;
    } else {
      var i := Pluck(a, b);
      EntriesPermuted(a[1..], b[..i] + b[i + 1..], at);
      EntriesOfAt(b, i, at);
      EntriesOfAppend(b[..i], b[i + 1..], at);
    }
  }

  /** The two agree on the first `d` levels. */
  ghost predicate SameLevels(a: seq<Path>, b: seq<Path>, d: nat) {
    |a| >= d && |b| >= d && forall i :: 0 <= i < d ==> a[i] == b[i]
  }

  /**
    The lines of a subtree, read with its own path on the stack, give exactly its entries, and leave
    the levels above it as they were.
    */
  lemma {:induction false} WalkDecodes(t: Tree, continues: seq<bool>, stack: seq<Path>)
    requires Settled(t) && |stack| > |continues|
    ensures var lines := Walk(t, continues);
            && multiset(Decode(lines, stack)) == multiset(EntriesOf(t.children, stack[|continues|]))
            && SameLevels(StackAfter(lines, stack), stack, |continues| + 1)
    decreases t, |t.children| + 1
  {
    OrderedPermutes(t.children);
    assert |multiset(Ordered(t.children))| == |multiset(t.children)|;
    WalkKidsDecodes(Ordered(t.children), t, continues, stack);
    EntriesPermuted(Ordered(t.children), t.children, stack[|continues|]);
  }

  lemma {:induction false} WalkKidsDecodes(kids: seq<Tree>, t: Tree, continues: seq<bool>, stack: seq<Path>)
    requires Settled(t) && (forall k :: k in kids ==> k in t.children) && |stack| > |continues|
    ensures var lines := WalkKids(kids, t, continues);
            && multiset(Decode(lines, stack)) == multiset(EntriesOf(kids, stack[|continues|]))
            && SameLevels(StackAfter(lines, stack), stack, |continues| + 1)
    decreases t, |kids|
  {
    if kids != [] {
      var k, isLast := kids[0], |kids| == 1;
      assert k in kids && k in t.children;
      assert SettledChild(k);
      var own := Line(Label(k, continues, isLast), |continues| + 1, k);
      var below, rest := Below(k, continues + [!isLast]), WalkKids(kids[1..], t, continues);
      var stack1 := Stacked(own, stack);
      OwnLine(k, continues, isLast, stack);
      BelowDecodes(k, continues + [!isLast], stack1);
      var stack2 := StackAfter(below, stack1);
      assert forall j :: j in kids[1..] ==> j in kids;
      WalkKidsDecodes(kids[1..], t, continues, stack2);
      DecodeParts(own, below, rest, stack);
      KidParts(k, kids[1..], stack[|continues|], Decode(below, stack1), Decode(rest, stack2),
               Decode(WalkKids(kids, t, continues), stack));
    }
  }

  lemma {:induction false} BelowDecodes(k: Tree, continues: seq<bool>, stack: seq<Path>)
    requires Settled(k) && |stack| > |continues|
    ensures var lines := Below(k, continues);
            && multiset(Decode(lines, stack)) == multiset(EntriesOf(k.children, stack[|continues|]))
            && SameLevels(StackAfter(lines, stack), stack, |continues|)
    decreases k, |k.children| + 2
  {
    if k.children != [] { WalkDecodes(k, continues, stack); }
  }

  /** What a line itself pushes: its own path, one level below its parent's. */
  lemma OwnLine(k: Tree, continues: seq<bool>, isLast: bool, stack: seq<Path>)
    requires SettledChild(k) && |stack| > |continues|
    ensures var own := Line(Label(k, continues, isLast), |continues| + 1, k);
            && PathOf(own, stack) == stack[|continues|] + Steps(k.name)
            && Stacked(own, stack) == stack[..|continues| + 1] + [stack[|continues|] + Steps(k.name)]
            && SameLevels(Stacked(own, stack), stack, |continues| + 1)
  {
    ShownNameIsName(k, continues, isLast);
  }

  lemma DecodeParts(own: Line, below: seq<Line>, rest: seq<Line>, stack: seq<Path>)
    ensures var stack1 := Stacked(own, stack);
            && Decode([own] + below + rest, stack)
               == (if own.node.row.Some? then [Entry(PathOf(own, stack), own.node.row.value)] else [])
                  + Decode(below, stack1) + Decode(rest, StackAfter(below, stack1))
            && StackAfter([own] + below + rest, stack) == StackAfter(rest, StackAfter(below, stack1))
  {
    assert [own] + below + rest == [own] + (below + rest);
    assert ([own] + (below + rest))[1..] == below + rest;
    DecodeAppend(below, rest, Stacked(own, stack));
  }

  lemma KidParts(k: Tree, others: seq<Tree>, at: Path, below: seq<Entry>, rest: seq<Entry>, all: seq<Entry>)
    requires SettledChild(k)
    requires multiset(below) == multiset(EntriesOf(k.children, at + Steps(k.name)))
    requires multiset(rest) == multiset(EntriesOf(others, at))
    requires all == (if k.row.Some? then [Entry(at + Steps(k.name), k.row.value)] else []) + below + rest
    ensures multiset(all) == multiset(EntriesOf([k] + others, at))
  {
    assert ([k] + others)[1..] == others;
  }
}
