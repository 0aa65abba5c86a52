/**
  The stats tree from rows to lines: what `build_project_tree`, any number of expansions and
  `walk_path_tree` put in front of the reader.
  */
module PathTreeShown {
  import opened Totals
  import opened PathTree
  import opened PathTotals
  import opened PathTreeExpand
  import opened PathTreeWalk

  // ---- passes that only fill in totals ------------------------------------------------------------

  /** The same tree, totals aside. */
  ghost predicate SameLines(t: Tree, t': Tree)
    decreases t
  {
    t'.name == t.name && t'.row == t.row && |t'.children| == |t.children|
    && forall i :: 0 <= i < |t.children| ==> SameLines(t.children[i], t'.children[i])
  }

  lemma {:induction false} SameLinesSettled(t: Tree, t': Tree)
    requires Settled(t) && SameLines(t, t')
    ensures Settled(t')
  {
    forall i | 0 <= i < |t'.children|
      ensures SettledChild(t'.children[i])
    {
      assert SettledChild(t.children[i]);
      SameLinesSettled(t.children[i], t'.children[i]);
    }
  }

  lemma {:induction false} SameLinesEntries(t: Tree, t': Tree, at: Path)
    requires SameLines(t, t')
    ensures Entries(t', at) == Entries(t, at)
    decreases t, 0
  {
    SameLinesEntriesOf(t.children, t'.children, at);
  }

  lemma {:induction false} SameLinesEntriesOf(kids: seq<Tree>, kids': seq<Tree>, at: Path)
    requires |kids| == |kids'| && forall i :: 0 <= i < |kids| ==> SameLines(kids[i], kids'[i])
    ensures EntriesOf(kids', at) == EntriesOf(kids, at)
    decreases kids, 1
  {
    if kids != [] {
      SameLinesEntries(kids[0], kids'[0], at + Steps(kids[0].name));
      SameLinesEntriesOf(kids[1..], kids'[1..], at);
    }
  }

  lemma {:induction false} CountKeepsLines(t: Tree)
    ensures SameLines(t, CountRows(t))
    decreases t, 0
  {
    CountEachKeepsLines(t.children);
  }

  lemma {:induction false} CountEachKeepsLines(kids: seq<Tree>)
    ensures forall i :: 0 <= i < |kids| ==> SameLines(kids[i], CountEach(kids)[i])
    decreases kids, 1
  {
    if kids != [] {
      CountKeepsLines(kids[0]);
      CountEachKeepsLines(kids[1..]);
    }
  }

  lemma {:induction false} AggregateKeepsLines(t: Tree)
    ensures SameLines(t, Aggregate(t))
    decreases t, 0
  {
    AggregateEachKeepsLines(t.children);
  }

  lemma {:induction false} AggregateEachKeepsLines(kids: seq<Tree>)
    ensures forall i :: 0 <= i < |kids| ==> SameLines(kids[i], AggregateEach(kids)[i])
    decreases kids, 1
  {
    if kids != [] {
      AggregateKeepsLines(kids[0]);
      AggregateEachKeepsLines(kids[1..]);
    }
  }

  // ---- passes that leave totals alone -------------------------------------------------------------

  ghost predicate AllUntouched(kids: seq<Tree>) {
    forall i :: 0 <= i < |kids| ==> Untouched(kids[i])
  }

  lemma {:induction false} InsertUntouched(t: Tree, path: Path, row: ProjectRow)
    requires Untouched(t)
    ensures Untouched(Insert(t, path, row))
    decreases |path|
  {
    if path != [] {
      var i := IndexOf(t.children, path[0]);
      InsertUntouched(if i < |t.children| then t.children[i] else NewNode(path[0]), path[1..], row);
    }
  }

  lemma {:induction false} InsertAllUntouched(rows: seq<Entry>)
    ensures Untouched(InsertAll(NewNode(ROOT_NAME), rows))
  {
    if rows != [] {
      var n := |rows| - 1;
      InsertAllUntouched(rows[..n]);
      InsertUntouched(InsertAll(NewNode(ROOT_NAME), rows[..n]), rows[n].path, rows[n].row);
    }
  }

  lemma {:induction false} PutUntouched(kids: seq<Tree>, k: Tree)
    requires AllUntouched(kids) && Untouched(k)
    ensures AllUntouched(Put(kids, k))
  {
    if kids != [] && kids[0].name != k.name { PutUntouched(kids[1..], k); }
  }

  lemma {:induction false} FromItemsUntouched(items: seq<Tree>)
    requires AllUntouched(items)
    ensures AllUntouched(FromItems(items))
  {
    if items != [] {
      FromItemsUntouched(items[..|items| - 1]);
      PutUntouched(FromItems(items[..|items| - 1]), items[|items| - 1]);
    }
  }

  lemma {:induction false} FoldChainUntouched(t: Tree, name: string)
    requires Untouched(t)
    ensures Untouched(FoldChain(t, name))
  {
    if Foldable(t) { FoldChainUntouched(t.children[0], name + "/" + t.children[0].name); }
  }

  lemma {:induction false} CompressUntouched(t: Tree)
    requires Untouched(t)
    ensures Untouched(Compress(t))
    decreases t, 0
  {
    CompressEachUntouched(t.children);
    FromItemsUntouched(CompressEach(t.children));
  }

  lemma {:induction false} CompressEachUntouched(kids: seq<Tree>)
    requires AllUntouched(kids)
    ensures AllUntouched(CompressEach(kids))
    decreases kids, 1
  {
    if kids != [] {
      CompressUntouched(kids[0]);
      FoldChainUntouched(Compress(kids[0]), Compress(kids[0]).name);
      CompressEachUntouched(kids[1..]);
    }
  }

  lemma {:induction false} SplitUntouched(t: Tree)
    requires Untouched(t)
    ensures Untouched(SplitSelfRows(t))
    decreases t, 0
  {
    SplitEachUntouched(t.children);
    if t.row.Some? { FromItemsUntouched([SelfRow(t.row.value)] + SplitEach(t.children)); }
  }

  lemma {:induction false} SplitEachUntouched(kids: seq<Tree>)
    requires AllUntouched(kids)
    ensures AllUntouched(SplitEach(kids))
    decreases kids, 1
  {
    if kids != [] {
      SplitUntouched(kids[0]);
      SplitEachUntouched(kids[1..]);
    }
  }

  // ---- the built tree -----------------------------------------------------------------------------

  /**
    `build_project_tree` on distinct paths: a settled tree holding exactly the given rows, each under its
    own path, with every node's totals the sum over the rows below it.
    */
  lemma BuiltTreeHoldsRows(rows: seq<Entry>)
    requires RealPaths(rows) && DistinctPaths(rows)
    ensures var t := Aggregate(Build(rows));
            Settled(t) && Exact(t) && t.row.None? && multiset(Entries(t, [])) == multiset(rows)
  {
    var raw := InsertAll(NewNode(ROOT_NAME), rows);
    InsertAllEntries(rows);
    InsertAllLookup(rows, ["a"]);
    RawIsPlain(raw);
    CompressKeeps(raw, []);
    SplitKeeps(Compress(raw), []);
    var split := SplitSelfRows(Compress(raw));
    CountKeepsLines(split);
    AggregateKeepsLines(CountRows(split));
    SameLinesSettled(split, CountRows(split));
    SameLinesSettled(CountRows(split), Aggregate(CountRows(split)));
    SameLinesEntries(split, CountRows(split), []);
    SameLinesEntries(CountRows(split), Aggregate(CountRows(split)), []);
    InsertAllUntouched(rows);
    CompressUntouched(raw);
    SplitUntouched(Compress(raw));
    CountIsExact(split);
    AggregateIsExact(CountRows(split));
  }

  lemma {:induction false} SumOfEntries(entries: seq<Entry>)
    ensures Sum(RowsIn(entries)) == Fold(Plus, NOTHING, (e: Entry) => OfRow(e.row), entries)
  {
    if entries != [] {
      SumOfEntries(entries[1..]);
      assert RowsIn(entries)[1..] == RowsIn(entries[1..]);
    }
  }

  /** The total line is the sum over all rows, in whatever order they were given. */
  lemma RootTotalIsSum(t: Tree, rows: seq<Entry>)
    requires Exact(t) && multiset(Entries(t, [])) == multiset(rows)
    ensures t.totals == Sum(RowsIn(rows)) && AddsUp(t.totals, RowsIn(rows))
  {
    SumAddsUp(RowsIn(rows));
    RowsAreEntries(t, []);
    DueIsSum(t);
    SumOfEntries(Entries(t, []));
    SumOfEntries(rows);
    PlusMonoid();
    FoldPermuted(Plus, NOTHING, (e: Entry) => OfRow(e.row), Entries(t, []), rows);
  }

  // ---- any number of expansions -------------------------------------------------------------------

  /** `n` calls of `expand_widest_chain`, whatever they report. */
  function Expanded(cells: Cells, t: Tree, n: nat): (r: Tree)
    requires Settled(t)
    ensures Settled(r)
    decreases n
  {
    if n == 0 then t
    else
      var (grown, t') := Expand(cells, t);
      ExpandKeeps(cells, t);
      Expanded(cells, t', n - 1)
  }

  lemma ExpandKeeps(cells: Cells, t: Tree)
    requires Settled(t)
    ensures var t' := Expand(cells, t).1;
            && Settled(t') && Equivalent(t, t') && SlashesIn(t') <= SlashesIn(t)
            && MaxLabelWidth(cells, t', 1) <= MaxLabelWidth(cells, t, 1)
  {
    if Expand(cells, t).0 { AcceptanceKeepsRows(cells, t); } else { RefusalChangesNothing(cells, t); }
  }

  lemma {:induction false} ExpandedKeeps(cells: Cells, t: Tree, n: nat)
    requires Settled(t)
    ensures var t' := Expanded(cells, t, n);
            && Equivalent(t, t') && SlashesIn(t') <= SlashesIn(t)
            && MaxLabelWidth(cells, t', 1) <= MaxLabelWidth(cells, t, 1)
    decreases n
  {
    if n > 0 {
      ExpandKeeps(cells, t);
      ExpandedKeeps(cells, Expand(cells, t).1, n - 1);
    }
  }

  /** One more call than there are separators must be refused: the fit loop ends. */
  lemma {:induction false} ExpansionsRunOut(cells: Cells, t: Tree, n: nat)
    requires Settled(t) && n >= SlashesIn(t)
    ensures !Expand(cells, Expanded(cells, t, n)).0
    decreases n
  {
    ExpandKeeps(cells, t);
    if Expand(cells, t).0 {
      AcceptanceKeepsRows(cells, t);
      ExpansionsRunOut(cells, Expand(cells, t).1, n - 1);
    } else {
      RefusalChangesNothing(cells, t);
      if n > 0 { StaysRefused(cells, t, n); }
    }
  }

  lemma {:induction false} StaysRefused(cells: Cells, t: Tree, n: nat)
    requires Settled(t) && !Expand(cells, t).0
    ensures Expanded(cells, t, n) == t
    decreases n
  {
    RefusalChangesNothing(cells, t);
    if n > 0 { StaysRefused(cells, t, n - 1); }
  }

  /**
    From rows to lines and back: however often the tree is expanded, its drawn lines alone yield exactly
    the given rows under their own paths, each once; totals stay exact; the tree never gets wider.
    */
  lemma ShownLinesAreTheRows(cells: Cells, rows: seq<Entry>, n: nat)
    requires RealPaths(rows) && DistinctPaths(rows)
    ensures var t0 := Aggregate(Build(rows));
            Settled(t0)
            && var t := Expanded(cells, t0, n);
            && multiset(Decode(Walk(t, []), [[]])) == multiset(rows)
            && Exact(t) && t.totals == Sum(RowsIn(rows))
            && MaxLabelWidth(cells, t, 1) <= MaxLabelWidth(cells, t0, 1)
  {
    BuiltTreeHoldsRows(rows);
    var t0 := Aggregate(Build(rows));
    var t := Expanded(cells, t0, n);
    ExpandedKeeps(cells, t0, n);
    assert Entries(t, []) == Entries(t0, []);
    RootTotalIsSum(t, rows);
    WalkDecodes(t, [], [[]]);
    var top: seq<Path> := [[]];
    assert top[0] == [];
  }

  // ---- the measure is the walk's ------------------------------------------------------------------

  function LineWidth(cells: Cells, line: Line): int {
    line.prefixLen + cells(line.node.name) + if line.node.children != [] then 1 else 0
  }

  function WidestLine(cells: Cells, lines: seq<Line>): (w: int)
    ensures w >= 0 && forall i :: 0 <= i < |lines| ==> LineWidth(cells, lines[i]) <= w
    ensures w > 0 ==> exists i :: 0 <= i < |lines| && LineWidth(cells, lines[i]) == w
  {
    if lines == [] then 0
    else
      var rest := WidestLine(cells, lines[1..]);
      assert rest > 0 ==> exists i :: 0 < i < |lines| && LineWidth(cells, lines[i]) == rest by {
        if rest > 0 {
          var i :| 0 <= i < |lines[1..]| && LineWidth(cells, lines[1..][i]) == rest;
          assert lines[i + 1] == lines[1..][i];
        }
      }
      Max(LineWidth(cells, lines[0]), rest)
  }

  lemma {:induction false} WidestAppend(cells: Cells, a: seq<Line>, b: seq<Line>)
    ensures WidestLine(cells, a + b) == Max(WidestLine(cells, a), WidestLine(cells, b))
  {
    if a == [] {
      assert a + b == b;
    } else {
      assert (a + b)[1..] == a[1..] + b;
      WidestAppend(cells, a[1..], b);
    }
  }

  lemma {:induction false} WidthAppend(cells: Cells, a: seq<Tree>, b: seq<Tree>, depth: nat)
    ensures MaxWidthOf(cells, a + b, depth) == Max(MaxWidthOf(cells, a, depth), MaxWidthOf(cells, b, depth))
  {
    if a == [] {
      assert a + b == b;
    } else {
      assert (a + b)[1..] == a[1..] + b;
      WidthAppend(cells, a[1..], b, depth);
    }
  }

  lemma {:induction false} WidthPermuted(cells: Cells, a: seq<Tree>, b: seq<Tree>, depth: nat)
    requires multiset(a) == multiset(b)
    ensures MaxWidthOf(cells, a, depth) == MaxWidthOf(cells, b, depth)
    decreases |a|
  {
    if a == [] {
      assert |multiset(b)| == |multiset(a)|;
    } else {
      var i := Pluck(a, b);
      WidthPermuted(cells, a[1..], b[..i] + b[i + 1..], depth);
      WidthAppend(cells, b[..i], b[i + 1..], depth);
      WidthAppend(cells, b[..i], [a[0]] + b[i + 1..], depth);
    }
  }

  /** The width computed from depth is the width of the widest line the walk draws. */
  lemma {:induction false} MeasureIsWidestLine(cells: Cells, t: Tree, continues: seq<bool>)
    ensures WidestLine(cells, Walk(t, continues)) == MaxLabelWidth(cells, t, |continues| + 1)
    decreases t, |t.children| + 1
  {
    OrderedPermutes(t.children);
    assert |multiset(Ordered(t.children))| == |multiset(t.children)|;
    MeasureOfKids(cells, Ordered(t.children), t, continues);
    WidthPermuted(cells, Ordered(t.children), t.children, |continues| + 1);
  }

  lemma {:induction false} MeasureOfKids(cells: Cells, kids: seq<Tree>, t: Tree, continues: seq<bool>)
    requires forall k :: k in kids ==> k in t.children
    ensures WidestLine(cells, WalkKids(kids, t, continues)) == MaxWidthOf(cells, kids, |continues| + 1)
    decreases t, |kids|
  {
    if kids != [] {
      var k, isLast := kids[0], |kids| == 1;
      assert k in kids && k in t.children;
      MeasureBelow(cells, k, t, continues + [!isLast]);
      assert forall j :: j in kids[1..] ==> j in kids;
      MeasureOfKids(cells, kids[1..], t, continues);
      var own := Line(Label(k, continues, isLast), |continues| + 1, k);
      WidestParts(cells, own, Below(k, continues + [!isLast]), WalkKids(kids[1..], t, continues));
      assert LineWidth(cells, own) == LabelWidth(cells, k, |continues| + 1);
    }
  }

  lemma {:induction false} MeasureBelow(cells: Cells, k: Tree, t: Tree, continues: seq<bool>)
    requires k in t.children
    ensures WidestLine(cells, Below(k, continues)) == MaxLabelWidth(cells, k, |continues| + 1)
    decreases t, 0
  {
    if k.children != [] { MeasureIsWidestLine(cells, k, continues); }
  }

  lemma WidestParts(cells: Cells, own: Line, below: seq<Line>, rest: seq<Line>)
    ensures WidestLine(cells, [own] + below + rest)
            == Max(Max(LineWidth(cells, own), WidestLine(cells, below)), WidestLine(cells, rest))
  {
    WidestAppend(cells, [own] + below, rest);
    WidestAppend(cells, [own], below);
    assert [own][1..] == [];
  }
}
