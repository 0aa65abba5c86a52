/**
  The path trie as values (agent_wrap/lib/path_tree.py): built from rows, folded, its self-rows
  split off. A node's children are an insertion-ordered dictionary keyed by their names; the
  sequence of nodes is that dictionary, and Put is its item assignment.
  */
module PathTree {
  import opened Names
  import opened Totals

  const ROOT_NAME := "/"

  type Path = seq<string>

  datatype Tree = Tree(name: string, row: Option<ProjectRow>, children: seq<Tree>, totals: Subtree)

  datatype Entry = Entry(path: Path, row: ProjectRow)

  function NewNode(name: string): Tree {
    Tree(name, None, [], NOTHING)
  }

  // ---- the dictionary of children -----------------------------------------------------------------

  function Put(kids: seq<Tree>, k: Tree): seq<Tree> {
    if kids == [] then [k]
    else if kids[0].name == k.name then [k] + kids[1..]
    else [kids[0]] + Put(kids[1..], k)
  }

  /** A dictionary built by assigning the items in turn. */
  function FromItems(items: seq<Tree>): seq<Tree> {
    if items == [] then []
    else Put(FromItems(items[..|items| - 1]), items[|items| - 1])
  }

  predicate HasName(kids: seq<Tree>, name: string) {
    exists i :: 0 <= i < |kids| && kids[i].name == name
  }

  ghost predicate DistinctNames(kids: seq<Tree>) {
    forall i, j :: 0 <= i < j < |kids| ==> kids[i].name != kids[j].name
  }

  lemma {:induction false} PutNew(kids: seq<Tree>, k: Tree)
    requires !HasName(kids, k.name)
    ensures Put(kids, k) == kids + [k]
  {
    if kids != [] {
      assert kids[0].name != k.name;
      assert forall i :: 0 <= i < |kids[1..]| ==> kids[1..][i] == kids[i + 1];
      PutNew(kids[1..], k);
      assert kids == [kids[0]] + kids[1..];
    }
  }

  /** With distinct keys a dictionary holds its items, in order; nothing is overwritten. */
  lemma {:induction false} FromItemsDistinct(items: seq<Tree>)
    requires DistinctNames(items)
    ensures FromItems(items) == items
  {
    if items != [] {
      var init := items[..|items| - 1];
      FromItemsDistinct(init);
      PutNew(init, items[|items| - 1]);
    }
  }

  // ---- the rows below a node ----------------------------------------------------------------------

  /** The segments a child adds to its parent's path: a self-row stands for the parent itself. */
  function Steps(name: string): Path {
    if name == SELF_ROW_NAME then [] else Split(name)
  }

  /** Every row at and below `t`, with its full path, in tree order. */
  function Entries(t: Tree, at: Path): seq<Entry> {
    (if t.row.Some? then [Entry(at, t.row.value)] else []) + EntriesOf(t.children, at)
  }

  function EntriesOf(kids: seq<Tree>, at: Path): seq<Entry> {
    if kids == [] then []
    else Entries(kids[0], at + Steps(kids[0].name)) + EntriesOf(kids[1..], at)
  }

  lemma {:induction false} EntriesOfAppend(a: seq<Tree>, b: seq<Tree>, at: Path)
    ensures EntriesOf(a + b, at) == EntriesOf(a, at) + EntriesOf(b, at)
  {
    if a == [] {
      assert a + b == b;
    } else {
      assert (a + b)[1..] == a[1..] + b;
      EntriesOfAppend(a[1..], b, at);
      Append3(Entries(a[0], at + Steps(a[0].name)), EntriesOf(a[1..], at), EntriesOf(b, at));
    }
  }

  // ---- building -----------------------------------------------------------------------------------

  function IndexOf(kids: seq<Tree>, name: string): (i: nat)
    ensures i <= |kids|
    ensures i < |kids| ==> kids[i].name == name
    ensures i == |kids| <==> !HasName(kids, name)
    ensures forall j :: 0 <= j < i ==> kids[j].name != name
  {
    if kids == [] then 0
    else if kids[0].name == name then 0
    else
      var i := IndexOf(kids[1..], name);
      assert HasName(kids, name) ==> HasName(kids[1..], name);
      i + 1
  }

  /** Walks down one segment at a time, creating what is missing, and sets the row at the end. */
  function Insert(t: Tree, path: Path, row: ProjectRow): Tree
    decreases |path|
  {
    if path == [] then t.(row := Some(row))
    else
      var i := IndexOf(t.children, path[0]);
      if i < |t.children| then
        t.(children := t.children[i := Insert(t.children[i], path[1..], row)])
      else
        t.(children := t.children + [Insert(NewNode(path[0]), path[1..], row)])
  }

  function InsertAll(t: Tree, rows: seq<Entry>): Tree {
    if rows == [] then t
    else
      var t' := InsertAll(t, rows[..|rows| - 1]);
      var last := rows[|rows| - 1];
      if last.path == [] then t' else Insert(t', last.path, last.row)
  }

  // ---- folding single-child chains ----------------------------------------------------------------

  predicate Foldable(t: Tree) {
    t.row.None? && |t.children| == 1
  }

  /** The fold loop: `t`, standing under the name `name`, absorbed into its only child while it has one. */
  function FoldChain(t: Tree, name: string): Tree {
    if Foldable(t) then FoldChain(t.children[0], name + "/" + t.children[0].name)
    else t.(name := name)
  }

  function Compress(t: Tree): Tree {
    t.(children := FromItems(CompressEach(t.children)))
  }

  function CompressEach(kids: seq<Tree>): (r: seq<Tree>)
    ensures |r| == |kids|
  {
    if kids == [] then []
    else
      var k := Compress(kids[0]);
      [FoldChain(k, k.name)] + CompressEach(kids[1..])
  }

  // ---- splitting self-rows off --------------------------------------------------------------------

  function SelfRow(row: ProjectRow): Tree {
    NewNode(SELF_ROW_NAME).(row := Some(row))
  }

  function SplitSelfRows(t: Tree): Tree {
    var kids := SplitEach(t.children);
    if t.row.Some? && kids != [] then
      t.(row := None, children := FromItems([SelfRow(t.row.value)] + kids))
    else t.(children := kids)
  }

  function SplitEach(kids: seq<Tree>): (r: seq<Tree>)
    ensures |r| == |kids|
  {
    if kids == [] then [] else [SplitSelfRows(kids[0])] + SplitEach(kids[1..])
  }

  // ---- counting -----------------------------------------------------------------------------------

  function CountRows(t: Tree): Tree {
    var kids := CountEach(t.children);
    t.(children := kids,
       totals := t.totals.(rowCount := (if t.row.Some? then 1 else 0) + SumCounts(kids)))
  }

  function CountEach(kids: seq<Tree>): (r: seq<Tree>)
    ensures |r| == |kids|
  {
    if kids == [] then [] else [CountRows(kids[0])] + CountEach(kids[1..])
  }

  function SumCounts(kids: seq<Tree>): int {
    if kids == [] then 0 else kids[0].totals.rowCount + SumCounts(kids[1..])
  }

  function Build(rows: seq<Entry>): Tree {
    CountRows(SplitSelfRows(Compress(InsertAll(NewNode(ROOT_NAME), rows))))
  }

  // ---- what every stage keeps ---------------------------------------------------------------------

  /** Siblings start with different segments; in particular their names differ. */
  ghost predicate DistinctHeads(kids: seq<Tree>) {
    forall i, j :: 0 <= i < j < |kids| ==> Head(kids[i].name) != Head(kids[j].name)
  }

  /** Before self-rows are split off: every name below is real segments, every leaf carries a row. */
  ghost predicate Plain(t: Tree)
    decreases t, 0
  {
    && DistinctHeads(t.children)
    && forall i :: 0 <= i < |t.children| ==> PlainChild(t.children[i])
  }

  ghost predicate PlainChild(k: Tree)
    decreases k, 1
  {
    AllSegments(Split(k.name)) && (k.children == [] ==> k.row.Some?) && Plain(k)
  }

  /** Afterwards: a line is either a leaf with a row or a heading, and "." is such a leaf. */
  ghost predicate Settled(t: Tree)
    decreases t, 0
  {
    && DistinctHeads(t.children)
    && forall i :: 0 <= i < |t.children| ==> SettledChild(t.children[i])
  }

  ghost predicate SettledChild(k: Tree)
    decreases k, 1
  {
    && (k.name == SELF_ROW_NAME || AllSegments(Split(k.name)))
    && (k.name == SELF_ROW_NAME ==> k.children == [])
    && (k.children == [] <==> k.row.Some?)
    && Settled(k)
  }

  lemma DistinctHeadsNames(kids: seq<Tree>)
    requires DistinctHeads(kids)
    ensures DistinctNames(kids)
  {
  }

  // -- insertion

  /** Every name is one segment, as the raw trie has them. */
  ghost predicate Raw(t: Tree) {
    && DistinctNames(t.children)
    && forall i :: 0 <= i < |t.children| ==>
         IsSegment(t.children[i].name) && (t.children[i].children == [] ==> t.children[i].row.Some?)
         && Raw(t.children[i])
  }

  /** The row stored at a path of the raw trie. */
  function Lookup(t: Tree, path: Path): Option<ProjectRow>
    decreases |path|
  {
    if path == [] then t.row
    else
      var i := IndexOf(t.children, path[0]);
      if i < |t.children| then Lookup(t.children[i], path[1..]) else None
  }

  lemma {:induction false} InsertRaw(t: Tree, path: Path, row: ProjectRow)
    requires Raw(t) && AllSegments(path)
    ensures Raw(Insert(t, path, row)) && Insert(t, path, row).name == t.name
    ensures var t' := Insert(t, path, row); t'.children == [] ==> t'.row.Some?
    decreases |path|
  {
    if path != [] {
      assert AllSegments(path[1..]);
      assert IsSegment(path[0]);
      var i := IndexOf(t.children, path[0]);
      if i < |t.children| {
        InsertRaw(t.children[i], path[1..], row);
      } else {
        InsertRaw(NewNode(path[0]), path[1..], row);
      }
    }
  }

  lemma IndexOfSameNames(a: seq<Tree>, b: seq<Tree>, name: string)
    requires |a| <= |b| && forall i :: 0 <= i < |a| ==> a[i].name == b[i].name
    ensures IndexOf(a, name) < |a| ==> IndexOf(b, name) == IndexOf(a, name)
    ensures IndexOf(a, name) == |a| ==> IndexOf(b, name) >= |a|
  {
    var i, j := IndexOf(a, name), IndexOf(b, name);
    assert i < |a| ==> b[i].name == name && HasName(b, name);
    assert j < |a| ==> a[j].name == name && HasName(a, name);
  }

  lemma {:induction false} LookupInsert(t: Tree, path: Path, row: ProjectRow, q: Path)
    requires Raw(t) && AllSegments(path)
    ensures Lookup(Insert(t, path, row), q) == if q == path then Some(row) else Lookup(t, q)
    decreases |path|
  {
    if path != [] && q != [] {
      assert AllSegments(path[1..]);
      var t' := Insert(t, path, row);
      var i, k := IndexOf(t.children, path[0]), IndexOf(t.children, q[0]);
      var child := if i < |t.children| then t.children[i] else NewNode(path[0]);
      InsertRaw(child, path[1..], row);
      LookupInsert(child, path[1..], row, q[1..]);
      IndexOfSameNames(t.children, t'.children, q[0]);
      SamePath(path, q);
      if i == |t.children| {
        assert t'.children[i].name == path[0];
      }
    }
  }

  lemma SamePath(p: Path, q: Path)
    requires p != [] && q != []
    ensures q == p <==> q[0] == p[0] && q[1..] == p[1..]
  {
    assert q == [q[0]] + q[1..] && p == [p[0]] + p[1..];
  }

  lemma EntriesOfAt(kids: seq<Tree>, i: nat, at: Path)
    requires i < |kids|
    ensures EntriesOf(kids, at)
            == EntriesOf(kids[..i], at)
               + (Entries(kids[i], at + Steps(kids[i].name)) + EntriesOf(kids[i + 1..], at))
  {
    assert kids == kids[..i] + kids[i..];
    EntriesOfAppend(kids[..i], kids[i..], at);
  }

  lemma EntriesOfOne(k: Tree, at: Path)
    ensures EntriesOf([k], at) == Entries(k, at + Steps(k.name))
  {
    assert [k][1..] == [];
  }

  /** A new path adds exactly one entry. */
  lemma {:induction false} InsertEntries(t: Tree, path: Path, row: ProjectRow, at: Path)
    requires Raw(t) && AllSegments(path) && Lookup(t, path).None?
    ensures multiset(Entries(Insert(t, path, row), at))
            == multiset(Entries(t, at)) + multiset{Entry(at + path, row)}
    decreases |path|
  {
    if path == [] {
      assert at + path == at;
    } else {
      var i := IndexOf(t.children, path[0]);
      var k := if i < |t.children| then t.children[i] else NewNode(path[0]);
      assert IsSegment(path[0]) && AllSegments(path[1..]);
      InsertRaw(k, path[1..], row);
      InsertEntries(k, path[1..], row, at + [path[0]]);
      assert (at + [path[0]]) + path[1..] == at + path;
      ChildEntries(t, k, Insert(k, path[1..], row), at, Entry(at + path, row));
    }
  }

  /** What one level of insertion adds is what the child below gained. */
  lemma ChildEntries(t: Tree, k: Tree, k': Tree, at: Path, e: Entry)
    requires IsSegment(k.name) && k'.name == k.name
    requires var i := IndexOf(t.children, k.name);
             if i < |t.children| then k == t.children[i] else k == NewNode(k.name)
    requires multiset(Entries(k', at + [k.name])) == multiset(Entries(k, at + [k.name])) + multiset{e}
    ensures var i := IndexOf(t.children, k.name);
            multiset(Entries(t.(children := if i < |t.children| then t.children[i := k'] else t.children + [k']), at))
            == multiset(Entries(t, at)) + multiset{e}
  {
    var i := IndexOf(t.children, k.name);
    assert Steps(k.name) == [k.name];
    if i < |t.children| {
      ReplaceEntries(t.children, i, k', at, e);
      MoreKids(t, t.children[i := k'], at, e);
    } else {
      AddedEntries(t.children, k', at, e);
      MoreKids(t, t.children + [k'], at, e);
    }
  }

  lemma AddedEntries(kids: seq<Tree>, k: Tree, at: Path, e: Entry)
    requires multiset(Entries(k, at + Steps(k.name))) == multiset{e}
    ensures multiset(EntriesOf(kids + [k], at)) == multiset(EntriesOf(kids, at)) + multiset{e}
  {
    EntriesOfAppend(kids, [k], at);
    EntriesOfOne(k, at);
  }

  lemma MoreKids(t: Tree, kids: seq<Tree>, at: Path, e: Entry)
    requires multiset(EntriesOf(kids, at)) == multiset(EntriesOf(t.children, at)) + multiset{e}
    ensures multiset(Entries(t.(children := kids), at)) == multiset(Entries(t, at)) + multiset{e}
  {
  }

  lemma ReplaceEntries(kids: seq<Tree>, i: nat, k: Tree, at: Path, e: Entry)
    requires i < |kids| && k.name == kids[i].name
    requires var here := at + Steps(k.name);
             multiset(Entries(k, here)) == multiset(Entries(kids[i], here)) + multiset{e}
    ensures multiset(EntriesOf(kids[i := k], at)) == multiset(EntriesOf(kids, at)) + multiset{e}
  {
    EntriesOfAt(kids, i, at);
    EntriesOfAt(kids[i := k], i, at);
    assert kids[i := k][..i] == kids[..i] && kids[i := k][i + 1..] == kids[i + 1..];
  }

  ghost predicate DistinctPaths(rows: seq<Entry>) {
    forall i, j :: 0 <= i < j < |rows| ==> rows[i].path != rows[j].path
  }

  ghost predicate RealPaths(rows: seq<Entry>) {
    forall i :: 0 <= i < |rows| ==> rows[i].path != [] && AllSegments(rows[i].path)
  }

  /** The row given last for a path. */
  function LastRow(rows: seq<Entry>, q: Path): Option<ProjectRow> {
    if rows == [] then None
    else
      var last := rows[|rows| - 1];
      if last.path == q then Some(last.row) else LastRow(rows[..|rows| - 1], q)
  }

  /** The raw trie answers every path with the last row given for it, and no other path. */
  lemma {:induction false} InsertAllLookup(rows: seq<Entry>, q: Path)
    requires RealPaths(rows) && q != []
    ensures var t := InsertAll(NewNode(ROOT_NAME), rows);
            Raw(t) && t.row.None? && Lookup(t, q) == LastRow(rows, q)
  {
    if rows != [] {
      var n := |rows| - 1;
      InsertAllLookup(rows[..n], q);
      var t := InsertAll(NewNode(ROOT_NAME), rows[..n]);
      assert rows[n].path != [] && AllSegments(rows[n].path);
      InsertRaw(t, rows[n].path, rows[n].row);
      LookupInsert(t, rows[n].path, rows[n].row, q);
    }
  }

  lemma {:induction false} LastRowAbsent(rows: seq<Entry>, q: Path)
    requires forall i :: 0 <= i < |rows| ==> rows[i].path != q
    ensures LastRow(rows, q).None?
  {
    if rows != [] {
      LastRowAbsent(rows[..|rows| - 1], q);
    }
  }

  lemma {:induction false} InsertAllEntries(rows: seq<Entry>)
    requires RealPaths(rows) && DistinctPaths(rows)
    ensures multiset(Entries(InsertAll(NewNode(ROOT_NAME), rows), [])) == multiset(rows)
  {
    if rows != [] {
      var n := |rows| - 1;
      var init, last := rows[..n], rows[n];
      InsertAllEntries(init);
      InsertAllLookup(init, last.path);
      LastRowAbsent(init, last.path);
      InsertEntries(InsertAll(NewNode(ROOT_NAME), init), last.path, last.row, []);
      EntryAtRoot(last);
      assert rows == init + [last];
    }
  }

  lemma EntryAtRoot(e: Entry)
    ensures Entry([] + e.path, e.row) == e
  {
    assert [] + e.path == e.path;
  }

  // -- folding

  lemma {:induction false} RawIsPlain(t: Tree)
    requires Raw(t)
    ensures Plain(t)
  {
    forall i | 0 <= i < |t.children|
      ensures PlainChild(t.children[i]) && Head(t.children[i].name) == t.children[i].name
    {
      var k := t.children[i];
      SplitHead(k.name);
      RawIsPlain(k);
    }
  }

  lemma {:induction false} FoldChainKeeps(t: Tree, name: string, at: Path)
    requires AllSegments(Split(name)) && (t.children == [] ==> t.row.Some?) && Plain(t)
    ensures var f := FoldChain(t, name);
            && PlainChild(f) && !Foldable(f) && Head(f.name) == Head(name)
            && Entries(f, at + Split(f.name)) == Entries(t, at + Split(name))
  {
    if Foldable(t) {
      var k := t.children[0];
      assert PlainChild(k);
      var joined := name + "/" + k.name;
      SplitJoin(name, k.name);
      HeadOfJoin(name, k.name);
      NotSelfRow(k.name);
      FoldChainKeeps(k, joined, at);
      Append3(at, Split(name), Split(k.name));
      assert t.children == [k];
      EntriesOfOne(k, at + Split(name));
    } else {
      PlainRename(t, name);
    }
  }

  lemma PlainRename(t: Tree, name: string)
    requires Plain(t)
    ensures Plain(t.(name := name))
  {
  }

  lemma NotSelfRow(name: string)
    requires AllSegments(Split(name))
    ensures name != SELF_ROW_NAME && Steps(name) == Split(name)
  {
    assert name == SELF_ROW_NAME ==> !IsSegment(Split(name)[0]);
  }

  /** No heading other than the root has a single child left. */
  ghost predicate Compact(t: Tree) {
    forall i :: 0 <= i < |t.children| ==> !Foldable(t.children[i]) && Compact(t.children[i])
  }

  lemma {:induction false} CompressKeeps(t: Tree, at: Path)
    requires Plain(t)
    ensures var c := Compress(t);
            Plain(c) && Compact(c) && Entries(c, at) == Entries(t, at) && (c.children == [] <==> t.children == [])
    decreases t, 0
  {
    CompressEachKeeps(t.children, at);
    DistinctHeadsNames(CompressEach(t.children));
    FromItemsDistinct(CompressEach(t.children));
  }

  lemma {:induction false} CompressEachKeeps(kids: seq<Tree>, at: Path)
    requires DistinctHeads(kids) && forall i :: 0 <= i < |kids| ==> PlainChild(kids[i])
    ensures var r := CompressEach(kids);
            && EntriesOf(r, at) == EntriesOf(kids, at) && DistinctHeads(r)
            && forall i :: 0 <= i < |kids| ==>
                 PlainChild(r[i]) && !Foldable(r[i]) && Compact(r[i]) && Head(r[i].name) == Head(kids[i].name)
    decreases kids, 1
  {
    if kids != [] {
      var k := Compress(kids[0]);
      assert PlainChild(kids[0]);
      NotSelfRow(kids[0].name);
      CompressKeeps(kids[0], at + Split(k.name));
      FoldChainKeeps(k, k.name, at);
      FoldChainCompact(k, k.name);
      NotSelfRow(FoldChain(k, k.name).name);
      CompressEachKeeps(kids[1..], at);
      var r := CompressEach(kids);
      assert r[1..] == CompressEach(kids[1..]);
      forall i | 0 <= i < |kids|
        ensures PlainChild(r[i]) && !Foldable(r[i]) && Compact(r[i]) && Head(r[i].name) == Head(kids[i].name)
      {
        if i > 0 {
          assert r[i] == r[1..][i - 1] && kids[i] == kids[1..][i - 1];
        }
      }
    }
  }

  lemma {:induction false} FoldChainCompact(t: Tree, name: string)
    requires Compact(t)
    ensures Compact(FoldChain(t, name))
  {
    if Foldable(t) {
      FoldChainCompact(t.children[0], name + "/" + t.children[0].name);
    }
  }

  // -- splitting

  lemma {:induction false} SplitKeeps(t: Tree, at: Path)
    requires Plain(t)
    ensures var s := SplitSelfRows(t);
            Settled(s) && Entries(s, at) == Entries(t, at) && s.name == t.name
            && (s.children == [] <==> t.children == []) && (s.children != [] ==> s.row.None?)
            && (s.children == [] ==> s.row == t.row)
    decreases t, 0
  {
    SplitEachKeeps(t.children, at);
    var kids := SplitEach(t.children);
    if t.row.Some? && kids != [] {
      SelfRowFits(t.row.value, t.children, kids, at);
      FromItemsDistinct([SelfRow(t.row.value)] + kids);
    }
  }

  /** "." starts no real name, so a self-row goes in front of its siblings without displacing any. */
  lemma SelfRowFits(row: ProjectRow, plain: seq<Tree>, kids: seq<Tree>, at: Path)
    requires |plain| == |kids| && DistinctHeads(kids)
    requires forall i :: 0 <= i < |kids| ==>
               PlainChild(plain[i]) && SettledChild(kids[i]) && kids[i].name == plain[i].name
    ensures var items := [SelfRow(row)] + kids;
            && DistinctHeads(items) && DistinctNames(items)
            && EntriesOf(items, at) == [Entry(at, row)] + EntriesOf(kids, at)
            && forall i :: 0 <= i < |items| ==> SettledChild(items[i])
  {
    var dot := SelfRow(row);
    var items := [dot] + kids;
    forall i | 0 <= i < |kids|
      ensures Head(kids[i].name) != SELF_ROW_NAME
    {
      SplitHead(plain[i].name);
    }
    assert Head(SELF_ROW_NAME) == SELF_ROW_NAME;
    assert items[1..] == kids;
    assert at + [] == at;
    assert Entries(dot, at) == [Entry(at, row)] + [];
  }

  lemma {:induction false} SplitEachKeeps(kids: seq<Tree>, at: Path)
    requires DistinctHeads(kids) && forall i :: 0 <= i < |kids| ==> PlainChild(kids[i])
    ensures var r := SplitEach(kids);
            && EntriesOf(r, at) == EntriesOf(kids, at) && DistinctHeads(r)
            && forall i :: 0 <= i < |kids| ==> SettledChild(r[i]) && r[i].name == kids[i].name
    decreases kids, 1
  {
    if kids != [] {
      assert PlainChild(kids[0]);
      NotSelfRow(kids[0].name);
      SplitKeeps(kids[0], at + Split(kids[0].name));
      SplitEachKeeps(kids[1..], at);
      var r := SplitEach(kids);
      assert r[1..] == SplitEach(kids[1..]);
      forall i | 0 <= i < |kids|
        ensures SettledChild(r[i]) && r[i].name == kids[i].name
      {
        if i > 0 {
          assert r[i] == r[1..][i - 1] && kids[i] == kids[1..][i - 1];
        }
      }
    }
  }
}
