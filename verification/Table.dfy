/** Table widths (agent_wrap/domain/display/service.py): measuring, squeezing, judging the overflow. */
module Table {
  import opened Totals
  import opened PathTreeExpand

  const TABLE_CELL_OVERHEAD := 2

  /** `elide` holds the columns that may be cut; the first `leading` columns are measured per table. */
  datatype Spec = Spec(headers: seq<string>, leading: nat, elide: seq<nat>)

  datatype Item = Divider | Row(cells: seq<string>)

  datatype Sheet = Sheet(spec: Spec, body: seq<Item>)

  predicate Columns(headers: seq<string>, elide: seq<nat>) {
    forall k :: 0 <= k < |elide| ==> elide[k] < |headers|
  }

  /** Every row has a cell under every header, as the code indexes them. */
  predicate Fits(sheet: Sheet) {
    && sheet.spec.leading <= |sheet.spec.headers| && Columns(sheet.spec.headers, sheet.spec.elide)
    && forall k :: 0 <= k < |sheet.body| && sheet.body[k].Row? ==> |sheet.body[k].cells| == |sheet.spec.headers|
  }

  function Shared(sheet: Sheet): int {
    |sheet.spec.headers| - sheet.spec.leading
  }

  predicate Group(sheets: seq<Sheet>) {
    && sheets != []
    && forall k :: 0 <= k < |sheets| ==> Fits(sheets[k]) && Shared(sheets[k]) == Shared(sheets[0])
  }

  function Sum(widths: seq<int>): int {
    if widths == [] then 0 else widths[0] + TABLE_CELL_OVERHEAD + Sum(widths[1..])
  }

  function TableWidth(widths: seq<int>): int {
    Sum(widths) + |widths| + 1
  }

  /** A drawn row: every cell with a space either side, and a border between the cells and around them. */
  function RowLine(texts: seq<string>): string {
    "│" + Bordered(texts)
  }

  function Bordered(texts: seq<string>): string {
    if texts == [] then "" else " " + texts[0] + " │" + Bordered(texts[1..])
  }

  /** Where a character takes one cell, a row of texts as wide as their columns is as long as the table is wide. */
  lemma {:induction false} RowsAreTableWide(texts: seq<string>, widths: seq<int>)
    requires |texts| == |widths| && forall i :: 0 <= i < |texts| ==> |texts[i]| == widths[i]
    ensures |RowLine(texts)| == TableWidth(widths)
  {
    if texts != [] {
      RowsAreTableWide(texts[1..], widths[1..]);
    }
  }

  // ---- measuring ----------------------------------------------------------------------------------

  /** The widest of the first `n` items' cells in column `j`, or `least` when that is wider. */
  function WidestCell(cells: Cells, body: seq<Item>, j: nat, n: nat, least: nat): nat
    requires n <= |body| && forall k :: 0 <= k < |body| && body[k].Row? ==> j < |body[k].cells|
  {
    if n == 0 then least
    else if body[n - 1].Divider? then WidestCell(cells, body, j, n - 1, least)
    else Max(WidestCell(cells, body, j, n - 1, least), cells(body[n - 1].cells[j]))
  }

  function ColumnWidth(cells: Cells, sheet: Sheet, j: nat): nat
    requires Fits(sheet) && j < |sheet.spec.headers|
  {
    WidestCell(cells, sheet.body, j, |sheet.body|, cells(sheet.spec.headers[j]))
  }

  /** A column is as wide as its widest cell, header included, and no wider. */
  lemma {:induction false} ColumnWidthIsLeast(cells: Cells, body: seq<Item>, j: nat, n: nat, least: nat)
    requires n <= |body| && forall k :: 0 <= k < |body| && body[k].Row? ==> j < |body[k].cells|
    ensures var w := WidestCell(cells, body, j, n, least);
            && w >= least && (forall k :: 0 <= k < n && body[k].Row? ==> cells(body[k].cells[j]) <= w)
            && (w == least || exists k :: 0 <= k < n && body[k].Row? && cells(body[k].cells[j]) == w)
  {
    if n > 0 { ColumnWidthIsLeast(cells, body, j, n - 1, least); }
  }

  /** Shared column `j` over the first `n` tables of a group. */
  function SharedWidth(cells: Cells, sheets: seq<Sheet>, j: nat, n: nat): nat
    requires Group(sheets) && n <= |sheets| && j < Shared(sheets[0])
  {
    if n == 0 then 0
    else
      var sheet := sheets[n - 1];
      Max(SharedWidth(cells, sheets, j, n - 1), ColumnWidth(cells, sheet, sheet.spec.leading + j))
  }

  function SharedWidths(cells: Cells, sheets: seq<Sheet>): (r: seq<int>)
    requires Group(sheets)
    ensures |r| == Shared(sheets[0])
  {
    seq(Shared(sheets[0]), j requires 0 <= j < Shared(sheets[0]) => SharedWidth(cells, sheets, j, |sheets|))
  }

  /** No table of the group has anything wider than its shared column, and one of them needs that width. */
  lemma {:induction false} SharedWidthIsLeast(cells: Cells, sheets: seq<Sheet>, j: nat, n: nat)
    requires Group(sheets) && n <= |sheets| && j < Shared(sheets[0])
    ensures var w := SharedWidth(cells, sheets, j, n);
            && (forall k :: 0 <= k < n ==> ColumnWidth(cells, sheets[k], sheets[k].spec.leading + j) <= w)
            && (n > 0 ==> exists k :: 0 <= k < n && ColumnWidth(cells, sheets[k], sheets[k].spec.leading + j) == w)
  {
    if n > 0 { SharedWidthIsLeast(cells, sheets, j, n - 1); }
  }

  method ComputeSharedWidths(cells: Cells, sheets: seq<Sheet>) returns (widths: seq<int>)
    requires Group(sheets)
    ensures widths == SharedWidths(cells, sheets)
  {
    var nShared := Shared(sheets[0]);
    widths := seq(nShared, _ => 0);
    for n := 0 to |sheets|
      invariant |widths| == nShared
      invariant forall j :: 0 <= j < nShared ==> widths[j] == SharedWidth(cells, sheets, j, n)
    {
      widths := Widened(cells, sheets[n], widths, sheets[n].spec.leading);
    }
  }

  /** `widths` raised to what one table's columns from `first` on need. */
  method Widened(cells: Cells, sheet: Sheet, widths: seq<int>, first: nat) returns (r: seq<int>)
    requires Fits(sheet) && first + |widths| <= |sheet.spec.headers|
    requires forall j :: 0 <= j < |widths| ==> widths[j] >= 0
    ensures |r| == |widths|
    ensures forall j :: 0 <= j < |r| ==> r[j] == Max(widths[j], ColumnWidth(cells, sheet, first + j))
  {
    var headers, body := sheet.spec.headers, sheet.body;
    r := seq(|widths|, j requires 0 <= j < |widths| => Max(widths[j], cells(headers[first + j])));
    for n := 0 to |body|
      invariant |r| == |widths|
      invariant forall j :: 0 <= j < |r| ==>
                  r[j] == Max(widths[j], WidestCell(cells, body, first + j, n, cells(headers[first + j])))
    {
      if body[n].Row? {
        r := seq(|r|, j requires 0 <= j < |r| => Max(r[j], cells(body[n].cells[first + j])));
      }
    }
  }

  function LeadingWidths(cells: Cells, sheet: Sheet): (r: seq<int>)
    requires Fits(sheet)
  {
    seq(sheet.spec.leading, j requires 0 <= j < sheet.spec.leading => ColumnWidth(cells, sheet, j))
  }

  function Widths(cells: Cells, sheet: Sheet, shared: seq<int>): seq<int>
    requires Fits(sheet)
  {
    LeadingWidths(cells, sheet) + shared
  }

  method WidthsFor(cells: Cells, sheet: Sheet, shared: seq<int>) returns (widths: seq<int>)
    requires Fits(sheet)
    ensures widths == Widths(cells, sheet, shared)
  {
    widths := Widened(cells, sheet, seq(sheet.spec.leading, _ => 0), 0);
    widths := widths + shared;
  }

  /** Sized as a member of its group, no column is narrower than its header. */
  ghost predicate CoversHeaders(cells: Cells, headers: seq<string>, widths: seq<int>) {
    |widths| == |headers| && forall j :: 0 <= j < |headers| ==> cells(headers[j]) <= widths[j]
  }

  lemma GroupCoversHeaders(cells: Cells, sheets: seq<Sheet>, k: nat)
    requires Group(sheets) && k < |sheets|
    ensures CoversHeaders(cells, sheets[k].spec.headers, Widths(cells, sheets[k], SharedWidths(cells, sheets)))
  {
    var sheet := sheets[k];
    var widths := Widths(cells, sheet, SharedWidths(cells, sheets));
    forall j | 0 <= j < |sheet.spec.headers|
      ensures cells(sheet.spec.headers[j]) <= widths[j]
    {
      HeaderCovered(cells, sheets, k, j);
    }
  }

  lemma HeaderCovered(cells: Cells, sheets: seq<Sheet>, k: nat, j: nat)
    requires Group(sheets) && k < |sheets| && j < |sheets[k].spec.headers|
    ensures var sheet := sheets[k];
            && cells(sheet.spec.headers[j]) <= ColumnWidth(cells, sheet, j)
            && (j >= sheet.spec.leading ==>
                  ColumnWidth(cells, sheet, j) <= SharedWidth(cells, sheets, j - sheet.spec.leading, |sheets|))
  {
    var sheet := sheets[k];
    ColumnWidthIsLeast(cells, sheet.body, j, |sheet.body|, cells(sheet.spec.headers[j]));
    if j >= sheet.spec.leading { SharedWidthIsLeast(cells, sheets, j - sheet.spec.leading, |sheets|); }
  }

  // ---- squeezing ----------------------------------------------------------------------------------

  /** An elidable column stops at its header; every other column stays as it is. */
  function Floored(cells: Cells, widths: seq<int>, elide: seq<nat>, headers: seq<string>): (r: seq<int>)
    requires |widths| == |headers|
    ensures |r| == |widths|
    ensures forall i :: 0 <= i < |r| ==> r[i] <= widths[i]
  {
    seq(|widths|, i requires 0 <= i < |widths| =>
      if i in elide && cells(headers[i]) < widths[i] then cells(headers[i]) else widths[i])
  }

  /** Where a column first stands in the order the caller listed. */
  function Rank(elide: seq<nat>, col: nat): (k: nat)
    ensures k <= |elide| && (k < |elide| ==> elide[k] == col) && (col in elide ==> k < |elide|)
    ensures forall i :: 0 <= i < k ==> elide[i] != col
  {
    if elide == [] || elide[0] == col then 0 else 1 + Rank(elide[1..], col)
  }

  function Shrinkable(cells: Cells, out: seq<int>, elide: seq<nat>, headers: seq<string>): (r: seq<nat>)
    requires |out| == |headers| && Columns(headers, elide)
    ensures forall c :: c in r <==> c in elide && out[c] > cells(headers[c])
    ensures forall k :: 0 <= k < |r| ==> r[k] < |out|
  {
    if elide == [] then []
    else (if out[elide[0]] > cells(headers[elide[0]]) then [elide[0]] else [])
         + Shrinkable(cells, out, elide[1..], headers)
  }

  /** Python's `max` with a key: the first of the widest. */
  function FirstWidest(out: seq<int>, cols: seq<nat>): (c: nat)
    requires cols != [] && forall k :: 0 <= k < |cols| ==> cols[k] < |out|
    ensures c in cols && forall d :: d in cols ==> d < |out| && out[d] <= out[c]
  {
    if |cols| == 1 then cols[0]
    else
      var rest := FirstWidest(out, cols[1..]);
      if out[rest] > out[cols[0]] then rest else cols[0]
  }

  lemma {:induction false} FirstWidestRank(cells: Cells, out: seq<int>, elide: seq<nat>, headers: seq<string>, d: nat)
    requires |out| == |headers| && Columns(headers, elide)
    requires d in Shrinkable(cells, out, elide, headers)
    ensures var c := FirstWidest(out, Shrinkable(cells, out, elide, headers));
            d != c && out[d] == out[c] ==> Rank(elide, c) < Rank(elide, d)
  {
    var rest := Shrinkable(cells, out, elide[1..], headers);
    var cols := Shrinkable(cells, out, elide, headers);
    if cols != rest {
      assert cols[1..] == rest;
    }
    if d != elide[0] {
      assert d in rest;
      FirstWidestRank(cells, out, elide[1..], headers, d);
    }
  }

  /** Column `i` was cut no deeper than fairness allows, seen from `j`, which could still give more. */
  predicate Fair(out: seq<int>, elide: seq<nat>, i: nat, j: nat)
    requires i < |out| && j < |out|
  {
    out[j] <= out[i] || (out[j] == out[i] + 1 && Rank(elide, i) < Rank(elide, j))
  }

  ghost predicate AllFair(cells: Cells, widths: seq<int>, elide: seq<nat>, headers: seq<string>, out: seq<int>)
    requires |out| == |widths| == |headers| && Columns(headers, elide)
  {
    forall i, j :: i in elide && j in elide && out[i] < widths[i] && out[j] > cells(headers[j]) ==>
      Fair(out, elide, i, j)
  }

  /** Between its floor and its width, and untouched unless elidable. */
  ghost predicate Bounded(cells: Cells, widths: seq<int>, elide: seq<nat>, headers: seq<string>, out: seq<int>)
    requires |widths| == |headers|
  {
    |out| == |widths|
    && forall i :: 0 <= i < |out| ==> Floored(cells, widths, elide, headers)[i] <= out[i] <= widths[i]
  }

  /** What squeezing promises. */
  ghost predicate Squeezed(cells: Cells, widths: seq<int>, elide: seq<nat>, headers: seq<string>, limit: int,
                           out: seq<int>)
    requires |widths| == |headers| && Columns(headers, elide)
  {
    && Bounded(cells, widths, elide, headers, out) && AllFair(cells, widths, elide, headers, out)
    && TableWidth(out) == (if TableWidth(widths) <= limit then TableWidth(widths)
                           else Max(limit, TableWidth(Floored(cells, widths, elide, headers))))
  }

  lemma {:induction false} SumCut(out: seq<int>, c: nat)
    requires c < |out|
    ensures Sum(out[c := out[c] - 1]) == Sum(out) - 1
  {
    if c == 0 {
      assert out[0 := out[0] - 1][1..] == out[1..];
    } else {
      assert out[c := out[c] - 1][1..] == out[1..][c - 1 := out[1..][c - 1] - 1];
      SumCut(out[1..], c - 1);
    }
  }

  lemma {:induction false} SumMonotone(a: seq<int>, b: seq<int>)
    requires |a| == |b| && forall i :: 0 <= i < |a| ==> a[i] <= b[i]
    ensures Sum(a) <= Sum(b) && (Sum(a) == Sum(b) ==> a == b)
  {
    if a != [] {
      SumMonotone(a[1..], b[1..]);
      assert a == [a[0]] + a[1..] && b == [b[0]] + b[1..];
    }
  }

  /** One character off the first of the widest keeps everything fair. */
  lemma CutKeepsFair(cells: Cells, widths: seq<int>, elide: seq<nat>, headers: seq<string>, out: seq<int>, c: nat)
    requires |out| == |widths| == |headers| && Columns(headers, elide)
    requires AllFair(cells, widths, elide, headers, out)
    requires Shrinkable(cells, out, elide, headers) != []
    requires c == FirstWidest(out, Shrinkable(cells, out, elide, headers))
    ensures AllFair(cells, widths, elide, headers, out[c := out[c] - 1])
  {
    var out' := out[c := out[c] - 1];
    forall i, j | i in elide && j in elide && out'[i] < widths[i] && out'[j] > cells(headers[j])
      ensures Fair(out', elide, i, j)
    {
      assert j in Shrinkable(cells, out, elide, headers);
      if i == c {
        FirstWidestRank(cells, out, elide, headers, j);
      } else {
        assert Fair(out, elide, i, j);
      }
    }
  }

  lemma CutKeepsBounds(cells: Cells, widths: seq<int>, elide: seq<nat>, headers: seq<string>, out: seq<int>, c: nat)
    requires |widths| == |headers| && Columns(headers, elide) && Bounded(cells, widths, elide, headers, out)
    requires c in Shrinkable(cells, out, elide, headers)
    ensures Bounded(cells, widths, elide, headers, out[c := out[c] - 1])
  {
  }

  /** With nothing left to shrink, every column is at its floor. */
  lemma NothingLeft(cells: Cells, widths: seq<int>, elide: seq<nat>, headers: seq<string>, out: seq<int>)
    requires |widths| == |headers| && Columns(headers, elide) && Bounded(cells, widths, elide, headers, out)
    requires Shrinkable(cells, out, elide, headers) == []
    ensures out == Floored(cells, widths, elide, headers)
  {
    forall i | 0 <= i < |out|
      ensures out[i] == Floored(cells, widths, elide, headers)[i]
    {
      assert i !in Shrinkable(cells, out, elide, headers);
    }
  }

  method Squeeze(cells: Cells, widths: seq<int>, elide: seq<nat>, headers: seq<string>, limit: int)
    returns (out: seq<int>)
    requires |widths| == |headers| && Columns(headers, elide)
    ensures Squeezed(cells, widths, elide, headers, limit, out)
  {
    out := widths;
    var overflow := TableWidth(out) - limit;
    while overflow > 0
      invariant Bounded(cells, widths, elide, headers, out) && AllFair(cells, widths, elide, headers, out)
      invariant overflow == TableWidth(out) - limit
      invariant out == widths || overflow >= 0
    {
      var shrinkable := Shrinkable(cells, out, elide, headers);
      if shrinkable == [] {
        NothingLeft(cells, widths, elide, headers, out);
        break;
      }
      var c := FirstWidest(out, shrinkable);
      CutKeepsFair(cells, widths, elide, headers, out, c);
      CutKeepsBounds(cells, widths, elide, headers, out, c);
      SumCut(out, c);
      out := out[c := out[c] - 1];
      overflow := overflow - 1;
    }
    SumMonotone(Floored(cells, widths, elide, headers), out);
    SumMonotone(out, widths);
  }

  /** The promise leaves no choice: two tables that keep it are the same table. */
  lemma SqueezeIsDetermined(cells: Cells, widths: seq<int>, elide: seq<nat>, headers: seq<string>, limit: int,
                            a: seq<int>, b: seq<int>)
    requires |widths| == |headers| && Columns(headers, elide)
    requires Squeezed(cells, widths, elide, headers, limit, a)
    requires Squeezed(cells, widths, elide, headers, limit, b)
    ensures a == b
  {
    if a != b {
      var i := SomewhereLess(a, b);
      var j := SomewhereLess(b, a);
      NotBothWays(cells, widths, elide, headers, a, b, i, j);
    }
  }

  lemma NotBothWays(cells: Cells, widths: seq<int>, elide: seq<nat>, headers: seq<string>, a: seq<int>, b: seq<int>,
                    i: nat, j: nat)
    requires |widths| == |headers| && Columns(headers, elide) && i < |widths| && j < |widths|
    requires Bounded(cells, widths, elide, headers, a) && AllFair(cells, widths, elide, headers, a)
    requires Bounded(cells, widths, elide, headers, b) && AllFair(cells, widths, elide, headers, b)
    ensures a[i] >= b[i] || b[j] >= a[j]
  {
  }

  lemma SomewhereLess(a: seq<int>, b: seq<int>) returns (i: nat)
    requires |a| == |b| && Sum(a) == Sum(b) && a != b
    ensures i < |a| && a[i] < b[i]
  {
    if forall k :: 0 <= k < |a| ==> b[k] <= a[k] {
      SumMonotone(b, a);
      assert false;
    }
    i :| 0 <= i < |a| && a[i] < b[i];
  }

  // ---- judging ------------------------------------------------------------------------------------

  /** Every elidable column at its header, as `table_overflow` measures. */
  function AtHeaders(cells: Cells, widths: seq<int>, elide: seq<nat>, headers: seq<string>): (r: seq<int>)
    requires |widths| == |headers|
  {
    seq(|widths|, i requires 0 <= i < |widths| => if i in elide then cells(headers[i]) else widths[i])
  }

  /** `limit` is None when there is no terminal width to respect. */
  function TableOverflow(cells: Cells, sheet: Sheet, shared: seq<int>, limit: Option<int>): int
    requires Fits(sheet) && |shared| == Shared(sheet)
  {
    if limit.None? then 0
    else
      var floored := AtHeaders(cells, Widths(cells, sheet, shared), sheet.spec.elide, sheet.spec.headers);
      Max(0, TableWidth(floored) - limit.value)
  }

  /**
    The overflow says exactly what squeezing cannot absorb: a table too wide for the terminal is drawn
    that much wider than it, so it fits if and only if the overflow is zero.
    */
  lemma OverflowIsWhatRemains(cells: Cells, sheets: seq<Sheet>, k: nat, limit: int, out: seq<int>)
    requires Group(sheets) && k < |sheets|
    requires var widths := Widths(cells, sheets[k], SharedWidths(cells, sheets));
             |widths| == |sheets[k].spec.headers|
             && Squeezed(cells, widths, sheets[k].spec.elide, sheets[k].spec.headers, limit, out)
    ensures var shared := SharedWidths(cells, sheets);
            && (TableWidth(Widths(cells, sheets[k], shared)) > limit ==>
                  TableWidth(out) == limit + TableOverflow(cells, sheets[k], shared, Some(limit)))
            && (TableWidth(out) <= limit <==> TableOverflow(cells, sheets[k], shared, Some(limit)) == 0)
    ensures CoversHeaders(cells, sheets[k].spec.headers, out)
  {
    var shared := SharedWidths(cells, sheets);
    var widths := Widths(cells, sheets[k], shared);
    var headers, elide := sheets[k].spec.headers, sheets[k].spec.elide;
    GroupCoversHeaders(cells, sheets, k);
    assert AtHeaders(cells, widths, elide, headers) == Floored(cells, widths, elide, headers);
    SumMonotone(Floored(cells, widths, elide, headers), widths);
  }

  /** The widths the k-th table of a group is drawn with, and what they leave over. */
  method DrawnWidths(cells: Cells, sheets: seq<Sheet>, k: nat, limit: Option<int>) returns (widths: seq<int>)
    requires Group(sheets) && k < |sheets|
    ensures var shared := SharedWidths(cells, sheets);
            if limit.None? then widths == Widths(cells, sheets[k], shared)
            else
              && Squeezed(cells, Widths(cells, sheets[k], shared), sheets[k].spec.elide, sheets[k].spec.headers,
                          limit.value, widths)
              && (TableWidth(widths) <= limit.value <==> TableOverflow(cells, sheets[k], shared, limit) == 0)
    ensures CoversHeaders(cells, sheets[k].spec.headers, widths)
  {
    var sheet, shared := sheets[k], SharedWidths(cells, sheets);
    widths := WidthsFor(cells, sheet, shared);
    GroupCoversHeaders(cells, sheets, k);
    if limit.None? {
      return;
    }
    if sheet.spec.elide != [] {
      widths := Squeeze(cells, widths, sheet.spec.elide, sheet.spec.headers, limit.value);
    } else {
      assert Floored(cells, widths, [], sheet.spec.headers) == widths;
    }
    OverflowIsWhatRemains(cells, sheets, k, limit.value, widths);
  }
}
