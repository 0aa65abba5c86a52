/**
  Index rows merged into the sessions a user sees (agent_wrap/domain/logs/listing.py): one entry per session
  id, whatever order the rows come in.
  */
module Listing {
  import opened Totals
  import opened Lex
  import opened Sorting

  datatype Key = Key(hash: string, provider: string, session: string)

  datatype Row = Row(key: Key, count: nat, last: Option<int>, models: set<string>, alias: Option<string>,
                     title: Option<string>, ingested: int)

  /** Models and providers are shown sorted, so they are the sets they are. */
  datatype Entry = Entry(session: string, alias: Option<string>, title: Option<string>, count: nat, last: Option<int>,
                         models: set<string>, providers: set<string>)

  datatype Fingerprint = Fingerprint(rev: Option<int>, count: nat)

  // ---- row order ----------------------------------------------------------------------------------

  /** Tuples compare by their first difference. */
  function KeyLess(a: Row, b: Row): bool {
    || LexLess(a.key.hash, b.key.hash)
    || (a.key.hash == b.key.hash && LexLess(a.key.provider, b.key.provider))
    || (a.key.hash == b.key.hash && a.key.provider == b.key.provider && LexLess(a.key.session, b.key.session))
  }

  lemma KeyLessWeak(a: Row, b: Row, c: Row)
    ensures !(KeyLess(a, b) && KeyLess(b, a))
    ensures KeyLess(a, b) && !KeyLess(c, b) ==> KeyLess(a, c)
    ensures !KeyLess(a, b) && !KeyLess(b, a) ==> a.key == b.key
  {
    LexOrder(a.key.hash, b.key.hash, c.key.hash);
    LexOrder(a.key.provider, b.key.provider, c.key.provider);
    LexOrder(a.key.session, b.key.session, c.key.session);
  }

  lemma LexOrder(a: string, b: string, c: string)
    ensures (LexLess(a, b) || LexLess(b, a) || a == b) && !(LexLess(a, b) && LexLess(b, a)) && !LexLess(a, a)
    ensures LexLess(b, c) || LexLess(c, b) || b == c
    ensures LexLess(a, b) && !LexLess(c, b) ==> LexLess(a, c)
  {
    LexTotal(a, b);
    LexTotal(b, c);
    if LexLess(a, b) && LexLess(b, c) { LexTransitive(a, b, c); }
  }

  lemma KeyOrder()
    ensures WeakOrder(KeyLess)
  {
    forall a: Row, b: Row, c: Row
      ensures !(KeyLess(a, b) && KeyLess(b, a)) && (KeyLess(a, b) && !KeyLess(c, b) ==> KeyLess(a, c))
    {
      KeyLessWeak(a, b, c);
    }
  }

  // ---- merging ------------------------------------------------------------------------------------

  function Truthy(s: Option<string>): bool {
    s.Some? && s.value != ""
  }

  /** Python's `a or b`. */
  function Or(a: Option<string>, b: Option<string>): Option<string> {
    if Truthy(a) then a else b
  }

  function EntryOf(r: Row): Entry {
    Entry(r.key.session, r.alias, r.title, r.count, r.last, r.models, {r.key.provider})
  }

  function Absorbed(e: Entry, r: Row): Entry {
    e.(providers := e.providers + {r.key.provider}, count := e.count + r.count, last := Later(e.last, r.last),
       models := e.models + r.models, alias := Or(e.alias, r.alias), title := Or(e.title, r.title))
  }

  /** The dictionary of entries, in insertion order, after one more row. */
  function MergeRow(entries: seq<Entry>, r: Row): seq<Entry> {
    if r.count == 0 then entries
    else if entries == [] then [EntryOf(r)]
    else if entries[0].session == r.key.session then [Absorbed(entries[0], r)] + entries[1..]
    else [entries[0]] + MergeRow(entries[1..], r)
  }

  function Merged(rows: seq<Row>): seq<Entry> {
    if rows == [] then [] else MergeRow(Merged(rows[..|rows| - 1]), rows[|rows| - 1])
  }

  function Recency(e: Entry): int {
    if e.last.Some? then e.last.value else 0
  }

  function Newer(a: Entry, b: Entry): bool {
    Recency(a) > Recency(b)
  }

  function Sessions(rows: seq<Row>): seq<Entry> {
    Sorted(Newer, Merged(Sorted(KeyLess, rows)))
  }

  method FindEntry(entries: seq<Entry>, r: Row) returns (i: nat)
    requires r.count > 0
    ensures i <= |entries|
    ensures MergeRow(entries, r)
            == if i < |entries| then entries[i := Absorbed(entries[i], r)] else entries + [EntryOf(r)]
    ensures i < |entries| ==> entries[i].session == r.key.session
  {
    i := 0;
    while i < |entries| && entries[i].session != r.key.session
      invariant i <= |entries|
      invariant MergeRow(entries, r) == entries[..i] + MergeRow(entries[i..], r)
    {
      i := i + 1;
    }
  }

  method MergeSessions(rows: seq<Row>) returns (out: seq<Entry>)
    ensures out == Sessions(rows)
  {
    var sorted := Sorted(KeyLess, rows);
    out := [];
    for k := 0 to |sorted|
      invariant out == Merged(sorted[..k])
    {
      var row := sorted[k];
      assert sorted[..k + 1][..k] == sorted[..k];
      if row.count == 0 {
        continue;
      }
      var i := FindEntry(out, row);
      if i < |out| {
        out := out[i := Absorbed(out[i], row)];
      } else {
        out := out + [EntryOf(row)];
      }
    }
    assert sorted[..|sorted|] == sorted;
    out := Sorted(Newer, out);
  }

  // ---- order independence -------------------------------------------------------------------------

  /** One row per key, as the table holds them; the same row may be handed in more than once. */
  ghost predicate Keyed(rows: seq<Row>) {
    forall a, b :: a in rows && b in rows && a.key == b.key ==> a == b
  }

  /** However a scan happens to deliver the rows, the list is the same. */
  lemma AnyOrderMergesAlike(a: seq<Row>, b: seq<Row>)
    requires Keyed(a) && multiset(a) == multiset(b)
    ensures Sessions(a) == Sessions(b)
  {
    KeyOrder();
    forall x, y | x in a && y in a && !KeyLess(x, y) && !KeyLess(y, x)
      ensures x == y
    {
      KeyLessWeak(x, y, x);
    }
    SortedAlike(KeyLess, a, b);
  }

  // ---- what an entry says -------------------------------------------------------------------------

  /** The rows of one session that hold records, in order. */
  function RowsFor(rows: seq<Row>, session: string): seq<Row> {
    if rows == [] then []
    else
      var last := rows[|rows| - 1];
      RowsFor(rows[..|rows| - 1], session) + if last.key.session == session && last.count > 0 then [last] else []
  }

  function SumCounts(rows: seq<Row>): nat {
    if rows == [] then 0 else rows[0].count + SumCounts(rows[1..])
  }

  /** The first label that says anything, or else whatever the last row has. */
  function FirstLabel(labels: seq<Option<string>>): Option<string>
    requires labels != []
  {
    if |labels| == 1 || Truthy(labels[0]) then labels[0] else FirstLabel(labels[1..])
  }

  function Aliases(rows: seq<Row>): (r: seq<Option<string>>)
    ensures |r| == |rows|
  {
    if rows == [] then [] else [rows[0].alias] + Aliases(rows[1..])
  }

  function Titles(rows: seq<Row>): (r: seq<Option<string>>)
    ensures |r| == |rows|
  {
    if rows == [] then [] else [rows[0].title] + Titles(rows[1..])
  }

  ghost predicate IsLatest(rows: seq<Row>, last: Option<int>) {
    && (forall i :: 0 <= i < |rows| && rows[i].last.Some? ==> last.Some? && rows[i].last.value <= last.value)
    && (last.Some? ==> exists i :: 0 <= i < |rows| && rows[i].last == last)
  }

  /** The entry adds up, unites and picks over exactly these rows. */
  ghost predicate SumsUp(e: Entry, session: string, rows: seq<Row>) {
    && rows != [] && e.session == session && e.count == SumCounts(rows) && IsLatest(rows, e.last)
    && (forall m :: m in e.models <==> exists i :: 0 <= i < |rows| && m in rows[i].models)
    && (forall p :: p in e.providers <==> exists i :: 0 <= i < |rows| && rows[i].key.provider == p)
    && e.alias == FirstLabel(Aliases(rows)) && e.title == FirstLabel(Titles(rows))
  }

  lemma {:induction false} SumCountsAppend(rows: seq<Row>, r: Row)
    ensures SumCounts(rows + [r]) == SumCounts(rows) + r.count
  {
    if rows == [] {
      assert [r][1..] == [] && rows + [r] == [r];
    } else {
      assert (rows + [r])[1..] == rows[1..] + [r];
      SumCountsAppend(rows[1..], r);
    }
  }

  lemma {:induction false} LabelsAppend(rows: seq<Row>, r: Row)
    ensures Aliases(rows + [r]) == Aliases(rows) + [r.alias] && Titles(rows + [r]) == Titles(rows) + [r.title]
  {
    if rows == [] {
      assert [r][1..] == [] && rows + [r] == [r];
    } else {
      assert (rows + [r])[1..] == rows[1..] + [r];
      LabelsAppend(rows[1..], r);
    }
  }

  lemma {:induction false} FirstLabelAppend(labels: seq<Option<string>>, l: Option<string>)
    requires labels != []
    ensures FirstLabel(labels + [l]) == Or(FirstLabel(labels), l)
  {
    if |labels| == 1 {
      assert (labels + [l])[1..] == [l];
    } else {
      assert (labels + [l])[1..] == labels[1..] + [l];
      if !Truthy(labels[0]) { FirstLabelAppend(labels[1..], l); }
    }
  }

  lemma OneRowSumsUp(r: Row)
    ensures SumsUp(EntryOf(r), r.key.session, [r])
  {
    assert [r][1..] == [];
    assert SumCounts([r]) == r.count;
    assert Aliases([r]) == [r.alias] && Titles([r]) == [r.title];
    assert [r][0] == r;
  }

  lemma AbsorbedSumsUp(e: Entry, session: string, rows: seq<Row>, r: Row)
    requires SumsUp(e, session, rows) && r.key.session == session
    ensures SumsUp(Absorbed(e, r), session, rows + [r])
  {
    var all := rows + [r];
    SumCountsAppend(rows, r);
    LabelsAppend(rows, r);
    FirstLabelAppend(Aliases(rows), r.alias);
    FirstLabelAppend(Titles(rows), r.title);
    assert all[|rows|] == r && forall i :: 0 <= i < |rows| ==> all[i] == rows[i];
    LatestAppend(rows, r, e.last);
    UnitesAppend(e, rows, r);
  }

  lemma LatestAppend(rows: seq<Row>, r: Row, last: Option<int>)
    requires IsLatest(rows, last)
    ensures IsLatest(rows + [r], Later(last, r.last))
  {
    var all := rows + [r];
    assert all[|rows|] == r && forall i :: 0 <= i < |rows| ==> all[i] == rows[i];
  }

  lemma UnitesAppend(e: Entry, rows: seq<Row>, r: Row)
    requires forall m :: m in e.models <==> exists i :: 0 <= i < |rows| && m in rows[i].models
    requires forall p :: p in e.providers <==> exists i :: 0 <= i < |rows| && rows[i].key.provider == p
    ensures var e', all := Absorbed(e, r), rows + [r];
            && (forall m :: m in e'.models <==> exists i :: 0 <= i < |all| && m in all[i].models)
            && (forall p :: p in e'.providers <==> exists i :: 0 <= i < |all| && all[i].key.provider == p)
  {
    var all := rows + [r];
    assert all[|rows|] == r && forall i :: 0 <= i < |rows| ==> all[i] == rows[i];
  }

  ghost predicate OnePerSession(entries: seq<Entry>) {
    forall i, j :: 0 <= i < j < |entries| ==> entries[i].session != entries[j].session
  }

  /** Filing a row touches its session's entry only, or adds one at the end. */
  lemma {:induction false} MergeRowIs(entries: seq<Entry>, r: Row)
    requires OnePerSession(entries) && r.count > 0
    ensures var entries' := MergeRow(entries, r);
            && OnePerSession(entries')
            && (forall e :: e in entries' && e.session != r.key.session ==> e in entries)
            && (forall e :: e in entries && e.session != r.key.session ==> e in entries')
            && (forall e :: e in entries && e.session == r.key.session ==> Absorbed(e, r) in entries')
            && ((forall e :: e in entries ==> e.session != r.key.session) ==> EntryOf(r) in entries')
  {
    if entries != [] && entries[0].session != r.key.session {
      var rest := entries[1..];
      MergeRowIs(rest, r);
      var rest' := MergeRow(rest, r);
      assert forall e :: e in entries <==> e == entries[0] || e in rest;
      assert forall e :: e in rest' && e.session != r.key.session ==> e in rest;
      forall j | 0 <= j < |rest'|
        ensures rest'[j].session != entries[0].session
      {
        if rest'[j].session != r.key.session { assert rest'[j] in rest; }
      }
    } else if entries != [] {
      var entries' := MergeRow(entries, r);
      assert entries'[0] == Absorbed(entries[0], r);
      assert forall j :: 0 < j < |entries| ==> entries'[j] == entries[j];
      assert forall e :: e in entries ==> e == entries[0] || e in entries[1..];
    }
  }

  /** One entry for each session with records, and it sums up that session's rows. */
  lemma {:induction false} MergedSumsUp(rows: seq<Row>)
    ensures OnePerSession(Merged(rows))
    ensures forall e :: e in Merged(rows) ==> SumsUp(e, e.session, RowsFor(rows, e.session))
    ensures forall s :: RowsFor(rows, s) != [] ==> exists e :: e in Merged(rows) && e.session == s
  {
    if rows != [] {
      var n := |rows| - 1;
      var init, r := rows[..n], rows[n];
      MergedSumsUp(init);
      if r.count > 0 {
        MergeRowIs(Merged(init), r);
        RowMerged(init, r, Merged(init), Merged(rows));
        assert rows == init + [r];
      } else {
        assert forall s :: RowsFor(rows, s) == RowsFor(init, s) + [] == RowsFor(init, s);
      }
    }
  }

  lemma RowMerged(init: seq<Row>, r: Row, entries: seq<Entry>, entries': seq<Entry>)
    requires r.count > 0 && entries' == MergeRow(entries, r) && OnePerSession(entries) && OnePerSession(entries')
    requires forall e :: e in entries ==> SumsUp(e, e.session, RowsFor(init, e.session))
    requires forall s :: RowsFor(init, s) != [] ==> exists e :: e in entries && e.session == s
    requires forall e :: e in entries' && e.session != r.key.session ==> e in entries
    requires forall e :: e in entries && e.session != r.key.session ==> e in entries'
    requires forall e :: e in entries && e.session == r.key.session ==> Absorbed(e, r) in entries'
    requires (forall e :: e in entries ==> e.session != r.key.session) ==> EntryOf(r) in entries'
    ensures forall e :: e in entries' ==> SumsUp(e, e.session, RowsFor(init + [r], e.session))
    ensures forall s :: RowsFor(init + [r], s) != [] ==> exists e :: e in entries' && e.session == s
  {
    var rows := init + [r];
    assert rows[..|rows| - 1] == init;
    assert forall s :: s != r.key.session ==> RowsFor(rows, s) == RowsFor(init, s) + [] == RowsFor(init, s);
    assert RowsFor(rows, r.key.session) == RowsFor(init, r.key.session) + [r];
    var mine := OwnEntry(init, r, entries, entries');
    forall e | e in entries'
      ensures SumsUp(e, e.session, RowsFor(rows, e.session))
    {
      if e.session == r.key.session { OneEntry(entries', e, mine); }
    }
  }

  lemma OwnEntry(init: seq<Row>, r: Row, entries: seq<Entry>, entries': seq<Entry>) returns (mine: Entry)
    requires forall e :: e in entries ==> SumsUp(e, e.session, RowsFor(init, e.session))
    requires forall s :: RowsFor(init, s) != [] ==> exists e :: e in entries && e.session == s
    requires forall e :: e in entries && e.session == r.key.session ==> Absorbed(e, r) in entries'
    requires (forall e :: e in entries ==> e.session != r.key.session) ==> EntryOf(r) in entries'
    ensures mine in entries' && SumsUp(mine, r.key.session, RowsFor(init, r.key.session) + [r])
  {
    var own := RowsFor(init, r.key.session);
    if e :| e in entries && e.session == r.key.session {
      AbsorbedSumsUp(e, r.key.session, own, r);
      mine := Absorbed(e, r);
    } else {
      assert own == [];
      OneRowSumsUp(r);
      assert own + [r] == [r];
      mine := EntryOf(r);
    }
  }

  lemma OneEntry(entries: seq<Entry>, a: Entry, b: Entry)
    requires OnePerSession(entries) && a in entries && b in entries && a.session == b.session
    ensures a == b
  {
    var i :| 0 <= i < |entries| && entries[i] == a;
    var j :| 0 <= j < |entries| && entries[j] == b;
  }

  /** Filing a row finds its session's entry, or else adds one at the end. */
  lemma {:induction false} FiledAt(entries: seq<Entry>, r: Row) returns (i: nat)
    requires r.count > 0
    ensures i <= |entries| && forall k :: 0 <= k < i ==> entries[k].session != r.key.session
    ensures MergeRow(entries, r)
            == if i < |entries| then entries[i := Absorbed(entries[i], r)] else entries + [EntryOf(r)]
    ensures i < |entries| ==> entries[i].session == r.key.session
  {
    if entries == [] || entries[0].session == r.key.session {
      i := 0;
    } else {
      i := FiledAt(entries[1..], r);
      i := i + 1;
    }
  }

  /** By project, then by provider, then by session. */
  predicate KeyAtMost(a: Key, b: Key) {
    || LexLess(a.hash, b.hash)
    || (a.hash == b.hash
        && (LexLess(a.provider, b.provider)
            || (a.provider == b.provider && (LexLess(a.session, b.session) || a.session == b.session))))
  }

  lemma NotLessIsAtMost(a: Row, b: Row)
    requires !KeyLess(b, a)
    ensures KeyAtMost(a.key, b.key)
  {
    LexTotal(a.key.hash, b.key.hash);
    LexTotal(a.key.provider, b.key.provider);
    LexTotal(a.key.session, b.key.session);
  }

  /** Of two sessions with records, the first row of the one does not come after the first row of the other. */
  predicate FiledBefore(rows: seq<Row>, a: string, b: string) {
    var ours, theirs := RowsFor(rows, a), RowsFor(rows, b);
    ours != [] && theirs != [] && KeyAtMost(ours[0].key, theirs[0].key)
  }

  ghost predicate InFilingOrder(rows: seq<Row>, entries: seq<Entry>) {
    forall i, j :: 0 <= i < j < |entries| ==> FiledBefore(rows, entries[i].session, entries[j].session)
  }

  lemma {:induction false} RowsForAre(rows: seq<Row>, session: string)
    ensures forall r :: r in RowsFor(rows, session) ==> r in rows
  {
    if rows != [] { RowsForAre(rows[..|rows| - 1], session); }
  }

  /** The entries come in the order of their first rows. */
  lemma {:induction false} MergedInFilingOrder(rows: seq<Row>)
    requires InOrder(KeyLess, rows)
    ensures InFilingOrder(rows, Merged(rows))
  {
    if rows != [] {
      var init, r := rows[..|rows| - 1], rows[|rows| - 1];
      MergedInFilingOrder(init);
      MergedSumsUp(init);
      OneMoreFiled(rows, init, r, Merged(init));
    }
  }

  lemma OneMoreFiled(rows: seq<Row>, init: seq<Row>, r: Row, entries: seq<Entry>)
    requires rows != [] && init == rows[..|rows| - 1] && r == rows[|rows| - 1] && InOrder(KeyLess, rows)
    requires InFilingOrder(init, entries) && OnePerSession(entries)
    requires forall e :: e in entries ==> RowsFor(init, e.session) != []
    requires forall s :: RowsFor(init, s) != [] ==> exists e :: e in entries && e.session == s
    ensures InFilingOrder(rows, MergeRow(entries, r))
  {
    FirstsStay(rows, init, r, entries);
    if r.count > 0 {
      var at := FiledAt(entries, r);
      if at == |entries| {
        assert RowsFor(rows, r.key.session) == [r];
        forall e | e in entries
          ensures FiledBefore(rows, e.session, r.key.session)
        {
          NoneLessThanLast(rows, init, RowsFor(init, e.session)[0]) by { RowsForAre(init, e.session); }
        }
      }
    }
  }

  lemma NoneLessThanLast(rows: seq<Row>, init: seq<Row>, first: Row)
    requires rows != [] && init == rows[..|rows| - 1] && InOrder(KeyLess, rows) && first in init
    ensures KeyAtMost(first.key, rows[|rows| - 1].key)
  {
    var k :| 0 <= k < |init| && init[k] == first;
    assert rows[k] == first;
    NotLessIsAtMost(first, rows[|rows| - 1]);
  }

  /** An entry without a clock stands where one from the epoch would. */
  predicate NotOlder(a: Option<int>, b: Option<int>) {
    (if b.Some? then b.value else 0) <= (if a.Some? then a.value else 0)
  }

  lemma FirstsStay(rows: seq<Row>, init: seq<Row>, r: Row, entries: seq<Entry>)
    requires rows != [] && init == rows[..|rows| - 1] && r == rows[|rows| - 1]
    requires InFilingOrder(init, entries) && forall e :: e in entries ==> RowsFor(init, e.session) != []
    ensures InFilingOrder(rows, entries)
    ensures forall e :: e in entries ==> RowsFor(rows, e.session)[0] == RowsFor(init, e.session)[0]
  {
  }

  lemma {:induction false} Recent()
    ensures WeakOrder(Newer)
  {
  }

  /**
    What the viewer lists: one entry for exactly the sessions with records; each adds up its rows' counts, takes
    the latest clock, unites models and providers, and the first label in key order that says anything; newest
    first, and of equally new ones the one whose first row comes first.
    */
  ghost predicate IsListOf(out: seq<Entry>, rows: seq<Row>) {
    var sorted := Sorted(KeyLess, rows);
    && OnePerSession(out)
    && (forall e :: e in out ==> SumsUp(e, e.session, RowsFor(sorted, e.session)))
    && (forall s :: RowsFor(sorted, s) != [] ==> exists e :: e in out && e.session == s)
    && (forall i, j :: 0 <= i < j < |sorted| ==> KeyAtMost(sorted[i].key, sorted[j].key))
    && forall i, j :: 0 <= i < j < |out| ==>
         NotOlder(out[i].last, out[j].last)
         && (NotOlder(out[j].last, out[i].last) ==> FiledBefore(sorted, out[i].session, out[j].session))
  }

  lemma SessionsSumUp(rows: seq<Row>)
    ensures IsListOf(Sessions(rows), rows)
  {
    var sorted := Sorted(KeyLess, rows);
    RowsInKeyOrder(rows);
    MergedSumsUp(sorted);
    MergedInFilingOrder(sorted);
    RankedByClock(sorted, Merged(sorted));
    StillOnePerSession(Merged(sorted));
  }

  lemma RowsInKeyOrder(rows: seq<Row>)
    ensures var sorted := Sorted(KeyLess, rows);
            && InOrder(KeyLess, sorted)
            && forall i, j :: 0 <= i < j < |sorted| ==> KeyAtMost(sorted[i].key, sorted[j].key)
  {
    KeyOrder();
    SortedInOrder(KeyLess, rows);
    var sorted := Sorted(KeyLess, rows);
    forall i, j | 0 <= i < j < |sorted|
      ensures KeyAtMost(sorted[i].key, sorted[j].key)
    {
      NotLessIsAtMost(sorted[i], sorted[j]);
    }
  }

  lemma RankedByClock(rows: seq<Row>, entries: seq<Entry>)
    requires InFilingOrder(rows, entries)
    ensures var out := Sorted(Newer, entries);
            && (forall e :: e in out <==> e in entries)
            && forall i, j :: 0 <= i < j < |out| ==>
                 NotOlder(out[i].last, out[j].last)
                 && (NotOlder(out[j].last, out[i].last) ==> FiledBefore(rows, out[i].session, out[j].session))
  {
    Recent();
    SortedInOrder(Newer, entries);
    assert forall e :: e in entries ==> e in multiset(Sorted(Newer, entries));
    SortedStable(Newer, entries, (a: Entry, b: Entry) => FiledBefore(rows, a.session, b.session));
  }

  lemma StillOnePerSession(entries: seq<Entry>)
    requires OnePerSession(entries)
    ensures OnePerSession(Sorted(Newer, entries))
  {
    var differ := (a: Entry, b: Entry) => a.session != b.session;
    SortedStable(Newer, entries, differ);
    var out := Sorted(Newer, entries);
    forall i, j | 0 <= i < j < |out|
      ensures out[i].session != out[j].session
    {
      if !differ(out[i], out[j]) { OneEntry(entries, out[i], out[j]); }
    }
  }

  // ---- fingerprints -------------------------------------------------------------------------------

  function Newest(rows: seq<Row>): (m: int)
    requires rows != []
    ensures forall i :: 0 <= i < |rows| ==> rows[i].ingested <= m
    ensures exists i :: 0 <= i < |rows| && rows[i].ingested == m
  {
    if |rows| == 1 then rows[0].ingested
    else
      var m := Newest(rows[1..]);
      assert forall i :: 0 < i < |rows| ==> rows[i] == rows[1..][i - 1];
      if rows[0].ingested > m then rows[0].ingested else m
  }

  function FingerprintOf(rows: seq<Row>): Fingerprint {
    if rows == [] then Fingerprint(None, 0) else Fingerprint(Some(Newest(rows)), |rows|)
  }

  lemma AnyOrderMarksAlike(a: seq<Row>, b: seq<Row>)
    requires multiset(a) == multiset(b)
    ensures FingerprintOf(a) == FingerprintOf(b)
  {
    assert |multiset(a)| == |multiset(b)|;
    if a != [] {
      var i :| 0 <= i < |a| && a[i].ingested == Newest(a);
      var j :| 0 <= j < |b| && b[j].ingested == Newest(b);
      assert a[i] in multiset(b) && b[j] in multiset(a);
      assert a[i] in b && b[j] in a;
    }
  }
}
