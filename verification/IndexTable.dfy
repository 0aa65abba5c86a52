/**
  The session table as other processes change it, and what its revision tells
  (agent_wrap/infrastructure/logs/repositories/sessions.py, `revision`).
  */
module IndexTable {
  import opened Totals
  import opened Listing
  import opened Sorting

  /** `clock` is the newest ingest stamp ever given out; a deleted row's stamp is never given again. */
  datatype Index = Index(table: map<Key, Row>, clock: int)

  datatype Change = Write(row: Row) | Delete(keys: set<Key>)

  ghost predicate Sound(ix: Index) {
    forall k :: k in ix.table ==> ix.table[k].key == k && ix.table[k].ingested <= ix.clock
  }

  /** Every write carries a stamp of its own, later than all before. */
  predicate Possible(ix: Index, c: Change) {
    c.Write? ==> c.row.ingested > ix.clock
  }

  function Changed(ix: Index, c: Change): Index {
    match c
    case Write(row) => Index(ix.table[row.key := row], row.ingested)
    case Delete(keys) => ix.(table := ix.table - keys)
  }

  ghost predicate Leads(a: Index, cs: seq<Change>, b: Index)
    decreases cs
  {
    if cs == [] then a == b else Possible(a, cs[0]) && Leads(Changed(a, cs[0]), cs[1..], b)
  }

  /** `b` is the index some time after `a`. */
  ghost predicate Follows(a: Index, b: Index) {
    exists cs :: Leads(a, cs, b)
  }

  lemma {:induction false} LeadsTo(a: Index, cs: seq<Change>, b: Index)
    requires Sound(a) && Leads(a, cs, b)
    ensures Sound(b) && a.clock <= b.clock
    ensures forall k :: k in b.table ==> (k in a.table && b.table[k] == a.table[k]) || b.table[k].ingested > a.clock
    decreases cs
  {
    if cs != [] { LeadsTo(Changed(a, cs[0]), cs[1..], b); }
  }

  /** A row is either the one there was before, or was written since. */
  lemma LaterRows(a: Index, b: Index)
    requires Sound(a) && Follows(a, b)
    ensures Sound(b) && a.clock <= b.clock
    ensures forall k :: k in b.table ==> (k in a.table && b.table[k] == a.table[k]) || b.table[k].ingested > a.clock
  {
    var cs :| Leads(a, cs, b);
    LeadsTo(a, cs, b);
  }

  lemma {:induction false} LeadsOn(a: Index, cs: seq<Change>, b: Index, ds: seq<Change>, c: Index)
    requires Leads(a, cs, b) && Leads(b, ds, c)
    ensures Leads(a, cs + ds, c)
    decreases cs
  {
    if cs == [] {
      assert cs + ds == ds;
    } else {
      assert (cs + ds)[1..] == cs[1..] + ds;
      LeadsOn(Changed(a, cs[0]), cs[1..], b, ds, c);
    }
  }

  lemma LaterStill(a: Index, b: Index, c: Index)
    requires Follows(a, b) && Follows(b, c)
    ensures Follows(a, c)
  {
    var cs :| Leads(a, cs, b);
    var ds :| Leads(b, ds, c);
    LeadsOn(a, cs, b, ds, c);
  }

  /** MAX(last_ingested_at) and COUNT(*), in one probe. */
  ghost predicate IsRevision(table: map<Key, Row>, rev: Fingerprint) {
    && rev.count == |table|
    && (rev.rev.None? <==> table == map[])
    && (rev.rev.Some? ==>
          && (forall k :: k in table ==> table[k].ingested <= rev.rev.value)
          && exists k :: k in table && table[k].ingested == rev.rev.value)
  }

  /** The rows of the table, each once, in whatever order a scan gives them. */
  ghost predicate IsScan(table: map<Key, Row>, rows: seq<Row>) {
    && (forall i :: 0 <= i < |rows| ==> rows[i].key in table && table[rows[i].key] == rows[i])
    && (forall k :: k in table ==> table[k] in rows)
    && Distinct(rows)
  }

  /** A revision read from the index as it was `before`, and rows scanned later, `at` another moment. */
  datatype Reading = Reading(revision: Fingerprint, rows: seq<Row>, before: Index, at: Index)

  ghost predicate Honest(r: Reading) {
    Sound(r.before) && IsRevision(r.before.table, r.revision) && Follows(r.before, r.at) && IsScan(r.at.table, r.rows)
  }

  lemma KeysEqual<K, V>(a: map<K, V>, b: map<K, V>)
    requires |a| == |b| && forall k :: k in a ==> k in b && a[k] == b[k]
    ensures a == b
  {
    assert a.Keys <= b.Keys && |a.Keys| == |a| == |b| == |b.Keys|;
    SubsetOfSameSize(a.Keys, b.Keys);
  }

  lemma SubsetOfSameSize<T>(a: set<T>, b: set<T>)
    requires a <= b && |a| == |b|
    ensures a == b
  {
    assert |b - a| == |b| - |a|;
  }

  /** Since stamps never repeat, an equal revision at a later time means equal rows. */
  lemma EqualRevisionsEqualRows(a: Index, b: Index, rev: Fingerprint)
    requires Sound(a) && Follows(a, b) && IsRevision(a.table, rev) && IsRevision(b.table, rev)
    ensures a.table == b.table
  {
    LaterRows(a, b);
    forall k | k in b.table
      ensures k in a.table && b.table[k] == a.table[k]
    {
      assert rev.rev.Some? && b.table[k].ingested <= rev.rev.value <= a.clock;
    }
    KeysEqual(b.table, a.table);
  }

  /**
    Rows read after the revision: with the revision back at its value, they are the rows there are now if and
    only if none of them has been deleted since.
    */
  lemma RowsStillThereIff(first: Index, second: Index, now: Index, rev: Fingerprint)
    requires Sound(first) && Follows(first, second) && Follows(second, now)
    requires IsRevision(first.table, rev) && IsRevision(now.table, rev)
    ensures second.table == now.table <==> forall k :: k in second.table ==> k in now.table
  {
    LaterStill(first, second, now);
    EqualRevisionsEqualRows(first, now, rev);
    LaterRows(first, second);
    LaterRows(second, now);
    if forall k :: k in second.table ==> k in now.table {
      forall k | k in now.table
        ensures k in second.table && second.table[k] == now.table[k]
      {
        assert now.table[k].ingested <= first.clock;
      }
      assert second.table == now.table;
    }
  }

  const LATE := Row(Key("p", "x", "s"), 1, None, {}, None, None, 1)

  /**
    And it can happen: a session indexed between the two reads and deleted again leaves the revision as it was
    read, and the row in what was derived.
    */
  lemma DeletedInBetween()
    ensures var first := Index(map[], 0);
            var second := Changed(first, Write(LATE));
            var now := Changed(second, Delete({LATE.key}));
            && Sound(first) && Follows(first, second) && Follows(second, now)
            && IsRevision(first.table, Fingerprint(None, 0)) && IsRevision(now.table, Fingerprint(None, 0))
            && second.table != now.table && Sessions([LATE]) != Sessions([])
  {
    var first := Index(map[], 0);
    var second := Changed(first, Write(LATE));
    var now := Changed(second, Delete({LATE.key}));
    var cs, ds := [Write(LATE)], [Delete({LATE.key})];
    assert cs[1..] == [] && ds[1..] == [];
    assert Leads(second, [], second) && Leads(now, [], now);
    assert Leads(first, cs, second) && Leads(second, ds, now);
    assert now.table == map[] && LATE.key in second.table;
    OneSessionListed();
  }

  lemma OneSessionListed()
    ensures Sessions([LATE]) == [EntryOf(LATE)] && Sessions([]) == []
  {
    assert [LATE][1..] == [] && [LATE][..0] == [];
    assert Sorted(KeyLess, [LATE]) == [LATE];
    assert Merged([LATE]) == [EntryOf(LATE)];
    assert [EntryOf(LATE)][1..] == [];
  }
}
