/**
  The viewer's cache over the index (agent_wrap/domain/logs/cache.py): lists derived wholesale behind a
  revision gate, and exactly when a closed gate means they are still right.
  */
module LogsCache {
  import opened Totals
  import opened Listing
  import opened CacheLists
  import opened IndexTable

  // ---- the cache ----------------------------------------------------------------------------------

  method DeriveLists(hashes: seq<seq<string>>, rows: seq<Row>) returns (r: Lists)
    ensures r == Derived(hashes, rows, |hashes|)
  {
    r := NO_LISTS;
    for pid := 0 to |hashes|
      invariant r == Derived(hashes, rows, pid)
    {
      var own := OfHashes(rows, hashes[pid]);
      var entries := MergeSessions(own);
      r := Lists(r.sessions + [entries], r.marks + [FingerprintOf(own)], r.sessionMarks + [MarksOf(entries, own)], []);
    }
  }

  method DeriveAll(groups: seq<Group>, hashes: seq<seq<string>>, rows: seq<Row>) returns (r: Lists)
    requires |hashes| == |groups|
    ensures r == DerivedFrom(groups, hashes, rows)
  {
    r := DeriveLists(hashes, rows);
    r := r.(projects := ProjectsFrom(groups, r.sessions));
  }

  method JoinMarks(registry: Fingerprint, marks: seq<Fingerprint>) returns (mark: Fingerprint)
    ensures mark == JoinedMark(registry, marks)
  {
    mark := registry;
    for pid := 0 to |marks|
      invariant mark == JoinedFirst(registry, marks, pid)
    {
      mark := Fingerprint(Later(mark.rev, marks[pid].rev), mark.count + marks[pid].count);
    }
  }

  class LogsCache {
    var groups: seq<Group>
    var groupHashes: seq<seq<string>>
    var lists: Lists
    var projectsMark: Fingerprint
    var registry: Fingerprint
    var indexRevision: Option<Fingerprint>
    /** What the lists were derived from, what the projects mark was joined with, where the links pointed then. */
    ghost var source: Reading
    ghost var joined: Fingerprint
    ghost var links: Links

    constructor ()
      ensures Valid() && groups == [] && indexRevision == None
    {
      groups, groupHashes, lists := [], [], NO_LISTS;
      projectsMark, registry := NO_MARK, NO_MARK;
      indexRevision := None;
      links := map[];
    }

    ghost predicate Valid()
      reads this
    {
      && groupHashes == HashesOf(groups, links)
      && (indexRevision.Some? ==>
            && Honest(source) && source.revision == indexRevision.value
            && lists == DerivedFrom(groups, groupHashes, source.rows)
            && projectsMark == JoinedMark(joined, lists.marks))
    }

    method RefreshFromIndex(revision: Fingerprint, rows: seq<Row>, ghost reading: Reading)
      requires Valid() && Honest(reading) && reading.revision == revision && reading.rows == rows
      modifies this
      ensures Valid() && groups == old(groups) && groupHashes == old(groupHashes) && links == old(links)
      ensures registry == old(registry) && indexRevision == Some(revision)
      ensures if old(indexRevision) == Some(revision) then
                lists == old(lists) && projectsMark == old(projectsMark)
                && source == old(source) && joined == old(joined)
              else
                source == reading && lists == DerivedFrom(groups, groupHashes, rows) && joined == registry
                && projectsMark == JoinedMark(registry, lists.marks)
    {
      if indexRevision == Some(revision) {
        return;
      }
      Rederive(revision, rows, reading);
    }

    method Rederive(revision: Fingerprint, rows: seq<Row>, ghost reading: Reading)
      requires |groupHashes| == |groups|
      modifies this`lists, this`projectsMark, this`joined, this`indexRevision, this`source
      ensures lists == DerivedFrom(groups, groupHashes, rows)
      ensures projectsMark == JoinedMark(registry, lists.marks) && joined == registry
      ensures indexRevision == Some(revision) && source == reading
    {
      var derived := DeriveAll(groups, groupHashes, rows);
      // After the lists: it adds up their marks.
      var mark := JoinMarks(registry, derived.marks);
      lists, projectsMark, indexRevision := derived, mark, Some(revision);
      joined, source := registry, reading;
    }

    method ReindexRoots(pointing: Links)
      modifies this`groupHashes, this`links
      ensures groupHashes == HashesOf(groups, pointing) && links == pointing
    {
      groupHashes := HashesOf(groups, pointing);
      links := pointing;
    }

    /**
      A changed grouping re-opens the gate: the revision alone would not. It is the names of the directories
      that are compared, so a link that points elsewhere under its old name is not looked at again.
      */
    method Regroup(found: seq<Group>, pointing: Links)
      requires Valid()
      modifies this
      ensures Valid() && groups == found && registry == old(registry)
      ensures indexRevision == if found == old(groups) then old(indexRevision) else None
      ensures found == old(groups) ==> lists == old(lists) && projectsMark == old(projectsMark)
      ensures links == if found == old(groups) then old(links) else pointing
      ensures source == old(source) && joined == old(joined)
    {
      if found == groups {
        return;
      }
      groups := found;
      ReindexRoots(pointing);
      indexRevision := None;
    }

    method Reconcile(found: seq<Group>, pointing: Links, registryMark: Fingerprint, revision: Fingerprint,
                     rows: seq<Row>, ghost reading: Reading)
      requires Valid() && Honest(reading) && reading.revision == revision && reading.rows == rows
      modifies this
      ensures Valid() && groups == found && registry == registryMark && indexRevision == Some(revision)
      ensures links == if found == old(groups) then old(links) else pointing
      ensures found != old(groups) || old(indexRevision) != Some(revision) ==>
                source == reading && joined == registryMark && lists == DerivedFrom(found, HashesOf(found, links), rows)
                && projectsMark == JoinedMark(registryMark, lists.marks)
                && Serves(lists, found, links, rows) && IsJoined(projectsMark, registryMark, lists.marks)
      ensures found == old(groups) && old(indexRevision) == Some(revision) ==>
                lists == old(lists) && projectsMark == old(projectsMark)
                && source == old(source) && joined == old(joined)
    {
      registry := registryMark;
      Regroup(found, pointing);
      RefreshFromIndex(revision, rows, reading);
      DerivedServes(found, links, rows);
      MarksAreJoined(registryMark, lists.marks);
    }

    method Rebuild(found: seq<Group>, pointing: Links, registryMark: Fingerprint, revision: Fingerprint, rows: seq<Row>,
                   ghost reading: Reading)
      requires Valid() && Honest(reading) && reading.revision == revision && reading.rows == rows
      modifies this
      ensures Valid() && groups == found && registry == registryMark && indexRevision == Some(revision)
      ensures source == reading && lists == DerivedFrom(found, HashesOf(found, pointing), rows)
      ensures joined == registryMark && projectsMark == JoinedMark(registryMark, lists.marks)
      ensures Serves(lists, found, pointing, rows) && IsJoined(projectsMark, registryMark, lists.marks)
    {
      groups := [];
      ReindexRoots(pointing);
      projectsMark, lists := NO_MARK, NO_LISTS;
      indexRevision := None;
      assert Valid();
      Reconcile(found, pointing, registryMark, revision, rows, reading);
    }
  }

  // ---- a closed gate over the lists ---------------------------------------------------------------

  predicate Owned(hashes: seq<seq<string>>, hash: string) {
    exists i :: 0 <= i < |hashes| && hash in hashes[i]
  }

  /** Some directory of some group resolves under the central tree to this name. */
  predicate Claimed(groups: seq<Group>, links: Links, hash: string) {
    exists g, d :: g in groups && d in g.dirs && PointsAt(links, d, hash)
  }

  lemma OwnedIsClaimed(groups: seq<Group>, links: Links, hash: string)
    ensures Owned(HashesOf(groups, links), hash) <==> Claimed(groups, links, hash)
  {
    HashesOfAre(groups, links);
    forall i | 0 <= i < |groups|
      ensures hash in HashesOf(groups, links)[i] <==> exists d :: d in groups[i].dirs && PointsAt(links, d, hash)
    {
      HashesInAre(groups[i].dirs, links, hash);
    }
    if g, d :| g in groups && d in g.dirs && PointsAt(links, d, hash) {
      var i :| 0 <= i < |groups| && groups[i] == g;
      assert hash in HashesOf(groups, links)[i];
    }
  }

  /**
    The gate closed on the index as it is now: the table is the one whose revision was read, and the cached lists
    are those of its rows if and only if, of the rows they were derived from, none that a group owns has been
    deleted since.
    */
  lemma ClosedGate(c: LogsCache, now: Index, rows: seq<Row>)
    requires c.Valid() && c.indexRevision.Some? && Follows(c.source.at, now)
    requires IsRevision(now.table, c.indexRevision.value) && IsScan(now.table, rows)
    ensures now.table == c.source.before.table
    ensures c.lists == DerivedFrom(c.groups, c.groupHashes, rows)
            <==> forall k :: k in c.source.at.table && Claimed(c.groups, c.links, k.hash) ==> k in now.table
    ensures Serves(c.lists, c.groups, c.links, c.source.rows)
  {
    DerivedServes(c.groups, c.links, c.source.rows);
    forall hash: string
      ensures Owned(c.groupHashes, hash) <==> Claimed(c.groups, c.links, hash)
    {
      OwnedIsClaimed(c.groups, c.links, hash);
    }
    LaterStill(c.source.before, c.source.at, now);
    EqualRevisionsEqualRows(c.source.before, now, c.indexRevision.value);
    ListsStillRightIff(c.groups, c.groupHashes, c.source, now, rows);
  }

  lemma ListsStillRightIff(groups: seq<Group>, hashes: seq<seq<string>>, source: Reading, now: Index, rows: seq<Row>)
    requires |hashes| == |groups| && Honest(source) && Follows(source.at, now)
    requires IsRevision(now.table, source.revision) && IsScan(now.table, rows)
    ensures DerivedFrom(groups, hashes, source.rows) == DerivedFrom(groups, hashes, rows)
            <==> forall k :: k in source.at.table && Owned(hashes, k.hash) ==> k in now.table
  {
    LaterRows(source.before, source.at);
    var deleted := DeletedSince(source, now, rows);
    ListsWithout(groups, hashes, source.rows, rows, deleted);
    OwnedAreThere(source, now, hashes, deleted);
  }

  lemma ListsWithout(groups: seq<Group>, hashes: seq<seq<string>>, all: seq<Row>, rows: seq<Row>, deleted: seq<Row>)
    requires |hashes| == |groups| && Keyed(all) && multiset(all) == multiset(rows + deleted)
    ensures DerivedFrom(groups, hashes, all) == DerivedFrom(groups, hashes, rows)
            <==> forall r :: r in deleted ==> !Owned(hashes, r.key.hash)
  {
    DerivedAlike(hashes, all, rows + deleted, |groups|);
    DerivedWithout(hashes, rows, deleted, |groups|);
    OwnedRows(hashes, deleted);
    assert Derived(hashes, all, |groups|).projects == [] && Derived(hashes, rows, |groups|).projects == [];
    assert DerivedFrom(groups, hashes, all).(projects := []) == Derived(hashes, all, |groups|);
    assert DerivedFrom(groups, hashes, rows).(projects := []) == Derived(hashes, rows, |groups|);
  }

  lemma OwnedAreThere(source: Reading, now: Index, hashes: seq<seq<string>>, deleted: seq<Row>)
    requires IsScan(source.at.table, source.rows)
    requires Sound(source.at) && forall r :: r in deleted <==> r in source.rows && r.key !in now.table
    ensures (forall r :: r in deleted ==> !Owned(hashes, r.key.hash))
            <==> forall k :: k in source.at.table && Owned(hashes, k.hash) ==> k in now.table
  {
    forall k | k in source.at.table && k !in now.table
      ensures source.at.table[k] in deleted && source.at.table[k].key == k
    {
      assert source.at.table[k] in source.rows;
    }
  }

  /** The rows of a scan that are no longer there, the revision being back at its value. */
  lemma DeletedSince(source: Reading, now: Index, rows: seq<Row>) returns (deleted: seq<Row>)
    requires Honest(source) && Follows(source.at, now) && IsRevision(now.table, source.revision)
    requires IsScan(now.table, rows)
    ensures multiset(source.rows) == multiset(rows + deleted) && Keyed(source.rows)
    ensures forall r :: r in deleted <==> r in source.rows && r.key !in now.table
  {
    var keep := (r: Row) => r.key !in now.table;
    deleted := Keep(keep, source.rows);
    KeepsOnly(keep, source.rows);
    KeepDistinct(keep, source.rows);
    DistinctAppend(rows, deleted);
    StillThere(source, now);
    forall r: Row
      ensures r in source.rows <==> r in rows + deleted
    {
      if r in source.rows { assert source.at.table[r.key] == r; }
      if r in rows { assert now.table[r.key] == r && source.at.table[r.key] in source.rows; }
    }
    SameMembers(source.rows, rows + deleted);
  }

  /** With the revision back at its value, what is there now was there when the rows were scanned. */
  lemma StillThere(source: Reading, now: Index)
    requires Honest(source) && Follows(source.at, now) && IsRevision(now.table, source.revision)
    ensures forall k :: k in now.table ==> k in source.at.table && source.at.table[k] == now.table[k]
  {
    LaterStill(source.before, source.at, now);
    EqualRevisionsEqualRows(source.before, now, source.revision);
    LaterRows(source.before, source.at);
    LaterRows(source.at, now);
    forall k | k in now.table
      ensures k in source.at.table && source.at.table[k] == now.table[k]
    {
      assert now.table[k].ingested <= source.before.clock;
    }
  }

  lemma {:induction false} KeepDistinct(keep: Row -> bool, rows: seq<Row>)
    requires Distinct(rows)
    ensures Distinct(Keep(keep, rows))
  {
    if rows != [] {
      DistinctTail(rows);
      KeepDistinct(keep, rows[1..]);
      KeepsOnly(keep, rows[1..]);
      if keep(rows[0]) { DistinctAppend([rows[0]], Keep(keep, rows[1..])); }
    }
  }

  /** More rows change the first `n` projects' lists if and only if one of those projects owns one of them. */
  lemma DerivedWithout(hashes: seq<seq<string>>, rows: seq<Row>, more: seq<Row>, n: nat)
    requires n <= |hashes|
    ensures Derived(hashes, rows + more, n) == Derived(hashes, rows, n)
            <==> forall i :: 0 <= i < n ==> OfHashes(more, hashes[i]) == []
  {
    if Derived(hashes, rows + more, n) == Derived(hashes, rows, n) {
      forall i | 0 <= i < n
        ensures OfHashes(more, hashes[i]) == []
      {
        EqualWithout(hashes, rows, more, n, i);
      }
    }
    if forall i :: 0 <= i < n ==> OfHashes(more, hashes[i]) == [] { WithoutEqual(hashes, rows, more, n); }
  }

  lemma {:induction false} EqualWithout(hashes: seq<seq<string>>, rows: seq<Row>, more: seq<Row>, n: nat, i: nat)
    requires i < n <= |hashes| && Derived(hashes, rows + more, n) == Derived(hashes, rows, n)
    ensures OfHashes(more, hashes[i]) == []
  {
    OneListWithout(hashes, rows, more, n);
    if i < n - 1 { EqualWithout(hashes, rows, more, n - 1, i); }
  }

  lemma {:induction false} WithoutEqual(hashes: seq<seq<string>>, rows: seq<Row>, more: seq<Row>, n: nat)
    requires n <= |hashes| && forall i :: 0 <= i < n ==> OfHashes(more, hashes[i]) == []
    ensures Derived(hashes, rows + more, n) == Derived(hashes, rows, n)
  {
    if n > 0 {
      WithoutEqual(hashes, rows, more, n - 1);
      OneListWithout(hashes, rows, more, n);
    }
  }

  lemma OneListWithout(hashes: seq<seq<string>>, rows: seq<Row>, more: seq<Row>, n: nat)
    requires 0 < n <= |hashes|
    ensures Derived(hashes, rows + more, n) == Derived(hashes, rows, n)
            <==> Derived(hashes, rows + more, n - 1) == Derived(hashes, rows, n - 1)
                 && OfHashes(more, hashes[n - 1]) == []
  {
    OfHashesCounts(rows, more, hashes[n - 1]);
    if OfHashes(more, hashes[n - 1]) != [] {
      MarksDiffer(hashes, rows + more, rows, n);
    } else if Derived(hashes, rows + more, n) == Derived(hashes, rows, n) {
      PrefixesEqual(hashes, rows + more, rows, n);
    }
  }

  /** A list's mark counts the rows it was derived from. */
  lemma MarksDiffer(hashes: seq<seq<string>>, a: seq<Row>, b: seq<Row>, n: nat)
    requires 0 < n <= |hashes| && |OfHashes(a, hashes[n - 1])| != |OfHashes(b, hashes[n - 1])|
    ensures Derived(hashes, a, n) != Derived(hashes, b, n)
  {
    var ours, theirs := Derived(hashes, a, n).marks, Derived(hashes, b, n).marks;
    assert ours[|ours| - 1] == FingerprintOf(OfHashes(a, hashes[n - 1]));
    assert theirs[|theirs| - 1] == FingerprintOf(OfHashes(b, hashes[n - 1]));
  }

  lemma PrefixesEqual(hashes: seq<seq<string>>, a: seq<Row>, b: seq<Row>, n: nat)
    requires 0 < n <= |hashes| && Derived(hashes, a, n) == Derived(hashes, b, n)
    ensures Derived(hashes, a, n - 1) == Derived(hashes, b, n - 1)
  {
    InitsEqual(Derived(hashes, a, n - 1).sessions, Derived(hashes, b, n - 1).sessions,
               Sessions(OfHashes(a, hashes[n - 1])), Sessions(OfHashes(b, hashes[n - 1])));
    InitsEqual(Derived(hashes, a, n - 1).marks, Derived(hashes, b, n - 1).marks,
               FingerprintOf(OfHashes(a, hashes[n - 1])), FingerprintOf(OfHashes(b, hashes[n - 1])));
    InitsEqual(Derived(hashes, a, n - 1).sessionMarks, Derived(hashes, b, n - 1).sessionMarks,
               MarksOf(Sessions(OfHashes(a, hashes[n - 1])), OfHashes(a, hashes[n - 1])),
               MarksOf(Sessions(OfHashes(b, hashes[n - 1])), OfHashes(b, hashes[n - 1])));
  }

  lemma InitsEqual<T>(a: seq<T>, b: seq<T>, x: T, y: T)
    requires a + [x] == b + [y]
    ensures a == b
  {
    assert |a + [x]| == |b + [y]|;
    assert (a + [x])[..|a|] == a && (b + [y])[..|b|] == b;
  }

  lemma {:induction false} OfHashesCounts(rows: seq<Row>, more: seq<Row>, hashes: seq<string>)
    ensures |OfHashes(rows + more, hashes)| == |OfHashes(rows, hashes)| + |OfHashes(more, hashes)|
    ensures OfHashes(more, hashes) == [] ==> OfHashes(rows + more, hashes) == OfHashes(rows, hashes)
  {
    if hashes != [] {
      OfHashesCounts(rows, more, hashes[1..]);
      OfHashAppend(rows, more, hashes[0]);
    }
  }

  lemma OfHashAppend(rows: seq<Row>, more: seq<Row>, hash: string)
    ensures OfHash(rows + more, hash) == OfHash(rows, hash) + OfHash(more, hash)
  {
    KeepAppend((r: Row) => r.key.hash == hash, rows, more);
  }

  lemma OwnedRows(hashes: seq<seq<string>>, rows: seq<Row>)
    ensures (forall i :: 0 <= i < |hashes| ==> OfHashes(rows, hashes[i]) == [])
            <==> forall r :: r in rows ==> !Owned(hashes, r.key.hash)
  {
    forall i | 0 <= i < |hashes|
      ensures OfHashes(rows, hashes[i]) == [] <==> forall r :: r in rows ==> r.key.hash !in hashes[i]
    {
      OfHashesHolds(rows, hashes[i]);
      if OfHashes(rows, hashes[i]) != [] { assert OfHashes(rows, hashes[i])[0] in rows; }
    }
  }

  // ---- a closed gate over the projects mark -------------------------------------------------------

  predicate NotAfter(a: Option<int>, b: Option<int>) {
    Later(b, a) == b
  }

  /**
    The projects mark is computed behind the gate, but the registry moves in front of it. Its revision never goes
    back, and so the cached mark is that of the registry as it is now if and only if the registry's count is still
    the one that was joined, and its revision is not past the mark's.
    */
  lemma RegistryBehindTheGate(c: LogsCache)
    requires c.Valid() && c.indexRevision.Some? && NotAfter(c.joined.rev, c.registry.rev)
    ensures c.projectsMark == JoinedMark(c.registry, c.lists.marks)
            <==> c.registry.count == c.joined.count && NotAfter(c.registry.rev, c.projectsMark.rev)
  {
    JoinedAlike(c.joined, c.registry, c.lists.marks);
  }

  lemma JoinedAlike(before: Fingerprint, after: Fingerprint, marks: seq<Fingerprint>)
    requires NotAfter(before.rev, after.rev)
    ensures JoinedMark(before, marks) == JoinedMark(after, marks)
            <==> after.count == before.count && NotAfter(after.rev, JoinedMark(before, marks).rev)
  {
    JoinedIs(before, marks, |marks|);
    JoinedIs(after, marks, |marks|);
    LaterAlike(before.rev, after.rev, JoinedMark(NO_MARK, marks).rev);
  }

  lemma LaterAlike(a: Option<int>, b: Option<int>, none: Option<int>)
    requires NotAfter(a, b)
    ensures Later(a, none) == Later(b, none) <==> NotAfter(b, Later(a, none))
  {
  }

  lemma {:induction false} JoinedIs(registry: Fingerprint, marks: seq<Fingerprint>, n: nat)
    requires n <= |marks|
    ensures var none := JoinedFirst(NO_MARK, marks, n);
            JoinedFirst(registry, marks, n) == Fingerprint(Later(registry.rev, none.rev), registry.count + none.count)
  {
    if n > 0 { JoinedIs(registry, marks, n - 1); }
  }

  /** One more run of a known project moves the registry, the index stays as it was, and the mark stays behind. */
  method MarkLeftBehind() returns (c: LogsCache)
    ensures fresh(c) && c.Valid() && c.indexRevision.Some?
    ensures NotAfter(c.joined.rev, c.registry.rev) && c.projectsMark != JoinedMark(c.registry, c.lists.marks)
  {
    ghost var empty := Index(map[], 0);
    ghost var reading := Reading(NO_MARK, [], empty, empty);
    assert Leads(empty, [], empty);
    c := new LogsCache();
    c.Reconcile([], map[], Fingerprint(Some(1), 1), NO_MARK, [], reading);
    c.Reconcile([], map[], Fingerprint(Some(2), 1), NO_MARK, [], reading);
  }
}
