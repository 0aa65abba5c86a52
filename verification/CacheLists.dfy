/**
  The lists the viewer's cache derives from the index (agent_wrap/domain/logs/cache.py): which rows a project
  is credited with, and what its list, its marks and the list of projects say of them.
  */
module CacheLists {
  import opened Totals
  import opened Sorting
  import opened Listing

  /** What a logs directory resolves to: its name is a project hash only under the central tree. */
  datatype Resolved = Resolved(central: bool, name: string)

  /** What the links under the projects point at; any other path resolves to itself, outside the tree. */
  type Links = map<string, Resolved>

  /** A group lists its logs directories as the projects name them. */
  datatype Group = Group(root: string, name: string, paths: seq<string>, dirs: seq<string>)

  datatype Project = Project(id: nat, path: string, name: string, sessions: nat, last: Option<int>)

  /** Everything derived from the index, by project id. */
  datatype Lists = Lists(sessions: seq<seq<Entry>>, marks: seq<Fingerprint>,
                         sessionMarks: seq<map<string, Fingerprint>>, projects: seq<Project>)

  const NO_LISTS := Lists([], [], [], [])
  const NO_MARK := Fingerprint(None, 0)

  // ---- deriving -----------------------------------------------------------------------------------

  function HashesIn(dirs: seq<string>, links: Links): seq<string> {
    if dirs == [] then []
    else
      (if dirs[0] in links && links[dirs[0]].central then [links[dirs[0]].name] else []) + HashesIn(dirs[1..], links)
  }

  function HashesOf(groups: seq<Group>, links: Links): (r: seq<seq<string>>)
    ensures |r| == |groups|
  {
    if groups == [] then [] else [HashesIn(groups[0].dirs, links)] + HashesOf(groups[1..], links)
  }

  function Keep(keep: Row -> bool, rows: seq<Row>): seq<Row> {
    if rows == [] then [] else (if keep(rows[0]) then [rows[0]] else []) + Keep(keep, rows[1..])
  }

  function OfHash(rows: seq<Row>, hash: string): seq<Row> {
    Keep((r: Row) => r.key.hash == hash, rows)
  }

  function OfSession(rows: seq<Row>, session: string): seq<Row> {
    Keep((r: Row) => r.key.session == session, rows)
  }

  function OfHashes(rows: seq<Row>, hashes: seq<string>): seq<Row> {
    if hashes == [] then [] else OfHash(rows, hashes[0]) + OfHashes(rows, hashes[1..])
  }

  function MarksOf(entries: seq<Entry>, rows: seq<Row>): map<string, Fingerprint> {
    map e | e in entries :: e.session := FingerprintOf(OfSession(rows, e.session))
  }

  /** The first `n` projects' lists. */
  function Derived(hashes: seq<seq<string>>, rows: seq<Row>, n: nat): (r: Lists)
    requires n <= |hashes|
    ensures |r.sessions| == n
  {
    if n == 0 then NO_LISTS
    else
      var before, own := Derived(hashes, rows, n - 1), OfHashes(rows, hashes[n - 1]);
      Lists(before.sessions + [Sessions(own)], before.marks + [FingerprintOf(own)],
            before.sessionMarks + [MarksOf(Sessions(own), own)], [])
  }

  // ---- the scan's order does not matter -----------------------------------------------------------

  lemma {:induction false} KeepAlike(keep: Row -> bool, a: seq<Row>, b: seq<Row>)
    requires multiset(a) == multiset(b)
    ensures multiset(Keep(keep, a)) == multiset(Keep(keep, b))
    decreases |a|
  {
    if a == [] {
      assert |multiset(b)| == |multiset(a)|;
    } else {
      var i := Pluck(a, b);
      KeepAlike(keep, a[1..], b[..i] + b[i + 1..]);
      KeepAppend(keep, b[..i], b[i + 1..]);
      KeepAppend(keep, b[..i], [a[0]] + b[i + 1..]);
    }
  }

  lemma {:induction false} KeepAppend(keep: Row -> bool, a: seq<Row>, b: seq<Row>)
    ensures Keep(keep, a + b) == Keep(keep, a) + Keep(keep, b)
  {
    if a == [] {
      assert a + b == b;
    } else {
      assert (a + b)[1..] == a[1..] + b;
      KeepAppend(keep, a[1..], b);
      Append3(if keep(a[0]) then [a[0]] else [], Keep(keep, a[1..]), Keep(keep, b));
    }
  }

  lemma {:induction false} KeepsOnly(keep: Row -> bool, rows: seq<Row>)
    ensures forall r :: r in Keep(keep, rows) <==> r in rows && keep(r)
  {
    if rows != [] {
      KeepsOnly(keep, rows[1..]);
      assert forall r :: r in rows <==> r == rows[0] || r in rows[1..];
    }
  }

  lemma {:induction false} OfHashesAlike(a: seq<Row>, b: seq<Row>, hashes: seq<string>)
    requires multiset(a) == multiset(b)
    ensures multiset(OfHashes(a, hashes)) == multiset(OfHashes(b, hashes))
    ensures forall r :: r in OfHashes(a, hashes) ==> r in a
  {
    if hashes != [] {
      OfHashesAlike(a, b, hashes[1..]);
      KeepAlike((r: Row) => r.key.hash == hashes[0], a, b);
      KeepsOnly((r: Row) => r.key.hash == hashes[0], a);
    }
  }

  lemma MarksAlike(entries: seq<Entry>, a: seq<Row>, b: seq<Row>)
    requires multiset(a) == multiset(b)
    ensures MarksOf(entries, a) == MarksOf(entries, b)
  {
    forall e | e in entries
      ensures FingerprintOf(OfSession(a, e.session)) == FingerprintOf(OfSession(b, e.session))
    {
      KeepAlike((r: Row) => r.key.session == e.session, a, b);
      AnyOrderMarksAlike(OfSession(a, e.session), OfSession(b, e.session));
    }
  }

  lemma {:induction false} DerivedAlike(hashes: seq<seq<string>>, a: seq<Row>, b: seq<Row>, n: nat)
    requires n <= |hashes| && Keyed(a) && multiset(a) == multiset(b)
    ensures Derived(hashes, a, n) == Derived(hashes, b, n)
  {
    if n > 0 {
      DerivedAlike(hashes, a, b, n - 1);
      var ours, theirs := OfHashes(a, hashes[n - 1]), OfHashes(b, hashes[n - 1]);
      OfHashesAlike(a, b, hashes[n - 1]);
      AnyOrderMergesAlike(ours, theirs);
      AnyOrderMarksAlike(ours, theirs);
      MarksAlike(Sessions(ours), ours, theirs);
    }
  }

  // ---- projects -----------------------------------------------------------------------------------

  function LatestOf(entries: seq<Entry>): Option<int> {
    if entries == [] then None else Later(LatestOf(entries[..|entries| - 1]), entries[|entries| - 1].last)
  }

  /** Groups with sessions, in id order. */
  function Listed(groups: seq<Group>, sessions: seq<seq<Entry>>, n: nat): seq<Project>
    requires n <= |groups| && n <= |sessions|
  {
    if n == 0 then []
    else if sessions[n - 1] == [] then Listed(groups, sessions, n - 1)
    else Listed(groups, sessions, n - 1)
         + [Project(n - 1, groups[n - 1].root, groups[n - 1].name, |sessions[n - 1]|, LatestOf(sessions[n - 1]))]
  }

  function ProjectRecency(p: Project): int {
    if p.last.Some? then p.last.value else 0
  }

  function NewerProject(a: Project, b: Project): bool {
    ProjectRecency(a) > ProjectRecency(b)
  }

  function ProjectsFrom(groups: seq<Group>, sessions: seq<seq<Entry>>): seq<Project>
    requires |sessions| == |groups|
  {
    Sorted(NewerProject, Listed(groups, sessions, |groups|))
  }

  function DerivedFrom(groups: seq<Group>, hashes: seq<seq<string>>, rows: seq<Row>): Lists
    requires |hashes| == |groups|
  {
    var lists := Derived(hashes, rows, |groups|);
    lists.(projects := ProjectsFrom(groups, lists.sessions))
  }

  /** The registry's own mark joined with every group's. */
  function JoinedMark(registry: Fingerprint, marks: seq<Fingerprint>): Fingerprint {
    JoinedFirst(registry, marks, |marks|)
  }

  /** Joined with the first `n`. */
  function JoinedFirst(registry: Fingerprint, marks: seq<Fingerprint>, n: nat): Fingerprint
    requires n <= |marks|
  {
    if n == 0 then registry
    else
      var before, own := JoinedFirst(registry, marks, n - 1), marks[n - 1];
      Fingerprint(Later(before.rev, own.rev), before.count + own.count)
  }

  // ---- which rows a project is credited with ------------------------------------------------------

  /** A symlink pointing outside the central tree is disowned, whatever the name it points at. */
  predicate PointsAt(links: Links, dir: string, hash: string) {
    dir in links && links[dir].central && links[dir].name == hash
  }

  /** How many of the directories resolve under the central tree to this name. */
  function Pointing(dirs: seq<string>, links: Links, hash: string): nat {
    if dirs == [] then 0 else (if PointsAt(links, dirs[0], hash) then 1 else 0) + Pointing(dirs[1..], links, hash)
  }

  /**
    The rows whose hash is the name some directory of the group resolves to under the central tree, and no others;
    each once for every such directory.
    */
  ghost predicate Credited(own: seq<Row>, rows: seq<Row>, g: Group, links: Links) {
    && (forall r :: r in own <==> r in rows && exists d :: d in g.dirs && PointsAt(links, d, r.key.hash))
    && forall r :: multiset(own)[r] == Pointing(g.dirs, links, r.key.hash) * multiset(rows)[r]
  }

  lemma {:induction false} HashesInAre(dirs: seq<string>, links: Links, hash: string)
    ensures hash in HashesIn(dirs, links) <==> exists d :: d in dirs && PointsAt(links, d, hash)
    ensures multiset(HashesIn(dirs, links))[hash] == Pointing(dirs, links, hash)
  {
    if dirs != [] {
      HashesInAre(dirs[1..], links, hash);
      assert forall d :: d in dirs <==> d == dirs[0] || d in dirs[1..];
    }
  }

  lemma {:induction false} KeepCounts(keep: Row -> bool, rows: seq<Row>, r: Row)
    ensures multiset(Keep(keep, rows))[r] == if keep(r) then multiset(rows)[r] else 0
  {
    if rows != [] {
      KeepCounts(keep, rows[1..], r);
      assert rows == [rows[0]] + rows[1..];
    }
  }

  lemma {:induction false} OfHashesHolds(rows: seq<Row>, hashes: seq<string>)
    ensures forall r :: r in OfHashes(rows, hashes) <==> r in rows && r.key.hash in hashes
  {
    if hashes != [] {
      OfHashesHolds(rows, hashes[1..]);
      KeepsOnly((r: Row) => r.key.hash == hashes[0], rows);
      assert forall h :: h in hashes <==> h == hashes[0] || h in hashes[1..];
    }
  }

  lemma {:induction false} OfHashesMultiply(rows: seq<Row>, hashes: seq<string>, r: Row)
    ensures multiset(OfHashes(rows, hashes))[r] == multiset(hashes)[r.key.hash] * multiset(rows)[r]
  {
    if hashes != [] {
      OfHashesMultiply(rows, hashes[1..], r);
      OfHashCounts(rows, hashes[0], r);
      CountFirst(hashes, r.key.hash);
      OneMoreTime(if hashes[0] == r.key.hash then 1 else 0, multiset(hashes[1..])[r.key.hash], multiset(rows)[r]);
    }
  }

  lemma OfHashCounts(rows: seq<Row>, hash: string, r: Row)
    ensures multiset(OfHash(rows, hash))[r] == if hash == r.key.hash then multiset(rows)[r] else 0
  {
    KeepCounts((q: Row) => q.key.hash == hash, rows, r);
  }

  lemma CountFirst<T>(s: seq<T>, x: T)
    requires s != []
    ensures multiset(s)[x] == (if s[0] == x then 1 else 0) + multiset(s[1..])[x]
  {
    assert s == [s[0]] + s[1..];
  }

  lemma OneMoreTime(here: nat, rest: nat, n: nat)
    requires here <= 1
    ensures (here + rest) * n == (if here == 1 then n else 0) + rest * n
  {
  }

  lemma {:induction false} HashesOfAre(groups: seq<Group>, links: Links)
    ensures forall i :: 0 <= i < |groups| ==> HashesOf(groups, links)[i] == HashesIn(groups[i].dirs, links)
  {
    if groups != [] { HashesOfAre(groups[1..], links); }
  }

  lemma RowsAreCredited(rows: seq<Row>, g: Group, links: Links)
    ensures Credited(OfHashes(rows, HashesIn(g.dirs, links)), rows, g, links)
  {
    var hashes := HashesIn(g.dirs, links);
    OfHashesHolds(rows, hashes);
    forall r: Row
      ensures r.key.hash in hashes <==> exists d :: d in g.dirs && PointsAt(links, d, r.key.hash)
      ensures multiset(OfHashes(rows, hashes))[r] == Pointing(g.dirs, links, r.key.hash) * multiset(rows)[r]
    {
      HashesInAre(g.dirs, links, r.key.hash);
      OfHashesMultiply(rows, hashes, r);
    }
  }

  // ---- what a project's list and marks say --------------------------------------------------------

  /** The newest ingest time of exactly these rows, and their number. */
  ghost predicate IsMark(m: Fingerprint, rows: seq<Row>) {
    && m.count == |rows| && (m.rev == None <==> rows == [])
    && (m.rev.Some? ==> exists r :: r in rows && r.ingested == m.rev.value)
    && forall r :: r in rows ==> m.rev.Some? && r.ingested <= m.rev.value
  }

  lemma FingerprintIsMark(rows: seq<Row>)
    ensures IsMark(FingerprintOf(rows), rows)
  {
    if rows != [] {
      var i :| 0 <= i < |rows| && rows[i].ingested == Newest(rows);
      assert rows[i] in rows;
    }
  }

  /** `theirs` are the rows of one session among `own`. */
  ghost predicate SessionRows(theirs: seq<Row>, own: seq<Row>, session: string) {
    forall r :: multiset(theirs)[r] == if r.key.session == session then multiset(own)[r] else 0
  }

  ghost predicate MarksSession(m: Fingerprint, own: seq<Row>, session: string) {
    exists theirs :: SessionRows(theirs, own, session) && IsMark(m, theirs)
  }

  /** One project: its sessions summed up, its own mark, and one mark for each session listed. */
  ghost predicate ServesRows(sessions: seq<Entry>, mark: Fingerprint, marks: map<string, Fingerprint>, own: seq<Row>) {
    && IsListOf(sessions, own) && IsMark(mark, own)
    && (forall s :: s in marks <==> exists e :: e in sessions && e.session == s)
    && forall s :: s in marks ==> MarksSession(marks[s], own, s)
  }

  lemma MarkIsTheSessions(own: seq<Row>, s: string)
    ensures MarksSession(FingerprintOf(OfSession(own, s)), own, s)
  {
    FingerprintIsMark(OfSession(own, s));
    forall r: Row
      ensures multiset(OfSession(own, s))[r] == if r.key.session == s then multiset(own)[r] else 0
    {
      KeepCounts((q: Row) => q.key.session == s, own, r);
    }
    assert SessionRows(OfSession(own, s), own, s);
  }

  lemma MarksAreTheSessions(own: seq<Row>, entries: seq<Entry>)
    ensures var marks := MarksOf(entries, own);
            && (forall s :: s in marks <==> exists e :: e in entries && e.session == s)
            && forall s :: s in marks ==> MarksSession(marks[s], own, s)
  {
    forall s: string
      ensures MarksSession(FingerprintOf(OfSession(own, s)), own, s)
    {
      MarkIsTheSessions(own, s);
    }
  }

  lemma ServesItsRows(own: seq<Row>)
    ensures ServesRows(Sessions(own), FingerprintOf(own), MarksOf(Sessions(own), own), own)
  {
    SessionsSumUp(own);
    FingerprintIsMark(own);
    MarksAreTheSessions(own, Sessions(own));
  }

  ghost predicate ServesGroup(lists: Lists, i: nat, g: Group, links: Links, rows: seq<Row>)
    requires i < |lists.sessions| && i < |lists.marks| && i < |lists.sessionMarks|
  {
    exists own :: Credited(own, rows, g, links)
                  && ServesRows(lists.sessions[i], lists.marks[i], lists.sessionMarks[i], own)
  }

  /** The `i`-th list and marks are those derived from these rows. */
  ghost predicate IsFrom(lists: Lists, i: nat, own: seq<Row>) {
    && i < |lists.sessions| && i < |lists.marks| && i < |lists.sessionMarks|
    && lists.sessions[i] == Sessions(own) && lists.marks[i] == FingerprintOf(own)
    && lists.sessionMarks[i] == MarksOf(Sessions(own), own)
  }

  lemma {:induction false} DerivedAt(hashes: seq<seq<string>>, rows: seq<Row>, n: nat, i: nat)
    requires i < n <= |hashes|
    ensures IsFrom(Derived(hashes, rows, n), i, OfHashes(rows, hashes[i]))
  {
    var before, own := Derived(hashes, rows, n - 1), OfHashes(rows, hashes[n - 1]);
    DerivedLengths(hashes, rows, n - 1);
    if i < n - 1 { DerivedAt(hashes, rows, n - 1, i); }
    OneMoreList(before, Derived(hashes, rows, n), own, OfHashes(rows, hashes[i]), i);
  }

  lemma OneMoreList(before: Lists, lists: Lists, last: seq<Row>, own: seq<Row>, i: nat)
    requires |before.sessions| == |before.marks| == |before.sessionMarks|
    requires lists.sessions == before.sessions + [Sessions(last)]
    requires lists.marks == before.marks + [FingerprintOf(last)]
    requires lists.sessionMarks == before.sessionMarks + [MarksOf(Sessions(last), last)]
    requires IsFrom(before, i, own) || (i == |before.sessions| && own == last)
    ensures IsFrom(lists, i, own)
  {
  }

  lemma {:induction false} DerivedLengths(hashes: seq<seq<string>>, rows: seq<Row>, n: nat)
    requires n <= |hashes|
    ensures var lists := Derived(hashes, rows, n); |lists.sessions| == |lists.marks| == |lists.sessionMarks| == n
  {
    if n > 0 { DerivedLengths(hashes, rows, n - 1); }
  }

  // ---- the list of projects -----------------------------------------------------------------------

  ghost predicate IsLatestOf(entries: seq<Entry>, last: Option<int>) {
    && (forall e :: e in entries && e.last.Some? ==> last.Some? && e.last.value <= last.value)
    && (last.Some? ==> exists e :: e in entries && e.last == last)
  }

  lemma {:induction false} LatestIsLatest(entries: seq<Entry>)
    ensures IsLatestOf(entries, LatestOf(entries))
  {
    if entries != [] {
      var init, e := entries[..|entries| - 1], entries[|entries| - 1];
      LatestIsLatest(init);
      assert entries == init + [e];
      assert forall x :: x in entries <==> x in init || x == e;
    }
  }

  ghost predicate IsProject(p: Project, groups: seq<Group>, sessions: seq<seq<Entry>>) {
    && p.id < |groups| && p.id < |sessions| && sessions[p.id] != []
    && p.path == groups[p.id].root && p.name == groups[p.id].name
    && p.sessions == |sessions[p.id]| && IsLatestOf(sessions[p.id], p.last)
  }

  /** The groups with sessions and no others, the most recent first, and of equally recent ones the first group. */
  ghost predicate IsProjectList(projects: seq<Project>, groups: seq<Group>, sessions: seq<seq<Entry>>) {
    && (forall p :: p in projects ==> IsProject(p, groups, sessions))
    && (forall i :: 0 <= i < |sessions| && sessions[i] != [] ==> exists p :: p in projects && p.id == i)
    && forall i, j :: 0 <= i < j < |projects| ==>
         NotOlder(projects[i].last, projects[j].last)
         && (NotOlder(projects[j].last, projects[i].last) ==> projects[i].id < projects[j].id)
  }

  /** The first `n` groups that have sessions, in id order. */
  ghost predicate ListsUpTo(listed: seq<Project>, groups: seq<Group>, sessions: seq<seq<Entry>>, n: nat)
    requires n <= |sessions|
  {
    && (forall p :: p in listed ==> IsProject(p, groups, sessions) && p.id < n)
    && (forall i :: 0 <= i < n && sessions[i] != [] ==> exists p :: p in listed && p.id == i)
    && forall i, j :: 0 <= i < j < |listed| ==> listed[i].id < listed[j].id
  }

  lemma {:induction false} ListedAre(groups: seq<Group>, sessions: seq<seq<Entry>>, n: nat)
    requires n <= |groups| && n <= |sessions|
    ensures ListsUpTo(Listed(groups, sessions, n), groups, sessions, n)
  {
    if n > 0 {
      ListedAre(groups, sessions, n - 1);
      if sessions[n - 1] != [] {
        var p := Project(n - 1, groups[n - 1].root, groups[n - 1].name, |sessions[n - 1]|, LatestOf(sessions[n - 1]));
        LatestIsLatest(sessions[n - 1]);
        OneMoreListed(groups, sessions, n, Listed(groups, sessions, n - 1), p);
      }
    }
  }

  lemma OneMoreListed(groups: seq<Group>, sessions: seq<seq<Entry>>, n: nat, before: seq<Project>, p: Project)
    requires 0 < n <= |groups| && n <= |sessions| && p.id == n - 1 && IsProject(p, groups, sessions)
    requires ListsUpTo(before, groups, sessions, n - 1)
    ensures ListsUpTo(before + [p], groups, sessions, n)
  {
    forall i | 0 <= i < n && sessions[i] != []
      ensures exists q :: q in before + [p] && q.id == i
    {
      if i < n - 1 {
        var q :| q in before && q.id == i;
        assert q in before + [p];
      } else {
        assert p in before + [p];
      }
    }
  }

  lemma {:induction false} ProjectsRecent()
    ensures WeakOrder(NewerProject)
  {
  }

  lemma ProjectsAreListed(groups: seq<Group>, sessions: seq<seq<Entry>>)
    requires |sessions| == |groups|
    ensures IsProjectList(ProjectsFrom(groups, sessions), groups, sessions)
  {
    ListedAre(groups, sessions, |groups|);
    RankedByRecency(Listed(groups, sessions, |groups|));
  }

  lemma RankedByRecency(listed: seq<Project>)
    requires forall i, j :: 0 <= i < j < |listed| ==> listed[i].id < listed[j].id
    ensures var ranked := Sorted(NewerProject, listed);
            && (forall p :: p in ranked <==> p in listed) && InOrder(NewerProject, ranked)
            && forall i, j :: 0 <= i < j < |ranked| ==>
                 NewerProject(ranked[i], ranked[j]) || ranked[i].id < ranked[j].id
  {
    ProjectsRecent();
    SortedInOrder(NewerProject, listed);
    SortedStable(NewerProject, listed, (a: Project, b: Project) => a.id < b.id);
    assert forall p :: p in listed ==> p in multiset(Sorted(NewerProject, listed));
  }

  // ---- everything served --------------------------------------------------------------------------

  /** Whatever the lists were computed by, this is what they say of the groups, the links and the rows. */
  ghost predicate Serves(lists: Lists, groups: seq<Group>, links: Links, rows: seq<Row>) {
    && |lists.sessions| == |lists.marks| == |lists.sessionMarks| == |groups|
    && (forall i :: 0 <= i < |groups| ==> ServesGroup(lists, i, groups[i], links, rows))
    && IsProjectList(lists.projects, groups, lists.sessions)
  }

  lemma DerivedServes(groups: seq<Group>, links: Links, rows: seq<Row>)
    ensures Serves(DerivedFrom(groups, HashesOf(groups, links), rows), groups, links, rows)
  {
    var hashes := HashesOf(groups, links);
    var lists := DerivedFrom(groups, hashes, rows);
    DerivedLengths(hashes, rows, |groups|);
    HashesOfAre(groups, links);
    forall i | 0 <= i < |groups|
      ensures ServesGroup(lists, i, groups[i], links, rows)
    {
      DerivedAt(hashes, rows, |groups|, i);
      RowsAreCredited(rows, groups[i], links);
      ServesItsRows(OfHashes(rows, hashes[i]));
    }
    ProjectsAreListed(groups, lists.sessions);
  }

  function CountAll(marks: seq<Fingerprint>): nat {
    if marks == [] then 0 else marks[0].count + CountAll(marks[1..])
  }

  /** The latest of the revisions, the registry's own among them, and everything counted. */
  ghost predicate IsJoined(mark: Fingerprint, registry: Fingerprint, marks: seq<Fingerprint>) {
    && mark.count == registry.count + CountAll(marks)
    && (forall m :: (m == registry || m in marks) && m.rev.Some? ==> mark.rev.Some? && m.rev.value <= mark.rev.value)
    && (mark.rev.Some? ==> exists m :: (m == registry || m in marks) && m.rev == mark.rev)
  }

  lemma {:induction false} CountAllAppend(marks: seq<Fingerprint>, m: Fingerprint)
    ensures CountAll(marks + [m]) == CountAll(marks) + m.count
  {
    if marks == [] {
      assert marks + [m] == [m];
    } else {
      assert (marks + [m])[1..] == marks[1..] + [m];
      CountAllAppend(marks[1..], m);
    }
  }

  lemma {:induction false} JoinedFirstIs(registry: Fingerprint, marks: seq<Fingerprint>, n: nat)
    requires n <= |marks|
    ensures IsJoined(JoinedFirst(registry, marks, n), registry, marks[..n])
  {
    if n > 0 {
      JoinedFirstIs(registry, marks, n - 1);
      assert marks[..n] == marks[..n - 1] + [marks[n - 1]];
      CountAllAppend(marks[..n - 1], marks[n - 1]);
    }
  }

  lemma MarksAreJoined(registry: Fingerprint, marks: seq<Fingerprint>)
    ensures IsJoined(JoinedMark(registry, marks), registry, marks)
  {
    JoinedFirstIs(registry, marks, |marks|);
    assert marks[..|marks|] == marks;
  }
}
