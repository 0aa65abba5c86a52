/**
  Reclaiming content (agent_wrap/infrastructure/logs/repositories/ingest.py, `sweep_blobs`): reachability
  from the stored requests, through pointers quoted in text, computed over a shrinking candidate set.
  */
module BlobSweep {
  import opened IngestPass

  function QuotedBy(f: Format, cs: set<Content>): set<Content> {
    set k, c | k in cs && c in f.quotes(k) :: c
  }

  /** What the request rows name: by reference, or by a pointer inside an error message. */
  function Named(f: Format, rows: seq<Request>): set<Content> {
    if rows == [] then {}
    else
      var r := rows[0].record;
      (set v | v in r.values) + (if r.error.Some? then f.quotes(r.error.value) else {}) + Named(f, rows[1..])
  }

  /** Stored content reachable from `known`, a set of stored content itself. */
  function Reachable(f: Format, blobs: set<Content>, known: set<Content>): set<Content>
    decreases blobs - known
  {
    var more := QuotedBy(f, known) * blobs - known;
    if more == {} then known
    else
      assert blobs - (known + more) < blobs - known by {
        var x :| x in more;
        assert x in blobs - known && x !in blobs - (known + more);
      }
      Reachable(f, blobs, known + more)
  }

  function Alive(f: Format, db: Db): set<Content> {
    Reachable(f, db.blobs, Named(f, db.rows) * db.blobs)
  }

  ghost predicate Closed(f: Format, blobs: set<Content>, s: set<Content>) {
    QuotedBy(f, s) * blobs <= s
  }

  /** The least closed set around what is known. */
  lemma {:induction false} ReachableIsLeast(f: Format, blobs: set<Content>, known: set<Content>, t: set<Content>)
    requires known <= blobs
    ensures var r := Reachable(f, blobs, known); known <= r <= blobs && Closed(f, blobs, r)
    ensures known <= t && Closed(f, blobs, t) ==> Reachable(f, blobs, known) <= t
    decreases blobs - known
  {
    var more := QuotedBy(f, known) * blobs - known;
    if more != {} {
      var x :| x in more;
      assert x in blobs - known && x !in blobs - (known + more);
      if known <= t { assert QuotedBy(f, known) <= QuotedBy(f, t); }
      ReachableIsLeast(f, blobs, known + more, t);
    } else {
      assert forall c :: c in QuotedBy(f, known) * blobs ==> c in known || c in more;
    }
  }

  /** The candidates found doomed are exactly the unreachable blobs. */
  method Doomed(f: Format, db: Db) returns (candidates: set<Content>)
    ensures candidates == db.blobs - Alive(f, db)
  {
    var named := Named(f, db.rows) * db.blobs;
    var referenced := Referenced(db.rows) * db.blobs;
    ReferencedIsNamed(f, db.rows);
    ghost var alive := Alive(f, db);
    ReachableIsLeast(f, db.blobs, named, alive);
    candidates := db.blobs - referenced;
    var frontier := named * candidates;
    candidates := candidates - frontier;
    var more := QuotedBy(f, referenced) * candidates;
    candidates := candidates - more;
    frontier := frontier + more;
    while frontier != {} && candidates != {}
      invariant candidates <= db.blobs && frontier <= db.blobs - candidates
      invariant named <= db.blobs - candidates <= alive
      invariant QuotedBy(f, db.blobs - candidates - frontier) * candidates == {}
      decreases candidates, frontier
    {
      var claimed := QuotedBy(f, frontier) * candidates;
      ClaimKeeps(f, db.blobs, candidates, frontier, alive);
      candidates := candidates - claimed;
      frontier := claimed;
    }
    ReachableIsLeast(f, db.blobs, named, db.blobs - candidates);
    if candidates != {} {
      assert db.blobs - candidates - frontier == db.blobs - candidates;
      assert Closed(f, db.blobs, db.blobs - candidates);
    }
  }

  function Referenced(rows: seq<Request>): set<Content> {
    if rows == [] then {} else (set v | v in rows[0].record.values) + Referenced(rows[1..])
  }

  lemma {:induction false} ReferencedIsNamed(f: Format, rows: seq<Request>)
    ensures Referenced(rows) <= Named(f, rows)
  {
    if rows != [] { ReferencedIsNamed(f, rows[1..]); }
  }

  lemma ClaimKeeps(f: Format, blobs: set<Content>, candidates: set<Content>, frontier: set<Content>,
                   alive: set<Content>)
    requires candidates <= blobs && frontier <= blobs - candidates <= alive && Closed(f, blobs, alive)
    requires QuotedBy(f, blobs - candidates - frontier) * candidates == {}
    ensures var claimed := QuotedBy(f, frontier) * candidates;
            && blobs - (candidates - claimed) <= alive
            && QuotedBy(f, blobs - (candidates - claimed) - claimed) * (candidates - claimed) == {}
  {
    var claimed := QuotedBy(f, frontier) * candidates;
    forall c | c in claimed
      ensures c in alive
    {
      assert c in QuotedBy(f, alive) * blobs;
    }
    var scanned := blobs - candidates - frontier;
    forall k, c | k in scanned && c in f.quotes(k)
      ensures c !in candidates
    {
      assert c in candidates ==> c in QuotedBy(f, scanned) * candidates;
    }
    assert blobs - (candidates - claimed) - claimed <= scanned + frontier;
  }

  /** Directly quoted strings of a stored row are reachable while they are stored. */
  lemma {:induction false} QuotedAreAlive(f: Format, db: Db, i: nat, c: Content)
    requires i < |db.rows| && ValuesStored(db) && c in QuotesOf(f, db.rows[i].record) && c in db.blobs
    ensures c in Alive(f, db)
  {
    var named := Named(f, db.rows) * db.blobs;
    ReachableIsLeast(f, db.blobs, named, {});
    RowIsNamed(f, db.rows, i);
    var r := db.rows[i].record;
    if v :| v in r.values && c in f.quotes(v) {
      assert v in db.blobs && v in Alive(f, db);
      assert c in QuotedBy(f, Alive(f, db)) * db.blobs;
    }
  }

  /** The strings a record's text quotes. */
  function QuotesOf(f: Format, r: Record): set<Content> {
    QuotedBy(f, set v | v in r.values) + if r.error.Some? then f.quotes(r.error.value) else {}
  }

  lemma {:induction false} RowIsNamed(f: Format, rows: seq<Request>, i: nat)
    requires i < |rows|
    ensures forall v :: v in rows[i].record.values ==> v in Named(f, rows)
    ensures rows[i].record.error.Some? ==> f.quotes(rows[i].record.error.value) <= Named(f, rows)
  {
    if i > 0 { RowIsNamed(f, rows[1..], i - 1); }
  }
}
