/**
  Ingest and the session stream together: the index a completed pass leaves behind is one from which the session's
  records are served complete (agent_wrap/domain/logs/ingest.py against agent_wrap/domain/logs/stream.py).
  */
module Serving {
  import opened Totals
  import opened Json
  import opened Stream
  import opened Viewer
  import opened IngestPass
  import opened BlobSweep
  import opened IngestProtocol
  import opened IngestRuns
  import opened SessionRebuild
  import opened SessionExact
  import opened SessionAtRest
  import opened SessionPolls
  import opened SessionServed

  /** What stored content is for whoever reads it: its row id, its pointer, its value; and what a record refers to. */
  datatype Codec = Codec(
    id: Content -> nat, withId: nat -> Content, pointer: Content -> string, withPointer: string -> Content,
    value: Content -> Json, text: Content -> string,
    messages: Record -> seq<Content>, system: Record -> Option<Content>, tools: Record -> Option<Content>,
    rest: Record -> seq<Field>)

  /** Ids and pointers name one content each, and the pointers in a value, or in a record, are those it quotes. */
  ghost predicate Reads(f: Format, k: Codec) {
    && (forall c :: k.withId(k.id(c)) == c)
    && (forall c :: k.withPointer(k.pointer(c)) == c && IsPointer(k.pointer(c)))
    && (forall c, d :: HasLeaf(k.value(c), k.pointer(d)) ==> d in f.quotes(c))
    && (forall r, d :: HasLeaf(Obj(k.rest(r)), k.pointer(d)) ==> d in QuotesOf(f, r))
    && (forall r, c :: RefersTo(k, r, c) ==> c in r.values)
  }

  predicate RefersTo(k: Codec, r: Record, c: Content) {
    c in k.messages(r) || k.system(r) == Some(c) || k.tools(r) == Some(c)
  }

  /** The index as the stream sees it, these blobs being stored. */
  function IndexOf(k: Codec, blobs: set<Content>): Index {
    Index(map n: nat | n in (set c | c in blobs :: k.id(c)) :: k.value(k.withId(n)),
          map p: string | p in (set c | c in blobs :: k.pointer(c)) :: k.text(k.withPointer(p)))
  }

  function IdsFor(k: Codec, cs: seq<Content>): seq<nat> {
    if cs == [] then [] else [k.id(cs[0])] + IdsFor(k, cs[1..])
  }

  function IdFor(k: Codec, c: Option<Content>): Option<nat> {
    if c.Some? then Some(k.id(c.value)) else None
  }

  function WireOf(k: Codec, r: Record): Wire {
    Wire(IdsFor(k, k.messages(r)), IdFor(k, k.system(r)), IdFor(k, k.tools(r)), k.rest(r))
  }

  function WiresOf(k: Codec, rows: seq<Request>): (r: seq<Wire>)
    ensures |r| == |rows|
    ensures forall i :: 0 <= i < |rows| ==> r[i] == WireOf(k, rows[i].record)
  {
    if rows == [] then [] else [WireOf(k, rows[0].record)] + WiresOf(k, rows[1..])
  }

  lemma {:induction false} IdsForAre(k: Codec, cs: seq<Content>)
    ensures forall n :: n in IdsFor(k, cs) ==> exists c :: c in cs && k.id(c) == n
  {
    if cs != [] {
      IdsForAre(k, cs[1..]);
      assert cs[0] in cs && forall c :: c in cs[1..] ==> c in cs;
    }
  }

  /** A record refers to its own values. */
  lemma RefIsAValue(f: Format, k: Codec, r: Record, id: nat) returns (c: Content)
    requires Reads(f, k) && id in RefsOf(WireOf(k, r))
    ensures c in r.values && k.id(c) == id
  {
    IdsForAre(k, k.messages(r));
    if id in IdsFor(k, k.messages(r)) {
      c :| c in k.messages(r) && k.id(c) == id;
    } else if k.system(r).Some? && k.id(k.system(r).value) == id {
      c := k.system(r).value;
    } else {
      c := k.tools(r).value;
    }
    assert RefersTo(k, r, c);
  }

  /** A value is in time if all it quotes is stored. */
  lemma QuotesInTime(k: Codec, blobs: set<Content>, later: set<Content>, v: Json)
    requires forall d :: d in later && HasLeaf(v, k.pointer(d)) ==> d in blobs
    requires forall d :: d in later ==> k.withPointer(k.pointer(d)) == d
    ensures InTime(IndexOf(k, later), IndexOf(k, blobs), v)
  {
    var all, ix := IndexOf(k, later), IndexOf(k, blobs);
    KnownIff(v, ix.strings.Keys, all.strings);
    forall p | HasLeaf(v, p) && p in all.strings
      ensures p in ix.strings
    {
      var d :| d in later && k.pointer(d) == p;
      assert d in blobs;
    }
  }

  // ---- what a record is meant to look like --------------------------------------------------------

  /** The stored text behind a pointer is that of the content it names. */
  lemma TextsAreStored(f: Format, k: Codec, blobs: set<Content>, c: Content)
    requires Reads(f, k)
    ensures k.pointer(c) in IndexOf(k, blobs).strings <==> c in blobs
    ensures c in blobs ==> IndexOf(k, blobs).strings[k.pointer(c)] == k.text(c)
  {
    if k.pointer(c) in IndexOf(k, blobs).strings {
      var d :| d in blobs && k.pointer(d) == k.pointer(c);
      assert k.withPointer(k.pointer(d)) == d && k.withPointer(k.pointer(c)) == c;
    }
  }

  lemma ContentIsItsValue(f: Format, k: Codec, blobs: set<Content>, c: Content)
    requires Reads(f, k) && c in blobs
    ensures var all := IndexOf(k, blobs); SessionRebuild.Content(all, k.id(c)) == Resolve(k.value(c), all.strings)
  {
    assert k.id(c) in IndexOf(k, blobs).blobs && k.withId(k.id(c)) == c;
  }

  lemma {:induction false} ContentsAreTheirValues(f: Format, k: Codec, blobs: set<Content>, cs: seq<Content>)
    requires Reads(f, k) && forall c :: c in cs ==> c in blobs
    ensures var all, shown := IndexOf(k, blobs), Contents(IndexOf(k, blobs), IdsFor(k, cs));
            |shown| == |cs| && forall i :: 0 <= i < |cs| ==> shown[i] == Resolve(k.value(cs[i]), all.strings)
  {
    if cs != [] {
      ContentIsItsValue(f, k, blobs, cs[0]);
      ContentsAreTheirValues(f, k, blobs, cs[1..]);
    }
  }

  /** The value a record refers to in one of its fields, or what stands there when it refers to none. */
  function FieldValue(k: Codec, c: Option<Content>, absent: Json, strings: Strings): Json {
    if c.Some? then Resolve(k.value(c.value), strings) else absent
  }

  /** A right page shows a record with its own messages, system prompt and tools, every stored string filled in. */
  lemma MeantIsTheRecord(f: Format, k: Codec, blobs: set<Content>, r: Record)
    requires Reads(f, k) && forall c :: c in r.values ==> c in blobs
    ensures var all, shown := IndexOf(k, blobs), Meant(IndexOf(k, blobs), WireOf(k, r));
            && |shown.messages| == |k.messages(r)|
            && (forall i :: 0 <= i < |shown.messages| ==>
                  shown.messages[i] == Resolve(k.value(k.messages(r)[i]), all.strings))
            && shown.system == FieldValue(k, k.system(r), Null, all.strings)
            && shown.tools == FieldValue(k, k.tools(r), Arr([]), all.strings)
            && shown.rest == Resolve(Obj(k.rest(r)), all.strings)
  {
    forall c | RefersTo(k, r, c)
      ensures c in blobs
    {
    }
    forall c | c in k.messages(r)
      ensures c in blobs
    {
      assert RefersTo(k, r, c);
    }
    ContentsAreTheirValues(f, k, blobs, k.messages(r));
    if k.system(r).Some? {
      assert RefersTo(k, r, k.system(r).value);
      ContentIsItsValue(f, k, blobs, k.system(r).value);
    }
    if k.tools(r).Some? {
      assert RefersTo(k, r, k.tools(r).value);
      ContentIsItsValue(f, k, blobs, k.tools(r).value);
    }
  }

  /** Everything the rows need is stored: their values, and all that these and the records quote. */
  ghost predicate Resolving(f: Format, rows: seq<Request>, blobs: set<Content>) {
    && (forall i, c :: 0 <= i < |rows| && c in rows[i].record.values ==> c in blobs)
    && forall i, c :: 0 <= i < |rows| && c in QuotesOf(f, rows[i].record) ==> c in blobs
  }

  lemma ResolvingIsComplete(f: Format, k: Codec, rows: seq<Request>, blobs: set<Content>, later: set<Content>)
    requires Reads(f, k) && Resolving(f, rows, blobs) && blobs <= later
    ensures Complete(IndexOf(k, later), WiresOf(k, rows), IndexOf(k, blobs))
  {
    var all, order, ix := IndexOf(k, later), WiresOf(k, rows), IndexOf(k, blobs);
    forall i | 0 <= i < |order|
      ensures InTime(all, ix, Obj(order[i].rest))
    {
      QuotesInTime(k, blobs, later, Obj(k.rest(rows[i].record)));
    }
    forall id | id in AllRefs(order) && id in all.blobs
      ensures id in ix.blobs && InTime(all, ix, all.blobs[id])
    {
      var i := RefOfSome(order, id);
      var c := RefIsAValue(f, k, rows[i].record, id);
      ValueInTime(f, k, rows, blobs, later, i, c);
    }
  }

  lemma ValueInTime(f: Format, k: Codec, rows: seq<Request>, blobs: set<Content>, later: set<Content>, i: nat,
                    c: Content)
    requires Reads(f, k) && Resolving(f, rows, blobs) && blobs <= later
    requires i < |rows| && c in rows[i].record.values
    ensures var all, ix := IndexOf(k, later), IndexOf(k, blobs);
            && k.id(c) in ix.blobs && k.id(c) in all.blobs && all.blobs[k.id(c)] == k.value(c)
            && InTime(all, ix, k.value(c))
  {
    assert c in blobs && c in later;
    forall d | d in later && HasLeaf(k.value(c), k.pointer(d))
      ensures d in blobs
    {
      assert d in f.quotes(c);
      assert d in QuotedBy(f, set v | v in rows[i].record.values);
    }
    QuotesInTime(k, blobs, later, k.value(c));
  }

  /**
    Once a pass has completed, with nothing swept, the session's records are served complete from then on: from any
    later state of the index, and whatever it comes to hold in the end.
    */
  lemma CompleteAfterPass(f: Format, k: Codec, s: State, now: set<Content>, later: set<Content>)
    requires Reads(f, k) && IngestRuns.Occurs(f, s) && !s.replaced && s.gone == {} && Enabled(f, s, Finish)
    requires Next(f, s, Finish).db.blobs <= now <= later
    ensures Complete(IndexOf(k, later), WiresOf(k, Next(f, s, Finish).db.rows), IndexOf(k, now))
  {
    var db := Next(f, s, Finish).db;
    PointersResolve(f, s);
    CompletedPassIsExact(f, s);
    ResolvingIsComplete(f, k, db.rows, now, later);
  }

  /** A state of the index between what the pass left and what it comes to hold in the end. */
  ghost predicate IsState(k: Codec, least: set<Content>, most: set<Content>, ix: Index) {
    exists now :: least <= now <= most && ix == IndexOf(k, now)
  }

  lemma CompleteUpTo(all: Index, order: seq<Wire>, ix: Index, n: nat)
    requires n <= |order| && Complete(all, order, ix)
    ensures Complete(all, order[..n], ix)
  {
    Halves(order, n);
    AllRefsAppend(order[..n], order[n..]);
    assert forall i :: 0 <= i < n ==> order[..n][i] == order[i];
  }

  /** So a poll for what that pass has indexed finds stored what those records quote, however long after it comes. */
  lemma PollAfterPassIsComplete(f: Format, k: Codec, s: State, later: set<Content>, order: seq<Wire>, poll: Poll)
    requires Reads(f, k) && IngestRuns.Occurs(f, s) && !s.replaced && s.gone == {} && Enabled(f, s, Finish)
    requires var db := Next(f, s, Finish).db;
             && WiresOf(k, db.rows) <= order && poll.later <= |db.rows|
             && (forall j: nat :: IsState(k, db.blobs, later, poll.index(j)))
             && forall j: nat :: IsState(k, db.blobs, later, poll.full(j))
    requires Possible(order, poll)
    ensures CompletePoll(IndexOf(k, later), order, poll)
  {
    var db, all := Next(f, s, Finish).db, IndexOf(k, later);
    var wires := WiresOf(k, db.rows);
    assert wires[..poll.known] == order[..poll.known] && wires[..poll.later] == order[..poll.later];
    forall j: nat
      ensures Complete(all, order[..poll.known], poll.index(j)) && Complete(all, order[..poll.later], poll.full(j))
    {
      assert IsState(k, db.blobs, later, poll.index(j)) && IsState(k, db.blobs, later, poll.full(j));
      var a :| db.blobs <= a <= later && poll.index(j) == IndexOf(k, a);
      var b :| db.blobs <= b <= later && poll.full(j) == IndexOf(k, b);
      CompleteAfterPass(f, k, s, a, later);
      CompleteAfterPass(f, k, s, b, later);
      CompleteUpTo(all, wires, poll.index(j), poll.known);
      CompleteUpTo(all, wires, poll.full(j), poll.later);
    }
  }
}
