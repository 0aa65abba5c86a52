/**
  The server's side of an open session (agent_wrap/domain/logs/stream.py): each value sent once, strings
  before the blobs whose text quotes them, blobs before the records that refer to them.
  */
module Stream {
  import opened Totals
  import opened Lex
  import opened Json

  /** What the index holds, as far as content is concerned. */
  datatype Index = Index(blobs: map<nat, Json>, strings: Strings)

  /** One record as it goes over the wire: references in three fields, everything else spelt out. */
  datatype Wire = Wire(messages: seq<nat>, system: Option<nat>, tools: Option<nat>, rest: seq<Field>)

  datatype Line = Meta(count: Option<nat>) | StringLine(pointer: string, text: string) | BlobLine(id: nat, value: Json)
                | RecordLine(record: Wire)

  /** What one response has sent so far. */
  datatype Sent = Sent(blobs: set<nat>, pointers: set<string>)

  const BLOB_REF_PREFIX := "blob:"

  function Decimal(n: nat): string {
    (if n < 10 then "" else Decimal(n / 10)) + ["0123456789"[n % 10]]
  }

  function BlobRef(id: nat): string {
    BLOB_REF_PREFIX + Decimal(id)
  }

  function RefsOf(w: Wire): set<nat> {
    (set id | id in w.messages) + OptionalRef(w.system) + OptionalRef(w.tools)
  }

  function OptionalRef(id: Option<nat>): set<nat> {
    if id.Some? then {id.value} else {}
  }

  function AllRefs(batch: seq<Wire>): set<nat> {
    if batch == [] then {} else RefsOf(batch[0]) + AllRefs(batch[1..])
  }

  function RefItems(ids: seq<nat>): seq<Json> {
    if ids == [] then [] else [Str(BlobRef(ids[0]))] + RefItems(ids[1..])
  }

  function OptionalItem(id: Option<nat>, absent: Json): Json {
    if id.Some? then Str(BlobRef(id.value)) else absent
  }

  function RecordJson(w: Wire): Json {
    Obj(w.rest + [Field("messages", Arr(RefItems(w.messages))), Field("system", OptionalItem(w.system, Null)),
                  Field("tools", OptionalItem(w.tools, Arr([])))])
  }

  // ---- sorting what a set holds -------------------------------------------------------------------

  lemma {:induction false} Least(s: set<nat>) returns (m: nat)
    requires s != {}
    ensures m in s && forall y :: y in s ==> m <= y
    decreases s
  {
    m :| m in s;
    var rest := s - {m};
    assert forall y :: y in s ==> y == m || y in rest;
    if rest != {} {
      var other := Least(rest);
      if other < m { m := other; }
    }
  }

  lemma LeastExists(s: set<nat>)
    requires s != {}
    ensures exists x :: x in s && forall y :: y in s ==> x <= y
  {
    var m := Least(s);
  }

  function SortedIds(s: set<nat>): (r: seq<nat>)
    ensures forall x :: x in r <==> x in s
    decreases s
  {
    if s == {} then []
    else
      LeastExists(s);
      var x :| x in s && forall y :: y in s ==> x <= y;
      [x] + SortedIds(s - {x})
  }

  lemma {:induction false} SortedIdsIncrease(s: set<nat>)
    ensures var r := SortedIds(s); Distinct(r) && forall i, j :: 0 <= i < j < |r| ==> r[i] < r[j]
    decreases s
  {
    var r := SortedIds(s);
    if s != {} {
      SortedIdsIncrease(s - {r[0]});
      forall j | 0 < j < |r|
        ensures r[0] < r[j]
      {
        assert r[j] == SortedIds(s - {r[0]})[j - 1] && r[j] in SortedIds(s - {r[0]});
      }
    }
  }

  lemma {:induction false} LeastPointerExists(s: set<string>)
    requires s != {}
    ensures exists x :: x in s && forall y :: y in s ==> !LexLess(y, x)
    decreases s
  {
    var x :| x in s;
    var rest := s - {x};
    assert forall y :: y in s ==> y == x || y in rest;
    LexTotal(x, x);
    if rest != {} {
      LeastPointerExists(rest);
      var m :| m in rest && forall y :: y in rest ==> !LexLess(y, m);
      var least := if LexLess(x, m) then x else m;
      forall y | y in s
        ensures !LexLess(y, least)
      {
        LexTotal(x, m);
        if y != x && LexLess(y, x) && LexLess(x, m) { LexTransitive(y, x, m); }
      }
      assert least in s;
    } else {
      assert forall y :: y in s ==> !LexLess(y, x);
    }
  }

  /** Pointers of one length sort as their addresses do. */
  function SortedPointers(s: set<string>): (r: seq<string>)
    ensures forall x :: x in r <==> x in s
    ensures forall i, j :: 0 <= i < j < |r| ==> r[i] != r[j]
    decreases s
  {
    if s == {} then []
    else
      LeastPointerExists(s);
      LeastPointerUnique(s);
      var x :| x in s && forall y :: y in s ==> !LexLess(y, x);
      var rest := SortedPointers(s - {x});
      assert forall i :: 0 <= i < |rest| ==> rest[i] in s - {x};
      [x] + rest
  }

  lemma LeastPointerUnique(s: set<string>)
    ensures forall x, y :: x in s && y in s && !LexLess(y, x) && !LexLess(x, y) ==> x == y
  {
    forall x, y | x in s && y in s && !LexLess(y, x) && !LexLess(x, y)
      ensures x == y
    {
      LexTotal(x, y);
    }
  }

  // ---- one batch ----------------------------------------------------------------------------------

  function BlobPointers(ix: Index, ids: seq<nat>): set<string> {
    if ids == [] then {}
    else (if ids[0] in ix.blobs then FindAll(Encode(ix.blobs[ids[0]]), 0) else {}) + BlobPointers(ix, ids[1..])
  }

  function RecordPointers(batch: seq<Wire>): set<string> {
    if batch == [] then {} else FindAll(Encode(RecordJson(batch[0])), 0) + RecordPointers(batch[1..])
  }

  function StringLines(ix: Index, pointers: seq<string>): seq<Line> {
    if pointers == [] then []
    else (if pointers[0] in ix.strings then [StringLine(pointers[0], ix.strings[pointers[0]])] else [])
         + StringLines(ix, pointers[1..])
  }

  function BlobLines(ix: Index, ids: seq<nat>): seq<Line> {
    if ids == [] then []
    else (if ids[0] in ix.blobs then [BlobLine(ids[0], ix.blobs[ids[0]])] else []) + BlobLines(ix, ids[1..])
  }

  function RecordLines(batch: seq<Wire>): seq<Line> {
    if batch == [] then [] else [RecordLine(batch[0])] + RecordLines(batch[1..])
  }

  function Wanted(batch: seq<Wire>, sent: Sent): set<nat> {
    AllRefs(batch) - sent.blobs
  }

  function NewPointers(ix: Index, batch: seq<Wire>, sent: Sent): set<string> {
    BlobPointers(ix, SortedIds(Wanted(batch, sent))) + RecordPointers(batch) - sent.pointers
  }

  function BatchLines(ix: Index, batch: seq<Wire>, sent: Sent): seq<Line> {
    StringLines(ix, SortedPointers(NewPointers(ix, batch, sent)))
    + BlobLines(ix, SortedIds(Wanted(batch, sent)))
    + RecordLines(batch)
  }

  function SentAfter(ix: Index, batch: seq<Wire>, sent: Sent): Sent {
    Sent(sent.blobs + Wanted(batch, sent), sent.pointers + NewPointers(ix, batch, sent))
  }

  // ---- a whole response ---------------------------------------------------------------------------

  function Cut(n: nat, size: nat): nat {
    if n < size then n else size
  }

  /** Each batch reads the index anew: `at(k)` is what the k-th one finds. */
  function AllBatches(at: nat -> Index, k: nat, selected: seq<Wire>, size: nat, sent: Sent): seq<Line>
    requires size >= 1
    decreases |selected|
  {
    if selected == [] then []
    else
      var n := Cut(|selected|, size);
      BatchLines(at(k), selected[..n], sent)
      + AllBatches(at, k + 1, selected[n..], size, SentAfter(at(k), selected[..n], sent))
  }

  /** Python's slicing: positions past the end are cut back to it. */
  function Selected(order: seq<Wire>, from: nat, limit: Option<nat>): seq<Wire> {
    if from >= |order| then []
    else if limit.None? || from + limit.value >= |order| then order[from..]
    else order[from..from + limit.value]
  }

  /** A client that holds the record before the cut holds that record's content. */
  function AlreadySent(order: seq<Wire>, from: nat): Sent {
    Sent(if 0 < from <= |order| then RefsOf(order[from - 1]) else {}, {})
  }

  /** `listed` is the count in the session's list entry, which the caller passes in and may lag; there may be none. */
  function Response(at: nat -> Index, order: seq<Wire>, from: nat, limit: Option<nat>, size: nat, listed: Option<nat>)
    : seq<Line>
    requires size >= 1
  {
    [Meta(listed)] + AllBatches(at, 0, Selected(order, from, limit), size, AlreadySent(order, from))
  }

  /** The generator: two sets carried from batch to batch. */
  class Sender {
    var sentBlobs: set<nat>
    var sentPointers: set<string>

    constructor (blobs: set<nat>)
      ensures sentBlobs == blobs && sentPointers == {}
    {
      sentBlobs, sentPointers := blobs, {};
    }

    function State(): Sent
      reads this
    {
      Sent(sentBlobs, sentPointers)
    }

    method PointerLines(ix: Index, ids: seq<nat>, batch: seq<Wire>) returns (lines: seq<Line>)
      modifies this`sentPointers
      ensures var pointers := BlobPointers(ix, ids) + RecordPointers(batch) - old(sentPointers);
              lines == StringLines(ix, SortedPointers(pointers)) && sentPointers == old(sentPointers) + pointers
    {
      var pointers := BlobPointers(ix, ids) + RecordPointers(batch) - sentPointers;
      if pointers == {} {
        return [];
      }
      sentPointers := sentPointers + pointers;
      lines := StringLines(ix, SortedPointers(pointers));
    }

    method Batch(ix: Index, batch: seq<Wire>) returns (lines: seq<Line>)
      modifies this
      ensures lines == BatchLines(ix, batch, old(State())) && State() == SentAfter(ix, batch, old(State()))
    {
      var wanted := AllRefs(batch) - sentBlobs;
      var ids := SortedIds(wanted);
      lines := PointerLines(ix, ids, batch);
      lines := lines + BlobLines(ix, ids);
      sentBlobs := sentBlobs + wanted;
      lines := lines + RecordLines(batch);
    }
  }

  method Lines(at: nat -> Index, order: seq<Wire>, from: nat, limit: Option<nat>, size: nat, listed: Option<nat>)
    returns (lines: seq<Line>)
    requires size >= 1
    ensures lines == Response(at, order, from, limit, size, listed)
    ensures Continues(RecordsOf(lines), order, from, limit)
  {
    AnswerHolds(at, order, from, limit, size, listed);
    lines := [Meta(listed)];
    var rest, k: nat := Selected(order, from, limit), 0;
    var sender := new Sender(if 0 < from <= |order| then RefsOf(order[from - 1]) else {});
    while rest != []
      invariant fresh(sender)
      invariant lines + AllBatches(at, k, rest, size, sender.State()) == Response(at, order, from, limit, size, listed)
      decreases |rest|
    {
      var n := Cut(|rest|, size);
      ghost var before := lines;
      var more := sender.Batch(at(k), rest[..n]);
      lines := lines + more;
      rest, k := rest[n..], k + 1;
      assert before + (more + AllBatches(at, k, rest, size, sender.State()))
          == lines + AllBatches(at, k, rest, size, sender.State());
    }
  }

  // ---- each value once ----------------------------------------------------------------------------

  function IdsOf(lines: seq<Line>): seq<nat> {
    if lines == [] then []
    else (if lines[0].BlobLine? then [lines[0].id] else []) + IdsOf(lines[1..])
  }

  lemma {:induction false} IdsAppend(a: seq<Line>, b: seq<Line>)
    ensures IdsOf(a + b) == IdsOf(a) + IdsOf(b)
  {
    if a == [] {
      assert a + b == b;
    } else {
      assert (a + b)[1..] == a[1..] + b;
      IdsAppend(a[1..], b);
      Append3(if a[0].BlobLine? then [a[0].id] else [], IdsOf(a[1..]), IdsOf(b));
    }
  }

  lemma {:induction false} NoStringIds(ix: Index, pointers: seq<string>)
    ensures IdsOf(StringLines(ix, pointers)) == []
  {
    if pointers != [] {
      NoStringIds(ix, pointers[1..]);
      if pointers[0] in ix.strings {
        assert StringLines(ix, pointers)[1..] == StringLines(ix, pointers[1..]);
      } else {
        assert StringLines(ix, pointers) == StringLines(ix, pointers[1..]);
      }
    }
  }

  lemma {:induction false} NoRecordIds(batch: seq<Wire>)
    ensures IdsOf(RecordLines(batch)) == []
  {
    if batch != [] { NoRecordIds(batch[1..]); }
  }

  lemma {:induction false} IdsOfBlobLines(ix: Index, ids: seq<nat>)
    ensures forall x :: x in IdsOf(BlobLines(ix, ids)) <==> x in ids && x in ix.blobs
    ensures Distinct(ids) ==> Distinct(IdsOf(BlobLines(ix, ids)))
  {
    if ids != [] {
      var rest := IdsOf(BlobLines(ix, ids[1..]));
      IdsOfBlobLines(ix, ids[1..]);
      assert forall x :: x in ids <==> x == ids[0] || x in ids[1..];
      if Distinct(ids) { DistinctTail(ids); }
      if ids[0] in ix.blobs {
        assert BlobLines(ix, ids)[1..] == BlobLines(ix, ids[1..]);
        if Distinct(ids) { DistinctAppend([ids[0]], rest); }
      } else {
        assert BlobLines(ix, ids) == BlobLines(ix, ids[1..]);
      }
    }
  }

  lemma BatchIds(ix: Index, batch: seq<Wire>, sent: Sent)
    ensures var ids := IdsOf(BatchLines(ix, batch, sent));
            Distinct(ids) && forall x :: x in ids <==> x in Wanted(batch, sent) && x in ix.blobs
  {
    var ids := SortedIds(Wanted(batch, sent));
    SortedIdsIncrease(Wanted(batch, sent));
    IdsOfBlobLines(ix, ids);
    OnlyBlobIds(ix, SortedPointers(NewPointers(ix, batch, sent)), ids, batch);
    assert forall x :: x in ids <==> x in Wanted(batch, sent);
  }

  lemma OnlyBlobIds(ix: Index, pointers: seq<string>, ids: seq<nat>, batch: seq<Wire>)
    ensures IdsOf(StringLines(ix, pointers) + BlobLines(ix, ids) + RecordLines(batch)) == IdsOf(BlobLines(ix, ids))
  {
    var strings, blobs := StringLines(ix, pointers), BlobLines(ix, ids);
    IdsAppend(strings + blobs, RecordLines(batch));
    IdsAppend(strings, blobs);
    NoStringIds(ix, pointers);
    NoRecordIds(batch);
  }

  /** Everything stored in `a` is stored in `b`. */
  ghost predicate Within(a: Index, b: Index) {
    && (forall id :: id in a.blobs ==> id in b.blobs && b.blobs[id] == a.blobs[id])
    && (forall p :: p in a.strings ==> p in b.strings && b.strings[p] == a.strings[p])
  }

  /** All through a response the index holds at least `lo`, and no more than `hi`. */
  ghost predicate Between(lo: Index, at: nat -> Index, hi: Index) {
    forall j: nat :: Within(lo, at(j)) && Within(at(j), hi)
  }

  /**
    A response sends no blob twice, none the client was known to hold and none that is never stored, and every
    other blob its records refer to that was stored from the start, whatever the batch size; where the index
    rests, `lo` and `hi` are the same.
    */
  lemma {:induction false} EachValueOnce(lo: Index, at: nat -> Index, hi: Index, k: nat, selected: seq<Wire>, size: nat,
                                         sent: Sent)
    requires size >= 1 && Between(lo, at, hi)
    ensures SendsOnce(lo, hi, AllBatches(at, k, selected, size, sent), AllRefs(selected), sent.blobs)
    decreases |selected|
  {
    if selected != [] {
      var n := Cut(|selected|, size);
      var batch := selected[..n];
      var others, sent' := selected[n..], SentAfter(at(k), batch, sent);
      EachValueOnce(lo, at, hi, k + 1, others, size, sent');
      OnceMore(lo, at(k), hi, batch, others, sent, AllBatches(at, k + 1, others, size, sent'));
      Halves(selected, n);
    }
  }

  lemma Halves<T>(s: seq<T>, n: nat)
    requires n <= |s|
    ensures s[..n] + s[n..] == s
  {
  }

  lemma OnceMore(lo: Index, ix: Index, hi: Index, batch: seq<Wire>, others: seq<Wire>, sent: Sent, rest: seq<Line>)
    requires Within(lo, ix) && Within(ix, hi)
    requires SendsOnce(lo, hi, rest, AllRefs(others), SentAfter(ix, batch, sent).blobs)
    ensures SendsOnce(lo, hi, BatchLines(ix, batch, sent) + rest, AllRefs(batch + others), sent.blobs)
  {
    BatchIds(ix, batch, sent);
    AllRefsAppend(batch, others);
    OnceInTwoParts(lo, hi, AllRefs(batch), AllRefs(others), sent.blobs, BatchLines(ix, batch, sent), rest);
  }

  ghost predicate SendsOnce(lo: Index, hi: Index, lines: seq<Line>, refs: set<nat>, sent: set<nat>) {
    && Distinct(IdsOf(lines))
    && (forall x :: x in IdsOf(lines) ==> x in refs && x !in sent && x in hi.blobs)
    && (forall x :: x in refs && x !in sent && x in lo.blobs ==> x in IdsOf(lines))
  }

  lemma OnceInTwoParts(lo: Index, hi: Index, r1: set<nat>, r2: set<nat>, sent: set<nat>, a: seq<Line>, b: seq<Line>)
    requires SendsOnce(lo, hi, a, r1, sent) && SendsOnce(lo, hi, b, r2, sent + (r1 - sent))
    ensures SendsOnce(lo, hi, a + b, r1 + r2, sent)
  {
    IdsAppend(a, b);
    DistinctAppend(IdsOf(a), IdsOf(b));
  }

  // ---- and each interned string once --------------------------------------------------------------

  function PointersSent(lines: seq<Line>): seq<string> {
    if lines == [] then []
    else (if lines[0].StringLine? then [lines[0].pointer] else []) + PointersSent(lines[1..])
  }

  lemma {:induction false} PointersSentAppend(a: seq<Line>, b: seq<Line>)
    ensures PointersSent(a + b) == PointersSent(a) + PointersSent(b)
  {
    if a == [] {
      assert a + b == b;
    } else {
      assert (a + b)[1..] == a[1..] + b;
      PointersSentAppend(a[1..], b);
      Append3(if a[0].StringLine? then [a[0].pointer] else [], PointersSent(a[1..]), PointersSent(b));
    }
  }

  lemma {:induction false} NoBlobPointers(ix: Index, ids: seq<nat>)
    ensures PointersSent(BlobLines(ix, ids)) == []
  {
    if ids != [] {
      NoBlobPointers(ix, ids[1..]);
      if ids[0] in ix.blobs {
        assert BlobLines(ix, ids)[1..] == BlobLines(ix, ids[1..]);
      } else {
        assert BlobLines(ix, ids) == BlobLines(ix, ids[1..]);
      }
    }
  }

  lemma {:induction false} NoRecordPointers(batch: seq<Wire>)
    ensures PointersSent(RecordLines(batch)) == []
  {
    if batch != [] { NoRecordPointers(batch[1..]); }
  }

  lemma {:induction false} PointersOfStringLines(ix: Index, pointers: seq<string>)
    ensures forall p :: p in PointersSent(StringLines(ix, pointers)) <==> p in pointers && p in ix.strings
    ensures Distinct(pointers) ==> Distinct(PointersSent(StringLines(ix, pointers)))
  {
    if pointers != [] {
      var rest := PointersSent(StringLines(ix, pointers[1..]));
      PointersOfStringLines(ix, pointers[1..]);
      assert forall p :: p in pointers <==> p == pointers[0] || p in pointers[1..];
      if Distinct(pointers) { DistinctTail(pointers); }
      if pointers[0] in ix.strings {
        assert StringLines(ix, pointers)[1..] == StringLines(ix, pointers[1..]);
        if Distinct(pointers) { DistinctAppend([pointers[0]], rest); }
      } else {
        assert StringLines(ix, pointers) == StringLines(ix, pointers[1..]);
      }
    }
  }

  ghost predicate SendsStringsOnce(lo: Index, hi: Index, lines: seq<Line>, always: set<string>, ever: set<string>,
                                   sent: set<string>) {
    && Distinct(PointersSent(lines))
    && (forall p :: p in PointersSent(lines) ==> p in ever && p !in sent && p in hi.strings)
    && (forall p :: p in always && p !in sent && p in lo.strings ==> p in PointersSent(lines))
  }

  /** The pointers quoted by records, or by the content sent for them. */
  function Quoted(ix: Index, records: seq<Wire>, sent: Sent): set<string> {
    BlobPointers(ix, SortedIds(Wanted(records, sent))) + RecordPointers(records)
  }

  lemma BatchPointers(ix: Index, batch: seq<Wire>, sent: Sent)
    ensures var q := Quoted(ix, batch, sent);
            SendsStringsOnce(ix, ix, BatchLines(ix, batch, sent), q, q, sent.pointers)
  {
    var pointers, ids := SortedPointers(NewPointers(ix, batch, sent)), SortedIds(Wanted(batch, sent));
    var strings, blobs := StringLines(ix, pointers), BlobLines(ix, ids);
    PointersSentAppend(strings + blobs, RecordLines(batch));
    PointersSentAppend(strings, blobs);
    NoBlobPointers(ix, ids);
    NoRecordPointers(batch);
    PointersOfStringLines(ix, pointers);
  }

  predicate QuotedIn(ix: Index, id: nat, p: string) {
    id in ix.blobs && p in FindAll(Encode(ix.blobs[id]), 0)
  }

  lemma {:induction false} BlobPointersAre(ix: Index, ids: seq<nat>)
    ensures forall p :: p in BlobPointers(ix, ids) <==> exists id :: id in ids && QuotedIn(ix, id, p)
  {
    if ids != [] {
      BlobPointersAre(ix, ids[1..]);
      assert forall id :: id in ids <==> id == ids[0] || id in ids[1..];
      forall p
        ensures p in BlobPointers(ix, ids) <==> exists id :: id in ids && QuotedIn(ix, id, p)
      {
        if QuotedIn(ix, ids[0], p) { assert ids[0] in ids; }
      }
    }
  }

  lemma {:induction false} RecordPointersAppend(a: seq<Wire>, b: seq<Wire>)
    ensures RecordPointers(a + b) == RecordPointers(a) + RecordPointers(b)
  {
    if a == [] {
      assert a + b == b;
    } else {
      assert (a + b)[1..] == a[1..] + b;
      RecordPointersAppend(a[1..], b);
    }
  }

  lemma QuotedHalves(ix: Index, batch: seq<Wire>, others: seq<Wire>, sent: Sent)
    ensures Quoted(ix, batch + others, sent) == Quoted(ix, batch, sent) + Quoted(ix, others, SentAfter(ix, batch, sent))
  {
    var sent' := SentAfter(ix, batch, sent);
    AllRefsAppend(batch, others);
    RecordPointersAppend(batch, others);
    BlobPointersAre(ix, SortedIds(Wanted(batch + others, sent)));
    BlobPointersAre(ix, SortedIds(Wanted(batch, sent)));
    BlobPointersAre(ix, SortedIds(Wanted(others, sent')));
    assert Wanted(batch + others, sent) == Wanted(batch, sent) + Wanted(others, sent');
  }

  /** The more is stored, the more is quoted. */
  lemma QuotedWithin(a: Index, b: Index, records: seq<Wire>, sent: Sent)
    requires Within(a, b)
    ensures Quoted(a, records, sent) <= Quoted(b, records, sent)
  {
    var ids := SortedIds(Wanted(records, sent));
    BlobPointersAre(a, ids);
    BlobPointersAre(b, ids);
    forall p | p in BlobPointers(a, ids)
      ensures p in BlobPointers(b, ids)
    {
      var id :| id in ids && QuotedIn(a, id, p);
      assert QuotedIn(b, id, p);
    }
  }

  lemma StringsInTwoParts(lo: Index, ix: Index, hi: Index, q1: set<string>, always: set<string>, ever: set<string>,
                          sent: set<string>, a: seq<Line>, b: seq<Line>)
    requires Within(lo, ix) && Within(ix, hi) && SendsStringsOnce(ix, ix, a, q1, q1, sent)
    requires SendsStringsOnce(lo, hi, b, always, ever, sent + (q1 - sent))
    ensures SendsStringsOnce(lo, hi, a + b, q1 + always, q1 + ever, sent)
  {
    PointersSentAppend(a, b);
    DistinctAppend(PointersSent(a), PointersSent(b));
  }

  /**
    A response sends no interned string twice, and every one stored from the start that its records, or the
    content it sends for them, quote: once, whatever the batch size.
    */
  lemma {:induction false} EachStringOnce(lo: Index, at: nat -> Index, hi: Index, k: nat, selected: seq<Wire>,
                                          size: nat, sent: Sent)
    requires size >= 1 && Between(lo, at, hi)
    ensures SendsStringsOnce(lo, hi, AllBatches(at, k, selected, size, sent),
                             Quoted(lo, selected, sent), Quoted(hi, selected, sent), sent.pointers)
    decreases |selected|
  {
    if selected != [] {
      var n := Cut(|selected|, size);
      var batch, others := selected[..n], selected[n..];
      var sent' := SentAfter(at(k), batch, sent);
      var rest := AllBatches(at, k + 1, others, size, sent');
      EachStringOnce(lo, at, hi, k + 1, others, size, sent');
      BatchPointers(at(k), batch, sent);
      StringsInTwoParts(lo, at(k), hi, Quoted(at(k), batch, sent), Quoted(lo, others, sent'), Quoted(hi, others, sent'),
                        sent.pointers, BatchLines(at(k), batch, sent), rest);
      Halves(selected, n);
      QuotedBetween(lo, at(k), hi, batch, others, sent);
    } else {
      BlobPointersAre(lo, SortedIds(Wanted(selected, sent)));
    }
  }

  lemma QuotedBetween(lo: Index, ix: Index, hi: Index, batch: seq<Wire>, others: seq<Wire>, sent: Sent)
    requires Within(lo, ix) && Within(ix, hi)
    ensures var sent' := SentAfter(ix, batch, sent);
            && Quoted(lo, batch + others, sent) <= Quoted(ix, batch, sent) + Quoted(lo, others, sent')
            && Quoted(ix, batch, sent) + Quoted(hi, others, sent') <= Quoted(hi, batch + others, sent)
  {
    QuotedHalves(lo, batch, others, sent);
    QuotedHalves(hi, batch, others, sent);
    QuotedWithin(lo, ix, batch, sent);
    QuotedWithin(ix, hi, batch, sent);
    SameWanted(lo, ix, batch, others, sent);
    SameWanted(hi, ix, batch, others, sent);
  }

  /** Which references are still wanted does not depend on what is stored. */
  lemma SameWanted(a: Index, b: Index, batch: seq<Wire>, others: seq<Wire>, sent: Sent)
    ensures Quoted(a, others, SentAfter(a, batch, sent)) == Quoted(a, others, SentAfter(b, batch, sent))
  {
    assert SentAfter(a, batch, sent).blobs == SentAfter(b, batch, sent).blobs;
  }

  lemma {:induction false} AllRefsAppend(a: seq<Wire>, b: seq<Wire>)
    ensures AllRefs(a + b) == AllRefs(a) + AllRefs(b)
  {
    if a == [] {
      assert a + b == b;
    } else {
      assert (a + b)[1..] == a[1..] + b;
      AllRefsAppend(a[1..], b);
    }
  }

  // ---- which records an answer holds --------------------------------------------------------------

  function RecordsOf(lines: seq<Line>): seq<Wire> {
    if lines == [] then []
    else (if lines[0].RecordLine? then [lines[0].record] else []) + RecordsOf(lines[1..])
  }

  lemma {:induction false} RecordsOfAppend(a: seq<Line>, b: seq<Line>)
    ensures RecordsOf(a + b) == RecordsOf(a) + RecordsOf(b)
  {
    if a == [] {
      assert a + b == b;
    } else {
      assert (a + b)[1..] == a[1..] + b;
      RecordsOfAppend(a[1..], b);
      Append3(if a[0].RecordLine? then [a[0].record] else [], RecordsOf(a[1..]), RecordsOf(b));
    }
  }

  lemma {:induction false} NoRecords(lines: seq<Line>)
    requires forall i :: 0 <= i < |lines| ==> !lines[i].RecordLine?
    ensures RecordsOf(lines) == []
  {
    if lines != [] { NoRecords(lines[1..]); }
  }

  lemma {:induction false} NoRecordsInStringLines(ix: Index, pointers: seq<string>)
    ensures forall i :: 0 <= i < |StringLines(ix, pointers)| ==> !StringLines(ix, pointers)[i].RecordLine?
  {
    if pointers != [] { NoRecordsInStringLines(ix, pointers[1..]); }
  }

  lemma {:induction false} NoRecordsInBlobLines(ix: Index, ids: seq<nat>)
    ensures forall i :: 0 <= i < |BlobLines(ix, ids)| ==> !BlobLines(ix, ids)[i].RecordLine?
  {
    if ids != [] { NoRecordsInBlobLines(ix, ids[1..]); }
  }

  lemma {:induction false} RecordsOfRecordLines(batch: seq<Wire>)
    ensures RecordsOf(RecordLines(batch)) == batch
  {
    if batch != [] {
      RecordsOfRecordLines(batch[1..]);
      assert RecordLines(batch)[1..] == RecordLines(batch[1..]);
    }
  }

  lemma BatchRecords(ix: Index, batch: seq<Wire>, sent: Sent)
    ensures RecordsOf(BatchLines(ix, batch, sent)) == batch
  {
    var strings := StringLines(ix, SortedPointers(NewPointers(ix, batch, sent)));
    var blobs := BlobLines(ix, SortedIds(Wanted(batch, sent)));
    RecordsOfAppend(strings + blobs, RecordLines(batch));
    RecordsOfAppend(strings, blobs);
    NoRecordsInStringLines(ix, SortedPointers(NewPointers(ix, batch, sent)));
    NoRecordsInBlobLines(ix, SortedIds(Wanted(batch, sent)));
    NoRecords(strings);
    NoRecords(blobs);
    RecordsOfRecordLines(batch);
  }

  lemma {:induction false} BatchesHoldAll(at: nat -> Index, k: nat, selected: seq<Wire>, size: nat, sent: Sent)
    requires size >= 1
    ensures RecordsOf(AllBatches(at, k, selected, size, sent)) == selected
    decreases |selected|
  {
    if selected != [] {
      var n := Cut(|selected|, size);
      var sent' := SentAfter(at(k), selected[..n], sent);
      BatchRecords(at(k), selected[..n], sent);
      BatchesHoldAll(at, k + 1, selected[n..], size, sent');
      RecordsOfAppend(BatchLines(at(k), selected[..n], sent), AllBatches(at, k + 1, selected[n..], size, sent'));
      Halves(selected, n);
    }
  }

  lemma ResponseRecords(at: nat -> Index, order: seq<Wire>, from: nat, limit: Option<nat>, size: nat,
                        listed: Option<nat>)
    requires size >= 1
    ensures RecordsOf(Response(at, order, from, limit, size, listed)) == Selected(order, from, limit)
  {
    BatchesHoldAll(at, 0, Selected(order, from, limit), size, AlreadySent(order, from));
    FirstIsNone(Meta(listed), AllBatches(at, 0, Selected(order, from, limit), size, AlreadySent(order, from)));
  }

  lemma FirstIsNone(line: Line, lines: seq<Line>)
    requires !line.RecordLine?
    ensures RecordsOf([line] + lines) == RecordsOf(lines)
  {
    assert ([line] + lines)[1..] == lines;
  }

  /** From one position of the order on: all that are left, or as many as the limit allows when there are more. */
  ghost predicate Continues(got: seq<Wire>, order: seq<Wire>, from: nat, limit: Option<nat>) {
    && (forall i :: 0 <= i < |got| ==> from + i < |order| && got[i] == order[from + i])
    && (limit.Some? ==> |got| <= limit.value)
    && (from + |got| >= |order| || limit == Some(|got|))
  }

  lemma SelectedContinues(order: seq<Wire>, from: nat, limit: Option<nat>)
    ensures Continues(Selected(order, from, limit), order, from, limit)
  {
  }

  /**
    So an incremental answer stays small: it sends no blob twice, none that no record of its own refers to, and none
    that the record before the cut refers to already; and all others that were stored when it began.
    */
  lemma AnswerSendsOnce(lo: Index, at: nat -> Index, hi: Index, order: seq<Wire>, from: nat, limit: Option<nat>,
                        size: nat, listed: Option<nat>)
    requires size >= 1 && Between(lo, at, hi)
    ensures SendsOnce(lo, hi, Response(at, order, from, limit, size, listed), AllRefs(Selected(order, from, limit)),
                      if 0 < from <= |order| then RefsOf(order[from - 1]) else {})
  {
    var selected, sent := Selected(order, from, limit), AlreadySent(order, from);
    EachValueOnce(lo, at, hi, 0, selected, size, sent);
    assert [Meta(listed)][1..] == [];
    IdsAppend([Meta(listed)], AllBatches(at, 0, selected, size, sent));
    assert IdsOf([Meta(listed)]) == [];
  }

  /** An answer holds the records of the order from the one asked for on, each once and in order. */
  lemma AnswerHolds(at: nat -> Index, order: seq<Wire>, from: nat, limit: Option<nat>, size: nat, listed: Option<nat>)
    requires size >= 1
    ensures Continues(RecordsOf(Response(at, order, from, limit, size, listed)), order, from, limit)
  {
    ResponseRecords(at, order, from, limit, size, listed);
    SelectedContinues(order, from, limit);
  }
}
