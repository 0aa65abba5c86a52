/**
  Server and browser over one batch: exactly when what is sent comes out as the session holds it
  (agent_wrap/domain/logs/stream.py against logs_page/app.js).
  */
module SessionRebuild {
  import opened Totals
  import opened Json
  import opened Stream
  import opened Viewer

  /** What a reference stands for: the stored value with its interned strings put back. */
  function Content(all: Index, id: nat): Json {
    if id in all.blobs then Resolve(all.blobs[id], all.strings) else Str(BlobRef(id))
  }

  function Contents(all: Index, ids: seq<nat>): seq<Json> {
    if ids == [] then [] else [Content(all, ids[0])] + Contents(all, ids[1..])
  }

  /** A record as the session holds it; `all` is everything the index ever stores. */
  function Meant(all: Index, w: Wire): Shown {
    Shown(Contents(all, w.messages),
          if w.system.Some? then Content(all, w.system.value) else Null,
          if w.tools.Some? then Content(all, w.tools.value) else Arr([]),
          Resolve(Obj(w.rest), all.strings))
  }

  function AllMeant(all: Index, order: seq<Wire>): (r: seq<Shown>)
    ensures |r| == |order|
  {
    if order == [] then [] else [Meant(all, order[0])] + AllMeant(all, order[1..])
  }

  lemma {:induction false} AllMeantAppend(all: Index, a: seq<Wire>, b: seq<Wire>)
    ensures AllMeant(all, a + b) == AllMeant(all, a) + AllMeant(all, b)
  {
    if a == [] {
      assert a + b == b;
    } else {
      assert (a + b)[1..] == a[1..] + b;
      AllMeantAppend(all, a[1..], b);
    }
  }

  lemma {:induction false} AllMeantAt(all: Index, order: seq<Wire>, i: nat)
    requires i < |order|
    ensures AllMeant(all, order)[i] == Meant(all, order[i])
  {
    if i > 0 { AllMeantAt(all, order[1..], i - 1); }
  }

  // ---- what the page holds ------------------------------------------------------------------------

  /** The strings on file are the right ones. */
  ghost predicate RightStrings(all: Index, view: View) {
    Part(view.strings, all.strings)
  }

  /** Each of these references shows what it stands for. */
  ghost predicate Holds(all: Index, view: View, ids: set<nat>) {
    forall id :: id in ids ==> ContentFor(view.blobs, id) == Content(all, id)
  }

  // ---- what comes out right -----------------------------------------------------------------------

  /** With `have` on file, a value comes out right: it is clean, unless nothing is on file, and misses no string. */
  predicate ValueFits(all: Index, v: Json, have: set<string>) {
    (have == {} || Clean(v)) && Known(v, have, all.strings)
  }

  /** Likewise the value behind a reference; one not stored shows as the reference it is. */
  predicate RefFits(all: Index, ix: Index, id: nat, have: set<string>) {
    if id in ix.blobs then ValueFits(all, ix.blobs[id], have) else Content(all, id) == Str(BlobRef(id))
  }

  ghost predicate BatchFits(all: Index, ix: Index, batch: seq<Wire>, sent: Sent, have: set<string>) {
    && (forall i :: 0 <= i < |batch| ==> ValueFits(all, Obj(batch[i].rest), have))
    && forall id :: id in Wanted(batch, sent) ==> RefFits(all, ix, id, have)
  }

  /** The pointers on file once a batch's strings have arrived. */
  function HaveAfter(ix: Index, batch: seq<Wire>, sent: Sent, have: set<string>): set<string> {
    have + set p | p in NewPointers(ix, batch, sent) && p in ix.strings
  }

  lemma ValueExact(all: Index, view: View, v: Json)
    requires PointerKeys(all.strings) && RightStrings(all, view)
    ensures ResolveRecord(v, view.strings) == Resolve(v, all.strings) <==> ValueFits(all, v, view.strings.Keys)
  {
    ResolveRecordAgrees(v, view.strings, all.strings);
    assert view.strings == map[] <==> view.strings.Keys == {};
  }

  // ---- the three parts of a batch -----------------------------------------------------------------

  lemma {:induction false} StringsFiled(all: Index, ix: Index, view: View, pointers: seq<string>)
    requires RightStrings(all, view) && Within(ix, all)
    ensures var view' := ViewAfter(view, StringLines(ix, pointers));
            && RightStrings(all, view') && view'.blobs == view.blobs
            && view'.strings.Keys == view.strings.Keys + set p | p in pointers && p in ix.strings
    ensures Records(view, StringLines(ix, pointers)) == []
    decreases pointers
  {
    if pointers != [] {
      var p := pointers[0];
      assert forall q :: q in pointers <==> q == p || q in pointers[1..];
      if p in ix.strings {
        StringsFiled(all, ix, Store(view, StringLine(p, ix.strings[p])), pointers[1..]);
        assert StringLines(ix, pointers)[1..] == StringLines(ix, pointers[1..]);
      } else {
        StringsFiled(all, ix, view, pointers[1..]);
        assert StringLines(ix, pointers) == StringLines(ix, pointers[1..]);
      }
    }
  }

  /** What these blobs show once filed, the others showing what they did. */
  ghost predicate Filed(ix: Index, view: View, ids: seq<nat>, view': View) {
    && view'.strings == view.strings
    && (forall id :: id in ids && id in ix.blobs ==>
          ContentFor(view'.blobs, id) == ResolveRecord(ix.blobs[id], view.strings))
    && (forall id :: id !in ids || id !in ix.blobs ==> ContentFor(view'.blobs, id) == ContentFor(view.blobs, id))
    && view'.blobs.Keys <= view.blobs.Keys + ix.blobs.Keys
  }

  lemma {:induction false} BlobsFiled(ix: Index, view: View, ids: seq<nat>)
    requires Distinct(ids)
    ensures Filed(ix, view, ids, ViewAfter(view, BlobLines(ix, ids)))
    ensures Records(view, BlobLines(ix, ids)) == []
    decreases ids
  {
    if ids != [] {
      var id := ids[0];
      DistinctTail(ids);
      assert forall x :: x in ids <==> x == id || x in ids[1..];
      if id in ix.blobs {
        var view1 := Store(view, BlobLine(id, ix.blobs[id]));
        BlobsFiled(ix, view1, ids[1..]);
        assert BlobLines(ix, ids)[1..] == BlobLines(ix, ids[1..]);
        FiledOne(ix, view, view1, ids, ViewAfter(view1, BlobLines(ix, ids[1..])));
      } else {
        BlobsFiled(ix, view, ids[1..]);
        assert BlobLines(ix, ids) == BlobLines(ix, ids[1..]);
      }
    }
  }

  lemma FiledOne(ix: Index, view: View, view1: View, ids: seq<nat>, view': View)
    requires ids != [] && ids[0] in ix.blobs && ids[0] !in ids[1..]
    requires view1 == Store(view, BlobLine(ids[0], ix.blobs[ids[0]])) && Filed(ix, view1, ids[1..], view')
    ensures Filed(ix, view, ids, view')
  {
    var id := ids[0];
    assert forall x :: x in ids <==> x == id || x in ids[1..];
    assert ContentFor(view'.blobs, id) == ContentFor(view1.blobs, id) == ResolveRecord(ix.blobs[id], view.strings);
  }

  lemma {:induction false} RecordsHydrated(view: View, batch: seq<Wire>)
    ensures |Records(view, RecordLines(batch))| == |batch|
    ensures forall i :: 0 <= i < |batch| ==> Records(view, RecordLines(batch))[i] == Hydrate(view, batch[i])
    ensures ViewAfter(view, RecordLines(batch)) == view
    decreases batch
  {
    if batch != [] {
      RecordsHydrated(view, batch[1..]);
      assert RecordLines(batch)[1..] == RecordLines(batch[1..]);
      assert Records(view, RecordLines(batch)) == [Hydrate(view, batch[0])] + Records(view, RecordLines(batch[1..]));
    }
  }
}
