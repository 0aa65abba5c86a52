/**
  Responses served from one state of the index (agent_wrap/domain/logs/stream.py against logs_page/app.js): what
  fits is what is clean, from the first string on, and quotes nothing the index is still to store.
  */
module SessionAtRest {
  import opened Totals
  import opened Json
  import opened Stream
  import opened Viewer
  import opened SessionRebuild
  import opened SessionExact

  function Resting(ix: Index): nat -> Index {
    (j: nat) => ix
  }

  ghost predicate CleanRecords(order: seq<Wire>) {
    forall i :: 0 <= i < |order| ==> Clean(Obj(order[i].rest))
  }

  /** What these records send that has to be resolved is clean. */
  ghost predicate BatchClean(ix: Index, batch: seq<Wire>, sent: Sent) {
    CleanRecords(batch) && forall id :: id in Wanted(batch, sent) && id in ix.blobs ==> Clean(ix.blobs[id])
  }

  /** Every string the value quotes that is ever stored is stored already. */
  predicate InTime(all: Index, ix: Index, v: Json) {
    Known(v, ix.strings.Keys, all.strings)
  }

  predicate RefInTime(all: Index, ix: Index, id: nat) {
    if id in ix.blobs then InTime(all, ix, ix.blobs[id]) else Content(all, id) == Str(BlobRef(id))
  }

  /** So is every string that these records send for, and every blob. */
  ghost predicate SentInTime(all: Index, ix: Index, selected: seq<Wire>, sent: Sent) {
    && (forall i :: 0 <= i < |selected| ==> InTime(all, ix, Obj(selected[i].rest)))
    && forall id :: id in Wanted(selected, sent) ==> RefInTime(all, ix, id)
  }

  /** The batch brings a string. */
  ghost predicate Finds(ix: Index, batch: seq<Wire>, sent: Sent) {
    exists p :: p in NewPointers(ix, batch, sent) && p in ix.strings
  }

  /** From the batch with the first string on, all that is sent and has to be resolved is clean. */
  ghost predicate Unspoilt(ix: Index, selected: seq<Wire>, size: nat, sent: Sent, bare: bool)
    requires size >= 1
    decreases |selected|
  {
    selected == [] ||
    (var n := Cut(|selected|, size);
     var batch := selected[..n];
     var stillBare := bare && !Finds(ix, batch, sent);
     && (stillBare || BatchClean(ix, batch, sent))
     && Unspoilt(ix, selected[n..], size, SentAfter(ix, batch, sent), stillBare))
  }

  // ---- what the scan of a batch covers ------------------------------------------------------------

  lemma {:induction false} BlobsScanned(ix: Index, ids: seq<nat>, id: nat, p: string)
    requires id in ids && id in ix.blobs && IsPointer(p) && HasLeaf(ix.blobs[id], p)
    ensures p in BlobPointers(ix, ids)
  {
    if ids[0] == id { PointersOfText(ix.blobs[id], p); } else { BlobsScanned(ix, ids[1..], id, p); }
  }

  lemma {:induction false} RecordsScanned(batch: seq<Wire>, i: nat, p: string)
    requires i < |batch| && IsPointer(p) && HasLeaf(Obj(batch[i].rest), p)
    ensures p in RecordPointers(batch)
  {
    if i == 0 {
      var rest, all := batch[0].rest, RecordJson(batch[0]).fields;
      var k :| 0 <= k < |rest| && HasLeaf(rest[k].value, p);
      assert all[k] == rest[k];
      PointersOfText(RecordJson(batch[0]), p);
    } else {
      RecordsScanned(batch[1..], i - 1, p);
    }
  }

  /** A pointer the batch's content quotes whole has been looked up by now. */
  ghost predicate LookedUp(ix: Index, batch: seq<Wire>, sent: Sent, v: Json) {
    forall p :: IsPointer(p) && HasLeaf(v, p) ==> p in SentAfter(ix, batch, sent).pointers
  }

  lemma BatchScanned(ix: Index, batch: seq<Wire>, sent: Sent)
    ensures forall i :: 0 <= i < |batch| ==> LookedUp(ix, batch, sent, Obj(batch[i].rest))
    ensures forall id :: id in Wanted(batch, sent) && id in ix.blobs ==> LookedUp(ix, batch, sent, ix.blobs[id])
  {
    forall i, p | 0 <= i < |batch| && IsPointer(p) && HasLeaf(Obj(batch[i].rest), p)
      ensures p in SentAfter(ix, batch, sent).pointers
    {
      RecordsScanned(batch, i, p);
    }
    var ids := SortedIds(Wanted(batch, sent));
    forall id, p | id in Wanted(batch, sent) && id in ix.blobs && IsPointer(p) && HasLeaf(ix.blobs[id], p)
      ensures p in SentAfter(ix, batch, sent).pointers
    {
      BlobsScanned(ix, ids, id, p);
    }
  }

  // ---- one batch ----------------------------------------------------------------------------------

  /** What counts as sent is on file, if it is stored, and nothing on file is missing from the index. */
  ghost predicate UpToDate(ix: Index, sent: Sent, have: set<string>) {
    have <= ix.strings.Keys && forall p :: p in sent.pointers && p in ix.strings ==> p in have
  }

  lemma BatchUpToDate(ix: Index, batch: seq<Wire>, sent: Sent, have: set<string>)
    requires UpToDate(ix, sent, have)
    ensures UpToDate(ix, SentAfter(ix, batch, sent), HaveAfter(ix, batch, sent, have))
    ensures HaveAfter(ix, batch, sent, have) == {} <==> have == {} && !Finds(ix, batch, sent)
  {
    var have' := HaveAfter(ix, batch, sent, have);
    if Finds(ix, batch, sent) {
      var p :| p in NewPointers(ix, batch, sent) && p in ix.strings;
      assert p in have';
    } else {
      assert have' == have;
    }
  }

  lemma OnFileIffStored(all: Index, ix: Index, batch: seq<Wire>, sent: Sent, have: set<string>, v: Json)
    requires PointerKeys(all.strings) && UpToDate(ix, sent, have) && LookedUp(ix, batch, sent, v)
    ensures Known(v, HaveAfter(ix, batch, sent, have), all.strings) <==> InTime(all, ix, v)
  {
    var have' := HaveAfter(ix, batch, sent, have);
    BatchUpToDate(ix, batch, sent, have);
    KnownIff(v, have', all.strings);
    KnownIff(v, ix.strings.Keys, all.strings);
    assert forall p :: HasLeaf(v, p) && p in all.strings ==> (p in have' <==> p in ix.strings);
  }

  lemma BatchFitsIff(all: Index, ix: Index, batch: seq<Wire>, sent: Sent, have: set<string>)
    requires PointerKeys(all.strings) && UpToDate(ix, sent, have)
    ensures BatchFits(all, ix, batch, sent, HaveAfter(ix, batch, sent, have))
            <==> ((have == {} && !Finds(ix, batch, sent)) || BatchClean(ix, batch, sent))
                 && SentInTime(all, ix, batch, sent)
  {
    BatchUpToDate(ix, batch, sent, have);
    BatchScanned(ix, batch, sent);
    forall i | 0 <= i < |batch|
      ensures Known(Obj(batch[i].rest), HaveAfter(ix, batch, sent, have), all.strings)
              <==> InTime(all, ix, Obj(batch[i].rest))
    {
      OnFileIffStored(all, ix, batch, sent, have, Obj(batch[i].rest));
    }
    forall id | id in Wanted(batch, sent) && id in ix.blobs
      ensures Known(ix.blobs[id], HaveAfter(ix, batch, sent, have), all.strings) <==> InTime(all, ix, ix.blobs[id])
    {
      OnFileIffStored(all, ix, batch, sent, have, ix.blobs[id]);
    }
  }

  // ---- a whole response ---------------------------------------------------------------------------

  lemma SentInTimeHalves(all: Index, ix: Index, batch: seq<Wire>, rest: seq<Wire>, sent: Sent)
    ensures SentInTime(all, ix, batch + rest, sent)
            <==> SentInTime(all, ix, batch, sent) && SentInTime(all, ix, rest, SentAfter(ix, batch, sent))
  {
    AllRefsAppend(batch, rest);
    assert Wanted(batch + rest, sent) == Wanted(batch, sent) + Wanted(rest, SentAfter(ix, batch, sent));
    RecordsInTimeHalves(all, ix, batch, rest);
  }

  lemma RecordsInTimeHalves(all: Index, ix: Index, batch: seq<Wire>, rest: seq<Wire>)
    ensures (forall i :: 0 <= i < |batch + rest| ==> InTime(all, ix, Obj((batch + rest)[i].rest)))
            <==> (forall i :: 0 <= i < |batch| ==> InTime(all, ix, Obj(batch[i].rest)))
                 && (forall i :: 0 <= i < |rest| ==> InTime(all, ix, Obj(rest[i].rest)))
  {
    assert forall i :: 0 <= i < |batch| ==> (batch + rest)[i] == batch[i];
    assert forall i :: 0 <= i < |rest| ==> (batch + rest)[|batch| + i] == rest[i];
    assert forall i :: |batch| <= i < |batch + rest| ==> (batch + rest)[i] == rest[i - |batch|];
  }

  /** Served from one state of the index, what fits is unspoilt and in time. */
  lemma {:induction false} FitsIff(all: Index, ix: Index, k: nat, selected: seq<Wire>, size: nat, sent: Sent,
                                   have: set<string>)
    requires size >= 1 && PointerKeys(all.strings) && UpToDate(ix, sent, have)
    ensures Fits(all, Resting(ix), k, selected, size, sent, have)
            <==> Unspoilt(ix, selected, size, sent, have == {}) && SentInTime(all, ix, selected, sent)
    decreases |selected|
  {
    if selected != [] {
      var n := Cut(|selected|, size);
      var batch, rest := selected[..n], selected[n..];
      Halves(selected, n);
      SentInTimeHalves(all, ix, batch, rest, sent);
      BatchFitsIff(all, ix, batch, sent, have);
      BatchUpToDate(ix, batch, sent, have);
      FitsIff(all, ix, k + 1, rest, size, SentAfter(ix, batch, sent), HaveAfter(ix, batch, sent, have));
    }
  }

  /** Nothing is late once nothing more is stored. */
  lemma SettledInTime(ix: Index, selected: seq<Wire>, sent: Sent)
    ensures SentInTime(ix, ix, selected, sent)
  {
    forall v: Json
      ensures InTime(ix, ix, v)
    {
      KnownIff(v, ix.strings.Keys, ix.strings);
    }
  }

  /**
    A full load of a session at rest shows it as meant if and only if, from the batch that brings the first
    interned string on, no value sent names an inherited property or has a `__proto__` key.
    */
  lemma FullLoadIsExact(ix: Index, order: seq<Wire>, size: nat, listed: Option<nat>)
    requires size >= 1 && PointerKeys(ix.strings)
    ensures Records(View(map[], map[]), Response(Resting(ix), order, 0, None, size, listed)) == AllMeant(ix, order)
            <==> Unspoilt(ix, order, size, NOTHING_SENT, true)
  {
    var empty := View(map[], map[]);
    assert Selected(order, 0, None) == order;
    HeaderChangesNothing(empty, listed, AllBatches(Resting(ix), 0, order, size, NOTHING_SENT));
    ResponseExact(ix, Resting(ix), 0, empty, order, size, NOTHING_SENT);
    FitsIff(ix, ix, 0, order, size, NOTHING_SENT, {});
    SettledInTime(ix, order, NOTHING_SENT);
    assert empty.strings.Keys == {};
  }
}
