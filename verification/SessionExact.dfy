/**
  Exactly when a response shows its records as meant (agent_wrap/domain/logs/stream.py against
  logs_page/app.js), whatever the index gains while it is read.
  */
module SessionExact {
  import opened Totals
  import opened Json
  import opened Stream
  import opened Viewer
  import opened SessionRebuild

  // ---- one batch ----------------------------------------------------------------------------------

  /** The page once a batch's strings have arrived, */
  function WithStrings(ix: Index, view: View, batch: seq<Wire>, sent: Sent): View {
    ViewAfter(view, StringLines(ix, SortedPointers(NewPointers(ix, batch, sent))))
  }

  /** and when its records are hydrated. */
  function WithContent(ix: Index, view: View, batch: seq<Wire>, sent: Sent): View {
    ViewAfter(WithStrings(ix, view, batch, sent), BlobLines(ix, SortedIds(Wanted(batch, sent))))
  }

  /** The page holds nothing that is not stored, and the strings it holds are right. */
  ghost predicate FromIndex(all: Index, ix: Index, view: View) {
    Within(ix, all) && RightStrings(all, view) && view.blobs.Keys <= ix.blobs.Keys
  }

  lemma BatchRead(ix: Index, view: View, batch: seq<Wire>, sent: Sent)
    ensures ViewAfter(view, BatchLines(ix, batch, sent)) == WithContent(ix, view, batch, sent)
    ensures Records(view, BatchLines(ix, batch, sent))
            == Records(view, StringLines(ix, SortedPointers(NewPointers(ix, batch, sent))))
               + Records(WithStrings(ix, view, batch, sent), BlobLines(ix, SortedIds(Wanted(batch, sent))))
               + Records(WithContent(ix, view, batch, sent), RecordLines(batch))
  {
    var pointers, ids := SortedPointers(NewPointers(ix, batch, sent)), SortedIds(Wanted(batch, sent));
    var strings, blobs := StringLines(ix, pointers), BlobLines(ix, ids);
    ReadAppend(view, strings + blobs, RecordLines(batch));
    ReadAppend(view, strings, blobs);
    RecordsHydrated(WithContent(ix, view, batch, sent), batch);
  }

  lemma BatchFiled(all: Index, ix: Index, view: View, batch: seq<Wire>, sent: Sent)
    requires FromIndex(all, ix, view)
    ensures var view1, view2 := WithStrings(ix, view, batch, sent), WithContent(ix, view, batch, sent);
            && FromIndex(all, ix, view2) && view1.blobs == view.blobs
            && view2.strings.Keys == HaveAfter(ix, batch, sent, view.strings.Keys)
            && Filed(ix, view1, SortedIds(Wanted(batch, sent)), view2)
    ensures Records(view, StringLines(ix, SortedPointers(NewPointers(ix, batch, sent)))) == []
    ensures Records(WithStrings(ix, view, batch, sent), BlobLines(ix, SortedIds(Wanted(batch, sent)))) == []
  {
    var pointers := SortedPointers(NewPointers(ix, batch, sent));
    StringsFiled(all, ix, view, pointers);
    SortedIdsIncrease(Wanted(batch, sent));
    BlobsFiled(ix, WithStrings(ix, view, batch, sent), SortedIds(Wanted(batch, sent)));
    assert forall p :: p in pointers <==> p in NewPointers(ix, batch, sent);
  }

  lemma BatchParts(all: Index, ix: Index, view: View, batch: seq<Wire>, sent: Sent)
    requires FromIndex(all, ix, view)
    ensures var view1, view2 := WithStrings(ix, view, batch, sent), WithContent(ix, view, batch, sent);
            && ViewAfter(view, BatchLines(ix, batch, sent)) == view2
            && Records(view, BatchLines(ix, batch, sent)) == Records(view2, RecordLines(batch))
            && FromIndex(all, ix, view2) && view1.blobs == view.blobs
            && view2.strings.Keys == HaveAfter(ix, batch, sent, view.strings.Keys)
            && Filed(ix, view1, SortedIds(Wanted(batch, sent)), view2)
  {
    BatchRead(ix, view, batch, sent);
    BatchFiled(all, ix, view, batch, sent);
    var records := Records(WithContent(ix, view, batch, sent), RecordLines(batch));
    assert [] + [] + records == records;
  }

  /** A reference of the batch shows what it stands for: sent now, as far as it fits; sent before, anyway. */
  lemma RefShownIff(all: Index, ix: Index, view: View, batch: seq<Wire>, sent: Sent, id: nat)
    requires PointerKeys(all.strings) && FromIndex(all, ix, view) && Holds(all, view, sent.blobs)
    requires id in AllRefs(batch)
    ensures var have := HaveAfter(ix, batch, sent, view.strings.Keys);
            ContentFor(WithContent(ix, view, batch, sent).blobs, id) == Content(all, id)
            <==> id in Wanted(batch, sent) ==> RefFits(all, ix, id, have)
  {
    BatchParts(all, ix, view, batch, sent);
    if id in Wanted(batch, sent) && id in ix.blobs {
      ValueExact(all, WithContent(ix, view, batch, sent), ix.blobs[id]);
    }
  }

  lemma {:induction false} ContentsIff(all: Index, blobs: map<nat, Json>, ids: seq<nat>)
    ensures ContentsFor(blobs, ids) == Contents(all, ids)
            <==> forall id :: id in ids ==> ContentFor(blobs, id) == Content(all, id)
  {
    if ids != [] {
      ContentsIff(all, blobs, ids[1..]);
      HeadTailItems(ContentFor(blobs, ids[0]), ContentsFor(blobs, ids[1..]),
                    Content(all, ids[0]), Contents(all, ids[1..]));
      assert forall x :: x in ids <==> x == ids[0] || x in ids[1..];
    }
  }

  lemma HydratedIff(all: Index, view: View, w: Wire)
    requires PointerKeys(all.strings) && RightStrings(all, view)
    ensures Hydrate(view, w) == Meant(all, w)
            <==> ValueFits(all, Obj(w.rest), view.strings.Keys) && Holds(all, view, RefsOf(w))
  {
    ContentsIff(all, view.blobs, w.messages);
    ValueExact(all, view, Obj(w.rest));
    assert forall id :: id in RefsOf(w) <==> id in w.messages || w.system == Some(id) || w.tools == Some(id);
  }

  lemma {:induction false} RefOfSome(batch: seq<Wire>, id: nat) returns (i: nat)
    requires id in AllRefs(batch)
    ensures i < |batch| && id in RefsOf(batch[i])
  {
    if id in RefsOf(batch[0]) {
      i := 0;
    } else {
      i := RefOfSome(batch[1..], id);
      i := i + 1;
    }
  }

  lemma {:induction false} RefsAt(order: seq<Wire>, k: nat)
    requires k < |order|
    ensures RefsOf(order[k]) <= AllRefs(order)
  {
    if k > 0 { RefsAt(order[1..], k - 1); }
  }

  /** All records come out right exactly if each does, and so does all they refer to. */
  lemma RecordsShownIff(all: Index, view: View, batch: seq<Wire>)
    requires PointerKeys(all.strings) && RightStrings(all, view)
    ensures Records(view, RecordLines(batch)) == AllMeant(all, batch)
            <==> (forall i :: 0 <= i < |batch| ==> ValueFits(all, Obj(batch[i].rest), view.strings.Keys))
                 && Holds(all, view, AllRefs(batch))
  {
    var shown := Records(view, RecordLines(batch));
    RecordsHydrated(view, batch);
    forall i | 0 <= i < |batch|
      ensures RefsOf(batch[i]) <= AllRefs(batch) && AllMeant(all, batch)[i] == Meant(all, batch[i])
      ensures shown[i] == Meant(all, batch[i])
              <==> ValueFits(all, Obj(batch[i].rest), view.strings.Keys) && Holds(all, view, RefsOf(batch[i]))
    {
      RefsAt(batch, i);
      AllMeantAt(all, batch, i);
      HydratedIff(all, view, batch[i]);
    }
    if forall i :: 0 <= i < |batch| ==> shown[i] == Meant(all, batch[i]) {
      forall id | id in AllRefs(batch)
        ensures ContentFor(view.blobs, id) == Content(all, id)
      {
        var i := RefOfSome(batch, id);
        assert shown[i] == Meant(all, batch[i]);
      }
      assert shown == AllMeant(all, batch);
    }
  }

  /** Whatever was right before stays right over a batch that fits. */
  lemma BatchKeeps(all: Index, ix: Index, view: View, batch: seq<Wire>, sent: Sent, id: nat)
    requires PointerKeys(all.strings) && FromIndex(all, ix, view) && Holds(all, view, sent.blobs)
    requires BatchFits(all, ix, batch, sent, HaveAfter(ix, batch, sent, view.strings.Keys))
    requires ContentFor(view.blobs, id) == Content(all, id)
    ensures ContentFor(WithContent(ix, view, batch, sent).blobs, id) == Content(all, id)
  {
    BatchParts(all, ix, view, batch, sent);
    if id in Wanted(batch, sent) { RefShownIff(all, ix, view, batch, sent, id); }
  }

  /**
    A batch comes out as meant if and only if it fits: every value sent is clean, unless no string is on file, and
    misses no string that is ever stored.
    */
  lemma BatchExact(all: Index, ix: Index, view: View, batch: seq<Wire>, sent: Sent)
    requires PointerKeys(all.strings) && FromIndex(all, ix, view) && Holds(all, view, sent.blobs)
    ensures var have := HaveAfter(ix, batch, sent, view.strings.Keys);
            var lines := BatchLines(ix, batch, sent);
            && (Records(view, lines) == AllMeant(all, batch) <==> BatchFits(all, ix, batch, sent, have))
            && (BatchFits(all, ix, batch, sent, have) ==>
                  Holds(all, ViewAfter(view, lines), SentAfter(ix, batch, sent).blobs))
  {
    var view2 := WithContent(ix, view, batch, sent);
    BatchParts(all, ix, view, batch, sent);
    RecordsShownIff(all, view2, batch);
    forall id | id in AllRefs(batch)
      ensures ContentFor(view2.blobs, id) == Content(all, id)
              <==> id in Wanted(batch, sent) ==> RefFits(all, ix, id, view2.strings.Keys)
    {
      RefShownIff(all, ix, view, batch, sent, id);
    }
    if BatchFits(all, ix, batch, sent, view2.strings.Keys) {
      forall id | id in SentAfter(ix, batch, sent).blobs
        ensures ContentFor(view2.blobs, id) == Content(all, id)
      {
        if id in sent.blobs { BatchKeeps(all, ix, view, batch, sent, id); }
      }
    }
  }

  // ---- a whole response ---------------------------------------------------------------------------

  /** Each batch of the response fits, given what the earlier ones have put on file. */
  ghost predicate Fits(all: Index, at: nat -> Index, k: nat, selected: seq<Wire>, size: nat, sent: Sent,
                       have: set<string>)
    requires size >= 1
    decreases |selected|
  {
    selected == [] ||
    (var n := Cut(|selected|, size);
     var batch := selected[..n];
     var have' := HaveAfter(at(k), batch, sent, have);
     && BatchFits(all, at(k), batch, sent, have')
     && Fits(all, at, k + 1, selected[n..], size, SentAfter(at(k), batch, sent), have'))
  }

  /** The pointers on file when these records have been sent. */
  ghost function HaveAtEnd(at: nat -> Index, k: nat, selected: seq<Wire>, size: nat, sent: Sent, have: set<string>)
    : set<string>
    requires size >= 1
    decreases |selected|
  {
    if selected == [] then have
    else
      var n := Cut(|selected|, size);
      var batch := selected[..n];
      HaveAtEnd(at, k + 1, selected[n..], size, SentAfter(at(k), batch, sent), HaveAfter(at(k), batch, sent, have))
  }

  /** While it is read the index loses no blob, and stores nothing `all` does not hold. */
  ghost predicate Growing(all: Index, at: nat -> Index) {
    && (forall j: nat :: Within(at(j), all))
    && forall i: nat, j: nat :: i <= j ==> at(i).blobs.Keys <= at(j).blobs.Keys
  }

  /** What any response does, right or wrong as its content may come out. */
  lemma {:induction false} ResponseCounts(all: Index, at: nat -> Index, k: nat, view: View, selected: seq<Wire>,
                                          size: nat, sent: Sent)
    requires size >= 1 && Growing(all, at) && FromIndex(all, at(k), view)
    ensures var lines := AllBatches(at, k, selected, size, sent);
            && |Records(view, lines)| == |selected| && RightStrings(all, ViewAfter(view, lines))
            && ViewAfter(view, lines).strings.Keys == HaveAtEnd(at, k, selected, size, sent, view.strings.Keys)
            && exists j: nat :: ViewAfter(view, lines).blobs.Keys <= at(j).blobs.Keys
    decreases |selected|
  {
    if selected != [] {
      var n := Cut(|selected|, size);
      var batch := selected[..n];
      var lines, sent' := BatchLines(at(k), batch, sent), SentAfter(at(k), batch, sent);
      BatchParts(all, at(k), view, batch, sent);
      RecordsHydrated(WithContent(at(k), view, batch, sent), batch);
      ResponseCounts(all, at, k + 1, ViewAfter(view, lines), selected[n..], size, sent');
      ReadAppend(view, lines, AllBatches(at, k + 1, selected[n..], size, sent'));
    }
  }

  lemma SplitEqual<T>(a: seq<T>, b: seq<T>, c: seq<T>, d: seq<T>)
    requires |a| == |c|
    ensures a + b == c + d <==> a == c && b == d
  {
    assert (a + b)[..|a|] == a && (c + d)[..|a|] == c && (a + b)[|a|..] == b && (c + d)[|a|..] == d;
  }

  /** A response's records come out as meant if and only if it fits. */
  lemma {:induction false} ResponseExact(all: Index, at: nat -> Index, k: nat, view: View, selected: seq<Wire>,
                                         size: nat, sent: Sent)
    requires size >= 1 && PointerKeys(all.strings) && Growing(all, at)
    requires FromIndex(all, at(k), view) && Holds(all, view, sent.blobs)
    ensures Records(view, AllBatches(at, k, selected, size, sent)) == AllMeant(all, selected)
            <==> Fits(all, at, k, selected, size, sent, view.strings.Keys)
    decreases |selected|
  {
    if selected != [] {
      var n := Cut(|selected|, size);
      var batch, rest := selected[..n], selected[n..];
      var lines, sent' := BatchLines(at(k), batch, sent), SentAfter(at(k), batch, sent);
      var others := AllBatches(at, k + 1, rest, size, sent');
      BatchParts(all, at(k), view, batch, sent);
      RecordsHydrated(WithContent(at(k), view, batch, sent), batch);
      BatchExact(all, at(k), view, batch, sent);
      Halves(selected, n);
      TwoParts(all, view, batch, rest, lines, others);
      if BatchFits(all, at(k), batch, sent, HaveAfter(at(k), batch, sent, view.strings.Keys)) {
        ResponseExact(all, at, k + 1, ViewAfter(view, lines), rest, size, sent');
      }
    }
  }

  lemma TwoParts(all: Index, view: View, batch: seq<Wire>, rest: seq<Wire>, lines: seq<Line>, others: seq<Line>)
    requires |Records(view, lines)| == |batch|
    ensures Records(view, lines + others) == AllMeant(all, batch + rest)
            <==> Records(view, lines) == AllMeant(all, batch)
                 && Records(ViewAfter(view, lines), others) == AllMeant(all, rest)
  {
    ReadAppend(view, lines, others);
    AllMeantAppend(all, batch, rest);
    SplitEqual(Records(view, lines), Records(ViewAfter(view, lines), others),
               AllMeant(all, batch), AllMeant(all, rest));
  }

  /** After a response that fits, its references are held, and whatever was right before is. */
  lemma {:induction false} ResponseHolds(all: Index, at: nat -> Index, k: nat, view: View, selected: seq<Wire>,
                                         size: nat, sent: Sent, ids: set<nat>)
    requires size >= 1 && PointerKeys(all.strings) && Growing(all, at)
    requires FromIndex(all, at(k), view) && Holds(all, view, sent.blobs) && Holds(all, view, ids)
    requires Fits(all, at, k, selected, size, sent, view.strings.Keys)
    ensures Holds(all, ViewAfter(view, AllBatches(at, k, selected, size, sent)), ids + AllRefs(selected))
    decreases |selected|
  {
    if selected != [] {
      var n := Cut(|selected|, size);
      var batch, rest := selected[..n], selected[n..];
      var lines, sent' := BatchLines(at(k), batch, sent), SentAfter(at(k), batch, sent);
      BatchParts(all, at(k), view, batch, sent);
      BatchExact(all, at(k), view, batch, sent);
      forall id | id in ids
        ensures ContentFor(ViewAfter(view, lines).blobs, id) == Content(all, id)
      {
        BatchKeeps(all, at(k), view, batch, sent, id);
      }
      assert Holds(all, ViewAfter(view, lines), ids + AllRefs(batch));
      ResponseHolds(all, at, k + 1, ViewAfter(view, lines), rest, size, sent', ids + AllRefs(batch));
      ReadAppend(view, lines, AllBatches(at, k + 1, rest, size, sent'));
      Halves(selected, n);
      AllRefsAppend(batch, rest);
    }
  }

  lemma HeaderChangesNothing(view: View, count: Option<nat>, lines: seq<Line>)
    ensures ViewAfter(view, [Meta(count)] + lines) == ViewAfter(view, lines)
    ensures Records(view, [Meta(count)] + lines) == Records(view, lines)
  {
    assert ([Meta(count)] + lines)[1..] == lines;
  }

  const NOTHING_SENT := Sent({}, {})
}
