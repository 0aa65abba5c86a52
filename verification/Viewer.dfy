/**
  The browser's side of an open session (logs_page/app.js): content filed under its reference, records
  rebuilt from it. JavaScript's plain objects answer for names they only inherit, and the model says so.
  */
module Viewer {
  import opened Totals
  import opened Json
  import opened Stream

  /** What `{}[name]` finds although nothing was stored under it. */
  const PROTOTYPE_NAMES: set<string> :=
    {"constructor", "hasOwnProperty", "isPrototypeOf", "propertyIsEnumerable", "toLocaleString", "toString",
     "valueOf", "__proto__", "__defineGetter__", "__defineSetter__", "__lookupGetter__", "__lookupSetter__"}

  const PROTO_KEY := "__proto__"

  // ---- resolveRecord ------------------------------------------------------------------------------

  function Walk(v: Json, strings: Strings): Json {
    match v
    case Str(s) => if s in strings then Str(strings[s]) else if s in PROTOTYPE_NAMES then Builtin(s) else v
    case Arr(items) => Arr(WalkItems(items, strings))
    case Obj(fields) => Obj(WalkFields(fields, strings))
    case _ => v
  }

  function WalkItems(items: seq<Json>, strings: Strings): (r: seq<Json>)
    ensures |r| == |items|
  {
    if items == [] then [] else [Walk(items[0], strings)] + WalkItems(items[1..], strings)
  }

  /** Assigning to `__proto__` makes no entry. */
  function WalkFields(fields: seq<Field>, strings: Strings): (r: seq<Field>)
    ensures |r| <= |fields|
  {
    if fields == [] then []
    else
      (if fields[0].key == PROTO_KEY then [] else [Field(fields[0].key, Walk(fields[0].value, strings))])
      + WalkFields(fields[1..], strings)
  }

  function ResolveRecord(v: Json, strings: Strings): Json {
    if strings == map[] then v else Walk(v, strings)
  }

  /** No string of the value is the name of something every object inherits, and no key is `__proto__`. */
  predicate Clean(v: Json) {
    match v
    case Str(s) => s !in PROTOTYPE_NAMES
    case Arr(items) => forall i :: 0 <= i < |items| ==> Clean(items[i])
    case Obj(fields) => forall i :: 0 <= i < |fields| ==> fields[i].key != PROTO_KEY && Clean(fields[i].value)
    case _ => true
  }

  ghost predicate PointerKeys(strings: Strings) {
    forall p :: p in strings ==> IsPointer(p)
  }

  lemma PointersAreOwn(s: string)
    requires IsPointer(s)
    ensures s !in PROTOTYPE_NAMES
  {
  }

  /** Every string of the value that `all` knows, `here` knows as well, or it stands for itself. */
  predicate Known(v: Json, here: set<string>, all: Strings) {
    match v
    case Str(s) => s in all ==> s in here || all[s] == s
    case Arr(items) => forall i :: 0 <= i < |items| ==> Known(items[i], here, all)
    case Obj(fields) => forall i :: 0 <= i < |fields| ==> Known(fields[i].value, here, all)
    case _ => true
  }

  lemma {:induction false} KnownIff(v: Json, here: set<string>, all: Strings)
    ensures Known(v, here, all) <==> forall p :: HasLeaf(v, p) && p in all ==> p in here || all[p] == p
  {
    match v
    case Str(s) => assert HasLeaf(v, s);
    case Arr(items) =>
      forall i | 0 <= i < |items|
        ensures Known(items[i], here, all)
                <==> forall p :: HasLeaf(items[i], p) && p in all ==> p in here || all[p] == p
      {
        KnownIff(items[i], here, all);
      }
    case Obj(fields) =>
      forall i | 0 <= i < |fields|
        ensures Known(fields[i].value, here, all)
                <==> forall p :: HasLeaf(fields[i].value, p) && p in all ==> p in here || all[p] == p
      {
        KnownIff(fields[i].value, here, all);
      }
    case _ =>
  }

  ghost predicate Part(a: Strings, b: Strings) {
    forall p :: p in a ==> p in b && b[p] == a[p]
  }

  /** With strings on file, resolving does what the whole table would exactly on clean values it knows enough for. */
  lemma {:induction false} WalkIsExact(v: Json, a: Strings, b: Strings)
    requires PointerKeys(b) && Part(a, b)
    ensures Walk(v, a) == Resolve(v, b) <==> Clean(v) && Known(v, a.Keys, b)
  {
    match v
    case Str(s) => if s in b { PointersAreOwn(s); }
    case Arr(items) => WalkItemsExact(items, a, b);
    case Obj(fields) => WalkFieldsExact(fields, a, b);
    case _ =>
  }

  predicate CleanItems(items: seq<Json>) {
    forall i :: 0 <= i < |items| ==> Clean(items[i])
  }

  predicate KnownItems(items: seq<Json>, here: set<string>, all: Strings) {
    forall i :: 0 <= i < |items| ==> Known(items[i], here, all)
  }

  lemma ItemsHeadTail(items: seq<Json>, here: set<string>, all: Strings)
    requires items != []
    ensures CleanItems(items) <==> Clean(items[0]) && CleanItems(items[1..])
    ensures KnownItems(items, here, all) <==> Known(items[0], here, all) && KnownItems(items[1..], here, all)
  {
    assert forall i :: 1 <= i < |items| ==> items[i] == items[1..][i - 1];
    assert forall i :: 0 <= i < |items[1..]| ==> items[1..][i] == items[i + 1];
  }

  lemma {:induction false} WalkItemsExact(items: seq<Json>, a: Strings, b: Strings)
    requires PointerKeys(b) && Part(a, b)
    ensures WalkItems(items, a) == ResolveItems(items, b) <==> CleanItems(items) && KnownItems(items, a.Keys, b)
  {
    if items != [] {
      WalkIsExact(items[0], a, b);
      WalkItemsExact(items[1..], a, b);
      HeadTailItems(Walk(items[0], a), WalkItems(items[1..], a), Resolve(items[0], b), ResolveItems(items[1..], b));
      ItemsHeadTail(items, a.Keys, b);
    }
  }

  lemma HeadTailItems<T>(a: T, s: seq<T>, b: T, t: seq<T>)
    ensures [a] + s == [b] + t <==> a == b && s == t
  {
    assert ([a] + s)[0] == a && ([a] + s)[1..] == s && ([b] + t)[0] == b && ([b] + t)[1..] == t;
  }

  predicate CleanFields(fields: seq<Field>) {
    forall i :: 0 <= i < |fields| ==> fields[i].key != PROTO_KEY && Clean(fields[i].value)
  }

  predicate KnownFields(fields: seq<Field>, here: set<string>, all: Strings) {
    forall i :: 0 <= i < |fields| ==> Known(fields[i].value, here, all)
  }

  lemma FieldsHeadTail(fields: seq<Field>, here: set<string>, all: Strings)
    requires fields != []
    ensures CleanFields(fields)
            <==> fields[0].key != PROTO_KEY && Clean(fields[0].value) && CleanFields(fields[1..])
    ensures KnownFields(fields, here, all) <==> Known(fields[0].value, here, all) && KnownFields(fields[1..], here, all)
  {
    assert forall i :: 1 <= i < |fields| ==> fields[i] == fields[1..][i - 1];
    assert forall i :: 0 <= i < |fields[1..]| ==> fields[1..][i] == fields[i + 1];
  }

  lemma {:induction false} WalkFieldsExact(fields: seq<Field>, a: Strings, b: Strings)
    requires PointerKeys(b) && Part(a, b)
    ensures WalkFields(fields, a) == ResolveFields(fields, b) <==> CleanFields(fields) && KnownFields(fields, a.Keys, b)
  {
    if fields != [] {
      var f := fields[0];
      FieldsHeadTail(fields, a.Keys, b);
      if f.key != PROTO_KEY {
        WalkIsExact(f.value, a, b);
        WalkFieldsExact(fields[1..], a, b);
        HeadTailItems(Field(f.key, Walk(f.value, a)), WalkFields(fields[1..], a),
                      Field(f.key, Resolve(f.value, b)), ResolveFields(fields[1..], b));
      } else {
        assert |WalkFields(fields, a)| < |ResolveFields(fields, b)|;
      }
    }
  }

  /** A value stands for itself exactly if none of its strings stands for anything else. */
  lemma {:induction false} ResolvesToItselfIff(v: Json, b: Strings)
    ensures Resolve(v, b) == v <==> Known(v, {}, b)
  {
    match v
    case Arr(items) => ItemsToThemselvesIff(items, b);
    case Obj(fields) => FieldsToThemselvesIff(fields, b);
    case _ =>
  }

  lemma {:induction false} ItemsToThemselvesIff(items: seq<Json>, b: Strings)
    ensures ResolveItems(items, b) == items <==> KnownItems(items, {}, b)
  {
    if items != [] {
      ResolvesToItselfIff(items[0], b);
      ItemsToThemselvesIff(items[1..], b);
      HeadTailItems(Resolve(items[0], b), ResolveItems(items[1..], b), items[0], items[1..]);
      assert items == [items[0]] + items[1..];
      ItemsHeadTail(items, {}, b);
    }
  }

  lemma {:induction false} FieldsToThemselvesIff(fields: seq<Field>, b: Strings)
    ensures ResolveFields(fields, b) == fields <==> KnownFields(fields, {}, b)
  {
    if fields != [] {
      var f := fields[0];
      ResolvesToItselfIff(f.value, b);
      FieldsToThemselvesIff(fields[1..], b);
      HeadTailItems(Field(f.key, Resolve(f.value, b)), ResolveFields(fields[1..], b), f, fields[1..]);
      assert fields == [f] + fields[1..];
      FieldsHeadTail(fields, {}, b);
    }
  }

  /**
    With part of the strings on file, `resolveRecord` makes of a value what all of them would if and only if the
    value is clean, or nothing is on file at all, and no string of it is missing.
    */
  lemma ResolveRecordAgrees(v: Json, here: Strings, all: Strings)
    requires PointerKeys(all) && Part(here, all)
    ensures ResolveRecord(v, here) == Resolve(v, all) <==> (here == map[] || Clean(v)) && Known(v, here.Keys, all)
  {
    if here == map[] {
      assert here.Keys == {};
      ResolvesToItselfIff(v, all);
    } else {
      WalkIsExact(v, here, all);
    }
  }

  /** `resolveRecord` does what it says exactly on clean values, or while no string is on file at all. */
  lemma ResolveRecordIsExact(v: Json, strings: Strings)
    requires PointerKeys(strings)
    ensures ResolveRecord(v, strings) == Resolve(v, strings) <==> strings == map[] || Clean(v)
  {
    ResolveRecordAgrees(v, strings, strings);
    KnownIff(v, strings.Keys, strings);
  }

  /** A tool argument that happens to read "constructor" is lost as soon as any string is interned. */
  lemma InheritedNameIsLost(pointer: string, text: string)
    requires IsPointer(pointer)
    ensures ResolveRecord(Str("constructor"), map[pointer := text]) != Resolve(Str("constructor"), map[pointer := text])
    ensures ResolveRecord(Str("constructor"), map[]) == Str("constructor")
  {
    assert pointer in map[pointer := text];
    ResolveRecordIsExact(Str("constructor"), map[pointer := text]);
  }

  // ---- filing content, rebuilding records ---------------------------------------------------------

  datatype View = View(blobs: map<nat, Json>, strings: Strings)

  /** A record as the renderers read it; `rest` is everything besides the three references. */
  datatype Shown = Shown(messages: seq<Json>, system: Json, tools: Json, rest: Json)

  function Store(view: View, line: Line): View {
    match line
    case StringLine(pointer, text) => view.(strings := view.strings[pointer := text])
    case BlobLine(id, value) => view.(blobs := view.blobs[id := ResolveRecord(value, view.strings)])
    case _ => view
  }

  /** The content behind a reference, or the reference itself when it never arrived. */
  function ContentFor(blobs: map<nat, Json>, id: nat): Json {
    if id in blobs then blobs[id] else Str(BlobRef(id))
  }

  function ContentsFor(blobs: map<nat, Json>, ids: seq<nat>): seq<Json> {
    if ids == [] then [] else [ContentFor(blobs, ids[0])] + ContentsFor(blobs, ids[1..])
  }

  function Assembled(blobs: map<nat, Json>, w: Wire, rest: Json): Shown {
    Shown(ContentsFor(blobs, w.messages),
          if w.system.Some? then ContentFor(blobs, w.system.value) else Null,
          if w.tools.Some? then ContentFor(blobs, w.tools.value) else Arr([]),
          rest)
  }

  function Hydrate(view: View, w: Wire): Shown {
    Assembled(view.blobs, w, ResolveRecord(Obj(w.rest), view.strings))
  }

  function ViewAfter(view: View, lines: seq<Line>): View
    decreases lines
  {
    if lines == [] then view else ViewAfter(Store(view, lines[0]), lines[1..])
  }

  function Records(view: View, lines: seq<Line>): seq<Shown>
    decreases lines
  {
    if lines == [] then []
    else
      (if lines[0].RecordLine? then [Hydrate(view, lines[0].record)] else [])
      + Records(Store(view, lines[0]), lines[1..])
  }

  lemma {:induction false} ReadAppend(view: View, a: seq<Line>, b: seq<Line>)
    ensures ViewAfter(view, a + b) == ViewAfter(ViewAfter(view, a), b)
    ensures Records(view, a + b) == Records(view, a) + Records(ViewAfter(view, a), b)
    decreases a
  {
    if a == [] {
      assert a + b == b;
    } else {
      assert (a + b)[1..] == a[1..] + b;
      ReadAppend(Store(view, a[0]), a[1..], b);
    }
  }

  /** What the last header line says. */
  function HeaderCount(lines: seq<Line>): Option<nat> {
    if lines == [] then None
    else
      var last := lines[|lines| - 1];
      if last.Meta? then last.count else HeaderCount(lines[..|lines| - 1])
  }

  /** The page's state for one open session. */
  class Page {
    var blobs: map<nat, Json>
    var strings: Strings
    var reqs: seq<Shown>

    constructor ()
      ensures State() == View(map[], map[]) && reqs == []
    {
      blobs, strings, reqs := map[], map[], [];
    }

    function State(): View
      reads this
    {
      View(blobs, strings)
    }

    method StoreContent(line: Line)
      requires line.StringLine? || line.BlobLine?
      modifies this`blobs, this`strings
      ensures State() == Store(old(State()), line)
    {
      if line.StringLine? {
        strings := strings[line.pointer := line.text];
      } else {
        blobs := blobs[line.id := ResolveRecord(line.value, strings)];
      }
    }

    /** `readNDJSONStream`: the header's count, and every record hydrated as it arrives. */
    method ReadStream(lines: seq<Line>) returns (count: Option<nat>, records: seq<Shown>)
      modifies this`blobs, this`strings
      ensures State() == ViewAfter(old(State()), lines) && records == Records(old(State()), lines)
      ensures count == HeaderCount(lines)
    {
      count, records := None, [];
      for i := 0 to |lines|
        invariant ViewAfter(State(), lines[i..]) == ViewAfter(old(State()), lines)
        invariant records + Records(State(), lines[i..]) == Records(old(State()), lines)
        invariant count == HeaderCount(lines[..i])
      {
        assert lines[i..][1..] == lines[i + 1..] && lines[..i + 1][..i] == lines[..i];
        var line := lines[i];
        match line
        case Meta(n) => count := n;
        case RecordLine(w) =>
          records := records + [Hydrate(State(), w)];
        case _ => StoreContent(line);
      }
      assert lines[..|lines|] == lines;
    }

    /** One poll, given the answer to `from=<reqs held>` and, should it be asked for, a full one. */
    method Tick(answer: seq<Line>, full: seq<Line>) returns (rebuilt: bool)
      modifies this
      ensures var records := Records(old(State()), answer);
              if rebuilt then
                reqs == Records(ViewAfter(old(State()), answer), full)
                && State() == ViewAfter(ViewAfter(old(State()), answer), full)
              else reqs == old(reqs) + records && State() == ViewAfter(old(State()), answer)
      ensures var count := HeaderCount(answer);
              rebuilt <==> Records(old(State()), answer) != [] && count.Some? && count.value < |old(reqs)|
    {
      rebuilt := false;
      var count, records := ReadStream(answer);
      if records == [] {
        return;
      }
      if count.Some? && count.value < |reqs| {
        var _, all := ReadStream(full);
        reqs := all;
        return true;
      }
      reqs := reqs + records;
    }
  }
}
