/**
  JSON values as the log index stores them, their text, and the `hash:` pointers a scan of the text
  finds (agent_wrap/constants.py, HASH_POINTER_RE).
  */
module Json {

  /** A number is kept as its literal. Builtin is no JSON: it is what a name every JavaScript object inherits yields. */
  datatype Json =
    | Null
    | Bool(b: bool)
    | Num(literal: string)
    | Str(s: string)
    | Arr(items: seq<Json>)
    | Obj(fields: seq<Field>)
    | Builtin(name: string)

  datatype Field = Field(key: string, value: Json)

  // ---- pointers -----------------------------------------------------------------------------------

  const HASH_POINTER_PREFIX := "hash:"
  const POINTER_LENGTH := 69

  predicate IsHex(c: char) {
    '0' <= c <= '9' || 'a' <= c <= 'f'
  }

  predicate IsPointer(s: string) {
    && |s| == POINTER_LENGTH && s[..5] == HASH_POINTER_PREFIX
    && forall i :: 5 <= i < POINTER_LENGTH ==> IsHex(s[i])
  }

  predicate StandsAt(p: string, text: string, i: nat) {
    i + |p| <= |text| && text[i..i + |p|] == p
  }

  predicate Occurs(p: string, text: string) {
    exists i: nat :: i <= |text| && StandsAt(p, text, i)
  }

  /** Python's `findall`: left to right, going on behind each match. */
  function FindAll(text: string, from: nat): set<string>
    decreases |text| - from
  {
    if from + POINTER_LENGTH > |text| then {}
    else
      var here := text[from..from + POINTER_LENGTH];
      if IsPointer(here) then {here} + FindAll(text, from + POINTER_LENGTH) else FindAll(text, from + 1)
  }

  /** No pointer starts inside another: 'h' is no hex digit, and "hash:" does not overlap itself. */
  lemma PointersApart(text: string, i: nat, j: nat)
    requires i < j < i + POINTER_LENGTH && j + POINTER_LENGTH <= |text|
    requires IsPointer(text[i..i + POINTER_LENGTH])
    ensures !IsPointer(text[j..j + POINTER_LENGTH])
  {
    var p, q := text[i..i + POINTER_LENGTH], text[j..j + POINTER_LENGTH];
    assert q[0] == p[j - i] && (j - i == 3 ==> q[1] == p[4]);
    PointerChars(p);
    if IsPointer(q) {
      PointerChars(q);
      assert false;
    }
  }

  lemma PointerChars(p: string)
    requires IsPointer(p)
    ensures p[0] == 'h' && p[1] == 'a' && p[2] == 's' && p[3] == 'h' && p[4] == ':'
    ensures forall i :: 5 <= i < POINTER_LENGTH ==> p[i] != 'h'
  {
    var start := p[..5];
    assert start[0] == 'h' && start[1] == 'a' && start[2] == 's' && start[3] == 'h' && start[4] == ':';
  }

  /** So the scan finds every pointer that stands anywhere from `from` on, and nothing else. */
  lemma {:induction false} FindAllFinds(text: string, from: nat, p: string)
    ensures p in FindAll(text, from) <==> IsPointer(p) && exists i: nat :: from <= i <= |text| && StandsAt(p, text, i)
    decreases |text| - from
  {
    if from + POINTER_LENGTH <= |text| {
      var here := text[from..from + POINTER_LENGTH];
      if IsPointer(here) {
        FindAllFinds(text, from + POINTER_LENGTH, p);
        assert StandsAt(here, text, from);
        forall i: nat | from < i <= |text| && StandsAt(p, text, i) && IsPointer(p)
          ensures from + POINTER_LENGTH <= i
        {
          if i < from + POINTER_LENGTH { PointersApart(text, from, i); }
        }
      } else {
        FindAllFinds(text, from + 1, p);
      }
    }
  }

  // ---- text ---------------------------------------------------------------------------------------

  predicate PlainChar(c: char) {
    ' ' <= c <= '~' && c != '"' && c != '\\'
  }

  function HexDigit(n: nat): char
    requires n < 16
  {
    "0123456789abcdef"[n]
  }

  function Hex4(n: nat): string
    requires n < 0x10000
  {
    [HexDigit(n / 0x1000), HexDigit(n / 0x100 % 16), HexDigit(n / 16 % 16), HexDigit(n % 16)]
  }

  function Escape(c: char): string {
    var n := c as int;
    if PlainChar(c) then [c]
    else if c == '"' || c == '\\' then ['\\', c]
    else if n == 8 then "\\b"
    else if n == 9 then "\\t"
    else if n == 10 then "\\n"
    else if n == 12 then "\\f"
    else if n == 13 then "\\r"
    else if n < 0x10000 then "\\u" + Hex4(n)
    else "\\u" + Hex4(0xD800 + (n - 0x10000) / 0x400) + "\\u" + Hex4(0xDC00 + (n - 0x10000) % 0x400)
  }

  function Escaped(s: string): string {
    if s == "" then "" else Escape(s[0]) + Escaped(s[1..])
  }

  function Quoted(s: string): string {
    "\"" + Escaped(s) + "\""
  }

  /** `json.dumps`. */
  function Encode(v: Json): string {
    match v
    case Null => "null"
    case Bool(b) => if b then "true" else "false"
    case Num(literal) => literal
    case Str(s) => Quoted(s)
    case Arr(items) => "[" + EncodeItems(items) + "]"
    case Obj(fields) => "{" + EncodeFields(fields) + "}"
    case Builtin(_) => ""
  }

  function EncodeItems(items: seq<Json>): string {
    if items == [] then ""
    else Encode(items[0]) + (if |items| > 1 then ", " else "") + EncodeItems(items[1..])
  }

  function EncodeFields(fields: seq<Field>): string {
    if fields == [] then ""
    else
      Quoted(fields[0].key) + ": " + Encode(fields[0].value) + (if |fields| > 1 then ", " else "")
      + EncodeFields(fields[1..])
  }

  /** `s` is one of the strings in `v` (keys aside). */
  ghost predicate HasLeaf(v: Json, s: string) {
    match v
    case Str(t) => t == s
    case Arr(items) => exists i :: 0 <= i < |items| && HasLeaf(items[i], s)
    case Obj(fields) => exists i :: 0 <= i < |fields| && HasLeaf(fields[i].value, s)
    case _ => false
  }

  lemma OccursEither(p: string, a: string, b: string)
    requires Occurs(p, a) || Occurs(p, b)
    ensures Occurs(p, a + b)
  {
    if Occurs(p, a) {
      var i: nat :| i <= |a| && StandsAt(p, a, i);
      assert (a + b)[i..i + |p|] == a[i..i + |p|];
      assert StandsAt(p, a + b, i);
    } else {
      var i: nat :| i <= |b| && StandsAt(p, b, i);
      assert (a + b)[|a| + i..|a| + i + |p|] == b[i..i + |p|];
      assert StandsAt(p, a + b, |a| + i);
    }
  }

  lemma {:induction false} PlainEscaped(s: string)
    requires forall i :: 0 <= i < |s| ==> PlainChar(s[i])
    ensures Escaped(s) == s
  {
    if s != "" { PlainEscaped(s[1..]); }
  }

  lemma PointerIsPlain(p: string)
    requires IsPointer(p)
    ensures Escaped(p) == p && Occurs(p, Quoted(p))
  {
    forall i | 0 <= i < |p|
      ensures PlainChar(p[i])
    {
      if i < 5 { assert p[i] == p[..5][i] == HASH_POINTER_PREFIX[i]; }
    }
    PlainEscaped(p);
    assert StandsAt(p, Quoted(p), 1);
  }

  /** A pointer that is a whole string of the value stands verbatim in the value's text. */
  lemma {:induction false} LeafInText(v: Json, p: string)
    requires IsPointer(p) && HasLeaf(v, p)
    ensures Occurs(p, Encode(v))
  {
    match v
    case Str(_) => PointerIsPlain(p);
    case Arr(items) =>
      LeafInItems(items, p);
      OccursEither(p, "[", EncodeItems(items));
      OccursEither(p, "[" + EncodeItems(items), "]");
    case Obj(fields) =>
      LeafInFields(fields, p);
      OccursEither(p, "{", EncodeFields(fields));
      OccursEither(p, "{" + EncodeFields(fields), "}");
    case _ =>
  }

  lemma {:induction false} LeafInItems(items: seq<Json>, p: string)
    requires IsPointer(p) && exists i :: 0 <= i < |items| && HasLeaf(items[i], p)
    ensures Occurs(p, EncodeItems(items))
  {
    var first, comma := Encode(items[0]), if |items| > 1 then ", " else "";
    if HasLeaf(items[0], p) {
      LeafInText(items[0], p);
      OccursEither(p, first, comma);
    } else {
      LeafInItems(items[1..], p);
    }
    OccursEither(p, first + comma, EncodeItems(items[1..]));
  }

  lemma {:induction false} LeafInFields(fields: seq<Field>, p: string)
    requires IsPointer(p) && exists i :: 0 <= i < |fields| && HasLeaf(fields[i].value, p)
    ensures Occurs(p, EncodeFields(fields))
  {
    var f := fields[0];
    var key, value, comma := Quoted(f.key) + ": ", Encode(f.value), if |fields| > 1 then ", " else "";
    if HasLeaf(f.value, p) {
      LeafInText(f.value, p);
      OccursEither(p, key, value);
      OccursEither(p, key + value, comma);
    } else {
      LeafInFields(fields[1..], p);
    }
    OccursEither(p, key + value + comma, EncodeFields(fields[1..]));
  }

  lemma PointersOfText(v: Json, p: string)
    requires IsPointer(p) && HasLeaf(v, p)
    ensures p in FindAll(Encode(v), 0)
  {
    LeafInText(v, p);
    FindAllFinds(Encode(v), 0, p);
  }

  // ---- resolving ----------------------------------------------------------------------------------

  /** Interned strings by pointer. */
  type Strings = map<string, string>

  /** What a value stands for: every whole string that is a known pointer replaced, once, not recursively. */
  function Resolve(v: Json, strings: Strings): Json {
    match v
    case Str(s) => if s in strings then Str(strings[s]) else v
    case Arr(items) => Arr(ResolveItems(items, strings))
    case Obj(fields) => Obj(ResolveFields(fields, strings))
    case _ => v
  }

  function ResolveItems(items: seq<Json>, strings: Strings): (r: seq<Json>)
    ensures |r| == |items|
  {
    if items == [] then [] else [Resolve(items[0], strings)] + ResolveItems(items[1..], strings)
  }

  function ResolveFields(fields: seq<Field>, strings: Strings): (r: seq<Field>)
    ensures |r| == |fields|
  {
    if fields == [] then []
    else [Field(fields[0].key, Resolve(fields[0].value, strings))] + ResolveFields(fields[1..], strings)
  }
}
