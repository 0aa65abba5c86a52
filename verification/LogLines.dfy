/**
  Append-only log files read line by line (agent_wrap/domain/logs/ingest.py): what the complete lines of
  a file yield, and why reading it in pieces yields the same.
  */
module LogLines {
  import opened Totals

  /** File contents; '\n' ends a line. */
  type Bytes = string

  /** Length of the first complete line, newline included; 0 when there is none (at the end, or torn). */
  function LineLength(bytes: Bytes): (n: nat)
    ensures n <= |bytes| && (n > 0 ==> bytes[n - 1] == '\n')
    ensures n == 0 <==> '\n' !in bytes
    ensures forall i :: 0 <= i < n - 1 ==> bytes[i] != '\n'
  {
    if bytes == "" then 0
    else if bytes[0] == '\n' then 1
    else
      var rest := LineLength(bytes[1..]);
      if rest == 0 then 0 else rest + 1
  }

  /** What the complete lines yield, in order; lines that parse to nothing are skipped. */
  function Parsed<T>(parse: Bytes -> Option<T>, bytes: Bytes): seq<T>
    decreases |bytes|
  {
    var n := LineLength(bytes);
    if n == 0 then []
    else OfLine(parse, bytes[..n]) + Parsed(parse, bytes[n..])
  }

  function OfLine<T>(parse: Bytes -> Option<T>, line: Bytes): seq<T> {
    var r := parse(line);
    if r.Some? then [r.value] else []
  }

  /** Nothing torn at the end. */
  predicate Boundary(bytes: Bytes) {
    bytes == "" || bytes[|bytes| - 1] == '\n'
  }

  lemma LineLengthAppend(a: Bytes, b: Bytes)
    requires LineLength(a) > 0
    ensures LineLength(a + b) == LineLength(a)
  {
    var n, m := LineLength(a), LineLength(a + b);
    assert (a + b)[n - 1] == '\n';
    assert forall i :: 0 <= i < n - 1 ==> (a + b)[i] == a[i];
  }

  lemma Slices(a: Bytes, b: Bytes, n: nat)
    requires n <= |a|
    ensures (a + b)[..n] == a[..n] && (a + b)[n..] == a[n..] + b
    ensures Boundary(a) ==> Boundary(a[n..])
  {
  }

  /** Behind a line boundary, what was parsed before and what is parsed later just add up. */
  lemma {:induction false} ParsedAppend<T>(parse: Bytes -> Option<T>, a: Bytes, b: Bytes)
    requires Boundary(a)
    ensures Parsed(parse, a + b) == Parsed(parse, a) + Parsed(parse, b)
    decreases |a|
  {
    if a == "" {
      assert a + b == b;
    } else {
      var n := LineLength(a);
      assert a[|a| - 1] in a;
      LineLengthAppend(a, b);
      Slices(a, b, n);
      ParsedAppend(parse, a[n..], b);
      Append3(OfLine(parse, a[..n]), Parsed(parse, a[n..]), Parsed(parse, b));
    }
  }

  lemma ParsedOne<T>(parse: Bytes -> Option<T>, line: Bytes)
    requires LineLength(line) == |line| > 0
    ensures Parsed(parse, line) == OfLine(parse, line)
  {
    assert line[..|line|] == line && line[|line|..] == "";
    assert Parsed(parse, "") == [];
  }

  lemma FirstLine(bytes: Bytes)
    requires LineLength(bytes) > 0
    ensures var n := LineLength(bytes); LineLength(bytes[..n]) == n
  {
    var n := LineLength(bytes);
    assert bytes[..n][n - 1] == '\n';
    assert forall i :: 0 <= i < n - 1 ==> bytes[..n][i] == bytes[i];
  }

  lemma Shifted(file: Bytes, offset: nat, n: nat)
    requires offset + n <= |file|
    ensures file[offset..][..n] == file[offset..offset + n]
    ensures file[..offset + n] == file[..offset] + file[offset..offset + n]
  {
  }

  function UpTo(file: Bytes, offset: nat): Bytes
    requires offset <= |file|
  {
    file[..offset]
  }

  predicate MoreLines(file: Bytes, offset: nat)
    requires offset <= |file|
  {
    LineLength(file[offset..]) > 0
  }

  function LineFrom(file: Bytes, offset: nat): (line: Bytes)
    requires offset <= |file|
    ensures offset + |line| <= |file| && (MoreLines(file, offset) <==> line != "")
  {
    file[offset..offset + LineLength(file[offset..])]
  }

  /** The next line of a file. */
  lemma NextLine(file: Bytes, offset: nat)
    requires offset <= |file| && MoreLines(file, offset)
    ensures var line := LineFrom(file, offset);
            LineLength(line) == |line| > 0 && UpTo(file, offset + |line|) == UpTo(file, offset) + line
  {
    var rest := file[offset..];
    var n := LineLength(rest);
    FirstLine(rest);
    Shifted(file, offset, n);
    assert LineFrom(file, offset) == rest[..n];
  }

  /** What was read stays what it was when the file grows. */
  lemma UpToGrown(file: Bytes, more: Bytes, offset: nat)
    requires offset <= |file|
    ensures offset <= |file + more| && UpTo(file + more, offset) == UpTo(file, offset)
  {
  }

  /** Taking a line extends what is parsed by just that line. */
  lemma AppendLine<T>(parse: Bytes -> Option<T>, a: Bytes, line: Bytes)
    requires Boundary(a) && LineLength(line) == |line| > 0
    ensures Boundary(a + line) && Parsed(parse, a + line) == Parsed(parse, a) + OfLine(parse, line)
  {
    ParsedAppend(parse, a, line);
    ParsedOne(parse, line);
  }

  /** Where no complete line is left, everything has been parsed. */
  lemma AllRead<T>(parse: Bytes -> Option<T>, file: Bytes, offset: nat)
    requires offset <= |file| && Boundary(UpTo(file, offset)) && !MoreLines(file, offset)
    ensures Parsed(parse, file) == Parsed(parse, UpTo(file, offset))
  {
    assert file == file[..offset] + file[offset..];
    ParsedAppend(parse, file[..offset], file[offset..]);
  }
}
