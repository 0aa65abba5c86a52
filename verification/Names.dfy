/** Slash-joined node names of the path trie (agent_wrap/lib/path_tree.py). */
module Names {

  const SELF_ROW_NAME := "."

  /** Position of the first '/', or the length when there is none: what `partition` cuts at. */
  function FirstSlash(name: string): (i: nat)
    ensures i <= |name| && '/' !in name[..i]
    ensures i < |name| ==> name[i] == '/'
  {
    if name == "" then 0
    else if name[0] == '/' then 0
    else
      var rest := FirstSlash(name[1..]);
      assert name[..rest + 1] == [name[0]] + name[1..][..rest];
      rest + 1
  }

  function Head(name: string): string {
    name[..FirstSlash(name)]
  }

  function Tail(name: string): string
    requires '/' in name
  {
    FirstSlashExists(name);
    name[FirstSlash(name) + 1..]
  }

  lemma FirstSlashExists(name: string)
    ensures '/' in name <==> FirstSlash(name) < |name|
  {
    if FirstSlash(name) == |name| {
      assert name[..|name|] == name;
    }
  }

  /** The path segments a name stands for. */
  function Split(name: string): (segments: seq<string>)
    ensures |segments| >= 1
    decreases |name|
  {
    if '/' !in name then [name]
    else
      FirstSlashExists(name);
      [Head(name)] + Split(Tail(name))
  }

  function Slashes(name: string): (n: nat)
    ensures n > 0 <==> '/' in name
  {
    |Split(name)| - 1
  }

  /** A segment as Path.parts yields one: non-empty, no separator, and never ".". */
  predicate IsSegment(s: string) {
    s != "" && '/' !in s && s != SELF_ROW_NAME
  }

  predicate AllSegments(path: seq<string>) {
    forall i :: 0 <= i < |path| ==> IsSegment(path[i])
  }

  lemma FirstSlashOfJoin(a: string, b: string)
    requires '/' !in a
    ensures FirstSlash(a + "/" + b) == |a|
  {
    var name := a + "/" + b;
    assert name[|a|] == '/' && name[..|a|] == a;
  }

  lemma SplitAfterHead(h: string, rest: string)
    requires '/' !in h
    ensures Split(h + "/" + rest) == [h] + Split(rest)
  {
    var name := h + "/" + rest;
    assert name[|h|] == '/';
    FirstSlashOfJoin(h, rest);
    assert Head(name) == h && Tail(name) == rest;
  }

  /** Folding two names joins their segment lists. */
  lemma {:induction false} SplitJoin(a: string, b: string)
    ensures Split(a + "/" + b) == Split(a) + Split(b)
    decreases |a|
  {
    if '/' !in a {
      SplitAfterHead(a, b);
    } else {
      HeadTail(a);
      SplitJoin(Tail(a), b);
      SplitJoinStep(Head(a), Tail(a), b);
    }
  }

  lemma SplitJoinStep(h: string, t: string, b: string)
    requires '/' !in h && Split(t + "/" + b) == Split(t) + Split(b)
    ensures Split((h + "/" + t) + "/" + b) == Split(h + "/" + t) + Split(b)
  {
    var tb := t + "/" + b;
    SplitAfterHead(h, tb);
    SplitAfterHead(h, t);
    ConsAppend(h, Split(t), Split(b));
    JoinAssoc(h, t, b);
  }

  lemma ConsAppend<T>(h: T, x: seq<T>, y: seq<T>)
    ensures [h] + (x + y) == ([h] + x) + y
  {
  }

  lemma JoinAssoc(a: string, b: string, c: string)
    ensures (a + "/" + b) + "/" + c == a + "/" + (b + "/" + c)
  {
  }

  /** Taking the leading segment off and putting it back is exact. */
  lemma HeadTail(name: string)
    requires '/' in name
    ensures Head(name) + "/" + Tail(name) == name
    ensures '/' !in Head(name)
    ensures Split(name) == [Head(name)] + Split(Tail(name))
    ensures |Tail(name)| < |name|
  {
    FirstSlashExists(name);
  }

  lemma HeadOfJoin(a: string, b: string)
    ensures Head(a + "/" + b) == Head(a)
  {
    SplitJoin(a, b);
    SplitHead(a);
    SplitHead(a + "/" + b);
  }

  lemma SplitHead(name: string)
    ensures Split(name)[0] == Head(name)
  {
    FirstSlashExists(name);
    if '/' !in name {
      assert name[..|name|] == name;
    }
  }
}
