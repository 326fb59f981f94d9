/** The text that is taken from a syntax tree: parser/parser.go, pegText. */
module PegTexts {
  import opened Wrappers
  import opened TokenTree
  import opened ThriftGrammar

  const Backslash: nat := '\\' as nat

  /** The characters from `i` on.  A backslash is left out before the quote that stands around the text;
      two of them stay two; the last character is taken as it is. */
  function Unescaped(buffer: seq<nat>, quote: nat, i: nat, end: nat): (r: seq<nat>)
    requires 0 < end <= |buffer|
    ensures r != []
    decreases end - i
  {
    if i + 1 >= end then [buffer[end - 1]]
    else if buffer[i] != Backslash then [buffer[i]] + Unescaped(buffer, quote, i + 1, end)
    else if buffer[i + 1] == Backslash then [Backslash, Backslash] + Unescaped(buffer, quote, i + 2, end)
    else if buffer[i + 1] == quote then Unescaped(buffer, quote, i + 1, end)
    else [Backslash] + Unescaped(buffer, quote, i + 1, end)
  }

  /** Two backslashes stay two, but at the end of a text they become three. */
  lemma BackslashesAtTheEnd(buffer: seq<nat>, quote: nat, i: nat, end: nat)
    requires i + 2 == end <= |buffer| && buffer[i] == Backslash && buffer[i + 1] == Backslash
    ensures Unescaped(buffer, quote, i, end) == [Backslash, Backslash, Backslash]
  {
    assert Unescaped(buffer, quote, i + 2, end) == [Backslash];
  }

  /** What is taken from one captured text; nothing stands before the first character of a file. */
  function Captured(buffer: seq<nat>, begin: nat, end: nat): Option<seq<nat>> {
    if begin == 0 || end > |buffer| || end < begin then None else Some(Unescaped(buffer, buffer[begin - 1], begin, end))
  }

  /** The first text that is not empty, from below before from here.  `None` is a panic. */
  function TextOf(buffer: seq<nat>, ts: seq<Tree>): Option<seq<nat>> {
    if ts == [] then Some([])
    else
      var below := TextOf(buffer, ts[0].kids);
      if below.None? || below.value != [] then below
      else if ts[0].token.rule == PEG_TEXT then Captured(buffer, ts[0].token.begin, ts[0].token.end)
      else TextOf(buffer, ts[1..])
  }

  /** The loop over the characters of a captured text. */
  method Runes(buffer: seq<nat>, begin: nat, end: nat) returns (runes: seq<nat>)
    requires 0 < begin <= end <= |buffer|
    ensures Captured(buffer, begin, end) == Some(runes)
  {
    var quote := buffer[begin - 1];
    runes := [];
    var i := begin;
    while i < end - 1
      invariant begin <= i
      invariant runes + Unescaped(buffer, quote, i, end) == Unescaped(buffer, quote, begin, end)
      decreases end - i
    {
      ghost var rest := Unescaped(buffer, quote, i, end);
      var r := buffer[i];
      var more := [r];
      var next := i + 1;
      if r == Backslash {
        if buffer[i + 1] == Backslash {
          next := i + 2;
          more := [r, r];
        } else if buffer[i + 1] == quote {
          more := [];
        }
      }
      assert more + Unescaped(buffer, quote, next, end) == rest;
      Regroup(runes, more, Unescaped(buffer, quote, next, end));
      runes := runes + more;
      i := next;
    }
    runes := runes + [buffer[end - 1]];
  }

  lemma Regroup(a: seq<nat>, b: seq<nat>, c: seq<nat>)
    ensures (a + b) + c == a + (b + c)
  {
  }

  /** The text of the linked nodes is that of the tree. */
  method PegText(buffer: seq<nat>, node: Node32?, ghost ts: seq<Tree>, ghost s: set<Node32>)
    returns (panics: bool, text: seq<nat>)
    requires Linked(node, ts, s)
    ensures panics <==> TextOf(buffer, ts).None?
    ensures !panics ==> TextOf(buffer, ts) == Some(text)
    decreases Size(ts)
  {
    panics, text := false, [];
    var n := node;
    ghost var left, nodes := ts, s;
    while n != null
      invariant Linked(n, left, nodes) && TextOf(buffer, left) == TextOf(buffer, ts) && !panics && text == []
      invariant Size(left) <= Size(ts)
      decreases Size(left)
    {
      panics, text := PegText(buffer, n.up, left[0].kids, n.below);
      if panics || text != [] {
        return;
      }
      if n.token.rule == PEG_TEXT {
        if n.token.begin == 0 || n.token.end > |buffer| || n.token.end < n.token.begin {
          panics := true;
          return;
        }
        text := Runes(buffer, n.token.begin, n.token.end);
        return;
      }
      left, nodes := left[1..], nodes - {n} - n.below;
      n := n.next;
    }
  }
}
