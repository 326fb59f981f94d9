/** What is left of a syntax tree of the Thrift grammar without blanks, and how the expressions of
    the grammar come to it. */
module ThriftShapes {
  import opened Wrappers
  import opened TokenTree
  import opened PegParser
  import opened PegRules
  import opened ThriftGrammar
  import opened PegTexts

  // ----- what is left of a syntax tree without blanks -----

  /** A rule with what it is made of, or a text that is taken.  No text can be taken at the very
      beginning of a file. */
  datatype Shape = Branch(rule: nat, parts: seq<Shape>) | Leaf(text: seq<nat>) | Stray

  /** Letters, digits, escapes, blanks and comments. */
  predicate IsBlank(rule: nat) {
    rule == ESCAPE_LITERAL_CHAR || LETTER <= rule <= UNIX_COMMENT
  }

  function Outline(buffer: seq<nat>, t: Tree): seq<Shape> {
    var k := t.token;
    if IsBlank(k.rule) then Outlines(buffer, t.kids)
    else if k.rule != PEG_TEXT then [Branch(k.rule, Outlines(buffer, t.kids))]
    else if Empty(k) then []
    else [Taken(buffer, Outlines(buffer, t.kids), k.begin, k.end)]
  }

  function Outlines(buffer: seq<nat>, ts: seq<Tree>): seq<Shape> {
    if ts == [] then [] else Outline(buffer, ts[0]) + Outlines(buffer, ts[1..])
  }

  /** A captured text: what is captured inside of it comes first. */
  function Taken(buffer: seq<nat>, inside: seq<Shape>, begin: nat, end: nat): Shape {
    var below := FirstText(inside);
    if below.None? then Stray
    else if below.value != [] then Leaf(below.value)
    else
      var text := Captured(buffer, begin, end);
      if text.None? then Stray else Leaf(text.value)
  }

  /** The first text that is not empty. */
  function FirstText(ss: seq<Shape>): Option<seq<nat>> {
    if ss == [] then Some([])
    else
      var first := match ss[0]
        case Branch(_, parts) => FirstText(parts)
        case Leaf(text) => Some(text)
        case Stray => None;
      if first.None? || first.value != [] then first else FirstText(ss[1..])
  }

  lemma {:induction false} FirstTextAppend(a: seq<Shape>, b: seq<Shape>)
    ensures FirstText(a + b) == if FirstText(a) == Some([]) then FirstText(b) else FirstText(a)
    decreases a
  {
    if a == [] {
      assert a + b == b;
    } else {
      assert (a + b)[1..] == a[1..] + b;
      FirstTextAppend(a[1..], b);
    }
  }

  /** What has no width has no text. */
  lemma {:induction false} EmptyHasNoText(buffer: seq<nat>, ts: seq<Tree>, lo: nat, hi: nat)
    requires NestedIn(ts, lo, hi) && lo == hi
    ensures FirstText(Outlines(buffer, ts)) == Some([])
    decreases ts
  {
    if ts != [] {
      var t := ts[0];
      PrunesWithin(ts[1..], t.token.end, hi);
      EmptyHasNoText(buffer, t.kids, t.token.begin, t.token.end);
      EmptyHasNoText(buffer, ts[1..], t.token.end, hi);
      OneText(buffer, t);
      FirstTextAppend(Outline(buffer, t), Outlines(buffer, ts[1..]));
    }
  }

  /** The text of one node. */
  lemma OneText(buffer: seq<nat>, t: Tree)
    ensures FirstText(Outline(buffer, t)) ==
              var below := FirstText(Outlines(buffer, t.kids));
              if t.token.rule != PEG_TEXT then below
              else if Empty(t.token) then Some([])
              else if below.None? || below.value != [] then below
              else Captured(buffer, t.token.begin, t.token.end)
  {
    var o := Outline(buffer, t);
    if !IsBlank(t.token.rule) && o != [] {
      assert o[1..] == [];
    }
  }

  /** The text that is taken from the tree that is built, without its nodes of no width, is the first
      text of the outline. */
  lemma {:induction false} TextIsFirst(buffer: seq<nat>, ts: seq<Tree>, lo: nat, hi: nat)
    requires NestedIn(ts, lo, hi)
    ensures TextOf(buffer, Prunes(ts)) == FirstText(Outlines(buffer, ts))
    decreases ts
  {
    if ts != [] {
      var t := ts[0];
      TextIsFirst(buffer, ts[1..], t.token.end, hi);
      OneText(buffer, t);
      FirstTextAppend(Outline(buffer, t), Outlines(buffer, ts[1..]));
      if Empty(t.token) {
        EmptyHasNoText(buffer, t.kids, t.token.begin, t.token.end);
        assert Prunes(ts) == Prunes(ts[1..]);
        assert FirstText(Outline(buffer, t)) == Some([]);
      } else {
        TextIsFirst(buffer, t.kids, t.token.begin, t.token.end);
        var pruned := Prunes(ts);
        assert pruned == [Prune(t)] + Prunes(ts[1..]);
        assert pruned[1..] == Prunes(ts[1..]);
      }
    }
  }

  lemma {:induction false} OutlinesAppend(buffer: seq<nat>, a: seq<Tree>, b: seq<Tree>)
    ensures Outlines(buffer, a + b) == Outlines(buffer, a) + Outlines(buffer, b)
    decreases a
  {
    if a == [] {
      assert a + b == b;
    } else {
      assert (a + b)[1..] == a[1..] + b;
      OutlinesAppend(buffer, a[1..], b);
    }
  }

  /** The expression matches from `pos` to `end` with these shapes. */
  ghost predicate Gives(buffer: seq<nat>, e: Expr, pos: nat, end: nat, shapes: seq<Shape>) {
    pos <= end <= |buffer| && exists ts :: Yields(Thrift, buffer, e, pos, Match(end, ts)) && Outlines(buffer, ts) == shapes
  }

  ghost predicate Refuses(buffer: seq<nat>, e: Expr, pos: nat) {
    Yields(Thrift, buffer, e, pos, Fail)
  }

  lemma Trees(buffer: seq<nat>, e: Expr, pos: nat, end: nat, shapes: seq<Shape>) returns (ts: seq<Tree>)
    requires Gives(buffer, e, pos, end, shapes)
    ensures Yields(Thrift, buffer, e, pos, Match(end, ts)) && Outlines(buffer, ts) == shapes
  {
    ts :| Yields(Thrift, buffer, e, pos, Match(end, ts)) && Outlines(buffer, ts) == shapes;
  }

  lemma GivesIt(buffer: seq<nat>, e: Expr, pos: nat, end: nat, ts: seq<Tree>)
    requires pos <= end <= |buffer| && Yields(Thrift, buffer, e, pos, Match(end, ts))
    ensures Gives(buffer, e, pos, end, Outlines(buffer, ts))
  {
  }

  // ----- characters -----

  lemma Between(buffer: seq<nat>, lo: char, hi: char, pos: nat)
    requires lo <= hi && pos < |buffer|
    ensures lo as nat <= buffer[pos] <= hi as nat ==> Gives(buffer, Chars(lo, hi), pos, pos + 1, [])
    ensures !(lo as nat <= buffer[pos] <= hi as nat) ==> Refuses(buffer, Chars(lo, hi), pos)
  {
    hide Yields;
    RangeMatches(Thrift, buffer, lo as nat, hi as nat, pos);
    if lo as nat <= buffer[pos] <= hi as nat {
      GivesIt(buffer, Chars(lo, hi), pos, pos + 1, []);
    }
  }

  lemma IsChar(buffer: seq<nat>, c: char, pos: nat)
    requires pos < |buffer|
    ensures buffer[pos] == c as nat ==> Gives(buffer, Char(c), pos, pos + 1, [])
    ensures buffer[pos] != c as nat ==> Refuses(buffer, Char(c), pos)
  {
    Between(buffer, c, c, pos);
  }

  lemma AnyChar(buffer: seq<nat>, pos: nat)
    requires pos < |buffer|
    ensures buffer[pos] != EndSymbol ==> Gives(buffer, Dot, pos, pos + 1, [])
    ensures buffer[pos] == EndSymbol ==> Refuses(buffer, Dot, pos)
  {
    hide Yields;
    AnyMatches(Thrift, buffer, pos);
    if buffer[pos] != EndSymbol {
      GivesIt(buffer, Dot, pos, pos + 1, []);
    }
  }

  lemma NoShapes()
    ensures var none: seq<Shape> := []; none + none == none
  {
  }

  // ----- sequences -----

  lemma CatGives(buffer: seq<nat>, a: Expr, b: Expr, pos: nat, mid: nat, end: nat, s: seq<Shape>, t: seq<Shape>)
    requires Gives(buffer, a, pos, mid, s) && Gives(buffer, b, mid, end, t)
    ensures Gives(buffer, Cat(a, b), pos, end, s + t)
  {
    hide Yields, Outlines;
    var ts := Trees(buffer, a, pos, mid, s);
    var us := Trees(buffer, b, mid, end, t);
    CatMatches(Thrift, buffer, a, b, pos, mid, ts, Match(end, us));
    OutlinesAppend(buffer, ts, us);
    GivesIt(buffer, Cat(a, b), pos, end, ts + us);
  }

  lemma CatRefuses(buffer: seq<nat>, a: Expr, b: Expr, pos: nat)
    requires Refuses(buffer, a, pos)
    ensures Refuses(buffer, Cat(a, b), pos)
  {
    CatFails(Thrift, buffer, a, b, pos);
  }

  lemma CatStops(buffer: seq<nat>, a: Expr, b: Expr, pos: nat, mid: nat, s: seq<Shape>)
    requires Gives(buffer, a, pos, mid, s) && Refuses(buffer, b, mid)
    ensures Refuses(buffer, Cat(a, b), pos)
  {
    hide Yields;
    var ts := Trees(buffer, a, pos, mid, s);
    CatMatches(Thrift, buffer, a, b, pos, mid, ts, Fail);
  }

  function Flat(ss: seq<seq<Shape>>): seq<Shape> {
    if ss == [] then [] else ss[0] + Flat(ss[1..])
  }

  /** The parts of a sequence one behind the other, from place to place. */
  lemma {:induction false} SeqGives(buffer: seq<nat>, es: seq<Expr>, at: seq<nat>, ss: seq<seq<Shape>>)
    requires es != [] && |at| == |es| + 1 && |ss| == |es|
    requires forall i {:trigger es[i]} :: 0 <= i < |es| ==> Gives(buffer, es[i], at[i], at[i + 1], ss[i])
    ensures Gives(buffer, Seq(es), at[0], at[|es|], Flat(ss))
    decreases |es|
  {
    hide Gives;
    if |es| == 1 {
      assert Flat(ss) == ss[0] + Flat([]) == ss[0];
    } else {
      SeqGives(buffer, es[1..], at[1..], ss[1..]);
      CatGives(buffer, es[0], Seq(es[1..]), at[0], at[1], at[|es|], ss[0], Flat(ss[1..]));
    }
  }

  /** The parts up to one that refuses. */
  lemma {:induction false} SeqRefuses(buffer: seq<nat>, es: seq<Expr>, at: seq<nat>, ss: seq<seq<Shape>>)
    requires |at| == |ss| + 1 && |ss| < |es|
    requires forall i {:trigger es[i]} :: 0 <= i < |ss| ==> Gives(buffer, es[i], at[i], at[i + 1], ss[i])
    requires Refuses(buffer, es[|ss|], at[|ss|])
    ensures Refuses(buffer, Seq(es), at[0])
    decreases |es|
  {
    hide Gives, Refuses;
    if |es| > 1 {
      if ss == [] {
        CatRefuses(buffer, es[0], Seq(es[1..]), at[0]);
      } else {
        SeqRefuses(buffer, es[1..], at[1..], ss[1..]);
        CatStops(buffer, es[0], Seq(es[1..]), at[0], at[1], ss[0]);
      }
    }
  }

  // ----- choices -----

  /** The first of the alternatives that is not refused. */
  lemma {:induction false} AltGives(buffer: seq<nat>, es: seq<Expr>, n: nat, pos: nat, end: nat, s: seq<Shape>)
    requires n < |es| && Gives(buffer, es[n], pos, end, s)
    requires forall i :: 0 <= i < n ==> Refuses(buffer, es[i], pos)
    ensures Gives(buffer, Alt(es), pos, end, s)
    decreases |es|
  {
    hide Yields;
    if |es| > 1 {
      if n == 0 {
        var ts := Trees(buffer, es[0], pos, end, s);
        OrFirst(Thrift, buffer, es[0], Alt(es[1..]), pos, end, ts);
      } else {
        assert Refuses(buffer, es[0], pos);
        AltGives(buffer, es[1..], n - 1, pos, end, s);
        var ts := Trees(buffer, Alt(es[1..]), pos, end, s);
        OrSecond(Thrift, buffer, es[0], Alt(es[1..]), pos, Match(end, ts));
      }
    }
  }

  lemma {:induction false} AltRefuses(buffer: seq<nat>, es: seq<Expr>, pos: nat)
    requires es != [] && forall i :: 0 <= i < |es| ==> Refuses(buffer, es[i], pos)
    ensures Refuses(buffer, Alt(es), pos)
    decreases |es|
  {
    hide Yields;
    assert Refuses(buffer, es[0], pos);
    if |es| > 1 {
      AltRefuses(buffer, es[1..], pos);
      OrSecond(Thrift, buffer, es[0], Alt(es[1..]), pos, Fail);
    }
  }

  // ----- what may be left out, looking ahead, repetitions -----

  lemma OptGives(buffer: seq<nat>, e: Expr, pos: nat, end: nat, s: seq<Shape>)
    requires Gives(buffer, e, pos, end, s)
    ensures Gives(buffer, Opt(e), pos, end, s)
  {
    hide Yields;
    var ts := Trees(buffer, e, pos, end, s);
    OptMatches(Thrift, buffer, e, pos, Match(end, ts));
  }

  lemma OptSkips(buffer: seq<nat>, e: Expr, pos: nat)
    requires Refuses(buffer, e, pos) && pos <= |buffer|
    ensures Gives(buffer, Opt(e), pos, pos, [])
  {
    hide Yields;
    OptMatches(Thrift, buffer, e, pos, Fail);
    GivesIt(buffer, Opt(e), pos, pos, []);
  }

  lemma NotGives(buffer: seq<nat>, e: Expr, pos: nat)
    requires Refuses(buffer, e, pos) && pos <= |buffer|
    ensures Gives(buffer, Not(e), pos, pos, [])
  {
    hide Yields;
    NotMatches(Thrift, buffer, e, pos, Fail);
    GivesIt(buffer, Not(e), pos, pos, []);
  }

  lemma NotRefuses(buffer: seq<nat>, e: Expr, pos: nat, end: nat, s: seq<Shape>)
    requires Gives(buffer, e, pos, end, s)
    ensures Refuses(buffer, Not(e), pos)
  {
    hide Yields;
    var ts := Trees(buffer, e, pos, end, s);
    NotMatches(Thrift, buffer, e, pos, Match(end, ts));
  }

  lemma StarStops(buffer: seq<nat>, e: Expr, pos: nat)
    requires Refuses(buffer, e, pos) && pos <= |buffer|
    ensures Gives(buffer, Star(e), pos, pos, [])
  {
    hide Yields;
    StarEnds(Thrift, buffer, e, pos);
    GivesIt(buffer, Star(e), pos, pos, []);
  }

  lemma StarGives(buffer: seq<nat>, e: Expr, pos: nat, mid: nat, end: nat, s: seq<Shape>, t: seq<Shape>)
    requires Gives(buffer, e, pos, mid, s) && Gives(buffer, Star(e), mid, end, t)
    ensures Gives(buffer, Star(e), pos, end, s + t)
  {
    hide Yields, Outlines;
    var ts := Trees(buffer, e, pos, mid, s);
    var us := Trees(buffer, Star(e), mid, end, t);
    StarGoesOn(Thrift, buffer, e, pos, mid, ts, Match(end, us));
    OutlinesAppend(buffer, ts, us);
    GivesIt(buffer, Star(e), pos, end, ts + us);
  }

  // ----- rules and captures -----

  lemma RuleGives(buffer: seq<nat>, rule: nat, pos: nat, end: nat, s: seq<Shape>)
    requires rule != PEG_TEXT && Gives(buffer, Thrift(rule), pos, end, s)
    ensures Gives(buffer, Call(rule), pos, end, if IsBlank(rule) then s else [Branch(rule, s)])
  {
    hide Yields, Thrift;
    var ts := Trees(buffer, Thrift(rule), pos, end, s);
    CallMatches(Thrift, buffer, rule, pos, Match(end, ts));
    var t := Node(Token(rule, pos, end), ts);
    assert [t][1..] == [];
    assert Outlines(buffer, [t]) == Outline(buffer, t) + [];
    GivesIt(buffer, Call(rule), pos, end, [t]);
  }

  lemma RuleRefuses(buffer: seq<nat>, rule: nat, pos: nat)
    requires Refuses(buffer, Thrift(rule), pos)
    ensures Refuses(buffer, Call(rule), pos)
  {
    hide Yields, Thrift;
    CallMatches(Thrift, buffer, rule, pos, Fail);
  }

  lemma TakeGives(buffer: seq<nat>, e: Expr, pos: nat, end: nat, s: seq<Shape>)
    requires Gives(buffer, e, pos, end, s)
    ensures Gives(buffer, ThriftGrammar.Take(e), pos, end, if pos == end then [] else [Taken(buffer, s, pos, end)])
  {
    hide Yields, Taken;
    var ts := Trees(buffer, e, pos, end, s);
    CaptureMatches(Thrift, buffer, PEG_TEXT, e, pos, Match(end, ts));
    var t := Node(Token(PEG_TEXT, pos, end), ts);
    assert [t][1..] == [];
    assert Outlines(buffer, [t]) == Outline(buffer, t) + [];
    GivesIt(buffer, ThriftGrammar.Take(e), pos, end, [t]);
  }

  lemma TakeRefuses(buffer: seq<nat>, e: Expr, pos: nat)
    requires Refuses(buffer, e, pos)
    ensures Refuses(buffer, ThriftGrammar.Take(e), pos)
  {
    hide Yields;
    CaptureMatches(Thrift, buffer, PEG_TEXT, e, pos, Fail);
  }

  // ----- texts -----

  function Codes(s: string): (r: seq<nat>)
    ensures |r| == |s| && forall i :: 0 <= i < |s| ==> r[i] == s[i] as nat
  {
    seq(|s|, i requires 0 <= i < |s| => s[i] as nat)
  }

  /** The text stands at a position. */
  predicate Has(buffer: seq<nat>, pos: nat, s: string) {
    pos + |s| <= |buffer| && forall i :: 0 <= i < |s| ==> buffer[pos + i] == s[i] as nat
  }

  lemma HasParts(buffer: seq<nat>, pos: nat, s: string, t: string)
    ensures Has(buffer, pos, s + t) <==> Has(buffer, pos, s) && Has(buffer, pos + |s|, t)
  {
    if Has(buffer, pos, s + t) {
      forall i | 0 <= i < |s|
        ensures buffer[pos + i] == s[i] as nat
      {
        assert (s + t)[i] == s[i];
      }
      forall i | 0 <= i < |t|
        ensures buffer[pos + |s| + i] == t[i] as nat
      {
        assert (s + t)[|s| + i] == t[i];
      }
    }
    if Has(buffer, pos, s) && Has(buffer, pos + |s|, t) {
      forall i | 0 <= i < |s + t|
        ensures buffer[pos + i] == (s + t)[i] as nat
      {
        if i < |s| {
          assert (s + t)[i] == s[i];
        } else {
          assert (s + t)[i] == t[i - |s|];
        }
      }
    }
  }

  /** A text without backslashes is taken as it stands. */
  lemma {:induction false} PlainText(buffer: seq<nat>, quote: nat, pos: nat, s: string)
    requires s != "" && Has(buffer, pos, s) && '\\' !in s
    ensures Unescaped(buffer, quote, pos, pos + |s|) == Codes(s)
    decreases |s|
  {
    hide Has, Codes;
    assert s[..1] + s[1..] == s;
    HasParts(buffer, pos, s[..1], s[1..]);
    FirstChar(buffer, pos, s);
    if |s| > 1 {
      var rest := s[1..];
      PlainText(buffer, quote, pos + 1, rest);
      assert Codes(s) == [s[0] as nat] + Codes(rest);
    } else {
      assert Codes(s) == [s[0] as nat];
    }
  }

  lemma FirstChar(buffer: seq<nat>, pos: nat, s: string)
    requires s != "" && Has(buffer, pos, s)
    ensures pos + |s| <= |buffer| && buffer[pos] == s[0] as nat
  {
  }

  /** What is taken where a text stands. */
  function TakenShape(pos: nat, s: string): Shape {
    if pos == 0 then Stray else Leaf(Codes(s))
  }

  lemma TakesText(buffer: seq<nat>, pos: nat, s: string)
    requires s != "" && Has(buffer, pos, s) && '\\' !in s
    ensures Taken(buffer, [], pos, pos + |s|) == TakenShape(pos, s)
  {
    if pos > 0 {
      PlainText(buffer, buffer[pos - 1], pos, s);
    }
  }

  // ----- fixed texts -----

  lemma {:induction false} TextGives(buffer: seq<nat>, s: string, pos: nat)
    requires s != "" && Has(buffer, pos, s)
    ensures Gives(buffer, Text(s), pos, pos + |s|, [])
    decreases |s|
  {
    hide Gives, Char;
    assert buffer[pos] == s[0] as nat;
    IsChar(buffer, s[0], pos);
    if |s| > 1 {
      assert s[..1] + s[1..] == s;
      HasParts(buffer, pos, s[..1], s[1..]);
      TextGives(buffer, s[1..], pos + 1);
      CatGives(buffer, Char(s[0]), Text(s[1..]), pos, pos + 1, pos + |s|, [], []);
      NoShapes();
    }
  }

  lemma {:induction false} TextRefuses(buffer: seq<nat>, s: string, pos: nat, k: nat)
    requires k < |s| && pos + k < |buffer| && Has(buffer, pos, s[..k]) && buffer[pos + k] != s[k] as nat
    ensures Refuses(buffer, Text(s), pos)
    decreases k
  {
    hide Gives, Refuses, Char;
    IsChar(buffer, s[0], pos);
    if k == 0 {
      if |s| > 1 {
        CatRefuses(buffer, Char(s[0]), Text(s[1..]), pos);
      }
    } else {
      assert s[..k] == s[..1] + s[1..][..k - 1];
      HasParts(buffer, pos, s[..1], s[1..][..k - 1]);
      assert buffer[pos] == s[..1][0] as nat;
      TextRefuses(buffer, s[1..], pos + 1, k - 1);
      CatStops(buffer, Char(s[0]), Text(s[1..]), pos, pos + 1, []);
    }
  }

  /** A text is refused by its first character. */
  lemma TextStarts(buffer: seq<nat>, s: string, pos: nat)
    requires s != "" && pos < |buffer|
    ensures buffer[pos] != s[0] as nat ==> Refuses(buffer, Text(s), pos)
  {
    if buffer[pos] != s[0] as nat {
      TextRefuses(buffer, s, pos, 0);
    }
  }
}
