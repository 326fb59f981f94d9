/** How the expressions of a grammar match, without a bound on the nesting: one rule for every
    way in which an expression can match or fail. */
module PegRules {
  import opened TokenTree
  import opened PegParser

  /** The expression comes to `o` at a position, whatever larger bound there is. */
  ghost predicate Yields(g: Grammar, buffer: seq<nat>, e: Expr, pos: nat, o: Outcome) {
    !o.Deep? && exists fuel: nat :: Parse(g, buffer, e, pos, fuel) == o
  }

  lemma Bound(g: Grammar, buffer: seq<nat>, e: Expr, pos: nat, o: Outcome) returns (n: nat)
    requires Yields(g, buffer, e, pos, o)
    ensures forall fuel: nat :: fuel >= n ==> Parse(g, buffer, e, pos, fuel) == o
  {
    n :| Parse(g, buffer, e, pos, n) == o;
    forall fuel: nat | fuel >= n
      ensures Parse(g, buffer, e, pos, fuel) == o
    {
      FuelIsEnough(g, buffer, e, pos, n, fuel);
    }
  }

  /** It comes to one thing only. */
  lemma YieldsOne(g: Grammar, buffer: seq<nat>, e: Expr, pos: nat, o: Outcome, o': Outcome)
    requires Yields(g, buffer, e, pos, o) && Yields(g, buffer, e, pos, o')
    ensures o == o'
  {
    var n := Bound(g, buffer, e, pos, o);
    var m := Bound(g, buffer, e, pos, o');
    assert Parse(g, buffer, e, pos, n + m) == o;
  }

  // ----- characters -----

  lemma AnyMatches(g: Grammar, buffer: seq<nat>, pos: nat)
    ensures At(buffer, pos) != EndSymbol ==> Yields(g, buffer, Dot, pos, Match(pos + 1, []))
    ensures At(buffer, pos) == EndSymbol ==> Yields(g, buffer, Dot, pos, Fail)
  {
    assert Parse(g, buffer, Dot, pos, 0) == if At(buffer, pos) != EndSymbol then Match(pos + 1, []) else Fail;
  }

  lemma RangeMatches(g: Grammar, buffer: seq<nat>, lo: nat, hi: nat, pos: nat)
    requires hi < EndSymbol
    ensures lo <= At(buffer, pos) <= hi ==> Yields(g, buffer, Range(lo, hi), pos, Match(pos + 1, []))
    ensures !(lo <= At(buffer, pos) <= hi) ==> Yields(g, buffer, Range(lo, hi), pos, Fail)
  {
    assert Parse(g, buffer, Range(lo, hi), pos, 0) == if lo <= At(buffer, pos) <= hi then Match(pos + 1, []) else Fail;
  }

  // ----- sequences and choices -----

  /** What follows is matched where the first part ends. */
  lemma CatMatches(g: Grammar, buffer: seq<nat>, a: Expr, b: Expr, pos: nat, end: nat, ts: seq<Tree>, o: Outcome)
    requires Yields(g, buffer, a, pos, Match(end, ts)) && Yields(g, buffer, b, end, o)
    ensures Yields(g, buffer, Cat(a, b), pos, Then(ts, o))
  {
    var n := Bound(g, buffer, a, pos, Match(end, ts));
    var m := Bound(g, buffer, b, end, o);
    assert Parse(g, buffer, Cat(a, b), pos, n + m) == Then(ts, o);
  }

  lemma CatFails(g: Grammar, buffer: seq<nat>, a: Expr, b: Expr, pos: nat)
    requires Yields(g, buffer, a, pos, Fail)
    ensures Yields(g, buffer, Cat(a, b), pos, Fail)
  {
    var n := Bound(g, buffer, a, pos, Fail);
    assert Parse(g, buffer, Cat(a, b), pos, n) == Fail;
  }

  /** The first alternative that matches is taken, whatever the others would do. */
  lemma OrFirst(g: Grammar, buffer: seq<nat>, a: Expr, b: Expr, pos: nat, end: nat, ts: seq<Tree>)
    requires Yields(g, buffer, a, pos, Match(end, ts))
    ensures Yields(g, buffer, Or(a, b), pos, Match(end, ts))
  {
    var n := Bound(g, buffer, a, pos, Match(end, ts));
    assert Parse(g, buffer, Or(a, b), pos, n) == Match(end, ts);
  }

  lemma OrSecond(g: Grammar, buffer: seq<nat>, a: Expr, b: Expr, pos: nat, o: Outcome)
    requires Yields(g, buffer, a, pos, Fail) && Yields(g, buffer, b, pos, o)
    ensures Yields(g, buffer, Or(a, b), pos, o)
  {
    var n := Bound(g, buffer, a, pos, Fail);
    var m := Bound(g, buffer, b, pos, o);
    assert Parse(g, buffer, Or(a, b), pos, n + m) == o;
  }

  lemma OptMatches(g: Grammar, buffer: seq<nat>, a: Expr, pos: nat, o: Outcome)
    requires Yields(g, buffer, a, pos, o)
    ensures Yields(g, buffer, Opt(a), pos, if o.Match? then o else Match(pos, []))
  {
    var n := Bound(g, buffer, a, pos, o);
    assert Parse(g, buffer, Opt(a), pos, n) == if o.Match? then o else Match(pos, []);
  }

  /** Looking ahead matches nothing. */
  lemma NotMatches(g: Grammar, buffer: seq<nat>, a: Expr, pos: nat, o: Outcome)
    requires Yields(g, buffer, a, pos, o)
    ensures Yields(g, buffer, Not(a), pos, if o.Match? then Fail else Match(pos, []))
  {
    var n := Bound(g, buffer, a, pos, o);
    assert Parse(g, buffer, Not(a), pos, n) == if o.Match? then Fail else Match(pos, []);
  }

  // ----- repetitions -----

  lemma StarEnds(g: Grammar, buffer: seq<nat>, a: Expr, pos: nat)
    requires Yields(g, buffer, a, pos, Fail)
    ensures Yields(g, buffer, Star(a), pos, Match(pos, []))
  {
    var n := Bound(g, buffer, a, pos, Fail);
    assert Parse(g, buffer, Star(a), pos, n + 1) == Match(pos, []);
  }

  /** A repetition takes what it can. */
  lemma StarGoesOn(g: Grammar, buffer: seq<nat>, a: Expr, pos: nat, end: nat, ts: seq<Tree>, o: Outcome)
    requires Yields(g, buffer, a, pos, Match(end, ts)) && Yields(g, buffer, Star(a), end, o)
    ensures Yields(g, buffer, Star(a), pos, Then(ts, o))
  {
    var n := Bound(g, buffer, a, pos, Match(end, ts));
    var m := Bound(g, buffer, Star(a), end, o);
    StarNext(g, buffer, a, pos, n + m + 1);
    assert Parse(g, buffer, Star(a), pos, n + m + 1) == Then(ts, o);
  }

  // ----- rules and captures -----

  /** A rule adds a node over the text that its body matches. */
  function Under(token: nat, pos: nat, o: Outcome): Outcome {
    if o.Match? then Match(o.end, [Node(Token(token, pos, o.end), o.trees)]) else o
  }

  lemma CallMatches(g: Grammar, buffer: seq<nat>, rule: nat, pos: nat, o: Outcome)
    requires Yields(g, buffer, g(rule), pos, o)
    ensures Yields(g, buffer, Call(rule), pos, Under(rule, pos, o))
  {
    var n := Bound(g, buffer, g(rule), pos, o);
    assert Parse(g, buffer, Call(rule), pos, n + 1) == Under(rule, pos, o);
  }

  lemma CaptureMatches(g: Grammar, buffer: seq<nat>, token: nat, a: Expr, pos: nat, o: Outcome)
    requires Yields(g, buffer, a, pos, o)
    ensures Yields(g, buffer, Capture(token, a), pos, Under(token, pos, o))
  {
    var n := Bound(g, buffer, a, pos, o);
    assert Parse(g, buffer, Capture(token, a), pos, n) == Under(token, pos, o);
  }
}
