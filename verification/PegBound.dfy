/** How much nesting a text can need: for a grammar without left recursion, in which the body
    of every repetition matches something, the bound of PegParser.dfy can be given in advance. */
module PegBound {
  import opened TokenTree
  import opened PegParser

  /** What is known of a grammar: which rules may match nothing, a rank that drops along calls
      before anything is matched, and bounds on ranks and on nested repetitions. */
  datatype Facts = Facts(empty: nat -> bool, rank: nat -> nat, ranks: nat, stars: nat)

  predicate CanBeEmpty(f: Facts, e: Expr) {
    match e
    case Dot => false
    case Range(_, _) => false
    case Cat(a, b) => CanBeEmpty(f, a) && CanBeEmpty(f, b)
    case Or(a, b) => CanBeEmpty(f, a) || CanBeEmpty(f, b)
    case Call(r) => f.empty(r)
    case Capture(_, a) => CanBeEmpty(f, a)
    case _ => true
  }

  /** The rules called before anything is matched have a rank below `k`. */
  predicate StartsBelow(f: Facts, e: Expr, k: nat) {
    match e
    case Dot => true
    case Range(_, _) => true
    case Cat(a, b) => StartsBelow(f, a, k) && (CanBeEmpty(f, a) ==> StartsBelow(f, b, k))
    case Or(a, b) => StartsBelow(f, a, k) && StartsBelow(f, b, k)
    case Star(a) => StartsBelow(f, a, k)
    case Opt(a) => StartsBelow(f, a, k)
    case Not(a) => StartsBelow(f, a, k)
    case Call(r) => f.rank(r) < k
    case Capture(_, a) => StartsBelow(f, a, k)
  }

  /** The body of every repetition matches something. */
  predicate StarsConsume(f: Facts, e: Expr) {
    match e
    case Dot => true
    case Range(_, _) => true
    case Cat(a, b) => StarsConsume(f, a) && StarsConsume(f, b)
    case Or(a, b) => StarsConsume(f, a) && StarsConsume(f, b)
    case Star(a) => !CanBeEmpty(f, a) && StarsConsume(f, a)
    case Opt(a) => StarsConsume(f, a)
    case Not(a) => StarsConsume(f, a)
    case Call(_) => true
    case Capture(_, a) => StarsConsume(f, a)
  }

  function Stars(e: Expr): nat {
    match e
    case Cat(a, b) => if Stars(a) > Stars(b) then Stars(a) else Stars(b)
    case Or(a, b) => if Stars(a) > Stars(b) then Stars(a) else Stars(b)
    case Star(a) => 1 + Stars(a)
    case Opt(a) => Stars(a)
    case Not(a) => Stars(a)
    case Capture(_, a) => Stars(a)
    case _ => 0
  }

  /** The facts are right for the grammar. */
  ghost predicate Describes(f: Facts, g: Grammar) {
    forall r: nat :: DescribesRule(f, g, r)
  }

  predicate DescribesRule(f: Facts, g: Grammar, r: nat) {
    && f.rank(r) < f.ranks && StartsBelow(f, g(r), f.rank(r)) && (CanBeEmpty(f, g(r)) ==> f.empty(r))
    && StarsConsume(f, g(r)) && Stars(g(r)) <= f.stars
  }

  /** Nesting for one character. */
  function PerChar(f: Facts): nat {
    f.ranks * (f.stars + 1) + f.stars + 1
  }

  /** Nesting for an expression whose first calls have a rank below `k`. */
  function Enough(f: Facts, left: nat, k: nat, stars: nat): nat {
    left * PerChar(f) + k * (f.stars + 1) + stars
  }

  /** What cannot be empty matches something. */
  lemma {:induction false} Consumes(f: Facts, g: Grammar, buffer: seq<nat>, e: Expr, pos: nat, fuel: nat)
    requires Describes(f, g) && Parse(g, buffer, e, pos, fuel).Match?
    ensures pos <= Parse(g, buffer, e, pos, fuel).end
    ensures !CanBeEmpty(f, e) ==> pos < Parse(g, buffer, e, pos, fuel).end
    decreases fuel, e
  {
    match e
    case Dot =>
    case Range(_, _) =>
    case Cat(a, b) =>
      Consumes(f, g, buffer, a, pos, fuel);
      Consumes(f, g, buffer, b, Parse(g, buffer, a, pos, fuel).end, fuel);
    case Or(a, b) =>
      if Parse(g, buffer, a, pos, fuel).Fail? {
        Consumes(f, g, buffer, b, pos, fuel);
      } else {
        Consumes(f, g, buffer, a, pos, fuel);
      }
    case Opt(a) =>
      if Parse(g, buffer, a, pos, fuel).Match? { Consumes(f, g, buffer, a, pos, fuel); }
    case Not(a) =>
    case Star(a) =>
      var o := Parse(g, buffer, a, pos, fuel - 1);
      if o.Match? {
        Consumes(f, g, buffer, a, pos, fuel - 1);
        Consumes(f, g, buffer, e, o.end, fuel - 1);
      }
    case Call(r) =>
      assert DescribesRule(f, g, r);
      Consumes(f, g, buffer, g(r), pos, fuel - 1);
    case Capture(_, a) => Consumes(f, g, buffer, a, pos, fuel);
  }

  lemma MoreTimes(a: nat, b: nat, c: nat)
    requires a < b
    ensures b * c >= a * c + c
  {
    assert b * c == a * c + c + (b - a - 1) * c;
    assert (b - a - 1) * c >= 0;
  }

  /** After a character there is room for any rule and any repetition. */
  lemma NextChar(f: Facts, left: nat, left': nat, k: nat, stars: nat)
    requires left' < left && stars <= f.stars
    ensures Enough(f, left, k, 0) >= Enough(f, left', f.ranks, stars) + 1
  {
    MoreTimes(left', left, PerChar(f));
  }

  lemma NextRank(f: Facts, left: nat, k: nat, k': nat, stars: nat)
    requires k' < k && stars <= f.stars
    ensures Enough(f, left, k, 0) >= Enough(f, left, k', stars) + 1
  {
    MoreTimes(k', k, f.stars + 1);
  }

  lemma {:induction false} AllStartsBelow(f: Facts, g: Grammar, e: Expr)
    requires Describes(f, g)
    ensures StartsBelow(f, e, f.ranks)
    decreases e
  {
    match e
    case Cat(a, b) => AllStartsBelow(f, g, a); AllStartsBelow(f, g, b);
    case Or(a, b) => AllStartsBelow(f, g, a); AllStartsBelow(f, g, b);
    case Star(a) => AllStartsBelow(f, g, a);
    case Opt(a) => AllStartsBelow(f, g, a);
    case Not(a) => AllStartsBelow(f, g, a);
    case Call(r) => assert DescribesRule(f, g, r);
    case Capture(_, a) => AllStartsBelow(f, g, a);
    case _ =>
  }

  lemma RuleIs(f: Facts, g: Grammar, r: nat)
    requires Describes(f, g)
    ensures StartsBelow(f, g(r), f.rank(r)) && StarsConsume(f, g(r)) && Stars(g(r)) <= f.stars
  {
    assert DescribesRule(f, g, r);
  }

  /** A match ends inside the text, and further on when it cannot be empty. */
  lemma Moves(f: Facts, g: Grammar, buffer: seq<nat>, e: Expr, pos: nat, fuel: nat)
    requires Describes(f, g) && Parse(g, buffer, e, pos, fuel).Match? && pos <= |buffer|
    ensures pos <= Parse(g, buffer, e, pos, fuel).end <= |buffer|
    ensures !CanBeEmpty(f, e) ==> pos < Parse(g, buffer, e, pos, fuel).end
  {
    Consumes(f, g, buffer, e, pos, fuel);
    MatchesAreNested(g, buffer, e, pos, fuel);
  }

  /** With enough room the bound is not reached. */
  lemma {:induction false} NotDeep(f: Facts, g: Grammar, buffer: seq<nat>, e: Expr, pos: nat, k: nat, fuel: nat)
    requires Describes(f, g) && StartsBelow(f, e, k) && StarsConsume(f, e) && Stars(e) <= f.stars && pos <= |buffer|
    requires fuel >= Enough(f, |buffer| - pos, k, Stars(e))
    ensures !Parse(g, buffer, e, pos, fuel).Deep?
    decreases fuel, e
  {
    hide Enough, Describes, DescribesRule;
    EnoughIs(f, |buffer| - pos, k, e);
    match e
    case Dot =>
    case Range(_, _) =>
    case Cat(a, b) =>
      NotDeep(f, g, buffer, a, pos, k, fuel);
      var o := Parse(g, buffer, a, pos, fuel);
      if o.Match? {
        Moves(f, g, buffer, a, pos, fuel);
        if o.end == pos {
          NotDeep(f, g, buffer, b, pos, k, fuel);
        } else {
          Later(f, g, buffer, b, pos, o.end, k, fuel);
          NotDeep(f, g, buffer, b, o.end, f.ranks, fuel);
        }
      }
    case Or(a, b) =>
      NotDeep(f, g, buffer, a, pos, k, fuel);
      NotDeep(f, g, buffer, b, pos, k, fuel);
    case Opt(a) => NotDeep(f, g, buffer, a, pos, k, fuel);
    case Not(a) => NotDeep(f, g, buffer, a, pos, k, fuel);
    case Star(a) =>
      NotDeep(f, g, buffer, a, pos, k, fuel - 1);
      var o := Parse(g, buffer, a, pos, fuel - 1);
      if o.Match? {
        Moves(f, g, buffer, a, pos, fuel - 1);
        Later(f, g, buffer, e, pos, o.end, k, fuel);
        NotDeep(f, g, buffer, e, o.end, f.ranks, fuel - 1);
      }
    case Call(r) =>
      RuleIs(f, g, r);
      NextRank(f, |buffer| - pos, k, f.rank(r), Stars(g(r)));
      NotDeep(f, g, buffer, g(r), pos, f.rank(r), fuel - 1);
    case Capture(_, a) => NotDeep(f, g, buffer, a, pos, k, fuel);
  }

  lemma EnoughIs(f: Facts, left: nat, k: nat, e: Expr)
    ensures Enough(f, left, k, Stars(e)) == Enough(f, left, k, 0) + Stars(e)
    ensures e.Cat? ==> Stars(e) >= Stars(e.first) && Stars(e) >= Stars(e.second)
    ensures forall s: nat :: Enough(f, left, k, s) == Enough(f, left, k, 0) + s
  {
  }

  lemma Later(f: Facts, g: Grammar, buffer: seq<nat>, e: Expr, pos: nat, pos': nat, k: nat, fuel: nat)
    requires Describes(f, g) && pos < pos' <= |buffer| && Stars(e) <= f.stars
    requires fuel >= Enough(f, |buffer| - pos, k, 0)
    ensures StartsBelow(f, e, f.ranks) && fuel >= 1 + Enough(f, |buffer| - pos', f.ranks, Stars(e))
  {
    AllStartsBelow(f, g, e);
    NextChar(f, |buffer| - pos, |buffer| - pos', k, Stars(e));
  }

  /** What a text is by a rule, without a bound on the nesting. */
  function Meaning(f: Facts, g: Grammar, rule: nat, text: seq<nat>): Outcome {
    Parse(g, Terminated(text), Call(rule), 0, Enough(f, |Terminated(text)|, f.ranks, 0))
  }

  /** The bound is known from the length of the text, and no larger one changes anything. */
  lemma EnoughForText(f: Facts, g: Grammar, rule: nat, text: seq<nat>, fuel: nat)
    requires Describes(f, g) && fuel >= Enough(f, |Terminated(text)|, f.ranks, 0)
    ensures !Meaning(f, g, rule, text).Deep?
    ensures Parse(g, Terminated(text), Call(rule), 0, fuel) == Meaning(f, g, rule, text)
  {
    hide Enough;
    var enough := Enough(f, |Terminated(text)|, f.ranks, 0);
    AllStartsBelow(f, g, Call(rule));
    NotDeep(f, g, Terminated(text), Call(rule), 0, f.ranks, enough);
    FuelIsEnough(g, Terminated(text), Call(rule), 0, enough, fuel);
  }

  /** With that bound a text is either refused or has its syntax tree built. */
  method ParseText(f: Facts, g: Grammar, rule: nat, text: seq<nat>)
    returns (ok: bool, root: Node32?, ghost s: set<Node32>)
    requires Describes(f, g)
    ensures ok <==> Meaning(f, g, rule, text).Match?
    ensures ok ==> |Meaning(f, g, rule, text).trees| == 1 && (Meaning(f, g, rule, text).end == 0 <==> root == null)
    ensures ok && root != null ==> Linked(root, [Prune(Meaning(f, g, rule, text).trees[0])], s)
  {
    hide Enough, Parse;
    var enough := Enough(f, |Terminated(text)|, f.ranks, 0);
    EnoughForText(f, g, rule, text, enough);
    var v;
    v, root, s := SyntaxTree(g, rule, text, enough);
    ok := v == Yes;
  }
}
