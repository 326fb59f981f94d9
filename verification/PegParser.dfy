/** The generated recogniser: parser/thrift.peg.go.  Its rules move a position over the
    buffer, write tokens at an index into the token buffer, and take both back when an
    alternative fails.  Tokens of a failed attempt stay in the buffer and are overwritten. */
module PegParser {
  import opened TokenTree

  const EndSymbol: nat := 1114112

  /** The expressions that occur in parser/thrift.peg. */
  datatype Expr =
    | Dot
    | Range(lo: nat, hi: nat)
    | Cat(first: Expr, second: Expr)
    | Or(one: Expr, other: Expr)
    | Star(body: Expr)
    | Opt(body: Expr)
    | Not(body: Expr)
    | Call(rule: nat)
    | Capture(token: nat, text: Expr)   // all captures of a grammar write the same token

  /** The body of every rule. */
  type Grammar = nat -> Expr

  // ----- what a grammar means -----

  /** How an expression matches at a position: where it ends, with the syntax trees of the
      rules used on the way.  `Deep` says that the bound on nesting was reached. */
  datatype Outcome = Match(end: nat, trees: seq<Tree>) | Fail | Deep

  function Then(trees: seq<Tree>, o: Outcome): Outcome {
    if o.Match? then Match(o.end, trees + o.trees) else o
  }

  function At(buffer: seq<nat>, pos: nat): nat {
    if pos < |buffer| then buffer[pos] else EndSymbol
  }

  predicate Accepts(e: Expr, c: nat)
    requires e.Dot? || e.Range?
  {
    c != EndSymbol && (e.Dot? || e.lo <= c <= e.hi)
  }

  function Parse(g: Grammar, buffer: seq<nat>, e: Expr, pos: nat, fuel: nat): Outcome
    decreases fuel, e
  {
    match e
    case Dot => if Accepts(e, At(buffer, pos)) then Match(pos + 1, []) else Fail
    case Range(_, _) => if Accepts(e, At(buffer, pos)) then Match(pos + 1, []) else Fail
    case Cat(a, b) =>
      var o := Parse(g, buffer, a, pos, fuel);
      if o.Match? then Then(o.trees, Parse(g, buffer, b, o.end, fuel)) else o
    case Or(a, b) =>
      var o := Parse(g, buffer, a, pos, fuel);
      if o.Fail? then Parse(g, buffer, b, pos, fuel) else o
    case Opt(a) =>
      var o := Parse(g, buffer, a, pos, fuel);
      if o.Fail? then Match(pos, []) else o
    case Not(a) =>
      var o := Parse(g, buffer, a, pos, fuel);
      if o.Match? then Fail else if o.Fail? then Match(pos, []) else o
    case Star(a) =>
      if fuel == 0 then Deep
      else
        var o := Parse(g, buffer, a, pos, fuel - 1);
        if o.Match? then Then(o.trees, Parse(g, buffer, e, o.end, fuel - 1))
        else if o.Fail? then Match(pos, []) else o
    case Call(r) =>
      if fuel == 0 then Deep
      else
        var o := Parse(g, buffer, g(r), pos, fuel - 1);
        if o.Match? then Match(o.end, [Node(Token(r, pos, o.end), o.trees)]) else o
    case Capture(r, a) =>
      var o := Parse(g, buffer, a, pos, fuel);
      if o.Match? then Match(o.end, [Node(Token(r, pos, o.end), o.trees)]) else o
  }

  /** A larger bound changes nothing once the bound is large enough. */
  lemma {:induction false} FuelIsEnough(g: Grammar, buffer: seq<nat>, e: Expr, pos: nat, fuel: nat, more: nat)
    requires fuel <= more && !Parse(g, buffer, e, pos, fuel).Deep?
    ensures Parse(g, buffer, e, pos, more) == Parse(g, buffer, e, pos, fuel)
    decreases fuel, e
  {
    match e
    case Dot =>
    case Range(_, _) =>
    case Cat(a, b) =>
      FuelIsEnough(g, buffer, a, pos, fuel, more);
      var o := Parse(g, buffer, a, pos, fuel);
      if o.Match? { FuelIsEnough(g, buffer, b, o.end, fuel, more); }
    case Or(a, b) =>
      FuelIsEnough(g, buffer, a, pos, fuel, more);
      if Parse(g, buffer, a, pos, fuel).Fail? { FuelIsEnough(g, buffer, b, pos, fuel, more); }
    case Opt(a) => FuelIsEnough(g, buffer, a, pos, fuel, more);
    case Not(a) => FuelIsEnough(g, buffer, a, pos, fuel, more);
    case Star(a) =>
      FuelIsEnough(g, buffer, a, pos, fuel - 1, more - 1);
      var o := Parse(g, buffer, a, pos, fuel - 1);
      if o.Match? { FuelIsEnough(g, buffer, e, o.end, fuel - 1, more - 1); }
    case Call(r) => FuelIsEnough(g, buffer, g(r), pos, fuel - 1, more - 1);
    case Capture(_, a) => FuelIsEnough(g, buffer, a, pos, fuel, more);
  }

  lemma {:induction false} NestedInAppend(a: seq<Tree>, b: seq<Tree>, lo: nat, mid: nat, hi: nat)
    requires NestedIn(a, lo, mid) && NestedIn(b, mid, hi)
    ensures NestedIn(a + b, lo, hi)
    decreases a
  {
    if a == [] {
      assert a + b == b;
      LowerStart(b, lo, mid, hi);
    } else {
      NestedInAppend(a[1..], b, a[0].token.end, mid, hi);
      assert (a + b)[1..] == a[1..] + b;
    }
  }

  lemma {:induction false} LowerStart(ts: seq<Tree>, lo: nat, mid: nat, hi: nat)
    requires lo <= mid && NestedIn(ts, mid, hi)
    ensures NestedIn(ts, lo, hi)
  {
    PrunesWithin(ts, mid, hi);
  }

  /** The trees of a match are properly nested between its two ends, and a match stays
      inside the buffer. */
  lemma {:induction false} MatchesAreNested(g: Grammar, buffer: seq<nat>, e: Expr, pos: nat, fuel: nat)
    requires pos <= |buffer| && Parse(g, buffer, e, pos, fuel).Match?
    ensures var o := Parse(g, buffer, e, pos, fuel);
            o.end <= |buffer| && NestedIn(o.trees, pos, o.end)
    decreases fuel, e
  {
    match e
    case Dot =>
    case Range(_, _) =>
    case Cat(a, b) =>
      MatchesAreNested(g, buffer, a, pos, fuel);
      var o := Parse(g, buffer, a, pos, fuel);
      MatchesAreNested(g, buffer, b, o.end, fuel);
      var o' := Parse(g, buffer, b, o.end, fuel);
      NestedInAppend(o.trees, o'.trees, pos, o.end, o'.end);
    case Or(a, b) =>
      if Parse(g, buffer, a, pos, fuel).Fail? {
        MatchesAreNested(g, buffer, b, pos, fuel);
      } else {
        MatchesAreNested(g, buffer, a, pos, fuel);
      }
    case Opt(a) =>
      if Parse(g, buffer, a, pos, fuel).Match? { MatchesAreNested(g, buffer, a, pos, fuel); }
    case Not(a) =>
    case Star(a) =>
      var o := Parse(g, buffer, a, pos, fuel - 1);
      if o.Match? {
        MatchesAreNested(g, buffer, a, pos, fuel - 1);
        MatchesAreNested(g, buffer, e, o.end, fuel - 1);
        var o' := Parse(g, buffer, e, o.end, fuel - 1);
        NestedInAppend(o.trees, o'.trees, pos, o.end, o'.end);
      }
    case Call(r) =>
      MatchesAreNested(g, buffer, g(r), pos, fuel - 1);
      var o := Parse(g, buffer, g(r), pos, fuel - 1);
      PrunesWithin(o.trees, pos, o.end);
    case Capture(_, a) =>
      MatchesAreNested(g, buffer, a, pos, fuel);
      PrunesWithin(Parse(g, buffer, a, pos, fuel).trees, pos, Parse(g, buffer, a, pos, fuel).end);
  }

  lemma {:induction false} PostOrdersAppend(a: seq<Tree>, b: seq<Tree>)
    ensures PostOrders(a + b) == PostOrders(a) + PostOrders(b)
    decreases a
  {
    if a == [] {
      assert a + b == b;
    } else {
      assert (a + b)[1..] == a[1..] + b;
      PostOrdersAppend(a[1..], b);
    }
  }

  // ----- the recogniser -----

  datatype Verdict = Yes | No | TooDeep

  function VerdictOf(o: Outcome): Verdict {
    match o
    case Match(_, _) => Yes
    case Fail => No
    case Deep => TooDeep
  }

  /** How far a matching attempt has come, given the tokens in use when it began. */
  predicate Came(before: seq<Token>, o: Outcome, position: nat, tokens: seq<Token>) {
    o.Match? ==> position == o.end && tokens == before + PostOrders(o.trees)
  }

  class Parser {
    const g: Grammar
    const buffer: seq<nat>
    const tree: Tokens32
    var position: nat
    var tokenIndex: nat

    ghost predicate Valid()
      reads this, tree
    {
      && buffer != [] && buffer[|buffer| - 1] == EndSymbol
      && position < |buffer| && tokenIndex <= |tree.tree|
    }

    /** The tokens in use. */
    ghost function Live(): seq<Token>
      reads this, tree
      requires Valid()
    {
      tree.tree[..tokenIndex]
    }

    constructor (g: Grammar, text: seq<nat>, tree: Tokens32)
      ensures Valid() && position == 0 && tokenIndex == 0 && this.tree == tree && this.g == g
      ensures buffer == Terminated(text)
    {
      this.g := g;
      this.tree := tree;
      position, tokenIndex := 0, 0;
      buffer := if |text| == 0 || text[|text| - 1] != EndSymbol then text + [EndSymbol] else text;
    }

    /** Writes a token that ends at the current position. */
    method Add(rule: nat, begin: nat)
      requires Valid()
      modifies this`tokenIndex, tree
      ensures Valid() && Live() == old(Live()) + [Token(rule, begin, position)]
    {
      tree.Add(rule, begin, position, tokenIndex);
      tokenIndex := tokenIndex + 1;
    }

    /** The code of an expression.  It succeeds exactly when the grammar says so, moves the
        position over what the grammar says, and extends the tokens in use by the listing of
        the trees.  When it fails, the tokens that were in use are still there. */
    method Matches(e: Expr, fuel: nat) returns (v: Verdict)
      requires Valid()
      modifies this, tree
      ensures Valid()
      ensures v == VerdictOf(Parse(g, buffer, e, old(position), fuel))
      ensures old(tokenIndex) <= |tree.tree| && tree.tree[..old(tokenIndex)] == old(Live())
      ensures Came(old(Live()), Parse(g, buffer, e, old(position), fuel), position, Live())
      decreases fuel, e, 0
    {
      var position0, tokenIndex0 := position, tokenIndex;
      match e {
        case Dot => v := MatchesOne(e);
        case Range(_, _) => v := MatchesOne(e);
        case Cat(a, b) =>
          v := Matches(a, fuel);
          if v == Yes {
            ghost var o := Parse(g, buffer, a, position0, fuel);
            v := Matches(b, fuel);
            CatCame(old(Live()), o, Parse(g, buffer, b, o.end, fuel), position, Live());
          }
        case Or(a, b) =>
          v := Matches(a, fuel);
          if v == No {
            position, tokenIndex := position0, tokenIndex0;
            v := Matches(b, fuel);
          }
        case Opt(a) =>
          v := Matches(a, fuel);
          if v == No {
            position, tokenIndex := position0, tokenIndex0;
            v := Yes;
          }
        case Not(a) =>
          v := Matches(a, fuel);
          if v == Yes {
            v := No;
          } else if v == No {
            position, tokenIndex := position0, tokenIndex0;
            v := Yes;
          }
        case Star(a) => v := MatchesMany(a, fuel);
        case Call(r) =>
          if fuel == 0 { return TooDeep; }
          v := Matches(g(r), fuel - 1);
          if v == Yes {
            Add(r, position0);
          } else if v == No {
            position, tokenIndex := position0, tokenIndex0;
          }
        case Capture(r, a) =>
          v := Matches(a, fuel);
          if v == Yes {
            Add(r, position0);
          }
      }
    }

    method MatchesOne(e: Expr) returns (v: Verdict)
      requires Valid() && (e.Dot? || e.Range?)
      modifies this`position
      ensures Valid()
      ensures v == VerdictOf(Parse(g, buffer, e, old(position), 0))
      ensures Came(Live(), Parse(g, buffer, e, old(position), 0), position, Live())
    {
      if Accepts(e, buffer[position]) {
        position := position + 1;
        return Yes;
      }
      return No;
    }

    method MatchesMany(a: Expr, fuel: nat) returns (v: Verdict)
      requires Valid()
      modifies this, tree
      ensures Valid()
      ensures v == VerdictOf(Parse(g, buffer, Star(a), old(position), fuel))
      ensures old(tokenIndex) <= |tree.tree| && tree.tree[..old(tokenIndex)] == old(Live())
      ensures Came(old(Live()), Parse(g, buffer, Star(a), old(position), fuel), position, Live())
      decreases fuel, a, 1
    {
      hide Parse, PostOrders;
      var n: nat := fuel;
      ghost var trees: seq<Tree> := [];
      NothingYet(old(Live()), Parse(g, buffer, Star(a), position, fuel));
      while n > 0
        invariant n <= fuel && Valid()
        invariant old(tokenIndex) <= tokenIndex && tree.tree[..old(tokenIndex)] == old(Live())
        invariant Live() == old(Live()) + PostOrders(trees)
        invariant Parse(g, buffer, Star(a), old(position), fuel) == Then(trees, Parse(g, buffer, Star(a), position, n))
        decreases n
      {
        var position0, tokenIndex0 := position, tokenIndex;
        StarNext(g, buffer, a, position0, n);
        ghost var o := Parse(g, buffer, a, position0, n - 1);
        v := Matches(a, n - 1);
        if v == No {
          position, tokenIndex := position0, tokenIndex0;
          assert trees + [] == trees;
          return Yes;
        }
        if v == TooDeep {
          return;
        }
        Onwards(old(Live()), trees, o.trees, Parse(g, buffer, Star(a), o.end, n - 1));
        trees := trees + o.trees;
        n := n - 1;
      }
      StarOut(g, buffer, a, position);
      v := TooDeep;
    }

    /** Runs a rule on the whole text and keeps the tokens in use. */
    method Recognise(rule: nat, fuel: nat) returns (v: Verdict)
      requires Valid() && position == 0 && tokenIndex == 0
      modifies this, tree
      ensures var o := Parse(g, buffer, Call(rule), 0, fuel);
              v == VerdictOf(o) && (o.Match? ==> tree.tree == PostOrders(o.trees))
    {
      v := Matches(Call(rule), fuel);
      if v == Yes {
        tree.Trim(tokenIndex);
      }
    }
  }

  function Terminated(text: seq<nat>): seq<nat> {
    if |text| == 0 || text[|text| - 1] != EndSymbol then text + [EndSymbol] else text
  }

  lemma NothingYet(before: seq<Token>, o: Outcome)
    ensures before + PostOrders([]) == before && Then([], o) == o
  {
  }

  lemma Onwards(before: seq<Token>, trees: seq<Tree>, more: seq<Tree>, o: Outcome)
    ensures (before + PostOrders(trees)) + PostOrders(more) == before + PostOrders(trees + more)
    ensures Then(trees, Then(more, o)) == Then(trees + more, o)
  {
    hide PostOrders;
    PostOrdersAppend(trees, more);
    Regrouped(before, PostOrders(trees), PostOrders(more));
    if o.Match? {
      Regrouped(trees, more, o.trees);
    }
  }

  lemma Regrouped<T>(a: seq<T>, b: seq<T>, c: seq<T>)
    ensures (a + b) + c == a + (b + c)
  {
  }

  lemma StarNext(g: Grammar, buffer: seq<nat>, a: Expr, pos: nat, n: nat)
    requires n > 0
    ensures var o := Parse(g, buffer, a, pos, n - 1);
            Parse(g, buffer, Star(a), pos, n) ==
              if o.Match? then Then(o.trees, Parse(g, buffer, Star(a), o.end, n - 1))
              else if o.Fail? then Match(pos, []) else Deep
  {
  }

  lemma StarOut(g: Grammar, buffer: seq<nat>, a: Expr, pos: nat)
    ensures Parse(g, buffer, Star(a), pos, 0) == Deep
  {
  }

  lemma CatCame(before: seq<Token>, o: Outcome, o': Outcome, position: nat, tokens: seq<Token>)
    requires o.Match? && Came(before + PostOrders(o.trees), o', position, tokens)
    ensures Came(before, Then(o.trees, o'), position, tokens)
  {
    if o'.Match? {
      PostOrdersAppend(o.trees, o'.trees);
    }
  }

  /** Parsing a text and building the tree of its tokens gives the syntax tree that the
      grammar gives it, without the rules that matched nothing. */
  method SyntaxTree(g: Grammar, rule: nat, text: seq<nat>, fuel: nat)
    returns (v: Verdict, root: Node32?, ghost s: set<Node32>)
    ensures v == VerdictOf(Parse(g, Terminated(text), Call(rule), 0, fuel))
    ensures v == Yes ==>
              var o := Parse(g, Terminated(text), Call(rule), 0, fuel);
              |o.trees| == 1 && o.trees[0].token == Token(rule, 0, o.end) && (o.end == 0 <==> root == null)
    ensures v == Yes && root != null ==>
              Linked(root, [Prune(Parse(g, Terminated(text), Call(rule), 0, fuel).trees[0])], s)
  {
    var tokens := new Tokens32();
    var p := new Parser(g, text, tokens);
    v := p.Recognise(rule, fuel);
    root, s := null, {};
    if v == Yes {
      root, s := tokens.AST();
      ghost var o := Parse(g, Terminated(text), Call(rule), 0, fuel);
      MatchesAreNested(g, Terminated(text), Call(rule), 0, fuel);
      assert PostOrders(o.trees) == PostOrder(o.trees[0]);
      ReductionInvertsPostOrder(o.trees[0]);
    }
  }
}
