/** The token buffer of the generated parser and its reduction to a syntax tree:
    parser/thrift.peg.go.  Tokens arrive in post-order; a stack algorithm links them
    into a tree. */
module TokenTree {

  datatype Token = Token(rule: nat, begin: nat, end: nat)

  /** A syntax tree by value. */
  datatype Tree = Node(token: Token, kids: seq<Tree>)

  // ----- listings -----

  function PostOrder(t: Tree): seq<Token> {
    PostOrders(t.kids) + [t.token]
  }

  function PostOrders(ts: seq<Tree>): seq<Token> {
    if ts == [] then [] else PostOrder(ts[0]) + PostOrders(ts[1..])
  }

  predicate Empty(t: Token) {
    t.begin == t.end
  }

  function NonEmpty(tokens: seq<Token>): seq<Token> {
    if tokens == [] then []
    else (if Empty(tokens[0]) then [] else [tokens[0]]) + NonEmpty(tokens[1..])
  }

  // ----- properly nested trees -----

  /** The spans of children lie in order, without overlap, inside the span of the parent. */
  predicate Nested(t: Tree) {
    t.token.begin <= t.token.end && NestedIn(t.kids, t.token.begin, t.token.end)
  }

  predicate NestedIn(ts: seq<Tree>, lo: nat, hi: nat) {
    if ts == [] then lo <= hi
    else lo <= ts[0].token.begin && Nested(ts[0]) && NestedIn(ts[1..], ts[0].token.end, hi)
  }

  /** The tree without its tokens of zero width. */
  function Prune(t: Tree): Tree {
    Node(t.token, Prunes(t.kids))
  }

  function Prunes(ts: seq<Tree>): seq<Tree> {
    if ts == [] then []
    else (if Empty(ts[0].token) then [] else [Prune(ts[0])]) + Prunes(ts[1..])
  }

  // ----- the reduction on values -----

  /** The loop that a token runs: it takes from the stack, top first, what lies within its
      span.  The top of the stack is the last element. */
  function Absorb(stack: seq<Tree>, token: Token, kids: seq<Tree>): (r: (seq<Tree>, Tree))
    decreases |stack|
  {
    if stack != [] && stack[|stack| - 1].token.begin >= token.begin && stack[|stack| - 1].token.end <= token.end then
      Absorb(stack[..|stack| - 1], token, [stack[|stack| - 1]] + kids)
    else (stack, Node(token, kids))
  }

  function Step(stack: seq<Tree>, token: Token): seq<Tree> {
    if Empty(token) then stack
    else
      var (rest, node) := Absorb(stack, token, []);
      rest + [node]
  }

  function Reduce(stack: seq<Tree>, tokens: seq<Token>): seq<Tree>
    decreases tokens
  {
    if tokens == [] then stack else Reduce(Step(stack, tokens[0]), tokens[1..])
  }

  lemma {:induction false} ReduceAppend(stack: seq<Tree>, a: seq<Token>, b: seq<Token>)
    ensures Reduce(stack, a + b) == Reduce(Reduce(stack, a), b)
    decreases a
  {
    if a == [] {
      assert a + b == b;
    } else {
      assert (a + b)[1..] == a[1..] + b;
      ReduceAppend(Step(stack, a[0]), a[1..], b);
    }
  }

  /** Everything on the stack ends at or before `lo` and is not empty. */
  predicate Before(stack: seq<Tree>, lo: nat) {
    forall i :: 0 <= i < |stack| ==> stack[i].token.begin < stack[i].token.end <= lo
  }

  lemma AbsorbLast(stack: seq<Tree>, t: Tree, token: Token, kids: seq<Tree>)
    requires token.begin <= t.token.begin && t.token.end <= token.end
    ensures Absorb(stack + [t], token, kids) == Absorb(stack, token, [t] + kids)
  {
    assert (stack + [t])[..|stack|] == stack;
  }

  /** A token takes exactly the trees that lie within its span. */
  lemma {:induction false} AbsorbTakes(stack: seq<Tree>, ts: seq<Tree>, token: Token, kids: seq<Tree>)
    requires Before(stack, token.begin) && token.begin <= token.end
    requires forall i :: 0 <= i < |ts| ==> token.begin <= ts[i].token.begin && ts[i].token.end <= token.end
    ensures Absorb(stack + ts, token, kids) == (stack, Node(token, ts + kids))
    decreases |ts|
  {
    if ts == [] {
      assert stack + ts == stack && ts + kids == kids;
      if stack != [] {
        assert stack[|stack| - 1].token.begin < token.begin;
      }
    } else {
      var last, most := ts[|ts| - 1], ts[..|ts| - 1];
      AbsorbTakes(stack, most, token, [last] + kids);
      AbsorbLast(stack + most, last, token, kids);
      assert (stack + most) + [last] == stack + ts;
      assert most + ([last] + kids) == ts + kids;
    }
  }

  lemma {:induction false} PrunesWithin(ts: seq<Tree>, lo: nat, hi: nat)
    requires NestedIn(ts, lo, hi)
    ensures lo <= hi
    ensures forall i :: 0 <= i < |Prunes(ts)| ==>
              lo <= Prunes(ts)[i].token.begin < Prunes(ts)[i].token.end <= hi
  {
    if ts != [] {
      PrunesWithin(ts[1..], ts[0].token.end, hi);
    }
  }

  /** A token of zero width has only such tokens below it, and they leave no trace. */
  lemma {:induction false} EmptyLeavesNothing(t: Tree)
    requires Nested(t) && Empty(t.token)
    ensures NonEmpty(PostOrder(t)) == []
    ensures Prunes(t.kids) == []
    decreases t, 0
  {
    EmptiesLeaveNothing(t.kids, t.token.begin, t.token.end);
    NonEmptyAppend(PostOrders(t.kids), [t.token]);
  }

  lemma {:induction false} EmptiesLeaveNothing(ts: seq<Tree>, lo: nat, hi: nat)
    requires NestedIn(ts, lo, hi) && lo == hi
    ensures NonEmpty(PostOrders(ts)) == [] && Prunes(ts) == []
    decreases ts, 0
  {
    if ts != [] {
      PrunesWithin(ts[1..], ts[0].token.end, hi);
      EmptyLeavesNothing(ts[0]);
      EmptiesLeaveNothing(ts[1..], ts[0].token.end, hi);
      NonEmptyAppend(PostOrder(ts[0]), PostOrders(ts[1..]));
    }
  }

  lemma {:induction false} NonEmptyAppend(a: seq<Token>, b: seq<Token>)
    ensures NonEmpty(a + b) == NonEmpty(a) + NonEmpty(b)
    decreases a
  {
    if a == [] {
      assert a + b == b;
    } else {
      assert (a + b)[1..] == a[1..] + b;
      NonEmptyAppend(a[1..], b);
    }
  }

  /** Tokens of zero width make no step. */
  lemma {:induction false} ReduceNonEmpty(stack: seq<Tree>, tokens: seq<Token>)
    ensures Reduce(stack, tokens) == Reduce(stack, NonEmpty(tokens))
    decreases tokens
  {
    if tokens != [] {
      ReduceNonEmpty(Step(stack, tokens[0]), tokens[1..]);
      if !Empty(tokens[0]) {
        assert NonEmpty(tokens) == [tokens[0]] + NonEmpty(tokens[1..]);
      } else {
        assert NonEmpty(tokens) == NonEmpty(tokens[1..]);
      }
    }
  }

  /** Reducing the listing of trees pushes them, pruned, onto the stack. */
  lemma {:induction false} ReducePushes(stack: seq<Tree>, ts: seq<Tree>, lo: nat, hi: nat)
    requires NestedIn(ts, lo, hi) && Before(stack, lo)
    ensures Reduce(stack, PostOrders(ts)) == stack + Prunes(ts)
    decreases ts, 1
  {
    hide Reduce, PostOrder, Prune, Nested;
    if ts == [] {
      assert stack + [] == stack;
      NothingReduced(stack);
    } else {
      var t := ts[0];
      ReduceOne(stack, t, lo);
      ReduceAppend(stack, PostOrder(t), PostOrders(ts[1..]));
      var first := if Empty(t.token) then [] else [Prune(t)];
      StillBefore(stack, t, lo);
      ReducePushes(stack + first, ts[1..], t.token.end, hi);
      Regroup(stack, first, Prunes(ts[1..]));
    }
  }

  lemma NothingReduced(stack: seq<Tree>)
    ensures Reduce(stack, []) == stack
  {
  }

  lemma Regroup<T>(a: seq<T>, b: seq<T>, c: seq<T>)
    ensures (a + b) + c == a + (b + c)
  {
  }

  /** A tree pushed on the stack ends before what comes after it. */
  lemma StillBefore(stack: seq<Tree>, t: Tree, lo: nat)
    requires Before(stack, lo) && lo <= t.token.begin && Nested(t)
    ensures Before(stack + (if Empty(t.token) then [] else [Prune(t)]), t.token.end)
  {
    var more := stack + (if Empty(t.token) then [] else [Prune(t)]);
    forall i | 0 <= i < |more|
      ensures more[i].token.begin < more[i].token.end <= t.token.end
    {
      if i < |stack| {
        assert more[i] == stack[i];
      }
    }
  }

  lemma {:induction false} ReduceOne(stack: seq<Tree>, t: Tree, lo: nat)
    requires Nested(t) && lo <= t.token.begin && Before(stack, lo)
    ensures Reduce(stack, PostOrder(t)) == stack + (if Empty(t.token) then [] else [Prune(t)])
    decreases t, 1
  {
    if Empty(t.token) {
      EmptyLeavesNothing(t);
      ReduceNonEmpty(stack, PostOrder(t));
      assert stack + [] == stack;
    } else {
      ReducePushes(stack, t.kids, t.token.begin, t.token.end);
      ReduceAppend(stack, PostOrders(t.kids), [t.token]);
      PrunesWithin(t.kids, t.token.begin, t.token.end);
      AbsorbTakes(stack, Prunes(t.kids), t.token, []);
      assert Prunes(t.kids) + [] == Prunes(t.kids);
      var after := Reduce(stack, PostOrders(t.kids));
      assert Reduce(after, [t.token]) == Step(after, t.token);
    }
  }

  /** The listing of the pruned tree is the listing without the tokens of zero width. */
  lemma {:induction false} PostOrderOfPrune(t: Tree)
    requires Nested(t) && !Empty(t.token)
    ensures PostOrder(Prune(t)) == NonEmpty(PostOrder(t))
    decreases t, 1
  {
    PostOrdersOfPrunes(t.kids, t.token.begin, t.token.end);
    NonEmptyAppend(PostOrders(t.kids), [t.token]);
  }

  lemma {:induction false} PostOrdersOfPrunes(ts: seq<Tree>, lo: nat, hi: nat)
    requires NestedIn(ts, lo, hi)
    ensures PostOrders(Prunes(ts)) == NonEmpty(PostOrders(ts))
    decreases ts, 1
  {
    if ts != [] {
      PostOrdersOfPrunes(ts[1..], ts[0].token.end, hi);
      NonEmptyAppend(PostOrder(ts[0]), PostOrders(ts[1..]));
      if Empty(ts[0].token) {
        EmptyLeavesNothing(ts[0]);
        assert Prunes(ts) == Prunes(ts[1..]);
      } else {
        PostOrderOfPrune(ts[0]);
        assert Prunes(ts) == [Prune(ts[0])] + Prunes(ts[1..]);
        assert Prunes(ts)[1..] == Prunes(ts[1..]);
      }
    }
  }

  /** Reduction inverts the post-order listing of every properly nested tree. */
  lemma ReductionInvertsPostOrder(t: Tree)
    requires Nested(t)
    ensures Reduce([], PostOrder(t)) == if Empty(t.token) then [] else [Prune(t)]
    ensures !Empty(t.token) ==> PostOrder(Prune(t)) == NonEmpty(PostOrder(t))
  {
    ReduceOne([], t, t.token.begin);
    if !Empty(t.token) {
      PostOrderOfPrune(t);
    }
  }

  // ----- the linked tree -----

  class Node32 {
    const token: Token
    var up: Node32?     // the first child
    var next: Node32?   // the next sibling
    ghost var below: set<Node32>   // the nodes of its children and of what is below them

    constructor (token: Token)
      ensures this.token == token && up == null && next == null && below == {}
    {
      this.token, up, next := token, null, null;
      below := {};
    }
  }

  /** The nodes from `x` along `next` are the trees `ts`, with all their nodes in `s`.  No
      node occurs twice: what is below `x` is apart from `x` and from its siblings. */
  ghost predicate Linked(x: Node32?, ts: seq<Tree>, s: set<Node32>)
    reads s
    decreases ts
  {
    if ts == [] then x == null
    else
      && x != null && x in s && x.token == ts[0].token && x.below <= s - {x}
      && Linked(x.up, ts[0].kids, x.below) && Linked(x.next, ts[1..], s - {x} - x.below)
  }

  lemma {:induction false} LinkedMore(x: Node32?, ts: seq<Tree>, s: set<Node32>, s': set<Node32>)
    requires Linked(x, ts, s) && s <= s'
    ensures Linked(x, ts, s')
    decreases ts
  {
    if ts != [] {
      LinkedMore(x.next, ts[1..], s - {x} - x.below, s' - {x} - x.below);
    }
  }

  function Size(ts: seq<Tree>): nat {
    if ts == [] then 0 else 1 + Size(ts[0].kids) + Size(ts[1..])
  }

  /** Linked nodes are at least as many as the nodes of the trees: none stands for two. */
  lemma {:induction false} NoneShared(x: Node32?, ts: seq<Tree>, s: set<Node32>)
    requires Linked(x, ts, s)
    ensures Size(ts) <= |s|
    decreases ts
  {
    if ts != [] {
      NoneShared(x.up, ts[0].kids, x.below);
      NoneShared(x.next, ts[1..], s - {x} - x.below);
      assert s == {x} + x.below + (s - {x} - x.below);
      assert |s| == |{x} + x.below| + |s - {x} - x.below| && |{x} + x.below| == 1 + |x.below|;
    }
  }

  /** `x` is the root of `t`, not yet linked to a sibling. */
  ghost predicate Rooted(x: Node32, t: Tree, s: set<Node32>)
    reads s
  {
    x in s && x.token == t.token && x.next == null && x.below <= s - {x} && Linked(x.up, t.kids, x.below)
  }

  ghost function Union(parts: seq<set<Node32>>): set<Node32> {
    if parts == [] then {} else Union(parts[..|parts| - 1]) + parts[|parts| - 1]
  }

  /** The nodes on the stack are the roots of `vals`, built from separate sets of nodes. */
  ghost predicate Stacked(stack: seq<Node32>, vals: seq<Tree>, parts: seq<set<Node32>>)
    reads Union(parts)
    decreases |stack|
  {
    && |stack| == |vals| == |parts|
    && (stack != [] ==>
          var top := |stack| - 1;
          && Stacked(stack[..top], vals[..top], parts[..top])
          && Rooted(stack[top], vals[top], parts[top])
          && parts[top] !! Union(parts[..top]))
  }

  lemma StackedPush(stack: seq<Node32>, vals: seq<Tree>, parts: seq<set<Node32>>, x: Node32, t: Tree, s: set<Node32>)
    requires Stacked(stack, vals, parts) && Rooted(x, t, s) && s !! Union(parts)
    ensures Union(parts + [s]) == Union(parts) + s
    ensures Stacked(stack + [x], vals + [t], parts + [s])
  {
    assert (stack + [x])[..|stack|] == stack && (vals + [t])[..|stack|] == vals && (parts + [s])[..|stack|] == parts;
  }

  class Tokens32 {
    var tree: seq<Token>

    constructor ()
      ensures tree == []
    {
      tree := [];
    }

    /** Overwrites the token at an index that is in use, and appends otherwise. */
    method Add(rule: nat, begin: nat, end: nat, index: nat)
      modifies this
      ensures index < |old(tree)| ==> tree == old(tree)[index := Token(rule, begin, end)]
      ensures index >= |old(tree)| ==> tree == old(tree) + [Token(rule, begin, end)]
    {
      if index >= |tree| {
        tree := tree + [Token(rule, begin, end)];
        return;
      }
      tree := tree[index := Token(rule, begin, end)];
    }

    method Trim(length: nat)
      requires length <= |tree|
      modifies this
      ensures tree == old(tree)[..length]
    {
      tree := tree[..length];
    }

    /** Links the tokens into a tree and returns its root. */
    method AST() returns (root: Node32?, ghost s: set<Node32>)
      ensures fresh(s) && Returned(root, Reduce([], tree), s)
    {
      hide *;
      var stack: seq<Node32> := [];
      ghost var vals: seq<Tree>, parts: seq<set<Node32>> := [], [];
      NothingStacked();
      assert tree[0..] == tree;
      for i := 0 to |tree|
        invariant Stacked(stack, vals, parts)
        invariant fresh(Union(parts))
        invariant Reduce([], tree) == Reduce(vals, tree[i..])
      {
        ReduceNext(vals, tree, i);
        var token := tree[i];
        if token.begin == token.end {
          EmptyStep(vals, token);
          continue;
        }
        NotEmpty(token);
        stack, vals, parts := Push(stack, token, vals, parts, Union(parts));
      }
      ReduceDone(vals, tree);
      s := if stack == [] then {} else TopPart(stack, vals, parts);
      ReturnTop(stack, vals, parts);
      root := if stack == [] then null else stack[|stack| - 1];
    }
  }

  /** What AST returns when the reduction of the tokens leaves `vals` on the stack. */
  ghost predicate Returned(root: Node32?, vals: seq<Tree>, s: set<Node32>)
    reads s
  {
    if vals == [] then root == null else Linked(root, [vals[|vals| - 1]], s)
  }

  ghost function TopPart(stack: seq<Node32>, vals: seq<Tree>, parts: seq<set<Node32>>): (s: set<Node32>)
    requires stack != []
    reads Union(parts)
    requires Stacked(stack, vals, parts)
    ensures s <= Union(parts)
  {
    parts[|parts| - 1]
  }

  lemma ReturnTop(stack: seq<Node32>, vals: seq<Tree>, parts: seq<set<Node32>>)
    requires Stacked(stack, vals, parts)
    ensures if stack == [] then Returned(null, vals, {})
            else Returned(stack[|stack| - 1], vals, TopPart(stack, vals, parts))
  {
  }

  lemma NothingStacked()
    ensures Union([]) == {} && Stacked([], [], [])
  {
  }

  lemma ReduceNext(vals: seq<Tree>, tokens: seq<Token>, i: nat)
    requires i < |tokens|
    ensures Reduce(vals, tokens[i..]) == Reduce(Step(vals, tokens[i]), tokens[i + 1..])
  {
    assert tokens[i..][1..] == tokens[i + 1..];
  }

  lemma ReduceDone(vals: seq<Tree>, tokens: seq<Token>)
    ensures Reduce(vals, tokens[|tokens|..]) == vals
  {
  }

  lemma EmptyStep(vals: seq<Tree>, token: Token)
    requires token.begin == token.end
    ensures Step(vals, token) == vals
  {
  }

  lemma NotEmpty(token: Token)
    requires token.begin != token.end
    ensures !Empty(token)
  {
  }

  /** What one token of non-zero width does to the stack. */
  method Push(stack: seq<Node32>, token: Token, ghost vals: seq<Tree>,
              ghost parts: seq<set<Node32>>, ghost all: set<Node32>)
    returns (stack': seq<Node32>, ghost vals': seq<Tree>, ghost parts': seq<set<Node32>>)
    requires Stacked(stack, vals, parts) && all == Union(parts) && !Empty(token)
    modifies all
    ensures Stacked(stack', vals', parts')
    ensures vals' == Step(vals, token)
    ensures fresh(Union(parts') - all)
  {
    hide Linked, Rooted, Union;
    var node := new Node32(token);
    assert Stacked(stack, vals, parts) && node !in all;
    stack' := stack;
    ghost var taken: set<Node32>, kids: seq<Tree> := {}, [];
    vals', parts' := vals, parts;
    NoKids(node);
    while stack' != [] && stack'[|stack'| - 1].token.begin >= token.begin && stack'[|stack'| - 1].token.end <= token.end
      invariant Stacked(stack', vals', parts')
      invariant Linked(node.up, kids, taken) && node.next == null
      invariant Union(parts') + taken <= all && Union(parts') !! taken
      invariant Absorb(vals, token, []) == Absorb(vals', token, kids)
      decreases |stack'|
    {
      ghost var top := |stack'| - 1;
      ghost var part := parts'[top];
      UnionTop(stack', vals', parts');
      Take(node, stack'[|stack'| - 1], kids, taken, vals'[top], part, parts'[..top], stack'[..top], vals'[..top]);
      AbsorbTop(vals', token, kids);
      kids, taken := [vals'[top]] + kids, taken + part;
      stack', vals', parts' := stack'[..|stack'| - 1], vals'[..top], parts'[..top];
    }
    TopToken(stack', vals', parts');
    node.below := taken;
    RootedNode(node, token, kids, taken);
    StackedPush(stack', vals', parts', node, Node(token, kids), {node} + taken);
    stack', vals', parts' := stack' + [node], vals' + [Node(token, kids)], parts' + [{node} + taken];
  }

  lemma NoKids(node: Node32)
    requires node.up == null
    ensures Linked(node.up, [], {})
  {
  }

  lemma UnionTop(stack: seq<Node32>, vals: seq<Tree>, parts: seq<set<Node32>>)
    requires Stacked(stack, vals, parts) && stack != []
    ensures var top := |stack| - 1;
            && Union(parts) == Union(parts[..top]) + parts[top] && parts[top] !! Union(parts[..top])
            && Rooted(stack[top], vals[top], parts[top]) && stack[top] in parts[top]
            && stack[top].token == vals[top].token
            && Stacked(stack[..top], vals[..top], parts[..top])
  {
  }

  lemma TopToken(stack: seq<Node32>, vals: seq<Tree>, parts: seq<set<Node32>>)
    requires Stacked(stack, vals, parts)
    ensures |stack| == |vals| && (stack != [] ==> stack[|stack| - 1].token == vals[|stack| - 1].token)
  {
  }

  lemma AbsorbTop(vals: seq<Tree>, token: Token, kids: seq<Tree>)
    requires vals != [] && vals[|vals| - 1].token.begin >= token.begin && vals[|vals| - 1].token.end <= token.end
    ensures Absorb(vals, token, kids) == Absorb(vals[..|vals| - 1], token, [vals[|vals| - 1]] + kids)
  {
  }

  lemma RootedNode(node: Node32, token: Token, kids: seq<Tree>, taken: set<Node32>)
    requires node.token == token && node.next == null && node !in taken && node.below == taken && Linked(node.up, kids, taken)
    ensures Rooted(node, Node(token, kids), {node} + taken)
  {
    assert ({node} + taken) - {node} == taken;
  }

  /** Links the node on top of the stack in front of the children found so far. */
  method Take(node: Node32, child: Node32, ghost kids: seq<Tree>, ghost taken: set<Node32>, ghost t: Tree,
              ghost part: set<Node32>, ghost parts: seq<set<Node32>>, ghost stack: seq<Node32>, ghost vals: seq<Tree>)
    requires Linked(node.up, kids, taken) && Rooted(child, t, part) && Stacked(stack, vals, parts)
    requires part !! taken && part !! Union(parts) && node !in part + taken + Union(parts)
    modifies node, child
    ensures Linked(node.up, [t] + kids, taken + part) && node.next == old(node.next)
    ensures Stacked(stack, vals, parts)
  {
    child.next := node.up;
    node.up := child;
    var s := taken + part;
    LinkedMore(child.next, kids, taken, s - {child} - child.below);
    assert ([t] + kids)[1..] == kids;
  }
}
