/** What one path alone means, stars included, and what a star forgets. */
module MaskStars {
  import opened Wrappers
  import opened MaskPaths
  import opened MaskTree
  import opened MaskTyped
  import opened MaskLaws
  import opened MaskFit
  import opened MaskAnswers
  import opened MaskLists

  /** The same path, once or more. */
  predicate Copies(ps: seq<Path>, p: Path) {
    ps != [] && forall i :: 0 <= i < |ps| ==> ps[i] == p
  }

  /** Every step of a path names some place or is a star. */
  predicate Speaking(p: Path) {
    forall i :: 0 <= i < |p| ==> p[i].Star? || (p[i].To? && p[i].places != [] && Every !in p[i].places)
  }

  lemma SpeakingRest(p: Path)
    requires Speaking(p) && p != []
    ensures Speaking(p[1..])
  {
  }

  lemma CopiesAre(ps: seq<Path>, p: Path)
    requires Copies(ps, p)
    ensures p in ps && forall r :: r in ps ==> r == p
    ensures Stars(ps) <==> p != [] && p[0].Star?
    ensures Whole(ps) <==> p == [] || p[0].Star?
    ensures p != [] && p[0].Star? ==> OnlyStars(ps)
    ensures p == [] ==> OnlyEnd(ps)
  {
    assert ps[0] == p;
  }

  lemma CopiesBelow(ps: seq<Path>, p: Path, s: Slot)
    requires Copies(ps, p) && p != []
    ensures Behind(ps, s) != [] <==> p[0].To? && s in p[0].places
    ensures Behind(ps, s) != [] ==> Copies(Behind(ps, s), p[1..])
  {
    hide Behind;
    CopiesAre(ps, p);
    forall r: Path
      ensures r in Behind(ps, s) <==> p[0].To? && s in p[0].places && r == p[1..]
    {
      BehindHas(ps, s, r);
    }
    if p[0].To? && s in p[0].places {
      assert p[1..] in Behind(ps, s);
    }
    if Behind(ps, s) != [] {
      assert Behind(ps, s)[0] in Behind(ps, s);
      forall i | 0 <= i < |Behind(ps, s)|
        ensures Behind(ps, s)[i] == p[1..]
      {
        assert Behind(ps, s)[i] in Behind(ps, s);
      }
    }
  }

  /** The places that steps name are fields, elements and keys. */
  predicate Real(p: Path) {
    forall i :: 0 <= i < |p| && p[i].To? ==> Every !in p[i].places
  }

  lemma RealRest(p: Path)
    requires Real(p) && p != []
    ensures Real(p[1..]) && (p[0].To? ==> Every !in p[0].places)
  {
  }

  lemma {:induction false} StepsAreReal(env: Env, toks: seq<Token>, d: Desc)
    ensures Real(Steps(env, toks, d))
    decreases |toks|, 0
  {
    hide Bracket;
    if toks != [] {
      match toks[0]
      case Root => StepsAreReal(env, toks[1..], d);
      case Dot =>
        var t := Unwrap(d);
        if |toks| >= 2 && t.StructOf? && t.name in env {
          if toks[1].Any? && env[t.name] != [] {
            StepsAreReal(env, toks[2..], env[t.name][0].ty);
          } else if FieldOf(env[t.name], toks[1]).Some? {
            StepsAreReal(env, toks[2..], FieldOf(env[t.name], toks[1]).value.ty);
          }
        }
      case IndexL => if Unwrap(d).ListOf? { BracketIsReal(env, List, IndexR, toks[1..], Unwrap(d).elem); }
      case MapL => if Unwrap(d).MapOf? { BracketIsReal(env, SwitchFt(env, d), MapR, toks[1..], Unwrap(d).elem); }
      case _ =>
    }
  }

  lemma {:induction false} BracketIsReal(env: Env, kind: FieldMaskType, close: Token, toks: seq<Token>, elem: Desc)
    ensures Real(Bracket(env, kind, close, toks, elem))
    decreases |toks|, 1
  {
    var g := ReadGroup(kind, close, toks, true, Group(false, false, [], []));
    if g.Some? {
      GroupRest(kind, close, toks, true, Group(false, false, [], []));
      StepsAreReal(env, g.value.rest, elem);
      assert forall i :: 0 <= i < |g.value.keys| ==> g.value.keys[i] != Every;
    }
  }

  lemma CopiesOfStar(ps: seq<Path>, p: Path)
    requires Copies(ps, p) && p != [] && p[0].Star?
    ensures Copies(BehindAll(ps), p[1..])
  {
    CopiesAre(ps, p);
    BehindStars(ps);
  }

  /** No star disturbs a path that is alone. */
  lemma {:induction false} CopiesAreClean(ps: seq<Path>, p: Path)
    requires Copies(ps, p)
    ensures Clean(ps)
    decreases |p|
  {
    hide Behind, BehindAll, Stars, Copies;
    CopiesAre(ps, p);
    if p != [] && p[0].Star? {
      CopiesOfStar(ps, p);
      CopiesAreClean(BehindAll(ps), p[1..]);
    } else if p != [] {
      forall s: Slot | s != Every && Behind(ps, s) != []
        ensures Clean(Behind(ps, s))
      {
        CopiesBelow(ps, p, s);
        CopiesAreClean(Behind(ps, s), p[1..]);
      }
    }
  }

  /** A path alone has nothing taken back exactly when masks support the types of all its places. */
  lemma {:induction false} CopiesTakeNothing(env: Env, d: Desc, ps: seq<Path>, p: Path)
    requires Copies(ps, p) && Real(p)
    ensures NothingTaken(env, d, ps) <==> Heeded(env, d, p)
    decreases |p|
  {
    hide Behind, BehindAll, Stars, Copies, Real;
    CopiesAre(ps, p);
    if p != [] { RealRest(p); }
    if p == [] {
      OnlyEndsTakeNothing(env, d, ps);
    } else if p[0].Star? {
      CopiesOfStar(ps, p);
      CopiesExist(BehindAll(ps), p[1..]);
      CopiesTakeNothing(env, DescAt(env, d, Every), BehindAll(ps), p[1..]);
    } else {
      forall s: Slot
        ensures Behind(ps, s) != [] <==> p[0].To? && s in p[0].places
        ensures Behind(ps, s) != [] ==> (NothingTaken(env, DescAt(env, d, s), Behind(ps, s)) <==> Heeded(env, DescAt(env, d, s), p[1..]))
      {
        CopiesBelow(ps, p, s);
        if Behind(ps, s) != [] {
          CopiesTakeNothing(env, DescAt(env, d, s), Behind(ps, s), p[1..]);
        }
      }
    }
  }

  lemma CopiesExist(ps: seq<Path>, p: Path)
    requires Copies(ps, p)
    ensures ps != []
  {
  }

  /** Masks support the types of all places of the path, and a star for all fields rejects what is
      behind them. */
  ghost predicate Closes(env: Env, d: Desc, p: Path)
    decreases |p|
  {
    p == []
    || (match p[0]
        case To(places) => forall s :: s in places ==> Supported(env, d, s) && Closes(env, DescAt(env, d, s), p[1..])
        case Star(_) => if Unwrap(d).StructOf? then FieldsEnd(env, d) else Closes(env, DescAt(env, d, Every), p[1..])
        case _ => true)
  }

  lemma SpeakingGoesOn(ps: seq<Path>, p: Path)
    requires Copies(ps, p) && Speaking(p)
    ensures GoesOn(ps) <==> p != []
    ensures [] in ps <==> p == []
  {
    hide Behind, BehindAll;
    CopiesAre(ps, p);
    if p == [] {
      forall s: Slot
        ensures Rest(ps, s) == []
      {
        OnlyEnds(ps, s);
      }
    } else if p[0].Star? {
      CopiesOfStar(ps, p);
      RestIs(ps, Every);
    } else {
      var s := p[0].places[0];
      assert s in p[0].places;
      CopiesBelow(ps, p, s);
      RestIs(ps, s);
    }
  }

  /** A path alone is sharp exactly when masks support the types of all its places. */
  lemma {:induction false} CopiesAreSharp(env: Env, d: Desc, ps: seq<Path>, p: Path)
    requires Copies(ps, p) && Speaking(p)
    ensures Sharp(env, d, ps) <==> Closes(env, d, p)
    decreases |p|
  {
    hide Behind, BehindAll, Stars, Copies, GoesOn, FieldsEnd, Speaking;
    CopiesAre(ps, p);
    SpeakingGoesOn(ps, p);
    if p != [] {
      SpeakingRest(p);
      if p[0].Star? {
        CopiesOfStar(ps, p);
        CopiesExist(BehindAll(ps), p[1..]);
        CopiesAreSharp(env, DescAt(env, d, Every), BehindAll(ps), p[1..]);
      } else {
        NamesPlaces(p);
        forall s: Slot
          ensures Behind(ps, s) != [] <==> s in p[0].places
          ensures Behind(ps, s) != [] ==> [] in Behind(ps, s) || GoesOn(Behind(ps, s))
          ensures Behind(ps, s) != [] ==> (Sharp(env, DescAt(env, d, s), Behind(ps, s)) <==> Closes(env, DescAt(env, d, s), p[1..]))
        {
          CopiesBelow(ps, p, s);
          if Behind(ps, s) != [] {
            SpeakingGoesOn(Behind(ps, s), p[1..]);
            CopiesAreSharp(env, DescAt(env, d, s), Behind(ps, s), p[1..]);
          }
        }
      }
    }
  }

  lemma NamesPlaces(p: Path)
    requires Speaking(p) && p != [] && !p[0].Star?
    ensures p[0].To? && Every !in p[0].places
  {
  }

  lemma OneSays(p: Path, q: seq<Slot>)
    ensures Says([p], q) <==> Compat(p, q)
    ensures SomeCuts([p], q) <==> Cuts(p, q)
  {
    hide Compat, Cuts;
    assert p in [p];
  }

  /** A white list of one path, stars included, passes exactly the walks that agree with it as far
      as both go, if and only if masks support the types of all its places. */
  lemma OneWhite(env: Env, toks: seq<Token>, d: Desc)
    requires GoodEnv(env) && Simple(toks) && NewFieldMask(env, false, [toks], d).Some?
    ensures Heeded(env, d, Steps(env, toks, d))
            <==> forall q :: WalkOf(env, d, q) ==>
                   (Passes(NewFieldMask(env, false, [toks], d), q) <==> Compat(Steps(env, toks, d), q))
  {
    hide Heeded, Says, Compat, WalkOf, Passes, NewFieldMask, NothingTaken, Clean, Simple, Steps, GoodEnv;
    var p, ps := Steps(env, toks, d), PathsOf(env, [toks], d);
    assert ps == [p];
    CopiesAreClean(ps, p);
    StepsAreReal(env, toks, d);
    CopiesTakeNothing(env, d, ps, p);
    WhiteList(env, [toks], d);
    forall q: seq<Slot>
      ensures Says(ps, q) <==> Compat(p, q)
    {
      OneSays(p, q);
    }
  }

  /** A black list of one path, stars included, rejects exactly the walks that go through its end,
      and on behind it when it ends with a star, if and only if masks support the types of all its
      places and a star for all fields rejects what is behind them. */
  lemma OneBlack(env: Env, toks: seq<Token>, d: Desc)
    requires GoodEnv(env) && Simple(toks) && NewFieldMask(env, true, [toks], d).Some? && toks != []
    requires Askable(env, d) && Speaking(Steps(env, toks, d))
    ensures Closes(env, d, Steps(env, toks, d))
            <==> forall q :: WalkOf(env, d, q) ==>
                   (Passes(NewFieldMask(env, true, [toks], d), q) <==> !Cuts(Steps(env, toks, d), q))
  {
    hide Closes, SomeCuts, Cuts, WalkOf, Passes, NewFieldMask, Sharp, Clean, Simple, Steps, GoodEnv, Askable, Speaking;
    var p, ps := Steps(env, toks, d), PathsOf(env, [toks], d);
    assert ps == [p];
    CopiesAreClean(ps, p);
    CopiesAreSharp(env, d, ps, p);
    BlackList(env, [toks], d);
    assert Named([toks]) by { assert [toks][0] != []; }
    forall q: seq<Slot>
      ensures SomeCuts(ps, q) <==> Cuts(p, q)
    {
      OneSays(p, q);
    }
  }

  /** A path alone is accepted when its steps name places or are stars that need not be the first. */
  lemma {:induction false} SpeakingIsAccepted(p: Path)
    requires Speaking(p) && Easy(p)
    ensures Accepts([], p)
    decreases |p|
  {
    hide Accepts, Speaking, Easy;
    AcceptsIs([], p);
    if p != [] {
      SpeakingRest(p);
      EasyRest(p);
      EasyFirst(p);
      SpeakingIsAccepted(p[1..]);
      if p[0].Star? {
        assert BehindAll([]) == [];
      } else {
        NamesPlaces(p);
        AcceptsEach([], p);
        assert forall s: Slot :: Behind([], s) == [];
      }
    }
  }

  // ----- what a star forgets -----

  const AtZero: seq<Token> := [IndexL, LitInt(0), IndexR]
  const AtAll: seq<Token> := [IndexL, Any, IndexR]
  const ItsName: seq<Token> := [Dot, LitStr("name")]
  const FirstNode: seq<Token> := Nodes + AtZero
  const EveryNode: seq<Token> := Nodes + AtAll
  const EveryName: seq<Token> := Nodes + (AtAll + ItsName)

  lemma NodesSteps(rest: seq<Token>)
    ensures Steps(Trees, Nodes + rest, Node) == [To([Fd(1)])] + Steps(Trees, rest, ListOf(Node))
  {
    NodesOf(New(Struct, false), rest);
    assert (Nodes + rest)[1..] == Last + rest;
  }

  lemma BracketSteps(tok: Token, rest: seq<Token>)
    requires tok == Any || tok == LitInt(0)
    ensures Steps(Trees, [IndexL, tok, IndexR] + rest, ListOf(Node))
            == [if tok.Any? then Star(false) else To([Ints(0)])] + Steps(Trees, rest, Node)
  {
    var inner := [tok, IndexR] + rest;
    assert ([IndexL, tok, IndexR] + rest)[1..] == inner && inner[1..] == [IndexR] + rest && ([IndexR] + rest)[1..] == rest;
    var none := Group(false, false, [], []);
    var read := if tok.Any? then none.(all := true, star := true) else none.(keys := [Ints(0)]);
    assert ReadGroup(List, IndexR, [IndexR] + rest, false, read) == Some(read.(rest := rest));
    assert KeyOf(List, LitInt(0)) == Some(Ints(0)) && none.keys + [Ints(0)] == [Ints(0)];
    assert ReadGroup(List, IndexR, inner, true, none) == ReadGroup(List, IndexR, [IndexR] + rest, false, read);
  }

  lemma StarSteps()
    ensures Steps(Trees, FirstNode, Node) == [To([Fd(1)]), To([Ints(0)])]
    ensures Steps(Trees, EveryNode, Node) == [To([Fd(1)]), Star(false)]
    ensures Steps(Trees, EveryName, Node) == [To([Fd(1)]), Star(false), To([Fd(2)])]
  {
    hide Steps;
    NodesSteps(AtZero);
    NodesSteps(AtAll);
    NodesSteps(AtAll + ItsName);
    assert AtZero + [] == AtZero && AtAll + [] == AtAll;
    BracketSteps(LitInt(0), []);
    BracketSteps(Any, []);
    BracketSteps(Any, ItsName);
    NameSteps();
  }

  lemma NameSteps()
    ensures Steps(Trees, ItsName, Node) == [To([Fd(2)])] && Steps(Trees, [], Node) == []
  {
    assert FieldOf(Trees["Node"], LitStr("name")) == Some(FieldDesc(2, "name", StringLike));
    assert ItsName[2..] == [];
  }

  lemma OneBehind(s: Slot, tail: Path)
    ensures Behind([[To([s])] + tail], s) == [tail]
  {
    var p := [To([s])] + tail;
    BehindAdd([], p, s);
    assert [] + [p] == [p] && p[1..] == tail;
    TimesMore([], s, s, tail);
    assert [] + [s] == [s];
  }

  lemma TwoBehind(s: Slot, a: Path, b: Path)
    ensures Behind([[To([s])] + a, [To([s])] + b], s) == [a, b]
  {
    hide Behind;
    var p, r := [To([s])] + a, [To([s])] + b;
    OneBehind(s, a);
    OneBehind(s, b);
    BehindAdd([p], r, s);
    BehindAdd([], r, s);
    assert [p] + [r] == [p, r] && [] + [r] == [r];
    NothingBehind(s);
    assert [a] + [b] == [a, b];
  }

  lemma NothingBehind(s: Slot)
    ensures Behind([], s) == [] && BehindAll([]) == []
  {
  }

  /** What the mask for everything holds behind a path that names and one that has a star. */
  lemma StarBehind(a: Path, b: Path)
    requires a != [] && b != [] && a[0].To? && b[0].Star?
    ensures BehindAll([a]) == [] && BehindAll([a, b]) == [b[1..]]
  {
    hide BehindAll;
    NothingBehind(Every);
    BehindAdd([], a, Every);
    BehindAdd([a], b, Every);
    assert [] + [a] == [a] && [a] + [b] == [a, b];
  }

  lemma ElsewhereBehind(s: Slot, t: Slot, tail: Path)
    requires s != t
    ensures Behind([[To([s])] + tail], t) == []
  {
    hide Behind;
    var p := [To([s])] + tail;
    NothingBehind(t);
    BehindAdd([], p, t);
    assert [] + [p] == [p];
  }

  /** A path behind another one that names a place where this one has a star. */
  lemma StarAccepted(s: Slot, a: Path, b: Path)
    requires s != Every && Speaking(a) && Easy(a) && a != [] && a[0].To?
    requires Speaking(b) && Easy(b) && b != [] && b[0].Star?
    ensures Accepts([], [To([s])] + a) && Accepts([[To([s])] + a], [To([s])] + b)
  {
    hide Accepts, Behind, BehindAll, Speaking, Easy;
    var p, r := [To([s])] + a, [To([s])] + b;
    assert Speaking(p) && Easy(p) && Speaking(r) && Easy(r) by { OneMore(s, a); OneMore(s, b); }
    SpeakingIsAccepted(p);
    AcceptsEach([p], r);
    OneBehind(s, a);
    assert r[1..] == b;
    AcceptsIs([a], b);
    StarBehind(a, b);
    SpeakingRest(b);
    EasyRest(b);
    EasyFirst(b);
    SpeakingIsAccepted(b[1..]);
  }

  lemma OneMore(s: Slot, a: Path)
    requires s != Every && Speaking(a) && Easy(a)
    ensures Speaking([To([s])] + a) && Easy([To([s])] + a)
  {
  }

  const ToZero: Path := [To([Ints(0)])]
  const ToNames: Path := [Star(false), To([Fd(2)])]

  lemma ListIsSimple()
    ensures AllSimple([FirstNode, EveryName]) && GoodEnv(Trees) && Named([FirstNode, EveryName])
    ensures RootFirst([FirstNode, EveryName]) && SwitchFt(Trees, Node) == Struct
  {
    assert [FirstNode, EveryName][0] != [];
  }

  lemma BothAccepted()
    ensures NewFieldMask(Trees, false, [FirstNode, EveryName], Node).Some?
    ensures PathsOf(Trees, [FirstNode, EveryName], Node) == [[To([Fd(1)])] + ToZero, [To([Fd(1)])] + ToNames]
  {
    hide Accepts, Steps, NewFieldMask, AllSimple, RootFirst, Named, GoodEnv, Trees, FirstNode, EveryName, Node, SwitchFt;
    StarSteps();
    ListIsSimple();
    var a: Path, b: Path := [To([Fd(1)])] + ToZero, [To([Fd(1)])] + ToNames;
    assert a == [To([Fd(1)]), To([Ints(0)])] && b == [To([Fd(1)]), Star(false), To([Fd(2)])];
    assert [FirstNode, EveryName][1] == EveryName;
    assert PathsOf(Trees, [FirstNode, EveryName], Node) == [a, b];
    AcceptedLists(Trees, false, [FirstNode, EveryName], Node);
    StarAccepted(Fd(1), ToZero, ToNames);
    TwoInOrder(a, b);
  }

  lemma TwoInOrder(a: Path, b: Path)
    requires Accepts([], a) && Accepts([a], b)
    ensures InOrder([], [a, b])
  {
    hide Accepts;
    assert [a, b][1..] == [b] && [] + [a] == [a];
    assert |[b][1..]| == 0;
    assert InOrder([a], [b]);
  }

  /** The mask for two paths to a place, where the first one names and the second has a star. */
  lemma ForgetsAt(env: Env, m: Mask, d: Desc, s: Slot, a: Path, b: Path, t: Slot, u: Slot, v: Slot)
    requires For(env, m, d, [[To([s])] + a, [To([s])] + b], false) && s != Every && !Unwrap(DescAt(env, d, s)).StructOf?
    requires SwitchFt(env, DescAt(env, d, s)) != Invalid && SwitchFt(env, d) != Invalid
    requires a != [] && a[0].To? && b != [] && b[0].Star? && b[1..] == [To([u])] && u != v && v != Every
    ensures !Passes(Some(m), [s, t, v])
  {
    hide For, Behind, BehindAll, Passes, KidDesc, ElemDesc, Whole;
    var ps: seq<Path> := [[To([s])] + a, [To([s])] + b];
    NamedNotWhole(ps);
    TwoBehind(s, a, b);
    RestIs(ps, s);
    NotWhole(ps);
    ForBelow(env, m, d, ps, false, s);
    var k, e := m.kids[s], DescAt(env, d, s);
    StarBehind(a, b);
    RestIs([a, b], Every);
    ForBelow(env, k, e, [a, b], false, Every);
    SomeStar(a, b);
    var k', e' := k.kids[Every], DescAt(env, e, Every);
    ElementIsSupported(env, k, e, [a, b], false);
    var left: Path := [To([u])];
    assert left == [To([u])] + [];
    ElsewhereBehind(u, v, []);
    RestIs([left], v);
    NamedNotWhole([left]);
    ForBelow(env, k', e', [left], false, v);
    var q := [s, t, v];
    assert q[1..] == [t, v] && q[1..][1..] == [v] && [s] + [t, v] == q;
    Rejects(k', v);
    AllStep(k, [t, v]);
    assert [t, v][1..] == [v];
    NamedStep(m, s, [t, v]);
  }

  lemma NamedNotWhole(ps: seq<Path>)
    requires forall i :: 0 <= i < |ps| ==> ps[i] != [] && ps[i][0].To?
    ensures !Whole(ps)
  {
  }

  lemma SomeStar(a: Path, b: Path)
    requires b != [] && b[0].Star?
    ensures Stars([a, b]) && Whole([a, b])
  {
    assert b in [a, b];
  }

  lemma Rejects(m: Mask, s: Slot)
    requires m.typ != Invalid && !m.isAll && !m.isBlack && s !in m.kids
    ensures !Passes(Some(m), [s])
  {
  }

  /** A white list of `$.nodes[0]` and `$.nodes[*].name`, in this order, rejects a walk that goes
      through the end of the first path: the star forgets it. */
  lemma StarForgets()
    ensures var m := NewFieldMask(Trees, false, [FirstNode, EveryName], Node);
            m.Some? && !Passes(m, [Fd(1), Ints(0), Fd(1)])
    ensures Covers(Steps(Trees, FirstNode, Node), [Fd(1), Ints(0), Fd(1)])
  {
    hide Steps, NewFieldMask, For, Passes, AllSimple, GoodEnv, Trees, FirstNode, EveryName, Named, Node, KidDesc, ElemDesc;
    StarSteps();
    BothAccepted();
    ListIsSimple();
    MadeAtRoot(Trees, false, [FirstNode, EveryName], Node);
    NodesDesc();
    ForgetsAt(Trees, NewFieldMask(Trees, false, [FirstNode, EveryName], Node).value, Node, Fd(1), ToZero, ToNames,
              Ints(0), Fd(2), Fd(1));
  }

  lemma NodesDesc()
    ensures DescAt(Trees, Node, Fd(1)) == ListOf(Node)
  {
  }

  /** A black list of `$.nodes[*]` passes the nodes, and rejects what is asked of them. */
  lemma StarPassesNodes(s: Slot)
    requires s == Fd(1) || s == Fd(2)
    ensures var m := NewFieldMask(Trees, true, [EveryNode], Node);
            m.Some? && Passes(m, [Fd(1), Ints(0)]) && !Passes(m, [Fd(1), Ints(0), s])
    ensures Covers(Steps(Trees, EveryNode, Node), [Fd(1), Ints(0)])
  {
    hide Steps, NewFieldMask, Passes, AllSimple, Trees, EveryNode, Node, Closes, WalkOf, Askable, GoodEnv, SwitchFt, RootFirst;
    StarSteps();
    var p: Path := [To([Fd(1)]), Star(false)];
    assert PathsOf(Trees, [EveryNode], Node) == [p];
    EveryNodeIs(p);
    AcceptedLists(Trees, true, [EveryNode], Node);
    SpeakingIsAccepted(p);
    OneInOrder(p);
    OneBlack(Trees, EveryNode, Node);
    WalksToNodes(s);
    assert Cuts(p, [Fd(1), Ints(0), s]) && !Cuts(p, [Fd(1), Ints(0)]);
  }

  lemma OneInOrder(a: Path)
    requires Accepts([], a)
    ensures InOrder([], [a])
  {
    hide Accepts;
    assert |[a][1..]| == 0;
  }

  lemma EveryNodeIs(p: Path)
    requires p == [To([Fd(1)]), Star(false)]
    ensures AllSimple([EveryNode]) && Simple(EveryNode) && GoodEnv(Trees) && RootFirst([EveryNode]) && SwitchFt(Trees, Node) == Struct
    ensures Askable(Trees, Node) && Closes(Trees, Node, p) && EveryNode != []
  {
    assert p[1..] == [Star(false)] && p[1..][1..] == [];
    assert Closes(Trees, Node, []);
    assert Closes(Trees, ListOf(Node), p[1..]);
  }

  lemma WalksToNodes(s: Slot)
    requires s == Fd(1) || s == Fd(2)
    ensures WalkOf(Trees, Node, [Fd(1), Ints(0)]) && WalkOf(Trees, Node, [Fd(1), Ints(0), s])
  {
    var q := [Fd(1), Ints(0), s];
    assert q[1..] == [Ints(0), s] && q[1..][1..] == [s];
    assert [s][1..] == [];
    assert WalkOf(Trees, Node, [s]);
    assert WalkOf(Trees, ListOf(Node), q[1..]);
    var r := [Fd(1), Ints(0)];
    assert r[1..] == [Ints(0)] && r[1..][1..] == [];
    assert WalkOf(Trees, ListOf(Node), r[1..]);
  }
}
