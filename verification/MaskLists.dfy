/** Which lists of paths are accepted, and lists for which a mask does not do what the paths
    say. */
module MaskLists {
  import opened Wrappers
  import opened MaskPaths
  import opened MaskTree
  import opened MaskTyped
  import opened MaskLaws
  import opened MaskFit
  import opened MaskAnswers

  // ----- acceptance -----

  /** The first path that is not empty begins at the root. */
  predicate RootFirst(paths: seq<seq<Token>>) {
    paths == [] || if paths[0] == [] then RootFirst(paths[1..]) else paths[0][0] == Root
  }

  predicate OnlyRoots(toks: seq<Token>) {
    forall i :: 0 <= i < |toks| ==> toks[i] == Root
  }

  /** Every path is accepted behind the ones before it. */
  ghost predicate InOrder(ps: seq<Path>, qs: seq<Path>)
    decreases |qs|
  {
    qs == [] || (Accepts(ps, qs[0]) && InOrder(ps + [qs[0]], qs[1..]))
  }

  lemma {:induction false} AddAccepts(env: Env, m: Mask, paths: seq<seq<Token>>, d: Desc, ps: seq<Path>, black: bool)
    requires GoodEnv(env) && AllSimple(paths) && For(env, m, d, ps, black)
    ensures AddPaths(env, m, paths, d).Some? <==> InOrder(ps, PathsOf(env, paths, d))
    decreases |paths|
  {
    hide For, AddPath, Steps, Accepts;
    if paths != [] {
      AddFor(env, m, paths[0], d, ps, black);
      var r := AddPath(env, m, paths[0], d);
      if r.Some? {
        AddAccepts(env, r.value, paths[1..], d, ps + [Steps(env, paths[0], d)], black);
      }
    }
  }

  lemma {:induction false} RootAccepts(env: Env, m: Mask, paths: seq<seq<Token>>, d: Desc, ps: seq<Path>, black: bool)
    requires GoodEnv(env) && AllSimple(paths) && SwitchFt(env, d) != Invalid
    requires m.typ == Invalid && AtRoot(env, m, d, ps, black)
    ensures AddPaths(env, m, paths, d).Some? <==> RootFirst(paths) && InOrder(ps, PathsOf(env, paths, d))
    decreases |paths|
  {
    hide For, AtRoot, Accepts, SwitchFt, AddPath, Steps, Simple;
    if paths != [] {
      var toks := paths[0];
      if toks == [] {
        EndAccepts(env, m, d, ps);
        EndAtRoot(env, m, d, ps, black);
        RootAccepts(env, m.(isAll := true), paths[1..], d, ps + [[]], black);
      } else if toks[0] == Root {
        var m' := m.(typ := SwitchFt(env, d));
        StartFor(env, m, d, ps, black);
        FromRoot(env, m, paths, d);
        AddAccepts(env, m', paths, d, ps, black);
      } else {
        NoRoot(env, m, toks, d);
      }
    }
  }

  lemma EndAccepts(env: Env, m: Mask, d: Desc, ps: seq<Path>)
    ensures AddPath(env, m, [], d) == Some(m.(isAll := true)) && Steps(env, [], d) == [] && Accepts(ps, [])
  {
  }

  lemma FromRoot(env: Env, m: Mask, paths: seq<seq<Token>>, d: Desc)
    requires paths != [] && paths[0] != [] && paths[0][0] == Root
    ensures AddPaths(env, m, paths, d) == AddPaths(env, m.(typ := SwitchFt(env, d)), paths, d)
  {
    var m' := m.(typ := SwitchFt(env, d));
    assert m'.(typ := SwitchFt(env, d)) == m';
    assert AddPath(env, m, paths[0], d) == AddPath(env, m', paths[0][1..], d) == AddPath(env, m', paths[0], d);
  }

  lemma NoRoot(env: Env, m: Mask, toks: seq<Token>, d: Desc)
    requires m.typ == Invalid && toks != [] && toks[0] != Root
    ensures AddPath(env, m, toks, d).None?
  {
    assert AddField(env, m, toks[1..], d).None? && AddIndex(env, m, toks[1..], d).None?;
    assert AddKey(env, m, toks[1..], d).None?;
  }

  lemma {:induction false} RootOnly(env: Env, m: Mask, toks: seq<Token>, d: Desc)
    requires m.typ == Invalid && SwitchFt(env, d) == Invalid
    ensures AddPath(env, m, toks, d).Some? <==> OnlyRoots(toks)
    ensures OnlyRoots(toks) ==> AddPath(env, m, toks, d) == Some(m.(isAll := true))
    decreases |toks|
  {
    hide AddField, AddIndex, AddKey, SwitchFt;
    if toks != [] {
      if toks[0] == Root {
        assert m.(typ := SwitchFt(env, d)) == m;
        RootOnly(env, m, toks[1..], d);
        assert OnlyRoots(toks) <==> OnlyRoots(toks[1..]) by {
          assert forall i :: 0 < i < |toks| ==> toks[i] == toks[1..][i - 1];
        }
      } else {
        NoRoot(env, m, toks, d);
      }
    }
  }

  lemma {:induction false} RootsAccept(env: Env, m: Mask, paths: seq<seq<Token>>, d: Desc)
    requires m.typ == Invalid && SwitchFt(env, d) == Invalid
    ensures AddPaths(env, m, paths, d).Some? <==> forall i :: 0 <= i < |paths| ==> OnlyRoots(paths[i])
    decreases |paths|
  {
    hide AddPath, OnlyRoots, SwitchFt;
    if paths != [] {
      RootOnly(env, m, paths[0], d);
      if OnlyRoots(paths[0]) {
        RootsAccept(env, m.(isAll := true), paths[1..], d);
        assert forall i :: 0 < i < |paths| ==> paths[i] == paths[1..][i - 1];
        assert forall i :: 0 <= i < |paths[1..]| ==> paths[1..][i] == paths[i + 1];
      }
    }
  }

  /** A list of paths is accepted exactly when the root is named first and every
      path is accepted behind the ones before it.  At a root of a type that masks do not
      support, nothing but the root is accepted. */
  lemma AcceptedLists(env: Env, black: bool, paths: seq<seq<Token>>, d: Desc)
    requires GoodEnv(env) && AllSimple(paths)
    ensures SwitchFt(env, d) != Invalid ==>
              (NewFieldMask(env, black, paths, d).Some? <==> RootFirst(paths) && InOrder([], PathsOf(env, paths, d)))
    ensures SwitchFt(env, d) == Invalid ==>
              (NewFieldMask(env, black, paths, d).Some? <==> forall i :: 0 <= i < |paths| ==> OnlyRoots(paths[i]))
  {
    var m := New(Invalid, black);
    if SwitchFt(env, d) != Invalid {
      RootAccepts(env, m, paths, d, [], black);
    } else {
      RootsAccept(env, m, paths, d);
    }
  }

  // ----- paths that name something in every bracket -----

  /** A path of which every step names some place. */
  predicate Naming(p: Path) {
    forall i :: 0 <= i < |p| ==> p[i].To? && p[i].places != [] && Every !in p[i].places
  }

  predicate AllNaming(ps: seq<Path>) {
    forall p :: p in ps ==> Naming(p)
  }

  predicate Meet(a: Step, b: Step) {
    a.To? && b.To? && exists s: Slot :: s in a.places && s in b.places
  }

  /** Some walk goes through the end of `r`, or to a star of `r`, and on along `p`. */
  ghost predicate Stops(r: Path, p: Path) {
    exists k: nat :: StopsAt(r, p, k)
  }

  predicate StopsAt(r: Path, p: Path, k: nat) {
    k <= |r| && k < |p| && (k == |r| || r[k].Star?) && forall i :: 0 <= i < k ==> Meet(r[i], p[i])
  }

  /** An earlier path ends or has a star on the way. */
  ghost predicate Blocked(ps: seq<Path>, p: Path) {
    exists r :: r in ps && Stops(r, p)
  }

  lemma StopsRest(r: Path, p: Path)
    requires p != []
    ensures Stops(r, p) <==> r == [] || r[0].Star? || (Meet(r[0], p[0]) && Stops(r[1..], p[1..]))
  {
    if r == [] || r[0].Star? {
      assert StopsAt(r, p, 0);
    } else if Meet(r[0], p[0]) && Stops(r[1..], p[1..]) {
      var k: nat :| StopsAt(r[1..], p[1..], k);
      forall i | 0 <= i < k + 1
        ensures Meet(r[i], p[i])
      {
        if i > 0 {
          assert Meet(r[1..][i - 1], p[1..][i - 1]);
        }
      }
      assert StopsAt(r, p, k + 1);
    }
    if r != [] && !r[0].Star? && Stops(r, p) {
      var k: nat :| StopsAt(r, p, k);
      forall i | 0 <= i < k - 1
        ensures Meet(r[1..][i], p[1..][i])
      {
        assert Meet(r[i + 1], p[i + 1]);
      }
      assert StopsAt(r[1..], p[1..], k - 1);
    }
  }

  lemma BlockedStep(ps: seq<Path>, p: Path)
    requires p != [] && p[0].To?
    ensures Blocked(ps, p) <==> Whole(ps) || exists s: Slot :: s in p[0].places && Blocked(Behind(ps, s), p[1..])
  {
    hide Stops, Behind;
    if Blocked(ps, p) {
      var r: Path :| r in ps && Stops(r, p);
      StopsRest(r, p);
      if r != [] && !r[0].Star? {
        var s: Slot :| s in r[0].places && s in p[0].places;
        BehindHas(ps, s, r[1..]);
        assert r[1..] in Behind(ps, s);
      }
    }
    if Whole(ps) {
      var r: Path :| r in ps && (r == [] || r[0].Star?);
      StopsRest(r, p);
    }
    if s: Slot :| s in p[0].places && Blocked(Behind(ps, s), p[1..]) {
      var t :| t in Behind(ps, s) && Stops(t, p[1..]);
      BehindHas(ps, s, t);
      var r: Path :| r in ps && r != [] && r[0].To? && s in r[0].places && r[1..] == t;
      StopsRest(r, p);
    }
  }

  /** When every bracket of a path names something, it is accepted exactly when no path that
      is there ends or has a star on its way. */
  lemma {:induction false} AcceptsNaming(ps: seq<Path>, p: Path)
    requires Naming(p)
    ensures Accepts(ps, p) <==> !Blocked(ps, p)
    decreases |p|
  {
    hide Blocked, Accepts, Whole;
    AcceptsIs(ps, p);
    if p == [] {
      NotBlocked(ps);
    } else {
      BlockedStep(ps, p);
      AcceptsEach(ps, p);
      forall s | s in p[0].places
        ensures Accepts(Behind(ps, s), p[1..]) <==> !Blocked(Behind(ps, s), p[1..])
      {
        AcceptsNaming(Behind(ps, s), p[1..]);
      }
    }
  }

  lemma NotBlocked(ps: seq<Path>)
    ensures !Blocked(ps, [])
  {
  }

  /** All places that a path goes to are of types that masks support. */
  predicate Heeded(env: Env, d: Desc, p: Path)
    decreases |p|
  {
    p == []
    || (match p[0]
        case To(places) => forall s :: s in places ==> Supported(env, d, s) && Heeded(env, DescAt(env, d, s), p[1..])
        case Star(_) => Unwrap(d).StructOf? || Heeded(env, DescAt(env, d, Every), p[1..])
        case _ => true)
  }

  predicate AllHeeded(env: Env, d: Desc, ps: seq<Path>) {
    forall p :: p in ps ==> Heeded(env, d, p)
  }

  lemma HeededBelow(env: Env, d: Desc, ps: seq<Path>, s: Slot)
    requires AllHeeded(env, d, ps) && Behind(ps, s) != []
    ensures Supported(env, d, s) && AllHeeded(env, DescAt(env, d, s), Behind(ps, s))
  {
    forall r | r in Behind(ps, s)
      ensures Supported(env, d, s) && Heeded(env, DescAt(env, d, s), r)
    {
      BehindHas(ps, s, r);
      var p: Path :| p in ps && p != [] && p[0].To? && s in p[0].places && p[1..] == r;
      assert Heeded(env, d, p);
    }
    assert Behind(ps, s)[0] in Behind(ps, s);
  }

  lemma NamingHasNoStars(ps: seq<Path>)
    requires AllNaming(ps)
    ensures !Stars(ps) && (Whole(ps) <==> [] in ps)
  {
    forall p: Path | p in ps && p != []
      ensures p[0].To?
    {
      assert Naming(p);
    }
  }

  /** No star disturbs a list when every bracket names something. */
  lemma {:induction false} NamingIsClean(ps: seq<Path>)
    requires AllNaming(ps)
    ensures Clean(ps)
    decreases Longest(ps)
  {
    hide Behind, Stars;
    NamingHasNoStars(ps);
    forall s: Slot | s != Every && Behind(ps, s) != []
      ensures Clean(Behind(ps, s))
    {
      BehindIsShorter(ps, s);
      NamingBelow(ps, s);
      NamingIsClean(Behind(ps, s));
    }
  }

  /** When every bracket of a list names something and masks support all types on the way,
      nothing is taken back. */
  lemma {:induction false} NamingTakesNothing(env: Env, d: Desc, ps: seq<Path>)
    requires AllNaming(ps) && AllHeeded(env, d, ps)
    ensures NothingTaken(env, d, ps) && BehindAll(ps) == [] && Clean(ps)
    decreases Longest(ps)
  {
    hide Stars, Behind, Clean, Heeded;
    NoBrackets(ps);
    NamingHasNoStars(ps);
    NamingIsClean(ps);
    forall s: Slot | s != Every && Behind(ps, s) != []
      ensures Supported(env, d, s) && NothingTaken(env, DescAt(env, d, s), Behind(ps, s))
    {
      NamingBelow(ps, s);
      HeededBelow(env, d, ps, s);
      BehindIsShorter(ps, s);
      NamingTakesNothing(env, DescAt(env, d, s), Behind(ps, s));
    }
  }

  lemma {:induction false} NoBrackets(ps: seq<Path>)
    requires AllNaming(ps)
    ensures BehindAll(ps) == []
    decreases |ps|
  {
    if ps != [] {
      var most, last := ps[..|ps| - 1], ps[|ps| - 1];
      assert ps == most + [last];
      assert last in ps && Naming(last);
      forall p | p in most
        ensures Naming(p)
      {
        assert p in ps;
      }
      NoBrackets(most);
    }
  }

  lemma NamingBelow(ps: seq<Path>, s: Slot)
    requires AllNaming(ps)
    ensures AllNaming(Behind(ps, s))
  {
    forall r | r in Behind(ps, s)
      ensures Naming(r)
    {
      BehindHas(ps, s, r);
      var p: Path :| p in ps && p != [] && p[0].To? && s in p[0].places && p[1..] == r;
      assert Naming(p);
      assert forall i :: 0 <= i < |r| ==> r[i] == p[i + 1];
    }
  }

  /** A path that names places goes on to each of them. */
  lemma NamingGoesOn(ps: seq<Path>, p: Path)
    requires p in ps && Naming(p) && p != []
    ensures GoesOn(ps) && exists s: Slot :: s != Every && s in p[0].places && Behind(ps, s) != []
  {
    var s := p[0].places[0];
    assert s in p[0].places;
    BehindHas(ps, s, p[1..]);
    assert p[1..] in Behind(ps, s);
    RestIs(ps, s);
  }

  ghost predicate PrefixFree(ps: seq<Path>) {
    forall p, p' :: p in ps && p' in ps ==> !Stops(p, p')
  }

  lemma FreeBelow(ps: seq<Path>)
    requires [] !in ps && AllNaming(ps)
    ensures PrefixFree(ps) <==> forall s: Slot :: s != Every && Behind(ps, s) != [] ==> PrefixFree(Behind(ps, s))
  {
    hide Behind, Stops;
    if PrefixFree(ps) {
      forall s: Slot, r: Path, r': Path | r in Behind(ps, s) && r' in Behind(ps, s)
        ensures !Stops(r, r')
      {
        BehindHas(ps, s, r);
        BehindHas(ps, s, r');
        var p: Path :| p in ps && p != [] && p[0].To? && s in p[0].places && p[1..] == r;
        var p': Path :| p' in ps && p' != [] && p'[0].To? && s in p'[0].places && p'[1..] == r';
        StopsRest(p, p');
      }
    } else {
      var p: Path, p': Path :| p in ps && p' in ps && Stops(p, p');
      assert p' != [] by { NothingStops(p); }
      StopsRest(p, p');
      assert Naming(p);
      var s: Slot :| s in p[0].places && s in p'[0].places;
      BehindHas(ps, s, p[1..]);
      BehindHas(ps, s, p'[1..]);
    }
  }

  lemma NothingStops(p: Path)
    ensures !Stops(p, [])
  {
  }

  /** When every bracket of a list names something and masks support all types on the way, a
      black list does what its paths say if and only if no path ends on the way of another
      one. */
  lemma {:induction false} SharpNaming(env: Env, d: Desc, ps: seq<Path>)
    requires AllNaming(ps) && AllHeeded(env, d, ps)
    ensures Sharp(env, d, ps) <==> PrefixFree(ps)
    decreases Longest(ps)
  {
    hide Behind, GoesOn, PrefixFree, Stops, Stars, Heeded;
    NamingHasNoStars(ps);
    if [] in ps {
      SharpEnded(ps);
    } else {
      FreeBelow(ps);
      forall s: Slot | s != Every && Behind(ps, s) != []
        ensures Supported(env, d, s) && ([] in Behind(ps, s) || GoesOn(Behind(ps, s)))
        ensures Sharp(env, DescAt(env, d, s), Behind(ps, s)) <==> PrefixFree(Behind(ps, s))
      {
        BehindIsShorter(ps, s);
        NamingBelow(ps, s);
        HeededBelow(env, d, ps, s);
        SharpNaming(env, DescAt(env, d, s), Behind(ps, s));
        var r := Behind(ps, s)[0];
        assert r in Behind(ps, s);
        if r != [] {
          NamingGoesOn(Behind(ps, s), r);
        }
      }
      if PrefixFree(ps) {
        SharpIf(env, d, ps);
      }
      if Sharp(env, d, ps) {
        forall s: Slot | s != Every && Behind(ps, s) != []
          ensures PrefixFree(Behind(ps, s))
        {
          SharpBelow(env, d, ps, s);
        }
      }
    }
  }

  lemma SharpIf(env: Env, d: Desc, ps: seq<Path>)
    requires !Whole(ps)
    requires forall s: Slot :: s != Every && Behind(ps, s) != [] ==>
               && ([] in Behind(ps, s) || GoesOn(Behind(ps, s)))
               && Supported(env, d, s) && Sharp(env, DescAt(env, d, s), Behind(ps, s))
    ensures Sharp(env, d, ps)
  {
    hide Behind, GoesOn, Stars;
  }

  lemma SharpBelow(env: Env, d: Desc, ps: seq<Path>, s: Slot)
    requires !Whole(ps) && Sharp(env, d, ps) && s != Every && Behind(ps, s) != []
    ensures Supported(env, d, s) && Sharp(env, DescAt(env, d, s), Behind(ps, s))
    ensures [] in Behind(ps, s) || GoesOn(Behind(ps, s))
  {
    hide Behind, GoesOn, Stars;
  }

  lemma SharpEnded(ps: seq<Path>)
    requires [] in ps && AllNaming(ps)
    ensures !GoesOn(ps) <==> PrefixFree(ps)
  {
    if p :| p in ps && p != [] {
      NamingGoesOn(ps, p);
      NothingStops([]);
      StopsRest([], p);
    } else {
      forall i | 0 <= i < |ps|
        ensures ps[i] == []
      {
        assert ps[i] in ps;
      }
      forall p | p in ps
        ensures !Stops(p, [])
      {
        NothingStops(p);
      }
      forall s: Slot
        ensures Rest(ps, s) == []
      {
        OnlyEnds(ps, s);
      }
    }
  }

  // ----- lists that are taken back or not sharp -----

  const Trees: Env :=
    map["Node" := [FieldDesc(1, "nodes", ListOf(StructOf("Node"))), FieldDesc(2, "name", StringLike)]]

  const Node: Desc := StructOf("Node")
  const Last: seq<Token> := [Dot, LitStr("nodes")]
  const Nodes: seq<Token> := [Root] + Last
  const Loose: seq<Token> := [Elem, IndexR] + Last
  const Part: seq<Token> := [Root, Dot, LitStr("nodes"), IndexL] + Loose
  const Stub: seq<Token> := [Root, Dot, LitStr("nodes"), IndexL, Elem, IndexR]

  /** What a path to the nodes leaves below a struct. */
  lemma NodesOf(m: Mask, rest: seq<Token>)
    requires m.typ == Struct && !m.isAll
    ensures FieldOf(Trees["Node"], LitStr("nodes")) == Some(FieldDesc(1, "nodes", ListOf(Node)))
    ensures AddPath(Trees, m, Last + rest, Node) == Put(m, Fd(1), AddPath(Trees, Make(m, Fd(1), List), rest, ListOf(Node)))
    ensures Steps(Trees, Last + rest, Node) == [To([Fd(1)])] + Steps(Trees, rest, ListOf(Node))
  {
    var toks := Last + rest;
    assert toks[1..][0] == LitStr("nodes") && toks[1..][1..] == rest && toks[2..] == rest;
    assert AddPath(Trees, m, toks, Node) == AddField(Trees, m, toks[1..], Node);
  }

  const AllNodes: Mask := Mask(true, false, List, map[])
  const One: Mask := Mask(false, false, Struct, map[Fd(1) := AllNodes])
  const StarNodes: Mask := Mask(true, false, List, map[Every := One])
  const Two: Mask := Mask(false, false, Struct, map[Fd(1) := StarNodes])

  lemma FirstPath()
    ensures AddPath(Trees, New(Struct, false), Last, Node) == Some(One)
    ensures AddPath(Trees, New(Invalid, false), Nodes, Node) == Some(One)
    ensures Steps(Trees, Nodes, Node) == [To([Fd(1)])]
  {
    NodesOf(New(Struct, false), []);
    assert Last + [] == Last && Nodes[1..] == Last;
    assert AddPath(Trees, Make(New(Struct, false), Fd(1), List), [], ListOf(Node)) == Some(AllNodes);
  }

  lemma SecondPath()
    ensures AddPath(Trees, One, Part, Node) == Some(Two)
  {
    FirstPath();
    assert ReadGroup(List, IndexR, Loose, true, Group(true, false, [], [])) == Some(Group(true, false, [], Last)) by {
      assert Loose[1..] == [IndexR] + Last && Loose[1..][1..] == Last;
    }
    assert ([IndexL] + Loose)[1..] == Loose;
    assert AddPath(Trees, AllNodes, [IndexL] + Loose, ListOf(Node)) == AddIndex(Trees, AllNodes, Loose, ListOf(Node));
    assert AddIndex(Trees, AllNodes, Loose, ListOf(Node)) == Put(AllNodes, Every, Some(One)) == Some(StarNodes);
    NodesOf(One, [IndexL] + Loose);
    assert One.kids[Fd(1) := StarNodes] == Two.kids;
    assert Part[1..] == Last + ([IndexL] + Loose);
    assert One.(typ := Struct) == One;
  }

  lemma TwoAnswers()
    ensures !Passes(Some(Two), [Fd(1), Ints(3), Fd(2)])
  {
    var q := [Fd(1), Ints(3), Fd(2)];
    assert q[1..] == [Ints(3), Fd(2)] && q[1..][1..] == [Fd(2)];
    assert !Passes(Some(One), [Fd(2)]);
    assert !Passes(Some(StarNodes), q[1..]);
  }

  /** A white list of `$.nodes` and `$.nodes[,].nodes`, in this order, rejects a walk that the
      first path is a prefix of. */
  lemma EmptyBracketTakesBack()
    ensures var m := NewFieldMask(Trees, false, [Nodes, Part], Node);
            m.Some? && !Passes(m, [Fd(1), Ints(3), Fd(2)])
            && Covers(Steps(Trees, Nodes, Node), [Fd(1), Ints(3), Fd(2)])
  {
    hide AddPath, Passes, Steps;
    FirstPath();
    SecondPath();
    TwoAnswers();
    assert [Nodes, Part][1..] == [Part] && [Part][1..] == [];
    assert AddPaths(Trees, Two, [], Node) == Some(Two);
    assert AddPaths(Trees, One, [Part], Node) == Some(Two);
    assert AddPaths(Trees, New(Invalid, false), [Nodes, Part], Node) == Some(Two);
  }

  const Empty: Mask := Mask(false, true, List, map[])
  const Stubbed: Mask := Mask(false, true, Struct, map[Fd(1) := Empty])

  lemma StubPath()
    ensures AddPath(Trees, New(Invalid, true), Stub, Node) == Some(Stubbed)
    ensures Steps(Trees, Stub, Node) == [To([Fd(1)]), Unnamed(false)]
  {
    var end := [IndexL, Elem, IndexR];
    assert Stub[1..] == Last + end && end[1..] == [Elem, IndexR];
    assert ReadGroup(List, IndexR, [Elem, IndexR], true, Group(false, false, [], [])) == Some(Group(false, false, [], [])) by {
      assert [Elem, IndexR][1..] == [IndexR] && [IndexR][1..] == [];
    }
    assert AddPath(Trees, Empty, end, ListOf(Node)) == AddIndex(Trees, Empty, end[1..], ListOf(Node)) == Some(Empty);
    assert Steps(Trees, end, ListOf(Node)) == [Unnamed(false)];
    NodesOf(New(Struct, true), end);
    assert New(Struct, true).kids[Fd(1) := Empty] == Stubbed.kids;
  }

  /** A black list of `$.nodes[,]` alone rejects the nodes, although the path covers nothing. */
  lemma EmptyBracketRejects()
    ensures var m := NewFieldMask(Trees, true, [Stub], Node);
            m.Some? && !Passes(m, [Fd(1)]) && !Covers(Steps(Trees, Stub, Node), [Fd(1)])
  {
    hide AddPath, Steps;
    StubPath();
    assert [Stub][1..] == [];
    assert AddPaths(Trees, Stubbed, [], Node) == Some(Stubbed);
    assert AddPaths(Trees, New(Invalid, true), [Stub], Node) == Some(Stubbed);
  }

  const Choices: Env := map["Call" := [FieldDesc(1, "result", Unsupported)]]
  const Call: Desc := StructOf("Call")
  const Result: seq<Token> := [Root, Dot, LitStr("result")]
  const Ended: Mask := Mask(true, false, Invalid, map[])

  /** A white list of `$.result`, where the type of the field is a union, rejects the field. */
  lemma UnionIsRejected()
    ensures var m := NewFieldMask(Choices, false, [Result], Call);
            m.Some? && !Passes(m, [Fd(1)]) && Covers(Steps(Choices, Result, Call), [Fd(1)])
  {
    var m, end := New(Struct, false), Mask(false, false, Struct, map[Fd(1) := Ended]);
    assert FieldOf(Choices["Call"], LitStr("result")) == Some(FieldDesc(1, "result", Unsupported));
    assert Result[1..] == [Dot, LitStr("result")] && Result[1..][1..] == [LitStr("result")];
    assert [LitStr("result")][1..] == [] && Result[1..][2..] == [];
    assert AddPath(Choices, Make(m, Fd(1), Invalid), [], Unsupported) == Some(Ended);
    assert AddField(Choices, m, [LitStr("result")], Call) == Put(m, Fd(1), Some(Ended)) == Some(end);
    assert AddPath(Choices, New(Invalid, false), Result, Call) == AddPath(Choices, m, Result[1..], Call) == Some(end);
    assert Steps(Choices, Result[1..], Call) == [To([Fd(1)])];
    hide AddPath;
    assert [Result][1..] == [] && AddPaths(Choices, end, [], Call) == Some(end);
  }
}
