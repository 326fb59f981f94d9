/** The white list and the black list: what a mask made from paths answers, in terms of the
    paths, and exactly when that is what the paths say. */
module MaskAnswers {
  import opened Wrappers
  import opened MaskPaths
  import opened MaskTree
  import opened MaskTyped
  import opened MaskLaws
  import opened MaskFit

  // ----- what the paths say -----

  /** Some path agrees with the walk as far as both go. */
  ghost predicate Says(ps: seq<Path>, q: seq<Slot>) {
    exists p :: p in ps && Compat(p, q)
  }

  /** The walk goes through the end of some path, and on where the path ends with a star. */
  ghost predicate SomeCuts(ps: seq<Path>, q: seq<Slot>) {
    exists p :: p in ps && Cuts(p, q)
  }

  /** Every path has a star here. */
  predicate OnlyStars(ps: seq<Path>) {
    forall i :: 0 <= i < |ps| ==> ps[i] != [] && ps[i][0].Star?
  }

  lemma {:induction false} BehindHas(ps: seq<Path>, s: Slot, r: Path)
    ensures r in Behind(ps, s) <==> exists p: Path :: p in ps && p != [] && p[0].To? && s in p[0].places && p[1..] == r
    decreases |ps|
  {
    if ps != [] {
      var most, last := ps[..|ps| - 1], ps[|ps| - 1];
      assert ps == most + [last];
      BehindHas(most, s, r);
      assert r in BehindOne(last, s) <==> last != [] && last[0].To? && s in last[0].places && last[1..] == r by {
        if last != [] && last[0].To? && s in last[0].places {
          assert Times(last[0].places, s, last[1..])[0] in Times(last[0].places, s, last[1..]);
        }
      }
    }
  }

  lemma {:induction false} BehindStars(ps: seq<Path>)
    requires OnlyStars(ps)
    ensures |BehindAll(ps)| == |ps| && forall i :: 0 <= i < |ps| ==> BehindAll(ps)[i] == ps[i][1..]
    decreases |ps|
  {
    if ps != [] {
      var most, last := ps[..|ps| - 1], ps[|ps| - 1];
      BehindStars(most);
      StarGoesOn(ps);
      hide BehindAll;
      forall i | 0 <= i < |ps|
        ensures BehindAll(ps)[i] == ps[i][1..]
      {
        if i < |most| { assert most[i] == ps[i]; }
      }
    }
  }

  lemma StarGoesOn(ps: seq<Path>)
    requires ps != [] && ps[|ps| - 1] != [] && ps[|ps| - 1][0].Star?
    ensures BehindAll(ps) == BehindAll(ps[..|ps| - 1]) + [ps[|ps| - 1][1..]]
  {
  }

  lemma CompatRest(p: Path, q: seq<Slot>)
    requires q != [] && p != []
    ensures Compat(p, q) <==> Takes(p[0], q[0]) && Compat(p[1..], q[1..])
  {
    if Takes(p[0], q[0]) && Compat(p[1..], q[1..]) {
      forall i | 0 <= i < |p| && i < |q|
        ensures Takes(p[i], q[i])
      {
        if i > 0 {
          assert Takes(p[1..][i - 1], q[1..][i - 1]);
        }
      }
    }
    if Compat(p, q) {
      forall i | 0 <= i < |p[1..]| && i < |q[1..]|
        ensures Takes(p[1..][i], q[1..][i])
      {
        assert Takes(p[i + 1], q[i + 1]);
      }
    }
  }

  lemma CutsRest(p: Path, q: seq<Slot>)
    requires q != [] && p != []
    ensures Cuts(p, q) <==>
            Takes(p[0], q[0]) && if |p| == 1 && |q| == 1 then p[0].To? else Cuts(p[1..], q[1..])
  {
    hide Compat;
    CompatRest(p, q);
    assert |p| > 1 ==> p[1..][|p| - 2] == p[|p| - 1];
    assert |p| == 1 ==> Compat(p[1..], q[1..]) by { NothingAgrees(q[1..]); }
  }

  lemma NothingAgrees(q: seq<Slot>)
    ensures Compat([], q) && Covers([], q) && (Cuts([], q) <==> q != [])
  {
  }

  lemma SaysUp(ps: seq<Path>, s: Slot, r: Path) returns (p: Path)
    requires r in Behind(ps, s)
    ensures p in ps && p != [] && p[1..] == r && Takes(p[0], s) && p[0].To?
  {
    BehindHas(ps, s, r);
    p :| p in ps && p != [] && p[0].To? && s in p[0].places && p[1..] == r;
  }

  lemma SaysDown(ps: seq<Path>, s: Slot, p: Path)
    requires p in ps && p != [] && Takes(p[0], s) && !Stars(ps)
    ensures p[1..] in Behind(ps, s) && p[0].To?
  {
    BehindHas(ps, s, p[1..]);
  }

  /** Behind the first place of a walk the rest of the paths speak. */
  lemma SaysRest(ps: seq<Path>, q: seq<Slot>)
    requires q != [] && !Whole(ps)
    ensures Says(ps, q) <==> Says(Behind(ps, q[0]), q[1..])
    ensures SomeCuts(ps, q) <==> if |q| == 1 then [] in Behind(ps, q[0]) else SomeCuts(Behind(ps, q[0]), q[1..])
  {
    hide Compat, Behind, Cuts, Takes, Stars;
    NotWhole(ps);
    assert [] !in ps;
    var rs := Behind(ps, q[0]);
    forall p | p in ps
      ensures Compat(p, q) ==> p[1..] in rs && Compat(p[1..], q[1..])
      ensures Cuts(p, q) ==> p[1..] in rs && if |q| == 1 then p[1..] == [] else Cuts(p[1..], q[1..])
    {
      CompatRest(p, q);
      CutsRest(p, q);
      CutsLength(p, q);
      if Takes(p[0], q[0]) {
        SaysDown(ps, q[0], p);
      }
    }
    forall r | r in rs
      ensures Compat(r, q[1..]) ==> Says(ps, q)
      ensures (if |q| == 1 then r == [] else Cuts(r, q[1..])) ==> SomeCuts(ps, q)
    {
      var p := SaysUp(ps, q[0], r);
      CompatRest(p, q);
      CutsRest(p, q);
    }
  }

  lemma CutsLength(p: Path, q: seq<Slot>)
    ensures Cuts(p, q) ==> |p| <= |q|
  {
  }

  /** Behind a star all the rests of the paths speak. */
  lemma SaysStar(ps: seq<Path>, q: seq<Slot>)
    requires q != [] && OnlyStars(ps)
    ensures Says(ps, q) <==> Says(BehindAll(ps), q[1..])
    ensures SomeCuts(ps, q) <==> SomeCuts(BehindAll(ps), q[1..])
  {
    hide Compat, BehindAll, Cuts;
    BehindStars(ps);
    var rs := BehindAll(ps);
    forall i | 0 <= i < |ps|
      ensures Compat(ps[i], q) <==> Compat(rs[i], q[1..])
      ensures Cuts(ps[i], q) <==> Cuts(rs[i], q[1..])
    {
      CompatRest(ps[i], q);
      CutsRest(ps[i], q);
      CutsLength(ps[i], q);
      NothingAgrees(q[1..]);
    }
    SaysAt(ps, q);
    SaysAt(rs, q[1..]);
  }

  lemma SaysAt(ps: seq<Path>, q: seq<Slot>)
    ensures Says(ps, q) <==> exists i :: 0 <= i < |ps| && Compat(ps[i], q)
    ensures SomeCuts(ps, q) <==> exists i :: 0 <= i < |ps| && Cuts(ps[i], q)
  {
    hide Compat, Cuts;
    if Says(ps, q) {
      var p :| p in ps && Compat(p, q);
      var i :| 0 <= i < |ps| && ps[i] == p;
    }
    if SomeCuts(ps, q) {
      var p :| p in ps && Cuts(p, q);
      var i :| 0 <= i < |ps| && ps[i] == p;
    }
  }

  lemma EmptySays(ps: seq<Path>, q: seq<Slot>)
    ensures [] in ps ==> Says(ps, q) && (q != [] ==> SomeCuts(ps, q))
    ensures ps != [] && q == [] ==> Says(ps, q)
    ensures q == [] ==> !SomeCuts(ps, q)
  {
    NothingAgrees(q);
    if ps != [] && q == [] {
      assert ps[0] in ps && Compat(ps[0], q);
    }
  }

  // ----- places left to ask for -----

  /** Something can be asked below the type. */
  predicate Askable(env: Env, d: Desc) {
    SwitchFt(env, d) != Invalid && (SwitchFt(env, d) == Scalar ==> Unwrap(d).MapOf?)
  }

  lemma {:induction false} Bound(avoid: set<Slot>) returns (n: nat)
    ensures forall s :: s in avoid ==>
              (s.Fd? ==> s.id < n) && (s.Ints? ==> s.n < n) && (s.Strs? ==> |s.key| < n)
    decreases avoid
  {
    if avoid == {} {
      n := 0;
    } else {
      var s :| s in avoid;
      n := Bound(avoid - {s});
      var k := match s case Fd(id) => id case Ints(i) => i case Strs(t) => |t| case Every => 0;
      n := if k >= n then k + 1 else n;
    }
  }

  /** There is always a place that nothing is known about. */
  lemma NewPlace(env: Env, d: Desc, avoid: set<Slot>) returns (s: Slot)
    requires Askable(env, d)
    ensures Asked(env, d, s) && s != Every
    ensures s !in avoid
  {
    var n := Bound(avoid);
    match SwitchFt(env, d)
    case Struct => s := Fd(n);
    case StrMap => s := Strs(seq(n, _ => 'z'));
    case _ => s := Ints(n);
  }

  lemma AskedIsReal(env: Env, d: Desc, s: Slot)
    requires Asked(env, d, s)
    ensures s != Every && Askable(env, d)
    ensures s.Fd? ==> SwitchFt(env, d) == Struct && s.id >= 0
    ensures KidDesc(env, d, Every).Some? ==> KidDesc(env, d, s) == KidDesc(env, d, Every)
    ensures ElemDesc(env, d, s) == KidDesc(env, d, s)
    ensures !Unwrap(d).StructOf? ==> ElemDesc(env, d, Every) == KidDesc(env, d, Every)
  {
  }

  /** A place with a mask can be asked for. */
  lemma KidIsAsked(env: Env, d: Desc, s: Slot)
    requires GoodEnv(env) && Fits(SwitchFt(env, d), s) && KidDesc(env, d, s).Some?
    ensures Asked(env, d, s)
  {
    if s.Fd? {
      var f := FieldById(env[Unwrap(d).name], s.id).value;
      FieldIsGood(env, Unwrap(d).name, f);
    }
  }

  /** Where nothing is covered but some paths come by, something can be asked, and a struct has a
      field that a path goes to. */
  lemma OnTheWay(env: Env, d: Desc, ps: seq<Path>)
    requires Fitting(env, d, ps) && ps != [] && !Whole(ps)
    ensures Askable(env, d)
    ensures SwitchFt(env, d) == Struct ==> exists s: Slot :: s.Fd? && Behind(ps, s) != []
  {
    hide Fitting, Behind;
    var p := ps[0];
    FirstOneFits(env, d, ps);
    HasElements(env, d);
    assert p != [] && !p[0].Star?;
    if p[0].To? {
      var s := p[0].places[0];
      assert s in p[0].places;
      BehindHas(ps, s, p[1..]);
      assert p[1..] in Behind(ps, s);
    }
  }

  lemma FirstOneFits(env: Env, d: Desc, ps: seq<Path>)
    requires Fitting(env, d, ps) && ps != []
    ensures ps[0] in ps && FirstFits(env, d, ps[0])
  {
  }

  /** What is known of a mask for some paths at a type. */
  ghost predicate For(env: Env, m: Mask, d: Desc, ps: seq<Path>, black: bool) {
    Holds(env, m, d, ps, black) && Fitting(env, d, ps)
  }

  /** The type that the mask at a place is made for, if there is one. */
  function DescAt(env: Env, d: Desc, s: Slot): Desc {
    if ElemDesc(env, d, s).Some? then ElemDesc(env, d, s).value else d
  }

  lemma ForBelow(env: Env, m: Mask, d: Desc, ps: seq<Path>, black: bool, s: Slot)
    requires For(env, m, d, ps, black)
    ensures m.typ == SwitchFt(env, d) && m.isBlack == black && (m.isAll <==> Whole(ps))
    ensures s in m.kids <==> Rest(ps, s) != []
    ensures s in m.kids && Kept(ps, s) ==>
              && ElemDesc(env, d, s) == Some(DescAt(env, d, s)) && Reachable(env, d, s)
              && (s != Every ==> Fits(SwitchFt(env, d), s) && KidDesc(env, d, s) == Some(DescAt(env, d, s)))
              && For(env, m.kids[s], DescAt(env, d, s), Rest(ps, s), black)
              && (Exist(m.kids[s]) <==> SwitchFt(env, DescAt(env, d, s)) != Invalid)
    ensures s != Every ==> (Supported(env, d, s) <==> ElemDesc(env, d, s).Some? && SwitchFt(env, DescAt(env, d, s)) != Invalid)
    ensures !Unwrap(d).StructOf? ==> ElemDesc(env, d, Every) == KidDesc(env, d, Every)
  {
    CoversIs(env, m, d, ps, black);
    KidIs(env, m, d, ps, black, s);
    hide Holds;
    if s in m.kids {
      assert Reachable(env, d, s);
      if Kept(ps, s) {
        FitsBelow(env, d, ps, s, DescAt(env, d, s));
      }
    }
  }

  // ----- nothing below -----

  lemma {:induction false} NothingPasses(q: seq<Slot>)
    ensures Passes(None, q) && Safe(None, q)
    decreases |q|
  {
    if q != [] {
      NothingPasses(q[1..]);
    }
  }

  /** A struct of which not everything is covered has a mask for a field. */
  lemma FieldsAreThere(env: Env, m: Mask, d: Desc, ps: seq<Path>, black: bool)
    requires For(env, m, d, ps, black) && ps != [] && !Whole(ps) && SwitchFt(env, d) == Struct
    ensures HasFields(m)
  {
    OnTheWay(env, d, ps);
    var s: Slot :| s.Fd? && Behind(ps, s) != [];
    ForBelow(env, m, d, ps, black, s);
  }

  /** At a struct a star is the end of its path. */
  lemma StarEndsStruct(env: Env, m: Mask, d: Desc, ps: seq<Path>, black: bool)
    requires For(env, m, d, ps, black) && Unwrap(d).StructOf? && Every in m.kids
    ensures m.kids[Every].isAll && m.kids[Every].kids == map[] && m.kids[Every].isBlack == black
    ensures Open(ps)
  {
    hide For;
    ForBelow(env, m, d, ps, black, Every);
    RestIs(ps, Every);
    RestsAreEnds(env, m, d, ps, black);
    var k := m.kids[Every];
    ForBelow(env, k, DescAt(env, d, Every), BehindAll(ps), black, Every);
    forall s: Slot
      ensures s !in k.kids
    {
      OnlyEnds(BehindAll(ps), s);
      ForBelow(env, k, DescAt(env, d, Every), BehindAll(ps), black, s);
    }
    OnlyEnds(BehindAll(ps), Every);
    assert BehindAll(ps)[0] in BehindAll(ps);
  }

  lemma {:induction false} EndsBehind(env: Env, d: Desc, ps: seq<Path>)
    requires Unwrap(d).StructOf? && forall p :: p in ps ==> FirstFits(env, d, p)
    ensures OnlyEnd(BehindAll(ps))
    decreases |ps|
  {
    if ps != [] {
      var most, last := ps[..|ps| - 1], ps[|ps| - 1];
      assert last in ps && forall p :: p in most ==> p in ps;
      EndsBehind(env, d, most);
    }
  }

  lemma RestsAreEnds(env: Env, m: Mask, d: Desc, ps: seq<Path>, black: bool)
    requires For(env, m, d, ps, black) && Unwrap(d).StructOf?
    ensures OnlyEnd(BehindAll(ps))
  {
    EndsBehind(env, d, ps);
  }

  /** No path has a step. */
  predicate OnlyEnd(ps: seq<Path>) {
    forall i :: 0 <= i < |ps| ==> ps[i] == []
  }

  lemma {:induction false} OnlyEnds(ps: seq<Path>, s: Slot)
    requires OnlyEnd(ps)
    ensures Rest(ps, s) == []
    decreases |ps|
  {
    if ps != [] {
      var most := ps[..|ps| - 1];
      assert ps == most + [ps[|ps| - 1]];
      OnlyEnds(most, s);
    }
  }

  // ----- lists that no star disturbs -----

  /** Where a star stands and no path ends, only stars stand: nothing was named there before. */
  ghost predicate Clean(ps: seq<Path>)
    decreases Longest(ps)
  {
    [] in ps
    || if Stars(ps) then OnlyStars(ps) && (BehindIsShorter(ps, Every); BehindAll(ps) != [] ==> Clean(BehindAll(ps)))
       else forall s: Slot :: s != Every && Behind(ps, s) != [] ==> (BehindIsShorter(ps, s); Clean(Behind(ps, s)))
  }

  lemma CleanStars(ps: seq<Path>)
    requires Clean(ps) && [] !in ps && Stars(ps)
    ensures OnlyStars(ps) && BehindAll(ps) != [] && Clean(BehindAll(ps))
    ensures Longest(BehindAll(ps)) < Longest(ps)
  {
    BehindStars(ps);
    BehindIsShorter(ps, Every);
    var p: Path :| p in ps && p != [] && p[0].Star?;
  }

  lemma CleanBelow(ps: seq<Path>, s: Slot)
    requires Clean(ps) && !Whole(ps) && s != Every && Behind(ps, s) != []
    ensures Clean(Behind(ps, s))
  {
  }

  // ----- the white list -----

  /** Everything is open where everything is covered: when brackets that stand for everything
      stand there, everything is covered behind them as well, and open. */
  ghost predicate Open(ps: seq<Path>)
    decreases Longest(ps)
  {
    BehindAll(ps) == [] || (Whole(BehindAll(ps)) && (BehindIsShorter(ps, Every); Open(BehindAll(ps))))
  }

  /** No bracket that names nothing takes back what a path allows where it ends, and no path
      comes to a place of a type that masks do not support. */
  ghost predicate NothingTaken(env: Env, d: Desc, ps: seq<Path>)
    decreases Longest(ps)
  {
    if [] in ps then Open(ps)
    else if Stars(ps) then
      BehindIsShorter(ps, Every);
      Unwrap(d).StructOf? || (BehindAll(ps) != [] ==> NothingTaken(env, DescAt(env, d, Every), BehindAll(ps)))
    else
      forall s: Slot :: s != Every && Behind(ps, s) != [] ==>
        Supported(env, d, s) && (BehindIsShorter(ps, s); NothingTaken(env, DescAt(env, d, s), Behind(ps, s)))
  }

  lemma {:induction false} OpenPasses(env: Env, m: Mask, d: Desc, ps: seq<Path>, q: seq<Slot>)
    requires For(env, m, d, ps, false) && Whole(ps) && Open(ps)
    ensures Passes(Some(m), q)
    decreases |q|
  {
    hide For;
    if q != [] {
      ForBelow(env, m, d, ps, false, Every);
      NothingPasses(q[1..]);
      if Every in m.kids {
        OpenPasses(env, m.kids[Every], DescAt(env, d, Every), BehindAll(ps), q[1..]);
      }
    }
  }

  lemma {:induction false} WhiteHolds(env: Env, m: Mask, d: Desc, ps: seq<Path>, q: seq<Slot>)
    requires For(env, m, d, ps, false) && Clean(ps) && NothingTaken(env, d, ps) && WalkOf(env, d, q)
    ensures Passes(Some(m), q) <==> q == [] || Says(ps, q)
    decreases |q|
  {
    hide For, Open, Says, Behind, BehindAll, Stars, Clean, ElemDesc, KidDesc, OnlyStars;
    if q != [] {
      var s := q[0];
      AskedIsReal(env, d, s);
      EmptySays(ps, q);
      NotWhole(ps);
      ForBelow(env, m, d, ps, false, s);
      if [] in ps {
        OpenPasses(env, m, d, ps, q);
      } else if m.isAll {
        CleanStars(ps);
        ForBelow(env, m, d, ps, false, Every);
        SaysStar(ps, q);
        if Unwrap(d).StructOf? {
          StarEndsStruct(env, m, d, ps, false);
          OpenPasses(env, m, d, ps, q);
          EndsSay(env, m, d, ps, false, q[1..]);
        } else {
          AllStep(m, q);
          WhiteHolds(env, m.kids[Every], DescAt(env, d, Every), BehindAll(ps), q[1..]);
          EmptySays(BehindAll(ps), q[1..]);
        }
      } else {
        SaysRest(ps, q);
        EmptySays(Behind(ps, s), q[1..]);
        if s in m.kids {
          CleanBelow(ps, s);
          WhiteHolds(env, m.kids[s], DescAt(env, d, s), Behind(ps, s), q[1..]);
        } else {
          NobodySays(q[1..]);
        }
      }
    }
  }

  lemma EndsSay(env: Env, m: Mask, d: Desc, ps: seq<Path>, black: bool, q: seq<Slot>)
    requires For(env, m, d, ps, black) && Unwrap(d).StructOf? && BehindAll(ps) != []
    ensures Says(BehindAll(ps), q) && (SomeCuts(BehindAll(ps), q) <==> q != [])
  {
    RestsAreEnds(env, m, d, ps, black);
    assert BehindAll(ps)[0] in BehindAll(ps);
    EmptySays(BehindAll(ps), q);
  }

  /** A mask that covers everything asks on in the mask for everything. */
  lemma AllStep(m: Mask, q: seq<Slot>)
    requires m.typ != Invalid && m.isAll && Every in m.kids && q != []
    ensures Passes(Some(m), q) <==> Passes(Some(m.kids[Every]), q[1..])
  {
  }

  lemma NobodySays(q: seq<Slot>)
    ensures !Says([], q) && !SomeCuts([], q)
  {
  }

  /** A walk through the mask of all elements that is rejected where everything is covered. */
  lemma {:induction false} TakenBack(env: Env, m: Mask, d: Desc, ps: seq<Path>) returns (q: seq<Slot>)
    requires GoodEnv(env) && For(env, m, d, ps, false) && Whole(ps) && !Open(ps)
    ensures WalkOf(env, d, q) && !Passes(Some(m), q)
    decreases Longest(ps)
  {
    hide For, BehindAll, Whole, ElemDesc;
    ForBelow(env, m, d, ps, false, Every);
    BehindIsShorter(ps, Every);
    RestIs(ps, Every);
    NotWhole(ps);
    if Unwrap(d).StructOf? {
      StarEndsStruct(env, m, d, ps, false);
    }
    var k, e, rs := m.kids[Every], DescAt(env, d, Every), BehindAll(ps);
    ForBelow(env, k, e, rs, false, Every);
    var s := AnyPlace(env, d);
    var u: seq<Slot>;
    if Whole(rs) {
      u := TakenBack(env, k, e, rs);
    } else {
      OnTheWayFor(env, k, e, rs, false);
      var t := NewPlace(env, e, k.kids.Keys);
      u := [t];
      NewPlaceAnswer(env, k, e, rs, false, t);
    }
    q := [s] + u;
    assert q[1..] == u;
    AllStep(m, q);
  }

  lemma OnTheWayFor(env: Env, m: Mask, d: Desc, ps: seq<Path>, black: bool)
    requires For(env, m, d, ps, black) && ps != [] && !Whole(ps)
    ensures Askable(env, d)
  {
    OnTheWay(env, d, ps);
  }

  /** A place below a type that has elements. */
  lemma AnyPlace(env: Env, d: Desc) returns (s: Slot)
    requires KidDesc(env, d, Every).Some?
    ensures Asked(env, d, s) && s != Every && KidDesc(env, d, s) == KidDesc(env, d, Every)
  {
    s := NewPlace(env, d, {});
    AskedIsReal(env, d, s);
  }

  /** A new place is rejected by a white list where nothing is covered. */
  lemma NewPlaceAnswer(env: Env, m: Mask, d: Desc, ps: seq<Path>, black: bool, t: Slot)
    requires For(env, m, d, ps, black) && !Whole(ps) && Asked(env, d, t)
    requires SwitchFt(env, d) != Scalar ==> t !in m.kids
    ensures t !in m.kids && WalkOf(env, d, [t])
    ensures Passes(Some(m), [t]) <==> black
  {
    NotWhole(ps);
    ForBelow(env, m, d, ps, black, t);
    assert [t][1..] == [];
    assert t in m.kids ==> Fits(SwitchFt(env, d), t);
  }

  /** When something is taken back, a walk that the paths allow is rejected. */
  lemma {:induction false} WhiteWrong(env: Env, m: Mask, d: Desc, ps: seq<Path>) returns (q: seq<Slot>)
    requires GoodEnv(env) && For(env, m, d, ps, false) && Clean(ps) && !NothingTaken(env, d, ps)
    ensures WalkOf(env, d, q) && Says(ps, q) && !Passes(Some(m), q)
    decreases Longest(ps)
  {
    hide For, Open, Says, Behind, Clean, Stars, BehindAll, OnlyStars, ElemDesc, KidDesc;
    NotWhole(ps);
    if [] in ps {
      q := TakenBack(env, m, d, ps);
      EmptySays(ps, q);
    } else if Stars(ps) {
      CleanStars(ps);
      ForBelow(env, m, d, ps, false, Every);
      RestIs(ps, Every);
      var s := AnyPlace(env, d);
      var u := WhiteWrong(env, m.kids[Every], DescAt(env, d, Every), BehindAll(ps));
      q := [s] + u;
      assert q[1..] == u;
      AllStep(m, q);
      SaysStar(ps, q);
    } else {
      var s: Slot :| s != Every && Behind(ps, s) != []
                     && (Supported(env, d, s) ==> !NothingTaken(env, DescAt(env, d, s), Behind(ps, s)));
      BehindIsShorter(ps, s);
      ForBelow(env, m, d, ps, false, s);
      RestIs(ps, s);
      KidIsAsked(env, d, s);
      var u: seq<Slot> := [];
      if Supported(env, d, s) {
        CleanBelow(ps, s);
        u := WhiteWrong(env, m.kids[s], DescAt(env, d, s), Behind(ps, s));
      }
      q := [s] + u;
      assert q[1..] == u;
      SaysRest(ps, q);
      EmptySays(Behind(ps, s), u);
      NamedStep(m, s, u);
    }
  }

  /** Asking at a place that has a mask. */
  lemma NamedStep(m: Mask, s: Slot, u: seq<Slot>)
    requires m.typ != Invalid && !m.isAll && s in m.kids
    ensures Exist(m.kids[s]) ==>
              (Passes(Some(m), [s] + u) <==> (m.isBlack ==> HasChild(m.kids[s])) && Passes(Some(m.kids[s]), u))
    ensures !Exist(m.kids[s]) ==> (Passes(Some(m), [s] + u) <==> m.isBlack)
    ensures u == [] ==> Passes(Some(m.kids[s]), u)
  {
    assert ([s] + u)[1..] == u;
    NothingPasses(u);
  }

  // ----- the black list -----

  /** Some path goes on here. */
  ghost predicate GoesOn(ps: seq<Path>) {
    exists s: Slot :: Rest(ps, s) != []
  }

  /** A star for all fields of a struct rejects what is behind the fields: masks support the type
      of the first field, which the mask for all of them is made for, or there is nothing to ask
      for behind any field. */
  ghost predicate FieldsEnd(env: Env, d: Desc) {
    SwitchFt(env, DescAt(env, d, Every)) != Invalid
    || forall s :: Asked(env, d, s) && KidDesc(env, d, s).Some? ==> !Askable(env, KidDesc(env, d, s).value)
  }

  /** Nothing goes on where a path ends, and something goes on at every other place below
      that a path comes to, which is of a type that masks support. */
  ghost predicate Sharp(env: Env, d: Desc, ps: seq<Path>)
    decreases Longest(ps)
  {
    if [] in ps then !GoesOn(ps)
    else if Stars(ps) then
      if Unwrap(d).StructOf? then FieldsEnd(env, d)
      else
        BehindIsShorter(ps, Every);
        BehindAll(ps) != [] ==> Sharp(env, DescAt(env, d, Every), BehindAll(ps))
    else
      forall s: Slot :: s != Every && Behind(ps, s) != [] ==>
        && ([] in Behind(ps, s) || GoesOn(Behind(ps, s)))
        && Supported(env, d, s) && (BehindIsShorter(ps, s); Sharp(env, DescAt(env, d, s), Behind(ps, s)))
  }

  lemma HasChildGoesOn(env: Env, m: Mask, d: Desc, ps: seq<Path>, black: bool)
    requires For(env, m, d, ps, black)
    ensures m.kids != map[] <==> GoesOn(ps)
    ensures m.typ != Invalid ==> (HasChild(m) <==> GoesOn(ps))
  {
    hide For;
    if m.kids != map[] {
      var s :| s in m.kids;
      ForBelow(env, m, d, ps, black, s);
    }
    if GoesOn(ps) {
      var s: Slot :| Rest(ps, s) != [];
      ForBelow(env, m, d, ps, black, s);
    }
  }

  /** A mask behind a star for all fields: it rejects whatever is asked, or it has no type. */
  lemma BehindFields(env: Env, m: Mask, d: Desc, ps: seq<Path>, q: seq<Slot>)
    requires For(env, m, d, ps, true) && Unwrap(d).StructOf? && Every in m.kids
    ensures Passes(Some(m.kids[Every]), q) <==> q == [] || SwitchFt(env, DescAt(env, d, Every)) == Invalid
  {
    hide For;
    ForBelow(env, m, d, ps, true, Every);
    StarEndsStruct(env, m, d, ps, true);
    if q != [] {
      NothingPasses(q[1..]);
    }
  }

  lemma {:induction false} BlackHolds(env: Env, m: Mask, d: Desc, ps: seq<Path>, q: seq<Slot>)
    requires For(env, m, d, ps, true) && Clean(ps) && Sharp(env, d, ps) && WalkOf(env, d, q)
    ensures Passes(Some(m), q) <==> !SomeCuts(ps, q)
    decreases |q|
  {
    hide For, GoesOn, SomeCuts, Behind, BehindAll, Stars, Clean, ElemDesc, KidDesc, OnlyStars, FieldsEnd;
    EmptySays(ps, q);
    if q != [] {
      var s := q[0];
      AskedIsReal(env, d, s);
      HasChildGoesOn(env, m, d, ps, true);
      NotWhole(ps);
      ForBelow(env, m, d, ps, true, s);
      if m.isAll && [] !in ps {
        CleanStars(ps);
        ForBelow(env, m, d, ps, true, Every);
        RestIs(ps, Every);
        SaysStar(ps, q);
        AllStep(m, q);
        if Unwrap(d).StructOf? {
          BehindFields(env, m, d, ps, q[1..]);
          EndsSay(env, m, d, ps, true, q[1..]);
          if SwitchFt(env, DescAt(env, d, Every)) == Invalid {
            FieldsHold(env, d, q);
          }
        } else {
          BlackHolds(env, m.kids[Every], DescAt(env, d, Every), BehindAll(ps), q[1..]);
        }
      } else if !m.isAll {
        NamedBlack(env, m, d, ps, q);
      }
    }
  }

  /** No walk goes on behind the fields when nothing can be asked for there. */
  lemma FieldsHold(env: Env, d: Desc, q: seq<Slot>)
    requires FieldsEnd(env, d) && SwitchFt(env, DescAt(env, d, Every)) == Invalid && WalkOf(env, d, q) && q != []
    ensures q[1..] == []
  {
    if KidDesc(env, d, q[0]).Some? && q[1..] != [] {
      AskedIsReal(env, KidDesc(env, d, q[0]).value, q[1..][0]);
    }
  }

  lemma {:induction false} NamedBlack(env: Env, m: Mask, d: Desc, ps: seq<Path>, q: seq<Slot>)
    requires For(env, m, d, ps, true) && Clean(ps) && Sharp(env, d, ps) && WalkOf(env, d, q) && q != [] && !Whole(ps)
    ensures Passes(Some(m), q) <==> !SomeCuts(ps, q)
    decreases |q|, 0
  {
    hide For, GoesOn, SomeCuts, Behind, Clean, ElemDesc, KidDesc, Stars;
    var s, rest := q[0], q[1..];
    AskedIsReal(env, d, s);
    NotWhole(ps);
    ForBelow(env, m, d, ps, true, s);
    NothingPasses(rest);
    SaysRest(ps, q);
    RestIs(ps, s);
    assert [s] + rest == q;
    if s in m.kids {
      var k, e, rs := m.kids[s], DescAt(env, d, s), Behind(ps, s);
      NamedStep(m, s, rest);
      CleanBelow(ps, s);
      HasChildGoesOn(env, k, e, rs, true);
      EmptySays(rs, rest);
      EndedCuts(env, e, rs);
      if rest != [] {
        BlackHolds(env, k, e, rs, rest);
      }
    } else {
      NobodySays(rest);
    }
  }

  lemma EndedCuts(env: Env, d: Desc, ps: seq<Path>)
    ensures [] in ps ==> (Sharp(env, d, ps) <==> !GoesOn(ps))
  {
  }

  /** When a list is not sharp, a walk is treated in the opposite way of what the paths say. */
  lemma {:induction false} BlackWrong(env: Env, m: Mask, d: Desc, ps: seq<Path>) returns (q: seq<Slot>)
    requires GoodEnv(env) && For(env, m, d, ps, true) && SwitchFt(env, d) != Invalid && Clean(ps) && !Sharp(env, d, ps)
    ensures WalkOf(env, d, q) && (Passes(Some(m), q) <==> SomeCuts(ps, q))
    decreases Longest(ps), 1
  {
    hide For, GoesOn, SomeCuts, Behind, BehindAll, KidDesc, ElemDesc, Asked, Passes, HasChild, Stars, Clean, OnlyStars, FieldsEnd;
    HasChildGoesOn(env, m, d, ps, true);
    ForBelow(env, m, d, ps, true, Every);
    NotWhole(ps);
    if [] in ps {
      var t := GoesSomewhere(env, m, d, ps);
      q := [t];
      EmptySays(ps, q);
      EndsWalk(env, d, t);
      BlackAll(m, t);
    } else if Stars(ps) {
      CleanStars(ps);
      RestIs(ps, Every);
      if Unwrap(d).StructOf? {
        q := FieldsWrong(env, m, d, ps);
      } else {
        var s := AnyPlace(env, d);
        ForBelow(env, m.kids[Every], DescAt(env, d, Every), BehindAll(ps), true, Every);
        ElementIsSupported(env, m, d, ps, true);
        var u := BlackWrong(env, m.kids[Every], DescAt(env, d, Every), BehindAll(ps));
        q := [s] + u;
        assert q[1..] == u;
        AllStep(m, q);
        SaysStar(ps, q);
      }
    } else {
      q := NamedWrong(env, m, d, ps);
    }
  }

  lemma ElementIsSupported(env: Env, m: Mask, d: Desc, ps: seq<Path>, black: bool)
    requires For(env, m, d, ps, black) && BehindAll(ps) != [] && !Unwrap(d).StructOf?
    ensures SwitchFt(env, DescAt(env, d, Every)) != Invalid
  {
    assert Rest(ps, Every) == BehindAll(ps);
  }

  /** Behind a star for all fields everything passes when masks do not support the first one. */
  lemma FieldsWrong(env: Env, m: Mask, d: Desc, ps: seq<Path>) returns (q: seq<Slot>)
    requires For(env, m, d, ps, true) && Unwrap(d).StructOf? && SwitchFt(env, d) != Invalid && !FieldsEnd(env, d)
    requires Whole(ps) && OnlyStars(ps) && BehindAll(ps) != []
    ensures WalkOf(env, d, q) && (Passes(Some(m), q) <==> SomeCuts(ps, q))
  {
    hide For, SomeCuts, BehindAll, Passes, OnlyStars, ElemDesc, Whole;
    var s :| Asked(env, d, s) && KidDesc(env, d, s).Some? && Askable(env, KidDesc(env, d, s).value);
    var t := NewPlace(env, KidDesc(env, d, s).value, {});
    EndsWalk(env, KidDesc(env, d, s).value, t);
    q := [s, t];
    assert q[1..] == [t];
    ForBelow(env, m, d, ps, true, Every);
    RestIs(ps, Every);
    BehindFields(env, m, d, ps, [t]);
    AllStep(m, q);
    SaysStar(ps, q);
    EndsSay(env, m, d, ps, true, [t]);
  }

  lemma {:induction false} NamedWrong(env: Env, m: Mask, d: Desc, ps: seq<Path>) returns (q: seq<Slot>)
    requires GoodEnv(env) && For(env, m, d, ps, true) && SwitchFt(env, d) != Invalid && Clean(ps) && !Sharp(env, d, ps)
    requires !Whole(ps)
    ensures WalkOf(env, d, q) && (Passes(Some(m), q) <==> SomeCuts(ps, q))
    decreases Longest(ps), 0
  {
    hide For, GoesOn, SomeCuts, Behind, KidDesc, ElemDesc, Asked, Passes, HasChild, Stars, Clean;
    NotWhole(ps);
    var s: Slot :| s != Every && Behind(ps, s) != []
                   && (([] in Behind(ps, s) || GoesOn(Behind(ps, s))) && Supported(env, d, s)
                       ==> !Sharp(env, DescAt(env, d, s), Behind(ps, s)));
    var rs := Behind(ps, s);
    ForBelow(env, m, d, ps, true, s);
    RestIs(ps, s);
    KidIsAsked(env, d, s);
    BehindIsShorter(ps, s);
    CleanBelow(ps, s);
    var k, e := m.kids[s], DescAt(env, d, s);
    HasChildGoesOn(env, k, e, rs, true);
    EndedCuts(env, e, rs);
    var u: seq<Slot> := [];
    if Supported(env, d, s) && [] !in rs && GoesOn(rs) {
      u := BlackWrong(env, k, e, rs);
    } else if !Supported(env, d, s) {
      UnsupportedEnds(env, k, e, rs);
    }
    q := [s] + u;
    assert q[1..] == u;
    EmptySays(rs, u);
    WalkOn(env, d, q);
    SaysRest(ps, q);
    NamedStep(m, s, u);
  }

  lemma WalkOn(env: Env, d: Desc, q: seq<Slot>)
    requires q != [] && Asked(env, d, q[0]) && KidDesc(env, d, q[0]).Some? && WalkOf(env, KidDesc(env, d, q[0]).value, q[1..])
    ensures WalkOf(env, d, q)
  {
  }

  lemma EndsWalk(env: Env, d: Desc, t: Slot)
    requires Asked(env, d, t)
    ensures WalkOf(env, d, [t])
  {
    assert [t][1..] == [];
  }

  lemma BlackAll(m: Mask, t: Slot)
    requires m.typ != Invalid && m.isAll && m.isBlack
    ensures Passes(Some(m), [t]) <==> HasChild(m)
  {
    assert [t][1..] == [];
  }

  /** At a type that masks do not support paths can only end. */
  lemma UnsupportedEnds(env: Env, m: Mask, d: Desc, ps: seq<Path>)
    requires For(env, m, d, ps, true) && SwitchFt(env, d) == Invalid
    ensures ps != [] ==> [] in ps
  {
    if ps != [] {
      FirstOneFits(env, d, ps);
      if ps[0] != [] {
        StepFits(env, d, ps[0]);
      }
    }
  }

  lemma StepFits(env: Env, d: Desc, p: Path)
    requires FirstFits(env, d, p) && p != []
    ensures SwitchFt(env, d) != Invalid
  {
    HasElements(env, d);
    if p[0].To? {
      assert p[0].places[0] in p[0].places;
    }
  }

  lemma GoesSomewhere(env: Env, m: Mask, d: Desc, ps: seq<Path>) returns (s: Slot)
    requires For(env, m, d, ps, true) && GoesOn(ps) && SwitchFt(env, d) != Invalid
    ensures Asked(env, d, s) && s != Every
  {
    var r: Slot :| Rest(ps, r) != [];
    assert Reachable(env, d, r);
    s := NewPlace(env, d, {});
  }

  // ----- lists of paths -----

  /** The root of a mask: before the first path that names the root there is no type, and
      only paths without steps are accepted. */
  ghost predicate AtRoot(env: Env, m: Mask, d: Desc, ps: seq<Path>, black: bool) {
    || (m.typ != Invalid && For(env, m, d, ps, black))
    || (m.typ == Invalid && m.kids == map[] && m.isBlack == black && (m.isAll <==> ps != []) && OnlyEnd(ps))
  }

  predicate AllSimple(paths: seq<seq<Token>>) {
    forall i :: 0 <= i < |paths| ==> Simple(paths[i])
  }

  /** Some path is not empty; when it is accepted it names the root. */
  predicate Named(paths: seq<seq<Token>>) {
    exists i :: 0 <= i < |paths| && paths[i] != []
  }

  /** The steps of the paths of a list. */
  function PathsOf(env: Env, paths: seq<seq<Token>>, d: Desc): (ps: seq<Path>)
    ensures |ps| == |paths| && forall i :: 0 <= i < |ps| ==> ps[i] == Steps(env, paths[i], d)
  {
    if paths == [] then [] else [Steps(env, paths[0], d)] + PathsOf(env, paths[1..], d)
  }

  lemma EndsAreWhole(ps: seq<Path>)
    requires OnlyEnd(ps)
    ensures Whole(ps) <==> ps != []
    ensures ps != [] ==> [] in ps
  {
    if ps != [] {
      assert ps[0] in ps;
    }
  }

  lemma StartFor(env: Env, m: Mask, d: Desc, ps: seq<Path>, black: bool)
    requires AtRoot(env, m, d, ps, black) && SwitchFt(env, d) != Invalid
    ensures For(env, m.(typ := SwitchFt(env, d)), d, ps, black)
  {
    if m.typ != Invalid {
      CoversIs(env, m, d, ps, black);
    } else {
      var m' := m.(typ := SwitchFt(env, d));
      EndsAreWhole(ps);
      forall s: Slot
        ensures Rest(ps, s) == []
      {
        OnlyEnds(ps, s);
      }
      assert forall s: Slot :: Below(env, m', d, ps, black, s);
      assert Holds(env, m', d, ps, black);
      assert forall p :: p in ps ==> FirstFits(env, d, p);
      assert Fitting(env, d, ps);
    }
  }

  /** What adding a path to a root comes to. */
  ghost predicate Rooted(env: Env, m: Mask, r: Option<Mask>, toks: seq<Token>, d: Desc, ps: seq<Path>, black: bool) {
    r.Some? ==>
      && AtRoot(env, r.value, d, ps + [Steps(env, toks, d)], black)
      && (m.typ != Invalid || (toks != [] && SwitchFt(env, d) != Invalid) ==>
            For(env, r.value, d, ps + [Steps(env, toks, d)], black))
      && (m.typ == Invalid && (toks == [] || SwitchFt(env, d) == Invalid) ==> r.value.typ == Invalid)
  }

  lemma AddFor(env: Env, m: Mask, toks: seq<Token>, d: Desc, ps: seq<Path>, black: bool)
    requires GoodEnv(env) && Simple(toks) && For(env, m, d, ps, black)
    ensures var r := AddPath(env, m, toks, d);
            && (r.Some? <==> Accepts(ps, Steps(env, toks, d)))
            && (r.Some? ==> For(env, r.value, d, ps + [Steps(env, toks, d)], black) && r.value.typ == SwitchFt(env, d))
  {
    hide Holds, Fitting, Accepts, Simple, AddPath, Steps;
    AddHolds(env, m, toks, d, ps, black);
    if AddPath(env, m, toks, d).Some? {
      AddFits(env, toks, d, ps);
      CoversIs(env, AddPath(env, m, toks, d).value, d, ps + [Steps(env, toks, d)], black);
    }
  }

  lemma EndAtRoot(env: Env, m: Mask, d: Desc, ps: seq<Path>, black: bool)
    requires AtRoot(env, m, d, ps, black) && m.typ == Invalid
    ensures Rooted(env, m, AddPath(env, m, [], d), [], d, ps, black)
  {
    hide For;
    RootIs(env, m, d, ps, black);
    var all := ps + [Steps(env, [], d)];
    assert all[|ps|] == [];
    assert forall i :: 0 <= i < |ps| ==> all[i] == ps[i];
  }

  lemma {:induction false} AddAtRoot(env: Env, m: Mask, toks: seq<Token>, d: Desc, ps: seq<Path>, black: bool)
    requires GoodEnv(env) && Simple(toks) && AtRoot(env, m, d, ps, black)
    ensures Rooted(env, m, AddPath(env, m, toks, d), toks, d, ps, black)
    decreases |toks|
  {
    hide Simple, AddGroup, AddEach, ReadGroup, For;
    RootIs(env, m, d, ps, black);
    if m.typ != Invalid {
      AddFor(env, m, toks, d, ps, black);
    } else if toks == [] {
      EndAtRoot(env, m, d, ps, black);
    } else if AddPath(env, m, toks, d).Some? {
      assert AddField(env, m, toks[1..], d).None? && AddIndex(env, m, toks[1..], d).None? && AddKey(env, m, toks[1..], d).None?;
      assert toks[0] == Root;
      var m' := m.(typ := SwitchFt(env, d));
      SimpleSuffix(toks, 1);
      if SwitchFt(env, d) != Invalid {
        StartFor(env, m, d, ps, black);
        AddFor(env, m', toks[1..], d, ps, black);
      } else {
        AddAtRoot(env, m', toks[1..], d, ps, black);
      }
    }
  }

  /** What a list of paths leaves. */
  ghost predicate ListAtRoot(env: Env, m: Mask, r: Mask, paths: seq<seq<Token>>, d: Desc, ps: seq<Path>, black: bool) {
    && AtRoot(env, r, d, ps + PathsOf(env, paths, d), black)
    && (m.typ != Invalid || (Named(paths) && SwitchFt(env, d) != Invalid) ==> For(env, r, d, ps + PathsOf(env, paths, d), black))
    && (m.typ == Invalid && (!Named(paths) || SwitchFt(env, d) == Invalid) ==> r.typ == Invalid)
  }

  lemma NamedRest(paths: seq<seq<Token>>)
    ensures Named(paths) <==> paths != [] && (paths[0] != [] || Named(paths[1..]))
  {
    if Named(paths) && paths[0] == [] {
      var i :| 0 <= i < |paths| && paths[i] != [];
      assert paths[1..][i - 1] == paths[i];
    }
    if paths != [] && Named(paths[1..]) {
      var i :| 0 <= i < |paths[1..]| && paths[1..][i] != [];
      assert paths[i + 1] == paths[1..][i];
    }
  }

  lemma {:induction false} AddPathsAtRoot(env: Env, m: Mask, paths: seq<seq<Token>>, d: Desc, ps: seq<Path>, black: bool)
    requires GoodEnv(env) && AllSimple(paths) && AtRoot(env, m, d, ps, black)
    ensures var r := AddPaths(env, m, paths, d); r.Some? ==> ListAtRoot(env, m, r.value, paths, d, ps, black)
    decreases |paths|
  {
    hide AddPath, Steps, AtRoot, For, Simple, Named, SwitchFt;
    RootIs(env, m, d, ps, black);
    NamedRest(paths);
    if paths == [] {
      Regroup(ps, [], []);
    } else {
      AddAtRoot(env, m, paths[0], d, ps, black);
      var p, r := Steps(env, paths[0], d), AddPath(env, m, paths[0], d);
      if r.Some? {
        AddPathsAtRoot(env, r.value, paths[1..], d, ps + [p], black);
        Regroup(ps, [p], PathsOf(env, paths[1..], d));
        RootIs(env, r.value, d, ps + [p], black);
      }
    }
  }

  lemma RootIs(env: Env, m: Mask, d: Desc, ps: seq<Path>, black: bool)
    requires AtRoot(env, m, d, ps, black)
    ensures m.typ != Invalid <==> For(env, m, d, ps, black) && SwitchFt(env, d) != Invalid
    ensures m.typ == Invalid ==> OnlyEnd(ps)
  {
    if For(env, m, d, ps, black) {
      CoversIs(env, m, d, ps, black);
    }
    hide Holds, Fitting;
  }

  lemma MadeAtRoot(env: Env, black: bool, paths: seq<seq<Token>>, d: Desc)
    requires GoodEnv(env) && AllSimple(paths) && NewFieldMask(env, black, paths, d).Some?
    ensures var m, ps := NewFieldMask(env, black, paths, d).value, PathsOf(env, paths, d);
            && (m.typ != Invalid <==> Named(paths) && SwitchFt(env, d) != Invalid)
            && (m.typ != Invalid ==> For(env, m, d, ps, black) && ps != [])
            && (m.typ == Invalid ==> OnlyEnd(ps))
  {
    hide For;
    var ps := PathsOf(env, paths, d);
    AddPathsAtRoot(env, New(Invalid, black), paths, d, [], black);
    Regroup([], ps, []);
    assert [] + ps == ps;
    RootIs(env, NewFieldMask(env, black, paths, d).value, d, ps, black);
  }

  /** A mask without a type passes everything.  That is what a list leaves whose paths are
      all empty, or whose root is of a type that masks do not support. */
  lemma UntypedPasses(env: Env, black: bool, paths: seq<seq<Token>>, d: Desc, q: seq<Slot>)
    requires GoodEnv(env) && AllSimple(paths) && NewFieldMask(env, black, paths, d).Some?
    requires !Named(paths) || SwitchFt(env, d) == Invalid
    ensures Passes(NewFieldMask(env, black, paths, d), q) && Safe(NewFieldMask(env, black, paths, d), q)
    ensures paths != [] ==> Says(PathsOf(env, paths, d), q) && (q != [] ==> SomeCuts(PathsOf(env, paths, d), q))
    ensures NothingTaken(env, d, PathsOf(env, paths, d)) && BehindAll(PathsOf(env, paths, d)) == []
  {
    hide For, Steps, NothingTaken, BehindAll, Says, SomeCuts;
    var ps := PathsOf(env, paths, d);
    MadeAtRoot(env, black, paths, d);
    if q != [] {
      NothingPasses(q[1..]);
    }
    if paths != [] {
      assert ps[0] in ps;
      EmptySays(ps, q);
    }
    OnlyEndsTakeNothing(env, d, ps);
  }

  lemma OnlyEndsTakeNothing(env: Env, d: Desc, ps: seq<Path>)
    requires OnlyEnd(ps)
    ensures NothingTaken(env, d, ps) && BehindAll(ps) == []
  {
    hide Behind, BehindAll;
    forall s: Slot
      ensures Rest(ps, s) == []
    {
      OnlyEnds(ps, s);
    }
    RestIs(ps, Every);
    assert forall s: Slot :: s != Every ==> Rest(ps, s) == Behind(ps, s);
  }

  /** A white list: every walk that fits the types passes at every step exactly when some path
      agrees with it as far as both go, so one is a prefix of the other and a star agrees with
      every place, if and only if no bracket that names nothing takes back what a path allows
      and no path comes to a place of a type that masks do not support. */
  lemma WhiteList(env: Env, paths: seq<seq<Token>>, d: Desc)
    requires GoodEnv(env) && AllSimple(paths) && NewFieldMask(env, false, paths, d).Some?
    requires Clean(PathsOf(env, paths, d))
    ensures NothingTaken(env, d, PathsOf(env, paths, d))
            <==> forall q :: WalkOf(env, d, q) ==>
                   (Passes(NewFieldMask(env, false, paths, d), q) <==> paths == [] || Says(PathsOf(env, paths, d), q))
  {
    hide NothingTaken, Says, WalkOf, For, AllSimple, Clean;
    var m, ps := NewFieldMask(env, false, paths, d), PathsOf(env, paths, d);
    MadeAtRoot(env, false, paths, d);
    if !Named(paths) || SwitchFt(env, d) == Invalid {
      forall q: seq<Slot>
        ensures Passes(m, q) && (paths != [] ==> Says(ps, q)) && NothingTaken(env, d, ps)
      {
        UntypedPasses(env, false, paths, d, q);
      }
      UntypedPasses(env, false, paths, d, []);
    } else if NothingTaken(env, d, ps) {
      forall q | WalkOf(env, d, q)
        ensures Passes(m, q) <==> Says(ps, q)
      {
        WhiteHolds(env, m.value, d, ps, q);
        EmptySays(ps, q);
      }
    } else {
      var q := WhiteWrong(env, m.value, d, ps);
    }
  }

  /** The lists for which a black list does what its paths say. */
  ghost predicate AllSharp(env: Env, paths: seq<seq<Token>>, d: Desc) {
    paths == [] || !Askable(env, d) || (Named(paths) && Sharp(env, d, PathsOf(env, paths, d)))
  }

  /** A black list: every walk that fits the types is rejected exactly when it goes through the
      end of some path, or on behind it where the path ends with a star, if and only if the root
      is named, nothing goes on where a path ends, something goes on at every other place that a
      path comes to, and masks support the types of all these places. */
  lemma BlackList(env: Env, paths: seq<seq<Token>>, d: Desc)
    requires GoodEnv(env) && AllSimple(paths) && NewFieldMask(env, true, paths, d).Some?
    requires Clean(PathsOf(env, paths, d))
    ensures AllSharp(env, paths, d)
            <==> forall q :: WalkOf(env, d, q) ==>
                   (Passes(NewFieldMask(env, true, paths, d), q) <==> !SomeCuts(PathsOf(env, paths, d), q))
  {
    hide Sharp, SomeCuts, For, AllSimple, Passes, Asked, Askable, SwitchFt, NewFieldMask, Named, GoodEnv, Clean;
    var m, ps := NewFieldMask(env, true, paths, d), PathsOf(env, paths, d);
    MadeAtRoot(env, true, paths, d);
    AskableIs(env, d);
    if paths == [] {
      forall q: seq<Slot>
        ensures Passes(m, q) && !SomeCuts(ps, q)
      {
        UntypedPasses(env, true, paths, d, q);
        NobodySays(q);
      }
    } else if !Askable(env, d) {
      forall q | WalkOf(env, d, q)
        ensures Passes(m, q) && !SomeCuts(ps, q)
      {
        if q != [] { AskedIsReal(env, d, q[0]); }
        EmptySays(ps, q);
        EmptyPasses(m);
      }
    } else if !Named(paths) {
      var t := NewPlace(env, d, {});
      EndsWalk(env, d, t);
      UntypedPasses(env, true, paths, d, [t]);
    } else if Sharp(env, d, ps) {
      forall q | WalkOf(env, d, q)
        ensures Passes(m, q) <==> !SomeCuts(ps, q)
      {
        BlackHolds(env, m.value, d, ps, q);
      }
    } else {
      var q := BlackWrong(env, m.value, d, ps);
    }
  }

  lemma EmptyPasses(m: Option<Mask>)
    ensures Passes(m, [])
  {
  }

  lemma AskableIs(env: Env, d: Desc)
    ensures Askable(env, d) ==> SwitchFt(env, d) != Invalid
  {
  }
}
