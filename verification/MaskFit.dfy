/** Lists of accepted paths fit the types: what their first steps may be, at every place, and
    which places are left to ask for. */
module MaskFit {
  import opened Wrappers
  import opened MaskPaths
  import opened MaskTree
  import opened MaskTyped
  import opened MaskLaws

  /** The first step of a path fits a type. */
  predicate FirstFits(env: Env, d: Desc, p: Path) {
    p == []
    || (p[0].To? && p[0].places != [] && forall s :: s in p[0].places ==> Fits(SwitchFt(env, d), s))
    || (p[0].Unnamed? && KidDesc(env, d, Every).Some? && (p[0].always <==> SwitchFt(env, d) == Scalar))
    || (p[0].Star? && ElemDesc(env, d, Every).Some? && (Unwrap(d).StructOf? ==> |p| == 1))
  }

  /** Elements that a path goes to are of a type that masks support. */
  predicate Reachable(env: Env, d: Desc, s: Slot) {
    ElemDesc(env, d, s).Some? && (s.Fd? || Unwrap(d).StructOf? || Supported(env, d, s))
  }

  /** At every place what is left of the paths fits the type there. */
  ghost predicate Fitting(env: Env, d: Desc, ps: seq<Path>)
    decreases Longest(ps)
  {
    && (forall p :: p in ps ==> FirstFits(env, d, p))
    && forall s: Slot :: Rest(ps, s) != [] ==>
         Reachable(env, d, s) && (RestIsShorter(ps, s); Fitting(env, ElemDesc(env, d, s).value, Rest(ps, s)))
  }

  lemma RestIsShorter(ps: seq<Path>, s: Slot)
    ensures Rest(ps, s) != [] ==> Longest(Rest(ps, s)) < Longest(ps)
  {
    BehindIsShorter(ps, s);
  }

  lemma NothingFits(env: Env, d: Desc)
    ensures Fitting(env, d, [])
  {
    assert forall s: Slot :: Rest([], s) == [];
  }

  lemma FitsBelow(env: Env, d: Desc, ps: seq<Path>, s: Slot, e: Desc)
    requires Fitting(env, d, ps) && ElemDesc(env, d, s) == Some(e)
    ensures Fitting(env, e, Rest(ps, s))
  {
    if Rest(ps, s) == [] {
      NothingFits(env, e);
    }
  }

  /** One path more: it is enough to look at its first step and at the places it goes to. */
  lemma FitsWith(env: Env, d: Desc, ps: seq<Path>, p: Path)
    requires Fitting(env, d, ps) && FirstFits(env, d, p)
    requires forall s: Slot :: Rest(ps + [p], s) != Rest(ps, s) ==>
               Reachable(env, d, s) && Fitting(env, ElemDesc(env, d, s).value, Rest(ps + [p], s))
    ensures Fitting(env, d, ps + [p])
  {
    forall s: Slot | Rest(ps + [p], s) != []
      ensures Reachable(env, d, s) && Fitting(env, ElemDesc(env, d, s).value, Rest(ps + [p], s))
    {
      if Rest(ps + [p], s) == Rest(ps, s) {
        assert Rest(ps, s) != [];
      }
    }
  }

  /** An accepted path fits behind paths that fit. */
  lemma {:induction false} AddFits(env: Env, toks: seq<Token>, d: Desc, ps: seq<Path>)
    requires GoodEnv(env) && Simple(toks) && Fitting(env, d, ps) && Accepts(ps, Steps(env, toks, d))
    ensures Fitting(env, d, ps + [Steps(env, toks, d)])
    decreases |toks|, 0
  {
    hide Fitting, Accepts, FirstFits, Bracket;
    var p := Steps(env, toks, d);
    AcceptsIs(ps, p);
    if toks == [] {
      EmptyFits(env, d, ps);
    } else {
      SimpleSuffix(toks, 1);
      match toks[0]
      case Root => AddFits(env, toks[1..], d, ps);
      case Dot =>
        if toks[1].Any? && env[Unwrap(d).name] != [] {
          StarFits(env, toks, d, ps);
        } else {
          FieldFits(env, toks, d, ps);
        }
      case IndexL => BracketFits(env, IndexR, toks[1..], d, Unwrap(d).elem, ps);
      case MapL => BracketFits(env, MapR, toks[1..], d, Unwrap(d).elem, ps);
    }
  }

  lemma EmptyFits(env: Env, d: Desc, ps: seq<Path>)
    requires Fitting(env, d, ps)
    ensures Fitting(env, d, ps + [[]])
  {
    IsIdle(ps, []);
    FitsWith(env, d, ps, []);
  }

  lemma {:induction false} FieldFits(env: Env, toks: seq<Token>, d: Desc, ps: seq<Path>)
    requires GoodEnv(env) && Simple(toks) && Fitting(env, d, ps) && Accepts(ps, Steps(env, toks, d))
    requires |toks| >= 2 && toks[0] == Dot && Unwrap(d).StructOf? && Unwrap(d).name in env
    requires FieldOf(env[Unwrap(d).name], toks[1]).Some?
    ensures Fitting(env, d, ps + [Steps(env, toks, d)])
    decreases |toks| - 1, 3
  {
    hide Fitting, Accepts, KidDesc, ElemDesc, Simple, Behind, BehindAll, Rest, GoodEnv;
    var p := Steps(env, toks, d);
    AcceptsIs(ps, p);
    var f := FieldOf(env[Unwrap(d).name], toks[1]).value;
    FieldIsGood(env, Unwrap(d).name, f);
    FieldIsHome(env, d, f);
    SimpleSuffix(toks, 2);
    var s, tail := Fd(f.id), Steps(env, toks[2..], f.ty);
    assert p == [To([s])] + tail && p[1..] == tail;
    OneBefore(ps, s, tail);
    FitsBelow(env, d, ps, s, f.ty);
    RestIs(ps, s);
    assert Accepts(Before(ps, p[0].places, 0, tail), tail);
    AddFits(env, toks[2..], f.ty, Behind(ps, s));
    OneRest(ps, s, tail);
    FitsWith(env, d, ps, p);
  }

  lemma OneRest(ps: seq<Path>, s: Slot, tail: Path)
    requires s != Every
    ensures forall r: Slot :: Rest(ps + [[To([s])] + tail], r) == if r == s then Rest(ps, r) + [tail] else Rest(ps, r)
  {
    hide Rest;
    forall r: Slot
      ensures Rest(ps + [[To([s])] + tail], r) == if r == s then Rest(ps, r) + [tail] else Rest(ps, r)
    {
      ToRest(ps, [s], tail, r);
      assert [] + [s] == [s];
      TimesMore([], s, r, tail);
      Regroup(Rest(ps, r), [], []);
    }
  }

  lemma StarFits(env: Env, toks: seq<Token>, d: Desc, ps: seq<Path>)
    requires Simple(toks) && Fitting(env, d, ps)
    requires |toks| >= 2 && toks[0] == Dot && toks[1].Any?
    requires Unwrap(d).StructOf? && Unwrap(d).name in env && env[Unwrap(d).name] != []
    ensures Fitting(env, d, ps + [Steps(env, toks, d)])
  {
    hide Fitting, Rest, BehindAll;
    assert |toks| == 2 && toks[2..] == [];
    var p, e := [Star(true)], env[Unwrap(d).name][0].ty;
    assert Steps(env, [], e) == [];
    assert Steps(env, toks, d) == p && p[1..] == [];
    FitsBelow(env, d, ps, Every, e);
    RestIs(ps, Every);
    EmptyFits(env, e, BehindAll(ps));
    AllRest(ps, p);
    FitsWith(env, d, ps, p);
  }

  lemma {:induction false} BracketFits(env: Env, close: Token, toks: seq<Token>, d: Desc, elem: Desc, ps: seq<Path>)
    requires GoodEnv(env) && Simple(toks) && Fitting(env, d, ps) && KidDesc(env, d, Every) == Some(elem)
    requires Accepts(ps, Bracket(env, SwitchFt(env, d), close, toks, elem))
    ensures Fitting(env, d, ps + [Bracket(env, SwitchFt(env, d), close, toks, elem)])
    decreases |toks|, 3
  {
    hide Fitting, Accepts, Steps, ReadGroup, KidDesc, ElemDesc, Simple, Behind, BehindAll, Rest, Whole, Stars;
    var kind := SwitchFt(env, d);
    var p := Bracket(env, kind, close, toks, elem);
    AcceptsIs(ps, p);
    var a := ReadGroup(kind, close, toks, true, Group(false, false, [], []));
    if a.Some? && SwitchFt(env, elem) != Invalid {
      var keys, rest := a.value.keys, a.value.rest;
      GroupRest(kind, close, toks, true, Group(false, false, [], []));
      SimpleRest(toks, rest);
      KeysAreHomes(env, d, kind, keys, elem);
      ElementsFit(env, d, elem);
      assert p[1..] == Steps(env, rest, elem);
      if a.value.star || keys == [] {
        EveryFits(env, rest, d, elem, ps, p);
      } else {
        NamedFits(env, rest, d, elem, keys, ps);
      }
    }
  }

  lemma ElementsFit(env: Env, d: Desc, elem: Desc)
    requires KidDesc(env, d, Every) == Some(elem) && SwitchFt(env, elem) != Invalid
    ensures ElemDesc(env, d, Every) == Some(elem) && Supported(env, d, Every) && Reachable(env, d, Every)
    ensures !Unwrap(d).StructOf?
  {
  }

  lemma {:induction false} EveryFits(env: Env, rest: seq<Token>, d: Desc, elem: Desc, ps: seq<Path>, p: Path)
    requires GoodEnv(env) && Simple(rest) && Fitting(env, d, ps) && ElemDesc(env, d, Every) == Some(elem) && Reachable(env, d, Every)
    requires p != [] && p[1..] == Steps(env, rest, elem) && FirstFits(env, d, p) && (p[0].Star? || p[0].Unnamed?)
    requires IntoAll(ps, p) ==> Accepts(BehindAll(ps), p[1..])
    ensures Fitting(env, d, ps + [p])
    decreases |rest|, 2
  {
    hide Fitting, Accepts, Steps, BehindAll, Rest, FirstFits, IntoAll;
    if IntoAll(ps, p) {
      FitsBelow(env, d, ps, Every, elem);
      RestIs(ps, Every);
      AddFits(env, rest, elem, BehindAll(ps));
    }
    AllRest(ps, p);
    FitsWith(env, d, ps, p);
  }

  lemma AllRest(ps: seq<Path>, p: Path)
    requires p != [] && (p[0].Unnamed? || p[0].Star?)
    ensures forall s: Slot :: Rest(ps + [p], s) ==
              if s == Every && IntoAll(ps, p) then BehindAll(ps) + [p[1..]] else Rest(ps, s)
  {
    hide IntoAll;
    forall s: Slot
      ensures Rest(ps + [p], s) == if s == Every && IntoAll(ps, p) then BehindAll(ps) + [p[1..]] else Rest(ps, s)
    {
      RestAdd(ps, p, s);
      Regroup(Rest(ps, s), [], []);
    }
  }

  lemma {:induction false} NamedFits(env: Env, rest: seq<Token>, d: Desc, elem: Desc, keys: seq<Slot>, ps: seq<Path>)
    requires GoodEnv(env) && Simple(rest) && Fitting(env, d, ps) && SwitchFt(env, elem) != Invalid && keys != []
    requires forall i :: 0 <= i < |keys| ==> Home(env, d, keys[i], elem) && keys[i] != Every
    requires forall i :: 0 <= i < |keys| ==> Accepts(Before(ps, keys, i, Steps(env, rest, elem)), Steps(env, rest, elem))
    ensures Fitting(env, d, ps + [[To(keys)] + Steps(env, rest, elem)])
    decreases |rest|, 2
  {
    hide Fitting, Accepts, Steps, KidDesc, ElemDesc, Simple, Behind, BehindAll, Rest, Before;
    var tail := Steps(env, rest, elem);
    forall s | s in keys
      ensures Reachable(env, d, s) && ElemDesc(env, d, s) == Some(elem) && Fitting(env, elem, Rest(ps, s) + Times(keys, s, tail))
    {
      HomeIsReachable(env, d, s, elem);
      FitsBelow(env, d, ps, s, elem);
      RestIs(ps, s);
      KeysFit(env, rest, elem, keys, s, ps, |keys|);
      assert keys[..|keys|] == keys;
    }
    NamedRest(ps, keys, tail);
    FitsWith(env, d, ps, [To(keys)] + tail);
  }

  lemma HomeIsReachable(env: Env, d: Desc, s: Slot, e: Desc)
    requires Home(env, d, s, e) && s != Every && SwitchFt(env, e) != Invalid
    ensures Reachable(env, d, s) && ElemDesc(env, d, s) == Some(e)
  {
  }

  lemma NamedRest(ps: seq<Path>, keys: seq<Slot>, tail: Path)
    ensures forall s: Slot :: Rest(ps + [[To(keys)] + tail], s) ==
              if s in keys && s != Every then Rest(ps, s) + Times(keys, s, tail) else Rest(ps, s)
  {
    forall s: Slot
      ensures Rest(ps + [[To(keys)] + tail], s) ==
                if s in keys && s != Every then Rest(ps, s) + Times(keys, s, tail) else Rest(ps, s)
    {
      ToRest(ps, keys, tail, s);
      Regroup(Rest(ps, s), [], []);
    }
  }

  /** The first `n` keys of a bracket, at one of them. */
  lemma {:induction false} KeysFit(env: Env, rest: seq<Token>, elem: Desc, keys: seq<Slot>, s: Slot, ps: seq<Path>, n: nat)
    requires GoodEnv(env) && Simple(rest) && Fitting(env, elem, Behind(ps, s)) && n <= |keys|
    requires forall i :: 0 <= i < |keys| ==> Accepts(Before(ps, keys, i, Steps(env, rest, elem)), Steps(env, rest, elem))
    ensures Fitting(env, elem, Behind(ps, s) + Times(keys[..n], s, Steps(env, rest, elem)))
    decreases |rest|, 1, n
  {
    hide Fitting, Accepts, Steps, Behind, Times;
    var tail := Steps(env, rest, elem);
    if n == 0 {
      assert Times([], s, tail) == [] by { TimesOfNone(s, tail); }
      Regroup(Behind(ps, s), [], []);
      assert keys[..0] == [];
    } else {
      KeysFit(env, rest, elem, keys, s, ps, n - 1);
      assert keys[..n] == keys[..n - 1] + [keys[n - 1]];
      TimesMore(keys[..n - 1], keys[n - 1], s, tail);
      Regroup(Behind(ps, s), Times(keys[..n - 1], s, tail), [tail]);
      Regroup(Times(keys[..n - 1], s, tail), [], []);
      if keys[n - 1] == s {
        assert Accepts(Before(ps, keys, n - 1, tail), tail);
        AddFits(env, rest, elem, Behind(ps, s) + Times(keys[..n - 1], s, tail));
      }
    }
  }

  lemma TimesOfNone(s: Slot, tail: Path)
    ensures Times([], s, tail) == []
  {
  }
}
