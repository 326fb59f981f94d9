/** Masks follow the types that paths are read against, whatever paths are added, all stars
    included. */
module MaskTyped {
  import opened Wrappers
  import opened MaskPaths
  import opened MaskTree

  /** A struct of which not everything is covered has a field map. */
  predicate HasItsFields(m: Mask) {
    m.typ == Struct && !m.isAll ==> HasFields(m)
  }

  /** Every mask has the type of its place or has been cleared, keeps masks at places of its
      kind, and all belong to the same kind of list.  Behind a star for all fields of a struct
      (`stars` says whether there is any) paths are still read against the struct, while the
      mask has the type of the first field: such a mask is `stale`, and it keeps masks only
      once it has been given the type of the struct. */
  predicate Typed(env: Env, m: Mask, d: Desc, black: bool, stars: bool, stale: bool)
    decreases m, 0
  {
    && m.isBlack == black
    && (m.typ == SwitchFt(env, d) || if stale then m.kids == map[] else m.typ == Invalid)
    && forall s :: s in m.kids ==> KidTyped(env, m.kids[s], s, d, black, stars)
  }

  predicate KidTyped(env: Env, k: Mask, s: Slot, d: Desc, black: bool, stars: bool)
    decreases k, 1
  {
    && HasItsFields(k)
    && if s == Every && SwitchFt(env, d) == Struct then stars && Typed(env, k, d, black, stars, true)
       else
         (s == Every || Fits(SwitchFt(env, d), s)) && KidDesc(env, d, s).Some?
         && Typed(env, k, KidDesc(env, d, s).value, black, stars, false)
  }

  /** No star stands for all fields of a struct: below such a star the type that paths are
      read against is still that of the struct. */
  predicate Steady(toks: seq<Token>) {
    forall i :: 0 < i < |toks| && toks[i - 1].Dot? ==> !toks[i].Any?
  }

  lemma SteadySuffix(toks: seq<Token>, i: nat)
    requires Steady(toks) && i <= |toks|
    ensures Steady(toks[i..])
  {
  }

  lemma SuffixOf(toks: seq<Token>, i: nat, rest: seq<Token>)
    requires i <= |toks| && Suffix(rest, toks[i..])
    ensures Suffix(rest, toks)
  {
    assert toks[i..][|toks[i..]| - |rest|..] == toks[|toks| - |rest|..];
  }

  predicate Suffix(rest: seq<Token>, toks: seq<Token>) {
    |rest| <= |toks| && rest == toks[|toks| - |rest|..]
  }

  lemma WholeSuffix(toks: seq<Token>)
    ensures Suffix([], toks) && (toks != [] ==> Suffix(toks[1..], toks))
  {
  }

  /** What a bracket leaves is the end of the path, and its keys are of the kind of the mask. */
  lemma {:induction false} GroupRest(kind: FieldMaskType, close: Token, toks: seq<Token>, empty: bool, g: Group)
    requires ReadGroup(kind, close, toks, empty, g).Some?
    requires forall i :: 0 <= i < |g.keys| ==> Fits(kind, g.keys[i])
    ensures var r := ReadGroup(kind, close, toks, empty, g).value;
            Suffix(r.rest, toks) && forall i :: 0 <= i < |r.keys| ==> Fits(kind, r.keys[i])
    decreases |toks|
  {
    hide Suffix;
    WholeSuffix(toks);
    if toks != [] && toks[0] != close {
      var g' := if toks[0].Elem? then g
                else if toks[0].Any? then g.(all := true, star := true)
                else g.(keys := g.keys + [KeyOf(kind, toks[0]).value]);
      GroupRest(kind, close, toks[1..], false, g');
      assert ReadGroup(kind, close, toks, empty, g) == ReadGroup(kind, close, toks[1..], false, g');
      SuffixOf(toks, 1, ReadGroup(kind, close, toks, empty, g).value.rest);
    }
  }

  lemma {:induction false} ResetIsTyped(env: Env, m: Mask, d: Desc, black: bool, stars: bool)
    requires Typed(env, m, d, black, stars, false)
    ensures Typed(env, Reset(m), d, black, stars, false) && HasItsFields(Reset(m))
    decreases m
  {
    StarredIsTyped(env, m, d, black, stars, false, Concrete);
    assert Reset(m).kids == Starred(m, Concrete).kids;
  }

  lemma {:induction false} StarredIsTyped(env: Env, m: Mask, d: Desc, black: bool, stars: bool, stale: bool, which: Slot -> bool)
    requires Typed(env, m, d, black, stars, stale) && !which(Every)
    ensures Typed(env, Starred(m, which), d, black, stars, stale) && HasItsFields(Starred(m, which))
    decreases m, 1
  {
    forall s | s in m.kids
      ensures KidTyped(env, Starred(m, which).kids[s], s, d, black, stars)
    {
      if which(s) {
        ResetIsTyped(env, m.kids[s], KidDesc(env, d, s).value, black, stars);
      }
    }
    assert m.kids == map[] ==> Starred(m, which).kids == map[];
  }

  predicate Place(env: Env, d: Desc, s: Slot, e: Desc) {
    (s == Every || Fits(SwitchFt(env, d), s)) && KidDesc(env, d, s) == Some(e)
  }

  lemma KeysArePlaces(env: Env, d: Desc, kind: FieldMaskType, keys: seq<Slot>, elem: Desc)
    requires kind == SwitchFt(env, d) && KidDesc(env, d, Every) == Some(elem)
    requires forall i :: 0 <= i < |keys| ==> Fits(kind, keys[i])
    ensures forall i :: 0 <= i < |keys| ==> Place(env, d, keys[i], elem) && keys[i] != Every
    ensures kind == Scalar ==> keys == []
    ensures Place(env, d, Every, elem) && kind != Struct && kind != Invalid
  {
    assert keys != [] ==> Fits(kind, keys[0]);
  }

  lemma PlaceIsTyped(env: Env, k: Mask, s: Slot, d: Desc, e: Desc, black: bool, stars: bool)
    requires Place(env, d, s, e)
    ensures KidTyped(env, k, s, d, black, stars) <==> HasItsFields(k) && Typed(env, k, e, black, stars, false)
  {
  }

  lemma MakeIsTyped(env: Env, m: Mask, d: Desc, black: bool, stars: bool, stale: bool, s: Slot, e: Desc)
    requires Typed(env, m, d, black, stars, stale) && Place(env, d, s, e)
    ensures Typed(env, Make(m, s, SwitchFt(env, e)), e, black, stars, false)
  {
    if s in m.kids {
      PlaceIsTyped(env, m.kids[s], s, d, e, black, stars);
    }
  }

  lemma MakeIsStale(env: Env, m: Mask, d: Desc, black: bool, stale: bool, typ: FieldMaskType)
    requires Typed(env, m, d, black, true, stale) && SwitchFt(env, d) == Struct
    ensures Typed(env, Make(m, Every, typ), d, black, true, true)
  {
    var k := Make(m, Every, typ);
    if Every in m.kids {
      assert KidTyped(env, m.kids[Every], Every, d, black, true);
      assert Typed(env, m.kids[Every], d, black, true, true);
    }
    assert (Every in m.kids && k == m.kids[Every]) || k.kids == map[];
  }

  lemma PutIsTyped(env: Env, m: Mask, d: Desc, black: bool, stars: bool, stale: bool, s: Slot, k: Mask)
    requires Typed(env, m, d, black, stars, stale) && m.typ == SwitchFt(env, d) && KidTyped(env, k, s, d, black, stars)
    ensures Typed(env, m.(kids := m.kids[s := k]), d, black, stars, stale)
  {
    var m' := m.(kids := m.kids[s := k]);
    forall r | r in m'.kids
      ensures KidTyped(env, m'.kids[r], r, d, black, stars)
    {
      if r != s {
        assert r in m.kids;
      }
    }
  }

  ghost predicate StaysTyped(env: Env, m: Option<Mask>, d: Desc, black: bool, stars: bool, stale: bool) {
    m.Some? ==> Typed(env, m.value, d, black, stars, stale) && HasItsFields(m.value)
  }

  /** Adding a path keeps the mask typed. */
  lemma {:induction false} AddIsTyped(env: Env, m: Mask, toks: seq<Token>, d: Desc, black: bool, stars: bool, stale: bool)
    requires GoodEnv(env) && Typed(env, m, d, black, stars, stale) && (!stars ==> Steady(toks))
    requires stale ==> SwitchFt(env, d) == Struct
    ensures StaysTyped(env, AddPath(env, m, toks, d), d, black, stars, stale)
    decreases |toks|, 0
  {
    hide Typed, Steady, AddField, AddIndex, AddKey;
    EndIsTyped(env, m, d, black, stars, stale);
    if toks != [] {
      SteadyRest(toks);
      match toks[0]
      case Root => AddIsTyped(env, m.(typ := SwitchFt(env, d)), toks[1..], d, black, stars, stale);
      case Dot => FieldIsTyped(env, m, toks[1..], d, black, stars, stale);
      case IndexL => BracketIsTyped(env, m, IndexR, toks[1..], d, black, stars, stale);
      case MapL => BracketIsTyped(env, m, MapR, toks[1..], d, black, stars, stale);
      case _ =>
    }
  }

  lemma EndIsTyped(env: Env, m: Mask, d: Desc, black: bool, stars: bool, stale: bool)
    requires Typed(env, m, d, black, stars, stale)
    ensures Typed(env, m.(isAll := true), d, black, stars, stale) && HasItsFields(m.(isAll := true))
    ensures Typed(env, m.(typ := SwitchFt(env, d)), d, black, stars, stale)
    ensures !stale && m.typ != Invalid ==> m.typ == SwitchFt(env, d)
  {
  }

  lemma SteadyRest(toks: seq<Token>)
    requires toks != []
    ensures Steady(toks) ==> Steady(toks[1..]) && (|toks| > 1 && toks[0].Dot? ==> !toks[1].Any?)
  {
    if Steady(toks) {
      SteadySuffix(toks, 1);
    }
  }

  lemma {:induction false} FieldIsTyped(env: Env, m: Mask, toks: seq<Token>, d: Desc, black: bool, stars: bool, stale: bool)
    requires GoodEnv(env) && Typed(env, m, d, black, stars, stale)
    requires !stars ==> Steady(toks) && (toks != [] ==> !toks[0].Any?)
    ensures StaysTyped(env, AddField(env, m, toks, d), d, black, stars, stale)
    decreases |toks|, 1
  {
    hide Typed, Steady, KidTyped, Starred, Make;
    if AddField(env, m, toks, d).Some? {
      var fs := env[Unwrap(d).name];
      SteadyRest(toks);
      if toks[0].Any? {
        var m' := Starred(m, Fielded);
        StarredIsTyped(env, m, d, black, true, stale, Fielded);
        StarredKeeps(m, Fielded);
        var k := Make(m', Every, SwitchFt(env, fs[0].ty));
        MakeIsStale(env, m', d, black, stale, SwitchFt(env, fs[0].ty));
        AddIsTyped(env, k, toks[1..], d, black, true, true);
        StaleIsKid(env, AddPath(env, k, toks[1..], d).value, d, black);
        PutIsTyped(env, m', d, black, true, stale, Every, AddPath(env, k, toks[1..], d).value);
      } else {
        var f := FieldOf(fs, toks[0]).value;
        FieldIsGood(env, Unwrap(d).name, f);
        var s := Fd(f.id);
        MakeIsTyped(env, m, d, black, stars, stale, s, f.ty);
        var k := Make(m, s, SwitchFt(env, f.ty));
        AddIsTyped(env, k, toks[1..], f.ty, black, stars, false);
        PlaceIsTyped(env, AddPath(env, k, toks[1..], f.ty).value, s, d, f.ty, black, stars);
        PutIsTyped(env, m, d, black, stars, stale, s, AddPath(env, k, toks[1..], f.ty).value);
        assert s in AddField(env, m, toks, d).value.kids;
      }
    }
  }

  lemma KeyedIsConcrete(close: Token)
    ensures !Keyed(close)(Every)
  {
  }

  lemma StarredKeeps(m: Mask, which: Slot -> bool)
    ensures Starred(m, which).typ == m.typ && Starred(m, which).isAll
  {
  }

  lemma StaleIsKid(env: Env, k: Mask, d: Desc, black: bool)
    requires SwitchFt(env, d) == Struct && Typed(env, k, d, black, true, true) && HasItsFields(k)
    ensures KidTyped(env, k, Every, d, black, true)
  {
  }

  lemma {:induction false} BracketIsTyped(env: Env, m: Mask, close: Token, toks: seq<Token>, d: Desc, black: bool, stars: bool, stale: bool)
    requires GoodEnv(env) && Typed(env, m, d, black, stars, stale) && (!stars ==> Steady(toks))
    requires (close == IndexR || close == MapR) && (stale ==> SwitchFt(env, d) == Struct)
    ensures StaysTyped(env, if close == IndexR then AddIndex(env, m, toks, d) else AddKey(env, m, toks, d), d, black, stars, stale)
    decreases |toks|, 3
  {
    hide Typed, ReadGroup, AddGroup, Steady, Fits;
    var t := Unwrap(d);
    var g := ReadGroup(m.typ, close, toks, true, Group(All(m), false, [], []));
    NoGroup(env, m, close, |toks|);
    if (if close == IndexR then t.ListOf? && m.typ == List else t.MapOf? && m.typ != Invalid) && g.Some? {
      EndIsTyped(env, m, d, black, stars, stale);
      GroupRest(m.typ, close, toks, true, Group(All(m), false, [], []));
      KeysArePlaces(env, d, m.typ, g.value.keys, t.elem);
      if Steady(toks) { SteadySuffix(toks, |toks| - |g.value.rest|); }
      assert !stale && g == Some(g.value);
      GroupIsTyped(env, m, close, g.value, |toks|, d, t.elem, black, stars);
    }
  }

  lemma NoGroup(env: Env, m: Mask, close: Token, n: nat)
    ensures forall e :: AddGroup(env, m, close, None, n, e) == None
  {
  }

  lemma {:induction false} GroupIsTyped(env: Env, m: Mask, close: Token, g: Group, n: nat, d: Desc, e: Desc, black: bool, stars: bool)
    requires GoodEnv(env) && Typed(env, m, d, black, stars, false) && (!stars ==> Steady(g.rest)) && |g.rest| <= n
    requires m.typ == SwitchFt(env, d) != Struct && Place(env, d, Every, e)
    requires forall i :: 0 <= i < |g.keys| ==> Place(env, d, g.keys[i], e)
    ensures StaysTyped(env, AddGroup(env, m, close, Some(g), n, e), d, black, stars, false)
    decreases |g.rest|, 2
  {
    hide Typed, KidTyped, AddEach, AddPath, Make, Starred, Steady, Place, Fits, Keyed;
    KeyedIsConcrete(close);
    StarredIsTyped(env, m, d, black, stars, false, Keyed(close));
    StarredKeeps(m, Keyed(close));
    var m' := if g.star then Starred(m, Keyed(close)) else m;
    if g.all {
      EveryIsTyped(env, m', g.rest, d, e, black, stars);
    } else {
      EachIsTyped(env, m', g.keys, g.rest, d, e, black, stars);
    }
  }

  lemma {:induction false} EveryIsTyped(env: Env, m: Mask, rest: seq<Token>, d: Desc, e: Desc, black: bool, stars: bool)
    requires GoodEnv(env) && Typed(env, m, d, black, stars, false) && (!stars ==> Steady(rest))
    requires m.typ == SwitchFt(env, d) != Struct && Place(env, d, Every, e)
    ensures StaysTyped(env, Put(m, Every, AddPath(env, Make(m, Every, SwitchFt(env, e)), rest, e)), d, black, stars, false)
    decreases |rest|, 1
  {
    hide Typed, KidTyped, AddPath, Make, Steady, Place;
    MakeIsTyped(env, m, d, black, stars, false, Every, e);
    AddIsTyped(env, Make(m, Every, SwitchFt(env, e)), rest, e, black, stars, false);
    var k := AddPath(env, Make(m, Every, SwitchFt(env, e)), rest, e);
    if k.Some? {
      PlaceIsTyped(env, k.value, Every, d, e, black, stars);
      PutIsTyped(env, m, d, black, stars, false, Every, k.value);
    }
  }

  lemma {:induction false} EachIsTyped(env: Env, m: Mask, keys: seq<Slot>, rest: seq<Token>, d: Desc, e: Desc, black: bool, stars: bool)
    requires GoodEnv(env) && Typed(env, m, d, black, stars, false) && (!stars ==> Steady(rest))
    requires m.typ == SwitchFt(env, d) != Struct && forall i :: 0 <= i < |keys| ==> Place(env, d, keys[i], e)
    ensures StaysTyped(env, AddEach(env, m, keys, rest, e), d, black, stars, false)
    decreases |rest|, 1, |keys|
  {
    hide Typed, KidTyped, Make, Steady;
    if keys != [] {
      var s := keys[0];
      MakeIsTyped(env, m, d, black, stars, false, s, e);
      AddIsTyped(env, Make(m, s, SwitchFt(env, e)), rest, e, black, stars, false);
      var k := AddPath(env, Make(m, s, SwitchFt(env, e)), rest, e);
      if k.Some? {
        PlaceIsTyped(env, k.value, s, d, e, black, stars);
        PutIsTyped(env, m, d, black, stars, false, s, k.value);
        EachIsTyped(env, m.(kids := m.kids[s := k.value]), keys[1..], rest, d, e, black, stars);
      }
    }
  }

  /** Every mask made from a list of paths is typed. */
  lemma {:induction false} ListIsTyped(env: Env, m: Mask, paths: seq<seq<Token>>, d: Desc, black: bool, stars: bool)
    requires GoodEnv(env) && Typed(env, m, d, black, stars, false) && HasItsFields(m)
    requires !stars ==> forall i :: 0 <= i < |paths| ==> Steady(paths[i])
    ensures StaysTyped(env, AddPaths(env, m, paths, d), d, black, stars, false)
    decreases |paths|
  {
    hide Typed, HasItsFields, Steady;
    if paths != [] {
      AddIsTyped(env, m, paths[0], d, black, stars, false);
      var m' := AddPath(env, m, paths[0], d);
      if m'.Some? {
        ListIsTyped(env, m'.value, paths[1..], d, black, stars);
      }
    }
  }

  lemma NewIsTyped(env: Env, black: bool, paths: seq<seq<Token>>, d: Desc)
    requires GoodEnv(env)
    ensures StaysTyped(env, NewFieldMask(env, black, paths, d), d, black, true, false)
    ensures (forall i :: 0 <= i < |paths| ==> Steady(paths[i])) ==>
              StaysTyped(env, NewFieldMask(env, black, paths, d), d, black, false, false)
  {
    ListIsTyped(env, New(Invalid, black), paths, d, black, true);
    if forall i :: 0 <= i < |paths| ==> Steady(paths[i]) {
      ListIsTyped(env, New(Invalid, black), paths, d, black, false);
    }
  }
}
