/** What sending does to masks made from paths without a star for all fields, in terms of the
    paths. */
module MaskSending {
  import opened Wrappers
  import opened MaskPaths
  import opened MaskTree
  import opened MaskTyped
  import opened MaskLaws
  import opened MaskFit
  import opened MaskAnswers
  import opened MaskTransfer
  import opened MaskSent
  import opened MaskLists

  /** Some path goes to a place that is written: one of a type that masks support. */
  predicate Goes(env: Env, d: Desc, ps: seq<Path>, s: Slot) {
    s != Every && Behind(ps, s) != [] && Supported(env, d, s)
  }

  /** Some path goes to a place below. */
  ghost predicate NamesSome(env: Env, d: Desc, ps: seq<Path>) {
    exists s: Slot :: Goes(env, d, ps, s)
  }

  /** Everything is covered: a path ends or has a star here, or the keys are of no kind that can
      be named. */
  predicate Covered(env: Env, d: Desc, ps: seq<Path>) {
    Whole(ps) || SwitchFt(env, d) == Scalar
  }

  /** Some path names the key `*` of a string map. */
  predicate NamesStar(env: Env, d: Desc, ps: seq<Path>) {
    SwitchFt(env, d) == StrMap && Behind(ps, Strs("*")) != []
  }

  /** When the mask is read it covers everything although it did not before. */
  ghost predicate Changes(env: Env, d: Desc, ps: seq<Path>) {
    !Whole(ps) && (SwitchFt(env, d) == Scalar || !NamesSome(env, d, ps) || NamesStar(env, d, ps))
  }

  /** A black list of these paths rejects nothing. */
  ghost predicate RejectsNothing(env: Env, d: Desc, ps: seq<Path>)
    decreases Longest(ps)
  {
    RestIsShorter(ps, Every);
    !Askable(env, d)
    || if Whole(ps) then
         GoesOn(ps) && (BehindAll(ps) != [] ==> RejectsNothing(env, DescAt(env, d, Every), BehindAll(ps)))
       else
         forall s: Slot :: Goes(env, d, ps, s) ==>
           GoesOn(Behind(ps, s)) && (BehindIsShorter(ps, s); RejectsNothing(env, DescAt(env, d, s), Behind(ps, s)))
  }

  /** Something is below the mask when it is read. */
  ghost predicate SentGoesOn(env: Env, d: Desc, ps: seq<Path>) {
    if Covered(env, d, ps) then BehindAll(ps) != [] else NamesSome(env, d, ps)
  }

  /** A black list of these paths rejects nothing when it is read. */
  ghost predicate SentRejectsNothing(env: Env, d: Desc, ps: seq<Path>)
    decreases Longest(ps)
  {
    RestIsShorter(ps, Every);
    BehindIsShorter(ps, Strs("*"));
    !Askable(env, d)
    || if Covered(env, d, ps) then
         BehindAll(ps) != [] && SentRejectsNothing(env, DescAt(env, d, Every), BehindAll(ps))
       else if !NamesSome(env, d, ps) then false
       else if NamesStar(env, d, ps) then SentRejectsNothing(env, DescAt(env, d, Every), Behind(ps, Strs("*")))
       else
         forall s: Slot :: Goes(env, d, ps, s) ==>
           SentGoesOn(env, DescAt(env, d, s), Behind(ps, s))
           && (BehindIsShorter(ps, s); SentRejectsNothing(env, DescAt(env, d, s), Behind(ps, s)))
  }

  /** The lists of paths that keep their meaning when the mask is sent: wherever something can
      be asked for, a white list goes to some place where nothing is covered, and not to the key `*`
      of a string map.  A black list may break this where it rejects nothing, before and after;
      and where everything is covered, what goes on does so behind a bracket that names
      nothing. */
  ghost predicate Sendable(env: Env, d: Desc, ps: seq<Path>, black: bool)
    decreases Longest(ps)
  {
    RestIsShorter(ps, Every);
    !Askable(env, d)
    || if Whole(ps) then
         && (black && GoesOn(ps) ==> BehindAll(ps) != [])
         && (BehindAll(ps) != [] ==> Sendable(env, DescAt(env, d, Every), BehindAll(ps), black))
       else if Changes(env, d, ps) then black && RejectsNothing(env, d, ps) && SentRejectsNothing(env, d, ps)
       else
         forall s: Slot :: Goes(env, d, ps, s) && (black ==> GoesOn(Behind(ps, s))) ==>
           (BehindIsShorter(ps, s); Sendable(env, DescAt(env, d, s), Behind(ps, s), black))
  }

  // ----- walks that fit the types -----

  lemma TypedBelow(env: Env, m: Mask, d: Desc, black: bool, s: Slot)
    requires GoodEnv(env) && Typed(env, m, d, black, false, false) && m.typ != Invalid && s in m.kids
    ensures m.typ == SwitchFt(env, d) && KidDesc(env, d, s).Some? && Askable(env, d)
    ensures Typed(env, m.kids[s], DescAt(env, d, s), black, false, false)
    ensures s != Every ==> Asks(Value(env, d), s) && Next(Value(env, d), s) == Some(Value(env, DescAt(env, d, s)))
  {
    assert KidTyped(env, m.kids[s], s, d, black, false);
    if s.Fd? {
      FieldIsGood(env, Unwrap(d).name, FieldById(env[Unwrap(d).name], s.id).value);
    }
  }

  /** Elements are all of one type. */
  lemma ElementsNext(env: Env, d: Desc) returns (t: Slot)
    requires KidDesc(env, d, Every).Some?
    ensures forall s :: Asks(Value(env, d), s) ==> Next(Value(env, d), s) == Some(Value(env, DescAt(env, d, Every)))
    ensures Asks(Value(env, d), t)
  {
    t := AnyPlace(env, d);
    forall s | Asks(Value(env, d), s)
      ensures KidDesc(env, d, s) == KidDesc(env, d, Every)
    {
      AskedIsReal(env, d, s);
    }
  }

  /** What being harmless comes to for masks that fit the types. */
  lemma HarmlessIs(env: Env, m: Mask, d: Desc)
    requires GoodEnv(env) && Typed(env, m, d, true, false, false) && m.typ != Invalid
    ensures Harmless(Value(env, d), m) <==>
            (!Askable(env, d)
             || if m.isAll then
                  HasChild(m) && (Live(m, Every) ==> Harmless(Value(env, DescAt(env, d, Every)), m.kids[Every]))
                else
                  forall s :: s in m.kids && Shown(m, s) ==>
                    HasChild(m.kids[s]) && Harmless(Value(env, DescAt(env, d, s)), m.kids[s]))
  {
    hide Typed, HasChild, Asks, Next, KidDesc;
    TypedTyp(env, m, d, true);
    if m.isAll && Live(m, Every) {
      TypedBelow(env, m, d, true, Every);
      var t := ElementsNext(env, d);
    } else {
      forall s | s in m.kids && Shown(m, s)
        ensures Asks(Value(env, d), s) && Next(Value(env, d), s) == Some(Value(env, DescAt(env, d, s)))
      {
        TypedBelow(env, m, d, true, s);
        EveryIsNotShown(m);
      }
    }
  }

  lemma TypedTyp(env: Env, m: Mask, d: Desc, black: bool)
    requires Typed(env, m, d, black, false, false) && m.typ != Invalid
    ensures m.typ == SwitchFt(env, d) && m.isBlack == black
  {
  }

  /** What surviving comes to for masks that fit the types. */
  lemma SurvivesIs(env: Env, m: Mask, d: Desc, black: bool)
    requires GoodEnv(env) && Typed(env, m, d, black, false, false) && m.typ != Invalid
    ensures Survives(Value(env, d), m) <==>
            (!Askable(env, d)
             || if m.isAll then
                  && (m.isBlack && m.kids != map[] ==> Live(m, Every))
                  && (Live(m, Every) ==> Survives(Value(env, DescAt(env, d, Every)), m.kids[Every]))
                else if Turns(m) then m.isBlack && Harmless(Value(env, d), m) && Harmless(Value(env, d), Rebuilt(m))
                else
                  forall s :: s in m.kids && Shown(m, s) && (m.isBlack ==> HasChild(m.kids[s])) ==>
                    Survives(Value(env, DescAt(env, d, s)), m.kids[s]))
  {
    hide Typed, HasChild, Asks, Next, KidDesc, Rebuilt, Harmless;
    TypedTyp(env, m, d, black);
    if m.isAll {
      if Live(m, Every) {
        TypedBelow(env, m, d, black, Every);
        var t := ElementsNext(env, d);
      }
    } else {
      forall s | s in m.kids && Shown(m, s)
        ensures Asks(Value(env, d), s) && Next(Value(env, d), s) == Some(Value(env, DescAt(env, d, s)))
        ensures m.isBlack && HasChild(m.kids[s]) && Survives(Value(env, DescAt(env, d, s)), m.kids[s]) ==>
                  HasChild(Rebuilt(m.kids[s]))
      {
        TypedBelow(env, m, d, black, s);
        EveryIsNotShown(m);
        ShownExists(m, s);
        StillHasChild(env, m.kids[s], DescAt(env, d, s), black);
      }
    }
  }

  lemma ShownExists(m: Mask, s: Slot)
    requires s in m.kids && Shown(m, s)
    ensures m.kids[s].typ != Invalid
  {
  }

  /** A mask with something below still has something below when it is read. */
  lemma StillHasChild(env: Env, m: Mask, d: Desc, black: bool)
    requires GoodEnv(env) && Typed(env, m, d, black, false, false) && m.typ != Invalid
    ensures black && HasChild(m) && Survives(Value(env, d), m) ==> HasChild(Rebuilt(m))
  {
    RebuiltTyp(m);
    TypedTyp(env, m, d, black);
    if black && HasChild(m) && Survives(Value(env, d), m) {
      var s :| s in m.kids;
      TypedBelow(env, m, d, black, s);
      if m.isAll {
        RebuiltAll(m);
        assert Every in Rebuilt(m).kids;
      } else if Turns(m) {
        assert HasChild(Rebuilt(m));
      } else {
        RebuiltPlain(m);
        var t :| t in m.kids && Shown(m, t);
        assert t in Rebuilt(m).kids;
      }
    }
  }

  lemma {:induction false} RebuiltIsTyped(env: Env, m: Mask, d: Desc, black: bool)
    requires GoodEnv(env) && Typed(env, m, d, black, false, false)
    ensures Typed(env, Rebuilt(m), d, black, false, false) && HasItsFields(Rebuilt(m))
    decreases m
  {
    hide Rebuilt;
    var r := Rebuilt(m);
    RebuiltTyp(m);
    RebuiltFields(m);
    forall s | s in r.kids
      ensures KidTyped(env, r.kids[s], s, d, black, false)
    {
      var t := RebuiltFrom(m, s);
      assert KidTyped(env, m.kids[t], t, d, black, false);
      assert KidDesc(env, d, s) == KidDesc(env, d, t);
      RebuiltIsTyped(env, m.kids[t], KidDesc(env, d, t).value, black);
    }
    assert m.kids == map[] ==> r.kids == map[];
  }

  /** Without a star for all fields of a struct no walk that fits the types panics on what is
      read, whether the mask survives or not. */
  lemma SentIsSafe(env: Env, black: bool, paths: seq<seq<Token>>, d: Desc, t: Transfer, q: seq<Slot>)
    requires GoodEnv(env) && (forall i :: 0 <= i < |paths| ==> Steady(paths[i])) && WalkOf(env, d, q)
    requires NewFieldMask(env, black, paths, d).Some? && Writes(t, NewFieldMask(env, black, paths, d).value)
    requires From(New(Invalid, false), t).Some?
    ensures Safe(From(New(Invalid, false), t), q)
  {
    hide Typed, Orderly, Calm, Writes, Rebuilt, Small, Walks, WalkOf, Safe, Passes;
    var m := NewFieldMask(env, black, paths, d).value;
    NewIsTyped(env, black, paths, d);
    NewIsOrderly(env, black, paths, d);
    OrderlyIsSmall(m, black);
    NoTypeIsRefused(t);
    WritesTyp(t, m);
    Reads(t, m, New(Invalid, false));
    RebuiltIsTyped(env, m, d, black);
    RebuiltIsOrderly(m, black);
    TypedIsCalm(env, Rebuilt(m), d, black);
    WalksOf(env, d, q);
    CalmIsSafe(Value(env, d), Rebuilt(m), black, q);
    assert Follow(Some(Rebuilt(m)), q) != Crash;
  }

  lemma NoTypeIsRefused(t: Transfer)
    ensures t.typ == Invalid ==> From(New(Invalid, false), t).None?
  {
  }

  lemma WritesTyp(t: Transfer, m: Mask)
    requires Writes(t, m)
    ensures t.typ == m.typ
  {
  }

  // ----- masks and paths -----

  /** What is known of a mask made from paths without a star for all fields. */
  ghost predicate Sure(env: Env, m: Mask, d: Desc, ps: seq<Path>, black: bool) {
    For(env, m, d, ps, black) && Typed(env, m, d, black, false, false)
  }

  lemma SureIsTyped(env: Env, m: Mask, d: Desc, ps: seq<Path>, black: bool)
    requires Sure(env, m, d, ps, black)
    ensures Typed(env, m, d, black, false, false)
  {
  }

  /** What that says about a place below. */
  lemma ForAt(env: Env, m: Mask, d: Desc, ps: seq<Path>, black: bool, s: Slot)
    requires GoodEnv(env) && Sure(env, m, d, ps, black)
    ensures m.typ == SwitchFt(env, d) && m.isBlack == black && (m.isAll <==> Whole(ps))
    ensures s in m.kids <==> Rest(ps, s) != []
    ensures s == Every || !Whole(ps) ==> AtPlace(env, m, d, ps, black, s)
    ensures Supported(env, d, s) ==> SwitchFt(env, DescAt(env, d, s)) != Invalid
  {
    hide For, Typed;
    ForBelow(env, m, d, ps, black, s);
    NotWhole(ps);
    if s in m.kids && (s == Every || !Whole(ps)) {
      TypedKid(env, m, d, black, s);
      HasElements(env, d);
      if s != Every {
        KidIsAsked(env, d, s);
      }
    }
  }

  ghost predicate AtPlace(env: Env, m: Mask, d: Desc, ps: seq<Path>, black: bool, s: Slot) {
    && (Live(m, s) <==> s in m.kids && Supported(env, d, s))
    && (s in m.kids && !s.Fd? ==> Supported(env, d, s))
    && (s in m.kids && Shown(m, s) <==> Goes(env, d, ps, s))
    && (s in m.kids ==> Sure(env, m.kids[s], DescAt(env, d, s), Rest(ps, s), black))
  }

  lemma TypedKid(env: Env, m: Mask, d: Desc, black: bool, s: Slot)
    requires Typed(env, m, d, black, false, false) && s in m.kids
    ensures KidDesc(env, d, s) == ElemDesc(env, d, s) && KidDesc(env, d, s).Some?
    ensures Typed(env, m.kids[s], DescAt(env, d, s), black, false, false)
  {
    assert KidTyped(env, m.kids[s], s, d, black, false);
  }

  lemma KidsFor(env: Env, m: Mask, d: Desc, ps: seq<Path>, black: bool)
    requires GoodEnv(env) && Sure(env, m, d, ps, black) && SwitchFt(env, d) != Invalid
    ensures All(m) <==> Covered(env, d, ps)
    ensures HasChild(m) <==> GoesOn(ps)
    ensures !Whole(ps) ==> (SomeShown(m) <==> NamesSome(env, d, ps)) && (StarKey(m) <==> NamesStar(env, d, ps))
    ensures SwitchFt(env, d) == Scalar ==> !NamesSome(env, d, ps)
  {
    hide For, Typed, Whole;
    ForAt(env, m, d, ps, black, Strs("*"));
    HasChildGoesOn(env, m, d, ps, black);
    if SomeShown(m) && !Whole(ps) {
      var s :| s in m.kids && Shown(m, s);
      ShownExists(m, s);
      EveryIsNotShown(m);
      ForAt(env, m, d, ps, black, s);
      RestIs(ps, s);
    }
    if NamesSome(env, d, ps) {
      var s: Slot :| Goes(env, d, ps, s);
      RestIs(ps, s);
      ForAt(env, m, d, ps, black, s);
      NamedFitsHere(env, m, d, ps, black, s);
    }
  }

  lemma NamedFitsHere(env: Env, m: Mask, d: Desc, ps: seq<Path>, black: bool, s: Slot)
    requires Sure(env, m, d, ps, black) && Behind(ps, s) != []
    ensures Fits(SwitchFt(env, d), s)
  {
    var r := Behind(ps, s)[0];
    BehindHas(ps, s, r);
    var p: Path :| p in ps && p != [] && p[0].To? && s in p[0].places && p[1..] == r;
    assert FirstFits(env, d, p);
  }

  lemma TurnsFor(env: Env, m: Mask, d: Desc, ps: seq<Path>, black: bool)
    requires GoodEnv(env) && Sure(env, m, d, ps, black) && SwitchFt(env, d) != Invalid
    ensures Turns(m) <==> Changes(env, d, ps)
    ensures HasChild(Rebuilt(m)) <==> SentGoesOn(env, d, ps)
  {
    hide Sure, Rebuilt;
    KidsFor(env, m, d, ps, black);
    ForAt(env, m, d, ps, black, Every);
    RebuiltShape(m);
    RestIs(ps, Every);
  }

  /** When the rebuilt mask covers everything and when it has something below. */
  lemma RebuiltShape(m: Mask)
    requires m.typ != Invalid
    ensures Rebuilt(m).isAll <==> All(m) || !SomeShown(m) || StarKey(m)
    ensures HasChild(Rebuilt(m)) <==> if All(m) then Live(m, Every) else SomeShown(m)
  {
    var r := Rebuilt(m);
    if All(m) {
      assert Live(m, Every) ==> Every in r.kids;
    } else if SomeShown(m) {
      var s :| s in m.kids && Shown(m, s);
      assert StarKey(m) ==> Every in r.kids;
      assert !StarKey(m) ==> s in r.kids;
    }
  }

  lemma {:induction false} HarmlessFor(env: Env, m: Mask, d: Desc, ps: seq<Path>)
    requires GoodEnv(env) && Sure(env, m, d, ps, true) && SwitchFt(env, d) != Invalid
    ensures Harmless(Value(env, d), m) <==> RejectsNothing(env, d, ps)
    decreases Longest(ps), 1
  {
    hide Sure, Behind, BehindAll, KidDesc, GoesOn, HasChild, Harmless;
    KidsFor(env, m, d, ps, true);
    ForAt(env, m, d, ps, true, Every);
    SureIsTyped(env, m, d, ps, true);
    HarmlessIs(env, m, d);
    if m.isAll {
      RestIs(ps, Every);
      if Every in m.kids {
        HarmlessBelow(env, m, d, ps, Every);
      }
    } else {
      forall s: Slot | s != Every
        ensures s in m.kids && Shown(m, s) <==> Goes(env, d, ps, s)
        ensures Goes(env, d, ps, s) ==> (HasChild(m.kids[s]) <==> GoesOn(Behind(ps, s)))
        ensures Goes(env, d, ps, s) ==>
                  (Harmless(Value(env, DescAt(env, d, s)), m.kids[s]) <==> RejectsNothing(env, DescAt(env, d, s), Behind(ps, s)))
      {
        ForAt(env, m, d, ps, true, s);
        RestIs(ps, s);
        if Goes(env, d, ps, s) {
          HarmlessBelow(env, m, d, ps, s);
        }
      }
      EveryIsNotShown(m);
    }
  }

  lemma EveryIsNotShown(m: Mask)
    ensures !Shown(m, Every)
  {
  }

  lemma {:induction false} HarmlessBelow(env: Env, m: Mask, d: Desc, ps: seq<Path>, s: Slot)
    requires GoodEnv(env) && Sure(env, m, d, ps, true) && s in m.kids && Supported(env, d, s)
    requires s == Every || !Whole(ps)
    ensures Harmless(Value(env, DescAt(env, d, s)), m.kids[s]) <==> RejectsNothing(env, DescAt(env, d, s), Rest(ps, s))
    ensures HasChild(m.kids[s]) <==> GoesOn(Rest(ps, s))
    decreases Longest(ps), 0
  {
    hide Sure;
    ForAt(env, m, d, ps, true, s);
    RestIsShorter(ps, s);
    HarmlessFor(env, m.kids[s], DescAt(env, d, s), Rest(ps, s));
    KidsFor(env, m.kids[s], DescAt(env, d, s), Rest(ps, s), true);
  }

  /** What is known of a mask when it is read. */
  lemma {:induction false} SentHarmlessFor(env: Env, m: Mask, d: Desc, ps: seq<Path>)
    requires GoodEnv(env) && Sure(env, m, d, ps, true) && SwitchFt(env, d) != Invalid
    ensures Harmless(Value(env, d), Rebuilt(m)) <==> SentRejectsNothing(env, d, ps)
    decreases Longest(ps), 1
  {
    hide Sure, Typed, Behind, BehindAll, KidDesc, HasChild, Rebuilt, SomeShown, StarKey, NamesSome, NamesStar, Covered, All,
         Harmless;
    var r := Rebuilt(m);
    SureIsTyped(env, m, d, ps, true);
    AllIs(m);
    RebuiltIsTyped(env, m, d, true);
    KidsFor(env, m, d, ps, true);
    ForAt(env, m, d, ps, true, Every);
    RestIs(ps, Every);
    RebuiltShape(m);
    RebuiltTyp(m);
    HarmlessIs(env, r, d);
    if Askable(env, d) {
      if All(m) {
        RebuiltIs(m);
        HarmlessEvery(env, r, d);
        if Every in m.kids {
          RebuiltTyp(m.kids[Every]);
          SentHarmlessBelow(env, m, d, ps, Every);
        }
      } else if !SomeShown(m) {
        RebuiltIs(m);
        HarmlessEvery(env, r, d);
      } else if StarKey(m) {
        StarIsThere(m);
        RebuiltStar(m);
        HarmlessEvery(env, r, d);
        RebuiltTyp(m.kids[Strs("*")]);
        ForAt(env, m, d, ps, true, Strs("*"));
        RestIs(ps, Strs("*"));
        SentHarmlessBelow(env, m, d, ps, Strs("*"));
        StarDesc(env, d);
      } else {
        SentNamed(env, m, d, ps);
      }
    }
  }

  lemma HarmlessEvery(env: Env, m: Mask, d: Desc)
    requires GoodEnv(env) && Typed(env, m, d, true, false, false) && m.isAll && m.typ != Invalid && Askable(env, d)
    ensures Live(m, Every) ==> (Harmless(Value(env, d), m) <==> Harmless(Value(env, DescAt(env, d, Every)), m.kids[Every]))
    ensures m.kids == map[] ==> !Harmless(Value(env, d), m)
  {
    hide Typed, Harmless;
    HarmlessIs(env, m, d);
  }

  lemma {:induction false} SentNamed(env: Env, m: Mask, d: Desc, ps: seq<Path>)
    requires GoodEnv(env) && Sure(env, m, d, ps, true) && Askable(env, d)
    requires !All(m) && SomeShown(m) && !StarKey(m)
    ensures Harmless(Value(env, d), Rebuilt(m)) <==> SentRejectsNothing(env, d, ps)
    decreases Longest(ps), 0, 1
  {
    hide Sure, Behind, BehindAll, KidDesc, HasChild, Rebuilt, SomeShown, StarKey, NamesSome, NamesStar, Covered, All, SentGoesOn,
         Harmless, Typed;
    var r := Rebuilt(m);
    AllIs(m);
    ForAt(env, m, d, ps, true, Every);
    KidsFor(env, m, d, ps, true);
    NotTurned(m);
    RebuiltPlain(m);
    SentIs(env, m, d, ps);
    forall s: Slot | s != Every
      ensures s in r.kids && Shown(r, s) <==> Goes(env, d, ps, s)
      ensures Goes(env, d, ps, s) ==> (HasChild(r.kids[s]) <==> SentGoesOn(env, DescAt(env, d, s), Behind(ps, s)))
      ensures Goes(env, d, ps, s) ==>
                (Harmless(Value(env, DescAt(env, d, s)), r.kids[s]) <==> SentRejectsNothing(env, DescAt(env, d, s), Behind(ps, s)))
    {
      ForAt(env, m, d, ps, true, s);
      RestIs(ps, s);
      if Goes(env, d, ps, s) {
        SentHarmlessBelow(env, m, d, ps, s);
        RebuiltTyp(m.kids[s]);
      }
    }
    EveryIsNotShown(r);
  }

  lemma SentIs(env: Env, m: Mask, d: Desc, ps: seq<Path>)
    requires GoodEnv(env) && Sure(env, m, d, ps, true) && Askable(env, d) && !Rebuilt(m).isAll
    ensures var r := Rebuilt(m);
            Harmless(Value(env, d), r) <==>
            forall s :: s in r.kids && Shown(r, s) ==>
              HasChild(r.kids[s]) && Harmless(Value(env, DescAt(env, d, s)), r.kids[s])
  {
    hide Sure, Typed, Rebuilt, HasChild, Harmless;
    SureIsTyped(env, m, d, ps, true);
    RebuiltIsTyped(env, m, d, true);
    RebuiltTyp(m);
    ForAt(env, m, d, ps, true, Every);
    HarmlessIs(env, Rebuilt(m), d);
  }

  lemma StarIsThere(m: Mask)
    requires StarKey(m)
    ensures Strs("*") in m.kids && m.typ == StrMap && Live(m, Strs("*"))
  {
  }

  lemma StarDesc(env: Env, d: Desc)
    requires SwitchFt(env, d) == StrMap
    ensures DescAt(env, d, Strs("*")) == DescAt(env, d, Every)
  {
  }

  lemma NotTurned(m: Mask)
    requires !All(m) && SomeShown(m) && !StarKey(m)
    ensures !m.isAll && !Turns(m)
  {
  }

  lemma {:induction false} SentHarmlessBelow(env: Env, m: Mask, d: Desc, ps: seq<Path>, s: Slot)
    requires GoodEnv(env) && Sure(env, m, d, ps, true) && s in m.kids && Supported(env, d, s)
    requires s == Every || !Whole(ps)
    ensures Harmless(Value(env, DescAt(env, d, s)), Rebuilt(m.kids[s])) <==> SentRejectsNothing(env, DescAt(env, d, s), Rest(ps, s))
    ensures HasChild(Rebuilt(m.kids[s])) <==> SentGoesOn(env, DescAt(env, d, s), Rest(ps, s))
    decreases Longest(ps), 0, 0
  {
    hide Sure;
    ForAt(env, m, d, ps, true, s);
    RestIsShorter(ps, s);
    SentHarmlessFor(env, m.kids[s], DescAt(env, d, s), Rest(ps, s));
    TurnsFor(env, m.kids[s], DescAt(env, d, s), Rest(ps, s), true);
  }

  /** The mask survives exactly when its paths do. */
  lemma {:induction false} SurvivesFor(env: Env, m: Mask, d: Desc, ps: seq<Path>, black: bool)
    requires GoodEnv(env) && Sure(env, m, d, ps, black) && SwitchFt(env, d) != Invalid
    ensures Survives(Value(env, d), m) <==> Sendable(env, d, ps, black)
    decreases Longest(ps), 1
  {
    hide Sure, Behind, BehindAll, KidDesc, GoesOn, HasChild, Turns, Changes, Harmless, RejectsNothing, SentRejectsNothing, Rebuilt,
         Survives, Typed;
    SureIsTyped(env, m, d, ps, black);
    ForAt(env, m, d, ps, black, Every);
    SurvivesIs(env, m, d, black);
    KidsFor(env, m, d, ps, black);
    TurnsFor(env, m, d, ps, black);
    ForAt(env, m, d, ps, black, Every);
    if black {
      HarmlessFor(env, m, d, ps);
      SentHarmlessFor(env, m, d, ps);
    }
    if m.isAll {
      RestIs(ps, Every);
      HasKids(m);
      if Every in m.kids {
        SurvivesBelow(env, m, d, ps, black, Every);
      }
    } else if !Turns(m) {
      SurvivesNamed(env, m, d, ps, black);
    }
  }

  lemma {:induction false} SurvivesNamed(env: Env, m: Mask, d: Desc, ps: seq<Path>, black: bool)
    requires GoodEnv(env) && Sure(env, m, d, ps, black) && SwitchFt(env, d) != Invalid && !m.isAll && !Turns(m)
    ensures Survives(Value(env, d), m) <==> Sendable(env, d, ps, black)
    decreases Longest(ps), 0, 1
  {
    hide Sure, Behind, BehindAll, KidDesc, GoesOn, HasChild, Turns, Changes, Harmless, RejectsNothing, SentRejectsNothing, Rebuilt,
         Survives, Typed;
    SureIsTyped(env, m, d, ps, black);
    ForAt(env, m, d, ps, black, Every);
    SurvivesIs(env, m, d, black);
    TurnsFor(env, m, d, ps, black);
    ForAt(env, m, d, ps, black, Every);
    forall s: Slot | s != Every
      ensures s in m.kids && Shown(m, s) <==> Goes(env, d, ps, s)
      ensures Goes(env, d, ps, s) ==> (HasChild(m.kids[s]) <==> GoesOn(Behind(ps, s)))
      ensures Goes(env, d, ps, s) ==>
                (Survives(Value(env, DescAt(env, d, s)), m.kids[s]) <==> Sendable(env, DescAt(env, d, s), Behind(ps, s), black))
    {
      ForAt(env, m, d, ps, black, s);
      RestIs(ps, s);
      if Goes(env, d, ps, s) {
        SurvivesBelow(env, m, d, ps, black, s);
      }
    }
    EveryIsNotShown(m);
  }

  lemma HasKids(m: Mask)
    requires m.typ != Invalid
    ensures HasChild(m) <==> m.kids != map[]
  {
  }

  lemma {:induction false} SurvivesBelow(env: Env, m: Mask, d: Desc, ps: seq<Path>, black: bool, s: Slot)
    requires GoodEnv(env) && Sure(env, m, d, ps, black) && s in m.kids && Supported(env, d, s)
    requires s == Every || !Whole(ps)
    ensures Survives(Value(env, DescAt(env, d, s)), m.kids[s]) <==> Sendable(env, DescAt(env, d, s), Rest(ps, s), black)
    ensures HasChild(m.kids[s]) <==> GoesOn(Rest(ps, s))
    decreases Longest(ps), 0, 0
  {
    hide Sure;
    ForAt(env, m, d, ps, black, s);
    RestIsShorter(ps, s);
    SurvivesFor(env, m.kids[s], DescAt(env, d, s), Rest(ps, s), black);
    KidsFor(env, m.kids[s], DescAt(env, d, s), Rest(ps, s), black);
  }

  predicate AllSteady(paths: seq<seq<Token>>) {
    forall i :: 0 <= i < |paths| ==> Steady(paths[i])
  }

  lemma AllSteadyAreSimple(paths: seq<seq<Token>>)
    requires AllSteady(paths)
    ensures AllSimple(paths)
  {
    forall i | 0 <= i < |paths|
      ensures Simple(paths[i])
    {
      SteadyIsSimple(paths[i]);
    }
  }

  /** A mask made from paths without a star for all fields answers every walk as before when it has been
      written and read, if and only if its list of paths is sendable.  It cannot be read when
      it has no type. */
  lemma SentMask(env: Env, black: bool, paths: seq<seq<Token>>, d: Desc, t: Transfer)
    requires GoodEnv(env) && AllSteady(paths) && NewFieldMask(env, black, paths, d).Some?
    requires Writes(t, NewFieldMask(env, black, paths, d).value)
    ensures From(New(Invalid, false), t).Some? <==> Named(paths) && SwitchFt(env, d) != Invalid
    ensures From(New(Invalid, false), t).Some? ==>
              (Sendable(env, d, PathsOf(env, paths, d), black)
               <==> SameOutcomes(Value(env, d), From(New(Invalid, false), t), NewFieldMask(env, black, paths, d)))
  {
    hide Named, SwitchFt, Sendable, SameOutcomes, For, Typed, Survives;
    var m, ps := NewFieldMask(env, black, paths, d).value, PathsOf(env, paths, d);
    AllSteadyAreSimple(paths);
    MadeAtRoot(env, black, paths, d);
    NewIsTyped(env, black, paths, d);
    if m.typ != Invalid {
      NewIsOrderly(env, black, paths, d);
      SurvivesFor(env, m, d, ps, black);
      TransferKeepsMeaning(Value(env, d), t, m, black);
    }
  }

  // ----- paths that name something in every bracket -----

  /** No step names the key `*`. */
  predicate Starless(p: Path) {
    forall i :: 0 <= i < |p| && p[i].To? ==> Strs("*") !in p[i].places
  }

  predicate AllStarless(ps: seq<Path>) {
    forall p :: p in ps ==> Starless(p)
  }

  lemma StarlessBelow(ps: seq<Path>, s: Slot)
    requires AllStarless(ps)
    ensures AllStarless(Behind(ps, s))
    ensures Behind(ps, Strs("*")) == []
  {
    forall r | r in Behind(ps, s)
      ensures Starless(r)
    {
      BehindHas(ps, s, r);
      var p: Path :| p in ps && p != [] && p[0].To? && s in p[0].places && p[1..] == r;
      assert Starless(p);
      assert forall i :: 0 <= i < |r| ==> r[i] == p[i + 1];
    }
    var stars := Behind(ps, Strs("*"));
    SomeMember(stars);
    forall p: Path | p in ps && p != [] && p[0].To?
      ensures Strs("*") !in p[0].places
    {
      assert Starless(p);
    }
    forall r: Path
      ensures r !in stars
    {
      BehindHas(ps, Strs("*"), r);
    }
  }

  lemma SomeMember(ps: seq<Path>)
    ensures ps != [] ==> exists p :: p in ps
  {
    if ps != [] {
      assert ps[0] in ps;
    }
  }

  /** Where nothing goes on, paths that name something in every bracket end. */
  lemma EndsHere(env: Env, d: Desc, ps: seq<Path>)
    requires ps != [] && AllNaming(ps) && !GoesOn(ps)
    ensures [] in ps && Sharp(env, d, ps)
  {
    assert ps[0] in ps;
    if ps[0] != [] {
      NamingGoesOn(ps, ps[0]);
    }
  }

  /** Below such a type there is something to ask for and a place that is named. */
  lemma NamingHere(env: Env, d: Desc, ps: seq<Path>)
    requires Fitting(env, d, ps) && ps != [] && AllNaming(ps) && AllStarless(ps) && AllHeeded(env, d, ps)
    ensures [] !in ps ==> Askable(env, d) && !Changes(env, d, ps)
    ensures !Askable(env, d) ==> !GoesOn(ps)
    ensures BehindAll(ps) == []
  {
    NoBrackets(ps);
    StarlessBelow(ps, Every);
    forall p: Path | p in ps && p != []
      ensures Askable(env, d) && SwitchFt(env, d) != Scalar && NamesSome(env, d, ps)
    {
      assert FirstFits(env, d, p) && Naming(p) && p[0].To?;
      assert p[0].places[0] in p[0].places && Fits(SwitchFt(env, d), p[0].places[0]);
      NamingGoesOn(ps, p);
      var s: Slot :| s != Every && s in p[0].places && Behind(ps, s) != [];
      assert Heeded(env, d, p) && Goes(env, d, ps, s);
    }
    if [] !in ps {
      assert ps[0] in ps && ps[0] != [];
    }
    if !Askable(env, d) {
      forall i | 0 <= i < |ps|
        ensures ps[i] == []
      {
        assert ps[i] in ps;
      }
      forall s: Slot
        ensures Rest(ps, s) == []
      {
        OnlyEnds(ps, s);
      }
    }
  }

  /** When every bracket names something, masks support all types on the way and the key `*`
      does not occur, a white list is always sendable, and a black list is exactly when it does
      what its paths say. */
  lemma {:induction false} SendableNaming(env: Env, d: Desc, ps: seq<Path>)
    requires Fitting(env, d, ps) && ps != [] && AllNaming(ps) && AllStarless(ps) && AllHeeded(env, d, ps)
    ensures Sendable(env, d, ps, false)
    ensures Sendable(env, d, ps, true) <==> Sharp(env, d, ps)
    decreases Longest(ps)
  {
    hide Behind, BehindAll, GoesOn, Changes, Fitting, KidDesc;
    NamingHere(env, d, ps);
    if !Askable(env, d) {
      EndsHere(env, d, ps);
    } else if [] !in ps {
      forall s: Slot | s != Every && Behind(ps, s) != []
        ensures Goes(env, d, ps, s) && Sendable(env, DescAt(env, d, s), Behind(ps, s), false)
        ensures Sendable(env, DescAt(env, d, s), Behind(ps, s), true) <==> Sharp(env, DescAt(env, d, s), Behind(ps, s))
        ensures !GoesOn(Behind(ps, s)) ==> [] in Behind(ps, s) && Sharp(env, DescAt(env, d, s), Behind(ps, s))
      {
        HeededBelow(env, d, ps, s);
        BehindIsShorter(ps, s);
        StarlessBelow(ps, s);
        NamingBelow(ps, s);
        FittingAt(env, d, ps, s);
        SendableNaming(env, DescAt(env, d, s), Behind(ps, s));
        if !GoesOn(Behind(ps, s)) {
          EndsHere(env, DescAt(env, d, s), Behind(ps, s));
        }
      }
      if Sharp(env, d, ps) {
        forall s: Slot | s != Every && Behind(ps, s) != []
          ensures Sharp(env, DescAt(env, d, s), Behind(ps, s))
        {
          SharpBelow(env, d, ps, s);
        }
      } else {
        SendableSharp(env, d, ps);
      }
    }
  }

  lemma FittingAt(env: Env, d: Desc, ps: seq<Path>, s: Slot)
    requires Fitting(env, d, ps) && s != Every && Behind(ps, s) != []
    ensures Fitting(env, DescAt(env, d, s), Behind(ps, s))
  {
    assert Rest(ps, s) == Behind(ps, s);
  }

  lemma SendableSharp(env: Env, d: Desc, ps: seq<Path>)
    requires !Whole(ps) && Askable(env, d) && !Changes(env, d, ps) && !Sharp(env, d, ps)
    requires forall s: Slot :: s != Every && Behind(ps, s) != [] ==>
               Goes(env, d, ps, s)
               && (Sendable(env, DescAt(env, d, s), Behind(ps, s), true) <==> Sharp(env, DescAt(env, d, s), Behind(ps, s)))
    requires forall s: Slot :: s != Every && Behind(ps, s) != [] && !GoesOn(Behind(ps, s)) ==>
               [] in Behind(ps, s) && Sharp(env, DescAt(env, d, s), Behind(ps, s))
    ensures !Sendable(env, d, ps, true)
  {
    hide Behind, GoesOn, Changes;
    if forall s: Slot :: s != Every && Behind(ps, s) != [] ==>
         && ([] in Behind(ps, s) || GoesOn(Behind(ps, s)))
         && Supported(env, d, s) && Sharp(env, DescAt(env, d, s), Behind(ps, s)) {
      SharpIf(env, d, ps);
    }
  }
}
