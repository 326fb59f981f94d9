/** Masks that are written and read again: exactly which of them answer every walk as before,
    whoever asks, and which walks panic. */
module MaskSent {
  import opened Wrappers
  import opened MaskPaths
  import opened MaskTree
  import opened MaskTyped
  import opened MaskTransfer
  import opened MaskAnswers

  // ----- masks and who asks them -----

  /** What is true of every mask that paths make: masks are of one kind of list and keep masks
      at places of their kind, and a struct of which not everything is covered has fields. */
  predicate Orderly(m: Mask, black: bool)
    decreases m
  {
    && m.isBlack == black && HasItsFields(m)
    && forall s :: s in m.kids ==>
         (m.typ != Invalid ==> s == Every || Fits(m.typ, s)) && (s.Fd? ==> 0 <= s.id < 0x8000_0000) && Orderly(m.kids[s], black)
  }

  /** Something is asked. */
  predicate AsksSome(a: Asker) {
    a.Anything? || Askable(a.env, a.d)
  }

  /** Fields are asked for, which panics at a mask of another type that does not cover
      everything. */
  predicate AsksFields(a: Asker) {
    a.Anything? || SwitchFt(a.env, a.d) == Struct
  }

  /** A black list that neither rejects anything nor panics. */
  ghost predicate Harmless(a: Asker, m: Mask)
    decreases m
  {
    !AsksSome(a)
    || if m.isAll then
         && HasChild(m)
         && (Live(m, Every) ==> forall s: Slot :: Asks(a, s) && Next(a, s).Some? ==> Harmless(Next(a, s).value, m.kids[Every]))
       else
         && (AsksFields(a) ==> m.typ == Struct)
         && forall s :: s in m.kids && Shown(m, s) && Asks(a, s) ==>
              HasChild(m.kids[s]) && (Next(a, s).Some? ==> Harmless(Next(a, s).value, m.kids[s]))
  }

  /** Reading makes the mask cover everything although it did not. */
  predicate Turns(m: Mask) {
    !m.isAll && Rebuilt(m).isAll
  }

  /** Nothing that matters is lost or gained: in a black list, a mask that covers everything
      does not hide a dead mask below it; no mask comes to cover everything, except in a black
      list where neither it nor what is read rejects anything or panics; a place that passes
      because something is below it still has something below; and the same holds below,
      wherever a walk can get. */
  ghost predicate Survives(a: Asker, m: Mask)
    decreases m
  {
    !AsksSome(a)
    || if m.isAll then
         && (m.isBlack && m.kids != map[] ==> Live(m, Every))
         && (Live(m, Every) ==> forall s: Slot :: Asks(a, s) && Next(a, s).Some? ==> Survives(Next(a, s).value, m.kids[Every]))
       else if Turns(m) then m.isBlack && Harmless(a, m) && Harmless(a, Rebuilt(m))
       else
         forall s :: s in m.kids && Shown(m, s) && Asks(a, s) && (m.isBlack ==> HasChild(m.kids[s])) ==>
           && (m.isBlack ==> HasChild(Rebuilt(m.kids[s])))
           && (Next(a, s).Some? ==> Survives(Next(a, s).value, m.kids[s]))
  }

  // ----- steps of a walk -----

  lemma FollowNothing(m: Option<Mask>, q: seq<Slot>)
    requires m.None? || m.value.typ == Invalid || q == []
    ensures Follow(m, q) == Verdict(true)
  {
    if q != [] {
      NothingPasses(q[1..]);
    }
  }

  lemma FollowStep(m: Mask, s: Slot, u: seq<Slot>)
    ensures Panics(Some(m), s) ==> Follow(Some(m), [s] + u) == Crash
    ensures !Panics(Some(m), s) ==>
              Follow(Some(m), [s] + u)
              == if Answer(Some(m), s).1 then Follow(Answer(Some(m), s).0, u) else Verdict(false)
  {
    var q := [s] + u;
    assert q[0] == s && q[1..] == u;
  }

  lemma EveryStep(m: Mask, s: Slot, u: seq<Slot>)
    requires m.typ != Invalid && m.isAll
    ensures Follow(Some(m), [s] + u)
            == if Live(m, Every) then Follow(Some(m.kids[Every]), u) else Verdict(m.isBlack ==> HasChild(m))
  {
    hide Follow;
    FollowStep(m, s, u);
    FollowNothing(None, u);
    if Every in m.kids && !Live(m, Every) {
      FollowNothing(Some(m.kids[Every]), u);
    }
  }

  lemma KidStep(m: Mask, s: Slot, u: seq<Slot>)
    requires m.typ != Invalid && !m.isAll && Live(m, s) && !Panics(Some(m), s)
    ensures Follow(Some(m), [s] + u)
            == if m.isBlack ==> HasChild(m.kids[s]) then Follow(Some(m.kids[s]), u) else Verdict(false)
  {
    hide Follow;
    FollowStep(m, s, u);
  }

  lemma NoneStep(m: Mask, s: Slot, u: seq<Slot>)
    requires m.typ != Invalid && !m.isAll && !Live(m, s) && !Panics(Some(m), s)
    ensures Follow(Some(m), [s] + u) == Verdict(m.isBlack)
  {
    hide Follow;
    FollowStep(m, s, u);
    FollowNothing(None, u);
  }

  /** The first step of a walk and the rest. */
  lemma WalkRest(a: Asker, q: seq<Slot>)
    requires Walks(a, q) && q != []
    ensures q == [q[0]] + q[1..] && Asks(a, q[0]) && q[0] != Every && AsksSome(a) && (q[0].Fd? ==> AsksFields(a))
    ensures if Next(a, q[0]).Some? then Walks(Next(a, q[0]).value, q[1..]) else q[1..] == []
  {
  }

  lemma WalkOn(a: Asker, s: Slot, u: seq<Slot>)
    requires Asks(a, s) && (u == [] || (Next(a, s).Some? && Walks(Next(a, s).value, u)))
    ensures Walks(a, [s] + u)
  {
    var q := [s] + u;
    assert q[0] == s && q[1..] == u;
  }

  /** Asking panics exactly at a mask of another type that does not cover everything. */
  lemma PanicsAt(a: Asker, m: Mask, black: bool, s: Slot)
    requires Orderly(m, black) && m.typ != Invalid && Asks(a, s)
    ensures Panics(Some(m), s) <==> !m.isAll && s.Fd? && m.typ != Struct
    ensures s != Every && (s.Fd? ==> AsksFields(a)) && AsksSome(a)
  {
  }

  lemma OrderlyBelow(m: Mask, black: bool, s: Slot)
    requires Orderly(m, black) && s in m.kids
    ensures m.isBlack == black && Orderly(m.kids[s], black)
    ensures m.typ != Invalid && Live(m, s) && s != Every ==> Shown(m, s)
  {
  }

  lemma ShownIsLive(m: Mask, black: bool, s: Slot)
    requires Orderly(m, black) && s in m.kids && Shown(m, s)
    ensures s != Every && Live(m, s) && (s.Fd? ==> m.typ == Struct) && Orderly(m.kids[s], black)
    ensures m.typ != Invalid && m.kids[s].typ != Invalid
  {
  }

  /** A place that is asked for and that nothing is known about. */
  lemma NewAsked(a: Asker, avoid: set<Slot>) returns (s: Slot)
    requires AsksSome(a)
    ensures Asks(a, s) && s !in avoid
  {
    match a
    case Anything =>
      var n := Bound(avoid);
      s := Ints(n);
    case Value(env, d) => s := NewPlace(env, d, avoid);
  }

  /** Unless fields are asked for, what asks below is the same everywhere. */
  lemma SameNext(a: Asker, s: Slot, t: Slot)
    requires !AsksFields(a) && Asks(a, s) && Asks(a, t)
    ensures Next(a, s) == Next(a, t)
  {
  }

  // ----- black lists that reject nothing -----

  lemma {:induction false} HarmlessPasses(a: Asker, m: Mask, q: seq<Slot>)
    requires Orderly(m, true) && m.typ != Invalid && Harmless(a, m) && Walks(a, q)
    ensures Follow(Some(m), q) == Verdict(true)
    decreases |q|
  {
    hide Follow, Orderly, Walks, Asks, Next, AsksSome, AsksFields, Panics, HasChild;
    if q == [] {
      FollowNothing(Some(m), q);
    } else {
      var s, u := q[0], q[1..];
      WalkRest(a, q);
      PanicsAt(a, m, true, s);
      var k := if m.isAll then Every else s;
      if k in m.kids {
        OrderlyBelow(m, true, k);
        if Next(a, s).Some? {
          if Live(m, k) { HarmlessPasses(Next(a, s).value, m.kids[k], u); }
        } else {
          FollowNothing(Some(m.kids[k]), u);
        }
      }
      if m.isAll {
        EveryStep(m, s, u);
      } else if Live(m, s) {
        KidStep(m, s, u);
      } else {
        Colour(m, true);
        NoneStep(m, s, u);
      }
    }
  }

  lemma Colour(m: Mask, black: bool)
    requires Orderly(m, black)
    ensures m.isBlack == black
  {
  }

  /** Otherwise some walk is rejected or panics. */
  lemma {:induction false} BadWalk(a: Asker, m: Mask) returns (q: seq<Slot>)
    requires Orderly(m, true) && m.typ != Invalid && !Harmless(a, m)
    ensures q != [] && Walks(a, q) && Follow(Some(m), q) != Verdict(true)
    decreases m
  {
    hide Follow, Orderly, Walks, Asks, Next, AsksSome, HasChild;
    Colour(m, true);
    var s: Slot, u: seq<Slot> := Every, [];
    if m.isAll && !HasChild(m) {
      s := NewAsked(a, {});
      EveryStep(m, s, u);
      DeadEvery(m);
    } else if m.isAll {
      s :| Asks(a, s) && Next(a, s).Some? && !Harmless(Next(a, s).value, m.kids[Every]);
      OrderlyBelow(m, true, Every);
      u := BadWalk(Next(a, s).value, m.kids[Every]);
      EveryStep(m, s, u);
    } else if AsksFields(a) && m.typ != Struct {
      s := FieldAsked(a);
      PanicsAt(a, m, true, s);
      FollowStep(m, s, u);
    } else {
      s :| s in m.kids && Shown(m, s) && Asks(a, s)
           && !(HasChild(m.kids[s]) && (Next(a, s).Some? ==> Harmless(Next(a, s).value, m.kids[s])));
      ShownIsLive(m, true, s);
      PanicsAt(a, m, true, s);
      if HasChild(m.kids[s]) {
        u := BadWalk(Next(a, s).value, m.kids[s]);
      }
      KidStep(m, s, u);
    }
    WalkOn(a, s, u);
    q := [s] + u;
  }

  lemma DeadEvery(m: Mask)
    requires m.typ != Invalid && !HasChild(m)
    ensures !Live(m, Every)
  {
  }

  lemma FieldAsked(a: Asker) returns (s: Slot)
    requires AsksFields(a)
    ensures Asks(a, s) && s.Fd?
  {
    s := Fd(0);
  }

  // ----- the mask that is read -----

  lemma RebuiltAll(m: Mask)
    requires m.isAll
    ensures Rebuilt(m) ==
              Mask(true, m.isBlack, m.typ, if Live(m, Every) then map[Every := Rebuilt(m.kids[Every])] else map[])
  {
  }

  lemma RebuiltPlain(m: Mask)
    requires !m.isAll && !Turns(m)
    ensures !Rebuilt(m).isAll && Rebuilt(m).typ == m.typ && Rebuilt(m).isBlack == m.isBlack
    ensures forall s :: s in Rebuilt(m).kids <==> s in m.kids && Shown(m, s)
    ensures forall s :: s in Rebuilt(m).kids ==> Rebuilt(m).kids[s] == Rebuilt(m.kids[s])
    ensures SomeShown(m)
  {
  }

  lemma {:induction false} RebuiltTyp(m: Mask)
    ensures Rebuilt(m).typ == m.typ && Rebuilt(m).isBlack == m.isBlack
    ensures m.kids == map[] ==> Rebuilt(m).kids == map[]
    ensures m.isAll ==> Rebuilt(m).isAll
    ensures Turns(m) ==> Rebuilt(m).isAll
  {
  }

  /** What a mask that comes to cover everything is read as. */
  lemma RebuiltTurned(m: Mask)
    requires Turns(m) && m.typ != Invalid
    ensures Live(Rebuilt(m), Every) <==> HasChild(Rebuilt(m))
    ensures HasChild(Rebuilt(m)) ==> m.typ == StrMap || m.typ == Scalar
  {
    var r := Rebuilt(m);
    if All(m) {
      assert Live(m, Every) ==> r.kids[Every] == Rebuilt(m.kids[Every]);
    } else if SomeShown(m) {
      assert StarKey(m) && r.kids[Every] == Rebuilt(m.kids[Strs("*")]);
    }
  }

  /** Where a mask that is read comes from. */
  lemma RebuiltFrom(m: Mask, s: Slot) returns (t: Slot)
    requires s in Rebuilt(m).kids
    ensures t in m.kids && Rebuilt(m).kids[s] == Rebuilt(m.kids[t])
    ensures t == s || (s == Every && t == Strs("*") && m.typ == StrMap)
  {
    t := s;
    if s == Every && !All(m) {
      t := Strs("*");
    }
  }

  lemma RebuiltFields(m: Mask)
    ensures HasItsFields(Rebuilt(m))
  {
    var r := Rebuilt(m);
    if r.typ == Struct && !r.isAll {
      var t :| t in m.kids && Shown(m, t);
      assert t in r.kids;
    }
  }

  lemma {:induction false} RebuiltIsOrderly(m: Mask, black: bool)
    requires Orderly(m, black)
    ensures Orderly(Rebuilt(m), black)
    decreases m
  {
    hide Rebuilt;
    var r := Rebuilt(m);
    RebuiltTyp(m);
    RebuiltFields(m);
    forall s | s in r.kids
      ensures (r.typ != Invalid ==> s == Every || Fits(r.typ, s)) && (s.Fd? ==> 0 <= s.id < 0x8000_0000)
      ensures Orderly(r.kids[s], black)
    {
      var t := RebuiltFrom(m, s);
      RebuiltIsOrderly(m.kids[t], black);
    }
  }

  // ----- the same answers -----

  /** When a mask survives, what is read of it answers every walk as before. */
  lemma {:induction false} SameAnswers(a: Asker, m: Mask, black: bool, q: seq<Slot>)
    requires Orderly(m, black) && m.typ != Invalid && Survives(a, m) && Walks(a, q)
    ensures Follow(Some(Rebuilt(m)), q) == Follow(Some(m), q)
    decreases |q|
  {
    hide Follow, Orderly, Walks, Asks, Next, AsksSome, Rebuilt, HasChild, Harmless, Panics;
    var r := Rebuilt(m);
    RebuiltTyp(m);
    RebuiltIsOrderly(m, black);
    if q == [] {
      FollowNothing(Some(m), q);
      FollowNothing(Some(r), q);
    } else {
      var s, u := q[0], q[1..];
      WalkRest(a, q);
      PanicsAt(a, m, black, s);
      PanicsAt(a, r, black, s);
      Colour(m, black);
      var k := if m.isAll then Every else s;
      if Live(m, k) {
        OrderlyBelow(m, black, k);
        RebuiltTyp(m.kids[k]);
        FollowNothing(Some(m.kids[k]), []);
        FollowNothing(Some(Rebuilt(m.kids[k])), []);
      }
      if m.isAll {
        RebuiltAll(m);
        EveryStep(m, s, u);
        EveryStep(r, s, u);
        NoKids(m);
        NoKids(r);
        if Live(m, Every) && Next(a, s).Some? {
          SameAnswers(Next(a, s).value, m.kids[Every], black, u);
        }
      } else if Turns(m) {
        HarmlessPasses(a, m, q);
        HarmlessPasses(a, r, q);
      } else {
        RebuiltPlain(m);
        if Panics(Some(m), s) {
          FollowStep(m, s, u);
          FollowStep(r, s, u);
        } else if Live(m, s) {
          KidStep(m, s, u);
          KidStep(r, s, u);
          NoKids(m.kids[s]);
          NoKids(Rebuilt(m.kids[s]));
          if Next(a, s).Some? && (black ==> HasChild(m.kids[s])) {
            SameAnswers(Next(a, s).value, m.kids[s], black, u);
          }
        } else {
          NoneStep(m, s, u);
          NoneStep(r, s, u);
        }
      }
    }
  }

  lemma NoKids(m: Mask)
    ensures m.typ != Invalid ==> (HasChild(m) <==> m.kids != map[])
  {
  }

  // ----- a walk with another answer -----

  ghost predicate Differ(a: Asker, m: Mask, q: seq<Slot>) {
    Walks(a, q) && Follow(Some(Rebuilt(m)), q) != Follow(Some(m), q)
  }

  /** A mask that does not survive answers some walk differently when it is read. */
  lemma {:induction false} OtherAnswer(a: Asker, m: Mask, black: bool) returns (q: seq<Slot>)
    requires Orderly(m, black) && m.typ != Invalid && !Survives(a, m)
    ensures Differ(a, m, q)
    decreases m
  {
    hide Follow, Orderly, Walks, Asks, Next, AsksSome, Rebuilt, HasChild, Harmless, Panics;
    var r := Rebuilt(m);
    RebuiltTyp(m);
    RebuiltIsOrderly(m, black);
    Colour(m, black);
    if !m.isAll && Turns(m) {
      q := OtherTurn(a, m, black);
    } else {
      var s: Slot, u: seq<Slot> := Every, [];
      if m.isAll {
        RebuiltAll(m);
        NoKids(m);
        NoKids(r);
        if Live(m, Every) {
          s :| Asks(a, s) && Next(a, s).Some? && !Survives(Next(a, s).value, m.kids[Every]);
          OrderlyBelow(m, black, Every);
          RebuiltTyp(m.kids[Every]);
          u := OtherAnswer(Next(a, s).value, m.kids[Every], black);
        } else {
          s := NewAsked(a, {});
        }
        EveryStep(m, s, u);
        EveryStep(r, s, u);
      } else {
        s :| s in m.kids && Shown(m, s) && Asks(a, s) && (m.isBlack ==> HasChild(m.kids[s]))
             && !((m.isBlack ==> HasChild(Rebuilt(m.kids[s]))) && (Next(a, s).Some? ==> Survives(Next(a, s).value, m.kids[s])));
        RebuiltPlain(m);
        ShownIsLive(m, black, s);
        PanicsAt(a, m, black, s);
        PanicsAt(a, r, black, s);
        RebuiltTyp(m.kids[s]);
        if black ==> HasChild(Rebuilt(m.kids[s])) {
          u := OtherAnswer(Next(a, s).value, m.kids[s], black);
        } else {
          FollowNothing(Some(m.kids[s]), u);
        }
        KidStep(m, s, u);
        KidStep(r, s, u);
      }
      WalkOn(a, s, u);
      q := [s] + u;
    }
  }

  lemma {:induction false} OtherTurn(a: Asker, m: Mask, black: bool) returns (q: seq<Slot>)
    requires Orderly(m, black) && m.typ != Invalid && Turns(m) && !Survives(a, m)
    ensures Differ(a, m, q)
  {
    hide Follow, Orderly, Walks, Asks, Next, AsksSome, Rebuilt, HasChild, Harmless, Panics;
    var r := Rebuilt(m);
    RebuiltTyp(m);
    RebuiltIsOrderly(m, black);
    RebuiltTurned(m);
    Colour(m, black);
    if black && Harmless(a, r) {
      q := BadWalk(a, m);
      HarmlessPasses(a, r, q);
    } else if black && Harmless(a, m) {
      q := BadWalk(a, r);
      HarmlessPasses(a, m, q);
    } else {
      var s: Slot, u: seq<Slot> := Every, [];
      if AsksFields(a) && m.typ != Struct {
        s := FieldAsked(a);
        PanicsAt(a, m, black, s);
        FollowStep(m, s, u);
      } else {
        s := NewAsked(a, m.kids.Keys);
        PanicsAt(a, m, black, s);
        NotLive(m, s);
        if black && HasChild(r) {
          u := BadRest(a, r, s);
        }
        NoneStep(m, s, u);
      }
      EveryStep(r, s, u);
      if Live(r, Every) && u == [] {
        FollowNothing(Some(r.kids[Every]), u);
      }
      WalkOn(a, s, u);
      q := [s] + u;
    }
  }

  /** Below a mask that covers everything all places lead to the same bad walk. */
  lemma BadRest(a: Asker, m: Mask, t: Slot) returns (u: seq<Slot>)
    requires Orderly(m, true) && m.typ != Invalid && m.isAll && Live(m, Every) && HasChild(m) && !Harmless(a, m)
    requires !AsksFields(a) && Asks(a, t)
    ensures u != [] && Next(a, t).Some? && Walks(Next(a, t).value, u) && Follow(Some(m.kids[Every]), u) != Verdict(true)
  {
    hide Follow, Walks, Asks, Next;
    var s: Slot :| Asks(a, s) && Next(a, s).Some? && !Harmless(Next(a, s).value, m.kids[Every]);
    SameNext(a, s, t);
    u := BadWalk(Next(a, s).value, m.kids[Every]);
  }

  lemma NotLive(m: Mask, s: Slot)
    requires s !in m.kids
    ensures !Live(m, s)
  {
  }

  // ----- walks that panic -----

  /** No walk gets to a mask of another type that does not cover everything and asks it for a
      field. */
  ghost predicate Calm(a: Asker, m: Mask)
    decreases m
  {
    m.typ == Invalid || !AsksSome(a)
    || if m.isAll then
         Live(m, Every) ==> forall s: Slot :: Asks(a, s) && Next(a, s).Some? ==> Calm(Next(a, s).value, m.kids[Every])
       else
         && (AsksFields(a) ==> m.typ == Struct)
         && forall s :: s in m.kids && Shown(m, s) && Asks(a, s) && (m.isBlack ==> HasChild(m.kids[s])) && Next(a, s).Some? ==>
              Calm(Next(a, s).value, m.kids[s])
  }

  lemma {:induction false} CalmIsSafe(a: Asker, m: Mask, black: bool, q: seq<Slot>)
    requires Orderly(m, black) && Calm(a, m) && Walks(a, q)
    ensures Follow(Some(m), q) != Crash
    decreases |q|
  {
    hide Follow, Orderly, Walks, Asks, Next, AsksSome, HasChild, Panics;
    if q == [] || m.typ == Invalid {
      FollowNothing(Some(m), q);
    } else {
      var s, u := q[0], q[1..];
      WalkRest(a, q);
      PanicsAt(a, m, black, s);
      var k := if m.isAll then Every else s;
      if Live(m, k) {
        OrderlyBelow(m, black, k);
        if Next(a, s).None? {
          FollowNothing(Some(m.kids[k]), u);
        } else if m.isAll || (m.isBlack ==> HasChild(m.kids[k])) {
          CalmIsSafe(Next(a, s).value, m.kids[k], black, u);
        }
      }
      if m.isAll {
        EveryStep(m, s, u);
      } else if Live(m, s) {
        KidStep(m, s, u);
      } else {
        NoneStep(m, s, u);
      }
    }
  }

  lemma {:induction false} CrashingWalk(a: Asker, m: Mask, black: bool) returns (q: seq<Slot>)
    requires Orderly(m, black) && !Calm(a, m)
    ensures Walks(a, q) && Follow(Some(m), q) == Crash
    decreases m
  {
    hide Follow, Orderly, Walks, Asks, Next, AsksSome, HasChild, Panics;
    var s: Slot, u: seq<Slot> := Every, [];
    if m.isAll {
      s :| Asks(a, s) && Next(a, s).Some? && !Calm(Next(a, s).value, m.kids[Every]);
      OrderlyBelow(m, black, Every);
      u := CrashingWalk(Next(a, s).value, m.kids[Every], black);
      EveryStep(m, s, u);
    } else if AsksFields(a) && m.typ != Struct {
      s := FieldAsked(a);
      PanicsAt(a, m, black, s);
      FollowStep(m, s, u);
    } else {
      s :| s in m.kids && Shown(m, s) && Asks(a, s) && (m.isBlack ==> HasChild(m.kids[s])) && Next(a, s).Some?
           && !Calm(Next(a, s).value, m.kids[s]);
      ShownIsLive(m, black, s);
      PanicsAt(a, m, black, s);
      u := CrashingWalk(Next(a, s).value, m.kids[s], black);
      KidStep(m, s, u);
    }
    WalkOn(a, s, u);
    q := [s] + u;
  }

  /** No walk panics if and only if the mask is calm. */
  lemma SafeWalks(a: Asker, m: Mask, black: bool)
    requires Orderly(m, black)
    ensures Calm(a, m) <==> forall q :: Walks(a, q) ==> Follow(Some(m), q) != Crash
  {
    hide Follow, Walks;
    if Calm(a, m) {
      forall q | Walks(a, q)
        ensures Follow(Some(m), q) != Crash
      {
        CalmIsSafe(a, m, black, q);
      }
    } else {
      var q := CrashingWalk(a, m, black);
    }
  }

  // ----- masks made from paths -----

  lemma {:induction false} TypedIsOrderly(env: Env, m: Mask, d: Desc, black: bool, stars: bool, stale: bool)
    requires GoodEnv(env) && Typed(env, m, d, black, stars, stale) && HasItsFields(m)
    requires stale ==> SwitchFt(env, d) == Struct
    ensures Orderly(m, black)
    decreases m
  {
    forall s | s in m.kids
      ensures (m.typ != Invalid ==> s == Every || Fits(m.typ, s)) && (s.Fd? ==> 0 <= s.id < 0x8000_0000)
      ensures Orderly(m.kids[s], black)
    {
      assert KidTyped(env, m.kids[s], s, d, black, stars);
      if s == Every && SwitchFt(env, d) == Struct {
        TypedIsOrderly(env, m.kids[s], d, black, stars, true);
      } else {
        TypedIsOrderly(env, m.kids[s], KidDesc(env, d, s).value, black, stars, false);
        if s.Fd? {
          FieldIsGood(env, Unwrap(d).name, FieldById(env[Unwrap(d).name], s.id).value);
        }
      }
    }
  }

  /** Without a star for all fields of a struct no walk that fits the types panics. */
  lemma {:induction false} TypedIsCalm(env: Env, m: Mask, d: Desc, black: bool)
    requires Typed(env, m, d, black, false, false)
    ensures Calm(Value(env, d), m)
    decreases m
  {
    var a := Value(env, d);
    forall s | s in m.kids
      ensures KidTyped(env, m.kids[s], s, d, black, false) && KidDesc(env, d, s).Some?
      ensures Calm(Value(env, KidDesc(env, d, s).value), m.kids[s])
    {
      assert KidTyped(env, m.kids[s], s, d, black, false);
      TypedIsCalm(env, m.kids[s], KidDesc(env, d, s).value, black);
    }
    if m.isAll && Every in m.kids {
      assert forall s: Slot :: Asks(a, s) ==> KidDesc(env, d, s) == KidDesc(env, d, Every);
    }
  }

  lemma {:induction false} OrderlyIsSmall(m: Mask, black: bool)
    requires Orderly(m, black)
    ensures Small(m)
    decreases m
  {
    forall s | s in m.kids
      ensures Small(m.kids[s])
    {
      OrderlyIsSmall(m.kids[s], black);
    }
  }

  /** Writing such a mask never meets a struct without fields. */
  lemma {:induction false} OrderlyIsWritable(m: Mask, black: bool)
    requires Orderly(m, black)
    ensures Writable(m)
    decreases m
  {
    forall s | s in m.kids
      ensures Writable(m.kids[s])
    {
      OrderlyIsWritable(m.kids[s], black);
    }
  }

  // ----- main results -----

  /** Two masks answer every walk alike. */
  ghost predicate SameOutcomes(a: Asker, m: Option<Mask>, m': Option<Mask>) {
    forall q :: Walks(a, q) ==> Follow(m, q) == Follow(m', q)
  }

  /** Writing a mask and reading it again gives a mask that answers every walk as before, panics
      included, if and only if the mask survives, whether anything is asked or a value of some
      type asks. */
  lemma TransferKeepsMeaning(a: Asker, t: Transfer, m: Mask, black: bool)
    requires Orderly(m, black) && m.typ != Invalid && Writes(t, m)
    ensures From(New(Invalid, false), t).Some?
    ensures Survives(a, m) <==> SameOutcomes(a, From(New(Invalid, false), t), Some(m))
  {
    hide Orderly, Walks, Rebuilt, Survives, From, Writes, Follow, Small;
    OrderlyIsSmall(m, black);
    Reads(t, m, New(Invalid, false));
    var sent := From(New(Invalid, false), t);
    assert sent == Some(Rebuilt(m));
    if Survives(a, m) {
      forall q | Walks(a, q)
        ensures Follow(sent, q) == Follow(Some(m), q)
      {
        SameAnswers(a, m, black, q);
      }
    } else {
      var q := OtherAnswer(a, m, black);
      assert Walks(a, q) && Follow(sent, q) != Follow(Some(m), q);
    }
  }

  /** Every accepted list of paths, all stars included, makes a mask of that form. */
  lemma NewIsOrderly(env: Env, black: bool, paths: seq<seq<Token>>, d: Desc)
    requires GoodEnv(env) && NewFieldMask(env, black, paths, d).Some?
    ensures Orderly(NewFieldMask(env, black, paths, d).value, black)
  {
    hide Typed, Orderly;
    NewIsTyped(env, black, paths, d);
    TypedIsOrderly(env, NewFieldMask(env, black, paths, d).value, d, black, true, false);
  }

  /** Every accepted list of paths: writing its mask comes to an end; what is written can be
      read exactly when the mask has a type; then it answers every walk as before if and only
      if the mask survives. */
  lemma SentList(env: Env, black: bool, paths: seq<seq<Token>>, d: Desc, a: Asker, t: Transfer)
    requires GoodEnv(env) && NewFieldMask(env, black, paths, d).Some? && Writes(t, NewFieldMask(env, black, paths, d).value)
    ensures Writable(NewFieldMask(env, black, paths, d).value)
    ensures From(New(Invalid, false), t).Some? <==> NewFieldMask(env, black, paths, d).value.typ != Invalid
    ensures From(New(Invalid, false), t).Some? ==>
              (Survives(a, NewFieldMask(env, black, paths, d).value)
               <==> SameOutcomes(a, From(New(Invalid, false), t), NewFieldMask(env, black, paths, d)))
  {
    hide Orderly, Survives, SameOutcomes, Writable;
    NewIsOrderly(env, black, paths, d);
    OrderlyIsWritable(NewFieldMask(env, black, paths, d).value, black);
    if NewFieldMask(env, black, paths, d).value.typ != Invalid {
      TransferKeepsMeaning(a, t, NewFieldMask(env, black, paths, d).value, black);
    }
  }

  /** Every accepted list of paths: no walk panics if and only if the mask is calm, which it is
      for walks that fit the types unless a star stands for all fields of a struct. */
  lemma ListIsSafe(env: Env, black: bool, paths: seq<seq<Token>>, d: Desc, a: Asker)
    requires GoodEnv(env) && NewFieldMask(env, black, paths, d).Some?
    ensures Calm(a, NewFieldMask(env, black, paths, d).value)
            <==> forall q :: Walks(a, q) ==> Safe(NewFieldMask(env, black, paths, d), q)
    ensures (forall i :: 0 <= i < |paths| ==> Steady(paths[i])) ==>
              Calm(Value(env, d), NewFieldMask(env, black, paths, d).value)
  {
    hide Typed, Orderly, Calm, Walks, Safe, Passes;
    var m := NewFieldMask(env, black, paths, d).value;
    NewIsOrderly(env, black, paths, d);
    SafeWalks(a, m, black);
    if Calm(a, m) {
      forall q | Walks(a, q)
        ensures Safe(Some(m), q)
      {
        assert Follow(Some(m), q) != Crash;
      }
    } else {
      var q :| Walks(a, q) && Follow(Some(m), q) == Crash;
      assert !Safe(Some(m), q);
    }
    NewIsTyped(env, black, paths, d);
    if forall i :: 0 <= i < |paths| ==> Steady(paths[i]) {
      TypedIsCalm(env, m, d, black);
    }
  }
}
