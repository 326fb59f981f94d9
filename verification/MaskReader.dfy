/** Filling a field mask from a tree, in place: TransferFrom and checkAll of
    fieldmask/serdes.go. */
module MaskReader {
  import opened Wrappers
  import opened MaskPaths
  import opened MaskTree
  import opened MaskTransfer
  import opened FieldMasks

  /** Fills a mask from a node; it is accepted exactly when the mask by value accepts it, and
      panics exactly when a negative field id comes first. */
  method TransferFrom(cur: FieldMask, t: Transfer) returns (ok: bool, panics: bool)
    requires cur.Valid()
    modifies cur.repr
    ensures ok <==> From(old(cur.Abs()), t).Some?
    ensures panics <==> Breaks(old(cur.Abs()), t)
    ensures fresh(cur.repr - old(cur.repr))
    ensures ok ==> cur.Valid() && Some(cur.Abs()) == From(old(cur.Abs()), t)
    decreases t, 4
  {
    hide FieldMask.Valid, FieldMask.Abs, From, Breaks;
    FromIs(cur.Abs(), t);
    cur.Open();
    if t.typ == Invalid {
      return false, false;
    }
    Adjust(cur, t.typ, t.isBlack, cur.isAll);
    cur.Open();
    if |t.children| == 0 {
      Adjust(cur, t.typ, t.isBlack, true);
      return true, false;
    }
    if t.typ == Scalar {
      if t.children[0].path != AnyPath {
        return false, false;
      }
      ok, panics := TakeAll(cur, t.children[0]);
      return;
    }
    ok, panics := FromChildren(cur, t);
  }

  lemma FromIs(m: Mask, t: Transfer)
    ensures var m' := m.(typ := t.typ, isBlack := t.isBlack);
            From(m, t) ==
              if t.typ == Invalid then None
              else if t.children == [] then Some(m'.(isAll := true))
              else if t.typ == Scalar then
                if t.children[0].path == AnyPath then FromStar(m', t.children[0]) else None
              else FromEach(m', t, 0)
    ensures var m' := m.(typ := t.typ, isBlack := t.isBlack);
            Breaks(m, t) <==>
              (t.typ != Invalid && t.children != []
               && if t.typ == Scalar then t.children[0].path == AnyPath && BreaksStar(t.children[0]) else BreaksEach(m', t, 0))
  {
    hide From, FromStar, FromEach, BreaksStar, BreaksEach;
    OneFrom(m, t);
  }

  lemma OneFrom(m: Mask, t: Transfer)
    ensures var m' := m.(typ := t.typ, isBlack := t.isBlack);
            From(m, t) ==
              if t.typ == Invalid then None
              else if t.children == [] then Some(m'.(isAll := true))
              else if t.typ == Scalar then
                if t.children[0].path == AnyPath then FromStar(m', t.children[0]) else None
              else FromEach(m', t, 0)
  {
  }

  method Adjust(cur: FieldMask, typ: FieldMaskType, black: bool, all: bool)
    requires cur.Valid()
    modifies cur
    ensures cur.Valid() && cur.repr == old(cur.repr) && cur.kids == old(cur.kids)
    ensures cur.Abs() == old(cur.Abs()).(typ := typ, isBlack := black, isAll := all)
  {
    hide FieldMask.Valid, FieldMask.Abs, FieldMask.Keeps, Separate, Within, Values;
    cur.Open();
    ghost var m := cur.Abs();
    KidsApart(cur.kids, m.kids, cur.Own());
    cur.typ, cur.isBlack, cur.isAll := typ, black, all;
    cur.Close(m.(typ := typ, isBlack := black, isAll := all));
  }

  /** Reads the children up to one that stands for everything. */
  method FromChildren(cur: FieldMask, t: Transfer) returns (ok: bool, panics: bool)
    requires cur.Valid()
    modifies cur.repr
    ensures ok <==> FromEach(old(cur.Abs()), t, 0).Some?
    ensures panics <==> BreaksEach(old(cur.Abs()), t, 0)
    ensures fresh(cur.repr - old(cur.repr))
    ensures ok ==> cur.Valid() && Some(cur.Abs()) == FromEach(old(cur.Abs()), t, 0)
    decreases t, 3
  {
    hide FieldMask.Valid, FieldMask.Abs, From, FromStar, FromEach, Make, Breaks, BreaksStar, BreaksEach;
    ghost var m := cur.Abs();
    for i := 0 to |t.children|
      invariant cur.Valid() && fresh(cur.repr - old(cur.repr))
      invariant FromEach(m, t, 0) == FromEach(cur.Abs(), t, i)
      invariant BreaksEach(m, t, 0) <==> BreaksEach(cur.Abs(), t, i)
    {
      var c := t.children[i];
      EachIs(cur.Abs(), t, i);
      if c.path == AnyPath {
        ok, panics := TakeAll(cur, c);
        return;
      }
      var s := SlotOfKey(t.typ, c.path);
      if s.None? {
        return false, BadIndex(t.typ, c.path);
      }
      ok, panics := TakeOne(cur, s.value, c);
      if !ok {
        return;
      }
    }
    EachEnds(cur.Abs(), t);
    ok, panics := true, false;
  }

  lemma EachIs(m: Mask, t: Transfer, i: nat)
    requires i < |t.children|
    ensures var c := t.children[i];
            FromEach(m, t, i) ==
              if c.path == AnyPath then FromStar(m, c)
              else
                var s := SlotOfKey(t.typ, c.path);
                if s.None? then None
                else
                  var k := From(Make(m, s.value, c.typ), c);
                  if k.None? then None else FromEach(With(m, s.value, k.value), t, i + 1)
    ensures var c := t.children[i];
            BreaksEach(m, t, i) <==>
              if c.path == AnyPath then BreaksStar(c)
              else
                var s := SlotOfKey(t.typ, c.path);
                if s.None? then BadIndex(t.typ, c.path)
                else
                  var k := From(Make(m, s.value, c.typ), c);
                  if k.None? then Breaks(Make(m, s.value, c.typ), c) else BreaksEach(With(m, s.value, k.value), t, i + 1)
  {
    hide From, FromStar, Make, Breaks, BreaksStar;
  }

  lemma EachEnds(m: Mask, t: Transfer)
    ensures FromEach(m, t, |t.children|) == Some(m) && !BreaksEach(m, t, |t.children|)
  {
  }

  method TakeOne(cur: FieldMask, s: Slot, c: Transfer) returns (ok: bool, panics: bool)
    requires cur.Valid() && (s.Fd? ==> s.id >= 0)
    modifies cur.repr
    ensures ok <==> From(Make(old(cur.Abs()), s, c.typ), c).Some?
    ensures panics <==> Breaks(Make(old(cur.Abs()), s, c.typ), c)
    ensures fresh(cur.repr - old(cur.repr))
    ensures ok ==> cur.Valid()
                   && cur.Abs() == With(old(cur.Abs()), s, From(Make(old(cur.Abs()), s, c.typ), c).value)
    decreases c, 6
  {
    hide FieldMask.Valid, FieldMask.Abs, From, Make, Breaks;
    ghost var m := cur.Abs();
    var k := cur.SetKid(s, c.typ);
    cur.SameKid(s, k);
    WithTwice(m, s, Make(m, s, c.typ));
    ok, panics := Refill(cur, s, k, c);
  }

  lemma WithTwice(m: Mask, s: Slot, k: Mask)
    ensures s in With(m, s, k).kids && With(m, s, k).kids[s] == k
    ensures forall r: Mask :: With(With(m, s, k), s, r) == With(m, s, r)
  {
    forall r: Mask
      ensures With(With(m, s, k), s, r) == With(m, s, r)
    {
      assert m.kids[s := k][s := r] == m.kids[s := r];
    }
  }

  /** Fills the mask at a place. */
  method Refill(cur: FieldMask, s: Slot, k: FieldMask, c: Transfer) returns (ok: bool, panics: bool)
    requires cur.Valid() && s in cur.kids && k == cur.kids[s]
    modifies cur.repr
    ensures s in old(cur.Abs()).kids
    ensures ok <==> From(old(cur.Abs()).kids[s], c).Some?
    ensures panics <==> Breaks(old(cur.Abs()).kids[s], c)
    ensures fresh(cur.repr - old(cur.repr))
    ensures ok ==> cur.Valid() && cur.Abs() == With(old(cur.Abs()), s, From(old(cur.Abs()).kids[s], c).value)
    decreases c, 5
  {
    hide FieldMask.Valid, FieldMask.Abs, FieldMask.Keeps, FieldMask.Looks, Separate, Within, Values, From, Breaks;
    cur.Open();
    ghost var m := cur.Abs();
    KidsOf(cur.kids, m.kids);
    Rest(cur.kids, cur.Own(), cur.repr, m.kids, s);
    ghost var others := cur.repr - k.repr;
    ok, panics := TransferFrom(k, c);
    if ok {
      cur.Refit(s, others, m);
    }
  }

  /** A child that stands for everything takes the place of the one that was there. */
  method TakeAll(cur: FieldMask, c: Transfer) returns (ok: bool, panics: bool)
    requires cur.Valid()
    modifies cur.repr
    ensures ok <==> FromStar(old(cur.Abs()), c).Some?
    ensures panics <==> BreaksStar(c)
    ensures fresh(cur.repr - old(cur.repr))
    ensures ok ==> cur.Valid() && Some(cur.Abs()) == FromStar(old(cur.Abs()), c)
    decreases c, 7
  {
    hide FieldMask.Valid, FieldMask.Abs, From, FieldMask.Keeps, With, Breaks;
    ghost var m := cur.Abs();
    var k := NewAll(cur);
    cur.SameKid(Every, k);
    WithTwice(m.(isAll := true), Every, New(Invalid, false));
    AnyIs(m, c);
    ok, panics := Refill(cur, Every, k, c);
  }

  lemma AnyIs(m: Mask, c: Transfer)
    ensures var k := From(New(Invalid, false), c);
            FromStar(m, c) == if k.Some? then Some(With(m.(isAll := true), Every, k.value)) else None
  {
    hide From;
  }

  /** An empty mask of all elements. */
  method NewAll(cur: FieldMask) returns (k: FieldMask)
    requires cur.Valid()
    modifies cur.repr
    ensures cur.Valid() && fresh(cur.repr - old(cur.repr))
    ensures Every in cur.kids && cur.kids[Every] == k
    ensures cur.Abs() == With(old(cur.Abs()).(isAll := true), Every, New(Invalid, false))
  {
    hide FieldMask.Valid, FieldMask.Abs, FieldMask.Keeps;
    ghost var m := cur.Abs();
    cur.Open();
    Adjust(cur, cur.typ, cur.isBlack, true);
    cur.DropAll();
    cur.Open();
    k := new FieldMask(Invalid, false);
    k.Open();
    cur.AddKid(Every, k);
    WithAll(m, New(Invalid, false));
  }

  lemma WithAll(m: Mask, k: Mask)
    ensures var a := m.(isAll := true);
            With(a.(kids := a.kids - {Every}), Every, k) == With(a, Every, k)
  {
    assert (m.kids - {Every})[Every := k] == m.kids[Every := k];
  }
}
