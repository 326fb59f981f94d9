/** Writing a field mask as a tree: MarshalJSON and marshalRec of fieldmask/serdes.go. */
module MaskSerdes {
  import opened Wrappers
  import opened MaskPaths
  import opened MaskTree
  import opened MaskTransfer
  import opened FieldMasks

  // ----- the order of children -----

  lemma {:induction false} PrecedesTotal(a: string, b: string)
    ensures a == b || Precedes(a, b) || Precedes(b, a)
  {
    if a != [] && b != [] && a[0] == b[0] {
      PrecedesTotal(a[1..], b[1..]);
      assert a == [a[0]] + a[1..] && b == [b[0]] + b[1..];
    }
  }

  lemma {:induction false} PrecedesTransitive(a: string, b: string, c: string)
    requires Precedes(a, b) && Precedes(b, c)
    ensures Precedes(a, c)
  {
    if a != [] && a[0] == b[0] == c[0] {
      PrecedesTransitive(a[1..], b[1..], c[1..]);
    }
  }

  /** Comes before, in the order in which children are written. */
  predicate Earlier(s: Slot, t: Slot) {
    Less(KeyOfSlot(s), KeyOfSlot(t))
  }

  lemma EarlierTotal(typ: FieldMaskType, s: Slot, t: Slot)
    requires Fits(typ, s) && Fits(typ, t) && s != t
    ensures Earlier(s, t) || Earlier(t, s)
  {
    if typ == StrMap {
      PrecedesTotal(s.key, t.key);
    }
  }

  lemma EarlierTransitive(r: Slot, s: Slot, t: Slot)
    requires Earlier(r, s) && Earlier(s, t)
    ensures Earlier(r, t)
  {
    var a, b, c := KeyOfSlot(r), KeyOfSlot(s), KeyOfSlot(t);
    if a.StrKey? {
      PrecedesTransitive(a.text, b.text, c.text);
    }
  }

  predicate First(s: Slot, slots: set<Slot>) {
    s in slots && forall t :: t in slots && t != s ==> Earlier(s, t)
  }

  lemma {:induction false} HasFirst(typ: FieldMaskType, slots: set<Slot>)
    requires slots != {} && forall s :: s in slots ==> Fits(typ, s)
    ensures exists s :: First(s, slots)
    decreases slots
  {
    var s :| s in slots;
    var rest := slots - {s};
    if rest == {} {
      assert slots == {s};
      assert First(s, slots);
    } else {
      HasFirst(typ, rest);
      var r :| First(r, rest);
      EarlierTotal(typ, r, s);
      if Earlier(r, s) {
        assert First(r, slots);
      } else {
        forall t | t in slots && t != s
          ensures Earlier(s, t)
        {
          if t != r { EarlierTransitive(s, r, t); }
        }
        assert First(s, slots);
      }
    }
  }

  predicate Ascending(r: seq<Slot>) {
    forall i, j :: 0 <= i < j < |r| ==> Earlier(r[i], r[j])
  }

  /** The places in ascending order. */
  method Sort(typ: FieldMaskType, slots: set<Slot>) returns (r: seq<Slot>)
    requires forall s :: s in slots ==> Fits(typ, s)
    ensures Ascending(r) && forall s :: s in r <==> s in slots
  {
    r := [];
    var todo := slots;
    while todo != {}
      invariant todo <= slots && Ascending(r)
      invariant forall s :: s in r <==> s in slots - todo
      invariant forall i, t :: 0 <= i < |r| && t in todo ==> Earlier(r[i], t)
      decreases todo
    {
      HasFirst(typ, todo);
      var s :| First(s, todo);
      r := r + [s];
      todo := todo - {s};
    }
  }

  // ----- writing -----

  /** The places below that are asked for. */
  method SlotsOf(cur: FieldMask) returns (slots: set<Slot>)
    requires cur.Keeps(cur.kids)
    ensures forall s :: s in slots <==> s in cur.kids && Fits(cur.typ, s)
  {
    slots := {};
    if cur.typ == Struct && cur.fdMask != null {
      slots := (set id | id in cur.fdMask.tail :: Fd(id))
               + (set j | 0 <= j < cur.fdMask.head.Length && cur.fdMask.head[j] != null :: Fd(j));
    } else if (cur.typ == List || cur.typ == IntMap) && cur.intMask.Some? {
      slots := set n | n in cur.intMask.value :: Ints(n);
    } else if cur.typ == StrMap && cur.strMask.Some? {
      slots := set k | k in cur.strMask.value :: Strs(k);
    }
    forall s: Slot
      ensures s in slots <==> s in cur.kids && Fits(cur.typ, s)
    {
      assert cur.At(s) == if s in cur.kids then cur.kids[s] else null;
    }
  }

  /** The places of the live ones. */
  method LiveSlots(cur: FieldMask) returns (slots: set<Slot>)
    requires cur.Valid()
    ensures forall s :: s in slots <==> s in cur.kids && Fits(cur.typ, s) && Live(cur.Abs(), s)
  {
    hide FieldMask.Valid, FieldMask.Abs, FieldMask.Keeps, FieldMask.At, Separate, Within, Values;
    cur.Open();
    slots := SlotsOf(cur);
    slots := set s | s in slots && cur.At(s) != null && cur.At(s).Exist();
    forall s: Slot
      ensures Live(cur.Abs(), s) <==> s in cur.kids && cur.At(s) != null && cur.At(s).Exist()
    {
      LiveIs(cur, s);
    }
  }

  lemma LiveIs(cur: FieldMask, s: Slot)
    requires cur.Valid()
    ensures Live(cur.Abs(), s) <==> s in cur.kids && cur.At(s) != null && cur.At(s).Exist()
  {
    hide FieldMask.Valid, FieldMask.Abs, FieldMask.Keeps, Separate, Within, Values;
    cur.Open();
    cur.KidsAre(s);
    cur.AtIsKid(s);
    if cur.At(s) != null {
      cur.At(s).Open();
    }
  }

  /** The children that have been written. */
  predicate Written(m: Mask, order: seq<Slot>, cs: seq<Transfer>)
    requires |cs| <= |order|
  {
    forall i :: 0 <= i < |cs| ==>
      cs[i].path == KeyOfSlot(order[i]) && order[i] in m.kids && Writes(cs[i], m.kids[order[i]])
  }

  lemma WritesChildren(m: Mask, order: seq<Slot>, t: Transfer)
    requires !All(m) && Ascending(order) && |t.children| == |order| && Written(m, order, t.children)
    requires forall s :: s in order <==> s in m.kids && Shown(m, s)
    requires t.typ == m.typ && t.isBlack == m.isBlack
    ensures Writes(t, m)
  {
    var cs := t.children;
    forall i | 0 <= i < |cs|
      ensures Listed(cs[i].path, m)
    {
      assert order[i] in order;
    }
    forall s | s in m.kids && Shown(m, s)
      ensures exists i :: 0 <= i < |cs| && cs[i].path == KeyOfSlot(s)
    {
      var i :| 0 <= i < |order| && order[i] == s;
      assert cs[i].path == KeyOfSlot(s);
    }
    forall i, s | 0 <= i < |cs| && s in m.kids && Fits(m.typ, s) && cs[i].path == KeyOfSlot(s)
      ensures Writes(cs[i], m.kids[s])
    {
      assert order[i] in order;
      assert Fits(m.typ, order[i]);
    }
    assert Lists(cs, m);
  }

  predicate AllWritable(m: Mask, order: seq<Slot>, n: nat)
    requires n <= |order|
  {
    forall i :: 0 <= i < n ==> order[i] in m.kids && Writable(m.kids[order[i]])
  }

  lemma WritableChildren(m: Mask, order: seq<Slot>)
    requires !All(m) && (m.typ == Struct ==> HasFields(m))
    requires forall s :: s in order <==> s in m.kids && Shown(m, s)
    ensures AllWritable(m, order, |order|) <==> Writable(m)
  {
    if AllWritable(m, order, |order|) {
      forall s | s in m.kids && Shown(m, s)
        ensures Writable(m.kids[s])
      {
        var i :| 0 <= i < |order| && order[i] == s;
      }
    }
    if Writable(m) {
      forall i | 0 <= i < |order|
        ensures order[i] in m.kids && Writable(m.kids[order[i]])
      {
        assert order[i] in order;
      }
    }
  }

  lemma OneMore(m: Mask, order: seq<Slot>, cs: seq<Transfer>, c: Transfer)
    requires |cs| < |order| && order[|cs|] in m.kids
    ensures Written(m, order, []) && AllWritable(m, order, 0)
    ensures AllWritable(m, order, |order|) ==> Writable(m.kids[order[|cs|]])
    ensures AllWritable(m, order, |cs|) && Writable(m.kids[order[|cs|]]) ==> AllWritable(m, order, |cs| + 1)
    ensures Written(m, order, cs) && c.path == KeyOfSlot(order[|cs|]) && Writes(c, m.kids[order[|cs|]]) ==>
              Written(m, order, cs + [c])
  {
    hide Writable, Writes;
  }

  lemma WritesAll(t: Transfer, m: Mask)
    requires All(m) && t.typ == m.typ && t.isBlack == m.isBlack
    ensures !Live(m, Every) ==> Writable(m)
    ensures !Live(m, Every) && t.children == [] ==> Writes(t, m)
    ensures Live(m, Every) ==> (Writable(m) <==> Writable(m.kids[Every]))
    ensures Live(m, Every) && |t.children| == 1 && t.children[0].path == AnyPath && Writes(t.children[0], m.kids[Every]) ==>
              Writes(t, m)
  {
  }

  /** Writes a mask.  It comes to an end whenever every struct of which something is covered
      has fields. */
  method MarshalRec(cur: FieldMask, path: PathKey) returns (ok: bool, t: Transfer)
    requires cur.Valid()
    ensures ok <==> Writable(cur.Abs())
    ensures ok ==> Writes(t, cur.Abs()) && t.path == path
    decreases cur.repr, 2
  {
    hide FieldMask.Valid, FieldMask.Abs, FieldMask.Keeps, FieldMask.At, Separate, Within, Values, Writable, Writes;
    cur.Open();
    ghost var m := cur.Abs();
    t := Transfer(path, cur.typ, cur.isBlack, []);
    var covers := cur.isAll || cur.typ == Scalar || cur.typ == Invalid;
    if covers {
      WritesAll(t, m);
      AllBelow(cur);
      if cur.all == null || !cur.all.Exist() {
        return true, t;
      }
      var c;
      ok, c := MarshalRec(cur.all, AnyPath);
      t := t.(children := [c]);
      WritesAll(t, m);
      return;
    }
    FieldMapIs(cur);
    if cur.typ == Struct && cur.fdMask == null {
      NoFields(m);
      return false, t;
    }
    ok, t := MarshalChildren(cur, path);
  }

  /** Writes a mask that does not cover everything: the live masks below, in order. */
  method MarshalChildren(cur: FieldMask, path: PathKey) returns (ok: bool, t: Transfer)
    requires cur.Valid() && !All(cur.Abs()) && (cur.typ == Struct ==> cur.fdMask != null)
    ensures ok <==> Writable(cur.Abs())
    ensures ok ==> Writes(t, cur.Abs()) && t.path == path
    decreases cur.repr, 1
  {
    hide FieldMask.Valid, FieldMask.Abs, FieldMask.Keeps, FieldMask.At, Separate, Within, Values, Writable, Writes, All;
    hide Written, AllWritable, Fits, Live;
    cur.Open();
    FieldMapIs(cur);
    t := Transfer(path, cur.typ, cur.isBlack, []);
    var slots := LiveSlots(cur);
    var order := Sort(cur.typ, slots);
    KidsOf(cur.kids, cur.Abs().kids);
    WritableChildren(cur.Abs(), order);
    var cs;
    ok, cs := MarshalEach(cur, order);
    if ok {
      t := t.(children := cs);
      WritesChildren(cur.Abs(), order, t);
    }
  }

  method MarshalEach(cur: FieldMask, order: seq<Slot>) returns (ok: bool, cs: seq<Transfer>)
    requires cur.Valid() && forall s :: s in order ==> s in cur.kids
    ensures ok <==> AllWritable(cur.Abs(), order, |order|)
    ensures ok ==> |cs| == |order| && Written(cur.Abs(), order, cs)
    decreases cur.repr, 0
  {
    hide FieldMask.Valid, FieldMask.Abs, FieldMask.Keeps, FieldMask.At, Separate, Within, Values, Writable, Writes;
    ghost var m := cur.Abs();
    cs := [];
    for i := 0 to |order|
      invariant cur.Valid() && cur.Abs() == m
      invariant |cs| == i && Written(m, order, cs) && AllWritable(m, order, i)
    {
      assert order[i] in order;
      Below(cur, order[i]);
      var k := cur.At(order[i]);
      assert k.Abs() == m.kids[order[i]];
      var c;
      ok, c := MarshalRec(k, KeyOfSlot(order[i]));
      OneMore(m, order, cs, c);
      if !ok {
        return;
      }
      cs := cs + [c];
    }
    ok := true;
  }

  lemma Below(cur: FieldMask, s: Slot)
    requires cur.Valid() && s in cur.kids
    ensures cur.At(s) != null && cur.At(s).Valid() && cur.At(s).repr < cur.repr
    ensures s in cur.Abs().kids && cur.Abs().kids[s] == cur.At(s).Abs()
  {
    cur.Open();
    cur.KidsAre(s);
    cur.AtIsKid(s);
  }

  lemma NoFields(m: Mask)
    requires m.typ == Struct && !m.isAll && !HasFields(m)
    ensures !Writable(m)
  {
  }

  lemma AllBelow(cur: FieldMask)
    requires cur.Valid()
    ensures cur.all != null ==> cur.all.Valid() && cur.all.repr < cur.repr
    ensures Live(cur.Abs(), Every) <==> cur.all != null && cur.all.Exist()
    ensures cur.all != null ==> Every in cur.Abs().kids && cur.Abs().kids[Every] == cur.all.Abs()
  {
    cur.Open();
    cur.KidsAre(Every);
    cur.AtIsKid(Every);
    LiveIs(cur, Every);
  }
}
