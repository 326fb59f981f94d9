/** The serialised form of a field mask, taken at the level of its tree:
    fieldmask/serdes.go.  The path of a node is a number or a text, and the text of a star is
    that of the key `*`. */
module MaskTransfer {
  import opened Wrappers
  import opened MaskPaths
  import opened MaskTree

  /** The place of a node below its parent, as it is written. */
  datatype PathKey = IntKey(n: int) | StrKey(text: string)

  const AnyPath: PathKey := StrKey("*")

  datatype Transfer = Transfer(path: PathKey, typ: FieldMaskType, isBlack: bool, children: seq<Transfer>)

  // ----- writing -----

  function KeyOfSlot(s: Slot): PathKey {
    match s
    case Every => AnyPath
    case Fd(id) => IntKey(id)
    case Ints(n) => IntKey(n)
    case Strs(k) => StrKey(k)
  }

  /** The place that a written key stands for below a mask of a type.  Field ids have 31
      bits. */
  function SlotOfKey(typ: FieldMaskType, k: PathKey): Option<Slot> {
    if typ == Struct && k.IntKey? && 0 <= k.n < 0x8000_0000 then Some(Fd(k.n))
    else if (typ == List || typ == IntMap) && k.IntKey? then Some(Ints(k.n))
    else if typ == StrMap && k.StrKey? then Some(Strs(k.text))
    else None
  }

  /** The order of strings. */
  predicate Precedes(a: string, b: string) {
    b != [] && (a == [] || a[0] < b[0] || (a[0] == b[0] && Precedes(a[1..], b[1..])))
  }

  predicate Less(a: PathKey, b: PathKey) {
    (a.IntKey? && b.IntKey? && a.n < b.n) || (a.StrKey? && b.StrKey? && Precedes(a.text, b.text))
  }

  predicate Live(m: Mask, s: Slot) {
    s in m.kids && Exist(m.kids[s])
  }

  /** A live mask at a place that is asked for. */
  predicate Shown(m: Mask, s: Slot) {
    Fits(m.typ, s) && Live(m, s)
  }

  /** The children of a node, when not everything is covered: one for every mask below that
      is shown, in ascending order. */
  predicate Lists(cs: seq<Transfer>, m: Mask) {
    && (forall i, j :: 0 <= i < j < |cs| ==> Less(cs[i].path, cs[j].path))
    && (forall i :: 0 <= i < |cs| ==> Listed(cs[i].path, m))
    && (forall s :: s in m.kids && Shown(m, s) ==> exists i :: 0 <= i < |cs| && cs[i].path == KeyOfSlot(s))
  }

  predicate Listed(k: PathKey, m: Mask) {
    exists s :: s in m.kids && Shown(m, s) && KeyOfSlot(s) == k
  }

  /** What marshalRec writes for a mask. */
  predicate Writes(t: Transfer, m: Mask)
    decreases t
  {
    && t.typ == m.typ && t.isBlack == m.isBlack
    && if All(m) then
         if Live(m, Every) then |t.children| == 1 && t.children[0].path == AnyPath && Writes(t.children[0], m.kids[Every])
         else t.children == []
       else
         && Lists(t.children, m)
         && forall i, s :: 0 <= i < |t.children| && s in m.kids && Shown(m, s) && t.children[i].path == KeyOfSlot(s) ==>
              Writes(t.children[i], m.kids[s])
  }

  /** Whether writing comes to an end: a struct of which something is covered has fields. */
  predicate Writable(m: Mask) {
    if All(m) then Live(m, Every) ==> Writable(m.kids[Every])
    else
      && (m.typ == Struct ==> HasFields(m))
      && forall s :: s in m.kids && Shown(m, s) ==> Writable(m.kids[s])
  }

  // ----- reading -----

  /** Fills a mask from a node. */
  function From(m: Mask, t: Transfer): Option<Mask>
    decreases t, 1
  {
    var m' := m.(typ := t.typ, isBlack := t.isBlack);
    if t.typ == Invalid then None
    else if t.children == [] then Some(m'.(isAll := true))
    else if t.typ == Scalar then
      if t.children[0].path == AnyPath then FromStar(m', t.children[0]) else None
    else FromEach(m', t, 0)
  }

  /** A child whose path is that of a star stands for everything. */
  function FromStar(m: Mask, c: Transfer): Option<Mask>
    decreases c, 2
  {
    var k := From(New(Invalid, false), c);
    if k.Some? then Some(m.(isAll := true, kids := m.kids[Every := k.value])) else None
  }

  /** The children from the i-th on.  One that stands for everything is the last one read. */
  function FromEach(m: Mask, t: Transfer, i: nat): Option<Mask>
    requires i <= |t.children|
    decreases t, 0, |t.children| - i
  {
    if i == |t.children| then Some(m)
    else
      var c := t.children[i];
      if c.path == AnyPath then FromStar(m, c)
      else
        var s := SlotOfKey(t.typ, c.path);
        if s.None? then None
        else
          var k := From(Make(m, s.value, c.typ), c);
          if k.None? then None else FromEach(m.(kids := m.kids[s.value := k.value]), t, i + 1)
  }

  /** A field id below zero, which fits 32 bits: the array of small ids is indexed with it. */
  predicate BadIndex(typ: FieldMaskType, k: PathKey) {
    typ == Struct && k.IntKey? && -0x8000_0000 <= k.n < 0
  }

  /** Whether filling a mask panics: it comes to such an id before anything is refused. */
  predicate Breaks(m: Mask, t: Transfer)
    decreases t, 1
  {
    var m' := m.(typ := t.typ, isBlack := t.isBlack);
    t.typ != Invalid && t.children != []
    && if t.typ == Scalar then t.children[0].path == AnyPath && BreaksStar(t.children[0]) else BreaksEach(m', t, 0)
  }

  predicate BreaksStar(c: Transfer)
    decreases c, 2
  {
    Breaks(New(Invalid, false), c)
  }

  predicate BreaksEach(m: Mask, t: Transfer, i: nat)
    requires i <= |t.children|
    decreases t, 0, |t.children| - i
  {
    i < |t.children|
    && var c := t.children[i];
       if c.path == AnyPath then BreaksStar(c)
       else
         var s := SlotOfKey(t.typ, c.path);
         if s.None? then BadIndex(t.typ, c.path)
         else
           var k := From(Make(m, s.value, c.typ), c);
           if k.None? then Breaks(Make(m, s.value, c.typ), c) else BreaksEach(m.(kids := m.kids[s.value := k.value]), t, i + 1)
  }

  /** What panics does not fill a mask. */
  lemma {:induction false} BreaksIsNone(m: Mask, t: Transfer)
    ensures Breaks(m, t) ==> From(m, t).None?
    decreases t, 1
  {
    if t.typ != Invalid && t.children != [] {
      if t.typ == Scalar {
        BreaksStarIsNone(m.(typ := t.typ, isBlack := t.isBlack), t.children[0]);
      } else {
        BreaksEachIsNone(m.(typ := t.typ, isBlack := t.isBlack), t, 0);
      }
    }
  }

  lemma {:induction false} BreaksStarIsNone(m: Mask, c: Transfer)
    ensures BreaksStar(c) ==> FromStar(m, c).None?
    decreases c, 2
  {
    BreaksIsNone(New(Invalid, false), c);
    hide Breaks, From;
  }

  lemma {:induction false} BreaksEachIsNone(m: Mask, t: Transfer, i: nat)
    requires i <= |t.children|
    ensures BreaksEach(m, t, i) ==> FromEach(m, t, i).None?
    decreases t, 0, |t.children| - i
  {
    if i < |t.children| {
      var c := t.children[i];
      var s := SlotOfKey(t.typ, c.path);
      if c.path == AnyPath {
        BreaksStarIsNone(m, c);
      } else if s.Some? {
        var k := From(Make(m, s.value, c.typ), c);
        if k.Some? { BreaksEachIsNone(m.(kids := m.kids[s.value := k.value]), t, i + 1); }
      }
    }
  }

  // ----- what reading makes of what was written -----

  predicate SomeShown(m: Mask) {
    exists s :: s in m.kids && Shown(m, s)
  }

  /** A string map that has a mask for the key `*`. */
  predicate StarKey(m: Mask) {
    m.typ == StrMap && Live(m, Strs("*"))
  }

  /** What is written before a star. */
  predicate Before(m: Mask, s: Slot) {
    Shown(m, s) && Less(KeyOfSlot(s), AnyPath)
  }

  function Smaller(m: Mask): map<Slot, Mask> {
    map s | s in m.kids && Before(m, s) :: Rebuilt(m.kids[s])
  }

  /** The mask that is read.  What is not written is gone; a mask of which nothing is shown
      covers everything; the key `*` of a string map becomes a star, and of the other keys
      only those written before it are left. */
  function Rebuilt(m: Mask): Mask {
    if All(m) then
      Mask(true, m.isBlack, m.typ, if Live(m, Every) then map[Every := Rebuilt(m.kids[Every])] else map[])
    else if !SomeShown(m) then Mask(true, m.isBlack, m.typ, map[])
    else if StarKey(m) then
      Mask(true, m.isBlack, m.typ,
           (map s | s in m.kids && Before(m, s) :: Rebuilt(m.kids[s]))[Every := Rebuilt(m.kids[Strs("*")])])
    else
      Mask(false, m.isBlack, m.typ, map s | s in m.kids && Shown(m, s) :: Rebuilt(m.kids[s]))
  }

  /** Field ids fit 31 bits. */
  predicate Small(m: Mask) {
    forall s :: s in m.kids ==> (s.Fd? ==> 0 <= s.id < 0x8000_0000) && Small(m.kids[s])
  }

  lemma KeyIsRead(typ: FieldMaskType, s: Slot)
    requires Fits(typ, s) && (s.Fd? ==> 0 <= s.id < 0x8000_0000)
    ensures SlotOfKey(typ, KeyOfSlot(s)) == Some(s)
  {
  }

  lemma {:induction false} PrecedesIsStrict(a: string, b: string)
    ensures !(Precedes(a, b) && Precedes(b, a))
  {
    if a != [] && b != [] {
      PrecedesIsStrict(a[1..], b[1..]);
    }
  }

  lemma LessIsStrict(a: PathKey, b: PathKey)
    ensures !(Less(a, b) && Less(b, a))
  {
    if a.StrKey? && b.StrKey? {
      PrecedesIsStrict(a.text, b.text);
    }
  }

  predicate Among(t: Transfer, i: nat, s: Slot)
    requires i <= |t.children|
  {
    exists j :: 0 <= j < i && t.children[j].path == KeyOfSlot(s)
  }

  /** The mask after the first children. */
  function Partial(m: Mask, t: Transfer, i: nat): Mask
    requires i <= |t.children|
  {
    Mask(false, m.isBlack, m.typ, map s | s in m.kids && Shown(m, s) && Among(t, i, s) :: Rebuilt(m.kids[s]))
  }

  /** Reading what was written gives the rebuilt mask. */
  lemma {:induction false} Reads(t: Transfer, m: Mask, k: Mask)
    requires Writes(t, m) && m.typ != Invalid && Small(m) && k.kids == map[] && !k.isAll
    ensures From(k, t) == Some(Rebuilt(m))
    decreases t, 1
  {
    hide Rebuilt, Lists, Small, Partial;
    var k' := k.(typ := t.typ, isBlack := t.isBlack);
    RebuiltIs(m);
    if All(m) {
      if Live(m, Every) {
        SmallBelow(m, Every);
        Reads(t.children[0], m.kids[Every], New(Invalid, false));
        assert FromStar(k', t.children[0]) == Some(Rebuilt(m));
        assert t.typ != Scalar ==> FromEach(k', t, 0) == FromStar(k', t.children[0]);
      }
    } else {
      NothingWritten(t, m, k');
      if t.children != [] {
        EachReads(t, m, 0);
      }
    }
  }

  lemma RebuiltIs(m: Mask)
    ensures All(m) && Live(m, Every) ==> Rebuilt(m) == Mask(true, m.isBlack, m.typ, map[Every := Rebuilt(m.kids[Every])])
    ensures All(m) && !Live(m, Every) ==> Rebuilt(m) == Mask(true, m.isBlack, m.typ, map[])
    ensures !All(m) && !SomeShown(m) ==> Rebuilt(m) == Mask(true, m.isBlack, m.typ, map[])
  {
  }

  lemma SmallBelow(m: Mask, s: Slot)
    requires Small(m) && s in m.kids
    ensures Small(m.kids[s]) && (s.Fd? ==> 0 <= s.id < 0x8000_0000)
  {
  }

  lemma NothingWritten(t: Transfer, m: Mask, k: Mask)
    requires Writes(t, m) && !All(m) && k.kids == map[] && !k.isAll && k.typ == t.typ && k.isBlack == t.isBlack
    ensures t.children == [] <==> !SomeShown(m)
    ensures k == Partial(m, t, 0)
  {
    if t.children != [] {
      assert Listed(t.children[0].path, m);
    }
  }

  lemma {:induction false} EachReads(t: Transfer, m: Mask, i: nat)
    requires Writes(t, m) && m.typ != Invalid && Small(m) && !All(m) && SomeShown(m) && i <= |t.children|
    requires forall j :: 0 <= j < i ==> t.children[j].path != AnyPath
    ensures FromEach(Partial(m, t, i), t, i) == Some(Rebuilt(m))
    decreases t, 0, |t.children| - i
  {
    hide Writes, Lists, From, FromStar, Partial, Rebuilt, Among, Small, Shown, SomeShown;
    if i == |t.children| {
      AllRead(t, m);
    } else {
      var c := t.children[i];
      var s := ChildOf(t, m, i);
      var p := Partial(m, t, i);
      if c.path == AnyPath {
        Reads(c, m.kids[s], New(Invalid, false));
        StarRead(t, m, i);
      } else {
        Reads(c, m.kids[s], New(c.typ, m.isBlack));
        ReadNext(p, t, i, s, Rebuilt(m.kids[s]));
        PartialNext(t, m, i, s);
        EachReads(t, m, i + 1);
      }
    }
  }

  /** Without the key of a star all children are read. */
  lemma AllRead(t: Transfer, m: Mask)
    requires Writes(t, m) && !All(m) && SomeShown(m)
    requires forall j :: 0 <= j < |t.children| ==> t.children[j].path != AnyPath
    ensures Partial(m, t, |t.children|) == Rebuilt(m)
  {
    hide Less;
    forall s | s in m.kids && Shown(m, s)
      ensures Among(t, |t.children|, s) && KeyOfSlot(s) != AnyPath
    {
    }
    assert !StarKey(m);
    assert Partial(m, t, |t.children|).kids == Rebuilt(m).kids;
  }

  /** At the key of a star, the children before it are those with smaller keys. */
  lemma StarRead(t: Transfer, m: Mask, i: nat)
    requires Writes(t, m) && !All(m) && i < |t.children| && t.children[i].path == AnyPath
    requires Live(m, Strs("*")) && m.typ == StrMap
    requires From(New(Invalid, false), t.children[i]) == Some(Rebuilt(m.kids[Strs("*")]))
    ensures FromStar(Partial(m, t, i), t.children[i]) == Some(Rebuilt(m))
  {
    hide From, Rebuilt, Writes, Among, Less;
    forall s | s in m.kids && Shown(m, s)
      ensures Among(t, i, s) <==> Less(KeyOfSlot(s), AnyPath)
    {
      SmallerIsBefore(t, m, i, s);
    }
    RebuiltStar(m);
    assert Partial(m, t, i).kids == Smaller(m);
  }

  lemma RebuiltStar(m: Mask)
    requires !All(m) && Live(m, Strs("*")) && m.typ == StrMap
    ensures Rebuilt(m) ==
              Mask(true, m.isBlack, m.typ,
                   Smaller(m)[Every := Rebuilt(m.kids[Strs("*")])])
  {
    assert Shown(m, Strs("*")) && StarKey(m);
    assert Smaller(m) == map s | s in m.kids && Before(m, s) :: Rebuilt(m.kids[s]);
  }

  lemma SmallerIsBefore(t: Transfer, m: Mask, i: nat, s: Slot)
    requires Writes(t, m) && !All(m) && i < |t.children| && t.children[i].path == AnyPath
    requires s in m.kids && Shown(m, s)
    ensures Among(t, i, s) <==> Less(KeyOfSlot(s), AnyPath)
  {
    hide Writes, Less, Shown, Listed, KeyOfSlot;
    ListsOf(t, m);
    var j :| 0 <= j < |t.children| && t.children[j].path == KeyOfSlot(s);
    LessIsStrict(KeyOfSlot(s), AnyPath);
    if Among(t, i, s) {
      var l :| 0 <= l < i && t.children[l].path == KeyOfSlot(s);
      assert Less(t.children[l].path, t.children[i].path);
    }
    LessIsStrict(AnyPath, AnyPath);
  }

  lemma ListsOf(t: Transfer, m: Mask)
    requires Writes(t, m) && !All(m)
    ensures Lists(t.children, m)
  {
    hide Lists;
  }

  /** The place of a child; none of the children before it is at the same place. */
  lemma ChildOf(t: Transfer, m: Mask, i: nat) returns (s: Slot)
    requires Writes(t, m) && Small(m) && !All(m) && i < |t.children|
    ensures s in m.kids && Fits(m.typ, s) && Live(m, s) && Shown(m, s) && KeyOfSlot(s) == t.children[i].path
    ensures SlotOfKey(t.typ, t.children[i].path) == Some(s) && s !in Partial(m, t, i).kids
    ensures t.children[i].path == AnyPath ==> s == Strs("*") && m.typ == StrMap
    ensures Writes(t.children[i], m.kids[s]) && m.kids[s].typ != Invalid && Small(m.kids[s])
    ensures Partial(m, t, i).isBlack == m.isBlack
  {
    var c := t.children[i];
    assert Listed(c.path, m);
    s :| s in m.kids && Shown(m, s) && KeyOfSlot(s) == c.path;
    SmallBelow(m, s);
    KeyIsRead(m.typ, s);
    LessIsStrict(c.path, c.path);
    assert !Among(t, i, s);
  }

  lemma ReadNext(p: Mask, t: Transfer, i: nat, s: Slot, k: Mask)
    requires i < |t.children| && t.children[i].path != AnyPath
    requires SlotOfKey(t.typ, t.children[i].path) == Some(s) && s !in p.kids
    requires From(New(t.children[i].typ, p.isBlack), t.children[i]) == Some(k)
    ensures FromEach(p, t, i) == FromEach(p.(kids := p.kids[s := k]), t, i + 1)
  {
    hide From;
  }

  lemma PartialNext(t: Transfer, m: Mask, i: nat, s: Slot)
    requires i < |t.children| && s in m.kids && Shown(m, s) && KeyOfSlot(s) == t.children[i].path
    requires Small(m)
    ensures var p := Partial(m, t, i); p.(kids := p.kids[s := Rebuilt(m.kids[s])]) == Partial(m, t, i + 1)
  {
    hide Writes, Rebuilt, Small, Less, Shown, Among;
    var p, p' := Partial(m, t, i), Partial(m, t, i + 1);
    forall r | r in m.kids && Shown(m, r)
      ensures Among(t, i + 1, r) <==> Among(t, i, r) || r == s
    {
      OneMore(t, i, r);
      if KeyOfSlot(r) == KeyOfSlot(s) { SameKey(m, r, s); }
    }
    assert p.kids[s := Rebuilt(m.kids[s])] == p'.kids;
  }

  lemma OneMore(t: Transfer, i: nat, s: Slot)
    requires i < |t.children|
    ensures Among(t, i + 1, s) <==> Among(t, i, s) || t.children[i].path == KeyOfSlot(s)
  {
  }

  lemma SameKey(m: Mask, r: Slot, s: Slot)
    requires Small(m) && r in m.kids && s in m.kids && Shown(m, r) && Shown(m, s) && KeyOfSlot(r) == KeyOfSlot(s)
    ensures r == s
  {
    SmallBelow(m, r);
    SmallBelow(m, s);
    KeyIsRead(m.typ, r);
    KeyIsRead(m.typ, s);
  }
}
