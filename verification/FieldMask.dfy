/** Field masks on the heap: fieldmask/mask.go and fieldmask/storage.go.  Every operation is
    tied to the mask by value of MaskTree.dfy. */
module FieldMasks {
  import opened Wrappers
  import opened MaskPaths
  import opened MaskTree

  const HeadLength: nat := 64

  /** Small field ids index an array, the others are keys of a map. */
  class FieldMap {
    const head: array<FieldMask?>
    var tail: map<int, FieldMask>

    constructor ()
      ensures fresh(head) && head.Length == HeadLength && tail == map[]
      ensures forall i :: 0 <= i < HeadLength ==> head[i] == null
    {
      head := new FieldMask?[HeadLength](_ => null);
      tail := map[];
    }
  }

  class FieldMask {
    var isAll: bool
    var isBlack: bool
    var typ: FieldMaskType
    var all: FieldMask?
    var fdMask: FieldMap?
    var intMask: Option<map<int, FieldMask>>
    var strMask: Option<map<string, FieldMask>>
    ghost var kids: map<Slot, FieldMask>   // the masks below, wherever they are kept
    ghost var repr: set<object>

    // ----- what is kept where -----

    ghost function Own(): set<object>
      reads this`fdMask
    {
      {this} + if fdMask == null then {} else {fdMask, fdMask.head}
    }

    /** The mask below at a place. */
    function At(s: Slot): FieldMask?
      reads this`all, this`fdMask, this`intMask, this`strMask, fdMask, if fdMask == null then {} else {fdMask.head}
    {
      match s
      case Every => all
      case Fd(id) =>
        if fdMask == null then null
        else if 0 <= id < fdMask.head.Length then fdMask.head[id]
        else if id in fdMask.tail then fdMask.tail[id]
        else null
      case Ints(n) => if intMask.Some? && n in intMask.value then intMask.value[n] else null
      case Strs(k) => if strMask.Some? && k in strMask.value then strMask.value[k] else null
    }

    /** The containers hold exactly these masks, and there is no empty container. */
    ghost predicate Keeps(ks: map<Slot, FieldMask>)
      reads this`all, this`fdMask, this`intMask, this`strMask
      reads fdMask, if fdMask == null then {} else {fdMask.head}
    {
      && (forall s: Slot :: At(s) == (if s in ks then ks[s] else null))
      && (fdMask != null ==> fdMask.head.Length == HeadLength && exists id :: Fd(id) in ks)
      && (fdMask != null ==> forall id :: id in fdMask.tail ==> id >= HeadLength)
      && (intMask.Some? ==> exists n :: Ints(n) in ks)
      && (strMask.Some? ==> exists k :: Strs(k) in ks)
    }

    ghost predicate Valid()
      reads this, repr
      decreases repr
    {
      && Own() <= repr && Keeps(kids)
      && (forall s :: s in kids ==> kids[s] in repr && kids[s].repr <= repr)
      && Separate(kids, Own())
      && forall s :: s in kids ==> kids[s].Valid()
    }

    /** The mask by value. */
    ghost function Abs(): Mask
      reads this, repr
      requires Valid()
      decreases repr
    {
      Mask(isAll, isBlack, typ, map s | s in kids :: kids[s].Abs())
    }

    ghost predicate Looks(m: Mask)
      reads this`isAll, this`isBlack, this`typ
    {
      m.isAll == isAll && m.isBlack == isBlack && m.typ == typ
    }

    /** What Valid and Abs say about the mask itself. */
    lemma Open()
      requires Valid()
      ensures Own() <= repr && Keeps(kids) && Separate(kids, Own()) && Within(kids, repr) && Values(kids, Abs().kids)
      ensures Looks(Abs())
    {
    }

    lemma Close(m: Mask)
      requires Own() <= repr && Keeps(kids) && Separate(kids, Own()) && Within(kids, repr) && Values(kids, m.kids)
      requires Looks(m)
      ensures Valid() && Abs() == m
    {
      assert Abs().kids == m.kids;
    }

    constructor (typ: FieldMaskType, black: bool)
      ensures Valid() && fresh(repr) && Abs() == New(typ, black)
    {
      this.typ, isAll, isBlack := typ, false, black;
      all, fdMask, intMask, strMask := null, null, None, None;
      kids := map[];
      repr := {this};
    }

    // ----- questions -----

    predicate Exist()
      reads this
    {
      typ != Invalid
    }

    predicate HasChild()
      reads this
    {
      typ != Invalid && (all != null || fdMask != null || intMask.Some? || strMask.Some?)
    }

    /** A place holds a mask exactly when the mask by value does. */
    lemma AtIsKid(s: Slot)
      requires Valid()
      ensures At(s) != null ==> At(s).Valid() && At(s) in repr && At(s).repr <= repr
      ensures AbsOf(At(s)) == Kid(Abs(), s)
    {
      hide Valid, Abs, Separate;
      Open();
    }

    lemma KidsAre(s: Slot)
      requires Keeps(kids)
      ensures At(s) == null <==> s !in kids
      ensures s in kids ==> At(s) == kids[s]
    {
    }

    /** Whether there is something below. */
    lemma HasChildIsAbs()
      requires Valid()
      ensures HasChild() <==> MaskTree.HasChild(Abs())
    {
      hide Valid, Abs, Separate, Within;
      Open();
      if HasChild() {
        if all != null {
          assert At(Every) != null;
          assert Every in kids;
        }
        assert kids != map[];
      }
      if kids != map[] {
        var s :| s in kids;
        assert At(s) != null;
      }
    }

    // ----- a type -----

    /** A mask that was cleared gets a type again. */
    method Assign(ft: FieldMaskType, black: bool)
      requires Valid()
      modifies this
      ensures Valid() && repr == old(repr)
      ensures Abs() == old(Abs()).(typ := ft, isAll := false, isBlack := black)
    {
      hide Valid, Abs, FieldMask.Keeps, Separate, Within, Values;
      Open();
      ghost var m := Abs();
      KidsApart(kids, m.kids, Own());
      typ, isAll, isBlack := ft, false, black;
      Close(m.(typ := ft, isAll := false, isBlack := black));
    }

    // ----- masks below -----

    method PutAll(k: FieldMask, ghost ks: map<Slot, FieldMask>)
      requires Keeps(ks) && Every !in ks
      modifies this`all
      ensures Keeps(ks[Every := k])
    {
      all := k;
      assert forall s: Slot :: s != Every ==> At(s) == old(At(s));
    }

    method PutInt(n: int, k: FieldMask, ghost ks: map<Slot, FieldMask>)
      requires Keeps(ks) && Ints(n) !in ks
      modifies this`intMask
      ensures Keeps(ks[Ints(n) := k])
    {
      intMask := Some(if intMask.None? then map[n := k] else intMask.value[n := k]);
      assert Ints(n) in ks[Ints(n) := k];
      forall s: Slot
        ensures At(s) == if s == Ints(n) then k else old(At(s))
      {
      }
    }

    method PutStr(key: string, k: FieldMask, ghost ks: map<Slot, FieldMask>)
      requires Keeps(ks) && Strs(key) !in ks
      modifies this`strMask
      ensures Keeps(ks[Strs(key) := k])
    {
      strMask := Some(if strMask.None? then map[key := k] else strMask.value[key := k]);
      assert Strs(key) in ks[Strs(key) := k];
      forall s: Slot
        ensures At(s) == if s == Strs(key) then k else old(At(s))
      {
      }
    }

    method PutField(id: int, k: FieldMask, ghost ks: map<Slot, FieldMask>)
      requires Keeps(ks) && Fd(id) !in ks && id >= 0
      modifies this`fdMask, fdMask, if fdMask == null then {} else {fdMask.head}
      ensures Keeps(ks[Fd(id) := k])
      ensures if old(fdMask) == null then fdMask != null && fresh(fdMask) && fresh(fdMask.head) else fdMask == old(fdMask)
    {
      if fdMask == null {
        fdMask := new FieldMap();
      }
      if id < HeadLength {
        fdMask.head[id] := k;
      } else {
        fdMask.tail := fdMask.tail[id := k];
      }
      assert Fd(id) in ks[Fd(id) := k];
      forall s: Slot
        ensures At(s) == if s == Fd(id) then k else old(At(s))
      {
      }
    }

    /** Takes over a new mask below. */
    ghost method Adopt(s: Slot, k: FieldMask, ms: map<Slot, Mask>)
      requires s !in kids && Keeps(kids[s := k]) && Own() !! k.repr && k.repr !! repr
      requires Separate(kids, Own()) && Within(kids, repr) && Values(kids, ms) && k.Valid()
      modifies this`kids, this`repr
      ensures kids == old(kids)[s := k] && repr == old(repr) + Own() + k.repr
      ensures Own() <= repr && Keeps(kids) && Separate(kids, Own()) && Within(kids, repr)
      ensures Values(kids, ms[s := k.Abs()])
    {
      hide Valid, Abs, FieldMask.Keeps, FieldMask.Looks, Separate, Within, Values;
      k.Open();
      KidsApart(kids, ms, Own());
      SeparateMore(kids, Own(), repr, s, k);
      ValuesMore(kids, ms, s, k);
      WithinMore(kids, repr, s, k, repr + Own() + k.repr);
      repr := repr + Own() + k.repr;
      kids := kids[s := k];
    }

    /** Takes back a mask below that has grown. */
    ghost method Regrow(s: Slot, others: set<object>, ms: map<Slot, Mask>)
      requires s in kids && Keeps(kids) && Own() <= others && kids[s].repr !! others && kids[s].Valid()
      requires Separate(kids - {s}, Own()) && Within(kids - {s}, others) && Values(kids - {s}, ms)
      modifies this`repr
      ensures repr == others + kids[s].repr
      ensures Own() <= repr && Keeps(kids) && Separate(kids, Own()) && Within(kids, repr)
      ensures kids[s].Valid() && kids[s].Abs() == old(kids[s].Abs()) && Values(kids, ms[s := kids[s].Abs()])
    {
      hide Valid, Abs, FieldMask.Keeps, FieldMask.Looks, Separate, Within, Values;
      var k := kids[s];
      assert this in Own() && this !in k.repr;
      k.Open();
      KidsApart(kids - {s}, ms, Own());
      SeparateMore(kids - {s}, Own(), others, s, k);
      ValuesMore(kids - {s}, ms, s, k);
      WithinMore(kids - {s}, others, s, k, others + k.repr);
      assert (kids - {s})[s := k] == kids;
      repr := others + k.repr;
    }

    method ClearAll(ghost ks: map<Slot, FieldMask>)
      requires Keeps(ks)
      modifies this`all
      ensures Keeps(ks - {Every})
    {
      all := null;
      forall s: Slot
        ensures At(s) == (if s in ks - {Every} then ks[s] else null)
      {
        assert s != Every ==> At(s) == old(At(s));
      }
      assert forall s: Slot :: s in ks && s != Every ==> s in ks - {Every};
    }

    /** Forgets the mask of all elements. */
    method DropAll()
      requires Valid()
      modifies this
      ensures Valid() && repr == old(repr) && Every !in kids
      ensures Abs() == old(Abs()).(kids := old(Abs()).kids - {Every})
    {
      hide Valid, Abs, FieldMask.Keeps, Separate, Within, Values;
      Open();
      ghost var m := Abs();
      KidsApart(kids, m.kids, Own());
      Without(kids, m.kids, Own(), repr, Every);
      ClearAll(kids);
      kids := kids - {Every};
      Close(m.(kids := m.kids - {Every}));
    }

    /** The mask by value when one below has changed in place. */
    ghost method Refit(s: Slot, others: set<object>, m: Mask)
      requires s in kids && Keeps(kids) && Own() <= others && kids[s].repr !! others && kids[s].Valid()
      requires Separate(kids - {s}, Own()) && Within(kids - {s}, others) && Values(kids - {s}, m.kids - {s})
      requires Looks(m)
      modifies this`repr
      ensures repr == others + kids[s].repr
      ensures Valid() && Abs() == With(m, s, kids[s].Abs())
    {
      hide Valid, Abs, FieldMask.Keeps, FieldMask.Looks, Separate, Within, Values;
      ghost var k := kids[s];
      assert this in Own() && this !in k.repr;
      Regrow(s, others, m.kids - {s});
      assert (m.kids - {s})[s := k.Abs()] == m.kids[s := k.Abs()];
      CloseWith(m, s, k);
    }

    /** Puts a new mask at a place. */
    method Store(s: Slot, k: FieldMask, ghost ks: map<Slot, FieldMask>)
      requires Keeps(ks) && s !in ks && (s.Fd? ==> s.id >= 0)
      modifies this`all, this`fdMask, this`intMask, this`strMask, fdMask, if fdMask == null then {} else {fdMask.head}
      ensures Keeps(ks[s := k]) && old(Own()) <= Own() && fresh(Own() - old(Own()))
    {
      hide FieldMask.Keeps;
      match s {
        case Every => PutAll(k, ks);
        case Fd(id) => PutField(id, k, ks);
        case Ints(n) => PutInt(n, k, ks);
        case Strs(key) => PutStr(key, k, ks);
      }
    }

    method SetNew(s: Slot, ft: FieldMaskType) returns (k: FieldMask)
      requires Valid() && s !in kids && (s.Fd? ==> s.id >= 0)
      modifies this, Own()
      ensures Valid() && fresh(repr - old(repr))
      ensures s in kids && k == kids[s]
      ensures Abs() == With(old(Abs()), s, New(ft, old(Abs()).isBlack))
    {
      hide Valid, Abs, FieldMask.Keeps, FieldMask.Looks, Separate, Within, Values;
      Open();
      k := new FieldMask(ft, isBlack);
      k.Open();
      AddKid(s, k);
    }

    /** Storing a mask disturbs none of those that are there. */
    method StoreKid(s: Slot, k: FieldMask, ghost ms: map<Slot, Mask>, ghost all: set<object>, ghost below: set<object>)
      requires Keeps(kids) && s !in kids && (s.Fd? ==> s.id >= 0)
      requires Own() <= all && below !! all && Separate(kids, Own()) && Within(kids, all) && Values(kids, ms)
      modifies this`all, this`fdMask, this`intMask, this`strMask, fdMask, if fdMask == null then {} else {fdMask.head}
      ensures Keeps(kids[s := k]) && old(Own()) <= Own() && fresh(Own() - old(Own()))
      ensures Own() !! below && Separate(kids, Own()) && Within(kids, all) && Values(kids, ms)
    {
      hide FieldMask.Keeps, Separate, Within, Values;
      KidsApart(kids, ms, Own());
      Store(s, k, kids);
      SeparateOwn(kids, old(Own()), Own(), all);
      OwnApart(old(Own()), Own() - old(Own()), below, all);
    }

    method AddKid(s: Slot, k: FieldMask)
      requires Valid() && s !in kids && (s.Fd? ==> s.id >= 0)
      requires k.Valid() && k.repr !! repr
      modifies this, Own()
      ensures Valid() && fresh(repr - old(repr) - k.repr)
      ensures s in kids && kids[s] == k
      ensures Abs() == With(old(Abs()), s, old(k.Abs()))
    {
      hide Valid, Abs, FieldMask.Keeps, FieldMask.Looks, Separate, Within, Values;
      Open();
      k.Open();
      hide With;
      ghost var m, v := Abs(), k.Abs();
      StoreKid(s, k, m.kids, repr, k.repr);
      assert k.Valid() && k.Abs() == v;
      Adopt(s, k, m.kids);
      assert k.Valid() && k.Abs() == v;
      CloseWith(m, s, k);
    }

    /** The mask by value when one below has changed. */
    lemma CloseWith(m: Mask, s: Slot, k: FieldMask)
      requires Own() <= repr && Keeps(kids) && Separate(kids, Own()) && Within(kids, repr)
      requires k.Valid() && Values(kids, m.kids[s := k.Abs()]) && Looks(m)
      ensures Valid() && Abs() == With(m, s, k.Abs())
    {
      hide Valid, Abs, FieldMask.Keeps, Separate, Within, Values;
      Close(With(m, s, k.Abs()));
    }

    /** Makes sure that there is a mask of some type at a place. */
    method SetKid(s: Slot, ft: FieldMaskType) returns (k: FieldMask)
      requires Valid() && (s.Fd? ==> s.id >= 0)
      modifies repr
      ensures Valid() && fresh(repr - old(repr))
      ensures s in kids && k == kids[s]
      ensures Abs() == With(old(Abs()), s, Make(old(Abs()), s, ft))
    {
      hide Valid, Abs, FieldMask.Keeps, FieldMask.Looks, Separate, Within, Values;
      Open();
      AtIsKid(s);
      KidsAre(s);
      ghost var m := Abs();
      var found := At(s);
      if found == null {
        k := SetNew(s, ft);
        return;
      }
      k := found;
      k.Open();
      if k.typ == Invalid {
        Retype(s, k, ft);
      } else {
        SameKid(s, k);
      }
    }

    method Retype(s: Slot, k: FieldMask, ft: FieldMaskType)
      requires Valid() && s in kids && k == kids[s]
      modifies repr
      ensures Valid() && fresh(repr - old(repr))
      ensures kids == old(kids)
      ensures Abs() == With(old(Abs()), s, old(k.Abs()).(typ := ft, isAll := false, isBlack := old(Abs()).isBlack))
    {
      hide Valid, Abs, FieldMask.Keeps, FieldMask.Looks, Separate, Within, Values;
      Open();
      ghost var m := Abs();
      Rest(kids, Own(), repr, m.kids, s);
      k.Open();
      ghost var others := repr - k.repr;
      k.Assign(ft, isBlack);
      Refit(s, others, m);
    }

    lemma SameKid(s: Slot, k: FieldMask)
      requires Valid() && s in kids && k == kids[s]
      ensures k.Valid() && Abs() == With(Abs(), s, k.Abs()) && Abs().kids[s] == k.Abs()
    {
      assert Abs().kids[s := k.Abs()] == Abs().kids;
    }

    // ----- clearing -----

    /** Clears the mask and, but for the mask of all elements, everything below. */
    method Reset()
      requires Valid()
      modifies repr
      ensures Valid() && repr == old(repr)
      ensures Abs() == MaskTree.Reset(old(Abs()))
      decreases repr, 3
    {
      hide Valid, Abs, FieldMask.Keeps, ResetKids;
      Open();
      ghost var m := Abs();
      Untype();
      ResetFields();
      ResetInts();
      ResetStrs();
      ResetKinds(m.(typ := Invalid, isAll := false));
      assert ResetKids(m.(typ := Invalid, isAll := false), Concrete) == ResetKids(m, Concrete) by {
        SameKids(m, m.(typ := Invalid, isAll := false), Concrete);
      }
    }

    method Untype()
      requires Valid()
      modifies this
      ensures Valid() && repr == old(repr)
      ensures Abs() == old(Abs()).(typ := Invalid, isAll := false)
    {
      hide Valid, Abs, FieldMask.Keeps, Separate, Within, Values;
      Open();
      ghost var m := Abs();
      KidsApart(kids, m.kids, Own());
      typ, isAll := Invalid, false;
      Close(m.(typ := Invalid, isAll := false));
    }

    method ResetFields()
      requires Valid()
      modifies repr
      ensures Valid() && repr == old(repr)
      ensures Abs() == old(Abs()).(kids := ResetKids(old(Abs()), Fielded))
      decreases repr, 2
    {
      hide Valid, Abs, Separate, Within, Values;
      Open();
      var slots: set<Slot> := {};
      if fdMask != null {
        slots := (set id | id in fdMask.tail :: Fd(id))
                 + (set j | 0 <= j < fdMask.head.Length && fdMask.head[j] != null :: Fd(j));
      }
      forall s: Slot
        ensures s in slots <==> s in kids && Fielded(s)
      {
        assert At(s) == if s in kids then kids[s] else null;
      }
      ResetThese(slots, Fielded);
    }

    method ResetInts()
      requires Valid()
      modifies repr
      ensures Valid() && repr == old(repr)
      ensures Abs() == old(Abs()).(kids := ResetKids(old(Abs()), Indexed))
      decreases repr, 2
    {
      hide Valid, Abs, Separate, Within, Values;
      Open();
      var slots: set<Slot> := if intMask.None? then {} else set n | n in intMask.value :: Ints(n);
      forall s: Slot
        ensures s in slots <==> s in kids && Indexed(s)
      {
        assert At(s) == if s in kids then kids[s] else null;
      }
      ResetThese(slots, Indexed);
    }

    method ResetStrs()
      requires Valid()
      modifies repr
      ensures Valid() && repr == old(repr)
      ensures Abs() == old(Abs()).(kids := ResetKids(old(Abs()), Stringed))
      decreases repr, 2
    {
      hide Valid, Abs, Separate, Within, Values;
      Open();
      var slots: set<Slot> := if strMask.None? then {} else set k | k in strMask.value :: Strs(k);
      forall s: Slot
        ensures s in slots <==> s in kids && Stringed(s)
      {
        assert At(s) == if s in kids then kids[s] else null;
      }
      ResetThese(slots, Stringed);
    }

    /** Clears the masks at some places, one after another. */
    method ResetThese(slots: set<Slot>, ghost which: Slot -> bool)
      requires Valid() && forall s: Slot :: s in slots <==> s in kids && which(s)
      modifies repr
      ensures Valid() && repr == old(repr)
      ensures Abs() == old(Abs()).(kids := ResetKids(old(Abs()), which))
      decreases repr, 1
    {
      hide Valid, Abs, FieldMask.Keeps, Separate, Within, Values, ResetAt;
      Open();
      ghost var m := Abs();
      ghost var ks := kids;
      KidsOf(kids, m.kids);
      ResetAtNone(m);
      var todo := slots;
      assert slots - todo == {};
      while todo != {}
        invariant todo <= slots && Valid() && repr == old(repr) && kids == ks
        invariant Abs() == ResetAt(m, slots - todo)
        decreases todo
      {
        var s :| s in todo;
        ResetAtNext(m, slots - todo, s);
        ResetOne(s);
        assert slots - (todo - {s}) == (slots - todo) + {s};
        todo := todo - {s};
      }
      ResetAtAll(m, slots - todo, which);
    }

    method ResetOne(s: Slot)
      requires Valid() && s in kids
      modifies repr
      ensures Valid() && repr == old(repr) && kids == old(kids)
      ensures Abs() == With(old(Abs()), s, MaskTree.Reset(old(Abs().kids[s])))
      decreases repr, 0
    {
      hide Valid, Abs, FieldMask.Keeps, FieldMask.Looks, Separate, Within, Values;
      Open();
      KidsAre(s);
      ghost var m := Abs();
      var k := At(s);
      Rest(kids, Own(), repr, m.kids, s);
      ghost var others := repr - k.repr;
      k.Reset();
      Refit(s, others, m);
    }
  }

  lemma SameKids(m: Mask, m': Mask, which: Slot -> bool)
    requires m.kids == m'.kids
    ensures ResetKids(m, which) == ResetKids(m', which)
  {
  }

  lemma KidsOf(ks: map<Slot, FieldMask>, ms: map<Slot, Mask>)
    requires Values(ks, ms)
    ensures forall s :: s in ms <==> s in ks
  {
  }

  /** The masks below except one. */
  lemma Rest(ks: map<Slot, FieldMask>, own: set<object>, all: set<object>, ms: map<Slot, Mask>, s: Slot)
    requires Separate(ks, own) && Within(ks, all) && Values(ks, ms) && s in ks && own <= all
    ensures var others := all - ks[s].repr;
            own <= others && Separate(ks - {s}, own) && Within(ks - {s}, others) && Values(ks - {s}, ms - {s})
    ensures ks[s].Valid() && ks[s] in all && ks[s].repr <= all && ms[s] == ks[s].Abs() && ks[s] in ks[s].repr && own !! ks[s].repr
  {
    forall t | t in ks - {s}
      ensures ks[t] in all - ks[s].repr && ks[t].repr <= all - ks[s].repr
    {
      assert ks[t].repr !! ks[s].repr;
    }
  }

  lemma OwnApart(own: set<object>, more: set<object>, below: set<object>, all: set<object>)
    requires own <= all && below !! all && more !! below
    ensures own + more !! below
  {
  }

  lemma SeparateOwn(ks: map<Slot, FieldMask>, own: set<object>, own': set<object>, all: set<object>)
    requires Separate(ks, own) && Within(ks, all) && (own' - own) !! all
    ensures Separate(ks, own')
  {
    forall s | s in ks
      ensures own' !! ks[s].repr
    {
      assert own !! ks[s].repr && ks[s].repr <= all;
    }
  }

  lemma SeparateMore(ks: map<Slot, FieldMask>, own: set<object>, all: set<object>, s: Slot, k: FieldMask)
    requires Separate(ks, own) && Within(ks, all) && s !in ks
    requires own !! k.repr && k.repr !! all && k in k.repr
    ensures Separate(ks[s := k], own)
  {
    var ks' := ks[s := k];
    forall t | t in ks
      ensures ks'[t] == ks[t] && ks[t].repr !! k.repr
    {
    }
  }

  lemma Without(ks: map<Slot, FieldMask>, ms: map<Slot, Mask>, own: set<object>, all: set<object>, s: Slot)
    requires Separate(ks, own) && Within(ks, all) && Values(ks, ms)
    ensures Separate(ks - {s}, own) && Within(ks - {s}, all) && Values(ks - {s}, ms - {s})
  {
  }

  lemma WithinMore(ks: map<Slot, FieldMask>, all: set<object>, s: Slot, k: FieldMask, more: set<object>)
    requires Within(ks, all) && k in k.repr && k.repr + all <= more
    ensures Within(ks[s := k], more)
  {
  }

  lemma ValuesMore(ks: map<Slot, FieldMask>, ms: map<Slot, Mask>, s: Slot, k: FieldMask)
    requires Values(ks, ms) && k.Valid()
    ensures Values(ks[s := k], ms[s := k.Abs()])
  {
    hide FieldMask.Valid, FieldMask.Abs;
  }

  /** The masks are trees of their own. */
  ghost predicate Separate(ks: map<Slot, FieldMask>, own: set<object>)
    reads ks.Values`repr
  {
    && (forall s :: s in ks ==> ks[s] in ks[s].repr && own !! ks[s].repr)
    && forall s, t :: s in ks && t in ks && s != t ==> ks[s].repr !! ks[t].repr
  }

  ghost predicate Within(ks: map<Slot, FieldMask>, all: set<object>)
    reads ks.Values`repr
  {
    forall s :: s in ks ==> ks[s] in all && ks[s].repr <= all
  }

  /** The masks by value. */
  ghost predicate Values(ks: map<Slot, FieldMask>, ms: map<Slot, Mask>)
    reads ks.Values, set s, o | s in ks && o in ks[s].repr :: o
  {
    && (forall s :: s in ms <==> s in ks)
    && forall s :: s in ks ==> ks[s].Valid() && ms[s] == ks[s].Abs()
  }

  lemma KidsApart(ks: map<Slot, FieldMask>, ms: map<Slot, Mask>, own: set<object>)
    requires Separate(ks, own)
    ensures own !! ks.Values
    ensures forall s :: s in ks ==> own !! ks[s].repr
  {
  }

  function With(m: Mask, s: Slot, k: Mask): Mask {
    m.(kids := m.kids[s := k])
  }

  ghost function AbsOf(m: FieldMask?): Option<Mask>
    reads m, if m == null then {} else m.repr
    requires m != null ==> m.Valid()
  {
    if m == null then None else Some(m.Abs())
  }

  /** What a black list or a white list says about a mask that may be there. */
  method Ret(self: FieldMask, fm: FieldMask?) returns (next: FieldMask?, ok: bool)
    requires fm != null ==> fm.Valid()
    ensures next == fm
    ensures ok == if self.isBlack then fm == null || MaskTree.HasChild(fm.Abs()) else fm != null
  {
    if fm != null {
      fm.HasChildIsAbs();
    }
    next := fm;
    ok := if self.isBlack then fm == null || fm.HasChild() else fm != null;
  }

  lemma AnswerIs(m: Option<Mask>, s: Slot)
    ensures m.None? || m.value.typ == Invalid ==> Answer(m, s) == (None, true)
    ensures m.Some? && m.value.typ != Invalid && m.value.isAll ==>
              Answer(m, s) == (Kid(m.value, Every), !m.value.isBlack || MaskTree.HasChild(m.value))
    ensures m.Some? && m.value.typ != Invalid && !m.value.isAll ==>
              var k := Kid(m.value, s);
              var fm := if k.Some? && Exist(k.value) then k else None;
              Answer(m, s) == (fm, if m.value.isBlack then fm.None? || MaskTree.HasChild(fm.value) else fm.Some?)
  {
  }

  /** Whether a field, an element or a key passes, and the mask below it.  Asking for a field
      panics when there is no field map, or with a negative id. */
  method Ask(self: FieldMask?, s: Slot) returns (next: FieldMask?, ok: bool, panics: bool)
    requires self != null ==> self.Valid()
    requires s != Every
    ensures panics <==> Panics(AbsOf(self), s)
    ensures next != null ==> next.Valid()
    ensures !panics ==> AbsOf(next) == Answer(AbsOf(self), s).0
    ensures !panics ==> ok == Answer(AbsOf(self), s).1
  {
    hide FieldMask.Valid, FieldMask.Abs, FieldMask.Keeps, FieldMask.HasChild, Separate, Within, Values, Answer, MaskTree.HasChild,
         HasFields;
    AnswerIs(AbsOf(self), s);
    if self == null {
      return null, true, false;
    }
    self.Open();
    if self.typ == Invalid {
      return null, true, false;
    }
    if self.isAll {
      self.HasChildIsAbs();
      self.AtIsKid(Every);
      return self.all, !self.isBlack || self.HasChild(), false;
    }
    FieldMapIs(self);
    if s.Fd? && (self.fdMask == null || s.id < 0) {
      return null, false, true;
    }
    self.AtIsKid(s);
    var fm := self.At(s);
    if fm != null {
      fm.Open();
      if !fm.Exist() {
        fm := null;
      }
    }
    next, ok := Ret(self, fm);
    panics := false;
  }

  /** There is a field map exactly when there are fields below. */
  lemma FieldMapIs(cur: FieldMask)
    requires cur.Valid()
    ensures cur.fdMask != null <==> HasFields(cur.Abs())
  {
    hide FieldMask.Valid, FieldMask.Abs, Separate, Within;
    cur.Open();
    if cur.fdMask != null {
      var id :| Fd(id) in cur.kids;
      assert Fd(id) in cur.Abs().kids;
    }
    if s :| s in cur.Abs().kids && s.Fd? {
      assert cur.At(s) == cur.kids[s];
    }
  }

  method AskField(self: FieldMask?, id: int) returns (next: FieldMask?, ok: bool, panics: bool)
    requires self != null ==> self.Valid()
    ensures panics <==> Panics(AbsOf(self), Fd(id))
    ensures next != null ==> next.Valid()
    ensures !panics ==> AbsOf(next) == Answer(AbsOf(self), Fd(id)).0
    ensures !panics ==> ok == Answer(AbsOf(self), Fd(id)).1
  {
    next, ok, panics := Ask(self, Fd(id));
  }

  /** Follows a walk as a value is followed: it stops where something does not pass. */
  method Walk(self: FieldMask?, q: seq<Slot>) returns (passes: bool, panics: bool)
    requires self != null ==> self.Valid()
    requires forall i :: 0 <= i < |q| ==> q[i] != Every
    ensures panics <==> !Safe(AbsOf(self), q)
    ensures !panics ==> (passes <==> Passes(AbsOf(self), q))
  {
    hide FieldMask.Valid, FieldMask.Abs, Answer, Panics;
    ghost var m := AbsOf(self);
    var cur := self;
    assert q[0..] == q;
    for i := 0 to |q|
      invariant cur != null ==> cur.Valid()
      invariant Safe(m, q) <==> Safe(AbsOf(cur), q[i..])
      invariant Passes(m, q) <==> Passes(AbsOf(cur), q[i..])
    {
      assert q[i..][0] == q[i] && q[i..][1..] == q[i + 1..];
      var next, ok;
      next, ok, panics := Ask(cur, q[i]);
      if panics {
        return false, true;
      }
      if !ok {
        return false, false;
      }
      cur := next;
    }
    return true, false;
  }
}
