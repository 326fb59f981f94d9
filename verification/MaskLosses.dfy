/** Masks whose answers change when they are written and read, and one that panics. */
module MaskLosses {
  import opened Wrappers
  import opened MaskPaths
  import opened MaskTree
  import opened MaskTransfer
  import opened MaskSent

  // ----- a key that is lost -----

  const StarPath: seq<Token> := [Root, MapL, Str("*"), MapR]
  const StarMap: Desc := MapOf(StringLike, OtherBasic)
  const Leaf: Mask := Mask(true, false, Scalar, map[])
  const StarMask: Mask := Mask(false, false, StrMap, map[Strs("*") := Leaf])
  const StarTree: Transfer := Transfer(StrKey("$"), StrMap, false, [Transfer(AnyPath, Scalar, false, [])])

  lemma StarIsMade()
    ensures NewFieldMask(map[], false, [StarPath], StarMap) == Some(StarMask)
  {
    var m := New(StrMap, false);
    var toks := StarPath[2..];
    assert StarPath[1..] == [MapL, Str("*"), MapR] && StarPath[1..][1..] == toks;
    assert ReadGroup(StrMap, MapR, toks, true, Group(false, false, [], [])) == Some(Group(false, false, [Strs("*")], [])) by {
      assert toks[1..] == [MapR] && [MapR][1..] == [] && [] + [Strs("*")] == [Strs("*")];
    }
    assert AddPath(map[], Make(m, Strs("*"), Scalar), [], OtherBasic) == Some(Leaf);
    assert m.kids[Strs("*") := Leaf] == StarMask.kids && [Strs("*")][1..] == [];
    assert AddEach(map[], m, [Strs("*")], [], OtherBasic) == Some(StarMask);
    assert AddPath(map[], m, StarPath[1..], StarMap) == AddKey(map[], m, toks, StarMap) == Some(StarMask);
    assert AddPath(map[], New(Invalid, false), StarPath, StarMap) == Some(StarMask);
    assert [StarPath][1..] == [];
    assert AddPaths(map[], StarMask, [], StarMap) == Some(StarMask);
  }

  lemma StarIsWritten()
    ensures Writes(StarTree, StarMask)
  {
    assert StarMask.kids[Strs("*")] == Leaf && Shown(StarMask, Strs("*"));
    assert Listed(AnyPath, StarMask);
    assert StarTree.children[0].path == KeyOfSlot(Strs("*"));
    assert Lists(StarTree.children, StarMask);
  }

  /** The key `*` of a string map comes back as a star: a white list of `${"*"}` rejects every
      other key, and what is read of it allows them all. */
  lemma StarKeyIsLost()
    ensures NewFieldMask(map[], false, [StarPath], StarMap) == Some(StarMask) && Writes(StarTree, StarMask)
    ensures Follow(Some(StarMask), [Strs("z")]) == Verdict(false)
    ensures From(New(Invalid, false), StarTree).Some?
    ensures Follow(From(New(Invalid, false), StarTree), [Strs("z")]) == Verdict(true)
  {
    hide Writes, From, Rebuilt, AddPaths, Follow;
    StarIsMade();
    StarIsWritten();
    assert StarMask.kids[Strs("*")] == Leaf && Small(Leaf) && Small(StarMask);
    Reads(StarTree, StarMask, New(Invalid, false));
    RebuiltStar(StarMask);
    NoneStep(StarMask, Strs("z"), []);
    assert [Strs("z")] + [] == [Strs("z")];
    RebuiltTyp(Leaf);
    EveryStep(Rebuilt(StarMask), Strs("z"), []);
    FollowNothing(Some(Rebuilt(Leaf)), []);
  }

  // ----- stars for all fields of a struct -----

  const Fields: seq<Token> := [Root, Dot, Any]
  const Call: Desc := StructOf("Call")
  const Calls: Env := map["Call" := [FieldDesc(1, "result", Unsupported)]]
  const Ended: Mask := Mask(true, true, Invalid, map[])
  const FieldsMask: Mask := Mask(true, true, Struct, map[Every := Ended])
  const FieldsTree: Transfer := Transfer(StrKey("$"), Struct, true, [])

  lemma FieldsAreMade()
    ensures NewFieldMask(Calls, true, [Fields], Call) == Some(FieldsMask)
  {
    var m := New(Struct, true);
    var m' := Starred(m, Fielded);
    assert m' == Mask(true, true, Struct, map[]);
    assert Make(m', Every, Invalid) == New(Invalid, true);
    assert AddPath(Calls, New(Invalid, true), [], Call) == Some(Ended);
    assert m'.kids[Every := Ended] == FieldsMask.kids;
    assert Fields[1..] == [Dot, Any] && Fields[1..][1..] == [Any] && [Any][1..] == [];
    assert AddField(Calls, m, [Any], Call) == Some(FieldsMask);
    assert AddPath(Calls, New(Invalid, true), Fields, Call) == AddPath(Calls, m, Fields[1..], Call) == Some(FieldsMask);
    assert [Fields][1..] == [] && AddPaths(Calls, FieldsMask, [], Call) == Some(FieldsMask);
  }

  /** A black list of `$.*`, when the type of the first field is a union, passes every field,
      and what is read of it rejects them all. */
  lemma AllFieldsAreLost()
    ensures NewFieldMask(Calls, true, [Fields], Call) == Some(FieldsMask) && Writes(FieldsTree, FieldsMask)
    ensures Follow(Some(FieldsMask), [Fd(1)]) == Verdict(true)
    ensures From(New(Invalid, false), FieldsTree).Some?
    ensures Follow(From(New(Invalid, false), FieldsTree), [Fd(1)]) == Verdict(false)
  {
    hide Follow, AddPaths;
    FieldsAreMade();
    assert !Live(FieldsMask, Every) && HasChild(FieldsMask);
    var sent := Mask(true, true, Struct, map[]);
    assert From(New(Invalid, false), FieldsTree) == Some(sent);
    assert [Fd(1)] + [] == [Fd(1)];
    EveryStep(FieldsMask, Fd(1), []);
    EveryStep(sent, Fd(1), []);
  }

  const Mixed: Env :=
    map["Outer" := [FieldDesc(1, "inner", StructOf("Inner")), FieldDesc(2, "items", ListOf(IntLike))],
        "Inner" := [FieldDesc(2, "leaf", StructOf("Leaf"))],
        "Leaf" := []]
  const Outer: Desc := StructOf("Outer")
  const Items: seq<Token> := [Root, Dot, Any, Dot, LitStr("items"), IndexL, LitInt(0), IndexR]
  const Item: Mask := Mask(true, false, Scalar, map[])
  const ItemsMask: Mask := Mask(false, false, List, map[Ints(0) := Item])
  const StaleMask: Mask := Mask(false, false, Struct, map[Fd(2) := ItemsMask])
  const MixedMask: Mask := Mask(true, false, Struct, map[Every := StaleMask])

  const Index: seq<Token> := [IndexL, LitInt(0), IndexR]

  lemma IndexIsMade()
    ensures AddPath(Mixed, New(List, false), Index, ListOf(IntLike)) == Some(ItemsMask)
  {
    var m := New(List, false);
    assert Index[1..] == [LitInt(0), IndexR] && [LitInt(0), IndexR][1..] == [IndexR] && [IndexR][1..] == [];
    assert ReadGroup(List, IndexR, [LitInt(0), IndexR], true, Group(false, false, [], [])) == Some(Group(false, false, [Ints(0)], [])) by {
      assert [] + [Ints(0)] == [Ints(0)];
    }
    assert AddPath(Mixed, Make(m, Ints(0), Scalar), [], IntLike) == Some(Item);
    assert m.kids[Ints(0) := Item] == ItemsMask.kids && [Ints(0)][1..] == [];
    assert AddEach(Mixed, m, [Ints(0)], [], IntLike) == Some(ItemsMask);
    assert AddIndex(Mixed, m, Index[1..], ListOf(IntLike)) == Some(ItemsMask);
  }

  lemma ItemsAreMade()
    ensures AddPath(Mixed, New(Struct, false), Items[3..], Outer) == Some(StaleMask)
  {
    var toks := [LitStr("items")] + Index;
    assert Items[3..] == [Dot] + toks && Items[3..][1..] == toks && toks[1..] == Index;
    assert FieldOf(Mixed["Outer"], LitStr("items")) == Some(FieldDesc(2, "items", ListOf(IntLike)));
    IndexIsMade();
    hide AddPath;
    assert New(Struct, false).kids[Fd(2) := ItemsMask] == StaleMask.kids;
    assert AddField(Mixed, New(Struct, false), toks, Outer) == Some(StaleMask);
    DotIs(Mixed, New(Struct, false), toks, Outer);
  }

  lemma DotIs(env: Env, m: Mask, toks: seq<Token>, d: Desc)
    ensures AddPath(env, m, [Dot] + toks, d) == AddField(env, m, toks, d)
  {
    assert ([Dot] + toks)[1..] == toks;
  }

  lemma MixedIsMade()
    ensures NewFieldMask(Mixed, false, [Items], Outer) == Some(MixedMask)
  {
    ItemsAreMade();
    var m := New(Struct, false);
    var m' := Starred(m, Fielded);
    assert m' == Mask(true, false, Struct, map[]);
    assert Items[1..][1..][1..] == Items[3..] && Items[1..][0] == Dot && Items[1..][1..][0] == Any;
    assert m'.kids[Every := StaleMask] == MixedMask.kids;
    assert AddField(Mixed, m, Items[1..][1..], Outer) == Some(MixedMask);
    assert AddPath(Mixed, New(Invalid, false), Items, Outer) == AddPath(Mixed, m, Items[1..], Outer) == Some(MixedMask);
    hide AddPath;
    assert [Items][1..] == [] && AddPaths(Mixed, MixedMask, [], Outer) == Some(MixedMask);
  }

  const Stray: seq<Slot> := [Fd(1), Fd(2), Fd(1)]

  lemma StrayFits()
    ensures WalkOf(Mixed, Outer, Stray)
  {
    assert Stray[1..] == [Fd(2), Fd(1)] && [Fd(2), Fd(1)][1..] == [Fd(1)] && [Fd(1)][1..] == [];
    assert WalkOf(Mixed, StructOf("Leaf"), [Fd(1)]);
    assert WalkOf(Mixed, StructOf("Inner"), [Fd(2), Fd(1)]);
  }

  /** A white list of `$.*.items[0]`: behind the star `items` is read against the outer struct,
      and asking the mask below for a field of what the inner one has there panics. */
  lemma StaleWalkPanics()
    ensures NewFieldMask(Mixed, false, [Items], Outer) == Some(MixedMask)
    ensures WalkOf(Mixed, Outer, Stray) && Follow(Some(MixedMask), Stray) == Crash
  {
    MixedIsMade();
    StrayFits();
    hide Follow, AddPaths, WalkOf;
    assert Stray == [Fd(1)] + [Fd(2), Fd(1)] && [Fd(2), Fd(1)] == [Fd(2)] + [Fd(1)] && [Fd(1)] == [Fd(1)] + [];
    assert MixedMask.kids[Every] == StaleMask && StaleMask.kids[Fd(2)] == ItemsMask;
    EveryStep(MixedMask, Fd(1), [Fd(2), Fd(1)]);
    KidStep(StaleMask, Fd(2), [Fd(1)]);
    FollowStep(ItemsMask, Fd(1), []);
  }
}
