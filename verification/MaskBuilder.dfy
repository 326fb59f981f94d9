/** Adding paths to a field mask in place: addPath of fieldmask/mask.go. */
module MaskBuilder {
  import opened Wrappers
  import opened MaskPaths
  import opened MaskTree
  import opened FieldMasks

  /** No field has a negative id. */
  predicate Numbered(env: Env) {
    forall name, i :: name in env && 0 <= i < |env[name]| ==> env[name][i].id >= 0
  }

  method SetIsAll(cur: FieldMask)
    requires cur.Valid()
    modifies cur
    ensures cur.Valid() && cur.repr == old(cur.repr) && cur.kids == old(cur.kids)
    ensures cur.Abs() == old(cur.Abs()).(isAll := true)
  {
    hide FieldMask.Valid, FieldMask.Abs, FieldMask.Keeps, Separate, Within, Values;
    cur.Open();
    ghost var m := cur.Abs();
    KidsApart(cur.kids, m.kids, cur.Own());
    cur.isAll := true;
    cur.Close(m.(isAll := true));
  }

  method SetTyp(cur: FieldMask, typ: FieldMaskType)
    requires cur.Valid()
    modifies cur
    ensures cur.Valid() && cur.repr == old(cur.repr) && cur.kids == old(cur.kids)
    ensures cur.Abs() == old(cur.Abs()).(typ := typ)
  {
    hide FieldMask.Valid, FieldMask.Abs, FieldMask.Keeps, Separate, Within, Values;
    cur.Open();
    ghost var m := cur.Abs();
    KidsApart(cur.kids, m.kids, cur.Own());
    cur.typ := typ;
    cur.Close(m.(typ := typ));
  }

  /** Whether the mask covers everything, as a star does. */
  method CoversAll(cur: FieldMask) returns (all: bool)
    requires cur.Valid()
    ensures all == All(cur.Abs())
  {
    cur.Open();
    match cur.typ {
      case Struct => all := cur.isAll;
      case List => all := cur.isAll;
      case IntMap => all := cur.isAll;
      case StrMap => all := cur.isAll;
      case _ => all := true;
    }
  }

  method Star(cur: FieldMask, close: Token)
    requires cur.Valid()
    modifies cur.repr
    ensures cur.Valid() && cur.repr == old(cur.repr)
    ensures cur.Abs() == Starred(old(cur.Abs()), Keyed(close))
  {
    hide FieldMask.Valid, FieldMask.Abs;
    ghost var m := cur.Abs();
    cur.Open();
    cur.ResetInts();
    if close.MapR? {
      cur.ResetStrs();
    }
    KeyedKinds(m, close);
    SetIsAll(cur);
  }

  lemma KeyedKinds(m: Mask, close: Token)
    ensures var a := m.(kids := ResetKids(m, Indexed));
            (if close.MapR? then a.(kids := ResetKids(a, Stringed)) else a) == m.(kids := ResetKids(m, Keyed(close)))
  {
    var a := m.(kids := ResetKids(m, Indexed));
    if close.MapR? {
      assert ResetKids(a, Stringed) == ResetKids(m, Keyed(close));
    } else {
      assert ResetKids(m, Indexed) == ResetKids(m, Keyed(close));
    }
  }

  /** Adds the rest of a path; it is accepted exactly when the mask by value accepts it. */
  method AddPath(env: Env, cur: FieldMask, toks: seq<Token>, d: Desc) returns (ok: bool)
    requires cur.Valid() && Numbered(env)
    modifies cur.repr
    ensures ok <==> MaskTree.AddPath(env, old(cur.Abs()), toks, d).Some?
    ensures fresh(cur.repr - old(cur.repr))
    ensures ok ==> cur.Valid() && Some(cur.Abs()) == MaskTree.AddPath(env, old(cur.Abs()), toks, d)
    decreases |toks|, 1
  {
    hide FieldMask.Valid, FieldMask.Abs, MaskTree.AddPath, MaskTree.AddField, MaskTree.AddIndex, MaskTree.AddKey, SwitchFt;
    cur.Open();
    AddPathIs(env, cur.Abs(), toks, d);
    if toks == [] {
      SetIsAll(cur);
      return true;
    }
    match toks[0] {
      case Root =>
        SetTyp(cur, SwitchFt(env, d));
        cur.Open();
        ok := AddPath(env, cur, toks[1..], d);
      case Dot => ok := AddField(env, cur, toks[1..], d);
      case IndexL => ok := AddIndex(env, cur, toks[1..], d);
      case MapL => ok := AddKey(env, cur, toks[1..], d);
      case _ => ok := false;
    }
  }

  lemma AddPathIs(env: Env, m: Mask, toks: seq<Token>, d: Desc)
    ensures MaskTree.AddPath(env, m, toks, d) ==
              if toks == [] then Some(m.(isAll := true))
              else if toks[0].Root? then MaskTree.AddPath(env, m.(typ := SwitchFt(env, d)), toks[1..], d)
              else if toks[0].Dot? then MaskTree.AddField(env, m, toks[1..], d)
              else if toks[0].IndexL? then MaskTree.AddIndex(env, m, toks[1..], d)
              else if toks[0].MapL? then MaskTree.AddKey(env, m, toks[1..], d)
              else None
  {
    hide MaskTree.AddField, MaskTree.AddIndex, MaskTree.AddKey;
  }

  /** Goes on below, at a place where there is a mask. */
  method Descend(env: Env, cur: FieldMask, s: Slot, k: FieldMask, toks: seq<Token>, d: Desc) returns (ok: bool)
    requires cur.Valid() && Numbered(env) && s in cur.kids && k == cur.kids[s]
    modifies cur.repr
    ensures ok <==> Put(old(cur.Abs()), s, MaskTree.AddPath(env, old(cur.Abs().kids[s]), toks, d)).Some?
    ensures fresh(cur.repr - old(cur.repr))
    ensures ok ==> cur.Valid()
                   && Some(cur.Abs()) == Put(old(cur.Abs()), s, MaskTree.AddPath(env, old(cur.Abs().kids[s]), toks, d))
    decreases |toks|, 2
  {
    hide FieldMask.Valid, FieldMask.Abs, FieldMask.Keeps, FieldMask.Looks, Separate, Within, Values, MaskTree.AddPath;
    cur.Open();
    ghost var m := cur.Abs();
    Rest(cur.kids, cur.Own(), cur.repr, m.kids, s);
    ghost var others := cur.repr - k.repr;
    ok := AddPath(env, k, toks, d);
    if ok {
      cur.Refit(s, others, m);
    }
  }

  /** Goes on below, at a place where a mask is made when there is none. */
  method AddBelow(env: Env, cur: FieldMask, s: Slot, ft: FieldMaskType, toks: seq<Token>, d: Desc) returns (ok: bool)
    requires cur.Valid() && Numbered(env) && (s.Fd? ==> s.id >= 0)
    modifies cur.repr
    ensures ok <==> Put(old(cur.Abs()), s, MaskTree.AddPath(env, Make(old(cur.Abs()), s, ft), toks, d)).Some?
    ensures fresh(cur.repr - old(cur.repr))
    ensures ok ==> cur.Valid()
                   && Some(cur.Abs()) == Put(old(cur.Abs()), s, MaskTree.AddPath(env, Make(old(cur.Abs()), s, ft), toks, d))
    decreases |toks|, 3
  {
    hide FieldMask.Valid, FieldMask.Abs, MaskTree.AddPath;
    ghost var m := cur.Abs();
    var k := cur.SetKid(s, ft);
    cur.SameKid(s, k);
    PutTwice(m, s, Make(m, s, ft), MaskTree.AddPath(env, Make(m, s, ft), toks, d));
    ok := Descend(env, cur, s, k, toks, d);
  }

  lemma PutTwice(m: Mask, s: Slot, k: Mask, r: Option<Mask>)
    ensures Put(With(m, s, k), s, r) == Put(m, s, r) && With(m, s, k).kids[s] == k
  {
    if r.Some? {
      assert m.kids[s := k][s := r.value] == m.kids[s := r.value];
    }
  }

  method AddField(env: Env, cur: FieldMask, toks: seq<Token>, d: Desc) returns (ok: bool)
    requires cur.Valid() && Numbered(env)
    modifies cur.repr
    ensures ok <==> MaskTree.AddField(env, old(cur.Abs()), toks, d).Some?
    ensures fresh(cur.repr - old(cur.repr))
    ensures ok ==> cur.Valid() && Some(cur.Abs()) == MaskTree.AddField(env, old(cur.Abs()), toks, d)
    decreases |toks|, 0
  {
    hide FieldMask.Valid, FieldMask.Abs, MaskTree.AddPath, Put, Make, SwitchFt, Starred;
    cur.Open();
    ghost var m := cur.Abs();
    var t := Unwrap(d);
    if !t.StructOf? || t.name !in env || cur.typ != Struct || |toks| == 0 {
      return false;
    }
    var all := CoversAll(cur);
    if all {
      return false;
    }
    var fs := env[t.name];
    if toks[0].Any? {
      StarField(cur);
      if |fs| == 0 {
        return false;
      }
      ok := AddBelow(env, cur, Every, SwitchFt(env, fs[0].ty), toks[1..], d);
    } else {
      var f := FieldOf(fs, toks[0]);
      if f.None? {
        return false;
      }
      ok := AddBelow(env, cur, Fd(f.value.id), SwitchFt(env, f.value.ty), toks[1..], f.value.ty);
    }
  }

  method StarField(cur: FieldMask)
    requires cur.Valid()
    modifies cur.repr
    ensures cur.Valid() && cur.repr == old(cur.repr)
    ensures cur.Abs() == Starred(old(cur.Abs()), Fielded)
  {
    hide FieldMask.Valid, FieldMask.Abs;
    cur.Open();
    cur.ResetFields();
    cur.Open();
    SetIsAll(cur);
  }

  /** A second star changes nothing. */
  method StarAgain(cur: FieldMask, close: Token, ghost m: Mask, ghost star: bool)
    requires cur.Valid() && cur.Abs() == if star then Starred(m, Keyed(close)) else m
    modifies cur.repr
    ensures cur.Valid() && cur.repr == old(cur.repr)
    ensures cur.Abs() == Starred(m, Keyed(close))
  {
    hide FieldMask.Valid, FieldMask.Abs, Starred, Keyed;
    StarredTwice(m, Keyed(close));
    Star(cur, close);
  }

  /** Reads a pair of brackets.  A star in it takes effect at once. */
  method ReadBracket(cur: FieldMask, close: Token, toks: seq<Token>)
    returns (ok: bool, all: bool, keys: seq<Slot>, rest: seq<Token>)
    requires cur.Valid()
    modifies cur.repr
    ensures var g := ReadGroup(old(cur.Abs()).typ, close, toks, true, Group(All(old(cur.Abs())), false, [], []));
            && cur.Valid() && cur.repr == old(cur.repr)
            && (ok <==> g.Some?)
            && (ok ==>
                  && g.value.all == all && g.value.keys == keys && g.value.rest == rest
                  && cur.Abs() == if g.value.star then Starred(old(cur.Abs()), Keyed(close)) else old(cur.Abs()))
  {
    hide FieldMask.Valid, FieldMask.Abs, Starred, All, ReadGroup, KeyOf, Keyed;
    cur.Open();
    ghost var m := cur.Abs();
    var kind := cur.typ;
    all := CoversAll(cur);
    keys, rest := [], [];
    ghost var g0, star := Group(all, false, [], []), false;
    var empty := true;
    var i := 0;
    assert toks[0..] == toks;
    while i < |toks|
      invariant 0 <= i <= |toks| && rest == []
      invariant cur.Valid() && cur.repr == old(cur.repr)
      invariant cur.Abs() == if star then Starred(m, Keyed(close)) else m
      invariant ReadGroup(kind, close, toks, true, g0) == ReadGroup(kind, close, toks[i..], empty, Group(all, star, keys, []))
    {
      var tok := toks[i];
      GroupNext(kind, close, toks, i, empty, Group(all, star, keys, []));
      i := i + 1;
      if tok == close {
        return !empty, all, keys, toks[i..];
      }
      empty := false;
      if tok.Any? {
        StarAgain(cur, close, m, star);
        all, star := true, true;
      } else if !tok.Elem? {
        if all || KeyOf(kind, tok).None? {
          return false, all, keys, [];
        }
        keys := keys + [KeyOf(kind, tok).value];
      }
    }
    GroupEnd(kind, close, toks, empty, Group(all, star, keys, []));
    ok := true;
  }

  lemma {:induction false} KeysAreNoFields(kind: FieldMaskType, close: Token, toks: seq<Token>, empty: bool, g: Group)
    requires forall i :: 0 <= i < |g.keys| ==> !g.keys[i].Fd?
    requires ReadGroup(kind, close, toks, empty, g).Some?
    ensures var r := ReadGroup(kind, close, toks, empty, g).value; forall i :: 0 <= i < |r.keys| ==> !r.keys[i].Fd?
    decreases |toks|
  {
    if toks != [] && toks[0] != close {
      var g' := if toks[0].Elem? then g
                else if toks[0].Any? then g.(all := true, star := true)
                else g.(keys := g.keys + [KeyOf(kind, toks[0]).value]);
      KeysAreNoFields(kind, close, toks[1..], false, g');
    }
  }

  lemma GroupNext(kind: FieldMaskType, close: Token, toks: seq<Token>, i: nat, empty: bool, g: Group)
    requires i < |toks|
    ensures ReadGroup(kind, close, toks[i..], empty, g) ==
              if toks[i] == close then if empty then None else Some(g.(rest := toks[i + 1..]))
              else if toks[i].Elem? then ReadGroup(kind, close, toks[i + 1..], false, g)
              else if toks[i].Any? then ReadGroup(kind, close, toks[i + 1..], false, g.(all := true, star := true))
              else if g.all || KeyOf(kind, toks[i]).None? then None
              else ReadGroup(kind, close, toks[i + 1..], false, g.(keys := g.keys + [KeyOf(kind, toks[i]).value]))
  {
    assert toks[i..][1..] == toks[i + 1..];
  }

  lemma GroupEnd(kind: FieldMaskType, close: Token, toks: seq<Token>, empty: bool, g: Group)
    ensures ReadGroup(kind, close, toks[|toks|..], empty, g) == Some(g.(rest := []))
  {
  }

  method AddIndex(env: Env, cur: FieldMask, toks: seq<Token>, d: Desc) returns (ok: bool)
    requires cur.Valid() && Numbered(env)
    modifies cur.repr
    ensures ok <==> MaskTree.AddIndex(env, old(cur.Abs()), toks, d).Some?
    ensures fresh(cur.repr - old(cur.repr))
    ensures ok ==> cur.Valid() && Some(cur.Abs()) == MaskTree.AddIndex(env, old(cur.Abs()), toks, d)
    decreases |toks|, 6
  {
    hide FieldMask.Valid, FieldMask.Abs, MaskTree.AddGroup, SwitchFt, ReadGroup, All;
    cur.Open();
    var t := Unwrap(d);
    if !t.ListOf? || cur.typ != List || SwitchFt(env, t.elem) == Invalid {
      return false;
    }
    ok := AddGroup(env, cur, IndexR, toks, t.elem);
  }

  method AddKey(env: Env, cur: FieldMask, toks: seq<Token>, d: Desc) returns (ok: bool)
    requires cur.Valid() && Numbered(env)
    modifies cur.repr
    ensures ok <==> MaskTree.AddKey(env, old(cur.Abs()), toks, d).Some?
    ensures fresh(cur.repr - old(cur.repr))
    ensures ok ==> cur.Valid() && Some(cur.Abs()) == MaskTree.AddKey(env, old(cur.Abs()), toks, d)
    decreases |toks|, 6
  {
    hide FieldMask.Valid, FieldMask.Abs, MaskTree.AddGroup, SwitchFt, ReadGroup, All;
    cur.Open();
    var t := Unwrap(d);
    if !t.MapOf? || (cur.typ != IntMap && cur.typ != StrMap && cur.typ != Scalar) || SwitchFt(env, t.elem) == Invalid {
      return false;
    }
    ok := AddGroup(env, cur, MapR, toks, t.elem);
  }

  /** Reads a pair of brackets and goes on below everything, or below each of the keys. */
  method AddGroup(env: Env, cur: FieldMask, close: Token, toks: seq<Token>, elem: Desc) returns (ok: bool)
    requires cur.Valid() && Numbered(env)
    modifies cur.repr
    ensures var m := old(cur.Abs());
            var r := MaskTree.AddGroup(env, m, close, ReadGroup(m.typ, close, toks, true, Group(All(m), false, [], [])), |toks|, elem);
            && (ok <==> r.Some?)
            && (ok ==> cur.Valid() && Some(cur.Abs()) == r)
    ensures fresh(cur.repr - old(cur.repr))
    decreases |toks|, 5
  {
    hide FieldMask.Valid, FieldMask.Abs, MaskTree.AddPath, MaskTree.AddEach, Put, Make, SwitchFt, ReadGroup, Starred, All;
    var all, keys, rest;
    ok, all, keys, rest := ReadBracket(cur, close, toks);
    if !ok {
      return;
    }
    if all {
      ok := AddBelow(env, cur, Every, SwitchFt(env, elem), rest, elem);
      return;
    }
    KeysAreNoFields(old(cur.Abs()).typ, close, toks, true, Group(All(old(cur.Abs())), false, [], []));
    ok := AddEach(env, cur, keys, rest, elem);
  }

  /** Goes on below each of the keys. */
  method AddEach(env: Env, cur: FieldMask, keys: seq<Slot>, rest: seq<Token>, elem: Desc) returns (ok: bool)
    requires cur.Valid() && Numbered(env) && forall i :: 0 <= i < |keys| ==> !keys[i].Fd?
    modifies cur.repr
    ensures ok <==> MaskTree.AddEach(env, old(cur.Abs()), keys, rest, elem).Some?
    ensures fresh(cur.repr - old(cur.repr))
    ensures ok ==> cur.Valid() && Some(cur.Abs()) == MaskTree.AddEach(env, old(cur.Abs()), keys, rest, elem)
    decreases |rest|, 4
  {
    hide FieldMask.Valid, FieldMask.Abs, MaskTree.AddPath, Put, Make, SwitchFt;
    ghost var m := cur.Abs();
    assert keys[0..] == keys;
    for i := 0 to |keys|
      invariant cur.Valid() && fresh(cur.repr - old(cur.repr))
      invariant MaskTree.AddEach(env, m, keys, rest, elem) == MaskTree.AddEach(env, cur.Abs(), keys[i..], rest, elem)
    {
      assert keys[i..][1..] == keys[i + 1..];
      ok := AddBelow(env, cur, keys[i], SwitchFt(env, elem), rest, elem);
      if !ok {
        return;
      }
    }
    ok := true;
  }

  /** Adds a list of paths, one after another. */
  method Init(env: Env, cur: FieldMask, paths: seq<seq<Token>>, d: Desc) returns (ok: bool)
    requires cur.Valid() && Numbered(env)
    modifies cur.repr
    ensures ok <==> AddPaths(env, old(cur.Abs()), paths, d).Some?
    ensures fresh(cur.repr - old(cur.repr))
    ensures ok ==> cur.Valid() && Some(cur.Abs()) == AddPaths(env, old(cur.Abs()), paths, d)
  {
    hide FieldMask.Valid, FieldMask.Abs, MaskTree.AddPath;
    ghost var m := cur.Abs();
    assert paths[0..] == paths;
    for i := 0 to |paths|
      invariant cur.Valid() && fresh(cur.repr - old(cur.repr))
      invariant AddPaths(env, m, paths, d) == AddPaths(env, cur.Abs(), paths[i..], d)
    {
      assert paths[i..][1..] == paths[i + 1..];
      ok := AddPath(env, cur, paths[i], d);
      if !ok {
        return;
      }
    }
    ok := true;
  }

  /** A mask for a list of paths, which is there exactly when all paths are accepted. */
  method MakeFieldMask(env: Env, black: bool, paths: seq<seq<Token>>, d: Desc) returns (m: FieldMask?)
    requires Numbered(env)
    ensures m != null ==> m.Valid() && fresh(m.repr)
    ensures AbsOf(m) == NewFieldMask(env, black, paths, d)
  {
    hide FieldMask.Valid, FieldMask.Abs, AddPaths;
    var fm := new FieldMask(Invalid, black);
    var ok := Init(env, fm, paths, d);
    m := if ok then fm else null;
  }
}
