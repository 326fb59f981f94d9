/** What a field mask holds: the paths that were added to it, in their order, except where a star
    forgets what was named, and which paths it accepts.  A star for all fields of a struct ends
    its path. */
module MaskLaws {
  import opened Wrappers
  import opened MaskPaths
  import opened MaskTree
  import opened MaskTyped

  /** What is left of the paths at a place below. */
  function Rest(ps: seq<Path>, s: Slot): seq<Path> {
    if s == Every then BehindAll(ps) else Behind(ps, s)
  }

  /** A mask of type `d` keeps masks at the place, and they are made for the type `e`. */
  predicate Home(env: Env, d: Desc, s: Slot, e: Desc) {
    (s == Every || Fits(SwitchFt(env, d), s)) && ElemDesc(env, d, s) == Some(e)
  }

  /** The mask has the type of its place and holds exactly these paths: it covers everything when
      one of them ends or has a star here, and at every place below it holds what is left of
      them.  Behind a star nothing is known of the places that were named. */
  ghost predicate Holds(env: Env, m: Mask, d: Desc, ps: seq<Path>, black: bool)
    decreases m, 1
  {
    && m.isBlack == black && m.typ == SwitchFt(env, d)
    && (m.isAll <==> Whole(ps))
    && forall s: Slot :: Below(env, m, d, ps, black, s)
  }

  ghost predicate Below(env: Env, m: Mask, d: Desc, ps: seq<Path>, black: bool, s: Slot)
    decreases m, 0
  {
    && (s in m.kids <==> Rest(ps, s) != [])
    && (s in m.kids && Kept(ps, s) ==> ElemDesc(env, d, s).Some? && KidHolds(env, m.kids[s], s, d, ps, black))
  }

  ghost predicate KidHolds(env: Env, k: Mask, s: Slot, d: Desc, ps: seq<Path>, black: bool)
    requires ElemDesc(env, d, s).Some?
    decreases k, 2
  {
    Home(env, d, s, ElemDesc(env, d, s).value) && Holds(env, k, ElemDesc(env, d, s).value, Rest(ps, s), black)
  }

  /** No star has forgotten what was named at the place. */
  predicate Kept(ps: seq<Path>, s: Slot) {
    s == Every || !Stars(ps)
  }

  /** What is left of earlier paths behind the `i`-th place of a step, the earlier places of the
      step included. */
  function Before(ps: seq<Path>, places: seq<Slot>, i: nat, tail: Path): seq<Path>
    requires i < |places|
  {
    Behind(ps, places[i]) + Times(places[..i], places[i], tail)
  }

  /** A path is accepted behind others: it takes no impossible step, names nothing where
      everything is covered, and what comes behind a bracket that names nothing matters only
      where the bracket stands for everything. */
  ghost predicate Accepts(ps: seq<Path>, p: Path)
    decreases |p|
  {
    p == []
    || (match p[0]
        case Bad => false
        case To(places) =>
          !Whole(ps) && forall i :: 0 <= i < |places| ==> Accepts(Before(ps, places, i, p[1..]), p[1..])
        case Unnamed(always) => always || Whole(ps) ==> Accepts(BehindAll(ps), p[1..])
        case Star(first) => (first ==> !Whole(ps)) && Accepts(BehindAll(ps), p[1..]))
  }

  lemma RestAdd(ps: seq<Path>, p: Path, s: Slot)
    ensures s == Every && IntoAll(ps, p) ==> Rest(ps + [p], s) == Rest(ps, s) + [p[1..]]
    ensures s == Every && !IntoAll(ps, p) ==> Rest(ps + [p], s) == Rest(ps, s)
    ensures s != Every ==> Rest(ps + [p], s) == Rest(ps, s) + BehindOne(p, s)
  {
    assert (ps + [p])[..|ps|] == ps;
    if s == Every && !IntoAll(ps, p) {
      assert BehindAll(ps) + [] == BehindAll(ps);
    }
  }

  /** Whether everything is covered when one path comes. */
  lemma WholeAdd(ps: seq<Path>, p: Path)
    ensures Stars(ps + [p]) <==> Stars(ps) || (p != [] && p[0].Star?)
    ensures Whole(ps + [p]) <==> Whole(ps) || p == [] || p[0].Star?
  {
    if Stars(ps) {
      var r: Path :| r in ps && r != [] && r[0].Star?;
      assert r in ps + [p];
    }
    assert p in ps + [p];
  }

  // ----- steps of the proof -----

  /** Replacing the mask at one place of a mask that is `m` or, behind a star, what the star makes
      of it. */
  lemma PutHolds(env: Env, m: Mask, m': Mask, d: Desc, ps: seq<Path>, ps': seq<Path>, black: bool, s: Slot, k: Mask)
    requires Holds(env, m, d, ps, black)
    requires m' == m.(isAll := m'.isAll, kids := m'.kids) && (m'.isAll <==> Whole(ps'))
    requires m'.kids.Keys == m.kids.Keys && (Stars(ps) ==> Stars(ps'))
    requires forall r :: r in m.kids && r != s && Kept(ps', r) ==> m'.kids[r] == m.kids[r]
    requires forall r: Slot :: r != s ==> Rest(ps', r) == Rest(ps, r)
    requires Rest(ps', s) != [] && ElemDesc(env, d, s).Some? && KidHolds(env, k, s, d, ps', black)
    ensures Holds(env, m'.(kids := m'.kids[s := k]), d, ps', black)
  {
    hide Stars, Whole, KidHolds, Rest;
    var r := m'.(kids := m'.kids[s := k]);
    forall u: Slot
      ensures Below(env, r, d, ps', black, u)
    {
      assert Below(env, m, d, ps, black, u);
      if u == s {
        assert r.kids[u] == k;
      } else if u in m.kids && Kept(ps', u) {
        assert r.kids[u] == m.kids[u];
        SameKid(env, m.kids[u], u, d, ps, ps', black);
      }
    }
  }

  lemma SameKid(env: Env, k: Mask, s: Slot, d: Desc, ps: seq<Path>, ps': seq<Path>, black: bool)
    requires Rest(ps, s) == Rest(ps', s) && ElemDesc(env, d, s).Some? && KidHolds(env, k, s, d, ps, black)
    ensures KidHolds(env, k, s, d, ps', black)
  {
    hide Rest, Holds;
  }

  lemma MakeHolds(env: Env, m: Mask, d: Desc, ps: seq<Path>, black: bool, s: Slot, e: Desc)
    requires Holds(env, m, d, ps, black) && ElemDesc(env, d, s) == Some(e) && SwitchFt(env, e) != Invalid && Kept(ps, s)
    ensures Holds(env, Make(m, s, SwitchFt(env, e)), e, Rest(ps, s), black)
  {
    KidIs(env, m, d, ps, black, s);
    CoversIs(env, m, d, ps, black);
    NewHolds(env, e, black);
    hide Holds;
  }

  /** What is known of the mask at a place. */
  lemma KidIs(env: Env, m: Mask, d: Desc, ps: seq<Path>, black: bool, s: Slot)
    requires Holds(env, m, d, ps, black)
    ensures s in m.kids <==> Rest(ps, s) != []
    ensures s in m.kids && Kept(ps, s) ==>
              var e := ElemDesc(env, d, s);
              e.Some? && Home(env, d, s, e.value) && Holds(env, m.kids[s], e.value, Rest(ps, s), black)
              && m.kids[s].typ == SwitchFt(env, e.value) && m.kids[s].isBlack == black
  {
    assert Below(env, m, d, ps, black, s);
    if s in m.kids && Kept(ps, s) {
      assert KidHolds(env, m.kids[s], s, d, ps, black);
    }
  }

  lemma NewHolds(env: Env, d: Desc, black: bool)
    ensures Holds(env, New(SwitchFt(env, d), black), d, [], black)
  {
    forall s: Slot
      ensures Below(env, New(SwitchFt(env, d), black), d, [], black, s)
    {
      assert Rest([], s) == [];
    }
  }

  /** A path that changes nothing below. */
  lemma IdleHolds(env: Env, m: Mask, m': Mask, d: Desc, ps: seq<Path>, p: Path, black: bool)
    requires Holds(env, m, d, ps, black) && m' == m.(isAll := m'.isAll) && (m'.isAll <==> m.isAll || p == [])
    requires p != [] ==> !p[0].Star?
    requires forall s: Slot :: Rest(ps + [p], s) == Rest(ps, s)
    ensures Holds(env, m', d, ps + [p], black)
  {
    WholeAdd(ps, p);
    hide Stars;
    forall s: Slot
      ensures Below(env, m', d, ps + [p], black, s)
    {
      assert Below(env, m, d, ps, black, s);
      if s in m.kids && Kept(ps, s) {
        assert KidHolds(env, m.kids[s], s, d, ps, black);
      }
    }
  }

  lemma IsIdle(ps: seq<Path>, p: Path)
    requires p == [] || p[0] == To([]) || (p[0].Unnamed? && !p[0].always && !Whole(ps))
    ensures forall s: Slot :: Rest(ps + [p], s) == Rest(ps, s)
  {
    forall s: Slot
      ensures Rest(ps + [p], s) == Rest(ps, s)
    {
      RestAdd(ps, p, s);
      assert s != Every ==> BehindOne(p, s) == [];
    }
  }

  lemma TimesMore(done: seq<Slot>, k: Slot, s: Slot, tail: Path)
    ensures Times(done + [k], s, tail) == Times(done, s, tail) + (if s == k then [tail] else [])
  {
    assert (done + [k])[..|done|] == done;
  }

  lemma ToRest(ps: seq<Path>, places: seq<Slot>, tail: Path, s: Slot)
    ensures s != Every ==> Rest(ps + [[To(places)] + tail], s) == Rest(ps, s) + Times(places, s, tail)
    ensures s == Every ==> Rest(ps + [[To(places)] + tail], s) == Rest(ps, s)
    ensures Stars(ps + [[To(places)] + tail]) <==> Stars(ps)
    ensures Whole(ps + [[To(places)] + tail]) <==> Whole(ps)
  {
    var p := [To(places)] + tail;
    RestAdd(ps, p, s);
    WholeAdd(ps, p);
    assert p[1..] == tail;
  }

  /** Behind one more of the places of a step, the mask takes the rest of the path. */
  lemma OnePlace(env: Env, m: Mask, d: Desc, ps: seq<Path>, black: bool, done: seq<Slot>, s: Slot, tail: Path, e: Desc, k: Mask)
    requires Holds(env, m, d, ps + [[To(done)] + tail], black) && s != Every && Home(env, d, s, e)
    requires Holds(env, k, e, Rest(ps + [[To(done)] + tail], s) + [tail], black)
    ensures Holds(env, m.(kids := m.kids[s := k]), d, ps + [[To(done + [s])] + tail], black)
  {
    hide Stars, Holds;
    var p, p' := [To(done)] + tail, [To(done + [s])] + tail;
    forall r: Slot
      ensures Rest(ps + [p'], r) == Rest(ps + [p], r) + (if r == s then [tail] else [])
    {
      ToRest(ps, done, tail, r);
      ToRest(ps, done + [s], tail, r);
      TimesMore(done, s, r, tail);
      Regroup(Rest(ps, r), Times(done, r, tail), if r == s then [tail] else []);
    }
    ToRest(ps, done, tail, s);
    ToRest(ps, done + [s], tail, s);
    CoversIs(env, m, d, ps + [p], black);
    assert KidHolds(env, k, s, d, ps + [p'], black);
    PutHolds(env, m, m, d, ps + [p], ps + [p'], black, s, k);
  }

  lemma CoversIs(env: Env, m: Mask, d: Desc, ps: seq<Path>, black: bool)
    requires Holds(env, m, d, ps, black)
    ensures m.typ == SwitchFt(env, d) && m.isBlack == black && (m.isAll <==> Whole(ps))
  {
  }

  lemma Regroup<T>(a: seq<T>, b: seq<T>, c: seq<T>)
    ensures (a + b) + c == a + (b + c)
    ensures a + [] == a
  {
  }

  // ----- reading a bracket -----

  /** Below a mask that covers everything a bracket reads the same, but it may not name anything. */
  lemma {:induction false} GroupReads(kind: FieldMaskType, close: Token, toks: seq<Token>, empty: bool, keys: seq<Slot>, star: bool)
    ensures var a := ReadGroup(kind, close, toks, empty, Group(star, star, keys, []));
            var b := ReadGroup(kind, close, toks, empty, Group(true, star, keys, []));
            && (a.Some? ==> a.value.all == a.value.star && |keys| <= |a.value.keys|)
            && (b.Some? <==> a.Some? && |a.value.keys| == |keys|)
            && (b.Some? ==> b.value == Group(true, a.value.star, keys, a.value.rest) && a.value.keys == keys)
    decreases |toks|
  {
    if toks != [] && toks[0] != close {
      if toks[0].Elem? {
        GroupReads(kind, close, toks[1..], false, keys, star);
      } else if toks[0].Any? {
        GroupReads(kind, close, toks[1..], false, keys, true);
      } else if !star && KeyOf(kind, toks[0]).Some? {
        GroupReads(kind, close, toks[1..], false, keys + [KeyOf(kind, toks[0]).value], false);
      }
    }
  }

  lemma SimpleSuffix(toks: seq<Token>, i: nat)
    requires Simple(toks) && i <= |toks|
    ensures Simple(toks[i..])
  {
  }

  lemma SteadyIsSimple(toks: seq<Token>)
    requires Steady(toks)
    ensures Simple(toks)
  {
  }

  // ----- adding a path -----

  /** What adding a path comes to. */
  ghost predicate Added(env: Env, m: Option<Mask>, d: Desc, ps: seq<Path>, p: Path, black: bool) {
    && (m.Some? <==> Accepts(ps, p))
    && (m.Some? ==> Holds(env, m.value, d, ps + [p], black))
  }

  /** A path is accepted exactly when it is accepted behind the paths that the mask holds, and
      then the mask holds it as well. */
  lemma {:induction false} AddHolds(env: Env, m: Mask, toks: seq<Token>, d: Desc, ps: seq<Path>, black: bool)
    requires GoodEnv(env) && Simple(toks) && Holds(env, m, d, ps, black)
    ensures Added(env, AddPath(env, m, toks, d), d, ps, Steps(env, toks, d), black)
    decreases |toks|, 0
  {
    hide Holds, AddField, AddIndex, AddKey, Bracket, Accepts;
    AcceptsIs(ps, Steps(env, toks, d));
    CoversIs(env, m, d, ps, black);
    if toks == [] {
      EndHolds(env, m, d, ps, black);
    } else {
      SimpleSuffix(toks, 1);
      match toks[0]
      case Root =>
        assert m.(typ := SwitchFt(env, d)) == m;
        AddHolds(env, m, toks[1..], d, ps, black);
      case Dot =>
        if |toks| >= 2 && toks[1].Any? {
          StarHolds(env, m, toks, d, ps, black);
        } else {
          FieldHolds(env, m, toks, d, ps, black);
        }
      case IndexL =>
        if Unwrap(d).ListOf? && SwitchFt(env, Unwrap(d).elem) != Invalid {
          BracketHolds(env, m, IndexR, toks[1..], d, Unwrap(d).elem, ps, black);
        }
        IndexIs(env, m, toks[1..], d);
      case MapL =>
        if Unwrap(d).MapOf? && SwitchFt(env, Unwrap(d).elem) != Invalid {
          BracketHolds(env, m, MapR, toks[1..], d, Unwrap(d).elem, ps, black);
        }
        IndexIs(env, m, toks[1..], d);
      case _ =>
    }
  }

  lemma EndHolds(env: Env, m: Mask, d: Desc, ps: seq<Path>, black: bool)
    requires Holds(env, m, d, ps, black)
    ensures Holds(env, m.(isAll := true), d, ps + [[]], black)
  {
    IsIdle(ps, []);
    IdleHolds(env, m, m.(isAll := true), d, ps, [], black);
  }

  lemma AcceptsIs(ps: seq<Path>, p: Path)
    ensures p == [] ==> Accepts(ps, p)
    ensures p != [] && p[0].Bad? ==> !Accepts(ps, p)
    ensures p != [] && p[0].To? ==>
              (Accepts(ps, p) <==>
               !Whole(ps) && forall i :: 0 <= i < |p[0].places| ==> Accepts(Before(ps, p[0].places, i, p[1..]), p[1..]))
    ensures p != [] && p[0].Unnamed? ==>
              (Accepts(ps, p) <==> (p[0].always || Whole(ps) ==> Accepts(BehindAll(ps), p[1..])))
    ensures p != [] && p[0].Star? ==>
              (Accepts(ps, p) <==> (p[0].first ==> !Whole(ps)) && Accepts(BehindAll(ps), p[1..]))
  {
  }

  // ----- fields -----

  lemma {:induction false} FieldHolds(env: Env, m: Mask, toks: seq<Token>, d: Desc, ps: seq<Path>, black: bool)
    requires GoodEnv(env) && Simple(toks) && Holds(env, m, d, ps, black)
    requires toks != [] && toks[0] == Dot && (|toks| >= 2 ==> !toks[1].Any?)
    ensures Added(env, AddField(env, m, toks[1..], d), d, ps, Steps(env, toks, d), black)
    decreases |toks| - 1, 3
  {
    hide Holds, Accepts, AddPath, Put, Make, Rest, Behind, Simple, KidDesc, ElemDesc, Whole, Stars;
    CoversIs(env, m, d, ps, black);
    var t := Unwrap(d);
    var p := Steps(env, toks, d);
    AcceptsIs(ps, p);
    if |toks| >= 2 && t.StructOf? && t.name in env && FieldOf(env[t.name], toks[1]).Some? {
      var f := FieldOf(env[t.name], toks[1]).value;
      FieldIsGood(env, t.name, f);
      FieldIsHome(env, d, f);
      SimpleSuffix(toks, 2);
      var s, tail := Fd(f.id), Steps(env, toks[2..], f.ty);
      var k := Make(m, s, SwitchFt(env, f.ty));
      assert toks[1..][1..] == toks[2..];
      assert p == [To([s])] + tail && p[1..] == tail;
      OneBefore(ps, s, tail);
      RestIs(ps, s);
      var r := AddPath(env, k, toks[2..], f.ty);
      PutIs(m, s, r);
      if !m.isAll {
        NotWhole(ps);
        if SwitchFt(env, f.ty) == Invalid {
          UnsupportedHolds(env, m, d, s, toks[2..], f.ty, ps, black);
        } else {
          MakeHolds(env, m, d, ps, black, s, f.ty);
          AddHolds(env, k, toks[2..], f.ty, Behind(ps, s), black);
        }
        if r.Some? {
          OneKeyHolds(env, m, d, ps, black, s, tail, f.ty, r.value);
        }
      }
    }
  }

  lemma NotWhole(ps: seq<Path>)
    ensures !Whole(ps) ==> !Stars(ps)
    ensures !Stars(ps) ==> forall s :: Kept(ps, s)
    ensures Kept(ps, Every)
  {
  }

  lemma OneBefore(ps: seq<Path>, s: Slot, tail: Path)
    ensures Before(ps, [s], 0, tail) == Behind(ps, s)
  {
    Regroup(Behind(ps, s), [], []);
  }

  /** At a place of a type that masks do not support only the end of a path is accepted. */
  lemma UnsupportedHolds(env: Env, m: Mask, d: Desc, s: Slot, toks: seq<Token>, e: Desc, ps: seq<Path>, black: bool)
    requires SwitchFt(env, e) == Invalid && Holds(env, m, d, ps, black) && ElemDesc(env, d, s) == Some(e) && Kept(ps, s)
    ensures Added(env, AddPath(env, Make(m, s, Invalid), toks, e), e, Rest(ps, s), Steps(env, toks, e), black)
  {
    var was := HeldBelow(env, m, d, ps, black, s, e);
    hide Holds, Accepts, AddPath, Steps;
    var k := Make(m, s, Invalid);
    EndOnly(env, k, toks, e);
    AcceptsIs(Rest(ps, s), Steps(env, toks, e));
    EndHolds(env, was, e, Rest(ps, s), black);
    assert k.(isAll := true) == was.(isAll := true);
  }

  lemma HeldBelow(env: Env, m: Mask, d: Desc, ps: seq<Path>, black: bool, s: Slot, e: Desc) returns (was: Mask)
    requires SwitchFt(env, e) == Invalid && Holds(env, m, d, ps, black) && ElemDesc(env, d, s) == Some(e) && Kept(ps, s)
    ensures was == (if s in m.kids then m.kids[s] else New(Invalid, black)) && was.typ == Invalid && was.isBlack == m.isBlack
    ensures Holds(env, was, e, Rest(ps, s), black)
  {
    was := if s in m.kids then m.kids[s] else New(Invalid, black);
    KidIs(env, m, d, ps, black, s);
    CoversIs(env, m, d, ps, black);
    NewHolds(env, e, black);
    hide Holds;
  }

  lemma {:induction false} EndOnly(env: Env, m: Mask, toks: seq<Token>, d: Desc)
    requires SwitchFt(env, d) == Invalid && m.typ == Invalid
    ensures Steps(env, toks, d) == [] ==> AddPath(env, m, toks, d) == Some(m.(isAll := true))
    ensures Steps(env, toks, d) != [] ==> Steps(env, toks, d)[0].Bad? && AddPath(env, m, toks, d).None?
    decreases |toks|
  {
    if toks != [] && toks[0] == Root {
      assert m.(typ := SwitchFt(env, d)) == m;
      EndOnly(env, m, toks[1..], d);
    }
  }

  lemma PutIs(m: Mask, s: Slot, k: Option<Mask>)
    ensures Put(m, s, k).Some? <==> k.Some?
  {
  }

  lemma RestIs(ps: seq<Path>, s: Slot)
    ensures Rest(ps, s) == if s == Every then BehindAll(ps) else Behind(ps, s)
  {
  }

  lemma FieldIsHome(env: Env, d: Desc, f: FieldDesc)
    requires Unwrap(d).StructOf? && Unwrap(d).name in env && GoodField(env, env[Unwrap(d).name], f)
    ensures Home(env, d, Fd(f.id), f.ty) && ElemDesc(env, d, Fd(f.id)) == Some(f.ty)
  {
  }

  lemma OneKeyHolds(env: Env, m: Mask, d: Desc, ps: seq<Path>, black: bool, s: Slot, tail: Path, e: Desc, k: Mask)
    requires Holds(env, m, d, ps, black) && s != Every && Home(env, d, s, e)
    requires Holds(env, k, e, Rest(ps, s) + [tail], black)
    ensures var r := Put(m, s, Some(k)); r.Some? && Holds(env, r.value, d, ps + [[To([s])] + tail], black)
  {
    hide Holds;
    var p := [To([])] + tail;
    IsIdle(ps, p);
    CoversIs(env, m, d, ps, black);
    IdleHolds(env, m, m, d, ps, p, black);
    OnePlace(env, m, d, ps, black, [], s, tail, e, k);
    assert [] + [s] == [s];
  }

  // ----- all fields -----

  /** A star for all fields of a struct. */
  lemma {:induction false} StarHolds(env: Env, m: Mask, toks: seq<Token>, d: Desc, ps: seq<Path>, black: bool)
    requires GoodEnv(env) && Simple(toks) && Holds(env, m, d, ps, black)
    requires |toks| >= 2 && toks[0] == Dot && toks[1].Any?
    ensures Added(env, AddField(env, m, toks[1..], d), d, ps, Steps(env, toks, d), black)
    decreases |toks| - 1, 3
  {
    hide Holds, Accepts, Make, Starred, Rest, Whole, Stars;
    CoversIs(env, m, d, ps, black);
    var t := Unwrap(d);
    var p := Steps(env, toks, d);
    AcceptsIs(ps, p);
    assert |toks| == 2;
    assert toks[2..] == [] && toks[1..][1..] == [];
    assert Steps(env, [], d) == [];
    if t.StructOf? && t.name in env && env[t.name] != [] {
      var e := env[t.name][0].ty;
      assert Steps(env, [], e) == [];
      assert p == [Star(true)];
      assert p[1..] == [];
      AcceptsIs(BehindAll(ps), []);
      if !m.isAll {
        var m' := Starred(m, Fielded);
        StarredKeeps(m, Fielded);
        FirstStar(env, m, d, ps, black, e);
        var k := Make(m', Every, SwitchFt(env, e)).(isAll := true);
        assert AddField(env, m, toks[1..], d) == Some(m'.(kids := m'.kids[Every := k]));
        AllHolds(env, m, Fielded, d, ps, p, black, e, k);
      }
    } else {
      NoField(toks[1]);
    }
  }

  lemma NoField(tok: Token)
    requires tok.Any?
    ensures forall fs: seq<FieldDesc> :: FieldOf(fs, tok).None?
  {
  }

  /** The mask for all fields is new when the star comes. */
  lemma FirstStar(env: Env, m: Mask, d: Desc, ps: seq<Path>, black: bool, e: Desc)
    requires Holds(env, m, d, ps, black) && !m.isAll && ElemDesc(env, d, Every) == Some(e) && Unwrap(d).StructOf?
    ensures Holds(env, Make(Starred(m, Fielded), Every, SwitchFt(env, e)).(isAll := true), e, BehindAll(ps) + [[]], black)
  {
    var m' := Starred(m, Fielded);
    assert Below(env, m, d, ps, black, Every);
    if Every in m.kids {
      assert KidHolds(env, m.kids[Every], Every, d, ps, black);
      var was := m.kids[Every];
      assert m'.kids[Every] == was;
      EndHolds(env, was, e, BehindAll(ps), black);
      assert Make(m', Every, SwitchFt(env, e)).(isAll := true) == was.(isAll := true);
    } else {
      NewHolds(env, e, black);
      EndHolds(env, New(SwitchFt(env, e), black), e, [], black);
    }
  }

  /** A star forgets what was named and goes on in the mask for everything. */
  lemma AllHolds(env: Env, m: Mask, which: Slot -> bool, d: Desc, ps: seq<Path>, p: Path, black: bool, e: Desc, k: Mask)
    requires Holds(env, m, d, ps, black) && p != [] && p[0].Star? && !which(Every) && ElemDesc(env, d, Every) == Some(e)
    requires Holds(env, k, e, BehindAll(ps) + [p[1..]], black)
    ensures var m' := Starred(m, which); Holds(env, m'.(kids := m'.kids[Every := k]), d, ps + [p], black)
  {
    hide Holds, Stars, Whole;
    var m' := Starred(m, which);
    CoversIs(env, m, d, ps, black);
    WholeAdd(ps, p);
    forall r: Slot
      ensures r != Every ==> Rest(ps + [p], r) == Rest(ps, r)
      ensures r == Every ==> Rest(ps + [p], r) == BehindAll(ps) + [p[1..]]
    {
      RestAdd(ps, p, r);
      Regroup(Rest(ps, r), [], []);
    }
    assert m'.kids.Keys == m.kids.Keys;
    PutHolds(env, m, m', d, ps, ps + [p], black, Every, k);
  }

  // ----- brackets -----

  lemma {:induction false} BracketHolds(env: Env, m: Mask, close: Token, toks: seq<Token>, d: Desc, elem: Desc, ps: seq<Path>, black: bool)
    requires GoodEnv(env) && Simple(toks) && Holds(env, m, d, ps, black)
    requires KidDesc(env, d, Every) == Some(elem) && SwitchFt(env, elem) != Invalid
    ensures var g := ReadGroup(m.typ, close, toks, true, Group(All(m), false, [], []));
            Added(env, AddGroup(env, m, close, g, |toks|, elem), d, ps, Bracket(env, m.typ, close, toks, elem), black)
    decreases |toks|, 4
  {
    hide Holds, Accepts, AddPath, AddEach, AddGroup, Simple, KidDesc, ElemDesc, ReadGroup, All, Whole, Stars, StepOf;
    CoversIs(env, m, d, ps, black);
    HasElements(env, d);
    AllIs(m);
    var a := ReadGroup(m.typ, close, toks, true, Group(false, false, [], []));
    GroupReads(m.typ, close, toks, true, [], false);
    var p := Bracket(env, m.typ, close, toks, elem);
    AcceptsIs(ps, p);
    NoGroup(env, m, close, |toks|);
    if a.Some? {
      GroupRest(m.typ, close, toks, true, Group(false, false, [], []));
      SimpleRest(toks, a.value.rest);
      KeysAreHomes(env, d, m.typ, a.value.keys, elem);
      assert p == [StepOf(m.typ, a.value)] + Steps(env, a.value.rest, elem);
      if All(m) && a.value.keys != [] {
        RefusesNames(m.typ, a.value, ps, p);
      } else {
        GroupHolds(env, m, close, a.value, |toks|, d, elem, ps, black);
      }
    }
  }

  /** Where everything is covered nothing can be named. */
  lemma RefusesNames(kind: FieldMaskType, g: Group, ps: seq<Path>, p: Path)
    requires g.keys != [] && Whole(ps) && p != [] && p[0] == StepOf(kind, g)
    ensures !Accepts(ps, p)
  {
  }

  lemma {:induction false} GroupHolds(env: Env, m: Mask, close: Token, g: Group, n: nat, d: Desc, elem: Desc, ps: seq<Path>, black: bool)
    requires GoodEnv(env) && Simple(g.rest) && Holds(env, m, d, ps, black) && |g.rest| <= n && g.all == g.star
    requires ElemDesc(env, d, Every) == Some(elem) && SwitchFt(env, elem) != Invalid
    requires forall i :: 0 <= i < |g.keys| ==> Home(env, d, g.keys[i], elem) && g.keys[i] != Every
    requires (All(m) ==> g.keys == []) && SwitchFt(env, d) != Invalid
    ensures Added(env, AddGroup(env, m, close, Some(if All(m) then g.(all := true) else g), n, elem), d, ps,
                  [StepOf(m.typ, g)] + Steps(env, g.rest, elem), black)
    decreases |g.rest|, 3
  {
    hide Holds, Accepts, AddPath, AddEach, Put, Make, Rest, BehindAll, Simple, ElemDesc, All, Whole, Stars, Starred, Home;
    CoversIs(env, m, d, ps, black);
    AllIs(m);
    var p := [StepOf(m.typ, g)] + Steps(env, g.rest, elem);
    assert p[1..] == Steps(env, g.rest, elem);
    AcceptsIs(ps, p);
    if g.star {
      EveryHolds(env, m, close, true, g.rest, d, elem, ps, p, black);
    } else if g.keys == [] {
      if All(m) {
        EveryHolds(env, m, close, false, g.rest, d, elem, ps, p, black);
      } else {
        IsIdle(ps, p);
        IdleHolds(env, m, m, d, ps, p, black);
        NoEach(env, m, g.rest, elem);
      }
    } else {
      NamedHolds(env, m, g.keys, g.rest, d, elem, ps, black);
    }
  }

  lemma SimpleRest(toks: seq<Token>, rest: seq<Token>)
    requires Simple(toks) && Suffix(rest, toks)
    ensures Simple(rest)
  {
    SimpleSuffix(toks, |toks| - |rest|);
  }

  lemma KeysAreHomes(env: Env, d: Desc, kind: FieldMaskType, keys: seq<Slot>, elem: Desc)
    requires kind == SwitchFt(env, d) && KidDesc(env, d, Every) == Some(elem)
    requires forall i :: 0 <= i < |keys| ==> Fits(kind, keys[i])
    ensures forall i :: 0 <= i < |keys| ==> Home(env, d, keys[i], elem) && keys[i] != Every
    ensures kind == Scalar ==> keys == []
    ensures Home(env, d, Every, elem) && ElemDesc(env, d, Every) == Some(elem)
  {
    assert keys != [] ==> Fits(kind, keys[0]);
  }

  lemma IndexIs(env: Env, m: Mask, toks: seq<Token>, d: Desc)
    requires m.typ == SwitchFt(env, d)
    ensures var t := Unwrap(d);
            AddIndex(env, m, toks, d) ==
              if !t.ListOf? || SwitchFt(env, t.elem) == Invalid then None
              else AddGroup(env, m, IndexR, ReadGroup(m.typ, IndexR, toks, true, Group(All(m), false, [], [])), |toks|, t.elem)
    ensures var t := Unwrap(d);
            AddKey(env, m, toks, d) ==
              if !t.MapOf? || SwitchFt(env, t.elem) == Invalid then None
              else AddGroup(env, m, MapR, ReadGroup(m.typ, MapR, toks, true, Group(All(m), false, [], [])), |toks|, t.elem)
    ensures forall elem, close :: SwitchFt(env, elem) == Invalid ==> Bracket(env, m.typ, close, toks, elem) == [Bad]
  {
    hide AddGroup, ReadGroup;
  }

  lemma HasElements(env: Env, d: Desc)
    ensures KidDesc(env, d, Every).Some? ==> SwitchFt(env, d) != Invalid && !Unwrap(d).StructOf?
  {
  }

  lemma AllIs(m: Mask)
    ensures m.isAll ==> All(m)
    ensures All(m) && m.typ != Invalid ==> m.isAll || m.typ == Scalar
    ensures m.typ == Scalar ==> All(m)
  {
  }

  lemma NoEach(env: Env, m: Mask, rest: seq<Token>, elem: Desc)
    ensures AddEach(env, m, [], rest, elem) == Some(m)
  {
  }

  /** A star, and a bracket that names nothing where everything is covered, go on in the mask of
      all elements. */
  lemma {:induction false} EveryHolds(env: Env, m: Mask, close: Token, star: bool, rest: seq<Token>, d: Desc, elem: Desc,
                                      ps: seq<Path>, p: Path, black: bool)
    requires GoodEnv(env) && Simple(rest) && Holds(env, m, d, ps, black)
    requires ElemDesc(env, d, Every) == Some(elem) && SwitchFt(env, elem) != Invalid
    requires p != [] && p[1..] == Steps(env, rest, elem)
    requires if star then p[0].Star? else (m.isAll || m.typ == Scalar) && p[0] == Unnamed(m.typ == Scalar)
    ensures var m' := if star then Starred(m, Keyed(close)) else m;
            var r := Put(m', Every, AddPath(env, Make(m', Every, SwitchFt(env, elem)), rest, elem));
            && (r.Some? <==> Accepts(BehindAll(ps), p[1..]))
            && (r.Some? ==> Holds(env, r.value, d, ps + [p], black))
    decreases |rest|, 1
  {
    hide Holds, Accepts, AddPath, Make, Steps, Starred, Keyed, Whole, Stars;
    CoversIs(env, m, d, ps, black);
    var m' := if star then Starred(m, Keyed(close)) else m;
    KeyedIsConcrete(close);
    StarMakes(m, Keyed(close), SwitchFt(env, elem));
    var k := Make(m', Every, SwitchFt(env, elem));
    NotWhole(ps);
    MakeHolds(env, m, d, ps, black, Every, elem);
    AddHolds(env, k, rest, elem, BehindAll(ps), black);
    var r := AddPath(env, k, rest, elem);
    if r.Some? {
      if star {
        AllHolds(env, m, Keyed(close), d, ps, p, black, elem, r.value);
      } else {
        UnnamedHolds(env, m, d, ps, p, black, elem, r.value);
      }
    }
  }

  lemma StarMakes(m: Mask, which: Slot -> bool, typ: FieldMaskType)
    requires !which(Every)
    ensures Make(Starred(m, which), Every, typ) == Make(m, Every, typ)
  {
  }

  lemma UnnamedHolds(env: Env, m: Mask, d: Desc, ps: seq<Path>, p: Path, black: bool, e: Desc, k: Mask)
    requires Holds(env, m, d, ps, black) && IntoAll(ps, p) && p[0].Unnamed? && ElemDesc(env, d, Every) == Some(e)
    requires Holds(env, k, e, BehindAll(ps) + [p[1..]], black)
    ensures Holds(env, m.(kids := m.kids[Every := k]), d, ps + [p], black)
  {
    hide Holds, Stars, Whole;
    CoversIs(env, m, d, ps, black);
    WholeAdd(ps, p);
    forall r: Slot
      ensures r != Every ==> Rest(ps + [p], r) == Rest(ps, r)
      ensures r == Every ==> Rest(ps + [p], r) == BehindAll(ps) + [p[1..]]
    {
      RestAdd(ps, p, r);
      Regroup(Rest(ps, r), [], []);
    }
    PutHolds(env, m, m, d, ps, ps + [p], black, Every, k);
  }

  /** A bracket that names places goes on behind each of them. */
  lemma {:induction false} NamedHolds(env: Env, m: Mask, keys: seq<Slot>, rest: seq<Token>, d: Desc, elem: Desc,
                                      ps: seq<Path>, black: bool)
    requires GoodEnv(env) && Simple(rest) && Holds(env, m, d, ps, black)
    requires SwitchFt(env, elem) != Invalid && !m.isAll
    requires forall i :: 0 <= i < |keys| ==> Home(env, d, keys[i], elem) && keys[i] != Every
    ensures Added(env, AddEach(env, m, keys, rest, elem), d, ps, [To(keys)] + Steps(env, rest, elem), black)
    decreases |rest|, 2
  {
    hide Holds, Accepts, AddEach, Steps, Whole, Stars;
    CoversIs(env, m, d, ps, black);
    var tail := Steps(env, rest, elem);
    var p, none := [To(keys)] + tail, [To([])] + tail;
    assert p[1..] == tail;
    AcceptsIs(ps, p);
    IsIdle(ps, none);
    IdleHolds(env, m, m, d, ps, none, black);
    EachHolds(env, m, keys, [], keys, rest, d, elem, ps, black);
    assert [] + keys == keys;
  }

  /** The keys of a bracket one after the other; those in `done` are there already. */
  lemma {:induction false} EachHolds(env: Env, m: Mask, keys: seq<Slot>, done: seq<Slot>, all: seq<Slot>, rest: seq<Token>,
                                     d: Desc, elem: Desc, ps: seq<Path>, black: bool)
    requires GoodEnv(env) && Simple(rest) && SwitchFt(env, elem) != Invalid && !Whole(ps) && all == done + keys
    requires Holds(env, m, d, ps + [[To(done)] + Steps(env, rest, elem)], black)
    requires forall i :: 0 <= i < |keys| ==> Home(env, d, keys[i], elem) && keys[i] != Every
    ensures var r, tail := AddEach(env, m, keys, rest, elem), Steps(env, rest, elem);
            && (r.Some? <==> forall i :: |done| <= i < |all| ==> Accepts(Before(ps, all, i, tail), tail))
            && (r.Some? ==> Holds(env, r.value, d, ps + [[To(all)] + tail], black))
    decreases |rest|, 1, |keys|
  {
    hide Holds, Accepts, AddPath, AddEach, Steps, Make, Behind, Rest, Times, Whole, Stars;
    EachIs(env, m, keys, rest, elem);
    var tail := Steps(env, rest, elem);
    if keys == [] {
      assert all == done;
    } else {
      var s := keys[0];
      assert all[|done|] == s && all[..|done|] == done;
      assert Before(ps, all, |done|, tail) == Behind(ps, s) + Times(done, s, tail);
      var k := Make(m, s, SwitchFt(env, elem));
      var r := AddPath(env, k, rest, elem);
      ToRest(ps, done, tail, s);
      RestIs(ps, s);
      NotWhole(ps);
      NotWhole(ps + [[To(done)] + tail]);
      assert Home(env, d, s, elem);
      MakeHolds(env, m, d, ps + [[To(done)] + tail], black, s, elem);
      AddHolds(env, k, rest, elem, Before(ps, all, |done|, tail), black);
      if r.Some? {
        OnePlace(env, m, d, ps, black, done, s, tail, elem, r.value);
        assert done + [s] + keys[1..] == all;
        EachHolds(env, m.(kids := m.kids[s := r.value]), keys[1..], done + [s], all, rest, d, elem, ps, black);
      }
    }
  }

  lemma EachIs(env: Env, m: Mask, keys: seq<Slot>, rest: seq<Token>, elem: Desc)
    ensures AddEach(env, m, keys, rest, elem) ==
              if keys == [] then Some(m)
              else
                var r := AddPath(env, Make(m, keys[0], SwitchFt(env, elem)), rest, elem);
                if r.None? then None else AddEach(env, m.(kids := m.kids[keys[0] := r.value]), keys[1..], rest, elem)
  {
    hide AddPath, Make;
  }

  // ----- a path behind copies of itself -----

  /** No star of the path has to be the first. */
  predicate Easy(p: Path) {
    forall i :: 0 <= i < |p| && p[i].Star? ==> !p[i].first
  }

  lemma BehindAdd(ps: seq<Path>, p: Path, s: Slot)
    ensures Behind(ps + [p], s) == Behind(ps, s) + BehindOne(p, s)
    ensures BehindAll(ps + [p]) == BehindAll(ps) + if IntoAll(ps, p) then [p[1..]] else []
  {
    assert (ps + [p])[..|ps|] == ps;
  }

  lemma OneIsTail(p: Path, s: Slot)
    requires p != []
    ensures forall f :: f in BehindOne(p, s) ==> f == p[1..]
  {
  }

  lemma {:induction false} CopiesBehind(ps: seq<Path>, es: seq<Path>, tail: Path, s: Slot) returns (fs: seq<Path>)
    requires tail != [] && forall e :: e in es ==> e == tail
    ensures Behind(ps + es, s) == Behind(ps, s) + fs && forall f :: f in fs ==> f == tail[1..]
    decreases |es|
  {
    hide Behind, BehindAll, BehindOne;
    if es == [] {
      Regroup(ps, es, []);
      fs := [];
    } else {
      var most, e := es[..|es| - 1], es[|es| - 1];
      assert e in es && forall x :: x in most ==> x in es;
      assert es == most + [e];
      Regroup(ps, most, [e]);
      var gs := CopiesBehind(ps, most, tail, s);
      BehindAdd(ps + most, e, s);
      fs := gs + BehindOne(e, s);
      Regroup(Behind(ps, s), gs, BehindOne(e, s));
      OneIsTail(e, s);
    }
  }

  lemma {:induction false} CopiesAll(ps: seq<Path>, es: seq<Path>, tail: Path) returns (fs: seq<Path>)
    requires tail != [] && forall e :: e in es ==> e == tail
    ensures BehindAll(ps + es) == BehindAll(ps) + fs && forall f :: f in fs ==> f == tail[1..]
    ensures !tail[0].Star? ==> (Whole(ps + es) <==> Whole(ps))
    decreases |es|
  {
    hide Behind, BehindAll, BehindOne, Whole;
    if es == [] {
      Regroup(ps, es, []);
      fs := [];
    } else {
      var most, e := es[..|es| - 1], es[|es| - 1];
      assert e in es && forall x :: x in most ==> x in es;
      assert es == most + [e];
      Regroup(ps, most, [e]);
      var gs := CopiesAll(ps, most, tail);
      BehindAdd(ps + most, e, Every);
      WholeAdd(ps + most, e);
      var last := if IntoAll(ps + most, e) then [e[1..]] else [];
      fs := gs + last;
      Regroup(BehindAll(ps), gs, last);
    }
  }

  lemma SameCopies(a: seq<Path>, b: seq<Path>, t: Path)
    requires (forall x :: x in a ==> x == t) && forall x :: x in b ==> x == t
    ensures a + b == b + a
  {
    forall i | 0 <= i < |a| + |b|
      ensures (a + b)[i] == t && (b + a)[i] == t
    {
      assert (a + b)[i] in a || (a + b)[i] in b;
      assert (b + a)[i] in a || (b + a)[i] in b;
    }
  }

  /** A path that is accepted is accepted again behind copies of itself, unless a star in it has to
      be the first. */
  lemma {:induction false} AcceptsAgain(ps: seq<Path>, es: seq<Path>, p: Path)
    requires Accepts(ps, p) && Easy(p) && forall e :: e in es ==> e == p
    ensures Accepts(ps + es, p)
    decreases |p|
  {
    hide Behind, BehindAll, Accepts, Whole, Stars;
    AcceptsIs(ps, p);
    AcceptsIs(ps + es, p);
    if p != [] {
      var tail := p[1..];
      assert Easy(tail) by { EasyRest(p); }
      var fs := CopiesAll(ps, es, p);
      match p[0]
      case Bad =>
      case To(places) =>
        forall i | 0 <= i < |places|
          ensures Accepts(Before(ps + es, places, i, tail), tail)
        {
          var s := places[i];
          var gs := CopiesBehind(ps, es, p, s);
          var ts := Times(places[..i], s, tail);
          AcceptsAgain(Before(ps, places, i, tail), gs, tail);
          SameCopies(gs, ts, tail);
          Regroup(Behind(ps, s), gs, ts);
          Regroup(Behind(ps, s), ts, gs);
        }
      case Unnamed(always) =>
        if always || Whole(ps) {
          AcceptsAgain(BehindAll(ps), fs, tail);
        }
      case Star(first) =>
        EasyFirst(p);
        AcceptsAgain(BehindAll(ps), fs, tail);
    }
  }

  lemma EasyRest(p: Path)
    requires Easy(p) && p != []
    ensures Easy(p[1..])
  {
  }

  lemma EasyFirst(p: Path)
    requires Easy(p) && p != []
    ensures p[0].Star? ==> !p[0].first
  {
  }

  /** Naming a place twice in one step makes no difference, unless a star has to be the first. */
  lemma AcceptsEach(ps: seq<Path>, p: Path)
    requires p != [] && p[0].To? && Easy(p)
    ensures Accepts(ps, p) <==> !Whole(ps) && forall s :: s in p[0].places ==> Accepts(Behind(ps, s), p[1..])
  {
    hide Behind, BehindAll, Accepts, Whole;
    var places, tail := p[0].places, p[1..];
    AcceptsIs(ps, p);
    EasyRest(p);
    if forall i :: 0 <= i < |places| ==> Accepts(Before(ps, places, i, tail), tail) {
      forall s | s in places
        ensures Accepts(Behind(ps, s), tail)
      {
        var i := FirstOf(places, s);
        Regroup(Behind(ps, s), [], []);
        assert Before(ps, places, i, tail) == Behind(ps, s);
      }
    }
    if forall s :: s in places ==> Accepts(Behind(ps, s), tail) {
      forall i | 0 <= i < |places|
        ensures Accepts(Before(ps, places, i, tail), tail)
      {
        assert places[i] in places;
        AcceptsAgain(Behind(ps, places[i]), Times(places[..i], places[i], tail), tail);
      }
    }
  }

  lemma {:induction false} FirstOf(places: seq<Slot>, s: Slot) returns (i: nat)
    requires s in places
    ensures i < |places| && places[i] == s && s !in places[..i]
    decreases |places|
  {
    var most := places[..|places| - 1];
    if s in most {
      i := FirstOf(most, s);
      assert most[..i] == places[..i];
    } else {
      i := |places| - 1;
    }
  }
}
