/** Field masks by value: fieldmask/mask.go and fieldmask/storage.go.  What adding a path
    does to a mask, and what a mask answers. */
module MaskTree {
  import opened Wrappers
  import opened MaskPaths

  /** A mask with the masks below it.  `Every` is the mask for all elements. */
  datatype Mask = Mask(isAll: bool, isBlack: bool, typ: FieldMaskType, kids: map<Slot, Mask>)

  function New(typ: FieldMaskType, black: bool): Mask {
    Mask(false, black, typ, map[])
  }

  // ----- questions -----

  predicate Exist(m: Mask) {
    m.typ != Invalid
  }

  predicate All(m: Mask) {
    (m.typ == Struct || m.typ == List || m.typ == IntMap || m.typ == StrMap) ==> m.isAll
  }

  predicate HasChild(m: Mask) {
    m.typ != Invalid && m.kids != map[]
  }

  function Kid(m: Mask, s: Slot): Option<Mask> {
    if s in m.kids then Some(m.kids[s]) else None
  }

  /** What Field, Int and Str return: the mask below, and whether the place passes. */
  function Answer(m: Option<Mask>, s: Slot): (Option<Mask>, bool) {
    if m.None? || m.value.typ == Invalid then (None, true)
    else if m.value.isAll then (Kid(m.value, Every), !m.value.isBlack || HasChild(m.value))
    else
      var k := Kid(m.value, s);
      var fm := if k.Some? && Exist(k.value) then k else None;
      (fm, if m.value.isBlack then fm.None? || HasChild(fm.value) else fm.Some?)
  }

  /** Asking for a field dereferences the field map and indexes its array. */
  predicate Panics(m: Option<Mask>, s: Slot) {
    m.Some? && m.value.typ != Invalid && !m.value.isAll && s.Fd? && (s.id < 0 || !HasFields(m.value))
  }

  predicate HasFields(m: Mask) {
    exists s :: s in m.kids && s.Fd?
  }

  /** Whether no step of a walk panics. */
  predicate Safe(m: Option<Mask>, q: seq<Slot>)
    decreases |q|
  {
    q == [] || (!Panics(m, q[0]) && (Answer(m, q[0]).1 ==> Safe(Answer(m, q[0]).0, q[1..])))
  }

  /** Whether a walk passes at every step. */
  predicate Passes(m: Option<Mask>, q: seq<Slot>)
    decreases |q|
  {
    q == [] || (Answer(m, q[0]).1 && Passes(Answer(m, q[0]).0, q[1..]))
  }

  /** What following a walk comes to. */
  datatype Outcome = Crash | Verdict(passes: bool)

  function Follow(m: Option<Mask>, q: seq<Slot>): Outcome {
    if Safe(m, q) then Verdict(Passes(m, q)) else Crash
  }

  // ----- adding a path -----

  /** Clears the masks below at places of some kinds, with everything below them. */
  function Reset(m: Mask): Mask
    decreases m, 1
  {
    m.(isAll := false, typ := Invalid, kids := ResetKids(m, Concrete))
  }

  function ResetKids(m: Mask, which: Slot -> bool): map<Slot, Mask>
    decreases m, 0
  {
    map s | s in m.kids :: if which(s) then Reset(m.kids[s]) else m.kids[s]
  }

  /** A star: everything that was named at these places is forgotten. */
  function Starred(m: Mask, which: Slot -> bool): Mask {
    m.(isAll := true, kids := ResetKids(m, which))
  }

  predicate Fielded(s: Slot) {
    s.Fd?
  }

  predicate Indexed(s: Slot) {
    s.Ints?
  }

  predicate Stringed(s: Slot) {
    s.Strs?
  }

  predicate Concrete(s: Slot) {
    s != Every
  }

  /** The places that a star between brackets forgets. */
  function Keyed(close: Token): Slot -> bool {
    (s: Slot) => s.Ints? || (s.Strs? && close.MapR?)
  }

  /** The mask below at a place, which is made when it is not there. */
  function Make(m: Mask, s: Slot, typ: FieldMaskType): Mask {
    if s !in m.kids then New(typ, m.isBlack)
    else if m.kids[s].typ == Invalid then m.kids[s].(typ := typ, isAll := false, isBlack := m.isBlack)
    else m.kids[s]
  }

  /** The mask with another one below. */
  function Put(m: Mask, s: Slot, k: Option<Mask>): Option<Mask> {
    if k.Some? then Some(m.(kids := m.kids[s := k.value])) else None
  }

  /** Adds the rest of a path; there is no result when the path is refused. */
  function AddPath(env: Env, m: Mask, toks: seq<Token>, d: Desc): Option<Mask>
    decreases |toks|, 0
  {
    if toks == [] then Some(m.(isAll := true))
    else
      match toks[0]
      case Root => AddPath(env, m.(typ := SwitchFt(env, d)), toks[1..], d)
      case Dot => AddField(env, m, toks[1..], d)
      case IndexL => AddIndex(env, m, toks[1..], d)
      case MapL => AddKey(env, m, toks[1..], d)
      case _ => None
  }

  function AddField(env: Env, m: Mask, toks: seq<Token>, d: Desc): Option<Mask>
    decreases |toks|, 0
  {
    var t := Unwrap(d);
    if !t.StructOf? || t.name !in env || m.typ != Struct || toks == [] || All(m) then None
    else
      var fs := env[t.name];
      if toks[0].Any? then
        if fs == [] then None
        else
          var m' := Starred(m, Fielded);
          Put(m', Every, AddPath(env, Make(m', Every, SwitchFt(env, fs[0].ty)), toks[1..], d))
      else
        var f := FieldOf(fs, toks[0]);
        if f.None? then None
        else Put(m, Fd(f.value.id), AddPath(env, Make(m, Fd(f.value.id), SwitchFt(env, f.value.ty)), toks[1..], f.value.ty))
  }

  function AddIndex(env: Env, m: Mask, toks: seq<Token>, d: Desc): Option<Mask>
    decreases |toks|, 2
  {
    var t := Unwrap(d);
    if !t.ListOf? || m.typ != List || SwitchFt(env, t.elem) == Invalid then None
    else AddGroup(env, m, IndexR, ReadGroup(m.typ, IndexR, toks, true, Group(All(m), false, [], [])), |toks|, t.elem)
  }

  function AddKey(env: Env, m: Mask, toks: seq<Token>, d: Desc): Option<Mask>
    decreases |toks|, 2
  {
    var t := Unwrap(d);
    if !t.MapOf? || (m.typ != IntMap && m.typ != StrMap && m.typ != Scalar) || SwitchFt(env, t.elem) == Invalid then None
    else AddGroup(env, m, MapR, ReadGroup(m.typ, MapR, toks, true, Group(All(m), false, [], [])), |toks|, t.elem)
  }

  /** Goes on below everything, or below each of the keys. */
  function AddGroup(env: Env, m: Mask, close: Token, g: Option<Group>, n: nat, elem: Desc): Option<Mask>
    requires g.Some? ==> |g.value.rest| <= n
    decreases n, 1
  {
    if g.None? then None
    else
      var m' := if g.value.star then Starred(m, Keyed(close)) else m;
      if g.value.all then
        Put(m', Every, AddPath(env, Make(m', Every, SwitchFt(env, elem)), g.value.rest, elem))
      else AddEach(env, m', g.value.keys, g.value.rest, elem)
  }

  function AddEach(env: Env, m: Mask, keys: seq<Slot>, rest: seq<Token>, elem: Desc): Option<Mask>
    decreases |rest|, 1, |keys|
  {
    if keys == [] then Some(m)
    else
      var m' := Put(m, keys[0], AddPath(env, Make(m, keys[0], SwitchFt(env, elem)), rest, elem));
      if m'.None? then None else AddEach(env, m'.value, keys[1..], rest, elem)
  }

  /** A new mask for a list of paths. */
  function AddPaths(env: Env, m: Mask, paths: seq<seq<Token>>, d: Desc): Option<Mask>
    decreases |paths|
  {
    if paths == [] then Some(m)
    else
      var m' := AddPath(env, m, paths[0], d);
      if m'.None? then None else AddPaths(env, m'.value, paths[1..], d)
  }

  function NewFieldMask(env: Env, black: bool, paths: seq<seq<Token>>, d: Desc): Option<Mask> {
    AddPaths(env, New(Invalid, black), paths, d)
  }

  /** The masks below when those at some places have been cleared. */
  function ResetAt(m: Mask, done: set<Slot>): Mask {
    m.(kids := map s | s in m.kids :: if s in done then Reset(m.kids[s]) else m.kids[s])
  }

  lemma ResetAtAll(m: Mask, done: set<Slot>, which: Slot -> bool)
    requires forall s :: s in m.kids ==> (which(s) <==> s in done)
    ensures ResetAt(m, done) == m.(kids := ResetKids(m, which))
  {
    assert ResetAt(m, done).kids == ResetKids(m, which);
  }

  lemma ResetAtNone(m: Mask)
    ensures ResetAt(m, {}) == m
  {
    assert ResetAt(m, {}).kids == m.kids;
  }

  lemma ResetAtNext(m: Mask, done: set<Slot>, s: Slot)
    requires s in m.kids && s !in done
    ensures var a := ResetAt(m, done);
            s in a.kids && a.kids[s] == m.kids[s] && a.(kids := a.kids[s := Reset(m.kids[s])]) == ResetAt(m, done + {s})
  {
    var a := ResetAt(m, done);
    assert a.kids[s := Reset(m.kids[s])] == ResetAt(m, done + {s}).kids;
  }

  /** Clearing one kind of place after another. */
  lemma ResetKinds(m: Mask)
    ensures var a := m.(kids := ResetKids(m, Fielded));
            var b := a.(kids := ResetKids(a, Indexed));
            b.(kids := ResetKids(b, Stringed)) == m.(kids := ResetKids(m, Concrete))
  {
    var a := m.(kids := ResetKids(m, Fielded));
    var b := a.(kids := ResetKids(a, Indexed));
    assert ResetKids(b, Stringed) == ResetKids(m, Concrete);
  }

  /** Clearing twice is clearing once. */
  lemma {:induction false} ResetTwice(m: Mask)
    ensures Reset(Reset(m)) == Reset(m)
    decreases m
  {
    forall s | s in m.kids && Concrete(s)
      ensures Reset(Reset(m.kids[s])) == Reset(m.kids[s])
    {
      ResetTwice(m.kids[s]);
    }
    assert ResetKids(Reset(m), Concrete) == ResetKids(m, Concrete);
  }

  lemma StarredTwice(m: Mask, which: Slot -> bool)
    ensures Starred(Starred(m, which), which) == Starred(m, which)
  {
    forall s | s in m.kids
      ensures Reset(Reset(m.kids[s])) == Reset(m.kids[s])
    {
      ResetTwice(m.kids[s]);
    }
    assert ResetKids(Starred(m, which), which) == ResetKids(m, which);
  }
}
