/** Paths of a field mask and the types that they go through: fieldmask/path.go and the
    descriptors that fieldmask/mask.go and fieldmask/utils.go consult.  A path is the list of
    its tokens. */
module MaskPaths {
  import opened Wrappers

  // ----- types -----

  datatype Desc =
    | IntLike                      // i8, i16, i32, i64, byte
    | StringLike                   // string, binary
    | OtherBasic
    | Enum
    | ListOf(elem: Desc)           // list, set
    | MapOf(key: Desc, elem: Desc)
    | StructOf(name: string)
    | Typedef(target: Desc)
    | Unsupported                  // union, exception

  datatype FieldDesc = FieldDesc(id: int, name: string, ty: Desc)

  /** The fields of every struct. */
  type Env = map<string, seq<FieldDesc>>

  function Unwrap(d: Desc): (r: Desc)
    ensures !r.Typedef?
  {
    if d.Typedef? then Unwrap(d.target) else d
  }

  datatype FieldMaskType = Invalid | Scalar | List | Struct | StrMap | IntMap

  function SwitchFt(env: Env, d: Desc): FieldMaskType {
    match Unwrap(d)
    case ListOf(_) => List
    case MapOf(k, _) =>
      var kt := Unwrap(k);
      if kt.Enum? || kt.IntLike? then IntMap else if kt.StringLike? then StrMap else Scalar
    case StructOf(name) => if name in env then Struct else Invalid
    case Unsupported => Invalid
    case _ => Scalar
  }

  function FieldById(fs: seq<FieldDesc>, id: int): (r: Option<FieldDesc>)
    ensures r.Some? ==> r.value in fs && r.value.id == id
  {
    if fs == [] then None else if fs[0].id == id then Some(fs[0]) else FieldById(fs[1..], id)
  }

  function FieldByName(fs: seq<FieldDesc>, name: string): (r: Option<FieldDesc>)
    ensures r.Some? ==> r.value in fs && r.value.name == name
  {
    if fs == [] then None else if fs[0].name == name then Some(fs[0]) else FieldByName(fs[1..], name)
  }

  /** The conversion of an integer literal to a field id. */
  function ToInt32(n: nat): int {
    var k := n % 0x1_0000_0000;
    if k >= 0x8000_0000 then k - 0x1_0000_0000 else k
  }

  // ----- tokens -----

  datatype Token =
    | Root | Dot | IndexL | IndexR | MapL | MapR | Elem | Any
    | LitInt(n: nat) | LitStr(text: string) | Str(text: string)

  /** A place below a mask: one field, element or key, or all of them. */
  datatype Slot = Every | Fd(id: int) | Ints(n: int) | Strs(key: string)

  /** The field that a token names. */
  function FieldOf(fs: seq<FieldDesc>, tok: Token): Option<FieldDesc> {
    match tok
    case LitInt(n) => FieldById(fs, ToInt32(n))
    case LitStr(s) => FieldByName(fs, s)
    case _ => None
  }

  /** The element or key that a token names below a mask of a type. */
  function KeyOf(kind: FieldMaskType, tok: Token): Option<Slot> {
    if tok.LitInt? && (kind == List || kind == IntMap) then Some(Ints(tok.n))
    else if tok.Str? && kind == StrMap then Some(Strs(tok.text))
    else None
  }

  /** What stands between two brackets, and the tokens behind them. */
  datatype Group = Group(all: bool, star: bool, keys: seq<Slot>, rest: seq<Token>)

  /** Reads up to the closing bracket or to the end of the path.  `all` says whether the
      mask covers everything already. */
  function ReadGroup(kind: FieldMaskType, close: Token, toks: seq<Token>, empty: bool, g: Group): (r: Option<Group>)
    ensures r.Some? ==> |r.value.rest| <= |toks|
    decreases |toks|
  {
    if toks == [] then Some(g.(rest := []))
    else if toks[0] == close then
      if empty then None else Some(g.(rest := toks[1..]))
    else if toks[0].Elem? then ReadGroup(kind, close, toks[1..], false, g)
    else if toks[0].Any? then ReadGroup(kind, close, toks[1..], false, g.(all := true, star := true))
    else if g.all || KeyOf(kind, toks[0]).None? then None
    else ReadGroup(kind, close, toks[1..], false, g.(keys := g.keys + [KeyOf(kind, toks[0]).value]))
  }

  // ----- places below a type -----

  /** The places that a mask of a type keeps masks at. */
  predicate Fits(typ: FieldMaskType, s: Slot) {
    match typ
    case Struct => s.Fd?
    case List => s.Ints?
    case IntMap => s.Ints?
    case StrMap => s.Strs?
    case _ => false
  }

  /** The type below a place. */
  function KidDesc(env: Env, d: Desc, s: Slot): Option<Desc> {
    match Unwrap(d)
    case ListOf(e) => if s.Fd? then None else Some(e)
    case MapOf(_, e) => if s.Fd? then None else Some(e)
    case StructOf(name) =>
      if s.Fd? && name in env && FieldById(env[name], s.id).Some? then Some(FieldById(env[name], s.id).value.ty) else None
    case _ => None
  }

  /** The type that the mask at a place is made for.  The mask for all fields of a struct is made
      for the type of the first one. */
  function ElemDesc(env: Env, d: Desc, s: Slot): Option<Desc> {
    var t := Unwrap(d);
    if s == Every && t.StructOf? then
      if t.name in env && env[t.name] != [] then Some(env[t.name][0].ty) else None
    else KidDesc(env, d, s)
  }

  /** The type below a place is one that masks support: not a union or an exception. */
  predicate Supported(env: Env, d: Desc, s: Slot) {
    KidDesc(env, d, s).Some? && SwitchFt(env, KidDesc(env, d, s).value) != Invalid
  }

  /** What a value of the type is asked for: any field id, any index or any key of the right
      kind.  A map whose keys are neither integers nor strings is asked with an integer. */
  predicate Asked(env: Env, d: Desc, s: Slot) {
    match SwitchFt(env, d)
    case Struct => s.Fd? && s.id >= 0
    case List => s.Ints?
    case IntMap => s.Ints?
    case StrMap => s.Strs?
    case Scalar => Unwrap(d).MapOf? && s.Ints?
    case Invalid => false
  }

  /** A walk that fits the types; behind a field that the struct does not have it ends. */
  predicate WalkOf(env: Env, d: Desc, q: seq<Slot>)
    decreases |q|
  {
    q == []
    || (Asked(env, d, q[0])
        && if KidDesc(env, d, q[0]).Some? then WalkOf(env, KidDesc(env, d, q[0]).value, q[1..]) else |q| == 1)
  }

  /** What asks a mask: anything at all, or a value of a type. */
  datatype Asker = Anything | Value(env: Env, d: Desc)

  predicate Asks(a: Asker, s: Slot) {
    match a
    case Anything => s != Every && (s.Fd? ==> s.id >= 0)
    case Value(env, d) => Asked(env, d, s)
  }

  /** What asks at a place below, if anything does. */
  function Next(a: Asker, s: Slot): Option<Asker> {
    match a
    case Anything => Some(Anything)
    case Value(env, d) => if KidDesc(env, d, s).Some? then Some(Value(env, KidDesc(env, d, s).value)) else None
  }

  /** A walk of somebody who asks. */
  predicate Walks(a: Asker, q: seq<Slot>)
    decreases |q|
  {
    q == [] || (Asks(a, q[0]) && if Next(a, q[0]).Some? then Walks(Next(a, q[0]).value, q[1..]) else |q| == 1)
  }

  lemma {:induction false} WalksOf(env: Env, d: Desc, q: seq<Slot>)
    ensures Walks(Value(env, d), q) <==> WalkOf(env, d, q)
    decreases |q|
  {
    if q != [] && KidDesc(env, d, q[0]).Some? {
      WalksOf(env, KidDesc(env, d, q[0]).value, q[1..]);
    }
  }

  /** Field ids of a struct are distinct, not negative and fit 32 bits. */
  predicate GoodEnv(env: Env) {
    forall name, i :: name in env && 0 <= i < |env[name]| ==> GoodField(env, env[name], env[name][i])
  }

  predicate GoodField(env: Env, fs: seq<FieldDesc>, f: FieldDesc) {
    0 <= f.id < 0x8000_0000 && FieldById(fs, f.id) == Some(f)
  }

  lemma FieldIsGood(env: Env, name: string, f: FieldDesc)
    requires GoodEnv(env) && name in env && f in env[name]
    ensures GoodField(env, env[name], f)
  {
    var i :| 0 <= i < |env[name]| && env[name][i] == f;
  }

  // ----- what a path stands for -----

  /** One step of a path: to some places, through a bracket that names nothing, to all places, or
      one that cannot be taken.  Below a map whose keys are neither integers nor strings a bracket
      always stands for everything.  A star that has to be the first is refused where
      everything is covered: a star for all fields, and one that stands behind keys in its bracket. */
  datatype Step = To(places: seq<Slot>) | Unnamed(always: bool) | Star(first: bool) | Bad

  type Path = seq<Step>

  /** A star for all fields of a struct ends the path. */
  predicate Simple(toks: seq<Token>) {
    forall i :: 0 < i < |toks| && toks[i].Any? && toks[i - 1].Dot? ==> i == |toks| - 1
  }

  /** The steps of a path from a type, up to one that cannot be taken. */
  function Steps(env: Env, toks: seq<Token>, d: Desc): Path
    decreases |toks|, 0
  {
    if toks == [] then []
    else
      match toks[0]
      case Root => Steps(env, toks[1..], d)
      case Dot =>
        var t := Unwrap(d);
        if |toks| < 2 || !t.StructOf? || t.name !in env then [Bad]
        else if toks[1].Any? && env[t.name] != [] then
          [Star(true)] + Steps(env, toks[2..], env[t.name][0].ty)
        else if FieldOf(env[t.name], toks[1]).None? then [Bad]
        else
          var f := FieldOf(env[t.name], toks[1]).value;
          [To([Fd(f.id)])] + Steps(env, toks[2..], f.ty)
      case IndexL =>
        if Unwrap(d).ListOf? then Bracket(env, List, IndexR, toks[1..], Unwrap(d).elem) else [Bad]
      case MapL =>
        if Unwrap(d).MapOf? then Bracket(env, SwitchFt(env, d), MapR, toks[1..], Unwrap(d).elem) else [Bad]
      case _ => [Bad]
  }

  function Bracket(env: Env, kind: FieldMaskType, close: Token, toks: seq<Token>, elem: Desc): Path
    decreases |toks|, 1
  {
    var g := ReadGroup(kind, close, toks, true, Group(false, false, [], []));
    if g.None? || SwitchFt(env, elem) == Invalid then [Bad]
    else [StepOf(kind, g.value)] + Steps(env, g.value.rest, elem)
  }

  function StepOf(kind: FieldMaskType, g: Group): Step {
    if g.star then Star(g.keys != []) else if g.keys == [] then Unnamed(kind == Scalar) else To(g.keys)
  }

  /** The path to a field, by its id or by its name, goes to the field. */
  lemma PathOfField(env: Env, name: string, f: FieldDesc, n: nat, rest: seq<Token>)
    requires GoodEnv(env) && name in env && f in env[name] && n % 0x1_0000_0000 == f.id
    ensures Steps(env, [Dot, LitInt(n)] + rest, StructOf(name)) == [To([Fd(f.id)])] + Steps(env, rest, f.ty)
    ensures (forall g :: g in env[name] && g.name == f.name ==> g == f) ==>
              Steps(env, [Dot, LitStr(f.name)] + rest, StructOf(name)) == [To([Fd(f.id)])] + Steps(env, rest, f.ty)
  {
    FieldIsGood(env, name, f);
    assert FieldById(env[name], f.id) == Some(f);
    assert ([Dot, LitInt(n)] + rest)[2..] == rest && ([Dot, LitStr(f.name)] + rest)[2..] == rest;
    if forall g :: g in env[name] && g.name == f.name ==> g == f {
      FieldByItsName(env[name], f);
    }
  }

  lemma {:induction false} FieldByItsName(fs: seq<FieldDesc>, f: FieldDesc)
    requires f in fs && forall g :: g in fs && g.name == f.name ==> g == f
    ensures FieldByName(fs, f.name) == Some(f)
  {
    if fs[0].name != f.name {
      FieldByItsName(fs[1..], f);
    }
  }

  /** How a place of a list or a map is written: a number or a quoted text. */
  function TokenOf(s: Slot): Token {
    if s.Ints? && s.n >= 0 then LitInt(s.n) else if s.Strs? then Str(s.key) else Any
  }

  /** Places with commas between them, and what comes behind. */
  function Joined(ss: seq<Slot>, rest: seq<Token>): seq<Token> {
    if ss == [] then rest else [TokenOf(ss[0])] + if |ss| == 1 then rest else [Elem] + Joined(ss[1..], rest)
  }

  predicate CanBeKey(kind: FieldMaskType, s: Slot) {
    (s.Ints? && s.n >= 0 && (kind == List || kind == IntMap)) || (s.Strs? && kind == StrMap)
  }

  lemma TakesOne(kind: FieldMaskType, close: Token, s: Slot, more: seq<Token>, empty: bool, keys: seq<Slot>)
    requires (close.IndexR? || close.MapR?) && CanBeKey(kind, s)
    ensures ReadGroup(kind, close, [TokenOf(s)] + more, empty, Group(false, false, keys, []))
            == ReadGroup(kind, close, more, false, Group(false, false, keys + [s], []))
  {
    assert ([TokenOf(s)] + more)[1..] == more;
  }

  lemma TakesComma(kind: FieldMaskType, close: Token, more: seq<Token>, empty: bool, g: Group)
    requires close.IndexR? || close.MapR?
    ensures ReadGroup(kind, close, [Elem] + more, empty, g) == ReadGroup(kind, close, more, false, g)
    ensures ReadGroup(kind, close, [Any] + more, empty, g) == ReadGroup(kind, close, more, false, g.(all := true, star := true))
    ensures ReadGroup(kind, close, [close] + more, false, g) == Some(g.(rest := more))
  {
    assert ([Elem] + more)[1..] == more && ([Any] + more)[1..] == more && ([close] + more)[1..] == more;
  }

  lemma {:induction false} ReadsKeys(kind: FieldMaskType, close: Token, ss: seq<Slot>, rest: seq<Token>, keys: seq<Slot>, empty: bool)
    requires close.IndexR? || close.MapR?
    requires (forall i :: 0 <= i < |ss| ==> CanBeKey(kind, ss[i])) && ss != []
    ensures ReadGroup(kind, close, Joined(ss, [close] + rest), empty, Group(false, false, keys, []))
            == Some(Group(false, false, keys + ss, rest))
    decreases |ss|
  {
    hide ReadGroup, CanBeKey, TokenOf;
    if |ss| == 1 {
      TakesOne(kind, close, ss[0], [close] + rest, empty, keys);
      TakesComma(kind, close, rest, false, Group(false, false, keys + [ss[0]], []));
      assert keys + [ss[0]] == keys + ss;
    } else {
      var more := Joined(ss[1..], [close] + rest);
      TakesOne(kind, close, ss[0], [Elem] + more, empty, keys);
      TakesComma(kind, close, more, false, Group(false, false, keys + [ss[0]], []));
      ReadsKeys(kind, close, ss[1..], rest, keys + [ss[0]], false);
      assert (keys + [ss[0]]) + ss[1..] == keys + ss;
    }
  }

  function Opening(d: Desc): Token {
    if Unwrap(d).ListOf? then IndexL else MapL
  }

  function Closing(d: Desc): Token {
    if Unwrap(d).ListOf? then IndexR else MapR
  }

  lemma BracketIs(env: Env, d: Desc, toks: seq<Token>)
    requires Unwrap(d).ListOf? || Unwrap(d).MapOf?
    ensures Steps(env, [Opening(d)] + toks, d) == Bracket(env, SwitchFt(env, d), Closing(d), toks, Unwrap(d).elem)
  {
    assert ([Opening(d)] + toks)[1..] == toks;
  }

  /** The path to keys of a list or a map goes to those keys. */
  lemma PathOfKeys(env: Env, d: Desc, ss: seq<Slot>, rest: seq<Token>)
    requires (Unwrap(d).ListOf? || Unwrap(d).MapOf?) && SwitchFt(env, Unwrap(d).elem) != Invalid
    requires ss != [] && forall i :: 0 <= i < |ss| ==> CanBeKey(SwitchFt(env, d), ss[i])
    ensures Steps(env, [Opening(d)] + Joined(ss, [Closing(d)] + rest), d) == [To(ss)] + Steps(env, rest, Unwrap(d).elem)
  {
    hide Steps, ReadGroup, CanBeKey, Joined;
    BracketIs(env, d, Joined(ss, [Closing(d)] + rest));
    ReadsKeys(SwitchFt(env, d), Closing(d), ss, rest, [], true);
    assert [] + ss == ss;
  }

  /** `[*]` and `{*}` go to all of them. */
  lemma PathOfAll(env: Env, d: Desc, rest: seq<Token>)
    requires (Unwrap(d).ListOf? || Unwrap(d).MapOf?) && SwitchFt(env, Unwrap(d).elem) != Invalid
    ensures Steps(env, [Opening(d)] + ([Any] + ([Closing(d)] + rest)), d) == [Star(false)] + Steps(env, rest, Unwrap(d).elem)
  {
    hide Steps, ReadGroup;
    var kind := SwitchFt(env, d);
    BracketIs(env, d, [Any] + ([Closing(d)] + rest));
    TakesComma(kind, Closing(d), [Closing(d)] + rest, true, Group(false, false, [], []));
    TakesComma(kind, Closing(d), rest, false, Group(true, true, [], []));
  }

  /** A step goes to a place. */
  predicate Takes(step: Step, s: Slot) {
    step.Star? || (step.To? && s in step.places)
  }

  /** A path agrees with a walk as far as both go. */
  predicate Compat(p: Path, q: seq<Slot>) {
    forall i :: 0 <= i < |p| && i < |q| ==> Takes(p[i], q[i])
  }

  /** The walk goes through the end of a path. */
  predicate Covers(p: Path, q: seq<Slot>) {
    |p| <= |q| && Compat(p, q)
  }

  /** The walk goes through the end of a path that ends at a place, or goes on behind the end of
      a path that ends at the root or with a star. */
  predicate Cuts(p: Path, q: seq<Slot>) {
    Covers(p, q) && (|p| == |q| ==> p != [] && p[|p| - 1].To?)
  }

  // ----- what is left of a list of paths behind a place -----

  /** `tail`, as often as a place is named. */
  function Times(places: seq<Slot>, s: Slot, tail: Path): (r: seq<Path>)
    ensures forall p :: p in r ==> p == tail
    ensures r == [] <==> s !in places
  {
    if places == [] then []
    else Times(places[..|places| - 1], s, tail) + if places[|places| - 1] == s then [tail] else []
  }

  function Longest(ps: seq<Path>): nat {
    if ps == [] then 0
    else
      var n, l := |ps[|ps| - 1]|, Longest(ps[..|ps| - 1]);
      if n > l then n else l
  }

  function BehindOne(p: Path, s: Slot): (r: seq<Path>)
    ensures forall q :: q in r ==> |q| < |p|
  {
    if p != [] && p[0].To? then Times(p[0].places, s, p[1..]) else []
  }

  /** What is left of the paths that name a place, in order. */
  function Behind(ps: seq<Path>, s: Slot): (r: seq<Path>)
    ensures forall q :: q in r ==> |q| < Longest(ps)
  {
    if ps == [] then []
    else Behind(ps[..|ps| - 1], s) + BehindOne(ps[|ps| - 1], s)
  }

  /** Some path has a star here. */
  predicate Stars(ps: seq<Path>) {
    exists p: Path :: p in ps && p != [] && p[0].Star?
  }

  /** Everything is covered here: a path ends or has a star. */
  predicate Whole(ps: seq<Path>) {
    [] in ps || Stars(ps)
  }

  /** The first step of a path stands for everything, behind other paths: a star does, and a
      bracket that names nothing where everything is covered or below other maps. */
  predicate IntoAll(ps: seq<Path>, p: Path) {
    p != [] && (p[0].Star? || (p[0].Unnamed? && (p[0].always || Whole(ps))))
  }

  /** What is left of the paths whose first step stands for everything. */
  function BehindAll(ps: seq<Path>): (r: seq<Path>)
    ensures forall q :: q in r ==> |q| < Longest(ps)
  {
    if ps == [] then []
    else
      var most, p := ps[..|ps| - 1], ps[|ps| - 1];
      BehindAll(most) + if IntoAll(most, p) then [p[1..]] else []
  }

  lemma {:induction false} LongestBelow(ps: seq<Path>, n: nat)
    requires forall q :: q in ps ==> |q| < n
    ensures ps != [] ==> Longest(ps) < n
  {
    if ps != [] {
      LongestBelow(ps[..|ps| - 1], n);
      assert ps[|ps| - 1] in ps;
    }
  }

  lemma BehindIsShorter(ps: seq<Path>, s: Slot)
    ensures Behind(ps, s) != [] ==> Longest(Behind(ps, s)) < Longest(ps)
    ensures BehindAll(ps) != [] ==> Longest(BehindAll(ps)) < Longest(ps)
  {
    LongestBelow(Behind(ps, s), Longest(ps));
    LongestBelow(BehindAll(ps), Longest(ps));
  }
}
