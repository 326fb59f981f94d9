/** What the type names of a set of Thrift files refer to: semantic/semantic.go, with the
    splitting of names from semantic/split.go.  Everything here depends on the text of the
    files alone; Resolver.dfy is about the fields that resolution fills in. */
module TypeNames {
  import opened Wrappers

  datatype Category =
    | Constant | Bool | Byte | I16 | I32 | I64 | Double | String | Binary
    | Map | List | Set | Enum | Struct | Union | Exception | Typedef | Service

  datatype Reference = Reference(name: string, index: nat)

  class Type {
    const name: string
    const keyType: Type?
    const valueType: Type?
    var category: Category
    var isTypedef: bool
    var reference: Option<Reference>
    ghost const depth: nat   // how deeply containers are nested below this type

    /** A type that names `name` and has no parts. */
    constructor (name: string, category: Category)
      ensures this.name == name && this.category == category
    {
      this.name, keyType, valueType := name, null, null;
      this.category, isTypedef, reference := category, false, None;
      depth := 0;
    }
  }

  class Alias {
    const alias: string
    const target: Type

    constructor (alias: string, target: Type)
      ensures this.alias == alias && this.target == target
    {
      this.alias, this.target := alias, target;
    }
  }

  class Include {
    const path: string
    const prefix: string     // what types of the file are written with
    const reference: Thrift?

    constructor (path: string, reference: Thrift?)
      ensures this.path == path && this.prefix == IdlPrefix(path) && this.reference == reference
    {
      this.path, this.prefix, this.reference := path, IdlPrefix(path), reference;
    }
  }

  class Thrift {
    const includes: seq<Include>
    const typedefs: seq<Alias>
    const definitions: seq<(string, Category)>  // constants, enums, struct-likes, services
    const types: seq<Type>                      // of constants, fields and functions
    var name2Category: Option<map<string, Category>>
    ghost const rank: nat    // larger than the rank of every file included

    constructor (includes: seq<Include>, typedefs: seq<Alias>, definitions: seq<(string, Category)>,
                 types: seq<Type>, ghost rank: nat)
      ensures this.includes == includes && this.typedefs == typedefs
      ensures this.definitions == definitions && this.types == types
      ensures name2Category == None && this.rank == rank
    {
      this.includes, this.typedefs, this.definitions, this.types := includes, typedefs, definitions, types;
      name2Category := None;
      this.rank := rank;
    }
  }

  // ----- names -----

  /** The position of the last `c`, or -1. */
  function Last(id: string, c: char): (i: int)
    ensures -1 <= i < |id|
    ensures i >= 0 ==> id[i] == c
    ensures forall j :: i < j < |id| ==> id[j] != c
  {
    if id == "" then -1
    else if id[|id| - 1] == c then |id| - 1
    else Last(id[..|id| - 1], c)
  }

  function LastDot(id: string): (i: int)
    ensures i == Last(id, '.')
  {
    Last(id, '.')
  }

  /** The last element of a path. */
  function Base(path: string): string {
    if path == "" then "."
    else
      var p := WithoutSlashes(path);
      if p == "" then "/" else p[Last(p, '/') + 1..]
  }

  function WithoutSlashes(path: string): (p: string)
    ensures p <= path
  {
    if path != "" && path[|path| - 1] == '/' then WithoutSlashes(path[..|path| - 1]) else path
  }

  /** The extension of a file name, dot included. */
  function Ext(name: string): string {
    var i := LastDot(name);
    if i > Last(name, '/') then name[i..] else ""
  }

  /** The name of an included file: the last element of its path without the extension. */
  function IdlPrefix(path: string): string {
    var ref := Base(path);
    ref[..|ref| - |Ext(ref)|]
  }

  /** A name is cut at its last dot: in front of it is the name of an included file. */
  function SplitType(id: string): (parts: seq<string>)
    ensures |parts| <= 2 && (parts == [] <==> id == "")
    ensures |parts| == 1 ==> parts[0] == id && '.' !in id
    ensures |parts| == 2 ==> parts[0] + "." + parts[1] == id && '.' !in parts[1]
  {
    if id == "" then []
    else
      var i := LastDot(id);
      if i == -1 then [id] else [id[..i], id[i + 1..]]
  }

  const BaseNames: map<string, Category> :=
    map["bool" := Bool, "byte" := Byte, "i8" := Byte, "i16" := I16, "i32" := I32, "i64" := I64,
        "double" := Double, "string" := String, "binary" := Binary]

  const ContainerNames: map<string, Category> := map["map" := Map, "list" := List, "set" := Set]

  /** The categories that a type name may have. */
  predicate IsTypeName(c: Category) {
    c.Enum? || c.Struct? || c.Union? || c.Exception? || c.Typedef?
  }

  /** All definitions of a file in the order in which they are registered. */
  function Definitions(f: Thrift): seq<(string, Category)> {
    Aliases(f.typedefs) + f.definitions
  }

  function Aliases(ts: seq<Alias>): (r: seq<(string, Category)>)
    ensures |r| == |ts| && forall i :: 0 <= i < |r| ==> r[i] == (ts[i].alias, Typedef)
  {
    if ts == [] then [] else [(ts[0].alias, Typedef)] + Aliases(ts[1..])
  }

  function Table(ds: seq<(string, Category)>): map<string, Category> {
    if ds == [] then map[] else Table(ds[..|ds| - 1])[ds[|ds| - 1].0 := ds[|ds| - 1].1]
  }

  predicate Distinct(ds: seq<(string, Category)>) {
    forall i, j :: 0 <= i < j < |ds| ==> ds[i].0 != ds[j].0
  }

  function Names(f: Thrift): map<string, Category> {
    Table(Definitions(f))
  }

  lemma {:induction false} TableHas(ds: seq<(string, Category)>, name: string)
    ensures name in Table(ds) <==> exists i :: 0 <= i < |ds| && ds[i].0 == name
    ensures name in Table(ds) ==> (name, Table(ds)[name]) in ds
  {
    if ds != [] {
      var n := |ds| - 1;
      TableHas(ds[..n], name);
      if name in Table(ds[..n]) {
        var i :| 0 <= i < n && ds[..n][i].0 == name;
        assert ds[i].0 == name;
      }
      if name == ds[n].0 {
        assert ds[n] == (name, Table(ds)[name]);
      }
      forall i | 0 <= i < |ds| && ds[i].0 == name ensures name in Table(ds) {
        if i < n { assert ds[..n][i].0 == name; }
      }
    }
  }

  function FindTypedef(ts: seq<Alias>, name: string): Option<Alias> {
    if ts == [] then None else if ts[0].alias == name then Some(ts[0]) else FindTypedef(ts[1..], name)
  }

  lemma {:induction false} FindTypedefIn(ts: seq<Alias>, name: string)
    ensures FindTypedef(ts, name).Some? ==> FindTypedef(ts, name).value in ts
    ensures FindTypedef(ts, name).None? ==> forall i :: 0 <= i < |ts| ==> ts[i].alias != name
  {
    if ts != [] && ts[0].alias != name {
      FindTypedefIn(ts[1..], name);
      forall i | 0 <= i < |ts| && FindTypedef(ts, name).None? ensures ts[i].alias != name {
        if i > 0 { assert ts[1..][i - 1] == ts[i]; }
      }
    }
  }

  /** Only typedefs are registered as typedefs. */
  predicate OnlyAliasesAreTypedefs(f: Thrift) {
    forall i :: 0 <= i < |f.definitions| ==> !f.definitions[i].1.Typedef?
  }

  lemma TypedefIsFound(f: Thrift, name: string)
    requires OnlyAliasesAreTypedefs(f) && name in Names(f) && Names(f)[name].Typedef?
    ensures FindTypedef(f.typedefs, name).Some? && FindTypedef(f.typedefs, name).value in f.typedefs
  {
    TableHas(Definitions(f), name);
    FindTypedefIn(f.typedefs, name);
    var i :| 0 <= i < |Definitions(f)| && Definitions(f)[i] == (name, Typedef);
    assert i < |f.typedefs|;
  }

  // ----- what a type refers to -----

  datatype Meaning =
    | Plain(c: Category)
    | Local(c: Category)
    | External(index: nat, name: string, c: Category)
    | Wrong

  /** An included file that defines the name as a type. */
  predicate Offers(inc: Include, prefix: string, name: string) {
    && inc.prefix == prefix && inc.reference != null
    && name in Names(inc.reference) && IsTypeName(Names(inc.reference)[name])
  }

  /** The first include that offers the name, or the number of includes. */
  function FirstOffer(incs: seq<Include>, prefix: string, name: string): (i: nat)
    ensures i <= |incs|
    ensures forall j :: 0 <= j < i ==> !Offers(incs[j], prefix, name)
    ensures i < |incs| ==> Offers(incs[i], prefix, name)
  {
    if incs == [] then 0
    else if Offers(incs[0], prefix, name) then 0
    else 1 + FirstOffer(incs[1..], prefix, name)
  }

  function Lookup(f: Thrift, t: Type): Meaning {
    if t.name in BaseNames then Plain(BaseNames[t.name])
    else if t.name in ContainerNames then Plain(ContainerNames[t.name])
    else
      var parts := SplitType(t.name);
      if |parts| == 1 then LookupLocal(f, parts[0])
      else if |parts| == 2 then LookupExternal(f, parts[0], parts[1])
      else Wrong
  }

  function LookupLocal(f: Thrift, name: string): Meaning {
    if name in Names(f) && IsTypeName(Names(f)[name]) then Local(Names(f)[name]) else Wrong
  }

  function LookupExternal(f: Thrift, prefix: string, name: string): Meaning {
    var i := FirstOffer(f.includes, prefix, name);
    if i < |f.includes| then External(i, name, Names(f.includes[i].reference)[name]) else Wrong
  }

  /** The file and the name of the definition that a type refers to. */
  function Definer(f: Thrift, t: Type): (Thrift, string)
    requires !Lookup(f, t).Wrong?
  {
    var m := Lookup(f, t);
    if m.External? then (f.includes[m.index].reference, m.name) else (f, t.name)
  }

  /** The type that an alias stands for, and the file that writes it. */
  function Target(f: Thrift, t: Type): Option<(Thrift, Type)> {
    var m := Lookup(f, t);
    if !m.Wrong? && m.c.Typedef? then
      var (g, name) := Definer(f, t);
      var td := FindTypedef(g.typedefs, name);
      if td.Some? then Some((g, td.value.target)) else None
    else None
  }

  /** Where a chain of aliases ends. */
  datatype End = End(file: Thrift, name: string, category: Category)

  /** Follows at most `n` aliases. */
  function EndWithin(f: Thrift, t: Type, n: nat): Option<End> {
    var m := Lookup(f, t);
    if m.Wrong? then None
    else if !m.c.Typedef? then
      var (g, name) := Definer(f, t);
      Some(End(g, name, m.c))
    else if n == 0 || Target(f, t).None? then None
    else
      var (g, u) := Target(f, t).value;
      EndWithin(g, u, n - 1)
  }

  /** The chain of aliases from the type reaches a concrete type. */
  ghost predicate Ends(f: Thrift, t: Type) {
    exists n: nat :: EndWithin(f, t, n).Some?
  }

  /** It reaches one of category `c`. */
  ghost predicate Means(f: Thrift, t: Type, c: Category) {
    exists n: nat :: EndWithin(f, t, n).Some? && EndWithin(f, t, n).value.category == c
  }

  lemma EndNext(f: Thrift, t: Type, n: nat)
    ensures Target(f, t).Some? ==> !Lookup(f, t).Wrong? && Lookup(f, t).c.Typedef?
    ensures Target(f, t).Some? && n > 0 ==>
              EndWithin(f, t, n) == EndWithin(Target(f, t).value.0, Target(f, t).value.1, n - 1)
    ensures Target(f, t).Some? && n == 0 ==> EndWithin(f, t, n) == None
    ensures EndWithin(f, t, n).Some? && Target(f, t).None? ==> EndWithin(f, t, n) == EndWithin(f, t, 0)
    ensures EndWithin(f, t, n).Some? && Target(f, t).None? ==> !EndWithin(f, t, n).value.category.Typedef?
  {
    hide Lookup;
  }

  lemma {:induction false} EndIsUnique(f: Thrift, t: Type, m: nat, n: nat)
    requires EndWithin(f, t, m).Some? && EndWithin(f, t, n).Some?
    ensures EndWithin(f, t, m) == EndWithin(f, t, n)
    decreases m
  {
    hide EndWithin, Lookup, Target;
    EndNext(f, t, m);
    EndNext(f, t, n);
    if Target(f, t).Some? {
      var (g, u) := Target(f, t).value;
      EndIsUnique(g, u, m - 1, n - 1);
    }
  }

  lemma {:induction false} EndIsConcrete(f: Thrift, t: Type, n: nat)
    requires EndWithin(f, t, n).Some?
    ensures !EndWithin(f, t, n).value.category.Typedef?
    decreases n
  {
    hide EndWithin, Lookup, Target;
    EndNext(f, t, n);
    if Target(f, t).Some? {
      var (g, u) := Target(f, t).value;
      EndIsConcrete(g, u, n - 1);
    }
  }

  lemma MeansOne(f: Thrift, t: Type, c: Category, c': Category)
    requires Means(f, t, c) && Means(f, t, c')
    ensures c == c' && !c.Typedef? && Ends(f, t)
  {
    var m: nat :| EndWithin(f, t, m).Some? && EndWithin(f, t, m).value.category == c;
    var n: nat :| EndWithin(f, t, n).Some? && EndWithin(f, t, n).value.category == c';
    EndIsUnique(f, t, m, n);
    EndIsConcrete(f, t, m);
  }

  lemma MeansStep(f: Thrift, t: Type, g: Thrift, u: Type, c: Category)
    requires Target(f, t) == Some((g, u)) && Means(g, u, c)
    ensures Means(f, t, c)
  {
    var n: nat :| EndWithin(g, u, n).Some? && EndWithin(g, u, n).value.category == c;
    EndNext(f, t, n + 1);
  }

  lemma MeansItself(f: Thrift, t: Type)
    requires !Lookup(f, t).Wrong? && !Lookup(f, t).c.Typedef?
    ensures Means(f, t, Lookup(f, t).c)
  {
    assert EndWithin(f, t, 0).Some?;
  }

  /** Types of one file that only lead to one another lead nowhere. */
  lemma {:induction false} Circular(f: Thrift, stuck: set<Type>, t: Type, n: nat)
    requires t in stuck
    requires forall u :: u in stuck ==> Target(f, u).Some? && Target(f, u).value.0 == f && Target(f, u).value.1 in stuck
    ensures EndWithin(f, t, n).None?
    decreases n
  {
    hide EndWithin, Lookup, Target;
    EndNext(f, t, n);
    if n > 0 {
      Circular(f, stuck, Target(f, t).value.1, n - 1);
    }
  }

  // ----- names as they are written -----

  /** What the name of a type may be the name of. */
  const TypeCategories: set<Category> := {Enum, Struct, Union, Exception, Typedef}

  /** The text of a file defines the name as a type of category `c`. */
  predicate Defines(f: Thrift?, name: string, c: Category) {
    f != null && (name, c) in Definitions(f) && c in TypeCategories
  }

  /** The include is called `prefix` and its file defines the name as a type. */
  predicate Has(inc: Include, prefix: string, name: string) {
    inc.prefix == prefix && exists c :: Defines(inc.reference, name, c)
  }

  predicate AllDistinct(incs: seq<Include>) {
    forall i :: 0 <= i < |incs| && incs[i].reference != null ==> Distinct(Definitions(incs[i].reference))
  }

  lemma SplitsAtLastDot(p: string, n: string)
    requires '.' !in n
    ensures SplitType(p + "." + n) == [p, n]
  {
    var id := p + "." + n;
    LastIs(id, '.', |p|);
    assert id[..|p|] == p && id[|p| + 1..] == n;
  }

  /** An include is called as its file, whatever the directory and the extension. */
  lemma PrefixOfPath(dir: string, name: string, ext: string)
    requires '/' !in name && '/' !in ext && '.' !in ext && (dir == "" || dir[|dir| - 1] == '/')
    ensures IdlPrefix(dir + name + "." + ext) == name
  {
    hide Base, Ext, LastDot;
    var file := name + "." + ext;
    assert dir + name + "." + ext == dir + file;
    BaseOf(dir, file);
    assert file[|file| - 1] != '/' && '/' !in file;
    ExtOf(name, ext);
    assert file[..|name|] == name;
  }

  lemma BaseOf(dir: string, file: string)
    requires '/' !in file && file != "" && (dir == "" || dir[|dir| - 1] == '/')
    ensures Base(dir + file) == file
  {
    var path := dir + file;
    assert path[|path| - 1] == file[|file| - 1];
    LastIs(path, '/', |dir| - 1);
    assert path[|dir|..] == file;
  }

  lemma LastIs(id: string, c: char, k: int)
    requires -1 <= k < |id| && (k >= 0 ==> id[k] == c) && forall j :: k < j < |id| ==> id[j] != c
    ensures Last(id, c) == k
  {
  }

  lemma ExtOf(name: string, ext: string)
    requires '/' !in name && '/' !in ext && '.' !in ext
    ensures Ext(name + "." + ext) == "." + ext
  {
    var file := name + "." + ext;
    LastIs(file, '.', |name|);
    LastIs(file, '/', -1);
    assert file[|name|..] == "." + ext;
  }

  /** In a table without duplicates a name stands for what was listed under it. */
  lemma TableIs(ds: seq<(string, Category)>, name: string, c: Category)
    requires Distinct(ds)
    ensures (name, c) in ds <==> name in Table(ds) && Table(ds)[name] == c
  {
    hide Table;
    TableHas(ds, name);
    if (name, c) in ds {
      var i :| 0 <= i < |ds| && ds[i] == (name, c);
      assert ds[i].0 == name && name in Table(ds);
      var j :| 0 <= j < |ds| && ds[j] == (name, Table(ds)[name]);
      assert ds[j].0 == name;
    }
  }

  lemma DefinedIs(f: Thrift, name: string, c: Category)
    requires Distinct(Definitions(f))
    ensures Defines(f, name, c) <==> name in Names(f) && IsTypeName(Names(f)[name]) && Names(f)[name] == c
  {
    hide Table, Definitions;
    TableIs(Definitions(f), name, c);
  }

  lemma OffersIs(inc: Include, prefix: string, name: string)
    requires inc.reference != null ==> Distinct(Definitions(inc.reference))
    ensures Offers(inc, prefix, name) <==> Has(inc, prefix, name)
  {
    hide Names, Definitions;
    if Has(inc, prefix, name) {
      var c :| Defines(inc.reference, name, c);
      DefinedIs(inc.reference, name, c);
    }
    if Offers(inc, prefix, name) {
      DefinedIs(inc.reference, name, Names(inc.reference)[name]);
    }
  }

  /** A name with a dot refers to a type of the first include that is called as the part before
      the last dot and defines the part behind it; without such an include it is wrong. */
  lemma ExternalName(f: Thrift, t: Type, p: string, n: string)
    requires t.name == p + "." + n && '.' !in n && AllDistinct(f.includes)
    ensures forall i: nat, c ::
              Lookup(f, t) == External(i, n, c)
              <==> i < |f.includes| && f.includes[i].prefix == p && Defines(f.includes[i].reference, n, c)
                   && forall j :: 0 <= j < i ==> !Has(f.includes[j], p, n)
    ensures !Lookup(f, t).Wrong? ==> Lookup(f, t).External? && Lookup(f, t).name == n
  {
    hide Offers, Has, SplitType, Names, Defines;
    SplitsAtLastDot(p, n);
    assert '.' in t.name by { assert t.name[|p|] == '.'; }
    DotlessNames();
    var k := FirstOffer(f.includes, p, n);
    forall j | 0 <= j < |f.includes|
      ensures Offers(f.includes[j], p, n) <==> Has(f.includes[j], p, n)
    {
      OffersIs(f.includes[j], p, n);
    }
    forall i: nat, c
      ensures Lookup(f, t) == External(i, n, c)
              <==> i < |f.includes| && f.includes[i].prefix == p && Defines(f.includes[i].reference, n, c)
                   && forall j :: 0 <= j < i ==> !Has(f.includes[j], p, n)
    {
      if i < |f.includes| && f.includes[i].prefix == p {
        OffersOne(f.includes[i], p, n, c);
      }
      if k < |f.includes| {
        OffersOne(f.includes[k], p, n, c);
      }
    }
  }

  lemma OffersOne(inc: Include, p: string, n: string, c: Category)
    requires inc.reference != null ==> Distinct(Definitions(inc.reference))
    ensures Defines(inc.reference, n, c) && inc.prefix == p ==> Has(inc, p, n)
    ensures Offers(inc, p, n) ==>
              inc.prefix == p && inc.reference != null && n in Names(inc.reference)
              && (Defines(inc.reference, n, c) <==> Names(inc.reference)[n] == c)
  {
    if inc.reference != null {
      DefinedIs(inc.reference, n, c);
    }
  }

  lemma DotlessNames()
    ensures forall name :: name in BaseNames || name in ContainerNames ==> '.' !in name && name != ""
  {
  }

  /** A name without a dot is that of a base type or a container, or refers to a type that the
      file itself defines. */
  lemma LocalName(f: Thrift, t: Type)
    requires '.' !in t.name && Distinct(Definitions(f))
    ensures !Lookup(f, t).External?
    ensures Lookup(f, t).Plain? <==>
              t.name in {"bool", "byte", "i8", "i16", "i32", "i64", "double", "string", "binary", "map", "list", "set"}
    ensures !Lookup(f, t).Plain? && t.name != "" ==>
              forall c :: Lookup(f, t) == Local(c) <==> Defines(f, t.name, c)
  {
    forall c
      ensures Defines(f, t.name, c) <==> t.name in Names(f) && IsTypeName(Names(f)[t.name]) && Names(f)[t.name] == c
    {
      DefinedIs(f, t.name, c);
    }
    hide Names, Defines;
  }

  // ----- the types of a file -----

  predicate IsContainer(t: Type) {
    t.name in ContainerNames
  }

  /** A type with the types it is made of. */
  ghost function Parts(t: Type): (s: set<Type>)
    ensures t in s
    decreases t.depth
  {
    {t}
    + (if t.name == "map" && t.keyType != null && t.keyType.depth < t.depth then Parts(t.keyType) else {})
    + (if IsContainer(t) && t.valueType != null && t.valueType.depth < t.depth then Parts(t.valueType) else {})
  }

  ghost function PartsOf(ts: seq<Type>): set<Type> {
    if ts == [] then {} else PartsOf(ts[..|ts| - 1]) + Parts(ts[|ts| - 1])
  }

  function Targets(ts: seq<Alias>): (r: seq<Type>)
    ensures |r| == |ts| && forall i :: 0 <= i < |r| ==> r[i] == ts[i].target
  {
    if ts == [] then [] else [ts[0].target] + Targets(ts[1..])
  }

  /** The types of a file in the order in which they are resolved. */
  function Roots(f: Thrift): seq<Type> {
    Targets(f.typedefs) + f.types
  }

  ghost function TypesOf(f: Thrift): set<Type> {
    PartsOf(Roots(f))
  }

  /** No type is a part of itself. */
  ghost predicate Finite(t: Type) {
    && (t.name == "map" && t.keyType != null ==> DeeperThan(t, t.keyType))
    && (IsContainer(t) && t.valueType != null ==> DeeperThan(t, t.valueType))
  }

  ghost predicate DeeperThan(t: Type, part: Type) {
    part.depth < t.depth
  }

  lemma {:induction false} PartsOfHas(ts: seq<Type>, i: nat)
    requires i < |ts|
    ensures Parts(ts[i]) <= PartsOf(ts)
    decreases |ts|
  {
    if i < |ts| - 1 {
      PartsOfHas(ts[..|ts| - 1], i);
    }
  }

  lemma {:induction false} PartsOfPrefix(ts: seq<Type>, i: nat)
    requires i <= |ts|
    ensures PartsOf(ts[..i]) <= PartsOf(ts)
    decreases |ts|
  {
    if i < |ts| {
      PartsOfPrefix(ts[..|ts| - 1], i);
      assert ts[..|ts| - 1][..i] == ts[..i];
    } else {
      assert ts[..i] == ts;
    }
  }

  lemma TargetIsTyped(f: Thrift, td: Alias)
    requires td in f.typedefs
    ensures td.target in TypesOf(f)
  {
    var i :| 0 <= i < |f.typedefs| && f.typedefs[i] == td;
    assert Roots(f)[i] == td.target;
    PartsOfHas(Roots(f), i);
  }

  lemma {:induction false} PartsOfParts(t: Type, u: Type)
    requires u in Parts(t) && Finite(u)
    ensures u.name == "map" && u.keyType != null ==> u.keyType in Parts(t)
    ensures u.name in {"map", "list", "set"} && u.valueType != null ==> u.valueType in Parts(t)
    decreases t.depth
  {
    if u != t {
      if t.name == "map" && t.keyType != null && t.keyType.depth < t.depth && u in Parts(t.keyType) {
        PartsOfParts(t.keyType, u);
      } else {
        PartsOfParts(t.valueType, u);
      }
    }
  }

  lemma {:induction false} PartOfSome(ts: seq<Type>, u: Type) returns (i: nat)
    requires u in PartsOf(ts)
    ensures i < |ts| && u in Parts(ts[i])
    decreases |ts|
  {
    if u in Parts(ts[|ts| - 1]) {
      i := |ts| - 1;
    } else {
      i := PartOfSome(ts[..|ts| - 1], u);
    }
  }

  /** The types of a file are those that aliases stand for, those of constants, fields and
      functions, and with every map, list and set the types of its keys and elements. */
  lemma TypesAreClosed(f: Thrift, u: Type)
    requires Finite(u)
    ensures (exists i :: 0 <= i < |f.typedefs| && f.typedefs[i].target == u) || u in f.types ==> u in TypesOf(f)
    ensures u in TypesOf(f) && u.name == "map" && u.keyType != null ==> u.keyType in TypesOf(f)
    ensures u in TypesOf(f) && u.name in {"map", "list", "set"} && u.valueType != null ==> u.valueType in TypesOf(f)
  {
    hide Parts, PartsOf;
    if i :| 0 <= i < |f.typedefs| && f.typedefs[i].target == u {
      TargetIsTyped(f, f.typedefs[i]);
    }
    if u in f.types {
      var i :| 0 <= i < |f.types| && f.types[i] == u;
      assert Roots(f)[|f.typedefs| + i] == u;
      PartsOfHas(Roots(f), |f.typedefs| + i);
      assert u in Parts(u);
    }
    if u in TypesOf(f) {
      var i := PartOfSome(Roots(f), u);
      PartsOfParts(Roots(f)[i], u);
      PartsOfHas(Roots(f), i);
    }
  }

  // ----- files that resolve -----

  /** A type that can be resolved on its own. */
  predicate Fine(f: Thrift, t: Type) {
    && !Lookup(f, t).Wrong?
    && (t.name == "map" ==> t.keyType != null)
    && (IsContainer(t) ==> t.valueType != null)
  }

  /** Every include is there and resolves, no name is defined twice, every type is defined,
      and every chain of aliases ends. */
  ghost predicate Good(f: Thrift)
    decreases f.rank
  {
    && (forall i :: 0 <= i < |f.includes| ==>
          var g := f.includes[i].reference;
          g != null && g.rank < f.rank && Good(g))
    && Distinct(Definitions(f))
    && forall t :: t in TypesOf(f) ==> Fine(f, t) && Ends(f, t)
  }
}
