/** Resolution of type names: semantic/semantic.go.  `ResolveSymbols` fills in categories,
    eagerly and in place; `Deref` follows aliases when it is asked. */
module Resolver {
  import opened Wrappers
  import opened TypeNames

  datatype Problem =
    | NotParsed(path: string)
    | Duplicate(name: string)
    | BadType(name: string)
    | Unresolvable(names: seq<string>)
    | NoTypedef(name: string)
    | BadReference(index: nat)
    | NotResolved

  datatype Result<T> = Ok(value: T) | Err(problem: Problem)

  /** A type that names a typedef, and where that typedef is. */
  datatype Pending = Pending(ty: Type, ast: Thrift, name: string)

  // ----- what resolution leaves behind -----

  ghost predicate Untouched(t: Type)
    reads t
  {
    !t.isTypedef && t.reference.None?
  }

  function ReferenceOf(m: Meaning): Option<Reference> {
    if m.External? then Some(Reference(m.name, m.index)) else None
  }

  /** The flags say what the name refers to. */
  ghost predicate Flagged(f: Thrift, t: Type)
    reads t
  {
    var m := Lookup(f, t);
    !m.Wrong? && t.isTypedef == m.c.Typedef? && t.reference == ReferenceOf(m)
  }

  /** What ResolveType does to a type. */
  ghost predicate Looked(f: Thrift, t: Type)
    reads t
  {
    Flagged(f, t) && Fine(f, t) && t.category == Lookup(f, t).c
  }

  ghost predicate Tabled(f: Thrift)
    reads f
  {
    f.name2Category == Some(Names(f))
  }

  ghost predicate FreshFile(f: Thrift)
    reads f, TypesOf(f)
  {
    f.name2Category == None && forall t :: t in TypesOf(f) ==> Untouched(t)
  }

  /** Every type of the file holds the category at the end of its chain of aliases. */
  ghost predicate SettledFile(f: Thrift)
    reads f, TypesOf(f)
  {
    && Tabled(f) && Good(f)
    && forall t :: t in TypesOf(f) ==> Flagged(f, t) && Means(f, t, t.category)
  }

  // ----- a set of files -----

  /** The files include one another without a cycle and share no type. */
  ghost predicate World(files: set<Thrift>) {
    && (forall f :: f in files ==> Proper(f))
    && (forall f, i :: f in files && 0 <= i < |f.includes| && f.includes[i].reference != null ==>
          f.includes[i].reference in files && f.includes[i].reference.rank < f.rank)
    && (forall f, g :: f in files && g in files && f != g ==> TypesOf(f) !! TypesOf(g))
  }

  ghost predicate Proper(f: Thrift) {
    OnlyAliasesAreTypedefs(f) && forall t :: t in TypesOf(f) ==> Finite(t)
  }

  ghost function Below(files: set<Thrift>, k: nat): set<object> {
    (set f: Thrift | f in files && f.rank < k) + (set f: Thrift, t: Type | f in files && f.rank < k && t in TypesOf(f) :: t)
  }

  ghost predicate IncludesSettled(f: Thrift)
    reads set i | 0 <= i < |f.includes| :: f.includes[i].reference
    reads set i, t | 0 <= i < |f.includes| && f.includes[i].reference != null && t in TypesOf(f.includes[i].reference) :: t
  {
    forall i :: 0 <= i < |f.includes| ==> f.includes[i].reference != null && SettledFile(f.includes[i].reference)
  }

  /** The tables that looking up a name needs. */
  ghost predicate Named(f: Thrift)
    reads f, set i | 0 <= i < |f.includes| :: f.includes[i].reference
  {
    && Tabled(f)
    && forall i :: 0 <= i < |f.includes| ==> f.includes[i].reference != null && Tabled(f.includes[i].reference)
  }

  /** A file is resolved or has not been touched. */
  ghost predicate FileState(f: Thrift, settled: set<Thrift>)
    reads f, TypesOf(f)
  {
    if f in settled then SettledFile(f) else FreshFile(f)
  }

  /** The state of the files below a rank. */
  ghost predicate State(files: set<Thrift>, settled: set<Thrift>, k: nat)
    reads files, set f, t | f in files && t in TypesOf(f) :: t
  {
    forall f :: f in files && f.rank < k ==> FileState(f, settled)
  }

  /** What a resolved file includes is resolved. */
  ghost predicate Closed(settled: set<Thrift>) {
    forall f, i :: f in settled && 0 <= i < |f.includes| ==>
      f.includes[i].reference != null && f.includes[i].reference in settled
  }

  /** The types of files that differ are out of one another's reach. */
  lemma Outside(files: set<Thrift>, g: Thrift, f: Thrift)
    requires World(files) && g in files && f in files && f != g && g.rank <= f.rank
    ensures f !in Below(files, g.rank) && TypesOf(f) !! Below(files, g.rank) && TypesOf(f) !! TypesOf(g)
  {
  }

  // ----- pending typedefs -----

  predicate IsAlias(f: Thrift, t: Type) {
    !Lookup(f, t).Wrong? && Lookup(f, t).c.Typedef?
  }

  ghost predicate Right(f: Thrift, p: Pending) {
    p.ty in TypesOf(f) && IsAlias(f, p.ty) && Definer(f, p.ty) == (p.ast, p.name)
  }

  ghost predicate AllRight(f: Thrift, ps: seq<Pending>) {
    forall i :: 0 <= i < |ps| ==> Right(f, ps[i])
  }

  predicate Listed(t: Type, ps: seq<Pending>) {
    exists i :: 0 <= i < |ps| && ps[i].ty == t
  }

  lemma ListedMore(t: Type, ps: seq<Pending>, qs: seq<Pending>)
    requires Listed(t, ps) && ps <= qs
    ensures Listed(t, qs)
  {
    var i :| 0 <= i < |ps| && ps[i].ty == t;
    assert qs[i] == ps[i];
  }

  /** What is known once the types in `s` are looked up. */
  ghost predicate Done(f: Thrift, s: set<Type>, ps: seq<Pending>)
    reads s
  {
    forall t :: t in s ==> Looked(f, t) && (IsAlias(f, t) ==> Listed(t, ps))
  }

  ghost predicate AllFine(f: Thrift, s: set<Type>) {
    forall t :: t in s ==> Fine(f, t)
  }

  ghost predicate MayLook(f: Thrift, s: set<Type>)
    reads s
  {
    forall t :: t in s ==> Untouched(t) || Looked(f, t)
  }

  ghost predicate AllFinite(s: set<Type>) {
    forall t :: t in s ==> Finite(t)
  }

  lemma BaseIsAlone(f: Thrift, t: Type)
    requires t.name in BaseNames
    ensures Parts(t) == {t} && Lookup(f, t) == Plain(BaseNames[t.name]) && !BaseNames[t.name].Typedef? && Fine(f, t)
  {
  }

  lemma ContainerMeaning(f: Thrift, t: Type)
    requires t.name in ContainerNames
    ensures Lookup(f, t) == Plain(ContainerNames[t.name]) && !ContainerNames[t.name].Typedef?
  {
  }

  lemma NameIsAlone(t: Type)
    requires t.name !in ContainerNames
    ensures Parts(t) == {t}
  {
  }

  lemma NameMeaning(f: Thrift, t: Type)
    requires t.name !in BaseNames && t.name !in ContainerNames
    ensures var parts := SplitType(t.name);
            && Lookup(f, t) == (if |parts| == 1 then LookupLocal(f, parts[0])
                                else if |parts| == 2 then LookupExternal(f, parts[0], parts[1]) else Wrong)
            && Fine(f, t) == !Lookup(f, t).Wrong?
  {
  }

  lemma ContainerDone(f: Thrift, t: Type, keys: set<Type>, ps: seq<Pending>, qs: seq<Pending>)
    requires t.name in ContainerNames && t.valueType != null && ps <= qs
    requires Parts(t) == {t} + keys + Parts(t.valueType) && Looked(f, t)
    requires forall u :: u in keys && u !in Parts(t.valueType) ==> Looked(f, u) && (IsAlias(f, u) ==> Listed(u, ps))
    requires Done(f, Parts(t.valueType), qs)
    ensures Done(f, Parts(t), qs)
  {
    hide Looked, IsAlias;
    forall u | u in keys && u !in Parts(t.valueType) && IsAlias(f, u)
      ensures Listed(u, qs)
    {
      ListedMore(u, ps, qs);
    }
    PlainIsNoAlias(f, t);
  }

  lemma PlainIsNoAlias(f: Thrift, t: Type)
    requires t.name in ContainerNames
    ensures !IsAlias(f, t)
  {
    ContainerMeaning(f, t);
  }

  // ----- following aliases in place -----

  /** While aliases are followed, a type that is no longer a typedef is done. */
  ghost predicate Chased(f: Thrift, t: Type)
    reads t
  {
    && Flagged(f, t) && Fine(f, t)
    && if t.category.Typedef? then IsAlias(f, t) else Means(f, t, t.category)
  }

  ghost predicate Chasing(f: Thrift)
    reads TypesOf(f)
  {
    forall t :: t in TypesOf(f) ==> Chased(f, t)
  }

  /** Everything that is still a typedef is listed. */
  ghost predicate Covered(f: Thrift, ps: seq<Pending>)
    reads TypesOf(f)
  {
    forall t :: t in TypesOf(f) && t.category.Typedef? ==> Listed(t, ps)
  }

  /** The files that a file includes are done and hold other types. */
  ghost predicate Around(f: Thrift)
    reads set i | 0 <= i < |f.includes| :: f.includes[i].reference
    reads set i, t | 0 <= i < |f.includes| && f.includes[i].reference != null && t in TypesOf(f.includes[i].reference) :: t
  {
    && IncludesSettled(f) && OnlyAliasesAreTypedefs(f)
    && forall i :: 0 <= i < |f.includes| ==>
         && f.includes[i].reference.rank < f.rank
         && OnlyAliasesAreTypedefs(f.includes[i].reference) && TypesOf(f.includes[i].reference) !! TypesOf(f)
  }

  /** The type that a pending alias stands for. */
  function Aim(p: Pending): Type
    requires FindTypedef(p.ast.typedefs, p.name).Some?
  {
    FindTypedef(p.ast.typedefs, p.name).value.target
  }

  lemma RightHasTarget(f: Thrift, p: Pending)
    requires Around(f) && Right(f, p)
    ensures FindTypedef(p.ast.typedefs, p.name).Some?
    ensures Target(f, p.ty) == Some((p.ast, Aim(p)))
    ensures Aim(p) in TypesOf(p.ast)
    ensures p.ast == f || SettledFile(p.ast)
  {
    TypedefIsFound(p.ast, p.name);
    TargetIsTyped(p.ast, FindTypedef(p.ast.typedefs, p.name).value);
  }

  /** A type that an alias stands for is itself a typedef of this file, or is done. */
  lemma AimIsKnown(f: Thrift, p: Pending)
    requires Around(f) && Right(f, p) && Chasing(f)
    ensures FindTypedef(p.ast.typedefs, p.name).Some?
    ensures if Aim(p).category.Typedef? then Aim(p) in TypesOf(f) && p.ast == f
            else Means(f, p.ty, Aim(p).category)
  {
    RightHasTarget(f, p);
    var u := Aim(p);
    if p.ast != f {
      MeansOne(p.ast, u, u.category, u.category);
    }
    if !u.category.Typedef? {
      assert p.ast == f ==> Chased(f, u);
      MeansStep(f, p.ty, p.ast, u, u.category);
    }
  }

  /** Aliases that only stand for one another do not end. */
  lemma Hopeless(f: Thrift, ps: seq<Pending>, t: Type)
    requires Around(f) && Chasing(f) && AllRight(f, ps) && Covered(f, ps)
    requires AllWait(f, ps, |ps|)
    requires t in TypesOf(f) && t.category.Typedef?
    ensures !Ends(f, t)
  {
    var stuck := set u | u in TypesOf(f) && u.category.Typedef?;
    forall u | u in stuck
      ensures Target(f, u).Some? && Target(f, u).value.0 == f && Target(f, u).value.1 in stuck
    {
      var i :| 0 <= i < |ps| && ps[i].ty == u;
      RightHasTarget(f, ps[i]);
      AimIsKnown(f, ps[i]);
    }
    forall n: nat
      ensures EndWithin(f, t, n).None?
    {
      Circular(f, stuck, t, n);
    }
  }

  /** A pending alias that stands for a pending typedef of the same file. */
  ghost predicate Waits(f: Thrift, p: Pending)
    reads p.ty, TypesOf(f)
  {
    p.ty.category.Typedef? && FindTypedef(p.ast.typedefs, p.name).Some? && Aim(p) in TypesOf(f) && Aim(p).category.Typedef?
  }

  ghost predicate AllWait(f: Thrift, ps: seq<Pending>, k: nat)
    requires k <= |ps|
    reads TypesOf(f), set i | 0 <= i < |ps| :: ps[i].ty
  {
    forall i :: 0 <= i < k ==> Waits(f, ps[i])
  }

  lemma NoneWait(f: Thrift, ps: seq<Pending>)
    ensures AllWait(f, ps, 0)
  {
  }

  /** Everything that is still a typedef is kept for the next pass or is yet to come. */
  ghost predicate Kept(f: Thrift, tmp: seq<Pending>, tds: seq<Pending>, i: nat)
    requires i <= |tds|
    reads TypesOf(f)
  {
    forall t :: t in TypesOf(f) && t.category.Typedef? ==> Listed(t, tmp) || Listed(t, tds[i..])
  }

  lemma ListedNext(t: Type, ps: seq<Pending>, i: nat)
    requires i < |ps| && Listed(t, ps[i..])
    ensures ps[i].ty == t || Listed(t, ps[i + 1..])
  {
    var j :| 0 <= j < |ps[i..]| && ps[i..][j].ty == t;
    if j > 0 {
      assert ps[i + 1..][j - 1].ty == t;
    }
  }

  lemma KeptNext(f: Thrift, tmp: seq<Pending>, tds: seq<Pending>, i: nat)
    requires i < |tds| && Kept(f, tmp, tds, i)
    ensures !tds[i].ty.category.Typedef? ==> Kept(f, tmp, tds, i + 1)
    ensures Kept(f, tmp + [tds[i]], tds, i + 1)
  {
    assert (tmp + [tds[i]])[|tmp|].ty == tds[i].ty;
    forall t | t in TypesOf(f) && t.category.Typedef?
      ensures Listed(t, tmp) || tds[i].ty == t || Listed(t, tds[i + 1..])
      ensures Listed(t, tmp) ==> Listed(t, tmp + [tds[i]])
    {
      if Listed(t, tmp) {
        ListedMore(t, tmp, tmp + [tds[i]]);
      } else {
        ListedNext(t, tds, i);
      }
    }
  }

  lemma KeptEnds(f: Thrift, tmp: seq<Pending>, tds: seq<Pending>)
    ensures AllRight(f, [])
    ensures Covered(f, tds) ==> Kept(f, [], tds, 0)
    ensures Kept(f, tmp, tds, |tds|) ==> Covered(f, tmp)
  {
    assert tds[0..] == tds;
  }

  lemma RightOne(f: Thrift, ps: seq<Pending>, i: nat, qs: seq<Pending>)
    requires AllRight(f, ps) && i < |ps| && AllRight(f, qs)
    ensures Right(f, ps[i]) && ps[i].ty in TypesOf(f) && AllRight(f, qs + [ps[i]]) && AllRight(f, [])
  {
  }

  lemma IsApart(f: Thrift, t: Type)
    requires Around(f) && t in TypesOf(f)
    ensures forall i :: 0 <= i < |f.includes| ==> t !in TypesOf(f.includes[i].reference)
  {
    forall i | 0 <= i < |f.includes|
      ensures t !in TypesOf(f.includes[i].reference)
    {
      assert TypesOf(f.includes[i].reference) !! TypesOf(f);
    }
  }

  lemma NothingPending(f: Thrift, ps: seq<Pending>)
    requires Chasing(f) && Covered(f, ps) && ps == []
    ensures forall t :: t in TypesOf(f) ==> Means(f, t, t.category) && Ends(f, t)
  {
    forall t | t in TypesOf(f)
      ensures Means(f, t, t.category) && Ends(f, t)
    {
      assert Chased(f, t);
      MeansOne(f, t, t.category, t.category);
    }
  }

  lemma RegisterNext(ds: seq<(string, Category)>, i: nat)
    requires i < |ds| && Distinct(ds[..i])
    ensures Table(ds[..i + 1]) == Table(ds[..i])[ds[i].0 := ds[i].1]
    ensures if ds[i].0 in Table(ds[..i]) then !Distinct(ds) else Distinct(ds[..i + 1])
  {
    assert ds[..i + 1][..i] == ds[..i];
    TableHas(ds[..i], ds[i].0);
    if ds[i].0 in Table(ds[..i]) {
      var j :| 0 <= j < i && ds[..i][j].0 == ds[i].0;
      assert ds[j].0 == ds[i].0;
    }
  }

  lemma PartsOfNext(ts: seq<Type>, i: nat)
    requires i < |ts|
    ensures PartsOf(ts[..i + 1]) == PartsOf(ts[..i]) + Parts(ts[i])
  {
    assert ts[..i + 1][..i] == ts[..i];
  }

  /** The typedef of a file with a given name. */
  method GetTypedef(f: Thrift, alias: string) returns (td: Option<Alias>)
    ensures td == FindTypedef(f.typedefs, alias)
  {
    assert f.typedefs[0..] == f.typedefs;
    for i := 0 to |f.typedefs|
      invariant FindTypedef(f.typedefs, alias) == FindTypedef(f.typedefs[i..], alias)
    {
      assert f.typedefs[i..][1..] == f.typedefs[i + 1..];
      if f.typedefs[i].alias == alias {
        return Some(f.typedefs[i]);
      }
    }
    td := None;
  }

  class Resolver {
    const ast: Thrift
    var typedefs: seq<Pending>

    constructor (ast: Thrift)
      ensures this.ast == ast && typedefs == []
    {
      this.ast, typedefs := ast, [];
    }

    /** Looks up a type with all its parts.  It succeeds exactly when they are all defined,
        and lists every typedef among them. */
    method ResolveType(t: Type) returns (err: Option<Problem>)
      requires Named(ast) && Parts(t) <= TypesOf(ast)
      requires AllFinite(Parts(t)) && MayLook(ast, Parts(t)) && AllRight(ast, typedefs)
      modifies this`typedefs, Parts(t)
      ensures old(typedefs) <= typedefs && AllRight(ast, typedefs)
      ensures err.None? <==> AllFine(ast, Parts(t))
      ensures err.None? ==> Done(ast, Parts(t), typedefs)
      decreases t.depth, 1
    {
      hide Lookup, SplitType;
      hide BaseNames, ContainerNames;
      if t.name in BaseNames {
        t.category := BaseNames[t.name];
        BaseIsAlone(ast, t);
        return None;
      }
      if t.name in ContainerNames {
        ContainerMeaning(ast, t);
        t.category := ContainerNames[t.name];
        err := ResolveParts(t, Parts(t));
        return;
      }
      NameIsAlone(t);
      err := ResolveName(t);
    }

    /** Looks up the parts of a container. */
    method ResolveParts(t: Type, ghost all: set<Type>) returns (err: Option<Problem>)
      requires Named(ast) && all == Parts(t) && all <= TypesOf(ast) && t.name in ContainerNames
      requires AllFinite(all) && MayLook(ast, all) && AllRight(ast, typedefs)
      requires Flagged(ast, t) && t.category == Lookup(ast, t).c
      modifies this`typedefs, all
      ensures old(typedefs) <= typedefs && AllRight(ast, typedefs)
      ensures err.None? <==> AllFine(ast, all)
      ensures err.None? ==> Done(ast, all, typedefs)
      decreases t.depth, 0
    {
      hide Lookup, SplitType, Flagged;
      hide BaseNames, ContainerNames;
      ContainerMeaning(ast, t);
      ghost var keys: set<Type> := {};
      if t.name == "map" {
        if t.keyType == null {
          return Some(BadType(t.name));
        }
        err := ResolveType(t.keyType);
        if err.Some? {
          return;
        }
        keys := Parts(t.keyType);
      }
      if t.valueType == null {
        return Some(BadType(t.name));
      }
      forall u | u in Parts(t.valueType)
        ensures Untouched(u) || Looked(ast, u)
      {
        assert u in all && old(Untouched(u) || Looked(ast, u));
        assert u !in keys ==> unchanged(u);
      }
      ghost var listed := typedefs;
      err := ResolveType(t.valueType);
      if err.None? {
        ContainerDone(ast, t, keys, listed, typedefs);
      }
    }

    /** Looks up a name that is defined in a file. */
    method ResolveName(t: Type) returns (err: Option<Problem>)
      requires Named(ast) && t in TypesOf(ast) && t.name !in BaseNames && t.name !in ContainerNames
      requires (Untouched(t) || Looked(ast, t)) && AllRight(ast, typedefs)
      modifies this`typedefs, t
      ensures old(typedefs) <= typedefs && AllRight(ast, typedefs)
      ensures err.None? <==> Fine(ast, t)
      ensures err.None? ==> Looked(ast, t) && (IsAlias(ast, t) ==> Listed(t, typedefs))
      decreases t.depth, 0
    {
      hide Lookup, SplitType;
      hide BaseNames, ContainerNames;
      var parts := SplitType(t.name);
      NameMeaning(ast, t);
      if |parts| == 1 {
        err := ResolveLocal(t, parts[0]);
      } else if |parts| == 2 {
        err := ResolveExternal(t, parts[0], parts[1]);
      } else {
        err := Some(BadType(t.name));
      }
    }

    method ResolveLocal(t: Type, name: string) returns (err: Option<Problem>)
      requires Named(ast) && t in TypesOf(ast) && t.name == name
      requires Lookup(ast, t) == LookupLocal(ast, name) && Fine(ast, t) == !Lookup(ast, t).Wrong?
      requires (Untouched(t) || Looked(ast, t)) && AllRight(ast, typedefs)
      modifies this`typedefs, t
      ensures old(typedefs) <= typedefs && AllRight(ast, typedefs)
      ensures err.None? <==> Fine(ast, t)
      ensures err.None? ==> Looked(ast, t) && (IsAlias(ast, t) ==> Listed(t, typedefs))
    {
      hide Lookup, Names;
      hide Fine;
      var table := ast.name2Category.value;
      if name !in table || !IsTypeName(table[name]) {
        return Some(BadType(t.name));
      }
      Refer(t, table[name], ast, name);
      err := None;
    }

    method ResolveExternal(t: Type, prefix: string, name: string) returns (err: Option<Problem>)
      requires Named(ast) && t in TypesOf(ast)
      requires Lookup(ast, t) == LookupExternal(ast, prefix, name) && Fine(ast, t) == !Lookup(ast, t).Wrong?
      requires (Untouched(t) || Looked(ast, t)) && AllRight(ast, typedefs)
      modifies this`typedefs, t
      ensures old(typedefs) <= typedefs && AllRight(ast, typedefs)
      ensures err.None? <==> Fine(ast, t)
      ensures err.None? ==> Looked(ast, t) && (IsAlias(ast, t) ==> Listed(t, typedefs))
    {
      hide Lookup, Names;
      hide Fine;
      var i := 0;
      while i < |ast.includes| && !Offered(ast.includes[i], prefix, name)
        invariant 0 <= i <= |ast.includes|
        invariant forall j :: 0 <= j < i ==> !Offers(ast.includes[j], prefix, name)
      {
        i := i + 1;
      }
      assert i == FirstOffer(ast.includes, prefix, name);
      if i == |ast.includes| {
        return if t.reference.None? then Some(BadType(t.name)) else None;
      }
      var g := ast.includes[i].reference;
      Refer(t, g.name2Category.value[name], g, name);
      t.reference := Some(Reference(name, i));
      err := None;
    }

    /** Takes over the category of a definition, and notes a typedef. */
    method Refer(t: Type, c: Category, g: Thrift, name: string)
      modifies this`typedefs, t`category, t`isTypedef
      ensures t.category == c && t.isTypedef == (old(t.isTypedef) || c.Typedef?)
      ensures typedefs == if c.Typedef? then old(typedefs) + [Pending(t, g, name)] else old(typedefs)
      ensures c.Typedef? ==> Listed(t, typedefs)
    {
      if c.Typedef? {
        typedefs := typedefs + [Pending(t, g, name)];
        t.isTypedef := true;
        assert typedefs[|typedefs| - 1].ty == t;
      }
      t.category := c;
    }

    /** Whether an included file defines the name as a type. */
    predicate Offered(inc: Include, prefix: string, name: string)
      requires inc.reference != null && Tabled(inc.reference)
      reads inc.reference
    {
      && inc.prefix == prefix
      && name in inc.reference.name2Category.value && IsTypeName(inc.reference.name2Category.value[name])
    }

    /** Takes over the category of what an alias stands for, once that is known. */
    method ResolveTypedef(p: Pending) returns (err: Option<Problem>)
      modifies p.ty`category
      ensures err.None? <==> FindTypedef(p.ast.typedefs, p.name).Some?
      ensures err.None? ==>
                p.ty.category == if old(Aim(p).category).Typedef? then old(p.ty.category) else old(Aim(p).category)
      ensures err.Some? ==> p.ty.category == old(p.ty.category)
    {
      var td := GetTypedef(p.ast, p.name);
      if td.None? {
        return Some(NoTypedef(p.name));
      }
      if !td.value.target.category.Typedef? {
        p.ty.category := td.value.target.category;
      }
      err := None;
    }

    /** One pending typedef. */
    method Follow(p: Pending, ghost all: set<Type>, ghost tds: seq<Pending>, ghost i: nat) returns (err: Option<Problem>)
      requires i < |tds| && p == tds[i]
      requires all == TypesOf(ast) && Around(ast) && Chasing(ast) && Right(ast, p)
      modifies p.ty`category
      ensures err.None? && Around(ast) && Chasing(ast)
      ensures forall t :: t in all && t.category.Typedef? ==> old(t.category).Typedef?
      ensures p.ty.category.Typedef? && old(AllWait(ast, tds, i)) ==> AllWait(ast, tds, i + 1)
    {
      hide Means, Ends, Fine, Lookup;
      hide Good;
      IsApart(ast, p.ty);
      AimIsKnown(ast, p);
      assert p.ty in TypesOf(ast) && Chased(ast, p.ty);
      assert forall i :: 0 <= i < |ast.includes| ==> allocated(TypesOf(ast.includes[i].reference));
      ghost var c := Aim(p).category;
      err := ResolveTypedef(p);
      forall i | 0 <= i < |ast.includes|
        ensures SettledFile(ast.includes[i].reference)
      {
        assert old(SettledFile(ast.includes[i].reference));
        assert p.ty !in TypesOf(ast.includes[i].reference);
      }
      assert Chased(ast, p.ty);
      forall t | t in all
        ensures Chased(ast, t)
      {
        assert t != p.ty ==> unchanged(t);
        assert old(Chased(ast, t));
      }
    }

    /** Goes once through the pending typedefs.  What one of them finds is visible to the
        ones after it.  When all of them stay pending, none has anything to wait for. */
    method Pass(tds: seq<Pending>) returns (err: Option<Problem>, tmp: seq<Pending>)
      requires Around(ast) && Chasing(ast) && AllRight(ast, tds) && Covered(ast, tds)
      modifies TypesOf(ast)
      ensures err.None?
      ensures Around(ast) && Chasing(ast) && AllRight(ast, tmp) && Covered(ast, tmp)
      ensures |tmp| <= |tds|
      ensures |tmp| == |tds| ==> tmp == tds && AllWait(ast, tds, |tds|)
    {
      hide Around, Chasing, Right, AllRight, Covered, AllWait, Waits;
      assert allocated(TypesOf(ast));
      NoneWait(ast, tds);
      tmp := [];
      KeptEnds(ast, tmp, tds);
      for i := 0 to |tds|
        invariant Around(ast) && Chasing(ast) && AllRight(ast, tmp) && Kept(ast, tmp, tds, i)
        invariant |tmp| <= i
        invariant |tmp| == i ==> tmp == tds[..i] && AllWait(ast, tds, i)
      {
        var t := tds[i];
        RightOne(ast, tds, i, tmp);
        err := Follow(t, TypesOf(ast), tds, i);
        if err.Some? {
          return;
        }
        KeptNext(ast, tmp, tds, i);
        if t.ty.category.Typedef? {
          tmp := tmp + [t];
        }
      }
      KeptEnds(ast, tmp, tds);
      assert tds[..|tds|] == tds;
      err := None;
    }

    /** Follows all aliases.  Every pass that is not the last leaves fewer typedefs pending;
        it fails exactly when some chain of aliases does not end. */
    method ResolveTypedefs() returns (err: Option<Problem>)
      requires Around(ast) && Chasing(ast) && AllRight(ast, typedefs) && Covered(ast, typedefs)
      modifies TypesOf(ast)
      ensures Around(ast) && Chasing(ast)
      ensures err.None? <==> forall t :: t in TypesOf(ast) ==> Ends(ast, t)
      ensures err.None? ==> forall t :: t in TypesOf(ast) ==> Means(ast, t, t.category)
    {
      hide Around, Means, Ends;
      var tds := typedefs;
      var cnt := |tds|;
      while |tds| > 0
        invariant Around(ast) && Chasing(ast) && AllRight(ast, tds) && Covered(ast, tds)
        invariant cnt == |tds|
        decreases |tds|
      {
        var tmp;
        err, tmp := Pass(tds);
        if err.Some? {
          return;
        }
        if |tmp| == cnt {
          Hopeless(ast, tds, tds[0].ty);
          return Some(Unresolvable(TypeNamesOf(tmp)));
        }
        tds := tmp;
        cnt := |tds|;
      }
      NothingPending(ast, tds);
      err := None;
    }

    method AddName(name: string, c: Category) returns (err: Option<Problem>)
      requires ast.name2Category.Some?
      modifies ast`name2Category
      ensures ast.name2Category.Some?
      ensures err.Some? <==> name in old(ast.name2Category.value)
      ensures ast.name2Category.value == if err.Some? then old(ast.name2Category.value) else old(ast.name2Category.value)[name := c]
    {
      if name in ast.name2Category.value {
        return Some(Duplicate(name));
      }
      ast.name2Category := Some(ast.name2Category.value[name := c]);
      err := None;
    }

    /** Registers every definition; it fails exactly when a name is defined twice. */
    method RegisterNames() returns (err: Option<Problem>)
      requires ast.name2Category == Some(map[])
      modifies ast`name2Category
      ensures err.None? <==> Distinct(Definitions(ast))
      ensures err.None? ==> Tabled(ast)
    {
      var ds := Definitions(ast);
      assert ds[..0] == [];
      for i := 0 to |ds|
        invariant ast.name2Category == Some(Table(ds[..i])) && Distinct(ds[..i])
      {
        RegisterNext(ds, i);
        err := AddName(ds[i].0, ds[i].1);
        if err.Some? {
          return;
        }
      }
      assert ds[..|ds|] == ds;
      err := None;
    }

    /** Looks up the types of the file in order. */
    method ResolveTypes(ghost all: set<Type>) returns (err: Option<Problem>)
      requires Named(ast) && all == TypesOf(ast) && AllFinite(all) && MayLook(ast, all)
      requires typedefs == []
      modifies this`typedefs, all
      ensures AllRight(ast, typedefs)
      ensures err.None? <==> AllFine(ast, all)
      ensures err.None? ==> Done(ast, all, typedefs)
    {
      hide Looked, Parts, Fine, Finite, IsAlias, Lookup;
      var ts := Roots(ast);
      assert ts[..0] == [];
      for i := 0 to |ts|
        invariant AllRight(ast, typedefs) && MayLook(ast, all)
        invariant Done(ast, PartsOf(ts[..i]), typedefs) && AllFine(ast, PartsOf(ts[..i]))
      {
        err := ResolveNext(ts, i, all);
        if err.Some? {
          return;
        }
      }
      assert ts[..|ts|] == ts;
      err := None;
    }

    method ResolveNext(ts: seq<Type>, i: nat, ghost all: set<Type>) returns (err: Option<Problem>)
      requires i < |ts| && Named(ast) && all == TypesOf(ast) == PartsOf(ts) && AllFinite(all) && MayLook(ast, all)
      requires AllRight(ast, typedefs)
      requires Done(ast, PartsOf(ts[..i]), typedefs) && AllFine(ast, PartsOf(ts[..i]))
      modifies this`typedefs, all
      ensures AllRight(ast, typedefs)
      ensures err.Some? ==> !AllFine(ast, all)
      ensures err.None? ==> Named(ast) && MayLook(ast, all)
      ensures err.None? ==> Done(ast, PartsOf(ts[..i + 1]), typedefs) && AllFine(ast, PartsOf(ts[..i + 1]))
    {
      hide Looked, Parts, Fine, Finite, IsAlias, Lookup;
      PartsOfHas(ts, i);
      PartsOfPrefix(ts, i);
      PartsOfNext(ts, i);
      ghost var listed := typedefs;
      err := ResolveType(ts[i]);
      if err.None? {
        forall u | u in all && u !in Parts(ts[i])
          ensures Untouched(u) || Looked(ast, u)
          ensures u in PartsOf(ts[..i]) ==> Looked(ast, u) && (IsAlias(ast, u) ==> Listed(u, typedefs))
        {
          assert unchanged(u) && old(Untouched(u) || Looked(ast, u));
          if u in PartsOf(ts[..i]) && IsAlias(ast, u) {
            ListedMore(u, listed, typedefs);
          }
        }
      }
    }

    function TypeNamesOf(ps: seq<Pending>): seq<string> {
      if ps == [] then [] else [ps[0].ty.name] + TypeNamesOf(ps[1..])
    }

    /** Resolves the files that this file includes. */
    method ResolveIncludes(ghost files: set<Thrift>, ghost settled: set<Thrift>)
      returns (err: Option<Problem>, ghost settled': set<Thrift>)
      requires World(files) && ast in files && ast !in settled && Closed(settled) && State(files, settled, ast.rank)
      modifies Below(files, ast.rank)
      ensures err.Some? ==> !Good(ast)
      ensures err.None? ==> Grown(settled, settled', Under(files, ast.rank)) && State(files, settled', ast.rank)
      ensures err.None? ==> forall i :: 0 <= i < |ast.includes| ==>
                              ast.includes[i].reference != null && ast.includes[i].reference in settled'
      decreases ast.rank, 1
    {
      hide *;
      settled' := settled;
      GrownSelf(settled, Under(files, ast.rank));
      for i := 0 to |ast.includes|
        invariant Closed(settled') && Grown(settled, settled', Under(files, ast.rank)) && State(files, settled', ast.rank)
        invariant forall j :: 0 <= j < i ==> ast.includes[j].reference != null && ast.includes[j].reference in settled'
      {
        var g := ast.includes[i].reference;
        if g == null {
          NotGood(ast, i);
          return Some(NotParsed(ast.includes[i].path)), settled';
        }
        ghost var more;
        err, more := ResolveInclude(g, i, files, settled');
        if err.Some? {
          return;
        }
        GrownMore(settled, settled', more, Under(files, ast.rank));
        settled' := more;
      }
      err := None;
    }

    method ResolveInclude(g: Thrift, i: nat, ghost files: set<Thrift>, ghost settled: set<Thrift>)
      returns (err: Option<Problem>, ghost settled': set<Thrift>)
      requires World(files) && ast in files && Closed(settled) && State(files, settled, ast.rank)
      requires i < |ast.includes| && ast.includes[i].reference == g
      modifies Below(files, ast.rank)
      ensures err.Some? ==> !Good(ast)
      ensures err.None? ==> Grown(settled, settled', Under(files, ast.rank)) && State(files, settled', ast.rank) && g in settled'
      decreases ast.rank, 0
    {
      hide SettledFile, FreshFile, World, Grown, Under, Closed, Good;
      IsIncluded(files, ast, i);
      err, settled' := ResolveSymbols(g, files, settled);
      if err.Some? {
        NotGood(ast, i);
        return;
      }
      GrownUnder(settled, settled', files, g, ast.rank);
      GrownKeeps(settled, settled', Under(files, g.rank) + {g});
      forall f | f in files && f.rank < ast.rank
        ensures FileState(f, settled')
      {
        if g.rank <= f.rank && f != g {
          Outside(files, g, f);
          assert old(FileState(f, settled));
          assert old(allocated(TypesOf(f)));
        }
      }
    }

    /** Checks and resolves the file.  It fails exactly when something that the file needs is
        missing, defined twice or circular. */
    method ResolveAST(ghost files: set<Thrift>, ghost settled: set<Thrift>)
      returns (err: Option<Problem>, ghost settled': set<Thrift>)
      requires World(files) && ast in files && Closed(settled) && State(files, settled, ast.rank)
      requires ast !in settled && Waiting(ast) && typedefs == []
      modifies this, ast, TypesOf(ast), Below(files, ast.rank)
      ensures err.None? <==> Good(ast)
      ensures err.None? ==> Grown(settled, settled', Under(files, ast.rank) + {ast}) && State(files, settled', ast.rank)
      ensures err.None? ==> SettledFile(ast) && ast in settled'
      decreases ast.rank, 2
    {
      hide SettledFile, FreshFile, Good, Waiting, Closed;
      IsElsewhere(files, ast);
      assert allocated(TypesOf(ast));
      err, settled' := ResolveIncludes(files, settled);
      if err.Some? {
        return;
      }
      Surrounded(files, settled', ast);
      label Own:
      err := ResolveOwn(TypesOf(ast));
      if err.Some? {
        NotGoodItself(ast);
        return;
      }
      forall f | f in files && f.rank < ast.rank
        ensures FileState(f, settled')
      {
        assert old@Own(FileState(f, settled'));
        assert old@Own(allocated(TypesOf(f)));
      }
      NowSettled(ast);
      GrownWith(settled, settled', Under(files, ast.rank), ast);
      settled' := settled' + {ast};
    }

    /** Resolves what the file itself defines. */
    method ResolveOwn(ghost all: set<Type>) returns (err: Option<Problem>)
      requires Around(ast) && Proper(ast) && Waiting(ast) && all == TypesOf(ast) && typedefs == []
      modifies this, ast, all
      ensures err.None? <==> Distinct(Definitions(ast)) && forall t :: t in all ==> Fine(ast, t) && Ends(ast, t)
      ensures err.None? ==> Tabled(ast) && forall t :: t in all ==> Flagged(ast, t) && Means(ast, t, t.category)
    {
      hide Lookup, Good, Ends, Means, Flagged, Looked, Fine, Distinct;
      assert forall i :: 0 <= i < |ast.includes| ==> allocated(TypesOf(ast.includes[i].reference));
      err := RegisterNames();
      if err.Some? {
        return;
      }
      TablesAreThere(ast);
      err := ResolveTypes(all);
      if err.Some? {
        return;
      }
      StartChasing(ast, typedefs);
      err := ResolveTypedefs();
    }
  }

  /** The tables are empty and the types are as they were parsed. */
  ghost predicate Waiting(f: Thrift)
    reads f, TypesOf(f)
  {
    f.name2Category == Some(map[]) && forall t :: t in TypesOf(f) ==> Untouched(t)
  }

  ghost function Under(files: set<Thrift>, k: nat): set<Thrift> {
    set f | f in files && f.rank < k
  }

  /** More files are resolved, all of them among `more`. */
  ghost predicate Grown(settled: set<Thrift>, settled': set<Thrift>, more: set<Thrift>) {
    settled <= settled' <= settled + more && Closed(settled')
  }

  lemma GrownSelf(settled: set<Thrift>, more: set<Thrift>)
    requires Closed(settled)
    ensures Grown(settled, settled, more)
  {
  }

  lemma GrownUnder(a: set<Thrift>, b: set<Thrift>, files: set<Thrift>, g: Thrift, k: nat)
    requires Grown(a, b, Under(files, g.rank) + {g}) && g in files && g.rank < k
    ensures Grown(a, b, Under(files, k))
    ensures forall f :: f in b && f !in a && f != g ==> f.rank < g.rank
  {
  }

  lemma GrownKeeps(a: set<Thrift>, b: set<Thrift>, more: set<Thrift>)
    requires Grown(a, b, more)
    ensures a <= b
  {
  }

  lemma GrownMore(a: set<Thrift>, b: set<Thrift>, c: set<Thrift>, more: set<Thrift>)
    requires Grown(a, b, more) && Grown(b, c, more)
    ensures Grown(a, c, more) && b <= c && Closed(c)
  {
  }

  lemma IsIncluded(files: set<Thrift>, ast: Thrift, i: nat)
    requires World(files) && ast in files && i < |ast.includes| && ast.includes[i].reference != null
    ensures ast.includes[i].reference in files && ast.includes[i].reference.rank < ast.rank
  {
  }

  lemma IsElsewhere(files: set<Thrift>, ast: Thrift)
    requires World(files) && ast in files
    ensures ast !in Below(files, ast.rank) && TypesOf(ast) !! Below(files, ast.rank) && Proper(ast)
    ensures forall f :: f in files && f.rank < ast.rank ==> f != ast && TypesOf(f) !! TypesOf(ast)
  {
  }

  lemma Surrounded(files: set<Thrift>, settled: set<Thrift>, ast: Thrift)
    requires World(files) && ast in files && State(files, settled, ast.rank)
    requires forall i :: 0 <= i < |ast.includes| ==>
               ast.includes[i].reference != null && ast.includes[i].reference in settled
    ensures Around(ast)
  {
    hide SettledFile;
    forall i | 0 <= i < |ast.includes|
      ensures SettledFile(ast.includes[i].reference) && Proper(ast.includes[i].reference)
      ensures TypesOf(ast.includes[i].reference) !! TypesOf(ast)
    {
      assert FileState(ast.includes[i].reference, settled);
    }
  }

  lemma TablesAreThere(f: Thrift)
    requires Around(f) && Tabled(f)
    ensures Named(f)
  {
  }

  lemma StartChasing(f: Thrift, ps: seq<Pending>)
    requires Done(f, TypesOf(f), ps)
    ensures Chasing(f) && Covered(f, ps)
  {
    hide Lookup;
    forall t | t in TypesOf(f)
      ensures Chased(f, t) && (t.category.Typedef? ==> Listed(t, ps))
    {
      assert Looked(f, t);
      if !t.category.Typedef? {
        MeansItself(f, t);
      }
    }
  }

  lemma NotGoodItself(f: Thrift)
    requires !(Distinct(Definitions(f)) && forall t :: t in TypesOf(f) ==> Fine(f, t) && Ends(f, t))
    ensures !Good(f)
  {
  }

  lemma NowSettled(f: Thrift)
    requires Around(f) && Tabled(f) && Distinct(Definitions(f))
    requires forall t :: t in TypesOf(f) ==> Fine(f, t) && Ends(f, t) && Flagged(f, t) && Means(f, t, t.category)
    ensures SettledFile(f) && Good(f)
  {
  }

  lemma GrownWith(a: set<Thrift>, b: set<Thrift>, more: set<Thrift>, f: Thrift)
    requires Grown(a, b, more)
    requires forall i :: 0 <= i < |f.includes| ==> f.includes[i].reference != null && f.includes[i].reference in b
    ensures Grown(a, b + {f}, more + {f})
  {
  }

  lemma NotGood(f: Thrift, i: nat)
    requires i < |f.includes|
    requires var g := f.includes[i].reference; g == null || !Good(g)
    ensures !Good(f)
  {
  }

  /** Resolves a file with everything it includes, each file once.  It succeeds exactly when
      the file is good, and then every type holds the category at the end of its chain. */
  method ResolveSymbols(ast: Thrift, ghost files: set<Thrift>, ghost settled: set<Thrift>)
    returns (err: Option<Problem>, ghost settled': set<Thrift>)
    requires World(files) && ast in files && Closed(settled)
    requires FileState(ast, settled) && State(files, settled, ast.rank)
    modifies ast, TypesOf(ast), Below(files, ast.rank)
    ensures err.None? <==> Good(ast)
    ensures err.None? ==> Grown(settled, settled', Under(files, ast.rank) + {ast}) && State(files, settled', ast.rank)
    ensures err.None? ==> SettledFile(ast) && ast in settled'
    decreases ast.rank, 3
  {
    if ast.name2Category.Some? {
      return None, settled;
    }
    assert allocated(TypesOf(ast));
    ast.name2Category := Some(map[]);
    var r := new Resolver(ast);
    forall f | f in files && f.rank < ast.rank
      ensures FileState(f, settled)
    {
      assert old(FileState(f, settled));
      assert old(allocated(TypesOf(f)));
    }
    err, settled' := r.ResolveAST(files, settled);
  }

  // ----- following aliases on demand -----

  /** Resolved files that include only one another. */
  ghost predicate AllSettled(settled: set<Thrift>)
    reads settled, set f, t | f in settled && t in TypesOf(f) :: t
  {
    Closed(settled) && forall f :: f in settled ==> SettledFile(f) && OnlyAliasesAreTypedefs(f)
  }

  /** What ResolveSymbols leaves behind when it starts from files as they were parsed. */
  lemma ResolvedIsSettled(files: set<Thrift>, settled: set<Thrift>, ast: Thrift)
    requires World(files) && ast in files && Grown({}, settled, Under(files, ast.rank) + {ast})
    requires State(files, settled, ast.rank) && SettledFile(ast)
    ensures AllSettled(settled)
  {
    hide SettledFile;
    forall f | f in settled && f != ast
      ensures SettledFile(f)
    {
      assert FileState(f, settled);
    }
  }

  lemma SettledType(settled: set<Thrift>, ast: Thrift, t: Type)
    requires AllSettled(settled) && ast in settled && t in TypesOf(ast)
    ensures Flagged(ast, t) && Ends(ast, t) && Tabled(ast)
    ensures forall n: nat :: EndWithin(ast, t, n).Some? ==> EndWithin(ast, t, n).value.category == t.category
  {
    hide EndWithin, Lookup;
    assert Means(ast, t, t.category);
    var m: nat :| EndWithin(ast, t, m).Some? && EndWithin(ast, t, m).value.category == t.category;
    forall n: nat | EndWithin(ast, t, n).Some?
      ensures EndWithin(ast, t, n).value.category == t.category
    {
      EndIsUnique(ast, t, m, n);
    }
  }

  /** In a resolved file a name with a dot refers to the first include that is called as the
      part before the last dot and defines the part behind it as a type. */
  lemma WrittenName(f: Thrift, t: Type, p: string, n: string) returns (i: nat, c: Category)
    requires SettledFile(f) && t in TypesOf(f) && t.name == p + "." + n && '.' !in n
    ensures t.reference == Some(Reference(n, i)) && (t.isTypedef <==> c.Typedef?) && (!c.Typedef? ==> t.category == c)
    ensures i < |f.includes| && f.includes[i].prefix == p && Defines(f.includes[i].reference, n, c)
    ensures forall j :: 0 <= j < i ==> !Has(f.includes[j], p, n)
  {
    hide Lookup, Has, Defines, EndWithin;
    assert Good(f) && Flagged(f, t) && Means(f, t, t.category);
    forall k | 0 <= k < |f.includes| && f.includes[k].reference != null
      ensures Distinct(Definitions(f.includes[k].reference))
    {
      assert Good(f.includes[k].reference);
    }
    ExternalName(f, t, p, n);
    i, c := Lookup(f, t).index, Lookup(f, t).c;
    if !c.Typedef? {
      MeansItself(f, t);
      MeansOne(f, t, c, t.category);
    }
  }

  /** In a resolved file any other name that is not that of a base type or a container refers
      to a type of the file itself. */
  lemma OwnName(f: Thrift, t: Type) returns (c: Category)
    requires SettledFile(f) && t in TypesOf(f) && '.' !in t.name && t.name !in BaseNames && t.name !in ContainerNames
    ensures t.reference.None? && Defines(f, t.name, c) && (t.isTypedef <==> c.Typedef?) && (!c.Typedef? ==> t.category == c)
  {
    hide Lookup, Defines, EndWithin;
    assert Good(f) && Flagged(f, t) && Means(f, t, t.category);
    LocalName(f, t);
    NameIsFine(f, t);
    c := Lookup(f, t).c;
    if !c.Typedef? {
      MeansItself(f, t);
      MeansOne(f, t, c, t.category);
    }
  }

  lemma NameIsFine(f: Thrift, t: Type)
    requires '.' !in t.name && t.name !in BaseNames && t.name !in ContainerNames && !Lookup(f, t).Wrong?
    ensures t.name != "" && Lookup(f, t).Local?
  {
  }

  /** The alias that a type names, and what is left of its chain. */
  ghost predicate Onward(settled: set<Thrift>, g: Thrift, name: string, e: Option<End>, n: nat) {
    && g in settled && FindTypedef(g.typedefs, name).Some? && n > 0
    && var u := FindTypedef(g.typedefs, name).value.target; u in TypesOf(g) && EndWithin(g, u, n - 1) == e
  }

  lemma DerefHere(settled: set<Thrift>, ast: Thrift, t: Type, n: nat)
    requires AllSettled(settled) && ast in settled && t in TypesOf(ast) && EndWithin(ast, t, n).Some?
    requires t.reference.None?
    ensures !t.isTypedef ==> EndWithin(ast, t, n) == Some(End(ast, t.name, t.category))
    ensures t.isTypedef ==> Onward(settled, ast, t.name, EndWithin(ast, t, n), n)
  {
    hide Lookup, Good;
    SettledType(settled, ast, t);
    LocalNames(ast, t);
    if t.isTypedef {
      TypedefIsFound(ast, t.name);
      TargetIsTyped(ast, FindTypedef(ast.typedefs, t.name).value);
    }
  }

  lemma DerefAway(settled: set<Thrift>, ast: Thrift, t: Type, n: nat)
    requires AllSettled(settled) && ast in settled && t in TypesOf(ast) && EndWithin(ast, t, n).Some?
    requires t.reference.Some?
    ensures var r := t.reference.value;
            && r.index < |ast.includes| && ast.includes[r.index].reference != null
            && var g := ast.includes[r.index].reference;
               && g in settled && Tabled(g) && r.name in Names(g) && IsTypeName(Names(g)[r.name])
               && (Names(g)[r.name].Typedef? ==> Onward(settled, g, r.name, EndWithin(ast, t, n), n))
               && (!Names(g)[r.name].Typedef? ==> EndWithin(ast, t, n) == Some(End(g, r.name, Names(g)[r.name])))
  {
    hide Lookup, Good, Names;
    SettledType(settled, ast, t);
    LocalNames(ast, t);
    var r := t.reference.value;
    var g := ast.includes[r.index].reference;
    if Names(g)[r.name].Typedef? {
      TypedefIsFound(g, r.name);
      TargetIsTyped(g, FindTypedef(g.typedefs, r.name).value);
    }
  }

  lemma LocalNames(f: Thrift, t: Type)
    ensures var m := Lookup(f, t);
            && (m.Local? ==> t.name in Names(f) && Names(f)[t.name] == m.c)
            && (m.Plain? ==> !m.c.Typedef?)
            && (m.External? ==>
                  && m.index < |f.includes| && f.includes[m.index].reference != null && IsTypeName(m.c)
                  && m.name in Names(f.includes[m.index].reference)
                  && Names(f.includes[m.index].reference)[m.name] == m.c)
  {
    hide Names;
    if t.name !in BaseNames && t.name !in ContainerNames {
      NameMeaning(f, t);
    }
  }

  /** Follows references and aliases to the type that they stand for.  In resolved files it
      ends, it finds the type at the end of the chain, and that is of the category which
      ResolveSymbols has stored in the type it started from. */
  method Deref(ast: Thrift, t: Type, ghost settled: set<Thrift>, ghost n: nat) returns (r: Result<(Thrift, Type)>)
    requires AllSettled(settled) && ast in settled && t in TypesOf(ast)
    requires EndWithin(ast, t, n).Some?
    ensures r.Ok?
    ensures EndWithin(ast, t, n) == Some(End(r.value.0, r.value.1.name, r.value.1.category))
    ensures r.value.1.category == t.category && !t.category.Typedef?
    decreases n
  {
    hide EndWithin, AllSettled, TypesOf, Names;
    assert forall f :: f in settled ==> allocated(TypesOf(f));
    SettledType(settled, ast, t);
    EndIsConcrete(ast, t, n);
    if t.reference.None? {
      DerefHere(settled, ast, t, n);
    } else {
      DerefAway(settled, ast, t, n);
    }
    if t.reference.None? && !t.isTypedef {
      return Ok((ast, t));
    }
    var name := t.name;
    if t.reference.None? {
      var td := GetTypedef(ast, name);
      if td.None? {
        return Err(NoTypedef(name));
      }
      r := Deref(ast, td.value.target, settled, n - 1);
      return;
    }
    var ref := t.reference.value;
    if ref.index >= |ast.includes| {
      return Err(BadReference(ref.index));
    }
    var g := ast.includes[ref.index].reference;
    if g.name2Category.None? {
      return Err(NotResolved);
    }
    var cat := if ref.name in g.name2Category.value then g.name2Category.value[ref.name] else Constant;
    if cat.Typedef? {
      var td := GetTypedef(g, ref.name);
      if td.None? {
        return Err(NoTypedef(ref.name));
      }
      r := Deref(g, td.value.target, settled, n - 1);
    } else if cat.Enum? || cat.Struct? || cat.Union? || cat.Exception? {
      var u := new Type(ref.name, cat);
      r := Ok((g, u));
    } else {
      r := Err(BadReference(ref.index));
    }
  }

  /** Both ways of resolving agree: from files as they were parsed, once ResolveSymbols has
      succeeded, following any type of the file ends without error in a concrete type of the
      category that is stored in the type. */
  method ResolveThenDeref(ast: Thrift, t: Type, ghost files: set<Thrift>)
    returns (err: Option<Problem>, r: Result<(Thrift, Type)>)
    requires World(files) && ast in files && t in TypesOf(ast)
    requires FreshFile(ast) && State(files, {}, ast.rank)
    modifies ast, TypesOf(ast), Below(files, ast.rank)
    ensures err.None? <==> Good(ast)
    ensures err.None? ==> r.Ok? && r.value.1.category == t.category && !t.category.Typedef?
  {
    hide World, State, FreshFile, SettledFile, Good, AllSettled, EndWithin, Ends, TypesOf, Below;
    ghost var settled;
    err, settled := ResolveSymbols(ast, files, {});
    r := Err(NotResolved);
    if err.None? {
      ResolvedIsSettled(files, settled, ast);
      SettledType(settled, ast, t);
      ghost var n := Steps(ast, t);
      r := Deref(ast, t, settled, n);
    }
  }

  /** How many aliases a chain that ends goes through, at most. */
  ghost function Steps(f: Thrift, t: Type): (n: nat)
    requires Ends(f, t)
    ensures EndWithin(f, t, n).Some?
  {
    var n: nat :| EndWithin(f, t, n).Some?;
    n
  }
}
