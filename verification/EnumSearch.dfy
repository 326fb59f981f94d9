/** Which enum a name in a constant refers to: getEnum of semantic/semantic.go.  It follows
    typedefs while constants are resolved, that is before circular ones are found out. */
module EnumSearch {
  import opened Wrappers
  import opened TypeNames

  /** What the search finds after following at most `n` aliases: an enum and the file that
      defines it, or nothing.  There is no result when more have to be followed. */
  function GetEnum(f: Thrift, name: string, n: nat): Option<Option<(Thrift, string)>>
    decreases n, 0
  {
    if name !in Names(f) then Some(None)
    else if Names(f)[name].Enum? then Some(Some((f, name)))
    else if !Names(f)[name].Typedef? then Some(None)
    else
      var td := FindTypedef(f.typedefs, name);
      if td.None? then Some(None) else if n == 0 then None else SearchType(f, td.value.target, n - 1)
  }

  /** A type that refers to an included file is looked up there, and by its name in this file
      otherwise or when that finds nothing. */
  function SearchType(f: Thrift, t: Type, n: nat): Option<Option<(Thrift, string)>>
    decreases n, 1
  {
    var m := Lookup(f, t);
    var e := if m.External? then GetEnum(f.includes[m.index].reference, m.name, n) else Some(None);
    if e.None? || e.value.Some? then e else GetEnum(f, t.name, n)
  }

  /** Every alias stands for a type that is defined, and no definition has a name that types
      read otherwise: that of a base type or a container, or one with a dot. */
  ghost predicate Clear(f: Thrift)
    decreases f.rank
  {
    && (forall i :: 0 <= i < |f.includes| ==>
          var g := f.includes[i].reference; g != null && g.rank < f.rank && Clear(g))
    && OnlyAliasesAreTypedefs(f)
    && (forall name :: name in Names(f) ==> name !in BaseNames && name !in ContainerNames && LastDot(name) == -1)
    && forall i :: 0 <= i < |f.typedefs| ==> !Lookup(f, f.typedefs[i].target).Wrong?
  }

  /** What the end of a chain is to the search. */
  function EnumAt(e: End): Option<(Thrift, string)> {
    if e.category.Enum? then Some((e.file, e.name)) else None
  }

  lemma TargetIsFine(f: Thrift, name: string)
    requires Clear(f) && name in Names(f) && Names(f)[name].Typedef?
    ensures var td := FindTypedef(f.typedefs, name); td.Some? && !Lookup(f, td.value.target).Wrong?
  {
    TypedefIsFound(f, name);
    var i :| 0 <= i < |f.typedefs| && f.typedefs[i] == FindTypedef(f.typedefs, name).value;
  }

  /** What the name of a type is in the file that writes it. */
  lemma NameOfType(f: Thrift, t: Type)
    requires Clear(f) && !Lookup(f, t).Wrong?
    ensures Lookup(f, t).Local? ==> t.name in Names(f) && Names(f)[t.name] == Lookup(f, t).c
    ensures !Lookup(f, t).Local? ==> t.name !in Names(f)
    ensures Lookup(f, t).Plain? ==> !Lookup(f, t).c.Enum? && !Lookup(f, t).c.Typedef?
    ensures Lookup(f, t).External? ==>
              var g := f.includes[Lookup(f, t).index].reference;
              g != null && Clear(g) && Lookup(f, t).name in Names(g) && Names(g)[Lookup(f, t).name] == Lookup(f, t).c
    ensures !Lookup(f, t).Plain? ==> IsTypeName(Lookup(f, t).c)
  {
    hide Names, SplitType, LastDot, FirstOffer;
    TwoParts(t.name);
    var parts := SplitType(t.name);
    if Lookup(f, t).External? {
      var i := FirstOffer(f.includes, parts[0], parts[1]);
      assert Offers(f.includes[i], parts[0], parts[1]);
    }
  }

  lemma TwoParts(id: string)
    ensures |SplitType(id)| == 2 ==> LastDot(id) != -1
  {
  }

  /** The search from a type follows the chain of aliases and finds the enum at its end. */
  lemma {:induction false} SearchIsEnd(f: Thrift, t: Type, n: nat)
    requires Clear(f) && !Lookup(f, t).Wrong?
    ensures SearchType(f, t, n).Some? <==> EndWithin(f, t, n).Some?
    ensures EndWithin(f, t, n).Some? ==> SearchType(f, t, n).value == EnumAt(EndWithin(f, t, n).value)
    decreases n
  {
    hide Clear, Lookup, FindTypedef, Names;
    NameOfType(f, t);
    var m := Lookup(f, t);
    var (g, name) := Definer(f, t);
    if m.c.Typedef? {
      TargetIsFine(g, name);
      if n > 0 {
        SearchIsEnd(g, FindTypedef(g.typedefs, name).value.target, n - 1);
      }
    }
  }

  lemma EndsAt(f: Thrift, t: Type, n: nat)
    requires EndWithin(f, t, n).Some?
    ensures Ends(f, t)
  {
  }

  lemma EndOf(f: Thrift, t: Type) returns (n: nat)
    requires Ends(f, t)
    ensures EndWithin(f, t, n).Some?
  {
    n :| EndWithin(f, t, n).Some?;
  }

  /** The search for a name comes to an end if and only if the name is no alias or its chain of
      aliases ends; what it finds is then the enum at the end of the chain. */
  lemma EnumOfAlias(f: Thrift, name: string, td: Alias)
    requires Clear(f) && name in Names(f) && Names(f)[name].Typedef? && FindTypedef(f.typedefs, name) == Some(td)
    ensures (exists n: nat :: GetEnum(f, name, n).Some?) <==> Ends(f, td.target)
    ensures forall n: nat, m: nat :: GetEnum(f, name, n).Some? && EndWithin(f, td.target, m).Some? ==>
              GetEnum(f, name, n).value == EnumAt(EndWithin(f, td.target, m).value)
  {
    hide Clear, Lookup, SearchType, EndWithin;
    TargetIsFine(f, name);
    forall n: nat
      ensures GetEnum(f, name, n + 1).Some? <==> EndWithin(f, td.target, n).Some?
      ensures EndWithin(f, td.target, n).Some? ==>
                GetEnum(f, name, n + 1).value == EnumAt(EndWithin(f, td.target, n).value)
    {
      SearchIsEnd(f, td.target, n);
      assert GetEnum(f, name, n + 1) == SearchType(f, td.target, n);
    }
    assert GetEnum(f, name, 0).None?;
    forall n: nat, m: nat | GetEnum(f, name, n).Some? && EndWithin(f, td.target, m).Some?
      ensures GetEnum(f, name, n).value == EnumAt(EndWithin(f, td.target, m).value)
    {
      assert n == (n - 1) + 1 && EndWithin(f, td.target, n - 1).Some?;
      EndIsUnique(f, td.target, n - 1, m);
    }
    if n: nat :| GetEnum(f, name, n).Some? {
      assert n == (n - 1) + 1;
      EndsAt(f, td.target, n - 1);
    }
    if Ends(f, td.target) {
      var n := EndOf(f, td.target);
      assert GetEnum(f, name, n + 1).Some?;
    }
  }

  /** Aliases of one file that only lead to one another keep the search busy for ever. */
  lemma NeverEnds(f: Thrift, name: string, td: Alias, stuck: set<Type>, n: nat)
    requires Clear(f) && name in Names(f) && Names(f)[name].Typedef? && FindTypedef(f.typedefs, name) == Some(td)
    requires td.target in stuck
    requires forall u :: u in stuck ==> Target(f, u).Some? && Target(f, u).value.0 == f && Target(f, u).value.1 in stuck
    ensures GetEnum(f, name, n).None?
  {
    hide Clear, Target, EndWithin;
    EnumOfAlias(f, name, td);
    forall m: nat
      ensures EndWithin(f, td.target, m).None?
    {
      Circular(f, stuck, td.target, m);
    }
  }
}
