/** What the receiver of a compressed include graph can see: the tree it unfolds to.
    The tree keeps every file in full exactly once, where a depth-first listing meets
    it first, and it is enough to rebuild the graph on the far side of the wire. */
module IncludeWire {
  import opened IncludeGraph

  // ----- full exactly once, at the first position of the depth-first listing -----

  /** The depth-first listing of all include occurrences below `t`, with repetitions. */
  ghost function Preorder(g: Graph, t: Thrift, i: nat): (us: seq<Thrift>)
    requires WellFormed(g) && t in g.nodes && i <= |t.Includes|
    decreases g.rank[t], |t.Includes| - i
  {
    if i == |t.Includes| then []
    else
      var c := Child(g, t, i);
      ([c] + Preorder(g, c, 0)) + Preorder(g, t, i + 1)
  }

  /** `seen` and then the first occurrences in `us` of what is not in it. */
  function FirstOccurrences<T(==)>(seen: seq<T>, us: seq<T>): (r: seq<T>)
    ensures seen <= r
    decreases us
  {
    if us == [] then seen
    else if us[0] in seen then FirstOccurrences(seen, us[1..])
    else FirstOccurrences(seen + [us[0]], us[1..])
  }

  lemma {:induction false} FirstOccurrencesMembers<T>(seen: seq<T>, us: seq<T>, x: T)
    ensures x in FirstOccurrences(seen, us) <==> x in seen || x in us
    decreases us
  {
    if us != [] {
      assert us == [us[0]] + us[1..];
      FirstOccurrencesMembers(if us[0] in seen then seen else seen + [us[0]], us[1..], x);
    }
  }

  ghost predicate Distinct<T>(s: seq<T>) {
    forall i, j :: 0 <= i < j < |s| ==> s[i] != s[j]
  }

  lemma {:induction false} FirstOccurrencesDistinct<T>(seen: seq<T>, us: seq<T>)
    requires Distinct(seen)
    ensures Distinct(FirstOccurrences(seen, us))
    decreases us
  {
    if us != [] {
      if us[0] in seen {
        FirstOccurrencesDistinct(seen, us[1..]);
      } else {
        FirstOccurrencesDistinct(seen + [us[0]], us[1..]);
      }
    }
  }

  lemma {:induction false} FirstOccurrencesConcat<T>(seen: seq<T>, us: seq<T>, vs: seq<T>)
    ensures FirstOccurrences(seen, us + vs) == FirstOccurrences(FirstOccurrences(seen, us), vs)
    decreases us
  {
    if us == [] {
      assert us + vs == vs;
    } else {
      assert (us + vs)[1..] == us[1..] + vs;
      FirstOccurrencesConcat(if us[0] in seen then seen else seen + [us[0]], us[1..], vs);
    }
  }

  lemma {:induction false} FirstOccurrencesNone<T>(seen: seq<T>, us: seq<T>)
    requires forall x :: x in us ==> x in seen
    ensures FirstOccurrences(seen, us) == seen
    decreases us
  {
    if us != [] {
      assert us[0] in us && forall x :: x in us[1..] ==> x in us;
      FirstOccurrencesNone(seen, us[1..]);
    }
  }

  /** Everything below a listed file is listed as well. */
  lemma {:induction false} PreorderClosed(g: Graph, t: Thrift, i: nat, u: Thrift)
    requires WellFormed(g) && t in g.nodes && i <= |t.Includes|
    requires u in Preorder(g, t, i)
    ensures u in g.nodes && u in g.rank && g.rank[u] < g.rank[t]
    ensures forall v :: v in Preorder(g, u, 0) ==> v in Preorder(g, t, i)
    decreases g.rank[t], |t.Includes| - i
  {
    hide WellFormed;
    var c := Child(g, t, i);
    if u in Preorder(g, c, 0) {
      PreorderClosed(g, c, 0, u);
    } else if u in Preorder(g, t, i + 1) {
      PreorderClosed(g, t, i + 1, u);
    }
  }

  /** Of the files in `seen`, those ranked below `r` have been walked to the end. */
  ghost predicate Settled(g: Graph, seen: seq<Thrift>, r: nat)
    requires WellFormed(g)
  {
    forall u, v :: u in seen && u in g.nodes && g.rank[u] < r && v in Preorder(g, u, 0) ==> v in seen
  }

  /** The walk with a visited set finds exactly the first occurrences of the listing
      without one: all files below the root, each once, in that order. */
  lemma {:induction false} VisitIsFirstOccurrences(g: Graph, t: Thrift, i: nat, seen: seq<Thrift>)
    requires WellFormed(g) && t in g.nodes && i <= |t.Includes|
    requires Settled(g, seen, g.rank[t])
    ensures Visit(g, t, i, seen) == FirstOccurrences(seen, Preorder(g, t, i))
    ensures Settled(g, Visit(g, t, i, seen), g.rank[t])
    decreases g.rank[t], |t.Includes| - i
  {
    if i < |t.Includes| {
      var c := Child(g, t, i);
      var inner, more := Preorder(g, c, 0), Preorder(g, t, i + 1);
      FirstOccurrencesConcat(seen, [c] + inner, more);
      if c in seen {
        FirstOccurrencesNone(seen, [c] + inner);
        VisitIsFirstOccurrences(g, t, i + 1, seen);
      } else {
        VisitIsFirstOccurrences(g, c, 0, seen + [c]);
        SettledAfter(g, t, seen, c);
        assert ([c] + inner)[1..] == inner;
        VisitIsFirstOccurrences(g, t, i + 1, Visit(g, c, 0, seen + [c]));
      }
    }
  }

  lemma SettledAfter(g: Graph, t: Thrift, seen: seq<Thrift>, c: Thrift)
    requires WellFormed(g) && t in g.nodes && c in g.nodes && g.rank[c] < g.rank[t]
    requires Settled(g, seen, g.rank[t])
    requires Visit(g, c, 0, seen + [c]) == FirstOccurrences(seen + [c], Preorder(g, c, 0))
    ensures Settled(g, Visit(g, c, 0, seen + [c]), g.rank[t])
  {
    var next := Visit(g, c, 0, seen + [c]);
    forall u, v | u in next && u in g.nodes && g.rank[u] < g.rank[t] && v in Preorder(g, u, 0)
      ensures v in next
    {
      FirstOccurrencesMembers(seen + [c], Preorder(g, c, 0), u);
      FirstOccurrencesMembers(seen + [c], Preorder(g, c, 0), v);
      if u in seen {
        assert v in seen;
      } else if u != c {
        PreorderClosed(g, c, 0, u);
      }
    }
  }

  // ----- the tree that the encoder sees -----

  datatype Tree = File(name: string, kids: seq<Tree>) | Stub(name: string)

  /** The tree below `t` when each file is kept where the walk finds it first. */
  ghost function Trim(g: Graph, t: Thrift, i: nat, seen: seq<Thrift>): (ts: seq<Tree>)
    requires WellFormed(g) && t in g.nodes && i <= |t.Includes|
    ensures |ts| == |t.Includes| - i
    decreases g.rank[t], |t.Includes| - i
  {
    if i == |t.Includes| then []
    else
      var c := Child(g, t, i);
      if c in seen then [Stub(c.Filename)] + Trim(g, t, i + 1, seen)
      else [File(c.Filename, Trim(g, c, 0, seen + [c]))] + Trim(g, t, i + 1, Visit(g, c, 0, seen + [c]))
  }

  ghost predicate Stores(now: Refs, x: Thrift, tree: Tree)
    decreases tree, 1
  {
    match tree
    case Stub(name) => x.Filename == REF_PREFIX + name && x.Includes == []
    case File(name, kids) =>
      x.Filename == name && |x.Includes| == |kids| && forall k :: 0 <= k < |kids| ==> StoresAt(now, x.Includes[k], kids[k])
  }

  ghost predicate StoresAt(now: Refs, l: Include, tree: Tree)
    decreases tree, 2
  {
    l in now && Stores(now, now[l], tree)
  }

  /** The names of the files that are there in full, in depth-first order. */
  function FullNames(ts: seq<Tree>): seq<string> {
    if ts == [] then []
    else (match ts[0]
          case Stub(_) => []
          case File(name, kids) => [name] + FullNames(kids)) + FullNames(ts[1..])
  }

  ghost function Filenames(us: seq<Thrift>): (names: seq<string>)
    ensures |names| == |us|
  {
    seq(|us|, i requires 0 <= i < |us| => us[i].Filename)
  }

  /** Below a file that the walk goes into, the kept includes are those of that part of
      the walk; after it, those of the rest. */
  lemma KeptSplit(g: Graph, t: Thrift, i: nat, seen: seq<Thrift>, u: Thrift, j: nat)
    requires WellFormed(g) && t in g.nodes && i < |t.Includes| && Within(g, seen)
    requires Child(g, t, i) !in seen && u in g.nodes && j < |u.Includes|
    ensures var c := Child(g, t, i); var next := Visit(g, c, 0, seen + [c]);
            && (u == c || (u in next && u !in seen + [c]) ==>
                  (u.Includes[j] in Kept(g, t, i, seen) <==> u.Includes[j] in Kept(g, c, 0, seen + [c])))
            && ((u == t && i < j) || (u in Visit(g, t, i, seen) && u !in next) ==>
                  (u.Includes[j] in Kept(g, t, i, seen) <==> u.Includes[j] in Kept(g, t, i + 1, next)))
  {
    var c := Child(g, t, i);
    var next := Visit(g, c, 0, seen + [c]);
    VisitFinds(g, c, 0, seen + [c]);
    VisitFinds(g, t, i + 1, next);
    InPrefix(seen + [c], next);
    assert c in seen + [c];
    if u.Includes[j] in Kept(g, c, 0, seen + [c]) {
      KeptOwner(g, c, 0, seen + [c], u, j);
    }
    if u.Includes[j] in Kept(g, t, i + 1, next) {
      KeptOwner(g, t, i + 1, next, u, j);
    }
  }

  /** An include is kept where its target is found first, and only there. */
  lemma KeptHere(g: Graph, t: Thrift, i: nat, seen: seq<Thrift>)
    requires WellFormed(g) && t in g.nodes && i < |t.Includes| && Within(g, seen)
    ensures t.Includes[i] in Kept(g, t, i, seen) <==> Child(g, t, i) !in seen
  {
    if Child(g, t, i) in seen && t.Includes[i] in Kept(g, t, i + 1, seen) {
      KeptOwner(g, t, i + 1, seen, t, i);
      VisitFinds(g, t, i + 1, seen);
    }
  }

  ghost predicate Covered(g: Graph, t: Thrift, i: nat, seen: seq<Thrift>, u: Thrift, j: nat)
    requires WellFormed(g) && t in g.nodes && i <= |t.Includes|
  {
    (u == t && i <= j) || (u in Visit(g, t, i, seen) && u !in seen)
  }

  /** The includes of `t` from the `i`-th on and those of the files found through them
      are compressed. */
  ghost predicate CompressedFrom(g: Graph, now: Refs, t: Thrift, i: nat, seen: seq<Thrift>)
    requires WellFormed(g) && t in g.nodes && i <= |t.Includes|
  {
    forall u, j | u in g.nodes && 0 <= j < |u.Includes| ::
      Covered(g, t, i, seen, u, j) ==> Compressed(g, now, Kept(g, t, i, seen), u, j)
  }

  /** The compressed heap unfolds to the trimmed tree. */
  lemma {:induction false} StoresTrim(g: Graph, now: Refs, t: Thrift, i: nat, seen: seq<Thrift>)
    requires WellFormed(g) && t in g.nodes && i <= |t.Includes| && Within(g, seen)
    requires CompressedFrom(g, now, t, i, seen)
    ensures forall k :: i <= k < |t.Includes| ==> StoresAt(now, t.Includes[k], Trim(g, t, i, seen)[k - i])
    decreases g.rank[t], |t.Includes| - i
  {
    if i < |t.Includes| {
      hide WellFormed;
      var c := Child(g, t, i);
      KeptHere(g, t, i, seen);
      assert Covered(g, t, i, seen, t, i);
      assert Compressed(g, now, Kept(g, t, i, seen), t, i);
      if c in seen {
        StoresTrim(g, now, t, i + 1, seen);
        StoresStep(g, now, t, i, Stub(c.Filename), Trim(g, t, i + 1, seen));
      } else {
        var next := Visit(g, c, 0, seen + [c]);
        VisitFinds(g, c, 0, seen + [c]);
        StoresInside(g, now, t, i, seen);
        StoresTrim(g, now, c, 0, seen + [c]);
        StoresTrim(g, now, t, i + 1, next);
        StoresStep(g, now, t, i, File(c.Filename, Trim(g, c, 0, seen + [c])), Trim(g, t, i + 1, next));
      }
    }
  }

  lemma StoresStep(g: Graph, now: Refs, t: Thrift, i: nat, first: Tree, rest: seq<Tree>)
    requires i < |t.Includes| && |rest| == |t.Includes| - i - 1
    requires StoresAt(now, t.Includes[i], first)
    requires forall k :: i + 1 <= k < |t.Includes| ==> StoresAt(now, t.Includes[k], rest[k - i - 1])
    ensures forall k :: i <= k < |t.Includes| ==> StoresAt(now, t.Includes[k], ([first] + rest)[k - i])
  {
  }

  lemma StoresInside(g: Graph, now: Refs, t: Thrift, i: nat, seen: seq<Thrift>)
    requires WellFormed(g) && t in g.nodes && i < |t.Includes| && Within(g, seen)
    requires Child(g, t, i) !in seen
    requires CompressedFrom(g, now, t, i, seen)
    ensures CompressedFrom(g, now, Child(g, t, i), 0, seen + [Child(g, t, i)])
    ensures CompressedFrom(g, now, t, i + 1, Visit(g, Child(g, t, i), 0, seen + [Child(g, t, i)]))
  {
    var c := Child(g, t, i);
    var next := Visit(g, c, 0, seen + [c]);
    assert Visit(g, t, i, seen) == Visit(g, t, i + 1, next);
    InPrefix(seen, seen + [c]);
    InPrefix(seen + [c], next);
    InPrefix(next, Visit(g, t, i + 1, next));
    VisitFinds(g, c, 0, seen + [c]);
    assert c in seen + [c];
    hide WellFormed, Visit, Kept;
    forall u, j | u in g.nodes && 0 <= j < |u.Includes| && Covered(g, c, 0, seen + [c], u, j)
      ensures Compressed(g, now, Kept(g, c, 0, seen + [c]), u, j)
    {
      KeptSplit(g, t, i, seen, u, j);
      assert Compressed(g, now, Kept(g, t, i, seen), u, j);
    }
    var i' := i + 1;
    forall u, j | u in g.nodes && 0 <= j < |u.Includes| && Covered(g, t, i', next, u, j)
      ensures Compressed(g, now, Kept(g, t, i', next), u, j)
    {
      KeptSplit(g, t, i, seen, u, j);
      assert Compressed(g, now, Kept(g, t, i, seen), u, j);
    }
    assert CompressedFrom(g, now, t, i + 1, next);
  }

  /** The full files of the trimmed tree, in order, are the files the walk finds. */
  lemma {:induction false} FullNamesOfTrim(g: Graph, t: Thrift, i: nat, seen: seq<Thrift>)
    requires WellFormed(g) && t in g.nodes && i <= |t.Includes|
    ensures Filenames(Visit(g, t, i, seen)) == Filenames(seen) + FullNames(Trim(g, t, i, seen))
    decreases g.rank[t], |t.Includes| - i
  {
    hide WellFormed;
    if i < |t.Includes| {
      var c := Child(g, t, i);
      var ts := Trim(g, t, i, seen);
      if c in seen {
        FullNamesOfTrim(g, t, i + 1, seen);
        assert ts[1..] == Trim(g, t, i + 1, seen);
      } else {
        var next := Visit(g, c, 0, seen + [c]);
        FullNamesOfTrim(g, c, 0, seen + [c]);
        FullNamesOfTrim(g, t, i + 1, next);
        assert ts[1..] == Trim(g, t, i + 1, next);
        assert Filenames(seen + [c]) == Filenames(seen) + [c.Filename];
      }
    }
  }

  lemma FilenamesDistinct(g: Graph, us: seq<Thrift>)
    requires WellFormed(g) && Within(g, us) && Distinct(us)
    ensures Distinct(Filenames(us))
  {
    forall i, j | 0 <= i < j < |us| ensures Filenames(us)[i] != Filenames(us)[j] {
      assert us[i] in us && us[j] in us;
    }
  }

  /** Compression yields a spanning tree.  The root unfolds to a tree in which every file
      below it is there in full exactly once, in the order in which the depth-first listing
      of all includes meets them first; every other include is a stub, and the map holds
      exactly the files of that listing. */
  lemma SpanningTree(g: Graph, was: Refs, sent: Refs, root: Thrift)
    requires WellFormed(g) && root in g.nodes && AllRestored(g, was, g.nodes)
    requires Progress(g, was, sent, Kept(g, root, 0, []), root, |root.Includes|, [], Visit(g, root, 0, []))
    ensures Stores(sent, root, File(root.Filename, Trim(g, root, 0, [])))
    ensures FullNames(Trim(g, root, 0, [])) == Filenames(FirstOccurrences([], Preorder(g, root, 0)))
    ensures Distinct(FullNames(Trim(g, root, 0, [])))
    ensures forall u :: u in g.nodes ==>
              (u.Filename in Named(Visit(g, root, 0, [])) <==> u in Preorder(g, root, 0))
  {
    var found := Visit(g, root, 0, []);
    VisitFinds(g, root, 0, []);
    VisitIsFirstOccurrences(g, root, 0, []);
    FullNamesOfTrim(g, root, 0, []);
    assert Filenames([]) + FullNames(Trim(g, root, 0, [])) == FullNames(Trim(g, root, 0, []));
    FirstOccurrencesDistinct([], Preorder(g, root, 0));
    FilenamesDistinct(g, found);
    assert CompressedFrom(g, sent, root, 0, []);
    StoresTrim(g, sent, root, 0, []);
    forall u | u in g.nodes
      ensures u.Filename in Named(found) <==> u in Preorder(g, root, 0)
    {
      NamedHas(g, found, u);
      FirstOccurrencesMembers([], Preorder(g, root, 0), u);
    }
  }
}
