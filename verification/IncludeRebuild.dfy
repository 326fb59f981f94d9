/** The graph that the receiver ends up with unfolds to the same tree as the graph that
    was sent, although decompression keeps no set of visited files. */
module IncludeRebuild {
  import opened IncludeGraph
  import opened IncludeWire
  import opened IncludeFarSide

  // ----- the unfolding of a graph -----

  /** The tree below `t` with every include followed. */
  ghost function UnfoldFrom(g: Graph, t: Thrift, i: nat): (ts: seq<Tree>)
    requires WellFormed(g) && t in g.nodes && i <= |t.Includes|
    ensures |ts| == |t.Includes| - i
    decreases g.rank[t], |t.Includes| - i
  {
    if i == |t.Includes| then [] else [Unfold(g, Child(g, t, i))] + UnfoldFrom(g, t, i + 1)
  }

  ghost function Unfold(g: Graph, t: Thrift): Tree
    requires WellFormed(g) && t in g.nodes
    decreases g.rank[t], |t.Includes| + 1
  {
    File(t.Filename, UnfoldFrom(g, t, 0))
  }

  /** A heap in which the includes below `t` have their targets stores that tree. */
  lemma {:induction false} StoresUnfold(g: Graph, now: Refs, t: Thrift, i: nat)
    requires WellFormed(g) && t in g.nodes && i <= |t.Includes|
    requires AllRestored(g, now, Below(g, t))
    ensures forall k :: i <= k < |t.Includes| ==> StoresAt(now, t.Includes[k], UnfoldFrom(g, t, i)[k - i])
    decreases g.rank[t], |t.Includes| - i
  {
    hide WellFormed, Below, Reach;
    if i < |t.Includes| {
      var c := Child(g, t, i);
      InBelow(g, t, i);
      assert Untouched(g, now, t, i);
      StoresUnfold(g, now, c, 0);
      StoresUnfold(g, now, t, i + 1);
      StoresStep(g, now, t, i, Unfold(g, c), UnfoldFrom(g, t, i + 1));
    }
  }

  // ----- the copied graph -----

  /** Every copied file is there with copies of all its targets. */
  ghost predicate Complete(g: Graph, rep: Copies)
    requires WellFormed(g)
  {
    && Named'(rep, rep.Keys) && Owned(rep, rep.Keys)
    && (forall u :: u in rep ==> u in g.nodes)
    && (forall u, j | u in rep && u in g.nodes && 0 <= j < |u.Includes| :: Child(g, u, j) in rep)
  }

  ghost function Far(g: Graph, rep: Copies): Graph
    requires WellFormed(g) && Complete(g, rep)
  {
    Graph(set u | u in rep :: rep[u],
          map u, j | u in rep && 0 <= j < |u.Includes| :: rep[u].Includes[j] := rep[Child(g, u, j)],
          map u | u in rep :: rep[u] := g.rank[u])
  }

  lemma CopiesApart(g: Graph, rep: Copies, u: Thrift, v: Thrift)
    requires WellFormed(g) && Complete(g, rep) && u in rep && v in rep
    ensures rep[u].Filename == rep[v].Filename ==> u == v
  {
  }

  lemma FarLink(g: Graph, rep: Copies, u: Thrift, j: nat)
    requires WellFormed(g) && Complete(g, rep) && u in rep && j < |u.Includes|
    ensures rep[u].Includes[j] in Far(g, rep).link
    ensures Child(g, u, j) in rep && Far(g, rep).link[rep[u].Includes[j]] == rep[Child(g, u, j)]
  {
    hide WellFormed;
  }

  lemma FarRank(g: Graph, rep: Copies, u: Thrift)
    requires WellFormed(g) && Complete(g, rep) && u in rep
    ensures rep[u] in Far(g, rep).rank && u in g.rank && Far(g, rep).rank[rep[u]] == g.rank[u]
  {
  }

  lemma FarEdge(g: Graph, rep: Copies, u: Thrift, j: nat)
    requires WellFormed(g) && Complete(g, rep) && u in rep && j < |u.Includes|
    ensures |rep[u].Includes| == |u.Includes| && rep[u] in Far(g, rep).nodes && HasEdge(Far(g, rep), rep[u], j)
  {
    FarLink(g, rep, u, j);
    FarRank(g, rep, u);
    FarRank(g, rep, Child(g, u, j));
    hide WellFormed, Far;
    assert rep[Child(g, u, j)] in Far(g, rep).nodes by { FarNode(g, rep, Child(g, u, j)); }
    FarNode(g, rep, u);
  }

  lemma FarNode(g: Graph, rep: Copies, u: Thrift)
    requires WellFormed(g) && Complete(g, rep) && u in rep
    ensures rep[u] in Far(g, rep).nodes
  {
  }

  lemma FarIsWellFormed(g: Graph, rep: Copies)
    requires WellFormed(g) && Complete(g, rep)
    ensures WellFormed(Far(g, rep))
  {
    var g' := Far(g, rep);
    hide WellFormed, Far;
    assert forall u :: u in rep ==> !(REF_PREFIX <= u.Filename) && rep[u].Filename == u.Filename by {
      forall u | u in rep ensures !(REF_PREFIX <= u.Filename) && rep[u].Filename == u.Filename {
        SameLength(g, rep, u);
      }
    }
    forall x | x in g'.nodes ensures x in g'.rank && !(REF_PREFIX <= x.Filename) {
      var u := Original(g, rep, x);
      FarRank(g, rep, u);
    }
    forall x, i | x in g'.nodes && 0 <= i < |x.Includes| ensures HasEdge(g', x, i) {
      var u := Original(g, rep, x);
      FarEdge(g, rep, u, i);
    }
    forall x, y | x in g'.nodes && y in g'.nodes && x.Filename == y.Filename ensures x == y {
      var u := Original(g, rep, x);
      var v := Original(g, rep, y);
      CopiesApart(g, rep, u, v);
    }
    forall x, y, i, j | x in g'.nodes && y in g'.nodes && 0 <= i < |x.Includes| && 0 <= j < |y.Includes|
                        && x.Includes[i] == y.Includes[j]
      ensures x == y && i == j
    {
      var u := Original(g, rep, x);
      var v := Original(g, rep, y);
    }
    WellFormedIf(g');
  }

  lemma WellFormedIf(g: Graph)
    requires forall t :: t in g.nodes ==> t in g.rank && !(REF_PREFIX <= t.Filename)
    requires forall t, i :: t in g.nodes && 0 <= i < |t.Includes| ==> HasEdge(g, t, i)
    requires forall t, u :: t in g.nodes && u in g.nodes && t.Filename == u.Filename ==> t == u
    requires forall t, u, i, j | t in g.nodes && u in g.nodes && 0 <= i < |t.Includes| && 0 <= j < |u.Includes| ::
               t.Includes[i] == u.Includes[j] ==> t == u && i == j
    ensures WellFormed(g)
  {
  }

  lemma FarChild(g: Graph, rep: Copies, u: Thrift, j: nat)
    requires WellFormed(g) && Complete(g, rep) && u in rep && j < |u.Includes|
    ensures WellFormed(Far(g, rep)) && rep[u] in Far(g, rep).nodes && |rep[u].Includes| == |u.Includes|
    ensures Child(g, u, j) in rep && Child(Far(g, rep), rep[u], j) == rep[Child(g, u, j)]
  {
    FarIsWellFormed(g, rep);
    FarNode(g, rep, u);
    FarLink(g, rep, u, j);
    hide WellFormed, Far;
  }

  /** The copied graph unfolds to the same tree. */
  lemma {:induction false} UnfoldFar(g: Graph, rep: Copies, t: Thrift, i: nat)
    requires WellFormed(g) && Complete(g, rep) && t in rep && t in g.nodes && i <= |t.Includes|
    ensures WellFormed(Far(g, rep)) && rep[t] in Far(g, rep).nodes && |rep[t].Includes| == |t.Includes|
    ensures UnfoldFrom(Far(g, rep), rep[t], i) == UnfoldFrom(g, t, i)
    decreases g.rank[t], |t.Includes| - i
  {
    hide WellFormed, Far, Complete;
    FarIsWellFormed(g, rep);
    FarNode(g, rep, t);
    SameLength(g, rep, t);
    if i < |t.Includes| {
      var c := Child(g, t, i);
      FarChild(g, rep, t, i);
      UnfoldFar(g, rep, c, 0);
      UnfoldFar(g, rep, t, i + 1);
      assert rep[c].Filename == c.Filename by { SameLength(g, rep, c); }
      assert Unfold(Far(g, rep), rep[c]) == Unfold(g, c);
    }
  }

  /** One object for every file, each include naming the object of its target. */
  ghost predicate SameGraph(g: Graph, rep: Copies, now: Refs, root: Thrift)
    requires WellFormed(g) && root in g.nodes
  {
    && root in rep && (forall u :: u in g.nodes ==> (u in rep <==> u == root || u in Preorder(g, root, 0)))
    && (forall u, v :: u in rep && v in rep && rep[u] == rep[v] ==> u == v)
    && (forall u :: u in rep ==> u in g.nodes)
    && (forall u :: u in rep ==> rep[u].Filename == u.Filename && |rep[u].Includes| == |u.Includes|)
    && (forall u, j | u in rep && u in g.nodes && 0 <= j < |u.Includes| :: LinkedAs(g, rep, now, u, j))
  }

  ghost predicate LinkedAs(g: Graph, rep: Copies, now: Refs, u: Thrift, j: nat)
    requires WellFormed(g) && u in g.nodes && u in rep && j < |u.Includes|
  {
    && j < |rep[u].Includes| && rep[u].Includes[j] in now && Child(g, u, j) in rep
    && now[rep[u].Includes[j]] == rep[Child(g, u, j)]
  }

  /** What is below a file is copied below its copy. */
  lemma {:induction false} BelowFar(g: Graph, rep: Copies, t: Thrift, i: nat, u: Thrift)
    requires WellFormed(g) && Complete(g, rep) && t in rep && t in g.nodes && i <= |t.Includes| && u in Reach(g, t, i)
    ensures WellFormed(Far(g, rep)) && rep[t] in Far(g, rep).nodes && |rep[t].Includes| == |t.Includes|
    ensures u in rep && rep[u] in Reach(Far(g, rep), rep[t], i)
    decreases g.rank[t], i
  {
    hide WellFormed, Far, Complete;
    FarIsWellFormed(g, rep);
    FarNode(g, rep, t);
    SameLength(g, rep, t);
    var c := Child(g, t, i - 1);
    FarChild(g, rep, t, i - 1);
    FarNode(g, rep, c);
    SameLength(g, rep, c);
    if u in Reach(g, t, i - 1) {
      BelowFar(g, rep, t, i - 1, u);
    } else if u != c {
      BelowFar(g, rep, c, |c.Includes|, u);
    }
  }

  lemma CopiesAreNodes(g: Graph, rep: Copies)
    requires WellFormed(g) && Complete(g, rep)
    ensures forall u :: u in rep ==> u in g.nodes
  {
  }

  lemma CopiesMatch(g: Graph, rep: Copies, now: Refs, root: Thrift)
    requires WellFormed(g) && Complete(g, rep) && root in rep && root in g.nodes
    requires rep.Keys == Fresh(g, root, 0, []) + {root}
    requires WellFormed(Far(g, rep)) && rep[root] in Far(g, rep).nodes
    requires AllRestored(Far(g, rep), now, Below(Far(g, rep), rep[root]))
    ensures SameGraph(g, rep, now, root)
  {
    hide WellFormed, Far, Complete, Visit, Reach, AllRestored, Preorder;
    CopiesAreNodes(g, rep);
    VisitIsFirstOccurrences(g, root, 0, []);
    forall u | u in g.nodes
      ensures u in rep <==> u == root || u in Preorder(g, root, 0)
    {
      FirstOccurrencesMembers([], Preorder(g, root, 0), u);
    }
    forall u, v | u in rep && v in rep && rep[u] == rep[v]
      ensures u == v
    {
      CopiesApart(g, rep, u, v);
    }
    forall u | u in rep
      ensures rep[u].Filename == u.Filename && |rep[u].Includes| == |u.Includes|
    {
      SameLength(g, rep, u);
    }
    forall u, j | u in rep && u in g.nodes && 0 <= j < |u.Includes|
      ensures LinkedAs(g, rep, now, u, j)
    {
      if u != root {
        VisitBelow(g, root, 0, [], u);
        BelowFar(g, rep, root, |root.Includes|, u);
      }
      SameLength(g, rep, root);
      CopyIsLinked(g, rep, now, root, u, j);
    }
  }

  lemma CopyIsLinked(g: Graph, rep: Copies, now: Refs, root: Thrift, u: Thrift, j: nat)
    requires WellFormed(g) && Complete(g, rep) && root in rep && u in rep && u in g.nodes && j < |u.Includes|
    requires WellFormed(Far(g, rep)) && rep[root] in Far(g, rep).nodes
    requires AllRestored(Far(g, rep), now, Below(Far(g, rep), rep[root]))
    requires rep[u] in Below(Far(g, rep), rep[root])
    ensures LinkedAs(g, rep, now, u, j)
  {
    hide WellFormed, Far, Complete, Reach, Below;
    FarChild(g, rep, u, j);
    assert Untouched(Far(g, rep), now, rep[u], j);
  }

  lemma SameLength(g: Graph, rep: Copies, t: Thrift)
    requires WellFormed(g) && Complete(g, rep) && t in rep
    ensures |rep[t].Includes| == |t.Includes| && rep[t].Filename == t.Filename && !(REF_PREFIX <= t.Filename)
  {
  }

  // ----- what the receiver collects -----

  /** The copies of the files found, under their names. */
  ghost function NamedCopies(rep: Copies, found: seq<Thrift>): map<string, Thrift>
    requires forall u :: u in found ==> u in rep
  {
    if found == [] then map[]
    else NamedCopies(rep, found[..|found| - 1])[found[|found| - 1].Filename := rep[found[|found| - 1]]]
  }

  lemma {:induction false} NamedCopiesHas(g: Graph, rep: Copies, found: seq<Thrift>, t: Thrift)
    requires WellFormed(g) && Within(g, found) && t in g.nodes && t in found
    requires forall u :: u in found ==> u in rep
    ensures t.Filename in NamedCopies(rep, found) && NamedCopies(rep, found)[t.Filename] == rep[t]
  {
    var most, last := found[..|found| - 1], found[|found| - 1];
    assert found == most + [last];
    if t in most {
      NamedCopiesHas(g, rep, most, t);
    }
  }

  lemma NamedCopiesSnoc(rep: Copies, found: seq<Thrift>, c: Thrift)
    requires (forall u :: u in found ==> u in rep) && c in rep
    ensures (forall u :: u in found + [c] ==> u in rep)
    ensures NamedCopies(rep, found + [c]) == NamedCopies(rep, found)[c.Filename := rep[c]]
  {
    assert (found + [c])[..|found|] == found;
  }

  /** The includes from the `i`-th of `t` on are copied as the walk left them. */
  ghost predicate CopiedFrom(g: Graph, rep: Copies, now: Refs, t: Thrift, i: nat, seen: seq<Thrift>)
    requires WellFormed(g) && t in g.nodes && i <= |t.Includes|
  {
    forall u, j | u in g.nodes && 0 <= j < |u.Includes| ::
      Covered(g, t, i, seen, u, j) ==> CopiedAt(g, rep, now, Kept(g, t, i, seen), u, j)
  }

  lemma CopiedInside(g: Graph, rep: Copies, now: Refs, t: Thrift, i: nat, seen: seq<Thrift>)
    requires WellFormed(g) && t in g.nodes && i < |t.Includes| && Within(g, seen)
    requires Child(g, t, i) !in seen
    requires CopiedFrom(g, rep, now, t, i, seen)
    ensures CopiedFrom(g, rep, now, Child(g, t, i), 0, seen + [Child(g, t, i)])
    ensures CopiedFrom(g, rep, now, t, i + 1, Visit(g, Child(g, t, i), 0, seen + [Child(g, t, i)]))
  {
    var c := Child(g, t, i);
    var next := Visit(g, c, 0, seen + [c]);
    assert Visit(g, t, i, seen) == Visit(g, t, i + 1, next);
    InPrefix(seen, seen + [c]);
    InPrefix(seen + [c], next);
    InPrefix(next, Visit(g, t, i + 1, next));
    VisitFinds(g, c, 0, seen + [c]);
    assert c in seen + [c];
    hide WellFormed, Visit, Kept;
    forall u, j | u in g.nodes && 0 <= j < |u.Includes| && Covered(g, c, 0, seen + [c], u, j)
      ensures CopiedAt(g, rep, now, Kept(g, c, 0, seen + [c]), u, j)
    {
      KeptSplit(g, t, i, seen, u, j);
      assert CopiedAt(g, rep, now, Kept(g, t, i, seen), u, j);
    }
    var i' := i + 1;
    forall u, j | u in g.nodes && 0 <= j < |u.Includes| && Covered(g, t, i', next, u, j)
      ensures CopiedAt(g, rep, now, Kept(g, t, i', next), u, j)
    {
      KeptSplit(g, t, i, seen, u, j);
      assert CopiedAt(g, rep, now, Kept(g, t, i, seen), u, j);
    }
    assert CopiedFrom(g, rep, now, t, i', next);
  }

  /** Collecting the files that are there in full finds the copy of every file of the walk. */
  lemma {:induction false} GathersVisit(g: Graph, rep: Copies, now: Refs, t: Thrift, i: nat, seen: seq<Thrift>)
    requires WellFormed(g) && Complete(g, rep) && t in rep && t in g.nodes && i <= |t.Includes| && Within(g, seen)
    requires now.Keys == Far(g, rep).link.Keys
    requires CopiedFrom(g, rep, now, t, i, seen)
    requires forall u :: u in Visit(g, t, i, seen) ==> u in rep
    ensures WellFormed(Far(g, rep)) && rep[t] in Far(g, rep).nodes && |rep[t].Includes| == |t.Includes|
    ensures forall u :: u in seen ==> u in rep
    ensures Gathered(Far(g, rep), now, rep[t], i, NamedCopies(rep, seen)) == NamedCopies(rep, Visit(g, t, i, seen))
    decreases g.rank[t], |t.Includes| - i
  {
    hide WellFormed, Far, Complete, Kept, NamedCopies, CopiedFrom;
    FarIsWellFormed(g, rep);
    FarNode(g, rep, t);
    SameLength(g, rep, t);
    InPrefix(seen, Visit(g, t, i, seen));
    if i < |t.Includes| {
      var c := Child(g, t, i);
      FarChild(g, rep, t, i);
      HeadCopied(g, rep, now, t, i, seen);
      if c in seen {
        StubCopiedFrom(g, rep, now, t, i, seen);
        GathersVisit(g, rep, now, t, i + 1, seen);
      } else {
        var next := Visit(g, c, 0, seen + [c]);
        InPrefix(next, Visit(g, t, i + 1, next));
        InPrefix(seen + [c], next);
        VisitFinds(g, c, 0, seen + [c]);
        CopiedInside(g, rep, now, t, i, seen);
        NamedCopiesSnoc(rep, seen, c);
        SameLength(g, rep, c);
        GathersVisit(g, rep, now, c, 0, seen + [c]);
        GathersVisit(g, rep, now, t, i + 1, next);
      }
    }
  }

  lemma StubCopiedFrom(g: Graph, rep: Copies, now: Refs, t: Thrift, i: nat, seen: seq<Thrift>)
    requires WellFormed(g) && t in g.nodes && i < |t.Includes| && Child(g, t, i) in seen
    requires CopiedFrom(g, rep, now, t, i, seen)
    ensures CopiedFrom(g, rep, now, t, i + 1, seen)
  {
    hide WellFormed;
    assert Kept(g, t, i, seen) == Kept(g, t, i + 1, seen) && Visit(g, t, i, seen) == Visit(g, t, i + 1, seen);
    hide Kept, Visit;
    var i' := i + 1;
    forall u, j | u in g.nodes && 0 <= j < |u.Includes| && Covered(g, t, i', seen, u, j)
      ensures CopiedAt(g, rep, now, Kept(g, t, i', seen), u, j)
    {
      assert Covered(g, t, i, seen, u, j);
    }
    assert CopiedFrom(g, rep, now, t, i', seen);
  }

  /** The receiver recognises a stub by its name. */
  lemma HeadCopied(g: Graph, rep: Copies, now: Refs, t: Thrift, i: nat, seen: seq<Thrift>)
    requires WellFormed(g) && Complete(g, rep) && t in rep && t in g.nodes && i < |t.Includes| && Within(g, seen)
    requires CopiedFrom(g, rep, now, t, i, seen)
    requires |rep[t].Includes| == |t.Includes|
    ensures rep[t].Includes[i] in now
    ensures REF_PREFIX <= now[rep[t].Includes[i]].Filename <==> Child(g, t, i) in seen
  {
    var c := Child(g, t, i);
    KeptHere(g, t, i, seen);
    assert Covered(g, t, i, seen, t, i) && CopiedAt(g, rep, now, Kept(g, t, i, seen), t, i);
    assert c in rep ==> rep[c].Filename == c.Filename;
    assert !(REF_PREFIX <= c.Filename);
    assert REF_PREFIX <= REF_PREFIX + c.Filename;
  }

  // ----- the receiver -----

  /** The copies of the root and of everything the walk found make up a graph. */
  lemma DecodedIsComplete(g: Graph, rep: Copies, far: Refs, root: Thrift, incls: seq<Include>, x: Thrift)
    requires WellFormed(g) && root in g.nodes
    requires Copied(g, rep, far, root, 0, []) && CopiedIncludes(g, rep, far, root, 0, [], incls)
    requires x.Filename == root.Filename && x.Includes == incls
    ensures Complete(g, rep[root := x])
    ensures CopiedFrom(g, rep[root := x], far, root, 0, [])
    ensures forall u :: u in Visit(g, root, 0, []) ==> u in rep
  {
    var rep' := rep[root := x];
    VisitFinds(g, root, 0, []);
    hide WellFormed, Visit, Kept;
    assert root !in rep;
    CopiesAreFar(g, rep, far, root, 0, []);
    forall u, j | u in rep' && u in g.nodes && 0 <= j < |u.Includes| ensures Child(g, u, j) in rep' {
      VisitClosed(g, root, 0, [], u, j);
    }
    forall u, j | u in g.nodes && 0 <= j < |u.Includes| && Covered(g, root, 0, [], u, j)
      ensures CopiedAt(g, rep', far, Kept(g, root, 0, []), u, j)
    {
      if u == root {
        assert IsCopy(g, rep, far, Kept(g, root, 0, []), root, 0 + j, incls[j]);
      } else {
        assert CopiedAt(g, rep, far, Kept(g, root, 0, []), u, j);
      }
    }
  }

  /** What the receiver decoded lets it resolve every stub. */
  lemma DecodedIsResolvable(g: Graph, rep: Copies, now: Refs, root: Thrift)
    requires WellFormed(g) && Complete(g, rep) && root in rep && root in g.nodes
    requires rep.Keys == Fresh(g, root, 0, []) + {root}
    requires now.Keys == Far(g, rep).link.Keys && CopiedFrom(g, rep, now, root, 0, [])
    ensures WellFormed(Far(g, rep)) && rep[root] in Far(g, rep).nodes
    ensures Stubbed(Far(g, rep), now, Far(g, rep).nodes)
    ensures AllResolvable(Far(g, rep), now, Gathered(Far(g, rep), now, rep[root], 0, map[]), Far(g, rep).nodes)
  {
    hide WellFormed, Far, Visit, Kept, Gathered, Complete, CopiedFrom, Resolvable, Covered, Below, Reach, NamedCopies, Stubbed;
    var g' := Far(g, rep);
    GathersVisit(g, rep, now, root, 0, []);
    VisitFinds(g, root, 0, []);
    var dict := NamedCopies(rep, Visit(g, root, 0, []));
    assert NamedCopies(rep, []) == map[] by { NoCopies(rep); }
    forall x, j | x in g'.nodes && 0 <= j < |x.Includes|
      ensures Resolvable(g', now, dict, x, j)
    {
      var u := Original(g, rep, x);
      ResolvableCopy(g, rep, now, root, u, j);
    }
    NothingRestored(g', now, rep[root], dict);
    StillResolvable(g', now, now, dict, g'.nodes, g'.nodes);
  }

  lemma NoCopies(rep: Copies)
    ensures NamedCopies(rep, []) == map[]
  {
  }

  lemma ResolvableCopy(g: Graph, rep: Copies, now: Refs, root: Thrift, u: Thrift, j: nat)
    requires WellFormed(g) && Complete(g, rep) && root in rep && root in g.nodes && u in rep
    requires rep.Keys == Fresh(g, root, 0, []) + {root}
    requires CopiedFrom(g, rep, now, root, 0, [])
    requires j < |rep[u].Includes|
    ensures WellFormed(Far(g, rep)) && rep[u] in Far(g, rep).nodes && HasEdge(Far(g, rep), rep[u], j)
    ensures Resolvable(Far(g, rep), now, NamedCopies(rep, Visit(g, root, 0, [])), rep[u], j)
  {
    hide WellFormed, Far, Visit, Kept;
    SameLength(g, rep, u);
    FarChild(g, rep, u, j);
    FarEdge(g, rep, u, j);
    var c := Child(g, u, j);
    SameLength(g, rep, c);
    VisitFinds(g, root, 0, []);
    VisitClosed(g, root, 0, [], u, j);
    NamedCopiesHas(g, rep, Visit(g, root, 0, []), c);
    assert Covered(g, root, 0, [], u, j) && CopiedAt(g, rep, now, Kept(g, root, 0, []), u, j);
  }

  /** The links of the copied graph are among the new objects. */
  lemma FarLinksAreNew(g: Graph, rep: Copies, far: Refs, root: Thrift)
    requires WellFormed(g) && Complete(g, rep) && root in rep && root in g.nodes
    requires rep.Keys == Fresh(g, root, 0, []) + {root}
    requires CopiedFrom(g, rep, far, root, 0, [])
    ensures Far(g, rep).link.Keys <= far.Keys
  {
    hide WellFormed, Far, Visit, Kept, Complete;
    forall l | l in Far(g, rep).link ensures l in far {
      var u, j := OriginalLink(g, rep, l);
      assert Covered(g, root, 0, [], u, j) && CopiedAt(g, rep, far, Kept(g, root, 0, []), u, j);
    }
  }

  lemma FarLinksSuffice(g: Graph, rep: Copies, far: Refs, now: Refs, root: Thrift)
    requires WellFormed(g) && Complete(g, rep) && root in rep && root in g.nodes
    requires rep.Keys == Fresh(g, root, 0, []) + {root}
    requires CopiedFrom(g, rep, far, root, 0, [])
    requires now.Keys == Far(g, rep).link.Keys && forall l :: l in now ==> l in far && now[l] == far[l]
    ensures CopiedFrom(g, rep, now, root, 0, [])
  {
    hide WellFormed, Far, Visit, Kept, Complete;
    forall u, j | u in g.nodes && 0 <= j < |u.Includes| && Covered(g, root, 0, [], u, j)
      ensures CopiedAt(g, rep, now, Kept(g, root, 0, []), u, j)
    {
      assert CopiedAt(g, rep, far, Kept(g, root, 0, []), u, j);
      FarLink(g, rep, u, j);
    }
  }

  lemma Original(g: Graph, rep: Copies, x: Thrift) returns (u: Thrift)
    requires WellFormed(g) && Complete(g, rep) && x in Far(g, rep).nodes
    ensures u in rep && rep[u] == x && u in g.nodes
  {
    u :| u in rep && rep[u] == x;
  }

  lemma OriginalLink(g: Graph, rep: Copies, l: Include) returns (u: Thrift, j: nat)
    requires WellFormed(g) && Complete(g, rep) && l in Far(g, rep).link
    ensures u in rep && j < |u.Includes| && |rep[u].Includes| == |u.Includes| && rep[u].Includes[j] == l && u in g.nodes
  {
    u, j :| u in rep && 0 <= j < |u.Includes| && rep[u].Includes[j] == l;
  }

  /** The far side: given the tree that compression leaves, the receiver builds new objects,
      decompresses them with a nil map, never panics, and ends up with objects that store
      the unfolding of the original graph, and with one object for every file of it. */
  method Rebuild(tree: Tree, ghost g: Graph, ghost root: Thrift)
    returns (x: Thrift, panics: bool, ghost now: Refs, ghost rep: Copies)
    requires WellFormed(g) && root in g.nodes
    requires tree == File(root.Filename, Trim(g, root, 0, []))
    ensures !panics
    ensures Stores(now, x, Unfold(g, root)) && Holds(now)
    ensures root in rep && rep[root] == x && SameGraph(g, rep, now, root)
  {
    hide WellFormed, Visit, Kept, Copied, CopiedIncludes, CopiedFrom, Complete, Far, Below, Reach, AllResolvable, AllRestored,
         Gathered;
    var incls, rep0, far := Decode(tree.kids, g, root, 0, []);
    x := new Thrift(tree.name, incls);
    rep := rep0[root := x];
    DecodedIsComplete(g, rep0, far, root, incls, x);
    assert rep.Keys == Fresh(g, root, 0, []) + {root} by { CopiedKeys(g, rep0, far, root); }
    ghost var g' := Far(g, rep);
    FarIsWellFormed(g, rep);
    FarNode(g, rep, root);
    FarLinksAreNew(g, rep, far, root);
    FarLinksSuffice(g, rep, far, Now(g'), root);
    DecodedIsResolvable(g, rep, Now(g'), root);
    ghost var dict := Gathered(g', Now(g'), x, 0, map[]);
    NothingRestored(g', Now(g'), x, dict);
    StillResolvable(g', Now(g'), Now(g'), dict, g'.nodes, Below(g', x));
    ResolvableIsKnown(g', Now(g'), dict, Below(g', x));
    panics := DecompressThriftInclude(x, null, g');
    now := Now(g');
    StoresUnfold(g', now, x, 0);
    UnfoldFar(g, rep, root, 0);
    CopiesMatch(g, rep, now, root);
  }

  lemma CopiedKeys(g: Graph, rep: Copies, far: Refs, root: Thrift)
    requires WellFormed(g) && root in g.nodes && Copied(g, rep, far, root, 0, [])
    ensures rep.Keys == Fresh(g, root, 0, [])
  {
  }
}
