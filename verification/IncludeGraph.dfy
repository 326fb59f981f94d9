/** Compression of the include graph before it is sent to a plugin, and its revert:
    plugin/plugin.go.  A file that several others include is kept in full where a
    depth-first walk meets it first; every other include gets a stub that only holds
    the name of the file. */
module IncludeGraph {

  const REF_PREFIX: string := "THRIFGO_REF:"

  /** The two fields these functions read; they never assign them. */
  class Thrift {
    const Filename: string
    const Includes: seq<Include>

    constructor (filename: string, includes: seq<Include>)
      ensures Filename == filename && Includes == includes
    {
      Filename := filename;
      Includes := includes;
    }
  }

  class Include {
    var Reference: Thrift

    constructor (reference: Thrift)
      ensures Reference == reference
    {
      Reference := reference;
    }
  }

  /** A Go map from filenames to files, which is passed by reference. */
  class FileMap {
    var entries: map<string, Thrift>

    constructor ()
      ensures entries == map[]
    {
      entries := map[];
    }
  }

  function TrimPrefix(s: string): string {
    if REF_PREFIX <= s then s[|REF_PREFIX|..] else s
  }

  lemma TrimPrefixOf(s: string)
    ensures TrimPrefix(REF_PREFIX + s) == s
    ensures TrimPrefix(s) != s <==> REF_PREFIX <= s
  {
  }

  // ----- the graph as it was parsed -----

  /** A set of files closed under inclusion, with the target of each include.  A rank
      that goes down along every include says that there is no include circle. */
  datatype Graph = Graph(nodes: set<Thrift>, link: map<Include, Thrift>, rank: map<Thrift, nat>)

  ghost predicate WellFormed(g: Graph) {
    && (forall t :: t in g.nodes ==> t in g.rank && !(REF_PREFIX <= t.Filename))
    && (forall t, i :: t in g.nodes && 0 <= i < |t.Includes| ==> HasEdge(g, t, i))
    && (forall t, u :: t in g.nodes && u in g.nodes && t.Filename == u.Filename ==> t == u)
    && (forall t, u, i, j | t in g.nodes && u in g.nodes && 0 <= i < |t.Includes| && 0 <= j < |u.Includes| ::
          t.Includes[i] == u.Includes[j] ==> t == u && i == j)
  }

  ghost predicate HasEdge(g: Graph, t: Thrift, i: nat)
    requires i < |t.Includes|
  {
    t.Includes[i] in g.link && g.link[t.Includes[i]] in g.nodes
    && t in g.rank && g.link[t.Includes[i]] in g.rank && g.rank[g.link[t.Includes[i]]] < g.rank[t]
  }

  /** The file that the `i`-th include of `t` names. */
  ghost function Child(g: Graph, t: Thrift, i: nat): (c: Thrift)
    requires WellFormed(g) && t in g.nodes && i < |t.Includes|
    ensures c in g.nodes && t in g.rank && c in g.rank && g.rank[c] < g.rank[t]
  {
    assert HasEdge(g, t, i);
    g.link[t.Includes[i]]
  }

  ghost function Links(g: Graph): set<Include> {
    g.link.Keys
  }

  ghost predicate IsStubOf(s: Thrift, t: Thrift) {
    s.Filename == REF_PREFIX + t.Filename && s.Includes == []
  }

  // ----- the walk -----

  /** The files found, in order, when the includes of `t` from the `i`-th on are walked
      depth first and `seen` have been found before. */
  ghost function Visit(g: Graph, t: Thrift, i: nat, seen: seq<Thrift>): (found: seq<Thrift>)
    requires WellFormed(g) && t in g.nodes && i <= |t.Includes|
    ensures seen <= found
    decreases g.rank[t], |t.Includes| - i
  {
    if i == |t.Includes| then seen
    else
      var c := Child(g, t, i);
      if c in seen then Visit(g, t, i + 1, seen)
      else Visit(g, t, i + 1, Visit(g, c, 0, seen + [c]))
  }

  /** The includes through which the walk finds a file for the first time. */
  ghost function Kept(g: Graph, t: Thrift, i: nat, seen: seq<Thrift>): set<Include>
    requires WellFormed(g) && t in g.nodes && i <= |t.Includes|
    decreases g.rank[t], |t.Includes| - i
  {
    if i == |t.Includes| then {}
    else
      var c := Child(g, t, i);
      if c in seen then Kept(g, t, i + 1, seen)
      else {t.Includes[i]} + Kept(g, c, 0, seen + [c]) + Kept(g, t, i + 1, Visit(g, c, 0, seen + [c]))
  }

  /** The map that holds the files of `found` under their names. */
  ghost function Named(found: seq<Thrift>): map<string, Thrift> {
    if found == [] then map[]
    else Named(found[..|found| - 1])[found[|found| - 1].Filename := found[|found| - 1]]
  }

  ghost predicate Within(g: Graph, found: seq<Thrift>) {
    forall t :: t in found ==> t in g.nodes
  }

  lemma {:induction false} NamedHas(g: Graph, found: seq<Thrift>, t: Thrift)
    requires WellFormed(g) && Within(g, found) && t in g.nodes
    ensures t.Filename in Named(found) <==> t in found
    ensures t in found ==> Named(found)[t.Filename] == t
  {
    if found != [] {
      var most, last := found[..|found| - 1], found[|found| - 1];
      assert found == most + [last];
      NamedHas(g, most, t);
    }
  }

  lemma InPrefix<T>(s: seq<T>, s': seq<T>)
    requires s <= s'
    ensures forall x :: x in s ==> x in s'
  {
  }

  lemma {:induction false} VisitFinds(g: Graph, t: Thrift, i: nat, seen: seq<Thrift>)
    requires WellFormed(g) && t in g.nodes && i <= |t.Includes| && Within(g, seen)
    ensures Within(g, Visit(g, t, i, seen))
    ensures forall u :: u in Visit(g, t, i, seen) && u !in seen ==> u in g.rank && g.rank[u] < g.rank[t]
    decreases g.rank[t], |t.Includes| - i
  {
    hide WellFormed;
    if i < |t.Includes| {
      var c := Child(g, t, i);
      if c in seen {
        VisitFinds(g, t, i + 1, seen);
      } else {
        VisitFinds(g, c, 0, seen + [c]);
        VisitFinds(g, t, i + 1, Visit(g, c, 0, seen + [c]));
      }
    }
  }

  /** A kept include belongs to the file that is walked or to one the walk finds. */
  lemma {:induction false} KeptOwner(g: Graph, t: Thrift, i: nat, seen: seq<Thrift>, u: Thrift, j: nat)
    requires WellFormed(g) && t in g.nodes && i <= |t.Includes| && Within(g, seen)
    requires u in g.nodes && j < |u.Includes| && u.Includes[j] in Kept(g, t, i, seen)
    ensures (u == t && i <= j) || (u in Visit(g, t, i, seen) && u !in seen)
    ensures Child(g, u, j) in Visit(g, t, i, seen)
    decreases g.rank[t], |t.Includes| - i
  {
    var c := Child(g, t, i);
    if c in seen {
      KeptOwner(g, t, i + 1, seen, u, j);
    } else {
      var next := Visit(g, c, 0, seen + [c]);
      VisitFinds(g, c, 0, seen + [c]);
      InPrefix(seen, seen + [c]);
      InPrefix(seen + [c], next);
      InPrefix(next, Visit(g, t, i + 1, next));
      if u.Includes[j] in Kept(g, c, 0, seen + [c]) {
        KeptOwner(g, c, 0, seen + [c], u, j);
      } else if u.Includes[j] in Kept(g, t, i + 1, next) {
        KeptOwner(g, t, i + 1, next, u, j);
      } else {
        assert u.Includes[j] == t.Includes[i] && c in seen + [c];
      }
    }
  }

  // ----- compression -----

  /** Where the includes point. */
  type Refs = map<Include, Thrift>

  ghost function Now(g: Graph): (now: Refs)
    reads Links(g)
    ensures now.Keys == g.link.Keys
  {
    map l | l in g.link :: l.Reference
  }

  /** What compression leaves in the `j`-th include of `u`: its target if the walk found
      the target through it, and else a stub. */
  ghost predicate Compressed(g: Graph, now: Refs, kept: set<Include>, u: Thrift, j: nat)
    requires WellFormed(g) && u in g.nodes && j < |u.Includes|
  {
    var l := u.Includes[j];
    l in now && if l in kept then now[l] == Child(g, u, j) else IsStubOf(now[l], Child(g, u, j))
  }

  ghost predicate Untouched(g: Graph, now: Refs, u: Thrift, j: nat)
    requires WellFormed(g) && u in g.nodes && j < |u.Includes|
  {
    u.Includes[j] in now && now[u.Includes[j]] == Child(g, u, j)
  }

  /** The files below `p` that are not in `seen` have untouched includes, and `p` has from
      the `i`-th on. */
  ghost predicate Pending(g: Graph, now: Refs, p: Thrift, i: nat, seen: seq<Thrift>)
    requires WellFormed(g) && p in g.nodes
  {
    forall u, j | u in g.nodes && 0 <= j < |u.Includes| ::
      (u == p && i <= j) || (u != p && u !in seen && g.rank[u] < g.rank[p]) ==> Untouched(g, now, u, j)
  }

  ghost predicate Passed(p: Thrift, i: nat, seen: seq<Thrift>, found: seq<Thrift>, u: Thrift, j: nat) {
    (u == p && j < i) || (u != p && u in found && u !in seen)
  }

  /** The includes of `p` before the `i`-th and those of the files found since `seen` are
      compressed; all others are as they were. */
  ghost predicate Progress(g: Graph, was: Refs, now: Refs, kept: set<Include>, p: Thrift, i: nat,
                           seen: seq<Thrift>, found: seq<Thrift>)
    requires WellFormed(g) && p in g.nodes
  {
    && was.Keys == now.Keys == g.link.Keys
    && (forall u, j | u in g.nodes && 0 <= j < |u.Includes| ::
          if Passed(p, i, seen, found, u, j) then Compressed(g, now, kept, u, j)
          else HasEdge(g, u, j) && now[u.Includes[j]] == was[u.Includes[j]])
  }

  /** The walk from the `i`-th include of `p` stands at `found`. */
  ghost predicate Reached(g: Graph, p: Thrift, i: nat, seen: seq<Thrift>, found: seq<Thrift>, kept: set<Include>)
    requires WellFormed(g) && p in g.nodes && i <= |p.Includes|
  {
    && Within(g, found) && seen <= found
    && Visit(g, p, 0, seen) == Visit(g, p, i, found)
    && (forall u, j | u in g.nodes && 0 <= j < |u.Includes| ::
          (u == p && i <= j) || (u != p && u !in found) ==>
            (u.Includes[j] in kept <==> u.Includes[j] in Kept(g, p, i, found)))
    && (forall u :: u in found && u !in seen ==> u in g.rank && g.rank[u] < g.rank[p])
  }

  /** `m` is the map of the files seen so far, which the method extends. */
  method CompressThriftInclude(p: Thrift, m: FileMap, ghost g: Graph, ghost seen: seq<Thrift>)
    requires WellFormed(g) && p in g.nodes && Within(g, seen)
    requires m.entries == Named(seen)
    requires Pending(g, Now(g), p, 0, seen)
    modifies Links(g), m
    ensures m.entries == Named(Visit(g, p, 0, seen))
    ensures Progress(g, old(Now(g)), Now(g), Kept(g, p, 0, seen), p, |p.Includes|, seen, Visit(g, p, 0, seen))
    decreases g.rank[p], 1
  {
    hide Visit, Kept, Named, WellFormed, Progress, Reached, Pending;
    ghost var kept := Kept(g, p, 0, seen);
    ghost var found, was := seen, Now(g);
    Start(g, was, kept, p, seen);
    for i := 0 to |p.Includes|
      invariant Within(g, found) && Reached(g, p, i, seen, found, kept)
      invariant m.entries == Named(found)
      invariant Progress(g, was, Now(g), kept, p, i, seen, found)
    {
      found := CompressInclude(p, i, m, g, was, kept, seen, found);
    }
    Finish(g, kept, p, seen, found);
  }

  /** The body of the loop. */
  method CompressInclude(p: Thrift, i: nat, m: FileMap, ghost g: Graph, ghost was: Refs, ghost kept: set<Include>,
                         ghost seen: seq<Thrift>, ghost found: seq<Thrift>)
    returns (ghost next: seq<Thrift>)
    requires WellFormed(g) && p in g.nodes && i < |p.Includes|
    requires Pending(g, was, p, 0, seen)
    requires Within(g, found) && Reached(g, p, i, seen, found, kept)
    requires m.entries == Named(found)
    requires Progress(g, was, Now(g), kept, p, i, seen, found)
    modifies Links(g), m
    ensures Within(g, next) && Reached(g, p, i + 1, seen, next, kept)
    ensures m.entries == Named(next)
    ensures Progress(g, was, Now(g), kept, p, i + 1, seen, next)
    decreases g.rank[p], 0
  {
    hide Visit, Kept, Named, WellFormed, Progress, Reached, Pending;
    var incl := p.Includes[i];
    ghost var c, before := Child(g, p, i), Now(g);
    NextUntouched(g, was, before, kept, p, i, seen, found);
    NamedHas(g, found, c);
    if incl.Reference.Filename in m.entries {
      var stub := new Thrift(REF_PREFIX + incl.Reference.Filename, []);
      incl.Reference := stub;
      assert Now(g) == before[incl := stub];
      StubReached(g, kept, p, i, seen, found);
      StubProgress(g, was, before, Now(g), kept, p, i, seen, found, stub);
      next := found;
    } else {
      m.entries := m.entries[incl.Reference.Filename := incl.Reference];
      assert Now(g) == before;
      PendingChild(g, was, before, kept, p, i, seen, found);
      NamedSnoc(found, c);
      CompressThriftInclude(incl.Reference, m, g, found + [c]);
      FileReached(g, kept, p, i, seen, found);
      FileProgress(g, was, before, Now(g), kept, p, i, seen, found);
      next := Visit(g, c, 0, found + [c]);
    }
  }

  lemma NamedSnoc(found: seq<Thrift>, c: Thrift)
    ensures Named(found + [c]) == Named(found)[c.Filename := c]
  {
    assert (found + [c])[..|found|] == found;
  }

  lemma Start(g: Graph, was: Refs, kept: set<Include>, p: Thrift, seen: seq<Thrift>)
    requires WellFormed(g) && p in g.nodes && Within(g, seen)
    requires was.Keys == g.link.Keys && kept == Kept(g, p, 0, seen)
    ensures Reached(g, p, 0, seen, seen, kept)
    ensures Progress(g, was, was, kept, p, 0, seen, seen)
  {
    hide Visit, Kept;
  }

  lemma Finish(g: Graph, kept: set<Include>, p: Thrift, seen: seq<Thrift>, found: seq<Thrift>)
    requires WellFormed(g) && p in g.nodes
    requires Reached(g, p, |p.Includes|, seen, found, kept)
    ensures found == Visit(g, p, 0, seen)
  {
  }

  lemma NextUntouched(g: Graph, was: Refs, now: Refs, kept: set<Include>, p: Thrift, i: nat,
                      seen: seq<Thrift>, found: seq<Thrift>)
    requires WellFormed(g) && p in g.nodes && i < |p.Includes|
    requires Pending(g, was, p, 0, seen) && Progress(g, was, now, kept, p, i, seen, found)
    ensures Untouched(g, now, p, i)
  {
    assert Untouched(g, was, p, i);
  }

  /** Walking on into a file that is found for the first time. */
  lemma PendingChild(g: Graph, was: Refs, now: Refs, kept: set<Include>, p: Thrift, i: nat,
                     seen: seq<Thrift>, found: seq<Thrift>)
    requires WellFormed(g) && p in g.nodes && i < |p.Includes|
    requires Pending(g, was, p, 0, seen) && Progress(g, was, now, kept, p, i, seen, found)
    requires Reached(g, p, i, seen, found, kept) && Child(g, p, i) !in found
    ensures Within(g, found + [Child(g, p, i)])
    ensures Pending(g, now, Child(g, p, i), 0, found + [Child(g, p, i)])
  {
    hide Visit, Kept;
    var c := Child(g, p, i);
    InPrefix(seen, found);
    forall u, j | u in g.nodes && 0 <= j < |u.Includes|
                  && (u == c || (u !in found + [c] && g.rank[u] < g.rank[c]))
      ensures Untouched(g, now, u, j)
    {
      assert u !in found && Untouched(g, was, u, j);
      assert !Passed(p, i, seen, found, u, j);
    }
  }

  /** A file found before gets a stub. */
  lemma StubReached(g: Graph, kept: set<Include>, p: Thrift, i: nat, seen: seq<Thrift>, found: seq<Thrift>)
    requires WellFormed(g) && p in g.nodes && i < |p.Includes|
    requires Reached(g, p, i, seen, found, kept) && Child(g, p, i) in found
    ensures Reached(g, p, i + 1, seen, found, kept)
  {
  }

  lemma StubProgress(g: Graph, was: Refs, before: Refs, now: Refs, kept: set<Include>, p: Thrift, i: nat,
                     seen: seq<Thrift>, found: seq<Thrift>, stub: Thrift)
    requires WellFormed(g) && p in g.nodes && i < |p.Includes|
    requires Reached(g, p, i, seen, found, kept) && Child(g, p, i) in found
    requires Progress(g, was, before, kept, p, i, seen, found)
    requires p.Includes[i] in g.link
    requires now == before[p.Includes[i] := stub] && IsStubOf(stub, Child(g, p, i))
    ensures Progress(g, was, now, kept, p, i + 1, seen, found)
  {
    if p.Includes[i] in Kept(g, p, i + 1, found) {
      KeptOwner(g, p, i + 1, found, p, i);
      VisitFinds(g, p, i + 1, found);
    }
    assert p.Includes[i] !in kept;
    hide Visit, Kept;
    forall u, j | u in g.nodes && 0 <= j < |u.Includes|
      ensures if Passed(p, i + 1, seen, found, u, j) then Compressed(g, now, kept, u, j)
              else HasEdge(g, u, j) && now[u.Includes[j]] == was[u.Includes[j]]
    {
      if u == p && i == j {
        assert Compressed(g, now, kept, u, j);
      } else {
        assert u.Includes[j] != p.Includes[i];
        assert Passed(p, i + 1, seen, found, u, j) == Passed(p, i, seen, found, u, j);
      }
    }
  }

  /** A file found for the first time is walked, and its include kept. */
  lemma FileReached(g: Graph, kept: set<Include>, p: Thrift, i: nat, seen: seq<Thrift>, found: seq<Thrift>)
    requires WellFormed(g) && p in g.nodes && i < |p.Includes|
    requires Reached(g, p, i, seen, found, kept) && Child(g, p, i) !in found
    ensures Reached(g, p, i + 1, seen, Visit(g, Child(g, p, i), 0, found + [Child(g, p, i)]), kept)
    ensures Within(g, Visit(g, Child(g, p, i), 0, found + [Child(g, p, i)]))
  {
    var c := Child(g, p, i);
    var next := Visit(g, c, 0, found + [c]);
    VisitFinds(g, c, 0, found + [c]);
    InPrefix(found, next);
    InPrefix(found + [c], next);
    assert Kept(g, p, i, found) == {p.Includes[i]} + Kept(g, c, 0, found + [c]) + Kept(g, p, i + 1, next);
    assert Visit(g, p, i, found) == Visit(g, p, i + 1, next);
    forall u, j | u in g.nodes && 0 <= j < |u.Includes| && ((u == p && i + 1 <= j) || (u != p && u !in next))
      ensures u.Includes[j] in kept <==> u.Includes[j] in Kept(g, p, i + 1, next)
    {
      assert u.Includes[j] in kept <==> u.Includes[j] in Kept(g, p, i, found);
      assert u.Includes[j] != p.Includes[i];
      if u.Includes[j] in Kept(g, c, 0, found + [c]) {
        KeptOwner(g, c, 0, found + [c], u, j);
      }
    }
  }

  lemma FileProgress(g: Graph, was: Refs, before: Refs, now: Refs, kept: set<Include>, p: Thrift, i: nat,
                     seen: seq<Thrift>, found: seq<Thrift>)
    requires WellFormed(g) && p in g.nodes && i < |p.Includes|
    requires Reached(g, p, i, seen, found, kept) && Child(g, p, i) !in found
    requires Untouched(g, before, p, i)
    requires Progress(g, was, before, kept, p, i, seen, found)
    requires var c := Child(g, p, i);
             Progress(g, before, now, Kept(g, c, 0, found + [c]), c, |c.Includes|, found + [c], Visit(g, c, 0, found + [c]))
    ensures Progress(g, was, now, kept, p, i + 1, seen, Visit(g, Child(g, p, i), 0, found + [Child(g, p, i)]))
  {
    hide Visit, Kept, WellFormed;
    var c := Child(g, p, i);
    var next := Visit(g, c, 0, found + [c]);
    VisitFinds(g, c, 0, found + [c]);
    InPrefix(seen, found);
    InPrefix(found + [c], next);
    FileReached(g, kept, p, i, seen, found);
    forall u, j | u in g.nodes && 0 <= j < |u.Includes|
      ensures if Passed(p, i + 1, seen, next, u, j) then Compressed(g, now, kept, u, j)
              else HasEdge(g, u, j) && now[u.Includes[j]] == was[u.Includes[j]]
    {
      var inner := Passed(c, |c.Includes|, found + [c], next, u, j);
      if u == p {
        assert !inner;
        if j == i {
          FirstIsKept(g, kept, p, i, seen, found);
        }
      } else if inner {
        KeptInside(g, kept, p, i, seen, found, u, j);
      } else {
        assert now[u.Includes[j]] == before[u.Includes[j]];
        assert Passed(p, i + 1, seen, next, u, j) == Passed(p, i, seen, found, u, j);
      }
    }
  }

  lemma FirstIsKept(g: Graph, kept: set<Include>, p: Thrift, i: nat, seen: seq<Thrift>, found: seq<Thrift>)
    requires WellFormed(g) && p in g.nodes && i < |p.Includes|
    requires Reached(g, p, i, seen, found, kept) && Child(g, p, i) !in found
    ensures p.Includes[i] in kept
  {
    assert p.Includes[i] in Kept(g, p, i, found);
  }

  lemma KeptInside(g: Graph, kept: set<Include>, p: Thrift, i: nat, seen: seq<Thrift>, found: seq<Thrift>, u: Thrift, j: nat)
    requires WellFormed(g) && p in g.nodes && i < |p.Includes|
    requires Reached(g, p, i, seen, found, kept) && Child(g, p, i) !in found
    requires u in g.nodes && j < |u.Includes| && u != p
    requires var c := Child(g, p, i);
             Passed(c, |c.Includes|, found + [c], Visit(g, c, 0, found + [c]), u, j)
    ensures u.Includes[j] in kept <==> u.Includes[j] in Kept(g, Child(g, p, i), 0, found + [Child(g, p, i)])
  {
    var c := Child(g, p, i);
    var next := Visit(g, c, 0, found + [c]);
    VisitFinds(g, c, 0, found + [c]);
    InPrefix(found + [c], next);
    assert u !in found && u in next;
    assert u.Includes[j] != p.Includes[i];
    assert u.Includes[j] in kept <==> u.Includes[j] in Kept(g, p, i, found);
    if u.Includes[j] in Kept(g, p, i + 1, next) {
      KeptOwner(g, p, i + 1, next, u, j);
    }
  }

  // ----- decompression -----

  /** The files reached from `t` through its first `i` includes. */
  ghost function Reach(g: Graph, t: Thrift, i: nat): (r: set<Thrift>)
    requires WellFormed(g) && t in g.nodes && i <= |t.Includes|
    ensures forall u :: u in r ==> u in g.nodes
    decreases g.rank[t], i
  {
    if i == 0 then {}
    else
      var c := Child(g, t, i - 1);
      Reach(g, t, i - 1) + {c} + Reach(g, c, |c.Includes|)
  }

  /** `t` and all files below it. */
  ghost function Below(g: Graph, t: Thrift): (r: set<Thrift>)
    requires WellFormed(g) && t in g.nodes
    ensures forall u :: u in r ==> u in g.nodes
  {
    {t} + Reach(g, t, |t.Includes|)
  }

  /** A stub for which the map has an entry. */
  predicate Listed(s: Thrift, dict: map<string, Thrift>) {
    REF_PREFIX <= s.Filename && TrimPrefix(s.Filename) in dict
  }

  /** The target is in place, or a stub that the map resolves to the target. */
  ghost predicate Resolvable(g: Graph, now: Refs, dict: map<string, Thrift>, u: Thrift, j: nat)
    requires WellFormed(g) && u in g.nodes && j < |u.Includes|
  {
    var l, c := u.Includes[j], Child(g, u, j);
    l in now && (now[l] == c || (Listed(now[l], dict) && dict[TrimPrefix(now[l].Filename)] == c))
  }

  ghost predicate AllResolvable(g: Graph, now: Refs, dict: map<string, Thrift>, us: set<Thrift>)
    requires WellFormed(g)
  {
    forall u, j | u in us && u in g.nodes && 0 <= j < |u.Includes| :: Resolvable(g, now, dict, u, j)
  }

  /** The target is in place, or a stub that the map resolves to the target or does not know. */
  ghost predicate Known(g: Graph, now: Refs, dict: map<string, Thrift>, u: Thrift, j: nat)
    requires WellFormed(g) && u in g.nodes && j < |u.Includes|
  {
    var l, c := u.Includes[j], Child(g, u, j);
    l in now && (now[l] == c || (REF_PREFIX <= now[l].Filename && (Listed(now[l], dict) ==> dict[TrimPrefix(now[l].Filename)] == c)))
  }

  ghost predicate AllKnown(g: Graph, now: Refs, dict: map<string, Thrift>, us: set<Thrift>)
    requires WellFormed(g)
  {
    forall u, j | u in us && u in g.nodes && 0 <= j < |u.Includes| :: Known(g, now, dict, u, j)
  }

  lemma ResolvableIsKnown(g: Graph, now: Refs, dict: map<string, Thrift>, us: set<Thrift>)
    requires WellFormed(g) && AllResolvable(g, now, dict, us)
    ensures AllKnown(g, now, dict, us)
  {
    forall u, j | u in us && u in g.nodes && 0 <= j < |u.Includes|
      ensures Known(g, now, dict, u, j)
    {
      assert Resolvable(g, now, dict, u, j);
    }
  }

  ghost predicate AllRestored(g: Graph, now: Refs, us: set<Thrift>)
    requires WellFormed(g)
  {
    forall u, j | u in us && u in g.nodes && 0 <= j < |u.Includes| :: Untouched(g, now, u, j)
  }

  /** Includes only ever change to their targets, and only when the map has their stubs. */
  ghost predicate Settles(g: Graph, was: Refs, now: Refs, dict: map<string, Thrift>) {
    && was.Keys == now.Keys == g.link.Keys
    && (forall l :: l in g.link ==> now[l] == was[l] || (now[l] == g.link[l] && Listed(was[l], dict)))
  }

  /** The files that are there in full below `p`, under their names. */
  ghost function Gathered(g: Graph, now: Refs, p: Thrift, i: nat, dict: map<string, Thrift>): map<string, Thrift>
    requires WellFormed(g) && p in g.nodes && i <= |p.Includes| && now.Keys == g.link.Keys
    decreases g.rank[p], |p.Includes| - i
  {
    if i == |p.Includes| then dict
    else
      var c := Child(g, p, i);
      assert HasEdge(g, p, i);
      if REF_PREFIX <= now[p.Includes[i]].Filename then Gathered(g, now, p, i + 1, dict)
      else Gathered(g, now, p, i + 1, Gathered(g, now, c, 0, dict[c.Filename := c]))
  }

  /** Each include is a stub or still has its target. */
  ghost predicate Stubbed(g: Graph, now: Refs, us: set<Thrift>)
    requires WellFormed(g)
  {
    now.Keys == g.link.Keys &&
    forall u, j | u in us && u in g.nodes && 0 <= j < |u.Includes| ::
      HasEdge(g, u, j) && (now[u.Includes[j]] == Child(g, u, j) || REF_PREFIX <= now[u.Includes[j]].Filename)
  }

  lemma {:induction false} ReachStep(g: Graph, t: Thrift, i: nat, j: nat)
    requires WellFormed(g) && t in g.nodes && i <= j <= |t.Includes|
    ensures Reach(g, t, i) <= Reach(g, t, j)
    ensures i < j ==> Below(g, Child(g, t, i)) <= Reach(g, t, j)
    decreases j
  {
    hide WellFormed, Reach, Below;
    if i < j {
      ReachSnoc(g, t, j);
      ReachStep(g, t, i, j - 1);
    }
  }

  lemma ReachSnoc(g: Graph, t: Thrift, j: nat)
    requires WellFormed(g) && t in g.nodes && 0 < j <= |t.Includes|
    ensures Reach(g, t, j) == Reach(g, t, j - 1) + Below(g, Child(g, t, j - 1))
  {
  }

  method CollectThriftInclude(p: Thrift, m: FileMap, ghost g: Graph)
    requires WellFormed(g) && p in g.nodes
    requires Stubbed(g, Now(g), Below(g, p))
    modifies m
    ensures m.entries == Gathered(g, Now(g), p, 0, old(m.entries))
    decreases g.rank[p]
  {
    hide Below, WellFormed;
    ghost var now := Now(g);
    for i := 0 to |p.Includes|
      invariant Now(g) == now
      invariant Gathered(g, now, p, 0, old(m.entries)) == Gathered(g, now, p, i, m.entries)
    {
      var incl := p.Includes[i];
      InBelow(g, p, i);
      ghost var c := Child(g, p, i);
      assert HasEdge(g, p, i) && (now[incl] == c || REF_PREFIX <= now[incl].Filename);
      if !(REF_PREFIX <= incl.Reference.Filename) {
        m.entries := m.entries[incl.Reference.Filename := incl.Reference];
        CollectThriftInclude(incl.Reference, m, g);
      }
    }
  }

  lemma InBelow(g: Graph, p: Thrift, i: nat)
    requires WellFormed(g) && p in g.nodes && i < |p.Includes|
    ensures p in Below(g, p) && Child(g, p, i) in Below(g, p)
    ensures Below(g, Child(g, p, i)) <= Below(g, p)
  {
    ReachStep(g, p, i, |p.Includes|);
  }

  /** The map that decompression works with. */
  ghost function Dictionary(g: Graph, now: Refs, p: Thrift, m: FileMap?): map<string, Thrift>
    requires WellFormed(g) && p in g.nodes && now.Keys == g.link.Keys
    reads m
  {
    if m == null then Gathered(g, now, p, 0, map[]) else m.entries
  }

  /** A nil map is first filled with the files that are there in full.  Looking a stub up
      in vain makes the source panic, so it does exactly when the map lacks a file. */
  method DecompressThriftInclude(p: Thrift, m: FileMap?, ghost g: Graph) returns (panics: bool)
    requires WellFormed(g) && p in g.nodes
    requires Stubbed(g, Now(g), Below(g, p))
    requires AllKnown(g, Now(g), Dictionary(g, Now(g), p, m), Below(g, p))
    modifies Links(g)
    ensures panics <==> !AllResolvable(g, old(Now(g)), old(Dictionary(g, Now(g), p, m)), Below(g, p))
    ensures !panics ==> AllRestored(g, Now(g), Below(g, p))
    ensures !panics ==> Settles(g, old(Now(g)), Now(g), old(Dictionary(g, Now(g), p, m)))
    decreases g.rank[p], 1
  {
    hide Below, WellFormed, Gathered, Reach, Settles, AllRestored, AllResolvable, AllKnown, Stubbed;
    var dict := m;
    if dict == null {
      dict := new FileMap();
      CollectThriftInclude(p, dict, g);
    }
    ghost var was, entries := Now(g), dict.entries;
    NothingRestored(g, was, p, entries);
    for i := 0 to |p.Includes|
      invariant dict.entries == entries && AllKnown(g, was, entries, Below(g, p))
      invariant Settles(g, was, Now(g), entries)
      invariant AllRestored(g, Now(g), Reach(g, p, i))
      invariant forall j :: 0 <= j < i ==> Untouched(g, Now(g), p, j)
    {
      panics := DecompressInclude(p, i, dict, g, was);
      if panics {
        return;
      }
    }
    RestoredBelow(g, Now(g), p);
    RestoredWasResolvable(g, was, Now(g), entries, Below(g, p));
    panics := false;
  }

  lemma NothingRestored(g: Graph, now: Refs, p: Thrift, dict: map<string, Thrift>)
    requires WellFormed(g) && p in g.nodes && now.Keys == g.link.Keys
    ensures Settles(g, now, now, dict) && AllRestored(g, now, Reach(g, p, 0))
  {
  }

  lemma RestoredBelow(g: Graph, now: Refs, p: Thrift)
    requires WellFormed(g) && p in g.nodes
    requires AllRestored(g, now, Reach(g, p, |p.Includes|))
    requires forall j :: 0 <= j < |p.Includes| ==> Untouched(g, now, p, j)
    ensures AllRestored(g, now, Below(g, p))
  {
  }

  /** What has been restored by looking it up was resolvable. */
  lemma RestoredWasResolvable(g: Graph, was: Refs, now: Refs, dict: map<string, Thrift>, us: set<Thrift>)
    requires WellFormed(g) && AllKnown(g, was, dict, us) && AllRestored(g, now, us) && Settles(g, was, now, dict)
    ensures AllResolvable(g, was, dict, us)
  {
    forall u, j | u in us && u in g.nodes && 0 <= j < |u.Includes|
      ensures Resolvable(g, was, dict, u, j)
    {
      assert HasEdge(g, u, j) && Known(g, was, dict, u, j) && Untouched(g, now, u, j);
    }
  }

  /** The body of the loop. */
  method DecompressInclude(p: Thrift, i: nat, m: FileMap, ghost g: Graph, ghost was: Refs) returns (panics: bool)
    requires WellFormed(g) && p in g.nodes && i < |p.Includes|
    requires AllKnown(g, was, m.entries, Below(g, p)) && Settles(g, was, Now(g), m.entries)
    requires AllRestored(g, Now(g), Reach(g, p, i))
    requires forall j :: 0 <= j < i ==> Untouched(g, Now(g), p, j)
    modifies Links(g)
    ensures panics ==> !AllResolvable(g, was, m.entries, Below(g, p))
    ensures !panics ==> Settles(g, was, Now(g), m.entries)
    ensures !panics ==> AllRestored(g, Now(g), Reach(g, p, i + 1))
    ensures !panics ==> forall j :: 0 <= j < i + 1 ==> Untouched(g, Now(g), p, j)
    decreases g.rank[p], 0
  {
    hide Below, WellFormed, Gathered, Reach, Settles, AllRestored, AllResolvable, AllKnown, Stubbed;
    var incl := p.Includes[i];
    ghost var c, before := Child(g, p, i), Now(g);
    KnownHere(g, was, before, m.entries, p, i);
    var fn := TrimPrefix(incl.Reference.Filename);
    TrimPrefixOf(incl.Reference.Filename);
    if fn != incl.Reference.Filename {
      if fn !in m.entries {
        return true;
      }
      incl.Reference := m.entries[fn];
    }
    assert Now(g) == before[incl := c];
    ghost var put := Now(g);
    SettleOne(g, was, before, put, m.entries, p, i);
    InBelow(g, p, i);
    StillKnown(g, was, put, m.entries, Below(g, p), Below(g, c));
    panics := DecompressThriftInclude(incl.Reference, m, g);
    if panics {
      NotResolvable(g, was, put, m.entries, Below(g, p), Below(g, c));
    } else {
      SettlesTwice(g, was, put, Now(g), m.entries);
      OneMoreRestored(g, before, put, Now(g), m.entries, p, i);
    }
  }

  lemma KnownHere(g: Graph, was: Refs, now: Refs, dict: map<string, Thrift>, p: Thrift, i: nat)
    requires WellFormed(g) && p in g.nodes && i < |p.Includes|
    requires AllKnown(g, was, dict, Below(g, p)) && Settles(g, was, now, dict)
    ensures Known(g, now, dict, p, i) && p.Includes[i] in g.link
    ensures !(REF_PREFIX <= Child(g, p, i).Filename)
    ensures now[p.Includes[i]] != Child(g, p, i) && !Listed(now[p.Includes[i]], dict) ==>
              !AllResolvable(g, was, dict, Below(g, p))
  {
    InBelow(g, p, i);
    assert HasEdge(g, p, i) && Known(g, was, dict, p, i);
    assert AllResolvable(g, was, dict, Below(g, p)) ==> Resolvable(g, was, dict, p, i);
  }

  lemma SettleOne(g: Graph, was: Refs, before: Refs, now: Refs, dict: map<string, Thrift>, p: Thrift, i: nat)
    requires WellFormed(g) && p in g.nodes && i < |p.Includes|
    requires Settles(g, was, before, dict) && p.Includes[i] in g.link
    requires now == before[p.Includes[i] := Child(g, p, i)]
    requires before[p.Includes[i]] == Child(g, p, i) || Listed(before[p.Includes[i]], dict)
    ensures Settles(g, was, now, dict) && Settles(g, before, now, dict)
  {
  }

  lemma SettlesTwice(g: Graph, was: Refs, now: Refs, then': Refs, dict: map<string, Thrift>)
    requires Settles(g, was, now, dict) && Settles(g, now, then', dict)
    ensures Settles(g, was, then', dict)
  {
  }

  lemma StillKnown(g: Graph, was: Refs, now: Refs, dict: map<string, Thrift>, us: set<Thrift>, vs: set<Thrift>)
    requires WellFormed(g) && AllKnown(g, was, dict, us) && Settles(g, was, now, dict) && vs <= us
    ensures AllKnown(g, now, dict, vs) && Stubbed(g, now, vs)
  {
    forall u, j | u in vs && u in g.nodes && 0 <= j < |u.Includes|
      ensures Known(g, now, dict, u, j) && HasEdge(g, u, j)
    {
      assert HasEdge(g, u, j) && Known(g, was, dict, u, j);
    }
  }

  lemma NotResolvable(g: Graph, was: Refs, now: Refs, dict: map<string, Thrift>, us: set<Thrift>, vs: set<Thrift>)
    requires WellFormed(g) && Settles(g, was, now, dict) && vs <= us
    requires !AllResolvable(g, now, dict, vs)
    ensures !AllResolvable(g, was, dict, us)
  {
    if AllResolvable(g, was, dict, us) {
      StillResolvable(g, was, now, dict, us, vs);
    }
  }

  lemma StillResolvable(g: Graph, was: Refs, now: Refs, dict: map<string, Thrift>, us: set<Thrift>, vs: set<Thrift>)
    requires WellFormed(g) && AllResolvable(g, was, dict, us) && Settles(g, was, now, dict) && vs <= us
    ensures AllResolvable(g, now, dict, vs) && Stubbed(g, now, vs)
  {
    forall u, j | u in vs && u in g.nodes && 0 <= j < |u.Includes|
      ensures Resolvable(g, now, dict, u, j) && HasEdge(g, u, j)
    {
      assert HasEdge(g, u, j) && Resolvable(g, was, dict, u, j);
    }
  }

  lemma OneMoreRestored(g: Graph, before: Refs, put: Refs, now: Refs, dict: map<string, Thrift>, p: Thrift, i: nat)
    requires WellFormed(g) && p in g.nodes && i < |p.Includes|
    requires AllRestored(g, before, Reach(g, p, i))
    requires forall j :: 0 <= j < i ==> Untouched(g, before, p, j)
    requires Settles(g, before, put, dict) && Settles(g, put, now, dict)
    requires p.Includes[i] in g.link && put[p.Includes[i]] == Child(g, p, i)
    requires AllRestored(g, now, Below(g, Child(g, p, i)))
    ensures AllRestored(g, now, Reach(g, p, i + 1))
    ensures forall j :: 0 <= j < i + 1 ==> Untouched(g, now, p, j)
  {
    var c := Child(g, p, i);
    assert Reach(g, p, i + 1) == Reach(g, p, i) + Below(g, c);
    hide Reach, Below;
    forall u, j | u in Reach(g, p, i + 1) && u in g.nodes && 0 <= j < |u.Includes|
      ensures Untouched(g, now, u, j)
    {
      if u in Reach(g, p, i) {
        assert HasEdge(g, u, j) && Untouched(g, before, u, j);
      }
    }
    forall j | 0 <= j < i + 1 ensures Untouched(g, now, p, j) {
      assert HasEdge(g, p, j);
      if j < i {
        assert Untouched(g, before, p, j);
      }
    }
  }

  // ----- what external.Execute does around the call of a plugin -----

  lemma {:induction false} VisitClosed(g: Graph, t: Thrift, i: nat, seen: seq<Thrift>, u: Thrift, j: nat)
    requires WellFormed(g) && t in g.nodes && i <= |t.Includes| && Within(g, seen)
    requires u in g.nodes && j < |u.Includes|
    requires (u == t && i <= j) || (u in Visit(g, t, i, seen) && u !in seen)
    ensures Child(g, u, j) in Visit(g, t, i, seen)
    decreases g.rank[t], |t.Includes| - i
  {
    hide WellFormed;
    var c := Child(g, t, i);
    if c in seen {
      InPrefix(seen, Visit(g, t, i, seen));
      if !(u == t && i == j) {
        VisitClosed(g, t, i + 1, seen, u, j);
      }
    } else {
      var next := Visit(g, c, 0, seen + [c]);
      VisitFinds(g, c, 0, seen + [c]);
      InPrefix(seen + [c], next);
      InPrefix(next, Visit(g, t, i + 1, next));
      if u == t && i == j {
        assert c in seen + [c];
      } else if u == c || (u in next && u !in seen + [c]) {
        VisitClosed(g, c, 0, seen + [c], u, j);
      } else {
        VisitClosed(g, t, i + 1, next, u, j);
      }
    }
  }

  lemma {:induction false} VisitBelow(g: Graph, t: Thrift, i: nat, seen: seq<Thrift>, u: Thrift)
    requires WellFormed(g) && t in g.nodes && i <= |t.Includes|
    requires u in Visit(g, t, i, seen) && u !in seen
    ensures u in Below(g, t)
    decreases g.rank[t], |t.Includes| - i
  {
    hide WellFormed;
    if i < |t.Includes| {
      var c := Child(g, t, i);
      InBelow(g, t, i);
      if c in seen {
        VisitBelow(g, t, i + 1, seen, u);
      } else {
        var next := Visit(g, c, 0, seen + [c]);
        if u in next && u != c {
          VisitBelow(g, c, 0, seen + [c], u);
        } else if u !in next {
          VisitBelow(g, t, i + 1, next, u);
        }
      }
    }
  }

  /** After compression, the map resolves every stub. */
  lemma CompressedIsResolvable(g: Graph, was: Refs, now: Refs, p: Thrift)
    requires WellFormed(g) && p in g.nodes && AllRestored(g, was, g.nodes)
    requires Progress(g, was, now, Kept(g, p, 0, []), p, |p.Includes|, [], Visit(g, p, 0, []))
    ensures AllResolvable(g, now, Named(Visit(g, p, 0, [])), g.nodes)
  {
    hide Kept;
    var found := Visit(g, p, 0, []);
    VisitFinds(g, p, 0, []);
    forall u, j | u in g.nodes && 0 <= j < |u.Includes|
      ensures Resolvable(g, now, Named(found), u, j)
    {
      assert HasEdge(g, u, j) && Untouched(g, was, u, j);
      if Passed(p, |p.Includes|, [], found, u, j) {
        VisitClosed(g, p, 0, [], u, j);
        NamedHas(g, found, Child(g, u, j));
        assert Compressed(g, now, Kept(g, p, 0, []), u, j);
      }
    }
  }

  /** Compressing, handing the graph to the encoder and decompressing with the same map
      never panics, and leaves every include with the very object it had before. */
  method Execute(root: Thrift, ghost g: Graph) returns (panics: bool, ghost sent: Refs)
    requires WellFormed(g) && root in g.nodes && AllRestored(g, Now(g), g.nodes)
    modifies Links(g)
    ensures !panics && AllRestored(g, Now(g), g.nodes)
    ensures Progress(g, old(Now(g)), sent, Kept(g, root, 0, []), root, |root.Includes|, [], Visit(g, root, 0, []))
  {
    hide Visit, Kept, Progress, AllResolvable, AllRestored, WellFormed, Below, Reach;
    ghost var was := Now(g);
    RestoredIsPending(g, was, root);
    var m := new FileMap();
    assert Now(g) == was;
    EmptyMap();
    CompressThriftInclude(root, m, g, []);
    sent := Now(g);
    CompressedIsResolvable(g, was, sent, root);
    NothingRestored(g, sent, root, m.entries);
    StillResolvable(g, sent, sent, m.entries, g.nodes, Below(g, root));
    ResolvableIsKnown(g, sent, m.entries, Below(g, root));
    panics := DecompressThriftInclude(root, m, g);
    BackInPlace(g, was, sent, Now(g), m.entries, root);
  }

  lemma EmptyMap()
    ensures Named([]) == map[]
  {
  }

  lemma RestoredIsPending(g: Graph, was: Refs, p: Thrift)
    requires WellFormed(g) && p in g.nodes && AllRestored(g, was, g.nodes)
    ensures Pending(g, was, p, 0, []) && Within(g, [])
  {
  }

  /** Every include whose target was taken away is one of the root or of a file below it. */
  lemma BackInPlace(g: Graph, was: Refs, sent: Refs, now: Refs, dict: map<string, Thrift>, p: Thrift)
    requires WellFormed(g) && p in g.nodes && AllRestored(g, was, g.nodes)
    requires Progress(g, was, sent, Kept(g, p, 0, []), p, |p.Includes|, [], Visit(g, p, 0, []))
    requires AllRestored(g, now, Below(g, p)) && Settles(g, sent, now, dict)
    ensures AllRestored(g, now, g.nodes)
  {
    hide Kept, Reach;
    forall u, j | u in g.nodes && 0 <= j < |u.Includes|
      ensures Untouched(g, now, u, j)
    {
      assert HasEdge(g, u, j) && Untouched(g, was, u, j);
      if u in Visit(g, p, 0, []) {
        VisitBelow(g, p, 0, [], u);
      }
    }
  }
}
