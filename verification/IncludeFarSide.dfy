/** The receiver of a compressed include graph: it decodes the tree into new objects,
    collects the files that are there in full and replaces every stub by one of them. */
module IncludeFarSide {
  import opened IncludeGraph
  import opened IncludeWire

  /** The new object for each file. */
  type Copies = map<Thrift, Thrift>

  /** Include `j` of the copy of `u` leads to the copy of the target if it was kept and
      to a stub otherwise. */
  ghost predicate CopiedAt(g: Graph, rep: Copies, far: Refs, kept: set<Include>, u: Thrift, j: nat)
    requires WellFormed(g) && u in g.nodes && j < |u.Includes|
  {
    u in rep && |rep[u].Includes| == |u.Includes| && IsCopy(g, rep, far, kept, u, j, rep[u].Includes[j])
  }

  ghost predicate IsCopy(g: Graph, rep: Copies, far: Refs, kept: set<Include>, u: Thrift, j: nat, l: Include)
    requires WellFormed(g) && u in g.nodes && j < |u.Includes|
  {
    var c := Child(g, u, j);
    l in far && if u.Includes[j] in kept then c in rep && far[l] == rep[c] else IsStubOf(far[l], c)
  }

  ghost predicate Named'(rep: Copies, us: set<Thrift>) {
    forall u :: u in us ==> u in rep && rep[u].Filename == u.Filename && |rep[u].Includes| == |u.Includes|
  }

  /** No include object is shared. */
  ghost predicate Owned(rep: Copies, us: set<Thrift>) {
    forall u, v, i, j | u in us && v in us && u in rep && v in rep && 0 <= i < |rep[u].Includes| && 0 <= j < |rep[v].Includes| ::
      rep[u].Includes[i] == rep[v].Includes[j] ==> u == v && i == j
  }

  /** The files found by the walk from the `i`-th include of `t`. */
  ghost function Fresh(g: Graph, t: Thrift, i: nat, seen: seq<Thrift>): set<Thrift>
    requires WellFormed(g) && t in g.nodes && i <= |t.Includes|
  {
    set u | u in Visit(g, t, i, seen) && u !in seen
  }

  ghost predicate Copied(g: Graph, rep: Copies, far: Refs, t: Thrift, i: nat, seen: seq<Thrift>)
    requires WellFormed(g) && t in g.nodes && i <= |t.Includes|
  {
    && rep.Keys == Fresh(g, t, i, seen)
    && Named'(rep, rep.Keys) && Owned(rep, rep.Keys)
    && (forall u, j | u in rep && u in g.nodes && 0 <= j < |u.Includes| ::
          CopiedAt(g, rep, far, Kept(g, t, i, seen), u, j))
  }

  /** `incls` are the copies of the includes of `t` from the `i`-th on. */
  ghost predicate CopiedIncludes(g: Graph, rep: Copies, far: Refs, t: Thrift, i: nat, seen: seq<Thrift>, incls: seq<Include>)
    requires WellFormed(g) && t in g.nodes && i <= |t.Includes|
  {
    && |incls| == |t.Includes| - i
    && (forall k, k' :: 0 <= k < k' < |incls| ==> incls[k] != incls[k'])
    && (forall k, u, j | 0 <= k < |incls| && u in rep && 0 <= j < |rep[u].Includes| :: incls[k] != rep[u].Includes[j])
    && (forall k | 0 <= k < |incls| :: IsCopy(g, rep, far, Kept(g, t, i, seen), t, i + k, incls[k]))
  }

  ghost predicate Holds(far: Refs)
    reads far.Keys
  {
    forall l :: l in far ==> l.Reference == far[l]
  }

  /** Decoding builds new objects for everything in the tree. */
  method Decode(kids: seq<Tree>, ghost g: Graph, ghost t: Thrift, ghost i: nat, ghost seen: seq<Thrift>)
    returns (incls: seq<Include>, ghost rep: Copies, ghost far: Refs)
    requires WellFormed(g) && t in g.nodes && i <= |t.Includes| && Within(g, seen)
    requires kids == Trim(g, t, i, seen)
    ensures fresh(far.Keys) && Holds(far)
    ensures Copied(g, rep, far, t, i, seen)
    ensures CopiedIncludes(g, rep, far, t, i, seen, incls)
    decreases kids, 0
  {
    hide WellFormed, Visit, Kept, Copied, CopiedIncludes;
    if kids == [] {
      NoKids(g, t, i, seen);
      return [], map[], map[];
    }
    TrimHead(g, t, i, seen);
    ghost var c := Child(g, t, i);
    match kids[0]
    case Stub(name) =>
      var stub := new Thrift(REF_PREFIX + name, []);
      var incl := new Include(stub);
      var rest, rep', far' := Decode(kids[1..], g, t, i + 1, seen);
      incls, rep, far := [incl] + rest, rep', far'[incl := stub];
      AddStub(g, rep, far', far, t, i, seen, incl, rest);
    case File(name, below) =>
      var incl, inner, file, rep1, far1 := DecodeFile(name, below, g, c, seen);
      ghost var next := Visit(g, c, 0, seen + [c]);
      VisitFinds(g, c, 0, seen + [c]);
      var rest, rep2, far2 := Decode(kids[1..], g, t, i + 1, next);
      incls := [incl] + rest;
      rep, far := Joined(rep1, c, file, rep2), JoinedRefs(far1, incl, file, far2);
      AddFile(g, rep1, rep2, rep, far1, far2, far, t, i, seen, c, next, file, incl, inner, rest);
  }

  ghost function Joined(rep1: Copies, c: Thrift, file: Thrift, rep2: Copies): Copies {
    rep1 + map[c := file] + rep2
  }

  ghost function JoinedRefs(far1: Refs, incl: Include, file: Thrift, far2: Refs): (far: Refs)
    ensures far.Keys == far1.Keys + {incl} + far2.Keys
  {
    far1 + far2 + map[incl := file]
  }

  method DecodeFile(name: string, below: seq<Tree>, ghost g: Graph, ghost c: Thrift, ghost seen: seq<Thrift>)
    returns (incl: Include, inner: seq<Include>, file: Thrift, ghost rep: Copies, ghost far: Refs)
    requires WellFormed(g) && c in g.nodes && Within(g, seen + [c])
    requires below == Trim(g, c, 0, seen + [c])
    ensures fresh(far.Keys) && fresh(incl) && incl !in far && Holds(far)
    ensures incl.Reference == file && file.Filename == name && file.Includes == inner
    ensures Copied(g, rep, far, c, 0, seen + [c])
    ensures CopiedIncludes(g, rep, far, c, 0, seen + [c], inner)
    decreases below, 1
  {
    hide WellFormed, Visit, Kept, Copied, CopiedIncludes;
    inner, rep, far := Decode(below, g, c, 0, seen + [c]);
    file := new Thrift(name, inner);
    incl := new Include(file);
  }

  lemma NoKids(g: Graph, t: Thrift, i: nat, seen: seq<Thrift>)
    requires WellFormed(g) && t in g.nodes && i <= |t.Includes| && Trim(g, t, i, seen) == []
    ensures Copied(g, map[], map[], t, i, seen) && CopiedIncludes(g, map[], map[], t, i, seen, [])
  {
  }

  lemma TrimHead(g: Graph, t: Thrift, i: nat, seen: seq<Thrift>)
    requires WellFormed(g) && t in g.nodes && i < |t.Includes|
    ensures var c := Child(g, t, i); var ts := Trim(g, t, i, seen);
            if c in seen then ts[0] == Stub(c.Filename) && ts[1..] == Trim(g, t, i + 1, seen)
            else ts[0] == File(c.Filename, Trim(g, c, 0, seen + [c]))
                 && ts[1..] == Trim(g, t, i + 1, Visit(g, c, 0, seen + [c]))
  {
  }

  lemma CopyMore(g: Graph, rep: Copies, far: Refs, kept: set<Include>, rep': Copies, far': Refs, kept': set<Include>,
                 u: Thrift, j: nat, l: Include)
    requires WellFormed(g) && u in g.nodes && j < |u.Includes| && IsCopy(g, rep, far, kept, u, j, l)
    requires u.Includes[j] in kept <==> u.Includes[j] in kept'
    requires forall v :: v in rep ==> v in rep' && rep'[v] == rep[v]
    requires l in far' && far'[l] == far[l]
    ensures IsCopy(g, rep', far', kept', u, j, l)
  {
  }

  lemma AddStub(g: Graph, rep: Copies, far: Refs, far': Refs, t: Thrift, i: nat, seen: seq<Thrift>,
                incl: Include, rest: seq<Include>)
    requires WellFormed(g) && t in g.nodes && i < |t.Includes| && Within(g, seen) && Child(g, t, i) in seen
    requires Copied(g, rep, far, t, i + 1, seen) && CopiedIncludes(g, rep, far, t, i + 1, seen, rest)
    requires incl !in far && incl in far' && far' == far[incl := far'[incl]] && IsStubOf(far'[incl], Child(g, t, i))
    ensures Copied(g, rep, far', t, i, seen)
    ensures CopiedIncludes(g, rep, far', t, i, seen, [incl] + rest)
  {
    KeptHere(g, t, i, seen);
    var kept := Kept(g, t, i, seen);
    assert kept == Kept(g, t, i + 1, seen) && Fresh(g, t, i, seen) == Fresh(g, t, i + 1, seen);
    hide WellFormed, Kept, Visit;
    forall u, j | u in rep && u in g.nodes && 0 <= j < |u.Includes|
      ensures CopiedAt(g, rep, far', kept, u, j) && rep[u].Includes[j] in far
    {
      assert CopiedAt(g, rep, far, kept, u, j);
      CopyMore(g, rep, far, kept, rep, far', kept, u, j, rep[u].Includes[j]);
    }
    var incls := [incl] + rest;
    IncludesAreFar(g, rep, far, t, i + 1, seen, rest);
    forall k | 0 <= k < |incls|
      ensures IsCopy(g, rep, far', kept, t, i + k, incls[k])
    {
      if k > 0 {
        assert incls[k] == rest[k - 1] && IsCopy(g, rep, far, kept, t, i + 1 + (k - 1), rest[k - 1]);
        CopyMore(g, rep, far, kept, rep, far', kept, t, i + k, rest[k - 1]);
      }
    }
    VisitFinds(g, t, i, seen);
    StubIsNew(g, rep, far, t, i, seen, incl, rest);
  }

  /** The new include is none of those that are there. */
  lemma StubIsNew(g: Graph, rep: Copies, far: Refs, t: Thrift, i: nat, seen: seq<Thrift>, incl: Include, rest: seq<Include>)
    requires WellFormed(g) && t in g.nodes && i < |t.Includes| && Within(g, seen)
    requires Copied(g, rep, far, t, i + 1, seen) && CopiedIncludes(g, rep, far, t, i + 1, seen, rest) && incl !in far
    ensures forall k, u, j | 0 <= k < |[incl] + rest| && u in rep && 0 <= j < |rep[u].Includes| ::
              ([incl] + rest)[k] != rep[u].Includes[j]
  {
    hide WellFormed, Kept, Visit;
    VisitFinds(g, t, i + 1, seen);
    var incls := [incl] + rest;
    forall k, u, j | 0 <= k < |incls| && u in rep && 0 <= j < |rep[u].Includes|
      ensures incls[k] != rep[u].Includes[j]
    {
      assert u in g.nodes && CopiedAt(g, rep, far, Kept(g, t, i + 1, seen), u, j);
      if k > 0 {
        assert incls[k] == rest[k - 1];
      }
    }
  }

  /** The parts of the walk that `Decode` puts together: the files below `c`, `c` itself
      and the files found after it. */
  lemma FreshSplit(g: Graph, t: Thrift, i: nat, seen: seq<Thrift>)
    requires WellFormed(g) && t in g.nodes && i < |t.Includes| && Within(g, seen) && Child(g, t, i) !in seen
    ensures var c := Child(g, t, i); var next := Visit(g, c, 0, seen + [c]);
            && Fresh(g, t, i, seen) == Fresh(g, c, 0, seen + [c]) + {c} + Fresh(g, t, i + 1, next)
            && c !in Fresh(g, c, 0, seen + [c]) && c !in Fresh(g, t, i + 1, next)
            && Fresh(g, c, 0, seen + [c]) !! Fresh(g, t, i + 1, next)
  {
    hide WellFormed;
    var c := Child(g, t, i);
    var next := Visit(g, c, 0, seen + [c]);
    InPrefix(seen, seen + [c]);
    InPrefix(seen + [c], next);
    InPrefix(next, Visit(g, t, i + 1, next));
    assert c in seen + [c];
  }

  ghost predicate AllFar(g: Graph, rep: Copies, far: Refs) {
    forall u, j :: u in rep && 0 <= j < |rep[u].Includes| ==> u in g.nodes && rep[u].Includes[j] in far
  }

  ghost predicate AreFar(incls: seq<Include>, far: Refs) {
    forall k :: 0 <= k < |incls| ==> incls[k] in far
  }

  /** All include objects of copies are among the new ones. */
  lemma CopiesAreFar(g: Graph, rep: Copies, far: Refs, t: Thrift, i: nat, seen: seq<Thrift>)
    requires WellFormed(g) && t in g.nodes && i <= |t.Includes| && Within(g, seen)
    requires Copied(g, rep, far, t, i, seen)
    ensures AllFar(g, rep, far)
  {
    VisitFinds(g, t, i, seen);
    hide WellFormed, Kept, Visit;
    forall u, j | u in rep && 0 <= j < |rep[u].Includes|
      ensures u in g.nodes && rep[u].Includes[j] in far
    {
      assert u in g.nodes && CopiedAt(g, rep, far, Kept(g, t, i, seen), u, j);
    }
  }

  lemma IncludesAreFar(g: Graph, rep: Copies, far: Refs, t: Thrift, i: nat, seen: seq<Thrift>, incls: seq<Include>)
    requires WellFormed(g) && t in g.nodes && i <= |t.Includes|
    requires CopiedIncludes(g, rep, far, t, i, seen, incls)
    ensures AreFar(incls, far)
  {
    forall k | 0 <= k < |incls| ensures incls[k] in far {
      assert IsCopy(g, rep, far, Kept(g, t, i, seen), t, i + k, incls[k]);
    }
  }

  /** What the two recursive calls of `Decode` give, for a file that is there in full. */
  ghost predicate Parts(g: Graph, rep1: Copies, rep2: Copies, rep: Copies, far1: Refs, far2: Refs, far: Refs,
                        t: Thrift, i: nat, seen: seq<Thrift>, c: Thrift, next: seq<Thrift>,
                        file: Thrift, incl: Include, inner: seq<Include>, rest: seq<Include>)
    requires WellFormed(g) && t in g.nodes && i < |t.Includes|
  {
    && Within(g, seen) && c == Child(g, t, i) && c !in seen && next == Visit(g, c, 0, seen + [c])
    && Copied(g, rep1, far1, c, 0, seen + [c]) && CopiedIncludes(g, rep1, far1, c, 0, seen + [c], inner)
    && Copied(g, rep2, far2, t, i + 1, next) && CopiedIncludes(g, rep2, far2, t, i + 1, next, rest)
    && file.Filename == c.Filename && file.Includes == inner
    && rep == Joined(rep1, c, file, rep2)
    && incl !in far1 && incl !in far2 && far1.Keys !! far2.Keys
    && far == JoinedRefs(far1, incl, file, far2)
  }

  /** The walks of the parts stay apart, and their include objects are the new ones. */
  lemma PartsApart(g: Graph, rep1: Copies, rep2: Copies, rep: Copies, far1: Refs, far2: Refs, far: Refs,
                   t: Thrift, i: nat, seen: seq<Thrift>, c: Thrift, next: seq<Thrift>,
                   file: Thrift, incl: Include, inner: seq<Include>, rest: seq<Include>)
    requires WellFormed(g) && t in g.nodes && i < |t.Includes|
    requires Parts(g, rep1, rep2, rep, far1, far2, far, t, i, seen, c, next, file, incl, inner, rest)
    ensures c !in rep1 && c !in rep2 && rep1.Keys !! rep2.Keys && rep.Keys == Fresh(g, t, i, seen)
    ensures AllFar(g, rep1, far1) && AllFar(g, rep2, far2) && AreFar(inner, far1) && AreFar(rest, far2)
    ensures Within(g, next)
  {
    hide WellFormed, Kept, Visit, CopiedIncludes, Owned, CopiedAt, AllFar, AreFar;
    FreshSplit(g, t, i, seen);
    VisitFinds(g, c, 0, seen + [c]);
    CopiesAreFar(g, rep1, far1, c, 0, seen + [c]);
    CopiesAreFar(g, rep2, far2, t, i + 1, next);
    IncludesAreFar(g, rep1, far1, c, 0, seen + [c], inner);
    IncludesAreFar(g, rep2, far2, t, i + 1, next, rest);
  }

  lemma PartCopied(g: Graph, rep1: Copies, rep2: Copies, rep: Copies, far1: Refs, far2: Refs, far: Refs,
                   t: Thrift, i: nat, seen: seq<Thrift>, c: Thrift, next: seq<Thrift>,
                   file: Thrift, incl: Include, inner: seq<Include>, rest: seq<Include>, u: Thrift, j: nat)
    requires WellFormed(g) && t in g.nodes && i < |t.Includes|
    requires Parts(g, rep1, rep2, rep, far1, far2, far, t, i, seen, c, next, file, incl, inner, rest)
    requires u in rep && u in g.nodes && j < |u.Includes|
    ensures CopiedAt(g, rep, far, Kept(g, t, i, seen), u, j)
  {
    hide WellFormed, Kept, Visit, Owned, IsCopy;
    PartsApart(g, rep1, rep2, rep, far1, far2, far, t, i, seen, c, next, file, incl, inner, rest);
    KeptSplit(g, t, i, seen, u, j);
    FreshSplit(g, t, i, seen);
    var kept := Kept(g, t, i, seen);
    if u == c {
      assert IsCopy(g, rep1, far1, Kept(g, c, 0, seen + [c]), c, 0 + j, inner[j]);
      CopyMore(g, rep1, far1, Kept(g, c, 0, seen + [c]), rep, far, kept, u, j, inner[j]);
    } else if u in rep1 {
      assert CopiedAt(g, rep1, far1, Kept(g, c, 0, seen + [c]), u, j);
      CopyMore(g, rep1, far1, Kept(g, c, 0, seen + [c]), rep, far, kept, u, j, rep1[u].Includes[j]);
    } else {
      assert CopiedAt(g, rep2, far2, Kept(g, t, i + 1, next), u, j);
      CopyMore(g, rep2, far2, Kept(g, t, i + 1, next), rep, far, kept, u, j, rep2[u].Includes[j]);
    }
  }

  lemma PartIncluded(g: Graph, rep1: Copies, rep2: Copies, rep: Copies, far1: Refs, far2: Refs, far: Refs,
                     t: Thrift, i: nat, seen: seq<Thrift>, c: Thrift, next: seq<Thrift>,
                     file: Thrift, incl: Include, inner: seq<Include>, rest: seq<Include>, k: nat)
    requires WellFormed(g) && t in g.nodes && i < |t.Includes|
    requires Parts(g, rep1, rep2, rep, far1, far2, far, t, i, seen, c, next, file, incl, inner, rest)
    requires k <= |rest| && i + k < |t.Includes|
    ensures IsCopy(g, rep, far, Kept(g, t, i, seen), t, i + k, ([incl] + rest)[k])
  {
    hide WellFormed, Kept, Visit, Owned;
    PartsApart(g, rep1, rep2, rep, far1, far2, far, t, i, seen, c, next, file, incl, inner, rest);
    KeptHere(g, t, i, seen);
    KeptSplit(g, t, i, seen, t, i + k);
    if k > 0 {
      assert IsCopy(g, rep2, far2, Kept(g, t, i + 1, next), t, i + 1 + (k - 1), rest[k - 1]);
      CopyMore(g, rep2, far2, Kept(g, t, i + 1, next), rep, far, Kept(g, t, i, seen), t, i + k, rest[k - 1]);
    }
  }

  lemma AddFile(g: Graph, rep1: Copies, rep2: Copies, rep: Copies, far1: Refs, far2: Refs, far: Refs,
                t: Thrift, i: nat, seen: seq<Thrift>, c: Thrift, next: seq<Thrift>,
                file: Thrift, incl: Include, inner: seq<Include>, rest: seq<Include>)
    requires WellFormed(g) && t in g.nodes && i < |t.Includes|
    requires Parts(g, rep1, rep2, rep, far1, far2, far, t, i, seen, c, next, file, incl, inner, rest)
    ensures Copied(g, rep, far, t, i, seen)
    ensures CopiedIncludes(g, rep, far, t, i, seen, [incl] + rest)
  {
    AddFileCopied(g, rep1, rep2, rep, far1, far2, far, t, i, seen, c, next, file, incl, inner, rest);
    AddFileIncluded(g, rep1, rep2, rep, far1, far2, far, t, i, seen, c, next, file, incl, inner, rest);
    hide *;
  }

  lemma AddFileCopied(g: Graph, rep1: Copies, rep2: Copies, rep: Copies, far1: Refs, far2: Refs, far: Refs,
                      t: Thrift, i: nat, seen: seq<Thrift>, c: Thrift, next: seq<Thrift>,
                      file: Thrift, incl: Include, inner: seq<Include>, rest: seq<Include>)
    requires WellFormed(g) && t in g.nodes && i < |t.Includes|
    requires Parts(g, rep1, rep2, rep, far1, far2, far, t, i, seen, c, next, file, incl, inner, rest)
    ensures Copied(g, rep, far, t, i, seen)
  {
    hide WellFormed, Kept, Visit, CopiedAt, IsCopy, AllFar;
    PartsApart(g, rep1, rep2, rep, far1, far2, far, t, i, seen, c, next, file, incl, inner, rest);
    var kept := Kept(g, t, i, seen);
    forall u, j | u in rep && u in g.nodes && 0 <= j < |u.Includes|
      ensures CopiedAt(g, rep, far, kept, u, j)
    {
      PartCopied(g, rep1, rep2, rep, far1, far2, far, t, i, seen, c, next, file, incl, inner, rest, u, j);
    }
    OwnedUnion(g, rep1, rep2, rep, far1, far2, c, inner);
  }

  lemma AddFileIncluded(g: Graph, rep1: Copies, rep2: Copies, rep: Copies, far1: Refs, far2: Refs, far: Refs,
                        t: Thrift, i: nat, seen: seq<Thrift>, c: Thrift, next: seq<Thrift>,
                        file: Thrift, incl: Include, inner: seq<Include>, rest: seq<Include>)
    requires WellFormed(g) && t in g.nodes && i < |t.Includes|
    requires Parts(g, rep1, rep2, rep, far1, far2, far, t, i, seen, c, next, file, incl, inner, rest)
    ensures CopiedIncludes(g, rep, far, t, i, seen, [incl] + rest)
  {
    hide WellFormed, Kept, Visit, CopiedAt, IsCopy, Owned;
    PartsApart(g, rep1, rep2, rep, far1, far2, far, t, i, seen, c, next, file, incl, inner, rest);
    var incls := [incl] + rest;
    forall k | 0 <= k < |incls|
      ensures IsCopy(g, rep, far, Kept(g, t, i, seen), t, i + k, incls[k])
    {
      PartIncluded(g, rep1, rep2, rep, far1, far2, far, t, i, seen, c, next, file, incl, inner, rest, k);
    }
    forall k, u, j | 0 <= k < |incls| && u in rep && 0 <= j < |rep[u].Includes|
      ensures incls[k] != rep[u].Includes[j]
    {
      if k > 0 {
        assert incls[k] == rest[k - 1];
      }
    }
  }

  lemma OwnedUnion(g: Graph, rep1: Copies, rep2: Copies, rep: Copies, far1: Refs, far2: Refs, c: Thrift, inner: seq<Include>)
    requires c !in rep1 && c !in rep2 && rep1.Keys !! rep2.Keys && far1.Keys !! far2.Keys
    requires rep.Keys == rep1.Keys + {c} + rep2.Keys && rep[c].Includes == inner
    requires (forall u :: u in rep1 ==> rep[u] == rep1[u]) && (forall u :: u in rep2 ==> rep[u] == rep2[u])
    requires Owned(rep1, rep1.Keys) && Owned(rep2, rep2.Keys)
    requires AllFar(g, rep1, far1) && AllFar(g, rep2, far2) && AreFar(inner, far1)
    requires forall k, k' :: 0 <= k < k' < |inner| ==> inner[k] != inner[k']
    requires forall k, u, j | 0 <= k < |inner| && u in rep1 && 0 <= j < |rep1[u].Includes| :: inner[k] != rep1[u].Includes[j]
    ensures Owned(rep, rep.Keys)
  {
  }
}
