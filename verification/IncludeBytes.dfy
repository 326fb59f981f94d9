/** The bytes between sender and receiver: the includes of the compressed files survive the AST
    codec, so what the receiver decodes is the tree that it rebuilds the graph from. */
module IncludeBytes {
  import opened IncludeGraph
  import opened IncludeWire
  import opened IncludeFarSide
  import opened IncludeRebuild
  import opened Wire
  import Codec
  import CodecLaws
  import AstTable

  type Val = Codec.Val

  /** A file name is written as its bytes. */
  function NameOf(v: Val): string {
    var s := Codec.TextOf(v);
    seq(|s|, i requires 0 <= i < |s| => s[i] as char)
  }

  /** A file of which every include refers to a file. */
  predicate IsFile(v: Val)
    decreases v
  {
    && v.Rec? && v.rec == "Thrift" && |v.fields| == 12 && (v.fields[1].Nil? || v.fields[1].List?)
    && (v.fields[1].List? ==> forall i :: 0 <= i < |v.fields[1].elems| ==> IsInclude(v.fields[1].elems[i]))
  }

  predicate IsInclude(e: Val)
    decreases e
  {
    e.Rec? && e.rec == "Include" && |e.fields| == 3 && IsFile(e.fields[1])
  }

  /** What is left of a file when only names and includes are looked at. */
  function TreeOf(v: Val): Tree
    requires IsFile(v)
    decreases v, 1
  {
    var name := NameOf(v.fields[0]);
    if REF_PREFIX <= name then Stub(TrimPrefix(name))
    else File(name, if v.fields[1].List? then TreesOf(v.fields[1].elems) else [])
  }

  function TreesOf(es: seq<Val>): (ts: seq<Tree>)
    requires forall i :: 0 <= i < |es| ==> IsInclude(es[i])
    ensures |ts| == |es|
    decreases es, 0
  {
    if es == [] then []
    else
      assert IsInclude(es[0]);
      [TreeOf(es[0].fields[1])] + TreesOf(es[1..])
  }

  // ----- the codec keeps the tree -----

  lemma FileSpecs()
    ensures |Codec.Specs(AstTable.AST, "Thrift")| == 12 && |Codec.Specs(AstTable.AST, "Include")| == 3
    ensures var specs := Codec.Specs(AstTable.AST, "Thrift");
            && specs[0].kind == Codec.KString && specs[0].need == Codec.Always
            && specs[1].kind == Codec.KStructs("Include") && specs[1].need == Codec.Always
    ensures var spec := Codec.Specs(AstTable.AST, "Include")[1];
            spec.kind == Codec.KStruct("Thrift") && spec.need == Codec.IfSet
  {
    assert AstTable.AST["Thrift"] == AstTable.THRIFT && AstTable.AST["Include"] == AstTable.INCLUDE;
  }

  /** The first fields of a file and the reference of an include, as they come back. */
  lemma NormFile(v: Val)
    requires v.Rec? && |v.fields| == 12
    ensures var n := Codec.NormRecord(AstTable.AST, "Thrift", v);
            && n.Rec? && n.rec == "Thrift" && |n.fields| == 12
            && n.fields[0] == v.fields[0]
            && n.fields[1] == Codec.Norm(AstTable.AST, Codec.KStructs("Include"), v.fields[1])
  {
    FileSpecs();
    var news := Codec.New(AstTable.AST, "Thrift");
    CodecLaws.FilledAt(AstTable.AST, "Thrift", v.fields, news, 0, 12, 0);
    CodecLaws.FilledAt(AstTable.AST, "Thrift", v.fields, news, 0, 12, 1);
    hide Codec.Filled, Codec.Specs;
  }

  lemma NormInclude(e: Val)
    requires IsInclude(e)
    ensures var n := Codec.NormRecord(AstTable.AST, "Include", e);
            && n.Rec? && n.rec == "Include" && |n.fields| == 3
            && n.fields[1] == Codec.NormRecord(AstTable.AST, "Thrift", e.fields[1])
  {
    FileSpecs();
    CodecLaws.FilledAt(AstTable.AST, "Include", e.fields, Codec.New(AstTable.AST, "Include"), 0, 3, 1);
    hide Codec.Filled, Codec.Specs;
  }

  lemma {:induction false} NormKeepsTree(v: Val)
    requires IsFile(v)
    ensures var n := Codec.NormRecord(AstTable.AST, "Thrift", v); IsFile(n) && TreeOf(n) == TreeOf(v)
    decreases v, 1
  {
    hide Codec.NormRecord, NameOf;
    NormFile(v);
    if v.fields[1].List? {
      NormKeepsTrees(v.fields[1].elems);
    }
  }

  lemma {:induction false} NormKeepsTrees(es: seq<Val>)
    requires forall i :: 0 <= i < |es| ==> IsInclude(es[i])
    ensures var ns := Codec.NormRecords(AstTable.AST, "Include", es);
            && |ns| == |es| && (forall i :: 0 <= i < |ns| ==> IsInclude(ns[i])) && TreesOf(ns) == TreesOf(es)
    decreases es, 0
  {
    hide Codec.NormRecord, TreeOf, IsFile;
    if es != [] {
      NormInclude(es[0]);
      NormKeepsTree(es[0].fields[1]);
      NormKeepsTrees(es[1..]);
      var n, ns := Codec.NormRecord(AstTable.AST, "Include", es[0]), Codec.NormRecords(AstTable.AST, "Include", es[1..]);
      assert Codec.NormRecords(AstTable.AST, "Include", es) == [n] + ns && ([n] + ns)[1..] == ns;
    }
  }

  /** Decoding the encoding of a file, whatever follows it, gives a file with the same tree. */
  lemma DecodesTree(v: Val, rest: Bytes)
    requires IsFile(v) && Codec.FitsRecord(AstTable.AST, "Thrift", v)
    ensures var bytes := Codec.PutRecord(AstTable.AST, "Thrift", v);
            var r := Codec.ReadRecord(AstTable.AST, "Thrift", bytes + rest, Codec.New(AstTable.AST, "Thrift"));
            && r.Got? && r.used == |bytes|
            && IsFile(Codec.Rec("Thrift", r.value)) && TreeOf(Codec.Rec("Thrift", r.value)) == TreeOf(v)
  {
    hide Codec.ReadRecord, Codec.PutRecord, Codec.FitsRecord, Codec.NormRecord, TreeOf, IsFile;
    AstTable.AstRoundTrip("Thrift", v, rest);
    NormKeepsTree(v);
    var n := Codec.NormRecord(AstTable.AST, "Thrift", v);
    assert n == Codec.Rec("Thrift", n.fields);
  }

  // ----- the objects that are encoded -----

  /** The value of an object: its name and its includes; the other fields do not matter. */
  ghost predicate ValueOf(now: Refs, x: Thrift, v: Val)
    decreases v
  {
    && IsFile(v) && NameOf(v.fields[0]) == x.Filename
    && |x.Includes| == (if v.fields[1].List? then |v.fields[1].elems| else 0)
    && forall i :: 0 <= i < |x.Includes| ==> IncludeOf(now, x.Includes[i], v.fields[1].elems[i])
  }

  ghost predicate IncludeOf(now: Refs, l: Include, e: Val)
    decreases e
  {
    l in now && IsInclude(e) && ValueOf(now, now[l], e.fields[1])
  }

  /** Files that are there in full have no name of a stub. */
  predicate PlainNames(t: Tree)
    decreases t
  {
    t.File? ==> !(REF_PREFIX <= t.name) && forall i :: 0 <= i < |t.kids| ==> PlainNames(t.kids[i])
  }

  lemma {:induction false} TrimIsPlain(g: Graph, t: Thrift, i: nat, seen: seq<Thrift>)
    requires WellFormed(g) && t in g.nodes && i <= |t.Includes| && Within(g, seen)
    ensures forall k :: 0 <= k < |Trim(g, t, i, seen)| ==> PlainNames(Trim(g, t, i, seen)[k])
    decreases g.rank[t], |t.Includes| - i
  {
    if i < |t.Includes| {
      var c := Child(g, t, i);
      if c in seen {
        TrimIsPlain(g, t, i + 1, seen);
      } else {
        VisitFinds(g, c, 0, seen + [c]);
        TrimIsPlain(g, c, 0, seen + [c]);
        TrimIsPlain(g, t, i + 1, Visit(g, c, 0, seen + [c]));
      }
    }
  }

  /** Objects and their value have the same tree. */
  lemma {:induction false} ValueHasTree(now: Refs, x: Thrift, v: Val, t: Tree)
    requires Stores(now, x, t) && ValueOf(now, x, v) && PlainNames(t)
    ensures TreeOf(v) == t
    decreases t
  {
    hide NameOf;
    match t
    case Stub(name) => TrimPrefixOf(name); assert REF_PREFIX <= REF_PREFIX + name;
    case File(name, kids) =>
      var es := if v.fields[1].List? then v.fields[1].elems else [];
      forall i | 0 <= i < |kids|
        ensures IsInclude(es[i]) && TreeOf(es[i].fields[1]) == kids[i]
      {
        assert StoresAt(now, x.Includes[i], kids[i]) && IncludeOf(now, x.Includes[i], es[i]);
        ValueHasTree(now, now[x.Includes[i]], es[i].fields[1], kids[i]);
      }
      TreesAt(es, kids);
  }

  lemma {:induction false} TreesAt(es: seq<Val>, kids: seq<Tree>)
    requires |es| == |kids| && forall i :: 0 <= i < |es| ==> IsInclude(es[i]) && TreeOf(es[i].fields[1]) == kids[i]
    ensures TreesOf(es) == kids
    decreases |es|
  {
    hide TreeOf, IsFile;
    if es != [] {
      forall i | 0 <= i < |es[1..]|
        ensures IsInclude(es[1..][i]) && TreeOf(es[1..][i].fields[1]) == kids[1..][i]
      {
        assert es[1..][i] == es[i + 1];
      }
      TreesAt(es[1..], kids[1..]);
    }
  }

  // ----- from the sender's objects to the receiver's -----

  /** The whole way: what the sender's compressed objects are encoded as is decoded and rebuilt
      into the same graph, one object for every file, without a panic. */
  method Receive(b: Bytes, ghost v: Val, ghost sent: Refs, ghost g: Graph, ghost root: Thrift)
    returns (x: Thrift, panics: bool, ghost now: Refs, ghost rep: Copies)
    requires WellFormed(g) && root in g.nodes && Stores(sent, root, File(root.Filename, Trim(g, root, 0, [])))
    requires ValueOf(sent, root, v) && Codec.FitsRecord(AstTable.AST, "Thrift", v)
    requires Codec.PutRecord(AstTable.AST, "Thrift", v) <= b
    ensures !panics
    ensures Stores(now, x, Unfold(g, root)) && Holds(now)
    ensures root in rep && rep[root] == x && SameGraph(g, rep, now, root)
  {
    hide Codec.ReadRecord, Codec.PutRecord, Codec.FitsRecord, TreeOf, Stores, Trim, ValueOf;
    ghost var bytes := Codec.PutRecord(AstTable.AST, "Thrift", v);
    assert b == bytes + b[|bytes|..];
    assert IsFile(v) by { ValueIsFile(sent, root, v); }
    DecodesTree(v, b[|bytes|..]);
    var r := Codec.ReadRecord(AstTable.AST, "Thrift", b, Codec.New(AstTable.AST, "Thrift"));
    var tree := TreeOf(Codec.Rec("Thrift", r.value));
    assert tree == File(root.Filename, Trim(g, root, 0, [])) by {
      RootIsPlain(g, root);
      ValueHasTree(sent, root, v, File(root.Filename, Trim(g, root, 0, [])));
    }
    x, panics, now, rep := Rebuild(tree, g, root);
  }

  lemma ValueIsFile(now: Refs, x: Thrift, v: Val)
    requires ValueOf(now, x, v)
    ensures IsFile(v)
  {
  }

  lemma RootIsPlain(g: Graph, root: Thrift)
    requires WellFormed(g) && root in g.nodes
    ensures PlainNames(File(root.Filename, Trim(g, root, 0, [])))
  {
    TrimIsPlain(g, root, 0, []);
  }
}
