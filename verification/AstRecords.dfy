/** The records of the AST as objects, with the three methods that parser/k-AST.go
    generates for each record type: BLength counts in loops, FastAppend grows a
    buffer, FastRead loops over field headers and updates the record it is called on. */
module AstRecords {
  import opened Wire
  import opened Codec
  import Skip

  /** What a field of a record object holds; a pointer may be nil. */
  datatype Cell =
    | CNil
    | CBool(b: bool)
    | CInt(n: int)
    | CDouble(bits: int)
    | CStr(s: Bytes)
    | CRef(ref: Record)
    | CStrs(strs: seq<Bytes>)
    | CRefs(refs: seq<Record?>)
    | CDict(entries: seq<(Bytes, int)>)

  /** The cell that a New function stores: never a pointer or a list. */
  function InitialCell(v: Val): Cell {
    match v
    case Bool(b) => CBool(b)
    case Int(n) => CInt(n)
    case Double(d) => CDouble(d)
    case Str(s) => CStr(s)
    case _ => CNil
  }

  predicate InitialFits(k: Kind, v: Val) {
    match v
    case Nil => true
    case Bool(_) => k == KBool
    case Int(_) => k == KI32 || k == KEnum || k == KI64
    case Double(_) => k == KDouble
    case Str(_) => k == KString
    case _ => false
  }

  predicate InitialsFit(t: Table) {
    forall r, i :: r in t && 0 <= i < |t[r]| ==> InitialFits(t[r][i].kind, t[r][i].initial)
  }

  class Record {
    const rec: string
    var fields: seq<Cell>
    ghost var vals: seq<Val>       // the value that the object graph below this record stands for
    ghost var Repr: set<Record>

    ghost predicate Valid(t: Table)
      reads this, Repr
      decreases Repr, 1
    {
      && this in Repr
      && |fields| == |vals| == |Specs(t, rec)|
      && (forall i :: 0 <= i < |fields| ==> Holds(t, Specs(t, rec)[i].kind, fields[i], vals[i], Repr - {this}))
    }

    /** Cell `c` of a field of kind `k` stands for `v`, with all its objects in `s`. */
    static ghost predicate Holds(t: Table, k: Kind, c: Cell, v: Val, s: set<Record>)
      reads s
      decreases s, 4
    {
      match c
      case CNil => v == Nil
      case CBool(b) => k == KBool && v == Bool(b)
      case CInt(n) => (k == KI32 || k == KEnum || k == KI64) && v == Int(n)
      case CDouble(d) => k == KDouble && v == Double(d)
      case CStr(s) => k == KString && v == Str(s)
      case CRef(p) => k == KStruct(p.rec) && HoldsRef(t, p.rec, p, v, s)
      case CStrs(strs) => k == KStrings && v.List? && IsTexts(strs, v.elems)
      case CRefs(refs) => k.KStructs? && v.List? && HoldsRefs(t, k.rec, refs, v.elems, s)
      case CDict(es) => k == KEnumMap && v == Dict(es)
    }

    static ghost predicate IsTexts(strs: seq<Bytes>, vs: seq<Val>) {
      |strs| == |vs| && forall i :: 0 <= i < |strs| ==> vs[i] == Str(strs[i])
    }

    static ghost predicate HoldsRef(t: Table, r: string, p: Record?, v: Val, s: set<Record>)
      reads s
      decreases s, 2
    {
      if p == null then v == Nil
      else p in s && p.rec == r && p.Repr <= s && p.Valid(t) && v == Rec(r, p.vals)
    }

    static ghost predicate HoldsRefs(t: Table, r: string, ps: seq<Record?>, vs: seq<Val>, s: set<Record>)
      reads s
      decreases s, 3
    {
      |ps| == |vs| && forall i :: 0 <= i < |ps| ==> HoldsRef(t, r, ps[i], vs[i], s)
    }

    static lemma NilCell(t: Table, k: Kind, c: Cell, v: Val, s: set<Record>)
      requires Holds(t, k, c, v, s)
      ensures c == CNil <==> v == Nil
    {
      if c.CRef? {
        assert HoldsRef(t, c.ref.rec, c.ref, v, s);
      }
    }

    static lemma HoldsMore(t: Table, k: Kind, c: Cell, v: Val, s: set<Record>, s': set<Record>)
      requires Holds(t, k, c, v, s) && s <= s'
      ensures Holds(t, k, c, v, s')
    {
      match c
      case CRef(p) =>
        assert HoldsRef(t, p.rec, p, v, s);
        assert HoldsRef(t, p.rec, p, v, s');
      case CRefs(refs) => HoldsRefsMore(t, k.rec, refs, v.elems, s, s');
      case _ =>
    }

    static lemma HoldsRefsMore(t: Table, r: string, ps: seq<Record?>, vs: seq<Val>, s: set<Record>, s': set<Record>)
      requires HoldsRefs(t, r, ps, vs, s) && s <= s'
      ensures HoldsRefs(t, r, ps, vs, s')
    {
      forall i | 0 <= i < |ps| ensures HoldsRef(t, r, ps[i], vs[i], s') {
        assert HoldsRef(t, r, ps[i], vs[i], s);
      }
    }

    static lemma NoRefs(t: Table, r: string)
      ensures HoldsRefs(t, r, [], [], {})
    {
    }

    static lemma HoldsRefsSnoc(t: Table, r: string, ps: seq<Record?>, vs: seq<Val>, s: set<Record>, p: Record)
      requires HoldsRefs(t, r, ps, vs, s) && p.Valid(t) && p.rec == r
      ensures HoldsRefs(t, r, ps + [p], vs + [Rec(r, p.vals)], s + p.Repr)
    {
      HoldsRefsMore(t, r, ps, vs, s, s + p.Repr);
    }

    /** The value of a possibly nil pointer. */
    static ghost function ValOf(p: Record?): Val
      reads p
    {
      if p == null then Nil else Rec(p.rec, p.vals)
    }

    constructor (t: Table, rec: string)
      requires InitialsFit(t)
      ensures Valid(t) && fresh(this) && Repr == {this}
      ensures this.rec == rec && vals == New(t, rec)
    {
      this.rec := rec;
      fields := seq(|Specs(t, rec)|, i requires 0 <= i < |Specs(t, rec)| => InitialCell(Specs(t, rec)[i].initial));
      vals := New(t, rec);
      Repr := {this};
    }

    // ----- length prediction -----

    static method BLength(t: Table, r: string, p: Record?) returns (off: nat)
      requires p != null ==> p.Valid(t) && p.rec == r
      ensures off == |PutRecord(t, r, ValOf(p))|
      decreases if p == null then {} else p.Repr, 1
    {
      if p == null {
        return 1;
      }
      off := 0;
      var specs := Specs(t, r);
      for i := 0 to |specs|
        invariant off == |PutRange(t, r, p.vals, 0, i)|
      {
        RangeSnoc(t, r, p.vals, 0, i);
        NilCell(t, specs[i].kind, p.fields[i], p.vals[i], p.Repr - {p});
        if specs[i].need == Always || (specs[i].need == IfSet && p.fields[i] != CNil) {
          off := off + 3;
          var l := CellLength(t, specs[i].kind, p.fields[i], p.vals[i], p.Repr - {p});
          off := off + l;
        }
      }
      off := off + 1;
    }

    static method CellLength(t: Table, k: Kind, c: Cell, ghost v: Val, ghost s: set<Record>) returns (off: nat)
      requires Holds(t, k, c, v, s)
      ensures off == |PutValue(t, k, v)|
      decreases s, 4
    {
      match k
      case KBool => off := 1;
      case KI32 => off := 4;
      case KEnum => off := 4;
      case KI64 => off := 8;
      case KDouble => off := 8;
      case KString => off := 4 + (if c.CStr? then |c.s| else 0);
      case KStruct(r) => off := BLength(t, r, if c.CRef? then c.ref else null);
      case KStrings =>
        off := 5;
        var strs := if c.CStrs? then c.strs else [];
        for i := 0 to |strs|
          invariant off == 5 + |PutTexts(ElemsOf(v)[..i])|
        {
          TextsSnoc(ElemsOf(v), i);
          off := off + 4 + |strs[i]|;
        }
        assert ElemsOf(v)[..|strs|] == ElemsOf(v);
      case KStructs(r) =>
        off := 5;
        var refs := if c.CRefs? then c.refs else [];
        for i := 0 to |refs|
          invariant off == 5 + |PutRecords(t, r, ElemsOf(v)[..i])|
        {
          RecordsSnoc(t, r, ElemsOf(v), i);
          assert HoldsRef(t, r, refs[i], ElemsOf(v)[i], s);
          var l := BLength(t, r, refs[i]);
          off := off + l;
        }
        assert ElemsOf(v)[..|refs|] == ElemsOf(v);
      case KEnumMap =>
        off := 6;
        var entries := if c.CDict? then c.entries else [];
        off := off + |entries| * 4;
        for i := 0 to |entries|
          invariant off == 6 + (|entries| - i) * 4 + |PutEntries(entries[..i])|
        {
          EntriesSnoc(entries, i);
          off := off + 4 + |entries[i].0|;
        }
        assert entries[..|entries|] == entries;
    }

    // ----- encoding -----

    static method FastAppend(t: Table, r: string, p: Record?, b: Bytes) returns (out: Bytes)
      requires p != null ==> p.Valid(t) && p.rec == r
      ensures out == b + PutRecord(t, r, ValOf(p))
      decreases if p == null then {} else p.Repr, 1
    {
      if p == null {
        return b + [STOP];
      }
      out := b;
      var specs := Specs(t, r);
      assert PutRange(t, r, p.vals, 0, 0) == [];
      for i := 0 to |specs|
        invariant out == b + PutRange(t, r, p.vals, 0, i)
      {
        out := AppendField(t, p, i, out);
        RangeSnoc(t, r, p.vals, 0, i);
        Regroup(b, [], PutRange(t, r, p.vals, 0, i), PutAt(t, r, p.vals, i));
      }
      Regroup(b, [], PutRange(t, r, p.vals, 0, |specs|), [STOP]);
      out := out + [STOP];
    }

    static method AppendField(t: Table, p: Record, i: nat, b: Bytes) returns (out: Bytes)
      requires p.Valid(t) && i < |p.fields|
      ensures out == b + PutAt(t, p.rec, p.vals, i)
      decreases p.Repr, 0
    {
      hide PutField, PutValue;
      var spec := Specs(t, p.rec)[i];
      NilCell(t, spec.kind, p.fields[i], p.vals[i], p.Repr - {p});
      out := b;
      if spec.need == Always || (spec.need == IfSet && p.fields[i] != CNil) {
        out := out + PutField(TypeOf(spec.kind), spec.id);
        out := AppendCell(t, spec.kind, p.fields[i], out, p.vals[i], p.Repr - {p});
      }
    }

    static method AppendCell(t: Table, k: Kind, c: Cell, b: Bytes, ghost v: Val, ghost s: set<Record>)
      returns (out: Bytes)
      requires Holds(t, k, c, v, s)
      ensures out == b + PutValue(t, k, v)
      decreases s, 4
    {
      match k
      case KBool => out := b + [if c == CBool(true) then 1 else 0];
      case KI32 => out := b + PutI32(if c.CInt? then c.n else 0);
      case KEnum => out := b + PutI32(if c.CInt? then c.n else 0);
      case KI64 => out := b + PutI64(if c.CInt? then c.n else 0);
      case KDouble => out := b + PutI64(if c.CDouble? then c.bits else 0);
      case KString => out := b + PutString(if c.CStr? then c.s else []);
      case KStruct(r) => out := FastAppend(t, r, if c.CRef? then c.ref else null, b);
      case KStrings => out := AppendStrs(if c.CStrs? then c.strs else [], b, ElemsOf(v));
      case KStructs(r) => out := AppendRefs(t, r, if c.CRefs? then c.refs else [], b, ElemsOf(v), s);
      case KEnumMap => out := AppendDict(if c.CDict? then c.entries else [], b);
    }

    static method AppendStrs(strs: seq<Bytes>, b: Bytes, ghost vs: seq<Val>) returns (out: Bytes)
      requires IsTexts(strs, vs)
      ensures out == b + (PutList(STRING, |vs|) + PutTexts(vs))
    {
      ghost var head := PutList(STRING, |vs|);
      assert PutTexts(vs[..0]) == [];
      hide PutString, PutList, PutTexts;
      out := b + PutList(STRING, |strs|);
      Regroup(b, head, [], []);
      for i := 0 to |strs|
        invariant out == b + (head + PutTexts(vs[..i]))
      {
        TextsSnoc(vs, i);
        Regroup(b, head, PutTexts(vs[..i]), PutString(strs[i]));
        out := out + PutString(strs[i]);
      }
      assert vs[..|strs|] == vs;
    }

    static method AppendRefs(t: Table, r: string, refs: seq<Record?>, b: Bytes, ghost vs: seq<Val>, ghost s: set<Record>)
      returns (out: Bytes)
      requires HoldsRefs(t, r, refs, vs, s)
      ensures out == b + (PutList(STRUCT, |vs|) + PutRecords(t, r, vs))
      decreases s, 3
    {
      ghost var head := PutList(STRUCT, |vs|);
      assert PutRecords(t, r, vs[..0]) == [];
      hide PutRecord, PutList, PutRecords;
      out := b + PutList(STRUCT, |refs|);
      Regroup(b, head, [], []);
      for i := 0 to |refs|
        invariant out == b + (head + PutRecords(t, r, vs[..i]))
      {
        RecordsSnoc(t, r, vs, i);
        assert HoldsRef(t, r, refs[i], vs[i], s);
        Regroup(b, head, PutRecords(t, r, vs[..i]), PutRecord(t, r, vs[i]));
        out := FastAppend(t, r, refs[i], out);
      }
      assert vs[..|refs|] == vs;
    }

    static method AppendDict(entries: seq<(Bytes, int)>, b: Bytes) returns (out: Bytes)
      ensures out == b + (PutMap(STRING, I32, |entries|) + PutEntries(entries))
    {
      ghost var head := PutMap(STRING, I32, |entries|);
      assert PutEntries(entries[..0]) == [];
      hide PutString, PutI32, PutMap, PutEntries;
      out := b + PutMap(STRING, I32, |entries|);
      Regroup(b, head, [], []);
      for i := 0 to |entries|
        invariant out == b + (head + PutEntries(entries[..i]))
      {
        var entry := PutString(entries[i].0) + PutI32(entries[i].1);
        EntriesSnoc(entries, i);
        Regroup(b, head, PutEntries(entries[..i]), entry);
        out := out + entry;
      }
      assert entries[..|entries|] == entries;
    }

    /** Encoding into the buffer of the caller, from its start.  A buffer that is too
        short makes the source panic. */
    static method FastWriteNocopy(t: Table, r: string, p: Record?, buf: array<byte>) returns (n: nat, panics: bool)
      requires p != null ==> p.Valid(t) && p.rec == r
      modifies buf
      ensures n == |PutRecord(t, r, old(ValOf(p)))|
      ensures panics <==> buf.Length < n
      ensures !panics ==> buf[..] == PutRecord(t, r, old(ValOf(p))) + old(buf[..])[n..]
    {
      hide PutRecord;
      var out := FastAppend(t, r, p, []);
      ghost var encoded := PutRecord(t, r, ValOf(p));
      n := |out|;
      panics := buf.Length < n;
      if !panics {
        ghost var was := buf[..];
        for i := 0 to n
          invariant forall k :: 0 <= k < i ==> buf[k] == out[k]
          invariant forall k :: i <= k < buf.Length ==> buf[k] == was[k]
        {
          buf[i] := out[i];
        }
        assert buf[..] == out + was[n..];
      }
    }

    // ----- decoding -----

    /** Reads fields until the stop byte.  When it fails, nothing is said about the
        fields it had stored by then. */
    method FastRead(t: Table, b: Bytes) returns (off: nat, ok: bool)
      requires Valid(t) && InitialsFit(t)
      modifies this
      ensures Valid(t) && fresh(Repr - old(Repr))
      ensures ok <==> ReadRecord(t, rec, b, old(vals)).Got?
      ensures ok ==> ReadRecord(t, rec, b, old(vals)) == Got(vals, off)
      decreases |b|, 2, 0
    {
      hide ReadRecord, ReadField;
      off := 0;
      assert b[0..] == b;
      while true
        invariant Valid(t) && fresh(Repr - old(Repr))
        invariant off <= |b|
        invariant ReadRecord(t, rec, b, old(vals)) == Skip.After(off, ReadRecord(t, rec, b[off..], vals))
        decreases |b| - off
      {
        UnrollRecord(t, rec, b[off..], vals);
        var header := GetField(b[off..]);
        if header.Bad? {
          return off, false;
        }
        var l := header.used;
        if header.value.ttype == STOP {
          return off + l, true;
        }
        var used, done := FastReadField(t, header.value, b[off..][l..]);
        if !done {
          return off + l, false;
        }
        assert b[off..][l + used..] == b[off + l + used..];
        off := off + l + used;
      }
    }

    /** The switch of the loop: one case per field, and a default that skips. */
    method FastReadField(t: Table, h: Header, b: Bytes) returns (off: nat, ok: bool)
      requires Valid(t) && InitialsFit(t)
      modifies this
      ensures Valid(t) && fresh(Repr - old(Repr))
      ensures ok <==> ReadField(t, rec, h, b, old(vals)).Got?
      ensures ok ==> ReadField(t, rec, h, b, old(vals)) == Got(vals, off)
      decreases |b|, 4
    {
      hide ReadValue, Find, Skip.SkipValue;
      var i := Find(Specs(t, rec), h, 0);
      if i < 0 {
        var skipped := Skip.SkipValue(b, h.ttype);
        if skipped.Bad? {
          return 0, false;
        }
        return skipped.used, true;
      }
      ghost var v, s;
      var cell;
      cell, off, ok, v, s := ReadCell(t, Specs(t, rec)[i].kind, b);
      if ok {
        StoreCell(t, i, cell, v, s);
      }
    }

    /** Assigns one field. */
    method StoreCell(t: Table, i: nat, c: Cell, ghost v: Val, ghost s: set<Record>)
      requires Valid(t) && i < |fields|
      requires Holds(t, Specs(t, rec)[i].kind, c, v, s) && this !in s
      modifies this
      ensures Valid(t) && Repr == old(Repr) + s
      ensures vals == old(vals)[i := v]
    {
      fields := fields[i := c];
      vals := vals[i := v];
      Repr := Repr + s;
      forall j | 0 <= j < |fields|
        ensures Holds(t, Specs(t, rec)[j].kind, fields[j], vals[j], Repr - {this})
      {
        var inner := if j == i then s else old(Repr) - {this};
        HoldsMore(t, Specs(t, rec)[j].kind, fields[j], vals[j], inner, Repr - {this});
      }
    }

    /** Reads one value; the objects it needs are new ones. */
    static method ReadCell(t: Table, k: Kind, b: Bytes)
      returns (c: Cell, off: nat, ok: bool, ghost v: Val, ghost s: set<Record>)
      requires InitialsFit(t)
      ensures fresh(s)
      ensures ok <==> ReadValue(t, k, b).Got?
      ensures ok ==> ReadValue(t, k, b) == Got(v, off) && Holds(t, k, c, v, s)
      decreases |b|, 3
    {
      c, off, ok, v, s := CNil, 0, false, Nil, {};
      match k
      case KBool =>
        var x := GetBool(b);
        if x.Got? {
          c, off, ok, v := CBool(x.value), x.used, true, Bool(x.value);
        }
      case KI32 =>
        var x := GetI32(b);
        if x.Got? {
          c, off, ok, v := CInt(x.value), x.used, true, Int(x.value);
        }
      case KEnum =>
        var x := GetI32(b);
        if x.Got? {
          c, off, ok, v := CInt(x.value), x.used, true, Int(x.value);
        }
      case KI64 =>
        var x := GetI64(b);
        if x.Got? {
          c, off, ok, v := CInt(x.value), x.used, true, Int(x.value);
        }
      case KDouble =>
        var x := GetI64(b);
        if x.Got? {
          c, off, ok, v := CDouble(x.value), x.used, true, Double(x.value);
        }
      case KString =>
        var x := GetString(b);
        if x.Got? {
          c, off, ok, v := CStr(x.value), x.used, true, Str(x.value);
        }
      case KStruct(r) =>
        var child;
        child, off, ok := ReadNew(t, r, b);
        c, v, s := CRef(child), Rec(r, child.vals), child.Repr;
      case KStrings =>
        c, off, ok, v := ReadStrs(t, b);
      case KStructs(r) =>
        c, off, ok, v, s := ReadRefs(t, r, b);
      case KEnumMap =>
        c, off, ok, v := ReadDict(t, b);
    }

    static method ReadNew(t: Table, r: string, b: Bytes) returns (child: Record, off: nat, ok: bool)
      requires InitialsFit(t)
      ensures child.Valid(t) && fresh(child.Repr) && child.rec == r
      ensures ok <==> ReadRecord(t, r, b, New(t, r)).Got?
      ensures ok ==> ReadRecord(t, r, b, New(t, r)) == Got(child.vals, off)
      decreases |b|, 2, 1
    {
      hide ReadRecord;
      child := new Record(t, r);
      off, ok := child.FastRead(t, b);
    }

    static method ReadStrs(t: Table, b: Bytes) returns (c: Cell, off: nat, ok: bool, ghost v: Val)
      ensures ok <==> ReadValue(t, KStrings, b).Got?
      ensures ok ==> ReadValue(t, KStrings, b) == Got(v, off) && Holds(t, KStrings, c, v, {})
    {
      hide ReadTexts;
      var head := GetList(b);
      if head.Bad? {
        return CNil, 0, false, Nil;
      }
      var strs, l, done, vs := FillStrs(b[head.used..], head.value.1);
      return CStrs(strs), head.used + l, done, List(vs);
    }

    static method FillStrs(b: Bytes, sz: nat) returns (strs: seq<Bytes>, off: nat, ok: bool, ghost vs: seq<Val>)
      ensures ok <==> ReadTexts(b, sz, []).Got?
      ensures ok ==> ReadTexts(b, sz, []) == Got(vs, off) && IsTexts(strs, vs)
    {
      hide GetString;
      strs, off, vs := [], 0, [];
      assert b[0..] == b;
      for i := 0 to sz
        invariant off <= |b| && IsTexts(strs, vs)
        invariant ReadTexts(b, sz, []) == Skip.After(off, ReadTexts(b[off..], sz - i, vs))
      {
        var x := GetString(b[off..]);
        if x.Bad? {
          return [], off, false, [];
        }
        assert b[off..][x.used..] == b[off + x.used..];
        off := off + x.used;
        strs, vs := strs + [x.value], vs + [Str(x.value)];
      }
      ok := true;
    }

    static method ReadDict(t: Table, b: Bytes) returns (c: Cell, off: nat, ok: bool, ghost v: Val)
      ensures ok <==> ReadValue(t, KEnumMap, b).Got?
      ensures ok ==> ReadValue(t, KEnumMap, b) == Got(v, off) && Holds(t, KEnumMap, c, v, {})
    {
      hide ReadEntries;
      var head := GetMap(b);
      if head.Bad? {
        return CNil, 0, false, Nil;
      }
      var es, l, done := FillDict(b[head.used..], head.value.2);
      return CDict(es), head.used + l, done, Dict(es);
    }

    static method FillDict(b: Bytes, sz: nat) returns (es: seq<(Bytes, int)>, off: nat, ok: bool)
      ensures ok <==> ReadEntries(b, sz, []).Got?
      ensures ok ==> ReadEntries(b, sz, []) == Got(es, off)
    {
      hide Store, GetEntry;
      es, off := [], 0;
      assert b[0..] == b;
      for i := 0 to sz
        invariant off <= |b|
        invariant ReadEntries(b, sz, []) == Skip.After(off, ReadEntries(b[off..], sz - i, es))
      {
        var e := GetEntry(b[off..]);
        if e.Bad? {
          return [], off, false;
        }
        assert b[off..][e.used..] == b[off + e.used..];
        off := off + e.used;
        es := Store(es, e.value.0, e.value.1);
      }
      ok := true;
    }

    static method ReadRefs(t: Table, r: string, b: Bytes)
      returns (c: Cell, off: nat, ok: bool, ghost v: Val, ghost s: set<Record>)
      requires InitialsFit(t)
      ensures fresh(s)
      ensures ok <==> ReadValue(t, KStructs(r), b).Got?
      ensures ok ==> ReadValue(t, KStructs(r), b) == Got(v, off) && Holds(t, KStructs(r), c, v, s)
      decreases |b|, 1
    {
      hide ReadRecords;
      var head := GetList(b);
      if head.Bad? {
        return CNil, 0, false, Nil, {};
      }
      var refs, l, done, vs, s' := FillRefs(t, r, b[head.used..], head.value.1);
      return CRefs(refs), head.used + l, done, List(vs), s';
    }

    static method FillRefs(t: Table, r: string, b: Bytes, sz: nat)
      returns (refs: seq<Record?>, off: nat, ok: bool, ghost vs: seq<Val>, ghost s: set<Record>)
      requires InitialsFit(t)
      ensures fresh(s)
      ensures ok <==> ReadRecords(t, r, b, sz, []).Got?
      ensures ok ==> ReadRecords(t, r, b, sz, []) == Got(vs, off) && HoldsRefs(t, r, refs, vs, s)
      decreases |b|, 3
    {
      hide ReadRecord, HoldsRefs;
      assert HoldsRefs(t, r, [], [], {}) by { NoRefs(t, r); }
      refs, off, vs, s := [], 0, [], {};
      assert b[0..] == b;
      for i := 0 to sz
        invariant off <= |b| && fresh(s)
        invariant HoldsRefs(t, r, refs, vs, s)
        invariant ReadRecords(t, r, b, sz, []) == Skip.After(off, ReadRecords(t, r, b[off..], sz - i, vs))
      {
        var child, l, done := ReadNew(t, r, b[off..]);
        if !done {
          return [], off, false, [], {};
        }
        assert b[off..][l..] == b[off + l..];
        off := off + l;
        HoldsRefsSnoc(t, r, refs, vs, s, child);
        refs, vs, s := refs + [child], vs + [Rec(r, child.vals)], s + child.Repr;
      }
      ok := true;
    }
  }

  // ----- the decoding loops, one turn at a time -----

  function Turn(t: Table, r: string, b: Bytes, fs: seq<Val>): Read<seq<Val>>
    requires |fs| == |Specs(t, r)|
  {
    var header := GetField(b);
    if header.Bad? then Bad
    else if header.value.ttype == STOP then Got(fs, header.used)
    else
      var field := ReadField(t, r, header.value, b[header.used..], fs);
      if field.Bad? then Bad
      else Skip.After(header.used + field.used, ReadRecord(t, r, b[header.used + field.used..], field.value))
  }

  lemma UnrollRecord(t: Table, r: string, b: Bytes, fs: seq<Val>)
    requires |fs| == |Specs(t, r)|
    ensures ReadRecord(t, r, b, fs) == Turn(t, r, b, fs)
  {
  }

  // ----- a loop that goes forward builds the recursive encoding -----

  lemma {:induction false} RangeSnoc(t: Table, r: string, fs: seq<Val>, i: nat, j: nat)
    requires i <= j < |Specs(t, r)|
    ensures PutRange(t, r, fs, i, j + 1) == PutRange(t, r, fs, i, j) + PutAt(t, r, fs, j)
    decreases j - i
  {
    hide PutAt;
    if i < j {
      RangeSnoc(t, r, fs, i + 1, j);
    } else {
      assert PutRange(t, r, fs, j + 1, j + 1) == [];
    }
  }

  lemma {:induction false} TextsSnoc(vs: seq<Val>, i: nat)
    requires i < |vs|
    ensures PutTexts(vs[..i + 1]) == PutTexts(vs[..i]) + PutString(TextOf(vs[i]))
  {
    hide PutString;
    var more, some := vs[..i + 1], vs[..i];
    assert more[0] == vs[0];
    if i == 0 {
      assert more[1..] == [] && some == [];
    } else {
      TextsSnoc(vs[1..], i - 1);
      assert vs[1..][..i] == more[1..] && vs[1..][..i - 1] == some[1..] && some[0] == vs[0];
      Joined(PutString(TextOf(vs[0])), PutTexts(some[1..]), PutString(TextOf(vs[i])));
    }
  }

  lemma Joined(a: Bytes, b: Bytes, c: Bytes)
    ensures a + (b + c) == (a + b) + c
  {
  }

  lemma {:induction false} RecordsSnoc(t: Table, r: string, vs: seq<Val>, i: nat)
    requires i < |vs|
    ensures PutRecords(t, r, vs[..i + 1]) == PutRecords(t, r, vs[..i]) + PutRecord(t, r, vs[i])
  {
    hide PutRecord;
    if i > 0 {
      RecordsSnoc(t, r, vs[1..], i - 1);
      assert vs[1..][..i] == vs[..i + 1][1..] && vs[1..][..i - 1] == vs[..i][1..];
    }
  }

  lemma {:induction false} EntriesSnoc(es: seq<(Bytes, int)>, i: nat)
    requires i < |es|
    ensures PutEntries(es[..i + 1]) == PutEntries(es[..i]) + (PutString(es[i].0) + PutI32(es[i].1))
  {
    hide PutString, PutI32;
    var more, some := es[..i + 1], es[..i];
    assert more[0] == es[0];
    if i == 0 {
      assert more[1..] == [] && some == [];
    } else {
      EntriesSnoc(es[1..], i - 1);
      assert es[1..][..i] == more[1..] && es[1..][..i - 1] == some[1..] && some[0] == es[0];
      Joined(PutString(es[0].0) + PutI32(es[0].1), PutEntries(some[1..]), PutString(es[i].0) + PutI32(es[i].1));
    }
  }
}
