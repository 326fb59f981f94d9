/** The encoder and decoder that parser/k-AST.go repeats for each of its record
    types.  The generated code differs from record to record only in its list of
    fields, so the format is defined once over a table of field lists; the table
    of this repository is in AstTable.dfy. */
module Codec {
  import opened Wire
  import Skip

  // ----- field lists and values -----

  datatype Kind =
    | KBool | KI32 | KEnum | KI64 | KDouble | KString
    | KStruct(rec: string)    // pointer to a record
    | KStrings                // list of strings
    | KStructs(rec: string)   // list of pointers to records
    | KEnumMap                // map from strings to enum numbers

  /** Always: written whatever it holds.  IfSet: written unless nil.  Never: in the
      Go struct, but neither written nor read. */
  datatype Need = Always | IfSet | Never

  datatype FieldSpec = FieldSpec(name: string, id: nat, kind: Kind, need: Need, initial: Val)

  type Table = map<string, seq<FieldSpec>>

  /** What a field of a record holds.  Nil is a nil pointer, a nil slice or a nil
      map.  A double is its 64-bit pattern.  A map is listed in the order in which
      a range loop happens to visit it. */
  datatype Val =
    | Nil
    | Bool(b: bool)
    | Int(n: int)
    | Double(bits: int)
    | Str(s: Bytes)
    | Rec(rec: string, fields: seq<Val>)
    | List(elems: seq<Val>)
    | Dict(entries: seq<(Bytes, int)>)

  function Specs(t: Table, r: string): seq<FieldSpec> {
    if r in t then t[r] else []
  }

  function TypeOf(k: Kind): (ttype: byte)
    ensures ttype != STOP
  {
    match k
    case KBool => BOOL
    case KI32 => I32
    case KEnum => I32
    case KI64 => I64
    case KDouble => DOUBLE
    case KString => STRING
    case KStruct(_) => STRUCT
    case KStrings => LIST
    case KStructs(_) => LIST
    case KEnumMap => MAP
  }

  /** Field ids are distinct 16-bit numbers; an optional field starts as nil. */
  predicate WellFormedSpecs(specs: seq<FieldSpec>) {
    && (forall i, j :: 0 <= i < j < |specs| ==> specs[i].id != specs[j].id)
    && (forall i :: 0 <= i < |specs| ==> FitsI16(specs[i].id))
    && (forall i :: 0 <= i < |specs| && specs[i].need == IfSet ==> specs[i].initial == Nil)
  }

  predicate WellFormedTable(t: Table) {
    forall r :: r in t ==> WellFormedSpecs(t[r])
  }

  function ElemsOf(v: Val): seq<Val> { if v.List? then v.elems else [] }
  function EntriesOf(v: Val): seq<(Bytes, int)> { if v.Dict? then v.entries else [] }
  function IntOf(v: Val): int { if v.Int? then v.n else 0 }
  function BitsOf(v: Val): int { if v.Double? then v.bits else 0 }
  function TextOf(v: Val): Bytes { if v.Str? then v.s else [] }

  predicate Written(spec: FieldSpec, v: Val) {
    spec.need == Always || (spec.need == IfSet && v != Nil)
  }

  // ----- encoding -----

  function PutValue(t: Table, k: Kind, v: Val): Bytes
    decreases v, 1
  {
    match k
    case KBool => [if v == Bool(true) then 1 else 0]
    case KI32 => PutI32(IntOf(v))
    case KEnum => PutI32(IntOf(v))
    case KI64 => PutI64(IntOf(v))
    case KDouble => PutI64(BitsOf(v))
    case KString => PutString(TextOf(v))
    case KStruct(r) => PutRecord(t, r, v)
    case KStrings => PutList(STRING, |ElemsOf(v)|) + PutTexts(ElemsOf(v))
    case KStructs(r) => PutList(STRUCT, |ElemsOf(v)|) + (if v.List? then PutRecords(t, r, v.elems) else [])
    case KEnumMap => PutMap(STRING, I32, |EntriesOf(v)|) + PutEntries(EntriesOf(v))
  }

  /** A nil pointer is written as a lone stop byte. */
  function PutRecord(t: Table, r: string, v: Val): Bytes
    decreases v, 0
  {
    if v.Rec? then PutRange(t, r, v.fields, 0, |Specs(t, r)|) + [STOP] else [STOP]
  }

  /** The fields `i..j` of a record. */
  function PutRange(t: Table, r: string, fs: seq<Val>, i: nat, j: nat): Bytes
    requires j <= |Specs(t, r)|
    decreases fs, 0, j - i
  {
    if i >= j then [] else PutAt(t, r, fs, i) + PutRange(t, r, fs, i + 1, j)
  }

  function PutAt(t: Table, r: string, fs: seq<Val>, i: nat): Bytes
    requires i < |Specs(t, r)|
    decreases fs, 0, 0
  {
    var spec := Specs(t, r)[i];
    if i < |fs| && Written(spec, fs[i]) then
      PutField(TypeOf(spec.kind), spec.id) + PutValue(t, spec.kind, fs[i])
    else
      []
  }

  function PutTexts(vs: seq<Val>): Bytes {
    if vs == [] then [] else PutString(TextOf(vs[0])) + PutTexts(vs[1..])
  }

  function PutRecords(t: Table, r: string, vs: seq<Val>): Bytes
    decreases vs, 0
  {
    if vs == [] then [] else PutRecord(t, r, vs[0]) + PutRecords(t, r, vs[1..])
  }

  function PutEntries(es: seq<(Bytes, int)>): Bytes {
    if es == [] then [] else (PutString(es[0].0) + PutI32(es[0].1)) + PutEntries(es[1..])
  }

  // ----- decoding -----

  /** The fields of a record as its New function leaves them. */
  function New(t: Table, r: string): (fs: seq<Val>)
    ensures |fs| == |Specs(t, r)|
  {
    seq(|Specs(t, r)|, i requires 0 <= i < |Specs(t, r)| => Specs(t, r)[i].initial)
  }

  /** The case of the decoder's switch that a field header selects. */
  function Find(specs: seq<FieldSpec>, h: Header, i: nat): (r: int)
    requires i <= |specs|
    ensures -1 <= r < |specs|
    ensures r >= 0 ==> specs[r].id == h.id && TypeOf(specs[r].kind) == h.ttype && specs[r].need != Never
    decreases |specs| - i
  {
    if i == |specs| then -1
    else if specs[i].need != Never && specs[i].id == h.id && TypeOf(specs[i].kind) == h.ttype then i
    else Find(specs, h, i + 1)
  }

  function Apply<T, U>(r: Read<T>, f: T -> U): Read<U> {
    match r
    case Bad => Bad
    case Got(v, l) => Got(f(v), l)
  }

  function ReadValue(t: Table, k: Kind, b: Bytes): (r: Read<Val>)
    ensures r.Got? ==> 1 <= r.used <= |b|
    decreases |b|, 2
  {
    match k
    case KBool => Apply(GetBool(b), x => Bool(x))
    case KI32 => Apply(GetI32(b), x => Int(x))
    case KEnum => Apply(GetI32(b), x => Int(x))
    case KI64 => Apply(GetI64(b), x => Int(x))
    case KDouble => Apply(GetI64(b), x => Double(x))
    case KString => Apply(GetString(b), x => Str(x))
    case KStruct(r) => Apply(ReadRecord(t, r, b, New(t, r)), x => Rec(r, x))
    case KStrings =>
      (match GetList(b)
       case Bad => Bad
       case Got(h, l) => Apply(Skip.After(l, ReadTexts(b[l..], h.1, [])), x => List(x)))
    case KStructs(r) =>
      (match GetList(b)
       case Bad => Bad
       case Got(h, l) => Apply(Skip.After(l, ReadRecords(t, r, b[l..], h.1, [])), x => List(x)))
    case KEnumMap =>
      (match GetMap(b)
       case Bad => Bad
       case Got(h, l) => Apply(Skip.After(l, ReadEntries(b[l..], h.2, [])), x => Dict(x)))
  }

  /** The field loop: `fs` is the record as it is before the first byte of `b`. */
  function ReadRecord(t: Table, r: string, b: Bytes, fs: seq<Val>): (res: Read<seq<Val>>)
    requires |fs| == |Specs(t, r)|
    ensures res.Got? ==> 1 <= res.used <= |b| && |res.value| == |fs|
    decreases |b|, 1
  {
    match GetField(b)
    case Bad => Bad
    case Got(h, l) =>
      if h.ttype == STOP then Got(fs, l)
      else match ReadField(t, r, h, b[l..], fs)
        case Bad => Bad
        case Got(fs', l') => Skip.After(l + l', ReadRecord(t, r, b[l + l'..], fs'))
  }

  function ReadField(t: Table, r: string, h: Header, b: Bytes, fs: seq<Val>): (res: Read<seq<Val>>)
    requires |fs| == |Specs(t, r)|
    ensures res.Got? ==> 1 <= res.used <= |b| && |res.value| == |fs|
    decreases |b|, 3
  {
    var i := Find(Specs(t, r), h, 0);
    if i < 0 then
      match Skip.SkipValue(b, h.ttype)
      case Bad => Bad
      case Got(_, l) => Got(fs, l)
    else
      match ReadValue(t, Specs(t, r)[i].kind, b)
      case Bad => Bad
      case Got(v, l) => Got(fs[i := v], l)
  }

  /** The list loops: `done` holds the elements that are there already. */
  function ReadTexts(b: Bytes, n: nat, done: seq<Val>): (res: Read<seq<Val>>)
    ensures res.Got? ==> res.used <= |b|
    decreases n
  {
    if n == 0 then Got(done, 0)
    else match GetString(b)
      case Bad => Bad
      case Got(s, l) => Skip.After(l, ReadTexts(b[l..], n - 1, done + [Str(s)]))
  }

  function ReadRecords(t: Table, r: string, b: Bytes, n: nat, done: seq<Val>): (res: Read<seq<Val>>)
    ensures res.Got? ==> res.used <= |b|
    decreases |b|, 2, n
  {
    if n == 0 then Got(done, 0)
    else match ReadRecord(t, r, b, New(t, r))
      case Bad => Bad
      case Got(fs, l) => Skip.After(l, ReadRecords(t, r, b[l..], n - 1, done + [Rec(r, fs)]))
  }

  /** Storing an entry under a key that is there already replaces it. */
  function Store(es: seq<(Bytes, int)>, key: Bytes, n: int): seq<(Bytes, int)> {
    if es == [] then [(key, n)]
    else if es[0].0 == key then [(key, n)] + es[1..]
    else [es[0]] + Store(es[1..], key, n)
  }

  function GetEntry(b: Bytes): (res: Read<(Bytes, int)>)
    ensures res.Got? ==> 1 <= res.used <= |b|
  {
    match GetString(b)
    case Bad => Bad
    case Got(s, l) =>
      match GetI32(b[l..])
      case Bad => Bad
      case Got(v, l') => Got((s, v), l + l')
  }

  function ReadEntries(b: Bytes, n: nat, es: seq<(Bytes, int)>): (res: Read<seq<(Bytes, int)>>)
    ensures res.Got? ==> res.used <= |b|
    decreases n
  {
    if n == 0 then Got(es, 0)
    else match GetEntry(b)
      case Bad => Bad
      case Got(e, l) => Skip.After(l, ReadEntries(b[l..], n - 1, Store(es, e.0, e.1)))
  }

  // ----- the values the encoder is used on, and what comes back -----

  predicate DistinctKeys(es: seq<(Bytes, int)>) {
    forall i, j :: 0 <= i < j < |es| ==> es[i].0 != es[j].0
  }

  /** `v` is a value the Go type of a field of kind `k` can hold, its lengths fit a
      32-bit size and its enum numbers a 32-bit integer. */
  predicate Fits(t: Table, k: Kind, v: Val)
    decreases v, 1
  {
    match k
    case KBool => v.Bool?
    case KI32 => v.Int? && FitsI32(v.n)
    case KEnum => v.Int? && FitsI32(v.n)
    case KI64 => v.Int? && FitsI64(v.n)
    case KDouble => v.Double? && FitsI64(v.bits)
    case KString => v.Str? && |v.s| < TWO_TO_THE_31
    case KStruct(r) => FitsRecord(t, r, v)
    case KStrings =>
      && (v.Nil? || v.List?)
      && |ElemsOf(v)| < TWO_TO_THE_31
      && (forall i :: 0 <= i < |ElemsOf(v)| ==> ElemsOf(v)[i].Str? && |ElemsOf(v)[i].s| < TWO_TO_THE_31)
    case KStructs(r) =>
      && (v.Nil? || v.List?)
      && |ElemsOf(v)| < TWO_TO_THE_31
      && (forall i :: 0 <= i < |ElemsOf(v)| ==> FitsRecord(t, r, ElemsOf(v)[i]))
    case KEnumMap =>
      && (v.Nil? || v.Dict?)
      && |EntriesOf(v)| < TWO_TO_THE_31
      && DistinctKeys(EntriesOf(v))
      && (forall i :: 0 <= i < |EntriesOf(v)| ==>
            |EntriesOf(v)[i].0| < TWO_TO_THE_31 && FitsI32(EntriesOf(v)[i].1))
  }

  predicate FitsRecord(t: Table, r: string, v: Val)
    decreases v, 0
  {
    v.Nil? || (v.Rec? && v.rec == r && FitsFields(t, r, v.fields))
  }

  predicate FitsFields(t: Table, r: string, fs: seq<Val>)
    decreases fs, 0
  {
    && |fs| == |Specs(t, r)|
    && (forall i :: 0 <= i < |fs| && Written(Specs(t, r)[i], fs[i]) ==> Fits(t, Specs(t, r)[i].kind, fs[i]))
  }

  /** A written value as the decoder returns it: nil lists and maps are empty, nil
      records are new ones. */
  function Norm(t: Table, k: Kind, v: Val): Val
    decreases v, 1
  {
    match k
    case KStruct(r) => NormRecord(t, r, v)
    case KStrings => List(ElemsOf(v))
    case KStructs(r) => List(if v.List? then NormRecords(t, r, v.elems) else [])
    case KEnumMap => Dict(EntriesOf(v))
    case _ => v
  }

  function NormRecord(t: Table, r: string, v: Val): (n: Val)
    ensures n.Rec? && n.rec == r && |n.fields| == |Specs(t, r)|
    decreases v, 0
  {
    if v.Rec? then Rec(r, Filled(t, r, v.fields, New(t, r), 0, |Specs(t, r)|)) else Rec(r, New(t, r))
  }

  function NormRecords(t: Table, r: string, vs: seq<Val>): seq<Val>
    decreases vs, 0
  {
    if vs == [] then [] else [NormRecord(t, r, vs[0])] + NormRecords(t, r, vs[1..])
  }

  /** `gs` after the written ones of the fields `i..j` of `fs` have been read into it. */
  function Filled(t: Table, r: string, fs: seq<Val>, gs: seq<Val>, i: nat, j: nat): (hs: seq<Val>)
    requires |gs| == |Specs(t, r)| && j <= |Specs(t, r)|
    ensures |hs| == |gs|
    decreases fs, 0, j - i
  {
    if i >= j then gs else Filled(t, r, fs, FillAt(t, r, fs, gs, i), i + 1, j)
  }

  function FillAt(t: Table, r: string, fs: seq<Val>, gs: seq<Val>, i: nat): (hs: seq<Val>)
    requires |gs| == |Specs(t, r)| && i < |Specs(t, r)|
    ensures |hs| == |gs|
    decreases fs, 0, 0
  {
    var spec := Specs(t, r)[i];
    if i < |fs| && Written(spec, fs[i]) then gs[i := Norm(t, spec.kind, fs[i])] else gs
  }

  // ----- the decoder undoes the encoder -----

  lemma {:induction false} FindsOwn(specs: seq<FieldSpec>, j: nat, i: nat)
    requires WellFormedSpecs(specs) && i <= j < |specs| && specs[j].need != Never
    ensures Find(specs, Header(TypeOf(specs[j].kind), specs[j].id), i) == j
    decreases j - i
  {
    if i < j {
      FindsOwn(specs, j, i + 1);
    }
  }

  /** One turn of the field loop on a known field. */
  lemma RecordStep(t: Table, r: string, j: nat, value: Bytes, v: Val, rest: Bytes, fs: seq<Val>)
    requires WellFormedTable(t)
    requires j < |Specs(t, r)| == |fs| && Specs(t, r)[j].need != Never
    requires ReadValue(t, Specs(t, r)[j].kind, value + rest) == Got(v, |value|)
    ensures var spec := Specs(t, r)[j];
            ReadRecord(t, r, (PutField(TypeOf(spec.kind), spec.id) + value) + rest, fs)
            == Skip.After(3 + |value|, ReadRecord(t, r, rest, fs[j := v]))
  {
    hide ReadValue, PutField;
    var spec := Specs(t, r)[j];
    var head := PutField(TypeOf(spec.kind), spec.id);
    var b := (head + value) + rest;
    assert b == head + (value + rest);
    FieldRoundTrip(TypeOf(spec.kind), spec.id, value + rest);
    PrefixOf(head, value + rest);
    FindsOwn(Specs(t, r), j, 0);
    assert ReadField(t, r, Header(TypeOf(spec.kind), spec.id), b[3..], fs) == Got(fs[j := v], |value|);
    assert b[3 + |value|..] == rest by { PrefixOf(head + value, rest); }
  }

  lemma AfterAfter<T>(a: nat, b: nat, r: Read<T>)
    ensures Skip.After(a, Skip.After(b, r)) == Skip.After(a + b, r)
  {
  }

  /** Reading the written fields `i..j` fills them in, whatever follows them. */
  lemma {:induction false} ReadsRange(t: Table, r: string, fs: seq<Val>, gs: seq<Val>, i: nat, j: nat, rest: Bytes)
    requires WellFormedTable(t) && FitsFields(t, r, fs)
    requires |gs| == |fs| && j <= |fs|
    ensures ReadRecord(t, r, PutRange(t, r, fs, i, j) + rest, gs)
            == Skip.After(|PutRange(t, r, fs, i, j)|, ReadRecord(t, r, rest, Filled(t, r, fs, gs, i, j)))
    decreases fs, 0, j - i
  {
    hide ReadRecord;
    if i >= j {
      assert PutRange(t, r, fs, i, j) + rest == rest;
    } else {
      var hs := FillAt(t, r, fs, gs, i);
      var first, more := PutAt(t, r, fs, i), PutRange(t, r, fs, i + 1, j);
      ReadsAt(t, r, fs, gs, i, more + rest);
      ReadsRange(t, r, fs, hs, i + 1, j, rest);
      assert (first + more) + rest == first + (more + rest);
      AfterAfter(|first|, |more|, ReadRecord(t, r, rest, Filled(t, r, fs, hs, i + 1, j)));
    }
  }

  lemma {:induction false} ReadsAt(t: Table, r: string, fs: seq<Val>, gs: seq<Val>, i: nat, rest: Bytes)
    requires WellFormedTable(t) && FitsFields(t, r, fs)
    requires |gs| == |fs| && i < |fs|
    ensures ReadRecord(t, r, PutAt(t, r, fs, i) + rest, gs)
            == Skip.After(|PutAt(t, r, fs, i)|, ReadRecord(t, r, rest, FillAt(t, r, fs, gs, i)))
    decreases fs, 0, 0
  {
    var spec := Specs(t, r)[i];
    if Written(spec, fs[i]) {
      ReadsValue(t, spec.kind, fs[i], rest);
      RecordStep(t, r, i, PutValue(t, spec.kind, fs[i]), Norm(t, spec.kind, fs[i]), rest, gs);
    } else {
      assert PutAt(t, r, fs, i) + rest == rest;
    }
  }

  lemma {:induction false} ReadsValue(t: Table, k: Kind, v: Val, rest: Bytes)
    requires WellFormedTable(t) && Fits(t, k, v)
    ensures ReadValue(t, k, PutValue(t, k, v) + rest) == Got(Norm(t, k, v), |PutValue(t, k, v)|)
    decreases v, 2
  {
    hide ReadRecord, ReadTexts, ReadEntries, PutTexts, PutEntries;
    match k
    case KBool =>
    case KI32 => I32RoundTrip(v.n, rest);
    case KEnum => I32RoundTrip(v.n, rest);
    case KI64 => I64RoundTrip(v.n, rest);
    case KDouble => I64RoundTrip(v.bits, rest);
    case KString => StringRoundTrip(v.s, rest);
    case KStruct(r) => ReadsRecord(t, r, v, rest);
    case KStrings => ReadsStrings(t, v, rest);
    case KStructs(r) =>
      hide ReadValue, PutValue;
      ReadsStructs(t, r, v, rest);
    case KEnumMap => ReadsMap(t, v, rest);
  }

  lemma ReadsStrings(t: Table, v: Val, rest: Bytes)
    requires Fits(t, KStrings, v)
    ensures ReadValue(t, KStrings, PutValue(t, KStrings, v) + rest)
            == Got(Norm(t, KStrings, v), |PutValue(t, KStrings, v)|)
  {
    hide ReadTexts, PutTexts;
    var head, tail := PutList(STRING, |ElemsOf(v)|), PutTexts(ElemsOf(v));
    ListRoundTrip(STRING, |ElemsOf(v)|, tail + rest);
    ListBody(head, tail, rest);
    assert [] + ElemsOf(v) == ElemsOf(v);
    ReadsTexts([], ElemsOf(v), rest);
  }

  lemma {:induction false} ReadsStructs(t: Table, r: string, v: Val, rest: Bytes)
    requires WellFormedTable(t) && Fits(t, KStructs(r), v)
    ensures ReadValue(t, KStructs(r), PutValue(t, KStructs(r), v) + rest)
            == Got(Norm(t, KStructs(r), v), |PutValue(t, KStructs(r), v)|)
    decreases v, 1
  {
    hide ReadRecord;
    var tail := if v.List? then PutRecords(t, r, v.elems) else [];
    ListRoundTrip(STRUCT, |ElemsOf(v)|, tail + rest);
    ListBody(PutList(STRUCT, |ElemsOf(v)|), tail, rest);
    if v.List? {
      hide ReadRecords, PutRecords, NormRecords;
      ReadsRecords(t, r, [], v.elems, rest);
      assert [] + NormRecords(t, r, v.elems) == NormRecords(t, r, v.elems);
    }
  }

  lemma ReadsMap(t: Table, v: Val, rest: Bytes)
    requires Fits(t, KEnumMap, v)
    ensures ReadValue(t, KEnumMap, PutValue(t, KEnumMap, v) + rest)
            == Got(Norm(t, KEnumMap, v), |PutValue(t, KEnumMap, v)|)
  {
    hide ReadEntries, PutEntries;
    var head, tail := PutMap(STRING, I32, |EntriesOf(v)|), PutEntries(EntriesOf(v));
    MapRoundTrip(STRING, I32, |EntriesOf(v)|, tail + rest);
    ListBody(head, tail, rest);
    assert [] + EntriesOf(v) == EntriesOf(v);
    ReadsEntries([], EntriesOf(v), rest);
  }

  lemma ListBody(head: Bytes, tail: Bytes, rest: Bytes)
    ensures (head + tail) + rest == head + (tail + rest)
    ensures ((head + tail) + rest)[|head|..] == tail + rest
  {
  }

  /** The central round trip: whatever follows an encoded record, decoding it into a
      new record succeeds, uses exactly the encoded bytes and gives back the record. */
  lemma {:induction false} ReadsRecord(t: Table, r: string, v: Val, rest: Bytes)
    requires WellFormedTable(t) && FitsRecord(t, r, v)
    ensures ReadRecord(t, r, PutRecord(t, r, v) + rest, New(t, r))
            == Got(NormRecord(t, r, v).fields, |PutRecord(t, r, v)|)
    decreases v, 1
  {
    assert v.Rec? ==> |v.fields| == |Specs(t, r)|;
    hide ReadRecord, FitsFields, PutRange, Filled, ReadField, PutAt, PutValue, FillAt, Norm, Fits, WellFormedTable;
    ReadsStop(t, r, rest, NormRecord(t, r, v).fields);
    if v.Rec? {
      var n := |Specs(t, r)|;
      var body := PutRange(t, r, v.fields, 0, n);
      ReadsRange(t, r, v.fields, New(t, r), 0, n, [STOP] + rest);
      assert (body + [STOP]) + rest == body + ([STOP] + rest);
    }
  }

  lemma ReadsStop(t: Table, r: string, rest: Bytes, fs: seq<Val>)
    requires |fs| == |Specs(t, r)|
    ensures ReadRecord(t, r, [STOP] + rest, fs) == Got(fs, 1)
  {
  }

  lemma MoveOne<T>(done: seq<T>, more: seq<T>)
    requires more != []
    ensures (done + [more[0]]) + more[1..] == done + more
  {
  }

  /** One turn of each list loop. */
  lemma TextStep(first: Bytes, s: Bytes, more: Bytes, rest: Bytes, n: nat, done: seq<Val>)
    requires n > 0 && GetString(first + (more + rest)) == Got(s, |first|)
    ensures ReadTexts((first + more) + rest, n, done)
            == Skip.After(|first|, ReadTexts(more + rest, n - 1, done + [Str(s)]))
  {
    hide GetString;
    ListBody(first, more, rest);
  }

  lemma RecordsStep(t: Table, r: string, first: Bytes, fs: seq<Val>, more: Bytes, rest: Bytes, n: nat, done: seq<Val>)
    requires n > 0 && ReadRecord(t, r, first + (more + rest), New(t, r)) == Got(fs, |first|)
    ensures ReadRecords(t, r, (first + more) + rest, n, done)
            == Skip.After(|first|, ReadRecords(t, r, more + rest, n - 1, done + [Rec(r, fs)]))
  {
    hide ReadRecord;
    ListBody(first, more, rest);
  }

  lemma {:induction false} ReadsTexts(done: seq<Val>, vs: seq<Val>, rest: Bytes)
    requires forall i :: 0 <= i < |vs| ==> vs[i].Str? && |vs[i].s| < TWO_TO_THE_31
    ensures ReadTexts(PutTexts(vs) + rest, |vs|, done) == Got(done + vs, |PutTexts(vs)|)
    decreases vs
  {
    if vs == [] {
      assert done + vs == done && PutTexts(vs) + rest == rest;
    } else {
      hide PutString, GetString, ReadTexts;
      var first, more := PutString(vs[0].s), PutTexts(vs[1..]);
      StringRoundTrip(vs[0].s, more + rest);
      assert |first| == 4 + |vs[0].s| by { PutStringLength(vs[0].s); }
      TextStep(first, vs[0].s, more, rest, |vs|, done);
      ReadsTexts(done + [vs[0]], vs[1..], rest);
      MoveOne(done, vs);
    }
  }

  lemma PutStringLength(s: Bytes)
    ensures |PutString(s)| == 4 + |s|
  {
  }

  lemma {:induction false} ReadsRecords(t: Table, r: string, done: seq<Val>, vs: seq<Val>, rest: Bytes)
    requires WellFormedTable(t)
    requires forall i :: 0 <= i < |vs| ==> FitsRecord(t, r, vs[i])
    ensures ReadRecords(t, r, PutRecords(t, r, vs) + rest, |vs|, done)
            == Got(done + NormRecords(t, r, vs), |PutRecords(t, r, vs)|)
    decreases vs, 0
  {
    hide ReadRecord, PutRecord, NormRecord, FitsRecord;
    if vs == [] {
      assert done + [] == done && PutRecords(t, r, vs) + rest == rest;
    } else {
      hide ReadRecords;
      var first, more := PutRecord(t, r, vs[0]), PutRecords(t, r, vs[1..]);
      ReadsRecord(t, r, vs[0], more + rest);
      RecordsStep(t, r, first, NormRecord(t, r, vs[0]).fields, more, rest, |vs|, done);
      var done' := done + [NormRecord(t, r, vs[0])];
      ReadsRecords(t, r, done', vs[1..], rest);
      MoveOne(done, NormRecords(t, r, vs));
    }
  }

  lemma {:induction false} StoreNew(es: seq<(Bytes, int)>, key: Bytes, n: int)
    requires forall i :: 0 <= i < |es| ==> es[i].0 != key
    ensures Store(es, key, n) == es + [(key, n)]
  {
    if es != [] {
      StoreNew(es[1..], key, n);
    }
  }

  lemma KeyIsNew(done: seq<(Bytes, int)>, es: seq<(Bytes, int)>)
    requires es != [] && DistinctKeys(done + es)
    ensures forall i :: 0 <= i < |done| ==> done[i].0 != es[0].0
  {
    forall i | 0 <= i < |done| ensures done[i].0 != es[0].0 {
      assert (done + es)[i] == done[i] && (done + es)[|done|] == es[0];
    }
  }

  lemma {:induction false} ReadsEntries(done: seq<(Bytes, int)>, es: seq<(Bytes, int)>, rest: Bytes)
    requires DistinctKeys(done + es)
    requires forall k :: 0 <= k < |es| ==> |es[k].0| < TWO_TO_THE_31 && FitsI32(es[k].1)
    ensures ReadEntries(PutEntries(es) + rest, |es|, done) == Got(done + es, |PutEntries(es)|)
    decreases es
  {
    if es == [] {
      assert done + es == done && PutEntries(es) + rest == rest;
    } else {
      hide ReadEntries, Store, GetEntry, PutString, PutI32;
      var key, n, more := es[0].0, es[0].1, PutEntries(es[1..]);
      var done' := done + [(key, n)];
      MoveOne(done, es);
      ReadsEntries(done', es[1..], rest);
      KeyIsNew(done, es);
      StoreNew(done, key, n);
      EntryRoundTrip(key, n, more + rest);
      EntryStep(PutString(key) + PutI32(n), key, n, more, rest, |es|, done);
    }
  }

  lemma EntryRoundTrip(key: Bytes, n: int, rest: Bytes)
    requires |key| < TWO_TO_THE_31 && FitsI32(n)
    ensures GetEntry((PutString(key) + PutI32(n)) + rest) == Got((key, n), |PutString(key) + PutI32(n)|)
  {
    assert (PutString(key) + PutI32(n)) + rest == PutString(key) + (PutI32(n) + rest);
    StringRoundTrip(key, PutI32(n) + rest);
    PrefixOf(PutString(key), PutI32(n) + rest);
    I32RoundTrip(n, rest);
  }

  /** One turn of the map loop. */
  lemma EntryStep(entry: Bytes, key: Bytes, n: int, more: Bytes, rest: Bytes, count: nat, es: seq<(Bytes, int)>)
    requires count > 0 && GetEntry(entry + (more + rest)) == Got((key, n), |entry|)
    ensures ReadEntries((entry + more) + rest, count, es)
            == Skip.After(|entry|, ReadEntries(more + rest, count - 1, Store(es, key, n)))
  {
    hide GetEntry, Store;
    ListBody(entry, more, rest);
  }
}
