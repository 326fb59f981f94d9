/** The records of the AST as parser/AST.go declares them, by the Go types of their fields, and
    what the codec makes of values of these types: they fit, they come back, and their encoding
    is that of a value of the Thrift Binary Protocol. */
module AstTypes {
  import opened Wire
  import opened Codec
  import opened AstTable
  import CodecLaws
  import Skip

  datatype GoType =
    | GoString | GoBool | GoInt32 | GoInt64 | GoFloat64
    | GoEnum                   // Category, ConstType and FieldType
    | Ptr(to: GoType) | Struct(rec: string) | Slice(elem: GoType)
    | Categories               // map[string]Category

  /** A field with its type, whether its tag says `optional`, whether the codec knows it, and
      what it holds in a new record. */
  datatype GoField = GoField(name: string, ty: GoType, optional: bool, coded: bool, start: Val)

  function Field(name: string, ty: GoType): GoField { GoField(name, ty, false, true, Zero(ty)) }
  function Optional(name: string, ty: GoType): GoField { GoField(name, ty, true, true, Nil) }
  function PtrTo(rec: string): GoType { Ptr(Struct(rec)) }
  function SliceOf(rec: string): GoType { Slice(PtrTo(rec)) }

  const ANNOTATIONS: GoField := Field("Annotations", SliceOf("Annotation"))
  const COMMENTS: GoField := Field("ReservedComments", GoString)

  const GO_REFERENCE: seq<GoField> := [Field("Name", GoString), Field("Index", GoInt32)]

  const GO_ANNOTATION: seq<GoField> := [Field("Key", GoString), Field("Values", Slice(GoString))]

  const GO_TYPE: seq<GoField> := [
    Field("Name", GoString), Optional("KeyType", PtrTo("Type")), Optional("ValueType", PtrTo("Type")),
    Field("CppType", GoString), ANNOTATIONS, Field("Category", GoEnum),
    Optional("Reference", PtrTo("Reference")), Optional("IsTypedef", Ptr(GoBool))]

  const GO_NAMESPACE: seq<GoField> := [Field("Language", GoString), Field("Name", GoString), ANNOTATIONS]

  const GO_TYPEDEF: seq<GoField> := [Optional("Type", PtrTo("Type")), Field("Alias", GoString), ANNOTATIONS, COMMENTS]

  const GO_ENUM_VALUE: seq<GoField> := [Field("Name", GoString), Field("Value", GoInt64), ANNOTATIONS, COMMENTS]

  const GO_ENUM: seq<GoField> := [Field("Name", GoString), Field("Values", SliceOf("EnumValue")), ANNOTATIONS, COMMENTS]

  const GO_CONST_VALUE_EXTRA: seq<GoField> := [
    Field("IsEnum", GoBool), GoField("Index", GoInt32, false, true, Int(-1)), Field("Name", GoString), Field("Sel", GoString)]

  const GO_CONST_VALUE: seq<GoField> := [
    Field("Type", GoEnum), Optional("TypedValue", PtrTo("ConstTypedValue")), Optional("Extra", PtrTo("ConstValueExtra"))]

  const GO_MAP_CONST_VALUE: seq<GoField> := [Optional("Key", PtrTo("ConstValue")), Optional("Value", PtrTo("ConstValue"))]

  const GO_CONST_TYPED_VALUE: seq<GoField> := [
    Optional("Double", Ptr(GoFloat64)), Optional("Int", Ptr(GoInt64)), Optional("Literal", Ptr(GoString)),
    Optional("Identifier", Ptr(GoString)), Optional("List", SliceOf("ConstValue")), Optional("Map", SliceOf("MapConstValue"))]

  const GO_CONSTANT: seq<GoField> := [
    Field("Name", GoString), Optional("Type", PtrTo("Type")), Optional("Value", PtrTo("ConstValue")), ANNOTATIONS, COMMENTS]

  const GO_FIELD: seq<GoField> := [
    Field("ID", GoInt32), Field("Name", GoString), Field("Requiredness", GoEnum), Field("Type", PtrTo("Type")),
    Optional("Default", PtrTo("ConstValue")), ANNOTATIONS, COMMENTS]

  const GO_STRUCT_LIKE: seq<GoField> := [
    Field("Category", GoString), Field("Name", GoString), Field("Fields", SliceOf("Field")), ANNOTATIONS, COMMENTS,
    GoField("Expandable", Ptr(GoBool), true, false, Nil)]

  const GO_FUNCTION: seq<GoField> := [
    Field("Name", GoString), Field("Oneway", GoBool), Field("Void", GoBool), Optional("FunctionType", PtrTo("Type")),
    Field("Arguments", SliceOf("Field")), Field("Throws", SliceOf("Field")), ANNOTATIONS, COMMENTS]

  const GO_SERVICE: seq<GoField> := [
    Field("Name", GoString), Field("Extends", GoString), Field("Functions", SliceOf("Function")), ANNOTATIONS,
    Optional("Reference", PtrTo("Reference")), COMMENTS]

  const GO_INCLUDE: seq<GoField> := [Field("Path", GoString), Optional("Reference", PtrTo("Thrift")), Optional("Used", Ptr(GoBool))]

  const GO_THRIFT: seq<GoField> := [
    Field("Filename", GoString), Field("Includes", SliceOf("Include")), Field("CppIncludes", Slice(GoString)),
    Field("Namespaces", SliceOf("Namespace")), Field("Typedefs", SliceOf("Typedef")),
    Field("Constants", SliceOf("Constant")), Field("Enums", SliceOf("Enum")), Field("Structs", SliceOf("StructLike")),
    Field("Unions", SliceOf("StructLike")), Field("Exceptions", SliceOf("StructLike")),
    Field("Services", SliceOf("Service")), Field("Name2Category", Categories)]

  const GoTypes: Declarations := map[
    "Reference" := GO_REFERENCE, "Annotation" := GO_ANNOTATION, "Type" := GO_TYPE, "Namespace" := GO_NAMESPACE,
    "Typedef" := GO_TYPEDEF, "EnumValue" := GO_ENUM_VALUE, "Enum" := GO_ENUM, "ConstValueExtra" :=
    GO_CONST_VALUE_EXTRA, "ConstValue" := GO_CONST_VALUE, "MapConstValue" := GO_MAP_CONST_VALUE,
    "ConstTypedValue" := GO_CONST_TYPED_VALUE, "Constant" := GO_CONSTANT, "Field" := GO_FIELD, "StructLike" :=
    GO_STRUCT_LIKE, "Function" := GO_FUNCTION, "Service" := GO_SERVICE, "Include" := GO_INCLUDE, "Thrift" :=
    GO_THRIFT]

  // ----- values of the types -----

  type Declarations = map<string, seq<GoField>>

  /** A value of a type, with lengths and enum numbers that fit 32 bits. */
  predicate GoValue(g: Declarations, ty: GoType, v: Val)
    decreases v, 1, ty
  {
    match ty
    case GoString => v.Str? && |v.s| < TWO_TO_THE_31
    case GoBool => v.Bool?
    case GoInt32 => v.Int? && FitsI32(v.n)
    case GoInt64 => v.Int? && FitsI64(v.n)
    case GoFloat64 => v.Double? && FitsI64(v.bits)
    case GoEnum => v.Int? && FitsI32(v.n)
    case Ptr(t) => v.Nil? || GoValue(g, t, v)
    case Struct(r) => GoRecord(g, r, v)
    case Slice(t) =>
      v.Nil? || (v.List? && |v.elems| < TWO_TO_THE_31 && forall i :: 0 <= i < |v.elems| ==> GoValue(g, t, v.elems[i]))
    case Categories =>
      v.Nil?
      || (v.Dict? && |v.entries| < TWO_TO_THE_31 && DistinctKeys(v.entries)
          && forall i :: 0 <= i < |v.entries| ==> |v.entries[i].0| < TWO_TO_THE_31 && FitsI32(v.entries[i].1))
  }

  predicate GoRecord(g: Declarations, r: string, v: Val)
    decreases v, 0
  {
    && v.Rec? && v.rec == r && r in g && |v.fields| == |g[r]|
    && forall i :: 0 <= i < |v.fields| ==> GoValue(g, g[r][i].ty, v.fields[i])
  }

  /** The value that Go gives to what is not initialised. */
  function Zero(ty: GoType): Val {
    match ty
    case GoString => Str([])
    case GoBool => Bool(false)
    case GoInt32 => Int(0)
    case GoInt64 => Int(0)
    case GoEnum => Int(0)
    case GoFloat64 => Double(0)
    case _ => Nil
  }

  predicate Basic(ty: GoType) {
    ty.GoString? || ty.GoBool? || ty.GoInt32? || ty.GoInt64? || ty.GoFloat64? || ty.GoEnum?
  }

  /** The types that fields have. */
  predicate Declared(ty: GoType) {
    match ty
    case Ptr(t) => Basic(t) || t.Struct?
    case Slice(t) => t.GoString? || (t.Ptr? && t.to.Struct?)
    case Struct(_) => false
    case _ => true
  }

  function KindOf(ty: GoType): Kind {
    match ty
    case GoString => KString
    case GoBool => KBool
    case GoInt32 => KI32
    case GoInt64 => KI64
    case GoFloat64 => KDouble
    case GoEnum => KEnum
    case Ptr(t) => KindOf(t)
    case Struct(r) => KStruct(r)
    case Slice(t) => if t.Ptr? && t.to.Struct? then KStructs(t.to.rec) else KStrings
    case Categories => KEnumMap
  }

  // ----- the table of the codec agrees with the declarations -----

  predicate Agrees(i: nat, f: GoField, s: FieldSpec) {
    && s.name == f.name && s.id == i + 1 && s.kind == KindOf(f.ty) && Declared(f.ty)
    && s.need == (if !f.coded then Never else if f.optional then IfSet else Always)
    && s.initial == f.start && (f.ty.Ptr? && Basic(f.ty.to) ==> f.optional)
    && (f.optional ==> f.start == Nil)
  }

  predicate AllAgree(fs: seq<GoField>, specs: seq<FieldSpec>) {
    |fs| == |specs| < TWO_TO_THE_15 && forall i :: 0 <= i < |fs| ==> Agrees(i, fs[i], specs[i])
  }

  lemma NamesAgree()
    ensures AllAgree(GO_REFERENCE, REFERENCE) && AllAgree(GO_ANNOTATION, ANNOTATION)
  {
  }

  lemma TypeAgrees()
    ensures AllAgree(GO_TYPE, TYPE)
  {
  }

  lemma HeadsAgree()
    ensures AllAgree(GO_NAMESPACE, NAMESPACE) && AllAgree(GO_TYPEDEF, TYPEDEF)
  {
  }

  lemma EnumsAgree()
    ensures AllAgree(GO_ENUM_VALUE, ENUM_VALUE) && AllAgree(GO_ENUM, ENUM)
  {
  }

  lemma ValuesAgree()
    ensures AllAgree(GO_CONST_VALUE_EXTRA, CONST_VALUE_EXTRA) && AllAgree(GO_CONST_VALUE, CONST_VALUE)
  {
  }

  lemma TypedValuesAgree()
    ensures AllAgree(GO_MAP_CONST_VALUE, MAP_CONST_VALUE) && AllAgree(GO_CONST_TYPED_VALUE, CONST_TYPED_VALUE)
  {
  }

  lemma ConstantsAgree()
    ensures AllAgree(GO_CONSTANT, CONSTANT)
  {
  }

  lemma FieldsAgree()
    ensures AllAgree(GO_FIELD, FIELD)
  {
  }

  lemma StructsAgree()
    ensures AllAgree(GO_STRUCT_LIKE, STRUCT_LIKE)
  {
  }

  lemma FunctionsAgree()
    ensures AllAgree(GO_FUNCTION, FUNCTION)
  {
  }

  lemma ServicesAgree()
    ensures AllAgree(GO_SERVICE, SERVICE)
  {
  }

  lemma IncludesAgree()
    ensures AllAgree(GO_INCLUDE, INCLUDE)
  {
  }

  lemma ThriftAgrees()
    ensures AllAgree(GO_THRIFT, THRIFT)
  {
    hide Agrees;
    forall i | 0 <= i < |GO_THRIFT|
      ensures Agrees(i, GO_THRIFT[i], THRIFT[i])
    {
      if i < 6 {
        ThriftBegins(i);
      } else {
        ThriftEnds(i);
      }
    }
  }

  lemma ThriftBegins(i: nat)
    requires i < 6
    ensures Agrees(i, GO_THRIFT[i], THRIFT[i])
  {
  }

  lemma ThriftEnds(i: nat)
    requires 6 <= i < 12
    ensures Agrees(i, GO_THRIFT[i], THRIFT[i])
  {
  }

  /** The codec knows the declared fields, in order, with ids from 1, by the kinds of their
      types; new records hold what the New functions leave. */
  ghost predicate Follows(t: Table, g: Declarations) {
    forall r :: r in g ==> r in t && AllAgree(g[r], t[r])
  }

  lemma AstFollows()
    ensures Follows(AST, GoTypes) && AST.Keys == GoTypes.Keys
  {
    hide AllAgree;
    NamesAgree();
    TypeAgrees();
    HeadsAgree();
    EnumsAgree();
    ValuesAgree();
    TypedValuesAgree();
    ConstantsAgree();
    FieldsAgree();
    StructsAgree();
    FunctionsAgree();
    ServicesAgree();
    IncludesAgree();
    ThriftAgrees();
  }

  lemma AgreesAt(t: Table, g: Declarations, r: string, i: nat)
    requires Follows(t, g) && r in g && i < |g[r]|
    ensures r in t && |t[r]| == |g[r]| && Agrees(i, g[r][i], t[r][i])
  {
    hide Agrees;
  }

  // ----- values of the types fit -----

  /** The codec takes every value of a declared type, unless it is a nil pointer to a string, a
      number or a flag, which is not written. */
  lemma {:induction false} ValueFits(t: Table, g: Declarations, ty: GoType, v: Val)
    requires Follows(t, g) && GoValue(g, ty, v) && Declared(ty) && (ty.Ptr? && Basic(ty.to) ==> v != Nil)
    ensures Fits(t, KindOf(ty), v)
    decreases v, 1
  {
    hide Follows;
    match ty
    case Ptr(to) =>
      if to.Struct? {
        PointerFits(t, g, to.rec, v);
      }
    case Slice(to) =>
      forall i | 0 <= i < |ElemsOf(v)| && to.Ptr?
        ensures FitsRecord(t, to.to.rec, ElemsOf(v)[i])
      {
        PointerFits(t, g, to.to.rec, v.elems[i]);
      }
    case _ =>
  }

  lemma {:induction false} PointerFits(t: Table, g: Declarations, r: string, v: Val)
    requires Follows(t, g) && GoValue(g, PtrTo(r), v)
    ensures FitsRecord(t, r, v)
    decreases v, 0, 1
  {
    if v != Nil {
      assert GoValue(g, Struct(r), v);
      GoFits(t, g, r, v);
    }
  }

  /** Every record whose fields hold values of their Go types is one that the codec takes. */
  lemma {:induction false} GoFits(t: Table, g: Declarations, r: string, v: Val)
    requires Follows(t, g) && GoRecord(g, r, v)
    ensures FitsRecord(t, r, v)
    decreases v, 0, 0
  {
    hide Fits, GoValue, Follows, KindOf, Declared;
    assert r in t && |t[r]| == |g[r]| by { FollowsIs(t, g, r); }
    forall i | 0 <= i < |v.fields| && Written(t[r][i], v.fields[i])
      ensures Fits(t, t[r][i].kind, v.fields[i])
    {
      AgreesAt(t, g, r, i);
      WrittenIs(t[r][i], g[r][i], v.fields[i]);
      ValueFits(t, g, g[r][i].ty, v.fields[i]);
    }
  }

  lemma FollowsIs(t: Table, g: Declarations, r: string)
    requires Follows(t, g) && r in g
    ensures r in t && |t[r]| == |g[r]| < TWO_TO_THE_15
  {
  }

  lemma WrittenIs(s: FieldSpec, f: GoField, v: Val)
    requires exists i: nat :: Agrees(i, f, s)
    ensures Written(s, v) <==> f.coded && (f.optional ==> v != Nil)
    ensures Declared(f.ty) && s.kind == KindOf(f.ty) && (f.ty.Ptr? && Basic(f.ty.to) ==> f.optional)
  {
  }

  // ----- what comes back -----

  /** What a field holds after the round trip: strings, numbers and flags are the same, and so
      are pointers to them; pointers to records and slices keep what they hold. */
  predicate Returned(t: Table, f: GoField, v: Val, w: Val) {
    match f.ty
    case Ptr(to) =>
      if !to.Struct? then w == v
      else if v.Nil? then w == if f.optional then Nil else Rec(to.rec, New(t, to.rec))
      else w == NormRecord(t, to.rec, v)
    case Slice(to) =>
      if f.optional && v.Nil? then w == Nil
      else
        && w.List? && |w.elems| == |ElemsOf(v)|
        && forall k :: 0 <= k < |w.elems| ==>
             w.elems[k] == if to.Ptr? && to.to.Struct? then NormRecord(t, to.to.rec, v.elems[k]) else v.elems[k]
    case Categories => w == if f.optional && v.Nil? then Nil else Dict(EntriesOf(v))
    case _ => w == v
  }

  lemma NilReturns(t: Table, r: string)
    ensures NormRecord(t, r, Nil) == Rec(r, New(t, r))
  {
  }

  lemma FieldReturns(t: Table, g: Declarations, f: GoField, v: Val, i: nat, s: FieldSpec)
    requires GoValue(g, f.ty, v) && f.coded && Agrees(i, f, s)
    ensures Returned(t, f, v, if Written(s, v) then Norm(t, s.kind, v) else s.initial)
  {
    hide NormRecord;
    if f.ty.Ptr? {
      assert KindOf(f.ty) == KindOf(f.ty.to);
      if f.ty.to.Struct? {
        NilReturns(t, f.ty.to.rec);
      }
    }
    if f.ty.Slice? && f.ty.elem.Ptr? && v.List? {
      forall k | 0 <= k < |v.elems|
        ensures var ns := NormRecords(t, f.ty.elem.to.rec, v.elems);
                |ns| == |v.elems| && ns[k] == NormRecord(t, f.ty.elem.to.rec, v.elems[k])
      {
        CodecLaws.NormRecordsAt(t, f.ty.elem.to.rec, v.elems, k);
      }
    }
  }

  /** Every record whose fields hold values of their Go types is decoded from its encoding,
      whatever bytes follow, with every field that the codec knows as it was. */
  lemma ComesBack(r: string, v: Val, rest: Bytes)
    requires GoRecord(GoTypes, r, v)
    ensures var d := ReadRecord(AST, r, PutRecord(AST, r, v) + rest, New(AST, r));
            && d.Got? && d.used == |PutRecord(AST, r, v)| && |d.value| == |v.fields|
            && forall i :: 0 <= i < |v.fields| && GoTypes[r][i].coded ==>
                 Returned(AST, GoTypes[r][i], v.fields[i], d.value[i])
  {
    hide ReadRecord, PutRecord, Fits, GoValue, KindOf, Declared, Returned, Norm, AST, GoTypes, Agrees, Filled;
    AstFollows();
    GoFits(AST, GoTypes, r, v);
    AstRoundTrip(r, v, rest);
    FollowsIs(AST, GoTypes, r);
    forall i | 0 <= i < |v.fields| && GoTypes[r][i].coded
      ensures Returned(AST, GoTypes[r][i], v.fields[i], NormRecord(AST, r, v).fields[i])
    {
      AgreesAt(AST, GoTypes, r, i);
      CodecLaws.FilledAt(AST, r, v.fields, New(AST, r), 0, |v.fields|, i);
      FieldReturns(AST, GoTypes, GoTypes[r][i], v.fields[i], i, AST[r][i]);
    }
  }

  // ----- the encoding is that of a value of the protocol -----

  /** The `k` low-order bytes of a number in two's complement, most significant first. */
  function Digits(n: int, k: nat): Bytes {
    seq(k, i requires 0 <= i < k => n % Pow256(k) / Pow256(k - 1 - i) % 256)
  }

  /** A value of a type as a value of the Binary Protocol, by the numbers of its types. */
  function AsThrift(g: Declarations, ty: GoType, v: Val): Skip.Value
    decreases v, 1, ty
  {
    match ty
    case GoString => Skip.Text(TextOf(v))
    case GoBool => Skip.Fixed(2, [if v == Bool(true) then 1 else 0])
    case GoInt32 => Skip.Fixed(8, Digits(IntOf(v), 4))
    case GoEnum => Skip.Fixed(8, Digits(IntOf(v), 4))
    case GoInt64 => Skip.Fixed(10, Digits(IntOf(v), 8))
    case GoFloat64 => Skip.Fixed(4, Digits(BitsOf(v), 8))
    case Ptr(to) => AsThrift(g, to, v)
    case Struct(r) => AsRecord(g, r, v)
    case Slice(elem) => Skip.Sequence(15, if elem.GoString? then 11 else 12, if v.List? then AsValues(g, elem, v.elems) else Skip.NoValue)
    case Categories => Skip.Dictionary(11, 8, AsPairs(EntriesOf(v)))
  }

  function AsRecord(g: Declarations, r: string, v: Val): Skip.Value
    decreases v, 0
  {
    Skip.Record(if v.Rec? && r in g && |v.fields| == |g[r]| then AsFields(g, r, v.fields, 0) else Skip.NoField)
  }

  /** The fields from the `i`-th on: those that are not optional, and those that are there. */
  function AsFields(g: Declarations, r: string, fs: seq<Val>, i: nat): Skip.Fields
    requires r in g && |fs| == |g[r]|
    decreases fs, 0, |fs| - i
  {
    if i >= |fs| then Skip.NoField
    else if g[r][i].coded && (g[r][i].optional ==> fs[i] != Nil) then
      Skip.AddField(i + 1, AsThrift(g, g[r][i].ty, fs[i]), AsFields(g, r, fs, i + 1))
    else AsFields(g, r, fs, i + 1)
  }

  function AsValues(g: Declarations, ty: GoType, vs: seq<Val>): Skip.Values
    decreases vs, 0
  {
    if vs == [] then Skip.NoValue else Skip.AddValue(AsThrift(g, ty, vs[0]), AsValues(g, ty, vs[1..]))
  }

  function AsPairs(es: seq<(Bytes, int)>): Skip.Pairs {
    if es == [] then Skip.NoPair
    else Skip.AddPair(Skip.Text(es[0].0), Skip.Fixed(8, Digits(es[0].1, 4)), AsPairs(es[1..]))
  }

  lemma {:induction false} DigitsAre(n: nat, k: nat)
    requires n < Pow256(k)
    ensures BigEndian(n, k) == Digits(n, k)
  {
    if k > 0 {
      DivBelow(n, Pow256(k - 1));
      DigitsAre(n / 256, k - 1);
      forall i | 0 <= i < k
        ensures BigEndian(n, k)[i] == Digits(n, k)[i]
      {
        DigitAt(n, k, i);
      }
    }
  }

  lemma DigitAt(n: nat, k: nat, i: nat)
    requires i < k && n < Pow256(k) && n / 256 < Pow256(k - 1) && BigEndian(n / 256, k - 1) == Digits(n / 256, k - 1)
    ensures BigEndian(n, k)[i] == n / Pow256(k - 1 - i) % 256 == Digits(n, k)[i]
  {
    hide BigEndian, Digits;
    EndianAt(n, k, i);
    DigitsAt(n, k, i);
    Same(n, Pow256(k));
    if i < k - 1 {
      DigitsAt(n / 256, k - 1, i);
      Same(n / 256, Pow256(k - 1));
      DivTwice(n, Pow256(k - 2 - i));
      assert Pow256(k - 1 - i) == 256 * Pow256(k - 2 - i);
    } else {
      assert Pow256(0) == 1;
    }
  }

  lemma EndianAt(n: nat, k: nat, i: nat)
    requires i < k
    ensures BigEndian(n, k)[i] == if i < k - 1 then BigEndian(n / 256, k - 1)[i] else n % 256
  {
  }

  lemma DigitsAt(n: nat, k: nat, i: nat)
    requires i < k
    ensures Digits(n, k)[i] == n % Pow256(k) / Pow256(k - 1 - i) % 256
  {
  }

  lemma Same(n: nat, m: nat)
    requires n < m
    ensures n % m == n
  {
  }

  lemma DivBelow(n: nat, p: nat)
    requires n < 256 * p
    ensures n / 256 < p
  {
  }

  lemma DivTwice(n: nat, p: nat)
    requires p > 0
    ensures n / 256 / p == n / (256 * p)
  {
    var q := n / 256;
    DivIs(n, 256 * p, q / p, 256 * (q % p) + n % 256);
  }

  lemma DivIs(n: nat, d: nat, a: nat, c: nat)
    requires d > 0 && n == d * a + c && c < d
    ensures n / d == a
  {
    DivBounds(n, d);
    var m := n / d;
    if m > a {
      MulUp(d, a + 1, m);
    } else if m < a {
      MulUp(d, m + 1, a);
    }
  }

  lemma DivBounds(n: nat, d: nat)
    requires d > 0
    ensures d * (n / d) <= n < d * (n / d + 1)
  {
  }

  lemma MulUp(d: nat, x: nat, y: nat)
    requires x <= y
    ensures d * x <= d * y
    ensures d * x == d * (x - 1) + d
  {
  }

  lemma Pow256Of(k: nat)
    requires k == 4 || k == 8
    ensures Pow256(k) == if k == 4 then TWO_TO_THE_32 else TWO_TO_THE_64
  {
    Pow256Values();
  }

  /** The numbers are written big-endian. */
  lemma NumbersAre(n: int)
    ensures PutI32(n) == Digits(n, 4) && PutI64(n) == Digits(n, 8)
  {
    hide BigEndian, Pow256;
    NumberIs(n, 4);
    NumberIs(n, 8);
  }

  lemma NumberIs(n: int, k: nat)
    requires k == 4 || k == 8
    ensures BigEndian(n % (if k == 4 then TWO_TO_THE_32 else TWO_TO_THE_64), k) == Digits(n, k)
  {
    Pow256Of(k);
    var u := n % Pow256(k);
    DigitsAre(u, k);
    Same(u, Pow256(k));
    assert Digits(u, k) == Digits(n, k);
  }

  lemma {:induction false} ValueIs(t: Table, g: Declarations, ty: GoType, v: Val)
    requires Follows(t, g) && GoValue(g, ty, v) && Declared(ty) && (ty.Ptr? && Basic(ty.to) ==> v != Nil)
    ensures PutValue(t, KindOf(ty), v) == Skip.Put(AsThrift(g, ty, v))
    ensures TypeOf(KindOf(ty)) == Skip.TypeOf(AsThrift(g, ty, v)) && Skip.WellFormed(AsThrift(g, ty, v))
    decreases v, 1
  {
    hide Follows;
    match ty
    case Ptr(to) =>
      if to.Struct? {
        PointerIs(t, g, to.rec, v);
      } else {
        BasicIs(t, g, to, v);
      }
    case Slice(to) =>
      if to.GoString? {
        TextsAre(g, ElemsOf(v));
      } else {
        if v.List? { RecordsAre(t, g, to.to.rec, v.elems); }
      }
    case Categories => EntriesAre(EntriesOf(v));
    case _ => BasicIs(t, g, ty, v);
  }

  lemma BasicIs(t: Table, g: Declarations, ty: GoType, v: Val)
    requires GoValue(g, ty, v) && Basic(ty)
    ensures PutValue(t, KindOf(ty), v) == Skip.Put(AsThrift(g, ty, v))
    ensures TypeOf(KindOf(ty)) == Skip.TypeOf(AsThrift(g, ty, v)) && Skip.WellFormed(AsThrift(g, ty, v))
  {
    hide PutI32, PutI64, Digits;
    NumbersAre(IntOf(v));
    NumbersAre(BitsOf(v));
  }

  lemma {:induction false} PointerIs(t: Table, g: Declarations, r: string, v: Val)
    requires Follows(t, g) && GoValue(g, PtrTo(r), v)
    ensures AsThrift(g, PtrTo(r), v) == AsRecord(g, r, v) && PutRecord(t, r, v) == Skip.Put(AsRecord(g, r, v))
    ensures Skip.WellFormed(AsRecord(g, r, v))
    decreases v, 0, 1
  {
    assert AsThrift(g, PtrTo(r), v) == AsThrift(g, Struct(r), v);
    if v != Nil {
      assert GoValue(g, Struct(r), v);
      RecordIs(t, g, r, v);
    }
  }

  /** The encoding of a record is that of a struct of the protocol with the fields that are
      there. */
  lemma {:induction false} RecordIs(t: Table, g: Declarations, r: string, v: Val)
    requires Follows(t, g) && GoRecord(g, r, v)
    ensures PutRecord(t, r, v) == Skip.Put(AsRecord(g, r, v)) && Skip.WellFormed(AsRecord(g, r, v))
    decreases v, 0, 0
  {
    hide GoValue, Follows;
    FollowsIs(t, g, r);
    FieldsAre(t, g, r, v.fields, 0);
  }

  lemma {:induction false} FieldsAre(t: Table, g: Declarations, r: string, fs: seq<Val>, i: nat)
    requires Follows(t, g) && r in g && r in t && |fs| == |g[r]| == |t[r]| < TWO_TO_THE_15 && i <= |fs|
    requires forall k :: 0 <= k < |fs| ==> GoValue(g, g[r][k].ty, fs[k])
    ensures PutRange(t, r, fs, i, |fs|) + [STOP] == Skip.PutFields(AsFields(g, r, fs, i))
    ensures Skip.WellFormedFields(AsFields(g, r, fs, i))
    decreases fs, 0, |fs| - i
  {
    hide GoValue, Follows, KindOf, Declared, AsThrift, PutValue;
    if i < |fs| {
      AgreesAt(t, g, r, i);
      WrittenIs(t[r][i], g[r][i], fs[i]);
      if Written(t[r][i], fs[i]) {
        ValueIs(t, g, g[r][i].ty, fs[i]);
      }
      FieldsAre(t, g, r, fs, i + 1);
    }
  }

  lemma {:induction false} TextsAre(g: Declarations, vs: seq<Val>)
    requires forall i :: 0 <= i < |vs| ==> vs[i].Str? && |vs[i].s| < TWO_TO_THE_31
    ensures PutTexts(vs) == Skip.PutValues(AsValues(g, GoString, vs)) && Skip.Count(AsValues(g, GoString, vs)) == |vs|
    ensures Skip.WellFormedValues(AsValues(g, GoString, vs), 11)
    decreases vs
  {
    if vs != [] {
      TextsAre(g, vs[1..]);
    }
  }

  lemma {:induction false} RecordsAre(t: Table, g: Declarations, r: string, vs: seq<Val>)
    requires Follows(t, g) && forall i :: 0 <= i < |vs| ==> GoValue(g, PtrTo(r), vs[i])
    ensures PutRecords(t, r, vs) == Skip.PutValues(AsValues(g, PtrTo(r), vs)) && Skip.Count(AsValues(g, PtrTo(r), vs)) == |vs|
    ensures Skip.WellFormedValues(AsValues(g, PtrTo(r), vs), 12)
    decreases vs, 0
  {
    hide GoValue, Follows, PutRecord, AsThrift;
    if vs != [] {
      PointerIs(t, g, r, vs[0]);
      RecordsAre(t, g, r, vs[1..]);
    }
  }

  lemma {:induction false} EntriesAre(es: seq<(Bytes, int)>)
    requires forall i :: 0 <= i < |es| ==> |es[i].0| < TWO_TO_THE_31
    ensures PutEntries(es) == Skip.PutPairs(AsPairs(es)) && Skip.CountPairs(AsPairs(es)) == |es|
    ensures Skip.WellFormedPairs(AsPairs(es), 11, 8)
    decreases es
  {
    if es != [] {
      EntriesAre(es[1..]);
      NumbersAre(es[0].1);
    }
  }

  /** The layout of what the protocol puts in front of values. */
  lemma Layout(ttype: byte, elem: byte, id: int, n: nat, s: Bytes)
    ensures PutField(ttype, id) == [ttype] + Digits(id, 2)
    ensures PutString(s) == Digits(|s|, 4) + s
    ensures PutList(elem, n) == [elem] + Digits(n, 4)
    ensures PutMap(ttype, elem, n) == [ttype, elem] + Digits(n, 4)
  {
    hide BigEndian, Pow256;
    NumbersAre(n);
    NumbersAre(|s|);
    ShortIs(id);
  }

  lemma ShortIs(id: int)
    ensures PutI16(id) == Digits(id, 2)
  {
    Pow256Values();
    var u := id % Pow256(2);
    DigitsAre(u, 2);
    Same(u, Pow256(2));
    assert Digits(u, 2) == Digits(id, 2);
  }

  /** The encoding of a record whose fields hold values of their Go types is that of a struct of
      the protocol: field by field the number of the wire type of the Go type, the id, and the
      value in that type, and at the end a zero.  It can be skipped as a whole. */
  lemma EncodingIsStruct(r: string, v: Val, rest: Bytes)
    requires GoRecord(GoTypes, r, v)
    ensures PutRecord(AST, r, v) == Skip.Put(AsRecord(GoTypes, r, v)) && PutRecord(AST, r, Nil) == [0]
    ensures PutRecord(AST, r, v)[|PutRecord(AST, r, v)| - 1] == 0
    ensures Skip.SkipValue(PutRecord(AST, r, v) + rest, 12) == Got((), |PutRecord(AST, r, v)|)
  {
    hide GoRecord, AsRecord, Skip.SkipValue, Skip.Put, Skip.WellFormed, PutRange, AST, GoTypes;
    AstFollows();
    RecordIs(AST, GoTypes, r, v);
    Skip.SkipsValue(AsRecord(GoTypes, r, v), rest);
    RecordType(GoTypes, r, v);
    LastIsStop(AST, r, v);
  }

  lemma RecordType(g: Declarations, r: string, v: Val)
    ensures Skip.TypeOf(AsRecord(g, r, v)) == 12
  {
  }

  lemma LastIsStop(t: Table, r: string, v: Val)
    ensures PutRecord(t, r, Nil) == [0]
    ensures PutRecord(t, r, v) != [] && PutRecord(t, r, v)[|PutRecord(t, r, v)| - 1] == 0
  {
    hide PutRange;
  }
}
