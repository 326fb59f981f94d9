/** The field lists of the eighteen record types of parser/k-AST.go, in the order in
    which BLength, FastAppend and FastRead go through them. */
module AstTable {
  import opened Wire
  import opened Codec
  import opened AstRecords

  function Str1(name: string, id: nat): FieldSpec { FieldSpec(name, id, KString, Always, Str([])) }
  function Bool1(name: string, id: nat): FieldSpec { FieldSpec(name, id, KBool, Always, Bool(false)) }
  function Int1(name: string, id: nat, k: Kind): FieldSpec { FieldSpec(name, id, k, Always, Int(0)) }
  function Many(name: string, id: nat, rec: string): FieldSpec { FieldSpec(name, id, KStructs(rec), Always, Nil) }
  function Opt(name: string, id: nat, k: Kind): FieldSpec { FieldSpec(name, id, k, IfSet, Nil) }
  function Notes(id: nat): FieldSpec { Many("Annotations", id, "Annotation") }
  function Comments(id: nat): FieldSpec { Str1("ReservedComments", id) }

  const REFERENCE: seq<FieldSpec> := [Str1("Name", 1), Int1("Index", 2, KI32)]

  const ANNOTATION: seq<FieldSpec> := [Str1("Key", 1), FieldSpec("Values", 2, KStrings, Always, Nil)]

  const TYPE: seq<FieldSpec> := [
    Str1("Name", 1), Opt("KeyType", 2, KStruct("Type")), Opt("ValueType", 3, KStruct("Type")),
    Str1("CppType", 4), Notes(5), Int1("Category", 6, KEnum),
    Opt("Reference", 7, KStruct("Reference")), Opt("IsTypedef", 8, KBool)]

  const NAMESPACE: seq<FieldSpec> := [Str1("Language", 1), Str1("Name", 2), Notes(3)]

  const TYPEDEF: seq<FieldSpec> := [Opt("Type", 1, KStruct("Type")), Str1("Alias", 2), Notes(3), Comments(4)]

  const ENUM_VALUE: seq<FieldSpec> := [Str1("Name", 1), Int1("Value", 2, KI64), Notes(3), Comments(4)]

  const ENUM: seq<FieldSpec> := [Str1("Name", 1), Many("Values", 2, "EnumValue"), Notes(3), Comments(4)]

  // NewConstValueExtra starts Index at -1
  const CONST_VALUE_EXTRA: seq<FieldSpec> := [
    Bool1("IsEnum", 1), FieldSpec("Index", 2, KI32, Always, Int(-1)), Str1("Name", 3), Str1("Sel", 4)]

  const CONST_VALUE: seq<FieldSpec> := [
    Int1("Type", 1, KEnum), Opt("TypedValue", 2, KStruct("ConstTypedValue")),
    Opt("Extra", 3, KStruct("ConstValueExtra"))]

  const MAP_CONST_VALUE: seq<FieldSpec> := [Opt("Key", 1, KStruct("ConstValue")), Opt("Value", 2, KStruct("ConstValue"))]

  const CONST_TYPED_VALUE: seq<FieldSpec> := [
    Opt("Double", 1, KDouble), Opt("Int", 2, KI64), Opt("Literal", 3, KString), Opt("Identifier", 4, KString),
    Opt("List", 5, KStructs("ConstValue")), Opt("Map", 6, KStructs("MapConstValue"))]

  const CONSTANT: seq<FieldSpec> := [
    Str1("Name", 1), Opt("Type", 2, KStruct("Type")), Opt("Value", 3, KStruct("ConstValue")), Notes(4), Comments(5)]

  // Type is written even when it is nil
  const FIELD: seq<FieldSpec> := [
    Int1("ID", 1, KI32), Str1("Name", 2), Int1("Requiredness", 3, KEnum),
    FieldSpec("Type", 4, KStruct("Type"), Always, Nil), Opt("Default", 5, KStruct("ConstValue")),
    Notes(6), Comments(7)]

  // Expandable is declared in the Go struct, but the codec leaves it out
  const STRUCT_LIKE: seq<FieldSpec> := [
    Str1("Category", 1), Str1("Name", 2), Many("Fields", 3, "Field"), Notes(4), Comments(5),
    FieldSpec("Expandable", 6, KBool, Never, Nil)]

  const FUNCTION: seq<FieldSpec> := [
    Str1("Name", 1), Bool1("Oneway", 2), Bool1("Void", 3), Opt("FunctionType", 4, KStruct("Type")),
    Many("Arguments", 5, "Field"), Many("Throws", 6, "Field"), Notes(7), Comments(8)]

  const SERVICE: seq<FieldSpec> := [
    Str1("Name", 1), Str1("Extends", 2), Many("Functions", 3, "Function"), Notes(4),
    Opt("Reference", 5, KStruct("Reference")), Comments(6)]

  const INCLUDE: seq<FieldSpec> := [Str1("Path", 1), Opt("Reference", 2, KStruct("Thrift")), Opt("Used", 3, KBool)]

  const THRIFT: seq<FieldSpec> := [
    Str1("Filename", 1), Many("Includes", 2, "Include"), FieldSpec("CppIncludes", 3, KStrings, Always, Nil),
    Many("Namespaces", 4, "Namespace"), Many("Typedefs", 5, "Typedef"), Many("Constants", 6, "Constant"),
    Many("Enums", 7, "Enum"), Many("Structs", 8, "StructLike"), Many("Unions", 9, "StructLike"),
    Many("Exceptions", 10, "StructLike"), Many("Services", 11, "Service"),
    FieldSpec("Name2Category", 12, KEnumMap, Always, Nil)]

  const AST: Table := map[
    "Reference" := REFERENCE, "Annotation" := ANNOTATION, "Type" := TYPE, "Namespace" := NAMESPACE,
    "Typedef" := TYPEDEF, "EnumValue" := ENUM_VALUE, "Enum" := ENUM, "ConstValueExtra" := CONST_VALUE_EXTRA,
    "ConstValue" := CONST_VALUE, "MapConstValue" := MAP_CONST_VALUE, "ConstTypedValue" := CONST_TYPED_VALUE,
    "Constant" := CONSTANT, "Field" := FIELD, "StructLike" := STRUCT_LIKE, "Function" := FUNCTION,
    "Service" := SERVICE, "Include" := INCLUDE, "Thrift" := THRIFT]

  /** Every field list numbers its fields from 1, and starts its fields with values of their kinds. */
  predicate Numbered(specs: seq<FieldSpec>) {
    forall i :: 0 <= i < |specs| ==>
      specs[i].id == i + 1 && InitialFits(specs[i].kind, specs[i].initial) &&
      (specs[i].need == IfSet ==> specs[i].initial == Nil)
  }

  lemma AllNumbered(r: string)
    requires r in AST
    ensures Numbered(AST[r])
  {
    hide Numbered;
    NumberedTypes();
    NumberedDefinitions();
    NumberedFiles();
  }

  lemma NumberedTypes()
    ensures Numbered(REFERENCE) && Numbered(ANNOTATION) && Numbered(TYPE) && Numbered(NAMESPACE) && Numbered(TYPEDEF)
    ensures Numbered(ENUM_VALUE) && Numbered(ENUM) && Numbered(CONST_VALUE_EXTRA) && Numbered(CONST_VALUE)
  {
  }

  lemma NumberedDefinitions()
    ensures Numbered(MAP_CONST_VALUE) && Numbered(CONST_TYPED_VALUE) && Numbered(CONSTANT) && Numbered(FIELD)
    ensures Numbered(STRUCT_LIKE) && Numbered(FUNCTION)
  {
  }

  lemma NumberedFiles()
    ensures Numbered(SERVICE) && Numbered(INCLUDE) && Numbered(THRIFT)
  {
  }

  lemma AstIsWellFormed()
    ensures WellFormedTable(AST) && InitialsFit(AST)
  {
    forall r | r in AST ensures WellFormedSpecs(AST[r]) {
      AllNumbered(r);
    }
    forall r, i | r in AST && 0 <= i < |AST[r]| ensures InitialFits(AST[r][i].kind, AST[r][i].initial) {
      AllNumbered(r);
    }
  }

  /** The round trip of the whole AST: any file value, with everything below it. */
  lemma AstRoundTrip(r: string, v: Val, rest: Bytes)
    requires r in AST && FitsRecord(AST, r, v)
    ensures ReadRecord(AST, r, PutRecord(AST, r, v) + rest, New(AST, r))
            == Got(NormRecord(AST, r, v).fields, |PutRecord(AST, r, v)|)
  {
    AstIsWellFormed();
    ReadsRecord(AST, r, v, rest);
  }
}
