/** Whole Thrift texts: the words of a document are read back as that document, however they are
    laid out. */
module ThriftDocuments {
  import opened Wrappers
  import opened TokenTree
  import opened PegParser
  import opened PegBound
  import opened PegRules
  import opened ThriftGrammar
  import opened ThriftShapes
  import opened ThriftBlanks
  import opened ThriftLexemes
  import opened ThriftPages
  import opened ThriftTexts
  import opened ThriftFields

  datatype EnumItem = EnumItem(name: string, number: Integer, notes: Notes, sep: string)

  /** Without a result the function is void. */
  datatype Function = Function(oneway: bool, result: Option<Type>, name: string, args: seq<Field>, throws: Option<seq<Field>>,
                                 notes: Notes, sep: string)

  /** Structs, unions and exceptions are of kind 0, 1 and 2. */
  datatype Body =
    | Constant(typ: Type, name: string, value: Value, sep: string)
    | Alias(typ: Type, name: string)
    | Enumeration(name: string, items: seq<EnumItem>)
    | Service(name: string, base: Option<string>, functions: seq<Function>)
    | Record(kind: nat, name: string, fields: seq<Field>)

  datatype Definition = Definition(body: Body, notes: Notes)

  datatype Header =
    | Include(quote: char, path: string)
    | CppInclude(quote: char, path: string)
    | Namespace(scope: string, name: string, notes: Notes)

  datatype Document = Document(headers: seq<Header>, definitions: seq<Definition>)

  // ----- what can be written -----

  predicate FineEnumItem(e: EnumItem) {
    IsName(e.name) && FineInteger(e.number) && FineNotes(e.notes) && IsSeparator(e.sep)
  }

  predicate FineFunction(f: Function) {
    && (f.result.Some? ==> FineType(f.result.value)) && GoodName(f.name) && FineFields(f.args)
    && (f.throws.Some? ==> FineFields(f.throws.value)) && FineNotes(f.notes) && IsSeparator(f.sep)
  }

  predicate FineEnumItems(es: seq<EnumItem>) {
    forall i :: 0 <= i < |es| ==> FineEnumItem(es[i])
  }

  predicate FineFunctions(fs: seq<Function>) {
    forall i :: 0 <= i < |fs| ==> FineFunction(fs[i])
  }

  predicate FineDefinition(d: Definition) {
    FineBody(d.body) && FineNotes(d.notes)
  }

  predicate FineBody(d: Body) {
    match d
    case Constant(t, name, v, sep) => FineType(t) && GoodName(name) && FineValue(v) && IsSeparator(sep)
    case Alias(t, name) => FineType(t) && GoodName(name)
    case Enumeration(name, items) => IsName(name) && FineEnumItems(items)
    case Service(name, base, fs) =>
      IsName(name) && (base.Some? ==> IsName(base.value)) && FineFunctions(fs)
    case Record(kind, name, fields) => kind < 3 && IsName(name) && FineFields(fields)
  }

  predicate FineHeader(h: Header) {
    match h
    case Include(c, s) => IsQuote(c) && Quotable(c, s)
    case CppInclude(c, s) => IsQuote(c) && Quotable(c, s)
    case Namespace(scope, name, notes) => (scope == "*" || IsName(scope)) && IsName(name) && FineNotes(notes)
  }

  predicate FineDefinitions(ds: seq<Definition>) {
    forall i :: 0 <= i < |ds| ==> FineDefinition(ds[i])
  }

  predicate FineHeaders(hs: seq<Header>) {
    forall i :: 0 <= i < |hs| ==> FineHeader(hs[i])
  }

  predicate FineDocument(d: Document) {
    FineHeaders(d.headers) && FineDefinitions(d.definitions)
  }

  // ----- words -----

  function NumberWords(n: Integer): seq<string> {
    if n.NoInteger? then [] else ["=", n.digits]
  }

  function EnumItemWords(e: EnumItem): seq<string> {
    [e.name] + (NumberWords(e.number) + (NotesWords(e.notes) + SeparatorWords(e.sep)))
  }

  function EnumItemsWords(es: seq<EnumItem>): seq<string> {
    if es == [] then [] else EnumItemWords(es[0]) + EnumItemsWords(es[1..])
  }

  function OnewayWords(oneway: bool): seq<string> {
    if oneway then ["oneway"] else []
  }

  function ResultWords(t: Option<Type>): seq<string> {
    if t.None? then ["void"] else TypeWords(t.value)
  }

  function ThrowsWords(fs: Option<seq<Field>>): seq<string> {
    if fs.None? then [] else ["throws", "("] + (FieldsWords(fs.value) + [")"])
  }

  function FunctionWords(f: Function): seq<string> {
    OnewayWords(f.oneway) + (ResultWords(f.result) + ([f.name, "("] + (FieldsWords(f.args)
      + ([")"] + (ThrowsWords(f.throws) + (NotesWords(f.notes) + SeparatorWords(f.sep)))))))
  }

  function FunctionsWords(fs: seq<Function>): seq<string> {
    if fs == [] then [] else FunctionWords(fs[0]) + FunctionsWords(fs[1..])
  }

  function BaseWords(base: Option<string>): seq<string> {
    if base.None? then [] else ["extends", base.value]
  }

  function KindWord(kind: nat): string {
    if kind == 0 then "struct" else if kind == 1 then "union" else "exception"
  }

  function DefinitionWords(d: Definition): (ws: seq<string>)
    ensures ws != []
  {
    BodyWords(d.body) + NotesWords(d.notes)
  }

  function BodyWords(d: Body): (ws: seq<string>)
    ensures ws != []
  {
    match d
    case Constant(t, name, v, sep) => ["const"] + (TypeWords(t) + ([name, "="] + (ValueWords(v) + SeparatorWords(sep))))
    case Alias(t, name) => ["typedef"] + (TypeWords(t) + [name])
    case Enumeration(name, items) => ["enum", name, "{"] + (EnumItemsWords(items) + ["}"])
    case Service(name, base, fs) => ["service", name] + (BaseWords(base) + (["{"] + (FunctionsWords(fs) + ["}"])))
    case Record(kind, name, fields) => [KindWord(kind), name, "{"] + (FieldsWords(fields) + ["}"])
  }

  function DefinitionsWords(ds: seq<Definition>): seq<string> {
    if ds == [] then [] else DefinitionWords(ds[0]) + DefinitionsWords(ds[1..])
  }

  function HeaderWords(h: Header): (ws: seq<string>)
    ensures ws != []
  {
    match h
    case Include(c, s) => ["include", [c] + (Escaped(c, s) + [c])]
    case CppInclude(c, s) => ["cpp_include", [c] + (Escaped(c, s) + [c])]
    case Namespace(scope, name, notes) => ["namespace", scope, name] + NotesWords(notes)
  }

  function HeadersWords(hs: seq<Header>): seq<string> {
    if hs == [] then [] else HeaderWords(hs[0]) + HeadersWords(hs[1..])
  }

  function DocumentWords(d: Document): seq<string> {
    HeadersWords(d.headers) + DefinitionsWords(d.definitions)
  }

  // ----- the trees that are expected -----

  function NumberShape(n: Integer): seq<Shape> {
    if n.NoInteger? then [] else Sym(EQUAL) + IntegerShape(n)
  }

  /** The values of an enum stand in the enum itself, without a rule of their own. */
  function EnumItemShape(e: EnumItem): seq<Shape> {
    Flat([[], [NameShape(e.name)], NumberShape(e.number), NotesShape(e.notes), SeparatorShape(e.sep), [], []])
  }

  function EnumItemShapes(es: seq<EnumItem>): seq<Shape> {
    if es == [] then [] else EnumItemShape(es[0]) + EnumItemShapes(es[1..])
  }

  function OnewayShape(oneway: bool): seq<Shape> {
    if oneway then Sym(WORD_ONEWAY) else []
  }

  function ResultShape(t: Option<Type>): Shape {
    Branch(FUNCTION_TYPE, if t.None? then Sym(WORD_VOID) else [TypeShape(t.value)])
  }

  function ThrowsShape(fs: Option<seq<Field>>): seq<Shape> {
    if fs.None? then [] else [Branch(THROWS, Flat([Sym(WORD_THROWS), Sym(LPAR), FieldShapes(fs.value), Sym(RPAR)]))]
  }

  function FunctionShape(f: Function): Shape {
    Branch(FUNCTION, Flat([[], [], OnewayShape(f.oneway), [ResultShape(f.result)], [NameShape(f.name)], Sym(LPAR),
                           FieldShapes(f.args), Sym(RPAR), ThrowsShape(f.throws), NotesShape(f.notes), SeparatorShape(f.sep), []]))
  }

  function FunctionShapes(fs: seq<Function>): seq<Shape> {
    if fs == [] then [] else [FunctionShape(fs[0])] + FunctionShapes(fs[1..])
  }

  function BaseShape(base: Option<string>): seq<Shape> {
    if base.None? then [] else Sym(WORD_EXTENDS) + [NameShape(base.value)]
  }

  function KindKey(kind: nat): nat {
    if kind == 0 then WORD_STRUCT else if kind == 1 then WORD_UNION else WORD_EXCEPTION
  }

  function BodyShape(d: Body): Shape {
    match d
    case Constant(t, name, v, sep) =>
      Branch(CONST, Flat([Sym(WORD_CONST), [TypeShape(t)], [NameShape(name)], Sym(EQUAL), [ValueShape(v)], SeparatorShape(sep)]))
    case Alias(t, name) => Branch(TYPEDEF, Flat([Sym(WORD_TYPEDEF), [TypeShape(t)], [NameShape(name)]]))
    case Enumeration(name, items) =>
      Branch(ENUM, Flat([Sym(WORD_ENUM), [NameShape(name)], Sym(LWING), EnumItemShapes(items), Sym(RWING)]))
    case Service(name, base, fs) =>
      Branch(SERVICE, Flat([Sym(WORD_SERVICE), [NameShape(name)], BaseShape(base), Sym(LWING), FunctionShapes(fs), Sym(RWING)]))
    case Record(kind, name, fields) =>
      Branch(STRUCT + kind, Flat([Sym(KindKey(kind)), [NameShape(name)], Sym(LWING), FieldShapes(fields), Sym(RWING)]))
  }

  function DefinitionShape(d: Definition): Shape {
    Branch(DEFINITION, Flat([[], [], [BodyShape(d.body)], NotesShape(d.notes), []]))
  }

  function DefinitionShapes(ds: seq<Definition>): seq<Shape> {
    if ds == [] then [] else [DefinitionShape(ds[0])] + DefinitionShapes(ds[1..])
  }

  function ScopeShape(scope: string): Shape {
    Branch(NAMESPACE_SCOPE, if scope == "*" then [Leaf(Codes("*"))] else [NameShape(scope)])
  }

  function HeadShape(h: Header): Shape {
    match h
    case Include(c, s) => Branch(INCLUDE, Flat([Sym(WORD_INCLUDE), [QuoteShape(s)]]))
    case CppInclude(c, s) => Branch(CPP_INCLUDE, Flat([Sym(WORD_CPPINCLUDE), [QuoteShape(s)]]))
    case Namespace(scope, name, notes) =>
      Branch(NAMESPACE, Flat([Sym(WORD_NAMESPACE), [ScopeShape(scope)], [NameShape(name)], NotesShape(notes)]))
  }

  function HeaderShape(h: Header): Shape {
    Branch(HEADER, Flat([[], [HeadShape(h)], []]))
  }

  function HeaderShapes(hs: seq<Header>): seq<Shape> {
    if hs == [] then [] else [HeaderShape(hs[0])] + HeaderShapes(hs[1..])
  }

  function DocumentShape(d: Document): Shape {
    Branch(DOCUMENT, Flat([HeaderShapes(d.headers), DefinitionShapes(d.definitions), [], []]))
  }

  // ----- which words begin what -----

  lemma MoreKeyWords()
    ensures WORDS[WORD_CONST - WORD_BOOL] == "const" && WORDS[WORD_TYPEDEF - WORD_BOOL] == "typedef"
    ensures WORDS[WORD_ENUM - WORD_BOOL] == "enum" && WORDS[WORD_SERVICE - WORD_BOOL] == "service"
    ensures WORDS[WORD_STRUCT - WORD_BOOL] == "struct" && WORDS[WORD_UNION - WORD_BOOL] == "union"
    ensures WORDS[WORD_EXCEPTION - WORD_BOOL] == "exception" && WORDS[WORD_EXTENDS - WORD_BOOL] == "extends"
    ensures WORDS[WORD_INCLUDE - WORD_BOOL] == "include" && WORDS[WORD_CPPINCLUDE - WORD_BOOL] == "cpp_include"
    ensures WORDS[WORD_NAMESPACE - WORD_BOOL] == "namespace" && WORDS[WORD_ONEWAY - WORD_BOOL] == "oneway"
    ensures WORDS[WORD_VOID - WORD_BOOL] == "void" && WORDS[WORD_THROWS - WORD_BOOL] == "throws"
    ensures SYMBOLS[RPAR - LBRK] == ')' && SYMBOLS[EQUAL - LBRK] == '='
  {
  }

  /** The word that begins a definition or a header of a rule. */
  function KeyOf(rule: nat): nat {
    if rule == INCLUDE then WORD_INCLUDE
    else if rule == CPP_INCLUDE then WORD_CPPINCLUDE
    else if rule == NAMESPACE then WORD_NAMESPACE
    else if rule == CONST then WORD_CONST
    else if rule == TYPEDEF then WORD_TYPEDEF
    else if rule == ENUM then WORD_ENUM
    else if rule == SERVICE then WORD_SERVICE
    else KindKey(if rule == STRUCT then 0 else if rule == UNION then 1 else 2)
  }

  predicate BeginsWithKey(rule: nat) {
    INCLUDE <= rule <= NAMESPACE || CONST <= rule <= EXCEPTION
  }

  function RestOf(rule: nat): seq<Expr> {
    if rule == INCLUDE || rule == CPP_INCLUDE then [Call(LITERAL)]
    else if rule == NAMESPACE then [Call(NAMESPACE_SCOPE), Call(IDENTIFIER), Opt(Call(ANNOTATIONS))]
    else if rule == CONST then [Call(FIELD_TYPE), Call(IDENTIFIER), Call(EQUAL), Call(CONST_VALUE), Opt(Call(LIST_SEPARATOR))]
    else if rule == TYPEDEF then [Call(FIELD_TYPE), Call(IDENTIFIER)]
    else if rule == ENUM then [Call(IDENTIFIER), Call(LWING), Star(EnumValue()), Call(RWING)]
    else if rule == SERVICE then [Call(IDENTIFIER), Opt(Extends()), Call(LWING), Star(Call(FUNCTION)), Call(RWING)]
    else [Call(IDENTIFIER), Call(LWING), Star(Call(FIELD)), Call(RWING)]
  }

  function Extends(): Expr {
    Cat(Call(WORD_EXTENDS), Call(IDENTIFIER))
  }

  lemma RuleHasKey(rule: nat)
    requires BeginsWithKey(rule)
    ensures Thrift(rule) == Seq([Call(KeyOf(rule))] + RestOf(rule)) && WORD_BOOL <= KeyOf(rule) < LBRK && RestOf(rule) != []
  {
    hide Seq;
    var es := [Call(KeyOf(rule))] + RestOf(rule);
    if rule == INCLUDE || rule == CPP_INCLUDE {
      assert es == [Call(KeyOf(rule)), Call(LITERAL)];
    } else if rule == NAMESPACE {
      assert es == [Call(WORD_NAMESPACE), Call(NAMESPACE_SCOPE), Call(IDENTIFIER), Opt(Call(ANNOTATIONS))];
    } else if rule == CONST {
      assert es == [Call(WORD_CONST), Call(FIELD_TYPE), Call(IDENTIFIER), Call(EQUAL), Call(CONST_VALUE), Opt(Call(LIST_SEPARATOR))];
    } else if rule == TYPEDEF {
      assert es == [Call(WORD_TYPEDEF), Call(FIELD_TYPE), Call(IDENTIFIER)];
    } else if rule == ENUM {
      assert es == [Call(WORD_ENUM), Call(IDENTIFIER), Call(LWING), Star(EnumValue()), Call(RWING)];
    } else if rule == SERVICE {
      assert es == [Call(WORD_SERVICE), Call(IDENTIFIER), Opt(Extends()), Call(LWING), Star(Call(FUNCTION)), Call(RWING)];
    } else {
      assert es == [Call(KeyOf(rule)), Call(IDENTIFIER), Call(LWING), Star(Call(FIELD)), Call(RWING)];
    }
  }

  /** Every one of these rules begins with its word and with no other. */
  lemma KeyedDenies(g: Page, rule: nat, i: nat)
    requires BeginsWithKey(rule) && i < |g.on| && !WordIsAt(g, i, WORDS[KeyOf(rule) - WORD_BOOL])
    ensures Denies(g, Call(rule), i)
  {
    hide Denies, Reads, Thrift, Seq, WORDS, RestOf, KeyOf, WordIsAt;
    RuleHasKey(rule);
    KeyDenies(g, KeyOf(rule), i);
    SeqRuleDenies(g, rule, [Call(KeyOf(rule))] + RestOf(rule), [i], []);
  }

  /** A definition or a header with its word, and what comes behind the word. */
  lemma KeyedReads(g: Page, rule: nat, i: nat, at: seq<nat>, ss: seq<seq<Shape>>)
    requires Laid(g) && BeginsWithKey(rule) && i < |g.words| && g.words[i] == WORDS[KeyOf(rule) - WORD_BOOL]
    requires |at| == |RestOf(rule)| + 1 && |ss| == |RestOf(rule)| && at[0] == i + 1
    requires forall k {:trigger RestOf(rule)[k]} :: 0 <= k < |RestOf(rule)| ==> Reads(g, RestOf(rule)[k], at[k], at[k + 1], ss[k])
    ensures Reads(g, Call(rule), i, at[|RestOf(rule)|], [Branch(rule, Flat([Sym(KeyOf(rule))] + ss))])
  {
    hide Laid, Denies, Reads, Thrift, Seq, WORDS, RestOf, KeyOf, Flat;
    RuleHasKey(rule);
    KeyIsTaken(rule);
    KeyReads(g, KeyOf(rule), i);
    var es, rest, places, shapes := [Call(KeyOf(rule))] + RestOf(rule), RestOf(rule), [i] + at, [Sym(KeyOf(rule))] + ss;
    forall k | 0 <= k < |es|
      ensures Reads(g, es[k], places[k], places[k + 1], shapes[k])
    {
      if k > 0 {
        var e := rest[k - 1];
        assert es[k] == e && places[k] == at[k - 1] && places[k + 1] == at[k] && shapes[k] == ss[k - 1];
      }
    }
    SeqRuleReads(g, rule, es, places, shapes);
  }

  lemma KeyIsTaken(rule: nat)
    requires BeginsWithKey(rule)
    ensures KeyOf(rule) >= WORD_CONST && !IsBlank(rule) && rule != PEG_TEXT
  {
  }

  // ----- enums -----

  function Numbered(): Expr {
    Cat(Call(EQUAL), Call(INT_CONSTANT))
  }

  function EnumParts(): seq<Expr> {
    [Call(RESERVED_COMMENTS), Call(IDENTIFIER), Opt(Numbered()), Opt(Call(ANNOTATIONS)), Opt(Call(LIST_SEPARATOR)),
     Call(RESERVED_END_LINE_COMMENTS), Call(SKIP_LINE)]
  }

  lemma EnumRule()
    ensures EnumValue() == Seq(EnumParts())
  {
    hide Seq;
  }

  lemma NumberPart(g: Page, n: Integer, i: nat)
    requires 0 < i && Laid(g) && FineInteger(n) && Spelled(g, i, NumberWords(n)) && i < |g.on|
    requires n.NoInteger? ==> First(g, i) != '=' as nat
    ensures Reads(g, Opt(Numbered()), i, i + |NumberWords(n)|, NumberShape(n))
  {
    hide Reads, Denies, Laid, First, SYMBOLS, WORDS;
    MoreKeyWords();
    if n.NoInteger? {
      SymbolDenies(g, EQUAL, i);
      CatDenies(g, Call(EQUAL), Call(INT_CONSTANT), i);
      OptPasses(g, Numbered(), i);
    } else {
      SpelledAt(g, i, NumberWords(n), 0);
      SpelledAt(g, i, NumberWords(n), 1);
      SymbolReads(g, EQUAL, i);
      IntegerReads(g, i + 1);
      CatReads(g, Call(EQUAL), Call(INT_CONSTANT), i, i + 1, i + 2, Sym(EQUAL), IntegerShape(n));
      OptReads(g, Numbered(), i, i + 2, NumberShape(n));
    }
  }

  lemma EnumItemSpelled(g: Page, e: EnumItem, i: nat)
    requires Laid(g) && Spelled(g, i, EnumItemWords(e))
    ensures var d := i + 1 + |NumberWords(e.number)|; var s := d + |NotesWords(e.notes)|;
            && i < |g.words| && g.words[i] == e.name && Spelled(g, i + 1, NumberWords(e.number)) && Spelled(g, d, NotesWords(e.notes))
            && Spelled(g, s, SeparatorWords(e.sep)) && i + |EnumItemWords(e)| == s + |SeparatorWords(e.sep)| < |g.on|
  {
    hide Laid, Spelled, NumberWords, NotesWords, SeparatorWords;
    SpelledParts(g, i, [e.name], NumberWords(e.number) + (NotesWords(e.notes) + SeparatorWords(e.sep)));
    SpelledParts(g, i + 1, NumberWords(e.number), NotesWords(e.notes) + SeparatorWords(e.sep));
    SpelledParts(g, i + 1 + |NumberWords(e.number)|, NotesWords(e.notes), SeparatorWords(e.sep));
    SpelledAt(g, i, [e.name], 0);
    SpelledFits(g, i, EnumItemWords(e));
  }

  lemma NumberFirst(g: Page, n: Integer, i: nat)
    requires Spelled(g, i, NumberWords(n)) && First(g, i + |NumberWords(n)|) != '=' as nat
    ensures n.NoInteger? ==> First(g, i) != '=' as nat
  {
  }

  lemma EnumItemReads(g: Page, e: EnumItem, i: nat)
    requires 0 < i && Laid(g) && FineEnumItem(e) && Spelled(g, i, EnumItemWords(e)) && Calm(First(g, i + |EnumItemWords(e)|))
    ensures Reads(g, EnumValue(), i, i + |EnumItemWords(e)|, EnumItemShape(e))
  {
    hide Reads, Laid, First, Spelled, EnumItemWords, NumberWords, NotesWords, SeparatorWords, NumberShape, NotesShape, SeparatorShape,
         NameShape, IsName, FineInteger, FineNotes, Seq, Flat, Numbered;
    EnumItemSpelled(g, e, i);
    var d := i + 1 + |NumberWords(e.number)|;
    var s := d + |NotesWords(e.notes)|;
    var end := s + |SeparatorWords(e.sep)|;
    NameReads(g, i);
    NotesEnd(g, e.notes, e.sep, d);
    NumberFirst(g, e.number, i + 1);
    NumberPart(g, e.number, i + 1);
    SkipReads(g, i);
    SkipReads(g, end);
    EnumRule();
    SeqReads(g, EnumParts(), [i, i, i + 1, d, s, end, end, end],
             [[], [NameShape(e.name)], NumberShape(e.number), NotesShape(e.notes), SeparatorShape(e.sep), [], []]);
  }

  lemma EnumItemsParts(g: Page, es: seq<EnumItem>, i: nat)
    requires es != [] && Spelled(g, i, EnumItemsWords(es))
    ensures Spelled(g, i, EnumItemWords(es[0])) && Spelled(g, i + |EnumItemWords(es[0])|, EnumItemsWords(es[1..]))
    ensures |EnumItemsWords(es)| == |EnumItemWords(es[0])| + |EnumItemsWords(es[1..])|
  {
    hide Spelled, EnumItemWords;
    SpelledParts(g, i, EnumItemWords(es[0]), EnumItemsWords(es[1..]));
  }

  lemma EnumItemsStart(g: Page, es: seq<EnumItem>, i: nat)
    requires Laid(g) && FineEnumItems(es) && Spelled(g, i, EnumItemsWords(es)) && Calm(First(g, i + |EnumItemsWords(es)|))
    ensures Calm(First(g, i))
  {
    hide Laid, First, Spelled, EnumItemWords;
    if es != [] {
      assert FineEnumItem(es[0]);
      EnumItemsParts(g, es, i);
      EnumItemSpelled(g, es[0], i);
      FirstIs(g, i);
    }
  }

  lemma {:induction false} EnumItemsRead(g: Page, es: seq<EnumItem>, i: nat)
    requires 0 < i && Laid(g) && FineEnumItems(es) && Spelled(g, i, EnumItemsWords(es))
    requires var end := i + |EnumItemsWords(es)|; end < |g.words| && g.words[end] == "}"
    ensures Reads(g, Star(EnumValue()), i, i + |EnumItemsWords(es)|, EnumItemShapes(es))
    decreases |es|
  {
    hide Reads, Denies, Laid, First, Spelled, FineEnumItem, EnumItemWords, EnumItemShape, EnumValue, Seq;
    var end := i + |EnumItemsWords(es)|;
    FirstIs(g, end);
    if es == [] {
      WordStands(g, i);
      SkipReads(g, i);
      NameDenies(g, i);
      EnumRule();
      SeqDenies(g, EnumParts(), [i, i], [[]]);
      StarPasses(g, EnumValue(), i);
    } else {
      EnumItemsParts(g, es, i);
      var mid := i + |EnumItemWords(es[0])|;
      EnumItemsStart(g, es[1..], mid);
      EnumItemReads(g, es[0], i);
      EnumItemsRead(g, es[1..], mid);
      StarReads(g, EnumValue(), i, mid, end, EnumItemShape(es[0]), EnumItemShapes(es[1..]));
    }
  }

  // ----- functions -----

  function FunctionParts(): seq<Expr> {
    [Call(RESERVED_COMMENTS), Call(SKIP), Opt(Call(WORD_ONEWAY)), Call(FUNCTION_TYPE), Call(IDENTIFIER), Call(LPAR),
     Star(Call(FIELD)), Call(RPAR), Opt(Call(THROWS)), Opt(Call(ANNOTATIONS)), Opt(Call(LIST_SEPARATOR)), Call(SKIP_LINE)]
  }

  function Results(): seq<Expr> {
    [Call(WORD_VOID), Call(FIELD_TYPE)]
  }

  function ThrowsParts(): seq<Expr> {
    [Call(WORD_THROWS), Call(LPAR), Star(Call(FIELD)), Call(RPAR)]
  }

  lemma FunctionRules()
    ensures Thrift(FUNCTION) == Seq(FunctionParts()) && Thrift(FUNCTION_TYPE) == Alt(Results()) && Thrift(THROWS) == Seq(ThrowsParts())
  {
    hide Seq, Alt;
  }

  /** The first word of a result. */
  predicate ResultBegin(s: string) {
    IsName(s) && FreeOf(s, "oneway") && FreeOf(s, "throws")
  }

  lemma ResultBegins(t: Option<Type>)
    requires t.Some? ==> FineType(t.value)
    ensures ResultWords(t) != [] && ResultBegin(ResultWords(t)[0])
    ensures t.Some? ==> FreeOf(ResultWords(t)[0], "void")
  {
    if t.Some? {
      TypeBegins(t.value);
    } else {
      OneIsFree("void", "oneway");
      OneIsFree("void", "throws");
    }
  }

  lemma WordsOfFunctions()
    ensures IsWord("oneway") && IsWord("void") && IsWord("throws")
  {
  }

  lemma OnewayPart(g: Page, oneway: bool, i: nat)
    requires Laid(g) && Spelled(g, i, OnewayWords(oneway))
    requires !oneway ==> i < |g.words| && ResultBegin(g.words[i])
    ensures Reads(g, Opt(Call(WORD_ONEWAY)), i, i + |OnewayWords(oneway)|, OnewayShape(oneway))
  {
    hide Reads, Denies, Laid, WORDS, WordIsAt, FreeOf, IsWord;
    MoreKeyWords();
    if oneway {
      SpelledAt(g, i, ["oneway"], 0);
      KeyReads(g, WORD_ONEWAY, i);
      OptReads(g, Call(WORD_ONEWAY), i, i + 1, Sym(WORD_ONEWAY));
    } else {
      WordsOfFunctions();
      WordStands(g, i);
      OtherWord(g, i, "oneway");
      KeyDenies(g, WORD_ONEWAY, i);
      OptPasses(g, Call(WORD_ONEWAY), i);
    }
  }

  lemma NotVoid(g: Page, i: nat)
    requires Laid(g) && i < |g.words| && IsName(g.words[i]) && FreeOf(g.words[i], "void")
    ensures Denies(g, Call(WORD_VOID), i)
  {
    hide Denies, Laid, WORDS, WordIsAt, FreeOf, IsWord;
    MoreKeyWords();
    WordsOfFunctions();
    WordStands(g, i);
    OtherWord(g, i, "void");
    KeyDenies(g, WORD_VOID, i);
  }

  lemma ResultReads(g: Page, t: Option<Type>, i: nat)
    requires 0 < i && Laid(g) && (t.Some? ==> FineType(t.value)) && Spelled(g, i, ResultWords(t)) && BehindType(g, i + |ResultWords(t)|)
    ensures Reads(g, Call(FUNCTION_TYPE), i, i + |ResultWords(t)|, [ResultShape(t)])
  {
    hide Reads, Denies, Laid, WORDS, FreeOf, IsName, Alt, Seq, Thrift, FineType, TypeWords, TypeShape, BehindType, FunctionParts, ThrowsParts,
         Spelled;
    FunctionRules();
    if t.None? {
      MoreKeyWords();
      SpelledAt(g, i, ResultWords(t), 0);
      KeyReads(g, WORD_VOID, i);
      AltRuleReads(g, FUNCTION_TYPE, Results(), 0, i, i + 1, Sym(WORD_VOID));
    } else {
      ResultBegins(t);
      SpelledAt(g, i, ResultWords(t), 0);
      NotVoid(g, i);
      TypeReads(g, t.value, i);
      AltRuleReads(g, FUNCTION_TYPE, Results(), 1, i, i + |ResultWords(t)|, [TypeShape(t.value)]);
    }
  }

  /** Fields in brackets. */
  lemma FieldsIn(g: Page, fs: seq<Field>, i: nat, close: string)
    requires 0 < i && Laid(g) && FineFields(fs) && Spelled(g, i, FieldsWords(fs) + [close]) && (close == ")" || close == "}")
    ensures var end := i + |FieldsWords(fs)|;
            && end < |g.words| && g.words[end] == close && end + 1 < |g.on|
            && Reads(g, Star(Call(FIELD)), i, end, FieldShapes(fs))
            && Reads(g, Call(if close == ")" then RPAR else RWING), end, end + 1, Sym(if close == ")" then RPAR else RWING))
  {
    hide Reads, Laid, Spelled, FieldsWords, FieldShapes, FineFields, SYMBOLS, WORDS;
    var end := i + |FieldsWords(fs)|;
    SpelledParts(g, i, FieldsWords(fs), [close]);
    SpelledAt(g, end, [close], 0);
    FieldsRead(g, fs, i);
    MoreKeyWords();
    KeyWords();
    SymbolReads(g, if close == ")" then RPAR else RWING, end);
    WordStands(g, end);
  }

  lemma ThrowsPart(g: Page, fs: Option<seq<Field>>, i: nat)
    requires 0 < i && Laid(g) && (fs.Some? ==> FineFields(fs.value)) && Spelled(g, i, ThrowsWords(fs)) && i < |g.on|
    requires fs.None? ==> !WordIsAt(g, i, "throws")
    ensures Reads(g, Opt(Call(THROWS)), i, i + |ThrowsWords(fs)|, ThrowsShape(fs))
  {
    hide Reads, Laid, WordIsAt, Spelled, FieldsWords, FieldShapes, FineFields, Flat;
    if fs.None? {
      NoThrows(g, i);
    } else {
      ThrowsReads(g, fs.value, i);
      OptReads(g, Call(THROWS), i, i + |ThrowsWords(fs)|, ThrowsShape(fs));
    }
  }

  lemma NoThrows(g: Page, i: nat)
    requires i < |g.on| && !WordIsAt(g, i, "throws")
    ensures Reads(g, Opt(Call(THROWS)), i, i, [])
  {
    hide Reads, Denies, WORDS, WordIsAt, Seq, Thrift, FunctionParts, Results;
    MoreKeyWords();
    FunctionRules();
    KeyDenies(g, WORD_THROWS, i);
    SeqRuleDenies(g, THROWS, ThrowsParts(), [i], []);
    OptPasses(g, Call(THROWS), i);
  }

  lemma ThrowsReads(g: Page, fs: seq<Field>, i: nat)
    requires 0 < i && Laid(g) && FineFields(fs) && Spelled(g, i, ["throws", "("] + (FieldsWords(fs) + [")"]))
    ensures Reads(g, Call(THROWS), i, i + 3 + |FieldsWords(fs)|,
                  [Branch(THROWS, Flat([Sym(WORD_THROWS), Sym(LPAR), FieldShapes(fs), Sym(RPAR)]))])
  {
    hide Reads, Laid, WORDS, SYMBOLS, Seq, Thrift, Spelled, FieldsWords, FieldShapes, FineFields, Flat;
    var end := i + 2 + |FieldsWords(fs)|;
    SpelledParts(g, i, ["throws", "("], FieldsWords(fs) + [")"]);
    SpelledAt(g, i, ["throws", "("], 0);
    SpelledAt(g, i, ["throws", "("], 1);
    FieldsIn(g, fs, i + 2, ")");
    MoreKeyWords();
    KeyWords();
    FunctionRules();
    KeyReads(g, WORD_THROWS, i);
    SymbolReads(g, LPAR, i + 1);
    SeqRuleReads(g, THROWS, ThrowsParts(), [i, i + 1, i + 2, end, end + 1], [Sym(WORD_THROWS), Sym(LPAR), FieldShapes(fs), Sym(RPAR)]);
  }

  /** Where the parts of a function are. */
  lemma FunctionSpelled(g: Page, f: Function, i: nat)
    requires Laid(g) && Spelled(g, i, FunctionWords(f))
    ensures var a := i + |OnewayWords(f.oneway)|; var b := a + |ResultWords(f.result)|; var c := b + 2 + |FieldsWords(f.args)|;
            var d := c + 1 + |ThrowsWords(f.throws)|; var e := d + |NotesWords(f.notes)|;
            && Spelled(g, i, OnewayWords(f.oneway)) && Spelled(g, a, ResultWords(f.result)) && b + 1 < |g.words|
            && g.words[b] == f.name && g.words[b + 1] == "(" && Spelled(g, b + 2, FieldsWords(f.args) + [")"])
            && Spelled(g, c + 1, ThrowsWords(f.throws)) && Spelled(g, d, NotesWords(f.notes)) && Spelled(g, e, SeparatorWords(f.sep))
            && i + |FunctionWords(f)| == e + |SeparatorWords(f.sep)| < |g.on|
  {
    hide Laid, Spelled, OnewayWords, ResultWords, FieldsWords, ThrowsWords, NotesWords, SeparatorWords;
    var d := i + |OnewayWords(f.oneway)| + |ResultWords(f.result)| + 3 + |FieldsWords(f.args)| + |ThrowsWords(f.throws)|;
    SixMore(g, i, OnewayWords(f.oneway), ResultWords(f.result), f.name, FieldsWords(f.args), ThrowsWords(f.throws),
            NotesWords(f.notes) + SeparatorWords(f.sep));
    SpelledParts(g, d, NotesWords(f.notes), SeparatorWords(f.sep));
    SpelledFits(g, i, FunctionWords(f));
  }

  lemma SixMore(g: Page, i: nat, o: seq<string>, r: seq<string>, name: string, args: seq<string>, t: seq<string>, s: seq<string>)
    requires Spelled(g, i, o + (r + ([name, "("] + (args + ([")"] + (t + s))))))
    ensures var a := i + |o|; var b := a + |r|; var c := b + 2 + |args|;
            && Spelled(g, i, o) && Spelled(g, a, r) && b + 1 < |g.words| && g.words[b] == name && g.words[b + 1] == "("
            && Spelled(g, b + 2, args + [")"]) && Spelled(g, c + 1, t) && Spelled(g, c + 1 + |t|, s)
  {
    hide Spelled;
    var rest := args + ([")"] + (t + s));
    SpelledParts(g, i, o, r + ([name, "("] + rest));
    SpelledParts(g, i + |o|, r, [name, "("] + rest);
    NameAndArgs(g, i + |o| + |r|, name, args, t, s);
  }

  lemma NameAndArgs(g: Page, b: nat, name: string, args: seq<string>, t: seq<string>, s: seq<string>)
    requires Spelled(g, b, [name, "("] + (args + ([")"] + (t + s))))
    ensures b + 1 < |g.words| && g.words[b] == name && g.words[b + 1] == "(" && Spelled(g, b + 2, args + [")"])
    ensures Spelled(g, b + 3 + |args|, t) && Spelled(g, b + 3 + |args| + |t|, s)
  {
    hide Spelled;
    SpelledParts(g, b, [name, "("], args + ([")"] + (t + s)));
    SpelledAt(g, b, [name, "("], 0);
    SpelledAt(g, b, [name, "("], 1);
    assert args + ([")"] + (t + s)) == (args + [")"]) + (t + s);
    SpelledParts(g, b + 2, args + [")"], t + s);
    SpelledParts(g, b + 3 + |args|, t, s);
  }

  /** What may follow a function. */
  predicate BehindFunction(g: Page, i: nat) {
    Calm(First(g, i)) && !WordIsAt(g, i, "throws")
  }

  /** A function whose parts are read from place to place. */
  lemma FunctionFrom(g: Page, at: seq<nat>, o: seq<Shape>, result: Shape, name: Shape, args: seq<Shape>, t: seq<Shape>, n: seq<Shape>,
                     s: seq<Shape>)
    requires |at| == 10 && at[0] < |g.on| && at[9] < |g.on| && Reads(g, Opt(Call(WORD_ONEWAY)), at[0], at[1], o)
    requires Reads(g, Call(FUNCTION_TYPE), at[1], at[2], [result]) && Reads(g, Call(IDENTIFIER), at[2], at[3], [name])
    requires Reads(g, Call(LPAR), at[3], at[4], Sym(LPAR)) && Reads(g, Star(Call(FIELD)), at[4], at[5], args)
    requires Reads(g, Call(RPAR), at[5], at[6], Sym(RPAR)) && Reads(g, Opt(Call(THROWS)), at[6], at[7], t)
    requires Reads(g, Opt(Call(ANNOTATIONS)), at[7], at[8], n) && Reads(g, Opt(Call(LIST_SEPARATOR)), at[8], at[9], s)
    ensures Reads(g, Call(FUNCTION), at[0], at[9],
                  [Branch(FUNCTION, Flat([[], [], o, [result], [name], Sym(LPAR), args, Sym(RPAR), t, n, s, []]))])
  {
    hide Reads, Seq, Thrift, Flat, Sym;
    SkipReads(g, at[0]);
    SkipReads(g, at[9]);
    FunctionRules();
    SeqRuleReads(g, FUNCTION, FunctionParts(),
                 [at[0], at[0], at[0], at[1], at[2], at[3], at[4], at[5], at[6], at[7], at[8], at[9], at[9]],
                 [[], [], o, [result], [name], Sym(LPAR), args, Sym(RPAR), t, n, s, []]);
  }

  lemma FunctionStarts(g: Page, f: Function, i: nat)
    requires Laid(g) && FineFunction(f) && Spelled(g, i, FunctionWords(f))
    ensures i < |g.on| && (!f.oneway ==> i < |g.words| && ResultBegin(g.words[i])) && BehindFunction(g, i)
  {
    hide Laid, Spelled, FineType, FineFields, FineNotes, GoodName, ResultWords, FieldsWords, ThrowsWords, NotesWords, SeparatorWords,
         FunctionWords, ResultBegin, BehindFunction;
    FunctionSpelled(g, f, i);
    ResultBegins(f.result);
    if f.oneway {
      SpelledAt(g, i, OnewayWords(f.oneway), 0);
      OnewayBegins();
    } else {
      SpelledAt(g, i, ResultWords(f.result), 0);
    }
    WordStands(g, i);
    NotBehind(g, i);
  }

  lemma OnewayBegins()
    ensures IsName("oneway") && FreeOf("oneway", "throws")
  {
    OneIsFree("oneway", "throws");
  }

  /** A function that begins is not taken for a part of the one before. */
  lemma NotBehind(g: Page, i: nat)
    requires Laid(g) && i < |g.words| && (ResultBegin(g.words[i]) || g.words[i] == "oneway")
    ensures BehindFunction(g, i)
  {
    hide Laid, First, FreeOf, WordIsAt, IsWord;
    WordsOfFunctions();
    OnewayBegins();
    FirstIs(g, i);
    OtherWord(g, i, "throws");
  }

  /** The end of a function: what is thrown, annotations and a separator, if they are there. */
  lemma FunctionEnds(g: Page, f: Function, i: nat)
    requires 0 < i && Laid(g) && FineFunction(f) && Spelled(g, i, ThrowsWords(f.throws)) && i < |g.on|
    requires var d := i + |ThrowsWords(f.throws)|; var e := d + |NotesWords(f.notes)|;
             Spelled(g, d, NotesWords(f.notes)) && Spelled(g, e, SeparatorWords(f.sep)) && BehindFunction(g, e + |SeparatorWords(f.sep)|)
    ensures var d := i + |ThrowsWords(f.throws)|; var e := d + |NotesWords(f.notes)|;
            && Reads(g, Opt(Call(THROWS)), i, d, ThrowsShape(f.throws)) && Reads(g, Opt(Call(ANNOTATIONS)), d, e, NotesShape(f.notes))
            && Reads(g, Opt(Call(LIST_SEPARATOR)), e, e + |SeparatorWords(f.sep)|, SeparatorShape(f.sep))
  {
    hide Reads, Laid, First, Spelled, FineType, FineFields, FineNotes, GoodName, SeparatorShape, ThrowsShape, NotesShape, ThrowsWords,
         NotesWords, SeparatorWords, WordIsAt, IsWord;
    var d := i + |ThrowsWords(f.throws)|;
    NotesEnd(g, f.notes, f.sep, d);
    NothingThrown(g, f, i);
    ThrowsPart(g, f.throws, i);
  }

  /** Behind a function that throws nothing the word is not there. */
  lemma NothingThrown(g: Page, f: Function, i: nat)
    requires Laid(g) && FineFunction(f) && Spelled(g, i, ThrowsWords(f.throws))
    requires var d := i + |ThrowsWords(f.throws)|; var e := d + |NotesWords(f.notes)|;
             Spelled(g, d, NotesWords(f.notes)) && Spelled(g, e, SeparatorWords(f.sep)) && BehindFunction(g, e + |SeparatorWords(f.sep)|)
    ensures f.throws.None? ==> !WordIsAt(g, i, "throws")
  {
    hide Laid, First, FineType, FineFields, FineNotes, GoodName, FieldsWords, NoteList, WordIsAt, IsWord;
    if f.throws.None? {
      WordsOfFunctions();
      NotesFirst(g, f.notes, i);
      if f.notes.Some? {
        WordStands(g, i);
        NoWord(g, i, "throws");
      } else if f.sep != "" {
        SpelledAt(g, i, [f.sep], 0);
        FirstIs(g, i);
        WordStands(g, i);
        NoWord(g, i, "throws");
      }
    }
  }

  /** The words of a function are read as that function. */
  lemma FunctionReads(g: Page, f: Function, i: nat)
    requires 0 < i && Laid(g) && FineFunction(f) && Spelled(g, i, FunctionWords(f)) && BehindFunction(g, i + |FunctionWords(f)|)
    ensures Reads(g, Call(FUNCTION), i, i + |FunctionWords(f)|, [FunctionShape(f)])
  {
    hide Reads, Laid, Spelled, FineType, FineFields, FineNotes, GoodName, OnewayWords, ResultWords, FieldsWords, ThrowsWords, NotesWords,
         SeparatorWords, FunctionWords, OnewayShape, ResultShape, FieldShapes, ThrowsShape, NotesShape, SeparatorShape, NameShape, Flat,
         BehindFunction, BehindType, WORDS, SYMBOLS, IsName, Sym;
    FunctionSpelled(g, f, i);
    var a := i + |OnewayWords(f.oneway)|;
    var b := a + |ResultWords(f.result)|;
    var c := b + 2 + |FieldsWords(f.args)|;
    var d := c + 1 + |ThrowsWords(f.throws)|;
    var e := d + |NotesWords(f.notes)|;
    FunctionStarts(g, f, i);
    OnewayPart(g, f.oneway, i);
    NameBehind(g, b);
    ResultReads(g, f.result, a);
    GoodIsName(f.name);
    NameReads(g, b);
    OpenBracket(g, b + 1);
    FieldsIn(g, f.args, b + 2, ")");
    FunctionEnds(g, f, c + 1);
    FunctionFrom(g, [i, a, b, b + 1, b + 2, c, c + 1, d, e, e + |SeparatorWords(f.sep)|], OnewayShape(f.oneway), ResultShape(f.result),
                 NameShape(f.name), FieldShapes(f.args), ThrowsShape(f.throws), NotesShape(f.notes), SeparatorShape(f.sep));
  }

  lemma OpenBracket(g: Page, i: nat)
    requires Laid(g) && i < |g.words|
    ensures g.words[i] == "(" ==> Reads(g, Call(LPAR), i, i + 1, Sym(LPAR))
    ensures g.words[i] == "{" ==> Reads(g, Call(LWING), i, i + 1, Sym(LWING))
    ensures g.words[i] == "}" ==> Reads(g, Call(RWING), i, i + 1, Sym(RWING))
    ensures g.words[i] == "=" ==> Reads(g, Call(EQUAL), i, i + 1, Sym(EQUAL))
  {
    hide Reads, Laid, SYMBOLS, WORDS;
    KeyWords();
    MoreKeyWords();
    if g.words[i] == "(" { SymbolReads(g, LPAR, i); }
    if g.words[i] == "{" { SymbolReads(g, LWING, i); }
    if g.words[i] == "}" { SymbolReads(g, RWING, i); }
    if g.words[i] == "=" { SymbolReads(g, EQUAL, i); }
  }

  lemma FunctionDenies(g: Page, i: nat)
    requires Laid(g) && i < |g.words| && g.words[i] == "}"
    ensures Denies(g, Call(FUNCTION), i) && BehindFunction(g, i)
  {
    hide Reads, Denies, Laid, First, Seq, Alt, Thrift, WORDS, WordIsAt, IsWord;
    FirstIs(g, i);
    WordStands(g, i);
    WordsOfFunctions();
    MoreKeyWords();
    NoWord(g, i, "oneway");
    NoWord(g, i, "void");
    NoWord(g, i, "throws");
    KeyDenies(g, WORD_ONEWAY, i);
    OptPasses(g, Call(WORD_ONEWAY), i);
    KeyDenies(g, WORD_VOID, i);
    TypeDenies(g, i);
    FunctionRules();
    AltRuleDenies(g, FUNCTION_TYPE, Results(), i);
    SkipReads(g, i);
    SeqRuleDenies(g, FUNCTION, FunctionParts(), [i, i, i, i], [[], [], []]);
  }

  lemma FunctionsParts(g: Page, fs: seq<Function>, i: nat)
    requires fs != [] && Spelled(g, i, FunctionsWords(fs))
    ensures Spelled(g, i, FunctionWords(fs[0])) && Spelled(g, i + |FunctionWords(fs[0])|, FunctionsWords(fs[1..]))
    ensures |FunctionsWords(fs)| == |FunctionWords(fs[0])| + |FunctionsWords(fs[1..])|
  {
    hide Spelled, FunctionWords;
    SpelledParts(g, i, FunctionWords(fs[0]), FunctionsWords(fs[1..]));
  }

  lemma FunctionsStart(g: Page, fs: seq<Function>, i: nat)
    requires Laid(g) && FineFunctions(fs) && Spelled(g, i, FunctionsWords(fs)) && BehindFunction(g, i + |FunctionsWords(fs)|)
    ensures BehindFunction(g, i)
  {
    hide Laid, Spelled, FineFunction, FunctionWords, BehindFunction;
    if fs != [] {
      FunctionsParts(g, fs, i);
      FunctionStarts(g, fs[0], i);
    }
  }

  lemma {:induction false} FunctionsRead(g: Page, fs: seq<Function>, i: nat)
    requires 0 < i && Laid(g) && FineFunctions(fs) && Spelled(g, i, FunctionsWords(fs))
    requires var end := i + |FunctionsWords(fs)|; end < |g.words| && g.words[end] == "}"
    ensures Reads(g, Star(Call(FUNCTION)), i, i + |FunctionsWords(fs)|, FunctionShapes(fs))
    decreases |fs|
  {
    hide Reads, Denies, Laid, Spelled, FineFunction, FunctionWords, FunctionShape, BehindFunction;
    FunctionDenies(g, i + |FunctionsWords(fs)|);
    if fs == [] {
      StarPasses(g, Call(FUNCTION), i);
    } else {
      FunctionsParts(g, fs, i);
      var mid := i + |FunctionWords(fs[0])|;
      FunctionsStart(g, fs[1..], mid);
      FunctionReads(g, fs[0], i);
      FunctionsRead(g, fs[1..], mid);
      StarReads(g, Call(FUNCTION), i, mid, i + |FunctionsWords(fs)|, [FunctionShape(fs[0])], FunctionShapes(fs[1..]));
    }
  }

  // ----- definitions -----

  function RuleOf(d: Body): nat {
    match d
    case Constant(_, _, _, _) => CONST
    case Alias(_, _) => TYPEDEF
    case Enumeration(_, _) => ENUM
    case Service(_, _, _) => SERVICE
    case Record(kind, _, _) => STRUCT + kind
  }

  lemma KeyWordOf(rule: nat)
    requires BeginsWithKey(rule)
    ensures WORDS[KeyOf(rule) - WORD_BOOL] ==
              if rule == INCLUDE then "include" else if rule == CPP_INCLUDE then "cpp_include" else if rule == NAMESPACE then "namespace"
              else if rule == CONST then "const" else if rule == TYPEDEF then "typedef" else if rule == ENUM then "enum"
              else if rule == SERVICE then "service" else KindWord(rule - STRUCT)
  {
    hide WORDS;
    MoreKeyWords();
  }

  lemma ConstSpelled(g: Page, i: nat, t: seq<string>, name: string, v: seq<string>, s: seq<string>)
    requires Spelled(g, i, ["const"] + (t + ([name, "="] + (v + s))))
    ensures var b := i + 1 + |t|;
            && i < |g.words| && g.words[i] == "const" && Spelled(g, i + 1, t) && b + 1 < |g.words| && g.words[b] == name
            && g.words[b + 1] == "=" && Spelled(g, b + 2, v) && Spelled(g, b + 2 + |v|, s)
  {
    hide Spelled;
    var b := i + 1 + |t|;
    SpelledParts(g, i, ["const"], t + ([name, "="] + (v + s)));
    SpelledParts(g, i + 1, t, [name, "="] + (v + s));
    SpelledParts(g, b, [name, "="], v + s);
    SpelledParts(g, b + 2, v, s);
    SpelledAt(g, i, ["const"], 0);
    SpelledAt(g, b, [name, "="], 0);
    SpelledAt(g, b, [name, "="], 1);
  }

  /** A constant whose parts are read from place to place. */
  lemma ConstFrom(g: Page, i: nat, at: seq<nat>, typ: Shape, name: Shape, v: Shape, s: seq<Shape>)
    requires Laid(g) && i < |g.words| && g.words[i] == "const" && |at| == 6 && at[0] == i + 1
    requires Reads(g, Call(FIELD_TYPE), at[0], at[1], [typ]) && Reads(g, Call(IDENTIFIER), at[1], at[2], [name])
    requires Reads(g, Call(EQUAL), at[2], at[3], Sym(EQUAL)) && Reads(g, Call(CONST_VALUE), at[3], at[4], [v])
    requires Reads(g, Opt(Call(LIST_SEPARATOR)), at[4], at[5], s)
    ensures Reads(g, Call(CONST), i, at[5], [Branch(CONST, Flat([Sym(WORD_CONST), [typ], [name], Sym(EQUAL), [v], s]))])
  {
    hide Reads, Laid, Flat, WORDS;
    KeyWordOf(CONST);
    var ss := [[typ], [name], Sym(EQUAL), [v], s];
    KeyedReads(g, CONST, i, at, ss);
    assert [Sym(WORD_CONST)] + ss == [Sym(WORD_CONST), [typ], [name], Sym(EQUAL), [v], s];
  }

  lemma ConstReads(g: Page, t: Type, name: string, v: Value, sep: string, i: nat)
    requires Laid(g) && FineType(t) && GoodName(name) && FineValue(v) && IsSeparator(sep)
    requires Spelled(g, i, ["const"] + (TypeWords(t) + ([name, "="] + (ValueWords(v) + SeparatorWords(sep)))))
    requires var c := First(g, i + 3 + |TypeWords(t)| + |ValueWords(v)| + |SeparatorWords(sep)|); c != ',' as nat && c != ';' as nat
    ensures Reads(g, Call(CONST), i, i + 3 + |TypeWords(t)| + |ValueWords(v)| + |SeparatorWords(sep)|, [BodyShape(Constant(t, name, v, sep))])
  {
    hide Reads, Laid, First, Spelled, FineType, FineValue, GoodName, TypeWords, ValueWords, SeparatorWords, TypeShape, ValueShape,
         SeparatorShape, NameShape, Flat, BehindType, IsName;
    ConstSpelled(g, i, TypeWords(t), name, ValueWords(v), SeparatorWords(sep));
    var b := i + 1 + |TypeWords(t)|;
    var e := b + 2 + |ValueWords(v)|;
    NameBehind(g, b);
    TypeReads(g, t, i + 1);
    GoodIsName(name);
    NameReads(g, b);
    OpenBracket(g, b + 1);
    ValueReads(g, v, b + 2);
    NoSeparator(sep);
    SeparatorPart(g, e, sep);
    ConstFrom(g, i, [i + 1, b, b + 1, b + 2, e, e + |SeparatorWords(sep)|], TypeShape(t), NameShape(name), ValueShape(v), SeparatorShape(sep));
  }

  lemma AliasReads(g: Page, t: Type, name: string, i: nat)
    requires Laid(g) && FineType(t) && GoodName(name) && Spelled(g, i, ["typedef"] + (TypeWords(t) + [name]))
    ensures Reads(g, Call(TYPEDEF), i, i + 2 + |TypeWords(t)|, [BodyShape(Alias(t, name))])
  {
    hide Reads, Laid, Spelled, FineType, GoodName, TypeWords, TypeShape, NameShape, Flat, BehindType, WORDS, IsName;
    var b := i + 1 + |TypeWords(t)|;
    SpelledParts(g, i, ["typedef"], TypeWords(t) + [name]);
    SpelledParts(g, i + 1, TypeWords(t), [name]);
    SpelledAt(g, i, ["typedef"], 0);
    SpelledAt(g, b, [name], 0);
    NameBehind(g, b);
    TypeReads(g, t, i + 1);
    GoodIsName(name);
    NameReads(g, b);
    KeyWordOf(TYPEDEF);
    KeyedReads(g, TYPEDEF, i, [i + 1, b, b + 1], [[TypeShape(t)], [NameShape(name)]]);
    assert [Sym(WORD_TYPEDEF)] + [[TypeShape(t)], [NameShape(name)]] == [Sym(WORD_TYPEDEF), [TypeShape(t)], [NameShape(name)]];
  }

  lemma Braced(g: Page, i: nat, key: string, name: string, inner: seq<string>)
    requires Spelled(g, i, [key, name, "{"] + (inner + ["}"]))
    ensures i + 3 + |inner| < |g.words| && g.words[i] == key && g.words[i + 1] == name && g.words[i + 2] == "{"
    ensures Spelled(g, i + 3, inner + ["}"]) && Spelled(g, i + 3, inner) && g.words[i + 3 + |inner|] == "}"
  {
    hide Spelled;
    SpelledParts(g, i, [key, name, "{"], inner + ["}"]);
    SpelledParts(g, i + 3, inner, ["}"]);
    SpelledAt(g, i, [key, name, "{"], 0);
    SpelledAt(g, i, [key, name, "{"], 1);
    SpelledAt(g, i, [key, name, "{"], 2);
    SpelledAt(g, i + 3 + |inner|, ["}"], 0);
  }

  lemma EnumReads(g: Page, name: string, items: seq<EnumItem>, i: nat)
    requires Laid(g) && IsName(name) && FineEnumItems(items) && Spelled(g, i, ["enum", name, "{"] + (EnumItemsWords(items) + ["}"]))
    ensures Reads(g, Call(ENUM), i, i + 4 + |EnumItemsWords(items)|, [BodyShape(Enumeration(name, items))])
  {
    hide Reads, Laid, Spelled, FineEnumItems, EnumItemsWords, EnumItemShapes, NameShape, Flat, WORDS, IsName, EnumValue;
    var end := i + 3 + |EnumItemsWords(items)|;
    Braced(g, i, "enum", name, EnumItemsWords(items));
    NameReads(g, i + 1);
    OpenBracket(g, i + 2);
    EnumItemsRead(g, items, i + 3);
    OpenBracket(g, end);
    KeyWordOf(ENUM);
    var ss := [[NameShape(name)], Sym(LWING), EnumItemShapes(items), Sym(RWING)];
    KeyedReads(g, ENUM, i, [i + 1, i + 2, i + 3, end, end + 1], ss);
    assert [Sym(WORD_ENUM)] + ss == [Sym(WORD_ENUM), [NameShape(name)], Sym(LWING), EnumItemShapes(items), Sym(RWING)];
  }

  lemma RecordReads(g: Page, kind: nat, name: string, fs: seq<Field>, i: nat)
    requires Laid(g) && kind < 3 && IsName(name) && FineFields(fs) && Spelled(g, i, [KindWord(kind), name, "{"] + (FieldsWords(fs) + ["}"]))
    ensures Reads(g, Call(STRUCT + kind), i, i + 4 + |FieldsWords(fs)|, [BodyShape(Record(kind, name, fs))])
  {
    hide Reads, Laid, Spelled, FineFields, FieldsWords, FieldShapes, NameShape, Flat, WORDS, IsName, KindWord, KindKey;
    var end := i + 3 + |FieldsWords(fs)|;
    Braced(g, i, KindWord(kind), name, FieldsWords(fs));
    NameReads(g, i + 1);
    OpenBracket(g, i + 2);
    FieldsIn(g, fs, i + 3, "}");
    KeyWordOf(STRUCT + kind);
    var ss := [[NameShape(name)], Sym(LWING), FieldShapes(fs), Sym(RWING)];
    KeyedReads(g, STRUCT + kind, i, [i + 1, i + 2, i + 3, end, end + 1], ss);
    assert [Sym(KindKey(kind))] + ss == [Sym(KindKey(kind)), [NameShape(name)], Sym(LWING), FieldShapes(fs), Sym(RWING)];
  }

  lemma BasePart(g: Page, base: Option<string>, i: nat)
    requires 0 < i && Laid(g) && (base.Some? ==> IsName(base.value)) && Spelled(g, i, BaseWords(base))
    requires base.None? ==> i < |g.words| && g.words[i] == "{"
    ensures Reads(g, Opt(Extends()), i, i + |BaseWords(base)|, BaseShape(base))
  {
    hide Reads, Denies, Laid, IsName, WORDS, WordIsAt;
    MoreKeyWords();
    if base.None? {
      FirstIs(g, i);
      WordStands(g, i);
      NoWord(g, i, "extends");
      KeyDenies(g, WORD_EXTENDS, i);
      CatDenies(g, Call(WORD_EXTENDS), Call(IDENTIFIER), i);
      OptPasses(g, Extends(), i);
    } else {
      SpelledAt(g, i, BaseWords(base), 0);
      SpelledAt(g, i, BaseWords(base), 1);
      KeyReads(g, WORD_EXTENDS, i);
      NameReads(g, i + 1);
      CatReads(g, Call(WORD_EXTENDS), Call(IDENTIFIER), i, i + 1, i + 2, Sym(WORD_EXTENDS), [NameShape(base.value)]);
      OptReads(g, Extends(), i, i + 2, BaseShape(base));
    }
  }

  lemma ServiceSpelled(g: Page, i: nat, name: string, base: seq<string>, inner: seq<string>)
    requires Spelled(g, i, ["service", name] + (base + (["{"] + (inner + ["}"]))))
    ensures var a := i + 2 + |base|;
            && a + 1 + |inner| < |g.words| && g.words[i] == "service" && g.words[i + 1] == name && Spelled(g, i + 2, base)
            && g.words[a] == "{" && Spelled(g, a + 1, inner) && g.words[a + 1 + |inner|] == "}"
  {
    hide Spelled;
    var a := i + 2 + |base|;
    SpelledParts(g, i, ["service", name], base + (["{"] + (inner + ["}"])));
    SpelledParts(g, i + 2, base, ["{"] + (inner + ["}"]));
    SpelledParts(g, a, ["{"], inner + ["}"]);
    SpelledParts(g, a + 1, inner, ["}"]);
    SpelledAt(g, i, ["service", name], 0);
    SpelledAt(g, i, ["service", name], 1);
    SpelledAt(g, a, ["{"], 0);
    SpelledAt(g, a + 1 + |inner|, ["}"], 0);
  }

  lemma ServiceReads(g: Page, name: string, base: Option<string>, fs: seq<Function>, i: nat)
    requires Laid(g) && IsName(name) && (base.Some? ==> IsName(base.value)) && FineFunctions(fs)
    requires Spelled(g, i, ["service", name] + (BaseWords(base) + (["{"] + (FunctionsWords(fs) + ["}"]))))
    ensures Reads(g, Call(SERVICE), i, i + 4 + |BaseWords(base)| + |FunctionsWords(fs)|, [BodyShape(Service(name, base, fs))])
  {
    hide Reads, Laid, Spelled, FineFunctions, FunctionsWords, FunctionShapes, BaseWords, BaseShape, NameShape, Flat, WORDS, IsName, Extends;
    var a := i + 2 + |BaseWords(base)|;
    var end := a + 1 + |FunctionsWords(fs)|;
    ServiceSpelled(g, i, name, BaseWords(base), FunctionsWords(fs));
    NameReads(g, i + 1);
    NoBaseWords(base);
    BasePart(g, base, i + 2);
    OpenBracket(g, a);
    FunctionsRead(g, fs, a + 1);
    OpenBracket(g, end);
    KeyWordOf(SERVICE);
    var ss := [[NameShape(name)], BaseShape(base), Sym(LWING), FunctionShapes(fs), Sym(RWING)];
    KeyedReads(g, SERVICE, i, [i + 1, i + 2, a, a + 1, end, end + 1], ss);
    assert [Sym(WORD_SERVICE)] + ss == [Sym(WORD_SERVICE), [NameShape(name)], BaseShape(base), Sym(LWING), FunctionShapes(fs), Sym(RWING)];
  }

  lemma NoBaseWords(base: Option<string>)
    ensures base.None? ==> |BaseWords(base)| == 0
  {
  }

  /** The words of a definition are read by the rule of that definition. */
  lemma BodyReads(g: Page, d: Body, i: nat)
    requires Laid(g) && FineBody(d) && Spelled(g, i, BodyWords(d))
    requires var c := First(g, i + |BodyWords(d)|); c != ',' as nat && c != ';' as nat
    ensures Reads(g, Call(RuleOf(d)), i, i + |BodyWords(d)|, [BodyShape(d)])
  {
    hide Reads, Laid, First, Spelled, FineType, FineValue, GoodName, FineEnumItems, FineFunctions, FineFields, TypeWords, ValueWords,
         SeparatorWords, EnumItemsWords, BaseWords, FunctionsWords, FieldsWords, BodyShape, IsName;
    match d
    case Constant(t, name, v, sep) => ConstReads(g, t, name, v, sep, i);
    case Alias(t, name) => AliasReads(g, t, name, i);
    case Enumeration(name, items) => EnumReads(g, name, items, i);
    case Service(name, base, fs) => ServiceReads(g, name, base, fs, i);
    case Record(kind, name, fs) => RecordReads(g, kind, name, fs, i);
  }

  lemma BodyStarts(g: Page, d: Body, i: nat)
    requires Laid(g) && FineBody(d) && Spelled(g, i, BodyWords(d))
    ensures BeginsWithKey(RuleOf(d)) && i < |g.words| && g.words[i] == WORDS[KeyOf(RuleOf(d)) - WORD_BOOL]
  {
    hide Laid, WORDS;
    KeyWordOf(RuleOf(d));
    SpelledAt(g, i, BodyWords(d), 0);
  }

  lemma DefinitionStarts(g: Page, d: Definition, i: nat)
    requires Laid(g) && FineDefinition(d) && Spelled(g, i, DefinitionWords(d))
    ensures BeginsWithKey(RuleOf(d.body)) && i < |g.words| && g.words[i] == WORDS[KeyOf(RuleOf(d.body)) - WORD_BOOL]
    ensures Spelled(g, i, BodyWords(d.body)) && Spelled(g, i + |BodyWords(d.body)|, NotesWords(d.notes))
  {
    hide Laid, WORDS, Spelled, BodyWords, NotesWords, FineBody;
    SpelledParts(g, i, BodyWords(d.body), NotesWords(d.notes));
    BodyStarts(g, d.body, i);
  }

  lemma KeysDiffer(rule: nat, other: nat)
    requires BeginsWithKey(rule) && BeginsWithKey(other) && rule != other
    ensures WORDS[KeyOf(rule) - WORD_BOOL] != WORDS[KeyOf(other) - WORD_BOOL]
  {
    hide WORDS;
    KeyWordOf(rule);
    KeyWordOf(other);
  }

  /** Where one of these words stands the other definitions and headers do not match. */
  lemma OthersDeny(g: Page, i: nat, rule: nat, other: nat)
    requires Laid(g) && i < |g.words| && BeginsWithKey(rule) && g.words[i] == WORDS[KeyOf(rule) - WORD_BOOL]
    requires BeginsWithKey(other) && other != rule
    ensures Denies(g, Call(other), i) && Calm(First(g, i))
  {
    hide Laid, Denies, First, WordIsAt, WORDS, KeyOf, FreeOf;
    WordsAreWords();
    RuleHasKey(rule);
    RuleHasKey(other);
    KeysDiffer(rule, other);
    var s, word := WORDS[KeyOf(rule) - WORD_BOOL], WORDS[KeyOf(other) - WORD_BOOL];
    OneIsFree(s, word);
    WordStands(g, i);
    FirstIs(g, i);
    OtherWord(g, i, word);
    KeyedDenies(g, other, i);
  }

  lemma NothingBegins(g: Page, rule: nat)
    requires Laid(g) && BeginsWithKey(rule)
    ensures |g.on| == |g.words| + 1 && Denies(g, Call(rule), |g.words|) && Calm(First(g, |g.words|))
  {
    hide Denies, First, WordIsAt, WORDS, KeyOf;
    LastIs(g);
    WordsAreWords();
    RuleHasKey(rule);
    var word := WORDS[KeyOf(rule) - WORD_BOOL];
    NoWord(g, |g.words|, word);
    KeyedDenies(g, rule, |g.words|);
  }

  function Bodies(): seq<Expr> {
    [Call(CONST), Call(TYPEDEF), Call(ENUM), Call(SERVICE), Call(STRUCT), Call(UNION), Call(EXCEPTION)]
  }

  function DefinitionParts(): seq<Expr> {
    [Call(RESERVED_COMMENTS), Call(SKIP), Alt(Bodies()), Opt(Call(ANNOTATIONS)), Call(SKIP_LINE)]
  }

  lemma DefinitionRule()
    ensures Thrift(DEFINITION) == Seq(DefinitionParts())
  {
    hide Seq, Alt;
  }

  lemma BodyIsAt(k: nat)
    requires k < 7
    ensures Bodies()[k] == Call(CONST + k) && |Bodies()| == 7
  {
  }

  lemma BodiesRead(g: Page, d: Body, i: nat)
    requires Laid(g) && FineBody(d) && Spelled(g, i, BodyWords(d))
    requires var c := First(g, i + |BodyWords(d)|); c != ',' as nat && c != ';' as nat
    ensures Reads(g, Alt(Bodies()), i, i + |BodyWords(d)|, [BodyShape(d)])
  {
    hide Reads, Denies, Laid, First, Spelled, FineBody, BodyWords, BodyShape, Bodies, Alt, WORDS, KeyOf;
    var end, n := i + |BodyWords(d)|, RuleOf(d) - CONST;
    BodyStarts(g, d, i);
    BodyReads(g, d, i);
    BodyIsAt(n);
    forall k | 0 <= k < n
      ensures Denies(g, Bodies()[k], i)
    {
      BodyIsAt(k);
      OthersDeny(g, i, RuleOf(d), CONST + k);
    }
    AltReads(g, Bodies(), n, i, end, [BodyShape(d)]);
  }

  lemma DefinitionReads(g: Page, d: Definition, i: nat)
    requires Laid(g) && FineDefinition(d) && Spelled(g, i, DefinitionWords(d)) && Calm(First(g, i + |DefinitionWords(d)|))
    ensures Reads(g, Call(DEFINITION), i, i + |DefinitionWords(d)|, [DefinitionShape(d)])
  {
    hide Reads, Laid, First, Spelled, FineBody, FineNotes, BodyWords, NotesWords, BodyShape, NotesShape, Flat, Bodies, Alt, Seq, Thrift, WORDS,
         KeyOf;
    var mid, end := i + |BodyWords(d.body)|, i + |DefinitionWords(d)|;
    DefinitionStarts(g, d, i);
    SpelledFits(g, i, DefinitionWords(d));
    NotesFirst(g, d.notes, mid);
    BodiesRead(g, d.body, i);
    NotesPart(g, d.notes, mid);
    SkipReads(g, i);
    SkipReads(g, end);
    DefinitionRule();
    SeqRuleReads(g, DEFINITION, DefinitionParts(), [i, i, i, mid, end, end], [[], [], [BodyShape(d.body)], NotesShape(d.notes), []]);
  }

  lemma DefinitionDenies(g: Page)
    requires Laid(g)
    ensures Denies(g, Call(DEFINITION), |g.words|)
  {
    hide Reads, Denies, Laid, Bodies, Alt, Seq, Thrift, WORDS, KeyOf;
    var i := |g.words|;
    BodyIsAt(0);
    NothingBegins(g, CONST);
    forall k | 0 <= k < 7
      ensures Denies(g, Bodies()[k], i)
    {
      BodyIsAt(k);
      NothingBegins(g, CONST + k);
    }
    AltDenies(g, Bodies(), i);
    SkipReads(g, i);
    DefinitionRule();
    SeqRuleDenies(g, DEFINITION, DefinitionParts(), [i, i, i], [[], []]);
  }

  lemma DefinitionsParts(g: Page, ds: seq<Definition>, i: nat)
    requires ds != [] && Spelled(g, i, DefinitionsWords(ds))
    ensures Spelled(g, i, DefinitionWords(ds[0])) && Spelled(g, i + |DefinitionWords(ds[0])|, DefinitionsWords(ds[1..]))
    ensures |DefinitionsWords(ds)| == |DefinitionWords(ds[0])| + |DefinitionsWords(ds[1..])|
  {
    hide Spelled, DefinitionWords;
    SpelledParts(g, i, DefinitionWords(ds[0]), DefinitionsWords(ds[1..]));
  }

  /** Definitions up to the end of the text begin with no header. */
  lemma DefinitionsStart(g: Page, ds: seq<Definition>, i: nat, rule: nat)
    requires Laid(g) && FineDefinitions(ds) && Spelled(g, i, DefinitionsWords(ds)) && i + |DefinitionsWords(ds)| == |g.words|
    requires INCLUDE <= rule <= NAMESPACE
    ensures Calm(First(g, i)) && Denies(g, Call(rule), i) && i < |g.on|
  {
    hide Laid, Denies, First, Spelled, FineDefinition, DefinitionWords, KeyOf, WORDS;
    NothingBegins(g, rule);
    if ds != [] {
      DefinitionsParts(g, ds, i);
      DefinitionStarts(g, ds[0], i);
      OthersDeny(g, i, RuleOf(ds[0].body), rule);
    }
  }

  lemma {:induction false} DefinitionsRead(g: Page, ds: seq<Definition>, i: nat)
    requires Laid(g) && FineDefinitions(ds) && Spelled(g, i, DefinitionsWords(ds)) && i + |DefinitionsWords(ds)| == |g.words|
    ensures Reads(g, Star(Call(DEFINITION)), i, |g.words|, DefinitionShapes(ds))
    decreases |ds|
  {
    hide Reads, Denies, Laid, First, Spelled, FineDefinition, DefinitionWords, DefinitionShape;
    if ds == [] {
      DefinitionDenies(g);
      StarPasses(g, Call(DEFINITION), i);
    } else {
      DefinitionsParts(g, ds, i);
      var mid := i + |DefinitionWords(ds[0])|;
      DefinitionsStart(g, ds[1..], mid, INCLUDE);
      DefinitionReads(g, ds[0], i);
      DefinitionsRead(g, ds[1..], mid);
      StarReads(g, Call(DEFINITION), i, mid, |g.words|, [DefinitionShape(ds[0])], DefinitionShapes(ds[1..]));
    }
  }

  // ----- headers -----

  function HeadRule(h: Header): nat {
    match h
    case Include(_, _) => INCLUDE
    case CppInclude(_, _) => CPP_INCLUDE
    case Namespace(_, _, _) => NAMESPACE
  }

  function Heads(): seq<Expr> {
    [Call(INCLUDE), Call(CPP_INCLUDE), Call(NAMESPACE)]
  }

  function HeaderParts(): seq<Expr> {
    [Call(SKIP), Alt(Heads()), Call(SKIP_LINE)]
  }

  function Scopes(): seq<Expr> {
    [Spaced(ThriftGrammar.Take(Char('*'))), Call(IDENTIFIER)]
  }

  lemma HeaderRules()
    ensures Thrift(HEADER) == Seq(HeaderParts()) && Thrift(NAMESPACE_SCOPE) == Alt(Scopes())
  {
    hide Seq, Alt, Spaced;
  }

  lemma ScopeStar(buffer: seq<nat>, pos: nat, on: nat, next: nat)
    requires Ready(buffer, pos, on)
    ensures 0 < on && Stands(buffer, on, "*", next) ==> Lands(buffer, Spaced(ThriftGrammar.Take(Char('*'))), pos, next, [Leaf(Codes("*"))])
    ensures buffer[on] != '*' as nat ==> Refuses(buffer, Spaced(ThriftGrammar.Take(Char('*'))), pos)
  {
    hide Gives, Refuses, Char, Spaced, Skipped, Taken;
    IsChar(buffer, '*', on);
    if buffer[on] != '*' as nat {
      TakeRefuses(buffer, Char('*'), on);
      SpacedRefuses(buffer, ThriftGrammar.Take(Char('*')), pos, on);
    }
    if 0 < on && Stands(buffer, on, "*", next) {
      assert buffer[on] == "*"[0] as nat;
      TakeGives(buffer, Char('*'), on, on + 1, []);
      TakesText(buffer, on, "*");
      SpacedLands(buffer, ThriftGrammar.Take(Char('*')), pos, on, on + 1, next, [Leaf(Codes("*"))]);
    }
  }

  lemma ScopeReads(g: Page, scope: string, i: nat)
    requires 0 < i && Laid(g) && i < |g.words| && g.words[i] == scope && (scope == "*" || IsName(scope))
    ensures Reads(g, Call(NAMESPACE_SCOPE), i, i + 1, [ScopeShape(scope)])
  {
    hide Reads, Denies, Laid, Thrift, Alt, Spaced, IsName;
    HeaderRules();
    if scope == "*" {
      StarIsRead(g, i);
      AltRuleReads(g, NAMESPACE_SCOPE, Scopes(), 0, i, i + 1, [Leaf(Codes("*"))]);
    } else {
      StarIsDenied(g, i);
      NameReads(g, i);
      AltRuleReads(g, NAMESPACE_SCOPE, Scopes(), 1, i, i + 1, [NameShape(scope)]);
    }
  }

  lemma StarIsRead(g: Page, i: nat)
    requires 0 < i && Laid(g) && i < |g.words| && g.words[i] == "*"
    ensures Reads(g, Scopes()[0], i, i + 1, [Leaf(Codes("*"))])
  {
    hide Lands, Refuses, Skipped, Laid, Spaced, Stands;
    WordStands(g, i);
    Behind(g, i);
    forall pos: nat | Ready(g.buffer, pos, g.on[i])
      ensures Lands(g.buffer, Scopes()[0], pos, g.on[i + 1], [Leaf(Codes("*"))])
    {
      ScopeStar(g.buffer, pos, g.on[i], g.on[i + 1]);
    }
  }

  lemma StarIsDenied(g: Page, i: nat)
    requires Laid(g) && i < |g.words| && IsName(g.words[i])
    ensures Denies(g, Scopes()[0], i)
  {
    hide Lands, Refuses, Skipped, Laid, Spaced, Stands;
    WordStands(g, i);
    FirstIs(g, i);
    forall pos: nat | Ready(g.buffer, pos, g.on[i])
      ensures Refuses(g.buffer, Scopes()[0], pos)
    {
      ScopeStar(g.buffer, pos, g.on[i], g.on[i + 1]);
    }
  }

  lemma HeadStarts(g: Page, h: Header, i: nat)
    requires Laid(g) && Spelled(g, i, HeaderWords(h))
    ensures BeginsWithKey(HeadRule(h)) && i < |g.words| && g.words[i] == WORDS[KeyOf(HeadRule(h)) - WORD_BOOL]
  {
    hide Laid, WORDS;
    KeyWordOf(HeadRule(h));
    SpelledAt(g, i, HeaderWords(h), 0);
  }

  lemma IncludeReads(g: Page, rule: nat, c: char, s: string, i: nat)
    requires Laid(g) && (rule == INCLUDE || rule == CPP_INCLUDE) && IsQuote(c) && Quotable(c, s)
    requires i + 1 < |g.words| && g.words[i] == WORDS[KeyOf(rule) - WORD_BOOL] && g.words[i + 1] == [c] + (Escaped(c, s) + [c])
    ensures Reads(g, Call(rule), i, i + 2, [Branch(rule, Flat([Sym(KeyOf(rule)), [QuoteShape(s)]]))])
  {
    hide Reads, Laid, Flat, WORDS, KeyOf, IsQuote, Quotable, Escaped, QuoteShape;
    QuoteReads(g, i + 1, c, s);
    var ss := [[QuoteShape(s)]];
    KeyedReads(g, rule, i, [i + 1, i + 2], ss);
    assert [Sym(KeyOf(rule))] + ss == [Sym(KeyOf(rule)), [QuoteShape(s)]];
  }

  lemma NamespaceSpelled(g: Page, i: nat, scope: string, name: string, notes: seq<string>)
    requires Laid(g) && Spelled(g, i, ["namespace", scope, name] + notes)
    ensures i + 2 < |g.words| && g.words[i] == "namespace" && g.words[i + 1] == scope && g.words[i + 2] == name
    ensures Spelled(g, i + 3, notes) && i + 3 < |g.on|
  {
    hide Laid, Spelled;
    var ws := ["namespace", scope, name];
    SpelledParts(g, i, ws, notes);
    SpelledAt(g, i, ws, 0);
    SpelledAt(g, i, ws, 1);
    SpelledAt(g, i, ws, 2);
    SpelledFits(g, i, ws);
  }

  lemma NamespaceReads(g: Page, scope: string, name: string, notes: Notes, i: nat)
    requires Laid(g) && (scope == "*" || IsName(scope)) && IsName(name) && FineNotes(notes)
    requires Spelled(g, i, ["namespace", scope, name] + NotesWords(notes)) && First(g, i + 3 + |NotesWords(notes)|) != '(' as nat
    ensures Reads(g, Call(NAMESPACE), i, i + 3 + |NotesWords(notes)|, [HeadShape(Namespace(scope, name, notes))])
  {
    hide Reads, Laid, First, Spelled, Flat, WORDS, IsName, FineNotes, NotesWords, NotesShape, NameShape, ScopeShape;
    NamespaceSpelled(g, i, scope, name, NotesWords(notes));
    ScopeReads(g, scope, i + 1);
    NameReads(g, i + 2);
    NotesFirst(g, notes, i + 3);
    NotesPart(g, notes, i + 3);
    KeyWordOf(NAMESPACE);
    var ss := [[ScopeShape(scope)], [NameShape(name)], NotesShape(notes)];
    KeyedReads(g, NAMESPACE, i, [i + 1, i + 2, i + 3, i + 3 + |NotesWords(notes)|], ss);
    assert [Sym(WORD_NAMESPACE)] + ss == [Sym(WORD_NAMESPACE), [ScopeShape(scope)], [NameShape(name)], NotesShape(notes)];
  }

  lemma HeadReads(g: Page, h: Header, i: nat)
    requires Laid(g) && FineHeader(h) && Spelled(g, i, HeaderWords(h)) && Calm(First(g, i + |HeaderWords(h)|))
    ensures Reads(g, Call(HeadRule(h)), i, i + |HeaderWords(h)|, [HeadShape(h)])
  {
    hide Reads, Laid, First, Flat, WORDS, IsName, IsQuote, Quotable, Escaped, QuoteShape, FineNotes, NotesWords, NotesShape, NameShape,
         ScopeShape;
    HeadStarts(g, h, i);
    match h
    case Include(c, s) =>
      SpelledAt(g, i, HeaderWords(h), 1);
      IncludeReads(g, INCLUDE, c, s, i);
    case CppInclude(c, s) =>
      SpelledAt(g, i, HeaderWords(h), 1);
      IncludeReads(g, CPP_INCLUDE, c, s, i);
    case Namespace(scope, name, notes) => NamespaceReads(g, scope, name, notes, i);
  }

  lemma HeaderReads(g: Page, h: Header, i: nat)
    requires Laid(g) && FineHeader(h) && Spelled(g, i, HeaderWords(h)) && Calm(First(g, i + |HeaderWords(h)|))
    ensures Reads(g, Call(HEADER), i, i + |HeaderWords(h)|, [HeaderShape(h)])
  {
    hide Reads, Denies, Laid, First, Spelled, FineHeader, HeaderWords, HeadShape, Flat, Alt, Seq, Thrift, WORDS, KeyOf;
    var end, n := i + |HeaderWords(h)|, HeadRule(h) - INCLUDE;
    HeadStarts(g, h, i);
    SpelledFits(g, i, HeaderWords(h));
    HeadReads(g, h, i);
    forall k | 0 <= k < n
      ensures Denies(g, Heads()[k], i)
    {
      OthersDeny(g, i, HeadRule(h), INCLUDE + k);
    }
    AltReads(g, Heads(), n, i, end, [HeadShape(h)]);
    SkipReads(g, i);
    SkipReads(g, end);
    HeaderRules();
    SeqRuleReads(g, HEADER, HeaderParts(), [i, i, end, end], [[], [HeadShape(h)], []]);
  }

  lemma HeadersParts(g: Page, hs: seq<Header>, i: nat, rest: seq<string>)
    requires hs != [] && Spelled(g, i, HeadersWords(hs) + rest)
    ensures Spelled(g, i, HeaderWords(hs[0])) && Spelled(g, i + |HeaderWords(hs[0])|, HeadersWords(hs[1..]) + rest)
    ensures |HeadersWords(hs)| == |HeaderWords(hs[0])| + |HeadersWords(hs[1..])|
  {
    hide Spelled, HeaderWords;
    assert HeadersWords(hs) + rest == HeaderWords(hs[0]) + (HeadersWords(hs[1..]) + rest);
    SpelledParts(g, i, HeaderWords(hs[0]), HeadersWords(hs[1..]) + rest);
  }

  /** What follows a header begins with a word of its own. */
  lemma HeadersStart(g: Page, hs: seq<Header>, ds: seq<Definition>, i: nat)
    requires Laid(g) && FineDefinitions(ds) && Spelled(g, i, HeadersWords(hs) + DefinitionsWords(ds))
    requires i + |HeadersWords(hs)| + |DefinitionsWords(ds)| == |g.words|
    ensures Calm(First(g, i))
  {
    hide Laid, Denies, First, Spelled, FineDefinitions, DefinitionsWords, KeyOf, WORDS, HeaderWords;
    if hs == [] {
      assert HeadersWords(hs) + DefinitionsWords(ds) == DefinitionsWords(ds);
      DefinitionsStart(g, ds, i, INCLUDE);
    } else {
      HeadersParts(g, hs, i, DefinitionsWords(ds));
      HeadStarts(g, hs[0], i);
      OthersDeny(g, i, HeadRule(hs[0]), CONST);
    }
  }

  lemma HeaderDenies(g: Page, ds: seq<Definition>, i: nat)
    requires Laid(g) && FineDefinitions(ds) && Spelled(g, i, DefinitionsWords(ds)) && i + |DefinitionsWords(ds)| == |g.words|
    ensures Denies(g, Call(HEADER), i)
  {
    hide Reads, Denies, Laid, First, Spelled, FineDefinitions, DefinitionsWords, Alt, Seq, Thrift;
    DefinitionsStart(g, ds, i, INCLUDE);
    DefinitionsStart(g, ds, i, CPP_INCLUDE);
    DefinitionsStart(g, ds, i, NAMESPACE);
    AltDenies(g, Heads(), i);
    SkipReads(g, i);
    HeaderRules();
    SeqRuleDenies(g, HEADER, HeaderParts(), [i, i], [[]]);
  }

  lemma {:induction false} HeadersRead(g: Page, hs: seq<Header>, ds: seq<Definition>, i: nat)
    requires Laid(g) && FineHeaders(hs) && FineDefinitions(ds) && Spelled(g, i, HeadersWords(hs) + DefinitionsWords(ds))
    requires i + |HeadersWords(hs)| + |DefinitionsWords(ds)| == |g.words|
    ensures Reads(g, Star(Call(HEADER)), i, i + |HeadersWords(hs)|, HeaderShapes(hs))
    decreases |hs|
  {
    hide Reads, Denies, Laid, First, Spelled, FineHeader, FineDefinitions, HeaderWords, DefinitionsWords, HeaderShape;
    if hs == [] {
      assert HeadersWords(hs) + DefinitionsWords(ds) == DefinitionsWords(ds);
      HeaderDenies(g, ds, i);
      StarPasses(g, Call(HEADER), i);
    } else {
      HeadersParts(g, hs, i, DefinitionsWords(ds));
      var mid := i + |HeaderWords(hs[0])|;
      HeadersStart(g, hs[1..], ds, mid);
      HeaderReads(g, hs[0], i);
      HeadersRead(g, hs[1..], ds, mid);
      StarReads(g, Call(HEADER), i, mid, i + |HeadersWords(hs)|, [HeaderShape(hs[0])], HeaderShapes(hs[1..]));
    }
  }

  // ----- documents -----

  function DocumentParts(): seq<Expr> {
    [Star(Call(HEADER)), Star(Call(DEFINITION)), Call(SKIP), Not(Dot)]
  }

  lemma DocumentRule()
    ensures Thrift(DOCUMENT) == Seq(DocumentParts())
  {
    hide Seq;
  }

  /** The words of a document are read to their end, with the tree of that document. */
  lemma DocumentGives(g: Page, d: Document)
    requires Laid(g) && FineDocument(d) && g.words == DocumentWords(d) && Ready(g.buffer, 0, g.on[0])
    ensures Gives(g.buffer, Call(DOCUMENT), 0, |g.buffer| - 1, [DocumentShape(d)])
  {
    hide Gives, Refuses, Seq, Thrift, Flat, HeadersWords, DefinitionsWords, FineHeader, FineDefinition, HeaderShapes, DefinitionShapes;
    var b, h, last := g.buffer, |HeadersWords(d.headers)|, |g.buffer| - 1;
    assert g.words[0..|g.words|] == g.words;
    HeadersRead(g, d.headers, d.definitions, 0);
    SpelledParts(g, 0, HeadersWords(d.headers), DefinitionsWords(d.definitions));
    DefinitionsRead(g, d.definitions, h);
    var mid := End(b, Star(Call(HEADER)), 0, g.on[h], HeaderShapes(d.headers));
    var end := End(b, Star(Call(DEFINITION)), mid, g.on[|g.words|], DefinitionShapes(d.definitions));
    SkipGives(b, end);
    AnyChar(b, last);
    NotGives(b, Dot, last);
    DocumentRule();
    var ss := [HeaderShapes(d.headers), DefinitionShapes(d.definitions), [], []];
    SeqGives(b, DocumentParts(), [0, mid, end, last, last], ss);
    RuleGives(b, DOCUMENT, 0, last, Flat(ss));
  }

  lemma TextIsSource(text: string)
    ensures Terminated(Codes(text)) == Codes(text) + [EndSymbol] && Source(Terminated(Codes(text)))
  {
    if text != "" {
      assert Codes(text)[|text| - 1] == text[|text| - 1] as nat;
    }
  }

  /** The text consists of these words, of blanks, line breaks and comments. */
  predicate Writes(text: string, words: seq<string>) {
    var buffer := Terminated(Codes(text));
    Source(buffer) && Written(buffer, 0, words)
  }

  /** A text that consists of the words of a document, of blanks, line breaks and comments means that
      document: it is matched to its end, by one tree, and that is the tree of the document. */
  lemma DocumentIsRead(text: string, d: Document)
    requires FineDocument(d) && Writes(text, DocumentWords(d))
    ensures var o := Meaning(Known(), Thrift, DOCUMENT, Codes(text));
            && o.Match? && o.end == |text| && |o.trees| == 1
            && Outlines(Terminated(Codes(text)), o.trees) == [DocumentShape(d)]
  {
    hide Thrift, Enough, Written, DocumentWords, DocumentShape, FineDocument, Outline;
    TextIsSource(text);
    var buffer := Terminated(Codes(text));
    var on := Lay(buffer, 0, DocumentWords(d));
    DocumentGives(Page(buffer, DocumentWords(d), on), d);
    var ts := Trees(buffer, Call(DOCUMENT), 0, |text|, [DocumentShape(d)]);
    var n := Bound(Thrift, buffer, Call(DOCUMENT), 0, Match(|text|, ts));
    ThriftIsDescribed();
    var m := Enough(Known(), |buffer|, Known().ranks, 0);
    EnoughForText(Known(), Thrift, DOCUMENT, Codes(text), n + m);
    MatchesAreNested(Thrift, buffer, Call(DOCUMENT), 0, n + m);
  }
}
