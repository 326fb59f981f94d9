/** What the types and the constant values of Thrift texts mean: the words of a type or a value are
    read back as that type or value. */
module ThriftTexts {
  import opened Wrappers
  import TypeNames
  import opened TokenTree
  import opened PegParser
  import opened ThriftGrammar
  import opened ThriftShapes
  import opened ThriftBlanks
  import opened ThriftLexemes
  import opened ThriftPages

  // ----- types and values -----

  /** `(name = "text")` behind what is annotated; the separator is a comma, a semicolon or left out. */
  datatype Note = Note(name: string, quote: char, text: string, sep: string)

  type Notes = Option<seq<Note>>

  /** `cpp_type "text"` */
  datatype Cpp = NoCpp | Cpp(quote: char, text: string)

  /** `Base(i)` is the i-th word of the language, one of the first nine. */
  datatype Type =
    | Base(word: nat, notes: Notes)
    | Named(name: string, notes: Notes)
    | ListOf(elem: Type, cpp: Cpp, notes: Notes)
    | SetOf(elem: Type, cpp: Cpp, notes: Notes)
    | MapOf(key: Type, elem: Type, cpp: Cpp, notes: Notes)

  datatype Power = NoPower | Power(mark: string, digits: string)

  datatype Value =
    | Fraction(sign: string, whole: string, part: string, power: Power)   // 1.5, 1.5e3, 1e3
    | Number(digits: string)                                              // 15, -15, 0x1f, 0o17
    | Quoted(quote: char, text: string)
    | Name(name: string)
    | Items(items: seq<Item>)
    | Pairs(pairs: seq<Pair>)

  datatype Item = Item(value: Value, sep: string)
  datatype Pair = Pair(key: Value, value: Value, sep: string)

  /** A name that can stand behind a type. */
  predicate GoodName(s: string) {
    IsName(s) && FreeOf(s, "cpp_type")
  }

  /** A name that can stand for a type: no word that can stand in its place, and nothing that a
      text begins with that is taken without looking at what follows. */
  predicate GoodType(s: string) {
    && IsName(s) && !("required" <= s) && !("optional" <= s)
    && (forall i {:trigger WORDS[i]} :: 0 <= i < 9 ==> FreeOf(s, WORDS[i]))
    && FreeOf(s, "map") && FreeOf(s, "set") && FreeOf(s, "list")
    && FreeOf(s, "oneway") && FreeOf(s, "void") && FreeOf(s, "throws")
  }

  predicate IsSeparator(s: string) {
    s == "" || s == "," || s == ";"
  }

  predicate FineNote(n: Note) {
    IsName(n.name) && IsQuote(n.quote) && Quotable(n.quote, n.text) && IsSeparator(n.sep)
  }

  predicate FineNotes(notes: Notes) {
    notes.Some? ==> AllFine(notes.value)
  }

  predicate AllFine(ns: seq<Note>) {
    forall i :: 0 <= i < |ns| ==> FineNote(ns[i])
  }

  predicate FineCpp(c: Cpp) {
    c.Cpp? ==> IsQuote(c.quote) && Quotable(c.quote, c.text)
  }

  predicate FineType(t: Type) {
    && FineNotes(t.notes)
    && match t
       case Base(i, _) => i < 9
       case Named(s, _) => GoodType(s)
       case ListOf(e, c, _) => FineType(e) && FineCpp(c)
       case SetOf(e, c, _) => FineType(e) && FineCpp(c)
       case MapOf(k, e, c, _) => FineType(k) && FineType(e) && FineCpp(c)
  }

  predicate FinePower(a: string, b: string, p: Power) {
    if p.NoPower? then b != "" else (a != "" || b != "") && IsPower(p.mark, p.digits)
  }

  predicate FineValue(v: Value) {
    match v
    case Fraction(sign, a, b, p) => IsSign(sign) && Digits(a) && Digits(b) && FinePower(a, b, p)
    case Number(a) => IsInteger(a)
    case Quoted(c, s) => IsQuote(c) && Quotable(c, s)
    case Name(s) => IsName(s)
    case Items(vs) => forall i :: 0 <= i < |vs| ==> FineItem(vs[i])
    case Pairs(ps) => forall i :: 0 <= i < |ps| ==> FinePair(ps[i])
  }

  predicate FineItem(v: Item) {
    FineValue(v.value) && IsSeparator(v.sep)
  }

  predicate FinePair(p: Pair) {
    FineValue(p.key) && FineValue(p.value) && IsSeparator(p.sep)
  }

  // ----- their words -----

  function SeparatorWords(s: string): seq<string> {
    if s == "" then [] else [s]
  }

  function NoteWords(n: Note): seq<string> {
    [n.name, "=", [n.quote] + (Escaped(n.quote, n.text) + [n.quote])] + SeparatorWords(n.sep)
  }

  function NoteList(ns: seq<Note>): seq<string> {
    if ns == [] then [] else NoteWords(ns[0]) + NoteList(ns[1..])
  }

  function NotesWords(notes: Notes): seq<string> {
    if notes.None? then [] else ["("] + (NoteList(notes.value) + [")"])
  }

  function CppWords(c: Cpp): seq<string> {
    if c.NoCpp? then [] else ["cpp_type", [c.quote] + (Escaped(c.quote, c.text) + [c.quote])]
  }

  function TypeWords(t: Type): (ws: seq<string>)
    ensures ws != []
    decreases t, 1
  {
    KindWords(t) + NotesWords(t.notes)
  }

  function KindWords(t: Type): (ws: seq<string>)
    ensures ws != []
    decreases t, 0
  {
    match t
    case Base(i, _) => [if i < 9 then WORDS[i] else ""]
    case Named(s, _) => [s]
    case ListOf(e, c, _) => ["list", "<"] + (TypeWords(e) + ([">"] + CppWords(c)))
    case SetOf(e, c, _) => ["set"] + (CppWords(c) + (["<"] + (TypeWords(e) + [">"])))
    case MapOf(k, e, c, _) => ["map"] + (CppWords(c) + (["<"] + (TypeWords(k) + ([","] + (TypeWords(e) + [">"])))))
  }

  function FractionWord(sign: string, a: string, b: string, p: Power): string {
    sign + if p.NoPower? then a + ("." + b) else Mantissa(a, b) + (p.mark + p.digits)
  }

  function ValueWords(v: Value): (ws: seq<string>)
    ensures ws != []
    decreases v, 1
  {
    match v
    case Fraction(sign, a, b, p) => [FractionWord(sign, a, b, p)]
    case Number(a) => [a]
    case Quoted(c, s) => [[c] + (Escaped(c, s) + [c])]
    case Name(s) => [s]
    case Items(vs) => ["["] + (ItemsWords(vs) + ["]"])
    case Pairs(ps) => ["{"] + (PairsWords(ps) + ["}"])
  }

  function ItemsWords(vs: seq<Item>): seq<string>
    decreases vs, 0
  {
    if vs == [] then [] else (ValueWords(vs[0].value) + SeparatorWords(vs[0].sep)) + ItemsWords(vs[1..])
  }

  function PairsWords(ps: seq<Pair>): seq<string>
    decreases ps, 0
  {
    if ps == [] then [] else PairWords(ps[0]) + PairsWords(ps[1..])
  }

  function PairWords(p: Pair): seq<string>
    decreases p, 0
  {
    ValueWords(p.key) + ([":"] + (ValueWords(p.value) + SeparatorWords(p.sep)))
  }

  // ----- the trees that are expected -----

  function Sym(rule: nat): seq<Shape> {
    [Branch(rule, [])]
  }

  function TypeShape(t: Type): Shape
    decreases t, 1
  {
    Branch(FIELD_TYPE, Flat([[KindShape(t)], NotesShape(t.notes)]))
  }

  function KindShape(t: Type): Shape
    decreases t, 0
  {
    match t
    case Base(i, _) => Branch(BASE_TYPE, [Branch(WORD_BOOL + i, [Leaf(Codes(if i < 9 then WORDS[i] else ""))])])
    case Named(s, _) => NameShape(s)
    case ListOf(e, c, _) => Branch(CONTAINER_TYPE, [ListShape(TypeShape(e), c)])
    case SetOf(e, c, _) => Branch(CONTAINER_TYPE, [SetShape(TypeShape(e), c)])
    case MapOf(k, e, c, _) => Branch(CONTAINER_TYPE, [MapShape(TypeShape(k), TypeShape(e), c)])
  }

  function ListShape(e: Shape, c: Cpp): Shape {
    Branch(LIST_TYPE, Flat([Sym(WORD_LIST), Sym(LPOINT), [e], Sym(RPOINT), CppShape(c)]))
  }

  function SetShape(e: Shape, c: Cpp): Shape {
    Branch(SET_TYPE, Flat([Sym(WORD_SET), CppShape(c), Sym(LPOINT), [e], Sym(RPOINT)]))
  }

  function MapShape(k: Shape, e: Shape, c: Cpp): Shape {
    Branch(MAP_TYPE, Flat([Sym(WORD_MAP), CppShape(c), Sym(LPOINT), [k], Sym(COMMA), [e], Sym(RPOINT)]))
  }

  function CppShape(c: Cpp): seq<Shape> {
    if c.NoCpp? then [] else [Branch(CPP_TYPE, Flat([Sym(WORD_CPPTYPE), [QuoteShape(c.text)]]))]
  }

  function NoteShape(n: Note): Shape {
    Branch(ANNOTATION, Flat([[NameShape(n.name)], Sym(EQUAL), [QuoteShape(n.text)], SeparatorShape(n.sep)]))
  }

  function NoteShapes(ns: seq<Note>): seq<Shape> {
    if ns == [] then [] else [NoteShape(ns[0])] + NoteShapes(ns[1..])
  }

  function NotesShape(notes: Notes): seq<Shape> {
    if notes.None? then [] else [Branch(ANNOTATIONS, Flat([Sym(LPAR), NoteShapes(notes.value), Sym(RPAR)]))]
  }

  function SeparatorShape(s: string): seq<Shape> {
    if s == "" then [] else Sym(LIST_SEPARATOR)
  }

  /** What is taken of a number with a fraction: the whole of it, but of one with an exponent the
      exponent alone. */
  function FractionText(v: Value): string
    requires v.Fraction?
  {
    if v.power.NoPower? then FractionWord(v.sign, v.whole, v.part, v.power) else v.power.digits
  }

  function ValueShape(v: Value): Shape
    decreases v, 2
  {
    Branch(CONST_VALUE, [FormShape(v)])
  }

  function FormShape(v: Value): Shape
    decreases v, 1
  {
    match v
    case Fraction(sign, a, b, p) => Branch(DOUBLE_CONSTANT, [Leaf(Codes(FractionText(v)))])
    case Number(a) => Branch(INT_CONSTANT, [Leaf(Codes(a))])
    case Quoted(c, s) => QuoteShape(s)
    case Name(s) => NameShape(s)
    case Items(vs) => Branch(CONST_LIST, Flat([Sym(LBRK), ItemShapes(vs), Sym(RBRK)]))
    case Pairs(ps) => Branch(CONST_MAP, Flat([Sym(LWING), PairShapes(ps), Sym(RWING)]))
  }

  function ItemShapes(vs: seq<Item>): seq<Shape>
    decreases vs, 0
  {
    if vs == [] then [] else ([ValueShape(vs[0].value)] + SeparatorShape(vs[0].sep)) + ItemShapes(vs[1..])
  }

  function PairShapes(ps: seq<Pair>): seq<Shape>
    decreases ps, 0
  {
    if ps == [] then [] else PairShape(ps[0]) + PairShapes(ps[1..])
  }

  function PairShape(p: Pair): seq<Shape>
    decreases p, 0
  {
    Flat([[ValueShape(p.key)], Sym(COLON), [ValueShape(p.value)], SeparatorShape(p.sep)])
  }

  // ----- annotations -----

  function AnnotationsParts(): seq<Expr> {
    [Call(LPAR), Star(Call(ANNOTATION)), Call(RPAR)]
  }

  function AnnotationParts(): seq<Expr> {
    [Call(IDENTIFIER), Call(EQUAL), Call(LITERAL), Opt(Call(LIST_SEPARATOR))]
  }

  function CppParts(): seq<Expr> {
    [Call(WORD_CPPTYPE), Call(LITERAL)]
  }

  lemma NoteRules()
    ensures Thrift(ANNOTATIONS) == Seq(AnnotationsParts()) && Thrift(ANNOTATION) == Seq(AnnotationParts())
    ensures Thrift(CPP_TYPE) == Seq(CppParts())
  {
    hide Seq;
  }

  /** A separator that may be left out, if the next word is none. */
  lemma SeparatorPart(g: Page, i: nat, sep: string)
    requires Laid(g) && IsSeparator(sep) && Spelled(g, i, SeparatorWords(sep))
    requires sep == "" ==> First(g, i) != ',' as nat && First(g, i) != ';' as nat
    ensures Reads(g, Opt(Call(LIST_SEPARATOR)), i, i + |SeparatorWords(sep)|, SeparatorShape(sep))
  {
    hide Reads, Denies, First;
    if sep == "" {
      SeparatorDenies(g, i);
      OptPasses(g, Call(LIST_SEPARATOR), i);
    } else {
      SpelledAt(g, i, [sep], 0);
      SeparatorReads(g, i);
      OptReads(g, Call(LIST_SEPARATOR), i, i + 1, Sym(LIST_SEPARATOR));
    }
  }

  lemma NoteSpelled(g: Page, n: Note, i: nat)
    requires Laid(g) && Spelled(g, i, NoteWords(n))
    ensures i + 2 < |g.words| && g.words[i] == n.name && g.words[i + 1] == "="
    ensures g.words[i + 2] == [n.quote] + (Escaped(n.quote, n.text) + [n.quote])
    ensures Spelled(g, i + 3, SeparatorWords(n.sep)) && i + |NoteWords(n)| == i + 3 + |SeparatorWords(n.sep)| < |g.on|
  {
    hide Laid, Spelled, SeparatorWords, Escaped;
    var ws := [n.name, "=", [n.quote] + (Escaped(n.quote, n.text) + [n.quote])];
    SpelledParts(g, i, ws, SeparatorWords(n.sep));
    SpelledAt(g, i, ws, 0);
    SpelledAt(g, i, ws, 1);
    SpelledAt(g, i, ws, 2);
    SpelledFits(g, i, NoteWords(n));
  }

  lemma SpelledFits(g: Page, i: nat, ws: seq<string>)
    requires Laid(g) && Spelled(g, i, ws)
    ensures i + |ws| < |g.on|
  {
  }

  lemma NoteReads(g: Page, n: Note, i: nat)
    requires 0 < i && Laid(g) && FineNote(n) && Spelled(g, i, NoteWords(n))
    requires First(g, i + |NoteWords(n)|) != ',' as nat && First(g, i + |NoteWords(n)|) != ';' as nat
    ensures Reads(g, Call(ANNOTATION), i, i + |NoteWords(n)|, [NoteShape(n)])
  {
    hide Reads, Laid, First, Spelled, NoteWords, SeparatorWords, SeparatorShape, QuoteShape, NameShape, Escaped, Quotable, IsName, Seq, Flat,
         Thrift, SYMBOLS, WORDS;
    NoteSpelled(g, n, i);
    NameReads(g, i);
    KeyWords();
    SymbolReads(g, EQUAL, i + 1);
    QuoteReads(g, i + 2, n.quote, n.text);
    NoSeparator(n.sep);
    SeparatorPart(g, i + 3, n.sep);
    NoteRules();
    SeqRuleReads(g, ANNOTATION, AnnotationParts(), [i, i + 1, i + 2, i + 3, i + |NoteWords(n)|],
                 [[NameShape(n.name)], Sym(EQUAL), [QuoteShape(n.text)], SeparatorShape(n.sep)]);
  }

  lemma NoteListParts(g: Page, ns: seq<Note>, i: nat)
    requires ns != [] && Spelled(g, i, NoteList(ns))
    ensures Spelled(g, i, NoteWords(ns[0])) && Spelled(g, i + |NoteWords(ns[0])|, NoteList(ns[1..]))
    ensures |NoteList(ns)| == |NoteWords(ns[0])| + |NoteList(ns[1..])|
  {
    hide Spelled, NoteWords;
    SpelledParts(g, i, NoteWords(ns[0]), NoteList(ns[1..]));
  }

  lemma NotesBegin(g: Page, ns: seq<Note>, i: nat)
    requires Laid(g) && AllFine(ns) && Spelled(g, i, NoteList(ns)) && First(g, i + |NoteList(ns)|) == ')' as nat
    ensures First(g, i) != ',' as nat && First(g, i) != ';' as nat
  {
    hide Laid, First, Spelled, NoteWords;
    if ns != [] {
      assert FineNote(ns[0]);
      NoteListParts(g, ns, i);
      NoteSpelled(g, ns[0], i);
      FirstIs(g, i);
    }
  }

  lemma {:induction false} NoteListReads(g: Page, ns: seq<Note>, i: nat)
    requires 0 < i && Laid(g) && AllFine(ns) && Spelled(g, i, NoteList(ns)) && First(g, i + |NoteList(ns)|) == ')' as nat
    requires i + |NoteList(ns)| < |g.on|
    ensures Reads(g, Star(Call(ANNOTATION)), i, i + |NoteList(ns)|, NoteShapes(ns))
    decreases |ns|
  {
    hide Reads, Denies, Laid, First, Spelled, NoteWords, NoteShape, FineNote, Seq, Thrift;
    if ns == [] {
      NameDenies(g, i);
      NoteRules();
      SeqRuleDenies(g, ANNOTATION, AnnotationParts(), [i], []);
      StarPasses(g, Call(ANNOTATION), i);
    } else {
      NoteListParts(g, ns, i);
      var mid := i + |NoteWords(ns[0])|;
      NotesBegin(g, ns[1..], mid);
      NoteReads(g, ns[0], i);
      NoteListReads(g, ns[1..], mid);
      StarReads(g, Call(ANNOTATION), i, mid, i + |NoteList(ns)|, [NoteShape(ns[0])], NoteShapes(ns[1..]));
    }
  }

  lemma NoAnnotations(g: Page, i: nat)
    requires i < |g.on| && First(g, i) != '(' as nat
    ensures Reads(g, Opt(Call(ANNOTATIONS)), i, i, [])
  {
    hide Reads, Denies, Seq, Thrift, First, SYMBOLS;
    KeyWords();
    NoteRules();
    SymbolDenies(g, LPAR, i);
    SeqRuleDenies(g, ANNOTATIONS, AnnotationsParts(), [i], []);
    OptPasses(g, Call(ANNOTATIONS), i);
  }

  /** Annotations, if they are there. */
  lemma NotesPart(g: Page, notes: Notes, i: nat)
    requires 0 < i < |g.on| && Laid(g) && FineNotes(notes) && Spelled(g, i, NotesWords(notes))
    requires notes.None? ==> First(g, i) != '(' as nat
    ensures Reads(g, Opt(Call(ANNOTATIONS)), i, i + |NotesWords(notes)|, NotesShape(notes))
  {
    hide Reads, Laid, First, Spelled, NoteList, NoteShapes, AllFine, Seq, Flat, Thrift, SYMBOLS, WORDS;
    if notes.None? {
      NoAnnotations(g, i);
    } else {
      var ns := notes.value;
      var end := i + 1 + |NoteList(ns)|;
      Bracketed(g, i, "(", NoteList(ns), ")");
      WordStands(g, end);
      KeyWords();
      SymbolReads(g, LPAR, i);
      NoteListReads(g, ns, i + 1);
      SymbolReads(g, RPAR, end);
      NoteRules();
      SeqRuleReads(g, ANNOTATIONS, AnnotationsParts(), [i, i + 1, end, end + 1], [Sym(LPAR), NoteShapes(ns), Sym(RPAR)]);
      OptReads(g, Call(ANNOTATIONS), i, end + 1, NotesShape(notes));
    }
  }

  /** Where annotations can stand they are there, or what is behind them comes next. */
  lemma NotesFirst(g: Page, notes: Notes, i: nat)
    requires Laid(g) && Spelled(g, i, NotesWords(notes))
    ensures First(g, i) == if notes.None? then First(g, i + |NotesWords(notes)|) else '(' as nat
    ensures notes.Some? ==> i < |g.words| && g.words[i] == "("
  {
    hide Laid, First;
    if notes.Some? {
      SpelledAt(g, i, NotesWords(notes), 0);
      FirstIs(g, i);
    }
  }

  lemma NoCppType(g: Page, i: nat)
    requires i < |g.on| && !WordIsAt(g, i, "cpp_type")
    ensures Reads(g, Opt(Call(CPP_TYPE)), i, i, [])
  {
    hide Reads, Denies, Seq, Thrift, WordIsAt, WORDS;
    KeyWords();
    NoteRules();
    KeyDenies(g, WORD_CPPTYPE, i);
    SeqRuleDenies(g, CPP_TYPE, CppParts(), [i], []);
    OptPasses(g, Call(CPP_TYPE), i);
  }

  lemma CppPart(g: Page, c: Cpp, i: nat)
    requires 0 < i < |g.on| && Laid(g) && FineCpp(c) && Spelled(g, i, CppWords(c))
    requires c.NoCpp? ==> !WordIsAt(g, i, "cpp_type")
    ensures Reads(g, Opt(Call(CPP_TYPE)), i, i + |CppWords(c)|, CppShape(c))
  {
    hide Reads, Laid, WordIsAt, Escaped, Quotable, QuoteShape, Seq, Flat, Thrift, SYMBOLS, WORDS;
    if c.NoCpp? {
      NoCppType(g, i);
    } else {
      SpelledAt(g, i, CppWords(c), 0);
      SpelledAt(g, i, CppWords(c), 1);
      KeyWords();
      KeyReads(g, WORD_CPPTYPE, i);
      QuoteReads(g, i + 1, c.quote, c.text);
      NoteRules();
      SeqRuleReads(g, CPP_TYPE, CppParts(), [i, i + 1, i + 2], [Sym(WORD_CPPTYPE), [QuoteShape(c.text)]]);
      OptReads(g, Call(CPP_TYPE), i, i + 2, CppShape(c));
    }
  }

  // ----- types -----

  /** What may follow a type. */
  predicate BehindType(g: Page, i: nat) {
    i < |g.on| && First(g, i) != '(' as nat && !WordIsAt(g, i, "cpp_type")
  }

  function MapParts(): seq<Expr> {
    [Call(WORD_MAP), Opt(Call(CPP_TYPE)), Call(LPOINT), Call(FIELD_TYPE), Call(COMMA), Call(FIELD_TYPE), Call(RPOINT)]
  }

  function SetParts(): seq<Expr> {
    [Call(WORD_SET), Opt(Call(CPP_TYPE)), Call(LPOINT), Call(FIELD_TYPE), Call(RPOINT)]
  }

  function ListParts(): seq<Expr> {
    [Call(WORD_LIST), Call(LPOINT), Call(FIELD_TYPE), Call(RPOINT), Opt(Call(CPP_TYPE))]
  }

  function Containers(): seq<Expr> {
    [Call(MAP_TYPE), Call(SET_TYPE), Call(LIST_TYPE)]
  }

  function Bases(): seq<Expr> {
    [Call(WORD_BOOL), Call(WORD_BYTE), Call(WORD_I8), Call(WORD_I16), Call(WORD_I32), Call(WORD_I64),
     Call(WORD_DOUBLE), Call(WORD_STRING), Call(WORD_BINARY)]
  }

  function Kinds(): seq<Expr> {
    [Call(CONTAINER_TYPE), Call(BASE_TYPE), Call(IDENTIFIER)]
  }

  lemma TypeRules()
    ensures Thrift(MAP_TYPE) == Seq(MapParts()) && Thrift(SET_TYPE) == Seq(SetParts()) && Thrift(LIST_TYPE) == Seq(ListParts())
    ensures Thrift(CONTAINER_TYPE) == Alt(Containers()) && Thrift(BASE_TYPE) == Alt(Bases())
    ensures Thrift(FIELD_TYPE) == Seq([Alt(Kinds()), Opt(Call(ANNOTATIONS))])
  {
    hide Seq, Alt;
  }

  lemma KeyWords()
    ensures WORDS[WORD_MAP - WORD_BOOL] == "map" && WORDS[WORD_SET - WORD_BOOL] == "set" && WORDS[WORD_LIST - WORD_BOOL] == "list"
    ensures WORDS[WORD_CPPTYPE - WORD_BOOL] == "cpp_type"
    ensures IsWord("map") && IsWord("set") && IsWord("list") && IsWord("cpp_type")
    ensures SYMBOLS[LPOINT - LBRK] == '<' && SYMBOLS[RPOINT - LBRK] == '>' && SYMBOLS[COMMA - LBRK] == ','
    ensures SYMBOLS[LPAR - LBRK] == '(' && SYMBOLS[RPAR - LBRK] == ')' && SYMBOLS[EQUAL - LBRK] == '=' && SYMBOLS[COLON - LBRK] == ':'
    ensures SYMBOLS[LBRK - LBRK] == '[' && SYMBOLS[RBRK - LBRK] == ']' && SYMBOLS[LWING - LBRK] == '{' && SYMBOLS[RWING - LBRK] == '}'
  {
  }

  /** No container type begins here. */
  predicate NoContainer(g: Page, i: nat) {
    !WordIsAt(g, i, "map") && !WordIsAt(g, i, "set") && !WordIsAt(g, i, "list")
  }

  lemma ContainerDenies(g: Page, i: nat)
    requires i < |g.on|
    ensures !WordIsAt(g, i, "map") ==> Denies(g, Call(MAP_TYPE), i)
    ensures !WordIsAt(g, i, "set") ==> Denies(g, Call(SET_TYPE), i)
    ensures NoContainer(g, i) ==> Denies(g, Call(CONTAINER_TYPE), i)
  {
    hide Reads, Denies, Seq, Alt, WordIsAt, Thrift, WORDS;
    KeyWords();
    TypeRules();
    if !WordIsAt(g, i, "map") {
      KeyDenies(g, WORD_MAP, i);
      SeqRuleDenies(g, MAP_TYPE, MapParts(), [i], []);
    }
    if !WordIsAt(g, i, "set") {
      KeyDenies(g, WORD_SET, i);
      SeqRuleDenies(g, SET_TYPE, SetParts(), [i], []);
    }
    if NoContainer(g, i) {
      KeyDenies(g, WORD_LIST, i);
      SeqRuleDenies(g, LIST_TYPE, ListParts(), [i], []);
      AltRuleDenies(g, CONTAINER_TYPE, Containers(), i);
    }
  }

  lemma BaseIs(i: nat)
    requires i < 9
    ensures Bases()[i] == Call(WORD_BOOL + i) && |Bases()| == 9
  {
  }

  lemma BasesDeny(g: Page, i: nat, n: nat)
    requires i < |g.on| && n <= 9 && forall k {:trigger WORDS[k]} :: 0 <= k < n ==> !WordIsAt(g, i, WORDS[k])
    ensures forall k :: 0 <= k < n ==> Denies(g, Bases()[k], i)
    ensures n == 9 ==> Denies(g, Call(BASE_TYPE), i)
  {
    hide Denies, WordIsAt, Alt, Thrift, Bases, WORDS;
    BaseIs(0);
    WordsAreWords();
    forall k | 0 <= k < n
      ensures Denies(g, Bases()[k], i)
    {
      BaseIs(k);
      var s := WORDS[k];
      KeyDenies(g, WORD_BOOL + k, i);
    }
    if n == 9 {
      TypeRules();
      AltRuleDenies(g, BASE_TYPE, Bases(), i);
    }
  }

  /** The n-th kind of container is a kind of type. */
  lemma ContainerReads(g: Page, n: nat, i: nat, j: nat, inner: Shape)
    requires n < 3 && Reads(g, Containers()[n], i, j, [inner]) && forall k :: 0 <= k < n ==> Denies(g, Containers()[k], i)
    ensures Reads(g, Alt(Kinds()), i, j, [Branch(CONTAINER_TYPE, [inner])])
  {
    hide Reads, Denies, Seq, Alt, Thrift;
    TypeRules();
    AltRuleReads(g, CONTAINER_TYPE, Containers(), n, i, j, [inner]);
    AltReads(g, Kinds(), 0, i, j, [Branch(CONTAINER_TYPE, [inner])]);
  }

  /** Each of the nine words is a base type. */
  lemma BaseReads(g: Page, n: nat, i: nat)
    requires Laid(g) && n < 9 && 0 < i < |g.words| && g.words[i] == WORDS[n]
    ensures Reads(g, Alt(Kinds()), i, i + 1, [Branch(BASE_TYPE, [Branch(WORD_BOOL + n, [Leaf(Codes(WORDS[n]))])])])
  {
    hide Reads, Denies, Seq, Alt, Thrift, WordIsAt, Bases, WORDS, Laid;
    WordsAreWords();
    var shape := Branch(WORD_BOOL + n, [Leaf(Codes(WORDS[n]))]);
    KeyReads(g, WORD_BOOL + n, i);
    WordStands(g, i);
    DifferentWords(g, n, i);
    BasesDeny(g, i, n);
    BaseIs(n);
    TypeRules();
    AltRuleReads(g, BASE_TYPE, Bases(), n, i, i + 1, [shape]);
    ContainerDenies(g, i);
    AltReads(g, Kinds(), 1, i, i + 1, [Branch(BASE_TYPE, [shape])]);
  }

  /** The words of the language are different. */
  lemma DifferentWords(g: Page, n: nat, i: nat)
    requires Laid(g) && n < 9 && i < |g.words| && g.words[i] == WORDS[n]
    ensures NoContainer(g, i) && forall k {:trigger WORDS[k]} :: 0 <= k < n ==> !WordIsAt(g, i, WORDS[k])
  {
    hide Laid, WordIsAt, FreeOf, WORDS;
    WordsAreWords();
    KeyWords();
    AllDifferent(n);
    OtherWord(g, i, "map");
    OtherWord(g, i, "set");
    OtherWord(g, i, "list");
    forall k | 0 <= k < n
      ensures !WordIsAt(g, i, WORDS[k])
    {
      OtherWord(g, i, WORDS[k]);
    }
  }

  lemma AllDifferent(n: nat)
    requires n < 9
    ensures FreeOf(WORDS[n], "map") && FreeOf(WORDS[n], "set") && FreeOf(WORDS[n], "list")
    ensures FreeOf(WORDS[n], "oneway") && FreeOf(WORDS[n], "void") && FreeOf(WORDS[n], "throws")
    ensures forall k {:trigger WORDS[k]} :: 0 <= k < n ==> FreeOf(WORDS[n], WORDS[k])
  {
    hide FreeOf;
    WordsAreWords();
    OneIsFree(WORDS[n], "map");
    OneIsFree(WORDS[n], "set");
    OneIsFree(WORDS[n], "list");
    OneIsFree(WORDS[n], "oneway");
    OneIsFree(WORDS[n], "void");
    OneIsFree(WORDS[n], "throws");
    forall k | 0 <= k < n
      ensures FreeOf(WORDS[n], WORDS[k])
    {
      OneIsFree(WORDS[n], WORDS[k]);
    }
  }

  lemma ContainerWords()
    ensures NameChars("list") && NameChars("set") && FreeOf("list", "map") && FreeOf("list", "set") && FreeOf("set", "map")
  {
    OneIsFree("list", "map");
    OneIsFree("list", "set");
    OneIsFree("set", "map");
  }

  lemma OneIsFree(s: string, word: string)
    requires IsWord(s) && s != word
    ensures FreeOf(s, word)
  {
  }

  /** What is read as a base type is what the resolver takes for one, word for word. */
  lemma BaseWordsAreNames(s: string)
    ensures s in TypeNames.BaseNames <==> exists i :: 0 <= i < 9 && WORDS[i] == s
    ensures s == WORDS[WORD_BOOL - WORD_BOOL] ==> TypeNames.BaseNames[s] == TypeNames.Bool
    ensures s == WORDS[WORD_BYTE - WORD_BOOL] || s == WORDS[WORD_I8 - WORD_BOOL] ==> TypeNames.BaseNames[s] == TypeNames.Byte
    ensures s == WORDS[WORD_I16 - WORD_BOOL] ==> TypeNames.BaseNames[s] == TypeNames.I16
    ensures s == WORDS[WORD_I32 - WORD_BOOL] ==> TypeNames.BaseNames[s] == TypeNames.I32
    ensures s == WORDS[WORD_I64 - WORD_BOOL] ==> TypeNames.BaseNames[s] == TypeNames.I64
    ensures s == WORDS[WORD_DOUBLE - WORD_BOOL] ==> TypeNames.BaseNames[s] == TypeNames.Double
    ensures s == WORDS[WORD_STRING - WORD_BOOL] ==> TypeNames.BaseNames[s] == TypeNames.String
    ensures s == WORDS[WORD_BINARY - WORD_BOOL] ==> TypeNames.BaseNames[s] == TypeNames.Binary
  {
    assert WORDS[0] == "bool" && WORDS[1] == "byte" && WORDS[2] == "i8" && WORDS[3] == "i16" && WORDS[4] == "i32" && WORDS[5] == "i64";
    assert WORDS[6] == "double" && WORDS[7] == "string" && WORDS[8] == "binary";
  }

  lemma NamedReads(g: Page, i: nat)
    requires Laid(g) && 0 < i < |g.words| && GoodType(g.words[i])
    ensures Reads(g, Alt(Kinds()), i, i + 1, [NameShape(g.words[i])])
  {
    hide Reads, Denies, WordIsAt, FreeOf, WORDS, Laid, Alt;
    NameReads(g, i);
    KeyWords();
    WordsAreWords();
    OtherWord(g, i, "map");
    OtherWord(g, i, "set");
    OtherWord(g, i, "list");
    WordStands(g, i);
    ContainerDenies(g, i);
    forall k | 0 <= k < 9
      ensures !WordIsAt(g, i, WORDS[k])
    {
      OtherWord(g, i, WORDS[k]);
    }
    BasesDeny(g, i, 9);
    AltReads(g, Kinds(), 2, i, i + 1, [NameShape(g.words[i])]);
  }

  lemma BracketBehind(g: Page, i: nat)
    requires Laid(g) && i < |g.words| && (g.words[i] == ">" || g.words[i] == "," || g.words[i] == "<" || g.words[i] == "(")
    ensures i < |g.on| && !WordIsAt(g, i, "cpp_type") && First(g, i) == g.words[i][0] as nat
    ensures g.words[i] != "(" ==> BehindType(g, i)
  {
    hide Laid;
    KeyWords();
    FirstIs(g, i);
    WordStands(g, i);
    NoWord(g, i, "cpp_type");
  }

  /** `list<...>`, where what is in the brackets is read as a type. */
  lemma ListFrom(g: Page, i: nat, b: nat, end: nat, e: Shape, c: Cpp)
    requires Laid(g) && i + 1 < |g.words| && b < |g.words| && g.words[i] == "list" && g.words[i + 1] == "<" && g.words[b] == ">"
    requires Reads(g, Call(FIELD_TYPE), i + 2, b, [e]) && Reads(g, Opt(Call(CPP_TYPE)), b + 1, end, CppShape(c))
    ensures Reads(g, Call(LIST_TYPE), i, end, [ListShape(e, c)])
  {
    hide Reads, Laid, WORDS, SYMBOLS, Seq, Thrift, Flat, IsWord, CppShape;
    KeyWords();
    KeyReads(g, WORD_LIST, i);
    SymbolReads(g, LPOINT, i + 1);
    SymbolReads(g, RPOINT, b);
    TypeRules();
    SeqRuleReads(g, LIST_TYPE, ListParts(), [i, i + 1, i + 2, b, b + 1, end], [Sym(WORD_LIST), Sym(LPOINT), [e], Sym(RPOINT), CppShape(c)]);
  }

  lemma SetFrom(g: Page, i: nat, a: nat, b: nat, e: Shape, c: Cpp)
    requires Laid(g) && i < |g.words| && a < |g.words| && b < |g.words| && g.words[i] == "set" && g.words[a] == "<" && g.words[b] == ">"
    requires Reads(g, Opt(Call(CPP_TYPE)), i + 1, a, CppShape(c)) && Reads(g, Call(FIELD_TYPE), a + 1, b, [e])
    ensures Reads(g, Call(SET_TYPE), i, b + 1, [SetShape(e, c)])
  {
    hide Reads, Laid, WORDS, SYMBOLS, Seq, Thrift, Flat, IsWord, CppShape;
    KeyWords();
    KeyReads(g, WORD_SET, i);
    SymbolReads(g, LPOINT, a);
    SymbolReads(g, RPOINT, b);
    TypeRules();
    SeqRuleReads(g, SET_TYPE, SetParts(), [i, i + 1, a, a + 1, b, b + 1], [Sym(WORD_SET), CppShape(c), Sym(LPOINT), [e], Sym(RPOINT)]);
  }

  lemma MapFrom(g: Page, i: nat, a: nat, b: nat, d: nat, k: Shape, e: Shape, c: Cpp)
    requires Laid(g) && i < |g.words| && a < |g.words| && b < |g.words| && d < |g.words| && g.words[i] == "map" && g.words[a] == "<"
    requires g.words[b] == "," && g.words[d] == ">" && Reads(g, Opt(Call(CPP_TYPE)), i + 1, a, CppShape(c))
    requires Reads(g, Call(FIELD_TYPE), a + 1, b, [k]) && Reads(g, Call(FIELD_TYPE), b + 1, d, [e])
    ensures Reads(g, Call(MAP_TYPE), i, d + 1, [MapShape(k, e, c)])
  {
    hide Reads, Laid, WORDS, SYMBOLS, Seq, Thrift, Flat, IsWord, CppShape;
    KeyWords();
    KeyReads(g, WORD_MAP, i);
    SymbolReads(g, LPOINT, a);
    SymbolReads(g, COMMA, b);
    SymbolReads(g, RPOINT, d);
    TypeRules();
    SeqRuleReads(g, MAP_TYPE, MapParts(), [i, i + 1, a, a + 1, b, b + 1, d, d + 1],
                 [Sym(WORD_MAP), CppShape(c), Sym(LPOINT), [k], Sym(COMMA), [e], Sym(RPOINT)]);
  }

  /** A list is not taken for a map or a set, and a set not for a map. */
  lemma NotBefore(g: Page, i: nat)
    requires Laid(g) && i < |g.words| && (g.words[i] == "list" || g.words[i] == "set")
    ensures Denies(g, Call(MAP_TYPE), i) && (g.words[i] == "list" ==> Denies(g, Call(SET_TYPE), i))
  {
    hide Denies, Laid, WordIsAt, WORDS, SYMBOLS, IsWord, FreeOf, NameChars;
    WordStands(g, i);
    KeyWords();
    ContainerWords();
    OtherWord(g, i, "map");
    if g.words[i] == "list" {
      OtherWord(g, i, "set");
    }
    ContainerDenies(g, i);
  }

  /** What comes behind a type without its annotations. */
  lemma KindEnds(g: Page, notes: Notes, i: nat)
    requires Laid(g) && Spelled(g, i, NotesWords(notes)) && BehindType(g, i + |NotesWords(notes)|)
    ensures i < |g.on| && !WordIsAt(g, i, "cpp_type") && (notes.None? ==> First(g, i) != '(' as nat)
  {
    hide Laid, Spelled, First, WordIsAt;
    NotesFirst(g, notes, i);
    if notes.Some? {
      BracketBehind(g, i);
    }
  }

  /** The words of a type are read as that type. */
  lemma {:induction false} TypeReads(g: Page, t: Type, i: nat)
    requires 0 < i && Laid(g) && FineType(t) && Spelled(g, i, TypeWords(t)) && BehindType(g, i + |TypeWords(t)|)
    ensures Reads(g, Call(FIELD_TYPE), i, i + |TypeWords(t)|, [TypeShape(t)])
    decreases t, 2
  {
    hide Reads, Laid, BehindType, FineNotes, KindWords, NotesWords, KindShape, NotesShape, Spelled, Seq, Alt, Thrift, Flat, First;
    var mid, end := i + |KindWords(t)|, i + |TypeWords(t)|;
    SpelledParts(g, i, KindWords(t), NotesWords(t.notes));
    KindEnds(g, t.notes, mid);
    KindReads(g, t, i);
    NotesPart(g, t.notes, mid);
    TypeRules();
    SeqRuleReads(g, FIELD_TYPE, [Alt(Kinds()), Opt(Call(ANNOTATIONS))], [i, mid, end], [[KindShape(t)], NotesShape(t.notes)]);
  }

  lemma {:induction false} KindReads(g: Page, t: Type, i: nat)
    requires 0 < i && Laid(g) && FineType(t) && Spelled(g, i, KindWords(t)) && i + |KindWords(t)| < |g.on|
    requires !WordIsAt(g, i + |KindWords(t)|, "cpp_type")
    ensures Reads(g, Alt(Kinds()), i, i + |KindWords(t)|, [KindShape(t)])
    decreases t, 1
  {
    hide Reads, Laid, WORDS, FineNotes, WordIsAt, GoodType, Spelled, TypeWords, TypeShape, ListShape, SetShape, MapShape, Alt;
    match t
    case Base(n, _) =>
      SpelledAt(g, i, KindWords(t), 0);
      BaseReads(g, n, i);
    case Named(s, _) =>
      SpelledAt(g, i, KindWords(t), 0);
      NamedReads(g, i);
    case ListOf(e, c, _) => ListReads(g, t, i);
    case SetOf(e, c, _) => SetReads(g, t, i);
    case MapOf(k, e, c, _) => MapReads(g, t, i);
  }

  lemma ListOpened(g: Page, i: nat, e: seq<string>, c: seq<string>)
    requires Laid(g) && Spelled(g, i, ["list", "<"] + (e + ([">"] + c)))
    ensures var b := i + 2 + |e|;
            && b < |g.words| && g.words[i] == "list" && g.words[i + 1] == "<" && g.words[b] == ">"
            && Spelled(g, i + 2, e) && Spelled(g, b + 1, c) && BehindType(g, b)
  {
    hide Laid, Spelled, BehindType;
    var b := i + 2 + |e|;
    SpelledParts(g, i, ["list", "<"], e + ([">"] + c));
    SpelledParts(g, i + 2, e, [">"] + c);
    SpelledParts(g, b, [">"], c);
    SpelledAt(g, i, ["list", "<"], 0);
    SpelledAt(g, i, ["list", "<"], 1);
    SpelledAt(g, b, [">"], 0);
    BracketBehind(g, b);
  }

  lemma ListIs(t: Type)
    requires t.ListOf?
    ensures KindWords(t) == ["list", "<"] + (TypeWords(t.elem) + ([">"] + CppWords(t.cpp)))
    ensures |KindWords(t)| == 3 + |TypeWords(t.elem)| + |CppWords(t.cpp)|
    ensures KindShape(t) == Branch(CONTAINER_TYPE, [ListShape(TypeShape(t.elem), t.cpp)])
  {
  }

  lemma {:induction false} ListReads(g: Page, t: Type, i: nat)
    requires 0 < i && Laid(g) && t.ListOf? && FineType(t) && Spelled(g, i, KindWords(t)) && i + |KindWords(t)| < |g.on|
    requires !WordIsAt(g, i + |KindWords(t)|, "cpp_type")
    ensures Reads(g, Alt(Kinds()), i, i + |KindWords(t)|, [KindShape(t)])
    decreases t, 0
  {
    hide Reads, Denies, Laid, BehindType, FineNotes, FineCpp, Spelled, ListShape, KindWords, TypeWords, KindShape, TypeShape, CppWords,
         CppShape, WordIsAt, Alt;
    var e := t.elem;
    var b, end := i + 2 + |TypeWords(e)|, i + |KindWords(t)|;
    ListIs(t);
    ListOpened(g, i, TypeWords(e), CppWords(t.cpp));
    TypeReads(g, e, i + 2);
    NoCppWords(t.cpp);
    CppPart(g, t.cpp, b + 1);
    ListFrom(g, i, b, end, TypeShape(e), t.cpp);
    NotBefore(g, i);
    ContainerReads(g, 2, i, end, ListShape(TypeShape(e), t.cpp));
  }

  lemma NoCppWords(c: Cpp)
    ensures |CppWords(c)| == if c.NoCpp? then 0 else 2
  {
  }

  lemma SetOpened(g: Page, i: nat, c: seq<string>, e: seq<string>)
    requires Laid(g) && Spelled(g, i, ["set"] + (c + (["<"] + (e + [">"]))))
    ensures var a, b := i + 1 + |c|, i + 2 + |c| + |e|;
            && b < |g.words| && g.words[i] == "set" && g.words[a] == "<" && g.words[b] == ">"
            && Spelled(g, i + 1, c) && Spelled(g, a + 1, e) && BehindType(g, b) && !WordIsAt(g, a, "cpp_type")
  {
    hide Laid, Spelled, BehindType, WordIsAt;
    var a, b := i + 1 + |c|, i + 2 + |c| + |e|;
    SpelledParts(g, i, ["set"], c + (["<"] + (e + [">"])));
    SpelledParts(g, i + 1, c, ["<"] + (e + [">"]));
    SpelledParts(g, a, ["<"], e + [">"]);
    SpelledParts(g, a + 1, e, [">"]);
    SpelledAt(g, i, ["set"], 0);
    SpelledAt(g, a, ["<"], 0);
    SpelledAt(g, b, [">"], 0);
    BracketBehind(g, a);
    BracketBehind(g, b);
  }

  lemma SetIs(t: Type)
    requires t.SetOf?
    ensures KindWords(t) == ["set"] + (CppWords(t.cpp) + (["<"] + (TypeWords(t.elem) + [">"])))
    ensures |KindWords(t)| == 3 + |CppWords(t.cpp)| + |TypeWords(t.elem)|
    ensures KindShape(t) == Branch(CONTAINER_TYPE, [SetShape(TypeShape(t.elem), t.cpp)])
  {
  }

  lemma {:induction false} SetReads(g: Page, t: Type, i: nat)
    requires 0 < i && Laid(g) && t.SetOf? && FineType(t) && Spelled(g, i, KindWords(t)) && i + |KindWords(t)| < |g.on|
    ensures Reads(g, Alt(Kinds()), i, i + |KindWords(t)|, [KindShape(t)])
    decreases t, 0
  {
    hide Reads, Denies, Laid, BehindType, FineNotes, FineCpp, Spelled, SetShape, KindWords, TypeWords, KindShape, TypeShape, CppWords,
         CppShape, WordIsAt, Alt;
    var e := t.elem;
    var a := i + 1 + |CppWords(t.cpp)|;
    var b := a + 1 + |TypeWords(e)|;
    SetIs(t);
    SetOpened(g, i, CppWords(t.cpp), TypeWords(e));
    NoCppWords(t.cpp);
    CppPart(g, t.cpp, i + 1);
    TypeReads(g, e, a + 1);
    SetFrom(g, i, a, b, TypeShape(e), t.cpp);
    NotBefore(g, i);
    ContainerReads(g, 1, i, b + 1, SetShape(TypeShape(e), t.cpp));
  }

  lemma MapOpened(g: Page, i: nat, c: seq<string>, k: seq<string>, e: seq<string>)
    requires Laid(g) && Spelled(g, i, ["map"] + (c + (["<"] + (k + ([","] + (e + [">"]))))))
    ensures var a, b, d := i + 1 + |c|, i + 2 + |c| + |k|, i + 3 + |c| + |k| + |e|;
            && d < |g.words| && g.words[i] == "map" && g.words[a] == "<" && g.words[b] == "," && g.words[d] == ">"
            && Spelled(g, i + 1, c) && Spelled(g, a + 1, k) && Spelled(g, b + 1, e)
            && BehindType(g, b) && BehindType(g, d) && !WordIsAt(g, a, "cpp_type")
  {
    hide Laid, BehindType, Spelled, WordIsAt;
    var a := i + 1 + |c|;
    MapAndKey(g, i, c, k + ([","] + (e + [">"])));
    KeyAndElem(g, a + 1, k, e);
    BracketBehind(g, a);
    BracketBehind(g, a + 1 + |k|);
    BracketBehind(g, a + 2 + |k| + |e|);
  }

  lemma MapAndKey(g: Page, i: nat, c: seq<string>, rest: seq<string>)
    requires Spelled(g, i, ["map"] + (c + (["<"] + rest)))
    ensures var a := i + 1 + |c|;
            a < |g.words| && g.words[i] == "map" && g.words[a] == "<" && Spelled(g, i + 1, c) && Spelled(g, a + 1, rest)
  {
    hide Spelled;
    var a := i + 1 + |c|;
    SpelledParts(g, i, ["map"], c + (["<"] + rest));
    SpelledParts(g, i + 1, c, ["<"] + rest);
    SpelledParts(g, a, ["<"], rest);
    SpelledAt(g, i, ["map"], 0);
    SpelledAt(g, a, ["<"], 0);
  }

  lemma KeyAndElem(g: Page, i: nat, k: seq<string>, e: seq<string>)
    requires Spelled(g, i, k + ([","] + (e + [">"])))
    ensures var b, d := i + |k|, i + 1 + |k| + |e|;
            d < |g.words| && g.words[b] == "," && g.words[d] == ">" && Spelled(g, i, k) && Spelled(g, b + 1, e)
  {
    hide Spelled;
    var b, d := i + |k|, i + 1 + |k| + |e|;
    SpelledParts(g, i, k, [","] + (e + [">"]));
    SpelledParts(g, b, [","], e + [">"]);
    SpelledParts(g, b + 1, e, [">"]);
    SpelledAt(g, b, [","], 0);
    SpelledAt(g, d, [">"], 0);
  }

  lemma MapIs(t: Type)
    requires t.MapOf?
    ensures KindWords(t) == ["map"] + (CppWords(t.cpp) + (["<"] + (TypeWords(t.key) + ([","] + (TypeWords(t.elem) + [">"])))))
    ensures |KindWords(t)| == 4 + |CppWords(t.cpp)| + |TypeWords(t.key)| + |TypeWords(t.elem)|
    ensures KindShape(t) == Branch(CONTAINER_TYPE, [MapShape(TypeShape(t.key), TypeShape(t.elem), t.cpp)])
  {
  }

  lemma {:induction false} MapReads(g: Page, t: Type, i: nat)
    requires 0 < i && Laid(g) && t.MapOf? && FineType(t) && Spelled(g, i, KindWords(t)) && i + |KindWords(t)| < |g.on|
    ensures Reads(g, Alt(Kinds()), i, i + |KindWords(t)|, [KindShape(t)])
    decreases t, 0
  {
    hide Reads, Denies, Laid, BehindType, FineNotes, FineCpp, Spelled, MapShape, KindWords, TypeWords, KindShape, TypeShape, CppWords,
         CppShape, WordIsAt, Alt;
    var k, e := t.key, t.elem;
    var a := i + 1 + |CppWords(t.cpp)|;
    var b := a + 1 + |TypeWords(k)|;
    var d := b + 1 + |TypeWords(e)|;
    MapIs(t);
    MapOpened(g, i, CppWords(t.cpp), TypeWords(k), TypeWords(e));
    NoCppWords(t.cpp);
    CppPart(g, t.cpp, i + 1);
    TypeReads(g, k, a + 1);
    TypeReads(g, e, b + 1);
    MapFrom(g, i, a, b, d, TypeShape(k), TypeShape(e), t.cpp);
    ContainerReads(g, 0, i, d + 1, MapShape(TypeShape(k), TypeShape(e), t.cpp));
  }

  // ----- values -----

  function Forms(): seq<Expr> {
    [Call(DOUBLE_CONSTANT), Call(INT_CONSTANT), Call(LITERAL), Call(IDENTIFIER), Call(CONST_LIST), Call(CONST_MAP)]
  }

  function ListItem(): Expr {
    Cat(Call(CONST_VALUE), Opt(Call(LIST_SEPARATOR)))
  }

  function ListForm(): seq<Expr> {
    [Call(LBRK), Star(ListItem()), Call(RBRK)]
  }

  function MapForm(): seq<Expr> {
    [Call(LWING), Star(ConstPair()), Call(RWING)]
  }

  function PairParts(): seq<Expr> {
    [Call(CONST_VALUE), Call(COLON), Call(CONST_VALUE), Opt(Call(LIST_SEPARATOR))]
  }

  lemma ValueRules()
    ensures Thrift(CONST_VALUE) == Alt(Forms()) && Thrift(CONST_LIST) == Seq(ListForm()) && Thrift(CONST_MAP) == Seq(MapForm())
    ensures ConstPair() == Seq(PairParts())
  {
    hide Seq, Alt;
  }

  /** What a value does not begin with. */
  predicate OpensNothing(c: nat) {
    NoNumber(c) && !Letter(c) && c != '"' as nat && c != '\'' as nat && c != '[' as nat && c != '{' as nat
  }

  lemma FormsDeny(g: Page, i: nat)
    requires i < |g.on|
    ensures NoNumber(First(g, i)) ==> Denies(g, Call(DOUBLE_CONSTANT), i) && Denies(g, Call(INT_CONSTANT), i)
    ensures First(g, i) != '"' as nat && First(g, i) != '\'' as nat ==> Denies(g, Call(LITERAL), i)
    ensures !Letter(First(g, i)) ==> Denies(g, Call(IDENTIFIER), i)
    ensures First(g, i) != '[' as nat ==> Denies(g, Call(CONST_LIST), i)
    ensures First(g, i) != '{' as nat ==> Denies(g, Call(CONST_MAP), i)
    ensures OpensNothing(First(g, i)) ==> Denies(g, Call(CONST_VALUE), i)
  {
    hide Reads, Denies, First, Seq, Alt, Thrift, SYMBOLS, WORDS;
    var c := First(g, i);
    KeyWords();
    ValueRules();
    if NoNumber(c) {
      NumberDenies(g, i);
    }
    if c != '"' as nat && c != '\'' as nat {
      QuoteDenies(g, i);
    }
    if !Letter(c) {
      NameDenies(g, i);
    }
    if c != '[' as nat {
      SymbolDenies(g, LBRK, i);
      SeqRuleDenies(g, CONST_LIST, ListForm(), [i], []);
    }
    if c != '{' as nat {
      SymbolDenies(g, LWING, i);
      SeqRuleDenies(g, CONST_MAP, MapForm(), [i], []);
    }
    if OpensNothing(c) {
      AltRuleDenies(g, CONST_VALUE, Forms(), i);
    }
  }

  lemma FractionBegins(sign: string, a: string, b: string, p: Power)
    requires IsSign(sign) && Digits(a) && Digits(b) && FinePower(a, b, p)
    ensures FractionWord(sign, a, b, p) != ""
    ensures !NoNumber(FractionWord(sign, a, b, p)[0] as nat)
  {
    var w := FractionWord(sign, a, b, p);
    if sign == "" && a != "" {
      assert w[0] == a[0];
    } else if sign == "" {
      assert w[0] == '.';
    }
  }

  /** The parser takes a number with an exponent for its exponent: what is taken is what is written
      if and only if there is no exponent. */
  lemma ExponentAlone(v: Value)
    requires v.Fraction? && FineValue(v)
    ensures FractionText(v) == ValueWords(v)[0] <==> v.power.NoPower?
  {
    var p := v.power;
    if p.Power? {
      assert |ValueWords(v)[0]| > |p.digits|;
    }
  }

  lemma FractionReads(g: Page, v: Value, i: nat)
    requires Laid(g) && v.Fraction? && FineValue(v) && 0 < i < |g.words| && g.words[i] == ValueWords(v)[0]
    ensures Reads(g, Call(DOUBLE_CONSTANT), i, i + 1, [FormShape(v)])
  {
    hide Reads, Laid;
    var p := v.power;
    if p.NoPower? {
      DoubleReads(g, i, v.sign, v.whole, v.part);
    } else {
      PowerReads(g, i, v.sign, v.whole, v.part, p.mark, p.digits);
    }
  }

  lemma ValueBegins(g: Page, v: Value, i: nat)
    requires Laid(g) && FineValue(v) && Spelled(g, i, ValueWords(v))
    ensures First(g, i) != ',' as nat && First(g, i) != ';' as nat
  {
    hide Laid;
    SpelledAt(g, i, ValueWords(v), 0);
    FirstIs(g, i);
    match v
    case Fraction(sign, a, b, p) => FractionBegins(sign, a, b, p);
    case _ =>
  }

  /** The n-th form of values, if no form before it begins here. */
  lemma FormReads(g: Page, n: nat, i: nat, j: nat, shape: Shape)
    requires n < 6 && Reads(g, Forms()[n], i, j, [shape]) && forall k :: 0 <= k < n ==> Denies(g, Forms()[k], i)
    ensures Reads(g, Call(CONST_VALUE), i, j, [Branch(CONST_VALUE, [shape])])
  {
    hide Reads, Denies, Thrift, Alt;
    ValueRules();
    AltRuleReads(g, CONST_VALUE, Forms(), n, i, j, [shape]);
  }

  lemma FirstOfValue(g: Page, v: Value, i: nat)
    requires Laid(g) && FineValue(v) && Spelled(g, i, ValueWords(v))
    ensures i < |g.words| && i < |g.on| && g.words[i] == ValueWords(v)[0] != "" && First(g, i) == g.words[i][0] as nat
  {
    hide Laid, Spelled, First;
    SpelledAt(g, i, ValueWords(v), 0);
    FirstIs(g, i);
    WordStands(g, i);
  }

  /** Numbers and quoted texts are taken for what they are, in the order of the alternatives. */
  lemma WordReads(g: Page, v: Value, i: nat)
    requires 0 < i && Laid(g) && FineValue(v) && Spelled(g, i, ValueWords(v)) && !v.Items? && !v.Pairs?
    ensures Reads(g, Call(CONST_VALUE), i, i + 1, [ValueShape(v)])
  {
    hide Reads, Denies, Laid, First, Spelled;
    FirstOfValue(g, v, i);
    FormsDeny(g, i);
    match v
    case Fraction(sign, a, b, p) =>
      FractionReads(g, v, i);
      FormReads(g, 0, i, i + 1, FormShape(v));
    case Number(a) =>
      IntegerReads(g, i);
      FormReads(g, 1, i, i + 1, FormShape(v));
    case Quoted(c, s) =>
      QuoteReads(g, i, c, s);
      FormReads(g, 2, i, i + 1, FormShape(v));
    case Name(s) =>
      NameReads(g, i);
      FormReads(g, 3, i, i + 1, FormShape(v));
  }

  /** The words of a value are read as that value. */
  lemma {:induction false} ValueReads(g: Page, v: Value, i: nat)
    requires 0 < i && Laid(g) && FineValue(v) && Spelled(g, i, ValueWords(v))
    ensures Reads(g, Call(CONST_VALUE), i, i + |ValueWords(v)|, [ValueShape(v)])
    decreases v, 1
  {
    hide Reads, Denies, Laid, First, Spelled, Flat, ItemsWords, PairsWords, ItemShapes, PairShapes;
    match v
    case Items(vs) =>
      FirstOfValue(g, v, i);
      FormsDeny(g, i);
      ListFormReads(g, vs, i);
      FormReads(g, 4, i, i + |ValueWords(v)|, FormShape(v));
    case Pairs(ps) =>
      FirstOfValue(g, v, i);
      FormsDeny(g, i);
      MapFormReads(g, ps, i);
      FormReads(g, 5, i, i + |ValueWords(v)|, FormShape(v));
    case _ => WordReads(g, v, i);
  }

  lemma Bracketed(g: Page, i: nat, open: string, inner: seq<string>, close: string)
    requires Laid(g) && Spelled(g, i, [open] + (inner + [close])) && close != ""
    ensures i + 1 + |inner| < |g.words| && g.words[i] == open && g.words[i + 1 + |inner|] == close
    ensures Spelled(g, i + 1, inner) && First(g, i + 1 + |inner|) == close[0] as nat
  {
    hide Laid, Spelled, First;
    SpelledParts(g, i, [open], inner + [close]);
    SpelledParts(g, i + 1, inner, [close]);
    SpelledAt(g, i, [open], 0);
    SpelledAt(g, i + 1 + |inner|, [close], 0);
    FirstIs(g, i + 1 + |inner|);
  }

  lemma {:induction false} ListFormReads(g: Page, vs: seq<Item>, i: nat)
    requires 0 < i && Laid(g) && FineValue(Items(vs)) && Spelled(g, i, ["["] + (ItemsWords(vs) + ["]"]))
    ensures Reads(g, Call(CONST_LIST), i, i + 2 + |ItemsWords(vs)|, [Branch(CONST_LIST, Flat([Sym(LBRK), ItemShapes(vs), Sym(RBRK)]))])
    decreases vs, 1
  {
    hide Reads, Denies, Laid, First, Spelled, Thrift, Seq, Flat, SYMBOLS, WORDS, ItemsWords, ItemShapes, ListItem;
    var end := i + 1 + |ItemsWords(vs)|;
    Bracketed(g, i, "[", ItemsWords(vs), "]");
    KeyWords();
    SymbolReads(g, LBRK, i);
    SymbolReads(g, RBRK, end);
    WordStands(g, end);
    ItemsRead(g, vs, i + 1);
    ValueRules();
    SeqRuleReads(g, CONST_LIST, ListForm(), [i, i + 1, end, end + 1], [Sym(LBRK), ItemShapes(vs), Sym(RBRK)]);
  }

  lemma ItemsParts(g: Page, vs: seq<Item>, i: nat)
    requires vs != [] && Spelled(g, i, ItemsWords(vs))
    ensures var a := |ValueWords(vs[0].value)|; var b := |SeparatorWords(vs[0].sep)|;
            && Spelled(g, i, ValueWords(vs[0].value)) && Spelled(g, i + a, SeparatorWords(vs[0].sep))
            && Spelled(g, i + a + b, ItemsWords(vs[1..])) && |ItemsWords(vs)| == a + b + |ItemsWords(vs[1..])|
  {
    hide Spelled, ValueWords, SeparatorWords;
    SpelledParts(g, i, ValueWords(vs[0].value) + SeparatorWords(vs[0].sep), ItemsWords(vs[1..]));
    SpelledParts(g, i, ValueWords(vs[0].value), SeparatorWords(vs[0].sep));
  }

  /** Items do not begin with a separator, nor does what is behind them. */
  lemma ItemsBegin(g: Page, vs: seq<Item>, i: nat)
    requires Laid(g) && FineValue(Items(vs)) && Spelled(g, i, ItemsWords(vs)) && First(g, i + |ItemsWords(vs)|) == ']' as nat
    ensures First(g, i) != ',' as nat && First(g, i) != ';' as nat
  {
    hide Laid, First, Spelled, ValueWords;
    if vs != [] {
      assert FineItem(vs[0]);
      ItemsParts(g, vs, i);
      ValueBegins(g, vs[0].value, i);
    }
  }

  lemma {:induction false} ItemsRead(g: Page, vs: seq<Item>, i: nat)
    requires 0 < i && Laid(g) && FineValue(Items(vs)) && Spelled(g, i, ItemsWords(vs)) && First(g, i + |ItemsWords(vs)|) == ']' as nat
    requires i + |ItemsWords(vs)| < |g.on|
    ensures Reads(g, Star(ListItem()), i, i + |ItemsWords(vs)|, ItemShapes(vs))
    decreases vs, 0
  {
    hide Reads, Denies, Laid, First, Spelled, SeparatorWords, SeparatorShape, ValueShape, ValueWords;
    if vs == [] {
      FormsDeny(g, i);
      CatDenies(g, Call(CONST_VALUE), Opt(Call(LIST_SEPARATOR)), i);
      StarPasses(g, ListItem(), i);
    } else {
      assert FineItem(vs[0]);
      ItemsParts(g, vs, i);
      var v, sep, end := vs[0].value, vs[0].sep, i + |ItemsWords(vs)|;
      var a := i + |ValueWords(v)|;
      var b := a + |SeparatorWords(sep)|;
      assert forall k :: 0 <= k < |vs[1..]| ==> vs[1..][k] == vs[k + 1];
      ValueReads(g, v, i);
      ItemsBegin(g, vs[1..], b);
      NoSeparator(sep);
      SeparatorPart(g, a, sep);
      CatReads(g, Call(CONST_VALUE), Opt(Call(LIST_SEPARATOR)), i, a, b, [ValueShape(v)], SeparatorShape(sep));
      ItemsRead(g, vs[1..], b);
      StarReads(g, ListItem(), i, b, end, [ValueShape(v)] + SeparatorShape(sep), ItemShapes(vs[1..]));
    }
  }

  lemma NoSeparator(sep: string)
    ensures |SeparatorWords(sep)| == if sep == "" then 0 else 1
  {
  }

  lemma {:induction false} MapFormReads(g: Page, ps: seq<Pair>, i: nat)
    requires 0 < i && Laid(g) && FineValue(Pairs(ps)) && Spelled(g, i, ["{"] + (PairsWords(ps) + ["}"]))
    ensures Reads(g, Call(CONST_MAP), i, i + 2 + |PairsWords(ps)|, [Branch(CONST_MAP, Flat([Sym(LWING), PairShapes(ps), Sym(RWING)]))])
    decreases ps, 1
  {
    hide Reads, Denies, Laid, First, Spelled, Thrift, Seq, Flat, SYMBOLS, WORDS, PairsWords, PairShapes, ConstPair;
    var end := i + 1 + |PairsWords(ps)|;
    Bracketed(g, i, "{", PairsWords(ps), "}");
    KeyWords();
    SymbolReads(g, LWING, i);
    SymbolReads(g, RWING, end);
    WordStands(g, end);
    PairsRead(g, ps, i + 1);
    ValueRules();
    SeqRuleReads(g, CONST_MAP, MapForm(), [i, i + 1, end, end + 1], [Sym(LWING), PairShapes(ps), Sym(RWING)]);
  }

  lemma PairsParts(g: Page, ps: seq<Pair>, i: nat)
    requires ps != [] && Spelled(g, i, PairsWords(ps))
    ensures Spelled(g, i, PairWords(ps[0])) && Spelled(g, i + |PairWords(ps[0])|, PairsWords(ps[1..]))
    ensures |PairsWords(ps)| == |PairWords(ps[0])| + |PairsWords(ps[1..])|
  {
    hide Spelled, PairWords;
    SpelledParts(g, i, PairWords(ps[0]), PairsWords(ps[1..]));
  }

  lemma PairIsSpelled(g: Page, p: Pair, i: nat)
    requires Laid(g) && Spelled(g, i, PairWords(p))
    ensures var a := |ValueWords(p.key)|; var b := |ValueWords(p.value)|;
            && Spelled(g, i, ValueWords(p.key)) && i + a < |g.words| && g.words[i + a] == ":"
            && Spelled(g, i + a + 1, ValueWords(p.value)) && Spelled(g, i + a + 1 + b, SeparatorWords(p.sep))
            && |PairWords(p)| == a + 1 + b + |SeparatorWords(p.sep)|
  {
    hide Laid, Spelled, ValueWords, SeparatorWords;
    var a := |ValueWords(p.key)|;
    SpelledParts(g, i, ValueWords(p.key), [":"] + (ValueWords(p.value) + SeparatorWords(p.sep)));
    SpelledParts(g, i + a, [":"], ValueWords(p.value) + SeparatorWords(p.sep));
    SpelledParts(g, i + a + 1, ValueWords(p.value), SeparatorWords(p.sep));
    SpelledAt(g, i + a, [":"], 0);
  }

  lemma PairsBegin(g: Page, ps: seq<Pair>, i: nat)
    requires Laid(g) && FineValue(Pairs(ps)) && Spelled(g, i, PairsWords(ps)) && First(g, i + |PairsWords(ps)|) == '}' as nat
    ensures First(g, i) != ',' as nat && First(g, i) != ';' as nat
  {
    hide Laid, First, Spelled, ValueWords, PairWords;
    if ps != [] {
      assert FinePair(ps[0]);
      PairsParts(g, ps, i);
      PairIsSpelled(g, ps[0], i);
      ValueBegins(g, ps[0].key, i);
    }
  }

  lemma {:induction false} PairsRead(g: Page, ps: seq<Pair>, i: nat)
    requires 0 < i && Laid(g) && FineValue(Pairs(ps)) && Spelled(g, i, PairsWords(ps)) && First(g, i + |PairsWords(ps)|) == '}' as nat
    requires i + |PairsWords(ps)| < |g.on|
    ensures Reads(g, Star(ConstPair()), i, i + |PairsWords(ps)|, PairShapes(ps))
    decreases ps, 0
  {
    hide Reads, Denies, Laid, First, Spelled, Seq, PairWords, PairShape;
    ValueRules();
    if ps == [] {
      FormsDeny(g, i);
      SeqDenies(g, PairParts(), [i], []);
      StarPasses(g, ConstPair(), i);
    } else {
      assert FinePair(ps[0]);
      PairsParts(g, ps, i);
      var mid := i + |PairWords(ps[0])|;
      assert forall k :: 0 <= k < |ps[1..]| ==> ps[1..][k] == ps[k + 1];
      PairsBegin(g, ps[1..], mid);
      PairReads(g, ps[0], i);
      PairsRead(g, ps[1..], mid);
      StarReads(g, ConstPair(), i, mid, i + |PairsWords(ps)|, PairShape(ps[0]), PairShapes(ps[1..]));
    }
  }

  lemma {:induction false} PairReads(g: Page, p: Pair, i: nat)
    requires 0 < i && Laid(g) && FinePair(p) && Spelled(g, i, PairWords(p))
    requires First(g, i + |PairWords(p)|) != ',' as nat && First(g, i + |PairWords(p)|) != ';' as nat
    ensures Reads(g, ConstPair(), i, i + |PairWords(p)|, PairShape(p))
    decreases p, 2
  {
    hide Reads, Laid, First, Spelled, Seq, Flat, ValueWords, ValueShape, PairWords, SeparatorWords, SeparatorShape, SYMBOLS, WORDS;
    PairIsSpelled(g, p, i);
    var a := i + |ValueWords(p.key)|;
    var b := a + 1 + |ValueWords(p.value)|;
    ValueReads(g, p.key, i);
    ValueReads(g, p.value, a + 1);
    KeyWords();
    SymbolReads(g, COLON, a);
    NoSeparator(p.sep);
    SeparatorPart(g, b, p.sep);
    ValueRules();
    SeqReads(g, PairParts(), [i, a, a + 1, b, i + |PairWords(p)|],
             [[ValueShape(p.key)], Sym(COLON), [ValueShape(p.value)], SeparatorShape(p.sep)]);
  }
}
