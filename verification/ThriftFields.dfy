/** Fields of Thrift texts: the words of a field are read back as that field, with its id, whether it
    is required, its type, its name and its default value. */
module ThriftFields {
  import opened Wrappers
  import opened TokenTree
  import opened PegParser
  import opened ThriftGrammar
  import opened ThriftShapes
  import opened ThriftBlanks
  import opened ThriftLexemes
  import opened ThriftPages
  import opened ThriftTexts

  /** A number behind a name or before a colon, if there is one. */
  datatype Integer = NoInteger | Integer(digits: string)

  datatype Field = Field(id: Integer, need: string, typ: Type, name: string, default: Option<Value>, notes: Notes, sep: string)

  predicate FineInteger(n: Integer) {
    n.Integer? ==> IsInteger(n.digits)
  }

  predicate IsNeed(s: string) {
    s == "" || s == "required" || s == "optional"
  }

  predicate FineField(f: Field) {
    && FineInteger(f.id) && IsNeed(f.need) && FineType(f.typ) && GoodName(f.name)
    && (f.default.Some? ==> FineValue(f.default.value)) && FineNotes(f.notes) && IsSeparator(f.sep)
  }

  predicate FineFields(fs: seq<Field>) {
    forall i :: 0 <= i < |fs| ==> FineField(fs[i])
  }

  // ----- their words -----

  function IdWords(n: Integer): seq<string> {
    if n.NoInteger? then [] else [n.digits, ":"]
  }

  function NeedWords(s: string): seq<string> {
    if s == "" then [] else [s]
  }

  function DefaultWords(d: Option<Value>): seq<string> {
    if d.None? then [] else ["="] + ValueWords(d.value)
  }

  function FieldWords(f: Field): seq<string> {
    IdWords(f.id) + (NeedWords(f.need) + (TypeWords(f.typ) + ([f.name] + (DefaultWords(f.default) + (NotesWords(f.notes) + SeparatorWords(f.sep))))))
  }

  function FieldsWords(fs: seq<Field>): seq<string> {
    if fs == [] then [] else FieldWords(fs[0]) + FieldsWords(fs[1..])
  }

  // ----- the trees that are expected -----

  function IntegerShape(n: Integer): seq<Shape> {
    if n.NoInteger? then [] else [Branch(INT_CONSTANT, [Leaf(Codes(n.digits))])]
  }

  function IdShape(n: Integer): seq<Shape> {
    if n.NoInteger? then [] else [Branch(FIELD_ID, Flat([[], IntegerShape(n), Sym(COLON), []]))]
  }

  function NeedShape(s: string): seq<Shape> {
    if s == "" then [] else [Branch(FIELD_REQ, [Leaf(Codes(s))])]
  }

  function DefaultShape(d: Option<Value>): seq<Shape> {
    if d.None? then [] else Sym(EQUAL) + [ValueShape(d.value)]
  }

  function FieldShape(f: Field): Shape {
    Branch(FIELD, Flat([[], [], IdShape(f.id), NeedShape(f.need), [TypeShape(f.typ)], [NameShape(f.name)],
                        DefaultShape(f.default), NotesShape(f.notes), SeparatorShape(f.sep), [], []]))
  }

  function FieldShapes(fs: seq<Field>): seq<Shape> {
    if fs == [] then [] else [FieldShape(fs[0])] + FieldShapes(fs[1..])
  }

  // ----- rules -----

  function FieldParts(): seq<Expr> {
    [Call(RESERVED_COMMENTS), Call(SKIP), Opt(Call(FIELD_ID)), Opt(Call(FIELD_REQ)), Call(FIELD_TYPE), Call(IDENTIFIER),
     Opt(Default()), Opt(Call(ANNOTATIONS)), Opt(Call(LIST_SEPARATOR)), Call(RESERVED_END_LINE_COMMENTS), Call(SKIP_LINE)]
  }

  function Default(): Expr {
    Cat(Call(EQUAL), Call(CONST_VALUE))
  }

  function IdParts(): seq<Expr> {
    [Call(SKIP), Call(INT_CONSTANT), Call(COLON), Star(Call(INDENT))]
  }

  function Needs(): seq<Expr> {
    [Text("required"), Text("optional")]
  }

  lemma FieldRules()
    ensures Thrift(FIELD) == Seq(FieldParts()) && Thrift(FIELD_ID) == Seq(IdParts())
    ensures Thrift(FIELD_REQ) == Spaced(ThriftGrammar.Take(Alt(Needs())))
    ensures SYMBOLS[EQUAL - LBRK] == '=' && SYMBOLS[COLON - LBRK] == ':'
  {
    hide Seq, Alt, Text, Spaced;
  }

  // ----- ids -----

  lemma NoId(g: Page, i: nat)
    requires i < |g.on| && NoNumber(First(g, i))
    ensures Reads(g, Opt(Call(FIELD_ID)), i, i, [])
  {
    hide Reads, Denies, First, Seq, Thrift;
    FieldRules();
    SkipReads(g, i);
    NumberDenies(g, i);
    SeqRuleDenies(g, FIELD_ID, IdParts(), [i, i], [[]]);
    OptPasses(g, Call(FIELD_ID), i);
  }

  lemma IdPart(g: Page, n: Integer, i: nat)
    requires 0 < i && Laid(g) && FineInteger(n) && Spelled(g, i, IdWords(n)) && i < |g.on| && (n.NoInteger? ==> NoNumber(First(g, i)))
    ensures Reads(g, Opt(Call(FIELD_ID)), i, i + |IdWords(n)|, IdShape(n))
  {
    hide Reads, Laid, First, Seq, Thrift, Flat, SYMBOLS;
    if n.NoInteger? {
      NoId(g, i);
    } else {
      SpelledAt(g, i, IdWords(n), 0);
      SpelledAt(g, i, IdWords(n), 1);
      WordStands(g, i + 1);
      FieldRules();
      SkipReads(g, i);
      IntegerReads(g, i);
      SymbolReads(g, COLON, i + 1);
      SkipReads(g, i + 2);
      SeqRuleReads(g, FIELD_ID, IdParts(), [i, i, i + 1, i + 2, i + 2], [[], IntegerShape(n), Sym(COLON), []]);
      OptReads(g, Call(FIELD_ID), i, i + 2, IdShape(n));
    }
  }

  // ----- what is required -----

  lemma NeedLands(buffer: seq<nat>, s: string, pos: nat, on: nat, next: nat)
    requires 0 < on && Ready(buffer, pos, on) && (s == "required" || s == "optional") && Stands(buffer, on, s, next)
    ensures Lands(buffer, Call(FIELD_REQ), pos, next, [Branch(FIELD_REQ, [Leaf(Codes(s))])])
  {
    hide Lands, Gives, Refuses, Ready, Stands, Source, Alt, Text, Thrift, Seq, Has;
    StandsIs(buffer, on, s, next);
    FieldRules();
    TextMatches(buffer, "required", on);
    TextMatches(buffer, "optional", on);
    NotBoth(buffer, on);
    if s == "required" {
      AltGives(buffer, Needs(), 0, on, on + |s|, []);
    } else {
      AltGives(buffer, Needs(), 1, on, on + |s|, []);
    }
    TakenLands(buffer, FIELD_REQ, Alt(Needs()), s, pos, on, next);
  }

  lemma NeedRefuses(buffer: seq<nat>, pos: nat, on: nat)
    requires Ready(buffer, pos, on) && !Has(buffer, on, "required") && !Has(buffer, on, "optional")
    ensures Refuses(buffer, Call(FIELD_REQ), pos)
  {
    hide Gives, Refuses, Ready, Source, Alt, Text, Thrift, Seq, Has;
    ReadyIs(buffer, pos, on);
    FieldRules();
    TextMatches(buffer, "required", on);
    TextMatches(buffer, "optional", on);
    AltRefuses(buffer, Needs(), on);
    TakenRefuses(buffer, FIELD_REQ, Alt(Needs()), pos, on);
  }

  lemma NotBoth(buffer: seq<nat>, pos: nat)
    ensures !Has(buffer, pos, "optional") || !Has(buffer, pos, "required")
  {
    var o, r := "optional"[0], "required"[0];
  }

  lemma NeedGives(g: Page, i: nat)
    requires 0 < i && Laid(g) && i < |g.words| && (g.words[i] == "required" || g.words[i] == "optional")
    ensures Reads(g, Opt(Call(FIELD_REQ)), i, i + 1, [Branch(FIELD_REQ, [Leaf(Codes(g.words[i]))])])
  {
    hide Lands, Ready, Laid;
    var s := g.words[i];
    WordStands(g, i);
    Behind(g, i);
    forall pos: nat | Ready(g.buffer, pos, g.on[i])
      ensures Lands(g.buffer, Call(FIELD_REQ), pos, g.on[i + 1], [Branch(FIELD_REQ, [Leaf(Codes(s))])])
    {
      NeedLands(g.buffer, s, pos, g.on[i], g.on[i + 1]);
    }
    OptReads(g, Call(FIELD_REQ), i, i + 1, [Branch(FIELD_REQ, [Leaf(Codes(s))])]);
  }

  lemma NoNeed(g: Page, i: nat)
    requires i < |g.on| && !Has(g.buffer, g.on[i], "required") && !Has(g.buffer, g.on[i], "optional")
    ensures Reads(g, Opt(Call(FIELD_REQ)), i, i, [])
  {
    hide Refuses, Ready, Has;
    forall pos: nat | Ready(g.buffer, pos, g.on[i])
      ensures Refuses(g.buffer, Call(FIELD_REQ), pos)
    {
      NeedRefuses(g.buffer, pos, g.on[i]);
    }
    OptPasses(g, Call(FIELD_REQ), i);
  }

  /** Where a name stands no text stands that the name does not begin with. */
  lemma NoText(g: Page, i: nat, text: string)
    requires Laid(g) && i < |g.words| && g.words[i] != "" && NameChars(g.words[i]) && IsWord(text) && !(text <= g.words[i])
    ensures i < |g.on| && !Has(g.buffer, g.on[i], text)
  {
    hide Laid, Ready;
    WordStands(g, i);
    var s := g.words[i];
    assert NameChar(s[|s| - 1] as nat);
    if |text| > |s| {
      var c := text[|s|];
    } else if Has(g.buffer, g.on[i], text) {
      Agree(g.buffer, g.on[i], text, s);
    }
  }

  lemma NeedPart(g: Page, need: string, i: nat)
    requires 0 < i && Laid(g) && IsNeed(need) && Spelled(g, i, NeedWords(need))
    requires need == "" ==> i < |g.words| && g.words[i] != "" && NameChars(g.words[i]) && !("required" <= g.words[i]) && !("optional" <= g.words[i])
    ensures Reads(g, Opt(Call(FIELD_REQ)), i, i + |NeedWords(need)|, NeedShape(need))
  {
    hide Reads, Laid, Has, Ready, NameChars;
    if need == "" {
      NeedsAreWords();
      NoText(g, i, "required");
      NoText(g, i, "optional");
      NoNeed(g, i);
    } else {
      SpelledAt(g, i, [need], 0);
      NeedGives(g, i);
    }
  }

  lemma NeedsAreWords()
    ensures IsWord("required") && IsWord("optional")
  {
  }

  // ----- types -----

  /** The first word of a type is a name that is none of the words before a type. */
  predicate TypeBegin(s: string) {
    && IsName(s) && !("required" <= s) && !("optional" <= s)
    && FreeOf(s, "oneway") && FreeOf(s, "void") && FreeOf(s, "throws")
  }

  lemma TypeBegins(t: Type)
    requires FineType(t)
    ensures TypeBegin(TypeWords(t)[0])
  {
    match t
    case Base(n, _) => BaseBegins(n);
    case Named(s, _) =>
    case ListOf(_, _, _) => OthersBegin("list");
    case SetOf(_, _, _) => OthersBegin("set");
    case MapOf(_, _, _, _) => OthersBegin("map");
  }

  lemma OthersBegin(s: string)
    requires s == "list" || s == "set" || s == "map"
    ensures TypeBegin(s)
  {
    OneIsFree(s, "oneway");
    OneIsFree(s, "void");
    OneIsFree(s, "throws");
  }

  lemma BaseBegins(n: nat)
    requires n < 9
    ensures TypeBegin(WORDS[n])
  {
    hide FreeOf;
    WordsAreWords();
    AllDifferent(n);
    assert |WORDS[n]| < 8;
  }

  lemma TypeDenies(g: Page, i: nat)
    requires i < |g.on| && !LetterOrDigit(First(g, i))
    ensures Denies(g, Call(FIELD_TYPE), i)
  {
    hide Reads, Denies, First, Seq, Alt, Thrift, WORDS, WordIsAt, IsWord;
    KeyWords();
    WordsAreWords();
    NoWord(g, i, "map");
    NoWord(g, i, "set");
    NoWord(g, i, "list");
    ContainerDenies(g, i);
    forall k | 0 <= k < 9
      ensures !WordIsAt(g, i, WORDS[k])
    {
      NoWord(g, i, WORDS[k]);
    }
    BasesDeny(g, i, 9);
    NameDenies(g, i);
    TypeRules();
    AltDenies(g, Kinds(), i);
    SeqRuleDenies(g, FIELD_TYPE, [Alt(Kinds()), Opt(Call(ANNOTATIONS))], [i], []);
  }

  lemma NameBehind(g: Page, i: nat)
    requires Laid(g) && i < |g.words| && GoodName(g.words[i])
    ensures BehindType(g, i)
  {
    hide Laid, FreeOf, WordIsAt;
    KeyWords();
    WordStands(g, i);
    FirstIs(g, i);
    OtherWord(g, i, "cpp_type");
  }

  // ----- default values -----

  lemma DefaultPart(g: Page, d: Option<Value>, i: nat)
    requires 0 < i && Laid(g) && (d.Some? ==> FineValue(d.value)) && Spelled(g, i, DefaultWords(d)) && i < |g.on|
    requires d.None? ==> First(g, i) != '=' as nat
    ensures Reads(g, Opt(Default()), i, i + |DefaultWords(d)|, DefaultShape(d))
  {
    hide Reads, Denies, Laid, First, SYMBOLS, FineValue, ValueWords, ValueShape, Thrift, Seq;
    if d.None? {
      FieldRules();
      SymbolDenies(g, EQUAL, i);
      CatDenies(g, Call(EQUAL), Call(CONST_VALUE), i);
      OptPasses(g, Default(), i);
    } else {
      DefaultReads(g, d.value, i);
    }
  }

  lemma DefaultReads(g: Page, v: Value, i: nat)
    requires 0 < i && Laid(g) && FineValue(v) && Spelled(g, i, ["="] + ValueWords(v))
    ensures Reads(g, Opt(Default()), i, i + 1 + |ValueWords(v)|, Sym(EQUAL) + [ValueShape(v)])
  {
    hide Reads, Laid, SYMBOLS, Spelled, FineValue, ValueWords, ValueShape, Thrift, Seq;
    var end := i + 1 + |ValueWords(v)|;
    SpelledParts(g, i, ["="], ValueWords(v));
    SpelledAt(g, i, ["="], 0);
    FieldRules();
    SymbolReads(g, EQUAL, i);
    ValueReads(g, v, i + 1);
    CatReads(g, Call(EQUAL), Call(CONST_VALUE), i, i + 1, end, Sym(EQUAL), [ValueShape(v)]);
    OptReads(g, Default(), i, end, Sym(EQUAL) + [ValueShape(v)]);
  }

  // ----- fields -----

  /** What comes next is taken for no part of what is before. */
  predicate Calm(c: nat) {
    c != '=' as nat && c != '(' as nat && c != ',' as nat && c != ';' as nat
  }

  lemma SeparatorFirst(g: Page, sep: string, i: nat)
    requires Laid(g) && IsSeparator(sep) && Spelled(g, i, SeparatorWords(sep)) && Calm(First(g, i + |SeparatorWords(sep)|))
    ensures First(g, i) != '=' as nat && First(g, i) != '(' as nat
    ensures sep == "" ==> First(g, i) != ',' as nat && First(g, i) != ';' as nat
  {
    hide Laid, First;
    if sep != "" {
      SpelledAt(g, i, [sep], 0);
      FirstIs(g, i);
    }
  }

  lemma DefaultFirst(g: Page, d: Option<Value>, i: nat)
    requires Laid(g) && Spelled(g, i, DefaultWords(d)) && First(g, i + |DefaultWords(d)|) != '=' as nat
    ensures d.None? ==> First(g, i) != '=' as nat
  {
  }

  lemma SixParts(g: Page, i: nat, p: seq<string>, q: seq<string>, t: seq<string>, name: string, d: seq<string>, s: seq<string>)
    requires Spelled(g, i, p + (q + (t + ([name] + (d + s))))) && t != []
    ensures var a := i + |p|; var b := a + |q|; var c := b + |t|;
            && Spelled(g, i, p) && Spelled(g, a, q) && Spelled(g, b, t) && c < |g.words| && g.words[c] == name
            && Spelled(g, c + 1, d) && Spelled(g, c + 1 + |d|, s) && b < |g.words| && g.words[b] == t[0]
  {
    hide Spelled;
    var rest := [name] + (d + s);
    SpelledParts(g, i, p, q + (t + rest));
    SpelledParts(g, i + |p|, q, t + rest);
    FourParts(g, i + |p| + |q|, t, name, d, s);
  }

  lemma FourParts(g: Page, b: nat, t: seq<string>, name: string, d: seq<string>, s: seq<string>)
    requires Spelled(g, b, t + ([name] + (d + s))) && t != []
    ensures var c := b + |t|;
            && Spelled(g, b, t) && c < |g.words| && g.words[c] == name && Spelled(g, c + 1, d) && Spelled(g, c + 1 + |d|, s)
            && b < |g.words| && g.words[b] == t[0]
  {
    hide Spelled;
    var c := b + |t|;
    SpelledParts(g, b, t, [name] + (d + s));
    SpelledParts(g, c, [name], d + s);
    SpelledParts(g, c + 1, d, s);
    SpelledAt(g, c, [name], 0);
    SpelledAt(g, b, t, 0);
  }

  /** Where the parts of a field are. */
  lemma FieldSpelled(g: Page, f: Field, i: nat)
    requires Laid(g) && Spelled(g, i, FieldWords(f))
    ensures var a := i + |IdWords(f.id)|; var b := a + |NeedWords(f.need)|; var c := b + |TypeWords(f.typ)|;
            var d := c + 1 + |DefaultWords(f.default)|; var e := d + |NotesWords(f.notes)|;
            && Spelled(g, i, IdWords(f.id)) && Spelled(g, a, NeedWords(f.need)) && Spelled(g, b, TypeWords(f.typ))
            && c < |g.words| && g.words[c] == f.name && Spelled(g, c + 1, DefaultWords(f.default))
            && Spelled(g, d, NotesWords(f.notes)) && Spelled(g, e, SeparatorWords(f.sep))
            && i + |FieldWords(f)| == e + |SeparatorWords(f.sep)| < |g.on|
            && b < |g.words| && g.words[b] == TypeWords(f.typ)[0]
  {
    hide Spelled, Laid, IdWords, NeedWords, TypeWords, DefaultWords, NotesWords, SeparatorWords;
    var d := i + |IdWords(f.id)| + |NeedWords(f.need)| + |TypeWords(f.typ)| + 1 + |DefaultWords(f.default)|;
    SixParts(g, i, IdWords(f.id), NeedWords(f.need), TypeWords(f.typ), f.name, DefaultWords(f.default), NotesWords(f.notes) + SeparatorWords(f.sep));
    SpelledParts(g, d, NotesWords(f.notes), SeparatorWords(f.sep));
    SpelledFits(g, i, FieldWords(f));
  }

  /** A field whose parts are read from place to place. */
  lemma FieldFrom(g: Page, at: seq<nat>, id: seq<Shape>, need: seq<Shape>, typ: Shape, name: Shape, d: seq<Shape>, n: seq<Shape>, s: seq<Shape>)
    requires |at| == 8 && at[0] < |g.on| && at[7] < |g.on| && Reads(g, Opt(Call(FIELD_ID)), at[0], at[1], id)
    requires Reads(g, Opt(Call(FIELD_REQ)), at[1], at[2], need) && Reads(g, Call(FIELD_TYPE), at[2], at[3], [typ])
    requires Reads(g, Call(IDENTIFIER), at[3], at[4], [name]) && Reads(g, Opt(Default()), at[4], at[5], d)
    requires Reads(g, Opt(Call(ANNOTATIONS)), at[5], at[6], n) && Reads(g, Opt(Call(LIST_SEPARATOR)), at[6], at[7], s)
    ensures Reads(g, Call(FIELD), at[0], at[7], [Branch(FIELD, Flat([[], [], id, need, [typ], [name], d, n, s, [], []]))])
  {
    hide Reads, Seq, Thrift, Flat, Default;
    SkipReads(g, at[0]);
    SkipReads(g, at[7]);
    FieldRules();
    SeqRuleReads(g, FIELD, FieldParts(), [at[0], at[0], at[0], at[1], at[2], at[3], at[4], at[5], at[6], at[7], at[7], at[7]],
                 [[], [], id, need, [typ], [name], d, n, s, [], []]);
  }

  /** The words of a field are read as that field. */
  lemma FieldReads(g: Page, f: Field, i: nat)
    requires 0 < i && Laid(g) && FineField(f) && Spelled(g, i, FieldWords(f)) && Calm(First(g, i + |FieldWords(f)|))
    ensures Reads(g, Call(FIELD), i, i + |FieldWords(f)|, [FieldShape(f)])
  {
    hide Reads, Laid, First, Spelled, FieldWords, IdWords, NeedWords, TypeWords, DefaultWords, NotesWords, SeparatorWords, FineType, FineValue,
         FineInteger, FineNotes, GoodName, Flat, IdShape, NeedShape, TypeShape, DefaultShape, NotesShape, SeparatorShape, NameShape,
         TypeBegin, IsName, Default, BehindType, NameChars;
    FieldSpelled(g, f, i);
    var a := i + |IdWords(f.id)|;
    var b := a + |NeedWords(f.need)|;
    var c := b + |TypeWords(f.typ)|;
    var d := c + 1 + |DefaultWords(f.default)|;
    var e := d + |NotesWords(f.notes)|;
    FieldStarts(g, f, i);
    IdPart(g, f.id, i);
    NeedPart(g, f.need, a);
    NameBehind(g, c);
    TypeReads(g, f.typ, b);
    GoodIsName(f.name);
    NameReads(g, c);
    FieldEnds(g, f, c + 1);
    FieldFrom(g, [i, a, b, c, c + 1, d, e, e + |SeparatorWords(f.sep)|], IdShape(f.id), NeedShape(f.need), TypeShape(f.typ), NameShape(f.name),
              DefaultShape(f.default), NotesShape(f.notes), SeparatorShape(f.sep));
  }

  /** A default value, annotations and a separator, if they are there. */
  lemma FieldEnds(g: Page, f: Field, i: nat)
    requires 0 < i && Laid(g) && FineField(f) && Spelled(g, i, DefaultWords(f.default)) && i < |g.on|
    requires var d := i + |DefaultWords(f.default)|; var e := d + |NotesWords(f.notes)|;
             Spelled(g, d, NotesWords(f.notes)) && Spelled(g, e, SeparatorWords(f.sep)) && Calm(First(g, e + |SeparatorWords(f.sep)|))
    ensures var d := i + |DefaultWords(f.default)|; var e := d + |NotesWords(f.notes)|;
            && Reads(g, Opt(Default()), i, d, DefaultShape(f.default)) && Reads(g, Opt(Call(ANNOTATIONS)), d, e, NotesShape(f.notes))
            && Reads(g, Opt(Call(LIST_SEPARATOR)), e, e + |SeparatorWords(f.sep)|, SeparatorShape(f.sep))
  {
    hide Reads, Laid, First, Spelled, NotesWords, SeparatorWords, FineValue, FineType, FineInteger, GoodName, SeparatorShape, Default, NotesShape,
         FineNotes;
    var d := i + |DefaultWords(f.default)|;
    NotesEnd(g, f.notes, f.sep, d);
    DefaultFirst(g, f.default, i);
    DefaultPart(g, f.default, i);
  }

  /** Annotations and a separator, if they are there. */
  lemma NotesEnd(g: Page, notes: Notes, sep: string, i: nat)
    requires 0 < i && Laid(g) && FineNotes(notes) && IsSeparator(sep) && Spelled(g, i, NotesWords(notes))
    requires var e := i + |NotesWords(notes)|; Spelled(g, e, SeparatorWords(sep)) && Calm(First(g, e + |SeparatorWords(sep)|))
    ensures var e := i + |NotesWords(notes)|;
            && Reads(g, Opt(Call(ANNOTATIONS)), i, e, NotesShape(notes))
            && Reads(g, Opt(Call(LIST_SEPARATOR)), e, e + |SeparatorWords(sep)|, SeparatorShape(sep))
    ensures First(g, i) != '=' as nat
  {
    hide Reads, Laid, First, Spelled, NotesWords, SeparatorWords, SeparatorShape, NotesShape, FineNotes;
    var e := i + |NotesWords(notes)|;
    SeparatorFirst(g, sep, e);
    SpelledFits(g, i, NotesWords(notes));
    NotesFirst(g, notes, i);
    NotesPart(g, notes, i);
    SeparatorPart(g, e, sep);
  }

  lemma GoodIsName(s: string)
    requires GoodName(s)
    ensures IsName(s)
  {
  }

  lemma FieldStarts(g: Page, f: Field, i: nat)
    requires Laid(g) && FineField(f) && Spelled(g, i, FieldWords(f))
    ensures i < |g.on| && (f.id.NoInteger? ==> NoNumber(First(g, i))) && Calm(First(g, i))
    ensures f.need == "" ==>
              var a := i + |IdWords(f.id)|;
              && a < |g.words| && g.words[a] != "" && NameChars(g.words[a])
              && !("required" <= g.words[a]) && !("optional" <= g.words[a])
  {
    hide Laid, First, FineType, FineValue, FineNotes, GoodName, FieldWords, TypeWords, DefaultWords, NotesWords, SeparatorWords, FreeOf, Spelled, IsInteger;
    FieldSpelled(g, f, i);
    TypeBegins(f.typ);
    var b := i + |IdWords(f.id)| + |NeedWords(f.need)|;
    FirstIs(g, b);
    if f.id.Integer? {
      IntegerStarts(f.id.digits);
      SpelledAt(g, i, IdWords(f.id), 0);
      FirstIs(g, i);
    } else if f.need != "" {
      SpelledAt(g, i, NeedWords(f.need), 0);
      FirstIs(g, i);
    }
    WordStands(g, b);
  }

  /** What ends a list of fields. */
  lemma FieldDenies(g: Page, i: nat)
    requires Laid(g) && i < |g.words| && (g.words[i] == "}" || g.words[i] == ")")
    ensures Denies(g, Call(FIELD), i) && First(g, i) == g.words[i][0] as nat
  {
    hide Reads, Denies, Laid, First, Seq, Thrift, Has, Skipped;
    FirstIs(g, i);
    WordStands(g, i);
    NoId(g, i);
    NoNeedHere(g, i);
    NoNeed(g, i);
    TypeDenies(g, i);
    SkipReads(g, i);
    FieldRules();
    SeqRuleDenies(g, FIELD, FieldParts(), [i, i, i, i, i], [[], [], [], []]);
  }

  lemma NoNeedHere(g: Page, i: nat)
    requires i < |g.on| && !Letter(First(g, i))
    ensures g.on[i] < |g.buffer| ==> !Has(g.buffer, g.on[i], "required") && !Has(g.buffer, g.on[i], "optional")
  {
    var o, r := "optional"[0], "required"[0];
  }

  lemma FieldsParts(g: Page, fs: seq<Field>, i: nat)
    requires fs != [] && Spelled(g, i, FieldsWords(fs))
    ensures Spelled(g, i, FieldWords(fs[0])) && Spelled(g, i + |FieldWords(fs[0])|, FieldsWords(fs[1..]))
    ensures |FieldsWords(fs)| == |FieldWords(fs[0])| + |FieldsWords(fs[1..])|
  {
    hide Spelled, FieldWords;
    SpelledParts(g, i, FieldWords(fs[0]), FieldsWords(fs[1..]));
  }

  lemma FieldsStart(g: Page, fs: seq<Field>, i: nat)
    requires Laid(g) && FineFields(fs) && Spelled(g, i, FieldsWords(fs)) && Calm(First(g, i + |FieldsWords(fs)|))
    ensures Calm(First(g, i))
  {
    hide Laid, First, Spelled, FineField, FieldWords;
    if fs != [] {
      FieldsParts(g, fs, i);
      FieldStarts(g, fs[0], i);
    }
  }

  /** Fields one after the other, up to a closing bracket. */
  lemma {:induction false} FieldsRead(g: Page, fs: seq<Field>, i: nat)
    requires 0 < i && Laid(g) && FineFields(fs) && Spelled(g, i, FieldsWords(fs))
    requires var end := i + |FieldsWords(fs)|; end < |g.words| && (g.words[end] == "}" || g.words[end] == ")")
    ensures Reads(g, Star(Call(FIELD)), i, i + |FieldsWords(fs)|, FieldShapes(fs))
    decreases |fs|
  {
    hide Reads, Denies, Laid, First, Spelled, FineField, FieldWords, FieldShape;
    FieldDenies(g, i + |FieldsWords(fs)|);
    if fs == [] {
      StarPasses(g, Call(FIELD), i);
    } else {
      FieldsParts(g, fs, i);
      var mid := i + |FieldWords(fs[0])|;
      FieldsStart(g, fs[1..], mid);
      FieldReads(g, fs[0], i);
      FieldsRead(g, fs[1..], mid);
      StarReads(g, Call(FIELD), i, mid, i + |FieldsWords(fs)|, [FieldShape(fs[0])], FieldShapes(fs[1..]));
    }
  }
}
