/** Printing Thrift documents: with any blanks and line breaks between its words, a document is read
    back as itself. */
module ThriftPrinter {
  import opened Wrappers
  import opened TokenTree
  import opened PegParser
  import opened PegBound
  import opened ThriftGrammar
  import opened PegTexts
  import opened ThriftShapes
  import opened ThriftBlanks
  import opened ThriftLexemes
  import opened ThriftPages
  import opened ThriftTexts
  import opened ThriftFields
  import opened ThriftDocuments

  /** The words with one gap before each of them and one behind the last. */
  function Print(words: seq<string>, gaps: seq<string>): string
    requires |gaps| == |words| + 1
  {
    if words == [] then gaps[0] else gaps[0] + (words[0] + Print(words[1..], gaps[1..]))
  }

  predicate Whites(s: string) {
    forall i :: 0 <= i < |s| ==> White(s[i] as nat)
  }

  /** A word that is skipped neither as a blank nor as a comment. */
  predicate CanStand(s: string) {
    s != "" && !White(s[0] as nat) && s[0] != '/' && s[0] != '#'
  }

  predicate CanAllStand(words: seq<string>) {
    forall w :: w in words ==> CanStand(w)
  }

  /** Blanks and line breaks, at least where two words would become one. */
  predicate IsLayout(words: seq<string>, gaps: seq<string>) {
    && |gaps| == |words| + 1 && (forall i :: 0 <= i < |gaps| ==> Whites(gaps[i]))
    && forall i {:trigger words[i]} :: 0 <= i < |words| - 1 && words[i + 1] != "" && gaps[i + 1] == "" ==>
         Apart(words[i], words[i + 1][0] as nat)
  }

  // ----- a printed text consists of its words -----

  lemma {:induction false} GapIsSkipped(buffer: seq<nat>, pos: nat, gap: string)
    requires Source(buffer) && Has(buffer, pos, gap) && Whites(gap) && pos + |gap| < |buffer|
    requires var c := buffer[pos + |gap|]; !White(c) && c != '/' as nat && c != '#' as nat
    ensures Skipped(buffer, pos) == pos + |gap|
    decreases |gap|
  {
    hide CommentEnd;
    if gap == "" {
      NoCommentHere(buffer, pos);
    } else {
      assert buffer[pos] == gap[0] as nat;
      assert gap[..1] + gap[1..] == gap;
      HasParts(buffer, pos, gap[..1], gap[1..]);
      GapIsSkipped(buffer, pos + 1, gap[1..]);
    }
  }

  lemma NoCommentHere(buffer: seq<nat>, pos: nat)
    requires Source(buffer) && pos < |buffer| && buffer[pos] != '/' as nat && buffer[pos] != '#' as nat
    ensures CommentEnd(buffer, pos) == pos
  {
    var long, line, sharp := "/*"[0], "//"[0], "#"[0];
  }

  lemma WhiteIsApart(s: string, c: nat)
    requires White(c) || c == EndSymbol
    ensures Apart(s, c)
  {
  }

  /** The character behind the first word. */
  lemma NextIsApart(buffer: seq<nat>, pos: nat, words: seq<string>, gaps: seq<string>)
    requires Source(buffer) && words != [] && IsLayout(words, gaps) && CanAllStand(words)
    requires Has(buffer, pos, Print(words[1..], gaps[1..])) && pos + |Print(words[1..], gaps[1..])| == |buffer| - 1
    ensures Apart(words[0], buffer[pos])
  {
    var rest, gap := words[1..], gaps[1];
    if gap != "" {
      HasParts(buffer, pos, gap, if rest == [] then "" else rest[0] + Print(rest[1..], gaps[1..][1..]));
      assert gap + "" == gap;
      assert buffer[pos] == gap[0] as nat;
      WhiteIsApart(words[0], buffer[pos]);
    } else if rest == [] {
      WhiteIsApart(words[0], buffer[pos]);
    } else {
      assert words[1] in words;
      var text := Print(rest, gaps[1..]);
      assert text == "" + (rest[0] + Print(rest[1..], gaps[1..][1..]));
      assert text[0] == words[1][0];
      assert buffer[pos] == text[0] as nat;
    }
  }

  lemma LayoutRest(words: seq<string>, gaps: seq<string>)
    requires words != [] && IsLayout(words, gaps) && CanAllStand(words)
    ensures IsLayout(words[1..], gaps[1..]) && CanAllStand(words[1..])
  {
    var rest := words[1..];
    forall i: nat | i < |rest| - 1 && rest[i + 1] != "" && gaps[1..][i + 1] == ""
      ensures Apart(rest[i], rest[i + 1][0] as nat)
    {
      assert rest[i] == words[i + 1] && rest[i + 1] == words[i + 2];
    }
  }

  lemma {:induction false} PrintIsWritten(buffer: seq<nat>, pos: nat, words: seq<string>, gaps: seq<string>)
    requires Source(buffer) && IsLayout(words, gaps) && CanAllStand(words)
    requires Has(buffer, pos, Print(words, gaps)) && pos + |Print(words, gaps)| == |buffer| - 1
    ensures Written(buffer, pos, words)
    decreases |words|
  {
    hide Has, Apart, Skipped, IsLayout, CanAllStand;
    FirstGap(words, gaps);
    var gap := gaps[0];
    if words == [] {
      GapIsSkipped(buffer, pos, gap);
    } else {
      var rest := Print(words[1..], gaps[1..]);
      var on := pos + |gap|;
      HasParts(buffer, pos, gap, words[0] + rest);
      HasParts(buffer, on, words[0], rest);
      FirstChar(buffer, on, words[0]);
      GapIsSkipped(buffer, pos, gap);
      LayoutRest(words, gaps);
      NextIsApart(buffer, on + |words[0]|, words, gaps);
      PrintIsWritten(buffer, on + |words[0]|, words[1..], gaps[1..]);
    }
  }

  lemma FirstGap(words: seq<string>, gaps: seq<string>)
    requires IsLayout(words, gaps) && CanAllStand(words)
    ensures |gaps| == |words| + 1 && Whites(gaps[0]) && (words != [] ==> CanStand(words[0]))
  {
    if words != [] {
      assert words[0] in words;
    }
  }

  // ----- the words of a document can stand -----

  lemma StandTogether(a: seq<string>, b: seq<string>)
    requires CanAllStand(a) && CanAllStand(b)
    ensures CanAllStand(a + b)
  {
  }

  /** A letter, a digit, a sign, a dot, a quote or a symbol. */
  predicate Common(c: char) {
    Letter(c as nat) || !NoNumber(c as nat) || IsQuote(c) || c in SYMBOLS || c == ';' || c == '*'
  }

  lemma OneStands(s: string)
    requires s != "" && Common(s[0])
    ensures CanAllStand([s])
  {
  }

  lemma TwoStand(s: string, t: string)
    requires s != "" && Common(s[0]) && t != "" && Common(t[0])
    ensures CanAllStand([s, t])
  {
  }

  lemma ThreeStand(s: string, t: string, u: string)
    requires s != "" && Common(s[0]) && t != "" && Common(t[0]) && u != "" && Common(u[0])
    ensures CanAllStand([s, t, u])
  {
    hide CanAllStand;
    TwoStand(s, t);
    OneStands(u);
    StandTogether([s, t], [u]);
    assert [s, t] + [u] == [s, t, u];
  }

  /** Something between brackets. */
  lemma BetweenStands(open: seq<string>, ws: seq<string>, close: string)
    requires CanAllStand(open) && CanAllStand(ws) && close != "" && Common(close[0])
    ensures CanAllStand(open + (ws + [close]))
  {
    OneStands(close);
    StandTogether(ws, [close]);
    StandTogether(open, ws + [close]);
  }

  lemma {:induction false} TypeStands(t: Type)
    requires FineType(t)
    ensures CanAllStand(TypeWords(t))
    decreases t, 1
  {
    hide CanAllStand, KindWords, NotesWords, FineNotes;
    KindStands(t);
    NotesStand(t.notes);
    StandTogether(KindWords(t), NotesWords(t.notes));
  }

  lemma {:induction false} KindStands(t: Type)
    requires FineType(t)
    ensures CanAllStand(KindWords(t))
    decreases t, 0
  {
    hide CanAllStand, CppWords, TypeWords, FineCpp, FineNotes;
    match t
    case Base(n, _) => BaseBegins(n); OneStands(WORDS[n]);
    case Named(s, _) => OneStands(s);
    case ListOf(e, c, _) =>
      TwoStand("list", "<");
      TypeStands(e);
      OneStands(">");
      CppStands(c);
      StandTogether([">"], CppWords(c));
      StandTogether(TypeWords(e), [">"] + CppWords(c));
      StandTogether(["list", "<"], TypeWords(e) + ([">"] + CppWords(c)));
    case SetOf(e, c, _) =>
      OneStands("set");
      CppStands(c);
      OneStands("<");
      TypeStands(e);
      BetweenStands(["<"], TypeWords(e), ">");
      StandTogether(CppWords(c), ["<"] + (TypeWords(e) + [">"]));
      StandTogether(["set"], CppWords(c) + (["<"] + (TypeWords(e) + [">"])));
    case MapOf(k, e, c, _) =>
      OneStands("map");
      CppStands(c);
      OneStands("<");
      OneStands(",");
      TypeStands(k);
      TypeStands(e);
      BetweenStands([","], TypeWords(e), ">");
      StandTogether(TypeWords(k), [","] + (TypeWords(e) + [">"]));
      StandTogether(["<"], TypeWords(k) + ([","] + (TypeWords(e) + [">"])));
      StandTogether(CppWords(c), ["<"] + (TypeWords(k) + ([","] + (TypeWords(e) + [">"]))));
      StandTogether(["map"], CppWords(c) + (["<"] + (TypeWords(k) + ([","] + (TypeWords(e) + [">"])))));
  }

  lemma CppStands(c: Cpp)
    requires FineCpp(c)
    ensures CanAllStand(CppWords(c))
  {
    hide CanAllStand, Escaped;
    NothingStands();
    if c.Cpp? {
      TwoStand("cpp_type", [c.quote] + (Escaped(c.quote, c.text) + [c.quote]));
    }
  }

  lemma NoteStands(n: Note)
    requires FineNote(n)
    ensures CanAllStand(NoteWords(n))
  {
    hide CanAllStand, Escaped, SeparatorWords;
    var quoted := [n.quote] + (Escaped(n.quote, n.text) + [n.quote]);
    ThreeStand(n.name, "=", quoted);
    SeparatorStands(n.sep);
    StandTogether([n.name, "=", quoted], SeparatorWords(n.sep));
  }

  lemma {:induction false} NoteListStands(ns: seq<Note>)
    requires AllFine(ns)
    ensures CanAllStand(NoteList(ns))
    decreases |ns|
  {
    hide CanAllStand, NoteWords, FineNote;
    if ns == [] {
      NothingStands();
    } else {
      NoteStands(ns[0]);
      NoteListStands(ns[1..]);
      StandTogether(NoteWords(ns[0]), NoteList(ns[1..]));
    }
  }

  lemma NotesStand(notes: Notes)
    requires FineNotes(notes)
    ensures CanAllStand(NotesWords(notes))
  {
    hide CanAllStand, NoteList, AllFine;
    NothingStands();
    if notes.Some? {
      OneStands("(");
      NoteListStands(notes.value);
      BetweenStands(["("], NoteList(notes.value), ")");
    }
  }

  lemma SeparatorStands(sep: string)
    requires IsSeparator(sep)
    ensures CanAllStand(SeparatorWords(sep))
  {
  }

  lemma {:induction false} ValueStands(v: Value)
    requires FineValue(v)
    ensures CanAllStand(ValueWords(v))
    decreases v, 1
  {
    hide CanAllStand;
    match v
    case Fraction(sign, a, b, p) => FractionBegins(sign, a, b, p); OneStands(FractionWord(sign, a, b, p));
    case Number(a) => IntegerStarts(a); OneStands(a);
    case Quoted(c, s) => OneStands([c] + (Escaped(c, s) + [c]));
    case Name(s) => OneStands(s);
    case Items(vs) => OneStands("["); ItemsStand(vs); BetweenStands(["["], ItemsWords(vs), "]");
    case Pairs(ps) => OneStands("{"); PairsStand(ps); BetweenStands(["{"], PairsWords(ps), "}");
  }

  lemma {:induction false} ItemsStand(vs: seq<Item>)
    requires FineValue(Items(vs))
    ensures CanAllStand(ItemsWords(vs))
    decreases vs, 0
  {
    hide CanAllStand, ValueWords, SeparatorWords;
    if vs == [] {
      NothingStands();
    } else {
      var v := vs[0];
      assert FineItem(v);
      ValueStands(v.value);
      SeparatorStands(v.sep);
      StandTogether(ValueWords(v.value), SeparatorWords(v.sep));
      assert forall k :: 0 <= k < |vs[1..]| ==> vs[1..][k] == vs[k + 1];
      ItemsStand(vs[1..]);
      StandTogether(ValueWords(v.value) + SeparatorWords(v.sep), ItemsWords(vs[1..]));
    }
  }

  lemma NothingStands()
    ensures CanAllStand([])
  {
  }

  lemma {:induction false} PairsStand(ps: seq<Pair>)
    requires FineValue(Pairs(ps))
    ensures CanAllStand(PairsWords(ps))
    decreases ps, 0
  {
    hide CanAllStand, ValueWords, SeparatorWords;
    if ps == [] {
      NothingStands();
    } else {
      var p := ps[0];
      assert FinePair(p);
      ValueStands(p.key);
      ValueStands(p.value);
      SeparatorStands(p.sep);
      OneStands(":");
      StandTogether(ValueWords(p.value), SeparatorWords(p.sep));
      StandTogether([":"], ValueWords(p.value) + SeparatorWords(p.sep));
      StandTogether(ValueWords(p.key), [":"] + (ValueWords(p.value) + SeparatorWords(p.sep)));
      assert forall k :: 0 <= k < |ps[1..]| ==> ps[1..][k] == ps[k + 1];
      PairsStand(ps[1..]);
      StandTogether(PairWords(p), PairsWords(ps[1..]));
    }
  }

  lemma IntegerStands(n: Integer)
    requires FineInteger(n)
    ensures CanAllStand(IdWords(n)) && CanAllStand(NumberWords(n))
  {
    hide CanAllStand;
    NothingStands();
    if n.Integer? {
      IntegerStarts(n.digits);
      TwoStand(n.digits, ":");
      TwoStand("=", n.digits);
    }
  }

  lemma FieldStands(f: Field)
    requires FineField(f)
    ensures CanAllStand(FieldWords(f))
  {
    hide CanAllStand, TypeWords, ValueWords, NotesWords, SeparatorWords, IdWords, FineType, FineValue, FineInteger, FineNotes;
    var d, n, sep := DefaultWords(f.default), NotesWords(f.notes), SeparatorWords(f.sep);
    NothingStands();
    IntegerStands(f.id);
    if f.need != "" {
      OneStands(f.need);
    }
    TypeStands(f.typ);
    OneStands(f.name);
    if f.default.Some? {
      OneStands("=");
      ValueStands(f.default.value);
      StandTogether(["="], ValueWords(f.default.value));
    }
    NotesStand(f.notes);
    SeparatorStands(f.sep);
    StandTogether(n, sep);
    StandTogether(d, n + sep);
    StandTogether([f.name], d + (n + sep));
    StandTogether(TypeWords(f.typ), [f.name] + (d + (n + sep)));
    StandTogether(NeedWords(f.need), TypeWords(f.typ) + ([f.name] + (d + (n + sep))));
    StandTogether(IdWords(f.id), NeedWords(f.need) + (TypeWords(f.typ) + ([f.name] + (d + (n + sep)))));
  }

  lemma {:induction false} FieldsStand(fs: seq<Field>)
    requires FineFields(fs)
    ensures CanAllStand(FieldsWords(fs))
    decreases |fs|
  {
    hide CanAllStand, FieldWords, FineField;
    if fs == [] {
      NothingStands();
    } else {
      FieldStands(fs[0]);
      FieldsStand(fs[1..]);
      StandTogether(FieldWords(fs[0]), FieldsWords(fs[1..]));
    }
  }

  lemma {:induction false} EnumItemsStand(es: seq<EnumItem>)
    requires FineEnumItems(es)
    ensures CanAllStand(EnumItemsWords(es))
    decreases |es|
  {
    hide CanAllStand, NumberWords, NotesWords, SeparatorWords, FineInteger, FineNotes;
    if es == [] {
      NothingStands();
    } else {
      var e := es[0];
      assert FineEnumItem(e);
      OneStands(e.name);
      IntegerStands(e.number);
      SeparatorStands(e.sep);
      NotesStand(e.notes);
      StandTogether(NotesWords(e.notes), SeparatorWords(e.sep));
      StandTogether(NumberWords(e.number), NotesWords(e.notes) + SeparatorWords(e.sep));
      StandTogether([e.name], NumberWords(e.number) + (NotesWords(e.notes) + SeparatorWords(e.sep)));
      EnumItemsStand(es[1..]);
      StandTogether(EnumItemWords(e), EnumItemsWords(es[1..]));
    }
  }

  lemma FunctionStands(f: Function)
    requires FineFunction(f)
    ensures CanAllStand(FunctionWords(f))
  {
    hide CanAllStand, TypeWords, FieldsWords, NotesWords, SeparatorWords, FineType, FineFields, FineNotes;
    var o, r, args, t := OnewayWords(f.oneway), ResultWords(f.result), FieldsWords(f.args), ThrowsWords(f.throws);
    var sep := NotesWords(f.notes) + SeparatorWords(f.sep);
    NothingStands();
    if f.oneway {
      OneStands("oneway");
    }
    if f.result.None? {
      OneStands("void");
    } else {
      TypeStands(f.result.value);
    }
    TwoStand(f.name, "(");
    FieldsStand(f.args);
    if f.throws.Some? {
      TwoStand("throws", "(");
      FieldsStand(f.throws.value);
      BetweenStands(["throws", "("], FieldsWords(f.throws.value), ")");
    }
    SeparatorStands(f.sep);
    NotesStand(f.notes);
    StandTogether(NotesWords(f.notes), SeparatorWords(f.sep));
    OneStands(")");
    StandTogether(t, sep);
    StandTogether([")"], t + sep);
    StandTogether(args, [")"] + (t + sep));
    StandTogether([f.name, "("], args + ([")"] + (t + sep)));
    StandTogether(r, [f.name, "("] + (args + ([")"] + (t + sep))));
    StandTogether(o, r + ([f.name, "("] + (args + ([")"] + (t + sep)))));
  }

  lemma {:induction false} FunctionsStand(fs: seq<Function>)
    requires FineFunctions(fs)
    ensures CanAllStand(FunctionsWords(fs))
    decreases |fs|
  {
    hide CanAllStand, FunctionWords, FineFunction;
    if fs == [] {
      NothingStands();
    } else {
      FunctionStands(fs[0]);
      FunctionsStand(fs[1..]);
      StandTogether(FunctionWords(fs[0]), FunctionsWords(fs[1..]));
    }
  }

  lemma DefinitionStands(d: Definition)
    requires FineDefinition(d)
    ensures CanAllStand(DefinitionWords(d))
  {
    hide CanAllStand, BodyWords, NotesWords, FineBody, FineNotes;
    BodyStands(d.body);
    NotesStand(d.notes);
    StandTogether(BodyWords(d.body), NotesWords(d.notes));
  }

  lemma BodyStands(d: Body)
    requires FineBody(d)
    ensures CanAllStand(BodyWords(d))
  {
    hide CanAllStand, TypeWords, ValueWords, FieldsWords, EnumItemsWords, FunctionsWords, SeparatorWords, FineType, FineValue, FineFields,
         FineEnumItems, FineFunctions;
    match d
    case Constant(t, name, v, sep) =>
      OneStands("const");
      TypeStands(t);
      TwoStand(name, "=");
      ValueStands(v);
      SeparatorStands(sep);
      StandTogether(ValueWords(v), SeparatorWords(sep));
      StandTogether([name, "="], ValueWords(v) + SeparatorWords(sep));
      StandTogether(TypeWords(t), [name, "="] + (ValueWords(v) + SeparatorWords(sep)));
      StandTogether(["const"], TypeWords(t) + ([name, "="] + (ValueWords(v) + SeparatorWords(sep))));
    case Alias(t, name) => OneStands("typedef"); TypeStands(t); BetweenStands(["typedef"], TypeWords(t), name);
    case Enumeration(name, items) =>
      ThreeStand("enum", name, "{");
      EnumItemsStand(items);
      BetweenStands(["enum", name, "{"], EnumItemsWords(items), "}");
    case Service(name, base, fs) =>
      NothingStands();
      TwoStand("service", name);
      if base.Some? {
        TwoStand("extends", base.value);
      }
      OneStands("{");
      FunctionsStand(fs);
      BetweenStands(["{"], FunctionsWords(fs), "}");
      StandTogether(BaseWords(base), ["{"] + (FunctionsWords(fs) + ["}"]));
      StandTogether(["service", name], BaseWords(base) + (["{"] + (FunctionsWords(fs) + ["}"])));
    case Record(kind, name, fields) =>
      ThreeStand(KindWord(kind), name, "{");
      FieldsStand(fields);
      BetweenStands([KindWord(kind), name, "{"], FieldsWords(fields), "}");
  }

  lemma {:induction false} DefinitionsStand(ds: seq<Definition>)
    requires FineDefinitions(ds)
    ensures CanAllStand(DefinitionsWords(ds))
    decreases |ds|
  {
    hide CanAllStand, DefinitionWords, FineDefinition;
    if ds == [] {
      NothingStands();
    } else {
      DefinitionStands(ds[0]);
      DefinitionsStand(ds[1..]);
      StandTogether(DefinitionWords(ds[0]), DefinitionsWords(ds[1..]));
    }
  }

  lemma {:induction false} HeadersStand(hs: seq<Header>)
    requires FineHeaders(hs)
    ensures CanAllStand(HeadersWords(hs))
    decreases |hs|
  {
    hide CanAllStand;
    if hs == [] {
      NothingStands();
    } else {
      assert FineHeader(hs[0]);
      match hs[0] {
        case Include(c, s) => TwoStand("include", [c] + (Escaped(c, s) + [c]));
        case CppInclude(c, s) => TwoStand("cpp_include", [c] + (Escaped(c, s) + [c]));
        case Namespace(scope, name, notes) =>
          ThreeStand("namespace", scope, name);
          NotesStand(notes);
          StandTogether(["namespace", scope, name], NotesWords(notes));
      }
      HeadersStand(hs[1..]);
      StandTogether(HeaderWords(hs[0]), HeadersWords(hs[1..]));
    }
  }

  /** Parsing what was printed gives the tree of the document, whatever blanks and line breaks are
      between its words. */
  lemma PrintedIsRead(d: Document, gaps: seq<string>)
    requires FineDocument(d) && IsLayout(DocumentWords(d), gaps)
    ensures var text := Print(DocumentWords(d), gaps);
            var o := Meaning(Known(), Thrift, DOCUMENT, Codes(text));
            && o.Match? && o.end == |text| && |o.trees| == 1
            && Outlines(Terminated(Codes(text)), o.trees) == [DocumentShape(d)]
  {
    hide Meaning, Print, HeadersWords, DefinitionsWords, FineHeader, FineDefinition, CanAllStand, Written, DocumentShape, Outlines, Thrift;
    var words := DocumentWords(d);
    var text := Print(words, gaps);
    TextIsSource(text);
    HeadersStand(d.headers);
    DefinitionsStand(d.definitions);
    StandTogether(HeadersWords(d.headers), DefinitionsWords(d.definitions));
    PrintIsWritten(Terminated(Codes(text)), 0, words, gaps);
    DocumentIsRead(text, d);
  }

  // ----- an example -----

  const OneE5: Value := Fraction("", "1", "", Power("e", "5"))

  const Doubled: Document := Document([], [Definition(Constant(Base(6, None), "X", OneE5, ""), None)])

  const Spacing: seq<string> := ["", " ", " ", "", "", ""]

  lemma DoubledWords()
    ensures DocumentWords(Doubled) == ["const", "double", "X", "=", "1e5"]
  {
    assert FractionWord("", "1", "", Power("e", "5")) == "1e5" by {
      assert Mantissa("1", "") == "1" && "e" + "5" == "e5" && "1" + "e5" == "1e5" && "" + "1e5" == "1e5";
    }
    assert ValueWords(OneE5) == ["1e5"];
    var ws := BodyWords(Doubled.definitions[0].body);
    assert ws == ["const", "double", "X", "=", "1e5"];
    assert DefinitionWords(Doubled.definitions[0]) == ws;
    assert DefinitionsWords(Doubled.definitions) == ws + [];
  }

  lemma PrintMore(gap: string, word: string, words: seq<string>, gaps: seq<string>)
    requires |gaps| == |words| + 1
    ensures Print([word] + words, [gap] + gaps) == gap + (word + Print(words, gaps))
  {
    assert ([word] + words)[1..] == words && ([gap] + gaps)[1..] == gaps;
  }

  lemma DoubledText()
    ensures Print(["const", "double", "X", "=", "1e5"], Spacing) == "const double X=1e5"
  {
    hide Print;
    LastWords();
    PrintMore(" ", "double", ["X", "=", "1e5"], [" ", "", "", ""]);
    PrintMore("", "const", ["double", "X", "=", "1e5"], [" ", " ", "", "", ""]);
    assert ["double"] + ["X", "=", "1e5"] == ["double", "X", "=", "1e5"];
    assert ["const"] + ["double", "X", "=", "1e5"] == ["const", "double", "X", "=", "1e5"];
    assert [" "] + [" ", "", "", ""] == [" ", " ", "", "", ""] && [""] + [" ", " ", "", "", ""] == Spacing;
  }

  lemma NothingPrinted()
    ensures Print([], [""]) == ""
  {
  }

  lemma LastWords()
    ensures Print(["X", "=", "1e5"], [" ", "", "", ""]) == " X=1e5"
  {
    NothingPrinted();
    hide Print;
    PrintMore("", "1e5", [], [""]);
    PrintMore("", "=", ["1e5"], ["", ""]);
    PrintMore(" ", "X", ["=", "1e5"], ["", "", ""]);
    assert ["1e5"] + [] == ["1e5"] && [""] + [""] == ["", ""];
    assert ["="] + ["1e5"] == ["=", "1e5"] && [""] + ["", ""] == ["", "", ""];
    assert ["X"] + ["=", "1e5"] == ["X", "=", "1e5"] && [" "] + ["", "", ""] == [" ", "", "", ""];
  }

  /** `const double X=1e5` is a constant of which the parser takes the value 5. */
  lemma ExponentIsLost()
    ensures var text := Codes("const double X=1e5");
            var o := Meaning(Known(), Thrift, DOCUMENT, text);
            && o.Match? && o.end == |text| && Outlines(Terminated(text), o.trees) == [DocumentShape(Doubled)]
    ensures ValueShape(OneE5) == Branch(CONST_VALUE, [Branch(DOUBLE_CONSTANT, [Leaf(Codes("5"))])])
  {
    hide Meaning, Print, DocumentShape, Outlines, Thrift;
    DoubledWords();
    DoubledText();
    assert FineDocument(Doubled);
    PrintedIsRead(Doubled, Spacing);
  }
}
