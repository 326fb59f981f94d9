/** The words of a Thrift text: keywords, symbols, names, numbers and quoted texts, whatever is
    skipped around them. */
module ThriftLexemes {
  import opened Wrappers
  import opened TokenTree
  import opened PegParser
  import opened ThriftGrammar
  import opened PegTexts
  import opened ThriftShapes
  import opened ThriftBlanks

  predicate Upper(c: nat) { 'A' as nat <= c <= 'Z' as nat }
  predicate Lower(c: nat) { 'a' as nat <= c <= 'z' as nat }
  predicate Digit(c: nat) { '0' as nat <= c <= '9' as nat }
  predicate Letter(c: nat) { Upper(c) || Lower(c) || c == '_' as nat }
  predicate LetterOrDigit(c: nat) { Lower(c) || Upper(c) || Digit(c) || c == '_' as nat || c == '$' as nat }
  predicate NameChar(c: nat) { Letter(c) || Digit(c) || c == '.' as nat }

  /** The character behind a word is not taken for a part of it. */
  predicate Apart(s: string, c: nat) {
    s != "" && NameChar(s[|s| - 1] as nat) ==> !NameChar(c) && c != '$' as nat && c != '+' as nat && c != '-' as nat
  }

  /** A word stands at a position, and the next one begins at `next`. */
  predicate Stands(buffer: seq<nat>, on: nat, s: string, next: nat) {
    && s != "" && Ready(buffer, on, on) && Has(buffer, on, s) && on + |s| < |buffer|
    && Ready(buffer, on + |s|, next) && Apart(s, buffer[on + |s|])
  }

  lemma StandsIs(buffer: seq<nat>, on: nat, s: string, next: nat)
    requires Stands(buffer, on, s, next)
    ensures Source(buffer) && on < |buffer| && Has(buffer, on, s)
  {
  }

  lemma ReadyIs(buffer: seq<nat>, pos: nat, on: nat)
    requires Ready(buffer, pos, on)
    ensures Source(buffer) && on < |buffer|
  {
  }

  lemma RuleLands(buffer: seq<nat>, rule: nat, pos: nat, next: nat, s: seq<Shape>)
    requires rule != PEG_TEXT && !IsBlank(rule) && Lands(buffer, Thrift(rule), pos, next, s)
    ensures Lands(buffer, Call(rule), pos, next, [Branch(rule, s)])
  {
    hide Gives, Thrift, Ready;
    var end :| Ready(buffer, end, next) && Gives(buffer, Thrift(rule), pos, end, s);
    RuleGives(buffer, rule, pos, end, s);
  }

  lemma SpacedLands(buffer: seq<nat>, e: Expr, pos: nat, on: nat, mid: nat, next: nat, s: seq<Shape>)
    requires Ready(buffer, pos, on) && Gives(buffer, e, on, mid, s) && Ready(buffer, mid, next)
    ensures Lands(buffer, Spaced(e), pos, next, s)
  {
    hide Gives, Ready;
    var end := SpacedGives(buffer, e, pos, on, mid, next, s);
  }

  // ----- words and symbols -----

  /** A whole word stands at a position. */
  predicate WordAt(buffer: seq<nat>, pos: nat, s: string) {
    Has(buffer, pos, s) && pos + |s| < |buffer| && !LetterOrDigit(buffer[pos + |s|])
  }

  lemma OneLetterOrDigit(buffer: seq<nat>, pos: nat)
    requires pos < |buffer|
    ensures LetterOrDigit(buffer[pos]) ==> Gives(buffer, Call(LETTER_OR_DIGIT), pos, pos + 1, [])
    ensures !LetterOrDigit(buffer[pos]) ==> Refuses(buffer, Call(LETTER_OR_DIGIT), pos)
  {
    hide Gives, Refuses, Alt, Char, Chars;
    var es := [Chars('a', 'z'), Chars('A', 'Z'), Chars('0', '9'), Char('_'), Char('$')];
    assert Thrift(LETTER_OR_DIGIT) == Alt(es);
    Between(buffer, 'a', 'z', pos);
    Between(buffer, 'A', 'Z', pos);
    Between(buffer, '0', '9', pos);
    IsChar(buffer, '_', pos);
    IsChar(buffer, '$', pos);
    var c := buffer[pos];
    if LetterOrDigit(c) {
      AltGives(buffer, es, if Lower(c) then 0 else if Upper(c) then 1 else if Digit(c) then 2 else if c == '_' as nat then 3 else 4,
               pos, pos + 1, []);
      RuleGives(buffer, LETTER_OR_DIGIT, pos, pos + 1, []);
    } else {
      AltRefuses(buffer, es, pos);
      RuleRefuses(buffer, LETTER_OR_DIGIT, pos);
    }
  }

  function WordShape(on: nat, s: string, taken: bool): seq<Shape> {
    if taken then [TakenShape(on, s)] else []
  }

  /** No backslash. */
  predicate Plain(s: string) {
    s != "" && '\\' !in s
  }

  function Head(s: string, taken: bool): Expr
    requires s != ""
  {
    if taken then ThriftGrammar.Take(Text(s)) else Text(s)
  }

  lemma HeadMatches(buffer: seq<nat>, s: string, taken: bool, pos: nat)
    requires Source(buffer) && Plain(s) && pos < |buffer|
    ensures Has(buffer, pos, s) ==> Gives(buffer, Head(s, taken), pos, pos + |s|, WordShape(pos, s, taken)) && pos + |s| < |buffer|
    ensures !Has(buffer, pos, s) ==> Refuses(buffer, Head(s, taken), pos)
  {
    hide Gives, Refuses, Text, Has, Taken;
    TextMatches(buffer, s, pos);
    if Has(buffer, pos, s) {
      TakeGives(buffer, Text(s), pos, pos + |s|, []);
      TakesText(buffer, pos, s);
    } else {
      TakeRefuses(buffer, Text(s), pos);
    }
  }

  lemma WordGives(buffer: seq<nat>, s: string, taken: bool, pos: nat, on: nat, next: nat)
    requires Plain(s) && Ready(buffer, pos, on) && WordAt(buffer, on, s) && Ready(buffer, on + |s|, next)
    ensures Lands(buffer, Word(s, taken), pos, next, WordShape(on, s, taken))
  {
    hide Gives, Refuses, Head, Skipped, Has;
    var mid := on + |s|;
    SkipGives(buffer, pos);
    HeadMatches(buffer, s, taken, on);
    OneLetterOrDigit(buffer, mid);
    NotGives(buffer, Call(LETTER_OR_DIGIT), mid);
    var end := IndentRun(buffer, mid);
    var head, not, blanks := Head(s, taken), Not(Call(LETTER_OR_DIGIT)), Star(Call(INDENT));
    var shape := WordShape(on, s, taken);
    CatGives(buffer, not, blanks, mid, mid, end, [], []);
    NoShapes();
    CatGives(buffer, head, Cat(not, blanks), on, mid, end, shape, []);
    CatGives(buffer, Call(SKIP), Cat(head, Cat(not, blanks)), pos, on, end, [], shape + []);
    assert [] + (shape + []) == shape;
    WordParts(s, taken);
  }

  lemma WordParts(s: string, taken: bool)
    requires s != ""
    ensures Word(s, taken) == Cat(Call(SKIP), Cat(Head(s, taken), Cat(Not(Call(LETTER_OR_DIGIT)), Star(Call(INDENT)))))
  {
  }

  lemma WordRefuses(buffer: seq<nat>, s: string, taken: bool, pos: nat, on: nat)
    requires Plain(s) && Ready(buffer, pos, on) && !WordAt(buffer, on, s)
    ensures Refuses(buffer, Word(s, taken), pos)
  {
    hide Gives, Refuses, Head, Skipped, Has;
    SkipGives(buffer, pos);
    HeadMatches(buffer, s, taken, on);
    var head, not, blanks := Head(s, taken), Not(Call(LETTER_OR_DIGIT)), Star(Call(INDENT));
    if !Has(buffer, on, s) {
      CatRefuses(buffer, head, Cat(not, blanks), on);
    } else {
      var mid := on + |s|;
      OneLetterOrDigit(buffer, mid);
      NotRefuses(buffer, Call(LETTER_OR_DIGIT), mid, mid + 1, []);
      CatRefuses(buffer, not, blanks, mid);
      CatStops(buffer, head, Cat(not, blanks), on, mid, WordShape(on, s, taken));
    }
    CatStops(buffer, Call(SKIP), Cat(head, Cat(not, blanks)), pos, on, []);
    WordParts(s, taken);
  }

  lemma WordsArePlain()
    ensures |WORDS| == 27 && |SYMBOLS| == 11 && forall i {:trigger WORDS[i]} :: 0 <= i < |WORDS| ==> Plain(WORDS[i]) && WORDS[i] != ""
  {
  }

  lemma KeywordGives(buffer: seq<nat>, rule: nat, pos: nat, on: nat, next: nat)
    requires WORD_BOOL <= rule < LBRK && Ready(buffer, pos, on)
    requires WordAt(buffer, on, WORDS[rule - WORD_BOOL]) && Ready(buffer, on + |WORDS[rule - WORD_BOOL]|, next)
    ensures Lands(buffer, Call(rule), pos, next, [Branch(rule, WordShape(on, WORDS[rule - WORD_BOOL], rule < WORD_CONST))])
  {
    hide Lands, Word, Ready, Plain, WORDS;
    WordsArePlain();
    var s := WORDS[rule - WORD_BOOL];
    WordGives(buffer, s, rule < WORD_CONST, pos, on, next);
    assert Thrift(rule) == Word(s, rule < WORD_CONST);
    RuleLands(buffer, rule, pos, next, WordShape(on, s, rule < WORD_CONST));
  }

  lemma KeywordRefuses(buffer: seq<nat>, rule: nat, pos: nat, on: nat)
    requires WORD_BOOL <= rule < LBRK && Ready(buffer, pos, on) && !WordAt(buffer, on, WORDS[rule - WORD_BOOL])
    ensures Refuses(buffer, Call(rule), pos)
  {
    hide Refuses, Word, Ready, Plain, WORDS;
    WordsArePlain();
    var s := WORDS[rule - WORD_BOOL];
    WordRefuses(buffer, s, rule < WORD_CONST, pos, on);
    assert Thrift(rule) == Word(s, rule < WORD_CONST);
    RuleRefuses(buffer, rule, pos);
  }

  lemma SymbolGives(buffer: seq<nat>, rule: nat, pos: nat, on: nat, next: nat)
    requires LBRK <= rule < PEG_TEXT && Ready(buffer, pos, on) && buffer[on] == SYMBOLS[rule - LBRK] as nat
    requires on + 1 < |buffer| && Ready(buffer, on + 1, next)
    ensures Lands(buffer, Call(rule), pos, next, [Branch(rule, [])])
  {
    hide Gives, Lands, Spaced, Char, Skipped;
    var c := SYMBOLS[rule - LBRK];
    assert Thrift(rule) == Spaced(Char(c));
    IsChar(buffer, c, on);
    SpacedLands(buffer, Char(c), pos, on, on + 1, next, []);
    RuleLands(buffer, rule, pos, next, []);
  }

  lemma SymbolRefuses(buffer: seq<nat>, rule: nat, pos: nat, on: nat)
    requires LBRK <= rule < PEG_TEXT && Ready(buffer, pos, on) && buffer[on] != SYMBOLS[rule - LBRK] as nat
    ensures Refuses(buffer, Call(rule), pos)
  {
    hide Gives, Refuses, Spaced, Char, Skipped;
    var c := SYMBOLS[rule - LBRK];
    assert Thrift(rule) == Spaced(Char(c));
    IsChar(buffer, c, on);
    SpacedRefuses(buffer, Char(c), pos, on);
    RuleRefuses(buffer, rule, pos);
  }

  lemma SeparatorMatches(buffer: seq<nat>, pos: nat, on: nat, next: nat)
    requires Ready(buffer, pos, on)
    ensures (buffer[on] == ',' as nat || buffer[on] == ';' as nat) && on + 1 < |buffer| && Ready(buffer, on + 1, next) ==>
              Lands(buffer, Call(LIST_SEPARATOR), pos, next, [Branch(LIST_SEPARATOR, [])])
    ensures buffer[on] != ',' as nat && buffer[on] != ';' as nat ==> Refuses(buffer, Call(LIST_SEPARATOR), pos)
  {
    hide Gives, Refuses, Lands, Spaced, Char, Skipped, Alt;
    var es := [Char(','), Char(';')];
    IsChar(buffer, ',', on);
    IsChar(buffer, ';', on);
    assert Thrift(LIST_SEPARATOR) == Spaced(Alt(es));
    if buffer[on] != ',' as nat && buffer[on] != ';' as nat {
      AltRefuses(buffer, es, on);
      SpacedRefuses(buffer, Alt(es), pos, on);
      RuleRefuses(buffer, LIST_SEPARATOR, pos);
    } else if on + 1 < |buffer| && Ready(buffer, on + 1, next) {
      AltGives(buffer, es, if buffer[on] == ',' as nat then 0 else 1, on, on + 1, []);
      SpacedLands(buffer, Alt(es), pos, on, on + 1, next, []);
      RuleLands(buffer, LIST_SEPARATOR, pos, next, []);
    }
  }

  // ----- names -----

  lemma OneLetter(buffer: seq<nat>, pos: nat)
    requires pos < |buffer|
    ensures Letter(buffer[pos]) ==> Gives(buffer, Call(LETTER), pos, pos + 1, [])
    ensures !Letter(buffer[pos]) ==> Refuses(buffer, Call(LETTER), pos)
  {
    hide Gives, Refuses, Alt, Char, Chars;
    var es := [Chars('A', 'Z'), Chars('a', 'z'), Char('_')];
    assert Thrift(LETTER) == Alt(es);
    Between(buffer, 'A', 'Z', pos);
    Between(buffer, 'a', 'z', pos);
    IsChar(buffer, '_', pos);
    var c := buffer[pos];
    if Letter(c) {
      AltGives(buffer, es, if Upper(c) then 0 else if Lower(c) then 1 else 2, pos, pos + 1, []);
      RuleGives(buffer, LETTER, pos, pos + 1, []);
    } else {
      AltRefuses(buffer, es, pos);
      RuleRefuses(buffer, LETTER, pos);
    }
  }

  lemma OneDigit(buffer: seq<nat>, pos: nat)
    requires pos < |buffer|
    ensures Digit(buffer[pos]) ==> Gives(buffer, Call(DIGIT), pos, pos + 1, [])
    ensures !Digit(buffer[pos]) ==> Refuses(buffer, Call(DIGIT), pos)
  {
    hide Gives, Refuses, Chars;
    assert Thrift(DIGIT) == Chars('0', '9');
    Between(buffer, '0', '9', pos);
    if Digit(buffer[pos]) {
      RuleGives(buffer, DIGIT, pos, pos + 1, []);
    } else {
      RuleRefuses(buffer, DIGIT, pos);
    }
  }

  function Tail(): Expr {
    Alt([Call(LETTER), Call(DIGIT), Char('.')])
  }

  lemma OneNameChar(buffer: seq<nat>, pos: nat)
    requires pos < |buffer|
    ensures NameChar(buffer[pos]) ==> Gives(buffer, Tail(), pos, pos + 1, [])
    ensures !NameChar(buffer[pos]) ==> Refuses(buffer, Tail(), pos)
  {
    hide Gives, Refuses, Alt, Char;
    var es := [Call(LETTER), Call(DIGIT), Char('.')];
    OneLetter(buffer, pos);
    OneDigit(buffer, pos);
    IsChar(buffer, '.', pos);
    var c := buffer[pos];
    if NameChar(c) {
      AltGives(buffer, es, if Letter(c) then 0 else if Digit(c) then 1 else 2, pos, pos + 1, []);
    } else {
      AltRefuses(buffer, es, pos);
    }
  }

  predicate NameChars(s: string) {
    forall i :: 0 <= i < |s| ==> NameChar(s[i] as nat)
  }

  lemma {:induction false} NameRun(buffer: seq<nat>, pos: nat, s: string)
    requires Has(buffer, pos, s) && NameChars(s) && pos + |s| < |buffer| && !NameChar(buffer[pos + |s|])
    ensures Gives(buffer, Star(Tail()), pos, pos + |s|, [])
    decreases |s|
  {
    hide Gives, Refuses, Tail;
    OneNameChar(buffer, pos);
    if s == "" {
      StarStops(buffer, Tail(), pos);
    } else {
      assert buffer[pos] == s[0] as nat;
      assert s[..1] + s[1..] == s;
      HasParts(buffer, pos, s[..1], s[1..]);
      NameRun(buffer, pos + 1, s[1..]);
      StarGives(buffer, Tail(), pos, pos + 1, pos + |s|, [], []);
      NoShapes();
    }
  }

  /** A letter, and then letters, digits and dots. */
  predicate IsName(s: string) {
    s != "" && Letter(s[0] as nat) && NameChars(s)
  }

  function NameShape(s: string): Shape {
    Branch(IDENTIFIER, [Leaf(Codes(s))])
  }

  function NameExpr(): Expr {
    Cat(Call(LETTER), Star(Tail()))
  }

  lemma NameRule()
    ensures Thrift(IDENTIFIER) == Spaced(ThriftGrammar.Take(NameExpr()))
  {
  }

  /** What is matched is taken as it stands. */
  lemma TakenLands(buffer: seq<nat>, rule: nat, e: Expr, s: string, pos: nat, on: nat, next: nat)
    requires rule != PEG_TEXT && !IsBlank(rule) && Thrift(rule) == Spaced(ThriftGrammar.Take(e)) && Plain(s)
    requires 0 < on && Ready(buffer, pos, on) && Stands(buffer, on, s, next) && Gives(buffer, e, on, on + |s|, [])
    ensures Lands(buffer, Call(rule), pos, next, [Branch(rule, [Leaf(Codes(s))])])
  {
    hide Gives, Lands, Ready, Thrift, Taken;
    TakeGives(buffer, e, on, on + |s|, []);
    TakesText(buffer, on, s);
    SpacedLands(buffer, ThriftGrammar.Take(e), pos, on, on + |s|, next, [Leaf(Codes(s))]);
    RuleLands(buffer, rule, pos, next, [Leaf(Codes(s))]);
  }

  lemma TakenRefuses(buffer: seq<nat>, rule: nat, e: Expr, pos: nat, on: nat)
    requires Thrift(rule) == Spaced(ThriftGrammar.Take(e)) && Ready(buffer, pos, on) && Refuses(buffer, e, on)
    ensures Refuses(buffer, Call(rule), pos)
  {
    hide Refuses, Ready, Thrift;
    TakeRefuses(buffer, e, on);
    SpacedRefuses(buffer, ThriftGrammar.Take(e), pos, on);
    RuleRefuses(buffer, rule, pos);
  }

  lemma NameGives(buffer: seq<nat>, s: string, pos: nat, on: nat, next: nat)
    requires 0 < on && Ready(buffer, pos, on) && IsName(s) && Stands(buffer, on, s, next)
    ensures Lands(buffer, Call(IDENTIFIER), pos, next, [NameShape(s)])
  {
    hide Gives, Refuses, Lands, Tail, Skipped;
    assert buffer[on] == s[0] as nat;
    OneLetter(buffer, on);
    assert s[..1] + s[1..] == s;
    HasParts(buffer, on, s[..1], s[1..]);
    NameRun(buffer, on + 1, s[1..]);
    CatGives(buffer, Call(LETTER), Star(Tail()), on, on + 1, on + |s|, [], []);
    NoShapes();
    NameRule();
    TakenLands(buffer, IDENTIFIER, NameExpr(), s, pos, on, next);
  }

  lemma NameRefuses(buffer: seq<nat>, pos: nat, on: nat)
    requires Ready(buffer, pos, on) && !Letter(buffer[on])
    ensures Refuses(buffer, Call(IDENTIFIER), pos)
  {
    hide Gives, Refuses, Tail, Skipped;
    OneLetter(buffer, on);
    CatRefuses(buffer, Call(LETTER), Star(Tail()), on);
    NameRule();
    TakenRefuses(buffer, IDENTIFIER, NameExpr(), pos, on);
  }

  // ----- numbers -----

  predicate Digits(s: string) {
    forall i :: 0 <= i < |s| ==> Digit(s[i] as nat)
  }

  predicate IsAlnum(s: string) {
    forall i :: 0 <= i < |s| ==> Digit(s[i] as nat) || Upper(s[i] as nat) || Lower(s[i] as nat)
  }

  /** Digits with or without a sign, `0x` and digits or letters, `0o` and digits. */
  predicate IsInteger(s: string) {
    s != "" && (IsDecimal(s) || (|s| > 2 && s[..2] == "0x" && IsAlnum(s[2..])) || (|s| > 2 && s[..2] == "0o" && Digits(s[2..])))
  }

  predicate IsDecimal(s: string)
    requires s != ""
  {
    Digits(s) || (IsSign(s[..1]) && |s| > 1 && Digits(s[1..]))
  }

  predicate IsSign(s: string) {
    s == "" || s == "+" || s == "-"
  }

  lemma {:induction false} DigitRun(buffer: seq<nat>, pos: nat, s: string)
    requires Has(buffer, pos, s) && Digits(s) && pos + |s| < |buffer| && !Digit(buffer[pos + |s|])
    ensures Gives(buffer, Star(Call(DIGIT)), pos, pos + |s|, [])
    ensures s != "" ==> Gives(buffer, Plus(Call(DIGIT)), pos, pos + |s|, [])
    ensures s == "" ==> Refuses(buffer, Plus(Call(DIGIT)), pos)
    decreases |s|
  {
    hide Gives, Refuses;
    OneDigit(buffer, pos);
    NoShapes();
    if s == "" {
      StarStops(buffer, Call(DIGIT), pos);
      CatRefuses(buffer, Call(DIGIT), Star(Call(DIGIT)), pos);
    } else {
      assert buffer[pos] == s[0] as nat;
      assert s[..1] + s[1..] == s;
      HasParts(buffer, pos, s[..1], s[1..]);
      DigitRun(buffer, pos + 1, s[1..]);
      StarGives(buffer, Call(DIGIT), pos, pos + 1, pos + |s|, [], []);
      CatGives(buffer, Call(DIGIT), Star(Call(DIGIT)), pos, pos + 1, pos + |s|, [], []);
    }
  }

  lemma SignGives(buffer: seq<nat>, pos: nat, sign: string)
    requires IsSign(sign) && Has(buffer, pos, sign) && pos + |sign| < |buffer|
    requires buffer[pos + |sign|] != '+' as nat && buffer[pos + |sign|] != '-' as nat
    ensures Gives(buffer, Sign(), pos, pos + |sign|, [])
  {
    hide Gives, Refuses, Alt, Char;
    var es := [Char('+'), Char('-')];
    IsChar(buffer, '+', pos);
    IsChar(buffer, '-', pos);
    if sign == "" {
      AltRefuses(buffer, es, pos);
      OptSkips(buffer, Alt(es), pos);
    } else {
      assert buffer[pos] == sign[0] as nat;
      AltGives(buffer, es, if sign == "+" then 0 else 1, pos, pos + 1, []);
      OptGives(buffer, Alt(es), pos, pos + 1, []);
    }
  }

  /** Neither `e` nor `E`, a digit, a dot or a sign. */
  predicate EndsNumber(c: nat) {
    !Digit(c) && c != '.' as nat && c != 'e' as nat && c != 'E' as nat && c != '+' as nat && c != '-' as nat
  }

  lemma NoExponent(buffer: seq<nat>, pos: nat)
    requires pos < |buffer| && EndsNumber(buffer[pos])
    ensures Refuses(buffer, Call(EXPONENT), pos)
  {
    hide Gives, Refuses, Alt, Char;
    var es := [Char('e'), Char('E')];
    IsChar(buffer, 'e', pos);
    IsChar(buffer, 'E', pos);
    AltRefuses(buffer, es, pos);
    CatRefuses(buffer, Alt(es), Call(INT_CONSTANT), pos);
    assert Thrift(EXPONENT) == Cat(Alt(es), Call(INT_CONSTANT));
    RuleRefuses(buffer, EXPONENT, pos);
  }

  function Pointed(): seq<Expr> {
    [Star(Call(DIGIT)), Char('.'), Plus(Call(DIGIT)), Opt(Call(EXPONENT))]
  }

  function Powered(): Expr {
    Cat(Plus(Call(DIGIT)), Call(EXPONENT))
  }

  lemma DoubleRule()
    ensures Double() == Alt([Seq(Pointed()), Powered()])
    ensures Thrift(DOUBLE_CONSTANT) == Spaced(ThriftGrammar.Take(Cat(Sign(), Double())))
  {
  }

  /** Digits, a dot and digits are one number with a fraction. */
  lemma DoubleGives(buffer: seq<nat>, sign: string, a: string, b: string, pos: nat, on: nat, next: nat)
    requires 0 < on && Ready(buffer, pos, on) && IsSign(sign) && Digits(a) && Digits(b) && b != ""
    requires Stands(buffer, on, sign + (a + ("." + b)), next)
    ensures Lands(buffer, Call(DOUBLE_CONSTANT), pos, next, [Branch(DOUBLE_CONSTANT, [Leaf(Codes(sign + (a + ("." + b))))])])
  {
    hide Gives, Refuses, Lands, Alt, Char, Sign, Plus, Seq, Skipped;
    var text := sign + (a + ("." + b));
    var start := on + |sign|;
    var dot, mid := start + |a|, on + |text|;
    HasParts(buffer, on, sign, a + ("." + b));
    HasParts(buffer, start, a, "." + b);
    HasParts(buffer, dot, ".", b);
    assert text[|text| - 1] == b[|b| - 1];
    assert buffer[dot] == "."[0] as nat;
    assert a != "" ==> buffer[start] == a[0] as nat;
    SignGives(buffer, on, sign);
    DigitRun(buffer, start, a);
    IsChar(buffer, '.', dot);
    DigitRun(buffer, dot + 1, b);
    NoExponent(buffer, mid);
    OptSkips(buffer, Call(EXPONENT), mid);
    var none: seq<seq<Shape>> := [[], [], [], []];
    SeqGives(buffer, Pointed(), [start, dot, dot + 1, mid, mid], none);
    FlatNothing(none);
    AltGives(buffer, [Seq(Pointed()), Powered()], 0, start, mid, []);
    DoubleRule();
    CatGives(buffer, Sign(), Double(), on, start, mid, [], []);
    NoShapes();
    TakenLands(buffer, DOUBLE_CONSTANT, Cat(Sign(), Double()), text, pos, on, next);
  }

  predicate IsPower(mark: string, c: string) {
    (mark == "e" || mark == "E") && IsInteger(c)
  }

  lemma NotSkipped(buffer: seq<nat>, pos: nat)
    requires Source(buffer) && pos < |buffer| && (Digit(buffer[pos]) || buffer[pos] == '+' as nat || buffer[pos] == '-' as nat)
    ensures Ready(buffer, pos, pos)
  {
    var long, line, sharp := "/*"[0], "//"[0], "#"[0];
  }

  function PowerShape(c: string): Shape {
    Branch(EXPONENT, [Branch(INT_CONSTANT, [Leaf(Codes(c))])])
  }

  /** The digits of an exponent are an integer of their own, with the blanks behind it. */
  lemma ExponentGives(buffer: seq<nat>, mark: string, c: string, pos: nat, next: nat) returns (end: nat)
    requires Source(buffer) && IsPower(mark, c) && Has(buffer, pos, mark + c) && pos + 1 + |c| < |buffer|
    requires Ready(buffer, pos + 1 + |c|, next) && Apart(c, buffer[pos + 1 + |c|])
    ensures Ready(buffer, end, next) && Gives(buffer, Call(EXPONENT), pos, end, [PowerShape(c)]) && pos < end
  {
    hide Gives, Refuses, Lands, Alt, Char, Skipped;
    var es := [Char('e'), Char('E')];
    HasParts(buffer, pos, mark, c);
    assert buffer[pos] == mark[0] as nat;
    assert buffer[pos + 1] == c[0] as nat;
    IsChar(buffer, 'e', pos);
    IsChar(buffer, 'E', pos);
    AltGives(buffer, es, if mark == "e" then 0 else 1, pos, pos + 1, []);
    IntegerStarts(c);
    NotSkipped(buffer, pos + 1);
    IntegerIsRead(buffer, c, pos + 1, pos + 1, next);
    end := Landing(buffer, Call(INT_CONSTANT), pos + 1, next, [Branch(INT_CONSTANT, [Leaf(Codes(c))])]);
    CatGives(buffer, Alt(es), Call(INT_CONSTANT), pos, pos + 1, end, [], [Branch(INT_CONSTANT, [Leaf(Codes(c))])]);
    assert [] + [Branch(INT_CONSTANT, [Leaf(Codes(c))])] == [Branch(INT_CONSTANT, [Leaf(Codes(c))])];
    assert Thrift(EXPONENT) == Cat(Alt(es), Call(INT_CONSTANT));
    RuleGives(buffer, EXPONENT, pos, end, [Branch(INT_CONSTANT, [Leaf(Codes(c))])]);
  }

  lemma Landing(buffer: seq<nat>, e: Expr, pos: nat, next: nat, s: seq<Shape>) returns (end: nat)
    requires Lands(buffer, e, pos, next, s)
    ensures Ready(buffer, end, next) && Gives(buffer, e, pos, end, s) && pos <= end
  {
    end :| Ready(buffer, end, next) && Gives(buffer, e, pos, end, s);
  }

  /** What is in front of an exponent: digits, or digits with a point in them. */
  function Mantissa(a: string, b: string): string {
    a + (if b == "" then "" else "." + b)
  }

  lemma MantissaBegins(a: string, b: string)
    requires Digits(a) && (a != "" || b != "")
    ensures Mantissa(a, b) != "" && Mantissa(a, b)[0] != '+' && Mantissa(a, b)[0] != '-'
  {
  }

  lemma PowerIsTaken(buffer: seq<nat>, c: string, begin: nat, end: nat)
    requires c != ""
    ensures Taken(buffer, [PowerShape(c)], begin, end) == Leaf(Codes(c))
  {
    var leaf := [Leaf(Codes(c))];
    var number := [Branch(INT_CONSTANT, leaf)];
    assert FirstText(leaf) == Some(Codes(c));
    assert FirstText(number) == Some(Codes(c));
    assert FirstText([PowerShape(c)]) == Some(Codes(c));
  }

  /** Digits and an exponent. */
  lemma PlainPower(buffer: seq<nat>, a: string, start: nat, end: nat, shape: seq<Shape>)
    requires Digits(a) && a != "" && Has(buffer, start, a) && start + |a| < |buffer| && !Digit(buffer[start + |a|])
    requires buffer[start + |a|] != '.' as nat && Gives(buffer, Call(EXPONENT), start + |a|, end, shape)
    ensures Gives(buffer, Double(), start, end, shape)
  {
    hide Gives, Refuses, Alt, Char, Plus, Seq;
    var mid := start + |a|;
    DoubleRule();
    DigitRun(buffer, start, a);
    IsChar(buffer, '.', mid);
    SeqRefuses(buffer, Pointed(), [start, mid], [[]]);
    CatGives(buffer, Plus(Call(DIGIT)), Call(EXPONENT), start, mid, end, [], shape);
    assert [] + shape == shape;
    AltGives(buffer, [Seq(Pointed()), Powered()], 1, start, end, shape);
  }

  /** Digits with a point in them and an exponent. */
  lemma PointPower(buffer: seq<nat>, a: string, b: string, start: nat, end: nat, shape: seq<Shape>)
    requires Digits(a) && Digits(b) && b != "" && Has(buffer, start, a + ("." + b))
    requires var mid := start + |a| + 1 + |b|;
             mid < |buffer| && !Digit(buffer[mid]) && Gives(buffer, Call(EXPONENT), mid, end, shape)
    ensures Gives(buffer, Double(), start, end, shape)
  {
    hide Gives, Refuses, Alt, Char, Plus, Seq;
    var dot, mid := start + |a|, start + |a| + 1 + |b|;
    DoubleRule();
    HasParts(buffer, start, a, "." + b);
    HasParts(buffer, dot, ".", b);
    assert buffer[dot] == "."[0] as nat;
    DigitRun(buffer, start, a);
    IsChar(buffer, '.', dot);
    DigitRun(buffer, dot + 1, b);
    OptGives(buffer, Call(EXPONENT), mid, end, shape);
    SeqGives(buffer, Pointed(), [start, dot, dot + 1, mid, end], [[], [], [], shape]);
    FlatLast(shape);
    AltGives(buffer, [Seq(Pointed()), Powered()], 0, start, end, shape);
  }

  lemma PowerGives(buffer: seq<nat>, a: string, b: string, mark: string, c: string, start: nat, next: nat) returns (end: nat)
    requires Source(buffer) && Digits(a) && Digits(b) && (a != "" || b != "") && IsPower(mark, c)
    requires var text := Mantissa(a, b) + (mark + c);
             && Has(buffer, start, text) && start + |text| < |buffer|
             && Ready(buffer, start + |text|, next) && Apart(c, buffer[start + |text|])
    ensures Ready(buffer, end, next) && Gives(buffer, Double(), start, end, [PowerShape(c)]) && start < end
  {
    hide Gives, Double, Ready, PowerShape;
    var mid := start + |Mantissa(a, b)|;
    HasParts(buffer, start, Mantissa(a, b), mark + c);
    HasParts(buffer, mid, mark, c);
    assert buffer[mid] == mark[0] as nat;
    end := ExponentGives(buffer, mark, c, mid, next);
    if b == "" {
      assert Mantissa(a, b) == a;
      PlainPower(buffer, a, start, end, [PowerShape(c)]);
    } else {
      PointPower(buffer, a, b, start, end, [PowerShape(c)]);
    }
  }

  lemma FlatLast(s: seq<Shape>)
    ensures Flat([[], [], [], s]) == s
  {
    var ss := [[], [], [], s];
    assert ss[1..] == [[], [], s] && ss[1..][1..] == [[], s] && ss[1..][1..][1..] == [s] && ss[1..][1..][1..][1..] == [];
    assert Flat(ss[1..][1..][1..]) == s + Flat([]) == s;
    assert Flat(ss[1..][1..]) == [] + Flat(ss[1..][1..][1..]) == s;
    assert Flat(ss[1..]) == [] + Flat(ss[1..][1..]) == s;
  }

  /** A number with an exponent is one number, but what is taken of it is the exponent. */
  lemma DoublePowerGives(buffer: seq<nat>, sign: string, a: string, b: string, mark: string, c: string,
                         pos: nat, on: nat, next: nat)
    requires Ready(buffer, pos, on) && IsSign(sign) && Digits(a) && Digits(b) && (a != "" || b != "") && IsPower(mark, c)
    requires Stands(buffer, on, sign + (Mantissa(a, b) + (mark + c)), next)
    ensures Lands(buffer, Call(DOUBLE_CONSTANT), pos, next, [Branch(DOUBLE_CONSTANT, [Leaf(Codes(c))])])
  {
    hide Gives, Refuses, Lands, Alt, Char, Sign, Plus, Seq, Ready, Double, Taken;
    var text := Mantissa(a, b) + (mark + c);
    var start := on + |sign|;
    ReadyIs(buffer, pos, on);
    HasParts(buffer, on, sign, text);
    MantissaBegins(a, b);
    HasParts(buffer, start, Mantissa(a, b), mark + c);
    assert buffer[start] == Mantissa(a, b)[0] as nat;
    IntegerStarts(c);
    assert (sign + text)[|sign + text| - 1] == c[|c| - 1];
    SignGives(buffer, on, sign);
    var end := PowerGives(buffer, a, b, mark, c, start, next);
    CatGives(buffer, Sign(), Double(), on, start, end, [], [PowerShape(c)]);
    assert [] + [PowerShape(c)] == [PowerShape(c)];
    TakeGives(buffer, Cat(Sign(), Double()), on, end, [PowerShape(c)]);
    PowerIsTaken(buffer, c, on, end);
    DoubleRule();
    SpacedLands(buffer, ThriftGrammar.Take(Cat(Sign(), Double())), pos, on, end, next, [Leaf(Codes(c))]);
    RuleLands(buffer, DOUBLE_CONSTANT, pos, next, [Leaf(Codes(c))]);
  }

  /** Digits alone, or none at all, are no number with a fraction. */
  lemma DoubleRefuses(buffer: seq<nat>, sign: string, a: string, pos: nat, on: nat)
    requires Ready(buffer, pos, on) && IsSign(sign) && Digits(a)
    requires Has(buffer, on, sign + a) && on + |sign| + |a| < |buffer| && EndsNumber(buffer[on + |sign| + |a|])
    ensures Refuses(buffer, Call(DOUBLE_CONSTANT), pos)
  {
    hide Gives, Refuses, Alt, Char, Sign, Seq, Skipped;
    var start := on + |sign|;
    var mid := start + |a|;
    HasParts(buffer, on, sign, a);
    assert a != "" ==> buffer[start] == a[0] as nat;
    SignGives(buffer, on, sign);
    DigitRun(buffer, start, a);
    IsChar(buffer, '.', mid);
    SeqRefuses(buffer, Pointed(), [start, mid], [[]]);
    NoExponent(buffer, mid);
    if a == "" {
      CatRefuses(buffer, Plus(Call(DIGIT)), Call(EXPONENT), start);
    } else {
      CatStops(buffer, Plus(Call(DIGIT)), Call(EXPONENT), start, mid, []);
    }
    AltRefuses(buffer, [Seq(Pointed()), Powered()], start);
    DoubleRule();
    CatStops(buffer, Sign(), Double(), on, start, []);
    TakenRefuses(buffer, DOUBLE_CONSTANT, Cat(Sign(), Double()), pos, on);
  }

  function Hex(): Expr {
    Cat(Text("0x"), Plus(Alt([Chars('0', '9'), Chars('A', 'Z'), Chars('a', 'z')])))
  }

  function Octal(): Expr {
    Cat(Text("0o"), Plus(Call(DIGIT)))
  }

  lemma IntegerRule()
    ensures Integer() == Alt([Hex(), Octal(), Cat(Sign(), Plus(Call(DIGIT)))])
    ensures Thrift(INT_CONSTANT) == Spaced(ThriftGrammar.Take(Integer()))
  {
  }

  /** The other ways of writing an integer start with `0x` and `0o`. */
  lemma NotHex(buffer: seq<nat>, pos: nat)
    requires Source(buffer) && pos + 1 < |buffer|
    requires buffer[pos] == '0' as nat ==> buffer[pos + 1] != 'x' as nat && buffer[pos + 1] != 'o' as nat
    ensures Refuses(buffer, Hex(), pos) && Refuses(buffer, Octal(), pos)
  {
    hide Gives, Refuses, Alt, Plus, Text;
    TextMatches(buffer, "0x", pos);
    TextMatches(buffer, "0o", pos);
    var zero, zero', x, o := "0x"[0], "0o"[0], "0x"[1], "0o"[1];
    CatRefuses(buffer, Text("0x"), Plus(Alt([Chars('0', '9'), Chars('A', 'Z'), Chars('a', 'z')])), pos);
    CatRefuses(buffer, Text("0o"), Plus(Call(DIGIT)), pos);
  }

  lemma IntegerGives(buffer: seq<nat>, sign: string, a: string, pos: nat, on: nat, next: nat)
    requires 0 < on && Ready(buffer, pos, on) && IsSign(sign) && Digits(a) && a != "" && Stands(buffer, on, sign + a, next)
    ensures Lands(buffer, Call(INT_CONSTANT), pos, next, [Branch(INT_CONSTANT, [Leaf(Codes(sign + a))])])
  {
    hide Gives, Refuses, Lands, Alt, Sign, Plus, Hex, Octal, Skipped;
    var start := on + |sign|;
    var mid := start + |a|;
    HasParts(buffer, on, sign, a);
    assert (sign + a)[|sign + a| - 1] == a[|a| - 1];
    assert buffer[start] == a[0] as nat;
    assert |a| > 1 ==> buffer[start + 1] == a[1] as nat;
    assert sign != "" ==> buffer[on] == sign[0] as nat;
    SignGives(buffer, on, sign);
    DigitRun(buffer, start, a);
    NotHex(buffer, on);
    var plain := Cat(Sign(), Plus(Call(DIGIT)));
    CatGives(buffer, Sign(), Plus(Call(DIGIT)), on, start, mid, [], []);
    NoShapes();
    AltGives(buffer, [Hex(), Octal(), plain], 2, on, mid, []);
    IntegerRule();
    TakenLands(buffer, INT_CONSTANT, Integer(), sign + a, pos, on, next);
  }

  function Alnum(): Expr {
    Alt([Chars('0', '9'), Chars('A', 'Z'), Chars('a', 'z')])
  }

  lemma OneAlnum(buffer: seq<nat>, pos: nat)
    requires pos < |buffer|
    ensures Digit(buffer[pos]) || Upper(buffer[pos]) || Lower(buffer[pos]) ==> Gives(buffer, Alnum(), pos, pos + 1, [])
    ensures !(Digit(buffer[pos]) || Upper(buffer[pos]) || Lower(buffer[pos])) ==> Refuses(buffer, Alnum(), pos)
  {
    hide Gives, Refuses, Alt, Chars;
    var es := [Chars('0', '9'), Chars('A', 'Z'), Chars('a', 'z')];
    Between(buffer, '0', '9', pos);
    Between(buffer, 'A', 'Z', pos);
    Between(buffer, 'a', 'z', pos);
    var c := buffer[pos];
    if Digit(c) || Upper(c) || Lower(c) {
      AltGives(buffer, es, if Digit(c) then 0 else if Upper(c) then 1 else 2, pos, pos + 1, []);
    } else {
      AltRefuses(buffer, es, pos);
    }
  }

  lemma {:induction false} AlnumRun(buffer: seq<nat>, pos: nat, s: string)
    requires Has(buffer, pos, s) && IsAlnum(s) && pos + |s| < |buffer| && !NameChar(buffer[pos + |s|])
    ensures Gives(buffer, Star(Alnum()), pos, pos + |s|, [])
    ensures s != "" ==> Gives(buffer, Plus(Alnum()), pos, pos + |s|, [])
    decreases |s|
  {
    hide Gives, Refuses, Alnum;
    OneAlnum(buffer, pos);
    NoShapes();
    if s == "" {
      StarStops(buffer, Alnum(), pos);
    } else {
      assert buffer[pos] == s[0] as nat;
      assert s[..1] + s[1..] == s;
      HasParts(buffer, pos, s[..1], s[1..]);
      AlnumRun(buffer, pos + 1, s[1..]);
      StarGives(buffer, Alnum(), pos, pos + 1, pos + |s|, [], []);
      CatGives(buffer, Alnum(), Star(Alnum()), pos, pos + 1, pos + |s|, [], []);
    }
  }

  /** An integer with a prefix. */
  lemma PrefixedGives(buffer: seq<nat>, s: string, on: nat)
    requires Source(buffer) && Has(buffer, on, s) && |s| > 2 && on + |s| < |buffer| && !NameChar(buffer[on + |s|])
    requires (s[..2] == "0x" && IsAlnum(s[2..])) || (s[..2] == "0o" && Digits(s[2..]))
    ensures Gives(buffer, Integer(), on, on + |s|, [])
  {
    hide Gives, Refuses, Alt, Sign, Plus, Text;
    var prefix, rest, end := s[..2], s[2..], on + |s|;
    assert s == prefix + rest;
    HasParts(buffer, on, prefix, rest);
    TextMatches(buffer, prefix, on);
    NoShapes();
    IntegerRule();
    var plain := Cat(Sign(), Plus(Call(DIGIT)));
    if prefix == "0x" {
      AlnumRun(buffer, on + 2, rest);
      CatGives(buffer, Text("0x"), Plus(Alnum()), on, on + 2, end, [], []);
      AltGives(buffer, [Hex(), Octal(), plain], 0, on, end, []);
    } else {
      assert buffer[on + 1] == prefix[1] as nat;
      TextMatches(buffer, "0x", on);
      var x := "0x"[1];
      CatRefuses(buffer, Text("0x"), Plus(Alnum()), on);
      DigitRun(buffer, on + 2, rest);
      CatGives(buffer, Text("0o"), Plus(Call(DIGIT)), on, on + 2, end, [], []);
      AltGives(buffer, [Hex(), Octal(), plain], 1, on, end, []);
    }
  }

  lemma IntegerStarts(s: string)
    requires IsInteger(s)
    ensures Plain(s) && NameChar(s[|s| - 1] as nat) && (Digit(s[0] as nat) || s[0] == '+' || s[0] == '-')
  {
    var zero, zero' := "0x"[0], "0o"[0];
    if Digits(s) {
      assert forall i :: 0 <= i < |s| ==> Digit(s[i] as nat);
    } else if IsDecimal(s) {
      assert s[|s| - 1] == s[1..][|s| - 2];
      assert forall i :: 1 <= i < |s| ==> s[i] == s[1..][i - 1];
    } else {
      assert s[0] == s[..2][0] && s[1] == s[..2][1];
      assert s[|s| - 1] == s[2..][|s| - 3];
      assert forall i :: 2 <= i < |s| ==> s[i] == s[2..][i - 2];
    }
  }

  lemma DecimalIsRead(buffer: seq<nat>, sign: string, a: string, pos: nat, on: nat, next: nat)
    requires 0 < on && Ready(buffer, pos, on) && IsSign(sign) && Digits(a) && a != "" && Stands(buffer, on, sign + a, next)
    ensures Lands(buffer, Call(INT_CONSTANT), pos, next, [Branch(INT_CONSTANT, [Leaf(Codes(sign + a))])])
    ensures Refuses(buffer, Call(DOUBLE_CONSTANT), pos)
  {
    hide Lands, Refuses, Skipped, Has;
    IntegerGives(buffer, sign, a, pos, on, next);
    assert (sign + a)[|sign + a| - 1] == a[|a| - 1];
    DoubleRefuses(buffer, sign, a, pos, on);
  }

  lemma PrefixedIsRead(buffer: seq<nat>, s: string, pos: nat, on: nat, next: nat)
    requires 0 < on && Ready(buffer, pos, on) && |s| > 2 && IsInteger(s) && !IsDecimal(s) && Stands(buffer, on, s, next)
    ensures Lands(buffer, Call(INT_CONSTANT), pos, next, [Branch(INT_CONSTANT, [Leaf(Codes(s))])])
    ensures Refuses(buffer, Call(DOUBLE_CONSTANT), pos)
  {
    hide Lands, Refuses, Skipped, Gives, Integer;
    IntegerStarts(s);
    PrefixedGives(buffer, s, on);
    IntegerRule();
    TakenLands(buffer, INT_CONSTANT, Integer(), s, pos, on, next);
    assert s[0] == s[..2][0] && s[1] == s[..2][1];
    assert s == s[..1] + s[1..];
    HasParts(buffer, on, s[..1], s[1..]);
    assert buffer[on + 1] == s[1] as nat;
    assert "" + s[..1] == s[..1];
    DoubleRefuses(buffer, "", s[..1], pos, on);
  }

  /** Every way of writing an integer is one integer and no number with a fraction. */
  lemma IntegerIsRead(buffer: seq<nat>, s: string, pos: nat, on: nat, next: nat)
    requires 0 < on && Ready(buffer, pos, on) && IsInteger(s) && Stands(buffer, on, s, next)
    ensures Lands(buffer, Call(INT_CONSTANT), pos, next, [Branch(INT_CONSTANT, [Leaf(Codes(s))])])
    ensures Refuses(buffer, Call(DOUBLE_CONSTANT), pos)
  {
    hide Lands, Refuses, Ready, Stands, Codes;
    if Digits(s) {
      assert "" + s == s;
      DecimalIsRead(buffer, "", s, pos, on, next);
    } else if IsDecimal(s) {
      assert s[..1] + s[1..] == s;
      DecimalIsRead(buffer, s[..1], s[1..], pos, on, next);
    } else {
      PrefixedIsRead(buffer, s, pos, on, next);
    }
  }

  /** What starts no number. */
  predicate NoNumber(c: nat) {
    !Digit(c) && c != '.' as nat && c != '+' as nat && c != '-' as nat
  }

  lemma IntegerRefuses(buffer: seq<nat>, pos: nat, on: nat)
    requires Ready(buffer, pos, on) && NoNumber(buffer[on])
    ensures Refuses(buffer, Call(INT_CONSTANT), pos)
  {
    hide Gives, Refuses, Alt, Sign, Plus, Text, Skipped;
    TextStarts(buffer, "0x", on);
    TextStarts(buffer, "0o", on);
    CatRefuses(buffer, Text("0x"), Plus(Alt([Chars('0', '9'), Chars('A', 'Z'), Chars('a', 'z')])), on);
    CatRefuses(buffer, Text("0o"), Plus(Call(DIGIT)), on);
    SignGives(buffer, on, "");
    DigitRun(buffer, on, "");
    var plain := Cat(Sign(), Plus(Call(DIGIT)));
    CatStops(buffer, Sign(), Plus(Call(DIGIT)), on, on, []);
    AltRefuses(buffer, [Hex(), Octal(), plain], on);
    IntegerRule();
    TakenRefuses(buffer, INT_CONSTANT, Integer(), pos, on);
  }

  /** What starts no number with a fraction is refused as one, a letter too. */
  lemma NoDouble(buffer: seq<nat>, pos: nat, on: nat)
    requires Ready(buffer, pos, on) && NoNumber(buffer[on])
    ensures Refuses(buffer, Call(DOUBLE_CONSTANT), pos)
  {
    hide Gives, Refuses, Alt, Char, Sign, Seq, Skipped;
    SignGives(buffer, on, "");
    DigitRun(buffer, on, "");
    IsChar(buffer, '.', on);
    SeqRefuses(buffer, Pointed(), [on, on], [[]]);
    CatRefuses(buffer, Plus(Call(DIGIT)), Call(EXPONENT), on);
    AltRefuses(buffer, [Seq(Pointed()), Powered()], on);
    DoubleRule();
    CatStops(buffer, Sign(), Double(), on, on, []);
    TakenRefuses(buffer, DOUBLE_CONSTANT, Cat(Sign(), Double()), pos, on);
  }

  // ----- quoted texts -----

  function Piece(c: char): Expr {
    Alt([Call(ESCAPE_LITERAL_CHAR), Cat(Not(Char(c)), Dot)])
  }

  predicate IsQuote(c: char) {
    c == '"' || c == '\''
  }

  /** The text between quotes: a quote in it has a backslash before it. */
  function Escaped(c: char, s: string): string {
    if s == "" then "" else (if s[0] == c then ['\\', c] else [s[0]]) + Escaped(c, s[1..])
  }

  /** A backslash stands before something that is neither a backslash nor a quote of that kind. */
  predicate Quotable(c: char, s: string) {
    forall i :: 0 <= i < |s| && s[i] == '\\' ==> i + 1 < |s| && s[i + 1] != '\\' && s[i + 1] != c
  }

  /** An escape begins here. */
  predicate EscapeAt(buffer: seq<nat>, pos: nat) {
    pos + 1 < |buffer| && buffer[pos] == '\\' as nat && (buffer[pos + 1] == '"' as nat || buffer[pos + 1] == '\'' as nat)
  }

  lemma EscapeMatches(buffer: seq<nat>, pos: nat)
    requires pos + 1 < |buffer|
    ensures EscapeAt(buffer, pos) ==> Gives(buffer, Call(ESCAPE_LITERAL_CHAR), pos, pos + 2, [])
    ensures !EscapeAt(buffer, pos) ==> Refuses(buffer, Call(ESCAPE_LITERAL_CHAR), pos)
  {
    hide Gives, Refuses, Alt, Char;
    var es := [Char('"'), Char('\'')];
    assert Thrift(ESCAPE_LITERAL_CHAR) == Cat(Char('\\'), Alt(es));
    IsChar(buffer, '\\', pos);
    IsChar(buffer, '"', pos + 1);
    IsChar(buffer, '\'', pos + 1);
    if EscapeAt(buffer, pos) {
      AltGives(buffer, es, if buffer[pos + 1] == '"' as nat then 0 else 1, pos + 1, pos + 2, []);
      CatGives(buffer, Char('\\'), Alt(es), pos, pos + 1, pos + 2, [], []);
      NoShapes();
      RuleGives(buffer, ESCAPE_LITERAL_CHAR, pos, pos + 2, []);
    } else {
      if buffer[pos] == '\\' as nat {
        AltRefuses(buffer, es, pos + 1);
        CatStops(buffer, Char('\\'), Alt(es), pos, pos + 1, []);
      } else {
        CatRefuses(buffer, Char('\\'), Alt(es), pos);
      }
      RuleRefuses(buffer, ESCAPE_LITERAL_CHAR, pos);
    }
  }

  lemma OnePiece(buffer: seq<nat>, c: char, pos: nat)
    requires pos + 1 < |buffer| && buffer[pos] != EndSymbol
    ensures EscapeAt(buffer, pos) ==> Gives(buffer, Piece(c), pos, pos + 2, [])
    ensures !EscapeAt(buffer, pos) && buffer[pos] != c as nat ==> Gives(buffer, Piece(c), pos, pos + 1, [])
    ensures !EscapeAt(buffer, pos) && buffer[pos] == c as nat ==> Refuses(buffer, Piece(c), pos)
  {
    hide Gives, Refuses, Alt, Char;
    EscapeMatches(buffer, pos);
    IsChar(buffer, c, pos);
    AnyChar(buffer, pos);
    var other := Cat(Not(Char(c)), Dot);
    if EscapeAt(buffer, pos) {
      AltGives(buffer, [Call(ESCAPE_LITERAL_CHAR), other], 0, pos, pos + 2, []);
    } else if buffer[pos] != c as nat {
      NotGives(buffer, Char(c), pos);
      CatGives(buffer, Not(Char(c)), Dot, pos, pos, pos + 1, [], []);
      NoShapes();
      AltGives(buffer, [Call(ESCAPE_LITERAL_CHAR), other], 1, pos, pos + 1, []);
    } else {
      NotRefuses(buffer, Char(c), pos, pos + 1, []);
      CatRefuses(buffer, Not(Char(c)), Dot, pos);
      AltRefuses(buffer, [Call(ESCAPE_LITERAL_CHAR), other], pos);
    }
  }

  lemma EscapedStarts(c: char, s: string)
    requires s != ""
    ensures Escaped(c, s) == (if s[0] == c then ['\\', c] else [s[0]]) + Escaped(c, s[1..])
    ensures |Escaped(c, s)| > 0
  {
  }

  /** Where the pieces of a quoted text begin: at the first of two characters if there is an escape. */
  lemma PieceAt(buffer: seq<nat>, c: char, pos: nat, s: string)
    requires s != "" && Has(buffer, pos, Escaped(c, s)) && Quotable(c, s) && IsQuote(c)
    requires pos + |Escaped(c, s)| < |buffer|
    ensures s[0] == c ==> EscapeAt(buffer, pos) && buffer[pos + 1] == c as nat && Has(buffer, pos + 2, Escaped(c, s[1..])) && |Escaped(c, s)| == 2 + |Escaped(c, s[1..])|
    ensures s[0] != c ==> buffer[pos] == s[0] as nat && Has(buffer, pos + 1, Escaped(c, s[1..])) && |Escaped(c, s)| == 1 + |Escaped(c, s[1..])|
    ensures s[0] == '\\' && s[0] != c ==> |s| > 1 && s[1] != c && s[1] != '\\' && buffer[pos + 1] == s[1] as nat
    ensures s[0] == '\\' && s[0] != c ==> Has(buffer, pos + 2, Escaped(c, s[2..])) && |Escaped(c, s)| == 2 + |Escaped(c, s[2..])|
  {
    hide Escaped;
    EscapedStarts(c, s);
    HasParts(buffer, pos, if s[0] == c then ['\\', c] else [s[0]], Escaped(c, s[1..]));
    if s[0] == c {
      assert buffer[pos] == ['\\', c][0] as nat && buffer[pos + 1] == ['\\', c][1] as nat;
    } else {
      assert buffer[pos] == [s[0]][0] as nat;
      if s[0] == '\\' {
        var rest := s[1..];
        assert s[1] == rest[0] && rest[1..] == s[2..];
        EscapedStarts(c, rest);
        HasParts(buffer, pos + 1, [s[1]], Escaped(c, s[2..]));
        assert buffer[pos + 1] == [s[1]][0] as nat;
      }
    }
  }

  lemma QuotableRest(c: char, s: string)
    requires s != "" && Quotable(c, s)
    ensures Quotable(c, s[1..])
    ensures s[0] == '\\' ==> |s| > 1 && Quotable(c, s[2..])
  {
    forall i | 0 <= i < |s[1..]| && s[1..][i] == '\\'
      ensures i + 1 < |s[1..]| && s[1..][i + 1] != '\\' && s[1..][i + 1] != c
    {
      assert s[i + 1] == '\\';
    }
    if s[0] == '\\' {
      var rest := s[2..];
      forall i | 0 <= i < |rest| && rest[i] == '\\'
        ensures i + 1 < |rest| && rest[i + 1] != '\\' && rest[i + 1] != c
      {
        assert s[i + 2] == '\\';
      }
    }
  }

  lemma NotTheEnd(buffer: seq<nat>, c: char, pos: nat, s: string)
    requires Source(buffer) && s != "" && pos + |Escaped(c, s)| < |buffer|
    ensures pos + 1 < |buffer| && buffer[pos] != EndSymbol
  {
    EscapedStarts(c, s);
  }

  lemma {:induction false} PieceRun(buffer: seq<nat>, c: char, pos: nat, s: string)
    requires Source(buffer) && Has(buffer, pos, Escaped(c, s)) && Quotable(c, s) && IsQuote(c)
    requires pos + |Escaped(c, s)| < |buffer| && buffer[pos + |Escaped(c, s)|] == c as nat
    ensures Gives(buffer, Star(Piece(c)), pos, pos + |Escaped(c, s)|, [])
    decreases |s|
  {
    hide Gives, Refuses, Piece, Has, Quotable;
    NoShapes();
    if s == "" {
      assert pos + 1 < |buffer|;
      OnePiece(buffer, c, pos);
      StarStops(buffer, Piece(c), pos);
    } else {
      NotTheEnd(buffer, c, pos, s);
      PieceAt(buffer, c, pos, s);
      QuotableRest(c, s);
      OnePiece(buffer, c, pos);
      var two := EscapeAt(buffer, pos) && s[0] != c;
      var mid := if EscapeAt(buffer, pos) then pos + 2 else pos + 1;
      PieceRun(buffer, c, mid, if two then s[2..] else s[1..]);
      StarGives(buffer, Piece(c), pos, mid, pos + |Escaped(c, s)|, [], []);
    }
  }

  /** Without the backslashes the text is the one that was quoted. */
  lemma {:induction false} EscapedIsTaken(buffer: seq<nat>, c: char, pos: nat, s: string)
    requires s != "" && Has(buffer, pos, Escaped(c, s)) && Quotable(c, s) && IsQuote(c) && pos + |Escaped(c, s)| < |buffer|
    ensures Unescaped(buffer, c as nat, pos, pos + |Escaped(c, s)|) == Codes(s)
    decreases |s|
  {
    hide Has, Quotable, Codes;
    var end := pos + |Escaped(c, s)|;
    PieceAt(buffer, c, pos, s);
    QuotableRest(c, s);
    var rest := s[1..];
    CodesParts(s);
    if rest != "" {
      EscapedStarts(c, rest);
      EscapedIsTaken(buffer, c, if s[0] == c then pos + 2 else pos + 1, rest);
    } else {
      assert Escaped(c, rest) == "" && Codes(rest) == [];
    }
  }

  lemma CodesParts(s: string)
    requires s != ""
    ensures Codes(s) == [s[0] as nat] + Codes(s[1..])
  {
  }

  function QuoteParts(c: char): seq<Expr> {
    [Char(c), ThriftGrammar.Take(Star(Piece(c))), Char(c)]
  }

  lemma QuoteRule()
    ensures Thrift(LITERAL) == Alt([Spaced(Seq(QuoteParts('"'))), Spaced(Seq(QuoteParts('\'')))])
  {
  }

  function QuoteShape(s: string): Shape {
    Branch(LITERAL, if s == "" then [] else [Leaf(Codes(s))])
  }

  lemma QuotePartsGive(buffer: seq<nat>, c: char, s: string, on: nat)
    requires Source(buffer) && IsQuote(c) && Quotable(c, s) && Has(buffer, on, [c] + (Escaped(c, s) + [c]))
    ensures Gives(buffer, Seq(QuoteParts(c)), on, on + |Escaped(c, s)| + 2, QuoteShape(s).parts) && buffer[on] == c as nat
  {
    hide Gives, Refuses, Char, Seq, Piece, Escaped, Quotable;
    var text := Escaped(c, s);
    var close := on + 1 + |text|;
    HasParts(buffer, on, [c], text + [c]);
    HasParts(buffer, on + 1, text, [c]);
    assert buffer[on] == [c][0] as nat && buffer[close] == [c][0] as nat;
    IsChar(buffer, c, on);
    IsChar(buffer, c, close);
    PieceRun(buffer, c, on + 1, s);
    TakeGives(buffer, Star(Piece(c)), on + 1, close, []);
    EmptyEscaped(c, s);
    if s != "" {
      EscapedIsTaken(buffer, c, on + 1, s);
    }
    var shape := QuoteShape(s).parts;
    SeqGives(buffer, QuoteParts(c), [on, on + 1, close, close + 1], [[], shape, []]);
    FlatMiddle(shape);
  }

  lemma EmptyEscaped(c: char, s: string)
    ensures |Escaped(c, s)| == 0 <==> s == ""
  {
  }

  lemma QuoteGives(buffer: seq<nat>, c: char, s: string, pos: nat, on: nat, next: nat)
    requires Ready(buffer, pos, on) && IsQuote(c) && Quotable(c, s) && Stands(buffer, on, [c] + (Escaped(c, s) + [c]), next)
    ensures Lands(buffer, Call(LITERAL), pos, next, [QuoteShape(s)])
  {
    hide Gives, Refuses, Alt, Char, Spaced, Seq, Piece, Skipped, Escaped, Quotable;
    var shape := QuoteShape(s).parts;
    QuotePartsGive(buffer, c, s, on);
    IsChar(buffer, '"', on);
    var end := SpacedGives(buffer, Seq(QuoteParts(c)), pos, on, on + |Escaped(c, s)| + 2, next, shape);
    if c == '\'' {
      SeqRefuses(buffer, QuoteParts('"'), [on], []);
      SpacedRefuses(buffer, Seq(QuoteParts('"')), pos, on);
    }
    AltGives(buffer, [Spaced(Seq(QuoteParts('"'))), Spaced(Seq(QuoteParts('\'')))], if c == '"' then 0 else 1, pos, end, shape);
    QuoteRule();
    RuleGives(buffer, LITERAL, pos, end, shape);
  }

  lemma FlatMiddle(s: seq<Shape>)
    ensures Flat([[], s, []]) == s
  {
    var ss := [[], s, []];
    assert ss[1..] == [s, []] && ss[1..][1..] == [[]] && ss[1..][1..][1..] == [];
    assert Flat(ss[1..][1..]) == [] + Flat([]) == [];
    assert Flat(ss[1..]) == s + [] == s;
  }

  lemma QuoteRefuses(buffer: seq<nat>, pos: nat, on: nat)
    requires Ready(buffer, pos, on) && buffer[on] != '"' as nat && buffer[on] != '\'' as nat
    ensures Refuses(buffer, Call(LITERAL), pos)
  {
    hide Gives, Refuses, Alt, Char, Spaced, Seq, Piece, Skipped;
    IsChar(buffer, '"', on);
    IsChar(buffer, '\'', on);
    SeqRefuses(buffer, QuoteParts('"'), [on], []);
    SeqRefuses(buffer, QuoteParts('\''), [on], []);
    SpacedRefuses(buffer, Seq(QuoteParts('"')), pos, on);
    SpacedRefuses(buffer, Seq(QuoteParts('\'')), pos, on);
    AltRefuses(buffer, [Spaced(Seq(QuoteParts('"'))), Spaced(Seq(QuoteParts('\'')))], pos);
    QuoteRule();
    RuleRefuses(buffer, LITERAL, pos);
  }
}
