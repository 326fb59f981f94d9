/** The grammar of Thrift files as the generated parser has it: parser/thrift.peg.go.  Rules
    have the numbers that they have there.  It has no left recursion and repeats nothing that may be
    empty, so the nesting of every text is bounded by its length. */
module ThriftGrammar {
  import opened TokenTree
  import opened PegParser
  import opened PegBound

  // ----- rule numbers -----

  const DOCUMENT: nat := 1
  const HEADER: nat := 2
  const INCLUDE: nat := 3
  const CPP_INCLUDE: nat := 4
  const NAMESPACE: nat := 5
  const NAMESPACE_SCOPE: nat := 6
  const DEFINITION: nat := 7
  const CONST: nat := 8
  const TYPEDEF: nat := 9
  const ENUM: nat := 10
  const SERVICE: nat := 11
  const STRUCT: nat := 12
  const UNION: nat := 13
  const EXCEPTION: nat := 14
  const FIELD: nat := 15
  const FIELD_ID: nat := 16
  const FIELD_REQ: nat := 17
  const FUNCTION: nat := 18
  const FUNCTION_TYPE: nat := 19
  const THROWS: nat := 20
  const FIELD_TYPE: nat := 21
  const BASE_TYPE: nat := 22
  const CONTAINER_TYPE: nat := 23
  const MAP_TYPE: nat := 24
  const SET_TYPE: nat := 25
  const LIST_TYPE: nat := 26
  const CPP_TYPE: nat := 27
  const CONST_VALUE: nat := 28
  const INT_CONSTANT: nat := 29
  const DOUBLE_CONSTANT: nat := 30
  const EXPONENT: nat := 31
  const ANNOTATIONS: nat := 32
  const ANNOTATION: nat := 33
  const CONST_LIST: nat := 34
  const CONST_MAP: nat := 35
  const ESCAPE_LITERAL_CHAR: nat := 36
  const LITERAL: nat := 37
  const IDENTIFIER: nat := 38
  const LIST_SEPARATOR: nat := 39
  const LETTER: nat := 40
  const LETTER_OR_DIGIT: nat := 41
  const DIGIT: nat := 42
  const RESERVED_COMMENTS: nat := 43
  const RESERVED_END_LINE_COMMENTS: nat := 44
  const SKIP: nat := 45
  const SKIP_LINE: nat := 46
  const SPACE: nat := 47
  const INDENT: nat := 48
  const CARRIAGE_RETURN_LINE_FEED: nat := 49
  const COMMENT: nat := 50
  const LONG_COMMENT: nat := 51
  const LINE_COMMENT: nat := 52
  const UNIX_COMMENT: nat := 53
  const WORD_BOOL: nat := 54
  const WORD_BYTE: nat := 55
  const WORD_I8: nat := 56
  const WORD_I16: nat := 57
  const WORD_I32: nat := 58
  const WORD_I64: nat := 59
  const WORD_DOUBLE: nat := 60
  const WORD_STRING: nat := 61
  const WORD_BINARY: nat := 62
  const WORD_CONST: nat := 63
  const WORD_ONEWAY: nat := 64
  const WORD_TYPEDEF: nat := 65
  const WORD_MAP: nat := 66
  const WORD_SET: nat := 67
  const WORD_LIST: nat := 68
  const WORD_VOID: nat := 69
  const WORD_THROWS: nat := 70
  const WORD_EXCEPTION: nat := 71
  const WORD_EXTENDS: nat := 72
  const WORD_SERVICE: nat := 73
  const WORD_STRUCT: nat := 74
  const WORD_UNION: nat := 75
  const WORD_ENUM: nat := 76
  const WORD_INCLUDE: nat := 77
  const WORD_CPPINCLUDE: nat := 78
  const WORD_NAMESPACE: nat := 79
  const WORD_CPPTYPE: nat := 80
  const LBRK: nat := 81
  const RBRK: nat := 82
  const LWING: nat := 83
  const RWING: nat := 84
  const EQUAL: nat := 85
  const LPOINT: nat := 86
  const RPOINT: nat := 87
  const COMMA: nat := 88
  const LPAR: nat := 89
  const RPAR: nat := 90
  const COLON: nat := 91
  const PEG_TEXT: nat := 92

  /** The words and the symbols of the language, in the order of their rules. */
  const WORDS: seq<string> :=
    ["bool", "byte", "i8", "i16", "i32", "i64", "double", "string", "binary", "const", "oneway", "typedef", "map", "set",
     "list", "void", "throws", "exception", "extends", "service", "struct", "union", "enum", "include", "cpp_include",
     "namespace", "cpp_type"]

  const SYMBOLS: string := "[]{}=<>,():"

  // ----- how rules are written -----

  function Seq(es: seq<Expr>): Expr
    requires es != []
  {
    if |es| == 1 then es[0] else Cat(es[0], Seq(es[1..]))
  }

  function Alt(es: seq<Expr>): Expr
    requires es != []
  {
    if |es| == 1 then es[0] else Or(es[0], Alt(es[1..]))
  }

  function Plus(e: Expr): Expr {
    Cat(e, Star(e))
  }

  function Char(c: char): Expr {
    Range(c as nat, c as nat)
  }

  function Chars(lo: char, hi: char): Expr
    requires lo <= hi
  {
    Range(lo as nat, hi as nat)
  }

  function Text(s: string): Expr
    requires s != ""
  {
    if |s| == 1 then Char(s[0]) else Cat(Char(s[0]), Text(s[1..]))
  }

  /** `<...>` in the grammar. */
  function Take(e: Expr): Expr {
    Capture(PEG_TEXT, e)
  }

  /** Rules in which blanks may come before and after. */
  function Spaced(e: Expr): Expr {
    Cat(Call(SKIP), Cat(e, Star(Call(INDENT))))
  }

  function Word(s: string, taken: bool): Expr
    requires s != ""
  {
    Cat(Call(SKIP), Cat(if taken then Take(Text(s)) else Text(s), Cat(Not(Call(LETTER_OR_DIGIT)), Star(Call(INDENT)))))
  }

  function Quoted(c: char): Expr {
    Spaced(Seq([Char(c), Take(Star(Alt([Call(ESCAPE_LITERAL_CHAR), Cat(Not(Char(c)), Dot)]))), Char(c)]))
  }

  function EnumValue(): Expr {
    Seq([Call(RESERVED_COMMENTS), Call(IDENTIFIER), Opt(Cat(Call(EQUAL), Call(INT_CONSTANT))), Opt(Call(ANNOTATIONS)), Opt(Call(LIST_SEPARATOR)),
         Call(RESERVED_END_LINE_COMMENTS), Call(SKIP_LINE)])
  }

  function ConstPair(): Expr {
    Seq([Call(CONST_VALUE), Call(COLON), Call(CONST_VALUE), Opt(Call(LIST_SEPARATOR))])
  }

  function Sign(): Expr {
    Opt(Alt([Char('+'), Char('-')]))
  }

  function Integer(): Expr {
    Alt([Cat(Text("0x"), Plus(Alt([Chars('0', '9'), Chars('A', 'Z'), Chars('a', 'z')]))),
         Cat(Text("0o"), Plus(Call(DIGIT))),
         Cat(Sign(), Plus(Call(DIGIT)))])
  }

  function Double(): Expr {
    Alt([Seq([Star(Call(DIGIT)), Char('.'), Plus(Call(DIGIT)), Opt(Call(EXPONENT))]),
         Cat(Plus(Call(DIGIT)), Call(EXPONENT))])
  }

  function ToLineEnd(): Expr {
    Star(Cat(Not(Alt([Char('\r'), Char('\n')])), Dot))
  }

  // ----- the rules -----

  function Definitions(r: nat): Expr {
    if r == DOCUMENT then Seq([Star(Call(HEADER)), Star(Call(DEFINITION)), Call(SKIP), Not(Dot)])
    else if r == HEADER then
      Seq([Call(SKIP), Alt([Call(INCLUDE), Call(CPP_INCLUDE), Call(NAMESPACE)]), Call(SKIP_LINE)])
    else if r == INCLUDE then Seq([Call(WORD_INCLUDE), Call(LITERAL)])
    else if r == CPP_INCLUDE then Seq([Call(WORD_CPPINCLUDE), Call(LITERAL)])
    else if r == NAMESPACE then
      Seq([Call(WORD_NAMESPACE), Call(NAMESPACE_SCOPE), Call(IDENTIFIER), Opt(Call(ANNOTATIONS))])
    else if r == NAMESPACE_SCOPE then Alt([Spaced(Take(Char('*'))), Call(IDENTIFIER)])
    else if r == DEFINITION then
      Seq([Call(RESERVED_COMMENTS), Call(SKIP), Alt([Call(CONST), Call(TYPEDEF), Call(ENUM), Call(SERVICE),
           Call(STRUCT), Call(UNION), Call(EXCEPTION)]), Opt(Call(ANNOTATIONS)), Call(SKIP_LINE)])
    else if r == CONST then
      Seq([Call(WORD_CONST), Call(FIELD_TYPE), Call(IDENTIFIER), Call(EQUAL), Call(CONST_VALUE),
           Opt(Call(LIST_SEPARATOR))])
    else if r == TYPEDEF then Seq([Call(WORD_TYPEDEF), Call(FIELD_TYPE), Call(IDENTIFIER)])
    else Dot
  }

  function Members(r: nat): Expr {
    if r == ENUM then Seq([Call(WORD_ENUM), Call(IDENTIFIER), Call(LWING), Star(EnumValue()), Call(RWING)])
    else if r == SERVICE then
      Seq([Call(WORD_SERVICE), Call(IDENTIFIER), Opt(Cat(Call(WORD_EXTENDS), Call(IDENTIFIER))), Call(LWING),
           Star(Call(FUNCTION)), Call(RWING)])
    else if r == STRUCT then Seq([Call(WORD_STRUCT), Call(IDENTIFIER), Call(LWING), Star(Call(FIELD)), Call(RWING)])
    else if r == UNION then Seq([Call(WORD_UNION), Call(IDENTIFIER), Call(LWING), Star(Call(FIELD)), Call(RWING)])
    else if r == EXCEPTION then
      Seq([Call(WORD_EXCEPTION), Call(IDENTIFIER), Call(LWING), Star(Call(FIELD)), Call(RWING)])
    else if r == FIELD then
      Seq([Call(RESERVED_COMMENTS), Call(SKIP), Opt(Call(FIELD_ID)), Opt(Call(FIELD_REQ)), Call(FIELD_TYPE),
           Call(IDENTIFIER), Opt(Cat(Call(EQUAL), Call(CONST_VALUE))), Opt(Call(ANNOTATIONS)),
           Opt(Call(LIST_SEPARATOR)), Call(RESERVED_END_LINE_COMMENTS), Call(SKIP_LINE)])
    else if r == FIELD_ID then Seq([Call(SKIP), Call(INT_CONSTANT), Call(COLON), Star(Call(INDENT))])
    else if r == FIELD_REQ then Spaced(Take(Alt([Text("required"), Text("optional")])))
    else if r == FUNCTION then
      Seq([Call(RESERVED_COMMENTS), Call(SKIP), Opt(Call(WORD_ONEWAY)), Call(FUNCTION_TYPE), Call(IDENTIFIER),
           Call(LPAR), Star(Call(FIELD)), Call(RPAR), Opt(Call(THROWS)), Opt(Call(ANNOTATIONS)),
           Opt(Call(LIST_SEPARATOR)), Call(SKIP_LINE)])
    else if r == FUNCTION_TYPE then Alt([Call(WORD_VOID), Call(FIELD_TYPE)])
    else if r == THROWS then Seq([Call(WORD_THROWS), Call(LPAR), Star(Call(FIELD)), Call(RPAR)])
    else Dot
  }

  function Types(r: nat): Expr {
    if r == FIELD_TYPE then
      Seq([Alt([Call(CONTAINER_TYPE), Call(BASE_TYPE), Call(IDENTIFIER)]), Opt(Call(ANNOTATIONS))])
    else if r == BASE_TYPE then
      Alt([Call(WORD_BOOL), Call(WORD_BYTE), Call(WORD_I8), Call(WORD_I16), Call(WORD_I32), Call(WORD_I64),
           Call(WORD_DOUBLE), Call(WORD_STRING), Call(WORD_BINARY)])
    else if r == CONTAINER_TYPE then Alt([Call(MAP_TYPE), Call(SET_TYPE), Call(LIST_TYPE)])
    else if r == MAP_TYPE then
      Seq([Call(WORD_MAP), Opt(Call(CPP_TYPE)), Call(LPOINT), Call(FIELD_TYPE), Call(COMMA), Call(FIELD_TYPE),
           Call(RPOINT)])
    else if r == SET_TYPE then
      Seq([Call(WORD_SET), Opt(Call(CPP_TYPE)), Call(LPOINT), Call(FIELD_TYPE), Call(RPOINT)])
    else if r == LIST_TYPE then
      Seq([Call(WORD_LIST), Call(LPOINT), Call(FIELD_TYPE), Call(RPOINT), Opt(Call(CPP_TYPE))])
    else if r == CPP_TYPE then Seq([Call(WORD_CPPTYPE), Call(LITERAL)])
    else Dot
  }

  function Values(r: nat): Expr {
    if r == CONST_VALUE then
      Alt([Call(DOUBLE_CONSTANT), Call(INT_CONSTANT), Call(LITERAL), Call(IDENTIFIER), Call(CONST_LIST),
           Call(CONST_MAP)])
    else if r == INT_CONSTANT then Spaced(Take(Integer()))
    else if r == DOUBLE_CONSTANT then Spaced(Take(Cat(Sign(), Double())))
    else if r == EXPONENT then Cat(Alt([Char('e'), Char('E')]), Call(INT_CONSTANT))
    else if r == ANNOTATIONS then Seq([Call(LPAR), Star(Call(ANNOTATION)), Call(RPAR)])
    else if r == ANNOTATION then Seq([Call(IDENTIFIER), Call(EQUAL), Call(LITERAL), Opt(Call(LIST_SEPARATOR))])
    else if r == CONST_LIST then
      Seq([Call(LBRK), Star(Cat(Call(CONST_VALUE), Opt(Call(LIST_SEPARATOR)))), Call(RBRK)])
    else if r == CONST_MAP then Seq([Call(LWING), Star(ConstPair()), Call(RWING)])
    else if r == ESCAPE_LITERAL_CHAR then Cat(Char('\\'), Alt([Char('"'), Char('\'')]))
    else if r == LITERAL then Alt([Quoted('"'), Quoted('\'')])
    else if r == IDENTIFIER then Spaced(Take(Cat(Call(LETTER), Star(Alt([Call(LETTER), Call(DIGIT), Char('.')])))))
    else if r == LIST_SEPARATOR then Spaced(Alt([Char(','), Char(';')]))
    else Dot
  }

  function Blanks(r: nat): Expr {
    if r == LETTER then Alt([Chars('A', 'Z'), Chars('a', 'z'), Char('_')])
    else if r == LETTER_OR_DIGIT then Alt([Chars('a', 'z'), Chars('A', 'Z'), Chars('0', '9'), Char('_'), Char('$')])
    else if r == DIGIT then Chars('0', '9')
    else if r == RESERVED_COMMENTS then Call(SKIP)
    else if r == RESERVED_END_LINE_COMMENTS then Call(SKIP_LINE)
    else if r == SKIP then Star(Alt([Call(SPACE), Call(COMMENT)]))
    else if r == SKIP_LINE then Star(Alt([Call(INDENT), Call(COMMENT)]))
    else if r == SPACE then Plus(Alt([Call(INDENT), Call(CARRIAGE_RETURN_LINE_FEED)]))
    else if r == INDENT then Alt([Char(' '), Char('\t'), Char('\U{000B}')])
    else if r == CARRIAGE_RETURN_LINE_FEED then Alt([Char('\r'), Char('\n')])
    else if r == COMMENT then Alt([Call(LONG_COMMENT), Call(LINE_COMMENT), Call(UNIX_COMMENT)])
    else if r == LONG_COMMENT then Seq([Text("/*"), Star(Cat(Not(Text("*/")), Dot)), Text("*/")])
    else if r == LINE_COMMENT then Cat(Text("//"), ToLineEnd())
    else if r == UNIX_COMMENT then Cat(Char('#'), ToLineEnd())
    else Dot
  }

  /** The grammar. */
  function Thrift(r: nat): Expr {
    if r < ENUM then Definitions(r)
    else if r < FIELD_TYPE then Members(r)
    else if r < CONST_VALUE then Types(r)
    else if r < LETTER then Values(r)
    else if r < WORD_BOOL then Blanks(r)
    else if r < LBRK then Word(WORDS[r - WORD_BOOL], r < WORD_CONST)
    else if r < PEG_TEXT then Spaced(Char(SYMBOLS[r - LBRK]))
    else Dot
  }

  // ----- the grammar does not go round in circles -----

  predicate MayBeEmpty(r: nat) {
    r == DOCUMENT || r == RESERVED_COMMENTS || r == RESERVED_END_LINE_COMMENTS || r == SKIP || r == SKIP_LINE
  }

  /** Rules start with rules further down, words and symbols with blanks. */
  function Rank(r: nat): nat {
    if r < SKIP then 500 - r else if r < WORD_BOOL then 200 - r else 300
  }

  function Known(): Facts {
    Facts((r: nat) => MayBeEmpty(r), (r: nat) => Rank(r), 501, 1)
  }

  /** Repetitions are nested no deeper than that and repeat what is not empty. */
  predicate Sound(e: Expr, depth: nat) {
    StarsConsume(Known(), e) && Stars(e) <= depth
  }

  predicate Solid(e: Expr) {
    !CanBeEmpty(Known(), e)
  }

  predicate Starts(e: Expr, k: nat) {
    StartsBelow(Known(), e, k)
  }

  /** A sequence starts as its first parts do, up to one that is not empty. */
  lemma {:induction false} SeqIs(es: seq<Expr>, k: nat, n: nat, depth: nat)
    requires es != [] && n <= |es| && forall i :: 0 <= i < |es| ==> Sound(es[i], depth)
    requires forall i :: 0 <= i < n ==> Starts(es[i], k)
    requires n < |es| ==> Solid(es[n]) && Starts(es[n], k)
    ensures Sound(Seq(es), depth) && Starts(Seq(es), k) && (n < |es| ==> Solid(Seq(es)))
    decreases |es|
  {
    if |es| > 1 {
      if n > 0 {
        SeqIs(es[1..], k, n - 1, depth);
      } else {
        SeqIsSound(es[1..], depth);
      }
    }
  }

  lemma {:induction false} SeqIsSound(es: seq<Expr>, depth: nat)
    requires es != [] && forall i :: 0 <= i < |es| ==> Sound(es[i], depth)
    ensures Sound(Seq(es), depth)
    decreases |es|
  {
    if |es| > 1 {
      SeqIsSound(es[1..], depth);
    }
  }

  lemma {:induction false} AltIs(es: seq<Expr>, k: nat, depth: nat)
    requires es != [] && forall i :: 0 <= i < |es| ==> Sound(es[i], depth) && Solid(es[i]) && Starts(es[i], k)
    ensures Sound(Alt(es), depth) && Starts(Alt(es), k) && Solid(Alt(es))
    decreases |es|
  {
    if |es| > 1 {
      AltIs(es[1..], k, depth);
    }
  }

  lemma {:induction false} TextIs(s: string, k: nat)
    requires s != ""
    ensures Sound(Text(s), 0) && Starts(Text(s), k) && Solid(Text(s))
    decreases |s|
  {
    if |s| > 1 {
      TextIs(s[1..], k);
    }
  }

  lemma SpacedIs(e: Expr, k: nat)
    requires Sound(e, 1) && Solid(e) && Starts(e, k) && Rank(SKIP) < k
    ensures Sound(Spaced(e), 1) && Solid(Spaced(e)) && Starts(Spaced(e), k)
  {
    var end := Star(Call(INDENT));
    assert Sound(end, 1) && Sound(Cat(e, end), 1) && Starts(Cat(e, end), k) && Solid(Cat(e, end));
  }

  lemma WordIs(s: string, taken: bool, k: nat)
    requires s != "" && Rank(SKIP) < k
    ensures Sound(Word(s, taken), 1) && Solid(Word(s, taken)) && Starts(Word(s, taken), k)
  {
    TextIs(s, k);
    var e := if taken then Take(Text(s)) else Text(s);
    var end := Cat(Not(Call(LETTER_OR_DIGIT)), Star(Call(INDENT)));
    assert Sound(e, 1) && Solid(e) && Starts(e, k);
    assert Sound(Star(Call(INDENT)), 1) && Sound(end, 1);
    assert Sound(Cat(e, end), 1) && Solid(Cat(e, end)) && Starts(Cat(e, end), k);
  }

  /** What there is to know of the body of a rule. */
  predicate BodyIs(r: nat, e: Expr) {
    Sound(e, 1) && Starts(e, Rank(r)) && (Solid(e) || MayBeEmpty(r))
  }

  lemma SeqRule(r: nat, es: seq<Expr>, n: nat)
    requires es != [] && n <= |es| && forall i :: 0 <= i < |es| ==> Sound(es[i], 1)
    requires forall i :: 0 <= i < n ==> Starts(es[i], Rank(r))
    requires if n < |es| then Solid(es[n]) && Starts(es[n], Rank(r)) else MayBeEmpty(r)
    ensures BodyIs(r, Seq(es))
  {
    hide Sound, Starts, Solid, Rank;
    SeqIs(es, Rank(r), n, 1);
  }

  lemma AltRule(r: nat, es: seq<Expr>)
    requires es != [] && forall i :: 0 <= i < |es| ==> Sound(es[i], 1) && Solid(es[i]) && Starts(es[i], Rank(r))
    ensures BodyIs(r, Alt(es))
  {
    hide Sound, Starts, Solid, Rank;
    AltIs(es, Rank(r), 1);
  }

  /** Calls, and calls that may be left out or repeated. */
  lemma Calls(k: nat)
    ensures forall x: nat, n: nat :: Sound(Call(x), n) && Sound(Opt(Call(x)), n)
    ensures forall x: nat, n: nat :: n > 0 && !MayBeEmpty(x) ==> Sound(Star(Call(x)), n)
    ensures forall x: nat :: Rank(x) < k ==> Starts(Call(x), k) && Starts(Opt(Call(x)), k) && Starts(Star(Call(x)), k)
    ensures forall x: nat :: !MayBeEmpty(x) ==> Solid(Call(x))
  {
    hide Rank, MayBeEmpty;
    forall x: nat
      ensures Rank(x) < k ==> Starts(Call(x), k) && Starts(Opt(Call(x)), k) && Starts(Star(Call(x)), k)
      ensures !MayBeEmpty(x) ==> Solid(Call(x))
    {
      RankIs(x);
      assert Starts(Call(x), k) <==> Known().rank(x) < k;
    }
    forall x: nat, n: nat
      ensures Sound(Call(x), n) && Sound(Opt(Call(x)), n) && (n > 0 && !MayBeEmpty(x) ==> Sound(Star(Call(x)), n))
    {
      RankIs(x);
      assert StarsConsume(Known(), Call(x)) && Stars(Call(x)) == 0;
    }
  }

  lemma RankIs(x: nat)
    ensures Known().rank(x) == Rank(x) && Known().empty(x) == MayBeEmpty(x) && Known().ranks == 501 && Known().stars == 1
  {
  }

  lemma NothingLeft(k: nat)
    ensures Sound(Not(Dot), 1) && Starts(Not(Dot), k)
  {
  }

  lemma CharIs(c: char, k: nat)
    ensures Sound(Char(c), 0) && Sound(Char(c), 1) && Starts(Char(c), k) && Solid(Char(c))
    ensures Sound(Take(Char(c)), 1) && Starts(Take(Char(c)), k) && Solid(Take(Char(c)))
  {
    assert StarsConsume(Known(), Char(c)) && StartsBelow(Known(), Char(c), k) && !CanBeEmpty(Known(), Char(c)) && Stars(Char(c)) == 0;
  }

  lemma CatIs(a: Expr, b: Expr, k: nat, depth: nat)
    requires Sound(a, depth) && Sound(b, depth) && Solid(a) && Starts(a, k)
    ensures Sound(Cat(a, b), depth) && Solid(Cat(a, b)) && Starts(Cat(a, b), k)
  {
  }

  lemma TakeIs(e: Expr, k: nat)
    requires Sound(e, 1) && Solid(e) && Starts(e, k)
    ensures Sound(Take(e), 1) && Solid(Take(e)) && Starts(Take(e), k)
  {
  }

  lemma StarIs(e: Expr, k: nat)
    requires Sound(e, 0) && Solid(e) && Starts(e, k)
    ensures Sound(Star(e), 1) && Starts(Star(e), k)
  {
  }

  lemma PlusIs(e: Expr, k: nat)
    requires Sound(e, 0) && Solid(e) && Starts(e, k)
    ensures Sound(Plus(e), 1) && Solid(Plus(e)) && Starts(Plus(e), k)
  {
    hide StarsConsume, StartsBelow, CanBeEmpty, Stars;
    StarIs(e, k);
    Deeper(e);
    CatIs(e, Star(e), k, 1);
  }

  lemma Deeper(e: Expr)
    requires Sound(e, 0)
    ensures Sound(e, 1)
  {
  }

  lemma CharsIs(lo: char, hi: char, k: nat)
    requires lo <= hi
    ensures Sound(Chars(lo, hi), 0) && Sound(Chars(lo, hi), 1) && Starts(Chars(lo, hi), k) && Solid(Chars(lo, hi))
  {
    var e := Chars(lo, hi);
    assert StarsConsume(Known(), e) && StartsBelow(Known(), e, k) && !CanBeEmpty(Known(), e) && Stars(e) == 0;
  }

  lemma OptIs(e: Expr, k: nat, depth: nat)
    requires Sound(e, depth) && Starts(e, k)
    ensures Sound(Opt(e), depth) && Starts(Opt(e), k)
  {
  }

  lemma PairIs(x: nat, y: nat, k: nat)
    requires !MayBeEmpty(x) && Rank(x) < k
    ensures Sound(Opt(Cat(Call(x), Call(y))), 0) && Sound(Opt(Cat(Call(x), Call(y))), 1) && Starts(Opt(Cat(Call(x), Call(y))), k)
  {
    hide StarsConsume, StartsBelow, CanBeEmpty, Stars, Sound, Starts, Solid, Rank, MayBeEmpty;
    Calls(k);
    CatIs(Call(x), Call(y), k, 0);
    CatIs(Call(x), Call(y), k, 1);
    OptIs(Cat(Call(x), Call(y)), k, 0);
    OptIs(Cat(Call(x), Call(y)), k, 1);
  }

  lemma EnumValueIs(k: nat)
    requires Rank(ENUM) <= k
    ensures Sound(Star(EnumValue()), 1) && Starts(Star(EnumValue()), k)
  {
    hide Seq, Alt, Sound, Starts, Solid;
    Calls(k);
    PairIs(EQUAL, INT_CONSTANT, k);
    SeqIs([Call(RESERVED_COMMENTS), Call(IDENTIFIER), Opt(Cat(Call(EQUAL), Call(INT_CONSTANT))), Opt(Call(ANNOTATIONS)), Opt(Call(LIST_SEPARATOR)),
           Call(RESERVED_END_LINE_COMMENTS), Call(SKIP_LINE)], k, 1, 0);
    StarIs(EnumValue(), k);
  }

  lemma ListItemIs()
    ensures Sound(Star(Cat(Call(CONST_VALUE), Opt(Call(LIST_SEPARATOR)))), 1)
  {
    hide Sound, Starts, Solid;
    Calls(501);
    CatIs(Call(CONST_VALUE), Opt(Call(LIST_SEPARATOR)), 501, 0);
    StarIs(Cat(Call(CONST_VALUE), Opt(Call(LIST_SEPARATOR))), 501);
  }

  lemma ConstPairIs()
    ensures Sound(Star(ConstPair()), 1)
  {
    hide Seq, Sound, Starts, Solid;
    Calls(501);
    SeqIs([Call(CONST_VALUE), Call(COLON), Call(CONST_VALUE), Opt(Call(LIST_SEPARATOR))], 501, 0, 0);
    StarIs(ConstPair(), 501);
  }

  lemma DigitsAre(k: nat)
    requires Rank(DIGIT) < k
    ensures Sound(Plus(Call(DIGIT)), 1) && Solid(Plus(Call(DIGIT))) && Starts(Plus(Call(DIGIT)), k)
  {
    hide Sound, Starts, Solid, Plus;
    Calls(k);
    PlusIs(Call(DIGIT), k);
  }

  lemma SignIs(e: Expr, k: nat)
    requires Sound(e, 1) && Solid(e) && Starts(e, k)
    ensures Sound(Cat(Sign(), e), 1) && Solid(Cat(Sign(), e)) && Starts(Cat(Sign(), e), k)
  {
    var s := Alt([Char('+'), Char('-')]);
    SignsAre(k);
    assert Sound(Opt(s), 1) && Starts(Opt(s), k) && Sign() == Opt(s);
  }

  lemma SignsAre(k: nat)
    ensures Sound(Alt([Char('+'), Char('-')]), 1) && Starts(Alt([Char('+'), Char('-')]), k)
  {
    hide Sound, Starts, Solid, Alt, Char;
    CharIs('+', k);
    CharIs('-', k);
    AltIs([Char('+'), Char('-')], k, 1);
  }

  lemma IntegerIs(k: nat)
    requires Rank(DIGIT) < k
    ensures Sound(Integer(), 1) && Solid(Integer()) && Starts(Integer(), k)
  {
    hide Sound, Starts, Solid, Alt, Text, Plus, Char, Chars, Sign;
    var hex := [Chars('0', '9'), Chars('A', 'Z'), Chars('a', 'z')];
    CharsIs('0', '9', k);
    CharsIs('A', 'Z', k);
    CharsIs('a', 'z', k);
    AltIs(hex, k, 0);
    PlusIs(Alt(hex), k);
    DigitsAre(k);
    TextIs("0x", k);
    TextIs("0o", k);
    Deeper(Text("0x"));
    Deeper(Text("0o"));
    CatIs(Text("0x"), Plus(Alt(hex)), k, 1);
    CatIs(Text("0o"), Plus(Call(DIGIT)), k, 1);
    SignIs(Plus(Call(DIGIT)), k);
    AltIs([Cat(Text("0x"), Plus(Alt(hex))), Cat(Text("0o"), Plus(Call(DIGIT))), Cat(Sign(), Plus(Call(DIGIT)))], k, 1);
  }

  lemma DoubleIs(k: nat)
    requires Rank(DIGIT) < k && Rank(EXPONENT) < k
    ensures Sound(Cat(Sign(), Double()), 1) && Solid(Cat(Sign(), Double())) && Starts(Cat(Sign(), Double()), k)
  {
    hide Sound, Starts, Solid, Alt, Seq, Plus, Char, Sign;
    var point := [Star(Call(DIGIT)), Char('.'), Plus(Call(DIGIT)), Opt(Call(EXPONENT))];
    Calls(k);
    CharIs('.', k);
    DigitsAre(k);
    SeqIs(point, k, 1, 1);
    CatIs(Plus(Call(DIGIT)), Call(EXPONENT), k, 1);
    AltIs([Seq(point), Cat(Plus(Call(DIGIT)), Call(EXPONENT))], k, 1);
    SignIs(Double(), k);
  }

  lemma NameIs(k: nat)
    requires Rank(LETTER) < k
    ensures var e := Cat(Call(LETTER), Star(Alt([Call(LETTER), Call(DIGIT), Char('.')])));
            Sound(e, 1) && Solid(e) && Starts(e, k)
  {
    hide Sound, Starts, Solid, Alt, Char;
    Calls(k);
    CharIs('.', k);
    AltIs([Call(LETTER), Call(DIGIT), Char('.')], k, 0);
    StarIs(Alt([Call(LETTER), Call(DIGIT), Char('.')]), k);
    CatIs(Call(LETTER), Star(Alt([Call(LETTER), Call(DIGIT), Char('.')])), k, 1);
  }

  /** Anything but what must not come next. */
  lemma ButIs(e: Expr, k: nat)
    requires Sound(e, 0) && Starts(e, k)
    ensures Sound(Star(Cat(Not(e), Dot)), 1) && Starts(Star(Cat(Not(e), Dot)), k)
    ensures Sound(Cat(Not(e), Dot), 0) && Solid(Cat(Not(e), Dot)) && Starts(Cat(Not(e), Dot), k)
  {
    assert Sound(Not(e), 0) && Starts(Not(e), k);
    assert Sound(Cat(Not(e), Dot), 0) && Solid(Cat(Not(e), Dot)) && Starts(Cat(Not(e), Dot), k) by {
      assert StarsConsume(Known(), Dot) && StartsBelow(Known(), Dot, k) && !CanBeEmpty(Known(), Dot) && Stars(Dot) == 0;
    }
    StarIs(Cat(Not(e), Dot), k);
  }

  lemma QuotedIs(c: char, k: nat)
    requires Rank(SKIP) < k
    ensures Sound(Quoted(c), 1) && Solid(Quoted(c)) && Starts(Quoted(c), k)
  {
    hide Sound, Starts, Solid, Alt, Seq, Char, Spaced;
    var some := [Call(ESCAPE_LITERAL_CHAR), Cat(Not(Char(c)), Dot)];
    Calls(501);
    CharIs(c, k);
    CharIs(c, 501);
    ButIs(Char(c), 501);
    AltIs(some, 501, 0);
    StarIs(Alt(some), 501);
    TakeIsSound(Star(Alt(some)));
    SeqIs([Char(c), Take(Star(Alt(some))), Char(c)], k, 0, 1);
    SpacedIs(Seq([Char(c), Take(Star(Alt(some))), Char(c)]), k);
  }

  lemma TakeIsSound(e: Expr)
    requires Sound(e, 1)
    ensures Sound(Take(e), 1)
  {
  }

  lemma ToLineEndIs(k: nat)
    ensures Sound(ToLineEnd(), 1)
  {
    hide Sound, Starts, Solid, Alt, Char;
    CharIs('\r', k);
    CharIs('\n', k);
    AltIs([Char('\r'), Char('\n')], k, 0);
    ButIs(Alt([Char('\r'), Char('\n')]), k);
  }

  lemma LongCommentIs(k: nat)
    ensures var e := Seq([Text("/*"), Star(Cat(Not(Text("*/")), Dot)), Text("*/")]);
            Sound(e, 1) && Solid(e) && Starts(e, k)
  {
    hide Sound, Starts, Solid, Seq, Text;
    TextIs("/*", k);
    TextIs("*/", k);
    Deeper(Text("/*"));
    Deeper(Text("*/"));
    ButIs(Text("*/"), k);
    SeqIs([Text("/*"), Star(Cat(Not(Text("*/")), Dot)), Text("*/")], k, 0, 1);
  }

  lemma DefinitionsAre(r: nat)
    requires DOCUMENT <= r <= NAMESPACE
    ensures BodyIs(r, Definitions(r))
  {
    hide Seq, Alt, Sound, Starts, Solid, Text, Spaced, Plus, Char, Chars, Integer, Double, Sign, Quoted, EnumValue, ConstPair,
         ToLineEnd;
    var k := Rank(r);
    Calls(k);
    if r == DOCUMENT {
      NothingLeft(k);
      SeqRule(r, [Star(Call(HEADER)), Star(Call(DEFINITION)), Call(SKIP), Not(Dot)], 4);
    } else if r == HEADER {
      AltIs([Call(INCLUDE), Call(CPP_INCLUDE), Call(NAMESPACE)], k, 1);
      SeqRule(r, [Call(SKIP), Alt([Call(INCLUDE), Call(CPP_INCLUDE), Call(NAMESPACE)]), Call(SKIP_LINE)], 1);
    } else if r == INCLUDE {
      SeqRule(r, [Call(WORD_INCLUDE), Call(LITERAL)], 0);
    } else if r == CPP_INCLUDE {
      SeqRule(r, [Call(WORD_CPPINCLUDE), Call(LITERAL)], 0);
    } else if r == NAMESPACE {
      SeqRule(r, [Call(WORD_NAMESPACE), Call(NAMESPACE_SCOPE), Call(IDENTIFIER), Opt(Call(ANNOTATIONS))], 0);
    }
  }

  lemma MoreDefinitionsAre(r: nat)
    requires NAMESPACE_SCOPE <= r <= TYPEDEF
    ensures BodyIs(r, Definitions(r))
  {
    hide Seq, Alt, Sound, Starts, Solid, Text, Spaced, Plus, Char, Chars, Integer, Double, Sign, Quoted, EnumValue, ConstPair,
         ToLineEnd;
    var k := Rank(r);
    Calls(k);
    if r == NAMESPACE_SCOPE {
      CharIs('*', k);
      SpacedIs(Take(Char('*')), k);
      AltRule(r, [Spaced(Take(Char('*'))), Call(IDENTIFIER)]);
    } else if r == DEFINITION {
      AltIs([Call(CONST), Call(TYPEDEF), Call(ENUM), Call(SERVICE), Call(STRUCT), Call(UNION), Call(EXCEPTION)], k,
               1);
      SeqRule(r, [Call(RESERVED_COMMENTS), Call(SKIP), Alt([Call(CONST), Call(TYPEDEF), Call(ENUM), Call(SERVICE),
               Call(STRUCT), Call(UNION), Call(EXCEPTION)]), Opt(Call(ANNOTATIONS)), Call(SKIP_LINE)], 2);
    } else if r == CONST {
      SeqRule(r, [Call(WORD_CONST), Call(FIELD_TYPE), Call(IDENTIFIER), Call(EQUAL), Call(CONST_VALUE),
               Opt(Call(LIST_SEPARATOR))], 0);
    } else if r == TYPEDEF {
      SeqRule(r, [Call(WORD_TYPEDEF), Call(FIELD_TYPE), Call(IDENTIFIER)], 0);
    }
  }

  lemma MembersAre(r: nat)
    requires ENUM <= r <= EXCEPTION
    ensures BodyIs(r, Members(r))
  {
    hide Seq, Alt, Sound, Starts, Solid, Text, Spaced, Plus, Char, Chars, Integer, Double, Sign, Quoted, EnumValue, ConstPair,
         ToLineEnd;
    var k := Rank(r);
    Calls(k);
    if r == ENUM {
      EnumValueIs(k);
      SeqRule(r, [Call(WORD_ENUM), Call(IDENTIFIER), Call(LWING), Star(EnumValue()), Call(RWING)], 0);
    } else if r == SERVICE {
      PairIs(WORD_EXTENDS, IDENTIFIER, k);
      SeqRule(r, [Call(WORD_SERVICE), Call(IDENTIFIER), Opt(Cat(Call(WORD_EXTENDS), Call(IDENTIFIER))),
               Call(LWING), Star(Call(FUNCTION)), Call(RWING)], 0);
    } else if r == STRUCT {
      SeqRule(r, [Call(WORD_STRUCT), Call(IDENTIFIER), Call(LWING), Star(Call(FIELD)), Call(RWING)], 0);
    } else if r == UNION {
      SeqRule(r, [Call(WORD_UNION), Call(IDENTIFIER), Call(LWING), Star(Call(FIELD)), Call(RWING)], 0);
    } else if r == EXCEPTION {
      SeqRule(r, [Call(WORD_EXCEPTION), Call(IDENTIFIER), Call(LWING), Star(Call(FIELD)), Call(RWING)], 0);
    }
  }

  lemma MoreMembersAre(r: nat)
    requires FIELD <= r <= THROWS
    ensures BodyIs(r, Members(r))
  {
    hide Seq, Alt, Sound, Starts, Solid, Text, Spaced, Plus, Char, Chars, Integer, Double, Sign, Quoted, EnumValue, ConstPair,
         ToLineEnd;
    var k := Rank(r);
    Calls(k);
    if r == FIELD {
      PairIs(EQUAL, CONST_VALUE, k);
      SeqRule(r, [Call(RESERVED_COMMENTS), Call(SKIP), Opt(Call(FIELD_ID)), Opt(Call(FIELD_REQ)), Call(FIELD_TYPE),
               Call(IDENTIFIER), Opt(Cat(Call(EQUAL), Call(CONST_VALUE))), Opt(Call(ANNOTATIONS)),
               Opt(Call(LIST_SEPARATOR)), Call(RESERVED_END_LINE_COMMENTS), Call(SKIP_LINE)], 4);
    } else if r == FIELD_ID {
      SeqRule(r, [Call(SKIP), Call(INT_CONSTANT), Call(COLON), Star(Call(INDENT))], 1);
    } else if r == FIELD_REQ {
      TextIs("required", k);
      TextIs("optional", k);
      Deeper(Text("required"));
      Deeper(Text("optional"));
      AltIs([Text("required"), Text("optional")], k, 1);
      TakeIs(Alt([Text("required"), Text("optional")]), k);
      SpacedIs(Take(Alt([Text("required"), Text("optional")])), k);
    } else if r == FUNCTION {
      SeqRule(r, [Call(RESERVED_COMMENTS), Call(SKIP), Opt(Call(WORD_ONEWAY)), Call(FUNCTION_TYPE),
               Call(IDENTIFIER), Call(LPAR), Star(Call(FIELD)), Call(RPAR), Opt(Call(THROWS)),
               Opt(Call(ANNOTATIONS)), Opt(Call(LIST_SEPARATOR)), Call(SKIP_LINE)], 3);
    } else if r == FUNCTION_TYPE {
      AltRule(r, [Call(WORD_VOID), Call(FIELD_TYPE)]);
    } else if r == THROWS {
      SeqRule(r, [Call(WORD_THROWS), Call(LPAR), Star(Call(FIELD)), Call(RPAR)], 0);
    }
  }

  lemma TypesAre(r: nat)
    requires FIELD_TYPE <= r <= CPP_TYPE
    ensures BodyIs(r, Types(r))
  {
    hide Seq, Alt, Sound, Starts, Solid, Text, Spaced, Plus, Char, Chars, Integer, Double, Sign, Quoted, EnumValue, ConstPair,
         ToLineEnd;
    var k := Rank(r);
    Calls(k);
    if r == FIELD_TYPE {
      AltIs([Call(CONTAINER_TYPE), Call(BASE_TYPE), Call(IDENTIFIER)], k, 1);
      SeqRule(r, [Alt([Call(CONTAINER_TYPE), Call(BASE_TYPE), Call(IDENTIFIER)]), Opt(Call(ANNOTATIONS))], 0);
    } else if r == BASE_TYPE {
      AltRule(r, [Call(WORD_BOOL), Call(WORD_BYTE), Call(WORD_I8), Call(WORD_I16), Call(WORD_I32), Call(WORD_I64),
               Call(WORD_DOUBLE), Call(WORD_STRING), Call(WORD_BINARY)]);
    } else if r == CONTAINER_TYPE {
      AltRule(r, [Call(MAP_TYPE), Call(SET_TYPE), Call(LIST_TYPE)]);
    } else if r == MAP_TYPE {
      SeqRule(r, [Call(WORD_MAP), Opt(Call(CPP_TYPE)), Call(LPOINT), Call(FIELD_TYPE), Call(COMMA),
               Call(FIELD_TYPE), Call(RPOINT)], 0);
    } else if r == SET_TYPE {
      SeqRule(r, [Call(WORD_SET), Opt(Call(CPP_TYPE)), Call(LPOINT), Call(FIELD_TYPE), Call(RPOINT)], 0);
    } else if r == LIST_TYPE {
      SeqRule(r, [Call(WORD_LIST), Call(LPOINT), Call(FIELD_TYPE), Call(RPOINT), Opt(Call(CPP_TYPE))], 0);
    } else if r == CPP_TYPE {
      SeqRule(r, [Call(WORD_CPPTYPE), Call(LITERAL)], 0);
    }
  }

  lemma ValuesAre(r: nat)
    requires CONST_VALUE <= r <= ANNOTATION
    ensures BodyIs(r, Values(r))
  {
    hide Seq, Alt, Sound, Starts, Solid, Text, Spaced, Plus, Char, Chars, Integer, Double, Sign, Quoted, EnumValue, ConstPair,
         ToLineEnd;
    var k := Rank(r);
    Calls(k);
    if r == CONST_VALUE {
      AltRule(r, [Call(DOUBLE_CONSTANT), Call(INT_CONSTANT), Call(LITERAL), Call(IDENTIFIER), Call(CONST_LIST),
               Call(CONST_MAP)]);
    } else if r == INT_CONSTANT {
      IntegerIs(k);
      TakeIs(Integer(), k);
      SpacedIs(Take(Integer()), k);
    } else if r == DOUBLE_CONSTANT {
      DoubleIs(k);
      TakeIs(Cat(Sign(), Double()), k);
      SpacedIs(Take(Cat(Sign(), Double())), k);
    } else if r == EXPONENT {
      CharIs('e', k);
      CharIs('E', k);
      AltIs([Char('e'), Char('E')], k, 1);
      CatIs(Alt([Char('e'), Char('E')]), Call(INT_CONSTANT), k, 1);
    } else if r == ANNOTATIONS {
      SeqRule(r, [Call(LPAR), Star(Call(ANNOTATION)), Call(RPAR)], 0);
    } else if r == ANNOTATION {
      SeqRule(r, [Call(IDENTIFIER), Call(EQUAL), Call(LITERAL), Opt(Call(LIST_SEPARATOR))], 0);
    }
  }

  lemma MoreValuesAre(r: nat)
    requires CONST_LIST <= r <= LIST_SEPARATOR
    ensures BodyIs(r, Values(r))
  {
    hide Seq, Alt, Sound, Starts, Solid, Text, Spaced, Plus, Char, Chars, Integer, Double, Sign, Quoted, EnumValue, ConstPair,
         ToLineEnd;
    var k := Rank(r);
    Calls(k);
    if r == CONST_LIST {
      ListItemIs();
      SeqRule(r, [Call(LBRK), Star(Cat(Call(CONST_VALUE), Opt(Call(LIST_SEPARATOR)))), Call(RBRK)], 0);
    } else if r == CONST_MAP {
      ConstPairIs();
      SeqRule(r, [Call(LWING), Star(ConstPair()), Call(RWING)], 0);
    } else if r == ESCAPE_LITERAL_CHAR {
      CharIs('\\', k);
      CharIs('"', k);
      CharIs('\'', k);
      AltIs([Char('"'), Char('\'')], k, 1);
      CatIs(Char('\\'), Alt([Char('"'), Char('\'')]), k, 1);
    } else if r == LITERAL {
      QuotedIs('"', k);
      QuotedIs('\'', k);
      AltRule(r, [Quoted('"'), Quoted('\'')]);
    } else if r == IDENTIFIER {
      NameIs(k);
      TakeIs(Cat(Call(LETTER), Star(Alt([Call(LETTER), Call(DIGIT), Char('.')]))), k);
      SpacedIs(Take(Cat(Call(LETTER), Star(Alt([Call(LETTER), Call(DIGIT), Char('.')])))), k);
    } else if r == LIST_SEPARATOR {
      CharIs(',', k);
      CharIs(';', k);
      AltIs([Char(','), Char(';')], k, 1);
      SpacedIs(Alt([Char(','), Char(';')]), k);
    }
  }

  lemma BlanksAre(r: nat)
    requires LETTER <= r <= SKIP_LINE
    ensures BodyIs(r, Blanks(r))
  {
    hide Seq, Alt, Sound, Starts, Solid, Text, Spaced, Plus, Char, Chars, Integer, Double, Sign, Quoted, EnumValue, ConstPair,
         ToLineEnd;
    var k := Rank(r);
    Calls(k);
    if r == LETTER {
      CharsIs('A', 'Z', k);
      CharsIs('a', 'z', k);
      CharIs('_', k);
      AltRule(r, [Chars('A', 'Z'), Chars('a', 'z'), Char('_')]);
    } else if r == LETTER_OR_DIGIT {
      CharsIs('a', 'z', k);
      CharsIs('A', 'Z', k);
      CharsIs('0', '9', k);
      CharIs('_', k);
      CharIs('$', k);
      AltRule(r, [Chars('a', 'z'), Chars('A', 'Z'), Chars('0', '9'), Char('_'), Char('$')]);
    } else if r == DIGIT {
      CharsIs('0', '9', k);
    } else if r == RESERVED_COMMENTS {
    } else if r == RESERVED_END_LINE_COMMENTS {
    } else if r == SKIP {
      AltIs([Call(SPACE), Call(COMMENT)], k, 0);
      StarIs(Alt([Call(SPACE), Call(COMMENT)]), k);
    } else if r == SKIP_LINE {
      AltIs([Call(INDENT), Call(COMMENT)], k, 0);
      StarIs(Alt([Call(INDENT), Call(COMMENT)]), k);
    }
  }

  lemma MoreBlanksAre(r: nat)
    requires SPACE <= r <= UNIX_COMMENT
    ensures BodyIs(r, Blanks(r))
  {
    hide Seq, Alt, Sound, Starts, Solid, Text, Spaced, Plus, Char, Chars, Integer, Double, Sign, Quoted, EnumValue, ConstPair,
         ToLineEnd;
    var k := Rank(r);
    Calls(k);
    if r == SPACE {
      AltIs([Call(INDENT), Call(CARRIAGE_RETURN_LINE_FEED)], k, 0);
      PlusIs(Alt([Call(INDENT), Call(CARRIAGE_RETURN_LINE_FEED)]), k);
    } else if r == INDENT {
      CharIs(' ', k);
      CharIs('\t', k);
      CharIs('\U{000B}', k);
      AltRule(r, [Char(' '), Char('\t'), Char('\U{000B}')]);
    } else if r == CARRIAGE_RETURN_LINE_FEED {
      CharIs('\r', k);
      CharIs('\n', k);
      AltRule(r, [Char('\r'), Char('\n')]);
    } else if r == COMMENT {
      AltRule(r, [Call(LONG_COMMENT), Call(LINE_COMMENT), Call(UNIX_COMMENT)]);
    } else if r == LONG_COMMENT {
      LongCommentIs(k);
    } else if r == LINE_COMMENT {
      ToLineEndIs(k);
      TextIs("//", k);
      Deeper(Text("//"));
      CatIs(Text("//"), ToLineEnd(), k, 1);
    } else if r == UNIX_COMMENT {
      ToLineEndIs(k);
      CharIs('#', k);
      CatIs(Char('#'), ToLineEnd(), k, 1);
    }
  }

  /** Every rule of the grammar is as the facts say. */
  lemma ThriftIsDescribed()
    ensures Describes(Known(), Thrift)
  {
    hide Thrift, DescribesRule;
    forall r: nat
      ensures DescribesRule(Known(), Thrift, r)
    {
      RuleIs(r);
    }
  }

  lemma RuleIs(r: nat)
    ensures DescribesRule(Known(), Thrift, r)
  {
    hide Definitions, Members, Types, Values, Blanks, Word, Spaced;
    RankIs(r);
    if r < DOCUMENT || PEG_TEXT <= r {
      NoRule(r);
    } else {
      var k := Rank(r);
      if r <= NAMESPACE { DefinitionsAre(r); }
      else if r <= TYPEDEF { MoreDefinitionsAre(r); }
      else if r <= EXCEPTION { MembersAre(r); }
      else if r <= THROWS { MoreMembersAre(r); }
      else if r <= CPP_TYPE { TypesAre(r); }
      else if r <= ANNOTATION { ValuesAre(r); }
      else if r <= LIST_SEPARATOR { MoreValuesAre(r); }
      else if r <= SKIP_LINE { BlanksAre(r); }
      else if r <= UNIX_COMMENT { MoreBlanksAre(r); }
      else if r < LBRK { WordIs(WORDS[r - WORD_BOOL], r < WORD_CONST, k); }
      else {
        CharIs(SYMBOLS[r - LBRK], k);
        SpacedIs(Char(SYMBOLS[r - LBRK]), k);
      }
    }
  }

  lemma NoRule(r: nat)
    requires r < DOCUMENT || PEG_TEXT <= r
    ensures Thrift(r) == Dot
  {
  }

  /** Every text is either refused or has its syntax tree built; no bound is ever reached. */
  method ParseThrift(text: seq<nat>) returns (ok: bool, root: Node32?, ghost s: set<Node32>)
    ensures ok <==> Meaning(Known(), Thrift, DOCUMENT, text).Match?
    ensures ok ==> |Meaning(Known(), Thrift, DOCUMENT, text).trees| == 1
    ensures ok ==> (Meaning(Known(), Thrift, DOCUMENT, text).end == 0 <==> root == null)
    ensures ok && root != null ==> Linked(root, [Prune(Meaning(Known(), Thrift, DOCUMENT, text).trees[0])], s)
  {
    ThriftIsDescribed();
    ok, root, s := ParseText(Known(), Thrift, DOCUMENT, text);
  }
}
