/** Texts of the Thrift grammar as words with what is skipped around them, and how the grammar reads
    them word by word. */
module ThriftPages {
  import opened TokenTree
  import opened PegParser
  import opened ThriftGrammar
  import opened ThriftShapes
  import opened ThriftBlanks
  import opened ThriftLexemes

  /** A text, its words and the places at which they begin; the last place is the end of the text. */
  datatype Page = Page(buffer: seq<nat>, words: seq<string>, on: seq<nat>)

  /** From a place on the text consists of these words, of blanks, line breaks and comments. */
  predicate Written(buffer: seq<nat>, pos: nat, words: seq<string>)
    requires Source(buffer)
    decreases |words|
  {
    && pos < |buffer|
    && var on := Skipped(buffer, pos);
       if words == [] then on == |buffer| - 1
       else
         && words[0] != "" && Has(buffer, on, words[0]) && on + |words[0]| < |buffer| && Apart(words[0], buffer[on + |words[0]|])
         && Written(buffer, on + |words[0]|, words[1..])
  }

  predicate Laid(g: Page) {
    && Source(g.buffer) && |g.on| == |g.words| + 1 && g.on[|g.words|] == |g.buffer| - 1
    && (forall i {:trigger g.words[i]} :: 0 <= i < |g.words| ==> Stands(g.buffer, g.on[i], g.words[i], g.on[i + 1]))
  }

  /** The places of the words. */
  lemma {:induction false} Lay(buffer: seq<nat>, pos: nat, words: seq<string>) returns (on: seq<nat>)
    requires Source(buffer) && Written(buffer, pos, words)
    ensures Laid(Page(buffer, words, on)) && Ready(buffer, pos, on[0])
    decreases |words|
  {
    hide Has, Apart, Skipped;
    var first := Skipped(buffer, pos);
    ReadyOn(buffer, pos, first);
    if words == [] {
      on := [first];
    } else {
      var rest := Lay(buffer, first + |words[0]|, words[1..]);
      on := [first] + rest;
      forall i | 0 <= i < |words|
        ensures Stands(buffer, on[i], words[i], on[i + 1])
      {
        if i > 0 {
          assert words[i] == words[1..][i - 1];
        }
      }
    }
  }

  lemma WordStands(g: Page, i: nat)
    requires Laid(g) && i < |g.words|
    ensures |g.on| == |g.words| + 1 && Stands(g.buffer, g.on[i], g.words[i], g.on[i + 1])
  {
    var s := g.words[i];
  }

  /** The character at which the i-th word begins. */
  function First(g: Page, i: nat): nat {
    if i < |g.on| && g.on[i] < |g.buffer| then g.buffer[g.on[i]] else EndSymbol
  }

  lemma FirstIs(g: Page, i: nat)
    requires Laid(g) && i < |g.words| && g.words[i] != ""
    ensures First(g, i) == g.words[i][0] as nat
  {
    WordStands(g, i);
    assert g.buffer[g.on[i]] == g.words[i][0] as nat;
  }

  /** Only the first word can stand at the very beginning. */
  lemma Behind(g: Page, i: nat)
    requires Laid(g) && 0 < i < |g.on|
    ensures g.on[i] > 0
  {
    WordStands(g, i - 1);
  }

  lemma LastIs(g: Page)
    requires Laid(g)
    ensures First(g, |g.words|) == EndSymbol
  {
  }

  /** The words stand one after the other from the i-th on. */
  predicate Spelled(g: Page, i: nat, words: seq<string>) {
    i + |words| <= |g.words| && g.words[i..i + |words|] == words
  }

  lemma SpelledParts(g: Page, i: nat, a: seq<string>, b: seq<string>)
    requires Spelled(g, i, a + b)
    ensures Spelled(g, i, a) && Spelled(g, i + |a|, b)
  {
    assert g.words[i..i + |a|] == (a + b)[..|a|] == a;
    assert g.words[i + |a|..i + |a| + |b|] == (a + b)[|a|..] == b;
  }

  lemma SpelledAt(g: Page, i: nat, words: seq<string>, k: nat)
    requires Spelled(g, i, words) && k < |words|
    ensures i + k < |g.words| && g.words[i + k] == words[k]
  {
  }

  // ----- reading from word to word -----

  /** From the i-th word the expression comes to the j-th, with these shapes. */
  ghost predicate Reads(g: Page, e: Expr, i: nat, j: nat, s: seq<Shape>) {
    i < |g.on| && j < |g.on| && forall pos: nat :: Ready(g.buffer, pos, g.on[i]) ==> Lands(g.buffer, e, pos, g.on[j], s)
  }

  /** The expression does not match at the i-th word. */
  ghost predicate Denies(g: Page, e: Expr, i: nat) {
    i < |g.on| && forall pos: nat :: Ready(g.buffer, pos, g.on[i]) ==> Refuses(g.buffer, e, pos)
  }

  lemma End(buffer: seq<nat>, e: Expr, pos: nat, next: nat, s: seq<Shape>) returns (end: nat)
    requires Lands(buffer, e, pos, next, s)
    ensures Ready(buffer, end, next) && Gives(buffer, e, pos, end, s)
  {
    end :| Ready(buffer, end, next) && Gives(buffer, e, pos, end, s);
  }

  lemma CatReads(g: Page, a: Expr, b: Expr, i: nat, j: nat, k: nat, s: seq<Shape>, t: seq<Shape>)
    requires Reads(g, a, i, j, s) && Reads(g, b, j, k, t)
    ensures Reads(g, Cat(a, b), i, k, s + t)
  {
    hide Gives, Ready;
    forall pos: nat | Ready(g.buffer, pos, g.on[i])
      ensures Lands(g.buffer, Cat(a, b), pos, g.on[k], s + t)
    {
      var mid := End(g.buffer, a, pos, g.on[j], s);
      var end := End(g.buffer, b, mid, g.on[k], t);
      CatGives(g.buffer, a, b, pos, mid, end, s, t);
    }
  }

  lemma CatDenies(g: Page, a: Expr, b: Expr, i: nat)
    requires Denies(g, a, i)
    ensures Denies(g, Cat(a, b), i)
  {
    hide Refuses, Ready;
    forall pos: nat | Ready(g.buffer, pos, g.on[i])
      ensures Refuses(g.buffer, Cat(a, b), pos)
    {
      CatRefuses(g.buffer, a, b, pos);
    }
  }

  lemma CatHalts(g: Page, a: Expr, b: Expr, i: nat, j: nat, s: seq<Shape>)
    requires Reads(g, a, i, j, s) && Denies(g, b, j)
    ensures Denies(g, Cat(a, b), i)
  {
    hide Gives, Refuses, Ready;
    forall pos: nat | Ready(g.buffer, pos, g.on[i])
      ensures Refuses(g.buffer, Cat(a, b), pos)
    {
      var mid := End(g.buffer, a, pos, g.on[j], s);
      CatStops(g.buffer, a, b, pos, mid, s);
    }
  }

  /** The parts of a sequence one behind the other, from word to word. */
  lemma {:induction false} SeqReads(g: Page, es: seq<Expr>, at: seq<nat>, ss: seq<seq<Shape>>)
    requires es != [] && |at| == |es| + 1 && |ss| == |es|
    requires forall i {:trigger es[i]} :: 0 <= i < |es| ==> Reads(g, es[i], at[i], at[i + 1], ss[i])
    ensures Reads(g, Seq(es), at[0], at[|es|], Flat(ss))
    decreases |es|
  {
    hide Reads;
    if |es| == 1 {
      assert Flat(ss) == ss[0] + Flat([]) == ss[0];
    } else {
      SeqReads(g, es[1..], at[1..], ss[1..]);
      CatReads(g, es[0], Seq(es[1..]), at[0], at[1], at[|es|], ss[0], Flat(ss[1..]));
    }
  }

  /** The parts up to one that is denied. */
  lemma {:induction false} SeqDenies(g: Page, es: seq<Expr>, at: seq<nat>, ss: seq<seq<Shape>>)
    requires |at| == |ss| + 1 && |ss| < |es|
    requires forall i {:trigger es[i]} :: 0 <= i < |ss| ==> Reads(g, es[i], at[i], at[i + 1], ss[i])
    requires Denies(g, es[|ss|], at[|ss|])
    ensures Denies(g, Seq(es), at[0])
    decreases |es|
  {
    hide Reads, Denies;
    if |es| > 1 {
      if ss == [] {
        CatDenies(g, es[0], Seq(es[1..]), at[0]);
      } else {
        SeqDenies(g, es[1..], at[1..], ss[1..]);
        CatHalts(g, es[0], Seq(es[1..]), at[0], at[1], ss[0]);
      }
    }
  }

  /** The first of the alternatives that is not denied. */
  lemma AltReads(g: Page, es: seq<Expr>, n: nat, i: nat, j: nat, s: seq<Shape>)
    requires n < |es| && Reads(g, es[n], i, j, s)
    requires forall k :: 0 <= k < n ==> Denies(g, es[k], i)
    ensures Reads(g, Alt(es), i, j, s)
  {
    hide Gives, Refuses, Ready, Alt;
    forall pos: nat | Ready(g.buffer, pos, g.on[i])
      ensures Lands(g.buffer, Alt(es), pos, g.on[j], s)
    {
      var end := End(g.buffer, es[n], pos, g.on[j], s);
      forall k | 0 <= k < n
        ensures Refuses(g.buffer, es[k], pos)
      {
        assert Denies(g, es[k], i);
      }
      AltGives(g.buffer, es, n, pos, end, s);
    }
  }

  lemma AltDenies(g: Page, es: seq<Expr>, i: nat)
    requires es != [] && forall k :: 0 <= k < |es| ==> Denies(g, es[k], i)
    ensures Denies(g, Alt(es), i)
  {
    hide Refuses, Ready, Alt;
    assert Denies(g, es[0], i);
    forall pos: nat | Ready(g.buffer, pos, g.on[i])
      ensures Refuses(g.buffer, Alt(es), pos)
    {
      forall k | 0 <= k < |es|
        ensures Refuses(g.buffer, es[k], pos)
      {
        assert Denies(g, es[k], i);
      }
      AltRefuses(g.buffer, es, pos);
    }
  }

  lemma OptReads(g: Page, e: Expr, i: nat, j: nat, s: seq<Shape>)
    requires Reads(g, e, i, j, s)
    ensures Reads(g, Opt(e), i, j, s)
  {
    hide Gives, Ready;
    forall pos: nat | Ready(g.buffer, pos, g.on[i])
      ensures Lands(g.buffer, Opt(e), pos, g.on[j], s)
    {
      var end := End(g.buffer, e, pos, g.on[j], s);
      OptGives(g.buffer, e, pos, end, s);
    }
  }

  lemma OptPasses(g: Page, e: Expr, i: nat)
    requires Denies(g, e, i)
    ensures Reads(g, Opt(e), i, i, [])
  {
    hide Gives, Refuses, Skipped;
    forall pos: nat | Ready(g.buffer, pos, g.on[i])
      ensures Lands(g.buffer, Opt(e), pos, g.on[i], [])
    {
      OptSkips(g.buffer, e, pos);
    }
  }

  lemma StarReads(g: Page, e: Expr, i: nat, j: nat, k: nat, s: seq<Shape>, t: seq<Shape>)
    requires Reads(g, e, i, j, s) && Reads(g, Star(e), j, k, t)
    ensures Reads(g, Star(e), i, k, s + t)
  {
    hide Gives, Ready;
    forall pos: nat | Ready(g.buffer, pos, g.on[i])
      ensures Lands(g.buffer, Star(e), pos, g.on[k], s + t)
    {
      var mid := End(g.buffer, e, pos, g.on[j], s);
      var end := End(g.buffer, Star(e), mid, g.on[k], t);
      StarGives(g.buffer, e, pos, mid, end, s, t);
    }
  }

  lemma StarPasses(g: Page, e: Expr, i: nat)
    requires Denies(g, e, i)
    ensures Reads(g, Star(e), i, i, [])
  {
    hide Gives, Refuses, Skipped;
    forall pos: nat | Ready(g.buffer, pos, g.on[i])
      ensures Lands(g.buffer, Star(e), pos, g.on[i], [])
    {
      StarStops(g.buffer, e, pos);
    }
  }

  lemma RuleReads(g: Page, rule: nat, i: nat, j: nat, s: seq<Shape>)
    requires rule != PEG_TEXT && !IsBlank(rule) && Reads(g, Thrift(rule), i, j, s)
    ensures Reads(g, Call(rule), i, j, [Branch(rule, s)])
  {
    hide Lands, Thrift, Ready;
    forall pos: nat | Ready(g.buffer, pos, g.on[i])
      ensures Lands(g.buffer, Call(rule), pos, g.on[j], [Branch(rule, s)])
    {
      RuleLands(g.buffer, rule, pos, g.on[j], s);
    }
  }

  lemma RuleDenies(g: Page, rule: nat, i: nat)
    requires Denies(g, Thrift(rule), i)
    ensures Denies(g, Call(rule), i)
  {
    hide Refuses, Thrift, Ready;
    forall pos: nat | Ready(g.buffer, pos, g.on[i])
      ensures Refuses(g.buffer, Call(rule), pos)
    {
      RuleRefuses(g.buffer, rule, pos);
    }
  }

  /** A rule that is a sequence, with the shapes of its parts. */
  lemma SeqRuleReads(g: Page, rule: nat, es: seq<Expr>, at: seq<nat>, ss: seq<seq<Shape>>)
    requires rule != PEG_TEXT && !IsBlank(rule) && es != [] && Thrift(rule) == Seq(es) && |at| == |es| + 1 && |ss| == |es|
    requires forall i {:trigger es[i]} :: 0 <= i < |es| ==> Reads(g, es[i], at[i], at[i + 1], ss[i])
    ensures Reads(g, Call(rule), at[0], at[|es|], [Branch(rule, Flat(ss))])
  {
    hide Reads, Thrift, Seq;
    SeqReads(g, es, at, ss);
    RuleReads(g, rule, at[0], at[|es|], Flat(ss));
  }

  lemma SeqRuleDenies(g: Page, rule: nat, es: seq<Expr>, at: seq<nat>, ss: seq<seq<Shape>>)
    requires |at| == |ss| + 1 && |ss| < |es| && Thrift(rule) == Seq(es)
    requires forall i {:trigger es[i]} :: 0 <= i < |ss| ==> Reads(g, es[i], at[i], at[i + 1], ss[i])
    requires Denies(g, es[|ss|], at[|ss|])
    ensures Denies(g, Call(rule), at[0])
  {
    hide Reads, Denies, Thrift, Seq;
    SeqDenies(g, es, at, ss);
    RuleDenies(g, rule, at[0]);
  }

  lemma AltRuleReads(g: Page, rule: nat, es: seq<Expr>, n: nat, i: nat, j: nat, s: seq<Shape>)
    requires rule != PEG_TEXT && !IsBlank(rule) && n < |es| && Thrift(rule) == Alt(es) && Reads(g, es[n], i, j, s)
    requires forall k :: 0 <= k < n ==> Denies(g, es[k], i)
    ensures Reads(g, Call(rule), i, j, [Branch(rule, s)])
  {
    hide Reads, Denies, Thrift, Alt;
    AltReads(g, es, n, i, j, s);
    RuleReads(g, rule, i, j, s);
  }

  lemma AltRuleDenies(g: Page, rule: nat, es: seq<Expr>, i: nat)
    requires es != [] && Thrift(rule) == Alt(es) && forall k :: 0 <= k < |es| ==> Denies(g, es[k], i)
    ensures Denies(g, Call(rule), i)
  {
    hide Denies, Thrift, Alt;
    AltDenies(g, es, i);
    RuleDenies(g, rule, i);
  }

  lemma SkipReads(g: Page, i: nat)
    requires i < |g.on|
    ensures Reads(g, Call(SKIP), i, i, []) && Reads(g, Call(RESERVED_COMMENTS), i, i, [])
    ensures Reads(g, Call(SKIP_LINE), i, i, []) && Reads(g, Call(RESERVED_END_LINE_COMMENTS), i, i, [])
    ensures Reads(g, Star(Call(INDENT)), i, i, [])
  {
    hide Gives, Skipped;
    forall pos: nat | Ready(g.buffer, pos, g.on[i])
      ensures Lands(g.buffer, Call(SKIP), pos, g.on[i], []) && Lands(g.buffer, Call(RESERVED_COMMENTS), pos, g.on[i], [])
      ensures Lands(g.buffer, Call(SKIP_LINE), pos, g.on[i], []) && Lands(g.buffer, Call(RESERVED_END_LINE_COMMENTS), pos, g.on[i], [])
      ensures Lands(g.buffer, Star(Call(INDENT)), pos, g.on[i], [])
    {
      ReadyOn(g.buffer, pos, g.on[i]);
      SkipGives(g.buffer, pos);
      LineSkipGives(g.buffer, pos, g.on[i]);
      var end := IndentRun(g.buffer, pos);
    }
  }

  // ----- words -----

  predicate IsWord(s: string) {
    s != "" && forall i :: 0 <= i < |s| ==> LetterOrDigit(s[i] as nat) && NameChar(s[i] as nat)
  }

  /** The word is neither the name nor the part of the name before a dot. */
  predicate FreeOf(name: string, word: string) {
    word <= name ==> |word| < |name| && name[|word|] != '.'
  }

  /** The word stands at the i-th place. */
  predicate WordIsAt(g: Page, i: nat, word: string) {
    i < |g.on| && WordAt(g.buffer, g.on[i], word)
  }

  function KeyShape(s: string, taken: bool): seq<Shape> {
    if taken then [Leaf(Codes(s))] else []
  }

  lemma KeyReads(g: Page, rule: nat, i: nat)
    requires Laid(g) && WORD_BOOL <= rule < LBRK && i < |g.words| && g.words[i] == WORDS[rule - WORD_BOOL]
    requires 0 < i || rule >= WORD_CONST
    ensures Reads(g, Call(rule), i, i + 1, [Branch(rule, KeyShape(g.words[i], rule < WORD_CONST))])
  {
    hide Lands, Has, Skipped, WORDS, Laid;
    WordStands(g, i);
    WordsAreWords();
    if 0 < i {
      Behind(g, i);
    }
    var s := g.words[i];
    forall pos: nat | Ready(g.buffer, pos, g.on[i])
      ensures Lands(g.buffer, Call(rule), pos, g.on[i + 1], [Branch(rule, KeyShape(s, rule < WORD_CONST))])
    {
      assert NameChar(s[|s| - 1] as nat);
      KeywordGives(g.buffer, rule, pos, g.on[i], g.on[i + 1]);
    }
  }

  lemma KeyDenies(g: Page, rule: nat, i: nat)
    requires WORD_BOOL <= rule < LBRK && i < |g.on| && !WordIsAt(g, i, WORDS[rule - WORD_BOOL])
    ensures Denies(g, Call(rule), i)
  {
    hide Refuses, Ready, WordAt, WORDS;
    forall pos: nat | Ready(g.buffer, pos, g.on[i])
      ensures Refuses(g.buffer, Call(rule), pos)
    {
      KeywordRefuses(g.buffer, rule, pos, g.on[i]);
    }
  }

  lemma WordsAreWords()
    ensures forall i {:trigger WORDS[i]} :: 0 <= i < |WORDS| ==> IsWord(WORDS[i]) && Letter(WORDS[i][0] as nat)
    ensures |WORDS| == 27
  {
  }

  lemma Agree(buffer: seq<nat>, pos: nat, s: string, t: string)
    requires Has(buffer, pos, s) && Has(buffer, pos, t) && |s| <= |t|
    ensures s <= t
  {
    forall i | 0 <= i < |s|
      ensures s[i] == t[i]
    {
      assert buffer[pos + i] == s[i] as nat && buffer[pos + i] == t[i] as nat;
    }
  }

  /** Where a name stands no word stands that the name is free of. */
  lemma OtherWord(g: Page, i: nat, word: string)
    requires Laid(g) && i < |g.words| && NameChars(g.words[i]) && g.words[i] != "" && FreeOf(g.words[i], word) && IsWord(word)
    ensures !WordIsAt(g, i, word)
  {
    hide Laid, Ready;
    WordStands(g, i);
    var name, on := g.words[i], g.on[i];
    assert NameChar(name[|name| - 1] as nat);
    if |word| > |name| {
      var c := word[|name|];
    } else if Has(g.buffer, on, word) {
      Agree(g.buffer, on, word, name);
      if |word| < |name| {
        assert g.buffer[on + |word|] == name[|word|] as nat && NameChar(name[|word|] as nat);
      }
    }
  }

  lemma NoWord(g: Page, i: nat, word: string)
    requires i < |g.on| && IsWord(word) && !LetterOrDigit(First(g, i))
    ensures !WordIsAt(g, i, word)
  {
    var c := word[0];
  }

  // ----- symbols, names, numbers, quoted texts -----

  lemma SymbolReads(g: Page, rule: nat, i: nat)
    requires Laid(g) && LBRK <= rule < PEG_TEXT && i < |g.words| && g.words[i] == [SYMBOLS[rule - LBRK]]
    ensures Reads(g, Call(rule), i, i + 1, [Branch(rule, [])])
  {
    hide Lands, Skipped, SYMBOLS, Laid;
    WordStands(g, i);
    forall pos: nat | Ready(g.buffer, pos, g.on[i])
      ensures Lands(g.buffer, Call(rule), pos, g.on[i + 1], [Branch(rule, [])])
    {
      assert g.buffer[g.on[i]] == g.words[i][0] as nat;
      SymbolGives(g.buffer, rule, pos, g.on[i], g.on[i + 1]);
    }
  }

  lemma SymbolDenies(g: Page, rule: nat, i: nat)
    requires LBRK <= rule < PEG_TEXT && i < |g.on| && First(g, i) != SYMBOLS[rule - LBRK] as nat
    ensures Denies(g, Call(rule), i)
  {
    hide Refuses, Skipped, SYMBOLS;
    forall pos: nat | Ready(g.buffer, pos, g.on[i])
      ensures Refuses(g.buffer, Call(rule), pos)
    {
      SymbolRefuses(g.buffer, rule, pos, g.on[i]);
    }
  }

  lemma SeparatorReads(g: Page, i: nat)
    requires Laid(g) && i < |g.words| && (g.words[i] == "," || g.words[i] == ";")
    ensures Reads(g, Call(LIST_SEPARATOR), i, i + 1, [Branch(LIST_SEPARATOR, [])])
  {
    hide Lands, Refuses, Skipped, Laid;
    WordStands(g, i);
    forall pos: nat | Ready(g.buffer, pos, g.on[i])
      ensures Lands(g.buffer, Call(LIST_SEPARATOR), pos, g.on[i + 1], [Branch(LIST_SEPARATOR, [])])
    {
      assert g.buffer[g.on[i]] == g.words[i][0] as nat;
      SeparatorMatches(g.buffer, pos, g.on[i], g.on[i + 1]);
    }
  }

  lemma SeparatorDenies(g: Page, i: nat)
    requires i < |g.on| && First(g, i) != ',' as nat && First(g, i) != ';' as nat
    ensures Denies(g, Call(LIST_SEPARATOR), i)
  {
    hide Lands, Refuses, Skipped;
    forall pos: nat | Ready(g.buffer, pos, g.on[i])
      ensures Refuses(g.buffer, Call(LIST_SEPARATOR), pos)
    {
      SeparatorMatches(g.buffer, pos, g.on[i], 0);
    }
  }

  lemma NameReads(g: Page, i: nat)
    requires Laid(g) && 0 < i < |g.words| && IsName(g.words[i])
    ensures Reads(g, Call(IDENTIFIER), i, i + 1, [NameShape(g.words[i])])
  {
    hide Lands, Ready, Laid, IsName;
    WordStands(g, i);
    Behind(g, i);
    forall pos: nat | Ready(g.buffer, pos, g.on[i])
      ensures Lands(g.buffer, Call(IDENTIFIER), pos, g.on[i + 1], [NameShape(g.words[i])])
    {
      NameGives(g.buffer, g.words[i], pos, g.on[i], g.on[i + 1]);
    }
  }

  lemma NameDenies(g: Page, i: nat)
    requires i < |g.on| && !Letter(First(g, i))
    ensures Denies(g, Call(IDENTIFIER), i)
  {
    hide Refuses, Skipped;
    forall pos: nat | Ready(g.buffer, pos, g.on[i])
      ensures Refuses(g.buffer, Call(IDENTIFIER), pos)
    {
      NameRefuses(g.buffer, pos, g.on[i]);
    }
  }

  lemma IntegerReads(g: Page, i: nat)
    requires Laid(g) && 0 < i < |g.words| && IsInteger(g.words[i])
    ensures Reads(g, Call(INT_CONSTANT), i, i + 1, [Branch(INT_CONSTANT, [Leaf(Codes(g.words[i]))])])
    ensures Denies(g, Call(DOUBLE_CONSTANT), i)
  {
    hide Lands, Refuses, Ready, Laid, IsInteger;
    var s := g.words[i];
    WordStands(g, i);
    Behind(g, i);
    forall pos: nat | Ready(g.buffer, pos, g.on[i])
      ensures Lands(g.buffer, Call(INT_CONSTANT), pos, g.on[i + 1], [Branch(INT_CONSTANT, [Leaf(Codes(s))])])
      ensures Refuses(g.buffer, Call(DOUBLE_CONSTANT), pos)
    {
      IntegerIsRead(g.buffer, s, pos, g.on[i], g.on[i + 1]);
    }
  }

  lemma NumberDenies(g: Page, i: nat)
    requires i < |g.on| && NoNumber(First(g, i))
    ensures Denies(g, Call(INT_CONSTANT), i) && Denies(g, Call(DOUBLE_CONSTANT), i)
  {
    hide Refuses, Skipped;
    forall pos: nat | Ready(g.buffer, pos, g.on[i])
      ensures Refuses(g.buffer, Call(INT_CONSTANT), pos) && Refuses(g.buffer, Call(DOUBLE_CONSTANT), pos)
    {
      IntegerRefuses(g.buffer, pos, g.on[i]);
      NoDouble(g.buffer, pos, g.on[i]);
    }
  }

  lemma DoubleReads(g: Page, i: nat, sign: string, a: string, b: string)
    requires Laid(g) && 0 < i < |g.words| && IsSign(sign) && Digits(a) && Digits(b) && b != "" && g.words[i] == sign + (a + ("." + b))
    ensures Reads(g, Call(DOUBLE_CONSTANT), i, i + 1, [Branch(DOUBLE_CONSTANT, [Leaf(Codes(g.words[i]))])])
  {
    hide Lands, Ready, Laid;
    WordStands(g, i);
    Behind(g, i);
    forall pos: nat | Ready(g.buffer, pos, g.on[i])
      ensures Lands(g.buffer, Call(DOUBLE_CONSTANT), pos, g.on[i + 1], [Branch(DOUBLE_CONSTANT, [Leaf(Codes(g.words[i]))])])
    {
      DoubleGives(g.buffer, sign, a, b, pos, g.on[i], g.on[i + 1]);
    }
  }

  /** A number with an exponent is one number, of which the exponent is taken. */
  lemma PowerReads(g: Page, i: nat, sign: string, a: string, b: string, mark: string, c: string)
    requires Laid(g) && i < |g.words| && IsSign(sign) && Digits(a) && Digits(b) && (a != "" || b != "") && IsPower(mark, c)
    requires g.words[i] == sign + (Mantissa(a, b) + (mark + c))
    ensures Reads(g, Call(DOUBLE_CONSTANT), i, i + 1, [Branch(DOUBLE_CONSTANT, [Leaf(Codes(c))])])
  {
    hide Lands, Ready, Laid, IsPower;
    WordStands(g, i);
    forall pos: nat | Ready(g.buffer, pos, g.on[i])
      ensures Lands(g.buffer, Call(DOUBLE_CONSTANT), pos, g.on[i + 1], [Branch(DOUBLE_CONSTANT, [Leaf(Codes(c))])])
    {
      DoublePowerGives(g.buffer, sign, a, b, mark, c, pos, g.on[i], g.on[i + 1]);
    }
  }

  lemma QuoteReads(g: Page, i: nat, c: char, s: string)
    requires Laid(g) && i < |g.words| && IsQuote(c) && Quotable(c, s) && g.words[i] == [c] + (Escaped(c, s) + [c])
    ensures Reads(g, Call(LITERAL), i, i + 1, [QuoteShape(s)])
  {
    hide Lands, Ready, Laid, Escaped, Quotable;
    WordStands(g, i);
    forall pos: nat | Ready(g.buffer, pos, g.on[i])
      ensures Lands(g.buffer, Call(LITERAL), pos, g.on[i + 1], [QuoteShape(s)])
    {
      QuoteGives(g.buffer, c, s, pos, g.on[i], g.on[i + 1]);
    }
  }

  lemma QuoteDenies(g: Page, i: nat)
    requires i < |g.on| && First(g, i) != '"' as nat && First(g, i) != '\'' as nat
    ensures Denies(g, Call(LITERAL), i)
  {
    hide Refuses, Skipped;
    forall pos: nat | Ready(g.buffer, pos, g.on[i])
      ensures Refuses(g.buffer, Call(LITERAL), pos)
    {
      QuoteRefuses(g.buffer, pos, g.on[i]);
    }
  }
}
