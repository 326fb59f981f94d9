/** What is skipped between the words of a Thrift text: blanks, line breaks and comments. */
module ThriftBlanks {
  import opened TokenTree
  import opened PegParser
  import opened ThriftGrammar
  import opened ThriftShapes

  predicate Indent(c: nat) { c == ' ' as nat || c == '\t' as nat || c == '\U{000B}' as nat }
  predicate Break(c: nat) { c == '\r' as nat || c == '\n' as nat }
  predicate White(c: nat) { Indent(c) || Break(c) }

  /** The end symbol stands at the end and nowhere else. */
  predicate Source(buffer: seq<nat>) {
    buffer != [] && forall i :: 0 <= i < |buffer| ==> (buffer[i] == EndSymbol <==> i == |buffer| - 1)
  }

  // ----- where comments end -----

  function LineEnd(buffer: seq<nat>, pos: nat): (end: nat)
    requires pos < |buffer|
    ensures pos <= end < |buffer|
    decreases |buffer| - pos
  {
    if Break(buffer[pos]) || pos == |buffer| - 1 then pos else LineEnd(buffer, pos + 1)
  }

  /** The next end of a long comment, or the end of the text. */
  function Close(buffer: seq<nat>, pos: nat): (end: nat)
    requires pos < |buffer|
    ensures pos <= end < |buffer|
    ensures Has(buffer, end, "*/") || end == |buffer| - 1
    decreases |buffer| - pos
  {
    if Has(buffer, pos, "*/") || pos == |buffer| - 1 then pos else Close(buffer, pos + 1)
  }

  lemma NotPastEnd(buffer: seq<nat>, s: string, pos: nat)
    requires Source(buffer) && Has(buffer, pos, s) && pos < |buffer|
    ensures pos + |s| < |buffer|
  {
    if s != "" {
      assert buffer[pos + (|s| - 1)] == s[|s| - 1] as nat;
    }
  }

  /** The end of the comment that begins here, the same place if none does. */
  function CommentEnd(buffer: seq<nat>, pos: nat): (end: nat)
    requires Source(buffer) && pos < |buffer|
    ensures pos <= end < |buffer|
  {
    if Has(buffer, pos, "/*") then
      NotPastEnd(buffer, "/*", pos);
      var close := Close(buffer, pos + 2);
      if Has(buffer, close, "*/") then NotPastEnd(buffer, "*/", close); close + 2 else pos
    else if Has(buffer, pos, "//") || Has(buffer, pos, "#") then LineEnd(buffer, pos)
    else pos
  }

  /** The place behind the blanks, line breaks and comments that stand here. */
  function Skipped(buffer: seq<nat>, pos: nat): (end: nat)
    requires Source(buffer) && pos < |buffer|
    ensures pos <= end < |buffer|
    decreases |buffer| - pos
  {
    if White(buffer[pos]) then Skipped(buffer, pos + 1)
    else if CommentEnd(buffer, pos) > pos then Skipped(buffer, CommentEnd(buffer, pos))
    else pos
  }

  /** Nothing but what is skipped is left before `on`, where something begins. */
  predicate Ready(buffer: seq<nat>, pos: nat, on: nat) {
    Source(buffer) && pos < |buffer| && Skipped(buffer, pos) == on
  }

  lemma {:induction false} ReadyOn(buffer: seq<nat>, pos: nat, on: nat)
    requires Ready(buffer, pos, on)
    ensures Ready(buffer, on, on) && !White(buffer[on]) && CommentEnd(buffer, on) == on
    decreases |buffer| - pos
  {
    if White(buffer[pos]) {
      ReadyOn(buffer, pos + 1, on);
    } else if CommentEnd(buffer, pos) > pos {
      ReadyOn(buffer, CommentEnd(buffer, pos), on);
    }
  }

  /** The expression comes to where nothing but what is skipped is left before `next`. */
  ghost predicate Lands(buffer: seq<nat>, e: Expr, pos: nat, next: nat, s: seq<Shape>) {
    exists end :: Ready(buffer, end, next) && Gives(buffer, e, pos, end, s)
  }

  // ----- fixed texts -----

  /** As the end symbol is part of no text, one that is not there differs somewhere. */
  lemma {:induction false} Differs(buffer: seq<nat>, s: string, pos: nat) returns (k: nat)
    requires Source(buffer) && !Has(buffer, pos, s) && pos < |buffer|
    ensures k < |s| && pos + k < |buffer| && Has(buffer, pos, s[..k]) && buffer[pos + k] != s[k] as nat
    decreases |s|
  {
    var most := s[..|s| - 1];
    if Has(buffer, pos, most) {
      k := |s| - 1;
      NotPastEnd(buffer, most, pos);
    } else {
      k := Differs(buffer, most, pos);
      assert most[..k] == s[..k];
    }
  }

  lemma TextMatches(buffer: seq<nat>, s: string, pos: nat)
    requires Source(buffer) && s != "" && pos < |buffer|
    ensures Has(buffer, pos, s) ==> Gives(buffer, Text(s), pos, pos + |s|, []) && pos + |s| < |buffer|
    ensures !Has(buffer, pos, s) ==> Refuses(buffer, Text(s), pos)
  {
    hide Gives, Refuses;
    if Has(buffer, pos, s) {
      TextGives(buffer, s, pos);
      NotPastEnd(buffer, s, pos);
    } else {
      var k := Differs(buffer, s, pos);
      TextRefuses(buffer, s, pos, k);
    }
  }

  // ----- blanks -----

  lemma OneIndent(buffer: seq<nat>, pos: nat)
    requires pos < |buffer|
    ensures Indent(buffer[pos]) ==> Gives(buffer, Call(INDENT), pos, pos + 1, [])
    ensures !Indent(buffer[pos]) ==> Refuses(buffer, Call(INDENT), pos)
  {
    hide Gives, Refuses, Alt, Char;
    var es := [Char(' '), Char('\t'), Char('\U{000B}')];
    assert Thrift(INDENT) == Alt(es);
    IsChar(buffer, ' ', pos);
    IsChar(buffer, '\t', pos);
    IsChar(buffer, '\U{000B}', pos);
    if Indent(buffer[pos]) {
      AltGives(buffer, es, if buffer[pos] == ' ' as nat then 0 else if buffer[pos] == '\t' as nat then 1 else 2, pos, pos + 1, []);
      RuleGives(buffer, INDENT, pos, pos + 1, []);
    } else {
      AltRefuses(buffer, es, pos);
      RuleRefuses(buffer, INDENT, pos);
    }
  }

  function LineBreak(): Expr {
    Alt([Char('\r'), Char('\n')])
  }

  lemma OneBreak(buffer: seq<nat>, pos: nat)
    requires pos < |buffer|
    ensures Break(buffer[pos]) ==> Gives(buffer, LineBreak(), pos, pos + 1, []) && Gives(buffer, Call(CARRIAGE_RETURN_LINE_FEED), pos, pos + 1, [])
    ensures !Break(buffer[pos]) ==> Refuses(buffer, LineBreak(), pos) && Refuses(buffer, Call(CARRIAGE_RETURN_LINE_FEED), pos)
  {
    hide Gives, Refuses, Alt, Char;
    var es := [Char('\r'), Char('\n')];
    assert Thrift(CARRIAGE_RETURN_LINE_FEED) == Alt(es);
    IsChar(buffer, '\r', pos);
    IsChar(buffer, '\n', pos);
    if Break(buffer[pos]) {
      AltGives(buffer, es, if buffer[pos] == '\r' as nat then 0 else 1, pos, pos + 1, []);
      RuleGives(buffer, CARRIAGE_RETURN_LINE_FEED, pos, pos + 1, []);
    } else {
      AltRefuses(buffer, es, pos);
      RuleRefuses(buffer, CARRIAGE_RETURN_LINE_FEED, pos);
    }
  }

  function Blank(): Expr {
    Alt([Call(INDENT), Call(CARRIAGE_RETURN_LINE_FEED)])
  }

  lemma OneBlank(buffer: seq<nat>, pos: nat)
    requires pos < |buffer|
    ensures White(buffer[pos]) ==> Gives(buffer, Blank(), pos, pos + 1, [])
    ensures !White(buffer[pos]) ==> Refuses(buffer, Blank(), pos)
  {
    hide Gives, Refuses, Alt;
    var es := [Call(INDENT), Call(CARRIAGE_RETURN_LINE_FEED)];
    OneIndent(buffer, pos);
    OneBreak(buffer, pos);
    if White(buffer[pos]) {
      AltGives(buffer, es, if Indent(buffer[pos]) then 0 else 1, pos, pos + 1, []);
    } else {
      AltRefuses(buffer, es, pos);
    }
  }

  /** A run of blanks and line breaks, as long as there are any. */
  lemma {:induction false} BlankRun(buffer: seq<nat>, pos: nat) returns (end: nat)
    requires Source(buffer) && pos < |buffer|
    ensures pos <= end < |buffer| && !White(buffer[end]) && Gives(buffer, Star(Blank()), pos, end, [])
    ensures Skipped(buffer, end) == Skipped(buffer, pos)
    decreases |buffer| - pos
  {
    hide Gives, Refuses, Blank;
    OneBlank(buffer, pos);
    if White(buffer[pos]) {
      end := BlankRun(buffer, pos + 1);
      StarGives(buffer, Blank(), pos, pos + 1, end, [], []);
      NoShapes();
    } else {
      end := pos;
      StarStops(buffer, Blank(), pos);
    }
  }

  lemma SpaceGives(buffer: seq<nat>, pos: nat) returns (end: nat)
    requires Source(buffer) && pos < |buffer| && White(buffer[pos])
    ensures pos < end < |buffer| && Gives(buffer, Call(SPACE), pos, end, []) && Skipped(buffer, end) == Skipped(buffer, pos)
    ensures !White(buffer[end])
  {
    hide Gives, Refuses, Blank;
    OneBlank(buffer, pos);
    end := BlankRun(buffer, pos + 1);
    CatGives(buffer, Blank(), Star(Blank()), pos, pos + 1, end, [], []);
    NoShapes();
    SpaceRule();
    RuleGives(buffer, SPACE, pos, end, []);
  }

  lemma SpaceRule()
    ensures Thrift(SPACE) == Cat(Blank(), Star(Blank()))
  {
  }

  lemma NoSpace(buffer: seq<nat>, pos: nat)
    requires pos < |buffer| && !White(buffer[pos])
    ensures Refuses(buffer, Call(SPACE), pos)
  {
    hide Gives, Refuses, Blank;
    OneBlank(buffer, pos);
    CatRefuses(buffer, Blank(), Star(Blank()), pos);
    SpaceRule();
    RuleRefuses(buffer, SPACE, pos);
  }

  /** The blanks behind a word are taken with it, up to the end of the line. */
  lemma {:induction false} IndentRun(buffer: seq<nat>, pos: nat) returns (end: nat)
    requires Source(buffer) && pos < |buffer|
    ensures pos <= end < |buffer| && Gives(buffer, Star(Call(INDENT)), pos, end, []) && Skipped(buffer, end) == Skipped(buffer, pos)
    decreases |buffer| - pos
  {
    hide Gives, Refuses;
    OneIndent(buffer, pos);
    if Indent(buffer[pos]) {
      end := IndentRun(buffer, pos + 1);
      StarGives(buffer, Call(INDENT), pos, pos + 1, end, [], []);
      NoShapes();
    } else {
      end := pos;
      StarStops(buffer, Call(INDENT), pos);
    }
  }

  // ----- comments -----

  /** Any character at which the expression does not match. */
  lemma AnyBut(buffer: seq<nat>, e: Expr, pos: nat)
    requires pos < |buffer| && Refuses(buffer, e, pos)
    ensures buffer[pos] != EndSymbol ==> Gives(buffer, Cat(Not(e), Dot), pos, pos + 1, [])
    ensures buffer[pos] == EndSymbol ==> Refuses(buffer, Cat(Not(e), Dot), pos)
  {
    hide Gives, Refuses;
    NotGives(buffer, e, pos);
    AnyChar(buffer, pos);
    if buffer[pos] != EndSymbol {
      CatGives(buffer, Not(e), Dot, pos, pos, pos + 1, [], []);
      NoShapes();
    } else {
      CatStops(buffer, Not(e), Dot, pos, pos, []);
    }
  }

  /** The end of the run, at which the expression matches or the text ends. */
  lemma ButStops(buffer: seq<nat>, e: Expr, pos: nat, end: nat)
    requires pos < |buffer| && Gives(buffer, e, pos, end, [])
    ensures Gives(buffer, Star(Cat(Not(e), Dot)), pos, pos, [])
  {
    hide Gives, Refuses;
    NotRefuses(buffer, e, pos, end, []);
    CatRefuses(buffer, Not(e), Dot, pos);
    StarStops(buffer, Cat(Not(e), Dot), pos);
  }

  lemma {:induction false} LineRun(buffer: seq<nat>, pos: nat)
    requires Source(buffer) && pos < |buffer|
    ensures Gives(buffer, ToLineEnd(), pos, LineEnd(buffer, pos), [])
    decreases |buffer| - pos
  {
    hide Gives, Refuses, LineBreak;
    OneBreak(buffer, pos);
    ToLineEndIsBut();
    var other := Cat(Not(LineBreak()), Dot);
    if Break(buffer[pos]) {
      ButStops(buffer, LineBreak(), pos, pos + 1);
    } else {
      AnyBut(buffer, LineBreak(), pos);
      if pos == |buffer| - 1 {
        StarStops(buffer, other, pos);
      } else {
        LineRun(buffer, pos + 1);
        StarGives(buffer, other, pos, pos + 1, LineEnd(buffer, pos), [], []);
        NoShapes();
      }
    }
  }

  lemma ToLineEndIsBut()
    ensures ToLineEnd() == Star(Cat(Not(LineBreak()), Dot))
  {
  }

  lemma {:induction false} CloseRun(buffer: seq<nat>, pos: nat)
    requires Source(buffer) && pos < |buffer|
    ensures Gives(buffer, Star(Cat(Not(Text("*/")), Dot)), pos, Close(buffer, pos), [])
    decreases |buffer| - pos
  {
    hide Gives, Refuses, Text;
    TextMatches(buffer, "*/", pos);
    var other := Cat(Not(Text("*/")), Dot);
    if Has(buffer, pos, "*/") {
      ButStops(buffer, Text("*/"), pos, pos + 2);
    } else {
      AnyBut(buffer, Text("*/"), pos);
      if pos == |buffer| - 1 {
        StarStops(buffer, other, pos);
      } else {
        CloseRun(buffer, pos + 1);
        StarGives(buffer, other, pos, pos + 1, Close(buffer, pos), [], []);
        NoShapes();
      }
    }
  }

  function LongParts(): seq<Expr> {
    [Text("/*"), Star(Cat(Not(Text("*/")), Dot)), Text("*/")]
  }

  function Comments(): seq<Expr> {
    [Call(LONG_COMMENT), Call(LINE_COMMENT), Call(UNIX_COMMENT)]
  }

  lemma CommentRules()
    ensures Thrift(LONG_COMMENT) == Seq(LongParts()) && Thrift(LINE_COMMENT) == Cat(Text("//"), ToLineEnd())
    ensures Thrift(UNIX_COMMENT) == Cat(Char('#'), ToLineEnd()) && Thrift(COMMENT) == Alt(Comments())
    ensures Text("#") == Char('#')
  {
    hide Seq, Alt, Char, ToLineEnd;
  }

  lemma LongComment(buffer: seq<nat>, pos: nat)
    requires Source(buffer) && pos < |buffer|
    ensures Has(buffer, pos, "/*") && CommentEnd(buffer, pos) > pos ==> Gives(buffer, Call(LONG_COMMENT), pos, CommentEnd(buffer, pos), [])
    ensures !(Has(buffer, pos, "/*") && CommentEnd(buffer, pos) > pos) ==> Refuses(buffer, Call(LONG_COMMENT), pos)
  {
    hide Gives, Refuses, Text, Seq, Has;
    TextMatches(buffer, "/*", pos);
    CommentRules();
    if Has(buffer, pos, "/*") {
      var close := Close(buffer, pos + 2);
      CloseRun(buffer, pos + 2);
      TextMatches(buffer, "*/", close);
      if Has(buffer, close, "*/") {
        var none: seq<seq<Shape>> := [[], [], []];
        SeqGives(buffer, LongParts(), [pos, pos + 2, close, close + 2], none);
        FlatNothing(none);
        RuleGives(buffer, LONG_COMMENT, pos, close + 2, []);
      } else {
        SeqRefuses(buffer, LongParts(), [pos, pos + 2, close], [[], []]);
        RuleRefuses(buffer, LONG_COMMENT, pos);
      }
    } else {
      SeqRefuses(buffer, LongParts(), [pos], []);
      RuleRefuses(buffer, LONG_COMMENT, pos);
    }
  }

  lemma LineComments(buffer: seq<nat>, pos: nat)
    requires Source(buffer) && pos < |buffer|
    ensures Has(buffer, pos, "//") ==> Gives(buffer, Call(LINE_COMMENT), pos, LineEnd(buffer, pos), []) && pos < LineEnd(buffer, pos)
    ensures !Has(buffer, pos, "//") ==> Refuses(buffer, Call(LINE_COMMENT), pos)
    ensures Has(buffer, pos, "#") ==> Gives(buffer, Call(UNIX_COMMENT), pos, LineEnd(buffer, pos), []) && pos < LineEnd(buffer, pos)
    ensures !Has(buffer, pos, "#") ==> Refuses(buffer, Call(UNIX_COMMENT), pos)
  {
    hide Gives, Refuses, Text, ToLineEnd;
    TextMatches(buffer, "//", pos);
    TextMatches(buffer, "#", pos);
    CommentRules();
    NoShapes();
    if Has(buffer, pos, "//") {
      assert buffer[pos] == "//"[0] as nat && buffer[pos + 1] == "//"[1] as nat;
      assert LineEnd(buffer, pos) == LineEnd(buffer, pos + 1) == LineEnd(buffer, pos + 2);
      LineRun(buffer, pos + 2);
      CatGives(buffer, Text("//"), ToLineEnd(), pos, pos + 2, LineEnd(buffer, pos), [], []);
      RuleGives(buffer, LINE_COMMENT, pos, LineEnd(buffer, pos), []);
    } else {
      CatRefuses(buffer, Text("//"), ToLineEnd(), pos);
      RuleRefuses(buffer, LINE_COMMENT, pos);
    }
    if Has(buffer, pos, "#") {
      assert buffer[pos] == "#"[0] as nat;
      assert LineEnd(buffer, pos) == LineEnd(buffer, pos + 1);
      LineRun(buffer, pos + 1);
      CatGives(buffer, Text("#"), ToLineEnd(), pos, pos + 1, LineEnd(buffer, pos), [], []);
      RuleGives(buffer, UNIX_COMMENT, pos, LineEnd(buffer, pos), []);
    } else {
      CatRefuses(buffer, Text("#"), ToLineEnd(), pos);
      RuleRefuses(buffer, UNIX_COMMENT, pos);
    }
  }

  lemma CommentStarts(buffer: seq<nat>, pos: nat)
    requires pos < |buffer|
    ensures Has(buffer, pos, "/*") ==> !Has(buffer, pos, "//") && !Has(buffer, pos, "#")
    ensures Has(buffer, pos, "//") ==> !Has(buffer, pos, "#")
  {
    var long, line, sharp := "/*"[0], "//"[0], "#"[0];
    var star, slash := "/*"[1], "//"[1];
  }

  /** A comment is matched to its end, and nothing else is a comment. */
  lemma CommentMatches(buffer: seq<nat>, pos: nat)
    requires Source(buffer) && pos < |buffer|
    ensures CommentEnd(buffer, pos) > pos ==> Gives(buffer, Call(COMMENT), pos, CommentEnd(buffer, pos), [])
    ensures CommentEnd(buffer, pos) == pos ==> Refuses(buffer, Call(COMMENT), pos)
  {
    hide Gives, Refuses, Alt, Has, Close;
    LongComment(buffer, pos);
    LineComments(buffer, pos);
    CommentStarts(buffer, pos);
    CommentRules();
    var end := CommentEnd(buffer, pos);
    if end > pos {
      AltGives(buffer, Comments(), if Has(buffer, pos, "/*") then 0 else if Has(buffer, pos, "//") then 1 else 2, pos, end, []);
      RuleGives(buffer, COMMENT, pos, end, []);
    } else {
      AltRefuses(buffer, Comments(), pos);
      RuleRefuses(buffer, COMMENT, pos);
    }
  }

  lemma {:induction false} FlatNothing(ss: seq<seq<Shape>>)
    requires forall i :: 0 <= i < |ss| ==> ss[i] == []
    ensures Flat(ss) == []
    decreases |ss|
  {
    if ss != [] {
      FlatNothing(ss[1..]);
    }
  }

  // ----- skipping -----

  function Skips(): seq<Expr> {
    [Call(SPACE), Call(COMMENT)]
  }

  function LineSkips(): seq<Expr> {
    [Call(INDENT), Call(COMMENT)]
  }

  lemma SkipRules()
    ensures Thrift(SKIP) == Star(Alt(Skips())) && Thrift(SKIP_LINE) == Star(Alt(LineSkips()))
    ensures Thrift(RESERVED_COMMENTS) == Call(SKIP) && Thrift(RESERVED_END_LINE_COMMENTS) == Call(SKIP_LINE)
  {
    hide Alt;
  }

  lemma {:induction false} SkipRun(buffer: seq<nat>, pos: nat)
    requires Source(buffer) && pos < |buffer|
    ensures Gives(buffer, Star(Alt(Skips())), pos, Skipped(buffer, pos), [])
    decreases |buffer| - pos
  {
    hide Gives, Refuses, Alt, CommentEnd;
    NoShapes();
    CommentMatches(buffer, pos);
    if White(buffer[pos]) {
      var end := SpaceGives(buffer, pos);
      AltGives(buffer, Skips(), 0, pos, end, []);
      SkipRun(buffer, end);
      StarGives(buffer, Alt(Skips()), pos, end, Skipped(buffer, pos), [], []);
    } else {
      NoSpace(buffer, pos);
      var end := CommentEnd(buffer, pos);
      if end > pos {
        AltGives(buffer, Skips(), 1, pos, end, []);
        SkipRun(buffer, end);
        StarGives(buffer, Alt(Skips()), pos, end, Skipped(buffer, pos), [], []);
      } else {
        AltRefuses(buffer, Skips(), pos);
        StarStops(buffer, Alt(Skips()), pos);
      }
    }
  }

  /** `Skip` takes blanks, line breaks and comments, all that there are. */
  lemma SkipGives(buffer: seq<nat>, pos: nat)
    requires Source(buffer) && pos < |buffer|
    ensures Gives(buffer, Call(SKIP), pos, Skipped(buffer, pos), [])
    ensures Gives(buffer, Call(RESERVED_COMMENTS), pos, Skipped(buffer, pos), [])
  {
    hide Gives, Alt, Skipped;
    SkipRun(buffer, pos);
    SkipRules();
    RuleGives(buffer, SKIP, pos, Skipped(buffer, pos), []);
    RuleGives(buffer, RESERVED_COMMENTS, pos, Skipped(buffer, pos), []);
  }

  lemma {:induction false} LineSkipRun(buffer: seq<nat>, pos: nat) returns (end: nat)
    requires Source(buffer) && pos < |buffer|
    ensures pos <= end < |buffer| && Gives(buffer, Star(Alt(LineSkips())), pos, end, []) && Skipped(buffer, end) == Skipped(buffer, pos)
    decreases |buffer| - pos
  {
    hide Gives, Refuses, Alt, CommentEnd;
    NoShapes();
    OneIndent(buffer, pos);
    CommentMatches(buffer, pos);
    if Indent(buffer[pos]) {
      AltGives(buffer, LineSkips(), 0, pos, pos + 1, []);
      end := LineSkipRun(buffer, pos + 1);
      StarGives(buffer, Alt(LineSkips()), pos, pos + 1, end, [], []);
    } else if CommentEnd(buffer, pos) > pos {
      var mid := CommentEnd(buffer, pos);
      assert !White(buffer[pos]) by { NoCommentIsWhite(buffer, pos); }
      AltGives(buffer, LineSkips(), 1, pos, mid, []);
      end := LineSkipRun(buffer, mid);
      StarGives(buffer, Alt(LineSkips()), pos, mid, end, [], []);
    } else {
      end := pos;
      AltRefuses(buffer, LineSkips(), pos);
      StarStops(buffer, Alt(LineSkips()), pos);
    }
  }

  lemma NoCommentIsWhite(buffer: seq<nat>, pos: nat)
    requires Source(buffer) && pos < |buffer| && CommentEnd(buffer, pos) > pos
    ensures !White(buffer[pos])
  {
    assert Has(buffer, pos, "/*") ==> buffer[pos] == "/*"[0] as nat;
    assert Has(buffer, pos, "//") ==> buffer[pos] == "//"[0] as nat;
    assert Has(buffer, pos, "#") ==> buffer[pos] == "#"[0] as nat;
  }

  /** `SkipLine` takes some of it. */
  lemma LineSkipGives(buffer: seq<nat>, pos: nat, on: nat)
    requires Ready(buffer, pos, on)
    ensures Lands(buffer, Call(SKIP_LINE), pos, on, []) && Lands(buffer, Call(RESERVED_END_LINE_COMMENTS), pos, on, [])
  {
    hide Gives, Alt, Skipped;
    var end := LineSkipRun(buffer, pos);
    SkipRules();
    RuleGives(buffer, SKIP_LINE, pos, end, []);
    RuleGives(buffer, RESERVED_END_LINE_COMMENTS, pos, end, []);
  }

  // ----- between blanks -----

  lemma SpacedGives(buffer: seq<nat>, e: Expr, pos: nat, on: nat, mid: nat, next: nat, s: seq<Shape>) returns (end: nat)
    requires Ready(buffer, pos, on) && Gives(buffer, e, on, mid, s) && Ready(buffer, mid, next)
    ensures Ready(buffer, end, next) && Gives(buffer, Spaced(e), pos, end, s)
  {
    hide Gives, Skipped;
    SkipGives(buffer, pos);
    end := IndentRun(buffer, mid);
    CatGives(buffer, e, Star(Call(INDENT)), on, mid, end, s, []);
    CatGives(buffer, Call(SKIP), Cat(e, Star(Call(INDENT))), pos, on, end, [], s + []);
    assert [] + (s + []) == s;
  }

  lemma SpacedRefuses(buffer: seq<nat>, e: Expr, pos: nat, on: nat)
    requires Ready(buffer, pos, on) && Refuses(buffer, e, on)
    ensures Refuses(buffer, Spaced(e), pos)
  {
    hide Gives, Refuses, Skipped;
    SkipGives(buffer, pos);
    CatRefuses(buffer, e, Star(Call(INDENT)), on);
    CatStops(buffer, Call(SKIP), Cat(e, Star(Call(INDENT))), pos, on, []);
  }
}
