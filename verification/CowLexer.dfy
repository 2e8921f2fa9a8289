/** The two scanners as they run: a lexer object that advances position, line and column
    together, and the highlighter's loop over a local index. */
module CowLexer {
  import opened Wrappers
  import opened CowAst
  import opened CowLexis
  import G = CowGrammar
  import P = CowParser
  import T = CowSourceText

  datatype LexToken = LexToken(tok: G.Token, line: nat, col: nat)

  class Lexer {
    const src: string
    const stod: Stod
    var pos: nat
    var line: nat
    var col: nat

    /** Line and column always describe the position. */
    ghost predicate Valid()
      reads this
    {
      pos <= |src| && line == LineAt(src, pos) && col == ColAt(src, pos)
    }

    constructor (src: string, stod: Stod)
      ensures Valid() && pos == 0 && this.src == src && this.stod == stod
    {
      this.src, this.stod := src, stod;
      pos, line, col := 0, 1, 1;
    }

    method Advance() returns (c: char)
      requires Valid() && pos < |src|
      modifies this
      ensures Valid() && pos == old(pos) + 1 && c == src[old(pos)]
    {
      c := src[pos];
      pos := pos + 1;
      if c == '\n' {
        line := line + 1;
        col := 1;
      } else {
        col := col + 1;
      }
    }

    method SkipWhitespace()
      requires Valid()
      modifies this
      ensures Valid() && pos == SkipBlank(src, old(pos))
    {
      while pos < |src|
        invariant Valid()
        invariant SkipBlank(src, old(pos)) == SkipBlank(src, pos)
        decreases |src| - pos
      {
        if IsBlank(src[pos]) {
          var _ := Advance();
        } else if src[pos] == '/' && Peek(src, pos + 1) == '/' {
          var _ := TakeRun(LineChar);
        } else {
          break;
        }
      }
    }

    /** Consumes the longest run of a class. */
    method TakeRun(cls: Class) returns (s: string)
      requires Valid()
      modifies this
      ensures Valid() && pos == RunEnd(src, old(pos), cls) && s == src[old(pos)..pos]
    {
      s := "";
      while pos < |src| && cls.Has(src[pos])
        invariant Valid() && old(pos) <= pos
        invariant RunEnd(src, old(pos), cls) == RunEnd(src, pos, cls)
        invariant s == src[old(pos)..pos]
        decreases |src| - pos
      {
        var c := Advance();
        s := s + [c];
      }
    }

    /** The rest of a string literal whose opening quote is consumed. */
    method TakeString() returns (s: string)
      requires Valid()
      modifies this
      ensures Valid() && StringFrom(src, old(pos)) == Text(s, pos)
    {
      s := "";
      while pos < |src| && src[pos] != '"'
        invariant Valid()
        invariant var t := StringFrom(src, pos); StringFrom(src, old(pos)) == Text(s + t.text, t.end)
        decreases |src| - pos
      {
        ghost var sofar, t := s, StringFrom(src, pos);
        var ch := Advance();
        if ch == '\\' && pos < |src| {
          var esc := Advance();
          ch := Unescape(esc);
        }
        s := s + [ch];
        assert s + StringFrom(src, pos).text == sofar + t.text;
      }
      if pos < |src| { var _ := Advance(); }
    }

    /** The next token with its line and column; None is the thrown error. */
    method Next() returns (r: Option<LexToken>)
      requires Valid()
      modifies this
      ensures Valid() && pos >= old(pos)
      ensures var j := SkipBlank(src, old(pos));
              if j == |src| then pos == j && r == Some(LexToken(G.TEnd, LineAt(src, j), ColAt(src, j)))
              else match LexOne(stod, src, j)
                   case None => r == None
                   case Some(l) => pos == l.end && r == Some(LexToken(l.tok, LineAt(src, j), ColAt(src, j)))
    {
      hide LexPunct, Keyword;
      SkipWhitespace();
      var ln, cl := line, col;
      if pos >= |src| { return Some(LexToken(G.TEnd, ln, cl)); }
      if StartsNumber(src, pos) {
        var num := TakeRun(NumberChar);
        var n := stod(num);
        if n.None? { return None; }
        r := Some(LexToken(G.TNumber(n.value), ln, cl));
      } else if StartsWord(src[pos]) {
        var id := TakeRun(WordChar);
        var k := Keyword(id);
        r := Some(LexToken(if k.Some? then k.value else G.TIdent(id), ln, cl));
      } else if src[pos] == '"' {
        var _ := Advance();
        var s := TakeString();
        r := Some(LexToken(G.TString(s), ln, cl));
      } else {
        var t := NextPunct();
        if t.None? { return None; }
        r := Some(LexToken(t.value, ln, cl));
      }
    }

    method NextPunct() returns (r: Option<G.Token>)
      requires Valid() && pos < |src|
      modifies this
      ensures Valid() && pos >= old(pos)
      ensures match LexPunct(src, old(pos))
              case None => r == None
              case Some(l) => r == Some(l.tok) && pos == l.end
    {
      var ch := Advance();
      r := None;
      if ch == '+' { r := Some(G.TPlus); }
      else if ch == '-' { r := Some(G.TMinus); }
      else if ch == '*' { r := Some(G.TStar); }
      else if ch == '/' { r := Some(G.TSlash); }
      else if ch == '%' { r := Some(G.TPercent); }
      else if ch == '(' { r := Some(G.TLParen); }
      else if ch == ')' { r := Some(G.TRParen); }
      else if ch == '{' { r := Some(G.TLBrace); }
      else if ch == '}' { r := Some(G.TRBrace); }
      else if ch == ',' { r := Some(G.TComma); }
      else if ch == ';' { r := Some(G.TSemi); }
      else if ch == '.' { r := Some(G.TDot); }
      else if ch == '=' || ch == '!' || ch == '<' || ch == '>' {
        var two := Peek(src, pos) == '=';
        if two { var _ := Advance(); }
        if ch == '=' { r := Some(if two then G.TEqEq else G.TEq); }
        else if ch == '!' { r := if two then Some(G.TBangEq) else None; }
        else if ch == '<' { r := Some(if two then G.TLe else G.TLt); }
        else { r := Some(if two then G.TGe else G.TGt); }
      }
    }

    /** The tokens up to the end of the source, as the parser pulls them. */
    method Tokens() returns (r: Option<seq<G.Token>>)
      requires Valid()
      modifies this
      ensures var ls := LexFrom(stod, src, old(pos));
              r == if ls.Some? then Some(T.TokensOf(ls.value)) else None
    {
      hide LexOne, SkipBlank, LexFrom, T.TokensOf;
      var toks := [];
      ghost var start := pos;
      while true
        invariant Valid()
        invariant var ls, rest := LexFrom(stod, src, start), LexFrom(stod, src, pos);
                  ls.Some? == rest.Some? && (ls.Some? ==> T.TokensOf(ls.value) == toks + T.TokensOf(rest.value))
        decreases |src| - pos
      {
        LexStep(stod, src, pos);
        ghost var sofar := toks;
        var t := Next();
        if t.None? { return None; }
        if t.value.tok == G.TEnd {
          assert toks + [] == toks;
          break;
        }
        toks := toks + [t.value.tok];
        assert forall ts :: sofar + ([t.value.tok] + ts) == toks + ts;
      }
      r := Some(toks);
    }
  }

  /** One token and the rest; no lexeme is an end token. */
  lemma LexStep(stod: Stod, src: string, i: nat)
    requires i <= |src|
    ensures var j := SkipBlank(src, i);
            var ls := LexFrom(stod, src, i);
            if j == |src| then ls.Some? && T.TokensOf(ls.value) == []
            else match LexOne(stod, src, j)
                 case None => ls.None?
                 case Some(l) =>
                   var rest := LexFrom(stod, src, l.end);
                   && l.tok != G.TEnd && ls.Some? == rest.Some?
                   && (ls.Some? ==> T.TokensOf(ls.value) == [l.tok] + T.TokensOf(rest.value))
  {
    var j := SkipBlank(src, i);
    if j < |src| && LexOne(stod, src, j).Some? {
      NoEndLexeme(stod, src, j);
      hide LexOne, SkipBlank;
      var l := LexOne(stod, src, j).value;
      var rest := LexFrom(stod, src, l.end);
      if rest.Some? { assert ([l] + rest.value)[1..] == rest.value; }
    }
  }

  lemma NoEndLexeme(stod: Stod, src: string, i: nat)
    requires i < |src| && LexOne(stod, src, i).Some?
    ensures LexOne(stod, src, i).value.tok != G.TEnd
  {
  }

  /** Lexing and parsing a source text. */
  method CompileSource(src: string, stod: Stod) returns (r: Option<Program>)
    ensures r == T.Compile(stod, src)
  {
    var lexer := new Lexer(src, stod);
    var toks := lexer.Tokens();
    if toks.None? { return None; }
    var parser := new P.Parser(toks.value);
    assert parser.Rest() == toks.value;
    r := parser.ParseProgram();
  }

  /** The highlight spans of a source text. */
  method Highlight(src: string) returns (out: seq<Span>)
    ensures out == Spans(src, 0)
  {
    hide SpanAt;
    out := [];
    var i := 0;
    while i < |src|
      invariant 0 <= i <= |src|
      invariant Spans(src, 0) == out + Spans(src, i)
      decreases |src| - i
    {
      ghost var sofar, s := out, SpanAt(src, i);
      var span := HighlightOne(src, i);
      out := out + [span];
      i := i + span.length;
      assert sofar + ([s] + Spans(src, i)) == out + Spans(src, i);
    }
  }

  method HighlightOne(src: string, start: nat) returns (s: Span)
    requires start < |src|
    ensures s == SpanAt(src, start)
  {
    hide WordKind, CharKind;
    var i := start;
    var c := src[i];
    if c == '/' && i + 1 < |src| && src[i + 1] == '/' {
      i := ScanRun(src, i, LineChar);
      return Span(Comment, start, i - start);
    }
    if c == '"' {
      i := i + 1;
      while i < |src| && src[i] != '"'
        invariant start < i <= |src|
        invariant QuoteEnd(src, start + 1) == QuoteEnd(src, i)
        decreases |src| - i
      {
        if src[i] == '\\' && i + 1 < |src| { i := i + 2; } else { i := i + 1; }
      }
      if i < |src| { i := i + 1; }
      return Span(StringKind, start, i - start);
    }
    if StartsNumber(src, i) {
      i := ScanRun(src, i, NumberChar);
      return Span(NumberKind, start, i - start);
    }
    if StartsWord(c) {
      i := ScanRun(src, i, WordChar);
      return Span(WordKind(src[start..i]), start, i - start);
    }
    if IsBlank(c) {
      i := ScanRun(src, i, BlankChar);
      return Span(Whitespace, start, i - start);
    }
    if IsPair(src, i) { return Span(Operator, start, 2); }
    s := Span(CharKind(c), start, 1);
  }

  method ScanRun(src: string, start: nat, cls: Class) returns (i: nat)
    requires start <= |src|
    ensures i == RunEnd(src, start, cls)
  {
    i := start;
    while i < |src| && cls.Has(src[i])
      invariant start <= i <= |src|
      invariant RunEnd(src, start, cls) == RunEnd(src, i, cls)
      decreases |src| - i
    {
      i := i + 1;
    }
  }
}
