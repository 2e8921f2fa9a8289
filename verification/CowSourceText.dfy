/** From program text and back: the lexer undoes the spelling of tokens, so the text of a
    program compiles to that program. */
module CowSourceText {
  import opened Wrappers
  import opened CowAst
  import opened CowGrammar
  import opened CowLexis
  import opened CowStmtRoundTrip

  /** How a number is written, chosen by whoever prints it. */
  type SpellNumber = Double -> string

  function Escape(s: string): string {
    if s == "" then ""
    else (if s[0] == '"' || s[0] == '\\' then ['\\', s[0]] else [s[0]]) + Escape(s[1..])
  }

  function Spell(num: SpellNumber, t: Token): string {
    match t
    case TNumber(n) => num(n)
    case TString(s) => "\"" + (Escape(s) + "\"")
    case TIdent(w) => w
    case TLet => "let"
    case TIf => "if"
    case TElse => "else"
    case TWhile => "while"
    case TFn => "fn"
    case TReturn => "return"
    case TOn => "on"
    case TTrue => "true"
    case TFalse => "false"
    case TNull => "null"
    case TAnd => "and"
    case TOr => "or"
    case TNot => "not"
    case TPlus => "+"
    case TMinus => "-"
    case TStar => "*"
    case TSlash => "/"
    case TPercent => "%"
    case TEq => "="
    case TEqEq => "=="
    case TBangEq => "!="
    case TLt => "<"
    case TLe => "<="
    case TGt => ">"
    case TGe => ">="
    case TLParen => "("
    case TRParen => ")"
    case TLBrace => "{"
    case TRBrace => "}"
    case TComma => ","
    case TSemi => ";"
    case TDot => "."
    case TEnd => ""
  }

  function SpellAll(num: SpellNumber, toks: seq<Token>): string {
    if toks == [] then "" else Spell(num, toks[0]) + (" " + SpellAll(num, toks[1..]))
  }

  predicate AllIn(s: string, cls: Class) {
    forall k :: 0 <= k < |s| ==> cls.Has(s[k])
  }

  predicate IsWord(w: string) {
    w != "" && StartsWord(w[0]) && AllIn(w, WordChar)
  }

  /** Tokens that have a spelling: names that are no keyword, and numbers whose digits read back. */
  predicate Spellable(stod: Stod, num: SpellNumber, t: Token) {
    match t
    case TNumber(n) => num(n) != "" && IsDigit(num(n)[0]) && AllIn(num(n), NumberChar) && stod(num(n)) == Some(n)
    case TIdent(w) => IsWord(w) && Keyword(w).None?
    case TEnd => false
    case _ => true
  }

  predicate AllSpellable(stod: Stod, num: SpellNumber, toks: seq<Token>) {
    forall k :: 0 <= k < |toks| ==> Spellable(stod, num, toks[k])
  }

  function TokensOf(ls: seq<Lexeme>): seq<Token> {
    if ls == [] then [] else [ls[0].tok] + TokensOf(ls[1..])
  }

  /** `pre + (word + (" " + rest))`, the shape the source has wherever the lexer stands. */
  function At(pre: string, word: string, rest: string): string {
    pre + (word + (" " + rest))
  }

  lemma AtChars(pre: string, word: string, rest: string)
    ensures var src := At(pre, word, rest);
            && |src| >= |pre| + |word| + 1
            && (forall k :: 0 <= k < |word| ==> src[|pre| + k] == word[k])
            && src[|pre| + |word|] == ' '
            && src[|pre|..|pre| + |word|] == word
            && src == (pre + word + " ") + rest
  {
  }

  lemma {:induction false} RunOf(src: string, i: nat, e: nat, cls: Class)
    requires i <= e < |src| && !cls.Has(src[e])
    requires forall k :: i <= k < e ==> cls.Has(src[k])
    ensures RunEnd(src, i, cls) == e
    decreases e - i
  {
    if i < e { RunOf(src, i + 1, e, cls); }
  }

  lemma {:induction false} StringOf(pre: string, s: string, rest: string)
    ensures var src := pre + (Escape(s) + ("\"" + rest));
            StringFrom(src, |pre|) == Text(s, |pre| + |Escape(s)| + 1)
    decreases s
  {
    var src := pre + (Escape(s) + ("\"" + rest));
    if s == "" {
      assert src[|pre|] == '"';
    } else {
      var unit := if s[0] == '"' || s[0] == '\\' then ['\\', s[0]] else [s[0]];
      StringOf(pre + unit, s[1..], rest);
      assert (pre + unit) + (Escape(s[1..]) + ("\"" + rest)) == src;
      assert forall k :: 0 <= k < |unit| ==> src[|pre| + k] == unit[k];
      assert [s[0]] + s[1..] == s;
    }
  }

  lemma WordLexes(stod: Stod, pre: string, w: string, rest: string)
    requires IsWord(w)
    ensures LexOne(stod, At(pre, w, rest), |pre|) ==
            Some(Lexeme(if Keyword(w).Some? then Keyword(w).value else TIdent(w), |pre|, |pre| + |w|))
  {
    hide Keyword;
    AtChars(pre, w, rest);
    var src := At(pre, w, rest);
    RunOf(src, |pre|, |pre| + |w|, WordChar);
    assert src[|pre|] == w[0];
  }

  lemma NumberLexes(stod: Stod, num: SpellNumber, pre: string, n: Double, rest: string)
    requires Spellable(stod, num, TNumber(n))
    ensures LexOne(stod, At(pre, num(n), rest), |pre|) == Some(Lexeme(TNumber(n), |pre|, |pre| + |num(n)|))
  {
    AtChars(pre, num(n), rest);
    var src := At(pre, num(n), rest);
    RunOf(src, |pre|, |pre| + |num(n)|, NumberChar);
    assert src[|pre|] == num(n)[0];
  }

  lemma StringLexes(stod: Stod, num: SpellNumber, pre: string, s: string, rest: string)
    ensures var w := Spell(num, TString(s));
            LexOne(stod, At(pre, w, rest), |pre|) == Some(Lexeme(TString(s), |pre|, |pre| + |w|))
  {
    var w := "\"" + (Escape(s) + "\"");
    var src := At(pre, w, rest);
    assert src == (pre + "\"") + (Escape(s) + ("\"" + (" " + rest)));
    StringOf(pre + "\"", s, " " + rest);
    assert src[|pre|] == '"';
  }

  lemma KeywordLexes(stod: Stod, num: SpellNumber, pre: string, t: Token, rest: string)
    requires IsWord(Spell(num, t)) && Keyword(Spell(num, t)) == Some(t)
    ensures var w := Spell(num, t); LexOne(stod, At(pre, w, rest), |pre|) == Some(Lexeme(t, |pre|, |pre| + |w|))
  {
    WordLexes(stod, pre, Spell(num, t), rest);
  }

  predicate IsPunct(t: Token) {
    (OpOf(t).Some? && t != TAnd && t != TOr) || t == TEq || t == TLParen || t == TRParen || t == TLBrace || t == TRBrace
    || t == TComma || t == TSemi || t == TDot
  }

  lemma PunctLexes(stod: Stod, num: SpellNumber, pre: string, t: Token, rest: string)
    requires IsPunct(t)
    ensures var w := Spell(num, t); LexOne(stod, At(pre, w, rest), |pre|) == Some(Lexeme(t, |pre|, |pre| + |w|))
  {
    var w := Spell(num, t);
    var src := At(pre, w, rest);
    AtChars(pre, w, rest);
    PunctStarts(num, t);
    assert src[|pre|] == w[0];
    assert Peek(src, |pre| + 1) == (if |w| == 2 then w[1] else ' ');
    hide LexPunct, At, Spell, IsPunct;
    PunctReads(num, src, |pre|, t);
  }

  lemma PunctStarts(num: SpellNumber, t: Token)
    requires IsPunct(t)
    ensures var w := Spell(num, t);
            1 <= |w| <= 2 && !IsDigit(w[0]) && !StartsWord(w[0]) && w[0] != '"' && (|w| == 1 || !IsDigit(w[1]))
  {
  }

  lemma PunctReads(num: SpellNumber, src: string, i: nat, t: Token)
    requires IsPunct(t)
    requires var w := Spell(num, t);
             && |w| > 0 && i + |w| <= |src| && src[i] == w[0]
             && Peek(src, i + 1) == (if |w| == 2 then w[1] else ' ')
    ensures LexPunct(src, i) == Some(Lexeme(t, i, i + |Spell(num, t)|))
  {
  }

  /** Every spellable token reads back as itself. */
  lemma TokenLexes(stod: Stod, num: SpellNumber, pre: string, t: Token, rest: string)
    requires Spellable(stod, num, t)
    ensures var w := Spell(num, t);
            && LexOne(stod, At(pre, w, rest), |pre|) == Some(Lexeme(t, |pre|, |pre| + |w|))
            && w != "" && !IsBlank(w[0]) && (w[0] == '/' ==> w == "/")
  {
    hide LexOne, Keyword;
    if t.TNumber? {
      NumberLexes(stod, num, pre, t.num, rest);
    } else if t.TString? {
      StringLexes(stod, num, pre, t.text, rest);
    } else if t.TIdent? {
      WordLexes(stod, pre, t.name, rest);
    } else if IsPunct(t) {
      PunctLexes(stod, num, pre, t, rest);
    } else {
      KeywordTokenLexes(stod, num, pre, t, rest);
    }
  }

  lemma KeywordTokenLexes(stod: Stod, num: SpellNumber, pre: string, t: Token, rest: string)
    requires Spellable(stod, num, t) && !t.TNumber? && !t.TString? && !t.TIdent? && !IsPunct(t)
    ensures var w := Spell(num, t);
            && LexOne(stod, At(pre, w, rest), |pre|) == Some(Lexeme(t, |pre|, |pre| + |w|))
            && w != "" && !IsBlank(w[0]) && (w[0] == '/' ==> w == "/")
  {
    assert !t.TEnd?;
    hide LexOne, Spell, Keyword;
    KeywordSpelling(num, t);
    KeywordLexes(stod, num, pre, t, rest);
  }

  lemma KeywordSpelling(num: SpellNumber, t: Token)
    requires !t.TNumber? && !t.TString? && !t.TIdent? && !t.TEnd? && !IsPunct(t)
    ensures IsWord(Spell(num, t)) && Keyword(Spell(num, t)) == Some(t)
  {
  }

  lemma SkipHere(pre: string, word: string, rest: string)
    requires word != "" && !IsBlank(word[0]) && (word[0] == '/' ==> word == "/")
    ensures SkipBlank(At(pre, word, rest), |pre|) == |pre|
  {
    AtChars(pre, word, rest);
    var src := At(pre, word, rest);
    assert src[|pre|] == word[0];
    assert word == "/" ==> Peek(src, |pre| + 1) == ' ';
  }

  /** Lexing the spelling of a token sequence gives the tokens back. */
  lemma {:induction false} SpellingLexes(stod: Stod, num: SpellNumber, pre: string, toks: seq<Token>)
    requires AllSpellable(stod, num, toks)
    ensures var r := LexFrom(stod, pre + SpellAll(num, toks), |pre|);
            r.Some? && TokensOf(r.value) == toks
    decreases |toks|
  {
    hide LexOne, Spell, Spellable;
    var src := pre + SpellAll(num, toks);
    if toks == [] {
      assert src == pre;
    } else {
      var w, rest := Spell(num, toks[0]), SpellAll(num, toks[1..]);
      assert src == At(pre, w, rest);
      TokenLexes(stod, num, pre, toks[0], rest);
      SkipHere(pre, w, rest);
      SpellingLexes(stod, num, pre + w + " ", toks[1..]);
      assert src == (pre + w + " ") + rest;
      LexBlank(stod, src, |pre| + |w|);
      assert [toks[0]] + toks[1..] == toks;
    }
  }

  lemma LexBlank(stod: Stod, src: string, i: nat)
    requires i < |src| && src[i] == ' '
    ensures LexFrom(stod, src, i) == LexFrom(stod, src, i + 1)
  {
    hide LexOne;
  }

  /** What `compile` makes of a source text before running it: None is a parse error. */
  function Compile(stod: Stod, src: string): Option<Program> {
    match LexFrom(stod, src, 0)
    case None => None
    case Some(ls) => ParseProgram(TokensOf(ls), EMPTY)
  }

  /** The text of a program compiles to that program. */
  lemma TextRoundTrip(stod: Stod, num: SpellNumber, p: Program)
    requires ProgramShaped(p) && AllSpellable(stod, num, RenderProgram(p))
    ensures Compile(stod, SpellAll(num, RenderProgram(p))) == Some(p)
  {
    hide ParseProgram, RenderProgram, LexFrom, Spellable;
    SpellingLexes(stod, num, "", RenderProgram(p));
    assert "" + SpellAll(num, RenderProgram(p)) == SpellAll(num, RenderProgram(p));
    ProgramRoundTrip(p);
  }
}
