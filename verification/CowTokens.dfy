/** What the lexer reads, said without a scanner: which stretches of a source are gaps and which are
    tokens. Each token is the longest of its kind, and there is one way to read a source or none. */
module CowTokens {
  import opened Wrappers
  import opened CowAst
  import opened CowGrammar
  import opened CowLexis

  // ----- characters -----

  ghost predicate Digit(c: char) { '0' <= c <= '9' }

  ghost predicate InNumber(c: char) { Digit(c) || c == '.' }

  ghost predicate BeginsWord(c: char) { 'a' <= c <= 'z' || 'A' <= c <= 'Z' || c == '_' }

  ghost predicate InWord(c: char) { BeginsWord(c) || Digit(c) }

  ghost predicate Space(c: char) { c == ' ' || c == '\t' || c == '\r' || c == '\n' }

  // ----- tokens -----

  ghost const WORDS: map<string, Token> := map[
    "let" := TLet, "if" := TIf, "else" := TElse, "while" := TWhile, "fn" := TFn, "return" := TReturn, "on" := TOn,
    "true" := TTrue, "false" := TFalse, "null" := TNull, "and" := TAnd, "or" := TOr, "not" := TNot]

  ghost predicate Sign(c: char, t: Token) {
    || (c == '+' && t == TPlus) || (c == '-' && t == TMinus) || (c == '*' && t == TStar) || (c == '/' && t == TSlash)
    || (c == '%' && t == TPercent) || (c == '=' && t == TEq) || (c == '<' && t == TLt) || (c == '>' && t == TGt)
    || (c == '(' && t == TLParen) || (c == ')' && t == TRParen) || (c == '{' && t == TLBrace)
    || (c == '}' && t == TRBrace) || (c == ',' && t == TComma) || (c == ';' && t == TSemi) || (c == '.' && t == TDot)
  }

  /** With an equals sign after it. */
  ghost predicate SignEquals(c: char, t: Token) {
    || (c == '=' && t == TEqEq) || (c == '!' && t == TBangEq) || (c == '<' && t == TLe) || (c == '>' && t == TGe)
  }

  /** A sign takes the equals sign after it with it where the two make a sign together. */
  ghost predicate Signs(src: string, i: nat, j: nat, t: Token)
    requires i < |src|
  {
    if src[i] in {'=', '!', '<', '>'} && i + 1 < |src| && src[i + 1] == '=' then j == i + 2 && SignEquals(src[i], t)
    else j == i + 1 && Sign(src[i], t)
  }

  /** The digits and dots from `i` to `j`, and no more follow. */
  ghost predicate Numeral(src: string, i: nat, j: nat) {
    && i < j <= |src| && (forall k :: i <= k < j ==> InNumber(src[k]))
    && (j < |src| ==> !InNumber(src[j]))
  }

  ghost predicate Word(src: string, i: nat, j: nat) {
    && i < j <= |src| && (forall k :: i <= k < j ==> InWord(src[k]))
    && (j < |src| ==> !InWord(src[j]))
  }

  /** What a character means after a backslash. */
  ghost predicate Escapes(c: char, meaning: char) {
    && (c == 'n' ==> meaning == '\n') && (c == 't' ==> meaning == '\t') && (c == 'r' ==> meaning == '\r')
    && (c != 'n' && c != 't' && c != 'r' ==> meaning == c)
  }

  /** `text` is what a string literal says from `i` on; it ends before `j`, at its quote or with the source. */
  ghost predicate Quoted(src: string, i: nat, j: nat, text: string)
    decreases |src| - i
  {
    if i >= |src| then i == j == |src| && text == ""
    else if src[i] == '"' then j == i + 1 && text == ""
    else if src[i] == '\\' && i + 1 < |src| then
      text != "" && Escapes(src[i + 1], text[0]) && Quoted(src, i + 2, j, text[1..])
    else text != "" && text[0] == src[i] && Quoted(src, i + 1, j, text[1..])
  }

  ghost predicate IsToken(stod: Stod, src: string, i: nat, j: nat, t: Token) {
    && i < |src|
    && if Digit(src[i]) || (src[i] == '.' && i + 1 < |src| && Digit(src[i + 1])) then
         Numeral(src, i, j) && t.TNumber? && stod(src[i..j]) == Some(t.num)
       else if BeginsWord(src[i]) then
         Word(src, i, j) && t == if src[i..j] in WORDS then WORDS[src[i..j]] else TIdent(src[i..j])
       else if src[i] == '"' then
         t.TString? && Quoted(src, i + 1, j, t.text)
       else Signs(src, i, j, t)
  }

  // ----- gaps -----

  /** From `i` to `j` stands a comment, up to the end of its line. */
  ghost predicate LineComment(src: string, i: nat, j: nat) {
    && i + 2 <= j <= |src| && src[i] == '/' && src[i + 1] == '/'
    && (forall k :: i <= k < j ==> src[k] != '\n') && (j < |src| ==> src[j] == '\n')
  }

  /** Nothing but white space and comments. */
  ghost predicate IsGap(src: string, i: nat, j: nat)
    decreases |src| - i
  {
    && i <= j <= |src|
    && (|| i == j
        || (Space(src[i]) && IsGap(src, i + 1, j))
        || exists k: nat :: i < k <= j && LineComment(src, i, k) && IsGap(src, k, j))
  }

  ghost predicate GapEnds(src: string, j: nat) {
    j < |src| ==> !Space(src[j]) && !(src[j] == '/' && j + 1 < |src| && src[j + 1] == '/')
  }

  /** From `i` on the source reads as these tokens, each after a gap, with another gap at the end. */
  ghost predicate Reads(stod: Stod, src: string, i: nat, ls: seq<Lexeme>)
    decreases |ls|
  {
    exists j: nat :: IsGap(src, i, j) && GapEnds(src, j) &&
      if ls == [] then j == |src|
      else ls[0].start == j && IsToken(stod, src, j, ls[0].end, ls[0].tok) && Reads(stod, src, ls[0].end, ls[1..])
  }

  // ----- the lexer reads no other way -----

  lemma {:induction false} NumeralEnds(src: string, i: nat)
    requires i <= |src|
    ensures var e := RunEnd(src, i, NumberChar);
            (forall k :: i <= k < e ==> InNumber(src[k])) && (e < |src| ==> !InNumber(src[e]))
    decreases |src| - i
  {
    if i < |src| && InNumber(src[i]) { NumeralEnds(src, i + 1); }
  }

  lemma {:induction false} WordEnds(src: string, i: nat)
    requires i <= |src|
    ensures var e := RunEnd(src, i, WordChar);
            (forall k :: i <= k < e ==> InWord(src[k])) && (e < |src| ==> !InWord(src[e]))
    decreases |src| - i
  {
    if i < |src| && InWord(src[i]) { WordEnds(src, i + 1); }
  }

  lemma {:induction false} LineEnds(src: string, i: nat)
    requires i <= |src|
    ensures var e := RunEnd(src, i, LineChar);
            (forall k :: i <= k < e ==> src[k] != '\n') && (e < |src| ==> src[e] == '\n')
    decreases |src| - i
  {
    if i < |src| && src[i] != '\n' { LineEnds(src, i + 1); }
  }

  lemma {:induction false} QuotedMeaning(src: string, i: nat, j: nat, text: string)
    requires i <= |src|
    ensures Quoted(src, i, j, text) <==> StringFrom(src, i) == Text(text, j)
    decreases |src| - i
  {
    if i < |src| && src[i] != '"' {
      var next := if src[i] == '\\' && i + 1 < |src| then i + 2 else i + 1;
      if text != "" {
        QuotedMeaning(src, next, j, text[1..]);
        assert text == [text[0]] + text[1..];
      }
      var t := StringFrom(src, next);
      assert forall c: char :: ([c] + t.text)[1..] == t.text;
    }
  }

  lemma WordMeaning(w: string)
    ensures w in WORDS <==> Keyword(w).Some?
    ensures w in WORDS ==> Keyword(w) == Some(WORDS[w])
  {
  }

  lemma EqualsMeaning(src: string, i: nat, j: nat, t: Token)
    requires i < |src| && src[i] in {'=', '!', '<', '>'}
    ensures LexPunct(src, i) == Some(Lexeme(t, i, j)) <==> Signs(src, i, j, t)
  {
  }

  lemma SingleMeaning(src: string, i: nat, t: Token)
    requires i < |src| && src[i] !in {'=', '!', '<', '>'}
    ensures LexPunct(src, i) == Some(Lexeme(t, i, i + 1)) <==> Sign(src[i], t)
    ensures LexPunct(src, i).Some? ==> LexPunct(src, i).value.end == i + 1
  {
  }

  lemma SignMeaning(src: string, i: nat, j: nat, t: Token)
    requires i < |src|
    ensures LexPunct(src, i) == Some(Lexeme(t, i, j)) <==> Signs(src, i, j, t)
  {
    if src[i] in {'=', '!', '<', '>'} {
      EqualsMeaning(src, i, j, t);
    } else {
      hide LexPunct, Sign;
      SingleMeaning(src, i, t);
    }
  }

  lemma NumeralIs(src: string, i: nat, j: nat)
    requires i < |src| && InNumber(src[i])
    ensures Numeral(src, i, j) <==> j == RunEnd(src, i, NumberChar)
  {
    NumeralEnds(src, i);
  }

  lemma WordIs(src: string, i: nat, j: nat)
    requires i < |src| && InWord(src[i])
    ensures Word(src, i, j) <==> j == RunEnd(src, i, WordChar)
  {
    WordEnds(src, i);
  }

  lemma CommentIs(src: string, i: nat, k: nat)
    requires i + 1 < |src| && src[i] == '/' && src[i + 1] == '/'
    ensures LineComment(src, i, k) <==> k == RunEnd(src, i, LineChar)
  {
    LineEnds(src, i);
    assert RunEnd(src, i, LineChar) == RunEnd(src, i + 1, LineChar) == RunEnd(src, i + 2, LineChar);
  }

  lemma NumberToken(stod: Stod, src: string, i: nat, j: nat, t: Token)
    requires i < |src| && StartsNumber(src, i)
    ensures LexOne(stod, src, i) == Some(Lexeme(t, i, j)) <==> IsToken(stod, src, i, j, t)
  {
    hide LexPunct, Keyword, StringFrom, Quoted, Signs, RunEnd;
    NumeralIs(src, i, j);
    hide Numeral;
  }

  lemma WordToken(stod: Stod, src: string, i: nat, j: nat, t: Token)
    requires i < |src| && !StartsNumber(src, i) && StartsWord(src[i])
    ensures LexOne(stod, src, i) == Some(Lexeme(t, i, j)) <==> IsToken(stod, src, i, j, t)
  {
    hide LexPunct, Keyword, StringFrom, Quoted, Signs, RunEnd, WORDS;
    WordIs(src, i, j);
    WordMeaning(src[i..RunEnd(src, i, WordChar)]);
    hide Word;
  }

  /** Where a token begins, the lexer takes that token or throws. */
  lemma TokenMeaning(stod: Stod, src: string, i: nat, j: nat, t: Token)
    requires i < |src|
    ensures LexOne(stod, src, i) == Some(Lexeme(t, i, j)) <==> IsToken(stod, src, i, j, t)
  {
    hide LexPunct, Keyword, RunEnd, StringFrom, Quoted, Signs, WORDS, Numeral, Word;
    if StartsNumber(src, i) {
      NumberToken(stod, src, i, j, t);
    } else if StartsWord(src[i]) {
      WordToken(stod, src, i, j, t);
    } else if src[i] == '"' {
      if t.TString? { QuotedMeaning(src, i + 1, j, t.text); }
    } else {
      SignMeaning(src, i, j, t);
    }
  }

  /** The lexer skips the gap, and all of it. */
  lemma {:induction false} GapMeaning(src: string, i: nat, j: nat)
    requires i <= |src|
    ensures IsGap(src, i, j) && GapEnds(src, j) <==> j == SkipBlank(src, i)
    decreases |src| - i
  {
    hide RunEnd;
    if i < |src| && Space(src[i]) {
      GapMeaning(src, i + 1, j);
    } else if i + 1 < |src| && src[i] == '/' && src[i + 1] == '/' {
      var e := RunEnd(src, i, LineChar);
      CommentIs(src, i, e);
      GapMeaning(src, e, j);
      forall k: nat | LineComment(src, i, k) ensures k == e { CommentIs(src, i, k); }
    }
  }

  lemma TokenInside(stod: Stod, src: string, i: nat, j: nat, t: Token)
    ensures IsToken(stod, src, i, j, t) ==> i < |src|
  {
  }

  /** A source lexes to a list of tokens if and only if it reads as that list; where it reads as
      none, the lexer throws. */
  lemma {:induction false} LexerMeaning(stod: Stod, src: string, i: nat, ls: seq<Lexeme>)
    requires i <= |src|
    ensures LexFrom(stod, src, i) == Some(ls) <==> Reads(stod, src, i, ls)
    decreases |src| - i
  {
    hide SkipBlank, LexOne, IsGap, GapEnds, IsToken;
    var j := SkipBlank(src, i);
    forall k: nat ensures IsGap(src, i, k) && GapEnds(src, k) <==> k == j { GapMeaning(src, i, k); }
    assert IsGap(src, i, j) && GapEnds(src, j);
    if ls != [] { TokenInside(stod, src, j, ls[0].end, ls[0].tok); }
    if j < |src| && ls != [] {
      var l := ls[0];
      TokenMeaning(stod, src, j, l.end, l.tok);
      if LexOne(stod, src, j) == Some(l) {
        LexerMeaning(stod, src, l.end, ls[1..]);
        assert ls == [l] + ls[1..];
      }
      if LexFrom(stod, src, i) == Some(ls) {
        assert LexOne(stod, src, j) == Some(l);
      }
    }
  }
}
