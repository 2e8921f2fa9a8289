/** The lexer and the highlighter see the same tokens, and the lexer's text survives printing. */
module CowScanners {
  import opened Wrappers
  import opened CowGrammar
  import opened CowLexis

  /** Contiguous, non-empty, from `i` to `n`. */
  predicate Tiles(spans: seq<Span>, i: nat, n: nat) {
    if spans == [] then i == n
    else spans[0].start == i && spans[0].length > 0 && Tiles(spans[1..], i + spans[0].length, n)
  }

  /** For every source, accepted or not, the highlight spans cover it exactly. */
  lemma {:induction false} SpansTile(src: string, i: nat)
    requires i <= |src|
    ensures Tiles(Spans(src, i), i, |src|)
    decreases |src| - i
  {
    if i < |src| { SpansTile(src, i + SpanAt(src, i).length); }
  }

  /** The spans that are neither white space nor comment. */
  function Significant(spans: seq<Span>): seq<Span> {
    if spans == [] then []
    else if spans[0].kind == Whitespace || spans[0].kind == Comment then Significant(spans[1..])
    else [spans[0]] + Significant(spans[1..])
  }

  function KindOf(t: Token): Kind {
    match t
    case TNumber(_) => NumberKind
    case TString(_) => StringKind
    case TIdent(w) => if w in BUILTINS then Builtin else Identifier
    case TPlus => Operator
    case TMinus => Operator
    case TStar => Operator
    case TSlash => Operator
    case TPercent => Operator
    case TEq => Operator
    case TEqEq => Operator
    case TBangEq => Operator
    case TLt => Operator
    case TLe => Operator
    case TGt => Operator
    case TGe => Operator
    case TLParen => Punctuation
    case TRParen => Punctuation
    case TLBrace => Punctuation
    case TRBrace => Punctuation
    case TComma => Punctuation
    case TSemi => Punctuation
    case TDot => Punctuation
    case TEnd => Plain
    case _ => KeywordKind
  }

  /** The span the highlighter should draw for a lexeme. */
  function SpanOf(l: Lexeme): Span
    requires l.start <= l.end
  {
    Span(KindOf(l.tok), l.start, l.end - l.start)
  }

  function SpansOf(ls: seq<Lexeme>): (r: seq<Span>)
    requires Ordered(ls)
    ensures |r| == |ls| && forall k :: 0 <= k < |ls| ==> r[k] == SpanOf(ls[k])
  {
    seq(|ls|, k requires 0 <= k < |ls| => SpanOf(ls[k]))
  }

  lemma {:induction false} StringEnds(src: string, i: nat)
    requires i <= |src|
    ensures StringFrom(src, i).end == QuoteEnd(src, i)
    decreases |src| - i
  {
    if i < |src| && src[i] != '"' {
      if src[i] == '\\' && i + 1 < |src| { StringEnds(src, i + 2); } else { StringEnds(src, i + 1); }
    }
  }

  lemma {:induction false} SkipRun(src: string, i: nat)
    requires i <= |src|
    ensures SkipBlank(src, i) == SkipBlank(src, RunEnd(src, i, BlankChar))
    decreases |src| - i
  {
    if i < |src| && IsBlank(src[i]) { SkipRun(src, i + 1); }
  }

  lemma KeywordsAgree(w: string)
    ensures Keyword(w).Some? <==> w in KEYWORDS
    ensures Keyword(w).Some? ==> KindOf(Keyword(w).value) == KeywordKind
  {
  }

  lemma PunctAgrees(src: string, i: nat)
    requires i < |src| && LexPunct(src, i).Some?
    ensures SpanOf(LexPunct(src, i).value) ==
            if IsPair(src, i) then Span(Operator, i, 2) else Span(CharKind(src[i]), i, 1)
    ensures src[i] != '"' && !StartsWord(src[i]) && !IsBlank(src[i])
  {
  }

  /** Where a lexeme starts, the highlighter draws the matching span. */
  lemma OneAgrees(stod: Stod, src: string, i: nat)
    requires i < |src| && SkipBlank(src, i) == i && LexOne(stod, src, i).Some?
    ensures SpanAt(src, i) == SpanOf(LexOne(stod, src, i).value)
    ensures SpanAt(src, i).kind != Whitespace && SpanAt(src, i).kind != Comment
  {
    hide SkipBlank, LexPunct, CharKind, KEYWORDS, BUILTINS, Keyword;
    NotBlank(src, i);
    if StartsNumber(src, i) {
    } else if StartsWord(src[i]) {
      KeywordsAgree(src[i..RunEnd(src, i, WordChar)]);
    } else if src[i] == '"' {
      StringEnds(src, i + 1);
    } else {
      PunctAgrees(src, i);
      assert CharKind(src[i]) != Whitespace && CharKind(src[i]) != Comment by { PlainKinds(src[i]); }
    }
  }

  lemma PlainKinds(c: char)
    ensures CharKind(c) == Operator || CharKind(c) == Punctuation || CharKind(c) == Plain
  {
  }

  lemma NotBlank(src: string, i: nat)
    requires i < |src| && SkipBlank(src, i) == i
    ensures !IsBlank(src[i]) && !(src[i] == '/' && Peek(src, i + 1) == '/')
  {
  }

  predicate Ordered(ls: seq<Lexeme>) {
    forall k :: 0 <= k < |ls| ==> ls[k].start <= ls[k].end
  }

  lemma SpansOfCons(l: Lexeme, ls: seq<Lexeme>)
    requires l.start <= l.end && Ordered(ls)
    ensures Ordered([l] + ls) && SpansOf([l] + ls) == [SpanOf(l)] + SpansOf(ls)
  {
  }

  /** The significant spans are one for one the lexer's tokens, with matching extents and kinds. */
  lemma {:induction false} ScannersAgree(stod: Stod, src: string, i: nat)
    requires i <= |src| && LexFrom(stod, src, i).Some?
    ensures var ls := LexFrom(stod, src, i).value;
            Ordered(ls) && Significant(Spans(src, i)) == SpansOf(ls)
    decreases |src| - i
  {
    hide LexOne, SpanAt, SpansOf, SpanOf, Ordered;
    if i == |src| {
      NoSpans();
    } else {
      var s := SpanAt(src, i);
      assert Spans(src, i) == [s] + Spans(src, i + s.length);
      assert Spans(src, i)[1..] == Spans(src, i + s.length);
      if SkipBlank(src, i) == i {
        var l := LexOne(stod, src, i).value;
        OneAgrees(stod, src, i);
        SpanLength(l);
        ScannersAgree(stod, src, l.end);
        SpansOfCons(l, LexFrom(stod, src, l.end).value);
      } else {
        SkippedSpan(src, i);
        ScannersAgree(stod, src, i + s.length);
      }
    }
  }

  lemma NoSpans()
    ensures Ordered([]) && SpansOf([]) == []
  {
  }

  lemma SpanLength(l: Lexeme)
    requires l.start <= l.end
    ensures l.start + SpanOf(l).length == l.end
  {
  }

  /** What the lexer skips, the highlighter draws as white space or comment. */
  lemma SkippedSpan(src: string, i: nat)
    requires i < |src| && SkipBlank(src, i) != i
    ensures var s := SpanAt(src, i);
            && (s.kind == Whitespace || s.kind == Comment)
            && SkipBlank(src, i + s.length) == SkipBlank(src, i)
  {
    if IsBlank(src[i]) { SkipRun(src, i); }
  }
}
