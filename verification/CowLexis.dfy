/** The two scanners of CowScript source as functions on text: the lexer that feeds the
    parser, and the highlighter that colours the editor. They share character classes only. */
module CowLexis {
  import opened Wrappers
  import opened CowAst
  import opened CowGrammar

  // ----- character classes -----

  predicate IsDigit(c: char) { '0' <= c <= '9' }
  predicate IsAlpha(c: char) { 'a' <= c <= 'z' || 'A' <= c <= 'Z' }
  predicate IsBlank(c: char) { c == ' ' || c == '\t' || c == '\r' || c == '\n' }

  datatype Class = NumberChar | WordChar | BlankChar | LineChar {
    predicate Has(c: char) {
      match this
      case NumberChar => IsDigit(c) || c == '.'
      case WordChar => IsAlpha(c) || IsDigit(c) || c == '_'
      case BlankChar => IsBlank(c)
      case LineChar => c != '\n'
    }
  }

  /** Past the end the scanners see a NUL. */
  function Peek(src: string, i: nat): char {
    if i < |src| then src[i] else '\0'
  }

  /** The end of the longest run of a class that starts at `i`. */
  function RunEnd(src: string, i: nat, cls: Class): (j: nat)
    requires i <= |src|
    ensures i <= j <= |src|
    ensures i < |src| && cls.Has(src[i]) ==> i < j
    decreases |src| - i
  {
    if i < |src| && cls.Has(src[i]) then RunEnd(src, i + 1, cls) else i
  }

  predicate StartsNumber(src: string, i: nat)
    requires i < |src|
  {
    IsDigit(src[i]) || (src[i] == '.' && IsDigit(Peek(src, i + 1)))
  }

  predicate StartsWord(c: char) { IsAlpha(c) || c == '_' }

  // ----- lexer -----

  function Keyword(w: string): Option<Token> {
    if w == "let" then Some(TLet)
    else if w == "if" then Some(TIf)
    else if w == "else" then Some(TElse)
    else if w == "while" then Some(TWhile)
    else if w == "fn" then Some(TFn)
    else if w == "return" then Some(TReturn)
    else if w == "on" then Some(TOn)
    else if w == "true" then Some(TTrue)
    else if w == "false" then Some(TFalse)
    else if w == "null" then Some(TNull)
    else if w == "and" then Some(TAnd)
    else if w == "or" then Some(TOr)
    else if w == "not" then Some(TNot)
    else None
  }

  /** Past blanks and line comments. */
  function SkipBlank(src: string, i: nat): (j: nat)
    requires i <= |src|
    ensures i <= j <= |src|
    decreases |src| - i
  {
    if i == |src| then i
    else if IsBlank(src[i]) then SkipBlank(src, i + 1)
    else if src[i] == '/' && Peek(src, i + 1) == '/' then SkipBlank(src, RunEnd(src, i, LineChar))
    else i
  }

  function Unescape(c: char): char {
    if c == 'n' then '\n' else if c == 't' then '\t' else if c == 'r' then '\r' else c
  }

  datatype Text = Text(text: string, end: nat)

  /** The contents of a string literal from `i` on, and where it ends; the closing quote may be missing. */
  function StringFrom(src: string, i: nat): (r: Text)
    requires i <= |src|
    ensures i <= r.end <= |src|
    decreases |src| - i
  {
    if i == |src| then Text("", i)
    else if src[i] == '"' then Text("", i + 1)
    else if src[i] == '\\' && i + 1 < |src| then
      var t := StringFrom(src, i + 2);
      Text([Unescape(src[i + 1])] + t.text, t.end)
    else
      var t := StringFrom(src, i + 1);
      Text([src[i]] + t.text, t.end)
  }

  datatype Lexeme = Lexeme(tok: Token, start: nat, end: nat)

  /** std::stod, with None where it throws. */
  type Stod = string -> Option<Double>

  /** The lexeme that starts at `i`, or None where the lexer throws. */
  function LexOne(stod: Stod, src: string, i: nat): (r: Option<Lexeme>)
    requires i < |src|
    ensures r.Some? ==> r.value.start == i < r.value.end <= |src|
  {
    var c := src[i];
    if StartsNumber(src, i) then
      var e := RunEnd(src, i, NumberChar);
      match stod(src[i..e])
      case None => None
      case Some(n) => Some(Lexeme(TNumber(n), i, e))
    else if StartsWord(c) then
      var e := RunEnd(src, i, WordChar);
      var w := src[i..e];
      Some(Lexeme(if Keyword(w).Some? then Keyword(w).value else TIdent(w), i, e))
    else if c == '"' then
      var t := StringFrom(src, i + 1);
      Some(Lexeme(TString(t.text), i, t.end))
    else LexPunct(src, i)
  }

  function LexPunct(src: string, i: nat): (r: Option<Lexeme>)
    requires i < |src|
    ensures r.Some? ==> r.value.start == i < r.value.end <= |src|
  {
    var c := src[i];
    var one := (t: Token) => Some(Lexeme(t, i, i + 1));
    var two := Peek(src, i + 1) == '=';
    if c == '+' then one(TPlus)
    else if c == '-' then one(TMinus)
    else if c == '*' then one(TStar)
    else if c == '/' then one(TSlash)
    else if c == '%' then one(TPercent)
    else if c == '(' then one(TLParen)
    else if c == ')' then one(TRParen)
    else if c == '{' then one(TLBrace)
    else if c == '}' then one(TRBrace)
    else if c == ',' then one(TComma)
    else if c == ';' then one(TSemi)
    else if c == '.' then one(TDot)
    else if c == '=' then if two then Some(Lexeme(TEqEq, i, i + 2)) else one(TEq)
    else if c == '!' then if two then Some(Lexeme(TBangEq, i, i + 2)) else None
    else if c == '<' then if two then Some(Lexeme(TLe, i, i + 2)) else one(TLt)
    else if c == '>' then if two then Some(Lexeme(TGe, i, i + 2)) else one(TGt)
    else None
  }

  /** All lexemes from `i` on, or None where the lexer throws. */
  function LexFrom(stod: Stod, src: string, i: nat): (r: Option<seq<Lexeme>>)
    requires i <= |src|
    decreases |src| - i
  {
    var j := SkipBlank(src, i);
    if j == |src| then Some([])
    else
      match LexOne(stod, src, j)
      case None => None
      case Some(l) =>
        match LexFrom(stod, src, l.end)
        case None => None
        case Some(ls) => Some([l] + ls)
  }

  /** The line and column of a position, counting from 1. */
  function LineAt(src: string, i: nat): nat
    requires i <= |src|
  {
    if i == 0 then 1 else LineAt(src, i - 1) + if src[i - 1] == '\n' then 1 else 0
  }

  function ColAt(src: string, i: nat): nat
    requires i <= |src|
  {
    if i == 0 || src[i - 1] == '\n' then 1 else ColAt(src, i - 1) + 1
  }

  // ----- highlighter -----

  datatype Kind =
    | Plain | Comment | KeywordKind | NumberKind | StringKind | Identifier | Builtin | Operator
    | Punctuation | Whitespace

  datatype Span = Span(kind: Kind, start: nat, length: nat)

  const KEYWORDS: set<string> :=
    {"let", "if", "else", "while", "fn", "return", "on", "true", "false", "null", "and", "or", "not"}

  const BUILTINS: set<string> :=
    {"print", "time", "dt", "key", "sin", "cos", "tan", "sqrt", "abs", "floor", "ceil", "random",
     "self_x", "self_y", "self_z", "self_rx", "self_ry", "self_rz", "self_sx", "self_sy", "self_sz",
     "self_set_pos", "self_set_rot", "self_set_scale", "self_set_color",
     "self_apply_impulse", "self_apply_force", "self_set_velocity",
     "self_on_ground", "self_collided", "self_contact_above",
     "self_explode", "self_set_friction", "self_set_nametag", "reset_scene",
     "spawn_cube", "spawn_cow", "spawn_plane", "destroy", "destroy_self", "attach_script",
     "self", "transform", "rigidbody", "camera", "transform_of", "rigidbody_of"}

  function WordKind(w: string): Kind {
    if w in KEYWORDS then KeywordKind else if w in BUILTINS then Builtin else Identifier
  }

  /** The end of a string span, from just after its opening quote. */
  function QuoteEnd(src: string, i: nat): (j: nat)
    requires i <= |src|
    ensures i <= j <= |src|
    decreases |src| - i
  {
    if i == |src| then i
    else if src[i] == '"' then i + 1
    else if src[i] == '\\' && i + 1 < |src| then QuoteEnd(src, i + 2)
    else QuoteEnd(src, i + 1)
  }

  predicate IsPair(src: string, i: nat)
    requires i < |src|
  {
    i + 1 < |src| && src[i + 1] == '=' && (src[i] == '=' || src[i] == '!' || src[i] == '<' || src[i] == '>')
  }

  /** strchr finds the terminating NUL of the operator list too. */
  function CharKind(c: char): Kind {
    if c == '+' || c == '-' || c == '*' || c == '/' || c == '%' || c == '<' || c == '>'
       || c == '=' || c == '!' || c == '\0'
    then Operator
    else if c == '(' || c == ')' || c == '{' || c == '}' || c == ',' || c == ';' || c == '.' then Punctuation
    else Plain
  }

  function SpanAt(src: string, i: nat): (s: Span)
    requires i < |src|
    ensures s.start == i && s.length > 0 && i + s.length <= |src|
  {
    var c := src[i];
    if c == '/' && i + 1 < |src| && src[i + 1] == '/' then Span(Comment, i, RunEnd(src, i, LineChar) - i)
    else if c == '"' then Span(StringKind, i, QuoteEnd(src, i + 1) - i)
    else if StartsNumber(src, i) then Span(NumberKind, i, RunEnd(src, i, NumberChar) - i)
    else if StartsWord(c) then
      var e := RunEnd(src, i, WordChar);
      Span(WordKind(src[i..e]), i, e - i)
    else if IsBlank(c) then Span(Whitespace, i, RunEnd(src, i, BlankChar) - i)
    else if IsPair(src, i) then Span(Operator, i, 2)
    else Span(CharKind(c), i, 1)
  }

  function Spans(src: string, i: nat): seq<Span>
    requires i <= |src|
    decreases |src| - i
  {
    if i == |src| then []
    else
      var s := SpanAt(src, i);
      [s] + Spans(src, i + s.length)
  }
}
