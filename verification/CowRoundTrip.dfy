/** Parser and printer undo each other. */
module CowRoundTrip {
  import opened Wrappers
  import opened CowAst
  import opened CowGrammar

  // ----- where an expression of level `k` can stop -----

  /** No loop of level `k` or tighter goes on at this token. */
  predicate Stops(k: nat, t: Token) {
    && (OpOf(t).Some? ==> OpLevel(OpOf(t).value) < k)
    && (k <= 8 ==> t != TLParen && t != TDot)
    && (k == 0 ==> t != TEq)
  }

  predicate Starts(t: Token) {
    t.TNumber? || t.TString? || t.TIdent? || t == TTrue || t == TFalse || t == TNull
    || t == TLParen || t == TMinus || t == TNot
  }

  function Size(e: Expr): nat {
    match e
    case Call(_, args) => 1 + ArgsSize(args)
    case Unary(_, x) => 1 + Size(x)
    case Binary(_, l, r) => 1 + Size(l) + Size(r)
    case Assign(_, r) => 2 + Size(r)
    case Member(o, _) => 1 + Size(o)
    case MemberAssign(o, _, r) => 2 + Size(o) + Size(r)
    case _ => 1
  }

  function ArgsSize(es: seq<Expr>): nat {
    if es == [] then 0 else Size(es[0]) + ArgsSize(es[1..])
  }

  /** Levels up to the expression's own are walked down to it; above it, down to the parenthesis. */
  function Rank(e: Expr, k: Level): nat {
    if k <= ExprLevel(e) then 10 - k else 30 - k
  }

  lemma {:induction false} FirstToken(e: Expr, k: Level)
    ensures RenderAt(e, k) != [] && Starts(RenderAt(e, k)[0])
    ensures k >= 8 ==> RenderAt(e, k)[0] != TMinus && RenderAt(e, k)[0] != TNot
    decreases e
  {
    if ExprLevel(e) >= k {
      match e
      case Binary(op, l, _) => FirstToken(l, OpLevel(op));
      case Member(o, _) => FirstToken(o, 8);
      case MemberAssign(o, _, _) => FirstToken(o, 8);
      case _ =>
    }
  }

  // ----- one step of the parser or the printer at a time -----

  lemma RenderSame(e: Expr, j: Level, k: Level)
    requires j <= ExprLevel(e) <==> k <= ExprLevel(e)
    ensures RenderAt(e, j) == RenderAt(e, k)
  {
    hide Render;
  }

  lemma RenderParen(e: Expr, k: Level)
    requires ExprLevel(e) < k
    ensures RenderAt(e, k) == [TLParen] + (RenderAt(e, 0) + [TRParen])
  {
    hide Render;
  }

  lemma Regroup(a: seq<Token>, b: seq<Token>, c: seq<Token>, d: seq<Token>)
    ensures (a + (b + c)) + d == a + (b + (c + d))
  {
  }

  /** What stands left of `=`. */
  function Target(e: Expr): Expr
    requires e.Assign? || e.MemberAssign?
  {
    if e.Assign? then Ident(e.target) else Member(e.owner, e.prop)
  }

  lemma RenderAssign(e: Expr)
    requires e.Assign? || e.MemberAssign?
    ensures RenderAt(e, 0) == RenderAt(Target(e), 1) + ([TEq] + RenderAt(e.rhs, 0))
  {
    hide RenderAt;
    var right := RenderAt(e.rhs, 0);
    RenderLow(e);
    RenderSame(Target(e), 1, ExprLevel(Target(e)));
    RenderLow(Target(e));
    if e.Assign? {
      assert [TIdent(e.target), TEq] + right == [TIdent(e.target)] + ([TEq] + right);
    } else {
      var left := RenderAt(e.owner, 8);
      assert left + [TDot, TIdent(e.prop), TEq] + right == (left + [TDot, TIdent(e.prop)]) + ([TEq] + right);
    }
  }

  lemma RenderLow(e: Expr)
    ensures RenderAt(e, ExprLevel(e)) == Render(e)
  {
    hide Render;
  }

  lemma RenderBinary(e: Expr)
    requires e.Binary?
    ensures var k := OpLevel(e.bop);
            RenderAt(e, k) == RenderAt(e.left, k) + ([OpToken(e.bop)] + RenderAt(e.right, k + 1))
  {
  }

  lemma Leaf(e: Expr, rest: seq<Token>)
    requires ExprLevel(e) == 9
    ensures ParseAt(9, RenderAt(e, 9) + rest) == Ok(e, rest)
  {
    assert |Render(e)| == 1;
    assert (Render(e) + rest)[1..] == rest;
  }

  lemma AtAssign(toks: seq<Token>, lhs: Expr, right: seq<Token>, rhs: Expr, rest: seq<Token>)
    requires ParseAt(1, toks) == Ok(lhs, [TEq] + right) && ParseAt(0, right) == Ok(rhs, rest)
    requires lhs.Ident? || lhs.Member?
    ensures ParseAt(0, toks) ==
            Ok(if lhs.Ident? then Assign(lhs.name, rhs) else MemberAssign(lhs.owner, lhs.prop, rhs), rest)
  {
    assert ([TEq] + right)[1..] == right;
  }

  lemma AtNoAssign(toks: seq<Token>, e: Expr, rest: seq<Token>)
    requires ParseAt(1, toks) == Ok(e, rest) && Head(rest) != TEq
    ensures ParseAt(0, toks) == Ok(e, rest)
  {
  }

  lemma AtBinary(k: Level, toks: seq<Token>, lhs: Expr, rest: seq<Token>)
    requires 1 <= k <= 6 && ParseAt(k + 1, toks) == Ok(lhs, rest)
    ensures ParseAt(k, toks) == ParseTail(k, lhs, rest)
  {
    hide ParseTail;
  }

  lemma TailStep(op: BinOp, lhs: Expr, right: seq<Token>, rhs: Expr, rest: seq<Token>)
    requires ParseAt(OpLevel(op) + 1, right) == Ok(rhs, rest)
    ensures ParseTail(OpLevel(op), lhs, [OpToken(op)] + right) == ParseTail(OpLevel(op), Binary(op, lhs, rhs), rest)
  {
    hide ParseAt, OpAt, OpToken, OpLevel;
    var toks := [OpToken(op)] + right;
    assert toks[1..] == right;
    OpIsAtItsLevel(op);
  }

  lemma OpIsAtItsLevel(op: BinOp)
    ensures 1 <= OpLevel(op) <= 6 && OpAt(OpLevel(op), OpToken(op)) == Some(op)
  {
  }

  lemma TailStops(k: Level, lhs: Expr, toks: seq<Token>)
    requires 1 <= k <= 6 && OpAt(k, Head(toks)).None?
    ensures ParseTail(k, lhs, toks) == Ok(lhs, toks)
  {
  }

  lemma AtUnary(op: UnOp, right: seq<Token>, x: Expr, rest: seq<Token>)
    requires ParseAt(7, right) == Ok(x, rest)
    ensures ParseAt(7, [if op == Neg then TMinus else TNot] + right) == Ok(Unary(op, x), rest)
  {
    assert ([if op == Neg then TMinus else TNot] + right)[1..] == right;
  }

  lemma AtNoUnary(toks: seq<Token>)
    requires Head(toks) != TMinus && Head(toks) != TNot
    ensures ParseAt(7, toks) == ParseAt(8, toks)
  {
  }

  lemma AtChain(toks: seq<Token>, lhs: Expr, rest: seq<Token>)
    requires ParseAt(9, toks) == Ok(lhs, rest)
    ensures ParseAt(8, toks) == ParsePostfix(lhs, rest)
  {
    hide ParsePostfix;
  }

  lemma AtParen(inner: seq<Token>, e: Expr, rest: seq<Token>)
    requires ParseAt(0, inner) == Ok(e, [TRParen] + rest)
    ensures ParseAt(9, [TLParen] + inner) == Ok(e, rest)
  {
    assert ([TLParen] + inner)[1..] == inner;
    assert ([TRParen] + rest)[1..] == rest;
  }

  lemma PostfixStops(lhs: Expr, rest: seq<Token>)
    requires Head(rest) != TLParen && Head(rest) != TDot
    ensures ParsePostfix(lhs, rest) == Ok(lhs, rest)
  {
  }

  lemma PostfixMember(lhs: Expr, p: string, rest: seq<Token>)
    ensures ParsePostfix(lhs, [TDot, TIdent(p)] + rest) == ParsePostfix(Member(lhs, p), rest)
  {
    var toks := [TDot, TIdent(p)] + rest;
    assert toks[1..] == [TIdent(p)] + rest && toks[2..] == rest;
  }

  lemma PostfixCall(f: string, inner: seq<Token>, args: seq<Expr>, rest: seq<Token>)
    requires if args == [] then inner == [TRParen] + rest
             else Head(inner) != TRParen && ParseArgs(inner) == Ok(args, [TRParen] + rest)
    ensures ParsePostfix(Ident(f), [TLParen] + inner) == ParsePostfix(Call(f, args), rest)
  {
    hide ParseArgs;
    var toks := [TLParen] + inner;
    assert toks[1..] == inner;
    assert ([TRParen] + rest)[1..] == rest;
    if args == [] { assert toks[2..] == rest; }
  }

  lemma ArgsStep(toks: seq<Token>, e: Expr, more: seq<Token>, es: seq<Expr>, rest: seq<Token>)
    requires ParseAt(0, toks) == Ok(e, [TComma] + more) && ParseArgs(more) == Ok(es, rest)
    ensures ParseArgs(toks) == Ok([e] + es, rest)
  {
    hide ParseAt;
    assert ([TComma] + more)[1..] == more;
  }

  lemma ArgsLast(toks: seq<Token>, e: Expr, rest: seq<Token>)
    requires ParseAt(0, toks) == Ok(e, rest) && Head(rest) != TComma
    ensures ParseArgs(toks) == Ok([e], rest)
  {
    hide ParseAt;
  }

  // ----- the induction -----

  /** Parsing the rendering of an expression gives it back and stops where it ends. */
  lemma {:induction false} RoundTrip(e: Expr, k: Level, rest: seq<Token>)
    requires Stops(k, Head(rest))
    ensures ParseAt(k, RenderAt(e, k) + rest) == Ok(e, rest)
    decreases Size(e), Rank(e, k), 1
  {
    hide ParseAt, ParseTail, ParsePostfix, RenderAt;
    if k == 0 {
      AssignLevel(e, rest);
    } else if k <= 6 {
      Spine(e, k, rest);
      TailStops(k, e, rest);
    } else if k == 7 {
      UnaryLevel(e, rest);
    } else if k == 8 {
      Chain(e, rest);
      PostfixStops(e, rest);
    } else {
      PrimaryLevel(e, rest);
    }
  }

  lemma {:induction false} AssignLevel(e: Expr, rest: seq<Token>)
    requires Stops(0, Head(rest))
    ensures ParseAt(0, RenderAt(e, 0) + rest) == Ok(e, rest)
    decreases Size(e), Rank(e, 0), 0
  {
    hide ParseAt;
    hide RenderAt;
    if e.Assign? || e.MemberAssign? {
      var lhs := Target(e);
      var right := RenderAt(e.rhs, 0) + rest;
      RoundTrip(lhs, 1, [TEq] + right);
      RoundTrip(e.rhs, 0, rest);
      RenderAssign(e);
      Regroup(RenderAt(lhs, 1), [TEq], RenderAt(e.rhs, 0), rest);
      AtAssign(RenderAt(e, 0) + rest, lhs, right, e.rhs, rest);
    } else {
      RenderSame(e, 0, 1);
      RoundTrip(e, 1, rest);
      AtNoAssign(RenderAt(e, 0) + rest, e, rest);
    }
  }

  /** A left operand is what its own level's loop starts from, whatever follows it. */
  lemma {:induction false} Spine(e: Expr, k: Level, rest: seq<Token>)
    requires 1 <= k <= 6 && Stops(k + 1, Head(rest))
    ensures ParseAt(k, RenderAt(e, k) + rest) == ParseTail(k, e, rest)
    decreases Size(e), Rank(e, k), 0
  {
    hide ParseAt, ParseTail, RenderAt;
    if e.Binary? && OpLevel(e.bop) == k {
      var right := RenderAt(e.right, k + 1) + rest;
      var tail := [OpToken(e.bop)] + right;
      Spine(e.left, k, tail);
      RoundTrip(e.right, k + 1, rest);
      TailStep(e.bop, e.left, right, e.right, rest);
      RenderBinary(e);
      Regroup(RenderAt(e.left, k), [OpToken(e.bop)], RenderAt(e.right, k + 1), rest);
    } else {
      RoundTrip(e, k + 1, rest);
      RenderSame(e, k, k + 1);
      AtBinary(k, RenderAt(e, k) + rest, e, rest);
    }
  }

  lemma {:induction false} UnaryLevel(e: Expr, rest: seq<Token>)
    requires Stops(7, Head(rest))
    ensures ParseAt(7, RenderAt(e, 7) + rest) == Ok(e, rest)
    decreases Size(e), Rank(e, 7), 0
  {
    hide ParseAt;
    if e.Unary? {
      var right := RenderAt(e.operand, 7) + rest;
      RoundTrip(e.operand, 7, rest);
      AtUnary(e.uop, right, e.operand, rest);
      assert RenderAt(e, 7) + rest == [if e.uop == Neg then TMinus else TNot] + right;
    } else {
      hide RenderAt;
      RenderSame(e, 7, 8);
      FirstToken(e, 8);
      RoundTrip(e, 8, rest);
      AtNoUnary(RenderAt(e, 8) + rest);
    }
  }

  /** A chain of calls and members is what the postfix loop starts from, whatever follows it. */
  lemma {:induction false} Chain(e: Expr, rest: seq<Token>)
    ensures ParseAt(8, RenderAt(e, 8) + rest) == ParsePostfix(e, rest)
    decreases Size(e), Rank(e, 8), 0
  {
    hide ParseAt, ParsePostfix;
    if e.Call? {
      CallChain(e, rest);
    } else if e.Member? {
      var tail := [TDot, TIdent(e.prop)] + rest;
      Chain(e.owner, tail);
      PostfixMember(e.owner, e.prop, rest);
      assert RenderAt(e, 8) + rest == RenderAt(e.owner, 8) + tail;
    } else {
      hide RenderAt;
      PrimaryLevel(e, rest);
      RenderSame(e, 8, 9);
      AtChain(RenderAt(e, 8) + rest, e, rest);
    }
  }

  lemma {:induction false} CallChain(e: Expr, rest: seq<Token>)
    requires e.Call?
    ensures ParseAt(8, RenderAt(e, 8) + rest) == ParsePostfix(e, rest)
    decreases Size(e), 0, 0
  {
    hide ParsePostfix, ParseArgs, RenderArgs;
    var after := [TRParen] + rest;
    var inner := RenderArgs(e.args) + after;
    var tail := [TLParen] + inner;
    var toks := RenderAt(e, 8) + rest;
    assert RenderAt(e, 8) == [TIdent(e.callee), TLParen] + RenderArgs(e.args) + [TRParen];
    assert toks == [TIdent(e.callee)] + tail;
    assert toks[1..] == tail;
    AtChain(toks, Ident(e.callee), tail);
    if e.args == [] {
      NoArgs();
      assert inner == after;
    } else {
      ArgsRoundTrip(e.args, rest);
      FirstArgToken(e.args);
      assert inner[0] == RenderArgs(e.args)[0];
    }
    PostfixCall(e.callee, inner, e.args, rest);
  }

  lemma NoArgs()
    ensures RenderArgs([]) == []
  {
  }

  lemma RenderArgsStep(args: seq<Expr>)
    requires args != []
    ensures RenderArgs(args) == if |args| == 1 then RenderAt(args[0], 0)
                                else RenderAt(args[0], 0) + ([TComma] + RenderArgs(args[1..]))
  {
    hide RenderAt;
  }

  lemma FirstArgToken(args: seq<Expr>)
    requires args != []
    ensures RenderArgs(args) != [] && Starts(RenderArgs(args)[0])
  {
    FirstToken(args[0], 0);
  }

  lemma {:induction false} ArgsRoundTrip(args: seq<Expr>, rest: seq<Token>)
    requires args != []
    ensures ParseArgs(RenderArgs(args) + ([TRParen] + rest)) == Ok(args, [TRParen] + rest)
    decreases ArgsSize(args), 50, |args|
  {
    hide ParseAt, ParseArgs, RenderAt, RenderArgs;
    RenderArgsStep(args);
    var after := [TRParen] + rest;
    if |args| == 1 {
      RoundTrip(args[0], 0, after);
      ArgsLast(RenderArgs(args) + after, args[0], after);
      assert [args[0]] == args;
    } else {
      var more := RenderArgs(args[1..]) + after;
      SizePositive(args[0]);
      SizePositive(args[1]);
      RoundTrip(args[0], 0, [TComma] + more);
      ArgsRoundTrip(args[1..], rest);
      Regroup(RenderAt(args[0], 0), [TComma], RenderArgs(args[1..]), after);
      ArgsStep(RenderArgs(args) + after, args[0], more, args[1..], after);
      assert [args[0]] + args[1..] == args;
    }
  }

  lemma SizePositive(e: Expr)
    ensures Size(e) >= 1
  {
  }

  lemma {:induction false} PrimaryLevel(e: Expr, rest: seq<Token>)
    ensures ParseAt(9, RenderAt(e, 9) + rest) == Ok(e, rest)
    decreases Size(e), Rank(e, 9), 0
  {
    hide ParseAt, RenderAt;
    if ExprLevel(e) < 9 {
      var inner, tail := RenderAt(e, 0), [TRParen] + rest;
      RoundTrip(e, 0, tail);
      AtParen(inner + tail, e, rest);
      RenderParen(e, 9);
      assert RenderAt(e, 9) + rest == [TLParen] + (inner + tail) by {
        assert [TLParen] + inner + [TRParen] + rest == [TLParen] + (inner + tail);
      }
    } else {
      Leaf(e, rest);
    }
  }
}
