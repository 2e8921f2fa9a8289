/** How operators group, with the classes written out: the parse of any chain of operands and
    operators, whatever its length. */
module CowPrecedence {
  import opened Wrappers
  import opened CowAst
  import opened CowGrammar
  import opened CowRoundTrip

  // ----- the classes -----

  /** {or}, {and}, {==, !=}, {<, <=, >, >=}, {+, -}, {*, /, %}: from the loosest to the tightest. */
  function Class(op: BinOp): nat {
    if op in {Or} then 1
    else if op in {And} then 2
    else if op in {EqEq, BangEq} then 3
    else if op in {Lt, Le, Gt, Ge} then 4
    else if op in {Plus, Minus} then 5
    else 6
  }

  /** The token of an operator. */
  function Sign(op: BinOp): Token {
    match op
    case Or => TOr case And => TAnd
    case EqEq => TEqEq case BangEq => TBangEq
    case Lt => TLt case Le => TLe case Gt => TGt case Ge => TGe
    case Plus => TPlus case Minus => TMinus
    case Star => TStar case Slash => TSlash case Percent => TPercent
  }

  function PrefixSign(op: UnOp): Token {
    match op
    case Neg => TMinus case Not => TNot
  }

  // ----- chains -----

  /** A literal or a name, with the prefix operators before it and the properties after it. */
  datatype Operand = Operand(prefixes: seq<UnOp>, leaf: Token, members: seq<string>) {
    predicate Valid() {
      leaf.TNumber? || leaf.TString? || leaf.TIdent? || leaf == TTrue || leaf == TFalse || leaf == TNull
    }
  }

  function LeafExpr(t: Token): Expr {
    match t
    case TNumber(n) => NumberLit(n)
    case TString(s) => StringLit(s)
    case TIdent(x) => Ident(x)
    case TTrue => BoolLit(true)
    case TFalse => BoolLit(false)
    case _ => NullLit
  }

  function MemberTokens(leaf: Token, members: seq<string>): seq<Token> {
    if members == [] then [leaf]
    else MemberTokens(leaf, members[..|members| - 1]) + [TDot, TIdent(members[|members| - 1])]
  }

  function MemberTree(leaf: Token, members: seq<string>): Expr {
    if members == [] then LeafExpr(leaf)
    else Member(MemberTree(leaf, members[..|members| - 1]), members[|members| - 1])
  }

  function OperandTokens(x: Operand): seq<Token>
    decreases |x.prefixes|
  {
    if x.prefixes == [] then MemberTokens(x.leaf, x.members)
    else [PrefixSign(x.prefixes[0])] + OperandTokens(x.(prefixes := x.prefixes[1..]))
  }

  /** Properties bind tighter than prefix operators, and those nest to the right. */
  function OperandTree(x: Operand): Expr
    decreases |x.prefixes|
  {
    if x.prefixes == [] then MemberTree(x.leaf, x.members)
    else Unary(x.prefixes[0], OperandTree(x.(prefixes := x.prefixes[1..])))
  }

  /** `x0 op0 x1 op1 ... xn` */
  function ChainTokens(xs: seq<Operand>, ops: seq<BinOp>): seq<Token>
    requires |xs| == |ops| + 1
    decreases |ops|
  {
    if ops == [] then OperandTokens(xs[0])
    else OperandTokens(xs[0]) + ([Sign(ops[0])] + ChainTokens(xs[1..], ops[1..]))
  }

  /** The last of the operators of the loosest class. */
  function Loosest(ops: seq<BinOp>): (i: nat)
    requires ops != []
    ensures i < |ops| && forall j :: 0 <= j < |ops| ==> Class(ops[i]) <= Class(ops[j])
    ensures forall j :: i < j < |ops| ==> Class(ops[i]) < Class(ops[j])
  {
    var last := |ops| - 1;
    if last == 0 then 0
    else
      var i := Loosest(ops[..last]);
      if Class(ops[last]) <= Class(ops[i]) then last else i
  }

  /** The grouping: the chain splits at the last operator of its loosest class. */
  function ChainTree(xs: seq<Operand>, ops: seq<BinOp>): Expr
    requires |xs| == |ops| + 1
    decreases |ops|
  {
    if ops == [] then OperandTree(xs[0])
    else
      var i := Loosest(ops);
      Binary(ops[i], ChainTree(xs[..i + 1], ops[..i]), ChainTree(xs[i + 1..], ops[i + 1..]))
  }

  // ----- the tree prints as the chain -----

  lemma Classes(op: BinOp)
    ensures OpLevel(op) == Class(op) && OpToken(op) == Sign(op) && 1 <= Class(op) <= 6
  {
  }

  lemma {:induction false} MembersRender(leaf: Token, members: seq<string>)
    requires Operand([], leaf, members).Valid()
    ensures ExprLevel(MemberTree(leaf, members)) >= 8
    ensures Render(MemberTree(leaf, members)) == MemberTokens(leaf, members)
    decreases |members|
  {
    if members != [] { MembersRender(leaf, members[..|members| - 1]); }
  }

  lemma {:induction false} OperandRenders(x: Operand)
    requires x.Valid()
    ensures ExprLevel(OperandTree(x)) >= 7 && Render(OperandTree(x)) == OperandTokens(x)
    decreases |x.prefixes|
  {
    if x.prefixes == [] {
      MembersRender(x.leaf, x.members);
    } else {
      OperandRenders(x.(prefixes := x.prefixes[1..]));
    }
  }

  lemma {:induction false} ChainSplits(xs: seq<Operand>, ops: seq<BinOp>, i: nat)
    requires |xs| == |ops| + 1 && i < |ops|
    ensures ChainTokens(xs, ops)
            == ChainTokens(xs[..i + 1], ops[..i]) + ([Sign(ops[i])] + ChainTokens(xs[i + 1..], ops[i + 1..]))
    decreases i
  {
    hide OperandTokens;
    if i == 0 {
      assert xs[..1] == [xs[0]] && ops[..0] == [];
    } else {
      ChainSplits(xs[1..], ops[1..], i - 1);
      assert xs[1..][..i] == xs[1..i + 1] && ops[1..][..i - 1] == ops[1..i];
      assert xs[1..][i..] == xs[i + 1..] && ops[1..][i..] == ops[i + 1..];
      assert xs[..i + 1][1..] == xs[1..i + 1] && ops[..i][1..] == ops[1..i];
      Regroup3(OperandTokens(xs[0]), [Sign(ops[0])], ChainTokens(xs[1..i + 1], ops[1..i]),
               [Sign(ops[i])] + ChainTokens(xs[i + 1..], ops[i + 1..]));
    }
  }

  lemma Regroup3(a: seq<Token>, b: seq<Token>, c: seq<Token>, d: seq<Token>)
    ensures a + (b + (c + d)) == (a + (b + c)) + d
  {
  }

  ghost predicate AllValid(xs: seq<Operand>) { forall i :: 0 <= i < |xs| ==> xs[i].Valid() }

  lemma {:induction false} ChainRenders(xs: seq<Operand>, ops: seq<BinOp>, k: Level)
    requires |xs| == |ops| + 1 && AllValid(xs) && k <= 7 && forall op :: op in ops ==> k <= Class(op)
    ensures RenderAt(ChainTree(xs, ops), k) == ChainTokens(xs, ops)
    decreases |ops|
  {
    if ops == [] {
      OperandRenders(xs[0]);
    } else {
      var i := Loosest(ops);
      var left, right := ChainTree(xs[..i + 1], ops[..i]), ChainTree(xs[i + 1..], ops[i + 1..]);
      hide Class, RenderAt;
      Classes(ops[i]);
      Around(ops, i);
      ChainRenders(xs[..i + 1], ops[..i], Class(ops[i]));
      ChainRenders(xs[i + 1..], ops[i + 1..], Class(ops[i]) + 1);
      ChainSplits(xs, ops, i);
      BinaryRenders(ops[i], left, right, k);
    }
  }

  /** What stands on either side of the split. */
  lemma Around(ops: seq<BinOp>, i: nat)
    requires ops != [] && i == Loosest(ops)
    ensures forall op :: op in ops[..i] ==> Class(ops[i]) <= Class(op)
    ensures forall op :: op in ops[i + 1..] ==> Class(ops[i]) + 1 <= Class(op)
  {
    hide Class;
    forall op | op in ops[i + 1..] ensures Class(ops[i]) + 1 <= Class(op) {
      var j :| 0 <= j < |ops[i + 1..]| && ops[i + 1..][j] == op;
      assert ops[i + 1 + j] == op;
    }
  }

  lemma BinaryRenders(op: BinOp, left: Expr, right: Expr, k: Level)
    requires k <= Class(op) <= 6
    ensures RenderAt(Binary(op, left, right), k)
            == RenderAt(left, Class(op)) + ([Sign(op)] + RenderAt(right, Class(op) + 1))
  {
    Classes(op);
    hide Class, Sign;
  }

  /** No token that can go on with an expression. */
  predicate Closes(t: Token) {
    t == TEnd || t == TSemi || t == TComma || t == TRParen || t == TLBrace || t == TRBrace
  }

  lemma ClosesStops(t: Token)
    requires Closes(t)
    ensures Stops(0, t)
  {
  }

  /** Any chain of operands and operators, of any length, parses into the grouping given by the
      classes: tighter classes first, and from the left within a class. */
  lemma ChainGroups(xs: seq<Operand>, ops: seq<BinOp>, rest: seq<Token>)
    requires |xs| == |ops| + 1 && AllValid(xs) && Closes(Head(rest))
    ensures ParseAt(0, ChainTokens(xs, ops) + rest) == Ok(ChainTree(xs, ops), rest)
  {
    hide ChainTokens, ChainTree, ParseAt, RenderAt, Class, Closes, Stops;
    ChainRenders(xs, ops, 0);
    ClosesStops(Head(rest));
    RoundTrip(ChainTree(xs, ops), 0, rest);
  }

  /** Two operators: the second takes the middle operand if and only if its class is the tighter. */
  lemma PairGroups(x: Operand, p: BinOp, y: Operand, q: BinOp, z: Operand, rest: seq<Token>)
    requires x.Valid() && y.Valid() && z.Valid() && Closes(Head(rest))
    ensures var X, Y, Z := OperandTree(x), OperandTree(y), OperandTree(z);
            var toks := OperandTokens(x) + ([Sign(p)] + (OperandTokens(y) + ([Sign(q)] + OperandTokens(z))));
            ParseAt(0, toks + rest)
            == Ok(if Class(q) > Class(p) then Binary(p, X, Binary(q, Y, Z)) else Binary(q, Binary(p, X, Y), Z), rest)
  {
    var xs, ops := [x, y, z], [p, q];
    ChainGroups(xs, ops, rest);
    hide OperandTokens, OperandTree, ParseAt, Class, Sign;
    assert xs[1..] == [y, z] && ops[1..] == [q] && [y, z][1..] == [z] && [q][1..] == [];
    assert ChainTokens([z], []) == OperandTokens(z);
    assert ChainTokens([y, z], [q]) == OperandTokens(y) + ([Sign(q)] + OperandTokens(z));
    assert ops[..1] == [p];
    PairTree(x, p, y, q, z);
  }

  lemma PairTree(x: Operand, p: BinOp, y: Operand, q: BinOp, z: Operand)
    ensures var X, Y, Z := OperandTree(x), OperandTree(y), OperandTree(z);
            ChainTree([x, y, z], [p, q])
            == if Class(q) > Class(p) then Binary(p, X, Binary(q, Y, Z)) else Binary(q, Binary(p, X, Y), Z)
  {
    hide OperandTree, Class;
    var i := Loosest([p, q]);
    OneTree(x, p, y);
    OneTree(y, q, z);
    assert [p, q][0] == p && [p, q][1] == q;
    if i == 0 {
      assert [x, y, z][..1] == [x] && [x, y, z][1..] == [y, z] && [p, q][..0] == [] && [p, q][1..] == [q];
    } else {
      assert [x, y, z][..2] == [x, y] && [x, y, z][2..] == [z] && [p, q][..1] == [p] && [p, q][2..] == [];
    }
  }

  lemma OneTree(x: Operand, p: BinOp, y: Operand)
    ensures ChainTree([x, y], [p]) == Binary(p, OperandTree(x), OperandTree(y))
  {
    hide OperandTree, Class;
    assert [x, y][..1] == [x] && [x, y][1..] == [y] && [p][..0] == [] && [p][1..] == [];
  }

  /** Assignment groups to the right and takes everything after it. */
  lemma AssignmentGroups(name: string, toks: seq<Token>, e: Expr, rest: seq<Token>)
    requires ParseAt(0, toks) == Ok(e, rest)
    ensures ParseAt(0, [TIdent(name), TEq] + toks) == Ok(Assign(name, e), rest)
  {
    var after := [TEq] + toks;
    assert [TIdent(name), TEq] + toks == [TIdent(name)] + after;
    assert Stops(1, TEq);
    RoundTrip(Ident(name), 1, after);
    assert RenderAt(Ident(name), 1) == [TIdent(name)];
    hide ParseAt, RenderAt;
    AtAssign([TIdent(name)] + after, Ident(name), toks, e, rest);
  }
}
