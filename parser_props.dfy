/** Properties of the parser (compiler/parser). The expression lemmas
    follow the parser through token sequences of a known shape, built from
    operands: an identifier that is not a call, or a literal. */
module ParserProps {
  import opened Wrappers
  import opened Ast
  import TT = TokenTypes
  import Errors
  import opened Parsing

  // ------------------------------------------------------------ operands

  /** A token that parse_primary turns into a leaf in one step. */
  predicate OperandAt(toks: seq<TT.Token>, i: nat)
    requires TokensOk(toks)
  {
    && i + 1 < |toks|
    && ((toks[i].ty == TT.Id && toks[i + 1].ty != TT.LParen) || (IsConstant(toks[i].ty) && ConstantAt(toks, i).Ok?))
  }

  /** The leaf an operand is parsed into. */
  function Leaf(toks: seq<TT.Token>, i: nat): Expr
    requires TokensOk(toks) && OperandAt(toks, i)
  {
    if toks[i].ty == TT.Id then NewExpr(toks[i].loc, IdExpr(toks[i].lexeme)) else ConstantAt(toks, i).value.0
  }

  /** The node parse_binary_expr builds for the operator token op. */
  function Bin(op: TT.Token, lhs: Expr, rhs: Expr): Expr
    requires IsBinaryOpToken(op.ty)
  {
    NewExpr(op.loc, BinaryExpr(BinaryOpOfType(op.ty).value, lhs, rhs))
  }

  /** Advancing over any token but Eof moves to the next one. */
  lemma NextOf(toks: seq<TT.Token>, q: nat)
    requires TokensOk(toks) && q < |toks| && toks[q].ty != TT.Eof
    ensures Next(toks, q) == q + 1
  {
  }

  /** Neither operators nor operands are Eof. */
  lemma NotEof(toks: seq<TT.Token>, q: nat)
    requires TokensOk(toks) && q < |toks|
    requires IsBinaryOpToken(toks[q].ty) || toks[q].ty == TT.Id || IsConstant(toks[q].ty) || IsUnaryOp(toks[q].ty)
    ensures toks[q].ty != TT.Eof && q + 1 < |toks|
  {
  }

  /** An operand is a primary expression on its own. */
  lemma PrimaryOfOperand(toks: seq<TT.Token>, i: nat)
    requires TokensOk(toks) && OperandAt(toks, i)
    ensures PrimaryAt(toks, i) == Ok((Leaf(toks, i), i + 1))
  {
    NextOf(toks, i);
  }

  /** parse_expr is parse_primary followed by parse_binary_expr(0). */
  lemma ExprOfPrimary(toks: seq<TT.Token>, p: nat, e: Expr, q: nat)
    requires TokensOk(toks) && p < |toks| && PrimaryAt(toks, p) == Ok((e, q))
    ensures ExprAt(toks, p) == BinaryAt(toks, q, 0, e)
  {
  }

  /** An operand followed by a token of no precedence is a whole
      expression. */
  lemma ExprOfOperand(toks: seq<TT.Token>, i: nat)
    requires TokensOk(toks) && OperandAt(toks, i) && Precedence(toks[i + 1].ty) < 0
    ensures ExprAt(toks, i) == Ok((Leaf(toks, i), i + 1))
  {
    PrimaryOfOperand(toks, i);
    ExprOfPrimary(toks, i, Leaf(toks, i), i + 1);
    BinaryStop(toks, i + 1, 0, Leaf(toks, i));
  }

  // ------------------------------------------------------------ precedence

  /** Every token with a level is an operator, so the "Invalid binary
      operator" error cannot be raised. */
  lemma LevelsAreOperators(t: TT.TokenType)
    ensures Precedence(t) >= 0 ==> IsBinaryOpToken(t)
  {
  }

  /** The loop of parse_binary_expr returns lhs at a token that binds less
      tightly than its precedence. */
  lemma BinaryStop(toks: seq<TT.Token>, p: nat, prec: int, lhs: Expr)
    requires TokensOk(toks) && p < |toks| && prec >= 0 && Precedence(toks[p].ty) < prec
    ensures BinaryAt(toks, p, prec, lhs) == Ok((lhs, p))
  {
  }

  /** `op x` then a token below prec: one turn of the loop. */
  lemma OneLink(toks: seq<TT.Token>, p: nat, prec: int, lhs: Expr)
    requires TokensOk(toks) && p + 2 < |toks| && prec >= 0
    requires IsBinaryOpToken(toks[p].ty) && prec <= Precedence(toks[p].ty)
    requires OperandAt(toks, p + 1) && Precedence(toks[p + 2].ty) < prec
    ensures BinaryAt(toks, p, prec, lhs) == Ok((Bin(toks[p], lhs, Leaf(toks, p + 1)), p + 2))
  {
    PrimaryOfOperand(toks, p + 1);
    BinaryStep(toks, p, prec, lhs, Leaf(toks, p + 1), p + 2);
    BinaryStop(toks, p + 2, prec, Bin(toks[p], lhs, Leaf(toks, p + 1)));
  }

  /** One turn of the loop when the operator after the right operand binds
      no more tightly: lhs becomes the node. */
  lemma BinaryStep(toks: seq<TT.Token>, p: nat, prec: int, lhs: Expr, rhs: Expr, q: nat)
    requires TokensOk(toks) && p + 1 < |toks| && prec >= 0
    requires IsBinaryOpToken(toks[p].ty) && prec <= Precedence(toks[p].ty)
    requires PrimaryAt(toks, p + 1) == Ok((rhs, q)) && Precedence(toks[q].ty) <= Precedence(toks[p].ty)
    ensures BinaryAt(toks, p, prec, lhs) == BinaryAt(toks, q, prec, Bin(toks[p], lhs, rhs))
  {
    NotEof(toks, p);
    NextOf(toks, p);
  }

  /** One turn of the loop when the operator after the right operand binds
      more tightly: the right operand first takes those operators. */
  lemma BinaryClimb(toks: seq<TT.Token>, p: nat, prec: int, lhs: Expr, rhs: Expr, q: nat, rhs2: Expr, q2: nat)
    requires TokensOk(toks) && p + 1 < |toks| && prec >= 0
    requires IsBinaryOpToken(toks[p].ty) && prec <= Precedence(toks[p].ty)
    requires PrimaryAt(toks, p + 1) == Ok((rhs, q)) && Precedence(toks[q].ty) > Precedence(toks[p].ty)
    requires BinaryAt(toks, q, Precedence(toks[p].ty) + 1, rhs) == Ok((rhs2, q2))
    ensures BinaryAt(toks, p, prec, lhs) == BinaryAt(toks, q2, prec, Bin(toks[p], lhs, rhs2))
  {
    NotEof(toks, p);
    NextOf(toks, p);
  }

  /** '%' ends a binary expression: it is never consumed, so `a % b` as a
      statement stops at the '%'. */
  lemma ModuloIsNotParsed(toks: seq<TT.Token>, p: nat)
    requires TokensOk(toks) && OperandAt(toks, p) && toks[p + 1].ty == TT.Percent
    ensures ExprAt(toks, p) == Ok((Leaf(toks, p), p + 1))
    ensures ExprStmtAt(toks, p) == Err(ErrorAt(toks, p + 1, StmtEndMsg))
  {
    ExprOfOperand(toks, p);
  }

  /** `op1 x1 op2 x2 … opn xn` from p, then a token of lower precedence than
      prec; each operator has at least precedence prec and at most that of
      the operator before it (the first at most bound). */
  predicate LooseningChain(toks: seq<TT.Token>, p: nat, n: nat, prec: int, bound: int)
    requires TokensOk(toks)
    decreases n
  {
    && p < |toks|
    && if n == 0 then Precedence(toks[p].ty) < prec
       else
         && IsBinaryOpToken(toks[p].ty) && prec <= Precedence(toks[p].ty) <= bound
         && OperandAt(toks, p + 1)
         && LooseningChain(toks, p + 2, n - 1, prec, Precedence(toks[p].ty))
  }

  /** The left-nested tree of such a chain, lhs at the bottom left. */
  function FoldLeft(toks: seq<TT.Token>, p: nat, n: nat, prec: int, bound: int, lhs: Expr): Expr
    requires TokensOk(toks) && LooseningChain(toks, p, n, prec, bound)
    decreases n
  {
    if n == 0 then lhs
    else FoldLeft(toks, p + 2, n - 1, prec, Precedence(toks[p].ty), Bin(toks[p], lhs, Leaf(toks, p + 1)))
  }

  /** A chain starts with a token that binds no more tightly than bound,
      or at its end with one that binds less tightly than prec. */
  lemma ChainHead(toks: seq<TT.Token>, p: nat, n: nat, prec: int, bound: int)
    requires TokensOk(toks) && LooseningChain(toks, p, n, prec, bound) && prec <= bound
    ensures Precedence(toks[p].ty) <= bound
  {
  }

  /** The first link of a non-empty chain. */
  lemma ChainStep(toks: seq<TT.Token>, p: nat, n: nat, prec: int, bound: int, lhs: Expr)
    requires TokensOk(toks) && LooseningChain(toks, p, n, prec, bound) && n > 0
    ensures p + 2 < |toks| && IsBinaryOpToken(toks[p].ty) && prec <= Precedence(toks[p].ty) && OperandAt(toks, p + 1)
    ensures LooseningChain(toks, p + 2, n - 1, prec, Precedence(toks[p].ty))
    ensures Precedence(toks[p + 2].ty) <= Precedence(toks[p].ty)
    ensures FoldLeft(toks, p, n, prec, bound, lhs)
         == FoldLeft(toks, p + 2, n - 1, prec, Precedence(toks[p].ty), Bin(toks[p], lhs, Leaf(toks, p + 1)))
  {
    ChainHead(toks, p + 2, n - 1, prec, Precedence(toks[p].ty));
  }

  /** The loop of parse_binary_expr over the first link of a chain. */
  lemma FoldStep(toks: seq<TT.Token>, p: nat, n: nat, prec: int, bound: int, lhs: Expr, end: nat)
    requires TokensOk(toks) && prec >= 0 && LooseningChain(toks, p, n, prec, bound) && n > 0
    requires p + 2 < |toks| && OperandAt(toks, p + 1) && LooseningChain(toks, p + 2, n - 1, prec, Precedence(toks[p].ty))
    requires BinaryAt(toks, p + 2, prec, Bin(toks[p], lhs, Leaf(toks, p + 1)))
          == Ok((FoldLeft(toks, p + 2, n - 1, prec, Precedence(toks[p].ty), Bin(toks[p], lhs, Leaf(toks, p + 1))), end))
    ensures BinaryAt(toks, p, prec, lhs) == Ok((FoldLeft(toks, p, n, prec, bound, lhs), end))
  {
    ChainStep(toks, p, n, prec, bound, lhs);
    PrimaryOfOperand(toks, p + 1);
    BinaryStep(toks, p, prec, lhs, Leaf(toks, p + 1), p + 2);
  }

  /** parse_binary_expr associates to the left along operators of equal or
      decreasing precedence: it loops, rebinding lhs, and never recurses. */
  lemma LooseningFoldsLeft(toks: seq<TT.Token>, p: nat, n: nat, prec: int, bound: int, lhs: Expr)
    requires TokensOk(toks) && prec >= 0 && LooseningChain(toks, p, n, prec, bound)
    ensures p + 2 * n < |toks|
    ensures BinaryAt(toks, p, prec, lhs) == Ok((FoldLeft(toks, p, n, prec, bound, lhs), p + 2 * n))
  {
    FoldsTo(toks, p, n, prec, bound, lhs, p + 2 * n);
  }

  /** LooseningFoldsLeft, with the end of the chain named. */
  lemma {:induction false} FoldsTo(toks: seq<TT.Token>, p: nat, n: nat, prec: int, bound: int, lhs: Expr, end: nat)
    requires TokensOk(toks) && prec >= 0 && LooseningChain(toks, p, n, prec, bound) && end == p + 2 * n
    ensures end < |toks|
    ensures BinaryAt(toks, p, prec, lhs) == Ok((FoldLeft(toks, p, n, prec, bound, lhs), end))
    decreases n, 1
  {
    if n == 0 {
      BinaryStop(toks, p, prec, lhs);
    } else {
      FoldsToStep(toks, p, n, prec, bound, lhs, end);
    }
  }

  /** The inductive step of FoldsTo: the first operator and operand, then
      the rest of the chain. */
  lemma {:induction false} FoldsToStep(toks: seq<TT.Token>, p: nat, n: nat, prec: int, bound: int, lhs: Expr, end: nat)
    requires TokensOk(toks) && prec >= 0 && LooseningChain(toks, p, n, prec, bound) && end == p + 2 * n && n > 0
    ensures end < |toks|
    ensures BinaryAt(toks, p, prec, lhs) == Ok((FoldLeft(toks, p, n, prec, bound, lhs), end))
    decreases n, 0
  {
    ChainStep(toks, p, n, prec, bound, lhs);
    FoldsTo(toks, p + 2, n - 1, prec, Precedence(toks[p].ty), Bin(toks[p], lhs, Leaf(toks, p + 1)), end);
    FoldStep(toks, p, n, prec, bound, lhs, end);
  }

  /** An operand followed by a loosening chain is the left fold of the
      chain: parse_expr is parse_primary then parse_binary_expr(0). The
      chain starts at `first`, after the operand `lhs`, and ends at
      `end`. */
  lemma OperandChainExpr(toks: seq<TT.Token>, i: nat, n: nat, first: nat, lhs: Expr, end: nat)
    requires TokensOk(toks) && OperandAt(toks, i) && first == i + 1 && lhs == Leaf(toks, i)
    requires LooseningChain(toks, first, n, 0, 50) && end == first + 2 * n
    ensures end < |toks|
    ensures ExprAt(toks, i) == Ok((FoldLeft(toks, first, n, 0, 50, lhs), end))
  {
    PrimaryOfOperand(toks, i);
    ExprOfPrimary(toks, i, lhs, first);
    FoldsTo(toks, first, n, 0, 50, lhs, end);
  }

  /** `x op1 y op2 z` with op2 binding no more tightly than op1 is
      (x op1 y) op2 z: equal precedence associates to the left. */
  lemma LeftAssociative(toks: seq<TT.Token>, p: nat)
    requires TokensOk(toks) && p + 5 < |toks|
    requires OperandAt(toks, p) && OperandAt(toks, p + 2) && OperandAt(toks, p + 4)
    requires IsBinaryOpToken(toks[p + 1].ty) && IsBinaryOpToken(toks[p + 3].ty)
    requires 0 <= Precedence(toks[p + 3].ty) <= Precedence(toks[p + 1].ty)
    requires Precedence(toks[p + 5].ty) < 0
    ensures ExprAt(toks, p) == Ok((Bin(toks[p + 3], Bin(toks[p + 1], Leaf(toks, p), Leaf(toks, p + 2)), Leaf(toks, p + 4)), p + 5))
  {
    var xy := Bin(toks[p + 1], Leaf(toks, p), Leaf(toks, p + 2));
    PrimaryOfOperand(toks, p);
    ExprOfPrimary(toks, p, Leaf(toks, p), p + 1);
    PrimaryOfOperand(toks, p + 2);
    BinaryStep(toks, p + 1, 0, Leaf(toks, p), Leaf(toks, p + 2), p + 3);
    OneLink(toks, p + 3, 0, xy);
  }

  /** The binary part of TighterOperatorNests: after x, the loop of
      parse_binary_expr at level 0 reads op1, then climbs for y op2 z. */
  lemma TighterBinary(toks: seq<TT.Token>, p: nat)
    requires TokensOk(toks) && p + 5 < |toks|
    requires OperandAt(toks, p) && OperandAt(toks, p + 2) && OperandAt(toks, p + 4)
    requires IsBinaryOpToken(toks[p + 1].ty) && IsBinaryOpToken(toks[p + 3].ty)
    requires 0 <= Precedence(toks[p + 1].ty) < Precedence(toks[p + 3].ty)
    requires Precedence(toks[p + 5].ty) < 0
    ensures BinaryAt(toks, p + 1, 0, Leaf(toks, p))
         == Ok((Bin(toks[p + 1], Leaf(toks, p), Bin(toks[p + 3], Leaf(toks, p + 2), Leaf(toks, p + 4))), p + 5))
  {
    var tp := Precedence(toks[p + 1].ty);
    var yz := Bin(toks[p + 3], Leaf(toks, p + 2), Leaf(toks, p + 4));
    PrimaryOfOperand(toks, p + 2);
    OneLink(toks, p + 3, tp + 1, Leaf(toks, p + 2));
    BinaryClimb(toks, p + 1, 0, Leaf(toks, p), Leaf(toks, p + 2), p + 3, yz, p + 5);
    BinaryStop(toks, p + 5, 0, Bin(toks[p + 1], Leaf(toks, p), yz));
  }

  /** `x op1 y op2 z` with op2 binding more tightly than op1 is
      x op1 (y op2 z): parse_binary_expr recurses for the right operand.
      "2 + 4 * 3" is an addition. */
  lemma TighterOperatorNests(toks: seq<TT.Token>, p: nat)
    requires TokensOk(toks) && p + 5 < |toks|
    requires OperandAt(toks, p) && OperandAt(toks, p + 2) && OperandAt(toks, p + 4)
    requires IsBinaryOpToken(toks[p + 1].ty) && IsBinaryOpToken(toks[p + 3].ty)
    requires 0 <= Precedence(toks[p + 1].ty) < Precedence(toks[p + 3].ty)
    requires Precedence(toks[p + 5].ty) < 0
    ensures ExprAt(toks, p) == Ok((Bin(toks[p + 1], Leaf(toks, p), Bin(toks[p + 3], Leaf(toks, p + 2), Leaf(toks, p + 4))), p + 5))
  {
    PrimaryOfOperand(toks, p);
    ExprOfPrimary(toks, p, Leaf(toks, p), p + 1);
    TighterBinary(toks, p);
  }

  /** A unary operator applies to the whole expression after it, binary
      operators included: parse_unary calls parse_expr, so `- x op y` is
      -(x op y). */
  lemma UnaryTakesWholeExpr(toks: seq<TT.Token>, p: nat, e: Expr, q: nat)
    requires TokensOk(toks) && p + 1 < |toks| && IsUnaryOp(toks[p].ty)
    requires ExprAt(toks, p + 1) == Ok((e, q))
    ensures ExprAt(toks, p) == Ok((NewExpr(toks[p].loc, UnaryExpr(UnaryOpOfType(toks[p].ty).value, e)), q))
  {
    var u := NewExpr(toks[p].loc, UnaryExpr(UnaryOpOfType(toks[p].ty).value, e));
    NotEof(toks, p);
    NextOf(toks, p);
    UnaryOfExpr(toks, p, e, q);
    PrimaryOfUnary(toks, p, u, q);
    ExprOfPrimary(toks, p, u, q);
    BinaryStop(toks, q, 0, u);
  }

  /** parse_unary: the operator applied to the expression after it. */
  lemma UnaryOfExpr(toks: seq<TT.Token>, p: nat, e: Expr, q: nat)
    requires TokensOk(toks) && p < |toks| && IsUnaryOp(toks[p].ty)
    requires ExprAt(toks, Next(toks, p)) == Ok((e, q))
    ensures UnaryAt(toks, p) == Ok((NewExpr(toks[p].loc, UnaryExpr(UnaryOpOfType(toks[p].ty).value, e)), q))
  {
  }

  lemma PrimaryOfUnary(toks: seq<TT.Token>, p: nat, u: Expr, q: nat)
    requires TokensOk(toks) && p < |toks| && IsUnaryOp(toks[p].ty) && UnaryAt(toks, p) == Ok((u, q))
    ensures PrimaryAt(toks, p) == Ok((u, q))
  {
  }

  // ------------------------------------------------------------ calls

  /** `x1 , x2 , … , xn )` from p, n >= 1 operands. */
  predicate OperandArgs(toks: seq<TT.Token>, p: nat, n: nat)
    requires TokensOk(toks)
    decreases n
  {
    && n >= 1 && OperandAt(toks, p)
    && if n == 1 then toks[p + 1].ty == TT.RParen
       else toks[p + 1].ty == TT.Comma && OperandArgs(toks, p + 2, n - 1)
  }

  function Leaves(toks: seq<TT.Token>, p: nat, n: nat): seq<Expr>
    requires TokensOk(toks) && OperandArgs(toks, p, n)
    decreases n
  {
    [Leaf(toks, p)] + (if n == 1 then [] else Leaves(toks, p + 2, n - 1))
  }

  /** The leaves appended to acc one at a time, as the argument loop
      does. */
  function LeavesAfter(toks: seq<TT.Token>, p: nat, n: nat, acc: seq<Expr>): seq<Expr>
    requires TokensOk(toks) && OperandArgs(toks, p, n)
    decreases n
  {
    if n == 1 then acc + [Leaf(toks, p)] else LeavesAfter(toks, p + 2, n - 1, acc + [Leaf(toks, p)])
  }

  /** Appending an element and then a sequence is appending their
      concatenation. */
  lemma AppendCons(acc: seq<Expr>, x: Expr, rest: seq<Expr>)
    ensures acc + [x] + rest == acc + ([x] + rest)
  {
  }

  /** Appending one at a time is appending them all. */
  lemma {:induction false} LeavesAfterIs(toks: seq<TT.Token>, p: nat, n: nat, acc: seq<Expr>)
    requires TokensOk(toks) && OperandArgs(toks, p, n)
    ensures LeavesAfter(toks, p, n, acc) == acc + Leaves(toks, p, n)
    decreases n
  {
    var x := Leaf(toks, p);
    if n > 1 {
      var rest := Leaves(toks, p + 2, n - 1);
      assert Leaves(toks, p, n) == [x] + rest;
      assert LeavesAfter(toks, p, n, acc) == LeavesAfter(toks, p + 2, n - 1, acc + [x]);
      LeavesAfterIs(toks, p + 2, n - 1, acc + [x]);
      AppendCons(acc, x, rest);
    }
  }

  /** Appending the leaves one at a time to nothing gives the leaves. */
  lemma LeavesFromEmpty(toks: seq<TT.Token>, p: nat, n: nat)
    requires TokensOk(toks) && OperandArgs(toks, p, n)
    ensures LeavesAfter(toks, p, n, []) == Leaves(toks, p, n)
  {
    LeavesAfterIs(toks, p, n, []);
    AppendNothing(Leaves(toks, p, n));
  }

  lemma AppendNothing(s: seq<Expr>)
    ensures [] + s == s
  {
  }

  /** The argument loop at ')' ends with acc and consumes the ')'. */
  lemma ArgsClose(toks: seq<TT.Token>, p: nat, acc: seq<Expr>)
    requires TokensOk(toks) && p < |toks| && toks[p].ty == TT.RParen
    ensures ArgsAt(toks, p, acc) == Ok((acc, p + 1))
  {
    NextOf(toks, p);
  }

  /** An argument followed by ')' is the last one. */
  lemma ArgsLast(toks: seq<TT.Token>, p: nat, acc: seq<Expr>, a: Expr, q: nat, after: nat)
    requires TokensOk(toks) && p < |toks| && toks[p].ty != TT.RParen
    requires ExprAt(toks, p) == Ok((a, q)) && toks[q].ty == TT.RParen && after == Next(toks, q)
    ensures ArgsAt(toks, p, acc) == Ok((acc + [a], after))
  {
  }

  /** An argument followed by ',' is appended, and the loop goes on after
      the ','. */
  lemma ArgsComma(toks: seq<TT.Token>, p: nat, acc: seq<Expr>, a: Expr, q: nat)
    requires TokensOk(toks) && p < |toks| && toks[p].ty != TT.RParen
    requires ExprAt(toks, p) == Ok((a, q)) && toks[q].ty == TT.Comma
    ensures ArgsAt(toks, p, acc) == ArgsAt(toks, Next(toks, q), acc + [a])
  {
  }

  /** ArgsComma, with the position after the ',' written out. */
  lemma ArgsNext(toks: seq<TT.Token>, p: nat, acc: seq<Expr>, a: Expr, q: nat, next: nat)
    requires TokensOk(toks) && p < |toks| && toks[p].ty != TT.RParen
    requires ExprAt(toks, p) == Ok((a, q)) && toks[q].ty == TT.Comma && next == q + 1
    ensures next < |toks| && ArgsAt(toks, p, acc) == ArgsAt(toks, next, acc + [a])
  {
    ArgsComma(toks, p, acc, a, q);
    NextOf(toks, q);
  }

  /** An argument followed by anything but ',' or ')' is an error at that
      token. */
  lemma MissingArgSeparator(toks: seq<TT.Token>, p: nat, acc: seq<Expr>, a: Expr, q: nat)
    requires TokensOk(toks) && p < |toks| && toks[p].ty != TT.RParen
    requires ExprAt(toks, p) == Ok((a, q)) && toks[q].ty != TT.Comma && toks[q].ty != TT.RParen
    ensures ArgsAt(toks, p, acc) == Err(ErrorAt(toks, q, ArgSeparatorMsg))
  {
  }

  /** The argument loop collects comma-separated arguments in order and
      consumes the closing ')'. */
  lemma ArgsInOrder(toks: seq<TT.Token>, p: nat, n: nat, acc: seq<Expr>)
    requires TokensOk(toks) && OperandArgs(toks, p, n)
    ensures p + 2 * n < |toks|
    ensures ArgsAt(toks, p, acc) == Ok((LeavesAfter(toks, p, n, acc), p + 2 * n))
  {
    ArgsTo(toks, p, n, acc, p + 2 * n);
  }

  /** ArgsInOrder, with the position after ')' named. */
  lemma {:induction false} ArgsTo(toks: seq<TT.Token>, p: nat, n: nat, acc: seq<Expr>, end: nat)
    requires TokensOk(toks) && OperandArgs(toks, p, n) && end == p + 2 * n
    ensures end < |toks|
    ensures ArgsAt(toks, p, acc) == Ok((LeavesAfter(toks, p, n, acc), end))
    decreases n, 1
  {
    ExprOfOperand(toks, p);
    if n == 1 {
      NextOf(toks, p + 1);
      ArgsLast(toks, p, acc, Leaf(toks, p), p + 1, end);
    } else {
      ArgsToStep(toks, p, n, acc, end);
    }
  }

  /** The inductive step of ArgsTo: one argument and its comma, then the
      rest. */
  lemma {:induction false} ArgsToStep(toks: seq<TT.Token>, p: nat, n: nat, acc: seq<Expr>, end: nat)
    requires TokensOk(toks) && OperandArgs(toks, p, n) && end == p + 2 * n && n > 1
    ensures end < |toks|
    ensures ArgsAt(toks, p, acc) == Ok((LeavesAfter(toks, p, n, acc), end))
    decreases n, 0
  {
    ExprOfOperand(toks, p);
    ArgsNext(toks, p, acc, Leaf(toks, p), p + 1, p + 2);
    ArgsTo(toks, p + 2, n - 1, acc + [Leaf(toks, p)], end);
  }

  /** parse_fun_call: '(' then the argument loop from an empty list; the
      call is located at the callee. */
  lemma CallOfArgs(toks: seq<TT.Token>, p: nat, id: TT.Token, args: seq<Expr>, q: nat)
    requires TokensOk(toks) && p < |toks| && toks[p].ty == TT.LParen
    requires ArgsAt(toks, Next(toks, p), []) == Ok((args, q))
    ensures FunCallAt(toks, p, id) == Ok((NewExpr(id.loc, FunCall(id.lexeme, args)), q))
  {
  }

  /** `f(x1, …, xn)`: a call of f with the arguments in order. The
      operands start at `first`, the token after the '(', their leaves are
      `args`, and the call ends at `end`, after the ')'. */
  lemma CallOfOperands(toks: seq<TT.Token>, p: nat, n: nat, id: TT.Token, first: nat, args: seq<Expr>, end: nat)
    requires TokensOk(toks) && p < |toks| && toks[p].ty == TT.LParen
    requires first == p + 1 && OperandArgs(toks, first, n)
    requires args == Leaves(toks, first, n) && end == first + 2 * n
    ensures FunCallAt(toks, p, id) == Ok((NewExpr(id.loc, FunCall(id.lexeme, args)), end))
  {
    NextOf(toks, p);
    ArgsInOrder(toks, first, n, []);
    LeavesFromEmpty(toks, first, n);
    CallOfArgs(toks, p, id, args, end);
  }

  /** `f()`: a call without arguments. */
  lemma EmptyCall(toks: seq<TT.Token>, p: nat, id: TT.Token)
    requires TokensOk(toks) && p + 1 < |toks| && toks[p].ty == TT.LParen && toks[p + 1].ty == TT.RParen
    ensures FunCallAt(toks, p, id) == Ok((NewExpr(id.loc, FunCall(id.lexeme, [])), p + 2))
  {
    NextOf(toks, p);
    ArgsClose(toks, p + 1, []);
    CallOfArgs(toks, p, id, [], p + 2);
  }

  // ------------------------------------------------------------ blocks, if, while

  /** parse_primary on `if`. */
  lemma PrimaryOfIf(toks: seq<TT.Token>, p: nat)
    requires TokensOk(toks) && p < |toks| && toks[p].ty == TT.If
    ensures PrimaryAt(toks, p) == IfElseAt(toks, p)
  {
  }

  /** parse_primary on '{'. */
  lemma PrimaryOfBlock(toks: seq<TT.Token>, p: nat)
    requires TokensOk(toks) && p < |toks| && toks[p].ty == TT.LCurly
    ensures PrimaryAt(toks, p) == BlockAt(toks, p)
  {
  }

  /** The statement loop of a block ends at '}', after any newlines, and
      consumes it. */
  lemma BodyClose(toks: seq<TT.Token>, q: nat, acc: seq<Stmt>)
    requires TokensOk(toks) && q < |toks| && toks[SkipNewLinesAt(toks, q)].ty == TT.RCurly
    ensures BodyAt(toks, q, acc) == Ok((acc, SkipNewLinesAt(toks, q) + 1))
  {
    NextOf(toks, SkipNewLinesAt(toks, q));
  }

  /** Any other token starts the next statement of the block, which is
      appended to those before it. */
  lemma BodyStmt(toks: seq<TT.Token>, q: nat, acc: seq<Stmt>, s: Stmt, q2: nat)
    requires TokensOk(toks) && q < |toks| && toks[SkipNewLinesAt(toks, q)].ty != TT.RCurly
    requires StmtAt(toks, SkipNewLinesAt(toks, q)) == Ok((Some(s), q2))
    ensures BodyAt(toks, q, acc) == BodyAt(toks, q2, acc + [s])
  {
  }

  /** A block still open at the end of the input: parse_stmt returns no
      statement there, which the loop does not handle. */
  lemma UnclosedBlock(toks: seq<TT.Token>, q: nat, acc: seq<Stmt>)
    requires TokensOk(toks) && q < |toks| && toks[SkipNewLinesAt(toks, q)].ty == TT.Eof
    ensures BodyAt(toks, q, acc) == Err(Errors.Internal(BlockAtEofMsg))
  {
  }

  /** `{` newlines `}` is a block with no statements; "{}" is one. */
  lemma EmptyBlock(toks: seq<TT.Token>, p: nat)
    requires TokensOk(toks) && p + 1 < |toks| && toks[p].ty == TT.LCurly
    requires toks[SkipNewLinesAt(toks, p + 1)].ty == TT.RCurly
    ensures BlockAt(toks, p) == Ok((NewExpr(toks[p].loc, BlockExpr([], None)), SkipNewLinesAt(toks, p + 1) + 1))
  {
    NextOf(toks, p);
    BodyClose(toks, p + 1, []);
  }

  /** `if c then b` with no `else` after the newlines that follow b: the
      newlines are consumed and the else branch is absent. */
  lemma IfWithoutElse(toks: seq<TT.Token>, p: nat, c: Expr, qc: nat, b: Expr, qb: nat)
    requires TokensOk(toks) && p < |toks| && toks[p].ty == TT.If
    requires ExprAt(toks, Next(toks, p)) == Ok((c, qc)) && toks[qc].ty == TT.Then
    requires ExprAt(toks, SkipNewLinesAt(toks, Next(toks, qc))) == Ok((b, qb))
    requires toks[SkipNewLinesAt(toks, qb)].ty != TT.Else
    ensures IfElseAt(toks, p) == Ok((NewExpr(toks[p].loc, IfElseExpr(c, b, None)), SkipNewLinesAt(toks, qb)))
  {
  }

  /** `if c then b else e`, with newlines allowed before and after `else`. */
  lemma IfWithElse(toks: seq<TT.Token>, p: nat, c: Expr, qc: nat, b: Expr, qb: nat, e: Expr, qe: nat)
    requires TokensOk(toks) && p < |toks| && toks[p].ty == TT.If
    requires ExprAt(toks, Next(toks, p)) == Ok((c, qc)) && toks[qc].ty == TT.Then
    requires ExprAt(toks, SkipNewLinesAt(toks, Next(toks, qc))) == Ok((b, qb))
    requires toks[SkipNewLinesAt(toks, qb)].ty == TT.Else
    requires ExprAt(toks, SkipNewLinesAt(toks, Next(toks, SkipNewLinesAt(toks, qb)))) == Ok((e, qe))
    ensures IfElseAt(toks, p) == Ok((NewExpr(toks[p].loc, IfElseExpr(c, b, Some(e))), qe))
  {
  }

  /** A missing `then` is reported at the token after the condition. */
  lemma IfNeedsThen(toks: seq<TT.Token>, p: nat, c: Expr, qc: nat)
    requires TokensOk(toks) && p < |toks| && toks[p].ty == TT.If
    requires ExprAt(toks, Next(toks, p)) == Ok((c, qc)) && toks[qc].ty != TT.Then
    ensures IfElseAt(toks, p) == Err(ErrorAt(toks, qc, ExpectMsg(TT.Then)))
  {
  }

  /** Because the if expression consumes the newlines after its branch, an
      if statement without `else` that is followed by a newline and
      another statement does not end where parse_expr_stmt expects it to. */
  lemma IfStmtSwallowsNewline(toks: seq<TT.Token>, p: nat, c: Expr, qc: nat, b: Expr, qb: nat)
    requires TokensOk(toks) && p < |toks| && toks[p].ty == TT.If
    requires ExprAt(toks, Next(toks, p)) == Ok((c, qc)) && toks[qc].ty == TT.Then
    requires ExprAt(toks, SkipNewLinesAt(toks, Next(toks, qc))) == Ok((b, qb))
    requires toks[qb].ty == TT.Newline
    requires var t := toks[SkipNewLinesAt(toks, qb)].ty; t != TT.Else && !IsStmtEnd(t) && Precedence(t) < 0
    ensures ExprStmtAt(toks, p) == Err(ErrorAt(toks, SkipNewLinesAt(toks, qb), StmtEndMsg))
  {
    var u := NewExpr(toks[p].loc, IfElseExpr(c, b, None));
    IfWithoutElse(toks, p, c, qc, b, qb);
    PrimaryOfIf(toks, p);
    ExprOfPrimary(toks, p, u, SkipNewLinesAt(toks, qb));
    BinaryStop(toks, SkipNewLinesAt(toks, qb), 0, u);
  }

  /** parse_while_expr: a body that does not start with '{' is an error at
      the token after the condition. */
  lemma WhileNeedsBrace(toks: seq<TT.Token>, p: nat, c: Expr, qc: nat)
    requires TokensOk(toks) && p < |toks| && toks[p].ty == TT.While
    requires ExprAt(toks, Next(toks, p)) == Ok((c, qc)) && toks[qc].ty != TT.LCurly
    ensures WhileAt(toks, p) == Err(ErrorAt(toks, qc, WhileBodyMsg))
  {
  }

  /** A body that starts with '{' is parsed as a whole expression. */
  lemma WhileOfBody(toks: seq<TT.Token>, p: nat, c: Expr, qc: nat, b: Expr, qb: nat)
    requires TokensOk(toks) && p < |toks| && toks[p].ty == TT.While
    requires ExprAt(toks, Next(toks, p)) == Ok((c, qc)) && toks[qc].ty == TT.LCurly
    requires ExprAt(toks, qc) == Ok((b, qb))
    ensures WhileAt(toks, p) == Ok((NewExpr(toks[p].loc, WhileExpr(c, b)), qb))
  {
  }
}
