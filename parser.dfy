/** The parser (compiler/parser/parser.h, parser.cpp, expr_parser.cpp,
    stmt_parser.cpp).

    The parser reads the lexer's tokens through `cur_tok`. Here the tokens
    are a sequence that ends in Eof and the cursor is a position in it; the
    functions below give, for each parse_* member, the node it builds and
    the position after it, or the SyntaxError it throws, and the class
    `Parser` at the end performs them on a `pos` field, each method proved
    to agree with its function. Every successful parse of an expression or
    a statement consumes at least one token, which is what makes the
    recursive descent terminate. */
module Parsing {
  import opened Wrappers
  import opened Locations
  import opened Ast
  import TT = TokenTypes
  import Errors

  /** A token sequence as the lexer delivers it: it ends in Eof. */
  predicate TokensOk(toks: seq<TT.Token>) {
    |toks| >= 1 && toks[|toks| - 1].ty == TT.Eof
  }

  /** advance: the next token; at the final Eof the cursor stays. */
  function Next(toks: seq<TT.Token>, p: nat): (q: nat)
    requires TokensOk(toks) && p < |toks|
    ensures q < |toks|
    ensures toks[p].ty != TT.Eof ==> q == p + 1
  {
    if p + 1 < |toks| then p + 1 else p
  }

  /** log_error: a SyntaxError at the current token. */
  function ErrorAt(toks: seq<TT.Token>, p: nat, msg: string): Errors.Error
    requires p < |toks|
  {
    Errors.Syntax(msg, toks[p].loc)
  }

  /** The message of expect(t). */
  function ExpectMsg(t: TT.TokenType): string {
    "Expected " + TT.StrOfType(t)
  }

  /** expect(t, msg): one token of type t is consumed, anything else is a
      SyntaxError with message msg at that token. */
  function ExpectAt(toks: seq<TT.Token>, p: nat, t: TT.TokenType, msg: string): (r: Result<nat, Errors.Error>)
    requires TokensOk(toks) && p < |toks|
    ensures r.Ok? <==> toks[p].ty == t
    ensures r.Ok? ==> r.value == Next(toks, p)
    ensures r.Err? ==> r.error == ErrorAt(toks, p, msg)
  {
    if toks[p].ty != t then Err(ErrorAt(toks, p, msg)) else Ok(Next(toks, p))
  }

  const StmtEndMsg := "Expected ';' or a newline"

  predicate IsStmtEnd(t: TT.TokenType) {
    t == TT.Newline || t == TT.Semicolon || t == TT.Eof
  }

  /** expect_stmt_end: a Newline, ';' or Eof is consumed. */
  function StmtEndAt(toks: seq<TT.Token>, p: nat): (r: Result<nat, Errors.Error>)
    requires TokensOk(toks) && p < |toks|
    ensures r.Ok? <==> IsStmtEnd(toks[p].ty)
    ensures r.Ok? ==> r.value == Next(toks, p)
    ensures r.Err? ==> r.error == ErrorAt(toks, p, StmtEndMsg)
  {
    if !IsStmtEnd(toks[p].ty) then Err(ErrorAt(toks, p, StmtEndMsg)) else Ok(Next(toks, p))
  }

  /** skip_new_lines: the position of the first token from p on that is
      not a Newline. */
  function SkipNewLinesAt(toks: seq<TT.Token>, p: nat): (q: nat)
    requires TokensOk(toks) && p < |toks|
    ensures p <= q < |toks| && toks[q].ty != TT.Newline
    ensures forall i :: p <= i < q ==> toks[i].ty == TT.Newline
    decreases |toks| - p
  {
    if toks[p].ty == TT.Newline then SkipNewLinesAt(toks, Next(toks, p)) else p
  }

  const InvalidAnnoMsg := "Invalid type annotation"

  /** The type keyword of each annotation kind. */
  function KeywordOfAnno(k: AnnoKind): TT.TokenType {
    match k
    case IntAnno => TT.Int
    case FloatAnno => TT.Float
    case UnitAnno => TT.Unit
    case CharAnno => TT.Char
    case StringAnno => TT.String
    case BoolAnno => TT.Bool
  }

  /** The annotation kind a type keyword names: the inverse of
      KeywordOfAnno, undefined on every other token. */
  function AnnoKindOf(t: TT.TokenType): (r: Option<AnnoKind>)
    ensures r.Some? ==> KeywordOfAnno(r.value) == t
    ensures r.None? ==> forall k :: KeywordOfAnno(k) != t
  {
    match t
    case Int => Some(IntAnno)
    case Float => Some(FloatAnno)
    case Unit => Some(UnitAnno)
    case Char => Some(CharAnno)
    case String => Some(StringAnno)
    case Bool => Some(BoolAnno)
    case _ => None
  }

  /** parse_type_anno: `of` and a type keyword, two tokens, located at the
      `of`; a missing `of` is reported there and any other keyword at the
      token after it. */
  function TypeAnnoAt(toks: seq<TT.Token>, p: nat): (r: Result<(TypeAnno, nat), Errors.Error>)
    requires TokensOk(toks) && p < |toks|
    ensures r.Ok? <==> toks[p].ty == TT.Of && AnnoKindOf(toks[p + 1].ty).Some?
    ensures r.Ok? ==> r.value == (NewAnno(toks[p].loc, AnnoKindOf(toks[p + 1].ty).value), p + 2) && p + 2 < |toks|
    ensures toks[p].ty != TT.Of ==> r == Err(ErrorAt(toks, p, ExpectMsg(TT.Of)))
    ensures toks[p].ty == TT.Of && AnnoKindOf(toks[p + 1].ty).None? ==> r == Err(ErrorAt(toks, p + 1, InvalidAnnoMsg))
  {
    var q :- ExpectAt(toks, p, TT.Of, ExpectMsg(TT.Of));
    var kind := AnnoKindOf(toks[q].ty);
    if kind.None? then Err(ErrorAt(toks, q, InvalidAnnoMsg))
    else Ok((NewAnno(toks[p].loc, kind.value), Next(toks, q)))
  }

  // ------------------------------------------------------------ expressions

  /** get_precedence: five levels, and -1 for every token that is not an
      operator; '%' is the one operator token without a level. */
  function Precedence(t: TT.TokenType): (n: int)
    ensures n == -1 || n == 10 || n == 20 || n == 30 || n == 40 || n == 50
    ensures IsBinaryOpToken(t) && n < 0 <==> t == TT.Percent
  {
    match t
    case Or => 10
    case And => 20
    case Greater | Less | GreaterEqual | LessEqual | EqualsEquals | NotEquals => 30
    case Caret | Plus | Minus => 40
    case Star | Slash => 50
    case _ => -1
  }

  const UnexpectedMsg := "Unexpected Token while parsing expression"
  const InvalidOperatorMsg := "Invalid binary operator"
  const ArgSeparatorMsg := "Expected ')' or ','"
  const WhileBodyMsg := "Expected '{'"
  /** parse_block_expr at the end of input keeps pushing the null statement
      parse_stmt returns there and never leaves its loop. */
  const BlockAtEofMsg := "parse_block_expr does not terminate at Eof"

  /** The tokens parse_primary dispatches on. */
  predicate StartsPrimary(t: TT.TokenType) {
    t == TT.LParen || t == TT.LCurly || t == TT.Id || t == TT.If || t == TT.While || IsConstant(t) || IsUnaryOp(t)
  }

  predicate IsConstant(t: TT.TokenType) {
    t == TT.IntConst || t == TT.FloatConst || t == TT.CharConst || t == TT.True || t == TT.False || t == TT.StringConst
  }

  predicate IsUnaryOp(t: TT.TokenType) {
    t == TT.Plus || t == TT.Minus || t == TT.Not
  }

  /** parse_expr: a primary expression, then the binary operators after it. */
  function ExprAt(toks: seq<TT.Token>, p: nat): (r: Result<(Expr, nat), Errors.Error>)
    requires TokensOk(toks) && p < |toks|
    ensures r.Ok? ==> p < r.value.1 < |toks| && Precedence(toks[r.value.1].ty) < 0
    decreases |toks| - p, 5
  {
    var e :- PrimaryAt(toks, p);
    BinaryAt(toks, e.1, 0, e.0)
  }

  /** parse_primary */
  function PrimaryAt(toks: seq<TT.Token>, p: nat): (r: Result<(Expr, nat), Errors.Error>)
    requires TokensOk(toks) && p < |toks|
    ensures r.Ok? ==> p < r.value.1 < |toks|
    ensures !StartsPrimary(toks[p].ty) ==> r == Err(ErrorAt(toks, p, UnexpectedMsg))
    decreases |toks| - p, 4
  {
    var t := toks[p].ty;
    if t == TT.LParen then ParenAt(toks, p)
    else if t == TT.LCurly then BlockAt(toks, p)
    else if t == TT.Id then IdExprAt(toks, p)
    else if t == TT.If then IfElseAt(toks, p)
    else if t == TT.While then WhileAt(toks, p)
    else if IsConstant(t) then ConstantAt(toks, p)
    else if IsUnaryOp(t) then UnaryAt(toks, p)
    else Err(ErrorAt(toks, p, UnexpectedMsg))
  }

  /** parse_binary_expr(precedence, lhs): while the current token binds at
      least as tightly as `precedence`, it is consumed with the primary
      after it; that primary first takes the operators that bind more
      tightly than this one, then becomes the right operand of a node whose
      left operand is everything so far. */
  function BinaryAt(toks: seq<TT.Token>, p: nat, prec: int, lhs: Expr): (r: Result<(Expr, nat), Errors.Error>)
    requires TokensOk(toks) && p < |toks| && prec >= 0
    ensures r.Ok? ==> p <= r.value.1 < |toks| && Precedence(toks[r.value.1].ty) < prec
    decreases |toks| - p, 2
  {
    var op := toks[p];
    var tp := Precedence(op.ty);
    if tp < prec then Ok((lhs, p))
    else if !IsBinaryOpToken(op.ty) then Err(Errors.Syntax(InvalidOperatorMsg, op.loc))
    else
      var r1 :- PrimaryAt(toks, Next(toks, p));
      var r2 :- if tp < Precedence(toks[r1.1].ty) then BinaryAt(toks, r1.1, tp + 1, r1.0) else Ok(r1);
      BinaryAt(toks, r2.1, prec, NewExpr(op.loc, BinaryExpr(BinaryOpOfType(op.ty).value, lhs, r2.0)))
  }

  /** parse_constant */
  function ConstantAt(toks: seq<TT.Token>, p: nat): (r: Result<(Expr, nat), Errors.Error>)
    requires TokensOk(toks) && p < |toks| && IsConstant(toks[p].ty)
    ensures r.Ok? ==> r.value.1 == p + 1 && r.value.0.loc == toks[p].loc
    decreases |toks| - p, 3
  {
    var tok := toks[p];
    var q := Next(toks, p);
    match tok.ty
    case IntConst =>
      var e :- IntConstOf(tok);
      Ok((e, q))
    case FloatConst => Ok((NewExpr(tok.loc, FloatConst(tok.lexeme)), q))
    case CharConst => Ok((CharConstOf(tok), q))
    case StringConst => Ok((NewExpr(tok.loc, StringConst(tok.lexeme)), q))
    case _ => Ok((BoolConstOf(tok), q))
  }

  /** parse_unary_expr: the operator and a whole expression after it. */
  function UnaryAt(toks: seq<TT.Token>, p: nat): (r: Result<(Expr, nat), Errors.Error>)
    requires TokensOk(toks) && p < |toks| && IsUnaryOp(toks[p].ty)
    ensures r.Ok? ==> p < r.value.1 < |toks|
    decreases |toks| - p, 3
  {
    var op := toks[p];
    var e :- ExprAt(toks, Next(toks, p));
    Ok((NewExpr(op.loc, UnaryExpr(UnaryOpOfType(op.ty).value, e.0)), e.1))
  }

  /** parse_id_expr({}): the identifier, and a call when '(' follows. */
  function IdExprAt(toks: seq<TT.Token>, p: nat): (r: Result<(Expr, nat), Errors.Error>)
    requires TokensOk(toks) && p < |toks| && toks[p].ty == TT.Id
    ensures r.Ok? ==> p < r.value.1 < |toks|
    decreases |toks| - p, 3
  {
    var id := toks[p];
    var q := Next(toks, p);
    if toks[q].ty == TT.LParen then FunCallAt(toks, q, id)
    else Ok((NewExpr(id.loc, IdExpr(id.lexeme)), q))
  }

  /** parse_id(id), after the identifier: an identifier or a call, then
      the binary operators after it. */
  function IdAt(toks: seq<TT.Token>, p: nat, id: TT.Token): (r: Result<(Expr, nat), Errors.Error>)
    requires TokensOk(toks) && p < |toks|
    ensures r.Ok? ==> p <= r.value.1 < |toks|
    decreases |toks| - p, 5
  {
    if toks[p].ty != TT.LParen then BinaryAt(toks, p, 0, NewExpr(id.loc, IdExpr(id.lexeme)))
    else
      var c :- FunCallAt(toks, p, id);
      BinaryAt(toks, c.1, 0, c.0)
  }

  /** parse_fun_call(id): '(' and the arguments, located at the callee. */
  function FunCallAt(toks: seq<TT.Token>, p: nat, id: TT.Token): (r: Result<(Expr, nat), Errors.Error>)
    requires TokensOk(toks) && p < |toks|
    ensures r.Ok? ==> p < r.value.1 < |toks|
    decreases |toks| - p, 4
  {
    var q :- ExpectAt(toks, p, TT.LParen, ExpectMsg(TT.LParen));
    var args :- ArgsAt(toks, q, []);
    Ok((NewExpr(id.loc, FunCall(id.lexeme, args.0)), args.1))
  }

  /** The argument loop of parse_fun_call, appending to acc, and the
      advance over the closing ')'. */
  function ArgsAt(toks: seq<TT.Token>, p: nat, acc: seq<Expr>): (r: Result<(seq<Expr>, nat), Errors.Error>)
    requires TokensOk(toks) && p < |toks|
    ensures r.Ok? ==> p < r.value.1 < |toks|
    decreases |toks| - p, 6
  {
    if toks[p].ty == TT.RParen then Ok((acc, Next(toks, p)))
    else
      var a :- ExprAt(toks, p);
      if toks[a.1].ty == TT.RParen then Ok((acc + [a.0], Next(toks, a.1)))
      else
        var q :- ExpectAt(toks, a.1, TT.Comma, ArgSeparatorMsg);
        ArgsAt(toks, q, acc + [a.0])
  }

  /** parse_paren_expr: '(' expression ')', located at the '('. */
  function ParenAt(toks: seq<TT.Token>, p: nat): (r: Result<(Expr, nat), Errors.Error>)
    requires TokensOk(toks) && p < |toks| && toks[p].ty == TT.LParen
    ensures r.Ok? ==> p < r.value.1 < |toks|
    decreases |toks| - p, 3
  {
    var e :- ExprAt(toks, Next(toks, p));
    var q :- ExpectAt(toks, e.1, TT.RParen, ExpectMsg(TT.RParen));
    Ok((NewExpr(toks[p].loc, ParenExpr(e.0)), q))
  }

  /** parse_block_expr: '{', the statements up to '}', located at the '{'. */
  function BlockAt(toks: seq<TT.Token>, p: nat): (r: Result<(Expr, nat), Errors.Error>)
    requires TokensOk(toks) && p < |toks| && toks[p].ty == TT.LCurly
    ensures r.Ok? ==> p < r.value.1 < |toks|
    decreases |toks| - p, 3
  {
    var b :- BodyAt(toks, Next(toks, p), []);
    Ok((NewExpr(toks[p].loc, BlockExpr(b.0, None)), b.1))
  }

  /** The statement loop of parse_block_expr, appending to acc: newlines are
      skipped before each statement and before the closing '}', which is
      consumed. */
  function BodyAt(toks: seq<TT.Token>, p: nat, acc: seq<Stmt>): (r: Result<(seq<Stmt>, nat), Errors.Error>)
    requires TokensOk(toks) && p < |toks|
    ensures r.Ok? ==> p < r.value.1 < |toks|
    decreases |toks| - p, 9
  {
    var q := SkipNewLinesAt(toks, p);
    if toks[q].ty == TT.RCurly then Ok((acc, Next(toks, q)))
    else
      var s :- StmtAt(toks, q);
      if s.0.None? then Err(Errors.Internal(BlockAtEofMsg))
      else BodyAt(toks, s.1, acc + [s.0.value])
  }

  /** parse_if_else_expr: `if` condition `then` branch, and an optional
      `else` branch; newlines are skipped after `then`, after the branch
      and after `else`. */
  function IfElseAt(toks: seq<TT.Token>, p: nat): (r: Result<(Expr, nat), Errors.Error>)
    requires TokensOk(toks) && p < |toks| && toks[p].ty == TT.If
    ensures r.Ok? ==> p < r.value.1 < |toks|
    decreases |toks| - p, 3
  {
    var c :- ExprAt(toks, Next(toks, p));
    var q1 :- ExpectAt(toks, c.1, TT.Then, ExpectMsg(TT.Then));
    var b :- ExprAt(toks, SkipNewLinesAt(toks, q1));
    var q2 := SkipNewLinesAt(toks, b.1);
    if toks[q2].ty == TT.Else then
      var e :- ExprAt(toks, SkipNewLinesAt(toks, Next(toks, q2)));
      Ok((NewExpr(toks[p].loc, IfElseExpr(c.0, b.0, Some(e.0))), e.1))
    else Ok((NewExpr(toks[p].loc, IfElseExpr(c.0, b.0, None)), q2))
  }

  /** parse_while_expr: `while` condition and a body that must start with
      '{' (it is then parsed as a whole expression). */
  function WhileAt(toks: seq<TT.Token>, p: nat): (r: Result<(Expr, nat), Errors.Error>)
    requires TokensOk(toks) && p < |toks| && toks[p].ty == TT.While
    ensures r.Ok? ==> p < r.value.1 < |toks|
    decreases |toks| - p, 3
  {
    var c :- ExprAt(toks, Next(toks, p));
    if toks[c.1].ty != TT.LCurly then Err(ErrorAt(toks, c.1, WhileBodyMsg))
    else
      var b :- ExprAt(toks, c.1);
      Ok((NewExpr(toks[p].loc, WhileExpr(c.0, b.0)), b.1))
  }

  // ------------------------------------------------------------ statements

  const InternalMsg := "Only function definitions and variable definitions can be marked as internal"
  const ExternalMsg := "Only function declarations are allowed after 'external'"
  const ParamSeparatorMsg := "Expected ',' or ')'"

  /** parse_stmt: None at Eof (newlines skipped), otherwise the statement
      its first token selects. */
  function StmtAt(toks: seq<TT.Token>, p: nat): (r: Result<(Option<Stmt>, nat), Errors.Error>)
    requires TokensOk(toks) && p < |toks|
    ensures r.Ok? ==> p <= r.value.1 < |toks|
    ensures r.Ok? && r.value.0.Some? ==> p < r.value.1
    ensures r.Ok? && r.value.0.None? ==> toks[r.value.1].ty == TT.Eof
    decreases |toks| - p, 8
  {
    var t := toks[p].ty;
    if t == TT.Eof then Ok((None, p))
    else if t == TT.Newline then StmtAt(toks, Next(toks, p))
    else
      var s :- OneStmtAt(toks, p);
      Ok((Some(s.0), s.1))
  }

  /** The cases of parse_stmt that produce a statement. */
  function OneStmtAt(toks: seq<TT.Token>, p: nat): (r: Result<(Stmt, nat), Errors.Error>)
    requires TokensOk(toks) && p < |toks| && toks[p].ty != TT.Eof && toks[p].ty != TT.Newline
    ensures r.Ok? ==> p < r.value.1 < |toks|
    decreases |toks| - p, 7
  {
    var t := toks[p].ty;
    if t == TT.Internal then InternalStmtAt(toks, p)
    else if t == TT.Let || t == TT.Var then VarInitAt(toks, p, None)
    else if t == TT.Fun then FunDefAt(toks, p, None)
    else if t == TT.Id then IdStmtAt(toks, p)
    else if t == TT.External then ExternalStmtAt(toks, p)
    else ExprStmtAt(toks, p)
  }

  /** parse_internal_stmt: `internal` and a function or variable
      definition, which gets the location of `internal`. */
  function InternalStmtAt(toks: seq<TT.Token>, p: nat): (r: Result<(Stmt, nat), Errors.Error>)
    requires TokensOk(toks) && p < |toks| && toks[p].ty == TT.Internal
    ensures r.Ok? ==> p < r.value.1 < |toks|
    decreases |toks| - p, 6
  {
    var q := Next(toks, p);
    var t := toks[q].ty;
    if t == TT.Fun then FunDefAt(toks, q, Some(toks[p].loc))
    else if t == TT.Var || t == TT.Let then VarInitAt(toks, q, Some(toks[p].loc))
    else Err(ErrorAt(toks, q, InternalMsg))
  }

  /** The optional annotation of parse_var_init. */
  function OptAnnoAt(toks: seq<TT.Token>, p: nat): (r: Result<(Option<TypeAnno>, nat), Errors.Error>)
    requires TokensOk(toks) && p < |toks|
    ensures r.Ok? ==> p <= r.value.1 < |toks|
    ensures r.Ok? ==> (r.value.0.Some? <==> toks[p].ty == TT.Of)
  {
    if toks[p].ty == TT.Of then
      var a :- TypeAnnoAt(toks, p);
      Ok((Some(a.0), a.1))
    else Ok((None, p))
  }

  /** What parse_var_init and parse_fun_def share after the name: '=',
      an expression and the end of the statement. */
  function DefinedAt(toks: seq<TT.Token>, p: nat): (r: Result<(Expr, nat), Errors.Error>)
    requires TokensOk(toks) && p < |toks|
    ensures r.Ok? ==> p < r.value.1 < |toks|
    decreases |toks| - p, 4
  {
    var q :- ExpectAt(toks, p, TT.Equal, ExpectMsg(TT.Equal));
    var e :- ExprAt(toks, q);
    var q2 :- StmtEndAt(toks, e.1);
    Ok((e.0, q2))
  }

  /** parse_var_init(loc): `let` or `var`, an identifier, an optional
      annotation and the value. It is internal exactly when a location is
      passed in, and constant exactly for `let`. */
  function VarInitAt(toks: seq<TT.Token>, p: nat, loc: Option<Location>): (r: Result<(Stmt, nat), Errors.Error>)
    requires TokensOk(toks) && p < |toks| && (toks[p].ty == TT.Let || toks[p].ty == TT.Var)
    ensures r.Ok? ==> p < r.value.1 < |toks|
    decreases |toks| - p, 5
  {
    var q := Next(toks, p);
    var q1 :- ExpectAt(toks, q, TT.Id, ExpectMsg(TT.Id));
    var a :- OptAnnoAt(toks, q1);
    var v :- DefinedAt(toks, a.1);
    var l := if loc.Some? then loc.value else toks[p].loc;
    Ok((NewStmt(l, VarInit(loc.Some?, toks[p].ty == TT.Let, toks[q].lexeme, a.0, v.0)), v.1))
  }

  /** parse_fun_def(loc): a signature and the body; internal exactly when
      a location is passed in. */
  function FunDefAt(toks: seq<TT.Token>, p: nat, loc: Option<Location>): (r: Result<(Stmt, nat), Errors.Error>)
    requires TokensOk(toks) && p < |toks| && toks[p].ty == TT.Fun
    ensures r.Ok? ==> p < r.value.1 < |toks|
    decreases |toks| - p, 5
  {
    var sig :- FunSigAt(toks, p);
    var b :- DefinedAt(toks, sig.1);
    var l := if loc.Some? then loc.value else toks[p].loc;
    Ok((NewStmt(l, FunDef(loc.Some?, sig.0, b.0, None)), b.1))
  }

  /** parse_def_arg: a parameter name and its annotation. */
  function DefArgAt(toks: seq<TT.Token>, p: nat): (r: Result<(DefArg, nat), Errors.Error>)
    requires TokensOk(toks) && p < |toks|
    ensures r.Ok? ==> p < r.value.1 < |toks|
  {
    var tok := toks[p];
    var a :- TypeAnnoAt(toks, Next(toks, p));
    Ok((DefArg(tok.loc, tok.lexeme, a.0, None), a.1))
  }

  /** The parameter loop of parse_fun_sig, appending to acc, and the
      advance over the closing ')'. */
  function ParamsAt(toks: seq<TT.Token>, p: nat, acc: seq<DefArg>): (r: Result<(seq<DefArg>, nat), Errors.Error>)
    requires TokensOk(toks) && p < |toks|
    ensures r.Ok? ==> p < r.value.1 < |toks|
    decreases |toks| - p
  {
    if toks[p].ty == TT.RParen then Ok((acc, Next(toks, p)))
    else
      var a :- DefArgAt(toks, p);
      if toks[a.1].ty == TT.RParen then Ok((acc + [a.0], Next(toks, a.1)))
      else
        var q :- ExpectAt(toks, a.1, TT.Comma, ParamSeparatorMsg);
        ParamsAt(toks, q, acc + [a.0])
  }

  /** parse_fun_sig: the token before the name (`fun`), the name, '(' and
      the parameters, and the return annotation; never variadic. */
  function FunSigAt(toks: seq<TT.Token>, p: nat): (r: Result<(FunSignature, nat), Errors.Error>)
    requires TokensOk(toks) && p < |toks|
    ensures r.Ok? ==> p < r.value.1 < |toks|
  {
    var q := Next(toks, p);
    var id := toks[q];
    var q1 :- ExpectAt(toks, q, TT.Id, ExpectMsg(TT.Id));
    var q2 :- ExpectAt(toks, q1, TT.LParen, ExpectMsg(TT.LParen));
    var ps :- ParamsAt(toks, q2, []);
    var a :- TypeAnnoAt(toks, ps.1);
    Ok((FunSignature(id.loc, false, id.lexeme, ps.0, a.0, None, None), a.1))
  }

  /** parse_id_stmt: an assignment when '=' follows the identifier,
      otherwise an expression statement that starts with it. */
  function IdStmtAt(toks: seq<TT.Token>, p: nat): (r: Result<(Stmt, nat), Errors.Error>)
    requires TokensOk(toks) && p < |toks| && toks[p].ty == TT.Id
    ensures r.Ok? ==> p < r.value.1 < |toks|
    decreases |toks| - p, 6
  {
    var id := toks[p];
    var q := Next(toks, p);
    if toks[q].ty == TT.Equal then AssignmentAt(toks, q, id)
    else
      var e :- IdAt(toks, q, id);
      var q2 :- StmtEndAt(toks, e.1);
      Ok((NewStmt(e.0.loc, ExprStmt(e.0)), q2))
  }

  /** parse_assignment(id): '=', the value and the end of the statement,
      located at the identifier. */
  function AssignmentAt(toks: seq<TT.Token>, p: nat, id: TT.Token): (r: Result<(Stmt, nat), Errors.Error>)
    requires TokensOk(toks) && p < |toks| && toks[p].ty == TT.Equal
    ensures r.Ok? ==> p < r.value.1 < |toks|
    decreases |toks| - p, 5
  {
    var v :- ExprAt(toks, Next(toks, p));
    var q :- StmtEndAt(toks, v.1);
    Ok((NewStmt(id.loc, Assignment(id.lexeme, v.0)), q))
  }

  /** parse_expr_stmt */
  function ExprStmtAt(toks: seq<TT.Token>, p: nat): (r: Result<(Stmt, nat), Errors.Error>)
    requires TokensOk(toks) && p < |toks|
    ensures r.Ok? ==> p < r.value.1 < |toks|
    decreases |toks| - p, 6
  {
    var e :- ExprAt(toks, p);
    var q :- StmtEndAt(toks, e.1);
    Ok((NewStmt(e.0.loc, ExprStmt(e.0)), q))
  }

  /** parse_external_stmt: `external`, a signature that must start with
      `fun`, and the end of the statement. */
  function ExternalStmtAt(toks: seq<TT.Token>, p: nat): (r: Result<(Stmt, nat), Errors.Error>)
    requires TokensOk(toks) && p < |toks| && toks[p].ty == TT.External
    ensures r.Ok? ==> p < r.value.1 < |toks|
  {
    var q := Next(toks, p);
    if toks[q].ty != TT.Fun then Err(ErrorAt(toks, q, ExternalMsg))
    else
      var sig :- FunSigAt(toks, q);
      var q2 :- StmtEndAt(toks, sig.1);
      Ok((NewStmt(toks[p].loc, ExternalStmt(sig.0)), q2))
  }

  /** The loop of parse_file, appending to acc: statements until
      parse_stmt returns none. */
  function FileAt(toks: seq<TT.Token>, p: nat, acc: seq<Stmt>): (r: Result<seq<Stmt>, Errors.Error>)
    requires TokensOk(toks) && p < |toks|
    decreases |toks| - p
  {
    var s :- StmtAt(toks, p);
    if s.0.None? then Ok(acc) else FileAt(toks, s.1, acc + [s.0.value])
  }

  /** parse_file: the statements of the whole token sequence. */
  function ParsedFile(toks: seq<TT.Token>): Result<seq<Stmt>, Errors.Error>
    requires TokensOk(toks)
  {
    FileAt(toks, 0, [])
  }

  // ------------------------------------------------------------ the class

  /** A method's result and new position agree with the function that
      defines the operation: the same node or error, and on success the same
      position. */
  predicate Parsed<T(==)>(r: Result<T, Errors.Error>, pos: nat, spec: Result<(T, nat), Errors.Error>) {
    && (r.Ok? <==> spec.Ok?)
    && (r.Ok? ==> r.value == spec.value.0 && pos == spec.value.1)
    && (r.Err? ==> r.error == spec.error)
  }

  /** The same for expect and expect_stmt_end, which only move. */
  predicate Stepped(r: Result<(), Errors.Error>, pos: nat, spec: Result<nat, Errors.Error>) {
    && (r.Ok? <==> spec.Ok?)
    && (r.Ok? ==> pos == spec.value)
    && (r.Err? ==> r.error == spec.error)
  }

  class Parser {
    const toks: seq<TT.Token>
    /** The position of cur_tok. */
    var pos: nat

    ghost predicate Valid()
      reads this
    {
      TokensOk(toks) && pos < |toks|
    }

    /** Parser(src): cur_tok is the first token. */
    constructor (ts: seq<TT.Token>)
      requires TokensOk(ts)
      ensures toks == ts && pos == 0 && Valid()
    {
      toks := ts;
      pos := 0;
    }

    method Advance()
      requires Valid()
      modifies this
      ensures Valid() && pos == Next(toks, old(pos))
    {
      if pos + 1 < |toks| {
        pos := pos + 1;
      }
    }

    method Expect(t: TT.TokenType, msg: string) returns (r: Result<(), Errors.Error>)
      requires Valid()
      modifies this
      ensures Valid() && Stepped(r, pos, ExpectAt(toks, old(pos), t, msg))
    {
      if toks[pos].ty != t {
        return Err(ErrorAt(toks, pos, msg));
      }
      Advance();
      r := Ok(());
    }

    method ExpectStmtEnd() returns (r: Result<(), Errors.Error>)
      requires Valid()
      modifies this
      ensures Valid() && Stepped(r, pos, StmtEndAt(toks, old(pos)))
    {
      var t := toks[pos].ty;
      if t != TT.Newline && t != TT.Semicolon && t != TT.Eof {
        return Err(ErrorAt(toks, pos, StmtEndMsg));
      }
      Advance();
      r := Ok(());
    }

    method SkipNewLines()
      requires Valid()
      modifies this
      ensures Valid() && pos == SkipNewLinesAt(toks, old(pos))
    {
      while toks[pos].ty == TT.Newline
        invariant Valid() && SkipNewLinesAt(toks, old(pos)) == SkipNewLinesAt(toks, pos)
        decreases |toks| - pos
      {
        Advance();
      }
    }

    method ParseTypeAnno() returns (r: Result<TypeAnno, Errors.Error>)
      requires Valid()
      modifies this
      ensures Valid() && Parsed(r, pos, TypeAnnoAt(toks, old(pos)))
    {
      var loc := toks[pos].loc;
      var e := Expect(TT.Of, ExpectMsg(TT.Of));
      if e.Err? {
        return Err(e.error);
      }
      var kind := AnnoKindOf(toks[pos].ty);
      if kind.None? {
        return Err(ErrorAt(toks, pos, InvalidAnnoMsg));
      }
      Advance();
      r := Ok(NewAnno(loc, kind.value));
    }

    // expressions

    method ParseExpr() returns (r: Result<Expr, Errors.Error>)
      requires Valid()
      modifies this
      ensures Valid() && Parsed(r, pos, ExprAt(toks, old(pos)))
      decreases |toks| - pos, 5
    {
      var lhs := ParsePrimary();
      if lhs.Err? {
        return Err(lhs.error);
      }
      r := ParseBinaryExpr(0, lhs.value);
    }

    method ParsePrimary() returns (r: Result<Expr, Errors.Error>)
      requires Valid()
      modifies this
      ensures Valid() && Parsed(r, pos, PrimaryAt(toks, old(pos)))
      decreases |toks| - pos, 4
    {
      var t := toks[pos].ty;
      if t == TT.LParen {
        r := ParseParenExpr();
      } else if t == TT.LCurly {
        r := ParseBlockExpr();
      } else if t == TT.Id {
        r := ParseIdExpr();
      } else if t == TT.If {
        r := ParseIfElseExpr();
      } else if t == TT.While {
        r := ParseWhileExpr();
      } else if IsConstant(t) {
        r := ParseConstant();
      } else if IsUnaryOp(t) {
        r := ParseUnaryExpr();
      } else {
        r := Err(ErrorAt(toks, pos, UnexpectedMsg));
      }
    }

    method ParseBinaryExpr(prec: int, lhs0: Expr) returns (r: Result<Expr, Errors.Error>)
      requires Valid() && prec >= 0
      modifies this
      ensures Valid() && Parsed(r, pos, BinaryAt(toks, old(pos), prec, lhs0))
      decreases |toks| - pos, 2
    {
      var lhs := lhs0;
      while true
        invariant Valid() && old(pos) <= pos
        invariant BinaryAt(toks, old(pos), prec, lhs0) == BinaryAt(toks, pos, prec, lhs)
        decreases |toks| - pos
      {
        var op := toks[pos];
        var tp := Precedence(op.ty);
        if tp < prec {
          return Ok(lhs);
        }
        if !IsBinaryOpToken(op.ty) {
          return Err(Errors.Syntax(InvalidOperatorMsg, op.loc));
        }
        Advance();
        var rhs := ParsePrimary();
        if rhs.Err? {
          return Err(rhs.error);
        }
        if tp < Precedence(toks[pos].ty) {
          rhs := ParseBinaryExpr(tp + 1, rhs.value);
          if rhs.Err? {
            return Err(rhs.error);
          }
        }
        lhs := NewExpr(op.loc, BinaryExpr(BinaryOpOfType(op.ty).value, lhs, rhs.value));
      }
    }

    method ParseConstant() returns (r: Result<Expr, Errors.Error>)
      requires Valid() && IsConstant(toks[pos].ty)
      modifies this
      ensures Valid() && Parsed(r, pos, ConstantAt(toks, old(pos)))
      decreases |toks| - pos, 3
    {
      var tok := toks[pos];
      Advance();
      match tok.ty {
        case IntConst => r := IntConstOf(tok);
        case FloatConst => r := Ok(NewExpr(tok.loc, FloatConst(tok.lexeme)));
        case CharConst => r := Ok(CharConstOf(tok));
        case StringConst => r := Ok(NewExpr(tok.loc, StringConst(tok.lexeme)));
        case _ => r := Ok(BoolConstOf(tok));
      }
    }

    method ParseUnaryExpr() returns (r: Result<Expr, Errors.Error>)
      requires Valid() && IsUnaryOp(toks[pos].ty)
      modifies this
      ensures Valid() && Parsed(r, pos, UnaryAt(toks, old(pos)))
      decreases |toks| - pos, 3
    {
      var op := toks[pos];
      Advance();
      var e := ParseExpr();
      if e.Err? {
        return Err(e.error);
      }
      r := Ok(NewExpr(op.loc, UnaryExpr(UnaryOpOfType(op.ty).value, e.value)));
    }

    /** parse_id_expr({}) */
    method ParseIdExpr() returns (r: Result<Expr, Errors.Error>)
      requires Valid() && toks[pos].ty == TT.Id
      modifies this
      ensures Valid() && Parsed(r, pos, IdExprAt(toks, old(pos)))
      decreases |toks| - pos, 3
    {
      var id := toks[pos];
      Advance();
      if toks[pos].ty == TT.LParen {
        r := ParseFunCall(id);
        return;
      }
      r := Ok(NewExpr(id.loc, IdExpr(id.lexeme)));
    }

    method ParseId(id: TT.Token) returns (r: Result<Expr, Errors.Error>)
      requires Valid()
      modifies this
      ensures Valid() && Parsed(r, pos, IdAt(toks, old(pos), id))
      decreases |toks| - pos, 5
    {
      if toks[pos].ty != TT.LParen {
        r := ParseBinaryExpr(0, NewExpr(id.loc, IdExpr(id.lexeme)));
        return;
      }
      var call := ParseFunCall(id);
      if call.Err? {
        return Err(call.error);
      }
      r := ParseBinaryExpr(0, call.value);
    }

    method ParseFunCall(id: TT.Token) returns (r: Result<Expr, Errors.Error>)
      requires Valid()
      modifies this
      ensures Valid() && Parsed(r, pos, FunCallAt(toks, old(pos), id))
      decreases |toks| - pos, 4
    {
      var open := Expect(TT.LParen, ExpectMsg(TT.LParen));
      if open.Err? {
        return Err(open.error);
      }
      ghost var start := pos;
      var args: seq<Expr> := [];
      while toks[pos].ty != TT.RParen
        invariant Valid() && old(pos) < pos
        invariant ArgsAt(toks, start, []) == ArgsAt(toks, pos, args)
        decreases |toks| - pos
      {
        var a := ParseExpr();
        if a.Err? {
          return Err(a.error);
        }
        args := args + [a.value];
        if toks[pos].ty == TT.RParen {
          break;
        }
        var comma := Expect(TT.Comma, ArgSeparatorMsg);
        if comma.Err? {
          return Err(comma.error);
        }
      }
      Advance();
      r := Ok(NewExpr(id.loc, FunCall(id.lexeme, args)));
    }

    method ParseParenExpr() returns (r: Result<Expr, Errors.Error>)
      requires Valid() && toks[pos].ty == TT.LParen
      modifies this
      ensures Valid() && Parsed(r, pos, ParenAt(toks, old(pos)))
      decreases |toks| - pos, 3
    {
      var loc := toks[pos].loc;
      Advance();
      var e := ParseExpr();
      if e.Err? {
        return Err(e.error);
      }
      var close := Expect(TT.RParen, ExpectMsg(TT.RParen));
      if close.Err? {
        return Err(close.error);
      }
      r := Ok(NewExpr(loc, ParenExpr(e.value)));
    }

    method ParseBlockExpr() returns (r: Result<Expr, Errors.Error>)
      requires Valid() && toks[pos].ty == TT.LCurly
      modifies this
      ensures Valid() && Parsed(r, pos, BlockAt(toks, old(pos)))
      decreases |toks| - pos, 3
    {
      var loc := toks[pos].loc;
      Advance();
      ghost var start := pos;
      var body: seq<Stmt> := [];
      while true
        invariant Valid() && old(pos) < pos
        invariant BodyAt(toks, start, []) == BodyAt(toks, pos, body)
        decreases |toks| - pos
      {
        SkipNewLines();
        if toks[pos].ty == TT.RCurly {
          break;
        }
        var s := ParseStmt();
        if s.Err? {
          return Err(s.error);
        }
        if s.value.None? {
          return Err(Errors.Internal(BlockAtEofMsg));
        }
        body := body + [s.value.value];
      }
      Advance();
      r := Ok(NewExpr(loc, BlockExpr(body, None)));
    }

    method ParseIfElseExpr() returns (r: Result<Expr, Errors.Error>)
      requires Valid() && toks[pos].ty == TT.If
      modifies this
      ensures Valid() && Parsed(r, pos, IfElseAt(toks, old(pos)))
      decreases |toks| - pos, 3
    {
      var loc := toks[pos].loc;
      Advance();
      var cond := ParseExpr();
      if cond.Err? {
        return Err(cond.error);
      }
      var thenTok := Expect(TT.Then, ExpectMsg(TT.Then));
      if thenTok.Err? {
        return Err(thenTok.error);
      }
      SkipNewLines();
      var ifBranch := ParseExpr();
      if ifBranch.Err? {
        return Err(ifBranch.error);
      }
      SkipNewLines();
      var elseBranch: Option<Expr> := None;
      if toks[pos].ty == TT.Else {
        Advance();
        SkipNewLines();
        var e := ParseExpr();
        if e.Err? {
          return Err(e.error);
        }
        elseBranch := Some(e.value);
      }
      r := Ok(NewExpr(loc, IfElseExpr(cond.value, ifBranch.value, elseBranch)));
    }

    method ParseWhileExpr() returns (r: Result<Expr, Errors.Error>)
      requires Valid() && toks[pos].ty == TT.While
      modifies this
      ensures Valid() && Parsed(r, pos, WhileAt(toks, old(pos)))
      decreases |toks| - pos, 3
    {
      var loc := toks[pos].loc;
      Advance();
      var cond := ParseExpr();
      if cond.Err? {
        return Err(cond.error);
      }
      if toks[pos].ty != TT.LCurly {
        return Err(ErrorAt(toks, pos, WhileBodyMsg));
      }
      var body := ParseExpr();
      if body.Err? {
        return Err(body.error);
      }
      r := Ok(NewExpr(loc, WhileExpr(cond.value, body.value)));
    }

    // statements

    method ParseStmt() returns (r: Result<Option<Stmt>, Errors.Error>)
      requires Valid()
      modifies this
      ensures Valid() && Parsed(r, pos, StmtAt(toks, old(pos)))
      decreases |toks| - pos, 8
    {
      var t := toks[pos].ty;
      if t == TT.Eof {
        return Ok(None);
      }
      if t == TT.Newline {
        Advance();
        r := ParseStmt();
        return;
      }
      var s: Result<Stmt, Errors.Error>;
      if t == TT.Internal {
        s := ParseInternalStmt();
      } else if t == TT.Let || t == TT.Var {
        s := ParseVarInit(None);
      } else if t == TT.Fun {
        s := ParseFunDef(None);
      } else if t == TT.Id {
        s := ParseIdStmt();
      } else if t == TT.External {
        s := ParseExternalStmt();
      } else {
        s := ParseExprStmt();
      }
      if s.Err? {
        return Err(s.error);
      }
      r := Ok(Some(s.value));
    }

    method ParseIdStmt() returns (r: Result<Stmt, Errors.Error>)
      requires Valid() && toks[pos].ty == TT.Id
      modifies this
      ensures Valid() && Parsed(r, pos, IdStmtAt(toks, old(pos)))
      decreases |toks| - pos, 6
    {
      var id := toks[pos];
      Advance();
      if toks[pos].ty == TT.Equal {
        r := ParseAssignment(id);
        return;
      }
      var e := ParseId(id);
      if e.Err? {
        return Err(e.error);
      }
      var end := ExpectStmtEnd();
      if end.Err? {
        return Err(end.error);
      }
      r := Ok(NewStmt(e.value.loc, ExprStmt(e.value)));
    }

    method ParseAssignment(id: TT.Token) returns (r: Result<Stmt, Errors.Error>)
      requires Valid() && toks[pos].ty == TT.Equal
      modifies this
      ensures Valid() && Parsed(r, pos, AssignmentAt(toks, old(pos), id))
      decreases |toks| - pos, 5
    {
      Advance();
      var v := ParseExpr();
      if v.Err? {
        return Err(v.error);
      }
      var end := ExpectStmtEnd();
      if end.Err? {
        return Err(end.error);
      }
      r := Ok(NewStmt(id.loc, Assignment(id.lexeme, v.value)));
    }

    method ParseVarInit(loc: Option<Location>) returns (r: Result<Stmt, Errors.Error>)
      requires Valid() && (toks[pos].ty == TT.Let || toks[pos].ty == TT.Var)
      modifies this
      ensures Valid() && Parsed(r, pos, VarInitAt(toks, old(pos), loc))
      decreases |toks| - pos, 5
    {
      var l := if loc.Some? then loc.value else toks[pos].loc;
      var isConst := toks[pos].ty == TT.Let;
      Advance();
      var id := toks[pos];
      var e := Expect(TT.Id, ExpectMsg(TT.Id));
      if e.Err? {
        return Err(e.error);
      }
      var anno: Option<TypeAnno> := None;
      if toks[pos].ty == TT.Of {
        var a := ParseTypeAnno();
        if a.Err? {
          return Err(a.error);
        }
        anno := Some(a.value);
      }
      var v := ParseDefined();
      if v.Err? {
        return Err(v.error);
      }
      r := Ok(NewStmt(l, VarInit(loc.Some?, isConst, id.lexeme, anno, v.value)));
    }

    /** '=', the value and the end of the statement, as parse_var_init and
        parse_fun_def read them. */
    method ParseDefined() returns (r: Result<Expr, Errors.Error>)
      requires Valid()
      modifies this
      ensures Valid() && Parsed(r, pos, DefinedAt(toks, old(pos)))
      decreases |toks| - pos, 4
    {
      var eq := Expect(TT.Equal, ExpectMsg(TT.Equal));
      if eq.Err? {
        return Err(eq.error);
      }
      var v := ParseExpr();
      if v.Err? {
        return Err(v.error);
      }
      var end := ExpectStmtEnd();
      if end.Err? {
        return Err(end.error);
      }
      r := Ok(v.value);
    }

    method ParseFunDef(loc: Option<Location>) returns (r: Result<Stmt, Errors.Error>)
      requires Valid() && toks[pos].ty == TT.Fun
      modifies this
      ensures Valid() && Parsed(r, pos, FunDefAt(toks, old(pos), loc))
      decreases |toks| - pos, 5
    {
      var l := if loc.Some? then loc.value else toks[pos].loc;
      var sig := ParseFunSig();
      if sig.Err? {
        return Err(sig.error);
      }
      var body := ParseDefined();
      if body.Err? {
        return Err(body.error);
      }
      r := Ok(NewStmt(l, FunDef(loc.Some?, sig.value, body.value, None)));
    }

    method ParseDefArg() returns (r: Result<DefArg, Errors.Error>)
      requires Valid()
      modifies this
      ensures Valid() && Parsed(r, pos, DefArgAt(toks, old(pos)))
    {
      var tok := toks[pos];
      Advance();
      var anno := ParseTypeAnno();
      if anno.Err? {
        return Err(anno.error);
      }
      r := Ok(DefArg(tok.loc, tok.lexeme, anno.value, None));
    }

    method ParseFunSig() returns (r: Result<FunSignature, Errors.Error>)
      requires Valid()
      modifies this
      ensures Valid() && Parsed(r, pos, FunSigAt(toks, old(pos)))
    {
      Advance();
      var id := toks[pos];
      var e := Expect(TT.Id, ExpectMsg(TT.Id));
      if e.Err? {
        return Err(e.error);
      }
      var open := Expect(TT.LParen, ExpectMsg(TT.LParen));
      if open.Err? {
        return Err(open.error);
      }
      var args := ParseParams();
      if args.Err? {
        return Err(args.error);
      }
      var anno := ParseTypeAnno();
      if anno.Err? {
        return Err(anno.error);
      }
      r := Ok(FunSignature(id.loc, false, id.lexeme, args.value, anno.value, None, None));
    }

    /** The parameter loop of parse_fun_sig, after the '(', and the
        advance over the closing ')'. */
    method ParseParams() returns (r: Result<seq<DefArg>, Errors.Error>)
      requires Valid()
      modifies this
      ensures Valid() && Parsed(r, pos, ParamsAt(toks, old(pos), []))
    {
      var args: seq<DefArg> := [];
      while toks[pos].ty != TT.RParen
        invariant Valid() && ParamsAt(toks, old(pos), []) == ParamsAt(toks, pos, args)
        decreases |toks| - pos
      {
        var a := ParseDefArg();
        if a.Err? {
          return Err(a.error);
        }
        args := args + [a.value];
        if toks[pos].ty == TT.RParen {
          break;
        }
        var comma := Expect(TT.Comma, ParamSeparatorMsg);
        if comma.Err? {
          return Err(comma.error);
        }
      }
      Advance();
      r := Ok(args);
    }

    method ParseInternalStmt() returns (r: Result<Stmt, Errors.Error>)
      requires Valid() && toks[pos].ty == TT.Internal
      modifies this
      ensures Valid() && Parsed(r, pos, InternalStmtAt(toks, old(pos)))
      decreases |toks| - pos, 6
    {
      var loc := toks[pos].loc;
      Advance();
      var t := toks[pos].ty;
      if t == TT.Fun {
        r := ParseFunDef(Some(loc));
      } else if t == TT.Var || t == TT.Let {
        r := ParseVarInit(Some(loc));
      } else {
        r := Err(ErrorAt(toks, pos, InternalMsg));
      }
    }

    method ParseExprStmt() returns (r: Result<Stmt, Errors.Error>)
      requires Valid()
      modifies this
      ensures Valid() && Parsed(r, pos, ExprStmtAt(toks, old(pos)))
      decreases |toks| - pos, 6
    {
      var e := ParseExpr();
      if e.Err? {
        return Err(e.error);
      }
      var end := ExpectStmtEnd();
      if end.Err? {
        return Err(end.error);
      }
      r := Ok(NewStmt(e.value.loc, ExprStmt(e.value)));
    }

    method ParseExternalStmt() returns (r: Result<Stmt, Errors.Error>)
      requires Valid() && toks[pos].ty == TT.External
      modifies this
      ensures Valid() && Parsed(r, pos, ExternalStmtAt(toks, old(pos)))
    {
      var loc := toks[pos].loc;
      Advance();
      if toks[pos].ty != TT.Fun {
        return Err(ErrorAt(toks, pos, ExternalMsg));
      }
      var sig := ParseFunSig();
      if sig.Err? {
        return Err(sig.error);
      }
      var end := ExpectStmtEnd();
      if end.Err? {
        return Err(end.error);
      }
      r := Ok(NewStmt(loc, ExternalStmt(sig.value)));
    }
  }

  /** parse_file: a parser over the tokens, asked for statements until it
      has none. */
  method ParseFile(ts: seq<TT.Token>) returns (r: Result<seq<Stmt>, Errors.Error>)
    requires TokensOk(ts)
    ensures r == ParsedFile(ts)
  {
    var p := new Parser(ts);
    var ast: seq<Stmt> := [];
    while true
      invariant p.Valid() && p.toks == ts
      invariant FileAt(ts, 0, []) == FileAt(ts, p.pos, ast)
      decreases |ts| - p.pos
    {
      var node := p.ParseStmt();
      if node.Err? {
        return Err(node.error);
      }
      if node.value.None? {
        break;
      }
      ast := ast + [node.value.value];
    }
    r := Ok(ast);
  }
}
