/** The syntax tree (compiler/AST). Each node carries the out-fields the
    later passes fill in: `parentScope` (set by name resolution) and `ty`
    (set by the type checker); a block and a function definition also name
    the scope they own once name resolution has created it. The passes
    return the tree with these fields filled in. */
module Ast {
  import opened Wrappers
  import opened Strings
  import opened Locations
  import opened Errors
  import opened Types
  import TT = TokenTypes

  /** Scopes live in an arena and are referred to by index. */
  type ScopeId = nat

  datatype UnaryOp = Minus | Plus | Not

  datatype BinaryOp =
    | Add | Sub | Mul | Div | Mod
    | Concat
    | Equals | NotEquals
    | And | Or
    | Greater | Less | GreaterEquals | LessEquals

  /** str_of_unary_op */
  function StrOfUnaryOp(op: UnaryOp): string {
    match op
    case Minus => "-"
    case Plus => "+"
    case Not => "not"
  }

  /** str_of_binary_op, with Mul printing as "+" as written. */
  function StrOfBinaryOp(op: BinaryOp): string {
    match op
    case Add => "+"
    case Sub => "-"
    case Mul => "+"
    case Div => "/"
    case Mod => "%"
    case Concat => "^"
    case Equals => "=="
    case NotEquals => "!="
    case Less => "<"
    case Greater => ">"
    case LessEquals => "<="
    case GreaterEquals => ">="
    case And => "and"
    case Or => "or"
  }

  /** unary_op_of_type */
  function UnaryOpOfType(t: TT.TokenType): (r: Result<UnaryOp, Error>)
    ensures r.Ok? <==> t in {TT.Plus, TT.Minus, TT.Not}
    ensures r.Err? ==> r.error == Internal("Invalid unary operand")
  {
    match t
    case Plus => Ok(UnaryOp.Plus)
    case Minus => Ok(UnaryOp.Minus)
    case Not => Ok(UnaryOp.Not)
    case _ => Err(Internal("Invalid unary operand"))
  }

  /** The tokens is_binary_op accepts. */
  predicate IsBinaryOpToken(t: TT.TokenType) {
    match t
    case Plus | Minus | Star | Slash | Percent | EqualsEquals | NotEquals
       | Less | Greater | LessEqual | GreaterEqual | Caret | And | Or => true
    case _ => false
  }

  /** binary_op_of_type */
  function BinaryOpOfType(t: TT.TokenType): (r: Result<BinaryOp, Error>)
    ensures r.Ok? <==> IsBinaryOpToken(t)
    ensures r.Err? ==> r.error == Internal("Invalid binary operand")
  {
    match t
    case Plus => Ok(Add)
    case Minus => Ok(Sub)
    case Star => Ok(Mul)
    case Slash => Ok(Div)
    case Percent => Ok(Mod)
    case EqualsEquals => Ok(Equals)
    case NotEquals => Ok(BinaryOp.NotEquals)
    case Less => Ok(BinaryOp.Less)
    case Greater => Ok(BinaryOp.Greater)
    case LessEqual => Ok(LessEquals)
    case GreaterEqual => Ok(GreaterEquals)
    case Caret => Ok(Concat)
    case And => Ok(BinaryOp.And)
    case Or => Ok(BinaryOp.Or)
    case _ => Err(Internal("Invalid binary operand"))
  }

  /** The token each operator is written with. */
  function TokenOfBinaryOp(op: BinaryOp): TT.TokenType {
    match op
    case Add => TT.Plus
    case Sub => TT.Minus
    case Mul => TT.Star
    case Div => TT.Slash
    case Mod => TT.Percent
    case Concat => TT.Caret
    case Equals => TT.EqualsEquals
    case NotEquals => TT.NotEquals
    case And => TT.And
    case Or => TT.Or
    case Greater => TT.Greater
    case Less => TT.Less
    case GreaterEquals => TT.GreaterEqual
    case LessEquals => TT.LessEqual
  }

  /** The binary operator map is one-to-one and onto: an operator comes
      from exactly one token, and every operator has one. */
  lemma BinaryOpOfTypeBijective(t: TT.TokenType, op: BinaryOp)
    ensures BinaryOpOfType(TokenOfBinaryOp(op)) == Ok(op)
    ensures BinaryOpOfType(t) == Ok(op) ==> t == TokenOfBinaryOp(op)
  {
  }

  /** Printing the operator parsed from a token gives the token's spelling,
      for every binary operator token except '*'. */
  lemma BinaryOpPrintsAsToken(t: TT.TokenType)
    requires IsBinaryOpToken(t)
    ensures t != TT.Star ==> StrOfBinaryOp(BinaryOpOfType(t).value) == TT.StrOfType(t)
    ensures t == TT.Star ==> StrOfBinaryOp(BinaryOpOfType(t).value) == "+" != TT.StrOfType(t)
  {
  }

  /** Printing the operator parsed from a token gives the token's spelling. */
  lemma UnaryOpPrintsAsToken(t: TT.TokenType)
    requires t in {TT.Plus, TT.Minus, TT.Not}
    ensures StrOfUnaryOp(UnaryOpOfType(t).value) == TT.StrOfType(t)
  {
  }

  /** TypeAnno::Kind */
  datatype AnnoKind = IntAnno | FloatAnno | CharAnno | StringAnno | BoolAnno | UnitAnno

  /** A type annotation with its two out-fields. */
  datatype TypeAnno = TypeAnno(loc: Location, kind: AnnoKind, scope: Option<ScopeId>, ty: Option<Type>)

  datatype Expr = Expr(loc: Location, parentScope: Option<ScopeId>, ty: Option<Type>, node: ExprNode)

  datatype ExprNode =
    | ParenExpr(inner: Expr)
    | UnaryExpr(uop: UnaryOp, operand: Expr)
    | BinaryExpr(bop: BinaryOp, lhs: Expr, rhs: Expr)
    | IdExpr(id: string)
    | FunCall(callee: string, args: seq<Expr>)
    | BlockExpr(body: seq<Stmt>, scope: Option<ScopeId>)
    | IfElseExpr(cond: Expr, ifBranch: Expr, elseBranch: Option<Expr>)
    | WhileExpr(whileCond: Expr, whileBody: Expr)
    | IntConst(ival: int)
    | FloatConst(flexeme: string)
    | CharConst(cval: char)
    | StringConst(sval: string)
    | BoolConst(bval: bool)

  datatype Stmt = Stmt(loc: Location, parentScope: Option<ScopeId>, ty: Option<Type>, node: StmtNode)

  datatype StmtNode =
    | VarInit(isInternal: bool, isConst: bool, id: string, anno: Option<TypeAnno>, val: Expr)
    | Assignment(assignee: string, newValue: Expr)
    | ExprStmt(expr: Expr)
    | FunDef(defInternal: bool, sig: FunSignature, body: Expr, fscope: Option<ScopeId>)
    | ExternalStmt(esig: FunSignature)

  datatype DefArg = DefArg(loc: Location, id: string, anno: TypeAnno, parentScope: Option<ScopeId>)

  datatype FunSignature = FunSignature(loc: Location, varArg: bool, id: string, args: seq<DefArg>,
                                       anno: TypeAnno, parentScope: Option<ScopeId>, ty: Option<Type>)

  /** A fresh node, with its out-fields empty. */
  function NewExpr(loc: Location, node: ExprNode): Expr { Expr(loc, None, None, node) }

  function NewStmt(loc: Location, node: StmtNode): Stmt { Stmt(loc, None, None, node) }

  function NewAnno(loc: Location, kind: AnnoKind): TypeAnno { TypeAnno(loc, kind, None, None) }

  /** BoolConst(tok): the value is true exactly for the `true` token. */
  function BoolConstOf(tok: TT.Token): (e: Expr)
    ensures e.loc == tok.loc && e.node.BoolConst?
    ensures e.node.bval <==> tok.ty == TT.True
  {
    NewExpr(tok.loc, BoolConst(tok.ty == TT.True))
  }

  /** CharConst(tok): the first character of the lexeme; an empty lexeme
      (the lexer's "\0" escape) reads the string's terminating '\0'. */
  function CharConstOf(tok: TT.Token): (e: Expr)
    ensures e.loc == tok.loc && e.node.CharConst?
    ensures |tok.lexeme| > 0 ==> e.node.cval == tok.lexeme[0]
    ensures |tok.lexeme| == 0 ==> e.node.cval == '\0'
  {
    NewExpr(tok.loc, CharConst(if |tok.lexeme| > 0 then tok.lexeme[0] else '\0'))
  }

  const IntMax: int := 0x7fff_ffff

  /** std::stoi: leading white space, an optional sign and the longest run
      of decimal digits; no digits throws invalid_argument and a value
      outside the 32-bit range throws out_of_range. */
  function Stoi(s: string): (r: Result<int, Error>)
    ensures r.Ok? ==> -IntMax - 1 <= r.value <= IntMax
    decreases |s|
  {
    if |s| > 0 && IsSpace(s[0]) then Stoi(s[1..])
    else
      var neg := |s| > 0 && s[0] == '-';
      var rest := if |s| > 0 && (s[0] == '-' || s[0] == '+') then s[1..] else s;
      var digits := LeadingDigits(rest);
      if |digits| == 0 then Err(Internal("stoi"))
      else
        var d: int := DecimalValue(digits);
        var v := if neg then -d else d;
        if v < -IntMax - 1 || v > IntMax then Err(Internal("stoi")) else Ok(v)
  }

  /** On what the lexer produces for an integer literal (a digit run), stoi
      is the decimal value whenever it fits. */
  lemma StoiOfDigits(s: string)
    requires |s| > 0 && AllDigits(s)
    ensures DecimalValue(s) <= IntMax ==> Stoi(s) == Ok(DecimalValue(s))
    ensures DecimalValue(s) > IntMax ==> Stoi(s).Err?
  {
    assert !IsSpace(s[0]) && s[0] != '-' && s[0] != '+';
    LeadingDigitsOfDigits(s);
  }

  lemma {:induction false} LeadingDigitsOfDigits(s: string)
    requires AllDigits(s)
    ensures LeadingDigits(s) == s
  {
    if s != [] {
      LeadingDigitsOfDigits(s[1..]);
    }
  }

  /** IntConst(tok) */
  function IntConstOf(tok: TT.Token): (r: Result<Expr, Error>)
    ensures r.Ok? ==> r.value.loc == tok.loc && r.value.node.IntConst?
    ensures r.Ok? <==> Stoi(tok.lexeme).Ok?
  {
    var v :- Stoi(tok.lexeme);
    Ok(NewExpr(tok.loc, IntConst(v)))
  }

  /** The constant holds the value stoi reads from the lexeme, and a lexeme
      stoi rejects gives stoi's own error. */
  lemma IntConstValue(tok: TT.Token)
    ensures IntConstOf(tok).Ok? ==> IntConstOf(tok).value.node.ival == Stoi(tok.lexeme).value
    ensures IntConstOf(tok).Err? ==> IntConstOf(tok).error == Stoi(tok.lexeme).error
  {
  }

  /** The examples of the parser suite: "2" is the integer 2. */
  lemma IntConstExample(loc: Location)
    ensures IntConstOf(TT.Token(TT.IntConst, "2", loc)) == Ok(NewExpr(loc, IntConst(2)))
  {
    StoiOfDigits("2");
  }
}
