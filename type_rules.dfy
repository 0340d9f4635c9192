/** The type environment and the typing rules of the checker
    (compiler/typing/type_checker.h, type_checker.cpp), each rule a function
    of the types of a node's children. */
module TypeRules {
  import opened Wrappers
  import opened Strings
  import opened Locations
  import opened Errors
  import opened Types
  import opened Ast
  import opened Formats

  /** type_env: interned types, keyed by their printed name. */
  type TypeEnv = map<string, Type>

  /** Every entry is stored under its own printed name and is a type the
      checker builds. The C++ compares interned types by address; with this
      invariant, comparing addresses is comparing the types themselves. */
  predicate EnvValid(env: TypeEnv) {
    forall k :: k in env ==> ToString(env[k]) == k && FirstOrder(env[k])
  }

  /** The driver interns the six basic types before checking starts, so that
      int_ty() and its siblings find them. */
  predicate HasBasics(env: TypeEnv) {
    "int" in env && "float" in env && "char" in env && "string" in env && "bool" in env && "unit" in env
  }

  /** add_type: the entry under the type's printed name, after inserting a
      clone when the name is new. */
  function AddType(env: TypeEnv, t: Type): (r: (TypeEnv, Type))
    ensures ToString(t) in r.0 && r.1 == r.0[ToString(t)]
  {
    var key := ToString(t);
    var env' := if key in env then env else env[key := Clone(t)];
    (env', env'[key])
  }

  /** add_type never replaces an entry, and grows the environment by at
      most the one new name. */
  lemma AddTypeKeepsEntries(env: TypeEnv, t: Type)
    ensures forall k :: k in env ==> k in AddType(env, t).0 && AddType(env, t).0[k] == env[k]
    ensures AddType(env, t).0.Keys == env.Keys + {ToString(t)}
  {
  }

  /** A second add_type of a type with the same printed name returns the
      entry the first one returned and leaves the environment as it was. */
  lemma AddTypeIdempotent(env: TypeEnv, t: Type, u: Type)
    requires ToString(u) == ToString(t)
    ensures AddType(AddType(env, t).0, u) == AddType(env, t)
  {
  }

  /** On a valid environment add_type returns the type itself and keeps the
      environment valid: interning merges only equal types. */
  lemma AddTypeInterns(env: TypeEnv, t: Type)
    requires EnvValid(env) && FirstOrder(t)
    ensures AddType(env, t).1 == t
    ensures EnvValid(AddType(env, t).0)
  {
    var key := ToString(t);
    if key in env {
      ToStringInjective(env[key], t);
    }
  }

  /** int_ty(), float_ty(), char_ty(), string_ty(), bool_ty() and unit_ty()
      are the basic types themselves. */
  lemma BasicTypesInterned(env: TypeEnv)
    requires EnvValid(env) && HasBasics(env)
    ensures env["int"] == IntTy && env["float"] == FloatTy && env["char"] == CharTy
    ensures env["string"] == StringTy && env["bool"] == BoolTy && env["unit"] == UnitTy
  {
    ToStringInjective(env["int"], IntTy);
    ToStringInjective(env["float"], FloatTy);
    ToStringInjective(env["char"], CharTy);
    ToStringInjective(env["string"], StringTy);
    ToStringInjective(env["bool"], BoolTy);
    ToStringInjective(env["unit"], UnitTy);
  }

  /** TypeChecker::visit(TypeAnno&) */
  function AnnoType(k: AnnoKind): (t: Type)
    ensures t.BasicTy?
  {
    match k
    case IntAnno => IntTy
    case FloatAnno => FloatTy
    case BoolAnno => BoolTy
    case CharAnno => CharTy
    case StringAnno => StringTy
    case UnitAnno => UnitTy
  }

  /** Different annotations denote different types. */
  lemma AnnoTypeInjective(k1: AnnoKind, k2: AnnoKind)
    ensures AnnoType(k1) == AnnoType(k2) ==> k1 == k2
  {
  }

  /** The type a signature denotes: its parameters' annotated types and its
      annotated return type. */
  function SigType(sig: FunSignature): (t: Type)
    ensures t.FunctionTy? && FirstOrder(t) && |t.argTypes| == |sig.args|
    ensures forall i :: 0 <= i < |sig.args| ==> t.argTypes[i] == AnnoType(sig.args[i].anno.kind)
    ensures t.returnType == AnnoType(sig.anno.kind)
  {
    FunctionTy(seq(|sig.args|, i requires 0 <= i < |sig.args| => AnnoType(sig.args[i].anno.kind)),
               AnnoType(sig.anno.kind))
  }

  /** is_num: the slot holds int or float (a null slot is not numeric). */
  predicate IsNum(t: Option<Type>) {
    t == Some(IntTy) || t == Some(FloatTy)
  }

  const BoolExpected := "Expected an expression of type bool!"
  const NumExpected := "Expected an expression of type int or float!"

  /** TypeChecker::visit(UnaryExpr&) once the operand is checked: the type
      to store, or the error. `Not` falls through into the numeric check as
      written, so no operand satisfies it. */
  function UnaryRule(op: UnaryOp, t: Option<Type>, operandLoc: Location): (r: Result<Option<Type>, Error>)
    ensures r.Ok? <==> op != Not && IsNum(t)
    ensures r.Ok? ==> r.value == t
    ensures op == Not && t != Some(BoolTy) ==> r == Err(Errors.Type(operandLoc, BoolExpected))
    ensures r.Err? && (op != Not || t == Some(BoolTy)) ==> r == Err(Errors.Type(operandLoc, NumExpected))
  {
    if op == Not && t != Some(BoolTy) then Err(Errors.Type(operandLoc, BoolExpected))
    else if !IsNum(t) then Err(Errors.Type(operandLoc, NumExpected))
    else Ok(t)
  }

  /** '+', '-', '*', '/' and '%': equal numeric operands, of that type. */
  function ArithmeticRule(l: Option<Type>, r: Option<Type>, loc: Location): (res: Result<Option<Type>, Error>)
    ensures res.Ok? <==> l == r && IsNum(l)
    ensures res.Ok? ==> res.value == l && l.Some?
    ensures res.Err? ==> res.error.Diag? && res.error.kind == TypeError && res.error.loc == loc
  {
    if l != r || !IsNum(l) then Err(Errors.Type(loc, "Arithmetic operations only work on expressions of type int or float!"))
    else Ok(l)
  }

  /** '==' and '!=': operands of the same type, giving bool. */
  function EqualityRule(l: Option<Type>, r: Option<Type>, loc: Location): (res: Result<Option<Type>, Error>)
    ensures res.Ok? <==> l == r
    ensures res.Ok? ==> res.value == Some(BoolTy)
    ensures res.Err? ==> res.error.Diag? && res.error.kind == TypeError && res.error.loc == loc
  {
    if l != r then Err(Errors.Type(loc, "Only expressions of the same type can be checked for (in)equality!"))
    else Ok(Some(BoolTy))
  }

  /** The orderings: operands of the same type, neither unit nor bool,
      giving bool. */
  function OrderingRule(l: Option<Type>, r: Option<Type>, loc: Location): (res: Result<Option<Type>, Error>)
    ensures res.Ok? <==> l == r && l != Some(UnitTy) && l != Some(BoolTy)
    ensures res.Ok? ==> res.value == Some(BoolTy)
    ensures res.Err? ==> res.error.Diag? && res.error.kind == TypeError && res.error.loc == loc
  {
    if l != r then Err(Errors.Type(loc, "Only expressions of the same type can be compared"))
    else if l == Some(UnitTy) || l == Some(BoolTy) then
      Err(Errors.Type(loc, "Expressions of type " + ToString(l.value) + "can't be compared"))
    else Ok(Some(BoolTy))
  }

  /** 'and' and 'or': two bool operands, giving bool. */
  function LogicalRule(opName: string, l: Option<Type>, r: Option<Type>, loc: Location): (res: Result<Option<Type>, Error>)
    ensures res.Ok? <==> l == Some(BoolTy) && r == Some(BoolTy)
    ensures res.Ok? ==> res.value == Some(BoolTy)
    ensures res.Err? ==> res.error.Diag? && res.error.kind == TypeError && res.error.loc == loc
  {
    if l != Some(BoolTy) || r != Some(BoolTy) then Err(Errors.Type(loc, opName + " expects two expressions of type bool"))
    else Ok(Some(BoolTy))
  }

  /** '^': two strings, and as written no type is stored (`None`). */
  function ConcatRule(l: Option<Type>, r: Option<Type>, loc: Location): (res: Result<Option<Type>, Error>)
    ensures res.Ok? <==> l == Some(StringTy) && r == Some(StringTy)
    ensures res.Ok? ==> res.value.None?
    ensures res.Err? ==> res.error.Diag? && res.error.kind == TypeError && res.error.loc == loc
  {
    if l != Some(StringTy) || r != Some(StringTy) then Err(Errors.Type(loc, "'^' expects two expressions of type string!"))
    else Ok(None)
  }

  /** TypeChecker::visit(BinaryExpr&) once both operands are checked: the
      type to store (`None` when the rule stores nothing), or the error,
      always a TypeError at the expression. */
  function BinaryRule(op: BinaryOp, l: Option<Type>, r: Option<Type>, loc: Location): (res: Result<Option<Type>, Error>)
    ensures res.Err? ==> res.error.Diag? && res.error.kind == TypeError && res.error.loc == loc
    ensures res.Ok? && res.value.None? ==> op == Concat
  {
    match op
    case Concat => ConcatRule(l, r, loc)
    case Equals | NotEquals => EqualityRule(l, r, loc)
    case Add | Sub | Mul | Div | Mod => ArithmeticRule(l, r, loc)
    case Less | Greater | LessEquals | GreaterEquals => OrderingRule(l, r, loc)
    case And | Or => LogicalRule(StrOfBinaryOp(op), l, r, loc)
  }
  /** What each binary rule stores: nothing for '^', bool for comparisons
      and logic, and the common numeric operand type for arithmetic. */
  lemma BinaryRuleTypes(op: BinaryOp, l: Option<Type>, r: Option<Type>, loc: Location)
    requires BinaryRule(op, l, r, loc).Ok?
    ensures op == Concat ==> BinaryRule(op, l, r, loc).value.None? && l == r == Some(StringTy)
    ensures op.Equals? || op.NotEquals? || op.Less? || op.Greater? || op.LessEquals? || op.GreaterEquals? || op.And? || op.Or? ==>
      BinaryRule(op, l, r, loc).value == Some(BoolTy)
    ensures op.Add? || op.Sub? || op.Mul? || op.Div? || op.Mod? ==> BinaryRule(op, l, r, loc).value == l && l == r && IsNum(l)
  {
    if op.Concat? {
      ConcatRuleType(op, l, r, loc);
    } else if op.Equals? || op.NotEquals? || op.Less? || op.Greater? || op.LessEquals? || op.GreaterEquals? || op.And? || op.Or? {
      ComparisonRuleType(op, l, r, loc);
    } else {
      ArithmeticRuleType(op, l, r, loc);
    }
  }

  lemma ConcatRuleType(op: BinaryOp, l: Option<Type>, r: Option<Type>, loc: Location)
    requires op.Concat? && BinaryRule(op, l, r, loc).Ok?
    ensures BinaryRule(op, l, r, loc).value.None? && l == r == Some(StringTy)
  {
    assert BinaryRule(op, l, r, loc) == ConcatRule(l, r, loc);
  }

  lemma ComparisonRuleType(op: BinaryOp, l: Option<Type>, r: Option<Type>, loc: Location)
    requires op.Equals? || op.NotEquals? || op.Less? || op.Greater? || op.LessEquals? || op.GreaterEquals? || op.And? || op.Or?
    requires BinaryRule(op, l, r, loc).Ok?
    ensures BinaryRule(op, l, r, loc).value == Some(BoolTy)
  {
    if op.Equals? || op.NotEquals? {
      EqualityRuleType(op, l, r, loc);
    } else if op.And? || op.Or? {
      LogicalRuleType(op, l, r, loc);
    } else {
      OrderingRuleType(op, l, r, loc);
    }
  }

  lemma EqualityRuleType(op: BinaryOp, l: Option<Type>, r: Option<Type>, loc: Location)
    requires (op.Equals? || op.NotEquals?) && BinaryRule(op, l, r, loc).Ok?
    ensures BinaryRule(op, l, r, loc).value == Some(BoolTy)
  {
    assert BinaryRule(op, l, r, loc) == EqualityRule(l, r, loc);
  }

  lemma LogicalRuleType(op: BinaryOp, l: Option<Type>, r: Option<Type>, loc: Location)
    requires (op.And? || op.Or?) && BinaryRule(op, l, r, loc).Ok?
    ensures BinaryRule(op, l, r, loc).value == Some(BoolTy)
  {
    assert BinaryRule(op, l, r, loc) == LogicalRule(StrOfBinaryOp(op), l, r, loc);
  }

  lemma OrderingRuleType(op: BinaryOp, l: Option<Type>, r: Option<Type>, loc: Location)
    requires (op.Less? || op.Greater? || op.LessEquals? || op.GreaterEquals?) && BinaryRule(op, l, r, loc).Ok?
    ensures BinaryRule(op, l, r, loc).value == Some(BoolTy)
  {
    assert BinaryRule(op, l, r, loc) == OrderingRule(l, r, loc);
  }

  lemma ArithmeticRuleType(op: BinaryOp, l: Option<Type>, r: Option<Type>, loc: Location)
    requires op.Add? || op.Sub? || op.Mul? || op.Div? || op.Mod?
    requires BinaryRule(op, l, r, loc).Ok?
    ensures BinaryRule(op, l, r, loc).value == l && l == r && IsNum(l)
  {
    assert BinaryRule(op, l, r, loc) == ArithmeticRule(l, r, loc);
  }


  /** Two operands whose types are both unset compare equal: a concatenation
      stores no type, so comparing two of them type-checks. */
  lemma UnsetTypesCompareEqual(loc: Location)
    ensures BinaryRule(Equals, None, None, loc) == Ok(Some(BoolTy))
    ensures BinaryRule(Less, None, None, loc) == Ok(Some(BoolTy))
  {
  }

  const NonUnitMessage := "Non unit expressions can only come at the end of a block.Consider using \"let\" or \"var\""

  // printf

  /** The first trailing argument, at index i or later, whose type does not
      match its directive (argument k pairs with directive k - 1). */
  function FirstMismatch(args: seq<Expr>, specs: seq<FormatSpecifier>, i: nat): (r: Option<nat>)
    requires 1 <= i && |args| == |specs| + 1
    ensures r.None? <==> forall k :: i <= k < |args| ==> ExprMatchesFormat(args[k].ty, specs[k - 1])
    ensures r.Some? ==> i <= r.value < |args| && !ExprMatchesFormat(args[r.value].ty, specs[r.value - 1])
    ensures r.Some? ==> forall k :: i <= k < r.value ==> ExprMatchesFormat(args[k].ty, specs[k - 1])
    decreases |args| - i
  {
    if i >= |args| then None
    else if !ExprMatchesFormat(args[i].ty, specs[i - 1]) then Some(i)
    else FirstMismatch(args, specs, i + 1)
  }

  /** The directives of printf's first argument, which must be a string
      literal. */
  function PrintfSpecifiers(call: Expr, args: seq<Expr>): (r: Result<seq<FormatSpecifier>, Error>)
    ensures r.Ok? ==> |args| > 0 && args[0].node.StringConst?
    ensures r.Ok? ==> FormatSpecifiers(args[0].node.sval, args[0].loc) == Ok(r.value)
    ensures |args| == 0 ==> r == Err(Errors.Type(call.loc, "printf expects at least one string literal"))
    ensures |args| > 0 && !args[0].node.StringConst? ==>
              r == Err(Errors.Type(args[0].loc, "printf expects a string literal as its first argument!"))
  {
    if |args| == 0 then Err(Errors.Type(call.loc, "printf expects at least one string literal"))
    else if !args[0].node.StringConst? then Err(Errors.Type(args[0].loc, "printf expects a string literal as its first argument!"))
    else FormatSpecifiers(args[0].node.sval, args[0].loc)
  }

  function PrintfCountMessage(specs: nat, found: nat): string {
    "printf expected " + NatToString(specs) + " arguments after the string literal, but found " + NatToString(found)
  }

  const PrintfMismatchMessage := "Format specifier and expression type don't match!"

  /** TypeChecker::handle_printf, given the checked arguments: the call is
      unit when every trailing argument matches its directive. */
  function PrintfRule(call: Expr, args: seq<Expr>): (r: Result<Type, Error>)
    ensures r.Ok? ==> r.value == UnitTy
    ensures r.Ok? <==> PrintfSpecifiers(call, args).Ok? && |args| == |PrintfSpecifiers(call, args).value| + 1 &&
                       forall k :: 1 <= k < |args| ==> ExprMatchesFormat(args[k].ty, PrintfSpecifiers(call, args).value[k - 1])
  {
    var specs :- PrintfSpecifiers(call, args);
    if |args| - 1 != |specs| then Err(Errors.Type(call.loc, PrintfCountMessage(|specs|, |args| - 1)))
    else match FirstMismatch(args, specs, 1)
      case Some(k) => Err(Errors.Type(specs[k - 1].loc, PrintfMismatchMessage))
      case None => Ok(UnitTy)
  }

  /** A mismatching trailing argument is reported at its directive's column,
      the first one in argument order. */
  lemma PrintfMismatchAt(call: Expr, args: seq<Expr>, k: nat)
    requires PrintfSpecifiers(call, args).Ok?
    requires |args| == |PrintfSpecifiers(call, args).value| + 1
    requires 1 <= k < |args| && !ExprMatchesFormat(args[k].ty, PrintfSpecifiers(call, args).value[k - 1])
    requires forall j :: 1 <= j < k ==> ExprMatchesFormat(args[j].ty, PrintfSpecifiers(call, args).value[j - 1])
    ensures PrintfRule(call, args) == Err(Errors.Type(PrintfSpecifiers(call, args).value[k - 1].loc, PrintfMismatchMessage))
  {
    var specs := PrintfSpecifiers(call, args).value;
    assert FirstMismatch(args, specs, 1) == Some(k);
  }

  /** printf("%d", x) checks exactly when x is an int. */
  lemma PrintfOneInt(call: Expr, lit: Expr, x: Expr)
    requires lit.node == StringConst("%d")
    ensures PrintfRule(call, [lit, x]).Ok? <==> x.ty == Some(IntTy)
  {
    var loc := lit.loc;
    assert !BadAt("%d", 0) && !BadAt("%d", 1);
    assert FirstBad("%d", 0) == FirstBad("%d", 1) == FirstBad("%d", 2) == None;
    assert DirectiveAt("%d", 0) && !DirectiveAt("%d", 1);
    assert Directives("%d", loc, 1) == Directives("%d", loc, 2) == [];
    assert Directives("%d", loc, 0) == [SpecAt("%d", loc, 0)];
    assert SpecAt("%d", loc, 0).kind == Integer;
  }

  // Function calls

  function ArityMessage(callee: string, found: nat, expected: nat): string {
    callee + " expects " + NatToString(found) + " arguments, found " + NatToString(expected)
  }

  function ArgTypeMessage(t: Type): string {
    "Expected an argument of type " + ToString(t)
  }

  /** The first argument, at index i or later, whose type is not its
      parameter's. */
  function FirstBadArg(args: seq<Expr>, params: seq<Type>, i: nat): (r: Option<nat>)
    requires |args| == |params|
    ensures r.None? <==> forall k :: i <= k < |args| ==> args[k].ty == Some(params[k])
    ensures r.Some? ==> i <= r.value < |args| && args[r.value].ty != Some(params[r.value])
    ensures r.Some? ==> forall k :: i <= k < r.value ==> args[k].ty == Some(params[k])
    decreases |args| - i
  {
    if i >= |args| then None
    else if args[i].ty != Some(params[i]) then Some(i)
    else FirstBadArg(args, params, i + 1)
  }

  /** The checks of TypeChecker::visit(FunCall&) against the callee's
      function type: arity first (the message names the argument count
      where it means the parameter count, and the other way round), then
      each argument in order; the call has the return type. */
  function CallRule(call: Expr, callee: string, args: seq<Expr>, fty: Type): (r: Result<Type, Error>)
    requires fty.FunctionTy?
    ensures r.Ok? <==> |args| == |fty.argTypes| && forall k :: 0 <= k < |args| ==> args[k].ty == Some(fty.argTypes[k])
    ensures r.Ok? ==> r.value == fty.returnType
    ensures |args| != |fty.argTypes| ==> r == Err(Errors.Type(call.loc, ArityMessage(callee, |args|, |fty.argTypes|)))
  {
    if |args| != |fty.argTypes| then Err(Errors.Type(call.loc, ArityMessage(callee, |args|, |fty.argTypes|)))
    else match FirstBadArg(args, fty.argTypes, 0)
      case Some(k) => Err(Errors.Type(args[k].loc, ArgTypeMessage(fty.argTypes[k])))
      case None => Ok(fty.returnType)
  }
}
