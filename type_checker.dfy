/** The type checker's walk (compiler/typing/type_checker.cpp). Every node
    gets its type slot filled in; identifiers, definitions and parameters
    read and write the type slot of the symbol their `parentScope` resolves
    the name to; signatures intern their function type with add_type.

    `TcExpr`, `TcStmt` and their helpers state the walk as functions of the
    arena and the type environment; the class `TypeChecker` is the visitor
    itself, proved to agree with them. */
module TypeChecking {
  import opened Wrappers
  import opened Strings
  import opened Locations
  import opened Errors
  import opened Types
  import opened Ast
  import opened Symbols
  import opened Scopes
  import opened Formats
  import opened TypeRules

  /** The state after a visit (the arena with its type slots, and the type
      environment), with the visited node. */
  datatype Checked<T> = Checked(scopes: seq<Scope>, env: TypeEnv, node: T)

  predicate Fits(sc: seq<Scope>, env: TypeEnv) {
    WellFormed(sc) && EnvValid(env) && HasBasics(env)
  }

  /** A visit neither adds nor removes scopes, and keeps every interned name. */
  predicate Keeps(sc: seq<Scope>, env: TypeEnv, sc': seq<Scope>, env': TypeEnv) {
    |sc'| == |sc| && env.Keys <= env'.Keys
  }

  const NullScopeMessage := "parent_scope was never set"
  const NullTypeMessage := "to_string called on a type that was never set"
  const NotFunctionTypeMessage := "dynamic_cast<FunctionTy*> found no function type"
  const BadVariantMessage := "bad_variant_access: the symbol is not a FunSymbol"

  /** parent_scope->get_symbol(id). A parent link that name resolution did
      not set is null. */
  function SymbolAt(sc: seq<Scope>, ps: Option<ScopeId>, id: string): (r: Result<Symbol, Error>)
    requires WellFormed(sc)
    ensures r.Ok? ==> ps.Some? && ps.value < |sc| && Resolve(sc, ps.value, id) == Some(r.value)
  {
    if ps.None? || ps.value >= |sc| then Err(Undefined(NullScopeMessage))
    else GetSymbol(sc, ps.value, id)
  }

  /** parent_scope->get_symbol(id).type = ty */
  function SetAt(sc: seq<Scope>, ps: Option<ScopeId>, id: string, ty: Option<Type>): (r: Result<seq<Scope>, Error>)
    requires WellFormed(sc)
    ensures r.Ok? <==> SymbolAt(sc, ps, id).Ok?
    ensures r.Ok? ==> WellFormed(r.value) && |r.value| == |sc|
    ensures r.Ok? ==> Resolve(r.value, ps.value, id) == Some(SymbolAt(sc, ps, id).value.(ty := ty))
  {
    if ps.None? || ps.value >= |sc| then Err(Undefined(NullScopeMessage))
    else SetSymbolType(sc, ps.value, id, ty)
  }

  /** TypeChecker::visit for an expression. */
  function TcExpr(sc: seq<Scope>, env: TypeEnv, e: Expr): (r: Result<Checked<Expr>, Error>)
    requires Fits(sc, env)
    ensures r.Ok? ==> Fits(r.value.scopes, r.value.env) && Keeps(sc, env, r.value.scopes, r.value.env)
    ensures r.Ok? ==> r.value.node.loc == e.loc && r.value.node.parentScope == e.parentScope
    decreases e, 2
  {
    match e.node
    case ParenExpr(x) =>
      var o :- TcExpr(sc, env, x);
      Ok(Checked(o.scopes, o.env, e.(ty := o.node.ty, node := ParenExpr(o.node))))
    case UnaryExpr(_, _) => TcUnary(sc, env, e)
    case BinaryExpr(_, _, _) => TcBinary(sc, env, e)
    case IdExpr(id) =>
      var sym :- SymbolAt(sc, e.parentScope, id);
      Ok(Checked(sc, env, e.(ty := sym.ty)))
    case FunCall(_, _) => TcCall(sc, env, e)
    case BlockExpr(_, _) => TcBlock(sc, env, e)
    case IfElseExpr(_, _, _) => TcIfElse(sc, env, e)
    case WhileExpr(_, _) => TcWhile(sc, env, e)
    case IntConst(_) => Ok(Checked(sc, env, e.(ty := Some(IntTy))))
    case FloatConst(_) => Ok(Checked(sc, env, e.(ty := Some(FloatTy))))
    case CharConst(_) => Ok(Checked(sc, env, e.(ty := Some(CharTy))))
    case StringConst(_) => Ok(Checked(sc, env, e.(ty := Some(StringTy))))
    case BoolConst(_) => Ok(Checked(sc, env, e.(ty := Some(BoolTy))))
  }

  /** TypeChecker::visit(UnaryExpr&) */
  function TcUnary(sc: seq<Scope>, env: TypeEnv, e: Expr): (r: Result<Checked<Expr>, Error>)
    requires Fits(sc, env) && e.node.UnaryExpr?
    ensures r.Ok? ==> Fits(r.value.scopes, r.value.env) && Keeps(sc, env, r.value.scopes, r.value.env)
    ensures r.Ok? ==> r.value.node.loc == e.loc && r.value.node.parentScope == e.parentScope
    decreases e, 1
  {
    var UnaryExpr(op, x) := e.node;
    var o :- TcExpr(sc, env, x);
    var t :- UnaryRule(op, o.node.ty, x.loc);
    Ok(Checked(o.scopes, o.env, e.(ty := t, node := UnaryExpr(op, o.node))))
  }

  /** TypeChecker::visit(BinaryExpr&); a rule that stores no type leaves
      the node's slot as it was. */
  function TcBinary(sc: seq<Scope>, env: TypeEnv, e: Expr): (r: Result<Checked<Expr>, Error>)
    requires Fits(sc, env) && e.node.BinaryExpr?
    ensures r.Ok? ==> Fits(r.value.scopes, r.value.env) && Keeps(sc, env, r.value.scopes, r.value.env)
    ensures r.Ok? ==> r.value.node.loc == e.loc && r.value.node.parentScope == e.parentScope
    decreases e, 1
  {
    var BinaryExpr(op, lhs, rhs) := e.node;
    var o1 :- TcExpr(sc, env, lhs);
    var o2 :- TcExpr(o1.scopes, o1.env, rhs);
    var t :- BinaryRule(op, o1.node.ty, o2.node.ty, e.loc);
    Ok(Checked(o2.scopes, o2.env, e.(ty := if t.Some? then t else e.ty, node := BinaryExpr(op, o1.node, o2.node))))
  }

  /** TypeChecker::visit(WhileExpr&) */
  function TcWhile(sc: seq<Scope>, env: TypeEnv, e: Expr): (r: Result<Checked<Expr>, Error>)
    requires Fits(sc, env) && e.node.WhileExpr?
    ensures r.Ok? ==> Fits(r.value.scopes, r.value.env) && Keeps(sc, env, r.value.scopes, r.value.env)
    ensures r.Ok? ==> r.value.node.loc == e.loc && r.value.node.parentScope == e.parentScope
    decreases e, 1
  {
    var WhileExpr(c, b) := e.node;
    var o1 :- TcExpr(sc, env, c);
    if o1.node.ty != Some(BoolTy) then Err(Errors.Type(c.loc, BoolExpected))
    else
      var o2 :- TcExpr(o1.scopes, o1.env, b);
      Ok(Checked(o2.scopes, o2.env, e.(ty := o2.node.ty, node := WhileExpr(o1.node, o2.node))))
  }

  /** TypeChecker::visit(IfElseExpr&) */
  function TcIfElse(sc: seq<Scope>, env: TypeEnv, e: Expr): (r: Result<Checked<Expr>, Error>)
    requires Fits(sc, env) && e.node.IfElseExpr?
    ensures r.Ok? ==> Fits(r.value.scopes, r.value.env) && Keeps(sc, env, r.value.scopes, r.value.env)
    ensures r.Ok? ==> r.value.node.loc == e.loc && r.value.node.parentScope == e.parentScope
    decreases e, 1
  {
    var IfElseExpr(c, t, el) := e.node;
    var o1 :- TcExpr(sc, env, c);
    if o1.node.ty != Some(BoolTy) then Err(Errors.Type(c.loc, BoolExpected))
    else
      var o2 :- TcExpr(o1.scopes, o1.env, t);
      if o2.node.ty != Some(UnitTy) && el.None? then
        Err(Errors.Type(e.loc, "if branch isn't of type unit but there is no else branch!"))
      else if el.None? then
        Ok(Checked(o2.scopes, o2.env, e.(ty := o2.node.ty, node := IfElseExpr(o1.node, o2.node, None))))
      else
        var o3 :- TcExpr(o2.scopes, o2.env, el.value);
        if o2.node.ty != o3.node.ty then Err(Errors.Type(e.loc, "Both branches need to have the same type!"))
        else Ok(Checked(o3.scopes, o3.env, e.(ty := o2.node.ty, node := IfElseExpr(o1.node, o2.node, Some(o3.node)))))
  }

  /** TypeChecker::visit(BlockExpr&) */
  function TcBlock(sc: seq<Scope>, env: TypeEnv, e: Expr): (r: Result<Checked<Expr>, Error>)
    requires Fits(sc, env) && e.node.BlockExpr?
    ensures r.Ok? ==> Fits(r.value.scopes, r.value.env) && Keeps(sc, env, r.value.scopes, r.value.env)
    ensures r.Ok? ==> r.value.node.loc == e.loc && r.value.node.parentScope == e.parentScope
    decreases e, 1
  {
    var BlockExpr(body, s) := e.node;
    if body == [] then Ok(Checked(sc, env, e.(ty := Some(UnitTy))))
    else
      var o :- TcBody(sc, env, body);
      Ok(Checked(o.scopes, o.env, e.(ty := o.node[|o.node| - 1].ty, node := BlockExpr(o.node, s))))
  }

  /** The statements of a block, each but the last required to be unit. */
  function TcBody(sc: seq<Scope>, env: TypeEnv, ss: seq<Stmt>): (r: Result<Checked<seq<Stmt>>, Error>)
    requires Fits(sc, env)
    ensures r.Ok? ==> Fits(r.value.scopes, r.value.env) && Keeps(sc, env, r.value.scopes, r.value.env)
    ensures r.Ok? ==> |r.value.node| == |ss|
    decreases ss
  {
    if ss == [] then Ok(Checked(sc, env, []))
    else
      var o1 :- TcStmt(sc, env, ss[0]);
      if |ss| > 1 && o1.node.ty != Some(UnitTy) then Err(Errors.Type(ss[0].loc, NonUnitMessage))
      else
        var o2 :- TcBody(o1.scopes, o1.env, ss[1..]);
        Ok(Checked(o2.scopes, o2.env, [o1.node] + o2.node))
  }

  /** A list of expressions, left to right. */
  function TcExprs(sc: seq<Scope>, env: TypeEnv, es: seq<Expr>): (r: Result<Checked<seq<Expr>>, Error>)
    requires Fits(sc, env)
    ensures r.Ok? ==> Fits(r.value.scopes, r.value.env) && Keeps(sc, env, r.value.scopes, r.value.env)
    ensures r.Ok? ==> |r.value.node| == |es|
    decreases es
  {
    if es == [] then Ok(Checked(sc, env, []))
    else
      var o1 :- TcExpr(sc, env, es[0]);
      var o2 :- TcExprs(o1.scopes, o1.env, es[1..]);
      Ok(Checked(o2.scopes, o2.env, [o1.node] + o2.node))
  }

  /** TypeChecker::visit(FunCall&): the arguments first, then printf's own
      rule or the callee's function type. */
  function TcCall(sc: seq<Scope>, env: TypeEnv, e: Expr): (r: Result<Checked<Expr>, Error>)
    requires Fits(sc, env) && e.node.FunCall?
    ensures r.Ok? ==> Fits(r.value.scopes, r.value.env) && Keeps(sc, env, r.value.scopes, r.value.env)
    ensures r.Ok? ==> r.value.node.loc == e.loc && r.value.node.parentScope == e.parentScope
    decreases e, 1
  {
    var FunCall(callee, args) := e.node;
    var o :- TcExprs(sc, env, args);
    var call := e.(node := FunCall(callee, o.node));
    if callee == "printf" then
      var t :- PrintfRule(call, o.node);
      Ok(Checked(o.scopes, o.env, call.(ty := Some(t))))
    else
      var f :- CalleeType(o.scopes, o.env, e.parentScope, callee);
      var t :- CallRule(call, callee, o.node, f.node);
      Ok(Checked(f.scopes, f.env, call.(ty := Some(t))))
  }

  /** The callee's function type. A callee whose slot is still null has its
      signature checked on demand and the result stored in its slot. */
  function CalleeType(sc: seq<Scope>, env: TypeEnv, ps: Option<ScopeId>, callee: string): (r: Result<Checked<Type>, Error>)
    requires Fits(sc, env)
    ensures r.Ok? ==> Fits(r.value.scopes, r.value.env) && Keeps(sc, env, r.value.scopes, r.value.env)
    ensures r.Ok? ==> r.value.node.FunctionTy?
  {
    var sym :- SymbolAt(sc, ps, callee);
    if sym.ty.Some? then FunctionTypeOf(sc, env, sym.ty)
    else if !sym.kind.FunSymbol? then Err(Internal(BadVariantMessage))
    else
      var added := AddType(env, SigType(sym.kind.sig));
      AddTypeInterns(env, SigType(sym.kind.sig));
      AddTypeKeepsEntries(env, SigType(sym.kind.sig));
      FunctionTypeOf(SetAt(sc, ps, callee, Some(added.1)).value, added.0, Some(added.1))
  }

  /** dynamic_cast<FunctionTy*> of a type slot. */
  function FunctionTypeOf(sc: seq<Scope>, env: TypeEnv, ty: Option<Type>): (r: Result<Checked<Type>, Error>)
    ensures r.Ok? <==> ty.Some? && ty.value.FunctionTy?
    ensures r.Ok? ==> r.value == Checked(sc, env, ty.value)
  {
    if ty.Some? && ty.value.FunctionTy? then Ok(Checked(sc, env, ty.value)) else Err(Undefined(NotFunctionTypeMessage))
  }

  /** TypeChecker::visit for a statement. */
  function TcStmt(sc: seq<Scope>, env: TypeEnv, st: Stmt): (r: Result<Checked<Stmt>, Error>)
    requires Fits(sc, env)
    ensures r.Ok? ==> Fits(r.value.scopes, r.value.env) && Keeps(sc, env, r.value.scopes, r.value.env)
    ensures r.Ok? ==> r.value.node.loc == st.loc && r.value.node.parentScope == st.parentScope
    decreases st, 2
  {
    match st.node
    case ExprStmt(x) =>
      var o :- TcExpr(sc, env, x);
      Ok(Checked(o.scopes, o.env, st.(ty := o.node.ty, node := ExprStmt(o.node))))
    case VarInit(_, _, _, _, _) => TcVarInit(sc, env, st)
    case Assignment(_, _) => TcAssignment(sc, env, st)
    case FunDef(_, _, _, _) => TcFunDef(sc, env, st)
    case ExternalStmt(sig) =>
      var s :- TcSig(sc, env, sig);
      var sc1 :- SetAt(s.scopes, st.parentScope, sig.id, s.node.ty);
      Ok(Checked(sc1, s.env, st.(ty := Some(UnitTy), node := ExternalStmt(s.node))))
  }

  /** TypeChecker::visit(VarInit&) */
  function TcVarInit(sc: seq<Scope>, env: TypeEnv, st: Stmt): (r: Result<Checked<Stmt>, Error>)
    requires Fits(sc, env) && st.node.VarInit?
    ensures r.Ok? ==> Fits(r.value.scopes, r.value.env) && Keeps(sc, env, r.value.scopes, r.value.env)
    ensures r.Ok? ==> r.value.node.loc == st.loc && r.value.node.parentScope == st.parentScope
    decreases st, 1
  {
    var VarInit(isInternal, isConst, id, anno, val) := st.node;
    var o :- TcExpr(sc, env, val);
    if anno.Some? && Some(AnnoType(anno.value.kind)) != o.node.ty then Err(AnnoMismatch(st.loc))
    else
      var anno' := if anno.Some? then Some(anno.value.(ty := Some(AnnoType(anno.value.kind)))) else None;
      var sc1 :- SetAt(o.scopes, st.parentScope, id, o.node.ty);
      Ok(Checked(sc1, o.env, st.(ty := Some(UnitTy), node := VarInit(isInternal, isConst, id, anno', o.node))))
  }

  /** TypeChecker::visit(Assignment&). The error message prints the slot's
      type, which is a null dereference when the slot is still null. */
  function TcAssignment(sc: seq<Scope>, env: TypeEnv, st: Stmt): (r: Result<Checked<Stmt>, Error>)
    requires Fits(sc, env) && st.node.Assignment?
    ensures r.Ok? ==> Fits(r.value.scopes, r.value.env) && Keeps(sc, env, r.value.scopes, r.value.env)
    ensures r.Ok? ==> r.value.node.loc == st.loc && r.value.node.parentScope == st.parentScope
    decreases st, 1
  {
    var Assignment(target, v) := st.node;
    var o :- TcExpr(sc, env, v);
    var sym :- SymbolAt(o.scopes, st.parentScope, target);
    if o.node.ty != sym.ty then
      if sym.ty.None? then Err(Undefined(NullTypeMessage))
      else Err(Errors.Type(st.loc, target + " has type " + ToString(sym.ty.value)))
    else Ok(Checked(o.scopes, o.env, st.(ty := Some(UnitTy), node := Assignment(target, o.node))))
  }

  const MainReturnMessage := "The main function has to have a return type of int"
  const BodyTypeMessage := "Type of function body doesn't match type annotation"

  /** TypeChecker::visit(FunDef&) */
  function TcFunDef(sc: seq<Scope>, env: TypeEnv, st: Stmt): (r: Result<Checked<Stmt>, Error>)
    requires Fits(sc, env) && st.node.FunDef?
    ensures r.Ok? ==> Fits(r.value.scopes, r.value.env) && Keeps(sc, env, r.value.scopes, r.value.env)
    ensures r.Ok? ==> r.value.node.loc == st.loc && r.value.node.parentScope == st.parentScope
    decreases st, 1
  {
    var FunDef(isInternal, sig, body, f) := st.node;
    var s :- TcSig(sc, env, sig);
    var b :- TcExpr(s.scopes, s.env, body);
    var ret := AnnoType(sig.anno.kind);
    if sig.id == "main" && ret != IntTy then Err(Token(MainReturnMessage, sig.anno.loc))
    else if b.node.ty != Some(ret) then Err(Token(BodyTypeMessage, sig.loc))
    else
      var sc1 :- SetAt(b.scopes, st.parentScope, sig.id, s.node.ty);
      Ok(Checked(sc1, b.env, st.(ty := Some(UnitTy), node := FunDef(isInternal, s.node, b.node, f))))
  }

  /** TypeChecker::visit(FunSignature&): each parameter's slot gets its
      annotated type, and the signature gets its interned function type. */
  function TcSig(sc: seq<Scope>, env: TypeEnv, sig: FunSignature): (r: Result<Checked<FunSignature>, Error>)
    requires Fits(sc, env)
    ensures r.Ok? ==> Fits(r.value.scopes, r.value.env) && Keeps(sc, env, r.value.scopes, r.value.env)
    ensures r.Ok? ==> r.value.node.ty == Some(SigType(sig)) && r.value.node.id == sig.id
    ensures r.Ok? ==> r.value.node.anno.ty == Some(AnnoType(sig.anno.kind))
  {
    var a :- TcArgs(sc, env, sig.args);
    var added := AddType(env, SigType(sig));
    AddTypeInterns(env, SigType(sig));
    AddTypeKeepsEntries(env, SigType(sig));
    Ok(Checked(a.scopes, added.0, sig.(args := a.node, anno := sig.anno.(ty := Some(AnnoType(sig.anno.kind))), ty := Some(added.1))))
  }

  /** TypeChecker::visit(DefArg&) for each parameter in order. */
  function TcArgs(sc: seq<Scope>, env: TypeEnv, args: seq<DefArg>): (r: Result<Checked<seq<DefArg>>, Error>)
    requires Fits(sc, env)
    ensures r.Ok? ==> Fits(r.value.scopes, r.value.env) && r.value.env == env && |r.value.scopes| == |sc|
    ensures r.Ok? ==> |r.value.node| == |args|
    decreases |args|
  {
    if args == [] then Ok(Checked(sc, env, []))
    else
      var a := args[0].(anno := args[0].anno.(ty := Some(AnnoType(args[0].anno.kind))));
      var sc1 :- SetAt(sc, a.parentScope, a.id, a.anno.ty);
      var o :- TcArgs(sc1, env, args[1..]);
      Ok(Checked(o.scopes, o.env, [a] + o.node))
  }

  /** Module::run_type_checker: the module's statements in order. */
  function TcStmts(sc: seq<Scope>, env: TypeEnv, ss: seq<Stmt>): (r: Result<Checked<seq<Stmt>>, Error>)
    requires Fits(sc, env)
    ensures r.Ok? ==> Fits(r.value.scopes, r.value.env) && Keeps(sc, env, r.value.scopes, r.value.env)
    ensures r.Ok? ==> |r.value.node| == |ss|
    decreases ss
  {
    if ss == [] then Ok(Checked(sc, env, []))
    else
      var o1 :- TcStmt(sc, env, ss[0]);
      var o2 :- TcStmts(o1.scopes, o1.env, ss[1..]);
      Ok(Checked(o2.scopes, o2.env, [o1.node] + o2.node))
  }

  /** A visit's outcome agrees with the walk's: the same result or error,
      and on success the same arena and environment. */
  predicate Agrees<T(==)>(r: Result<T, Error>, scopes: seq<Scope>, env: TypeEnv, spec: Result<Checked<T>, Error>) {
    && (r.Ok? <==> spec.Ok?)
    && (r.Ok? ==> r.value == spec.value.node && scopes == spec.value.scopes && env == spec.value.env)
    && (r.Err? ==> r.error == spec.error)
  }

  /** The walk over a list, with the already visited prefix in front. */
  function Prepend<T>(done: seq<T>, r: Result<Checked<seq<T>>, Error>): Result<Checked<seq<T>>, Error> {
    if r.Ok? then Ok(Checked(r.value.scopes, r.value.env, done + r.value.node)) else r
  }

  lemma PrependNothing<T>(r: Result<Checked<seq<T>>, Error>)
    ensures Prepend([], r) == r
  {
    if r.Ok? {
      assert [] + r.value.node == r.value.node;
    }
  }

  lemma PrependDone<T>(done: seq<T>, x: T, r: Result<Checked<seq<T>>, Error>)
    ensures Prepend(done, if r.Ok? then Ok(Checked(r.value.scopes, r.value.env, [x] + r.value.node)) else r) == Prepend(done + [x], r)
  {
    if r.Ok? {
      assert done + ([x] + r.value.node) == (done + [x]) + r.value.node;
    }
  }

  /** One step of the walk over a list of expressions. */
  lemma TcExprsStep(sc: seq<Scope>, env: TypeEnv, es: seq<Expr>, i: nat, done: seq<Expr>)
    requires Fits(sc, env) && i < |es|
    ensures var o := TcExpr(sc, env, es[i]);
      Prepend(done, TcExprs(sc, env, es[i..])) ==
      if o.Err? then Err(o.error)
      else Prepend(done + [o.value.node], TcExprs(o.value.scopes, o.value.env, es[i + 1..]))
  {
    assert es[i..][0] == es[i] && es[i..][1..] == es[i + 1..];
    var o := TcExpr(sc, env, es[i]);
    if o.Ok? {
      PrependDone(done, o.value.node, TcExprs(o.value.scopes, o.value.env, es[i + 1..]));
    }
  }

  /** One step of the walk over a block: a statement that is not the last
      must be unit. */
  /** The i-th statement of a block, which must be unit unless it is the
      last. */
  function BodyStmt(sc: seq<Scope>, env: TypeEnv, ss: seq<Stmt>, i: nat): (r: Result<Checked<Stmt>, Error>)
    requires Fits(sc, env) && i < |ss|
    ensures r.Ok? ==> Fits(r.value.scopes, r.value.env)
    ensures r.Ok? && i != |ss| - 1 ==> r.value.node.ty == Some(UnitTy)
  {
    var o :- TcStmt(sc, env, ss[i]);
    if i != |ss| - 1 && o.node.ty != Some(UnitTy) then Err(Errors.Type(ss[i].loc, NonUnitMessage))
    else Ok(o)
  }

  lemma TcBodyStep(sc: seq<Scope>, env: TypeEnv, ss: seq<Stmt>, i: nat, done: seq<Stmt>)
    requires Fits(sc, env) && i < |ss|
    ensures var o := BodyStmt(sc, env, ss, i);
      Prepend(done, TcBody(sc, env, ss[i..])) ==
      if o.Err? then Err(o.error)
      else Prepend(done + [o.value.node], TcBody(o.value.scopes, o.value.env, ss[i + 1..]))
  {
    assert ss[i..][0] == ss[i] && ss[i..][1..] == ss[i + 1..];
    var o := BodyStmt(sc, env, ss, i);
    if o.Ok? {
      PrependDone(done, o.value.node, TcBody(o.value.scopes, o.value.env, ss[i + 1..]));
    }
  }

  /** One step of the walk over the module's statements. */
  lemma TcStmtsStep(sc: seq<Scope>, env: TypeEnv, ss: seq<Stmt>, i: nat, done: seq<Stmt>)
    requires Fits(sc, env) && i < |ss|
    ensures var o := TcStmt(sc, env, ss[i]);
      Prepend(done, TcStmts(sc, env, ss[i..])) ==
      if o.Err? then Err(o.error)
      else Prepend(done + [o.value.node], TcStmts(o.value.scopes, o.value.env, ss[i + 1..]))
  {
    assert ss[i..][0] == ss[i] && ss[i..][1..] == ss[i + 1..];
    var o := TcStmt(sc, env, ss[i]);
    if o.Ok? {
      PrependDone(done, o.value.node, TcStmts(o.value.scopes, o.value.env, ss[i + 1..]));
    }
  }

  /** One step of the walk over a signature's parameters. */
  /** One more parameter type of the signature's function type. */
  lemma SigTypesStep(sig: FunSignature, i: nat, argTypes: seq<Type>)
    requires i < |sig.args| && argTypes == SigType(sig).argTypes[..i]
    ensures argTypes + [AnnoType(sig.args[i].anno.kind)] == SigType(sig).argTypes[..i + 1]
  {
  }

  lemma TcArgsStep(sc: seq<Scope>, env: TypeEnv, args: seq<DefArg>, i: nat, done: seq<DefArg>)
    requires Fits(sc, env) && i < |args|
    ensures var a := args[i].(anno := args[i].anno.(ty := Some(AnnoType(args[i].anno.kind))));
      var upd := SetAt(sc, a.parentScope, a.id, a.anno.ty);
      Prepend(done, TcArgs(sc, env, args[i..])) ==
      if upd.Err? then Err(upd.error)
      else Prepend(done + [a], TcArgs(upd.value, env, args[i + 1..]))
  {
    assert args[i..][0] == args[i] && args[i..][1..] == args[i + 1..];
    var a := args[i].(anno := args[i].anno.(ty := Some(AnnoType(args[i].anno.kind))));
    var upd := SetAt(sc, a.parentScope, a.id, a.anno.ty);
    if upd.Ok? {
      PrependDone(done, a, TcArgs(upd.value, env, args[i + 1..]));
    }
  }

  /** The TypeChecker visitor: the type environment it interns into, and the
      module's scopes whose type slots it fills in. */
  class TypeChecker {
    var env: TypeEnv
    const table: ScopeTable

    ghost predicate Valid()
      reads this, table
    {
      table.Valid() && Fits(table.scopes, env)
    }

    constructor (table: ScopeTable, env: TypeEnv)
      requires table.Valid() && Fits(table.scopes, env)
      ensures this.table == table && this.env == env && Valid()
    {
      this.table := table;
      this.env := env;
    }

    /** TypeChecker::add_type */
    method AddType(t: Type) returns (p: Type)
      requires Valid() && FirstOrder(t)
      modifies this
      ensures Valid()
      ensures (env, p) == TypeRules.AddType(old(env), t)
    {
      AddTypeInterns(env, t);
      AddTypeKeepsEntries(env, t);
      var key := ToString(t);
      if key !in env {
        env := env[key := Clone(t)];
      }
      p := env[key];
    }

    /** parent_scope->get_symbol(id) */
    method SymbolOf(ps: Option<ScopeId>, id: string) returns (r: Result<Symbol, Error>)
      requires Valid()
      ensures r == SymbolAt(table.scopes, ps, id)
    {
      if ps.None? || ps.value >= |table.scopes| {
        return Err(Undefined(NullScopeMessage));
      }
      r := table.Get(ps.value, id);
    }

    /** parent_scope->get_symbol(id).type = ty */
    method SetSlot(ps: Option<ScopeId>, id: string, ty: Option<Type>) returns (r: Result<(), Error>)
      requires Valid()
      modifies table
      ensures Valid()
      ensures r.Ok? <==> SetAt(old(table.scopes), ps, id, ty).Ok?
      ensures r.Ok? ==> table.scopes == SetAt(old(table.scopes), ps, id, ty).value
      ensures r.Err? ==> table.scopes == old(table.scopes) && r.error == SetAt(old(table.scopes), ps, id, ty).error
    {
      if ps.None? || ps.value >= |table.scopes| {
        return Err(Undefined(NullScopeMessage));
      }
      r := table.SetType(ps.value, id, ty);
    }

    /** TypeChecker::visit for an expression. */
    method VisitExpr(e: Expr) returns (r: Result<Expr, Error>)
      requires Valid()
      modifies this, table
      ensures Valid()
      ensures Agrees(r, table.scopes, env, TcExpr(old(table.scopes), old(env), e))
      decreases e, 2
    {
      match e.node {
        case ParenExpr(x) =>
          var o := VisitExpr(x);
          if o.Err? { return Err(o.error); }
          return Ok(e.(ty := o.value.ty, node := ParenExpr(o.value)));
        case UnaryExpr(_, _) =>
          r := VisitUnary(e);
        case BinaryExpr(_, _, _) =>
          r := VisitBinary(e);
        case FunCall(_, _) =>
          r := VisitCall(e);
        case BlockExpr(_, _) =>
          r := VisitBlock(e);
        case IfElseExpr(_, _, _) =>
          r := VisitIfElse(e);
        case WhileExpr(_, _) =>
          r := VisitWhile(e);
        case _ =>
          r := VisitLeaf(e);
      }
    }

    /** TypeChecker::visit for an identifier and for the constants. */
    method VisitLeaf(e: Expr) returns (r: Result<Expr, Error>)
      requires Valid()
      requires e.node.IdExpr? || e.node.IntConst? || e.node.FloatConst? || e.node.CharConst? || e.node.StringConst? || e.node.BoolConst?
      ensures Agrees(r, table.scopes, env, TcExpr(table.scopes, env, e))
    {
      match e.node {
        case IdExpr(id) =>
          var sym := SymbolOf(e.parentScope, id);
          if sym.Err? { return Err(sym.error); }
          return Ok(e.(ty := sym.value.ty));
        case IntConst(_) => return Ok(e.(ty := Some(IntTy)));
        case FloatConst(_) => return Ok(e.(ty := Some(FloatTy)));
        case CharConst(_) => return Ok(e.(ty := Some(CharTy)));
        case StringConst(_) => return Ok(e.(ty := Some(StringTy)));
        case BoolConst(_) => return Ok(e.(ty := Some(BoolTy)));
      }
    }

    /** TypeChecker::visit(UnaryExpr&) */
    method VisitUnary(e: Expr) returns (r: Result<Expr, Error>)
      requires Valid() && e.node.UnaryExpr?
      modifies this, table
      ensures Valid()
      ensures Agrees(r, table.scopes, env, TcUnary(old(table.scopes), old(env), e))
      decreases e, 1
    {
      var UnaryExpr(op, x) := e.node;
      var o := VisitExpr(x);
      if o.Err? { return Err(o.error); }
      var t := UnaryRule(op, o.value.ty, x.loc);
      if t.Err? { return Err(t.error); }
      return Ok(e.(ty := t.value, node := UnaryExpr(op, o.value)));
    }

    /** TypeChecker::visit(BinaryExpr&) */
    method VisitBinary(e: Expr) returns (r: Result<Expr, Error>)
      requires Valid() && e.node.BinaryExpr?
      modifies this, table
      ensures Valid()
      ensures Agrees(r, table.scopes, env, TcBinary(old(table.scopes), old(env), e))
      decreases e, 1
    {
      var BinaryExpr(op, lhs, rhs) := e.node;
      var o1 := VisitExpr(lhs);
      if o1.Err? { return Err(o1.error); }
      var o2 := VisitExpr(rhs);
      if o2.Err? { return Err(o2.error); }
      var t := BinaryRule(op, o1.value.ty, o2.value.ty, e.loc);
      if t.Err? { return Err(t.error); }
      return Ok(e.(ty := if t.value.Some? then t.value else e.ty, node := BinaryExpr(op, o1.value, o2.value)));
    }

    /** TypeChecker::visit(WhileExpr&) */
    method VisitWhile(e: Expr) returns (r: Result<Expr, Error>)
      requires Valid() && e.node.WhileExpr?
      modifies this, table
      ensures Valid()
      ensures Agrees(r, table.scopes, env, TcWhile(old(table.scopes), old(env), e))
      decreases e, 1
    {
      var WhileExpr(c, b) := e.node;
      var o1 := VisitExpr(c);
      if o1.Err? { return Err(o1.error); }
      if o1.value.ty != Some(BoolTy) { return Err(Errors.Type(c.loc, BoolExpected)); }
      var o2 := VisitExpr(b);
      if o2.Err? { return Err(o2.error); }
      return Ok(e.(ty := o2.value.ty, node := WhileExpr(o1.value, o2.value)));
    }

    /** TypeChecker::visit(IfElseExpr&) */
    method VisitIfElse(e: Expr) returns (r: Result<Expr, Error>)
      requires Valid() && e.node.IfElseExpr?
      modifies this, table
      ensures Valid()
      ensures Agrees(r, table.scopes, env, TcIfElse(old(table.scopes), old(env), e))
      decreases e, 1
    {
      var IfElseExpr(c, t, el) := e.node;
      var o1 := VisitExpr(c);
      if o1.Err? { return Err(o1.error); }
      if o1.value.ty != Some(BoolTy) { return Err(Errors.Type(c.loc, BoolExpected)); }
      var o2 := VisitExpr(t);
      if o2.Err? { return Err(o2.error); }
      if o2.value.ty != Some(UnitTy) && el.None? {
        return Err(Errors.Type(e.loc, "if branch isn't of type unit but there is no else branch!"));
      }
      if el.None? {
        return Ok(e.(ty := o2.value.ty, node := IfElseExpr(o1.value, o2.value, None)));
      }
      var o3 := VisitExpr(el.value);
      if o3.Err? { return Err(o3.error); }
      if o2.value.ty != o3.value.ty { return Err(Errors.Type(e.loc, "Both branches need to have the same type!")); }
      return Ok(e.(ty := o2.value.ty, node := IfElseExpr(o1.value, o2.value, Some(o3.value))));
    }

    /** TypeChecker::visit(BlockExpr&) */
    method VisitBlock(e: Expr) returns (r: Result<Expr, Error>)
      requires Valid() && e.node.BlockExpr?
      modifies this, table
      ensures Valid()
      ensures Agrees(r, table.scopes, env, TcBlock(old(table.scopes), old(env), e))
      decreases e, 1
    {
      var BlockExpr(body, s) := e.node;
      if |body| == 0 {
        return Ok(e.(ty := Some(UnitTy)));
      }
      var o := VisitBody(body);
      if o.Err? { return Err(o.error); }
      return Ok(e.(ty := o.value[|o.value| - 1].ty, node := BlockExpr(o.value, s)));
    }

    /** The loop of TypeChecker::visit(BlockExpr&) over its statements. */
    method VisitBody(body: seq<Stmt>) returns (r: Result<seq<Stmt>, Error>)
      requires Valid()
      modifies this, table
      ensures Valid()
      ensures Agrees(r, table.scopes, env, TcBody(old(table.scopes), old(env), body))
      decreases body, 1
    {
      var done: seq<Stmt> := [];
      var i := 0;
      assert body[0..] == body;
      PrependNothing(TcBody(table.scopes, env, body));
      while i < |body|
        invariant 0 <= i <= |body| && Valid()
        invariant TcBody(old(table.scopes), old(env), body) == Prepend(done, TcBody(table.scopes, env, body[i..]))
      {
        TcBodyStep(table.scopes, env, body, i, done);
        var o := VisitBodyStmt(body, i);
        if o.Err? { return Err(o.error); }
        done := done + [o.value];
        i := i + 1;
      }
      assert body[i..] == [];
      assert done + [] == done;
      return Ok(done);
    }

    /** One statement of a block: visited, then checked to be unit unless
        it is the last. */
    method VisitBodyStmt(body: seq<Stmt>, i: nat) returns (r: Result<Stmt, Error>)
      requires Valid() && i < |body|
      modifies this, table
      ensures Valid()
      ensures Agrees(r, table.scopes, env, BodyStmt(old(table.scopes), old(env), body, i))
      decreases body, 0
    {
      var o := VisitStmt(body[i]);
      if o.Err? { return Err(o.error); }
      if i != |body| - 1 && o.value.ty != Some(UnitTy) {
        return Err(Errors.Type(body[i].loc, NonUnitMessage));
      }
      return o;
    }

    /** The loop of TypeChecker::visit(FunCall&) over the arguments. */
    method VisitEach(es: seq<Expr>) returns (r: Result<seq<Expr>, Error>)
      requires Valid()
      modifies this, table
      ensures Valid()
      ensures Agrees(r, table.scopes, env, TcExprs(old(table.scopes), old(env), es))
      decreases es
    {
      var done: seq<Expr> := [];
      var i := 0;
      assert es[0..] == es;
      PrependNothing(TcExprs(table.scopes, env, es));
      while i < |es|
        invariant 0 <= i <= |es| && Valid()
        invariant TcExprs(old(table.scopes), old(env), es) == Prepend(done, TcExprs(table.scopes, env, es[i..]))
      {
        TcExprsStep(table.scopes, env, es, i, done);
        var o := VisitExpr(es[i]);
        if o.Err? { return Err(o.error); }
        done := done + [o.value];
        i := i + 1;
      }
      assert es[i..] == [];
      assert done + [] == done;
      return Ok(done);
    }

    /** TypeChecker::visit(FunCall&) */
    method VisitCall(e: Expr) returns (r: Result<Expr, Error>)
      requires Valid() && e.node.FunCall?
      modifies this, table
      ensures Valid()
      ensures Agrees(r, table.scopes, env, TcCall(old(table.scopes), old(env), e))
      decreases e, 1
    {
      var FunCall(callee, args) := e.node;
      var o := VisitEach(args);
      if o.Err? { return Err(o.error); }
      var call := e.(node := FunCall(callee, o.value));
      if callee == "printf" {
        var t := HandlePrintf(call, o.value);
        if t.Err? { return Err(t.error); }
        return Ok(call.(ty := Some(t.value)));
      }
      var f := CalleeFunctionType(e.parentScope, callee);
      if f.Err? { return Err(f.error); }
      var t := CheckCallArgs(call, callee, o.value, f.value);
      if t.Err? { return Err(t.error); }
      return Ok(call.(ty := Some(t.value)));
    }

    /** The callee's function type, checking its signature on demand when
        its slot is still null. */
    method CalleeFunctionType(ps: Option<ScopeId>, callee: string) returns (r: Result<Type, Error>)
      requires Valid()
      modifies this, table
      ensures Valid()
      ensures Agrees(r, table.scopes, env, CalleeType(old(table.scopes), old(env), ps, callee))
    {
      var sym := SymbolOf(ps, callee);
      if sym.Err? { return Err(sym.error); }
      var slot := sym.value.ty;
      if slot.None? {
        if !sym.value.kind.FunSymbol? { return Err(Internal(BadVariantMessage)); }
        var t := AddType(SigType(sym.value.kind.sig));
        var _ := SetSlot(ps, callee, Some(t));
        slot := Some(t);
      }
      if slot.None? || !slot.value.FunctionTy? {
        return Err(Undefined(NotFunctionTypeMessage));
      }
      return Ok(slot.value);
    }

    /** The arity and argument checks of TypeChecker::visit(FunCall&). */
    method CheckCallArgs(call: Expr, callee: string, args: seq<Expr>, fty: Type) returns (r: Result<Type, Error>)
      requires fty.FunctionTy?
      ensures r == CallRule(call, callee, args, fty)
    {
      if |args| != |fty.argTypes| {
        return Err(Errors.Type(call.loc, ArityMessage(callee, |args|, |fty.argTypes|)));
      }
      var i := 0;
      while i < |args|
        invariant 0 <= i <= |args|
        invariant FirstBadArg(args, fty.argTypes, 0) == FirstBadArg(args, fty.argTypes, i)
      {
        if args[i].ty != Some(fty.argTypes[i]) {
          return Err(Errors.Type(args[i].loc, ArgTypeMessage(fty.argTypes[i])));
        }
        i := i + 1;
      }
      return Ok(fty.returnType);
    }

    /** TypeChecker::handle_printf */
    method HandlePrintf(call: Expr, args: seq<Expr>) returns (r: Result<Type, Error>)
      ensures r == PrintfRule(call, args)
    {
      if |args| == 0 {
        return Err(Errors.Type(call.loc, "printf expects at least one string literal"));
      }
      if !args[0].node.StringConst? {
        return Err(Errors.Type(args[0].loc, "printf expects a string literal as its first argument!"));
      }
      var specs := GetFormatSpecifiers(args[0].node.sval, args[0].loc);
      if specs.Err? { return Err(specs.error); }
      var sv := specs.value;
      if |args| - 1 != |sv| {
        return Err(Errors.Type(call.loc, PrintfCountMessage(|sv|, |args| - 1)));
      }
      var i := 1;
      while i < |args|
        invariant 1 <= i <= |args|
        invariant FirstMismatch(args, sv, 1) == FirstMismatch(args, sv, i)
      {
        if !ExprMatchesFormat(args[i].ty, sv[i - 1]) {
          return Err(Errors.Type(sv[i - 1].loc, PrintfMismatchMessage));
        }
        i := i + 1;
      }
      return Ok(UnitTy);
    }

    /** TypeChecker::visit for a statement. */
    method VisitStmt(st: Stmt) returns (r: Result<Stmt, Error>)
      requires Valid()
      modifies this, table
      ensures Valid()
      ensures Agrees(r, table.scopes, env, TcStmt(old(table.scopes), old(env), st))
      decreases st, 2
    {
      match st.node {
        case ExprStmt(x) =>
          var o := VisitExpr(x);
          if o.Err? { return Err(o.error); }
          return Ok(st.(ty := o.value.ty, node := ExprStmt(o.value)));
        case VarInit(_, _, _, _, _) =>
          r := VisitVarInit(st);
        case Assignment(_, _) =>
          r := VisitAssignment(st);
        case FunDef(_, _, _, _) =>
          r := VisitFunDef(st);
        case ExternalStmt(_) =>
          r := VisitExternal(st);
      }
    }

    /** TypeChecker::visit(ExternalStmt&) */
    method VisitExternal(st: Stmt) returns (r: Result<Stmt, Error>)
      requires Valid() && st.node.ExternalStmt?
      modifies this, table
      ensures Valid()
      ensures Agrees(r, table.scopes, env, TcStmt(old(table.scopes), old(env), st))
      decreases st, 1
    {
      var sig := st.node.esig;
      var s := VisitSig(sig);
      if s.Err? { return Err(s.error); }
      var upd := SetSlot(st.parentScope, sig.id, s.value.ty);
      if upd.Err? { return Err(upd.error); }
      return Ok(st.(ty := Some(UnitTy), node := ExternalStmt(s.value)));
    }

    /** TypeChecker::visit(VarInit&) */
    method VisitVarInit(st: Stmt) returns (r: Result<Stmt, Error>)
      requires Valid() && st.node.VarInit?
      modifies this, table
      ensures Valid()
      ensures Agrees(r, table.scopes, env, TcVarInit(old(table.scopes), old(env), st))
      decreases st, 1
    {
      var VarInit(isInternal, isConst, id, anno, val) := st.node;
      var o := VisitExpr(val);
      if o.Err? { return Err(o.error); }
      var anno' := anno;
      if anno.Some? {
        anno' := Some(anno.value.(ty := Some(AnnoType(anno.value.kind))));
        if anno'.value.ty != o.value.ty { return Err(AnnoMismatch(st.loc)); }
      }
      var upd := SetSlot(st.parentScope, id, o.value.ty);
      if upd.Err? { return Err(upd.error); }
      return Ok(st.(ty := Some(UnitTy), node := VarInit(isInternal, isConst, id, anno', o.value)));
    }

    /** TypeChecker::visit(Assignment&) */
    method VisitAssignment(st: Stmt) returns (r: Result<Stmt, Error>)
      requires Valid() && st.node.Assignment?
      modifies this, table
      ensures Valid()
      ensures Agrees(r, table.scopes, env, TcAssignment(old(table.scopes), old(env), st))
      decreases st, 1
    {
      var Assignment(target, v) := st.node;
      var o := VisitExpr(v);
      if o.Err? { return Err(o.error); }
      var sym := SymbolOf(st.parentScope, target);
      if sym.Err? { return Err(sym.error); }
      if o.value.ty != sym.value.ty {
        if sym.value.ty.None? { return Err(Undefined(NullTypeMessage)); }
        return Err(Errors.Type(st.loc, target + " has type " + ToString(sym.value.ty.value)));
      }
      return Ok(st.(ty := Some(UnitTy), node := Assignment(target, o.value)));
    }

    /** TypeChecker::visit(FunDef&) */
    method VisitFunDef(st: Stmt) returns (r: Result<Stmt, Error>)
      requires Valid() && st.node.FunDef?
      modifies this, table
      ensures Valid()
      ensures Agrees(r, table.scopes, env, TcFunDef(old(table.scopes), old(env), st))
      decreases st, 1
    {
      var FunDef(isInternal, sig, body, f) := st.node;
      var s := VisitSig(sig);
      if s.Err? { return Err(s.error); }
      var b := VisitExpr(body);
      if b.Err? { return Err(b.error); }
      var ret := AnnoType(sig.anno.kind);
      if sig.id == "main" && ret != IntTy { return Err(Token(MainReturnMessage, sig.anno.loc)); }
      if b.value.ty != Some(ret) { return Err(Token(BodyTypeMessage, sig.loc)); }
      var upd := SetSlot(st.parentScope, sig.id, s.value.ty);
      if upd.Err? { return Err(upd.error); }
      return Ok(st.(ty := Some(UnitTy), node := FunDef(isInternal, s.value, b.value, f)));
    }

    /** TypeChecker::visit(FunSignature&): the loop over the parameters
        collects their types, then the function type is interned. */
    method VisitSig(sig: FunSignature) returns (r: Result<FunSignature, Error>)
      requires Valid()
      modifies this, table
      ensures Valid()
      ensures Agrees(r, table.scopes, env, TcSig(old(table.scopes), old(env), sig))
    {
      var done: seq<DefArg> := [];
      var argTypes: seq<Type> := [];
      var i := 0;
      assert sig.args[0..] == sig.args;
      PrependNothing(TcArgs(table.scopes, env, sig.args));
      while i < |sig.args|
        invariant 0 <= i <= |sig.args| && Valid() && env == old(env)
        invariant TcArgs(old(table.scopes), env, sig.args) == Prepend(done, TcArgs(table.scopes, env, sig.args[i..]))
        invariant argTypes == SigType(sig).argTypes[..i]
      {
        TcArgsStep(table.scopes, env, sig.args, i, done);
        var arg := sig.args[i].(anno := sig.args[i].anno.(ty := Some(AnnoType(sig.args[i].anno.kind))));
        var upd := SetSlot(arg.parentScope, arg.id, arg.anno.ty);
        if upd.Err? { return Err(upd.error); }
        SigTypesStep(sig, i, argTypes);
        done := done + [arg];
        argTypes := argTypes + [arg.anno.ty.value];
        i := i + 1;
      }
      assert sig.args[i..] == [];
      assert done + [] == done;
      assert argTypes == SigType(sig).argTypes;
      var anno := sig.anno.(ty := Some(AnnoType(sig.anno.kind)));
      var t := AddType(FunctionTy(argTypes, anno.ty.value));
      return Ok(sig.(args := done, anno := anno, ty := Some(t)));
    }

    /** Module::run_type_checker */
    method Run(ast: seq<Stmt>) returns (r: Result<seq<Stmt>, Error>)
      requires Valid()
      modifies this, table
      ensures Valid()
      ensures Agrees(r, table.scopes, env, TcStmts(old(table.scopes), old(env), ast))
    {
      var done: seq<Stmt> := [];
      var i := 0;
      assert ast[0..] == ast;
      PrependNothing(TcStmts(table.scopes, env, ast));
      while i < |ast|
        invariant 0 <= i <= |ast| && Valid()
        invariant TcStmts(old(table.scopes), old(env), ast) == Prepend(done, TcStmts(table.scopes, env, ast[i..]))
      {
        TcStmtsStep(table.scopes, env, ast, i, done);
        var o := VisitStmt(ast[i]);
        if o.Err? { return Err(o.error); }
        done := done + [o.value];
        i := i + 1;
      }
      assert ast[i..] == [];
      assert done + [] == done;
      return Ok(done);
    }
  }
}
