/** What the type checker's walk promises, node kind by node kind
    (compiler/typing/type_checker.cpp), stated about `TcExpr` and `TcStmt`. */
module TypeCheckerProps {
  import opened Wrappers
  import opened Errors
  import opened Types
  import opened Ast
  import opened Symbols
  import opened Scopes
  import opened TypeRules
  import opened TypeChecking

  /** Every statement of a checked block but the last is unit. */
  lemma {:induction false} BodyNonFinalUnit(sc: seq<Scope>, env: TypeEnv, ss: seq<Stmt>)
    requires Fits(sc, env)
    ensures var r := TcBody(sc, env, ss);
      r.Ok? ==> forall k :: 0 <= k < |ss| - 1 ==> r.value.node[k].ty == Some(UnitTy)
    decreases ss
  {
    var r := TcBody(sc, env, ss);
    if ss != [] && r.Ok? {
      var o1 := TcStmt(sc, env, ss[0]).value;
      BodyNonFinalUnit(o1.scopes, o1.env, ss[1..]);
      var o2 := TcBody(o1.scopes, o1.env, ss[1..]).value;
      assert r.value.node == [o1.node] + o2.node;
      assert |ss| > 1 ==> o1.node.ty == Some(UnitTy);
      assert forall k :: 0 <= k < |ss[1..]| - 1 ==> o2.node[k].ty == Some(UnitTy);
      forall k | 0 <= k < |ss| - 1
        ensures r.value.node[k].ty == Some(UnitTy)
      {
        if k > 0 {
          assert r.value.node[k] == o2.node[k - 1];
        } else {
          assert r.value.node[k] == o1.node;
        }
      }
    }
  }

  /** A checked block is unit when empty; otherwise its statements but the
      last are unit and the block has the last statement's type. */
  lemma BlockTyping(sc: seq<Scope>, env: TypeEnv, e: Expr)
    requires Fits(sc, env) && e.node.BlockExpr?
    ensures e.node.body == [] ==> TcBlock(sc, env, e) == Ok(Checked(sc, env, e.(ty := Some(UnitTy))))
    ensures var r := TcBlock(sc, env, e);
      r.Ok? && e.node.body != [] ==>
        && r.value.node.node.BlockExpr?
        && |r.value.node.node.body| == |e.node.body|
        && (forall k :: 0 <= k < |e.node.body| - 1 ==> r.value.node.node.body[k].ty == Some(UnitTy))
        && r.value.node.ty == r.value.node.node.body[|e.node.body| - 1].ty
  {
    BodyNonFinalUnit(sc, env, e.node.body);
  }

  /** A statement of a block that is neither unit nor last is rejected at
      its own location, once the statements before it are checked. */
  lemma BodyRejectsNonUnit(sc: seq<Scope>, env: TypeEnv, ss: seq<Stmt>)
    requires Fits(sc, env) && |ss| > 1
    requires TcStmt(sc, env, ss[0]).Ok? && TcStmt(sc, env, ss[0]).value.node.ty != Some(UnitTy)
    ensures TcBody(sc, env, ss) == Err(Errors.Type(ss[0].loc, NonUnitMessage))
  {
  }

  /** A unary expression has its operand's type, and its operand must be
      numeric; a `not` is rejected whatever the operand's type. */
  lemma UnaryTyping(sc: seq<Scope>, env: TypeEnv, e: Expr)
    requires Fits(sc, env) && e.node.UnaryExpr?
    ensures var r := TcUnary(sc, env, e);
      var o := TcExpr(sc, env, e.node.operand);
      r.Ok? <==> o.Ok? && e.node.uop != Not && IsNum(o.value.node.ty)
    ensures var r := TcUnary(sc, env, e);
      r.Ok? ==> r.value.node.ty == TcExpr(sc, env, e.node.operand).value.node.ty
    ensures e.node.uop == Not ==> TcUnary(sc, env, e).Err?
  {
  }

  /** A concatenation keeps whatever type slot the node had; every other
      operator stores a type. */
  lemma BinaryTyping(sc: seq<Scope>, env: TypeEnv, e: Expr)
    requires Fits(sc, env) && e.node.BinaryExpr?
    ensures var r := TcBinary(sc, env, e);
      r.Ok? && e.node.bop == Concat ==> r.value.node.ty == e.ty
    ensures var r := TcBinary(sc, env, e);
      r.Ok? && e.node.bop in {Equals, NotEquals, Less, Greater, LessEquals, GreaterEquals, And, Or} ==>
        r.value.node.ty == Some(BoolTy)
    ensures var r := TcBinary(sc, env, e);
      r.Ok? && e.node.bop in {Add, Sub, Mul, Div, Mod} ==>
        && r.value.node.ty == TcExpr(sc, env, e.node.lhs).value.node.ty
        && IsNum(r.value.node.ty)
  {
    var r := TcBinary(sc, env, e);
    if r.Ok? {
      var BinaryExpr(op, lhs, rhs) := e.node;
      var o1 := TcExpr(sc, env, lhs).value;
      var o2 := TcExpr(o1.scopes, o1.env, rhs).value;
      BinaryRuleTypes(op, o1.node.ty, o2.node.ty, e.loc);
    }
  }

  /** If/else: the condition is bool; without else the if-branch is unit;
      with else both branches have one type; the node has the if-branch's
      type. */
  lemma IfElseTyping(sc: seq<Scope>, env: TypeEnv, e: Expr)
    requires Fits(sc, env) && e.node.IfElseExpr?
    ensures var r := TcIfElse(sc, env, e);
      r.Ok? ==>
        var o1 := TcExpr(sc, env, e.node.cond);
        && o1.Ok? && o1.value.node.ty == Some(BoolTy)
        && var o2 := TcExpr(o1.value.scopes, o1.value.env, e.node.ifBranch);
        && o2.Ok? && r.value.node.ty == o2.value.node.ty
        && (e.node.elseBranch.None? ==> o2.value.node.ty == Some(UnitTy))
        && (e.node.elseBranch.Some? ==>
              var o3 := TcExpr(o2.value.scopes, o2.value.env, e.node.elseBranch.value);
              o3.Ok? && o3.value.node.ty == o2.value.node.ty)
  {
  }

  /** While: the condition is bool and the node has the body's type. */
  lemma WhileTyping(sc: seq<Scope>, env: TypeEnv, e: Expr)
    requires Fits(sc, env) && e.node.WhileExpr?
    ensures var r := TcWhile(sc, env, e);
      r.Ok? ==>
        var o1 := TcExpr(sc, env, e.node.whileCond);
        && o1.Ok? && o1.value.node.ty == Some(BoolTy)
        && var o2 := TcExpr(o1.value.scopes, o1.value.env, e.node.whileBody);
        && o2.Ok? && r.value.node.ty == o2.value.node.ty
  {
  }

  /** An identifier copies its symbol's type slot and changes nothing. */
  lemma IdTyping(sc: seq<Scope>, env: TypeEnv, e: Expr)
    requires Fits(sc, env) && e.node.IdExpr?
    ensures var r := TcExpr(sc, env, e);
      && (r.Ok? <==> SymbolAt(sc, e.parentScope, e.node.id).Ok?)
      && (r.Ok? ==> r.value.scopes == sc && r.value.env == env &&
                    r.value.node.ty == Resolve(sc, e.parentScope.value, e.node.id).value.ty)
  {
  }

  /** A variable declaration: the annotation, if any, is the initializer's
      type; afterwards the name's slot holds the initializer's type; the
      statement is unit. */
  lemma VarInitTyping(sc: seq<Scope>, env: TypeEnv, st: Stmt)
    requires Fits(sc, env) && st.node.VarInit?
    ensures var r := TcVarInit(sc, env, st);
      r.Ok? ==>
        var o := TcExpr(sc, env, st.node.val);
        && o.Ok?
        && (st.node.anno.Some? ==> o.value.node.ty == Some(AnnoType(st.node.anno.value.kind)))
        && r.value.node.ty == Some(UnitTy)
        && SymbolAt(r.value.scopes, st.parentScope, st.node.id).Ok?
        && SymbolAt(r.value.scopes, st.parentScope, st.node.id).value.ty == o.value.node.ty
    ensures var o := TcExpr(sc, env, st.node.val);
      o.Ok? && st.node.anno.Some? && o.value.node.ty != Some(AnnoType(st.node.anno.value.kind)) ==>
        TcVarInit(sc, env, st) == Err(AnnoMismatch(st.loc))
  {
  }

  /** An assignment is accepted exactly when the value's type is the
      target's slot; it writes no slot. */
  lemma AssignmentTyping(sc: seq<Scope>, env: TypeEnv, st: Stmt)
    requires Fits(sc, env) && st.node.Assignment?
    ensures var r := TcAssignment(sc, env, st);
      var o := TcExpr(sc, env, st.node.newValue);
      r.Ok? <==>
        && o.Ok?
        && SymbolAt(o.value.scopes, st.parentScope, st.node.assignee).Ok?
        && o.value.node.ty == SymbolAt(o.value.scopes, st.parentScope, st.node.assignee).value.ty
    ensures var r := TcAssignment(sc, env, st);
      r.Ok? ==>
        r.value.scopes == TcExpr(sc, env, st.node.newValue).value.scopes && r.value.node.ty == Some(UnitTy)
  {
  }

  /** A callee whose slot is still null and which is a function is given
      its signature's function type, which is stored in its slot. */
  lemma OnDemandSignature(sc: seq<Scope>, env: TypeEnv, ps: Option<ScopeId>, callee: string)
    requires Fits(sc, env)
    requires SymbolAt(sc, ps, callee).Ok?
    requires SymbolAt(sc, ps, callee).value.ty.None? && SymbolAt(sc, ps, callee).value.kind.FunSymbol?
    ensures var sig := SymbolAt(sc, ps, callee).value.kind.sig;
      var r := CalleeType(sc, env, ps, callee);
      && r.Ok? && r.value.node == SigType(sig)
      && Resolve(r.value.scopes, ps.value, callee) == Some(SymbolAt(sc, ps, callee).value.(ty := Some(SigType(sig))))
  {
    var sym := SymbolAt(sc, ps, callee).value;
    AddTypeInterns(env, SigType(sym.kind.sig));
  }

  /** A callee whose slot is set keeps it, and must have a function type. */
  lemma CheckedCalleeType(sc: seq<Scope>, env: TypeEnv, ps: Option<ScopeId>, callee: string)
    requires Fits(sc, env)
    requires SymbolAt(sc, ps, callee).Ok? && SymbolAt(sc, ps, callee).value.ty.Some?
    ensures var t := SymbolAt(sc, ps, callee).value.ty.value;
      CalleeType(sc, env, ps, callee) == if t.FunctionTy? then Ok(Checked(sc, env, t)) else Err(Undefined(NotFunctionTypeMessage))
  {
  }

  /** A call other than printf: the arguments are checked first, then the
      callee's function type; the counts agree, each argument has its
      parameter's type, and the call has the return type. */
  lemma CallTyping(sc: seq<Scope>, env: TypeEnv, e: Expr)
    requires Fits(sc, env) && e.node.FunCall? && e.node.callee != "printf"
    ensures var r := TcCall(sc, env, e);
      r.Ok? ==>
        var o := TcExprs(sc, env, e.node.args);
        && o.Ok?
        && var f := CalleeType(o.value.scopes, o.value.env, e.parentScope, e.node.callee);
        && f.Ok?
        && |o.value.node| == |f.value.node.argTypes|
        && (forall k :: 0 <= k < |o.value.node| ==> o.value.node[k].ty == Some(f.value.node.argTypes[k]))
        && r.value.node.ty == Some(f.value.node.returnType)
  {
  }

  /** A printf call is unit when accepted. */
  lemma PrintfCallTyping(sc: seq<Scope>, env: TypeEnv, e: Expr)
    requires Fits(sc, env) && e.node.FunCall? && e.node.callee == "printf"
    ensures var r := TcCall(sc, env, e);
      r.Ok? ==>
        var o := TcExprs(sc, env, e.node.args);
        && o.Ok?
        && PrintfRule(e.(node := FunCall("printf", o.value.node)), o.value.node).Ok?
        && r.value.node.ty == Some(UnitTy)
  {
  }

  /** A function definition: main returns int, the body has the annotated
      return type, the name's slot holds the signature's function type, and
      the definition is unit. */
  lemma FunDefTyping(sc: seq<Scope>, env: TypeEnv, st: Stmt)
    requires Fits(sc, env) && st.node.FunDef?
    ensures var r := TcFunDef(sc, env, st);
      r.Ok? ==>
        var sig := st.node.sig;
        var s := TcSig(sc, env, sig);
        && (sig.id == "main" ==> AnnoType(sig.anno.kind) == IntTy)
        && s.Ok?
        && var b := TcExpr(s.value.scopes, s.value.env, st.node.body);
        && b.Ok? && b.value.node.ty == Some(AnnoType(sig.anno.kind))
        && SymbolAt(r.value.scopes, st.parentScope, sig.id).Ok?
        && SymbolAt(r.value.scopes, st.parentScope, sig.id).value.ty == Some(SigType(sig))
        && r.value.node.ty == Some(UnitTy)
  {
  }

  /** An external declaration: it is accepted exactly when its signature
      checks and its name has a slot, the name's slot then holds the
      signature's function type, and the declaration is unit. */
  lemma ExternalTyping(sc: seq<Scope>, env: TypeEnv, st: Stmt)
    requires Fits(sc, env) && st.node.ExternalStmt?
    ensures var r := TcStmt(sc, env, st);
      var sig := st.node.esig;
      var s := TcSig(sc, env, sig);
      && (r.Ok? <==> s.Ok? && SymbolAt(s.value.scopes, st.parentScope, sig.id).Ok?)
      && (r.Ok? ==>
            && SymbolAt(r.value.scopes, st.parentScope, sig.id).Ok?
            && SymbolAt(r.value.scopes, st.parentScope, sig.id).value.ty == Some(SigType(sig))
            && r.value.node.ty == Some(UnitTy)
            && r.value.node.node == ExternalStmt(s.value.node))
  {
    var sig := st.node.esig;
    var s := TcSig(sc, env, sig);
    if s.Ok? {
      var w := SetAt(s.value.scopes, st.parentScope, sig.id, s.value.node.ty);
      assert w.Ok? ==> TcStmt(sc, env, st) == Ok(Checked(w.value, s.value.env, st.(ty := Some(UnitTy), node := ExternalStmt(s.value.node))));
      assert w.Err? ==> TcStmt(sc, env, st).Err?;
    } else {
      assert TcStmt(sc, env, st).Err?;
    }
  }
}
