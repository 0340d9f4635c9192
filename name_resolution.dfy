/** Name resolution (compiler/sema/name_resolution.cpp). A walk over the
    tree with a cursor naming the current scope: it records the cursor in
    each node's `parentScope`, opens a fresh scope for every block and
    function, declares variables, parameters and nested functions, and checks
    every use of a name against the scopes visible from the cursor.

    `NrExpr`, `NrStmt` and their helpers state the walk as functions of the
    arena and the cursor; the class `NameResolution` is the visitor itself,
    proved to agree with them. */
module Resolution {
  import opened Wrappers
  import opened Locations
  import opened Errors
  import opened Ast
  import opened Symbols
  import opened Scopes
  import opened ModuleCollection

  /** The arena after a visit, with the visited node. */
  datatype Out<T> = Out(scopes: seq<Scope>, node: T)

  /** `after` only appends scopes to `before`. */
  predicate Extends(before: seq<Scope>, after: seq<Scope>) {
    |after| >= |before| && forall k :: 0 <= k < |before| ==> after[k] == before[k]
  }

  /** `after` appends scopes to `before` and may add entries to scope `cur`
      only. */
  predicate ExtendsAt(before: seq<Scope>, after: seq<Scope>, cur: ScopeId) {
    && |after| >= |before|
    && (forall k :: 0 <= k < |before| && k != cur ==> after[k] == before[k])
    && (cur < |before| ==> after[cur].kind == before[cur].kind && after[cur].parent == before[cur].parent)
  }

  function WrongKind(id: string, k: SymbolKind): string {
    id + " is a " + StringOfSymbolType(k) + " and can't be used in this context"
  }

  const MainCallMessage := "The \"main\" function can't be called"
  const ExternalMainMessage := "function \"main\" can't be declared as external"

  /** A fresh block or function scope whose parent is the cursor. */
  function Push(sc: seq<Scope>, kind: ScopeKind, cur: ScopeId): (r: seq<Scope>)
    requires ValidArena(sc) && cur < |sc|
    ensures ValidArena(r) && Extends(sc, r) && |r| == |sc| + 1
    ensures r[|sc|] == Scope(kind, Some(cur), map[])
  {
    sc + [Scope(kind, Some(cur), map[])]
  }

  /** NameResolution::visit for an expression. */
  function NrExpr(sc: seq<Scope>, cur: ScopeId, e: Expr): (r: Result<Out<Expr>, Error>)
    requires ValidArena(sc) && cur < |sc|
    ensures r.Ok? ==> ValidArena(r.value.scopes) && Extends(sc, r.value.scopes)
    decreases e, 1
  {
    var here := e.(parentScope := Some(cur));
    match e.node
    case ParenExpr(inner) =>
      var o :- NrExpr(sc, cur, inner);
      Ok(Out(o.scopes, here.(node := ParenExpr(o.node))))
    case UnaryExpr(op, x) =>
      var o :- NrExpr(sc, cur, x);
      Ok(Out(o.scopes, here.(node := UnaryExpr(op, o.node))))
    case BinaryExpr(op, lhs, rhs) =>
      var o1 :- NrExpr(sc, cur, lhs);
      var o2 :- NrExpr(o1.scopes, cur, rhs);
      Ok(Out(o2.scopes, here.(node := BinaryExpr(op, o1.node, o2.node))))
    case IdExpr(id) =>
      NrId(sc, cur, here, id)
    case FunCall(callee, args) =>
      if callee == "main" then Err(Token(MainCallMessage, e.loc))
      else
        var o :- NrExprs(sc, cur, args);
        NrCallee(o.scopes, cur, here.(node := FunCall(callee, o.node)), callee)
    case BlockExpr(body, _) =>
      var id := |sc|;
      var o :- NrStmts(Push(sc, BlockScope, cur), id, body);
      Ok(Out(o.scopes, here.(node := BlockExpr(o.node, Some(id)))))
    case IfElseExpr(c, t, el) =>
      var o1 :- NrExpr(sc, cur, c);
      var o2 :- NrExpr(o1.scopes, cur, t);
      if el.None? then Ok(Out(o2.scopes, here.(node := IfElseExpr(o1.node, o2.node, None))))
      else
        var o3 :- NrExpr(o2.scopes, cur, el.value);
        Ok(Out(o3.scopes, here.(node := IfElseExpr(o1.node, o2.node, Some(o3.node)))))
    case WhileExpr(c, b) =>
      var o1 :- NrExpr(sc, cur, c);
      var o2 :- NrExpr(o1.scopes, cur, b);
      Ok(Out(o2.scopes, here.(node := WhileExpr(o1.node, o2.node))))
    case IntConst(_) => Ok(Out(sc, e))
    case FloatConst(_) => Ok(Out(sc, e))
    case CharConst(_) => Ok(Out(sc, e))
    case StringConst(_) => Ok(Out(sc, e))
    case BoolConst(_) => Ok(Out(sc, e))
  }

  /** The check of an identifier: bound, and to a variable or parameter. */
  function NrId(sc: seq<Scope>, cur: ScopeId, here: Expr, id: string): (r: Result<Out<Expr>, Error>)
    requires ValidArena(sc) && cur < |sc|
    ensures r.Ok? <==> Resolve(sc, cur, id).Some? &&
                       (Resolve(sc, cur, id).value.kind.VarSymbol? || Resolve(sc, cur, id).value.kind.ParamSymbol?)
    ensures r.Ok? ==> r.value == Out(sc, here)
    ensures Resolve(sc, cur, id).None? ==> r == Err(UnknownId(here.loc, id))
    ensures r.Err? && Resolve(sc, cur, id).Some? ==> r == Err(Token(WrongKind(id, Resolve(sc, cur, id).value.kind), here.loc))
  {
    match Resolve(sc, cur, id)
    case None => Err(UnknownId(here.loc, id))
    case Some(sym) =>
      if sym.kind.VarSymbol? || sym.kind.ParamSymbol? then Ok(Out(sc, here))
      else Err(Token(WrongKind(id, sym.kind), here.loc))
  }

  /** The callee check of a call whose arguments are resolved: printf is not
      looked up; any other callee must be bound to a function. */
  function NrCallee(sc: seq<Scope>, cur: ScopeId, call: Expr, callee: string): (r: Result<Out<Expr>, Error>)
    requires ValidArena(sc) && cur < |sc|
    ensures r.Ok? <==> callee == "printf" || (Resolve(sc, cur, callee).Some? && Resolve(sc, cur, callee).value.kind.FunSymbol?)
    ensures r.Ok? ==> r.value == Out(sc, call)
    ensures callee != "printf" && Resolve(sc, cur, callee).None? ==> r == Err(UnknownId(call.loc, callee))
    ensures r.Err? && Resolve(sc, cur, callee).Some? ==>
              r == Err(Token(WrongKind(callee, Resolve(sc, cur, callee).value.kind), call.loc))
  {
    if callee == "printf" then Ok(Out(sc, call))
    else match Resolve(sc, cur, callee)
      case None => Err(UnknownId(call.loc, callee))
      case Some(sym) =>
        if sym.kind.FunSymbol? then Ok(Out(sc, call))
        else Err(Token(WrongKind(callee, sym.kind), call.loc))
  }

  /** The arguments of a call, left to right. */
  function NrExprs(sc: seq<Scope>, cur: ScopeId, es: seq<Expr>): (r: Result<Out<seq<Expr>>, Error>)
    requires ValidArena(sc) && cur < |sc|
    ensures r.Ok? ==> ValidArena(r.value.scopes) && Extends(sc, r.value.scopes) && |r.value.node| == |es|
    decreases es
  {
    if es == [] then Ok(Out(sc, []))
    else
      var o1 :- NrExpr(sc, cur, es[0]);
      var o2 :- NrExprs(o1.scopes, cur, es[1..]);
      Ok(Out(o2.scopes, [o1.node] + o2.node))
  }

  /** The statements of a block, or of the module, in order. */
  function NrStmts(sc: seq<Scope>, cur: ScopeId, ss: seq<Stmt>): (r: Result<Out<seq<Stmt>>, Error>)
    requires ValidArena(sc) && cur < |sc|
    ensures r.Ok? ==> ValidArena(r.value.scopes) && ExtendsAt(sc, r.value.scopes, cur) && |r.value.node| == |ss|
    decreases ss
  {
    if ss == [] then Ok(Out(sc, []))
    else
      var o1 :- NrStmt(sc, cur, ss[0]);
      var o2 :- NrStmts(o1.scopes, cur, ss[1..]);
      Ok(Out(o2.scopes, [o1.node] + o2.node))
  }

  /** add_function for a definition or declaration in a nested scope; at
      module level the collector has already registered it. */
  function DeclareFunction(sc: seq<Scope>, cur: ScopeId, sig: FunSignature, loc: Location): (r: Result<seq<Scope>, Error>)
    requires ValidArena(sc) && cur < |sc|
    ensures r.Ok? ==> ValidArena(r.value) && ExtendsAt(sc, r.value, cur) && |r.value| == |sc|
    ensures sc[cur].kind == ModuleScope ==> r == Ok(sc)
    ensures sc[cur].kind != ModuleScope ==> r == AddSymbol(sc, cur, sig.id, NewSymbol(FunSymbol(sig)), loc)
  {
    if sc[cur].kind != ModuleScope then AddSymbol(sc, cur, sig.id, NewSymbol(FunSymbol(sig)), loc) else Ok(sc)
  }

  /** NameResolution::visit for a statement. */
  function NrStmt(sc: seq<Scope>, cur: ScopeId, st: Stmt): (r: Result<Out<Stmt>, Error>)
    requires ValidArena(sc) && cur < |sc|
    ensures r.Ok? ==> ValidArena(r.value.scopes) && ExtendsAt(sc, r.value.scopes, cur)
    decreases st, 1
  {
    var here := st.(parentScope := Some(cur));
    match st.node
    case ExprStmt(x) =>
      var o :- NrExpr(sc, cur, x);
      Ok(Out(o.scopes, here.(node := ExprStmt(o.node))))
    case VarInit(isInternal, isConst, id, anno, val) =>
      var sc1 :- AddSymbol(sc, cur, id, NewSymbol(VarSymbol(isConst)), st.loc);
      var anno' := if anno.Some? then Some(anno.value.(scope := Some(cur))) else None;
      var o :- NrExpr(sc1, cur, val);
      Ok(Out(o.scopes, here.(node := VarInit(isInternal, isConst, id, anno', o.node))))
    case Assignment(target, val) =>
      if Resolve(sc, cur, target).None? then Err(UnknownId(st.loc, target))
      else if !Reassignable(Resolve(sc, cur, target).value.kind) then Err(Token(target + " can't be reassigned!", st.loc))
      else
        var o :- NrExpr(sc, cur, val);
        Ok(Out(o.scopes, here.(node := Assignment(target, o.node))))
    case FunDef(isInternal, sig, body, _) =>
      var sc1 :- DeclareFunction(sc, cur, sig, st.loc);
      var f := |sc1|;
      var o1 :- NrSig(Push(sc1, FunctionScope, cur), f, sig);
      var o2 :- NrExpr(o1.scopes, f, body);
      Ok(Out(o2.scopes, here.(node := FunDef(isInternal, o1.node, o2.node, Some(f)))))
    case ExternalStmt(sig) =>
      if sig.id == "main" then Err(Token(ExternalMainMessage, sig.loc))
      else
        var sc1 :- DeclareFunction(sc, cur, sig, st.loc);
        var o :- NrSig(sc1, cur, sig);
        Ok(Out(o.scopes, here.(node := ExternalStmt(o.node))))
  }

  /** NameResolution::visit for a signature: its parameters go into the
      cursor's scope, and so does the annotation's scope. */
  function NrSig(sc: seq<Scope>, cur: ScopeId, sig: FunSignature): (r: Result<Out<FunSignature>, Error>)
    requires ValidArena(sc) && cur < |sc|
    ensures r.Ok? ==> ValidArena(r.value.scopes) && ExtendsAt(sc, r.value.scopes, cur) && |r.value.scopes| == |sc|
    ensures r.Ok? <==> NrArgs(sc, cur, sig.args).Ok?
    ensures r.Ok? ==> r.value.scopes == NrArgs(sc, cur, sig.args).value.scopes
  {
    var o :- NrArgs(sc, cur, sig.args);
    Ok(Out(o.scopes, sig.(parentScope := Some(cur), args := o.node, anno := sig.anno.(scope := Some(cur)))))
  }

  /** The parameters, each added to the cursor's scope (add_param). */
  function NrArgs(sc: seq<Scope>, cur: ScopeId, args: seq<DefArg>): (r: Result<Out<seq<DefArg>>, Error>)
    requires ValidArena(sc) && cur < |sc|
    ensures r.Ok? ==> ValidArena(r.value.scopes) && ExtendsAt(sc, r.value.scopes, cur) && |r.value.scopes| == |sc|
    ensures r.Ok? ==> |r.value.node| == |args|
    decreases |args|
  {
    if args == [] then Ok(Out(sc, []))
    else
      var a := args[0].(parentScope := Some(cur));
      var sc1 :- AddSymbol(sc, cur, a.id, NewSymbol(ParamSymbol(a)), a.loc);
      var o :- NrArgs(sc1, cur, args[1..]);
      Ok(Out(o.scopes, [a] + o.node))
  }

  /** The second pass of Module::run_sema: the top-level statements, with
      the cursor on module scope. */
  function ResolveModule(sc: seq<Scope>, ast: seq<Stmt>): (r: Result<Out<seq<Stmt>>, Error>)
    requires ValidArena(sc)
    ensures r.Ok? ==> ValidArena(r.value.scopes) && |r.value.node| == |ast|
  {
    NrStmts(sc, ModScope, ast)
  }

  /** A block records the cursor as its parent scope and owns a fresh Block
      scope, appended to the arena, whose parent is the cursor. */
  lemma BlockOpensChildScope(sc: seq<Scope>, cur: ScopeId, e: Expr)
    requires ValidArena(sc) && cur < |sc| && e.node.BlockExpr?
    requires NrExpr(sc, cur, e).Ok?
    ensures var o := NrExpr(sc, cur, e).value;
      o.node.parentScope == Some(cur) && o.node.node.BlockExpr? && o.node.node.scope == Some(|sc|) &&
      o.scopes[|sc|].kind == BlockScope && o.scopes[|sc|].parent == Some(cur)
  {
  }

  /** Inside a freshly pushed scope every name resolves as it did from the
      cursor: outer names stay visible. */
  lemma OuterNamesVisible(sc: seq<Scope>, cur: ScopeId, kind: ScopeKind, name: string)
    requires ValidArena(sc) && cur < |sc|
    ensures Resolve(Push(sc, kind, cur), |sc|, name) == Resolve(sc, cur, name)
  {
    ResolveStable(sc, Push(sc, kind, cur), cur, name);
  }

  /** After an expression, a block included, every name resolves from the
      cursor as before: what a block declares is not visible after it. */
  lemma ExprKeepsVisibleNames(sc: seq<Scope>, cur: ScopeId, e: Expr, name: string)
    requires ValidArena(sc) && cur < |sc| && NrExpr(sc, cur, e).Ok?
    ensures Resolve(NrExpr(sc, cur, e).value.scopes, cur, name) == Resolve(sc, cur, name)
  {
    ResolveStable(sc, NrExpr(sc, cur, e).value.scopes, cur, name);
  }

  /** The variable is declared before its initializer is resolved, so
      `let x = x` resolves: the initializer finds the new variable. */
  lemma SelfInitializerResolves(sc: seq<Scope>, cur: ScopeId, st: Stmt)
    requires ValidArena(sc) && cur < |sc|
    requires st.node.VarInit? && st.node.val.node == IdExpr(st.node.id)
    requires st.node.id !in sc[cur].symbols
    ensures NrStmt(sc, cur, st).Ok?
  {
    var sc1 := AddSymbol(sc, cur, st.node.id, NewSymbol(VarSymbol(st.node.isConst)), st.loc).value;
    assert Resolve(sc1, cur, st.node.id) == Some(NewSymbol(VarSymbol(st.node.isConst)));
  }

  /** A second declaration of a name in the same scope is a double
      definition, located at the declaration. */
  lemma RedeclarationRejected(sc: seq<Scope>, cur: ScopeId, st: Stmt)
    requires ValidArena(sc) && cur < |sc|
    requires st.node.VarInit? && st.node.id in sc[cur].symbols
    ensures NrStmt(sc, cur, st) == Err(DoubleDefinition(st.node.id, st.loc))
  {
  }

  /** An assignment checks its target before the assigned expression: an
      unknown target, or one that is not a mutable variable or parameter,
      is reported whatever the right-hand side holds. */
  lemma AssignmentTargetFirst(sc: seq<Scope>, cur: ScopeId, st: Stmt)
    requires ValidArena(sc) && cur < |sc| && st.node.Assignment?
    ensures var t := st.node.assignee;
      Resolve(sc, cur, t).None? ==> NrStmt(sc, cur, st) == Err(UnknownId(st.loc, t))
    ensures var t := st.node.assignee;
      Resolve(sc, cur, t).Some? && !Reassignable(Resolve(sc, cur, t).value.kind) ==>
        NrStmt(sc, cur, st) == Err(Token(t + " can't be reassigned!", st.loc))
    ensures NrStmt(sc, cur, st).Ok? ==> Reassignable(Resolve(sc, cur, st.node.assignee).value.kind)
  {
  }

  /** Calling main is always rejected, before the arguments are looked at. */
  lemma CallingMainRejected(sc: seq<Scope>, cur: ScopeId, e: Expr)
    requires ValidArena(sc) && cur < |sc| && e.node.FunCall? && e.node.callee == "main"
    ensures NrExpr(sc, cur, e) == Err(Token(MainCallMessage, e.loc))
  {
  }

  /** A printf call is not looked up: it resolves exactly when its
      arguments do. */
  lemma PrintfNotLookedUp(sc: seq<Scope>, cur: ScopeId, e: Expr)
    requires ValidArena(sc) && cur < |sc| && e.node.FunCall? && e.node.callee == "printf"
    ensures NrExpr(sc, cur, e).Ok? <==> NrExprs(sc, cur, e.node.args).Ok?
  {
  }

  /** Any other callee must be bound to a function where the call is. */
  lemma CalleeIsFunction(sc: seq<Scope>, cur: ScopeId, e: Expr)
    requires ValidArena(sc) && cur < |sc| && e.node.FunCall?
    requires e.node.callee != "main" && e.node.callee != "printf"
    requires NrExpr(sc, cur, e).Ok?
    ensures Resolve(sc, cur, e.node.callee).Some? && Resolve(sc, cur, e.node.callee).value.kind.FunSymbol?
  {
    var o := NrExprs(sc, cur, e.node.args).value;
    ResolveStable(sc, o.scopes, cur, e.node.callee);
  }

  /** An external declaration named main is rejected. */
  lemma ExternalMainRejected(sc: seq<Scope>, cur: ScopeId, st: Stmt)
    requires ValidArena(sc) && cur < |sc| && st.node.ExternalStmt? && st.node.esig.id == "main"
    ensures NrStmt(sc, cur, st) == Err(Token(ExternalMainMessage, st.node.esig.loc))
  {
  }

  /** The names of the parameters. */
  function ArgIds(args: seq<DefArg>): set<string> {
    if args == [] then {} else {args[0].id} + ArgIds(args[1..])
  }

  /** No two parameters share a name. */
  predicate DistinctArgIds(args: seq<DefArg>) {
    args == [] || (args[0].id !in ArgIds(args[1..]) && DistinctArgIds(args[1..]))
  }

  lemma {:induction false} ArgIdsMembers(args: seq<DefArg>)
    ensures forall i :: 0 <= i < |args| ==> args[i].id in ArgIds(args)
    ensures forall n :: n in ArgIds(args) ==> exists i :: 0 <= i < |args| && args[i].id == n
  {
    if args != [] {
      ArgIdsMembers(args[1..]);
      assert forall i :: 1 <= i < |args| ==> args[i] == args[1..][i - 1];
      forall n | n in ArgIds(args) ensures exists i :: 0 <= i < |args| && args[i].id == n {
        if n != args[0].id {
          var i :| 0 <= i < |args[1..]| && args[1..][i].id == n;
          assert args[i + 1].id == n;
        }
      }
    }
  }

  /** DistinctArgIds says that parameter names are pairwise distinct. */
  lemma {:induction false} DistinctArgIdsPairwise(args: seq<DefArg>)
    ensures DistinctArgIds(args) <==> forall i, j :: 0 <= i < j < |args| ==> args[i].id != args[j].id
  {
    if args != [] {
      var rest := args[1..];
      DistinctArgIdsPairwise(rest);
      ArgIdsMembers(rest);
      assert forall i :: 1 <= i < |args| ==> args[i] == rest[i - 1];
      if !DistinctArgIds(args) {
        if args[0].id in ArgIds(rest) {
          var j :| 0 <= j < |rest| && rest[j].id == args[0].id;
          assert args[j + 1].id == args[0].id;
        } else {
          var i, j :| 0 <= i < j < |rest| && rest[i].id == rest[j].id;
          assert args[i + 1].id == args[j + 1].id;
        }
      }
    }
  }

  /** The parameters are accepted exactly when their names are pairwise
      distinct and new to the scope. */
  lemma {:induction false} ParamsAccepted(sc: seq<Scope>, cur: ScopeId, args: seq<DefArg>)
    requires ValidArena(sc) && cur < |sc|
    ensures NrArgs(sc, cur, args).Ok? <==> DistinctArgIds(args) && ArgIds(args) !! sc[cur].symbols.Keys
    decreases |args|
  {
    if args != [] {
      var a := args[0].(parentScope := Some(cur));
      if a.id !in sc[cur].symbols {
        var sc1 := AddSymbol(sc, cur, a.id, NewSymbol(ParamSymbol(a)), a.loc).value;
        ParamsAccepted(sc1, cur, args[1..]);
      }
    }
  }

  /** Accepted parameters are each bound to a parameter symbol, and the
      scope gains exactly their names. */
  lemma {:induction false} ParamsBound(sc: seq<Scope>, cur: ScopeId, args: seq<DefArg>)
    requires ValidArena(sc) && cur < |sc| && NrArgs(sc, cur, args).Ok?
    ensures var r := NrArgs(sc, cur, args).value.scopes;
      r[cur].symbols.Keys == sc[cur].symbols.Keys + ArgIds(args) &&
      forall n :: n in ArgIds(args) ==> r[cur].symbols[n].kind.ParamSymbol?
    ensures var r := NrArgs(sc, cur, args).value.scopes;
      forall n :: n in sc[cur].symbols ==> r[cur].symbols[n] == sc[cur].symbols[n]
    decreases |args|
  {
    if args != [] {
      var a := args[0].(parentScope := Some(cur));
      var sc1 := AddSymbol(sc, cur, a.id, NewSymbol(ParamSymbol(a)), a.loc).value;
      ParamsBound(sc1, cur, args[1..]);
    }
  }

  /** Each parameter of a definition is declared in the function's own scope
      (a fresh Function scope whose parent is the cursor), so parameter names
      must be pairwise distinct. */
  lemma FunDefParams(sc: seq<Scope>, cur: ScopeId, st: Stmt)
    requires ValidArena(sc) && cur < |sc| && st.node.FunDef? && NrStmt(sc, cur, st).Ok?
    ensures var o := NrStmt(sc, cur, st).value; var args := st.node.sig.args;
      o.node.node.FunDef? && o.node.node.fscope.Some? && var f := o.node.node.fscope.value;
      f < |o.scopes| && o.scopes[f].kind == FunctionScope && o.scopes[f].parent == Some(cur) &&
      (forall n :: n in ArgIds(args) ==> n in o.scopes[f].symbols && o.scopes[f].symbols[n].kind.ParamSymbol?) &&
      DistinctArgIds(args)
  {
    var sig := st.node.sig;
    var sc1 := DeclareFunction(sc, cur, sig, st.loc).value;
    var f := |sc1|;
    var sc2 := Push(sc1, FunctionScope, cur);
    ParamsAccepted(sc2, f, sig.args);
    ParamsBound(sc2, f, sig.args);
  }

  /** At module level a definition does not touch the cursor's scope (the
      collector registered it); in a nested scope it binds its name there to
      its signature. */
  lemma FunDefDeclaration(sc: seq<Scope>, cur: ScopeId, st: Stmt)
    requires ValidArena(sc) && cur < |sc| && st.node.FunDef? && NrStmt(sc, cur, st).Ok?
    ensures var o := NrStmt(sc, cur, st).value;
      sc[cur].kind == ModuleScope ==> o.scopes[cur] == sc[cur]
    ensures var o := NrStmt(sc, cur, st).value;
      sc[cur].kind != ModuleScope ==>
        st.node.sig.id !in sc[cur].symbols &&
        o.scopes[cur].symbols == sc[cur].symbols[st.node.sig.id := NewSymbol(FunSymbol(st.node.sig))]
  {
  }

  /** A visit's outcome agrees with the walk's: the same result or error,
      and on success the same arena. */
  predicate Agrees<T(==)>(r: Result<T, Error>, scopes: seq<Scope>, spec: Result<Out<T>, Error>) {
    && (r.Ok? <==> spec.Ok?)
    && (r.Ok? ==> r.value == spec.value.node && scopes == spec.value.scopes)
    && (r.Err? ==> r.error == spec.error)
  }

  /** The walk over a list, with the already visited prefix in front. */
  function Prepend<T>(done: seq<T>, r: Result<Out<seq<T>>, Error>): Result<Out<seq<T>>, Error> {
    if r.Ok? then Ok(Out(r.value.scopes, done + r.value.node)) else r
  }

  /** Nothing done yet: Prepend is the identity. */
  lemma PrependNothing<T>(r: Result<Out<seq<T>>, Error>)
    ensures Prepend([], r) == r
  {
    if r.Ok? {
      assert [] + r.value.node == r.value.node;
    }
  }

  lemma PrependDone<T>(done: seq<T>, x: T, r: Result<Out<seq<T>>, Error>)
    ensures Prepend(done, if r.Ok? then Ok(Out(r.value.scopes, [x] + r.value.node)) else r) == Prepend(done + [x], r)
  {
    if r.Ok? {
      assert done + ([x] + r.value.node) == (done + [x]) + r.value.node;
    }
  }

  /** One step of the argument walk. */
  lemma NrExprsStep(sc: seq<Scope>, cur: ScopeId, es: seq<Expr>, i: nat, done: seq<Expr>)
    requires ValidArena(sc) && cur < |sc| && i < |es|
    ensures var o := NrExpr(sc, cur, es[i]);
      Prepend(done, NrExprs(sc, cur, es[i..])) ==
      if o.Err? then Err(o.error)
      else Prepend(done + [o.value.node], NrExprs(o.value.scopes, cur, es[i + 1..]))
  {
    assert es[i..][0] == es[i] && es[i..][1..] == es[i + 1..];
    var o := NrExpr(sc, cur, es[i]);
    if o.Ok? {
      PrependDone(done, o.value.node, NrExprs(o.value.scopes, cur, es[i + 1..]));
    }
  }

  /** One step of the statement walk. */
  lemma NrStmtsStep(sc: seq<Scope>, cur: ScopeId, ss: seq<Stmt>, i: nat, done: seq<Stmt>)
    requires ValidArena(sc) && cur < |sc| && i < |ss|
    ensures var o := NrStmt(sc, cur, ss[i]);
      Prepend(done, NrStmts(sc, cur, ss[i..])) ==
      if o.Err? then Err(o.error)
      else Prepend(done + [o.value.node], NrStmts(o.value.scopes, cur, ss[i + 1..]))
  {
    assert ss[i..][0] == ss[i] && ss[i..][1..] == ss[i + 1..];
    var o := NrStmt(sc, cur, ss[i]);
    if o.Ok? {
      PrependDone(done, o.value.node, NrStmts(o.value.scopes, cur, ss[i + 1..]));
    }
  }

  /** The statement walk after the visit of ss[i], in terms of that
      visit's outcome. */
  lemma StmtsAfterVisit(sc: seq<Scope>, cur: ScopeId, ss: seq<Stmt>, i: nat, done: seq<Stmt>, o: Result<Stmt, Error>, scopes: seq<Scope>)
    requires ValidArena(sc) && cur < |sc| && i < |ss|
    requires Agrees(o, scopes, NrStmt(sc, cur, ss[i]))
    ensures o.Err? ==> Prepend(done, NrStmts(sc, cur, ss[i..])) == Err(o.error)
    ensures o.Ok? ==> Prepend(done, NrStmts(sc, cur, ss[i..])) == Prepend(done + [o.value], NrStmts(scopes, cur, ss[i + 1..]))
  {
    NrStmtsStep(sc, cur, ss, i, done);
  }

  /** The function-definition case of the statement walk, one step at a
      time. */
  lemma NrFunDefSteps(sc: seq<Scope>, cur: ScopeId, st: Stmt)
    requires ValidArena(sc) && cur < |sc| && st.node.FunDef?
    ensures var d := DeclareFunction(sc, cur, st.node.sig, st.loc);
      NrStmt(sc, cur, st) ==
      if d.Err? then Err(d.error)
      else
        var f := |d.value|;
        var o1 := NrSig(Push(d.value, FunctionScope, cur), f, st.node.sig);
        if o1.Err? then Err(o1.error)
        else
          var o2 := NrExpr(o1.value.scopes, f, st.node.body);
          if o2.Err? then Err(o2.error)
          else Ok(Out(o2.value.scopes, st.(parentScope := Some(cur), node := FunDef(st.node.defInternal, o1.value.node, o2.value.node, Some(f)))))
  {
  }

  /** One step of the parameter walk. */
  lemma NrArgsStep(sc: seq<Scope>, cur: ScopeId, args: seq<DefArg>, i: nat, done: seq<DefArg>)
    requires ValidArena(sc) && cur < |sc| && i < |args|
    ensures var a := args[i].(parentScope := Some(cur));
      var added := AddSymbol(sc, cur, a.id, NewSymbol(ParamSymbol(a)), a.loc);
      Prepend(done, NrArgs(sc, cur, args[i..])) ==
      if added.Err? then Err(added.error)
      else Prepend(done + [a], NrArgs(added.value, cur, args[i + 1..]))
  {
    assert args[i..][0] == args[i] && args[i..][1..] == args[i + 1..];
    var a := args[i].(parentScope := Some(cur));
    var added := AddSymbol(sc, cur, a.id, NewSymbol(ParamSymbol(a)), a.loc);
    if added.Ok? {
      PrependDone(done, a, NrArgs(added.value, cur, args[i + 1..]));
    }
  }

  /** The NameResolution visitor: a cursor `scope` over the shared table. */
  class NameResolution {
    const table: ScopeTable
    var scope: ScopeId

    ghost predicate Valid()
      reads this, table
    {
      table.Valid() && scope < |table.scopes|
    }

    constructor (table: ScopeTable, scope: ScopeId)
      requires table.Valid() && scope < |table.scopes|
      ensures this.table == table && this.scope == scope && Valid()
    {
      this.table := table;
      this.scope := scope;
    }

    /** NameResolution::visit for an expression; on success the cursor is
        back where it was. */
    method VisitExpr(e: Expr) returns (r: Result<Expr, Error>)
      requires Valid()
      modifies this, table
      ensures Valid()
      ensures Agrees(r, table.scopes, NrExpr(old(table.scopes), old(scope), e))
      ensures r.Ok? ==> scope == old(scope)
      decreases e, 2
    {
      var here := e.(parentScope := Some(scope));
      match e.node {
        case ParenExpr(inner) =>
          var o := VisitExpr(inner);
          if o.Err? { return Err(o.error); }
          return Ok(here.(node := ParenExpr(o.value)));
        case UnaryExpr(op, x) =>
          var o := VisitExpr(x);
          if o.Err? { return Err(o.error); }
          return Ok(here.(node := UnaryExpr(op, o.value)));
        case BinaryExpr(op, lhs, rhs) =>
          var o1 := VisitExpr(lhs);
          if o1.Err? { return Err(o1.error); }
          var o2 := VisitExpr(rhs);
          if o2.Err? { return Err(o2.error); }
          return Ok(here.(node := BinaryExpr(op, o1.value, o2.value)));
        case IdExpr(id) =>
          r := VisitId(e);
        case FunCall(_, _) =>
          r := VisitCall(e);
        case BlockExpr(_, _) =>
          r := VisitBlock(e);
        case IfElseExpr(_, _, _) =>
          r := VisitIfElse(e);
        case WhileExpr(c, b) =>
          var o1 := VisitExpr(c);
          if o1.Err? { return Err(o1.error); }
          var o2 := VisitExpr(b);
          if o2.Err? { return Err(o2.error); }
          return Ok(here.(node := WhileExpr(o1.value, o2.value)));
        case IntConst(_) => return Ok(e);
        case FloatConst(_) => return Ok(e);
        case CharConst(_) => return Ok(e);
        case StringConst(_) => return Ok(e);
        case BoolConst(_) => return Ok(e);
      }
    }

    /** NameResolution::visit(IdExpr&) */
    method VisitId(e: Expr) returns (r: Result<Expr, Error>)
      requires Valid() && e.node.IdExpr?
      ensures Agrees(r, table.scopes, NrExpr(table.scopes, scope, e))
    {
      var id := e.node.id;
      var sym := table.Lookup(scope, id);
      if sym.None? { return Err(UnknownId(e.loc, id)); }
      var k := sym.value.kind;
      if !k.VarSymbol? && !k.ParamSymbol? { return Err(Token(WrongKind(id, k), e.loc)); }
      return Ok(e.(parentScope := Some(scope)));
    }

    /** NameResolution::visit(FunCall&) */
    method VisitCall(e: Expr) returns (r: Result<Expr, Error>)
      requires Valid() && e.node.FunCall?
      modifies this, table
      ensures Valid()
      ensures Agrees(r, table.scopes, NrExpr(old(table.scopes), old(scope), e))
      ensures r.Ok? ==> scope == old(scope)
      decreases e, 1
    {
      var callee := e.node.callee;
      if callee == "main" { return Err(Token(MainCallMessage, e.loc)); }
      var o := VisitEach(e.node.args);
      if o.Err? { return Err(o.error); }
      var call := e.(parentScope := Some(scope), node := FunCall(callee, o.value));
      if callee == "printf" { return Ok(call); }
      var sym := table.Lookup(scope, callee);
      if sym.None? { return Err(UnknownId(e.loc, callee)); }
      var isFun := table.IsFunctionAt(scope, callee);
      if isFun != Ok(true) { return Err(Token(WrongKind(callee, sym.value.kind), e.loc)); }
      return Ok(call);
    }

    /** NameResolution::visit(BlockExpr&): open the block's scope, visit the
        body in it, and put the cursor back. */
    method VisitBlock(e: Expr) returns (r: Result<Expr, Error>)
      requires Valid() && e.node.BlockExpr?
      modifies this, table
      ensures Valid()
      ensures Agrees(r, table.scopes, NrExpr(old(table.scopes), old(scope), e))
      ensures r.Ok? ==> scope == old(scope)
      decreases e, 1
    {
      var cur := scope;
      var id := table.NewScope(BlockScope, cur);
      scope := id;
      var o := VisitStmts(e.node.body);
      if o.Err? { return Err(o.error); }
      scope := cur;
      return Ok(e.(parentScope := Some(cur), node := BlockExpr(o.value, Some(id))));
    }

    /** NameResolution::visit(IfElseExpr&) */
    method VisitIfElse(e: Expr) returns (r: Result<Expr, Error>)
      requires Valid() && e.node.IfElseExpr?
      modifies this, table
      ensures Valid()
      ensures Agrees(r, table.scopes, NrExpr(old(table.scopes), old(scope), e))
      ensures r.Ok? ==> scope == old(scope)
      decreases e, 1
    {
      var here := e.(parentScope := Some(scope));
      var o1 := VisitExpr(e.node.cond);
      if o1.Err? { return Err(o1.error); }
      var o2 := VisitExpr(e.node.ifBranch);
      if o2.Err? { return Err(o2.error); }
      if e.node.elseBranch.None? { return Ok(here.(node := IfElseExpr(o1.value, o2.value, None))); }
      var o3 := VisitExpr(e.node.elseBranch.value);
      if o3.Err? { return Err(o3.error); }
      return Ok(here.(node := IfElseExpr(o1.value, o2.value, Some(o3.value))));
    }

    /** The loop over a call's arguments. */
    method VisitEach(es: seq<Expr>) returns (r: Result<seq<Expr>, Error>)
      requires Valid()
      modifies this, table
      ensures Valid()
      ensures Agrees(r, table.scopes, NrExprs(old(table.scopes), old(scope), es))
      ensures r.Ok? ==> scope == old(scope)
      decreases es
    {
      var done: seq<Expr> := [];
      var i := 0;
      assert es[0..] == es;
      PrependNothing(NrExprs(table.scopes, scope, es));
      while i < |es|
        invariant 0 <= i <= |es| && Valid() && scope == old(scope)
        invariant NrExprs(old(table.scopes), old(scope), es) == Prepend(done, NrExprs(table.scopes, scope, es[i..]))
      {
        NrExprsStep(table.scopes, scope, es, i, done);
        var o := VisitExpr(es[i]);
        if o.Err? { return Err(o.error); }
        done := done + [o.value];
        i := i + 1;
      }
      assert es[i..] == [];
      assert done + [] == done;
      return Ok(done);
    }

    /** The loop over a block's statements. */
    method VisitStmts(ss: seq<Stmt>) returns (r: Result<seq<Stmt>, Error>)
      requires Valid()
      modifies this, table
      ensures Valid()
      ensures Agrees(r, table.scopes, NrStmts(old(table.scopes), old(scope), ss))
      ensures r.Ok? ==> scope == old(scope)
      decreases ss
    {
      var done: seq<Stmt> := [];
      var i := 0;
      assert ss[0..] == ss;
      PrependNothing(NrStmts(table.scopes, scope, ss));
      while i < |ss|
        invariant 0 <= i <= |ss| && Valid() && scope == old(scope)
        invariant NrStmts(old(table.scopes), old(scope), ss) == Prepend(done, NrStmts(table.scopes, scope, ss[i..]))
      {
        ghost var before, cur := table.scopes, scope;
        var o := VisitStmt(ss[i]);
        StmtsAfterVisit(before, cur, ss, i, done, o, table.scopes);
        if o.Err? { return Err(o.error); }
        done := done + [o.value];
        i := i + 1;
      }
      assert ss[i..] == [];
      assert done + [] == done;
      return Ok(done);
    }

    /** NameResolution::visit for a statement; on success the cursor is
        back where it was. */
    method VisitStmt(st: Stmt) returns (r: Result<Stmt, Error>)
      requires Valid()
      modifies this, table
      ensures Valid()
      ensures Agrees(r, table.scopes, NrStmt(old(table.scopes), old(scope), st))
      ensures r.Ok? ==> scope == old(scope)
      decreases st, 2
    {
      match st.node {
        case ExprStmt(x) =>
          var o := VisitExpr(x);
          if o.Err? { return Err(o.error); }
          return Ok(st.(parentScope := Some(scope), node := ExprStmt(o.value)));
        case VarInit(_, _, _, _, _) =>
          r := VisitVarInit(st);
        case Assignment(_, _) =>
          r := VisitAssignment(st);
        case FunDef(_, _, _, _) =>
          r := VisitFunDef(st);
        case ExternalStmt(_) =>
          r := VisitExternal(st);
      }
    }

    /** NameResolution::visit(VarInit&): declare, then resolve the value. */
    method VisitVarInit(st: Stmt) returns (r: Result<Stmt, Error>)
      requires Valid() && st.node.VarInit?
      modifies this, table
      ensures Valid()
      ensures Agrees(r, table.scopes, NrStmt(old(table.scopes), old(scope), st))
      ensures r.Ok? ==> scope == old(scope)
      decreases st, 1
    {
      var VarInit(isInternal, isConst, id, anno, val) := st.node;
      var added := table.AddVar(scope, st.loc, id, isConst);
      if added.Err? { return Err(added.error); }
      var anno' := if anno.Some? then Some(anno.value.(scope := Some(scope))) else None;
      var o := VisitExpr(val);
      if o.Err? { return Err(o.error); }
      return Ok(st.(parentScope := Some(scope), node := VarInit(isInternal, isConst, id, anno', o.value)));
    }

    /** NameResolution::visit(Assignment&): check the target, then the value. */
    method VisitAssignment(st: Stmt) returns (r: Result<Stmt, Error>)
      requires Valid() && st.node.Assignment?
      modifies this, table
      ensures Valid()
      ensures Agrees(r, table.scopes, NrStmt(old(table.scopes), old(scope), st))
      ensures r.Ok? ==> scope == old(scope)
      decreases st, 1
    {
      var target := st.node.assignee;
      var sym := table.Lookup(scope, target);
      if sym.None? { return Err(UnknownId(st.loc, target)); }
      var ok := table.CanBeReassignedAt(scope, target);
      if ok == Ok(false) { return Err(Token(target + " can't be reassigned!", st.loc)); }
      var o := VisitExpr(st.node.newValue);
      if o.Err? { return Err(o.error); }
      return Ok(st.(parentScope := Some(scope), node := Assignment(target, o.value)));
    }

    /** NameResolution::visit(FunDef&): declare the function unless at module
        level, open its scope, visit signature and body in it, and put the
        cursor back. */
    method VisitFunDef(st: Stmt) returns (r: Result<Stmt, Error>)
      requires Valid() && st.node.FunDef?
      modifies this, table
      ensures Valid()
      ensures Agrees(r, table.scopes, NrStmt(old(table.scopes), old(scope), st))
      ensures r.Ok? ==> scope == old(scope)
      decreases st, 1
    {
      var FunDef(isInternal, sig, body, _) := st.node;
      var cur := scope;
      NrFunDefSteps(table.scopes, cur, st);
      ghost var d := DeclareFunction(table.scopes, cur, sig, st.loc);
      if table.scopes[cur].kind != ModuleScope {
        var added := table.AddFunction(cur, st.loc, sig);
        if added.Err? { return Err(added.error); }
      }
      assert d == Ok(table.scopes);
      var f := table.NewScope(FunctionScope, cur);
      assert table.scopes == Push(d.value, FunctionScope, cur);
      scope := f;
      var s := VisitSig(sig);
      if s.Err? { return Err(s.error); }
      var b := VisitExpr(body);
      if b.Err? { return Err(b.error); }
      scope := cur;
      return Ok(st.(parentScope := Some(cur), node := FunDef(isInternal, s.value, b.value, Some(f))));
    }

    /** NameResolution::visit(ExternalStmt&): the parameters go into the
        current scope. */
    method VisitExternal(st: Stmt) returns (r: Result<Stmt, Error>)
      requires Valid() && st.node.ExternalStmt?
      modifies table
      ensures Valid()
      ensures Agrees(r, table.scopes, NrStmt(old(table.scopes), scope, st))
    {
      var sig := st.node.esig;
      if sig.id == "main" { return Err(Token(ExternalMainMessage, sig.loc)); }
      if table.scopes[scope].kind != ModuleScope {
        var added := table.AddFunction(scope, st.loc, sig);
        if added.Err? { return Err(added.error); }
      }
      var s := VisitSig(sig);
      if s.Err? { return Err(s.error); }
      return Ok(st.(parentScope := Some(scope), node := ExternalStmt(s.value)));
    }

    /** NameResolution::visit for a signature and its parameters. */
    method VisitSig(sig: FunSignature) returns (r: Result<FunSignature, Error>)
      requires Valid()
      modifies table
      ensures Valid()
      ensures Agrees(r, table.scopes, NrSig(old(table.scopes), scope, sig))
    {
      var done: seq<DefArg> := [];
      var i := 0;
      assert sig.args[0..] == sig.args;
      PrependNothing(NrArgs(table.scopes, scope, sig.args));
      while i < |sig.args|
        invariant 0 <= i <= |sig.args| && Valid()
        invariant NrArgs(old(table.scopes), scope, sig.args) == Prepend(done, NrArgs(table.scopes, scope, sig.args[i..]))
      {
        NrArgsStep(table.scopes, scope, sig.args, i, done);
        var arg := sig.args[i].(parentScope := Some(scope));
        var added := table.AddParam(scope, arg);
        if added.Err? { return Err(added.error); }
        done := done + [arg];
        i := i + 1;
      }
      assert sig.args[i..] == [];
      assert done + [] == done;
      return Ok(sig.(parentScope := Some(scope), args := done, anno := sig.anno.(scope := Some(scope))));
    }

    /** The resolution loop of Module::run_sema, from module scope. */
    method Run(ast: seq<Stmt>) returns (r: Result<seq<Stmt>, Error>)
      requires Valid() && scope == ModScope
      modifies this, table
      ensures Valid()
      ensures Agrees(r, table.scopes, ResolveModule(old(table.scopes), ast))
    {
      r := VisitStmts(ast);
    }
  }
}
