/** The module collector (compiler/sema/module_collector.cpp): it registers
    every top-level function and external declaration in the module scope,
    so that functions can be called before they are defined, and rejects
    statements that may not appear at module level. */
module ModuleCollection {
  import opened Wrappers
  import opened Errors
  import opened Ast
  import opened Symbols
  import opened Scopes

  /** The module scope of the arena. */
  const ModScope: ScopeId := 0

  predicate ValidArena(scopes: seq<Scope>) { WellFormed(scopes) && |scopes| >= 1 }

  /** A function definition or an external declaration. */
  predicate DeclaresFunction(st: Stmt) { st.node.FunDef? || st.node.ExternalStmt? }

  function DeclaredSig(st: Stmt): FunSignature
    requires DeclaresFunction(st)
  {
    if st.node.FunDef? then st.node.sig else st.node.esig
  }

  /** ModuleCollector::visit for one top-level statement. */
  function CollectStmt(scopes: seq<Scope>, st: Stmt): (r: Result<seq<Scope>, Error>)
    requires ValidArena(scopes)
    ensures r.Ok? ==> ValidArena(r.value) && |r.value| == |scopes|
    ensures r.Ok? ==> forall k :: 0 < k < |scopes| ==> r.value[k] == scopes[k]
    ensures r.Ok? && !DeclaresFunction(st) ==> r.value == scopes
    ensures r.Err? <==> st.node.ExprStmt? || st.node.Assignment? ||
                        (DeclaresFunction(st) && DeclaredSig(st).id in scopes[ModScope].symbols)
  {
    match st.node
    case FunDef(_, sig, _, _) => AddSymbol(scopes, ModScope, sig.id, NewSymbol(FunSymbol(sig)), st.loc)
    case ExternalStmt(sig) => AddSymbol(scopes, ModScope, sig.id, NewSymbol(FunSymbol(sig)), st.loc)
    case VarInit(_, _, _, _, _) => Ok(scopes)
    case ExprStmt(_) => Err(Errors.ModuleCollector(st.loc))
    case Assignment(_, _) => Err(Errors.ModuleCollector(st.loc))
  }

  /** The collector applied to the top-level statements in order, stopping
      at the first error (Module::run_sema). */
  function Collect(scopes: seq<Scope>, ast: seq<Stmt>): (r: Result<seq<Scope>, Error>)
    requires ValidArena(scopes)
    ensures r.Ok? ==> ValidArena(r.value) && |r.value| == |scopes|
    decreases |ast|
  {
    if ast == [] then Ok(scopes)
    else
      var s1 :- CollectStmt(scopes, ast[0]);
      Collect(s1, ast[1..])
  }

  /** The names the top-level declarations introduce. */
  function DeclaredIds(ast: seq<Stmt>): set<string> {
    set i | 0 <= i < |ast| && DeclaresFunction(ast[i]) :: DeclaredSig(ast[i]).id
  }

  /** One step of a successful collection: a declaration adds its name,
      bound to its signature, to module scope; anything else changes nothing. */
  lemma CollectStmtOk(scopes: seq<Scope>, st: Stmt)
    requires ValidArena(scopes) && CollectStmt(scopes, st).Ok?
    ensures var r := CollectStmt(scopes, st).value;
      r[ModScope].kind == scopes[ModScope].kind && r[ModScope].parent == scopes[ModScope].parent &&
      r[ModScope].symbols == if DeclaresFunction(st)
                             then scopes[ModScope].symbols[DeclaredSig(st).id := NewSymbol(FunSymbol(DeclaredSig(st)))]
                             else scopes[ModScope].symbols
  {
  }

  /** A successful collection saw no top-level expression statement or
      assignment. */
  lemma {:induction false} CollectOkHasNoTopLevelExpr(scopes: seq<Scope>, ast: seq<Stmt>)
    requires ValidArena(scopes) && Collect(scopes, ast).Ok?
    ensures forall i :: 0 <= i < |ast| ==> !ast[i].node.ExprStmt? && !ast[i].node.Assignment?
    decreases |ast|
  {
    if ast != [] {
      CollectOkHasNoTopLevelExpr(CollectStmt(scopes, ast[0]).value, ast[1..]);
      assert forall i :: 1 <= i < |ast| ==> ast[i] == ast[1..][i - 1];
    }
  }

  /** In a successful collection the declared names were not bound in
      module scope before, and are pairwise distinct. */
  lemma {:induction false} CollectOkNamesDistinct(scopes: seq<Scope>, ast: seq<Stmt>)
    requires ValidArena(scopes) && Collect(scopes, ast).Ok?
    ensures forall i :: 0 <= i < |ast| && DeclaresFunction(ast[i]) ==> DeclaredSig(ast[i]).id !in scopes[ModScope].symbols
    ensures forall i, j :: 0 <= i < j < |ast| && DeclaresFunction(ast[i]) && DeclaresFunction(ast[j]) ==>
              DeclaredSig(ast[i]).id != DeclaredSig(ast[j]).id
    decreases |ast|
  {
    if ast != [] {
      var s1 := CollectStmt(scopes, ast[0]).value;
      var rest := ast[1..];
      CollectStmtOk(scopes, ast[0]);
      CollectOkNamesDistinct(s1, rest);
      assert forall i :: 1 <= i < |ast| ==> ast[i] == rest[i - 1];
    }
  }

  /** After a successful collection every declared name is bound to its
      own signature, and every earlier binding of module scope is kept. */
  lemma {:induction false} CollectOkBinds(scopes: seq<Scope>, ast: seq<Stmt>)
    requires ValidArena(scopes) && Collect(scopes, ast).Ok?
    ensures var r := Collect(scopes, ast).value;
      forall i :: 0 <= i < |ast| && DeclaresFunction(ast[i]) ==>
        DeclaredSig(ast[i]).id in r[ModScope].symbols &&
        r[ModScope].symbols[DeclaredSig(ast[i]).id] == NewSymbol(FunSymbol(DeclaredSig(ast[i])))
    ensures var r := Collect(scopes, ast).value;
      forall n :: n in scopes[ModScope].symbols ==> n in r[ModScope].symbols && r[ModScope].symbols[n] == scopes[ModScope].symbols[n]
    decreases |ast|
  {
    if ast != [] {
      var s1 := CollectStmt(scopes, ast[0]).value;
      var rest := ast[1..];
      CollectStmtOk(scopes, ast[0]);
      CollectOkBinds(s1, rest);
      CollectOkNamesDistinct(s1, rest);
      assert forall i :: 1 <= i < |ast| ==> ast[i] == rest[i - 1];
    }
  }

  /** A successful collection gives module scope exactly the declared names
      on top of the ones it had (a nested definition is not among them) and
      leaves every other scope alone. */
  lemma {:induction false} CollectOkKeys(scopes: seq<Scope>, ast: seq<Stmt>)
    requires ValidArena(scopes) && Collect(scopes, ast).Ok?
    ensures var r := Collect(scopes, ast).value;
      r[ModScope].symbols.Keys == scopes[ModScope].symbols.Keys + DeclaredIds(ast)
    ensures var r := Collect(scopes, ast).value;
      r[ModScope].kind == scopes[ModScope].kind && r[ModScope].parent == scopes[ModScope].parent
    ensures var r := Collect(scopes, ast).value;
      forall k :: 0 < k < |scopes| ==> r[k] == scopes[k]
    decreases |ast|
  {
    if ast != [] {
      var s1 := CollectStmt(scopes, ast[0]).value;
      var rest := ast[1..];
      CollectStmtOk(scopes, ast[0]);
      CollectOkKeys(s1, rest);
      DeclaredIdsCons(ast);
    }
  }

  lemma DeclaredIdsCons(ast: seq<Stmt>)
    requires ast != []
    ensures DeclaredIds(ast) == DeclaredIds(ast[1..]) + (if DeclaresFunction(ast[0]) then {DeclaredSig(ast[0]).id} else {})
  {
    var rest := ast[1..];
    forall n | n in DeclaredIds(ast)
      ensures n in DeclaredIds(rest) || (DeclaresFunction(ast[0]) && n == DeclaredSig(ast[0]).id)
    {
      var i :| 0 <= i < |ast| && DeclaresFunction(ast[i]) && DeclaredSig(ast[i]).id == n;
      if i > 0 { assert rest[i - 1] == ast[i]; }
    }
    forall n | n in DeclaredIds(rest) ensures n in DeclaredIds(ast) {
      var i :| 0 <= i < |rest| && DeclaresFunction(rest[i]) && DeclaredSig(rest[i]).id == n;
      assert ast[i + 1] == rest[i];
    }
  }

  /** A statement the collector rejects makes the whole collection fail,
      unless an earlier statement failed first. */
  lemma TopLevelExprRejected(scopes: seq<Scope>, ast: seq<Stmt>, i: nat)
    requires ValidArena(scopes) && i < |ast|
    requires ast[i].node.ExprStmt? || ast[i].node.Assignment?
    ensures Collect(scopes, ast).Err?
  {
    if Collect(scopes, ast).Ok? {
      CollectOkHasNoTopLevelExpr(scopes, ast);
    }
  }

  /** Two top-level functions with the same name make collection fail. */
  lemma DuplicateRejected(scopes: seq<Scope>, ast: seq<Stmt>, i: nat, j: nat)
    requires ValidArena(scopes) && i < j < |ast|
    requires DeclaresFunction(ast[i]) && DeclaresFunction(ast[j]) && DeclaredSig(ast[i]).id == DeclaredSig(ast[j]).id
    ensures Collect(scopes, ast).Err?
  {
    if Collect(scopes, ast).Ok? {
      CollectOkNamesDistinct(scopes, ast);
    }
  }

  /** The error of a double definition is the collector's: DoubleDefinition
      at the second declaration. */
  lemma {:induction false} FirstErrorIsReported(scopes: seq<Scope>, st: Stmt)
    requires ValidArena(scopes) && DeclaresFunction(st) && DeclaredSig(st).id in scopes[ModScope].symbols
    ensures Collect(scopes, [st]) == Err(DoubleDefinition(DeclaredSig(st).id, st.loc))
  {
    assert CollectStmt(scopes, st) == Err(DoubleDefinition(DeclaredSig(st).id, st.loc));
  }

  /** ModuleCollector: visits the top-level statements, writing into the
      module scope of the shared table. */
  class ModuleCollector {
    const table: ScopeTable

    constructor (table: ScopeTable)
      ensures this.table == table
    {
      this.table := table;
    }

    /** ModuleCollector::visit, dispatched on the statement kind. */
    method Visit(st: Stmt) returns (r: Result<(), Error>)
      requires table.Valid()
      modifies table
      ensures table.Valid()
      ensures r.Ok? <==> CollectStmt(old(table.scopes), st).Ok?
      ensures r.Ok? ==> table.scopes == CollectStmt(old(table.scopes), st).value
      ensures r.Err? ==> r.error == CollectStmt(old(table.scopes), st).error
    {
      match st.node {
        case FunDef(_, sig, _, _) =>
          r := table.AddFunction(ModScope, st.loc, sig);
        case ExternalStmt(sig) =>
          r := table.AddFunction(ModScope, st.loc, sig);
        case VarInit(_, _, _, _, _) =>
          r := Ok(());
        case ExprStmt(_) =>
          r := Err(Errors.ModuleCollector(st.loc));
        case Assignment(_, _) =>
          r := Err(Errors.ModuleCollector(st.loc));
      }
    }

    /** The collector loop of Module::run_sema. */
    method Run(ast: seq<Stmt>) returns (r: Result<(), Error>)
      requires table.Valid()
      modifies table
      ensures table.Valid()
      ensures r.Ok? <==> Collect(old(table.scopes), ast).Ok?
      ensures r.Ok? ==> table.scopes == Collect(old(table.scopes), ast).value
      ensures r.Err? ==> r.error == Collect(old(table.scopes), ast).error
    {
      var i := 0;
      while i < |ast|
        invariant 0 <= i <= |ast| && table.Valid()
        invariant Collect(old(table.scopes), ast) == Collect(table.scopes, ast[i..])
      {
        assert ast[i..][1..] == ast[i + 1..];
        var step := Visit(ast[i]);
        if step.Err? {
          return Err(step.error);
        }
        i := i + 1;
      }
      return Ok(());
    }
  }
}
