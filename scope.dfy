/** Scopes (compiler/sema/scope.cpp). The scopes of a module live in one
    arena, a sequence indexed by `ScopeId`; a scope's parent always has a
    smaller index, so every parent chain ends. Index 0 is the module scope. */
module Scopes {
  import opened Wrappers
  import opened Locations
  import opened Errors
  import opened Types
  import opened Ast
  import opened Symbols

  datatype ScopeKind = BlockScope | FunctionScope | ModuleScope

  datatype Scope = Scope(kind: ScopeKind, parent: Option<ScopeId>, symbols: map<string, Symbol>)

  /** Every parent link points to an earlier scope of the arena. */
  predicate WellFormed(scopes: seq<Scope>) {
    forall i :: 0 <= i < |scopes| && scopes[i].parent.Some? ==> scopes[i].parent.value < i
  }

  /** The parent chain of s, starting with s itself. */
  function Chain(scopes: seq<Scope>, s: ScopeId): (c: seq<ScopeId>)
    requires WellFormed(scopes) && s < |scopes|
    ensures |c| >= 1 && c[0] == s
    ensures forall i :: 0 <= i < |c| ==> c[i] < |scopes|
    ensures forall i :: 0 <= i < |c| - 1 ==> scopes[c[i]].parent == Some(c[i + 1])
    ensures scopes[c[|c| - 1]].parent.None?
    decreases s
  {
    match scopes[s].parent
    case None => [s]
    case Some(p) => [s] + Chain(scopes, p)
  }

  /** Scope::resolve: the binding of the nearest scope on the chain whose
      own table holds the name. */
  function Resolve(scopes: seq<Scope>, s: ScopeId, name: string): Option<Symbol>
    requires WellFormed(scopes) && s < |scopes|
    decreases s
  {
    if name in scopes[s].symbols then Some(scopes[s].symbols[name])
    else match scopes[s].parent
      case None => None
      case Some(p) => Resolve(scopes, p, name)
  }

  /** Resolve finds the first scope of the chain that holds the name. */
  lemma {:induction false} ResolveIsNearest(scopes: seq<Scope>, s: ScopeId, name: string, i: nat)
    requires WellFormed(scopes) && s < |scopes|
    requires i < |Chain(scopes, s)| && name in scopes[Chain(scopes, s)[i]].symbols
    requires forall j :: 0 <= j < i ==> name !in scopes[Chain(scopes, s)[j]].symbols
    ensures Resolve(scopes, s, name) == Some(scopes[Chain(scopes, s)[i]].symbols[name])
    decreases s
  {
    if i > 0 {
      var p := scopes[s].parent.value;
      assert Chain(scopes, s) == [s] + Chain(scopes, p);
      assert name !in scopes[Chain(scopes, s)[0]].symbols;
      forall j | 0 <= j < i - 1
        ensures name !in scopes[Chain(scopes, p)[j]].symbols
      {
        assert Chain(scopes, p)[j] == Chain(scopes, s)[j + 1];
      }
      ResolveIsNearest(scopes, p, name, i - 1);
    }
  }

  /** No scope of the chain of s holds the name. */
  predicate UnboundInChain(scopes: seq<Scope>, s: ScopeId, name: string)
    requires WellFormed(scopes) && s < |scopes|
  {
    forall i :: 0 <= i < |Chain(scopes, s)| ==> name !in scopes[Chain(scopes, s)[i]].symbols
  }

  /** Resolve fails exactly when no scope of the chain holds the name. */
  lemma {:induction false} ResolveNone(scopes: seq<Scope>, s: ScopeId, name: string)
    requires WellFormed(scopes) && s < |scopes|
    ensures Resolve(scopes, s, name).None? <==> UnboundInChain(scopes, s, name)
    decreases s
  {
    var c := Chain(scopes, s);
    if name in scopes[s].symbols {
      assert name in scopes[c[0]].symbols;
    } else if scopes[s].parent.Some? {
      var p := scopes[s].parent.value;
      var cp := Chain(scopes, p);
      assert c == [s] + cp;
      ResolveNone(scopes, p, name);
      if UnboundInChain(scopes, p, name) {
        forall i | 0 <= i < |c| ensures name !in scopes[c[i]].symbols {
          if i > 0 { assert c[i] == cp[i - 1]; }
        }
      } else {
        var i :| 0 <= i < |cp| && name in scopes[cp[i]].symbols;
        assert c[i + 1] == cp[i];
      }
    } else {
      assert c == [s];
    }
  }

  const GetSymbolMessage := "get_symbol should only be used after name resolution!"

  /** Scope::get_symbol: the same symbol as resolve, or a runtime error. */
  function GetSymbol(scopes: seq<Scope>, s: ScopeId, name: string): (r: Result<Symbol, Error>)
    requires WellFormed(scopes) && s < |scopes|
    ensures r.Ok? <==> Resolve(scopes, s, name).Some?
    ensures r.Ok? ==> Resolve(scopes, s, name) == Some(r.value)
    ensures r.Err? ==> r.error == Internal(GetSymbolMessage)
  {
    match Resolve(scopes, s, name)
    case Some(sym) => Ok(sym)
    case None => Err(Internal(GetSymbolMessage))
  }

  /** The scope that holds the binding resolve finds. */
  function Owner(scopes: seq<Scope>, s: ScopeId, name: string): (o: Option<ScopeId>)
    requires WellFormed(scopes) && s < |scopes|
    ensures o.Some? <==> Resolve(scopes, s, name).Some?
    ensures o.Some? ==> o.value <= s && name in scopes[o.value].symbols
    ensures o.Some? ==> Resolve(scopes, s, name) == Some(scopes[o.value].symbols[name])
    decreases s
  {
    if name in scopes[s].symbols then Some(s)
    else match scopes[s].parent
      case None => None
      case Some(p) => Owner(scopes, p, name)
  }

  /** add_var, add_function and add_param: a double definition exactly when
      this scope's own table has the name; otherwise one entry is added. */
  function AddSymbol(scopes: seq<Scope>, s: ScopeId, name: string, sym: Symbol, loc: Location): (r: Result<seq<Scope>, Error>)
    requires WellFormed(scopes) && s < |scopes|
    ensures r.Err? <==> name in scopes[s].symbols
    ensures r.Err? ==> r.error == DoubleDefinition(name, loc)
    ensures r.Ok? ==> WellFormed(r.value) && |r.value| == |scopes|
    ensures r.Ok? ==> r.value[s].symbols == scopes[s].symbols[name := sym] && |r.value[s].symbols| == |scopes[s].symbols| + 1
    ensures r.Ok? ==> r.value[s].kind == scopes[s].kind && r.value[s].parent == scopes[s].parent
    ensures r.Ok? ==> forall k :: 0 <= k < |scopes| && k != s ==> r.value[k] == scopes[k]
  {
    if name in scopes[s].symbols then Err(DoubleDefinition(name, loc))
    else Ok(scopes[s := scopes[s].(symbols := scopes[s].symbols[name := sym])])
  }

  /** add_module: emplace keeps an existing entry and never fails. */
  function AddModule(scopes: seq<Scope>, s: ScopeId, name: string): (r: seq<Scope>)
    requires WellFormed(scopes) && s < |scopes|
    ensures WellFormed(r) && |r| == |scopes|
    ensures name in scopes[s].symbols ==> r == scopes
    ensures name in r[s].symbols
    ensures name !in scopes[s].symbols ==> r[s].symbols[name] == NewSymbol(ModuleSymbol(name))
    ensures forall k :: 0 <= k < |scopes| && k != s ==> r[k] == scopes[k]
  {
    if name in scopes[s].symbols then scopes
    else scopes[s := scopes[s].(symbols := scopes[s].symbols[name := NewSymbol(ModuleSymbol(name))])]
  }

  /** After a successful add, resolving the name from that scope yields the
      new symbol, whatever ancestors bind it (innermost wins). */
  lemma InnermostWins(scopes: seq<Scope>, s: ScopeId, name: string, sym: Symbol, loc: Location)
    requires WellFormed(scopes) && s < |scopes|
    requires AddSymbol(scopes, s, name, sym, loc).Ok?
    ensures Resolve(AddSymbol(scopes, s, name, sym, loc).value, s, name) == Some(sym)
  {
  }

  /** Shadowing: a binding in an ancestor does not stop an add. */
  lemma ShadowingSucceeds(scopes: seq<Scope>, s: ScopeId, name: string, sym: Symbol, loc: Location)
    requires WellFormed(scopes) && s < |scopes|
    requires name !in scopes[s].symbols && Resolve(scopes, s, name).Some?
    ensures AddSymbol(scopes, s, name, sym, loc).Ok?
    ensures Resolve(AddSymbol(scopes, s, name, sym, loc).value, s, name) == Some(sym)
  {
  }

  /** An add changes the resolution of no other name, from any scope. */
  lemma {:induction false} AddKeepsOtherNames(scopes: seq<Scope>, s: ScopeId, name: string, sym: Symbol,
                                              loc: Location, t: ScopeId, other: string)
    requires WellFormed(scopes) && s < |scopes| && t < |scopes|
    requires AddSymbol(scopes, s, name, sym, loc).Ok? && other != name
    ensures Resolve(AddSymbol(scopes, s, name, sym, loc).value, t, other) == Resolve(scopes, t, other)
    decreases t
  {
    var r := AddSymbol(scopes, s, name, sym, loc).value;
    assert r[t].symbols.Keys - {name} == scopes[t].symbols.Keys - {name};
    if other !in scopes[t].symbols && scopes[t].parent.Some? {
      AddKeepsOtherNames(scopes, s, name, sym, loc, scopes[t].parent.value, other);
    }
  }

  /** get_symbol(name).type = ty: the slot of the binding resolve finds. */
  function SetSymbolType(scopes: seq<Scope>, s: ScopeId, name: string, ty: Option<Type>): (r: Result<seq<Scope>, Error>)
    requires WellFormed(scopes) && s < |scopes|
    ensures r.Ok? <==> Resolve(scopes, s, name).Some?
    ensures r.Err? ==> r.error == Internal(GetSymbolMessage)
    ensures r.Ok? ==> WellFormed(r.value) && |r.value| == |scopes|
    ensures r.Ok? ==> Resolve(r.value, s, name) == Some(Resolve(scopes, s, name).value.(ty := ty))
  {
    match Owner(scopes, s, name)
    case None => Err(Internal(GetSymbolMessage))
    case Some(o) =>
      var sym := scopes[o].symbols[name];
      var r := scopes[o := scopes[o].(symbols := scopes[o].symbols[name := sym.(ty := ty)])];
      SetTypeResolves(scopes, s, name, o, r);
      Ok(r)
  }

  lemma {:induction false} SetTypeResolves(scopes: seq<Scope>, s: ScopeId, name: string, o: ScopeId, r: seq<Scope>)
    requires WellFormed(scopes) && s < |scopes|
    requires Owner(scopes, s, name) == Some(o)
    requires |r| == |scopes| && r[o].symbols.Keys == scopes[o].symbols.Keys
    requires forall k :: 0 <= k < |scopes| && k != o ==> r[k] == scopes[k]
    requires r[o].kind == scopes[o].kind && r[o].parent == scopes[o].parent
    ensures WellFormed(r)
    ensures Resolve(r, s, name) == Some(r[o].symbols[name])
    decreases s
  {
    if s != o {
      SetTypeResolves(scopes, scopes[s].parent.value, name, o, r);
    }
  }

  /** is_function: the nearest binding is a function symbol. */
  function IsFunction(scopes: seq<Scope>, s: ScopeId, name: string): (r: Result<bool, Error>)
    requires WellFormed(scopes) && s < |scopes|
    ensures r.Ok? <==> Resolve(scopes, s, name).Some?
    ensures r.Ok? ==> (r.value <==> Resolve(scopes, s, name).value.kind.FunSymbol?)
  {
    var sym :- GetSymbol(scopes, s, name);
    Ok(sym.kind.FunSymbol?)
  }

  /** A non-const variable or a parameter may be assigned to. */
  predicate Reassignable(k: SymbolKind) {
    (k.VarSymbol? && !k.isConst) || k.ParamSymbol?
  }

  /** can_be_reassigned: a non-const variable or a parameter; never a
      function or a module. */
  function CanBeReassigned(scopes: seq<Scope>, s: ScopeId, name: string): (r: Result<bool, Error>)
    requires WellFormed(scopes) && s < |scopes|
    ensures r.Ok? <==> Resolve(scopes, s, name).Some?
    ensures r.Ok? ==> (r.value <==> Reassignable(Resolve(scopes, s, name).value.kind))
    ensures r.Ok? && !r.value ==> var k := Resolve(scopes, s, name).value.kind;
                      k.FunSymbol? || k.ModuleSymbol? || (k.VarSymbol? && k.isConst)
  {
    var sym :- GetSymbol(scopes, s, name);
    Ok(match sym.kind
       case VarSymbol(isConst) => !isConst
       case _ => sym.kind.ParamSymbol?)
  }

  /** Resolving from an existing scope ignores scopes appended later. */
  lemma {:induction false} ResolveStable(before: seq<Scope>, after: seq<Scope>, s: ScopeId, name: string)
    requires WellFormed(before) && WellFormed(after) && s < |before| <= |after|
    requires forall k :: 0 <= k < |before| ==> after[k] == before[k]
    ensures Resolve(after, s, name) == Resolve(before, s, name)
    decreases s
  {
    if name !in before[s].symbols && before[s].parent.Some? {
      ResolveStable(before, after, before[s].parent.value, name);
    }
  }

  /** The scope tree of a module, updated in place by the passes. */
  class ScopeTable {
    var scopes: seq<Scope>

    ghost predicate Valid()
      reads this
    {
      WellFormed(scopes) && |scopes| >= 1
    }

    /** A table holding only an empty module scope, at index 0. */
    constructor ()
      ensures Valid() && scopes == [Scope(ModuleScope, None, map[])]
    {
      scopes := [Scope(ModuleScope, None, map[])];
    }

    /** The Scope object a block or function owns, linked to its parent. */
    method NewScope(kind: ScopeKind, parent: ScopeId) returns (id: ScopeId)
      requires Valid() && parent < |scopes|
      modifies this
      ensures Valid() && id == |old(scopes)|
      ensures scopes == old(scopes) + [Scope(kind, Some(parent), map[])]
    {
      id := |scopes|;
      scopes := scopes + [Scope(kind, Some(parent), map[])];
    }

    /** Scope::resolve: walk the parent links until a table holds the name. */
    method Lookup(s: ScopeId, name: string) returns (r: Option<Symbol>)
      requires Valid() && s < |scopes|
      ensures r == Resolve(scopes, s, name)
    {
      var tmp: Option<ScopeId> := Some(s);
      while tmp.Some?
        invariant tmp.Some? ==> tmp.value < |scopes| && Resolve(scopes, tmp.value, name) == Resolve(scopes, s, name)
        invariant tmp.None? ==> Resolve(scopes, s, name).None?
        decreases if tmp.Some? then tmp.value + 1 else 0
      {
        var sc := scopes[tmp.value];
        if name in sc.symbols {
          return Some(sc.symbols[name]);
        }
        tmp := sc.parent;
      }
      return None;
    }

    /** The scope whose table get_symbol's walk stops at. */
    method FindOwner(s: ScopeId, name: string) returns (o: Option<ScopeId>)
      requires Valid() && s < |scopes|
      ensures o == Owner(scopes, s, name)
    {
      var tmp: Option<ScopeId> := Some(s);
      while tmp.Some?
        invariant tmp.Some? ==> tmp.value < |scopes| && Owner(scopes, tmp.value, name) == Owner(scopes, s, name)
        invariant tmp.None? ==> Owner(scopes, s, name).None?
        decreases if tmp.Some? then tmp.value + 1 else 0
      {
        if name in scopes[tmp.value].symbols {
          return tmp;
        }
        tmp := scopes[tmp.value].parent;
      }
      return None;
    }

    /** Scope::get_symbol, read access. */
    method Get(s: ScopeId, name: string) returns (r: Result<Symbol, Error>)
      requires Valid() && s < |scopes|
      ensures r == GetSymbol(scopes, s, name)
    {
      var o := FindOwner(s, name);
      if o.None? {
        return Err(Internal(GetSymbolMessage));
      }
      return Ok(scopes[o.value].symbols[name]);
    }

    /** get_symbol(name).type = ty, writing through the returned reference. */
    method SetType(s: ScopeId, name: string, ty: Option<Type>) returns (r: Result<(), Error>)
      requires Valid() && s < |scopes|
      modifies this
      ensures Valid()
      ensures r.Ok? <==> SetSymbolType(old(scopes), s, name, ty).Ok?
      ensures r.Ok? ==> scopes == SetSymbolType(old(scopes), s, name, ty).value
      ensures r.Err? ==> scopes == old(scopes) && r.error == Internal(GetSymbolMessage)
    {
      var o := FindOwner(s, name);
      if o.None? {
        return Err(Internal(GetSymbolMessage));
      }
      var sc := scopes[o.value];
      scopes := scopes[o.value := sc.(symbols := sc.symbols[name := sc.symbols[name].(ty := ty)])];
      return Ok(());
    }

    /** The insertion step shared by add_var, add_function and add_param. */
    method Add(s: ScopeId, name: string, sym: Symbol, loc: Location) returns (r: Result<(), Error>)
      requires Valid() && s < |scopes|
      modifies this
      ensures Valid()
      ensures r.Ok? <==> AddSymbol(old(scopes), s, name, sym, loc).Ok?
      ensures r.Ok? ==> scopes == AddSymbol(old(scopes), s, name, sym, loc).value
      ensures r.Err? ==> scopes == old(scopes) && r.error == DoubleDefinition(name, loc)
    {
      var sc := scopes[s];
      if name in sc.symbols {
        return Err(DoubleDefinition(name, loc));
      }
      scopes := scopes[s := sc.(symbols := sc.symbols[name := sym])];
      return Ok(());
    }

    /** Scope::add_var */
    method AddVar(s: ScopeId, loc: Location, id: string, isConst: bool) returns (r: Result<(), Error>)
      requires Valid() && s < |scopes|
      modifies this
      ensures Valid()
      ensures r.Ok? <==> AddSymbol(old(scopes), s, id, NewSymbol(VarSymbol(isConst)), loc).Ok?
      ensures r.Ok? ==> scopes == AddSymbol(old(scopes), s, id, NewSymbol(VarSymbol(isConst)), loc).value
      ensures r.Err? ==> scopes == old(scopes) && r.error == DoubleDefinition(id, loc)
    {
      r := Add(s, id, NewSymbol(VarSymbol(isConst)), loc);
    }

    /** Scope::add_function */
    method AddFunction(s: ScopeId, loc: Location, sig: FunSignature) returns (r: Result<(), Error>)
      requires Valid() && s < |scopes|
      modifies this
      ensures Valid()
      ensures r.Ok? <==> AddSymbol(old(scopes), s, sig.id, NewSymbol(FunSymbol(sig)), loc).Ok?
      ensures r.Ok? ==> scopes == AddSymbol(old(scopes), s, sig.id, NewSymbol(FunSymbol(sig)), loc).value
      ensures r.Err? ==> scopes == old(scopes) && r.error == DoubleDefinition(sig.id, loc)
    {
      r := Add(s, sig.id, NewSymbol(FunSymbol(sig)), loc);
    }

    /** Scope::add_param: the error is placed at the argument. */
    method AddParam(s: ScopeId, arg: DefArg) returns (r: Result<(), Error>)
      requires Valid() && s < |scopes|
      modifies this
      ensures Valid()
      ensures r.Ok? <==> AddSymbol(old(scopes), s, arg.id, NewSymbol(ParamSymbol(arg)), arg.loc).Ok?
      ensures r.Ok? ==> scopes == AddSymbol(old(scopes), s, arg.id, NewSymbol(ParamSymbol(arg)), arg.loc).value
      ensures r.Err? ==> scopes == old(scopes) && r.error == DoubleDefinition(arg.id, arg.loc)
    {
      r := Add(s, arg.id, NewSymbol(ParamSymbol(arg)), arg.loc);
    }

    /** Scope::add_module */
    method AddModuleEntry(s: ScopeId, name: string)
      requires Valid() && s < |scopes|
      modifies this
      ensures Valid() && scopes == AddModule(old(scopes), s, name)
    {
      var sc := scopes[s];
      if name !in sc.symbols {
        scopes := scopes[s := sc.(symbols := sc.symbols[name := NewSymbol(ModuleSymbol(name))])];
      }
    }

    /** Scope::is_function */
    method IsFunctionAt(s: ScopeId, name: string) returns (r: Result<bool, Error>)
      requires Valid() && s < |scopes|
      ensures r == IsFunction(scopes, s, name)
    {
      var sym := Get(s, name);
      if sym.Err? {
        return Err(sym.error);
      }
      return Ok(sym.value.kind.FunSymbol?);
    }

    /** Scope::can_be_reassigned */
    method CanBeReassignedAt(s: ScopeId, id: string) returns (r: Result<bool, Error>)
      requires Valid() && s < |scopes|
      ensures r == CanBeReassigned(scopes, s, id)
    {
      var sym := Get(s, id);
      if sym.Err? {
        return Err(sym.error);
      }
      if sym.value.kind.VarSymbol? {
        return Ok(!sym.value.kind.isConst);
      }
      return Ok(sym.value.kind.ParamSymbol?);
    }
  }
}
