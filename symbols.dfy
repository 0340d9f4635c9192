/** Symbols (compiler/sema/symbol.h): what a name is bound to, and the
    type slot the type checker fills in (`None` while it is still null). */
module Symbols {
  import opened Wrappers
  import opened Types
  import opened Ast

  datatype SymbolKind =
    | VarSymbol(isConst: bool)
    | FunSymbol(sig: FunSignature)
    | ModuleSymbol(moduleName: string)
    | ParamSymbol(arg: DefArg)

  datatype Symbol = Symbol(kind: SymbolKind, ty: Option<Type>)

  /** A fresh symbol, its type slot still empty. */
  function NewSymbol(kind: SymbolKind): Symbol { Symbol(kind, None) }

  /** string_of_symbol_type */
  function StringOfSymbolType(k: SymbolKind): string {
    match k
    case VarSymbol(_) => "variable"
    case FunSymbol(_) => "function"
    case ModuleSymbol(_) => "module"
    case ParamSymbol(_) => "function parameter"
  }

  predicate SameVariant(k1: SymbolKind, k2: SymbolKind) {
    (k1.VarSymbol? && k2.VarSymbol?) || (k1.FunSymbol? && k2.FunSymbol?) ||
    (k1.ModuleSymbol? && k2.ModuleSymbol?) || (k1.ParamSymbol? && k2.ParamSymbol?)
  }

  /** The four names are non-empty and tell the four kinds apart. */
  lemma SymbolNamesDistinct(k1: SymbolKind, k2: SymbolKind)
    ensures |StringOfSymbolType(k1)| > 0
    ensures StringOfSymbolType(k1) == StringOfSymbolType(k2) <==> SameVariant(k1, k2)
  {
  }
}
