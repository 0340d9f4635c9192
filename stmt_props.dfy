/** Properties of the statement parser (compiler/parser/stmt_parser.cpp)
    and of parse_file (compiler/parser/parser.cpp). */
module StmtProps {
  import opened Wrappers
  import opened Locations
  import opened Ast
  import TT = TokenTypes
  import Errors
  import opened Parsing
  import PP = ParserProps

  // ------------------------------------------------------------ parse_stmt

  /** parse_stmt skips the newlines in front of a statement. */
  lemma {:induction false} StmtSkipsNewlines(toks: seq<TT.Token>, p: nat)
    requires TokensOk(toks) && p < |toks|
    ensures StmtAt(toks, p) == StmtAt(toks, SkipNewLinesAt(toks, p))
    decreases |toks| - p
  {
    if toks[p].ty == TT.Newline {
      StmtSkipsNewlines(toks, Next(toks, p));
    }
  }

  /** Only newlines before Eof: no statement, and the cursor rests on Eof. */
  lemma StmtAtEnd(toks: seq<TT.Token>, p: nat)
    requires TokensOk(toks) && p < |toks| && toks[SkipNewLinesAt(toks, p)].ty == TT.Eof
    ensures StmtAt(toks, p) == Ok((None, SkipNewLinesAt(toks, p)))
  {
    StmtSkipsNewlines(toks, p);
  }

  /** Any other first token gives a statement, or the error of the
      statement it selects. */
  lemma StmtOfOne(toks: seq<TT.Token>, p: nat)
    requires TokensOk(toks) && p < |toks| && toks[p].ty != TT.Eof && toks[p].ty != TT.Newline
    ensures OneStmtAt(toks, p).Ok? ==> StmtAt(toks, p) == Ok((Some(OneStmtAt(toks, p).value.0), OneStmtAt(toks, p).value.1))
    ensures OneStmtAt(toks, p).Err? ==> StmtAt(toks, p) == Err(OneStmtAt(toks, p).error)
  {
  }

  /** A first token that none of internal, let, var, fun, Id and external
      is parsed as an expression statement. */
  lemma OtherIsExprStmt(toks: seq<TT.Token>, p: nat)
    requires TokensOk(toks) && p < |toks|
    requires toks[p].ty !in {TT.Eof, TT.Newline, TT.Internal, TT.Let, TT.Var, TT.Fun, TT.Id, TT.External}
    ensures OneStmtAt(toks, p) == ExprStmtAt(toks, p)
  {
  }

  /** parse_expr_stmt: the expression, then the end of the statement. */
  lemma ExprStmtOf(toks: seq<TT.Token>, p: nat, e: Expr, q: nat)
    requires TokensOk(toks) && p < |toks| && ExprAt(toks, p) == Ok((e, q))
    ensures IsStmtEnd(toks[q].ty) ==> ExprStmtAt(toks, p) == Ok((NewStmt(e.loc, ExprStmt(e)), Next(toks, q)))
    ensures !IsStmtEnd(toks[q].ty) ==> ExprStmtAt(toks, p) == Err(ErrorAt(toks, q, StmtEndMsg))
  {
  }

  // ------------------------------------------------------------ definitions

  /** '=', the value and the end of the statement. */
  lemma DefinedOf(toks: seq<TT.Token>, p: nat, e: Expr, q: nat)
    requires TokensOk(toks) && p < |toks| && toks[p].ty == TT.Equal
    requires ExprAt(toks, Next(toks, p)) == Ok((e, q))
    ensures IsStmtEnd(toks[q].ty) ==> DefinedAt(toks, p) == Ok((e, Next(toks, q)))
    ensures !IsStmtEnd(toks[q].ty) ==> DefinedAt(toks, p) == Err(ErrorAt(toks, q, StmtEndMsg))
  {
  }

  /** A definition without '=' is an error at the token found instead. */
  lemma DefinedNeedsEqual(toks: seq<TT.Token>, p: nat)
    requires TokensOk(toks) && p < |toks| && toks[p].ty != TT.Equal
    ensures DefinedAt(toks, p) == Err(ErrorAt(toks, p, ExpectMsg(TT.Equal)))
  {
  }

  /** parse_var_init(loc): the name is the identifier after `let` or
      `var`; the statement is constant exactly for `let`, internal exactly
      when a location is passed in, and located there, or at the keyword
      otherwise; it has an annotation exactly when `of` follows the name. */
  lemma VarInitShape(toks: seq<TT.Token>, p: nat, loc: Option<Location>)
    requires TokensOk(toks) && p < |toks| && (toks[p].ty == TT.Let || toks[p].ty == TT.Var)
    requires VarInitAt(toks, p, loc).Ok?
    ensures p + 2 < |toks| && toks[p + 1].ty == TT.Id
    ensures var s := VarInitAt(toks, p, loc).value.0;
      && s.node.VarInit?
      && s.node.id == toks[p + 1].lexeme
      && s.node.isConst == (toks[p].ty == TT.Let)
      && s.node.isInternal == loc.Some?
      && s.loc == (if loc.Some? then loc.value else toks[p].loc)
      && (s.node.anno.Some? <==> toks[p + 2].ty == TT.Of)
  {
    var q := Next(toks, p);
    PP.NextOf(toks, p);
    assert ExpectAt(toks, q, TT.Id, ExpectMsg(TT.Id)).Ok?;
    PP.NextOf(toks, q);
    assert OptAnnoAt(toks, Next(toks, q)).Ok?;
  }

  /** A `let` or `var` without a name is an error at the token after it. */
  lemma VarInitNeedsId(toks: seq<TT.Token>, p: nat, loc: Option<Location>)
    requires TokensOk(toks) && p < |toks| && (toks[p].ty == TT.Let || toks[p].ty == TT.Var)
    requires toks[p + 1].ty != TT.Id
    ensures VarInitAt(toks, p, loc) == Err(ErrorAt(toks, p + 1, ExpectMsg(TT.Id)))
  {
    PP.NextOf(toks, p);
  }

  /** parse_fun_def(loc): internal exactly when a location is passed in. */
  lemma FunDefShape(toks: seq<TT.Token>, p: nat, loc: Option<Location>)
    requires TokensOk(toks) && p < |toks| && toks[p].ty == TT.Fun && FunDefAt(toks, p, loc).Ok?
    ensures var s := FunDefAt(toks, p, loc).value.0;
      && s.node.FunDef?
      && s.node.defInternal == loc.Some?
      && s.node.sig == FunSigAt(toks, p).value.0
      && s.loc == (if loc.Some? then loc.value else toks[p].loc)
  {
  }

  /** parse_internal_stmt: `internal fun` and `internal let`/`var` are the
      definitions located at `internal`; anything else after `internal` is
      an error there. */
  lemma InternalDispatch(toks: seq<TT.Token>, p: nat)
    requires TokensOk(toks) && p < |toks| && toks[p].ty == TT.Internal
    ensures p + 1 < |toks|
    ensures toks[p + 1].ty == TT.Fun ==> InternalStmtAt(toks, p) == FunDefAt(toks, p + 1, Some(toks[p].loc))
    ensures toks[p + 1].ty == TT.Let || toks[p + 1].ty == TT.Var ==> InternalStmtAt(toks, p) == VarInitAt(toks, p + 1, Some(toks[p].loc))
    ensures toks[p + 1].ty !in {TT.Fun, TT.Let, TT.Var} ==> InternalStmtAt(toks, p) == Err(ErrorAt(toks, p + 1, InternalMsg))
  {
    PP.NextOf(toks, p);
  }

  /** A definition statement is internal exactly when it starts with
      `internal`. */
  lemma InternalIffPrefixed(toks: seq<TT.Token>, p: nat)
    requires TokensOk(toks) && p < |toks| && toks[p].ty != TT.Eof && toks[p].ty != TT.Newline
    requires OneStmtAt(toks, p).Ok?
    ensures var s := OneStmtAt(toks, p).value.0;
      && (s.node.VarInit? ==> (s.node.isInternal <==> toks[p].ty == TT.Internal))
      && (s.node.FunDef? ==> (s.node.defInternal <==> toks[p].ty == TT.Internal))
  {
    var t := toks[p].ty;
    if t == TT.Internal {
      InternalDispatch(toks, p);
      var u := toks[p + 1].ty;
      if u == TT.Fun {
        FunDefShape(toks, p + 1, Some(toks[p].loc));
      } else if u == TT.Let || u == TT.Var {
        VarInitShape(toks, p + 1, Some(toks[p].loc));
      }
    } else if t == TT.Let || t == TT.Var {
      VarInitShape(toks, p, None);
    } else if t == TT.Fun {
      FunDefShape(toks, p, None);
    } else if t == TT.Id {
      IdStmtKinds(toks, p);
    }
  }

  // ------------------------------------------------------------ external

  /** `external` must be followed by `fun`. */
  lemma ExternalNeedsFun(toks: seq<TT.Token>, p: nat)
    requires TokensOk(toks) && p < |toks| && toks[p].ty == TT.External && toks[p + 1].ty != TT.Fun
    ensures ExternalStmtAt(toks, p) == Err(ErrorAt(toks, p + 1, ExternalMsg))
  {
    PP.NextOf(toks, p);
  }

  /** `external` and a signature ending the statement: a declaration
      located at `external`. */
  lemma ExternalOfSig(toks: seq<TT.Token>, p: nat, sig: FunSignature, q: nat)
    requires TokensOk(toks) && p + 1 < |toks| && toks[p].ty == TT.External && toks[p + 1].ty == TT.Fun
    requires FunSigAt(toks, p + 1) == Ok((sig, q)) && IsStmtEnd(toks[q].ty)
    ensures ExternalStmtAt(toks, p) == Ok((NewStmt(toks[p].loc, ExternalStmt(sig)), Next(toks, q)))
  {
    PP.NextOf(toks, p);
  }

  // ------------------------------------------------------------ identifiers

  /** parse_id_stmt: `x =` is an assignment. */
  lemma IdStmtAssignment(toks: seq<TT.Token>, p: nat)
    requires TokensOk(toks) && p < |toks| && toks[p].ty == TT.Id && toks[p + 1].ty == TT.Equal
    ensures IdStmtAt(toks, p) == AssignmentAt(toks, p + 1, toks[p])
  {
    PP.NextOf(toks, p);
  }

  /** Otherwise it is an expression statement that starts with the
      identifier. */
  lemma IdStmtExpr(toks: seq<TT.Token>, p: nat, e: Expr, q: nat)
    requires TokensOk(toks) && p < |toks| && toks[p].ty == TT.Id && toks[p + 1].ty != TT.Equal
    requires IdAt(toks, p + 1, toks[p]) == Ok((e, q)) && IsStmtEnd(toks[q].ty)
    ensures IdStmtAt(toks, p) == Ok((NewStmt(e.loc, ExprStmt(e)), Next(toks, q)))
  {
    PP.NextOf(toks, p);
  }

  /** parse_paren_expr: the expression after '(' and the ')' after it,
      wrapped and located at the '('. */
  lemma ParenOf(toks: seq<TT.Token>, p: nat, e: Expr, q: nat)
    requires TokensOk(toks) && p < |toks| && toks[p].ty == TT.LParen
    requires ExprAt(toks, Next(toks, p)) == Ok((e, q)) && toks[q].ty == TT.RParen
    ensures ParenAt(toks, p) == Ok((NewExpr(toks[p].loc, ParenExpr(e)), Next(toks, q)))
  {
  }

  /** A '(' whose expression is not followed by ')' is an error at the
      token where the ')' was expected. */
  lemma ParenUnclosed(toks: seq<TT.Token>, p: nat, e: Expr, q: nat)
    requires TokensOk(toks) && p < |toks| && toks[p].ty == TT.LParen
    requires ExprAt(toks, Next(toks, p)) == Ok((e, q)) && toks[q].ty != TT.RParen
    ensures ParenAt(toks, p) == Err(ErrorAt(toks, q, ExpectMsg(TT.RParen)))
  {
  }

  /** parse_id after an identifier parses exactly what parse_expr parses
      when it starts at that identifier. */
  lemma IdAtIsExpr(toks: seq<TT.Token>, p: nat, after: nat)
    requires TokensOk(toks) && p < |toks| && toks[p].ty == TT.Id && after == p + 1
    ensures after < |toks| && IdAt(toks, after, toks[p]) == ExprAt(toks, p)
  {
    PP.NextOf(toks, p);
    var id := toks[p];
    assert PrimaryAt(toks, p) == IdExprAt(toks, p);
    if toks[after].ty == TT.LParen {
      var c := FunCallAt(toks, after, id);
      assert IdExprAt(toks, p) == c;
      if c.Ok? {
        PP.ExprOfPrimary(toks, p, c.value.0, c.value.1);
      }
    } else {
      var e := NewExpr(id.loc, IdExpr(id.lexeme));
      assert IdExprAt(toks, p) == Ok((e, after));
      PP.ExprOfPrimary(toks, p, e, after);
    }
  }

  /** Without '=' after the identifier, parse_id_stmt is parse_expr_stmt. */
  lemma IdStmtIsExprStmt(toks: seq<TT.Token>, p: nat)
    requires TokensOk(toks) && p + 1 < |toks| && toks[p].ty == TT.Id && toks[p + 1].ty != TT.Equal
    ensures IdStmtAt(toks, p) == ExprStmtAt(toks, p)
  {
    IdAtIsExpr(toks, p, p + 1);
  }

  /** An identifier statement is an assignment exactly when '=' follows
      the identifier, and an expression statement otherwise. */
  lemma IdStmtKinds(toks: seq<TT.Token>, p: nat)
    requires TokensOk(toks) && p < |toks| && toks[p].ty == TT.Id && IdStmtAt(toks, p).Ok?
    ensures p + 1 < |toks|
    ensures IdStmtAt(toks, p).value.0.node.Assignment? <==> toks[p + 1].ty == TT.Equal
    ensures IdStmtAt(toks, p).value.0.node.ExprStmt? <==> toks[p + 1].ty != TT.Equal
  {
    PP.NextOf(toks, p);
  }

  /** parse_assignment: the target, the value and the end of the
      statement, located at the target. */
  lemma AssignmentOf(toks: seq<TT.Token>, p: nat, id: TT.Token, v: Expr, q: nat)
    requires TokensOk(toks) && p < |toks| && toks[p].ty == TT.Equal
    requires ExprAt(toks, p + 1) == Ok((v, q)) && IsStmtEnd(toks[q].ty)
    ensures AssignmentAt(toks, p, id) == Ok((NewStmt(id.loc, Assignment(id.lexeme, v)), Next(toks, q)))
  {
    PP.NextOf(toks, p);
  }

  // ------------------------------------------------------------ signatures

  /** parse_fun_sig: the name is the identifier after `fun`, '(' follows
      it, and the signature is never variadic. */
  lemma FunSigShape(toks: seq<TT.Token>, p: nat)
    requires TokensOk(toks) && p < |toks| && toks[p].ty != TT.Eof && FunSigAt(toks, p).Ok?
    ensures p + 2 < |toks| && toks[p + 1].ty == TT.Id && toks[p + 2].ty == TT.LParen
    ensures var sig := FunSigAt(toks, p).value.0;
      && !sig.varArg && sig.id == toks[p + 1].lexeme && sig.loc == toks[p + 1].loc
  {
    PP.NextOf(toks, p);
    PP.NotEof(toks, p + 1);
  }

  /** parse_fun_sig builds the signature from the name after the first
      token, the parameters after '(' and the return annotation after them. */
  lemma FunSigOf(toks: seq<TT.Token>, p: nat, name: nat, lp: nat, first: nat, ps: seq<DefArg>, q: nat, a: TypeAnno, end: nat)
    requires TokensOk(toks) && name == p + 1 && lp == p + 2 && first == p + 3 && first < |toks|
    requires toks[p].ty != TT.Eof && toks[name].ty == TT.Id && toks[lp].ty == TT.LParen
    requires ParamsAt(toks, first, []) == Ok((ps, q)) && TypeAnnoAt(toks, q) == Ok((a, end))
    ensures FunSigAt(toks, p) == Ok((FunSignature(toks[name].loc, false, toks[name].lexeme, ps, a, None, None), end))
  {
    PP.NextOf(toks, p);
    PP.NextOf(toks, name);
    PP.NextOf(toks, lp);
  }

  /** parse_def_arg takes the token at the cursor as the parameter name,
      whatever its kind, and the annotation after it. */
  lemma DefArgOf(toks: seq<TT.Token>, p: nat, after: nat, a: TypeAnno, q: nat)
    requires TokensOk(toks) && after == p + 1 && after < |toks| && toks[p].ty != TT.Eof
    requires TypeAnnoAt(toks, after) == Ok((a, q))
    ensures DefArgAt(toks, p) == Ok((DefArg(toks[p].loc, toks[p].lexeme, a, None), q))
  {
    PP.NextOf(toks, p);
  }

  /** An integer literal is accepted as a parameter name. */
  lemma NumberAsParam(loc: Location)
    ensures var toks := [TT.Token(TT.IntConst, "1", loc), TT.Token(TT.Of, "of", loc),
                         TT.Token(TT.Int, "int", loc), TT.Token(TT.Eof, "", loc)];
      TokensOk(toks) && DefArgAt(toks, 0).Ok? && DefArgAt(toks, 0).value.0.id == "1"
  {
  }

  /** A parameter followed by neither ',' nor ')' is an error at that
      token. */
  lemma ParamSeparator(toks: seq<TT.Token>, p: nat, acc: seq<DefArg>, a: DefArg, q: nat)
    requires TokensOk(toks) && p < |toks| && toks[p].ty != TT.RParen
    requires DefArgAt(toks, p) == Ok((a, q)) && toks[q].ty != TT.RParen && toks[q].ty != TT.Comma
    ensures ParamsAt(toks, p, acc) == Err(ErrorAt(toks, q, ParamSeparatorMsg))
  {
  }

  /** A parameter and ',' go on with the next parameter. */
  lemma ParamsComma(toks: seq<TT.Token>, p: nat, acc: seq<DefArg>, a: DefArg, q: nat)
    requires TokensOk(toks) && p < |toks| && toks[p].ty != TT.RParen
    requires DefArgAt(toks, p) == Ok((a, q)) && toks[q].ty == TT.Comma
    ensures ParamsAt(toks, p, acc) == ParamsAt(toks, q + 1, acc + [a])
  {
    PP.NextOf(toks, q);
  }

  /** A parameter and ')' end the list, which then holds it last. */
  lemma ParamsLast(toks: seq<TT.Token>, p: nat, acc: seq<DefArg>, a: DefArg, q: nat)
    requires TokensOk(toks) && p < |toks| && toks[p].ty != TT.RParen
    requires DefArgAt(toks, p) == Ok((a, q)) && toks[q].ty == TT.RParen
    ensures ParamsAt(toks, p, acc) == Ok((acc + [a], q + 1))
  {
    PP.NextOf(toks, q);
  }

  // ------------------------------------------------------------ parse_file

  /** A statement is appended and the loop goes on after it. */
  lemma FileStep(toks: seq<TT.Token>, p: nat, acc: seq<Stmt>, s: Stmt, q: nat)
    requires TokensOk(toks) && p < |toks| && StmtAt(toks, p) == Ok((Some(s), q))
    ensures FileAt(toks, p, acc) == FileAt(toks, q, acc + [s])
  {
  }

  /** No statement ends the loop with the statements so far. */
  lemma FileEnd(toks: seq<TT.Token>, p: nat, acc: seq<Stmt>, q: nat)
    requires TokensOk(toks) && p < |toks| && StmtAt(toks, p) == Ok((None, q))
    ensures FileAt(toks, p, acc) == Ok(acc)
  {
  }

  /** An error in a statement is the error of the file. */
  lemma FileError(toks: seq<TT.Token>, p: nat, acc: seq<Stmt>)
    requires TokensOk(toks) && p < |toks| && StmtAt(toks, p).Err?
    ensures FileAt(toks, p, acc) == Err(StmtAt(toks, p).error)
  {
  }

  /** The loop only appends: the statements before p stay, in order, in
      front of those it parses. */
  lemma {:induction false} FileKeepsPrefix(toks: seq<TT.Token>, p: nat, acc: seq<Stmt>)
    requires TokensOk(toks) && p < |toks| && FileAt(toks, p, acc).Ok?
    ensures acc <= FileAt(toks, p, acc).value
    decreases |toks| - p
  {
    var s := StmtAt(toks, p);
    if s.value.0.Some? {
      FileStep(toks, p, acc, s.value.0.value, s.value.1);
      FileKeepsPrefix(toks, s.value.1, acc + [s.value.0.value]);
      PrefixOfAppend(acc, s.value.0.value, FileAt(toks, p, acc).value);
    }
  }

  lemma PrefixOfAppend(acc: seq<Stmt>, s: Stmt, r: seq<Stmt>)
    requires acc + [s] <= r
    ensures acc <= r
  {
    assert acc == (acc + [s])[..|acc|];
  }

  /** A file of nothing but newlines has no statements; the empty file is
      one. */
  lemma FileOfNewlines(toks: seq<TT.Token>)
    requires TokensOk(toks) && forall i :: 0 <= i < |toks| - 1 ==> toks[i].ty == TT.Newline
    ensures ParsedFile(toks) == Ok([])
  {
    StmtAtEnd(toks, 0);
    FileEnd(toks, 0, [], SkipNewLinesAt(toks, 0));
  }
}
