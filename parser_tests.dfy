/** The parser's unit tests (tests/parser/parser_test.cpp) as lemmas about
    the model. Each input is given as the tokens the lexer delivers for
    it: the tokens of the line, the Newline that ends it, and Eof. */
module ParserTests {
  import opened Wrappers
  import opened Locations
  import opened Ast
  import TT = TokenTypes
  import opened Parsing
  import PP = ParserProps
  import SP = StmtProps

  const EofTok := TT.Token(TT.Eof, "", Location(2, 1, 1))

  /** HandlesEmptyFile: "" is a Newline and Eof; parse_stmt finds no
      statement, and the file has none. */
  const EmptyToks := [TT.Token(TT.Newline, "\n", Location(1, 1, 2)), EofTok]

  lemma HandlesEmptyFile()
    ensures TokensOk(EmptyToks)
    ensures StmtAt(EmptyToks, 0) == Ok((None, 1))
    ensures ParsedFile(EmptyToks) == Ok([])
  {
    SP.StmtAtEnd(EmptyToks, 0);
    SP.FileOfNewlines(EmptyToks);
  }

  /** ParsesIntConst: "2" is the integer constant 2. */
  const IntToks := [TT.Token(TT.IntConst, "2", Location(1, 1, 2)), TT.Token(TT.Newline, "\n", Location(1, 2, 3)), EofTok]

  lemma ParsesIntConst()
    ensures TokensOk(IntToks)
    ensures ExprAt(IntToks, 0) == Ok((NewExpr(Location(1, 1, 2), IntConst(2)), 1))
  {
    IntConstExample(Location(1, 1, 2));
    PP.ExprOfOperand(IntToks, 0);
  }

  /** ParsesFloatConst: "2.5" is a float constant with that text. */
  const FloatToks := [TT.Token(TT.FloatConst, "2.5", Location(1, 1, 4)), TT.Token(TT.Newline, "\n", Location(1, 4, 5)), EofTok]

  lemma ParsesFloatConst()
    ensures TokensOk(FloatToks)
    ensures ExprAt(FloatToks, 0) == Ok((NewExpr(Location(1, 1, 4), FloatConst("2.5")), 1))
  {
    PP.ExprOfOperand(FloatToks, 0);
  }

  /** HandlesEmptyBlock: "{}" is a block with an empty body, wherever
      the line starts and whatever follows it. */
  lemma HandlesEmptyBlock(toks: seq<TT.Token>, p: nat)
    requires TokensOk(toks) && p + 3 <= |toks|
    requires toks[p].ty == TT.LCurly && toks[p + 1].ty == TT.RCurly && toks[p + 2].ty == TT.Newline
    ensures ExprAt(toks, p) == Ok((NewExpr(toks[p].loc, BlockExpr([], None)), p + 2))
  {
    var b := NewExpr(toks[p].loc, BlockExpr([], None));
    PP.BinaryStop(toks, p + 2, 0, b);
    PP.EmptyBlock(toks, p);
    PP.PrimaryOfBlock(toks, p);
    PP.ExprOfPrimary(toks, p, b, p + 2);
  }

  /** HandlesOperatorPrecedence: "2 + 4 * 3" is an addition whose right
      operand is the multiplication, wherever the line starts and whatever
      follows it. */
  lemma HandlesOperatorPrecedence(toks: seq<TT.Token>, p: nat)
    requires TokensOk(toks) && p + 6 <= |toks|
    requires toks[p].ty == TT.IntConst && toks[p].lexeme == "2" && toks[p + 1].ty == TT.Plus
    requires toks[p + 2].ty == TT.IntConst && toks[p + 2].lexeme == "4" && toks[p + 3].ty == TT.Star
    requires toks[p + 4].ty == TT.IntConst && toks[p + 4].lexeme == "3" && toks[p + 5].ty == TT.Newline
    ensures ExprAt(toks, p).Ok?
    ensures var e := ExprAt(toks, p).value.0;
      e.node.BinaryExpr? && e.node.bop == Add && e.node.rhs.node.BinaryExpr? && e.node.rhs.node.bop == Mul
  {
    StoiOfDigits("2");
    StoiOfDigits("4");
    StoiOfDigits("3");
    PP.TighterOperatorNests(toks, p);
  }
}
