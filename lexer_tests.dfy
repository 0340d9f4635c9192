/** The lexer's unit tests (tests/lexer/lexer_test.cpp) as lemmas about the
    model. Each test's input is stored as the testing constructor of
    SourceFile stores it, every line followed by "\n", and read token by
    token with advance from a fresh lexer. */
module LexerTests {
  import opened Wrappers
  import opened Locations
  import opened TokenTypes
  import opened Lexing
  import SourceFiles

  /** The lines the testing constructor stores for one raw line. */
  lemma StoredOne(x: string)
    ensures SourceFiles.Terminated([x]) == [x + "\n"]
  {
    assert [x][..0] == [];
  }

  /** The tokens of two advances from a fresh lexer, and the cursor after
      them, when both succeed. */
  function TwoTokens(lines: seq<string>): (r: Option<(Token, Token, LexState)>)
    requires LinesOk(lines)
    ensures r.Some? ==> StateOk(lines, r.value.2)
  {
    match AdvanceAt(lines, Start)
    case Err(_) => None
    case Ok((t1, s1)) =>
      match AdvanceAt(lines, s1)
      case Err(_) => None
      case Ok((t2, s2)) => Some((t1, t2, s2))
  }

  // ------------------------------------------------------------ SkipsComments

  const CommentLines := ["2.5#Comment\n", "2\n"]

  lemma CommentDigits()
    ensures DigitsAt(CommentLines, Start, "") == ("2", LexState(1, 2, 0, 1))
  {
    assert "" + ['2'] == "2";
  }

  lemma CommentFraction()
    ensures DigitsAt(CommentLines, LexState(1, 3, 0, 1), "2.") == ("2.5", LexState(1, 4, 0, 1))
  {
    assert "2." + ['5'] == "2.5";
  }

  lemma CommentNumber()
    ensures AdvanceAt(CommentLines, Start) == Ok((Token(FloatConst, "2.5", Location(1, 1, 4)), LexState(1, 4, 0, 1)))
  {
    CommentDigits();
    CommentFraction();
    assert "2" + ['.'] == "2.";
  }

  lemma CommentNewline()
    ensures AdvanceAt(CommentLines, LexState(1, 4, 0, 1)) == Ok((Token(Newline, "", Location(1, 12, 12)), LexState(2, 0, 0, 1)))
  {
  }

  /** SkipsComments: "2.5#Comment" gives the FloatConst 2.5 and then the
      Newline the comment ends in, at the line's last column. */
  lemma SkipsComments()
    ensures SourceFiles.Terminated(["2.5#Comment", "2"]) == CommentLines
    ensures TwoTokens(CommentLines) == Some((Token(FloatConst, "2.5", Location(1, 1, 4)),
                                             Token(Newline, "", Location(1, 12, 12)), LexState(2, 0, 0, 1)))
  {
    var raw := ["2.5#Comment", "2"];
    assert raw[..1] == ["2.5#Comment"];
    StoredOne("2.5#Comment");
    assert "2.5#Comment" + "\n" == "2.5#Comment\n" && "2" + "\n" == "2\n";
    CommentNumber();
    CommentNewline();
  }

  // ---------------------------------------------------- HandlesNewlineAndEOF

  const TwoLines := ["2\n"]

  lemma TwoNumber()
    ensures AdvanceAt(TwoLines, Start) == Ok((Token(IntConst, "2", Location(1, 1, 2)), LexState(1, 2, 0, 1)))
  {
    assert "" + ['2'] == "2";
    assert DigitsAt(TwoLines, Start, "") == ("2", LexState(1, 2, 0, 1));
  }

  /** HandlesNewlineAndEOF: after "2" the newline is a
      Newline token from column 2 to column 3 of line 1, and then comes Eof. */
  lemma HandlesNewlineAndEof()
    ensures SourceFiles.Terminated(["2"]) == TwoLines
    ensures TwoTokens(TwoLines) == Some((Token(IntConst, "2", Location(1, 1, 2)),
                                         Token(Newline, "\n", Location(1, 2, 3)), LexState(1, 3, 0, 1)))
    ensures AdvanceAt(TwoLines, LexState(1, 3, 0, 1)) == Ok((Token(Eof, "", Location(2, 1, 1)), LexState(2, 1, 0, 1)))
  {
    StoredOne("2");
    assert "2" + "\n" == "2\n";
    TwoNumber();
  }

  /** PositionOfNewline: the Newline after "2" starts at column 2 and ends
      at column 3 of line 1. */
  lemma PositionOfNewline()
    ensures TwoTokens(TwoLines).Some? && TwoTokens(TwoLines).value.1.ty == Newline
    ensures TwoTokens(TwoLines).value.1.loc.line == 1
    ensures TwoTokens(TwoLines).value.1.loc.startCol == 2 && TwoTokens(TwoLines).value.1.loc.endCol == 3
  {
    TwoNumber();
  }

  // --------------------------------------------------- RecognizesNumLiterals

  const NumberLines := ["2 2.5\n"]

  lemma FirstNumber()
    ensures AdvanceAt(NumberLines, Start) == Ok((Token(IntConst, "2", Location(1, 1, 2)), LexState(1, 2, 0, 1)))
  {
    assert "" + ['2'] == "2";
    assert DigitsAt(NumberLines, Start, "") == ("2", LexState(1, 2, 0, 1));
  }

  lemma SecondNumber()
    ensures AdvanceAt(NumberLines, LexState(1, 2, 0, 1)) == Ok((Token(FloatConst, "2.5", Location(1, 3, 6)), LexState(1, 6, 0, 1)))
  {
    var l := NumberLines;
    assert "" + ['2'] == "2" && "2" + ['.'] == "2." && "2." + ['5'] == "2.5";
    assert DigitsAt(l, LexState(1, 4, 0, 1), "2") == ("2", LexState(1, 4, 0, 1));
    assert DigitsAt(l, LexState(1, 3, 0, 1), "") == ("2", LexState(1, 4, 0, 1));
    assert DigitsAt(l, LexState(1, 6, 0, 1), "2.5") == ("2.5", LexState(1, 6, 0, 1));
    assert DigitsAt(l, LexState(1, 5, 0, 1), "2.") == ("2.5", LexState(1, 6, 0, 1));
    assert AdvanceAt(l, LexState(1, 2, 0, 1)) == AdvanceAt(l, LexState(1, 3, 0, 1));
  }

  /** RecognizesNumLiterals: "2 2.5" is the IntConst "2" and the FloatConst
      "2.5". */
  lemma RecognizesNumLiterals()
    ensures SourceFiles.Terminated(["2 2.5"]) == NumberLines
    ensures TwoTokens(NumberLines) == Some((Token(IntConst, "2", Location(1, 1, 2)),
                                            Token(FloatConst, "2.5", Location(1, 3, 6)), LexState(1, 6, 0, 1)))
  {
    StoredOne("2 2.5");
    assert "2 2.5" + "\n" == "2 2.5\n";
    FirstNumber();
    SecondNumber();
  }

  // ------------------------------------------------------ RecognizesKeywords

  const KeywordLines := ["let x\n"]

  lemma LetKeyword()
    ensures AdvanceAt(KeywordLines, Start) == Ok((Token(Let, "", Location(1, 1, 4)), LexState(1, 4, 0, 1)))
  {
    var l := KeywordLines;
    assert "l" + ['e'] == "le" && "le" + ['t'] == "let";
    assert IdentTailAt(l, LexState(1, 4, 0, 1), "let") == ("let", LexState(1, 4, 0, 1));
    assert IdentTailAt(l, LexState(1, 3, 0, 1), "le") == ("let", LexState(1, 4, 0, 1));
    assert IdentTailAt(l, LexState(1, 2, 0, 1), "l") == ("let", LexState(1, 4, 0, 1));
    assert Keywords["let"] == Let;
  }

  lemma IdAfterLet()
    ensures AdvanceAt(KeywordLines, LexState(1, 4, 0, 1)) == Ok((Token(Id, "x", Location(1, 5, 6)), LexState(1, 6, 0, 1)))
  {
    var l := KeywordLines;
    assert IdentTailAt(l, LexState(1, 6, 0, 1), "x") == ("x", LexState(1, 6, 0, 1));
    assert "x" !in Keywords;
    assert AdvanceAt(l, LexState(1, 4, 0, 1)) == AdvanceAt(l, LexState(1, 5, 0, 1));
  }

  /** RecognizesKeywords: "let x" is the keyword let and the identifier x. */
  lemma RecognizesKeywords()
    ensures SourceFiles.Terminated(["let x"]) == KeywordLines
    ensures TwoTokens(KeywordLines) == Some((Token(Let, "", Location(1, 1, 4)),
                                             Token(Id, "x", Location(1, 5, 6)), LexState(1, 6, 0, 1)))
  {
    StoredOne("let x");
    assert "let x" + "\n" == "let x\n";
    LetKeyword();
    IdAfterLet();
  }

  const LetLines := ["let\n"]

  lemma LetWord()
    ensures IdentWordAt(LetLines, Start) == ("let", LexState(1, 4, 0, 1))
  {
    var l := LetLines;
    assert "l" + ['e'] == "le" && "le" + ['t'] == "let";
    assert IdentTailAt(l, LexState(1, 4, 0, 1), "let") == ("let", LexState(1, 4, 0, 1));
    assert IdentTailAt(l, LexState(1, 3, 0, 1), "le") == ("let", LexState(1, 4, 0, 1));
  }

  lemma LetAlone()
    ensures AdvanceAt(LetLines, Start) == Ok((Token(Let, "", Location(1, 1, 4)), LexState(1, 4, 0, 1)))
  {
    LetWord();
    assert Keywords["let"] == Let;
  }

  /** SetsPosition: the keyword of "let" is on line 1 from column 1 to 4. */
  lemma SetsPosition()
    ensures SourceFiles.Terminated(["let"]) == LetLines
    ensures AdvanceAt(LetLines, Start) == Ok((Token(Let, "", Location(1, 1, 4)), LexState(1, 4, 0, 1)))
  {
    StoredOne("let");
    assert "let" + "\n" == "let\n";
    LetAlone();
  }

  // ------------------------------------------------------ escapes in literals

  const CharLines := ["'\\t'\n"]

  lemma CharToken()
    ensures AdvanceAt(CharLines, Start) == Ok((Token(CharConst, "\t", Location(1, 1, 5)), LexState(1, 5, 0, 1)))
  {
  }

  /** CharLiteralHandlesEscapeChar: the literal '\t' has the tab as its
      lexeme. */
  lemma CharLiteralHandlesEscapeChar()
    ensures SourceFiles.Terminated(["'\\t'"]) == CharLines
    ensures AdvanceAt(CharLines, Start) == Ok((Token(CharConst, "\t", Location(1, 1, 5)), LexState(1, 5, 0, 1)))
  {
    StoredOne("'\\t'");
    assert "'\\t'" + "\n" == "'\\t'\n";
    CharToken();
  }

  const StringLines := ["\"hi\\t\"\n"]

  lemma StringBody()
    ensures StringBodyAt(StringLines, LexState(1, 2, 0, 1), "") == Ok(("hi\t", LexState(1, 6, 0, 1)))
  {
    var l := StringLines;
    assert "" + "h" == "h" && "h" + "i" == "hi" && "hi" + "\t" == "hi\t";
    assert StringBodyAt(l, LexState(1, 6, 0, 1), "hi\t") == Ok(("hi\t", LexState(1, 6, 0, 1)));
    assert StringBodyAt(l, LexState(1, 4, 0, 1), "hi") == Ok(("hi\t", LexState(1, 6, 0, 1)));
    assert StringBodyAt(l, LexState(1, 3, 0, 1), "h") == Ok(("hi\t", LexState(1, 6, 0, 1)));
  }

  lemma StringToken()
    ensures AdvanceAt(StringLines, Start) == Ok((Token(StringConst, "hi\t", Location(1, 1, 7)), LexState(1, 7, 0, 1)))
  {
    StringBody();
  }

  /** StrLiteralHandlesEscapeChar: the literal "hi\t" has "hi" and a tab as
      its lexeme. */
  lemma StrLiteralHandlesEscapeChar()
    ensures SourceFiles.Terminated(["\"hi\\t\""]) == StringLines
    ensures AdvanceAt(StringLines, Start) == Ok((Token(StringConst, "hi\t", Location(1, 1, 7)), LexState(1, 7, 0, 1)))
  {
    StoredOne("\"hi\\t\"");
    assert "\"hi\\t\"" + "\n" == "\"hi\\t\"\n";
    StringToken();
  }

  // --------------------------------------------------- HandlesTwoCharSymbols

  const SymbolLines := ["(<=\n"]

  lemma LeftParen()
    ensures AdvanceAt(SymbolLines, Start) == Ok((Token(LParen, "", Location(1, 1, 2)), LexState(1, 2, 1, 1)))
  {
  }

  lemma LessEqualAfter()
    ensures AdvanceAt(SymbolLines, LexState(1, 2, 1, 1)) == Ok((Token(LessEqual, "", Location(1, 2, 4)), LexState(1, 4, 1, 1)))
  {
  }

  /** HandlesTwoCharSymbols: "(<=" is a left parenthesis, which opens a
      bracket, and then "<=". */
  lemma HandlesTwoCharSymbols()
    ensures SourceFiles.Terminated(["(<="]) == SymbolLines
    ensures TwoTokens(SymbolLines) == Some((Token(LParen, "", Location(1, 1, 2)),
                                            Token(LessEqual, "", Location(1, 2, 4)), LexState(1, 4, 1, 1)))
  {
    StoredOne("(<=");
    assert "(<=" + "\n" == "(<=\n";
    LeftParen();
    LessEqualAfter();
  }
}
