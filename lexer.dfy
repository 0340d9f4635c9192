/** The lexer (compiler/lexer/lexer.h, compiler/lexer/lexer.cpp).

    The lexer reads the lines of a source file through a cursor made of the
    current line number, the 1-based column of the next character, the
    bracket depth and the line `cur_line` points at. `LexState` is that
    cursor as a value; the functions below are the lexer's operations on it,
    and the class `Lexer` at the end performs them in place, each method
    proved to leave the cursor where its function says. */
module Lexing {
  import opened Wrappers
  import opened Strings
  import opened Locations
  import Errors
  import opened TokenTypes

  /** The characters the lexer is defined on: whitespace, digits, letters
      and punctuation (the quotes and '#' are punctuation). On anything else
      advance spins forever, and '\0' would be read as the end of input. */
  predicate InAlphabet(c: char) {
    IsSpace(c) || IsDigit(c) || IsAlpha(c) || IsPunct(c)
  }

  /** A line as the source file stores it: terminated by "\n". */
  predicate LineOk(l: string) {
    |l| >= 1 && l[|l| - 1] == '\n'
  }

  /** The source file's lines: at least one (the constructor reads line 1). */
  predicate LinesOk(lines: seq<string>) {
    |lines| >= 1 && forall i :: 0 <= i < |lines| ==> LineOk(lines[i])
  }

  /** Every character of the source is one of the alphabet. */
  predicate Alphabetic(lines: seq<string>) {
    forall i, j :: 0 <= i < |lines| && 0 <= j < |lines[i]| ==> InAlphabet(lines[i][j])
  }

  /** The lexer's cursor. `curLine` is the number of the line `cur_line`
      points at; it lags behind `line` after '#' and after the end of input. */
  datatype LexState = LexState(line: int, column: int, parenCount: int, curLine: int)

  /** The cursor of a fresh lexer. */
  const Start := LexState(1, 1, 0, 1)

  /** The states the lexer can reach: `column` is 0 only after '#', and
      `curLine` differs from `line` only then or once input has run out. */
  predicate StateOk(lines: seq<string>, s: LexState) {
    && 1 <= s.curLine <= |lines|
    && s.line >= 1
    && 0 <= s.column <= |lines[s.curLine - 1]| + 1
    && (s.line == s.curLine || s.column == 0 || (s.curLine == |lines| && s.line > |lines|))
  }

  /** *cur_line */
  function Cur(lines: seq<string>, s: LexState): string
    requires 1 <= s.curLine <= |lines|
  {
    lines[s.curLine - 1]
  }

  /** The next character is inside the current line. */
  predicate InLine(lines: seq<string>, s: LexState)
    requires 1 <= s.curLine <= |lines|
  {
    1 <= s.column <= |Cur(lines, s)|
  }

  /** The current line is used up and no line follows. */
  predicate AtEnd(lines: seq<string>, s: LexState)
    requires 1 <= s.curLine <= |lines|
  {
    s.column > |Cur(lines, s)| && s.line + 1 > |lines|
  }

  /** The total length of some lines. */
  function TotalLen(ls: seq<string>): nat {
    if ls == [] then 0 else |ls[0]| + TotalLen(ls[1..])
  }

  /** How many characters are left to read: the rest of the current line
      and every line after it. */
  function Remaining(lines: seq<string>, s: LexState): nat
    requires 1 <= s.curLine <= |lines| && 0 <= s.column <= |lines[s.curLine - 1]| + 1
  {
    TotalLen(lines[s.curLine..]) + |Cur(lines, s)| + 1 - s.column
  }

  /** What reading at column 0 does: index -1 of the line. */
  const OutOfRange := "read before the start of the current line"

  /** peek: the next character, '\0' at the end of input, and the first
      character of the next line when the current one is used up. */
  function PeekAt(lines: seq<string>, s: LexState): (r: Result<char, Errors.Error>)
    requires LinesOk(lines) && StateOk(lines, s)
    ensures r.Err? <==> s.column == 0
    ensures AtEnd(lines, s) ==> r == Ok('\0')
    ensures InLine(lines, s) ==> r == Ok(Cur(lines, s)[s.column - 1])
  {
    if s.column > |Cur(lines, s)| then
      if s.line + 1 > |lines| then Ok('\0') else Ok(lines[s.line][0])
    else if s.column < 1 then Err(Errors.Undefined(OutOfRange))
    else Ok(Cur(lines, s)[s.column - 1])
  }

  /** On alphabetic source, peek shows '\0' exactly at the end of input,
      and one of the alphabet everywhere else. */
  lemma PeekInAlphabet(lines: seq<string>, s: LexState)
    requires LinesOk(lines) && Alphabetic(lines) && StateOk(lines, s) && PeekAt(lines, s).Ok?
    ensures PeekAt(lines, s).value == '\0' <==> AtEnd(lines, s)
    ensures PeekAt(lines, s).value == '\0' || InAlphabet(PeekAt(lines, s).value)
  {
    if s.column > |Cur(lines, s)| && s.line + 1 <= |lines| {
      assert LineOk(lines[s.line]) && InAlphabet(lines[s.line][0]);
    } else if s.column <= |Cur(lines, s)| {
      assert InAlphabet(Cur(lines, s)[s.column - 1]);
    }
  }

  /** get_char: the character peek shows, and the cursor moved past it.
      Past the last line it returns '\0' and still counts the line up. */
  function GetCharAt(lines: seq<string>, s: LexState): (r: Result<(char, LexState), Errors.Error>)
    requires LinesOk(lines) && StateOk(lines, s)
    ensures r.Ok? <==> PeekAt(lines, s).Ok?
    ensures r.Ok? ==> r.value.0 == PeekAt(lines, s).value
    ensures r.Ok? ==> StateOk(lines, r.value.1) && r.value.1.column >= 1
    ensures r.Ok? ==> r.value.1.parenCount == s.parenCount
    ensures r.Ok? && r.value.0 != '\0' ==> Remaining(lines, r.value.1) < Remaining(lines, s)
    ensures r.Ok? && r.value.0 != '\0' && r.value.0 != '\n' ==> InLine(lines, r.value.1)
    ensures InLine(lines, s) ==> r == Ok((Cur(lines, s)[s.column - 1], s.(column := s.column + 1)))
  {
    if s.column > |Cur(lines, s)| then
      var s1 := s.(column := 1, line := s.line + 1);
      if s1.line > |lines| then Ok(('\0', s1))
      else
        assert LineOk(lines[s1.line - 1]);
        assert lines[s.line..] == [lines[s.line]] + lines[s.line + 1..];
        Ok((lines[s1.line - 1][0], s1.(curLine := s1.line, column := 2)))
    else if s.column < 1 then Err(Errors.Undefined(OutOfRange))
    else
      assert LineOk(Cur(lines, s));
      Ok((Cur(lines, s)[s.column - 1], s.(column := s.column + 1)))
  }

  /** get_loc_col: from start_col to the cursor on the current line, with
      the start moved to column 1 when the cursor is left of it. */
  function LocAt(s: LexState, startCol: int): (loc: Location)
    ensures loc.line == s.line && loc.endCol == s.column
    ensures loc.startCol == (if s.column < startCol then 1 else startCol)
  {
    Location(s.line, if s.column < startCol then 1 else startCol, s.column)
  }

  /** log_syntax_error: a SyntaxError at the cursor. */
  function SyntaxHere(s: LexState, msg: string): (e: Errors.Error)
    ensures e == Errors.Syntax(msg, Location(s.line, s.column, s.column))
  {
    Errors.Syntax(msg, LocAt(s, s.column))
  }

  // ---------------------------------------------------------------- numbers

  /** The `while (isdigit(peek())) lexeme += get_char();` loop, appending
      to acc: the lexeme and the cursor after the loop. */
  function DigitsAt(lines: seq<string>, s: LexState, acc: string): (r: (string, LexState))
    requires LinesOk(lines) && StateOk(lines, s) && s.column >= 1
    ensures StateOk(lines, r.1) && r.1.column >= 1 && r.1.parenCount == s.parenCount
    decreases Remaining(lines, s)
  {
    var c := PeekAt(lines, s).value;
    if !IsDigit(c) then (acc, s)
    else
      var (d, s1) := GetCharAt(lines, s).value;
      DigitsAt(lines, s1, acc + [d])
  }

  /** lex_number: a digit run, then the rest of the number. */
  function NumberAt(lines: seq<string>, s: LexState): (r: (Token, LexState))
    requires LinesOk(lines) && StateOk(lines, s) && s.column >= 1
    ensures StateOk(lines, r.1) && r.1.column >= 1 && r.1.parenCount == s.parenCount
    ensures r.0.ty == IntConst || r.0.ty == FloatConst
  {
    var (ds, s1) := DigitsAt(lines, s, "");
    FractionAt(lines, s1, ds, s.column)
  }

  /** The rest of lex_number after the digit run ds: when a '.' follows, the
      '.' and a second digit run; located from the column the number
      started at. */
  function FractionAt(lines: seq<string>, s: LexState, ds: string, startCol: int): (r: (Token, LexState))
    requires LinesOk(lines) && StateOk(lines, s) && s.column >= 1
    ensures StateOk(lines, r.1) && r.1.column >= 1 && r.1.parenCount == s.parenCount
    ensures r.0.ty == IntConst || r.0.ty == FloatConst
  {
    if PeekAt(lines, s).value == '.' then
      var (dot, s2) := GetCharAt(lines, s).value;
      var (lexeme, s3) := DigitsAt(lines, s2, ds + [dot]);
      (Token(FloatConst, lexeme, LocAt(s3, startCol)), s3)
    else
      (Token(IntConst, ds, LocAt(s, startCol)), s)
  }

  // ------------------------------------------------------------ identifiers

  /** isalnum(c) || c == '_' */
  predicate IsIdentChar(c: char) {
    IsAlpha(c) || IsDigit(c) || c == '_'
  }

  /** The `while (isalnum(peek()) || peek() == '_')` part of the do-while,
      appending to acc. */
  function IdentTailAt(lines: seq<string>, s: LexState, acc: string): (r: (string, LexState))
    requires LinesOk(lines) && StateOk(lines, s) && s.column >= 1
    ensures StateOk(lines, r.1) && r.1.column >= 1 && r.1.parenCount == s.parenCount
    decreases Remaining(lines, s)
  {
    var c := PeekAt(lines, s).value;
    if !IsIdentChar(c) then (acc, s)
    else
      var (d, s1) := GetCharAt(lines, s).value;
      IdentTailAt(lines, s1, acc + [d])
  }

  /** The token a word lexes as: its keyword with an empty lexeme, or Id
      carrying the word. */
  function WordToken(word: string, loc: Location): (t: Token)
    ensures t.loc == loc
    ensures IsKeyword(word) ==> t.ty == Keywords[word] && t.lexeme == ""
    ensures !IsKeyword(word) ==> t.ty == Id && t.lexeme == word
  {
    var ty := if IsKeyword(word) then Keywords[word] else Id;
    Token(ty, if ty == Id then word else "", loc)
  }

  /** The word lex_identifier reads: one character unconditionally, then
      identifier characters. */
  function IdentWordAt(lines: seq<string>, s: LexState): (r: (string, LexState))
    requires LinesOk(lines) && StateOk(lines, s) && s.column >= 1
    ensures StateOk(lines, r.1) && r.1.column >= 1 && r.1.parenCount == s.parenCount
  {
    var (c, s1) := GetCharAt(lines, s).value;
    IdentTailAt(lines, s1, [c])
  }

  /** lex_identifier: the word as a keyword or an identifier token, located
      from the column it started at. */
  function IdentAt(lines: seq<string>, s: LexState): (r: (Token, LexState))
    requires LinesOk(lines) && StateOk(lines, s) && s.column >= 1
    ensures StateOk(lines, r.1) && r.1.column >= 1 && r.1.parenCount == s.parenCount
  {
    var (word, s2) := IdentWordAt(lines, s);
    (WordToken(word, LocAt(s2, s.column)), s2)
  }

  // ---------------------------------------------------- char and string literals

  /** escapeSequences. The entry for '0' is built from the C string "\0",
      which ends before its first character, so it is the empty string. */
  const Escapes: map<char, string> := map[
    'n' := "\n", 't' := "\t", 'r' := "\r", '\'' := "'", '"' := "\"", '\\' := "\\",
    '0' := "", 'b' := "\U{8}", 'f' := "\U{C}", 'v' := "\U{B}"]

  /** The characters that may follow a backslash. */
  lemma EscapeKeys()
    ensures Escapes.Keys == {'n', 't', 'r', '\'', '"', '\\', '0', 'b', 'f', 'v'}
    ensures forall e :: e in Escapes ==> |Escapes[e]| <= 1 && (Escapes[e] == "" <==> e == '0')
  {
  }

  /** The closing read of lex_char, which is not checked to be a quote. */
  function CloseChar(lines: seq<string>, s: LexState, lexeme: string, startCol: int): (r: (Token, LexState))
    requires LinesOk(lines) && StateOk(lines, s) && s.column >= 1
    ensures StateOk(lines, r.1) && r.1.column >= 1 && r.1.parenCount == s.parenCount
    ensures r.0.ty == CharConst && r.0.lexeme == lexeme
  {
    var (_, s1) := GetCharAt(lines, s).value;
    (Token(CharConst, lexeme, LocAt(s1, startCol)), s1)
  }

  /** lex_char: a quote, then an escape or one character, then one more
      character taken as the closing quote. */
  function CharAt(lines: seq<string>, s: LexState): (r: Result<(Token, LexState), Errors.Error>)
    requires LinesOk(lines) && StateOk(lines, s) && s.column >= 1
    ensures r.Ok? ==> StateOk(lines, r.value.1) && r.value.1.column >= 1 && r.value.1.parenCount == s.parenCount
    ensures r.Ok? ==> r.value.0.ty == CharConst
  {
    var (_, s1) := GetCharAt(lines, s).value;
    var c := PeekAt(lines, s1).value;
    if c == '\n' then Err(SyntaxHere(s1, "Unterminated char literal"))
    else if c == '\\' then
      var (_, s2) := GetCharAt(lines, s1).value;
      var e := PeekAt(lines, s2).value;
      if e in Escapes then
        var (_, s3) := GetCharAt(lines, s2).value;
        Ok(CloseChar(lines, s3, Escapes[e], s.column))
      else Err(SyntaxHere(s2, "Unknown escape character"))
    else if c == '\'' then Err(SyntaxHere(s1, "empty char literal"))
    else
      var (ch, s2) := GetCharAt(lines, s1).value;
      Ok(CloseChar(lines, s2, [ch], s.column))
  }

  /** One turn of the `while (peek() != '"')` loop of lex_string: the text
      the turn appends and the cursor after it. A newline, or a backslash
      followed by a character with no escape, is an error. */
  function StringTurnAt(lines: seq<string>, s: LexState): (r: Result<(string, LexState), Errors.Error>)
    requires LinesOk(lines) && StateOk(lines, s) && InLine(lines, s)
    ensures r.Ok? ==> StateOk(lines, r.value.1) && InLine(lines, r.value.1) && r.value.1.parenCount == s.parenCount
    ensures r.Ok? ==> r.value.1.curLine == s.curLine && r.value.1.column > s.column
  {
    var c := PeekAt(lines, s).value;
    if c == '\n' then Err(SyntaxHere(s, "Unterminated string literal"))
    else if c == '\\' then
      var (_, s1) := GetCharAt(lines, s).value;
      var e := PeekAt(lines, s1).value;
      if e in Escapes then Ok((Escapes[e], GetCharAt(lines, s1).value.1))
      else Err(SyntaxHere(s1, "Unknown escape character"))
    else Ok(([c], GetCharAt(lines, s).value.1))
  }

  /** The whole loop, appending to acc: the characters up to the closing
      quote with escapes replaced, and the cursor on that quote. */
  function StringBodyAt(lines: seq<string>, s: LexState, acc: string): (r: Result<(string, LexState), Errors.Error>)
    requires LinesOk(lines) && StateOk(lines, s) && InLine(lines, s)
    ensures r.Ok? ==> StateOk(lines, r.value.1) && InLine(lines, r.value.1) && r.value.1.parenCount == s.parenCount
    ensures r.Ok? ==> PeekAt(lines, r.value.1) == Ok('"')
    decreases |Cur(lines, s)| - s.column
  {
    if PeekAt(lines, s).value == '"' then Ok((acc, s))
    else
      var turn :- StringTurnAt(lines, s);
      StringBodyAt(lines, turn.1, acc + turn.0)
  }

  /** lex_string: the opening quote, the body and the closing quote. */
  function StringAt(lines: seq<string>, s: LexState): (r: Result<(Token, LexState), Errors.Error>)
    requires LinesOk(lines) && StateOk(lines, s) && PeekAt(lines, s) == Ok('"')
    ensures r.Ok? ==> StateOk(lines, r.value.1) && r.value.1.column >= 1 && r.value.1.parenCount == s.parenCount
    ensures r.Ok? ==> r.value.0.ty == StringConst
  {
    var (_, s1) := GetCharAt(lines, s).value;
    var body :- StringBodyAt(lines, s1, "");
    var (_, s2) := GetCharAt(lines, body.1).value;
    Ok((Token(StringConst, body.0, LocAt(s2, s.column)), s2))
  }

  // ---------------------------------------------------------------- symbols

  /** The switch of lex_symbol, given the symbol's first character c and the
      cursor after it: the token type and the cursor after the symbol, the
      bracket depth adjusted. */
  function SymbolKind(lines: seq<string>, s: LexState, c: char): (r: Result<(TokenType, LexState), Errors.Error>)
    requires LinesOk(lines) && StateOk(lines, s) && s.column >= 1
    ensures r.Ok? ==> StateOk(lines, r.value.1) && r.value.1.column >= 1
  {
    var next := PeekAt(lines, s).value;
    match c
    case '(' => Ok((LParen, s.(parenCount := s.parenCount + 1)))
    case ')' => Ok((RParen, s.(parenCount := s.parenCount - 1)))
    case '{' => Ok((LCurly, s))
    case '}' => Ok((RCurly, s))
    case '[' => Ok((LBracket, s.(parenCount := s.parenCount + 1)))
    case ']' => Ok((RBracket, s.(parenCount := s.parenCount - 1)))
    case ',' => Ok((Comma, s))
    case ';' => Ok((Semicolon, s))
    case '+' => Ok((Plus, s))
    case '-' => Ok((Minus, s))
    case '%' => Ok((Percent, s))
    case '^' => Ok((Caret, s))
    case '.' => Ok((Dot, s))
    case '*' => Ok((Star, s))
    case '/' => Ok((Slash, s))
    case '=' => if next == '=' then Ok((EqualsEquals, GetCharAt(lines, s).value.1)) else Ok((Equal, s))
    case '!' => if next != '=' then Err(SyntaxHere(s, "Expected '='")) else Ok((NotEquals, GetCharAt(lines, s).value.1))
    case '>' => if next != '=' then Ok((Greater, s)) else Ok((GreaterEqual, GetCharAt(lines, s).value.1))
    case '<' => if next != '=' then Ok((Less, s)) else Ok((LessEqual, GetCharAt(lines, s).value.1))
    case _ => Err(SyntaxHere(s, "Unknown symbol"))
  }

  /** lex_symbol: a symbol token with an empty lexeme. */
  function SymbolAt(lines: seq<string>, s: LexState): (r: Result<(Token, LexState), Errors.Error>)
    requires LinesOk(lines) && StateOk(lines, s) && s.column >= 1
    ensures r.Ok? ==> StateOk(lines, r.value.1)
  {
    var (c, s1) := GetCharAt(lines, s).value;
    var sym :- SymbolKind(lines, s1, c);
    Ok((Token(sym.0, "", LocAt(sym.1, s.column)), sym.1))
  }

  // ---------------------------------------------------------------- advance

  /** The Newline that '#' returns: at the end of the current line, with the
      cursor moved to column 0 of the next line number. */
  function CommentAt(lines: seq<string>, s: LexState): (r: (Token, LexState))
    requires LinesOk(lines) && StateOk(lines, s)
    ensures StateOk(lines, r.1)
  {
    var co := |Cur(lines, s)|;
    (Token(Newline, "", Location(s.line, co, co)), s.(line := s.line + 1, column := 0))
  }

  /** advance: skip whitespace, except that a '\n' outside brackets is a
      Newline token, then lex one token by its first character. */
  function AdvanceAt(lines: seq<string>, s: LexState): (r: Result<(Token, LexState), Errors.Error>)
    requires LinesOk(lines) && StateOk(lines, s)
    ensures r.Ok? ==> StateOk(lines, r.value.1)
    decreases Remaining(lines, s)
  {
    var c :- PeekAt(lines, s);
    if c == '\0' then
      var (_, s1) := GetCharAt(lines, s).value;
      Ok((Token(Eof, "", LocAt(s1, s1.column)), s1))
    else if c == '#' then Ok(CommentAt(lines, s))
    else if IsSpace(c) then
      var (_, s1) := GetCharAt(lines, s).value;
      if c == '\n' && s.parenCount == 0 then Ok((Token(Newline, "\n", LocAt(s1, s.column)), s1))
      else AdvanceAt(lines, s1)
    else TokenAt(lines, s, c)
  }

  /** The rest of advance: a token chosen by its first character c, which
      is not whitespace, '#' or the end of input. */
  function TokenAt(lines: seq<string>, s: LexState, c: char): (r: Result<(Token, LexState), Errors.Error>)
    requires LinesOk(lines) && StateOk(lines, s) && PeekAt(lines, s) == Ok(c)
    ensures r.Ok? ==> StateOk(lines, r.value.1)
  {
    if IsDigit(c) then Ok(NumberAt(lines, s))
    else if IsAlpha(c) then Ok(IdentAt(lines, s))
    else if c == '\'' then CharAt(lines, s)
    else if c == '"' then StringAt(lines, s)
    else SymbolAt(lines, s)
  }

  // ------------------------------------------------------------ the class

  /** A method's result and new cursor agree with the function that defines
      the operation: the same token or error, and on success the same cursor. */
  predicate Lexed<T(==)>(r: Result<T, Errors.Error>, st: LexState, spec: Result<(T, LexState), Errors.Error>) {
    && (r.Ok? <==> spec.Ok?)
    && (r.Ok? ==> r.value == spec.value.0 && st == spec.value.1)
    && (r.Err? ==> r.error == spec.error)
  }

  class Lexer {
    const lines: seq<string>
    var line: int
    var column: int
    var parenCount: int
    var curLine: int

    /** The cursor. */
    function St(): LexState
      reads this
    {
      LexState(line, column, parenCount, curLine)
    }

    ghost predicate Valid()
      reads this
    {
      LinesOk(lines) && Alphabetic(lines) && StateOk(lines, St())
    }

    /** Lexer(src): line 1, column 1, no open bracket, cur_line on line 1. */
    constructor (src: seq<string>)
      requires LinesOk(src) && Alphabetic(src)
      ensures lines == src && St() == Start && Valid()
    {
      lines := src;
      line := 1;
      column := 1;
      parenCount := 0;
      curLine := 1;
    }

    method GetChar() returns (r: Result<char, Errors.Error>)
      requires Valid()
      modifies this
      ensures Valid()
      ensures Lexed(r, St(), GetCharAt(lines, old(St())))
      ensures r.Ok? && r.value != '\0' ==> Remaining(lines, St()) < old(Remaining(lines, St()))
    {
      if column > |lines[curLine - 1]| {
        column := 1;
        line := line + 1;
        if line > |lines| {
          return Ok('\0');
        }
        curLine := line;
      }
      if column < 1 {
        return Err(Errors.Undefined(OutOfRange));
      }
      r := Ok(lines[curLine - 1][column - 1]);
      column := column + 1;
    }

    /** The `while (isdigit(peek())) lexeme += get_char();` loop, appending
        to acc. */
    method ReadDigits(acc: string) returns (lexeme: string)
      requires Valid() && column >= 1
      modifies this
      ensures Valid()
      ensures (lexeme, St()) == DigitsAt(lines, old(St()), acc)
    {
      lexeme := acc;
      while IsDigit(PeekAt(lines, St()).value)
        invariant Valid() && column >= 1
        invariant DigitsAt(lines, old(St()), acc) == DigitsAt(lines, St(), lexeme)
        decreases Remaining(lines, St())
      {
        var c := GetChar();
        lexeme := lexeme + [c.value];
      }
    }

    method LexNumber() returns (r: Token)
      requires Valid() && column >= 1
      modifies this
      ensures Valid()
      ensures (r, St()) == NumberAt(lines, old(St()))
    {
      var colStart := column;
      var ty := IntConst;
      var lexeme := ReadDigits("");
      if PeekAt(lines, St()).value == '.' {
        ty := FloatConst;
        var c := GetChar();
        lexeme := ReadDigits(lexeme + [c.value]);
      }
      r := Token(ty, lexeme, LocAt(St(), colStart));
    }

    /** The `while (isalnum(peek()) || peek() == '_')` part of lex_identifier's
        do-while, appending to acc. */
    method ReadIdentTail(acc: string) returns (lexeme: string)
      requires Valid() && column >= 1
      modifies this
      ensures Valid()
      ensures (lexeme, St()) == IdentTailAt(lines, old(St()), acc)
    {
      lexeme := acc;
      while IsIdentChar(PeekAt(lines, St()).value)
        invariant Valid() && column >= 1
        invariant IdentTailAt(lines, old(St()), acc) == IdentTailAt(lines, St(), lexeme)
        decreases Remaining(lines, St())
      {
        var c := GetChar();
        lexeme := lexeme + [c.value];
      }
    }

    method LexIdentifier() returns (r: Token)
      requires Valid() && column >= 1
      modifies this
      ensures Valid()
      ensures (r, St()) == IdentAt(lines, old(St()))
    {
      var colStart := column;
      var c := GetChar();
      var lexeme := ReadIdentTail([c.value]);
      r := WordToken(lexeme, LocAt(St(), colStart));
    }

    method LexChar() returns (r: Result<Token, Errors.Error>)
      requires Valid() && column >= 1
      modifies this
      ensures Valid()
      ensures Lexed(r, St(), CharAt(lines, old(St())))
    {
      var startCol := column;
      var _ := GetChar();
      var c := PeekAt(lines, St()).value;
      if c == '\n' {
        return Err(SyntaxHere(St(), "Unterminated char literal"));
      }
      var lexeme := "";
      if c == '\\' {
        var _ := GetChar();
        var e := PeekAt(lines, St()).value;
        if e in Escapes {
          var _ := GetChar();
          lexeme := Escapes[e];
        } else {
          return Err(SyntaxHere(St(), "Unknown escape character"));
        }
      } else if c == '\'' {
        return Err(SyntaxHere(St(), "empty char literal"));
      } else {
        var ch := GetChar();
        lexeme := [ch.value];
      }
      var _ := GetChar();
      r := Ok(Token(CharConst, lexeme, LocAt(St(), startCol)));
    }

    /** One turn of the loop of lex_string. */
    method StringTurn() returns (r: Result<string, Errors.Error>)
      requires Valid() && InLine(lines, St())
      modifies this
      ensures Valid()
      ensures Lexed(r, St(), StringTurnAt(lines, old(St())))
      ensures r.Ok? ==> InLine(lines, St()) && curLine == old(curLine) && column > old(column)
    {
      var c := PeekAt(lines, St()).value;
      if c == '\n' {
        return Err(SyntaxHere(St(), "Unterminated string literal"));
      }
      if c == '\\' {
        var _ := GetChar();
        var e := PeekAt(lines, St()).value;
        if e in Escapes {
          var _ := GetChar();
          return Ok(Escapes[e]);
        }
        return Err(SyntaxHere(St(), "Unknown escape character"));
      } else {
        var _ := GetChar();
      }
      r := Ok([c]);
    }

    /** The `while (peek() != '"')` loop of lex_string. */
    method ReadStringBody() returns (r: Result<string, Errors.Error>)
      requires Valid() && InLine(lines, St())
      modifies this
      ensures Valid()
      ensures Lexed(r, St(), StringBodyAt(lines, old(St()), ""))
    {
      var lexeme := "";
      while PeekAt(lines, St()).value != '"'
        invariant Valid() && InLine(lines, St())
        invariant StringBodyAt(lines, old(St()), "") == StringBodyAt(lines, St(), lexeme)
        decreases |lines[curLine - 1]| - column
      {
        var piece := StringTurn();
        if piece.Err? {
          return Err(piece.error);
        }
        lexeme := lexeme + piece.value;
      }
      r := Ok(lexeme);
    }

    method LexString() returns (r: Result<Token, Errors.Error>)
      requires Valid() && PeekAt(lines, St()) == Ok('"')
      modifies this
      ensures Valid()
      ensures Lexed(r, St(), StringAt(lines, old(St())))
    {
      var startCol := column;
      var _ := GetChar();
      var body := ReadStringBody();
      if body.Err? {
        return Err(body.error);
      }
      var _ := GetChar();
      r := Ok(Token(StringConst, body.value, LocAt(St(), startCol)));
    }

    method LexSymbol() returns (r: Result<Token, Errors.Error>)
      requires Valid() && column >= 1
      modifies this
      ensures Valid()
      ensures Lexed(r, St(), SymbolAt(lines, old(St())))
    {
      var startCol := column;
      var c0 := GetChar();
      var c := c0.value;
      var ty := Error;
      match c {
        case '(' => parenCount := parenCount + 1; ty := LParen;
        case ')' => parenCount := parenCount - 1; ty := RParen;
        case '{' => ty := LCurly;
        case '}' => ty := RCurly;
        case '[' => parenCount := parenCount + 1; ty := LBracket;
        case ']' => parenCount := parenCount - 1; ty := RBracket;
        case ',' => ty := Comma;
        case ';' => ty := Semicolon;
        case '+' => ty := Plus;
        case '-' => ty := Minus;
        case '%' => ty := Percent;
        case '^' => ty := Caret;
        case '.' => ty := Dot;
        case '*' => ty := Star;
        case '/' => ty := Slash;
        case '=' =>
          if PeekAt(lines, St()).value == '=' {
            var _ := GetChar();
            ty := EqualsEquals;
          } else {
            ty := Equal;
          }
        case '!' =>
          if PeekAt(lines, St()).value != '=' {
            return Err(SyntaxHere(St(), "Expected '='"));
          } else {
            var _ := GetChar();
            ty := NotEquals;
          }
        case '>' =>
          if PeekAt(lines, St()).value != '=' {
            ty := Greater;
          } else {
            var _ := GetChar();
            ty := GreaterEqual;
          }
        case '<' =>
          if PeekAt(lines, St()).value != '=' {
            ty := Less;
          } else {
            var _ := GetChar();
            ty := LessEqual;
          }
        case _ => return Err(SyntaxHere(St(), "Unknown symbol"));
      }
      r := Ok(Token(ty, "", LocAt(St(), startCol)));
    }

    /** The dispatch at the end of advance's loop. */
    method LexToken(c: char) returns (r: Result<Token, Errors.Error>)
      requires Valid() && PeekAt(lines, St()) == Ok(c)
      requires c != '\0' && c != '#' && !IsSpace(c) && InAlphabet(c)
      modifies this
      ensures Valid()
      ensures Lexed(r, St(), TokenAt(lines, old(St()), c))
    {
      if IsDigit(c) {
        var t := LexNumber();
        return Ok(t);
      }
      if IsAlpha(c) {
        var t := LexIdentifier();
        return Ok(t);
      }
      if c == '\'' {
        r := LexChar();
        return;
      }
      if c == '"' {
        r := LexString();
        return;
      }
      // every other character of the alphabet is punctuation
      assert IsPunct(c);
      r := LexSymbol();
    }

    method Advance() returns (r: Result<Token, Errors.Error>)
      requires Valid()
      modifies this
      ensures Valid()
      ensures Lexed(r, St(), AdvanceAt(lines, old(St())))
    {
      while true
        invariant Valid()
        invariant AdvanceAt(lines, old(St())) == AdvanceAt(lines, St())
        decreases Remaining(lines, St())
      {
        var p := PeekAt(lines, St());
        if p.Err? {
          return Err(p.error);
        }
        var c := p.value;
        if c == '\0' {
          var _ := GetChar();
          return Ok(Token(Eof, "", LocAt(St(), column)));
        }
        if c == '#' {
          var co := |lines[curLine - 1]|;
          var location := Location(line, co, co);
          line := line + 1;
          column := 0;
          return Ok(Token(Newline, "", location));
        }
        if IsSpace(c) {
          var startCol := column;
          var _ := GetChar();
          if c == '\n' && parenCount == 0 {
            return Ok(Token(Newline, "\n", LocAt(St(), startCol)));
          }
          continue;
        }
        PeekInAlphabet(lines, St());
        r := LexToken(c);
        return;
      }
    }
  }
}
