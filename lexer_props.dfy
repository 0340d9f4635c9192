/** What the lexer's operations guarantee (compiler/lexer/lexer.cpp), and
    the unit tests of tests/lexer/lexer_test.cpp as lemmas about the
    functions of Lexing. */
module LexerProps {
  import opened Wrappers
  import opened Strings
  import opened Locations
  import Errors
  import opened TokenTypes
  import opened Lexing

  // ------------------------------------------------------------ reading

  /** The cursor after the first character of a token. */
  function AfterFirst(lines: seq<string>, s: LexState): LexState
    requires LinesOk(lines) && StateOk(lines, s) && s.column >= 1
  {
    GetCharAt(lines, s).value.1
  }

  /** Reading a character that is not the end of input leaves it one column
      left of the cursor on the line now current; a character other than a
      newline leaves the cursor inside that line. */
  lemma FirstRead(lines: seq<string>, s: LexState)
    requires LinesOk(lines) && StateOk(lines, s) && PeekAt(lines, s).Ok? && PeekAt(lines, s).value != '\0'
    ensures var a := AfterFirst(lines, s);
      && 2 <= a.column <= |Cur(lines, a)| + 1
      && Cur(lines, a)[a.column - 2] == PeekAt(lines, s).value
      && a.parenCount == s.parenCount
      && (PeekAt(lines, s).value != '\n' ==> InLine(lines, a))
  {
  }

  /** A suffix of a sequence is its first element and the suffix after it. */
  lemma SliceCons<T>(u: seq<T>, i: int)
    requires 0 <= i < |u|
    ensures u[i..] == [u[i]] + u[i + 1..]
  {
  }

  /** Dropping k elements and then one more. */
  lemma SliceTail<T>(u: seq<T>, k: int)
    requires 0 <= k < |u|
    ensures u[k..][0] == u[k] && u[k..][1..] == u[k + 1..]
  {
  }

  // ---------------------------------------------------------------- numbers

  /** The text from the cursor to the end of its line. */
  function Rest(lines: seq<string>, s: LexState): string
    requires 1 <= s.curLine <= |lines| && 1 <= s.column <= |lines[s.curLine - 1]| + 1
  {
    Cur(lines, s)[s.column - 1..]
  }

  /** One read inside a line that does not cross its end. */
  lemma StepInLine(lines: seq<string>, s: LexState)
    requires LinesOk(lines) && StateOk(lines, s) && InLine(lines, s) && Rest(lines, s)[0] != '\n'
    ensures var s1 := s.(column := s.column + 1);
      && PeekAt(lines, s) == Ok(Rest(lines, s)[0])
      && GetCharAt(lines, s) == Ok((Rest(lines, s)[0], s1))
      && StateOk(lines, s1) && InLine(lines, s1)
      && Rest(lines, s1) == Rest(lines, s)[1..]
  {
    assert LineOk(Cur(lines, s));
  }

  /** One turn of the digit loop inside a line. */
  lemma DigitStep(lines: seq<string>, s: LexState, acc: string)
    requires LinesOk(lines) && StateOk(lines, s) && InLine(lines, s) && IsDigit(Rest(lines, s)[0])
    ensures var s1 := s.(column := s.column + 1);
      && StateOk(lines, s1) && InLine(lines, s1) && Rest(lines, s1) == Rest(lines, s)[1..]
      && DigitsAt(lines, s, acc) == DigitsAt(lines, s1, acc + [Rest(lines, s)[0]])
  {
    StepInLine(lines, s);
  }

  /** Inside a line, the digit loop appends the longest run of digits at
      the cursor and moves the cursor past it. */
  lemma {:induction false} DigitsInLine(lines: seq<string>, s: LexState, acc: string)
    requires LinesOk(lines) && StateOk(lines, s) && InLine(lines, s)
    ensures var ds := LeadingDigits(Rest(lines, s));
      DigitsAt(lines, s, acc) == (acc + ds, s.(column := s.column + |ds|))
    decreases |Cur(lines, s)| - s.column
  {
    var t := Rest(lines, s);
    var c := t[0];
    if IsDigit(c) {
      var s1 := s.(column := s.column + 1);
      DigitStep(lines, s, acc);
      DigitsInLine(lines, s1, acc + [c]);
      assert (acc + [c]) + LeadingDigits(t[1..]) == acc + LeadingDigits(t);
    } else {
      assert LeadingDigits(t) == [];
      assert acc + [] == acc;
    }
  }

  /** The rest of a line ends in its newline. */
  lemma RestEnds(lines: seq<string>, s: LexState)
    requires LinesOk(lines) && StateOk(lines, s) && InLine(lines, s)
    ensures Rest(lines, s) != [] && Rest(lines, s)[|Rest(lines, s)| - 1] == '\n'
  {
    assert LineOk(Cur(lines, s));
  }

  /** Moving the cursor k characters along the rest of its line. */
  lemma RestSkip(lines: seq<string>, s: LexState, k: int)
    requires LinesOk(lines) && StateOk(lines, s) && InLine(lines, s) && 0 <= k < |Rest(lines, s)|
    ensures var s1 := s.(column := s.column + k);
      StateOk(lines, s1) && InLine(lines, s1) && Rest(lines, s1) == Rest(lines, s)[k..]
  {
  }

  /** The longest digit run of a text that ends in a newline stops before
      its end. */
  lemma DigitsStop(t: string)
    requires t != [] && t[|t| - 1] == '\n'
    ensures |LeadingDigits(t)| < |t|
  {
    LeadingDigitsIsLongest(t);
  }

  /** The first turn of the digit loop at a number's first digit. */
  lemma DigitsStart(lines: seq<string>, s: LexState)
    requires LinesOk(lines) && StateOk(lines, s) && PeekAt(lines, s).Ok? && IsDigit(PeekAt(lines, s).value)
    ensures InLine(lines, AfterFirst(lines, s))
    ensures DigitsAt(lines, s, "") == DigitsAt(lines, AfterFirst(lines, s), [PeekAt(lines, s).value])
  {
    assert "" + [PeekAt(lines, s).value] == [PeekAt(lines, s).value];
  }

  /** The number at the start of t, as lex_number reads it: a digit run and,
      when a '.' follows, the '.' and the digit run after it. */
  function NumberText(t: string): (string, TokenType)
  {
    var ds := LeadingDigits(t);
    NumberAfter(ds, t[|ds|..])
  }

  /** The number whose digit run is ds and whose text goes on with u: a
      fraction when u starts with '.'. */
  function NumberAfter(ds: string, u: string): (string, TokenType)
  {
    if u != [] && u[0] == '.' then (ds + "." + LeadingDigits(u[1..]), FloatConst)
    else (ds, IntConst)
  }

  predicate IntLexeme(w: string) {
    |w| >= 1 && AllDigits(w)
  }

  predicate FloatLexeme(w: string) {
    exists i :: 0 < i < |w| && w[i] == '.' && AllDigits(w[..i]) && AllDigits(w[i + 1..])
  }

  /** The number at the start of a text that starts with a digit is a
      prefix of it: an IntConst of digits followed by neither a digit nor
      '.', or a FloatConst of digits, '.', and digits followed by no digit. */
  lemma NumberTextShape(t: string)
    requires t != [] && IsDigit(t[0])
    ensures var (w, ty) := NumberText(t);
      && w <= t
      && (ty == IntConst ==> IntLexeme(w) && (|w| < |t| ==> !IsDigit(t[|w|]) && t[|w|] != '.'))
      && (ty == FloatConst ==> FloatLexeme(w) && (|w| < |t| ==> !IsDigit(t[|w|])))
  {
    var ds := LeadingDigits(t);
    LeadingDigitsIsLongest(t);
    if |ds| < |t| && t[|ds|] == '.' {
      var w := NumberText(t).0;
      var rest := t[|ds| + 1..];
      var fs := LeadingDigits(rest);
      LeadingDigitsIsLongest(rest);
      assert t == ds + "." + rest;
      assert w[..|ds|] == ds && w[|ds|] == '.' && w[|ds| + 1..] == fs;
      if |w| < |t| {
        assert t[|w|] == rest[|fs|];
      }
    }
  }

  /** At a '.' inside a line: the '.' and the digit run after it. */
  lemma FractionPart(lines: seq<string>, e: LexState, acc: string)
    requires LinesOk(lines) && StateOk(lines, e) && InLine(lines, e) && Rest(lines, e)[0] == '.'
    ensures var fs := LeadingDigits(Rest(lines, e)[1..]);
      && GetCharAt(lines, e) == Ok(('.', e.(column := e.column + 1)))
      && DigitsAt(lines, e.(column := e.column + 1), acc) == (acc + fs, e.(column := e.column + 1 + |fs|))
  {
    StepInLine(lines, e);
    DigitsInLine(lines, e.(column := e.column + 1), acc);
  }

  /** The rest of a number at a cursor e inside a line, after the digit
      run ds: the number whose text goes on with the rest of the line. */
  lemma FractionLexeme(lines: seq<string>, e: LexState, ds: string, startCol: int)
    requires LinesOk(lines) && StateOk(lines, e) && InLine(lines, e)
    ensures var n := NumberAfter(ds, Rest(lines, e));
      var e2 := e.(column := e.column + |n.0| - |ds|);
      FractionAt(lines, e, ds, startCol) == (Token(n.1, n.0, LocAt(e2, startCol)), e2)
  {
    if Rest(lines, e)[0] == '.' {
      FractionPart(lines, e, ds + ['.']);
      assert ds + "." == ds + ['.'];
    }
  }

  /** NumberText on a text that starts with a digit d followed by r. */
  lemma NumberTextCons(d: char, r: string)
    requires IsDigit(d)
    ensures var ds := [d] + LeadingDigits(r);
      NumberText([d] + r) == NumberAfter(ds, r[|LeadingDigits(r)|..])
  {
    var t := [d] + r;
    LeadingDigitsCons(d, r);
    var k := |LeadingDigits(r)|;
    assert t[k + 1..] == r[k..];
  }

  lemma LeadingDigitsCons(d: char, r: string)
    requires IsDigit(d)
    ensures LeadingDigits([d] + r) == [d] + LeadingDigits(r)
  {
    assert ([d] + r)[1..] == r;
  }

  /** The digit run from a number's first digit d, read with the cursor a
      inside the line after d: d and the longest digit run at a, ending
      inside the line. */
  lemma IntegerFrom(lines: seq<string>, a: LexState, d: char)
    requires LinesOk(lines) && StateOk(lines, a) && InLine(lines, a)
    ensures var r := Rest(lines, a);
      var k := |LeadingDigits(r)|;
      var e := a.(column := a.column + k);
      && k < |r| && StateOk(lines, e) && InLine(lines, e) && Rest(lines, e) == r[k..]
      && DigitsAt(lines, a, [d]) == ([d] + LeadingDigits(r), e)
  {
    DigitsInLine(lines, a, [d]);
    RestEnds(lines, a);
    DigitsStop(Rest(lines, a));
    RestSkip(lines, a, |LeadingDigits(Rest(lines, a))|);
  }

  /** The digit loop from a number's first digit d stops inside the line. */
  lemma DigitsEnd(lines: seq<string>, a: LexState, d: char)
    requires LinesOk(lines) && StateOk(lines, a) && InLine(lines, a)
    ensures StateOk(lines, DigitsAt(lines, a, [d]).1) && InLine(lines, DigitsAt(lines, a, [d]).1)
  {
    IntegerFrom(lines, a, d);
  }

  /** The digit run the digit loop reads from a first digit d, followed by
      the rest of the line where it stops, is the number at the start of d
      and the rest of the line after it; the loop leaves the cursor on the
      same line, one column per character read after d. */
  lemma NumberDigits(lines: seq<string>, a: LexState, d: char)
    requires LinesOk(lines) && StateOk(lines, a) && InLine(lines, a) && IsDigit(d)
    ensures var ie := DigitsAt(lines, a, [d]);
      && InLine(lines, ie.1)
      && NumberAfter(ie.0, Rest(lines, ie.1)) == NumberText([d] + Rest(lines, a))
      && ie.1 == a.(column := a.column - 1 + |ie.0|)
  {
    IntegerFrom(lines, a, d);
    NumberTextCons(d, Rest(lines, a));
  }

  /** The token r reads as the number n and leaves the cursor at e. */
  predicate NumberReads(r: (Token, LexState), n: (string, TokenType), e: LexState, startCol: int) {
    r == (Token(n.1, n.0, LocAt(e, startCol)), e)
  }

  /** lex_number reads the digit run from the first digit d and then,
      exactly when the text goes on with '.', that '.' and a second digit
      run (NumberAfter); the token is a FloatConst in the second case, an
      IntConst otherwise, located at the first digit, and the cursor ends
      just after it. By NumberReadsText, the token is NumberText of the text
      from d on. */
  lemma NumberLexeme(lines: seq<string>, s: LexState)
    requires LinesOk(lines) && StateOk(lines, s) && PeekAt(lines, s).Ok? && IsDigit(PeekAt(lines, s).value)
    ensures var a := AfterFirst(lines, s);
      var ie := DigitsAt(lines, a, [PeekAt(lines, s).value]);
      StateOk(lines, ie.1) && InLine(lines, ie.1) &&
      var n := NumberAfter(ie.0, Rest(lines, ie.1));
      NumberReads(NumberAt(lines, s), n, ie.1.(column := ie.1.column + |n.0| - |ie.0|), s.column)
  {
    DigitsStart(lines, s);
    var a := AfterFirst(lines, s);
    DigitsEnd(lines, a, PeekAt(lines, s).value);
    var ie := DigitsAt(lines, a, [PeekAt(lines, s).value]);
    FractionLexeme(lines, ie.1, ie.0, s.column);
  }

  /** A token that reads as NumberAfter of the digit loop's run and the rest
      of the line after it (as NumberLexeme shows lex_number's token does)
      reads as NumberText of the text from d on. */
  lemma NumberReadsText(lines: seq<string>, a: LexState, d: char, r: (Token, LexState), startCol: int)
    requires LinesOk(lines) && StateOk(lines, a) && InLine(lines, a) && IsDigit(d)
    requires var ie := DigitsAt(lines, a, [d]);
      && StateOk(lines, ie.1) && InLine(lines, ie.1)
      && var m := NumberAfter(ie.0, Rest(lines, ie.1));
         NumberReads(r, m, ie.1.(column := ie.1.column + |m.0| - |ie.0|), startCol)
    ensures var n := NumberText([d] + Rest(lines, a));
      NumberReads(r, n, a.(column := a.column - 1 + |n.0|), startCol)
  {
    NumberDigits(lines, a, d);
  }

  // ------------------------------------------------------------ identifiers

  predicate AllIdentChars(w: string) {
    forall i :: 0 <= i < |w| ==> IsIdentChar(w[i])
  }

  /** The longest prefix of t made of letters, digits and '_'. */
  function LeadingIdent(t: string): (p: string)
    ensures p <= t && AllIdentChars(p)
    ensures |p| < |t| ==> !IsIdentChar(t[|p|])
  {
    if t != [] && IsIdentChar(t[0]) then [t[0]] + LeadingIdent(t[1..]) else []
  }

  /** One turn of the identifier loop inside a line. */
  lemma IdentStep(lines: seq<string>, s: LexState, acc: string)
    requires LinesOk(lines) && StateOk(lines, s) && InLine(lines, s) && IsIdentChar(Rest(lines, s)[0])
    ensures var s1 := s.(column := s.column + 1);
      && StateOk(lines, s1) && InLine(lines, s1) && Rest(lines, s1) == Rest(lines, s)[1..]
      && IdentTailAt(lines, s, acc) == IdentTailAt(lines, s1, acc + [Rest(lines, s)[0]])
  {
    StepInLine(lines, s);
  }

  /** Inside a line, the identifier loop appends the longest run of
      identifier characters at the cursor. */
  lemma {:induction false} IdentTailInLine(lines: seq<string>, s: LexState, acc: string)
    requires LinesOk(lines) && StateOk(lines, s) && InLine(lines, s)
    ensures var w := LeadingIdent(Rest(lines, s));
      IdentTailAt(lines, s, acc) == (acc + w, s.(column := s.column + |w|))
    decreases |Cur(lines, s)| - s.column
  {
    var t := Rest(lines, s);
    var c := t[0];
    if IsIdentChar(c) {
      var s1 := s.(column := s.column + 1);
      IdentStep(lines, s, acc);
      IdentTailInLine(lines, s1, acc + [c]);
      assert (acc + [c]) + LeadingIdent(t[1..]) == acc + LeadingIdent(t);
    } else {
      assert LeadingIdent(t) == [];
      assert acc + [] == acc;
    }
  }

  /** lex_identifier reads its first character and then the longest run of
      letters, digits and '_' after it, all on the line of that character,
      which FirstRead places just left of the cursor; the token is then the
      word's keyword, or an Id (WordTokenKinds). */
  lemma IdentifierWord(lines: seq<string>, s: LexState)
    requires LinesOk(lines) && StateOk(lines, s) && PeekAt(lines, s).Ok? && IsAlpha(PeekAt(lines, s).value)
    ensures var a := AfterFirst(lines, s);
      var word := [PeekAt(lines, s).value] + LeadingIdent(Rest(lines, a));
      IdentWordAt(lines, s) == (word, a.(column := a.column - 1 + |word|))
  {
    IdentTailInLine(lines, AfterFirst(lines, s), [PeekAt(lines, s).value]);
  }

  /** A word is a keyword token exactly when it is in the keyword table. */
  lemma WordTokenKinds(word: string, loc: Location)
    ensures WordToken(word, loc).ty == Id <==> word !in Keywords
    ensures WordToken(word, loc).lexeme == (if word in Keywords then "" else word)
  {
    IsKeywordExactly(word);
    if word in Keywords {
      assert Keywords[word] != Id;
    }
  }

  // ------------------------------------------------------------ characters

  /** A char literal as lex_char reads the text t after its opening quote:
      the lexeme and how many characters it takes, or the message and the
      offset of the error. The character that closes the literal is read
      without being looked at. */
  function CharLiteral(t: string): Result<(string, nat), (string, nat)>
    requires t != [] && t[|t| - 1] == '\n'
  {
    if t[0] == '\n' then Err(("Unterminated char literal", 0))
    else if t[0] == '\\' then
      if t[1] in Escapes then Ok((Escapes[t[1]], 3)) else Err(("Unknown escape character", 1))
    else if t[0] == '\'' then Err(("empty char literal", 0))
    else Ok(([t[0]], 2))
  }

  /** The first character of a token other than a newline is read inside
      its line (the quote of a literal, a symbol). */
  lemma FirstInLine(lines: seq<string>, s: LexState, q: char)
    requires LinesOk(lines) && StateOk(lines, s) && PeekAt(lines, s) == Ok(q) && q != '\0' && q != '\n'
    ensures var a := AfterFirst(lines, s);
      && GetCharAt(lines, s) == Ok((q, a)) && StateOk(lines, a) && InLine(lines, a)
      && a.parenCount == s.parenCount
  {
  }

  /** The result of lex_char, which CharLiteral describes on the rest of the
      line after the opening quote: on success the token at the opening
      quote and the cursor after the literal, otherwise the error at the
      offending character. */
  lemma CharLexeme(lines: seq<string>, s: LexState)
    requires LinesOk(lines) && StateOk(lines, s) && PeekAt(lines, s) == Ok('\'')
    ensures var a := AfterFirst(lines, s);
      InLine(lines, a) &&
      var c := CharLiteral(Rest(lines, a));
      && (c.Ok? ==> var e := a.(column := a.column + c.value.1);
            CharAt(lines, s) == Ok((Token(CharConst, c.value.0, LocAt(e, s.column)), e)))
      && (c.Err? ==> CharAt(lines, s) == Err(SyntaxHere(a.(column := a.column + c.error.1), c.error.0)))
  {
    FirstInLine(lines, s, '\'');
    var a := AfterFirst(lines, s);
    RestEnds(lines, a);
    var t := Rest(lines, a);
    if t[0] == '\\' {
      StepInLine(lines, a);
      var s2 := a.(column := a.column + 1);
      if t[1] in Escapes {
        StepInLine(lines, s2);
      }
    } else if t[0] != '\n' && t[0] != '\'' {
      StepInLine(lines, a);
    }
  }

  /** A char literal's lexeme is at most one character; it is empty only for
      the escape \0, whose replacement text is empty. */
  lemma CharLiteralLexeme(t: string)
    requires t != [] && t[|t| - 1] == '\n' && CharLiteral(t).Ok?
    ensures |CharLiteral(t).value.0| <= 1
    ensures CharLiteral(t).value.0 == "" <==> t[..2] == "\\0"
  {
    EscapeKeys();
    if t[0] == '\\' {
      assert t[..2] == ['\\', t[1]];
    } else {
      assert t[..2] != "\\0" by { assert t[..2][0] == t[0]; }
    }
  }

  // ---------------------------------------------------------------- strings

  /** Prefixing a piece of text that reads as w and takes k characters. */
  function Shift(w: string, k: nat, r: Result<(string, nat), (string, nat)>): Result<(string, nat), (string, nat)> {
    match r
    case Ok((w1, k1)) => Ok((w + w1, k + k1))
    case Err((m, k1)) => Err((m, k + k1))
  }

  /** The body of a string literal as lex_string reads the text t after
      its opening quote: the characters up to the closing quote with each
      escape replaced, and how many characters that takes; or the message
      and offset of the first error. */
  function StringText(t: string): Result<(string, nat), (string, nat)>
    requires t != [] && t[|t| - 1] == '\n'
    decreases |t|
  {
    if t[0] == '"' then Ok(("", 0))
    else if t[0] == '\n' then Err(("Unterminated string literal", 0))
    else if t[0] == '\\' then
      if t[1] in Escapes then Shift(Escapes[t[1]], 2, StringText(t[2..]))
      else Err(("Unknown escape character", 1))
    else Shift([t[0]], 1, StringText(t[1..]))
  }

  /** A string body that reads successfully ends on its closing quote. */
  lemma {:induction false} StringTextEnds(t: string)
    requires t != [] && t[|t| - 1] == '\n' && StringText(t).Ok?
    ensures StringText(t).value.1 < |t| && t[StringText(t).value.1] == '"'
    decreases |t|
  {
    if t[0] == '"' {
    } else if t[0] == '\\' {
      StringTextEnds(t[2..]);
    } else {
      StringTextEnds(t[1..]);
    }
  }

  /** One turn of the loop of lex_string inside a line, by the character at
      the cursor: a newline or an unknown escape is an error, an escape
      appends its replacement, any other character appends itself. */
  lemma StringTurnInLine(lines: seq<string>, s: LexState)
    requires LinesOk(lines) && StateOk(lines, s) && InLine(lines, s)
    ensures var t := Rest(lines, s);
      && (t[0] == '\n' ==> StringTurnAt(lines, s) == Err(SyntaxHere(s, "Unterminated string literal")))
      && (t[0] == '\\' ==> |t| > 1)
      && (t[0] == '\\' && |t| > 1 && t[1] in Escapes ==>
           var s2 := s.(column := s.column + 2);
           StringTurnAt(lines, s) == Ok((Escapes[t[1]], s2)) && StateOk(lines, s2) && InLine(lines, s2) && Rest(lines, s2) == t[2..])
      && (t[0] == '\\' && |t| > 1 && t[1] !in Escapes ==>
           StringTurnAt(lines, s) == Err(SyntaxHere(s.(column := s.column + 1), "Unknown escape character")))
      && (t[0] != '\n' && t[0] != '\\' ==>
           var s1 := s.(column := s.column + 1);
           StringTurnAt(lines, s) == Ok(([t[0]], s1)) && StateOk(lines, s1) && InLine(lines, s1) && Rest(lines, s1) == t[1..])
  {
    RestEnds(lines, s);
    var t := Rest(lines, s);
    if t[0] != '\n' {
      StepInLine(lines, s);
      if t[0] == '\\' && t[1] in Escapes {
        StepInLine(lines, s.(column := s.column + 1));
      }
    }
  }

  /** The loop of lex_string, started at cursor s with text acc, gives rb
      when the text after s reads as b: on success acc and the body, with the
      cursor on the closing quote; otherwise the error at its offset. */
  predicate BodyReads(rb: Result<(string, LexState), Errors.Error>, b: Result<(string, nat), (string, nat)>, s: LexState, acc: string) {
    && (b.Ok? ==> rb == Ok((acc + b.value.0, s.(column := s.column + b.value.1))))
    && (b.Err? ==> rb == Err(SyntaxHere(s.(column := s.column + b.error.1), b.error.0)))
  }

  /** A turn that reads k characters as p, followed by text that reads as b. */
  lemma BodyReadsShift(rb: Result<(string, LexState), Errors.Error>, b: Result<(string, nat), (string, nat)>,
                       s: LexState, s1: LexState, k: nat, acc: string, p: string)
    requires s1 == s.(column := s.column + k) && BodyReads(rb, b, s1, acc + p)
    ensures BodyReads(rb, Shift(p, k, b), s, acc)
  {
    if b.Ok? {
      assert acc + p + b.value.0 == acc + (p + b.value.0);
    }
  }

  /** A turn of the loop of lex_string that succeeds hands the rest of the
      loop the cursor and text after it; one that fails ends the loop. */
  lemma StringBodyStep(lines: seq<string>, s: LexState, acc: string)
    requires LinesOk(lines) && StateOk(lines, s) && InLine(lines, s) && Rest(lines, s)[0] != '"'
    ensures var turn := StringTurnAt(lines, s);
      && (turn.Ok? ==> StringBodyAt(lines, s, acc) == StringBodyAt(lines, turn.value.1, acc + turn.value.0))
      && (turn.Err? ==> StringBodyAt(lines, s, acc) == Err(turn.error))
  {
  }

  /** Inside a line, the loop of lex_string appends what StringText reads on
      the rest of the line and stops on the closing quote, or fails where
      StringText does. */
  lemma {:induction false} StringBodyInLine(lines: seq<string>, s: LexState, acc: string)
    requires LinesOk(lines) && StateOk(lines, s) && InLine(lines, s)
    ensures var t := Rest(lines, s);
      t != [] && t[|t| - 1] == '\n' && BodyReads(StringBodyAt(lines, s, acc), StringText(t), s, acc)
    decreases |Cur(lines, s)| - s.column
  {
    RestEnds(lines, s);
    var t := Rest(lines, s);
    if t[0] == '"' {
      assert acc + "" == acc;
    } else {
      StringTurnInLine(lines, s);
      StringBodyStep(lines, s, acc);
      if t[0] == '\\' && t[1] in Escapes {
        var s2 := s.(column := s.column + 2);
        StringBodyInLine(lines, s2, acc + Escapes[t[1]]);
        BodyReadsShift(StringBodyAt(lines, s, acc), StringText(t[2..]), s, s2, 2, acc, Escapes[t[1]]);
      } else if t[0] != '\n' && t[0] != '\\' {
        var s1 := s.(column := s.column + 1);
        StringBodyInLine(lines, s1, acc + [t[0]]);
        BodyReadsShift(StringBodyAt(lines, s, acc), StringText(t[1..]), s, s1, 1, acc, [t[0]]);
      }
    }
  }

  /** lex_string is its opening quote, the loop, and the closing quote the
      loop stops on. */
  lemma StringClose(lines: seq<string>, s: LexState)
    requires LinesOk(lines) && StateOk(lines, s) && PeekAt(lines, s) == Ok('"')
    ensures var a := AfterFirst(lines, s);
      InLine(lines, a) &&
      var rb := StringBodyAt(lines, a, "");
      && (rb.Ok? ==> var e := rb.value.1.(column := rb.value.1.column + 1);
            StringAt(lines, s) == Ok((Token(StringConst, rb.value.0, LocAt(e, s.column)), e)))
      && (rb.Err? ==> StringAt(lines, s) == Err(rb.error))
  {
    FirstInLine(lines, s, '"');
    var rb := StringBodyAt(lines, AfterFirst(lines, s), "");
    if rb.Ok? {
      StepInLine(lines, rb.value.1);
    }
  }

  /** The string literal that the text after the opening quote reads as,
      started at the cursor a after that quote. */
  predicate LiteralReads(r: Result<(Token, LexState), Errors.Error>, b: Result<(string, nat), (string, nat)>, a: LexState, startCol: int) {
    && (b.Ok? ==> var e := a.(column := a.column + b.value.1 + 1);
          r == Ok((Token(StringConst, b.value.0, LocAt(e, startCol)), e)))
    && (b.Err? ==> r == Err(SyntaxHere(a.(column := a.column + b.error.1), b.error.0)))
  }

  lemma LiteralReadsClose(r: Result<(Token, LexState), Errors.Error>, rb: Result<(string, LexState), Errors.Error>,
                          b: Result<(string, nat), (string, nat)>, a: LexState, startCol: int)
    requires BodyReads(rb, b, a, "")
    requires rb.Ok? ==> var e := rb.value.1.(column := rb.value.1.column + 1);
      r == Ok((Token(StringConst, rb.value.0, LocAt(e, startCol)), e))
    requires rb.Err? ==> r == Err(rb.error)
    ensures LiteralReads(r, b, a, startCol)
  {
    if b.Ok? {
      assert "" + b.value.0 == b.value.0;
    }
  }

  /** The result of lex_string, which StringText describes on the rest of
      the line after the opening quote: on success the token at the opening
      quote and the cursor after the closing one, otherwise the error at the
      offending character. */
  lemma StringLexeme(lines: seq<string>, s: LexState)
    requires LinesOk(lines) && StateOk(lines, s) && PeekAt(lines, s) == Ok('"')
    ensures var a := AfterFirst(lines, s);
      InLine(lines, a) &&
      var t := Rest(lines, a);
      t != [] && t[|t| - 1] == '\n' && LiteralReads(StringAt(lines, s), StringText(t), a, s.column)
  {
    StringClose(lines, s);
    var a := AfterFirst(lines, s);
    StringBodyInLine(lines, a, "");
    LiteralReadsClose(StringAt(lines, s), StringBodyAt(lines, a, ""), StringText(Rest(lines, a)), a, s.column);
  }

  /** How a character is written inside a string literal so that it reads
      back: the quote, the backslash and the newline as escapes, anything
      else as itself. */
  function QuoteChar(c: char): string {
    if c == '"' then "\\\"" else if c == '\\' then "\\\\" else if c == '\n' then "\\n" else [c]
  }

  /** A written character is itself, or a backslash and an escape that
      stands for it. */
  lemma QuoteCharReads(c: char)
    ensures |QuoteChar(c)| == 1 ==> QuoteChar(c) == [c] && c != '"' && c != '\\' && c != '\n'
    ensures |QuoteChar(c)| != 1 ==>
      && |QuoteChar(c)| == 2 && QuoteChar(c)[0] == '\\'
      && QuoteChar(c)[1] in Escapes && Escapes[QuoteChar(c)[1]] == [c]
  {
  }

  /** The body of a string literal that reads as w. */
  function Quote(w: string): string {
    if w == [] then [] else QuoteChar(w[0]) + Quote(w[1..])
  }

  /** Reading a written character and then the text t1 after it. */
  lemma StringTextQuoteChar(c: char, t1: string)
    requires t1 != [] && t1[|t1| - 1] == '\n'
    ensures var t := QuoteChar(c) + t1;
      t[|t| - 1] == '\n' && StringText(t) == Shift([c], |QuoteChar(c)|, StringText(t1))
  {
    var q := QuoteChar(c);
    var t := q + t1;
    QuoteCharReads(c);
    assert t[|t| - 1] == t1[|t1| - 1];
    if |q| == 2 {
      assert t[0] == q[0] && t[1] == q[1] && t[2..] == t1;
    } else {
      assert t[0] == c && t[1..] == t1;
    }
  }

  /** Writing one more character in front of a body x that reads as v. */
  lemma QuoteCharPrefix(c: char, x: string, rest: string, v: string)
    requires rest != [] && rest[|rest| - 1] == '\n'
    requires StringText(x + ['"'] + rest) == Ok((v, |x|))
    ensures var t := QuoteChar(c) + x + ['"'] + rest;
      t[|t| - 1] == '\n' && StringText(t) == Ok(([c] + v, |QuoteChar(c) + x|))
  {
    var t1 := x + ['"'] + rest;
    assert t1[|t1| - 1] == rest[|rest| - 1];
    StringTextQuoteChar(c, t1);
    assert QuoteChar(c) + x + ['"'] + rest == QuoteChar(c) + t1;
  }

  /** Every string has a literal: its Quote, closed by a quote, reads back
      as the string, whatever follows on the line. */
  lemma {:induction false} QuoteReadsBack(w: string, rest: string)
    requires rest != [] && rest[|rest| - 1] == '\n'
    ensures var t := Quote(w) + ['"'] + rest;
      t[|t| - 1] == '\n' && StringText(t) == Ok((w, |Quote(w)|))
  {
    if w == [] {
      assert Quote(w) + ['"'] + rest == ['"'] + rest;
    } else {
      QuoteReadsBack(w[1..], rest);
      QuoteCharPrefix(w[0], Quote(w[1..]), rest, w[1..]);
      assert [w[0]] + w[1..] == w;
    }
  }

  // ---------------------------------------------------------------- symbols

  /** The symbols of one character that lex_symbol has a case for, and the
      first characters of its two-character symbols. */
  const SingleSymbols: set<char> := {'(', ')', '{', '}', '[', ']', ',', ';', '+', '-', '%', '^', '.', '*', '/'}
  const CompareStarts: set<char> := {'=', '!', '<', '>'}

  /** How a token changes the bracket depth. */
  function ParenDelta(ty: TokenType): int {
    if ty == LParen || ty == LBracket then 1
    else if ty == RParen || ty == RBracket then -1
    else 0
  }

  /** What the switch of lex_symbol gives for a symbol whose first
      character is c, at a cursor a followed by the text t: a symbol that
      printing its type spells out, made of c and at most the '=' after it,
      which '=', '<', '>' and '!' take when there is one, with the bracket
      depth moved by parentheses and brackets; an error for '!' without '='
      and for a character with no case. */
  predicate SymbolReads(r: Result<(TokenType, LexState), Errors.Error>, c: char, t: string, a: LexState)
    requires t != []
  {
    && (r.Err? <==> (c !in SingleSymbols && c !in CompareStarts) || (c == '!' && t[0] != '='))
    && (r.Err? ==> r.error == SyntaxHere(a, if c == '!' then "Expected '='" else "Unknown symbol"))
    && (r.Ok? ==>
          var k := if c in CompareStarts && t[0] == '=' then 1 else 0;
          && StrOfType(r.value.0) == (if k == 1 then [c, '='] else [c])
          && r.value.1 == a.(column := a.column + k, parenCount := a.parenCount + ParenDelta(r.value.0)))
  }

  lemma BracketSymbolKind(lines: seq<string>, a: LexState, c: char)
    requires LinesOk(lines) && StateOk(lines, a) && InLine(lines, a) && c in {'(', ')', '[', ']'}
    ensures Rest(lines, a) != [] && SymbolReads(SymbolKind(lines, a, c), c, Rest(lines, a), a)
  {
  }

  lemma PunctuationKind(lines: seq<string>, a: LexState, c: char)
    requires LinesOk(lines) && StateOk(lines, a) && InLine(lines, a) && c in {'{', '}', ',', ';'}
    ensures Rest(lines, a) != [] && SymbolReads(SymbolKind(lines, a, c), c, Rest(lines, a), a)
  {
  }

  lemma ArithmeticKind(lines: seq<string>, a: LexState, c: char)
    requires LinesOk(lines) && StateOk(lines, a) && InLine(lines, a) && c in {'+', '-', '%', '^'}
    ensures Rest(lines, a) != [] && SymbolReads(SymbolKind(lines, a, c), c, Rest(lines, a), a)
  {
  }

  lemma OperatorKind(lines: seq<string>, a: LexState, c: char)
    requires LinesOk(lines) && StateOk(lines, a) && InLine(lines, a) && c in {'.', '*', '/'}
    ensures Rest(lines, a) != [] && SymbolReads(SymbolKind(lines, a, c), c, Rest(lines, a), a)
  {
  }

  lemma EqualKind(lines: seq<string>, a: LexState)
    requires LinesOk(lines) && StateOk(lines, a) && InLine(lines, a)
    ensures Rest(lines, a) != [] && SymbolReads(SymbolKind(lines, a, '='), '=', Rest(lines, a), a)
  {
    if Rest(lines, a)[0] == '=' {
      StepInLine(lines, a);
    }
  }

  lemma BangKind(lines: seq<string>, a: LexState)
    requires LinesOk(lines) && StateOk(lines, a) && InLine(lines, a)
    ensures Rest(lines, a) != [] && SymbolReads(SymbolKind(lines, a, '!'), '!', Rest(lines, a), a)
  {
    if Rest(lines, a)[0] == '=' {
      StepInLine(lines, a);
    }
  }

  lemma LessKind(lines: seq<string>, a: LexState)
    requires LinesOk(lines) && StateOk(lines, a) && InLine(lines, a)
    ensures Rest(lines, a) != [] && SymbolReads(SymbolKind(lines, a, '<'), '<', Rest(lines, a), a)
  {
    if Rest(lines, a)[0] == '=' {
      StepInLine(lines, a);
    }
  }

  lemma GreaterKind(lines: seq<string>, a: LexState)
    requires LinesOk(lines) && StateOk(lines, a) && InLine(lines, a)
    ensures Rest(lines, a) != [] && SymbolReads(SymbolKind(lines, a, '>'), '>', Rest(lines, a), a)
  {
    if Rest(lines, a)[0] == '=' {
      StepInLine(lines, a);
    }
  }

  lemma OtherSymbolKind(lines: seq<string>, a: LexState, c: char)
    requires LinesOk(lines) && StateOk(lines, a) && InLine(lines, a) && c !in SingleSymbols && c !in CompareStarts
    ensures Rest(lines, a) != [] && SymbolReads(SymbolKind(lines, a, c), c, Rest(lines, a), a)
  {
  }

  /** The switch of lex_symbol at a cursor a inside a line, after the
      symbol's first character c, is as SymbolReads describes. */
  lemma SymbolKindText(lines: seq<string>, a: LexState, c: char)
    requires LinesOk(lines) && StateOk(lines, a) && InLine(lines, a)
    ensures Rest(lines, a) != [] && SymbolReads(SymbolKind(lines, a, c), c, Rest(lines, a), a)
  {
    if c in {'(', ')', '[', ']'} {
      BracketSymbolKind(lines, a, c);
    } else if c in {'{', '}', ',', ';'} {
      PunctuationKind(lines, a, c);
    } else if c in {'+', '-', '%', '^'} {
      ArithmeticKind(lines, a, c);
    } else if c in {'.', '*', '/'} {
      OperatorKind(lines, a, c);
    } else if c == '=' {
      EqualKind(lines, a);
    } else if c == '!' {
      BangKind(lines, a);
    } else if c == '<' {
      LessKind(lines, a);
    } else if c == '>' {
      GreaterKind(lines, a);
    } else {
      OtherSymbolKind(lines, a, c);
    }
  }

  /** The result of lex_symbol at a cursor whose next character c is not a
      newline or the end of input: the symbol SymbolReads describes on the
      rest of the line after c, as a token with an empty lexeme located from
      c to the cursor after the symbol, or the error SymbolReads gives. */
  lemma SymbolLexeme(lines: seq<string>, s: LexState, c: char)
    requires LinesOk(lines) && StateOk(lines, s) && PeekAt(lines, s) == Ok(c) && c != '\0' && c != '\n'
    ensures var a := AfterFirst(lines, s);
      var k := SymbolKind(lines, a, c);
      var r := SymbolAt(lines, s);
      && StateOk(lines, a) && InLine(lines, a)
      && Rest(lines, a) != [] && SymbolReads(k, c, Rest(lines, a), a)
      && (r.Err? <==> k.Err?)
      && (r.Err? ==> r.error == k.error)
      && (r.Ok? ==> r.value == (Token(k.value.0, "", LocAt(k.value.1, s.column)), k.value.1))
  {
    FirstInLine(lines, s, c);
    SymbolKindText(lines, AfterFirst(lines, s), c);
  }

  // ---------------------------------------------------------------- advance

  /** At the end of input advance reads the end once more and returns Eof
      on the line after the last one, at column 1. */
  lemma AdvanceEnd(lines: seq<string>, s: LexState)
    requires LinesOk(lines) && StateOk(lines, s) && AtEnd(lines, s)
    ensures AdvanceAt(lines, s) == Ok((Token(Eof, "", Location(s.line + 1, 1, 1)), s.(line := s.line + 1, column := 1)))
  {
  }

  /** After Eof the cursor is at column 1 of the last line again, which is
      not the end of input: a further advance reads the last line anew. */
  lemma AfterEnd(lines: seq<string>, s: LexState)
    requires LinesOk(lines) && StateOk(lines, s) && AtEnd(lines, s)
    ensures var e := AdvanceAt(lines, s).value.1;
      && StateOk(lines, e) && InLine(lines, e) && !AtEnd(lines, e)
      && PeekAt(lines, e) == Ok(lines[|lines| - 1][0])
  {
    AdvanceEnd(lines, s);
    assert LineOk(lines[|lines| - 1]);
  }

  /** A newline outside brackets is a Newline token "\n" that starts where
      the newline was and ends after it. */
  lemma AdvanceNewline(lines: seq<string>, s: LexState)
    requires LinesOk(lines) && StateOk(lines, s) && PeekAt(lines, s) == Ok('\n') && s.parenCount == 0
    ensures var r := AdvanceAt(lines, s);
      && r.Ok? && r.value.0.ty == Newline && r.value.0.lexeme == "\n"
      && r.value.1 == AfterFirst(lines, s) && r.value.1.parenCount == 0
      && r.value.0.loc == LocAt(r.value.1, s.column)
      && (InLine(lines, s) ==> r.value.0.loc == Location(s.line, s.column, s.column + 1))
  {
  }

  /** Whitespace that is not a Newline token is skipped: advance goes on
      from the next character, which is one fewer to read. */
  lemma AdvanceBlank(lines: seq<string>, s: LexState, c: char)
    requires LinesOk(lines) && StateOk(lines, s) && PeekAt(lines, s) == Ok(c)
    requires IsSpace(c) && !(c == '\n' && s.parenCount == 0)
    ensures var a := AfterFirst(lines, s);
      && StateOk(lines, a) && Remaining(lines, a) < Remaining(lines, s)
      && AdvanceAt(lines, s) == AdvanceAt(lines, a)
  {
  }

  /** Blanks other than newlines inside a line are skipped as a run: advance
      there is advance after the run. */
  lemma AdvanceBlanks(lines: seq<string>, s: LexState, k: nat)
    requires LinesOk(lines) && StateOk(lines, s) && InLine(lines, s)
    requires k < |Rest(lines, s)|
    requires forall i :: 0 <= i < k ==> IsSpace(Rest(lines, s)[i]) && Rest(lines, s)[i] != '\n'
    ensures StateOk(lines, s.(column := s.column + k))
    ensures AdvanceAt(lines, s) == AdvanceAt(lines, s.(column := s.column + k))
  {
    BlanksTo(lines, s, k, s.(column := s.column + k));
  }

  /** AdvanceBlanks, with the cursor after the run named. */
  lemma {:induction false} BlanksTo(lines: seq<string>, s: LexState, k: nat, e: LexState)
    requires LinesOk(lines) && StateOk(lines, s) && InLine(lines, s)
    requires k < |Rest(lines, s)| && e == s.(column := s.column + k)
    requires forall i :: 0 <= i < k ==> IsSpace(Rest(lines, s)[i]) && Rest(lines, s)[i] != '\n'
    ensures StateOk(lines, e)
    ensures AdvanceAt(lines, s) == AdvanceAt(lines, e)
    decreases k, 1
  {
    if k > 0 {
      BlanksToStep(lines, s, k, e);
    }
  }

  /** The first blank of the run, then the rest of it. */
  lemma {:induction false} BlanksToStep(lines: seq<string>, s: LexState, k: nat, e: LexState)
    requires LinesOk(lines) && StateOk(lines, s) && InLine(lines, s)
    requires 0 < k < |Rest(lines, s)| && e == s.(column := s.column + k)
    requires forall i :: 0 <= i < k ==> IsSpace(Rest(lines, s)[i]) && Rest(lines, s)[i] != '\n'
    ensures StateOk(lines, e)
    ensures AdvanceAt(lines, s) == AdvanceAt(lines, e)
    decreases k, 0
  {
    var s1 := s.(column := s.column + 1);
    BlanksShift(lines, s, k);
    AdvanceBlank(lines, s, Rest(lines, s)[0]);
    BlanksTo(lines, s1, k - 1, e);
  }

  /** After the first blank of a run, the rest of the run is ahead. */
  lemma BlanksShift(lines: seq<string>, s: LexState, k: nat)
    requires LinesOk(lines) && StateOk(lines, s) && InLine(lines, s)
    requires 0 < k < |Rest(lines, s)|
    requires forall i :: 0 <= i < k ==> IsSpace(Rest(lines, s)[i]) && Rest(lines, s)[i] != '\n'
    ensures var s1 := s.(column := s.column + 1);
      && PeekAt(lines, s) == Ok(Rest(lines, s)[0]) && IsSpace(Rest(lines, s)[0]) && Rest(lines, s)[0] != '\n'
      && AfterFirst(lines, s) == s1
      && StateOk(lines, s1) && InLine(lines, s1) && k - 1 < |Rest(lines, s1)|
      && (forall i :: 0 <= i < k - 1 ==> IsSpace(Rest(lines, s1)[i]) && Rest(lines, s1)[i] != '\n')
      && s1.(column := s1.column + (k - 1)) == s.(column := s.column + k)
  {
    var t := Rest(lines, s);
    assert IsSpace(t[0]) && t[0] != '\n';
    StepInLine(lines, s);
    var s1 := s.(column := s.column + 1);
    forall i | 0 <= i < k - 1
      ensures IsSpace(Rest(lines, s1)[i]) && Rest(lines, s1)[i] != '\n'
    {
      assert Rest(lines, s1)[i] == t[i + 1];
    }
  }

  /** '#' ends the line as a Newline token with an empty lexeme at the
      line's last column, and leaves the cursor at column 0 of the next line
      number, still on the old line: the following advance reads index -1
      of that line. */
  lemma AdvanceComment(lines: seq<string>, s: LexState)
    requires LinesOk(lines) && StateOk(lines, s) && PeekAt(lines, s) == Ok('#')
    ensures var r := AdvanceAt(lines, s);
      var co := |Cur(lines, s)|;
      && r == Ok((Token(Newline, "", Location(s.line, co, co)), s.(line := s.line + 1, column := 0)))
      && AdvanceAt(lines, r.value.1) == Err(Errors.Undefined(OutOfRange))
  {
    assert LineOk(Cur(lines, s));
  }

  /** Any other character starts a token, which the lexer chooses by it. */
  lemma AdvanceToken(lines: seq<string>, s: LexState, c: char)
    requires LinesOk(lines) && StateOk(lines, s) && PeekAt(lines, s) == Ok(c)
    requires c != '\0' && c != '#' && !IsSpace(c)
    ensures AdvanceAt(lines, s) == TokenAt(lines, s, c)
  {
  }
}
