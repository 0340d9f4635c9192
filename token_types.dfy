/** Token kinds, their printed names and the keyword table
    (compiler/lexer/token_type.h, compiler/lexer/token_type.cpp, token.h). */
module TokenTypes {
  import opened Wrappers
  import opened Locations

  datatype TokenType =
    | Id | IntConst | FloatConst | CharConst | StringConst | BoolConst
      // keywords
    | Internal | External | Var | Let | Fun | Of | True | False | And | Or | Not
    | Int | Float | Char | String | Unit | Bool | If | Then | Else | While
      // symbols
    | Semicolon | Comma | Colon | Dot | LParen | RParen | LCurly | RCurly | LBracket | RBracket
    | Plus | Minus | Star | Slash | Percent | Equal | Caret | Less | Greater
    | LessEqual | GreaterEqual | EqualsEquals | NotEquals
      // utilities
    | Newline | Eof | Error

  datatype Token = Token(ty: TokenType, lexeme: string, loc: Location)

  predicate IsKeywordToken(t: TokenType) {
    t.Internal? || t.External? || t.Var? || t.Let? || t.Fun? || t.Of? || t.True? || t.False? || t.And?
    || t.Or? || t.Not? || t.Int? || t.Float? || t.Char? || t.String? || t.Unit? || t.Bool? || t.If?
    || t.Then? || t.Else? || t.While?
  }

  predicate IsSymbol(t: TokenType) {
    t.Semicolon? || t.Comma? || t.Colon? || t.Dot? || t.LParen? || t.RParen? || t.LCurly? || t.RCurly?
    || t.LBracket? || t.RBracket? || t.Plus? || t.Minus? || t.Star? || t.Slash? || t.Percent? || t.Equal?
    || t.Caret? || t.Less? || t.Greater? || t.LessEqual? || t.GreaterEqual? || t.EqualsEquals? || t.NotEquals?
  }

  /** str_of_type. Bool has no case and falls to the default. */
  function StrOfType(t: TokenType): string {
    match t
    case Id => "Identifier"
    case IntConst => "Int Constant"
    case FloatConst => "Float Constant"
    case CharConst => "Char Constant"
    case StringConst => "String Constant"
    case BoolConst => "Bool Constant"
    case Var => "var"
    case Let => "let"
    case Fun => "fun"
    case Internal => "internal"
    case External => "external"
    case Of => "of"
    case True => "true"
    case False => "false"
    case And => "and"
    case Or => "or"
    case Not => "not"
    case Int => "int"
    case Float => "float"
    case Char => "char"
    case String => "string"
    case Unit => "unit"
    case If => "if"
    case Then => "then"
    case Else => "else"
    case While => "while"
    case Semicolon => ";"
    case Comma => ","
    case Colon => ":"
    case Dot => "."
    case LParen => "("
    case RParen => ")"
    case LCurly => "{"
    case RCurly => "}"
    case LBracket => "["
    case RBracket => "]"
    case Plus => "+"
    case Minus => "-"
    case Star => "*"
    case Slash => "/"
    case Percent => "%"
    case Equal => "="
    case Caret => "^"
    case Less => "<"
    case Greater => ">"
    case LessEqual => "<="
    case GreaterEqual => ">="
    case EqualsEquals => "=="
    case NotEquals => "!="
    case Newline => "Newline"
    case Eof => "Eof"
    case Error => "Error"
    case _ => "Unknown"
  }

  /** The keyword table. */
  const Keywords: map<string, TokenType> := map[
    "var" := Var, "let" := Let, "fun" := Fun, "internal" := Internal, "external" := External,
    "of" := Of, "true" := True, "false" := False, "and" := And, "or" := Or, "not" := Not,
    "int" := Int, "float" := Float, "char" := Char, "string" := String, "bool" := Bool,
    "unit" := Unit, "if" := If, "then" := Then, "else" := Else, "while" := While]

  /** is_keyword: membership in the keyword table. */
  function IsKeyword(s: string): (b: bool)
    ensures b <==> s in Keywords
  {
    s in Keywords
  }

  /** The keyword lexemes, written out. */
  function KeywordLexemes(): set<string> {
    {"var", "let", "fun", "internal", "external", "of", "true", "false", "and", "or", "not",
     "int", "float", "char", "string", "bool", "unit", "if", "then", "else", "while"}
  }

  lemma IsKeywordExactly(s: string)
    ensures IsKeyword(s) <==> s in KeywordLexemes()
  {
  }

  /** Printing a keyword's token gives the keyword back, except for "bool",
      whose token has no case in str_of_type. */
  lemma KeywordPrintsAsItself(s: string)
    requires s in Keywords
    ensures s != "bool" ==> StrOfType(Keywords[s]) == s
    ensures s == "bool" ==> StrOfType(Keywords[s]) == "Unknown"
  {
    if |s| <= 3 {
      ShortKeywordsPrint(s);
    } else if |s| == 4 {
      FourLetterKeywordsPrint(s);
    } else {
      LongKeywordsPrint(s);
    }
  }

  lemma ShortKeywordsPrint(s: string)
    requires s in Keywords && |s| <= 3
    ensures StrOfType(Keywords[s]) == s
  {
  }

  lemma FourLetterKeywordsPrint(s: string)
    requires s in Keywords && |s| == 4
    ensures StrOfType(Keywords[s]) == if s == "bool" then "Unknown" else s
  {
  }

  lemma LongKeywordsPrint(s: string)
    requires s in Keywords && |s| >= 5
    ensures StrOfType(Keywords[s]) == s
  {
  }

  /** No two keywords map to the same token type. */
  lemma {:induction false} KeywordsInjective(s1: string, s2: string)
    requires s1 in Keywords && s2 in Keywords && Keywords[s1] == Keywords[s2]
    ensures s1 == s2
  {
    KeywordPrintsAsItself(s1);
    KeywordPrintsAsItself(s2);
    if s1 != "bool" && s2 != "bool" {
      assert s1 == StrOfType(Keywords[s1]);
    } else {
      assert Keywords[s1] == Bool;
      assert s1 == "bool" && s2 == "bool";
    }
  }

}

/** Reading str_of_type backwards. */
module TokenNames {
  import opened Wrappers
  import opened TokenTypes

  /** The inverse of str_of_type, used to show that distinct token types
      print differently. */
  function TypeOfStr(s: string): Option<TokenType> {
    if |s| == 1 then
      match s[0]
      case ';' => Some(Semicolon)
      case ',' => Some(Comma)
      case ':' => Some(Colon)
      case '.' => Some(Dot)
      case '(' => Some(LParen)
      case ')' => Some(RParen)
      case '{' => Some(LCurly)
      case '}' => Some(RCurly)
      case '[' => Some(LBracket)
      case ']' => Some(RBracket)
      case '+' => Some(Plus)
      case '-' => Some(Minus)
      case '*' => Some(Star)
      case '/' => Some(Slash)
      case '%' => Some(Percent)
      case '=' => Some(Equal)
      case '^' => Some(Caret)
      case '<' => Some(Less)
      case '>' => Some(Greater)
      case _ => None
    else if |s| == 2 && s[1] == '=' then
      match s[0]
      case '<' => Some(LessEqual)
      case '>' => Some(GreaterEqual)
      case '=' => Some(EqualsEquals)
      case '!' => Some(NotEquals)
      case _ => None
    else
      match s
      case "Identifier" => Some(Id)
      case "Int Constant" => Some(IntConst)
      case "Float Constant" => Some(FloatConst)
      case "Char Constant" => Some(CharConst)
      case "String Constant" => Some(StringConst)
      case "Bool Constant" => Some(BoolConst)
      case "var" => Some(Var)
      case "let" => Some(Let)
      case "fun" => Some(Fun)
      case "internal" => Some(Internal)
      case "external" => Some(External)
      case "of" => Some(Of)
      case "true" => Some(True)
      case "false" => Some(False)
      case "and" => Some(And)
      case "or" => Some(Or)
      case "not" => Some(Not)
      case "int" => Some(Int)
      case "float" => Some(Float)
      case "char" => Some(Char)
      case "string" => Some(String)
      case "unit" => Some(Unit)
      case "Unknown" => Some(Bool)
      case "if" => Some(If)
      case "then" => Some(Then)
      case "else" => Some(Else)
      case "while" => Some(While)
      case "Newline" => Some(Newline)
      case "Eof" => Some(Eof)
      case "Error" => Some(Error)
      case _ => None
  }

  /** Every token type's name reads back as that token type, so str_of_type
      is injective: the "Expected ..." messages name the token unambiguously. */
  lemma StrOfTypeInjective(t: TokenType)
    ensures TypeOfStr(StrOfType(t)) == Some(t)
  {
    if IsKeywordToken(t) {
      KeywordNamesReadBack(t);
    } else if IsSymbol(t) {
      SymbolNamesReadBack(t);
    } else {
      OtherNamesReadBack(t);
    }
  }

  lemma KeywordNamesReadBack(t: TokenType)
    requires IsKeywordToken(t)
    ensures TypeOfStr(StrOfType(t)) == Some(t)
  {
  }

  lemma SymbolNamesReadBack(t: TokenType)
    requires IsSymbol(t)
    ensures TypeOfStr(StrOfType(t)) == Some(t)
  {
    if t.LessEqual? || t.GreaterEqual? || t.EqualsEquals? || t.NotEquals? {
      TwoCharNamesReadBack(t);
    } else {
      OneCharNamesReadBack(t);
    }
  }

  lemma TwoCharNamesReadBack(t: TokenType)
    requires t.LessEqual? || t.GreaterEqual? || t.EqualsEquals? || t.NotEquals?
    ensures TypeOfStr(StrOfType(t)) == Some(t)
  {
  }

  lemma OneCharNamesReadBack(t: TokenType)
    requires IsSymbol(t) && !(t.LessEqual? || t.GreaterEqual? || t.EqualsEquals? || t.NotEquals?)
    ensures TypeOfStr(StrOfType(t)) == Some(t)
  {
    if t.Semicolon? || t.Comma? || t.Colon? || t.Dot? || t.LParen? || t.RParen? {
      PunctuationNamesReadBack(t);
    } else if t.LCurly? || t.RCurly? || t.LBracket? || t.RBracket? || t.Plus? || t.Minus? {
      BracketNamesReadBack(t);
    } else {
      OperatorNamesReadBack(t);
    }
  }

  lemma PunctuationNamesReadBack(t: TokenType)
    requires t.Semicolon? || t.Comma? || t.Colon? || t.Dot? || t.LParen? || t.RParen?
    ensures TypeOfStr(StrOfType(t)) == Some(t)
  {
  }

  lemma BracketNamesReadBack(t: TokenType)
    requires t.LCurly? || t.RCurly? || t.LBracket? || t.RBracket? || t.Plus? || t.Minus?
    ensures TypeOfStr(StrOfType(t)) == Some(t)
  {
  }

  lemma OperatorNamesReadBack(t: TokenType)
    requires t.Star? || t.Slash? || t.Percent? || t.Equal? || t.Caret? || t.Less? || t.Greater?
    ensures TypeOfStr(StrOfType(t)) == Some(t)
  {
  }

  lemma OtherNamesReadBack(t: TokenType)
    requires !IsKeywordToken(t) && !IsSymbol(t)
    ensures TypeOfStr(StrOfType(t)) == Some(t)
  {
  }
}
