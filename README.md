# arco front end and semantic analysis, modelled in Dafny

arco is a small compiler for a statement-and-expression language with
`let`/`var` bindings, functions, `external` declarations, blocks, `if`,
`while` and a variadic `printf`. This project models the part of it that
runs before code generation and proves properties of that model:

- **Source file** (`source_file.dfy`): the line store with its `"\n"`
  terminators and the empty-file padding, `get_line` and `length`.
- **Diagnostics** (`diagnostics.dfy`): the three-line layout of
  `token_message` — position header, the source line, and a caret line under
  the offending columns.
- **Tokens** (`token_types.dfy`): token types, `str_of_type`, the keyword
  table and `is_keyword`.
- **Lexer** (`lexer.dfy`, `lexer_props.dfy`, `lexer_tests.dfy`): a `Lexer`
  class whose cursor (line, column, bracket depth, current line) is updated by
  `get_char` and `advance`, each method proved equal to a specification
  function over the stored lines; properties of numbers, identifiers and
  keywords, char and string literals with their escapes, one- and
  two-character symbols, newlines inside and outside brackets, comments and
  the end of input; and the lexer's unit tests as lemmas.
- **AST** (`ast.dfy`): expression and statement trees with the out-fields the
  passes fill in (types, owning scopes), operator tables and their printed
  names, and the literal constructors.
- **Parser** (`parser.dfy`, `parser_props.dfy`, `stmt_props.dfy`,
  `parser_tests.dfy`): a `Parser` class over a token cursor whose methods are
  proved equal to recursive-descent specification functions; precedence
  climbing (tighter operators nest, equal ones associate to the left, `%` is
  never consumed), call arguments, blocks, `if`/`while`, every statement
  form, `parse_file`, and the parser's unit tests as lemmas.
- **Scopes** (`symbols.dfy`, `scope.dfy`): symbols and their kind names, and
  a `ScopeTable` class holding all `Scope` objects in an arena, with
  `resolve`, `get_symbol`, the `add_*` operations, `is_function` and
  `can_be_reassigned`.
- **Module collector** (`module_collector.dfy`) and **name resolution**
  (`name_resolution.dfy`): the two semantic passes as specification functions
  and as classes that mutate the scope table, with the scope cursor saved and
  restored around blocks and functions.
- **Types and type checking** (`types.dfy`, `type_rules.dfy`,
  `type_checker.dfy`, `type_checker_props.dfy`, `formats.dfy`): type
  printing and its injectivity, the interning environment (`add_type`), one
  typing rule per node kind, the `printf` format-string validator, and a
  `TypeChecker` class that writes the type out-fields and symbol slots.
- Shared pieces: `wrappers.dfy` (Option, Result), `strings.dfy` (decimal
  printing, `stoi`), `locations.dfy`, `errors.dfy` (each error class as a
  value: its kind, the exact message it hands to `token_message`, and its
  location; `Internal` for the C++ `runtime_error`s; `Undefined` for reads
  the C++ leaves undefined).

The model follows the code as written, including these places where its
behaviour is surprising:

- `not` requires a bool operand but then falls into the numeric check, so
  `not b` is always a type error (`TypeRules.UnaryRule`).
- `^` (concatenation) checks for two strings but never assigns a type
  (`TypeRules.ConcatRule`, `TypeRules.BinaryRuleTypes`).
- `%%` in a format string is not an escape: the second `%` starts a
  directive of its own (`Formats.PercentPercentD`,
  `Formats.TrailingPercentPercent`).
- `%` is a binary operator token without a precedence level, so it ends an
  expression (`ParserProps.ModuloIsNotParsed`).
- `Mul` prints as `"+"` (`Ast.BinaryOpPrintsAsToken`), and the token type
  `Bool` prints as `"Unknown"` (`TokenTypes.KeywordPrintsAsItself`).
- An `if` without `else` has the type of its branch, which must be unit.

## Model

| member | source | states |
|---|---|---|
| Strings.NatToString | compiler/errors/error_msg.h:9-12 | std::to_string of a non-negative number is a non-empty digit string with no leading zero, one digit exactly below 10 |
| Strings.IntToString | compiler/errors/error_msg.h:9-12 | definition, no contract of its own; its properties are stated by `Strings.NatToString`, `Strings.DecimalValueOfNatToString` and `Strings.NatToStringInjective` (a sign and the digits of the magnitude) and `Diagnostics.HeaderStartsWithPosition` |
| Strings.DecimalValueOfNatToString | compiler/errors/error_msg.h:9-12 | reading the printed digits back gives the number again (the rendering is a right inverse of decimal reading) |
| Strings.NatToStringInjective | compiler/errors/error_msg.h:9-12 | distinct line and column numbers print as distinct strings |
| Strings.Repeat | compiler/errors/error_msg.h:12-14 | std::string(n, c) has length n and every character is c |
| SourceFiles.Terminated | compiler/driver/source_file.cpp:21-24 | one stored line per input line, in order, each being the input line followed by "\n" |
| SourceFiles.FileLinesShape | compiler/driver/source_file.cpp:11-16 | after reading a file the line list is never empty, every line ends in "\n", and a non-empty file keeps its line count |
| SourceFiles.LineAt | compiler/driver/source_file.cpp:26-28 | lines.at(n-1) succeeds exactly for 1 <= n <= count and then yields the n-th line; otherwise it is the out_of_range error |
| SourceFiles.SourceFile.FromLines | compiler/driver/source_file.cpp:19-24 | the vector constructor names the file "testing" and stores the terminated lines in order |
| SourceFiles.SourceFile.FromFile | compiler/driver/source_file.cpp:4-17 | the reading constructor keeps the file name and stores the terminated lines, or the single line "\n" for an empty file |
| SourceFiles.SourceFile.GetLine | compiler/driver/source_file.cpp:26-28 | get_line(n) of the stored lines: defined exactly for 1 <= n <= length(), and then the n-th line |
| SourceFiles.NoLinesNoFirstLine | compiler/driver/source_file.cpp:19-28 | the vector constructor on no lines stores none, and then get_line(1) is the out_of_range error |
| SourceFiles.SourceFile.Length | compiler/driver/source_file.cpp:30-32 | length() is the number of stored lines |
| Diagnostics.TokenMessage | compiler/errors/error_msg.h:7-16 | token_message is defined exactly when the line exists and 1 <= start column <= end column, and is then header + gutter + source line + caret line |
| Diagnostics.HeaderStartsWithPosition | compiler/errors/error_msg.h:9-10 | the first line is filename:line:column: message followed by "\n", from the start position |
| Diagnostics.CaretsUnderColumns | compiler/errors/error_msg.h:12-14 | the caret line is as wide as the gutter plus the covered columns; it holds only blanks and the bar before the start column, a caret under each column from start to end - 1, and ends in "\n" |
| Diagnostics.Render | compiler/errors/error_msg.h:7-16 | a diagnostic raised in a file renders exactly when its line exists in the file and its columns are ordered |
| Symbols.SymbolNamesDistinct | compiler/sema/symbol.cpp:4-18 | string_of_symbol_type gives a non-empty name ("variable", "function", "module", "function parameter"), and two kinds get the same name exactly when they are the same kind |
| Symbols.StringOfSymbolType | compiler/sema/symbol.cpp:4-18 | definition, no contract of its own; its properties are stated by `Symbols.SymbolNamesDistinct` |
| Scopes.Chain | compiler/sema/scope.cpp:10-19 | the parent chain starts at the scope itself, follows each parent link and ends at a scope without a parent |
| Scopes.ResolveIsNearest | compiler/sema/scope.cpp:10-19 | resolve returns the binding of the first scope on the parent chain whose own table holds the name |
| Scopes.Resolve | compiler/sema/scope.cpp:10-19 | definition, no contract of its own; its properties are stated by `Scopes.ResolveIsNearest`, `Scopes.ResolveNone`, `Scopes.InnermostWins`, `Scopes.AddKeepsOtherNames` and `Scopes.ResolveStable` |
| Scopes.ResolveNone | compiler/sema/scope.cpp:10-19 | resolve finds nothing exactly when no scope on the chain holds the name |
| Scopes.GetSymbol | compiler/sema/scope.cpp:21-30 | get_symbol succeeds exactly when resolve does and returns the same symbol; otherwise it is the runtime error with its fixed message |
| Scopes.Owner | compiler/sema/scope.cpp:21-30 | the scope get_symbol's walk stops at exists exactly when resolve succeeds, is the scope itself or an ancestor, and holds the binding resolve returns |
| Scopes.AddSymbol | compiler/sema/scope.cpp:32-55 | add_var, add_function and add_param raise DoubleDefinition(name, loc) exactly when this scope's own table holds the name; on success exactly one entry is added to that table and every other scope is unchanged |
| Scopes.AddModule | compiler/sema/scope.cpp:39-41 | add_module never fails; an existing entry under the name is kept unchanged, otherwise a module symbol is added; other scopes are unchanged |
| Scopes.InnermostWins | compiler/sema/scope.cpp:10-48 | after a successful add, resolving the name from that scope yields the new symbol |
| Scopes.ShadowingSucceeds | compiler/sema/scope.cpp:32-55 | a name bound only in an ancestor can be added, and then the new binding shadows the outer one |
| Scopes.AddKeepsOtherNames | compiler/sema/scope.cpp:36-54 | an add changes the resolution of no other name from any scope |
| Scopes.SetSymbolType | compiler/typing/type_checker.cpp:120-123 | writing a symbol's type slot through get_symbol succeeds exactly when the name resolves, and afterwards resolve yields the same symbol with the new slot |
| Scopes.IsFunction | compiler/sema/scope.cpp:57-59 | is_function is defined exactly when the name resolves, and is true exactly when the nearest binding is a function symbol |
| Scopes.CanBeReassigned | compiler/sema/scope.cpp:61-66 | can_be_reassigned is defined exactly when the name resolves, and is true exactly for a non-const variable or a parameter; when false the binding is a function, a module or a const variable |
| Scopes.ResolveStable | compiler/sema/scope.cpp:10-19 | scopes created later do not change what resolve finds from an existing scope |
| Scopes.ScopeTable.NewScope | compiler/sema/scope.cpp:7-8 | a new scope of the given kind is allocated with the given parent and an empty table; older scopes are unchanged |
| Scopes.ScopeTable.Lookup | compiler/sema/scope.cpp:10-19 | the while loop over parent links returns exactly Resolve |
| Scopes.ScopeTable.FindOwner | compiler/sema/scope.cpp:21-30 | the loop stops at exactly the Owner scope |
| Scopes.ScopeTable.Get | compiler/sema/scope.cpp:21-30 | get_symbol's loop returns exactly GetSymbol |
| Scopes.ScopeTable.SetType | compiler/typing/type_checker.cpp:120-123 | assigning the type slot of the symbol get_symbol returns updates the table as SetSymbolType states, or leaves it unchanged with the runtime error |
| Scopes.ScopeTable.Add | compiler/sema/scope.cpp:32-55 | the shared insertion step updates the table as AddSymbol states, or leaves it unchanged with DoubleDefinition |
| Scopes.ScopeTable.AddVar | compiler/sema/scope.cpp:43-48 | add_var inserts a variable symbol keeping is_const, or raises DoubleDefinition at the declaration and changes nothing |
| Scopes.ScopeTable.AddFunction | compiler/sema/scope.cpp:32-37 | add_function inserts a function symbol for the signature id, or raises DoubleDefinition and changes nothing |
| Scopes.ScopeTable.AddParam | compiler/sema/scope.cpp:50-55 | add_param inserts a parameter symbol, or raises DoubleDefinition at the argument's own location and changes nothing |
| Scopes.ScopeTable.AddModuleEntry | compiler/sema/scope.cpp:39-41 | add_module updates the table as AddModule states |
| Scopes.ScopeTable.IsFunctionAt | compiler/sema/scope.cpp:57-59 | is_function returns exactly IsFunction |
| Scopes.ScopeTable.CanBeReassignedAt | compiler/sema/scope.cpp:61-66 | can_be_reassigned returns exactly CanBeReassigned |
| Scopes.ScopeTable.constructor | compiler/sema/scope.cpp:7-8 | a fresh table holds one module scope with no parent and no symbols |
| Ast.UnaryOpOfType | compiler/AST/expr_nodes.h:23-30 | unary_op_of_type succeeds exactly for the Plus, Minus and Not tokens; any other token raises "Invalid unary operand" |
| Ast.UnaryOpPrintsAsToken | compiler/AST/expr_nodes.cpp:8-16 | str_of_unary_op(unary_op_of_type(t)) is str_of_type(t) for Plus, Minus and Not |
| Ast.StrOfUnaryOp | compiler/AST/expr_nodes.cpp:8-16 | definition, no contract of its own; its properties are stated by `Ast.UnaryOpPrintsAsToken` |
| Ast.BinaryOpOfType | compiler/AST/expr_nodes.h:54-72 | binary_op_of_type succeeds exactly for the fourteen binary-operator tokens; any other token raises "Invalid binary operand" |
| Ast.IsBinaryOpToken | compiler/parser/expr_parser.cpp:59-79 | definition, no contract of its own; its properties are stated by `Ast.BinaryOpOfType` (its domain) and `ParserProps.LevelsAreOperators` |
| Ast.BinaryOpOfTypeBijective | compiler/AST/expr_nodes.h:54-72 | the token-to-operator map is one-to-one and onto: every operator comes from its own token and from no other |
| Ast.BinaryOpPrintsAsToken | compiler/AST/expr_nodes.cpp:27-46 | str_of_binary_op(binary_op_of_type(t)) is str_of_type(t) for every binary-operator token except Star, whose Mul prints "+" instead of "*" |
| Ast.StrOfBinaryOp | compiler/AST/expr_nodes.cpp:27-46 | definition, no contract of its own; its properties are stated by `Ast.BinaryOpPrintsAsToken` |
| Ast.BoolConstOf | compiler/AST/expr_nodes.h:188-192 | a BoolConst is located at its token and is true exactly when the token is True |
| Ast.CharConstOf | compiler/AST/expr_nodes.h:168-172 | a CharConst is located at its token and takes the lexeme's first character; an empty lexeme reads the terminating '\0' |
| Ast.Stoi | compiler/AST/expr_nodes.h:148-152 | std::stoi either fails or yields a value in the 32-bit signed range |
| Ast.StoiOfDigits | compiler/AST/expr_nodes.h:148-152 | on a digit run, stoi is the decimal value when it fits in an int and fails otherwise |
| Ast.IntConstOf | compiler/AST/expr_nodes.h:148-152 | an IntConst is located at its token and exists exactly when stoi succeeds on the lexeme |
| Ast.IntConstValue | compiler/AST/expr_nodes.h:148-152 | the IntConst holds the value stoi reads from the lexeme, and a lexeme stoi rejects gives stoi's own error |
| Ast.IntConstExample | tests/parser/parser_test.cpp:27-30 | the token "2" becomes the integer constant 2 |
| TokenTypes.IsKeyword | compiler/lexer/token_type.cpp:67-69 | is_keyword holds exactly for the keys of the keyword table |
| TokenTypes.IsKeywordExactly | compiler/lexer/token_type.h:76-98 | the keyword table's keys are exactly the 21 listed lexemes |
| TokenTypes.KeywordPrintsAsItself | compiler/lexer/token_type.cpp:14-63 | str_of_type of a keyword's token is the keyword itself, except that "bool" prints "Unknown" because TokenType::Bool has no case |
| TokenTypes.ShortKeywordsPrint | compiler/lexer/token_type.cpp:14-33 | keywords of up to three letters print as themselves |
| TokenTypes.FourLetterKeywordsPrint | compiler/lexer/token_type.cpp:14-63 | four-letter keywords print as themselves, except "bool", which prints "Unknown" |
| TokenTypes.LongKeywordsPrint | compiler/lexer/token_type.cpp:14-33 | keywords of five letters or more print as themselves |
| TokenTypes.KeywordsInjective | compiler/lexer/token_type.h:76-98 | no two keywords map to the same token type |
| TokenTypes.StrOfType | compiler/lexer/token_type.cpp:6-65 | definition, no contract of its own; its properties are stated by `TokenNames.StrOfTypeInjective` and `TokenTypes.KeywordPrintsAsItself` |
| TokenNames.StrOfTypeInjective | compiler/lexer/token_type.cpp:6-65 | every token type's printed name reads back as that type, so str_of_type is injective and each "Expected ..." message names one token |
| TokenNames.KeywordNamesReadBack | compiler/lexer/token_type.cpp:14-33 | keyword token names read back as their token type |
| TokenNames.SymbolNamesReadBack | compiler/lexer/token_type.cpp:35-57 | symbol token names read back as their token type |
| TokenNames.TwoCharNamesReadBack | compiler/lexer/token_type.cpp:54-57 | the names "<=", ">=", "==" and "!=" read back as their token types |
| TokenNames.OneCharNamesReadBack | compiler/lexer/token_type.cpp:35-53 | one-character symbol names read back as their token types |
| TokenNames.PunctuationNamesReadBack | compiler/lexer/token_type.cpp:35-40 | the punctuation names ; , : . ( ) read back as their token types |
| TokenNames.BracketNamesReadBack | compiler/lexer/token_type.cpp:41-46 | the bracket and sign names read back as their token types |
| TokenNames.OperatorNamesReadBack | compiler/lexer/token_type.cpp:47-53 | the operator names * / % = ^ < > read back as their token types |
| TokenNames.OtherNamesReadBack | compiler/lexer/token_type.cpp:8-63 | the literal, utility and default names ("Identifier", "Newline", "Eof", "Error", ...) read back as their token types |
| Types.KindName | compiler/typing/type.cpp:23-34 | definition, no contract of its own; its properties are stated by `Types.KindNamesDistinct` |
| Types.KindNamesDistinct | compiler/typing/type.cpp:23-34 | the six basic type names are non-empty words of lower-case letters, and distinct kinds have distinct names |
| Types.Join | compiler/typing/type.cpp:5-17 | definition, no contract of its own; its properties are stated by `Types.VecToString`, `Types.JoinedWordsShape` and `Types.JoinWordsInjective` |
| Types.VecToString | compiler/typing/type.cpp:5-17 | the iterator loop joins the element strings with the separator: "" for no types, the one type's string for one, the separator-joined names otherwise |
| Types.Clone | compiler/typing/type.cpp:36-48 | a clone prints the same as the original |
| Types.ToString | compiler/typing/type.cpp:23-45 | definition, no contract of its own; its properties are stated by `Types.FunctionTypeString`, `Types.FirstCharTellsKind`, `Types.Clone` and `Types.ToStringInjective` |
| Types.FunctionTypeString | compiler/typing/type.cpp:43-45 | a function type prints as "(" + its argument types joined by ", " + ") -> " + its return type |
| Types.FirstCharTellsKind | compiler/typing/type.cpp:23-45 | a printed type is non-empty and starts with '(' exactly when it is a function type |
| Types.JoinedWordsShape | compiler/typing/type.cpp:5-17 | basic names joined by ", " contain no ')', are empty exactly for no names, and contain a ',' exactly for two names or more |
| Types.JoinWordsInjective | compiler/typing/type.cpp:5-17 | joining basic names with ", " loses nothing: equal joins come from equal name lists |
| Types.BasicNamesInjective | compiler/typing/type.cpp:23-34 | equal name lists of basic types come from equal type lists |
| Types.ToStringInjective | compiler/typing/type.cpp:23-45 | to_string is injective on basic types and function types over basic types, the types the checker interns by string key |
| Formats.ShiftCol | compiler/typing/format_specifier.cpp:8-10 | shift_col keeps the line and the end column and adds i to the start column |
| Formats.ShiftColComposes | compiler/typing/format_specifier.cpp:8-10 | shifting twice is shifting by the sum, and different offsets give different locations |
| Formats.IsFormatChar | compiler/typing/format_specifier.cpp:12-22 | is_format_char is true exactly for d, i, f, s and c |
| Formats.SpecifierOfChar | compiler/typing/format_specifier.cpp:24-36 | specifier_of_char gives Float exactly for f, String exactly for s, Char exactly for c, and Integer for every other character (d and i included) |
| Formats.SpecifierOfCharRoundTrip | compiler/typing/format_specifier.cpp:12-36 | every conversion letter maps to a kind written with that letter, and each letter of a kind is a conversion letter that maps back to it |
| Formats.BadError | compiler/typing/format_specifier.cpp:44-55 | a rejected '%' raises a diagnostic located at shift_col(loc, i): "'%' expects a format specifier" when it is last, "Unknown format specifier" otherwise |
| Formats.FirstBad | compiler/typing/format_specifier.cpp:42-58 | the scan stops at the first '%' that is last or followed by neither a conversion letter nor '%', and at no earlier index |
| Formats.DirectivesMembers | compiler/typing/format_specifier.cpp:42-51 | a specifier is found exactly for each '%' followed by a conversion letter, with that letter's kind and the '%''s column |
| Formats.DirectivesOrdered | compiler/typing/format_specifier.cpp:42-51 | the specifiers come in string order: strictly increasing start columns, none before the scan's start |
| Formats.PercentPercentD | compiler/typing/format_specifier.cpp:41-58 | "%%" is not skipped as a unit: "%%d" yields one Integer specifier, at the second '%' |
| Formats.TrailingPercentPercent | compiler/typing/format_specifier.cpp:44-47 | a string ending in "%%" raises the trailing-'%' error at its last '%' |
| Formats.FormatSpecifiers | compiler/typing/format_specifier.cpp:39-61 | definition, no contract of its own; its properties are stated by `Formats.GetFormatSpecifiers`, `Formats.FirstBad`, `Formats.DirectivesMembers` and `Formats.DirectivesOrdered` |
| Formats.GetFormatSpecifiers | compiler/typing/format_specifier.cpp:39-61 | the loop over the literal's characters returns the first error FirstBad locates, or otherwise exactly the specifiers of every directive in string order |
| Formats.KindType | compiler/typing/format_specifier.cpp:63-72 | each specifier kind asks for a basic type |
| Formats.ExprMatchesFormat | compiler/typing/format_specifier.cpp:63-72 | expr_matches_format is true exactly when the expression's type is the one the specifier's kind asks for |
| Formats.MatchesOneKind | compiler/typing/format_specifier.cpp:63-72 | an argument matches specifiers of one kind only, and an argument without a type matches none |
| TypeRules.AddType | compiler/typing/type_checker.cpp:16-22 | after add_type the environment holds the key to_string(t), and the returned entry is the one stored under it |
| TypeRules.AddTypeKeepsEntries | compiler/typing/type_checker.cpp:16-22 | add_type never replaces an existing entry and adds at most the one new key |
| TypeRules.AddTypeIdempotent | compiler/typing/type_checker.cpp:16-22 | a second add_type of a type with the same printed name returns the same entry and leaves the environment as it was |
| TypeRules.AddTypeInterns | compiler/typing/type_checker.cpp:16-22 | on an environment whose every entry is keyed by its own printed name, add_type of a checker-built type returns that very type and keeps the environment so keyed, so comparing the interned addresses is comparing types |
| TypeRules.BasicTypesInterned | compiler/typing/type_checker.h:13-18 | int_ty(), float_ty(), char_ty(), string_ty(), bool_ty() and unit_ty() are the six basic types |
| TypeRules.AnnoType | compiler/typing/type_checker.cpp:24-34 | a type annotation denotes a basic type |
| TypeRules.AnnoTypeInjective | compiler/typing/type_checker.cpp:24-34 | different annotation kinds denote different types |
| TypeRules.SigType | compiler/typing/type_checker.cpp:262-271 | a signature denotes the function type of its parameters' annotated types, in order, and its annotated return type |
| TypeRules.IsNum | compiler/typing/type_checker.h:19 | definition, no contract of its own; its properties are stated by `TypeRules.UnaryRule` and `TypeRules.ArithmeticRule` |
| TypeRules.UnaryRule | compiler/typing/type_checker.cpp:58-71 | a unary expression checks exactly for + or - on an int or float operand and then has the operand's type; not on a non-bool raises "Expected an expression of type bool!", and every other failure, not on a bool included, raises the numeric error at the operand |
| TypeRules.ArithmeticRule | compiler/typing/type_checker.cpp:91-99 | + - * / % check exactly for equal numeric operand types and yield that type; otherwise a TypeError at the expression |
| TypeRules.EqualityRule | compiler/typing/type_checker.cpp:85-90 | == and != check exactly for equal operand types and yield bool; otherwise a TypeError at the expression |
| TypeRules.OrderingRule | compiler/typing/type_checker.cpp:100-110 | the orderings check exactly for equal operand types other than unit and bool, and yield bool; otherwise a TypeError at the expression |
| TypeRules.LogicalRule | compiler/typing/type_checker.cpp:111-116 | and and or check exactly for two bool operands and yield bool; otherwise a TypeError at the expression |
| TypeRules.ConcatRule | compiler/typing/type_checker.cpp:81-84 | ^ checks exactly for two string operands, and then stores no type |
| TypeRules.BinaryRule | compiler/typing/type_checker.cpp:73-118 | every binary failure is a TypeError at the expression, and only ^ leaves the type unset |
| TypeRules.BinaryRuleTypes | compiler/typing/type_checker.cpp:80-117 | what a successful binary check stores: nothing for ^ (two strings), bool for comparisons and logic, the common numeric operand type for arithmetic |
| TypeRules.UnsetTypesCompareEqual | compiler/typing/type_checker.cpp:81-110 | two operands whose types were never set compare as equal (both null), so == and < of two concatenations type-check as bool |
| TypeRules.FirstMismatch | compiler/typing/type_checker.cpp:224-228 | the first trailing printf argument that does not match its specifier, and none before it |
| TypeRules.PrintfSpecifiers | compiler/typing/type_checker.cpp:209-218 | printf needs a first argument that is a string literal, and its specifiers are those of that literal; no arguments, or another first argument, raises the matching TypeError |
| TypeRules.PrintfRule | compiler/typing/type_checker.cpp:209-229 | printf checks exactly when the literal scans, the trailing arguments are as many as its specifiers and each matches its own; the call is then unit |
| TypeRules.PrintfMismatchAt | compiler/typing/type_checker.cpp:224-228 | the first mismatching trailing argument raises "Format specifier and expression type don't match!" at its specifier's location |
| TypeRules.PrintfOneInt | compiler/typing/type_checker.cpp:209-229 | printf("%d", x) checks exactly when x is an int |
| TypeRules.FirstBadArg | compiler/typing/type_checker.cpp:198-203 | the first argument whose type is not its parameter's, and none before it |
| TypeRules.CallRule | compiler/typing/type_checker.cpp:192-204 | a call checks exactly when the argument count is the parameter count and each argument has its parameter's type; the result is the return type; an arity mismatch raises the message that names the argument count as expected and the parameter count as found |
| TypeChecking.SymbolAt | compiler/typing/type_checker.cpp:121 | parent_scope->get_symbol(id) succeeds only for a set parent scope, and then yields what resolve finds there |
| TypeChecking.SetAt | compiler/typing/type_checker.cpp:189 | writing get_symbol(id).type succeeds exactly when get_symbol does, and afterwards resolve yields that symbol with the new slot |
| TypeChecking.TcExpr | compiler/typing/type_checker.cpp:36-205 | a successful expression visit keeps the number of scopes and every interned type, and the node keeps its location and parent scope |
| TypeChecking.TcUnary | compiler/typing/type_checker.cpp:58-71 | the unary visit checks the operand, then applies the unary rule; it keeps scopes, interned types and the node's position |
| TypeChecking.TcBinary | compiler/typing/type_checker.cpp:73-118 | the binary visit checks lhs, then rhs, then applies the binary rule; it keeps scopes, interned types and the node's position |
| TypeChecking.TcWhile | compiler/typing/type_checker.cpp:144-152 | the while visit checks the condition for bool, then the body; it keeps scopes, interned types and the node's position |
| TypeChecking.TcIfElse | compiler/typing/type_checker.cpp:125-142 | the if visit checks the condition, the if branch and the optional else branch in that order; it keeps scopes, interned types and the node's position |
| TypeChecking.TcBlock | compiler/typing/type_checker.cpp:41-56 | the block visit checks its statements in order; it keeps scopes, interned types and the node's position |
| TypeChecking.TcBody | compiler/typing/type_checker.cpp:46-53 | the block loop checks every statement, one result per statement |
| TypeChecking.TcExprs | compiler/typing/type_checker.cpp:177-179 | the argument loop checks every argument left to right, one result per argument |
| TypeChecking.TcCall | compiler/typing/type_checker.cpp:176-205 | the call visit checks the arguments first, then applies printf's rule or the callee's function type |
| TypeChecking.CalleeType | compiler/typing/type_checker.cpp:185-192 | the callee's type, checking its signature on demand when the slot is null, is a function type |
| TypeChecking.FunctionTypeOf | compiler/typing/type_checker.cpp:192 | dynamic_cast<FunctionTy*> succeeds exactly for a set slot holding a function type, and returns it unchanged |
| TypeChecking.TcStmt | compiler/typing/type_checker.cpp:231-291 | a successful statement visit keeps the number of scopes and every interned type, and the node keeps its location and parent scope |
| TypeChecking.TcVarInit | compiler/typing/type_checker.cpp:236-246 | the declaration visit checks the initializer and the annotation, then writes the slot |
| TypeChecking.TcAssignment | compiler/typing/type_checker.cpp:248-255 | the assignment visit checks the value, then compares it with the target's slot |
| TypeChecking.TcFunDef | compiler/typing/type_checker.cpp:273-286 | the definition visit checks the signature, then the body, then the main and body-type rules, then writes the slot |
| TypeChecking.TcSig | compiler/typing/type_checker.cpp:262-271 | a checked signature carries the signature's function type, its own id, and its return annotation's type |
| TypeChecking.TcArgs | compiler/typing/type_checker.cpp:257-267 | the parameter visits write only slots: the environment and the scope count are unchanged |
| TypeChecking.TcStmts | compiler/driver/module.cpp:61-65 | the module's statements are checked in order, one result per statement |
| TypeChecking.BodyStmt | compiler/typing/type_checker.cpp:47-52 | a checked statement of a block that is not the last is unit |
| TypeChecking.TypeChecker.AddType | compiler/typing/type_checker.cpp:16-22 | add_type updates the environment and returns the entry as TypeRules.AddType states |
| TypeChecking.TypeChecker.SymbolOf | compiler/typing/type_checker.cpp:121 | parent_scope->get_symbol(id) returns exactly SymbolAt |
| TypeChecking.TypeChecker.SetSlot | compiler/typing/type_checker.cpp:244-291 | writing the slot updates the scopes as SetAt states, or leaves them unchanged with its error |
| TypeChecking.TypeChecker.VisitExpr | compiler/typing/type_checker.cpp:36-205 | the expression visit returns, and leaves the scopes and environment, exactly as TcExpr states |
| TypeChecking.TypeChecker.VisitLeaf | compiler/typing/type_checker.cpp:120-172 | identifiers and constants are visited exactly as TcExpr states, changing nothing |
| TypeChecking.TypeChecker.VisitUnary | compiler/typing/type_checker.cpp:58-71 | agrees with TcUnary |
| TypeChecking.TypeChecker.VisitBinary | compiler/typing/type_checker.cpp:73-118 | agrees with TcBinary |
| TypeChecking.TypeChecker.VisitWhile | compiler/typing/type_checker.cpp:144-152 | agrees with TcWhile |
| TypeChecking.TypeChecker.VisitIfElse | compiler/typing/type_checker.cpp:125-142 | agrees with TcIfElse |
| TypeChecking.TypeChecker.VisitBlock | compiler/typing/type_checker.cpp:41-56 | agrees with TcBlock |
| TypeChecking.TypeChecker.VisitBody | compiler/typing/type_checker.cpp:46-53 | the loop over a block's statements agrees with TcBody |
| TypeChecking.TypeChecker.VisitBodyStmt | compiler/typing/type_checker.cpp:48-52 | one loop iteration agrees with BodyStmt |
| TypeChecking.TypeChecker.VisitEach | compiler/typing/type_checker.cpp:177-179 | the loop over the arguments agrees with TcExprs |
| TypeChecking.TypeChecker.VisitCall | compiler/typing/type_checker.cpp:176-205 | agrees with TcCall |
| TypeChecking.TypeChecker.CalleeFunctionType | compiler/typing/type_checker.cpp:185-192 | the on-demand signature check agrees with CalleeType |
| TypeChecking.TypeChecker.CheckCallArgs | compiler/typing/type_checker.cpp:193-204 | the arity check and the loop over the arguments return exactly CallRule |
| TypeChecking.TypeChecker.HandlePrintf | compiler/typing/type_checker.cpp:209-229 | handle_printf, with its loop over the trailing arguments, returns exactly PrintfRule |
| TypeChecking.TypeChecker.VisitStmt | compiler/typing/type_checker.cpp:231-291 | agrees with TcStmt |
| TypeChecking.TypeChecker.VisitExternal | compiler/typing/type_checker.cpp:288-291 | agrees with TcStmt on an external declaration |
| TypeChecking.TypeChecker.VisitVarInit | compiler/typing/type_checker.cpp:236-246 | agrees with TcVarInit |
| TypeChecking.TypeChecker.VisitAssignment | compiler/typing/type_checker.cpp:248-255 | agrees with TcAssignment |
| TypeChecking.TypeChecker.VisitFunDef | compiler/typing/type_checker.cpp:273-286 | agrees with TcFunDef |
| TypeChecking.TypeChecker.VisitSig | compiler/typing/type_checker.cpp:262-271 | the loop over the parameters, then the interning of the function type, agree with TcSig |
| TypeChecking.TypeChecker.Run | compiler/driver/module.cpp:61-65 | run_type_checker agrees with TcStmts |
| TypeCheckerProps.BodyNonFinalUnit | compiler/typing/type_checker.cpp:47-52 | every statement of a checked block but the last is unit |
| TypeCheckerProps.BlockTyping | compiler/typing/type_checker.cpp:41-56 | an empty block is unit and changes nothing; a checked non-empty block keeps its statement count, its non-final statements are unit, and it has the last statement's type |
| TypeCheckerProps.BodyRejectsNonUnit | compiler/typing/type_checker.cpp:49-52 | a non-final statement of non-unit type raises the non-unit TypeError at its own location |
| TypeCheckerProps.UnaryTyping | compiler/typing/type_checker.cpp:58-71 | a unary expression checks exactly when its operand checks, the operator is not not, and the operand is numeric; it then has the operand's type; not is always rejected |
| TypeCheckerProps.BinaryTyping | compiler/typing/type_checker.cpp:73-118 | a checked ^ keeps the node's old slot; comparisons and logic are bool; arithmetic has the lhs type, which is numeric |
| TypeCheckerProps.IfElseTyping | compiler/typing/type_checker.cpp:125-142 | a checked if has a bool condition and the if branch's type; without else that type is unit, with else both branches have the same type |
| TypeCheckerProps.WhileTyping | compiler/typing/type_checker.cpp:144-152 | a checked while has a bool condition and the body's type |
| TypeCheckerProps.IdTyping | compiler/typing/type_checker.cpp:120-123 | an identifier checks exactly when get_symbol succeeds, changes nothing, and copies its symbol's slot |
| TypeCheckerProps.VarInitTyping | compiler/typing/type_checker.cpp:236-246 | a checked declaration has an annotation equal to the initializer's type, writes the initializer's type into the name's slot and is unit; a differing annotation raises AnnoMismatch |
| TypeCheckerProps.AssignmentTyping | compiler/typing/type_checker.cpp:248-255 | an assignment checks exactly when the value checks and its type is the target's slot; it changes no slot and is unit |
| TypeCheckerProps.OnDemandSignature | compiler/typing/type_checker.cpp:185-190 | a function callee whose slot is null gets its signature's function type, which is stored in its slot |
| TypeCheckerProps.CheckedCalleeType | compiler/typing/type_checker.cpp:186-192 | a callee whose slot is set keeps it; a slot that is not a function type is a null dynamic_cast |
| TypeCheckerProps.CallTyping | compiler/typing/type_checker.cpp:176-205 | a checked call has as many arguments as parameters, each of its parameter's type, and has the return type |
| TypeCheckerProps.PrintfCallTyping | compiler/typing/type_checker.cpp:180-229 | a checked printf call satisfies the printf rule on its checked arguments and is unit |
| TypeCheckerProps.ExternalTyping | compiler/typing/type_checker.cpp:288-292 | an external declaration is accepted exactly when its signature checks and its name has a slot; the slot then holds the signature's function type and the declaration is unit |
| TypeCheckerProps.FunDefTyping | compiler/typing/type_checker.cpp:273-286 | a checked definition: main returns int, the body has the return annotation's type, the name's slot holds the signature's function type, and the definition is unit |
| TypeChecking.TypeChecker.constructor | compiler/typing/type_checker.cpp:12-13 | the checker works on the type environment and scope table it is given |
| ModuleCollection.CollectStmt | compiler/sema/module_collector.cpp:6-65 | one top-level visit fails exactly for an expression statement, an assignment, or a function or external whose name module scope already holds; otherwise only module scope can change, and only for a declaration |
| ModuleCollection.Collect | compiler/driver/module.cpp:51-54 | collecting the top-level statements in order keeps the arena well formed and its scope count |
| ModuleCollection.CollectStmtOk | compiler/sema/module_collector.cpp:6-57 | a successful step binds a definition's or external's id to its signature in module scope and adds nothing else; every other kind is a no-op; the collector does not look inside bodies |
| ModuleCollection.CollectOkHasNoTopLevelExpr | compiler/sema/module_collector.cpp:59-65 | a successful collection saw no top-level expression statement or assignment |
| ModuleCollection.CollectOkNamesDistinct | compiler/sema/module_collector.cpp:6-12 | in a successful collection the declared names were unbound in module scope and are pairwise distinct |
| ModuleCollection.CollectOkBinds | compiler/sema/module_collector.cpp:6-12 | after a successful collection every declared name is bound to its own signature, and every earlier module binding is kept |
| ModuleCollection.CollectOkKeys | compiler/sema/module_collector.cpp:6-57 | after a successful collection module scope holds exactly its old names plus the declared ones, and every other scope is unchanged |
| ModuleCollection.TopLevelExprRejected | compiler/sema/module_collector.cpp:59-65 | a top-level expression statement or assignment makes the collection fail |
| ModuleCollection.DuplicateRejected | compiler/sema/module_collector.cpp:6-12 | two top-level functions or externals with the same name make the collection fail |
| ModuleCollection.FirstErrorIsReported | compiler/sema/scope.cpp:32-35 | a declaration of a name module scope already holds raises DoubleDefinition at that declaration |
| ModuleCollection.ModuleCollector.Visit | compiler/sema/module_collector.cpp:6-65 | the visit updates the module scope and returns exactly as CollectStmt states |
| ModuleCollection.ModuleCollector.Run | compiler/driver/module.cpp:51-54 | the collector loop updates the table and returns exactly as Collect states |
| ModuleCollection.ModuleCollector.constructor | compiler/sema/module_collector.h:12-13 | the collector works on the module scope it is given |
| Resolution.Push | compiler/sema/name_resolution.cpp:18-21 | entering a block or function appends one fresh scope of that kind whose parent is the cursor; existing scopes are kept |
| Resolution.NrExpr | compiler/sema/name_resolution.cpp:13-101 | a successful expression visit only appends scopes to the arena |
| Resolution.NrId | compiler/sema/name_resolution.cpp:39-48 | an identifier is accepted exactly when it resolves to a variable or a parameter, changing nothing; an unbound name raises UnknownIdError, a function or module raises the wrong-kind TokenError naming its kind |
| Resolution.NrCallee | compiler/sema/name_resolution.cpp:90-100 | after the arguments, printf is accepted without lookup; any other callee is accepted exactly when it resolves to a function; unbound raises UnknownIdError, another kind raises the wrong-kind TokenError |
| Resolution.NrExprs | compiler/sema/name_resolution.cpp:86-88 | the arguments are visited left to right, one result each, only appending scopes |
| Resolution.NrStmts | compiler/sema/name_resolution.cpp:22-24 | statements are visited in order, one result each; they only append scopes and add entries to the cursor's scope |
| Resolution.DeclareFunction | compiler/sema/name_resolution.cpp:145-162 | at module level a definition or external changes nothing; elsewhere it is add_function in the cursor's scope |
| Resolution.NrStmt | compiler/sema/name_resolution.cpp:103-164 | a successful statement visit only appends scopes and adds entries to the cursor's scope |
| Resolution.NrSig | compiler/sema/name_resolution.cpp:135-141 | a signature visit succeeds exactly when its parameters do, changes the arena exactly as they do, and allocates no scope |
| Resolution.NrArgs | compiler/sema/name_resolution.cpp:129-139 | the parameters are added to the cursor's scope in order, one result each, allocating no scope |
| Resolution.ResolveModule | compiler/driver/module.cpp:55-58 | the resolution pass over the top-level statements keeps the arena well formed, with one result per statement |
| Resolution.BlockOpensChildScope | compiler/sema/name_resolution.cpp:18-21 | a resolved block records the cursor as its parent scope and owns a fresh Block scope whose parent is the cursor |
| Resolution.OuterNamesVisible | compiler/sema/name_resolution.cpp:20-21 | inside a freshly pushed scope every name resolves as it did from the cursor |
| Resolution.ExprKeepsVisibleNames | compiler/sema/name_resolution.cpp:18-26 | after any expression visit, a block included, every name resolves from the cursor as before, so what a block declares is not visible after it |
| Resolution.SelfInitializerResolves | compiler/sema/name_resolution.cpp:108-115 | the variable is declared before its initializer is visited, so let x = x resolves |
| Resolution.RedeclarationRejected | compiler/sema/name_resolution.cpp:110 | a second declaration in the same scope raises DoubleDefinition at the declaration |
| Resolution.AssignmentTargetFirst | compiler/sema/name_resolution.cpp:117-127 | an unknown target raises UnknownIdError and a non-reassignable one raises "can't be reassigned!", whatever the value holds; an accepted target is reassignable |
| Resolution.CallingMainRejected | compiler/sema/name_resolution.cpp:82-84 | a call of main is always rejected, before the arguments are visited |
| Resolution.PrintfNotLookedUp | compiler/sema/name_resolution.cpp:86-92 | a call of printf resolves exactly when its arguments do |
| Resolution.CalleeIsFunction | compiler/sema/name_resolution.cpp:93-100 | any other accepted callee resolves to a function symbol |
| Resolution.ExternalMainRejected | compiler/sema/name_resolution.cpp:156-158 | an external named main is rejected at its signature |
| Resolution.ArgIdsMembers | compiler/sema/name_resolution.cpp:137-139 | the parameter name set holds exactly the parameters' names |
| Resolution.DistinctArgIdsPairwise | compiler/sema/name_resolution.cpp:129-133 | the distinctness predicate holds exactly when parameter names are pairwise distinct |
| Resolution.ParamsAccepted | compiler/sema/name_resolution.cpp:129-141 | the parameters are accepted exactly when their names are pairwise distinct and new to the scope |
| Resolution.ParamsBound | compiler/sema/name_resolution.cpp:129-141 | accepted parameters are each bound to a parameter symbol, the scope gains exactly their names, and its earlier entries are kept |
| Resolution.FunDefParams | compiler/sema/name_resolution.cpp:143-153 | a resolved definition owns a Function scope whose parent is the cursor and which binds every parameter, whose names are pairwise distinct |
| Resolution.FunDefDeclaration | compiler/sema/name_resolution.cpp:144-147 | at module level the definition leaves module scope unchanged; in a nested scope its name was new there and is bound to its signature |
| Resolution.NameResolution.VisitExpr | compiler/sema/name_resolution.cpp:13-101 | the visit agrees with NrExpr and, on success, the cursor is back where it was |
| Resolution.NameResolution.VisitId | compiler/sema/name_resolution.cpp:39-48 | the identifier visit agrees with NrExpr and changes nothing |
| Resolution.NameResolution.VisitCall | compiler/sema/name_resolution.cpp:81-101 | agrees with NrExpr, cursor restored |
| Resolution.NameResolution.VisitBlock | compiler/sema/name_resolution.cpp:18-26 | the block visit agrees with NrExpr and puts the cursor back |
| Resolution.NameResolution.VisitIfElse | compiler/sema/name_resolution.cpp:50-57 | agrees with NrExpr, cursor restored |
| Resolution.NameResolution.VisitEach | compiler/sema/name_resolution.cpp:86-88 | the loop over the arguments agrees with NrExprs, cursor restored |
| Resolution.NameResolution.VisitStmts | compiler/sema/name_resolution.cpp:22-24 | the loop over a block's statements agrees with NrStmts, cursor restored |
| Resolution.NameResolution.VisitStmt | compiler/sema/name_resolution.cpp:103-164 | agrees with NrStmt, cursor restored |
| Resolution.NameResolution.VisitVarInit | compiler/sema/name_resolution.cpp:108-115 | agrees with NrStmt, cursor restored |
| Resolution.NameResolution.VisitAssignment | compiler/sema/name_resolution.cpp:117-127 | agrees with NrStmt, cursor restored |
| Resolution.NameResolution.VisitFunDef | compiler/sema/name_resolution.cpp:143-153 | the definition visit agrees with NrStmt and puts the cursor back |
| Resolution.NameResolution.VisitExternal | compiler/sema/name_resolution.cpp:155-164 | agrees with NrStmt; the cursor is not moved |
| Resolution.NameResolution.VisitSig | compiler/sema/name_resolution.cpp:135-141 | the loop over the parameters agrees with NrSig |
| Resolution.NameResolution.Run | compiler/driver/module.cpp:55-58 | the resolution loop from module scope agrees with ResolveModule |
| Resolution.NameResolution.constructor | compiler/sema/name_resolution.h:9-10 | name resolution starts at the scope it is given |
| Lexing.Cur | compiler/lexer/lexer.h:19 | definition, no contract of its own; its properties are stated by `Lexing.PeekAt` and `Lexing.GetCharAt` (the line `cur_line` points to) |
| Lexing.PeekAt | compiler/lexer/lexer.cpp:60-68 | peek reads the character under the cursor, the first character of the next line once the current one is used up, and '\0' past the last line; at column 0 it reads out of bounds |
| Lexing.PeekInAlphabet | compiler/lexer/lexer.cpp:60-68 | on source in the lexer's alphabet, peek shows '\0' exactly at the end of input and an alphabet character everywhere else |
| Lexing.GetCharAt | compiler/lexer/lexer.cpp:76-86 | get_char returns what peek shows and moves the cursor past it, keeping the bracket depth; it always consumes input unless it returns '\0', and within a line it only advances the column |
| Lexing.LocAt | compiler/lexer/lexer.cpp:70-74 | get_loc_col spans from the start column to the cursor on the current line, with the start moved to column 1 when the cursor is left of it |
| Lexing.SyntaxHere | compiler/lexer/lexer.cpp:88-90 | log_syntax_error raises a SyntaxError located at the cursor |
| Lexing.DigitsAt | compiler/lexer/lexer.cpp:97-104 | the digit loop keeps the cursor valid and the bracket depth unchanged |
| Lexing.NumberAt | compiler/lexer/lexer.cpp:93-107 | lex_number yields an IntConst or a FloatConst and keeps the bracket depth |
| Lexing.FractionAt | compiler/lexer/lexer.cpp:100-106 | the fraction part yields an IntConst or, after a '.', a FloatConst |
| Lexing.IdentTailAt | compiler/lexer/lexer.cpp:112-114 | the identifier loop keeps the cursor valid and the bracket depth unchanged |
| Lexing.WordToken | compiler/lexer/lexer.cpp:115-116 | a keyword becomes its keyword token with an empty lexeme; any other word becomes Id carrying the word |
| Lexing.IdentWordAt | compiler/lexer/lexer.cpp:112-114 | reading the word keeps the cursor valid and the bracket depth unchanged |
| Lexing.IdentAt | compiler/lexer/lexer.cpp:109-117 | lex_identifier keeps the cursor valid and the bracket depth unchanged |
| Lexing.EscapeKeys | compiler/lexer/lexer.cpp:119-130 | the escapes are exactly n t r ' " \ 0 b f v; each maps to at most one character, and only '0' maps to the empty string |
| Lexing.CloseChar | compiler/lexer/lexer.cpp:153-154 | the closing read of lex_char, which takes any character, yields a CharConst carrying the lexeme read so far |
| Lexing.CharAt | compiler/lexer/lexer.cpp:132-155 | a successful lex_char yields a CharConst and keeps the bracket depth |
| Lexing.StringTurnAt | compiler/lexer/lexer.cpp:161-179 | one turn of the string loop stays on the current line and moves right |
| Lexing.StringBodyAt | compiler/lexer/lexer.cpp:161-179 | the string loop ends with the cursor on the closing quote, on the same line |
| Lexing.StringAt | compiler/lexer/lexer.cpp:157-182 | a successful lex_string yields a StringConst and keeps the bracket depth |
| Lexing.SymbolKind | compiler/lexer/lexer.cpp:187-234 | the symbol switch keeps the cursor valid |
| Lexing.SymbolAt | compiler/lexer/lexer.cpp:185-236 | lex_symbol keeps the cursor valid |
| Lexing.CommentAt | compiler/lexer/lexer.cpp:20-26 | the Newline that '#' returns leaves a reachable cursor |
| Lexing.AdvanceAt | compiler/lexer/lexer.cpp:12-58 | advance leaves a reachable cursor |
| Lexing.TokenAt | compiler/lexer/lexer.cpp:38-56 | the dispatch on the first character leaves a reachable cursor |
| Lexing.Lexer.constructor | compiler/lexer/lexer.cpp:8-10 | a fresh lexer stands at line 1, column 1, with no open bracket, on line 1 |
| Lexing.Lexer.GetChar | compiler/lexer/lexer.cpp:76-86 | get_char returns and moves the cursor exactly as GetCharAt states |
| Lexing.Lexer.ReadDigits | compiler/lexer/lexer.cpp:97-99 | the digit loop appends and moves the cursor exactly as DigitsAt states |
| Lexing.Lexer.LexNumber | compiler/lexer/lexer.cpp:93-107 | lex_number returns and moves the cursor exactly as NumberAt states |
| Lexing.Lexer.ReadIdentTail | compiler/lexer/lexer.cpp:112-114 | the identifier loop appends and moves the cursor exactly as IdentTailAt states |
| Lexing.Lexer.LexIdentifier | compiler/lexer/lexer.cpp:109-117 | lex_identifier returns and moves the cursor exactly as IdentAt states |
| Lexing.Lexer.LexChar | compiler/lexer/lexer.cpp:132-155 | lex_char returns and moves the cursor exactly as CharAt states |
| Lexing.Lexer.StringTurn | compiler/lexer/lexer.cpp:161-179 | one loop turn of lex_string agrees with StringTurnAt |
| Lexing.Lexer.ReadStringBody | compiler/lexer/lexer.cpp:161-179 | the loop of lex_string agrees with StringBodyAt |
| Lexing.Lexer.LexString | compiler/lexer/lexer.cpp:157-182 | lex_string returns and moves the cursor exactly as StringAt states |
| Lexing.Lexer.LexSymbol | compiler/lexer/lexer.cpp:185-236 | lex_symbol returns and moves the cursor exactly as SymbolAt states |
| Lexing.Lexer.LexToken | compiler/lexer/lexer.cpp:38-56 | the dispatch on the first character agrees with TokenAt |
| Lexing.Lexer.Advance | compiler/lexer/lexer.cpp:12-58 | advance returns and moves the cursor exactly as AdvanceAt states |
| LexerProps.FirstRead | compiler/lexer/lexer.cpp:76-86 | reading the first character of a token leaves it just left of the cursor, keeps the bracket depth, and stays inside the line unless it was a newline |
| LexerProps.DigitsInLine | compiler/lexer/lexer.cpp:97-99 | inside a line the digit loop appends exactly the longest run of digits at the cursor and moves the cursor past it |
| LexerProps.NumberTextShape | compiler/lexer/lexer.cpp:93-107 | the number read from a text starting with a digit is a prefix of it: an IntConst of digits followed by neither a digit nor '.', or a FloatConst of digits, '.' and digits followed by no digit |
| LexerProps.NumberLexeme | compiler/lexer/lexer.cpp:93-107 | lex_number reads the digit run and, when a '.' follows it, the '.' and the digit run after that, and the token spans from the first digit to the cursor after the number |
| LexerProps.NumberDigits | compiler/lexer/lexer.cpp:97-99 | the digit loop from the first digit stays on the line, and the number it starts is the number of the text from that digit on |
| LexerProps.IdentTailInLine | compiler/lexer/lexer.cpp:112-114 | inside a line the identifier loop appends exactly the longest run of letters, digits and '_' at the cursor |
| LexerProps.IdentifierWord | compiler/lexer/lexer.cpp:109-114 | lex_identifier reads its first letter and then the longest run of letters, digits and '_' after it, and leaves the cursor after that word |
| LexerProps.WordTokenKinds | compiler/lexer/lexer.cpp:115-116 | a word is lexed as Id exactly when it is not in the keyword table, and only an Id carries its word as lexeme |
| LexerProps.CharLexeme | compiler/lexer/lexer.cpp:132-155 | lex_char reads the text after its opening quote as CharLiteral does: a newline is an unterminated literal, a backslash needs a known escape, a second quote is an empty literal, and the closing character is read without being checked; the errors are located at the offending character |
| LexerProps.CharLiteralLexeme | compiler/lexer/lexer.cpp:126-152 | a char literal's lexeme is at most one character, and empty exactly for the escape \0 |
| LexerProps.StringTextEnds | compiler/lexer/lexer.cpp:161 | a string body that reads successfully stops on its closing quote |
| LexerProps.StringTurnInLine | compiler/lexer/lexer.cpp:162-178 | one turn of the string loop: a newline is an unterminated literal, a backslash followed by a known escape appends its replacement and moves two columns, an unknown escape is an error at the escape character, and any other character appends itself and moves one column |
| LexerProps.StringBodyInLine | compiler/lexer/lexer.cpp:161-179 | the string loop reads the text after the opening quote exactly as StringText does: the replaced characters up to the closing quote, or the first error at its offset |
| LexerProps.StringClose | compiler/lexer/lexer.cpp:157-182 | lex_string is the opening quote, the loop, and the closing quote the loop stops on; the token spans from the opening quote to after the closing one, and a failing loop fails the literal |
| LexerProps.StringLexeme | compiler/lexer/lexer.cpp:157-182 | lex_string reads the text after its opening quote as StringText does, errors included |
| LexerProps.QuoteCharReads | compiler/lexer/lexer.cpp:119-130 | every character can be written in a string literal: as itself unless it is '"', '\\' or a newline, otherwise as a backslash and an escape that stands for it |
| LexerProps.QuoteReadsBack | compiler/lexer/lexer.cpp:157-182 | every string has a literal: its quoted form, closed by a quote, reads back as exactly that string whatever follows on the line |
| LexerProps.BracketSymbolKind | compiler/lexer/lexer.cpp:191-196 | '(' and '[' open and ')' and ']' close one level of bracket depth, each a symbol spelled by its character |
| LexerProps.PunctuationKind | compiler/lexer/lexer.cpp:193-198 | '{', '}', ',' and ';' are symbols spelled by their character and leave the bracket depth alone |
| LexerProps.ArithmeticKind | compiler/lexer/lexer.cpp:199-202 | '+', '-', '%' and '^' are symbols spelled by their character |
| LexerProps.OperatorKind | compiler/lexer/lexer.cpp:203-205 | '.', '*' and '/' are symbols spelled by their character |
| LexerProps.EqualKind | compiler/lexer/lexer.cpp:206-211 | '=' followed by '=' is the two-character symbol "==", otherwise the single "=" |
| LexerProps.BangKind | compiler/lexer/lexer.cpp:212-217 | '!' followed by '=' is "!=", otherwise the error "Expected '='" at the cursor |
| LexerProps.LessKind | compiler/lexer/lexer.cpp:225-231 | '<' followed by '=' is "<=", otherwise the single "<" |
| LexerProps.GreaterKind | compiler/lexer/lexer.cpp:218-224 | '>' followed by '=' is ">=", otherwise the single ">" |
| LexerProps.OtherSymbolKind | compiler/lexer/lexer.cpp:232 | a character the switch has no case for is the error "Unknown symbol" |
| LexerProps.SymbolKindText | compiler/lexer/lexer.cpp:187-234 | the switch of lex_symbol is in every case as SymbolReads describes |
| LexerProps.SymbolLexeme | compiler/lexer/lexer.cpp:185-236 | lex_symbol fails exactly when its switch does, and otherwise yields the symbol with an empty lexeme spanning from its first character to the cursor after it |
| LexerProps.AdvanceEnd | compiler/lexer/lexer.cpp:15-18 | at the end of input advance returns Eof with an empty lexeme on the line after the last one, at column 1 |
| LexerProps.AfterEnd | compiler/lexer/lexer.cpp:15-86 | after Eof the cursor is back at column 1 of the last line, which is not the end of input: a further advance reads that line anew |
| LexerProps.AdvanceNewline | compiler/lexer/lexer.cpp:29-34 | a newline outside brackets is a Newline token with lexeme "\n" spanning the newline |
| LexerProps.AdvanceBlank | compiler/lexer/lexer.cpp:29-35 | other whitespace, and a newline inside brackets, is skipped: advance goes on from the next character, with one character fewer left to read |
| LexerProps.AdvanceBlanks | compiler/lexer/lexer.cpp:29-35 | a run of blanks inside a line is skipped as a whole |
| LexerProps.AdvanceComment | compiler/lexer/lexer.cpp:20-68 | '#' ends the line as a Newline token with an empty lexeme at the line's length and leaves the cursor at column 0 of the next line number, from where the next advance reads out of bounds |
| LexerProps.AdvanceToken | compiler/lexer/lexer.cpp:38-56 | any other character starts a token, which the lexer chooses by that character |
| LexerTests.SkipsComments | tests/lexer/lexer_test.cpp:19-25 | "2.5#Comment" lexes as the FloatConst "2.5" and then the Newline that the comment ends in, at the line's last column |
| LexerTests.HandlesNewlineAndEof | tests/lexer/lexer_test.cpp:27-34 | after "2" comes a Newline from column 2 to column 3 of line 1, and then Eof |
| LexerTests.PositionOfNewline | tests/lexer/lexer_test.cpp:86-92 | the Newline after "2" starts at position (1, 2) and ends at (1, 3) |
| LexerTests.RecognizesNumLiterals | tests/lexer/lexer_test.cpp:36-45 | "2 2.5" lexes as the IntConst "2" and the FloatConst "2.5" |
| LexerTests.RecognizesKeywords | tests/lexer/lexer_test.cpp:47-54 | "let x" lexes as the keyword let and the identifier x |
| LexerTests.CharLiteralHandlesEscapeChar | tests/lexer/lexer_test.cpp:57-61 | the char literal '\t' has a tab as its lexeme |
| LexerTests.StrLiteralHandlesEscapeChar | tests/lexer/lexer_test.cpp:63-67 | the string literal "hi\t" has "hi" and a tab as its lexeme |
| LexerTests.HandlesTwoCharSymbols | tests/lexer/lexer_test.cpp:69-76 | "(<=" lexes as a left parenthesis, which opens a bracket, and then "<=" |
| LexerTests.SetsPosition | tests/lexer/lexer_test.cpp:78-84 | the keyword of "let" is on line 1 from column 1 to column 4 |
| Parsing.Next | compiler/parser/parser.cpp:25-27 | advance moves to the following token, except at the final Eof, where the cursor stays |
| Parsing.ErrorAt | compiler/parser/parser.cpp:50-52 | definition, no contract of its own; its properties are stated by `Parsing.ExpectAt`, `Parsing.StmtEndAt` and the error lemmas of `ParserProps` and `StmtProps` (a SyntaxError at the current token) |
| Parsing.ExpectAt | compiler/parser/parser.cpp:29-41 | expect succeeds exactly on a token of the expected type and then advances; otherwise it is a SyntaxError with the given message at that token |
| Parsing.StmtEndAt | compiler/parser/parser.cpp:43-48 | expect_stmt_end succeeds exactly on a Newline, ';' or Eof and advances; otherwise it is the error "Expected ';' or a newline" at that token |
| Parsing.SkipNewLinesAt | compiler/parser/parser.cpp:54-58 | skip_new_lines stops at the first token that is not a Newline, and every token it skips is a Newline |
| Parsing.AnnoKindOf | compiler/parser/parser.cpp:64-72 | the annotation kind of a type keyword is the one whose keyword it is; a token that is no type keyword names no kind |
| Parsing.TypeAnnoAt | compiler/parser/parser.cpp:60-75 | parse_type_anno succeeds exactly on `of` followed by a type keyword, consumes both and is located at `of`; without `of` it is the error "Expected of" there, and with another token after `of` the error "Invalid type annotation" at that token |
| Parsing.Precedence | compiler/parser/expr_parser.cpp:36-57 | get_precedence has five levels and -1 for every other token, and '%' is the one binary operator token without a level |
| Parsing.ExprAt | compiler/parser/expr_parser.cpp:8-12 | parse_expr consumes at least one token and stops at a token that continues no binary expression |
| Parsing.PrimaryAt | compiler/parser/expr_parser.cpp:14-34 | parse_primary consumes at least one token, and a token no case selects is the error "Unexpected Token while parsing expression" |
| Parsing.BinaryAt | compiler/parser/expr_parser.cpp:81-104 | parse_binary_expr stops at a token whose precedence is below the level it was called with |
| Parsing.ConstantAt | compiler/parser/expr_parser.cpp:107-120 | parse_constant consumes exactly its token and is located at it |
| Parsing.UnaryAt | compiler/parser/expr_parser.cpp:122-126 | parse_unary_expr consumes at least the operator |
| Parsing.IdExprAt | compiler/parser/expr_parser.cpp:128-138 | parse_id_expr consumes at least the identifier |
| Parsing.IdAt | compiler/parser/expr_parser.cpp:140-148 | parse_id never moves the cursor back; what it builds is stated by `StmtProps.IdAtIsExpr` |
| Parsing.FunCallAt | compiler/parser/expr_parser.cpp:150-163 | parse_fun_call consumes at least the '(' |
| Parsing.ArgsAt | compiler/parser/expr_parser.cpp:153-161 | the argument loop consumes at least the closing ')' |
| Parsing.ParenAt | compiler/parser/expr_parser.cpp:165-171 | parse_paren_expr consumes at least the '('; what it builds is stated by `StmtProps.ParenOf` and `StmtProps.ParenUnclosed` |
| Parsing.BlockAt | compiler/parser/expr_parser.cpp:173-187 | parse_block_expr consumes at least the '{' |
| Parsing.BodyAt | compiler/parser/expr_parser.cpp:177-185 | the statement loop of a block consumes at least the closing '}' |
| Parsing.IfElseAt | compiler/parser/expr_parser.cpp:189-205 | parse_if_else_expr consumes at least `if` |
| Parsing.WhileAt | compiler/parser/expr_parser.cpp:207-216 | parse_while_expr consumes at least `while` |
| Parsing.StmtAt | compiler/parser/stmt_parser.cpp:7-21 | parse_stmt returns no statement only at Eof, and a statement only after consuming a token |
| Parsing.OneStmtAt | compiler/parser/stmt_parser.cpp:13-19 | each case of parse_stmt that produces a statement consumes a token |
| Parsing.InternalStmtAt | compiler/parser/stmt_parser.cpp:101-111 | parse_internal_stmt consumes at least `internal` |
| Parsing.OptAnnoAt | compiler/parser/stmt_parser.cpp:54-57 | parse_var_init reads an annotation exactly when the token is `of` |
| Parsing.DefinedAt | compiler/parser/stmt_parser.cpp:58-74 | the '=', value and statement end consume at least one token |
| Parsing.VarInitAt | compiler/parser/stmt_parser.cpp:44-62 | parse_var_init consumes at least `let` or `var` |
| Parsing.FunDefAt | compiler/parser/stmt_parser.cpp:65-76 | parse_fun_def consumes at least `fun` |
| Parsing.DefArgAt | compiler/parser/stmt_parser.cpp:78-82 | parse_def_arg consumes at least the parameter name; what it builds is stated by `StmtProps.DefArgOf` |
| Parsing.ParamsAt | compiler/parser/stmt_parser.cpp:90-97 | the parameter loop consumes at least the closing ')' |
| Parsing.FunSigAt | compiler/parser/stmt_parser.cpp:84-99 | parse_fun_sig consumes at least the token before the name; what it builds is stated by `StmtProps.FunSigOf` and `StmtProps.FunSigShape` |
| Parsing.IdStmtAt | compiler/parser/stmt_parser.cpp:25-35 | parse_id_stmt consumes at least the identifier |
| Parsing.AssignmentAt | compiler/parser/stmt_parser.cpp:37-42 | parse_assignment consumes at least the '=' |
| Parsing.ExprStmtAt | compiler/parser/stmt_parser.cpp:113-117 | parse_expr_stmt consumes at least one token |
| Parsing.ExternalStmtAt | compiler/parser/stmt_parser.cpp:119-128 | parse_external_stmt consumes at least `external` |
| Parsing.Parser.constructor | compiler/parser/parser.cpp:21-23 | a new parser stands on the first token |
| Parsing.Parser.Advance | compiler/parser/parser.cpp:25-27 | advance moves the cursor as Next states |
| Parsing.Parser.Expect | compiler/parser/parser.cpp:29-41 | expect fails or moves the cursor exactly as ExpectAt states |
| Parsing.Parser.ExpectStmtEnd | compiler/parser/parser.cpp:43-48 | expect_stmt_end fails or moves the cursor exactly as StmtEndAt states |
| Parsing.Parser.SkipNewLines | compiler/parser/parser.cpp:54-58 | the loop of skip_new_lines moves the cursor exactly as SkipNewLinesAt states |
| Parsing.Parser.ParseTypeAnno | compiler/parser/parser.cpp:60-75 | returns and moves the cursor exactly as TypeAnnoAt states |
| Parsing.Parser.ParseExpr | compiler/parser/expr_parser.cpp:8-12 | returns and moves the cursor exactly as ExprAt states |
| Parsing.Parser.ParsePrimary | compiler/parser/expr_parser.cpp:14-34 | returns and moves the cursor exactly as PrimaryAt states |
| Parsing.Parser.ParseBinaryExpr | compiler/parser/expr_parser.cpp:81-104 | the loop of parse_binary_expr returns and moves the cursor exactly as BinaryAt states |
| Parsing.Parser.ParseConstant | compiler/parser/expr_parser.cpp:107-120 | returns and moves the cursor exactly as ConstantAt states |
| Parsing.Parser.ParseUnaryExpr | compiler/parser/expr_parser.cpp:122-126 | returns and moves the cursor exactly as UnaryAt states |
| Parsing.Parser.ParseIdExpr | compiler/parser/expr_parser.cpp:128-138 | returns and moves the cursor exactly as IdExprAt states |
| Parsing.Parser.ParseId | compiler/parser/expr_parser.cpp:140-148 | returns and moves the cursor exactly as IdAt states |
| Parsing.Parser.ParseFunCall | compiler/parser/expr_parser.cpp:150-163 | the argument loop returns and moves the cursor exactly as FunCallAt states |
| Parsing.Parser.ParseParenExpr | compiler/parser/expr_parser.cpp:165-171 | returns and moves the cursor exactly as ParenAt states |
| Parsing.Parser.ParseBlockExpr | compiler/parser/expr_parser.cpp:173-187 | the statement loop returns and moves the cursor exactly as BlockAt states |
| Parsing.Parser.ParseIfElseExpr | compiler/parser/expr_parser.cpp:189-205 | returns and moves the cursor exactly as IfElseAt states |
| Parsing.Parser.ParseWhileExpr | compiler/parser/expr_parser.cpp:207-216 | returns and moves the cursor exactly as WhileAt states |
| Parsing.Parser.ParseStmt | compiler/parser/stmt_parser.cpp:7-21 | returns and moves the cursor exactly as StmtAt states |
| Parsing.Parser.ParseIdStmt | compiler/parser/stmt_parser.cpp:25-35 | returns and moves the cursor exactly as IdStmtAt states |
| Parsing.Parser.ParseAssignment | compiler/parser/stmt_parser.cpp:37-42 | returns and moves the cursor exactly as AssignmentAt states |
| Parsing.Parser.ParseVarInit | compiler/parser/stmt_parser.cpp:44-62 | returns and moves the cursor exactly as VarInitAt states |
| Parsing.Parser.ParseDefined | compiler/parser/stmt_parser.cpp:58-74 | returns and moves the cursor exactly as DefinedAt states |
| Parsing.Parser.ParseFunDef | compiler/parser/stmt_parser.cpp:65-76 | returns and moves the cursor exactly as FunDefAt states |
| Parsing.Parser.ParseDefArg | compiler/parser/stmt_parser.cpp:78-82 | returns and moves the cursor exactly as DefArgAt states |
| Parsing.Parser.ParseFunSig | compiler/parser/stmt_parser.cpp:84-99 | the name, the parameters and the return annotation are read, and the result and the new cursor are exactly as FunSigAt states, errors included |
| Parsing.Parser.ParseParams | compiler/parser/stmt_parser.cpp:89-97 | the parameter loop and the advance over ')' return the parameters and move the cursor exactly as ParamsAt states, errors included |
| Parsing.Parser.ParseInternalStmt | compiler/parser/stmt_parser.cpp:101-111 | returns and moves the cursor exactly as InternalStmtAt states |
| Parsing.Parser.ParseExprStmt | compiler/parser/stmt_parser.cpp:113-117 | returns and moves the cursor exactly as ExprStmtAt states |
| Parsing.Parser.ParseExternalStmt | compiler/parser/stmt_parser.cpp:119-128 | returns and moves the cursor exactly as ExternalStmtAt states |
| Parsing.ParseFile | compiler/parser/parser.cpp:8-19 | the loop of parse_file produces exactly the statements ParsedFile gives |
| Parsing.FileAt | compiler/parser/parser.cpp:8-19 | definition, no contract of its own; its properties are stated by `StmtProps.FileStep`, `StmtProps.FileEnd`, `StmtProps.FileError`, `StmtProps.FileKeepsPrefix` and `StmtProps.FileOfNewlines` |
| Parsing.ParsedFile | compiler/parser/parser.cpp:8-19 | definition, no contract of its own; its properties are stated by `Parsing.ParseFile` and the `ParserTests` lemmas |
| ParserProps.PrimaryOfOperand | compiler/parser/expr_parser.cpp:14-34 | an identifier not followed by '(' or a literal is a primary expression of one token: the leaf for it |
| ParserProps.ExprOfPrimary | compiler/parser/expr_parser.cpp:8-12 | parse_expr is parse_primary followed by parse_binary_expr at level 0 |
| ParserProps.ExprOfOperand | compiler/parser/expr_parser.cpp:8-88 | an operand followed by a token without a precedence level is a whole expression |
| ParserProps.LevelsAreOperators | compiler/parser/expr_parser.cpp:36-92 | every token with a precedence level is a binary operator, so "Invalid binary operator" is never raised |
| ParserProps.BinaryStop | compiler/parser/expr_parser.cpp:84-88 | parse_binary_expr returns its left operand unchanged at a token that binds less tightly than its level |
| ParserProps.OneLink | compiler/parser/expr_parser.cpp:82-103 | an operator and an operand followed by a looser token make one node over the left operand and the operand |
| ParserProps.BinaryStep | compiler/parser/expr_parser.cpp:93-103 | when the operator after the right operand binds no more tightly, the loop rebinds the left operand to the new node and goes on |
| ParserProps.BinaryClimb | compiler/parser/expr_parser.cpp:93-103 | when the operator after the right operand binds more tightly, the right operand first takes those operators at one level above, then the node is built |
| ParserProps.ModuloIsNotParsed | compiler/parser/expr_parser.cpp:36-92 | '%' has no precedence level, so it ends an expression unconsumed, and `x % y` as a statement fails with "Expected ';' or a newline" at the '%' |
| ParserProps.ChainStep | compiler/parser/expr_parser.cpp:82-103 | the first link of a chain of operators of non-increasing precedence is an operator and an operand, and the tree of the chain nests the rest over it |
| ParserProps.FoldStep | compiler/parser/expr_parser.cpp:82-103 | one turn of the loop over the first link of such a chain |
| ParserProps.LooseningFoldsLeft | compiler/parser/expr_parser.cpp:81-104 | along operators of equal or decreasing precedence parse_binary_expr builds the left-nested tree and consumes the whole chain |
| ParserProps.FoldsTo | compiler/parser/expr_parser.cpp:81-104 | the same, with the end of the chain named |
| ParserProps.OperandChainExpr | compiler/parser/expr_parser.cpp:81-104 | an operand followed by such a chain is, as an expression, the left fold of the chain |
| ParserProps.LeftAssociative | compiler/parser/expr_parser.cpp:81-104 | `x op1 y op2 z` with op2 binding no more tightly than op1 parses as (x op1 y) op2 z |
| ParserProps.TighterBinary | compiler/parser/expr_parser.cpp:93-103 | after x the loop reads op1 and then climbs for y op2 z when op2 binds more tightly |
| ParserProps.TighterOperatorNests | compiler/parser/expr_parser.cpp:81-104 | `x op1 y op2 z` with op2 binding more tightly than op1 parses as x op1 (y op2 z) |
| ParserProps.UnaryTakesWholeExpr | compiler/parser/expr_parser.cpp:122-126 | a unary operator applies to the whole expression after it, binary operators included: `-x + y` is -(x + y) |
| ParserProps.UnaryOfExpr | compiler/parser/expr_parser.cpp:122-126 | parse_unary_expr is the operator applied to the expression after it, located at the operator |
| ParserProps.PrimaryOfUnary | compiler/parser/expr_parser.cpp:28-31 | parse_primary on '+', '-' or `not` is parse_unary_expr |
| ParserProps.LeavesAfterIs | compiler/parser/expr_parser.cpp:153-154 | appending the arguments one at a time is appending them all |
| ParserProps.LeavesFromEmpty | compiler/parser/expr_parser.cpp:152-154 | appending the arguments one at a time to the empty list gives them in order |
| ParserProps.ArgsClose | compiler/parser/expr_parser.cpp:153-161 | the argument loop at ')' ends with what it has and consumes the ')' |
| ParserProps.ArgsLast | compiler/parser/expr_parser.cpp:154-161 | an argument followed by ')' is the last one |
| ParserProps.ArgsComma | compiler/parser/expr_parser.cpp:154-159 | an argument followed by ',' is appended and the loop goes on after the ',' |
| ParserProps.ArgsNext | compiler/parser/expr_parser.cpp:154-159 | the same, with the position after the ',' written out |
| ParserProps.MissingArgSeparator | compiler/parser/expr_parser.cpp:159 | an argument followed by anything but ',' or ')' is the error "Expected ')' or ','" at that token |
| ParserProps.ArgsInOrder | compiler/parser/expr_parser.cpp:153-161 | the argument loop collects comma-separated arguments in order and consumes the closing ')' |
| ParserProps.ArgsTo | compiler/parser/expr_parser.cpp:153-161 | the same, with the position after ')' named |
| ParserProps.CallOfArgs | compiler/parser/expr_parser.cpp:150-163 | parse_fun_call is '(' and the argument loop from an empty list, and the call is located at the callee |
| ParserProps.CallOfOperands | compiler/parser/expr_parser.cpp:150-163 | `f(x1, …, xn)` is a call of f with the arguments in order |
| ParserProps.EmptyCall | compiler/parser/expr_parser.cpp:150-163 | `f()` is a call without arguments |
| ParserProps.PrimaryOfIf | compiler/parser/expr_parser.cpp:20 | parse_primary on `if` is parse_if_else_expr |
| ParserProps.PrimaryOfBlock | compiler/parser/expr_parser.cpp:18 | parse_primary on '{' is parse_block_expr |
| ParserProps.BodyClose | compiler/parser/expr_parser.cpp:177-185 | the statement loop of a block ends at '}', after any newlines, and consumes it |
| ParserProps.BodyStmt | compiler/parser/expr_parser.cpp:177-183 | any other token starts the next statement of the block, which is appended after those before it |
| ParserProps.UnclosedBlock | compiler/parser/expr_parser.cpp:177-183 | a block still open at Eof gets no statement from parse_stmt and does not leave its loop |
| ParserProps.EmptyBlock | compiler/parser/expr_parser.cpp:173-187 | `{`, newlines and `}` is a block with no statements |
| ParserProps.IfWithoutElse | compiler/parser/expr_parser.cpp:189-205 | `if c then b` with no `else` after the newlines that follow b has no else branch, and those newlines are consumed |
| ParserProps.IfWithElse | compiler/parser/expr_parser.cpp:189-205 | `if c then b else e` takes the else branch, with newlines allowed before and after `else` |
| ParserProps.IfNeedsThen | compiler/parser/expr_parser.cpp:193 | a missing `then` is the error "Expected then" at the token after the condition |
| ParserProps.IfStmtSwallowsNewline | compiler/parser/expr_parser.cpp:189-205 | an `if` without `else` that is followed by another statement fails at that statement with "Expected ';' or a newline", because the newline that ended it was skipped |
| ParserProps.WhileNeedsBrace | compiler/parser/expr_parser.cpp:211-213 | a while body that does not start with '{' is the error "Expected '{'" at that token |
| ParserProps.WhileOfBody | compiler/parser/expr_parser.cpp:207-216 | a body that starts with '{' is parsed as a whole expression, and the loop is located at `while` |
| StmtProps.StmtSkipsNewlines | compiler/parser/stmt_parser.cpp:11-12 | parse_stmt skips the newlines in front of a statement |
| StmtProps.StmtAtEnd | compiler/parser/stmt_parser.cpp:10-12 | when only newlines stand before Eof there is no statement, and the cursor rests on Eof |
| StmtProps.StmtOfOne | compiler/parser/stmt_parser.cpp:13-19 | any other first token gives the statement it selects, or that statement's error |
| StmtProps.OtherIsExprStmt | compiler/parser/stmt_parser.cpp:19 | a first token that is none of internal, let, var, fun, an identifier and external starts an expression statement |
| StmtProps.ParenOf | compiler/parser/expr_parser.cpp:165-171 | '(' an expression ')' is that expression wrapped in a ParenExpr located at the '(', and the cursor ends after the ')' |
| StmtProps.ParenUnclosed | compiler/parser/expr_parser.cpp:169 | an expression after '(' not followed by ')' is the error "Expected )" at the token after the expression |
| StmtProps.ExprStmtOf | compiler/parser/stmt_parser.cpp:113-117 | parse_expr_stmt is the expression, located as it is, followed by the end of the statement, or else the error "Expected ';' or a newline" at the token after the expression |
| StmtProps.DefinedOf | compiler/parser/stmt_parser.cpp:58-60 | a definition's '=' and value must be followed by the end of the statement, and the error otherwise is located at the token after the value |
| StmtProps.DefinedNeedsEqual | compiler/parser/stmt_parser.cpp:58 | a definition without '=' is the error "Expected =" at the token found instead |
| StmtProps.VarInitShape | compiler/parser/stmt_parser.cpp:44-62 | a variable definition binds the identifier after `let` or `var`, is constant exactly for `let`, internal exactly when a location is passed in, located there or else at its first token, and has an annotation exactly when `of` follows the name |
| StmtProps.VarInitNeedsId | compiler/parser/stmt_parser.cpp:52-53 | `let` or `var` without a name is the error "Expected Identifier" at the token after it |
| StmtProps.FunDefShape | compiler/parser/stmt_parser.cpp:65-76 | a function definition carries the signature parse_fun_sig reads, is internal exactly when a location is passed in, and is located there or else at `fun` |
| StmtProps.InternalDispatch | compiler/parser/stmt_parser.cpp:101-111 | after `internal` comes a function definition or a variable definition located at `internal`; anything else is the error "Only function definitions and variable definitions can be marked as internal" at that token |
| StmtProps.InternalIffPrefixed | compiler/parser/stmt_parser.cpp:7-21 | a definition statement is internal exactly when it starts with `internal` |
| StmtProps.ExternalNeedsFun | compiler/parser/stmt_parser.cpp:122-124 | `external` not followed by `fun` is the error "Only function declarations are allowed after 'external'" at that token |
| StmtProps.ExternalOfSig | compiler/parser/stmt_parser.cpp:119-128 | `external` and a signature that ends the statement is a declaration of that signature located at `external` |
| StmtProps.IdStmtAssignment | compiler/parser/stmt_parser.cpp:28-30 | an identifier followed by '=' is an assignment |
| StmtProps.IdStmtExpr | compiler/parser/stmt_parser.cpp:31-33 | otherwise it is an expression statement that starts with the identifier |
| StmtProps.IdAtIsExpr | compiler/parser/expr_parser.cpp:140-148 | parse_id after an identifier gives exactly what parse_expr gives from that identifier: an identifier or a call, then the binary operators after it, errors included |
| StmtProps.IdStmtIsExprStmt | compiler/parser/stmt_parser.cpp:25-35 | an identifier not followed by '=' is parsed exactly as parse_expr_stmt parses it, errors included |
| StmtProps.IdStmtKinds | compiler/parser/stmt_parser.cpp:25-35 | an identifier statement is an assignment exactly when '=' follows the identifier, and an expression statement exactly otherwise |
| StmtProps.AssignmentOf | compiler/parser/stmt_parser.cpp:37-42 | an assignment is the target, the value and the end of the statement, located at the target |
| StmtProps.FunSigOf | compiler/parser/stmt_parser.cpp:84-99 | the signature is named by and located at the identifier after the first token, holds the parameters read after '(' in order and the annotation after ')', is not variadic, and ends where that annotation ends |
| StmtProps.DefArgOf | compiler/parser/stmt_parser.cpp:78-82 | a parameter is the token at the cursor, of whatever kind, as name and location, with the annotation after it |
| StmtProps.NumberAsParam | compiler/parser/stmt_parser.cpp:78-82 | an integer literal `1 of int` is accepted as a parameter named "1" |
| StmtProps.FunSigShape | compiler/parser/stmt_parser.cpp:84-99 | a signature is named by the identifier after its first token, '(' follows that name, the signature is located at the name, and it is never variadic |
| StmtProps.ParamSeparator | compiler/parser/stmt_parser.cpp:95 | a parameter followed by neither ',' nor ')' is the error "Expected ',' or ')'" at that token |
| StmtProps.ParamsComma | compiler/parser/stmt_parser.cpp:91-95 | a parameter and ',' go on with the next parameter |
| StmtProps.ParamsLast | compiler/parser/stmt_parser.cpp:91-97 | a parameter and ')' end the list, which then holds that parameter last |
| StmtProps.FileStep | compiler/parser/parser.cpp:12-13 | parse_file appends each statement and goes on after it |
| StmtProps.FileEnd | compiler/parser/parser.cpp:14-18 | no statement ends parse_file with the statements so far |
| StmtProps.FileError | compiler/parser/parser.cpp:12 | an error in a statement is the error of the whole file |
| StmtProps.FileKeepsPrefix | compiler/parser/parser.cpp:11-17 | the loop of parse_file only appends: the statements before stay, in order, in front |
| StmtProps.FileOfNewlines | compiler/parser/parser.cpp:8-19 | a file of nothing but newlines has no statements |
| ParserTests.HandlesEmptyFile | tests/parser/parser_test.cpp:21-24 | the empty file has no statement, and parse_stmt finds none on it |
| ParserTests.ParsesIntConst | tests/parser/parser_test.cpp:26-32 | "2" parses as the integer constant 2 |
| ParserTests.ParsesFloatConst | tests/parser/parser_test.cpp:34-40 | "2.5" parses as a float constant with that text |
| ParserTests.HandlesEmptyBlock | tests/parser/parser_test.cpp:43-49 | "{}" parses as a block with an empty body, wherever the line starts |
| ParserTests.HandlesOperatorPrecedence | tests/parser/parser_test.cpp:52-58 | "2 + 4 * 3" parses as an addition whose right operand is the multiplication |

## Left out

- Code generation (`compiler/IR_codegen/*`): thin wrappers over LLVM IRBuilder APIs, which are not part of this model.
- `main.cpp` and the driver `compiler/driver/module.cpp`: command line, JIT and LLVM plumbing. Only the pass order (collector, name resolution, type checker) is modelled, as the `Run` methods of the three passes.
- `compiler/AST/print_visitor.*`: output to stdout.
- Debug `to_string` helpers (`location.cpp`, `token.cpp`) and the accept/visit dispatch boilerplate: the passes match on the datatypes instead.
- The exception classes under `compiler/errors/`: each is a value of `Errors.Error` carrying its kind, its message and its location; throwing becomes returning `Err`, so nothing after a failure is modelled.
- The file-reading constructor of `SourceFile` (`std::ifstream`, `std::getline`): file I/O. `SourceFiles.SourceFile.FromFile` takes the lines `getline` returned as a parameter and models only what is stored, including the padding of an empty file.
- Floating point: `FloatConst` keeps its lexeme; `std::stod` and double values are not modelled.
- `std::stoi` on a lexeme is modelled (sign, digits, 32-bit range) but the lexer only hands it digit runs.
- Lexing.Lexer.constructor: requires at least one stored line. A `SourceFile` built from an empty vector stores no lines, and the C++ constructor's `get_line(1)` then throws `std::out_of_range` (`SourceFiles.NoLinesNoFirstLine`); the model does not construct a lexer in that case. Files read from disk always store at least one line (`SourceFiles.FileLinesShape`).
- The lexer's input alphabet: `Lexing.Lexer.constructor` requires every character to be whitespace, a digit, a letter or punctuation. On any other character `advance` loops forever, and bytes of 0x80 and above make `isalpha` undefined; the model does not claim anything for such input.
- After `'#'` the lexer leaves column 0 and a stale current line; the next `peek` reads index -1 of that line. The model returns `Undefined` there (`LexerProps.AdvanceComment`) instead of modelling the out-of-bounds read.
- The parser reads a finite token sequence that ends in Eof (`Parsing.TokensOk`) rather than driving the lexer itself; advancing at that Eof stays there. The real lexer reads the last line again after Eof (`LexerProps.AfterEnd`). So when a statement's end is taken at Eof, for example when an `if` without `else` ends the last line (the Newlines after its branch are skipped while looking for `else`), as in a final line `let y = if c then 1`, or when a bracket token read as a parameter name leaves the bracket depth non-zero so that the last Newline is skipped, as in a final line `fun f(( of int) of int = 1`, the C++ `parse_file` goes on with the tokens of that line again and does not come back, while the model stops there with the statements read so far.
- `parse_block_expr` at Eof pushes the null statement forever; the model returns `Internal` with a message saying it does not terminate (`ParserProps.UnclosedBlock`).
- The parser's state after a syntax error: the C++ throws and the parser is abandoned, so the methods promise nothing about the cursor on an error.
- Scope links: `Scope*` parent links and the scopes owned by blocks and functions become indices into the arena of `Scopes.ScopeTable`; object identity and lifetime are not modelled.
- The type checker's on-demand signature check of a callee (`type_checker.cpp:186-190`) also writes the parameter symbol slots of that callee; the model omits those writes, because the callee's own definition writes the same values before any of them is read.
- The type environment maps a type's string to the interned type; address identity of interned types is modelled by equality of the stored values.
- Parsing.ExprAt, Parsing.PrimaryAt, Parsing.BinaryAt and the other parser specification functions: their own contracts state only how far they move the cursor; what they build is stated by the lemmas in `ParserProps` and `StmtProps` for the shapes those lemmas name (operands, operator chains, calls, parentheses, `if`, `while`, blocks, identifier statements, assignments, declarations and signatures), not for every nesting of them.
