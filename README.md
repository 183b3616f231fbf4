# SG interpreter core in Dafny

SG is a small interpreted language with `let` bindings, `=` re-assignment,
integers, booleans (`true`/`factos`, `false`/`unfactos`), first-class
functions (`fun`), `if`/`else`, `return` (or `ret`), and a handful of
builtins on strings and arrays. Its interpreter runs in four stages:

- the **lexer** turns source text into tokens;
- a **Pratt parser** turns the tokens into an AST;
- the **evaluator** walks the AST over a chain of **scopes**;
- evaluation produces **items**, the runtime values.

This project models those stages and proves properties of them. The
modules follow the Go packages:

| module | Go package | form |
|---|---|---|
| `Runes` (runes.dfy) | — | one `char` per byte, and Go's conversion `string(byte)`, which the lexer and `get` both use |
| `Tokens` (token.dfy) | `token` | the token kinds, the keyword table and `FindIdent` |
| `Lexing` (lexer.dfy) | `lexer` | a pure specification `Lex(s, p)` of one `NextToken` step, plus class `Lexer`, whose methods update `pos`/`nxt`/`ch` the way the Go lexer does and are proved equal to the specification |
| `Ast` (ast.dfy) | `ast` | datatypes for the nodes and their `String()` renderings |
| `Items` (item.dfy) | `Item` | the item kinds, `Output`, hash keys, and class `Scope` with its enclosing chain |
| `Parsing` (parser.dfy) | `parser` | one pure function per parse function over a `PState` (current index and errors), plus class `Parser`, whose methods are proved equal to those functions |
| `ParserFacts` (parser_facts.dfy) | `parser` | what the parse functions build: the tree of each statement and expression form, the error each failure records, and the trees of small programs |
| `Evaluator` (evaluator.dfy) | `evaluator` | pure operator functions; an evaluation relation (`ExprRuns`, `StmtRuns`, `BlockRuns`, `ProgramRuns`, ...) over a store of frames; and imperative `Eval*` methods over `Scope` objects, each proved to perform a run of the relation |
| `EvaluatorFacts` (evaluator_facts.dfy) | `evaluator` | what the relation implies: which frames an evaluation may change, and the results of small programs |
| `Builtins` (builtins.dfy) | `evaluator/builtins.go` | `len`, `first`, `last`, `get`, `push`, `set`, `reverse`, `sort` (with its in-place quicksort) |

Representation choices:

- Each `char` of a `string` stands for one byte of the Go string. The model does not exclude chars from 256 on; where a byte value matters (`ByteOf`, hashing, `string(byte)`) such a char is read modulo 256.
- Integers are `Int64`, and the evaluator wraps arithmetic modulo 2^64 as Go's `int64` does.
- Go's truncating division is written out as `GoDiv`.
- Items that Go compares by identity are classes: strings, return wrappers, functions and arrays.
- A Go `nil` item is `Nil`; a `nil` expression is `Missing`.

## Model

| member | source | states |
|---|---|---|
| `Tokens.FindIdentFollowsKeywords` | sg_interpreter/src/sg/token/token.go:54-73 | a word is an identifier exactly when it is not in the keyword table; a word in the table gets the table's kind, which is always a keyword kind |
| `Tokens.OperatorSpellings` | sg_interpreter/src/sg/token/token.go:11-30 | the operator and delimiter kinds are spelled `==`, `!=`, `=`, `!`, `(`, `}` |
| `Tokens.KeywordKinds` | sg_interpreter/src/sg/token/token.go:54-66 | `fun`, `let`, `if`, `else` and `for` map to their keyword kinds |
| `Tokens.BooleanSynonyms` | sg_interpreter/src/sg/token/token.go:57-60 | `true`/`factos` are both TRUE and `false`/`unfactos` are both FALSE |
| `Tokens.ReturnSynonym` | sg_interpreter/src/sg/token/token.go:63-64 | `return` and `ret` are both RETURN |
| `Tokens.NonKeywordsAreIdentifiers` | sg_interpreter/src/sg/token/token.go:68-73 | a word not in the table (`x`, `Let`, `function`) is IDENT; matching is case-sensitive |
| `Lexing.SkipWs` | sg_interpreter/src/sg/lexer/lexer.go:94-98 | whitespace skipping stops at the first non-space, tab, newline or carriage-return byte and passes only such bytes |
| `Lexing.IdentEnd` | sg_interpreter/src/sg/lexer/lexer.go:137-148 | an identifier runs over letters and `_` and ends at the first other byte |
| `Lexing.NumEnd` | sg_interpreter/src/sg/lexer/lexer.go:129-135 | a number runs over ASCII digits and ends at the first non-digit |
| `Lexing.QuoteEnd` | sg_interpreter/src/sg/lexer/lexer.go:110-119 | a string literal runs to the closing `"` or to the end of input |
| `Lexing.WordIsIdentOrKeyword` | sg_interpreter/src/sg/lexer/lexer.go:78-81 | a word that starts with a letter lexes as IDENT or as a keyword kind |
| `Lexing.LexAdvances` | sg_interpreter/src/sg/lexer/lexer.go:18-92 | each token step moves the position forward and stays in bounds until EOF; EOF has an empty literal and sits on a NUL or past the end; past the end every step is EOF |
| `Lexing.StreamOf` | sg_interpreter/src/sg/lexer/lexer.go:74-76 | reading with any forward-moving step until an EOF past the end gives a non-empty stream ending in EOF |
| `Lexing.NthReadPastEnd` | sg_interpreter/src/sg/lexer/lexer.go:74-76 | for such a step, every read past the end is EOF |
| `Lexing.StreamOfIsReads` | sg_interpreter/src/sg/lexer/lexer.go:18-92 | for such a step, position k of the stream is the k-th read |
| `Lexing.LexStepsForward` | sg_interpreter/src/sg/lexer/lexer.go:18-92 | the lexer's `NextToken` step is such a step: it moves forward, stays in bounds until EOF, gives EOF an empty literal and reads only EOF past the end |
| `Lexing.Stream` | sg_interpreter/src/sg/lexer/lexer.go:74-76 | repeated `NextToken` calls produce a non-empty stream that ends with the final EOF |
| `Lexing.EofIsSticky` | sg_interpreter/src/sg/lexer/lexer.go:100-108 | once the reader is past the input, every later token is EOF |
| `Lexing.StreamIsLexerOutput` | sg_interpreter/src/sg/lexer/lexer.go:18-92 | the k-th token of the stream is the k-th `NextToken` result, reading past the end as EOF; this is how the parser's token list relates to the lexer |
| `Lexing.TokenTextIsConsumedInput` | sg_interpreter/src/sg/lexer/lexer.go:18-92 | every token other than a string, EOF or ILLEGAL has as its literal exactly the input it consumed; ILLEGAL consumes one byte, and below 0x80 that byte is its literal; a string token's literal is the text between the quotes |
| `Lexing.WordTokens` | sg_interpreter/src/sg/lexer/lexer.go:77-85 | identifier and keyword literals are non-empty runs of letters whose kind is `FindIdent` of the literal; integer literals are non-empty digit runs; neither is followed by another byte of its class |
| `Lexing.LetterRun` | sg_interpreter/src/sg/lexer/lexer.go:137-148 | the word read from a letter is non-empty and made of letters only |
| `Lexing.DigitRun` | sg_interpreter/src/sg/lexer/lexer.go:129-135 | the number read from a digit is non-empty and made of digits only |
| `Lexing.CharClasses` | sg_interpreter/src/sg/lexer/lexer.go:145-152 | `isLetter` and `isDigit` are disjoint from each other and from whitespace, the operator and delimiter bytes, the quote and NUL, so `Lex` starts a word exactly at a letter and a number exactly at a digit |
| `Lexing.StringTokens` | sg_interpreter/src/sg/lexer/lexer.go:110-119 | a string literal contains no quote and no NUL |
| `Lexing.IllegalTokens` | sg_interpreter/src/sg/lexer/lexer.go:86-88 | ILLEGAL is produced exactly for a byte that is not an operator, delimiter, quote, letter, digit or NUL; it consumes one byte, and its literal is Go's `string(byte)` of it, which decodes back to the byte |
| `Lexing.IllegalHighByteWidens` | sg_interpreter/src/sg/lexer/lexer.go:154-156 | the ILLEGAL literal of byte 0xE9 is the two bytes 0xC3 0xA9; that of `@` is `@` |
| `Lexing.TwoByteOperators` | sg_interpreter/src/sg/lexer/lexer.go:23-57 | `==` and `!=` need adjacent bytes; `= =` lexes as `=` and `!x` starts with `!` |
| `Lexing.LexIntOf12ab` | sg_interpreter/src/sg/lexer/lexer.go:82-85 | on `12ab` the first token is INT `12`, ending at index 2 |
| `Lexing.LexIdentOf12ab` | sg_interpreter/src/sg/lexer/lexer.go:78-81 | from index 2 of `12ab` the token is IDENT `ab` |
| `Lexing.DigitsThenLetters` | sg_interpreter/src/sg/lexer/lexer.go:77-88 | `12ab` tokenizes to INT `12`, IDENT `ab`, EOF |
| `Lexing.Lexer.constructor` | sg_interpreter/src/sg/lexer/lexer.go:12-16 | a new lexer has read its first byte: position 0 over the given input |
| `Lexing.Lexer.ReadChar` | sg_interpreter/src/sg/lexer/lexer.go:100-108 | the read position becomes the current one and advances by one; the current byte is NUL past the end |
| `Lexing.Lexer.Peek` | sg_interpreter/src/sg/lexer/lexer.go:121-127 | returns the next byte, or NUL past the end, without moving |
| `Lexing.Lexer.SkipWhitespace` | sg_interpreter/src/sg/lexer/lexer.go:94-98 | moves to `SkipWs` of the old position |
| `Lexing.Lexer.ReadString` | sg_interpreter/src/sg/lexer/lexer.go:110-119 | moves to the closing quote and returns the text between the quotes |
| `Lexing.Lexer.ReadNum` | sg_interpreter/src/sg/lexer/lexer.go:129-135 | moves past the digits and returns them |
| `Lexing.Lexer.ReadIdent` | sg_interpreter/src/sg/lexer/lexer.go:137-143 | moves past the letters and returns them |
| `Lexing.Lexer.NextToken` | sg_interpreter/src/sg/lexer/lexer.go:18-92 | the token and new position are exactly `Lex` of the old position, so the lemmas about `Lex` hold of the imperative lexer |
| `Ast.StmtsStringAppend` | sg_interpreter/src/sg/ast/ast.go:44-50 | the rendering of a statement list is the concatenation of the renderings of its parts |
| `Ast.IfConditionNotRendered` | sg_interpreter/src/sg/ast/ast.go:185-194 | an `if` renders as `if`, the consequence twice, then the alternative; the condition never appears, so two ifs that differ only in their condition render the same |
| `Ast.OperatorTreeParensBalance` | sg_interpreter/src/sg/ast/ast.go:146-174 | a tree of prefix and infix operators over leaves is printable, has balanced parentheses, and parenthesises every operator node |
| `Items.Wrap64` | sg_interpreter/src/sg/Item/Item.go:43-45 | a mathematical integer wraps to the int64 congruent to it modulo 2^64, and an in-range value is unchanged |
| `Items.TypeNameInjective` | sg_interpreter/src/sg/Item/Item.go:18-32 | different item kinds have different type names |
| `Items.TypeOfSeparates` | sg_interpreter/src/sg/Item/Item.go:18-32 | two items have the same `Type()` exactly when they are of the same kind; no modelled item is a HASH |
| `Items.StringObj.constructor` | sg_interpreter/src/sg/Item/Item.go:133-135 | a new string item holds the given text |
| `Items.ReturnBox.constructor` | sg_interpreter/src/sg/Item/Item.go:86-88 | a new return wrapper holds the given item |
| `Items.FunctionObj.constructor` | sg_interpreter/src/sg/Item/Item.go:109-113 | a new function item holds its parameters, body and defining scope |
| `Items.ArrayObj.Contents` | sg_interpreter/src/sg/Item/Item.go:154-158 | an array's contents are the first `len` elements of its backing store |
| `Items.ArrayObj.constructor` | sg_interpreter/src/sg/Item/Item.go:154-158 | a new array has a fresh store, length and capacity equal to the given items, and those items as its contents |
| `Items.Scope.constructor` | sg_interpreter/src/sg/Item/Scope.go:8-11 | a new scope has an empty map and no outer scope, so every lookup misses |
| `Items.Scope.Enclosed` | sg_interpreter/src/sg/Item/Scope.go:13-17 | an enclosed scope starts empty, and every lookup in it answers as its outer scope does |
| `Items.Scope.Get` | sg_interpreter/src/sg/Item/Scope.go:19-25 | `Get` finds a key exactly when it is bound in this scope or an enclosing one, returns the innermost binding, and changes nothing |
| `Items.Scope.Set` | sg_interpreter/src/sg/Item/Scope.go:27-30 | `Set` binds the key in this scope only, returns the item, and leaves every other key's lookup unchanged |
| `Items.Scope.OuterExcludesThis` | sg_interpreter/src/sg/Item/Scope.go:3-6 | the scope chain has no cycle: a scope is not among its outer scopes |
| `Items.Resolve` | sg_interpreter/src/sg/Item/Scope.go:19-25 | resolving a key through a list of frames finds it exactly when some frame binds it, and returns the first frame's binding |
| `Items.LookupResolves` | sg_interpreter/src/sg/Item/Scope.go:19-25 | a scope's recursive lookup equals resolution through its frames, innermost first |
| `Items.FnvFromAppend` | sg_interpreter/src/sg/Item/Item.go:139-143 | FNV-1a over a concatenation is FNV-1a over the second part, started from the hash of the first |
| `Items.FnvTestVectors` | sg_interpreter/src/sg/Item/Item.go:139-143 | FNV-1a 64 of the empty string is the offset basis and of `a` is 0xaf63dc4c8601ec8c |
| `Items.Uint64Of` | sg_interpreter/src/sg/Item/Item.go:53-55 | the `uint64` conversion of an int64 keeps non-negative values and adds 2^64 to negative ones |
| `Items.HashKeyOf` | sg_interpreter/src/sg/Item/Item.go:53-75 | a hash key carries the item's type and a 64-bit value |
| `Items.ScalarKeysIdentify` | sg_interpreter/src/sg/Item/Item.go:53-75 | integers and booleans have equal hash keys exactly when they are equal |
| `Items.StringKeysFollowContent` | sg_interpreter/src/sg/Item/Item.go:139-143 | strings with the same text have the same key, the key's value is the FNV-1a hash of the text, and no string key equals an integer or boolean key |
| `Items.Digits` | sg_interpreter/src/sg/Item/Item.go:50-52 | the decimal digits of a natural number: non-empty, all digits, and a leading `0` only for zero |
| `Items.Decimal` | sg_interpreter/src/sg/Item/Item.go:50-52 | an integer's output is its digits, preceded by `-` exactly when it is negative |
| `Items.OutputAll` | sg_interpreter/src/sg/Item/Item.go:161-175 | an array's element outputs, when all exist, are one per element |
| `Items.BooleanOutputRelexes` | sg_interpreter/src/sg/Item/Item.go:64-66 | a boolean outputs `true`/`false`, which the keyword table maps back to the same boolean |
| `Items.ReturnOutputUnwraps` | sg_interpreter/src/sg/Item/Item.go:90-92 | a return wrapper outputs what it wraps; for an integer, its decimal text |
| `Items.FunctionOutputOfPair` | sg_interpreter/src/sg/Item/Item.go:118-131 | a function outputs `fun(`, its parameter names joined by `, `, `) {`, a newline, its body, a newline and `}`: `fun(x, y) { x }` outputs `fun(x, y) {\nx\n}` |
| `Items.EmptyFunctionOutput` | sg_interpreter/src/sg/Item/Item.go:118-131 | a function with no parameters and an empty body outputs `fun() {`, two newlines and `}` |
| `Items.ArrayOutputOfPair` | sg_interpreter/src/sg/Item/Item.go:161-175 | an array outputs its first `len` elements' outputs joined by `, ` in brackets: 1 and -2 give `[1, -2]` |
| `Items.ArrayOutputEdges` | sg_interpreter/src/sg/Item/Item.go:161-175 | an empty array outputs `[]`; an array whose length exceeds its store has no output, where Go indexes out of range |
| `Parsing.InfixTokensArePrecedenced` | sg_interpreter/src/sg/parser/parser.go:11-31 | a token kind has an infix parse function exactly when its precedence is above LOWEST; the levels are ordered LOWEST < EQUALS < LESSGREATER < SUM < PRODUCT < PREFIX < CALL |
| `Parsing.ExpectPeekS` | sg_interpreter/src/sg/parser/parser.go:103-111 | `expectPeek` succeeds exactly when the next token has the expected kind; success advances onto it, and failure records a peek error naming both kinds and does not move |
| `Parsing.SkipSemicolonS` | sg_interpreter/src/sg/parser/parser.go:196-198 | skipping an optional `;` only moves forward and keeps the recorded errors (`ParserFacts.SemicolonSkipped` states when it moves) |
| `Parsing.DigitsValue` | sg_interpreter/src/sg/parser/parser.go:138-151 | the base-10 value of an integer's decimal digits is the integer |
| `Parsing.ParseIntRoundTrip` | sg_interpreter/src/sg/parser/parser.go:138-151 | `strconv.ParseInt(s, 0, 64)` on the decimal text of any n up to MaxInt64 gives back n |
| `Parsing.ParseIntEdgeCases` | sg_interpreter/src/sg/parser/parser.go:141-146 | with base 0, `010` is octal 8, `09` and the empty string are rejected, and `0` is 0 |
| `Parsing.ParseStatementS` | sg_interpreter/src/sg/parser/parser.go:173-185 | statement parsing only moves forward and keeps earlier errors; a missing statement always comes with a new error |
| `Parsing.ParseSetS` | sg_interpreter/src/sg/parser/parser.go:186-201 | the same, for `name = expr` |
| `Parsing.ParseLetS` | sg_interpreter/src/sg/parser/parser.go:202-220 | the same, for `let name = expr` |
| `Parsing.ParseReturnS` | sg_interpreter/src/sg/parser/parser.go:222-230 | return parsing only moves forward and keeps earlier errors |
| `Parsing.ParseExprStmtS` | sg_interpreter/src/sg/parser/parser.go:232-240 | expression-statement parsing only moves forward and keeps earlier errors |
| `Parsing.ParseExpressionS` | sg_interpreter/src/sg/parser/parser.go:242-260 | expression parsing only moves forward; a missing expression always comes with a new error |
| `Parsing.ParseInfixLoopS` | sg_interpreter/src/sg/parser/parser.go:251-258 | the precedence loop either stops at once or consumes an operator that binds tighter than the given precedence; it yields a missing tree only from a missing left operand |
| `Parsing.InfixLoopEnds` | sg_interpreter/src/sg/parser/parser.go:251-255 | at `;`, at an operator that binds no tighter, or at a token without an infix function, the loop returns its left operand without moving |
| `Parsing.ParsePrefixS` | sg_interpreter/src/sg/parser/parser.go:243-249 | prefix dispatch only moves forward; a missing result always comes with a new error |
| `Parsing.ParseIntegerLiteralS` | sg_interpreter/src/sg/parser/parser.go:138-151 | integer parsing only moves forward; a rejected literal records an error |
| `Parsing.ParsePrefixExpressionS` | sg_interpreter/src/sg/parser/parser.go:262-270 | prefix-operator parsing only moves forward and keeps earlier errors |
| `Parsing.ParseGroupedS` | sg_interpreter/src/sg/parser/parser.go:284-291 | grouped-expression parsing only moves forward; a missing result always comes with a new error |
| `Parsing.ParseInfixS` | sg_interpreter/src/sg/parser/parser.go:252-257 | an infix step only moves forward and always builds a node |
| `Parsing.ParseOperatorS` | sg_interpreter/src/sg/parser/parser.go:272-282 | binary-operator parsing only moves forward and keeps earlier errors |
| `Parsing.ParseCallS` | sg_interpreter/src/sg/parser/parser.go:372-376 | call parsing only moves forward and keeps earlier errors |
| `Parsing.ParseIfS` | sg_interpreter/src/sg/parser/parser.go:293-315 | `if` parsing only moves forward; a missing result always comes with a new error |
| `Parsing.ParseIfBlocksS` | sg_interpreter/src/sg/parser/parser.go:303-314 | the same, for the condition's closing part and the blocks |
| `Parsing.ParseElseS` | sg_interpreter/src/sg/parser/parser.go:307-314 | the same, for the optional `else` block |
| `Parsing.ParseFunctionLiteralS` | sg_interpreter/src/sg/parser/parser.go:333-346 | function-literal parsing only moves forward; a missing result always comes with a new error |
| `Parsing.ParseParametersS` | sg_interpreter/src/sg/parser/parser.go:348-370 | parameter-list parsing only moves forward and keeps earlier errors |
| `Parsing.ParseParametersLoopS` | sg_interpreter/src/sg/parser/parser.go:360-364 | the comma loop only moves forward and only appends parameters |
| `Parsing.ParseCallArgumentsS` | sg_interpreter/src/sg/parser/parser.go:378-400 | argument-list parsing only moves forward and keeps earlier errors |
| `Parsing.ParseArgumentsTailS` | sg_interpreter/src/sg/parser/parser.go:386-399 | the same, after the first argument |
| `Parsing.ParseArgumentsLoopS` | sg_interpreter/src/sg/parser/parser.go:389-393 | the comma loop only moves forward and only appends arguments |
| `Parsing.ParseBlockS` | sg_interpreter/src/sg/parser/parser.go:317-331 | block parsing only moves forward and stops on `}` or EOF |
| `Parsing.ParseStatementsS` | sg_interpreter/src/sg/parser/parser.go:161-172 | the statement loop only appends statements and stops only on its terminator or EOF |
| `Parsing.ParseProgramS` | sg_interpreter/src/sg/parser/parser.go:161-172 | program parsing only moves forward and ends on EOF |
| `Parsing.BinaryGrouping` | sg_interpreter/src/sg/parser/parser.go:242-282 | `x op1 y op2 z` groups to the left when op1 binds at least as tightly as op2, and otherwise to the right, with no errors and all tokens consumed |
| `Parsing.GroupsLeft` | sg_interpreter/src/sg/parser/parser.go:242-282 | the left-grouping half of that |
| `Parsing.GroupsRight` | sg_interpreter/src/sg/parser/parser.go:242-282 | the right-grouping half of that |
| `Parsing.PrefixBindsTighter` | sg_interpreter/src/sg/parser/parser.go:262-270 | `-x op y` and `!x op y` parse as `(op x) op y` for every binary operator |
| `Parsing.InfixAfterPrefix` | sg_interpreter/src/sg/parser/parser.go:251-258 | after any left operand, with a binary operator and a name next, the loop attaches that operator and the name as its right operand and consumes all tokens |
| `Parsing.PrefixTakesOperand` | sg_interpreter/src/sg/parser/parser.go:262-270 | a prefix operator takes only the operand right after it, since it parses that operand at PREFIX precedence |
| `Parsing.ProductInsideSum` | sg_interpreter/src/sg/parser/parser.go:242-282 | `a + b * c` renders as `(a + (b * c))` |
| `Parsing.DifferenceGroupsLeft` | sg_interpreter/src/sg/parser/parser.go:242-282 | `a - b - c` renders as `((a - b) - c)` |
| `Parsing.LexedIntegersAreNumerals` | sg_interpreter/src/sg/parser/parser.go:138-151 | every INT token the lexer produces is a non-empty digit string, which is the only kind of literal the integer parser sees |
| `Parsing.ExpressionFromIdentifier` | sg_interpreter/src/sg/parser/parser.go:242-258 | an expression that starts at a name hands that name, as an identifier node, to the infix loop without moving |
| `Parsing.IdentifierOperand` | sg_interpreter/src/sg/parser/parser.go:242-258 | a name followed by no operator, `(` or `;` is the whole expression, and nothing is consumed after it |
| `Parsing.OperatorTurn` | sg_interpreter/src/sg/parser/parser.go:251-282 | one turn of the loop on a binary operator that binds tighter than the given precedence makes it a node over the left operand and the expression parsed at its own precedence after it |
| `Parsing.Parser.Errors` | sg_interpreter/src/sg/parser/parser.go:126-128 | one message per recorded error |
| `Parsing.Parser.constructor` | sg_interpreter/src/sg/parser/parser.go:57-90 | a new parser stands on the first token with no errors |
| `Parsing.Parser.NextToken` | sg_interpreter/src/sg/parser/parser.go:92-95 | moves one token forward |
| `Parsing.Parser.ExpectPeek` | sg_interpreter/src/sg/parser/parser.go:103-111 | equals `ExpectPeekS` |
| `Parsing.Parser.SkipSemicolon` | sg_interpreter/src/sg/parser/parser.go:196-198 | equals `SkipSemicolonS` |
| `Parsing.Parser.ParseProgram` | sg_interpreter/src/sg/parser/parser.go:161-172 | result and new state equal `ParseProgramS` |
| `Parsing.Parser.ParseStatement` | sg_interpreter/src/sg/parser/parser.go:173-185 | equals `ParseStatementS` |
| `Parsing.Parser.ParseSetStatement` | sg_interpreter/src/sg/parser/parser.go:186-201 | equals `ParseSetS` |
| `Parsing.Parser.ParseLetStatement` | sg_interpreter/src/sg/parser/parser.go:202-220 | equals `ParseLetS` |
| `Parsing.Parser.ParseReturnStatement` | sg_interpreter/src/sg/parser/parser.go:222-230 | equals `ParseReturnS` |
| `Parsing.Parser.ParseExpressionStatement` | sg_interpreter/src/sg/parser/parser.go:232-240 | equals `ParseExprStmtS` |
| `Parsing.Parser.ParseExpression` | sg_interpreter/src/sg/parser/parser.go:242-260 | equals `ParseExpressionS`, so the grouping lemmas hold of the imperative parser |
| `Parsing.Parser.ParseInfixLoop` | sg_interpreter/src/sg/parser/parser.go:251-258 | the `for` loop equals `ParseInfixLoopS` |
| `Parsing.Parser.ParseInfixStep` | sg_interpreter/src/sg/parser/parser.go:252-257 | one loop iteration moves strictly forward and keeps the loop's outcome |
| `Parsing.Parser.ParsePrefix` | sg_interpreter/src/sg/parser/parser.go:243-249 | equals `ParsePrefixS` |
| `Parsing.Parser.ParseIdentifier` | sg_interpreter/src/sg/parser/parser.go:135-137 | an identifier node from the current token, without moving |
| `Parsing.Parser.ParseIntegerLiteral` | sg_interpreter/src/sg/parser/parser.go:138-151 | equals `ParseIntegerLiteralS` |
| `Parsing.Parser.ParseBoolean` | sg_interpreter/src/sg/parser/parser.go:157-159 | a boolean node from the current token, without moving |
| `Parsing.Parser.ParsePrefixExpression` | sg_interpreter/src/sg/parser/parser.go:262-270 | equals `ParsePrefixExpressionS` |
| `Parsing.Parser.ParseGroupedExpression` | sg_interpreter/src/sg/parser/parser.go:284-291 | equals `ParseGroupedS` |
| `Parsing.Parser.ParseInfix` | sg_interpreter/src/sg/parser/parser.go:252-257 | equals `ParseInfixS` |
| `Parsing.Parser.ParseInfixExpression` | sg_interpreter/src/sg/parser/parser.go:272-282 | equals `ParseOperatorS` |
| `Parsing.Parser.ParseCallExpression` | sg_interpreter/src/sg/parser/parser.go:372-376 | equals `ParseCallS` |
| `Parsing.Parser.ParseCallArguments` | sg_interpreter/src/sg/parser/parser.go:378-400 | equals `ParseCallArgumentsS` |
| `Parsing.Parser.ParseArgumentsTail` | sg_interpreter/src/sg/parser/parser.go:386-399 | equals `ParseArgumentsTailS` |
| `Parsing.Parser.ParseArgumentsLoop` | sg_interpreter/src/sg/parser/parser.go:389-393 | the `for` loop equals `ParseArgumentsLoopS` |
| `Parsing.Parser.ParseArgumentStep` | sg_interpreter/src/sg/parser/parser.go:390-392 | one iteration moves strictly forward and keeps the loop's outcome |
| `Parsing.Parser.ParseIfExpression` | sg_interpreter/src/sg/parser/parser.go:293-315 | equals `ParseIfS` |
| `Parsing.Parser.ParseIfBlocks` | sg_interpreter/src/sg/parser/parser.go:303-314 | equals `ParseIfBlocksS` |
| `Parsing.Parser.ParseElse` | sg_interpreter/src/sg/parser/parser.go:307-314 | equals `ParseElseS` |
| `Parsing.Parser.ParseBlockStatement` | sg_interpreter/src/sg/parser/parser.go:317-331 | equals `ParseBlockS` |
| `Parsing.Parser.ParseFunctionLiteral` | sg_interpreter/src/sg/parser/parser.go:333-346 | equals `ParseFunctionLiteralS` |
| `Parsing.Parser.ParseFunctionParameters` | sg_interpreter/src/sg/parser/parser.go:348-370 | equals `ParseParametersS` |
| `Parsing.Parser.ParseParametersLoop` | sg_interpreter/src/sg/parser/parser.go:360-364 | the `for` loop equals `ParseParametersLoopS` |
| `ParserFacts.ProgramTokenIsFirstToken` | sg_interpreter/src/sg/parser/parser.go:161-185 | after parsing, a program's `TokenLiteral` (ast.go:36-42) is the literal of the token its first statement started on, and its first statement is the one parsed there |
| `ParserFacts.SemicolonSkipped` | sg_interpreter/src/sg/parser/parser.go:196-198 | the optional `;` is stepped over exactly when the next token is one; no error is recorded, and afterwards no `;` is left next |
| `ParserFacts.StatementShape` | sg_interpreter/src/sg/parser/parser.go:173-185 | only a `let` statement can fail, and then an error is recorded; a parsed statement carries the token it started on and leaves no `;` next |
| `ParserFacts.AssignmentShape` | sg_interpreter/src/sg/parser/parser.go:186-201 | `name = expr` is an assignment exactly when `=` follows the name, binding that name to the expression after `=`; otherwise the error names the token found instead of `=` |
| `ParserFacts.LetShape` | sg_interpreter/src/sg/parser/parser.go:202-220 | `let` gives a statement exactly when a name and then `=` follow, binding that name to the expression after `=`; otherwise the error names the first token that is not the one expected, and the cursor stops before it |
| `ParserFacts.ReturnShape` | sg_interpreter/src/sg/parser/parser.go:222-230 | `return` always yields a statement holding the expression after the keyword |
| `ParserFacts.ExpressionStatementShape` | sg_interpreter/src/sg/parser/parser.go:232-240 | an expression statement always yields a statement holding the expression at the current token |
| `ParserFacts.NoPrefixReported` | sg_interpreter/src/sg/parser/parser.go:243-248 | a token without a prefix parse function yields no expression, the error `no prefix parse function for TYPE found`, and no move |
| `ParserFacts.BooleanTruth` | sg_interpreter/src/sg/parser/parser.go:157-159 | a `true` or `false` token gives a boolean node that is true exactly for `true`, without moving |
| `ParserFacts.GroupedShape` | sg_interpreter/src/sg/parser/parser.go:284-291 | parentheses add no node: the group is the expression inside when a `)` follows it, and otherwise nothing, with an error naming the token found instead of `)` |
| `ParserFacts.IfConditionShape` | sg_interpreter/src/sg/parser/parser.go:293-302 | without `(` after `if` there is no node and the error names the token found; a node starts at the keyword, and its condition is the expression after `(`, which a `)` closes |
| `ParserFacts.IfBlocksShape` | sg_interpreter/src/sg/parser/parser.go:303-306 | without `{` after the condition there is no node and the error names the token found; the consequence is the block that starts at that `{` |
| `ParserFacts.ElseShape` | sg_interpreter/src/sg/parser/parser.go:307-314 | the node is missing exactly when `else` is not followed by `{`; it has an alternative exactly when `else` follows the consequence, and that alternative is the block after `else` |
| `ParserFacts.FunctionLiteralShape` | sg_interpreter/src/sg/parser/parser.go:333-346 | without `(` after `fun` there is no node and the error names the token found; otherwise there is a node exactly when `{` follows the parameters, holding those parameters and that block |
| `ParserFacts.PrefixNodeToken` | sg_interpreter/src/sg/parser/parser.go:243-249 | the `TokenLiteral` (ast.go) of every node a prefix parse function builds, other than a group, is the literal of the token it starts at |
| `ParserFacts.ParametersFollowCommas` | sg_interpreter/src/sg/parser/parser.go:360-364 | the comma loop takes the token after each comma as the next name, keeps the names before it, stops at the first name not followed by a comma, and records no error |
| `ParserFacts.ParameterListShape` | sg_interpreter/src/sg/parser/parser.go:348-370 | `()` is the empty parameter list, and a non-empty list is returned only when it ends on its `)` |
| `ParserFacts.CallArgumentsShape` | sg_interpreter/src/sg/parser/parser.go:378-400 | `()` is the empty argument list; a non-empty list starts with the expression right after `(` and is returned only when it ends on its `)` |
| `ParserFacts.IntegerLiteralShape` | sg_interpreter/src/sg/parser/parser.go:138-151 | an integer node exactly when `strconv.ParseInt(lit, 0, 64)` succeeds, holding its value, without moving; otherwise no node and the error `Couldn't parse "LIT" as an Integer` |
| `ParserFacts.IntegerOverflowIsRejected` | sg_interpreter/src/sg/parser/parser.go:138-151 | a decimal literal above MaxInt64 is rejected and the literal is named in the error |
| `ParserFacts.IntegerLiteralValue` | sg_interpreter/src/sg/parser/parser.go:138-151 | a decimal literal up to MaxInt64 becomes an integer node holding its value |
| `ParserFacts.OneStatement` | sg_interpreter/src/sg/parser/parser.go:161-172 | a statement followed by the list's terminator is a list of that one statement |
| `ParserFacts.IdentifierStatement` | sg_interpreter/src/sg/parser/parser.go:173-185 | a lone name followed by no `=`, `;` or operator is an expression statement of that name |
| `ParserFacts.CallTurn` | sg_interpreter/src/sg/parser/parser.go:372-376 | on `(` the loop makes a call node whose callee is the left operand and whose arguments are the list that follows |
| `ParserFacts.LetProgram` | sg_interpreter/src/sg/parser/parser.go:161-220 | `let x = 5;` parses, with no error, to one let statement binding `x` to 5, and the program renders as `let x = 5;` (ast.go StmtString) |
| `ParserFacts.NoPrefixProgram` | sg_interpreter/src/sg/parser/parser.go:243-248 | `)` on its own parses to an expression statement with no expression and the one error `no prefix parse function for ) found` |
| `ParserFacts.GroupingOverridesPrecedence` | sg_interpreter/src/sg/parser/parser.go:284-291 | `(a + b) * c` parses, with no error, to a product whose left operand is the sum, rendering as `((a + b) * c)` |
| `ParserFacts.IfElseExpression` | sg_interpreter/src/sg/parser/parser.go:293-331 | `if (x) { y } else { z }`, for any three names, parses with no error to an if node with condition `x`, consequence `{ y }` and alternative `{ z }`, ending on the last `}` |
| `ParserFacts.FunctionLiteralExpression` | sg_interpreter/src/sg/parser/parser.go:333-370 | `fun(x, y) { x }` parses, with no error, to a function node with the parameters `x` and `y` in order and the body `{ x }` |
| `ParserFacts.CallExpression` | sg_interpreter/src/sg/parser/parser.go:372-400 | `f(a, b)` parses, with no error, to a call of `f` with the arguments `a` and `b` in order |
| `ParserFacts.UnclosedCallDropsArguments` | sg_interpreter/src/sg/parser/parser.go:386-399 | `f(a` without `)` gives a call of `f` with no arguments, and the error names the missing `)` |
| `Evaluator.TrueLike` | sg_interpreter/src/sg/evaluator/evaluator.go:199-210 | an item is false-like exactly when it is NULL or FALSE |
| `Evaluator.EvalEXC` | sg_interpreter/src/sg/evaluator/evaluator.go:146-157 | `!v` is the boolean opposite of v's truthiness |
| `Evaluator.EvalMINUS` | sg_interpreter/src/sg/evaluator/evaluator.go:159-166 | `-v` is an integer exactly when v is, and an error otherwise |
| `Evaluator.EvalPrefixExpression` | sg_interpreter/src/sg/evaluator/evaluator.go:118-127 | `!` negates truthiness; an operator other than `!` and `-` is an error |
| `Evaluator.GoDivTruncates` | sg_interpreter/src/sg/evaluator/evaluator.go:176-177 | Go's `/` truncates toward zero: the remainder is smaller than the divisor and takes the dividend's sign, and the quotient's size is that of the unsigned quotient |
| `Evaluator.GoDivTimes` | sg_interpreter/src/sg/evaluator/evaluator.go:176-177 | quotient times divisor is the dividend rounded toward zero to a multiple of the divisor |
| `Evaluator.EvalIntegerInfixExpr` | sg_interpreter/src/sg/evaluator/evaluator.go:168-190 | arithmetic operators give integers and comparisons give booleans |
| `Evaluator.EvalInfixExpression` | sg_interpreter/src/sg/evaluator/evaluator.go:129-144 | an infix result is an integer, a boolean or an error |
| `Evaluator.ErrorsByType` | sg_interpreter/src/sg/evaluator/evaluator.go:271-276 | `isError` holds exactly for a non-nil item whose `Type()` is ERROR, and such an item's type name is `ERROR` |
| `Evaluator.BooleansRoundTrip` | sg_interpreter/src/sg/evaluator/evaluator.go:192-210 | `boolToBoolean` and `TrueLike` are inverse: the singleton for b is a Boolean whose truthiness is b, and a Boolean is the singleton of its own truthiness |
| `Evaluator.UnwrapKeepsOutput` | sg_interpreter/src/sg/evaluator/evaluator.go:261-267 | `UnrwapReturnValue` leaves every item but a return wrapper as it is, and a wrapper outputs exactly what unwrapping it yields |
| `Evaluator.NotNegatesTruthiness` | sg_interpreter/src/sg/evaluator/evaluator.go:146-157 | `!` flips truthiness, and `!!v` is v's truthiness as a boolean |
| `Evaluator.Truthiness` | sg_interpreter/src/sg/evaluator/evaluator.go:199-210 | integers (including 0), nil and TRUE are true-like; NULL and FALSE are not |
| `Evaluator.NegationWraps` | sg_interpreter/src/sg/evaluator/evaluator.go:159-166 | negating an integer other than MinInt64 gives its negation; MinInt64 negates to itself; a non-integer gives `unknown operator: -TYPE` |
| `Evaluator.NegationInvolutive` | sg_interpreter/src/sg/evaluator/evaluator.go:159-166 | negating twice gives back every int64, MinInt64 included |
| `Evaluator.AdditionInRange` | sg_interpreter/src/sg/evaluator/evaluator.go:172-175 | `+` and `-` are exact when the result fits in int64; MaxInt64 + 1 wraps to MinInt64 |
| `Evaluator.ProductInRange` | sg_interpreter/src/sg/evaluator/evaluator.go:178-179 | `*` is exact when the result fits in int64 |
| `Evaluator.DivisionInRange` | sg_interpreter/src/sg/evaluator/evaluator.go:176-177 | `/` is Go's truncating quotient except MinInt64 / -1, which wraps to MinInt64 |
| `Evaluator.ComparisonsMirror` | sg_interpreter/src/sg/evaluator/evaluator.go:172-187 | `a < b` is `b > a`; `==` is the negation of `!=`; `+` and `*` commute |
| `Evaluator.EqualityComplement` | sg_interpreter/src/sg/evaluator/evaluator.go:129-144 | on any operands `==` is the negation of `!=`, and every item equals itself |
| `Evaluator.SameTypeOperands` | sg_interpreter/src/sg/evaluator/evaluator.go:131-142 | two integers use integer arithmetic; other same-type operands support only `==` and `!=`, and any other operator is `unknown operator` |
| `Evaluator.MixedOperands` | sg_interpreter/src/sg/evaluator/evaluator.go:131-142 | operands of different types are never `==` and always `!=`; any other operator is `type mismatch` |
| `Evaluator.BindParamsKeys` | sg_interpreter/src/sg/evaluator/evaluator.go:254-260 | a call frame binds exactly the parameter names |
| `Evaluator.BindParamsLastWins` | sg_interpreter/src/sg/evaluator/evaluator.go:254-260 | a parameter is bound to its argument unless a later parameter has the same name |
| `Evaluator.DeclareLet` | sg_interpreter/src/sg/evaluator/evaluator.go:39-48 | `let` fails with `already is defined` when the name is bound in the current frame and leaves it unchanged; otherwise it binds the name there |
| `Evaluator.Assign` | sg_interpreter/src/sg/evaluator/evaluator.go:29-38 | `=` fails with `not defined` when no enclosing frame binds the name; otherwise it binds the name in the current frame, so the name then looks up to the new value |
| `Evaluator.EvalIdentifier` | sg_interpreter/src/sg/evaluator/evaluator.go:225-231 | an identifier evaluates to its innermost binding, or to `identifier not found: NAME` |
| `Evaluator.ExtendedScope` | sg_interpreter/src/sg/evaluator/evaluator.go:254-260 | a call runs in a fresh frame, enclosed in the function's defining scope, that binds the parameters to the arguments |
| `Evaluator.Eval` | sg_interpreter/src/sg/evaluator/evaluator.go:15-89 | an expression's result and the frames afterwards are those of a run of the evaluation relation `ExprRuns`; a function literal is a fresh closure over the current scope |
| `Evaluator.EvalPrefix` | sg_interpreter/src/sg/evaluator/evaluator.go:53-58 | the operand runs first; an error or panic of it is the result; otherwise `EvalPrefixExpression` of its value (`PrefixRuns`) |
| `Evaluator.EvalInfix` | sg_interpreter/src/sg/evaluator/evaluator.go:59-68 | the left operand runs first and its error ends the evaluation; then the right operand from the frames the left one left, then `EvalInfixExpression` (`InfixRuns`) |
| `Evaluator.EvalIfExpression` | sg_interpreter/src/sg/evaluator/evaluator.go:211-223 | an error condition is the result; a true-like condition runs the consequence, a false-like one the alternative, or gives NULL without one (`IfRuns`) |
| `Evaluator.EvalCall` | sg_interpreter/src/sg/evaluator/evaluator.go:77-86 | the callee runs first and its error is the result; then the arguments and the application (`CallRuns`) |
| `Evaluator.EvalApplication` | sg_interpreter/src/sg/evaluator/evaluator.go:82-86 | an argument error is the result; otherwise the callee is applied to the argument values (`ApplicationRuns`) |
| `Evaluator.EvalExpression` | sg_interpreter/src/sg/evaluator/evaluator.go:233-243 | arguments run left to right, each from the frames the previous one left, and stop at the first error, which becomes the whole result (`ArgsRun`) |
| `Evaluator.ApplyFunction` | sg_interpreter/src/sg/evaluator/evaluator.go:244-253 | nil panics, another non-function is `not a function: TYPE`, too few arguments panic; a function's body runs in a new frame, enclosed in its captured scope, that binds the parameters, and a return wrapper around the result is removed (`ApplyRuns`) |
| `Evaluator.EvalStatement` | sg_interpreter/src/sg/evaluator/evaluator.go:21-48 | the statement's expression runs first and its error is the result; `return` wraps the value in a fresh wrapper; `let` and `=` then behave as `StmtEffect` states (`StmtRuns`) |
| `Evaluator.EvalBinding` | sg_interpreter/src/sg/evaluator/evaluator.go:29-48 | `let` binds a name new to the current frame and gives nil, or gives `already is defined`; `=` gives `not defined` when no frame of the chain binds the name, and otherwise binds it in the current frame (`StmtEffect`) |
| `Evaluator.EvalBlockStatement` | sg_interpreter/src/sg/evaluator/evaluator.go:105-116 | statements run in order, each from the frames the previous one left, until a return wrapper or an error, which is the result without unwrapping (`BlockRuns`) |
| `Evaluator.EvalProgram` | sg_interpreter/src/sg/evaluator/evaluator.go:91-103 | a program runs like a block, and a return wrapper that ends it is removed (`ProgramRuns`) |
| `Evaluator.LookupAgrees` | sg_interpreter/src/sg/Item/Scope.go:19-25 | the frames the evaluation relation tracks answer every lookup as the scope chain does |
| `EvaluatorFacts.ExprKeeps` | sg_interpreter/src/sg/evaluator/evaluator.go:29-48 | evaluating an expression changes no frame but the current one: `let` and `=` write only the current frame, and calls run in new frames |
| `EvaluatorFacts.ApplyKeeps` | sg_interpreter/src/sg/evaluator/evaluator.go:244-260 | a call changes no frame that existed before it |
| `EvaluatorFacts.StmtKeeps` | sg_interpreter/src/sg/evaluator/evaluator.go:21-48 | a statement changes no frame but the current one |
| `EvaluatorFacts.BlockKeeps` | sg_interpreter/src/sg/evaluator/evaluator.go:105-116 | a block changes no frame but the current one |
| `EvaluatorFacts.ProgramKeeps` | sg_interpreter/src/sg/evaluator/evaluator.go:91-103 | a program changes no frame but its own |
| `EvaluatorFacts.OnePlusTwo` | sg_interpreter/src/sg/evaluator/evaluator.go:59-68 | `1 + 2` evaluates to 3 and changes no frame |
| `EvaluatorFacts.DivisionByZeroPanics` | sg_interpreter/src/sg/evaluator/evaluator.go:176-177 | `1 / 0` panics |
| `EvaluatorFacts.UnboundIdentifier` | sg_interpreter/src/sg/evaluator/evaluator.go:225-231 | an unbound identifier evaluates to `identifier not found: NAME` |
| `EvaluatorFacts.ErrorOperandPassesThrough` | sg_interpreter/src/sg/evaluator/evaluator.go:53-58 | `-x` with `x` unbound is the identifier error, not an operator error |
| `EvaluatorFacts.IfFalseWithoutElse` | sg_interpreter/src/sg/evaluator/evaluator.go:211-223 | `if (false) { 1 }` evaluates to NULL |
| `EvaluatorFacts.IdentityApplied` | sg_interpreter/src/sg/evaluator/evaluator.go:77-86 | `fun(a) { a }(7)` evaluates to 7 |
| `EvaluatorFacts.ReturnEndsProgram` | sg_interpreter/src/sg/evaluator/evaluator.go:91-103 | `let x = 1; return x; 5` evaluates to 1 |
| `EvaluatorFacts.AssignmentInClosureShadows` | sg_interpreter/src/sg/evaluator/evaluator.go:29-38 | `let x = 1; let f = fun() { x = 2; }; f(); x` evaluates to 1: the assignment inside the closure binds `x` in the call's frame |
| `EvaluatorFacts.ShadowingLets` | sg_interpreter/src/sg/evaluator/evaluator.go:39-48 | the two `let`s of that program bind `x` to 1 and `f` to a closure over the current frame with no parameters |
| `EvaluatorFacts.CallOfShadowingClosure` | sg_interpreter/src/sg/evaluator/evaluator.go:244-260 | calling that closure gives nil and leaves the calling frame unchanged |
| `Builtins.Len` | sg_interpreter/src/sg/evaluator/builtins.go:11-25 | `len` gives an array's length or a string's byte count; a wrong arity or argument type is an error with the source's message |
| `Builtins.First` | sg_interpreter/src/sg/evaluator/builtins.go:42-60 | `first` gives element 0 of a non-empty array and NULL for an array without a store; wrong arity or type is an error |
| `Builtins.Last` | sg_interpreter/src/sg/evaluator/builtins.go:61-76 | `last` gives the last element, or NULL for an empty array; wrong arity or type is an error |
| `Runes.RuneString` | sg_interpreter/src/sg/lexer/lexer.go:154-156 | Go's `string(byte)` yields one or two bytes |
| `Runes.RuneStringDecodes` | sg_interpreter/src/sg/evaluator/builtins.go:145 | that conversion is the UTF-8 encoding of the byte's value: decoding it gives the byte back, and it is one byte exactly below 0x80 |
| `Builtins.GetWidensHighBytes` | sg_interpreter/src/sg/evaluator/builtins.go:145 | as written, `get` on the first byte of 0xC3 0xA9 returns 0xC3 0x83, not the byte itself |
| `Builtins.ByteAt` | sg_interpreter/src/sg/evaluator/builtins.go:127-148 | the intended result of `get`: the one-byte string holding the byte at the index |
| `Builtins.ByteAtRebuilds` | sg_interpreter/src/sg/evaluator/builtins.go:127-148 | joining `get`'s intended results over every index rebuilds the string |
| `Builtins.Get` | sg_interpreter/src/sg/evaluator/builtins.go:127-148 | `get(s, i)` gives the byte at i (corrected; see Findings); an index out of bounds, a wrong arity or a wrong argument type is an error with the source's message |
| `Builtins.Push` | sg_interpreter/src/sg/evaluator/builtins.go:77-103 | `push` appends the item in place and returns the same array; a full store is replaced by a fresh one of doubled capacity (1 from 0) padded with nil, and otherwise the store is kept |
| `Builtins.Set` | sg_interpreter/src/sg/evaluator/builtins.go:104-126 | `set(a, i, x)` replaces element i in place and returns the array; an index out of bounds or a wrong type leaves the array unchanged and is an error |
| `Builtins.Reversed` | sg_interpreter/src/sg/evaluator/builtins.go:163-174 | the reversal of a sequence has its length |
| `Builtins.ReversedAt` | sg_interpreter/src/sg/evaluator/builtins.go:163-174 | element k of the reversal is element n-1-k |
| `Builtins.ReversedInvolutive` | sg_interpreter/src/sg/evaluator/builtins.go:163-174 | reversing twice gives the original |
| `Builtins.ReverseInPlace` | sg_interpreter/src/sg/evaluator/builtins.go:163-174 | the two-index swap loop leaves the first n elements reversed and the rest untouched |
| `Builtins.SwapMirrored` | sg_interpreter/src/sg/evaluator/builtins.go:169-171 | after the loop each position holds its mirror's old element |
| `Builtins.MirroredIsReversed` | sg_interpreter/src/sg/evaluator/builtins.go:163-174 | a mirrored sequence is the reversal |
| `Builtins.Reverse` | sg_interpreter/src/sg/evaluator/builtins.go:163-174 | `reverse` reverses the array's contents in place and returns it; a wrong arity is an error |
| `Builtins.Swap` | sg_interpreter/src/sg/evaluator/builtins.go:217-219 | `swap` exchanges two elements, touches nothing else, and permutes the array |
| `Builtins.SwapPermutes` | sg_interpreter/src/sg/evaluator/builtins.go:217-219 | exchanging two elements keeps the multiset |
| `Builtins.PermutedRange` | sg_interpreter/src/sg/evaluator/builtins.go:188-215 | a permutation that keeps the ends fixed permutes the middle |
| `Builtins.BoundsCarry` | sg_interpreter/src/sg/evaluator/builtins.go:188-215 | bounds on all elements survive a permutation |
| `Builtins.SortedAroundPivot` | sg_interpreter/src/sg/evaluator/builtins.go:188-215 | sorted smaller elements, the pivot, and sorted larger elements form a sorted sequence |
| `Builtins.Partition` | sg_interpreter/src/sg/evaluator/builtins.go:196-206 | the pivot (the last element) lands at `pos`, with smaller elements before it and the rest after it, by a permutation of the range only |
| `Builtins.MoveSmaller` | sg_interpreter/src/sg/evaluator/builtins.go:199-204 | the scan loop gathers the elements smaller than the pivot at the front of the range, by a permutation of the range only |
| `Builtins.BoundsSurviveSort` | sg_interpreter/src/sg/evaluator/builtins.go:188-215 | the pivot bounds on a sub-range survive its recursive sort |
| `Builtins.SortedAfterRecursion` | sg_interpreter/src/sg/evaluator/builtins.go:188-215 | sorting both sides of a partition sorts the whole range |
| `Builtins.IntsInPermuted` | sg_interpreter/src/sg/evaluator/builtins.go:188-215 | the range stays all integers under a permutation of that range |
| `Builtins.Quicksort` | sg_interpreter/src/sg/evaluator/builtins.go:188-215 | on an integer array quicksort sorts the range in place, as a permutation touching nothing outside it; if element 0 is not an integer it returns the sort error and changes nothing |
| `Builtins.Sort` | sg_interpreter/src/sg/evaluator/builtins.go:176-185 | `sort` permutes the array in place and returns it, sorted whenever quicksort does not fail; a wrong arity is an error |

## Left out

- `puts`, `shuffle`, the HASH item and its `Output`, and the REPL and `main` are not part of this model: they are console I/O, randomness, or an entity no modelled operation builds.
- Console output is not modelled.
- `Items.Output` takes a `fuel` bound on the nesting of return wrappers and arrays, because a cyclic array makes Go's `Output` recurse without end. With too little fuel it answers None.
- Evaluator recursion is bounded by `fuel`. Running out yields `OutOfFuel`, where Go would overflow its stack or loop for ever.
- Go panics inside the evaluator, such as a nil dereference or a call with fewer arguments than parameters, yield `Panicked`. In the builtins they are preconditions instead, for example indexing an array whose store is shorter than its length.
- The parser reads a token list rather than calling the lexer. `Lexing.StreamIsLexerOutput` shows that list is exactly what successive `NextToken` calls return.
- The rendering of `SetStatement` is not modelled, because that type's definition is not in ast.go.
- Error items are compared by their message, not by identity. No modelled path compares two error items.
- The builtins are modelled as standalone operations. `EvalIdentifier` never consults the builtin table, and the language has no array literals, so no evaluated program reaches them.
- `Builtins.Quicksort`: the checks of the recursive calls' error results are dropped. They cannot fail once element 0 is an integer, which is the only case in which quicksort recurses.
- `Builtins.Push`: requires that a full store's doubled capacity fit in int64, which Go's `make` needs.
- `Builtins.Len`: leaves the result for strings longer than MaxInt64 bytes unstated.
- `Builtins.Sort`: requires every element to be an integer once element 0 is, because Go would panic on a mixed array.
- `Evaluator.Eval`: the evaluation methods take a `fuel` bound on the depth of nested calls, which Go does not have. A run that exhausts it (`OutOfFuel`) carries no promise; every other outcome, a panic included, is a run of the relation.
- `Evaluator.Eval`: the relation `ExprRuns` leaves open which object a closure, a return wrapper or a call frame is; a call frame need only be new to the store, and the methods add that closures and wrappers are freshly allocated. Two runs of one program may therefore differ where `==` compares such objects by identity.
- `Evaluator.EvalInfixExpression`: its own contract states only the result kinds. The values are stated by `SameTypeOperands`, `MixedOperands` and `EqualityComplement`.
- `Evaluator.EvalIntegerInfixExpr`: its own contract states only the result kinds. The values are stated by the range and mirror lemmas.
- `Parsing.ParseStatementS`: its own contract states progress and error growth, not the statement built. `ParserFacts.StatementShape` states which statement it builds and when it fails.
- `Parsing.ParseSetS`: its own contract states only progress. `ParserFacts.AssignmentShape` states the node and the error.
- `Parsing.ParseLetS`: its own contract states only progress. `ParserFacts.LetShape` states the node and both errors.
- `Parsing.ParseReturnS`: its own contract states only that the state is extended. `ParserFacts.ReturnShape` states the node.
- `Parsing.ParseExprStmtS`: its own contract states only that the state is extended. `ParserFacts.ExpressionStatementShape` states the node.
- `Parsing.SkipSemicolonS`: its own contract states only progress. `ParserFacts.SemicolonSkipped` states that it steps over `;` exactly when the next token is one.
- `Parsing.ParseExpressionS`: its own contract states progress and that a missing tree comes with an error. `ParserFacts.NoPrefixReported` states the error for a token without a prefix function, and the grouping lemmas state the trees.
- `Parsing.ParseIntegerLiteralS`: its own contract states only progress and the error. `ParserFacts.IntegerLiteralShape`, `IntegerLiteralValue` and `IntegerOverflowIsRejected` state the value and the message.
- `Parsing.ParseGroupedS`: its own contract states only progress. `ParserFacts.GroupedShape` states that the group is the inner expression, and the error.
- `Parsing.ParsePrefixExpressionS`: its own contract states only that the state is extended. `PrefixTakesOperand` and `PrefixBindsTighter` state the trees.
- `Parsing.ParseOperatorS`: its own contract states only that the state is extended. `OperatorTurn` and the grouping lemmas state the trees.
- `Parsing.ParseCallS`: its own contract states only that the state is extended. `ParserFacts.CallTurn` and `ParserFacts.CallExpression` state the node.
- `Parsing.ParseIfS`: its own contract states only progress. `ParserFacts.IfConditionShape` states the node and the error.
- `Parsing.ParseIfBlocksS`: its own contract states only progress. `ParserFacts.IfBlocksShape` states the node and the error.
- `Parsing.ParseElseS`: its own contract states only progress. `ParserFacts.ElseShape` states the alternative.
- `Parsing.ParseFunctionLiteralS`: its own contract states only progress. `ParserFacts.FunctionLiteralShape` states the node and the error.
- `Parsing.ParseParametersS`: its own contract states only that the state is extended. `ParserFacts.ParameterListShape` and `ParserFacts.ParametersFollowCommas` state the names.
- `Parsing.ParseCallArgumentsS`: its own contract states only that the state is extended. `ParserFacts.CallArgumentsShape` states the first argument and the closing `)`.
- `Parsing.ParseArgumentsTailS`: its own contract states only that the state is extended. `ParserFacts.CallExpression` and `ParserFacts.UnclosedCallDropsArguments` state the lists of two examples.
- `Parsing.ParseArgumentsTailS`, `Parsing.ParseCallArgumentsS`: no lemma states the argument list for every input; the arguments after the first are stated only for the examples.
- `Items.OutputAll`: states only the number of outputs. The joined text is stated by `ArrayOutputOfPair` and `ArrayOutputEdges` for small arrays only.
- `Items.HashKeyOf`: states only the key's type and range. Distinctness is stated by `ScalarKeysIdentify` and `StringKeysFollowContent`.

## Findings

| source | as written | input that shows it | evidently intended | confidence | as-written member | corrected member |
|---|---|---|---|---|---|---|
| sg_interpreter/src/sg/evaluator/builtins.go:145 | `string(s.Value[idx])` converts the byte to a rune, so a byte from 0x80 on becomes its two-byte UTF-8 encoding | `get` on the string of bytes 0xC3 0xA9 at index 0 returns the bytes 0xC3 0x83 | the one-byte string holding byte 0xC3, as `s.Value[idx:idx+1]` would give | not executed | `Builtins.GetWidensHighBytes` | `Builtins.ByteAtRebuilds` |
