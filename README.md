# Monkey interpreter core, modelled in Dafny

This project models the pipeline of the Monkey interpreter. Source text goes through a
rune-level lexer, then a Pratt (operator-precedence) parser that builds a syntax tree and an
error log, then a tree-walking evaluator with environments, arrays, closures and the built-ins
`len` and `append`. The model follows the Go code of `lexer/`, `token/`, `parser/`, `ast/`,
`evaluator/` and `obj/`. Each stateful part is modelled twice:

- as an imperative Dafny class that mirrors how the Go code changes its state;
- as a reference function that says what that code computes.

The class's methods are proved to compute exactly what the reference functions describe. The
properties the code promises are then proved as lemmas about those functions.

Files and modules:

| file | module | what it holds |
|---|---|---|
| `util.dfy` | `Util` | `Option`, `Join`, decimal formatting, UTF-8 byte length. |
| `int64.dfy` | `Int64` | Go `int64` wrap-around (`Wrap`) and truncating division (`TruncDiv`). |
| `strconv.dfy` | `Strconv` | `strconv.ParseInt(s, 0, 64)`, as the parser uses it for integer literals. |
| `token.dfy` | `Token` | Token kinds, the `typemap` name table, `Token.String`, the keyword table. |
| `ast.dfy` | `Ast` | Syntax trees (`Expr`, `Stmt`, `Block`, `Program`); their `String()` and `Literal()` renderings. |
| `ast_lemmas.dfy` | `AstLemmas` | Properties of those renderings. |
| `lexer_spec.dfy` | `LexerSpec` | One reference function per lexer state function (`ScanExpression`, `ScanOperator`, ...); `Tokenize`. |
| `lexer.dfy` | `Lexer` | The `lexer` struct as a class (`start`, `pos`, `width`, emitted `tokens`), its primitives, state methods, `run` and `Lex`. |
| `lexer_lemmas.dfy` | `LexerLemmas` | Every token the lexer emits is well formed, in order and non-overlapping; worked examples. |
| `parser_spec.dfy` | `ParserSpec` | One reference function per parsing routine over a token sequence and a state (index of `cur`, error log). |
| `parser.dfy` | `Parser` | The `Parser` struct as a class with the same routines as methods, each proved equal to its reference function. |
| `parser_lemmas.dfy` | `ParserLemmas` | Precedence, associativity, grouping, error logging, rendering of parsed trees. |
| `obj.dfy` | `Obj` | Runtime values, type names, the heap (environments, arrays, closures, return wrappers), `Env.Get`/`Env.Set`, `Inspect`. |
| `builtins.dfy` | `Builtins` | `len` and `append`. |
| `eval_spec.dfy` | `EvalSpec` | What `Eval` computes, as functions from a heap to an outcome and a new heap. |
| `evaluator.dfy` | `Evaluator` | The evaluator as a `Runtime` class owning the heap; `let`, parameter binding and `append` update it in place. |
| `eval_lemmas.dfy` | `EvalLemmas` | Arithmetic, comparison, error propagation, sequencing, scoping, indexing and aliasing. |

Modelling choices that shape every contract:

- **Tokens.** The token channel is a sequence. The parser reads the zero token (EOF) past the
  end of that sequence, as it does from a closed channel.
- **Run-time objects.** They live in an arena: the heap holds environment frames, array
  element lists, closures and return wrappers, each referred to by index. Two bindings to the
  same array share its index, so `append` through one is seen through the other, as with Go
  pointers.
- **Panics and call depth.** A Go runtime panic is the outcome `Panic`, which ends evaluation.
  The panics are a nil `let` node, asking a nil object for its type (`-` of nil, a nil infix
  operand, `len` of nil), integer division by zero, and a call with fewer arguments than
  parameters. A nil expression left by a parse error is not one: it evaluates to nil, and `!`
  of nil is FALSE. Extra arguments are ignored. Calls consume fuel; running out is the
  outcome `Exhausted`.
- **Rendering nil nodes.** A parse error can leave a nil node in the tree. A direct `.String()`
  call on it panics, and so does the `String()` of every node above it up to the nearest
  operand that Go formats with `%s`. The `%s` verb recovers that panic and prints a
  placeholder instead, so infix operands, the parts of an `if`, a function body, a callee and
  the body a closure's `Inspect` prints never fail. `Ast.ExprString` is defined exactly for
  the nodes whose `String()` does not panic; `Ast.Fmt` and `Ast.FmtBlock` are the `%s` view.
- **Integers.** Integer arithmetic wraps like Go `int64`, and `/` truncates toward zero.

## Model

| member | source | states |
|---|---|---|
| Int64.Wrap | evaluator/evaluator.go:124-165 | The result is the unique int64 congruent to its argument modulo 2^64 (with `WrapCongruent`). |
| Int64.DivOverflow | evaluator/evaluator.go:139-140 | `MinInt64 / -1` wraps back to `MinInt64`, as Go int64 division does. |
| Int64.TruncDiv | evaluator/evaluator.go:139-140 | Go's int64 `/` before wrapping: the magnitude is the magnitudes' quotient, the result is negative only when the operands' signs differ and positive only when they agree (truncation toward zero). |
| Strconv.ParseInt64 | parser/parser.go:218-229 | A parsed value is always in the int64 range; the empty text is rejected. |
| Strconv.FormatParseRoundTrip | parser/parser.go:218-229 | Every int64 reads back from its own decimal text. |
| Strconv.PrefixExamples | parser/parser.go:221 | Base-0 parsing: `5` is 5, `0x1F` is 31, `010` is octal 8, `-0b11` is -3. |
| Strconv.RejectExample | parser/parser.go:221-226 | A lexed number with a fraction, `1.5`, is not an integer. |
| Token.KindName | token/token.go:55-74 | A kind has a non-empty name exactly when it is in the name table; all other kinds print as the empty string. |
| Token.NamesDistinct | token/token.go:55-70 | The names in the table are pairwise distinct. |
| Token.LookupIdent | lexer/lexer.go:144-150 | The seven keywords `fn let true false if else return` map to keyword kinds; every other word is IDENT. |
| Token.TokenString | token/token.go:11-20 | An ILLEGAL token prints as its literal, verbatim and unquoted; any other token whose literal has at most 10 bytes prints as that literal quoted by `Quote`, and a longer one starts with a double quote. |
| Token.ShortLiteralString | token/token.go:19 | A literal of at most 10 bytes with no character that needs escaping prints quoted in full. |
| Token.LongLiteralString | token/token.go:16-17 | A longer ASCII literal with nothing to escape prints as its first 10 characters, quoted, followed by `...`. |
| Token.EscapeAllPlain | token/token.go:16-19 | Quoting leaves text without quotes, backslashes or control characters unchanged. |
| Token.Quote | token/token.go:16-19 | `%q` of a literal starts and ends with a double quote; text with nothing to escape appears verbatim between them. |
| Token.QuoteRune | lexer/lexer.go:228-235 | `%q` of a rune, as the lexer's diagnostics print it: at least three characters between single quotes; a printable character other than `'` and `\` appears verbatim. |
| Ast.Names | ast/function.go:21-34 | Parameter renderings are the identifiers' values, one per parameter, in declaration order. |
| Ast.ExprStrings | ast/callexpr.go:21-29 | One rendering per argument, in order: element i is the rendering of argument i. |
| Ast.ProgramLiteral | ast/ast.go:24-29 | An empty program's literal is `""`; otherwise it is the first statement's literal. |
| Ast.Fmt | ast/infixexpr.go:21-23 | `%s` of an operand never fails: nil prints `%!s(<nil>)`, a node whose `String()` panics prints the recovered-panic placeholder, and any other node prints its `String()`. |
| Ast.FmtBlock | ast/function.go:21-34 | `%s` of a block: its `String()`, or the recovered-panic placeholder when that `String()` panics. |
| Ast.ExprString | ast/prefixexpr.go:20-22 | Defined for every node whose `String()` does not panic. Prefix, infix and index nodes are wrapped in parentheses, arrays in brackets, a call ends with `)`, and an `if` starts with `if `. |
| Ast.StmtString | ast/exprstatement.go:16-21 | `let` and `return` start with their keyword literal and end with `;`; an expression statement without an expression renders as nothing. |
| Ast.BlockString | ast/blockstatement.go:19-26 | An empty block renders as nothing; otherwise the rendering begins with the first statement's. |
| Ast.ProgramString | ast/ast_test.go:8-28 | An empty program renders as nothing; otherwise the rendering begins with the first statement's. |
| Ast.ExprLiteral | ast/identifier.go:12-14 | An expression's literal is the literal of the token that introduced it; an identifier's is its own token's. |
| Ast.StmtLiteral | ast/let.go:13-15 | A statement's literal is the literal of its first token. |
| Ast.BlockLiteral | ast/blockstatement.go:15-17 | A block's literal is the literal of its `{` token. |
| AstLemmas.ExprStringsInOrder | ast/arrayliteral.go:20-28 | Element i of the rendered list is the rendering of element i: arguments and elements render in source order. |
| AstLemmas.ConcatSnoc | ast/blockstatement.go:19-26 | Appending a statement to a block or program appends its rendering, with no separator. |
| AstLemmas.EmptyRenderings | ast/callexpr.go:21-29 | `f()` for no arguments, `[]` for no elements, `fn() body` for no parameters, `""` for an empty block or program, `""` for an expression statement without an expression. |
| AstLemmas.ArrayOfTwo | ast/arrayliteral.go:20-28 | `[a, b]` renders as both renderings, in order, joined by `, ` inside brackets. |
| AstLemmas.ElseExtends | ast/ifexpr.go:21-26 | An `else` adds exactly `" else "` and the alternative's rendering to the rendering without it. |
| AstLemmas.LiteralsRenderAsToken | ast/integerliteral.go:12-18 | Integer, string and boolean literals render as their token literal, which is also their `Literal()`. |
| AstLemmas.ProgramLiteralFirst | ast/ast.go:24-29 | A program's literal is its first statement's, whatever follows. |
| AstLemmas.RecoveredPanics | ast/infixexpr.go:21-23 | The body of `fn() { -; }` panics in its own `String()`, yet `%s` prints it as the recovered-panic placeholder as an infix operand, an `if` branch or a function body; a prefix node over it still panics, since it calls `.String()` directly. |
| LexerSpec.AcceptAt | lexer/lexer.go:48-54 | `accept` never moves the cursor back or past the end of the input. |
| LexerSpec.AcceptRunAt | lexer/lexer.go:57-63 | `acceptRun` never moves the cursor back or past the end of the input. |
| LexerSpec.NumberEnd | lexer/lexer.go:152-175 | The number text runs from its start to a point no further than the end. |
| LexerSpec.ScanExpression | lexer/lexer.go:188-236 | A stream emitted from `lexExpression` either hangs or ends in EOF or ILLEGAL, and its tokens start at or after the cursor. |
| LexerSpec.ScanOperator | lexer/lexer.go:94-142 | The first token starts at the operator and is ILLEGAL exactly for `^`; the stream ends in EOF or ILLEGAL unless it hangs. |
| LexerSpec.ScanIdentifier | lexer/lexer.go:144-150 | The first token is the longest run of letters, digits and `_` from the cursor, starting with a letter or `_`, with the kind the keyword table gives that word. |
| LexerSpec.ScanNumber | lexer/lexer.go:152-175 | The first token is an INT over a non-empty slice of the input starting at the cursor. |
| LexerSpec.ScanString | lexer/lexer.go:177-186 | With no quote left in the input nothing is emitted and the lexer hangs; otherwise a STRING token holds exactly the text up to the first closing quote. |
| LexerSpec.Tokenize | lexer/lexer.go:255-262 | A stream that stops ends in EOF or ILLEGAL; empty input gives one EOF token at offset 0. |
| Lexer.Lexer.constructor | lexer/lexer.go:255-262 | A new lexer has its cursor at 0, nothing emitted, in the expression state. |
| Lexer.Lexer.Next | lexer/lexer.go:22-31 | Returns the character at the cursor and advances one, or returns 0 at the end and does not advance. |
| Lexer.Lexer.Ignore | lexer/lexer.go:33-35 | Drops the pending text: `start` moves to `pos`. |
| Lexer.Lexer.Backup | lexer/lexer.go:37-39 | Steps back over the last character read. |
| Lexer.Lexer.Peek | lexer/lexer.go:41-45 | Returns the next character without moving the cursor. |
| Lexer.Lexer.Accept | lexer/lexer.go:48-54 | Consumes one character exactly when it is in the set, and reports whether it did. |
| Lexer.Lexer.AcceptRun | lexer/lexer.go:57-63 | Consumes the longest run of characters in the set. |
| Lexer.Lexer.Emit | lexer/lexer.go:65-72 | Appends one token whose literal is the input from `start` to `pos` at offset `start`, then moves `start` to `pos`. |
| Lexer.Lexer.Errorf | lexer/lexer.go:78-85 | Appends one ILLEGAL token carrying the message at offset `start`. |
| Lexer.Lexer.LexExpression | lexer/lexer.go:188-236 | Emitted tokens plus what the next state will emit are unchanged, so the state function emits exactly what `ScanExpression` describes. |
| Lexer.Lexer.LexOperator | lexer/lexer.go:94-142 | The same for `lexOperator`: greedy two-character operators, pushback of the lookahead, `^` as an illegal operator. |
| Lexer.Lexer.LexIdentifier | lexer/lexer.go:144-150 | The same for `lexIdentifier`; the cursor moves forward. |
| Lexer.Lexer.AcceptNumber | lexer/lexer.go:152-175 | Consumes exactly the sign, base prefix, digits, fraction and exponent that `NumberEnd` describes. |
| Lexer.Lexer.AcceptBase | lexer/lexer.go:155-161 | Consumes the sign and the `0x` prefix, and picks hexadecimal digits only after `0x`. |
| Lexer.Lexer.AcceptDigits | lexer/lexer.go:163-171 | Consumes the digit run, the fraction and the exponent. |
| Lexer.Lexer.LexNumber | lexer/lexer.go:152-175 | Emits one INT token over the number text, then returns to the expression state. |
| Lexer.Lexer.LexString | lexer/lexer.go:177-186 | Emits the text between the quotes as one STRING token, or reaches the end of input where Go spins forever. |
| Lexer.Lexer.Run | lexer/lexer.go:87-92 | The driver loop emits exactly `Tokenize(input)`, and says whether it would hang. |
| Lexer.Lex | lexer/lexer.go:255-262 | Everything the token channel delivers is `Tokenize(input)`. |
| LexerLemmas.TokenizeGood | lexer/lexer.go:65-72 | Every token's literal is the input at its offset. Tokens are in source order and do not overlap. An ILLEGAL token carries the diagnostic for its character. A STRING token is the text strictly between two quotes. No token starts with white space. EOF comes once, last. A stream that stops ends in EOF or ILLEGAL. |
| LexerLemmas.EndStep | lexer/lexer.go:224-226 | At the end of input exactly one EOF token with an empty literal at offset `len(input)` is emitted, and the machine stops. |
| LexerLemmas.DoubleOperatorStep | lexer/lexer.go:94-142 | `==`, `!=`, `<=`, `>=` and `**` are taken whole, as one token. |
| LexerLemmas.OperatorStep | lexer/lexer.go:94-142 | Otherwise the one-character operator is emitted and the lookahead is read again as the next token. |
| LexerLemmas.CaretStops | lexer/lexer.go:137-139 | `^` yields one ILLEGAL "illegal operator" token and ends the stream. |
| LexerLemmas.InvalidContinues | lexer/lexer.go:228-235 | Every character no case of `lexExpression` recognises (not white space, an operator, a letter, a quote, a delimiter, NUL or a number character; `[` and `]` are such characters) yields one ILLEGAL token "lexer: invalid token" followed by the character as `%q` quotes it, and lexing continues after it. |
| LexerLemmas.SpaceSkipped | lexer/lexer.go:191-192 | White space produces no token. |
| LexerLemmas.FractionExample | lexer/lexer.go:152-175 | `1.5` is one INT token `"1.5"`, then EOF. |
| LexerLemmas.FractionEnd | lexer/lexer.go:163-171 | The number text of `1.5` runs through the fraction: all three characters. |
| LexerLemmas.DelimitersExample | lexer/lexer_test.go:10-43 | `=+(){},;` lexes to ASSIGN, PLUS, LPAREN, RPAREN, LBRACE, RBRACE, COMMA, SEMICOLON and EOF, with their one-character literals and offsets. |
| ParserSpec.ExpectPeek | parser/parser.go:393-412 | On a match it advances exactly one token. On a mismatch it does not advance and appends exactly one "expected next token to be X, got Y instead". |
| ParserSpec.Precedence | parser/parser.go:37-51 | A kind binds above LOWEST exactly when it has an infix rule; every binary operator binds below PREFIX; nothing binds above INDEX. |
| ParserSpec.HasPrefix | parser/parser.go:61-71 | No prefix rule exists for EOF, ILLEGAL, `;`, `,` or a closing delimiter, so no expression starts there. |
| ParserSpec.HasInfix | parser/parser.go:73-86 | Exactly `-`, `(` and `[` have both a prefix and an infix rule. |
| ParserSpec.ParseStatement | parser/parser.go:111-120 | The cursor never moves back; the error log is only appended to; a parse that logs nothing yields a tree with no nil node, built from its tokens. |
| ParserSpec.ParseLet | parser/parser.go:122-141 | The same for `let` statements. |
| ParserSpec.ParseReturn | parser/parser.go:143-152 | The same for `return` statements. |
| ParserSpec.ParseExpressionStatement | parser/parser.go:154-164 | The same for expression statements. |
| ParserSpec.ParseExpression | parser/parser.go:171-187 | The same for `parseExpression`. |
| ParserSpec.InfixLoop | parser/parser.go:175-183 | The same for the infix loop, given a well-formed left operand. |
| ParserSpec.ParsePrefix | parser/parser.go:61-71 | The same for the prefix table. |
| ParserSpec.ParseInfix | parser/parser.go:73-86 | The same for the infix table. |
| ParserSpec.ParsePrefixExpression | parser/parser.go:189-197 | The same for prefix operators. |
| ParserSpec.ParseInfixExpression | parser/parser.go:200-210 | The same for binary operators. |
| ParserSpec.ParseGrouped | parser/parser.go:241-248 | The same for parenthesised expressions. |
| ParserSpec.ParseIf | parser/parser.go:251-281 | The same for `if`. |
| ParserSpec.IfBranches | parser/parser.go:265-280 | The same for the branches of `if`. |
| ParserSpec.ParseFunction | parser/parser.go:284-299 | The same for function literals. |
| ParserSpec.ParseArray | parser/parser.go:301-306 | The same for array literals. |
| ParserSpec.ParseCall | parser/parser.go:332-338 | The same for calls. |
| ParserSpec.ParseIndex | parser/parser.go:340-351 | The same for index expressions. |
| ParserSpec.ParseExpressionList | parser/parser.go:308-330 | The same for argument and element lists. |
| ParserSpec.ListRest | parser/parser.go:319-329 | The same for the loop of the list parser. |
| ParserSpec.ParseBlock | parser/parser.go:354-366 | The same for blocks. |
| ParserSpec.BlockLoop | parser/parser.go:359-365 | The same for the loop of the block parser. |
| ParserSpec.ParseParams | parser/parser.go:369-390 | The same for parameter lists. |
| ParserSpec.ParamsRest | parser/parser.go:380-389 | The same for the loop of the parameter parser. |
| ParserSpec.ProgramLoop | parser/parser.go:98-109 | `Parse` stops with EOF as the current token; a run that logs nothing yields only well-formed statements. |
| ParserSpec.ParseProgram | parser/parser.go:53-109 | With an empty error log every statement is well formed, so the program can be rendered and evaluated. |
| Parser.Parser.constructor | parser/parser.go:53-87 | A new parser starts at the first token with an empty error log. |
| Parser.Parser.Next | parser/parser.go:89-92 | `cur` takes the place of `peek`. |
| Parser.Parser.PeekError | parser/parser.go:403-412 | Appends exactly one "expected next token" message and does not move. |
| Parser.Parser.ExpectPeek | parser/parser.go:393-400 | Computes exactly `ParserSpec.ExpectPeek`. |
| Parser.Parser.Parse | parser/parser.go:98-109 | The statement loop computes exactly `ProgramLoop`. |
| Parser.Parser.ParseStatement | parser/parser.go:111-120 | Computes exactly `ParserSpec.ParseStatement`. |
| Parser.Parser.ParseLet | parser/parser.go:122-141 | Computes exactly `ParserSpec.ParseLet`. |
| Parser.Parser.ParseReturn | parser/parser.go:143-152 | Computes exactly `ParserSpec.ParseReturn`. |
| Parser.Parser.ParseExpressionStatement | parser/parser.go:154-164 | Computes exactly `ParserSpec.ParseExpressionStatement`. |
| Parser.Parser.ParseExpression | parser/parser.go:171-187 | Computes exactly `ParserSpec.ParseExpression`. |
| Parser.Parser.InfixTail | parser/parser.go:175-183 | The infix loop computes exactly `InfixLoop`. |
| Parser.Parser.ParsePrefix | parser/parser.go:61-71 | Computes exactly `ParserSpec.ParsePrefix`. |
| Parser.Parser.ParseInfix | parser/parser.go:73-86 | Computes exactly `ParserSpec.ParseInfix`. |
| Parser.Parser.ParseIntegerLiteral | parser/parser.go:218-229 | Computes the INT case of the prefix table: the value, or one "could not parse" error. |
| Parser.Parser.ParsePrefixExpression | parser/parser.go:189-197 | Computes exactly `ParserSpec.ParsePrefixExpression`. |
| Parser.Parser.ParseInfixExpression | parser/parser.go:200-210 | Computes exactly `ParserSpec.ParseInfixExpression`. |
| Parser.Parser.ParseGrouped | parser/parser.go:241-248 | Computes exactly `ParserSpec.ParseGrouped`. |
| Parser.Parser.ParseIf | parser/parser.go:251-281 | Computes exactly `ParserSpec.ParseIf`. |
| Parser.Parser.ParseFunction | parser/parser.go:284-299 | Computes exactly `ParserSpec.ParseFunction`. |
| Parser.Parser.ParseArray | parser/parser.go:301-306 | Computes exactly `ParserSpec.ParseArray`. |
| Parser.Parser.ParseCall | parser/parser.go:332-338 | Computes exactly `ParserSpec.ParseCall`. |
| Parser.Parser.ParseIndex | parser/parser.go:340-351 | Computes exactly `ParserSpec.ParseIndex`. |
| Parser.Parser.ParseExpressionList | parser/parser.go:308-330 | Computes exactly `ParserSpec.ParseExpressionList`. |
| Parser.Parser.ParseBlock | parser/parser.go:354-366 | Computes exactly `ParserSpec.ParseBlock`. |
| Parser.Parser.ParseParams | parser/parser.go:369-390 | Computes exactly `ParserSpec.ParseParams`. |
| Parser.ParseTokens | parser/parser.go:53-109 | `New`, `Parse` and `Errors` together give `ParseProgram`'s program and error log. |
| ParserLemmas.LeftGrouping | parser/parser.go:200-210 | Equal-precedence operators over atoms group to the left: `a + b - c` is `((a + b) - c)`. |
| ParserLemmas.RightGrouping | parser/parser.go:171-187 | A tighter operator on the right takes the middle atom: `a + b * c` is `(a + (b * c))`. |
| ParserLemmas.TighterOperand | parser/parser.go:200-210 | The right operand of an operator is parsed at that operator's precedence. |
| ParserLemmas.TighterRightOperand | parser/parser.go:171-187 | A tighter operator after the right operand is absorbed into it. |
| ParserLemmas.PrefixBindsTighter | parser/parser.go:189-197 | A prefix operator's operand is parsed at PREFIX: `-a * b` is `((-a) * b)`. |
| ParserLemmas.PrefixStep | parser/parser.go:189-197 | A prefix node's operand is what `parseExpression(PREFIX)` reads from the next token, and the node ends where its operand ends. |
| ParserLemmas.NestedPrefix | parser/parser_test.go:410 | `!-a` parses to nested prefix nodes with `!` outermost, and nothing is logged. |
| ParserLemmas.GroupingLeavesNoNode | parser/parser.go:241-248 | Parentheses create no node: `(a + b)` parses to the inner infix node. |
| ParserLemmas.AtomStops | parser/parser.go:213-239 | An atom (identifier, string, boolean, or integer `ParseInt` accepts) followed by a token that binds no tighter parses to its leaf node; nothing is consumed and nothing is logged. |
| ParserLemmas.AtomPrefix | parser/parser.go:213-239 | An atom has a prefix rule, which builds its leaf without consuming or logging anything. |
| ParserLemmas.ExpressionStatement | parser/parser.go:154-164 | An expression statement holds the expression parsed from its first token; a `;` after it is consumed. |
| ParserLemmas.AtomStatement | parser/parser.go:154-164 | An atom that ends its expression is an expression statement holding its leaf. |
| ParserLemmas.LetStatement | parser/parser.go:122-141 | `let x = <value>` parses to one let statement named `x`, built from the `let` token, whose value is whatever `parseExpression` reads after `=`; a `;` after it is consumed. |
| ParserLemmas.LetAtom | parser/parser.go:122-141 | `let x = 5;` parses to a let statement whose value is the atom's leaf, ending on the `;` with no error. |
| ParserLemmas.LetIntStatement | parser/parser_test.go:149-181 | `let <ident> = <int>;` parses to its let node and ends on its `;`, whatever the error log holds. |
| ParserLemmas.ProgramLoopAcc | parser/parser.go:98-109 | Statements already collected stay in front of those the rest of the loop parses, and the final state does not depend on them. |
| ParserLemmas.ProgramStep | parser/parser.go:98-109 | A program is its first statement followed by the statements parsed from the token after it, and ends where they end. |
| ParserLemmas.ProgramCons | parser/parser.go:98-109 | The same, for a first statement and a remainder already known. |
| ParserLemmas.ProgramEnd | parser/parser.go:101 | At the end of the tokens the loop stops with no statement. |
| ParserLemmas.ThreeLets | parser/parser_test.go:149-181 | `let x = 5; let y = 10; let foobar = 838383;` parses to three let statements, in order, with their names and values, and no error. |
| ParserLemmas.SemicolonSeparates | parser/parser.go:160-162 | `a; b` parses to two expression statements and no error. |
| ParserLemmas.SemicolonStatements | parser/parser.go:160-162 | In `a; b` the first statement ends on its `;` and the second starts after it. |
| ParserLemmas.FirstOfTwo | parser/parser_test.go:437-440 | In `a op1 b; pre c op2 d` the first statement is `(a op1 b)`, ending on the `;`. |
| ParserLemmas.SecondOfTwo | parser/parser_test.go:437-440 | The second statement is `((pre c) op2 d)`: the prefix operator takes only `c`. |
| ParserLemmas.TwoStatementsParse | parser/parser_test.go:437-440 | `a op1 b; pre c op2 d` parses to those two expression statements, in order, with no error. |
| ParserLemmas.PrefixErrors | parser/parser.go:166-187 | A token without a prefix rule logs exactly one "no parse prefix function" error and yields no node. An integer literal `ParseInt` rejects logs one "could not parse" error. Neither moves the cursor. |
| ParserLemmas.LetRendering | ast/ast_test.go:8-28 | `let myVar = anotherVar` renders as `let myVar = anotherVar;`. |
| ParserLemmas.InfixRendering | ast/infixexpr.go:21-23 | An infix node renders as `(left op right)`. |
| ParserLemmas.LeftGroupingRendering | parser/parser_test.go:413-427 | `a + b - c` renders as `((a + b) - c)`. |
| ParserLemmas.RightGroupingRendering | parser/parser_test.go:433-436 | `a + b * c` renders as `(a + (b * c))`. |
| ParserLemmas.PrefixRendering | ast/prefixexpr.go:20-22 | A prefix node renders as `(op operand)` with no space: `-a * b` renders `((-a) * b)`. |
| ParserLemmas.NestedPrefixRendering | parser/parser_test.go:410 | Nested prefix nodes render with their own parentheses each: `!-a` renders `(!(-a))`. |
| ParserLemmas.InfixString | ast/infixexpr.go:21-23 | An infix node over renderable operands renders as `(` left ` ` op ` ` right `)`. |
| ParserLemmas.PrefixString | ast/prefixexpr.go:20-22 | A prefix node over a renderable operand is renderable and renders as `(` op operand `)`. |
| ParserLemmas.TwoExprStatements | parser/parser_test.go:437-440 | A program of two expression statements renders as their renderings, in order, with no separator. |
| ParserLemmas.TwoStatementsRendering | parser/parser_test.go:437-440 | The program of `a op1 b; pre c op2 d` renders as `(a op1 b)((pre c) op2 d)`. |
| ParserLemmas.TwoStatementsExample | parser/parser_test.go:437-440 | The tokens of `3 + 4; -5 * 5` parse with no error and render as `(3 + 4)((-5) * 5)`. |
| ParserLemmas.ErrorFreeParseRenders | parser/parser.go:98-109 | A parse without errors yields a program whose rendering involves no nil node. |
| Obj.TypeName | obj/object.go:19-26 | A type has a non-empty name exactly when the name table holds it; STRING, ARRAY and BUILTIN print as `""`. |
| Obj.TypeNamesDistinct | obj/object.go:19-26 | The six names are pairwise distinct, so type errors tell operand types apart. |
| Obj.TypeOf | obj/array.go:12-14 | Each kind of value has its own type: integers INTEGER, booleans BOOLEAN, arrays ARRAY, and so on. |
| Obj.NewEnv | obj/env.go:7-9 | A new environment is a new frame; every existing object is kept. |
| Obj.NewEnclosedEnv | evaluator/evaluator.go:269-276 | A new enclosed environment is a new frame; every existing object is kept. |
| Obj.NewEnvEmpty | obj/env.go:7-9 | A fresh environment has no bindings. |
| Obj.EnclosedSeesOuter | evaluator/evaluator.go:269-276 | A fresh enclosed environment sees exactly its parent's bindings. |
| Obj.Get | obj/env.go:11-14 | A lookup yields a value whose references exist. |
| Obj.Set | obj/env.go:16-19 | `Set` keeps every object, and only changes bindings. |
| Obj.GetAfterSet | obj/env.go:11-19 | `Get(n)` after `Set(n, v)` yields `v`. |
| Obj.SetLeavesOthers | obj/env.go:17 | `Set(n, v)` leaves every other name's binding unchanged, seen from any environment. |
| Obj.SetLeavesOlder | obj/env.go:17 | `Set` in one frame changes no lookup that starts from an older frame. |
| Obj.SetOverwrites | obj/env.go:17 | A second `Set` of the same name replaces the first. |
| Obj.GetAfterAlloc | obj/env.go:11-14 | Allocating objects changes no existing lookup. |
| Obj.Inspect | obj/function.go:19-26 | A nil value panics. Only nil, arrays and return wrappers, which print the values they hold, can fail; a closure always prints, its body through `%s`. |
| Obj.InspectBrokenFunction | obj/function.go:25 | A closure whose body `String()` panics, `fn() { -; }`, prints `fn() {` newline, the recovered-panic placeholder, newline, `}`. |
| Obj.InspectAll | obj/array.go:16-24 | The renderings, one per element, in index order, each by its own `Inspect`. |
| Obj.InspectArray | obj/array.go:16-24 | An array renders as its elements' renderings joined by `, ` inside brackets. |
| Obj.InspectEmptyArray | obj/array.go:17-23 | An empty array renders `[]`. |
| Builtins.Lookup | evaluator/builtins.go:5-44 | The table holds exactly `len` and `append`. |
| Builtins.Len | evaluator/builtins.go:6-24 | `len` panics exactly for a single nil argument. |
| Builtins.LenCountsBytes | evaluator/builtins.go:14-15 | `len` of a string is its length in UTF-8 bytes, never fewer than its characters. |
| Builtins.LenExamples | evaluator/builtins.go:14-15 | `len("four")` is 4 and `len("é")` is 2. |
| Builtins.LenOfArray | evaluator/builtins.go:17-18 | `len` of an array is its element count, read from the shared object. |
| Builtins.LenErrors | evaluator/builtins.go:8-21 | Other argument counts give "wrong number of arguments: got N, want 1"; other types give "type not supported". |
| Builtins.Append | evaluator/builtins.go:25-43 | `append` never panics, keeps every object and returns a value whose references exist. |
| Builtins.AppendInPlace | evaluator/builtins.go:36-41 | `append(a, xs...)` returns `a` itself, whose elements become its old elements followed by `xs` in order; no other array and no binding changes. |
| Builtins.AppendErrors | evaluator/builtins.go:27-34 | Without arguments `append` is "append: no arguments provided"; with a first argument that is not an array it is "append: first argument must be an array"; neither changes the heap. |
| Builtins.AppendNothing | evaluator/builtins.go:36-41 | `append(a)` returns `a` and changes nothing. |
| Builtins.CallBuiltin | evaluator/evaluator.go:254-255 | A built-in call keeps every object and returns a value whose references exist. |
| EvalSpec.Bang | evaluator/evaluator.go:41-50 | `!v` is TRUE exactly when `v` is falsy. |
| EvalSpec.Truthy | evaluator/evaluator.go:182-184 | Every value but the shared NULL and FALSE is truthy. |
| EvalSpec.IsError | evaluator/evaluator.go:282-287 | Exactly the error objects; nil is not an error. |
| EvalSpec.Negate | evaluator/evaluator.go:52-59 | `-n` is the int64 negation. `-v` of another type is "unknown operator: -T". A nil operand panics. |
| EvalSpec.PrefixOp | evaluator/evaluator.go:61-73 | Panics exactly for a nil operand of an operator other than `!`. |
| EvalSpec.IntInfix | evaluator/evaluator.go:124-165 | Panics exactly for division by zero. Results stay in the int64 range. It is an error exactly for operators outside `+ - * / == != < > <= >=`. |
| EvalSpec.StrInfix | evaluator/evaluator.go:102-122 | It is an error exactly for operators other than `+`, `==` and `!=`. |
| EvalSpec.InfixOp | evaluator/evaluator.go:75-100 | Never yields a heap object. Panics exactly where Go asks a nil operand for its type, or divides by zero. |
| EvalSpec.IndexOp | evaluator/evaluator.go:213-231 | Panics exactly for a nil left operand or an array indexed by nil. Every other combination that is not an array indexed by an integer, a nil index under a non-array included, is the error "index operator not supported T". |
| EvalSpec.ArrayIndex | evaluator/evaluator.go:222-231 | An in-range index gives that element; a negative or too large index gives NULL. |
| EvalSpec.EvalIdentifier | evaluator/evaluator.go:202-211 | Yields a value whose references exist; a failed lookup that is no built-in is "identifier not found: name". |
| EvalSpec.Unwrap | evaluator/evaluator.go:262-267 | A return wrapper gives its value; anything else is left as it is. |
| EvalSpec.EvalExpr | evaluator/evaluator.go:289-386 | Evaluation only adds to the heap, keeps it valid, and yields a value whose references exist. |
| EvalSpec.EvalExpressions | evaluator/evaluator.go:233-244 | The same for argument lists: the values in order, or the first error alone. |
| EvalSpec.EvalStmt | evaluator/evaluator.go:289-386 | The same for statements. |
| EvalSpec.EvalBlock | evaluator/evaluator.go:186-200 | The same for blocks. |
| EvalSpec.BlockLoop | evaluator/evaluator.go:189-198 | The same for the loop of a block. |
| EvalSpec.Apply | evaluator/evaluator.go:246-260 | The same for calls. |
| EvalSpec.BindParams | evaluator/evaluator.go:269-276 | Binding parameters keeps the heap valid and changes only bindings. |
| EvalSpec.ProgramLoop | evaluator/evaluator.go:26-37 | The same as `EvalExpr` for the loop of a program. |
| EvalSpec.EvalProgram | evaluator/evaluator.go:23-39 | The same as `EvalExpr` for a program. |
| EvalLemmas.DivisionTruncates | evaluator/evaluator.go:139-140 | `/` truncates toward zero: the remainder has the dividend's sign and is smaller than the divisor. |
| EvalLemmas.IntExamples | evaluator/evaluator.go:124-165 | `-7 / 2` is -3. `MaxInt64 + 1` wraps to `MinInt64`. `MinInt64 / -1` is `MinInt64`. `/ 0` panics. |
| EvalLemmas.ComparisonsAgree | evaluator/evaluator.go:142-158 | Comparisons yield the shared booleans. `!=`, `>=` and `<=` negate `==`, `<` and `>`; `>` is `<` with the operands swapped. |
| EvalLemmas.PowerIsUnknown | evaluator/evaluator.go:160-164 | `**`, which the parser accepts, is "unknown operator: INTEGER ** INTEGER". |
| EvalLemmas.StringOperators | evaluator/evaluator.go:102-122 | `+` concatenates. `==` and `!=` compare contents. Any other operator is "invalid operator". `len` of a concatenation is the sum of the lengths. |
| EvalLemmas.Utf8LenConcat | evaluator/builtins.go:14-15 | Byte length adds up over concatenation. |
| EvalLemmas.IdentityEquality | evaluator/evaluator.go:75-88 | Outside integer and string pairs, `==` and `!=` compare identity and come before any type check. |
| EvalLemmas.ArraysCompareByObject | evaluator/evaluator.go:84-85 | Two arrays are `==` exactly when they are the same object. |
| EvalLemmas.OperatorErrors | evaluator/evaluator.go:90-98 | Different types give "type mismatch: L op R"; the same non-integer, non-string type gives "unknown operator: L op R". |
| EvalLemmas.MixedExamples | evaluator/evaluator.go:75-100 | `1 == true` is FALSE. `5 + true` is a type mismatch. `true + false` is an unknown operator. `-true` is an unknown prefix operator. |
| EvalLemmas.DoubleBang | evaluator/evaluator.go:182-184 | Only NULL and FALSE are falsy. |
| EvalLemmas.NilNodes | evaluator/evaluator.go:289-386 | A nil expression evaluates to nil without touching the heap, also as a statement; `!` of nil is FALSE; `-` of nil and a nil `let` node panic. |
| EvalLemmas.IfWithoutElse | evaluator/evaluator.go:167-180 | An `if` whose condition is falsy and that has no `else` yields NULL. |
| EvalLemmas.FirstOperandError | evaluator/evaluator.go:306-382 | An error from the first operand of a prefix, infix, index or call expression is returned unchanged, and nothing after it is evaluated. |
| EvalLemmas.StatementValueError | evaluator/evaluator.go:330-342 | An error from the value of a `return` or `let` is the statement's result, with the heap as the value's evaluation left it: nothing is bound and no wrapper is made. |
| EvalLemmas.SecondOperandError | evaluator/evaluator.go:313-322 | An error from the right operand of an infix or index expression is returned unchanged. |
| EvalLemmas.ArgumentsStopAtError | evaluator/evaluator.go:233-244 | Arguments after the first error are not evaluated. |
| EvalLemmas.ArgumentError | evaluator/evaluator.go:352-371 | An element error is the result of the array literal. An argument error is the result of the call, once the callee has been evaluated without stopping. |
| EvalLemmas.BlockStopsEarly | evaluator/evaluator.go:186-200 | A block stops at the first return wrapper or error; later statements are not evaluated. |
| EvalLemmas.UnwrapResult | evaluator/evaluator.go:262-267 | Unwrapping keeps the heap and whether the outcome is normal. |
| EvalLemmas.ProgramIsUnwrappedBlock | evaluator/evaluator.go:23-39 | A program runs its statements as a block does and unwraps a final return wrapper. |
| EvalLemmas.ProgramAndBlock | evaluator/evaluator.go:23-39 | The same, stated for a whole program and the block of the same statements. |
| EvalLemmas.LetBinds | evaluator/evaluator.go:337-342 | `let` binds the value in the current environment and yields nil; the name then evaluates to it. |
| EvalLemmas.IdentifierResolution | evaluator/evaluator.go:202-211 | The environment comes first, then the built-ins, else "identifier not found: name"; a binding named `len` shadows the built-in. |
| EvalLemmas.NotAFunction | evaluator/evaluator.go:246-260 | A callee that is neither a function nor a built-in gives "not a function: T". |
| EvalLemmas.BindParamsBinds | evaluator/evaluator.go:269-276 | Parameter i is bound to argument i, unless a later parameter has the same name. |
| EvalLemmas.BindParamsKeeps | evaluator/evaluator.go:269-276 | A name that is not a parameter keeps its binding. |
| EvalLemmas.CallEnvironment | evaluator/evaluator.go:269-276 | A call's environment is enclosed by the closure's environment. It binds each parameter positionally and sees every other name of the captured environment. |
| EvalLemmas.IndexBounds | evaluator/evaluator.go:222-231 | An in-range index gives the element; a negative or too large index gives NULL. |
| EvalLemmas.IndexAfterAppend | evaluator/builtins.go:36-41 | After `append(a, x)` the new last element of `a`, seen through the same object, is `x`; earlier elements are unchanged. |
| Evaluator.Runtime.NewEnv | obj/env.go:7-9 | Allocates the frame `Obj.NewEnv` describes. |
| Evaluator.Runtime.NewEnclosedEnv | evaluator/evaluator.go:270 | Allocates the frame `Obj.NewEnclosedEnv` describes. |
| Evaluator.Runtime.Set | obj/env.go:16-19 | Updates the store of the environment in place, as `Obj.Set` describes, and returns the value stored. |
| Evaluator.Runtime.Eval | evaluator/evaluator.go:289-386 | Computes exactly `EvalExpr`: the same outcome and the same heap afterwards. |
| Evaluator.Runtime.EvalIf | evaluator/evaluator.go:167-180 | Computes exactly `EvalExpr` for `if` expressions. |
| Evaluator.Runtime.EvalExpressions | evaluator/evaluator.go:233-244 | The loop computes exactly `EvalSpec.EvalExpressions`. |
| Evaluator.Runtime.EvalStmt | evaluator/evaluator.go:330-342 | Computes exactly `EvalSpec.EvalStmt`. |
| Evaluator.Runtime.EvalBlock | evaluator/evaluator.go:186-200 | The loop computes exactly `EvalSpec.EvalBlock`. |
| Evaluator.Runtime.Apply | evaluator/evaluator.go:246-260 | Computes exactly `EvalSpec.Apply`. |
| Evaluator.Runtime.ExtendFuncEnv | evaluator/evaluator.go:269-276 | The loop allocates an enclosed frame and binds the parameters, as `NewEnclosedEnv` and `BindParams` describe. |
| Evaluator.Runtime.Append | evaluator/builtins.go:25-43 | The element loop computes exactly `Builtins.Append`. |
| Evaluator.Runtime.EvalProgram | evaluator/evaluator.go:23-39 | The loop computes exactly `EvalSpec.EvalProgram`. |
| Evaluator.Run | evaluator/evaluator.go:23-39 | Evaluates a program in a fresh global environment, as `EvalProgram` describes. |

## Left out

- Goroutines and channels: the lexer appends tokens to a sequence, and the parser reads from that sequence.
- Unicode: the lexer is modelled for ASCII input only (`Lexer.Lexer.constructor` requires it). It has no Unicode letter or digit tables and does no UTF-8 decoding. On non-ASCII letters or digits the Go lexer loops emitting empty tokens.
- LexerSpec.ScanExpression, LexerSpec.Tokenize, LexerSpec.Unrecognised, LexerLemmas.TokenizeGood and LexerLemmas.InvalidContinues take any string, but they match Go only on ASCII input. Their letter and digit classes are ASCII, so a non-ASCII letter or digit counts as unrecognised and yields an ILLEGAL token, where Go's `unicode.IsLetter` sends it to `lexIdentifier` or `lexNumber`, which then loop emitting empty tokens.
- Lexer.Lexer.LexString: an unterminated string makes the Go lexer spin forever at the end of input. The model stops there with the flag `hangs` set instead.
- Strconv.ParseInt64: underscore separators in number literals are not modelled. The lexer never puts them in an INT token.
- Token.TokenString: `%q` escaping is modelled for quotes, backslashes and control characters only, not for other non-printable characters.
- The REPL (`repl/repl.go`) and `main.go`: line reading, printing and user lookup are I/O.
- `token.LookupIdent`, `obj.NewEnclosedEnv` and the `obj.Null` type are not part of this model's sources. The keyword table is a fixed function onto the keyword kinds the parser dispatches on. An enclosed environment is assumed to be a new store whose lookups fall back to the parent environment. `obj.Null`, which `evaluator/evaluator.go:10` only instantiates, is reconstructed in `Obj.TypeOf` and `Obj.Inspect`: its `Type()` is taken as NULL and its `Inspect()` as `null`, with no text in the source to support either.
- Evaluator.Run: fuel bounds the nesting depth of function calls. A program that needs more reports `Exhausted`, where Go would run until its stack overflows.
- Obj.Inspect: printing an array or a return wrapper also consumes fuel. A cyclic array, such as `a` after `let a = [1]; append(a, a)`, prints as `Exhausted`, where Go's `Inspect` recurses until its stack overflows.
- Go runtime panics are outcomes (`Panic`), not preconditions. Examples are division by zero, a call with fewer arguments than parameters, a nil `let` node, and asking a nil object for its type; a nil expression itself evaluates to nil. Rendering is not an outcome: `Ast.ExprString` requires a tree whose `String()` does not panic, and `Ast.Fmt` gives the `%s` text, recovered placeholder included, for any tree.
- Pointers are indices into an arena heap. Frames, arrays, closures and return wrappers are never freed, and no garbage collection is modelled.
- Builtins.Len: the conversion of a Go `len` result to `int64` cannot wrap for any string or array that fits in memory, so the model does not wrap it.
- DIVIDE and TIMES are declared in `token/token.go` but used nowhere, so they are not modelled.
- Re-parsing a rendering to get the same rendering back is not proved.
- Ast.StmtString, Ast.ProgramString and the identifier case of Ast.ExprString: `LetStatement`, `ReturnStatement`, `Identifier` and `Program` have no `String()` method in `ast/`, though `ast/function.go:25` calls one on an `*Identifier`. They are reconstructed: an identifier renders as its value, a program as its statements' renderings concatenated and `let x = v` as `let x = v;` (both as `ast/ast_test.go:8-28` expects), and `return v` as `return v;` by analogy with `let`, with no text in the source to support it.

Behaviour of the Go code a reader might not expect:

- An unrecognised character gives an error token and lexing continues. Only `^` ends the token stream.
- The lexer never emits `[` or `]`, so the parser is specified over arbitrary token sequences.
- `len` of a string counts bytes, not characters.
- Division by zero, too few arguments, a nil `let` node and operators applied to nil are Go runtime panics, not error values. A nil expression evaluates to nil, and extra arguments are ignored.
- `**` lexes and parses at PRODUCT precedence, but evaluates to "unknown operator: INTEGER ** INTEGER".
- The kinds the token table lacks (MINUS, POWER, EQ, BANG, ...) and the object types the type table lacks (STRING, ARRAY, BUILTIN) print as the empty string, as a Go map lookup miss does.
