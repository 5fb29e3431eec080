# 9cc in Dafny: tokenizer, expression parser and x86-64 stack code generator

This project models the core of 9cc, a small C compiler that emits Intel-syntax x86-64
assembly, and proves properties of it. The compiler reads a program text and turns it into
a chain of tokens (`tokenize`). A recursive-descent parser builds a tree of `Node`s from the
tokens (`expr`, `equality`, `relational`, `add`, `mul`, `unary`, `primary`). The code
generator then writes stack-machine style assembly for each tree (`gen`, `gen_lval`,
`gencode`).

The repository holds two generations of the compiler, and both are modelled:

- `9cc.c` is the early one-file compiler. Its tokenizer knows numbers and operators only.
  Its `gen` handles numbers and the eight binary operators.
- `parse.c`, `gen.c`, `9cc.h` and `utils.c` are the split compiler.
  - Its tokenizer also produces one-letter identifier tokens (`TK_IDENT`). Its expression
    parser is the same as `9cc.c`'s and still accepts only numbers in `primary`.
  - `gen.c` comes from a later snapshot than `9cc.h`. It switches on node kinds
    `9cc.h:26-36` does not declare yet: local variables, assignment, expression statements,
    `return`, `if`, `while`, `for`, blocks and function calls. The model's `Node` type
    (`ast.dfy`) carries all of them, and every node kind `gen.c` switches on is modelled.

How the source's shape maps to the model:

- **Values.** Tokens and nodes are values (`Ast.Token`, `Ast.Node`).
  - The C linked lists (`Token *next`, the `Node *next` chain of a function, the `LVar`
    list) become sequences.
  - A `Token`'s `str` is the rest of the input from the token's first character, as the C
    pointer designates it. `len` counts the characters that belong to the token.
  - `new_node` and `new_node_num` are the datatype constructors `Bin` and `Num`.
  - The node kinds `ND_GE`/`ND_GE_EQ`/`ND_NOT_EQ` that `9cc.c` and `parse.c` use are
    `9cc.h`'s `ND_LT`/`ND_LE`/`ND_NE`. They are the operators `Lt`, `Le` and `Ne`.
- **Tokenizer.** A tokenizer is a pure function (`Lexer.LexFrom`, `Lexer9cc.LexFrom`) plus an
  imperative `Tokenize` method. The method walks the input with an index and appends to a
  token sequence, as the C loop does, and is proved to return exactly what the function
  returns.
- **Parser.** The parser is a class, `Parse.Parser`.
  - Its `pos` field is the global `token` cursor, and each C function is a method that
    advances it.
  - The grammar is also written as pure functions (`Grammar`). Every method is proved to
    agree with them, and the grammar's properties are proved about the functions
    (`GrammarFacts`): printing an arithmetic tree with the fewest parentheses and parsing
    the printed tokens gives the same tree, operators chain to the left, precedence, `>` as
    swapped `<`, and unary `+`/`-`.
  - `PrintedText` takes that round trip from characters. The printed symbols are written
    out as text, one blank after each. `tokenize` turns the text into one token per symbol
    and the EOF token, and `expr` parses those tokens back to the tree.
- **Code generator.** The generator of `gen.c` is a class, `Emitter.Generator`.
  - Its output is an instruction sequence, and its `labelnumber` counter is a field.
  - Each method (`Gen`, `GenLval`, …) is proved to append exactly what a pure function
    (`CodeGen.Code`) says and to advance the counter as that function does.
  - `Emitter.GenCode` is `gencode`. It first runs the offset-assigning loop on a
    `Function` object (`Emitter.Function`), then emits prologue, body and epilogue.
- **Properties of the generated code.**
  - Its stack discipline: an expression pushes one word and a statement leaves the stack as
    it was (`CodeGenStack`).
  - Its labels: every label is defined once and every jump has a target (`CodeGenLabels`).
  - What it computes: a small stack machine (`Machine`) executes straight-line code, and the
    code of numbers, locals, assignments, binary operators and call arguments is proved to
    leave the value the expression denotes on the stack (`Gen9cc`, `CodeGenRun`).
- **Division.** `cqo; idiv` divides truncating toward zero. The machine models this
  explicitly (`Machine.TruncDiv`), because Dafny's `/` is Euclidean.

`error` and `error_at` print a message and exit. In the model they are error results
(`Result`): the parser's `ParseError` records the index of the token at whose text `error_at`
reports, and the tokenizer's `LexError` records the character position.

## Model

| member | source | states |
|---|---|---|
| Utils.StartsWith | utils.c:14-16 | true exactly when `prefix` is no longer than `str` and is its prefix |
| CLib.ScanDecimal | parse.c:103 | the scan stops at the first non-digit or the end, everything scanned is digits, and the value is the decimal value of the scanned run |
| CLib.Strtol | parse.c:100-104 | strtol on a digit consumes the maximal digit run (at least one character) and returns its decimal value and the end position |
| CLib.StrtolRun | parse.c:100-104 | proof step: strtol's result depends only on the digit run: when the run from `p` ends at `q`, it returns the run's decimal value and `q` |
| Lexer.LexFrom | parse.c:74-118 | a successful tokenization yields at least one token (the final EOF) |
| Lexer.StepSpace | parse.c:81-84 | proof step: a blank at `p` is skipped: tokenizing from `p` equals tokenizing from `p + 1` |
| Lexer.StepOperator | parse.c:86-98 | proof step: a two-character operator (`==`, `!=`, `>=`, `<=`) or a one-character punctuator yields a reserved token of that length, and tokenizing continues after it |
| Lexer.StepNumber | parse.c:100-106 | proof step: a digit yields a number token whose value and length are strtol's, and tokenizing continues after the digits |
| Lexer.StepIdent | parse.c:108-111 | proof step: a lower-case letter yields a one-character identifier token, and tokenizing continues after it |
| Lexer.StepError | parse.c:113 | proof step: any other character stops tokenization with an error at its position |
| Lexer.ShapeEnd | parse.c:116 | at the end of the input the result is the single EOF token positioned at the end |
| Lexer.LexFromShape | parse.c:74-118 | a successful result is a well-formed token stream: only the last token is EOF, every token points into the input, and its text is a two-character operator, a punctuator, a maximal digit run carrying its decimal value, or (with identifiers on) a lower-case letter; a failure names a position holding a character no branch accepts, and that position is where the scan stopped: the input cut off there tokenizes without error |
| Lexer.ScanReachesError | parse.c:74-118 | when tokenizing fails, the failure position is at or after the start and inside the input, and the input cut off at that position tokenizes without error |
| Lexer.ScanToken | parse.c:86-113 | one pass of the loop body on a non-blank character: either it reports the error the whole tokenization ends with, or it advances past one token and what remains to tokenize still yields the same overall result |
| Lexer.Tokenize | parse.c:74-118 | the imperative loop returns exactly `LexFrom(input, 0)`: the same tokens, or the same error |
| LexerFacts.SpellIsSqueeze | parse.c:74-118 | the lexemes of the tokens, concatenated, are the input with its blanks removed: nothing is lost or invented |
| LexerFacts.SqueezeRun | parse.c:79-84 | removing blanks from a run without blanks keeps the run intact in front |
| LexerFacts.SpellOperator | parse.c:86-98 | an operator token spells exactly its characters of the input, followed by the spelling of the rest |
| LexerFacts.SpellNumber | parse.c:100-106 | a number token spells exactly its digit run, followed by the spelling of the rest |
| LexerFacts.LettersAreSeparateIdentifiers | parse.c:108-111 | `ab` tokenizes into two one-letter identifiers and EOF |
| Lexer9cc.LexFrom | 9cc.c:153-191 | definition; the tokens 9cc.c's `tokenize` loop yields from position p: blanks skipped, a two-character operator taken with no `continue`, then the rest of the turn in `AfterOperator`; EOF at the end. Its properties are in `Lexer9cc.LexFromShape`, `Lexer9cc.AgreesWhenFollowed` and `Lexer9cc.Tokenize` |
| Lexer9cc.AfterOperator | 9cc.c:173-186 | definition; the rest of one turn from the one-character test on: punctuator, digits by strtol, otherwise `error_at`, and a read past the end when the test meets the terminator. Its properties are in `Lexer9cc.AfterOperatorShape` and `Lexer9cc.AfterOperatorReachesError` |
| Lexer9cc.StepSpace | 9cc.c:159-162 | proof step: a blank is skipped |
| Lexer9cc.StepTwoChar | 9cc.c:165-171 | proof step: a two-character operator yields a reserved token of length 2, after which the punctuator test runs at once on the next character (there is no `continue`) |
| Lexer9cc.StepOther | 9cc.c:165-171 | proof step: without a two-character operator, the character goes straight to the punctuator test |
| Lexer9cc.StepPunct | 9cc.c:173-176 | proof step: a punctuator yields a one-character reserved token |
| Lexer9cc.StepNumber | 9cc.c:178-184 | proof step: a digit yields a number token with strtol's value and length |
| Lexer9cc.AdvanceFail | 9cc.c:173-186 | proof step: at the punctuator test, the end of the input (reachable only right after a two-character operator) is a read past the terminator, and a character that is neither a punctuator nor a digit is an error at its position |
| Lexer9cc.LexFromShape | 9cc.c:153-191 | a successful result is a valid stream (only the last token is EOF, every token's length fits its text) with no identifier token; a failure is either a character that is neither a punctuator nor a digit, or a read past the end of the input right after a two-character operator that ends it; and the failure position is where the scan stopped: the input cut off there scans without error, or runs past its end exactly there |
| Lexer9cc.ScanReachesError | 9cc.c:153-191 | when the as-written tokenizer fails, the failure position lies in the input, and the input cut off there scans without error or runs past its end exactly there |
| Lexer9cc.AfterOperatorReachesError | 9cc.c:173-186 | the same, from the punctuator test just after a two-character operator |
| Lexer9cc.AfterOperatorShape | 9cc.c:173-191 | the same for the state just after a two-character operator |
| Lexer9cc.AgreesWhenFollowed | 9cc.c:153-191 | when every two-character operator is directly followed by a number or a punctuator, the as-written tokenizer returns the same tokens as the corrected one |
| Lexer9cc.TwoCharAgrees | 9cc.c:165-176 | the same agreement, at a two-character operator |
| Lexer9cc.AfterOperatorAgrees | 9cc.c:173-184 | the same agreement, just after a two-character operator |
| Lexer9cc.FirstToken | 9cc.c:165-184 | a number or one-character operator token of the corrected lexer that starts at the current position was made there by the number or punctuator branch |
| Lexer9cc.TrailingOperatorReadsPastEnd | 9cc.c:165-176 | `1<=` reads past the end of the input, while the corrected tokenizer accepts it |
| Lexer9cc.BlankAfterOperatorRejected | 9cc.c:165-186 | `1== 2` is rejected at the blank after `==` |
| Lexer9cc.BlankAfterOperatorSkipped | parse.c:86-93 | the corrected tokenizer accepts `1== 2` |
| Lexer9cc.ScanOperand | 9cc.c:173-186 | the loop body after the two-character test either reports the final error or advances past one token, keeping the overall result |
| Lexer9cc.Tokenize | 9cc.c:153-191 | the imperative loop returns exactly `Lexer9cc.LexFrom(input, 0)` |
| Grammar.Matches | parse.c:26-31 | definition; the test of `consume` and `expect` (also 9cc.c:105-110): a reserved token whose length equals the operator's and whose text is the operator. It is used by `Parse.Parser.Consume`; `GrammarFacts.MatchesUnique` says a token matches at most one operator |
| Grammar.LevelOp | parse.c:141-198 | definition; the operator arms of the four `for(;;)` loops, in source order, with the node kind each builds and whether its operands are swapped (`>`, `>=`). Its properties are in `Parse.EqualityOps`, `Parse.RelationalOps`, `Parse.AddOps`, `Parse.MulOps` and `GrammarFacts.LevelUnique` |
| Grammar.Combine | parse.c:144-165 | definition; `new_node(kind, node, rhs)`, or the swapped `new_node(kind, rhs, node)` for `>` and `>=`. Its properties are in `GrammarFacts.GreaterIsSwappedLess` and `GrammarFacts.ChainsLeft` |
| Grammar.Expr | 9cc.c:208-210 | a parse of `expr` either consumes at least one token and stops before EOF, or fails at a position at or after its start |
| Grammar.Binary | 9cc.c:213-270 | the same progress and error-position guarantee for the four left-associative levels `equality`, `relational`, `add` and `mul` |
| Grammar.Loop | 9cc.c:216-223 | the `for (;;)` loop of a level never moves backwards and fails only at or after its position |
| Grammar.Unary | 9cc.c:273-282 | `unary` consumes at least one token or fails at or after its start |
| Grammar.Primary | 9cc.c:284-295 | `primary` consumes at least one token or fails at or after its start |
| Grammar.Operand | 9cc.c:208-295 | the same guarantee for any level, numbered from `equality` (0) to `unary` (4) |
| Grammar.OperandIsBinary | 9cc.c:213-270 | proof step: a level below `unary` is a binary level |
| Grammar.BinaryStep | 9cc.c:245-247 | proof step: a level first parses its operand at the next level, then runs its loop from there |
| Grammar.LoopStop | 9cc.c:252-254 | proof step: the loop returns the node built so far when the next token is none of the level's operators |
| Grammar.LoopStep | 9cc.c:248-251 | proof step: an operator followed by an operand at the next level extends the node and continues the loop |
| Grammar.LoopTurn | 9cc.c:248-251 | proof step: after an operator, a failing operand fails the loop with the same error, and a successful one continues the loop with the combined node |
| Grammar.UnaryIsPrimary | 9cc.c:273-282 | proof step: without a sign, `unary` is `primary` |
| Grammar.PrimaryParenthesised | 9cc.c:284-290 | proof step: `(` expression `)` parses to the inner expression's node |
| Parse.EqualityOps | parse.c:144-150 | proof step: the `equality` level accepts exactly `==` (`Eq`) and `!=` (`Ne`), tested in that order |
| Parse.RelationalOps | parse.c:158-167 | proof step: the `relational` level accepts `<`, `<=`, `>` and `>=`; the last two build `Lt`/`Le` with the operands swapped |
| Parse.AddOps | parse.c:176-181 | proof step: the `add` level accepts exactly `+` and `-` |
| Parse.MulOps | parse.c:190-195 | proof step: the `mul` level accepts exactly `*` and `/` |
| Parse.Turned | parse.c:143-151 | once the right operand is parsed, the level continues with the combined node or fails with the operand's error |
| Parse.Parser.constructor | parse.c:74-118 | the cursor starts at the first token of a well-formed stream |
| Parse.Parser.Consume | parse.c:26-34 | advances by one token exactly when the current token is a reserved token spelling `op`, and says whether it did |
| Parse.Parser.Expect | parse.c:38-45 | advances over a reserved token spelling `op`, and otherwise fails with an error at the current token, leaving the cursor |
| Parse.Parser.ExpectNumber | parse.c:49-56 | returns the value of a number token and advances, and otherwise fails at the current token |
| Parse.Parser.AtEof | parse.c:58-60 | true exactly when the cursor is at the final EOF token |
| Parse.Parser.Expr | parse.c:136-138 | the node and new cursor, or the error, are those of `Grammar.Expr` from the old cursor |
| Parse.Parser.Equality | parse.c:141-152 | agrees with the `equality` level of the grammar |
| Parse.Parser.Relational | parse.c:155-170 | agrees with the `relational` level, including the swapped operands of `>` and `>=` |
| Parse.Parser.Add | parse.c:173-184 | agrees with the `add` level |
| Parse.Parser.Mul | parse.c:187-198 | agrees with the `mul` level |
| Parse.Parser.Turn | parse.c:158-159 | one `if (consume(op)) node = new_node(…)` arm: it consumes exactly when the token matches and then continues the level's loop as the grammar does |
| Parse.Parser.Next | parse.c:159 | parses the operand one level up, agreeing with the grammar |
| Parse.Parser.Unary | parse.c:201-209 | agrees with `Grammar.Unary`: `+` is dropped and `-x` becomes `0 - x` |
| Parse.Parser.Primary | parse.c:212-222 | agrees with `Grammar.Primary`: a parenthesised expression or a number |
| GrammarFacts.Prec | parse.c:141-198 | each binary operator's precedence level is at most 3 |
| GrammarFacts.OpLevel | parse.c:141-198 | the level at which a token is an operator is at most 4 |
| GrammarFacts.MatchesUnique | parse.c:26-34 | proof step: a token matches at most one operator spelling |
| GrammarFacts.LevelUnique | parse.c:141-198 | proof step: a token is an operator of at most one level |
| GrammarFacts.OpLevelAccepts | parse.c:141-198 | proof step: a level accepts a token exactly when the token's operator level is that level |
| GrammarFacts.SpellDenotes | parse.c:136-222 | proof step of RoundTrip: the stand-in token the printer uses for a symbol is read by the parser as that symbol |
| GrammarFacts.StopsNone | parse.c:148-150 | proof step: a token that stops a level is none of its operators |
| GrammarFacts.StopsAfterOperator | parse.c:141-198 | proof step: an operator of one level stops every tighter level |
| GrammarFacts.ClosingStops | parse.c:214-217 | proof step: `)` and EOF stop every level |
| GrammarFacts.OpenIsNoSign | parse.c:201-214 | proof step: `(` is neither unary sign |
| GrammarFacts.AtCat | parse.c:136-222 | a token stream spells a concatenation exactly when it spells both parts one after the other |
| GrammarFacts.AtLength | parse.c:136-222 | a spelled symbol sequence fits inside the stream |
| GrammarFacts.AtSpelling | parse.c:136-222 | proof step of RoundTrip: stand-in tokens for the symbols, wherever they lie, are read as those symbols |
| GrammarFacts.PrintLevelUp | parse.c:141-198 | proof step: a tree whose root is not an operator of the level prints the same one level up |
| GrammarFacts.PrintBin | parse.c:141-198 | proof step: an operator node prints as its left operand, the operator, and its right operand printed one level up |
| GrammarFacts.PrintParenthesised | parse.c:212-218 | proof step: at the `primary` level an operator node is printed in parentheses |
| GrammarFacts.ParsePrint | parse.c:136-222 | parsing the printed text of an arithmetic tree at any level yields that tree and stops right after the text |
| GrammarFacts.ParseLeft | parse.c:141-198 | a printed tree is what a level's loop has accumulated once the text is consumed |
| GrammarFacts.ParseLeftUp | parse.c:141-198 | the same for a tree printed one level up |
| GrammarFacts.ParseLeftNode | parse.c:141-198 | the same for an operator node of the level |
| GrammarFacts.BinLayout | parse.c:141-198 | where the printed operand, operator and right operand of an operator node lie in the stream |
| GrammarFacts.TurnAfterLeft | parse.c:141-198 | after an operator and a parsed operand the level continues with the combined node |
| GrammarFacts.ParseLeftBin | parse.c:141-198 | after `a op b` the level's loop holds `Bin(op, a, b)` |
| GrammarFacts.ParseRight | parse.c:141-198 | the right operand, printed one level up, parses back to itself |
| GrammarFacts.ParseParenthesised | parse.c:212-218 | a parenthesised printed tree parses back to the tree |
| GrammarFacts.Program | parse.c:116 | the program spelling a symbol sequence is its tokens followed by EOF, a well-formed stream |
| GrammarFacts.SpelledReads | parse.c:136-222 | proof step of RoundTrip: the stand-in token stream of a symbol sequence is read as that sequence |
| GrammarFacts.ProgramEnds | parse.c:116 | the token after the text stops every level |
| GrammarFacts.RoundTrip | parse.c:136-222 | `expr` on the tokens of any arithmetic tree printed with the fewest parentheses, followed by EOF, returns that tree and stops at EOF (the round trip on tokens; PrintedText.TextRoundTrip takes it from characters) |
| PrintedText.DigitsValue | parse.c:100-104 | the decimal digits written for a non-negative number are a non-empty digit run whose value, as strtol reads it, is the number |
| PrintedText.PrintWritable | parse.c:136-222 | a tree without negative numbers prints without negative numbers |
| PrintedText.NumberRun | parse.c:100-106 | the digits of a number followed by a blank: the number branch is taken and strtol reads exactly that number and stops at the blank |
| PrintedText.ReadNumber | parse.c:81-106 | a non-negative number followed by a blank tokenizes as one number token carrying it, and tokenizing continues after the blank |
| PrintedText.ReadOperator | parse.c:81-98 | an operator or parenthesis followed by a blank tokenizes as one reserved token whose text is exactly that operator, and tokenizing continues after the blank |
| PrintedText.OperatorDenotes | parse.c:141-217 | a reserved token whose text is an operator or parenthesis is read by the parser as that symbol, by the level of that operator |
| PrintedText.ReadSymbol | parse.c:81-106 | the first written symbol and its blank tokenize as one token that the parser reads as that symbol |
| PrintedText.TextWritten | parse.c:74-118 | the printed text of writable symbols holds each symbol's text followed by one blank, and nothing else |
| PrintedText.ReadsCons | parse.c:74-118 | a token read as the first symbol in front of a result that reads as the rest reads as all the symbols |
| PrintedText.LexText | parse.c:74-118 | tokenizing written symbols succeeds with one token per symbol, each read as its symbol, followed by the EOF token |
| PrintedText.TextSplit | parse.c:74-118 | where the first symbol's text, its blank and the rest of the text lie |
| PrintedText.AtShift | parse.c:136-222 | a token put in front of a stream moves where the symbols are read by one |
| PrintedText.ParseReading | parse.c:136-222 | tokens read as the printed symbols and then EOF parse back to the printed tree |
| PrintedText.TextRoundTrip | parse.c:74-222 | tokenizing the printed text of any arithmetic tree without negative numbers, with identifiers on or off, succeeds with one token per printed symbol plus EOF, a valid stream, and `expr` on those tokens returns the tree and stops at EOF |
| GrammarFacts.ParseOneOperator | parse.c:141-198 | `a op b` with operands one level up parses to the combined node |
| GrammarFacts.GreaterTokens | parse.c:162-165 | `>` and `>=` are `Lt` and `Le` with the operands swapped |
| GrammarFacts.GreaterParsesSwapped | parse.c:162-165 | `a > b` parses to `Lt(b, a)` and `a >= b` to `Le(b, a)` |
| GrammarFacts.LessParses | parse.c:158-161 | `b < a` parses to `Lt(b, a)` and `b <= a` to `Le(b, a)` |
| GrammarFacts.GreaterIsSwappedLess | parse.c:158-165 | `a > b` and `b < a` (and `a >= b`, `b <= a`) parse to the same tree |
| GrammarFacts.UnaryPlusDropped | parse.c:202-204 | unary `+` leaves its operand's tree unchanged |
| GrammarFacts.UnaryMinusSubtracts | parse.c:205-207 | unary `-e` parses to `0 - e` |
| GrammarFacts.IdentifierRejected | parse.c:220-221 | an identifier token, which the tokenizer of parse.c produces, is rejected at every level with "not a number" at its position |
| GrammarFacts.ChainsLeft | parse.c:173-184 | `x op y op' z` with operators of one level groups to the left |
| GrammarFacts.TighterFirst | parse.c:173-198 | the operator of the tighter level groups first, whichever side it is on |
| Machine.TruncDiv | gen.c:165-169 | definition; the quotient `idiv` leaves in rax, rounded toward zero. `Machine.TruncDivRounds` states it against Euclidean division |
| Machine.TruncRem | gen.c:165-169 | definition; the remainder `idiv` leaves in rdx, with the sign of the dividend. `Machine.TruncDivRounds` states it |
| Machine.Step | gen.c:21-197 | definition; one instruction of the code `gen` emits, acting on registers, the operand stack and frame memory; `None` is a fault. Its properties are in `Machine.StepDepth` and `Machine.RunOne` |
| Machine.Run | gen.c:21-197 | definition; the instructions one after another, stopping at the first fault. Its properties are in `Machine.RunCat` and `Machine.RunDepth` |
| Machine.Value | 9cc.c:309-343 | definition; the value an arithmetic tree stands for: the four operations, division truncating, comparisons giving 0 or 1, `None` on a zero divisor. `Gen9cc.GenComputes` states that the code computes it |
| Machine.Eval | gen.c:21-197 | definition; the value and memory after evaluating an expression left to right, with locals read from and assignments written to frame slots. Its properties are in `Machine.EvalArith` and the `CodeGenRun` lemmas |
| Machine.NatDivision | 9cc.c:319-322 | proof step: natural division leaves a remainder below the divisor |
| Machine.TruncDivRounds | 9cc.c:319-322 | `idiv` rounds toward zero: its quotient's magnitude is the quotient of the magnitudes, negative exactly when the signs differ and the dividend is large enough, and the remainder has the dividend's sign |
| Machine.RunOne | 9cc.c:297-346 | running one instruction is stepping it |
| Machine.RunTwo | 9cc.c:297-346 | running two instructions steps them in order |
| Machine.RunThree | 9cc.c:297-346 | running three instructions steps them in order |
| Machine.RunCat | 9cc.c:297-346 | running concatenated code runs the first part and then the second |
| Machine.StepDepth | 9cc.c:297-346 | proof step: a step changes the stack depth by the instruction's stack effect |
| Machine.RunDepth | 9cc.c:297-346 | a run changes the stack depth by the code's stack effect |
| Machine.EvalArith | 9cc.c:297-346 | evaluating an arithmetic tree touches no memory and gives its value |
| Gen9cc.OpCode | 9cc.c:309-343 | definition; the instructions of the `switch` for each operator. `Gen9cc.OpCodeComputes` and `Gen9cc.OpCodeBalanced` state what they compute |
| Gen9cc.Tail | 9cc.c:306-345 | definition; `pop rdi`, `pop rax`, the operator's code, `push rax`. `Gen9cc.TailComputes` and `Gen9cc.TailEffect` state it |
| Gen9cc.Gen | 9cc.c:297-346 | definition; the code 9cc.c's `gen` prints: `push` for a number, otherwise both operands then the tail. `Gen9cc.GenComputes` and `Gen9cc.GenPushesOne` state it |
| Gen9cc.OpCodeComputes | 9cc.c:309-343 | the code for each operator leaves `rax op rdi` in `rax` and faults exactly when the operation is undefined (division by zero) |
| Gen9cc.ArithRuns | 9cc.c:310-318 | `add`, `sub` and `imul` put the result in `rax` |
| Gen9cc.DivRuns | 9cc.c:319-322 | `cqo; idiv rdi` puts the truncated quotient in `rax` and the remainder in `rdx` |
| Gen9cc.SetRuns | 9cc.c:323-342 | `cmp; setCC al; movzb rax, al` puts 1 in `rax` when the condition holds and 0 when not |
| Gen9cc.TailComputes | 9cc.c:306-345 | popping `rdi` and `rax`, operating and pushing replaces the two topmost words by their result |
| Gen9cc.OpCodeBalanced | 9cc.c:309-343 | the operator code leaves the stack depth unchanged |
| Gen9cc.TailEffect | 9cc.c:306-345 | pop, pop, operate, push lowers the depth by one |
| Gen9cc.GenPushesOne | 9cc.c:297-346 | the code of an expression raises the stack depth by exactly one |
| Gen9cc.GenComputes | 9cc.c:297-346 | the code of an expression runs exactly when its value is defined, and then pushes that value and leaves the rest of the stack and the memory unchanged |
| Asm.StackEffectCat | gen.c:21-197 | the stack effect of concatenated code is the sum of the parts' |
| Asm.NoStackEffect | gen.c:21-197 | code with no pushes or pops has no stack effect |
| Asm.CountCat | gen.c:21-197 | label definitions and jump targets of concatenated code are those of the parts |
| Asm.CatAt | gen.c:21-197 | the same, for one label |
| Asm.One | gen.c:21-197 | proof step: a single instruction defines at most its own label and jumps only to its own target |
| Asm.Plain | gen.c:21-197 | code without labels or jumps defines and targets none |
| Asm.Juxtapose | gen.c:103-107 | two well-labelled pieces numbered in consecutive ranges form a well-labelled whole |
| Asm.Around | gen.c:45-49 | label-free code around a well-labelled piece keeps it well labelled |
| Asm.Glue | gen.c:50-102 | proof step: the labels a construct adds around its parts, numbered just before or just after theirs, keep the whole well labelled |
| Asm.TwoLabels | gen.c:50-83 | proof step: two distinct labels with one number, each defined once, form uniquely defined, closed glue |
| CodeGen.Code | gen.c:21-197 | definition; the code gen.c's `gen` prints for a node, with the label counter before and after; an error where `gen_lval` stops. Its properties are in `CodeGen.Counted`, `CodeGenLabels.Labels`, `CodeGenStack.Balanced` and the `CodeGenRun` lemmas |
| CodeGen.LvalCode | gen.c:11-19 | definition; `gen_lval`: `lea` of the slot and `push`, or an error for a node that is not a local. `CodeGenRun.LvalRuns`, `CodeGenRun.LvalAccepts` and `CodeGenRun.AssignRejects` state it |
| CodeGen.AssignCode | gen.c:35-44 | definition; the `ND_ASSIGN` case. `CodeGenRun.AssignComputes` and `CodeGenStack.AssignBalanced` state it |
| CodeGen.IfCode | gen.c:50-72 | definition; the `ND_IF` case, with and without `else`. `CodeGen.IfCounted`, `CodeGenLabels.IfLabels`, `CodeGenLabels.IfElseLabels` and `CodeGenStack.IfBalanced` state it |
| CodeGen.WhileCode | gen.c:73-83 | definition; the `ND_WHILE` case. `CodeGen.WhileCounted`, `CodeGenLabels.WhileLabels` and `CodeGenStack.WhileBalanced` state it |
| CodeGen.ForCode | gen.c:84-102 | definition; the `ND_FOR` case, each of init, cond and inc optional. `CodeGen.ForCounted`, `CodeGenLabels.ForLabels` and `CodeGenStack.ForBalanced` state it |
| CodeGen.ForText | gen.c:84-102 | definition; the layout of a `for` around its four parts, the guard only when cond is present. `CodeGenLabels.ForGuard` and `CodeGenStack.ForTextEffect` state it |
| CodeGen.CallOf | gen.c:108-136 | definition; the `ND_FUNCALL` case: the arguments, the pops, then the call with a label number taken after the arguments. `CodeGenLabels.CallOfLabels`, `CodeGenStack.CallBalanced` and `CodeGenRun.ArgsLoad` state it |
| CodeGen.CallCode | gen.c:119-134 | definition; the alignment test of rsp and the two call paths. `CodeGenLabels.CallLabels` and `CodeGenStack.CallCodeEffect` state it |
| CodeGen.Pops | gen.c:115-117 | definition; `pop argregs[i]` for i from nargs-1 down to 0. `CodeGenRun.PopsLoad`, `CodeGenStack.PopsEffect` and `CodeGenLabels.PopsPlain` state it |
| CodeGen.BinCode | gen.c:145-196 | definition; both operands, then the operator's code and `push rax`. `CodeGen.BinCounted`, `CodeGenRun.BinComputes` and `CodeGenStack.BinBalanced` state it |
| CodeGen.SeqCode | gen.c:103-113 | definition; the nodes of a block or argument list in order, stopping at the first error. `CodeGen.SeqCounted`, `CodeGen.SeqPrefixErr` and `CodeGenStack.SeqBalanced` state it |
| CodeGen.OptCode | gen.c:85-99 | definition; a part of a `for` that may be NULL: no code when it is. `CodeGen.OptCounted` and `CodeGenStack.OptBalanced` state it |
| CodeGen.Prologue | gen.c:211-216 | definition; the directives, `main:` and the frame set-up. `CodeGenLabels.PrologueLabels` states it |
| CodeGen.EpilogueCode | gen.c:225-228 | definition; `.L.return:` and the frame tear-down. `CodeGenLabels.EpilogueLabels` states it |
| CodeGen.Program | gen.c:200-229 | definition; everything `gencode` prints for the top-level nodes. `CodeGenLabels.ProgramLabels` and `Emitter.GenCode` state it |
| CodeGen.Counted | gen.c:21-197 | `gen` takes exactly one label number per `if`, `while`, `for` and function call in the tree |
| CodeGen.IfCounted | gen.c:50-72 | the count for `if` |
| CodeGen.WhileCounted | gen.c:73-83 | the count for `while` |
| CodeGen.ForCounted | gen.c:84-102 | the count for `for` |
| CodeGen.BinCounted | gen.c:145-196 | the count for a binary operator |
| CodeGen.OptCounted | gen.c:84-102 | the count for an optional part of `for` or `if` |
| CodeGen.SeqCounted | gen.c:103-113 | the count for a block or an argument list |
| CodeGen.SeqPrefixErr | gen.c:103-107 | if a prefix of a block fails, so does the block |
| CodeGen.FrameOffsets | gen.c:202-206 | one offset per local |
| CodeGen.FrameSlots | gen.c:202-207 | proof step: every local's offset is a positive multiple of 8 no larger than the frame of `8 * nlocals` bytes, and two locals' slots are at least 8 bytes apart, so they never overlap |
| CodeGenLabels.Labels | gen.c:21-197 | the code of any node defines no label twice, defines only numbered labels whose numbers lie in the range of label numbers it took, and jumps only to labels it defines or to `.L.return` |
| CodeGenLabels.OptLabels | gen.c:84-102 | the same for an optional part |
| CodeGenLabels.SeqLabels | gen.c:103-113 | the same for a block or an argument list |
| CodeGenLabels.LeafLabels | gen.c:24-34 | numbers and locals use no labels |
| CodeGenLabels.AssignLabels | gen.c:35-44 | the labels of an assignment are those of its right side |
| CodeGenLabels.StmtLabels | gen.c:45-49 | expression statements and `return` keep the labelling of their expression; the jump of `return` goes to `.L.return` |
| CodeGenLabels.BinLabels | gen.c:145-196 | the labels of a binary node are its operands' |
| CodeGenLabels.IfLabels | gen.c:50-72 | `if` without `else` defines `.L.endif` once, with its own number, and stays well labelled |
| CodeGenLabels.IfElseLabels | gen.c:50-72 | `if` with `else` defines `.L.else` and `.L.endif` once each and stays well labelled |
| CodeGenLabels.WhileLabels | gen.c:73-83 | `while` defines `.L.while` and `.L.endwhile` once each and stays well labelled |
| CodeGenLabels.ForLabels | gen.c:84-102 | `for` defines `.L.for` and `.L.endfor` once each and stays well labelled |
| CodeGenLabels.WhileGuard | gen.c:73-83 | `while` jumps to `.L.endwhile` and back to `.L.while` |
| CodeGenLabels.ForGuard | gen.c:84-102 | `for` jumps to `.L.endfor` exactly when it has a condition, and always back to `.L.for` |
| CodeGenLabels.CallOfLabels | gen.c:108-135 | a call defines its `.L.call` and `.L.endcall` labels once each and stays well labelled |
| CodeGenLabels.CallLabels | gen.c:120-134 | the alignment sequence around `call` defines and targets exactly its two labels |
| CodeGenLabels.GuardLabels | gen.c:53-55 | `pop; cmp 0; je` defines nothing and jumps only to its target |
| CodeGenLabels.PopsPlain | gen.c:115-117 | popping the arguments into registers involves no labels |
| CodeGenLabels.ProgramLabels | gen.c:200-229 | the whole program defines every label once, `main` and `.L.return` exactly once, and every jump has a target |
| CodeGenLabels.PrologueLabels | gen.c:211-216 | the prologue defines only `main` and jumps nowhere |
| CodeGenLabels.EpilogueLabels | gen.c:225-228 | the epilogue defines only `.L.return` and jumps nowhere |
| CodeGenLabels.Enclosed | gen.c:211-228 | prologue, a well-labelled body and epilogue form a closed, uniquely labelled program |
| CodeGenStack.Balanced | gen.c:21-197 | the code of an expression pushes exactly one word, and the code of a statement leaves the stack as it found it |
| CodeGenStack.OptBalanced | gen.c:84-102 | the same for an optional part |
| CodeGenStack.SeqBalanced | gen.c:103-113 | a block of statements leaves the stack as it was; an argument list pushes one word per argument |
| CodeGenStack.LeafBalanced | gen.c:24-34 | a number or a local pushes one word |
| CodeGenStack.AssignBalanced | gen.c:35-44 | an assignment pushes one word, its value |
| CodeGenStack.StmtBalanced | gen.c:45-49 | an expression statement pops its value; `return` pops it into `rax` |
| CodeGenStack.IfBalanced | gen.c:50-72 | `if` leaves the stack as it was |
| CodeGenStack.WhileBalanced | gen.c:73-83 | `while` leaves the stack as it was |
| CodeGenStack.ForBalanced | gen.c:84-102 | `for` leaves the stack as it was |
| CodeGenStack.ForTextEffect | gen.c:84-102 | the `for` frame around balanced parts is balanced |
| CodeGenStack.PopsEffect | gen.c:115-117 | popping the last `n - i` arguments lowers the depth by `n - i` |
| CodeGenStack.CallCodeEffect | gen.c:120-134 | both alignment branches of a call leave the depth as it was, and the call sequence pushes the result |
| CodeGenStack.CallBalanced | gen.c:108-135 | a call pushes one word, its result |
| CodeGenStack.BinBalanced | gen.c:145-196 | a binary node pushes one word |
| CodeGenStack.GuardEffect | gen.c:53-55 | the condition test pops the condition |
| CodeGenRun.EvalList | gen.c:110-113 | evaluating a list yields one value per element |
| CodeGenRun.ArithFits | gen.c:21-197 | an arithmetic tree can be generated whatever the locals |
| CodeGenRun.ArithAgrees | gen.c:145-196 | on numbers and binary operators `gen.c` emits exactly the code of `9cc.c` and uses no label |
| CodeGenRun.LvalAccepts | gen.c:11-19 | proof step: `gen_lval` succeeds exactly on a local variable and otherwise fails with "not an lvalue" |
| CodeGenRun.AssignRejects | gen.c:35-37 | proof step: an assignment whose left side is not a local is rejected |
| CodeGenRun.LvalRuns | gen.c:17-18 | `lea rax, [rbp-off]; push rax` pushes the local's address |
| CodeGenRun.LoadRuns | gen.c:30-33 | `pop rax; mov rax, [rax]; push rax` replaces an address by the word stored there |
| CodeGenRun.StoreRuns | gen.c:39-43 | `pop rdi; pop rax; mov [rax], rdi; push rdi` stores the value at the address and leaves the value |
| CodeGenRun.LocalComputes | gen.c:24-44 | the code of an expression over numbers, locals, assignments and binary operators runs exactly when the expression evaluates, pushes its value and leaves memory as the evaluation does |
| CodeGenRun.LVarComputes | gen.c:28-34 | a local pushes the word stored in its slot |
| CodeGenRun.AssignComputes | gen.c:35-44 | an assignment stores its value in the local's slot and pushes it |
| CodeGenRun.BinComputes | gen.c:145-196 | a binary node pushes the operation on its operands' values |
| CodeGenRun.ListComputes | gen.c:110-113 | the argument code pushes the arguments' values in order |
| CodeGenRun.ArgRegsDistinct | gen.c:9 | proof step: the six argument registers are distinct and are neither `rsp` nor `rbp` |
| CodeGenRun.PopRuns | gen.c:116 | proof step: `pop r` moves the top word into `r` |
| CodeGenRun.PopsLoad | gen.c:115-117 | popping the arguments in reverse order leaves the k-th argument in the k-th register |
| CodeGenRun.PopNext | gen.c:115-117 | proof step: one pop of that loop puts its argument in its register and keeps the ones already loaded |
| CodeGenRun.ArgsLoad | gen.c:110-117 | evaluating the arguments and popping them leaves each argument's value in its register, in order |
| Emitter.Function.constructor | gen.c:200 | a function starts with its nodes and locals and no frame yet |
| Emitter.Function.AssignOffsets | gen.c:202-207 | the loop gives the i-th local offset `8 * (i + 1)` and sets the stack size to 8 bytes per local |
| Emitter.Generator.constructor | gen.c:7 | the output is empty and the label counter starts at 0 |
| Emitter.Generator.GenLval | gen.c:11-19 | appends the address code of a local and fails on anything else, leaving the counter |
| Emitter.Generator.Gen | gen.c:21-197 | appends exactly `CodeGen.Code` of the node and advances the label counter as it says, or fails exactly when it fails |
| Emitter.Generator.GenAssign | gen.c:35-44 | the same for an assignment |
| Emitter.Generator.GenIf | gen.c:50-72 | the same for `if`, with one label number taken before the parts |
| Emitter.Generator.GenWhile | gen.c:73-83 | the same for `while` |
| Emitter.Generator.GenFor | gen.c:84-102 | the same for `for` |
| Emitter.Generator.GenOpt | gen.c:86-98 | generates an optional part of `for`, or nothing |
| Emitter.Generator.GenBlock | gen.c:103-107 | the same for a block |
| Emitter.Generator.GenList | gen.c:104-106 | generates the statements or arguments in order, stopping at the first failure |
| Emitter.Generator.GenCall | gen.c:108-135 | the same for a call: arguments, register pops, then the aligned `call` with its own label number |
| Emitter.Generator.GenPops | gen.c:115-117 | the `for (i = nargs - 1; i >= 0; i--)` loop appends `pop` into the argument registers, last argument first |
| Emitter.Generator.GenBin | gen.c:145-196 | the same for a binary operator |
| Emitter.IfPieces | gen.c:50-72 | proof step: the output of `if` is the condition, the test, the branches and the labels, in that order |
| Emitter.IfElsePieces | gen.c:50-72 | proof step: the same with `else` |
| Emitter.ForPieces | gen.c:84-102 | proof step: the output of `for` is its parts and its frame, in that order |
| Emitter.CallOutPieces | gen.c:108-135 | proof step: the output of a call is its arguments, the pops and the call sequence |
| Emitter.GenCode | gen.c:200-229 | assigns the frame offsets and stack size, and returns the prologue, every node's code in order and the epilogue, exactly as `CodeGen.Program` says, or fails when it fails |

## Left out

- `main` (`9cc.c:348-369`, `main.c:4-17`): it reads the argument vector, calls the phases in
  turn and exits. The model has no I/O. The phases are its functions and methods.
- The text of the `error`/`error_at` messages, and the exit they perform: errors are
  `Result` values carrying the position.
- The assembly text: `printf` formatting, the `.intel_syntax`/`.global` directives and the
  `# …` comment lines `gen.c` writes are left out. Instructions are a datatype. Partial output
  written before an error is not modelled, because the C program exits at that point.
- Emitter.Generator.Gen: the label counter is an unbounded `nat`. The `unsigned int`
  wrap-around of `gen.c:7` is not modelled; it would need more than 4 billion constructs.
- CLib.Strtol: the value is unbounded. The clamping of `strtol` to `LONG_MAX` and the
  narrowing to `int` in `val` (`9cc.h:20`) are not modelled.
- Machine.TruncDivRounds: the machine works on unbounded integers. 64-bit wrap-around of
  `add`, `sub` and `imul` is not modelled. `idiv` faults on division by zero and on nothing
  else.
- Execution of jumps and calls: the machine runs straight-line code only. `if`, `while`,
  `for`, `return` and function calls are covered by their stack and label properties, not
  by executing them. The `rsp` alignment test of a call (`gen.c:121-134`) is covered the
  same way.
- The statement parser (`program`, `stmt`, `assign`, locals) that builds the `gen.c` nodes
  is not part of this model. The trees `gen.c` receives are taken as given. A local is an
  index into the function's locals, which the model checks with `CodeGen.Fits`.
- CodeGenStack.Balanced: the `init` and `inc` parts of a `for` are taken to be expression
  statements, as `CodeGenStack.IsStmt` requires. A `for` whose `init` or `inc` is a bare
  expression leaves one word on the stack for each time that part runs. The model does not
  describe that case.
- CodeGen.Fits: the model requires every call to have at most six arguments, the number of
  registers in `argregs`. `gen.c` does not check this and reads past the end of `argregs`
  for a seventh argument. That behaviour is not modelled.
- Machine.Step: a `Load` from a frame slot that was never written faults. The operand stack
  is kept apart from the frame memory. On x86-64 such a load reads whatever the slot holds,
  and pushes share memory with the frame.
- CodeGenRun.LocalComputes: the direction "the code runs only if the expression
  evaluates" holds because `Machine.Step` faults on unwritten slots. It is a property of the
  machine, not of the x86 code. The same holds for `CodeGenRun.LVarComputes` and
  `CodeGenRun.ListComputes`.
- PrintedText.TextRoundTrip: the text ends every symbol with a blank. 9cc.c's tokenizer as
  written rejects a blank right after a two-character operator (see Findings), so the text
  round trip is stated for `parse.c`'s tokenizer only. Negative numbers are written with a
  minus sign, which tokenizes as an operator, so the trees are required to hold no negative
  number.
- Lexer.Tokenize: the body of the C loop is split into `Lexer.ScanToken`, which handles one
  token. `Lexer9cc.Tokenize` is split the same way into `Lexer9cc.ScanOperand`.
- The `Token *next` and `Node *next` lists are sequences. `new_token`, `new_node` and
  `new_node_num` are the datatype constructors, so allocation and aliasing are not modelled.

## Findings

| source | as written | input that shows it | evidently intended | confidence | as-written member | corrected member |
|---|---|---|---|---|---|---|
| 9cc.c:165-176 | after a two-character operator the loop does not `continue`. It falls into the punctuator test on the next character, and `strchr` also matches the terminating NUL | `1<=` reads past the end of the input; `1== 2` is rejected at the blank | after a two-character operator, tokenizing restarts at the top of the loop, as `parse.c:86-93` does | not executed | Lexer9cc.TrailingOperatorReadsPastEnd | Lexer9cc.BlankAfterOperatorSkipped |
