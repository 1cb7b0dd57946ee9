# A model of the syntactic toy-language pipeline

The repository implements a tiny scripting language in three stages, and this project models all three in Dafny.

- **The tokenizer** (lexer.js) makes one pass over the source text. Digit runs, double-quoted strings, `[a-zA-Z_]` runs and the nine characters `+ - * / = ( ) { }` become tokens. Every other character is skipped. The list ends with one end-of-input token.
- **The parser** (Parser.js) is a cursor-based recursive descent over that token list. It knows three statement forms: assignment, `print(expr)` and `if (expr) {..} [else {..}]`. Expressions are a flat left fold of primaries and operators, with no precedence.
- **The interpreter** (Interpreter.js) walks a syntax tree. It holds an environment of variables, a table of functions, arrays with `push`/`pop`/`join`/`length`, while loops, calls that copy the environment and put it back, and `return` through a `ReturnValue` wrapper.

The model is functional. Tokens, trees and values are immutable datatypes, and every stage is a pure function:

- The tokenizer is `Lexer.Tokenize`.
- The parser is `Parser.Parse`. It returns `Ok(statements)` or `Err(message)`, and the message is spelt exactly as the source throws it.
- The interpreter is `Interpreter.Interpret`. The interpreter object becomes an explicit `State`:
  - `env`: the variables;
  - `heap`: the contents of every array. An array value is a reference into it, so two names can share one array;
  - `funcs`: the function table;
  - `out`: the lines `print` has logged, each the value with every array's contents at that moment.

An evaluation ends in one of four ways:

- `Done` with a result and the next state;
- `Fail` with the error the source throws;
- `Unsupported`, for a JavaScript coercion the model leaves out;
- `OutOfFuel`.

Fuel is spent only by function calls and by further iterations of a while loop. Those are the only places where evaluation can go on forever. `InterpreterFuel.InterpretFuel` proves that a finished outcome does not depend on how much fuel was given.

`Pipeline.RunSource` chains the three stages, as main.js does.

Modules, one file each:

| module | file |
|---|---|
| `Wrappers`, `Numerals` | helpers |
| `Lexer`, `LexerProperties`, `LexerExamples` | the tokenizer |
| `LexerAsWritten` | the identifier scanner as the source writes it |
| `Ast` | the syntax tree the interpreter dispatches on |
| `Parser`, `ParserForms`, `ParserProperties`, `ParserExamples` | the parser |
| `Values`, `ValuesProperties` | values, operators and array methods |
| `Interpreter`, `InterpreterProperties`, `InterpreterFuel`, `InterpreterExamples` | the interpreter |
| `Pipeline`, `PipelineExamples` | the three stages in a row |

Faithful quirks the model keeps:

- **Braces have no kind.** `getOperatorType` gives `{` and `}` the kinds `LBRACE`/`RBRACE`, which the kind table does not define. The table spells its own entries `LPRACE`/`RPRACE`. In the model those two tokens have kind `Unset`.
  - `parseExpression` also tests the undefined `TokenType.EQUALS`. `undefined === undefined`, so a brace token is accepted there as an operator.
  - `parseBlock` demands `LPRACE`, which the tokenizer never produces. So no block, and hence no `if`, can be parsed from source text: `Pipeline.LexedProgramsFlat` proves this.
- **`==` is two tokens.** The tokenizer has no two-character operators, so `==` becomes two assignment tokens. The interpreter's comparison operators cannot come out of the tokenizer and parser.
- **A top-level `return` does not stop the program.** The interpreter's own statement forms are reachable only through trees built directly, and `InterpreterExamples` runs such trees.

The language the code accepts is small:

- the eleven-entry kind table;
- seven keywords;
- identifiers of letters and `_` only;
- digit-only numbers, so `3.5` is two numbers;
- the three statement forms above, with a precedence-free fold.

## Model

| member | source | states |
|---|---|---|
| Lexer.TokenizeNumber | lexer.js:45-51 | the maximal digit run at the cursor becomes one number token holding the run's decimal value, and scanning resumes just after the run |
| Lexer.TokenizeString | lexer.js:53-61 | the token's text is exactly the characters between the opening quote and the next quote, with no escape processing; scanning resumes after the closing quote |
| Lexer.TokenizeIdentifier | lexer.js:63-72 | the maximal `[a-zA-Z_]` run becomes one token with that text, a keyword exactly when the run is one of the seven reserved words and an identifier otherwise; the run ends at a non-word character or at the end of the input |
| Lexer.SymbolKind | lexer.js:74-92 | `=` is the assignment kind, `+ - * /` the operator kind, and `{` `}` get no kind of the table, since the names the switch returns for them are not defined; no symbol gets the end, number, string or table brace kind |
| Lexer.DigitRunEnd | lexer.js:47-49 | the digit loop stops at the first non-digit or the end of the input, and every character it passed is a digit |
| Lexer.WordRunEnd | lexer.js:65-67 | the corrected word loop (see Findings) stops at the first non-word character or at the end of the input, and every character it passed is a word character |
| Lexer.QuoteAt | lexer.js:56-58 | the string loop stops at the first double quote after the opening one, and no character before it is a quote |
| Lexer.StringQuotes | lexer.js:53-61 | when the rest of the input holds an even number of quotes, an opening quote has a closing one, and the text after it again holds an even number |
| Lexer.NumberPass | lexer.js:28-29 | the pass at a digit pushes a well-shaped number token and consumes at least one character |
| Lexer.StringPass | lexer.js:30-31 | the pass at a quote pushes a well-shaped string token and consumes at least two characters |
| Lexer.WordPass | lexer.js:32-33 | the pass at a letter pushes a well-shaped keyword or identifier token and consumes at least one character |
| Lexer.SymbolPass | lexer.js:34-36 | the pass at a symbol character pushes one token and consumes that character |
| Lexer.NextToken | lexer.js:26-39 | one pass of the tokenize loop consumes at least one character, pushes a well-shaped token that is neither the end marker nor of a table brace kind, and pushes nothing exactly when the character starts no token |
| Lexer.TokenizeFrom | lexer.js:25-41 | the loop from any position ends, yields at most one token per remaining character, and ends with exactly one end token |
| Lexer.Tokenize | lexer.js:23-43 | the output ends with exactly one end-of-input token, no earlier token is one, and every token carries a number, a text, or (the end token) nothing |
| LexerProperties.SymbolToken | lexer.js:74-92 | each of the nine symbol characters becomes exactly one token holding that character, of the kind `getOperatorType` gives it |
| LexerProperties.SkippedRun | lexer.js:37-39 | a run of characters that start no token produces no token |
| LexerProperties.NextTokenAppend | lexer.js:37-39 | a skipped character added at the end of the input leaves every pass unchanged |
| LexerProperties.TokenizeAppendSkipped | lexer.js:23-43 | a skipped character added at the end of the input changes no token |
| LexerProperties.DigitRunAppend | lexer.js:47-49 | a non-digit appended to the input does not extend a digit run |
| LexerProperties.WordRunAppend | lexer.js:65-67 | a non-word character appended to the input does not extend a word run |
| LexerProperties.QuoteAtAppend | lexer.js:56-58 | appending a character does not move the closing quote of a string |
| LexerProperties.NumberAppend | lexer.js:45-51 | appending a non-digit leaves a number token unchanged |
| LexerProperties.StringAppend | lexer.js:53-61 | appending a character leaves a closed string token unchanged |
| LexerProperties.WordAppend | lexer.js:63-72 | appending a non-word character leaves an identifier token unchanged |
| LexerProperties.TokenizeSame | lexer.js:23-43 | tokenizing from a position depends only on the text from that position on |
| LexerProperties.NextTokenSame | lexer.js:26-39 | one pass depends only on the text from the cursor on |
| LexerProperties.DigitRunSame | lexer.js:47-49 | the length of a digit run depends only on the text from its start |
| LexerProperties.WordRunSame | lexer.js:65-67 | the length of a word run depends only on the text from its start |
| LexerProperties.QuoteAtSame | lexer.js:56-58 | the distance to the closing quote depends only on the text from the cursor |
| LexerProperties.NumberSame | lexer.js:45-51 | the number token and its length depend only on the text from the cursor |
| LexerProperties.StringSame | lexer.js:53-61 | the string token and its length depend only on the text from the cursor |
| LexerProperties.WordSame | lexer.js:63-72 | the keyword or identifier token and its length depend only on the text from the cursor |
| LexerProperties.StringTokenAt | lexer.js:53-61 | a string token's text ends at the first quote after the opening one |
| LexerProperties.TokenizeStep | lexer.js:25-40 | the token list is the pushed token of the first pass, if any, followed by the tokens from where that pass stopped |
| LexerProperties.KeywordIsWord | lexer.js:15 | every reserved word is a run of word characters |
| LexerProperties.NextAtSkipped | lexer.js:37-39 | the pass at a skipped character pushes nothing and moves one character |
| LexerProperties.NextAtDigit | lexer.js:28-29 | the pass at a digit is the number scanner |
| LexerProperties.NextAtQuote | lexer.js:30-31 | the pass at a quote is the string scanner |
| LexerProperties.NextAtWord | lexer.js:32-33 | the pass at a word character is the identifier scanner |
| LexerProperties.NextAtSymbol | lexer.js:34-36 | the pass at a symbol character pushes its one-character token |
| LexerProperties.NumberFirst | lexer.js:45-51 | the decimal spelling of a number followed by a space is read back as that number |
| LexerProperties.StringFirst | lexer.js:53-61 | a quoted text without quotes is read back as a string token of that text |
| LexerProperties.WordFirst | lexer.js:63-72 | a word followed by a space is read back as a keyword or identifier according to the list |
| LexerProperties.SymbolFirst | lexer.js:34-36 | a symbol character is read back as its token |
| LexerProperties.FirstLexeme | lexer.js:26-39 | the source text of any token the tokenizer can produce, followed by a space, is read back as that token |
| LexerProperties.WordKindFirst | lexer.js:63-72 | the text of a lexable keyword or identifier, followed by a space, is read back as that token |
| LexerProperties.FirstToken | lexer.js:26-39 | tokenizing one token's text, a space and more text gives the token, then the tokens of the rest |
| LexerProperties.RoundTripStep | lexer.js:23-43 | the round trip extends by one token in front |
| LexerProperties.UntokenizeRoundTrip | lexer.js:23-43 | writing any list of tokens the tokenizer can produce as text, each followed by a space, and tokenizing that text gives the list back followed by the end token |
| LexerExamples.UntokenizeSpaced | lexer.js:23-43 | text whose spaced-out form is a token list's rendering tokenizes to that list |
| LexerExamples.DemoTokenizes | lexer.js:95-98 | `name = "Ali" age = 24` is the identifier `name`, an assignment, the string `Ali`, the identifier `age`, an assignment, the number 24 and the end token |
| LexerExamples.DecimalPointSplits | lexer.js:28-51 | `3.5` is the number 3 then the number 5: the point starts no token |
| LexerExamples.DigitEndsIdentifier | lexer.js:63-72 | a digit ends an identifier: `ab1` is the identifier `ab`, then the number 1 |
| LexerExamples.DoubleEquals | lexer.js:74-77 | `==` is two assignment tokens |
| Numerals.NatToDecimal | Parser.js:92 | the decimal spelling a template literal gives a natural number: digits only, no leading zero |
| Numerals.DecimalRoundTrip | lexer.js:50 | reading a number's decimal spelling as `Number(digits)` does gives the number back |
| Numerals.LeadingZeroValue | lexer.js:50 | a leading zero does not change the value of a digit run |
| LexerAsWritten.ScanAsWritten | lexer.js:64-67 | the identifier loop as written, within a bound on its iterations: when it stops, it stops on a character of the input that is not a word character, every character it passed is a word character, and the word is exactly those characters; past the end of the input it never stops |
| LexerAsWritten.WordTestOfSlot | lexer.js:65 | the regular-expression test of the identifier loop passes on a character exactly when it is a word character, and passes past the end of the input |
| LexerAsWritten.IdentifierAtEndNeverEnds | lexer.js:65-67 | the identifier loop as written never stops once only word characters remain before the end of the input |
| LexerAsWritten.SingleLetter | lexer.js:63-72 | on the input `x` the loop as written never stops, while the corrected scanner gives the identifier `x` |
| LexerAsWritten.ScanAgrees | lexer.js:65-67 | where a non-word character ends the run, the loop as written stops there with the run as its word |
| LexerAsWritten.CorrectedAgrees | lexer.js:63-72 | the corrected scanner gives what the as-written loop gives wherever the latter stops |
| Parser.Message | Parser.js:37-141 | the exact text of each of the eight errors the parser throws, with the unexpected token's value printed into the first two |
| Parser.Display | Parser.js:92 | a token value as the error messages' template literal prints it: the text, the number's digits, or `undefined` |
| Parser.ParsePrimary | Parser.js:76-93 | a primary is exactly one number, string or identifier token, becoming a number, string or variable node of that literal; any other token, `(` included, fails with "Unexpected token" naming it |
| Parser.ParseTail | Parser.js:58-71 | the operator loop folds each operator and the following primary into the left operand, and stops at the first token that is not an operator |
| Parser.ParseExpression | Parser.js:55-74 | an expression consumes at least one token, is a left fold of primaries, and is followed by a token that is not an operator; a non-primary first token fails |
| Parser.ParseStatement | Parser.js:20-53 | every statement that parses consumes at least one token and is an assignment, a print or an if of the parser's shapes |
| Parser.ParseIf | Parser.js:94-124 | an if statement that parses consumes at least one token and builds an if node |
| Parser.ParseBlock | Parser.js:126-130 | a block must start with the table's opening brace kind, and fails with "Expected '{' to start a block" otherwise |
| Parser.ParseBlockItems | Parser.js:132-145 | a block's statements run up to a closing brace, which is consumed; reaching the end marker fails with "Expected '}' to close block" |
| Parser.ParseProgram | Parser.js:9-16 | the program's statements run up to the end marker, on which the cursor stops |
| Parser.Parse | Parser.js:8-18 | the result is the program's statements exactly when the statement loop succeeds, and then every statement has a shape the parser builds |
| ParserForms.AssignmentParses | Parser.js:24-31 | an identifier followed by an assignment token and an expression is an assignment of that expression to that name |
| ParserForms.PrintParses | Parser.js:34-46 | `print`, `(`, an expression and `)` is a print of that expression |
| ParserForms.IfParses | Parser.js:94-124 | an if with a block and no following `else` has a null else part |
| ParserForms.IfElseParses | Parser.js:110-116 | an `else` keyword after the first block makes the next block the else part |
| ParserForms.ItemsParse | Parser.js:133-138 | a block's statements are parsed one after the other, in order |
| ParserForms.ProgramParses | Parser.js:10-16 | a program's statements are parsed one after the other, in source order |
| ParserForms.IdentifierNeedsAssign | Parser.js:24-52 | an identifier not followed by an assignment token fails with "Unexpected syntax" naming the identifier |
| ParserForms.OtherStartRejected | Parser.js:33-52 | a token other than an identifier, `print` or `if` (for instance `while` or `function`) fails with "Unexpected syntax" naming it |
| ParserForms.PrintErrors | Parser.js:34-42 | a print without `(` or without `)` fails with the matching message, and a bad expression's error is the print's |
| ParserForms.IfErrors | Parser.js:95-104 | an if without `(` or without `)` after the condition fails with the matching message, and a bad condition's error is the if's |
| ParserForms.IfWithoutBlock | Parser.js:126-129 | a condition followed by anything but an opening brace fails with "Expected '{' to start a block" |
| ParserForms.IfBlockFails | Parser.js:107 | the error of a failing block is the if statement's error |
| ParserForms.IfFailsWithoutBrace | Parser.js:127-129 | on tokens with no opening brace kind, every if statement fails |
| ParserForms.StatementWithoutBrace | Parser.js:20-53 | on tokens with no opening brace kind, every statement that parses is an assignment or a print |
| ParserForms.ProgramWithoutBrace | Parser.js:8-18 | on tokens with no opening brace kind, every program that parses holds assignments and prints only |
| ParserForms.FoldLeft | Parser.js:55-74 | three primaries joined by two operators group to the left, whatever the operators |
| ParserProperties.PrimaryRoundTrip | Parser.js:76-93 | the token of a primary parses back to it |
| ParserProperties.TailRoundTrip | Parser.js:58-71 | the tokens of a fold parse back to it, leaving the parser in its operator loop just after them |
| ParserProperties.ExprRoundTrip | Parser.js:55-74 | the tokens of a fold followed by a non-operator parse back to the fold |
| ParserProperties.AssignmentRoundTrip | Parser.js:24-31 | the tokens of an assignment parse back to it |
| ParserProperties.PrintRoundTrip | Parser.js:34-46 | the tokens of a print parse back to it |
| ParserProperties.IfHeadRoundTrip | Parser.js:95-105 | the tokens `if ( condition )` parse back to the condition, with the cursor on the `)` |
| ParserProperties.StmtRoundTrip | Parser.js:20-53 | the tokens of any statement the parser can build, followed by a token that cannot extend it, parse back to the statement |
| ParserProperties.IfRoundTrip | Parser.js:94-124 | an if statement's head, block and else part, each where the previous ends, parse back to the if statement |
| ParserProperties.IfTailRoundTrip | Parser.js:107-123 | after the head and first block, the else part's tokens decide the else part |
| ParserProperties.ElseRoundTrip | Parser.js:110-116 | the tokens `else { ... }` parse back to the else block |
| ParserProperties.BlockRoundTrip | Parser.js:126-146 | the tokens of a braced block parse back to its statements |
| ParserProperties.ItemsRoundTrip | Parser.js:132-145 | statements' tokens followed by a closing brace parse back to the statements |
| ParserProperties.ItemsStep | Parser.js:133-138 | the first statement of a block, then the rest, parse back to the block's statements |
| ParserProperties.ProgramRoundTrip | Parser.js:9-17 | statements' tokens followed by the end marker parse back to the statements |
| ParserProperties.ProgramStep | Parser.js:10-16 | the first statement of a program, then the rest, parse back to the program |
| ParserProperties.ParseRender | Parser.js:8-18 | every program the parser can build is given back by parsing its tokens followed by the end marker |
| ParserExamples.NoPrecedence | Parser.js:55-74 | `x = 1 + 2 * 3` parses as `(1 + 2) * 3` |
| ParserExamples.BraceIsOperator | Parser.js:58-61 | a tokenizer brace between two primaries is folded as the operator `{` |
| ParserExamples.LexedIfRejected | Parser.js:127-129 | `if (x) {` as the tokenizer spells it fails with "Expected '{' to start a block" |
| ParserExamples.UnclosedBlock | Parser.js:140-142 | a block that runs into the end marker fails with "Expected '}' to close block" |
| ParserExamples.DoubleEquals | Parser.js:92 | `x = = 1` fails with "Unexpected token: =" |
| ParserExamples.NumberStatement | Parser.js:52 | a program starting with a number fails with "Unexpected syntax: 1" |
| Values.ApplyBinary | Interpreter.js:248-264 | division by a right operand strictly equal to zero throws "Division by zero" whatever the left operand; an operator outside `+ - * / ^` throws "Unknown binary operator"; no other error is thrown; two numbers under `+ - *`, or under `/` with a non-zero divisor, always give a number, and two strings under `+` a string |
| ValuesProperties.AddThenSubtract | Interpreter.js:249-252 | on numbers, `-` undoes `+`, and `+` commutes |
| ValuesProperties.MultiplyThenDivide | Interpreter.js:253-259 | on numbers, `/` by a non-zero factor undoes `*` |
| ValuesProperties.ConcatLaws | Interpreter.js:249-250 | `+` on two strings is concatenation: associative, with the empty string as identity on both sides |
| ValuesProperties.PowerSteps | Interpreter.js:260-261 | `^` with a natural exponent is repeated multiplication: exponent 0 gives 1, and exponent k+1 is the base times exponent k |
| Values.Truthy | Interpreter.js:80 | the condition test of `if` and `while`: false exactly for 0, the empty string, `false`, `null` and `undefined`, so every array is true |
| Values.Message | Interpreter.js:144-347 | the text of each thrown error, with the offending name, operator, method, property or index filled in as the template literals spell it |
| Values.Order | Interpreter.js:276-283 | the order comparisons are decided exactly for two numbers or two strings |
| Values.Compare | Interpreter.js:271-286 | `==` and `!=` are strict (in)equality of the two values; the result is a boolean; the error "Unknown comparison operator" is thrown exactly for an operator outside the six |
| Values.CheckIndex | Interpreter.js:298-302 | a number index below zero or not below the length is out of bounds; a whole number in range names an element |
| Values.Separator | Interpreter.js:176 | the join separator is "," when the argument is missing or falsy, and the argument when it is a non-empty string |
| Values.ElementText | Interpreter.js:176 | how `join` writes one element: a string as it is, `null` and `undefined` as nothing, booleans as `true`/`false`, a whole number as its decimal digits that read back as the number |
| Values.Join | Interpreter.js:176 | the join of no elements is empty, and the join of n elements holds at least n-1 separators' worth of text |
| Values.ArrayMethod | Interpreter.js:170-179 | push appends all arguments in order and answers the new length; pop removes and answers the last element, or answers undefined on an empty array; join leaves the array unchanged and answers the elements' texts joined by `Separator(args)` (the first argument, or "," when it is missing or falsy), or `Unmodelled` when the separator or an element has no text; any other name throws "Unknown array method" and changes nothing |
| ValuesProperties.StrLessIrreflexive | Interpreter.js:276-277 | no string is less than itself |
| ValuesProperties.StrLessTransitive | Interpreter.js:276-277 | string order is transitive |
| ValuesProperties.StrLessTotal | Interpreter.js:276-277 | of two different strings one is less |
| ValuesProperties.StrLessTrichotomy | Interpreter.js:276-279 | a string is less than another exactly when they differ and the other is not less |
| ValuesProperties.NonStrictOrder | Interpreter.js:280-283 | `<=` holds exactly when `<` or `==` does, and `>=` exactly when `>` or `==` does, for two numbers or two strings |
| ValuesProperties.GreaterIsSwappedLess | Interpreter.js:278-279 | `>` is `<` with the operands swapped |
| ValuesProperties.PushThenPop | Interpreter.js:171-174 | popping right after pushing one value answers that value and restores the array |
| ValuesProperties.PopThenPush | Interpreter.js:171-174 | pushing back what pop took restores the array |
| ValuesProperties.JoinDefined | Interpreter.js:175-176 | join has a text exactly when every element has one |
| ValuesProperties.JoinCons | Interpreter.js:175-176 | join read from the front: the first element's text, then the separator and the join of the rest |
| ValuesProperties.JoinMethod | Interpreter.js:175-176 | the `join` method with no separator or a falsy one joins with ",", and with a string separator joins with that string; it answers a text exactly when every element has one, `Unmodelled` exactly when some element has none, and leaves the array unchanged |
| ValuesProperties.JoinSingle | Interpreter.js:175-176 | joining one element gives its text, with no separator |
| Interpreter.Bind | Interpreter.js:355-357 | binding parameters adds exactly the parameter names and leaves every other name's value alone |
| Interpreter.Entered | Interpreter.js:353-357 | the state a body starts in differs from the caller's only in the environment |
| Interpreter.EvalExpr | Interpreter.js:214-242 | an expression never changes the environment, never removes an array, a function or output, and yields a value that refers to an existing array |
| Interpreter.EvalList | Interpreter.js:350 | arguments are evaluated left to right into one value each, without changing the environment |
| Interpreter.Allocate | Interpreter.js:229-230 | an array literal makes a new array, at a reference no other value uses, holding the elements' values |
| Interpreter.ReadElement | Interpreter.js:296-302 | an element read succeeds exactly for an in-range whole-number index, answering that element and changing nothing; an index below 0 or at or past the length throws "Array index out of bounds" with that index |
| Interpreter.ArrayCall | Interpreter.js:305-324 | a method call on a name that does not hold an array throws "is not an array" before any argument is evaluated |
| Interpreter.Mutate | Interpreter.js:314-323 | the method's new contents replace the array's, and nothing else in the state changes |
| Interpreter.Call | Interpreter.js:352-371 | after a call the environment is the caller's again, while array contents, functions and output from the body persist |
| Interpreter.ExecStmt | Interpreter.js:18-41 | a statement never removes an array, a function or output, and its result refers to an existing array |
| Interpreter.WriteElement | Interpreter.js:150-155 | an element write succeeds exactly for an in-range whole-number index, keeps the environment, sets exactly that element and answers the value written; an index below 0 or at or past the length throws "Array index out of bounds" with that index |
| Interpreter.RunBlock | Interpreter.js:83-89 | a block's statements run in order on the evolving state |
| Interpreter.Loop | Interpreter.js:117-130 | a loop's iterations run on the evolving state |
| Interpreter.RunProgram | Interpreter.js:9-13 | a program's statements run in order on the evolving state |
| Interpreter.Interpret | Interpreter.js:8-14 | a finished run ends in a state whose array values all refer to existing arrays |
| InterpreterProperties.RunProgramSnoc | Interpreter.js:10-12 | one more statement at the end of a program runs in the state the others left |
| InterpreterProperties.TopLevelReturnContinues | Interpreter.js:10-12 | a `ReturnValue` at the top level does not stop the program: the next statement runs |
| InterpreterProperties.RunBlockAppend | Interpreter.js:83-89 | a block stops at the first `ReturnValue` and passes it on; otherwise the second part runs after the first |
| InterpreterProperties.AssignmentEffect | Interpreter.js:52-56 | an assignment binds the name to the value, which is its result, and changes no other binding |
| InterpreterProperties.PrintEffect | Interpreter.js:61-65 | a print logs the value together with every array's contents at that moment, answers the value, and changes nothing else |
| InterpreterProperties.IfResults | Interpreter.js:77-103 | a false condition with no else gives null; an empty block that runs gives undefined |
| InterpreterProperties.WhileZeroIterations | Interpreter.js:117-130 | a loop whose condition is false at once gives null |
| InterpreterProperties.WhileIteration | Interpreter.js:120-126 | a `ReturnValue` from the body ends the loop with it; otherwise the condition is tested again |
| InterpreterProperties.NotAnArrayFirst | Interpreter.js:140-145 | element assignment and access on a name that does not hold an array throw before the index is evaluated |
| InterpreterProperties.ElementAccessEffect | Interpreter.js:286-302 | element access, once the index is evaluated, throws the bounds error for an index outside the array's current length, succeeds exactly for a whole index inside it, and then answers that element with the state the index left |
| InterpreterProperties.ElementAssignmentEffect | Interpreter.js:140-156 | element assignment throws for an out-of-bounds index; otherwise it sets exactly that element, keeps the length and every other array, and answers the value |
| InterpreterProperties.WriteThenRead | Interpreter.js:289-303 | reading an element just written answers the value written |
| InterpreterProperties.MethodStatementIsExpression | Interpreter.js:161-180 | an array method call as a statement has the result and effect of the same call as an expression |
| InterpreterProperties.ArrayCallEffect | Interpreter.js:305-324 | a method call replaces the array's contents by the method's and answers the method's answer, changing no other array |
| InterpreterProperties.LengthReads | Interpreter.js:326-339 | `length` answers the array's length and changes nothing |
| InterpreterProperties.DivisionByZeroFails | Interpreter.js:255-258 | dividing by a right operand strictly equal to zero throws, whatever the left operand |
| InterpreterProperties.VariableLookup | Interpreter.js:220-224 | a bound name reads its value; a name neither bound nor inherited throws "Undefined variable" |
| InterpreterProperties.UnknownFunctionFails | Interpreter.js:343-348 | a call of an undeclared name throws before any argument is evaluated |
| InterpreterProperties.CallEffect | Interpreter.js:343-372 | a call evaluates its arguments first, runs the body with the parameters bound over that environment, unwraps the result, and restores the environment while keeping the body's array, function and output effects |
| InterpreterProperties.BindParameter | Interpreter.js:355-357 | a parameter not repeated later is bound to its argument, or to undefined when the call passed fewer |
| InterpreterFuel.ExprFuel | Interpreter.js:214-242 | an expression that finishes finishes the same way with more fuel |
| InterpreterFuel.OperandsFuel | Interpreter.js:244-287 | the same for binary and comparison expressions |
| InterpreterFuel.CallExprFuel | Interpreter.js:343-372 | the same for a call expression |
| InterpreterFuel.ListFuel | Interpreter.js:350 | the same for an argument list |
| InterpreterFuel.ArrayCallFuel | Interpreter.js:305-324 | the same for an array method call |
| InterpreterFuel.CallFuel | Interpreter.js:352-371 | the same for a function body |
| InterpreterFuel.StmtFuel | Interpreter.js:18-41 | the same for a statement |
| InterpreterFuel.ElementWriteFuel | Interpreter.js:140-156 | the same for an element assignment |
| InterpreterFuel.BlockFuel | Interpreter.js:83-89 | the same for a block |
| InterpreterFuel.LoopFuel | Interpreter.js:117-130 | the same for a while loop |
| InterpreterFuel.ProgramFuel | Interpreter.js:10-12 | the same for the statements of a program |
| InterpreterFuel.InterpretFuel | Interpreter.js:8-14 | a program's finished outcome does not depend on how much fuel is left over |
| InterpreterExamples.CallScope | Interpreter.js:343-372 | `f(7)` with `f(n)` pushing `n` onto a global array: the parameter shadows the global `n` only inside the body; the push and a declaration in the body outlive the call |
| InterpreterExamples.GlobalReassignReverts | Interpreter.js:353-369 | a global reassigned inside a call has its old value again after the call |
| InterpreterExamples.ReturnAtTopLevel | Interpreter.js:8-14 | a top-level `return` is followed by the next statement's print |
| InterpreterExamples.ReturnInBody | Interpreter.js:359-366 | a `return` in a body ends the body, and the print after it never runs |
| InterpreterExamples.CounterLoop | Interpreter.js:117-130 | `while (i < 2) { i = i + 1 }` from 0 takes two iterations and gives the last assignment's value |
| InterpreterExamples.CounterRuns | Interpreter.js:8-14 | `i = 0; while (i < 2) { i = i + 1 }` ends with `i` bound to 2 |
| InterpreterExamples.PrintShowsContentsThen | Interpreter.js:61-65 | `xs = [1]; print(xs); xs.push(2)` logs a line showing `[1]` although the array holds `[1, 2]` afterwards |
| InterpreterExamples.StringOverZero | Interpreter.js:255-258 | `"a" / 0` throws "Division by zero" |
| InterpreterExamples.OutOfBoundsAccess | Interpreter.js:298-300 | with `arr = [1, 2]`, both `arr[5]` and `arr[5] = 9` throw the bounds error |
| Pipeline.LexedTokensParse | lexer.js:23-43 | the tokenizer's output has the shape the parser demands and holds no opening brace of the table's kind |
| Pipeline.RunSource | main.js:10-17 | a run from source text reaches the interpreter exactly when the tokens parse |
| Pipeline.LexedProgramsFlat | Parser.js:126-129 | every program parsed from source text holds assignments and prints only |
| Pipeline.FoldNeedsNoFuel | Interpreter.js:244-265 | an expression the parser builds never runs out of fuel |
| Pipeline.ParsedStmtNeedsNoFuel | Interpreter.js:52-103 | a statement the parser builds never runs out of fuel and never returns |
| Pipeline.ParsedBlockNeedsNoFuel | Interpreter.js:83-89 | the same for a block of such statements |
| Pipeline.ParsedProgramNeedsNoFuel | Interpreter.js:10-12 | the same for a program of such statements |
| Pipeline.SourceNeedsNoFuel | main.js:10-17 | a run from source text does not depend on fuel, never runs out of it, and never ends in a `ReturnValue` |
| PipelineExamples.DemoParses | Parser.js:24-31 | the demonstration tokens parse to two assignments |
| PipelineExamples.DemoInterprets | Interpreter.js:52-56 | the two assignments bind `name` and `age`, answer 24 and print nothing |
| PipelineExamples.RunOf | main.js:10-17 | a run from source text with known tokens and parse is the interpreter's outcome on that parse |
| PipelineExamples.DemoRuns | lexer.js:95-98 | the demonstration source runs to `name` bound to "Ali" and `age` bound to 24 |

## Left out

- main.js reads the program from a file and wires the three stages. `Pipeline.RunSource` takes the text as a parameter instead.
- lexer.js defines no `module.exports`, and Parser.js reads `Lexer` and `TokenType` from it. The model assumes both are exported as defined. Without that, the parser's first `TokenType.EOF` would throw.
- The demonstration `console.log` at the end of lexer.js and the commented-out demonstration in Parser.js. The lexer demonstration is modelled as `LexerExamples.DemoTokenizes` only.
- The display format of `console.log`. A print logs the value and a copy of every array's contents at that moment (`Interpreter.Printed`), from which the line it writes can be read; the text itself is not built.
- IEEE-754 behaviour: NaN, infinities, negative zero and rounding. Numbers are exact reals.
- The default branches for an unknown statement or expression type. The syntax tree datatypes are closed, so those branches cannot be reached.
- Host call-stack exhaustion and loops that never end. Both become `OutOfFuel`, and `InterpreterFuel.InterpretFuel` shows that fuel changes no finished outcome.
- The state after a thrown error. Nothing in the language catches errors, so a `Fail` outcome carries only the error.
- Lexer.Tokenize: requires an even number of double quotes. With an unclosed string the source never returns a token list: its string grows by "undefined" on every pass until the engine throws a RangeError for an invalid string length.
- Lexer.TokenizeNumber: the token holds the exact value of the digit run. JavaScript's `Number` rounds runs above 2^53 to the nearest double.
- Lexer.TokenizeIdentifier, Lexer.WordRunEnd, Lexer.WordPass, Lexer.NextToken, Lexer.TokenizeFrom, Lexer.Tokenize: built on the corrected word loop, which stops at the end of the input; the source's loop does not, so on input ending in a letter these results exist where the source never returns a token list. See Findings.
- Parser.Parse: requires a token list that ends in the end token and whose tokens have the tokenizer's shape. `Pipeline.LexedTokensParse` shows that tokenizer output always qualifies. The source's optional chaining matters only for lists without an end token.
- Values.ApplyBinary: any operands except two numbers, or two strings under `+`, give `Unmodelled`, because JavaScript coerces them: `true + true`, `null + null`, `"3" - "1"`, two arrays under `+`, and two strings under `- * / ^` are all left out.
- Values.ApplyBinary: `^` is computed only for natural-number exponents. Other exponents give `Unmodelled`.
- Values.Order: non-number, non-string pairs give `None`.
- Values.Order: strings compare by Unicode scalar value. JavaScript compares UTF-16 code units, which differs only for characters outside the Basic Multilingual Plane.
- Values.Separator: a truthy separator that is not a string gives `None`. JavaScript would convert it to text.
- Values.ArrayMethod: `join` gives `Unmodelled` when an element is an array, a fraction, or an integer of magnitude 10^21 or more, because number formatting is left out.
- Values.CheckIndex: a fractional index in range, or a non-number index, names an object property in JavaScript. Here it is `NotAnIndex`, so `Interpreter.ReadElement` and `Interpreter.WriteElement` give `Unsupported`.
- Values.Message: spells the out-of-bounds message only for whole-number indices below 10^21.
- Interpreter.EvalExpr: a variable or function name inherited from `Object.prototype`, such as `toString`, passes the source's lookups. Here such a name gives `Unsupported`.
- Interpreter.ExecStmt: assigning or declaring the name `__proto__` changes an object's prototype. Here it gives `Unsupported`, and so does a parameter of that name in `Interpreter.Call`.

## Findings

| source | as written | input that shows it | evidently intended | confidence | as-written member | corrected member |
|---|---|---|---|---|---|---|
| lexer.js:65-67 | past the end of the input the read gives `undefined`. The regular-expression test turns that into the text "undefined", whose letters match. So the identifier loop never stops at the end of the input: it appends "undefined" on every pass and never returns a token list, until the growing string makes the engine throw a RangeError | any source ending in a letter, such as `x` or `x = y` | the identifier ends at the end of the input | high; not executed | LexerAsWritten.IdentifierAtEndNeverEnds | Lexer.TokenizeIdentifier |
