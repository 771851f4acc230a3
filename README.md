# octoforth front end, symbol table and stack builtins in Dafny

This project models the core of the octoforth meta-compiler in Dafny:

- the **scanner**, which turns source text into tokens;
- the **parser**, which turns a token vector into statements;
- the **dictionary**, the scoped symbol table with module prefixes and aliases;
- the **builtins**, the stack-machine primitives.

Properties of the model are proved about each part.

The imperative parts are classes whose methods are proved against pure specification functions:
- `Scanning.Scanner`, with a cursor, a start and a line;
- `Parsing.Parser`, with a cursor over the tokens;
- `Dictionaries.Dictionary`, whose word and alias maps are updated in place;
- `Machine.Interpreter`, with the value stack;
- `Builtins.Compiler`, with the stack width.

The properties are lemmas about those functions.

Modules, file by file:

| file | module | models |
|---|---|---|
| objects.dfy | `Objects` | the tagged `Object` value, `i64` payloads, `PartialEq` |
| tokens.dfy, errors.dfy, ast.dfy | `Tokens`, `Errors`, `Ast` | tokens, the error taxonomy, `Result`, the syntax tree, `Compiled` |
| scanner_chars.dfy | `ScannerChars` | character classes, `unescape`, `str_to_num` |
| scanner_spec.dfy | `ScanSpec` | one `scan_token` step and a whole run as functions of the text |
| scanner.dfy | `Scanning` | the `Scanner` object and its loops |
| scanner_props.dfy, scanner_examples.dfy | `ScanProps`, `ScanExamples` | properties and the unit tests' inputs |
| parser_spec.dfy | `ParseSpec` | `expr`, `stmt`, the define statements, `block_stmt` and `parse` as functions of the token vector and cursor |
| parser.dfy | `Parsing` | the `Parser` object |
| parser_props.dfy, parser_examples.dfy | `ParseProps`, `ParseExamples` | properties and the unit tests' inputs |
| dictionary.dfy | `Dictionaries` | the dictionary value, lookup, and the mutating `Dictionary` class |
| dictionary_props.dfy | `DictProps` | properties and the unit tests' inputs |
| arith.dfy | `Arith` | wrapping `+ - *`, truncating `/ %`, two's-complement `& \| ^ !` on `i64` |
| machine.dfy | `Machine` | the interpreter stack: `push`, `pop`, `peek` |
| builtins.dfy | `Builtins` | `call` of the interpreted builtins, `compile`/`mode` of `i8`..`i64` |
| builtins_props.dfy | `BuiltinProps` | what the builtins promise about the stack |

Behaviour of the code that the model keeps as written:
- A tab is whitespace only inside a numeral. In `scan_token` it is an `InvalidToken`.
- `:` and `;` are not alphabetic. The scanner rejects them, so its tokens never have the kinds `Word`, `StartDefine`, `StartConstDefine` or `EndDefine` that the parser expects.
- A NUL character in the text is an `EndOfFile` token with the lexeme `(`.
- In `scan_str`, when a backslash comes before a newline, the line counter does not count that newline.
- `stmt` tests `StartDefine` twice (lib/src/parser.rs:51-67). The second test can never succeed, so `define_inline_stmt` is unreachable.

## Model

| member | source | states |
|---|---|---|
| Objects.ObjEqualsProperties | lib/src/builtins.rs:210-233 | object equality is symmetric; a callable equals nothing, not even itself; otherwise equality is structural |
| ScannerChars.CharClassRelations | lib/src/scanner.rs:323-351 | digits and alpha characters are disjoint; alphanumeric is their union; a hex digit is a digit or `a-f`/`A-F`; a binary digit is exactly `0` or `1` |
| ScannerChars.CharClassTable | lib/src/scanner.rs:417-457 | the class test's expectations for every letter and digit it loops over |
| ScannerChars.UnescapeChar | lib/src/scanner.rs:353-368 | a pair is an escape iff a backslash comes before one of `r t n \ " ' 0`; a non-escape keeps its first character |
| ScannerChars.Unescape | lib/src/scanner.rs:370-388 | the skip-flag loop computes `Unescaped` of its input |
| ScannerChars.UnescapedPlain | lib/src/scanner.rs:370-388 | a backslash-free prefix is copied unchanged |
| ScannerChars.UnescapedNoBackslash | lib/src/scanner.rs:370-388 | text without a backslash is its own unescaping |
| ScannerChars.UnescapedEscape | lib/src/scanner.rs:353-388 | an escape pair becomes its one character, and decoding goes on after it |
| ScannerChars.UnescapedKeepsBackslash | lib/src/scanner.rs:363-388 | a backslash before any other character, or at the end, is kept |
| ScannerChars.UnescapedShorter | lib/src/scanner.rs:370-388 | unescaping never makes a string longer |
| ScannerChars.UnescapedPieces | lib/src/scanner.rs:370-388 | unescaping text assembled from plain runs and escape pairs gives the text they stand for |
| ScannerChars.UnescapeQuotesExample | lib/src/scanner.rs:410-415 | escaped quotes of the doc test decode to quotes |
| ScannerChars.UnescapeTabNewlineExample | lib/src/scanner.rs:410-415 | tab and newline escapes of the doc test |
| ScannerChars.UnescapeReturnBackslashExample | lib/src/scanner.rs:410-415 | carriage-return and trailing backslash escapes of the doc test |
| ScannerChars.UnescapeUnknownExample | lib/src/scanner.rs:363-367 | a backslash before a non-escape letter is kept |
| ScannerChars.DigitsValueSome | lib/src/scanner.rs:397-402 | a run of digits has a value iff every character is a digit of the radix |
| ScannerChars.StrToNumDigits | lib/src/scanner.rs:397-402 | a parsed number is the value of its digits, negated after `-`, and lies in the `i64` range |
| ScannerChars.StrToNumUnsigned | lib/src/scanner.rs:397-402 | an unsigned run parses iff it is non-empty, all radix digits, and the value is at most the `i64` maximum |
| ScannerChars.StrToNumEmpty | lib/src/scanner.rs:195-207 | a bare `0x` or `0b` prefix never parses |
| ScanSpec.SkipWhile | lib/src/scanner.rs:112-114 | the skip loop stops at the first character outside the class, never before its start |
| ScanSpec.SkipWhileRun | lib/src/scanner.rs:195-227 | every character the skip loop passes is in the class |
| ScanSpec.CommentEnd | lib/src/scanner.rs:55-62 | a comment ends at the first newline or at the end of the text |
| ScanSpec.CommentEndRun | lib/src/scanner.rs:55-62 | no character inside a comment is a newline |
| ScanSpec.RunEnd | lib/src/scanner.rs:229-236 | a numeral ends at the first space, tab or newline or at the end of the text |
| ScanSpec.RunEndRun | lib/src/scanner.rs:229-236 | no character inside a numeral is a space, tab or newline |
| ScanSpec.StrScan | lib/src/scanner.rs:143-158 | the string loop stops at the closing quote or past the end, and the line count only grows |
| ScanSpec.StrLexed | lib/src/scanner.rs:143-182 | a string token or error starts at the opening quote and is on the line the loop reached |
| ScanSpec.NumberShape | lib/src/scanner.rs:184-227 | the digit loops of `0x`, `0b` and decimal numerals end inside the text, after the first digit |
| ScanSpec.DecShape | lib/src/scanner.rs:209-227 | a decimal numeral has no prefix and radix 10 |
| ScanSpec.NumberLexed | lib/src/scanner.rs:184-293 | numeral scanning moves past its first digit and stays on its line |
| ScanSpec.TokenStep | lib/src/scanner.rs:45-141 | each `scan_token` consumes at least one character; a token or error starts where the step started, on a line between the old line and the new one |
| ScanSpec.TraceStep | lib/src/scanner.rs:25-41 | a run is one `scan_token` step followed by the run from where it stopped |
| Scanning.Scanner.constructor | lib/src/scanner.rs:15-23 | a new scanner is at offset 0 on line 1 |
| Scanning.Scanner.Peek | lib/src/scanner.rs:295-297 | the character under the cursor, or NUL at the end |
| Scanning.Scanner.PeekNext | lib/src/scanner.rs:299-304 | the character after the cursor, or NUL past the end |
| Scanning.Scanner.Advance | lib/src/scanner.rs:314-317 | moves one character and returns the one passed |
| Scanning.Scanner.IsMatch | lib/src/scanner.rs:306-312 | consumes the next character iff it is the expected one |
| Scanning.Scanner.Scan | lib/src/scanner.rs:25-41 | returns every error of the run if any step failed, else every token in order |
| Scanning.Scanner.ScanToken | lib/src/scanner.rs:45-141 | result, cursor and line are those of `TokenStep` |
| Scanning.Scanner.ScanStr | lib/src/scanner.rs:143-182 | result, cursor and line are those of `StrLexed` |
| Scanning.Scanner.ScanNumber | lib/src/scanner.rs:184-193 | result, cursor and line are those of `NumberLexed` |
| Scanning.Scanner.SkipClass | lib/src/scanner.rs:112-114 | leaves the cursor where `SkipWhile` stops |
| Scanning.Scanner.ScanHex | lib/src/scanner.rs:195-200 | hex digits, then the rest of the numeral parsed in base 16 with prefix `0x` |
| Scanning.Scanner.ScanBin | lib/src/scanner.rs:202-207 | binary digits, then the rest of the numeral parsed in base 2 with prefix `0b` |
| Scanning.Scanner.ScanDec | lib/src/scanner.rs:209-227 | digits and an optional fraction, then the rest of the numeral as a number or a real |
| Scanning.Scanner.GetNum | lib/src/scanner.rs:229-293 | runs to the delimiter and gives `NumberResult` of the text after the prefix |
| ScanProps.TokensInMembers | lib/src/scanner.rs:25-41 | a token is kept iff some step produced it |
| ScanProps.ErrorsInMembers | lib/src/scanner.rs:25-41 | an error is kept iff some step raised it |
| ScanProps.ScanOutcome | lib/src/scanner.rs:25-41 | `scan` reports errors iff some step failed, and then all of them (scanning does not stop at the first); otherwise all tokens |
| ScanProps.TokensInOrder | lib/src/scanner.rs:25-41 | the tokens of a run start at increasing offsets past the run's start |
| ScanProps.ErrorsInOrder | lib/src/scanner.rs:25-41 | the errors of a run start at increasing offsets past the run's start |
| ScanProps.StepNothing | lib/src/scanner.rs:50-62 | a blank or a `#` step yields nothing |
| ScanProps.BlanksSkipped | lib/src/scanner.rs:50-54 | a run of spaces, returns and newlines yields nothing and adds one line per newline |
| ScanProps.CommentSkipped | lib/src/scanner.rs:55-62 | a comment yields nothing; its newline counts one line |
| ScanProps.BlankStep | lib/src/scanner.rs:50-54 | a blank leaves the rest of the run unchanged |
| ScanProps.CommentStep | lib/src/scanner.rs:55-62 | the run goes on where the comment ends |
| ScanProps.RunEndSkip | lib/src/scanner.rs:195-227 | the digit loops never go past the end of the numeral |
| ScanProps.NumberRun | lib/src/scanner.rs:229-293 | a numeral runs from its first digit to the next delimiter, and its lexeme is the whole run |
| ScanProps.ShapeRun | lib/src/scanner.rs:184-227 | whichever shape is chosen, the numeral ends at the same delimiter |
| ScanProps.RadixShapeRun | lib/src/scanner.rs:195-207 | the same for the `0x` and `0b` loops |
| ScanProps.DecShapeRun | lib/src/scanner.rs:209-227 | the same for the decimal loops |
| ScanProps.DecimalValue | lib/src/scanner.rs:209-293 | a decimal numeral without a fraction is a `Number` iff the whole run parses in base 10, with that value; otherwise a `NumberParseError` on the run |
| ScanProps.RadixValue | lib/src/scanner.rs:184-207 | a `0x`/`0b` numeral is a `Number` iff the text after the prefix parses in its radix; the lexeme keeps the prefix |
| ScanProps.RealValue | lib/src/scanner.rs:209-293 | a numeral with a fraction is a `Real` iff its run is real text |
| ScanProps.StrScanPlain | lib/src/scanner.rs:143-158 | a backslash-free string ends at the first quote and counts every newline in it |
| ScanProps.StrScanEscape | lib/src/scanner.rs:148-155 | a backslash takes the next character with it, so `\"` does not close the string |
| ScanProps.StrPlain | lib/src/scanner.rs:143-182 | a backslash-free string is a `Str` token whose literal is the text between the quotes and whose lexeme keeps them |
| ScanProps.StrUnterminated | lib/src/scanner.rs:159-170 | with no closing quote the result is `UnterminatedString` |
| ScanProps.InvalidIff | lib/src/scanner.rs:45-141 | a step fails with `InvalidToken` exactly on a character it does not recognise |
| ScanExamples.OneStepRun | lib/src/scanner.rs:25-41 | a text that one `scan_token` call consumes scans to that call's token, to nothing, or to its one error |
| ScanExamples.AtExample | lib/src/scanner.rs:689-701 | scanning `@` gives exactly one `InvalidToken` error |
| ScanExamples.QuoteExample | lib/src/scanner.rs:556-572 | scanning `'` gives one quote token at offset 0 |
| ScanExamples.RParenExample | lib/src/scanner.rs:574-590 | scanning `)` gives one right parenthesis |
| ScanExamples.LParenExample | lib/src/scanner.rs:592-608 | scanning `(` gives one left parenthesis |
| ScanExamples.Bin101Lexed | lib/src/scanner.rs:184-207 | the numeral step of `0b101` is the number 5 with lexeme `0b101`, ending at the end of the text |
| ScanExamples.Bin101 | lib/src/scanner.rs:520-536 | scanning `0b101` gives exactly the one number 5 with lexeme `0b101` |
| ScanExamples.Bin102Lexed | lib/src/scanner.rs:202-207 | the numeral step of `0b102` runs to the end and fails to parse `102` in base 2 |
| ScanExamples.Bin102 | lib/src/scanner.rs:675-687 | scanning `0b102` gives exactly one `NumberParseError` |
| ScanExamples.Dec1a23Lexed | lib/src/scanner.rs:209-227 | the numeral step of `1a23` runs to the end and fails to parse in base 10 |
| ScanExamples.Dec1a23 | lib/src/scanner.rs:647-659 | scanning `1a23` gives exactly one `NumberParseError` |
| ScanExamples.HexGoodLexed | lib/src/scanner.rs:195-200 | the numeral step of `0xa123e` is the number 0xa123e with lexeme `0xa123e` |
| ScanExamples.HexGood | lib/src/scanner.rs:502-518 | scanning `0xa123e` gives exactly the one number 0xa123e |
| ScanExamples.HexBadLexed | lib/src/scanner.rs:195-200 | the numeral step of `0xag123e` stops its hex loop at `g`, runs to the end and fails to parse `ag123e` |
| ScanExamples.HexBad | lib/src/scanner.rs:661-673 | scanning `0xag123e` gives exactly one `NumberParseError` |
| ScanExamples.RealLexed | lib/src/scanner.rs:209-227 | the numeral step of `3.1415` takes the fraction and is a real with lexeme `3.1415` |
| ScanExamples.RealExample | lib/src/scanner.rs:484-500 | scanning `3.1415` gives exactly one real token at offset 0 |
| ScanExamples.CommentEndExample | lib/src/scanner.rs:610-626 | the test comment ends at offset 9 |
| ScanExamples.CommentLine | lib/src/scanner.rs:610-626 | scanning `# comment\n(` gives one `(` on line 2 at offset 10 |
| ScanExamples.TwoNumbersFirst | lib/src/scanner.rs:459-482 | the first step of `123 456` is the number 123 at offset 0, stopping at the space |
| ScanExamples.TwoNumbersSecond | lib/src/scanner.rs:459-482 | the step at offset 4 of `123 456` is the number 456, ending at the end of the text |
| ScanExamples.TwoNumbers | lib/src/scanner.rs:459-482 | scanning `123 456` gives the numbers 123 at offset 0 and 456 at offset 4, in that order |
| ScanExamples.AtomExample | lib/src/scanner.rs:538-554 | scanning `atom` gives one atom whose payload and lexeme are `atom` |
| ScanExamples.NoNewlines | lib/src/scanner.rs:143-158 | text without a newline adds no lines |
| ScanExamples.PlainString | lib/src/scanner.rs:143-182 | any one-line string without quotes or backslashes inside scans to one string token whose literal is the inner text and whose lexeme keeps the quotes |
| ScanExamples.PlainUnterminated | lib/src/scanner.rs:159-170 | the same text without its closing quote scans to exactly one `UnterminatedString` at the opening quote |
| ScanExamples.StringExample | lib/src/scanner.rs:628-645 | scanning `"Hello World!"` gives one string token with literal `Hello World!` |
| ScanExamples.UnterminatedExample | lib/src/scanner.rs:703-715 | scanning `"Hello World!` gives exactly one `UnterminatedString` |
| ScanExamples.EscapedQuoteExample | lib/src/scanner.rs:143-182 | an escaped quote stays inside the string; the lexeme is unescaped too |
| ParseSpec.AdvancePos | lib/src/parser.rs:149-155 | the cursor moves by one unless at end of file, and stays in bounds |
| ParseSpec.MatchesOne | lib/src/parser.rs:134-147 | `is_match` on one kind is `check` on it |
| ParseSpec.MatchesThree | lib/src/parser.rs:134-147 | `is_match` on three kinds is `check` on any of them |
| ParseSpec.ExprAt | lib/src/parser.rs:112-124 | an expression takes one token; an error leaves the cursor where it was |
| ParseSpec.StmtAt | lib/src/parser.rs:51-67 | a statement never moves the cursor back, and a successful one consumes a token |
| ParseSpec.DefineAt | lib/src/parser.rs:79-110 | a definition keeps the cursor in bounds |
| ParseSpec.BlockAt | lib/src/parser.rs:69-77 | a block keeps the cursor in bounds |
| ParseSpec.Consume | lib/src/parser.rs:126-132 | succeeds iff the token has the kind; the error names the previous token |
| Parsing.Parser.constructor | lib/src/parser.rs:20-28 | a parser starts at the first token |
| Parsing.Parser.Peek | lib/src/parser.rs:165-169 | the token under the cursor |
| Parsing.Parser.Previous | lib/src/parser.rs:157-159 | the token before the cursor |
| Parsing.Parser.Advance | lib/src/parser.rs:149-155 | moves as `AdvancePos` says and returns the token passed |
| Parsing.Parser.IsMatch | lib/src/parser.rs:134-143 | advances exactly one token iff one of the kinds is under the cursor |
| Parsing.Parser.Consume | lib/src/parser.rs:126-132 | result and cursor as `ParseSpec.Consume` |
| Parsing.Parser.Sync | lib/src/parser.rs:171-173 | skips one token |
| Parsing.Parser.Expression | lib/src/parser.rs:112-124 | result and cursor as `ExprAt` |
| Parsing.Parser.Statement | lib/src/parser.rs:51-67 | result and cursor as `StmtAt` |
| Parsing.Parser.DefineStatement | lib/src/parser.rs:79-110 | result and cursor as `DefineAt` |
| Parsing.Parser.BlockStatement | lib/src/parser.rs:69-77 | result and cursor as `BlockAt` |
| Parsing.Parser.Parse | lib/src/parser.rs:30-49 | returns `ParseFrom` of the starting cursor |
| ParseProps.RoundsSplit | lib/src/parser.rs:30-49 | each round gives one statement or one error; there are errors iff some round failed; with none, the statements are the rounds' values |
| ParseProps.CollectRound | lib/src/parser.rs:30-49 | collecting one round and then the rest is collecting them together |
| ParseProps.ParseFromRounds | lib/src/parser.rs:30-49 | `parse` appends the statements and errors of every round, in order |
| ParseProps.ParseCollects | lib/src/parser.rs:30-49 | `parse` fails iff some round fails, with every error in order; otherwise it returns every statement |
| ParseProps.ExprKinds | lib/src/parser.rs:112-124 | a word gives a word expression, a string, number or real a literal, anything else `UnexpectedToken` on the unconsumed token |
| ParseProps.DefineKeyword | lib/src/parser.rs:51-67 | `StartDefine` starts a regular definition, `StartConstDefine` a constant one, anything else an expression statement |
| ParseProps.DefineName | lib/src/parser.rs:79-88 | the token after the keyword must be a word, otherwise `ExpectedName` on that token; a definition's body is a block |
| ParseProps.BlockEnds | lib/src/parser.rs:69-77 | a parsed block ends just past its delimiter |
| ParseProps.StmtUnterminated | lib/src/parser.rs:69-77 | an `UnterminatedBlock` is raised at end of file and names the last consumed token |
| ParseProps.DefineUnterminated | lib/src/parser.rs:69-88 | the same for definitions |
| ParseProps.BlockUnterminated | lib/src/parser.rs:69-77 | the same for blocks |
| ParseProps.StmtNoInline | lib/src/parser.rs:51-67 | no statement contains an inline definition |
| ParseProps.DefineNoInline | lib/src/parser.rs:79-110 | the same for definitions |
| ParseProps.BlockNoInline | lib/src/parser.rs:69-77 | the same for blocks |
| ParseProps.ParseNoInline | lib/src/parser.rs:30-67 | no statement `parse` returns contains an inline definition |
| ParseProps.RoundsNoInline | lib/src/parser.rs:30-67 | no round's statement contains an inline definition |
| ParseExamples.DefinitionExample | lib/src/parser.rs:182-221 | `: word 1 + ;` parses to one regular definition of `word` whose block is `1`, `+` |
| ParseExamples.MissingNameExample | lib/src/parser.rs:223-230 | `: 1 +;` fails with `ExpectedName` on `1` |
| ParseExamples.UnterminatedExample | lib/src/parser.rs:232-239 | `: word 1 +` fails with `UnterminatedBlock` on `+` |
| Dictionaries.Get | lib/src/dictionary.rs:75-77 | `get` succeeds iff `get_name_and_obj` does, with its value, else with its error |
| Dictionaries.Dictionary.New | lib/src/dictionary.rs:14-16 | an empty root scope |
| Dictionaries.Dictionary.With | lib/src/dictionary.rs:18-24 | an empty scope inside the given parent |
| Dictionaries.Dictionary.Extend | lib/src/dictionary.rs:26-28 | copies every word of the other dictionary in, replacing on collision; aliases are unchanged |
| Dictionaries.Dictionary.Define | lib/src/dictionary.rs:45-48 | binds the full name to the value; aliases are unchanged |
| Dictionaries.Dictionary.Alias | lib/src/dictionary.rs:50-53 | maps the raw name to its full name; words are unchanged |
| Dictionaries.Dictionary.GetAny | lib/src/dictionary.rs:65-73 | succeeds iff some prefix finds the word, with the value of the first that does; otherwise `UndefinedWord` |
| Dictionaries.Dictionary.ResolveFullName | lib/src/dictionary.rs:55-63 | the full name found under the first successful prefix, else the full name under the default |
| DictProps.FullNameShape | lib/src/dictionary.rs:30-43 | no prefix keeps the name; a prefix `p` gives `p::name` unless the name already starts with `p::` |
| DictProps.FullNameIdempotent | lib/src/dictionary.rs:30-43 | qualifying twice is qualifying once |
| DictProps.ModuleNames | lib/src/dictionary.rs:30-48 | `m::name` without a prefix and `name` with prefix `m` give the same key |
| DictProps.Scopes | lib/src/dictionary.rs:7-11 | the scope chain starts with the dictionary itself |
| DictProps.LookupScopes | lib/src/dictionary.rs:79-97 | a lookup succeeds iff some scope of the chain has its key, and then it returns the innermost such scope's key and value; a failure is `UndefinedWord` on the token |
| DictProps.ShiftScopes | lib/src/dictionary.rs:86-90 | a scope that misses changes neither whether a later scope finds the word nor which scope is first |
| DictProps.LocalShadows | lib/src/dictionary.rs:86-96 | when the scope has the key, no parent is consulted |
| DictProps.MissAsksParent | lib/src/dictionary.rs:86-90 | on a local miss the parent is asked with the same token and prefix; at the root the result is `UndefinedWord` |
| DictProps.AliasOnce | lib/src/dictionary.rs:80-84 | an alias redirects the key once, to its target, which is not aliased again |
| DictProps.ModuleAccess | lib/src/dictionary.rs:30-97 | `m::name` without a prefix and `name` with prefix `m` find the same word |
| DictProps.DefineOneKey | lib/src/dictionary.rs:45-48 | `define` changes only the one key it binds |
| DictProps.DefineThenGet | lib/src/dictionary.rs:45-97 | after `define`, `get` of the same name and prefix returns the value |
| DictProps.ExtendWords | lib/src/dictionary.rs:26-28 | after `extend`, the other dictionary's words win and the remaining words keep their values |
| DictProps.DefineValueExample | lib/src/dictionary.rs:104-111 | `name` defined as 100 is found |
| DictProps.ModuleExample | lib/src/dictionary.rs:113-130 | a word defined under `module` is found as `module::name` and as `name` with prefix `module` |
| DictProps.ParentExample | lib/src/dictionary.rs:132-142 | a parent's word is found from an empty child |
| DictProps.UndefinedExample | lib/src/dictionary.rs:144-150 | an empty dictionary has no words |
| Arith.Wrap | lib/src/builtins.rs:22 | the wrapped result is congruent to the exact one modulo 2^64 |
| Arith.WrapInRange | lib/src/builtins.rs:22 | a result in range is not changed |
| Arith.WrapUnique | lib/src/builtins.rs:22 | the wrapped result is the only `i64` congruent to the exact one |
| Arith.QuotRem | lib/src/builtins.rs:67-106 | quotient times divisor plus remainder is the dividend; the remainder is smaller than the divisor and has the dividend's sign; the quotient rounds toward zero |
| Arith.QuotTimes | lib/src/builtins.rs:77 | the quotient times the divisor is the multiple of the magnitudes, with the dividend's sign |
| Arith.QuotRange | lib/src/builtins.rs:77 | an `i64` quotient is again an `i64` except for `MIN / -1` |
| Arith.SignedUnsigned | lib/src/builtins.rs:111-177 | the 64-bit pattern of an `i64` and the `i64` of a pattern are inverse |
| Arith.BitNotValue | lib/src/builtins.rs:147-159 | complementing `w` bits subtracts from the all-ones pattern |
| Arith.AddByXor | lib/src/builtins.rs:111-177 | XOR plus twice AND is the sum |
| Arith.AddByOr | lib/src/builtins.rs:111-142 | OR plus AND is the sum |
| Arith.BitIdentities | lib/src/builtins.rs:111-177 | AND with all ones, OR with zero and XOR with itself, on patterns |
| Arith.NotValue | lib/src/builtins.rs:147-159 | `!n` is `-n - 1`, and `!!n == n` |
| Arith.BitwiseIdentities | lib/src/builtins.rs:111-177 | `x & -1 == x`, `x \| 0 == x`, `x ^ x == 0` |
| Arith.XorAndSum | lib/src/builtins.rs:111-177 | `(x ^ y) + 2 * (x & y)` wraps to `x + y` |
| Arith.OrAndSum | lib/src/builtins.rs:111-142 | `(x \| y) + (x & y)` wraps to `x + y` |
| Machine.PopStack | lib/src/builtins.rs:18-19 | popping an empty stack is `StackUnderflow` on the calling token and changes nothing; otherwise the popped value on top of the rest is the old stack |
| Machine.PeekStack | lib/src/builtins.rs:184 | `peek` returns what a pop would |
| Machine.PushPop | lib/src/builtins.rs:18-22 | a pop after a push gives back the value and the old stack |
| Machine.Interpreter.With | lib/src/interpreter.rs:34-41 | a new interpreter has an empty stack |
| Machine.Interpreter.Push | lib/src/builtins.rs:22 | appends to the stack |
| Machine.Interpreter.Pop | lib/src/builtins.rs:18-19 | result and new stack as `PopStack` |
| Machine.Interpreter.Peek | lib/src/builtins.rs:184 | result as `PeekStack`; the stack is not changed |
| Builtins.Arithmetic | lib/src/builtins.rs:16-177 | only `/` and `%` fail, exactly on a zero divisor, and then with `DivisionByZero` |
| Builtins.RemRange | lib/src/builtins.rs:99 | an `i64` remainder is again an `i64` |
| Builtins.Combine | lib/src/builtins.rs:16-233 | a binary builtin pushes a number; its errors are `TypeError` or `DivisionByZero` on the calling token |
| Builtins.Call | lib/src/builtins.rs:16-205 | result and new stack are those of `CallEffect` |
| Builtins.CallDup | lib/src/builtins.rs:182-194 | result and new stack as `DupEffect` |
| Builtins.CallDrop | lib/src/builtins.rs:199-205 | result and new stack as `DropEffect` |
| Builtins.CallNot | lib/src/builtins.rs:147-159 | result and new stack as `NotEffect` |
| Builtins.CallBinary | lib/src/builtins.rs:16-233 | result and new stack as `BinaryEffect` |
| Builtins.Mode | lib/src/builtins.rs:248-293 | every compiled builtin (`i8`, `i16`, `i32`, `i64`) has the mode `Inline` |
| Builtins.Compiler.constructor | lib/src/builtins.rs:243-244 | a compiler in the given width |
| Builtins.Compile | lib/src/builtins.rs:242-293 | `i8`..`i64` set the compiler's width to theirs and compile to nothing |
| BuiltinProps.NumericCall | lib/src/builtins.rs:16-177 | with `x` below `y` on top, each numeric builtin replaces them by `x op y`: wrapping `+ - *`, truncating `/ %`, bitwise `& \| ^`; the rest of the stack is untouched |
| BuiltinProps.NumericTypeError | lib/src/builtins.rs:18-23 | anything but two numbers is a `TypeError` on the calling token, with both operands already popped |
| BuiltinProps.DivideByZero | lib/src/builtins.rs:67-106 | `/` and `%` by zero push nothing and fail with `DivisionByZero` |
| BuiltinProps.NotCall | lib/src/builtins.rs:147-159 | `~` replaces a number by `-n - 1`; anything else is a `TypeError`, popped |
| BuiltinProps.DupCall | lib/src/builtins.rs:182-194 | `dup` pushes a copy of a number; on anything else it fails and leaves the stack as it was |
| BuiltinProps.DropCall | lib/src/builtins.rs:199-205 | `drop` removes the top, whatever its type |
| BuiltinProps.EqualityCall | lib/src/builtins.rs:210-233 | `=` and `!=` never fail on two operands; `=` pushes 1 exactly on equal non-callable objects, `!=` the opposite |
| BuiltinProps.BinaryCases | lib/src/builtins.rs:16-233 | a binary builtin acts on the top two as `Combine` says, or underflows with the stack emptied |
| BuiltinProps.UnaryCases | lib/src/builtins.rs:147-205 | `~` and `drop` act on the top, or underflow an empty stack |
| BuiltinProps.BinaryUnderflow | lib/src/builtins.rs:16-233 | a binary builtin underflows exactly on fewer than two elements, and then leaves the stack empty |
| BuiltinProps.DupUnderflow | lib/src/builtins.rs:182-194 | `dup` underflows exactly on an empty stack |
| BuiltinProps.DropUnderflow | lib/src/builtins.rs:199-205 | `drop` underflows exactly on an empty stack |
| BuiltinProps.NotUnderflow | lib/src/builtins.rs:147-159 | `~` underflows exactly on an empty stack |
| BuiltinProps.UnderflowIff | lib/src/builtins.rs:18-205 | a call underflows exactly when the stack has fewer elements than the builtin needs, and then the stack is left empty |
| BuiltinProps.CallSuccess | lib/src/builtins.rs:16-233 | a successful call replaces its operands by its results and keeps everything below |
| BuiltinProps.BinaryFailure | lib/src/builtins.rs:16-233 | a failing binary builtin names the token, raises `StackUnderflow`, `TypeError` or `DivisionByZero`, and has removed the operands it popped |
| BuiltinProps.DupFailure | lib/src/builtins.rs:182-194 | a failing `dup` names the token and leaves the stack as it was |
| BuiltinProps.DropFailure | lib/src/builtins.rs:199-205 | a failing `drop` is a `StackUnderflow` on the token, leaving the stack empty |
| BuiltinProps.NotFailure | lib/src/builtins.rs:147-159 | a failing `~` names the token, raises `StackUnderflow` or `TypeError`, and has removed its operand if there was one |
| BuiltinProps.CallFailure | lib/src/builtins.rs:16-233 | a failing call names the calling token; the error is `StackUnderflow`, `TypeError` or `DivisionByZero`; only the operands popped so far are gone |
| BuiltinProps.UnderflowExample | lib/src/builtins.rs:16-27 | `1 +` underflows on `+` |
| BuiltinProps.DivisionByZeroExample | lib/src/builtins.rs:67-84 | `1 0 /` fails with `DivisionByZero` on `/` |
| BuiltinProps.TypeErrorExample | lib/src/builtins.rs:16-27 | `"Hi" 1 +` is a `TypeError` on `+` |
| BuiltinProps.AddExample | lib/src/builtins.rs:16-27 | `2 2 +` leaves 4 |
| BuiltinProps.DivExample | lib/src/builtins.rs:67-84 | `7 -2 /` leaves -3 |
| BuiltinProps.ModExample | lib/src/builtins.rs:89-106 | `-7 2 %` leaves -1 |

## Left out

- File reading, working-directory changes, the command-line client and the REPL are operating-system I/O. lib/src/filesystem.rs, client/src/main.rs and repl/src/main.rs are not part of this model.
- `Compiler::compile` is a `panic!()` stub, and the optimizer does nothing. lib/src/compiler.rs and lib/src/optimizer.rs are not part of this model.
- The interpreter's statement visitors are `panic!()` stubs, and `visit_word` calls a `get` that takes other arguments than dictionary.rs defines. Only the stack that the builtins use is modelled. Its statements, dictionary, halt flag and `interprete` are left out.
- lib/src/expr.rs, stmt.rs, token.rs, object.rs and callable.rs are from another revision than the core files. The token, object, syntax-tree and `Compiled` types are defined from how the core files use them.
- `i8`..`i64` assign `compiler.stack_mode`, which the `Compiler` of compiler.rs lacks. `Builtins.Compiler` holds only that field.
- The `call` of the compiled builtins has no body in this revision. Nor do the `compile` and `mode` of the interpreted builtins. They are not modelled.
- `Parser::new` scans the source before parsing (lib/src/parser.rs:20-28). `Parsing.Parser.constructor` takes the token vector instead, and scanning followed by parsing is not modelled as one step.
- Machine.PopStack: `Interpreter` in lib/src/interpreter.rs defines no `push`, `pop` or `peek` in this revision, though the builtins call them. The model gives them the meaning of `Vec` push and pop, with a `StackUnderflow` error on the calling token when the stack is empty.
- `Parsing.Parser.constructor`: requires the token vector to end with an `EndOfFile` token. The scanner never adds one, and the parser's `peek` is out of bounds without it.
- `define_stmt`, `define_inline_stmt` and `define_const_stmt` differ only in the mode they record. They are one method, `Parsing.Parser.DefineStatement(mode)`, and one function, `ParseSpec.DefineAt`.
- ScanSpec.IsRealText: stands in for `f64::from_str` (lib/src/scanner.rs:390-395) on the texts the scanner can hand it. It accepts digits, a dot, digits and an optional exponent. A `Real` keeps its text, because floating point is left out.
- BuiltinProps.EqualityCall: two reals are compared by their text, not as `f64`. Equal values written differently therefore differ: `1.0 1.00 =` pushes 1 in the source but 0 in the model.
- The debug `println!` in `get_num` (lib/src/scanner.rs:235) is output and is left out.
- Scanning.Scanner.ScanToken: the scanner reads characters by character index but slices the source by byte offset (lib/src/scanner.rs:115, lib/src/scanner.rs:239). The model indexes characters throughout, which agrees with the source only on ASCII text.
- Arith.Wrap: `+`, `-` and `*` wrap around as in a release build. A debug build panics on overflow instead.
- Builtins.Call: requires that a `/` or `%` is not applied to `i64::MIN` and `-1`, which panics in Rust.
- ScannerChars.UnescapeQuotesExample: the long doc-test string of `unescape` (lib/src/scanner.rs:410-415) is covered by four shorter instances of its escapes and by `ScannerChars.UnescapedPieces`, not as one literal.
- ScannerChars.StrToNum: `isize::from_str_radix` (lib/src/scanner.rs:397-402) is modelled with the bounds of a 64-bit `isize`, which holds on a 64-bit target only.
- ParseExamples.DefinitionExample: the example takes its tokens as parameters. Only their kinds are fixed, because the scanner cannot produce the `:` and `;` tokens.
