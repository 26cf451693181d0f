# A verified model of the mmasj2023/Compiler front end

This project models the front end of a small compiler for SysY, a C subset with `const`/`int`
declarations, arrays, functions, `if`/`for`/`break`/`continue`/`return`/`printf` statements and
the usual arithmetic, relational and logical operators. The front end has three parts:

- **The keyword table and tokens.** `Keyword` maps the 12 reserved words and the 23 operators
  and separators to their token kinds. A `Token` is a kind, its text and its line, and
  `toString` renders it as `KIND text`.
- **The lexers.** `Lexer.tokenize` reads the source line by line. It skips whitespace, `//`
  comments and `/* */` comments (which may span lines). It turns the rest into identifiers and
  reserved words, decimal numbers, string literals, and one- or two-character operators.
  `Compiler.main` holds a second copy of the same scanning loop. That copy writes `KIND text`
  lines through its own `tokenMap`, and it reports a lone `&` or `|` as error `a`.
- **The parser.** `Parser` is a recursive-descent parser with one method per grammar
  production. Each method builds a `SyntaxNode` tree and writes one line per consumed token,
  then `<Production>` when the production is reduced. `<BlockItem>`, `<Decl>` and `<BType>`
  lines are never written. A missing `;`, `)` or `]` is repaired: the parser reports error `i`,
  `j` or `k` at the line of the last consumed token and goes on. The `ErrorHandler` collects the
  `line code` messages and sorts them, stably, by line number.

The Dafny modules follow the Java files:

| module | file | models |
|---|---|---|
| `Wrappers`, `Chars` | wrappers.dfy | `Option`; the prefix before the first space (`String.split(" ")[0]`); ASCII character classes |
| `Keywords` | keyword.dfy | `TokenType` and the keyword table of `Keyword.java` |
| `Tokens` | token.dfy | `Token.java` |
| `Diagnostics` | error_handler.dfy | `ErrorHandler.java`, with `Integer.parseInt` and `Integer.toString` as functions |
| `Scanning` | scanner.dfy | the scanning rules both lexers share, as functions on the input lines |
| `Lexing` | lexer.dfy | `Lexer.java` as a class, with the `BufferedReader` as a `LineReader` class |
| `Standalone` | compiler.dfy | the scanning loop and helpers of `Compiler.java` as a class |
| `SyntaxTree` | syntax_node.dfy | `SyntaxNode.java` as a class, using a ghost `Tree` for its shape |
| `Trace` | trace.dfy | what the parser writes, as a function of the tree it builds |
| `Parsing` | parser.dfy | `Parser.java` as a class |

**Shared specification functions.** The scanning rules are defined once, as functions in
`Scanning`:
- `IdentifierAt`, `NumberAt`, `StringAt` and `OperatorAt` scan one token;
- `AfterComment` skips a block comment;
- `Advance` makes one pass of the inner loop;
- `ScanLines` scans the whole input.

Both lexer classes are proved against these functions. The imperative methods keep the Java
loops and fields; each one's `ensures` ties its result or new state to the specification
function.

**The parser's output.** Each `ParseXxx` method returns `Outcome<SyntaxNode>`. On success it
proves three things:
- the node's ghost shape is a tree of the expected production (`Named`);
- the tokens consumed are exactly the tree's leaves (`Frontier`);
- the lines written are exactly `Emission(shape)`, the tree's post-order rendering with the
  binary productions' interleaved reductions.

Two families also state the layout of their children. The binary productions' children
alternate operands and operator tokens (`Alternating`). A statement's children match the form
its branch builds (`Matches` against `StmtForm`), a list of parts that may be required,
optional or repeated.

The `Trace` lemmas then relate `Emission` to what the parser promises its output file holds.

**Failures.** A parser method can fail in two ways:
- `Failure(IndexOutOfBounds)`: the Java code reads `tokens.get(tokenIndex)` without a bounds
  check and throws;
- `Failure(NoProgress)`: the block loop would repeat forever from the same state.

## Model

| member | source | states |
|---|---|---|
| `Keywords.KindNameShape` | src/lexer/Keyword.java:11-47 | every token kind's name is a non-empty upper-case word without spaces |
| `Keywords.KindNameRoundTrip` | src/lexer/Keyword.java:11-47 | the kind named by a kind's name is that kind |
| `Keywords.KindNameInjective` | src/lexer/Keyword.java:11-47 | two kinds with the same name are the same kind |
| `Keywords.GetTokenType` | src/lexer/Keyword.java:9-52 | `keywordMap.get`: the 35 keys with their kinds and `None` for every other string; its properties are the `KeySet`, `LexemeInvertsTable`, `TableInvertsLexeme` and `TableInjective` rows |
| `Keywords.IsKeyword` | src/lexer/Keyword.java:54-56 | `containsKey`: the lookup finds a kind; `KeySet` states which strings those are |
| `Keywords.KeySet` | src/lexer/Keyword.java:54-56 | `isKeyword(s)` holds exactly for the reserved words and the punctuation |
| `Keywords.LexemeInvertsTable` | src/lexer/Keyword.java:50-52 | a key's kind maps back to that key's text |
| `Keywords.TableInvertsLexeme` | src/lexer/Keyword.java:50-52 | `getTokenType` of a kind's text is that kind |
| `Keywords.TableInjective` | src/lexer/Keyword.java:9-48 | different keys have different token kinds |
| `Keywords.ReservedWordCount` | src/lexer/Keyword.java:11-22 | there are 12 reserved words |
| `Keywords.SingleCharacterPunctuationCount` | src/lexer/Keyword.java:25-47 | there are 17 one-character operators and separators |
| `Keywords.OperatorAndSeparatorCounts` | src/lexer/Keyword.java:25-47 | there are 9 one-character operators and 8 separators |
| `Keywords.OperatorsAreNotSeparators` | src/lexer/Keyword.java:25-47 | the operator and separator sets are disjoint |
| `Keywords.PunctuationLengths` | src/lexer/Keyword.java:25-47 | single punctuation has length 1, the six two-character operators length 2 |
| `Keywords.PunctuationCount` | src/lexer/Keyword.java:25-47 | there are 23 punctuation keys |
| `Keywords.ReservedWordsAreNotPunctuation` | src/lexer/Keyword.java:9-48 | no reserved word is punctuation |
| `Keywords.TableSize` | src/lexer/Keyword.java:9-48 | the table has 35 keys |
| `Keywords.ReservedWordKinds` | src/lexer/Keyword.java:11-22 | each reserved word maps to its own `...TK` kind |
| `Keywords.TwoCharacterKeys` | src/lexer/Keyword.java:9-48 | a two-character string is a key iff it is one of `&& \|\| <= >= == !=` or `if` |
| `Keywords.KeyLengths` | src/lexer/Keyword.java:9-48 | every key is a reserved word or has length 1 or 2 |
| `Keywords.LoneAmpersandAndBarAreNotKeys` | src/lexer/Keyword.java:9-48 | `&` and `\|` alone are not keys and have no kind |
| `Tokens.ToStringLayout` | src/lexer/Token.java:19-22 | `toString` is the kind name, one space, then the text |
| `Tokens.Token.ToString` | src/lexer/Token.java:19-22 | `KIND lexeme`; its layout, prefix and injectivity are the next three rows |
| `Tokens.ToStringKindPrefix` | src/lexer/Token.java:19-22 | the part of `toString` before the first space is the kind name |
| `Tokens.ToStringInjective` | src/lexer/Token.java:8-22 | two tokens render alike iff their kinds and texts are equal |
| `Tokens.ToStringIsNotAMarker` | src/lexer/Token.java:19-22 | a rendered token never starts with `<`, so it cannot be a reduction line |
| `Wrappers.BeforeSpace` | src/error/ErrorHandler.java:47-55 | `split(" ")[0]`: a space-free prefix, ending at the first space when there is one |
| `Wrappers.BeforeSpaceOfJoin` | src/error/ErrorHandler.java:13-15 | the prefix of `a + " " + b` for a space-free `a` is `a` |
| `Diagnostics.NatToStringDigits` | src/error/ErrorHandler.java:13-15 | the decimal text of `n` is a non-empty digit string whose value is `n` |
| `Diagnostics.IntToString` | src/error/ErrorHandler.java:14 | the decimal text of a line number is non-empty and starts with `-` exactly for a negative number |
| `Diagnostics.IntToStringHasNoSpace` | src/error/ErrorHandler.java:13-15 | a decimal line number contains no space |
| `Diagnostics.ParseInt` | src/error/ErrorHandler.java:47-55 | `Integer.parseInt` succeeds only with a 32-bit value |
| `Diagnostics.ParseIntOfIntToString` | src/error/ErrorHandler.java:47-55 | parsing the decimal text of a 32-bit integer gives it back |
| `Diagnostics.ExtractLineNumber` | src/error/ErrorHandler.java:47-55 | the extracted line is always a 32-bit value, whatever the message |
| `Diagnostics.ExtractLineNumberOfEntry` | src/error/ErrorHandler.java:13-15 | the line extracted from a reported message is the line it was reported with |
| `Diagnostics.Entry` | src/error/ErrorHandler.java:13-15 | the text before the first space of a reported message is the decimal line number |
| `Diagnostics.Compare` | src/error/ErrorHandler.java:36-41 | the comparator returns -1, 0 or 1 |
| `Diagnostics.CompareIsAPreorder` | src/error/ErrorHandler.java:34-56 | the comparator is reflexive, antisymmetric and transitive, and orders by extracted line |
| `Diagnostics.CompareEntries` | src/error/ErrorHandler.java:34-56 | two reported messages compare as their line numbers do |
| `Diagnostics.SortByLineSorts` | src/error/ErrorHandler.java:30-32 | the stable sort's result is ordered by line |
| `Diagnostics.SortByLine` | src/error/ErrorHandler.java:30-32 | the stable sort keeps the number of messages |
| `Diagnostics.SortByLinePermutes` | src/error/ErrorHandler.java:30-32 | the sort's result is a permutation of its input |
| `Diagnostics.SortByLineIsStable` | src/error/ErrorHandler.java:30-32 | messages on one line keep their relative order |
| `Diagnostics.SortedUnique` | src/error/ErrorHandler.java:30-32 | two line-sorted lists with the same messages per line, in the same order, are equal |
| `Diagnostics.SortByLineIsTheStableSort` | src/error/ErrorHandler.java:30-32 | any sorted, per-line order-preserving rearrangement equals the modelled sort |
| `Diagnostics.ErrorHandler.constructor` | src/error/ErrorHandler.java:11 | a new handler holds no messages |
| `Diagnostics.ErrorHandler.HasErrors` | src/error/ErrorHandler.java:26-28 | `hasErrors`: some message has been reported; `ReportError` makes it hold and `SortErrorsByLineNumber` keeps it |
| `Diagnostics.ErrorHandler.ReportError` | src/error/ErrorHandler.java:13-15 | appends `line code` and then `hasErrors` holds |
| `Diagnostics.ErrorHandler.SortErrorsByLineNumber` | src/error/ErrorHandler.java:30-32 | the messages become their stable sort by line: sorted, a permutation, per-line order kept, `hasErrors` unchanged |
| `Scanning.IdentEnd` | src/lexer/Lexer.java:75-95 | the end of the identifier run lies within the line |
| `Scanning.DigitsEnd` | src/lexer/Lexer.java:97-113 | the end of the digit run lies within the line |
| `Scanning.StringEnd` | src/lexer/Lexer.java:115-131 | the end of the string body lies within the line |
| `Scanning.IdentEndIsMaximal` | src/lexer/Lexer.java:75-95 | every character before the end is a letter, digit or `_`, and the next one is not |
| `Scanning.DigitsEndIsMaximal` | src/lexer/Lexer.java:97-113 | every character before the end is a digit, and the next one is not |
| `Scanning.StringEndIsFirstQuote` | src/lexer/Lexer.java:115-131 | the body stops at the first `"` or at the end of the line |
| `Scanning.IdentifierAt` | src/lexer/Lexer.java:75-95 | a non-empty word token at the current line, its kind from the keyword table or `IDENFR` |
| `Scanning.NumberAt` | src/lexer/Lexer.java:97-113 | a non-empty `INTCON` token spanning the digits |
| `Scanning.StringAt` | src/lexer/Lexer.java:115-131 | an `STRCON` token from the opening quote through the closing one, when present |
| `Scanning.IdentifierIsMaximal` | src/lexer/Lexer.java:75-95 | an identifier token is the longest word at that position |
| `Scanning.NumberIsMaximal` | src/lexer/Lexer.java:97-113 | a number token is the longest digit run at that position |
| `Scanning.StringEndsAtQuote` | src/lexer/Lexer.java:115-131 | a string token's text ends with the first closing quote, or runs to the end of the line |
| `Scanning.OperatorAt` | src/lexer/Lexer.java:133-159 | a two-character key wins over a one-character one; the text is a key of the right kind, or a stray character iff no key matches |
| `Scanning.AfterComment` | src/lexer/Lexer.java:161-182 | the comment ends just past the first `*/`, or at the end of the input; the line count grows by the lines read |
| `Scanning.AfterCommentIsFirst` | src/lexer/Lexer.java:161-182 | no `*/` lies between the start of the comment and the closer it ends after, on its own line, the lines read in between or the last line: the comment ends at the first `*/` |
| `Scanning.Advance` | src/lexer/Lexer.java:28-67 | one pass: `//` ends the line; any other pass moves forward and yields at most one item |
| `Scanning.ScanLinesReads` | src/lexer/Lexer.java:24-27 | scanning from a line starts at its first character |
| `Scanning.ScanLines` | src/lexer/Lexer.java:24-27 | the outer loop over the remaining lines; the `ScanLines*` and `ScanFrom*` rows state its steps, `ScanIsSound` its result |
| `Scanning.ScanLinesStops` | src/lexer/Lexer.java:24 | nothing is scanned past the last line |
| `Scanning.ScanFromEndOfLine` | src/lexer/Lexer.java:28-69 | at the end of a line, scanning continues with the next line and line number |
| `Scanning.ScanFromLineComment` | src/lexer/Lexer.java:50-53 | a `//` skips the rest of the line |
| `Scanning.ScanFromPass` | src/lexer/Lexer.java:28-67 | the scan is one pass's items followed by the scan from where the pass ends |
| `Scanning.ScanFromSkip` | src/lexer/Lexer.java:32-35 | a pass that yields nothing contributes nothing |
| `Scanning.ScanFromTake` | src/lexer/Lexer.java:37-67 | a pass that yields one item puts it first |
| `Scanning.AfterCommentReadsOn` | src/lexer/Lexer.java:166-171 | a comment open at the end of a line continues on the next line |
| `Scanning.AfterCommentStops` | src/lexer/Lexer.java:166-167 | a comment open at the end of the input stops there |
| `Scanning.AfterCommentCloses` | src/lexer/Lexer.java:173-177 | a `*/` closes the comment just past it |
| `Scanning.AfterCommentMoves` | src/lexer/Lexer.java:178-180 | any other character is skipped |
| `Scanning.ScanIsSound` | src/lexer/Lexer.java:20-73 | the scan is in line order; every item is well formed, lies on a line of the input, and its text is a slice of that line |
| `Scanning.UnterminatedCommentIsQuiet` | src/lexer/Lexer.java:161-182 | a comment with no `*/` ahead swallows the rest of the input |
| `Scanning.IdentifierIsWellFormed` | src/lexer/Lexer.java:75-95 | an identifier token is a keyword with its kind or an `IDENFR` word |
| `Scanning.NumberIsWellFormed` | src/lexer/Lexer.java:97-113 | a number token is a non-empty run of digits |
| `Scanning.StringIsWellFormed` | src/lexer/Lexer.java:115-131 | a string token starts with a quote |
| `Scanning.OperatorIsWellFormed` | src/lexer/Lexer.java:133-159 | an operator item is a key of its kind, or a single stray character |
| `Lexing.LineReader.constructor` | src/lexer/Lexer.java:20-24 | a reader over the given lines, at the first one |
| `Lexing.LineReader.ReadLine` | src/lexer/Lexer.java:24 | `readLine` returns the next line and advances, or returns null at the end |
| `Lexing.LineReader.Ready` | src/lexer/Lexer.java:167 | `ready()`: a line remains; `ReadLine` returns a line exactly then |
| `Lexing.LexerToken` | src/lexer/Lexer.java:150-157 | a scanned key becomes its token; a stray `&` becomes an `AND` token and any other stray character an `OR` token, with its own text |
| `Lexing.Lex` | src/lexer/Lexer.java:20-73 | the tokens of a scan, one per scanned item, each with that item's line and text |
| `Lexing.Lexer.constructor` | src/lexer/Lexer.java:10-18 | line 1, index 0, empty line, NUL character, the given handler |
| `Lexing.Lexer.Tokenize` | src/lexer/Lexer.java:20-73 | returns `Lex` of the remaining lines, reads every line, and advances the line number by the lines read |
| `Lexing.Lexer.ScanLine` | src/lexer/Lexer.java:28-68 | the tokens of one line, and of any lines a comment spans, in front of the scan of the rest |
| `Lexing.Lexer.Step` | src/lexer/Lexer.java:29-67 | one pass of the inner loop performs `Advance` |
| `Lexing.Lexer.ProcessIdentifier` | src/lexer/Lexer.java:75-95 | returns `IdentifierAt`'s token and moves to its end |
| `Lexing.Lexer.ProcessNumber` | src/lexer/Lexer.java:97-113 | returns `NumberAt`'s token and moves to its end |
| `Lexing.Lexer.ProcessString` | src/lexer/Lexer.java:115-131 | returns `StringAt`'s token and moves to its end |
| `Lexing.Lexer.ProcessOperator` | src/lexer/Lexer.java:133-159 | returns `OperatorAt`'s token or the `AND`/`OR` token of a stray character |
| `Lexing.Lexer.ProcessMultiLineComment` | src/lexer/Lexer.java:161-182 | the cursor and line number become `AfterComment`'s |
| `Lexing.LexIsSound` | src/lexer/Lexer.java:20-73 | the tokens are in line order, each on an input line whose text contains it, and each a keyword, word, number, string or stray character |
| `Lexing.ItemIsSound` | src/lexer/Lexer.java:37-67 | a well-formed, located item becomes a sound token |
| `Lexing.TokensAreSound` | src/lexer/Lexer.java:20-73 | sound, ordered items become sound tokens in line order |
| `Lexing.StrayCharactersBecomeTokens` | src/lexer/Lexer.java:150-157 | a character that starts no key still yields a token, `AND` for `&` and `OR` otherwise |
| `Standalone.TokenMapKeys` | src/Compiler.java:6-42 | `tokenMap` has exactly the keyword table's keys |
| `Standalone.TokenMap` | src/Compiler.java:6-42 | `tokenMap.get`: the lexeme-to-kind-name table; `TokenMapKeys` and `TokenMapNames` state that it agrees with the keyword table |
| `Standalone.TokenMapNames` | src/Compiler.java:6-42 | `tokenMap` maps each key to its kind's name |
| `Standalone.ReservedWordNames` | src/Compiler.java:7-18 | the reserved-word entries name their kinds |
| `Standalone.OperatorNames` | src/Compiler.java:19-33 | the operator entries name their kinds |
| `Standalone.SeparatorNames` | src/Compiler.java:34-41 | the separator entries name their kinds |
| `Standalone.TwoCharacterNames` | src/Compiler.java:20-32 | the two-character operator entries name their kinds |
| `Standalone.WordLine` | src/Compiler.java:161-167 | the line written for a word equals its token's `toString` |
| `Standalone.CollectedMembers` | src/Compiler.java:58-124 | a token is logged iff it was scanned; an error line is logged iff a lone `&` or `\|` was scanned on it |
| `Standalone.AgreesWithLexer` | src/Compiler.java:58-124 | without stray characters the compiler logs exactly the lexer's tokens |
| `Standalone.CollectedOrdered` | src/Compiler.java:58-124 | logged tokens and error lines are in line order |
| `Standalone.RunIsSound` | src/Compiler.java:58-124 | the logs are ordered, and every logged token and error line comes from the input |
| `Standalone.RunTokensAreSound` | src/Compiler.java:58-124 | every logged token is sound for the input |
| `Standalone.RunErrorsAreFound` | src/Compiler.java:222-225 | every error line holds a `&` or `\|` |
| `Standalone.StrayIsFound` | src/Compiler.java:222-225 | a stray character occurs on the line it is reported at |
| `Standalone.MessagesAreSorted` | src/Compiler.java:222-225 | error messages collected in line order are already sorted by line |
| `Standalone.Compiler.constructor` | src/Compiler.java:44-49 | empty logs; line 1, index 0, empty line, NUL character |
| `Standalone.Compiler.Run` | src/Compiler.java:58-124 | the logs grow by `Collected(ScanLines(...))` of the input, every line is read, and the line number advances by the lines read |
| `Standalone.Compiler.ScanNext` | src/Compiler.java:60-123 | one turn of the line loop logs what the scan of that line yields |
| `Standalone.Compiler.ScanLine` | src/Compiler.java:63-122 | the character loop logs what the scan yields up to the end of the line, a comment included |
| `Standalone.Compiler.Step` | src/Compiler.java:64-121 | one pass of the character loop performs `Advance` and logs its item |
| `Standalone.Compiler.SkipComment` | src/Compiler.java:85-110 | the cursor and line number become `AfterComment`'s; nothing is logged |
| `Standalone.Compiler.ProcessIdentifier` | src/Compiler.java:146-168 | logs the `tokenMap` line of `IdentifierAt`'s word and moves to its end |
| `Standalone.Compiler.ReadWord` | src/Compiler.java:147-159 | reads the identifier run |
| `Standalone.Compiler.ProcessNumber` | src/Compiler.java:170-186 | logs `INTCON` with `NumberAt`'s digits and moves to their end |
| `Standalone.Compiler.ReadDigits` | src/Compiler.java:171-183 | reads the digit run |
| `Standalone.Compiler.ProcessString` | src/Compiler.java:188-204 | logs `STRCON` with `StringAt`'s text and moves to its end |
| `Standalone.Compiler.ReadQuoted` | src/Compiler.java:189-201 | reads up to the closing quote |
| `Standalone.Compiler.ProcessOperator` | src/Compiler.java:206-233 | logs `OperatorAt`'s key line, or an `a` error for a lone `&` or `\|`, and moves past it |
| `SyntaxTree.SyntaxNode.OfSyntaxType` | src/parser/SyntaxNode.java:17-22 | a childless node of the production, line -1, no token |
| `SyntaxTree.Name` | src/parser/Parser.java:79 | the syntax-type string each production is built with, its own name; `Trace.NamesDiffer` proves the names distinct |
| `SyntaxTree.SyntaxNode.OfToken` | src/parser/SyntaxNode.java:24-29 | a childless node holding the token, at its line |
| `SyntaxTree.SyntaxNode.AddChild` | src/parser/SyntaxNode.java:31-36 | appends the child; the line is set from the first child if still -1; the shape gains the child's shape |
| `SyntaxTree.SyntaxNode.GetLineNumber` | src/parser/SyntaxNode.java:42-51 | the node's own line, or a terminal's token line; for a consistent node, the first line in its tree |
| `SyntaxTree.SyntaxNode.ToString` | src/parser/SyntaxNode.java:53-56 | a non-terminal's production name (none when it has no name), a terminal's token `toString`; on a consistent node, the label of its shape |
| `Trace.TextsAppend` | src/parser/Parser.java:49-70 | the rendering of two traces is the concatenation of their renderings |
| `Trace.TerminalTexts` | src/parser/Parser.java:49-58 | the lines that are not `<...>` are exactly the rendered echoed tokens |
| `Trace.TextNames` | src/parser/Parser.java:60-70 | a `<Name>` line is exactly the reduction of that production |
| `Trace.NamesDiffer` | src/parser/Parser.java:60-70 | different productions have different names |
| `Trace.TextsMember` | src/parser/Parser.java:60-70 | `<Name>` occurs in the output iff that production was reduced |
| `Trace.CountTexts` | src/parser/Parser.java:60-70 | `<Name>` occurs as often as that production was reduced |
| `Trace.EchoesFrontier` | src/parser/Parser.java:49-58 | the tokens echoed by a tree's emission are its leaves, in order |
| `Trace.TerminalLinesOfEmission` | src/parser/Parser.java:49-58 | the token lines of a tree's emission render its leaves |
| `Trace.NoSuppressedLine` | src/parser/Parser.java:60-70 | no emission contains a `BlockItem`, `Decl` or `BType` reduction |
| `Trace.NoSuppressedText` | src/parser/Parser.java:60-70 | no emission's text contains `<BlockItem>`, `<Decl>` or `<BType>` |
| `Trace.BinaryNodeCount` | src/parser/Parser.java:211-236 | a binary node writes its own `<Name>` once per even child position, `(n + 1) / 2` times for `n` children, plus the lines of its sub-trees; `OperandLines` turns this into once per operand |
| `Trace.BodyCount` | src/parser/Parser.java:218-233 | after `n` children, `(n + 1) / 2` reductions of a binary production have been written |
| `Trace.AfterCount` | src/parser/Parser.java:218-233 | the name line follows the child at an even position and no other; `AfterOperand` ties even positions to operands |
| `Trace.AlternatingPositions` | src/parser/Parser.java:211-236 | children alternate iff there is an odd number of them, with operand trees at the even positions and operator tokens at the odd ones |
| `Trace.AlternatingSubtrees` | src/parser/Parser.java:211-236 | alternating children hold one operand more than operators: `(n + 1) / 2` trees |
| `Trace.OperandLines` | src/parser/Parser.java:211-236 | a binary node with alternating children writes its own `<Name>` exactly once per operand, besides what its operands write |
| `Trace.AfterOperand` | src/parser/Parser.java:218-233 | in a binary node with alternating children the name line follows each operand and no operator |
| `Trace.BodySnoc` | src/parser/SyntaxNode.java:31-36 | appending a child appends its emission and frontier |
| `Trace.Prefix` | src/parser/SyntaxNode.java:31-36 | later children do not change what the earlier ones wrote or consumed |
| `Parsing.Span` | src/parser/Parser.java:43-47 | the consumed span has length `j - i` |
| `Parsing.SpanIsSlice` | src/parser/Parser.java:43-47 | the span is the slice `tokens[i..j]` |
| `Parsing.CompUnitWritten` | src/parser/Parser.java:24-27 | a `CompUnit`'s emission renders its tokens, ends with `<CompUnit>`, and writes no suppressed line |
| `Parsing.WrittenEchoes` | src/parser/Parser.java:49-58 | writing a tree adds exactly the lines of its consumed tokens |
| `Parsing.ClosedByCompUnit` | src/parser/Parser.java:94-95 | the last line a `CompUnit` writes is `<CompUnit>` |
| `Parsing.SuppressedNotWritten` | src/parser/Parser.java:60-70 | no tree writes `<BlockItem>`, `<Decl>` or `<BType>` |
| `Parsing.Parser.constructor` | src/parser/Parser.java:18-22 | the cursor at token 0, nothing written, no root |
| `Parsing.Parser.At` | src/parser/Parser.java:29-31 | the guarded test `tokenIndex < tokens.size() && matchToken(kind)`; `MatchToken` is the unguarded one |
| `Parsing.Parser.AtExpStart` | src/parser/Parser.java:293 | the guarded test for a token that may start an expression (`+ - ! IDENFR ( INTCON`) |
| `Parsing.Parser.MatchToken` | src/parser/Parser.java:29-31 | the kind test on the current token; fails iff the cursor is past the end |
| `Parsing.Parser.PreMatchToken` | src/parser/Parser.java:33-36 | true iff the next token exists and has the kind |
| `Parsing.Parser.PrePreMatchToken` | src/parser/Parser.java:38-41 | true iff the token two ahead exists and has the kind |
| `Parsing.Parser.TokenLine` | src/parser/Parser.java:72-76 | the last consumed token's line; fails iff nothing is consumed and tokens exist; 0 for no tokens |
| `Parsing.Parser.ConsumeToken` | src/parser/Parser.java:43-47 | returns the current token and advances by one, or fails and stays put; writes nothing |
| `Parsing.Parser.OutputToken` | src/parser/Parser.java:49-58 | writes the token's line |
| `Parsing.Parser.OutputSyntaxNode` | src/parser/Parser.java:60-70 | writes `<Name>` except for the suppressed productions |
| `Parsing.Parser.Shift` | src/parser/Parser.java:43-58 | consumes, wraps and echoes the current token as the next leaf, or fails with nothing changed |
| `Parsing.Parser.Accept` | src/parser/Parser.java:43-58 | `Shift` where the current token exists: the leaf is that token |
| `Parsing.Parser.Expect` | src/parser/Parser.java:137-144 | shifts the expected token, or else reports `line code` at the last consumed token's line and changes nothing else |
| `Parsing.Parser.ExpectOrStop` | src/parser/Parser.java:956-963 | `Expect`, failing when no token was consumed yet, as `getTokenLine` does |
| `Parsing.Parser.ExpectStep` | src/parser/Parser.java:942-949 | `Expect` inside a production: the node stays consistent and its children grow by at most one token, of the expected kind |
| `Parsing.Parser.ExpectOrStopStep` | src/parser/Parser.java:956-963 | `ExpectOrStop` inside a production: unless it fails, the node stays consistent and grows by at most one token of the expected kind |
| `Parsing.Parser.ShiftLogical` | src/parser/Parser.java:987-999 | shifts `&&`/`\|\|` and reports error `a` iff the token is a lone `&`/`\|` |
| `Parsing.Parser.Close` | src/parser/Parser.java:60-70 | the final `outputSyntaxNode` finishes the production |
| `Parsing.Parser.Finished` | src/parser/Parser.java:211-236 | a binary production is finished when its last operand's reduction is written |
| `Parsing.Parser.Parse` | src/parser/Parser.java:24-27 | keeps the root; the parser writes exactly its emission, which renders the consumed tokens, ends in `<CompUnit>` and has no suppressed line; children are declarations, then functions, then `main` |
| `Parsing.Parser.ParseCompUnit` | src/parser/Parser.java:78-96 | a `CompUnit` of declarations, then function definitions, then the main function |
| `Parsing.Parser.CompUnitDecls` | src/parser/Parser.java:81-84 | the declaration loop adds only `Decl` children |
| `Parsing.Parser.CompUnitFuncDefs` | src/parser/Parser.java:86-89 | the function loop adds only `FuncDef` children after the declarations |
| `Parsing.Parser.ParseDecl` | src/parser/Parser.java:98-111 | a `Decl` that consumed at least one token |
| `Parsing.Parser.ParseConstDecl` | src/parser/Parser.java:113-148 | a `ConstDecl` that consumed at least one token |
| `Parsing.Parser.ConstDefs` | src/parser/Parser.java:127-135 | the `, ConstDef` loop keeps the node consistent |
| `Parsing.Parser.ParseBType` | src/parser/Parser.java:150-160 | a `BType` of exactly one token |
| `Parsing.Parser.ParseConstDef` | src/parser/Parser.java:162-199 | a `ConstDef` |
| `Parsing.Parser.ConstDefDimension` | src/parser/Parser.java:170-187 | the optional `[ConstExp]`, then `]` or error `k`, the `]` test reading the head without a bounds check; keeps the node consistent |
| `Parsing.Parser.ParseConstExp` | src/parser/Parser.java:201-209 | a `ConstExp` |
| `Parsing.Parser.ParseAddExp` | src/parser/Parser.java:211-236 | an `AddExp` whose children alternate `MulExp` operands and `+`/`-` tokens, starting and ending with an operand (`Alternating`) |
| `Parsing.Parser.AddExpStep` | src/parser/Parser.java:218-233 | one loop round appends exactly two children, the current `+`/`-` token and then one `MulExp` operand (`GrewBy`), and consumes tokens |
| `Parsing.Parser.ParseMulExp` | src/parser/Parser.java:238-268 | an `MulExp` whose children alternate `UnaryExp` operands and `*`/`/`/`%` tokens, starting and ending with an operand (`Alternating`) |
| `Parsing.Parser.MulExpStep` | src/parser/Parser.java:245-265 | one loop round appends exactly two children, the current `*`/`/`/`%` token and then one `UnaryExp` operand (`GrewBy`), and consumes tokens |
| `Parsing.Parser.ParseUnaryExp` | src/parser/Parser.java:270-313 | a `UnaryExp` |
| `Parsing.Parser.FunctionCall` | src/parser/Parser.java:282-305 | the children it adds have `CallForm`: a token (its kind is not checked), `(`, an optional `FuncRParams` and an optional `)`; the node stays consistent |
| `Parsing.CallFormed` | src/parser/Parser.java:282-305 | the identifier, the `(`, the optional arguments and the optional `)` make `CallForm` |
| `Parsing.Parser.ParsePrimaryExp` | src/parser/Parser.java:315-344 | a `PrimaryExp` |
| `Parsing.Parser.ParseExp` | src/parser/Parser.java:346-354 | an `Exp` |
| `Parsing.Parser.ParseLVal` | src/parser/Parser.java:356-385 | an `LVal` |
| `Parsing.Parser.ParseNumber` | src/parser/Parser.java:387-397 | a `Number` |
| `Parsing.Parser.ParseFuncRParams` | src/parser/Parser.java:399-417 | a `FuncRParams` |
| `Parsing.Parser.FuncRParamList` | src/parser/Parser.java:405-413 | the `, Exp` loop keeps the node consistent |
| `Parsing.Parser.ParseUnaryOp` | src/parser/Parser.java:419-442 | a `UnaryOp` of the current token, or an empty one at the end of the tokens; it cannot fail |
| `Parsing.Parser.ParseConstInitVal` | src/parser/Parser.java:444-484 | a `ConstInitVal` |
| `Parsing.Parser.ConstInitValList` | src/parser/Parser.java:462-470 | the `, ConstInitVal` loop keeps the node consistent |
| `Parsing.Parser.ParseVarDecl` | src/parser/Parser.java:486-523 | a `VarDecl` that consumed at least one token |
| `Parsing.Parser.VarDefs` | src/parser/Parser.java:502-510 | the `, VarDef` loop keeps the node consistent |
| `Parsing.Parser.ParseVarDef` | src/parser/Parser.java:525-564 | a `VarDef` |
| `Parsing.Parser.VarDefDimension` | src/parser/Parser.java:533-550 | the optional `[ConstExp]`, then `]` or error `k`; keeps the node consistent |
| `Parsing.Parser.VarDefInit` | src/parser/Parser.java:552-560 | the optional `= InitVal` keeps the node consistent |
| `Parsing.Parser.ParseInitVal` | src/parser/Parser.java:566-606 | an `InitVal` |
| `Parsing.Parser.InitValList` | src/parser/Parser.java:584-592 | the `, InitVal` loop keeps the node consistent |
| `Parsing.Parser.ParseFuncDef` | src/parser/Parser.java:608-643 | a `FuncDef` that consumed at least one token |
| `Parsing.Parser.FuncDefParams` | src/parser/Parser.java:619-636 | the optional parameters and `)` or error `j` keep the node consistent |
| `Parsing.Parser.ParseFuncType` | src/parser/Parser.java:645-662 | a `FuncType` of exactly one token |
| `Parsing.Parser.ParseFuncFParams` | src/parser/Parser.java:664-682 | a `FuncFParams` |
| `Parsing.Parser.FuncFParamList` | src/parser/Parser.java:670-678 | the `, FuncFParam` loop keeps the node consistent |
| `Parsing.Parser.ParseFuncFParam` | src/parser/Parser.java:684-713 | a `FuncFParam` |
| `Parsing.Parser.ParseBlock` | src/parser/Parser.java:715-735 | a `Block` |
| `Parsing.Parser.BlockItems` | src/parser/Parser.java:723-726 | the item loop keeps the node consistent, and fails with `NoProgress` where the source loops forever |
| `Parsing.Parser.ParseBlockItem` | src/parser/Parser.java:737-750 | a `BlockItem` |
| `Parsing.Parser.ParseStmt` | src/parser/Parser.java:752-968 | a `Stmt` whose children match `StmtForm` of the head token and the one after it, tested in the order of the `if` chain: the form of an `if`, `for`, `break`/`continue`, `return`, `printf`, block, assignment or expression statement |
| `Parsing.MatchesAppend` | src/parser/Parser.java:752-968 | forms compose: children of form `ps` followed by children of form `qs` have form `ps + qs` |
| `Parsing.Parser.LaterStmt` | src/parser/Parser.java:884-963 | the rest of the chain, once the head is none of `if`, `for`, `break`, `continue`, `return`: children match `StmtForm` there too |
| `Parsing.Parser.IfStmt` | src/parser/Parser.java:755-789 | children match `IfForm`: `if`, a token (`(`, unchecked), `Cond`, an optional `)`, `Stmt`, an optional `else Stmt` |
| `Parsing.IfFormed` | src/parser/Parser.java:755-789 | the steps of an `if` statement, taken in order, make `IfForm` |
| `Parsing.Parser.ElseBranch` | src/parser/Parser.java:781-789 | adds nothing, or `else` and a `Stmt`; the node stays consistent |
| `Parsing.Parser.ForLoop` | src/parser/Parser.java:790-836 | children match `ForForm`: `for`, a token, an optional `ForStmt`, a token, an optional `Cond`, a token, an optional `ForStmt`, an optional `)`, `Stmt` |
| `Parsing.Parser.ForInit` | src/parser/Parser.java:791-809 | adds `ForHead`: `for`, a token, an optional `ForStmt`, a token; consumes tokens |
| `Parsing.Parser.ForCond` | src/parser/Parser.java:811-819 | adds `ForMiddle`: an optional `Cond`, then a token; consumes tokens |
| `Parsing.Parser.ForUpdate` | src/parser/Parser.java:821-833 | adds `ForTail`: an optional `ForStmt`, then an optional `)`; the node stays consistent |
| `Parsing.Parser.BlockStmt` | src/parser/Parser.java:927-929 | children match `BlockForm`: one `Block` |
| `Parsing.Parser.JumpStmt` | src/parser/Parser.java:837-864 | children match `JumpForm` of the head: `break` or `continue`, then an optional `;` |
| `Parsing.Parser.ReturnStmt` | src/parser/Parser.java:865-883 | children match `ReturnForm`: `return`, an optional `Exp`, an optional `;` |
| `Parsing.ReturnFormed` | src/parser/Parser.java:865-883 | the steps of a `return` statement make `ReturnForm` |
| `Parsing.Parser.OptionalExp` | src/parser/Parser.java:871-875 | adds nothing or one `Exp`; the node stays consistent |
| `Parsing.Parser.PrintfStmt` | src/parser/Parser.java:884-926 | children match `PrintfForm`: `printf`, two tokens (`(` and the format string, unchecked), any number of `, Exp`, an optional `)`, an optional `;` |
| `Parsing.PrintfFormed` | src/parser/Parser.java:884-926 | the steps of a `printf` statement make `PrintfForm` |
| `Parsing.Parser.PrintfArgs` | src/parser/Parser.java:900-908 | adds zero or more `, Exp` pairs; the node stays consistent |
| `Parsing.Parser.AssignStmt` | src/parser/Parser.java:930-949 | children match `AssignForm`: `LVal`, a token (`=`, unchecked), `Exp`, an optional `;` |
| `Parsing.Parser.Assignment` | src/parser/Parser.java:931-940 | adds `AssignmentForm`, `LVal`, a token and `Exp`, and consumes tokens |
| `Parsing.AssignmentFormed` | src/parser/Parser.java:931-940 | an `LVal`, a token and an `Exp` make `AssignmentForm` |
| `Parsing.AssignFormed` | src/parser/Parser.java:930-949 | an assignment and an optional `;` make `AssignForm` |
| `Parsing.Parser.ExpStmt` | src/parser/Parser.java:950-963 | children match `ExpForm`: an optional `Exp`, an optional `;` |
| `Parsing.ExpFormed` | src/parser/Parser.java:950-963 | an optional `Exp` and an optional `;` make `ExpForm` |
| `Parsing.Parser.ParseCond` | src/parser/Parser.java:970-978 | a `Cond` |
| `Parsing.Parser.ParseLOrExp` | src/parser/Parser.java:980-1002 | an `LOrExp` whose children alternate `LAndExp` operands and `\|\|` tokens, starting and ending with an operand (`Alternating`) |
| `Parsing.Parser.LOrExpStep` | src/parser/Parser.java:987-999 | one loop round appends exactly two children, the current `\|\|` token and then one `LAndExp` operand (`GrewBy`), and consumes tokens |
| `Parsing.Parser.ParseLAndExp` | src/parser/Parser.java:1004-1026 | an `LAndExp` whose children alternate `EqExp` operands and `&&` tokens, starting and ending with an operand (`Alternating`) |
| `Parsing.Parser.LAndExpStep` | src/parser/Parser.java:1011-1023 | one loop round appends exactly two children, the current `&&` token and then one `EqExp` operand (`GrewBy`), and consumes tokens |
| `Parsing.Parser.ParseEqExp` | src/parser/Parser.java:1028-1054 | an `EqExp` whose children alternate `RelExp` operands and `==`/`!=` tokens, starting and ending with an operand (`Alternating`) |
| `Parsing.Parser.EqExpStep` | src/parser/Parser.java:1035-1051 | one loop round appends exactly two children, the current `==`/`!=` token and then one `RelExp` operand (`GrewBy`), and consumes tokens |
| `Parsing.Parser.ParseRelExp` | src/parser/Parser.java:1056-1092 | an `RelExp` whose children alternate `AddExp` operands and `<`/`>`/`<=`/`>=` tokens, starting and ending with an operand (`Alternating`) |
| `Parsing.Parser.RelExpStep` | src/parser/Parser.java:1063-1089 | one loop round appends exactly two children, the current `<`/`>`/`<=`/`>=` token and then one `AddExp` operand (`GrewBy`), and consumes tokens |
| `Parsing.AlternatingRound` | src/parser/Parser.java:218-233 | an operator token of the production's set followed by one more operand keeps the children alternating |
| `Parsing.Parser.ParseForStmt` | src/parser/Parser.java:1094-1128 | a `ForStmt` |
| `Parsing.Parser.ForStmtList` | src/parser/Parser.java:1108-1124 | the `, LVal = Exp` loop keeps the node consistent |
| `Parsing.Parser.ParseMainFuncDef` | src/parser/Parser.java:1130-1162 | a `MainFuncDef` |

Every `ParseXxx` row above also states the common contract, and the statement rows name the form
their children match:
- the returned node is fresh and the root of its shape is named by that production;
- the tokens consumed since the call are exactly the tree's leaves;
- the lines written since the call are exactly `Emission` of the tree;
- the cursor never moves back.

"Keeps the node consistent" means the `Building` invariant: the tokens consumed since the
production began are its children's leaves, and the lines written are the emission of those
children so far.

## Left out

- Files: reading `testfile.txt` and writing `lexer.txt`, `parser.txt` and `error.txt` are left out. The lines a writer would receive are modelled as sequences: the parser's `trace`, the compiler's `outputTokens`/`errorMessages`, the handler's `errorMessages`. `ErrorHandler.writeErrorsToFile` (src/error/ErrorHandler.java:17-24) and the output loops in `Compiler.main` (src/Compiler.java:125-143) are not modelled. The reader is a `LineReader` over a fixed list of lines, and `reader.ready()` is "a line remains".
- `IOException` handling and `e.printStackTrace()` are left out, because `LineReader` cannot fail.
- Characters are whole code points, while a Java `char` is a UTF-16 code unit. For a character outside the Basic Multilingual Plane, `Lexer.processOperator` reads two surrogate units and makes two `OR` tokens, and later columns shift by one; the model makes one `OR` token. `Compiler.processOperator` sees two stray units and logs nothing for either, as the model logs nothing for the one character. Input outside the Basic Multilingual Plane is not modelled faithfully.
- Line numbers are unbounded integers. In the source they are 32-bit `int`s that wrap around after 2^31 - 1: `Lexer.lineNumber` (src/lexer/Lexer.java:10, incremented at 69 and 169), `Compiler.lineNumber` (src/Compiler.java:46, incremented at 97 and 123) and `Token`'s line. `Lexing.Lexer`, `Standalone.Compiler` and the parser count lines without wrap-around. So `Lexing.LexIsSound`, `Standalone.CollectedOrdered` and the other line-order results hold only for inputs of fewer than 2^31 lines; longer inputs are outside the model.
- `Diagnostics.ErrorHandler.ReportError`: accepts any integer line, while `Diagnostics.ExtractLineNumberOfEntry` proves the round trip from a reported message back to its line only for a 32-bit line. For a line at or beyond 2^31, which the source cannot produce without first wrapping it, the round trip is not claimed.
- Character classes: `Character.isWhitespace`, `isLetter` and `isDigit` are modelled on ASCII only. Unicode letters, digits and spaces are outside the model.
- Exceptions: a `tokens.get` past the end becomes `Failure(IndexOutOfBounds)`, and no particular exception type is modelled. A non-terminating `parseBlock` loop becomes `Failure(NoProgress)`.
- `Parsing.Parser.Parse`: on failure, `rootNode` is not specified. The productions may modify the parser object, and the model does not track that the field is left alone.
- `Parsing.Parser.ShiftLogical`: the code reports the `a` error before echoing the operator, and the model does it after. The two go to different lists, so the order is not observable.
- Production contracts do not state that error messages only grow, nor which errors a production reports. Only `Expect`, `ExpectOrStop` and `ShiftLogical` state their error effect.
- `Parsing.Parser.ExpectStep` and `ExpectOrStopStep`: state the optional token they add, not the error they report in its place. `Expect` and `ExpectOrStop` state the error effect.
- `Parsing.Parser.ConstDefs`, `ConstDefDimension`, `FuncRParamList`, `ConstInitValList`, `VarDefs`, `VarDefDimension`, `VarDefInit`, `InitValList`, `FuncDefParams`, `FuncFParamList`, `BlockItems` and `ForStmtList`: each promises only the `Building` invariant. They are parts of a production's body, and the enclosing `ParseXxx` states the production's contract.
- `Parsing.Parser.ParseForStmt`: does not state the form `LVal = Exp { , LVal = Exp }` of its children. `Assignment` states the form of each assignment.
- `Parsing.Parser.ParseStmt`: the statement forms say which parts may be missing, not that a part is missing exactly when the parser reported its error.
- The `Adopt*` helpers are left out of the table. Each one is a `node.addChild(parseXxx())` call. Those that statement forms, the `CompUnit` sections and binary productions need also state that the children grew by one tree of that production.
- Reduction count of binary productions: `a + b + c` writes `<AddExp>` once per operand, three times, because `outputSyntaxNode` runs before the loop and once per iteration (src/parser/Parser.java:216-233). The model follows this code (`Trace.OperandLines`), not a count of nested reductions.
- Unknown characters: `Lexer.processOperator` does not skip a character that starts no key. It makes the character a token, of kind `AND` for `&` and `OR` otherwise, with the character as its text. The model follows this code (`Lexing.LexerToken`).
- `Standalone.Compiler.ProcessOperator`: the second `&`/`|` test at src/Compiler.java:226-232 can never run, because the test at 222-225 already covers it. It is not modelled.
- `Standalone.Compiler.Run`: the two output lists are stated through `Logs(tokens, strays)`. The logged lines are `Lines(tokens)` and `Messages(strays)`, not one mixed log.
- `Keywords.TwoCharacterKeys`: among two-character strings the table holds the six operators and also the reserved word `if`.
- `SyntaxTree.SyntaxNode.ToString`: requires a terminal node to hold a token. The source throws a `NullPointerException` on a terminal built by the name constructor, and the parser never builds one.
- `Diagnostics.ParseInt`: `Integer.parseInt` is modelled as an optional decimal with a 32-bit range check. It accepts a leading `+` or `-`. The `NumberFormatException` handler becomes `Integer.MAX_VALUE`.
- `Wrappers.BeforeSpace`: `String.split(" ")[0]` is modelled as the prefix before the first space. For a message of spaces only, `split` returns no parts and `[0]` throws; the handler then returns `Integer.MAX_VALUE`, and the model gets the same value because the empty prefix does not parse.
- `Diagnostics.SortByLine`: `Collections.sort` is modelled as a stable insertion sort. `SortByLineIsTheStableSort` proves that any stable sort gives the same list.
