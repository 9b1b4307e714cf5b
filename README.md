# Pascal front end: token kinds, word and comment scanners, LOOP and WHEN parsers

A Dafny model of five pieces of the front end of TAdragon1/PascalCompiler, a Pascal
compiler in Java:

- the token-kind enumeration `PascalTokenType` and the two tables its static blocks build,
  `RESERVED_WORDS` and `SPECIAL_SYMBOLS`;
- `PascalWordToken.extract`, the scanner for identifiers and reserved words;
- `PascalCommentToken.extract`, the scanner for brace comments;
- `LoopStatementParser`, which parses `LOOP ( init [;] BAR cond BAR update ) DO body` and
  lowers it to `COMPOUND(init, LOOP(TEST(NOT(cond)), body, update))`;
- `WhenStatementParser`, which parses
  `WHEN expr LESSTHAN0 s1 [;] EQUAL0 s2 [;] GREATERTHAN0 s3` and lowers it to the chain
  `IF(LT(expr, 0), s1, IF(EQ(expr, 0), s2, IF(GT(expr, 0), s3)))`.

The files are:

| file | module | what it holds |
|---|---|---|
| `wrappers.dfy` | `Wrappers` | `Option` |
| `chars.dfy` | `Chars` | ASCII character classes and case conversion, and the EOF sentinel |
| `token_types.dfy` | `TokenTypes` | the token kinds in their three ordinal bands, names, texts, `valueOf` |
| `token_tables.dfy` | `TokenTables` | `RESERVED_WORDS`, the keys of `SPECIAL_SYMBOLS`, and the static blocks as loops |
| `source.dfy` | `Sources` | the character source: program text, cursor, `currentChar` and `nextChar` |
| `word_token.dfy` | `WordTokens` | the word scanner as a class with its loop, and the spec functions it is proved against |
| `errors.dfy` | `PascalErrors` | the error codes flagged by the modelled code |
| `comment_token.dfy` | `CommentTokens` | the comment scanner as a class with its loop, and its spec functions |
| `icode.dfy` | `ICode` | intermediate-code nodes as heap objects with children and LINE and VALUE attributes |
| `parser.dfy` | `Parsing` | the token stream and cursor, `synchronize`, the error log, the marker check, the sync sets, and stand-ins for the sub-parsers |
| `loop_parser.dfy` | `LoopStatements` | the LOOP statement parser |
| `when_parser.dfy` | `WhenStatements` | the WHEN statement parser |

The token kinds keep the enumeration's order. The reserved words `AND..LOOP` form one
datatype, the special symbols `PLUS..UP_ARROW` form another, and the literal and structural
kinds follow. `Ordinal` and `KindAt` give back the flat numbering that the static blocks
iterate over.

Each scanner is a class whose `Extract` method works on a `Source` object in place, as the
Java does. Its loop is proved against spec functions on the text:

- `WordAt` is the maximal run of word characters;
- `CommentEnd` and `CommentBody` give where a comment stops and the text it collects.

Lemmas state what those functions mean: maximality, round trips from a word or a comment
body back to itself, and case-insensitive classification.

The statement parsers work on a `Parser` object. It holds the token stream, the cursor, the
statement start and follow sets, and the error handler's log. It also keeps a ghost trace of
the sub-parser calls, which records where each sub-parse started and ended, which node it
returned and which errors it flagged. The `Parse` methods' contracts give:

- the exact cursor movement, in terms of the spec functions `Next`, `SyncPoint`,
  `AfterSemicolon` and `AfterMarker`;
- the exact errors appended (`LoopLog`, `WhenLog`): the errors each sub-parser flags, in the
  order of the calls, interleaved with the statement's own marker checks (`LoopFlags`,
  `WhenFlags`);
- the exact shape of the returned tree, including which nodes are new, which are shared, and
  which carry a line number.

### Behaviour of the code that the model keeps

- **WHEN statement.** The WHEN parser makes no temporary variable and no COMPOUND node. It
  places the *same* expression node and the *same* 0 node under the LT, EQ and GT comparison
  nodes, and it returns the outer IF. Its innermost IF tests GT and has no else branch.
- **LOOP statement.** The LOOP parser separates the header parts with BAR tokens, takes an
  optional `;` only after the initial assignment, and lowers the condition to
  `TEST(NOT(cond))`.
- **BAR token kind.** `BAR` is used by the LOOP parser but not declared in `PascalTokenType`.
  The model adds it after `END_OF_FILE`, outside the reserved and special bands, so neither
  table contains it.
- **Line numbers.** Of the nodes the LOOP parser handles, only the two assignment nodes get a
  line: that of the token after `(`. Of the nodes the WHEN parser builds, only the EQ and GT
  IF nodes get one: that of the token after the optional `;`, noted before synchronising.
- **Not-equals spelling.** `NOT_EQUALS` is declared with the text `"><"`, so `"<>"` is no
  special symbol.

## Model

| member | source | states |
|---|---|---|
| TokenTypes.OrdinalBands | src/wci/frontend/pascal/PascalTokenType.java:20-41 | a kind is a reserved word iff its ordinal is in FIRST_RESERVED_INDEX..LAST_RESERVED_INDEX, and a special symbol iff it is in FIRST_SPECIAL_INDEX..LAST_SPECIAL_INDEX; every other kind lies after UP_ARROW |
| TokenTypes.KindAtOrdinal | src/wci/frontend/pascal/PascalTokenType.java:20-35 | `values()[t.ordinal()] == t` for every kind |
| TokenTypes.GetText | src/wci/frontend/pascal/PascalTokenType.java:44-69 | a special symbol's text is the one it is declared with; any other kind's text is exactly its name in lower case, of the same length, which lower-casing leaves alone |
| TokenTypes.ReservedSpelling | src/wci/frontend/pascal/PascalTokenType.java:20-24 | a reserved word's name is spelt in capitals, digits and `_`, and `valueOf` of that name gives the reserved word |
| TokenTypes.SpecialSpelling | src/wci/frontend/pascal/PascalTokenType.java:27-32 | every special symbol's text has one or two characters, and no two special symbols share a text |
| TokenTypes.SpecialValueOf | src/wci/frontend/pascal/PascalTokenType.java:27-32 | `valueOf` finds each of the 23 special symbols by its constant name |
| TokenTypes.LiteralSpelling | src/wci/frontend/pascal/PascalTokenType.java:34-35 | each literal or structural kind is named in capitals and `_`, with at least three characters, and `valueOf` finds it by that name |
| TokenTables.NameTextIsLower | src/wci/frontend/pascal/PascalTokenType.java:48-51 | every constant declared without a text (reserved words, literal and structural kinds, BAR) gets its name in lower case, and lower-casing that text again changes nothing |
| TokenTables.ReservedEntryText | src/wci/frontend/pascal/PascalTokenType.java:74-76 | the entry the first static block adds at index i is the text of the reserved word with ordinal i |
| TokenTables.ReservedTextEntry | src/wci/frontend/pascal/PascalTokenType.java:74-76 | every reserved word's ordinal is in the reserved band, and its text is the entry added at that ordinal |
| TokenTables.ReservedWordsExactly | src/wci/frontend/pascal/PascalTokenType.java:72-78 | a string is in RESERVED_WORDS iff it is the text of one of the 35 reserved words AND..LOOP |
| TokenTables.ReservedWordLookup | src/wci/frontend/pascal/tokens/PascalWordToken.java:57-58 | a reserved word's text is in RESERVED_WORDS, and `valueOf` of its upper-cased text gives the reserved word back |
| TokenTables.ReservedWordsDistinct | src/wci/frontend/pascal/PascalTokenType.java:20-24 | two reserved words with the same text are the same word |
| TokenTables.SpecialSymbolTextsExactly | src/wci/frontend/pascal/PascalTokenType.java:82-89 | a string is a key of SPECIAL_SYMBOLS iff it is the text of one of the 23 special symbols PLUS..UP_ARROW |
| TokenTables.LiteralTextsInNeitherTable | src/wci/frontend/pascal/PascalTokenType.java:34-35 | the texts of IDENTIFIER..END_OF_FILE, and of BAR, are neither reserved words nor special-symbol keys |
| TokenTables.LiteralTextNotReserved | src/wci/frontend/pascal/PascalTokenType.java:72-78 | no literal or structural kind's text is in RESERVED_WORDS |
| TokenTables.LiteralTextNotSpecial | src/wci/frontend/pascal/PascalTokenType.java:82-89 | no literal or structural kind's text is a key of SPECIAL_SYMBOLS |
| TokenTables.NotEqualsSpelling | src/wci/frontend/pascal/PascalTokenType.java:29 | `"><"` is a special-symbol key and `"<>"` is not |
| TokenTables.CollectedMembers | src/wci/frontend/pascal/PascalTokenType.java:75-76 | a string is in the set built by adding f(i) for each i in lo..n-1 iff it is f(i) for one such i |
| TokenTables.ReservedWordsCollected | src/wci/frontend/pascal/PascalTokenType.java:73-78 | running the first static block over the whole reserved band builds exactly RESERVED_WORDS |
| TokenTables.SpecialTextsCollected | src/wci/frontend/pascal/PascalTokenType.java:84-89 | running the second static block over the whole special band puts exactly the special-symbol texts as keys |
| TokenTables.BuildReservedWords | src/wci/frontend/pascal/PascalTokenType.java:73-78 | the loop over ordinals FIRST_RESERVED_INDEX..LAST_RESERVED_INDEX leaves exactly RESERVED_WORDS |
| TokenTables.BuildSpecialSymbols | src/wci/frontend/pascal/PascalTokenType.java:84-89 | the loop over the special band leaves a table whose keys are the special texts, each mapped to a special symbol spelt that way |
| TokenTables.SpecialSymbolLookup | src/wci/frontend/pascal/PascalTokenType.java:82-89 | in that table every special symbol is found under its own text |
| Chars.ToLower | src/wci/frontend/pascal/PascalTokenType.java:50 | lower-casing keeps the length and maps each character on its own |
| Chars.ConstantNameRoundTrip | src/wci/frontend/pascal/PascalTokenType.java:50 | a name in capitals, digits and `_` is recovered by upper-casing its lower-case text |
| Chars.UpperOfLower | src/wci/frontend/pascal/tokens/PascalWordToken.java:57-58 | upper-casing a lower-cased text gives the upper-cased text |
| Chars.LowerOfUpper | src/wci/frontend/pascal/tokens/PascalWordToken.java:57-58 | lower-casing an upper-cased text gives the lower-cased text |
| ICode.Node.AddChild | src/wci/frontend/pascal/parsers/WhenStatementParser.java:93 | addChild appends the child after the children already there |
| ICode.Node.SetValue | src/wci/frontend/pascal/parsers/WhenStatementParser.java:97 | setAttribute(VALUE, v) gives the node the value v |
| ICode.Node.SetLine | src/wci/frontend/pascal/parsers/LoopStatementParser.java:89 | setLineNumber's LINE attribute holds the given line |
| Sources.Advance | src/wci/frontend/pascal/tokens/PascalWordToken.java:48 | consuming a character moves the cursor one on, except at the end of the input |
| Sources.Source.NextChar | src/wci/frontend/pascal/tokens/PascalWordToken.java:48 | nextChar advances the cursor and returns the character now under it, or EOF |
| WordTokens.WordRunLength | src/wci/frontend/pascal/tokens/PascalWordToken.java:46-49 | the run from p stays inside the text, holds only letters, digits and `_`, and is followed by a character that is none of these |
| WordTokens.WordAtMaximal | src/wci/frontend/pascal/tokens/PascalWordToken.java:46-49 | the scanned word is the text at the cursor, every character of it is a word character, and the character after it is not |
| WordTokens.WordRoundTrip | src/wci/frontend/pascal/tokens/PascalWordToken.java:46-49 | a run of word characters followed by a non-word character is scanned back exactly, whatever precedes it |
| WordTokens.Classify | src/wci/frontend/pascal/tokens/PascalWordToken.java:57-59 | a word whose lower-case text is in RESERVED_WORDS is the reserved word spelt that way, any other word is IDENTIFIER, and valueOf always finds the constant |
| WordTokens.ReservedTextLookup | src/wci/frontend/pascal/tokens/PascalWordToken.java:57-58 | when the lower-case text is in RESERVED_WORDS, valueOf of the upper-case text is the reserved word whose text that is |
| WordTokens.ClassifyExactly | src/wci/frontend/pascal/tokens/PascalWordToken.java:57-59 | a word is classified as reserved word w iff its lower-case text is w's text, and as IDENTIFIER iff its lower-case text is no reserved word; the lookup never fails |
| WordTokens.ClassifyIgnoresCase | src/wci/frontend/pascal/tokens/PascalWordToken.java:57-59 | upper- or lower-casing a word does not change its classification |
| WordTokens.ReservedTextClassified | src/wci/frontend/pascal/tokens/PascalWordToken.java:57-59 | every reserved word, spelt as its text, is classified as itself |
| WordTokens.ReadWord | src/wci/frontend/pascal/tokens/PascalWordToken.java:46-49 | the loop collects exactly the maximal word at the cursor, advances the cursor by its length, and stops at a character that is no word character |
| WordTokens.WordToken.Extract | src/wci/frontend/pascal/tokens/PascalWordToken.java:35-64 | on `_` nothing is consumed and the fields are unchanged; otherwise the text is the word at the cursor in its own case, the cursor moves past it, and the kind is its classification |
| WordTokens.WordToken.constructor | src/wci/frontend/pascal/tokens/PascalWordToken.java:25-29 | constructing the token runs extract on unset fields |
| CommentTokens.Blank | src/wci/frontend/pascal/tokens/PascalCommentToken.java:47-49 | whitespace becomes a blank, anything else is kept, and `}` and EOF are kept |
| CommentTokens.CommentEnd | src/wci/frontend/pascal/tokens/PascalCommentToken.java:45-58 | scanning stops at the first `}` or EOF from the start of the body |
| CommentTokens.CommentBody | src/wci/frontend/pascal/tokens/PascalCommentToken.java:45-58 | the collected text has one character per body character, in order, with whitespace blanked; it holds no `}`, no EOF and no whitespace but the blank |
| CommentTokens.CommentEndAfter | src/wci/frontend/pascal/tokens/PascalCommentToken.java:45-58 | scanning from the start of a body stops right after it when a `}` or EOF follows |
| CommentTokens.CommentRoundTrip | src/wci/frontend/pascal/tokens/PascalCommentToken.java:45-66 | a body followed by `}` is scanned back exactly, as a terminated comment |
| CommentTokens.CommentCutOff | src/wci/frontend/pascal/tokens/PascalCommentToken.java:60-72 | a body that runs to the end of the input is not terminated, and the scanner still keeps it as the text |
| CommentTokens.ReadBody | src/wci/frontend/pascal/tokens/PascalCommentToken.java:45-58 | the do-while loop collects the comment body into both buffers and stops at its end, on `}` or EOF |
| CommentTokens.CommentToken.Extract | src/wci/frontend/pascal/tokens/PascalCommentToken.java:35-73 | after the opener, the text is the comment body; a terminated comment gives COMMENT with the body as value and consumes the `}`; otherwise (the scan meets a NUL character or the end of the input before a `}`) ERROR with UNEXPECTED_EOF |
| CommentTokens.CommentToken.constructor | src/wci/frontend/pascal/tokens/PascalCommentToken.java:25-29 | constructing the token runs extract |
| Parsing.SyncPoint | src/wci/frontend/pascal/parsers/LoopStatementParser.java:80 | synchronisation stops at the first token at or after the cursor whose kind is in the set or is END_OF_FILE |
| Parsing.SyncPointStable | src/wci/frontend/pascal/parsers/LoopStatementParser.java:80 | synchronising again where synchronisation stopped does not move |
| Parsing.SyncPointNotPast | src/wci/frontend/pascal/parsers/LoopStatementParser.java:80 | synchronisation never skips a token of the set |
| Parsing.SyncPointMonotone | src/wci/frontend/pascal/parsers/LoopStatementParser.java:80 | synchronising on a larger set stops no later |
| Parsing.Missing | src/wci/frontend/pascal/parsers/LoopStatementParser.java:81-86 | a marker check flags nothing for the marker and exactly one error at any other token |
| Parsing.MarkerCheck | src/wci/frontend/pascal/parsers/LoopStatementParser.java:80-86 | after synchronising, either the marker is found, nothing is flagged and it is consumed, or one error is flagged, nothing is consumed, and the token starts a statement, may follow one, or ends the file |
| Parsing.MarkerFound | src/wci/frontend/pascal/parsers/LoopStatementParser.java:80-86 | when the marker is the current token, synchronisation stays, nothing is flagged, and the marker is consumed |
| Parsing.BuildSyncSet | src/wci/frontend/pascal/parsers/LoopStatementParser.java:34-39 | cloning STMT_START_SET, adding the marker and adding STMT_FOLLOW_SET builds the sync set |
| Parsing.SyncSetMembers | src/wci/frontend/pascal/parsers/LoopStatementParser.java:42-47 | a kind is in a sync set iff it is the marker, a statement-start kind or a statement-follow kind |
| Parsing.Next | src/wci/frontend/pascal/parsers/LoopStatementParser.java:58 | nextToken moves one token on, except on the final END_OF_FILE |
| Parsing.Parser.NextToken | src/wci/frontend/pascal/parsers/LoopStatementParser.java:58 | nextToken moves the cursor to `Next` and returns the token there, leaving the error log alone |
| Parsing.Parser.Synchronize | src/wci/frontend/pascal/parsers/LoopStatementParser.java:80 | the skipping loop leaves the cursor at SyncPoint and returns that token |
| Parsing.Parser.Expect | src/wci/frontend/pascal/parsers/LoopStatementParser.java:80-86 | synchronise, then consume the marker or flag the code at the token reached; the log grows by `Missing` |
| Parsing.Parser.SkipSemicolon | src/wci/frontend/pascal/parsers/LoopStatementParser.java:75-78 | an optional `;` is consumed when present and nothing is consumed otherwise |
| Parsing.Parser.FlagError | src/wci/frontend/pascal/parsers/LoopStatementParser.java:85 | the error handler appends the token and the code to the log |
| Parsing.Parser.ParseAssignment | src/wci/frontend/pascal/parsers/LoopStatementParser.java:71-73 | the assignment sub-parser returns a new ASSIGN node, moves the cursor only forward, may append any errors to the log, and is recorded in the trace with those errors |
| Parsing.Parser.ParseExpression | src/wci/frontend/pascal/parsers/LoopStatementParser.java:97-98 | the expression sub-parser returns a new node, moves the cursor only forward, may append any errors to the log, and is recorded in the trace with those errors |
| Parsing.Parser.ParseStatement | src/wci/frontend/pascal/parsers/LoopStatementParser.java:138-139 | the statement sub-parser returns a new node, moves the cursor only forward, may append any errors to the log, and is recorded in the trace with those errors |
| Parsing.ExpectThenParse | src/wci/frontend/pascal/parsers/WhenStatementParser.java:77-87 | a marker check followed by a sub-parse starting where the check left the cursor; the log grows by the check's flag, then the sub-parser's errors |
| Parsing.Parser.CurrentToken | src/wci/frontend/pascal/parsers/LoopStatementParser.java:75 | currentToken is the token under the cursor, END_OF_FILE once the stream is used up |
| Parsing.SetLineNumber | src/wci/frontend/pascal/parsers/LoopStatementParser.java:89 | setLineNumber gives the node the token's line |
| LoopStatements.LoopFlagsBounded | src/wci/frontend/pascal/parsers/LoopStatementParser.java:80-134 | a LOOP statement flags at most three errors, each MISSING_BAR at one of the BAR checks or MISSING_DO at the DO check, at a token that is not the marker; none iff all three markers are found |
| LoopStatements.DoSet | src/wci/frontend/pascal/parsers/LoopStatementParser.java:33-39 | DO_SET holds exactly DO, the statement-start kinds and the statement-follow kinds |
| LoopStatements.BarSet | src/wci/frontend/pascal/parsers/LoopStatementParser.java:41-47 | BAR_SET holds exactly BAR, the statement-start kinds and the statement-follow kinds |
| LoopStatements.LoopLogParts | src/wci/frontend/pascal/parsers/LoopStatementParser.java:71-139 | the errors a LOOP statement adds are those of its four sub-parses and its own marker flags, no more and no fewer; they are exactly the marker flags when the sub-parsers flag nothing |
| LoopStatements.LoopWellFormed | src/wci/frontend/pascal/parsers/LoopStatementParser.java:75-139 | when both BARs and the DO are where parse looks for them, nothing is flagged and each part starts right after its marker |
| LoopStatements.Parse | src/wci/frontend/pascal/parsers/LoopStatementParser.java:55-142 | LOOP and `(` consumed unchecked, then init, optional `;`, BAR check, condition, BAR check, update, `)` unchecked, DO check, body, each at the cursor the previous step leaves; errors are the init parser's, the first BAR check's, the condition parser's, the second BAR check's, the update parser's, the DO check's and the body parser's, in that order (LoopLog); both assignments get the line of the token after `(`; the result is a new COMPOUND(init, LOOP(TEST(NOT(cond)), body, update)) |
| LoopStatements.ParseParts | src/wci/frontend/pascal/parsers/LoopStatementParser.java:58-139 | the token-consuming steps of parse, with the same cursor, trace and error-log outcome |
| LoopStatements.ParseHead | src/wci/frontend/pascal/parsers/LoopStatementParser.java:58-98 | LOOP, `(`, init, optional `;`, the first BAR check and the condition |
| LoopStatements.ParseTail | src/wci/frontend/pascal/parsers/LoopStatementParser.java:108-139 | the second BAR check, the update, `)`, the DO check and the body |
| LoopStatements.LowerTest | src/wci/frontend/pascal/parsers/LoopStatementParser.java:102-103 | a new TEST node whose only child is a new NOT node whose only child is the condition |
| LoopStatements.LowerLoop | src/wci/frontend/pascal/parsers/LoopStatementParser.java:102-140 | a new LOOP node with children TEST, body, update, in that order |
| LoopStatements.Lower | src/wci/frontend/pascal/parsers/LoopStatementParser.java:64-141 | the COMPOUND tree built from the parts, with both assignments given the target token's line and no line on the new nodes |
| WhenStatements.WhenFlagsBounded | src/wci/frontend/pascal/parsers/WhenStatementParser.java:77-161 | a WHEN statement flags at most three errors, each naming the marker missing at the token flagged; none iff all three markers are found |
| WhenStatements.WhenFlagsOrdered | src/wci/frontend/pascal/parsers/WhenStatementParser.java:77-161 | a missing LESSTHAN0 is flagged first and a missing GREATERTHAN0 last |
| WhenStatements.LtSet | src/wci/frontend/pascal/parsers/WhenStatementParser.java:37-43 | LESSTHAN0_SET holds exactly LESSTHAN0, the statement-start kinds and the statement-follow kinds |
| WhenStatements.EqSet | src/wci/frontend/pascal/parsers/WhenStatementParser.java:45-51 | EQUAL0_SET holds exactly EQUAL0, the statement-start kinds and the statement-follow kinds |
| WhenStatements.GtSet | src/wci/frontend/pascal/parsers/WhenStatementParser.java:53-59 | GREATERTHAN0_SET holds exactly GREATERTHAN0, the statement-start kinds and the statement-follow kinds |
| WhenStatements.WhenLogParts | src/wci/frontend/pascal/parsers/WhenStatementParser.java:73-161 | the errors a WHEN statement adds are those of its four sub-parses and its own marker flags, no more and no fewer; they are exactly the marker flags when the sub-parsers flag nothing |
| WhenStatements.WhenWellFormed | src/wci/frontend/pascal/parsers/WhenStatementParser.java:77-161 | when each marker is where parse looks for it, nothing is flagged and each statement starts right after its marker |
| WhenStatements.Parse | src/wci/frontend/pascal/parsers/WhenStatementParser.java:67-193 | WHEN consumed, then the expression, the LESSTHAN0 check and s1, then twice optional `;`, the noted token, the marker check and the next statement; errors are the expression parser's, the LESSTHAN0 check's, s1's, the EQUAL0 check's, s2's, the GREATERTHAN0 check's and s3's, in that order (WhenLog); the result is the IF chain with one shared expression node and one shared 0 node, lines only on the EQ and GT IF nodes |
| WhenStatements.ParseParts | src/wci/frontend/pascal/parsers/WhenStatementParser.java:70-182 | the token-consuming steps of parse, with the same cursor, trace and error-log outcome and the two noted tokens |
| WhenStatements.ParseHead | src/wci/frontend/pascal/parsers/WhenStatementParser.java:70-87 | WHEN, the expression, the LESSTHAN0 check and the first statement |
| WhenStatements.ParseBranches | src/wci/frontend/pascal/parsers/WhenStatementParser.java:109-182 | the EQUAL0 branch, then the GREATERTHAN0 branch |
| WhenStatements.ParseBranch | src/wci/frontend/pascal/parsers/WhenStatementParser.java:147-161 | optional `;`, the current token noted, the marker check, then the statement after it |
| WhenStatements.NewComparison | src/wci/frontend/pascal/parsers/WhenStatementParser.java:125-130 | a new comparison node whose children are the expression node and the 0 node, in that order |
| WhenStatements.LowerGreater | src/wci/frontend/pascal/parsers/WhenStatementParser.java:163-182 | a new IF with the GT comparison and the third statement, at the noted token's line |
| WhenStatements.LowerEqual | src/wci/frontend/pascal/parsers/WhenStatementParser.java:124-187 | a new IF with the EQ comparison, the second statement and the GT IF, at the noted token's line |
| WhenStatements.Lower | src/wci/frontend/pascal/parsers/WhenStatementParser.java:90-192 | the IF chain built from the parts under one new 0 node of value 0 shared by all three comparisons |

## Left out

- Unicode: `Character.isLetterOrDigit`, `Character.isWhitespace`, `toLowerCase` and `toUpperCase` are modelled on ASCII only. Locale-dependent case mapping is not modelled.
- WordTokens.ClassifyExactly, WordTokens.Classify, WordTokens.ReservedTextLookup: that `valueOf` always finds the constant holds only for ASCII text. In Java, the word `pac\u212Aed` (with KELVIN SIGN, a letter) lower-cases to `packed`, which is in RESERVED_WORDS. Its upper case keeps the KELVIN SIGN, so `valueOf("PAC\u212AED")` throws IllegalArgumentException. A Turkish default locale has a different effect. The no-argument constructor (PascalTokenType.java:49) then lower-cases `I` to a dotless `ı`, so RESERVED_WORDS holds `ıf`, `begın`, `whıle` and so on. A reserved word typed with a lower-case `i` (`if`) is then not in the set and is scanned as IDENTIFIER. The same word typed with `I` (`IF`) is found, and `valueOf` succeeds. On ASCII input nothing throws. The model's `None` result of `ValueOf` stands for that exception, but no ASCII input reaches it.
- The `Source` class and the `PascalToken` base class are not part of this model. The source is the program text with a cursor. Reading past the end yields the EOF sentinel `'\0'`. Line and position tracking, and the token's line and position fields, are left out.
- `synchronize`: its body is not part of this model. It is modelled as the loop that skips tokens whose kind is neither in the set nor END_OF_FILE.
- Parsing.Parser.Synchronize: it flags nothing itself. Any diagnostics the real `synchronize` may issue (such as an unexpected-token error) are left out. So the error logs stated for the LOOP and WHEN parsers (`LoopLog`, `WhenLog`) are exact only for a `synchronize` that reports nothing.
- The assignment, expression and statement sub-parsers: their bodies are not part of this model. The stand-ins return a new node, consume nothing and flag nothing. Their contracts admit any cursor movement forward and any errors appended, which the trace records. The statement parsers' contracts use only those contracts.
- `ICodeFactory`, `ICodeNodeImpl` and the attribute map are not part of this model. A node has a kind, an ordered list of children, a LINE attribute and a VALUE attribute. Parent pointers are not modelled, so the effect of adding the shared WHEN nodes to three parents on their parent field is not captured.
- Order of tree building: both parsers interleave `addChild` with sub-parser calls. The model runs the token-consuming steps first and builds the tree afterwards. The sub-parsers do not touch the statement parser's nodes, so the resulting tree and parser state are the same. The model does not capture the order of the individual node updates.
- The `parse(Token)` parameter: both parsers use it only as a local and start from the parser's current token. The model takes the parser state.
- The error handler's message formatting, and exceptions propagated from callees (`throws Exception`), are left out.
- TokenTypes.ValueOf: `Enum.valueOf` on an arbitrary string is modelled as an explicit table from the 66 names (BAR included) to kinds, with `None` where Java throws. The model proves that it finds every reserved word (`ReservedSpelling`), every special symbol (`SpecialValueOf`) and every literal kind (`LiteralSpelling`) by its constant name, which covers what the word scanner calls it on; the converse (`None` on every string that is not a constant's name) is not proved, as the proof over the whole table is too large for the prover.
- The unused imports of WhenStatementParser are not modelled.
