# graphql-query-complexity, modelled in Dafny

The library computes a cost for a GraphQL request before it is executed.
`GetQueryComplexity` walks every operation of the parsed document:

- A query operation scores its selection set.
- A mutation operation costs 10, plus the children of each top-level payload field.
- A subscription operation costs nothing.

Inside a selection set:

- A field named in the caller's override map costs exactly its override.
- `pageInfo` costs nothing, and `edges` costs what its children cost.
- A field with a `first` or `last` argument is a connection. It costs its
  item count times its children's cost, plus 2.
- Any other field with a selection set costs its children plus 1. A leaf costs 0.
- Fragment spreads and inline fragments cost what their selections cost.

The connection's item count comes from one of two places:

- a literal, read with Go's `strconv.Atoi`;
- a variable, looked up in the caller's variable values.

A missing variable is an error.

The second half of the core is the lexer and the small recursive-descent
parsers the GraphQL document parser is built from:

- type references (`[T!]!`) and their resolution against a schema;
- literal values;
- argument lists;
- input value definitions;
- directive lists;
- the block string algorithm of section 2.9.4 of the June 2018 GraphQL specification.

## Structure

| file | module | models |
|---|---|---|
| `wrappers.dfy` | `Wrappers` | `Option` and `Result` |
| `ast.dfy` | `Ast` | token kinds, locations, type references, values, selections, operations, documents, query errors |
| `blockstring.dfy` | `BlockString` | `internal/common/blockstring.go` |
| `lexer.dfy` | `Lexer` | `internal/common/lexer.go`: the `Lexer` class and the functions that specify its methods |
| `types.dfy` | `Types` | `internal/common/types.go` |
| `literal.dfy` | `Literal` | `internal/common/literal.go` |
| `values.dfy` | `Arguments`, `InputValues` | `internal/common/values.go` (two modules, because argument lists are used by directives and directives by input values) |
| `directives.dfy` | `Directives` | `internal/common/parsedirectives.go` |
| `strconv.dfy` | `Strconv` | the parts of Go's `strconv.Atoi` the connection count relies on |
| `complexity.dfy` | `Complexity` | `complexity.go` |
| `complexity_examples.dfy` | `ComplexityExamples` | the repository's table of complexity tests, each proved as a lemma |

### Imperative code

The Go code that works step by step is imperative Dafny here.

- The lexer is a class whose fields are the scanner position, the current token and the comment buffer.
- Every parser takes that lexer and advances it.
- The block string's dedent loop rewrites an array of lines in place.
- The complexity walk is a pair of loops over selection sets.

### Specifications

Each method is proved equal to a pure function of the old state. For example,
`ParseType` ensures `(r, l.State()) == TypeSpec(l.Inp(), old(l.State()))`. The
properties the source promises are lemmas about those functions.

### Modelling choices

- **Scanner.** Go's `text/scanner` is not modelled as code. The lexer is given the source
  text and a table. Entry `p` of the table is what a `Scan` started at
  character offset `p` reports: the token kind, text, position and end offset,
  or the error. `Init` resets the scanner's mode to Go's default token set, so the
  mode `NewLexer` sets has no effect. The scanner therefore also reports character
  literals and raw strings as token classes of their own (`CharLiteral`, `RawString`),
  and skips `//` and `/* */` comments before a token.
- **Single-character reads.** `Next` and `Peek` work on the source text. `Next` reads the
  character after the one it returns ahead. When that character is a NUL, the scanner's
  error handler raises the syntax error "invalid character NUL" before `Next` returns.
  A NUL inside a `#` comment or a triple-quoted description is therefore a syntax error.
  `Next` also sets the line of the scanner's position to 0 and leaves its column alone.
  `CatchSyntaxError` reads that position, so such an error is reported at line 0 and the
  column of the last token scanned.
- **Panics.** A panic becomes an outcome value:
  - `Syntax(message)` for the lexer's `SyntaxError`;
  - `Panic(message)` for every other panic.
  
  `CatchSyntaxError` turns the first into a `QueryError` and re-raises the second.
- **Stack depth.** The complexity walk recurses once per nesting level. A fragment that
  spreads itself makes the Go code recurse until the stack overflows. The
  model takes the number of available frames as `depth`, and running out of frames yields
  `StackExhausted`. `ScoreDepth` proves that any result other than
  `StackExhausted` does not depend on the number of frames.

## Model

| member | source | states |
|---|---|---|
| BlockString.IndentOf | internal/common/blockstring.go:127-136 | the indentation is the longest prefix of spaces and tabs: every character before it is one, the character at it is not |
| BlockString.LeadingWhitespace | internal/common/blockstring.go:127-136 | the rune loop returns exactly that indentation |
| BlockString.IsBlank | internal/common/blockstring.go:123-125 | a line is blank exactly when every character is a space or a tab (the empty line included) |
| BlockString.BlankIffAllIndent | internal/common/blockstring.go:123-125 | a line is blank exactly when its indentation is its whole length |
| BlockString.Split | internal/common/blockstring.go:71 | splitting on '\n' yields at least one line, no part contains '\n', and joining the parts with '\n' gives back the text |
| BlockString.SplitJoin | internal/common/blockstring.go:71 | splitting a join of break-free lines gives back those lines, so split and join are inverse |
| BlockString.FirstNewline | internal/common/blockstring.go:71 | the index at which the first split happens holds the first '\n' of the text |
| BlockString.MinIndentIsLeast | internal/common/blockstring.go:101-121 | the running minimum is absent exactly when every line seen is blank; otherwise it is the indentation of some non-blank line and no larger than any other |
| BlockString.CommonIndentIsLeast | internal/common/blockstring.go:101-121 | the common indentation ignores the first line and blank lines, is the least indentation of a non-blank later line, and is 0 when there is none |
| BlockString.ZeroIndentIsCommon | internal/common/blockstring.go:110-112 | one unindented non-blank later line makes the common indentation 0 (the early return) |
| BlockString.BlockStringIndentation | internal/common/blockstring.go:101-121 | the loop with its early return computes the common indentation |
| BlockString.DedentLines | internal/common/blockstring.go:75-84 | the in-place loop leaves the first line alone, cuts the indentation from the others and empties lines shorter than it |
| BlockString.DedentKeepsBlankness | internal/common/blockstring.go:73-84 | removing the common indentation never turns a blank line into a non-blank one or the reverse |
| BlockString.DedentIsNormal | internal/common/blockstring.go:73-84 | after dedenting, the common indentation is 0 |
| BlockString.DedentNoBreak | internal/common/blockstring.go:73-84 | dedenting never introduces a line break |
| BlockString.LeadingBlanks | internal/common/blockstring.go:87-91 | the count of leading blank lines is the length of the longest all-blank prefix |
| BlockString.LeadingBlanksUnique | internal/common/blockstring.go:87-91 | any count with that property equals it |
| BlockString.CountLeadingBlanks | internal/common/blockstring.go:87-90 | the counting loop computes it |
| BlockString.TrailingBlanks | internal/common/blockstring.go:92-96 | the count of trailing blank lines is the longest all-blank suffix that leaves the first remaining line in place |
| BlockString.TrailingBlanksUnique | internal/common/blockstring.go:92-96 | any count with that property equals it |
| BlockString.CountTrailingBlanks | internal/common/blockstring.go:92-95 | the counting loop over the lines left after trimming the start computes it |
| BlockString.TrimBetween | internal/common/blockstring.go:86-96 | the two slicing steps keep the lines between the two counts |
| BlockString.TrimKeepsNonBlankCore | internal/common/blockstring.go:86-96 | trimming leaves nothing exactly when every line is blank, otherwise starts and ends on a non-blank line, and keeps a contiguous run of the lines |
| BlockString.TrimLines | internal/common/blockstring.go:86-96 | the procedure over the line array keeps the lines between the leading and the trailing blank lines |
| BlockString.NormalizeShape | internal/common/blockstring.go:73-96 | dedenting then trimming keeps a contiguous run of the lines, the first with its text and the others with exactly the common indentation removed |
| BlockString.NormalizeEnds | internal/common/blockstring.go:73-96 | dedenting then trimming leaves nothing exactly when every line is blank, and otherwise starts and ends on a non-blank line |
| BlockString.NormalizeNoBreak | internal/common/blockstring.go:73-96 | lines without a line break stay without one |
| BlockString.BlockLinesShape | internal/common/blockstring.go:70-96 | the output lines are a contiguous run of the dedented input lines, never more lines than the input |
| BlockString.BlockLinesHaveNoBreak | internal/common/blockstring.go:70-96 | no output line contains a line break |
| BlockString.JoinEmpty | internal/common/blockstring.go:98 | joining lines whose first line is non-empty gives "" exactly when there are no lines |
| BlockString.BlockStringEmpty | internal/common/blockstring.go:70-99 | the block string value is empty exactly when every raw line is blank |
| BlockString.BlockStringSplits | internal/common/blockstring.go:70-99 | a non-empty value splits back into the trimmed dedented lines, whose first and last lines are not blank |
| BlockString.SingleLine | internal/common/blockstring.go:70-99 | a raw value without a line break is kept unchanged, or becomes "" when it is blank |
| BlockString.NewStyleComment | internal/common/lexer_test.go:84-97 | the triple-quoted description of the lexer test, a line break, two lines of text and a line break, has the value "New style comments\nAnother line" |
| BlockString.BlockString | internal/common/blockstring.go:70-99 | the array-based procedure computes the block string value |
| Lexer.Lexer.constructor | internal/common/lexer.go:61-71 | a new lexer starts at offset 0 with no token, an empty comment buffer and the given description mode |
| Lexer.Lexer.NextRune | internal/common/lexer.go:221 | reading a rune returns the character at the offset (EOF at the end) and moves past it, sets the line of the reported position to 0 and keeps its column, changing nothing else; it fails with the NUL syntax error exactly when the character after it is a NUL |
| Lexer.FirstNulFinds | internal/common/lexer.go:221 | the first read in a range that meets a NUL is found, and no read before it meets one |
| Lexer.ScanOnce | internal/common/lexer.go:103 | a scan either moves forward or stops at EOF at the end of the input; a scanner error is a syntax error that changes only the reported position |
| Lexer.Lexer.Scan | internal/common/lexer.go:103 | the method performs that scan on the lexer's fields |
| Lexer.CatchSyntaxError | internal/common/lexer.go:74-88 | no error gives nil; a syntax error becomes "syntax error: " plus its message at the current location; any other panic is re-raised unchanged |
| Lexer.SkipAdvances | internal/common/lexer.go:100-126 | a successful whitespace skip ends past where it started, or at EOF at the end of the input |
| Lexer.SkipStops | internal/common/lexer.go:102-125 | the loop never stops on ',' or '#': commas and comments are insignificant |
| Lexer.WhitespaceForgetsComment | internal/common/lexer.go:101 | the comment collected before the call has no effect: the buffer is reset first |
| Lexer.Lexer.ConsumeWhitespace | internal/common/lexer.go:100-126 | the loop ends in the state `Whitespace` gives, so the properties above hold of it |
| Lexer.LineEnd | internal/common/lexer.go:261-267 | the end of a line is its first '\r' or '\n', or the end of the text |
| Lexer.CommentAppendsLine | internal/common/lexer.go:247-268 | a comment succeeds exactly when none of its reads meets a NUL; then the buffer keeps its old content, gains '\n' if it was non-empty, then exactly the rest of the line minus one leading space; the terminator is consumed and not kept |
| Lexer.NulReportedAtLineZero | internal/common/lexer.go:74-88 | after a comment or a triple-quoted description has read characters, the position is line 0 at the last token's column, so the NUL error they raise is caught as "syntax error: invalid character NUL" at that position |
| Lexer.NulEndsComment | internal/common/lexer.go:253-266 | a comment fails exactly when one of its reads meets a NUL: the failure is the NUL syntax error, raised by the first such read, the offset ends just past that NUL, and the buffer keeps its old content as a prefix |
| Lexer.CommentLoopReads | internal/common/lexer.go:261-267 | the reading loop appends the rest of the line and ends past its terminator, or, when a read meets a NUL first, keeps the text read before it and ends past the NUL |
| Lexer.Lexer.ReadLine | internal/common/lexer.go:261-267 | the loop ends in the outcome, offset and buffer `CommentLoop` gives, so `CommentLoopReads` holds of it |
| Lexer.Lexer.ConsumeComment | internal/common/lexer.go:247-268 | the method ends in the state `Comment` gives; called on anything but '#' it panics |
| Lexer.QuoteLoop | internal/common/lexer.go:220-231 | the reading loop stops only after three quotes in a row or at the end of the input |
| Lexer.QuoteBodyClosed | internal/common/lexer.go:220-233 | when the loop finds the closing quotes, the body read is exactly the source up to the first run of three quotes, with no earlier run of three |
| Lexer.QuoteBodyOpen | internal/common/lexer.go:220-233 | without closing quotes, the body is the rest of the source followed by the replacement character the EOF rune is written as |
| Lexer.Lexer.ReadQuoted | internal/common/lexer.go:218-231 | the loop over the lexer reads what the reading loop specifies; it fails with the NUL syntax error exactly when one of those reads meets a NUL, ending just past the first one |
| Lexer.TripleQuoteReads | internal/common/lexer.go:212-235 | a triple-quoted description succeeds exactly when the third quote is there and no read meets a NUL (otherwise, with the third quote there, the failure is the NUL syntax error), and its value is the block string value of the raw body; when closing quotes are found the body is exactly the source between the opening and the first run of three quotes, which contains no earlier run; otherwise it is the rest of the source plus the replacement character and the whole input is consumed |
| Lexer.Lexer.ConsumeTripleQuoteComment | internal/common/lexer.go:212-235 | the method ends in the state `TripleQuote` gives |
| Lexer.Description | internal/common/lexer.go:135-149 | a token that is not a string is not consumed and the description is "" |
| Lexer.DescriptionReads | internal/common/lexer.go:135-149 | a string token is read as a description: the block string value of the raw body when a third quote follows, otherwise the token's unquoted text, a panic when it has none; the whitespace and comments after it are then consumed with a fresh buffer, and their failure is the description's failure |
| Lexer.Lexer.ConsumeDescription | internal/common/lexer.go:135-149 | the method ends in the state `Description` gives |
| Lexer.DescCommentOf | internal/common/lexer.go:190-197 | the result is the comment buffer as it was on entry, or the string description in string-description mode; the description is consumed in both modes and its failure is the result's failure |
| Lexer.Lexer.DescComment | internal/common/lexer.go:190-197 | the method ends in the state `DescCommentOf` gives |
| Lexer.TokenConsumed | internal/common/lexer.go:182-187 | the wrong token is a syntax error "unexpected …, expecting …" that consumes nothing; the right one is consumed and the input shrinks |
| Lexer.Lexer.ConsumeToken | internal/common/lexer.go:182-187 | the method ends in the state `TokenConsumed` gives |
| Lexer.KeywordConsumed | internal/common/lexer.go:167-172 | anything but an identifier with the keyword's text is a syntax error quoting the keyword; success consumes the keyword |
| Lexer.Lexer.ConsumeKeyword | internal/common/lexer.go:167-172 | the method ends in the state `KeywordConsumed` gives |
| Lexer.IdentConsumed | internal/common/lexer.go:152-156 | an identifier token yields its text and is consumed; any other token is the error expecting Ident |
| Lexer.Lexer.ConsumeIdent | internal/common/lexer.go:152-156 | the method ends in the state `IdentConsumed` gives |
| Lexer.IdentWithLocConsumed | internal/common/lexer.go:159-164 | the same, with the token's position attached |
| Lexer.Lexer.ConsumeIdentWithLoc | internal/common/lexer.go:159-164 | the method ends in the state `IdentWithLocConsumed` gives |
| Lexer.LiteralConsumed | internal/common/lexer.go:175-179 | any token becomes a primitive value of its kind and text, without a location, and is consumed |
| Lexer.Lexer.ConsumeLiteral | internal/common/lexer.go:175-179 | the method ends in the state `LiteralConsumed` gives |
| Types.TypeSpec | internal/common/types.go:39-46 | a parsed type is built only from names, lists and non-null wrappers, never non-null directly inside non-null, and it consumes input |
| Types.NullTypeSpec | internal/common/types.go:48-57 | a nullable type is never a non-null wrapper |
| Types.NonNullWrapsWhatPrecedes | internal/common/types.go:39-46 | a trailing '!' wraps the type before it in a non-null wrapper; without '!' the result is that type |
| Types.TypeNeedsNameOrList | internal/common/types.go:48-57 | anything but '[' or a name is the error expecting Ident |
| Types.ListNeedsClosingBracket | internal/common/types.go:49-53 | a list type whose element type is not followed by ']' is the error expecting "]" |
| Types.ParseType | internal/common/types.go:39-46 | the method ends in the state `TypeSpec` gives |
| Types.NullTypeResult | internal/common/types.go:48-57 | after '[', a nullable type is a list of exactly the type parsed inside the brackets and ends after the ']'; otherwise it is the type name of the identifier found, at that identifier's position |
| Types.ParseNullType | internal/common/types.go:48-57 | the method ends in the state `NullTypeSpec` gives, so `NullTypeResult` holds of it |
| Types.Core | internal/common/types.go:73-99 | unwrapping lists and non-null wrappers reaches a type that is neither |
| Types.WrappersAroundCore | internal/common/types.go:73-99 | a type is its wrappers put back around its core |
| Types.ResolveKeepsWrappers | internal/common/types.go:73-99 | resolution fails exactly when the core is a name the resolver does not know, reporting that name at its location; otherwise the wrappers are kept and the core is replaced by what the resolver returns |
| Literal.LiteralSpec | internal/common/literal.go:40-89 | a parsed value carries the position where it started and consumes input |
| Literal.FirstTokenDecides | internal/common/literal.go:40-89 | '$' in constant mode is "variable not allowed"; a token no value starts with is "invalid value"; `null` is the null value; other scalar tokens keep their kind and text; '-' prefixes the next literal's text; '$' names the identifier after it; '[' and '{' hold what their loops read; each value is located at its first token; only '$' yields a variable |
| Literal.ConstHasNoVariables | internal/common/literal.go:43-47 | in constant mode no variable occurs anywhere in the value, however deeply nested |
| Literal.ItemsSpec | internal/common/literal.go:67-69 | the list loop stops only at ']' |
| Literal.ItemsHaveNoVariables | internal/common/literal.go:64-71 | in constant mode every list item is variable-free |
| Literal.ItemsAppend | internal/common/literal.go:66-69 | the items already collected come first, unchanged, before the items the loop reads |
| Literal.ItemsUnfold | internal/common/literal.go:67-69 | one loop iteration appends the value just parsed |
| Literal.ParseItems | internal/common/literal.go:64-71 | the loop computes `ItemsSpec` |
| Literal.FieldsSpec | internal/common/literal.go:76-81 | the object loop stops only at '}' |
| Literal.FieldsAppend | internal/common/literal.go:74-82 | the fields already collected come first, unchanged, before the fields the loop reads |
| Literal.FieldsUnfold | internal/common/literal.go:76-81 | one loop iteration appends `name: value`, with the name at its identifier's position; a missing name, ':' or value is that step's error |
| Literal.FieldsHaveNoVariables | internal/common/literal.go:73-83 | in constant mode every field value is variable-free |
| Literal.ParseFields | internal/common/literal.go:73-83 | the loop computes `FieldsSpec`, so `FieldsUnfold` and `FieldsAppend` hold of it |
| Literal.ParseLiteral | internal/common/literal.go:40-89 | the method ends in the state `LiteralSpec` gives |
| Arguments.ArgumentListSpec | internal/common/values.go:55-69 | a parsed argument list consumes input |
| Arguments.ListNeedsParenthesis | internal/common/values.go:57 | anything but '(' is the error expecting "(" and consumes nothing |
| Arguments.ArgumentListReads | internal/common/values.go:55-69 | a parsed argument list is exactly what the pair loop reads after the '(', and it ends after the ')' that stops the loop |
| Arguments.EmptyArgumentList | internal/common/values.go:55-69 | `()` is the empty list |
| Arguments.ArgsSpec | internal/common/values.go:58-66 | the loop stops only at ')' |
| Arguments.ArgsAppend | internal/common/values.go:58-66 | arguments already collected come first, unchanged |
| Arguments.ArgsUnfold | internal/common/values.go:58-66 | one iteration appends `name: value` |
| Arguments.ParseArgumentList | internal/common/values.go:55-69 | the method ends in the state `ArgumentListSpec` gives |
| InputValues.DefinitionShape | internal/common/values.go:38-52 | a parsed definition is located before its description and carries that description, the name after it, the type parsed after the ':' and located at the token after the ':', the default value read after that (free of variables) and the directives read after that, and it ends where those directives end |
| InputValues.DefaultIffEquals | internal/common/values.go:46-49 | there is no default, and nothing is consumed, exactly when the next token is not '='; after '=', the default is the constant literal parsed after it, ending where that literal ends; a default holds no variable |
| InputValues.ParseInputValue | internal/common/values.go:38-52 | the method ends in the state `InputValueSpec` gives, so `DefinitionShape` holds of it |
| Directives.DirectiveSpec | internal/common/parsedirectives.go:39-45 | a directive's name is the identifier after '@', its column moved back by one onto the '@' |
| Directives.ArgumentsOnlyAfterParenthesis | internal/common/parsedirectives.go:43-45 | a directive has arguments only when '(' follows its name; otherwise nothing more is consumed |
| Directives.DirectivesSpec | internal/common/parsedirectives.go:36-49 | the loop stops only at a token other than '@' |
| Directives.NoDirectives | internal/common/parsedirectives.go:36-49 | without '@' the list is empty and nothing is consumed |
| Directives.DirectivesAppend | internal/common/parsedirectives.go:38-47 | directives already collected come first, unchanged |
| Directives.DirectivesUnfold | internal/common/parsedirectives.go:38-47 | one iteration appends the directive just parsed |
| Directives.ParseDirective | internal/common/parsedirectives.go:39-46 | the loop body computes `DirectiveSpec` |
| Directives.ParseDirectives | internal/common/parsedirectives.go:36-49 | the method ends in the state `DirectivesSpec` gives |
| Strconv.Atoi | complexity.go:168 | the count read from a literal is always a 64-bit value |
| Strconv.AtoiReadsDecimal | complexity.go:168 | the decimal form of a 64-bit value, with or without '-', reads back as that value |
| Strconv.AtoiWithoutDigits | complexity.go:168 | text with no digit in it (an enum, a string) counts 0, as the ignored error leaves it |
| Strconv.AtoiClamps | complexity.go:168 | digits beyond the 64-bit range read as the largest or smallest 64-bit value |
| Complexity.FirstCountArg | complexity.go:163-191 | the position found is the first `first` or `last` argument, and there is none when it is absent |
| Complexity.ConnectionIffCountArg | complexity.go:197-204 | a field is a connection exactly when some argument is `first` or `last` |
| Complexity.CountFromFirstCountArg | complexity.go:161-193 | the item count is read from the first `first`/`last` argument only, and is 0 without one |
| Complexity.ConnectionCost | complexity.go:100 | a connection costs at least 2 for a non-negative count and children, and exactly 2 for 0 items |
| Complexity.ConnectionCostMonotone | complexity.go:100 | asking for more items never lowers the cost |
| Complexity.Wrap64 | complexity.go:100 | two's-complement wrap-around stays in the 64-bit range and keeps every value already in it |
| Complexity.ConnectionCostOverflows | complexity.go:100 | with 64-bit arithmetic the largest count makes the cost negative and lower than an empty connection's |
| Complexity.ConnectionCostAgreesInRange | complexity.go:100 | where nothing overflows, the 64-bit cost is the unbounded cost |
| Complexity.FieldRules | complexity.go:78-109 | a field costs its override if it has one; else `pageInfo` 0; else `edges` its children; else a connection count × children + 2 (children's error first, then the count's); else children + 1 with a selection set and 0 without |
| Complexity.FragmentRules | complexity.go:110-124 | a known spread costs its fragment's selections, an unknown one 0; an inline fragment costs its selections whatever its type condition and directives |
| Complexity.ScoreConcat | complexity.go:76-127 | the score of a selection set is additive over concatenation; the first error wins |
| Complexity.ScoreSingle | complexity.go:76-127 | a single selection scores its own contribution |
| Complexity.ScoreDepth | complexity.go:73-128 | a score that did not run out of frames is the same with more frames |
| Complexity.CalculateSelectionComplexity | complexity.go:73-128 | the loop over the selections computes `Score` |
| Complexity.SelectionComplexity | complexity.go:77-125 | the switch on one selection computes `Contribution` |
| Complexity.MutationSkipsNonFields | complexity.go:134-156 | top-level fragments and fields without children add nothing to a mutation |
| Complexity.ChildIgnoresFieldItself | complexity.go:137-153 | a payload child costs its children's score: its own name, arguments, overrides and connection status are ignored |
| Complexity.CalculateMutationComplexity | complexity.go:131-158 | the nested loops compute `MutationScore`: 10 plus each payload child |
| Complexity.PayloadChildComplexity | complexity.go:138-153 | the switch on one payload child computes `ChildCost` |
| Complexity.LastDefinitionWins | complexity.go:39-41 | a fragment name is registered exactly when some fragment has it, mapped to the selections of the last such fragment |
| Complexity.SubscriptionsAddNothing | complexity.go:64-67 | removing a subscription operation from the document changes neither the total nor the error |
| Complexity.GetQueryComplexity | complexity.go:29-70 | the procedure computes `QueryComplexity`: the parse error, or the sum over operations stopping at the first error |
| ComplexityExamples.ConnectionWithFiveItems | complexity_test.go:20-32 | `groups(first: 5)` over `edges { node { … } }` costs 7 |
| ComplexityExamples.ConnectionCountFromVariable | complexity_test.go:33-46 | the same query with `first: $first` and `first = 5` costs 7 |
| ComplexityExamples.NestedFragments | complexity_test.go:47-72 | inline fragments around and inside a connection of 100 items, each item costing 2, cost 203 |
| ComplexityExamples.MissingVariable | complexity_test.go:73-86 | an unsupplied `$first` is the error "Variable first not defined" |
| ComplexityExamples.MissingVariableNamesArgument | complexity.go:171-173 | the message names the argument, not the variable: `first: $count` without `count` reports "Variable first not defined" |
| ComplexityExamples.FirstConnectionIsZero | complexity_test.go:87-110 | a connection asking for 0 items costs 2 |
| ComplexityExamples.SingleObject | complexity_test.go:111-119 | one object field with scalar children costs 1 |
| ComplexityExamples.MultipleSubconnections | complexity_test.go:120-165 | four nested connections, the innermost asking for 0 items, cost 124 |
| ComplexityExamples.MutationCreate | complexity_test.go:166-194 | the create mutation costs 14 |
| ComplexityExamples.MutationCreateNoParent | complexity_test.go:195-219 | the create mutation with a connection of 3 items costs 15 |
| ComplexityExamples.MutationUpdate | complexity_test.go:220-231 | a mutation whose payload children are leaves costs 10 |
| ComplexityExamples.FragmentOnConnection | complexity_test.go:232-257 | a connection of 5 over a fragment with one object costs 12 |
| ComplexityExamples.MultipleFragments | complexity_test.go:258-287 | a connection of 5 over two fragments costing 0 and 2 costs 12 |
| ComplexityExamples.FragmentWithSubconnection | complexity_test.go:288-321 | a connection inside a fragment is charged where the fragment is spread: 22 |
| ComplexityExamples.Override | complexity_test.go:322-339 | with `node` overridden to 2, whatever is below it, a connection of 2 over it costs 2 × 2 + 2 = 6 |
| ComplexityExamples.OverrideConnection | complexity_test.go:340-357 | an override replaces a connection's whole cost: 4 |
| ComplexityExamples.MutationWithFragment | complexity_test.go:358-384 | a spread inside a mutation payload adds its fragment's score: 12 |
| ComplexityExamples.UnknownFragment | complexity.go:110-118 | spreading an undefined fragment costs nothing, so the connection over it costs 2 |
| ComplexityExamples.SubscriptionAddsNothing | complexity.go:64-67 | a subscription next to a query leaves the query's cost of 7 |
| ComplexityExamples.ParseErrorScoresNothing | complexity.go:34-37 | a document that did not parse yields its parse error |
| ComplexityExamples.HugeFirst | complexity.go:100 | with `first = 9223372036854775807` the unbounded model charges 9223372036854775809, where 64-bit arithmetic yields a negative cost |

## Left out

- Go's `text/scanner` is not part of this model. Its token stream is an input, a table of scan results per offset. It is required only to move forward and to stop at the end of the input.
- `strconv.Unquote` is not part of this model. Its result for each string token is carried in the scan table.
- `query.Parse`, the document parser, is not part of this model. `QueryComplexity` takes its result, a document or a `QueryError`.
- `Lexer.KeywordConsumed`, `Lexer.TokenConsumed`: Go formats the token text in messages with `%q`. The model puts the text between plain double quotes and does not escape it.
- `Complexity.CountOf`: a variable's value is taken already coerced. `json.Number` with an int64 value, and `float32`/`float64` truncated, become `Some(n)`. Every other value becomes `None` and counts 0. The conversion of out-of-range floats to `int` is not modelled.
- `Complexity.Score`: the running sums are unbounded integers. Only the connection formula is also modelled with 64-bit wrap-around (`ConnectionCostInt64`). Additions that overflow in Go are not modelled.
- `Complexity.GetQueryComplexity`: a fragment cycle makes the Go code recurse until the stack overflows. The model returns `StackExhausted` once the frames given as `depth` are used up.
- Panics and `recover` are not modelled as control flow. A panic is an outcome value that every caller passes up, and `CatchSyntaxError` is the only place that inspects it.
- Go distinguishes a nil slice from an empty one, for directives without arguments and for empty lists. The model has only the empty sequence.
- `QueryError` formatting (`Errorf`) and its rule field are reduced to the message, rule and locations the code sets.
- `InputValues.InputValueSpec`, `InputValues.DefaultSpec`: these functions state only that the lexer stays in range. Their content is stated by `DefinitionShape` and `DefaultIffEquals`.
- `Lexer.Comment`, `Lexer.SkipInsignificant`, `Lexer.Whitespace`, `Lexer.TripleQuote`: these functions state only that the lexer stays in range. Their content is stated by `CommentAppendsLine`, `SkipAdvances`, `SkipStops`, `WhitespaceForgetsComment` and `TripleQuoteReads`.
- `Lexer.Lexer.ConsumeStringComment`: a one-liner with no property of its own. It returns the unquoted token text carried in the scan table, or a panic when there is none. `DescriptionReads` states what a string description yields.
- Invalid UTF-8 and a byte order mark are not modelled: the source is a sequence of characters, so the scanner's errors for them do not arise. Only the NUL error of a single-character read is modelled.
- Peek, SyntaxError and CatchScannerError are one-liners. Peek is the state's `next` field. SyntaxError is the `Syntax` outcome. CatchScannerError is the failure `ScanOnce` returns for a scanner error.

## Findings

| source | as written | input that shows it | evidently intended | confidence | as-written member | corrected member |
|---|---|---|---|---|---|---|
| complexity.go:100 | `(itemCount * c) + connectionComplexity` on Go's 64-bit `int`; `itemCount` is whatever `Atoi` returned, clamped to the int64 range | `query { groups(first: 9223372036854775807) { edges { node { id } } } }`, or the same with `first: $first` and that value: children cost 1, so the cost wraps to -9223372036854775807 | a cost that grows with the count asked for and is never below the cost of an empty connection (2) | not executed | Complexity.ConnectionCostInt64 (shown by Complexity.ConnectionCostOverflows and ComplexityExamples.HugeFirst) | Complexity.ConnectionCost (with Complexity.ConnectionCostMonotone) |
