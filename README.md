# ares, modelled in Dafny

ares is a small Lisp interpreter written in Rust. This project models its core in Dafny and proves properties of that model. The core covers:

- **Values** (`values.dfy`, `prelude.dfy`): the `Value` enum with its equality, clone and `From` conversions, and 64-bit wrapping integer arithmetic.
- **Reader** (`token_kinds.dfy`, `lexer.dfy`, `reader.dfy`, `parse_errors.dfy`):
  - positions, delimiters and character classes;
  - the character-by-character `TokenIter`: whitespace, strings with escapes, numbers and symbols;
  - the reader that turns tokens into values and desugars `[..]` and `{..}`;
  - the parse-error messages.

  Each imperative piece is a class or method, proved against a function over the input text.
- **Old tokenizer** (`old_tokenizer.dfy`): the earlier whitespace-splitting tokenizer, with its `read_from_tokens` queue.
- **Scopes** (`environment.dfy`): environments are frames in an arena, indexed by natural numbers, each with an optional parent.
  - `get`, `is_defined`, `with_value_mut`, `insert_here` and `all_defined` are functions over the arena.
  - Class methods update the arena in place.
- **Procedures** (`procedure.dfy`): parameter binding (`gen_env`), both the current version and the zip-based one in `src/eval.rs`, plus procedure identity.
- **Evaluator** (`eval.dfy`, `eval_laws.dfy`, `context.dfy`):
  - recursive `eval`/`apply` over a heap of frames and `build-list` buffers;
  - the special forms of the standard library (`define`, `set`, `if`, `quote`, `lambda`, `and`, `or`, `xor`, `hash-map`, `build-list`, `foreach`);
  - `eval_str` and `call_named`.

  The `Context` class runs the same evaluation with loops, proved equal to the functions. `eval_laws.dfy` proves the laws the source promises.
- **Explicit-stack machine** (`transformations.dfy`): the three stack transitions of `src/eval/transformations.rs`, over a `Machine` class that holds the stack.
- **Built-ins** (`arithmetic.dfy`, `core.dfy`, `types.dfy`, `option.dfy`, `list.dfy`):
  - integer folds and `concat`, both the current versions and the older panicking ones in `src/stdlib.rs`;
  - `equals`, `lambda` and `quote`;
  - the type predicates, conversions and display;
  - `some`, `none` and `unwrap`;
  - the `build-list` accumulator.
- **Interner and shared slice** (`intern.dfy`, `rc_slice.dfy`): the `SymbolIntern` class, and `RcSlice` as a value (shared data, start, length).

The model stands in for some things the source gets from outside:

- Rust `Rc` pointers are explicit identities, so the source's pointer-equality checks are comparisons of ids.
- Native functions, float parsing, `apply_lambda` and `apply_function` are parameters.
- Rust panics are either `Error.Panic` results or, in the older `src/stdlib.rs`, preconditions.

## Model

| member | source | states |
|---|---|---|
| Prelude.Wrap64 | src/stdlib/arithmetic.rs:26-28 | an `i64` result is the exact value reduced modulo 2^64 into the signed range, and equals the exact value when that fits |
| Prelude.WrapAdd | src/stdlib/arithmetic.rs:26-28 | wrapping after every `+=` of the fold gives the same `i64` as wrapping the exact sum once |
| Prelude.WrapMul | src/stdlib/arithmetic.rs:76-78 | wrapping after every `*=` gives the same `i64` as wrapping the exact product once |
| Prelude.WrapNeg | src/stdlib/arithmetic.rs:36-40 | negating a wrapped value and wrapping equals wrapping the exact negation |
| Prelude.TruncDiv | src/stdlib/arithmetic.rs:84-88 | `i64` division truncates toward zero: the quotient's magnitude is the floor of the magnitudes' quotient and its sign is the product of the signs |
| Prelude.NatToString | src/stdlib/types.rs:116 | decimal text of a natural number: non-empty, all digits, no leading zero |
| Prelude.NatToStringRoundTrip | src/stdlib/types.rs:116 | reading the decimal text back gives the number |
| Prelude.IntToString | src/stdlib/types.rs:116 | `format!("{}", i)`: non-empty, starting with `-` exactly for negative numbers |
| Prelude.ParseI64 | src/parse/mod.rs:17 | `str::parse::<i64>` accepts only non-empty text made of an optional sign and then decimal digits |
| Prelude.ParseI64OfIntToString | src/parse/mod.rs:17 | parsing the display text of any `i64` gives that `i64` back |
| Values.ArityError | src/eval/procedure.rs:38-41 | an arity error carries the count cast `as u16`, i.e. the count modulo 2^16 |
| Values.FloatEqFacts | src/lib.rs:118 | float equality is IEEE: symmetric, false for NaN even against itself, true for 0.0 and -0.0 |
| Values.EqualityByVariant | src/lib.rs:110-128 | values of different variants are unequal; strings, identifiers, integers and booleans are equal exactly when their contents are |
| Values.ValueEqSymmetric | src/lib.rs:110-128 | value equality is symmetric |
| Values.ValueEqReflexive | src/lib.rs:110-128 | a value equals itself exactly when no NaN is inside it |
| Values.ValueEqIsStructuralOnPlainData | src/lib.rs:110-128 | on data without functions or floats, `==` is structural equality |
| Values.NewValuesEqualByContent | src/lib.rs:54-62 | `new_string`/`new_ident` values are equal exactly when built from equal text, a string never equals an identifier, and `new_list` wraps its vector |
| Values.CloneEqualsOriginal | src/lib.rs:65-78 | a clone equals the original in both directions unless it holds a NaN |
| Values.FromU64 | src/lib.rs:86 | `u64 as i64` keeps values below 2^63 and maps larger ones to `x - 2^64` |
| Values.FromVec | src/lib.rs:96-100 | `From<Vec<T>>` builds a list of the same length whose elements are the converted elements in order |
| Values.FromVecOfValues | src/lib.rs:96-100 | converting a vector of values is the list of those values |
| Arithmetic.FirstNonInt | src/stdlib/arithmetic.rs:8-16 | the index the fold stops at: the first argument that is not an integer, absent exactly when all are integers |
| Arithmetic.AddInts | src/stdlib/arithmetic.rs:26-28 | the loop of `add_ints` computes `AddIntsResult`: the wrapped sum, or the type error of the first non-integer |
| Arithmetic.MulInts | src/stdlib/arithmetic.rs:76-78 | the loop of `mul_ints` computes `MulIntsResult`: the wrapped product, or the first type error |
| Arithmetic.AddIntsResult | src/stdlib/arithmetic.rs:8-28 | `add` succeeds exactly when all arguments are integers, with their sum wrapped to `i64`; otherwise it is the type error of the first non-integer |
| Arithmetic.MulIntsResult | src/stdlib/arithmetic.rs:8-16 | `mul` succeeds exactly when all arguments are integers, with their product wrapped to `i64`; otherwise it is the type error of the first non-integer |
| Arithmetic.AddMulExact | src/stdlib/arithmetic.rs:26-28 | with no arguments `add` gives 0 and `mul` gives 1; on integers whose sum or product fits `i64` the result is the exact sum or product |
| Arithmetic.FirstNonIntAppend | src/stdlib/arithmetic.rs:8-16 | arguments after the first non-integer do not move where the fold stops |
| Arithmetic.FoldStopsAtFirstNonInt | src/stdlib/arithmetic.rs:8-16 | arguments after the first non-integer never change the result, which is a type error naming that argument |
| Arithmetic.SubFlagNeverCleared | src/stdlib/arithmetic.rs:34-43 | the `first` flag of `sub_ints` stays set, so every step after the second negates the accumulator again |
| Arithmetic.SubIntsAsWritten | src/stdlib/arithmetic.rs:34-53 | the loop of `sub_ints` as written computes `SubIntsAsWrittenResult`, including the arity error for no arguments |
| Arithmetic.SubFoldSubtractsRest | src/stdlib/arithmetic.rs:34-53 | the corrected subtraction of two or more integers is the first minus the sum of the rest, wrapped |
| Arithmetic.SubIntsResult | src/stdlib/arithmetic.rs:34-53 | the corrected `-`: a non-integer is the type error of the first one, no argument is an arity error, one argument is negated, and more give the first minus the sum of the rest, wrapped |
| Arithmetic.SubIntsAgreeUpToTwo | src/stdlib/arithmetic.rs:34-53 | with one or two arguments the code as written and the corrected fold agree (negation, and difference) |
| Arithmetic.SubIntsDiffersOnThree | src/stdlib/arithmetic.rs:34-53 | `(- 10 3 2)` gives -9 as written and 5 when corrected |
| Arithmetic.QuotientInRange | src/stdlib/arithmetic.rs:87 | outside the two panicking cases, the truncated quotient of two `i64` is an `i64` |
| Arithmetic.DivStep | src/stdlib/arithmetic.rs:87 | one `/=` succeeds exactly when the divisor is not zero and the pair is not `i64::MIN / -1`, and then gives the truncated quotient |
| Arithmetic.DivErrorSticks | src/stdlib/arithmetic.rs:84-100 | once a division has panicked, later arguments do not change the outcome |
| Arithmetic.DivInts | src/stdlib/arithmetic.rs:84-100 | the loop of `div_ints` computes `DivIntsResult` |
| Arithmetic.DivIntsResult | src/stdlib/arithmetic.rs:84-100 | `/` of no argument is an arity error; on integers it divides the first by each later one in turn, with the panics of a zero divisor and of `i64::MIN / -1` |
| Arithmetic.DivIntsOfInts | src/stdlib/arithmetic.rs:84-100 | on integers, `div_ints` divides the first argument by each later one in turn, left to right |
| Arithmetic.DivIntsFacts | src/stdlib/arithmetic.rs:84-100 | one argument is returned unchanged, two give the truncated quotient, a zero divisor panics whatever follows, and no argument is an arity error |
| Arithmetic.FirstNonString | src/stdlib/arithmetic.rs:108-116 | `concat` stops at the first argument that is not a string, absent exactly when all are strings |
| Arithmetic.Concat | src/stdlib/arithmetic.rs:106-120 | the loop of `concat` computes `ConcatResult`: the joined text, or the type error of the first non-string |
| Arithmetic.ConcatResult | src/stdlib/arithmetic.rs:106-120 | `concat` succeeds exactly when all arguments are strings, with their texts joined in order; otherwise it is the type error of the first non-string |
| Arithmetic.JoinedAppend | src/stdlib/arithmetic.rs:106-120 | the joined text of two argument runs is the concatenation of their joined texts |
| OldStdlib.AddInts | src/stdlib.rs:24-26 | the panicking `add_ints` returns the wrapped sum of its integer arguments |
| OldStdlib.MulInts | src/stdlib.rs:58-60 | the panicking `mul_ints` returns the wrapped product |
| OldStdlib.SubInts | src/stdlib.rs:32-43 | the panicking `sub_ints` computes the same fold as the later version, with its never-cleared flag |
| OldStdlib.DivInts | src/stdlib.rs:66-74 | the panicking `div_ints` divides the first argument by each later one |
| OldStdlib.Concat | src/stdlib.rs:80-91 | the panicking `concat` joins its string arguments in order |
| Reader.UnquoteQuoted | src/parse/util.rs:4-18 | `(quote x)` is an immediate value and unquoting it gives `x` |
| Reader.HashKeysAreImmediate | src/parse/util.rs:4-29 | every value accepted as a map key is immediate, and unquotes to neither a map nor a list |
| Reader.NumberValueOfIntText | src/parse/mod.rs:17-19 | a number token holding the display text of an `i64` reads as that integer |
| Reader.SymbolValue | src/parse/mod.rs:20-21 | `true` and `false` read as booleans, every other symbol as an identifier of its text |
| Reader.Evens | src/parse/mod.rs:47 | the keys of a map literal: the elements at even positions, in order |
| Reader.Odds | src/parse/mod.rs:47 | the values of a map literal: the elements at odd positions, in order |
| Reader.MapOfPairs | src/parse/mod.rs:49-50 | the map collected from key/value pairs has exactly the keys given, each bound to one of the values given |
| Reader.MapOfPairsLastWins | src/parse/mod.rs:49-50 | when a key repeats, the map keeps the value paired with its last occurrence |
| Reader.UnquoteAll | src/parse/mod.rs:36 | unquoting every element of a `[..]` literal keeps the length and unquotes element by element |
| Reader.ImmediateValue | src/parse/util.rs:4-11 | an immediate value is never an identifier, and an immediate list is a two-element list headed by `quote` |
| Reader.Unquote | src/parse/util.rs:13-18 | non-lists are kept, and a `(quote x)` list unquotes to `x` |
| Reader.CanBeHashKey | src/parse/util.rs:20-29 | a hash key is immediate and unquotes to neither a map nor a list |
| Reader.NumberValue | src/parse/mod.rs:17-19 | a number token gives an integer when its text parses as `i64`, otherwise a float, and a text that parses as neither is a conversion error with the text and `invalid float literal` |
| Reader.BracketValue | src/parse/mod.rs:35-41 | `[..]` of immediate values is `(quote (..))` of the unquoted values, element by element; otherwise `(list ..)` of the values |
| Reader.BraceValue | src/parse/mod.rs:42-58 | `{..}` is an invalid map literal at the opener exactly when it has an odd count, or all entries are immediate and some key cannot be a hash key; all-immediate entries otherwise give a map; anything else gives `(hash-map ..)` |
| Reader.DesugarKeepsReadData | src/parse/mod.rs:35-58 | `[..]` and `{..}` desugaring only produces data the reader can produce (lists, maps, atoms) from such data |
| Reader.FormValueReadData | src/parse/mod.rs:23-29 | a quote form reads as `(quote)` or `(quote v)` and is reader data |
| Reader.ParseOneExprF | src/parse/mod.rs:65-71 | no token left reads as nothing; a lexer error is that error; a closer where an expression should start is an extra right delimiter at the closer's position; a value read is reader data and consumed input |
| Reader.OneExprF | src/parse/mod.rs:13-62 | a closer is an extra right delimiter at its position; a reader macro wraps the next expression or passes on its error; an opener reads its group, an error in it being the result, and `(..)` gives the list, `[..]` the bracket desugaring and `{..}` the brace desugaring at the opener's position; any value is reader data |
| Reader.ParseDelimitedF | src/parse/mod.rs:73-91 | running out of tokens is a missing right delimiter naming the expected closer; the right closer ends the group with the elements read so far; a wrong closer is an extra right delimiter naming the EXPECTED closer at the wrong one's position; elements extend those read before |
| Reader.ParseAllF | src/parse/mod.rs:93-100 | reading stops at the first error and returns it; with no token left the values read so far are the result; the next value read is the next element of the result, so values come in source order |
| Reader.ParseBlank | src/parse/mod.rs:93-100 | a program of whitespace reads as no values |
| Reader.ParseOneExpr | src/parse/mod.rs:65-71 | the imperative reader over a `TokenIter` returns and advances exactly as `ParseOneExprF` |
| Reader.OneExpr | src/parse/mod.rs:13-62 | the imperative `one_expr` agrees with `OneExprF` on result and position |
| Reader.ParseDelimited | src/parse/mod.rs:73-91 | the imperative loop of `parse_delimited` agrees with `ParseDelimitedF` |
| Reader.Parse | src/parse/mod.rs:93-100 | `parse` gives `ParseF` of its input, so every value it returns is reader data |
| Reader.ParseF | src/parse/mod.rs:93-100 | an error in the first expression is the result, input with no token reads as no values, the first value read comes first, and every value of a successfully read program is reader data |
| ReaderLaws.ParseAllShift | src/parse/mod.rs:93-100 | reading after some values already read gives those values followed by what reading from scratch gives, and the same error |
| ReaderLaws.DelimitedLikeTopLevel | src/parse/mod.rs:73-100 | a group reads as top-level reading would: complete forms up to the end make it missing its closer, other errors are the same error, and a closer reported extra at top level closes the group or is reported extra naming the expected closer |
| ReaderLaws.BraceLastWins | src/parse/mod.rs:47-50 | in a `{..}` map literal each key is bound to the value written after its last occurrence |
| ReaderLaws.DelimitedNext | src/parse/mod.rs:76-86 | inside a group, a token other than a closer starts the next element; its error ends the group |
| ReaderLaws.DelimitedSymbol | src/parse/mod.rs:20-21 | inside a group, a symbol other than `true`/`false` adds its identifier and reading goes on after it |
| ReaderLaws.DelimitedClose | src/parse/mod.rs:80-81 | inside a group, its own closer ends the group with the elements read so far |
| ReaderLaws.GroupErrorStopsParse | src/parse/mod.rs:93-100 | an error inside a group makes the whole program fail with that error |
| ReaderLaws.TopLevelSymbol | src/parse/mod.rs:93-100 | at top level a symbol adds its identifier and reading goes on after it |
| ReaderLaws.TopLevelGroup | src/parse/mod.rs:93-100 | at top level a `(..)` group that reads adds its list and reading goes on after it |
| ReaderLaws.TwoSymbolsInOrder | src/parse/mod.rs:93-100 | `x y` reads as the identifiers `x` then `y`, in source order |
| ReaderLaws.LoneCloserIsExtra | src/parse/mod.rs:30 | `)` alone is an extra right delimiter at line 1, column 1 |
| ReaderLaws.WrongCloserNamesExpected | src/parse/mod.rs:80-84 | `(x]` is an extra right delimiter naming `)`, the closer expected, at the position of `]` |
| ReaderLaws.UnclosedGroupIsMissing | tests/tokenization.rs:29 | `(x y(` is a missing right delimiter `)`, printed `Missing right delimiter )` |
| ReaderLaws.ExtraCloserStopsReading | tests/tokenization.rs:30 | `(x y) ()) z` stops at the extra `)`, printed `Extra right delimiter ) at line 1, column 9`, and `z` is never read |
| ReaderLaws.QuotedCloserIsExtra | tests/tokenization.rs:82 | `(foo ')` is an extra right delimiter, printed `Extra right delimiter ) at line 1, column 7` |
| ReaderLaws.QuoteAtEndIsMissing | tests/tokenization.rs:83 | `(foo '` is a missing right delimiter, printed `Missing right delimiter )` |
| ReaderLaws.ExtraMessage | src/parse/errors.rs:32-34 | an extra `)` at a one-digit line and column prints as `Extra right delimiter ) at line L, column C` |
| ReaderSamples.BadEscapeMessage | src/parse/errors.rs:30-31 | a bad escape at a one-digit line and column prints as `Invalid escape sequence starting at line L, column C: ` followed by the escape's text |
| ReaderSamples.UnterminatedMessage | src/parse/errors.rs:25-26 | an unterminated string at a one-digit line and column prints as `Unterminated string beginning at line L, column C` |
| ReaderSamples.DelimitedTokenError | src/parse/mod.rs:76-79 | inside a group, a token the lexer rejects ends the group with the lexer's error |
| ReaderSamples.DelimitedList | src/parse/mod.rs:31-34 | inside a group, a `(..)` group that reads adds its list and reading goes on after its closer |
| ReaderSamples.DelimitedInnerError | src/parse/mod.rs:76-86 | inside a group, an inner group's error ends the outer group with that error |
| ReaderSamples.DelimitedInt | src/parse/mod.rs:17-19 | inside a group, a number token that reads as an `i64` adds that integer and reading goes on after it |
| ReaderSamples.DelimitedBadNumber | src/parse/mod.rs:17-19 | inside a group, a number token that is neither an `i64` nor an accepted float ends the group with `Could not convert` of its text |
| ReaderSamples.NotAnInt | src/parse/mod.rs:17 | text with a digit first and a non-digit later is not an `i64` |
| ReaderSamples.BadHexEscapeIsReported | tests/tokenization.rs:48 | `"\x99"` is a bad escape at the backslash, printed `Invalid escape sequence starting at line 1, column 2: \x9` |
| ReaderSamples.BackslashAtEndIsUnterminated | tests/tokenization.rs:40 | `x "\` is an unterminated string, printed `Unterminated string beginning at line 1, column 3` |
| ReaderSamples.NumberThenLetterIsUnexpected | tests/tokenization.rs:67 | `(+ 3z)` is an unexpected `z`, printed `Unexpected character z at line 1, column 5, while parsing a number starting at line 1, column 4` |
| ReaderSamples.StringThenLetterIsUnexpected | tests/tokenization.rs:51 | `(->int "10"x 5)` is an unexpected `x`, printed `Unexpected character x at line 1, column 12, while parsing a string starting at line 1, column 8` |
| ReaderSamples.UnparsableNumberIsConversionError | tests/tokenization.rs:57 | when the float parser rejects `32.e.`, `(+ 3 32.e.)` is a conversion error, printed `Could not convert 32.e.: invalid float literal` |
| ReaderSamples.CloserStringLeavesGroupsOpen | tests/tokenization.rs:31 | closers inside a string close nothing: `(x (y (z) "())))))"` is a missing right delimiter, printed `Missing right delimiter )` |
| ReaderSamples.NewlineEscapeDecodes | tests/tokenization.rs:46 | `"fo\no"` reads as the one string `fo`, newline, `o` |
| ReaderSamples.QuoteByHexDecodes | tests/tokenization.rs:44 | `"\x22"` reads as the one string made of a double quote |
| Lexer.RunEnd | src/parse/tokens.rs:203-217 | `take_until` stops at the first character of the stop class: every character before the end is in the run, the one at the end is not |
| Lexer.SkipWs | src/parse/tokens.rs:219-223 | `skip_ws` passes exactly the maximal run of whitespace |
| Lexer.HexText | src/parse/tokens.rs:225-248 | hexadecimal text of a number: non-empty and made of hex digits |
| Lexer.HexTextRoundTrip | src/parse/tokens.rs:238-242 | reading hexadecimal text back with the intended digit values gives the number |
| Lexer.XEscapeLetterMisread | src/parse/tokens.rs:263-266 | as written, `\x0a` decodes to `'1'` (the letter's value is taken as `c - '0'`), where the intended reading is a newline |
| Lexer.XEscapeValueAsWritten | src/parse/tokens.rs:263-266 | the `\x` value as written equals the intended hexadecimal value exactly when the second digit is decimal |
| Lexer.XEscapeValue | src/parse/tokens.rs:257-268 | the corrected `\x` value is the two-digit hexadecimal value and always below 0x80 |
| Lexer.LexXEscape | src/parse/tokens.rs:250-273 | `read_x_escape`: fewer than two characters left is an unterminated string; a first digit outside `0`-`7` is a bad escape of the text up to it, a second that is not a hex digit a bad escape up to it, and otherwise the corrected two-digit value, two characters read |
| Lexer.XEscapeRoundTrip | src/parse/tokens.rs:250-273 | every ASCII character written as `\xHH` decodes back to itself |
| Lexer.UEscapeValueAsWritten | src/parse/tokens.rs:238-242 | the `\u` fold as written, each digit taken as `c - '0'`, gives the intended hexadecimal value on decimal digits |
| Lexer.UEscapeLetterMisread | src/parse/tokens.rs:238-242 | as written, `\u{a}` decodes to `'1'` where the intended value is a newline |
| Lexer.UEscapeUnclosedPanics | src/parse/tokens.rs:227-236 | as written, `"\u{1g` with no closing brace slices past the end of the input (the source panics) |
| Lexer.LexUEscapeAsWritten | src/parse/tokens.rs:225-248 | `read_u_escape` as written panics (no result) exactly when no `}` follows and the input ends within eight characters; a success starts with `{` and its closing brace is at most eight characters on |
| Lexer.UEscapeUnclosedReported | src/parse/tokens.rs:227-236 | the corrected reader reports `"\u{1g` as a bad escape covering the rest of the input |
| Lexer.LexUEscape | src/parse/tokens.rs:225-248 | the corrected `read_u_escape`: an empty run is an unterminated string; a success starts with `{` and, when closed, decodes the hex digits between the braces |
| Lexer.UEscapeAgreesWhereDefined | src/parse/tokens.rs:225-248 | where the code as written does not panic and the digits are decimal, it agrees with the corrected reading |
| Lexer.UEscapeRoundTrip | src/parse/tokens.rs:225-248 | every character written as `\u{hex}` decodes back to itself |
| Lexer.LexEscape | src/parse/tokens.rs:275-291 | `read_escape` consumes at least the escape letter, and at least two characters when it succeeds |
| Lexer.SimpleEscapes | src/parse/tokens.rs:277-287 | `\t`, `\r`, `\'`, `\"` and `\n` decode to their characters and any other letter but `x`/`u` is a bad escape spanning the two characters |
| Lexer.StringBody | src/parse/tokens.rs:293-314 | a string body that is read ends just after a closing quote |
| Lexer.LexString | src/parse/tokens.rs:293-319 | `read_string` passes on the body's error; a body read up to its closing quote gives a string token of the decoded text at the opening position, ending at the closing quote, when the end of input or a delimiter follows, and otherwise `UnexpectedChar` for the character after the quote, at its position, `while parsing a string` from the opening position |
| Lexer.UnterminatedAtOpening | src/parse/tokens.rs:297-300 | a string with no closing quote and no escape is reported unterminated at its opening position |
| Lexer.PlainStringBody | src/parse/tokens.rs:297-311 | a body without escapes reads as the text up to the closing quote, ending just after it |
| Lexer.PlainThenEscape | src/parse/tokens.rs:297-306 | plain text up to a backslash is kept: the body then fails with the escape's error, or goes on after the escape with the text so far, the plain run and the decoded character appended |
| Lexer.RunOpensAfterEscape | src/parse/tokens.rs:301 | after an escape, the next plain run starts at the next character |
| Lexer.LexNumber | src/parse/tokens.rs:321-339 | `read_number` takes the maximal run of number characters; it succeeds exactly when a delimiter or the end follows, with the text from the start, and otherwise reports the offending character and its position |
| Lexer.LexSymbol | src/parse/tokens.rs:341-370 | `read_symbol` ends at a delimiter or the end; it yields a number token only for `+`/`-` followed by a digit, otherwise a symbol of the text read |
| Lexer.SymbolTail | src/parse/tokens.rs:355-369 | the symbol loop yields a symbol of the text from the start, followed by a delimiter or the end |
| Lexer.NextToken | src/parse/tokens.rs:149-179 | `next` skips whitespace; it gives no token exactly at the end of input or at a character no token starts with, and a closing token ends with its closing character |
| Lexer.ReaderMacroTokens | src/parse/tokens.rs:155-169 | `'`, `` ` ``, `~@` and `~` become quote, quasiquote, unquote-splicing and unquote tokens of one or two characters |
| Lexer.BracketTokens | src/parse/tokens.rs:172 | each bracket character becomes its one-character delimiter token at its position |
| Lexer.TokenIter.constructor | src/parse/tokens.rs:198-201 | a new iterator starts at index 0 and position (1, 0) |
| Lexer.TokenIter.PeekPos | src/parse/tokens.rs:121-138 | the position the iterator reports for the next character is that character's line and column |
| Lexer.TokenIter.Bump | src/parse/tokens.rs:127-138 | advancing one character moves the index by one and the position as `advance` does |
| Lexer.TokenIter.TakeUntil | src/parse/tokens.rs:203-217 | `take_until` returns every character before the stop character with its index and position, the stop index if any, and consumes the stop character too |
| Lexer.TokenIter.SkipWhitespace | src/parse/tokens.rs:219-223 | `skip_ws` leaves the iterator at `SkipWs` of where it was |
| Lexer.TokenIter.ReadXEscape | src/parse/tokens.rs:250-273 | the imperative `\x` reader agrees with `LexXEscape` on result and index |
| Lexer.TokenIter.ReadUEscape | src/parse/tokens.rs:225-248 | the imperative `\u` reader agrees with the corrected `LexUEscape` |
| Lexer.TokenIter.ReadEscape | src/parse/tokens.rs:275-291 | the imperative `read_escape` agrees with `LexEscape` |
| Lexer.TokenIter.ReadString | src/parse/tokens.rs:293-319 | the imperative `read_string` agrees with `LexString` |
| Lexer.TokenIter.ReadNumber | src/parse/tokens.rs:321-339 | the imperative `read_number` agrees with `LexNumber` |
| Lexer.TokenIter.ReadSymbol | src/parse/tokens.rs:341-353 | the imperative `read_symbol` agrees with `LexSymbol` |
| Lexer.TokenIter.ReadSymbolTail | src/parse/tokens.rs:354-370 | the symbol loop agrees with `SymbolTail` |
| Lexer.TokenIter.Next | src/parse/tokens.rs:149-179 | the imperative `next` agrees with `NextToken` on the token and the index it stops at |
| TokenKinds.Advance | src/parse/tokens.rs:18-25 | a newline moves to the next line at column 0; any other character moves one column right |
| TokenKinds.Next | src/parse/tokens.rs:26-28 | `next` is one column to the right on the same line |
| TokenKinds.PosAfterLines | src/parse/tokens.rs:116-138 | after reading a text, the line is one more than the number of newlines in it, and without newlines the column is the text's length |
| TokenKinds.FormNameInjective | src/parse/tokens.rs:49-60 | different reader macros have different form names |
| TokenKinds.ClosedByPairs | src/parse/tokens.rs:65-85 | each opener has its own closer and the characters pair up as `()`, `[]`, `{}` |
| TokenKinds.NewDelim | src/parse/tokens.rs:98-113 | `new_delim` gives a token exactly for the six bracket characters, one column wide, opening or closing with that character |
| TokenKinds.CharClassesDisjoint | src/parse/tokens.rs:373-393 | delimiters are neither number nor symbol characters, `"` belongs to no class, and number characters are symbol characters |
| ParseErrors.Message | src/parse/errors.rs:18-37 | each message starts with the description of its error kind (a conversion error ends with it), and the unterminated-string and extra-delimiter messages end with the `line L, column C` text of their position |
| ParseErrors.MissingDelimiterMessageNamesCloser | src/parse/errors.rs:32 | two missing-delimiter messages are equal exactly when they name the same closer |
| OldTokenizer.Replace | src/tokenizer.rs:7 | `replace` keeps every character other than the one replaced |
| OldTokenizer.ReplaceKeepsText | src/tokenizer.rs:7 | padding a character with spaces does not change the text once whitespace is removed |
| OldTokenizer.ReplacePads | src/tokenizer.rs:7 | after `replace`, every occurrence of the character has a space on each side |
| OldTokenizer.ReplaceKeepsPadding | src/tokenizer.rs:7 | padding `)` keeps the padding `(` already has |
| OldTokenizer.PadPads | src/tokenizer.rs:7 | after both replacements every parenthesis stands between spaces |
| OldTokenizer.SplitFromText | src/tokenizer.rs:7 | `split_whitespace` yields non-empty words without whitespace whose concatenation is the text without whitespace |
| OldTokenizer.SplitFromParens | src/tokenizer.rs:7 | on padded text every word is a parenthesis or contains none |
| OldTokenizer.Tokenize | src/tokenizer.rs:6-8 | `tokenize` loses only whitespace, and each token is a lone parenthesis or a parenthesis-free word |
| OldTokenizer.Atom | src/tokenizer.rs:35-41 | an atom is an integer exactly when the token parses as `i64`, and otherwise the identifier of the token |
| OldTokenizer.AtomOfIntText | src/tokenizer.rs:35-41 | the display text of an `i64` reads as that integer |
| OldTokenizer.ReadExprF | src/tokenizer.rs:15-33 | reading an expression consumes at least one token |
| OldTokenizer.ReadIgnoresRest | src/tokenizer.rs:15-33 | tokens after a complete expression are left unread and do not change it |
| OldTokenizer.ReadListIgnoresRest | src/tokenizer.rs:21-27 | the same for the elements of a list |
| OldTokenizer.ReadTokensOf | src/tokenizer.rs:15-33 | reading the tokens of a printable value (integers, plain identifiers, lists) gives the value back and leaves the rest |
| OldTokenizer.ReadItemsTokens | src/tokenizer.rs:21-27 | the tokens of list elements followed by `)` read back as the list |
| OldTokenizer.TokenQueue.ReadFromTokens | src/tokenizer.rs:15-33 | the imperative `read_from_tokens`, removing tokens from the front of the vector, agrees with `ReadExprF` on result and remaining tokens |
| OldTokenizer.Parse | src/tokenizer.rs:10-13 | `parse` reads one expression from the tokens of its input |
| OldTokenizer.ReadListF | src/tokenizer.rs:21-27 | reading list elements up to `)` consumes at least one token |
| Intern.SymbolIntern.constructor | src/intern.rs:14-20 | a new table has counter 0 and two empty maps |
| Intern.SymbolIntern.GenSym | src/intern.rs:22-26 | `gen_sym` returns the current counter as a fresh symbol with no name, bumps the counter and leaves both maps alone |
| Intern.SymbolIntern.Intern | src/intern.rs:28-38 | a known name returns its symbol and changes nothing; a new name gets a fresh symbol recorded in both maps; afterwards the name and symbol map to each other |
| Intern.SymbolIntern.GenSymPrefix | src/intern.rs:40-47 | `gen_sym_prefix` names the fresh symbol `prefix` followed by its number, records it both ways and keeps every earlier name |
| Intern.SymbolIntern.SymbolForName | src/intern.rs:49-51 | a symbol is found exactly for an interned name, and it is that name's symbol |
| Intern.SymbolIntern.Contains | src/intern.rs:53-55 | `contains` holds exactly when `symbol_for_name` finds a symbol |
| Intern.SymbolIntern.Lookup | src/intern.rs:57-59 | a name is found exactly for a named symbol |
| Intern.SymbolIntern.LookupOrAnon | src/intern.rs:61-66 | a named symbol gives its name and any other `s` followed by its number |
| Intern.SymbolIntern.NameRoundTrip | src/intern.rs:28-59 | in a consistent table, looking up the symbol of an interned name gives the name back |
| RcSlices.New | src/util/mod.rs:19-26 | `new` views the whole vector from index 0 |
| RcSlices.Empty | src/util/mod.rs:15-17 | `empty` is an in-bounds empty view |
| RcSlices.IsEmpty | src/util/mod.rs:40-42 | `is_empty` holds exactly when the length is 0 |
| RcSlices.GetSlice | src/util/mod.rs:54-56 | `get_slice` has the view's length and element `i` is element `start + i` of the shared vector |
| RcSlices.SliceAsWritten | src/util/mod.rs:44-52 | as written, `slice(from, to)` shares the vector and sets `start` to `from` itself, not `self.start + from` |
| RcSlices.TailOfTailAsWritten | src/util/mod.rs:28-30 | as written, the tail of the tail of `[1, 2, 3]` is `[2]` instead of `[3]` |
| RcSlices.Slice | src/util/mod.rs:44-52 | the corrected `slice` shares the vector and views `get_slice()[from..to]` of the original view |
| RcSlices.Tail | src/util/mod.rs:28-30 | the corrected `tail` drops the first element of the view |
| RcSlices.Init | src/util/mod.rs:32-34 | `init` drops the last element of the view |
| RcSlices.InitAsWritten | src/util/mod.rs:32-34 | `init` as written restarts the view at index 0 of the vector, keeping one element less |
| RcSlices.InitOfTailAsWritten | src/util/mod.rs:28-34 | as written, the init of the tail of `[1, 2, 3]` is `[1]` |
| RcSlices.InitOfTail | src/util/mod.rs:28-34 | with the correction, the init of the tail of `[1, 2, 3]` is `[2]` |
| RcSlices.TailOfTail | src/util/mod.rs:28-30 | with the correction, two tails drop the first two elements |
| RcSlices.Add | src/util/mod.rs:58-62 | `add` copies the whole shared vector (not only the view), appends the value and views all of it |
| RcSlices.AddAll | src/util/mod.rs:64-70 | `add_all` does the same with several values, in order |
| RcSlices.AddExtendsWholeView | src/util/mod.rs:58-62 | on a view of its whole vector, `add` appends to the view |
| RcSlices.EqAsWrittenIgnoresContents | src/util/mod.rs:73-90 | as written, the shortcut compares `self.data` with itself, so `[1]` and `[2]` are equal |
| RcSlices.EqIsElementwise | src/util/mod.rs:73-90 | with the shortcut comparing the two slices' vectors, equality is element-wise equality of the views |
| Scope.Parent | src/eval/environment.rs:8-11 | a parent is an earlier frame, and in a well-formed arena it is the frame's own parent |
| Scope.Chain | src/eval/environment.rs:53-62 | the scope chain starts at the environment itself and lists only existing frames |
| Scope.FirstBinding | src/eval/environment.rs:53-62 | the first frame of the chain binding a name: none before it binds the name, and none at all when absent |
| Scope.OwnerIsInnermost | src/eval/environment.rs:53-62 | the frame `get` reads a name from is the innermost frame of the chain that binds it |
| Scope.Get | src/eval/environment.rs:53-62 | `get` returns the binding held by the innermost frame binding the name, and nothing when no frame does |
| Scope.WithValue | src/eval/environment.rs:64-75 | `with_value` applies the function exactly when `get` finds a value, and to that value |
| Scope.IsDefined | src/eval/environment.rs:49-51 | `is_defined` holds exactly when some frame of the chain binds the name |
| Scope.ThisLevelWins | src/eval/environment.rs:45-62 | a name bound at this level is read from this level, shadowing its parents |
| Scope.Rebind | src/eval/environment.rs:90-92 | inserting into one frame changes that frame's binding of that name and nothing else |
| Scope.RebindKeepsChains | src/eval/environment.rs:90-92 | a binding change never changes any scope chain |
| Scope.RebindOtherNames | src/eval/environment.rs:90-92 | a binding change is invisible to lookups of other names |
| Scope.RebindElsewhere | src/eval/environment.rs:90-92 | a binding change in a frame outside the chain is invisible to lookups through it |
| Scope.RebindOwnerVisible | src/eval/environment.rs:77-88 | rebinding a name in the frame that owns it makes `get` return the new value |
| Scope.WellFormedRebind | src/eval/environment.rs:90-92 | binding changes keep every parent an earlier frame |
| Scope.WellFormedPush | src/eval/environment.rs:21-26 | adding a frame whose parent exists keeps the arena well formed |
| Scope.AddLevel | src/eval/environment.rs:28-33 | one level of `defined_helper` adds the level's names that are not yet recorded, at this depth, and keeps every earlier entry |
| Scope.AddLevelStep | src/eval/environment.rs:29-33 | the loop over one level's bindings adds one name at a time with the same result |
| Scope.DefinedPerName | src/eval/environment.rs:28-37 | an entry recorded before is kept; otherwise a name is recorded exactly when a frame of the chain binds it, with that frame's depth and value |
| Scope.FoundIsVisible | src/eval/environment.rs:28-62 | the value recorded for a name is the one `get` returns |
| Scope.FoundDepth | src/eval/environment.rs:28-37 | the depth recorded is the distance to the innermost frame binding the name |
| Scope.AllDefinedIsInnermost | src/eval/environment.rs:39-43 | `all_defined` has exactly the visible names, each with the depth of its innermost binding and its visible value |
| Scope.Arena.constructor | src/eval/environment.rs:7 | an empty arena |
| Scope.Arena.New | src/eval/environment.rs:14-19 | `Environment::new` adds a frame with no parent and no bindings |
| Scope.Arena.NewWithData | src/eval/environment.rs:21-26 | `new_with_data` adds a frame whose chain is itself followed by its parent's chain |
| Scope.Arena.InsertHere | src/eval/environment.rs:90-92 | `insert_here` rebinds the name in this frame and returns the previous binding of this frame, if any |
| Scope.Arena.SetFunction | src/eval.rs:175-182 | `set_function` binds the name to a foreign function of that name in this frame |
| Scope.Arena.WithValueMut | src/eval/environment.rs:77-88 | `with_value_mut` returns nothing and changes nothing when the name is unbound, and otherwise updates the binding in its owning frame and returns the function's result |
| Scope.Arena.DefinedHelper | src/eval/environment.rs:28-37 | the imperative `defined_helper` walking up the parents computes `Defined` |
| Scope.Arena.AllDefined | src/eval/environment.rs:39-43 | `all_defined` has a key exactly for every name `get` finds |
| Scope.ChainOfExtension | src/eval/environment.rs:21-26 | adding a new frame changes no existing chain and no existing lookup |
| Scope.Owner | src/eval/environment.rs:53-62 | the frame a lookup reads from exists and binds the name |
| Procedures.NewProcedure | src/eval/procedure.rs:24-31 | `Procedure::new` keeps name, bodies, parameters and environment, and the new procedure equals exactly the procedures sharing its bodies and environment |
| Procedures.ProcEqIsIdentity | src/eval/procedure.rs:61-66 | procedures are equal exactly when they share the body vector and the environment, and a lambda value equals its clone |
| Procedures.ZipPairs | src/eval/procedure.rs:44 | collecting parameter/value pairs binds exactly the parameter names |
| Procedures.ZipPairsLastWins | src/eval/procedure.rs:44 | a parameter named twice is bound to the value of its last occurrence |
| Procedures.Zip | src/eval.rs:117-122 | the earlier `gen_env` zips names with values, binding only the names that have a value, each to its value |
| Procedures.ArityText | src/eval/procedure.rs:40 | the corrected arity text is `at least N` or `exactly N` with N the number of required parameters |
| Procedures.GenEnvMessageAsWritten | src/eval/procedure.rs:37-42 | as written, calling a two-parameter procedure with one argument reports `exactly  1` (the count supplied, two spaces) where `exactly 2` is intended |
| Procedures.GenEnvAsWritten | src/eval/procedure.rs:33-58 | `gen_env` as written fails exactly when the corrected one does and otherwise builds the same frame; its error carries the count modulo 2^16 and the text built from the argument count |
| Procedures.GenEnv | src/eval/procedure.rs:33-58 | the corrected `gen_env` fails exactly when too few values are supplied, with the arity error, and otherwise gives a frame whose parent is the captured environment |
| Procedures.BindParamsKeys | src/eval/procedure.rs:43-52 | the new frame binds exactly the parameters and the rest parameter, if any |
| Procedures.BindParamsInOrder | src/eval/procedure.rs:43-44 | with distinct names, parameter `i` is bound to value `i` |
| Procedures.GenEnvBindsInOrder | src/eval/procedure.rs:33-58 | with enough values and distinct names, `gen_env` succeeds, binds each parameter to its value in order and the rest parameter to the list of the surplus values |
| Procedures.GenEnvIgnoresSurplus | src/eval/procedure.rs:43-44 | without a rest parameter, surplus values are dropped |
| Procedures.ZipEnv | src/eval.rs:117-122 | the earlier `gen_env` frame's parent is the captured environment |
| Procedures.ZipEnvDropsSurplus | src/eval.rs:117-122 | the earlier `gen_env` binds parameter `i` exactly when a value `i` exists, to that value |
| Procedures.GenEnvAgreesWithZip | src/eval/procedure.rs:33-58 | with exactly as many values as parameters and no rest parameter, the later `gen_env` agrees with the earlier one |
| Types.IsType | src/stdlib/types.rs:8-29 | each `is-*` predicate is true exactly when every argument has that variant (so true for no arguments) |
| Types.IsExecutable | src/stdlib/types.rs:31-41 | `executable?` is true exactly when every argument is a lambda or a foreign function |
| Types.ExecutableIsLambdaOrForeign | src/stdlib/types.rs:28-41 | for one value, `executable?` is `lambda?` or `foreign-fn?` |
| Types.ToInt | src/stdlib/types.rs:44-59 | `int` needs exactly one argument; it keeps integers, maps booleans to 1/0, parses strings (failing as `unwrap` does on bad text) and rejects lists, identifiers and functions |
| Types.ToFloat | src/stdlib/types.rs:61-74 | `float` needs exactly one argument, keeps floats, always yields a float and rejects everything but integers, floats and strings |
| Types.ToBool | src/stdlib/types.rs:76-105 | `bool` needs exactly one argument; integers and floats are true unless zero, booleans are kept, only the strings `true` and `false` convert, and every failure is an illegal conversion of the argument |
| Types.PopPop | src/stdlib/types.rs:136-138 | the two `pop` calls remove exactly the trailing `, ` |
| Types.BuildBufShows | src/stdlib/types.rs:157-164 | without empty lists inside, `build_buf` appends the intended display of the value |
| Types.ItemsShow | src/stdlib/types.rs:132-135 | the element loop appends the elements' displays each followed by `, ` |
| Types.EmptyListPopsBuffer | src/stdlib/types.rs:131-139 | as written, an empty list pops two characters that belong to what was printed before it |
| Types.EmptyListPrintsClose | src/stdlib/types.rs:124-169 | as written, the empty list prints as `)`, where `()` is intended |
| Types.NestedEmptyListPrintsClose | src/stdlib/types.rs:124-169 | as written, `(x ())` prints as `(x,))` |
| Types.NestedEmptyListShown | src/stdlib/types.rs:124-169 | the corrected display prints `(x ())` as `(x, ())` |
| Types.AsWrittenShowsWithoutEmptyLists | src/stdlib/types.rs:114-171 | on values without empty lists the code as written and the corrected display agree |
| Types.ToStringHelperAsWritten | src/stdlib/types.rs:114-171 | `to_string_helper` as written gives the intended display of every value without empty lists inside |
| Types.Show | src/stdlib/types.rs:124-139 | the intended display of a list is parenthesised, and the empty list shows as `()` |
| Types.ToStr | src/stdlib/types.rs:107-112 | `to-string` needs exactly one argument and gives the corrected display of it as a string |
| Types.ScalarTexts | src/stdlib/types.rs:114-122 | integers print in decimal, booleans as `true`/`false`, strings as themselves, identifiers with a leading `'`, foreign functions as `<#name>` and unnamed lambdas as `<@anonymous>` |
| Types.ToStringRoundTrips | src/stdlib/types.rs:44-122 | `int` of the text of an integer and `bool` of the text of a boolean give the value back |
| Types.Printer.BuildBuf | src/stdlib/types.rs:125-164 | the recursive `build_buf` on a mutable buffer appends what `BuildBufAsWritten` describes |
| Types.ToStringAsWritten | src/stdlib/types.rs:114-171 | the imperative `to_string_helper` returns `ToStringHelperAsWritten` |
| Options.SomeFn | src/stdlib/option.rs:4-8 | `some` succeeds exactly with one argument and wraps it; otherwise an arity error |
| Options.NoneFn | src/stdlib/option.rs:10-13 | `none` succeeds exactly with no argument and gives the empty option |
| Options.Unwrap | src/stdlib/option.rs:15-25 | `unwrap` needs one argument and succeeds exactly on a full option, giving its content; the empty option and non-options are distinct errors |
| Options.UnwrapInvertsSome | src/stdlib/option.rs:4-25 | `unwrap` of `some x` is `x`, and of `none` the unwrap error |
| Core.AllEqualTo | src/stdlib/core.rs:9-13 | the loop of `equals` finds no argument unequal to the first exactly when all are equal to it |
| Core.Equals | src/stdlib/core.rs:5-16 | `equals` needs at least two arguments and is true exactly when every later argument equals the first |
| Core.EqualsOfTwo | src/stdlib/core.rs:5-16 | `equals` of two values is symmetric, and a value equals itself unless it holds a NaN |
| Core.IdentNames | src/stdlib/core.rs:21-30 | a parameter list converts exactly when every element is an identifier, to their names in order; otherwise it fails naming the FIRST non-identifier |
| Core.LambdaParams | src/stdlib/core.rs:20-39 | a list gives positional parameters, a single identifier gives a rest parameter only, anything else is an invalid argument list |
| Core.MakeLambda | src/stdlib/core.rs:18-49 | `lambda` needs at least two arguments and succeeds exactly when the parameters convert; the procedure is unnamed, captures the current environment and has the remaining arguments as its bodies |
| Core.Quote | src/stdlib/core.rs:93-96 | `quote` succeeds exactly with one argument and returns it unevaluated |
| Lists.AddResult | src/stdlib/list.rs:13-31 | `add` checks for at least one argument first; on an open buffer it pushes every argument in order and returns the last; on a closed buffer it reports the completion error |
| Lists.AddAllResult | src/stdlib/list.rs:33-55 | `add-all` makes the same checks, pushes the elements of every list argument in order, skips other arguments and returns the last argument |
| Lists.ListElementsAppend | src/stdlib/list.rs:39-45 | the elements pushed for two runs of arguments are those of the first run followed by those of the second |
| Lists.AddAllFlattens | src/stdlib/list.rs:13-55 | `add-all` of one list pushes what `add` of its elements pushes, and `add-all` of a non-list pushes nothing |
| Lists.Buffer.constructor | src/stdlib/list.rs:9 | the shared buffer starts open and empty |
| Lists.Buffer.PushIndividuals | src/stdlib/list.rs:13-31 | the imperative `add` writer leaves the buffer and result `AddResult` gives |
| Lists.Buffer.PushListValues | src/stdlib/list.rs:33-55 | the imperative `add-all` writer, with its nested loop, leaves the buffer and result `AddAllResult` gives |
| Lists.Buffer.Take | src/stdlib/list.rs:64-65 | `take` hands out the vector and closes the buffer |
| Lists.BuildList | src/stdlib/list.rs:4-66 | a `build-list` run returns, as a list, everything its writers pushed in push order, and any later write fails with the completion error |
| Evaluator.InsertHere | src/eval/environment.rs:90-92 | inserting a binding only adds to the heap (frames keep their parents and bound names; nothing is removed) |
| Evaluator.Assign | src/stdlib/core.rs:89 | rebinding a name through `with_value_mut` only adds to the heap |
| Evaluator.Push | src/eval/environment.rs:21-26 | adding a procedure frame only adds to the heap |
| Evaluator.FreeFn | src/eval/foreign_function.rs:21-36 | `free_fn` builds a foreign function of that name whose arguments are evaluated first |
| Evaluator.AstFn | src/eval/foreign_function.rs:39-48 | `ast_fn` builds a foreign function of that name that receives its arguments unevaluated |
| Evaluator.ForeignFunctionIdentity | src/eval/foreign_function.rs:57-62 | a foreign function equals its clone; two with different closures are unequal; equality looks only at name and closure identity |
| Evaluator.CallNative | src/stdlib/list.rs:13-55 | a free built-in changes no state except `add` and `add-all`, which change only buffer contents |
| Evaluator.BindFrame | src/eval/procedure.rs:33-58 | a call frame, when built, has the procedure's captured environment as parent |
| Evaluator.Eval | src/eval/mod.rs:14-50 | evaluation leaves a heap that only grew: frames appended, each keeping its parent and bound names, buffers appended, identities never reused |
| Evaluator.EvalCall | src/eval/mod.rs:30-48 | evaluating a call only grows the heap |
| Evaluator.EvalArgs | src/eval/mod.rs:40 | evaluating arguments yields one value per argument and only grows the heap |
| Evaluator.ApplyLambda | src/eval/mod.rs:57-64 | applying a procedure only grows the heap |
| Evaluator.EvalBlock | src/eval/mod.rs:59-63 | running no bodies is `NoLambdaBody` and leaves the heap unchanged; running bodies only grows it |
| Evaluator.CallForeign | src/eval/foreign_function.rs:21-48 | calling a foreign function only grows the heap |
| Evaluator.Call | src/eval/context.rs:73-75 | `call` only grows the heap |
| Evaluator.Form | src/eval/mod.rs:68 | a special form only grows the heap |
| Evaluator.EvalCond | src/stdlib/core.rs:98-109 | `cond` only grows the heap |
| Evaluator.EvalDefine | src/stdlib/core.rs:51-70 | `define` only grows the heap |
| Evaluator.EvalSet | src/stdlib/core.rs:72-91 | `set` only grows the heap |
| Evaluator.EvalLambda | src/stdlib/core.rs:18-49 | `lambda` gives what `Core.MakeLambda` gives over the current environment, with a body vector identity not handed out before |
| Evaluator.EvalAnd | src/stdlib/logical.rs:3-15 | `and` only grows the heap |
| Evaluator.EvalOr | src/stdlib/logical.rs:17-29 | `or` only grows the heap |
| Evaluator.EvalXor | src/stdlib/logical.rs:31-55 | `xor` only grows the heap |
| Evaluator.EvalHashMap | src/stdlib/map.rs:6-27 | `hash-map` only grows the heap |
| Evaluator.EvalEntries | src/stdlib/map.rs:13-24 | the key/value loop only grows the heap |
| Evaluator.EvalBuildList | src/stdlib/list.rs:4-66 | `build-list` only grows the heap |
| Evaluator.EvalForeach | src/stdlib/list.rs:68-88 | `for-each` only grows the heap |
| Evaluator.EvalEach | src/stdlib/list.rs:80-86 | the loop of `for-each`, when it completes, returns the number of calls made, as a wrapped `i64` |
| Evaluator.EvalStr | src/eval/context.rs:61-71 | `eval_str` only grows the heap |
| Evaluator.CallNamed | src/eval/context.rs:77-83 | `call_named` of a bound name calls the value the innermost binding holds on the arguments; of an unbound name it is `UndefinedName` and changes nothing |
| EvalLaws.Bools | src/stdlib/logical.rs:3-55 | the boolean values of a list of truth values, in order |
| EvalLaws.EvalAtoms | src/eval/mod.rs:14-35 | scalars and functions evaluate to themselves, an identifier to its innermost binding or `UndefinedName`, the empty list to `ExecuteEmptyList`, all without changing the heap |
| EvalLaws.UnexecutableHead | src/eval/mod.rs:37-47 | a call whose head evaluates to something other than a function fails with `UnexecutableValue` of that value, after the head's effects |
| EvalLaws.EvalArgsAppend | src/eval/mod.rs:40 | arguments are evaluated left to right: the second run starts from the heap the first leaves, and only when the first succeeded |
| EvalLaws.EvalArgsOfValues | src/eval/mod.rs:40 | arguments that are values evaluate to themselves and leave the heap alone |
| EvalLaws.EvalOfCall | src/eval/mod.rs:37-45 | evaluating a list headed by a function is `call` of it on the rest (lambda arguments being values) |
| EvalLaws.EvalBlockAppend | src/eval/mod.rs:59-63 | running bodies in sequence: the second run starts after the first and stops at its first error |
| EvalLaws.ValueOfLastForm | src/eval/mod.rs:59-63 | the value of a run of bodies is the value of its last body |
| EvalLaws.EvalStrOfNothing | src/eval/context.rs:61-71 | a blank program is `NoProgram` and changes nothing |
| EvalLaws.AndOfBools | src/stdlib/logical.rs:3-15 | on boolean arguments `and` is true exactly when all are true |
| EvalLaws.OrOfBools | src/stdlib/logical.rs:17-29 | on boolean arguments `or` is true exactly when one is true |
| EvalLaws.XorOfBools | src/stdlib/logical.rs:31-55 | on boolean arguments `xor` is true exactly when both a true and a false occur |
| EvalLaws.AndAppend | src/stdlib/logical.rs:3-15 | `and` short-circuits: later arguments are evaluated only while all earlier ones are true |
| EvalLaws.OrAppend | src/stdlib/logical.rs:17-29 | `or` short-circuits: later arguments are evaluated only while all earlier ones are false |
| EvalLaws.XorDecidesEarly | src/stdlib/logical.rs:31-55 | once both a true and a false have been seen, `xor` is true without evaluating the remaining arguments |
| EvalLaws.CondArity | src/stdlib/core.rs:98-99 | `if` with other than three arguments is an arity error `exactly 3` and evaluates nothing |
| EvalLaws.CondSelectsBranch | src/stdlib/core.rs:98-109 | `if` evaluates the test first; its error is the result, `true` evaluates only the second argument, `false` only the third, and any other value is an `UnexpectedType` expecting `Bool` |
| EvalLaws.CondOfLiteral | src/stdlib/core.rs:98-109 | a literal boolean test selects its branch, and a non-boolean literal test is an `UnexpectedType` error |
| EvalLaws.FreeFnSkippedOnError | src/eval/foreign_function.rs:21-36 | when evaluating the arguments of a free function fails, the function is not called and the error is the result, later arguments unevaluated |
| EvalLaws.EachAppend | src/stdlib/list.rs:80-86 | `for-each` calls the function on the elements in order, the count carried on, and an error ends it before any later element |
| EvalLaws.EachOne | src/stdlib/list.rs:80-86 | one element is one call with that element as its only argument; its error is the result, otherwise the count goes up by one |
| EvalLaws.MapOfPairsCons | src/parse/mod.rs:49 | collecting pairs with one more pair in front is that pair overridden by the rest |
| EvalLaws.EntriesStep | src/stdlib/map.rs:13-24 | one key and value that are values insert their pair and move on |
| EvalLaws.EvensOddsStep | src/parse/mod.rs:47 | the keys and values of a map literal peel off one pair at the front |
| EvalLaws.EntriesOfValues | src/stdlib/map.rs:13-24 | on values, the loop of `hash-map` adds exactly the map the reader builds from those pairs |
| EvalLaws.HashMapIsMapLiteral | src/stdlib/map.rs:6-27 | `hash-map` of an even number of values builds the same map as the reader's `{..}` literal, later keys winning, without changing the heap |
| EvalLaws.OwnerPersists | src/eval/environment.rs:53-62 | once a name is bound along a chain, it stays bound after any evaluation |
| EvalLaws.DefineBindsHere | src/stdlib/core.rs:51-70 | `define` binds the name to its value in the current frame and touches no other frame; a name already bound at this level is `AlreadyDefined` and changes nothing |
| EvalLaws.SetUpdatesInnermost | src/stdlib/core.rs:72-91 | after `set` the name reads as the new value; an unbound name is `UndefinedName` and changes nothing |
| EvalLaws.LambdaBodyScope | src/eval/procedure.rs:53-57 | inside a call frame a name reads as its parameter binding, and otherwise as in the captured environment (lexical scope) |
| EvalLaws.BindFrameEras | src/eval/procedure.rs:33-58 | both `gen_env` versions agree when the argument count matches, and only the later one rejects too few arguments |
| EvalLaws.BuildListClosesBuffer | src/stdlib/list.rs:62-66 | after `build-list` returns, its buffer is closed and both writers fail with the completion error |
| EvalLaws.AddAppends | src/stdlib/list.rs:13-31 | `add` on an open buffer returns its last argument and appends all arguments |
| EvalLaws.AddAllReturnsLast | src/stdlib/list.rs:33-55 | `add-all` on an open buffer returns its last argument |
| EvalLaws.AddAllAppends | src/stdlib/list.rs:33-55 | `add-all` on an open buffer appends the elements of its list arguments |
| Contexts.ArgsStep | src/eval/mod.rs:40 | after the first argument evaluates, collecting the rest continues from the heap it left |
| Contexts.ApplyUnfolds | src/eval/mod.rs:57-64 | a procedure call fails with the binding error and no effect, or runs the bodies in a new frame pushed on the heap |
| Contexts.Context.NewEmpty | src/eval/context.rs:29-34 | `new_empty` has one frame, with no parent and no bindings, as current environment, and nothing else |
| Contexts.Context.InsertHere | src/eval/environment.rs:90-92 | `insert_here` on the current environment changes the state as `Evaluator.InsertHere` |
| Contexts.Context.WithValueMut | src/eval/environment.rs:77-88 | assigning through `with_value_mut` changes the state as `Evaluator.Assign` |
| Contexts.Context.Eval | src/eval/context.rs:57-59 | `eval` returns and leaves the state `Evaluator.Eval` gives, in the current environment |
| Contexts.Context.WithOtherEnv | src/eval/context.rs:48-55 | `with_other_env` runs the body in the other environment, restores the context's own environment, and hands back the environment the body left |
| Contexts.Context.RunForms | src/eval/context.rs:63-70 | the loop over forms keeping `last` computes `Evaluator.EvalBlock` |
| Contexts.Context.EvalStr | src/eval/context.rs:61-71 | `eval_str` computes `Evaluator.EvalStr` |
| Contexts.Context.ApplyLambda | src/eval/mod.rs:57-64 | applying a procedure computes `Evaluator.ApplyLambda` and restores the current environment |
| Contexts.Context.RunInNewFrame | src/eval/mod.rs:58-63 | the bodies run in a new frame compute `Evaluator.EvalBlock` there |
| Contexts.Context.EvalArgs | src/eval/mod.rs:40 | the argument loop computes `Evaluator.EvalArgs` |
| Contexts.Context.Call | src/eval/context.rs:73-75 | `call` computes `Evaluator.Call` |
| Contexts.Context.CallNamed | src/eval/context.rs:77-83 | `call_named` computes `Evaluator.CallNamed` |
| Contexts.Context.CallForeign | src/eval/foreign_function.rs:21-48 | calling a foreign function computes `Evaluator.CallForeign` |
| Contexts.Context.Form | src/eval/mod.rs:68 | a special form computes `Evaluator.Form` |
| Contexts.Context.CoreForm | src/stdlib/core.rs:18-109 | `quote`, `if`, `define`, `set` and `lambda` compute `Evaluator.Form` |
| Contexts.Context.LibraryForm | src/stdlib/logical.rs:3-55 | `and`, `or`, `xor`, `hash-map`, `build-list` and `for-each` compute `Evaluator.Form` |
| Contexts.Context.Cond | src/stdlib/core.rs:98-109 | `cond` computes `Evaluator.EvalCond` |
| Contexts.Context.Define | src/stdlib/core.rs:51-70 | `define` computes `Evaluator.EvalDefine` |
| Contexts.Context.Set | src/stdlib/core.rs:72-91 | `set` computes `Evaluator.EvalSet` |
| Contexts.Context.Lambda | src/stdlib/core.rs:18-49 | `lambda` computes `Evaluator.EvalLambda` |
| Contexts.Context.And | src/stdlib/logical.rs:3-15 | the loop of `and` computes `Evaluator.EvalAnd` |
| Contexts.Context.Or | src/stdlib/logical.rs:17-29 | the loop of `or` computes `Evaluator.EvalOr` |
| Contexts.Context.Xor | src/stdlib/logical.rs:31-55 | the loop of `xor`, both flags starting false, computes `Evaluator.EvalXor` |
| Contexts.Context.HashMap | src/stdlib/map.rs:6-27 | the loop of `hash_map` with its pending key computes `Evaluator.EvalHashMap` |
| Contexts.Context.BuildList | src/stdlib/list.rs:4-66 | `build_list` computes `Evaluator.EvalBuildList` |
| Contexts.Context.Foreach | src/stdlib/list.rs:68-88 | `foreach` computes `Evaluator.EvalForeach` |
| Contexts.Context.Each | src/stdlib/list.rs:80-86 | the counting loop of `foreach` computes `Evaluator.EvalEach` from count 0 |
| Transformations.ReversePop | src/eval/transformations.rs:29-31 | popping the reversed arguments yields the first argument and leaves the reversal of the rest |
| Transformations.PreEvaluatedCases | src/eval/transformations.rs:12-47 | a foreign function completes with its result or fails; a non-function is `UnexecutableValue`; a lambda with arguments pushes an argument collector and the first argument to evaluate; a lambda without arguments is applied at once |
| Transformations.CollectInSourceOrder | src/eval/transformations.rs:51-75 | popping the reversed arguments one step at a time evaluates them in source order and applies the lambda to all the values, in order |
| Transformations.ArgumentsInOrder | src/eval/transformations.rs:12-75 | starting from a pre-evaluated lambda, the first argument is evaluated first and the rest follow in order, ending in one application to all the values |
| Transformations.BodiesRunSteps | src/eval/transformations.rs:79-101 | with bodies left, the last is popped for evaluation under a watcher holding the rest; with none, the previous result completes |
| Transformations.BodiesInSourceOrder | src/eval/transformations.rs:79-101 | bodies stored reversed are evaluated in source order, and the lambda's result is the last body's value (the previous result when there are no bodies) |
| Transformations.Machine.constructor | src/eval/transformations.rs:20 | the machine's stack starts empty |
| Transformations.Machine.FromPreEvaluated | src/eval/transformations.rs:12-47 | `from_pre_evaluated` returns and pushes what `PreEvaluated` gives |
| Transformations.Machine.FromArgCollectingLambda | src/eval/transformations.rs:51-75 | `from_arg_collecting_lambda` returns and pushes what `ArgCollecting` gives |
| Transformations.Machine.FromEvaluatingLambda | src/eval/transformations.rs:79-101 | `from_evaluating_lambda` succeeds and pushes what `EvaluatingLambdaStep` gives |

## Left out

- Floating point: `Float` is an opaque payload. Float arithmetic, float parsing (a parameter of the reader), float display and the float conversions of `to_int`/`to_bool` are not modelled. `src/stdlib/math.rs` and `src/stdlib/conv.rs` are numerics over `f64` and are not part of this model.
- Display of `Map`, `Option` and array values, and the `...` printed for a container already seen during `to_string`, are not modelled. Only integers, booleans, strings, identifiers, functions and lists are printed.
- Evaluator functions (`Evaluator.Eval`, `Evaluator.EvalCall`, `Evaluator.Call` and the special forms): their own contracts state only how the heap grows. Their behaviour is stated by the `EvalLaws` lemmas and by the `Contexts.Context` methods proved equal to them.
- Evaluator fuel: the evaluator functions take a fuel count and give `OutOfFuel` when it runs out. The source has no such bound; very deep recursion there overflows the native stack.
- `src/stdlib/util.rs` (`expect_arity`) is not part of this model. Arity errors are assumed to carry the argument count (as a `u16`, so reduced modulo 65536) and the expected-count text.
- `src/stdlib/mod.rs` (registration of the built-ins by name) is not part of this model. The special forms are a closed enumeration, `if` is `cond`, and `foreach` evaluates its two arguments before use.
- Rust `Rc` sharing, reference counts and `RefCell` borrows are modelled as identities and arena indices. An environment or buffer index outside the arena reads as empty.
- `Transformations.Machine`: the `Return`, `PopEnv` and `PreEvaluatedCallable` stack states are declared, but no transitions for them are modelled (the source shows none). `apply_lambda` and `apply_function` are parameters.
- `src/stdlib/debugger.rs` (a terminal REPL), `src/error.rs`, `src/environment.rs` (a fragment that does not compile), `src/main.rs` and the examples are not part of this model.
- Macro expansion and quasiquote evaluation are not part of this model. The reader only produces the `quasiquote`, `unquote` and `unquote-splicing` forms.
- The Lisp-source programs in `src/stdlib/list.rs` (`MAP`, `FOLD_LEFT`, `FILTER` and the others) are hosted-language text and are not modelled.
- `Intern.SymbolIntern`: the `u32` symbol counter is unbounded here, so its overflow is not modelled. Because `gen_sym_prefix` can reuse a name, the two maps are not claimed to be inverse; only name-to-symbol-to-name is proved.
- `Lexer.TokenIter`: Unicode `is_whitespace`, `is_alphanumeric` and `is_numeric` are approximated by ASCII classes, and positions count characters rather than UTF-8 bytes.
- `OldStdlib.AddInts`, `OldStdlib.SubInts`, `OldStdlib.MulInts`, `OldStdlib.DivInts`, `OldStdlib.Concat`: the inputs on which `src/stdlib.rs` panics are excluded by preconditions, not modelled as errors.
- Prelude.Wrap64, Arithmetic.AddInts, Arithmetic.MulInts, Arithmetic.SubIntsResult: `+=`, `*=` and negation on `i64` wrap as in a release build; a debug build of the source panics on that overflow instead.
- Hashing and the pointer transmutes (`rc_to_usize`, `write_usize`) are replaced by structural map keys and explicit ids.
- Evaluator.CallNative: runs the corrected `-` (`Arithmetic.SubIntsResult`) and the corrected display (`Types.ToStr`), not the code as written; `(- 10 3 2)` gives 5 here and -9 in the source, and `(to-string '(1 ()))` gives `(1, ())` here and `(1,))` in the source.
- Evaluator.BindFrame: binds parameters with the corrected `Procedures.GenEnv`, whose arity text names the parameter count; a two-parameter lambda called with one argument reports `exactly 2` here and `exactly  1` in the source (`Procedures.GenEnvAsWritten`).
- Evaluator.EvalStr: reads its program with `Reader.ParseF`, so it inherits the corrected escapes described for `Lexer.NextToken`.
- Lexer.LexXEscape: decodes the hex digits `a`-`f` with their hexadecimal values; `"\x0a"` is a newline here and `'1'` in the source (`Lexer.XEscapeValueAsWritten`).
- Lexer.TokenIter.ReadXEscape: agrees with the corrected `Lexer.LexXEscape`, so `"\x0a"` is a newline here and `'1'` in the source.
- Lexer.LexUEscape: decodes the hex digits `a`-`f` with their hexadecimal values and reports an unclosed escape as a bad escape; `"\u{a}"` is a newline here and `'1'` in the source, and `"\u{1g` is a `BadEscape` here where the source panics (`Lexer.LexUEscapeAsWritten`).
- Lexer.TokenIter.ReadUEscape: agrees with the corrected `Lexer.LexUEscape`, with the same two differences from the source.
- Lexer.NextToken: string tokens use the corrected `\x` and `\u` escapes, so `"\x0a"` and `"\u{a}"` hold a newline here and `1` in the source.
- Reader.ParseF: reads tokens from `Lexer.NextToken`, so it inherits the corrected escapes; `"\u{1g` is an error here where the source panics.
- Types.ToStr: prints with the corrected `Types.Show`; the code as written (`Types.ToStringHelperAsWritten`) agrees only on values without empty lists inside.
- RcSlices.Init: keeps the view's start (`start`, not 0); the init of the tail of `[1, 2, 3]` is `[2]` here and `[1]` in the source (`RcSlices.InitAsWritten`).
- RcSlices.Slice, RcSlices.Tail: offset the new start by the view's own start; the tail of the tail of `[1, 2, 3]` is `[3]` here and `[2]` in the source (`RcSlices.SliceAsWritten`).
- RcSlices.Eq: compares the two slices' vectors in its shortcut; as written (`RcSlices.EqAsWritten`) `[1]` and `[2]` views with equal start and length are equal.
- Transformations.BodiesInSourceOrder: assumes the bodies are stored on the stack in reverse order, as the caller of `from_evaluating_lambda` must arrange; how the source fills that vector is not shown in `src/eval/transformations.rs`.

## Findings

| source | as written | input that shows it | evidently intended | confidence | as-written member | corrected member |
|---|---|---|---|---|---|---|
| src/stdlib/arithmetic.rs:34-53 | the `first` flag of `sub_ints` is never cleared, so each step after the second negates the accumulator again | `(- 10 3 2)` gives -9 | 10 - 3 - 2 = 5 | high (not executed) | Arithmetic.SubIntsDiffersOnThree | Arithmetic.SubFoldSubtractsRest |
| src/stdlib/types.rs:131-139 | an empty list pops the `(` it just wrote and one more character, then writes `)` | `(x ())` prints as `(x,))`; `()` prints as `)` | `(x, ())` and `()` | high (not executed) | Types.NestedEmptyListPrintsClose | Types.NestedEmptyListShown |
| src/eval/procedure.rs:37-42 | the expected-arity text uses the argument count instead of the parameter count, and `"exactly "` plus a padded number gives a double space | a two-parameter lambda called with one argument says `exactly  1` | `exactly 2` | high (not executed) | Procedures.GenEnvMessageAsWritten | Procedures.ArityText |
| src/parse/tokens.rs:263-266 | a hex digit of a `\x` escape is converted as `c - '0'`, which is wrong for `a`-`f` | `"\x0a"` decodes to `1` | a newline (0x0A) | high (not executed) | Lexer.XEscapeLetterMisread | Lexer.XEscapeRoundTrip |
| src/parse/tokens.rs:238-242 | a hex digit of a `\u{..}` escape is converted as `c - '0'` | `"\u{a}"` decodes to character 49 | a newline (0x0A) | high (not executed) | Lexer.UEscapeLetterMisread | Lexer.UEscapeRoundTrip |
| src/parse/tokens.rs:227-236 | on a non-hex character before any `}`, the escape text is sliced past its end | `"\u{1g` slices out of range (a panic) | a `BadEscape` error | medium (not executed) | Lexer.UEscapeUnclosedPanics | Lexer.UEscapeUnclosedReported |
| src/util/mod.rs:44-52 | `slice` sets the new start to `from`, not `self.start + from` | the tail of the tail of `[1, 2, 3]` is `[2]` | `[3]` | high (not executed) | RcSlices.TailOfTailAsWritten | RcSlices.TailOfTail |
| src/util/mod.rs:32-34 | `init` slices from 0, which `slice` takes as the vector's index 0, not the view's start | the init of the tail of `[1, 2, 3]` is `[1]` | `[2]` | high (not executed) | RcSlices.InitOfTailAsWritten | RcSlices.InitOfTail |
| src/util/mod.rs:73-90 | the shortcut compares `self.data` with itself, so equal starts and lengths make any two slices equal | `[1]` equals `[2]` | elementwise comparison | high (not executed) | RcSlices.EqAsWrittenIgnoresContents | RcSlices.EqIsElementwise |
