// The reader's error messages on sample programs: a bad escape, a string
// left open, a number or a string run into a letter, a number that neither
// integer nor float parsing accepts, a group left open around a string full
// of closers, and a string with an escape that reads back decoded.

module ReaderSamples {
  import opened Prelude
  import opened TokenKinds
  import opened ParseErrors
  import opened Lexer
  import opened Values
  import opened Reader
  import opened ReaderLaws

  // ---------------------------------------------------------------- messages

  lemma BadEscapeMessage(line: nat, column: nat, s: string)
    requires line < 10 && column < 10
    ensures Message(BadEscape(Position(line, column), s))
      == "Invalid escape sequence starting at line " + ['0' + line as char] + ", column " + ['0' + column as char] + ": " + s
  {
    SmallPositionText(line, column);
  }

  lemma UnterminatedMessage(line: nat, column: nat)
    requires line < 10 && column < 10
    ensures Message(UnterminatedString(Position(line, column)))
      == "Unterminated string beginning at line " + ['0' + line as char] + ", column " + ['0' + column as char]
  {
    SmallPositionText(line, column);
  }

  /** Inside a group, a token the lexer rejects ends the group with the
      lexer's error. */
  lemma DelimitedTokenError(input: string, i: nat, opener: Open, acc: seq<Value>, pf: FloatParser)
    requires i <= |input|
    requires NextToken(input, i).result.Some? && NextToken(input, i).result.value.Err?
    ensures ParseDelimitedF(input, i, opener, acc, pf).result == Err(NextToken(input, i).result.value.error)
  {
  }

  /** Inside a group, a parenthesised group adds its list and reading goes
      on after its closer. */
  lemma DelimitedList(input: string, i: nat, opener: Open, acc: seq<Value>, pf: FloatParser, items: seq<Value>, k: nat)
    requires i <= |input|
    requires var t := NextToken(input, i);
      t.result.Some? && t.result.value.Ok? && t.result.value.value.tt == OpenTok(LParen)
      && ParseDelimitedF(input, t.next, LParen, [], pf) == Lexed(Ok(items), k)
    ensures k <= |input|
    ensures ParseDelimitedF(input, i, opener, acc, pf).result == ParseDelimitedF(input, k, opener, acc + [List(items)], pf).result
  {
    DelimitedNext(input, i, opener, acc, pf);
  }

  /** Inside a group, an inner group that fails ends the outer one with the
      same error. */
  lemma DelimitedInnerError(input: string, i: nat, opener: Open, acc: seq<Value>, pf: FloatParser, e: ParseError)
    requires i <= |input|
    requires var t := NextToken(input, i);
      t.result.Some? && t.result.value.Ok? && t.result.value.value.tt.OpenTok?
      && ParseDelimitedF(input, t.next, t.result.value.value.tt.open, [], pf).result == Err(e)
    ensures ParseDelimitedF(input, i, opener, acc, pf).result == Err(e)
  {
    DelimitedNext(input, i, opener, acc, pf);
  }

  /** A group whose first element is a symbol fails as the rest of it does. */
  lemma SymbolFirstThenError(input: string, i: nat, opener: Open, pf: FloatParser, name: string, k: nat, e: ParseError)
    requires i <= |input|
    requires var t := NextToken(input, i);
      t.next == k && t.result.Some? && t.result.value.Ok? && t.result.value.value.tt == SymbolTok(name)
    requires name !in {"true", "false"}
    requires k <= |input| && ParseDelimitedF(input, k, opener, [Ident(name)], pf).result == Err(e)
    ensures ParseDelimitedF(input, i, opener, [], pf).result == Err(e)
  {
    var none: seq<Value> := [];
    DelimitedSymbol(input, i, opener, none, pf, name, k);
    assert none + [Ident(name)] == [Ident(name)];
  }

  // ---------------------------------------------------------------- a bad \x escape

  lemma BadHexEscapeToken(input: string)
    requires input == "\"\\x99\""
    ensures NextToken(input, 0).result == Some(Err(BadEscape(Position(1, 2), "\\x9")))
  {
    assert BlankUpTo(input, 0, 0);
    SkipTo(input, 0, 0);
    PlainThenEscape(input, 1, 1, "", PosOf(input, 0), 1);
    FirstLine(input, 1);
    assert input[1..4] == "\\x9";
  }

  lemma BadHexEscapeText()
    ensures Message(BadEscape(Position(1, 2), "\\x9")) == "Invalid escape sequence starting at line 1, column 2: \\x9"
  {
    BadEscapeMessage(1, 2, "\\x9");
  }

  /** A `\x` escape whose first digit is above 7 is reported at its
      backslash, quoting the backslash, the `x` and that digit. */
  lemma BadHexEscapeIsReported(pf: FloatParser)
    ensures ParseF("\"\\x99\"", pf) == Err(BadEscape(Position(1, 2), "\\x9"))
    ensures Message(ParseF("\"\\x99\"", pf).error) == "Invalid escape sequence starting at line 1, column 2: \\x9"
  {
    BadHexEscapeToken("\"\\x99\"");
    BadHexEscapeText();
  }

  // ---------------------------------------------------------------- a backslash at the end

  lemma BackslashAtEndToken(input: string, pf: FloatParser)
    requires input == "x \"\\"
    ensures ParseOneExprF(input, 1, pf).result == Err(UnterminatedString(Position(1, 3)))
  {
    assert BlankUpTo(input, 1, 2);
    SkipTo(input, 1, 2);
    FirstLine(input, 2);
    PlainThenEscape(input, 3, 3, "", PosOf(input, 2), 3);
  }

  lemma BackslashAtEndText()
    ensures Message(UnterminatedString(Position(1, 3))) == "Unterminated string beginning at line 1, column 3"
  {
    UnterminatedMessage(1, 3);
  }

  /** A string that ends in the middle of an escape is unterminated, and is
      reported at its opening quote. */
  lemma BackslashAtEndIsUnterminated(pf: FloatParser)
    ensures ParseF("x \"\\", pf) == Err(UnterminatedString(Position(1, 3)))
    ensures Message(ParseF("x \"\\", pf).error) == "Unterminated string beginning at line 1, column 3"
  {
    var input := "x \"\\";
    var none: seq<Value> := [];
    BackslashAtEndToken(input, pf);
    assert BlankUpTo(input, 0, 0);
    SymbolAt(input, 0, 0, 1);
    assert input[0..1] == "x";
    TopLevelSymbol(input, 0, none, pf, "x", 1);
    BackslashAtEndText();
  }

  // ---------------------------------------------------------------- a number run into a letter

  lemma NumberThenLetterTail(input: string, pf: FloatParser)
    requires input == "(+ 3z)"
    ensures ParseDelimitedF(input, 2, LParen, [Ident("+")], pf).result
      == Err(UnexpectedChar('z', Position(1, 5), Context("number", Position(1, 4))))
  {
    assert BlankUpTo(input, 2, 3);
    SkipTo(input, 2, 3);
    FirstLine(input, 3);
    FirstLine(input, 4);
    assert LexNumber(input, 3, 4, Position(1, 4)).next == 4 by {
      assert !IsNumberChar(input[4]);
    }
  }

  lemma NumberThenLetterGroup(input: string, pf: FloatParser)
    requires input == "(+ 3z)"
    ensures ParseDelimitedF(input, 1, LParen, [], pf).result
      == Err(UnexpectedChar('z', Position(1, 5), Context("number", Position(1, 4))))
  {
    var none: seq<Value> := [];
    NumberThenLetterTail(input, pf);
    PlusSymbol(input);
    DelimitedSymbol(input, 1, LParen, none, pf, "+", 2);
    assert none + [Ident("+")] == [Ident("+")];
  }

  lemma NumberContextText()
    ensures Context("number", Position(1, 4)) == "while parsing a number starting at line 1, column 4"
  {
    SmallPositionText(1, 4);
  }

  lemma NumberThenLetterHead()
    ensures "Unexpected character " + ['z'] + " at " + PositionText(Position(1, 5)) + ", " == "Unexpected character z at line 1, column 5, "
  {
    SmallPositionText(1, 5);
  }

  /** The expected message, written as two literals joined. */
  lemma NumberThenLetterText()
    ensures Message(UnexpectedChar('z', Position(1, 5), Context("number", Position(1, 4))))
      == "Unexpected character z at line 1, column 5, " + "while parsing a number starting at line 1, column 4"
  {
    NumberContextText();
    NumberThenLetterHead();
  }

  /** A number must end at a delimiter: the letter after it is reported at
      its own column, naming where the number began. */
  lemma NumberThenLetterIsUnexpected(pf: FloatParser)
    ensures ParseF("(+ 3z)", pf) == Err(UnexpectedChar('z', Position(1, 5), Context("number", Position(1, 4))))
    ensures Message(ParseF("(+ 3z)", pf).error)
      == "Unexpected character z at line 1, column 5, " + "while parsing a number starting at line 1, column 4"
  {
    var input := "(+ 3z)";
    NumberThenLetterGroup(input, pf);
    DelimAt(input, 0, 0);
    GroupErrorStopsParse(input, 0, [], pf, UnexpectedChar('z', Position(1, 5), Context("number", Position(1, 4))));
    NumberThenLetterText();
  }

  // ---------------------------------------------------------------- a string run into a letter

  lemma StringThenLetterBody(input: string)
    requires input == "(->int \"10\"x 5)"
    ensures LexString(input, 8, Position(1, 8)).result
      == Err(UnexpectedChar('x', Position(1, 12), Context("string", Position(1, 8))))
  {
    FirstLine(input, 11);
    PlainStringBody(input, 8, 8, "", Position(1, 8), 10);
    assert !IsDelimiter(input[11]);
  }

  lemma StringThenLetterToken(input: string)
    requires input == "(->int \"10\"x 5)"
    ensures NextToken(input, 6).result
      == Some(Err(UnexpectedChar('x', Position(1, 12), Context("string", Position(1, 8)))))
  {
    assert BlankUpTo(input, 6, 7);
    SkipTo(input, 6, 7);
    FirstLine(input, 7);
    StringThenLetterBody(input);
  }

  lemma StringThenLetterTail(input: string, pf: FloatParser)
    requires input == "(->int \"10\"x 5)"
    ensures ParseDelimitedF(input, 6, LParen, [Ident("->int")], pf).result
      == Err(UnexpectedChar('x', Position(1, 12), Context("string", Position(1, 8))))
  {
    StringThenLetterToken(input);
    DelimitedTokenError(input, 6, LParen, [Ident("->int")], pf);
  }

  lemma ArrowIntSymbol(input: string)
    requires 7 <= |input| && input[..7] == "(->int "
    ensures var t := NextToken(input, 1);
      t.next == 6 && t.result.Some? && t.result.value.Ok? && t.result.value.value.tt == SymbolTok("->int")
  {
    assert input[1] == '-' && input[2] == '>' && input[6] == ' ';
    assert forall m :: 1 < m < 6 ==> IsSymbolChar(input[m]);
    assert BlankUpTo(input, 1, 1);
    SymbolAt(input, 1, 1, 6);
    assert input[1..6] == "->int";
  }

  lemma StringThenLetterGroup(input: string, pf: FloatParser)
    requires input == "(->int \"10\"x 5)"
    ensures ParseDelimitedF(input, 1, LParen, [], pf).result
      == Err(UnexpectedChar('x', Position(1, 12), Context("string", Position(1, 8))))
  {
    var none: seq<Value> := [];
    StringThenLetterTail(input, pf);
    ArrowIntSymbol(input);
    DelimitedSymbol(input, 1, LParen, none, pf, "->int", 6);
    assert none + [Ident("->int")] == [Ident("->int")];
  }

  lemma StringContextText()
    ensures Context("string", Position(1, 8)) == "while parsing a string starting at line 1, column 8"
  {
    SmallPositionText(1, 8);
  }

  lemma StringThenLetterHead()
    ensures "Unexpected character " + ['x'] + " at " + PositionText(Position(1, 12)) + ", " == "Unexpected character x at line 1, column 12, "
  {
    ColumnTwelveText();
  }

  lemma ColumnTwelveText()
    ensures PositionText(Position(1, 12)) == "line 1, column 12"
  {
    assert NatToString(12) == NatToString(1) + ['2'];
  }

  /** The expected message, written as two literals joined. */
  lemma StringThenLetterText()
    ensures Message(UnexpectedChar('x', Position(1, 12), Context("string", Position(1, 8))))
      == "Unexpected character x at line 1, column 12, " + "while parsing a string starting at line 1, column 8"
  {
    StringContextText();
    StringThenLetterHead();
  }

  /** A closing quote must be followed by a delimiter: the letter after it
      is reported at its own column, naming where the string began. */
  lemma StringThenLetterIsUnexpected(pf: FloatParser)
    ensures ParseF("(->int \"10\"x 5)", pf) == Err(UnexpectedChar('x', Position(1, 12), Context("string", Position(1, 8))))
    ensures Message(ParseF("(->int \"10\"x 5)", pf).error)
      == "Unexpected character x at line 1, column 12, " + "while parsing a string starting at line 1, column 8"
  {
    var input := "(->int \"10\"x 5)";
    StringThenLetterGroup(input, pf);
    DelimAt(input, 0, 0);
    GroupErrorStopsParse(input, 0, [], pf, UnexpectedChar('x', Position(1, 12), Context("string", Position(1, 8))));
    StringThenLetterText();
  }

  // ---------------------------------------------------------------- a number neither parser accepts

  /** Inside a group, a number token that reads as an `i64` adds that
      integer and reading goes on after it. */
  lemma DelimitedInt(input: string, i: nat, opener: Open, acc: seq<Value>, pf: FloatParser, text: string, n: I64, k: nat)
    requires i <= |input|
    requires var t := NextToken(input, i);
      t.next == k && t.result.Some? && t.result.value.Ok? && t.result.value.value.tt == NumberTok(text)
    requires ParseI64(text) == Some(n)
    ensures k <= |input|
    ensures ParseDelimitedF(input, i, opener, acc, pf) == ParseDelimitedF(input, k, opener, acc + [Int(n)], pf)
  {
    assert OneExprF(input, NextToken(input, i).result.value.value, k, pf) == Lexed(Ok(Int(n)), k);
  }

  /** Inside a group, a number token that neither parser accepts ends the
      group with the conversion error. */
  lemma DelimitedBadNumber(input: string, i: nat, opener: Open, acc: seq<Value>, pf: FloatParser, text: string)
    requires i <= |input|
    requires var t := NextToken(input, i);
      t.result.Some? && t.result.value.Ok? && t.result.value.value.tt == NumberTok(text)
    requires ParseI64(text).None? && pf(text).None?
    ensures ParseDelimitedF(input, i, opener, acc, pf).result == Err(ConversionError(text, "invalid float literal"))
  {
    DelimitedNext(input, i, opener, acc, pf);
  }

  /** Text with a digit first and a non-digit later is no `i64`. */
  lemma NotAnInt(s: string, k: nat)
    requires 0 < k < |s| && IsDigit(s[0]) && !IsDigit(s[k])
    ensures ParseI64(s) == None
  {
    assert !IsDigit(s[k]);
  }

  lemma ThreeIsAnInt()
    ensures ParseI64("3") == Some(3)
  {
    var s := "3";
    assert s[..|s| - 1] == [];
    assert DigitsValue(s) == DigitValue('3') == 3;
  }

  lemma UnparsableNumberToken(input: string)
    requires input == "(+ 3 32.e.)"
    ensures var t := NextToken(input, 4);
      t.result.Some? && t.result.value.Ok? && t.result.value.value.tt == NumberTok("32.e.")
  {
    assert BlankUpTo(input, 4, 5);
    SkipTo(input, 4, 5);
    RunEndStops(input, 6, 10, IsNumberChar);
    assert input[5..10] == "32.e.";
  }

  lemma ThreeToken(input: string)
    requires input == "(+ 3 32.e.)"
    ensures var t := NextToken(input, 2);
      t.next == 4 && t.result.Some? && t.result.value.Ok? && t.result.value.value.tt == NumberTok("3")
  {
    assert BlankUpTo(input, 2, 3);
    SkipTo(input, 2, 3);
    RunEndStops(input, 4, 4, IsNumberChar);
    assert input[3..4] == "3";
  }

  lemma UnparsableNumberAfterInt(input: string, pf: FloatParser)
    requires input == "(+ 3 32.e.)"
    requires pf("32.e.").None?
    ensures ParseDelimitedF(input, 2, LParen, [Ident("+")], pf).result
      == Err(ConversionError("32.e.", "invalid float literal"))
  {
    UnparsableNumberToken(input);
    NotAnInt("32.e.", 2);
    DelimitedBadNumber(input, 4, LParen, [Ident("+"), Int(3)], pf, "32.e.");
    ThreeToken(input);
    ThreeIsAnInt();
    DelimitedInt(input, 2, LParen, [Ident("+")], pf, "3", 3, 4);
    assert [Ident("+")] + [Int(3)] == [Ident("+"), Int(3)];
  }

  lemma PlusSymbol(input: string)
    requires 3 <= |input| && input[..3] == "(+ "
    ensures var t := NextToken(input, 1);
      t.next == 2 && t.result.Some? && t.result.value.Ok? && t.result.value.value.tt == SymbolTok("+")
  {
    assert input[1] == '+' && input[2] == ' ';
    assert BlankUpTo(input, 1, 1);
    SymbolAt(input, 1, 1, 2);
    assert input[1..2] == "+";
  }

  lemma UnparsableNumberGroup(input: string, pf: FloatParser)
    requires input == "(+ 3 32.e.)"
    requires pf("32.e.").None?
    ensures ParseDelimitedF(input, 1, LParen, [], pf).result
      == Err(ConversionError("32.e.", "invalid float literal"))
  {
    var none: seq<Value> := [];
    UnparsableNumberAfterInt(input, pf);
    PlusSymbol(input);
    DelimitedSymbol(input, 1, LParen, none, pf, "+", 2);
    assert none + [Ident("+")] == [Ident("+")];
  }

  /** A number token that is neither an `i64` nor a float the float parser
      accepts (Rust's `f64` parser rejects `32.e.`) is a conversion error
      naming the token's text. */
  lemma UnparsableNumberIsConversionError(pf: FloatParser)
    requires pf("32.e.").None?
    ensures ParseF("(+ 3 32.e.)", pf) == Err(ConversionError("32.e.", "invalid float literal"))
  {
    var input := "(+ 3 32.e.)";
    UnparsableNumberGroup(input, pf);
    DelimAt(input, 0, 0);
    GroupErrorStopsParse(input, 0, [], pf, ConversionError("32.e.", "invalid float literal"));
  }

  // ---------------------------------------------------------------- closers inside a string

  lemma CloserStringToken(input: string)
    requires input == "(x (y (z) \"())))))\""
    ensures var t := NextToken(input, 9);
      t.next == 19 && t.result.Some? && t.result.value.Ok? && t.result.value.value.tt == StringTok("())))))")
  {
    assert BlankUpTo(input, 9, 10);
    SkipTo(input, 9, 10);
    PlainStringBody(input, 11, 11, "", PosOf(input, 10), 18);
    assert input[11..18] == "())))))";
  }

  lemma CloserStringThenEnd(input: string, pf: FloatParser)
    requires input == "(x (y (z) \"())))))\""
    ensures ParseDelimitedF(input, 9, LParen, [Ident("y"), List([Ident("z")])], pf).result == Err(MissingRightDelimiter(RParen))
  {
    CloserStringToken(input);
    EndAt(input, 19);
    DelimitedNext(input, 9, LParen, [Ident("y"), List([Ident("z")])], pf);
  }

  lemma OneLetterSymbol(input: string, i: nat)
    requires input == "(x (y (z) \"())))))\""
    requires i in {1, 4, 7}
    ensures var t := NextToken(input, i);
      t.next == i + 1 && t.result.Some? && t.result.value.Ok? && t.result.value.value.tt == SymbolTok([input[i]])
  {
    assert BlankUpTo(input, i, i);
    SymbolAt(input, i, i, i + 1);
    assert input[i..i + 1] == [input[i]];
  }

  lemma InnermostGroup(input: string, pf: FloatParser)
    requires input == "(x (y (z) \"())))))\""
    ensures ParseDelimitedF(input, 7, LParen, [], pf) == Lexed(Ok([Ident("z")]), 9)
  {
    var none: seq<Value> := [];
    OneLetterSymbol(input, 7);
    assert [input[7]] == "z";
    DelimitedSymbol(input, 7, LParen, none, pf, "z", 8);
    assert none + [Ident("z")] == [Ident("z")];
    DelimAt(input, 8, 8);
    DelimitedClose(input, 8, LParen, [Ident("z")], pf);
  }

  lemma OpenerAt(input: string, i: nat, k: nat)
    requires input == "(x (y (z) \"())))))\""
    requires (i, k) in {(2, 3), (5, 6)}
    ensures var t := NextToken(input, i);
      t.next == k + 1 && t.result.Some? && t.result.value.Ok? && t.result.value.value.tt == OpenTok(LParen)
  {
    assert BlankUpTo(input, i, k);
    DelimAt(input, i, k);
  }

  lemma MiddleGroupAfterY(input: string, pf: FloatParser)
    requires input == "(x (y (z) \"())))))\""
    ensures ParseDelimitedF(input, 5, LParen, [Ident("y")], pf).result == Err(MissingRightDelimiter(RParen))
  {
    CloserStringThenEnd(input, pf);
    InnermostGroup(input, pf);
    OpenerAt(input, 5, 6);
    DelimitedList(input, 5, LParen, [Ident("y")], pf, [Ident("z")], 9);
    assert [Ident("y")] + [List([Ident("z")])] == [Ident("y"), List([Ident("z")])];
  }

  /** The two outer groups of `(x (y ...`: each fails as what follows its
      first symbol does. */
  lemma OuterGroups(input: string, pf: FloatParser, e: ParseError)
    requires 5 <= |input|
    requires var t := NextToken(input, 1);
      t.next == 2 && t.result.Some? && t.result.value.Ok? && t.result.value.value.tt == SymbolTok("x")
    requires var t := NextToken(input, 2);
      t.next == 4 && t.result.Some? && t.result.value.Ok? && t.result.value.value.tt == OpenTok(LParen)
    requires var t := NextToken(input, 4);
      t.next == 5 && t.result.Some? && t.result.value.Ok? && t.result.value.value.tt == SymbolTok("y")
    requires ParseDelimitedF(input, 5, LParen, [Ident("y")], pf).result == Err(e)
    ensures ParseDelimitedF(input, 1, LParen, [], pf).result == Err(e)
  {
    SymbolFirstThenError(input, 4, LParen, pf, "y", 5, e);
    DelimitedInnerError(input, 2, LParen, [Ident("x")], pf, e);
    SymbolFirstThenError(input, 1, LParen, pf, "x", 2, e);
  }

  lemma CloserStringGroup(input: string, pf: FloatParser)
    requires input == "(x (y (z) \"())))))\""
    ensures ParseDelimitedF(input, 1, LParen, [], pf).result == Err(MissingRightDelimiter(RParen))
  {
    MiddleGroupAfterY(input, pf);
    OneLetterSymbol(input, 4);
    OpenerAt(input, 2, 3);
    OneLetterSymbol(input, 1);
    assert [input[1]] == "x" && [input[4]] == "y";
    OuterGroups(input, pf, MissingRightDelimiter(RParen));
  }

  /** Closers inside a string close nothing: the groups around the string
      are still open at the end of input, and the missing closer is
      reported. */
  lemma CloserStringLeavesGroupsOpen(pf: FloatParser)
    ensures ParseF("(x (y (z) \"())))))\"", pf) == Err(MissingRightDelimiter(RParen))
    ensures Message(ParseF("(x (y (z) \"())))))\"", pf).error) == "Missing right delimiter )"
  {
    var input := "(x (y (z) \"())))))\"";
    CloserStringGroup(input, pf);
    DelimAt(input, 0, 0);
    GroupErrorStopsParse(input, 0, [], pf, MissingRightDelimiter(RParen));
  }

  // ---------------------------------------------------------------- escapes that decode

  lemma NewlineEscapeToken(input: string)
    requires input == "\"fo\\no\""
    ensures var t := NextToken(input, 0);
      t.next == 7 && t.result.Some? && t.result.value.Ok? && t.result.value.value.tt == StringTok("fo\no")
  {
    var p := PosOf(input, 0);
    assert BlankUpTo(input, 0, 0);
    SkipTo(input, 0, 0);
    PlainThenEscape(input, 1, 1, "", p, 3);
    assert LexEscape(input, 3, PosOf(input, 3), p) == Lexed(Ok('\n'), 5);
    var acc := "" + input[1..3] + ['\n'];
    RunOpensAfterEscape(input, 5, acc, p);
    PlainStringBody(input, 5, 5, acc, p, 6);
    assert acc + input[5..6] == "fo\no";
  }

  /** `\n` inside a string reads as a newline character, and the text on
      both sides of it is kept. */
  lemma NewlineEscapeDecodes(pf: FloatParser)
    ensures ParseF("\"fo\\no\"", pf) == Ok([String("fo\no")])
  {
    var input := "\"fo\\no\"";
    var none: seq<Value> := [];
    NewlineEscapeToken(input);
    EndAt(input, 7);
    assert ParseOneExprF(input, 0, pf) == Lexed(Ok(Some(String("fo\no"))), 7);
    assert none + [String("fo\no")] == [String("fo\no")];
  }

  lemma QuoteByHexToken(input: string)
    requires input == "\"\\x22\""
    ensures var t := NextToken(input, 0);
      t.next == 6 && t.result.Some? && t.result.value.Ok? && t.result.value.value.tt == StringTok("\"")
  {
    var p := PosOf(input, 0);
    assert BlankUpTo(input, 0, 0);
    SkipTo(input, 0, 0);
    PlainThenEscape(input, 1, 1, "", p, 1);
    assert XEscapeValue('2', '2') == '"';
    assert LexEscape(input, 1, PosOf(input, 1), p) == Lexed(Ok('"'), 5);
    var acc := "" + input[1..1] + ['"'];
    RunOpensAfterEscape(input, 5, acc, p);
    PlainStringBody(input, 5, 5, acc, p, 5);
    assert acc + input[5..5] == "\"";
  }

  /** `\x22` inside a string reads as the double quote it encodes. */
  lemma QuoteByHexDecodes(pf: FloatParser)
    ensures ParseF("\"\\x22\"", pf) == Ok([String("\"")])
  {
    var input := "\"\\x22\"";
    var none: seq<Value> := [];
    QuoteByHexToken(input);
    EndAt(input, 6);
    assert ParseOneExprF(input, 0, pf) == Lexed(Ok(Some(String("\""))), 6);
    assert none + [String("\"")] == [String("\"")];
  }
}
