/** Laws of the reader of src/parse/mod.rs: what a delimited group reports
    compared with reading at top level, the order of top-level forms, the
    entries of map literals, and the messages tests/tokenization.rs expects
    for its sample programs. */
module ReaderLaws {
  import opened Prelude
  import opened TokenKinds
  import opened ParseErrors
  import opened Lexer
  import opened Values
  import opened Reader

  // ---------------------------------------------------------------- order and errors

  /** Forms read earlier, put in front of a reading result. */
  function Prepend(acc: seq<Value>, r: Result<seq<Value>, ParseError>): (p: Result<seq<Value>, ParseError>)
    ensures p.Err? <==> r.Err?
    ensures r.Err? ==> p == r
    ensures r.Ok? ==> p.value == acc + r.value
  {
    if r.Ok? then Ok(acc + r.value) else r
  }

  /** `parse` appends each form to what was read before it: reading after
      some forms gives those forms followed by what reading alone gives, and
      the same error when one occurs. */
  lemma {:induction false} ParseAllShift(input: string, i: nat, acc: seq<Value>, pf: FloatParser)
    requires i <= |input|
    ensures ParseAllF(input, i, acc, pf) == Prepend(acc, ParseAllF(input, i, [], pf))
    decreases |input| - i
  {
    var e := ParseOneExprF(input, i, pf);
    if e.result.Ok? && e.result.value.Some? {
      var v := e.result.value.value;
      ParseAllShift(input, e.next, [v], pf);
      ParseAllShift(input, e.next, acc + [v], pf);
      ShiftStep(input, i, acc, pf);
    } else if e.result.Ok? {
      assert acc + [] == acc;
    }
  }

  /** The inductive step of `ParseAllShift`. */
  lemma ShiftStep(input: string, i: nat, acc: seq<Value>, pf: FloatParser)
    requires i <= |input|
    requires ParseOneExprF(input, i, pf).result.Ok? && ParseOneExprF(input, i, pf).result.value.Some?
    requires var e := ParseOneExprF(input, i, pf);
      var v := e.result.value.value;
      && ParseAllF(input, e.next, [v], pf) == Prepend([v], ParseAllF(input, e.next, [], pf))
      && ParseAllF(input, e.next, acc + [v], pf) == Prepend(acc + [v], ParseAllF(input, e.next, [], pf))
    ensures ParseAllF(input, i, acc, pf) == Prepend(acc, ParseAllF(input, i, [], pf))
  {
    var e := ParseOneExprF(input, i, pf);
    var v := e.result.value.value;
    var none: seq<Value> := [];
    ParseAllStep(input, i, none, pf);
    assert none + [v] == [v];
    ParseAllStep(input, i, acc, pf);
    PrependTwice(acc, v, ParseAllF(input, e.next, [], pf));
  }

  lemma PrependTwice(acc: seq<Value>, v: Value, r: Result<seq<Value>, ParseError>)
    ensures Prepend(acc + [v], r) == Prepend(acc, Prepend([v], r))
  {
    if r.Ok? {
      assert acc + [v] + r.value == acc + ([v] + r.value);
    }
  }

  /** One step of `parse`'s loop: a form read is appended and reading goes
      on after it. */
  lemma ParseAllStep(input: string, i: nat, acc: seq<Value>, pf: FloatParser)
    requires i <= |input|
    requires ParseOneExprF(input, i, pf).result.Ok? && ParseOneExprF(input, i, pf).result.value.Some?
    ensures var e := ParseOneExprF(input, i, pf);
      ParseAllF(input, i, acc, pf) == ParseAllF(input, e.next, acc + [e.result.value.value], pf)
  {
  }

  /** Inside a group, `parse_delimited` reads exactly what top-level reading
      would, up to the first closer it meets itself: when the rest of the
      input reads as complete forms, the group is missing its closer; an
      error other than an extra closer is the same error; and a closer that
      top-level reading reports as extra either closes the group (the right
      closer) or is reported as extra naming the closer expected. */
  lemma {:induction false} DelimitedLikeTopLevel(input: string, i: nat, opener: Open, acc: seq<Value>, acc2: seq<Value>, pf: FloatParser)
    requires i <= |input|
    ensures var a := ParseAllF(input, i, acc, pf);
      var d := ParseDelimitedF(input, i, opener, acc2, pf);
      && (a.Ok? ==> d.result == Err(MissingRightDelimiter(ClosedBy(opener))))
      && (a.Err? && !a.error.ExtraRightDelimiter? ==> d.result == Err(a.error))
      && (a.Err? && a.error.ExtraRightDelimiter? ==>
            || d.result == Err(a.error)
            || (a.error.close == ClosedBy(opener) && d.result.Ok?)
            || (a.error.close != ClosedBy(opener) && d.result == Err(ExtraRightDelimiter(ClosedBy(opener), a.error.pos))))
    decreases |input| - i
  {
    var t := NextToken(input, i);
    if t.result.Some? && t.result.value.Ok? && !t.result.value.value.tt.CloseTok? {
      var tok := t.result.value.value;
      var e := OneExprF(input, tok, t.next, pf);
      if e.result.Ok? {
        DelimitedLikeTopLevel(input, e.next, opener, acc + [e.result.value], acc2 + [e.result.value], pf);
      }
    }
  }

  // ---------------------------------------------------------------- map literals

  /** In a `{..}` literal of immediate values, each key is bound to the value
      written after its LAST occurrence (both unquoted). */
  lemma BraceLastWins(values: seq<Value>, start: Position, k: nat)
    requires BraceValue(values, start).Ok? && AllImmediate(values)
    requires k < |Evens(values)|
    requires forall j :: 0 <= j < |Evens(values)| ==> ImmediateValue(Evens(values)[j])
    requires forall j :: k < j < |Evens(values)| ==> Reader.Unquote(Evens(values)[j]) != Reader.Unquote(Evens(values)[k])
    ensures ImmediateValue(Odds(values)[k])
    ensures BraceValue(values, start).value.entries[Reader.Unquote(Evens(values)[k])] == Reader.Unquote(Odds(values)[k])
  {
    var keys, vals := UnquoteAll(Evens(values)), UnquoteAll(Odds(values));
    assert |values| % 2 == 0;
    assert forall j :: 0 <= j < |Odds(values)| ==> ImmediateValue(Odds(values)[j]);
    MapOfPairsLastWins(keys, vals, k);
  }

  // ---------------------------------------------------------------- reading sample programs

  /** Whitespace from `i` up to `k`, where a non-blank character or the end
      of input stands. */
  predicate BlankUpTo(input: string, i: nat, k: nat)
  {
    i <= k <= |input| && (forall j :: i <= j < k ==> IsWhitespace(input[j])) && (k < |input| ==> !IsWhitespace(input[k]))
  }

  lemma {:induction false} SkipTo(input: string, i: nat, k: nat)
    requires BlankUpTo(input, i, k)
    ensures SkipWs(input, i) == k
    decreases k - i
  {
    if i < k {
      SkipTo(input, i + 1, k);
    }
  }

  lemma {:induction false} RunToEnd(input: string, i: nat, inRun: char -> bool)
    requires i <= |input|
    requires forall j :: i <= j < |input| ==> inRun(input[j])
    ensures RunEnd(input, i, inRun) == |input|
    decreases |input| - i
  {
    if i < |input| {
      RunToEnd(input, i + 1, inRun);
    }
  }

  lemma {:induction false} NoNewlines(s: string)
    requires forall j :: 0 <= j < |s| ==> s[j] != '\n'
    ensures NewlineIndices(s) == []
  {
    if s != [] {
      NoNewlines(s[..|s| - 1]);
    }
  }

  /** On a first line, the character at index `k` is at column `k + 1`. */
  lemma FirstLine(input: string, k: nat)
    requires k < |input|
    requires forall j :: 0 <= j <= k ==> input[j] != '\n'
    ensures PosOf(input, k) == Position(1, k + 1)
  {
    NoNewlines(input[..k + 1]);
    PosAfterLines(input[..k + 1]);
  }

  lemma EndAt(input: string, i: nat)
    requires BlankUpTo(input, i, |input|)
    ensures NextToken(input, i) == Lexed(None, |input|)
  {
    SkipTo(input, i, |input|);
  }

  lemma DelimAt(input: string, i: nat, k: nat)
    requires BlankUpTo(input, i, k) && k < |input|
    requires input[k] in {'(', ')', '[', ']', '{', '}'}
    ensures NextToken(input, i) == Lexed(Some(Ok(NewDelim(input[k], PosOf(input, k)).value)), k + 1)
  {
    SkipTo(input, i, k);
  }

  lemma QuoteAt(input: string, i: nat, k: nat)
    requires BlankUpTo(input, i, k) && k < |input| && input[k] == '\''
    ensures NextToken(input, i) == Lexed(Some(Ok(Token(FormLikeTok(Quote), PosOf(input, k), Next(PosOf(input, k))))), k + 1)
  {
    SkipTo(input, i, k);
  }

  /** A symbol from `k` up to the delimiter or end at `j`. */
  lemma SymbolAt(input: string, i: nat, k: nat, j: nat)
    requires BlankUpTo(input, i, k) && k < j <= |input|
    requires IsSymbolStart(input[k]) && input[k] != '`' && input[k] != '~'
    requires !(input[k] in {'+', '-'} && k + 1 < |input| && IsDigit(input[k + 1]))
    requires forall m :: k < m < j ==> IsSymbolChar(input[m])
    requires j == |input| || IsDelimiter(input[j])
    ensures var t := NextToken(input, i);
      t.next == j && t.result.Some? && t.result.value.Ok? && t.result.value.value.tt == SymbolTok(input[k..j])
  {
    SkipTo(input, i, k);
    if k + 1 < |input| && !IsDelimiter(input[k + 1]) {
      if j < |input| {
        RunEndStops(input, k + 2, j, IsSymbolChar);
      } else {
        RunToEnd(input, k + 2, IsSymbolChar);
      }
    } else if k + 1 == |input| {
      RunToEnd(input, k + 1, IsSymbolChar);
    }
  }

  /** Inside a group, a token other than a closer starts the next
      expression; an error in it ends the group. */
  lemma DelimitedNext(input: string, i: nat, opener: Open, acc: seq<Value>, pf: FloatParser)
    requires i <= |input|
    requires var t := NextToken(input, i); t.result.Some? && t.result.value.Ok? && !t.result.value.value.tt.CloseTok?
    ensures var t := NextToken(input, i);
      var e := OneExprF(input, t.result.value.value, t.next, pf);
      ParseDelimitedF(input, i, opener, acc, pf).result
        == if e.result.Err? then Err(e.result.error) else ParseDelimitedF(input, e.next, opener, acc + [e.result.value], pf).result
  {
  }

  /** Inside a group, a symbol token adds its value and reading goes on
      after it. */
  lemma DelimitedSymbol(input: string, i: nat, opener: Open, acc: seq<Value>, pf: FloatParser, name: string, k: nat)
    requires i <= |input|
    requires var t := NextToken(input, i);
      t.next == k && t.result.Some? && t.result.value.Ok? && t.result.value.value.tt == SymbolTok(name)
    requires name !in {"true", "false"}
    ensures k <= |input|
    ensures ParseDelimitedF(input, i, opener, acc, pf) == ParseDelimitedF(input, k, opener, acc + [Ident(name)], pf)
  {
    assert OneExprF(input, NextToken(input, i).result.value.value, k, pf) == Lexed(Ok(Ident(name)), k);
  }

  /** A group that fails makes the whole program fail with its error. */
  lemma GroupErrorStopsParse(input: string, i: nat, acc: seq<Value>, pf: FloatParser, e: ParseError)
    requires i <= |input|
    requires var t := NextToken(input, i);
      t.result.Some? && t.result.value.Ok? && t.result.value.value.tt.OpenTok?
      && ParseDelimitedF(input, t.next, t.result.value.value.tt.open, [], pf).result == Err(e)
    ensures ParseAllF(input, i, acc, pf) == Err(e)
  {
  }

  lemma QuotedCloserSteps(input: string, pf: FloatParser)
    requires input == "(foo ')"
    ensures ParseOneExprF(input, 6, pf).result == Err(ExtraRightDelimiter(RParen, Position(1, 7)))
  {
    DelimAt(input, 6, 6);
    FirstLine(input, 6);
  }

  lemma QuotedCloserGroup(input: string, pf: FloatParser)
    requires input == "(foo ')"
    ensures ParseDelimitedF(input, 4, LParen, [Ident("foo")], pf).result == Err(ExtraRightDelimiter(RParen, Position(1, 7)))
  {
    QuotedCloserSteps(input, pf);
    assert BlankUpTo(input, 4, 5);
    QuoteAt(input, 4, 5);
    DelimitedNext(input, 4, LParen, [Ident("foo")], pf);
  }

  lemma FooSymbol(input: string)
    requires 5 <= |input| && input[..5] == "(foo "
    ensures var t := NextToken(input, 1);
      t.next == 4 && t.result.Some? && t.result.value.Ok? && t.result.value.value.tt == SymbolTok("foo")
  {
    assert input[1] == 'f' && input[4] == ' ';
    assert BlankUpTo(input, 1, 1);
    SymbolAt(input, 1, 1, 4);
    assert input[1..4] == "foo";
  }

  lemma QuotedCloserOpen(input: string, pf: FloatParser)
    requires input == "(foo ')"
    ensures ParseDelimitedF(input, 1, LParen, [], pf).result == Err(ExtraRightDelimiter(RParen, Position(1, 7)))
  {
    QuotedCloserGroup(input, pf);
    FooSymbol(input);
    DelimitedSymbol(input, 1, LParen, [], pf, "foo", 4);
  }

  /** A quote whose quoted expression is a closer: the closer is extra, at
      its own column. */
  lemma QuotedCloserIsExtra(pf: FloatParser)
    ensures ParseF("(foo ')", pf) == Err(ExtraRightDelimiter(RParen, Position(1, 7)))
    ensures Message(ParseF("(foo ')", pf).error) == "Extra right delimiter ) at line 1, column 7"
  {
    var input := "(foo ')";
    QuotedCloserOpen(input, pf);
    DelimAt(input, 0, 0);
    GroupErrorStopsParse(input, 0, [], pf, ExtraRightDelimiter(RParen, Position(1, 7)));
    ExtraAtColumn7();
  }

  /** The message of an extra `)` on a line and column of one digit each. */
  lemma ExtraMessage(line: nat, column: nat)
    requires line < 10 && column < 10
    ensures Message(ExtraRightDelimiter(RParen, Position(line, column)))
      == "Extra right delimiter ) at line " + ['0' + line as char] + ", column " + ['0' + column as char]
  {
    SmallPositionText(line, column);
    var text := "line " + ['0' + line as char] + ", column " + ['0' + column as char];
    assert Message(ExtraRightDelimiter(RParen, Position(line, column))) == "Extra right delimiter " + [')'] + " at " + text;
  }

  lemma ExtraAtColumn7()
    ensures Message(ExtraRightDelimiter(RParen, Position(1, 7))) == "Extra right delimiter ) at line 1, column 7"
  {
    ExtraMessage(1, 7);
  }

  lemma ExtraAtColumn9()
    ensures Message(ExtraRightDelimiter(RParen, Position(1, 9))) == "Extra right delimiter ) at line 1, column 9"
  {
    ExtraMessage(1, 9);
  }

  /** The text of a position whose line and column are single digits. */
  lemma SmallPositionText(line: nat, column: nat)
    requires line < 10 && column < 10
    ensures PositionText(Position(line, column)) == "line " + ['0' + line as char] + ", column " + ['0' + column as char]
  {
  }

  /** Inside a group, its own closer ends it with what was read so far. */
  lemma DelimitedClose(input: string, i: nat, opener: Open, acc: seq<Value>, pf: FloatParser)
    requires i <= |input|
    requires var t := NextToken(input, i);
      t.result.Some? && t.result.value.Ok? && t.result.value.value.tt == CloseTok(ClosedBy(opener))
    ensures ParseDelimitedF(input, i, opener, acc, pf) == Lexed(Ok(acc), NextToken(input, i).next)
  {
  }

  /** At top level, a symbol token adds its value and reading goes on after it. */
  lemma TopLevelSymbol(input: string, i: nat, acc: seq<Value>, pf: FloatParser, name: string, k: nat)
    requires i <= |input|
    requires var t := NextToken(input, i);
      t.next == k && t.result.Some? && t.result.value.Ok? && t.result.value.value.tt == SymbolTok(name)
    requires name !in {"true", "false"}
    ensures k <= |input|
    ensures ParseAllF(input, i, acc, pf) == ParseAllF(input, k, acc + [Ident(name)], pf)
  {
    assert ParseOneExprF(input, i, pf) == Lexed(Ok(Some(Ident(name))), k);
  }

  /** At top level, a parenthesised group adds its list and reading goes on
      after its closer. */
  lemma TopLevelGroup(input: string, i: nat, acc: seq<Value>, pf: FloatParser, items: seq<Value>, k: nat)
    requires i <= |input|
    requires var t := NextToken(input, i);
      t.result.Some? && t.result.value.Ok? && t.result.value.value.tt == OpenTok(LParen)
      && ParseDelimitedF(input, t.next, LParen, [], pf) == Lexed(Ok(items), k)
    ensures k <= |input|
    ensures ParseAllF(input, i, acc, pf) == ParseAllF(input, k, acc + [List(items)], pf)
  {
  }

  /** A lone closer is extra, at column 1. */
  lemma LoneCloserIsExtra(pf: FloatParser)
    ensures ParseF(")", pf) == Err(ExtraRightDelimiter(RParen, Position(1, 1)))
  {
    DelimAt(")", 0, 0);
    FirstLine(")", 0);
  }

  lemma WrongCloserTail(input: string, pf: FloatParser)
    requires input == "(x]"
    ensures ParseDelimitedF(input, 2, LParen, [Ident("x")], pf).result == Err(ExtraRightDelimiter(RParen, Position(1, 3)))
  {
    DelimAt(input, 2, 2);
    FirstLine(input, 2);
    assert input[2] == ']';
  }

  lemma WrongCloserGroup(input: string, pf: FloatParser)
    requires input == "(x]"
    ensures ParseDelimitedF(input, 1, LParen, [], pf).result == Err(ExtraRightDelimiter(RParen, Position(1, 3)))
  {
    WrongCloserTail(input, pf);
    assert BlankUpTo(input, 1, 1);
    SymbolAt(input, 1, 1, 2);
    assert input[1..2] == "x";
    DelimitedSymbol(input, 1, LParen, [], pf, "x", 2);
  }

  /** A closer of the wrong kind is reported naming the closer that was
      expected, at the offending character. */
  lemma WrongCloserNamesExpected(pf: FloatParser)
    ensures ParseF("(x]", pf) == Err(ExtraRightDelimiter(RParen, Position(1, 3)))
  {
    var input := "(x]";
    WrongCloserGroup(input, pf);
    DelimAt(input, 0, 0);
    GroupErrorStopsParse(input, 0, [], pf, ExtraRightDelimiter(RParen, Position(1, 3)));
  }

  lemma TwoSymbolsTail(input: string, pf: FloatParser)
    requires input == "x y"
    ensures ParseAllF(input, 1, [Ident("x")], pf) == Ok([Ident("x"), Ident("y")])
  {
    EndAt(input, 3);
    assert BlankUpTo(input, 1, 2);
    SymbolAt(input, 1, 2, 3);
    assert input[2..3] == "y";
    TopLevelSymbol(input, 1, [Ident("x")], pf, "y", 3);
    assert ParseOneExprF(input, 3, pf).result == Ok(None);
    assert [Ident("x")] + [Ident("y")] == [Ident("x"), Ident("y")];
  }

  lemma TwoSymbolsHead(input: string)
    requires input == "x y"
    ensures var t := NextToken(input, 0);
      t.next == 1 && t.result.Some? && t.result.value.Ok? && t.result.value.value.tt == SymbolTok("x")
  {
    assert BlankUpTo(input, 0, 0);
    SymbolAt(input, 0, 0, 1);
    assert input[0..1] == "x";
  }

  /** Top-level expressions come back in source order. */
  lemma TwoSymbolsInOrder(pf: FloatParser)
    ensures ParseF("x y", pf) == Ok([Ident("x"), Ident("y")])
  {
    var input := "x y";
    var none: seq<Value> := [];
    TwoSymbolsTail(input, pf);
    TwoSymbolsHead(input);
    TopLevelSymbol(input, 0, none, pf, "x", 1);
    assert none + [Ident("x")] == [Ident("x")];
  }

  lemma UnclosedAfterY(input: string, pf: FloatParser)
    requires input == "(x y("
    ensures ParseDelimitedF(input, 4, LParen, [Ident("x"), Ident("y")], pf).result == Err(MissingRightDelimiter(RParen))
  {
    EndAt(input, 5);
    assert ParseDelimitedF(input, 5, LParen, [], pf).result == Err(MissingRightDelimiter(RParen));
    DelimAt(input, 4, 4);
    DelimitedNext(input, 4, LParen, [Ident("x"), Ident("y")], pf);
  }

  lemma UnclosedAfterX(input: string, pf: FloatParser)
    requires input == "(x y("
    ensures ParseDelimitedF(input, 2, LParen, [Ident("x")], pf).result == Err(MissingRightDelimiter(RParen))
  {
    UnclosedAfterY(input, pf);
    assert BlankUpTo(input, 2, 3);
    SymbolAt(input, 2, 3, 4);
    assert input[3..4] == "y";
    DelimitedSymbol(input, 2, LParen, [Ident("x")], pf, "y", 4);
    assert [Ident("x")] + [Ident("y")] == [Ident("x"), Ident("y")];
  }

  lemma UnclosedGroup(input: string, pf: FloatParser)
    requires input == "(x y("
    ensures ParseDelimitedF(input, 1, LParen, [], pf).result == Err(MissingRightDelimiter(RParen))
  {
    var none: seq<Value> := [];
    UnclosedAfterX(input, pf);
    assert BlankUpTo(input, 1, 1);
    SymbolAt(input, 1, 1, 2);
    assert input[1..2] == "x";
    DelimitedSymbol(input, 1, LParen, none, pf, "x", 2);
    assert none + [Ident("x")] == [Ident("x")];
  }

  /** An inner group left open at the end of input: the reader reports the
      missing closer, even though the outer group is open too. */
  lemma UnclosedGroupIsMissing(pf: FloatParser)
    ensures ParseF("(x y(", pf) == Err(MissingRightDelimiter(RParen))
    ensures Message(ParseF("(x y(", pf).error) == "Missing right delimiter )"
  {
    var input := "(x y(";
    UnclosedGroup(input, pf);
    DelimAt(input, 0, 0);
    GroupErrorStopsParse(input, 0, [], pf, MissingRightDelimiter(RParen));
  }

  lemma QuoteAtEndGroup(input: string, pf: FloatParser)
    requires input == "(foo '"
    ensures ParseDelimitedF(input, 4, LParen, [Ident("foo")], pf).result == Err(MissingRightDelimiter(RParen))
  {
    EndAt(input, 6);
    assert ParseOneExprF(input, 6, pf) == Lexed(Ok(None), 6);
    assert ParseDelimitedF(input, 6, LParen, [Ident("foo"), List([Ident("quote")])], pf).result
      == Err(MissingRightDelimiter(RParen));
    assert BlankUpTo(input, 4, 5);
    QuoteAt(input, 4, 5);
    DelimitedNext(input, 4, LParen, [Ident("foo")], pf);
    assert [Ident("foo")] + [List([Ident("quote")])] == [Ident("foo"), List([Ident("quote")])];
  }

  lemma QuoteAtEndOpen(input: string, pf: FloatParser)
    requires input == "(foo '"
    ensures ParseDelimitedF(input, 1, LParen, [], pf).result == Err(MissingRightDelimiter(RParen))
  {
    var none: seq<Value> := [];
    QuoteAtEndGroup(input, pf);
    FooSymbol(input);
    DelimitedSymbol(input, 1, LParen, none, pf, "foo", 4);
    assert none + [Ident("foo")] == [Ident("foo")];
  }

  /** A quote at the very end quotes nothing, and the group it sits in is
      still open. */
  lemma QuoteAtEndIsMissing(pf: FloatParser)
    ensures ParseF("(foo '", pf) == Err(MissingRightDelimiter(RParen))
    ensures Message(ParseF("(foo '", pf).error) == "Missing right delimiter )"
  {
    var input := "(foo '";
    QuoteAtEndOpen(input, pf);
    DelimAt(input, 0, 0);
    GroupErrorStopsParse(input, 0, [], pf, MissingRightDelimiter(RParen));
  }

  /** The symbols `x` and `y` of `(x y` at the start of `input`. */
  lemma XYSymbols(input: string)
    requires 5 <= |input| && input[..5] == "(x y)"
    ensures var t := NextToken(input, 1);
      t.next == 2 && t.result.Some? && t.result.value.Ok? && t.result.value.value.tt == SymbolTok("x")
    ensures var t := NextToken(input, 2);
      t.next == 4 && t.result.Some? && t.result.value.Ok? && t.result.value.value.tt == SymbolTok("y")
  {
    assert input[1] == 'x' && input[2] == ' ' && input[3] == 'y' && input[4] == ')';
    assert BlankUpTo(input, 1, 1);
    SymbolAt(input, 1, 1, 2);
    assert input[1..2] == "x";
    assert BlankUpTo(input, 2, 3);
    SymbolAt(input, 2, 3, 4);
    assert input[3..4] == "y";
  }

  lemma FirstGroupRest(input: string, pf: FloatParser)
    requires input == "(x y) ()) z"
    ensures ParseDelimitedF(input, 2, LParen, [Ident("x")], pf) == Lexed(Ok([Ident("x"), Ident("y")]), 5)
  {
    var xy := [Ident("x"), Ident("y")];
    DelimAt(input, 4, 4);
    DelimitedClose(input, 4, LParen, xy, pf);
    XYSymbols(input);
    DelimitedSymbol(input, 2, LParen, [Ident("x")], pf, "y", 4);
    assert [Ident("x")] + [Ident("y")] == xy;
  }

  lemma FirstGroup(input: string, pf: FloatParser)
    requires input == "(x y) ()) z"
    ensures ParseDelimitedF(input, 1, LParen, [], pf) == Lexed(Ok([Ident("x"), Ident("y")]), 5)
  {
    var none: seq<Value> := [];
    FirstGroupRest(input, pf);
    XYSymbols(input);
    DelimitedSymbol(input, 1, LParen, none, pf, "x", 2);
    assert none + [Ident("x")] == [Ident("x")];
  }

  lemma ExtraCloserAtNine(input: string, acc: seq<Value>, pf: FloatParser)
    requires input == "(x y) ()) z"
    ensures ParseAllF(input, 8, acc, pf) == Err(ExtraRightDelimiter(RParen, Position(1, 9)))
  {
    DelimAt(input, 8, 8);
    FirstLine(input, 8);
  }

  lemma EmptyGroupThenExtra(input: string, acc: seq<Value>, pf: FloatParser)
    requires input == "(x y) ()) z"
    ensures ParseAllF(input, 5, acc, pf) == Err(ExtraRightDelimiter(RParen, Position(1, 9)))
  {
    ExtraCloserAtNine(input, acc + [List([])], pf);
    DelimAt(input, 7, 7);
    DelimitedClose(input, 7, LParen, [], pf);
    assert BlankUpTo(input, 5, 6);
    DelimAt(input, 5, 6);
    TopLevelGroup(input, 5, acc, pf, [], 8);
  }

  lemma ExtraCloserFromStart(input: string, pf: FloatParser)
    requires input == "(x y) ()) z"
    ensures ParseAllF(input, 0, [], pf) == Err(ExtraRightDelimiter(RParen, Position(1, 9)))
  {
    var none: seq<Value> := [];
    var first := List([Ident("x"), Ident("y")]);
    FirstGroup(input, pf);
    DelimAt(input, 0, 0);
    assert NextToken(input, 0).result.value.value.tt == OpenTok(LParen);
    TopLevelGroup(input, 0, none, pf, [Ident("x"), Ident("y")], 5);
    assert none + [first] == [first];
    EmptyGroupThenExtra(input, [first], pf);
  }

  /** A closer with nothing open stops the reader at its own column, however
      much was read before it and whatever follows it. */
  lemma ExtraCloserStopsReading(pf: FloatParser)
    ensures ParseF("(x y) ()) z", pf) == Err(ExtraRightDelimiter(RParen, Position(1, 9)))
    ensures Message(ParseF("(x y) ()) z", pf).error) == "Extra right delimiter ) at line 1, column 9"
  {
    var input := "(x y) ()) z";
    ExtraCloserFromStart(input, pf);
    ExtraAtColumn9();
  }
}
