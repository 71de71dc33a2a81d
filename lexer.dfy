/** The tokenizer of src/parse/tokens.rs.

    The functions below say, for an input text and the index of the next
    unread character, which token (or error) the source's `TokenIter` produces
    and where it stops reading; the class `TokenIter` at the end performs the
    same steps on mutable state and is proved to agree with them. Indices count
    characters, where the source counts UTF-8 bytes; the two agree on ASCII
    text. */
module Lexer {
  import opened Prelude
  import opened TokenKinds
  import opened ParseErrors

  /** What a reading step produced and the index of the next unread character. */
  datatype Lexed<T> = Lexed(result: T, next: nat)

  /** The position the source's iterator reports with the character at `j`. */
  function PosOf(input: string, j: nat): Position
    requires j < |input|
  {
    PosAfter(input[..j + 1])
  }

  /** The context text of an `UnexpectedChar` error raised by `delimcheck!`. */
  function Context(what: string, start: Position): string
  {
    "while parsing a " + what + " starting at " + PositionText(start)
  }

  /** The end of the longest run of characters satisfying `inRun` from `i`. */
  function RunEnd(input: string, i: nat, inRun: char -> bool): (j: nat)
    requires i <= |input|
    ensures i <= j <= |input|
    ensures forall k :: i <= k < j ==> inRun(input[k])
    ensures j < |input| ==> !inRun(input[j])
    decreases |input| - i
  {
    if i < |input| && inRun(input[i]) then RunEnd(input, i + 1, inRun) else i
  }

  /** `skip_ws`: the index of the first non-whitespace character. */
  function SkipWs(input: string, i: nat): (j: nat)
    requires i <= |input|
    ensures i <= j <= |input|
    ensures forall k :: i <= k < j ==> IsWhitespace(input[k])
    ensures j < |input| ==> !IsWhitespace(input[j])
  {
    RunEnd(input, i, IsWhitespace)
  }

  predicate IsHexDigit(c: char)
  {
    IsDigit(c) || ('a' <= c <= 'f') || ('A' <= c <= 'F')
  }

  /** The value of one hexadecimal digit. */
  function HexValue(c: char): (v: nat)
    requires IsHexDigit(c)
    ensures v < 16
  {
    if IsDigit(c) then c as int - '0' as int
    else if 'a' <= c <= 'f' then c as int - 'a' as int + 10
    else c as int - 'A' as int + 10
  }

  /** The value of a string of hexadecimal digits, most significant first. */
  function HexDigitsValue(s: string): nat
    requires forall i :: 0 <= i < |s| ==> IsHexDigit(s[i])
  {
    if s == [] then 0 else HexDigitsValue(s[..|s| - 1]) * 16 + HexValue(s[|s| - 1])
  }

  /** Lower-case hexadecimal text of a natural number, without leading zeros. */
  function HexText(n: nat): (s: string)
    ensures 1 <= |s|
    ensures forall i :: 0 <= i < |s| ==> IsHexDigit(s[i])
    decreases n
  {
    var d := n % 16;
    var c := if d < 10 then '0' + d as char else 'a' + (d - 10) as char;
    if n < 16 then [c] else HexText(n / 16) + [c]
  }

  /** Reading hexadecimal text back gives the number. */
  lemma {:induction false} HexTextRoundTrip(n: nat)
    ensures HexDigitsValue(HexText(n)) == n
    decreases n
  {
    var s := HexText(n);
    if n >= 16 {
      HexTextRoundTrip(n / 16);
      assert s[..|s| - 1] == HexText(n / 16);
    }
  }

  lemma {:induction false} HexTextLength(n: nat, k: nat)
    requires n < Pow16(k) && k >= 1
    ensures |HexText(n)| <= k
    decreases n
  {
    if n >= 16 {
      HexTextLength(n / 16, k - 1);
    }
  }

  function Pow16(k: nat): nat
  {
    if k == 0 then 1 else 16 * Pow16(k - 1)
  }

  /** Whether `n` is a Unicode scalar value (`char::from_u32` succeeds). */
  predicate IsScalar(n: int)
  {
    0 <= n < 0xD800 || 0xE000 <= n < 0x11_0000
  }

  // ---------------------------------------------------------------- escapes

  /** The value the source computes for `\x` escapes: each digit is taken as
      its distance from '0', which is wrong for the letters a-f and A-F. */
  function XEscapeValueAsWritten(c1: char, c2: char): (r: int)
    requires '0' <= c1 <= '7' && IsHexDigit(c2)
    ensures r == XEscapeValue(c1, c2) as int <==> IsDigit(c2)
  {
    (c1 as int - '0' as int) * 16 + (c2 as int - '0' as int)
  }

  /** The letter digits of a `\x` escape are misread: `\x0a` gives '1' rather
      than a newline. */
  lemma XEscapeLetterMisread()
    ensures XEscapeValueAsWritten('0', 'a') == '1' as int
    ensures XEscapeValue('0', 'a') == '\n'
  {
  }

  /** The character a `\x` escape stands for, reading both digits as
      hexadecimal. */
  function XEscapeValue(c1: char, c2: char): (c: char)
    requires '0' <= c1 <= '7' && IsHexDigit(c2)
    ensures c as int == HexDigitsValue([c1, c2])
    ensures c as int < 0x80
  {
    assert [c1, c2][..1] == [c1] && [c1][..0] == [];
    assert HexDigitsValue([c1]) == HexValue(c1);
    ((c1 as int - '0' as int) * 16 + HexValue(c2)) as char
  }

  /** `read_x_escape`; `start` is the index of the backslash and `i` the index
      just after the 'x'. */
  function LexXEscape(input: string, start: nat, i: nat, escapePos: Position, stringPos: Position)
    : (r: Lexed<Result<char, ParseError>>)
    requires start < i <= |input|
    ensures i <= r.next <= i + 2 && r.next <= |input|
    ensures r.result.Ok? ==> r.next == i + 2
    ensures i + 1 >= |input| ==> r.result == Err(UnterminatedString(stringPos))
    ensures i + 1 < |input| ==>
      r.result == if '0' <= input[i] <= '7' && IsHexDigit(input[i + 1]) then Ok(XEscapeValue(input[i], input[i + 1]))
                  else Err(BadEscape(escapePos, input[start..if '0' <= input[i] <= '7' then i + 2 else i + 1]))
  {
    if i + 1 >= |input| then Lexed(Err(UnterminatedString(stringPos)), if i < |input| then i + 1 else i)
    else
      var c1 := input[i];
      var c2 := input[i + 1];
      var r :=
        if c1 > '7' || c1 < '0' then Err(BadEscape(escapePos, input[start..i + 1]))
        else if IsHexDigit(c2) then Ok(XEscapeValue(c1, c2))
        else Err(BadEscape(escapePos, input[start..i + 2]));
      Lexed(r, i + 2)
  }

  /** Every ASCII character written as `\x` with two lower-case hex digits
      reads back as itself. */
  lemma XEscapeRoundTrip(c: char, input: string, start: nat, p: Position, q: Position)
    requires c as int < 0x80
    requires |input| >= start + 4
    requires input[start + 2..start + 4] == HexPair(c as int)
    ensures LexXEscape(input, start, start + 2, p, q) == Lexed(Ok(c), start + 4)
  {
    var n := c as int;
    var s := HexPair(n);
    assert s[0] == '0' + (n / 16) as char;
    HexTextRoundTrip(n % 16);
    assert HexDigitsValue([s[0], s[1]]) == HexValue(s[0]) * 16 + HexValue(s[1]) by {
      assert [s[0], s[1]][..1] == [s[0]];
    }
  }

  /** Two lower-case hex digits for a number below 0x80. */
  function HexPair(n: nat): (s: string)
    requires n < 0x80
    ensures |s| == 2 && '0' <= s[0] <= '7' && IsHexDigit(s[1])
  {
    ['0' + (n / 16) as char] + HexText(n % 16)
  }

  /** The value the source computes for `\u{...}` escapes, taking each digit
      as its distance from '0'. */
  function UEscapeValueAsWritten(s: string): (r: int)
    ensures (forall i :: 0 <= i < |s| ==> IsDigit(s[i])) ==> r == HexDigitsValue(s)
  {
    if s == [] then 0 else UEscapeValueAsWritten(s[..|s| - 1]) * 16 + (s[|s| - 1] as int - '0' as int)
  }

  /** `\u{a}` comes out as '1' rather than a newline. */
  lemma UEscapeLetterMisread()
    ensures UEscapeValueAsWritten("a") == '1' as int
    ensures HexDigitsValue("a") == '\n' as int
  {
    assert "a"[..0] == [];
  }

  /** `read_u_escape` as written. `None` stands for the panic of slicing
      past the end of the input, which happens when there is no closing brace
      and the escape is bad. */
  function LexUEscapeAsWritten(input: string, start: nat, i: nat, escapePos: Position, stringPos: Position)
    : (r: Option<Lexed<Result<char, ParseError>>>)
    requires start < i <= |input|
    ensures r.None? ==> RunEnd(input, i, Negate(IsBrace)) == |input| && i < |input| <= i + 8
    ensures r.Some? && r.value.result.Ok? ==> i < RunEnd(input, i, Negate(IsBrace)) <= i + 8 && input[i] == '{'
  {
    var k := RunEnd(input, i, Negate(IsBrace));
    var next := if k < |input| then k + 1 else k;
    var l := k - i;
    if l == 0 then Some(Lexed(Err(UnterminatedString(stringPos)), next))
    else if l > 8 then Some(Lexed(Err(BadEscape(escapePos, input[start..i + 8])), next))
    else if input[i] != '{' || !(forall j :: i + 1 <= j < k ==> IsHexDigit(input[j]))
         || !IsScalar(UEscapeValueAsWritten(input[i + 1..k])) then
      if k + 1 <= |input| then Some(Lexed(Err(BadEscape(escapePos, input[start..k + 1])), next))
      else None
    else Some(Lexed(Ok(UEscapeValueAsWritten(input[i + 1..k]) as char), next))
  }

  /** A `\u` escape with a bad digit and no closing brace makes the source
      slice past the end of its input. */
  lemma UEscapeUnclosedPanics(p: Position, q: Position)
    ensures LexUEscapeAsWritten("\\u{1g", 0, 2, p, q).None?
  {
    var input := "\\u{1g";
    assert RunEnd(input, 5, Negate(IsBrace)) == 5;
    assert RunEnd(input, 2, Negate(IsBrace)) == 5 by {
      assert !IsBrace(input[2]) && !IsBrace(input[3]) && !IsBrace(input[4]);
    }
    assert !IsHexDigit(input[4]);
  }

  /** The corrected reader reports the same input as a bad escape covering
      the rest of the input. */
  lemma UEscapeUnclosedReported(p: Position, q: Position)
    ensures LexUEscape("\\u{1g", 0, 2, p, q).result == Err(BadEscape(p, "\\u{1g"))
  {
    var input := "\\u{1g";
    assert RunEnd(input, 5, Negate(IsBrace)) == 5;
    assert RunEnd(input, 2, Negate(IsBrace)) == 5 by {
      assert !IsBrace(input[2]) && !IsBrace(input[3]) && !IsBrace(input[4]);
    }
    assert !IsHexDigit(input[4]);
    assert input[0..5] == input;
  }

  predicate IsBrace(c: char) { c == '}' }

  /** The complement of a character class. */
  function Negate(f: char -> bool): (g: char -> bool)
    ensures forall c :: g(c) == !f(c)
  {
    c => !f(c)
  }

  /** `read_u_escape`, reading the digits as hexadecimal and reporting a bad
      unclosed escape with the text up to the end of the input. `i` is the
      index just after the 'u'. */
  function LexUEscape(input: string, start: nat, i: nat, escapePos: Position, stringPos: Position)
    : (r: Lexed<Result<char, ParseError>>)
    requires start < i <= |input|
    ensures i < r.next <= |input| || (i == r.next == |input| && r.result == Err(UnterminatedString(stringPos)))
    ensures r.result.Ok? ==> input[i] == '{'
    ensures r.result.Ok? && input[r.next - 1] == '}' ==>
      (forall j :: i + 1 <= j < r.next - 1 ==> IsHexDigit(input[j]))
      && r.result.value as int == HexDigitsValue(input[i + 1..r.next - 1])
    ensures r.result.Ok? && input[r.next - 1] != '}' ==> r.next == |input|
  {
    var k := RunEnd(input, i, Negate(IsBrace));
    var next := if k < |input| then k + 1 else k;
    var l := k - i;
    assert k < |input| ==> input[k] == '}' by {
      if k < |input| { assert !Negate(IsBrace)(input[k]); }
    }
    if l == 0 then Lexed(Err(UnterminatedString(stringPos)), next)
    else if l > 8 then Lexed(Err(BadEscape(escapePos, input[start..i + 8])), next)
    else if input[i] != '{' || !(forall j :: i + 1 <= j < k ==> IsHexDigit(input[j]))
         || !IsScalar(HexDigitsValue(input[i + 1..k])) then
      Lexed(Err(BadEscape(escapePos, input[start..if k + 1 <= |input| then k + 1 else k])), next)
    else Lexed(Ok(HexDigitsValue(input[i + 1..k]) as char), next)
  }

  /** Wherever the source does not panic and the digits are decimal, the
      corrected reader agrees with it. */
  lemma UEscapeAgreesWhereDefined(input: string, start: nat, i: nat, p: Position, q: Position)
    requires start < i <= |input|
    requires LexUEscapeAsWritten(input, start, i, p, q).Some?
    requires forall j :: i < j < |input| && input[j] != '}' ==> IsDigit(input[j])
    ensures LexUEscapeAsWritten(input, start, i, p, q).value == LexUEscape(input, start, i, p, q)
  {
    var k := RunEnd(input, i, Negate(IsBrace));
    if i + 1 <= k {
      var d := input[i + 1..k];
      forall t | 0 <= t < |d| ensures IsDigit(d[t]) {
        assert d[t] == input[i + 1 + t];
        assert Negate(IsBrace)(input[i + 1 + t]);
      }
    }
  }

  /** Every character written as `\u{...}` with its lower-case hex code reads
      back as itself. */
  lemma UEscapeRoundTrip(c: char, input: string, start: nat, p: Position, q: Position)
    requires |input| >= start + 2
    requires input[start + 2..] == "{" + HexText(c as int) + "}"
    ensures LexUEscape(input, start, start + 2, p, q) == Lexed(Ok(c), |input|)
  {
    var i := start + 2;
    UEscapeScan(c, input, i);
    HexTextLength(c as int, 6);
    HexTextRoundTrip(c as int);
    assert input[i] == '{';
  }

  /** The braces of `{hex}` delimit the run the reader scans. */
  lemma UEscapeScan(c: char, input: string, i: nat)
    requires |input| >= i && input[i..] == "{" + HexText(c as int) + "}"
    ensures RunEnd(input, i, Negate(IsBrace)) == |input| - 1
    ensures input[i + 1..|input| - 1] == HexText(c as int)
  {
    var h := HexText(c as int);
    var k := |input| - 1;
    assert input[k] == '}';
    assert forall j :: i <= j < k ==> !IsBrace(input[j]) by {
      forall j | i <= j < k ensures !IsBrace(input[j]) {
        if j > i {
          assert input[j] == h[j - i - 1];
        }
      }
    }
    assert forall j :: i <= j < k ==> Negate(IsBrace)(input[j]);
    assert !Negate(IsBrace)(input[k]);
    RunEndStops(input, i, k, Negate(IsBrace));
    assert input[i + 1..k] == h by {
      forall t | 0 <= t < |h| ensures input[i + 1 + t] == h[t] {
        assert input[i + 1 + t] == input[i..][1 + t];
      }
    }
  }

  /** A run that reaches a character outside it ends there. */
  lemma {:induction false} RunEndStops(input: string, i: nat, k: nat, inRun: char -> bool)
    requires i <= k < |input|
    requires forall j :: i <= j < k ==> inRun(input[j])
    requires !inRun(input[k])
    ensures RunEnd(input, i, inRun) == k
    decreases k - i
  {
    if i < k {
      RunEndStops(input, i + 1, k, inRun);
    }
  }

  /** `read_escape`: `start` is the index of the backslash, whose position is
      `escapePos`; `stringPos` is where the string began. */
  function LexEscape(input: string, start: nat, escapePos: Position, stringPos: Position)
    : (r: Lexed<Result<char, ParseError>>)
    requires start < |input|
    ensures start + 1 <= r.next <= |input|
    ensures r.result.Ok? ==> start + 2 <= r.next
  {
    var i := start + 1;
    if i >= |input| then Lexed(Err(UnterminatedString(stringPos)), i)
    else
      match input[i]
      case 'x' => LexXEscape(input, start, i + 1, escapePos, stringPos)
      case 'u' => LexUEscape(input, start, i + 1, escapePos, stringPos)
      case 't' => Lexed(Ok('\t'), i + 1)
      case 'r' => Lexed(Ok('\r'), i + 1)
      case '\'' => Lexed(Ok('\''), i + 1)
      case '"' => Lexed(Ok('"'), i + 1)
      case 'n' => Lexed(Ok('\n'), i + 1)
      case _ => Lexed(Err(BadEscape(escapePos, input[start..i + 1])), i + 1)
  }

  /** The simple escapes decode to their characters, and any other letter
      after a backslash is a bad escape. */
  lemma SimpleEscapes(input: string, start: nat, p: Position, q: Position)
    requires start + 1 < |input|
    ensures var r := LexEscape(input, start, p, q);
      match input[start + 1]
      case 't' => r.result == Ok('\t')
      case 'r' => r.result == Ok('\r')
      case '\'' => r.result == Ok('\'')
      case '"' => r.result == Ok('"')
      case 'n' => r.result == Ok('\n')
      case 'x' => true
      case 'u' => true
      case _ => r.result == Err(BadEscape(p, input[start..start + 2]))
  {
  }

  // ---------------------------------------------------------------- strings

  /** The loop of `read_string` from index `i`: `acc` holds the text decoded so
      far and `seg` the index where the current run of plain characters
      began, if one is open. The result is the decoded text and the position
      of the closing quote. */
  function StringBody(input: string, i: nat, seg: Option<nat>, acc: string, stringPos: Position)
    : (r: Lexed<Result<(string, Position), ParseError>>)
    requires i <= |input|
    requires seg.Some? ==> seg.value <= i
    ensures i <= r.next <= |input|
    ensures r.result.Ok? ==> i < r.next && input[r.next - 1] == '"'
    decreases |input| - i
  {
    if i >= |input| then Lexed(Err(UnterminatedString(stringPos)), i)
    else
      var c := input[i];
      var s := if seg.Some? then seg.value else i;
      if c == '\\' then
        var e := LexEscape(input, i, PosOf(input, i), stringPos);
        if e.result.Err? then Lexed(Err(e.result.error), e.next)
        else StringBody(input, e.next, None, acc + input[s..i] + [e.result.value], stringPos)
      else if c == '"' then Lexed(Ok((acc + input[s..i], PosOf(input, i))), i + 1)
      else StringBody(input, i + 1, Some(s), acc, stringPos)
  }

  /** `read_string`: `i` is the index just after the opening quote, whose
      position is `startPos`. The closing quote must be followed by a
      delimiter or the end of the input. */
  function LexString(input: string, i: nat, startPos: Position): (r: Lexed<Result<Token, ParseError>>)
    requires i <= |input|
    ensures i <= r.next <= |input|
    ensures r.result.Ok? ==> r.result.value.tt.StringTok? && r.result.value.start == startPos
    ensures r.result.Ok? ==> r.next == |input| || IsDelimiter(input[r.next])
    ensures var b := StringBody(input, i, Some(i), "", startPos);
      && (b.result.Err? ==> r == Lexed(Err(b.result.error), b.next))
      && (b.result.Ok? && b.next < |input| && !IsDelimiter(input[b.next]) ==>
            r.result == Err(UnexpectedChar(input[b.next], PosOf(input, b.next), Context("string", startPos))))
      && (b.result.Ok? && (b.next == |input| || IsDelimiter(input[b.next])) ==>
            r == Lexed(Ok(Token(StringTok(b.result.value.0), startPos, b.result.value.1)), b.next))
  {
    var b := StringBody(input, i, Some(i), "", startPos);
    if b.result.Err? then Lexed(Err(b.result.error), b.next)
    else if b.next < |input| && !IsDelimiter(input[b.next]) then
      Lexed(Err(UnexpectedChar(input[b.next], PosOf(input, b.next), Context("string", startPos))), b.next)
    else Lexed(Ok(Token(StringTok(b.result.value.0), startPos, b.result.value.1)), b.next)
  }

  /** A string without a closing quote is reported at its opening quote. */
  lemma {:induction false} UnterminatedAtOpening(input: string, i: nat, seg: Option<nat>, acc: string, p: Position)
    requires i <= |input|
    requires seg.Some? ==> seg.value <= i
    requires forall k :: i <= k < |input| ==> input[k] != '"' && input[k] != '\\'
    ensures StringBody(input, i, seg, acc, p).result == Err(UnterminatedString(p))
    decreases |input| - i
  {
    if i < |input| {
      UnterminatedAtOpening(input, i + 1, if seg.Some? then seg else Some(i), acc, p);
    }
  }

  /** Text without backslashes or quotes, closed by a quote, reads back as
      itself. */
  lemma {:induction false} PlainStringBody(input: string, i: nat, s: nat, acc: string, p: Position, close: nat)
    requires s <= i <= close < |input| && input[close] == '"'
    requires forall k :: s <= k < close ==> input[k] != '"' && input[k] != '\\'
    ensures StringBody(input, i, Some(s), acc, p) == Lexed(Ok((acc + input[s..close], PosOf(input, close))), close + 1)
    decreases close - i
  {
    if i < close {
      PlainStringBody(input, i + 1, s, acc, p, close);
    }
  }

  /** Plain text up to a backslash, then an escape: the text before the
      backslash and the escape's character are appended, and reading goes
      on after the escape with no plain run open; a bad escape ends the
      string with its error. */
  lemma {:induction false} PlainThenEscape(input: string, i: nat, s: nat, acc: string, p: Position, k: nat)
    requires s <= i <= k < |input| && input[k] == '\\'
    requires forall j :: s <= j < k ==> input[j] != '"' && input[j] != '\\'
    ensures var e := LexEscape(input, k, PosOf(input, k), p);
      StringBody(input, i, Some(s), acc, p)
        == if e.result.Err? then Lexed(Err(e.result.error), e.next)
           else StringBody(input, e.next, None, acc + input[s..k] + [e.result.value], p)
    decreases k - i
  {
    if i < k {
      PlainThenEscape(input, i + 1, s, acc, p, k);
    }
  }

  /** After an escape no plain run is open; the next character starts one. */
  lemma RunOpensAfterEscape(input: string, i: nat, acc: string, p: Position)
    requires i <= |input|
    ensures StringBody(input, i, None, acc, p) == StringBody(input, i, Some(i), acc, p)
  {
  }

  // ---------------------------------------------------------------- numbers

  /** `read_number`: `start` is the index of the first character, `i` the
      index of the first one not yet read. */
  function LexNumber(input: string, start: nat, i: nat, startPos: Position): (r: Lexed<Result<Token, ParseError>>)
    requires start < i <= |input|
    ensures i <= r.next <= |input|
    ensures forall k :: i <= k < r.next ==> IsNumberChar(input[k])
    ensures r.next < |input| ==> !IsNumberChar(input[r.next])
    ensures r.result.Ok? <==> r.next == |input| || IsDelimiter(input[r.next])
    ensures r.result.Ok? ==> r.result.value.tt == NumberTok(input[start..r.next])
    ensures r.result.Err? ==> r.result.error == UnexpectedChar(input[r.next], PosOf(input, r.next), Context("number", startPos))
  {
    var stop := RunEnd(input, i, IsNumberChar);
    if stop == |input| then Lexed(Ok(Token(NumberTok(input[start..stop]), startPos, Next(startPos))), stop)
    else if !IsDelimiter(input[stop]) then
      Lexed(Err(UnexpectedChar(input[stop], PosOf(input, stop), Context("number", startPos))), stop)
    else Lexed(Ok(Token(NumberTok(input[start..stop]), startPos, PosOf(input, stop))), stop)
  }

  // ---------------------------------------------------------------- symbols

  /** `read_symbol`: `start` is the index of the symbol's first character.
      A sign followed by a digit is read as a number. Otherwise the second
      character is taken whatever it is (unless it is a delimiter), and the
      symbol then extends over symbol characters up to a delimiter. */
  function LexSymbol(input: string, start: nat, startPos: Position): (r: Lexed<Result<Token, ParseError>>)
    requires start < |input|
    ensures start + 1 <= r.next <= |input|
    ensures r.result.Ok? ==> r.next == |input| || IsDelimiter(input[r.next])
    ensures r.result.Ok? ==> r.result.value.tt in {SymbolTok(input[start..r.next]), NumberTok(input[start..r.next])}
    ensures r.result.Ok? && r.result.value.tt.NumberTok? ==>
      start + 1 < |input| && input[start] in {'+', '-'} && IsDigit(input[start + 1])
  {
    var i := start + 1;
    var symStart := input[start];
    if i < |input| && IsDigit(input[i]) && (symStart == '+' || symStart == '-') then
      LexNumber(input, start, i + 1, startPos)
    else if i < |input| && IsDelimiter(input[i]) then
      Lexed(Ok(Token(SymbolTok(input[start..i]), startPos, PosOf(input, i))), i)
    else
      var k := if i < |input| then i + 1 else i;
      var e := if i < |input| then PosOf(input, i) else Next(startPos);
      SymbolTail(input, start, k, e, startPos)
  }

  /** The rest of a symbol from index `k`: a run of symbol characters that
      must end at a delimiter or at the end of input, where the end position
      is that of the last character read (`e` if none). */
  function SymbolTail(input: string, start: nat, k: nat, e: Position, startPos: Position)
    : (r: Lexed<Result<Token, ParseError>>)
    requires start < k <= |input|
    ensures k <= r.next <= |input|
    ensures r.result.Ok? ==> r.next == |input| || IsDelimiter(input[r.next])
    ensures r.result.Ok? ==> r.result.value.tt == SymbolTok(input[start..r.next])
  {
    var stop := RunEnd(input, k, IsSymbolChar);
    if stop == |input| then
      Lexed(Ok(Token(SymbolTok(input[start..stop]), startPos, if stop > k then PosOf(input, stop - 1) else e)), stop)
    else if !IsDelimiter(input[stop]) then
      Lexed(Err(UnexpectedChar(input[stop], PosOf(input, stop), Context("symbol", startPos))), stop)
    else Lexed(Ok(Token(SymbolTok(input[start..stop]), startPos, PosOf(input, stop))), stop)
  }

  // ---------------------------------------------------------------- tokens

  /** `TokenIter::next`: skip whitespace, then read one token. `None` means
      the input is exhausted or the next character starts no token; in the
      second case that character has been consumed. */
  function NextToken(input: string, i: nat): (r: Lexed<Option<Result<Token, ParseError>>>)
    requires i <= |input|
    ensures i <= r.next <= |input|
    ensures r.result.Some? || r.next < |input| ==> SkipWs(input, i) < r.next
    ensures r.result.None? <==>
      (SkipWs(input, i) == |input| && r.next == |input|)
      || (SkipWs(input, i) < |input| && !StartsToken(input[SkipWs(input, i)]) && r.next == SkipWs(input, i) + 1)
    ensures r.result.Some? && r.result.value.Ok? && r.result.value.value.tt.CloseTok? ==>
      0 < r.next && input[r.next - 1] == CloseChar(r.result.value.value.tt.close)
  {
    var j := SkipWs(input, i);
    if j >= |input| then Lexed(None, j)
    else
      var c := input[j];
      var pos := PosOf(input, j);
      if c == '\'' then Lexed(Some(Ok(Token(FormLikeTok(Quote), pos, Next(pos)))), j + 1)
      else if c == '`' then Lexed(Some(Ok(Token(FormLikeTok(QuasiQuote), pos, Next(pos)))), j + 1)
      else if c == '~' then
        if j + 1 < |input| && input[j + 1] == '@' then
          Lexed(Some(Ok(Token(FormLikeTok(UnquoteSplicing), pos, Next(PosOf(input, j + 1))))), j + 2)
        else Lexed(Some(Ok(Token(FormLikeTok(Unquote), pos, Next(pos)))), j + 1)
      else if IsSymbolStart(c) then
        var s := LexSymbol(input, j, pos);
        Lexed(Some(s.result), s.next)
      else if IsDigit(c) then
        var n := LexNumber(input, j, j + 1, pos);
        Lexed(Some(n.result), n.next)
      else if c in {'(', ')', '[', ']', '{', '}'} then
        Lexed(Some(Ok(NewDelim(c, pos).value)), j + 1)
      else if c == '"' then
        var s := LexString(input, j + 1, pos);
        Lexed(Some(s.result), s.next)
      else Lexed(None, j + 1)
  }

  /** The characters a token can start with. */
  predicate StartsToken(c: char)
  {
    c in {'\'', '`', '~', '(', ')', '[', ']', '{', '}', '"'} || IsSymbolStart(c) || IsDigit(c)
  }

  /** The reader macros: ' ` and ~ are one-character tokens, and ~@ is a
      single two-character token. */
  lemma ReaderMacroTokens(input: string, i: nat)
    requires i <= |input|
    requires SkipWs(input, i) < |input|
    ensures var j := SkipWs(input, i);
      var r := NextToken(input, i);
      (input[j] == '\'' ==> r.result.Some? && r.result.value.Ok? && r.result.value.value.tt == FormLikeTok(Quote) && r.next == j + 1)
      && (input[j] == '`' ==> r.result.Some? && r.result.value.Ok? && r.result.value.value.tt == FormLikeTok(QuasiQuote) && r.next == j + 1)
      && (input[j] == '~' && j + 1 < |input| && input[j + 1] == '@' ==>
            r.result.Some? && r.result.value.Ok? && r.result.value.value.tt == FormLikeTok(UnquoteSplicing) && r.next == j + 2)
      && (input[j] == '~' && (j + 1 == |input| || input[j + 1] != '@') ==>
            r.result.Some? && r.result.value.Ok? && r.result.value.value.tt == FormLikeTok(Unquote) && r.next == j + 1)
  {
  }

  /** A bracket is always a one-character delimiter token. */
  lemma BracketTokens(input: string, i: nat)
    requires i <= |input|
    requires SkipWs(input, i) < |input| && input[SkipWs(input, i)] in {'(', ')', '[', ']', '{', '}'}
    ensures var j := SkipWs(input, i);
      var r := NextToken(input, i);
      r.result == Some(Ok(NewDelim(input[j], PosOf(input, j)).value)) && r.next == j + 1
  {
    var j := SkipWs(input, i);
    CharClassesDisjoint(input[j]);
  }

  // ---------------------------------------------------------------- the iterator

  /** `TokenIter`: the input, the index of the next unread character and the
      position of the last one read (the state of `CharIndicesPos`). */
  class TokenIter {
    const input: string
    var idx: nat
    var pos: Position

    /** The position is always the start position advanced over everything
        read so far. */
    ghost predicate Valid()
      reads this
    {
      idx <= |input| && pos == PosAfter(input[..idx])
    }

    /** `TokenIter::new`: nothing read, at line 1, column 0. */
    constructor (s: string)
      ensures input == s && idx == 0 && pos == Position(1, 0)
      ensures Valid()
    {
      input := s;
      idx := 0;
      pos := Position(1, 0);
      new;
      assert input[..0] == [];
    }

    /** The position reported with the next character. */
    function PeekPos(): (p: Position)
      requires Valid() && idx < |input|
      reads this
      ensures p == PosOf(input, idx)
    {
      assert input[..idx + 1][..idx] == input[..idx];
      Advance(pos, input[idx])
    }

    /** Read one character. */
    method Bump()
      requires Valid() && idx < |input|
      modifies this
      ensures Valid() && idx == old(idx) + 1
      ensures pos == old(PeekPos())
    {
      pos := PeekPos();
      idx := idx + 1;
    }

    /** `take_until`: read characters until one satisfies `stop`, which is
        read too; returns the characters before it with their indices and
        positions, and the stopping character's index if there was one. */
    method TakeUntil(stop: char -> bool) returns (v: seq<(nat, char, Position)>, end: Option<nat>)
      requires Valid()
      modifies this
      ensures Valid()
      ensures var k := RunEnd(input, old(idx), Negate(stop));
        |v| == k - old(idx)
        && (forall t :: 0 <= t < |v| ==> v[t] == (old(idx) + t, input[old(idx) + t], PosOf(input, old(idx) + t)))
        && end == (if k < |input| then Some(k) else None)
        && idx == (if k < |input| then k + 1 else k)
    {
      v := [];
      end := None;
      while idx < |input|
        invariant Valid() && old(idx) <= idx
        invariant RunEnd(input, old(idx), Negate(stop)) == RunEnd(input, idx, Negate(stop))
        invariant |v| == idx - old(idx)
        invariant forall t :: 0 <= t < |v| ==> v[t] == (old(idx) + t, input[old(idx) + t], PosOf(input, old(idx) + t))
        decreases |input| - idx
      {
        var j, c := idx, input[idx];
        Bump();
        if !stop(c) {
          v := v + [(j, c, pos)];
        } else {
          end := Some(j);
          break;
        }
      }
    }
      /** `skip_ws`. */
    method SkipWhitespace()
      requires Valid()
      modifies this
      ensures Valid() && idx == SkipWs(input, old(idx))
    {
      while idx < |input| && IsWhitespace(input[idx])
        invariant Valid() && old(idx) <= idx
        invariant SkipWs(input, idx) == SkipWs(input, old(idx))
        decreases |input| - idx
      {
        Bump();
      }
    }

    /** `read_x_escape`: the backslash at `start` and the 'x' have been read. */
    method ReadXEscape(start: nat, escapePos: Position, stringPos: Position) returns (r: Result<char, ParseError>)
      requires Valid() && start < idx
      modifies this
      ensures Valid() && Lexed(r, idx) == LexXEscape(input, start, old(idx), escapePos, stringPos)
    {
      if idx + 1 >= |input| {
        if idx < |input| {
          Bump();
        }
        return Err(UnterminatedString(stringPos));
      }
      var c1 := input[idx];
      Bump();
      var endIndex, c2 := idx, input[idx];
      Bump();
      if c1 > '7' || c1 < '0' {
        r := Err(BadEscape(escapePos, input[start..endIndex]));
      } else if IsHexDigit(c2) {
        r := Ok(XEscapeValue(c1, c2));
      } else {
        r := Err(BadEscape(escapePos, input[start..endIndex + 1]));
      }
    }

    /** `read_u_escape`: the backslash at `start` and the 'u' have been read. */
    method ReadUEscape(start: nat, escapePos: Position, stringPos: Position) returns (r: Result<char, ParseError>)
      requires Valid() && start < idx
      modifies this
      ensures Valid() && Lexed(r, idx) == LexUEscape(input, start, old(idx), escapePos, stringPos)
    {
      var i := idx;
      var chars, brace := TakeUntil(IsBrace);
      var k := i + |chars|;
      var l := |chars|;
      if l == 0 {
        r := Err(UnterminatedString(stringPos));
      } else if l > 8 {
        r := Err(BadEscape(escapePos, input[start..chars[8].0]));
      } else if chars[0].1 != '{' || !(forall j :: i + 1 <= j < k ==> IsHexDigit(input[j]))
                || !IsScalar(HexDigitsValue(input[i + 1..k])) {
        r := Err(BadEscape(escapePos, input[start..if k + 1 <= |input| then k + 1 else k]));
      } else {
        r := Ok(HexDigitsValue(input[i + 1..k]) as char);
      }
    }

    /** `read_escape`: the backslash at `start` has been read. */
    method ReadEscape(start: nat, escapePos: Position, stringPos: Position) returns (r: Result<char, ParseError>)
      requires Valid() && start + 1 == idx
      modifies this
      ensures Valid() && Lexed(r, idx) == LexEscape(input, start, escapePos, stringPos)
    {
      if idx >= |input| {
        return Err(UnterminatedString(stringPos));
      }
      var c := input[idx];
      Bump();
      match c
      case 'x' => r := ReadXEscape(start, escapePos, stringPos);
      case 'u' => r := ReadUEscape(start, escapePos, stringPos);
      case 't' => r := Ok('\t');
      case 'r' => r := Ok('\r');
      case '\'' => r := Ok('\'');
      case '"' => r := Ok('"');
      case 'n' => r := Ok('\n');
      case _ => r := Err(BadEscape(escapePos, input[start..idx]));
    }

    /** `read_string`: the opening quote, at `startPos`, has been read. Plain
        runs are copied in one piece and escapes decoded one at a time. */
    method ReadString(startPos: Position) returns (r: Result<Token, ParseError>)
      requires Valid()
      modifies this
      ensures Valid() && Lexed(r, idx) == LexString(input, old(idx), startPos)
    {
      ghost var i := idx;
      var seg: Option<nat> := Some(idx);
      var acc := "";
      var endPos: Position;
      while true
        invariant Valid() && i <= idx
        invariant seg.Some? ==> seg.value <= idx
        invariant StringBody(input, idx, seg, acc, startPos) == StringBody(input, i, Some(i), "", startPos)
        decreases |input| - idx
      {
        if idx >= |input| {
          return Err(UnterminatedString(startPos));
        }
        var j, c, p := idx, input[idx], PeekPos();
        Bump();
        if seg.None? {
          seg := Some(j);
        }
        if c == '\\' {
          var e := ReadEscape(j, p, startPos);
          if e.Err? {
            return Err(e.error);
          }
          acc := acc + input[seg.value..j] + [e.value];
          seg := None;
        } else if c == '"' {
          acc := acc + input[seg.value..j];
          endPos := p;
          break;
        }
      }
      if idx < |input| && !IsDelimiter(input[idx]) {
        return Err(UnexpectedChar(input[idx], PeekPos(), Context("string", startPos)));
      }
      r := Ok(Token(StringTok(acc), startPos, endPos));
    }

    /** `read_number`: the characters from `start` up to the current one have
        been read. */
    method ReadNumber(start: nat, startPos: Position) returns (r: Result<Token, ParseError>)
      requires Valid() && start < idx
      modifies this
      ensures Valid() && Lexed(r, idx) == LexNumber(input, start, old(idx), startPos)
    {
      var stop: nat;
      var endPos := TokenKinds.Next(startPos);
      while true
        invariant Valid() && old(idx) <= idx
        invariant RunEnd(input, idx, IsNumberChar) == RunEnd(input, old(idx), IsNumberChar)
        decreases |input| - idx
      {
        if idx < |input| {
          var j, c, p := idx, input[idx], PeekPos();
          if !IsNumberChar(c) {
            stop := j;
            if !IsDelimiter(c) {
              return Err(UnexpectedChar(c, p, Context("number", startPos)));
            }
            endPos := p;
            break;
          }
          Bump();
        } else {
          stop := |input|;
          break;
        }
      }
      r := Ok(Token(NumberTok(input[start..stop]), startPos, endPos));
    }

    /** `read_symbol`: the symbol's first character, at `start`, has been
        read. */
    method ReadSymbol(start: nat, startPos: Position) returns (r: Result<Token, ParseError>)
      requires Valid() && start + 1 == idx
      modifies this
      ensures Valid() && Lexed(r, idx) == LexSymbol(input, start, startPos)
    {
      var symStart := input[start];
      var stop: nat;
      var endPos := TokenKinds.Next(startPos);
      if idx < |input| {
        var j, c, p := idx, input[idx], PeekPos();
        endPos := p;
        if IsDigit(c) && (symStart == '+' || symStart == '-') {
          Bump();
          r := ReadNumber(start, startPos);
          return;
        } else if IsDelimiter(c) {
          return Ok(Token(SymbolTok(input[start..j]), startPos, p));
        }
      }
      if idx < |input| {
        Bump();
      }
      r := ReadSymbolTail(start, startPos, endPos);
    }

    /** The loop of `read_symbol`, from the character after the second. */
    method ReadSymbolTail(start: nat, startPos: Position, e: Position) returns (r: Result<Token, ParseError>)
      requires Valid() && start < idx
      modifies this
      ensures Valid() && Lexed(r, idx) == SymbolTail(input, start, old(idx), e, startPos)
    {
      var endPos := e;
      var stop: nat;
      ghost var k := idx;
      while true
        invariant Valid() && k <= idx
        invariant RunEnd(input, idx, IsSymbolChar) == RunEnd(input, k, IsSymbolChar)
        invariant endPos == (if idx > k then PosOf(input, idx - 1) else e)
        decreases |input| - idx
      {
        if idx < |input| {
          var j, c, p := idx, input[idx], PeekPos();
          endPos := p;
          if !IsSymbolChar(c) {
            stop := j;
            if !IsDelimiter(c) {
              return Err(UnexpectedChar(c, p, Context("symbol", startPos)));
            }
            break;
          }
          Bump();
        } else {
          stop := |input|;
          break;
        }
      }
      r := Ok(Token(SymbolTok(input[start..stop]), startPos, endPos));
    }

    /** `Iterator::next` for `TokenIter`. */
    method Next() returns (r: Option<Result<Token, ParseError>>)
      requires Valid()
      modifies this
      ensures Valid() && Lexed(r, idx) == NextToken(input, old(idx))
    {
      SkipWhitespace();
      if idx >= |input| {
        return None;
      }
      var start, c, pos := idx, input[idx], PeekPos();
      Bump();
      if c == '\'' {
        r := Some(Ok(Token(FormLikeTok(Quote), pos, TokenKinds.Next(pos))));
      } else if c == '`' {
        r := Some(Ok(Token(FormLikeTok(QuasiQuote), pos, TokenKinds.Next(pos))));
      } else if c == '~' {
        r := Some(Ok(Token(FormLikeTok(Unquote), pos, TokenKinds.Next(pos))));
        if idx < |input| && input[idx] == '@' {
          var nextPos := PeekPos();
          Bump();
          r := Some(Ok(Token(FormLikeTok(UnquoteSplicing), pos, TokenKinds.Next(nextPos))));
        }
      } else if IsSymbolStart(c) {
        var t := ReadSymbol(start, pos);
        r := Some(t);
      } else if IsDigit(c) {
        var t := ReadNumber(start, pos);
        r := Some(t);
      } else if c in {'(', ')', '[', ']', '{', '}'} {
        r := Some(Ok(NewDelim(c, pos).value));
      } else if c == '"' {
        var t := ReadString(pos);
        r := Some(t);
      } else {
        r := None;
      }
    }
  }
}
