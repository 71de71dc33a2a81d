/** The reader's errors and their messages (src/parse/errors.rs). */
module ParseErrors {
  import opened Prelude
  import opened TokenKinds

  /** `ParseError`. A `ConversionError` keeps the number text and the
      message of the underlying conversion failure. */
  datatype ParseError =
    | UnexpectedChar(c: char, pos: Position, whileDoing: string)
    | UnterminatedString(pos: Position)
    | ConversionError(text: string, reason: string)
    | BadEscape(pos: Position, text: string)
    | MissingRightDelimiter(close: Close)
    | ExtraRightDelimiter(close: Close, pos: Position)
    | InvalidMapLiteral(pos: Position)

  /** `Display for ParseError`. The message starts with the error's
      `description` wherever the two agree in wording, a conversion error
      ends with the underlying failure's message, and the errors that carry
      a position end with it unless more text follows. */
  function Message(e: ParseError): (r: string)
    ensures !e.BadEscape? && !e.InvalidMapLiteral? && !e.ConversionError? ==> Description(e) <= r
    ensures e.ConversionError? ==> |Description(e)| <= |r| && r[|r| - |Description(e)|..] == Description(e)
    ensures e.UnterminatedString? || e.ExtraRightDelimiter? ==>
      |PositionText(e.pos)| <= |r| && r[|r| - |PositionText(e.pos)|..] == PositionText(e.pos)
  {
    match e
    case UnexpectedChar(c, pos, whileDoing) =>
      "Unexpected character " + [c] + " at " + PositionText(pos) + ", " + whileDoing
    case UnterminatedString(pos) => "Unterminated string beginning at " + PositionText(pos)
    case ConversionError(s, reason) => "Could not convert " + s + ": " + reason
    case BadEscape(pos, s) => "Invalid escape sequence starting at " + PositionText(pos) + ": " + s
    case MissingRightDelimiter(c) => "Missing right delimiter " + [CloseChar(c)]
    case ExtraRightDelimiter(c, pos) => "Extra right delimiter " + [CloseChar(c)] + " at " + PositionText(pos)
    case InvalidMapLiteral(pos) => "Map literal at " + PositionText(pos) + " is malformed"
  }

  /** `Error::description`. */
  function Description(e: ParseError): string
  {
    match e
    case UnexpectedChar(_, _, _) => "Unexpected character"
    case UnterminatedString(_) => "Unterminated string"
    case ConversionError(_, reason) => reason
    case BadEscape(_, _) => "Bad escape sequence"
    case MissingRightDelimiter(_) => "Missing right delimiter"
    case ExtraRightDelimiter(_, _) => "Extra right delimiter"
    case InvalidMapLiteral(_) => "Map literals require an even number of elements"
  }

  /** A missing closer's message names the closer, so different closers give
      different messages. */
  lemma MissingDelimiterMessageNamesCloser(c1: Close, c2: Close)
    ensures Message(MissingRightDelimiter(c1)) == Message(MissingRightDelimiter(c2)) <==> c1 == c2
  {
    if Message(MissingRightDelimiter(c1)) == Message(MissingRightDelimiter(c2)) {
      assert Message(MissingRightDelimiter(c1))[24] == CloseChar(c1);
      assert Message(MissingRightDelimiter(c2))[24] == CloseChar(c2);
    }
  }
}
