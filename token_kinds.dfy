/** The value-level vocabulary of the lexer in src/parse/tokens.rs: source
    positions, token kinds, delimiter pairing and the character classes. */
module TokenKinds {
  import opened Prelude

  /** `Position(line, column)`: line counts from 1, column from 0 before the
      first character of a line. */
  datatype Position = Position(line: nat, column: nat)

  /** `Position`'s `Display`: "line L, column C". */
  function PositionText(p: Position): string
  {
    "line " + NatToString(p.line) + ", column " + NatToString(p.column)
  }

  /** `Position::advance`: a newline starts the next line at column 0; any
      other character moves one column to the right. */
  function Advance(p: Position, c: char): (q: Position)
    ensures c == '\n' ==> q.line == p.line + 1 && q.column == 0
    ensures c != '\n' ==> q.line == p.line && q.column == p.column + 1
  {
    if c == '\n' then Position(p.line + 1, 0) else Position(p.line, p.column + 1)
  }

  /** `Position::next`: the column just after `p`. */
  function Next(p: Position): (q: Position)
    ensures q.line == p.line && q.column == p.column + 1
  {
    Position(p.line, p.column + 1)
  }

  /** The position the lexer reports for the last character of `s`: the start
      position (1, 0) advanced over every character of `s`. */
  function PosAfter(s: seq<char>): Position
  {
    if s == [] then Position(1, 0) else Advance(PosAfter(s[..|s| - 1]), s[|s| - 1])
  }

  /** Lines are counted by newlines and columns restart after each newline. */
  lemma {:induction false} PosAfterLines(s: seq<char>)
    ensures PosAfter(s).line == 1 + |NewlineIndices(s)|
    ensures NewlineIndices(s) == [] ==> PosAfter(s).column == |s|
  {
    if s != [] {
      PosAfterLines(s[..|s| - 1]);
      var pre := s[..|s| - 1];
      if s[|s| - 1] == '\n' {
        assert NewlineIndices(s) == NewlineIndices(pre) + [|s| - 1];
      } else {
        assert NewlineIndices(s) == NewlineIndices(pre);
      }
    }
  }

  /** The indices of the newlines of `s`, in order. */
  function NewlineIndices(s: seq<char>): seq<nat>
  {
    if s == [] then []
    else NewlineIndices(s[..|s| - 1]) + (if s[|s| - 1] == '\n' then [|s| - 1] else [])
  }

  datatype Open = LParen | LBrace | LBracket
  datatype Close = RParen | RBrace | RBracket
  datatype FormLike = Quote | QuasiQuote | Unquote | UnquoteSplicing

  /** `FormLike::form_name`: the list head a reader macro expands to. */
  function FormName(f: FormLike): string
  {
    match f
    case Quote => "quote"
    case QuasiQuote => "quasiquote"
    case Unquote => "unquote"
    case UnquoteSplicing => "unquote-splicing"
  }

  /** Distinct reader macros expand to distinct heads. */
  lemma FormNameInjective(f: FormLike, g: FormLike)
    ensures FormName(f) == FormName(g) ==> f == g
  {
  }

  /** `Open::closed_by`. */
  function ClosedBy(o: Open): Close
  {
    match o
    case LParen => RParen
    case LBrace => RBrace
    case LBracket => RBracket
  }

  /** `Close::to_char`. */
  function CloseChar(c: Close): char
  {
    match c
    case RParen => ')'
    case RBrace => '}'
    case RBracket => ']'
  }

  /** The character that opens each kind of group. */
  function OpenChar(o: Open): char
  {
    match o
    case LParen => '('
    case LBrace => '{'
    case LBracket => '['
  }

  /** Each opener has its own closer: `closed_by` is one-to-one, and the
      closer's character is the mirror of the opener's. */
  lemma ClosedByPairs(o1: Open, o2: Open)
    ensures ClosedBy(o1) == ClosedBy(o2) ==> o1 == o2
    ensures (OpenChar(o1), CloseChar(ClosedBy(o1))) in {('(', ')'), ('[', ']'), ('{', '}')}
  {
  }

  datatype TokenType =
    | OpenTok(open: Open)
    | CloseTok(close: Close)
    | FormLikeTok(form: FormLike)
    | StringTok(text: string)
    | NumberTok(text: string)
    | SymbolTok(text: string)

  datatype Token = Token(tt: TokenType, start: Position, end: Position)

  /** `Token::new_delim`: exactly the six bracket characters make a one
      character delimiter token ending at the next column. */
  function NewDelim(c: char, start: Position): (r: Option<Token>)
    ensures r.Some? <==> c in {'(', ')', '[', ']', '{', '}'}
    ensures r.Some? ==> r.value.start == start && r.value.end == Next(start)
    ensures r.Some? && r.value.tt.OpenTok? ==> OpenChar(r.value.tt.open) == c
    ensures r.Some? && r.value.tt.CloseTok? ==> CloseChar(r.value.tt.close) == c
    ensures r.Some? ==> (r.value.tt.OpenTok? || r.value.tt.CloseTok?)
  {
    var tt: Option<TokenType> :=
      match c
      case '(' => Some(OpenTok(LParen))
      case ')' => Some(CloseTok(RParen))
      case '[' => Some(OpenTok(LBracket))
      case ']' => Some(CloseTok(RBracket))
      case '{' => Some(OpenTok(LBrace))
      case '}' => Some(CloseTok(RBrace))
      case _ => None;
    if tt.Some? then Some(Token(tt.value, start, Next(start))) else None
  }

  /** Rust's `char::is_whitespace`: the Unicode White_Space property. */
  predicate IsWhitespace(c: char)
  {
    ('\U{0009}' <= c <= '\U{000D}') || c == '\U{0020}' || c == '\U{0085}' || c == '\U{00A0}'
    || c == '\U{1680}' || ('\U{2000}' <= c <= '\U{200A}') || c == '\U{2028}' || c == '\U{2029}'
    || c == '\U{202F}' || c == '\U{205F}' || c == '\U{3000}'
  }

  /** `char::is_alphanumeric`, restricted to ASCII letters and digits. */
  predicate IsAlphanumeric(c: char)
  {
    ('a' <= c <= 'z') || ('A' <= c <= 'Z') || IsDigit(c)
  }

  /** `char::is_numeric`, restricted to the ASCII digits. */
  predicate IsNumeric(c: char)
  {
    IsDigit(c)
  }

  /** `is_delimiter_c`: whitespace or one of the six brackets. */
  predicate IsDelimiter(c: char)
  {
    IsWhitespace(c) || c == '(' || c == ')' || c == '{' || c == '}' || c == '[' || c == ']'
  }

  /** `is_number_c`. */
  predicate IsNumberChar(c: char)
  {
    IsDigit(c) || c == '.' || c == 'e' || c == 'E'
  }

  /** `is_symbol_c`. */
  predicate IsSymbolChar(c: char)
  {
    (IsAlphanumeric(c) || ('*' <= c <= '~') || c == '!' || ('#' <= c <= '\'')) && !IsDelimiter(c)
  }

  /** `is_symbol_start_c`. */
  predicate IsSymbolStart(c: char)
  {
    IsSymbolChar(c) && !IsNumeric(c) && c != '\''
  }

  /** No character is both a delimiter and part of a number or a symbol, and
      a string quote is neither. */
  lemma CharClassesDisjoint(c: char)
    ensures IsDelimiter(c) ==> !IsNumberChar(c) && !IsSymbolChar(c)
    ensures !IsSymbolChar('"') && !IsNumberChar('"') && !IsDelimiter('"')
    ensures IsNumberChar(c) ==> IsSymbolChar(c)
  {
  }
}
