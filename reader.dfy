/** The reader (src/parse/mod.rs and src/parse/util.rs): turns the tokens of
    `Lexer.TokenIter` into values, desugaring reader macros, `[..]` and
    `{..}`. Number texts that are not `i64` literals go to a float parser
    supplied by the caller. */
module Reader {
  import opened Prelude
  import opened TokenKinds
  import opened ParseErrors
  import opened Lexer
  import opened Values

  /** A float parser: `str::parse::<f64>`, as a parameter. */
  type FloatParser = string -> Option<FloatBits>

  // ---------------------------------------------------------------- util.rs

  /** `immediate_value`: a value that stands for itself inside a literal. A
      two-element list headed by `quote` is immediate (it is unquoted
      later); identifiers are not; a map is immediate when all its keys and
      values are. (`==` on an Ident compares names.) */
  predicate ImmediateValue(v: Value): (r: bool)
    ensures r && v.List? ==> |v.items| == 2 && v.items[0] == Ident("quote")
    ensures r ==> !v.Ident?
    decreases v
  {
    match v
    case Map(m) => forall k :: k in m ==> ImmediateValue(k) && ImmediateValue(m[k])
    case List(vec) => |vec| == 2 && vec[0] == Ident("quote")
    case Ident(_) => false
    case _ => true
  }

  /** `unquote`: the second element of a list, any other value unchanged.
      A list shorter than two panics in the source; that is excluded here. */
  function Unquote(v: Value): (r: Value)
    requires v.List? ==> |v.items| >= 2
    ensures !v.List? ==> r == v
    ensures v.List? && |v.items| == 2 && v.items[0] == Ident("quote") ==> v == List([Ident("quote"), r])
  {
    match v
    case List(vec) => vec[1]
    case _ => v
  }

  /** `can_be_hash_key`. */
  predicate CanBeHashKey(v: Value): (r: bool)
    ensures r ==> ImmediateValue(v)
    ensures r ==> !Unquote(v).Map? && !Unquote(v).List?
  {
    match v
    case Map(_) => false
    case Ident(_) => false
    case List(vec) => |vec| == 2 && vec[0] == Ident("quote") && !vec[1].Map? && !vec[1].List?
    case _ => true
  }

  /** Quoting then unquoting gives the value back, and a quoted value is
      immediate. */
  lemma UnquoteQuoted(x: Value)
    ensures ImmediateValue(List([Ident("quote"), x]))
    ensures Unquote(List([Ident("quote"), x])) == x
  {
  }

  /** A value that may be a map key is immediate, and the key it stands for
      after unquoting is never a map or a list. */
  lemma HashKeysAreImmediate(v: Value)
    requires CanBeHashKey(v)
    ensures ImmediateValue(v)
    ensures !Unquote(v).Map? && !Unquote(v).List?
  {
  }

  // ---------------------------------------------------------------- atoms

  /** A number token: an `i64` if the text is one, else a float, else a
      conversion error ("invalid float literal" is the float parser's
      message for a non-empty text). */
  function NumberValue(s: string, parseFloat: FloatParser): (r: Result<Value, ParseError>)
    ensures r.Ok? ==> r.value.Int? || r.value.Float?
    ensures r.Err? ==> r.error == ConversionError(s, "invalid float literal")
    ensures ParseI64(s).Some? ==> r == Ok(Int(ParseI64(s).value))
  {
    match ParseI64(s)
    case Some(n) => Ok(Int(n))
    case None =>
      match parseFloat(s)
      case Some(f) => Ok(Float(f))
      case None => Err(ConversionError(s, "invalid float literal"))
  }

  /** Integer literals read back as the integers they print. */
  lemma NumberValueOfIntText(i: I64, parseFloat: FloatParser)
    ensures NumberValue(IntToString(i), parseFloat) == Ok(Int(i))
  {
    ParseI64OfIntToString(i);
  }

  /** A symbol token: `true`/`false` (`str::parse::<bool>`) or an identifier. */
  function SymbolValue(s: string): (v: Value)
    ensures v.Bool? <==> s in {"true", "false"}
    ensures v.Bool? ==> (v.b <==> s == "true")
    ensures !v.Bool? ==> v == Ident(s)
  {
    if s == "true" then Bool(true) else if s == "false" then Bool(false) else Ident(s)
  }

  /** The elements at even positions (`partition(|(i, _)| i % 2 == 0)`). */
  function Evens<T>(s: seq<T>): (r: seq<T>)
    ensures |r| == (|s| + 1) / 2
    ensures forall i :: 0 <= i < |r| ==> r[i] == s[2 * i]
  {
    if |s| == 0 then [] else if |s| == 1 then [s[0]] else [s[0]] + Evens(s[2..])
  }

  /** The elements at odd positions. */
  function Odds<T>(s: seq<T>): (r: seq<T>)
    ensures |r| == |s| / 2
    ensures forall i :: 0 <= i < |r| ==> r[i] == s[2 * i + 1]
  {
    if |s| < 2 then [] else [s[1]] + Odds(s[2..])
  }

  /** `zip(..).collect()` into a map: pairs inserted in order, so a later
      duplicate key overwrites an earlier one. */
  function MapOfPairs(ks: seq<Value>, vs: seq<Value>): (m: map<Value, Value>)
    requires |ks| == |vs|
    ensures forall k :: k in m <==> k in ks
    ensures forall k :: k in m ==> m[k] in vs
  {
    if ks == [] then map[]
    else MapOfPairs(ks[..|ks| - 1], vs[..|vs| - 1])[ks[|ks| - 1] := vs[|vs| - 1]]
  }

  /** Each key is bound to the value paired with its LAST occurrence. */
  lemma {:induction false} MapOfPairsLastWins(ks: seq<Value>, vs: seq<Value>, i: nat)
    requires |ks| == |vs| && i < |ks|
    requires forall j :: i < j < |ks| ==> ks[j] != ks[i]
    ensures MapOfPairs(ks, vs)[ks[i]] == vs[i]
  {
    if i < |ks| - 1 {
      MapOfPairsLastWins(ks[..|ks| - 1], vs[..|vs| - 1], i);
    }
  }

  /** Every value of a literal stands for itself. */
  predicate AllImmediate(values: seq<Value>)
  {
    forall i :: 0 <= i < |values| ==> ImmediateValue(values[i])
  }

  /** `[..]`: all immediate values become `(quote (v ...))` with each value
      unquoted; otherwise `(list v ...)`. */
  function BracketValue(values: seq<Value>): (r: Value)
    ensures r.List? && 1 <= |r.items|
    ensures r.items[0] == Ident("quote") <==> AllImmediate(values)
    ensures AllImmediate(values) ==>
      |r.items| == 2 && r.items[1].List? && |r.items[1].items| == |values|
      && forall i :: 0 <= i < |values| ==> ImmediateValue(values[i]) && r.items[1].items[i] == Unquote(values[i])
    ensures !AllImmediate(values) ==> r.items == [Ident("list")] + values
  {
    if forall i :: 0 <= i < |values| ==> ImmediateValue(values[i]) then
      List([Ident("quote"), List(UnquoteAll(values))])
    else List([Ident("list")] + values)
  }

  /** `{..}`: an odd count is malformed; all-immediate entries whose keys
      may be hash keys become a map literal; all-immediate entries with a
      bad key are malformed; anything else becomes `(hash-map k v ...)`. */
  function BraceValue(values: seq<Value>, start: Position): (r: Result<Value, ParseError>)
    ensures r.Err? ==> r.error == InvalidMapLiteral(start)
    ensures r.Err? <==> (|values| % 2 == 1
      || (AllImmediate(values) && exists k :: 0 <= k < |Evens(values)| && !CanBeHashKey(Evens(values)[k])))
    ensures r.Ok? && AllImmediate(values) ==> r.value.Map?
    ensures r.Ok? && !AllImmediate(values) ==> r.value == List([Ident("hash-map")] + values)
  {
    if |values| % 2 == 1 then Err(InvalidMapLiteral(start))
    else if forall i :: 0 <= i < |values| ==> ImmediateValue(values[i]) then
      if forall i :: 0 <= i < |Evens(values)| ==> CanBeHashKey(Evens(values)[i]) then
        Ok(Map(MapOfPairs(UnquoteAll(Evens(values)), UnquoteAll(Odds(values)))))
      else Err(InvalidMapLiteral(start))
    else Ok(List([Ident("hash-map")] + values))
  }

  /** A list of values read from text is plain data: no functions and no
      options anywhere inside. */
  predicate ReadData(v: Value)
    decreases v
  {
    match v
    case List(vs) => forall i :: 0 <= i < |vs| ==> ReadData(vs[i])
    case Map(m) => forall k :: k in m ==> ReadData(k) && ReadData(m[k])
    case ForeignFn(_) => false
    case Lambda(_) => false
    case Opt(_) => false
    case _ => true
  }

  /** Every element unquoted, for a sequence of immediate values. */
  function UnquoteAll(vs: seq<Value>): (r: seq<Value>)
    requires forall i :: 0 <= i < |vs| ==> ImmediateValue(vs[i])
    ensures |r| == |vs| && forall i :: 0 <= i < |vs| ==> ImmediateValue(vs[i]) && r[i] == Unquote(vs[i])
  {
    seq(|vs|, i requires 0 <= i < |vs| && ImmediateValue(vs[i]) => Unquote(vs[i]))
  }

  /** Unquoting keeps read values plain data. */
  lemma UnquoteAllReadData(vs: seq<Value>)
    requires forall i :: 0 <= i < |vs| ==> ImmediateValue(vs[i]) && ReadData(vs[i])
    ensures forall i :: 0 <= i < |vs| ==> ReadData(UnquoteAll(vs)[i])
  {
    forall i | 0 <= i < |vs| ensures ReadData(UnquoteAll(vs)[i]) {
      if vs[i].List? { assert vs[i].items[1] in vs[i].items; }
    }
  }

  /** A map built from plain data is plain data. */
  lemma MapOfPairsReadData(ks: seq<Value>, vs: seq<Value>)
    requires |ks| == |vs|
    requires forall i :: 0 <= i < |ks| ==> ReadData(ks[i]) && ReadData(vs[i])
    ensures ReadData(Map(MapOfPairs(ks, vs)))
  {
    var m := MapOfPairs(ks, vs);
    forall k | k in m ensures ReadData(k) && ReadData(m[k]) {
      var a :| 0 <= a < |ks| && ks[a] == k;
      var b :| 0 <= b < |vs| && vs[b] == m[k];
    }
  }

  /** A head identifier before plain data gives a plain-data list. */
  lemma HeadedListReadData(head: string, values: seq<Value>)
    requires forall i :: 0 <= i < |values| ==> ReadData(values[i])
    ensures ReadData(List([Ident(head)] + values))
  {
    var l := [Ident(head)] + values;
    assert forall i :: 1 <= i < |l| ==> l[i] == values[i - 1];
  }

  /** Bracket and brace desugaring keep read values plain data. */
  lemma DesugarKeepsReadData(values: seq<Value>, start: Position)
    requires forall i :: 0 <= i < |values| ==> ReadData(values[i])
    ensures ReadData(BracketValue(values))
    ensures BraceValue(values, start).Ok? ==> ReadData(BraceValue(values, start).value)
  {
    BracketReadData(values);
    BraceReadData(values, start);
  }

  lemma BracketReadData(values: seq<Value>)
    requires forall i :: 0 <= i < |values| ==> ReadData(values[i])
    ensures ReadData(BracketValue(values))
  {
    if forall i :: 0 <= i < |values| ==> ImmediateValue(values[i]) {
      UnquoteAllReadData(values);
      var q := [Ident("quote"), List(UnquoteAll(values))];
      assert forall k :: 0 <= k < |q| ==> ReadData(q[k]);
    } else {
      HeadedListReadData("list", values);
    }
  }

  lemma BraceReadData(values: seq<Value>, start: Position)
    requires forall i :: 0 <= i < |values| ==> ReadData(values[i])
    ensures BraceValue(values, start).Ok? ==> ReadData(BraceValue(values, start).value)
  {
    if |values| % 2 == 0 {
      if forall i :: 0 <= i < |values| ==> ImmediateValue(values[i]) {
        var keys, vals := Evens(values), Odds(values);
        UnquoteAllReadData(keys);
        UnquoteAllReadData(vals);
        MapOfPairsReadData(UnquoteAll(keys), UnquoteAll(vals));
      } else {
        HeadedListReadData("hash-map", values);
      }
    }
  }

  // ---------------------------------------------------------------- mod.rs, as functions

  /** A reader macro's expansion: `(form e)`, or `(form)` at end of input. */
  function FormValue(f: FormLike, quoted: Option<Value>): Value
  {
    match quoted
    case None => List([Ident(FormName(f))])
    case Some(v) => List([Ident(FormName(f)), v])
  }

  /** A reader macro's expansion of plain data is plain data. */
  lemma FormValueReadData(f: FormLike, quoted: Option<Value>)
    requires quoted.Some? ==> ReadData(quoted.value)
    ensures ReadData(FormValue(f, quoted))
  {
    var l := FormValue(f, quoted).items;
    assert forall k :: 0 <= k < |l| ==> ReadData(l[k]);
  }

  /** `parse_one_expr`: the next token's expression, `None` when the
      tokens run out. */
  function ParseOneExprF(input: string, i: nat, pf: FloatParser): (r: Lexed<Result<Option<Value>, ParseError>>)
    requires i <= |input|
    ensures i <= r.next <= |input|
    ensures r.result.Ok? && r.result.value.Some? ==> i < r.next && ReadData(r.result.value.value)
    ensures var t := NextToken(input, i);
      && (t.result.None? ==> r == Lexed(Ok(None), t.next))
      && (t.result.Some? && t.result.value.Err? ==> r.result == Err(t.result.value.error))
      && (t.result.Some? && t.result.value.Ok? && t.result.value.value.tt.CloseTok? ==>
            r.result == Err(ExtraRightDelimiter(t.result.value.value.tt.close, t.result.value.value.start)))
    decreases |input| - i, 0
  {
    var t := NextToken(input, i);
    match t.result
    case None => Lexed(Ok(None), t.next)
    case Some(Err(e)) => Lexed(Err(e), t.next)
    case Some(Ok(tok)) =>
      var e := OneExprF(input, tok, t.next, pf);
      match e.result
      case Ok(v) => Lexed(Ok(Some(v)), e.next)
      case Err(err) => Lexed(Err(err), e.next)
  }

  /** `one_expr`: the expression that starts with `tok`, reading further
      tokens from index `i` as needed. */
  function OneExprF(input: string, tok: Token, i: nat, pf: FloatParser): (r: Lexed<Result<Value, ParseError>>)
    requires i <= |input|
    ensures i <= r.next <= |input|
    ensures r.result.Ok? ==> ReadData(r.result.value)
    ensures tok.tt.CloseTok? ==> r == Lexed(Err(ExtraRightDelimiter(tok.tt.close, tok.start)), i)
    ensures tok.tt.FormLikeTok? ==>
      var q := ParseOneExprF(input, i, pf);
      && r.next == q.next
      && (q.result.Err? ==> r.result == Err(q.result.error))
      && (q.result.Ok? ==> r.result == Ok(FormValue(tok.tt.form, q.result.value)))
    ensures tok.tt.OpenTok? ==>
      var d := ParseDelimitedF(input, i, tok.tt.open, [], pf);
      && r.next == d.next
      && (d.result.Err? ==> r.result == Err(d.result.error))
      && (d.result.Ok? && tok.tt.open == LParen ==> r.result == Ok(List(d.result.value)))
      && (d.result.Ok? && tok.tt.open == LBracket ==> r.result == Ok(BracketValue(d.result.value)))
      && (d.result.Ok? && tok.tt.open == LBrace ==> r.result == BraceValue(d.result.value, tok.start))
    decreases |input| - i, 1
  {
    match tok.tt
    case NumberTok(s) => Lexed(NumberValue(s, pf), i)
    case SymbolTok(s) => Lexed(Ok(SymbolValue(s)), i)
    case StringTok(s) => Lexed(Ok(String(s)), i)
    case FormLikeTok(f) =>
      var q := ParseOneExprF(input, i, pf);
      (match q.result
       case Err(e) => Lexed(Err(e), q.next)
       case Ok(quoted) =>
         FormValueReadData(f, quoted);
         Lexed(Ok(FormValue(f, quoted)), q.next))
    case CloseTok(c) => Lexed(Err(ExtraRightDelimiter(c, tok.start)), i)
    case OpenTok(o) =>
      var d := ParseDelimitedF(input, i, o, [], pf);
      match d.result
      case Err(e) => Lexed(Err(e), d.next)
      case Ok(values) =>
        DesugarKeepsReadData(values, tok.start);
        match o
        case LParen => Lexed(Ok(List(values)), d.next)
        case LBracket => Lexed(Ok(BracketValue(values)), d.next)
        case LBrace => Lexed(BraceValue(values, tok.start), d.next)
  }

  /** `parse_delimited`: expressions up to the closer of `opener`, appended
      to `acc`. A different closer is reported as an extra delimiter naming
      the expected closer; running out of tokens as a missing one. */
  function ParseDelimitedF(input: string, i: nat, opener: Open, acc: seq<Value>, pf: FloatParser)
    : (r: Lexed<Result<seq<Value>, ParseError>>)
    requires i <= |input|
    ensures i <= r.next <= |input|
    ensures r.result.Ok? ==> acc <= r.result.value
    ensures r.result.Ok? && (forall k :: 0 <= k < |acc| ==> ReadData(acc[k])) ==>
      forall k :: 0 <= k < |r.result.value| ==> ReadData(r.result.value[k])
    ensures var t := NextToken(input, i);
      && (t.result.None? ==> r.result == Err(MissingRightDelimiter(ClosedBy(opener))))
      && (t.result.Some? && t.result.value.Ok? && t.result.value.value.tt.CloseTok? ==>
            r.result == if t.result.value.value.tt.close == ClosedBy(opener) then Ok(acc)
                        else Err(ExtraRightDelimiter(ClosedBy(opener), t.result.value.value.start)))
    decreases |input| - i, 0
  {
    var t := NextToken(input, i);
    match t.result
    case None => Lexed(Err(MissingRightDelimiter(ClosedBy(opener))), t.next)
    case Some(Err(e)) => Lexed(Err(e), t.next)
    case Some(Ok(tok)) =>
      if tok.tt.CloseTok? then
        if tok.tt.close == ClosedBy(opener) then Lexed(Ok(acc), t.next)
        else Lexed(Err(ExtraRightDelimiter(ClosedBy(opener), tok.start)), t.next)
      else
        var e := OneExprF(input, tok, t.next, pf);
        match e.result
        case Err(err) => Lexed(Err(err), e.next)
        case Ok(v) => ParseDelimitedF(input, e.next, opener, acc + [v], pf)
  }

  /** `parse`'s loop: top-level expressions appended to `acc` until the
      tokens run out or an error stops it. */
  function ParseAllF(input: string, i: nat, acc: seq<Value>, pf: FloatParser): (r: Result<seq<Value>, ParseError>)
    requires i <= |input|
    ensures r.Ok? ==> acc <= r.value
    ensures r.Ok? && (forall k :: 0 <= k < |acc| ==> ReadData(acc[k])) ==>
      forall k :: 0 <= k < |r.value| ==> ReadData(r.value[k])
    ensures var e := ParseOneExprF(input, i, pf);
      && (e.result.Err? ==> r == Err(e.result.error))
      && (e.result == Ok(None) ==> r == Ok(acc))
      && (e.result.Ok? && e.result.value.Some? && r.Ok? ==> |acc| < |r.value| && r.value[|acc|] == e.result.value.value)
    decreases |input| - i
  {
    var e := ParseOneExprF(input, i, pf);
    match e.result
    case Err(err) => Err(err)
    case Ok(None) => Ok(acc)
    case Ok(Some(v)) => ParseAllF(input, e.next, acc + [v], pf)
  }

  /** `parse`: every top-level expression, in source order; all of them
      plain data. */
  function ParseF(input: string, pf: FloatParser): (r: Result<seq<Value>, ParseError>)
    ensures r.Ok? ==> forall k :: 0 <= k < |r.value| ==> ReadData(r.value[k])
    ensures var e := ParseOneExprF(input, 0, pf);
      && (e.result.Err? ==> r == Err(e.result.error))
      && (e.result == Ok(None) ==> r == Ok([]))
      && (e.result.Ok? && e.result.value.Some? && r.Ok? ==> |r.value| >= 1 && r.value[0] == e.result.value.value)
  {
    ParseAllF(input, 0, [], pf)
  }

  // ---------------------------------------------------------------- properties

  /** Blank input reads as no expressions at all. */
  lemma ParseBlank(input: string, pf: FloatParser)
    requires forall k :: 0 <= k < |input| ==> IsWhitespace(input[k])
    ensures ParseF(input, pf) == Ok([])
  {
    SkipWsAll(input, 0);
  }

  /** Skipping whitespace over an all-blank suffix reaches the end. */
  lemma {:induction false} SkipWsAll(input: string, i: nat)
    requires i <= |input|
    requires forall k :: i <= k < |input| ==> IsWhitespace(input[k])
    ensures SkipWs(input, i) == |input|
    decreases |input| - i
  {
    if i < |input| {
      SkipWsAll(input, i + 1);
    }
  }

  // ---------------------------------------------------------------- mod.rs, over the token iterator

  /** `parse_one_expr`, advancing the shared iterator. */
  method ParseOneExpr(it: TokenIter, pf: FloatParser) returns (r: Result<Option<Value>, ParseError>)
    requires it.Valid()
    modifies it
    ensures it.Valid() && Lexed(r, it.idx) == ParseOneExprF(it.input, old(it.idx), pf)
    decreases |it.input| - it.idx, 0
  {
    var t := it.Next();
    match t
    case None => r := Ok(None);
    case Some(Err(e)) => r := Err(e);
    case Some(Ok(tok)) =>
      var e := OneExpr(it, tok, pf);
      match e {
        case Ok(v) => r := Ok(Some(v));
        case Err(err) => r := Err(err);
      }
  }

  /** `one_expr`, advancing the shared iterator. */
  method OneExpr(it: TokenIter, tok: Token, pf: FloatParser) returns (r: Result<Value, ParseError>)
    requires it.Valid()
    modifies it
    ensures it.Valid() && Lexed(r, it.idx) == OneExprF(it.input, tok, old(it.idx), pf)
    decreases |it.input| - it.idx, 1
  {
    match tok.tt
    case NumberTok(s) => r := NumberValue(s, pf);
    case SymbolTok(s) => r := Ok(SymbolValue(s));
    case StringTok(s) => r := Ok(String(s));
    case FormLikeTok(f) =>
      var q := ParseOneExpr(it, pf);
      match q {
        case Err(e) => r := Err(e);
        case Ok(quoted) => r := Ok(FormValue(f, quoted));
      }
    case CloseTok(c) => r := Err(ExtraRightDelimiter(c, tok.start));
    case OpenTok(o) =>
      var d := ParseDelimited(it, o, pf);
      match d {
        case Err(e) => r := Err(e);
        case Ok(values) =>
          match o {
            case LParen => r := Ok(List(values));
            case LBracket => r := Ok(BracketValue(values));
            case LBrace => r := BraceValue(values, tok.start);
          }
      }
  }

  /** `parse_delimited`: the loop pushing expressions until the closer. */
  method ParseDelimited(it: TokenIter, opener: Open, pf: FloatParser) returns (r: Result<seq<Value>, ParseError>)
    requires it.Valid()
    modifies it
    ensures it.Valid() && Lexed(r, it.idx) == ParseDelimitedF(it.input, old(it.idx), opener, [], pf)
    decreases |it.input| - it.idx, 0
  {
    var v: seq<Value> := [];
    ghost var start := it.idx;
    while true
      invariant it.Valid() && start <= it.idx
      invariant ParseDelimitedF(it.input, start, opener, [], pf) == ParseDelimitedF(it.input, it.idx, opener, v, pf)
      decreases |it.input| - it.idx
    {
      var t := it.Next();
      if t.None? {
        return Err(MissingRightDelimiter(ClosedBy(opener)));
      }
      if t.value.Err? {
        return Err(t.value.error);
      }
      var tok := t.value.value;
      if tok.tt.CloseTok? {
        if tok.tt.close == ClosedBy(opener) {
          return Ok(v);
        } else {
          return Err(ExtraRightDelimiter(ClosedBy(opener), tok.start));
        }
      }
      var e := OneExpr(it, tok, pf);
      if e.Err? {
        return Err(e.error);
      }
      v := v + [e.value];
    }
  }

  /** `parse`: reads top-level expressions until the tokens run out,
      stopping at the first error. */
  method Parse(input: string, pf: FloatParser) returns (r: Result<seq<Value>, ParseError>)
    ensures r == ParseF(input, pf)
  {
    var v: seq<Value> := [];
    var it := new TokenIter(input);
    while true
      invariant it.Valid() && it.input == input
      invariant ParseF(input, pf) == ParseAllF(input, it.idx, v, pf)
      decreases |input| - it.idx
    {
      var e := ParseOneExpr(it, pf);
      if e.Err? {
        return Err(e.error);
      }
      if e.value.None? {
        return Ok(v);
      }
      v := v + [e.value.value];
    }
  }
}
