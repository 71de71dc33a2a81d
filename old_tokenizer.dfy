/** The first reader (src/tokenizer.rs): pads parentheses with spaces,
    splits on whitespace and reads integers, identifiers and lists from the
    token vector. Its panics are modelled as errors. */
module OldTokenizer {
  import opened Prelude
  import opened TokenKinds
  import opened Values

  // ---------------------------------------------------------------- tokenize

  /** `str::replace(c, t)` for a one-character pattern: every `c` becomes `t`. */
  function Replace(s: string, c: char, t: string): (r: string)
    ensures forall k :: 0 <= k < |s| && s[k] != c ==> s[k] in r
  {
    if s == [] then [] else Replace(s[..|s| - 1], c, t) + (if s[|s| - 1] == c then t else [s[|s| - 1]])
  }

  /** `s.replace("(", " ( ").replace(")", " ) ")`. */
  function Pad(s: string): string
  {
    Replace(Replace(s, '(', " ( "), ')', " ) ")
  }

  /** `split_whitespace`, scanning left to right with the current partial
      word `cur`. */
  function SplitFrom(s: string, cur: string): (words: seq<string>)
    decreases |s|
  {
    if s == [] then (if cur == [] then [] else [cur])
    else if IsWhitespace(s[0]) then (if cur == [] then [] else [cur]) + SplitFrom(s[1..], [])
    else SplitFrom(s[1..], cur + [s[0]])
  }

  /** `tokenize`: it keeps every non-whitespace character, in order, and
      makes each parenthesis a token of its own. */
  function Tokenize(s: string): (ts: seq<string>)
    ensures Concat(ts) == RemoveWs(s)
    ensures forall k :: 0 <= k < |ts| ==> ts[k] != [] && NoWs(ts[k]) && (ts[k] in {"(", ")"} || ParenFree(ts[k]))
  {
    SplitFromText(Pad(s), []);
    PadPads(s);
    SplitFromParens(Pad(s), []);
    ReplaceKeepsText(s, '(');
    ReplaceKeepsText(Replace(s, '(', " ( "), ')');
    SplitFrom(Pad(s), [])
  }

  function Concat(ws: seq<string>): string
  {
    if ws == [] then [] else ws[0] + Concat(ws[1..])
  }

  /** The characters of `s` that are not whitespace, in order. */
  function RemoveWs(s: string): string
  {
    if s == [] then [] else RemoveWs(s[..|s| - 1]) + (if IsWhitespace(s[|s| - 1]) then [] else [s[|s| - 1]])
  }

  predicate NoWs(w: string)
  {
    forall k :: 0 <= k < |w| ==> !IsWhitespace(w[k])
  }

  predicate IsParen(c: char) { c == '(' || c == ')' }

  predicate ParenFree(w: string)
  {
    forall k :: 0 <= k < |w| ==> !IsParen(w[k])
  }

  /** Next to every `c` in `p` there is a space: no two adjacent characters
      of which one is `c` and neither is a space. */
  predicate PaddedFor(p: string, c: char)
  {
    forall k :: 0 <= k < |p| - 1 ==> (p[k] == c || p[k + 1] == c) ==> (p[k] == ' ' || p[k + 1] == ' ')
  }

  lemma RemoveWsAppend(a: string, b: string)
    ensures RemoveWs(a + b) == RemoveWs(a) + RemoveWs(b)
    decreases |b|
  {
    if b != [] {
      assert (a + b)[..|a + b| - 1] == a + b[..|b| - 1];
      assert (a + b)[|a + b| - 1] == b[|b| - 1];
      RemoveWsAppend(a, b[..|b| - 1]);
    } else {
      assert a + b == a;
    }
  }

  lemma {:induction false} ConcatAppend(a: seq<string>, b: seq<string>)
    ensures Concat(a + b) == Concat(a) + Concat(b)
  {
    if a != [] {
      assert (a + b)[1..] == a[1..] + b;
      assert (a + b)[0] == a[0];
      ConcatAppend(a[1..], b);
    } else {
      assert a + b == b;
    }
  }

  /** Replacing a non-space character by itself between spaces adds only
      whitespace. */
  lemma {:induction false} ReplaceKeepsText(s: string, c: char)
    requires c != ' ' && !IsWhitespace(c)
    ensures RemoveWs(Replace(s, c, [' ', c, ' '])) == RemoveWs(s)
  {
    if s != [] {
      var pre, last := s[..|s| - 1], s[|s| - 1];
      var piece := if last == c then [' ', c, ' '] else [last];
      ReplaceKeepsText(pre, c);
      assert Replace(s, c, [' ', c, ' ']) == Replace(pre, c, [' ', c, ' ']) + piece;
      RemoveWsAppend(Replace(pre, c, [' ', c, ' ']), piece);
      assert s == pre + [last];
      RemoveWsAppend(pre, [last]);
      assert RemoveWs(piece) == RemoveWs([last]) by {
        if last == c {
          RemoveWsPrefix(piece);
          RemoveWsPrefix(piece[1..]);
          RemoveWsPrefix(piece[2..]);
          RemoveWsPrefix([last]);
        }
      }
    }
  }

  /** Every `c` is padded after the replacement. */
  lemma {:induction false} ReplacePads(s: string, c: char)
    requires c != ' '
    ensures PaddedFor(Replace(s, c, [' ', c, ' ']), c)
  {
    if s != [] {
      var pre := s[..|s| - 1];
      ReplacePads(pre, c);
      var a := Replace(pre, c, [' ', c, ' ']);
      assert a == [] || a[|a| - 1] != c by {
        if pre != [] {
          assert a == Replace(pre[..|pre| - 1], c, [' ', c, ' ']) + (if pre[|pre| - 1] == c then [' ', c, ' '] else [pre[|pre| - 1]]);
        }
      }
    }
  }

  /** Replacing another character keeps the padding of `d`. */
  lemma {:induction false} ReplaceKeepsPadding(s: string, c: char, d: char)
    requires c != ' ' && d != ' ' && c != d
    requires PaddedFor(s, d)
    ensures PaddedFor(Replace(s, c, [' ', c, ' ']), d)
  {
    if s != [] {
      var pre := s[..|s| - 1];
      assert PaddedFor(pre, d) by {
        forall k | 0 <= k < |pre| - 1 ensures (pre[k] == d || pre[k + 1] == d) ==> (pre[k] == ' ' || pre[k + 1] == ' ') {
          assert pre[k] == s[k] && pre[k + 1] == s[k + 1];
        }
      }
      ReplaceKeepsPadding(pre, c, d);
      var a := Replace(pre, c, [' ', c, ' ']);
      if pre != [] && s[|s| - 1] != c {
        LastOfReplace(pre, c);
        assert s[|s| - 2] == pre[|pre| - 1];
      }
    }
  }

  /** The last character of a replacement output: a space if the last input
      character was replaced, else that character. */
  lemma LastOfReplace(s: string, c: char)
    requires s != []
    ensures var r := Replace(s, c, [' ', c, ' ']);
      |r| > 0 && r[|r| - 1] == (if s[|s| - 1] == c then ' ' else s[|s| - 1])
  {
  }

  /** After padding, both parentheses are padded. */
  lemma PadPads(s: string)
    ensures PaddedFor(Pad(s), '(') && PaddedFor(Pad(s), ')')
  {
    ReplacePads(s, '(');
    ReplaceKeepsPadding(Replace(s, '(', " ( "), ')', '(');
    ReplacePads(Replace(s, '(', " ( "), ')');
  }

  /** Splitting drops exactly the whitespace, and yields non-empty words
      without whitespace. */
  lemma {:induction false} SplitFromText(s: string, cur: string)
    requires NoWs(cur)
    ensures Concat(SplitFrom(s, cur)) == cur + RemoveWs(s)
    ensures forall k :: 0 <= k < |SplitFrom(s, cur)| ==> SplitFrom(s, cur)[k] != [] && NoWs(SplitFrom(s, cur)[k])
    decreases |s|
  {
    if s == [] {
    } else {
      RemoveWsPrefix(s);
      if IsWhitespace(s[0]) {
        SplitFromText(s[1..], []);
        var first := if cur == [] then [] else [cur];
        ConcatAppend(first, SplitFrom(s[1..], []));
      } else {
        SplitFromText(s[1..], cur + [s[0]]);
      }
    }
  }

  /** `RemoveWs` read from the front. */
  lemma RemoveWsPrefix(s: string)
    requires s != []
    ensures RemoveWs(s) == (if IsWhitespace(s[0]) then [] else [s[0]]) + RemoveWs(s[1..])
  {
    RemoveWsAppend([s[0]], s[1..]);
    assert s == [s[0]] + s[1..];
  }

  /** In a padded text, every word is a lone parenthesis or has none. */
  lemma {:induction false} SplitFromParens(s: string, cur: string)
    requires PaddedFor(cur + s, '(') && PaddedFor(cur + s, ')')
    requires NoWs(cur)
    requires cur == [] || cur == "(" || cur == ")" || ParenFree(cur)
    ensures forall k :: 0 <= k < |SplitFrom(s, cur)| ==>
      SplitFrom(s, cur)[k] in {"(", ")"} || ParenFree(SplitFrom(s, cur)[k])
    decreases |s|
  {
    if s != [] {
      var p := cur + s;
      if IsWhitespace(s[0]) {
        assert s[1..] == p[|cur| + 1..];
        forall c | c in {'(', ')'} ensures PaddedFor(s[1..], c) {
          forall k | 0 <= k < |s[1..]| - 1 ensures (s[1..][k] == c || s[1..][k + 1] == c) ==> (s[1..][k] == ' ' || s[1..][k + 1] == ' ') {
            assert s[1..][k] == p[|cur| + 1 + k] && s[1..][k + 1] == p[|cur| + 2 + k];
          }
        }
        SplitFromParens(s[1..], []);
      } else {
        var cur' := cur + [s[0]];
        assert cur' + s[1..] == p;
        if cur != [] {
          assert p[|cur| - 1] == cur[|cur| - 1] && p[|cur|] == s[0];
          assert !IsWhitespace(cur[|cur| - 1]);
        }
        assert cur' == [] || cur' == "(" || cur' == ")" || ParenFree(cur');
        SplitFromParens(s[1..], cur');
      }
    }
  }

  // ---------------------------------------------------------------- read_from_tokens

  /** The reader's panics. */
  datatype ReadError = UnexpectedEof | UnexpectedClose | UnclosedList

  /** The panic messages; an unclosed list panics on `tokens[0]` of an
      empty vector. */
  function ReadErrorMessage(e: ReadError): string
  {
    match e
    case UnexpectedEof => "Unexpected EOF while reading"
    case UnexpectedClose => "Unexpected )"
    case UnclosedList => "index out of bounds: the len is 0 but the index is 0"
  }

  /** `atom`: an integer if the text is one, otherwise an identifier. */
  function Atom(s: string): (v: Value)
    ensures v.Int? || v == Ident(s)
    ensures v.Int? <==> ParseI64(s).Some?
  {
    match ParseI64(s)
    case Some(i) => Int(i)
    case None => Ident(s)
  }

  /** Integer text reads back as the integer. */
  lemma AtomOfIntText(i: I64)
    ensures Atom(IntToString(i)) == Int(i)
  {
    ParseI64OfIntToString(i);
  }

  /** A result and the tokens left after it. */
  datatype Read<T> = Read(result: Result<T, ReadError>, rest: seq<string>)

  /** `read_from_tokens`: one expression from the front of `ts`. */
  function ReadExprF(ts: seq<string>): (r: Read<Value>)
    ensures r.result.Ok? ==> |r.rest| < |ts|
    decreases |ts|, 0
  {
    if ts == [] then Read(Err(UnexpectedEof), ts)
    else if ts[0] == "(" then ReadListF(ts[1..], [])
    else if ts[0] == ")" then Read(Err(UnexpectedClose), ts[1..])
    else Read(Ok(Atom(ts[0])), ts[1..])
  }

  /** The `while tokens[0] != ")"` loop: expressions appended to `acc` up
      to the closing token, which is consumed. */
  function ReadListF(ts: seq<string>, acc: seq<Value>): (r: Read<Value>)
    ensures r.result.Ok? ==> |r.rest| < |ts|
    decreases |ts|, 1
  {
    if ts == [] then Read(Err(UnclosedList), ts)
    else if ts[0] == ")" then Read(Ok(List(acc)), ts[1..])
    else
      var e := ReadExprF(ts);
      if e.result.Err? then Read(Err(e.result.error), e.rest)
      else ReadListF(e.rest, acc + [e.result.value])
  }

  /** `parse`: the first expression of the input; later tokens are
      ignored. */
  function ParseF(input: string): Result<Value, ReadError>
  {
    ReadExprF(Tokenize(input)).result
  }

  /** Tokens after a complete expression do not change how it reads: they
      are left over untouched. */
  lemma {:induction false} ReadIgnoresRest(ts: seq<string>, more: seq<string>)
    requires ReadExprF(ts).result.Ok?
    ensures ReadExprF(ts + more) == Read(ReadExprF(ts).result, ReadExprF(ts).rest + more)
    decreases |ts|, 0
  {
    assert (ts + more)[0] == ts[0];
    if ts[0] == "(" {
      assert (ts + more)[1..] == ts[1..] + more;
      ReadListIgnoresRest(ts[1..], [], more);
    } else {
      assert (ts + more)[1..] == ts[1..] + more;
    }
  }

  lemma {:induction false} ReadListIgnoresRest(ts: seq<string>, acc: seq<Value>, more: seq<string>)
    requires ReadListF(ts, acc).result.Ok?
    ensures ReadListF(ts + more, acc) == Read(ReadListF(ts, acc).result, ReadListF(ts, acc).rest + more)
    decreases |ts|, 1
  {
    assert (ts + more)[0] == ts[0];
    if ts[0] == ")" {
      assert (ts + more)[1..] == ts[1..] + more;
    } else {
      ReadIgnoresRest(ts, more);
      var e := ReadExprF(ts);
      ReadListIgnoresRest(e.rest, acc + [e.result.value], more);
    }
  }

  /** Values the first reader can print and read back: integers, plain
      words that are not integers, and lists of those. */
  predicate Printable(v: Value)
    decreases v
  {
    match v
    case Int(_) => true
    case Ident(n) => n != [] && NoWs(n) && ParenFree(n) && ParseI64(n).None?
    case List(items) => forall k :: 0 <= k < |items| ==> Printable(items[k])
    case _ => false
  }

  /** The tokens of a printable value. */
  function TokensOf(v: Value): seq<string>
    requires Printable(v)
    decreases v, 1
  {
    match v
    case Int(i) => [IntToString(i)]
    case Ident(n) => [n]
    case List(items) => ["("] + ItemsTokens(items) + [")"]
  }

  function ItemsTokens(items: seq<Value>): seq<string>
    requires forall k :: 0 <= k < |items| ==> Printable(items[k])
    decreases items, 0
  {
    if items == [] then [] else TokensOf(items[0]) + ItemsTokens(items[1..])
  }

  /** Reading the tokens of a printable value gives the value back and
      leaves the following tokens. */
  lemma {:induction false} ReadTokensOf(v: Value, more: seq<string>)
    requires Printable(v)
    ensures ReadExprF(TokensOf(v) + more) == Read(Ok(v), more)
    decreases v, 1
  {
    match v
    case Int(i) =>
      AtomOfIntText(i);
      var t := IntToString(i);
      assert t != "(" && t != ")" by {
        if i < 0 { assert t[0] == '-'; } else { assert IsDigit(t[0]); }
      }
      assert ([t] + more)[1..] == more;
    case Ident(n) =>
      assert n[0] in n;
      assert n != "(" && n != ")";
      assert ([n] + more)[1..] == more;
    case List(items) =>
      var ts := ["("] + ItemsTokens(items) + [")"] + more;
      assert ts[1..] == ItemsTokens(items) + [")"] + more;
      ReadItemsTokens(items, [], more);
      assert [] + items == items;
  }

  lemma {:induction false} ReadItemsTokens(items: seq<Value>, acc: seq<Value>, more: seq<string>)
    requires forall k :: 0 <= k < |items| ==> Printable(items[k])
    ensures ReadListF(ItemsTokens(items) + [")"] + more, acc) == Read(Ok(List(acc + items)), more)
    decreases items, 0
  {
    if items == [] {
      assert ItemsTokens(items) + [")"] + more == [")"] + more;
      assert acc + items == acc;
    } else {
      var ts := ItemsTokens(items) + [")"] + more;
      var rest := ItemsTokens(items[1..]) + [")"] + more;
      assert ts == TokensOf(items[0]) + rest;
      ReadTokensOf(items[0], rest);
      assert TokensOf(items[0]) != [] && ts[0] == TokensOf(items[0])[0];
      assert TokensOf(items[0])[0] != ")" by {
        match items[0]
        case Int(i) => {
          var t := IntToString(i);
          if i < 0 { assert t[0] == '-'; } else { assert IsDigit(t[0]); }
        }
        case Ident(n) => assert n[0] in n;
        case List(_) =>
      }
      ReadItemsTokens(items[1..], acc + [items[0]], more);
      assert acc + [items[0]] + items[1..] == acc + items;
    }
  }

  /** `read_from_tokens` over the token vector it consumes with
      `remove(0)`. */
  class TokenQueue {
    var tokens: seq<string>

    constructor (ts: seq<string>)
      ensures tokens == ts
    {
      tokens := ts;
    }

    method ReadFromTokens() returns (r: Result<Value, ReadError>)
      modifies this
      ensures Read(r, tokens) == ReadExprF(old(tokens))
      decreases |tokens|, 0
    {
      if |tokens| == 0 {
        return Err(UnexpectedEof);
      }
      var token := tokens[0];
      tokens := tokens[1..];
      if token == "(" {
        var list: seq<Value> := [];
        ghost var start := tokens;
        while true
          invariant |tokens| <= |start|
          invariant ReadListF(start, []) == ReadListF(tokens, list)
          decreases |tokens|
        {
          if |tokens| == 0 {
            return Err(UnclosedList);
          }
          if tokens[0] == ")" {
            break;
          }
          var v := ReadFromTokens();
          if v.Err? {
            return v;
          }
          list := list + [v.value];
        }
        tokens := tokens[1..];
        return Ok(List(list));
      } else if token == ")" {
        return Err(UnexpectedClose);
      } else {
        return Ok(Atom(token));
      }
    }
  }

  /** `parse`. */
  method Parse(input: string) returns (r: Result<Value, ReadError>)
    ensures r == ParseF(input)
  {
    var q := new TokenQueue(Tokenize(input));
    r := q.ReadFromTokens();
  }
}
