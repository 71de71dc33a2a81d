/** Type predicates and conversions of src/stdlib/types.rs.

    Float conversion, parsing and display, and the display of maps and
    options, are code the model does not describe: they are passed in as an
    `Opaque` record of functions. */
module Types {
  import opened Prelude
  import opened Values

  /** The operations left opaque: `f as i64`, `i as f64`, `str::parse::<f64>`,
      `f64`'s `Display`, and the text of a map or an option. */
  datatype Opaque = Opaque(
    floatToInt: FloatBits -> I64,
    intToFloat: I64 -> FloatBits,
    parseFloat: string -> Option<FloatBits>,
    showFloat: FloatBits -> string,
    showOther: Value -> string)

  /** The panic of `s.parse().unwrap()` on text that is not a number. */
  const UNWRAP_ERR: string := "called `Result::unwrap()` on an `Err` value"

  // ------------------------------------------------------------ predicates

  /** The variant numbers (`Tag`) the `gen_is_type` instances test for. */
  const LIST_TAG: nat := 0
  const STRING_TAG: nat := 1
  const FLOAT_TAG: nat := 2
  const INT_TAG: nat := 3
  const BOOL_TAG: nat := 4
  const IDENT_TAG: nat := 5
  const FOREIGN_FN_TAG: nat := 6
  const LAMBDA_TAG: nat := 7

  /** `is_int`, `is_float`, ... (the `gen_is_type` macro): true exactly when
      every argument has the variant, so true for no arguments. */
  function IsType(values: seq<Value>, tag: nat): (r: Result<Value, Error>)
    ensures r == Ok(Bool(forall i :: 0 <= i < |values| ==> Tag(values[i]) == tag))
  {
    if values == [] then Ok(Bool(true))
    else if Tag(values[0]) != tag then Ok(Bool(false))
    else
      var r := IsType(values[1..], tag);
      assert forall i :: 1 <= i < |values| ==> values[i] == values[1..][i - 1];
      r
  }

  predicate Executable(v: Value)
  {
    v.Lambda? || v.ForeignFn?
  }

  /** `is_executable`: every argument is a lambda or a foreign function. */
  function IsExecutable(values: seq<Value>): (r: Result<Value, Error>)
    ensures r == Ok(Bool(forall i :: 0 <= i < |values| ==> Executable(values[i])))
  {
    if values == [] then Ok(Bool(true))
    else if !Executable(values[0]) then Ok(Bool(false))
    else
      var r := IsExecutable(values[1..]);
      assert forall i :: 1 <= i < |values| ==> values[i] == values[1..][i - 1];
      r
  }

  /** Executable values are exactly those that test true for `lambda?` or
      for `foreign-fn?`. */
  lemma ExecutableIsLambdaOrForeign(v: Value)
    ensures IsExecutable([v]) == Ok(Bool(IsType([v], LAMBDA_TAG).value.b || IsType([v], FOREIGN_FN_TAG).value.b))
  {
  }

  // ------------------------------------------------------------ conversions

  predicate IsScalar(v: Value)
  {
    v.Int? || v.Float? || v.Bool? || v.String?
  }

  /** `to_int`: exactly one argument; an integer is kept, a boolean is 1 or
      0, a string is parsed (a panic if it is not an `i64`), a float is cast;
      anything else cannot be converted. */
  function ToInt(values: seq<Value>, o: Opaque): (r: Result<Value, Error>)
    ensures |values| != 1 ==> r == Err(ArityError(|values|, "exactly 1"))
    ensures r.Ok? ==> r.value.Int?
    ensures |values| == 1 && values[0].Int? ==> r == Ok(values[0])
    ensures |values| == 1 && values[0].Bool? ==> r == Ok(Int(if values[0].b then 1 else 0))
    ensures |values| == 1 && values[0].String? ==>
      (r.Ok? <==> ParseI64(values[0].text).Some?) && (r.Ok? ==> r.value.i == ParseI64(values[0].text).value)
    ensures |values| == 1 && !IsScalar(values[0]) ==> r == Err(IllegalConversion(values[0], "Int"))
  {
    if |values| != 1 then Err(ArityError(|values|, "exactly 1"))
    else match values[0]
      case Int(i) => Ok(Int(i))
      case Float(f) => Ok(Int(o.floatToInt(f)))
      case Bool(b) => Ok(Int(if b then 1 else 0))
      case String(s) =>
        (match ParseI64(s)
         case Some(n) => Ok(Int(n))
         case None => Err(Panic(UNWRAP_ERR)))
      case other => Err(IllegalConversion(other, "Int"))
  }

  /** `to_float`: exactly one argument; an integer is cast, a float kept, a
      string parsed; anything else, booleans included, cannot be
      converted. */
  function ToFloat(values: seq<Value>, o: Opaque): (r: Result<Value, Error>)
    ensures |values| != 1 ==> r == Err(ArityError(|values|, "exactly 1"))
    ensures r.Ok? ==> r.value.Float?
    ensures |values| == 1 && values[0].Float? ==> r == Ok(values[0])
    ensures |values| == 1 && !(values[0].Int? || values[0].Float? || values[0].String?) ==>
      r == Err(IllegalConversion(values[0], "Float"))
  {
    if |values| != 1 then Err(ArityError(|values|, "exactly 1"))
    else match values[0]
      case Int(i) => Ok(Float(o.intToFloat(i)))
      case Float(f) => Ok(Float(f))
      case String(s) =>
        (match o.parseFloat(s)
         case Some(f) => Ok(Float(f))
         case None => Err(Panic(UNWRAP_ERR)))
      case other => Err(IllegalConversion(other, "Float"))
  }

  /** `to_bool`: exactly one argument; an integer or float is true unless
      zero (a NaN is true), a boolean is kept, only the strings "true" and
      "false" convert. */
  function ToBool(values: seq<Value>): (r: Result<Value, Error>)
    ensures |values| != 1 ==> r == Err(ArityError(|values|, "exactly 1"))
    ensures r.Ok? ==> r.value.Bool?
    ensures |values| == 1 && values[0].Int? ==> r == Ok(Bool(values[0].i != 0))
    ensures |values| == 1 && values[0].Float? ==> r == Ok(Bool(!IsZero(values[0].bits)))
    ensures |values| == 1 && values[0].Bool? ==> r == Ok(values[0])
    ensures |values| == 1 && values[0].String? ==>
      (r.Ok? <==> values[0].text in {"true", "false"}) && (r.Ok? ==> r.value.b == (values[0].text == "true"))
    ensures |values| == 1 && r.Err? ==> r.error == IllegalConversion(values[0], "Bool")
  {
    if |values| != 1 then Err(ArityError(|values|, "exactly 1"))
    else match values[0]
      case Int(i) => Ok(Bool(i != 0))
      case Float(f) => Ok(Bool(!IsZero(f)))
      case Bool(b) => Ok(Bool(b))
      case String(s) =>
        if s == "true" then Ok(Bool(true))
        else if s == "false" then Ok(Bool(false))
        else Err(IllegalConversion(String(s), "Bool"))
      case other => Err(IllegalConversion(other, "Bool"))
  }

  // ------------------------------------------------------------ to_string

  /** `to_string_helper` on everything but a list. */
  function Atom(v: Value, o: Opaque): string
    requires !v.List?
  {
    match v
    case Int(i) => IntToString(i)
    case Float(f) => o.showFloat(f)
    case String(s) => s
    case Bool(b) => if b then "true" else "false"
    case ForeignFn(ff) => "<#" + ff.name + ">"
    case Lambda(p) => "<@" + (if p.name.Some? then p.name.value else "anonymous") + ">"
    case Ident(name) => "'" + name
    case _ => o.showOther(v)
  }

  /** `String::pop`: drops the last character, if there is one. */
  function Pop(s: string): string
  {
    if s == [] then s else s[..|s| - 1]
  }

  /** `build_buf` as written: a list writes "(", each element followed by
      ", ", then pops two characters and writes ")"; anything else writes
      its text. */
  function BuildBufAsWritten(cur: Value, buf: string, o: Opaque): string
    decreases cur, 1
  {
    if cur.List? then Pop(Pop(ItemsAsWritten(cur, |cur.items|, buf + "(", o))) + ")"
    else buf + Atom(cur, o)
  }

  /** The loop of `format_singles` over the first `n` elements. */
  function ItemsAsWritten(l: Value, n: nat, buf: string, o: Opaque): string
    requires l.List? && n <= |l.items|
    decreases l, 0, n
  {
    if n == 0 then buf
    else BuildBufAsWritten(l.items[n - 1], ItemsAsWritten(l, n - 1, buf, o), o) + ", "
  }

  /** `to_string_helper` as written. */
  function ToStringHelperAsWritten(v: Value, o: Opaque): (r: string)
    ensures NoEmptyList(v) ==> r == Show(v, o)
  {
    if v.List? then
      (if NoEmptyList(v) then BuildBufShows(v, "", o); assert "" + Show(v, o) == Show(v, o); BuildBufAsWritten(v, "", o)
       else BuildBufAsWritten(v, "", o))
    else Atom(v, o)
  }

  /** The text the printer evidently means: a list is its elements' texts
      joined by ", " inside parentheses, "()" when empty. */
  function Show(v: Value, o: Opaque): (r: string)
    ensures v.List? ==> |r| >= 2 && r[0] == '(' && r[|r| - 1] == ')'
    ensures v == List([]) ==> r == "()"
    decreases v, 1
  {
    if v.List? then "(" + ShowItems(v, |v.items|, o) + ")" else Atom(v, o)
  }

  /** The texts of the first `n` elements, joined by ", ". */
  function ShowItems(l: Value, n: nat, o: Opaque): string
    requires l.List? && n <= |l.items|
    decreases l, 0, n
  {
    if n == 0 then ""
    else if n == 1 then Show(l.items[0], o)
    else ShowItems(l, n - 1, o) + ", " + Show(l.items[n - 1], o)
  }

  /** No empty list anywhere inside. */
  predicate NoEmptyList(v: Value)
  {
    match v
    case List(xs) => |xs| > 0 && forall i :: 0 <= i < |xs| ==> NoEmptyList(xs[i])
    case _ => true
  }

  lemma PopPop(t: string)
    ensures Pop(Pop(t + ", ")) == t
  {
    assert (t + ", ")[..|t| + 1] == t + [','];
    assert (t + [','])[..|t|] == t;
  }

  /** Without empty lists the written printer produces the intended text. */
  lemma {:induction false} BuildBufShows(v: Value, buf: string, o: Opaque)
    requires NoEmptyList(v)
    ensures BuildBufAsWritten(v, buf, o) == buf + Show(v, o)
    decreases v, 1
  {
    if v.List? {
      ItemsShow(v, |v.items|, buf + "(", o);
      PopPop(buf + "(" + ShowItems(v, |v.items|, o));
    }
  }

  lemma {:induction false} ItemsShow(l: Value, n: nat, buf: string, o: Opaque)
    requires l.List? && 1 <= n <= |l.items|
    requires forall i :: 0 <= i < n ==> NoEmptyList(l.items[i])
    ensures ItemsAsWritten(l, n, buf, o) == buf + ShowItems(l, n, o) + ", "
    decreases l, 0, n
  {
    BuildBufShows(l.items[n - 1], ItemsAsWritten(l, n - 1, buf, o), o);
    if n > 1 {
      ItemsShow(l, n - 1, buf, o);
    }
  }

  /** An empty list eats the character written before it: its "(" and
      that character are popped. */
  lemma EmptyListPopsBuffer(buf: string, o: Opaque)
    ensures BuildBufAsWritten(List([]), buf, o) == Pop(buf) + ")"
  {
    assert Pop(buf + "(") == buf;
  }

  /** An empty list prints as ")", where ")" is meant. */
  lemma EmptyListPrintsClose(o: Opaque)
    ensures ToStringHelperAsWritten(List([]), o) == ")"
    ensures Show(List([]), o) == "()"
  {
    EmptyListPopsBuffer("", o);
  }

  /** A list of an atom and an empty list, such as (1 ()), prints as
      "(1,))" where "(1, ())" is meant (`NestedEmptyListShown`). */
  lemma NestedEmptyListPrintsClose(x: Value, o: Opaque)
    requires !x.List?
    ensures ToStringHelperAsWritten(List([x, List([])]), o) == "(" + Atom(x, o) + ",))"
  {
    var l := List([x, List([])]);
    var t := Atom(x, o);
    assert l.items[0] == x && l.items[1] == List([]);
    assert ItemsAsWritten(l, 0, "(", o) == "(";
    var one := ItemsAsWritten(l, 1, "(", o);
    assert one == BuildBufAsWritten(x, "(", o) + ", ";
    assert BuildBufAsWritten(x, "(", o) == "(" + t;
    var front := "(" + t + ",";
    assert ", " == "," + " ";
    assert one == front + " ";
    assert Pop(one) == front by {
      assert (front + " ")[..|front|] == front;
    }
    EmptyListPopsBuffer(one, o);
    var two := ItemsAsWritten(l, 2, "(", o);
    assert two == front + ")" + ", ";
    PopPop(front + ")");
    assert "" + "(" == "(";
    assert ToStringHelperAsWritten(l, o) == Pop(Pop(two)) + ")";
  }

  lemma NestedEmptyListShown(x: Value, o: Opaque)
    requires !x.List?
    ensures Show(List([x, List([])]), o) == "(" + Atom(x, o) + ", ())"
  {
    var l := List([x, List([])]);
    var t := Atom(x, o);
    assert l.items[0] == x && l.items[1] == List([]);
    assert Show(List([]), o) == "()" by {
      assert ShowItems(List([]), 0, o) == "";
    }
    assert ShowItems(l, 1, o) == t;
    assert ShowItems(l, 2, o) == t + ", " + "()";
  }

  /** Where no empty list occurs, `to_string_helper` as written prints the
      intended text. */
  lemma AsWrittenShowsWithoutEmptyLists(v: Value, o: Opaque)
    requires NoEmptyList(v)
    ensures ToStringHelperAsWritten(v, o) == Show(v, o)
  {
    if v.List? {
      BuildBufShows(v, "", o);
    }
  }

  /** `to_string`: exactly one argument, whose text is returned as a
      string. */
  function ToStr(values: seq<Value>, o: Opaque): (r: Result<Value, Error>)
    ensures |values| != 1 ==> r == Err(ArityError(|values|, "exactly 1"))
    ensures |values| == 1 ==> r == Ok(String(Show(values[0], o)))
  {
    if |values| != 1 then Err(ArityError(|values|, "exactly 1"))
    else Ok(String(Show(values[0], o)))
  }

  /** The scalar texts: an integer's decimal digits, "true"/"false", a
      string itself, "'" and the name for an identifier, "<#name>" for a
      foreign function, "<@name>" or "<@anonymous>" for a lambda. */
  lemma ScalarTexts(i: I64, b: bool, s: string, ff: ForeignFunction, p: Procedure, o: Opaque)
    ensures ToStr([Int(i)], o) == Ok(String(IntToString(i)))
    ensures ToStr([Bool(b)], o) == Ok(String(if b then "true" else "false"))
    ensures ToStr([String(s)], o) == Ok(String(s))
    ensures ToStr([Ident(s)], o) == Ok(String("'" + s))
    ensures ToStr([ForeignFn(ff)], o) == Ok(String("<#" + ff.name + ">"))
    ensures p.name.None? ==> ToStr([Lambda(p)], o) == Ok(String("<@anonymous>"))
  {
    assert "<@" + "anonymous" + ">" == "<@anonymous>";
  }

  /** Printing an integer or a boolean and converting the text back gives
      the value again. */
  lemma ToStringRoundTrips(i: I64, b: bool, o: Opaque)
    ensures ToInt([ToStr([Int(i)], o).value], o) == Ok(Int(i))
    ensures ToBool([ToStr([Bool(b)], o).value]) == Ok(Bool(b))
  {
    ParseI64OfIntToString(i);
  }

  /** A printer writing into a growing buffer, as `build_buf` and
      `format_singles` do through `&mut String`. */
  class Printer {
    var buf: string

    constructor ()
      ensures buf == ""
    {
      buf := "";
    }

    /** `build_buf` as written. */
    method BuildBuf(cur: Value, o: Opaque)
      modifies this
      ensures buf == BuildBufAsWritten(cur, old(buf), o)
      decreases cur
    {
      if cur.List? {
        buf := buf + "(";
        ghost var start := buf;
        var i := 0;
        while i < |cur.items|
          invariant i <= |cur.items|
          invariant buf == ItemsAsWritten(cur, i, start, o)
        {
          BuildBuf(cur.items[i], o);
          buf := buf + ", ";
          i := i + 1;
        }
        buf := Pop(buf);
        buf := Pop(buf);
        buf := buf + ")";
      } else {
        buf := buf + Atom(cur, o);
      }
    }
  }

  /** `to_string_helper` as written, printing a list through a fresh
      buffer. */
  method ToStringAsWritten(v: Value, o: Opaque) returns (s: string)
    ensures s == ToStringHelperAsWritten(v, o)
  {
    if v.List? {
      var p := new Printer();
      p.BuildBuf(v, o);
      s := p.buf;
    } else {
      s := Atom(v, o);
    }
  }
}
