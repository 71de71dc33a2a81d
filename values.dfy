/** The interpreter's values (src/lib.rs), the errors every evaluator and
    built-in reports, and value equality.

    The source's snapshots differ in which variants `Value` has; this one
    type has all of them. `Value::Symbol` of the reader and `Ident` are the
    same variant here, `LispFunction` is split into `ForeignFn` and `Lambda`,
    and `Map` and `Option` are the variants of the later snapshots. Pointer
    identities become explicit numbers: a foreign function's `id`, a
    procedure's `bodiesId` and the index `env` of its captured environment. */
module Values {
  import opened Prelude
  import opened ParseErrors

  /** An `f64`, kept as its 64-bit IEEE 754 bit pattern. */
  type FloatBits = b: int | 0 <= b < TWO_64

  /** The special forms: the built-ins that receive their arguments
      unevaluated, together with the environment (`ast_fn`, `UnEvalFn`). */
  datatype SpecialForm =
    | QuoteForm | CondForm | DefineForm | SetForm | LambdaForm
    | AndForm | OrForm | XorForm | HashMapForm | BuildListForm | ForeachForm

  /** The free (argument-evaluating) built-ins of src/stdlib, the `add` and
      `add-all` writers a `build-list` call creates for its buffer number
      `buffer`, and `Host`: a native function registered by the embedding
      program, whose code is outside the model. */
  datatype Native =
    | AddInts | SubInts | MulInts | DivInts | Concat | Equals
    | IsVariant(tag: nat) | IsExecutable | ToInt | ToFloat | ToBool | ToStr
    | SomeFn | NoneFn | UnwrapFn
    | Add(buffer: nat) | AddAll(buffer: nat)
    | Host

  /** How a foreign function takes its arguments: a free function receives
      them evaluated; a special form receives them as written. */
  datatype Convention = Free(native: Native) | UnEval(form: SpecialForm)

  /** `ForeignFunction`: a name and the identity of the boxed Rust closure. */
  datatype ForeignFunction = ForeignFunction(name: string, id: nat, conv: Convention)

  /** `ParamBinding`: the fixed parameter names and an optional rest name. */
  datatype ParamBinding = ParamBinding(params: seq<string>, rest: Option<string>)

  /** `Procedure`: an optional name, the body forms (shared, with identity
      `bodiesId`), the parameters and the captured environment `env`. */
  datatype Procedure = Procedure(name: Option<string>, bodies: seq<Value>, bodiesId: nat, params: ParamBinding, env: nat)

  datatype Value =
    | List(items: seq<Value>)
    | String(text: string)
    | Float(bits: FloatBits)
    | Int(i: I64)
    | Bool(b: bool)
    | Ident(name: string)
    | ForeignFn(ff: ForeignFunction)
    | Lambda(proc: Procedure)
    | Map(entries: map<Value, Value>)
    | Opt(inner: Option<Value>)

  /** `AresError`, with every variant the core raises. `Panic` stands for a
      Rust panic and `OutOfFuel` for an evaluation cut short by the model's
      step bound. */
  datatype Error =
    | UnexpectedType(value: Value, expected: string)
    | UnexpectedArity(found: nat, expected: string)
    | UnexpectedArgsList(args: Value)
    | ExecuteEmptyList
    | NoLambdaBody
    | UndefinedName(name: string)
    | AlreadyDefined(name: string)
    | UnexecutableValue(value: Value)
    | IllegalConversion(value: Value, into: string)
    | InvalidState(message: string)
    | UnwrapNone
    | NoProgram
    | ParseFailure(error: ParseError)
    | Panic(message: string)
    | OutOfFuel

  /** `found` is a `u16`: counts are reported modulo 2^16. */
  function ArityError(found: nat, expected: string): (e: Error)
    ensures e.UnexpectedArity? && e.found < 0x1_0000 && e.found % 0x1_0000 == found % 0x1_0000
  {
    UnexpectedArity(found % 0x1_0000, expected)
  }

  // ---------------------------------------------------------------- floats

  predicate IsNaN(b: FloatBits)
  {
    (b / 0x10_0000_0000_0000) % 0x800 == 0x7FF && b % 0x10_0000_0000_0000 != 0
  }

  /** Both +0.0 and -0.0. */
  predicate IsZero(b: FloatBits)
  {
    b % TWO_63 == 0
  }

  /** `f64`'s `==`: NaN equals nothing, the two zeros are equal, and other
      values are equal when their bits are. */
  predicate FloatEq(a: FloatBits, b: FloatBits)
  {
    !IsNaN(a) && !IsNaN(b) && (a == b || (IsZero(a) && IsZero(b)))
  }

  lemma FloatEqFacts(a: FloatBits, b: FloatBits)
    ensures FloatEq(a, b) == FloatEq(b, a)
    ensures FloatEq(a, a) <==> !IsNaN(a)
    ensures FloatEq(0, 0x8000_0000_0000_0000)
    ensures !FloatEq(0x7FF8_0000_0000_0000, 0x7FF8_0000_0000_0000)
  {
  }

  // ---------------------------------------------------------------- equality

  /** `ForeignFunction`'s `PartialEq`: the same name and the same closure. */
  predicate ForeignEq(a: ForeignFunction, b: ForeignFunction)
  {
    a.name == b.name && a.id == b.id
  }

  /** `Procedure`'s `PartialEq`: the same body vector and the same captured
      environment, by identity. */
  predicate ProcEq(a: Procedure, b: Procedure)
  {
    a.bodiesId == b.bodiesId && a.env == b.env
  }

  /** `Value`'s `PartialEq`: lists element by element, strings and
      identifiers by content (the pointer comparison in the source only
      short-cuts equal contents), numbers and booleans by value, functions by
      identity, and values of different variants never. */
  predicate ValueEq(a: Value, b: Value)
    decreases a
  {
    match (a, b)
    case (List(xs), List(ys)) => |xs| == |ys| && forall i :: 0 <= i < |xs| ==> ValueEq(xs[i], ys[i])
    case (String(s), String(t)) => s == t
    case (Float(f), Float(g)) => FloatEq(f, g)
    case (Int(i), Int(j)) => i == j
    case (Bool(p), Bool(q)) => p == q
    case (Ident(s), Ident(t)) => s == t
    case (ForeignFn(f), ForeignFn(g)) => ForeignEq(f, g)
    case (Lambda(p), Lambda(q)) => ProcEq(p, q)
    case (Map(m), Map(n)) => m.Keys == n.Keys && forall k :: k in m ==> ValueEq(m[k], n[k])
    case (Opt(None), Opt(None)) => true
    case (Opt(Some(x)), Opt(Some(y))) => ValueEq(x, y)
    case _ => false
  }

  /** The variant a value belongs to. */
  function Tag(v: Value): nat
  {
    match v
    case List(_) => 0
    case String(_) => 1
    case Float(_) => 2
    case Int(_) => 3
    case Bool(_) => 4
    case Ident(_) => 5
    case ForeignFn(_) => 6
    case Lambda(_) => 7
    case Map(_) => 8
    case Opt(_) => 9
  }

  /** Values of different variants are never equal; strings, identifiers,
      integers and booleans are equal exactly when their payloads are. */
  lemma EqualityByVariant(a: Value, b: Value)
    ensures Tag(a) != Tag(b) ==> !ValueEq(a, b)
    ensures a.String? && b.String? ==> (ValueEq(a, b) <==> a.text == b.text)
    ensures a.Ident? && b.Ident? ==> (ValueEq(a, b) <==> a.name == b.name)
    ensures a.Int? && b.Int? ==> (ValueEq(a, b) <==> a.i == b.i)
    ensures a.Bool? && b.Bool? ==> (ValueEq(a, b) <==> a.b == b.b)
  {
  }

  /** Whether a NaN sits anywhere equality looks at: a float, a list
      element, a map value or the content of an option. (Map keys are matched
      as keys, not compared with `==`.) */
  predicate HasNaN(v: Value)
  {
    match v
    case List(xs) => exists i :: 0 <= i < |xs| && HasNaN(xs[i])
    case Float(f) => IsNaN(f)
    case Map(m) => exists k :: k in m && HasNaN(m[k])
    case Opt(Some(x)) => HasNaN(x)
    case _ => false
  }

  /** Equality is symmetric. */
  lemma {:induction false} ValueEqSymmetric(a: Value, b: Value)
    ensures ValueEq(a, b) == ValueEq(b, a)
    decreases a
  {
    match (a, b)
    case (List(xs), List(ys)) =>
      if |xs| == |ys| {
        forall i | 0 <= i < |xs| ensures ValueEq(xs[i], ys[i]) == ValueEq(ys[i], xs[i]) {
          ValueEqSymmetric(xs[i], ys[i]);
        }
      }
    case (Map(m), Map(n)) =>
      if m.Keys == n.Keys {
        forall k | k in m ensures ValueEq(m[k], n[k]) == ValueEq(n[k], m[k]) {
          ValueEqSymmetric(m[k], n[k]);
        }
      }
    case (Opt(Some(x)), Opt(Some(y))) => ValueEqSymmetric(x, y);
    case _ =>
  }

  /** A value equals itself exactly when it holds no NaN. */
  lemma {:induction false} ValueEqReflexive(v: Value)
    ensures ValueEq(v, v) <==> !HasNaN(v)
    decreases v
  {
    match v
    case List(xs) =>
      forall i | 0 <= i < |xs| ensures ValueEq(xs[i], xs[i]) <==> !HasNaN(xs[i]) {
        ValueEqReflexive(xs[i]);
      }
    case Map(m) =>
      forall k | k in m ensures ValueEq(m[k], m[k]) <==> !HasNaN(m[k]) {
        ValueEqReflexive(m[k]);
      }
    case Opt(Some(x)) =>
      ValueEqReflexive(x);
    case _ =>
  }

  /** Plain data: values built from lists, strings, integers, booleans and
      identifiers only. */
  predicate IsPlainData(v: Value)
  {
    match v
    case List(xs) => forall i :: 0 <= i < |xs| ==> IsPlainData(xs[i])
    case String(_) => true
    case Int(_) => true
    case Bool(_) => true
    case Ident(_) => true
    case _ => false
  }

  /** On plain data, `PartialEq` is exactly structural equality. */
  lemma {:induction false} ValueEqIsStructuralOnPlainData(a: Value, b: Value)
    requires IsPlainData(a) && IsPlainData(b)
    ensures ValueEq(a, b) <==> a == b
    decreases a
  {
    match (a, b)
    case (List(xs), List(ys)) =>
      if |xs| == |ys| {
        forall i | 0 <= i < |xs| ensures ValueEq(xs[i], ys[i]) <==> xs[i] == ys[i] {
          ValueEqIsStructuralOnPlainData(xs[i], ys[i]);
        }
        if ValueEq(a, b) {
          assert xs == ys;
        }
      }
    case _ =>
  }

  // ---------------------------------------------------------------- constructors

  /** `Value::new_string`. */
  function NewString(s: string): Value { String(s) }

  /** `Value::new_ident`. */
  function NewIdent(s: string): Value { Ident(s) }

  /** `Value::new_list`. */
  function NewList(items: seq<Value>): Value { List(items) }

  /** Strings and identifiers built from the same text are equal, whoever
      built them, and from different texts unequal; a string never equals an
      identifier. */
  lemma NewValuesEqualByContent(s: string, t: string)
    ensures ValueEq(NewString(s), NewString(t)) <==> s == t
    ensures ValueEq(NewIdent(s), NewIdent(t)) <==> s == t
    ensures !ValueEq(NewString(s), NewIdent(t))
    ensures NewList([]) == List([])
  {
  }

  /** `Clone for Value`: the same variant with the same payload. The payload
      of a list, string, identifier or function is shared, not copied. */
  function Clone(v: Value): Value { v }

  /** A clone equals the original unless a NaN is inside it. */
  lemma CloneEqualsOriginal(v: Value)
    requires !HasNaN(v)
    ensures ValueEq(Clone(v), v) && ValueEq(v, Clone(v))
  {
    ValueEqReflexive(v);
  }

  /** `From<i8/u8/i16/u16/i32/u32/i64>`: exact, since every such value fits
      in an `i64`. */
  function FromInt(x: I64): Value { Int(x) }

  /** `From<u64>`: the cast `as i64` reinterprets the bits. */
  function FromU64(x: nat): (v: Value)
    requires x < TWO_64
    ensures v.Int?
    ensures x < TWO_63 ==> v.i == x
    ensures x >= TWO_63 ==> v.i == x - TWO_64
  {
    Int(Wrap64(x))
  }

  /** `From<bool>`, `From<f64>` and `From<String>`/`From<&str>`. */
  function FromBool(b: bool): Value { Bool(b) }
  function FromF64(bits: FloatBits): Value { Float(bits) }
  function FromStr(s: string): Value { String(s) }

  /** `From<Vec<T>>`: a list of the converted elements, in order. */
  function FromVec<T>(xs: seq<T>, conv: T -> Value): (v: Value)
    ensures v.List? && |v.items| == |xs|
    ensures forall i :: 0 <= i < |xs| ==> v.items[i] == conv(xs[i])
  {
    List(seq(|xs|, i requires 0 <= i < |xs| => conv(xs[i])))
  }

  /** Converting the values themselves gives back the same list. */
  lemma FromVecOfValues(xs: seq<Value>)
    ensures FromVec(xs, (v: Value) => v) == List(xs)
  {
    assert FromVec(xs, (v: Value) => v).items == xs;
  }
}
