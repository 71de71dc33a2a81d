/** Integer folds and string concatenation of src/stdlib/arithmetic.rs (the
    `gen_fold` macro and `concat`), and their earlier panicking versions in
    src/stdlib.rs.

    The built-ins receive evaluated arguments. Arithmetic on `i64` wraps
    around, as in a release build; a division by zero, or `i64::MIN / -1`,
    panics in every build. */
module Arithmetic {
  import opened Prelude
  import opened Values

  /** The position of the first argument that is not an `Int`, if any. */
  function FirstNonInt(args: seq<Value>): (r: Option<nat>)
    ensures r.Some? ==> r.value < |args| && !args[r.value].Int?
    ensures r.Some? ==> forall j :: 0 <= j < r.value ==> args[j].Int?
    ensures r.None? <==> forall j :: 0 <= j < |args| ==> args[j].Int?
  {
    if args == [] then None
    else if !args[0].Int? then Some(0)
    else match FirstNonInt(args[1..])
      case None => None
      case Some(k) => Some(k + 1)
  }

  predicate AllInts(args: seq<Value>)
  {
    forall j :: 0 <= j < |args| ==> args[j].Int?
  }

  /** The exact sum and product of the payloads. */
  function Sum(args: seq<Value>): int
    requires AllInts(args)
  {
    if args == [] then 0 else Sum(args[..|args| - 1]) + args[|args| - 1].i
  }

  function Product(args: seq<Value>): int
    requires AllInts(args)
  {
    if args == [] then 1 else Product(args[..|args| - 1]) * args[|args| - 1].i
  }

  /** The error `gen_fold` reports for a value of the wrong variant; the
      macro names the variant by its path. */
  function WrongType(v: Value, variant: string): Error
  {
    UnexpectedType(v, variant)
  }

  /** `add_ints`: the wrapped sum, 0 for no arguments, or the first
      non-integer as an error. */
  function AddIntsResult(args: seq<Value>): (r: Result<Value, Error>)
    ensures r.Ok? <==> AllInts(args)
    ensures r.Err? ==> NamesFirstNonInt(args, r.error)
    ensures r.Ok? ==> r.value == Int(Wrap64(Sum(args)))
  {
    match FirstNonInt(args)
    case Some(k) => Err(WrongType(args[k], "Value::Int"))
    case None => Ok(Int(Wrap64(Sum(args))))
  }

  /** `mul_ints`: the wrapped product, 1 for no arguments. */
  function MulIntsResult(args: seq<Value>): (r: Result<Value, Error>)
    ensures r.Ok? <==> AllInts(args)
    ensures r.Err? ==> NamesFirstNonInt(args, r.error)
    ensures r.Ok? ==> r.value == Int(Wrap64(Product(args)))
  {
    match FirstNonInt(args)
    case Some(k) => Err(WrongType(args[k], "Value::Int"))
    case None => Ok(Int(Wrap64(Product(args))))
  }

  /** `e` is the type error for the first argument that is not an `Int`. */
  predicate NamesFirstNonInt(args: seq<Value>, e: Error)
  {
    exists k :: (0 <= k < |args| && !args[k].Int? && (forall j :: 0 <= j < k ==> args[j].Int?)
      && e == UnexpectedType(args[k], "Value::Int"))
  }

  /** Extending a prefix of integers by one more integer. */
  lemma PrefixStep(args: seq<Value>, i: nat)
    requires i < |args| && AllInts(args[..i]) && args[i].Int?
    ensures AllInts(args[..i + 1])
    ensures Sum(args[..i + 1]) == Sum(args[..i]) + args[i].i
    ensures Product(args[..i + 1]) == Product(args[..i]) * args[i].i
  {
    assert args[..i + 1][..i] == args[..i];
  }

  /** `add_ints`. */
  method AddInts(args: seq<Value>) returns (r: Result<Value, Error>)
    ensures r == AddIntsResult(args)
  {
    var cur: I64 := 0;
    var i := 0;
    while i < |args|
      invariant i <= |args| && AllInts(args[..i])
      invariant cur == Wrap64(Sum(args[..i]))
    {
      if !args[i].Int? {
        return Err(WrongType(args[i], "Value::Int"));
      }
      PrefixStep(args, i);
      WrapAdd(Sum(args[..i]), args[i].i);
      cur := Wrap64(cur + args[i].i);
      i := i + 1;
    }
    assert args[..i] == args;
    return Ok(Int(cur));
  }

  /** `mul_ints`. */
  method MulInts(args: seq<Value>) returns (r: Result<Value, Error>)
    ensures r == MulIntsResult(args)
  {
    var cur: I64 := 1;
    var i := 0;
    while i < |args|
      invariant i <= |args| && AllInts(args[..i])
      invariant cur == Wrap64(Product(args[..i]))
    {
      if !args[i].Int? {
        return Err(WrongType(args[i], "Value::Int"));
      }
      PrefixStep(args, i);
      WrapMul(Product(args[..i]), args[i].i);
      assert Wrap64(cur * args[i].i) == Wrap64(Product(args[..i]) * args[i].i) by {
        assert cur * args[i].i == Wrap64(Product(args[..i])) * args[i].i;
      }
      cur := Wrap64(cur * args[i].i);
      i := i + 1;
    }
    assert args[..i] == args;
    return Ok(Int(cur));
  }

  /** Sums and products that fit in `i64` are exact; no arguments give the
      units 0 and 1. */
  lemma AddMulExact(args: seq<Value>)
    ensures AddIntsResult([]) == Ok(Int(0)) && MulIntsResult([]) == Ok(Int(1))
    ensures AllInts(args) && -TWO_63 <= Sum(args) < TWO_63 ==> AddIntsResult(args) == Ok(Int(Sum(args)))
    ensures AllInts(args) && -TWO_63 <= Product(args) < TWO_63 ==> MulIntsResult(args) == Ok(Int(Product(args)))
  {
  }

  /** Appending arguments after a non-integer does not move the first
      non-integer. */
  lemma {:induction false} FirstNonIntAppend(args: seq<Value>, rest: seq<Value>)
    requires FirstNonInt(args).Some?
    ensures FirstNonInt(args + rest) == FirstNonInt(args)
  {
    if args[0].Int? {
      assert (args + rest)[1..] == args[1..] + rest;
      FirstNonIntAppend(args[1..], rest);
    }
  }

  /** The first non-integer stops both folds, whatever follows it, and is
      the value the error carries. */
  lemma FoldStopsAtFirstNonInt(args: seq<Value>, rest: seq<Value>)
    requires FirstNonInt(args).Some?
    ensures AddIntsResult(args + rest) == AddIntsResult(args)
    ensures MulIntsResult(args + rest) == MulIntsResult(args)
    ensures AddIntsResult(args).Err? && AddIntsResult(args).error.value == args[FirstNonInt(args).value]
  {
    FirstNonIntAppend(args, rest);
    var k := FirstNonInt(args).value;
    assert (args + rest)[k] == args[k];
  }

  // ------------------------------------------------------------ subtraction

  /** The closure `sub_ints` folds with, as written: the first argument is
      stored negated with the flag `first` set, and every later argument
      negates the accumulator while the flag is set (it is never cleared)
      before subtracting. */
  function SubOpAsWritten(acc: Option<(bool, I64)>, v: I64): Option<(bool, I64)>
  {
    match acc
    case None => Some((true, Wrap64(0 - v)))
    case Some((first, a)) => Some((first, Wrap64((if first then Wrap64(0 - a) else a) - v)))
  }

  /** The accumulator after folding the closure over the arguments. */
  function SubState(args: seq<Value>): Option<(bool, I64)>
    requires AllInts(args)
  {
    if args == [] then None
    else SubOpAsWritten(SubState(args[..|args| - 1]), args[|args| - 1].i)
  }

  /** The flag `first` is never cleared: after the first argument every
      step negates the running result before subtracting. */
  lemma {:induction false} SubFlagNeverCleared(args: seq<Value>)
    requires AllInts(args) && |args| >= 1
    ensures SubState(args).Some? && SubState(args).value.0
    ensures |args| >= 2 ==>
      SubState(args).value.1 == Wrap64(Wrap64(0 - SubState(args[..|args| - 1]).value.1) - args[|args| - 1].i)
  {
    var n := |args| - 1;
    assert AllInts(args[..n]);
    if n > 0 {
      SubFlagNeverCleared(args[..n]);
    }
  }

  /** `sub_ints` of src/stdlib/arithmetic.rs as written. */
  function SubIntsAsWrittenResult(args: seq<Value>): Result<Value, Error>
  {
    match FirstNonInt(args)
    case Some(k) => Err(WrongType(args[k], "Value::Int"))
    case None =>
      match SubState(args)
      case None => Err(UnexpectedArity(0, "at least 1"))
      case Some((_, r)) => Ok(Int(r))
  }

  /** `sub_ints`: the loop over its `(first, acc)` state, as written. */
  method SubIntsAsWritten(args: seq<Value>) returns (r: Result<Value, Error>)
    ensures r == SubIntsAsWrittenResult(args)
  {
    var acc: Option<(bool, I64)> := None;
    var i := 0;
    while i < |args|
      invariant i <= |args| && AllInts(args[..i])
      invariant acc == SubState(args[..i])
    {
      if !args[i].Int? {
        return Err(WrongType(args[i], "Value::Int"));
      }
      PrefixStep(args, i);
      assert args[..i + 1][..i] == args[..i];
      acc := SubOpAsWritten(acc, args[i].i);
      i := i + 1;
    }
    assert args[..i] == args;
    match acc {
      case None =>
        return Err(UnexpectedArity(0, "at least 1"));
      case Some(st) =>
        return Ok(Int(st.1));
    }
  }

  /** Subtraction as evidently intended: one argument is negated, more are
      subtracted from the first in turn. */
  function SubFold(args: seq<Value>): I64
    requires AllInts(args) && |args| >= 1
  {
    if |args| == 1 then Wrap64(0 - args[0].i)
    else if |args| == 2 then Wrap64(args[0].i - args[1].i)
    else Wrap64(SubFold(args[..|args| - 1]) - args[|args| - 1].i)
  }

  /** `sub_ints` with the intended fold; the arity error for no arguments
      and the type error are those of the source. */
  function SubIntsResult(args: seq<Value>): (r: Result<Value, Error>)
    ensures !AllInts(args) ==> r.Err? && NamesFirstNonInt(args, r.error)
    ensures args == [] ==> r == Err(UnexpectedArity(0, "at least 1"))
    ensures AllInts(args) && |args| == 1 ==> r == Ok(Int(Wrap64(0 - args[0].i)))
    ensures AllInts(args) && |args| >= 2 ==> r == Ok(Int(Wrap64(args[0].i - (Sum(args) - args[0].i))))
  {
    match FirstNonInt(args)
    case Some(k) => Err(WrongType(args[k], "Value::Int"))
    case None =>
      if args == [] then Err(UnexpectedArity(0, "at least 1"))
      else if |args| == 1 then Ok(Int(SubFold(args)))
      else
        SubFoldSubtractsRest(args);
        Ok(Int(SubFold(args)))
  }

  /** The intended fold subtracts every later argument from the first. */
  lemma {:induction false} SubFoldSubtractsRest(args: seq<Value>)
    requires AllInts(args) && |args| >= 2
    ensures SubFold(args) == Wrap64(args[0].i - (Sum(args) - args[0].i))
  {
    var n := |args|;
    if n > 2 {
      var pre := args[..n - 1];
      SubFoldSubtractsRest(pre);
      WrapAdd(pre[0].i - (Sum(pre) - pre[0].i), 0 - args[n - 1].i);
      assert pre[0] == args[0];
      assert Sum(args) == Sum(pre) + args[n - 1].i;
    } else {
      assert args[..1][..0] == [];
      assert Sum(args) == Sum(args[..1]) + args[1].i;
    }
  }

  /** Written and intended subtraction agree on one and two arguments. */
  lemma SubIntsAgreeUpToTwo(a: I64, b: I64)
    ensures SubIntsAsWrittenResult([Int(a)]) == SubIntsResult([Int(a)])
    ensures SubIntsAsWrittenResult([Int(a), Int(b)]) == SubIntsResult([Int(a), Int(b)])
  {
    var one, two := [Int(a)], [Int(a), Int(b)];
    assert one[..0] == [] && two[..1] == one;
    assert FirstNonInt(one).None? && FirstNonInt(two).None?;
    var neg: int := Wrap64(0 - a);
    assert SubState(one) == Some((true, neg));
    WrapNeg(0 - a);
    assert Wrap64(0 - neg) == a;
    assert SubState(two) == Some((true, Wrap64(a - b)));
  }

  /** They differ on three: (- 10 3 2) is -9 as written and 5 as
      intended. */
  lemma SubIntsDiffersOnThree()
    ensures SubIntsAsWrittenResult([Int(10), Int(3), Int(2)]) == Ok(Int(-9))
    ensures SubIntsResult([Int(10), Int(3), Int(2)]) == Ok(Int(5))
  {
    var three := [Int(10), Int(3), Int(2)];
    assert three[..2] == [Int(10), Int(3)];
    assert three[..2][..1] == [Int(10)];
    assert three[..2][..1][..0] == [];
    assert SubState([Int(10)]) == Some((true, -10));
    assert SubState([Int(10), Int(3)]) == Some((true, 7));
    assert SubFold([Int(10), Int(3)]) == 7;
  }

  // ------------------------------------------------------------ division

  /** A truncated quotient stays in range except for `i64::MIN / -1`. */
  lemma QuotientInRange(a: I64, b: I64)
    requires b != 0 && !(a == -TWO_63 && b == -1)
    ensures -TWO_63 <= TruncDiv(a, b) < TWO_63
  {
    var q := TruncDiv(a, b);
    var x, y := Abs(q), Abs(b);
    assert x * y <= Abs(a) <= TWO_63;
    if y == 1 {
      assert x <= TWO_63;
    } else {
      DoubleAtMost(x, y);
    }
  }

  lemma DoubleAtMost(x: nat, y: nat)
    requires y >= 2
    ensures x * 2 <= x * y
  {
    var m: nat := y - 2;
    assert x * y == x * 2 + x * m;
  }

  /** Rust's `i64` division: truncating, panicking on a zero divisor and on
      `i64::MIN / -1`. */
  function DivStep(a: I64, b: I64): (r: Result<I64, Error>)
    ensures r.Ok? <==> b != 0 && !(a == -TWO_63 && b == -1)
    ensures r.Ok? ==> r.value == TruncDiv(a, b)
  {
    if b == 0 then Err(Panic("attempt to divide by zero"))
    else if a == -TWO_63 && b == -1 then Err(Panic("attempt to divide with overflow"))
    else
      QuotientInRange(a, b);
      Ok(TruncDiv(a, b))
  }

  /** The closure `div_ints` folds with: keep the first value, divide by
      each later one. */
  function DivOp(acc: Option<I64>, v: I64): Result<Option<I64>, Error>
  {
    match acc
    case None => Ok(Some(v))
    case Some(a) =>
      match DivStep(a, v)
      case Err(e) => Err(e)
      case Ok(q) => Ok(Some(q))
  }

  /** The `gen_fold` loop of `div_ints`, left to right: the first
      non-integer or the first panic, whichever comes first, ends it. */
  function DivState(args: seq<Value>): Result<Option<I64>, Error>
  {
    if args == [] then Ok(None)
    else match DivState(args[..|args| - 1])
      case Err(e) => Err(e)
      case Ok(acc) =>
        var v := args[|args| - 1];
        if v.Int? then DivOp(acc, v.i) else Err(WrongType(v, "Value::Int"))
  }

  /** `div_ints`. */
  function DivIntsResult(args: seq<Value>): (r: Result<Value, Error>)
    ensures args == [] ==> r == Err(UnexpectedArity(0, "at least 1"))
    ensures AllInts(args) && |args| >= 1 ==> r == (match Quotients(args) case Err(e) => Err(e) case Ok(q) => Ok(Int(q)))
  {
    DivStateOfInts(args);
    match DivState(args)
    case Err(e) => Err(e)
    case Ok(None) => Err(UnexpectedArity(0, "at least 1"))
    case Ok(Some(q)) => Ok(Int(q))
  }

  /** `DivIntsOfInts`, for any arguments. */
  lemma DivStateOfInts(args: seq<Value>)
    ensures AllInts(args) && |args| >= 1 ==>
      DivState(args) == (match Quotients(args) case Err(e) => Err(e) case Ok(q) => Ok(Some(q)))
  {
    if AllInts(args) && |args| >= 1 {
      DivIntsOfInts(args);
    }
  }

  /** An error in a prefix is the error of the whole fold. */
  lemma {:induction false} DivErrorSticks(args: seq<Value>, i: nat)
    requires i <= |args| && DivState(args[..i]).Err?
    ensures DivState(args) == DivState(args[..i])
    decreases |args| - i
  {
    if i == |args| {
      assert args[..i] == args;
    } else {
      assert args[..i + 1][..i] == args[..i];
      DivErrorSticks(args, i + 1);
    }
  }

  /** `div_ints`: the first value is kept, each later one divides it. */
  method DivInts(args: seq<Value>) returns (r: Result<Value, Error>)
    ensures r == DivIntsResult(args)
  {
    var acc: Option<I64> := None;
    var i := 0;
    while i < |args|
      invariant i <= |args|
      invariant DivState(args[..i]) == Ok(acc)
    {
      assert args[..i + 1][..i] == args[..i];
      if !args[i].Int? {
        DivErrorSticks(args, i + 1);
        return Err(WrongType(args[i], "Value::Int"));
      }
      var next := DivOp(acc, args[i].i);
      if next.Err? {
        DivErrorSticks(args, i + 1);
        return Err(next.error);
      }
      acc := next.value;
      i := i + 1;
    }
    assert args[..i] == args;
    match acc {
      case None => return Err(UnexpectedArity(0, "at least 1"));
      case Some(a) => return Ok(Int(a));
    }
  }

  /** The first value divided by each later one in turn, for integer
      arguments: the reference the fold is compared with. */
  function Quotients(args: seq<Value>): Result<I64, Error>
    requires AllInts(args) && |args| >= 1
  {
    if |args| == 1 then Ok(args[0].i)
    else match Quotients(args[..|args| - 1])
      case Err(e) => Err(e)
      case Ok(q) => DivStep(q, args[|args| - 1].i)
  }

  /** On integers, `div_ints` is the chain of quotients. */
  lemma {:induction false} DivIntsOfInts(args: seq<Value>)
    requires AllInts(args) && |args| >= 1
    ensures DivState(args) == (match Quotients(args) case Err(e) => Err(e) case Ok(q) => Ok(Some(q)))
  {
    var n := |args| - 1;
    if n == 0 {
      assert args[..n] == [];
    } else {
      assert AllInts(args[..n]);
      DivIntsOfInts(args[..n]);
    }
  }

  /** One argument is returned as it is; two give the quotient truncated
      toward zero; a zero divisor panics; no arguments is an arity error;
      a panic comes before a type error further on. */
  lemma DivIntsFacts(a: I64, b: I64, v: Value)
    ensures DivIntsResult([Int(a)]) == Ok(Int(a))
    ensures b != 0 && !(a == -TWO_63 && b == -1) ==> DivIntsResult([Int(a), Int(b)]) == Ok(Int(TruncDiv(a, b)))
    ensures DivIntsResult([Int(a), Int(0), v]) == Err(Panic("attempt to divide by zero"))
    ensures DivIntsResult([]) == Err(UnexpectedArity(0, "at least 1"))
  {
    assert [Int(a)][..0] == [];
    assert DivState([Int(a)]) == Ok(Some(a));
    assert [Int(a), Int(b)][..1] == [Int(a)];
    var zero := [Int(a), Int(0), v];
    assert zero[..2] == [Int(a), Int(0)] && zero[..2][..1] == [Int(a)];
    assert DivState(zero[..2]) == Err(Panic("attempt to divide by zero"));
    DivErrorSticks(zero, 2);
  }

  // ------------------------------------------------------------ concat

  /** The position of the first argument that is not a `String`. */
  function FirstNonString(args: seq<Value>): (r: Option<nat>)
    ensures r.Some? ==> r.value < |args| && !args[r.value].String?
    ensures r.Some? ==> forall j :: 0 <= j < r.value ==> args[j].String?
    ensures r.None? <==> forall j :: 0 <= j < |args| ==> args[j].String?
  {
    if args == [] then None
    else if !args[0].String? then Some(0)
    else match FirstNonString(args[1..])
      case None => None
      case Some(k) => Some(k + 1)
  }

  /** The texts of string arguments, one after the other. */
  function Joined(args: seq<Value>): string
    requires forall j :: 0 <= j < |args| ==> args[j].String?
  {
    if args == [] then "" else Joined(args[..|args| - 1]) + args[|args| - 1].text
  }

  /** `concat`'s result. */
  function ConcatResult(args: seq<Value>): (r: Result<Value, Error>)
    ensures r.Ok? <==> forall j :: 0 <= j < |args| ==> args[j].String?
    ensures r.Err? ==> exists k :: (0 <= k < |args| && !args[k].String? && (forall j :: 0 <= j < k ==> args[j].String?)
      && r.error == UnexpectedType(args[k], "Value::String"))
    ensures r.Ok? ==> r.value == String(Joined(args))
  {
    match FirstNonString(args)
    case Some(k) => Err(WrongType(args[k], "Value::String"))
    case None => Ok(String(Joined(args)))
  }

  /** `concat`: pushes each string onto a buffer. */
  method Concat(args: seq<Value>) returns (r: Result<Value, Error>)
    ensures r == ConcatResult(args)
  {
    var buffer := "";
    var i := 0;
    while i < |args|
      invariant i <= |args| && forall j :: 0 <= j < i ==> args[j].String?
      invariant buffer == Joined(args[..i])
    {
      if !args[i].String? {
        return Err(WrongType(args[i], "Value::String"));
      }
      assert args[..i + 1][..i] == args[..i];
      buffer := buffer + args[i].text;
      i := i + 1;
    }
    assert args[..i] == args;
    return Ok(String(buffer));
  }

  /** The joined text has every argument's text at its place: its length
      is the sum of the lengths, and joining splits over concatenation. */
  lemma {:induction false} JoinedAppend(xs: seq<Value>, ys: seq<Value>)
    requires forall j :: 0 <= j < |xs| ==> xs[j].String?
    requires forall j :: 0 <= j < |ys| ==> ys[j].String?
    ensures Joined(xs + ys) == Joined(xs) + Joined(ys)
    decreases |ys|
  {
    if ys != [] {
      var n := |ys| - 1;
      var zs := xs + ys;
      assert zs[..|zs| - 1] == xs + ys[..n];
      assert zs[|zs| - 1] == ys[n];
      JoinedAppend(xs, ys[..n]);
    } else {
      assert xs + ys == xs;
    }
  }
}

/** The earlier built-ins of src/stdlib.rs: the same folds, returning a
    bare value and panicking where the later ones return an error. A panic
    is ruled out here by the precondition. */
module OldStdlib {
  import opened Prelude
  import opened Values
  import opened Arithmetic

  /** `add_ints` ("bad type for fold" on a non-integer). */
  method AddInts(args: seq<Value>) returns (r: Value)
    requires AllInts(args)
    ensures r == Int(Wrap64(Sum(args)))
  {
    var res := Arithmetic.AddInts(args);
    r := res.value;
  }

  /** `mul_ints`. */
  method MulInts(args: seq<Value>) returns (r: Value)
    requires AllInts(args)
    ensures r == Int(Wrap64(Product(args)))
  {
    var res := Arithmetic.MulInts(args);
    r := res.value;
  }

  /** `sub_ints` ("subtraction expects at least one value"), with the same
      never-cleared flag as the later version. */
  method SubInts(args: seq<Value>) returns (r: Value)
    requires AllInts(args) && |args| >= 1
    ensures r == Int(SubState(args).value.1)
  {
    var res := SubIntsAsWritten(args);
    SubFlagNeverCleared(args);
    r := res.value;
  }

  /** `div_ints`: the first value divided by each later one; a zero
      divisor or `i64::MIN / -1` would panic. */
  method DivInts(args: seq<Value>) returns (r: Value)
    requires AllInts(args) && |args| >= 1 && Quotients(args).Ok?
    ensures r == Int(Quotients(args).value)
  {
    var res := Arithmetic.DivInts(args);
    DivIntsOfInts(args);
    r := res.value;
  }

  /** `concat` ("concat can't concatenate non-strings"). */
  method Concat(args: seq<Value>) returns (r: Value)
    requires forall j :: 0 <= j < |args| ==> args[j].String?
    ensures r == String(Joined(args))
  {
    var res := Arithmetic.Concat(args);
    r := res.value;
  }
}
