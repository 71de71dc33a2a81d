/** `some`, `none` and `unwrap` of src/stdlib/option.rs. */
module Options {
  import opened Prelude
  import opened Values

  /** `some`: exactly one argument, wrapped. */
  function SomeFn(args: seq<Value>): (r: Result<Value, Error>)
    ensures r.Ok? <==> |args| == 1
    ensures r.Ok? ==> r.value == Opt(Some(args[0]))
    ensures r.Err? ==> r.error == ArityError(|args|, "exactly 1")
  {
    if |args| != 1 then Err(ArityError(|args|, "exactly 1"))
    else Ok(Opt(Some(args[0])))
  }

  /** `none`: no arguments, the empty option. */
  function NoneFn(args: seq<Value>): (r: Result<Value, Error>)
    ensures r.Ok? <==> args == []
    ensures r.Ok? ==> r.value == Opt(None)
    ensures r.Err? ==> r.error == ArityError(|args|, "exactly 0")
  {
    if |args| != 0 then Err(ArityError(|args|, "exactly 0"))
    else Ok(Opt(None))
  }

  /** `unwrap`: exactly one argument, which must be a full option. */
  function Unwrap(args: seq<Value>): (r: Result<Value, Error>)
    ensures |args| != 1 ==> r == Err(ArityError(|args|, "exactly 1"))
    ensures |args| == 1 ==> (r.Ok? <==> args[0].Opt? && args[0].inner.Some?)
    ensures |args| == 1 && r.Ok? ==> r.value == args[0].inner.value
    ensures |args| == 1 && args[0] == Opt(None) ==> r == Err(UnwrapNone)
    ensures |args| == 1 && !args[0].Opt? ==> r == Err(UnexpectedType(args[0], "Option"))
  {
    if |args| != 1 then Err(ArityError(|args|, "exactly 1"))
    else match args[0]
      case Opt(Some(x)) => Ok(x)
      case Opt(None) => Err(UnwrapNone)
      case other => Err(UnexpectedType(other, "Option"))
  }

  /** Unwrapping what `some` made gives the value back; unwrapping what
      `none` made fails. */
  lemma UnwrapInvertsSome(x: Value)
    ensures Unwrap([SomeFn([x]).value]) == Ok(x)
    ensures Unwrap([NoneFn([]).value]) == Err(UnwrapNone)
  {
  }
}
