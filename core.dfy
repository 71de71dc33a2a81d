/** The parts of src/stdlib/core.rs that do not evaluate: `equals`, the
    parameter list and procedure `lambda` builds, and `quote`. `define`,
    `set` and `cond` evaluate their arguments and are part of the
    evaluator (module `Evaluator`). */
module Core {
  import opened Prelude
  import opened Values

  /** Every value of `rest` equals `first`; `equals` compares them with
      `first != next`, one after the other. */
  function AllEqualTo(first: Value, rest: seq<Value>): (b: bool)
    ensures b <==> forall i :: 0 <= i < |rest| ==> ValueEq(rest[i], first)
  {
    if rest == [] then true
    else if !ValueEq(rest[0], first) then false
    else
      var b := AllEqualTo(first, rest[1..]);
      assert forall i :: 1 <= i < |rest| ==> rest[i] == rest[1..][i - 1];
      b
  }

  /** `equals`: at least two arguments; true exactly when every later
      argument equals the first. */
  function Equals(args: seq<Value>): (r: Result<Value, Error>)
    ensures |args| < 2 ==> r == Err(ArityError(|args|, "at least 2"))
    ensures |args| >= 2 ==> r == Ok(Bool(forall i :: 1 <= i < |args| ==> ValueEq(args[i], args[0])))
  {
    if |args| < 2 then Err(ArityError(|args|, "at least 2"))
    else
      var b := AllEqualTo(args[0], args[1..]);
      assert forall i :: 1 <= i < |args| ==> args[i] == args[1..][i - 1];
      Ok(Bool(b))
  }

  /** Comparing two values does not depend on their order, and a value
      equals itself unless it holds a NaN. */
  lemma EqualsOfTwo(a: Value, b: Value)
    ensures Equals([a, b]) == Equals([b, a])
    ensures Equals([a, a]) == Ok(Bool(!HasNaN(a)))
  {
    ValueEqSymmetric(a, b);
    ValueEqReflexive(a);
  }

  /** The names of a list of identifiers, or the first element that is not
      one. */
  function IdentNames(items: seq<Value>): (r: Result<seq<string>, Error>)
    ensures r.Ok? <==> forall i :: 0 <= i < |items| ==> items[i].Ident?
    ensures r.Ok? ==> |r.value| == |items| && forall i :: 0 <= i < |items| ==> r.value[i] == items[i].name
    ensures r.Err? ==> exists i :: (0 <= i < |items| && !items[i].Ident? && r.error == UnexpectedType(items[i], "Ident")
      && forall j :: 0 <= j < i ==> items[j].Ident?)
  {
    if items == [] then Ok([])
    else if !items[0].Ident? then Err(UnexpectedType(items[0], "Ident"))
    else
      var rest := IdentNames(items[1..]);
      assert forall i :: 1 <= i < |items| ==> items[i] == items[1..][i - 1];
      match rest
      case Err(e) =>
        assert exists i :: (0 <= i < |items| && !items[i].Ident? && e == UnexpectedType(items[i], "Ident")
          && forall j :: 0 <= j < i ==> items[j].Ident?) by {
          var k :| 0 <= k < |items[1..]| && !items[1..][k].Ident? && e == UnexpectedType(items[1..][k], "Ident")
            && forall j :: 0 <= j < k ==> items[1..][j].Ident?;
          assert forall j :: 0 <= j < k + 1 ==> items[j].Ident?;
        }
        Err(e)
      case Ok(names) => Ok([items[0].name] + names)
  }

  /** The parameter specification of `lambda`: a list of identifiers is a
      list of fixed parameters (`ParamList`); a single identifier takes
      every argument as a list (`SingleIdent`); anything else is not an
      argument list. */
  function LambdaParams(spec: Value): (r: Result<ParamBinding, Error>)
    ensures spec.List? ==> (r.Ok? <==> forall i :: 0 <= i < |spec.items| ==> spec.items[i].Ident?)
    ensures spec.List? && r.Ok? ==>
      && r.value.rest.None? && |r.value.params| == |spec.items|
      && forall i :: 0 <= i < |spec.items| ==> r.value.params[i] == spec.items[i].name
    ensures spec.Ident? ==> r == Ok(ParamBinding([], Some(spec.name)))
    ensures !spec.List? && !spec.Ident? ==> r == Err(UnexpectedArgsList(spec))
  {
    match spec
    case List(items) =>
      (match IdentNames(items)
       case Err(e) => Err(e)
       case Ok(names) => Ok(ParamBinding(names, None)))
    case Ident(name) => Ok(ParamBinding([], Some(name)))
    case other => Err(UnexpectedArgsList(other))
  }

  /** `lambda`: at least two arguments; an anonymous procedure whose
      parameters come from the first and whose bodies are all the others,
      capturing the environment `env`. `bodiesId` is the identity of the
      new body vector. */
  function MakeLambda(args: seq<Value>, env: nat, bodiesId: nat): (r: Result<Value, Error>)
    ensures |args| < 2 ==> r == Err(ArityError(|args|, "at least 2"))
    ensures |args| >= 2 ==> (r.Ok? <==> LambdaParams(args[0]).Ok?)
    ensures r.Ok? ==>
      && r.value.Lambda? && r.value.proc.name.None? && r.value.proc.env == env
      && r.value.proc.bodies == args[1..] && |r.value.proc.bodies| >= 1
      && r.value.proc.params == LambdaParams(args[0]).value && r.value.proc.bodiesId == bodiesId
  {
    if |args| < 2 then Err(ArityError(|args|, "at least 2"))
    else match LambdaParams(args[0])
      case Err(e) => Err(e)
      case Ok(pb) => Ok(Lambda(Procedure(None, args[1..], bodiesId, pb, env)))
  }

  /** `quote`: exactly one argument, returned unevaluated. */
  function Quote(args: seq<Value>): (r: Result<Value, Error>)
    ensures r.Ok? <==> |args| == 1
    ensures r.Ok? ==> r.value == args[0]
    ensures r.Err? ==> r.error == ArityError(|args|, "exactly 1")
  {
    if |args| != 1 then Err(ArityError(|args|, "exactly 1")) else Ok(args[0])
  }
}
