/** The transitions of the explicit-stack evaluator in
    src/eval/transformations.rs. The machine keeps a stack of `StepState`
    frames; each transition pops nothing and pushes the frames that carry
    the evaluation on. Arguments and bodies wait in vectors that are popped
    from the back, so they are stored in reverse.

    `apply_lambda` and `apply_function` are not part of this model: they
    are parameters, `apply_lambda` giving its result and the frames it
    pushes, `apply_function` the value of a foreign call. */
module Transformations {
  import opened Prelude
  import opened Values

  /** The frames of the machine's stack. */
  datatype StepState =
    | EvalThis(value: Value, head: bool)
    | Return
    | Complete(result: Value)
    | PreEvaluatedCallable(remaining: seq<Value>)
    | ArgCollectingLambda(procedure: Procedure, evaluated: seq<Value>, unevaluated: seq<Value>)
    | EvaluatingLambda(name: Option<string>, bodies: seq<Value>)
    | PopEnv

  /** `Unit` stands for Rust's `()`. */
  datatype Unit = Unit

  /** What `apply_lambda` does: its result and the frames it pushes. */
  type ApplyLambdaFn = (Procedure, seq<Value>) -> (Result<Unit, Error>, seq<StepState>)

  /** What `apply_function` returns. */
  type ApplyFunctionFn = (ForeignFunction, seq<Value>) -> Result<Value, Error>

  /** The back of a reversed vector is the front of the original, and what
      is left is the reverse of the rest. */
  lemma ReversePop(xs: seq<Value>)
    requires xs != []
    ensures Reverse(xs)[|xs| - 1] == xs[0]
    ensures Reverse(xs)[..|xs| - 1] == Reverse(xs[1..])
  {
  }

  // ---------------------------------------------------------------- what each transition pushes

  /** `from_pre_evaluated`: its result and the frames it pushes. */
  function PreEvaluated(unevaluated: seq<Value>, callable: Value, applyLambda: ApplyLambdaFn, applyFunction: ApplyFunctionFn)
    : (Result<Unit, Error>, seq<StepState>)
  {
    match callable
    case Lambda(p) =>
      if unevaluated == [] then applyLambda(p, [])
      else
        var rev := Reverse(unevaluated);
        (Ok(Unit), [ArgCollectingLambda(p, [], rev[..|rev| - 1]), EvalThis(rev[|rev| - 1], false)])
    case ForeignFn(ff) =>
      (match applyFunction(ff, unevaluated)
       case Err(e) => (Err(e), [])
       case Ok(v) => (Ok(Unit), [Complete(v)]))
    case _ => (Err(UnexecutableValue(callable)), [])
  }

  /** `from_arg_collecting_lambda`: its result and the frames it pushes. */
  function ArgCollecting(p: Procedure, unevaluated: seq<Value>, evaluated: seq<Value>, completed: Value, applyLambda: ApplyLambdaFn)
    : (Result<Unit, Error>, seq<StepState>)
  {
    var done := evaluated + [completed];
    if unevaluated == [] then applyLambda(p, done)
    else
      var n := |unevaluated| - 1;
      (Ok(Unit), [ArgCollectingLambda(p, done, unevaluated[..n]), EvalThis(unevaluated[n], false)])
  }

  /** `from_evaluating_lambda`: the frames it pushes (it never fails). */
  function EvaluatingLambdaStep(bodies: seq<Value>, name: Option<string>, past: Value): seq<StepState>
  {
    if bodies == [] then [Complete(past)]
    else
      var n := |bodies| - 1;
      [EvaluatingLambda(name, bodies[..n]), EvalThis(bodies[n], false)]
  }

  // ---------------------------------------------------------------- the single steps

  /** A callable that is a foreign function is applied at once and leaves
      exactly its result; one that is not callable fails and pushes
      nothing; a procedure with arguments starts collecting them with the
      first argument on top, and one without is applied at once to none. */
  lemma PreEvaluatedCases(unevaluated: seq<Value>, callable: Value, applyLambda: ApplyLambdaFn, applyFunction: ApplyFunctionFn)
    ensures var (r, pushed) := PreEvaluated(unevaluated, callable, applyLambda, applyFunction);
      && (callable.ForeignFn? && applyFunction(callable.ff, unevaluated).Ok? ==>
            r == Ok(Unit) && pushed == [Complete(applyFunction(callable.ff, unevaluated).value)])
      && (callable.ForeignFn? && applyFunction(callable.ff, unevaluated).Err? ==>
            r == Err(applyFunction(callable.ff, unevaluated).error) && pushed == [])
      && (!callable.Lambda? && !callable.ForeignFn? ==> r == Err(UnexecutableValue(callable)) && pushed == [])
      && (callable.Lambda? && unevaluated != [] ==>
            r == Ok(Unit)
            && pushed == [ArgCollectingLambda(callable.proc, [], Reverse(unevaluated[1..])), EvalThis(unevaluated[0], false)])
      && (callable.Lambda? && unevaluated == [] ==> (r, pushed) == applyLambda(callable.proc, []))
  {
    if callable.Lambda? && unevaluated != [] {
      ReversePop(unevaluated);
    }
  }

  // ---------------------------------------------------------------- whole runs

  /** The machine completes the requested arguments of a procedure call one
      after the other with `vs`: the arguments it requests, in order, and
      what the final application gives. */
  function CollectRun(p: Procedure, unevaluated: seq<Value>, evaluated: seq<Value>, vs: seq<Value>, applyLambda: ApplyLambdaFn)
    : (seq<Value>, (Result<Unit, Error>, seq<StepState>))
    requires |vs| == |unevaluated| + 1
    decreases |unevaluated|
  {
    var step := ArgCollecting(p, unevaluated, evaluated, vs[0], applyLambda);
    if unevaluated == [] then ([], step)
    else
      var n := |unevaluated| - 1;
      var rest := CollectRun(p, unevaluated[..n], evaluated + [vs[0]], vs[1..], applyLambda);
      ([unevaluated[n]] + rest.0, rest.1)
  }

  /** Arguments are evaluated in source order: started on `args`, the
      machine requests `args[1..]` after the first, one at a time, and
      applies the procedure exactly once, to the completed values in the
      order they came. */
  lemma {:induction false} CollectInSourceOrder(p: Procedure, ys: seq<Value>, done: seq<Value>, vs: seq<Value>, applyLambda: ApplyLambdaFn)
    requires |vs| == |ys| + 1
    ensures CollectRun(p, Reverse(ys), done, vs, applyLambda) == (ys, applyLambda(p, done + vs))
    decreases |ys|
  {
    if ys == [] {
      assert Reverse(ys) == [];
      assert vs == [vs[0]];
    } else {
      var rev := Reverse(ys);
      ReversePop(ys);
      CollectInSourceOrder(p, ys[1..], done + [vs[0]], vs[1..], applyLambda);
      assert done + [vs[0]] + vs[1..] == done + vs by {
        assert vs == [vs[0]] + vs[1..];
      }
      assert CollectRun(p, rev, done, vs, applyLambda)
          == ([ys[0]] + CollectRun(p, Reverse(ys[1..]), done + [vs[0]], vs[1..], applyLambda).0, applyLambda(p, done + vs));
      assert [ys[0]] + ys[1..] == ys;
    }
  }

  /** The whole call from the head: the first argument is requested by
      `from_pre_evaluated`, every other one by `from_arg_collecting_lambda`,
      and the procedure is applied to the values of all of them. */
  lemma ArgumentsInOrder(p: Procedure, args: seq<Value>, vs: seq<Value>, applyLambda: ApplyLambdaFn, applyFunction: ApplyFunctionFn)
    requires args != [] && |vs| == |args|
    ensures var (_, pushed) := PreEvaluated(args, Lambda(p), applyLambda, applyFunction);
      && pushed[1] == EvalThis(args[0], false)
      && CollectRun(p, pushed[0].unevaluated, pushed[0].evaluated, vs, applyLambda) == (args[1..], applyLambda(p, vs))
  {
    PreEvaluatedCases(args, Lambda(p), applyLambda, applyFunction);
    CollectInSourceOrder(p, args[1..], [], vs, applyLambda);
    assert [] + vs == vs;
  }

  /** The machine completes the requested bodies of a procedure one after
      the other with `results`: the bodies it requests, in order, and the
      value it finally completes with. */
  function BodiesRun(bodies: seq<Value>, name: Option<string>, past: Value, results: seq<Value>): (seq<Value>, Value)
    requires |results| == |bodies|
    decreases |bodies|
  {
    if bodies == [] then ([], past)
    else
      var n := |bodies| - 1;
      var rest := BodiesRun(bodies[..n], name, results[0], results[1..]);
      ([bodies[n]] + rest.0, rest.1)
  }

  /** Bodies stored in reverse run in source order, and the call completes
      with the value of the last one (with `past` when there are none). */
  lemma {:induction false} BodiesInSourceOrder(bs: seq<Value>, name: Option<string>, past: Value, results: seq<Value>)
    requires |results| == |bs|
    ensures BodiesRun(Reverse(bs), name, past, results) == (bs, if results == [] then past else results[|results| - 1])
    decreases |bs|
  {
    if bs == [] {
      assert Reverse(bs) == [];
    } else {
      var rev := Reverse(bs);
      ReversePop(bs);
      BodiesInSourceOrder(bs[1..], name, results[0], results[1..]);
      assert BodiesRun(rev, name, past, results)
          == ([bs[0]] + BodiesRun(Reverse(bs[1..]), name, results[0], results[1..]).0, BodiesRun(Reverse(bs[1..]), name, results[0], results[1..]).1);
      assert [bs[0]] + bs[1..] == bs;
    }
  }

  /** One body step: the next body is requested with the remaining ones
      watching, or the last result completes the call. */
  lemma BodiesRunSteps(bodies: seq<Value>, name: Option<string>, past: Value)
    ensures bodies == [] ==> EvaluatingLambdaStep(bodies, name, past) == [Complete(past)]
    ensures bodies != [] ==>
      EvaluatingLambdaStep(bodies, name, past) == [EvaluatingLambda(name, bodies[..|bodies| - 1]), EvalThis(bodies[|bodies| - 1], false)]
  {
  }

  // ---------------------------------------------------------------- the machine

  class Machine {
    var stack: seq<StepState>

    constructor ()
      ensures stack == []
    {
      stack := [];
    }

    /** `from_pre_evaluated`. */
    method FromPreEvaluated(unevaluated: seq<Value>, callable: Value, applyLambda: ApplyLambdaFn, applyFunction: ApplyFunctionFn)
      returns (r: Result<Unit, Error>)
      modifies this
      ensures var (res, pushed) := PreEvaluated(unevaluated, callable, applyLambda, applyFunction);
        r == res && stack == old(stack) + pushed
    {
      var procedure;
      match callable {
        case Lambda(p) => procedure := p;
        case ForeignFn(ff) =>
          var applied := applyFunction(ff, unevaluated);
          if applied.Err? {
            return Err(applied.error);
          }
          stack := stack + [Complete(applied.value)];
          return Ok(Unit);
        case _ =>
          return Err(UnexecutableValue(callable));
      }
      var rest := Reverse(unevaluated);
      if rest != [] {
        var first := rest[|rest| - 1];
        rest := rest[..|rest| - 1];
        stack := stack + [ArgCollectingLambda(procedure, [], rest)];
        stack := stack + [EvalThis(first, false)];
        r := Ok(Unit);
      } else {
        var (res, pushed) := applyLambda(procedure, []);
        stack := stack + pushed;
        r := res;
      }
    }

    /** `from_arg_collecting_lambda`. */
    method FromArgCollectingLambda(p: Procedure, unevaluated: seq<Value>, evaluated: seq<Value>, completed: Value, applyLambda: ApplyLambdaFn)
      returns (r: Result<Unit, Error>)
      modifies this
      ensures var (res, pushed) := ArgCollecting(p, unevaluated, evaluated, completed, applyLambda);
        r == res && stack == old(stack) + pushed
    {
      var done := evaluated + [completed];
      var rest := unevaluated;
      if rest != [] {
        var next := rest[|rest| - 1];
        rest := rest[..|rest| - 1];
        stack := stack + [ArgCollectingLambda(p, done, rest)];
        stack := stack + [EvalThis(next, false)];
        r := Ok(Unit);
      } else {
        var (res, pushed) := applyLambda(p, done);
        stack := stack + pushed;
        r := res;
      }
    }

    /** `from_evaluating_lambda`. */
    method FromEvaluatingLambda(bodies: seq<Value>, name: Option<string>, past: Value) returns (r: Result<Unit, Error>)
      modifies this
      ensures r == Ok(Unit) && stack == old(stack) + EvaluatingLambdaStep(bodies, name, past)
    {
      var rest := bodies;
      if rest != [] {
        var next := rest[|rest| - 1];
        rest := rest[..|rest| - 1];
        stack := stack + [EvaluatingLambda(name, rest)];
        stack := stack + [EvalThis(next, false)];
      } else {
        stack := stack + [Complete(past)];
      }
      r := Ok(Unit);
    }
  }
}
