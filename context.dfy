/** `Context` and `LoadedContext` of src/eval/context.rs, with the built-ins
    that run through the context (src/stdlib/core.rs, logical.rs, map.rs and
    list.rs) and the wrapper of free foreign functions
    (src/eval/foreign_function.rs).

    The context owns the heap the evaluator works on: the environment
    frames, the `build-list` buffers, the supply of identities, and `env`,
    the frame evaluation currently happens in. Each method changes these
    fields step by step, as the source does, and is proved to leave exactly
    the heap, and to return exactly the result, that the functions of
    module `Evaluator` give. */
module Contexts {
  import opened Prelude
  import opened Values
  import opened Scope
  import Evaluator
  import Core
  import Reader

  /** `done` placed before the values of a successful evaluation of a
      suffix of the arguments. */
  function Prepend(done: seq<Value>, o: Evaluator.Out<seq<Value>>): Evaluator.Out<seq<Value>>
  {
    match o.r
    case Err(_) => o
    case Ok(vs) => Evaluator.Out(Ok(done + vs), o.h)
  }

  /** One argument evaluated to `v`: it joins those already done. */
  lemma ArgsStep(s: Evaluator.Setup, f: nat, h: Evaluator.Heap, env: nat, xs: seq<Value>, done: seq<Value>, v: Value)
    requires f > 0 && xs != [] && Evaluator.Eval(s, f - 1, h, env, xs[0]).r == Ok(v)
    ensures Prepend(done, Evaluator.EvalArgs(s, f, h, env, xs))
         == Prepend(done + [v], Evaluator.EvalArgs(s, f, Evaluator.Eval(s, f - 1, h, env, xs[0]).h, env, xs[1..]))
  {
    var rest := Evaluator.EvalArgs(s, f, Evaluator.Eval(s, f - 1, h, env, xs[0]).h, env, xs[1..]);
    if rest.r.Ok? {
      assert done + ([v] + rest.r.value) == (done + [v]) + rest.r.value;
    }
  }

  /** The two ways a procedure call goes once there is fuel: the binding
      fails, or the bodies run in the new frame. */
  lemma ApplyUnfolds(s: Evaluator.Setup, f: nat, h: Evaluator.Heap, p: Procedure, args: seq<Value>)
    requires f > 0
    ensures var b := Evaluator.BindFrame(s, p, args);
      b.Err? ==> Evaluator.ApplyLambda(s, f, h, p, args) == Evaluator.Out(Err(b.error), h)
    ensures var b := Evaluator.BindFrame(s, p, args);
      b.Ok? ==> Evaluator.ApplyLambda(s, f, h, p, args) == Evaluator.EvalBlock(s, f - 1, Evaluator.Push(h, b.value), |h.frames|, p.bodies, None, NoLambdaBody)
  {
  }

  class Context {
    var frames: seq<Frame>
    var buffers: seq<Option<seq<Value>>>
    var nextId: nat
    /** The frame the context evaluates in (`self.env`). */
    var env: nat
    const setup: Evaluator.Setup

    /** The heap the context holds. */
    function State(): Evaluator.Heap
      reads this`frames, this`buffers, this`nextId
    {
      Evaluator.Heap(frames, buffers, nextId)
    }

    /** `Context::new_empty`: one frame, with no parent and no bindings,
        which is the current environment. */
    constructor NewEmpty(setup: Evaluator.Setup)
      ensures frames == [Frame(None, map[])] && env == 0
      ensures buffers == [] && nextId == 0 && this.setup == setup
      ensures Get(frames, env, "") == None && Parent(frames, env) == None
    {
      frames := [Frame(None, map[])];
      buffers := [];
      nextId := 0;
      env := 0;
      this.setup := setup;
    }

    /** Makes `h` the heap of the context; the current frame stays. */
    method Install(h: Evaluator.Heap)
      modifies this
      ensures State() == h && env == old(env)
    {
      frames := h.frames;
      buffers := h.buffers;
      nextId := h.nextId;
    }

    /** `insert_here` on the current frame. */
    method InsertHere(name: string, v: Value)
      modifies this
      ensures State() == Evaluator.InsertHere(old(State()), env, name, v) && env == old(env)
    {
      if env < |frames| {
        frames := Rebind(frames, env, name, v);
      }
    }

    /** `with_value_mut(name, |v| *v = value)` seen from the current frame:
        the innermost binding of `name` is overwritten. */
    method WithValueMut(name: string, v: Value)
      modifies this
      ensures State() == Evaluator.Assign(old(State()), env, name, v) && env == old(env)
    {
      match Owner(frames, env, name) {
        case Some(o) => frames := Rebind(frames, o, name, v);
        case None =>
      }
    }

    /** `LoadedContext::eval`: the recursive evaluator, in the current
        frame. */
    method Eval(f: nat, v: Value) returns (r: Result<Value, Error>)
      modifies this
      ensures Evaluator.Out(r, State()) == Evaluator.Eval(setup, f, old(State()), old(env), v)
      ensures env == old(env)
    {
      var o := Evaluator.Eval(setup, f, State(), env, v);
      Install(o.h);
      r := o.r;
    }

    /** `with_other_env`: `other` is swapped in as the current frame, `body`
        runs, and the frames are swapped back. The context ends in its own
        frame; the caller's variable ends holding whatever frame `body` left
        current, which is `other` again when `body` leaves it as it found
        it. */
    method WithOtherEnv<R>(other: nat, body: (Evaluator.Heap, nat) -> (R, Evaluator.Heap, nat)) returns (r: R, otherAfter: nat)
      modifies this
      ensures var (x, h, e) := body(old(State()), other); r == x && State() == h && otherAfter == e
      ensures env == old(env)
      ensures body(old(State()), other).2 == other ==> otherAfter == other
    {
      var saved := other;
      env, saved := saved, env;
      var (x, h, e) := body(State(), env);
      r := x;
      Install(h);
      env := e;
      env, saved := saved, env;
      otherAfter := saved;
    }

    /** The loop `for x in xs { last = Some(try!(self.eval(x))) }` followed
        by `last.ok_or(none)`, in the current frame. */
    method RunForms(f: nat, xs: seq<Value>, none: Error) returns (r: Result<Value, Error>)
      modifies this
      ensures Evaluator.Out(r, State()) == Evaluator.EvalBlock(setup, f, old(State()), old(env), xs, None, none)
      ensures env == old(env)
    {
      var last: Option<Value> := None;
      var i := 0;
      while i < |xs|
        invariant i <= |xs| && env == old(env)
        invariant Evaluator.EvalBlock(setup, f, old(State()), env, xs, None, none)
               == Evaluator.EvalBlock(setup, f, State(), env, xs[i..], last, none)
      {
        if f == 0 {
          return Err(OutOfFuel);
        }
        assert xs[i..][0] == xs[i] && xs[i..][1..] == xs[i + 1..];
        var x := Eval(f - 1, xs[i]);
        if x.Err? {
          return Err(x.error);
        }
        last := Some(x.value);
        i := i + 1;
      }
      match last {
        case Some(v) => r := Ok(v);
        case None => r := Err(none);
      }
    }

    /** `eval_str`: the program is parsed and its forms run in order in the
        current frame; a parse error comes back as it is. */
    method EvalStr(f: nat, program: string) returns (r: Result<Value, Error>)
      modifies this
      ensures Evaluator.Out(r, State()) == Evaluator.EvalStr(setup, f, old(State()), old(env), program)
      ensures env == old(env)
    {
      match Reader.ParseF(program, setup.ops.parseFloat) {
        case Err(pe) => r := Err(ParseFailure(pe));
        case Ok(forms) => r := RunForms(f, forms, NoProgram);
      }
    }

    /** `apply` of a procedure: its parameters are bound in a new frame
        whose parent is the captured environment, the bodies run there, and
        the caller's frame is current again afterwards. */
    method ApplyLambda(f: nat, p: Procedure, args: seq<Value>) returns (r: Result<Value, Error>)
      modifies this
      ensures Evaluator.Out(r, State()) == Evaluator.ApplyLambda(setup, f, old(State()), p, args)
      ensures env == old(env)
    {
      if f == 0 {
        return Err(OutOfFuel);
      }
      var bound := Evaluator.BindFrame(setup, p, args);
      ghost var h := State();
      if bound.Err? {
        ApplyUnfolds(setup, f, h, p, args);
        return Err(bound.error);
      }
      r := RunInNewFrame(f - 1, bound.value, p.bodies);
      ApplyUnfolds(setup, f, h, p, args);
    }

    /** The bodies of a procedure run in `fr`, a new frame made current for
        the time they run. */
    method RunInNewFrame(f: nat, fr: Frame, bodies: seq<Value>) returns (r: Result<Value, Error>)
      modifies this
      ensures Evaluator.Out(r, State())
           == Evaluator.EvalBlock(setup, f, Evaluator.Push(old(State()), fr), |old(frames)|, bodies, None, NoLambdaBody)
      ensures env == old(env)
    {
      var saved := env;
      env := |frames|;
      frames := frames + [fr];
      r := RunForms(f, bodies, NoLambdaBody);
      env := saved;
    }

    /** `items.map(|v| self.eval(v)).collect()`: left to right, stopping at
        the first error. */
    method EvalArgs(f: nat, xs: seq<Value>) returns (r: Result<seq<Value>, Error>)
      modifies this
      ensures Evaluator.Out(r, State()) == Evaluator.EvalArgs(setup, f, old(State()), old(env), xs)
      ensures env == old(env)
    {
      var done: seq<Value> := [];
      var i := 0;
      ghost var all := Evaluator.EvalArgs(setup, f, State(), env, xs);
      if all.r.Ok? {
        assert [] + all.r.value == all.r.value;
      }
      assert xs[0..] == xs;
      while i < |xs|
        invariant i <= |xs| && env == old(env)
        invariant Evaluator.EvalArgs(setup, f, old(State()), env, xs)
               == Prepend(done, Evaluator.EvalArgs(setup, f, State(), env, xs[i..]))
      {
        if f == 0 {
          return Err(OutOfFuel);
        }
        assert xs[i..][0] == xs[i] && xs[i..][1..] == xs[i + 1..];
        ghost var before := State();
        var x := Eval(f - 1, xs[i]);
        if x.Err? {
          return Err(x.error);
        }
        ArgsStep(setup, f, before, env, xs[i..], done, x.value);
        done := done + [x.value];
        i := i + 1;
      }
      assert done + [] == done;
      r := Ok(done);
    }

    /** `LoadedContext::call` (`apply`): a procedure is applied to `args`;
        a foreign function receives them as it would receive written
        arguments; anything else cannot be executed. */
    method Call(f: nat, func: Value, args: seq<Value>) returns (r: Result<Value, Error>)
      modifies this
      ensures Evaluator.Out(r, State()) == Evaluator.Call(setup, f, old(State()), old(env), func, args)
      ensures env == old(env)
      decreases f
    {
      if f == 0 {
        return Err(OutOfFuel);
      }
      if func.Lambda? {
        assert Evaluator.Call(setup, f, State(), env, func, args) == Evaluator.ApplyLambda(setup, f - 1, State(), func.proc, args);
        r := ApplyLambda(f - 1, func.proc, args);
      } else if func.ForeignFn? {
        assert Evaluator.Call(setup, f, State(), env, func, args) == Evaluator.CallForeign(setup, f - 1, State(), env, func.ff, args);
        r := CallForeign(f - 1, func.ff, args);
      } else {
        r := Err(UnexecutableValue(func));
      }
    }

    /** `call_named`: the value bound to `name` as seen from the current
        frame is called, or the name is undefined. */
    method CallNamed(f: nat, name: string, args: seq<Value>) returns (r: Result<Value, Error>)
      modifies this
      ensures Evaluator.Out(r, State()) == Evaluator.CallNamed(setup, f, old(State()), old(env), name, args)
      ensures env == old(env)
    {
      match Get(frames, env, name) {
        case Some(func) => r := Call(f, func, args);
        case None => r := Err(UndefinedName(name));
      }
    }

    /** A foreign function: `free_fn`'s wrapper evaluates every argument
        before the code runs; a special form gets them as written. */
    method CallForeign(f: nat, ff: ForeignFunction, raw: seq<Value>) returns (r: Result<Value, Error>)
      modifies this
      ensures Evaluator.Out(r, State()) == Evaluator.CallForeign(setup, f, old(State()), old(env), ff, raw)
      ensures env == old(env)
      decreases f
    {
      if f == 0 {
        return Err(OutOfFuel);
      }
      match ff.conv {
        case Free(n) =>
          var a := EvalArgs(f - 1, raw);
          if a.Err? {
            return Err(a.error);
          }
          var o := Evaluator.CallNative(setup, State(), ff.id, n, a.value);
          Install(o.h);
          r := o.r;
        case UnEval(form) =>
          r := Form(f - 1, form, raw);
      }
    }

    /** The special forms, by name. */
    method Form(f: nat, form: SpecialForm, raw: seq<Value>) returns (r: Result<Value, Error>)
      modifies this
      ensures Evaluator.Out(r, State()) == Evaluator.Form(setup, f, old(State()), old(env), form, raw)
      ensures env == old(env)
      decreases f
    {
      if f == 0 {
        return Err(OutOfFuel);
      }
      if form.QuoteForm? || form.CondForm? || form.DefineForm? || form.SetForm? || form.LambdaForm? {
        r := CoreForm(f, form, raw);
      } else {
        r := LibraryForm(f, form, raw);
      }
    }

    /** The forms of src/stdlib/core.rs. */
    method CoreForm(f: nat, form: SpecialForm, raw: seq<Value>) returns (r: Result<Value, Error>)
      requires f > 0 && (form.QuoteForm? || form.CondForm? || form.DefineForm? || form.SetForm? || form.LambdaForm?)
      modifies this
      ensures Evaluator.Out(r, State()) == Evaluator.Form(setup, f, old(State()), old(env), form, raw)
      ensures env == old(env)
      decreases f, 0
    {
      match form {
        case QuoteForm => r := Core.Quote(raw);
        case CondForm => r := Cond(f - 1, raw);
        case DefineForm => r := Define(f - 1, raw);
        case SetForm => r := Set(f - 1, raw);
        case LambdaForm => r := Lambda(raw);
      }
    }

    /** The forms of src/stdlib/logical.rs, map.rs and list.rs. */
    method LibraryForm(f: nat, form: SpecialForm, raw: seq<Value>) returns (r: Result<Value, Error>)
      requires f > 0 && !(form.QuoteForm? || form.CondForm? || form.DefineForm? || form.SetForm? || form.LambdaForm?)
      modifies this
      ensures Evaluator.Out(r, State()) == Evaluator.Form(setup, f, old(State()), old(env), form, raw)
      ensures env == old(env)
      decreases f, 0
    {
      match form {
        case AndForm => r := And(f - 1, raw);
        case OrForm => r := Or(f - 1, raw);
        case XorForm => r := Xor(f - 1, raw);
        case HashMapForm => r := HashMap(f - 1, raw);
        case BuildListForm => r := BuildList(f - 1, raw);
        case ForeachForm => r := Foreach(f - 1, raw);
      }
    }

    /** `cond`. */
    method Cond(f: nat, raw: seq<Value>) returns (r: Result<Value, Error>)
      modifies this
      ensures Evaluator.Out(r, State()) == Evaluator.EvalCond(setup, f, old(State()), old(env), raw)
      ensures env == old(env)
    {
      if f == 0 {
        return Err(OutOfFuel);
      }
      if |raw| != 3 {
        return Err(ArityError(|raw|, "exactly 3"));
      }
      var c := Eval(f - 1, raw[0]);
      match c {
        case Err(e) => r := Err(e);
        case Ok(Bool(true)) => r := Eval(f - 1, raw[1]);
        case Ok(Bool(false)) => r := Eval(f - 1, raw[2]);
        case Ok(other) => r := Err(UnexpectedType(other, "Bool"));
      }
    }

    /** `define`: the name is bound in the current frame itself. */
    method Define(f: nat, raw: seq<Value>) returns (r: Result<Value, Error>)
      modifies this
      ensures Evaluator.Out(r, State()) == Evaluator.EvalDefine(setup, f, old(State()), old(env), raw)
      ensures env == old(env)
    {
      if f == 0 {
        return Err(OutOfFuel);
      }
      if |raw| != 2 {
        return Err(ArityError(|raw|, "exactly 2"));
      }
      if !raw[0].Ident? {
        return Err(UnexpectedType(raw[0], "Ident"));
      }
      var name := raw[0].name;
      if IsDefinedAtThisLevel(frames, env, name) {
        return Err(AlreadyDefined(name));
      }
      r := Eval(f - 1, raw[1]);
      if r.Ok? {
        InsertHere(name, r.value);
      }
    }

    /** `set`: the innermost binding of the name is overwritten. */
    method Set(f: nat, raw: seq<Value>) returns (r: Result<Value, Error>)
      modifies this
      ensures Evaluator.Out(r, State()) == Evaluator.EvalSet(setup, f, old(State()), old(env), raw)
      ensures env == old(env)
    {
      if f == 0 {
        r := Err(OutOfFuel);
      } else if |raw| != 2 {
        r := Err(ArityError(|raw|, "exactly 2"));
      } else if !raw[0].Ident? {
        r := Err(UnexpectedType(raw[0], "Ident"));
      } else if !IsDefined(frames, env, raw[0].name) {
        r := Err(UndefinedName(raw[0].name));
      } else {
        r := Eval(f - 1, raw[1]);
        if r.Ok? {
          WithValueMut(raw[0].name, r.value);
        }
      }
    }

    /** `lambda`: the new body vector takes the next identity. */
    method Lambda(raw: seq<Value>) returns (r: Result<Value, Error>)
      modifies this
      ensures Evaluator.Out(r, State()) == Evaluator.EvalLambda(old(State()), old(env), raw)
      ensures env == old(env)
    {
      r := Core.MakeLambda(raw, env, nextId);
      if r.Ok? {
        nextId := nextId + 1;
      }
    }

    /** `and`. */
    method And(f: nat, raw: seq<Value>) returns (r: Result<Value, Error>)
      modifies this
      ensures Evaluator.Out(r, State()) == Evaluator.EvalAnd(setup, f, old(State()), old(env), raw)
      ensures env == old(env)
    {
      var i := 0;
      while i < |raw|
        invariant i <= |raw| && env == old(env)
        invariant Evaluator.EvalAnd(setup, f, old(State()), env, raw) == Evaluator.EvalAnd(setup, f, State(), env, raw[i..])
      {
        if f == 0 {
          return Err(OutOfFuel);
        }
        assert raw[i..][0] == raw[i] && raw[i..][1..] == raw[i + 1..];
        var x := Eval(f - 1, raw[i]);
        match x {
          case Err(e) => return Err(e);
          case Ok(Bool(true)) =>
          case Ok(Bool(false)) => return Ok(Bool(false));
          case Ok(other) => return Err(UnexpectedType(other, "Bool"));
        }
        i := i + 1;
      }
      r := Ok(Bool(true));
    }

    /** `or`. */
    method Or(f: nat, raw: seq<Value>) returns (r: Result<Value, Error>)
      modifies this
      ensures Evaluator.Out(r, State()) == Evaluator.EvalOr(setup, f, old(State()), old(env), raw)
      ensures env == old(env)
    {
      var i := 0;
      while i < |raw|
        invariant i <= |raw| && env == old(env)
        invariant Evaluator.EvalOr(setup, f, old(State()), env, raw) == Evaluator.EvalOr(setup, f, State(), env, raw[i..])
      {
        if f == 0 {
          return Err(OutOfFuel);
        }
        assert raw[i..][0] == raw[i] && raw[i..][1..] == raw[i + 1..];
        var x := Eval(f - 1, raw[i]);
        match x {
          case Err(e) => return Err(e);
          case Ok(Bool(true)) => return Ok(Bool(true));
          case Ok(Bool(false)) =>
          case Ok(other) => return Err(UnexpectedType(other, "Bool"));
        }
        i := i + 1;
      }
      r := Ok(Bool(false));
    }

    /** `xor`, with the flags `found_true` and `found_false`. */
    method Xor(f: nat, raw: seq<Value>) returns (r: Result<Value, Error>)
      modifies this
      ensures Evaluator.Out(r, State()) == Evaluator.EvalXor(setup, f, old(State()), old(env), raw, false, false)
      ensures env == old(env)
    {
      var foundTrue, foundFalse := false, false;
      var i := 0;
      while i < |raw|
        invariant i <= |raw| && env == old(env)
        invariant Evaluator.EvalXor(setup, f, old(State()), env, raw, false, false)
               == Evaluator.EvalXor(setup, f, State(), env, raw[i..], foundTrue, foundFalse)
      {
        if f == 0 {
          return Err(OutOfFuel);
        }
        assert raw[i..][0] == raw[i] && raw[i..][1..] == raw[i + 1..];
        var x := Eval(f - 1, raw[i]);
        match x {
          case Err(e) => return Err(e);
          case Ok(Bool(b)) =>
            if b {
              foundTrue := true;
            } else {
              foundFalse := true;
            }
            if foundTrue && foundFalse {
              return Ok(Bool(true));
            }
          case Ok(other) => return Err(UnexpectedType(other, "Bool"));
        }
        i := i + 1;
      }
      r := Ok(Bool(false));
    }

    /** `hash_map`: the `key` slot alternates between empty and holding an
        evaluated key; each completed pair is inserted. */
    method HashMap(f: nat, raw: seq<Value>) returns (r: Result<Value, Error>)
      modifies this
      ensures Evaluator.Out(r, State()) == Evaluator.EvalHashMap(setup, f, old(State()), old(env), raw)
      ensures env == old(env)
    {
      if f == 0 {
        return Err(OutOfFuel);
      }
      if |raw| % 2 == 1 {
        return Err(ArityError(|raw|, "an even number"));
      }
      var m: map<Value, Value> := map[];
      var key: Option<Value> := None;
      var i := 0;
      while i < |raw|
        invariant i <= |raw| && env == old(env)
        invariant Evaluator.EvalEntries(setup, f - 1, old(State()), env, raw, map[], None)
               == Evaluator.EvalEntries(setup, f - 1, State(), env, raw[i..], m, key)
      {
        if f - 1 == 0 {
          return Err(OutOfFuel);
        }
        assert raw[i..][0] == raw[i] && raw[i..][1..] == raw[i + 1..];
        var x := Eval(f - 2, raw[i]);
        if x.Err? {
          return Err(x.error);
        }
        match key {
          case None => key := Some(x.value);
          case Some(k) =>
            m := m[k := x.value];
            key := None;
        }
        i := i + 1;
      }
      r := Ok(Map(m));
    }

    /** `build_list`: a new open buffer and its two writers; `(f add
        add-all)` is evaluated and the buffer is then taken. */
    method BuildList(f: nat, raw: seq<Value>) returns (r: Result<Value, Error>)
      modifies this
      ensures Evaluator.Out(r, State()) == Evaluator.EvalBuildList(setup, f, old(State()), old(env), raw)
      ensures env == old(env)
    {
      if f == 0 {
        return Err(OutOfFuel);
      }
      if |raw| != 1 {
        return Err(ArityError(|raw|, "exactly 1"));
      }
      var b := |buffers|;
      var id := nextId;
      buffers := buffers + [Some([])];
      nextId := nextId + 2;
      var x := Eval(f - 1, List([raw[0], Evaluator.Adder(b, id), Evaluator.AllAdder(b, id + 1)]));
      if x.Err? {
        return Err(x.error);
      }
      var taken := Evaluator.BufferAt(State(), b);
      if taken.None? {
        return Err(Panic(Evaluator.TAKE_NONE));
      }
      buffers := buffers[b := None];
      r := Ok(List(taken.value));
    }

    /** `foreach`: the function is called on each element in turn and the
        calls are counted. */
    method Foreach(f: nat, raw: seq<Value>) returns (r: Result<Value, Error>)
      modifies this
      ensures Evaluator.Out(r, State()) == Evaluator.EvalForeach(setup, f, old(State()), old(env), raw)
      ensures env == old(env)
      decreases f
    {
      if f == 0 {
        return Err(OutOfFuel);
      }
      var a := EvalArgs(f - 1, raw);
      if a.Err? {
        return Err(a.error);
      }
      var args := a.value;
      if |args| != 2 {
        return Err(ArityError(|args|, "exactly 2"));
      }
      if !args[0].List? {
        return Err(UnexpectedType(args[0], "List"));
      }
      r := Each(f - 1, args[1], args[0].items);
    }

    /** The loop of `foreach`, which counts the calls in `count`. */
    method Each(f: nat, func: Value, list: seq<Value>) returns (r: Result<Value, Error>)
      modifies this
      ensures Evaluator.Out(r, State()) == Evaluator.EvalEach(setup, f, old(State()), old(env), func, list, 0)
      ensures env == old(env)
      decreases f
    {
      var count: nat := 0;
      while count < |list|
        invariant count <= |list| && env == old(env)
        invariant Evaluator.EvalEach(setup, f, old(State()), env, func, list, 0)
               == Evaluator.EvalEach(setup, f, State(), env, func, list[count..], count)
      {
        if f == 0 {
          return Err(OutOfFuel);
        }
        assert list[count..][0] == list[count] && list[count..][1..] == list[count + 1..];
        var c := Call(f - 1, func, [list[count]]);
        if c.Err? {
          return Err(c.error);
        }
        count := count + 1;
      }
      r := Ok(Int(Wrap64(count)));
    }
  }
}
