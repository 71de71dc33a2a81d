/** The evaluator: `eval` of src/eval.rs and src/eval/mod.rs, `apply` and
    `call` of src/eval/context.rs, the dispatch of foreign functions
    (src/eval/foreign_function.rs) and the built-ins that receive their
    arguments unevaluated (src/stdlib/core.rs, logical.rs, map.rs, list.rs).

    Evaluation is a function of a `Heap`, the shared memory the source
    reaches through `Rc<RefCell<..>>`: the environment frames, the buffers of
    `build-list` calls and a supply of fresh identities. Every function
    returns its result together with the heap it leaves. Recursion is bounded
    by fuel `f`: each step into another function of the group spends one
    unit, and running out is the error `OutOfFuel`, which the source does not
    have (there, a deep recursion overflows the stack). */
module Evaluator {
  import opened Prelude
  import opened Values
  import opened Scope
  import opened Procedures
  import Arithmetic
  import Types
  import Core
  import Options
  import Lists
  import Reader

  /** Environment frames, `build-list` buffers, and the next unused
      identity (of a body vector or a closure). */
  datatype Heap = Heap(frames: seq<Frame>, buffers: seq<Option<seq<Value>>>, nextId: nat)

  /** What one evaluation holds fixed: whether a lambda binds its parameters
      by zipping them with the arguments (`gen_env` of src/eval.rs) or with
      the checks of src/eval/procedure.rs; the code of the natives the
      embedding program registers (`Host`), by closure identity; and the
      float operations left opaque. */
  datatype Setup = Setup(zipped: bool, host: (nat, seq<Value>) -> Result<Value, Error>, ops: Types.Opaque)

  /** A result and the heap it leaves. */
  datatype Out<T> = Out(r: Result<T, Error>, h: Heap)

  /** The panic of `unwrap` on an empty `Option`. */
  const TAKE_NONE: string := "called `Option::unwrap()` on a `None` value"

  /** Evaluation only ever adds: frames are appended and keep their parent
      and every name they bind, buffers are appended, and identities are
      not handed out twice. */
  predicate Grows(h: Heap, h': Heap)
  {
    && |h.frames| <= |h'.frames|
    && (forall i :: 0 <= i < |h.frames| ==>
          h'.frames[i].parent == h.frames[i].parent && h.frames[i].bindings.Keys <= h'.frames[i].bindings.Keys)
    && |h.buffers| <= |h'.buffers|
    && h.nextId <= h'.nextId
  }

  // ---------------------------------------------------------------- heap updates

  /** `insert_here` on the frame `env`. */
  function InsertHere(h: Heap, env: nat, name: string, v: Value): (h': Heap)
    ensures Grows(h, h')
  {
    if env < |h.frames| then h.(frames := Rebind(h.frames, env, name, v)) else h
  }

  /** `with_value_mut(name, |v| *v = value)`: the innermost binding of
      `name` seen from `env` is overwritten. */
  function Assign(h: Heap, env: nat, name: string, v: Value): (h': Heap)
    ensures Grows(h, h')
  {
    match Owner(h.frames, env, name)
    case None => h
    case Some(o) => h.(frames := Rebind(h.frames, o, name, v))
  }

  /** A new frame for a procedure call. */
  function Push(h: Heap, fr: Frame): (h': Heap)
    ensures Grows(h, h')
  {
    h.(frames := h.frames + [fr])
  }

  /** The buffer `b`; one that does not exist counts as taken. */
  function BufferAt(h: Heap, b: nat): Option<seq<Value>>
  {
    if b < |h.buffers| then h.buffers[b] else None
  }

  function StoreBuffer(h: Heap, b: nat, v: Option<seq<Value>>): (h': Heap)
    ensures Grows(h, h')
  {
    if b < |h.buffers| then h.(buffers := h.buffers[b := v]) else h
  }

  // ---------------------------------------------------------------- foreign functions

  /** `free_fn(name, func)`: a foreign function whose arguments are
      evaluated before `func` sees them; `id` is the new closure's identity. */
  function FreeFn(name: string, id: nat, n: Native): (v: Value)
    ensures v.ForeignFn? && v.ff.name == name && v.ff.conv == Free(n)
  {
    ForeignFn(ForeignFunction(name, id, Free(n)))
  }

  /** `ast_fn(name, func)`: a foreign function that receives its arguments
      as written. */
  function AstFn(name: string, id: nat, form: SpecialForm): (v: Value)
    ensures v.ForeignFn? && v.ff.name == name && v.ff.conv == UnEval(form)
  {
    ForeignFn(ForeignFunction(name, id, UnEval(form)))
  }

  /** Two foreign functions are equal exactly when they have the same name
      and the same closure; a clone shares both and so equals the original,
      while the same code wrapped twice gives two closures that differ. */
  lemma ForeignFunctionIdentity(name: string, id: nat, id': nat, n: Native)
    ensures ValueEq(FreeFn(name, id, n), Clone(FreeFn(name, id, n)))
    ensures id != id' ==> !ValueEq(FreeFn(name, id, n), FreeFn(name, id', n))
    ensures ValueEq(FreeFn(name, id, n), AstFn(name, id, QuoteForm))
  {
  }

  /** The free built-ins, and the natives of the embedding program. Only the
      `build-list` writers touch the heap, and only their own buffer. */
  function CallNative(s: Setup, h: Heap, id: nat, n: Native, args: seq<Value>): (o: Out<Value>)
    ensures Grows(h, o.h)
    ensures !n.Add? && !n.AddAll? ==> o.h == h
    ensures n.Add? || n.AddAll? ==> o.h.frames == h.frames && |o.h.buffers| == |h.buffers|
  {
    match n
    case AddInts => Out(Arithmetic.AddIntsResult(args), h)
    case SubInts => Out(Arithmetic.SubIntsResult(args), h)
    case MulInts => Out(Arithmetic.MulIntsResult(args), h)
    case DivInts => Out(Arithmetic.DivIntsResult(args), h)
    case Concat => Out(Arithmetic.ConcatResult(args), h)
    case Equals => Out(Core.Equals(args), h)
    case IsVariant(tag) => Out(Types.IsType(args, tag), h)
    case IsExecutable => Out(Types.IsExecutable(args), h)
    case ToInt => Out(Types.ToInt(args, s.ops), h)
    case ToFloat => Out(Types.ToFloat(args, s.ops), h)
    case ToBool => Out(Types.ToBool(args), h)
    case ToStr => Out(Types.ToStr(args, s.ops), h)
    case SomeFn => Out(Options.SomeFn(args), h)
    case NoneFn => Out(Options.NoneFn(args), h)
    case UnwrapFn => Out(Options.Unwrap(args), h)
    case Add(b) =>
      var (r, buf) := Lists.AddResult(BufferAt(h, b), args);
      Out(r, StoreBuffer(h, b, buf))
    case AddAll(b) =>
      var (r, buf) := Lists.AddAllResult(BufferAt(h, b), args);
      Out(r, StoreBuffer(h, b, buf))
    case Host => Out(s.host(id, args), h)
  }

  /** How a procedure call binds its parameters in the new frame. */
  function BindFrame(s: Setup, p: Procedure, args: seq<Value>): (r: Result<Frame, Error>)
    ensures r.Ok? ==> r.value.parent == Some(p.env)
  {
    if s.zipped then Ok(ZipEnv(p, args)) else GenEnv(p, args)
  }

  // ---------------------------------------------------------------- eval

  /** `eval`: scalars, functions, maps and options evaluate to themselves;
      an identifier to its visible binding; a non-empty list is a call. */
  function Eval(s: Setup, f: nat, h: Heap, env: nat, v: Value): (o: Out<Value>)
    ensures Grows(h, o.h)
    decreases f, 0
  {
    if f == 0 then Out(Err(OutOfFuel), h)
    else match v
      case Ident(name) =>
        (match Get(h.frames, env, name)
         case Some(x) => Out(Ok(x), h)
         case None => Out(Err(UndefinedName(name)), h))
      case List(items) =>
        if items == [] then Out(Err(ExecuteEmptyList), h)
        else EvalCall(s, f - 1, h, env, items[0], items[1..])
      case _ => Out(Ok(v), h)
  }

  /** A call: the head is evaluated first. A procedure gets its arguments
      evaluated left to right; a foreign function gets them as its
      convention asks; anything else cannot be executed. */
  function EvalCall(s: Setup, f: nat, h: Heap, env: nat, head: Value, rest: seq<Value>): (o: Out<Value>)
    ensures Grows(h, o.h)
    decreases f, 0
  {
    if f == 0 then Out(Err(OutOfFuel), h)
    else
      var hd := Eval(s, f - 1, h, env, head);
      match hd.r
      case Err(e) => Out(Err(e), hd.h)
      case Ok(Lambda(p)) =>
        var a := EvalArgs(s, f - 1, hd.h, env, rest);
        (match a.r
         case Err(e) => Out(Err(e), a.h)
         case Ok(args) => ApplyLambda(s, f - 1, a.h, p, args))
      case Ok(ForeignFn(ff)) => CallForeign(s, f - 1, hd.h, env, ff, rest)
      case Ok(x) => Out(Err(UnexecutableValue(x)), hd.h)
  }

  /** `items.map(|v| eval(v, env)).collect()`: left to right, stopping at
      the first error. */
  function EvalArgs(s: Setup, f: nat, h: Heap, env: nat, xs: seq<Value>): (o: Out<seq<Value>>)
    ensures Grows(h, o.h)
    ensures o.r.Ok? ==> |o.r.value| == |xs|
    decreases f, |xs|
  {
    if xs == [] then Out(Ok([]), h)
    else if f == 0 then Out(Err(OutOfFuel), h)
    else
      var x := Eval(s, f - 1, h, env, xs[0]);
      match x.r
      case Err(e) => Out(Err(e), x.h)
      case Ok(v) =>
        var rest := EvalArgs(s, f, x.h, env, xs[1..]);
        match rest.r
        case Err(e) => Out(Err(e), rest.h)
        case Ok(vs) => Out(Ok([v] + vs), rest.h)
  }

  /** Applying a procedure: the parameters are bound in a new frame whose
      parent is the captured environment, and the bodies run there. */
  function ApplyLambda(s: Setup, f: nat, h: Heap, p: Procedure, args: seq<Value>): (o: Out<Value>)
    ensures Grows(h, o.h)
    decreases f, 0
  {
    if f == 0 then Out(Err(OutOfFuel), h)
    else match BindFrame(s, p, args)
      case Err(e) => Out(Err(e), h)
      case Ok(fr) => EvalBlock(s, f - 1, Push(h, fr), |h.frames|, p.bodies, None, NoLambdaBody)
  }

  /** The loop `for x in xs { last = Some(try!(eval(x))) }` followed by
      `last.ok_or(none)`: the forms run in order, the first error ends the
      run, and the value is that of the last form, or the error `none` when
      there are no forms at all. Procedure bodies (`NoLambdaBody`) and the
      forms of a program (`NoProgram`) both run this way. */
  function EvalBlock(s: Setup, f: nat, h: Heap, env: nat, xs: seq<Value>, last: Option<Value>, none: Error): (o: Out<Value>)
    ensures Grows(h, o.h)
    ensures xs == [] && last.None? ==> o == Out(Err(none), h)
    decreases f, |xs|
  {
    if xs == [] then
      match last
      case Some(v) => Out(Ok(v), h)
      case None => Out(Err(none), h)
    else if f == 0 then Out(Err(OutOfFuel), h)
    else
      var x := Eval(s, f - 1, h, env, xs[0]);
      match x.r
      case Err(e) => Out(Err(e), x.h)
      case Ok(v) => EvalBlock(s, f, x.h, env, xs[1..], Some(v), none)
  }

  /** A foreign function: a free one has its arguments evaluated, left to
      right, before its code runs, and does not run when one of them fails;
      a special form receives them as written. */
  function CallForeign(s: Setup, f: nat, h: Heap, env: nat, ff: ForeignFunction, raw: seq<Value>): (o: Out<Value>)
    ensures Grows(h, o.h)
    decreases f, 0
  {
    if f == 0 then Out(Err(OutOfFuel), h)
    else match ff.conv
      case Free(n) =>
        var a := EvalArgs(s, f - 1, h, env, raw);
        (match a.r
         case Err(e) => Out(Err(e), a.h)
         case Ok(args) => CallNative(s, a.h, ff.id, n, args))
      case UnEval(form) => Form(s, f - 1, h, env, form, raw)
  }

  /** `LoadedContext::call` (`apply`): a procedure is applied to `args` as
      given; a foreign function receives them as it would receive written
      arguments, so a free one evaluates them. */
  function Call(s: Setup, f: nat, h: Heap, env: nat, func: Value, args: seq<Value>): (o: Out<Value>)
    ensures Grows(h, o.h)
    decreases f, 0
  {
    if f == 0 then Out(Err(OutOfFuel), h)
    else match func
      case Lambda(p) => ApplyLambda(s, f - 1, h, p, args)
      case ForeignFn(ff) => CallForeign(s, f - 1, h, env, ff, args)
      case _ => Out(Err(UnexecutableValue(func)), h)
  }

  /** The special forms, by name. */
  function Form(s: Setup, f: nat, h: Heap, env: nat, form: SpecialForm, raw: seq<Value>): (o: Out<Value>)
    ensures Grows(h, o.h)
    decreases f, 0
  {
    if f == 0 then Out(Err(OutOfFuel), h)
    else match form
      case QuoteForm => Out(Core.Quote(raw), h)
      case CondForm => EvalCond(s, f - 1, h, env, raw)
      case DefineForm => EvalDefine(s, f - 1, h, env, raw)
      case SetForm => EvalSet(s, f - 1, h, env, raw)
      case LambdaForm => EvalLambda(h, env, raw)
      case AndForm => EvalAnd(s, f - 1, h, env, raw)
      case OrForm => EvalOr(s, f - 1, h, env, raw)
      case XorForm => EvalXor(s, f - 1, h, env, raw, false, false)
      case HashMapForm => EvalHashMap(s, f - 1, h, env, raw)
      case BuildListForm => EvalBuildList(s, f - 1, h, env, raw)
      case ForeachForm => EvalForeach(s, f - 1, h, env, raw)
  }

  // ---------------------------------------------------------------- src/stdlib/core.rs

  /** `cond` (`if`): exactly three arguments; the condition is evaluated and
      then only the branch it selects. */
  function EvalCond(s: Setup, f: nat, h: Heap, env: nat, raw: seq<Value>): (o: Out<Value>)
    ensures Grows(h, o.h)
    decreases f, 0
  {
    if f == 0 then Out(Err(OutOfFuel), h)
    else if |raw| != 3 then Out(Err(ArityError(|raw|, "exactly 3")), h)
    else
      var c := Eval(s, f - 1, h, env, raw[0]);
      match c.r
      case Err(e) => Out(Err(e), c.h)
      case Ok(Bool(true)) => Eval(s, f - 1, c.h, env, raw[1])
      case Ok(Bool(false)) => Eval(s, f - 1, c.h, env, raw[2])
      case Ok(other) => Out(Err(UnexpectedType(other, "Bool")), c.h)
  }

  /** `define`: exactly two arguments, the first an identifier not yet bound
      in this very frame (checked before anything is evaluated); the value
      is bound in this frame and returned. */
  function EvalDefine(s: Setup, f: nat, h: Heap, env: nat, raw: seq<Value>): (o: Out<Value>)
    ensures Grows(h, o.h)
    decreases f, 0
  {
    if f == 0 then Out(Err(OutOfFuel), h)
    else if |raw| != 2 then Out(Err(ArityError(|raw|, "exactly 2")), h)
    else if !raw[0].Ident? then Out(Err(UnexpectedType(raw[0], "Ident")), h)
    else if IsDefinedAtThisLevel(h.frames, env, raw[0].name) then Out(Err(AlreadyDefined(raw[0].name)), h)
    else
      var x := Eval(s, f - 1, h, env, raw[1]);
      match x.r
      case Err(e) => Out(Err(e), x.h)
      case Ok(v) => Out(Ok(v), InsertHere(x.h, env, raw[0].name, v))
  }

  /** `set`: exactly two arguments, the first an identifier bound somewhere
      on the chain (checked before anything is evaluated); its innermost
      binding is overwritten and the value returned. */
  function EvalSet(s: Setup, f: nat, h: Heap, env: nat, raw: seq<Value>): (o: Out<Value>)
    ensures Grows(h, o.h)
    decreases f, 0
  {
    if f == 0 then Out(Err(OutOfFuel), h)
    else if |raw| != 2 then Out(Err(ArityError(|raw|, "exactly 2")), h)
    else if !raw[0].Ident? then Out(Err(UnexpectedType(raw[0], "Ident")), h)
    else if !IsDefined(h.frames, env, raw[0].name) then Out(Err(UndefinedName(raw[0].name)), h)
    else
      var x := Eval(s, f - 1, h, env, raw[1]);
      match x.r
      case Err(e) => Out(Err(e), x.h)
      case Ok(v) => Out(Ok(v), Assign(x.h, env, raw[0].name, v))
  }

  /** `lambda`: a procedure over the current environment, whose body vector
      is new and so gets a fresh identity. */
  function EvalLambda(h: Heap, env: nat, raw: seq<Value>): (o: Out<Value>)
    ensures Grows(h, o.h)
    ensures o.r == Core.MakeLambda(raw, env, h.nextId)
    ensures o.r.Ok? ==> o.r.value.proc.bodiesId < o.h.nextId
  {
    match Core.MakeLambda(raw, env, h.nextId)
    case Err(e) => Out(Err(e), h)
    case Ok(l) => Out(Ok(l), h.(nextId := h.nextId + 1))
  }

  // ---------------------------------------------------------------- src/stdlib/logical.rs

  /** `and`: left to right; false at the first false, true when all are
      true (and when there are none). */
  function EvalAnd(s: Setup, f: nat, h: Heap, env: nat, raw: seq<Value>): (o: Out<Value>)
    ensures Grows(h, o.h)
    decreases f, |raw|
  {
    if raw == [] then Out(Ok(Bool(true)), h)
    else if f == 0 then Out(Err(OutOfFuel), h)
    else
      var x := Eval(s, f - 1, h, env, raw[0]);
      match x.r
      case Err(e) => Out(Err(e), x.h)
      case Ok(Bool(true)) => EvalAnd(s, f, x.h, env, raw[1..])
      case Ok(Bool(false)) => Out(Ok(Bool(false)), x.h)
      case Ok(other) => Out(Err(UnexpectedType(other, "Bool")), x.h)
  }

  /** `or`: left to right; true at the first true, false when all are
      false (and when there are none). */
  function EvalOr(s: Setup, f: nat, h: Heap, env: nat, raw: seq<Value>): (o: Out<Value>)
    ensures Grows(h, o.h)
    decreases f, |raw|
  {
    if raw == [] then Out(Ok(Bool(false)), h)
    else if f == 0 then Out(Err(OutOfFuel), h)
    else
      var x := Eval(s, f - 1, h, env, raw[0]);
      match x.r
      case Err(e) => Out(Err(e), x.h)
      case Ok(Bool(true)) => Out(Ok(Bool(true)), x.h)
      case Ok(Bool(false)) => EvalOr(s, f, x.h, env, raw[1..])
      case Ok(other) => Out(Err(UnexpectedType(other, "Bool")), x.h)
  }

  /** `xor`, with the flags `found_true` and `found_false`: true as soon as
      both a true and a false have been seen, false when the arguments run
      out first. */
  function EvalXor(s: Setup, f: nat, h: Heap, env: nat, raw: seq<Value>, foundTrue: bool, foundFalse: bool): (o: Out<Value>)
    ensures Grows(h, o.h)
    decreases f, |raw|
  {
    if raw == [] then Out(Ok(Bool(false)), h)
    else if f == 0 then Out(Err(OutOfFuel), h)
    else
      var x := Eval(s, f - 1, h, env, raw[0]);
      match x.r
      case Err(e) => Out(Err(e), x.h)
      case Ok(Bool(b)) =>
        var t := foundTrue || b;
        var u := foundFalse || !b;
        if t && u then Out(Ok(Bool(true)), x.h) else EvalXor(s, f, x.h, env, raw[1..], t, u)
      case Ok(other) => Out(Err(UnexpectedType(other, "Bool")), x.h)
  }

  // ---------------------------------------------------------------- src/stdlib/map.rs

  /** `hash_map`: an even number of arguments, evaluated alternately as a
      key and its value. */
  function EvalHashMap(s: Setup, f: nat, h: Heap, env: nat, raw: seq<Value>): (o: Out<Value>)
    ensures Grows(h, o.h)
    decreases f, 0
  {
    if f == 0 then Out(Err(OutOfFuel), h)
    else if |raw| % 2 == 1 then Out(Err(ArityError(|raw|, "an even number")), h)
    else EvalEntries(s, f - 1, h, env, raw, map[], None)
  }

  /** The loop of `hash_map`: `key` holds an evaluated key waiting for its
      value; each pair is inserted into `m` as it completes, so a later
      duplicate key overwrites an earlier one. */
  function EvalEntries(s: Setup, f: nat, h: Heap, env: nat, raw: seq<Value>, m: map<Value, Value>, key: Option<Value>): (o: Out<Value>)
    ensures Grows(h, o.h)
    decreases f, |raw|
  {
    if raw == [] then Out(Ok(Map(m)), h)
    else if f == 0 then Out(Err(OutOfFuel), h)
    else
      var x := Eval(s, f - 1, h, env, raw[0]);
      match x.r
      case Err(e) => Out(Err(e), x.h)
      case Ok(v) =>
        match key
        case None => EvalEntries(s, f, x.h, env, raw[1..], m, Some(v))
        case Some(k) => EvalEntries(s, f, x.h, env, raw[1..], m[k := v], None)
  }

  // ---------------------------------------------------------------- src/stdlib/list.rs

  /** The `add` and `add-all` writers of buffer `b`. */
  function Adder(b: nat, id: nat): Value
  {
    FreeFn("add", id, Add(b))
  }

  function AllAdder(b: nat, id: nat): Value
  {
    FreeFn("add-all", id, AddAll(b))
  }

  /** `build_list`: exactly one argument; a new buffer and its two writers
      (two new closures) are made, `(f add add-all)` is evaluated, and the
      buffer is taken as the resulting list. */
  function EvalBuildList(s: Setup, f: nat, h: Heap, env: nat, raw: seq<Value>): (o: Out<Value>)
    ensures Grows(h, o.h)
    decreases f, 0
  {
    if f == 0 then Out(Err(OutOfFuel), h)
    else if |raw| != 1 then Out(Err(ArityError(|raw|, "exactly 1")), h)
    else
      var b := |h.buffers|;
      var h1 := Heap(h.frames, h.buffers + [Some([])], h.nextId + 2);
      var x := Eval(s, f - 1, h1, env, List([raw[0], Adder(b, h.nextId), AllAdder(b, h.nextId + 1)]));
      match x.r
      case Err(e) => Out(Err(e), x.h)
      case Ok(_) =>
        match BufferAt(x.h, b)
        case Some(items) => Out(Ok(List(items)), StoreBuffer(x.h, b, None))
        case None => Out(Err(Panic(TAKE_NONE)), x.h)
  }

  /** `foreach`: its two arguments are evaluated; the first must be a list,
      and the second is called on each element in turn. The result is the
      number of calls. */
  function EvalForeach(s: Setup, f: nat, h: Heap, env: nat, raw: seq<Value>): (o: Out<Value>)
    ensures Grows(h, o.h)
    decreases f, 0
  {
    if f == 0 then Out(Err(OutOfFuel), h)
    else
      var a := EvalArgs(s, f - 1, h, env, raw);
      match a.r
      case Err(e) => Out(Err(e), a.h)
      case Ok(args) =>
        if |args| != 2 then Out(Err(ArityError(|args|, "exactly 2")), a.h)
        else if !args[0].List? then Out(Err(UnexpectedType(args[0], "List")), a.h)
        else EvalEach(s, f - 1, a.h, env, args[1], args[0].items, 0)
  }

  /** The loop of `foreach`, `count` calls made so far: one call per
      element, in order; the first error ends it. */
  function EvalEach(s: Setup, f: nat, h: Heap, env: nat, func: Value, elems: seq<Value>, count: nat): (o: Out<Value>)
    ensures Grows(h, o.h)
    ensures o.r.Ok? ==> o.r.value == Int(Wrap64(count + |elems|))
    decreases f, |elems|
  {
    if elems == [] then Out(Ok(Int(Wrap64(count))), h)
    else if f == 0 then Out(Err(OutOfFuel), h)
    else
      var c := Call(s, f - 1, h, env, func, [elems[0]]);
      match c.r
      case Err(e) => Out(Err(e), c.h)
      case Ok(_) => EvalEach(s, f, c.h, env, func, elems[1..], count + 1)
  }

  // ---------------------------------------------------------------- src/eval/context.rs

  /** `eval_str`: the program is parsed, then its forms run in order and the
      last one's value is the result; a parse error, the first evaluation
      error, or an empty program ends it. */
  function EvalStr(s: Setup, f: nat, h: Heap, env: nat, program: string): (o: Out<Value>)
    ensures Grows(h, o.h)
  {
    match Reader.ParseF(program, s.ops.parseFloat)
    case Err(pe) => Out(Err(ParseFailure(pe)), h)
    case Ok(forms) => EvalBlock(s, f, h, env, forms, None, NoProgram)
  }

  /** `call_named`: the function bound to `name` in `env`, called on
      `args`. */
  function CallNamed(s: Setup, f: nat, h: Heap, env: nat, name: string, args: seq<Value>): (o: Out<Value>)
    ensures Grows(h, o.h)
    ensures Get(h.frames, env, name).None? ==> o == Out(Err(UndefinedName(name)), h)
    ensures Get(h.frames, env, name).Some? ==> o == Call(s, f, h, env, Get(h.frames, env, name).value, args)
  {
    match Get(h.frames, env, name)
    case Some(func) => Call(s, f, h, env, func, args)
    case None => Out(Err(UndefinedName(name)), h)
  }
}
