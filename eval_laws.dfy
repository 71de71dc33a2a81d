/** What the evaluator promises, stated over the functions of module `Evaluator`:
    self-evaluation and lookup, left-to-right evaluation that stops at the
    first error, the value of a block being its last form's, short-circuit
    logic, `hash-map` against the reader's map literals, `define` and `set`
    against the scope chain, lexical scope of procedure calls, and the
    closing of a `build-list` buffer. */
module EvalLaws {
  import opened Prelude
  import opened Values
  import opened Scope
  import opened Procedures
  import opened Evaluator
  import Reader
  import Lists
  import TokenKinds

  /** The values `eval` returns unchanged. */
  predicate SelfEvaluating(v: Value)
  {
    !v.Ident? && !v.List?
  }

  predicate AllSelfEvaluating(xs: seq<Value>)
  {
    forall i :: 0 <= i < |xs| ==> SelfEvaluating(xs[i])
  }

  /** The booleans `bs` as values. */
  function Bools(bs: seq<bool>): (r: seq<Value>)
    ensures |r| == |bs| && forall i :: 0 <= i < |bs| ==> r[i] == Bool(bs[i])
  {
    seq(|bs|, i requires 0 <= i < |bs| => Bool(bs[i]))
  }

  // ---------------------------------------------------------------- eval

  /** Scalars, functions, maps and options evaluate to themselves; an
      identifier to its visible binding, or `UndefinedName`; the empty list
      is `ExecuteEmptyList`. None of these changes the heap. */
  lemma EvalAtoms(s: Setup, f: nat, h: Heap, env: nat, v: Value, name: string)
    requires f > 0
    ensures SelfEvaluating(v) ==> Eval(s, f, h, env, v) == Out(Ok(v), h)
    ensures Eval(s, f, h, env, Ident(name)) ==
      (match Get(h.frames, env, name)
       case Some(x) => Out(Ok(x), h)
       case None => Out(Err(UndefinedName(name)), h))
    ensures Eval(s, f, h, env, List([])) == Out(Err(ExecuteEmptyList), h)
  {
  }

  /** A head that evaluates to something other than a procedure or a
      foreign function cannot be executed, and no argument is evaluated. */
  lemma UnexecutableHead(s: Setup, f: nat, h: Heap, env: nat, head: Value, rest: seq<Value>)
    requires f >= 2
    requires Eval(s, f - 2, h, env, head).r.Ok?
    requires var x := Eval(s, f - 2, h, env, head).r.value; !x.Lambda? && !x.ForeignFn?
    ensures Eval(s, f, h, env, List([head] + rest)) ==
      Out(Err(UnexecutableValue(Eval(s, f - 2, h, env, head).r.value)), Eval(s, f - 2, h, env, head).h)
  {
    assert ([head] + rest)[0] == head;
    assert ([head] + rest)[1..] == rest;
  }

  /** The result of evaluating `xs`, followed by the evaluation of `ys` in
      the heap it leaves. */
  function ThenArgs(s: Setup, f: nat, env: nat, first: Out<seq<Value>>, ys: seq<Value>): Out<seq<Value>>
  {
    match first.r
    case Err(e) => first
    case Ok(vs) =>
      var second := EvalArgs(s, f, first.h, env, ys);
      match second.r
      case Err(e) => second
      case Ok(ws) => Out(Ok(vs + ws), second.h)
  }

  /** Arguments are evaluated strictly left to right: evaluating `xs + ys`
      is evaluating `xs`, then `ys` in the heap that leaves; when something
      in `xs` fails, nothing in `ys` is evaluated. */
  lemma {:induction false} EvalArgsAppend(s: Setup, f: nat, h: Heap, env: nat, xs: seq<Value>, ys: seq<Value>)
    ensures EvalArgs(s, f, h, env, xs + ys) == ThenArgs(s, f, env, EvalArgs(s, f, h, env, xs), ys)
    decreases |xs|
  {
    if xs == [] {
      assert xs + ys == ys;
      var second := EvalArgs(s, f, h, env, ys);
      if second.r.Ok? {
        assert [] + second.r.value == second.r.value;
      }
    } else if f > 0 {
      assert (xs + ys)[0] == xs[0];
      assert (xs + ys)[1..] == xs[1..] + ys;
      var x := Eval(s, f - 1, h, env, xs[0]);
      if x.r.Ok? {
        EvalArgsAppend(s, f, x.h, env, xs[1..], ys);
        var first := EvalArgs(s, f, x.h, env, xs[1..]);
        if first.r.Ok? {
          var second := EvalArgs(s, f, first.h, env, ys);
          if second.r.Ok? {
            assert [x.r.value] + (first.r.value + second.r.value) == ([x.r.value] + first.r.value) + second.r.value;
          }
        }
      }
    }
  }

  /** Arguments that evaluate to themselves come back as they are, and the
      heap is untouched. */
  lemma {:induction false} EvalArgsOfValues(s: Setup, f: nat, h: Heap, env: nat, xs: seq<Value>)
    requires f >= 2 && AllSelfEvaluating(xs)
    ensures EvalArgs(s, f, h, env, xs) == Out(Ok(xs), h)
    decreases |xs|
  {
    if xs != [] {
      assert SelfEvaluating(xs[0]);
      EvalArgsOfValues(s, f, h, env, xs[1..]);
      assert [xs[0]] + xs[1..] == xs;
    }
  }

  /** `eval` of `(func args..)` with a function value at the head is
      `call(func, args)` when the arguments evaluate to themselves; for a
      foreign function it is so for any arguments, since both hand it the
      arguments as written. */
  lemma EvalOfCall(s: Setup, f: nat, h: Heap, env: nat, func: Value, args: seq<Value>)
    requires f >= 2 && (func.Lambda? || func.ForeignFn?)
    requires func.Lambda? ==> AllSelfEvaluating(args)
    ensures Eval(s, f + 2, h, env, List([func] + args)) == Call(s, f + 1, h, env, func, args)
  {
    assert ([func] + args)[0] == func;
    assert ([func] + args)[1..] == args;
    assert Eval(s, f, h, env, func) == Out(Ok(func), h);
    if func.Lambda? {
      EvalArgsOfValues(s, f, h, env, args);
    }
    assert Eval(s, f + 2, h, env, List([func] + args)) == EvalCall(s, f + 1, h, env, func, args);
  }

  // ---------------------------------------------------------------- blocks

  /** A block of `xs + ys` is the block of `xs`, then `ys` in the heap it
      leaves with its value as the last one so far. */
  lemma {:induction false} EvalBlockAppend(s: Setup, f: nat, h: Heap, env: nat, xs: seq<Value>, ys: seq<Value>, last: Option<Value>, none: Error)
    requires xs != []
    ensures EvalBlock(s, f, h, env, xs + ys, last, none) ==
      (var first := EvalBlock(s, f, h, env, xs, last, none);
       match first.r
       case Err(e) => first
       case Ok(v) => EvalBlock(s, f, first.h, env, ys, Some(v), none))
    decreases |xs|
  {
    if f > 0 {
      assert (xs + ys)[0] == xs[0];
      assert (xs + ys)[1..] == xs[1..] + ys;
      var x := Eval(s, f - 1, h, env, xs[0]);
      if x.r.Ok? && xs[1..] != [] {
        EvalBlockAppend(s, f, x.h, env, xs[1..], ys, Some(x.r.value), none);
      } else if x.r.Ok? {
        assert xs[1..] + ys == ys;
      }
    }
  }

  /** The value of a block is the value of its last form, evaluated after
      all the others. */
  lemma ValueOfLastForm(s: Setup, f: nat, h: Heap, env: nat, xs: seq<Value>, y: Value, none: Error)
    requires f > 0 && xs != []
    requires EvalBlock(s, f, h, env, xs, None, none).r.Ok?
    ensures EvalBlock(s, f, h, env, xs + [y], None, none) == Eval(s, f - 1, EvalBlock(s, f, h, env, xs, None, none).h, env, y)
  {
    EvalBlockAppend(s, f, h, env, xs, [y], None, none);
  }

  /** A blank program is `NoProgram`; a program that does not parse is the
      parse error, and nothing is evaluated. */
  lemma EvalStrOfNothing(s: Setup, f: nat, h: Heap, env: nat, program: string)
    requires forall k :: 0 <= k < |program| ==> TokenKinds.IsWhitespace(program[k])
    ensures EvalStr(s, f, h, env, program) == Out(Err(NoProgram), h)
  {
    Reader.ParseBlank(program, s.ops.parseFloat);
  }

  // ---------------------------------------------------------------- logic

  /** `and` of literal booleans is their conjunction, `or` their
      disjunction, and `xor` whether both a true and a false occur. */
  lemma {:induction false} AndOfBools(s: Setup, f: nat, h: Heap, env: nat, bs: seq<bool>)
    requires f >= 2
    ensures EvalAnd(s, f, h, env, Bools(bs)) == Out(Ok(Bool(forall i :: 0 <= i < |bs| ==> bs[i])), h)
    decreases |bs|
  {
    if bs != [] {
      assert Bools(bs)[1..] == Bools(bs[1..]);
      AndOfBools(s, f, h, env, bs[1..]);
      assert forall i :: 1 <= i < |bs| ==> bs[i] == bs[1..][i - 1];
    }
  }

  lemma {:induction false} OrOfBools(s: Setup, f: nat, h: Heap, env: nat, bs: seq<bool>)
    requires f >= 2
    ensures EvalOr(s, f, h, env, Bools(bs)) == Out(Ok(Bool(exists i :: 0 <= i < |bs| && bs[i])), h)
    decreases |bs|
  {
    if bs != [] {
      assert Bools(bs)[1..] == Bools(bs[1..]);
      OrOfBools(s, f, h, env, bs[1..]);
      assert forall i :: 1 <= i < |bs| ==> bs[i] == bs[1..][i - 1];
    }
  }

  lemma {:induction false} XorOfBools(s: Setup, f: nat, h: Heap, env: nat, bs: seq<bool>, foundTrue: bool, foundFalse: bool)
    requires f >= 2 && !(foundTrue && foundFalse)
    ensures EvalXor(s, f, h, env, Bools(bs), foundTrue, foundFalse) ==
      Out(Ok(Bool((foundTrue || exists i :: 0 <= i < |bs| && bs[i]) && (foundFalse || exists i :: 0 <= i < |bs| && !bs[i]))), h)
    decreases |bs|
  {
    if bs != [] {
      assert Bools(bs)[1..] == Bools(bs[1..]);
      var t := foundTrue || bs[0];
      var u := foundFalse || !bs[0];
      if !(t && u) {
        XorOfBools(s, f, h, env, bs[1..], t, u);
      }
      assert forall i :: 1 <= i < |bs| ==> bs[i] == bs[1..][i - 1];
    }
  }

  /** `and` decides at its first false: evaluating `xs + ys` evaluates `ys`
      only when every argument of `xs` was true. */
  lemma {:induction false} AndAppend(s: Setup, f: nat, h: Heap, env: nat, xs: seq<Value>, ys: seq<Value>)
    ensures EvalAnd(s, f, h, env, xs + ys) ==
      (var first := EvalAnd(s, f, h, env, xs);
       if first.r == Ok(Bool(true)) then EvalAnd(s, f, first.h, env, ys) else first)
    decreases |xs|
  {
    if xs == [] {
      assert xs + ys == ys;
    } else if f > 0 {
      assert (xs + ys)[0] == xs[0];
      assert (xs + ys)[1..] == xs[1..] + ys;
      var x := Eval(s, f - 1, h, env, xs[0]);
      if x.r == Ok(Bool(true)) {
        AndAppend(s, f, x.h, env, xs[1..], ys);
      }
    }
  }

  /** `or` decides at its first true. */
  lemma {:induction false} OrAppend(s: Setup, f: nat, h: Heap, env: nat, xs: seq<Value>, ys: seq<Value>)
    ensures EvalOr(s, f, h, env, xs + ys) ==
      (var first := EvalOr(s, f, h, env, xs);
       if first.r == Ok(Bool(false)) then EvalOr(s, f, first.h, env, ys) else first)
    decreases |xs|
  {
    if xs == [] {
      assert xs + ys == ys;
    } else if f > 0 {
      assert (xs + ys)[0] == xs[0];
      assert (xs + ys)[1..] == xs[1..] + ys;
      var x := Eval(s, f - 1, h, env, xs[0]);
      if x.r == Ok(Bool(false)) {
        OrAppend(s, f, x.h, env, xs[1..], ys);
      }
    }
  }

  /** `xor` decides as soon as both a true and a false have been seen:
      whatever follows is never evaluated. */
  lemma {:induction false} XorDecidesEarly(s: Setup, f: nat, h: Heap, env: nat, bs: seq<bool>, ys: seq<Value>, foundTrue: bool, foundFalse: bool)
    requires f >= 2
    requires foundTrue || exists i :: 0 <= i < |bs| && bs[i]
    requires foundFalse || exists i :: 0 <= i < |bs| && !bs[i]
    requires !(foundTrue && foundFalse)
    ensures EvalXor(s, f, h, env, Bools(bs) + ys, foundTrue, foundFalse) == Out(Ok(Bool(true)), h)
    decreases |bs|
  {
    assert bs != [];
    var xs := Bools(bs) + ys;
    assert xs[0] == Bool(bs[0]);
    assert xs[1..] == Bools(bs[1..]) + ys;
    var t := foundTrue || bs[0];
    var u := foundFalse || !bs[0];
    if !(t && u) {
      assert forall i :: 1 <= i < |bs| ==> bs[i] == bs[1..][i - 1];
      XorDecidesEarly(s, f, h, env, bs[1..], ys, t, u);
    }
  }

  // ---------------------------------------------------------------- cond

  /** `cond` with anything but three arguments is an arity error, before
      anything is evaluated. */
  lemma CondArity(s: Setup, f: nat, h: Heap, env: nat, raw: seq<Value>)
    requires f > 0 && |raw| != 3
    ensures EvalCond(s, f, h, env, raw) == Out(Err(ArityError(|raw|, "exactly 3")), h)
  {
  }

  /** With three arguments the condition is evaluated first; a boolean
      selects one branch, which is evaluated in the heap the condition left,
      and the other branch is never evaluated; any other value is a type
      error naming `Bool`; an error in the condition is the result. */
  lemma CondSelectsBranch(s: Setup, f: nat, h: Heap, env: nat, test: Value, yes: Value, no: Value)
    requires f > 0
    ensures var c := Eval(s, f - 1, h, env, test);
      && (c.r.Err? ==> EvalCond(s, f, h, env, [test, yes, no]) == Out(Err(c.r.error), c.h))
      && (c.r.Ok? && c.r.value.Bool? ==>
            EvalCond(s, f, h, env, [test, yes, no]) == Eval(s, f - 1, c.h, env, if c.r.value.b then yes else no))
      && (c.r.Ok? && !c.r.value.Bool? ==>
            EvalCond(s, f, h, env, [test, yes, no]) == Out(Err(UnexpectedType(c.r.value, "Bool")), c.h))
  {
    var raw3 := [test, yes, no];
    assert raw3[0] == test && raw3[1] == yes && raw3[2] == no;
  }

  /** With a literal condition, `cond` is the selected branch alone. */
  lemma CondOfLiteral(s: Setup, f: nat, h: Heap, env: nat, b: bool, yes: Value, no: Value, other: Value)
    requires f >= 2 && SelfEvaluating(other) && !other.Bool?
    ensures EvalCond(s, f, h, env, [Bool(b), yes, no]) == Eval(s, f - 1, h, env, if b then yes else no)
    ensures EvalCond(s, f, h, env, [other, yes, no]) == Out(Err(UnexpectedType(other, "Bool")), h)
  {
    CondSelectsBranch(s, f, h, env, Bool(b), yes, no);
    CondSelectsBranch(s, f, h, env, other, yes, no);
  }

  // ---------------------------------------------------------------- foreign functions

  /** A free foreign function runs only when all its arguments evaluated:
      when one of `xs` fails, neither the arguments after it (`ys`) nor the
      function's code run, and the call's result and heap are those of the
      failed argument evaluation. */
  lemma FreeFnSkippedOnError(s: Setup, f: nat, h: Heap, env: nat, ff: ForeignFunction, xs: seq<Value>, ys: seq<Value>)
    requires f > 0 && ff.conv.Free?
    requires EvalArgs(s, f - 1, h, env, xs).r.Err?
    ensures var a := EvalArgs(s, f - 1, h, env, xs);
      CallForeign(s, f, h, env, ff, xs + ys) == Out(Err(a.r.error), a.h)
  {
    EvalArgsAppend(s, f - 1, h, env, xs, ys);
  }

  // ---------------------------------------------------------------- foreach

  /** `foreach` calls the function on the elements in order: running over
      `xs + ys` runs over `xs`, then over `ys` in the heap that leaves and
      with the count carried on; an error among `xs` ends it before any
      element of `ys`. */
  lemma {:induction false} EachAppend(s: Setup, f: nat, h: Heap, env: nat, func: Value, xs: seq<Value>, ys: seq<Value>, count: nat)
    ensures EvalEach(s, f, h, env, func, xs + ys, count) ==
      (var first := EvalEach(s, f, h, env, func, xs, count);
       match first.r
       case Err(_) => first
       case Ok(_) => EvalEach(s, f, first.h, env, func, ys, count + |xs|))
    decreases |xs|
  {
    if xs == [] {
      assert xs + ys == ys;
    } else if f > 0 {
      assert (xs + ys)[0] == xs[0];
      assert (xs + ys)[1..] == xs[1..] + ys;
      EachStep(s, f, h, env, func, xs + ys, count);
      EachStep(s, f, h, env, func, xs, count);
      var c := Call(s, f - 1, h, env, func, [xs[0]]);
      if c.r.Ok? {
        EachAppend(s, f, c.h, env, func, xs[1..], ys, count + 1);
      }
    }
  }

  /** One step of the loop: a call on the first element. */
  lemma EachStep(s: Setup, f: nat, h: Heap, env: nat, func: Value, xs: seq<Value>, count: nat)
    requires f > 0 && xs != []
    ensures var c := Call(s, f - 1, h, env, func, [xs[0]]);
      EvalEach(s, f, h, env, func, xs, count) ==
        if c.r.Err? then Out(Err(c.r.error), c.h) else EvalEach(s, f, c.h, env, func, xs[1..], count + 1)
  {
  }

  /** One element: one call, with that element as the only argument; its
      error is the result, otherwise the count goes up by one. */
  lemma EachOne(s: Setup, f: nat, h: Heap, env: nat, func: Value, x: Value, count: nat)
    requires f > 0
    ensures var c := Call(s, f - 1, h, env, func, [x]);
      EvalEach(s, f, h, env, func, [x], count) ==
        if c.r.Err? then Out(Err(c.r.error), c.h) else Out(Ok(Int(Wrap64(count + 1))), c.h)
  {
    var c := Call(s, f - 1, h, env, func, [x]);
    if c.r.Ok? {
      assert [x][1..] == [];
    }
  }

  // ---------------------------------------------------------------- hash-map

  /** Updating a merged map updates its right-hand side. */
  lemma MergeUpdate(a: map<Value, Value>, b: map<Value, Value>, k: Value, v: Value)
    ensures (a + b)[k := v] == a + b[k := v]
  {
  }

  /** Merging with a one-entry map first is updating first. */
  lemma UpdateMerge(m: map<Value, Value>, k: Value, v: Value, t: map<Value, Value>)
    ensures m[k := v] + t == m + (map[k := v] + t)
  {
  }

  /** The map the reader builds for `{k1 v1 k2 v2 ..}`, prefixed by one
      more pair: the later pairs override it. */
  lemma {:induction false} MapOfPairsCons(k: Value, v: Value, ks: seq<Value>, vs: seq<Value>)
    requires |ks| == |vs|
    ensures Reader.MapOfPairs([k] + ks, [v] + vs) == map[k := v] + Reader.MapOfPairs(ks, vs)
    decreases |ks|
  {
    if ks == [] {
      assert [k] + ks == [k] && [v] + vs == [v];
      assert Reader.MapOfPairs([k], [v]) == Reader.MapOfPairs([], [])[k := v];
    } else {
      var n := |ks| - 1;
      var kk, vv := [k] + ks, [v] + vs;
      assert kk[..n + 1] == [k] + ks[..n] && kk[n + 1] == ks[n];
      assert vv[..n + 1] == [v] + vs[..n] && vv[n + 1] == vs[n];
      var front := Reader.MapOfPairs(ks[..n], vs[..n]);
      assert Reader.MapOfPairs(kk, vv) == Reader.MapOfPairs([k] + ks[..n], [v] + vs[..n])[ks[n] := vs[n]];
      MapOfPairsCons(k, v, ks[..n], vs[..n]);
      assert Reader.MapOfPairs(ks, vs) == front[ks[n] := vs[n]];
      MergeUpdate(map[k := v], front, ks[n], vs[n]);
    }
  }

  /** One key and its value, both evaluating to themselves, go into the
      map and nothing else changes. */
  lemma EntriesStep(s: Setup, f: nat, h: Heap, env: nat, raw: seq<Value>, m: map<Value, Value>)
    requires f >= 2 && |raw| >= 2 && SelfEvaluating(raw[0]) && SelfEvaluating(raw[1])
    ensures EvalEntries(s, f, h, env, raw, m, None) == EvalEntries(s, f, h, env, raw[2..], m[raw[0] := raw[1]], None)
  {
    assert Eval(s, f - 1, h, env, raw[0]) == Out(Ok(raw[0]), h);
    assert EvalEntries(s, f, h, env, raw, m, None) == EvalEntries(s, f, h, env, raw[1..], m, Some(raw[0]));
    assert raw[1..][0] == raw[1] && raw[1..][1..] == raw[2..];
    assert Eval(s, f - 1, h, env, raw[1]) == Out(Ok(raw[1]), h);
  }

  /** The first pair of a key/value sequence heads its keys and its
      values. */
  lemma EvensOddsStep(raw: seq<Value>)
    requires |raw| >= 2
    ensures Reader.Evens(raw) == [raw[0]] + Reader.Evens(raw[2..])
    ensures Reader.Odds(raw) == [raw[1]] + Reader.Odds(raw[2..])
  {
  }

  /** With arguments that evaluate to themselves, the loop of `hash-map`
      adds to `m` exactly the map the reader builds from the same pairs. */
  lemma {:induction false} EntriesOfValues(s: Setup, f: nat, h: Heap, env: nat, raw: seq<Value>, m: map<Value, Value>)
    requires f >= 2 && |raw| % 2 == 0 && AllSelfEvaluating(raw)
    ensures EvalEntries(s, f, h, env, raw, m, None) == Out(Ok(Map(m + Reader.MapOfPairs(Reader.Evens(raw), Reader.Odds(raw)))), h)
    decreases |raw|
  {
    if raw == [] {
      assert m + map[] == m;
    } else {
      var rest := raw[2..];
      assert SelfEvaluating(raw[0]) && SelfEvaluating(raw[1]);
      EntriesStep(s, f, h, env, raw, m);
      assert AllSelfEvaluating(rest) by {
        assert forall i :: 0 <= i < |rest| ==> rest[i] == raw[i + 2];
      }
      EntriesOfValues(s, f, h, env, rest, m[raw[0] := raw[1]]);
      EvensOddsStep(raw);
      MapOfPairsCons(raw[0], raw[1], Reader.Evens(rest), Reader.Odds(rest));
      UpdateMerge(m, raw[0], raw[1], Reader.MapOfPairs(Reader.Evens(rest), Reader.Odds(rest)));
    }
  }

  /** `(hash-map k1 v1 ..)` of values that evaluate to themselves is the map
      literal `{k1 v1 ..}`: pairs in order, a later duplicate key winning. */
  lemma HashMapIsMapLiteral(s: Setup, f: nat, h: Heap, env: nat, raw: seq<Value>)
    requires f >= 3 && |raw| % 2 == 0 && AllSelfEvaluating(raw)
    ensures EvalHashMap(s, f, h, env, raw) == Out(Ok(Map(Reader.MapOfPairs(Reader.Evens(raw), Reader.Odds(raw)))), h)
  {
    var literal := Reader.MapOfPairs(Reader.Evens(raw), Reader.Odds(raw));
    var empty: map<Value, Value> := map[];
    assert empty + literal == literal;
    EntriesOfValues(s, f - 1, h, env, raw, empty);
    assert EvalHashMap(s, f, h, env, raw) == EvalEntries(s, f - 1, h, env, raw, empty, None);
  }

  // ---------------------------------------------------------------- define and set

  /** A name stays bound, and the frames a lookup visits stay the same,
      when the heap only grows. */
  lemma {:induction false} OwnerPersists(h: Heap, h': Heap, e: nat, name: string)
    requires Grows(h, h') && Owner(h.frames, e, name).Some?
    ensures Owner(h'.frames, e, name).Some?
    decreases e
  {
    if name !in h.frames[e].bindings {
      assert h.frames[e].bindings.Keys <= h'.frames[e].bindings.Keys;
      if name !in h'.frames[e].bindings {
        assert Parent(h'.frames, e) == Parent(h.frames, e);
        OwnerPersists(h, h', Parent(h.frames, e).value, name);
      }
    }
  }

  /** After a successful `define`, the name is bound to the value in this
      frame, where every lookup from here sees it; no other frame changes
      beyond what evaluating the value did. A name already bound in this
      frame is refused before anything is evaluated. */
  lemma DefineBindsHere(s: Setup, f: nat, h: Heap, env: nat, name: string, value: Value)
    requires f >= 2 && env < |h.frames|
    ensures
      var o := EvalDefine(s, f, h, env, [Ident(name), value]);
      var x := Eval(s, f - 1, h, env, value);
      o.r.Ok? ==>
        && Get(o.h.frames, env, name) == Some(o.r.value)
        && (forall i :: 0 <= i < |x.h.frames| && i != env ==> o.h.frames[i] == x.h.frames[i])
    ensures IsDefinedAtThisLevel(h.frames, env, name) ==>
      EvalDefine(s, f, h, env, [Ident(name), value]) == Out(Err(AlreadyDefined(name)), h)
  {
    var o := EvalDefine(s, f, h, env, [Ident(name), value]);
    if o.r.Ok? {
      var x := Eval(s, f - 1, h, env, value);
      ThisLevelWins(o.h.frames, env, name);
    }
  }

  /** After a successful `set`, every lookup from this environment sees the
      new value; an unbound name is refused before anything is evaluated. */
  lemma SetUpdatesInnermost(s: Setup, f: nat, h: Heap, env: nat, name: string, value: Value)
    requires f >= 2
    ensures
      var o := EvalSet(s, f, h, env, [Ident(name), value]);
      o.r.Ok? ==> Get(o.h.frames, env, name) == Some(o.r.value)
    ensures !IsDefined(h.frames, env, name) ==>
      EvalSet(s, f, h, env, [Ident(name), value]) == Out(Err(UndefinedName(name)), h)
  {
    var o := EvalSet(s, f, h, env, [Ident(name), value]);
    if o.r.Ok? {
      var x := Eval(s, f - 1, h, env, value);
      OwnerIsInnermost(h.frames, env, name);
      OwnerPersists(h, x.h, env, name);
      RebindOwnerVisible(x.h.frames, env, name, o.r.value);
    }
  }

  // ---------------------------------------------------------------- procedures

  /** Lexical scope: in the frame a call pushes, a name is its parameter
      binding if it has one, and otherwise what it is in the environment the
      procedure captured. */
  lemma LambdaBodyScope(h: Heap, fr: Frame, captured: nat, name: string)
    requires fr.parent == Some(captured) && captured < |h.frames|
    ensures Get(Push(h, fr).frames, |h.frames|, name) ==
      (if name in fr.bindings then Some(fr.bindings[name]) else Get(h.frames, captured, name))
  {
    var fs := Push(h, fr).frames;
    assert fs[|h.frames|] == fr;
    assert Parent(fs, |h.frames|) == Some(captured);
    ChainOfExtension(h.frames, fr, captured);
  }

  /** The two ways of binding parameters agree when the call supplies one
      argument per parameter and there is no rest name; with too few
      arguments, src/eval.rs leaves the surplus names unbound where
      src/eval/procedure.rs refuses the call. */
  lemma BindFrameEras(s: Setup, p: Procedure, args: seq<Value>)
    ensures p.params.rest.None? && |args| == |p.params.params| ==>
      BindFrame(s.(zipped := true), p, args) == BindFrame(s.(zipped := false), p, args)
    ensures |args| < |p.params.params| ==>
      BindFrame(s.(zipped := true), p, args).Ok? && BindFrame(s.(zipped := false), p, args).Err?
  {
    if p.params.rest.None? && |args| == |p.params.params| {
      GenEnvAgreesWithZip(p, args);
    }
  }

  // ---------------------------------------------------------------- build-list

  /** Once `build-list` has returned its list, its buffer is taken: the
      writers it handed out refuse every later call. */
  lemma BuildListClosesBuffer(s: Setup, f: nat, h: Heap, env: nat, raw: seq<Value>, id: nat, args: seq<Value>)
    requires EvalBuildList(s, f, h, env, raw).r.Ok?
    requires args != []
    ensures var o := EvalBuildList(s, f, h, env, raw);
      && BufferAt(o.h, |h.buffers|) == None
      && CallNative(s, o.h, id, Add(|h.buffers|), args) == Out(Err(InvalidState(Lists.AFTER_COMPLETION)), o.h)
      && CallNative(s, o.h, id, AddAll(|h.buffers|), args) == Out(Err(InvalidState(Lists.AFTER_COMPLETION)), o.h)
  {
  }

  /** While the buffer is open, `add` appends its arguments and returns the
      last. */
  lemma AddAppends(s: Setup, h: Heap, b: nat, id: nat, args: seq<Value>)
    requires BufferAt(h, b).Some? && args != []
    ensures CallNative(s, h, id, Add(b), args).r == Ok(args[|args| - 1])
    ensures CallNative(s, h, id, Add(b), args).h == StoreBuffer(h, b, Some(BufferAt(h, b).value + args))
  {
  }

  /** While the buffer is open, `add-all` returns its last argument. */
  lemma AddAllReturnsLast(s: Setup, h: Heap, b: nat, id: nat, args: seq<Value>)
    requires BufferAt(h, b).Some? && args != []
    ensures CallNative(s, h, id, AddAll(b), args).r == Ok(args[|args| - 1])
  {
    var pushed := Lists.AddAllResult(BufferAt(h, b), args);
    assert pushed.0 == Ok(args[|args| - 1]);
  }

  /** While the buffer is open, `add-all` appends the elements of its list
      arguments and nothing else. */
  lemma AddAllAppends(s: Setup, h: Heap, b: nat, id: nat, args: seq<Value>)
    requires BufferAt(h, b).Some? && args != []
    ensures CallNative(s, h, id, AddAll(b), args).h == StoreBuffer(h, b, Some(BufferAt(h, b).value + Lists.ListElements(args)))
  {
    var pushed := Lists.AddAllResult(BufferAt(h, b), args);
    assert pushed.1 == Some(BufferAt(h, b).value + Lists.ListElements(args));
    assert CallNative(s, h, id, AddAll(b), args) == Out(pushed.0, StoreBuffer(h, b, pushed.1));
  }
}
