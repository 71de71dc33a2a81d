/** Closures and the binding of their parameters (src/eval/procedure.rs,
    and the earlier `Procedure` of src/eval.rs). A new environment is
    returned as the `Frame` to add to the arena; its parent is the
    environment the procedure captured. */
module Procedures {
  import opened Prelude
  import opened Values
  import opened Scope

  /** `Procedure::new`: `bodiesId` is the identity of the freshly shared body
      vector. */
  function NewProcedure(name: Option<string>, bodies: seq<Value>, bodiesId: nat, params: ParamBinding, env: nat): (p: Procedure)
    ensures p.name == name && p.bodies == bodies && p.params == params && p.env == env
    ensures forall q: Procedure :: ProcEq(p, q) <==> q.bodiesId == bodiesId && q.env == env
  {
    Procedure(name, bodies, bodiesId, params, env)
  }

  /** Two procedures are equal when they share body vector and captured
      environment, whatever their names and parameters; a procedure equals
      its clone. */
  lemma ProcEqIsIdentity(p: Procedure, q: Procedure)
    ensures ProcEq(p, q) <==> p.bodiesId == q.bodiesId && p.env == q.env
    ensures ValueEq(Lambda(p), Lambda(q)) <==> ProcEq(p, q)
    ensures ValueEq(Clone(Lambda(p)), Lambda(p))
  {
  }

  /** Pairs of equal-length sequences collected into a map, in order, so
      that a repeated name keeps its last value. */
  function ZipPairs(names: seq<string>, values: seq<Value>): (b: map<string, Value>)
    requires |names| == |values|
    ensures b.Keys == set i | 0 <= i < |names| :: names[i]
  {
    if names == [] then map[]
    else
      var n := |names| - 1;
      var b0 := ZipPairs(names[..n], values[..n]);
      assert forall i :: 0 <= i < n ==> names[..n][i] == names[i];
      var b := b0[names[n] := values[n]];
      assert b.Keys == (set i | 0 <= i < n :: names[i]) + {names[n]};
      b
  }

  /** A name not repeated later keeps the value paired with it. */
  lemma {:induction false} ZipPairsLastWins(names: seq<string>, values: seq<Value>, i: nat)
    requires |names| == |values| && i < |names| && names[i] !in names[i + 1..]
    ensures ZipPairs(names, values)[names[i]] == values[i]
  {
    var n := |names| - 1;
    if i < n {
      assert names[n] in names[i + 1..];
      assert names[..n][i + 1..] == names[i + 1..n];
      assert names[..n][i] == names[i] && values[..n][i] == values[i];
      ZipPairsLastWins(names[..n], values[..n], i);
    }
  }

  /** `names.zip(values).collect()` into a map: pairs up to the shorter of
      the two. */
  function Zip(names: seq<string>, values: seq<Value>): (b: map<string, Value>)
    ensures b.Keys == set i | 0 <= i < |names| && i < |values| :: names[i]
    ensures forall i :: 0 <= i < |names| && i < |values| && names[i] !in names[i + 1..] ==> b[names[i]] == values[i]
  {
    var m := if |names| < |values| then |names| else |values|;
    var b := ZipPairs(names[..m], values[..m]);
    assert forall i :: 0 <= i < m ==> names[..m][i] == names[i];
    assert (set i | 0 <= i < m :: names[..m][i]) == set i | 0 <= i < |names| && i < |values| :: names[i];
    forall i | 0 <= i < m && names[i] !in names[i + 1..] ensures b[names[i]] == values[i] {
      assert names[..m][i + 1..] == names[i + 1..m];
      assert values[..m][i] == values[i];
      ZipPairsLastWins(names[..m], values[..m], i);
    }
    b
  }

  /** The `expected` text of a failed binding as the source formats it:
      the number in it is the count of arguments supplied, and "exactly "
      already ends in a space before the separating one. */
  function ArityTextAsWritten(hasRest: bool, supplied: nat): string
  {
    (if hasRest then "at least" else "exactly ") + " " + NatToString(supplied)
  }

  /** The text the message evidently means: the number of fixed parameters,
      after a single space. */
  function ArityText(hasRest: bool, required: nat): (s: string)
    ensures s == (if hasRest then "at least " else "exactly ") + NatToString(required)
  {
    (if hasRest then "at least" else "exactly") + " " + NatToString(required)
  }

  /** `Procedure::gen_env` of src/eval/procedure.rs as written. */
  function GenEnvAsWritten(p: Procedure, values: seq<Value>): (r: Result<Frame, Error>)
    ensures r.Err? <==> GenEnv(p, values).Err?
    ensures r.Ok? ==> r == GenEnv(p, values)
    ensures r.Err? ==> r.error == UnexpectedArity(|values| % 0x1_0000, ArityTextAsWritten(p.params.rest.Some?, |values|))
  {
    var n := |p.params.params|;
    if |values| < n then Err(ArityError(|values|, ArityTextAsWritten(p.params.rest.Some?, |values|)))
    else Ok(Frame(Some(p.env), BindParams(p.params, values)))
  }

  /** A procedure of two parameters called with one argument reports
      "exactly  1": two spaces, and the count it was given rather than the
      count it needs. */
  lemma GenEnvMessageAsWritten()
    ensures var p := Procedure(None, [], 0, ParamBinding(["a", "b"], None), 0);
      GenEnvAsWritten(p, [Int(7)]) == Err(UnexpectedArity(1, "exactly  1"))
    ensures var p := Procedure(None, [], 0, ParamBinding(["a", "b"], None), 0);
      GenEnv(p, [Int(7)]) == Err(UnexpectedArity(1, "exactly 2"))
  {
    assert NatToString(1) == "1";
    assert NatToString(2) == "2";
    assert ArityTextAsWritten(false, 1) == "exactly  1";
    assert ArityText(false, 2) == "exactly 2";
  }

  /** The bindings of a successful call: the fixed parameters zipped with
      the leading arguments, then the rest name, if any, bound to a list of
      the remaining arguments (`Vec<Value>`'s `into`, which `FromVecOfValues`
      shows is that list). */
  function BindParams(pb: ParamBinding, values: seq<Value>): map<string, Value>
    requires |pb.params| <= |values|
  {
    var n := |pb.params|;
    var b := Zip(pb.params, values[..n]);
    match pb.rest
    case None => b
    case Some(r) => b[r := List(values[n..])]
  }

  /** `Procedure::gen_env`, with the corrected arity message: too few
      arguments is an `UnexpectedArity` error carrying the count supplied;
      otherwise the new frame, whose parent is the captured environment. */
  function GenEnv(p: Procedure, values: seq<Value>): (r: Result<Frame, Error>)
    ensures r.Err? <==> |values| < |p.params.params|
    ensures r.Err? ==> r.error == UnexpectedArity(|values| % 0x1_0000, ArityText(p.params.rest.Some?, |p.params.params|))
    ensures r.Ok? ==> r.value.parent == Some(p.env)
  {
    var n := |p.params.params|;
    if |values| < n then Err(ArityError(|values|, ArityText(p.params.rest.Some?, n)))
    else Ok(Frame(Some(p.env), BindParams(p.params, values)))
  }

  /** `BindParams` binds exactly the fixed parameters and the rest name. */
  lemma BindParamsKeys(pb: ParamBinding, values: seq<Value>)
    requires |values| >= |pb.params|
    ensures BindParams(pb, values).Keys == (set i | 0 <= i < |pb.params| :: pb.params[i])
                                           + (if pb.rest.Some? then {pb.rest.value} else {})
  {
    var n := |pb.params|;
    var z := Zip(pb.params, values[..n]);
    var names := set i | 0 <= i < n :: pb.params[i];
    forall x ensures x in z.Keys <==> x in names {
      if x in z.Keys {
        var i :| 0 <= i < n && i < |values[..n]| && pb.params[i] == x;
      }
      if x in names {
        var i :| 0 <= i < n && pb.params[i] == x;
        assert i < |values[..n]|;
      }
    }
  }

  /** With distinct names, the i-th parameter is bound to the i-th
      argument. */
  lemma BindParamsInOrder(pb: ParamBinding, values: seq<Value>, i: nat)
    requires |values| >= |pb.params| && i < |pb.params|
    requires forall i, j :: 0 <= i < j < |pb.params| ==> pb.params[i] != pb.params[j]
    requires pb.rest.Some? ==> pb.rest.value !in pb.params
    ensures BindParams(pb, values)[pb.params[i]] == values[i]
  {
    var n := |pb.params|;
    var z := Zip(pb.params, values[..n]);
    assert pb.params[i] !in pb.params[i + 1..] by {
      var later := pb.params[i + 1..];
      forall k | 0 <= k < |later| ensures later[k] != pb.params[i] {
        assert later[k] == pb.params[i + 1 + k];
      }
    }
    assert values[..n][i] == values[i];
    assert z[pb.params[i]] == values[i];
    if pb.rest.Some? {
      assert pb.params[i] != pb.rest.value;
    }
  }

  /** With distinct names, the frame binds exactly the fixed parameters and
      the rest name: the i-th parameter to the i-th argument, and the rest
      name to a list of the arguments after the fixed ones, in order, and
      empty when there are none. */
  lemma GenEnvBindsInOrder(p: Procedure, values: seq<Value>)
    requires |values| >= |p.params.params|
    requires forall i, j :: 0 <= i < j < |p.params.params| ==> p.params.params[i] != p.params.params[j]
    requires p.params.rest.Some? ==> p.params.rest.value !in p.params.params
    ensures GenEnv(p, values).Ok?
    ensures var b := GenEnv(p, values).value.bindings;
      && b.Keys == (set i | 0 <= i < |p.params.params| :: p.params.params[i])
                   + (if p.params.rest.Some? then {p.params.rest.value} else {})
      && (forall i :: 0 <= i < |p.params.params| ==> b[p.params.params[i]] == values[i])
      && (p.params.rest.Some? ==> b[p.params.rest.value] == List(values[|p.params.params|..]))
  {
    BindParamsKeys(p.params, values);
    forall i | 0 <= i < |p.params.params| ensures BindParams(p.params, values)[p.params.params[i]] == values[i] {
      BindParamsInOrder(p.params, values, i);
    }
  }

  /** Without a rest name, surplus arguments are accepted and dropped: the
      frame is the one for exactly as many arguments as parameters. */
  lemma GenEnvIgnoresSurplus(p: Procedure, values: seq<Value>)
    requires p.params.rest.None? && |values| >= |p.params.params|
    ensures GenEnv(p, values) == GenEnv(p, values[..|p.params.params|])
  {
    var n := |p.params.params|;
    assert values[..n][..n] == values[..n];
  }

  /** `Procedure::gen_env` of src/eval.rs: parameter names zipped with the
      arguments, never failing. */
  function ZipEnv(p: Procedure, values: seq<Value>): (f: Frame)
    ensures f.parent == Some(p.env)
  {
    Frame(Some(p.env), Zip(p.params.params, values))
  }

  /** The zip drops whatever does not pair up: surplus arguments, and
      surplus names, which stay unbound in the new frame. */
  lemma ZipEnvDropsSurplus(p: Procedure, values: seq<Value>)
    requires forall i, j :: 0 <= i < j < |p.params.params| ==> p.params.params[i] != p.params.params[j]
    ensures forall i :: 0 <= i < |p.params.params| ==>
      (p.params.params[i] in ZipEnv(p, values).bindings <==> i < |values|)
    ensures forall i :: 0 <= i < |p.params.params| && i < |values| ==>
      ZipEnv(p, values).bindings[p.params.params[i]] == values[i]
  {
    var names := p.params.params;
    var b := ZipEnv(p, values).bindings;
    forall i | 0 <= i < |names| ensures names[i] in b <==> i < |values| {
      if names[i] in b {
        var j :| 0 <= j < |names| && j < |values| && names[j] == names[i];
        assert i == j;
      }
    }
  }

  /** With as many arguments as parameters and no rest name, both versions
      of `gen_env` build the same frame. */
  lemma GenEnvAgreesWithZip(p: Procedure, values: seq<Value>)
    requires p.params.rest.None? && |values| == |p.params.params|
    ensures GenEnv(p, values) == Ok(ZipEnv(p, values))
  {
    assert values[..|values|] == values;
  }
}
