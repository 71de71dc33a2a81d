/** The shared buffer of `build_list` in src/stdlib/list.rs and its two
    writers, `add` and `add-all`. The buffer is `Some(vector)` while the
    `build_list` call runs and `None` once it has taken the vector. */
module Lists {
  import opened Prelude
  import opened Values

  const AFTER_COMPLETION: string := "build-list `add`er called after completion of build-list."

  /** The elements of the list arguments, in order; other arguments
      contribute nothing. */
  function ListElements(values: seq<Value>): seq<Value>
  {
    if values == [] then []
    else
      var last := values[|values| - 1];
      ListElements(values[..|values| - 1]) + (if last.List? then last.items else [])
  }

  /** `add`: at least one argument (checked first); then, while the buffer is
      open, every argument is pushed in order and the last is returned. */
  function AddResult(buffer: Option<seq<Value>>, values: seq<Value>): (r: (Result<Value, Error>, Option<seq<Value>>))
    ensures values == [] ==> r == (Err(ArityError(0, "at least 1")), buffer)
    ensures values != [] && buffer.None? ==> r == (Err(InvalidState(AFTER_COMPLETION)), None)
    ensures values != [] && buffer.Some? ==> r == (Ok(values[|values| - 1]), Some(buffer.value + values))
  {
    if values == [] then (Err(ArityError(0, "at least 1")), buffer)
    else match buffer
      case None => (Err(InvalidState(AFTER_COMPLETION)), None)
      case Some(v) => (Ok(values[|values| - 1]), Some(v + values))
  }

  /** `add-all`: the same checks; then the elements of every list argument
      are pushed in order, other arguments are skipped, and the last
      argument is returned. */
  function AddAllResult(buffer: Option<seq<Value>>, values: seq<Value>): (r: (Result<Value, Error>, Option<seq<Value>>))
    ensures values == [] ==> r == (Err(ArityError(0, "at least 1")), buffer)
    ensures values != [] && buffer.None? ==> r == (Err(InvalidState(AFTER_COMPLETION)), None)
    ensures values != [] && buffer.Some? ==> r == (Ok(values[|values| - 1]), Some(buffer.value + ListElements(values)))
  {
    if values == [] then (Err(ArityError(0, "at least 1")), buffer)
    else match buffer
      case None => (Err(InvalidState(AFTER_COMPLETION)), None)
      case Some(v) => (Ok(values[|values| - 1]), Some(v + ListElements(values)))
  }

  /** `ListElements` distributes over concatenation: arguments are
      flattened one after the other, non-lists dropped. */
  lemma {:induction false} ListElementsAppend(xs: seq<Value>, ys: seq<Value>)
    ensures ListElements(xs + ys) == ListElements(xs) + ListElements(ys)
    decreases |ys|
  {
    if ys == [] {
      assert xs + ys == xs;
    } else {
      var n := |ys| - 1;
      var zs := xs + ys;
      assert zs[..|zs| - 1] == xs + ys[..n];
      assert zs[|zs| - 1] == ys[n];
      ListElementsAppend(xs, ys[..n]);
    }
  }

  /** `add-all` of one list pushes what `add` of its elements would, and
      `add-all` of a value that is not a list pushes nothing. */
  lemma AddAllFlattens(buffer: seq<Value>, l: seq<Value>, v: Value)
    requires !v.List?
    ensures AddAllResult(Some(buffer), [List(l)]).1 == AddResult(Some(buffer), l).1
    ensures AddAllResult(Some(buffer), [v]).1 == Some(buffer)
  {
    assert ListElements([List(l)]) == l by {
      assert [List(l)][..0] == [];
    }
    assert buffer + [] == buffer;
    assert ListElements([v]) == [] by {
      assert [v][..0] == [];
    }
  }

  /** The vector a `build_list` call accumulates, shared by its writers. */
  class Buffer {
    var vec: Option<seq<Value>>

    /** `Rc::new(RefCell::new(Some(Vec::new())))`. */
    constructor ()
      ensures vec == Some([])
    {
      vec := Some([]);
    }

    /** The `add` writer (`push_individuals`). */
    method PushIndividuals(values: seq<Value>) returns (r: Result<Value, Error>)
      modifies this
      ensures (r, vec) == AddResult(old(vec), values)
    {
      if |values| < 1 {
        return Err(ArityError(|values|, "at least 1"));
      }
      if vec.None? {
        return Err(InvalidState(AFTER_COMPLETION));
      }
      var adder := vec.value;
      var last: Option<Value> := None;
      var i := 0;
      while i < |values|
        invariant i <= |values|
        invariant adder == old(vec).value + values[..i]
        invariant i > 0 ==> last == Some(values[i - 1])
      {
        assert values[..i + 1] == values[..i] + [values[i]];
        adder := adder + [values[i]];
        last := Some(values[i]);
        i := i + 1;
      }
      assert values[..i] == values;
      vec := Some(adder);
      r := Ok(last.value);
    }

    /** The `add-all` writer (`push_list_values`). */
    method PushListValues(values: seq<Value>) returns (r: Result<Value, Error>)
      modifies this
      ensures (r, vec) == AddAllResult(old(vec), values)
    {
      if |values| < 1 {
        return Err(ArityError(|values|, "at least 1"));
      }
      if vec.None? {
        return Err(InvalidState(AFTER_COMPLETION));
      }
      var adder := vec.value;
      var last: Option<Value> := None;
      var i := 0;
      while i < |values|
        invariant i <= |values|
        invariant adder == old(vec).value + ListElements(values[..i])
        invariant i > 0 ==> last == Some(values[i - 1])
      {
        assert values[..i + 1][..i] == values[..i];
        if values[i].List? {
          var list := values[i].items;
          ghost var before := adder;
          var j := 0;
          while j < |list|
            invariant j <= |list|
            invariant adder == before + list[..j]
          {
            assert list[..j + 1] == list[..j] + [list[j]];
            adder := adder + [list[j]];
            j := j + 1;
          }
          assert list[..j] == list;
        }
        last := Some(values[i]);
        i := i + 1;
      }
      assert values[..i] == values;
      vec := Some(adder);
      r := Ok(last.value);
    }

    /** `v.take()`: the vector is handed out and the buffer closed. */
    method Take() returns (v: Option<seq<Value>>)
      modifies this
      ensures v == old(vec) && vec == None
    {
      v := vec;
      vec := None;
    }
  }

  /** A `build_list` run over a fresh buffer: whatever the writers pushed is
      the result, in push order, and empty when nothing was pushed; after
      the take every writer fails. */
  method BuildList(pushes: seq<(bool, seq<Value>)>) returns (result: Value, later: Result<Value, Error>)
    ensures result == List(Pushed([], pushes))
    ensures later == Err(InvalidState(AFTER_COMPLETION))
  {
    var b := new Buffer();
    var i := 0;
    while i < |pushes|
      invariant i <= |pushes|
      invariant b.vec == Some(Pushed([], pushes[..i]))
      modifies b
    {
      assert pushes[..i + 1][..i] == pushes[..i];
      var (all, values) := pushes[i];
      if all {
        var _ := b.PushListValues(values);
      } else {
        var _ := b.PushIndividuals(values);
      }
      i := i + 1;
    }
    assert pushes[..i] == pushes;
    var v := b.Take();
    result := List(v.value);
    later := b.PushIndividuals([Int(0)]);
  }

  /** What a sequence of writer calls pushes: `(true, values)` is an
      `add-all` call and `(false, values)` an `add` call. */
  function Pushed(start: seq<Value>, pushes: seq<(bool, seq<Value>)>): seq<Value>
  {
    if pushes == [] then start
    else
      var (all, values) := pushes[|pushes| - 1];
      var before := Pushed(start, pushes[..|pushes| - 1]);
      (if all then AddAllResult(Some(before), values) else AddResult(Some(before), values)).1.value
  }
}
