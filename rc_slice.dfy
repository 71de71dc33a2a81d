/** `RcSlice` (src/util/mod.rs): a view `start .. start + len` into a shared
    vector. `dataId` is the identity of the shared vector. */
module RcSlices {
  import opened Values

  datatype RcSlice = RcSlice(data: seq<Value>, dataId: nat, start: nat, len: nat)

  /** The view lies inside its vector (otherwise `get_slice` panics). */
  predicate InBounds(s: RcSlice)
  {
    s.start + s.len <= |s.data|
  }

  /** `RcSlice::new`: a view of the whole of a fresh vector with identity
      `id`. */
  function New(v: seq<Value>, id: nat): (s: RcSlice)
    ensures InBounds(s) && s.start == 0 && s.len == |v| && GetSlice(s) == v
  {
    RcSlice(v, id, 0, |v|)
  }

  /** `RcSlice::empty`. */
  function Empty(id: nat): (s: RcSlice)
    ensures InBounds(s) && IsEmpty(s) && GetSlice(s) == []
  {
    New([], id)
  }

  /** `len`. */
  function Len(s: RcSlice): nat { s.len }

  /** `is_empty`. */
  function IsEmpty(s: RcSlice): (b: bool)
    ensures b <==> Len(s) == 0
  {
    s.len == 0
  }

  /** `get_slice`: the viewed elements. */
  function GetSlice(s: RcSlice): (v: seq<Value>)
    requires InBounds(s)
    ensures |v| == Len(s)
    ensures forall i :: 0 <= i < |v| ==> v[i] == s.data[s.start + i]
  {
    s.data[s.start..s.start + s.len]
  }

  /** `slice` as written: `from` is taken as an absolute index into the
      vector rather than an offset from this view's start. */
  function SliceAsWritten(s: RcSlice, from: nat, to: nat): (r: RcSlice)
    requires from <= to
    ensures r.data == s.data && r.dataId == s.dataId && r.start == from && r.len == to - from
  {
    RcSlice(s.data, s.dataId, from, to - from)
  }

  /** `tail` as written. */
  function TailAsWritten(s: RcSlice): RcSlice
    requires s.len >= 1
  {
    SliceAsWritten(s, 1, s.len)
  }

  /** The tail of a tail starts again at index 1: for [1, 2, 3] it views
      [2] rather than [3]. */
  lemma TailOfTailAsWritten()
    ensures var s := New([Int(1), Int(2), Int(3)], 0);
      var t := TailAsWritten(TailAsWritten(s));
      InBounds(t) && GetSlice(t) == [Int(2)]
  {
  }

  /** `init` as written: the view always restarts at index 0 of the vector. */
  function InitAsWritten(s: RcSlice): (r: RcSlice)
    requires s.len >= 1
    ensures r.start == 0 && r.len == s.len - 1 && r.data == s.data
  {
    SliceAsWritten(s, 0, s.len - 1)
  }

  /** The init of a tail restarts at the vector's front: for [1, 2, 3] the
      tail views [2, 3], and its init views [1] rather than [2]. */
  lemma InitOfTailAsWritten()
    ensures var t := TailAsWritten(New([Int(1), Int(2), Int(3)], 0));
      InBounds(t) && GetSlice(t) == [Int(2), Int(3)]
      && InBounds(InitAsWritten(t)) && GetSlice(InitAsWritten(t)) == [Int(1)]
  {
    var t := TailAsWritten(New([Int(1), Int(2), Int(3)], 0));
    assert GetSlice(t) == [Int(2), Int(3)];
  }

  /** `slice`, with `from` and `to` taken relative to this view. */
  function Slice(s: RcSlice, from: nat, to: nat): (r: RcSlice)
    requires from <= to
    ensures r.data == s.data && r.dataId == s.dataId && r.len == to - from
    ensures InBounds(s) && to <= s.len ==> InBounds(r) && GetSlice(r) == GetSlice(s)[from..to]
  {
    RcSlice(s.data, s.dataId, s.start + from, to - from)
  }

  /** `tail`: the view without its first element. */
  function Tail(s: RcSlice): (r: RcSlice)
    requires s.len >= 1
    ensures Len(r) == Len(s) - 1
    ensures InBounds(s) ==> InBounds(r) && GetSlice(r) == GetSlice(s)[1..]
  {
    Slice(s, 1, s.len)
  }

  /** `init`: the view without its last element. */
  function Init(s: RcSlice): (r: RcSlice)
    requires s.len >= 1
    ensures Len(r) == Len(s) - 1
    ensures InBounds(s) ==> InBounds(r) && GetSlice(r) == GetSlice(s)[..s.len - 1]
  {
    Slice(s, 0, s.len - 1)
  }

  /** The corrected `init` keeps the view's start: the init of the tail of
      [1, 2, 3] views [2]. */
  lemma InitOfTail()
    ensures var t := Tail(New([Int(1), Int(2), Int(3)], 0));
      InBounds(Init(t)) && GetSlice(Init(t)) == [Int(2)]
  {
    var s := New([Int(1), Int(2), Int(3)], 0);
    assert GetSlice(Tail(s)) == [Int(2), Int(3)];
  }

  /** Tails compose: dropping one element twice drops two. */
  lemma TailOfTail(s: RcSlice)
    requires InBounds(s) && s.len >= 2
    ensures GetSlice(Tail(Tail(s))) == GetSlice(s)[2..]
  {
  }

  /** `add`: a fresh vector (identity `id`) holding a copy of the WHOLE
      shared vector, not only this view, followed by `v`. */
  function Add(s: RcSlice, v: Value, id: nat): (r: RcSlice)
    ensures InBounds(r) && r.start == 0 && GetSlice(r) == s.data + [v]
  {
    New(s.data + [v], id)
  }

  /** `add_all`: as `add`, with every value of `vs` appended in order. */
  function AddAll(s: RcSlice, vs: seq<Value>, id: nat): (r: RcSlice)
    ensures InBounds(r) && r.start == 0 && GetSlice(r) == s.data + vs
  {
    New(s.data + vs, id)
  }

  /** On a whole-vector view, `add` is appending to the view. */
  lemma AddExtendsWholeView(v: seq<Value>, x: Value, id: nat, id2: nat)
    ensures GetSlice(Add(New(v, id), x, id2)) == GetSlice(New(v, id)) + [x]
  {
  }

  /** `PartialEq` as written: the shortcut compares the vector's identity
      with itself, so equal length and equal start already suffice. */
  predicate EqAsWritten(a: RcSlice, b: RcSlice)
    requires InBounds(a) && InBounds(b)
  {
    a.len == b.len && ((a.dataId == a.dataId && a.start == b.start) || ValueEq(List(GetSlice(a)), List(GetSlice(b))))
  }

  /** Two whole views of different one-element vectors, [1] and [2], compare
      equal. */
  lemma EqAsWrittenIgnoresContents()
    ensures EqAsWritten(New([Int(1)], 0), New([Int(2)], 1))
    ensures !ValueEq(List(GetSlice(New([Int(1)], 0))), List(GetSlice(New([Int(2)], 1))))
  {
    var xs, ys := GetSlice(New([Int(1)], 0)), GetSlice(New([Int(2)], 1));
    assert !ValueEq(xs[0], ys[0]);
  }

  /** `PartialEq`, with the shortcut taken only for views of the same
      vector at the same start. */
  predicate Eq(a: RcSlice, b: RcSlice)
    requires InBounds(a) && InBounds(b)
  {
    a.len == b.len && ((a.dataId == b.dataId && a.start == b.start) || ValueEq(List(GetSlice(a)), List(GetSlice(b))))
  }

  /** When the same identity means the same vector and no NaN is in view,
      two slices are equal exactly when their viewed elements are equal. */
  lemma EqIsElementwise(a: RcSlice, b: RcSlice)
    requires InBounds(a) && InBounds(b)
    requires a.dataId == b.dataId ==> a.data == b.data
    requires !HasNaN(List(GetSlice(a)))
    ensures Eq(a, b) <==> ValueEq(List(GetSlice(a)), List(GetSlice(b)))
  {
    if a.len == b.len && a.dataId == b.dataId && a.start == b.start {
      assert GetSlice(a) == GetSlice(b);
      ValueEqReflexive(List(GetSlice(a)));
    }
  }
}
