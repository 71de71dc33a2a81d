/** Scope chains (src/eval/environment.rs, and its earlier copy inside
    src/eval.rs).

    An `Env` is a shared, mutable frame with an optional parent. Sharing is
    modelled by an arena: every frame lives at an index of a `seq<Frame>`,
    an environment is such an index, and a parent is the index of an earlier
    frame. The lookups are total: an index outside the arena is an
    environment with nothing in it, and a parent that is not an earlier frame
    (which `WellFormed` arenas never contain) ends the chain. */
module Scope {
  import opened Prelude
  import opened Values

  /** `Environment { parent, bindings }`. */
  datatype Frame = Frame(parent: Option<nat>, bindings: map<string, Value>)

  /** Every parent was created before its child, so chains end. */
  predicate WellFormed(frames: seq<Frame>)
  {
    forall i :: 0 <= i < |frames| && frames[i].parent.Some? ==> frames[i].parent.value < i
  }

  /** The frame a lookup moves on to when `e` does not bind a name. */
  function Parent(frames: seq<Frame>, e: nat): (r: Option<nat>)
    ensures r.Some? ==> r.value < e
    ensures WellFormed(frames) && e < |frames| ==> r == frames[e].parent
  {
    if e < |frames| && frames[e].parent.Some? && frames[e].parent.value < e then frames[e].parent else None
  }

  /** The frames a lookup from `e` visits, innermost first. */
  function Chain(frames: seq<Frame>, e: nat): (c: seq<nat>)
    ensures forall i :: 0 <= i < |c| ==> c[i] < |frames|
    ensures c != [] <==> e < |frames|
    ensures c != [] ==> c[0] == e
    decreases e
  {
    if e >= |frames| then []
    else match Parent(frames, e)
      case None => [e]
      case Some(p) => [e] + Chain(frames, p)
  }

  /** Reference definition of a lookup: the position in chain `c` of the
      first frame that binds `name`. */
  function FirstBinding(frames: seq<Frame>, c: seq<nat>, name: string): (r: Option<nat>)
    requires forall i :: 0 <= i < |c| ==> c[i] < |frames|
    ensures r.Some? ==> r.value < |c| && name in frames[c[r.value]].bindings
    ensures r.Some? ==> forall j :: 0 <= j < r.value ==> name !in frames[c[j]].bindings
    ensures r.None? ==> forall j :: 0 <= j < |c| ==> name !in frames[c[j]].bindings
  {
    if c == [] then None
    else if name in frames[c[0]].bindings then Some(0)
    else match FirstBinding(frames, c[1..], name)
      case None => None
      case Some(k) => Some(k + 1)
  }

  /** The frame holding the binding of `name` that code in `e` sees. */
  function Owner(frames: seq<Frame>, e: nat, name: string): (r: Option<nat>)
    ensures r.Some? ==> r.value < |frames| && name in frames[r.value].bindings
    decreases e
  {
    if e >= |frames| then None
    else if name in frames[e].bindings then Some(e)
    else match Parent(frames, e)
      case None => None
      case Some(p) => Owner(frames, p, name)
  }

  /** The owner is the first frame of the chain that binds the name. */
  lemma {:induction false} OwnerIsInnermost(frames: seq<Frame>, e: nat, name: string)
    ensures Owner(frames, e, name) ==
      (match FirstBinding(frames, Chain(frames, e), name)
       case None => None
       case Some(k) => Some(Chain(frames, e)[k]))
    decreases e
  {
    if e < |frames| && name !in frames[e].bindings {
      var c := Chain(frames, e);
      match Parent(frames, e)
      case None =>
      case Some(p) =>
        OwnerIsInnermost(frames, p, name);
        assert c[1..] == Chain(frames, p);
    }
  }

  /** `Environment::get`: the local binding, else the parent's answer, else
      nothing. */
  function Get(frames: seq<Frame>, e: nat, name: string): (r: Option<Value>)
    ensures r == (match Owner(frames, e, name)
                  case None => None
                  case Some(o) => Some(frames[o].bindings[name]))
    decreases e
  {
    if e >= |frames| then None
    else if name in frames[e].bindings then Some(frames[e].bindings[name])
    else match Parent(frames, e)
      case None => None
      case Some(p) => Get(frames, p, name)
  }

  /** `Environment::with_value`: `f` applied to the visible binding. */
  function WithValue<R>(frames: seq<Frame>, e: nat, name: string, f: Value -> R): (r: Option<R>)
    ensures r.Some? <==> Get(frames, e, name).Some?
    ensures r.Some? ==> r.value == f(Get(frames, e, name).value)
    decreases e
  {
    if e >= |frames| then None
    else if name in frames[e].bindings then Some(f(frames[e].bindings[name]))
    else match Parent(frames, e)
      case None => None
      case Some(p) => WithValue(frames, p, name, f)
  }

  /** `Environment::is_defined`: bound somewhere on the chain. */
  function IsDefined(frames: seq<Frame>, e: nat, name: string): (r: bool)
    ensures r <==> Get(frames, e, name).Some?
    ensures r <==> exists k :: 0 <= k < |Chain(frames, e)| && name in frames[Chain(frames, e)[k]].bindings
  {
    OwnerIsInnermost(frames, e, name);
    WithValue(frames, e, name, (_: Value) => 0).Some?
  }

  /** `Environment::is_defined_at_this_level`: bound in `e`'s own map. */
  predicate IsDefinedAtThisLevel(frames: seq<Frame>, e: nat, name: string)
  {
    e < |frames| && name in frames[e].bindings
  }

  /** A binding at this level is the one every lookup from here sees. */
  lemma ThisLevelWins(frames: seq<Frame>, e: nat, name: string)
    requires IsDefinedAtThisLevel(frames, e, name)
    ensures Get(frames, e, name) == Some(frames[e].bindings[name])
    ensures IsDefined(frames, e, name)
  {
  }

  /** `frames` with `name` bound to `v` in frame `o`: the change made by
      `insert_here` on `o` and by `with_value_mut` on the owner `o`. */
  function Rebind(frames: seq<Frame>, o: nat, name: string, v: Value): (r: seq<Frame>)
    requires o < |frames|
    ensures |r| == |frames|
    ensures r[o].parent == frames[o].parent && r[o].bindings == frames[o].bindings[name := v]
    ensures forall i :: 0 <= i < |frames| && i != o ==> r[i] == frames[i]
  {
    frames[o := Frame(frames[o].parent, frames[o].bindings[name := v])]
  }

  /** Rebinding never changes the shape of any chain. */
  lemma {:induction false} RebindKeepsChains(frames: seq<Frame>, o: nat, name: string, v: Value, e: nat)
    requires o < |frames|
    ensures Chain(Rebind(frames, o, name, v), e) == Chain(frames, e)
    decreases e
  {
    var r := Rebind(frames, o, name, v);
    assert Parent(r, e) == Parent(frames, e);
    if e < |frames| {
      match Parent(frames, e)
      case None =>
      case Some(p) => RebindKeepsChains(frames, o, name, v, p);
    }
  }

  /** Rebinding one name leaves every other name's lookup unchanged, from
      every environment. */
  lemma {:induction false} RebindOtherNames(frames: seq<Frame>, o: nat, name: string, v: Value, e: nat, other: string)
    requires o < |frames| && other != name
    ensures Get(Rebind(frames, o, name, v), e, other) == Get(frames, e, other)
    decreases e
  {
    var r := Rebind(frames, o, name, v);
    assert Parent(r, e) == Parent(frames, e);
    if e < |frames| && other !in frames[e].bindings {
      match Parent(frames, e)
      case None =>
      case Some(p) => RebindOtherNames(frames, o, name, v, p, other);
    }
  }

  /** Rebinding in frame `o` is invisible from environments whose chain does
      not pass through `o`: defining a name in an inner scope shadows, and
      leaves the outer binding as it was. */
  lemma {:induction false} RebindElsewhere(frames: seq<Frame>, o: nat, name: string, v: Value, e: nat)
    requires o < |frames|
    requires forall k :: 0 <= k < |Chain(frames, e)| ==> Chain(frames, e)[k] != o
    ensures Get(Rebind(frames, o, name, v), e, name) == Get(frames, e, name)
    decreases e
  {
    var r := Rebind(frames, o, name, v);
    assert Parent(r, e) == Parent(frames, e);
    if e < |frames| {
      assert Chain(frames, e)[0] == e;
      assert r[e] == frames[e];
    }
    if e < |frames| && name !in frames[e].bindings {
      match Parent(frames, e)
      case None =>
      case Some(p) =>
        assert Chain(frames, p) == Chain(frames, e)[1..];
        RebindElsewhere(frames, o, name, v, p);
    }
  }

  /** Rebinding the owner of a name makes every environment that saw that
      binding see the new value. */
  lemma {:induction false} RebindOwnerVisible(frames: seq<Frame>, e: nat, name: string, v: Value)
    requires Owner(frames, e, name).Some?
    ensures Get(Rebind(frames, Owner(frames, e, name).value, name, v), e, name) == Some(v)
    decreases e
  {
    var o := Owner(frames, e, name).value;
    var r := Rebind(frames, o, name, v);
    assert Parent(r, e) == Parent(frames, e);
    if name !in frames[e].bindings {
      match Parent(frames, e)
      case None =>
      case Some(p) => RebindOwnerVisible(frames, p, name, v);
    }
  }

  /** Rebinding keeps an arena well-formed. */
  lemma WellFormedRebind(frames: seq<Frame>, o: nat, name: string, v: Value)
    requires WellFormed(frames) && o < |frames|
    ensures WellFormed(Rebind(frames, o, name, v))
  {
    var r := Rebind(frames, o, name, v);
    forall i | 0 <= i < |r| && r[i].parent.Some? ensures r[i].parent.value < i {
      assert r[i].parent == frames[i].parent;
    }
  }

  /** Adding a frame whose parent already exists keeps an arena
      well-formed. */
  lemma WellFormedPush(frames: seq<Frame>, parent: Option<nat>, b: map<string, Value>)
    requires WellFormed(frames)
    requires parent.Some? ==> parent.value < |frames|
    ensures WellFormed(frames + [Frame(parent, b)])
  {
  }

  /** `defined_helper`'s step for one frame: each of `b`'s names not yet
      recorded gets this depth and its value; recorded names keep theirs. */
  function AddLevel(acc: map<string, (nat, Value)>, b: map<string, Value>, depth: nat): (r: map<string, (nat, Value)>)
    ensures r.Keys == acc.Keys + b.Keys
    ensures forall k :: k in acc ==> r[k] == acc[k]
    ensures forall k :: k in b && k !in acc ==> r[k] == (depth, b[k])
  {
    map k | k in acc.Keys + b.Keys :: if k in acc then acc[k] else (depth, b[k])
  }

  /** The bindings of `b` outside `todo`: those a loop over `b` that still
      has `todo` to visit has already seen. */
  function Seen(b: map<string, Value>, todo: set<string>): (r: map<string, Value>)
    ensures r.Keys == b.Keys - todo
  {
    map k | k in b && k !in todo :: b[k]
  }

  /** One iteration of `defined_helper`'s loop over a frame's bindings. */
  lemma AddLevelStep(acc: map<string, (nat, Value)>, b: map<string, Value>, depth: nat, todo: set<string>, k: string)
    requires k in todo && todo <= b.Keys
    ensures AddLevel(acc, Seen(b, todo - {k}), depth) ==
      (var r := AddLevel(acc, Seen(b, todo), depth); if k in r then r else r[k := (depth, b[k])])
  {
    var r := AddLevel(acc, Seen(b, todo), depth);
    var r' := if k in r then r else r[k := (depth, b[k])];
    assert AddLevel(acc, Seen(b, todo - {k}), depth).Keys == r'.Keys;
  }

  /** The map `defined_helper` leaves behind when started at `e` with
      `acc` and `depth`. */
  function Defined(frames: seq<Frame>, e: nat, acc: map<string, (nat, Value)>, depth: nat): map<string, (nat, Value)>
    decreases e
  {
    if e >= |frames| then acc
    else
      var acc' := AddLevel(acc, frames[e].bindings, depth);
      match Parent(frames, e)
      case None => acc'
      case Some(p) => Defined(frames, p, acc', depth + 1)
  }

  /** The entry `defined_helper` records for one name, started at `e` with
      `depth`: the depth and value of the first binding on the chain. */
  function Found(frames: seq<Frame>, e: nat, name: string, depth: nat): Option<(nat, Value)>
    decreases e
  {
    if e >= |frames| then None
    else if name in frames[e].bindings then Some((depth, frames[e].bindings[name]))
    else match Parent(frames, e)
      case None => None
      case Some(p) => Found(frames, p, name, depth + 1)
  }

  /** `Defined`, one name at a time: a name already recorded keeps its
      entry, any other gets what `Found` says. */
  lemma {:induction false} DefinedPerName(frames: seq<Frame>, e: nat, acc: map<string, (nat, Value)>, depth: nat, name: string)
    ensures name in acc ==> name in Defined(frames, e, acc, depth) && Defined(frames, e, acc, depth)[name] == acc[name]
    ensures name !in acc ==> (name in Defined(frames, e, acc, depth) <==> Found(frames, e, name, depth).Some?)
    ensures name !in acc && name in Defined(frames, e, acc, depth) ==> Defined(frames, e, acc, depth)[name] == Found(frames, e, name, depth).value
    decreases e
  {
    if e < |frames| {
      var acc' := AddLevel(acc, frames[e].bindings, depth);
      match Parent(frames, e)
      case None =>
      case Some(p) => DefinedPerName(frames, p, acc', depth + 1, name);
    }
  }

  /** `Found` reports the binding a lookup sees, and only when there is
      one. */
  lemma {:induction false} FoundIsVisible(frames: seq<Frame>, e: nat, name: string, depth: nat)
    ensures Found(frames, e, name, depth).Some? <==> Get(frames, e, name).Some?
    ensures Found(frames, e, name, depth).Some? ==> Found(frames, e, name, depth).value.1 == Get(frames, e, name).value
    decreases e
  {
    if e < |frames| && name !in frames[e].bindings {
      match Parent(frames, e)
      case None =>
      case Some(p) => FoundIsVisible(frames, p, name, depth + 1);
    }
  }

  /** `Found`'s depth is the position of the binding frame on the chain,
      counted from the starting depth. */
  lemma {:induction false} FoundDepth(frames: seq<Frame>, e: nat, name: string, depth: nat)
    ensures Found(frames, e, name, depth).Some? ==>
      FirstBinding(frames, Chain(frames, e), name).Some? &&
      Found(frames, e, name, depth).value.0 == depth + FirstBinding(frames, Chain(frames, e), name).value
    decreases e
  {
    if e < |frames| {
      var c := Chain(frames, e);
      if name in frames[e].bindings {
        assert FirstBinding(frames, c, name) == Some(0);
      } else {
        match Parent(frames, e)
        case None =>
        case Some(p) =>
          FoundDepth(frames, p, name, depth + 1);
          assert c[1..] == Chain(frames, p);
      }
    }
  }

  /** What `all_defined` promises: exactly the visible names, each with the
      depth of its innermost binding (0 for this level) and its value. */
  lemma AllDefinedIsInnermost(frames: seq<Frame>, e: nat, name: string)
    ensures name in Defined(frames, e, map[], 0) <==> Get(frames, e, name).Some?
    ensures name in Defined(frames, e, map[], 0) ==>
      FirstBinding(frames, Chain(frames, e), name).Some? &&
      Defined(frames, e, map[], 0)[name].0 == FirstBinding(frames, Chain(frames, e), name).value &&
      Defined(frames, e, map[], 0)[name].1 == Get(frames, e, name).value
  {
    DefinedPerName(frames, e, map[], 0, name);
    FoundIsVisible(frames, e, name, 0);
    FoundDepth(frames, e, name, 0);
  }

  /** The environments of one interpreter: the arena, updated in place. */
  class Arena {
    var frames: seq<Frame>

    ghost predicate Valid()
      reads this
    {
      WellFormed(frames)
    }

    constructor ()
      ensures Valid() && frames == []
    {
      frames := [];
    }

    /** `Environment::new`: a root frame with no bindings. */
    method New() returns (e: nat)
      requires Valid()
      modifies this
      ensures Valid()
      ensures e == |old(frames)| && frames == old(frames) + [Frame(None, map[])]
    {
      e := |frames|;
      frames := frames + [Frame(None, map[])];
      WellFormedPush(old(frames), None, map[]);
    }

    /** `Environment::new_with_data`: a frame with exactly this parent and
        these bindings. */
    method NewWithData(parent: nat, bindings: map<string, Value>) returns (e: nat)
      requires Valid() && parent < |frames|
      modifies this
      ensures Valid()
      ensures e == |old(frames)| && frames == old(frames) + [Frame(Some(parent), bindings)]
      ensures Chain(frames, e) == [e] + Chain(old(frames), parent)
    {
      e := |frames|;
      frames := frames + [Frame(Some(parent), bindings)];
      WellFormedPush(old(frames), Some(parent), bindings);
      ChainOfExtension(old(frames), Frame(Some(parent), bindings), parent);
    }

    /** `Environment::insert_here` (and `insert` of src/eval.rs): binds
        `name` in `e` itself and returns the binding it replaced there. */
    method InsertHere(e: nat, name: string, v: Value) returns (prev: Option<Value>)
      requires Valid() && e < |frames|
      modifies this
      ensures Valid()
      ensures frames == Rebind(old(frames), e, name, v)
      ensures prev == (if name in old(frames)[e].bindings then Some(old(frames)[e].bindings[name]) else None)
    {
      prev := if name in frames[e].bindings then Some(frames[e].bindings[name]) else None;
      WellFormedRebind(frames, e, name, v);
      frames := Rebind(frames, e, name, v);
    }

    /** `set_function` and `set_uneval_function` of src/eval.rs: binds
        `name` in `e` to a foreign function of that name, whose closure has
        identity `id`. */
    method SetFunction(e: nat, name: string, id: nat, conv: Convention)
      requires Valid() && e < |frames|
      modifies this
      ensures Valid()
      ensures frames == Rebind(old(frames), e, name, ForeignFn(ForeignFunction(name, id, conv)))
    {
      var _ := InsertHere(e, name, ForeignFn(ForeignFunction(name, id, conv)));
    }

    /** `Environment::with_value_mut`: `f` reads the innermost binding of
        `name` and gives its replacement and a result; nothing changes and
        the answer is None when `name` is bound nowhere on the chain. */
    method WithValueMut<R>(e: nat, name: string, f: Value -> (Value, R)) returns (r: Option<R>)
      requires Valid()
      modifies this
      ensures Valid()
      ensures Owner(old(frames), e, name).None? ==> r.None? && frames == old(frames)
      ensures Owner(old(frames), e, name).Some? ==>
        var o := Owner(old(frames), e, name).value;
        var out := f(old(frames)[o].bindings[name]);
        r == Some(out.1) && frames == Rebind(old(frames), o, name, out.0)
      decreases e
    {
      if e >= |frames| {
        r := None;
      } else if name in frames[e].bindings {
        var out := f(frames[e].bindings[name]);
        WellFormedRebind(frames, e, name, out.0);
        frames := Rebind(frames, e, name, out.0);
        r := Some(out.1);
      } else {
        match Parent(frames, e)
        case None => r := None;
        case Some(p) => r := WithValueMut(p, name, f);
      }
    }

    /** `defined_helper`: records, into `values`, each binding of `e` whose
        name is not yet there, then continues with the parent one level
        deeper. */
    method DefinedHelper(e: nat, values: map<string, (nat, Value)>, depth: nat) returns (r: map<string, (nat, Value)>)
      ensures r == Defined(frames, e, values, depth)
      decreases e
    {
      if e >= |frames| {
        return values;
      }
      var b := frames[e].bindings;
      var todo := b.Keys;
      r := values;
      assert Seen(b, todo) == map[];
      while todo != {}
        invariant todo <= b.Keys
        invariant r == AddLevel(values, Seen(b, todo), depth)
        decreases |todo|
      {
        var k :| k in todo;
        AddLevelStep(values, b, depth, todo, k);
        if k !in r {
          r := r[k := (depth, b[k])];
        }
        todo := todo - {k};
      }
      assert Seen(b, todo) == b;
      match Parent(frames, e)
      case None =>
      case Some(p) =>
        r := DefinedHelper(p, r, depth + 1);
    }

    /** `Environment::all_defined`. */
    method AllDefined(e: nat) returns (r: map<string, (nat, Value)>)
      ensures r == Defined(frames, e, map[], 0)
      ensures forall name :: name in r <==> Get(frames, e, name).Some?
    {
      r := DefinedHelper(e, map[], 0);
      forall name ensures name in r <==> Get(frames, e, name).Some? {
        AllDefinedIsInnermost(frames, e, name);
      }
    }
  }

  /** Appending a frame leaves the chains of the existing frames alone. */
  lemma {:induction false} ChainOfExtension(frames: seq<Frame>, f: Frame, e: nat)
    requires e < |frames|
    ensures Chain(frames + [f], e) == Chain(frames, e)
    ensures forall name :: Get(frames + [f], e, name) == Get(frames, e, name)
    decreases e
  {
    var ext := frames + [f];
    assert Parent(ext, e) == Parent(frames, e);
    match Parent(frames, e)
    case None =>
    case Some(p) => ChainOfExtension(frames, f, p);
  }
}
