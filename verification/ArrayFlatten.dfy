/** FlattenIntoArray (internal/engine/builtin_array.go), over arrays that may contain themselves: a depth that the largest
  * 32-bit integer saturates, and a bound on the recursion.
  */
module ArrayFlatten {
  import opened Wrappers

  type Ref = nat

  datatype Value = Leaf(id: int) | Array(ref: Ref)

  /** The slots of each array; None is a hole. */
  type Heap = map<Ref, seq<Option<Value>>>

  datatype Failure = RangeError

  /** Nothing dangles. */
  predicate Closed(h: Heap, v: seq<Option<Value>>) {
    forall i :: 0 <= i < |v| && v[i].Some? && v[i].value.Array? ==> v[i].value.ref in h
  }

  predicate WellFormed(h: Heap) {
    forall r :: r in h ==> Closed(h, h[r])
  }

  // ----- the standard's result for a finite depth -----

  function Flat(h: Heap, v: seq<Option<Value>>, depth: nat): (r: seq<Value>)
    requires WellFormed(h) && Closed(h, v)
    ensures forall i :: 0 <= i < |r| && r[i].Array? ==> r[i].ref in h
    decreases depth, |v|
  {
    if v == [] then []
    else
      var init, last := v[..|v| - 1], v[|v| - 1];
      Flat(h, init, depth) +
      if last.None? then []
      else if last.value.Array? && depth > 0 then Flat(h, h[last.value.ref], depth - 1)
      else [last.value]
  }

  function Filled(xs: seq<Value>): (r: seq<Option<Value>>)
    ensures |r| == |xs| && forall i :: 0 <= i < |xs| ==> r[i] == Some(xs[i])
  {
    seq(|xs|, i requires 0 <= i < |xs| => Some(xs[i]))
  }

  predicate HasArray(xs: seq<Value>) {
    exists i :: 0 <= i < |xs| && xs[i].Array?
  }

  lemma {:induction false} FlatConcat(h: Heap, v: seq<Option<Value>>, w: seq<Option<Value>>, depth: nat)
    requires WellFormed(h) && Closed(h, v) && Closed(h, w)
    ensures Closed(h, v + w) && Flat(h, v + w, depth) == Flat(h, v, depth) + Flat(h, w, depth)
    decreases |w|
  {
    if w == [] {
      assert v + w == v;
    } else {
      assert (v + w)[..|v + w| - 1] == v + w[..|w| - 1];
      FlatConcat(h, v, w[..|w| - 1], depth);
    }
  }

  /** One slot: a hole becomes nothing, a leaf itself, and an array itself or what it holds, one level down.  With FlatConcat
    * that fixes every flattening.
    */
  lemma FlatOneSlot(h: Heap, x: Option<Value>, depth: nat)
    requires WellFormed(h) && (x.Some? && x.value.Array? ==> x.value.ref in h)
    ensures Flat(h, [], depth) == []
    ensures x.None? ==> Flat(h, [x], depth) == []
    ensures x.Some? && (x.value.Leaf? || depth == 0) ==> Flat(h, [x], depth) == [x.value]
    ensures x.Some? && x.value.Array? && depth > 0 ==>
              Closed(h, h[x.value.ref]) && Flat(h, [x], depth) == Flat(h, h[x.value.ref], depth - 1)
  {
    assert [x][..0] == [];
  }

  /** What one slot becomes. */
  function Part(h: Heap, x: Option<Value>, depth: nat): seq<Value>
    requires WellFormed(h) && (x.Some? && x.value.Array? ==> x.value.ref in h)
  {
    if x.None? then []
    else if x.value.Array? && depth > 0 then Flat(h, h[x.value.ref], depth - 1)
    else [x.value]
  }

  lemma FlatSnoc(h: Heap, v: seq<Option<Value>>, depth: nat)
    requires WellFormed(h) && Closed(h, v) && v != []
    ensures Flat(h, v, depth) == Flat(h, v[..|v| - 1], depth) + Part(h, v[|v| - 1], depth)
  {
  }

  lemma PartFits(h: Heap, x: Option<Value>, depth: nat)
    requires WellFormed(h) && (x.Some? && x.value.Array? ==> x.value.ref in h)
    ensures Closed(h, Filled(Part(h, x, depth)))
  {
  }

  lemma FlatFilledConcat(h: Heap, xs: seq<Value>, ys: seq<Value>, e: nat)
    requires WellFormed(h) && Closed(h, Filled(xs)) && Closed(h, Filled(ys))
    ensures Closed(h, Filled(xs + ys)) && Flat(h, Filled(xs + ys), e) == Flat(h, Filled(xs), e) + Flat(h, Filled(ys), e)
  {
    FlatConcat(h, Filled(xs), Filled(ys), e);
    assert Filled(xs + ys) == Filled(xs) + Filled(ys);
  }

  /** Flattening by d and then by e is flattening by d + e. */
  lemma {:induction false} FlatCompose(h: Heap, v: seq<Option<Value>>, d: nat, e: nat)
    requires WellFormed(h) && Closed(h, v)
    ensures Closed(h, Filled(Flat(h, v, d))) && Flat(h, Filled(Flat(h, v, d)), e) == Flat(h, v, d + e)
    decreases d, 2, |v|
  {
    if v != [] {
      var init, last := v[..|v| - 1], v[|v| - 1];
      hide Flat, Part;
      FlatCompose(h, init, d, e);
      PartCompose(h, last, d, e);
      FlatSnoc(h, v, d);
      FlatSnoc(h, v, d + e);
      FlatFilledConcat(h, Flat(h, init, d), Part(h, last, d), e);
    }
  }

  lemma {:induction false} PartCompose(h: Heap, x: Option<Value>, d: nat, e: nat)
    requires WellFormed(h) && (x.Some? && x.value.Array? ==> x.value.ref in h)
    ensures Closed(h, Filled(Part(h, x, d))) && Flat(h, Filled(Part(h, x, d)), e) == Part(h, x, d + e)
    decreases d, 1, 0
  {
    hide Flat, Filled, Closed, WellFormed;
    PartFits(h, x, d);
    if x.None? || !x.value.Array? || d == 0 {
      FlatOfOne(h, x, e);
    } else {
      ArrayFits(h, x.value.ref);
      FlatCompose(h, h[x.value.ref], d - 1, e);
    }
  }

  lemma ArrayFits(h: Heap, r: Ref)
    requires WellFormed(h) && r in h
    ensures Closed(h, h[r])
  {
  }

  /** A slot that is not opened. */
  lemma FlatOfOne(h: Heap, x: Option<Value>, e: nat)
    requires WellFormed(h) && (x.Some? && x.value.Array? ==> x.value.ref in h)
    ensures var v := if x.None? then [] else [x.value];
            Closed(h, Filled(v)) && Flat(h, Filled(v), e) == Part(h, x, e)
    ensures x.None? || !x.value.Array? ==> forall d: nat :: Part(h, x, d) == if x.None? then [] else [x.value]
    ensures x.Some? ==> Part(h, x, 0) == [x.value]
  {
    if x.Some? {
      var one := Filled([x.value]);
      FlatSnoc(h, one, e);
      assert one == [x] && one[..0] == [] && Flat(h, [], e) == [];
      hide Flat;
    }
  }

  lemma {:induction false} FlatOfLeaves(h: Heap, xs: seq<Value>, e: nat)
    requires WellFormed(h) && !HasArray(xs)
    ensures Closed(h, Filled(xs)) && Flat(h, Filled(xs), e) == xs
    decreases |xs|
  {
    if xs != [] {
      var n := |xs| - 1;
      assert Filled(xs)[..n] == Filled(xs[..n]);
      FlatOfLeaves(h, xs[..n], e);
    }
  }

  /** Once no array is left, more depth changes nothing. */
  lemma FlatStable(h: Heap, v: seq<Option<Value>>, d: nat, e: nat)
    requires WellFormed(h) && Closed(h, v) && d <= e && !HasArray(Flat(h, v, d))
    ensures Flat(h, v, e) == Flat(h, v, d)
  {
    hide Flat, HasArray, Filled;
    FlatCompose(h, v, d, e - d);
    FlatOfLeaves(h, Flat(h, v, d), e - d);
  }

  // ----- the code -----

  const SATURATED: nat := 0x7FFF_FFFF

  /** flat's depth argument, after ToIntegerOrInfinity; None is plus infinity. */
  function DepthOf(d: Option<int>): (r: nat)
    ensures r <= SATURATED
    ensures d.None? || d.value >= SATURATED ==> r == SATURATED
    ensures d.Some? && 0 <= d.value < SATURATED ==> r == d.value
    ensures d.Some? && d.value < 0 ==> r == 0
  {
    if d.None? || d.value > SATURATED then SATURATED else if d.value < 0 then 0 else d.value
  }

  function Below(depth: nat): nat
    requires depth > 0
  {
    if depth >= SATURATED then depth else depth - 1
  }

  /** One call, with room for that many nested calls. */
  function Call(h: Heap, v: seq<Option<Value>>, depth: nat, room: nat): (r: Result<seq<Value>, Failure>)
    requires WellFormed(h) && Closed(h, v)
    decreases 2 * room, |v|
  {
    if room == 0 then Err(RangeError) else Walk(h, v, depth, room - 1)
  }

  /** The loop of a call. */
  function Walk(h: Heap, v: seq<Option<Value>>, depth: nat, room: nat): (r: Result<seq<Value>, Failure>)
    requires WellFormed(h) && Closed(h, v)
    decreases 2 * room + 1, |v|
  {
    if v == [] then Ok([])
    else
      var init, last := v[..|v| - 1], v[|v| - 1];
      match Walk(h, init, depth, room)
      case Err(e) => Err(e)
      case Ok(done) =>
        if last.None? then Ok(done)
        else if last.value.Array? && depth > 0 then
          match Call(h, h[last.value.ref], Below(depth), room)
          case Err(e) => Err(e)
          case Ok(inner) => Ok(done + inner)
        else Ok(done + [last.value])
  }

  class Flattener {
    const heap: Heap
    var target: seq<Value>
    var room: nat

    constructor (heap: Heap, room: nat)
      ensures this.heap == heap && target == [] && this.room == room
    {
      this.heap, target, this.room := heap, [], room;
    }

    /** flattenIntoArray: it adds to the target, and leaves the recursion counter as it was on every exit. */
    method FlattenInto(v: seq<Option<Value>>, depth: nat) returns (r: Result<(), Failure>)
      requires WellFormed(heap) && Closed(heap, v)
      modifies this
      ensures room == old(room)
      ensures r.Ok? <==> Call(heap, v, depth, room).Ok?
      ensures r.Ok? ==> target == old(target) + Call(heap, v, depth, room).value
      decreases room
    {
      if room == 0 {
        return Err(RangeError);
      }
      room := room - 1;
      for i := 0 to |v|
        invariant room == old(room) - 1
        invariant Walk(heap, v[..i], depth, room).Ok?
        invariant target == old(target) + Walk(heap, v[..i], depth, room).value
      {
        assert v[..i + 1][..i] == v[..i];
        if v[i].Some? {
          var el := v[i].value;
          if depth > 0 && el.Array? {
            var e := FlattenInto(heap[el.ref], Below(depth));
            if e.Err? {
              WalkFails(heap, v, depth, room, i);
              room := room + 1;
              return e;
            }
          } else {
            target := target + [el];
          }
        }
      }
      assert v[..|v|] == v;
      room := room + 1;
      return Ok(());
    }
  }

  lemma {:induction false} WalkFails(h: Heap, v: seq<Option<Value>>, depth: nat, room: nat, i: nat)
    requires WellFormed(h) && Closed(h, v) && i < |v| && Walk(h, v[..i + 1], depth, room).Err?
    ensures Walk(h, v, depth, room).Err?
    decreases |v|
  {
    if i + 1 < |v| {
      var init := v[..|v| - 1];
      assert init[..i + 1] == v[..i + 1];
      WalkFails(h, init, depth, room, i);
    } else {
      assert v[..i + 1] == v;
    }
  }

  // ----- what it computes -----

  /** A depth below saturation: with as much room, the standard's result. */
  lemma {:induction false} FiniteDepth(h: Heap, v: seq<Option<Value>>, depth: nat, room: nat)
    requires WellFormed(h) && Closed(h, v) && depth < SATURATED && depth <= room
    ensures Walk(h, v, depth, room) == Ok(Flat(h, v, depth))
    decreases depth, |v|
  {
    if v != [] {
      var last := v[|v| - 1];
      FiniteDepth(h, v[..|v| - 1], depth, room);
      FlatSnoc(h, v, depth);
      assert Flat(h, v[..|v| - 1], depth) + [] == Flat(h, v[..|v| - 1], depth);
      if last.Some? && last.value.Array? && depth > 0 {
        FiniteDepth(h, h[last.value.ref], depth - 1, room - 1);
        assert Call(h, h[last.value.ref], Below(depth), room) == Walk(h, h[last.value.ref], depth - 1, room - 1);
      }
    }
  }

  lemma ArrayInConcat(a: seq<Value>, b: seq<Value>)
    ensures HasArray(a + b) <==> HasArray(a) || HasArray(b)
  {
    if i :| 0 <= i < |a| && a[i].Array? {
      assert (a + b)[i].Array?;
    }
    if i :| 0 <= i < |b| && b[i].Array? {
      assert (a + b)[|a| + i].Array?;
    }
  }

  /** flat with any depth and any room: it fails exactly when the room runs out on an array that is still to be opened, and
    * else gives the standard's result.
    */
  lemma AnyDepth(h: Heap, v: seq<Option<Value>>, d: nat, room: nat)
    requires WellFormed(h) && Closed(h, v) && d < SATURATED
    ensures Call(h, v, DepthOf(Some(d)), room).Err? <==> room == 0 || (d >= room && HasArray(Flat(h, v, room - 1)))
    ensures Call(h, v, DepthOf(Some(d)), room).Ok? ==> Call(h, v, DepthOf(Some(d)), room).value == Flat(h, v, d)
  {
    if room > 0 {
      if d < room {
        FiniteDepth(h, v, d, room - 1);
      } else {
        ShortOfRoom(h, v, d, room - 1);
        if !HasArray(Flat(h, v, room - 1)) {
          FlatStable(h, v, room - 1, d);
        }
      }
    }
  }

  /** A depth with less room than levels: it succeeds exactly when the room is enough to leave no array, and then it has
    * flattened everything.
    */
  lemma {:induction false} ShortOfRoom(h: Heap, v: seq<Option<Value>>, depth: nat, room: nat)
    requires WellFormed(h) && Closed(h, v) && (depth > room || depth >= SATURATED)
    ensures Walk(h, v, depth, room).Ok? <==> !HasArray(Flat(h, v, room))
    ensures Walk(h, v, depth, room).Ok? ==> Walk(h, v, depth, room).value == Flat(h, v, room)
    decreases room, |v|
  {
    if v != [] {
      var init, last := v[..|v| - 1], v[|v| - 1];
      ShortOfRoom(h, init, depth, room);
      FlatSnoc(h, v, room);
      ArrayInConcat(Flat(h, init, room), Part(h, last, room));
      if last.Some? && last.value.Array? {
        var w := h[last.value.ref];
        if room > 0 {
          ShortOfRoom(h, w, Below(depth), room - 1);
          assert Call(h, w, Below(depth), room) == Walk(h, w, Below(depth), room - 1);
        } else {
          assert Part(h, last, room)[0].Array?;
          assert Call(h, w, Below(depth), room).Err?;
        }
      } else {
        assert !HasArray(Part(h, last, room));
      }
    }
  }

  /** A saturated depth: it succeeds exactly when the room is enough to leave no array, and then that is the result. */
  lemma SaturatedDepth(h: Heap, v: seq<Option<Value>>, room: nat)
    requires WellFormed(h) && Closed(h, v)
    ensures Walk(h, v, SATURATED, room).Ok? <==> !HasArray(Flat(h, v, room))
    ensures Walk(h, v, SATURATED, room).Ok? ==> Walk(h, v, SATURATED, room).value == Flat(h, v, room)
  {
    ShortOfRoom(h, v, SATURATED, room);
  }

  /** flat(Infinity) in full: it either runs out of room, or gives what every larger depth gives, without an array left. */
  lemma FlatInfinity(h: Heap, v: seq<Option<Value>>, room: nat, more: nat)
    requires WellFormed(h) && Closed(h, v) && more + 1 >= room
    ensures Call(h, v, DepthOf(None), room).Ok? ==>
              Call(h, v, DepthOf(None), room).value == Flat(h, v, more) && !HasArray(Flat(h, v, more))
  {
    if room > 0 {
      SaturatedDepth(h, v, room - 1);
      if !HasArray(Flat(h, v, room - 1)) {
        FlatStable(h, v, room - 1, more);
      }
    }
  }

  lemma {:induction false} FlatKeepsPart(h: Heap, v: seq<Option<Value>>, i: nat, depth: nat)
    requires WellFormed(h) && Closed(h, v) && i < |v| && v[i].Some? && v[i].value.Array?
    requires depth == 0 || HasArray(Flat(h, h[v[i].value.ref], depth - 1))
    ensures HasArray(Flat(h, v, depth))
    decreases |v|
  {
    var init, last := v[..|v| - 1], v[|v| - 1];
    FlatSnoc(h, v, depth);
    ArrayInConcat(Flat(h, init, depth), Part(h, last, depth));
    if i < |v| - 1 {
      FlatKeepsPart(h, init, i, depth);
    } else if depth == 0 {
      assert Part(h, last, depth)[0].Array?;
    }
  }

  lemma {:induction false} LoopKeepsArrays(h: Heap, loop: seq<Ref>, at: seq<nat>, k: nat, depth: nat)
    requires WellFormed(h) && IsLoop(h, loop, at) && k < |loop|
    ensures HasArray(Flat(h, h[loop[k]], depth))
    decreases depth
  {
    if depth > 0 {
      LoopKeepsArrays(h, loop, at, (k + 1) % |loop|, depth - 1);
    }
    FlatKeepsPart(h, h[loop[k]], at[k], depth);
  }

  /** Each array of the loop holds the next one, and the last holds the first. */
  predicate IsLoop(h: Heap, loop: seq<Ref>, at: seq<nat>) {
    && |loop| == |at| > 0
    && forall k :: 0 <= k < |loop| ==>
         && loop[k] in h && at[k] < |h[loop[k]]|
         && h[loop[k]][at[k]] == Some(Array(loop[(k + 1) % |loop|]))
  }

  lemma ArrayLeftFails(h: Heap, v: seq<Option<Value>>, room: nat)
    requires WellFormed(h) && Closed(h, v) && (room > 0 ==> HasArray(Flat(h, v, room - 1)))
    ensures Call(h, v, DepthOf(None), room) == Err(RangeError)
  {
    if room > 0 {
      SaturatedDepth(h, v, room - 1);
      assert Call(h, v, SATURATED, room).error == RangeError;
    }
  }

  /** An array on a cycle cannot be flattened without bound, however much room there is. */
  lemma CyclesAlwaysFail(h: Heap, loop: seq<Ref>, at: seq<nat>, k: nat, room: nat)
    requires WellFormed(h) && IsLoop(h, loop, at) && k < |loop|
    ensures Call(h, h[loop[k]], DepthOf(None), room) == Err(RangeError)
  {
    assert Closed(h, h[loop[k]]);
    if room > 0 {
      LoopKeepsArrays(h, loop, at, k, room - 1);
    }
    ArrayLeftFails(h, h[loop[k]], room);
    hide *;
  }
}
