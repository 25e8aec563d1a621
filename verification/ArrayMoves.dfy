/** The in-place methods of Array.prototype that move elements over overlapping ranges
  * (internal/engine/builtin_array.go), on an ordinary object with indexed properties and a length.  An index
  * that is not a key is a hole, and holes move like elements.
  */
module ArrayMoves {
  import opened Wrappers

  datatype JsValue = Undefined | Other(id: int)

  /** A hole, or an element. */
  type Slot = Option<JsValue>

  datatype Failure = TypeError

  /** An argument after ToIntegerOrInfinity. */
  datatype Integral = NegInfinity | Finite(n: int) | PosInfinity

  const MAX_LENGTH: int := 9007199254740991

  /** relativeIndexE, on a coerced argument; a missing or undefined argument is Finite(0). */
  function RelativeIndex(d: Integral, n: nat): (r: nat)
    ensures r <= n
    ensures d.NegInfinity? ==> r == 0
    ensures d.PosInfinity? ==> r == n
    ensures d.Finite? && 0 <= d.n <= n ==> r == d.n
    ensures d.Finite? && -(n as int) <= d.n < 0 ==> r == n + d.n
    ensures d.Finite? && d.n < -(n as int) ==> r == 0
    ensures d.Finite? && d.n > n ==> r == n
  {
    match d
    case NegInfinity => 0
    case PosInfinity => n
    case Finite(k) =>
      if k < 0 then (if k + n <= 0 then 0 else k + n)
      else if k >= n then n else k
  }

  function At(m: map<nat, JsValue>, i: nat): Slot {
    if i in m then Some(m[i]) else None
  }

  function Slots(m: map<nat, JsValue>, n: nat): (r: seq<Slot>)
    ensures |r| == n
  {
    seq(n, i requires 0 <= i < n => At(m, i))
  }

  function Filled(items: seq<JsValue>): (r: seq<Slot>)
    ensures |r| == |items|
  {
    seq(|items|, i requires 0 <= i < |items| => Some(items[i]))
  }

  // ----- what the methods compute -----

  function Spliced(v: seq<Slot>, start: nat, del: nat, items: seq<Slot>): seq<Slot>
    requires start + del <= |v|
  {
    v[..start] + items + v[start + del..]
  }

  /** All elements move at once. */
  function Copied(v: seq<Slot>, to: nat, from: nat, count: int): (r: seq<Slot>)
    requires count > 0 ==> to + count <= |v| && from + count <= |v|
    ensures |r| == |v|
  {
    seq(|v|, i requires 0 <= i < |v| => if to <= i < to + count then v[from + (i - to)] else v[i])
  }

  function Reversed(v: seq<Slot>): (r: seq<Slot>)
    ensures |r| == |v|
  {
    seq(|v|, i requires 0 <= i < |v| => v[|v| - 1 - i])
  }

  // ----- properties -----

  /** The slot at i comes from as far from the other end, holes included. */
  lemma ReversedAt(v: seq<Slot>, i: nat)
    requires i < |v|
    ensures Reversed(v)[i] == v[|v| - 1 - i]
  {
  }

  /** Where each slot comes from. */
  lemma SplicedAt(v: seq<Slot>, start: nat, del: nat, items: seq<Slot>, i: nat)
    requires start + del <= |v| && i < |v| - del + |items|
    ensures |Spliced(v, start, del, items)| == |v| - del + |items|
    ensures Spliced(v, start, del, items)[i] ==
            if i < start then v[i] else if i < start + |items| then items[i - start] else v[i - |items| + del]
  {
  }

  lemma ReverseTwice(v: seq<Slot>)
    ensures Reversed(Reversed(v)) == v
  {
  }

  /** The keys after a splice, index by index, read off as slots. */
  lemma SplicedSlots(was: map<nat, JsValue>, now: map<nat, JsValue>, n: nat, s: nat, d: nat, items: seq<JsValue>)
    requires s + d <= n
    requires forall j: nat {:trigger At(now, j)} | j < n - d + |items| ::
               At(now, j) == (if s <= j < s + |items| then Some(items[j - s])
                              else if s + |items| <= j then At(was, j - |items| + d) else At(was, j))
    ensures Slots(now, n - d + |items|) == Spliced(Slots(was, n), s, d, Filled(items))
  {
    var v := Slots(was, n);
    var r := Spliced(v, s, d, Filled(items));
    forall j | 0 <= j < |r|
      ensures r[j] == At(now, j)
    {
      if s + |items| <= j {
        assert r[j] == v[s + d..][j - s - |items|];
      }
    }
  }

  /** The slots from s + d on have moved to s + k on, and the length ends there. */
  ghost predicate TailMoved(was: map<nat, JsValue>, now: map<nat, JsValue>, s: nat, d: nat, k: nat, n: nat) {
    forall j: nat {:trigger At(now, j)} :: At(now, j) ==
      (if s + k <= j < n - d + k then At(was, j - k + d) else if n - d + k <= j < n then None else At(was, j))
  }

  ghost predicate ItemsPut(was: map<nat, JsValue>, now: map<nat, JsValue>, s: nat, items: seq<JsValue>) {
    forall j: nat {:trigger At(now, j)} :: At(now, j) == (if s <= j < s + |items| then Some(items[j - s]) else At(was, j))
  }

  /** The tail moved and then the items put in make the splice. */
  lemma MovedThenPut(was: map<nat, JsValue>, moved: map<nat, JsValue>, now: map<nat, JsValue>, n: nat, s: nat, d: nat,
                     items: seq<JsValue>)
    requires s + d <= n && TailMoved(was, moved, s, d, |items|, n) && ItemsPut(moved, now, s, items)
    ensures Slots(now, n - d + |items|) == Spliced(Slots(was, n), s, d, Filled(items))
    ensures forall j: nat {:trigger At(now, j)} | n - d + |items| <= j < n :: At(now, j) == None
    ensures forall j: nat {:trigger At(now, j)} | n - d + |items| <= j && n <= j :: At(now, j) == At(was, j)
  {
    hide At;
    SplicedSlots(was, now, n, s, d, items);
  }

  lemma CopiedSlots(was: map<nat, JsValue>, now: map<nat, JsValue>, n: nat, t: nat, f: nat, count: int)
    requires count > 0 ==> t + count <= n && f + count <= n
    requires forall j: nat {:trigger At(now, j)} :: At(now, j) == (if t <= j < t + count then At(was, f + (j - t)) else At(was, j))
    ensures Slots(now, n) == Copied(Slots(was, n), t, f, count)
  {
  }

  /** Putting back what a splice removed, where it was removed from, undoes it. */
  lemma SpliceUndone(v: seq<Slot>, start: nat, del: nat, items: seq<Slot>)
    requires start + del <= |v|
    ensures Spliced(Spliced(v, start, del, items), start, |items|, v[start..start + del]) == v
  {
    var w := Spliced(v, start, del, items);
    assert w[..start] == v[..start];
    assert w[start + |items|..] == v[start + del..];
  }

  /** copyWithin is a splice of the copied range over the target, read before anything is written. */
  lemma CopyIsSplice(v: seq<Slot>, to: nat, from: nat, count: nat)
    requires to + count <= |v| && from + count <= |v|
    ensures Copied(v, to, from, count) == Spliced(v, to, count, v[from..from + count])
  {
  }

  // ----- the methods -----

  class ArrayLike {
    var elems: map<nat, JsValue>
    var length: nat

    function View(): seq<Slot>
      reads this
    {
      Slots(elems, length)
    }

    constructor (elems: map<nat, JsValue>, length: nat)
      ensures this.elems == elems && this.length == length
    {
      this.elems, this.length := elems, length;
    }

    method Set(i: nat, v: JsValue)
      modifies `elems
      ensures forall j: nat {:trigger At(elems, j)} :: At(elems, j) == (if j == i then Some(v) else At(old(elems), j))
    {
      elems := elems[i := v];
    }

    method Delete(i: nat)
      modifies `elems
      ensures forall j: nat {:trigger At(elems, j)} :: At(elems, j) == (if j == i then None else At(old(elems), j))
    {
      elems := elems - {i};
    }

    /** HasProperty and Get at one index, then Set or Delete at another. */
    method Move(from: nat, to: nat)
      modifies `elems
      ensures forall j: nat {:trigger At(elems, j)} :: At(elems, j) == (if j == to then At(old(elems), from) else At(old(elems), j))
    {
      if from in elems {
        Set(to, elems[from]);
      } else {
        Delete(to);
      }
    }

    /** splice's loops when it removes more than it inserts: the tail moves down, and the end is deleted. */
    method CloseGap(s: nat, d: nat, k: nat, n: nat)
      requires k < d && s + d <= n
      modifies `elems
      ensures forall j: nat {:trigger At(elems, j)} :: At(elems, j) ==
                (if s + k <= j < n - d + k then At(old(elems), j - k + d) else if n - d + k <= j < n then None else At(old(elems), j))
    {
      ghost var was := elems;
      for i := s to n - d
        invariant forall j: nat {:trigger At(elems, j)} :: At(elems, j) == (if s + k <= j < i + k then At(was, j - k + d) else At(was, j))
      {
        Move(i + d, i + k);
      }
      ghost var moved := elems;
      for i := n downto n - d + k
        invariant forall j: nat {:trigger At(elems, j)} :: At(elems, j) == (if i <= j < n then None else At(moved, j))
      {
        Delete(i);
      }
    }

    /** splice's loop when it inserts more than it removes: the tail moves up, from its end. */
    method OpenGap(s: nat, d: nat, k: nat, n: nat)
      requires d < k && s + d <= n
      modifies `elems
      ensures forall j: nat {:trigger At(elems, j)} :: At(elems, j) ==
                (if s + k <= j < n - d + k then At(old(elems), j - k + d) else At(old(elems), j))
    {
      ghost var was := elems;
      for i := n - d downto s
        invariant forall j: nat {:trigger At(elems, j)} :: At(elems, j) == (if i + k <= j < n - d + k then At(was, j - k + d) else At(was, j))
      {
        Move(i + d, i + k);
      }
    }

    method PutAll(s: nat, items: seq<JsValue>)
      modifies `elems
      ensures ItemsPut(old(elems), elems, s, items)
    {
      ghost var was := elems;
      for i := 0 to |items|
        invariant forall j: nat {:trigger At(elems, j)} :: At(elems, j) == (if s <= j < s + i then Some(items[j - s]) else At(was, j))
      {
        Set(s + i, items[i]);
      }
    }

    /** splice's first loop: what it will return. */
    method Read(s: nat, d: nat) returns (removed: seq<Slot>)
      requires s + d <= length
      ensures removed == View()[s..s + d]
    {
      removed := [];
      for i := 0 to d
        invariant removed == View()[s..s + i]
      {
        removed := removed + [At(elems, s + i)];
      }
    }

    /** Whichever of the two loops is needed, if either. */
    method MoveTail(s: nat, d: nat, k: nat, n: nat)
      requires s + d <= n
      modifies `elems
      ensures TailMoved(old(elems), elems, s, d, k, n)
    {
      if k < d {
        CloseGap(s, d, k, n);
      } else if k > d {
        OpenGap(s, d, k, n);
      }
    }

    /** splice's moves and its insertions. */
    method Replace(s: nat, d: nat, n: nat, items: seq<JsValue>)
      requires s + d <= n
      modifies `elems
      ensures Slots(elems, n - d + |items|) == Spliced(Slots(old(elems), n), s, d, Filled(items))
      ensures forall j: nat {:trigger At(elems, j)} | n - d + |items| <= j < n :: At(elems, j) == None
      ensures forall j: nat {:trigger At(elems, j)} | n - d + |items| <= j && n <= j :: At(elems, j) == At(old(elems), j)
    {
      hide Slots, Spliced, Filled, TailMoved, ItemsPut;
      MoveTail(s, d, |items|, n);
      ghost var moved := elems;
      PutAll(s, items);
      MovedThenPut(old(elems), moved, elems, n, s, d, items);
    }

    /** deleteCount is None for a call with one argument; a call with none is a start and a count of zero. */
    method Splice(start: Integral, deleteCount: Option<Integral>, items: seq<JsValue>)
        returns (r: Result<seq<Slot>, Failure>)
      requires deleteCount == None ==> items == []
      modifies this
      ensures var n := old(length); var s := RelativeIndex(start, n);
              var d := if deleteCount == None then n - s else DeleteCount(deleteCount.value, n - s);
              if n + |items| - d > MAX_LENGTH then r == Err(TypeError) && elems == old(elems) && length == n
              else
                && r == Ok(old(View())[s..s + d])
                && length == n - d + |items|
                && View() == Spliced(old(View()), s, d, Filled(items))
                && (forall j: nat {:trigger At(elems, j)} | length <= j < n :: At(elems, j) == None)
                && (forall j: nat {:trigger At(elems, j)} | length <= j && n <= j :: At(elems, j) == At(old(elems), j))
    {
      var n := length;
      var s := RelativeIndex(start, n);
      var d := n - s;
      if deleteCount.Some? {
        d := DeleteCount(deleteCount.value, n - s);
      }
      var k := |items|;
      if n + k - d > MAX_LENGTH {
        return Err(TypeError);
      }
      var removed := Read(s, d);
      Replace(s, d, n, items);
      length := n - d + k;
      return Ok(removed);
    }

    method CopyWithin(target: Integral, start: Integral, end: Option<Integral>)
      modifies `elems
      ensures var n := length; var to, from := RelativeIndex(target, n), RelativeIndex(start, n);
              var final := if end == None then n else RelativeIndex(end.value, n);
              var count := if final - from > n - to then n - to else final - from;
              && View() == Copied(old(View()), to, from, count)
              && (forall j: nat {:trigger At(elems, j)} | n <= j :: At(elems, j) == At(old(elems), j))
    {
      hide RelativeIndex, Slots, Copied;
      var n := length;
      var to := RelativeIndex(target, n);
      var from := RelativeIndex(start, n);
      var final := n;
      if end.Some? {
        final := RelativeIndex(end.value, n);
      }
      var count: int := final - from;
      if count > n - to {
        count := n - to;
      }
      ghost var was := elems;
      ghost var f, t := from, to;
      var dir := 1;
      if from < to && to < from + count {
        dir := -1;
        from := from + count - 1;
        to := to + count - 1;
      }
      MoveRun(from, to, count, dir);
      CopiedSlots(was, elems, n, t, f, count);
    }

    /** copyWithin's loop; the direction keeps what is still to be read ahead of what is written. */
    method MoveRun(from: nat, to: nat, count: int, dir: int)
      requires dir == 1 || (dir == -1 && from < to && count > 0 && from >= count - 1)
      requires dir == 1 && count > 0 ==> to <= from || from + count <= to
      modifies `elems
      ensures var f, t := if dir == 1 then from else from - count + 1, if dir == 1 then to else to - count + 1;
              forall j: nat {:trigger At(elems, j)} :: At(elems, j) ==
                (if t <= j < t + count then At(old(elems), f + (j - t)) else At(old(elems), j))
    {
      ghost var was := elems;
      var from, to, left := from, to, count;
      ghost var f, t := if dir == 1 then from else from - count + 1, if dir == 1 then to else to - count + 1;
      while left > 0
        invariant left == count || 0 <= left <= count
        invariant if dir == 1 then from - f == to - t == count - left else from - f == to - t == left - 1
        invariant forall j: nat {:trigger At(elems, j)} ::
          At(elems, j) == (if (if dir == 1 then t <= j < to else to < j < t + count) then At(was, f + (j - t)) else At(was, j))
      {
        Move(from, to);
        from := from + dir;
        to := to + dir;
        left := left - 1;
      }
    }

    method Reverse()
      modifies `elems
      ensures View() == Reversed(old(View()))
      ensures forall j | 0 <= j < length :: View()[j] == old(View())[length - 1 - j]
      ensures forall j: nat {:trigger At(elems, j)} | length <= j :: At(elems, j) == At(old(elems), j)
    {
      var n := length;
      ghost var was := elems;
      for lower := 0 to n / 2
        invariant forall j: nat {:trigger At(elems, j)} ::
          At(elems, j) == (if j < lower || n - lower <= j < n then At(was, n - 1 - j) else At(was, j))
      {
        var upper := n - 1 - lower;
        var lowerVal := At(elems, lower);
        var upperVal := At(elems, upper);
        if lowerVal.Some? && upperVal.Some? {
          Set(lower, upperVal.value);
          Set(upper, lowerVal.value);
        } else if upperVal.Some? {
          Set(lower, upperVal.value);
          Delete(upper);
        } else if lowerVal.Some? {
          Delete(lower);
          Set(upper, lowerVal.value);
        }
      }
    }

    method Shift() returns (first: JsValue)
      modifies this
      ensures old(length) == 0 ==> first == Undefined && length == 0 && elems == old(elems)
      ensures old(length) > 0 ==>
                && length == old(length) - 1 && View() == old(View())[1..]
                && first == (if old(View())[0] == None then Undefined else old(View())[0].value)
                && At(elems, length) == None
                && (forall j: nat {:trigger At(elems, j)} | length < j :: At(elems, j) == At(old(elems), j))
    {
      var n := length;
      if n == 0 {
        return Undefined;
      }
      ghost var was := elems;
      first := if 0 in elems then elems[0] else Undefined;
      for k := 1 to n
        invariant length == n
        invariant forall j: nat {:trigger At(elems, j)} :: At(elems, j) == (if j < k - 1 then At(was, j + 1) else At(was, j))
      {
        Move(k, k - 1);
      }
      Delete(n - 1);
      length := n - 1;
    }

    method Unshift(items: seq<JsValue>) returns (r: Result<nat, Failure>)
      modifies this
      ensures if |items| > 0 && old(length) + |items| > MAX_LENGTH
              then r == Err(TypeError) && elems == old(elems) && length == old(length)
              else
                && length == old(length) + |items| && r == Ok(length)
                && View() == Filled(items) + old(View())
                && (forall j: nat {:trigger At(elems, j)} | length <= j :: At(elems, j) == At(old(elems), j))
    {
      var n := length;
      var k := |items|;
      ghost var was := elems;
      if k > 0 {
        if n + k > MAX_LENGTH {
          return Err(TypeError);
        }
        var i := n;
        while i > 0
          invariant 0 <= i <= n && length == n
          invariant forall j: nat {:trigger At(elems, j)} :: At(elems, j) == (if i + k <= j < n + k then At(was, j - k) else At(was, j))
        {
          Move(i - 1, i - 1 + k);
          i := i - 1;
        }
        PutAll(0, items);
      }
      length := n + k;
      return Ok(n + k);
    }
  }

  /** The clamp of splice's second argument to the elements there are. */
  function DeleteCount(d: Integral, room: nat): (r: nat)
    ensures r <= room
    ensures d.NegInfinity? ==> r == 0
    ensures d.PosInfinity? ==> r == room
    ensures d.Finite? && d.n < 0 ==> r == 0
    ensures d.Finite? && 0 <= d.n <= room ==> r == d.n
    ensures d.Finite? && d.n > room ==> r == room
  {
    match d
    case NegInfinity => 0
    case PosInfinity => room
    case Finite(k) => if k >= room then room else if k > 0 then k else 0
  }

  /** Unshifting and shifting back as many times leaves the array as it was and returns the items. */
  method UnshiftThenShift(a: ArrayLike, items: seq<JsValue>) returns (back: seq<JsValue>)
    requires a.length + |items| <= MAX_LENGTH
    modifies a
    ensures a.View() == old(a.View()) && back == items
  {
    ghost var v := a.View();
    var _ := a.Unshift(items);
    back := [];
    for i := 0 to |items|
      invariant a.View() == Filled(items[i..]) + v
      invariant back == items[..i]
    {
      var x := a.Shift();
      back := back + [x];
    }
  }
}
