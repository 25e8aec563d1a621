/** Array.prototype.join over arrays that may contain themselves (internal/engine/builtin_array.go).
  *
  * join and toString call each other once per nested array.  The set of arrays being joined cuts the
  * recursion: an array met again while it is being joined renders as the empty string.
  */
module ArrayJoin {
  import opened Wrappers

  type Ref = nat

  /** An element as join sees it: nothing, something whose text is known, or an array of the heap. */
  datatype Elem = Nullish | Text(s: string) | Nested(r: Ref)

  type Heap = map<Ref, seq<Elem>>

  predicate Closed(h: Heap) {
    forall r | r in h :: forall i | 0 <= i < |h[r]| :: h[r][i].Nested? ==> h[r][i].r in h
  }

  // ----- what join produces -----

  function JoinText(h: Heap, joining: set<Ref>, r: Ref, sep: string): string
    requires Closed(h) && r in h
    decreases h.Keys - joining, 1, 0
  {
    if r in joining then "" else JoinFrom(h, joining + {r}, r, 0, sep)
  }

  /** The elements of r from index i on, while the arrays in active are being joined, r among them. */
  function JoinFrom(h: Heap, active: set<Ref>, r: Ref, i: nat, sep: string): string
    requires Closed(h) && r in h && i <= |h[r]|
    decreases h.Keys - active, 2, |h[r]| - i
  {
    if i == |h[r]| then ""
    else (if i > 0 then sep else "") + Render(h, active, h[r][i]) + JoinFrom(h, active, r, i + 1, sep)
  }

  function Render(h: Heap, active: set<Ref>, e: Elem): string
    requires Closed(h) && (e.Nested? ==> e.r in h)
    decreases h.Keys - active, 1, 1
  {
    match e
    case Nullish => ""
    case Text(s) => s
    case Nested(c) => JoinText(h, active, c, ",")
  }

  lemma JoinFromStep(h: Heap, active: set<Ref>, r: Ref, i: nat, sep: string, out: string)
    requires Closed(h) && r in h && i < |h[r]|
    ensures out + JoinFrom(h, active, r, i, sep)
         == ((if i > 0 then out + sep else out) + Render(h, active, h[r][i])) + JoinFrom(h, active, r, i + 1, sep)
  {
  }

  class Runtime {
    const heap: Heap
    var joining: set<Ref>

    constructor (heap: Heap)
      ensures this.heap == heap && joining == {}
    {
      this.heap, joining := heap, {};
    }

    method EnterJoin(r: Ref) returns (already: bool)
      modifies this
      ensures already == (r in old(joining)) && joining == old(joining) + {r}
    {
      already := r in joining;
      joining := joining + {r};
    }

    method ExitJoin(r: Ref)
      modifies this
      ensures joining == old(joining) - {r}
    {
      joining := joining - {r};
    }

    /** joining is the set of arrays on the active stack; every call restores it. */
    method Join(r: Ref, sep: string) returns (out: string)
      requires Closed(heap) && r in heap
      modifies this
      ensures joining == old(joining)
      ensures out == JoinText(heap, old(joining), r, sep)
      decreases heap.Keys - joining, 0
    {
      ghost var before := joining;
      var already := EnterJoin(r);
      if already {
        return "";
      }
      ghost var active := joining;
      out := "";
      for i := 0 to |heap[r]|
        invariant joining == active
        invariant JoinFrom(heap, active, r, 0, sep) == out + JoinFrom(heap, active, r, i, sep)
      {
        JoinFromStep(heap, active, r, i, sep, out);
        if i > 0 {
          out := out + sep;
        }
        var s := RenderElement(heap[r][i]);
        out := out + s;
      }
      ExitJoin(r);
    }

    method RenderElement(e: Elem) returns (s: string)
      requires Closed(heap) && (e.Nested? ==> e.r in heap)
      modifies this
      ensures joining == old(joining)
      ensures s == Render(heap, old(joining), e)
      decreases heap.Keys - joining, 1
    {
      match e
      case Nullish => s := "";
      case Text(t) => s := t;
      case Nested(c) => s := Join(c, ",");
    }
  }

  // ----- what an array that is met again counts for -----

  /** The heap with the given arrays emptied. */
  function Emptied(h: Heap, rs: set<Ref>): Heap {
    map r | r in h :: if r in rs then [] else h[r]
  }

  lemma {:induction false} ListedIsEmpty(h: Heap, active: set<Ref>, rs: set<Ref>, r: Ref, sep: string)
    requires Closed(h) && r in h
    ensures Closed(Emptied(h, rs))
    ensures JoinText(h, active + rs, r, sep) == JoinText(Emptied(h, rs), active, r, sep)
    decreases h.Keys - (active + rs), 1, 0
  {
    if r !in active + rs {
      assert active + rs + {r} == (active + {r}) + rs;
      ListedFromIsEmpty(h, active + {r}, rs, r, 0, sep);
    }
  }

  lemma {:induction false} ListedFromIsEmpty(h: Heap, active: set<Ref>, rs: set<Ref>, r: Ref, i: nat, sep: string)
    requires Closed(h) && r in h && r !in rs && i <= |h[r]|
    ensures Closed(Emptied(h, rs))
    ensures JoinFrom(h, active + rs, r, i, sep) == JoinFrom(Emptied(h, rs), active, r, i, sep)
    decreases h.Keys - (active + rs), 2, |h[r]| - i
  {
    if i < |h[r]| {
      if h[r][i].Nested? {
        ListedIsEmpty(h, active, rs, h[r][i].r, ",");
      }
      ListedFromIsEmpty(h, active, rs, r, i + 1, sep);
    }
  }

  /** An array that is already being joined gives the empty string; and to the joins inside it, it is an empty array. */
  lemma MetAgainIsEmpty(h: Heap, joining: set<Ref>, r: Ref, sep: string)
    requires Closed(h) && r in h
    ensures Closed(Emptied(h, joining))
    ensures r in joining ==> JoinText(h, joining, r, sep) == ""
    ensures JoinText(h, joining, r, sep) == JoinText(Emptied(h, joining), {}, r, sep)
  {
    assert {} + joining == joining;
    ListedIsEmpty(h, {}, joining, r, sep);
  }

  // ----- how deep it goes -----

  /** The greatest number of joins on the stack at once. */
  function Depth(h: Heap, joining: set<Ref>, r: Ref): nat
    requires Closed(h) && r in h
    decreases h.Keys - joining, 1, 0
  {
    if r in joining then 0 else 1 + DepthFrom(h, joining + {r}, r, 0)
  }

  function DepthFrom(h: Heap, active: set<Ref>, r: Ref, i: nat): nat
    requires Closed(h) && r in h && i <= |h[r]|
    decreases h.Keys - active, 2, |h[r]| - i
  {
    if i == |h[r]| then 0
    else
      var here := if h[r][i].Nested? then Depth(h, active, h[r][i].r) else 0;
      var rest := DepthFrom(h, active, r, i + 1);
      if here > rest then here else rest
  }

  /** It is the greatest: no nested array goes deeper, and it is one more than that of a nested array, or one. */
  lemma {:induction false} DepthIsGreatest(h: Heap, active: set<Ref>, r: Ref, i: nat)
    requires Closed(h) && r in h && i <= |h[r]|
    ensures forall k | i <= k < |h[r]| && h[r][k].Nested? :: Depth(h, active, h[r][k].r) <= DepthFrom(h, active, r, i)
    ensures DepthFrom(h, active, r, i) == 0 ||
            exists k | i <= k < |h[r]| && h[r][k].Nested? :: Depth(h, active, h[r][k].r) == DepthFrom(h, active, r, i)
    decreases |h[r]| - i
  {
    if i < |h[r]| {
      DepthIsGreatest(h, active, r, i + 1);
    }
  }

  lemma {:induction false} DepthBound(h: Heap, joining: set<Ref>, r: Ref)
    requires Closed(h) && r in h
    ensures Depth(h, joining, r) <= |h.Keys - joining|
    decreases h.Keys - joining, 1, 0
  {
    if r !in joining {
      assert h.Keys - joining == (h.Keys - (joining + {r})) + {r};
      DepthFromBound(h, joining + {r}, r, 0);
    }
  }

  lemma {:induction false} DepthFromBound(h: Heap, active: set<Ref>, r: Ref, i: nat)
    requires Closed(h) && r in h && i <= |h[r]|
    ensures DepthFrom(h, active, r, i) <= |h.Keys - active|
    decreases h.Keys - active, 2, |h[r]| - i
  {
    if i < |h[r]| {
      if h[r][i].Nested? {
        DepthBound(h, active, h[r][i].r);
      }
      DepthFromBound(h, active, r, i + 1);
    }
  }

  // ----- the naive recursion, and when it agrees -----

  /** The plain recursive join, which remembers nothing; None when it goes deeper than n arrays. */
  function Naive(h: Heap, r: Ref, sep: string, n: nat): Option<string>
    requires Closed(h) && r in h
    decreases n, 1, 0
  {
    if n == 0 then None else NaiveFrom(h, r, 0, sep, n)
  }

  function NaiveFrom(h: Heap, r: Ref, i: nat, sep: string, n: nat): Option<string>
    requires Closed(h) && r in h && i <= |h[r]| && n > 0
    decreases n, 0, |h[r]| - i
  {
    if i == |h[r]| then Some("")
    else
      var e := h[r][i];
      var s := if e.Nested? then Naive(h, e.r, ",", n - 1) else if e.Text? then Some(e.s) else Some("");
      var rest := NaiveFrom(h, r, i + 1, sep, n);
      if s.Some? && rest.Some? then Some((if i > 0 then sep else "") + s.value + rest.value) else None
  }

  predicate Edge(h: Heap, a: Ref, b: Ref) {
    a in h && exists i | 0 <= i < |h[a]| :: h[a][i] == Nested(b)
  }

  predicate IsPath(h: Heap, p: seq<Ref>) {
    |p| > 0 && p[0] in h && forall i | 0 <= i < |p| - 1 :: Edge(h, p[i], p[i + 1])
  }

  /** The path ends in one of the given arrays, or in one that it has passed already. */
  predicate Returns(p: seq<Ref>, joining: set<Ref>) {
    |p| > 0 && (p[|p| - 1] in joining || p[|p| - 1] in p[..|p| - 1])
  }

  /** From r one can reach an array of the set, or one that can reach itself. */
  ghost predicate Meets(h: Heap, joining: set<Ref>, r: Ref) {
    exists p: seq<Ref> :: IsPath(h, p) && p[0] == r && Returns(p, joining)
  }

  lemma MeetsOnward(h: Heap, joining: set<Ref>, r: Ref, c: Ref)
    requires r in h && Edge(h, r, c) && c in h && Meets(h, joining + {r}, c)
    ensures Meets(h, joining, r)
  {
    var p: seq<Ref> :| IsPath(h, p) && p[0] == c && Returns(p, joining + {r});
    var q := [r] + p;
    assert forall i | 0 <= i < |q| - 1 :: q[i + 1] == p[i] && (i > 0 ==> q[i] == p[i - 1]);
    assert q[..|q| - 1] == [r] + p[..|p| - 1];
    assert IsPath(h, q) && q[0] == r && Returns(q, joining);
  }

  /** Where no array is met again, join produces exactly what the naive recursion does. */
  lemma {:induction false} JoinIsNaive(h: Heap, joining: set<Ref>, r: Ref, sep: string, n: nat)
    requires Closed(h) && r in h && !Meets(h, joining, r) && n >= |h.Keys - joining|
    ensures Naive(h, r, sep, n) == Some(JoinText(h, joining, r, sep))
    decreases h.Keys - joining, 1, 0
  {
    if r in joining {
      assert IsPath(h, [r]) && Returns([r], joining);
    }
    var active := joining + {r};
    assert h.Keys - joining == (h.Keys - active) + {r};
    JoinFromIsNaive(h, joining, r, 0, sep, n);
  }

  lemma {:induction false} JoinFromIsNaive(h: Heap, joining: set<Ref>, r: Ref, i: nat, sep: string, n: nat)
    requires Closed(h) && r in h && !Meets(h, joining, r) && r !in joining && i <= |h[r]|
    requires n > |h.Keys - (joining + {r})|
    ensures NaiveFrom(h, r, i, sep, n) == Some(JoinFrom(h, joining + {r}, r, i, sep))
    decreases h.Keys - (joining + {r}), 2, |h[r]| - i
  {
    if i < |h[r]| {
      var e := h[r][i];
      if e.Nested? {
        assert Edge(h, r, e.r);
        if Meets(h, joining + {r}, e.r) {
          MeetsOnward(h, joining, r, e.r);
        }
        JoinIsNaive(h, joining + {r}, e.r, ",", n - 1);
      }
      JoinFromIsNaive(h, joining, r, i + 1, sep, n);
    }
  }

  /** A path longer than n makes the naive recursion go deeper than n. */
  lemma {:induction false} LongPathFails(h: Heap, p: seq<Ref>, sep: string, n: nat)
    requires Closed(h) && IsPath(h, p) && |p| > n
    ensures Naive(h, p[0], sep, n) == None
    decreases n
  {
    if n > 0 {
      assert Edge(h, p[0], p[1]);
      var i :| 0 <= i < |h[p[0]]| && h[p[0]][i] == Nested(p[1]);
      var q := p[1..];
      forall k | 0 <= k < |q| - 1 ensures Edge(h, q[k], q[k + 1]) {
        assert Edge(h, p[k + 1], p[k + 2]);
      }
      LongPathFails(h, q, ",", n - 1);
      FailsFrom(h, p[0], i, 0, sep, n);
    }
  }

  lemma {:induction false} FailsFrom(h: Heap, r: Ref, i: nat, k: nat, sep: string, n: nat)
    requires Closed(h) && r in h && k <= i < |h[r]| && n > 0
    requires h[r][i].Nested? && Naive(h, h[r][i].r, ",", n - 1) == None
    ensures NaiveFrom(h, r, k, sep, n) == None
    decreases i - k
  {
    if k < i {
      FailsFrom(h, r, i, k + 1, sep, n);
    }
  }

  /** Going round the cycle once more. */
  lemma {:induction false} LongerPath(h: Heap, p: seq<Ref>, n: nat) returns (q: seq<Ref>)
    requires IsPath(h, p) && Returns(p, {})
    ensures IsPath(h, q) && q[0] == p[0] && |q| > n
    decreases n - |p|
  {
    if |p| > n {
      q := p;
    } else {
      var last := |p| - 1;
      var i :| 0 <= i < last && p[i] == p[last];
      var longer := p + p[i + 1..];
      forall k | 0 <= k < |longer| - 1
        ensures Edge(h, longer[k], longer[k + 1])
      {
        if k >= last {
          assert longer[k + 1] == p[i + 1 + (k - last)];
          assert longer[k] == p[i + (k - last)];
        }
      }
      assert longer[|longer| - 1] == p[last] == longer[..|longer| - 1][i];
      q := LongerPath(h, longer, n);
    }
  }

  /** The naive recursion ends if and only if no cycle can be reached, and then it gives what join gives. */
  lemma NaiveEndsIffAcyclic(h: Heap, r: Ref, sep: string)
    requires Closed(h) && r in h
    ensures (exists n: nat :: Naive(h, r, sep, n).Some?) <==> !Meets(h, {}, r)
    ensures !Meets(h, {}, r) ==> forall n: nat | n >= |h.Keys| :: Naive(h, r, sep, n) == Some(JoinText(h, {}, r, sep))
  {
    if Meets(h, {}, r) {
      var p: seq<Ref> :| IsPath(h, p) && p[0] == r && Returns(p, {});
      forall n: nat
        ensures Naive(h, r, sep, n) == None
      {
        var q := LongerPath(h, p, n);
        LongPathFails(h, q, sep, n);
      }
    } else {
      assert h.Keys - {} == h.Keys;
      forall n: nat | n >= |h.Keys|
        ensures Naive(h, r, sep, n) == Some(JoinText(h, {}, r, sep))
      {
        JoinIsNaive(h, {}, r, sep, n);
      }
      assert Naive(h, r, sep, |h.Keys|).Some?;
    }
  }
}
