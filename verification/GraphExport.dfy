/** Export of a JavaScript value to Go (convert.go, Value.export): a memoised copy of an object graph that may be cyclic.
  * Containers are recorded before they are filled, and filled in place.
  */
module GraphExport {

  type Ref = nat

  datatype Value =
    | Undefined | Null | Bool(b: bool) | Number(x: real) | Str(s: string) | BigInt(n: int) | Symbol(id: nat)
    | Object(ref: Ref)

  /** The own enumerable string keys of an ordinary object are what Keys lists; props may hold more. */
  datatype Obj =
    | Arr(elems: seq<Value>)
    | Rec(keys: seq<string>, props: map<string, Value>)
    | Date(ms: real)
    | Bytes(data: seq<nat>)
    | Function

  type Heap = map<Ref, Obj>

  /** A slice or a Go map is known by its address. */
  datatype GoValue =
    | Nil | GoBool(b: bool) | GoFloat(x: real) | GoString(s: string) | GoInt(n: int) | Kept(v: Value)
    | GoTime(ms: real) | GoBytes(data: seq<nat>) | Callable(ref: Ref)
    | Container(addr: nat)

  datatype GoObj = Slice(elems: seq<GoValue>) | Table(entries: map<string, GoValue>)

  predicate Defined(h: Heap, v: Value) {
    v.Object? ==> v.ref in h
  }

  /** Nothing dangles, and every listed key has a property. */
  predicate WellFormed(h: Heap) {
    forall r :: r in h ==>
      match h[r]
      case Arr(elems) => forall i :: 0 <= i < |elems| ==> Defined(h, elems[i])
      case Rec(keys, props) => forall k :: k in keys ==> k in props && Defined(h, props[k])
      case _ => true
  }

  predicate IsContainer(h: Heap, v: Value) {
    v.Object? && v.ref in h && (h[v.ref].Arr? || h[v.ref].Rec?)
  }

  type Seen = map<Ref, nat>

  /** The Go form of a value, given where its containers are. */
  function Image(h: Heap, seen: Seen, v: Value): GoValue
    requires Defined(h, v) && (IsContainer(h, v) ==> v.ref in seen)
  {
    match v
    case Undefined => Nil
    case Null => Nil
    case Bool(b) => GoBool(b)
    case Number(x) => GoFloat(x)
    case Str(s) => GoString(s)
    case BigInt(n) => GoInt(n)
    case Symbol(_) => Kept(v)
    case Object(r) =>
      match h[r]
      case Arr(_) => Container(seen[r])
      case Rec(_, _) => Container(seen[r])
      case Date(ms) => GoTime(ms)
      case Bytes(data) => GoBytes(data)
      case Function => Callable(r)
  }

  /** v has been exported to x. */
  predicate Copied(h: Heap, seen: Seen, v: Value, x: GoValue) {
    Defined(h, v) && (IsContainer(h, v) ==> v.ref in seen) && x == Image(h, seen, v)
  }

  /** The container holds the images of everything in the object, in the same places. */
  predicate Filled(h: Heap, seen: Seen, o: Obj, c: GoObj) {
    match o
    case Arr(elems) =>
      c.Slice? && |c.elems| == |elems| && forall i :: 0 <= i < |elems| ==> Copied(h, seen, elems[i], c.elems[i])
    case Rec(keys, props) =>
      && c.Table?
      && (forall k :: k in c.entries ==> k in keys)
      && forall k :: k in keys ==> k in props && k in c.entries && Copied(h, seen, props[k], c.entries[k])
    case _ => false
  }

  lemma CopiedGrows(h: Heap, seen: Seen, more: Seen, v: Value, x: GoValue)
    requires Copied(h, seen, v, x) && (forall r :: r in seen ==> r in more && more[r] == seen[r])
    ensures Copied(h, more, v, x)
  {
  }

  lemma FilledGrows(h: Heap, seen: Seen, more: Seen, o: Obj, c: GoObj)
    requires Filled(h, seen, o, c) && (forall r :: r in seen ==> r in more && more[r] == seen[r])
    ensures Filled(h, more, o, c)
  {
    match o
    case Arr(elems) =>
      forall i | 0 <= i < |elems|
        ensures Copied(h, more, elems[i], c.elems[i])
      {
        CopiedGrows(h, seen, more, elems[i], c.elems[i]);
      }
    case Rec(keys, props) =>
      forall k | k in keys
        ensures Copied(h, more, props[k], c.entries[k])
      {
        CopiedGrows(h, seen, more, props[k], c.entries[k]);
      }
    case _ =>
  }

  // ----- paths -----

  datatype Edge = Index(i: nat) | Key(k: string)

  predicate HasEdge(h: Heap, v: Value, e: Edge) {
    IsContainer(h, v) &&
    match h[v.ref]
    case Arr(elems) => e.Index? && e.i < |elems|
    case Rec(keys, props) => e.Key? && e.k in keys && e.k in props
    case _ => false
  }

  function Along(h: Heap, v: Value, e: Edge): Value
    requires HasEdge(h, v, e)
  {
    match h[v.ref]
    case Arr(elems) => elems[e.i]
    case Rec(keys, props) => props[e.k]
  }

  predicate HasPath(h: Heap, v: Value, path: seq<Edge>)
    decreases |path|
  {
    path == [] || (HasEdge(h, v, path[0]) && HasPath(h, Along(h, v, path[0]), path[1..]))
  }

  function Follow(h: Heap, v: Value, path: seq<Edge>): Value
    requires HasPath(h, v, path)
    decreases |path|
  {
    if path == [] then v else Follow(h, Along(h, v, path[0]), path[1..])
  }

  predicate GoHasEdge(out: seq<GoObj>, x: GoValue, e: Edge) {
    x.Container? && x.addr < |out| &&
    match out[x.addr]
    case Slice(elems) => e.Index? && e.i < |elems|
    case Table(entries) => e.Key? && e.k in entries
  }

  function GoAlong(out: seq<GoObj>, x: GoValue, e: Edge): GoValue
    requires GoHasEdge(out, x, e)
  {
    match out[x.addr]
    case Slice(elems) => elems[e.i]
    case Table(entries) => entries[e.k]
  }

  predicate GoHasPath(out: seq<GoObj>, x: GoValue, path: seq<Edge>)
    decreases |path|
  {
    path == [] || (GoHasEdge(out, x, path[0]) && GoHasPath(out, GoAlong(out, x, path[0]), path[1..]))
  }

  function GoFollow(out: seq<GoObj>, x: GoValue, path: seq<Edge>): GoValue
    requires GoHasPath(out, x, path)
    decreases |path|
  {
    if path == [] then x else GoFollow(out, GoAlong(out, x, path[0]), path[1..])
  }

  /** Some path leads from v to the object. */
  ghost predicate Reachable(h: Heap, v: Value, r: Ref) {
    exists path :: HasPath(h, v, path) && Follow(h, v, path) == Object(r)
  }

  lemma {:induction false} PathSnoc(h: Heap, v: Value, path: seq<Edge>, e: Edge)
    requires HasPath(h, v, path) && HasEdge(h, Follow(h, v, path), e)
    ensures HasPath(h, v, path + [e]) && Follow(h, v, path + [e]) == Along(h, Follow(h, v, path), e)
    decreases |path|
  {
    if path == [] {
      assert [e][1..] == [];
      assert path + [e] == [e];
    } else {
      PathSnoc(h, Along(h, v, path[0]), path[1..], e);
      assert (path + [e])[1..] == path[1..] + [e];
    }
  }

  lemma ReachableStep(h: Heap, root: Value, r: Ref, e: Edge)
    requires Reachable(h, root, r) && HasEdge(h, Object(r), e)
    ensures var w := Along(h, Object(r), e); w.Object? ==> Reachable(h, root, w.ref)
  {
    var path :| HasPath(h, root, path) && Follow(h, root, path) == Object(r);
    PathSnoc(h, root, path, e);
    var longer := path + [e];
    assert HasPath(h, root, longer) && Follow(h, root, longer) == Along(h, Object(r), e);
  }

  // ----- what the walk keeps -----

  /** Addresses and recorded objects match one to one, and every recorded object is reached from the root. */
  ghost predicate Recorded(h: Heap, root: Value, seen: Seen, out: seq<GoObj>) {
    && (forall r :: r in seen ==> seen[r] < |out| && IsContainer(h, Object(r)) && Reachable(h, root, r))
    && (forall r, q :: r in seen && q in seen && seen[r] == seen[q] ==> r == q)
    && |out| == |seen|
  }

  predicate Done(h: Heap, seen: Seen, out: seq<GoObj>, r: Ref) {
    r in seen && seen[r] < |out| && r in h && Filled(h, seen, h[r], out[seen[r]])
  }

  /** From one state to a later one: old containers stay as they were, new ones are filled, except that of r. */
  predicate Grown(h: Heap, seen0: Seen, out0: seq<GoObj>, seen: Seen, out: seq<GoObj>, open: set<Ref>) {
    && |out0| <= |out|
    && (forall q :: q in seen0 ==> q in seen && seen[q] == seen0[q])
    && (forall a :: 0 <= a < |out0| ==> out[a] == out0[a])
    && forall q :: q in seen && q !in seen0 && q !in open ==> Done(h, seen, out, q)
  }

  lemma GrownMore(h: Heap, seen0: Seen, out0: seq<GoObj>, seen1: Seen, out1: seq<GoObj>, seen: Seen, out: seq<GoObj>, open: set<Ref>)
    requires Grown(h, seen0, out0, seen1, out1, open) && Grown(h, seen1, out1, seen, out, {})
    ensures Grown(h, seen0, out0, seen, out, open)
  {
    forall q | q in seen && q !in seen0 && q !in open
      ensures Done(h, seen, out, q)
    {
      if q in seen1 {
        assert Done(h, seen1, out1, q);
        FilledGrows(h, seen1, seen, h[q], out1[seen1[q]]);
      }
    }
  }

  /** Writing into the container that is being filled disturbs no other. */
  lemma WriteOpen(h: Heap, root: Value, seen0: Seen, out0: seq<GoObj>, seen: Seen, out: seq<GoObj>, r: Ref, c: GoObj)
    requires Recorded(h, root, seen, out) && Grown(h, seen0, out0, seen, out, {r}) && r in seen && |out0| <= seen[r] < |out|
    ensures Recorded(h, root, seen, out[seen[r] := c]) && Grown(h, seen0, out0, seen, out[seen[r] := c], {r})
  {
    var after := out[seen[r] := c];
    forall q | q in seen && q !in seen0 && q != r
      ensures Done(h, seen, after, q)
    {
      assert Done(h, seen, out, q);
      assert seen[q] != seen[r];
    }
  }

  lemma KeepsAddress(h: Heap, seen0: Seen, out0: seq<GoObj>, seen: Seen, out: seq<GoObj>, r: Ref)
    requires Grown(h, seen0, out0, seen, out, {}) && r in seen0
    ensures r in seen && seen[r] == seen0[r]
  {
  }

  lemma Close(h: Heap, seen0: Seen, out0: seq<GoObj>, seen: Seen, out: seq<GoObj>, r: Ref)
    requires Grown(h, seen0, out0, seen, out, {r}) && Done(h, seen, out, r)
    ensures Grown(h, seen0, out0, seen, out, {})
  {
  }

  lemma RecordOne(h: Heap, root: Value, seen: Seen, out: seq<GoObj>, r: Ref, c: GoObj)
    requires Recorded(h, root, seen, out) && r !in seen && IsContainer(h, Object(r)) && Reachable(h, root, r)
    ensures Recorded(h, root, seen[r := |out|], out + [c])
  {
    OneLarger(seen, r, |out|);
    hide Reachable, IsContainer;
    var more := seen[r := |out|];
    forall p, q | p in more && q in more && more[p] == more[q]
      ensures p == q
    {
      assert p != r ==> more[p] == seen[p] < |out|;
      assert q != r ==> more[q] == seen[q] < |out|;
    }
  }

  lemma OneLarger(seen: Seen, r: Ref, a: nat)
    requires r !in seen
    ensures |seen[r := a]| == |seen| + 1
  {
    assert seen[r := a].Keys == seen.Keys + {r};
  }

  lemma GrownByOne(h: Heap, seen: Seen, out: seq<GoObj>, r: Ref, c: GoObj)
    requires r !in seen
    ensures Grown(h, seen, out, seen[r := |out|], out + [c], {r})
    ensures r in h && h[r].Arr? && c == Slice(seq(|h[r].elems|, _ => Nil)) ==>
              SliceFilled(h, seen[r := |out|], out + [c], r, 0)
    ensures r in h && h[r].Rec? && c == Table(map[]) ==> TableFilled(h, seen[r := |out|], out + [c], r, 0)
  {
    hide Copied, Filled;
  }

  /** The first n slots of the slice of r hold the images of the elements. */
  predicate SliceFilled(h: Heap, seen: Seen, out: seq<GoObj>, r: Ref, n: nat) {
    && r in h && h[r].Arr? && r in seen && seen[r] < |out| && out[seen[r]].Slice?
    && n <= |h[r].elems| == |out[seen[r]].elems|
    && forall j :: 0 <= j < n ==> Copied(h, seen, h[r].elems[j], out[seen[r]].elems[j])
  }

  /** The table of r holds the images under the first n keys, and no others. */
  predicate TableFilled(h: Heap, seen: Seen, out: seq<GoObj>, r: Ref, n: nat) {
    && r in h && h[r].Rec? && r in seen && seen[r] < |out| && out[seen[r]].Table? && n <= |h[r].keys|
    && (forall k :: k in out[seen[r]].entries ==> k in h[r].keys[..n])
    && forall k :: k in h[r].keys[..n] ==>
                     k in h[r].props && k in out[seen[r]].entries && Copied(h, seen, h[r].props[k], out[seen[r]].entries[k])
  }

  lemma FilledPartsGrow(h: Heap, seen: Seen, out: seq<GoObj>, more: Seen, longer: seq<GoObj>, r: Ref, n: nat)
    requires Grown(h, seen, out, more, longer, {})
    ensures SliceFilled(h, seen, out, r, n) ==> SliceFilled(h, more, longer, r, n)
    ensures TableFilled(h, seen, out, r, n) ==> TableFilled(h, more, longer, r, n)
    ensures seen.Keys <= more.Keys
  {
    if SliceFilled(h, seen, out, r, n) {
      forall j | 0 <= j < n
        ensures Copied(h, more, h[r].elems[j], longer[more[r]].elems[j])
      {
        CopiedGrows(h, seen, more, h[r].elems[j], out[seen[r]].elems[j]);
      }
    }
    if TableFilled(h, seen, out, r, n) {
      forall k | k in h[r].keys[..n]
        ensures Copied(h, more, h[r].props[k], longer[more[r]].entries[k])
      {
        CopiedGrows(h, seen, more, h[r].props[k], out[seen[r]].entries[k]);
      }
    }
  }

  lemma WriteElement(h: Heap, seen: Seen, out: seq<GoObj>, r: Ref, n: nat, e: GoValue)
    requires SliceFilled(h, seen, out, r, n) && n < |h[r].elems| && Copied(h, seen, h[r].elems[n], e)
    ensures SliceFilled(h, seen, out[seen[r] := Slice(out[seen[r]].elems[n := e])], r, n + 1)
  {
    hide Copied;
  }

  lemma WriteEntry(h: Heap, seen: Seen, out: seq<GoObj>, r: Ref, n: nat, e: GoValue)
    requires TableFilled(h, seen, out, r, n) && n < |h[r].keys| && h[r].keys[n] in h[r].props
    requires Copied(h, seen, h[r].props[h[r].keys[n]], e)
    ensures TableFilled(h, seen, out[seen[r] := Table(out[seen[r]].entries[h[r].keys[n] := e])], r, n + 1)
  {
    hide Copied;
    assert h[r].keys[..n + 1] == h[r].keys[..n] + [h[r].keys[n]];
  }

  /** The value of one element has been exported: what is known when it has been written into the slice. */
  lemma SlotWritten(h: Heap, root: Value, seen0: Seen, out0: seq<GoObj>, seen1: Seen, out1: seq<GoObj>, seen: Seen,
                    out: seq<GoObj>, r: Ref, i: nat, e: GoValue)
    requires Grown(h, seen0, out0, seen1, out1, {r}) && r in seen1 && |out0| <= seen1[r] && SliceFilled(h, seen1, out1, r, i)
    requires Recorded(h, root, seen, out) && Grown(h, seen1, out1, seen, out, {})
    requires i < |h[r].elems| && Copied(h, seen, h[r].elems[i], e)
    ensures r in seen && seen[r] == seen1[r] < |out| && out[seen[r]].Slice? && i < |out[seen[r]].elems| && seen1.Keys <= seen.Keys
    ensures var after := out[seen[r] := Slice(out[seen[r]].elems[i := e])];
            Recorded(h, root, seen, after) && Grown(h, seen0, out0, seen, after, {r}) && SliceFilled(h, seen, after, r, i + 1)
  {
    KeepsAddress(h, seen1, out1, seen, out, r);
    FilledPartsGrow(h, seen1, out1, seen, out, r, i);
    assert r in seen && seen[r] < |out| && out[seen[r]].Slice? && i < |out[seen[r]].elems|;
    hide *;
    var c := Slice(out[seen[r]].elems[i := e]);
    GrownMore(h, seen0, out0, seen1, out1, seen, out, {r});
    WriteOpen(h, root, seen0, out0, seen, out, r, c);
    WriteElement(h, seen, out, r, i, e);
  }

  lemma EntryWritten(h: Heap, root: Value, seen0: Seen, out0: seq<GoObj>, seen1: Seen, out1: seq<GoObj>, seen: Seen,
                     out: seq<GoObj>, r: Ref, i: nat, e: GoValue)
    requires Grown(h, seen0, out0, seen1, out1, {r}) && r in seen1 && |out0| <= seen1[r] && TableFilled(h, seen1, out1, r, i)
    requires Recorded(h, root, seen, out) && Grown(h, seen1, out1, seen, out, {})
    requires i < |h[r].keys| && h[r].keys[i] in h[r].props && Copied(h, seen, h[r].props[h[r].keys[i]], e)
    ensures r in seen && seen[r] == seen1[r] < |out| && out[seen[r]].Table? && seen1.Keys <= seen.Keys
    ensures var after := out[seen[r] := Table(out[seen[r]].entries[h[r].keys[i] := e])];
            Recorded(h, root, seen, after) && Grown(h, seen0, out0, seen, after, {r}) && TableFilled(h, seen, after, r, i + 1)
  {
    KeepsAddress(h, seen1, out1, seen, out, r);
    FilledPartsGrow(h, seen1, out1, seen, out, r, i);
    assert r in seen && seen[r] < |out| && out[seen[r]].Table?;
    hide *;
    var c := Table(out[seen[r]].entries[h[r].keys[i] := e]);
    GrownMore(h, seen0, out0, seen1, out1, seen, out, {r});
    WriteOpen(h, root, seen0, out0, seen, out, r, c);
    WriteEntry(h, seen, out, r, i, e);
  }

  lemma AllFilled(h: Heap, seen: Seen, out: seq<GoObj>, r: Ref)
    ensures r in h && h[r].Arr? && SliceFilled(h, seen, out, r, |h[r].elems|) ==> Done(h, seen, out, r)
    ensures r in h && h[r].Rec? && TableFilled(h, seen, out, r, |h[r].keys|) ==> Done(h, seen, out, r)
  {
    hide Copied;
    if r in h && h[r].Rec? {
      assert h[r].keys[..|h[r].keys|] == h[r].keys;
    }
  }

  // ----- the walk -----

  class Exporter {
    const heap: Heap
    var seen: Seen
    var out: seq<GoObj>

    constructor (heap: Heap)
      ensures this.heap == heap && seen == map[] && out == []
    {
      this.heap, seen, out := heap, map[], [];
    }

    /** The new container is recorded empty, before anything is put into it. */
    method Record(ghost root: Value, r: Ref, c: GoObj) returns (addr: nat)
      requires Recorded(heap, root, seen, out) && r in heap && r !in seen && Reachable(heap, root, r)
      requires match heap[r]
               case Arr(elems) => c == Slice(seq(|elems|, _ => Nil))
               case Rec(_, _) => c == Table(map[])
               case _ => false
      modifies this
      ensures Recorded(heap, root, seen, out) && Grown(heap, old(seen), old(out), seen, out, {r})
      ensures r in seen && seen[r] == addr == |old(out)| && old(seen).Keys + {r} <= seen.Keys
      ensures if heap[r].Arr? then SliceFilled(heap, seen, out, r, 0) else TableFilled(heap, seen, out, r, 0)
    {
      addr := |out|;
      RecordOne(heap, root, seen, out, r, c);
      GrownByOne(heap, seen, out, r, c);
      hide Recorded, Grown, Reachable, SliceFilled, TableFilled;
      out := out + [c];
      seen := seen[r := addr];
    }

    method Export(ghost root: Value, v: Value) returns (x: GoValue)
      requires WellFormed(heap) && Recorded(heap, root, seen, out)
      requires Defined(heap, v) && (v.Object? ==> Reachable(heap, root, v.ref))
      modifies this
      ensures Recorded(heap, root, seen, out) && Grown(heap, old(seen), old(out), seen, out, {})
      ensures Copied(heap, seen, v, x)
      decreases heap.Keys - seen.Keys, 1
    {
      match v
      case Undefined => x := Nil;
      case Null => x := Nil;
      case Bool(b) => x := GoBool(b);
      case Number(n) => x := GoFloat(n);
      case Str(s) => x := GoString(s);
      case BigInt(n) => x := GoInt(n);
      case Symbol(_) => x := Kept(v);
      case Object(r) =>
        if r in seen {
          return Container(seen[r]);
        }
        match heap[r]
        case Date(ms) => x := GoTime(ms);
        case Bytes(data) => x := GoBytes(data);
        case Function => x := Callable(r);
        case Arr(_) => x := ExportArray(root, r);
        case Rec(_, _) => x := ExportRecord(root, r);
    }

    method ExportArray(ghost root: Value, r: Ref) returns (x: GoValue)
      requires WellFormed(heap) && Recorded(heap, root, seen, out)
      requires r in heap && heap[r].Arr? && r !in seen && Reachable(heap, root, r)
      modifies this
      ensures Recorded(heap, root, seen, out) && Grown(heap, old(seen), old(out), seen, out, {})
      ensures r in seen && x == Container(seen[r])
      decreases heap.Keys - seen.Keys, 0
    {
      var elems := heap[r].elems;
      var addr := Record(root, r, Slice(seq(|elems|, _ => Nil)));
      hide Recorded, Grown, Copied, Reachable, WellFormed, SliceFilled, TableFilled, Done;
      for i := 0 to |elems|
        invariant Recorded(heap, root, seen, out) && Grown(heap, old(seen), old(out), seen, out, {r})
        invariant old(seen).Keys + {r} <= seen.Keys && seen[r] == addr == |old(out)| && SliceFilled(heap, seen, out, r, i)
      {
        FillSlot(root, r, i, old(seen), old(out));
      }
      AllFilled(heap, seen, out, r);
      Close(heap, old(seen), old(out), seen, out, r);
      x := Container(addr);
    }

    /** out[i] = x, for one element. */
    method FillSlot(ghost root: Value, r: Ref, i: nat, ghost seen0: Seen, ghost out0: seq<GoObj>)
      requires WellFormed(heap) && Recorded(heap, root, seen, out) && Grown(heap, seen0, out0, seen, out, {r})
      requires r in heap && r in seen && |out0| <= seen[r] && Reachable(heap, root, r)
      requires heap[r].Arr? && i < |heap[r].elems| && SliceFilled(heap, seen, out, r, i)
      modifies this
      ensures Recorded(heap, root, seen, out) && Grown(heap, seen0, out0, seen, out, {r})
      ensures old(seen).Keys <= seen.Keys && r in seen && seen[r] == old(seen)[r] && SliceFilled(heap, seen, out, r, i + 1)
      decreases heap.Keys - seen.Keys, 2
    {
      ReachableStep(heap, root, r, Index(i));
      var v := heap[r].elems[i];
      assert Defined(heap, v);
      ghost var seen1, out1 := seen, out;
      hide *;
      var e := Export(root, v);
      SlotWritten(heap, root, seen0, out0, seen1, out1, seen, out, r, i, e);
      out := out[seen[r] := Slice(out[seen[r]].elems[i := e])];
    }

    /** out[k] = x, for one key. */
    method FillEntry(ghost root: Value, r: Ref, i: nat, ghost seen0: Seen, ghost out0: seq<GoObj>)
      requires WellFormed(heap) && Recorded(heap, root, seen, out) && Grown(heap, seen0, out0, seen, out, {r})
      requires r in heap && r in seen && |out0| <= seen[r] && Reachable(heap, root, r)
      requires heap[r].Rec? && i < |heap[r].keys| && TableFilled(heap, seen, out, r, i)
      modifies this
      ensures Recorded(heap, root, seen, out) && Grown(heap, seen0, out0, seen, out, {r})
      ensures old(seen).Keys <= seen.Keys && r in seen && seen[r] == old(seen)[r] && TableFilled(heap, seen, out, r, i + 1)
      decreases heap.Keys - seen.Keys, 2
    {
      var k := heap[r].keys[i];
      ReachableStep(heap, root, r, Key(k));
      var v := heap[r].props[k];
      assert Defined(heap, v);
      ghost var seen1, out1 := seen, out;
      hide *;
      var e := Export(root, v);
      EntryWritten(heap, root, seen0, out0, seen1, out1, seen, out, r, i, e);
      out := out[seen[r] := Table(out[seen[r]].entries[k := e])];
    }

    method ExportRecord(ghost root: Value, r: Ref) returns (x: GoValue)
      requires WellFormed(heap) && Recorded(heap, root, seen, out)
      requires r in heap && heap[r].Rec? && r !in seen && Reachable(heap, root, r)
      modifies this
      ensures Recorded(heap, root, seen, out) && Grown(heap, old(seen), old(out), seen, out, {})
      ensures r in seen && x == Container(seen[r])
      decreases heap.Keys - seen.Keys, 0
    {
      var keys := heap[r].keys;
      var addr := Record(root, r, Table(map[]));
      hide Recorded, Grown, Copied, Reachable, WellFormed, SliceFilled, TableFilled, Done;
      for i := 0 to |keys|
        invariant Recorded(heap, root, seen, out) && Grown(heap, old(seen), old(out), seen, out, {r})
        invariant old(seen).Keys + {r} <= seen.Keys && seen[r] == addr == |old(out)| && TableFilled(heap, seen, out, r, i)
      {
        FillEntry(root, r, i, old(seen), old(out));
      }
      AllFilled(heap, seen, out, r);
      Close(heap, old(seen), old(out), seen, out, r);
      x := Container(addr);
    }
  }

  // ----- the exported graph -----

  /** The export of v is x in the Go heap out, with seen as the map from objects to containers. */
  ghost predicate IsExport(h: Heap, v: Value, seen: Seen, out: seq<GoObj>, x: GoValue) {
    && Copied(h, seen, v, x)
    && Recorded(h, v, seen, out)
    && forall r :: r in seen ==> Done(h, seen, out, r)
  }

  /** Kind by kind: y is the Go form of w and of nothing else, up to which array or object a container stands for. */
  ghost predicate StandsFor(h: Heap, w: Value, out: seq<GoObj>, y: GoValue) {
    && (w.Undefined? || w.Null? <==> y == Nil)
    && (forall b :: w == Bool(b) <==> y == GoBool(b))
    && (forall n :: w == Number(n) <==> y == GoFloat(n))
    && (forall s :: w == Str(s) <==> y == GoString(s))
    && (forall n :: w == BigInt(n) <==> y == GoInt(n))
    && (w.Symbol? <==> y == Kept(w))
    && (w.Object? ==>
          && w.ref in h
          && (forall ms :: h[w.ref] == Date(ms) <==> y == GoTime(ms))
          && (forall data :: h[w.ref] == Bytes(data) <==> y == GoBytes(data))
          && (h[w.ref] == Function <==> y == Callable(w.ref))
          && (h[w.ref].Arr? <==> y.Container? && y.addr < |out| && out[y.addr].Slice?)
          && (h[w.ref].Rec? <==> y.Container? && y.addr < |out| && out[y.addr].Table?))
  }

  /** Value.Export on any finite heap, cyclic or not: it ends, and every recorded object is fully copied. */
  method ExportValue(h: Heap, v: Value) returns (x: GoValue, seen: Seen, out: seq<GoObj>)
    requires WellFormed(h) && Defined(h, v)
    ensures IsExport(h, v, seen, out, x) && StandsFor(h, v, out, x)
  {
    var e := new Exporter(h);
    if v.Object? {
      assert HasPath(h, v, []) && Follow(h, v, []) == Object(v.ref);
    }
    x := e.Export(v, v);
    seen, out := e.seen, e.out;
    CopiedStandsFor(h, seen, out, v, x);
  }

  /** The copy commutes with every element and every key. */
  lemma EdgeCommutes(h: Heap, v: Value, seen: Seen, out: seq<GoObj>, x: GoValue, e: Edge)
    requires Copied(h, seen, v, x) && (forall r :: r in seen ==> Done(h, seen, out, r))
    ensures HasEdge(h, v, e) <==> GoHasEdge(out, x, e)
    ensures HasEdge(h, v, e) ==> Copied(h, seen, Along(h, v, e), GoAlong(out, x, e))
  {
    if IsContainer(h, v) {
      assert Done(h, seen, out, v.ref);
    }
  }

  /** Whatever path leads somewhere in one graph leads to its image in the other. */
  lemma {:induction false} PathCommutes(h: Heap, v: Value, seen: Seen, out: seq<GoObj>, x: GoValue, path: seq<Edge>)
    requires Copied(h, seen, v, x) && (forall r :: r in seen ==> Done(h, seen, out, r))
    ensures HasPath(h, v, path) <==> GoHasPath(out, x, path)
    ensures HasPath(h, v, path) ==> Copied(h, seen, Follow(h, v, path), GoFollow(out, x, path))
    decreases |path|
  {
    if path != [] {
      EdgeCommutes(h, v, seen, out, x, path[0]);
      if HasEdge(h, v, path[0]) {
        PathCommutes(h, Along(h, v, path[0]), seen, out, GoAlong(out, x, path[0]), path[1..]);
      }
    }
  }

  /** What is found at the end of a path in the copy stands for what is found there in the heap. */
  lemma ValuesKept(h: Heap, v: Value, seen: Seen, out: seq<GoObj>, x: GoValue, path: seq<Edge>)
    requires IsExport(h, v, seen, out, x) && HasPath(h, v, path)
    ensures GoHasPath(out, x, path) && StandsFor(h, Follow(h, v, path), out, GoFollow(out, x, path))
  {
    PathCommutes(h, v, seen, out, x, path);
    hide HasPath, Follow, GoHasPath, GoFollow, StandsFor;
    CopiedStandsFor(h, seen, out, Follow(h, v, path), GoFollow(out, x, path));
  }

  lemma CopiedStandsFor(h: Heap, seen: Seen, out: seq<GoObj>, w: Value, y: GoValue)
    requires Copied(h, seen, w, y) && forall r :: r in seen ==> Done(h, seen, out, r)
    ensures StandsFor(h, w, out, y)
  {
    if IsContainer(h, w) {
      assert Done(h, seen, out, w.ref);
    }
  }

  /** Sharing and cycles are preserved: two paths meet in one object exactly when they meet in one container. */
  lemma SharingPreserved(h: Heap, v: Value, seen: Seen, out: seq<GoObj>, x: GoValue, p: seq<Edge>, q: seq<Edge>)
    requires IsExport(h, v, seen, out, x) && HasPath(h, v, p) && HasPath(h, v, q)
    requires IsContainer(h, Follow(h, v, p)) && IsContainer(h, Follow(h, v, q))
    ensures GoHasPath(out, x, p) && GoHasPath(out, x, q)
    ensures Follow(h, v, p) == Follow(h, v, q) <==> GoFollow(out, x, p) == GoFollow(out, x, q)
  {
    PathCommutes(h, v, seen, out, x, p);
    PathCommutes(h, v, seen, out, x, q);
    hide HasPath, Follow, GoHasPath, GoFollow, Copied, Done, IsContainer;
    CopiedContainer(h, seen, Follow(h, v, p), GoFollow(out, x, p));
    CopiedContainer(h, seen, Follow(h, v, q), GoFollow(out, x, q));
  }

  lemma CopiedContainer(h: Heap, seen: Seen, v: Value, x: GoValue)
    requires Copied(h, seen, v, x) && IsContainer(h, v)
    ensures v.Object? && v.ref in seen && x == Container(seen[v.ref])
  {
  }

  /** Exactly the containers that can be reached are copied, each once, and nothing else is allocated. */
  lemma CopiesWhatIsReachable(h: Heap, v: Value, seen: Seen, out: seq<GoObj>, x: GoValue)
    requires IsExport(h, v, seen, out, x)
    ensures forall r :: r in seen <==> Reachable(h, v, r) && IsContainer(h, Object(r))
    ensures |out| == |seen|
    ensures forall r, q :: r in seen && q in seen && seen[r] == seen[q] ==> r == q
  {
    forall r | Reachable(h, v, r) && IsContainer(h, Object(r))
      ensures r in seen
    {
      var path :| HasPath(h, v, path) && Follow(h, v, path) == Object(r);
      PathCommutes(h, v, seen, out, x, path);
    }
  }
}
