/** The table behind Map and Set (internal/engine/builtin_collections.go): slots in insertion order, deleted
  * ones left as tombstones, and an index from key strings to slots; against a plain insertion-ordered list of
  * entries in which keys are compared with SameValueZero.
  */
module Collections {
  import opened Wrappers
  import opened KeyedValues

  // ----- the plain ordered map -----

  datatype Entry = Entry(key: Value, val: Value)

  function Lookup(es: seq<Entry>, k: Value): Option<Value> {
    if es == [] then None
    else if SameValueZero(es[0].key, k) then Some(es[0].val)
    else Lookup(es[1..], k)
  }

  /** An existing entry keeps its place and its key; a new one goes to the end, with -0 made +0. */
  function Put(es: seq<Entry>, k: Value, v: Value): seq<Entry> {
    if es == [] then [Entry(NormMapKey(k), v)]
    else if SameValueZero(es[0].key, k) then [Entry(es[0].key, v)] + es[1..]
    else [es[0]] + Put(es[1..], k, v)
  }

  function Drop(es: seq<Entry>, k: Value): seq<Entry> {
    if es == [] then []
    else if SameValueZero(es[0].key, k) then es[1..]
    else [es[0]] + Drop(es[1..], k)
  }

  /** What a script does to the map; a callback is itself such a script, and throws or returns a value. */
  datatype Op =
    | Set(k: Value, v: Value)
    | Add(k: Value)
    | GetOrInsert(k: Value, v: Value)
    | GetOrInsertComputed(k: Value, cb: Callback)
    | Delete(k: Value)
    | Clear

  datatype Callback = NotCallable | Callback(body: seq<Op>, result: Option<Value>)

  function Apply(es: seq<Entry>, op: Op): seq<Entry>
    decreases op, 0
  {
    match op
    case Set(k, v) => Put(es, k, v)
    case Add(k) => if Lookup(es, k).Some? then es else Put(es, k, Undef)
    case GetOrInsert(k, v) => if Lookup(es, k).Some? then es else Put(es, k, v)
    case GetOrInsertComputed(k, cb) =>
      if cb.NotCallable? || Lookup(es, k).Some? then es
      else
        var after := ApplyAll(es, cb.body);
        if cb.result.None? then after else Put(after, k, cb.result.value)
    case Delete(k) => Drop(es, k)
    case Clear => []
  }

  function ApplyAll(es: seq<Entry>, ops: seq<Op>): seq<Entry>
    decreases ops, 1
  {
    if ops == [] then es else ApplyAll(Apply(es, ops[0]), ops[1..])
  }

  // ----- what the operations do to what is looked up -----

  ghost predicate KeysDistinct(es: seq<Entry>) {
    forall i, j | 0 <= i < j < |es| :: !SameValueZero(es[i].key, es[j].key)
  }

  lemma SameAlike(a: Value, b: Value, c: Value)
    ensures SameValueZero(a, b) ==> (SameValueZero(a, c) <==> SameValueZero(b, c))
    ensures SameValueZero(a, a) && SameValueZero(NormMapKey(a), a)
  {
  }

  lemma SameSymmetric(a: Value, b: Value)
    ensures SameValueZero(a, b) <==> SameValueZero(b, a)
  {
  }

  lemma {:induction false} LookupPut(es: seq<Entry>, k: Value, v: Value, x: Value)
    ensures Lookup(Put(es, k, v), x) == if SameValueZero(k, x) then Some(v) else Lookup(es, x)
  {
    hide SameValueZero, NormMapKey;
    if es == [] {
      SameAlike(NormMapKey(k), k, x);
      SameAlike(k, k, x);
    } else {
      LookupPut(es[1..], k, v, x);
      SameAlike(es[0].key, k, x);
      SameAlike(x, es[0].key, k);
      SameSymmetric(x, es[0].key);
      SameSymmetric(x, k);
      assert es[0].key == Put(es, k, v)[0].key;
    }
  }

  /** An existing key keeps its place; a new one goes to the end. */
  lemma {:induction false} PutPlaces(es: seq<Entry>, k: Value, v: Value)
    ensures |Put(es, k, v)| == if Lookup(es, k).Some? then |es| else |es| + 1
    ensures forall i | 0 <= i < |es| :: Put(es, k, v)[i].key == es[i].key
    ensures Lookup(es, k).None? ==> Put(es, k, v)[..|es|] == es
    ensures Lookup(es, k).None? ==> Put(es, k, v)[|es|] == Entry(if k == Num(0x8000_0000_0000_0000) then Num(0) else k, v)
  {
    hide SameValueZero;
    if es == [] {
      NormMapKeyIs(k);
    } else {
      PutPlaces(es[1..], k, v);
    }
  }

  lemma {:induction false} LookupDrop(es: seq<Entry>, k: Value, x: Value)
    requires KeysDistinct(es)
    ensures Lookup(Drop(es, k), x) == if SameValueZero(k, x) then None else Lookup(es, x)
    ensures |Drop(es, k)| == if Lookup(es, k).Some? then |es| - 1 else |es|
  {
    if es != [] {
      assert forall i | 0 < i < |es| :: !SameValueZero(es[0].key, es[i].key);
      assert forall i | 0 <= i < |es| - 1 :: es[1..][i] == es[i + 1];
      LookupDrop(es[1..], k, x);
      if SameValueZero(es[0].key, k) && SameValueZero(k, x) {
        SameAlike(es[0].key, k, x);
        forall i | 0 < i < |es|
          ensures !SameValueZero(es[i].key, x)
        {
          SameAlike(x, es[0].key, es[i].key);
          SameSymmetric(es[i].key, x);
          SameSymmetric(es[0].key, x);
        }
        LookupAbsent(es[1..], x);
      } else {
        SameAlike(es[0].key, k, x);
      }
    }
  }

  /** What is dropped is one entry, and the others keep their order. */
  lemma {:induction false} DropOne(es: seq<Entry>, k: Value) returns (i: nat)
    requires Lookup(es, k).Some?
    ensures i < |es| && SameValueZero(es[i].key, k) && Drop(es, k) == es[..i] + es[i + 1..]
  {
    if SameValueZero(es[0].key, k) {
      i := 0;
    } else {
      var j := DropOne(es[1..], k);
      i := j + 1;
      assert es[..i] == [es[0]] + es[1..][..j] && es[i + 1..] == es[1..][j + 1..];
    }
  }

  lemma {:induction false} LookupAbsent(es: seq<Entry>, x: Value)
    ensures Lookup(es, x) == None <==> forall i | 0 <= i < |es| :: !SameValueZero(es[i].key, x)
  {
    if es != [] {
      LookupAbsent(es[1..], x);
      assert es == [es[0]] + es[1..];
    }
  }

  lemma {:induction false} PutKeepsDistinct(es: seq<Entry>, k: Value, v: Value)
    requires KeysDistinct(es)
    ensures KeysDistinct(Put(es, k, v))
  {
    PutPlaces(es, k, v);
    LookupAbsent(es, k);
    var r := Put(es, k, v);
    if Lookup(es, k) == None {
      NormMapKeyIs(k);
      forall i | 0 <= i < |es|
        ensures !SameValueZero(r[i].key, r[|es|].key)
      {
        SameAlike(NormMapKey(k), k, es[i].key);
        SameAlike(k, k, k);
        SameSymmetric(es[i].key, k);
        SameSymmetric(es[i].key, r[|es|].key);
      }
    }
    hide Put, SameValueZero, NormMapKey;
  }

  lemma DropKeepsDistinct(es: seq<Entry>, k: Value)
    requires KeysDistinct(es)
    ensures KeysDistinct(Drop(es, k))
  {
    hide SameValueZero;
    if Lookup(es, k).Some? {
      var i := DropOne(es, k);
      assert forall j | 0 <= j < |es| - 1 :: Drop(es, k)[j] == if j < i then es[j] else es[j + 1];
    } else {
      DropNothing(es, k);
    }
  }

  /** No two entries ever have the same key. */
  lemma {:induction false} ApplyKeepsDistinct(es: seq<Entry>, op: Op)
    requires KeysDistinct(es)
    ensures KeysDistinct(Apply(es, op))
    decreases op, 0
  {
    hide KeysDistinct, Put, Drop, Lookup, ApplyAll;
    match op
    case Set(k, v) => PutKeepsDistinct(es, k, v);
    case Add(k) => PutKeepsDistinct(es, k, Undef);
    case GetOrInsert(k, v) => PutKeepsDistinct(es, k, v);
    case GetOrInsertComputed(k, cb) =>
      if cb.Callback? {
        ApplyAllKeepsDistinct(es, cb.body);
        if cb.result.Some? {
          PutKeepsDistinct(ApplyAll(es, cb.body), k, cb.result.value);
        }
      }
    case Delete(k) => DropKeepsDistinct(es, k);
    case Clear => NothingIsDistinct();
  }

  lemma NothingIsDistinct()
    ensures KeysDistinct([])
  {
  }

  lemma {:induction false} DropNothing(es: seq<Entry>, k: Value)
    requires Lookup(es, k) == None
    ensures Drop(es, k) == es
  {
    if es != [] {
      DropNothing(es[1..], k);
    }
  }

  lemma {:induction false} ApplyAllKeepsDistinct(es: seq<Entry>, ops: seq<Op>)
    requires KeysDistinct(es)
    ensures KeysDistinct(ApplyAll(es, ops))
    decreases ops, 1
  {
    if ops != [] {
      ApplyKeepsDistinct(es, ops[0]);
      ApplyAllKeepsDistinct(Apply(es, ops[0]), ops[1..]);
    }
  }

  /** What each operation leaves under every key x. */
  lemma ApplyMeans(es: seq<Entry>, op: Op, x: Value)
    requires KeysDistinct(es)
    ensures op.Set? ==> Lookup(Apply(es, op), x) == if SameValueZero(op.k, x) then Some(op.v) else Lookup(es, x)
    ensures op.Add? ==>
              Lookup(Apply(es, op), x) == if SameValueZero(op.k, x) && Lookup(es, op.k) == None then Some(Undef) else Lookup(es, x)
    ensures op.GetOrInsert? ==>
              Lookup(Apply(es, op), x) == if SameValueZero(op.k, x) && Lookup(es, op.k) == None then Some(op.v) else Lookup(es, x)
    ensures op.GetOrInsertComputed? && (op.cb.NotCallable? || Lookup(es, op.k).Some?) ==> Apply(es, op) == es
    ensures op.GetOrInsertComputed? && op.cb.Callback? && Lookup(es, op.k) == None ==>
              var after := ApplyAll(es, op.cb.body);
              if op.cb.result == None then Apply(es, op) == after
              else Lookup(Apply(es, op), x) == if SameValueZero(op.k, x) then op.cb.result else Lookup(after, x)
    ensures op.Delete? ==> Lookup(Apply(es, op), x) == if SameValueZero(op.k, x) then None else Lookup(es, x)
    ensures op.Clear? ==> Lookup(Apply(es, op), x) == None
  {
    match op
    case Set(k, v) => LookupPut(es, k, v, x);
    case Add(k) => LookupPut(es, k, Undef, x); LookupSame(es, k, x);
    case GetOrInsert(k, v) => LookupPut(es, k, v, x); LookupSame(es, k, x);
    case GetOrInsertComputed(k, cb) =>
      if cb.Callback? && cb.result.Some? {
        LookupPut(ApplyAll(es, cb.body), k, cb.result.value, x);
      }
    case Delete(k) => LookupDrop(es, k, x);
    case Clear =>
  }

  lemma LookupSame(es: seq<Entry>, k: Value, x: Value)
    ensures SameValueZero(k, x) ==> (Lookup(es, k) == None <==> Lookup(es, x) == None)
  {
    LookupAbsent(es, k);
    LookupAbsent(es, x);
  }

  // ----- the slots -----

  type Slots = seq<Option<Value>>

  /** The entries that are not tombstones, in order. */
  function Live(keys: Slots, vals: seq<Value>): seq<Entry>
    requires |keys| == |vals|
  {
    if keys == [] then []
    else if keys[0].None? then Live(keys[1..], vals[1..])
    else [Entry(keys[0].value, vals[0])] + Live(keys[1..], vals[1..])
  }

  predicate Holds(slot: Option<Value>, k: Value) {
    slot.Some? && SameValueZero(slot.value, k)
  }

  lemma {:induction false} LiveFound(keys: Slots, vals: seq<Value>, i: nat, k: Value, v: Value)
    requires |keys| == |vals| && i < |keys| && Holds(keys[i], k)
    requires forall j | 0 <= j < i :: !Holds(keys[j], k)
    ensures Lookup(Live(keys, vals), k) == Some(vals[i])
    ensures Live(keys, vals[i := v]) == Put(Live(keys, vals), k, v)
    ensures Live(keys[i := None], vals[i := v]) == Drop(Live(keys, vals), k)
  {
    var es := Live(keys, vals);
    assert keys[0].Some? ==> es[1..] == Live(keys[1..], vals[1..]);
    if i > 0 {
      assert vals[i := v][1..] == vals[1..][i - 1 := v];
      assert keys[i := None][1..] == keys[1..][i - 1 := None];
      LiveFound(keys[1..], vals[1..], i - 1, k, v);
    } else {
      assert vals[i := v][1..] == vals[1..] && keys[i := None][1..] == keys[1..];
    }
  }

  lemma {:induction false} LiveAbsent(keys: Slots, vals: seq<Value>, k: Value, v: Value)
    requires |keys| == |vals| && forall j | 0 <= j < |keys| :: !Holds(keys[j], k)
    ensures Lookup(Live(keys, vals), k) == None
    ensures Drop(Live(keys, vals), k) == Live(keys, vals)
    ensures Put(Live(keys, vals), k, v) == Live(keys + [Some(NormMapKey(k))], vals + [v])
  {
    var more, mv := keys + [Some(NormMapKey(k))], vals + [v];
    assert keys != [] && keys[0].Some? ==> Live(keys, vals)[1..] == Live(keys[1..], vals[1..]);
    if keys == [] {
      assert more[1..] == [] && mv[1..] == [];
    } else {
      assert more[1..] == keys[1..] + [Some(NormMapKey(k))] && mv[1..] == vals[1..] + [v];
      LiveAbsent(keys[1..], vals[1..], k, v);
    }
  }

  /** How many slots are live. */
  function CountLive(keys: Slots): nat {
    if keys == [] then 0 else CountLive(keys[..|keys| - 1]) + (if keys[|keys| - 1].Some? then 1 else 0)
  }

  ghost function LiveAt(keys: Slots): set<nat> {
    set i | 0 <= i < |keys| && keys[i].Some?
  }

  lemma {:induction false} CountIsLiveAt(keys: Slots)
    ensures CountLive(keys) == |LiveAt(keys)|
  {
    if keys != [] {
      var n := |keys| - 1;
      CountIsLiveAt(keys[..n]);
      assert LiveAt(keys) == LiveAt(keys[..n]) + (if keys[n].Some? then {n} else {});
    }
  }

  lemma {:induction false} CountIsLive(keys: Slots, vals: seq<Value>)
    requires |keys| == |vals|
    ensures CountLive(keys) == |Live(keys, vals)|
  {
    if keys != [] {
      var n := |keys| - 1;
      CountIsLive(keys[..n], vals[..n]);
      LiveSnoc(keys[..n], vals[..n], keys[n], vals[n]);
      assert keys == keys[..n] + [keys[n]] && vals == vals[..n] + [vals[n]];
    }
  }

  lemma {:induction false} LiveSnoc(keys: Slots, vals: seq<Value>, slot: Option<Value>, v: Value)
    requires |keys| == |vals|
    ensures Live(keys + [slot], vals + [v]) == Live(keys, vals) + (if slot.Some? then [Entry(slot.value, v)] else [])
  {
    if keys == [] {
      assert ([slot] + [])[1..] == [];
    } else {
      assert (keys + [slot])[1..] == keys[1..] + [slot] && (vals + [v])[1..] == vals[1..] + [v];
      LiveSnoc(keys[1..], vals[1..], slot, v);
    }
  }

  // ----- the table -----

  /** index is a bijection between the key strings of the live slots and their positions, and a stored key is
    * never -0.
    */
  ghost predicate TableInv(keys: Slots, vals: seq<Value>, index: map<string, nat>) {
    && |keys| == |vals|
    && (forall ck | ck in index :: index[ck] < |keys| && keys[index[ck]].Some? && CanonicalKey(keys[index[ck]].value) == ck)
    && (forall i | 0 <= i < |keys| && keys[i].Some? ::
          && CanonicalKey(keys[i].value) in index && index[CanonicalKey(keys[i].value)] == i
          && NormMapKey(keys[i].value) == keys[i].value)
  }

  /** The slot that the index names is the one that holds the key, and no slot holds a key that is not named. */
  lemma IndexFinds(keys: Slots, vals: seq<Value>, index: map<string, nat>, k: Value)
    requires TableInv(keys, vals, index)
    ensures CanonicalKey(k) in index ==>
              var i := index[CanonicalKey(k)];
              i < |keys| && Holds(keys[i], k) && forall j | 0 <= j < |keys| && j != i :: !Holds(keys[j], k)
    ensures CanonicalKey(k) !in index ==> forall j | 0 <= j < |keys| :: !Holds(keys[j], k)
  {
    forall j | 0 <= j < |keys| && keys[j].Some?
      ensures Holds(keys[j], k) <==> CanonicalKey(k) == CanonicalKey(keys[j].value)
    {
      KeysAgree(keys[j].value, k);
    }
  }

  lemma {:induction false} IndexSize(keys: Slots, vals: seq<Value>, index: map<string, nat>)
    requires TableInv(keys, vals, index)
    ensures |index| == CountLive(keys)
  {
    var at := LiveAt(keys);
    CountIsLiveAt(keys);
    InjectiveSize(index, at);
  }

  lemma {:induction false} InjectiveSize(index: map<string, nat>, at: set<nat>)
    requires forall i | i in at :: exists ck | ck in index :: index[ck] == i
    requires forall ck | ck in index :: index[ck] in at
    requires forall c, d | c in index && d in index && index[c] == index[d] :: c == d
    ensures |index| == |at|
    decreases |at|
  {
    if at != {} {
      var i :| i in at;
      var ck :| ck in index && index[ck] == i;
      forall j | j in at - {i} ensures exists c | c in index - {ck} :: (index - {ck})[c] == j {
        var c :| c in index && index[c] == j;
        assert c in index - {ck};
      }
      InjectiveSize(index - {ck}, at - {i});
      assert index.Keys == (index - {ck}).Keys + {ck};
    } else {
      assert index.Keys == {};
    }
  }

  class Collection {
    var keys: Slots
    var vals: seq<Value>
    var index: map<string, nat>

    ghost predicate Valid()
      reads this
    {
      TableInv(keys, vals, index)
    }

    ghost function Entries(): seq<Entry>
      reads this
      requires Valid()
    {
      Live(keys, vals)
    }

    constructor ()
      ensures Valid() && Entries() == []
    {
      keys, vals, index := [], [], map[];
    }

    /** Map.prototype.set. */
    method Set(key: Value, v: Value)
      requires Valid()
      modifies this
      ensures Valid() && Entries() == Put(old(Entries()), key, v)
    {
      var k := NormMapKey(key);
      var ck := CanonicalKey(k);
      NormKeepsKey(key);
      IndexFinds(keys, vals, index, key);
      if ck in index {
        LiveFound(keys, vals, index[ck], key, v);
        vals := vals[index[ck] := v];
      } else {
        LiveAbsent(keys, vals, key, v);
        index := index[ck := |keys|];
        keys := keys + [Some(k)];
        vals := vals + [v];
      }
    }

    /** The lookup of get, has and delete, which does not normalise -0 first. */
    method Find(key: Value) returns (r: Option<Value>)
      requires Valid()
      ensures r == Lookup(Entries(), key)
    {
      var ck := CanonicalKey(key);
      IndexFinds(keys, vals, index, key);
      if ck in index {
        LiveFound(keys, vals, index[ck], key, Undef);
        return Some(vals[index[ck]]);
      }
      LiveAbsent(keys, vals, key, Undef);
      return None;
    }

    /** Set.prototype.add. */
    method Add(key: Value)
      requires Valid()
      modifies this
      ensures Valid() && Entries() == Apply(old(Entries()), Op.Add(key))
    {
      var present := Find(key);
      if present.None? {
        Set(key, Undef);
      }
    }

    method GetOrInsert(key: Value, v: Value) returns (r: Value)
      requires Valid()
      modifies this
      ensures Valid() && Entries() == Apply(old(Entries()), Op.GetOrInsert(key, v))
      ensures r == (if Lookup(old(Entries()), key).Some? then Lookup(old(Entries()), key).value else v)
    {
      var present := Find(key);
      if present.Some? {
        return present.value;
      }
      Set(key, v);
      return v;
    }

    /** The callback may do anything to this same map before it returns; None stands for the TypeError of a
      * callback that cannot be called, or for what the callback threw.
      */
    method GetOrInsertComputed(key: Value, cb: Callback) returns (r: Option<Value>)
      requires Valid()
      modifies this
      ensures Valid() && Entries() == Apply(old(Entries()), Op.GetOrInsertComputed(key, cb))
      ensures cb.NotCallable? ==> r == None
      ensures cb.Callback? ==> r == (if Lookup(old(Entries()), key).Some? then Lookup(old(Entries()), key) else cb.result)
      decreases Op.GetOrInsertComputed(key, cb), 0
    {
      if cb.NotCallable? {
        return None;
      }
      var present := Find(key);
      if present.Some? {
        return present;
      }
      RunAll(cb.body);
      if cb.result.None? {
        return None;
      }
      Set(key, cb.result.value);
      return cb.result;
    }

    /** collection.remove: the slot becomes a tombstone. */
    method Remove(key: Value) returns (found: bool)
      requires Valid()
      modifies this
      ensures Valid() && Entries() == Drop(old(Entries()), key)
      ensures found == Lookup(old(Entries()), key).Some?
    {
      var ck := CanonicalKey(key);
      IndexFinds(keys, vals, index, key);
      if ck !in index {
        LiveAbsent(keys, vals, key, Undef);
        return false;
      }
      var i := index[ck];
      LiveFound(keys, vals, i, key, Undef);
      index := index - {ck};
      keys := keys[i := None];
      vals := vals[i := Undef];
      return true;
    }

    method Clear()
      modifies this
      ensures Valid() && Entries() == []
    {
      keys, vals, index := [], [], map[];
    }

    method Size() returns (n: nat)
      requires Valid()
      ensures n == |Entries()| == |index|
    {
      n := 0;
      for i := 0 to |keys|
        invariant n == CountLive(keys[..i])
      {
        assert keys[..i + 1][..i] == keys[..i];
        if keys[i].Some? {
          n := n + 1;
        }
      }
      assert keys[..|keys|] == keys;
      CountIsLive(keys, vals);
      IndexSize(keys, vals, index);
    }

    method Run(op: Op)
      requires Valid()
      modifies this
      ensures Valid() && Entries() == Apply(old(Entries()), op)
      decreases op, 1
    {
      match op
      case Set(k, v) => Set(k, v);
      case Add(k) => Add(k);
      case GetOrInsert(k, v) => var _ := GetOrInsert(k, v);
      case GetOrInsertComputed(k, cb) => var _ := GetOrInsertComputed(k, cb);
      case Delete(k) => var _ := Remove(k);
      case Clear => Clear();
    }

    /** Any script, with any re-entrant callbacks, does to the table what it does to the plain ordered map. */
    method RunAll(ops: seq<Op>)
      requires Valid()
      modifies this
      ensures Valid() && Entries() == ApplyAll(old(Entries()), ops)
      decreases ops, 2
    {
      if ops != [] {
        Run(ops[0]);
        RunAll(ops[1..]);
      }
    }
  }
}
