/** The set methods of ES2025 (internal/engine/builtin_collections.go).  Each either walks its own elements and
  * asks the other's has, or drains the other's keys, depending on the two sizes; for a record whose has, keys
  * and size agree and that changes nothing, the choice makes no difference.
  */
module SetAlgebra {
  import opened Wrappers
  import opened KeyedValues
  import opened Collections

  /** The set-like argument, read once: size (None for Infinity), has, and what its keys() yields. */
  datatype SetRecord = SetRecord(size: Option<nat>, has: Value -> bool, keys: seq<Value>)

  /** iterateSetKeys gives up after this many keys. */
  const MAX_EAGER: nat := 0x100_0000

  predicate AtMost(n: nat, size: Option<nat>) {
    size == None || n <= size.value
  }

  function Drained(keys: seq<Value>): (r: seq<Value>)
    ensures r <= keys && |r| <= MAX_EAGER && (|keys| <= MAX_EAGER ==> r == keys)
  {
    if |keys| <= MAX_EAGER then keys else keys[..MAX_EAGER]
  }

  // ----- sequences of values as sets -----

  /** The values up to SameValueZero. */
  ghost function KeySet(vs: seq<Value>): set<string> {
    set i | 0 <= i < |vs| :: CanonicalKey(vs[i])
  }

  predicate Distinct(vs: seq<Value>) {
    forall i, j | 0 <= i < j < |vs| :: CanonicalKey(vs[i]) != CanonicalKey(vs[j])
  }

  ghost function Restrict(vs: seq<Value>, to: set<string>, want: bool): seq<Value> {
    if vs == [] then []
    else
      var init, last := vs[..|vs| - 1], vs[|vs| - 1];
      if (CanonicalKey(last) in to) == want then Restrict(init, to, want) + [last] else Restrict(init, to, want)
  }

  /** The values of vs that are in the set, in order. */
  ghost function Inside(vs: seq<Value>, to: set<string>): seq<Value> {
    Restrict(vs, to, true)
  }

  ghost function Outside(vs: seq<Value>, to: set<string>): seq<Value> {
    Restrict(vs, to, false)
  }

  /** First occurrences, with -0 made +0. */
  ghost function Dedup(vs: seq<Value>): seq<Value> {
    if vs == [] then []
    else
      var init, last := vs[..|vs| - 1], vs[|vs| - 1];
      if CanonicalKey(last) in KeySet(init) then Dedup(init) else Dedup(init) + [NormMapKey(last)]
  }

  /** has and keys describe the same set, size counts it, and the record is not too big to drain. */
  ghost predicate Consistent(rec: SetRecord) {
    && (forall v :: rec.has(v) <==> CanonicalKey(v) in KeySet(rec.keys))
    && rec.size == Some(|KeySet(rec.keys)|)
    && |rec.keys| <= MAX_EAGER
  }

  lemma KeySetSnoc(vs: seq<Value>, v: Value)
    ensures KeySet(vs + [v]) == KeySet(vs) + {CanonicalKey(v)}
  {
    var ws := vs + [v];
    assert forall i | 0 <= i < |vs| :: ws[i] == vs[i];
    assert ws[|vs|] == v;
  }

  lemma KeySetConcat(a: seq<Value>, b: seq<Value>)
    ensures KeySet(a + b) == KeySet(a) + KeySet(b)
  {
    assert forall i | 0 <= i < |a| :: (a + b)[i] == a[i];
    assert forall i | 0 <= i < |b| :: (a + b)[|a| + i] == b[i];
  }

  lemma {:induction false} RestrictFacts(vs: seq<Value>, to: set<string>, want: bool)
    ensures KeySet(Restrict(vs, to, want)) == (if want then KeySet(vs) * to else KeySet(vs) - to)
  {
    if vs != [] {
      var init, last := vs[..|vs| - 1], vs[|vs| - 1];
      RestrictFacts(init, to, want);
      assert vs == init + [last];
      KeySetSnoc(init, last);
      if (CanonicalKey(last) in to) == want {
        KeySetSnoc(Restrict(init, to, want), last);
      }
    }
  }

  /** What is kept is kept in order: it is the values at increasing positions, all those whose membership is as wanted. */
  lemma {:induction false} RestrictOrder(vs: seq<Value>, to: set<string>, want: bool) returns (kept: seq<nat>)
    ensures |kept| == |Restrict(vs, to, want)| && forall i, j | 0 <= i < j < |kept| :: kept[i] < kept[j]
    ensures forall i | 0 <= i < |kept| :: kept[i] < |vs| && Restrict(vs, to, want)[i] == vs[kept[i]]
    ensures forall k: nat | k < |vs| :: k in kept <==> (CanonicalKey(vs[k]) in to) == want
  {
    if vs == [] {
      kept := [];
    } else {
      var n := |vs| - 1;
      kept := RestrictOrder(vs[..n], to, want);
      hide CanonicalKey;
      assert forall k: nat | k < n :: vs[..n][k] == vs[k];
      if (CanonicalKey(vs[n]) in to) == want {
        kept := kept + [n];
      }
    }
  }

  lemma {:induction false} DedupFacts(vs: seq<Value>)
    ensures KeySet(Dedup(vs)) == KeySet(vs) && Distinct(Dedup(vs))
  {
    if vs != [] {
      var init, last := vs[..|vs| - 1], vs[|vs| - 1];
      DedupFacts(init);
      assert vs == init + [last];
      KeySetSnoc(init, last);
      if CanonicalKey(last) !in KeySet(init) {
        NormKeepsKey(last);
        KeySetSnoc(Dedup(init), NormMapKey(last));
        var d := Dedup(init);
        assert forall i | 0 <= i < |d| :: CanonicalKey(d[i]) in KeySet(d);
      }
    }
  }

  lemma {:induction false} DistinctSize(vs: seq<Value>)
    requires Distinct(vs)
    ensures |KeySet(vs)| == |vs|
  {
    if vs != [] {
      var init, last := vs[..|vs| - 1], vs[|vs| - 1];
      DistinctSize(init);
      assert vs == init + [last];
      KeySetSnoc(init, last);
      DistinctSnoc(init, last);
    }
  }

  lemma SubsetSize(small: set<string>, large: set<string>)
    requires small <= large
    ensures |small| <= |large|
  {
    assert large == small + (large - small);
  }

  /** Union in this-then-other order. */
  lemma {:induction false} DedupConcat(es: seq<Value>, ks: seq<Value>)
    requires Dedup(es) == es
    ensures Dedup(es + ks) == es + Dedup(Outside(ks, KeySet(es)))
  {
    if ks == [] {
      assert es + [] == es;
    } else {
      var init, last := ks[..|ks| - 1], ks[|ks| - 1];
      DedupConcat(es, init);
      assert (es + ks)[..|es + ks| - 1] == es + init && (es + ks)[|es + ks| - 1] == last;
      KeySetConcat(es, init);
      RestrictFacts(init, KeySet(es), false);
      var o := Outside(init, KeySet(es));
      assert (o + [last])[..|o + [last]| - 1] == o;
      assert CanonicalKey(last) !in KeySet(es) ==> (CanonicalKey(last) in KeySet(o) <==> CanonicalKey(last) in KeySet(init));
    }
  }

  // ----- a Set's elements -----

  function LiveKeys(keys: Slots): seq<Value> {
    if keys == [] then []
    else
      var init, last := keys[..|keys| - 1], keys[|keys| - 1];
      if last.Some? then LiveKeys(init) + [last.value] else LiveKeys(init)
  }

  function KeysOf(es: seq<Entry>): seq<Value> {
    if es == [] then [] else KeysOf(es[..|es| - 1]) + [es[|es| - 1].key]
  }

  ghost function Elements(s: Collection): seq<Value>
    reads s
    requires s.Valid()
  {
    KeysOf(s.Entries())
  }

  lemma {:induction false} LiveKeysOf(keys: Slots, vals: seq<Value>)
    requires |keys| == |vals|
    ensures KeysOf(Live(keys, vals)) == LiveKeys(keys)
  {
    if keys != [] {
      var n := |keys| - 1;
      LiveKeysOf(keys[..n], vals[..n]);
      LiveSnoc(keys[..n], vals[..n], keys[n], vals[n]);
      assert keys == keys[..n] + [keys[n]] && vals == vals[..n] + [vals[n]];
      var init := Live(keys[..n], vals[..n]);
      if keys[n].Some? {
        assert (init + [Entry(keys[n].value, vals[n])])[..|init|] == init;
      } else {
        assert init + [] == init;
      }
    }
  }

  /** The key strings of the live slots. */
  ghost function SlotKeys(keys: Slots): set<string> {
    set i | 0 <= i < |keys| && keys[i].Some? :: CanonicalKey(keys[i].value)
  }

  ghost predicate SlotsDistinct(keys: Slots) {
    && (forall i, j | 0 <= i < j < |keys| && keys[i].Some? && keys[j].Some? ::
          CanonicalKey(keys[i].value) != CanonicalKey(keys[j].value))
    && (forall i | 0 <= i < |keys| && keys[i].Some? :: NormMapKey(keys[i].value) == keys[i].value)
  }

  lemma SlotKeysSnoc(keys: Slots)
    requires keys != []
    ensures var init, last := keys[..|keys| - 1], keys[|keys| - 1];
            && SlotKeys(keys) == SlotKeys(init) + (if last.Some? then {CanonicalKey(last.value)} else {})
            && (SlotsDistinct(keys) ==> SlotsDistinct(init))
            && (SlotsDistinct(keys) && last.Some? ==>
                  CanonicalKey(last.value) !in SlotKeys(init) && NormMapKey(last.value) == last.value)
  {
    var init, last := keys[..|keys| - 1], keys[|keys| - 1];
    assert forall i | 0 <= i < |init| :: init[i] == keys[i];
  }

  lemma DedupSnoc(init: seq<Value>, last: Value)
    ensures Dedup(init + [last]) == Dedup(init) + (if CanonicalKey(last) in KeySet(init) then [] else [NormMapKey(last)])
  {
    assert (init + [last])[..|init|] == init;
  }

  lemma DistinctSnoc(init: seq<Value>, last: Value)
    ensures Distinct(init + [last]) <==> Distinct(init) && CanonicalKey(last) !in KeySet(init)
  {
    var vs := init + [last];
    assert forall i | 0 <= i < |init| :: vs[i] == init[i];
    assert vs[|init|] == last;
    if Distinct(vs) {
      assert forall i, j | 0 <= i < j < |init| :: CanonicalKey(vs[i]) != CanonicalKey(vs[j]);
    }
  }

  lemma {:induction false} LiveKeysFacts(keys: Slots)
    requires SlotsDistinct(keys)
    ensures KeySet(LiveKeys(keys)) == SlotKeys(keys)
    ensures Distinct(LiveKeys(keys)) && Dedup(LiveKeys(keys)) == LiveKeys(keys)
  {
    if keys != [] {
      var init, last := keys[..|keys| - 1], keys[|keys| - 1];
      SlotKeysSnoc(keys);
      LiveKeysFacts(init);
      if last.Some? {
        KeySetSnoc(LiveKeys(init), last.value);
        DistinctSnoc(LiveKeys(init), last.value);
        DedupSnoc(LiveKeys(init), last.value);
      }
    }
  }

  /** Its elements are distinct, and the index knows them. */
  lemma ElementsFacts(s: Collection)
    requires s.Valid()
    ensures Elements(s) == LiveKeys(s.keys)
    ensures KeySet(Elements(s)) == s.index.Keys && Distinct(Elements(s)) && Dedup(Elements(s)) == Elements(s)
  {
    LiveKeysOf(s.keys, s.vals);
    LiveKeysFacts(s.keys);
    assert SlotKeys(s.keys) == s.index.Keys;
  }

  method SetElements(s: Collection) returns (out: seq<Value>)
    requires s.Valid()
    ensures out == Elements(s)
  {
    out := [];
    for i := 0 to |s.keys|
      invariant out == LiveKeys(s.keys[..i])
    {
      assert s.keys[..i + 1][..i] == s.keys[..i];
      if s.keys[i].Some? {
        out := out + [s.keys[i].value];
      }
    }
    assert s.keys[..|s.keys|] == s.keys;
    ElementsFacts(s);
  }

  lemma {:induction false} LookupIsKey(es: seq<Entry>, k: Value)
    ensures Lookup(es, k).Some? <==> exists i | 0 <= i < |es| :: SameValueZero(es[i].key, k)
    ensures Lookup(es, k).None? ==> Put(es, k, Undef) == es + [Entry(NormMapKey(k), Undef)]
  {
    if es != [] {
      LookupIsKey(es[1..], k);
    }
  }

  lemma {:induction false} KeysOfAt(es: seq<Entry>)
    ensures |KeysOf(es)| == |es| && forall i | 0 <= i < |es| :: KeysOf(es)[i] == es[i].key
  {
    if es != [] {
      KeysOfAt(es[..|es| - 1]);
    }
  }

  /** Adding to a Set appends to its elements what Dedup keeps. */
  lemma AddKeeps(es: seq<Entry>, k: Value)
    ensures KeysOf(Apply(es, Op.Add(k))) ==
            if CanonicalKey(k) in KeySet(KeysOf(es)) then KeysOf(es) else KeysOf(es) + [NormMapKey(k)]
  {
    LookupIsKey(es, k);
    KeysOfAt(es);
    forall i | 0 <= i < |es|
      ensures SameValueZero(es[i].key, k) <==> CanonicalKey(KeysOf(es)[i]) == CanonicalKey(k)
    {
      KeysAgree(es[i].key, k);
    }
    if Lookup(es, k).None? {
      var e := Entry(NormMapKey(k), Undef);
      assert (es + [e])[..|es + [e]| - 1] == es;
    }
  }

  method NewSetFrom(elems: seq<Value>) returns (c: Collection)
    ensures fresh(c) && c.Valid() && Elements(c) == Dedup(elems)
  {
    c := new Collection();
    for i := 0 to |elems|
      invariant fresh(c) && c.Valid() && Elements(c) == Dedup(elems[..i])
    {
      assert elems[..i + 1][..i] == elems[..i];
      AddKeeps(c.Entries(), elems[i]);
      DedupFacts(elems[..i]);
      c.Add(elems[i]);
    }
    assert elems[..|elems|] == elems;
  }

  // ----- the methods -----

  method Union(s: Collection, rec: SetRecord) returns (r: Collection)
    requires s.Valid()
    ensures fresh(r) && r.Valid()
    ensures Elements(r) == Elements(s) + Dedup(Outside(Drained(rec.keys), KeySet(Elements(s))))
    ensures KeySet(Elements(r)) == KeySet(Elements(s)) + KeySet(Drained(rec.keys))
  {
    var out := SetElements(s);
    ElementsFacts(s);
    DedupConcat(out, Drained(rec.keys));
    KeySetConcat(out, Drained(rec.keys));
    DedupFacts(out + Drained(rec.keys));
    out := out + Drained(rec.keys);
    r := NewSetFrom(out);
  }

  /** The walk over this set's elements, asking has. */
  method AskHas(elems: seq<Value>, rec: SetRecord, want: bool) returns (out: seq<Value>)
    requires Consistent(rec)
    ensures out == Restrict(elems, KeySet(rec.keys), want)
  {
    out := [];
    for i := 0 to |elems|
      invariant out == Restrict(elems[..i], KeySet(rec.keys), want)
    {
      assert elems[..i + 1][..i] == elems[..i];
      if rec.has(elems[i]) == want {
        out := out + [elems[i]];
      }
    }
    assert elems[..|elems|] == elems;
  }

  /** The walk over the other's keys, keeping the first of each that is live in this set. */
  method KeepLive(s: Collection, keys: seq<Value>) returns (out: seq<Value>)
    ensures Dedup(out) == Dedup(Inside(keys, s.index.Keys))
  {
    out := [];
    var seen: set<string> := {};
    ghost var inside: seq<Value> := [];
    for i := 0 to |keys|
      invariant inside == Inside(keys[..i], s.index.Keys)
      invariant seen == KeySet(inside) == KeySet(out) && Dedup(out) == Dedup(inside)
    {
      var v := keys[i];
      assert keys[..i + 1][..i] == keys[..i];
      var ck := CanonicalKey(v);
      if ck in s.index {
        KeySetSnoc(inside, v);
        KeySetSnoc(out, v);
        assert (inside + [v])[..|inside|] == inside && (out + [v])[..|out|] == out;
        if ck !in seen {
          out := out + [v];
        }
        inside := inside + [v];
        seen := seen + {ck};
      }
    }
    assert keys[..|keys|] == keys;
  }

  /** Whichever branch is taken, the result is this set's elements that the other has. */
  method Intersection(s: Collection, rec: SetRecord) returns (r: Collection)
    requires s.Valid() && Consistent(rec)
    ensures fresh(r) && r.Valid()
    ensures KeySet(Elements(r)) == KeySet(Elements(s)) * KeySet(rec.keys)
    ensures Elements(r) == if |Elements(s)| <= |KeySet(rec.keys)| then Dedup(Inside(Elements(s), KeySet(rec.keys)))
                           else Dedup(Inside(rec.keys, KeySet(Elements(s))))
  {
    var elems := SetElements(s);
    ElementsFacts(s);
    RestrictFacts(elems, KeySet(rec.keys), true);
    RestrictFacts(rec.keys, s.index.Keys, true);
    var out: seq<Value>;
    if AtMost(|elems|, rec.size) {
      out := AskHas(elems, rec, true);
    } else {
      out := KeepLive(s, Drained(rec.keys));
      DedupFacts(Inside(rec.keys, s.index.Keys));
    }
    DedupFacts(out);
    r := NewSetFrom(out);
  }

  method KeysOfAll(keys: seq<Value>) returns (remove: set<string>)
    ensures remove == KeySet(keys)
  {
    remove := {};
    assert KeySet([]) == {};
    hide *;
    for i := 0 to |keys|
      invariant remove == KeySet(keys[..i])
    {
      assert keys[..i + 1] == keys[..i] + [keys[i]];
      KeySetSnoc(keys[..i], keys[i]);
      remove := remove + {CanonicalKey(keys[i])};
    }
    assert keys[..|keys|] == keys;
  }

  method WithoutKeys(elems: seq<Value>, remove: set<string>) returns (out: seq<Value>)
    ensures out == Outside(elems, remove)
  {
    out := [];
    assert Outside([], remove) == [];
    hide *;
    for i := 0 to |elems|
      invariant out == Outside(elems[..i], remove)
    {
      assert elems[..i + 1] == elems[..i] + [elems[i]];
      OutsideSnoc(elems[..i], elems[i], remove);
      if CanonicalKey(elems[i]) !in remove {
        out := out + [elems[i]];
      }
    }
    assert elems[..|elems|] == elems;
  }

  /** Whichever branch is taken, the result is this set's elements that the other does not have, in this set's
    * order.
    */
  method Difference(s: Collection, rec: SetRecord) returns (r: Collection)
    requires s.Valid() && Consistent(rec)
    ensures fresh(r) && r.Valid()
    ensures Elements(r) == Outside(Elements(s), KeySet(rec.keys))
    ensures KeySet(Elements(r)) == KeySet(Elements(s)) - KeySet(rec.keys)
  {
    var elems := SetElements(s);
    ElementsFacts(s);
    var out: seq<Value> := [];
    OutsideIsRestrict(elems, KeySet(rec.keys));
    hide *;
    if AtMost(|elems|, rec.size) {
      out := AskHas(elems, rec, false);
    } else {
      var remove := KeysOfAll(rec.keys);
      out := WithoutKeys(elems, remove);
    }
    OutsideDistinct(elems, KeySet(rec.keys));
    RestrictFacts(elems, KeySet(rec.keys), false);
    r := NewSetFrom(out);
  }

  lemma OutsideSnoc(init: seq<Value>, last: Value, to: set<string>)
    ensures Outside(init + [last], to) == Outside(init, to) + (if CanonicalKey(last) in to then [] else [last])
  {
    assert (init + [last])[..|init|] == init;
  }

  lemma {:induction false} OutsideDistinct(vs: seq<Value>, to: set<string>)
    requires Distinct(vs) && Dedup(vs) == vs
    ensures Distinct(Outside(vs, to)) && Dedup(Outside(vs, to)) == Outside(vs, to)
  {
    if vs != [] {
      var init, last := vs[..|vs| - 1], vs[|vs| - 1];
      assert vs == init + [last];
      DistinctSnoc(init, last);
      DedupSnoc(init, last);
      OutsideSnoc(init, last, to);
      hide *;
      OutsideDistinct(init, to);
      RestrictFacts(init, to, false);
      OutsideIsRestrict(init, to);
      var o := Outside(init, to);
      DistinctSnoc(o, last);
      DedupSnoc(o, last);
    }
  }

  lemma OutsideIsRestrict(vs: seq<Value>, to: set<string>)
    ensures Outside(vs, to) == Restrict(vs, to, false)
  {
  }

  lemma {:induction false} OutsideNothing(vs: seq<Value>, to: set<string>)
    requires KeySet(vs) !! to
    ensures Outside(vs, to) == vs
  {
    if vs != [] {
      var init, last := vs[..|vs| - 1], vs[|vs| - 1];
      assert vs == init + [last];
      KeySetSnoc(init, last);
      OutsideNothing(init, to);
    }
  }

  lemma {:induction false} OutsideTwice(vs: seq<Value>, a: set<string>, b: set<string>)
    ensures Outside(Outside(vs, a), b) == Outside(vs, a + b)
  {
    if vs != [] {
      var init, last := vs[..|vs| - 1], vs[|vs| - 1];
      OutsideTwice(init, a, b);
      var o := Outside(init, a);
      assert (o + [last])[..|o|] == o;
    }
  }

  lemma {:induction false} OutsideConcat(x: seq<Value>, y: seq<Value>, to: set<string>)
    ensures Outside(x + y, to) == Outside(x, to) + Outside(y, to)
  {
    if y == [] {
      assert x + [] == x;
    } else {
      assert (x + y)[..|x + y| - 1] == x + y[..|y| - 1];
      OutsideConcat(x, y[..|y| - 1], to);
    }
  }

  lemma {:induction false} OutsideOne(vs: seq<Value>, i: nat)
    requires Distinct(vs) && i < |vs|
    ensures Outside(vs, {CanonicalKey(vs[i])}) == vs[..i] + vs[i + 1..]
  {
    var init, last := vs[..|vs| - 1], vs[|vs| - 1];
    var k := CanonicalKey(vs[i]);
    assert vs == init + [last];
    assert i < |vs| - 1 ==> CanonicalKey(last) != k;
    DistinctSnoc(init, last);
    OutsideSnoc(init, last, {k});
    if i == |vs| - 1 {
      assert k !in KeySet(init);
      hide *;
      OutsideNothing(init, {k});
    } else {
      hide *;
      OutsideOne(init, i);
      CutOutSnoc(init, last, i);
    }
  }

  lemma CutOutSnoc(init: seq<Value>, last: Value, i: nat)
    requires i < |init|
    ensures var vs := init + [last];
            vs[i] == init[i] && vs[..i] + vs[i + 1..] == init[..i] + init[i + 1..] + [last]
  {
  }

  method RemoveKey(result: seq<Value>, ck: string) returns (out: seq<Value>)
    requires Distinct(result)
    ensures out == Outside(result, {ck})
  {
    for i := 0 to |result|
      invariant forall j | 0 <= j < i :: CanonicalKey(result[j]) != ck
    {
      if CanonicalKey(result[i]) == ck {
        OutsideOne(result, i);
        return result[..i] + result[i + 1..];
      }
    }
    OutsideNothing(result, {ck});
    return result;
  }

  /** The result of the toggle loop after the keys ks: what is left of e, then what was added. */
  ghost predicate Toggled(e: seq<Value>, ks: seq<Value>, result: seq<Value>, added: seq<Value>) {
    && result == Outside(e, KeySet(ks)) + added
    && Distinct(result) && KeySet(added) == KeySet(Outside(ks, KeySet(e)))
    && Dedup(added) == Dedup(Outside(ks, KeySet(e)))
  }

  /** The keys of the result, and what one more key of e does to it. */
  lemma ToggleOff(e: seq<Value>, ks: seq<Value>, v: Value, result: seq<Value>, added: seq<Value>)
    requires Toggled(e, ks, result, added) && CanonicalKey(v) in KeySet(e)
    ensures Toggled(e, ks + [v], Outside(result, {CanonicalKey(v)}), added)
    ensures CanonicalKey(v) !in KeySet(result) ==> Outside(result, {CanonicalKey(v)}) == result
  {
    var ck := CanonicalKey(v);
    var left := Outside(e, KeySet(ks));
    KeySetSnoc(ks, v);
    assert (ks + [v])[..|ks + [v]| - 1] == ks;
    OutsideConcat(left, added, {ck});
    OutsideTwice(e, KeySet(ks), {ck});
    RestrictFacts(ks, KeySet(e), false);
    OutsideNothing(added, {ck});
    DistinctOutside(result, {ck});
    if ck !in KeySet(result) {
      OutsideNothing(result, {ck});
    }
  }

  lemma {:induction false} DistinctOutside(vs: seq<Value>, to: set<string>)
    requires Distinct(vs)
    ensures Distinct(Outside(vs, to))
  {
    if vs != [] {
      var init, last := vs[..|vs| - 1], vs[|vs| - 1];
      assert vs == init + [last];
      DistinctOutside(init, to);
      RestrictFacts(init, to, false);
      var o := Outside(init, to);
      assert CanonicalKey(last) !in KeySet(init);
      assert forall i | 0 <= i < |o| :: CanonicalKey(o[i]) in KeySet(o);
    }
  }

  /** A key that e does not have joins the result unless it is there. */
  lemma ToggleOn(e: seq<Value>, ks: seq<Value>, v: Value, result: seq<Value>, added: seq<Value>)
    requires Toggled(e, ks, result, added) && CanonicalKey(v) !in KeySet(e)
    ensures CanonicalKey(v) in KeySet(result) <==> CanonicalKey(v) in KeySet(added)
    ensures CanonicalKey(v) in KeySet(result) ==> Toggled(e, ks + [v], result, added)
    ensures CanonicalKey(v) !in KeySet(result) ==> Toggled(e, ks + [v], result + [v], added + [v])
  {
    hide CanonicalKey, NormMapKey, Dedup;
    var left, o := Outside(e, KeySet(ks)), Outside(ks, KeySet(e));
    ToggleKeepsLeft(e, ks, v);
    RestrictFacts(e, KeySet(ks), false);
    KeySetConcat(left, added);
    DedupSnoc(o, v);
    DedupSnoc(added, v);
    KeySetSnoc(o, v);
    KeySetSnoc(added, v);
    if CanonicalKey(v) !in KeySet(result) {
      assert result + [v] == left + (added + [v]);
      assert forall i | 0 <= i < |result| :: CanonicalKey(result[i]) in KeySet(result);
    }
  }

  lemma ToggleKeepsLeft(e: seq<Value>, ks: seq<Value>, v: Value)
    requires CanonicalKey(v) !in KeySet(e)
    ensures Outside(e, KeySet(ks + [v])) == Outside(e, KeySet(ks))
    ensures Outside(ks + [v], KeySet(e)) == Outside(ks, KeySet(e)) + [v]
  {
    KeySetSnoc(ks, v);
    OutsideTwice(e, KeySet(ks), {CanonicalKey(v)});
    RestrictFacts(e, KeySet(ks), false);
    OutsideNothing(Outside(e, KeySet(ks)), {CanonicalKey(v)});
    assert (ks + [v])[..|ks + [v]| - 1] == ks;
  }

  lemma ToggledDedup(e: seq<Value>, ks: seq<Value>, result: seq<Value>, added: seq<Value>)
    requires Toggled(e, ks, result, added) && Distinct(e) && Dedup(e) == e
    ensures Dedup(result) == Outside(e, KeySet(ks)) + Dedup(Outside(ks, KeySet(e)))
  {
    var left := Outside(e, KeySet(ks));
    OutsideDistinct(e, KeySet(ks));
    DedupConcat(left, added);
    RestrictFacts(e, KeySet(ks), false);
    RestrictFacts(ks, KeySet(e), false);
    OutsideNothing(added, KeySet(left));
  }

  lemma ToggledKeys(e: seq<Value>, ks: seq<Value>)
    ensures KeySet(Outside(e, KeySet(ks)) + Dedup(Outside(ks, KeySet(e)))) == (KeySet(e) - KeySet(ks)) + (KeySet(ks) - KeySet(e))
  {
    RestrictFacts(e, KeySet(ks), false);
    RestrictFacts(ks, KeySet(e), false);
    DedupFacts(Outside(ks, KeySet(e)));
    KeySetConcat(Outside(e, KeySet(ks)), Dedup(Outside(ks, KeySet(e))));
  }

  lemma ToggleStart(e: seq<Value>)
    requires Distinct(e)
    ensures Toggled(e, [], e, [])
  {
    OutsideNothing(e, {});
    assert e + [] == e && KeySet([]) == {};
  }

  /** The toggle loop: a key of this set leaves the result the first time it is met and stays out; any other
    * key joins it the first time and stays in.
    */
  method ToggleAll(elems: seq<Value>, live: set<string>, keys: seq<Value>) returns (result: seq<Value>, ghost added: seq<Value>)
    requires Distinct(elems) && live == KeySet(elems)
    ensures Toggled(elems, keys, result, added)
  {
    result, added := elems, [];
    var resultKeys := live;
    ToggleStart(elems);
    for i := 0 to |keys|
      invariant Toggled(elems, keys[..i], result, added)
      invariant resultKeys == KeySet(result)
    {
      var v := keys[i];
      var ck := CanonicalKey(v);
      assert keys[..i + 1] == keys[..i] + [v];
      if ck in live {
        ToggleOff(elems, keys[..i], v, result, added);
        if ck in resultKeys {
          RestrictFacts(result, {ck}, false);
          result := RemoveKey(result, ck);
          resultKeys := resultKeys - {ck};
        }
      } else {
        ToggleOn(elems, keys[..i], v, result, added);
        if ck !in resultKeys {
          KeySetSnoc(result, v);
          result, added := result + [v], added + [v];
          resultKeys := resultKeys + {ck};
        }
      }
    }
    assert keys[..|keys|] == keys;
  }

  method SymmetricDifference(s: Collection, rec: SetRecord) returns (r: Collection)
    requires s.Valid()
    ensures fresh(r) && r.Valid()
    ensures var e, k := Elements(s), Drained(rec.keys);
            Elements(r) == Outside(e, KeySet(k)) + Dedup(Outside(k, KeySet(e)))
    ensures var e, k := KeySet(Elements(s)), KeySet(Drained(rec.keys)); KeySet(Elements(r)) == (e - k) + (k - e)
  {
    var elems := SetElements(s);
    ElementsFacts(s);
    var result, added := ToggleAll(elems, s.index.Keys, Drained(rec.keys));
    ToggledDedup(elems, Drained(rec.keys), result, added);
    ToggledKeys(elems, Drained(rec.keys));
    r := NewSetFrom(result);
  }

  /** The walk by index that skips tombstones, stopping at the first element whose membership is not as wanted. */
  method AllHave(s: Collection, rec: SetRecord, want: bool) returns (r: bool)
    requires s.Valid() && Consistent(rec)
    ensures r <==> forall ck | ck in s.index :: (ck in KeySet(rec.keys)) == want
  {
    ghost var other := KeySet(rec.keys);
    for i := 0 to |s.keys|
      invariant forall j | 0 <= j < i && s.keys[j].Some? :: (CanonicalKey(s.keys[j].value) in other) == want
    {
      if s.keys[i].Some? && rec.has(s.keys[i].value) != want {
        assert CanonicalKey(s.keys[i].value) in s.index;
        return false;
      }
    }
    return true;
  }

  /** The walk over the other's keys, stopping at the first whose membership here is not as wanted. */
  method AllLive(s: Collection, keys: seq<Value>, want: bool) returns (r: bool)
    ensures r <==> forall i | 0 <= i < |keys| :: (CanonicalKey(keys[i]) in s.index) == want
  {
    for i := 0 to |keys|
      invariant forall j | 0 <= j < i :: (CanonicalKey(keys[j]) in s.index) == want
    {
      if (CanonicalKey(keys[i]) in s.index) != want {
        return false;
      }
    }
    return true;
  }

  method IsSubsetOf(s: Collection, rec: SetRecord) returns (r: bool)
    requires s.Valid() && Consistent(rec)
    ensures r <==> KeySet(Elements(s)) <= KeySet(rec.keys)
  {
    var elems := SetElements(s);
    ElementsFacts(s);
    DistinctSize(elems);
    if !AtMost(|elems|, rec.size) {
      TooLarge(KeySet(elems), KeySet(rec.keys));
      return false;
    }
    r := AllHave(s, rec, true);
  }

  method IsSupersetOf(s: Collection, rec: SetRecord) returns (r: bool)
    requires s.Valid() && Consistent(rec)
    ensures r <==> KeySet(rec.keys) <= KeySet(Elements(s))
  {
    var elems := SetElements(s);
    ElementsFacts(s);
    DistinctSize(elems);
    if rec.size == None || |elems| < rec.size.value {
      TooLarge(KeySet(rec.keys), KeySet(elems));
      return false;
    }
    r := AllLive(s, Drained(rec.keys), true);
  }

  lemma TooLarge(a: set<string>, b: set<string>)
    ensures |a| > |b| ==> !(a <= b)
  {
    if a <= b {
      SubsetSize(a, b);
    }
  }

  /** Whichever branch is taken. */
  method IsDisjointFrom(s: Collection, rec: SetRecord) returns (r: bool)
    requires s.Valid() && Consistent(rec)
    ensures r <==> KeySet(Elements(s)) !! KeySet(rec.keys)
  {
    var elems := SetElements(s);
    ElementsFacts(s);
    if AtMost(|elems|, rec.size) {
      r := AllHave(s, rec, false);
    } else {
      r := AllLive(s, Drained(rec.keys), false);
    }
  }
}
