/** The Atomics wait list of an agent cluster (internal/engine/agent.go): who is parked on which memory
  * location, which of them a notify has claimed, and what each is finally told.
  */
module WaitLists {
  import opened Wrappers

  /** A memory location: the shared backing array and the offset into it. */
  datatype Loc = Loc(block: nat, offset: int)

  /** Waiters are numbered in the order in which they arrive. */
  type WaiterId = nat

  /** wake is closed exactly when woken is set.  A waiter that is not timed has no deadline: nothing but wake ends
    * its wait.
    */
  datatype Waiter = Waiter(loc: Loc, woken: bool, timed: bool)

  datatype Answer = Woken | TimedOut       // "ok" and "timed-out"

  /** The list and the waiters.  The last two fields are history variables: what each waiter was told, and
    * the sum of what the notifies returned.
    */
  datatype Waits = Waits(list: seq<WaiterId>, info: seq<Waiter>, answer: map<WaiterId, Answer>, notified: nat)

  predicate Claimable(info: seq<Waiter>, w: WaiterId, at: Loc) {
    w < |info| && info[w].loc == at && !info[w].woken
  }

  /** The waiters of a location that no notify has claimed, in the order of the list. */
  function Unclaimed(list: seq<WaiterId>, info: seq<Waiter>, at: Loc): seq<WaiterId> {
    if list == [] then []
    else (if Claimable(info, list[0], at) then [list[0]] else []) + Unclaimed(list[1..], info, at)
  }

  function Claim(info: seq<Waiter>, ws: seq<WaiterId>): (r: seq<Waiter>)
    ensures |r| == |info|
  {
    seq(|info|, i requires 0 <= i < |info| => if i in ws then info[i].(woken := true) else info[i])
  }

  function Without(list: seq<WaiterId>, w: WaiterId): seq<WaiterId> {
    if list == [] then [] else if list[0] == w then list[1..] else [list[0]] + Without(list[1..], w)
  }

  function Min(a: int, b: int): int {
    if a < b then a else b
  }

  // ----- the operations -----

  function Park(s: Waits, at: Loc, timed: bool): Waits {
    s.(list := s.list + [|s.info|], info := s.info + [Waiter(at, false, timed)])
  }

  function ClaimedBy(s: Waits, at: Loc, count: nat): seq<WaiterId> {
    var u := Unclaimed(s.list, s.info, at);
    u[..if count < |u| then count else |u|]
  }

  function Notify(s: Waits, at: Loc, count: nat): Waits {
    var c := ClaimedBy(s, at, count);
    s.(info := Claim(s.info, c), notified := s.notified + |c|)
  }

  /** The waiter stops waiting, because its channel was closed or because its timer fired: it leaves the list,
    * and a claim overrides the timer.
    */
  function Finish(s: Waits, w: WaiterId): Waits
    requires w < |s.info|
  {
    s.(list := Without(s.list, w), answer := s.answer[w := if s.info[w].woken then Woken else TimedOut])
  }

  datatype Op = DoPark(at: Loc, timed: bool) | DoNotify(at: Loc, count: nat) | DoFinish(w: WaiterId)

  /** A waiter is finished once, when a notify has claimed it or its deadline has passed. */
  predicate CanApply(s: Waits, op: Op) {
    op.DoFinish? ==> op.w < |s.info| && op.w !in s.answer && (s.info[op.w].woken || s.info[op.w].timed)
  }

  function Apply(s: Waits, op: Op): Waits
    requires CanApply(s, op)
  {
    match op
    case DoPark(at, timed) => Park(s, at, timed)
    case DoNotify(at, count) => Notify(s, at, count)
    case DoFinish(w) => Finish(s, w)
  }

  predicate CanApplyAll(s: Waits, ops: seq<Op>)
    decreases |ops|
  {
    ops == [] || (CanApply(s, ops[0]) && CanApplyAll(Apply(s, ops[0]), ops[1..]))
  }

  function ApplyAll(s: Waits, ops: seq<Op>): Waits
    requires CanApplyAll(s, ops)
    decreases |ops|
  {
    if ops == [] then s else ApplyAll(Apply(s, ops[0]), ops[1..])
  }

  // ----- the invariant -----

  ghost predicate Increasing(u: seq<WaiterId>) {
    forall i, j | 0 <= i < j < |u| :: u[i] < u[j]
  }

  ghost function Elements(u: seq<WaiterId>): set<WaiterId> {
    set i | 0 <= i < |u| :: u[i]
  }

  ghost function WokenIds(info: seq<Waiter>): set<WaiterId> {
    set w | 0 <= w < |info| && info[w].woken
  }

  /** The list holds exactly the waiters that have not been answered, oldest first; an answer is "ok" exactly
    * when a notify claimed the waiter, and no waiter without a deadline has been answered otherwise; and the
    * notifies have returned one for each claimed waiter.
    */
  ghost predicate Inv(s: Waits) {
    && Increasing(s.list)
    && (forall w: WaiterId :: w in s.list <==> w < |s.info| && w !in s.answer)
    && (forall w | w in s.answer ::
          w < |s.info| && (s.answer[w] == Woken <==> s.info[w].woken) && (s.info[w].woken || s.info[w].timed))
    && s.notified == |WokenIds(s.info)|
  }

  const Empty := Waits([], [], map[], 0)

  lemma {:induction false} UnclaimedFacts(list: seq<WaiterId>, info: seq<Waiter>, at: Loc)
    requires Increasing(list)
    ensures Increasing(Unclaimed(list, info, at))
    ensures forall w :: w in Unclaimed(list, info, at) <==> w in list && Claimable(info, w, at)
  {
    if list != [] {
      var rest := Unclaimed(list[1..], info, at);
      assert list == [list[0]] + list[1..];
      UnclaimedFacts(list[1..], info, at);
      forall k | 0 <= k < |rest| ensures list[0] < rest[k] {
        assert rest[k] in list[1..];
      }
    }
  }

  lemma {:induction false} WithoutFacts(list: seq<WaiterId>, x: WaiterId)
    requires Increasing(list)
    ensures Increasing(Without(list, x))
    ensures forall w :: w in Without(list, x) <==> w in list && w != x
  {
    if list != [] {
      assert list == [list[0]] + list[1..];
      if list[0] != x {
        var rest := Without(list[1..], x);
        WithoutFacts(list[1..], x);
        forall k | 0 <= k < |rest| ensures list[0] < rest[k] {
          assert rest[k] in list[1..];
        }
      }
    }
  }

  lemma {:induction false} IncreasingSize(u: seq<WaiterId>)
    requires Increasing(u)
    ensures |Elements(u)| == |u|
  {
    if u != [] {
      var init := u[..|u| - 1];
      var last := u[|u| - 1];
      IncreasingSize(init);
      assert u == init + [last];
      assert last !in init;
      assert Elements(u) == Elements(init) + {last};
    }
  }

  lemma ClaimedFacts(s: Waits, at: Loc, count: nat)
    requires Inv(s)
    ensures var c := ClaimedBy(s, at, count);
            && (forall w | w in c :: w in s.list && Claimable(s.info, w, at))
            && |Elements(c)| == |c|
  {
    UnclaimedFacts(s.list, s.info, at);
    IncreasingSize(ClaimedBy(s, at, count));
  }

  lemma NotifyInv(s: Waits, at: Loc, count: nat)
    requires Inv(s)
    ensures Inv(Notify(s, at, count))
  {
    var c := ClaimedBy(s, at, count);
    ClaimedFacts(s, at, count);
    hide ClaimedBy;
    ClaimWakes(s.info, c, at);
    hide WokenIds, Elements;
    assert forall w | 0 <= w < |s.info| :: Claim(s.info, c)[w].woken <==> s.info[w].woken || w in c;
    assert forall w | w in s.answer :: w !in c;
  }

  /** Claiming adds the claimed to those that are woken. */
  lemma ClaimWakes(info: seq<Waiter>, c: seq<WaiterId>, at: Loc)
    requires forall w | w in c :: Claimable(info, w, at)
    ensures |WokenIds(Claim(info, c))| == |WokenIds(info)| + |Elements(c)|
  {
    var before, after := WokenIds(info), WokenIds(Claim(info, c));
    forall w
      ensures w in after <==> w in before + Elements(c)
    {
      if w in c {
        assert Claimable(info, w, at);
        var i :| 0 <= i < |c| && c[i] == w;
        assert w in Elements(c);
      }
    }
    assert after == before + Elements(c);
    assert before !! Elements(c) by {
      forall w | w in Elements(c)
        ensures w !in before
      {
        var i :| 0 <= i < |c| && c[i] == w;
        assert Claimable(info, c[i], at);
      }
    }
  }

  lemma ApplyInv(s: Waits, op: Op)
    requires Inv(s) && CanApply(s, op)
    ensures Inv(Apply(s, op))
  {
    match op
    case DoPark(at, timed) =>
      assert WokenIds(Park(s, at, timed).info) == WokenIds(s.info);
      assert forall i | 0 <= i < |s.list| :: s.list[i] in s.list;
    case DoNotify(at, count) =>
      NotifyInv(s, at, count);
    case DoFinish(w) =>
      WithoutFacts(s.list, w);
  }

  lemma {:induction false} RunInv(s: Waits, ops: seq<Op>)
    requires Inv(s) && CanApplyAll(s, ops)
    ensures Inv(ApplyAll(s, ops))
    decreases |ops|
  {
    if ops != [] {
      ApplyInv(s, ops[0]);
      RunInv(Apply(s, ops[0]), ops[1..]);
    }
  }

  // ----- what the list guarantees over every run -----

  /** Nothing is lost and nothing is counted twice: what all notifies together returned is the number of
    * waiters told "ok" plus the number claimed and not told yet; a waiter is told "ok" if and only if some
    * notify claimed it, whatever its timer did; and one without a deadline is told nothing else.
    */
  lemma Conservation(ops: seq<Op>)
    requires CanApplyAll(Empty, ops)
    ensures var s := ApplyAll(Empty, ops);
            && s.notified == |Told(s)| + |Untold(s)|
            && (forall w | w in s.answer :: w < |s.info| && (s.answer[w] == Woken <==> s.info[w].woken))
            && (forall w | w in s.answer :: w < |s.info| && (!s.info[w].timed ==> s.answer[w] == Woken))
  {
    assert WokenIds([]) == {};
    RunInv(Empty, ops);
    SplitWoken(ApplyAll(Empty, ops));
  }

  ghost function Told(s: Waits): set<WaiterId> {
    set w | w in s.answer && s.answer[w] == Woken
  }

  ghost function Untold(s: Waits): set<WaiterId> {
    set w | w in s.list && w < |s.info| && s.info[w].woken
  }

  lemma SplitWoken(s: Waits)
    requires Inv(s)
    ensures |WokenIds(s.info)| == |Told(s)| + |Untold(s)|
  {
    var told, untold := Told(s), Untold(s);
    forall w
      ensures w in WokenIds(s.info) <==> w in told + untold
      ensures !(w in told && w in untold)
    {
    }
    assert WokenIds(s.info) == told + untold;
    assert told !! untold;
  }

  /** A notify claims waiters of its location only, none of them claimed or answered before, as many as it was
    * asked for or all there are, and never one that arrived later than one it leaves.
    */
  lemma NotifyClaimsOldest(s: Waits, at: Loc, count: nat)
    requires Inv(s)
    ensures var c := ClaimedBy(s, at, count); var s' := Notify(s, at, count);
            && (forall w | w in c :: w in s.list && w !in s.answer && Claimable(s.info, w, at))
            && (forall w | w in c :: s'.info[w].woken)
            && (forall w | 0 <= w < |s.info| && w !in c :: s'.info[w] == s.info[w])
            && |c| == Min(count, |set w | w in s.list && Claimable(s.info, w, at)|)
            && (forall w, v | w in c && v in s.list && Claimable(s'.info, v, at) :: w < v)
  {
    UnclaimedFacts(s.list, s.info, at);
    ClaimedFacts(s, at, count);
    var u := Unclaimed(s.list, s.info, at);
    var c := ClaimedBy(s, at, count);
    IncreasingSize(u);
    assert forall w | w in c :: w < |s.info| && w !in s.answer;
    forall w, v | w in c && v in s.list && Claimable(Notify(s, at, count).info, v, at)
      ensures w < v
    {
      OlderIsClaimed(s, at, count, w, v);
    }
    hide Unclaimed, WokenIds, Inv, Claimable;
    assert Elements(u) == (set w | w in s.list && Claimable(s.info, w, at));
  }

  /** A waiter that is left unclaimed is younger than any that is claimed. */
  lemma OlderIsClaimed(s: Waits, at: Loc, count: nat, w: WaiterId, v: WaiterId)
    requires Inv(s) && w in ClaimedBy(s, at, count) && v in s.list && Claimable(Notify(s, at, count).info, v, at)
    ensures w < v
  {
    UnclaimedFacts(s.list, s.info, at);
    var u := Unclaimed(s.list, s.info, at);
    var c := ClaimedBy(s, at, count);
    hide Unclaimed, WokenIds, Inv;
    assert v in u && v !in c;
    var i :| 0 <= i < |c| && c[i] == w;
    var j :| 0 <= j < |u| && u[j] == v;
    assert u[i] == w && j >= |c|;
  }

  /** A waiter on the list can be finished exactly when a notify has claimed it or it has a deadline; no other can. */
  lemma CanFinishWhen(s: Waits, w: WaiterId)
    requires Inv(s)
    ensures CanApply(s, DoFinish(w)) <==> w in s.list && (s.info[w].woken || s.info[w].timed)
  {
  }

  /** Claims are permanent: once a notify has claimed a waiter, every later notify passes it over and it can
    * only ever be told "ok".
    */
  lemma {:induction false} ClaimedOnce(s: Waits, ops: seq<Op>, w: WaiterId)
    requires Inv(s) && CanApplyAll(s, ops) && w < |s.info| && s.info[w].woken
    ensures var s' := ApplyAll(s, ops);
            && w < |s'.info| && s'.info[w].woken
            && (w in s'.answer ==> s'.answer[w] == Woken)
            && (forall at, count :: w !in ClaimedBy(s', at, count))
    decreases |ops|
  {
    if ops == [] {
      forall at, count
        ensures w !in ClaimedBy(s, at, count)
      {
        UnclaimedFacts(s.list, s.info, at);
      }
    } else {
      ApplyInv(s, ops[0]);
      ClaimedOnce(Apply(s, ops[0]), ops[1..], w);
    }
  }

  // ----- the list itself -----

  /** The first i entries of the list have been walked, and c are the ones among them that were claimed. */
  ghost predicate Walked(all: seq<WaiterId>, i: nat, was: seq<Waiter>, info: seq<Waiter>, at: Loc, c: seq<WaiterId>) {
    && i <= |all|
    && Unclaimed(all, was, at) == c + Unclaimed(all[i..], was, at)
    && info == Claim(was, c)
    && (forall k | i <= k < |all| :: all[k] < |was| && all[k] !in c)
  }

  lemma WalkStart(all: seq<WaiterId>, was: seq<Waiter>, at: Loc)
    requires forall w | w in all :: w < |was|
    ensures Walked(all, 0, was, was, at, [])
  {
    assert all[0..] == all;
    assert forall k | 0 <= k < |all| :: all[k] in all;
  }

  lemma WalkEnd(s: Waits, i: nat, info: seq<Waiter>, at: Loc, c: seq<WaiterId>, count: nat)
    requires Walked(s.list, i, s.info, info, at, c) && |c| <= count && (i == |s.list| || |c| == count)
    ensures c == ClaimedBy(s, at, count) && info == Claim(s.info, c)
  {
  }

  lemma WalkOne(all: seq<WaiterId>, i: nat, was: seq<Waiter>, info: seq<Waiter>, at: Loc, c: seq<WaiterId>)
    requires Increasing(all) && i < |all| && Walked(all, i, was, info, at, c)
    ensures var w := all[i];
            if info[w].loc == at && !info[w].woken
            then Walked(all, i + 1, was, info[w := info[w].(woken := true)], at, c + [w])
            else Walked(all, i + 1, was, info, at, c)
  {
    assert all[i..][1..] == all[i + 1..];
    assert info[all[i]] == was[all[i]];
  }

  lemma {:induction false} WithoutAbsent(list: seq<WaiterId>, w: WaiterId)
    requires w !in list
    ensures Without(list, w) == list
  {
    if list != [] {
      WithoutAbsent(list[1..], w);
    }
  }

  lemma {:induction false} WithoutAt(list: seq<WaiterId>, i: nat)
    requires i < |list| && list[i] !in list[..i]
    ensures Without(list, list[i]) == list[..i] + list[i + 1..]
  {
    if i > 0 {
      var rest := list[1..];
      assert list[i] == rest[i - 1] && list[..i] == [list[0]] + rest[..i - 1] && list[i + 1..] == rest[i..];
      WithoutAt(rest, i - 1);
    }
  }

  /** The waiters field of agentCluster, with the loops that walk it.  Every method runs under mu. */
  class WaitList {
    var waiters: seq<WaiterId>
    var info: seq<Waiter>
    ghost var answer: map<WaiterId, Answer>
    ghost var notified: nat

    ghost function View(): Waits
      reads this
    {
      Waits(waiters, info, answer, notified)
    }

    constructor ()
      ensures View() == Empty
    {
      waiters, info, answer, notified := [], [], map[], 0;
    }

    method Enlist(at: Loc, timed: bool) returns (w: WaiterId)
      modifies this
      ensures View() == Park(old(View()), at, timed) && w == old(|info|)
    {
      w := |info|;
      info := info + [Waiter(at, false, timed)];
      waiters := waiters + [w];
    }

    /** atomicsWake. */
    method Wake(at: Loc, count: nat) returns (n: nat)
      requires Increasing(waiters) && forall w | w in waiters :: w < |info|
      modifies `info, `notified
      ensures View() == Notify(old(View()), at, count)
      ensures n == |ClaimedBy(old(View()), at, count)|
    {
      n := 0;
      var i := 0;
      ghost var was, c := info, [];
      WalkStart(waiters, was, at);
      hide Walked, Claim, ClaimedBy;
      while i < |waiters| && n < count
        invariant i <= |waiters| && Walked(waiters, i, was, info, at, c) && |info| == |was|
        invariant n == |c| <= count && notified == old(notified)
      {
        var w := waiters[i];
        WalkOne(waiters, i, was, info, at, c);
        if info[w].loc == at && !info[w].woken {
          info := info[w := info[w].(woken := true)];
          c := c + [w];
          n := n + 1;
        }
        i := i + 1;
      }
      notified := notified + n;
      WalkEnd(old(View()), i, info, at, c, count);
    }

    /** The walk that takes a waiter off the list and settles its answer (atomicsPark, finishAsyncWait). */
    method Settle(w: WaiterId, timedOut: bool) returns (r: Answer)
      requires w < |info| && (info[w].woken || (timedOut && info[w].timed))
      modifies this
      ensures View() == Finish(old(View()), w) && r == View().answer[w]
    {
      var i := 0;
      while i < |waiters| && waiters[i] != w
        invariant 0 <= i <= |waiters| && w !in waiters[..i]
      {
        i := i + 1;
      }
      if i < |waiters| {
        WithoutAt(waiters, i);
        waiters := waiters[..i] + waiters[i + 1..];
      } else {
        WithoutAbsent(waiters, w);
      }
      r := if timedOut then TimedOut else Woken;
      if info[w].woken {
        r := Woken;
      }
      answer := answer[w := r];
    }
  }
}
