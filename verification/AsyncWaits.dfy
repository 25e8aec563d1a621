/** The waitAsync promises of one Runtime (internal/engine/agent.go): which of them the event loop settles
  * without waiting, and which one it waits for when it has nothing else to run.
  */
module AsyncWaits {
  import opened Wrappers
  import opened WaitLists

  /** A waitAsync that has not settled; None stands for noExpiry. */
  datatype AsyncWait = AsyncWait(w: WaiterId, deadline: Option<int>)

  predicate WokenAt(info: seq<Waiter>, a: AsyncWait) {
    a.w < |info| && info[a.w].woken
  }

  /** The entry stands for a waiter of the list, with a deadline if the waiter has one. */
  predicate Registered(info: seq<Waiter>, a: AsyncWait) {
    a.w < |info| && (a.deadline.Some? <==> info[a.w].timed)
  }

  predicate Ready(info: seq<Waiter>, now: int, a: AsyncWait) {
    WokenAt(info, a) || (a.deadline.Some? && a.deadline.value <= now)
  }

  /** Waiting on this entry can end: it has a deadline, or was notified, or another agent exists to notify it. */
  predicate Settleable(info: seq<Waiter>, started: nat, a: AsyncWait) {
    a.deadline.Some? || WokenAt(info, a) || started > 0
  }

  function Waiting(info: seq<Waiter>, now: int, q: seq<AsyncWait>): seq<AsyncWait> {
    if q == [] then [] else (if Ready(info, now, q[0]) then [] else [q[0]]) + Waiting(info, now, q[1..])
  }

  /** The ready entries finished one after the other, in the order in which they were registered. */
  function FinishReady(s: Waits, now: int, q: seq<AsyncWait>): Waits
    decreases |q|
  {
    if q == [] then s
    else FinishReady(if Ready(s.info, now, q[0]) && q[0].w < |s.info| then Finish(s, q[0].w) else s, now, q[1..])
  }

  /** Entry i is taken before entry j: a deadline before none, an earlier deadline before a later one, and
    * otherwise the older entry.
    */
  predicate TakenBefore(q: seq<AsyncWait>, i: nat, j: nat)
    requires i < |q| && j < |q|
  {
    var a, b := q[i].deadline, q[j].deadline;
    if a.Some? && b.Some? then a.value < b.value || (a.value == b.value && i < j)
    else if a.Some? || b.Some? then a.Some?
    else i < j
  }

  ghost predicate IsNext(info: seq<Waiter>, started: nat, q: seq<AsyncWait>, best: int) {
    && 0 <= best < |q|
    && Settleable(info, started, q[best])
    && forall j | 0 <= j < |q| && j != best && Settleable(info, started, q[j]) :: TakenBefore(q, best, j)
  }

  // ----- what the order means -----

  /** Which notified entry is taken.  The comment in the source says that a woken waiter beats any deadline, but a notified
    * entry without a deadline gives way to every entry that has one, however far off, and to settleable entries that are
    * older; and a notified entry with a deadline gives way to every earlier deadline, notified or not.
    */
  lemma WokenIsTakenWhen(info: seq<Waiter>, started: nat, q: seq<AsyncWait>, i: nat)
    requires i < |q| && WokenAt(info, q[i])
    ensures IsNext(info, started, q, i) <==> FirstInLine(info, started, q, i)
  {
    var a := q[i].deadline;
    if IsNext(info, started, q, i) {
      forall j | 0 <= j < |q|
        ensures a == None ==> q[j].deadline == None && (j < i ==> !Settleable(info, started, q[j]))
        ensures a.Some? && q[j].deadline.Some? && j != i ==> TakenBefore(q, i, j)
      {
        assert j != i && Settleable(info, started, q[j]) ==> TakenBefore(q, i, j);
      }
    }
  }

  /** No entry has a deadline and no older one can settle; or no entry has an earlier deadline, or the same and is older. */
  predicate FirstInLine(info: seq<Waiter>, started: nat, q: seq<AsyncWait>, i: nat)
    requires i < |q|
  {
    if q[i].deadline == None then
      forall j | 0 <= j < |q| :: q[j].deadline == None && (j < i ==> !Settleable(info, started, q[j]))
    else
      forall j | 0 <= j < |q| && q[j].deadline.Some? ::
        q[i].deadline.value < q[j].deadline.value || (q[i].deadline.value == q[j].deadline.value && i <= j)
  }

  /** So what is waited for is a notified entry exactly when some notified entry is first in line. */
  lemma ChoiceIsWokenWhen(info: seq<Waiter>, started: nat, q: seq<AsyncWait>, best: nat)
    requires IsNext(info, started, q, best)
    ensures WokenAt(info, q[best]) <==> exists i | 0 <= i < |q| :: WokenAt(info, q[i]) && FirstInLine(info, started, q, i)
  {
    if WokenAt(info, q[best]) {
      WokenIsTakenWhen(info, started, q, best);
    }
    if i :| 0 <= i < |q| && WokenAt(info, q[i]) && FirstInLine(info, started, q, i) {
      WokenIsTakenWhen(info, started, q, i);
      assert i != best ==> TakenBefore(q, best, i) && TakenBefore(q, i, best);
    }
  }

  /** A far deadline, not notified, is preferred to a notified entry without one... */
  lemma DeadlineBeatsWoken(far: int)
    ensures var info := [Waiter(Loc(0, 0), true, false), Waiter(Loc(0, 0), false, true)];
            var q := [AsyncWait(0, None), AsyncWait(1, Some(far))];
            WokenAt(info, q[0]) && !WokenAt(info, q[1]) && IsNext(info, 0, q, 1) && !IsNext(info, 0, q, 0)
  {
    var info := [Waiter(Loc(0, 0), true, false), Waiter(Loc(0, 0), false, true)];
    var q := [AsyncWait(0, None), AsyncWait(1, Some(far))];
    WokenIsTakenWhen(info, 0, q, 0);
    assert q[1].deadline.Some?;
  }

  /** ...and an earlier one to a notified entry with a later deadline. */
  lemma EarlierDeadlineBeatsWoken(soon: int, late: int)
    requires soon < late
    ensures var info := [Waiter(Loc(0, 0), true, true), Waiter(Loc(0, 0), false, true)];
            var q := [AsyncWait(0, Some(late)), AsyncWait(1, Some(soon))];
            WokenAt(info, q[0]) && !WokenAt(info, q[1]) && IsNext(info, 0, q, 1) && !IsNext(info, 0, q, 0)
  {
    var info := [Waiter(Loc(0, 0), true, true), Waiter(Loc(0, 0), false, true)];
    var q := [AsyncWait(0, Some(late)), AsyncWait(1, Some(soon))];
    WokenIsTakenWhen(info, 0, q, 0);
    assert q[1].deadline.Some?;
  }

  /** There is no entry, or no other agent and none that has a deadline or has been notified. */
  predicate NothingToPick(info: seq<Waiter>, started: nat, q: seq<AsyncWait>) {
    q == [] || (started == 0 && forall i | 0 <= i < |q| :: q[i].w < |info| && q[i].deadline == None && !info[q[i].w].woken)
  }

  /** The earliest deadline if any entry has one, and the older of equal ones; else the oldest entry that can settle. */
  predicate IsEarliestOrOldest(info: seq<Waiter>, started: nat, q: seq<AsyncWait>, best: nat)
    requires best < |q|
  {
    if q[best].deadline.Some? then
      forall j | 0 <= j < |q| && q[j].deadline.Some? ::
        q[best].deadline.value < q[j].deadline.value || (q[best].deadline.value == q[j].deadline.value && best <= j)
    else
      && (started > 0 || (q[best].w < |info| && info[q[best].w].woken))
      && forall j | 0 <= j < |q| ::
           q[j].deadline == None && (j < best ==> started == 0 && !(q[j].w < |info| && info[q[j].w].woken))
  }

  /** What the choice of the blocking loop means. */
  lemma NextMeans(info: seq<Waiter>, started: nat, q: seq<AsyncWait>, best: int)
    requires forall a | a in q :: a.w < |info|
    requires if best == -1 then forall a | a in q :: !Settleable(info, started, a) else IsNext(info, started, q, best)
    ensures best == -1 <==> NothingToPick(info, started, q)
    ensures best != -1 ==> 0 <= best < |q| && IsEarliestOrOldest(info, started, q, best)
  {
    assert forall i | 0 <= i < |q| :: q[i] in q;
    if best == -1 {
      forall i | 0 <= i < |q|
        ensures q[i].w < |info| && started == 0 && q[i].deadline == None && !info[q[i].w].woken
      {
        assert !Settleable(info, started, q[i]);
      }
      assert q != [] ==> q[0].w < |info| && started == 0;
    } else {
      assert Settleable(info, started, q[best]);
      forall j | 0 <= j < |q|
        ensures q[j].deadline.Some? && q[best].deadline.Some? ==>
                  q[best].deadline.value < q[j].deadline.value || (q[best].deadline.value == q[j].deadline.value && best <= j)
        ensures q[best].deadline == None ==> q[j].deadline == None && (j < best ==> started == 0 && !info[q[j].w].woken)
      {
        assert q[j].w < |info| && (j != best && Settleable(info, started, q[j]) ==> TakenBefore(q, best, j));
      }
    }
  }

  // ----- what settling means for the entries -----

  /** The waiter's entry is settled: it has been notified, or its deadline is not later than now. */
  predicate Due(info: seq<Waiter>, now: int, q: seq<AsyncWait>, w: WaiterId) {
    w < |info| && exists i | 0 <= i < |q| :: q[i].w == w && (info[w].woken || (q[i].deadline.Some? && q[i].deadline.value <= now))
  }

  /** From s to r every waiter that is due is told "ok" if a notify claimed it and "timed-out" if not, and leaves the list;
    * nobody else is told anything or leaves.
    */
  ghost predicate TellsDue(s: Waits, now: int, q: seq<AsyncWait>, r: Waits) {
    && r.info == s.info && r.notified == s.notified && Increasing(r.list)
    && (forall w: WaiterId :: w in r.list <==> w in s.list && !Due(s.info, now, q, w))
    && (forall w: WaiterId :: w in r.answer <==> w in s.answer || Due(s.info, now, q, w))
    && (forall w | w in r.answer ::
          if Due(s.info, now, q, w) then r.answer[w] == Woken <==> s.info[w].woken else r.answer[w] == s.answer[w])
  }

  lemma {:induction false} FinishReadyAnswers(s: Waits, now: int, q: seq<AsyncWait>)
    requires (forall i | 0 <= i < |q| :: q[i].w < |s.info|) && Increasing(s.list)
    ensures TellsDue(s, now, q, FinishReady(s, now, q))
    decreases |q|
  {
    if q != [] {
      var s1 := if Ready(s.info, now, q[0]) then Finish(s, q[0].w) else s;
      WithoutFacts(s.list, q[0].w);
      DueUnfold(s.info, now, q);
      FinishReadyAnswers(s1, now, q[1..]);
    }
  }

  lemma DueUnfold(info: seq<Waiter>, now: int, q: seq<AsyncWait>)
    requires q != []
    ensures forall w: WaiterId :: Due(info, now, q, w) <==> (w == q[0].w && w < |info| && Ready(info, now, q[0])) || Due(info, now, q[1..], w)
  {
    forall w: WaiterId
      ensures Due(info, now, q, w) <==> (w == q[0].w && w < |info| && Ready(info, now, q[0])) || Due(info, now, q[1..], w)
    {
      if Due(info, now, q[1..], w) {
        var i :| 0 <= i < |q[1..]| && q[1..][i].w == w
                 && (info[w].woken || (q[1..][i].deadline.Some? && q[1..][i].deadline.value <= now));
        assert q[i + 1] == q[1..][i];
      }
      if Due(info, now, q, w) {
        var i :| 0 <= i < |q| && q[i].w == w && (info[w].woken || (q[i].deadline.Some? && q[i].deadline.value <= now));
        assert i > 0 ==> q[1..][i - 1] == q[i];
      }
    }
  }

  /** The entries at the positions kept, in order, are those that are left. */
  ghost predicate IsRest(q: seq<AsyncWait>, rest: seq<AsyncWait>, kept: seq<nat>) {
    && |kept| == |rest|
    && (forall i, j | 0 <= i < j < |kept| :: kept[i] < kept[j])
    && (forall i | 0 <= i < |kept| :: kept[i] < |q| && q[kept[i]] == rest[i])
  }

  predicate Stays(info: seq<Waiter>, now: int, a: AsyncWait) {
    a.w < |info| && !info[a.w].woken && (a.deadline == None || a.deadline.value > now)
  }

  /** An entry is left exactly when its waiter has not been notified and it has no deadline or one that is still to come. */
  ghost predicate LeavesTheRest(info: seq<Waiter>, now: int, q: seq<AsyncWait>, rest: seq<AsyncWait>) {
    exists kept :: IsRest(q, rest, kept) && forall i: nat | i < |q| :: i in kept <==> Stays(info, now, q[i])
  }

  lemma {:induction false} WaitingEntries(info: seq<Waiter>, now: int, q: seq<AsyncWait>)
    requires forall i | 0 <= i < |q| :: q[i].w < |info|
    ensures LeavesTheRest(info, now, q, Waiting(info, now, q))
  {
    if q == [] {
      assert IsRest(q, Waiting(info, now, q), []);
    } else {
      WaitingEntries(info, now, q[1..]);
      var left := Waiting(info, now, q[1..]);
      assert Waiting(info, now, q) == (if Stays(info, now, q[0]) then [q[0]] else []) + left;
      hide *;
      OneMoreEntry(info, now, q, left);
    }
  }

  lemma OneMoreEntry(info: seq<Waiter>, now: int, q: seq<AsyncWait>, left: seq<AsyncWait>)
    requires q != [] && LeavesTheRest(info, now, q[1..], left)
    ensures LeavesTheRest(info, now, q, (if Stays(info, now, q[0]) then [q[0]] else []) + left)
  {
    var rest :| IsRest(q[1..], left, rest) && forall i: nat | i < |q[1..]| :: i in rest <==> Stays(info, now, q[1..][i]);
    var later := seq(|rest|, i requires 0 <= i < |rest| => rest[i] + 1);
    LaterPositions(rest, later);
    RestLater(q, left, rest, later);
    var stays := Stays(info, now, q[0]);
    hide IsRest, Stays;
    var kept := if stays then [0] + later else later;
    forall i: nat | i < |q|
      ensures i in kept <==> Stays(info, now, q[i])
    {
      assert i > 0 ==> (i in later <==> i - 1 in rest) && q[1..][i - 1] == q[i];
    }
    assert IsRest(q, if stays then [q[0]] + left else left, kept);
    assert (if stays then [q[0]] else []) + left == if stays then [q[0]] + left else left;
  }

  lemma {:induction false} WaitingSize(info: seq<Waiter>, now: int, q: seq<AsyncWait>)
    ensures |Waiting(info, now, q)| <= |q|
    ensures |Waiting(info, now, q)| < |q| <==> exists a | a in q :: Ready(info, now, a)
  {
    if q != [] {
      WaitingSize(info, now, q[1..]);
      assert q == [q[0]] + q[1..];
    }
  }

  lemma LaterPositions(rest: seq<nat>, later: seq<nat>)
    requires |later| == |rest| && forall i | 0 <= i < |rest| :: later[i] == rest[i] + 1
    ensures 0 !in later && forall i: nat | i > 0 :: i in later <==> i - 1 in rest
  {
    forall i: nat | i > 0 && i - 1 in rest
      ensures i in later
    {
      var k :| 0 <= k < |rest| && rest[k] == i - 1;
      assert later[k] == i;
    }
  }

  lemma RestLater(q: seq<AsyncWait>, left: seq<AsyncWait>, rest: seq<nat>, later: seq<nat>)
    requires q != [] && IsRest(q[1..], left, rest)
    requires |later| == |rest| && forall i | 0 <= i < |rest| :: later[i] == rest[i] + 1
    ensures IsRest(q, left, later) && IsRest(q, [q[0]] + left, [0] + later)
  {
    forall i | 0 <= i < |later|
      ensures later[i] < |q| && q[later[i]] == left[i]
    {
      assert q[1..][rest[i]] == q[later[i]];
    }
  }

  // ----- the queue -----

  /** The loop of settleReadyAsyncWaits has been over the first done entries of all: those not ready are the first i of q,
    * the others have been finished, and the rest of q is still to come.
    */
  ghost predicate Partway(s0: Waits, now: int, all: seq<AsyncWait>, done: nat, q: seq<AsyncWait>, i: nat, s: Waits, settled: bool) {
    && done <= |all| && i <= |q| && q[i..] == all[done..] && s.info == s0.info
    && Waiting(s0.info, now, all) == q[..i] + Waiting(s0.info, now, all[done..])
    && FinishReady(s0, now, all) == FinishReady(s, now, all[done..])
    && (settled <==> exists k | 0 <= k < done :: Ready(s0.info, now, all[k]))
  }

  lemma PartwayAt(s0: Waits, now: int, all: seq<AsyncWait>, done: nat, q: seq<AsyncWait>, i: nat, s: Waits, settled: bool)
    requires Partway(s0, now, all, done, q, i, s, settled) && i < |q|
    ensures done < |all| && q[i] == all[done] && s.info == s0.info
  {
    assert q[i..][0] == all[done..][0];
    hide Waiting, FinishReady;
  }

  /** What the first of the remaining entries does. */
  lemma OneMore(s: Waits, now: int, all: seq<AsyncWait>, done: nat)
    requires done < |all| && all[done].w < |s.info|
    ensures var ready := Ready(s.info, now, all[done]);
            && FinishReady(s, now, all[done..]) == FinishReady(if ready then Finish(s, all[done].w) else s, now, all[done + 1..])
            && Waiting(s.info, now, all[done..])
               == (if ready then [] else [all[done]]) + Waiting(s.info, now, all[done + 1..])
  {
    assert all[done..][1..] == all[done + 1..];
  }

  lemma SettledOneMore(info: seq<Waiter>, now: int, all: seq<AsyncWait>, done: nat)
    requires done < |all|
    ensures (exists k | 0 <= k < done + 1 :: Ready(info, now, all[k])) <==>
            (exists k | 0 <= k < done :: Ready(info, now, all[k])) || Ready(info, now, all[done])
  {
    hide Ready;
  }

  /** An entry that is not ready is passed over, one that is ready is finished and cut out. */
  lemma PartwayNext(s0: Waits, now: int, all: seq<AsyncWait>, done: nat, q: seq<AsyncWait>, i: nat, s: Waits, settled: bool)
    requires Partway(s0, now, all, done, q, i, s, settled) && i < |q| && q[i].w < |s.info|
    ensures if Ready(s.info, now, q[i])
            then Partway(s0, now, all, done + 1, q[..i] + q[i + 1..], i, Finish(s, q[i].w), true)
            else Partway(s0, now, all, done + 1, q, i + 1, s, settled)
  {
    PartwayAt(s0, now, all, done, q, i, s, settled);
    OneMore(s, now, all, done);
    SettledOneMore(s.info, now, all, done);
    CutOut(q, i);
    assert all[done..][1..] == all[done + 1..];
    hide Waiting, FinishReady, Ready;
  }

  lemma CutOut(q: seq<AsyncWait>, i: nat)
    requires i < |q|
    ensures q[i..][1..] == q[i + 1..] && q[..i + 1] == q[..i] + [q[i]]
    ensures var cut := q[..i] + q[i + 1..]; i <= |cut| && cut[..i] == q[..i] && cut[i..] == q[i + 1..]
  {
  }

  lemma PartwayStart(s: Waits, now: int, all: seq<AsyncWait>)
    ensures Partway(s, now, all, 0, all, 0, s, false)
  {
    assert all[0..] == all && all[..0] == [];
    hide Waiting, FinishReady, Ready;
  }

  lemma PartwayEnd(s0: Waits, now: int, all: seq<AsyncWait>, done: nat, q: seq<AsyncWait>, s: Waits, settled: bool)
    requires Partway(s0, now, all, done, q, |q|, s, settled)
    ensures q == Waiting(s0.info, now, all) && s == FinishReady(s0, now, all)
    ensures settled <==> exists a | a in all :: Ready(s0.info, now, a)
  {
    assert q[|q|..] == [] && q[..|q|] == q && done == |all|;
    assert Waiting(s0.info, now, []) == [] && FinishReady(s, now, []) == s;
    hide Waiting, FinishReady, Ready;
    assert forall a | a in all :: exists k | 0 <= k < |all| :: all[k] == a;
  }

  /** What the loop has done when it ends, in terms of entries and waiters. */
  lemma SettlingMeans(s: Waits, now: int, q: seq<AsyncWait>)
    requires forall a | a in q :: Registered(s.info, a)
    ensures LeavesTheRest(s.info, now, q, Waiting(s.info, now, q))
    ensures Increasing(s.list) ==> TellsDue(s, now, q, FinishReady(s, now, q))
    ensures |Waiting(s.info, now, q)| < |q| <==> exists a | a in q :: Ready(s.info, now, a)
  {
    assert forall i | 0 <= i < |q| :: q[i] in q;
    assert forall i | 0 <= i < |q| :: q[i].w < |s.info|;
    hide *;
    WaitingEntries(s.info, now, q);
    WaitingSize(s.info, now, q);
    if Increasing(s.list) {
      FinishReadyAnswers(s, now, q);
    }
  }

  class AsyncQueue {
    const list: WaitList
    var asyncWaits: seq<AsyncWait>

    constructor (list: WaitList)
      ensures this.list == list && asyncWaits == []
    {
      this.list := list;
      asyncWaits := [];
    }

    /** parkAsync. */
    method Park(at: Loc, deadline: Option<int>)
      modifies this, list
      ensures list.View() == WaitLists.Park(old(list.View()), at, deadline.Some?)
      ensures asyncWaits == old(asyncWaits) + [AsyncWait(old(|list.info|), deadline)]
      ensures Registered(list.info, asyncWaits[|asyncWaits| - 1])
    {
      var w := list.Enlist(at, deadline.Some?);
      asyncWaits := asyncWaits + [AsyncWait(w, deadline)];
    }

    /** settleReadyAsyncWaits, with the clock read once at the start. */
    method SettleReady(now: int) returns (settled: bool)
      requires forall a | a in asyncWaits :: Registered(list.info, a)
      modifies this, list
      ensures asyncWaits == Waiting(old(list.info), now, old(asyncWaits))
      ensures list.View() == FinishReady(old(list.View()), now, old(asyncWaits))
      ensures settled <==> exists a | a in old(asyncWaits) :: Ready(old(list.info), now, a)
      ensures LeavesTheRest(old(list.info), now, old(asyncWaits), asyncWaits)
      ensures old(Increasing(list.waiters)) ==> TellsDue(old(list.View()), now, old(asyncWaits), list.View())
      ensures settled <==> |asyncWaits| < old(|asyncWaits|)
    {
      settled := false;
      var i := 0;
      ghost var all, done, s0 := asyncWaits, 0, list.View();
      PartwayStart(s0, now, all);
      hide Partway, Waiting, FinishReady, Finish, LeavesTheRest, TellsDue, Increasing;
      while i < |asyncWaits|
        invariant 0 <= i <= |asyncWaits| && done <= |all| && list.info == s0.info
        invariant Partway(s0, now, all, done, asyncWaits, i, list.View(), settled)
        decreases |all| - done
      {
        var a := asyncWaits[i];
        PartwayAt(s0, now, all, done, asyncWaits, i, list.View(), settled);
        assert a in all;
        PartwayNext(s0, now, all, done, asyncWaits, i, list.View(), settled);
        var ready := list.info[a.w].woken || (a.deadline.Some? && a.deadline.value <= now);
        done := done + 1;
        if !ready {
          i := i + 1;
        } else {
          asyncWaits := asyncWaits[..i] + asyncWaits[i + 1..];
          var r := list.Settle(a.w, !list.info[a.w].woken);
          settled := true;
        }
      }
      PartwayEnd(s0, now, all, done, asyncWaits, list.View(), settled);
      SettlingMeans(s0, now, all);
    }

    /** The choice made by serviceAsyncWaits; -1 when nothing can settle. */
    method PickNext(started: nat) returns (best: int)
      requires forall a | a in asyncWaits :: a.w < |list.info|
      ensures best == -1 ==> forall a | a in asyncWaits :: !Settleable(list.info, started, a)
      ensures best != -1 ==> IsNext(list.info, started, asyncWaits, best)
      ensures best == -1 <==> NothingToPick(list.info, started, asyncWaits)
      ensures best != -1 ==> 0 <= best < |asyncWaits| && IsEarliestOrOldest(list.info, started, asyncWaits, best)
    {
      best := -1;
      for i := 0 to |asyncWaits|
        invariant -1 <= best < i
        invariant best == -1 ==> forall j | 0 <= j < i :: !Settleable(list.info, started, asyncWaits[j])
        invariant best != -1 ==>
          && Settleable(list.info, started, asyncWaits[best])
          && forall j | 0 <= j < i && j != best && Settleable(list.info, started, asyncWaits[j]) :: TakenBefore(asyncWaits, best, j)
      {
        var a := asyncWaits[i];
        if a.deadline.Some? || list.info[a.w].woken || started > 0 {
          if best < 0 {
            best := i;
          } else {
            var b := asyncWaits[best];
            if (b.deadline.None? && a.deadline.Some?)
               || (b.deadline.Some? && a.deadline.Some? && a.deadline.value < b.deadline.value) {
              best := i;
            }
          }
        }
      }
      NextMeans(list.info, started, asyncWaits, best);
    }
  }
}
