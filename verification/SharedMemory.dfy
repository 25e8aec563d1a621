/** Agents, shared cells and the wait list together: Atomics.wait and waitAsync against Atomics.store and
  * Atomics.notify (internal/engine/builtin_atomics.go, builtin_atomics_ops.go, agent.go).
  *
  * atomicsWaitCheck compares the cell first and converts the timeout afterwards.  A primitive timeout
  * converts without running any code, so no safepoint falls between the comparison and the waiter joining
  * the list; an object's valueOf is a script like any other.
  */
module SharedMemory {
  import opened Wrappers
  import T = Turns
  import W = WaitLists

  /** The timeout argument: a primitive that is no deadline, a primitive that is one, or an object. */
  datatype Timeout = Forever | Deadline | Object

  /** What an agent has under way: nothing, a wait whose comparison matched, or a waiter on the list. */
  datatype Plan = Idle | Matched(at: W.Loc, want: int, timeout: Timeout) | Listed(w: W.WaiterId)

  datatype World = World(turns: T.State, waits: W.Waits, cells: map<W.Loc, int>, plan: seq<Plan>)

  /** A matched comparison with a primitive timeout parks, or answers at once: waitAsync with a deadline that is not in
    * the future never joins the list.  With an object that is only known once it has been converted.
    */
  datatype Act =
    | Turn(a: T.AgentId, c: T.Choice)                                    // a step of the turn-taking lock
    | Interrupt(a: T.AgentId)
    | Clear(a: T.AgentId)                                                // ClearInterrupt
    | Compare(a: T.AgentId, at: W.Loc, want: int, timeout: Timeout, parks: bool)  // atomicsWaitCheck
    | Answer(a: T.AgentId)                                               // a converted timeout that does not park
    | Enlist(a: T.AgentId, blocking: bool, timed: bool)                  // atomicsPark, or parkAsync
    | Store(a: T.AgentId, at: W.Loc, v: int)                             // any write to the cell
    | Wake(a: T.AgentId, at: W.Loc, count: nat)                          // atomicsWake
    | Finish(a: T.AgentId, w: W.WaiterId)                                // the waiter is answered

  function Cell(w: World, at: W.Loc): int {
    if at in w.cells then w.cells[at] else 0
  }

  predicate IsAt(w: World, a: T.AgentId, locked: bool) {
    a < |w.turns.pc| && a < |w.plan| && (if locked then w.turns.pc[a].ListLocked? else w.turns.pc[a].Running?)
  }

  /** Agent a is free to run script code: it is not on the straight line from a match to the list. */
  predicate Free(w: World, a: T.AgentId) {
    a < |w.plan| && (w.plan[a].Idle? || (w.plan[a].Matched? && w.plan[a].timeout.Object?))
  }

  predicate CanAct(w: World, x: Act) {
    match x
    case Turn(a, c) =>
      && T.CanStep(w.turns, a, c) && a < |w.plan|
      && (Committed(w, a) ==>
            w.turns.pc[a].ListLocked? || (w.turns.pc[a].Running? && c == T.LockList))
    case Interrupt(a) => a < |w.turns.flag|
    case Clear(a) => a < |w.turns.flag|
    case Compare(a, _, _, timeout, parks) => IsAt(w, a, false) && w.plan[a].Idle? && (timeout.Forever? ==> parks)
    case Answer(a) => IsAt(w, a, false) && w.plan[a].Matched? && w.plan[a].timeout.Object?
    case Enlist(a, _, timed) =>
      IsAt(w, a, true) && w.plan[a].Matched? && (!w.plan[a].timeout.Object? ==> timed == w.plan[a].timeout.Deadline?)
    case Store(a, _, _) => IsAt(w, a, false) && Free(w, a)
    case Wake(a, _, _) => IsAt(w, a, true) && Free(w, a)
    case Finish(a, v) =>
      IsAt(w, a, true) && (w.plan[a].Idle? || w.plan[a] == Listed(v)) && W.CanApply(w.waits, W.DoFinish(v))
  }

  function ActOn(w: World, x: Act): World
    requires CanAct(w, x)
  {
    match x
    case Turn(a, c) => w.(turns := T.Step(w.turns, a, c))
    case Interrupt(a) => w.(turns := T.HostStop(w.turns, a))
    case Clear(a) => w.(turns := T.HostClear(w.turns, a))
    case Compare(a, at, want, timeout, parks) =>
      if Cell(w, at) == want && (timeout.Object? || parks) then w.(plan := w.plan[a := Matched(at, want, timeout)]) else w
    case Answer(a) => w.(plan := w.plan[a := Idle])
    case Enlist(a, blocking, timed) =>
      w.(waits := W.Park(w.waits, w.plan[a].at, timed),
         plan := w.plan[a := if blocking then Listed(|w.waits.info|) else Idle])
    case Store(a, at, v) => w.(cells := w.cells[at := v])
    case Wake(a, at, count) => w.(waits := W.Notify(w.waits, at, count))
    case Finish(a, v) => w.(waits := W.Finish(w.waits, v), plan := w.plan[a := Idle])
  }

  predicate CanRun(w: World, acts: seq<Act>)
    decreases |acts|
  {
    acts == [] || (CanAct(w, acts[0]) && CanRun(ActOn(w, acts[0]), acts[1..]))
  }

  function Exec(w: World, acts: seq<Act>): World
    requires CanRun(w, acts)
    decreases |acts|
  {
    if acts == [] then w else Exec(ActOn(w, acts[0]), acts[1..])
  }

  lemma RunCons(w: World, x: Act, rest: seq<Act>)
    requires CanAct(w, x) && CanRun(ActOn(w, x), rest)
    ensures CanRun(w, [x] + rest) && Exec(w, [x] + rest) == Exec(ActOn(w, x), rest)
  {
    assert ([x] + rest)[1..] == rest;
  }

  ghost predicate Init(w: World) {
    T.Init(w.turns) && w.waits == W.Empty && |w.plan| == |w.turns.pc| && forall a | 0 <= a < |w.plan| :: w.plan[a] == Idle
  }

  /** a has compared with a primitive timeout, is going to park, and is not on the list yet. */
  predicate Committed(w: World, a: T.AgentId) {
    a < |w.plan| && w.plan[a].Matched? && !w.plan[a].timeout.Object?
  }

  /** A committed agent is still running, and the cell still holds what it compared with. */
  ghost predicate Inv(w: World) {
    && T.SafeInv(w.turns) && W.Inv(w.waits) && |w.plan| == |w.turns.pc|
    && forall a | 0 <= a < |w.plan| && Committed(w, a) ::
         T.Announces(w.turns.pc[a]) && !w.turns.pc[a].Yielding? && Cell(w, w.plan[a].at) == w.plan[a].want
  }

  lemma InitInv(w: World)
    requires Init(w)
    ensures Inv(w)
  {
    T.InitInv(w.turns);
    assert W.WokenIds([]) == {};
  }

  /** Only the agent with the turn stores, and it is not committed. */
  lemma AloneWhileCommitted(w: World, a: T.AgentId, b: T.AgentId)
    requires Inv(w) && Committed(w, a) && b < |w.plan| && T.Announces(w.turns.pc[b])
    ensures a == b
  {
  }

  lemma TurnKeepsCommitted(w: World, a: T.AgentId, c: T.Choice)
    requires Inv(w) && CanAct(w, Turn(a, c))
    ensures Inv(ActOn(w, Turn(a, c)))
  {
    T.StepSafe(w.turns, a, c);
    assert Committed(w, a) ==> T.Step(w.turns, a, c).pc[a].Running? || T.Step(w.turns, a, c).pc[a].ListLocked?;
  }

  lemma PlanInv(w: World, x: Act)
    requires Inv(w) && CanAct(w, x) && (x.Compare? || x.Answer?)
    ensures Inv(ActOn(w, x))
  {
    hide T.SafeInv, W.Inv;
  }

  lemma StoreInv(w: World, x: Act)
    requires Inv(w) && CanAct(w, x) && x.Store?
    ensures Inv(ActOn(w, x))
  {
    forall b | 0 <= b < |w.plan| && Committed(w, b) ensures false {
      AloneWhileCommitted(w, b, x.a);
    }
    hide T.SafeInv, W.Inv;
  }

  lemma WaitsInv(w: World, x: Act)
    requires Inv(w) && CanAct(w, x) && (x.Enlist? || x.Wake? || x.Finish?)
    ensures Inv(ActOn(w, x))
  {
    hide T.SafeInv, W.Inv, W.Notify, W.Park, W.Finish;
    match x {
      case Enlist(a, _, timed) => W.ApplyInv(w.waits, W.DoPark(w.plan[a].at, timed));
      case Wake(a, at, count) => W.ApplyInv(w.waits, W.DoNotify(at, count));
      case Finish(a, v) => W.ApplyInv(w.waits, W.DoFinish(v));
    }
  }

  lemma ActInv(w: World, x: Act)
    requires Inv(w) && CanAct(w, x)
    ensures Inv(ActOn(w, x))
  {
    match x
    case Turn(a, c) => TurnKeepsCommitted(w, a, c);
    case Interrupt(a) => T.FlagSafe(w.turns, T.HostStop(w.turns, a));
    case Clear(a) => T.FlagSafe(w.turns, T.HostClear(w.turns, a));
    case Compare(_, _, _, _, _) => PlanInv(w, x);
    case Answer(_) => PlanInv(w, x);
    case Store(_, _, _) => StoreInv(w, x);
    case _ => WaitsInv(w, x);
  }

  lemma {:induction false} RunInv(w: World, acts: seq<Act>)
    requires Inv(w) && CanRun(w, acts)
    ensures Inv(Exec(w, acts))
    decreases |acts|
  {
    if acts != [] {
      ActInv(w, acts[0]);
      RunInv(ActOn(w, acts[0]), acts[1..]);
    }
  }

  /** What a running script can do at any time: compare and wait, store, and, once it holds mu, notify, join the list or
    * finish a waiter that may be finished.
    */
  lemma ScriptsCan(w: World, a: T.AgentId, at: W.Loc, n: int, count: nat, timeout: Timeout, parks: bool, v: W.WaiterId)
    requires Inv(w) && a < |w.plan|
    ensures w.turns.pc[a].Running? && w.plan[a].Idle? && (timeout.Forever? ==> parks) ==>
              CanAct(w, Compare(a, at, n, timeout, parks)) && CanAct(w, Store(a, at, n))
    ensures w.turns.pc[a].Running? && w.plan[a].Matched? && w.plan[a].timeout.Object? ==>
              CanAct(w, Answer(a)) && CanAct(w, Store(a, at, n))
    ensures w.turns.pc[a].ListLocked? && Free(w, a) ==> CanAct(w, Wake(a, at, count))
    ensures w.turns.pc[a].ListLocked? && w.plan[a].Matched? && !w.plan[a].timeout.Object? ==>
              forall blocking :: CanAct(w, Enlist(a, blocking, w.plan[a].timeout.Deadline?))
    ensures w.turns.pc[a].ListLocked? && w.plan[a].Idle? && v in w.waits.list && (w.waits.info[v].woken || w.waits.info[v].timed) ==>
              CanAct(w, Finish(a, v))
    ensures w.turns.pc[a].ListLocked? && w.plan[a] == Listed(v) && v in w.waits.list && (w.waits.info[v].woken || w.waits.info[v].timed) ==>
              CanAct(w, Finish(a, v))
    ensures forall c :: T.CanStep(w.turns, a, c) && (!Committed(w, a) || w.turns.pc[a].ListLocked? || (w.turns.pc[a].Running? && c == T.LockList)) ==> CanAct(w, Turn(a, c))
  {
    W.CanFinishWhen(w.waits, v);
    hide T.SafeInv, W.Inv;
  }

  /** A comparison matches when the cell holds the value, and then the agent goes on to park or, with an object as the timeout,
    * to convert it; otherwise nothing has changed.
    */
  lemma CompareMatches(w: World, a: T.AgentId, at: W.Loc, want: int, timeout: Timeout, parks: bool)
    requires CanAct(w, Compare(a, at, want, timeout, parks))
    ensures var w' := ActOn(w, Compare(a, at, want, timeout, parks));
            && w'.turns == w.turns && w'.waits == w.waits && w'.cells == w.cells
            && (w'.plan[a].Matched? <==> Cell(w, at) == want && (parks || timeout.Object?))
            && (w'.plan[a].Matched? ==> w'.plan[a] == Matched(at, want, timeout))
            && (forall b | 0 <= b < |w.plan| && b != a :: w'.plan[b] == w.plan[b])
            && (!w'.plan[a].Matched? ==> w' == w)
  {
  }

  // ----- no lost wake-up -----

  /** The act stores to memory or notifies. */
  predicate Signals(x: Act) {
    x.Store? || x.Wake?
  }

  /** While an agent is committed, the only thing that can happen besides its joining the list is scheduling. */
  lemma OnlySchedulingWhileCommitted(w: World, a: T.AgentId, x: Act)
    requires Inv(w) && Committed(w, a) && CanAct(w, x)
    ensures x.Turn? || x.Interrupt? || x.Clear? || (x.Enlist? && x.a == a)
    ensures !x.Enlist? ==> var w' := ActOn(w, x); Committed(w', a) && w'.plan == w.plan && w'.cells == w.cells && w'.waits == w.waits
  {
    if !x.Turn? && !x.Interrupt? && !x.Clear? {
      AloneWhileCommitted(w, a, x.a);
    }
  }

  /** Before e nothing but scheduling happens and the cell keeps the value compared with; e puts a's waiter on
    * the list.
    */
  predicate JoinsUndisturbed(w: World, a: T.AgentId, before: seq<Act>, e: Act)
    requires a < |w.plan| && w.plan[a].Matched?
  {
    && (forall i | 0 <= i < |before| :: before[i].Turn? || before[i].Interrupt? || before[i].Clear?)
    && CanRun(w, before)
    && var w1 := Exec(w, before);
       && w1.plan == w.plan && w1.waits == w.waits && Cell(w1, w.plan[a].at) == w.plan[a].want
       && e.Enlist? && e.a == a && CanAct(w1, e)
       && OnList(ActOn(w1, e), |w.waits.info|, w.plan[a].at)
  }

  lemma JoinsNow(w: World, a: T.AgentId, e: Act)
    requires Inv(w) && Committed(w, a) && CanAct(w, e) && e.Enlist? && e.a == a
    ensures JoinsUndisturbed(w, a, [], e)
  {
    assert CanRun(w, []) && Exec(w, []) == w;
  }

  lemma JoinsLater(w: World, a: T.AgentId, x: Act, before: seq<Act>, e: Act)
    requires Committed(w, a) && CanAct(w, x) && (x.Turn? || x.Interrupt? || x.Clear?)
    requires JoinsUndisturbed(ActOn(w, x), a, before, e)
    ensures JoinsUndisturbed(w, a, [x] + before, e)
  {
    RunCons(w, x, before);
  }

  /** Take a wait with a primitive timeout that parks and whose comparison has matched, and any run after it that ends in a
    * store or a notify.  Before that store or notify the agent has joined the list, at a moment when the cell
    * still held the value compared with, and until then nothing was stored or notified by anyone: whoever
    * changes the cell and notifies after the comparison finds the waiter on the list.
    */
  lemma {:induction false} NoLostWakeup(w: World, a: T.AgentId, acts: seq<Act>)
      returns (before: seq<Act>, e: Act, after: seq<Act>)
    requires Inv(w) && Committed(w, a) && CanRun(w, acts)
    requires acts != [] && Signals(acts[|acts| - 1])
    ensures acts == before + [e] + after && after != [] && JoinsUndisturbed(w, a, before, e)
    decreases |acts|
  {
    var x, rest := acts[0], acts[1..];
    FirstAct(w, a, acts);
    hide *;
    if x.Enlist? {
      before, e, after := [], x, rest;
      JoinsNow(w, a, x);
    } else {
      before, e, after := NoLostWakeup(ActOn(w, x), a, rest);
      JoinsLater(w, a, x, before, e);
      Regroup(acts, before, e, after);
      before := [x] + before;
    }
  }

  lemma Regroup(acts: seq<Act>, before: seq<Act>, e: Act, after: seq<Act>)
    requires acts != [] && acts[1..] == before + [e] + after
    ensures acts == [acts[0]] + before + [e] + after
  {
    assert acts == [acts[0]] + acts[1..];
  }

  /** The first act of such a run puts the waiter on the list, or leaves the agent committed. */
  lemma FirstAct(w: World, a: T.AgentId, acts: seq<Act>)
    requires Inv(w) && Committed(w, a) && CanRun(w, acts)
    requires acts != [] && Signals(acts[|acts| - 1])
    ensures var x, rest := acts[0], acts[1..];
            && rest != [] && rest[|rest| - 1] == acts[|acts| - 1] && CanAct(w, x)
            && if x.Enlist? then x.a == a
               else (x.Turn? || x.Interrupt? || x.Clear?) && Inv(ActOn(w, x)) && Committed(ActOn(w, x), a)
                    && CanRun(ActOn(w, x), rest)
  {
    hide Inv, Committed, CanAct, ActOn;
    OnlySchedulingWhileCommitted(w, a, acts[0]);
    ActInv(w, acts[0]);
  }

  predicate OnList(w: World, v: W.WaiterId, at: W.Loc) {
    v in w.waits.list && W.Claimable(w.waits.info, v, at)
  }

  /** And a notify for at least as many waiters as are unclaimed there claims it, unless it was claimed or
    * answered before.
    */
  lemma ListedWaiterIsFound(w: World, v: W.WaiterId, b: T.AgentId, at: W.Loc, count: nat)
    requires Inv(w) && CanAct(w, Wake(b, at, count))
    requires v < |w.waits.info| && w.waits.info[v].loc == at && count >= |W.Unclaimed(w.waits.list, w.waits.info, at)|
    ensures v in w.waits.answer || ActOn(w, Wake(b, at, count)).waits.info[v].woken
  {
    W.UnclaimedFacts(w.waits.list, w.waits.info, at);
  }

  /** The waiter is the same one, and what was claimed stays claimed. */
  predicate SameWaiter(w: World, w': World, v: W.WaiterId) {
    && v < |w.waits.info| <= |w'.waits.info|
    && w'.waits.info[v].loc == w.waits.info[v].loc && w'.waits.info[v].timed == w.waits.info[v].timed
    && (w.waits.info[v].woken ==> w'.waits.info[v].woken)
  }

  lemma ActKeepsWaiter(w: World, x: Act, v: W.WaiterId)
    requires CanAct(w, x) && v < |w.waits.info|
    ensures SameWaiter(w, ActOn(w, x), v)
  {
  }

  lemma {:induction false} RunKeepsWaiter(w: World, acts: seq<Act>, v: W.WaiterId)
    requires CanRun(w, acts) && v < |w.waits.info|
    ensures SameWaiter(w, Exec(w, acts), v)
    decreases |acts|
  {
    if acts != [] {
      ActKeepsWaiter(w, acts[0], v);
      RunKeepsWaiter(ActOn(w, acts[0]), acts[1..], v);
      hide ActOn, CanAct;
    }
  }

  lemma {:induction false} RunSplit(w: World, xs: seq<Act>, ys: seq<Act>)
    requires CanRun(w, xs + ys)
    ensures CanRun(w, xs) && CanRun(Exec(w, xs), ys) && Exec(w, xs + ys) == Exec(Exec(w, xs), ys)
    decreases |xs|
  {
    if xs == [] {
      assert xs + ys == ys;
    } else {
      assert (xs + ys)[1..] == xs[1..] + ys && (xs + ys)[0] == xs[0];
      RunSplit(ActOn(w, xs[0]), xs[1..], ys);
      hide ActOn, CanAct;
    }
  }

  /** What Enlist puts on the list for a committed agent. */
  lemma EnlistedWaiter(w: World, a: T.AgentId, e: Act)
    requires Committed(w, a) && CanAct(w, e) && e.Enlist? && e.a == a
    ensures var v := |w.waits.info|; var w' := ActOn(w, e);
            && v < |w'.waits.info| && w'.waits.info[v].loc == w.plan[a].at
            && (w'.waits.info[v].timed <==> w.plan[a].timeout.Deadline?)
  {
  }

  /** The whole guarantee: any run from a matched comparison to a notify of the location for all who wait there leaves the
    * waiter claimed, unless it had a deadline that passed first; without a deadline it is claimed in any case.
    */
  lemma NotifyReachesWaiter(w: World, a: T.AgentId, acts: seq<Act>, b: T.AgentId, count: nat)
    requires Inv(w) && Committed(w, a) && CanRun(w, acts) && CanAct(Exec(w, acts), Wake(b, w.plan[a].at, count))
    requires count >= |W.Unclaimed(Exec(w, acts).waits.list, Exec(w, acts).waits.info, w.plan[a].at)|
    ensures var w' := ActOn(Exec(w, acts), Wake(b, w.plan[a].at, count)); var v := |w.waits.info|;
            && v < |w'.waits.info| && w'.waits.info[v].loc == w.plan[a].at
            && (w'.waits.info[v].woken || (w'.waits.info[v].timed && v in w'.waits.answer))
            && (w.plan[a].timeout.Forever? ==> w'.waits.info[v].woken)
  {
    var last, v := Wake(b, w.plan[a].at, count), |w.waits.info|;
    var w3 := Exec(w, acts);
    RunThenOne(w, acts, last);
    RunInv(w, acts);
    var before, e, after := NoLostWakeup(w, a, acts + [last]);
    var mid := after[..|after| - 1];
    SameBefore(acts, before, e, after, last);
    var w2 := ReachesEnlist(w, a, before, e, mid);
    RunKeepsWaiter(w2, mid, v);
    ListedWaiterIsFound(w3, v, b, w.plan[a].at, count);
    ActKeepsWaiter(w3, last, v);
    hide ActOn, CanAct, CanRun, Exec, JoinsUndisturbed, Committed;
  }

  lemma SameBefore(acts: seq<Act>, before: seq<Act>, e: Act, after: seq<Act>, last: Act)
    requires acts + [last] == before + [e] + after && after != []
    ensures acts == before + ([e] + after[..|after| - 1])
  {
    assert acts == (acts + [last])[..|acts|];
  }

  /** The run up to the waiter joining the list, and the rest of it. */
  lemma ReachesEnlist(w: World, a: T.AgentId, before: seq<Act>, e: Act, mid: seq<Act>) returns (w2: World)
    requires Committed(w, a) && JoinsUndisturbed(w, a, before, e) && CanRun(w, before + ([e] + mid))
    ensures CanRun(w2, mid) && Exec(w2, mid) == Exec(w, before + ([e] + mid))
    ensures var v := |w.waits.info|;
            && v < |w2.waits.info| && w2.waits.info[v].loc == w.plan[a].at
            && (w2.waits.info[v].timed <==> w.plan[a].timeout.Deadline?)
  {
    RunSplit(w, before, [e] + mid);
    var w1 := Exec(w, before);
    assert ([e] + mid)[1..] == mid;
    w2 := ActOn(w1, e);
    EnlistedWaiter(w1, a, e);
    hide ActOn, CanAct;
  }

  lemma {:induction false} RunThenOne(w: World, acts: seq<Act>, x: Act)
    requires CanRun(w, acts) && CanAct(Exec(w, acts), x)
    ensures CanRun(w, acts + [x])
    decreases |acts|
  {
    if acts == [] {
      assert [x][1..] == [];
    } else {
      assert (acts + [x])[1..] == acts[1..] + [x] && (acts + [x])[0] == acts[0];
      RunThenOne(ActOn(w, acts[0]), acts[1..], x);
      hide ActOn, CanAct;
    }
  }

  /** A critical section taken and left by the agent with the turn. */
  lemma LockTwice(w: World)
    requires |w.turns.pc| == |w.turns.flag| == |w.plan| > 0 && w.turns.mu == None && w.turns.pc[0].Running?
    requires Free(w, 0)
    ensures var l := Turn(0, T.LockList);
            && CanAct(w, l)
            && var w1 := ActOn(w, l);
               && IsAt(w1, 0, true) && w1 == w.(turns := w1.turns) && CanAct(w1, l)
               && var w2 := ActOn(w1, l);
                  w2 == w
  {
  }

  lemma LockedTwice(w: World)
    requires |w.turns.pc| == |w.turns.flag| == |w.plan| > 0 && w.turns.mu == Some(0) && w.turns.pc[0].ListLocked?
    requires Free(w, 0)
    ensures var l := Turn(0, T.LockList);
            CanAct(w, l) && var w1 := ActOn(w, l); CanAct(w1, l) && ActOn(w1, l) == w
  {
  }

  /** An empty list, a notify that finds nobody, and only then the waiter. */
  lemma NotifyThenEnlist(w: World, at: W.Loc)
    requires |w.turns.pc| == |w.turns.flag| == |w.plan| > 0 && w.turns.mu == None && w.turns.pc[0].Running?
    requires w.plan[0].Matched? && w.plan[0].at == at && w.plan[0].timeout.Object? && w.waits == W.Empty
    ensures var l := Turn(0, T.LockList);
            var acts := [l, Wake(0, at, 1), l, l, Enlist(0, true, false)];
            && CanRun(w, acts)
            && var w' := Exec(w, acts);
               OnList(w', 0, at) && w'.waits.notified == 0 && w'.cells == w.cells
  {
    var l, n, e := Turn(0, T.LockList), Wake(0, at, 1), Enlist(0, true, false);
    LockTwice(w);
    var w1 := ActOn(w, l);
    FindsNobody(w1, at);
    LockedTwice(w1);
    EnlistLast(w1, at);
    hide ActOn, CanAct, OnList;
    RunCons(w, l, [e]);
    RunCons(w1, l, [l, e]);
    RunCons(w1, n, [l, l, e]);
    RunCons(w, l, [n, l, l, e]);
    assert [l, e] == [l] + [e] && [l, l, e] == [l] + [l, e] && [n, l, l, e] == [n] + [l, l, e]
        && [l, n, l, l, e] == [l] + [n, l, l, e];
  }

  lemma FindsNobody(w: World, at: W.Loc)
    requires IsAt(w, 0, true) && Free(w, 0) && w.waits == W.Empty
    ensures CanAct(w, Wake(0, at, 1)) && ActOn(w, Wake(0, at, 1)) == w
  {
  }

  lemma EnlistLast(w: World, at: W.Loc)
    requires IsAt(w, 0, true) && w.plan[0].Matched? && w.plan[0].at == at && w.plan[0].timeout.Object? && w.waits == W.Empty
    ensures var e := Enlist(0, true, false);
            && CanRun(w, [e])
            && var w' := Exec(w, [e]);
               OnList(w', 0, at) && w'.waits.notified == 0 && w'.cells == w.cells
  {
    var e := Enlist(0, true, false);
    RunCons(w, e, []);
    assert [e] == [e] + [];
  }

  lemma MatchThenStore(w: World, at: W.Loc)
    requires Init(w)
    ensures var c, s := Compare(0, at, Cell(w, at), Object, true), Store(0, at, Cell(w, at) + 1);
            && CanAct(w, c) && CanAct(ActOn(w, c), s)
            && var w' := ActOn(ActOn(w, c), s);
               && |w'.turns.pc| == |w'.turns.flag| == |w'.plan| > 0 && w'.turns.mu == None && w'.turns.pc[0].Running?
               && w'.plan[0] == Matched(at, Cell(w, at), Object) && w'.waits == W.Empty && Cell(w', at) == Cell(w, at) + 1
  {
  }

  /** With an object as the timeout the guarantee fails: here its valueOf stores and notifies, the notify finds
    * nobody, and the waiter then joins the list although the cell no longer holds what it compared with.
    */
  lemma ObjectTimeoutLosesWakeup(w: World, at: W.Loc)
    requires Init(w)
    ensures var l := Turn(0, T.LockList);
            var acts := [Compare(0, at, Cell(w, at), Object, true), Store(0, at, Cell(w, at) + 1),
                         l, Wake(0, at, 1), l, l, Enlist(0, true, false)];
            && CanRun(w, acts)
            && var w' := Exec(w, acts);
               OnList(w', 0, at) && w'.waits.notified == 0 && Cell(w', at) != Cell(w, at)
  {
    var c, s, l := Compare(0, at, Cell(w, at), Object, true), Store(0, at, Cell(w, at) + 1), Turn(0, T.LockList);
    var n, e := Wake(0, at, 1), Enlist(0, true, false);
    MatchThenStore(w, at);
    hide ActOn, CanAct, OnList;
    NotifyThenEnlist(ActOn(ActOn(w, c), s), at);
    RunCons(ActOn(w, c), s, [l, n, l, l, e]);
    RunCons(w, c, [s] + [l, n, l, l, e]);
    Prefixed(c, s, [l, n, l, l, e]);
    assert [s, l, n, l, l, e] == [s] + [l, n, l, l, e];
    assert [c, s, l, n, l, l, e] == [c, s] + [l, n, l, l, e];
  }

  lemma Prefixed(c: Act, s: Act, rest: seq<Act>)
    ensures [c] + ([s] + rest) == [c, s] + rest
  {
  }
}
