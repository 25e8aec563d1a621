/** What the turn-taking lock guarantees over whole runs: mutual exclusion, no lost request to yield,
  * first-come first-served, and a bound on how long a queued agent can be kept waiting.
  */
module TurnRuns {
  import opened Wrappers
  import opened Turns

  /** The host may interrupt a Runtime, and may clear its flag, at any time. */
  datatype Act = Do(a: AgentId, c: Choice) | Interrupt(a: AgentId) | Clear(a: AgentId)

  predicate CanAct(s: State, x: Act) {
    if x.Do? then CanStep(s, x.a, x.c) else x.a < |s.flag|
  }

  function ActOn(s: State, x: Act): State
    requires CanAct(s, x)
  {
    match x
    case Do(a, c) => Step(s, a, c)
    case Interrupt(a) => HostStop(s, a)
    case Clear(a) => HostClear(s, a)
  }

  /** The actions can be taken one after the other, in any interleaving of the agents. */
  predicate CanRun(s: State, acts: seq<Act>)
    decreases |acts|
  {
    acts == [] || (CanAct(s, acts[0]) && CanRun(ActOn(s, acts[0]), acts[1..]))
  }

  function Exec(s: State, acts: seq<Act>): State
    requires CanRun(s, acts)
    decreases |acts|
  {
    if acts == [] then s else Exec(ActOn(s, acts[0]), acts[1..])
  }

  lemma ActSafe(s: State, x: Act)
    requires SafeInv(s) && CanAct(s, x)
    ensures SafeInv(ActOn(s, x))
  {
    if x.Do? { StepSafe(s, x.a, x.c); } else { FlagSafe(s, ActOn(s, x)); }
  }

  lemma {:induction false} RunSafe(s: State, acts: seq<Act>)
    requires SafeInv(s) && CanRun(s, acts)
    ensures SafeInv(Exec(s, acts))
    decreases |acts|
  {
    if acts != [] {
      ActSafe(s, acts[0]);
      RunSafe(ActOn(s, acts[0]), acts[1..]);
    }
  }

  /** The host clears no flag in a way that breaks the invariant. */
  ghost predicate Harmless(s: State, x: Act)
    requires CanAct(s, x)
  {
    x.Clear? ==> ClearIsHarmless(s, x.a)
  }

  ghost predicate Careful(s: State, acts: seq<Act>)
    requires CanRun(s, acts)
    decreases |acts|
  {
    acts == [] || (Harmless(s, acts[0]) && Careful(ActOn(s, acts[0]), acts[1..]))
  }

  lemma ActInv(s: State, x: Act)
    requires Inv(s) && CanAct(s, x) && Harmless(s, x)
    ensures Inv(ActOn(s, x))
  {
    match x
    case Do(a, c) => StepInv(s, a, c);
    case Interrupt(a) => StopInv(s, a);
    case Clear(a) => ClearInvIff(s, a);
  }

  lemma {:induction false} RunInv(s: State, acts: seq<Act>)
    requires Inv(s) && CanRun(s, acts) && Careful(s, acts)
    ensures Inv(Exec(s, acts))
    decreases |acts|
  {
    if acts != [] {
      ActInv(s, acts[0]);
      RunInv(ActOn(s, acts[0]), acts[1..]);
    }
  }

  // ----- safety -----

  /** The turn is in one place: held says whether it is anywhere, no two agents have it, and at most one
    * ticket is between being popped and being closed.
    */
  ghost predicate OneTurn(s: State) {
    && (s.held <==> exists a | 0 <= a < |s.pc| :: HasTurn(s, a))
    && (forall a, b | 0 <= a < |s.pc| && 0 <= b < |s.pc| && HasTurn(s, a) && HasTurn(s, b) :: a == b)
    && (forall a, b | 0 <= a < |s.pc| && 0 <= b < |s.pc| && Carries(s.pc[a]) && Carries(s.pc[b]) :: a == b)
  }

  /** Whoever announced itself has the turn, an agent running JavaScript has announced itself, and queued is
    * the queue's length whenever the mutex is free.
    */
  ghost predicate AtomicsAgree(s: State) {
    && (s.holder.Some? ==> s.holder.value < |s.pc| && HasTurn(s, s.holder.value))
    && (forall a | 0 <= a < |s.pc| && s.pc[a].Running? :: s.holder == Some(a))
    && (s.mu == None ==> s.queued == |s.queue|)
  }

  lemma InvOneTurn(s: State)
    requires RoleInv(s)
    ensures OneTurn(s)
  {
    assert s.held ==> HasTurn(s, s.turn.value);
    assert forall a | 0 <= a < |s.pc| && Carries(s.pc[a]) :: RoleOf(s.pc[a]).Carrier?;
  }

  lemma InvAtomicsAgree(s: State)
    requires LockInv(s) && HolderInv(s)
    ensures AtomicsAgree(s)
  {
    assert s.holder.Some? ==> Announces(s.pc[s.holder.value]);
    assert forall a | 0 <= a < |s.pc| && s.pc[a].Running? :: Announces(s.pc[a]);
  }

  lemma MutualExclusion(s0: State, acts: seq<Act>)
    requires Init(s0) && CanRun(s0, acts)
    ensures OneTurn(Exec(s0, acts)) && AtomicsAgree(Exec(s0, acts))
  {
    InitInv(s0);
    RunSafe(s0, acts);
    InvOneTurn(Exec(s0, acts));
    InvAtomicsAgree(Exec(s0, acts));
  }

  /** Nobody who is queued has been forgotten: some agent has the turn, and its flag is up, or it has yet to
    * look at queued, or it is on its way to give the turn up, or the turn is on its way to it, or somebody is
    * still going to raise its flag.
    */
  ghost predicate NobodyForgotten(s: State) {
    s.queue != [] ==>
      exists x | 0 <= x < |s.pc| && x < |s.flag| && HasTurn(s, x) ::
        var p := s.pc[x];
        || s.flag[x] != Quiet
        || p.GotFree? || p.Entered? || p.Announced? || p.SelfAsk? || p.Yielding? || p.YieldTest?
        || p.Giving? || p.GiveLocking? || p.GiveLocked?
        || Queues(p)
        || (exists b | 0 <= b < |s.pc| :: WillAsk(s.pc[b], x))
  }

  /** That is what the invariant says of the flags. */
  lemma ForgottenIff(s: State)
    requires SafeInv(s)
    ensures NobodyForgotten(s) <==> AskInv(s)
  {
    if s.queue != [] {
      var o := s.turn.value;
      assert HasTurn(s, o);
      assert forall a | 0 <= a < |s.pc| && (s.pc[a].Running? || s.pc[a].ListLocked?) :: HasTurn(s, a) && a == o;
    }
  }

  /** The host clears the flag of a running owner whom nobody is going to ask again, although somebody is queued. */
  ghost predicate Forgets(s: State, x: Act)
    requires CanAct(s, x)
  {
    && x.Clear? && s.queue != [] && x.a < |s.pc| && (s.pc[x.a].Running? || s.pc[x.a].ListLocked?)
    && !exists b | 0 <= b < |s.pc| :: WillAsk(s.pc[b], x.a)
  }

  /** A clear forgets somebody exactly then. */
  lemma ClearForgetsWhen(s: State, a: AgentId)
    requires SafeInv(s) && AskInv(s) && a < |s.flag|
    ensures NobodyForgotten(ActOn(s, Clear(a))) <==> !Forgets(s, Clear(a))
  {
    var s' := HostClear(s, a);
    FlagSafe(s, s');
    ForgottenIff(s');
    assert s'.flag[a] == Quiet && forall b | 0 <= b < |s.flag| && b != a :: s'.flag[b] == s.flag[b];
    hide SafeInv, WillAsk, NobodyForgotten;
  }

  /** Nobody is forgotten by a single action exactly when the action is not such a clear. */
  lemma ActForgetsWhen(s: State, x: Act)
    requires SafeInv(s) && AskInv(s) && CanAct(s, x)
    ensures NobodyForgotten(ActOn(s, x)) <==> !Forgets(s, x)
  {
    match x
    case Do(a, c) =>
      StepAsk(s, a, c);
      StepSafe(s, a, c);
      ForgottenIff(Step(s, a, c));
    case Interrupt(a) =>
      FlagSafe(s, HostStop(s, a));
      ForgottenIff(HostStop(s, a));
    case Clear(a) => ClearForgetsWhen(s, a);
  }

  /** In no state of the run has anybody been forgotten. */
  ghost predicate NeverForgotten(s: State, acts: seq<Act>)
    requires CanRun(s, acts)
    decreases |acts|
  {
    NobodyForgotten(s) && (acts == [] || NeverForgotten(ActOn(s, acts[0]), acts[1..]))
  }

  ghost predicate NoneForgets(s: State, acts: seq<Act>)
    requires CanRun(s, acts)
    decreases |acts|
  {
    acts == [] || (!Forgets(s, acts[0]) && NoneForgets(ActOn(s, acts[0]), acts[1..]))
  }

  /** Whatever the agents and the host do. */
  lemma {:induction false} NoLostYieldFrom(s: State, acts: seq<Act>)
    requires SafeInv(s) && AskInv(s) && CanRun(s, acts)
    ensures NeverForgotten(s, acts) <==> NoneForgets(s, acts)
    decreases |acts|
  {
    ForgottenIff(s);
    if acts != [] {
      var t := ActOn(s, acts[0]);
      ActSafe(s, acts[0]);
      ForgottenIff(t);
      ActForgetsWhen(s, acts[0]);
      hide SafeInv, AskInv, NobodyForgotten, Forgets, CanAct, ActOn;
      if NobodyForgotten(t) {
        NoLostYieldFrom(t, acts[1..]);
      } else {
        NotForgottenAtFirst(t, acts[1..]);
      }
    }
  }

  lemma NotForgottenAtFirst(s: State, acts: seq<Act>)
    requires CanRun(s, acts)
    ensures NeverForgotten(s, acts) ==> NobodyForgotten(s)
  {
  }

  lemma NoLostYield(s0: State, acts: seq<Act>)
    requires Init(s0) && CanRun(s0, acts)
    ensures NeverForgotten(s0, acts) <==> NoneForgets(s0, acts)
  {
    InitInv(s0);
    NoLostYieldFrom(s0, acts);
  }

  /** The host clears the flag of no agent that is running JavaScript. */
  ghost predicate ClearsOutside(s: State, acts: seq<Act>)
    requires CanRun(s, acts)
    decreases |acts|
  {
    acts == [] ||
    (&& (acts[0].Clear? && acts[0].a < |s.pc| ==> !s.pc[acts[0].a].Running? && !s.pc[acts[0].a].ListLocked?)
     && ClearsOutside(ActOn(s, acts[0]), acts[1..]))
  }

  /** That is enough.  ClearInterrupt asks its callers to wait until the script has returned. */
  lemma {:induction false} OutsideForgetsNobody(s: State, acts: seq<Act>)
    requires CanRun(s, acts) && ClearsOutside(s, acts)
    ensures NoneForgets(s, acts)
    ensures Init(s) ==> NeverForgotten(s, acts)
    decreases |acts|
  {
    if acts != [] {
      OutsideForgetsNobody(ActOn(s, acts[0]), acts[1..]);
    }
    if Init(s) {
      NoLostYield(s, acts);
    }
  }

  /** The state that a run without such a clear ends in. */
  lemma {:induction false} NeverForgottenAtEnd(s: State, acts: seq<Act>)
    requires CanRun(s, acts) && NeverForgotten(s, acts)
    ensures NobodyForgotten(Exec(s, acts))
    decreases |acts|
  {
    if acts != [] {
      NeverForgottenAtEnd(ActOn(s, acts[0]), acts[1..]);
    }
  }

  lemma RunCons(s: State, x: Act, t: State, rest: seq<Act>)
    requires CanAct(s, x) && ActOn(s, x) == t && CanRun(t, rest)
    ensures CanRun(s, [x] + rest) && Exec(s, [x] + rest) == Exec(t, rest)
  {
    assert ([x] + rest)[1..] == rest;
  }

  /** The second agent queues and asks, and then the host clears the owner's flag. */
  function Stage(k: nat): State {
    var q, y := [Quiet, Quiet], [YieldAsked, Quiet];
    var s0 := State(None, true, [], 0, Some(0), {}, [Running, Away], q, [], Some(0), None);
    var s2 := s0.(mu := Some(1), queue := [0], joined := [1], pc := [Running, Appended(0)]);
    var s5 := s2.(queued := 1, mu := None, pc := [Running, Asking(0, Some(0))]);
    match k
    case 0 => s0
    case 1 => s0.(mu := Some(1), pc := [Running, JoinLocked])
    case 2 => s2
    case 3 => s2.(queued := 1, pc := [Running, Published(0)])
    case 4 => s2.(queued := 1, pc := [Running, Sighted(0, Some(0))])
    case 5 => s5
    case 6 => s5.(flag := y, pc := [Running, Waiting(0)])
    case _ => s5.(pc := [Running, Waiting(0)])
  }

  lemma StageStep(k: nat)
    requires k < 7
    ensures var x := if k < 6 then Do(1, Safepoint) else Clear(0);
            CanAct(Stage(k), x) && ActOn(Stage(k), x) == Stage(k + 1)
  {
  }

  lemma {:induction false} StageRun(k: nat) returns (acts: seq<Act>)
    requires k <= 7
    ensures CanRun(Stage(k), acts) && Exec(Stage(k), acts) == Stage(7)
    decreases 7 - k
  {
    if k == 7 {
      acts := [];
    } else {
      acts := StageRun(k + 1);
      var x := if k < 6 then Do(1, Safepoint) else Clear(0);
      StageStep(k);
      hide Stage;
      RunCons(Stage(k), x, Stage(k + 1), acts);
      acts := [x] + acts;
    }
  }

  /** One such run: the request is gone, and the owner runs on. */
  lemma ClearLosesYield() returns (s0: State, acts: seq<Act>)
    ensures Init(s0) && CanRun(s0, acts)
    ensures var s := Exec(s0, acts); s.queue == [0] && s.pc == [Running, Waiting(0)] && !NobodyForgotten(s)
  {
    s0 := Stage(0);
    acts := StageRun(0);
    Forgotten(Stage(7));
  }

  lemma Forgotten(s: State)
    requires s.pc == [Running, Waiting(0)] && s.queue == [0] && s.joined == [1] && s.flag == [Quiet, Quiet]
    ensures !NobodyForgotten(s)
  {
    assert forall x | 0 <= x < 2 && HasTurn(s, x) :: x == 0;
    assert forall b | 0 <= b < 2 :: !WillAsk(s.pc[b], 0);
  }

  // ----- first come, first served -----

  /** giveTurn finds somebody in the queue and hands the turn on. */
  predicate IsGrant(s: State, x: Act) {
    x.Do? && x.a < |s.pc| && s.pc[x.a].GiveLocked? && s.queue != []
  }

  function Grants(s: State, acts: seq<Act>): nat
    requires CanRun(s, acts)
    decreases |acts|
  {
    if acts == [] then 0
    else (if IsGrant(s, acts[0]) then 1 else 0) + Grants(ActOn(s, acts[0]), acts[1..])
  }

  lemma ActQueue(s: State, x: Act)
    requires CanAct(s, x)
    ensures var s' := ActOn(s, x);
            && s.joined <= s'.joined
            && Granted(s') == Granted(s) + (if IsGrant(s, x) then 1 else 0)
            && |s'.pc| == |s.pc|
  {
  }

  lemma {:induction false} RunQueue(s: State, acts: seq<Act>)
    requires SafeInv(s) && CanRun(s, acts)
    ensures var s' := Exec(s, acts);
            && s.joined <= s'.joined
            && Granted(s') == Granted(s) + Grants(s, acts)
            && |s'.pc| == |s.pc|
    decreases |acts|
  {
    if acts != [] {
      ActQueue(s, acts[0]);
      ActSafe(s, acts[0]);
      RunQueue(ActOn(s, acts[0]), acts[1..]);
    }
  }

  /** An agent with k tickets ahead of it moves up by exactly one at each hand-over, whatever else happens,
    * and until the (k+1)-th it is still queued and does not have the turn.
    */
  lemma FirstComeFirstServed(s: State, acts: seq<Act>, k: nat)
    requires SafeInv(s) && CanRun(s, acts) && k < |s.queue| && Grants(s, acts) <= k
    ensures var s' := Exec(s, acts); var g := Grants(s, acts); var w := s.joined[s.queue[k]];
            && k - g < |s'.queue| && s'.queue[k - g] == s.queue[k]
            && w < |s'.pc| && RoleOf(s'.pc[w]) == Queued(s.queue[k]) && !HasTurn(s', w)
  {
    RunQueue(s, acts);
    RunSafe(s, acts);
    var s' := Exec(s, acts);
    var t := s.queue[k];
    assert t == Granted(s) + k == Granted(s') + (k - Grants(s, acts));
    assert s'.joined[t] == s.joined[t];
  }

  /** A hand-over gives the turn to the agent at the head of the queue. */
  lemma GrantServesHead(s: State, x: Act)
    requires SafeInv(s) && CanAct(s, x) && IsGrant(s, x)
    ensures s.queue[0] < |s.joined| && ActOn(s, x).turn == Some(s.joined[s.queue[0]])
  {
  }

  /** The (k+1)-th hand-over gives it the turn. */
  lemma ServedAtTurn(s: State, acts: seq<Act>, k: nat, x: Act)
    requires SafeInv(s) && CanRun(s, acts) && k < |s.queue| && Grants(s, acts) == k
    requires CanAct(Exec(s, acts), x) && IsGrant(Exec(s, acts), x)
    ensures var s' := ActOn(Exec(s, acts), x); var w := s.joined[s.queue[k]];
            s'.turn == Some(w) && w < |s'.pc| && HasTurn(s', w)
  {
    var s1, t := Exec(s, acts), s.queue[k];
    FirstComeFirstServed(s, acts, k);
    RunQueue(s, acts);
    RunSafe(s, acts);
    ActSafe(s1, x);
    GrantServesHead(s1, x);
    assert s1.queue[0] == t && t < |s.joined| && s1.joined[t] == s.joined[t];
    hide CanRun, Exec, Grants, CanAct, ActOn, IsGrant, LockInv, HolderInv, QueueInv, TicketInv;
  }

  // ----- progress -----

  /** The script of an interrupted agent is stopped by the host, not scheduled; progress is claimed while no
    * agent is.
    */
  predicate Calm(s: State) {
    forall a | 0 <= a < |s.flag| :: s.flag[a] != Stopped
  }

  predicate NoInterrupts(acts: seq<Act>) {
    forall i | 0 <= i < |acts| :: acts[i].Do?
  }

  /** A step that the code takes of its own accord: it depends on no script and on nothing that blocks a
    * paused agent.  A running script is only relied on to reach a safepoint.
    */
  predicate Forced(s: State, a: AgentId, c: Choice) {
    a < |s.pc| && !s.pc[a].Away? && (s.pc[a].Running? ==> c == Safepoint)
  }

  /** While anybody is queued, some agent can take a step of its own accord. */
  lemma Progress(s: State) returns (a: AgentId, c: Choice)
    requires Inv(s) && Calm(s) && s.queue != []
    ensures Forced(s, a, c) && CanStep(s, a, c)
  {
    c := Safepoint;
    a := s.turn.value;
    assert HasTurn(s, a);
    var p := s.pc[a];
    if p.GiveLocking? && s.mu.Some? {
      a := s.mu.value;
      assert Locks(s.pc[a]);
    } else if p.Waiting? && p.t !in s.closed {
      a := s.carrier.value;
    } else if p.Running? && s.flag[a] != YieldAsked {
      a :| 0 <= a < |s.pc| && WillAsk(s.pc[a], s.turn.value);
    }
  }

  function Weight(p: PC): nat {
    match p
    case Popped(_, _) => 33
    case Republished(_, _) => 32
    case Closing(_, _) => 31
    case Freed(_) => 31
    case Away => 30
    case JoinLocked => 29
    case Appended(_) => 28
    case Published(_) => 27
    case Sighted(_, _) => 26
    case Asking(_, _) => 25
    case GotFree => 21
    case Waiting(_) => 20
    case Entered => 19
    case Announced => 18
    case SelfAsk => 17
    case YieldTest => 13
    case Running => 12
    case ListLocked => 12
    case Yielding => 11
    case Giving(_) => 10
    case GiveLocking(_) => 9
    case GiveLocked(_) => 8
    case Gone => 0
  }

  function PcRank(pc: seq<PC>): nat {
    if pc == [] then 0 else Weight(pc[0]) + PcRank(pc[1..])
  }

  function FlagRank(flag: seq<Flag>): nat {
    if flag == [] then 0 else (if flag[0] == YieldAsked then 4 else 0) + FlagRank(flag[1..])
  }

  /** How much the agents can still do without the turn being handed over. */
  function Rank(s: State): nat {
    PcRank(s.pc) + FlagRank(s.flag)
  }

  lemma {:induction false} PcRankUpdate(pc: seq<PC>, i: nat, p: PC)
    requires i < |pc|
    ensures PcRank(pc[i := p]) + Weight(pc[i]) == PcRank(pc) + Weight(p)
  {
    if i == 0 {
      assert pc[i := p][1..] == pc[1..];
    } else {
      assert pc[i := p][1..] == pc[1..][i - 1 := p];
      PcRankUpdate(pc[1..], i - 1, p);
    }
  }

  lemma {:induction false} FlagRankUpdate(flag: seq<Flag>, i: nat, f: Flag)
    requires i < |flag|
    ensures FlagRank(flag[i := f]) + (if flag[i] == YieldAsked then 4 else 0) == FlagRank(flag) + (if f == YieldAsked then 4 else 0)
  {
    if i == 0 {
      assert flag[i := f][1..] == flag[1..];
    } else {
      assert flag[i := f][1..] == flag[1..][i - 1 := f];
      FlagRankUpdate(flag[1..], i - 1, f);
    }
  }

  lemma {:induction false} RankBound(s: State)
    requires |s.flag| == |s.pc|
    ensures Rank(s) <= 37 * |s.pc|
    decreases |s.pc|
  {
    if |s.pc| > 0 {
      RankBound(s.(pc := s.pc[1..], flag := s.flag[1..]));
    }
  }

  /** A step of the scheduler, as opposed to a script using one of the other critical sections of mu. */
  predicate IsWork(s: State, x: Act) {
    x.Do? && x.a < |s.pc| && !s.pc[x.a].ListLocked? && !(s.pc[x.a].Running? && x.c == LockList)
  }

  function Work(s: State, acts: seq<Act>): nat
    requires CanRun(s, acts)
    decreases |acts|
  {
    if acts == [] then 0
    else (if IsWork(s, acts[0]) then 1 else 0) + Work(ActOn(s, acts[0]), acts[1..])
  }

  lemma FlagEffect(s: State, a: AgentId, c: Choice)
    requires CanStep(s, a, c) && Calm(s)
    requires s.pc[a].Yielding? ==> s.flag[a] != Quiet
    ensures var s' := Step(s, a, c);
            && FlagRank(s'.flag) + (if s.pc[a].Yielding? then 4 else 0)
               <= FlagRank(s.flag) + (if s.pc[a].Asking? || s.pc[a].SelfAsk? then 4 else 0)
            && Calm(s')
  {
    var s' := Step(s, a, c);
    var p := s.pc[a];
    if p.Yielding? {
      FlagRankUpdate(s.flag, a, Quiet);
    } else if p.Asking? && p.h.Some? && s'.flag != s.flag {
      FlagRankUpdate(s.flag, p.h.value, YieldAsked);
    } else if p.SelfAsk? && s'.flag != s.flag {
      FlagRankUpdate(s.flag, a, YieldAsked);
    }
  }

  /** With somebody queued, every scheduler step but a hand-over takes its agent down the list of weights, and
    * a step that raises a flag takes it down by more than the flag weighs.
    */
  lemma WeightEffect(s: State, a: AgentId, c: Choice)
    requires CanStep(s, a, c) && s.held && s.queue != [] && !s.pc[a].GiveLocked?
    ensures var s' := Step(s, a, c);
            && (IsWork(s, Do(a, c)) ==>
                  Weight(s'.pc[a]) + (if s.pc[a].Asking? || s.pc[a].SelfAsk? then 4 else 0)
                  < Weight(s.pc[a]) + (if s.pc[a].Yielding? then 4 else 0))
            && (!IsWork(s, Do(a, c)) ==> Weight(s'.pc[a]) == Weight(s.pc[a]))
  {
  }

  lemma ActRank(s: State, a: AgentId, c: Choice)
    requires Inv(s) && CanStep(s, a, c) && Calm(s) && s.queue != [] && !s.pc[a].GiveLocked?
    ensures Rank(Step(s, a, c)) + (if IsWork(s, Do(a, c)) then 1 else 0) <= Rank(s)
  {
    FlagEffect(s, a, c);
    WeightEffect(s, a, c);
    PcRankUpdate(s.pc, a, Step(s, a, c).pc[a]);
  }

  /** However the agents are interleaved, the scheduler takes at most 37 steps per agent between two
    * hand-overs while somebody is queued, so the agent with k tickets ahead of it has been handed the turn
    * before the scheduler has taken (k + 1) * (37 * N + 1) steps.
    */
  lemma BoundedWait(s: State, acts: seq<Act>, k: nat)
    requires Inv(s) && Calm(s) && CanRun(s, acts) && NoInterrupts(acts)
    requires k < |s.queue| && Grants(s, acts) <= k
    ensures Work(s, acts) < (k + 1) * (37 * |s.pc| + 1)
  {
    hide *;
    WorkBelow(s, acts, k, 37 * |s.pc|);
  }

  lemma WorkBelow(s: State, acts: seq<Act>, k: nat, b: nat)
    requires Inv(s) && Calm(s) && CanRun(s, acts) && NoInterrupts(acts)
    requires k < |s.queue| && Grants(s, acts) <= k && b == 37 * |s.pc|
    ensures Work(s, acts) < (k + 1) * (b + 1)
  {
    assert |s.flag| == |s.pc|;
    hide *;
    RankBound(s);
    WorkBound(s, acts, k, b);
    TotalAllowance(Work(s, acts), Grants(s, acts), k, b);
  }

  /** b steps before each of g hand-overs, and the g hand-overs themselves. */
  function Allowance(g: nat, b: nat): nat {
    if g == 0 then 0 else b + 1 + Allowance(g - 1, b)
  }

  lemma AllowanceStep(g: nat, b: nat)
    ensures Allowance(g + 1, b) == b + 1 + Allowance(g, b)
  {
  }

  lemma {:induction false} TotalAllowance(w: nat, g: nat, k: nat, b: nat)
    requires w <= b + Allowance(g, b) && g <= k
    ensures w < (k + 1) * (b + 1)
  {
    if g > 0 && w >= b + 1 {
      TotalAllowance(w - (b + 1), g - 1, k - 1, b);
      assert (k + 1) * (b + 1) == k * (b + 1) + (b + 1);
    } else {
      assert (k + 1) * (b + 1) == k * (b + 1) + (b + 1);
    }
  }

  lemma ActBound(s: State, x: Act, k: nat, b: nat)
    requires Inv(s) && Calm(s) && CanAct(s, x) && x.Do? && k < |s.queue| && b == 37 * |s.pc|
    requires IsGrant(s, x) ==> k > 0
    ensures var s' := ActOn(s, x);
            && Inv(s') && Calm(s') && |s'.pc| == |s.pc|
            && k - (if IsGrant(s, x) then 1 else 0) < |s'.queue|
            && (if IsGrant(s, x) then Rank(s') <= b else Rank(s') + (if IsWork(s, x) then 1 else 0) <= Rank(s))
  {
    ActInv(s, x);
    ActQueue(s, x);
    FlagEffect(s, x.a, x.c);
    RankBound(ActOn(s, x));
    if !IsGrant(s, x) {
      ActRank(s, x.a, x.c);
    }
  }

  lemma Unroll(s: State, acts: seq<Act>)
    requires CanRun(s, acts) && NoInterrupts(acts) && acts != []
    ensures CanAct(s, acts[0]) && acts[0].Do? && CanRun(ActOn(s, acts[0]), acts[1..]) && NoInterrupts(acts[1..])
    ensures Grants(s, acts) == (if IsGrant(s, acts[0]) then 1 else 0) + Grants(ActOn(s, acts[0]), acts[1..])
    ensures Work(s, acts) == (if IsWork(s, acts[0]) then 1 else 0) + Work(ActOn(s, acts[0]), acts[1..])
  {
  }

  lemma {:induction false} WorkBound(s: State, acts: seq<Act>, k: nat, b: nat)
    requires Inv(s) && Calm(s) && CanRun(s, acts) && NoInterrupts(acts)
    requires k < |s.queue| && Grants(s, acts) <= k && b == 37 * |s.pc|
    ensures Work(s, acts) <= Rank(s) + Allowance(Grants(s, acts), b)
    decreases |acts|
  {
    if acts != [] {
      var x, rest := acts[0], acts[1..];
      Unroll(s, acts);
      ActBound(s, x, k, b);
      var s' := ActOn(s, x);
      var k' := if IsGrant(s, x) then k - 1 else k;
      hide *;
      WorkBound(s', rest, k', b);
      AllowanceStep(Grants(s', rest), b);
      assert Work(s', rest) <= Rank(s') + Allowance(Grants(s', rest), b);
    }
  }
}
