/** Who comes back: an agent that gives the turn up at a safepoint or for a pause takes it again, one whose script has
  * ended does not.
  */
module TurnEnds {
  import opened Wrappers
  import opened Turns
  import opened TurnRuns

  /** The agent's script ends in the course of the run. */
  predicate Ends(s: State, acts: seq<Act>, a: AgentId)
    requires CanRun(s, acts)
    decreases |acts|
  {
    acts != [] &&
    ((acts[0] == Do(a, End) && a < |s.pc| && s.pc[a].Running?) || Ends(ActOn(s, acts[0]), acts[1..], a))
  }

  /** Giving the turn up, from the compare-and-swap to the last step of the hand-over. */
  predicate Gives(p: PC) {
    p.Giving? || p.GiveLocking? || p.GiveLocked? || p.Popped? || p.Republished? || p.Closing? || p.Freed?
  }

  /** The goroutine has returned, or is about to once it has handed the turn over. */
  predicate OnItsWayOut(p: PC) {
    p.Gone? || (Gives(p) && p.k == Leave)
  }

  lemma StepOut(s: State, a: AgentId, c: Choice)
    requires CanStep(s, a, c)
    ensures OnItsWayOut(Step(s, a, c).pc[a]) <==> OnItsWayOut(s.pc[a]) || (s.pc[a].Running? && c == End)
  {
    if Gives(s.pc[a]) {
      GivesOut(s, a, c);
    } else {
      hide GiveStep;
    }
  }

  lemma GivesOut(s: State, a: AgentId, c: Choice)
    requires CanStep(s, a, c) && Gives(s.pc[a])
    ensures OnItsWayOut(Step(s, a, c).pc[a]) <==> OnItsWayOut(s.pc[a])
  {
    hide JoinStep, ClaimStep, RunStep, YieldStep;
  }

  lemma ActOut(s: State, x: Act, a: AgentId)
    requires CanAct(s, x) && a < |s.pc|
    ensures |ActOn(s, x).pc| == |s.pc|
    ensures OnItsWayOut(ActOn(s, x).pc[a]) <==> OnItsWayOut(s.pc[a]) || (x == Do(a, End) && s.pc[a].Running?)
  {
    if x.Do? {
      StepOut(s, x.a, x.c);
    }
    hide OnItsWayOut, CanStep;
  }

  /** Over any run an agent is on its way out exactly when it was before or its script has ended in the run. */
  lemma {:induction false} OutIff(s: State, acts: seq<Act>, a: AgentId)
    requires CanRun(s, acts) && a < |s.pc|
    ensures |Exec(s, acts).pc| == |s.pc|
    ensures OnItsWayOut(Exec(s, acts).pc[a]) <==> OnItsWayOut(s.pc[a]) || Ends(s, acts, a)
    decreases |acts|
  {
    if acts != [] {
      ActOut(s, acts[0], a);
      OutIff(ActOn(s, acts[0]), acts[1..], a);
      hide OnItsWayOut, ActOn, CanAct;
    }
  }

  /** In every reachable state: an agent has returned only if its script ended, and one whose script has ended neither runs,
    * nor queues, nor is free to join again.
    */
  lemma GoneOnlyAtEnd(s0: State, acts: seq<Act>, a: AgentId)
    requires Init(s0) && CanRun(s0, acts) && a < |s0.pc|
    ensures |Exec(s0, acts).pc| == |s0.pc|
    ensures var p := Exec(s0, acts).pc[a];
            && (p.Gone? ==> Ends(s0, acts, a))
            && (Ends(s0, acts, a) ==> !p.Away? && !p.JoinLocked? && !p.GotFree? && !Queues(p) && !p.Entered? && !p.Running? && !p.ListLocked?)
  {
    OutIff(s0, acts, a);
  }

  /** The last step of a hand-over: an agent whose script has ended is gone and takes no step again; any other is outside the
    * turn and enters join as soon as mu is free.
    */
  lemma AfterHandOver(s0: State, acts: seq<Act>, a: AgentId, c: Choice)
    requires Init(s0) && CanRun(s0, acts) && a < |s0.pc|
    requires var s := Exec(s0, acts); CanStep(s, a, c) && (s.pc[a].Closing? || s.pc[a].Freed?)
    ensures var s' := ActOn(Exec(s0, acts), Do(a, c));
            if Ends(s0, acts, a) then s'.pc[a] == Gone && forall d :: !CanStep(s', a, d)
            else s'.pc[a] == Away && forall d :: CanStep(s', a, d) <==> s'.mu == None
  {
    OutIff(s0, acts, a);
    LastStep(Exec(s0, acts), a, c);
    hide CanRun, Exec, Ends, Step;
  }

  lemma LastStep(s: State, a: AgentId, c: Choice)
    requires CanStep(s, a, c) && (s.pc[a].Closing? || s.pc[a].Freed?)
    ensures var s' := Step(s, a, c); s'.pc[a] == (if s.pc[a].k == Leave then Gone else Away) && |s'.flag| == |s.flag|
  {
    hide JoinStep, ClaimStep, RunStep, YieldStep;
  }

  // ----- a host interrupt outranks a turn -----

  predicate Clears(acts: seq<Act>, a: AgentId) {
    exists i | 0 <= i < |acts| :: acts[i] == Clear(a)
  }

  lemma ActKeepsStop(s: State, x: Act, a: AgentId)
    requires CanAct(s, x) && a < |s.flag| && s.flag[a] == Stopped && x != Clear(a)
    ensures |ActOn(s, x).flag| == |s.flag| && ActOn(s, x).flag[a] == Stopped
  {
  }

  /** Once the host has asked a script to stop, no request for the turn and no hand-over takes that back; only the host does. */
  lemma {:induction false} StopIsKept(s: State, acts: seq<Act>, a: AgentId)
    requires CanRun(s, acts) && a < |s.flag| && s.flag[a] == Stopped && !Clears(acts, a)
    ensures a < |Exec(s, acts).flag| && Exec(s, acts).flag[a] == Stopped
    decreases |acts|
  {
    if acts != [] {
      assert acts[0] != Clear(a);
      ActKeepsStop(s, acts[0], a);
      assert forall i | 0 <= i < |acts[1..]| :: acts[1..][i] == acts[i + 1];
      StopIsKept(ActOn(s, acts[0]), acts[1..], a);
    }
  }

  /** And a stopped script never yields at a safepoint. */
  lemma StoppedDoesNotYield(s: State, a: AgentId)
    requires a < |s.pc| && a < |s.flag| && s.pc[a].Running? && s.flag[a] == Stopped
    ensures !CanStep(s, a, Safepoint)
  {
  }

  // ----- no needless hand-over -----

  /** An agent that has taken the turn asks itself to hand over exactly when somebody has been counted as queued, and one that
    * yields goes on running exactly when nobody has.
    */
  lemma HandsOverWhenQueued(s: State, a: AgentId, c: Choice)
    requires CanStep(s, a, c)
    ensures s.pc[a].Announced? ==> Step(s, a, c) == s.(pc := s.pc[a := if s.queued > 0 then SelfAsk else Running])
    ensures s.pc[a].YieldTest? && s.queued == 0 ==> Step(s, a, c) == s.(pc := s.pc[a := Running])
    ensures s.pc[a].YieldTest? && s.queued != 0 ==> Gives(Step(s, a, c).pc[a])
  {
    hide JoinStep, RunStep, GiveStep;
  }

  /** With mu free that count is the queue, so a turn is given up at a safepoint only while somebody waits for it. */
  lemma YieldsOnlyToSomebody(s0: State, acts: seq<Act>, a: AgentId, c: Choice)
    requires Init(s0) && CanRun(s0, acts)
    requires var s := Exec(s0, acts); CanStep(s, a, c) && s.pc[a].YieldTest? && s.mu == None
    ensures var s := Exec(s0, acts); Gives(Step(s, a, c).pc[a]) <==> s.queue != []
  {
    MutualExclusion(s0, acts);
    HandsOverWhenQueued(Exec(s0, acts), a, c);
    hide Init, CanRun, Exec, Step, CanStep, OneTurn;
  }
}
