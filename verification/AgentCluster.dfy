/** The cluster object whose fields the agents update in place; each method is the part of a Go function of
  * internal/engine/agent.go that runs up to the next point where another goroutine can interfere, and does
  * to the fields what the specification step of Turns does to the state.
  */
module AgentClusters {
  import opened Wrappers
  import opened Turns
  import TurnRuns

  class AgentCluster {
    var mu: Option<AgentId>
    var held: bool
    var queue: seq<Ticket>
    var queued: int
    var holder: Option<AgentId>
    var closed: set<Ticket>
    var pc: seq<PC>
    var flag: seq<Flag>
    var drawn: Ticket
    ghost var joined: seq<AgentId>
    ghost var turn: Option<AgentId>
    ghost var carrier: Option<AgentId>

    ghost function View(): State
      reads this
    {
      State(mu, held, queue, queued, holder, closed, pc, flag, joined, turn, carrier)
    }

    /** ensureCluster, with room for n agents; the others have not entered yet. */
    constructor (n: nat)
      requires n > 0
      ensures Init(View()) && drawn == |joined| && |pc| == n
    {
      mu, held, queue, queued, holder, closed := None, true, [], 0, Some(0), {};
      pc := seq(n, i => if i == 0 then Running else Away);
      flag := seq(n, _ => Quiet);
      drawn, joined, turn, carrier := 0, [], Some(0), None;
    }

    method RaiseYield(a: AgentId)
      modifies this`flag
      ensures flag == RequestYield(old(flag), a)
    {
      if a < |flag| && flag[a] == Quiet {
        flag := flag[a := YieldAsked];
      }
    }

    method JoinNext(a: AgentId)
      requires drawn == |joined| && CanStep(View(), a, Safepoint)
      requires pc[a].Away? || pc[a].JoinLocked? || pc[a].GotFree? || Queues(pc[a])
      modifies this
      ensures drawn == |joined| && View() == JoinStep(old(View()), a)
    {
      match pc[a]
      case Away =>
        mu := Some(a);
        pc := pc[a := JoinLocked];
      case JoinLocked =>
        if !held {
          held := true;
          turn := Some(a);
          pc := pc[a := GotFree];
        } else {
          queue := queue + [drawn];
          pc := pc[a := Appended(drawn)];
          drawn, joined := drawn + 1, joined + [a];
        }
      case GotFree =>
        mu := None;
        pc := pc[a := Entered];
      case Appended(t) =>
        queued := |queue|;
        pc := pc[a := Published(t)];
      case Published(t) =>
        pc := pc[a := Sighted(t, holder)];
      case Sighted(t, h) =>
        mu := None;
        pc := pc[a := Asking(t, h)];
      case Asking(t, h) =>
        if h.Some? {
          RaiseYield(h.value);
        }
        pc := pc[a := Waiting(t)];
      case Waiting(t) =>
        pc := pc[a := Entered];
    }

    method ClaimNext(a: AgentId)
      requires drawn == |joined| && CanStep(View(), a, Safepoint)
      requires pc[a].Entered? || pc[a].Announced? || pc[a].SelfAsk?
      modifies this
      ensures drawn == |joined| && View() == ClaimStep(old(View()), a)
    {
      match pc[a]
      case Entered =>
        holder := Some(a);
        pc := pc[a := Announced];
      case Announced =>
        pc := pc[a := if queued > 0 then SelfAsk else Running];
      case SelfAsk =>
        RaiseYield(a);
        pc := pc[a := Running];
    }

    /** A running agent, at a safepoint or a call that leaves the script. */
    method RunNext(a: AgentId, c: Choice)
      requires drawn == |joined| && CanStep(View(), a, c)
      requires pc[a].Running? || pc[a].ListLocked?
      modifies this
      ensures drawn == |joined| && View() == RunStep(old(View()), a, c)
    {
      if pc[a].ListLocked? {
        mu := None;
        pc := pc[a := Running];
        return;
      }
      match c
      case Safepoint => pc := pc[a := Yielding];
      case Pause => pc := pc[a := Giving(Rejoin)];
      case End => pc := pc[a := Giving(Leave)];
      case LockList =>
        mu := Some(a);
        pc := pc[a := ListLocked];
    }

    method YieldNext(a: AgentId)
      requires drawn == |joined| && CanStep(View(), a, Safepoint)
      requires pc[a].Yielding? || pc[a].YieldTest?
      modifies this
      ensures drawn == |joined| && View() == YieldStep(old(View()), a)
    {
      match pc[a]
      case Yielding =>
        if flag[a] == YieldAsked {
          flag := flag[a := Quiet];
        }
        pc := pc[a := YieldTest];
      case YieldTest =>
        pc := pc[a := if queued == 0 then Running else Giving(Rejoin)];
    }

    method GiveNext(a: AgentId)
      requires drawn == |joined| && CanStep(View(), a, Safepoint)
      requires pc[a].Giving? || pc[a].GiveLocking? || pc[a].GiveLocked? || pc[a].Freed? || Carries(pc[a])
      modifies this
      ensures drawn == |joined| && View() == GiveStep(old(View()), a)
    {
      match pc[a]
      case Giving(k) =>
        if holder == Some(a) {
          holder := None;
        }
        pc := pc[a := GiveLocking(k)];
      case GiveLocking(k) =>
        mu := Some(a);
        pc := pc[a := GiveLocked(k)];
      case GiveLocked(k) =>
        if |queue| > 0 {
          var next := queue[0];
          queue := queue[1..];
          turn, carrier := if next < |joined| then Some(joined[next]) else None, Some(a);
          pc := pc[a := Popped(k, next)];
        } else {
          held := false;
          turn := None;
          pc := pc[a := Freed(k)];
        }
      case Popped(k, t) =>
        queued := |queue|;
        pc := pc[a := Republished(k, t)];
      case Republished(k, t) =>
        mu := None;
        pc := pc[a := Closing(k, t)];
      case Closing(k, t) =>
        closed := closed + {t};
        carrier := None;
        pc := pc[a := Returned(k)];
      case Freed(k) =>
        mu := None;
        pc := pc[a := Returned(k)];
    }

    method Next(a: AgentId, c: Choice)
      requires drawn == |joined| && CanStep(View(), a, c)
      modifies this
      ensures drawn == |joined| && View() == Step(old(View()), a, c)
    {
      var p := pc[a];
      if p.Away? || p.JoinLocked? || p.GotFree? || p.Appended? || p.Published? || p.Sighted? || p.Asking? || p.Waiting? {
        JoinNext(a);
      } else if p.Entered? || p.Announced? || p.SelfAsk? {
        ClaimNext(a);
      } else if p.Running? || p.ListLocked? {
        RunNext(a, c);
      } else if p.Yielding? || p.YieldTest? {
        YieldNext(a);
      } else {
        GiveNext(a);
      }
    }

    method Act(x: TurnRuns.Act)
      requires drawn == |joined| && TurnRuns.CanAct(View(), x)
      modifies this
      ensures drawn == |joined| && View() == TurnRuns.ActOn(old(View()), x)
    {
      match x
      case Do(a, c) => Next(a, c);
      case Interrupt(a) => flag := flag[a := Stopped];
      case Clear(a) => flag := flag[a := Quiet];
    }

    /** Any schedule of the agents and the host, on the fields themselves: there is one turn throughout, and while the host
      * clears no flag that somebody needs, nobody who is queued is forgotten.
      */
    method RunSchedule(acts: seq<TurnRuns.Act>)
      requires drawn == |joined| && SafeInv(View()) && TurnRuns.CanRun(View(), acts)
      modifies this
      ensures drawn == |joined| && View() == TurnRuns.Exec(old(View()), acts)
      ensures SafeInv(View()) && TurnRuns.OneTurn(View()) && TurnRuns.AtomicsAgree(View())
      ensures old(AskInv(View())) && TurnRuns.NoneForgets(old(View()), acts) ==> TurnRuns.NobodyForgotten(View())
      ensures old(Inv(View())) && TurnRuns.Careful(old(View()), acts) ==> Inv(View())
    {
      ghost var s0 := View();
      for i := 0 to |acts|
        invariant drawn == |joined| && TurnRuns.CanRun(View(), acts[i..])
        invariant TurnRuns.Exec(View(), acts[i..]) == TurnRuns.Exec(s0, acts)
      {
        assert acts[i..][0] == acts[i] && acts[i..][1..] == acts[i + 1..];
        Act(acts[i]);
      }
      TurnRuns.RunSafe(s0, acts);
      TurnRuns.InvOneTurn(View());
      TurnRuns.InvAtomicsAgree(View());
      if AskInv(s0) && TurnRuns.NoneForgets(s0, acts) {
        TurnRuns.NoLostYieldFrom(s0, acts);
        TurnRuns.NeverForgottenAtEnd(s0, acts);
      }
      if Inv(s0) && TurnRuns.Careful(s0, acts) {
        TurnRuns.RunInv(s0, acts);
      }
    }
  }
}
