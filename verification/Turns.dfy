/** The turn-taking lock of an agent cluster (internal/engine/agent.go).
  *
  * Agents of a cluster run one at a time.  The turn is handed from one agent to the next through a
  * queue of one-shot channels ("tickets"), and an agent that wants it raises a flag on the agent that
  * is running.  Everything is modelled at the granularity at which another goroutine can interfere:
  * taking the mutex, each access to a field under it, and each atomic load, store or compare-and-swap
  * is a step of its own.
  */
module Turns {
  import opened Wrappers

  type AgentId = nat
  type Ticket = nat

  /** The interrupt flag: interruptNone, interruptYield, and any reason that stops the script. */
  datatype Flag = Quiet | YieldAsked | Stopped

  /** What an agent does once it has given the turn up: pause and yieldTurn take it again, a script
    * that has ended does not.
    */
  datatype Then = Rejoin | Leave

  /** Where an agent is in the code; each value names the next step it will take. */
  datatype PC =
    | Away                                         // outside the turn; its next step is to enter join
    | Gone                                         // the goroutine has returned
    // join
    | JoinLocked                                   // holds mu, about to look at held
    | GotFree                                      // took a free turn, still holds mu
    | Appended(t: Ticket)                          // queued its ticket, about to store queued
    | Published(t: Ticket)                         // about to load holder
    | Sighted(t: Ticket, h: Option<AgentId>)       // loaded holder, about to release mu
    | Asking(t: Ticket, h: Option<AgentId>)        // about to requestYield
    | Waiting(t: Ticket)                           // blocked on the ticket
    // claim
    | Entered                                      // has the turn, about to store holder (enter builds its Runtime here)
    | Announced                                    // about to load queued
    | SelfAsk                                      // about to requestYield on itself
    // running JavaScript
    | Running
    | ListLocked                                   // inside one of the other critical sections of mu
    // yieldTurn
    | Yielding                                     // about to clear the flag
    | YieldTest                                    // about to load queued
    // giveTurn
    | Giving(k: Then)                              // about to compare-and-swap holder
    | GiveLocking(k: Then)                         // about to take mu
    | GiveLocked(k: Then)                          // about to look at the queue
    | Popped(k: Then, t: Ticket)                   // about to store queued
    | Republished(k: Then, t: Ticket)              // about to release mu
    | Closing(k: Then, t: Ticket)                  // about to close the ticket
    | Freed(k: Then)                               // cleared held, about to release mu

  /** A running agent chooses what happens next; everywhere else the code does. */
  datatype Choice = Safepoint | Pause | End | LockList

  /** The fields of agentCluster, the flags of its Runtimes, and where each agent is.  The last three
    * fields are history variables: steps write them and never read them.
    */
  datatype State = State(
    mu: Option<AgentId>,
    held: bool,
    queue: seq<Ticket>,
    queued: int,
    holder: Option<AgentId>,
    closed: set<Ticket>,
    pc: seq<PC>,
    flag: seq<Flag>,
    joined: seq<AgentId>,        // who drew each ticket, in order: ticket t is joined[t]'s
    turn: Option<AgentId>,       // whose the turn is, from the moment it is popped off the queue
    carrier: Option<AgentId>)    // who has popped a ticket and not closed it yet

  // ----- the steps -----

  /** Raises the flag from zero only: a real interrupt outranks a turn. */
  function RequestYield(flag: seq<Flag>, a: AgentId): seq<Flag> {
    if a < |flag| && flag[a] == Quiet then flag[a := YieldAsked] else flag
  }

  predicate Queues(p: PC) {
    p.Appended? || p.Published? || p.Sighted? || p.Asking? || p.Waiting?
  }

  predicate Carries(p: PC) {
    p.Popped? || p.Republished? || p.Closing?
  }

  function DrawnBy(s: State, t: Ticket): Option<AgentId> {
    if t < |s.joined| then Some(s.joined[t]) else None
  }

  function Returned(k: Then): PC {
    if k == Rejoin then Away else Gone
  }

  /** Whether agent a can take its next step now. */
  predicate CanStep(s: State, a: AgentId, c: Choice) {
    a < |s.pc| && a < |s.flag| &&
    match s.pc[a]
    case Away => s.mu == None
    case GiveLocking(_) => s.mu == None
    case Waiting(t) => t in s.closed
    case Gone => false
    case Running => (c == Safepoint ==> s.flag[a] == YieldAsked) && (c == LockList ==> s.mu == None)
    case _ => true
  }

  /** takeTurn and enter begin here: join, then the wait on the ticket. */
  function JoinStep(s: State, a: AgentId): (r: State)
    requires a < |s.pc| && (s.pc[a].Away? || s.pc[a].JoinLocked? || s.pc[a].GotFree? || Queues(s.pc[a]))
    ensures |r.pc| == |s.pc| && r.pc == s.pc[a := r.pc[a]]
  {
    match s.pc[a]
    case Away => s.(mu := Some(a), pc := s.pc[a := JoinLocked])
    case JoinLocked =>
      if !s.held then
        s.(held := true, turn := Some(a), pc := s.pc[a := GotFree])
      else
        s.(queue := s.queue + [|s.joined|], joined := s.joined + [a], pc := s.pc[a := Appended(|s.joined|)])
    case GotFree => s.(mu := None, pc := s.pc[a := Entered])
    case Appended(t) => s.(queued := |s.queue|, pc := s.pc[a := Published(t)])
    case Published(t) => s.(pc := s.pc[a := Sighted(t, s.holder)])
    case Sighted(t, h) => s.(mu := None, pc := s.pc[a := Asking(t, h)])
    case Asking(t, h) =>
      s.(flag := if h.Some? then RequestYield(s.flag, h.value) else s.flag, pc := s.pc[a := Waiting(t)])
    case Waiting(t) => s.(pc := s.pc[a := Entered])
  }

  function ClaimStep(s: State, a: AgentId): (r: State)
    requires a < |s.pc| && (s.pc[a].Entered? || s.pc[a].Announced? || s.pc[a].SelfAsk?)
    ensures |r.pc| == |s.pc| && r.pc == s.pc[a := r.pc[a]]
  {
    match s.pc[a]
    case Entered => s.(holder := Some(a), pc := s.pc[a := Announced])
    case Announced => s.(pc := s.pc[a := if s.queued > 0 then SelfAsk else Running])
    case SelfAsk => s.(flag := RequestYield(s.flag, a), pc := s.pc[a := Running])
  }

  /** A running script: a safepoint that finds the flag raised, a pause, its end, or a critical section. */
  function RunStep(s: State, a: AgentId, c: Choice): (r: State)
    requires a < |s.pc| && (s.pc[a].Running? || s.pc[a].ListLocked?)
    ensures |r.pc| == |s.pc| && r.pc == s.pc[a := r.pc[a]]
  {
    if s.pc[a].ListLocked? then s.(mu := None, pc := s.pc[a := Running])
    else
      match c
      case Safepoint => s.(pc := s.pc[a := Yielding])
      case Pause => s.(pc := s.pc[a := Giving(Rejoin)])
      case End => s.(pc := s.pc[a := Giving(Leave)])
      case LockList => s.(mu := Some(a), pc := s.pc[a := ListLocked])
  }

  function YieldStep(s: State, a: AgentId): (r: State)
    requires a < |s.pc| && a < |s.flag| && (s.pc[a].Yielding? || s.pc[a].YieldTest?)
    ensures |r.pc| == |s.pc| && r.pc == s.pc[a := r.pc[a]]
  {
    match s.pc[a]
    case Yielding =>
      s.(flag := if s.flag[a] == YieldAsked then s.flag[a := Quiet] else s.flag, pc := s.pc[a := YieldTest])
    case YieldTest => s.(pc := s.pc[a := if s.queued == 0 then Running else Giving(Rejoin)])
  }

  function GiveStep(s: State, a: AgentId): (r: State)
    requires a < |s.pc| && (s.pc[a].Giving? || s.pc[a].GiveLocking? || s.pc[a].GiveLocked? || s.pc[a].Freed? || Carries(s.pc[a]))
    ensures |r.pc| == |s.pc| && r.pc == s.pc[a := r.pc[a]]
  {
    match s.pc[a]
    case Giving(k) => s.(holder := if s.holder == Some(a) then None else s.holder, pc := s.pc[a := GiveLocking(k)])
    case GiveLocking(k) => s.(mu := Some(a), pc := s.pc[a := GiveLocked(k)])
    case GiveLocked(k) =>
      if |s.queue| > 0 then
        s.(queue := s.queue[1..], turn := DrawnBy(s, s.queue[0]), carrier := Some(a),
           pc := s.pc[a := Popped(k, s.queue[0])])
      else
        s.(held := false, turn := None, pc := s.pc[a := Freed(k)])
    case Popped(k, t) => s.(queued := |s.queue|, pc := s.pc[a := Republished(k, t)])
    case Republished(k, t) => s.(mu := None, pc := s.pc[a := Closing(k, t)])
    case Closing(k, t) => s.(closed := s.closed + {t}, carrier := None, pc := s.pc[a := Returned(k)])
    case Freed(k) => s.(mu := None, pc := s.pc[a := Returned(k)])
  }

  function Step(s: State, a: AgentId, c: Choice): (r: State)
    requires CanStep(s, a, c)
    ensures |r.pc| == |s.pc| && r.pc == s.pc[a := r.pc[a]]
  {
    var p := s.pc[a];
    if p.Away? || p.JoinLocked? || p.GotFree? || Queues(p) then JoinStep(s, a)
    else if p.Entered? || p.Announced? || p.SelfAsk? then ClaimStep(s, a)
    else if p.Running? || p.ListLocked? then RunStep(s, a, c)
    else if p.Yielding? || p.YieldTest? then YieldStep(s, a)
    else GiveStep(s, a)
  }

  /** Interrupt: the host stops a script.  It may do so at any time, from any goroutine. */
  function HostStop(s: State, a: AgentId): State
    requires a < |s.flag|
  {
    s.(flag := s.flag[a := Stopped])
  }

  /** ClearInterrupt: the host takes back whatever has been asked of a Runtime, a request to yield included. */
  function HostClear(s: State, a: AgentId): State
    requires a < |s.flag|
  {
    s.(flag := s.flag[a := Quiet])
  }

  /** ensureCluster: the agent that creates the cluster is running and has the turn. */
  ghost predicate Init(s: State) {
    && |s.pc| == |s.flag| > 0
    && s.pc[0] == Running
    && (forall a | 0 < a < |s.pc| :: s.pc[a] == Away)
    && (forall a | 0 <= a < |s.flag| :: s.flag[a] == Quiet)
    && s.mu == None && s.held && s.queue == [] && s.queued == 0 && s.holder == Some(0) && s.closed == {}
    && s.joined == [] && s.turn == Some(0) && s.carrier == None
  }

  // ----- the invariant -----

  /** What an agent's place in the code means for the turn. */
  datatype Role = Outside | Queued(t: Ticket) | Owner | Carrier(t: Ticket)

  function RoleOf(p: PC): Role {
    if Queues(p) then Queued(p.t)
    else if Carries(p) then Carrier(p.t)
    else if p.Away? || p.Gone? || p.JoinLocked? || p.Freed? then Outside
    else Owner
  }

  predicate Locks(p: PC) {
    p.JoinLocked? || p.GotFree? || p.Appended? || p.Published? || p.Sighted? || p.ListLocked? || p.GiveLocked? ||
    p.Popped? || p.Republished? || p.Freed?
  }

  /** Between claim's store of holder and giveTurn's compare-and-swap. */
  predicate Announces(p: PC) {
    p.Announced? || p.SelfAsk? || p.Running? || p.ListLocked? || p.Yielding? || p.YieldTest? || p.Giving?
  }

  /** How many tickets have left the queue. */
  function Granted(s: State): int {
    |s.joined| - |s.queue|
  }

  /** The turn is a's: either a is running with it, or a's ticket has been popped for it. */
  predicate HasTurn(s: State, a: AgentId)
    requires a < |s.pc|
  {
    var r := RoleOf(s.pc[a]);
    r.Owner? || (r.Queued? && r.t < Granted(s))
  }

  /** A joiner that will still raise a's flag: it has not loaded holder yet, or it loaded a. */
  predicate WillAsk(p: PC, a: AgentId) {
    p.Appended? || p.Published? || ((p.Sighted? || p.Asking?) && p.h == Some(a))
  }

  ghost predicate LockInv(s: State) {
    && |s.flag| == |s.pc|
    && (forall a | 0 <= a < |s.pc| :: Locks(s.pc[a]) <==> s.mu == Some(a))
    && (s.mu.Some? ==> s.mu.value < |s.pc|)
    && s.queued == |s.queue| + (if s.mu.None? then 0
                                else if s.pc[s.mu.value].Appended? then -1
                                else if s.pc[s.mu.value].Popped? then 1 else 0)
  }

  ghost predicate HolderInv(s: State) {
    && (forall a | 0 <= a < |s.pc| :: Announces(s.pc[a]) <==> s.holder == Some(a))
    && (s.holder.Some? ==> s.holder.value < |s.pc|)
  }

  /** The queue is the tickets Granted .. |joined| in order, and each ticket drawn and not yet consumed
    * is at exactly one agent, the one that drew it.
    */
  ghost predicate QueueInv(s: State) {
    && |s.queue| <= |s.joined|
    && (forall i | 0 <= i < |s.queue| :: s.queue[i] == Granted(s) + i)
    && (forall t | 0 <= t < |s.joined| :: s.joined[t] < |s.pc|)
    && (forall t | Granted(s) <= t < |s.joined| :: RoleOf(s.pc[s.joined[t]]) == Queued(t))
    && (forall a | 0 <= a < |s.pc| && RoleOf(s.pc[a]).Queued? ::
          RoleOf(s.pc[a]).t < |s.joined| && s.joined[RoleOf(s.pc[a]).t] == a)
  }

  ghost predicate TurnInv(s: State) {
    && (forall a | 0 <= a < |s.pc| :: HasTurn(s, a) <==> s.turn == Some(a))
    && (s.turn.Some? ==> s.turn.value < |s.pc|)
    && (s.held <==> s.turn.Some?)
    && (s.queue != [] ==> s.held)
  }

  /** A popped ticket that is not closed yet is in the hands of the agent that popped it, and only the
    * last popped one can be on its way.
    */
  ghost predicate TicketInv(s: State) {
    && (forall a | 0 <= a < |s.pc| && RoleOf(s.pc[a]).Carrier? :: s.carrier == Some(a))
    && (s.carrier.Some? ==>
          && s.carrier.value < |s.pc|
          && RoleOf(s.pc[s.carrier.value]).Carrier?
          && RoleOf(s.pc[s.carrier.value]).t == Granted(s) - 1
          && Granted(s) - 1 !in s.closed
          && s.turn.Some? && s.turn.value < |s.pc| && RoleOf(s.pc[s.turn.value]).Queued?)
    && (forall t | t in s.closed :: t < Granted(s))
    && (forall a | 0 <= a < |s.pc| && RoleOf(s.pc[a]).Queued? && RoleOf(s.pc[a]).t < Granted(s) ::
          RoleOf(s.pc[a]).t == Granted(s) - 1 && (Granted(s) - 1 in s.closed || s.carrier.Some?))
  }

  ghost predicate RoleInv(s: State) {
    QueueInv(s) && TurnInv(s) && TicketInv(s)
  }

  /** While somebody is queued, a running owner has been asked, or is about to be. */
  ghost predicate AskInv(s: State) {
    s.queue != [] ==>
      forall a | 0 <= a < |s.pc| && (s.pc[a].Running? || s.pc[a].ListLocked?) && a < |s.flag| && s.flag[a] == Quiet ::
        exists b | 0 <= b < |s.pc| :: WillAsk(s.pc[b], a)
  }

  ghost predicate FlagInv(s: State) {
    && |s.flag| == |s.pc|
    && (forall a | 0 <= a < |s.pc| :: s.pc[a].Yielding? ==> s.flag[a] != Quiet)
  }

  /** What does not depend on the flags. */
  ghost predicate SafeInv(s: State) {
    LockInv(s) && HolderInv(s) && RoleInv(s)
  }

  ghost predicate Inv(s: State) {
    SafeInv(s) && AskInv(s) && FlagInv(s)
  }

  lemma InitInv(s: State)
    requires Init(s)
    ensures Inv(s)
  {
  }

  // ----- every step keeps the invariant -----

  /** The two states look the same to the turn invariants. */
  ghost predicate SameRoles(s: State, s': State) {
    && |s'.pc| == |s.pc| && (forall b | 0 <= b < |s.pc| :: RoleOf(s'.pc[b]) == RoleOf(s.pc[b]))
    && s'.queue == s.queue && s'.joined == s.joined && s'.turn == s.turn && s'.held == s.held
    && s'.carrier == s.carrier && s'.closed == s.closed
  }

  lemma RoleFrame(s: State, s': State)
    requires RoleInv(s) && SameRoles(s, s')
    ensures RoleInv(s')
  {
    assert forall b | 0 <= b < |s.pc| :: HasTurn(s', b) == HasTurn(s, b);
  }

  lemma JoinRole(s: State, a: AgentId)
    requires RoleInv(s) && a < |s.pc| && s.pc[a].JoinLocked?
    ensures RoleInv(JoinStep(s, a))
  {
    JoinQueue(s, a);
    JoinTurn(s, a);
    JoinTicket(s, a);
    hide QueueInv, TurnInv, TicketInv, JoinStep;
  }

  lemma JoinQueue(s: State, a: AgentId)
    requires QueueInv(s) && a < |s.pc| && s.pc[a].JoinLocked?
    ensures QueueInv(JoinStep(s, a))
  {
    var s' := JoinStep(s, a);
    assert Granted(s') == Granted(s);
    assert forall b | 0 <= b < |s.pc| && b != a :: s'.pc[b] == s.pc[b];
    assert forall t | 0 <= t < |s.joined| :: s'.joined[t] == s.joined[t];
    assert RoleOf(s'.pc[a]) == if s.held then Queued(|s.joined|) else Owner;
    hide JoinStep;
  }

  lemma JoinTurn(s: State, a: AgentId)
    requires QueueInv(s) && TurnInv(s) && a < |s.pc| && s.pc[a].JoinLocked?
    ensures TurnInv(JoinStep(s, a))
  {
    var s' := JoinStep(s, a);
    assert HasTurn(s, a) <==> s.turn == Some(a);
    assert Granted(s') == Granted(s);
    assert forall b | 0 <= b < |s.pc| && b != a :: HasTurn(s', b) == HasTurn(s, b);
  }

  lemma JoinTicket(s: State, a: AgentId)
    requires QueueInv(s) && TicketInv(s) && a < |s.pc| && s.pc[a].JoinLocked?
    requires s.held <==> s.turn.Some?
    ensures TicketInv(JoinStep(s, a))
  {
    var s' := JoinStep(s, a);
    assert Granted(s') == Granted(s);
    assert forall b | 0 <= b < |s.pc| && b != a :: s'.pc[b] == s.pc[b];
    assert s'.closed == s.closed && s'.carrier == s.carrier && (s.carrier.Some? ==> s'.turn == s.turn);
    hide JoinStep;
  }

  lemma ReceiveRole(s: State, a: AgentId)
    requires RoleInv(s) && a < |s.pc| && s.pc[a].Waiting? && s.pc[a].t in s.closed
    ensures RoleInv(JoinStep(s, a))
  {
    assert HasTurn(s, a) <==> s.turn == Some(a);
  }

  /** Before a ticket is popped nobody holds one that has left the queue. */
  lemma NothingInFlight(s: State, a: AgentId)
    requires RoleInv(s) && a < |s.pc| && s.pc[a].GiveLocked? && s.queue != []
    ensures s.turn == Some(a) && s.carrier == None && s.queue[0] == Granted(s) && s.held
    ensures forall b | 0 <= b < |s.pc| && RoleOf(s.pc[b]).Queued? :: RoleOf(s.pc[b]).t >= Granted(s)
  {
    assert HasTurn(s, a);
    forall b | 0 <= b < |s.pc| && RoleOf(s.pc[b]).Queued?
      ensures RoleOf(s.pc[b]).t >= Granted(s)
    {
      assert HasTurn(s, b) <==> s.turn == Some(b);
    }
    hide QueueInv;
  }

  lemma Popping(s: State, a: AgentId)
    requires QueueInv(s) && a < |s.pc| && s.pc[a].GiveLocked? && s.queue != []
    ensures var s' := GiveStep(s, a);
            && s'.pc == s.pc[a := Popped(s.pc[a].k, Granted(s))] && s'.queue == s.queue[1..] && s'.joined == s.joined
            && s'.turn == Some(s.joined[Granted(s)]) && s'.carrier == Some(a) && s'.closed == s.closed && s'.held == s.held
            && Granted(s') == Granted(s) + 1
  {
    assert s.queue[0] == Granted(s);
  }

  lemma PopQueue(s: State, a: AgentId)
    requires QueueInv(s) && a < |s.pc| && s.pc[a].GiveLocked? && s.queue != []
    ensures QueueInv(GiveStep(s, a))
  {
    Popping(s, a);
    hide GiveStep;
    assert forall b | 0 <= b < |s.pc| && b != a :: GiveStep(s, a).pc[b] == s.pc[b];
  }

  lemma PopTurn(s: State, a: AgentId)
    requires RoleInv(s) && a < |s.pc| && s.pc[a].GiveLocked? && s.queue != []
    ensures TurnInv(GiveStep(s, a))
  {
    NothingInFlight(s, a);
    Popping(s, a);
    hide GiveStep, TicketInv;
    var s' := GiveStep(s, a);
    forall b | 0 <= b < |s.pc|
      ensures HasTurn(s', b) <==> s'.turn == Some(b)
    {
      assert b != a ==> s'.pc[b] == s.pc[b];
      assert RoleOf(s.pc[b]).Owner? ==> HasTurn(s, b);
    }
  }

  lemma PopTicket(s: State, a: AgentId)
    requires RoleInv(s) && a < |s.pc| && s.pc[a].GiveLocked? && s.queue != []
    ensures TicketInv(GiveStep(s, a))
  {
    NothingInFlight(s, a);
    Popping(s, a);
    hide GiveStep, TurnInv;
    var s' := GiveStep(s, a);
    assert RoleOf(s.pc[s.joined[Granted(s)]]) == Queued(Granted(s));
    assert forall b | 0 <= b < |s.pc| && b != a :: s'.pc[b] == s.pc[b];
  }

  lemma PopRole(s: State, a: AgentId)
    requires RoleInv(s) && a < |s.pc| && s.pc[a].GiveLocked? && s.queue != []
    ensures RoleInv(GiveStep(s, a))
  {
    PopQueue(s, a);
    PopTurn(s, a);
    PopTicket(s, a);
    hide QueueInv, TurnInv, TicketInv, GiveStep;
  }

  lemma FreeRole(s: State, a: AgentId)
    requires RoleInv(s) && a < |s.pc| && s.pc[a].GiveLocked? && s.queue == []
    ensures RoleInv(GiveStep(s, a))
  {
    assert HasTurn(s, a) <==> s.turn == Some(a);
  }

  lemma CloseRole(s: State, a: AgentId)
    requires RoleInv(s) && a < |s.pc| && s.pc[a].Closing?
    ensures RoleInv(GiveStep(s, a))
  {
    assert HasTurn(s, a) <==> s.turn == Some(a);
  }

  lemma StepRole(s: State, a: AgentId, c: Choice)
    requires RoleInv(s) && CanStep(s, a, c)
    ensures RoleInv(Step(s, a, c))
  {
    var p := s.pc[a];
    if p.JoinLocked? {
      JoinRole(s, a);
    } else if p.Waiting? {
      ReceiveRole(s, a);
    } else if p.GiveLocked? {
      if s.queue != [] { PopRole(s, a); } else { FreeRole(s, a); }
    } else if p.Closing? {
      CloseRole(s, a);
    } else {
      KeepsRoles(s, a, c);
      RoleFrame(s, Step(s, a, c));
    }
  }

  lemma KeepsRoles(s: State, a: AgentId, c: Choice)
    requires CanStep(s, a, c)
    requires !(s.pc[a].JoinLocked? || s.pc[a].Waiting? || s.pc[a].GiveLocked? || s.pc[a].Closing?)
    ensures SameRoles(s, Step(s, a, c))
  {
    assert RoleOf(Step(s, a, c).pc[a]) == RoleOf(s.pc[a]);
  }

  lemma JoinLock(s: State, a: AgentId, c: Choice)
    requires LockInv(s) && CanStep(s, a, c)
    requires (s.pc[a].Away? || s.pc[a].JoinLocked? || s.pc[a].GotFree? || Queues(s.pc[a]))
    ensures LockInv(JoinStep(s, a))
  {
  }

  lemma ClaimLock(s: State, a: AgentId, c: Choice)
    requires LockInv(s) && CanStep(s, a, c)
    requires (s.pc[a].Entered? || s.pc[a].Announced? || s.pc[a].SelfAsk?)
    ensures LockInv(ClaimStep(s, a))
  {
  }

  lemma RunLock(s: State, a: AgentId, c: Choice)
    requires LockInv(s) && CanStep(s, a, c)
    requires (s.pc[a].Running? || s.pc[a].ListLocked? || s.pc[a].Yielding? || s.pc[a].YieldTest?)
    ensures s.pc[a].Running? || s.pc[a].ListLocked? ==> LockInv(RunStep(s, a, c))
    ensures s.pc[a].Yielding? || s.pc[a].YieldTest? ==> LockInv(YieldStep(s, a))
  {
  }

  lemma GiveLock(s: State, a: AgentId, c: Choice)
    requires LockInv(s) && CanStep(s, a, c)
    requires (s.pc[a].Giving? || s.pc[a].GiveLocking? || s.pc[a].GiveLocked? || s.pc[a].Freed? || Carries(s.pc[a]))
    ensures LockInv(GiveStep(s, a))
  {
  }

  lemma StepLock(s: State, a: AgentId, c: Choice)
    requires LockInv(s) && CanStep(s, a, c)
    ensures LockInv(Step(s, a, c))
  {
    var p := s.pc[a];
    if p.Away? || p.JoinLocked? || p.GotFree? || Queues(p) { JoinLock(s, a, c); }
    else if p.Entered? || p.Announced? || p.SelfAsk? { ClaimLock(s, a, c); }
    else if p.Running? || p.ListLocked? || p.Yielding? || p.YieldTest? { RunLock(s, a, c); }
    else { GiveLock(s, a, c); }
  }

  lemma HolderEffect(s: State, a: AgentId, c: Choice)
    requires HolderInv(s) && CanStep(s, a, c)
    ensures var s' := Step(s, a, c);
            if s.pc[a].Entered? then s'.holder == Some(a) && Announces(s'.pc[a])
            else if s.pc[a].Giving? then s'.holder == None && !Announces(s'.pc[a])
            else s'.holder == s.holder && Announces(s'.pc[a]) == Announces(s.pc[a])
  {
  }

  lemma StepHolder(s: State, a: AgentId, c: Choice)
    requires HolderInv(s) && RoleInv(s) && CanStep(s, a, c)
    ensures HolderInv(Step(s, a, c))
  {
    HolderEffect(s, a, c);
    if s.pc[a].Entered? {
      assert HasTurn(s, a);
      assert s.holder.Some? ==> HasTurn(s, s.holder.value);
    }
  }

  /** The flag of another agent is raised or kept, and a joiner keeps its intention to raise it until it has. */
  lemma AskedEffect(s: State, a: AgentId, c: Choice, x: AgentId)
    requires LockInv(s) && CanStep(s, a, c)
    requires x < |s.pc| && x != a
    ensures var s' := Step(s, a, c);
            && (s'.flag[x] == Quiet ==> s.flag[x] == Quiet)
            && (WillAsk(s.pc[a], x) && s.holder == Some(x) && s'.flag[x] == Quiet ==> WillAsk(s'.pc[a], x))
            && (s.queue == [] && s'.queue != [] ==> WillAsk(s'.pc[a], x))
  {
  }

  /** Who is going to raise the flag of a running agent that took no part in the step. */
  lemma AskedOther(s: State, a: AgentId, c: Choice, x: AgentId) returns (b: AgentId)
    requires SafeInv(s) && AskInv(s) && CanStep(s, a, c) && x < |s.pc| && x != a
    requires var s' := Step(s, a, c); s'.queue != [] && x < |s'.flag| && s'.flag[x] == Quiet
    requires s.pc[x].Running? || s.pc[x].ListLocked?
    ensures b < |s.pc| && WillAsk(Step(s, a, c).pc[b], x)
  {
    var s' := Step(s, a, c);
    AskedEffect(s, a, c, x);
    assert Announces(s.pc[x]) && s.holder == Some(x) && s'.pc == s.pc[a := s'.pc[a]];
    hide Step, CanStep, RoleInv;
    if s.queue == [] {
      b := a;
    } else {
      b :| 0 <= b < |s.pc| && WillAsk(s.pc[b], x);
    }
  }

  lemma StepAsk(s: State, a: AgentId, c: Choice)
    requires SafeInv(s) && AskInv(s) && CanStep(s, a, c)
    ensures AskInv(Step(s, a, c))
  {
    var s' := Step(s, a, c);
    forall x | s'.queue != [] && 0 <= x < |s'.pc| && (s'.pc[x].Running? || s'.pc[x].ListLocked?) && x < |s'.flag| && s'.flag[x] == Quiet
      ensures exists b | 0 <= b < |s'.pc| :: WillAsk(s'.pc[b], x)
    {
      if x != a {
        var b := AskedOther(s, a, c, x);
        assert WillAsk(s'.pc[b], x);
      } else {
        var b := AskedSelf(s, a, c, s');
        assert WillAsk(s'.pc[b], x);
      }
    }
  }

  lemma RunningEffect(s: State, a: AgentId, c: Choice)
    requires |s.flag| == |s.pc| && CanStep(s, a, c)
    ensures var s' := Step(s, a, c);
            (s'.pc[a].Running? || s'.pc[a].ListLocked?) && s'.flag[a] == Quiet ==>
              && s'.queue == s.queue
              && (((s.pc[a].Announced? || s.pc[a].YieldTest?) && s.queued <= 0)
                  || ((s.pc[a].Running? || s.pc[a].ListLocked?) && s.flag[a] == Quiet))
  {
  }

  /** An agent that goes back to running unasked, past a load of queued that found nobody, leaves behind a
    * joiner that has not stored queued yet.
    */
  lemma AskedSelf(s: State, a: AgentId, c: Choice, s': State) returns (b: AgentId)
    requires SafeInv(s) && AskInv(s) && CanStep(s, a, c) && s' == Step(s, a, c)
    requires s'.queue != [] && (s'.pc[a].Running? || s'.pc[a].ListLocked?) && |s'.flag| == |s'.pc| && s'.flag[a] == Quiet
    ensures b < |s'.pc| && WillAsk(s'.pc[b], a)
  {
    RunningEffect(s, a, c);
    if s.pc[a].Announced? || s.pc[a].YieldTest? {
      b := s.mu.value;
    } else {
      b :| 0 <= b < |s.pc| && WillAsk(s.pc[b], a);
    }
    assert b != a && s'.pc[b] == s.pc[b];
  }

  lemma StepFlag(s: State, a: AgentId, c: Choice)
    requires FlagInv(s) && CanStep(s, a, c)
    ensures FlagInv(Step(s, a, c))
  {
    var s' := Step(s, a, c);
    assert s'.pc[a].Yielding? ==> s.pc[a].Running? && c == Safepoint;
  }

  lemma StepSafe(s: State, a: AgentId, c: Choice)
    requires SafeInv(s) && CanStep(s, a, c)
    ensures SafeInv(Step(s, a, c))
  {
    StepRole(s, a, c);
    StepLock(s, a, c);
    StepHolder(s, a, c);
  }

  lemma StepInv(s: State, a: AgentId, c: Choice)
    requires Inv(s) && CanStep(s, a, c)
    ensures Inv(Step(s, a, c))
  {
    StepSafe(s, a, c);
    StepAsk(s, a, c);
    StepFlag(s, a, c);
  }

  lemma StopInv(s: State, a: AgentId)
    requires Inv(s) && a < |s.flag|
    ensures Inv(HostStop(s, a))
  {
    FlagSafe(s, HostStop(s, a));
  }

  /** The host only ever writes a flag. */
  lemma FlagSafe(s: State, s': State)
    requires SafeInv(s) && |s'.flag| == |s.flag| && s' == s.(flag := s'.flag)
    ensures SafeInv(s')
  {
    RoleFrame(s, s');
  }

  /** Clearing a's flag does no harm: there is nothing to clear, or a is not in the middle of yielding and is not a running
    * owner whom nobody will ask again although somebody is queued.
    */
  ghost predicate ClearIsHarmless(s: State, a: AgentId)
  {
    a < |s.pc| && a < |s.flag| &&
    (|| s.flag[a] == Quiet
     || (&& !s.pc[a].Yielding?
         && (|| s.queue == []
             || !(s.pc[a].Running? || s.pc[a].ListLocked?)
             || exists b | 0 <= b < |s.pc| :: WillAsk(s.pc[b], a))))
  }

  /** ClearInterrupt keeps the invariant exactly when it does no harm. */
  lemma ClearInvIff(s: State, a: AgentId)
    requires Inv(s) && a < |s.flag|
    ensures SafeInv(HostClear(s, a)) && (Inv(HostClear(s, a)) <==> ClearIsHarmless(s, a))
  {
    var s' := HostClear(s, a);
    FlagSafe(s, s');
    if s.flag[a] == Quiet {
      assert s'.flag == s.flag;
    } else {
      assert s'.flag[a] == Quiet && forall b | 0 <= b < |s.flag| && b != a :: s'.flag[b] == s.flag[b];
      hide SafeInv, WillAsk;
    }
  }
}
