/** The Runtime pool (scope.go, Pool) as a transition system: any number of goroutines run Do and Close, and each block
  * under the mutex, each build, each job and each Runtime.Close is one step.
  */
module RuntimePool {

  /** A zero means no limit. */
  datatype Config = Config(maxUses: nat, maxMemory: nat, maxIdle: nat)

  datatype Lease = Lease(rt: nat, uses: nat)

  /** Where a goroutine is. */
  datatype PC =
    | Idle
    | Building                      // live has been raised, New is running
    | Running(lease: Lease)         // the job has the Runtime
    | Releasing(lease: Lease)       // the deferred function is about to call release
    | Discarding(lease: Lease)      // the deferred function is about to call discard
    | Closing(rts: seq<nat>)        // out of the mutex, with Runtimes still to close

  /** What has happened to one Runtime. */
  datatype Record = Record(jobs: nat, clean: bool, bytes: nat, closes: nat)

  /** lost counts what live counts although it is gone: the Runtimes that Close dropped and the builds that panicked. */
  datatype State = State(cfg: Config, free: seq<Lease>, closed: bool, live: int, pc: seq<PC>, record: seq<Record>, lost: nat)

  datatype Event =
    | Acquire
    | Built
    | BuildFails
    | BuildPanics
    | EndJob(clean: bool, bytes: nat)  // clean is the reusable flag: no panic, no pollution, no interrupt, ctx alive
    | Release
    | Discard
    | ClosePool
    | CloseNext

  function ShouldRetire(cfg: Config, uses: nat, bytes: nat): bool {
    (cfg.maxUses > 0 && uses >= cfg.maxUses) || (cfg.maxMemory > 0 && bytes > cfg.maxMemory)
  }

  predicate CanStep(s: State, g: nat, e: Event) {
    g < |s.pc| &&
    match e
    case Acquire => s.pc[g].Idle?
    case Built => s.pc[g].Building?
    case BuildFails => s.pc[g].Building?
    case BuildPanics => s.pc[g].Building?
    case EndJob(_, _) => s.pc[g].Running? && s.pc[g].lease.rt < |s.record|
    case Release => s.pc[g].Releasing?
    case Discard => s.pc[g].Discarding?
    case ClosePool => s.pc[g].Idle?
    case CloseNext => s.pc[g].Closing? && s.pc[g].rts != [] && s.pc[g].rts[0] < |s.record|
  }

  function Goto(s: State, g: nat, p: PC): State
    requires g < |s.pc|
  {
    s.(pc := s.pc[g := p])
  }

  function AcquireStep(s: State, g: nat): State
    requires CanStep(s, g, Acquire)
  {
    if s.closed then s
    else if s.free != [] then Goto(s, g, Running(s.free[|s.free| - 1])).(free := s.free[..|s.free| - 1])
    else Goto(s, g, Building).(live := s.live + 1)
  }

  function BuiltStep(s: State, g: nat): State
    requires CanStep(s, g, Built)
  {
    Goto(s, g, Running(Lease(|s.record|, 0))).(record := s.record + [Record(0, true, 0, 0)])
  }

  /** The deferred function of Do, up to the choice between release and discard. */
  function EndJobStep(s: State, g: nat, clean: bool, bytes: nat): State
    requires CanStep(s, g, EndJob(clean, bytes))
  {
    var l := s.pc[g].lease;
    var l' := Lease(l.rt, l.uses + 1);
    var r := s.record[l.rt];
    Goto(s, g, if !clean || ShouldRetire(s.cfg, l'.uses, bytes) then Discarding(l') else Releasing(l'))
    .(record := s.record[l.rt := Record(r.jobs + 1, clean, bytes, r.closes)])
  }

  function ReleaseStep(s: State, g: nat): State
    requires CanStep(s, g, Release)
  {
    var l := s.pc[g].lease;
    if s.closed || (s.cfg.maxIdle > 0 && |s.free| >= s.cfg.maxIdle) then Goto(s, g, Closing([l.rt])).(live := s.live - 1)
    else Goto(s, g, Idle).(free := s.free + [l])
  }

  function DiscardStep(s: State, g: nat): State
    requires CanStep(s, g, Discard)
  {
    Goto(s, g, Closing([s.pc[g].lease.rt])).(live := s.live - 1)
  }

  function Rts(ls: seq<Lease>): (r: seq<nat>)
    ensures |r| == |ls| && forall i :: 0 <= i < |ls| ==> r[i] == ls[i].rt
  {
    seq(|ls|, i requires 0 <= i < |ls| => ls[i].rt)
  }

  function ClosingOf(rts: seq<nat>): PC {
    if rts == [] then Idle else Closing(rts)
  }

  function ClosePoolStep(s: State, g: nat): State
    requires CanStep(s, g, ClosePool)
  {
    Goto(s, g, ClosingOf(Rts(s.free))).(free := [], closed := true, lost := s.lost + |s.free|)
  }

  function CloseNextStep(s: State, g: nat): State
    requires CanStep(s, g, CloseNext)
  {
    var rts := s.pc[g].rts;
    var r := s.record[rts[0]];
    Goto(s, g, ClosingOf(rts[1..])).(record := s.record[rts[0] := r.(closes := r.closes + 1)])
  }

  function Step(s: State, g: nat, e: Event): State
    requires CanStep(s, g, e)
  {
    match e
    case Acquire => AcquireStep(s, g)
    case Built => BuiltStep(s, g)
    case BuildFails => Goto(s, g, Idle).(live := s.live - 1)
    case BuildPanics => Goto(s, g, Idle).(lost := s.lost + 1)
    case EndJob(clean, bytes) => EndJobStep(s, g, clean, bytes)
    case Release => ReleaseStep(s, g)
    case Discard => DiscardStep(s, g)
    case ClosePool => ClosePoolStep(s, g)
    case CloseNext => CloseNextStep(s, g)
  }

  predicate Init(s: State) {
    && s.free == [] && !s.closed && s.live == 0 && s.record == [] && s.lost == 0
    && forall g :: 0 <= g < |s.pc| ==> s.pc[g].Idle?
  }

  // ----- where a Runtime is -----

  predicate HasLease(p: PC) {
    p.Running? || p.Releasing? || p.Discarding?
  }

  function CountIn(rts: seq<nat>, r: nat): nat {
    if rts == [] then 0 else CountIn(rts[1..], r) + if rts[0] == r then 1 else 0
  }

  /** How often a goroutine holds the Runtime. */
  function Holds(p: PC, r: nat): nat {
    if HasLease(p) then (if p.lease.rt == r then 1 else 0)
    else if p.Closing? then CountIn(p.rts, r)
    else 0
  }

  function HeldBy(pc: seq<PC>, r: nat): nat {
    if pc == [] then 0 else HeldBy(pc[..|pc| - 1], r) + Holds(pc[|pc| - 1], r)
  }

  function Parked(free: seq<Lease>, r: nat): nat {
    CountIn(Rts(free), r)
  }

  /** Parked, leased, waiting to be closed, or closed: how many of these a Runtime is, with repetitions. */
  function Places(s: State, r: nat): nat
    requires r < |s.record|
  {
    Parked(s.free, r) + HeldBy(s.pc, r) + s.record[r].closes
  }

  // ----- the invariant -----

  /** Every Runtime is in exactly one place. */
  predicate OnceInv(s: State) {
    forall r {:trigger s.record[r]} :: 0 <= r < |s.record| ==> Places(s, r) == 1
  }

  predicate KnownLease(s: State, l: Lease) {
    l.rt < |s.record| && s.record[l.rt].jobs == l.uses
  }

  predicate PcKnown(s: State, p: PC) {
    && (HasLease(p) ==> KnownLease(s, p.lease))
    && (p.Closing? ==> p.rts != [] && forall i :: 0 <= i < |p.rts| ==> p.rts[i] < |s.record|)
  }

  /** The counts of uses are right, and only Runtimes that exist are mentioned. */
  predicate KnownInv(s: State) {
    && (forall i :: 0 <= i < |s.free| ==> KnownLease(s, s.free[i]))
    && (forall g :: 0 <= g < |s.pc| ==> PcKnown(s, s.pc[g]))
  }

  predicate Fresh(cfg: Config, uses: nat) {
    cfg.maxUses > 0 ==> uses < cfg.maxUses
  }

  /** What a lease may be parked with. */
  predicate Reusable(s: State, l: Lease)
    requires l.rt < |s.record|
  {
    s.record[l.rt].clean && !ShouldRetire(s.cfg, l.uses, s.record[l.rt].bytes)
  }

  predicate UseInv(s: State) {
    && (forall i :: 0 <= i < |s.free| ==> s.free[i].rt < |s.record| && Reusable(s, s.free[i]))
    && (forall g :: 0 <= g < |s.pc| && s.pc[g].Releasing? ==> s.pc[g].lease.rt < |s.record| && Reusable(s, s.pc[g].lease))
    && (forall g :: 0 <= g < |s.pc| && s.pc[g].Running? ==> Fresh(s.cfg, s.pc[g].lease.uses))
    && (forall r :: 0 <= r < |s.record| && s.cfg.maxUses > 0 ==> s.record[r].jobs <= s.cfg.maxUses)
  }

  predicate IdleInv(s: State) {
    && (s.cfg.maxIdle > 0 ==> |s.free| <= s.cfg.maxIdle)
    && (s.closed ==> s.free == [])
  }

  function Counted(p: PC): nat {
    if p.Building? || HasLease(p) then 1 else 0
  }

  /** Leased Runtimes and those being built. */
  function Active(pc: seq<PC>): nat {
    if pc == [] then 0 else Active(pc[..|pc| - 1]) + Counted(pc[|pc| - 1])
  }

  predicate LiveInv(s: State) {
    s.live == |s.free| + Active(s.pc) + s.lost
  }

  predicate Inv(s: State) {
    OnceInv(s) && KnownInv(s) && UseInv(s) && IdleInv(s) && LiveInv(s)
  }

  // ----- counting -----

  lemma {:induction false} HeldByUpdate(pc: seq<PC>, g: nat, p: PC, r: nat)
    requires g < |pc|
    ensures HeldBy(pc[g := p], r) == HeldBy(pc, r) - Holds(pc[g], r) + Holds(p, r)
    ensures HeldBy(pc, r) >= Holds(pc[g], r)
    decreases |pc|
  {
    var n := |pc| - 1;
    if g < n {
      HeldByUpdate(pc[..n], g, p, r);
      assert pc[g := p][..n] == pc[..n][g := p];
    } else {
      assert pc[g := p][..n] == pc[..n];
    }
  }

  lemma {:induction false} HeldByTwo(pc: seq<PC>, g: nat, k: nat, r: nat)
    requires g < |pc| && k < |pc| && g != k
    ensures HeldBy(pc, r) >= Holds(pc[g], r) + Holds(pc[k], r)
  {
    HeldByUpdate(pc, g, Idle, r);
    HeldByUpdate(pc[g := Idle], k, Idle, r);
  }

  lemma {:induction false} ActiveUpdate(pc: seq<PC>, g: nat, p: PC)
    requires g < |pc|
    ensures Active(pc[g := p]) == Active(pc) - Counted(pc[g]) + Counted(p)
    decreases |pc|
  {
    var n := |pc| - 1;
    if g < n {
      ActiveUpdate(pc[..n], g, p);
      assert pc[g := p][..n] == pc[..n][g := p];
    } else {
      assert pc[g := p][..n] == pc[..n];
    }
  }

  lemma {:induction false} CountInConcat(a: seq<nat>, b: seq<nat>, r: nat)
    ensures CountIn(a + b, r) == CountIn(a, r) + CountIn(b, r)
    decreases |a|
  {
    if a == [] {
      assert a + b == b;
    } else {
      assert (a + b)[1..] == a[1..] + b;
      CountInConcat(a[1..], b, r);
    }
  }

  lemma ParkedSnoc(free: seq<Lease>, l: Lease, r: nat)
    ensures Parked(free + [l], r) == Parked(free, r) + if l.rt == r then 1 else 0
  {
    assert Rts(free + [l]) == Rts(free) + [l.rt];
    CountInConcat(Rts(free), [l.rt], r);
    assert [l.rt][1..] == [];
  }

  lemma CountInOne(rt: nat, r: nat)
    ensures CountIn([rt], r) == if rt == r then 1 else 0
  {
    assert [rt][1..] == [];
  }

  lemma {:induction false} CountInMember(rts: seq<nat>, i: nat)
    requires i < |rts|
    ensures CountIn(rts, rts[i]) >= 1
  {
    if i > 0 {
      CountInMember(rts[1..], i - 1);
    }
  }

  lemma {:induction false} CountInTwo(rts: seq<nat>, i: nat, j: nat)
    requires i < j < |rts| && rts[i] == rts[j]
    ensures CountIn(rts, rts[i]) >= 2
  {
    if i > 0 {
      CountInTwo(rts[1..], i - 1, j - 1);
    } else {
      CountInMember(rts[1..], j - 1);
    }
  }

  lemma {:induction false} CountInBound(rts: seq<nat>, r: nat)
    requires forall i :: 0 <= i < |rts| ==> rts[i] < r
    ensures CountIn(rts, r) == 0
  {
    if rts != [] {
      CountInBound(rts[1..], r);
    }
  }

  lemma {:induction false} HeldByBound(s: State, pc: seq<PC>, r: nat)
    requires (forall g :: 0 <= g < |pc| ==> PcKnown(s, pc[g])) && r >= |s.record|
    ensures HeldBy(pc, r) == 0
    decreases |pc|
  {
    if pc != [] {
      HeldByBound(s, pc[..|pc| - 1], r);
      var p := pc[|pc| - 1];
      if p.Closing? {
        CountInBound(p.rts, r);
      }
    }
  }

  // ----- one lemma for each part of the invariant -----

  /** A step moves at most one goroutine; the pool of parked Runtimes, the records and live change as stated. */
  lemma LiveStep(s: State, g: nat, e: Event)
    requires LiveInv(s) && KnownInv(s) && CanStep(s, g, e)
    ensures LiveInv(Step(s, g, e))
  {
    var t := Step(s, g, e);
    ActiveUpdate(s.pc, g, t.pc[g]);
    assert t.pc == s.pc[g := t.pc[g]];
  }

  lemma IdleStep(s: State, g: nat, e: Event)
    requires IdleInv(s) && CanStep(s, g, e)
    ensures IdleInv(Step(s, g, e))
    ensures s.closed ==> Step(s, g, e).closed && Step(s, g, e).free == []
  {
  }

  /** What leaves the pool, a goroutine or the records of one Runtime by a step enters another of them. */
  lemma OwnPlaces(s: State, g: nat, e: Event, r: nat)
    requires CanStep(s, g, e) && r < |s.record|
    ensures var t := Step(s, g, e);
            && |t.record| >= |s.record| && t.pc == s.pc[g := t.pc[g]]
            && Parked(t.free, r) + Holds(t.pc[g], r) + t.record[r].closes
               == Parked(s.free, r) + Holds(s.pc[g], r) + s.record[r].closes
  {
    var t := Step(s, g, e);
    match e {
      case Acquire =>
        if !s.closed && s.free != [] {
          var n := |s.free| - 1;
          ParkedSnoc(s.free[..n], s.free[n], r);
          assert s.free[..n] + [s.free[n]] == s.free;
        }
      case Release =>
        ParkedSnoc(s.free, s.pc[g].lease, r);
        CountInOne(s.pc[g].lease.rt, r);
      case Discard => CountInOne(s.pc[g].lease.rt, r);
      case Built => assert t.record[r] == s.record[r];
      case EndJob(_, _) => assert t.record[r].closes == s.record[r].closes;
      case ClosePool => assert Holds(t.pc[g], r) == Parked(s.free, r) && Parked(t.free, r) == 0;
      case CloseNext => assert Holds(t.pc[g], r) == CountIn(s.pc[g].rts[1..], r);
      case _ =>
    }
  }

  /** So a Runtime that was there before is in as many places as it was. */
  lemma PlacesKept(s: State, g: nat, e: Event, r: nat)
    requires CanStep(s, g, e) && r < |s.record|
    ensures |Step(s, g, e).record| >= |s.record| && Places(Step(s, g, e), r) == Places(s, r)
  {
    var t := Step(s, g, e);
    assert g < |s.pc|;
    hide Step, CanStep, Holds, HeldBy, Parked;
    OwnPlaces(s, g, e, r);
    HeldByUpdate(s.pc, g, t.pc[g], r);
  }

  lemma OnceStep(s: State, g: nat, e: Event)
    requires OnceInv(s) && KnownInv(s) && CanStep(s, g, e)
    ensures OnceInv(Step(s, g, e))
  {
    var t := Step(s, g, e);
    forall r | 0 <= r < |t.record|
      ensures Places(t, r) == 1
    {
      if r < |s.record| {
        PlacesKept(s, g, e, r);
        assert Places(s, r) == 1 by {
          assert s.record[r] == s.record[r];
        }
      } else {
        BuiltOnce(s, g);
      }
    }
  }

  lemma BuiltOnce(s: State, g: nat)
    requires KnownInv(s) && CanStep(s, g, Built)
    ensures Places(BuiltStep(s, g), |s.record|) == 1
  {
    var t := BuiltStep(s, g);
    HeldByBound(s, s.pc, |s.record|);
    HeldByUpdate(s.pc, g, t.pc[g], |s.record|);
    CountInBound(Rts(s.free), |s.record|);
  }

  // ----- exclusion -----

  /** Two places for one Runtime cannot be. */
  lemma ParkedIsFree(s: State, i: nat, g: nat)
    requires OnceInv(s) && KnownInv(s) && i < |s.free| && g < |s.pc|
    ensures Holds(s.pc[g], s.free[i].rt) == 0 && s.record[s.free[i].rt].closes == 0
  {
    var r := s.free[i].rt;
    assert KnownLease(s, s.free[i]);
    assert s.record[r] == s.record[r];
    assert Places(s, r) == 1;
    CountInMember(Rts(s.free), i);
    HeldByUpdate(s.pc, g, Idle, r);
  }

  lemma ParkedOnce(s: State, i: nat, j: nat)
    requires OnceInv(s) && KnownInv(s) && i < j < |s.free|
    ensures s.free[i].rt != s.free[j].rt
  {
    if s.free[i].rt == s.free[j].rt {
      var r := s.free[i].rt;
      assert KnownLease(s, s.free[i]);
      assert s.record[r] == s.record[r];
      CountInTwo(Rts(s.free), i, j);
    }
  }

  lemma HeldOnce(s: State, g: nat, k: nat, r: nat)
    requires OnceInv(s) && r < |s.record| && g < |s.pc| && k < |s.pc| && g != k
    ensures Holds(s.pc[g], r) + Holds(s.pc[k], r) + s.record[r].closes <= 1
  {
    assert s.record[r] == s.record[r];
    HeldByTwo(s.pc, g, k, r);
  }

  lemma KnownStepEndJob(s: State, g: nat, clean: bool, bytes: nat)
    requires OnceInv(s) && KnownInv(s) && CanStep(s, g, EndJob(clean, bytes))
    ensures KnownInv(EndJobStep(s, g, clean, bytes))
  {
    var t := EndJobStep(s, g, clean, bytes);
    var r := s.pc[g].lease.rt;
    assert PcKnown(s, s.pc[g]);
    forall i | 0 <= i < |t.free|
      ensures KnownLease(t, t.free[i])
    {
      ParkedIsFree(s, i, g);
      assert KnownLease(s, s.free[i]);
    }
    forall k | 0 <= k < |t.pc|
      ensures PcKnown(t, t.pc[k])
    {
      assert PcKnown(s, s.pc[k]);
      if k != g {
        HeldOnce(s, g, k, r);
      }
    }
  }

  lemma RecordsKept(s: State, g: nat, e: Event)
    requires CanStep(s, g, e) && !e.EndJob?
    ensures var t := Step(s, g, e);
            && t.cfg == s.cfg && |s.record| <= |t.record| <= |s.record| + 1
            && (forall r :: 0 <= r < |s.record| ==> t.record[r].(closes := 0) == s.record[r].(closes := 0))
            && (|t.record| == |s.record| + 1 ==> t.record[|s.record|] == Record(0, true, 0, 0))
  {
  }

  lemma FreeKept(s: State, g: nat, e: Event)
    requires CanStep(s, g, e)
    ensures var t := Step(s, g, e);
            forall i :: 0 <= i < |t.free| ==>
              (i < |s.free| && t.free[i] == s.free[i]) || (e.Release? && t.free[i] == s.pc[g].lease)
  {
  }

  lemma OwnKnown(s: State, g: nat, e: Event)
    requires KnownInv(s) && CanStep(s, g, e) && !e.EndJob?
    ensures var t := Step(s, g, e); t.pc == s.pc[g := t.pc[g]] && PcKnown(t, t.pc[g])
  {
    assert PcKnown(s, s.pc[g]);
  }

  lemma KnownStep(s: State, g: nat, e: Event)
    requires OnceInv(s) && KnownInv(s) && CanStep(s, g, e)
    ensures KnownInv(Step(s, g, e))
  {
    if e.EndJob? {
      KnownStepEndJob(s, g, e.clean, e.bytes);
    } else {
      var t := Step(s, g, e);
      RecordsKept(s, g, e);
      FreeKept(s, g, e);
      OwnKnown(s, g, e);
      assert e.Release? ==> PcKnown(s, s.pc[g]) && HasLease(s.pc[g]);
      hide Step, CanStep;
      assert forall l :: KnownLease(s, l) ==> KnownLease(t, l);
      forall k | 0 <= k < |t.pc|
        ensures PcKnown(t, t.pc[k])
      {
        assert PcKnown(s, s.pc[k]);
      }
    }
  }

  lemma UseStepEndJob(s: State, g: nat, clean: bool, bytes: nat)
    requires OnceInv(s) && KnownInv(s) && UseInv(s) && CanStep(s, g, EndJob(clean, bytes))
    ensures UseInv(EndJobStep(s, g, clean, bytes))
  {
    var t := EndJobStep(s, g, clean, bytes);
    var r := s.pc[g].lease.rt;
    assert PcKnown(s, s.pc[g]);
    forall i | 0 <= i < |t.free|
      ensures t.free[i].rt < |t.record| && Reusable(t, t.free[i])
    {
      ParkedIsFree(s, i, g);
    }
    forall k | 0 <= k < |t.pc| && t.pc[k].Releasing?
      ensures t.pc[k].lease.rt < |t.record| && Reusable(t, t.pc[k].lease)
    {
      if k != g {
        HeldOnce(s, g, k, r);
      }
    }
  }

  /** What the goroutine that moves may hold afterwards. */
  lemma OwnUse(s: State, g: nat, e: Event)
    requires KnownInv(s) && UseInv(s) && CanStep(s, g, e) && !e.EndJob?
    ensures var t := Step(s, g, e);
            && t.pc == s.pc[g := t.pc[g]] && !t.pc[g].Releasing?
            && (t.pc[g].Running? ==> Fresh(s.cfg, t.pc[g].lease.uses))
  {
    assert e.Acquire? && s.free != [] ==> Reusable(s, s.free[|s.free| - 1]);
  }

  lemma UseStep(s: State, g: nat, e: Event)
    requires OnceInv(s) && KnownInv(s) && UseInv(s) && CanStep(s, g, e)
    ensures UseInv(Step(s, g, e))
  {
    if e.EndJob? {
      UseStepEndJob(s, g, e.clean, e.bytes);
    } else {
      var t := Step(s, g, e);
      RecordsKept(s, g, e);
      FreeKept(s, g, e);
      OwnUse(s, g, e);
      assert e.Release? ==> s.pc[g].Releasing?;
      hide Step, CanStep, KnownInv, OnceInv;
      assert forall l: Lease :: l.rt < |s.record| && Reusable(s, l) ==> Reusable(t, l);
    }
  }

  // ----- no goroutine is ever stuck -----

  /** Whatever the others do, a goroutine can always take its next step, and where the outcome is not the pool's it can be any. */
  lemma NeverStuck(s: State, g: nat)
    requires KnownInv(s) && g < |s.pc|
    ensures s.pc[g].Idle? ==> CanStep(s, g, Acquire) && CanStep(s, g, ClosePool)
    ensures s.pc[g].Building? ==> CanStep(s, g, Built) && CanStep(s, g, BuildFails) && CanStep(s, g, BuildPanics)
    ensures s.pc[g].Running? ==> forall clean, bytes: nat :: CanStep(s, g, EndJob(clean, bytes))
    ensures s.pc[g].Releasing? ==> CanStep(s, g, Release)
    ensures s.pc[g].Discarding? ==> CanStep(s, g, Discard)
    ensures s.pc[g].Closing? ==> CanStep(s, g, CloseNext)
  {
    assert PcKnown(s, s.pc[g]);
  }

  // ----- who gets a Runtime, and which are kept -----

  /** A closed pool hands nothing out; an open one hands out the Runtime parked last and builds only when none is parked. */
  lemma AcquireHandsOut(s: State, g: nat)
    requires CanStep(s, g, Acquire)
    ensures var t := Step(s, g, Acquire);
            && t.record == s.record && t.closed == s.closed
            && (s.closed ==> t == s && t.pc[g].Idle?)
            && (!s.closed && s.free != [] ==>
                  t.pc[g] == Running(s.free[|s.free| - 1]) && t.free == s.free[..|s.free| - 1] && t.live == s.live)
            && (!s.closed && s.free == [] ==> t.pc[g].Building? && t.free == [] && t.live == s.live + 1)
  {
  }

  /** A build that succeeds gives a new Runtime that has run nothing; one that fails takes back what acquire counted, and one
    * that panics does not.
    */
  lemma BuildEnds(s: State, g: nat)
    requires g < |s.pc| && s.pc[g].Building?
    ensures var t := Step(s, g, Built);
            t.pc[g] == Running(Lease(|s.record|, 0)) && |t.record| == |s.record| + 1 && t.live == s.live && t.free == s.free
    ensures var t := Step(s, g, BuildFails); t.pc[g].Idle? && t.live == s.live - 1 && t.record == s.record && t.free == s.free
    ensures var t := Step(s, g, BuildPanics); t.pc[g].Idle? && t.live == s.live && t.record == s.record && t.free == s.free
  {
  }

  /** A job's Runtime is kept exactly when the job was clean, it may run another, and it is within the memory limit. */
  lemma KeptWhen(s: State, g: nat, clean: bool, bytes: nat)
    requires CanStep(s, g, EndJob(clean, bytes))
    ensures var t := Step(s, g, EndJob(clean, bytes)); var l := s.pc[g].lease;
            && (t.pc[g].Releasing? <==>
                  && clean && (s.cfg.maxUses == 0 || l.uses + 1 < s.cfg.maxUses)
                  && (s.cfg.maxMemory == 0 || bytes <= s.cfg.maxMemory))
            && (!t.pc[g].Releasing? ==> t.pc[g].Discarding?)
            && HasLease(t.pc[g]) && t.pc[g].lease == Lease(l.rt, l.uses + 1) && t.record[l.rt].jobs == s.record[l.rt].jobs + 1
  {
  }

  /** A kept Runtime is parked exactly when the pool is open and has room; otherwise it is closed, as a discarded one is. */
  lemma ParkedWhen(s: State, g: nat)
    requires CanStep(s, g, Release)
    ensures var t := Step(s, g, Release); var l := s.pc[g].lease;
            if !s.closed && (s.cfg.maxIdle == 0 || |s.free| < s.cfg.maxIdle)
            then t.free == s.free + [l] && t.pc[g].Idle? && t.live == s.live
            else t.free == s.free && t.pc[g] == Closing([l.rt]) && t.live == s.live - 1
  {
  }

  /** Every step of every goroutine keeps the invariant. */
  lemma StepInv(s: State, g: nat, e: Event)
    requires Inv(s) && CanStep(s, g, e)
    ensures Inv(Step(s, g, e))
  {
    OnceStep(s, g, e);
    KnownStep(s, g, e);
    UseStep(s, g, e);
    IdleStep(s, g, e);
    LiveStep(s, g, e);
  }

  lemma {:induction false} AllIdle(pc: seq<PC>, r: nat)
    requires forall g :: 0 <= g < |pc| ==> pc[g].Idle?
    ensures HeldBy(pc, r) == 0 && Active(pc) == 0
    decreases |pc|
  {
    if pc != [] {
      AllIdle(pc[..|pc| - 1], r);
    }
  }

  lemma InitInv(s: State)
    requires Init(s)
    ensures Inv(s)
  {
    AllIdle(s.pc, 0);
  }

  // ----- runs -----

  datatype Act = Act(g: nat, e: Event)

  predicate CanRun(s: State, run: seq<Act>)
    decreases |run|
  {
    run == [] || (CanStep(s, run[0].g, run[0].e) && CanRun(Step(s, run[0].g, run[0].e), run[1..]))
  }

  function Exec(s: State, run: seq<Act>): State
    requires CanRun(s, run)
    decreases |run|
  {
    if run == [] then s else Exec(Step(s, run[0].g, run[0].e), run[1..])
  }

  lemma {:induction false} RunInv(s: State, run: seq<Act>)
    requires Inv(s) && CanRun(s, run)
    ensures Inv(Exec(s, run))
    decreases |run|
  {
    if run != [] {
      StepInv(s, run[0].g, run[0].e);
      RunInv(Step(s, run[0].g, run[0].e), run[1..]);
    }
  }

  lemma ParkedWithinLimits(s: State)
    requires KnownInv(s) && UseInv(s)
    ensures forall i :: 0 <= i < |s.free| ==>
              && s.free[i].rt < |s.record| && s.record[s.free[i].rt].clean && s.record[s.free[i].rt].jobs == s.free[i].uses
              && (s.cfg.maxUses > 0 ==> s.free[i].uses < s.cfg.maxUses)
              && (s.cfg.maxMemory > 0 ==> s.record[s.free[i].rt].bytes <= s.cfg.maxMemory)
  {
    assert forall i :: 0 <= i < |s.free| ==> KnownLease(s, s.free[i]) && Reusable(s, s.free[i]);
    hide KnownInv, UseInv;
  }

  lemma OnePlace(s: State)
    requires OnceInv(s) && KnownInv(s)
    ensures forall g, k :: 0 <= g < |s.pc| && 0 <= k < |s.pc| && g != k && HasLease(s.pc[g]) && HasLease(s.pc[k]) ==>
              s.pc[g].lease.rt != s.pc[k].lease.rt
    ensures forall g, i :: 0 <= g < |s.pc| && 0 <= i < |s.free| && HasLease(s.pc[g]) ==> s.pc[g].lease.rt != s.free[i].rt
    ensures forall i, j :: 0 <= i < j < |s.free| ==> s.free[i].rt != s.free[j].rt
  {
    forall g, k | 0 <= g < |s.pc| && 0 <= k < |s.pc| && g != k && HasLease(s.pc[g]) && HasLease(s.pc[k])
      ensures s.pc[g].lease.rt != s.pc[k].lease.rt
    {
      assert PcKnown(s, s.pc[g]);
      HeldOnce(s, g, k, s.pc[g].lease.rt);
    }
    forall g, i | 0 <= g < |s.pc| && 0 <= i < |s.free| && HasLease(s.pc[g])
      ensures s.pc[g].lease.rt != s.free[i].rt
    {
      ParkedIsFree(s, i, g);
    }
    forall i, j | 0 <= i < j < |s.free|
      ensures s.free[i].rt != s.free[j].rt
    {
      ParkedOnce(s, i, j);
    }
  }

  lemma LeasedIsOpen(s: State)
    requires OnceInv(s) && KnownInv(s)
    ensures forall g :: 0 <= g < |s.pc| && HasLease(s.pc[g]) ==>
              s.pc[g].lease.rt < |s.record| && s.record[s.pc[g].lease.rt].closes == 0
    ensures forall r :: 0 <= r < |s.record| ==> s.record[r].closes <= 1
  {
    forall g | 0 <= g < |s.pc| && HasLease(s.pc[g])
      ensures s.pc[g].lease.rt < |s.record| && s.record[s.pc[g].lease.rt].closes == 0
    {
      assert PcKnown(s, s.pc[g]);
      var r := s.pc[g].lease.rt;
      assert s.record[r] == s.record[r];
      HeldByUpdate(s.pc, g, Idle, r);
    }
    forall r | 0 <= r < |s.record|
      ensures s.record[r].closes <= 1
    {
      assert Places(s, r) == 1;
    }
  }

  predicate Safe(s: State) {
    // a Runtime that is running a job is in no other place, and has not been closed
    && (forall g, k :: 0 <= g < |s.pc| && 0 <= k < |s.pc| && g != k && HasLease(s.pc[g]) && HasLease(s.pc[k]) ==>
          s.pc[g].lease.rt != s.pc[k].lease.rt)
    && (forall g, i :: 0 <= g < |s.pc| && 0 <= i < |s.free| && HasLease(s.pc[g]) ==> s.pc[g].lease.rt != s.free[i].rt)
    && (forall i, j :: 0 <= i < j < |s.free| ==> s.free[i].rt != s.free[j].rt)
    && (forall g :: 0 <= g < |s.pc| && HasLease(s.pc[g]) ==>
          s.pc[g].lease.rt < |s.record| && s.record[s.pc[g].lease.rt].closes == 0)
    // every Runtime is closed at most once and runs at most MaxUses jobs
    && (forall r :: 0 <= r < |s.record| ==> s.record[r].closes <= 1)
    && (forall r :: 0 <= r < |s.record| && s.cfg.maxUses > 0 ==> s.record[r].jobs <= s.cfg.maxUses)
    // a parked Runtime's last job was clean, it may run another, and it is within the memory limit
    && (forall i :: 0 <= i < |s.free| ==>
          && s.free[i].rt < |s.record| && s.record[s.free[i].rt].clean && s.record[s.free[i].rt].jobs == s.free[i].uses
          && (s.cfg.maxUses > 0 ==> s.free[i].uses < s.cfg.maxUses)
          && (s.cfg.maxMemory > 0 ==> s.record[s.free[i].rt].bytes <= s.cfg.maxMemory))
    // no more are parked than may be, none in a closed pool, and live counts what it should
    && (s.cfg.maxIdle > 0 ==> |s.free| <= s.cfg.maxIdle)
    && (s.closed ==> s.free == [])
    && s.live == |s.free| + Active(s.pc) + s.lost
  }

  /** Pool safety in every state that any interleaving of Do and Close reaches. */
  lemma PoolSafety(s0: State, run: seq<Act>)
    requires Init(s0) && CanRun(s0, run)
    ensures Safe(Exec(s0, run))
  {
    InitInv(s0);
    RunInv(s0, run);
    var s := Exec(s0, run);
    OnePlace(s);
    ParkedWithinLimits(s);
    LeasedIsOpen(s);
    hide CanRun, Exec, OnceInv, KnownInv, HasLease, Active;
  }

  /** Once the pool is closed and every goroutine is done, every Runtime ever built has been closed exactly once. */
  lemma NothingLeaks(s0: State, run: seq<Act>)
    requires Init(s0) && CanRun(s0, run)
    requires Exec(s0, run).closed && forall g :: 0 <= g < |Exec(s0, run).pc| ==> Exec(s0, run).pc[g].Idle?
    ensures forall r :: 0 <= r < |Exec(s0, run).record| ==> Exec(s0, run).record[r].closes == 1
    ensures Exec(s0, run).live == Exec(s0, run).lost
  {
    InitInv(s0);
    RunInv(s0, run);
    var s := Exec(s0, run);
    forall r | 0 <= r < |s.record|
      ensures s.record[r].closes == 1
    {
      AllIdle(s.pc, r);
      assert Places(s, r) == 1;
      assert Rts(s.free) == [];
    }
    AllIdle(s.pc, 0);
  }

  /** But live does not come back to zero: after one job and a Close, it still counts the Runtime that was closed. */
  lemma LiveOutlivesClose(cfg: Config)
    requires cfg.maxUses != 1
    ensures exists s0: State, run ::
              && s0.cfg == cfg && Init(s0) && CanRun(s0, run)
              && var s := Exec(s0, run);
                 s.closed && s.pc == [Idle] && s.live == 1 && |s.record| == 1 && s.record[0].closes == 1
  {
    var l := Lease(0, 1);
    var s0 := State(cfg, [], false, 0, [Idle], [], 0);
    var s1 := State(cfg, [], false, 1, [Building], [], 0);
    var s2 := State(cfg, [], false, 1, [Running(Lease(0, 0))], [Record(0, true, 0, 0)], 0);
    var s3 := State(cfg, [], false, 1, [Releasing(l)], [Record(1, true, 0, 0)], 0);
    var s4 := State(cfg, [l], false, 1, [Idle], [Record(1, true, 0, 0)], 0);
    var s5 := State(cfg, [], true, 1, [Closing([0])], [Record(1, true, 0, 0)], 1);
    var s6 := State(cfg, [], true, 1, [Idle], [Record(1, true, 0, 1)], 1);
    assert Rts([l]) == [0] && [0][1..] == [];
    var run: seq<Act> := [];
    assert CanRun(s6, run) && Exec(s6, run) == s6;
    hide Exec, CanRun;
    RunCons(s5, Act(0, CloseNext), s6, run);
    run := [Act(0, CloseNext)] + run;
    RunCons(s4, Act(0, ClosePool), s5, run);
    run := [Act(0, ClosePool)] + run;
    RunCons(s3, Act(0, Release), s4, run);
    run := [Act(0, Release)] + run;
    RunCons(s2, Act(0, EndJob(true, 0)), s3, run);
    run := [Act(0, EndJob(true, 0))] + run;
    RunCons(s1, Act(0, Built), s2, run);
    run := [Act(0, Built)] + run;
    RunCons(s0, Act(0, Acquire), s1, run);
    run := [Act(0, Acquire)] + run;
    assert Exec(s0, run) == s6;
  }

  lemma RunCons(s: State, a: Act, t: State, rest: seq<Act>)
    requires CanStep(s, a.g, a.e) && Step(s, a.g, a.e) == t && CanRun(t, rest)
    ensures CanRun(s, [a] + rest) && Exec(s, [a] + rest) == Exec(t, rest)
  {
    assert ([a] + rest)[1..] == rest;
  }

  // ----- the pool as a mutable object -----

  /** The fields of Pool, with the goroutines that use it and what has happened to its Runtimes. */
  class Pool {
    const cfg: Config
    var free: seq<Lease>
    var closed: bool
    var live: int
    var pc: seq<PC>
    var record: seq<Record>
    var lost: nat

    constructor (cfg: Config, goroutines: nat)
      ensures Init(View()) && this.cfg == cfg && |pc| == goroutines
    {
      this.cfg := cfg;
      free, closed, live := [], false, 0;
      pc, record, lost := seq(goroutines, _ => Idle), [], 0;
    }

    function View(): State
      reads this
    {
      State(cfg, free, closed, live, pc, record, lost)
    }

    /** acquire, up to leaving the mutex. */
    method Acquire(g: nat)
      requires CanStep(View(), g, Event.Acquire)
      modifies this
      ensures View() == AcquireStep(old(View()), g)
    {
      if closed {
        return;
      }
      var n := |free|;
      if n > 0 {
        pc := pc[g := Running(free[n - 1])];
        free := free[..n - 1];
        return;
      }
      live := live + 1;
      pc := pc[g := Building];
    }

    /** build has returned: a Runtime, or an error. */
    method Build(g: nat, ok: bool)
      requires CanStep(View(), g, Built)
      modifies this
      ensures View() == Step(old(View()), g, if ok then Built else BuildFails)
    {
      if !ok {
        live := live - 1;
        pc := pc[g := Idle];
        return;
      }
      pc := pc[g := Running(Lease(|record|, 0))];
      record := record + [Record(0, true, 0, 0)];
    }

    /** The job is over: uses goes up, and the deferred function decides. */
    method EndJob(g: nat, clean: bool, bytes: nat)
      requires CanStep(View(), g, Event.EndJob(clean, bytes))
      modifies this
      ensures View() == EndJobStep(old(View()), g, clean, bytes)
    {
      var l := pc[g].lease;
      l := l.(uses := l.uses + 1);
      record := record[l.rt := Record(record[l.rt].jobs + 1, clean, bytes, record[l.rt].closes)];
      if !clean || ShouldRetire(cfg, l.uses, bytes) {
        pc := pc[g := Discarding(l)];
        return;
      }
      pc := pc[g := Releasing(l)];
    }

    method Release(g: nat)
      requires CanStep(View(), g, Event.Release)
      modifies this
      ensures View() == ReleaseStep(old(View()), g)
    {
      var l := pc[g].lease;
      if closed || (cfg.maxIdle > 0 && |free| >= cfg.maxIdle) {
        live := live - 1;
        pc := pc[g := Closing([l.rt])];
        return;
      }
      free := free + [l];
      pc := pc[g := Idle];
    }

    method Discard(g: nat)
      requires CanStep(View(), g, Event.Discard)
      modifies this
      ensures View() == DiscardStep(old(View()), g)
    {
      live := live - 1;
      pc := pc[g := Closing([pc[g].lease.rt])];
    }

    /** One Runtime.Close, outside the mutex. */
    method CloseNext(g: nat)
      requires CanStep(View(), g, Event.CloseNext)
      modifies this
      ensures View() == CloseNextStep(old(View()), g)
    {
      var rts := pc[g].rts;
      var r := rts[0];
      record := record[r := record[r].(closes := record[r].closes + 1)];
      pc := pc[g := ClosingOf(rts[1..])];
    }

    /** Close, up to leaving the mutex. */
    method TakeAll(g: nat)
      requires CanStep(View(), g, ClosePool)
      modifies this
      ensures View() == ClosePoolStep(old(View()), g)
    {
      pc := pc[g := ClosingOf(Rts(free))];
      lost := lost + |free|;
      free, closed := [], true;
    }

    /** The loop of Close over the Runtimes it took, when nothing else runs meanwhile. */
    method CloseTaken(g: nat)
      requires CanDrain(View(), g)
      modifies this
      ensures View() == Drained(old(View()), g)
    {
      while pc[g].Closing?
        invariant CanDrain(View(), g) && Drained(View(), g) == Drained(old(View()), g)
        decreases if pc[g].Closing? then |pc[g].rts| else 0
      {
        CloseNext(g);
      }
    }

    method Next(g: nat, e: Event)
      requires CanStep(View(), g, e)
      modifies this
      ensures View() == Step(old(View()), g, e)
    {
      match e
      case Acquire => Acquire(g);
      case Built => Build(g, true);
      case BuildFails => Build(g, false);
      case BuildPanics =>
        pc := pc[g := Idle];
        lost := lost + 1;
      case EndJob(clean, bytes) => EndJob(g, clean, bytes);
      case Release => Release(g);
      case Discard => Discard(g);
      case ClosePool => TakeAll(g);
      case CloseNext => CloseNext(g);
    }

    /** Any schedule of the goroutines, on the fields themselves, keeps the pool safe. */
    method RunSchedule(run: seq<Act>)
      requires Inv(View()) && CanRun(View(), run)
      modifies this
      ensures View() == Exec(old(View()), run) && Inv(View())
    {
      ghost var s0 := View();
      for i := 0 to |run|
        invariant CanRun(View(), run[i..]) && Exec(View(), run[i..]) == Exec(s0, run)
      {
        assert run[i..][0] == run[i] && run[i..][1..] == run[i + 1..];
        Next(run[i].g, run[i].e);
      }
      RunInv(s0, run);
    }
  }

  predicate CanDrain(s: State, g: nat) {
    g < |s.pc| && (s.pc[g].Closing? ==> s.pc[g].rts != [] && forall i :: 0 <= i < |s.pc[g].rts| ==> s.pc[g].rts[i] < |s.record|)
  }

  /** The goroutine closes all it has to close. */
  function Drained(s: State, g: nat): State
    requires CanDrain(s, g)
    decreases if s.pc[g].Closing? then |s.pc[g].rts| else 0
  {
    if s.pc[g].Closing? then Drained(CloseNextStep(s, g), g) else s
  }

  /** It closes each as often as it held it, and touches nothing else. */
  lemma {:induction false} DrainedCloses(s: State, g: nat, r: nat)
    requires CanDrain(s, g) && r < |s.record|
    ensures var t := Drained(s, g);
            && |t.record| == |s.record| && t.record[r] == s.record[r].(closes := t.record[r].closes)
            && (s.pc[g].Closing? ==> t.pc == s.pc[g := Idle] && t.record[r].closes == s.record[r].closes + CountIn(s.pc[g].rts, r))
            && t.free == s.free && t.live == s.live && t.closed == s.closed
    decreases if s.pc[g].Closing? then |s.pc[g].rts| else 0
  {
    if s.pc[g].Closing? {
      var t := CloseNextStep(s, g);
      DrainedCloses(t, g, r);
      assert s.pc[g := t.pc[g]][g := Idle] == s.pc[g := Idle];
      if s.pc[g].rts[1..] == [] {
        assert t.pc[g] == Idle;
      }
    }
  }
}
