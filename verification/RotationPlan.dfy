/** The decision of one rotation tick: `Engine.Plan` over a discovered candidate,
    and what each decision writes to the live MachineSet. */
module RotationPlan {
  import opened Text
  import opened RotationAnnotations
  import opened Requests

  datatype Strategy = InPlace | Surge | UnknownStrategy

  datatype Candidate = Candidate(
    stampedGeneration: string,
    currentGeneration: string,
    strategy: Strategy,
    minHealthy: int,
    machineCount: int,
    lock: Option<Lock>,
    phase: Option<SurgePhase>,
    requests: seq<RequestStatus>)

  datatype AbortKind = CountDriftWaitUp | CountDriftWaitDown

  datatype Action =
    | NoAction
    | LockedByPriorStep
    | WaitingForReady
    | WaitingForTeardown
    | MinHealthyFloor
    | TeardownStale(target: string)
    | SurgeUp(next: SurgePhase)
    | SurgeDown(next: SurgePhase)
    | SurgeCycleComplete
    | SurgeAborted(kind: AbortKind)
    | StampGeneration

  function Plan(c: Candidate, now: int, ttl: int): (a: Action)
  {
    if c.stampedGeneration != c.currentGeneration then StampGeneration
    else if HasActiveLock(c.lock, now, ttl) && c.phase.None? then LockedByPriorStep
    else
      match c.strategy
      case InPlace => PlanInPlace(c)
      case Surge => PlanSurge(c, now)
      case UnknownStrategy => NoAction
  }

  function PlanInPlace(c: Candidate): (a: Action) {
    var stale := Stale(c.requests);
    if stale == [] then NoAction
    else if Count(c.requests, IsProvisioning) > 0 then WaitingForReady
    else if Count(c.requests, IsFreshProvisioned) < c.minHealthy then MinHealthyFloor
    else TeardownStale(stale[0].id)
  }

  function PlanSurge(c: Candidate, now: int): (a: Action) {
    var stale := Stale(c.requests);
    var freshProvisioned := Count(c.requests, IsFreshProvisioned);
    if c.phase.None? then
      if stale == [] then NoAction
      else if freshProvisioned + Count(stale, IsProvisioned) < c.minHealthy then MinHealthyFloor
      else SurgeUp(SurgePhase(WaitUp, c.machineCount, Unix(now)))
    else
      var p := c.phase.value;
      match p.phase
      case WaitUp =>
        var expectedFresh := if p.originalCount - |stale| + 1 < 1 then 1 else p.originalCount - |stale| + 1;
        if c.machineCount != p.originalCount + 1 then SurgeAborted(CountDriftWaitUp)
        else if freshProvisioned < expectedFresh then WaitingForReady
        else SurgeDown(p.(phase := WaitDown))
      case WaitDown =>
        if c.machineCount != p.originalCount then SurgeAborted(CountDriftWaitDown)
        else if |c.requests| > p.originalCount then WaitingForTeardown
        else SurgeCycleComplete
  }

  /** A lock whose second began less than one TTL ago. */
  predicate YoungLock(lock: Option<Lock>, now: int, ttl: int) {
    lock.Some? && now < FromUnix(lock.value.secs) + ttl
  }

  /** What comes before the strategy: a class whose stamp is out of date is stamped and nothing else; otherwise a set
      without a surge phase of its own waits exactly while its lock's second is less than one TTL in the past. */
  lemma GateIff(c: Candidate, now: int, ttl: int)
    requires c.lock.Some? ==> RepresentableSeconds(c.lock.value.secs)
    ensures Plan(c, now, ttl).StampGeneration? <==> c.stampedGeneration != c.currentGeneration
    ensures Plan(c, now, ttl).LockedByPriorStep? <==>
            && c.stampedGeneration == c.currentGeneration && c.phase.None?
            && c.lock.Some? && now - c.lock.value.secs * 1_000_000_000 < ttl
  {
  }

  /** A lock that the engine stored at `written` holds up other steps exactly until one TTL after the start of that
      second, as the reader of the stored string has it. */
  lemma StoredLockHoldsUpIff(c: Candidate, now: int, ttl: int, generation: string, written: int)
    requires ':' !in generation && RepresentableSeconds(Unix(written))
    requires c.lock == ParseLock(FormatLock(Lock(generation, Unix(written))))
    requires c.stampedGeneration == c.currentGeneration && c.phase.None?
    ensures Plan(c, now, ttl).LockedByPriorStep? <==> now - written / 1_000_000_000 * 1_000_000_000 < ttl
    ensures Plan(c, now, ttl).LockedByPriorStep?
            <==> EngineSeesLock(FormatLock(Lock(generation, Unix(written))), now, ttl)
  {
    ColonFreeLockRoundTrip(Lock(generation, Unix(written)));
    GateIff(c, now, ttl);
  }

  /** Past the gate, what the in-place strategy answers when it tears nothing down. */
  lemma InPlaceWaitsIff(c: Candidate, now: int, ttl: int)
    requires c.strategy.InPlace? && c.stampedGeneration == c.currentGeneration
    requires !(c.phase.None? && YoungLock(c.lock, now, ttl))
    ensures var a := Plan(c, now, ttl);
            && (a.NoAction? <==> forall r :: r in c.requests ==> !r.stale)
            && (a.WaitingForReady? <==>
                  (exists r :: r in c.requests && r.stale) && (exists r :: r in c.requests && r.stage == PROVISIONING))
            && (a.MinHealthyFloor? <==>
                  && (exists r :: r in c.requests && r.stale)
                  && (forall r :: r in c.requests ==> r.stage != PROVISIONING)
                  && Count(c.requests, IsFreshProvisioned) < c.minHealthy)
            && (a.NoAction? || a.WaitingForReady? || a.MinHealthyFloor? || a.TeardownStale?)
  {
    StaleExistsIff(c.requests);
    CountPositive(c.requests, IsProvisioning);
    assert forall r :: r in c.requests ==> exists i :: 0 <= i < |c.requests| && c.requests[i] == r;
  }

  /** Past the gate, what the surge strategy answers in each phase. The count is dropped when
      the fresh members make up, with the stale ones, the nominal count and the replacement, and one is there. */
  lemma SurgeDecisionIff(c: Candidate, now: int, ttl: int)
    requires c.strategy.Surge? && c.stampedGeneration == c.currentGeneration
    requires !(c.phase.None? && YoungLock(c.lock, now, ttl))
    ensures var a := Plan(c, now, ttl); var ready := Count(c.requests, IsFreshProvisioned);
            match c.phase
            case None =>
              && (a.NoAction? <==> forall r :: r in c.requests ==> !r.stale)
              && (a.MinHealthyFloor? <==>
                    (exists r :: r in c.requests && r.stale) && Count(c.requests, IsProvisioned) < c.minHealthy)
              && (a.NoAction? || a.MinHealthyFloor? || a.SurgeUp?)
            case Some(SurgePhase(WaitUp, n, _)) =>
              var stale := Count(c.requests, IsStale);
              && (a.SurgeDown? <==> c.machineCount == n + 1 && ready >= 1 && ready + stale >= n + 1)
              && (a.WaitingForReady? <==> c.machineCount == n + 1 && (ready < 1 || ready + stale < n + 1))
              && (a.SurgeAborted? <==> c.machineCount != n + 1)
            case Some(SurgePhase(WaitDown, n, _)) =>
              && (a.SurgeCycleComplete? <==> c.machineCount == n && |c.requests| <= n)
              && (a.WaitingForTeardown? <==> c.machineCount == n && |c.requests| > n)
              && (a.SurgeAborted? <==> c.machineCount != n)
  {
    StaleExistsIff(c.requests);
    StaleProvisionedCount(c.requests);
    CountSplit(c.requests);
  }

  /** The count a surge phase expects to find. */
  function ExpectedCount(p: SurgePhase): int {
    if p.phase.WaitUp? then p.originalCount + 1 else p.originalCount
  }

  /** A cycle is aborted exactly when its strategy still runs and the live count has drifted. */
  lemma AbortIffDrift(c: Candidate, now: int, ttl: int)
    ensures Plan(c, now, ttl).SurgeAborted? <==>
            && c.stampedGeneration == c.currentGeneration
            && c.strategy.Surge?
            && c.phase.Some?
            && c.machineCount != ExpectedCount(c.phase.value)
  {
  }

  /** Surge decisions follow the phase cycle: none, wait-up, wait-down, none. */
  lemma PlanFollowsPhases(c: Candidate, now: int, ttl: int)
    ensures var a := Plan(c, now, ttl);
            && (a.SurgeUp? ==> c.phase.None? && a.next == SurgePhase(WaitUp, c.machineCount, Unix(now)))
            && (a.SurgeDown? ==> c.phase.Some? && c.phase.value.phase.WaitUp?
                                 && a.next == c.phase.value.(phase := WaitDown)
                                 && c.machineCount == c.phase.value.originalCount + 1)
            && (a.SurgeCycleComplete? ==> c.phase.Some? && c.phase.value.phase.WaitDown?)
            && (c.strategy.Surge? && c.phase.Some? ==> !a.NoAction? && !a.LockedByPriorStep? && !a.TeardownStale?)
  {
  }

  /** A teardown is planned exactly under the in-place strategy with a stale member, nothing still
      provisioning, and enough fresh provisioned members; its target is then the oldest stale one. */
  lemma TeardownIff(c: Candidate, now: int, ttl: int)
    requires Sorted(c.requests)
    ensures Plan(c, now, ttl).TeardownStale? <==>
            && c.stampedGeneration == c.currentGeneration
            && !(c.phase.None? && YoungLock(c.lock, now, ttl))
            && c.strategy.InPlace?
            && (exists r :: r in c.requests && r.stale)
            && (forall r :: r in c.requests ==> r.stage != PROVISIONING)
            && Count(c.requests, IsFreshProvisioned) >= c.minHealthy
    ensures Plan(c, now, ttl).TeardownStale? ==>
              exists v :: v in c.requests && v.stale && v.id == Plan(c, now, ttl).target
                          && forall r :: r in c.requests && r.stale ==> Leq(v, r)
  {
    StaleMembers(c.requests);
    CountPositive(c.requests, IsProvisioning);
    var stale := Stale(c.requests);
    if r :| r in c.requests && r.stale {
      assert r in stale;
      StaleHeadIsOldest(c.requests);
      assert stale[0] in stale;
    }
    assert forall r :: r in c.requests ==> exists i :: 0 <= i < |c.requests| && c.requests[i] == r;
  }

  /** A surge cycle starts exactly under the surge strategy with a stale member, no cycle in flight, no lock
      held by another step, and at least min-healthy members provisioned, stale or not. */
  lemma SurgeUpIff(c: Candidate, now: int, ttl: int)
    ensures Plan(c, now, ttl).SurgeUp? <==>
            && c.stampedGeneration == c.currentGeneration
            && c.strategy.Surge? && c.phase.None?
            && !YoungLock(c.lock, now, ttl)
            && (exists r :: r in c.requests && r.stale)
            && Count(c.requests, IsProvisioned) >= c.minHealthy
  {
    StaleExistsIff(c.requests);
    StaleProvisionedCount(c.requests);
    CountSplit(c.requests);
  }

  // ----- The live MachineSet and the writes of Execute

  datatype MachineSet = MachineSet(count: nat, lock: Option<Lock>, phase: Option<SurgePhase>)

  function SetLock(ms: MachineSet, generation: string, now: int): MachineSet {
    ms.(lock := Some(Lock(generation, Unix(now))))
  }

  function ClearLock(ms: MachineSet): MachineSet {
    ms.(lock := None)
  }

  function ClearSurgeAndLock(ms: MachineSet): MachineSet {
    ms.(lock := None, phase := None)
  }

  /** `withSurgeStep`: lock, phase and count in one write; refused when the count would go below zero. */
  function SurgeStep(ms: MachineSet, generation: string, next: SurgePhase, delta: int, now: int): Option<MachineSet> {
    if ms.count + delta < 0 then None
    else Some(MachineSet(Uint32(ms.count + delta), Some(Lock(generation, Unix(now))), Some(next)))
  }

  /** What `Execute` leaves on the live MachineSet when all its writes succeed. The decision was taken on
      candidate `c`, which may be older than `ms`. */
  function Execute(ms: MachineSet, c: Candidate, a: Action, now: int): MachineSet {
    match a
    case SurgeUp(next) =>
      var r := SurgeStep(ms, c.currentGeneration, next, 1, now); if r.Some? then r.value else ms
    case SurgeDown(next) =>
      var r := SurgeStep(ms, c.currentGeneration, next, -1, now); if r.Some? then r.value else ms
    case SurgeCycleComplete => ClearSurgeAndLock(ms)
    case SurgeAborted(_) => ClearSurgeAndLock(ms)
    case StampGeneration => ms
    case TeardownStale(_) => ClearLock(ms)
    case _ => if c.phase.Some? then SetLock(ms, c.currentGeneration, now) else ms
  }
}
