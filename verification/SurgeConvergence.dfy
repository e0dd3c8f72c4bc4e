/** Runs of the surge strategy under a fixed, stamped generation and with no other writer of the count. A tick
    discovers and plans first and writes later, or never; in between the MachineRequestSet controller and
    the machines go on. Two results: how many members are provisioned at every moment of a cycle, and that
    rotation finishes. */
module SurgeConvergence {
  import opened Text
  import opened RotationAnnotations
  import opened Requests
  import opened RotationPlan

  /** The nominal count, the class generation and the configured floor. */
  datatype Config = Config(n: nat, generation: string, minHealthy: nat) {
    predicate Valid() { n + 1 < UINT32_LIMIT }
  }

  /** Requests are listed oldest first. `base` is the number of provisioned members when the current
      cycle began; `ups` and `downs` count the surge writes so far. */
  datatype State = State(
    ms: MachineSet,
    requests: seq<RequestStatus>,
    now: int,
    inflight: Option<Planned>,
    base: nat,
    ups: nat,
    downs: nat)

  datatype Planned = Planned(candidate: Candidate, action: Action)

  datatype Step =
    | Discover
    | Commit                            // the planned write lands
    | Drop                              // crash, restart or failed write
    | Add(request: RequestStatus)       // too few members: the controller creates one
    | Remove(index: nat)                // too many members: the controller tears one down
    | SetStage(member: nat, stage: Stage)
    | Elapse(now: int)

  function View(cfg: Config, s: State): Candidate {
    Candidate(cfg.generation, cfg.generation, Surge, cfg.minHealthy, s.ms.count, s.ms.lock, s.ms.phase, s.requests)
  }

  function Decision(cfg: Config, s: State): Action {
    Plan(View(cfg, s), s.now, LOCK_TTL)
  }

  /** New members are created at the current generation; a provisioned member stays provisioned. */
  predicate Enabled(cfg: Config, s: State, step: Step) {
    match step
    case Discover => s.inflight.None?
    case Commit => s.inflight.Some?
    case Drop => s.inflight.Some?
    case Add(r) => |s.requests| < s.ms.count && !r.stale && forall i :: 0 <= i < |s.requests| ==> Leq(s.requests[i], r)
    case Remove(i) => |s.requests| > s.ms.count && i < |s.requests|
    case SetStage(i, st) => i < |s.requests| && s.requests[i].stage != PROVISIONED
    case Elapse(_) => true
  }

  function Next(cfg: Config, s: State, step: Step): State
    requires Enabled(cfg, s, step)
  {
    match step
    case Discover => s.(inflight := Some(Planned(View(cfg, s), Decision(cfg, s))))
    case Drop => s.(inflight := None)
    case Commit =>
      var Planned(c, a) := s.inflight.value;
      s.(ms := Execute(s.ms, c, a, s.now), inflight := None,
         base := if a.SurgeUp? then Provisioned(s) else s.base,
         ups := if a.SurgeUp? then s.ups + 1 else s.ups,
         downs := if a.SurgeDown? then s.downs + 1 else s.downs)
    case Add(r) => s.(requests := s.requests + [r])
    case Remove(i) => s.(requests := s.requests[..i] + s.requests[i + 1..])
    case SetStage(i, st) => s.(requests := s.requests[i := s.requests[i].(stage := st)])
    case Elapse(t) => s.(now := t)
  }

  ghost predicate ValidRun(cfg: Config, s: State, steps: seq<Step>)
    decreases |steps|
  {
    steps == [] || (Enabled(cfg, s, steps[0]) && ValidRun(cfg, Next(cfg, s, steps[0]), steps[1..]))
  }

  ghost function Run(cfg: Config, s: State, steps: seq<Step>): State
    requires ValidRun(cfg, s, steps)
    decreases |steps|
  {
    if steps == [] then s else Run(cfg, Next(cfg, s, steps[0]), steps[1..])
  }

  function StaleCount(s: State): nat { Count(s.requests, IsStale) }

  function Provisioned(s: State): nat { Count(s.requests, IsProvisioned) }

  predicate Waiting(s: State, p: Phase) {
    s.ms.phase.Some? && s.ms.phase.value.phase == p
  }

  /** Waiting down with the surplus member still there. */
  predicate Draining(cfg: Config, s: State) {
    Waiting(s, WaitDown) && |s.requests| == cfg.n + 1
  }

  // ----- The floor: whichever member the controller removes

  /** What was planned still fits when it lands, however much the members have moved on since. */
  predicate PlannedFits(cfg: Config, s: State) {
    s.inflight.Some? ==>
      var Planned(c, a) := s.inflight.value;
      && c.phase == s.ms.phase
      && match a
         case SurgeUp(next) =>
           && s.ms.phase.None? && next.phase.WaitUp? && next.originalCount == cfg.n
           && Provisioned(s) >= cfg.minHealthy && StaleCount(s) >= 1
         case SurgeDown(next) =>
           && Waiting(s, WaitUp) && next == s.ms.phase.value.(phase := WaitDown) && |s.requests| == cfg.n + 1
           && FreshProvisioned(s) >= 1 && FreshProvisioned(s) + StaleCount(s) >= cfg.n + 1
         case SurgeCycleComplete => Waiting(s, WaitDown) && |s.requests| == cfg.n
         case SurgeAborted(_) => false
         case TeardownStale(_) => false
         case StampGeneration => false
         case _ => true
  }

  function FreshProvisioned(s: State): nat { Count(s.requests, IsFreshProvisioned) }

  predicate FloorInv(cfg: Config, s: State) {
    && cfg.Valid() && PlannedFits(cfg, s)
    && (s.ms.phase.None? ==> s.ms.count == cfg.n == |s.requests|)
    && (s.ms.phase.Some? ==> s.ms.phase.value.originalCount == cfg.n && cfg.n <= |s.requests| <= cfg.n + 1
                             && cfg.minHealthy <= s.base <= Provisioned(s))
    && (Waiting(s, WaitUp) ==> s.ms.count == cfg.n + 1
                               && s.base <= cfg.n - StaleCount(s) + Count(s.requests, IsStaleProvisioned))
    && (Waiting(s, WaitDown) ==> s.ms.count == cfg.n && s.base + |s.requests| - cfg.n <= Provisioned(s))
  }

  lemma FloorDiscover(cfg: Config, s: State)
    requires FloorInv(cfg, s) && Enabled(cfg, s, Discover)
    ensures FloorInv(cfg, Next(cfg, s, Discover))
  {
    CountSplit(s.requests);
    StaleProvisionedCount(s.requests);
  }

  lemma FloorCommit(cfg: Config, s: State)
    requires FloorInv(cfg, s) && Enabled(cfg, s, Commit)
    ensures FloorInv(cfg, Next(cfg, s, Commit))
  {
    CountSplit(s.requests);
  }

  lemma FloorRemove(cfg: Config, s: State, i: nat)
    requires FloorInv(cfg, s) && Enabled(cfg, s, Remove(i))
    ensures FloorInv(cfg, Next(cfg, s, Remove(i)))
  {
    CountRemove(s.requests, i, IsProvisioned);
    assert Waiting(s, WaitDown);
  }

  lemma FloorAdd(cfg: Config, s: State, r: RequestStatus)
    requires FloorInv(cfg, s) && Enabled(cfg, s, Add(r))
    ensures FloorInv(cfg, Next(cfg, s, Add(r)))
  {
    CountAppend(s.requests, r, IsStale);
    CountAppend(s.requests, r, IsProvisioned);
    CountAppend(s.requests, r, IsStaleProvisioned);
  }

  lemma FloorStage(cfg: Config, s: State, i: nat, st: Stage)
    requires FloorInv(cfg, s) && Enabled(cfg, s, SetStage(i, st))
    ensures FloorInv(cfg, Next(cfg, s, SetStage(i, st)))
  {
    var r := s.requests[i].(stage := st);
    CountUpdate(s.requests, i, r, IsStale);
    CountUpdate(s.requests, i, r, IsProvisioned);
    CountUpdate(s.requests, i, r, IsStaleProvisioned);
    CountUpdate(s.requests, i, r, IsFreshProvisioned);
  }

  lemma FloorStep(cfg: Config, s: State, step: Step)
    requires FloorInv(cfg, s) && Enabled(cfg, s, step)
    ensures FloorInv(cfg, Next(cfg, s, step))
  {
    match step
    case Discover => FloorDiscover(cfg, s);
    case Commit => FloorCommit(cfg, s);
    case Drop =>
    case Add(r) => FloorAdd(cfg, s, r);
    case Remove(i) => FloorRemove(cfg, s, i);
    case SetStage(i, st) => FloorStage(cfg, s, i, st);
    case Elapse(_) =>
  }

  /** Idle with the nominal number of members and nothing planned: where every cycle starts. */
  predicate Idle(cfg: Config, s: State) {
    cfg.Valid() && s.inflight.None? && s.ms.phase.None? && s.ms.count == cfg.n == |s.requests|
  }

  /** In every run that starts idle with the nominal number of members, at every moment of every surge
      cycle at least as many members are provisioned as when the cycle began, and never fewer than
      min-healthy, whichever member the controller picks to remove. */
  lemma SurgeFloorInEveryRun(cfg: Config, s0: State, steps: seq<Step>)
    requires Idle(cfg, s0) && ValidRun(cfg, s0, steps)
    ensures var s := Run(cfg, s0, steps);
            s.ms.phase.Some? ==> Provisioned(s) >= s.base >= cfg.minHealthy
  {
    FloorInRun(cfg, s0, steps);
  }

  lemma {:induction false} FloorInRun(cfg: Config, s: State, steps: seq<Step>)
    requires FloorInv(cfg, s) && ValidRun(cfg, s, steps)
    ensures FloorInv(cfg, Run(cfg, s, steps))
    decreases |steps|
  {
    if steps == [] {
    } else {
      FloorStep(cfg, s, steps[0]);
      FloorInRun(cfg, Next(cfg, s, steps[0]), steps[1..]);
    }
  }

  // ----- Convergence: the controller removes the oldest member

  ghost predicate OldestFirst(steps: seq<Step>) {
    forall i :: 0 <= i < |steps| ==> steps[i].Remove? ==> steps[i].index == 0
  }

  /** Every stale member is older than every fresh one. */
  ghost predicate StaleFirst(reqs: seq<RequestStatus>) {
    forall i, j :: 0 <= i < j < |reqs| && reqs[j].stale ==> reqs[i].stale
  }

  /** `total` is the number of stale members at the start. */
  ghost predicate ConvergenceInv(cfg: Config, total: nat, s: State) {
    && FloorInv(cfg, s)
    && Sorted(s.requests) && StaleFirst(s.requests)
    && (s.ms.phase.None? ==> s.ms.lock.None? && Provisioned(s) >= cfg.minHealthy)
    && StaleCount(s) <= cfg.n
    && (Waiting(s, WaitUp) || Draining(cfg, s) ==> StaleCount(s) >= 1)
    && s.ups + StaleCount(s) == total + (if Waiting(s, WaitUp) || Draining(cfg, s) then 1 else 0)
    && s.downs + StaleCount(s) == total + (if Draining(cfg, s) then 1 else 0)
  }

  /** Decisions that move the rotation forward; every other decision only waits. */
  predicate Moves(a: Action) {
    a.SurgeUp? || a.SurgeDown? || a.SurgeCycleComplete?
  }

  /** Steps that move the rotation forward. */
  predicate Productive(cfg: Config, s: State, step: Step) {
    match step
    case Commit => s.inflight.Some? && Moves(s.inflight.value.action)
    case Discover => false
    case Drop => false
    case Add(_) => true
    case Remove(_) => true
    case SetStage(_, st) => st == PROVISIONED
    case Elapse(_) => false
  }

  /** At equal stale count: finishing a cycle comes first, then starting one, waiting up, draining. */
  function PhaseRank(cfg: Config, s: State): nat {
    if s.ms.phase.None? then 3
    else if Waiting(s, WaitUp) then 2
    else if |s.requests| == cfg.n + 1 then 1
    else 4
  }

  function Lag(s: State): nat {
    (if |s.requests| < s.ms.count then 2 * (s.ms.count - |s.requests|) else 0) + |s.requests| - Provisioned(s)
  }

  function Major(cfg: Config, s: State): nat { 5 * StaleCount(s) + PhaseRank(cfg, s) }

  /** The lexicographic measure (stale count, phase, environment lag) as one number. */
  function Measure(cfg: Config, s: State): nat { Blocks(Major(cfg, s), cfg.n + 4) + Lag(s) }

  lemma MajorDrops(cfg: Config, s: State, t: State)
    requires FloorInv(cfg, t) && Major(cfg, t) < Major(cfg, s)
    ensures Measure(cfg, t) < Measure(cfg, s)
  {
    assert Lag(t) < cfg.n + 4;
    BlocksGrow(Major(cfg, t), Major(cfg, s), cfg.n + 4);
  }

  lemma LagDrops(cfg: Config, s: State, t: State)
    requires Major(cfg, t) == Major(cfg, s) && Lag(t) < Lag(s)
    ensures Measure(cfg, t) < Measure(cfg, s)
  {
  }

  lemma CommitKeepsInv(cfg: Config, total: nat, s: State)
    requires ConvergenceInv(cfg, total, s) && Enabled(cfg, s, Commit)
    ensures var t := Next(cfg, s, Commit);
            && ConvergenceInv(cfg, total, t)
            && t.requests == s.requests
            && if Productive(cfg, s, Commit) then PhaseRank(cfg, t) < PhaseRank(cfg, s)
               else t.ms.count == s.ms.count && PhaseRank(cfg, t) == PhaseRank(cfg, s)
  {
    FloorCommit(cfg, s);
    CountSplit(s.requests);
  }

  lemma ConvergenceCommit(cfg: Config, total: nat, s: State)
    requires ConvergenceInv(cfg, total, s) && Enabled(cfg, s, Commit)
    ensures var t := Next(cfg, s, Commit);
            && ConvergenceInv(cfg, total, t)
            && Measure(cfg, t) + (if Productive(cfg, s, Commit) then 1 else 0) <= Measure(cfg, s)
  {
    CommitKeepsInv(cfg, total, s);
    if Productive(cfg, s, Commit) {
      MajorDrops(cfg, s, Next(cfg, s, Commit));
    }
  }

  /** Making and dropping plans changes nothing else. */
  lemma ConvergencePlan(cfg: Config, total: nat, s: State, step: Step)
    requires ConvergenceInv(cfg, total, s) && Enabled(cfg, s, step) && (step.Discover? || step.Drop?)
    ensures var t := Next(cfg, s, step); ConvergenceInv(cfg, total, t) && Measure(cfg, t) == Measure(cfg, s)
  {
    var t := Next(cfg, s, step);
    if step.Discover? {
      FloorDiscover(cfg, s);
    }
    assert Major(cfg, t) == Major(cfg, s) && Lag(t) == Lag(s);
  }

  lemma AppendKeepsOrder(reqs: seq<RequestStatus>, r: RequestStatus)
    requires Sorted(reqs) && StaleFirst(reqs) && !r.stale && forall i :: 0 <= i < |reqs| ==> Leq(reqs[i], r)
    ensures Sorted(reqs + [r]) && StaleFirst(reqs + [r])
  {
  }

  /** Only a set that waits up without its replacement gets a member. */
  lemma OnlyWaitUpAdds(cfg: Config, s: State, r: RequestStatus)
    requires FloorInv(cfg, s) && Enabled(cfg, s, Add(r))
    ensures Waiting(s, WaitUp) && |s.requests| == cfg.n
  {
  }

  lemma ConvergenceAdd(cfg: Config, total: nat, s: State, r: RequestStatus)
    requires ConvergenceInv(cfg, total, s) && Enabled(cfg, s, Add(r))
    ensures var t := Next(cfg, s, Add(r));
            ConvergenceInv(cfg, total, t) && Measure(cfg, t) < Measure(cfg, s)
  {
    OnlyWaitUpAdds(cfg, s, r);
    FloorAdd(cfg, s, r);
    AppendKeepsOrder(s.requests, r);
    CountAppend(s.requests, r, IsStale);
    CountAppend(s.requests, r, IsProvisioned);
    LagDrops(cfg, s, Next(cfg, s, Add(r)));
  }

  lemma TailKeepsOrder(reqs: seq<RequestStatus>)
    requires Sorted(reqs) && StaleFirst(reqs) && reqs != []
    ensures Sorted(reqs[1..]) && StaleFirst(reqs[1..])
  {
    var t := reqs[1..];
    forall i, j | 0 <= i < j < |t| ensures Leq(t[i], t[j]) && (t[j].stale ==> t[i].stale) {
      assert t[i] == reqs[i + 1] && t[j] == reqs[j + 1];
    }
  }

  /** The oldest member is a stale one whenever any is. */
  lemma OldestIsStale(reqs: seq<RequestStatus>)
    requires StaleFirst(reqs) && Count(reqs, IsStale) >= 1
    ensures reqs[0].stale
  {
    CountPositive(reqs, IsStale);
  }

  /** Only a set that is draining has a member to remove. */
  lemma OnlyDrainingRemoves(cfg: Config, s: State, i: nat)
    requires FloorInv(cfg, s) && Enabled(cfg, s, Remove(i))
    ensures Draining(cfg, s)
  {
  }

  lemma RemoveZeroDropsFirst(cfg: Config, s: State)
    requires Enabled(cfg, s, Remove(0))
    ensures Next(cfg, s, Remove(0)) == s.(requests := s.requests[1..])
  {
    assert s.requests[..0] + s.requests[1..] == s.requests[1..];
  }

  /** Losing one stale member takes a draining set to the end of its cycle. */
  lemma DrainedInv(cfg: Config, total: nat, s: State, t: State)
    requires ConvergenceInv(cfg, total, s) && Draining(cfg, s)
    requires t == s.(requests := t.requests) && |t.requests| == cfg.n && StaleCount(t) == StaleCount(s) - 1
    requires FloorInv(cfg, t) && Sorted(t.requests) && StaleFirst(t.requests)
    ensures ConvergenceInv(cfg, total, t) && Major(cfg, t) < Major(cfg, s)
  {
  }

  lemma ConvergenceRemove(cfg: Config, total: nat, s: State, t: State)
    requires ConvergenceInv(cfg, total, s) && Enabled(cfg, s, Remove(0)) && t == Next(cfg, s, Remove(0))
    ensures ConvergenceInv(cfg, total, t) && Measure(cfg, t) < Measure(cfg, s)
  {
    OnlyDrainingRemoves(cfg, s, 0);
    FloorRemove(cfg, s, 0);
    RemoveZeroDropsFirst(cfg, s);
    TailKeepsOrder(s.requests);
    OldestIsStale(s.requests);
    CountTail(s.requests, IsStale);
    DrainedInv(cfg, total, s, t);
    MajorDrops(cfg, s, t);
  }

  lemma ConvergenceStage(cfg: Config, total: nat, s: State, i: nat, st: Stage)
    requires ConvergenceInv(cfg, total, s) && Enabled(cfg, s, SetStage(i, st))
    ensures var t := Next(cfg, s, SetStage(i, st));
            && ConvergenceInv(cfg, total, t)
            && Measure(cfg, t) + (if st == PROVISIONED then 1 else 0) <= Measure(cfg, s)
  {
    var t := Next(cfg, s, SetStage(i, st));
    FloorStage(cfg, s, i, st);
    CountUpdate(s.requests, i, t.requests[i], IsStale);
    CountUpdate(s.requests, i, t.requests[i], IsProvisioned);
    assert Major(cfg, t) == Major(cfg, s);
  }

  lemma ConvergenceElapse(cfg: Config, total: nat, s: State, now: int)
    requires ConvergenceInv(cfg, total, s)
    ensures var t := Next(cfg, s, Elapse(now)); ConvergenceInv(cfg, total, t) && Measure(cfg, t) == Measure(cfg, s)
  {
  }

  lemma ConvergenceStep(cfg: Config, total: nat, s: State, step: Step)
    requires ConvergenceInv(cfg, total, s) && Enabled(cfg, s, step) && (step.Remove? ==> step.index == 0)
    ensures var t := Next(cfg, s, step);
            && ConvergenceInv(cfg, total, t)
            && Measure(cfg, t) + (if Productive(cfg, s, step) then 1 else 0) <= Measure(cfg, s)
  {
    hide ConvergenceInv, Measure;
    match step
    case Discover => ConvergencePlan(cfg, total, s, Discover);
    case Commit => ConvergenceCommit(cfg, total, s);
    case Drop => ConvergencePlan(cfg, total, s, Drop);
    case Add(r) => ConvergenceAdd(cfg, total, s, r);
    case Remove(i) => ConvergenceRemove(cfg, total, s, Next(cfg, s, Remove(0)));
    case SetStage(i, st) => ConvergenceStage(cfg, total, s, i, st);
    case Elapse(now) => ConvergenceElapse(cfg, total, s, now);
  }

  /** Idle with every member at the current generation. */
  predicate Final(s: State) {
    s.inflight.None? && s.ms.phase.None? && StaleCount(s) == 0
  }

  /** The step moves the rotation forward, or drops a plan that only waits, or makes a plan that does more. */
  predicate Helps(cfg: Config, s: State, step: Step) {
    && Enabled(cfg, s, step) && (step.Remove? ==> step.index == 0)
    && (|| Productive(cfg, s, step)
        || (step.Drop? && !Moves(s.inflight.value.action))
        || (step.Discover? && Moves(Decision(cfg, s))))
  }

  lemma HelpFrom(cfg: Config, total: nat, s: State) returns (step: Step)
    requires ConvergenceInv(cfg, total, s) && !Final(s)
    ensures Helps(cfg, s, step)
  {
    CountSplit(s.requests);
    StaleProvisionedCount(s.requests);
    if s.inflight.Some? {
      step := if Moves(s.inflight.value.action) then Commit else Drop;
    } else if Waiting(s, WaitUp) && |s.requests| == cfg.n {
      step := Add(Newest(s.requests));
    } else if Waiting(s, WaitUp) && !Decision(cfg, s).SurgeDown? {
      var i := FindUnprovisionedFresh(s.requests);
      step := SetStage(i, PROVISIONED);
    } else if Draining(cfg, s) {
      step := Remove(0);
    } else {
      step := Discover;
    }
  }

  lemma {:induction false} FindUnprovisionedFresh(reqs: seq<RequestStatus>) returns (i: nat)
    requires Count(reqs, IsFreshProvisioned) < |reqs| - Count(reqs, IsStale)
    ensures i < |reqs| && !reqs[i].stale && reqs[i].stage != PROVISIONED
  {
    var last := |reqs| - 1;
    if !reqs[last].stale && reqs[last].stage != PROVISIONED {
      i := last;
    } else {
      i := FindUnprovisionedFresh(reqs[..last]);
    }
  }

  /** Idle at the nominal count, with `total` stale members all older than the fresh ones and enough
      provisioned members to start. */
  ghost predicate Start(cfg: Config, total: nat, s: State) {
    && cfg.Valid()
    && s.ms == MachineSet(cfg.n, None, None) && s.inflight.None?
    && |s.requests| == cfg.n
    && Sorted(s.requests) && StaleFirst(s.requests)
    && StaleCount(s) == total
    && Provisioned(s) >= cfg.minHealthy
    && s.ups == s.downs == 0
  }

  /** The number of productive steps of a run. */
  ghost function Work(cfg: Config, s: State, steps: seq<Step>): nat
    requires ValidRun(cfg, s, steps)
    decreases |steps|
  {
    if steps == [] then 0
    else (if Productive(cfg, s, steps[0]) then 1 else 0) + Work(cfg, Next(cfg, s, steps[0]), steps[1..])
  }

  lemma {:induction false} WorkIsBounded(cfg: Config, total: nat, s: State, steps: seq<Step>)
    requires ConvergenceInv(cfg, total, s) && ValidRun(cfg, s, steps) && OldestFirst(steps)
    ensures var t := Run(cfg, s, steps);
            ConvergenceInv(cfg, total, t) && Measure(cfg, t) + Work(cfg, s, steps) <= Measure(cfg, s)
    decreases |steps|
  {
    if steps == [] {
    } else {
      ConvergenceStep(cfg, total, s, steps[0]);
      WorkIsBounded(cfg, total, Next(cfg, s, steps[0]), steps[1..]);
    }
  }

  /** Nothing is planned, the next plan would only wait, and nothing else would move the rotation forward. */
  ghost predicate Stuck(cfg: Config, s: State) {
    s.inflight.None? && !Moves(Decision(cfg, s)) &&
    forall step :: Enabled(cfg, s, step) && (step.Remove? ==> step.index == 0) ==> !Productive(cfg, s, step)
  }

  /** Surge rotation converges. Every run, however its steps interleave, does a bounded amount of work, and
      a run that has no work left is idle at the nominal count with every member fresh, after exactly one
      surge up and one surge down for each member that was stale at the start. */
  lemma SurgeConverges(cfg: Config, total: nat, s0: State, steps: seq<Step>)
    requires Start(cfg, total, s0) && ValidRun(cfg, s0, steps) && OldestFirst(steps)
    ensures Work(cfg, s0, steps) <= Measure(cfg, s0)
    ensures var s := Run(cfg, s0, steps);
            Stuck(cfg, s) ==>
              && s.ms == MachineSet(cfg.n, None, None)
              && |s.requests| == cfg.n
              && (forall i :: 0 <= i < |s.requests| ==> !s.requests[i].stale)
              && s.ups == s.downs == total
  {
    WorkIsBounded(cfg, total, s0, steps);
    var s := Run(cfg, s0, steps);
    if Stuck(cfg, s) {
      if !Final(s) {
        var step := HelpFrom(cfg, total, s);
        assert false;
      }
      CountPositive(s.requests, IsStale);
      forall i | 0 <= i < |s.requests| ensures !s.requests[i].stale {
        assert !IsStale(s.requests[i]);
      }
    }
  }

  /** How far the reconciler is from its next write that counts. */
  function Readiness(s: State): nat {
    if s.inflight.None? then 1 else if Moves(s.inflight.value.action) then 0 else 2
  }

  lemma {:induction false} FinishFrom(cfg: Config, total: nat, s: State) returns (steps: seq<Step>)
    requires ConvergenceInv(cfg, total, s)
    ensures ValidRun(cfg, s, steps) && OldestFirst(steps) && Final(Run(cfg, s, steps))
    decreases Measure(cfg, s), Readiness(s)
  {
    if Final(s) {
      steps := [];
    } else {
      var step := HelpFrom(cfg, total, s);
      ConvergenceStep(cfg, total, s, step);
      var rest := FinishFrom(cfg, total, Next(cfg, s, step));
      steps := [step] + rest;
      assert steps[1..] == rest;
    }
  }

  /** In every run, unless rotation is finished, some step of the reconciler or the controller helps. */
  lemma Progress(cfg: Config, total: nat, s0: State, steps: seq<Step>) returns (step: Step)
    requires Start(cfg, total, s0) && ValidRun(cfg, s0, steps) && OldestFirst(steps) && !Final(Run(cfg, s0, steps))
    ensures Helps(cfg, Run(cfg, s0, steps), step)
  {
    WorkIsBounded(cfg, total, s0, steps);
    step := HelpFrom(cfg, total, Run(cfg, s0, steps));
  }

  /** And every run can be continued to one that is finished. */
  lemma RotationCanFinish(cfg: Config, total: nat, s0: State, steps: seq<Step>) returns (more: seq<Step>)
    requires Start(cfg, total, s0) && ValidRun(cfg, s0, steps) && OldestFirst(steps)
    ensures var s := Run(cfg, s0, steps); ValidRun(cfg, s, more) && OldestFirst(more) && Final(Run(cfg, s, more))
  {
    WorkIsBounded(cfg, total, s0, steps);
    more := FinishFrom(cfg, total, Run(cfg, s0, steps));
  }

  // ----- A class edit during wait-up

  /** Waiting up at the count the engine left, with the replacement created or about to be. */
  predicate WaitUpShape(cfg: Config, s: State) {
    && cfg.Valid()
    && Waiting(s, WaitUp) && s.ms.phase.value.originalCount == cfg.n && s.ms.count == cfg.n + 1
    && cfg.n <= |s.requests| <= cfg.n + 1
    && (s.inflight.Some? ==>
          var Planned(c, a) := s.inflight.value;
          c.phase.Some? && (a.WaitingForReady? || (a.SurgeDown? && a.next.phase.WaitDown?)))
  }

  /** The write that ends the wait is already on its way. */
  predicate DropPlanned(s: State) {
    s.inflight.Some? && s.inflight.value.action.SurgeDown?
  }

  lemma AllStaleStep(cfg: Config, s: State, step: Step)
    requires WaitUpShape(cfg, s) && StaleCount(s) == cfg.n + 1 && !DropPlanned(s) && Enabled(cfg, s, step)
    ensures var t := Next(cfg, s, step); WaitUpShape(cfg, t) && StaleCount(t) == cfg.n + 1 && !DropPlanned(t)
  {
    CountSplit(s.requests);
    if step.SetStage? {
      CountUpdate(s.requests, step.member, s.requests[step.member].(stage := step.stage), IsStale);
    }
  }

  lemma {:induction false} AllStaleWaitsForever(cfg: Config, s: State, steps: seq<Step>)
    requires WaitUpShape(cfg, s) && StaleCount(s) == cfg.n + 1 && !DropPlanned(s) && ValidRun(cfg, s, steps)
    ensures Waiting(Run(cfg, s, steps), WaitUp)
    decreases |steps|
  {
    if steps == [] {
    } else {
      AllStaleStep(cfg, s, steps[0]);
      AllStaleWaitsForever(cfg, Next(cfg, s, steps[0]), steps[1..]);
    }
  }

  /** A step towards the end of the wait. */
  predicate NearerDrop(cfg: Config, s: State, t: State) {
    || Waiting(t, WaitDown)
    || (WaitUpShape(cfg, t) && (StaleCount(t) <= cfg.n || DropPlanned(t))
        && (Lag(t) < Lag(s) || (Lag(t) == Lag(s) && Readiness(t) < Readiness(s))))
  }

  lemma PlanNearsDrop(cfg: Config, s: State, step: Step)
    requires WaitUpShape(cfg, s) && (StaleCount(s) <= cfg.n || DropPlanned(s)) && Enabled(cfg, s, step)
    requires (step.Commit? && DropPlanned(s)) || (step.Drop? && !DropPlanned(s))
        || (step.Discover? && Decision(cfg, s).SurgeDown?)
    ensures NearerDrop(cfg, s, Next(cfg, s, step))
  {
  }

  /** While the plan would be to wait, the replacement is missing or not provisioned yet. */
  lemma MembersNearDrop(cfg: Config, s: State) returns (step: Step)
    requires WaitUpShape(cfg, s) && StaleCount(s) <= cfg.n && s.inflight.None? && !Decision(cfg, s).SurgeDown?
    ensures Enabled(cfg, s, step) && NearerDrop(cfg, s, Next(cfg, s, step))
  {
    CountSplit(s.requests);
    if |s.requests| == cfg.n {
      step := Add(Newest(s.requests));
      AddNearsDrop(cfg, s, step.request);
    } else {
      var i := FindUnprovisionedFresh(s.requests);
      step := SetStage(i, PROVISIONED);
      StageNearsDrop(cfg, s, i);
    }
    hide NearerDrop, Next;
  }

  lemma AddNearsDrop(cfg: Config, s: State, r: RequestStatus)
    requires WaitUpShape(cfg, s) && StaleCount(s) <= cfg.n && s.inflight.None? && Enabled(cfg, s, Add(r))
    ensures NearerDrop(cfg, s, Next(cfg, s, Add(r)))
  {
    CountAppend(s.requests, r, IsStale);
    CountAppend(s.requests, r, IsProvisioned);
  }

  lemma StageNearsDrop(cfg: Config, s: State, i: nat)
    requires WaitUpShape(cfg, s) && StaleCount(s) <= cfg.n && s.inflight.None?
    requires Enabled(cfg, s, SetStage(i, PROVISIONED))
    ensures NearerDrop(cfg, s, Next(cfg, s, SetStage(i, PROVISIONED)))
  {
    CountUpdate(s.requests, i, s.requests[i].(stage := PROVISIONED), IsStale);
    CountUpdate(s.requests, i, s.requests[i].(stage := PROVISIONED), IsProvisioned);
  }

  lemma WaitUpProgress(cfg: Config, s: State) returns (step: Step)
    requires WaitUpShape(cfg, s) && (StaleCount(s) <= cfg.n || DropPlanned(s))
    ensures Enabled(cfg, s, step) && NearerDrop(cfg, s, Next(cfg, s, step))
  {
    if s.inflight.Some? || Decision(cfg, s).SurgeDown? {
      step := if s.inflight.None? then Discover else if DropPlanned(s) then Commit else Drop;
      PlanNearsDrop(cfg, s, step);
    } else {
      step := MembersNearDrop(cfg, s);
    }
  }

  lemma {:induction false} WaitUpCanProceed(cfg: Config, s: State) returns (steps: seq<Step>)
    requires WaitUpShape(cfg, s) && (StaleCount(s) <= cfg.n || DropPlanned(s))
    ensures ValidRun(cfg, s, steps) && Waiting(Run(cfg, s, steps), WaitDown)
    decreases Lag(s), Readiness(s)
  {
    var step := WaitUpProgress(cfg, s);
    var rest: seq<Step> := [];
    if !Waiting(Next(cfg, s, step), WaitDown) {
      rest := WaitUpCanProceed(cfg, Next(cfg, s, step));
    }
    steps := [step] + rest;
    assert steps[1..] == rest;
  }

  /** The engine waits up forever exactly when a class edit has made the replacement stale as well, so that
      all of the surged members are stale, and no drop of the count was planned before; in every other case
      some run goes on to drop the count. */
  lemma WaitUpStallsIffAllStale(cfg: Config, s: State)
    requires WaitUpShape(cfg, s)
    ensures (forall steps :: ValidRun(cfg, s, steps) ==> Waiting(Run(cfg, s, steps), WaitUp))
            <==> StaleCount(s) == cfg.n + 1 && !DropPlanned(s)
  {
    CountSplit(s.requests);
    if StaleCount(s) == cfg.n + 1 && !DropPlanned(s) {
      forall steps | ValidRun(cfg, s, steps) ensures Waiting(Run(cfg, s, steps), WaitUp) {
        AllStaleWaitsForever(cfg, s, steps);
      }
    } else {
      var steps := WaitUpCanProceed(cfg, s);
      assert exists steps :: ValidRun(cfg, s, steps) && !Waiting(Run(cfg, s, steps), WaitUp);
    }
  }
}
