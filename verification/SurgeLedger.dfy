/** Whole runs of one rotation engine against one MachineSet, with its tick split into discovery
    and write, crashes and failed writes in between, class edits, and other writers of the count. */
module SurgeLedger {
  import opened Text
  import opened RotationAnnotations
  import opened Requests
  import opened RotationPlan

  datatype World = World(
    ms: MachineSet,
    stamped: string,
    generation: string,
    strategy: Strategy,
    minHealthy: int,
    requests: seq<RequestStatus>,
    now: int,
    inflight: Option<Planned>,
    external: int,   // sum of all changes to the count made by other writers
    aborts: nat)     // aborts taken from wait-up

  datatype Planned = Planned(candidate: Candidate, action: Action)

  datatype Step =
    | Discover                                    // list, classify and plan
    | Commit                                      // the planned writes land
    | Drop                                        // crash, restart or failed write
    | EditClass(generation: string, strategy: Strategy, minHealthy: int)
    | ChangeRequests(requests: seq<RequestStatus>)  // the MachineRequestSet controller, stages, operators
    | EditCount(count: nat)                       // operator or autoscaler
    | EditLock(lock: Option<Lock>)                // half-finished teardowns, operators
    | Elapse(now: int)

  function Classify(reqs: seq<RequestStatus>, generation: string): seq<RequestStatus> {
    seq(|reqs|, i requires 0 <= i < |reqs| => reqs[i].(stale := reqs[i].generation != generation))
  }

  function Snapshot(w: World): Candidate {
    Candidate(w.stamped, w.generation, w.strategy, w.minHealthy, w.ms.count, w.ms.lock, w.ms.phase,
              Classify(w.requests, w.generation))
  }

  function Next(w: World, s: Step): World {
    match s
    case Discover => w.(inflight := Some(Planned(Snapshot(w), Plan(Snapshot(w), w.now, LOCK_TTL))))
    case Commit =>
      if w.inflight.None? then w
      else
        var Planned(c, a) := w.inflight.value;
        w.(ms := Execute(w.ms, c, a, w.now),
           stamped := if a.StampGeneration? then c.currentGeneration else w.stamped,
           inflight := None,
           aborts := if a.SurgeAborted? && InPhase(w.ms, WaitUp) then w.aborts + 1 else w.aborts)
    case Drop => w.(inflight := None)
    case EditClass(g, st, m) => w.(generation := g, strategy := st, minHealthy := m)
    case ChangeRequests(reqs) => w.(requests := reqs)
    case EditCount(n) =>
      if n < UINT32_LIMIT then w.(ms := w.ms.(count := n), external := w.external + n - w.ms.count) else w
    case EditLock(l) => w.(ms := w.ms.(lock := l))
    case Elapse(t) => w.(now := t)
  }

  function Run(w: World, steps: seq<Step>): World {
    if steps == [] then w else Next(Run(w, steps[..|steps| - 1]), steps[|steps| - 1])
  }

  predicate InPhase(ms: MachineSet, p: Phase) {
    ms.phase.Some? && ms.phase.value.phase == p
  }

  /** Nothing in flight and no surge phase: where every run starts. */
  predicate Idle(w: World) {
    w.inflight.None? && w.ms.phase.None? && w.ms.count < UINT32_LIMIT && w.external == 0 && w.aborts == 0
  }

  /** A planned decision always fits the phase it will be applied to, since only the engine writes phases. */
  predicate PhaseCoherent(w: World) {
    w.inflight.Some? ==>
      var Planned(c, a) := w.inflight.value;
      && c.phase == w.ms.phase
      && (a.SurgeUp? ==> w.ms.phase.None? && a.next.phase.WaitUp?)
      && (a.SurgeDown? ==> InPhase(w.ms, WaitUp) && a.next.phase.WaitDown?)
      && (a.SurgeCycleComplete? ==> InPhase(w.ms, WaitDown))
  }

  function Ledger(initial: int, w: World): int {
    initial + w.external + (if InPhase(w.ms, WaitUp) then 1 else 0) + w.aborts
  }

  predicate LedgerHolds(initial: int, w: World) {
    w.ms.count == Uint32(Ledger(initial, w))
  }

  lemma CommitLedger(initial: int, w: World)
    requires PhaseCoherent(w) && LedgerHolds(initial, w) && w.inflight.Some?
    ensures LedgerHolds(initial, Next(w, Commit))
  {
    var a := w.inflight.value.action;
    if a.SurgeUp? {
      Uint32Add(Ledger(initial, w), 1);
    } else if a.SurgeDown? {
      Uint32Add(Ledger(initial, w), -1);
    }
  }

  lemma CoherentStep(w: World, s: Step)
    requires PhaseCoherent(w)
    ensures PhaseCoherent(Next(w, s))
  {
    if s.Discover? {
      PlanFollowsPhases(Snapshot(w), w.now, LOCK_TTL);
    }
  }

  lemma LedgerStep(initial: int, w: World, s: Step)
    requires PhaseCoherent(w) && LedgerHolds(initial, w)
    ensures PhaseCoherent(Next(w, s)) && LedgerHolds(initial, Next(w, s))
  {
    CoherentStep(w, s);
    match s
    case Commit => if w.inflight.Some? { CommitLedger(initial, w); }
    case EditCount(n) => if n < UINT32_LIMIT { Uint32Add(Ledger(initial, w), n - w.ms.count); }
    case _ =>
  }

  /** In every run, with the count edited at any moment by anyone (between a plan and its write too),
      the live count is the initial count plus the external changes, plus one while waiting up, plus one
      for every cycle that was aborted while waiting up. The sum is kept in 32-bit arithmetic. */
  lemma {:induction false} SurgeLedgerInEveryRun(w0: World, steps: seq<Step>)
    requires Idle(w0)
    ensures var w := Run(w0, steps);
            && PhaseCoherent(w)
            && LedgerHolds(w0.ms.count, w)
            && (0 <= Ledger(w0.ms.count, w) < UINT32_LIMIT ==> w.ms.count == Ledger(w0.ms.count, w))
  {
    if steps == [] {
    } else {
      var w := Run(w0, steps[..|steps| - 1]);
      SurgeLedgerInEveryRun(w0, steps[..|steps| - 1]);
      LedgerStep(w0.ms.count, w, steps[|steps| - 1]);
    }
  }

  // ----- The engine as the only writer of the count

  ghost predicate SoleWriter(steps: seq<Step>) {
    forall i :: 0 <= i < |steps| ==> !steps[i].EditCount?
  }

  /** What the annotations promise about the count, and that no planned decision contradicts it. */
  predicate CrashSafe(n: nat, w: World) {
    && w.aborts == 0
    && (w.ms.phase.None? ==> w.ms.count == n)
    && (w.ms.phase.Some? ==> w.ms.phase.value.originalCount == n && w.ms.count == ExpectedCount(w.ms.phase.value))
    && (w.inflight.Some? ==>
          var Planned(c, a) := w.inflight.value;
          && c.machineCount == w.ms.count
          && !a.SurgeAborted?
          && (a.SurgeUp? ==> a.next.originalCount == n)
          && (a.SurgeDown? ==> a.next.originalCount == n))
  }

  lemma DiscoverIsCrashSafe(n: nat, w: World)
    requires CrashSafe(n, w)
    ensures CrashSafe(n, Next(w, Discover))
  {
    AbortIffDrift(Snapshot(w), w.now, LOCK_TTL);
  }

  lemma CommitIsCrashSafe(n: nat, w: World)
    requires n + 1 < UINT32_LIMIT && PhaseCoherent(w) && CrashSafe(n, w)
    ensures CrashSafe(n, Next(w, Commit))
  {
  }

  lemma CrashSafeStep(n: nat, w: World, s: Step)
    requires n + 1 < UINT32_LIMIT && PhaseCoherent(w) && CrashSafe(n, w) && !s.EditCount?
    ensures PhaseCoherent(Next(w, s)) && CrashSafe(n, Next(w, s))
  {
    CoherentStep(w, s);
    match s
    case Discover => DiscoverIsCrashSafe(n, w);
    case Commit => CommitIsCrashSafe(n, w);
    case _ =>
  }

  /** With no other writer of the count, wherever a run is cut (before, between or after any writes, with
      class and strategy edits at any point) the phase annotation and the count agree on the nominal count,
      and no abort is ever planned. */
  lemma {:induction false} CrashSafeCountInEveryRun(w0: World, steps: seq<Step>)
    requires Idle(w0) && w0.ms.count + 1 < UINT32_LIMIT && SoleWriter(steps)
    ensures var n := w0.ms.count; var w := Run(w0, steps);
            && (w.ms.phase.None? ==> w.ms.count == n)
            && (InPhase(w.ms, WaitUp) ==> w.ms.phase.value.originalCount == n && w.ms.count == n + 1)
            && (InPhase(w.ms, WaitDown) ==> w.ms.phase.value.originalCount == n && w.ms.count == n)
            && (w.inflight.Some? ==> !w.inflight.value.action.SurgeAborted?)
            && CrashSafe(n, w) && PhaseCoherent(w)
  {
    if steps == [] {
    } else {
      CrashSafeCountInEveryRun(w0, steps[..|steps| - 1]);
      CrashSafeStep(w0.ms.count, Run(w0, steps[..|steps| - 1]), steps[|steps| - 1]);
    }
  }

  lemma RunSnoc(w0: World, steps: seq<Step>, s: Step)
    ensures Run(w0, steps + [s]) == Next(Run(w0, steps), s)
  {
    assert (steps + [s])[..|steps|] == steps;
  }

  /** The class is stamped, its strategy is surge, nothing is locked or in flight, and a member is stale. */
  predicate ReadyToSurge(w: World) {
    && w.stamped == w.generation && w.strategy.Surge? && w.minHealthy == 0
    && w.inflight.None? && w.ms.phase.None? && w.ms.lock.None?
    && Count(Classify(w.requests, w.generation), IsStale) > 0
  }

  /** At the top of the 32-bit range a surge wraps the count to zero and the next plan aborts. */
  lemma TopOfRangeWraps(w: World)
    requires ReadyToSurge(w) && w.ms.count == UINT32_LIMIT - 1
    ensures var t := Next(Next(w, Discover), Commit);
            && InPhase(t.ms, WaitUp) && t.ms.count == 0
            && Plan(Snapshot(t), t.now, LOCK_TTL) == SurgeAborted(CountDriftWaitUp)
  {
    assert Plan(Snapshot(w), w.now, LOCK_TTL) == SurgeUp(SurgePhase(WaitUp, w.ms.count, Unix(w.now)));
  }

  lemma OneOutdated(r: RequestStatus, generation: string)
    requires r.generation != generation
    ensures Count(Classify([r], generation), IsStale) > 0
  {
    var classified := r.(stale := true);
    assert Classify([r], generation) == [classified];
    Single(classified, IsStale);
  }

  /** Edits of class, requests and lock that make any idle set ready to surge, without touching its count. */
  function Provocation(w: World): seq<Step> {
    [EditClass(w.stamped, Surge, 0), EditLock(None),
     ChangeRequests([RequestStatus([], w.stamped + ['x'], true, PROVISIONED, 0)])]
  }

  lemma RunThree(w: World, a: Step, b: Step, c: Step)
    ensures Run(w, [a, b, c]) == Next(Next(Next(w, a), b), c)
  {
    assert [a, b, c] == [] + [a] + [b] + [c];
    RunSnoc(w, [] + [a] + [b], c);
    RunSnoc(w, [] + [a], b);
    RunSnoc(w, [], a);
    hide Next;
  }

  lemma ProvocationReadies(w: World)
    requires w.inflight.None? && w.ms.phase.None?
    ensures var t := Run(w, Provocation(w)); ReadyToSurge(t) && t.ms.count == w.ms.count
  {
    var r := RequestStatus([], w.stamped + ['x'], true, PROVISIONED, 0);
    assert |r.generation| != |w.stamped|;
    OneOutdated(r, w.stamped);
    RunThree(w, EditClass(w.stamped, Surge, 0), EditLock(None), ChangeRequests([r]));
    hide Run, Classify, Count;
  }

  lemma ProvocationIsSole(w: World)
    ensures SoleWriter(Provocation(w) + [Discover] + [Commit])
  {
  }

  lemma WrappedIsUnsafe(n: nat, w: World)
    requires InPhase(w.ms, WaitUp) && w.ms.count == 0 && n + 1 >= UINT32_LIMIT
    ensures !CrashSafe(n, w)
  {
  }

  lemma TopOfRangeBreaks(w0: World) returns (steps: seq<Step>)
    requires Idle(w0) && w0.ms.count + 1 >= UINT32_LIMIT
    ensures SoleWriter(steps) && !CrashSafe(w0.ms.count, Run(w0, steps))
  {
    hide Run, Next, ReadyToSurge, Plan, Snapshot, Provocation, SoleWriter, CrashSafe, InPhase;
    var ready := Provocation(w0);
    ProvocationReadies(w0);
    TopOfRangeWraps(Run(w0, ready));
    RunSnoc(w0, ready, Discover);
    RunSnoc(w0, ready + [Discover], Commit);
    ProvocationIsSole(w0);
    steps := ready + [Discover] + [Commit];
    WrappedIsUnsafe(w0.ms.count, Run(w0, steps));
  }

  /** From every idle state, phase annotation and count agree in all sole-writer runs, cut anywhere, exactly
      when the nominal count leaves room for one more in its 32-bit field. */
  lemma CrashSafeIff(w0: World)
    requires Idle(w0)
    ensures (forall steps :: SoleWriter(steps) ==> CrashSafe(w0.ms.count, Run(w0, steps)))
            <==> w0.ms.count + 1 < UINT32_LIMIT
  {
    hide Run, Next, Plan, CrashSafe, SoleWriter;
    if w0.ms.count + 1 < UINT32_LIMIT {
      forall steps | SoleWriter(steps) ensures CrashSafe(w0.ms.count, Run(w0, steps)) {
        CrashSafeCountInEveryRun(w0, steps);
      }
    } else {
      var steps := TopOfRangeBreaks(w0);
    }
  }

  /** A stamp that lands is not planned again until the class's generation changes. */
  lemma StampedOnce(w: World, g: string, st: Strategy, m: int)
    requires w.inflight.Some? && w.inflight.value.action.StampGeneration?
    ensures var t := Next(Next(Next(w, Commit), EditClass(g, st, m)), Discover);
            t.inflight.value.action.StampGeneration? <==> g != w.inflight.value.candidate.currentGeneration
  {
  }
}
