/** Timed runs of surge cycles against the autoscaler: scaling never lands inside a cycle exactly when ticks
    are frequent enough for the lock never to look expired, and nobody switches the class to the in-place
    strategy in mid-cycle. Times are in nanoseconds. */
module RotationExclusion {
  import opened Text
  import opened RotationAnnotations
  import opened Requests
  import opened RotationPlan
  import Autoscaler

  /** A tick's write lands within `gap` of the clock reading of the previous tick, and at most `stamps`
      ticks in a row only stamp the class (those do not refresh the lock). `midCycleSwitch` says whether the
      class may be switched to the in-place strategy while a cycle is under way. */
  datatype Conduct = Conduct(gap: nat, stamps: nat, midCycleSwitch: bool)

  datatype World = World(
    ms: MachineSet,
    stamped: string,
    generation: string,
    strategy: Strategy,
    minHealthy: int,
    requests: seq<RequestStatus>,
    now: int,
    last: int,               // clock reading of the latest tick
    stampsInRow: nat,
    refreshed: int,          // clock reading of the latest lock write
    inflight: Option<Planned>,
    scaledInCycle: nat)      // autoscaler writes that landed while a surge phase was present

  datatype Planned = Planned(candidate: Candidate, action: Action)

  datatype Step =
    | Discover
    | Commit(reading: int)
    | Drop                    // crash or failed write: another tick's write must still land in time
    | EditClass(generation: string, strategy: Strategy, minHealthy: int)
    | ChangeRequests(requests: seq<RequestStatus>)
    | EditCount(count: nat)
    | Scale(group: Autoscaler.NodeGroup, delta: int)   // by a replica that discovered the group at any time
    | Elapse(now: int)

  predicate ValidTime(t: int) {
    t >= 0 && RepresentableSeconds(Unix(t))
  }

  /** The lock annotation as the autoscaler's update callback finds it. */
  function Annotation(w: World): Option<string> {
    if w.ms.lock.Some? then Some(FormatLock(w.ms.lock.value)) else None
  }

  predicate Locked(w: World) {
    Autoscaler.Paused(Annotation(w), w.now)
  }

  function Snapshot(w: World): Candidate {
    Candidate(w.stamped, w.generation, w.strategy, w.minHealthy, w.ms.count, w.ms.lock, w.ms.phase, w.requests)
  }

  /** A surge phase is present, or the write that starts one is on its way. */
  predicate UnderWay(w: World) {
    w.ms.phase.Some? || (w.inflight.Some? && w.inflight.value.action.SurgeUp?)
  }

  /** A replica adds one member to a group that it found at this size, unlocked and with room for one more. */
  function OneMore(count: nat): Step {
    Scale(Autoscaler.NodeGroup(count, Some(Autoscaler.Config(0, count + 1))), 1)
  }

  predicate Enabled(p: Conduct, w: World, s: Step) {
    match s
    case Discover => w.inflight.None?
    case Commit(t) =>
      && w.inflight.Some?
      && w.last <= t <= w.now
      && (w.inflight.value.action.StampGeneration? ==> w.stampsInRow < p.stamps)
      && (w.inflight.value.action.SurgeDown? ==> w.ms.count > 0)
    case Drop => w.inflight.Some?
    case EditClass(g, st, _) => ':' !in g && (st.InPlace? && UnderWay(w) && !w.strategy.InPlace? ==> p.midCycleSwitch)
    case Elapse(t) => w.now <= t <= w.last + p.gap && ValidTime(t)
    case _ => true
  }

  function Next(p: Conduct, w: World, s: Step): World
    requires Enabled(p, w, s)
  {
    match s
    case Discover => w.(inflight := Some(Planned(Snapshot(w), Plan(Snapshot(w), w.now, LOCK_TTL))))
    case Commit(t) =>
      var Planned(c, a) := w.inflight.value;
      var ms := Execute(w.ms, c, a, t);
      w.(ms := ms, inflight := None, last := t,
         stamped := if a.StampGeneration? then c.currentGeneration else w.stamped,
         stampsInRow := if a.StampGeneration? then w.stampsInRow + 1 else 0,
         refreshed := if a.StampGeneration? then w.refreshed else t)
    case Drop => w.(inflight := None)
    case EditClass(g, st, m) => w.(generation := g, strategy := st, minHealthy := m)
    case ChangeRequests(reqs) => w.(requests := reqs)
    case EditCount(n) => w.(ms := w.ms.(count := n))
    case Scale(group, delta) =>
      var result := Autoscaler.Increase(w.ms.count, Annotation(w), group, delta, w.now);
      if !result.Scaled? then w
      else w.(ms := w.ms.(count := result.size),
              scaledInCycle := if w.ms.phase.Some? then w.scaledInCycle + 1 else w.scaledInCycle)
    case Elapse(t) => w.(now := t)
  }

  ghost predicate ValidRun(p: Conduct, w: World, steps: seq<Step>)
    decreases |steps|
  {
    steps == [] || (Enabled(p, w, steps[0]) && ValidRun(p, Next(p, w, steps[0]), steps[1..]))
  }

  ghost function Run(p: Conduct, w: World, steps: seq<Step>): World
    requires ValidRun(p, w, steps)
    decreases |steps|
  {
    if steps == [] then w else Run(p, Next(p, w, steps[0]), steps[1..])
  }

  /** No cycle in flight, and a tick just done. */
  predicate Start(w: World) {
    && w.ms.phase.None? && w.inflight.None? && w.scaledInCycle == 0 && w.stampsInRow == 0
    && ':' !in w.generation && ValidTime(w.now) && w.last == w.now
  }

  /** Ticks are frequent enough for the lock's TTL, one second being lost to truncation. */
  predicate FrequentEnough(p: Conduct) {
    (p.stamps + 1) * p.gap + 1_000_000_000 <= 300_000_000_000
  }

  predicate Excludes(p: Conduct) {
    FrequentEnough(p) && !p.midCycleSwitch
  }

  // ----- Frequent ticks exclude scaling

  predicate Inv(p: Conduct, w: World) {
    && ':' !in w.generation && ValidTime(w.now) && 0 <= w.last <= w.now <= w.last + p.gap
    && w.stampsInRow <= p.stamps
    && (w.inflight.Some? ==>
          var Planned(c, a) := w.inflight.value;
          && c.phase == w.ms.phase && ':' !in c.currentGeneration
          && (if c.phase.Some? then !a.TeardownStale? && !a.LockedByPriorStep? else !a.SurgeDown?))
    && (UnderWay(w) ==> !w.strategy.InPlace?)
    && (w.ms.phase.Some? ==>
          && w.ms.lock.Some? && ':' !in w.ms.lock.value.generation
          && 0 <= w.refreshed <= w.last <= w.refreshed + w.stampsInRow * p.gap
          && w.ms.lock.value.secs == Unix(w.refreshed))
  }

  lemma StartIsInv(p: Conduct, w: World)
    requires Start(w)
    ensures Inv(p, w)
  {
  }

  lemma EarlierSecondsAreRepresentable(t: int, now: int)
    requires 0 <= t <= now && ValidTime(now)
    ensures ValidTime(t)
  {
  }

  lemma InvCommit(p: Conduct, w: World, t: int)
    requires !p.midCycleSwitch && Inv(p, w) && Enabled(p, w, Commit(t))
    ensures Inv(p, Next(p, w, Commit(t)))
  {
    assert (w.stampsInRow + 1) * p.gap == w.stampsInRow * p.gap + p.gap;
  }

  lemma InvStep(p: Conduct, w: World, s: Step)
    requires !p.midCycleSwitch && Inv(p, w) && Enabled(p, w, s)
    ensures Inv(p, Next(p, w, s))
  {
    if s.Commit? {
      InvCommit(p, w, s.reading);
    }
  }

  /** Inside a cycle the autoscaler always sees a live lock. */
  lemma CycleIsLocked(p: Conduct, w: World)
    requires Inv(p, w) && FrequentEnough(p) && w.ms.phase.Some?
    ensures Locked(w)
  {
    RefreshIsRecent(p, w);
    var l := w.ms.lock.value;
    EarlierSecondsAreRepresentable(w.refreshed, w.now);
    WrittenLockVisibility(l.generation, w.refreshed, w.now, LOCK_TTL);
    assert l == Lock(l.generation, Unix(w.refreshed));
  }

  lemma RefreshIsRecent(p: Conduct, w: World)
    requires Inv(p, w) && FrequentEnough(p) && w.ms.phase.Some?
    ensures w.now - Nanos(Unix(w.refreshed)) < LOCK_TTL
  {
    MulLeq(w.stampsInRow, p.stamps, p.gap);
    assert (p.stamps + 1) * p.gap == p.stamps * p.gap + p.gap;
  }

  lemma MulLeq(a: nat, b: nat, c: nat)
    requires a <= b
    ensures a * c <= b * c
  {
  }

  lemma {:induction false} NoScalingInRun(p: Conduct, w: World, steps: seq<Step>)
    requires Inv(p, w) && Excludes(p) && ValidRun(p, w, steps)
    ensures Run(p, w, steps).scaledInCycle == w.scaledInCycle && Inv(p, Run(p, w, steps))
    decreases |steps|
  {
    if steps == [] {
    } else {
      if steps[0].Scale? && w.ms.phase.Some? {
        CycleIsLocked(p, w);
      }
      InvStep(p, w, steps[0]);
      NoScalingInRun(p, Next(p, w, steps[0]), steps[1..]);
    }
  }

  // ----- Rarer ticks do not

  lemma RunCons(p: Conduct, w: World, s: Step, rest: seq<Step>)
    requires Enabled(p, w, s) && ValidRun(p, Next(p, w, s), rest)
    ensures ValidRun(p, w, [s] + rest) && Run(p, w, [s] + rest) == Run(p, Next(p, w, s), rest)
  {
    assert ([s] + rest)[1..] == rest;
  }

  /** The age at which a lock written in the last nanosecond of a second stops being live. */
  const EXPIRY: int := LOCK_TTL - (SECOND - 1)

  function Reached(p: Conduct, k: nat): nat {
    if Blocks(k, p.gap) < EXPIRY then Blocks(k, p.gap) else EXPIRY
  }

  /** In wait-up with the lock written in the last nanosecond of second 0, after k ticks that only stamped. */
  predicate Stalled(p: Conduct, w: World, k: nat) {
    && w.ms == MachineSet(2, w.ms.lock, w.ms.phase) && w.ms.phase.Some?
    && w.ms.lock.Some? && ':' !in w.ms.lock.value.generation && w.ms.lock.value.secs == 0
    && w.inflight.None? && w.stampsInRow == k && w.stamped == w.generation && ':' !in w.generation
    && w.now == w.last == SECOND - 1 + Reached(p, k)
    && w.scaledInCycle == 0
  }

  lemma ReachedStep(p: Conduct, k: nat)
    ensures Reached(p, k) <= Reached(p, k + 1) <= Reached(p, k) + p.gap
  {
  }

  lemma ExpiryIsReached(p: Conduct)
    requires !FrequentEnough(p)
    ensures Reached(p, p.stamps + 1) == EXPIRY
  {
    BlocksIsProduct(p.stamps + 1, p.gap);
  }

  lemma EarlyTimesAreValid(t: int)
    requires 0 <= t <= LOCK_TTL
    ensures ValidTime(t)
  {
  }

  lemma ExpiredLockLetsScalingIn(p: Conduct, w: World) returns (steps: seq<Step>)
    requires !FrequentEnough(p) && Stalled(p, w, p.stamps)
    ensures ValidRun(p, w, steps) && Run(p, w, steps).scaledInCycle == 1
  {
    ReachedStep(p, p.stamps);
    ExpiryIsReached(p);
    EarlyTimesAreValid(LOCK_TTL);
    EarlyTimesAreValid(SECOND - 1);
    var w1 := Next(p, w, Elapse(LOCK_TTL));
    WrittenLockVisibility(w.ms.lock.value.generation, SECOND - 1, LOCK_TTL, LOCK_TTL);
    assert Unix(SECOND - 1) == 0;
    assert w.ms.lock.value == Lock(w.ms.lock.value.generation, 0);
    assert !Locked(w1);
    RunCons(p, w1, OneMore(2), []);
    steps := [Elapse(LOCK_TTL)] + ([OneMore(2)] + []);
    RunCons(p, w, Elapse(LOCK_TTL), [OneMore(2)] + []);
  }

  /** One more class edit and the tick that only stamps it. */
  lemma StampOnce(p: Conduct, w: World, k: nat) returns (steps: seq<Step>, w': World)
    requires Stalled(p, w, k) && k < p.stamps
    ensures |steps| == 4 && Stalled(p, w', k + 1)
    ensures forall rest :: ValidRun(p, w', rest) ==>
              ValidRun(p, w, steps + rest) && Run(p, w, steps + rest) == Run(p, w', rest)
  {
    ReachedStep(p, k);
    var t := SECOND - 1 + Reached(p, k + 1);
    EarlyTimesAreValid(t);
    var g := w.stamped + "x";
    assert |g| != |w.stamped|;
    var s1, s2, s3, s4 := EditClass(g, w.strategy, w.minHealthy), Discover, Elapse(t), Commit(t);
    var w1 := Next(p, w, s1);
    var w2 := Next(p, w1, s2);
    var w3 := Next(p, w2, s3);
    w' := Next(p, w3, s4);
    steps := [s1, s2, s3, s4];
    forall rest | ValidRun(p, w', rest)
      ensures ValidRun(p, w, steps + rest) && Run(p, w, steps + rest) == Run(p, w', rest)
    {
      RunCons(p, w3, s4, rest);
      RunCons(p, w2, s3, [s4] + rest);
      RunCons(p, w1, s2, [s3] + ([s4] + rest));
      RunCons(p, w, s1, [s2] + ([s3] + ([s4] + rest)));
      assert steps + rest == [s1] + ([s2] + ([s3] + ([s4] + rest)));
    }
  }

  lemma {:induction false} StallUntilExpiry(p: Conduct, w: World, k: nat) returns (steps: seq<Step>)
    requires !FrequentEnough(p) && k <= p.stamps && Stalled(p, w, k)
    ensures ValidRun(p, w, steps) && Run(p, w, steps).scaledInCycle == 1
    decreases p.stamps - k
  {
    if k == p.stamps {
      steps := ExpiredLockLetsScalingIn(p, w);
    } else {
      var first, w' := StampOnce(p, w, k);
      var rest := StallUntilExpiry(p, w', k + 1);
      steps := first + rest;
    }
  }

  /** One stale member and a clock at the last nanosecond of second 0. */
  function Beginning(): World {
    World(MachineSet(1, None, None), "g", "g", Surge, 0, [RequestStatus("r", "old", true, PROVISIONED, 0)],
          SECOND - 1, SECOND - 1, 0, 0, None, 0)
  }

  lemma BeginningSurgesUp()
    ensures Start(Beginning())
    ensures Plan(Snapshot(Beginning()), SECOND - 1, LOCK_TTL) == SurgeUp(SurgePhase(WaitUp, 1, 0))
  {
    EarlyTimesAreValid(SECOND - 1);
    var r := Beginning().requests[0];
    Single(r, IsFreshProvisioned);
    Single(r, IsProvisioned);
    assert Beginning().requests == [r];
  }

  /** The state after the first surge up. */
  function SurgedUp(): World {
    Beginning().(ms := MachineSet(2, Some(Lock("g", 0)), Some(SurgePhase(WaitUp, 1, 0))), refreshed := SECOND - 1)
  }

  lemma SurgeUpStalls(p: Conduct)
    ensures Stalled(p, SurgedUp(), 0)
    ensures Enabled(p, Beginning(), Discover)
    ensures var w1 := Next(p, Beginning(), Discover);
            Enabled(p, w1, Commit(SECOND - 1)) && Next(p, w1, Commit(SECOND - 1)) == SurgedUp()
  {
    BeginningSurgesUp();
    hide Plan;
  }

  lemma FromTheBeginning(p: Conduct, rest: seq<Step>) returns (steps: seq<Step>)
    requires ValidRun(p, SurgedUp(), rest)
    ensures ValidRun(p, Beginning(), steps) && Run(p, Beginning(), steps) == Run(p, SurgedUp(), rest)
  {
    SurgeUpStalls(p);
    var w1 := Next(p, Beginning(), Discover);
    RunCons(p, w1, Commit(SECOND - 1), rest);
    RunCons(p, Beginning(), Discover, [Commit(SECOND - 1)] + rest);
    steps := [Discover] + ([Commit(SECOND - 1)] + rest);
  }

  lemma ScalingCanLandInCycle(p: Conduct) returns (steps: seq<Step>)
    requires !FrequentEnough(p)
    ensures ValidRun(p, Beginning(), steps) && Run(p, Beginning(), steps).scaledInCycle == 1
  {
    SurgeUpStalls(p);
    var rest := StallUntilExpiry(p, SurgedUp(), 0);
    steps := FromTheBeginning(p, rest);
  }

  // ----- A switch to the in-place strategy does not

  /** A cycle is under way on a set that the in-place strategy would take a member from. */
  predicate Switchable(w: World) {
    && w.ms.phase.Some? && w.inflight.None? && !w.strategy.InPlace?
    && w.stamped == w.generation && ':' !in w.generation
    && (exists r :: r in w.requests && r.stale)
    && Count(w.requests, IsProvisioning) == 0
    && Count(w.requests, IsFreshProvisioned) >= w.minHealthy
    && w.last <= w.now
  }

  function SwitchRun(w: World): seq<Step> {
    [EditClass(w.generation, InPlace, w.minHealthy)] + ([Discover] + ([Commit(w.now)] + ([OneMore(w.ms.count)] + [])))
  }

  /** The in-place plan lets the cycle's own lock through, and its teardown then removes that lock but not the
      surge phase: from every such state an accepted scale-up lands inside the cycle at once. */
  lemma SwitchLetsScalingIn(p: Conduct, w: World)
    requires p.midCycleSwitch && Switchable(w)
    ensures ValidRun(p, w, SwitchRun(w)) && Run(p, w, SwitchRun(w)).scaledInCycle == w.scaledInCycle + 1
  {
    var edit, commit, scale := EditClass(w.generation, InPlace, w.minHealthy), Commit(w.now), OneMore(w.ms.count);
    var w1 := Next(p, w, edit);
    StaleExistsIff(w.requests);
    assert Plan(Snapshot(w1), w.now, LOCK_TTL).TeardownStale?;
    var w2 := Next(p, w1, Discover);
    var w3 := Next(p, w2, commit);
    RunCons(p, w3, scale, []);
    RunCons(p, w2, commit, [scale] + []);
    RunCons(p, w1, Discover, [commit] + ([scale] + []));
    RunCons(p, w, edit, [Discover] + ([commit] + ([scale] + [])));
  }

  lemma SwitchFromTheBeginning(p: Conduct) returns (steps: seq<Step>)
    requires p.midCycleSwitch
    ensures ValidRun(p, Beginning(), steps) && Run(p, Beginning(), steps).scaledInCycle == 1
  {
    SurgedUpIsSwitchable();
    SwitchLetsScalingIn(p, SurgedUp());
    steps := FromTheBeginning(p, SwitchRun(SurgedUp()));
  }

  lemma SurgedUpIsSwitchable()
    ensures Switchable(SurgedUp()) && SurgedUp().scaledInCycle == 0
  {
    var r := Beginning().requests[0];
    assert SurgedUp().requests == [r] && r in SurgedUp().requests && r.stale;
    Single(r, IsProvisioning);
  }

  /** No autoscaler write lands while a surge cycle is under way, in any run, exactly when (stamps + 1) ticks and
      one second fit into the five minutes the lock is honoured, and the class is not switched to the in-place
      strategy in mid-cycle. */
  lemma RotationExcludesScalingIff(p: Conduct)
    ensures (forall w0, steps :: Start(w0) && ValidRun(p, w0, steps) ==> Run(p, w0, steps).scaledInCycle == 0)
            <==> Excludes(p)
  {
    if Excludes(p) {
      forall w0, steps | Start(w0) && ValidRun(p, w0, steps) ensures Run(p, w0, steps).scaledInCycle == 0 {
        StartIsInv(p, w0);
        NoScalingInRun(p, w0, steps);
      }
    } else {
      BeginningSurgesUp();
      var steps: seq<Step>;
      if FrequentEnough(p) {
        steps := SwitchFromTheBeginning(p);
      } else {
        steps := ScalingCanLandInCycle(p);
      }
      assert Run(p, Beginning(), steps).scaledInCycle != 0;
    }
  }

  /** And then the autoscaler sees a live lock at every moment of every cycle. */
  lemma CycleIsAlwaysLocked(p: Conduct, w0: World, steps: seq<Step>)
    requires Excludes(p) && Start(w0) && ValidRun(p, w0, steps)
    ensures Run(p, w0, steps).ms.phase.Some? ==> Locked(Run(p, w0, steps))
  {
    StartIsInv(p, w0);
    NoScalingInRun(p, w0, steps);
    if Run(p, w0, steps).ms.phase.Some? {
      CycleIsLocked(p, Run(p, w0, steps));
    }
  }
}
