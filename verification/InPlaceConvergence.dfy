/** In-place rotation under a fixed, stamped generation and with no other writer. A tick discovers first and then
    writes the lock, destroys its victim and releases the lock, and may be cut off before each of these;
    the members go on in between. Exactly one teardown per stale member, no fresh member ever destroyed,
    and exactly when rotation can start at all. */
module InPlaceConvergence {
  import opened Text
  import opened RotationAnnotations
  import opened Requests
  import opened RotationPlan

  datatype Config = Config(n: nat, generation: string, minHealthy: int)

  datatype Progress = Planned | LockHeld | Destroyed

  datatype Teardown = Teardown(target: string, at: Progress)

  datatype State = State(
    requests: seq<RequestStatus>,
    now: int,
    lock: Option<Lock>,
    inflight: Option<Teardown>,
    teardowns: nat)

  datatype Step =
    | Discover
    | WriteLock
    | Destroy
    | ReleaseLock
    | Abandon                        // crash, restart or failed write: a lock that was written stays
    | Add(request: RequestStatus)
    | SetStage(member: nat, stage: Stage)
    | Elapse(now: int)

  function View(cfg: Config, s: State): Candidate {
    Candidate(cfg.generation, cfg.generation, InPlace, cfg.minHealthy, cfg.n, s.lock, None, s.requests)
  }

  function Decision(cfg: Config, s: State): Action {
    Plan(View(cfg, s), s.now, LOCK_TTL)
  }

  /** The position of the request with the given ID, or the length of the list. */
  function Position(reqs: seq<RequestStatus>, id: string): (i: nat)
    ensures i <= |reqs| && (i < |reqs| ==> reqs[i].id == id)
    ensures forall j :: 0 <= j < i ==> reqs[j].id != id
  {
    if reqs == [] || reqs[0].id == id then 0 else 1 + Position(reqs[1..], id)
  }

  /** Destroying the request with the given ID. */
  function Without(reqs: seq<RequestStatus>, id: string): seq<RequestStatus> {
    var i := Position(reqs, id);
    if i < |reqs| then reqs[..i] + reqs[i + 1..] else reqs
  }

  /** A teardown has been planned and its target not yet destroyed. */
  predicate Pending(s: State) {
    s.inflight.Some? && !s.inflight.value.at.Destroyed?
  }

  ghost predicate Enabled(cfg: Config, s: State, step: Step) {
    match step
    case Discover => s.inflight.None?
    case WriteLock => s.inflight.Some? && s.inflight.value.at.Planned?
    case Destroy => s.inflight.Some? && s.inflight.value.at.LockHeld?
    case ReleaseLock => s.inflight.Some? && s.inflight.value.at.Destroyed?
    case Abandon => s.inflight.Some?
    case Add(r) =>
      |s.requests| < cfg.n && !r.stale
      && forall i :: 0 <= i < |s.requests| ==> Leq(s.requests[i], r) && s.requests[i].id != r.id
    case SetStage(i, st) => i < |s.requests| && s.requests[i].stage != PROVISIONED
    case Elapse(_) => true
  }

  ghost function Next(cfg: Config, s: State, step: Step): State
    requires Enabled(cfg, s, step)
  {
    match step
    case Discover =>
      var a := Decision(cfg, s);
      s.(inflight := if a.TeardownStale? then Some(Teardown(a.target, Planned)) else None)
    case WriteLock =>
      s.(lock := Some(Lock(cfg.generation, Unix(s.now))), inflight := Some(s.inflight.value.(at := LockHeld)))
    case Destroy =>
      s.(requests := Without(s.requests, s.inflight.value.target), teardowns := s.teardowns + 1,
         inflight := Some(s.inflight.value.(at := Destroyed)))
    case ReleaseLock => s.(lock := None, inflight := None)
    case Abandon => s.(inflight := None)
    case Add(r) => s.(requests := s.requests + [r])
    case SetStage(i, st) => s.(requests := s.requests[i := s.requests[i].(stage := st)])
    case Elapse(t) => s.(now := t)
  }

  ghost predicate ValidRun(cfg: Config, s: State, steps: seq<Step>)
    decreases |steps|
  {
    steps == [] || (Enabled(cfg, s, steps[0]) && ValidRun(cfg, Next(cfg, s, steps[0]), steps[1..]))
  }

  ghost function Run(cfg: Config, s: State, steps: seq<Step>): State
    requires ValidRun(cfg, s, steps)
    decreases |steps|
  {
    if steps == [] then s else Run(cfg, Next(cfg, s, steps[0]), steps[1..])
  }

  function StaleCount(s: State): nat { Count(s.requests, IsStale) }

  function Fresh(s: State): nat { Count(s.requests, IsFreshProvisioned) }

  /** The first stale member of the listing has this ID. */
  predicate IsVictim(reqs: seq<RequestStatus>, id: string) {
    var i := Position(reqs, id);
    i < |reqs| && reqs[i].stale && forall j :: 0 <= j < i ==> !reqs[j].stale
  }

  /** Listed oldest first under distinct IDs, never more members than the nominal count; and what was planned
      is still right. */
  ghost predicate Shape(cfg: Config, s: State) {
    && Sorted(s.requests) && DistinctIds(s.requests) && |s.requests| <= cfg.n
    && (Pending(s) ==> IsVictim(s.requests, s.inflight.value.target) && Fresh(s) >= cfg.minHealthy)
  }

  lemma {:induction false} StaleHeadIsFirst(reqs: seq<RequestStatus>) returns (i: nat)
    requires Stale(reqs) != []
    ensures i < |reqs| && reqs[i] == Stale(reqs)[0] && reqs[i].stale && forall j :: 0 <= j < i ==> !reqs[j].stale
  {
    var last := |reqs| - 1;
    if Stale(reqs[..last]) != [] {
      i := StaleHeadIsFirst(reqs[..last]);
    } else {
      i := last;
      forall j | 0 <= j < last ensures !reqs[j].stale {
        StaleExistsIff(reqs[..last]);
        assert reqs[..last][j] == reqs[j] && reqs[j] in reqs[..last];
      }
    }
  }

  lemma PlannedIsVictim(cfg: Config, s: State)
    requires Shape(cfg, s) && Decision(cfg, s).TeardownStale?
    ensures IsVictim(s.requests, Decision(cfg, s).target) && Fresh(s) >= cfg.minHealthy
  {
    var i := StaleHeadIsFirst(s.requests);
  }

  lemma RemovalKeepsOthers(reqs: seq<RequestStatus>, i: nat)
    requires i < |reqs|
    ensures var rest := reqs[..i] + reqs[i + 1..];
            && (Sorted(reqs) ==> Sorted(rest))
            && (DistinctIds(reqs) ==> DistinctIds(rest))
            && (forall r :: r in reqs && r != reqs[i] ==> r in rest)
  {
    var rest := reqs[..i] + reqs[i + 1..];
    forall r | r in reqs && r != reqs[i] ensures r in rest {
      var j :| 0 <= j < |reqs| && reqs[j] == r;
      assert rest[if j < i then j else j - 1] == r;
    }
  }

  /** What a destroy does: it removes one stale member and nothing else. */
  lemma DestroyRemovesOneStale(cfg: Config, s: State)
    requires Shape(cfg, s) && Enabled(cfg, s, Destroy)
    ensures var t := Next(cfg, s, Destroy);
            && Shape(cfg, t) && |t.requests| == |s.requests| - 1
            && StaleCount(t) == StaleCount(s) - 1
            && Fresh(t) == Fresh(s)
            && |t.requests| - Count(t.requests, IsProvisioned) <= |s.requests| - Count(s.requests, IsProvisioned)
            && KeepsFresh(s.requests, t.requests)
  {
    var i := Position(s.requests, s.inflight.value.target);
    RemovalKeepsOthers(s.requests, i);
    CountRemove(s.requests, i, IsStale);
    CountRemove(s.requests, i, IsFreshProvisioned);
    CountRemove(s.requests, i, IsProvisioned);
  }

  /** Every fresh member is still there, under its ID and still fresh. */
  ghost predicate KeepsFresh(before: seq<RequestStatus>, after: seq<RequestStatus>) {
    forall r :: r in before && !r.stale ==> exists q :: q in after && q.id == r.id && !q.stale
  }

  lemma KeepsFreshTransitive(a: seq<RequestStatus>, b: seq<RequestStatus>, c: seq<RequestStatus>)
    requires KeepsFresh(a, b) && KeepsFresh(b, c)
    ensures KeepsFresh(a, c)
  {
    forall r | r in a && !r.stale ensures exists q :: q in c && q.id == r.id && !q.stale {
      var q :| q in b && q.id == r.id && !q.stale;
    }
  }

  lemma UpdateKeepsFresh(reqs: seq<RequestStatus>, i: nat, st: Stage)
    requires i < |reqs|
    ensures KeepsFresh(reqs, reqs[i := reqs[i].(stage := st)])
  {
    var t := reqs[i := reqs[i].(stage := st)];
    forall r | r in reqs && !r.stale ensures exists q :: q in t && q.id == r.id && !q.stale {
      var j :| 0 <= j < |reqs| && reqs[j] == r;
      assert t[j] in t;
    }
  }

  lemma AppendKeepsVictim(reqs: seq<RequestStatus>, r: RequestStatus, id: string)
    requires IsVictim(reqs, id)
    ensures IsVictim(reqs + [r], id)
  {
    var i, j := Position(reqs, id), Position(reqs + [r], id);
    assert (reqs + [r])[i].id == id;
    assert i == j;
  }

  lemma UpdateKeepsVictim(reqs: seq<RequestStatus>, k: nat, st: Stage, id: string)
    requires IsVictim(reqs, id) && k < |reqs|
    ensures IsVictim(reqs[k := reqs[k].(stage := st)], id)
  {
    var after := reqs[k := reqs[k].(stage := st)];
    var i, j := Position(reqs, id), Position(after, id);
    assert forall m :: 0 <= m < |reqs| ==> after[m].id == reqs[m].id && after[m].stale == reqs[m].stale;
    assert i == j;
  }

  lemma UpdateKeepsOrder(reqs: seq<RequestStatus>, k: nat, st: Stage)
    requires Sorted(reqs) && DistinctIds(reqs) && k < |reqs|
    ensures Sorted(reqs[k := reqs[k].(stage := st)]) && DistinctIds(reqs[k := reqs[k].(stage := st)])
  {
    var after := reqs[k := reqs[k].(stage := st)];
    assert forall m :: 0 <= m < |reqs| ==> after[m].id == reqs[m].id && after[m].createdAt == reqs[m].createdAt;
  }

  lemma AddKeepsShape(cfg: Config, s: State, r: RequestStatus)
    requires Shape(cfg, s) && Enabled(cfg, s, Add(r))
    ensures var t := Next(cfg, s, Add(r));
            Shape(cfg, t) && Fresh(t) >= Fresh(s) && StaleCount(t) == StaleCount(s)
                && KeepsFresh(s.requests, t.requests)
  {
    CountAppend(s.requests, r, IsStale);
    CountAppend(s.requests, r, IsFreshProvisioned);
    if Pending(s) {
      AppendKeepsVictim(s.requests, r, s.inflight.value.target);
    }
    forall q | q in s.requests && !q.stale ensures exists p :: p in s.requests + [r] && p.id == q.id && !p.stale {
      assert q in s.requests + [r];
    }
  }

  lemma StageKeepsShape(cfg: Config, s: State, i: nat, st: Stage)
    requires Shape(cfg, s) && Enabled(cfg, s, SetStage(i, st))
    ensures var t := Next(cfg, s, SetStage(i, st));
            Shape(cfg, t) && Fresh(t) >= Fresh(s) && StaleCount(t) == StaleCount(s)
                && KeepsFresh(s.requests, t.requests)
  {
    var r := s.requests[i].(stage := st);
    UpdateKeepsOrder(s.requests, i, st);
    CountUpdate(s.requests, i, r, IsStale);
    CountUpdate(s.requests, i, r, IsFreshProvisioned);
    if Pending(s) {
      UpdateKeepsVictim(s.requests, i, st, s.inflight.value.target);
    }
    UpdateKeepsFresh(s.requests, i, st);
    hide Sorted, DistinctIds, IsVictim, KeepsFresh;
  }

  lemma SameKeepsFresh(reqs: seq<RequestStatus>)
    ensures KeepsFresh(reqs, reqs)
  {
  }

  lemma ShapeStep(cfg: Config, s: State, step: Step)
    requires Shape(cfg, s) && Enabled(cfg, s, step)
    ensures var t := Next(cfg, s, step);
            && Shape(cfg, t) && Fresh(t) >= Fresh(s)
            && t.teardowns + StaleCount(t) == s.teardowns + StaleCount(s)
            && KeepsFresh(s.requests, t.requests)
  {
    SameKeepsFresh(s.requests);
    match step
    case Discover => if Decision(cfg, s).TeardownStale? { PlannedIsVictim(cfg, s); }
    case Destroy => DestroyRemovesOneStale(cfg, s);
    case Add(r) => AddKeepsShape(cfg, s, r);
    case SetStage(i, st) => StageKeepsShape(cfg, s, i, st);
    case _ =>
  }

  /** No run destroys a fresh member, and teardowns and remaining stale members always add up. */
  lemma {:induction false} FreshSurvivesEveryRun(cfg: Config, s: State, steps: seq<Step>)
    requires Shape(cfg, s) && ValidRun(cfg, s, steps)
    ensures var t := Run(cfg, s, steps);
            && Shape(cfg, t) && Fresh(t) >= Fresh(s)
            && t.teardowns + StaleCount(t) == s.teardowns + StaleCount(s)
            && KeepsFresh(s.requests, t.requests)
    decreases |steps|
  {
    SameKeepsFresh(s.requests);
    if steps == [] {
    } else {
      var next := Next(cfg, s, steps[0]);
      ShapeStep(cfg, s, steps[0]);
      FreshSurvivesEveryRun(cfg, next, steps[1..]);
      KeepsFreshTransitive(s.requests, next.requests, Run(cfg, next, steps[1..]).requests);
    }
  }

  lemma VictimIsOldest(reqs: seq<RequestStatus>, id: string) returns (v: RequestStatus)
    requires Sorted(reqs) && IsVictim(reqs, id)
    ensures v in reqs && v.id == id && v.stale && forall r :: r in reqs && r.stale ==> Leq(v, r)
  {
    var i := Position(reqs, id);
    v := reqs[i];
    LeqTotal(v, v);
    forall r | r in reqs && r.stale ensures Leq(v, r) {
      var j :| 0 <= j < |reqs| && reqs[j] == r;
    }
  }

  /** In every run, every destroy takes what is at that moment the oldest stale member, at a moment when at least
      min-healthy fresh members are provisioned. */
  lemma EveryDestroyIsRightful(cfg: Config, s0: State, steps: seq<Step>)
    requires Shape(cfg, s0) && ValidRun(cfg, s0, steps) && Enabled(cfg, Run(cfg, s0, steps), Destroy)
    ensures var s := Run(cfg, s0, steps); var target := s.inflight.value.target;
            && Fresh(s) >= cfg.minHealthy
            && exists v :: v in s.requests && v.id == target && v.stale
                           && forall r :: r in s.requests && r.stale ==> Leq(v, r)
  {
    FreshSurvivesEveryRun(cfg, s0, steps);
    var s := Run(cfg, s0, steps);
    hide Sorted, DistinctIds, IsVictim, KeepsFresh, Leq, ValidRun, Run;
    var v := VictimIsOldest(s.requests, s.inflight.value.target);
  }

  // ----- Convergence

  ghost predicate Productive(cfg: Config, s: State, step: Step) {
    match step
    case Destroy => true
    case Add(_) => true
    case SetStage(_, st) => st == PROVISIONED
    case _ => false
  }

  function Measure(cfg: Config, s: State): nat
    requires |s.requests| <= cfg.n
  {
    4 * StaleCount(s) + 2 * (cfg.n - |s.requests|) + |s.requests| - Count(s.requests, IsProvisioned)
  }

  lemma MeasureStep(cfg: Config, s: State, step: Step)
    requires Shape(cfg, s) && Enabled(cfg, s, step)
    ensures var t := Next(cfg, s, step);
            && Shape(cfg, t)
            && Measure(cfg, t) + (if Productive(cfg, s, step) then 1 else 0) <= Measure(cfg, s)
  {
    ShapeStep(cfg, s, step);
    match step
    case Destroy => DestroyRemovesOneStale(cfg, s);
    case Add(r) =>
      CountAppend(s.requests, r, IsStale);
      CountAppend(s.requests, r, IsProvisioned);
    case SetStage(i, st) =>
      CountUpdate(s.requests, i, s.requests[i].(stage := st), IsStale);
      CountUpdate(s.requests, i, s.requests[i].(stage := st), IsProvisioned);
    case _ =>
  }

  ghost function Work(cfg: Config, s: State, steps: seq<Step>): nat
    requires ValidRun(cfg, s, steps)
    decreases |steps|
  {
    if steps == [] then 0
    else (if Productive(cfg, s, steps[0]) then 1 else 0) + Work(cfg, Next(cfg, s, steps[0]), steps[1..])
  }

  lemma {:induction false} WorkIsBounded(cfg: Config, s: State, steps: seq<Step>)
    requires Shape(cfg, s) && ValidRun(cfg, s, steps)
    ensures var t := Run(cfg, s, steps);
            Shape(cfg, t) && Measure(cfg, t) + Work(cfg, s, steps) <= Measure(cfg, s)
    decreases |steps|
  {
    if steps == [] {
    } else {
      MeasureStep(cfg, s, steps[0]);
      WorkIsBounded(cfg, Next(cfg, s, steps[0]), steps[1..]);
    }
  }

  /** No lock is left over from an earlier tick. */
  predicate Unlocked(s: State) {
    !HasActiveLock(s.lock, s.now, LOCK_TTL)
  }

  /** Nothing is in flight and no lock live, the next plan would tear nothing down, and nothing else would move
      the rotation forward. */
  ghost predicate Stuck(cfg: Config, s: State) {
    && s.inflight.None? && Unlocked(s) && !Decision(cfg, s).TeardownStale?
    && forall step :: Enabled(cfg, s, step) ==> !Productive(cfg, s, step)
  }

  lemma DiscoverTearsDown(cfg: Config, s: State)
    requires StaleCount(s) > 0 && Fresh(s) >= cfg.minHealthy && Count(s.requests, IsProvisioning) == 0 && Unlocked(s)
    ensures Decision(cfg, s).TeardownStale?
  {
  }

  /** While a stale member remains and the floor is met, an unlocked set is not stuck. */
  lemma Unfinished(cfg: Config, s: State)
    requires Shape(cfg, s) && StaleCount(s) > 0 && Fresh(s) >= cfg.minHealthy
    ensures !Stuck(cfg, s)
  {
    CountPositive(s.requests, IsProvisioning);
    if Count(s.requests, IsProvisioning) > 0 {
      var i :| 0 <= i < |s.requests| && IsProvisioning(s.requests[i]);
      assert Enabled(cfg, s, SetStage(i, PROVISIONED)) && Productive(cfg, s, SetStage(i, PROVISIONED));
    } else if Unlocked(s) {
      DiscoverTearsDown(cfg, s);
    }
  }

  /** In-place rotation converges from any state that meets the floor, whatever is in flight or locked there:
      every run does a bounded amount of work, and a run with no work left has torn down exactly the members
      that were stale at the start. */
  lemma InPlaceConverges(cfg: Config, s0: State, steps: seq<Step>)
    requires Shape(cfg, s0) && s0.teardowns == 0 && Fresh(s0) >= cfg.minHealthy && ValidRun(cfg, s0, steps)
    ensures Work(cfg, s0, steps) <= Measure(cfg, s0)
    ensures var s := Run(cfg, s0, steps);
            Stuck(cfg, s) ==>
              s.teardowns == StaleCount(s0) && forall i :: 0 <= i < |s.requests| ==> !s.requests[i].stale
  {
    WorkIsBounded(cfg, s0, steps);
    FreshSurvivesEveryRun(cfg, s0, steps);
    var s := Run(cfg, s0, steps);
    CountPositive(s.requests, IsStale);
    if StaleCount(s) > 0 {
      Unfinished(cfg, s);
    } else {
      forall i | 0 <= i < |s.requests| ensures !s.requests[i].stale {
        assert !IsStale(s.requests[i]);
      }
    }
  }

  // ----- The lock around a destroy

  /** None of these steps writes a lock or takes it away. */
  predicate LeavesLock(steps: seq<Step>) {
    forall i :: 0 <= i < |steps| ==> !steps[i].WriteLock? && !steps[i].ReleaseLock?
  }

  lemma {:induction false} LockStays(cfg: Config, s: State, steps: seq<Step>)
    requires ValidRun(cfg, s, steps) && LeavesLock(steps)
    ensures Run(cfg, s, steps).lock == s.lock
    decreases |steps|
  {
    if steps == [] {
    } else {
      LockStays(cfg, Next(cfg, s, steps[0]), steps[1..]);
    }
  }

  /** From writing the lock to releasing it, a discovery by anyone would plan no teardown for five minutes from the
      start of the second of the write, whatever the members do and even if the tick is abandoned. */
  lemma LockedWhileDestroying(cfg: Config, s: State, steps: seq<Step>)
    requires Enabled(cfg, s, WriteLock) && ValidRun(cfg, Next(cfg, s, WriteLock), steps) && LeavesLock(steps)
    requires RepresentableSeconds(Unix(s.now))
    ensures var t := Run(cfg, Next(cfg, s, WriteLock), steps);
            && (t.now < Nanos(Unix(s.now)) + 300_000_000_000 <==> !Unlocked(t))
            && (!Unlocked(t) ==> Decision(cfg, t) == LockedByPriorStep)
  {
    LockStays(cfg, Next(cfg, s, WriteLock), steps);
  }

  /** Once it is released no lock is left, until the next tick writes one. */
  lemma ReleaseUnlocks(cfg: Config, s: State, steps: seq<Step>)
    requires Enabled(cfg, s, ReleaseLock) && ValidRun(cfg, Next(cfg, s, ReleaseLock), steps) && LeavesLock(steps)
    ensures Unlocked(Run(cfg, Next(cfg, s, ReleaseLock), steps))
  {
    LockStays(cfg, Next(cfg, s, ReleaseLock), steps);
  }

  // ----- When in-place rotation can start

  predicate BelowFloor(cfg: Config, s: State) {
    StaleCount(s) == 0 || cfg.n - StaleCount(s) < cfg.minHealthy
  }

  lemma BelowFloorPlansNothing(cfg: Config, s: State)
    requires Shape(cfg, s) && BelowFloor(cfg, s)
    ensures !Decision(cfg, s).TeardownStale?
  {
    CountSplit(s.requests);
  }

  lemma BelowFloorStep(cfg: Config, s: State, step: Step)
    requires Shape(cfg, s) && BelowFloor(cfg, s) && s.inflight.None? && Enabled(cfg, s, step)
    ensures var t := Next(cfg, s, step);
            Shape(cfg, t) && BelowFloor(cfg, t) && t.inflight.None? && t.teardowns == s.teardowns
  {
    BelowFloorPlansNothing(cfg, s);
    ShapeStep(cfg, s, step);
  }

  lemma {:induction false} BelowFloorNeverStarts(cfg: Config, s: State, steps: seq<Step>)
    requires Shape(cfg, s) && BelowFloor(cfg, s) && s.inflight.None? && ValidRun(cfg, s, steps)
    ensures Run(cfg, s, steps).teardowns == s.teardowns
    decreases |steps|
  {
    if steps == [] {
    } else {
      BelowFloorStep(cfg, s, steps[0]);
      BelowFloorNeverStarts(cfg, Next(cfg, s, steps[0]), steps[1..]);
    }
  }

  /** How far the reconciler is from its next destroy. */
  function Readiness(s: State): nat {
    if s.inflight.Some? then
      match s.inflight.value.at
      case LockHeld => 0
      case Planned => 1
      case Destroyed => 4
    else if Unlocked(s) then 2
    else 3
  }

  ghost predicate Nearer(cfg: Config, s: State, t: State)
    requires |s.requests| <= cfg.n
  {
    || t.teardowns > s.teardowns
    || (Shape(cfg, t) && StaleCount(t) == StaleCount(s) && t.teardowns == s.teardowns
        && (Measure(cfg, t) < Measure(cfg, s) || (Measure(cfg, t) == Measure(cfg, s) && Readiness(t) < Readiness(s))))
  }

  lemma TeardownGoesOn(cfg: Config, s: State) returns (step: Step)
    requires Shape(cfg, s) && s.inflight.Some?
    ensures Enabled(cfg, s, step) && Nearer(cfg, s, Next(cfg, s, step))
  {
    if s.inflight.value.at.LockHeld? {
      step := Destroy;
    } else {
      step := if s.inflight.value.at.Planned? then WriteLock else ReleaseLock;
      hide Sorted, DistinctIds, IsVictim;
    }
  }

  /** A lock that was left over expires. */
  lemma LockExpires(cfg: Config, s: State) returns (step: Step)
    requires Shape(cfg, s) && s.inflight.None? && !Unlocked(s)
    ensures Enabled(cfg, s, step) && Nearer(cfg, s, Next(cfg, s, step))
  {
    step := Elapse(FromUnix(s.lock.value.secs) + LOCK_TTL);
    assert Unlocked(Next(cfg, s, step));
  }

  lemma MemberStepNears(cfg: Config, s: State, step: Step)
    requires Shape(cfg, s) && Enabled(cfg, s, step) && Productive(cfg, s, step) && !step.Destroy?
    ensures Nearer(cfg, s, Next(cfg, s, step))
  {
    ShapeStep(cfg, s, step);
    MeasureStep(cfg, s, step);
  }

  lemma DiscoverNears(cfg: Config, s: State)
    requires Shape(cfg, s) && s.inflight.None? && Unlocked(s) && Decision(cfg, s).TeardownStale?
    ensures Nearer(cfg, s, Next(cfg, s, Discover))
  {
    ShapeStep(cfg, s, Discover);
  }

  /** With enough members that are not stale, they can all be provisioned, and then a teardown is planned. */
  lemma MembersGetReady(cfg: Config, s: State) returns (step: Step)
    requires Shape(cfg, s) && s.inflight.None? && Unlocked(s)
    requires StaleCount(s) > 0 && cfg.n - StaleCount(s) >= cfg.minHealthy
    ensures Enabled(cfg, s, step) && Nearer(cfg, s, Next(cfg, s, step))
  {
    if |s.requests| < cfg.n {
      step := Add(Newest(s.requests));
      MemberStepNears(cfg, s, step);
    } else if i :| 0 <= i < |s.requests| && s.requests[i].stage != PROVISIONED {
      step := SetStage(i, PROVISIONED);
      MemberStepNears(cfg, s, step);
    } else {
      AllProvisioned(s.requests);
      DiscoverTearsDown(cfg, s);
      step := Discover;
      DiscoverNears(cfg, s);
    }
  }

  lemma NearerTeardown(cfg: Config, s: State) returns (step: Step)
    requires Shape(cfg, s) && StaleCount(s) > 0 && cfg.n - StaleCount(s) >= cfg.minHealthy
    ensures Enabled(cfg, s, step) && Nearer(cfg, s, Next(cfg, s, step))
  {
    if s.inflight.Some? {
      step := TeardownGoesOn(cfg, s);
    } else if !Unlocked(s) {
      step := LockExpires(cfg, s);
    } else {
      step := MembersGetReady(cfg, s);
    }
  }

  lemma {:induction false} StartRunExists(cfg: Config, s: State) returns (steps: seq<Step>)
    requires Shape(cfg, s) && StaleCount(s) > 0 && cfg.n - StaleCount(s) >= cfg.minHealthy
    ensures ValidRun(cfg, s, steps) && Run(cfg, s, steps).teardowns > s.teardowns
    decreases Measure(cfg, s), Readiness(s)
  {
    var step := NearerTeardown(cfg, s);
    var rest: seq<Step> := [];
    if Next(cfg, s, step).teardowns <= s.teardowns {
      rest := StartRunExists(cfg, Next(cfg, s, step));
    }
    steps := [step] + rest;
    assert steps[1..] == rest;
  }

  lemma {:induction false} AllProvisioned(reqs: seq<RequestStatus>)
    requires forall i :: 0 <= i < |reqs| ==> reqs[i].stage == PROVISIONED
    ensures Count(reqs, IsFreshProvisioned) == |reqs| - Count(reqs, IsStale)
    ensures Count(reqs, IsProvisioning) == 0
  {
    if reqs == [] {
    } else {
      AllProvisioned(reqs[..|reqs| - 1]);
    }
  }

  /** In-place rotation can start exactly when some member is stale and the members that are not stale are
      enough for the floor. A set whose members are all stale therefore never starts unless the floor is 0. */
  lemma InPlaceStartsIff(cfg: Config, s: State)
    requires Shape(cfg, s) && s.teardowns == 0 && s.inflight.None?
    ensures (exists steps :: ValidRun(cfg, s, steps) && Run(cfg, s, steps).teardowns > 0)
            <==> StaleCount(s) > 0 && cfg.n - StaleCount(s) >= cfg.minHealthy
  {
    if StaleCount(s) > 0 && cfg.n - StaleCount(s) >= cfg.minHealthy {
      var steps := StartRunExists(cfg, s);
    } else {
      forall steps | ValidRun(cfg, s, steps) ensures Run(cfg, s, steps).teardowns == 0 {
        BelowFloorNeverStarts(cfg, s, steps);
      }
    }
  }
}
