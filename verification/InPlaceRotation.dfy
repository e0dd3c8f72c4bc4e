/** Runs of the in-place strategy with the tick split into its discovery and its three writes, and with
    edits of class, requests and set at any point: what a teardown destroys, and exactly when that can be a
    request of the live generation. */
module InPlaceRotation {
  import opened Text
  import opened RotationAnnotations
  import opened Requests
  import opened RotationPlan

  // ----- Every victim, in every run

  /** The progress of `withLock`: planned, lock written, request destroyed. */
  datatype Progress = Planned | LockHeld | Destroyed

  /** `touched` records that the class's generation or the target was changed since the discovery. */
  datatype Teardown = Teardown(candidate: Candidate, target: string, at: Progress, touched: bool)

  /** A destroyed request: the candidate whose plan destroyed it, the request as it was found then, and the
      class's generation at that moment. */
  datatype Victim = Victim(id: string, candidate: Candidate, touched: bool, found: RequestStatus,
      liveGeneration: string)

  /** The request was of the live generation when it was destroyed. */
  predicate WasFresh(v: Victim) {
    v.found.generation == v.liveGeneration
  }

  /** Which edits may fall between a discovery and its destroy: setting the class to the target's generation,
      and replacing the target by a request of the class's generation. All others always may. */
  datatype Permitted = Permitted(revert: bool, recreate: bool)

  /** Requests are keyed by ID; `generation` is the class's current one. */
  datatype World = World(
    ms: MachineSet,
    stamped: string,
    generation: string,
    strategy: Strategy,
    minHealthy: int,
    requests: map<string, RequestStatus>,
    now: int,
    inflight: Option<Teardown>,
    victims: seq<Victim>)

  datatype Step =
    | Discover(listing: seq<RequestStatus>)  // the sorted listing of the live requests
    | WriteLock
    | Destroy
    | ReleaseLock
    | Abandon                                // crash or failed write
    | EditClass(generation: string, strategy: Strategy, minHealthy: int)
    | ChangeRequests(requests: map<string, RequestStatus>)
    | EditSet(ms: MachineSet)
    | Stamp(generation: string)
    | Elapse(now: int)

  /** A listing holds exactly the live requests, classified against a generation and sorted. */
  ghost predicate ListingOf(listing: seq<RequestStatus>, reqs: map<string, RequestStatus>, generation: string) {
    && Sorted(listing) && DistinctIds(listing)
    && (forall i :: 0 <= i < |listing| ==>
          && listing[i].id in reqs && listing[i].generation == reqs[listing[i].id].generation
          && listing[i].stage == reqs[listing[i].id].stage && listing[i].createdAt == reqs[listing[i].id].createdAt
          && listing[i].stale == (listing[i].generation != generation))
    && (forall id :: id in reqs ==> exists i :: 0 <= i < |listing| && listing[i].id == id)
  }

  /** A teardown has been planned and its target not yet destroyed. */
  predicate Pending(w: World) {
    w.inflight.Some? && !w.inflight.value.at.Destroyed?
  }

  predicate TargetIs(reqs: map<string, RequestStatus>, target: string, generation: string) {
    target in reqs && reqs[target].generation == generation
  }

  /** The request about to be destroyed is of the live generation. */
  predicate TargetFresh(w: World) {
    Pending(w) && TargetIs(w.requests, w.inflight.value.target, w.generation)
  }

  ghost predicate Enabled(p: Permitted, w: World, s: Step) {
    match s
    case Discover(l) => w.inflight.None? && ListingOf(l, w.requests, w.generation)
    case WriteLock => w.inflight.Some? && w.inflight.value.at.Planned?
    case Destroy => w.inflight.Some? && w.inflight.value.at.LockHeld? && w.inflight.value.target in w.requests
    case ReleaseLock => w.inflight.Some? && w.inflight.value.at.Destroyed?
    case EditClass(g, _, _) =>
      Pending(w) && TargetIs(w.requests, w.inflight.value.target, g) && !TargetFresh(w) ==> p.revert
    case ChangeRequests(reqs) =>
      Pending(w) && TargetIs(reqs, w.inflight.value.target, w.generation) && !TargetFresh(w) ==> p.recreate
    case _ => true
  }

  /** The in-flight teardown after an edit. */
  function Noting(w: World, changed: bool): Option<Teardown> {
    if w.inflight.Some? && changed then Some(w.inflight.value.(touched := true)) else w.inflight
  }

  predicate SameTarget(w: World, reqs: map<string, RequestStatus>) {
    w.inflight.Some? ==>
      var id := w.inflight.value.target;
      (id in reqs <==> id in w.requests) && (id in reqs ==> reqs[id] == w.requests[id])
  }

  function Snapshot(w: World, listing: seq<RequestStatus>): Candidate {
    Candidate(w.stamped, w.generation, w.strategy, w.minHealthy, w.ms.count, w.ms.lock, w.ms.phase, listing)
  }

  ghost function Next(p: Permitted, w: World, s: Step): World
    requires Enabled(p, w, s)
  {
    match s
    case Discover(listing) =>
      var c := Snapshot(w, listing);
      var a := Plan(c, w.now, LOCK_TTL);
      w.(inflight := if a.TeardownStale? then Some(Teardown(c, a.target, Planned, false)) else None)
    case WriteLock =>
      var t := w.inflight.value;
      w.(ms := SetLock(w.ms, t.candidate.currentGeneration, w.now), inflight := Some(t.(at := LockHeld)))
    case Destroy =>
      var t := w.inflight.value;
      w.(requests := w.requests - {t.target}, inflight := Some(t.(at := Destroyed)),
         victims := w.victims + [Victim(t.target, t.candidate, t.touched, w.requests[t.target], w.generation)])
    case ReleaseLock => w.(ms := ClearLock(w.ms), inflight := None)
    case Abandon => w.(inflight := None)
    case EditClass(g, st, m) =>
      w.(generation := g, strategy := st, minHealthy := m, inflight := Noting(w, g != w.generation))
    case ChangeRequests(reqs) => w.(requests := reqs, inflight := Noting(w, !SameTarget(w, reqs)))
    case EditSet(ms) => w.(ms := ms)
    case Stamp(g) => w.(stamped := g)
    case Elapse(t) => w.(now := t)
  }

  ghost predicate ValidRun(p: Permitted, w: World, steps: seq<Step>)
    decreases |steps|
  {
    steps == [] || (Enabled(p, w, steps[0]) && ValidRun(p, Next(p, w, steps[0]), steps[1..]))
  }

  ghost function Run(p: Permitted, w: World, steps: seq<Step>): World
    requires ValidRun(p, w, steps)
    decreases |steps|
  {
    if steps == [] then w else Run(p, Next(p, w, steps[0]), steps[1..])
  }

  predicate Start(w: World) {
    w.victims == [] && w.inflight.None?
  }

  // ----- What every victim was

  /** The target was, when discovered, the oldest stale member, with nothing provisioning and the floor met. */
  ghost predicate RightfulTarget(c: Candidate, target: string) {
    && c.strategy.InPlace?
    && Count(c.requests, IsFreshProvisioned) >= c.minHealthy
    && (forall r :: r in c.requests ==> r.stage != PROVISIONING)
    && exists v :: v in c.requests && v.id == target && v.generation != c.currentGeneration
                   && forall r :: r in c.requests && r.generation != c.currentGeneration ==> Leq(v, r)
  }

  /** The request under the target's ID is still one of the generation it was discovered at, and the class is. */
  ghost predicate AsDiscovered(c: Candidate, target: string, found: RequestStatus, generation: string) {
    generation == c.currentGeneration && found.generation != generation
    && exists v :: v in c.requests && v.id == target && v.generation == found.generation
  }

  ghost predicate TeardownRightful(w: World) {
    w.inflight.Some? ==>
      var t := w.inflight.value;
      && RightfulTarget(t.candidate, t.target)
      && (Pending(w) && !t.touched ==>
            t.target in w.requests && AsDiscovered(t.candidate, t.target, w.requests[t.target], w.generation))
  }

  ghost predicate VictimRightful(v: Victim) {
    RightfulTarget(v.candidate, v.id) && (!v.touched ==> AsDiscovered(v.candidate, v.id, v.found, v.liveGeneration))
  }

  ghost predicate AllRightful(w: World) {
    TeardownRightful(w) && forall i :: 0 <= i < |w.victims| ==> VictimRightful(w.victims[i])
  }

  lemma PlannedTargetIsRightful(w: World, listing: seq<RequestStatus>)
    requires ListingOf(listing, w.requests, w.generation)
    ensures var c := Snapshot(w, listing); var a := Plan(c, w.now, LOCK_TTL);
            a.TeardownStale? ==>
              && RightfulTarget(c, a.target)
              && a.target in w.requests && AsDiscovered(c, a.target, w.requests[a.target], w.generation)
  {
    var c := Snapshot(w, listing);
    TeardownIff(c, w.now, LOCK_TTL);
    forall r | r in listing
      ensures r.stale == (r.generation != w.generation) && r.id in w.requests
          && w.requests[r.id].generation == r.generation
    {
      var i :| 0 <= i < |listing| && listing[i] == r;
    }
  }

  lemma RightfulStep(p: Permitted, w: World, s: Step)
    requires AllRightful(w) && Enabled(p, w, s)
    ensures AllRightful(Next(p, w, s))
  {
    if s.Discover? {
      PlannedTargetIsRightful(w, s.listing);
    }
  }

  lemma {:induction false} RightfulInRun(p: Permitted, w: World, steps: seq<Step>)
    requires AllRightful(w) && ValidRun(p, w, steps)
    ensures AllRightful(Run(p, w, steps))
    decreases |steps|
  {
    if steps == [] {
    } else {
      RightfulStep(p, w, steps[0]);
      RightfulInRun(p, Next(p, w, steps[0]), steps[1..]);
    }
  }

  /** In every run, whatever is edited between a plan and its writes, every request the engine destroys was the
      oldest stale request of the discovery that planned it, and that discovery saw at least min-healthy fresh
      provisioned members and none provisioning. Unless the class's generation or the target itself was
      changed in between, the request destroyed was still stale, as it had been discovered. */
  lemma EveryVictimIsRightful(p: Permitted, w0: World, steps: seq<Step>, i: nat)
    requires Start(w0) && ValidRun(p, w0, steps) && i < |Run(p, w0, steps).victims|
    ensures var v := Run(p, w0, steps).victims[i];
            && RightfulTarget(v.candidate, v.id)
            && (!v.touched ==> !WasFresh(v) && AsDiscovered(v.candidate, v.id, v.found, v.liveGeneration))
  {
    RightfulInRun(p, w0, steps);
    assert VictimRightful(Run(p, w0, steps).victims[i]);
  }

  // ----- The lock of a teardown

  /** A teardown that runs to its end destroys its target alone and leaves the set as it was without any lock; one that
      is cut off after the destroy leaves a lock that stops every discovery for one TTL from its second. */
  lemma TeardownEnds(p: Permitted, w: World)
    requires w.inflight.Some? && w.inflight.value.at.Planned? && w.inflight.value.target in w.requests
    requires RepresentableSeconds(Unix(w.now))
    ensures Enabled(p, w, WriteLock) && Enabled(p, Next(p, w, WriteLock), Destroy)
    ensures var destroyed := Next(p, Next(p, w, WriteLock), Destroy);
            && Enabled(p, destroyed, ReleaseLock)
            && var done := Next(p, destroyed, ReleaseLock);
            && done.ms == w.ms.(lock := None) && done.requests == w.requests - {w.inflight.value.target}
            && done.inflight.None? && |done.victims| == |w.victims| + 1
            && var cut := Next(p, destroyed, Abandon);
            && cut.ms == w.ms.(lock := cut.ms.lock) && cut.requests == done.requests
            && forall now :: HasActiveLock(cut.ms.lock, now, LOCK_TTL)
                             <==> now < w.now / 1_000_000_000 * 1_000_000_000 + 300_000_000_000
  {
  }

  // ----- Nothing but victims disappears

  function VictimIds(victims: seq<Victim>): set<string> {
    set i | 0 <= i < |victims| :: victims[i].id
  }

  /** The live requests and the victims so far are the requests of the start, each destroyed at most once. */
  ghost predicate Conserved(initial: map<string, RequestStatus>, w: World) {
    && w.requests == initial - VictimIds(w.victims)
    && VictimIds(w.victims) <= initial.Keys
    && |VictimIds(w.victims)| == |w.victims|
  }

  lemma ConservedStep(p: Permitted, initial: map<string, RequestStatus>, w: World, s: Step)
    requires Conserved(initial, w) && Enabled(p, w, s) && !s.ChangeRequests?
    ensures Conserved(initial, Next(p, w, s))
  {
    if s.Destroy? {
      var t := Next(p, w, s);
      var target := w.inflight.value.target;
      assert t.victims[..|w.victims|] == w.victims && t.victims[|w.victims|].id == target;
      assert forall i :: 0 <= i < |w.victims| ==> t.victims[i] == w.victims[i];
      assert VictimIds(t.victims) == VictimIds(w.victims) + {target};
    }
  }

  lemma {:induction false} ConservedInRun(p: Permitted, initial: map<string, RequestStatus>, w: World, steps: seq<Step>)
    requires Conserved(initial, w) && ValidRun(p, w, steps)
    requires forall i :: 0 <= i < |steps| ==> !steps[i].ChangeRequests?
    ensures Conserved(initial, Run(p, w, steps))
    decreases |steps|
  {
    if steps == [] {
    } else {
      ConservedStep(p, initial, w, steps[0]);
      ConservedInRun(p, initial, Next(p, w, steps[0]), steps[1..]);
    }
  }

  /** In a run in which nobody else touches the requests, exactly the victims are gone at the end, each destroyed once,
      and every other request is as it was. */
  lemma OnlyVictimsDisappear(p: Permitted, w0: World, steps: seq<Step>)
    requires Start(w0) && ValidRun(p, w0, steps)
    requires forall i :: 0 <= i < |steps| ==> !steps[i].ChangeRequests?
    ensures Conserved(w0.requests, Run(p, w0, steps))
  {
    assert VictimIds([]) == {};
    ConservedInRun(p, w0.requests, w0, steps);
  }

  // ----- Exactly when a fresh request can be lost

  /** The victims after the first `n` were stale. */
  ghost predicate StaleSince(w: World, n: nat) {
    n <= |w.victims| && forall i :: n <= i < |w.victims| ==> !WasFresh(w.victims[i])
  }

  lemma GuardedStep(p: Permitted, w: World, n: nat, s: Step)
    requires !p.revert && !p.recreate && Enabled(p, w, s) && !TargetFresh(w) && StaleSince(w, n)
    ensures !TargetFresh(Next(p, w, s)) && StaleSince(Next(p, w, s), n)
  {
    if s.Discover? {
      PlannedTargetIsRightful(w, s.listing);
    }
  }

  lemma {:induction false} GuardedRun(p: Permitted, w: World, n: nat, steps: seq<Step>)
    requires !p.revert && !p.recreate && ValidRun(p, w, steps) && !TargetFresh(w) && StaleSince(w, n)
    ensures StaleSince(Run(p, w, steps), n)
    decreases |steps|
  {
    if steps == [] {
    } else {
      GuardedStep(p, w, n, steps[0]);
      GuardedRun(p, Next(p, w, steps[0]), n, steps[1..]);
    }
  }

  lemma RunCons(p: Permitted, w: World, s: Step, rest: seq<Step>)
    requires Enabled(p, w, s) && ValidRun(p, Next(p, w, s), rest)
    ensures ValidRun(p, w, [s] + rest) && Run(p, w, [s] + rest) == Run(p, Next(p, w, s), rest)
  {
    assert ([s] + rest)[1..] == rest;
  }

  /** The teardown runs to its destroy. */
  lemma DestroyFollows(p: Permitted, w: World) returns (steps: seq<Step>)
    requires TargetFresh(w)
    ensures ValidRun(p, w, steps) && LosesFresh(Run(p, w, steps), |w.victims|)
  {
    if w.inflight.value.at.Planned? {
      var locked := Next(p, w, WriteLock);
      assert WasFresh(Next(p, locked, Destroy).victims[|w.victims|]);
      RunCons(p, locked, Destroy, []);
      RunCons(p, w, WriteLock, [Destroy] + []);
      steps := [WriteLock] + ([Destroy] + []);
    } else {
      assert WasFresh(Next(p, w, Destroy).victims[|w.victims|]);
      RunCons(p, w, Destroy, []);
      steps := [Destroy] + [];
    }
  }

  /** Some victim after the first `n` was fresh. */
  ghost predicate LosesFresh(w: World, n: nat) {
    exists i :: n <= i < |w.victims| && WasFresh(w.victims[i])
  }

  /** The edit that makes the pending teardown's target fresh: the class goes back to the target's generation,
      or the target is replaced. */
  lemma EditThenDestroy(p: Permitted, w: World) returns (steps: seq<Step>)
    requires Pending(w) && w.inflight.value.target in w.requests && (p.revert || p.recreate)
    ensures ValidRun(p, w, steps) && LosesFresh(Run(p, w, steps), |w.victims|)
  {
    var target := w.inflight.value.target;
    var found := w.requests[target];
    var edit := if p.revert then EditClass(found.generation, w.strategy, w.minHealthy)
                else ChangeRequests(w.requests[target := found.(generation := w.generation)]);
    var edited := Next(p, w, edit);
    var rest := DestroyFollows(p, edited);
    RunCons(p, w, edit, rest);
    steps := [edit] + rest;
  }

  /** For every teardown in flight against a stale target: its run can go on to lose a fresh request exactly when
      the class may be set back to the target's generation, or the target be replaced, before the destroy. */
  lemma PendingTeardownLosesFreshIff(p: Permitted, w: World)
    requires Pending(w) && w.inflight.value.target in w.requests && !TargetFresh(w)
    ensures (exists steps :: ValidRun(p, w, steps) && LosesFresh(Run(p, w, steps), |w.victims|))
            <==> p.revert || p.recreate
  {
    if p.revert || p.recreate {
      var steps := EditThenDestroy(p, w);
      assert exists steps :: ValidRun(p, w, steps) && LosesFresh(Run(p, w, steps), |w.victims|);
    } else {
      forall steps | ValidRun(p, w, steps) ensures !LosesFresh(Run(p, w, steps), |w.victims|) {
        GuardedRun(p, w, |w.victims|, steps);
      }
    }
  }

  /** One provisioned request of generation A under a class at generation B. */
  function OutdatedRequest(): RequestStatus {
    RequestStatus("r", "A", true, PROVISIONED, 0)
  }

  function Outdated(): World {
    World(MachineSet(1, None, None), "B", "B", InPlace, 0, map["r" := OutdatedRequest()], 0, None, [])
  }

  lemma OutdatedListing()
    ensures ListingOf([OutdatedRequest()], Outdated().requests, "B")
  {
    assert [OutdatedRequest()][0].id == "r";
  }

  lemma OutdatedIsTornDown()
    ensures Plan(Snapshot(Outdated(), [OutdatedRequest()]), 0, LOCK_TTL) == TeardownStale("r")
  {
    Single(OutdatedRequest(), IsProvisioning);
    Single(OutdatedRequest(), IsFreshProvisioned);
  }

  lemma FreshCanBeLost(p: Permitted) returns (steps: seq<Step>)
    requires p.revert || p.recreate
    ensures ValidRun(p, Outdated(), steps) && LosesFresh(Run(p, Outdated(), steps), 0)
  {
    OutdatedListing();
    OutdatedIsTornDown();
    var discover := Discover([OutdatedRequest()]);
    var rest := EditThenDestroy(p, Next(p, Outdated(), discover));
    RunCons(p, Outdated(), discover, rest);
    steps := [discover] + rest;
  }

  /** No run destroys a request of the live generation exactly when, between a discovery and its destroy, the class
      is never set back to the target's generation and the target never replaced by a fresh request. All
      other edits, of anything and at any time, are harmless. */
  lemma FreshIsNeverLostIff(p: Permitted)
    ensures (forall w0, steps :: Start(w0) && ValidRun(p, w0, steps) ==> !LosesFresh(Run(p, w0, steps), 0))
            <==> !p.revert && !p.recreate
  {
    if p.revert || p.recreate {
      var steps := FreshCanBeLost(p);
      var w0 := Outdated();
      assert Start(w0) && ValidRun(p, w0, steps) && LosesFresh(Run(p, w0, steps), 0);
      assert exists w0, steps :: Start(w0) && ValidRun(p, w0, steps) && LosesFresh(Run(p, w0, steps), 0);
    } else {
      forall w0, steps | Start(w0) && ValidRun(p, w0, steps) ensures !LosesFresh(Run(p, w0, steps), 0) {
        GuardedRun(p, w0, 0, steps);
      }
    }
  }

  // ----- What an operator can check before an edit

  /** No live request carries this generation. */
  predicate Unused(w: World, generation: string) {
    forall id :: id in w.requests ==> w.requests[id].generation != generation
  }

  /** The class is only ever set to generations that no live request carries. */
  ghost predicate OnlyUnused(p: Permitted, w: World, steps: seq<Step>)
    requires ValidRun(p, w, steps)
    decreases |steps|
  {
    steps == [] ||
    (&& (steps[0].EditClass? ==> steps[0].generation == w.generation || Unused(w, steps[0].generation))
     && OnlyUnused(p, Next(p, w, steps[0]), steps[1..]))
  }

  lemma {:induction false} UnusedIsGuarded(p: Permitted, w: World, n: nat, steps: seq<Step>)
    requires !p.recreate && ValidRun(p, w, steps) && OnlyUnused(p, w, steps) && !TargetFresh(w) && StaleSince(w, n)
    ensures StaleSince(Run(p, w, steps), n)
    decreases |steps|
  {
    if steps == [] {
    } else {
      GuardedStep(p.(revert := false), w, n, steps[0]);
      UnusedIsGuarded(p, Next(p, w, steps[0]), n, steps[1..]);
    }
  }

  /** So nothing fresh is lost, at whatever moment the class is edited, when each edit sets it to a generation that no
      live request carries at the time, and requests are not replaced under their IDs. */
  lemma UnusedGenerationsAreSafe(p: Permitted, w0: World, steps: seq<Step>)
    requires !p.recreate && Start(w0) && ValidRun(p, w0, steps) && OnlyUnused(p, w0, steps)
    ensures !LosesFresh(Run(p, w0, steps), 0)
  {
    UnusedIsGuarded(p, w0, 0, steps);
  }
}
