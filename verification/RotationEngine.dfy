/** The rotation engine's writes as it performs them: annotations are strings on mutable resources,
    any write can fail, and a tick runs one decision per candidate. Each method is tied to the
    value-level effect that the run theorems are about. */
module RotationEngine {
  import opened Text
  import opened RotationAnnotations
  import opened Requests
  import Plan = RotationPlan

  /** The annotation keys the engine uses, and any other key. */
  datatype Key = RotationStateKey | SurgePhaseKey | ClassGenerationKey | OtherKey(name: string)

  const MIN_LOCK_TTL: int := 30 * SECOND

  /** The stored MachineSet: its count and its annotations as strings. */
  datatype Stored = Stored(count: nat, annotations: map<Key, string>)

  /** How annotations are read; the lemmas below hold for any readers that read back what is written. */
  datatype Readers = Readers(lock: string -> Option<Lock>, phase: string -> Option<SurgePhase>) {
    function LockIn(annotations: map<Key, string>): Option<Lock> {
      if RotationStateKey in annotations then lock(annotations[RotationStateKey]) else None
    }

    function PhaseIn(annotations: map<Key, string>): Option<SurgePhase> {
      if SurgePhaseKey in annotations then phase(annotations[SurgePhaseKey]) else None
    }

    /** What a stored MachineSet means; malformed annotations read as absent. */
    function Meaning(m: Stored): Plan.MachineSet {
      Plan.MachineSet(m.count, LockIn(m.annotations), PhaseIn(m.annotations))
    }
  }

  function EngineReaders(): Readers {
    Readers(ParseLock, ParseSurgePhase)
  }

  function WithLock(m: Stored, generation: string, now: int): Stored {
    m.(annotations := m.annotations[RotationStateKey := FormatLock(Lock(generation, Unix(now)))])
  }

  function WithoutLock(m: Stored): Stored {
    m.(annotations := m.annotations - {RotationStateKey})
  }

  function WithoutCycle(m: Stored): Stored {
    m.(annotations := m.annotations - {RotationStateKey, SurgePhaseKey})
  }

  function WithSurge(m: Stored, generation: string, next: SurgePhase, delta: int, now: int): Stored {
    if m.count + delta < 0 then m
    else Stored(Uint32(m.count + delta),
                WithLock(m, generation, now).annotations[SurgePhaseKey := FormatSurgePhase(next)])
  }

  /** The stored MachineSet after `Execute` when all its writes land. */
  function StoredExecute(m: Stored, c: Plan.Candidate, a: Plan.Action, now: int): Stored {
    match a
    case SurgeUp(next) => WithSurge(m, c.currentGeneration, next, 1, now)
    case SurgeDown(next) => WithSurge(m, c.currentGeneration, next, -1, now)
    case SurgeCycleComplete => WithoutCycle(m)
    case SurgeAborted(_) => WithoutCycle(m)
    case StampGeneration => m
    case TeardownStale(_) => WithoutLock(m)
    case _ => if c.phase.Some? then WithLock(m, c.currentGeneration, now) else m
  }

  lemma WithLockMeans(r: Readers, m: Stored, generation: string, now: int)
    requires r.lock(FormatLock(Lock(generation, Unix(now)))) == Some(Lock(generation, Unix(now)))
    ensures r.Meaning(WithLock(m, generation, now)) == Plan.SetLock(r.Meaning(m), generation, now)
  {
  }

  lemma WithSurgeMeans(r: Readers, m: Stored, generation: string, next: SurgePhase, delta: int, now: int)
    requires r.lock(FormatLock(Lock(generation, Unix(now)))) == Some(Lock(generation, Unix(now)))
    requires r.phase(FormatSurgePhase(next)) == Some(next)
    ensures m.count + delta >= 0 ==>
              Plan.SurgeStep(r.Meaning(m), generation, next, delta, now)
              == Some(r.Meaning(WithSurge(m, generation, next, delta, now)))
    ensures m.count + delta < 0 ==>
              Plan.SurgeStep(r.Meaning(m), generation, next, delta, now) == None
                  && WithSurge(m, generation, next, delta, now) == m
  {
  }

  lemma ClearMeans(r: Readers, m: Stored)
    ensures r.Meaning(WithoutLock(m)) == Plan.ClearLock(r.Meaning(m))
    ensures r.Meaning(WithoutCycle(m)) == Plan.ClearSurgeAndLock(r.Meaning(m))
  {
  }

  lemma ReadersRefine(r: Readers, m: Stored, c: Plan.Candidate, a: Plan.Action, now: int)
    requires r.lock(FormatLock(Lock(c.currentGeneration, Unix(now)))) == Some(Lock(c.currentGeneration, Unix(now)))
    requires a.SurgeUp? || a.SurgeDown? ==> r.phase(FormatSurgePhase(a.next)) == Some(a.next)
    ensures r.Meaning(StoredExecute(m, c, a, now)) == Plan.Execute(r.Meaning(m), c, a, now)
  {
    match a
    case SurgeUp(next) => WithSurgeMeans(r, m, c.currentGeneration, next, 1, now);
    case SurgeDown(next) => WithSurgeMeans(r, m, c.currentGeneration, next, -1, now);
    case SurgeCycleComplete => ClearMeans(r, m);
    case SurgeAborted(_) => ClearMeans(r, m);
    case StampGeneration =>
    case TeardownStale(_) => ClearMeans(r, m);
    case _ => WithLockMeans(r, m, c.currentGeneration, now);
  }

  /** The strings the engine writes mean exactly the values the run theorems are about: executing on the
      stored annotations and then reading them is reading them and then executing. */
  lemma ExecuteRefines(m: Stored, c: Plan.Candidate, a: Plan.Action, now: int)
    requires Writable(c, a, now)
    ensures EngineReaders().Meaning(StoredExecute(m, c, a, now)) == Plan.Execute(EngineReaders().Meaning(m), c, a, now)
  {
    ColonFreeLockRoundTrip(Lock(c.currentGeneration, Unix(now)));
    if a.SurgeUp? || a.SurgeDown? {
      SurgePhaseRoundTrip(a.next);
    }
    ReadersRefine(EngineReaders(), m, c, a, now);
  }

  /** The lock annotation written at `now`: the generation and the second. */
  function LockText(generation: string, now: int): string {
    generation + ":" + FormatInt(now / 1_000_000_000)
  }

  /** The live MachineSet. `hasAllocation` is false when its MachineAllocation is missing. */
  class MachineSetResource {
    var annotations: map<Key, string>
    var hasAllocation: bool
    var machineCount: nat

    function Contents(): Stored
      reads this
    {
      Stored(machineCount, annotations)
    }

    /** `setLock`. */
    method SetLock(generation: string, now: int, reachable: bool) returns (ok: bool)
      modifies this
      ensures ok == reachable && hasAllocation == old(hasAllocation)
      ensures Contents() == if ok then WithLock(old(Contents()), generation, now) else old(Contents())
      ensures machineCount == old(machineCount)
      ensures annotations == if ok then old(annotations)[RotationStateKey := LockText(generation, now)]
                             else old(annotations)
    {
      if reachable {
        annotations := annotations[RotationStateKey := FormatLock(Lock(generation, Unix(now)))];
      }
      return reachable;
    }

    /** `clearLock`. */
    method ClearLock(reachable: bool) returns (ok: bool)
      modifies this
      ensures ok == reachable && hasAllocation == old(hasAllocation)
      ensures Contents() == if ok then WithoutLock(old(Contents())) else old(Contents())
      ensures machineCount == old(machineCount)
      ensures annotations == if ok then old(annotations) - {RotationStateKey} else old(annotations)
    {
      if reachable {
        annotations := annotations - {RotationStateKey};
      }
      return reachable;
    }

    /** `clearSurgeAndLock`. */
    method ClearSurgeAndLock(reachable: bool) returns (ok: bool)
      modifies this
      ensures ok == reachable && hasAllocation == old(hasAllocation)
      ensures Contents() == if ok then WithoutCycle(old(Contents())) else old(Contents())
      ensures machineCount == old(machineCount)
      ensures annotations == if ok then old(annotations) - {RotationStateKey, SurgePhaseKey} else old(annotations)
    {
      if reachable {
        annotations := annotations - {SurgePhaseKey};
        annotations := annotations - {RotationStateKey};
      }
      return reachable;
    }

    /** `withSurgeStep`: one write for lock, phase and count, or no change at all. */
    method WithSurgeStep(generation: string, next: SurgePhase, delta: int, now: int, reachable: bool) returns (ok: bool)
      modifies this
      ensures hasAllocation == old(hasAllocation)
      ensures ok <==> reachable && hasAllocation && old(machineCount) + delta >= 0
      ensures Contents() == if ok then WithSurge(old(Contents()), generation, next, delta, now) else old(Contents())
      ensures machineCount == if ok then Uint32(old(machineCount) + delta) else old(machineCount)
      ensures annotations == if ok then old(annotations)[RotationStateKey := LockText(generation, now)]
                                                        [SurgePhaseKey := FormatSurgePhase(next)]
                             else old(annotations)
    {
      if !reachable || !hasAllocation || machineCount + delta < 0 {
        return false;
      }
      annotations := annotations[RotationStateKey := FormatLock(Lock(generation, Unix(now)))];
      annotations := annotations[SurgePhaseKey := FormatSurgePhase(next)];
      machineCount := Uint32(machineCount + delta);
      return true;
    }
  }

  class MachineClassResource {
    var annotations: map<Key, string>
  }

  /** The two labels of a live MachineRequest that the teardown checks. */
  datatype Labels = Labels(providerID: string, machineSetID: string)

  class RequestStore {
    var live: map<string, Labels>
  }

  /** A surge phase whose fields fit the annotation. */
  predicate Storable(p: SurgePhase) {
    0 <= p.originalCount < INT64_LIMIT && IsInt64(p.startedSecs)
  }

  /** A decision whose annotations read back: the generation is a hash, so it has no colon. */
  predicate Writable(c: Plan.Candidate, a: Plan.Action, now: int) {
    && ':' !in c.currentGeneration
    && IsInt64(Unix(now))
    && (a.SurgeUp? || a.SurgeDown? ==> Storable(a.next))
  }

  /** Which of the writes of one Execute reach the server: the first, the destroy, the lock release. */
  datatype Reach = Reach(write: bool, destroy: bool, release: bool)

  datatype Outcome = Done | NotActionable | Failed

  /** Whether `teardownRequest` agrees to destroy a request. */
  predicate MayDestroy(live: map<string, Labels>, providerID: string, machineSetID: string, target: string) {
    target in live && (providerID != "" ==> live[target] == Labels(providerID, machineSetID))
  }

  /** Decisions that only wait. */
  predicate Waits(a: Plan.Action) {
    a.NoAction? || a.LockedByPriorStep? || a.WaitingForReady? || a.WaitingForTeardown? || a.MinHealthyFloor?
  }

  /** Whether the one write of a decision other than a teardown lands. */
  predicate Lands(a: Plan.Action, hasAllocation: bool, count: nat, write: bool) {
    write && (a.SurgeUp? ==> hasAllocation) && (a.SurgeDown? ==> hasAllocation && count > 0)
  }

  /** Whether a decision destroys its target. */
  predicate Destroys(a: Plan.Action, live: map<string, Labels>, providerID: string, machineSetID: string,
                     reach: Reach) {
    a.TeardownStale? && reach.write && reach.destroy && MayDestroy(live, providerID, machineSetID, a.target)
  }

  /** What one decision leaves on its MachineSet. A teardown that destroyed its target leaves no lock unless the release
      failed; one that did not leaves the lock it wrote. */
  predicate Decided(before: Stored, hasAllocation: bool, after: Stored,
                    c: Plan.Candidate, a: Plan.Action, now: int, reach: Reach, destroyed: bool) {
    if a.TeardownStale? then
      after == if !reach.write then before
               else if destroyed && reach.release then WithoutLock(before)
               else WithLock(before, c.currentGeneration, now)
    else
      after == if Lands(a, hasAllocation, before.count, reach.write) then StoredExecute(before, c, a, now) else before
  }

  class Engine {
    var lockTTL: int
    var providerID: string

    /** `WithLockTTL` clamps to 30 seconds from below. */
    method WithLockTTL(ttl: int)
      modifies this`lockTTL
      ensures lockTTL == if ttl <= 30_000_000_000 then 30_000_000_000 else ttl
    {
      lockTTL := if ttl < MIN_LOCK_TTL then MIN_LOCK_TTL else ttl;
    }

    /** `teardownRequest`: with a provider ID set, a request relabelled since the plan is left alone. */
    method TeardownRequest(store: RequestStore, machineSetID: string, target: string, reachable: bool)
        returns (ok: bool)
      modifies store
      ensures ok <==> reachable && MayDestroy(old(store.live), providerID, machineSetID, target)
      ensures ok <==>
              && reachable && target in old(store.live)
              && (providerID == "" || (old(store.live)[target].providerID == providerID
                                       && old(store.live)[target].machineSetID == machineSetID))
      ensures store.live == if ok then old(store.live) - {target} else old(store.live)
    {
      if providerID != "" {
        if target !in store.live || store.live[target].providerID != providerID {
          return false;
        }
        if store.live[target].machineSetID != machineSetID {
          return false;
        }
      }
      if !reachable || target !in store.live {
        return false;
      }
      store.live := store.live - {target};
      return true;
    }

    /** `withLock` around a teardown: a failed destroy leaves the lock to its TTL, and so does a failed release. */
    method TeardownWithLock(ms: MachineSetResource, machineSetID: string, store: RequestStore,
                            c: Plan.Candidate, target: string, now: int, reach: Reach)
      returns (r: Outcome)
      modifies ms, store
      ensures r.Done? <==> reach.write && reach.destroy && MayDestroy(old(store.live), providerID, machineSetID, target)
      ensures !r.Done? ==> r.Failed?
      ensures store.live == if r.Done? then old(store.live) - {target} else old(store.live)
      ensures ms.hasAllocation == old(ms.hasAllocation)
      ensures ms.Contents() == if !reach.write then old(ms.Contents())
                               else if r.Done? && reach.release then WithoutLock(old(ms.Contents()))
                               else WithLock(old(ms.Contents()), c.currentGeneration, now)
    {
      var locked := ms.SetLock(c.currentGeneration, now, reach.write);
      if !locked {
        return Failed;
      }
      var destroyed := TeardownRequest(store, machineSetID, target, reach.destroy);
      if !destroyed {
        return Failed;
      }
      var _ := ms.ClearLock(reach.release);
      return Done;
    }

    /** `Execute`: what it answers, and what each decision leaves on the set, the class and the requests. Whatever it
        does, no other annotation changes. */
    method Execute(ms: MachineSetResource, machineSetID: string, mc: MachineClassResource, store: RequestStore,
                   c: Plan.Candidate, a: Plan.Action, now: int, reach: Reach)
      returns (r: Outcome)
      modifies ms, mc, store
      ensures r.NotActionable? <==> Waits(a) && (c.phase.None? || reach.write)
      ensures r.Done? <==>
              && !Waits(a)
              && if a.TeardownStale? then
                   reach.write && reach.destroy && MayDestroy(old(store.live), providerID, machineSetID, a.target)
                 else Lands(a, old(ms.hasAllocation), old(ms.machineCount), reach.write)
      ensures Decided(old(ms.Contents()), old(ms.hasAllocation), ms.Contents(), c, a, now, reach,
                      Destroys(a, old(store.live), providerID, machineSetID, reach))
      ensures a.SurgeUp? && r.Done? ==>
                && ms.machineCount == Uint32(old(ms.machineCount) + 1)
                && SurgePhaseKey in ms.annotations && ms.annotations[SurgePhaseKey] == FormatSurgePhase(a.next)
      ensures a.SurgeDown? && r.Done? ==>
                && ms.machineCount == Uint32(old(ms.machineCount) - 1)
                && SurgePhaseKey in ms.annotations && ms.annotations[SurgePhaseKey] == FormatSurgePhase(a.next)
      ensures (a.SurgeCycleComplete? || a.SurgeAborted?) && r.Done? ==>
                ms.annotations == old(ms.annotations) - {RotationStateKey, SurgePhaseKey}
      ensures (a.SurgeUp? || a.SurgeDown? || (Waits(a) && c.phase.Some?)) && !r.Failed? ==>
                && RotationStateKey in ms.annotations
                && ms.annotations[RotationStateKey] == LockText(c.currentGeneration, now)
      ensures Waits(a) && c.phase.None? ==> ms.annotations == old(ms.annotations)
      ensures !a.SurgeUp? && !a.SurgeDown? ==> ms.machineCount == old(ms.machineCount)
      ensures ms.annotations - {RotationStateKey, SurgePhaseKey}
              == old(ms.annotations) - {RotationStateKey, SurgePhaseKey}
      ensures ms.hasAllocation == old(ms.hasAllocation)
      ensures store.live == if a.TeardownStale? && r.Done? then old(store.live) - {a.target} else old(store.live)
      ensures mc.annotations == if a.StampGeneration? && r.Done?
                                then old(mc.annotations)[ClassGenerationKey := c.currentGeneration]
                                else old(mc.annotations)
    {
      var ok: bool;
      match a
      case StampGeneration =>
        if !reach.write {
          return Failed;
        }
        mc.annotations := mc.annotations[ClassGenerationKey := c.currentGeneration];
        return Done;
      case TeardownStale(target) =>
        r := TeardownWithLock(ms, machineSetID, store, c, target, now, reach);
      case SurgeUp(next) =>
        ok := ms.WithSurgeStep(c.currentGeneration, next, 1, now, reach.write);
        return if ok then Done else Failed;
      case SurgeDown(next) =>
        ok := ms.WithSurgeStep(c.currentGeneration, next, -1, now, reach.write);
        return if ok then Done else Failed;
      case SurgeCycleComplete =>
        ok := ms.ClearSurgeAndLock(reach.write);
        return if ok then Done else Failed;
      case SurgeAborted(_) =>
        ok := ms.ClearSurgeAndLock(reach.write);
        return if ok then Done else Failed;
      case _ =>
        if c.phase.Some? {
          ok := ms.SetLock(c.currentGeneration, now, reach.write);
          if !ok {
            return Failed;
          }
        }
        return NotActionable;
    }

    /** The body of the loop in `tick`: plan one candidate and execute the decision. */
    method TickOne(ms: MachineSetResource, machineSetID: string, mc: MachineClassResource, store: RequestStore,
                   c: Plan.Candidate, now: int, reach: Reach)
      modifies ms, mc, store
      ensures var a := Plan.Plan(c, now, lockTTL);
              var destroyed := Destroys(a, old(store.live), providerID, machineSetID, reach);
              && Decided(old(ms.Contents()), old(ms.hasAllocation), ms.Contents(), c, a, now, reach, destroyed)
              && store.live == (if destroyed then old(store.live) - {a.target} else old(store.live))
              && mc.annotations == if a.StampGeneration? && reach.write
                                   then old(mc.annotations)[ClassGenerationKey := c.currentGeneration]
                                   else old(mc.annotations)
      ensures ms.hasAllocation == old(ms.hasAllocation)
      ensures Stamped(old(mc.annotations), c.currentGeneration) ==> Stamped(mc.annotations, c.currentGeneration)
      ensures Plan.Plan(c, now, lockTTL).StampGeneration? && reach.write ==>
                Stamped(mc.annotations, c.currentGeneration)
    {
      hide Plan.Plan, Decided, StoredExecute;
      var a := Plan.Plan(c, now, lockTTL);
      var _ := Execute(ms, machineSetID, mc, store, c, a, now, reach);
    }

    /** `tick` over the discovered candidates, whatever happens to the writes of each: every candidate gets its planned
        decision, exactly the planned targets that may be destroyed are, and every class that was to be stamped
        is. A request belongs to one set, and what a class's generation is depends on the class alone. */
    method Tick(sets: seq<MachineSetResource>, ids: seq<string>, classes: seq<MachineClassResource>,
                store: RequestStore, candidates: seq<Plan.Candidate>, now: int, reaches: seq<Reach>)
      requires |sets| == |ids| == |classes| == |candidates| == |reaches|
      requires DistinctSets(sets) && OneGeneration(classes, candidates)
      requires DistinctTargets(Plans(candidates, now, lockTTL))
      modifies sets, classes, store
      ensures var plans := Plans(candidates, now, lockTTL);
              && (forall i :: 0 <= i < |sets| ==>
                    Decided(old(sets[i].Contents()), old(sets[i].hasAllocation), sets[i].Contents(),
                            candidates[i], plans[i], now, reaches[i],
                            Destroys(plans[i], old(store.live), providerID, ids[i], reaches[i])))
              && store.live == old(store.live) - Doomed(plans, old(store.live), providerID, ids, reaches, |sets|)
              && forall i :: 0 <= i < |sets| && plans[i].StampGeneration? && reaches[i].write ==>
                   Stamped(classes[i].annotations, candidates[i].currentGeneration)
    {
      ghost var plans, live := Plans(candidates, now, lockTTL), store.live;
      assert Doomed(plans, live, providerID, ids, reaches, 0) == {};
      hide Plan.Plan, Decided, Destroys, Doomed, DistinctTargets, Stamped, DistinctSets, OneGeneration;
      for k := 0 to |sets|
        invariant forall i :: 0 <= i < k ==>
                    Decided(old(sets[i].Contents()), old(sets[i].hasAllocation), sets[i].Contents(),
                            candidates[i], plans[i], now, reaches[i],
                            Destroys(plans[i], live, providerID, ids[i], reaches[i]))
        invariant forall i :: k <= i < |sets| ==> unchanged(sets[i])
        invariant store.live == live - Doomed(plans, live, providerID, ids, reaches, k)
        invariant forall i :: 0 <= i < k && plans[i].StampGeneration? && reaches[i].write ==>
                    Stamped(classes[i].annotations, candidates[i].currentGeneration)
      {
        DoomedStep(plans, live, providerID, ids, reaches, k);
        OthersDiffer(sets, classes, candidates, k);
        TickOne(sets[k], ids[k], classes[k], store, candidates[k], now, reaches[k]);
      }
    }
  }

  ghost predicate DistinctSets(sets: seq<MachineSetResource>) {
    forall i, j :: 0 <= i < j < |sets| ==> sets[i] != sets[j]
  }

  ghost predicate OneGeneration(classes: seq<MachineClassResource>, candidates: seq<Plan.Candidate>)
    requires |classes| == |candidates|
  {
    forall i, j :: 0 <= i < j < |classes| && classes[i] == classes[j] ==>
      candidates[i].currentGeneration == candidates[j].currentGeneration
  }

  lemma OthersDiffer(sets: seq<MachineSetResource>, classes: seq<MachineClassResource>,
                     candidates: seq<Plan.Candidate>, k: nat)
    requires k < |sets| == |classes| == |candidates| && DistinctSets(sets) && OneGeneration(classes, candidates)
    ensures forall i :: 0 <= i < |sets| && i != k ==> sets[i] != sets[k]
    ensures forall i :: 0 <= i < |sets| && classes[i] == classes[k] ==>
              candidates[i].currentGeneration == candidates[k].currentGeneration
  {
  }

  predicate Stamped(annotations: map<Key, string>, generation: string) {
    ClassGenerationKey in annotations && annotations[ClassGenerationKey] == generation
  }

  /** What a tick plans for its candidates. */
  function Plans(candidates: seq<Plan.Candidate>, now: int, ttl: int): (plans: seq<Plan.Action>)
    ensures |plans| == |candidates|
    ensures forall i :: 0 <= i < |plans| ==> plans[i] == Plan.Plan(candidates[i], now, ttl)
  {
    seq(|candidates|, i requires 0 <= i < |candidates| => Plan.Plan(candidates[i], now, ttl))
  }

  ghost predicate DistinctTargets(plans: seq<Plan.Action>) {
    forall i, j :: 0 <= i < j < |plans| && plans[i].TeardownStale? && plans[j].TeardownStale? ==>
      plans[i].target != plans[j].target
  }

  /** The targets that the first `n` decisions destroy. */
  ghost function Doomed(plans: seq<Plan.Action>, live: map<string, Labels>, providerID: string, ids: seq<string>,
                        reaches: seq<Reach>, n: nat): set<string>
    requires n <= |plans| == |ids| == |reaches|
  {
    set i | 0 <= i < n && Destroys(plans[i], live, providerID, ids[i], reaches[i]) :: plans[i].target
  }

  /** One more decision, and no earlier one has changed what it may do. */
  lemma DoomedStep(plans: seq<Plan.Action>, live: map<string, Labels>, providerID: string, ids: seq<string>,
                   reaches: seq<Reach>, k: nat)
    requires k < |plans| == |ids| == |reaches| && DistinctTargets(plans)
    ensures var before := Doomed(plans, live, providerID, ids, reaches, k);
            var a, destroys := plans[k], Destroys(plans[k], live, providerID, ids[k], reaches[k]);
            && (Destroys(a, live - before, providerID, ids[k], reaches[k]) <==> destroys)
            && live - Doomed(plans, live, providerID, ids, reaches, k + 1)
               == if destroys then live - before - {a.target} else live - before
  {
    var before, a := Doomed(plans, live, providerID, ids, reaches, k), plans[k];
    assert Doomed(plans, live, providerID, ids, reaches, k + 1)
           == before + if Destroys(a, live, providerID, ids[k], reaches[k]) then {a.target} else {};
  }
}
