/** The autoscaler's view of a node group and its count write, alone and in every interleaving of any
    number of replicas with manual edits and rotation locks. */
module Autoscaler {
  import opened Text
  import opened RotationAnnotations
  import Rotation = RotationEngine

  datatype Config = Config(min: int, max: int)

  datatype NodeGroup = NodeGroup(currentSize: int, config: Option<Config>)

  datatype ScaleResult =
    | Scaled(size: nat)
    | InvalidDelta
    | MissingConfig
    | AtOrAboveMax
    | RotationLockHeld
    | WriteFailed

  predicate Paused(raw: Option<string>, now: int) {
    raw.Some? && AutoscalerSeesLock(raw.value, now, LOCK_TTL)
  }

  /** `classify` for an opted-in worker group: a live rotation lock clamps the window to the current size. */
  function Classify(count: nat, raw: Option<string>, cfg: Config, now: int): NodeGroup {
    NodeGroup(count, Some(if Paused(raw, now) then Config(count, count) else cfg))
  }

  /** `IncreaseMachineCount` against the MachineSet as its callback finds it. */
  function Increase(count: nat, raw: Option<string>, group: NodeGroup, delta: int, now: int): ScaleResult {
    if delta <= 0 then InvalidDelta
    else if group.config.None? then MissingConfig
    else if group.currentSize + delta > group.config.value.max then AtOrAboveMax
    else if Paused(raw, now) then RotationLockHeld
    else if count + delta > group.config.value.max then AtOrAboveMax
    else Scaled(Uint32(count + delta))
  }

  /** What a replica is shown: the configured window, or while the lock is live one that is exactly the current size. */
  lemma ClassifyIff(count: nat, raw: Option<string>, cfg: Config, now: int)
    ensures var g := Classify(count, raw, cfg, now);
            && g.currentSize == count
            && g.config == Some(if raw.Some? && AutoscalerSeesLock(raw.value, now, 300_000_000_000)
                                then Config(count, count) else cfg)
  {
  }

  /** A group that was paused when it was discovered can never be scaled, whatever the live set looks like. */
  lemma PausedGroupIsNeverScaled(count: nat, raw: Option<string>, cfg: Config, seen: int,
                                 live: nat, liveRaw: Option<string>, delta: int, now: int)
    requires Paused(raw, seen)
    ensures !Increase(live, liveRaw, Classify(count, raw, cfg, seen), delta, now).Scaled?
  {
  }

  class ScaleWriter {
    /** The write itself: the live lock and the live bound are checked inside the update. */
    method IncreaseMachineCount(ms: Rotation.MachineSetResource, group: NodeGroup, delta: int, now: int,
        reachable: bool)
      returns (r: ScaleResult)
      modifies ms`machineCount
      ensures var raw := if Rotation.RotationStateKey !in ms.annotations then None
                         else Some(ms.annotations[Rotation.RotationStateKey]);
              var spec := Increase(old(ms.machineCount), raw, group, delta, now);
              r == if spec.InvalidDelta? || spec.MissingConfig? then spec
                   else if group.currentSize + delta > group.config.value.max then AtOrAboveMax
                   else if !reachable || !ms.hasAllocation then WriteFailed
                   else spec
      ensures r.Scaled? <==>
              && delta > 0 && group.config.Some?
              && reachable && ms.hasAllocation
              && !(Rotation.RotationStateKey in ms.annotations
                   && AutoscalerSeesLock(ms.annotations[Rotation.RotationStateKey], now, 300_000_000_000))
              && group.currentSize + delta <= group.config.value.max
              && old(ms.machineCount) + delta <= group.config.value.max
      ensures ms.machineCount == if r.Scaled? then Uint32(old(ms.machineCount) + delta) else old(ms.machineCount)
      ensures r.Scaled? ==> r.size == ms.machineCount
    {
      hide AutoscalerSeesLock, Uint32;
      if delta <= 0 {
        return InvalidDelta;
      }
      if group.config.None? {
        return MissingConfig;
      }
      var max := group.config.value.max;
      if group.currentSize + delta > max {
        return AtOrAboveMax;
      }
      if !reachable || !ms.hasAllocation {
        return WriteFailed;
      }
      if Rotation.RotationStateKey in ms.annotations {
        if AutoscalerSeesLock(ms.annotations[Rotation.RotationStateKey], now, LOCK_TTL) {
          return RotationLockHeld;
        }
      }
      var liveNew := ms.machineCount + delta;
      if liveNew > max {
        return AtOrAboveMax;
      }
      ms.machineCount := Uint32(liveNew);
      return Scaled(ms.machineCount);
    }
  }

  // ----- Runs

  /** A landed write: what it found, what it left, and what its replica had discovered. */
  datatype Write = Write(before: nat, after: nat, delta: int, max: int, pausedAtDiscover: bool, pausedAtWrite: bool)

  datatype Discovered = Discovered(group: NodeGroup, max: int, paused: bool)

  datatype World = World(
    count: nat,
    lock: Option<string>,
    now: int,
    replicas: map<nat, Discovered>,
    edits: int,        // sum of the changes made by hand
    scaled: int,       // sum of the deltas of landed writes
    writes: seq<Write>)

  datatype Step =
    | Discover(replica: nat, config: Config)
    | Cas(replica: nat, delta: int)
    | Edit(count: nat)
    | EditLock(lock: Option<string>)
    | Elapse(now: int)

  function Next(w: World, s: Step): World {
    match s
    case Discover(r, cfg) =>
      w.(replicas := w.replicas[r := Discovered(Classify(w.count, w.lock, cfg, w.now), cfg.max, Paused(w.lock, w.now))])
    case Cas(r, delta) =>
      if r !in w.replicas then w
      else
        var d := w.replicas[r];
        var result := Increase(w.count, w.lock, d.group, delta, w.now);
        var used := w.(replicas := w.replicas - {r});
        if !result.Scaled? then used
        else
          used.(count := result.size, scaled := w.scaled + delta,
                writes := w.writes + [Write(w.count, result.size, delta, d.max, d.paused, Paused(w.lock, w.now))])
    case Edit(n) => if n < UINT32_LIMIT then w.(count := n, edits := w.edits + n - w.count) else w
    case EditLock(raw) => w.(lock := raw)
    case Elapse(t) => w.(now := t)
  }

  function Run(w: World, steps: seq<Step>): World {
    if steps == [] then w else Next(Run(w, steps[..|steps| - 1]), steps[|steps| - 1])
  }

  predicate Start(w: World) {
    w.count < UINT32_LIMIT && w.replicas == map[] && w.edits == w.scaled == 0 && w.writes == []
  }

  /** A write that neither replica view nor live view of a lock could have stopped. */
  predicate Sound(wr: Write) {
    && !wr.pausedAtDiscover && !wr.pausedAtWrite
    && wr.delta > 0
    && wr.before + wr.delta <= wr.max
    && (wr.max < UINT32_LIMIT ==> wr.after == wr.before + wr.delta <= wr.max)
  }

  ghost predicate Inv(initial: nat, w: World) {
    && w.count == Uint32(initial + w.edits + w.scaled)
    && (forall r :: r in w.replicas ==> Honest(w.replicas[r]))
    && (forall i :: 0 <= i < |w.writes| ==> Sound(w.writes[i]))
  }

  /** What a replica's discovery leaves it with. */
  predicate Honest(d: Discovered) {
    if d.paused then d.group.config == Some(Config(d.group.currentSize, d.group.currentSize))
    else d.group.config.Some? && d.group.config.value.max == d.max
  }

  lemma ScaledIsSound(w: World, d: Discovered, delta: int)
    requires Honest(d) && w.count < UINT32_LIMIT && Increase(w.count, w.lock, d.group, delta, w.now).Scaled?
    ensures var size := Increase(w.count, w.lock, d.group, delta, w.now).size;
            && size == Uint32(w.count + delta)
            && Sound(Write(w.count, size, delta, d.max, d.paused, Paused(w.lock, w.now)))
  {
  }

  lemma ClassifyIsHonest(count: nat, raw: Option<string>, cfg: Config, now: int)
    ensures Honest(Discovered(Classify(count, raw, cfg, now), cfg.max, Paused(raw, now)))
  {
  }

  lemma InvCas(initial: nat, w: World, r: nat, delta: int)
    requires Inv(initial, w) && r in w.replicas
    ensures Inv(initial, Next(w, Cas(r, delta)))
  {
    if Increase(w.count, w.lock, w.replicas[r].group, delta, w.now).Scaled? {
      ScaledIsSound(w, w.replicas[r], delta);
      Uint32Add(initial + w.edits + w.scaled, delta);
    }
  }

  lemma InvStep(initial: nat, w: World, s: Step)
    requires Inv(initial, w)
    ensures Inv(initial, Next(w, s))
  {
    match s
    case Discover(r, cfg) => ClassifyIsHonest(w.count, w.lock, cfg, w.now);
    case Cas(r, delta) => if r in w.replicas { InvCas(initial, w, r, delta); }
    case _ =>
  }

  /** In every interleaving the count is the initial count plus the manual changes plus the deltas of the
      writes that landed, in 32-bit arithmetic; and no write landed for a replica that saw a live lock when
      it discovered the group or when it wrote, nor above the maximum it had discovered. */
  lemma {:induction false} ScalingIsConserved(w0: World, steps: seq<Step>)
    requires Start(w0)
    ensures var w := Run(w0, steps);
            && Inv(w0.count, w)
            && (0 <= w0.count + w.edits + w.scaled < UINT32_LIMIT ==> w.count == w0.count + w.edits + w.scaled)
            && forall i :: 0 <= i < |w.writes| ==> Sound(w.writes[i])
  {
    if steps == [] {
    } else {
      ScalingIsConserved(w0, steps[..|steps| - 1]);
      InvStep(w0.count, Run(w0, steps[..|steps| - 1]), steps[|steps| - 1]);
    }
  }

  /** A replica's write lands: one more entry, the delta accounted for, and the live count raised by it. */
  ghost predicate WriteLands(w: World, t: World, delta: int) {
    |t.writes| == |w.writes| + 1 && t.scaled == w.scaled + delta && t.count == Uint32(w.count + delta)
  }

  /** In every interleaving, a replica's write lands exactly when it adds something, the set was unlocked both when the
      replica discovered it and now, and neither the size it saw then nor the live count would pass the maximum it
      saw; otherwise nothing is written. Edits in between do not matter by themselves. */
  lemma WriteLandsIff(w0: World, steps: seq<Step>, r: nat, delta: int)
    requires Start(w0) && r in Run(w0, steps).replicas
    ensures var w := Run(w0, steps); var d := w.replicas[r]; var t := Next(w, Cas(r, delta));
            if delta > 0 && !d.paused && !Paused(w.lock, w.now)
               && d.group.currentSize + delta <= d.max && w.count + delta <= d.max
            then WriteLands(w, t, delta)
            else t == w.(replicas := w.replicas - {r})
  {
    ScalingIsConserved(w0, steps);
    assert Honest(Run(w0, steps).replicas[r]);
  }

  /** A replica that discovers an unlocked set, whose count is then edited to `n`, scales it to `n + delta` exactly when
      neither the count it saw nor the edited one leaves too little room below its maximum. */
  lemma StaleDiscoveryLandsIff(w: World, r: nat, cfg: Config, n: nat, delta: int)
    requires !Paused(w.lock, w.now) && n < UINT32_LIMIT && delta > 0
    ensures var t := Next(Next(Next(w, Discover(r, cfg)), Edit(n)), Cas(r, delta));
            && t.edits == w.edits + n - w.count
            && if w.count + delta <= cfg.max && n + delta <= cfg.max
               then t.count == Uint32(n + delta) && t.scaled == w.scaled + delta
               else t.count == n && t.scaled == w.scaled
  {
  }

  /** No configured maximum is above `max`. */
  ghost predicate BoundedBy(steps: seq<Step>, max: int) {
    forall i :: 0 <= i < |steps| ==> steps[i].Discover? ==> steps[i].config.max <= max
  }

  ghost predicate Exact(initial: nat, w: World) {
    w.count == initial + w.edits + w.scaled
  }

  lemma {:induction false} ExactInRun(w0: World, steps: seq<Step>, max: int)
    requires Start(w0) && BoundedBy(steps, max) && max < UINT32_LIMIT
    ensures var w := Run(w0, steps);
            Inv(w0.count, w) && Exact(w0.count, w) && forall r :: r in w.replicas ==> w.replicas[r].max < UINT32_LIMIT
  {
    if steps == [] {
    } else {
      var w := Run(w0, steps[..|steps| - 1]);
      ExactInRun(w0, steps[..|steps| - 1], max);
      InvStep(w0.count, w, steps[|steps| - 1]);
    }
  }

  /** A full group under a maximum that does not fit the field: the next accepted scale-up empties the set. */
  lemma LargeMaximumWraps(w0: World, max: int)
    requires Start(w0) && w0.count == UINT32_LIMIT - 1 && w0.lock == None && max >= UINT32_LIMIT
    ensures var w := Run(w0, [Discover(0, Config(0, max)), Cas(0, 1)]);
            |w.writes| == 1 && w.count == 0 && !Exact(w0.count, w)
  {
    var discover, cas := Discover(0, Config(0, max)), Cas(0, 1);
    assert [discover, cas][..1] == [discover] && [discover][..0] == [];
    assert Run(w0, []) == w0;
    var w1 := Run(w0, [discover]);
    assert w1 == Next(w0, discover) && Run(w0, [discover, cas]) == Next(w1, cas);
  }

  /** Whatever the largest maximum in use, the count is conserved without wrapping in all runs exactly when it
      fits the 32-bit field. */
  lemma ScalingIsExactIff(max: int)
    ensures (forall w0, steps :: Start(w0) && BoundedBy(steps, max) ==> Exact(w0.count, Run(w0, steps)))
            <==> max < UINT32_LIMIT
  {
    if max < UINT32_LIMIT {
      forall w0, steps | Start(w0) && BoundedBy(steps, max) ensures Exact(w0.count, Run(w0, steps)) {
        ExactInRun(w0, steps, max);
      }
    } else {
      var w0 := World(UINT32_LIMIT - 1, None, 0, map[], 0, 0, []);
      var steps := [Discover(0, Config(0, max)), Cas(0, 1)];
      LargeMaximumWraps(w0, max);
      assert Start(w0) && BoundedBy(steps, max) && !Exact(w0.count, Run(w0, steps));
    }
  }
}
