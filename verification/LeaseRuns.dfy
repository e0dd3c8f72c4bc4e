/** Runs of any number of provider instances competing for one lease. Every update is split into the
    callback that reads a version of the resource and the compare-and-swap that may lose; a write may also
    land although the caller is told it failed. Instances crash, cancel and release; nothing deletes the
    resource. */
module LeaseRuns {
  import opened Text
  import opened Lease

  /** `gap` bounds the time from the clock reading in a holder's heartbeat, or from a failed tick, to the
      completion of its next tick. Perfectly punctual ticks have gap == refresh. */
  datatype Params = Params(refresh: nat, staleAfter: nat, gap: nat)

  datatype Pc =
    | Idle
    | Creating                                           // found no resource
    | CreatePrepared(res: Resource, reading: int)
    | Acquiring                                          // about to run the update callback
    | AcquirePrepared(res: Resource, version: nat, reading: int)
    | Running
    | RefreshPrepared(res: Resource, version: nat, reading: int)
    | Stopped                                            // Run has returned

  datatype Instance = Instance(mem: Memory, pc: Pc, errors: nat, due: int)

  datatype State = State(
    now: int,
    version: nat,
    stored: Option<Resource>,
    insts: map<string, Instance>,
    changes: nat)                                        // changes of owner so far

  datatype Step =
    | Get(id: string)
    | PrepareCreate(id: string)
    | CommitCreate(id: string)
    | FailCreate(id: string, landed: bool)
    | PrepareAcquire(id: string)
    | CommitAcquire(id: string)
    | FailAcquire(id: string, landed: bool)
    | PrepareRefresh(id: string)
    | CommitRefresh(id: string)
    | FailRefresh(id: string, landed: bool)
    | Cancel(id: string)
    | Crash(id: string)
    | Release(id: string)
    | Elapse(now: int)

  /** Has acquired the lease, and its Run loop has neither lost it nor returned. */
  predicate Active(i: Instance) {
    i.pc.Running? || i.pc.RefreshPrepared?
  }

  predicate Enabled(p: Params, s: State, step: Step) {
    match step
    case Elapse(t) => s.now <= t && forall id :: id in s.insts && Active(s.insts[id]) ==> t <= s.insts[id].due
    case Get(id) => id in s.insts && s.insts[id].pc.Idle?
    case PrepareCreate(id) => id in s.insts && s.insts[id].pc.Creating?
    case CommitCreate(id) =>
      id in s.insts && s.insts[id].pc.CreatePrepared? && s.now <= s.insts[id].pc.reading + p.gap
    case FailCreate(id, landed) => id in s.insts && s.insts[id].pc.CreatePrepared? && (landed ==> s.stored.None?)
    case PrepareAcquire(id) => id in s.insts && s.insts[id].pc.Acquiring? && s.stored.Some?
    case CommitAcquire(id) =>
      id in s.insts && s.insts[id].pc.AcquirePrepared? && s.now <= s.insts[id].pc.reading + p.gap
    case FailAcquire(id, landed) =>
      id in s.insts && s.insts[id].pc.AcquirePrepared? && (landed ==> s.insts[id].pc.version == s.version)
    case PrepareRefresh(id) => id in s.insts && s.insts[id].pc.Running? && s.stored.Some?
    case CommitRefresh(id) =>
      id in s.insts && s.insts[id].pc.RefreshPrepared? && s.now <= s.insts[id].pc.reading + p.gap
    case FailRefresh(id, landed) =>
      id in s.insts && Active(s.insts[id])
      && (landed ==> s.insts[id].pc.RefreshPrepared? && s.insts[id].pc.version == s.version)
    case Cancel(id) => id in s.insts && Active(s.insts[id])
    case Crash(id) => id in s.insts
    case Release(id) => id in s.insts && s.insts[id].pc.Stopped? && s.stored.Some?
  }

  function Put(s: State, id: string, i: Instance): State {
    s.(insts := s.insts[id := i])
  }

  function OwnerOf(stored: Option<Resource>): Option<string> {
    if stored.Some? then stored.value.owner else None
  }

  /** A write that lands. */
  function Land(s: State, r: Resource): State {
    s.(stored := Some(r.(updated := Some(s.now))), version := s.version + 1,
       changes := if OwnerOf(s.stored) != r.owner then s.changes + 1 else s.changes)
  }

  function Next(p: Params, s: State, step: Step): State
    requires Enabled(p, s, step)
  {
    match step
    case Elapse(t) => s.(now := t)
    case Get(id) => Put(s, id, s.insts[id].(pc := if s.stored.None? then Creating else Acquiring))
    case PrepareCreate(id) =>
      var i := s.insts[id];
      Put(s, id, i.(mem := i.mem.(epoch := 1),
                    pc := CreatePrepared(Resource(Some(id), At(s.now), Some(1), None), s.now)))
    case CommitCreate(id) =>
      var i := s.insts[id];
      if s.stored.Some? then Put(s, id, i.(pc := Acquiring))
      else Put(Land(s, i.pc.res), id, i.(pc := Running, errors := 0, due := i.pc.reading + p.gap))
    case FailCreate(id, landed) =>
      var i := s.insts[id];
      Put(if landed then Land(s, i.pc.res) else s, id, i.(pc := Idle))
    case PrepareAcquire(id) =>
      var i := s.insts[id];
      var (m, a) := AcquireCallback(i.mem, s.stored.value, id, p.staleAfter, s.now);
      Put(s, id, i.(mem := m, pc := if a.Held? then Idle else AcquirePrepared(a.res, s.version, s.now)))
    case CommitAcquire(id) =>
      var i := s.insts[id];
      if i.pc.version != s.version then Put(s, id, i.(pc := Acquiring))
      else Put(Land(s, i.pc.res), id, i.(pc := Running, errors := 0, due := i.pc.reading + p.gap))
    case FailAcquire(id, landed) =>
      var i := s.insts[id];
      Put(if landed then Land(s, i.pc.res) else s, id, i.(pc := Idle))
    case PrepareRefresh(id) =>
      var i := s.insts[id];
      var c := RefreshCallback(i.mem, s.stored.value, id, s.now);
      Put(s, id, i.(pc := if c.Stolen? then Stopped else RefreshPrepared(c.res, s.version, s.now)))
    case CommitRefresh(id) =>
      var i := s.insts[id];
      if i.pc.version != s.version then Put(s, id, i.(pc := Running))
      else Put(Land(s, i.pc.res), id, i.(pc := Running, errors := 0, due := i.pc.reading + p.gap))
    case FailRefresh(id, landed) =>
      var i := s.insts[id];
      Put(if landed then Land(s, i.pc.res) else s, id,
          if i.errors + 1 >= MAX_CONSECUTIVE_ERRORS then i.(pc := Stopped)
          else i.(pc := Running, errors := i.errors + 1, due := s.now + p.gap))
    case Cancel(id) => Put(s, id, s.insts[id].(pc := Stopped))
    case Crash(id) => s.(insts := s.insts - {id})
    case Release(id) =>
      var r := ReleaseCallback(s.stored.value, id);
      if r == s.stored.value then s else Land(s, r)
  }

  ghost predicate ValidRun(p: Params, s: State, steps: seq<Step>)
    decreases |steps|
  {
    steps == [] || (Enabled(p, s, steps[0]) && ValidRun(p, Next(p, s, steps[0]), steps[1..]))
  }

  ghost function Run(p: Params, s: State, steps: seq<Step>): State
    requires ValidRun(p, s, steps)
    decreases |steps|
  {
    if steps == [] then s else Run(p, Next(p, s, steps[0]), steps[1..])
  }

  /** Every instance idle and new; the resource may be missing, unclaimed, or left by anyone (an earlier
      process under one of these IDs included). */
  ghost predicate Start(s: State) {
    && s.changes == 0
    && (forall id :: id in s.insts ==> s.insts[id] == Instance(Memory(0, false), Idle, 0, 0))
    && (s.stored.Some? ==> ReadEpoch(s.stored.value) < UINT64_LIMIT)
  }

  // ----- What every prepared write knows about the resource it read

  /** The acquire callback may claim this resource for `id` at time `t`. */
  predicate Claimable(p: Params, stored: Option<Resource>, id: string, t: int) {
    stored.Some? && !HeldByOther(stored.value, id, p.staleAfter, t)
  }

  predicate Prepared(p: Params, s: State, id: string) {
    id in s.insts ==>
      match s.insts[id].pc
      case CreatePrepared(r, t) => t <= s.now && r.owner == Some(id) && r.heartbeat == At(t)
      case AcquirePrepared(r, v, t) =>
        && v <= s.version && t <= s.now && r.owner == Some(id) && r.heartbeat == At(t)
        && (v == s.version ==> Claimable(p, s.stored, id, t))
      case RefreshPrepared(r, v, t) =>
        && v <= s.version && t <= s.now && r.owner == Some(id) && r.heartbeat == At(t)
        && (v == s.version ==> s.stored.Some? && (s.stored.value.owner == None || s.stored.value.owner == Some(id)))
      case _ => true
  }

  ghost predicate AllPrepared(p: Params, s: State) {
    forall id :: id in s.insts ==> Prepared(p, s, id)
  }

  /** A step leaves all other instances alone, and either lands one write or leaves the resource alone. */
  lemma Frame(p: Params, s: State, step: Step, id: string)
    requires Enabled(p, s, step) && (step.Elapse? || step.id != id)
    ensures var t := Next(p, s, step);
            && t.now >= s.now
            && (id in t.insts <==> id in s.insts)
            && (id in t.insts ==> t.insts[id] == s.insts[id])
            && ((t.version == s.version && t.stored == s.stored) || (t.version == s.version + 1 && t.stored.Some?))
  {
  }

  lemma PreparedByOthers(p: Params, s: State, step: Step, id: string)
    requires Prepared(p, s, id) && Enabled(p, s, step) && (step.Elapse? || step.id != id)
    ensures Prepared(p, Next(p, s, step), id)
  {
    Frame(p, s, step, id);
  }

  lemma PreparedByOwn(p: Params, s: State, step: Step)
    requires Enabled(p, s, step) && !step.Elapse? && Prepared(p, s, step.id)
    ensures Prepared(p, Next(p, s, step), step.id)
  {
  }

  lemma PreparedStep(p: Params, s: State, step: Step)
    requires AllPrepared(p, s) && Enabled(p, s, step)
    ensures AllPrepared(p, Next(p, s, step))
  {
    var t := Next(p, s, step);
    forall id | id in t.insts ensures Prepared(p, t, id) {
      if step.Elapse? || step.id != id {
        Frame(p, s, step, id);
        PreparedByOthers(p, s, step, id);
      } else {
        PreparedByOwn(p, s, step);
      }
    }
  }

  lemma {:induction false} PreparedInRun(p: Params, s: State, steps: seq<Step>)
    requires AllPrepared(p, s) && ValidRun(p, s, steps)
    ensures AllPrepared(p, Run(p, s, steps))
    decreases |steps|
  {
    if steps == [] {
    } else {
      PreparedStep(p, s, steps[0]);
      PreparedInRun(p, Next(p, s, steps[0]), steps[1..]);
    }
  }

  // ----- A fresh holder is never displaced

  /** Why an owner is the owner no longer: its own release, or a takeover of a lease that was stale or unreadable. */
  predicate RightlyLost(p: Params, s: State, step: Step, t: State, owner: string) {
    || step == Release(owner)
    || ((step.CommitAcquire? || step.FailAcquire?) && step.id != owner && OwnerOf(t.stored) == Some(step.id)
        && s.stored.Some?
        && (LeaseAge(s.stored.value, s.now).None? || LeaseAge(s.stored.value, s.now).value >= p.staleAfter))
  }

  lemma OwnershipStep(p: Params, s: State, step: Step, owner: string)
    requires AllPrepared(p, s) && Enabled(p, s, step) && OwnerOf(s.stored) == Some(owner)
    ensures var t := Next(p, s, step); OwnerOf(t.stored) != Some(owner) ==> RightlyLost(p, s, step, t, owner)
  {
    if !step.Elapse? && step.id in s.insts {
      assert Prepared(p, s, step.id);
    }
  }

  /** In every run, ownership leaves an instance only through its own release, or through a takeover of a lease
      whose age had reached the stale limit or could not be read. In particular no refresh ever does it. */
  lemma OnlyStaleLeasesAreTaken(p: Params, s0: State, steps: seq<Step>, step: Step, owner: string)
    requires Start(s0) && ValidRun(p, s0, steps) && Enabled(p, Run(p, s0, steps), step)
    requires OwnerOf(Run(p, s0, steps).stored) == Some(owner)
    ensures var s := Run(p, s0, steps); var t := Next(p, s, step);
            OwnerOf(t.stored) != Some(owner) ==> RightlyLost(p, s, step, t, owner)
  {
    PreparedInRun(p, s0, steps);
    OwnershipStep(p, Run(p, s0, steps), step, owner);
  }

  /** The owner's lease stays readable and younger than the stale limit all along a run. */
  ghost predicate KeptFresh(p: Params, s: State, steps: seq<Step>, owner: string)
    requires ValidRun(p, s, steps)
    decreases |steps|
  {
    && (OwnerOf(s.stored) == Some(owner) ==>
          LeaseAge(s.stored.value, s.now).Some? && LeaseAge(s.stored.value, s.now).value < p.staleAfter)
    && (steps != [] ==> steps[0] != Release(owner) && KeptFresh(p, Next(p, s, steps[0]), steps[1..], owner))
  }

  lemma {:induction false} FreshOwnerKeeps(p: Params, s: State, steps: seq<Step>, owner: string)
    requires AllPrepared(p, s) && ValidRun(p, s, steps) && OwnerOf(s.stored) == Some(owner)
    requires KeptFresh(p, s, steps, owner)
    ensures OwnerOf(Run(p, s, steps).stored) == Some(owner)
    decreases |steps|
  {
    if steps == [] {
    } else {
      OwnershipStep(p, s, steps[0], owner);
      PreparedStep(p, s, steps[0]);
      FreshOwnerKeeps(p, Next(p, s, steps[0]), steps[1..], owner);
    }
  }

  /** In every run, from the moment an instance owns the lease and for as long as its successive heartbeats are
      less than the stale limit apart and it does not release, it is never displaced, whatever the others
      have prepared or try and however their writes are delayed. */
  lemma FreshHolderIsNeverDisplaced(p: Params, s0: State, before: seq<Step>, after: seq<Step>, owner: string)
    requires Start(s0) && ValidRun(p, s0, before) && ValidRun(p, Run(p, s0, before), after)
    requires OwnerOf(Run(p, s0, before).stored) == Some(owner)
    requires KeptFresh(p, Run(p, s0, before), after, owner)
    ensures OwnerOf(Run(p, Run(p, s0, before), after).stored) == Some(owner)
  {
    PreparedInRun(p, s0, before);
    FreshOwnerKeeps(p, Run(p, s0, before), after, owner);
  }

  // ----- Three failures in a row

  /** A write of this instance's that it knows to have landed. */
  predicate Lands(p: Params, s: State, step: Step, id: string)
    requires Enabled(p, s, step)
  {
    (step == CommitCreate(id) || step == CommitAcquire(id) || step == CommitRefresh(id))
    && Next(p, s, step).version != s.version
  }

  /** The failed ticks of an instance since its last write that landed. */
  ghost function Failures(p: Params, s: State, steps: seq<Step>, id: string, before: nat): nat
    requires ValidRun(p, s, steps)
    decreases |steps|
  {
    if steps == [] then before
    else
      var failed := if steps[0].FailRefresh? && steps[0].id == id then before + 1
                    else if Lands(p, s, steps[0], id) then 0 else before;
      Failures(p, Next(p, s, steps[0]), steps[1..], id, failed)
  }

  predicate CountsFailures(s: State, id: string, failures: nat) {
    id in s.insts && Active(s.insts[id]) ==> s.insts[id].errors == failures < MAX_CONSECUTIVE_ERRORS
  }

  lemma {:induction false} ErrorsCountFailures(p: Params, s: State, steps: seq<Step>, id: string, before: nat)
    requires ValidRun(p, s, steps) && CountsFailures(s, id, before)
    ensures CountsFailures(Run(p, s, steps), id, Failures(p, s, steps, id, before))
    decreases |steps|
  {
    if steps == [] {
    } else {
      var failed := if steps[0].FailRefresh? && steps[0].id == id then before + 1
                    else if Lands(p, s, steps[0], id) then 0 else before;
      var t := Next(p, s, steps[0]);
      assert CountsFailures(t, id, failed);
      ErrorsCountFailures(p, t, steps[1..], id, failed);
    }
  }

  /** In every run, a failed tick ends an instance's loop exactly when it is the third since the last heartbeat that
      instance knows it has written; failures of others, and own ones before that heartbeat, do not count. */
  lemma ThirdFailureStops(p: Params, s0: State, steps: seq<Step>, id: string, landed: bool)
    requires Start(s0) && ValidRun(p, s0, steps) && Enabled(p, Run(p, s0, steps), FailRefresh(id, landed))
    ensures var t := Next(p, Run(p, s0, steps), FailRefresh(id, landed));
            id in t.insts && t.insts[id].pc == if Failures(p, s0, steps, id, 0) == 2 then Stopped else Running
  {
    ErrorsCountFailures(p, s0, steps, id, 0);
  }
}
