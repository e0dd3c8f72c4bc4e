/** The fencing epoch over whole runs of the singleton lease: what each write does to it, what an instance knows
    of it, and when a released lease starts again at 1. */
module LeaseEpochs {
  import opened Text
  import opened Lease
  import opened LeaseExclusion
  import opened LeaseRuns

  ghost predicate NoRelease(steps: seq<Step>) {
    forall i :: 0 <= i < |steps| ==> !steps[i].Release?
  }

  function StoredEpoch(s: State): nat {
    if s.stored.Some? then ReadEpoch(s.stored.value) else 0
  }

  /** The epoch a claim or refresh of `id` must carry on top of the stored one. */
  function NextEpoch(s: State, id: string): nat {
    if OwnerOf(s.stored) == Some(id) then StoredEpoch(s) else Uint64(StoredEpoch(s) + 1)
  }

  /** What instance `id` knows about the epoch, at each point of its program. While it is active and the
      lease has been released by another, the stored epoch is 0. */
  predicate Fenced(s: State, id: string) {
    id in s.insts ==>
      var i := s.insts[id];
      && (OwnerOf(s.stored) == Some(id) ==> i.mem.epoch == 0 || i.mem.epoch == StoredEpoch(s))
      && (Active(i) ==> s.stored.Some?
                        && (OwnerOf(s.stored) == Some(id) ==> i.mem.epoch == StoredEpoch(s))
                        && (OwnerOf(s.stored) == None ==> StoredEpoch(s) == 0))
      && match i.pc
         case Creating => OwnerOf(s.stored) != Some(id)
         case CreatePrepared(r, _) =>
           OwnerOf(s.stored) != Some(id) && i.mem.epoch == 1 && r.owner == Some(id) && r.epoch == Some(1)
         case AcquirePrepared(r, v, _) =>
           && v <= s.version && r.owner == Some(id)
           && (v == s.version ==> s.stored.Some? && r.epoch == Some(i.mem.epoch) && i.mem.epoch == NextEpoch(s, id))
         case RefreshPrepared(r, v, _) =>
           && v <= s.version && r.owner == Some(id)
           && (v == s.version ==> r.epoch == Some(i.mem.epoch)
                                  && (OwnerOf(s.stored) == Some(id) || OwnerOf(s.stored) == None))
         case _ => true
  }

  ghost predicate AllFenced(s: State) {
    StoredEpoch(s) < UINT64_LIMIT &&
    forall id :: id in s.insts ==> Fenced(s, id) && s.insts[id].mem.epoch < UINT64_LIMIT
  }

  /** While anyone is active the lease has an owner; only a release can end that. */
  ghost predicate Claimed(s: State) {
    forall id :: id in s.insts && Active(s.insts[id]) ==> OwnerOf(s.stored).Some?
  }

  /** A step that is not a release either changes nothing about the lease's owner and epoch, or is a claim with
      the next epoch, or is an active instance taking back a lease that another has released. */
  predicate EpochMoves(s: State, t: State) {
    || (OwnerOf(t.stored) == OwnerOf(s.stored) && StoredEpoch(t) == StoredEpoch(s) && t.changes == s.changes)
    || (OwnerOf(t.stored) != OwnerOf(s.stored) && t.changes == s.changes + 1
        && (StoredEpoch(t) == Uint64(StoredEpoch(s) + 1) || (OwnerOf(s.stored) == None && StoredEpoch(s) == 0)))
  }

  /** What every step but a release guarantees. */
  ghost predicate EpochRule(s: State, step: Step, t: State) {
    && EpochMoves(s, t) && StoredEpoch(t) < UINT64_LIMIT
    && (OwnerOf(t.stored) != OwnerOf(s.stored) ==> !step.Elapse? && OwnerOf(t.stored) == Some(step.id))
    && (Claimed(s) && OwnerOf(t.stored) != OwnerOf(s.stored) ==> StoredEpoch(t) == Uint64(StoredEpoch(s) + 1))
  }

  lemma EpochByAcquirer(p: Params, s: State, step: Step)
    requires AllFenced(s) && Enabled(p, s, step)
    requires step.CommitCreate? || step.FailCreate? || step.CommitAcquire? || step.FailAcquire?
    ensures EpochRule(s, step, Next(p, s, step))
  {
    assert Fenced(s, step.id);
  }

  lemma EpochByHolder(p: Params, s: State, step: Step)
    requires AllFenced(s) && Enabled(p, s, step) && (step.CommitRefresh? || step.FailRefresh?)
    ensures EpochRule(s, step, Next(p, s, step))
  {
    assert Fenced(s, step.id);
  }

  lemma EpochStep(p: Params, s: State, step: Step)
    requires AllFenced(s) && Enabled(p, s, step) && !step.Release?
    ensures EpochRule(s, step, Next(p, s, step))
  {
    if step.CommitCreate? || step.FailCreate? || step.CommitAcquire? || step.FailAcquire? {
      EpochByAcquirer(p, s, step);
    } else if step.CommitRefresh? || step.FailRefresh? {
      EpochByHolder(p, s, step);
    }
  }

  /** A release leaves nobody's lease with a stale number: the epoch is 0 when it was the owner's. */
  lemma ReleaseStep(p: Params, s: State, id: string)
    requires Enabled(p, s, Release(id))
    ensures var t := Next(p, s, Release(id));
            if OwnerOf(s.stored) == Some(id) then OwnerOf(t.stored) == None && StoredEpoch(t) == 0 else t == s
  {
  }

  /** A step of another instance, or time. */
  lemma FencedByOthers(p: Params, s: State, step: Step, id: string)
    requires AllFenced(s) && Enabled(p, s, step)
    requires step.Elapse? || step.id != id
    ensures Fenced(Next(p, s, step), id)
  {
    assert id in s.insts ==> Fenced(s, id);
    if step.Release? {
      ReleaseStep(p, s, step.id);
    } else {
      EpochStep(p, s, step);
    }
    Frame(p, s, step, id);
  }

  lemma FencedByAcquirer(p: Params, s: State, step: Step)
    requires AllFenced(s) && Enabled(p, s, step)
    requires step.Get? || step.PrepareCreate? || step.CommitCreate? || step.FailCreate?
             || step.PrepareAcquire? || step.CommitAcquire? || step.FailAcquire?
    ensures Fenced(Next(p, s, step), step.id)
  {
    assert Fenced(s, step.id);
  }

  lemma FencedByHolder(p: Params, s: State, step: Step)
    requires AllFenced(s) && Enabled(p, s, step)
    requires step.PrepareRefresh? || step.CommitRefresh? || step.FailRefresh? || step.Cancel? || step.Crash?
        || step.Release?
    ensures Fenced(Next(p, s, step), step.id)
  {
    assert Fenced(s, step.id);
  }

  lemma MemoryFits(p: Params, s: State, step: Step, id: string)
    requires AllFenced(s) && Enabled(p, s, step) && id in Next(p, s, step).insts
    ensures Next(p, s, step).insts[id].mem.epoch < UINT64_LIMIT
  {
    if step.Elapse? || step.id != id {
      Frame(p, s, step, id);
    }
  }

  lemma FencedStep(p: Params, s: State, step: Step)
    requires AllFenced(s) && Enabled(p, s, step)
    ensures AllFenced(Next(p, s, step))
  {
    if step.Release? {
      ReleaseStep(p, s, step.id);
    } else {
      EpochStep(p, s, step);
    }
    var t := Next(p, s, step);
    forall id | id in t.insts ensures Fenced(t, id) && t.insts[id].mem.epoch < UINT64_LIMIT {
      MemoryFits(p, s, step, id);
      if step.Elapse? || step.id != id {
        FencedByOthers(p, s, step, id);
      } else if step.PrepareRefresh? || step.CommitRefresh? || step.FailRefresh? || step.Cancel? || step.Crash?
          || step.Release? {
        FencedByHolder(p, s, step);
      } else {
        FencedByAcquirer(p, s, step);
      }
    }
  }

  lemma ClaimedStep(p: Params, s: State, step: Step)
    requires AllFenced(s) && Claimed(s) && Enabled(p, s, step) && !step.Release?
    ensures Claimed(Next(p, s, step))
  {
    var t := Next(p, s, step);
    EpochStep(p, s, step);
    forall id | id in t.insts && Active(t.insts[id]) ensures OwnerOf(t.stored).Some? {
      if step.Elapse? || step.id != id {
        Frame(p, s, step, id);
      } else {
        assert Fenced(s, id);
      }
    }
  }

  lemma {:induction false} FencedInRun(p: Params, s: State, steps: seq<Step>)
    requires AllFenced(s) && ValidRun(p, s, steps)
    ensures AllFenced(Run(p, s, steps))
    decreases |steps|
  {
    if steps == [] {
    } else {
      FencedStep(p, s, steps[0]);
      FencedInRun(p, Next(p, s, steps[0]), steps[1..]);
    }
  }

  lemma {:induction false} EpochsInRun(p: Params, s: State, steps: seq<Step>)
    requires AllFenced(s) && Claimed(s) && ValidRun(p, s, steps) && NoRelease(steps)
    ensures var t := Run(p, s, steps);
            && AllFenced(t) && Claimed(t) && s.changes <= t.changes <= s.changes + |steps|
            && StoredEpoch(t) == Uint64(StoredEpoch(s) + t.changes - s.changes)
    decreases |steps|
  {
    if steps == [] {
    } else {
      var next := Next(p, s, steps[0]);
      EpochStep(p, s, steps[0]);
      FencedStep(p, s, steps[0]);
      ClaimedStep(p, s, steps[0]);
      EpochsInRun(p, next, steps[1..]);
      Uint64Add(StoredEpoch(s) + 1, Run(p, s, steps).changes - next.changes);
      hide AllFenced, Claimed, StoredEpoch;
    }
  }

  /** In every run without a release, the stored epoch is the initial one plus the number of changes of owner,
      so it never decreases, short of 64-bit overflow. */
  lemma EpochCountsOwners(p: Params, s0: State, steps: seq<Step>)
    requires Start(s0) && ValidRun(p, s0, steps) && NoRelease(steps)
    ensures var s := Run(p, s0, steps);
            && StoredEpoch(s) == Uint64(StoredEpoch(s0) + s.changes)
            && (StoredEpoch(s0) + |steps| < UINT64_LIMIT ==> StoredEpoch(s) == StoredEpoch(s0) + s.changes)
  {
    EpochsInRun(p, s0, steps);
  }

  /** In every run, releases included, an instance whose ID is stored has the stored epoch in memory, or none yet
      while it does not run; whatever its callbacks that lost their write had put there. */
  lemma OwnerKnowsEpoch(p: Params, s0: State, steps: seq<Step>, id: string)
    requires Start(s0) && ValidRun(p, s0, steps)
    requires var s := Run(p, s0, steps); id in s.insts && OwnerOf(s.stored) == Some(id)
    ensures var s := Run(p, s0, steps);
            && (s.insts[id].mem.epoch == StoredEpoch(s) || s.insts[id].mem.epoch == 0)
            && (Active(s.insts[id]) ==> s.insts[id].mem.epoch == StoredEpoch(s))
  {
    FencedInRun(p, s0, steps);
    assert Fenced(Run(p, s0, steps), id);
  }

  /** So, in every run, the branch of `refresh` for an epoch that advanced under an unchanged owner is unreachable:
      a refresh reports the lease stolen exactly when another owner's ID is stored. */
  lemma StolenMeansAnotherOwner(p: Params, s0: State, steps: seq<Step>, id: string)
    requires Start(s0) && ValidRun(p, s0, steps)
    requires Enabled(p, Run(p, s0, steps), PrepareRefresh(id))
    ensures var s := Run(p, s0, steps);
            RefreshCallback(s.insts[id].mem, s.stored.value, id, s.now).Stolen?
            <==> OwnerOf(s.stored).Some? && OwnerOf(s.stored) != Some(id)
  {
    FencedInRun(p, s0, steps);
    assert Fenced(Run(p, s0, steps), id);
  }

  /** In every run, releases included: short of 64-bit overflow, a step lowers the stored epoch exactly when it
      is the release of the stored owner and the epoch was not 0 already. Overtaken callbacks, writes that
      land behind an error and displaced instances that come back never lower it. */
  lemma EpochDropsIffReleased(p: Params, s0: State, steps: seq<Step>, step: Step)
    requires Start(s0) && ValidRun(p, s0, steps) && Enabled(p, Run(p, s0, steps), step)
    requires StoredEpoch(Run(p, s0, steps)) + 1 < UINT64_LIMIT
    ensures var s := Run(p, s0, steps); var t := Next(p, s, step);
            StoredEpoch(t) < StoredEpoch(s)
            <==> step.Release? && OwnerOf(s.stored) == Some(step.id) && StoredEpoch(s) > 0
  {
    FencedInRun(p, s0, steps);
    var s := Run(p, s0, steps);
    if step.Release? {
      ReleaseStep(p, s, step.id);
    } else {
      EpochStep(p, s, step);
    }
  }

  // ----- Who starts the numbering again

  /** A lease without an owner has epoch 0. */
  predicate FreeIsZero(s: State) {
    OwnerOf(s.stored) == None ==> StoredEpoch(s) == 0
  }

  lemma {:induction false} FreeIsZeroInRun(p: Params, s: State, steps: seq<Step>)
    requires AllFenced(s) && FreeIsZero(s) && ValidRun(p, s, steps)
    ensures AllFenced(Run(p, s, steps)) && FreeIsZero(Run(p, s, steps))
    decreases |steps|
  {
    if steps == [] {
    } else {
      FencedStep(p, s, steps[0]);
      if steps[0].Release? {
        ReleaseStep(p, s, steps[0].id);
      } else {
        EpochStep(p, s, steps[0]);
      }
      FreeIsZeroInRun(p, Next(p, s, steps[0]), steps[1..]);
    }
  }

  /** In some run, an owner releases, nobody owns the lease at the end of the steps that follow, and then `step`
      gives it an owner. */
  ghost predicate TakenAfterRelease(p: Params, s0: State, before: seq<Step>, id: string, between: seq<Step>,
      step: Step) {
    && Start(s0) && ValidRun(p, s0, before)
    && var s := Run(p, s0, before);
    && Enabled(p, s, Release(id)) && OwnerOf(s.stored) == Some(id)
    && var released := Next(p, s, Release(id));
    && ValidRun(p, released, between)
    && OwnerOf(Run(p, released, between).stored) == None
    && Enabled(p, Run(p, released, between), step)
    && OwnerOf(Next(p, Run(p, released, between), step).stored).Some?
  }

  ghost function EpochTaken(p: Params, s0: State, before: seq<Step>, id: string, between: seq<Step>, step: Step): nat
    requires TakenAfterRelease(p, s0, before, id, between, step)
  {
    StoredEpoch(Next(p, Run(p, Next(p, Run(p, s0, before), Release(id)), between), step))
  }

  lemma HoldersClaim(p: Params, s: State)
    requires AllHold(p, s)
    ensures Claimed(s)
  {
    forall id | id in s.insts ensures Active(s.insts[id]) ==> OwnerOf(s.stored).Some? {
      assert Holds(p, s, id);
    }
  }

  /** When nobody is active, a free lease is taken only by a claim, which counts on from 0. */
  lemma ClaimOfFreeLease(p: Params, s: State, step: Step)
    requires AllFenced(s) && AllHold(p, s) && FreeIsZero(s) && Enabled(p, s, step) && OwnerOf(s.stored) == None
    ensures var t := Next(p, s, step); OwnerOf(t.stored).Some? ==> StoredEpoch(t) == 1
  {
    HoldersClaim(p, s);
    if step.Release? {
      ReleaseStep(p, s, step.id);
    } else {
      EpochStep(p, s, step);
    }
  }

  lemma PatientRestarts(p: Params, s0: State, before: seq<Step>, id: string, between: seq<Step>, step: Step)
    requires Patient(p) && TakenAfterRelease(p, s0, before, id, between, step)
    ensures EpochTaken(p, s0, before, id, between, step) == 1
  {
    var s := Run(p, s0, before);
    var released := Next(p, s, Release(id));
    FencedInRun(p, s0, before);
    HoldsInRun(p, s0, before);
    FencedStep(p, s, Release(id));
    PreparedStep(p, s, Release(id));
    HoldsStep(p, s, Release(id));
    ReleaseStep(p, s, id);
    FreeIsZeroInRun(p, released, between);
    HoldsInRun(p, released, between);
    ClaimOfFreeLease(p, Run(p, released, between), step);
  }

  /** A, displaced by B without noticing, refreshes the lease that B has released, and its old epoch is back. */
  lemma OldEpochComesBack(p: Params) returns (before: seq<Step>)
    requires !Patient(p)
    ensures TakenAfterRelease(p, TwoFresh(), before, "B", [PrepareRefresh("A")], CommitRefresh("A"))
    ensures EpochTaken(p, TwoFresh(), before, "B", [PrepareRefresh("A")], CommitRefresh("A")) == 6
  {
    assert "A"[0] != "B"[0];
    before := ImpatientRun(p);
    RunSnoc(p, TwoFresh(), before, Cancel("B"));
    before := before + [Cancel("B")];
    var released := Next(p, Run(p, TwoFresh(), before), Release("B"));
    var prepared := Next(p, released, PrepareRefresh("A"));
    RunCons(p, released, PrepareRefresh("A"), []);
    assert [PrepareRefresh("A")] + [] == [PrepareRefresh("A")];
    assert Run(p, released, [PrepareRefresh("A")]) == prepared;
  }

  /** For every stale limit and every bound on the ticks: in all runs the first owner after a release stores epoch
      1, exactly when the stale limit is more than three tick gaps. Otherwise an instance that was displaced
      without noticing can take the released lease back by a refresh, at the epoch it had. */
  lemma ReleaseRestartsNumberingIff(p: Params)
    ensures (forall s0, before, id, between, step :: TakenAfterRelease(p, s0, before, id, between, step) ==>
               EpochTaken(p, s0, before, id, between, step) == 1)
            <==> Patient(p)
  {
    if Patient(p) {
      forall s0, before, id, between, step | TakenAfterRelease(p, s0, before, id, between, step)
        ensures EpochTaken(p, s0, before, id, between, step) == 1
      {
        PatientRestarts(p, s0, before, id, between, step);
      }
    } else {
      var before := OldEpochComesBack(p);
      assert EpochTaken(p, TwoFresh(), before, "B", [PrepareRefresh("A")], CommitRefresh("A")) != 1;
    }
  }
}
