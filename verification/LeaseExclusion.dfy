/** Mutual exclusion of the singleton lease over whole runs, and the exact condition on its timing. */
module LeaseExclusion {
  import opened Text
  import opened Lease
  import opened LeaseRuns

  ghost predicate AtMostOneActive(s: State) {
    forall a, b :: a in s.insts && b in s.insts && Active(s.insts[a]) && Active(s.insts[b]) ==> a == b
  }

  /** A heartbeat outlives three failed ticks. */
  predicate Patient(p: Params) {
    p.staleAfter > 3 * p.gap
  }

  // ----- Patience gives mutual exclusion

  /** How long after its last heartbeat a holder may still be active, by failed ticks so far. */
  function Slack(p: Params, errors: nat): int {
    if errors == 0 then p.gap else if errors == 1 then 2 * p.gap else 3 * p.gap
  }

  /** An active instance owns the resource, and its next tick is due before its heartbeat can be stale. */
  predicate Holds(p: Params, s: State, id: string) {
    id in s.insts && Active(s.insts[id]) ==>
      var i := s.insts[id];
      && OwnerOf(s.stored) == Some(id)
      && s.stored.value.heartbeat.At?
      && i.errors < MAX_CONSECUTIVE_ERRORS
      && s.stored.value.heartbeat.time <= s.now <= i.due <= s.stored.value.heartbeat.time + Slack(p, i.errors)
      && (i.pc.RefreshPrepared? && i.pc.version == s.version ==> s.stored.value.heartbeat.time <= i.pc.reading)
  }

  ghost predicate AllHold(p: Params, s: State) {
    forall id :: id in s.insts ==> Holds(p, s, id)
  }

  /** Two instances cannot hold at once, since both would own the resource. */
  lemma HoldersAreUnique(p: Params, s: State)
    requires AllHold(p, s)
    ensures AtMostOneActive(s)
  {
    forall a, b | a in s.insts && b in s.insts && Active(s.insts[a]) && Active(s.insts[b]) ensures a == b {
      assert Holds(p, s, a) && Holds(p, s, b);
    }
  }

  /** A claim that is about to land finds nobody active. */
  lemma ClaimFindsNobodyActive(p: Params, s: State, id: string)
    requires Patient(p) && AllHold(p, s) && Prepared(p, s, id)
    requires id in s.insts && s.insts[id].pc.AcquirePrepared? && s.insts[id].pc.version == s.version
    ensures forall other :: other in s.insts ==> !Active(s.insts[other])
  {
    forall other | other in s.insts ensures !Active(s.insts[other]) {
      assert Holds(p, s, other);
    }
  }

  lemma CommitAcquireKeepsHolds(p: Params, s: State, id: string)
    requires Patient(p) && AllPrepared(p, s) && AllHold(p, s) && Enabled(p, s, CommitAcquire(id))
    ensures AllHold(p, Next(p, s, CommitAcquire(id)))
  {
    var t := Next(p, s, CommitAcquire(id));
    assert Prepared(p, s, id);
    if s.insts[id].pc.version == s.version {
      ClaimFindsNobodyActive(p, s, id);
    }
    forall x | x in t.insts ensures Holds(p, t, x) {
      assert Holds(p, s, x);
    }
  }

  lemma FailAcquireKeepsHolds(p: Params, s: State, id: string, landed: bool)
    requires Patient(p) && AllPrepared(p, s) && AllHold(p, s) && Enabled(p, s, FailAcquire(id, landed))
    ensures AllHold(p, Next(p, s, FailAcquire(id, landed)))
  {
    var t := Next(p, s, FailAcquire(id, landed));
    assert Prepared(p, s, id);
    if landed {
      ClaimFindsNobodyActive(p, s, id);
    }
    forall x | x in t.insts ensures Holds(p, t, x) {
      assert Holds(p, s, x);
    }
  }

  /** The steps of a holder itself. */
  lemma OwnStepKeepsHolds(p: Params, s: State, step: Step)
    requires AllPrepared(p, s) && AllHold(p, s) && Enabled(p, s, step)
    requires step.PrepareRefresh? || step.CommitRefresh? || step.FailRefresh?
    ensures AllHold(p, Next(p, s, step))
  {
    var t := Next(p, s, step);
    assert Prepared(p, s, step.id) && Holds(p, s, step.id);
    forall x | x in t.insts ensures Holds(p, t, x) {
      assert Holds(p, s, x);
    }
  }

  /** Creating the resource and releasing it: nobody is active then. */
  lemma CreateOrReleaseKeepsHolds(p: Params, s: State, step: Step)
    requires AllPrepared(p, s) && AllHold(p, s) && Enabled(p, s, step)
    requires step.CommitCreate? || step.FailCreate? || step.Release?
    ensures AllHold(p, Next(p, s, step))
  {
    var t := Next(p, s, step);
    assert Prepared(p, s, step.id) && Holds(p, s, step.id);
    forall x | x in t.insts ensures Holds(p, t, x) {
      assert Holds(p, s, x);
    }
  }

  /** Steps that leave the resource alone and activate nobody. */
  lemma QuietStepKeepsHolds(p: Params, s: State, step: Step)
    requires AllHold(p, s) && Enabled(p, s, step)
    requires step.Get? || step.PrepareCreate? || step.PrepareAcquire? || step.Cancel? || step.Crash? || step.Elapse?
    ensures AllHold(p, Next(p, s, step))
  {
    var t := Next(p, s, step);
    forall x | x in t.insts ensures Holds(p, t, x) {
      assert Holds(p, s, x);
    }
  }

  lemma HoldsStep(p: Params, s: State, step: Step)
    requires Patient(p) && AllPrepared(p, s) && AllHold(p, s) && Enabled(p, s, step)
    ensures AllHold(p, Next(p, s, step))
  {
    match step
    case CommitAcquire(id) => CommitAcquireKeepsHolds(p, s, id);
    case FailAcquire(id, landed) => FailAcquireKeepsHolds(p, s, id, landed);
    case PrepareRefresh(_) => OwnStepKeepsHolds(p, s, step);
    case CommitRefresh(_) => OwnStepKeepsHolds(p, s, step);
    case FailRefresh(_, _) => OwnStepKeepsHolds(p, s, step);
    case CommitCreate(_) => CreateOrReleaseKeepsHolds(p, s, step);
    case FailCreate(_, _) => CreateOrReleaseKeepsHolds(p, s, step);
    case Release(_) => CreateOrReleaseKeepsHolds(p, s, step);
    case _ => QuietStepKeepsHolds(p, s, step);
  }

  lemma {:induction false} HoldsInRun(p: Params, s: State, steps: seq<Step>)
    requires Patient(p) && AllPrepared(p, s) && AllHold(p, s) && ValidRun(p, s, steps)
    ensures AllPrepared(p, Run(p, s, steps)) && AllHold(p, Run(p, s, steps))
    decreases |steps|
  {
    if steps == [] {
    } else {
      PreparedStep(p, s, steps[0]);
      HoldsStep(p, s, steps[0]);
      HoldsInRun(p, Next(p, s, steps[0]), steps[1..]);
    }
  }

  /** With a stale limit above three tick gaps, every run has at most one active instance: refresh failures,
      lost writes, writes that land behind an error, crashes, takeovers and releases included. */
  lemma MutualExclusion(p: Params, s0: State, steps: seq<Step>)
    requires Patient(p) && Start(s0) && ValidRun(p, s0, steps)
    ensures AtMostOneActive(Run(p, s0, steps))
  {
    HoldsInRun(p, s0, steps);
    HoldersAreUnique(p, Run(p, s0, steps));
  }

  // ----- Without it there is a run with two active instances

  lemma RunCons(p: Params, s: State, step: Step, rest: seq<Step>)
    requires Enabled(p, s, step) && ValidRun(p, Next(p, s, step), rest)
    ensures ValidRun(p, s, [step] + rest) && Run(p, s, [step] + rest) == Run(p, Next(p, s, step), rest)
  {
    assert ([step] + rest)[1..] == rest;
  }

  lemma {:induction false} RunAppend(p: Params, s: State, a: seq<Step>, b: seq<Step>)
    requires ValidRun(p, s, a) && ValidRun(p, Run(p, s, a), b)
    ensures ValidRun(p, s, a + b) && Run(p, s, a + b) == Run(p, Run(p, s, a), b)
    decreases |a|
  {
    if a == [] {
      assert a + b == b;
    } else {
      RunAppend(p, Next(p, s, a[0]), a[1..], b);
      RunCons(p, s, a[0], a[1..] + b);
      assert [a[0]] + (a[1..] + b) == a + b;
    }
  }

  lemma RunSnoc(p: Params, s0: State, steps: seq<Step>, step: Step)
    requires ValidRun(p, s0, steps) && Enabled(p, Run(p, s0, steps), step)
    ensures ValidRun(p, s0, steps + [step])
    ensures Run(p, s0, steps + [step]) == Next(p, Run(p, s0, steps), step)
  {
    var s := Run(p, s0, steps);
    assert ValidRun(p, Next(p, s, step), []);
    RunCons(p, s, step, []);
    assert [step] + [] == [step];
    RunAppend(p, s0, steps, [step]);
  }

  /** Two fresh instances, and a lease at epoch 5 that nobody holds. */
  function TwoFresh(): State {
    var newcomer := Instance(Memory(0, false), Idle, 0, 0);
    State(0, 0, Some(Resource(None, NoHeartbeat, Some(5), None)), map["A" := newcomer, "B" := newcomer], 0)
  }

  predicate HeldSince(s: State, id: string, time: int, epoch: nat) {
    s.stored.Some? && s.stored.value.owner == Some(id) && s.stored.value.heartbeat == At(time)
        && s.stored.value.epoch == Some(epoch)
  }

  /** A has claimed the lease at time 0 and B has not started. */
  lemma FirstHolds(p: Params) returns (steps: seq<Step>)
    ensures ValidRun(p, TwoFresh(), steps)
    ensures var s := Run(p, TwoFresh(), steps);
            && s.now == 0 && s.insts.Keys == {"A", "B"} && HeldSince(s, "A", 0, 6)
            && s.insts["A"] == Instance(Memory(6, true), Running, 0, p.gap)
            && s.insts["B"] == Instance(Memory(0, false), Idle, 0, 0)
  {
    assert "A"[0] != "B"[0];
    steps := [];
    RunSnoc(p, TwoFresh(), steps, Get("A"));
    steps := steps + [Get("A")];
    RunSnoc(p, TwoFresh(), steps, PrepareAcquire("A"));
    steps := steps + [PrepareAcquire("A")];
    RunSnoc(p, TwoFresh(), steps, CommitAcquire("A"));
    steps := steps + [CommitAcquire("A")];
  }

  function Earlier(a: nat, b: nat): nat {
    if a < b then a else b
  }

  /** A's ticks up to two gaps after its heartbeat fail, and the lease reaches its stale age before the third. */
  lemma TwoTicksFail(p: Params, before: seq<Step>) returns (steps: seq<Step>)
    requires !Patient(p)
    requires ValidRun(p, TwoFresh(), before)
    requires var s := Run(p, TwoFresh(), before);
             && s.now == 0 && s.insts.Keys == {"A", "B"} && HeldSince(s, "A", 0, 6)
             && s.insts["A"] == Instance(Memory(6, true), Running, 0, p.gap) && s.insts["B"].pc.Idle?
    ensures ValidRun(p, TwoFresh(), steps)
    ensures var s := Run(p, TwoFresh(), before); var t := Run(p, TwoFresh(), steps);
            && t.now == p.staleAfter && t.insts.Keys == {"A", "B"}
            && t.insts["A"].pc.Running? && t.insts["A"].mem == Memory(6, true)
            && t.insts["B"] == s.insts["B"] && t.stored == s.stored
  {
    assert "A"[0] != "B"[0];
    var first, second := Earlier(p.gap, p.staleAfter), Earlier(2 * p.gap, p.staleAfter);
    steps := before;
    RunSnoc(p, TwoFresh(), steps, Elapse(first));
    steps := steps + [Elapse(first)];
    RunSnoc(p, TwoFresh(), steps, FailRefresh("A", false));
    steps := steps + [FailRefresh("A", false)];
    RunSnoc(p, TwoFresh(), steps, Elapse(second));
    steps := steps + [Elapse(second)];
    RunSnoc(p, TwoFresh(), steps, FailRefresh("A", false));
    steps := steps + [FailRefresh("A", false)];
    RunSnoc(p, TwoFresh(), steps, Elapse(p.staleAfter));
    steps := steps + [Elapse(p.staleAfter)];
  }

  /** Both run: B has taken the stale lease over, and A, whose third tick is still to come, does not know. */
  predicate BothRun(p: Params, s: State) {
    && s.now == p.staleAfter && s.insts.Keys == {"A", "B"} && HeldSince(s, "B", p.staleAfter, 7)
    && s.insts["A"].pc.Running? && s.insts["A"].mem == Memory(6, true) && s.insts["B"].pc.Running?
  }

  lemma SecondTakesOver(p: Params, before: seq<Step>) returns (steps: seq<Step>)
    requires ValidRun(p, TwoFresh(), before)
    requires var s := Run(p, TwoFresh(), before);
             && s.now == p.staleAfter && s.insts.Keys == {"A", "B"} && HeldSince(s, "A", 0, 6)
             && s.insts["A"].pc.Running? && s.insts["A"].mem == Memory(6, true) && s.insts["B"].pc.Idle?
    ensures ValidRun(p, TwoFresh(), steps) && BothRun(p, Run(p, TwoFresh(), steps))
  {
    assert "A"[0] != "B"[0];
    steps := before;
    RunSnoc(p, TwoFresh(), steps, Get("B"));
    steps := steps + [Get("B")];
    RunSnoc(p, TwoFresh(), steps, PrepareAcquire("B"));
    steps := steps + [PrepareAcquire("B")];
    RunSnoc(p, TwoFresh(), steps, CommitAcquire("B"));
    steps := steps + [CommitAcquire("B")];
  }

  lemma ImpatientRun(p: Params) returns (steps: seq<Step>)
    requires !Patient(p)
    ensures Start(TwoFresh()) && ValidRun(p, TwoFresh(), steps) && BothRun(p, Run(p, TwoFresh(), steps))
    ensures !AtMostOneActive(Run(p, TwoFresh(), steps))
  {
    var first := FirstHolds(p);
    var failed := TwoTicksFail(p, first);
    steps := SecondTakesOver(p, failed);
    var t := Run(p, TwoFresh(), steps);
    assert "A"[0] != "B"[0];
    assert Active(t.insts["A"]) && Active(t.insts["B"]);
  }

  ghost predicate Exclusive(p: Params) {
    forall s0, steps :: Start(s0) && ValidRun(p, s0, steps) ==> AtMostOneActive(Run(p, s0, steps))
  }

  /** For every stale limit and every bound on the ticks, the lease is mutually exclusive in all runs exactly
      when the stale limit is more than three tick gaps. */
  lemma ExclusiveIffPatient(p: Params)
    ensures Exclusive(p) <==> Patient(p)
  {
    if Patient(p) {
      forall s0, steps | Start(s0) && ValidRun(p, s0, steps) ensures AtMostOneActive(Run(p, s0, steps)) {
        MutualExclusion(p, s0, steps);
      }
    } else {
      var steps := ImpatientRun(p);
    }
  }

  /** So of the configurations `New` accepts, with perfectly punctual ticks, exactly those are exclusive whose
      stale limit is more than three refresh intervals. */
  lemma MutualExclusionIff(cfg: Config, p: Params)
    requires NewConfig(cfg.refresh, cfg.staleAfter) == Some(cfg)
    requires p == Params(cfg.refresh, cfg.staleAfter, cfg.refresh)
    ensures Exclusive(p) <==> cfg.staleAfter > 3 * cfg.refresh
  {
    ExclusiveIffPatient(p);
  }

  /** The default intervals sit exactly on the excluded boundary: three refreshes make one stale limit. */
  lemma DefaultsAreNotExclusive()
    ensures NewConfig(0, 0) == Some(Config(DEFAULT_REFRESH, DEFAULT_STALE_AFTER))
    ensures !Exclusive(Params(DEFAULT_REFRESH, DEFAULT_STALE_AFTER, DEFAULT_REFRESH))
  {
    MutualExclusionIff(Config(DEFAULT_REFRESH, DEFAULT_STALE_AFTER),
                       Params(DEFAULT_REFRESH, DEFAULT_STALE_AFTER, DEFAULT_REFRESH));
  }
}
