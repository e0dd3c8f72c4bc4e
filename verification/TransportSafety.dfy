/** What every interleaving of the transport keeps: shutdown discipline, one reader at a time, coalesced
    reconnects, and responses that reach only the call that asked. */
module TransportSafety {
  import opened Text
  import opened Transport
  import opened TransportRuns

  // ----- Invariants on what all actors share

  /** The close flag is flipped once, never while a reconnect holds the lock, and its closer drains. */
  ghost predicate CloseInv(s: State) {
    && (s.core.closed ==> s.lock.None?)
    && s.drains == (if s.core.closed then 1 else 0)
    && (forall k :: k in s.closers && s.closers[k].Draining? ==> s.core.closed && s.closers[k].last == s.core.conn)
    && (s.core.closed && s.core.conn in s.open && s.open[s.core.conn] ==>
          exists k :: k in s.closers && s.closers[k].Draining?)
    && (s.lock.None? <==> s.recon.NotReconnecting?)
  }

  /** Only the connection in use can be open, and not even that one while a reconnect is dialing. */
  ghost predicate ConnInv(s: State) {
    && s.core.conn in s.open
    && (forall k :: k in s.open ==> k < s.nextConn && (s.open[k] ==> k == s.core.conn))
    && (s.recon.AwaitingReader? || s.recon.Dialing? ==> !s.open[s.core.conn])
  }

  /** Only the reader started last can be alive, and none is while a reconnect dials. */
  ghost predicate ReaderInv(s: State) {
    && s.core.reader in s.readers
    && (forall k :: k in s.readers ==> k < s.nextConn && (!s.readers[k].Exited? ==> k == s.core.reader))
    && (s.recon.Dialing? || s.recon.Handshaking? ==> s.readers[s.core.reader].Exited?)
    && (s.recon.Handshaking? ==> s.core.conn !in s.readers)
  }

  /** Swap number i replaced generation i. */
  ghost predicate GenInv(s: State) {
    |s.swaps| == s.core.connGen && forall i :: 0 <= i < |s.swaps| ==> s.swaps[i] == i
  }

  /** Reconnect bursts start at least one cooldown apart. */
  ghost predicate BurstInv(s: State) {
    && (forall i :: 0 < i < |s.bursts| ==> s.bursts[i] - s.bursts[i - 1] >= RECONNECT_COOLDOWN)
    && (if s.bursts == [] then s.core.lastReconnect.None?
        else s.core.lastReconnect == Some(s.bursts[|s.bursts| - 1]) && s.bursts[|s.bursts| - 1] <= s.now)
  }

  ghost predicate SharedInv(s: State) {
    CloseInv(s) && ConnInv(s) && ReaderInv(s) && GenInv(s) && BurstInv(s)
  }

  /** Fields the shared invariants do not speak of. */
  predicate OnlyCallsDiffer(s: State, t: State) {
    t == s.(core := s.core.(pending := t.core.pending, inFlight := t.core.inFlight, readerErr := t.core.readerErr),
            nextReq := t.nextReq, calls := t.calls)
  }

  lemma SharedIgnoresCalls(s: State, t: State)
    requires SharedInv(s) && OnlyCallsDiffer(s, t)
    ensures SharedInv(t)
  {
  }

  lemma SharedGate(s: State, c: nat, g: GateStep)
    requires SharedInv(s) && GateEnabled(s, c, g)
    ensures SharedInv(DoGate(s, c, g))
  {
    SharedIgnoresCalls(s, DoGate(s, c, g));
  }

  lemma AttemptTouchesOnlyCalls(s: State, c: nat, a: AttemptStep)
    requires AttemptEnabled(s, c, a)
    ensures OnlyCallsDiffer(s, DoAttempt(s, c, a))
  {
  }

  lemma SharedAttempt(s: State, c: nat, a: AttemptStep)
    requires SharedInv(s) && AttemptEnabled(s, c, a)
    ensures SharedInv(DoAttempt(s, c, a))
  {
    AttemptTouchesOnlyCalls(s, c, a);
    SharedIgnoresCalls(s, DoAttempt(s, c, a));
  }

  lemma SharedReconnectClose(s: State, c: nat, r: ReconnectStep)
    requires SharedInv(s) && ReconnectEnabled(s, c, r)
    ensures CloseInv(DoReconnect(s, c, r))
  {
  }

  lemma SharedReconnectConn(s: State, c: nat, r: ReconnectStep)
    requires SharedInv(s) && ReconnectEnabled(s, c, r)
    ensures ConnInv(DoReconnect(s, c, r))
  {
  }

  lemma SharedReconnectReader(s: State, c: nat, r: ReconnectStep)
    requires SharedInv(s) && ReconnectEnabled(s, c, r)
    ensures ReaderInv(DoReconnect(s, c, r))
  {
  }

  lemma SharedReconnectGen(s: State, c: nat, r: ReconnectStep)
    requires GenInv(s) && ReconnectEnabled(s, c, r)
    ensures GenInv(DoReconnect(s, c, r))
  {
  }

  lemma SharedReconnectBurst(s: State, c: nat, r: ReconnectStep)
    requires BurstInv(s) && ReconnectEnabled(s, c, r)
    ensures BurstInv(DoReconnect(s, c, r))
  {
  }

  lemma SharedReconnect(s: State, c: nat, r: ReconnectStep)
    requires SharedInv(s) && ReconnectEnabled(s, c, r)
    ensures SharedInv(DoReconnect(s, c, r))
  {
    SharedReconnectClose(s, c, r);
    SharedReconnectConn(s, c, r);
    SharedReconnectReader(s, c, r);
    SharedReconnectGen(s, c, r);
    SharedReconnectBurst(s, c, r);
  }

  lemma SharedReader(s: State, conn: nat, d: ReaderStep)
    requires SharedInv(s) && Enabled(s, ReaderOf(conn, d))
    ensures SharedInv(DoReader(s, conn, d))
  {
  }

  lemma SharedBeginClose(s: State, k: nat)
    requires SharedInv(s) && Enabled(s, BeginClose(k))
    ensures SharedInv(Next(s, BeginClose(k)))
  {
    var t := Next(s, BeginClose(k));
    if s.core.closed {
      if s.open[s.core.conn] {
        var j :| j in s.closers && s.closers[j].Draining?;
        assert t.closers[j].Draining?;
      }
    } else {
      assert t.closers[k].Draining?;
    }
  }

  lemma SharedEndClose(s: State, k: nat)
    requires SharedInv(s) && Enabled(s, EndClose(k))
    ensures SharedInv(Next(s, EndClose(k)))
  {
  }

  lemma SharedElapse(s: State, now: int)
    requires SharedInv(s) && Enabled(s, Elapse(now))
    ensures SharedInv(Next(s, Elapse(now)))
  {
  }

  lemma SharedStep(s: State, step: Step)
    requires SharedInv(s) && Enabled(s, step)
    ensures SharedInv(Next(s, step))
  {
    match step
    case GateOf(c, g) => SharedGate(s, c, g);
    case AttemptOf(c, a) => SharedAttempt(s, c, a);
    case ReconnectOf(c, r) => SharedReconnect(s, c, r);
    case ReaderOf(conn, d) => SharedReader(s, conn, d);
    case BeginClose(k) => SharedBeginClose(s, k);
    case EndClose(k) => SharedEndClose(s, k);
    case Elapse(t) => SharedElapse(s, t);
  }

  // ----- Invariants on each call

  /** Between registering its request and the end of the attempt. */
  predicate Expecting(call: Call) {
    call.pc.Sending? || call.pc.Writing? || call.pc.Watching? || call.pc.Waiting?
  }

  predicate CallInv(s: State, c: nat) {
    c in s.calls ==>
      var call := s.calls[c];
      && 1 <= call.attempt <= 2
      && call.sends <= call.attempt
      && (call.pc.Registering? || call.pc.Sending? || call.pc.Writing? ==> call.sends < call.attempt)
      && (call.pc.WantReconnect? || call.pc.Reconnecting? ==> call.attempt == 1)
      && call.gen <= s.core.connGen
      && (call.attempt == 2 ==> call.gen < s.core.connGen)
      && (call.pc.Reconnecting? <==> s.lock == Some(c))
      && (call.pc.Reconnecting? ==> call.gen == s.core.connGen)
      && (Expecting(call) ==> call.req in s.core.pending && call.req < s.nextReq && call.got == [])
      && |call.got| <= 1
      && (forall i :: 0 <= i < |call.got| ==> call.got[i].id == call.req)
  }

  /** Channels hold only messages for their own request, and each request has one waiter. */
  ghost predicate DemuxInv(s: State) {
    && (forall id :: id in s.core.pending ==>
          id < s.nextReq && (s.core.pending[id].Some? ==> s.core.pending[id].value.id == id))
    && (forall c, d :: c in s.calls && d in s.calls && Expecting(s.calls[c]) && Expecting(s.calls[d]) && c != d
          ==> s.calls[c].req != s.calls[d].req)
    && (s.lock.Some? ==> s.lock.value in s.calls)
  }

  ghost predicate CallsInv(s: State) {
    DemuxInv(s) && forall c :: c in s.calls ==> CallInv(s, c)
  }

  lemma GateKeepsCalls(s: State, c: nat, g: GateStep)
    requires CallsInv(s) && GateEnabled(s, c, g)
    ensures CallsInv(DoGate(s, c, g))
  {
    var t := DoGate(s, c, g);
    forall x | x in t.calls ensures CallInv(t, x) {
      assert x in s.calls ==> CallInv(s, x);
    }
  }

  /** A new request's number is one that no call is waiting for. */
  lemma RegisterKeepsDemux(s: State, c: nat)
    requires CallsInv(s) && AttemptEnabled(s, c, RegisterRequest)
    ensures DemuxInv(DoAttempt(s, c, RegisterRequest))
  {
    forall x | x in s.calls && Expecting(s.calls[x]) ensures s.calls[x].req < s.nextReq {
      assert CallInv(s, x);
    }
  }

  lemma AdvanceKeepsDemux(s: State, c: nat, a: AttemptStep)
    requires DemuxInv(s) && CallInv(s, c) && AttemptEnabled(s, c, a) && !a.RegisterRequest? && Advances(s, a)
    ensures DemuxInv(DoAttempt(s, c, a))
  {
  }

  lemma EndKeepsDemux(s: State, c: nat, a: AttemptStep)
    requires DemuxInv(s) && CallInv(s, c) && AttemptEnabled(s, c, a) && !Advances(s, a)
    ensures DemuxInv(DoAttempt(s, c, a))
  {
  }

  lemma AttemptKeepsDemux(s: State, c: nat, a: AttemptStep)
    requires CallsInv(s) && AttemptEnabled(s, c, a)
    ensures DemuxInv(DoAttempt(s, c, a))
  {
    assert CallInv(s, c);
    hide DemuxInv, CallInv, DoAttempt, AttemptEnabled;
    if a.RegisterRequest? {
      RegisterKeepsDemux(s, c);
    } else if Advances(s, a) {
      AdvanceKeepsDemux(s, c, a);
    } else {
      EndKeepsDemux(s, c, a);
    }
  }

  predicate Advances(s: State, a: AttemptStep) {
    a.RegisterRequest? || a.WriteOk? || a.Watch? || (a.Snapshot? && s.core.authed)
  }

  lemma AdvanceKeepsOwn(s: State, c: nat, a: AttemptStep)
    requires CallInv(s, c) && AttemptEnabled(s, c, a) && Advances(s, a)
    ensures CallInv(DoAttempt(s, c, a), c)
  {
  }

  /** An attempt that consumed a message consumed it from its own channel. */
  lemma EndKeepsOwn(s: State, c: nat, a: AttemptStep)
    requires CallInv(s, c) && DemuxInv(s) && AttemptEnabled(s, c, a) && !Advances(s, a)
    ensures CallInv(DoAttempt(s, c, a), c)
  {
  }

  lemma AttemptKeepsOwn(s: State, c: nat, a: AttemptStep)
    requires CallsInv(s) && AttemptEnabled(s, c, a)
    ensures CallInv(DoAttempt(s, c, a), c)
  {
    assert CallInv(s, c);
    if Advances(s, a) {
      AdvanceKeepsOwn(s, c, a);
    } else {
      EndKeepsOwn(s, c, a);
    }
  }

  lemma AttemptKeepsOther(s: State, c: nat, a: AttemptStep, x: nat)
    requires CallsInv(s) && AttemptEnabled(s, c, a) && x != c && x in s.calls
    ensures CallInv(DoAttempt(s, c, a), x)
  {
    assert CallInv(s, c) && CallInv(s, x);
    AttemptFrame(s, c, a, x);
  }

  lemma AttemptKeepsCalls(s: State, c: nat, a: AttemptStep)
    requires CallsInv(s) && AttemptEnabled(s, c, a)
    ensures CallsInv(DoAttempt(s, c, a))
  {
    AttemptKeepsDemux(s, c, a);
    var t := DoAttempt(s, c, a);
    forall x | x in t.calls ensures CallInv(t, x) {
      if x == c {
        AttemptKeepsOwn(s, c, a);
      } else {
        AttemptFrame(s, c, a, x);
        AttemptKeepsOther(s, c, a, x);
      }
    }
  }

  lemma BeginKeepsOwn(s: State, c: nat)
    requires CallInv(s, c) && ReconnectEnabled(s, c, Begin)
    ensures CallInv(DoReconnect(s, c, Begin), c)
  {
  }

  /** The steps up to a successful handshake give the lock up or change nothing about the call. */
  lemma UnfinishedKeepsOwn(s: State, c: nat, r: ReconnectStep)
    requires CallInv(s, c) && ReconnectEnabled(s, c, r) && !r.Begin? && !r.HandshakeOk?
    ensures CallInv(DoReconnect(s, c, r), c)
  {
    hide CooldownLeft;
  }

  lemma SwapKeepsOwn(s: State, c: nat)
    requires CallInv(s, c) && ReconnectEnabled(s, c, HandshakeOk)
    ensures CallInv(DoReconnect(s, c, HandshakeOk), c)
  {
  }

  lemma ReconnectKeepsOwn(s: State, c: nat, r: ReconnectStep)
    requires CallsInv(s) && ReconnectEnabled(s, c, r)
    ensures CallInv(DoReconnect(s, c, r), c)
  {
    assert CallInv(s, c);
    hide CallInv, DoReconnect, ReconnectEnabled;
    match r
    case Begin => BeginKeepsOwn(s, c);
    case HandshakeOk => SwapKeepsOwn(s, c);
    case _ => UnfinishedKeepsOwn(s, c, r);
  }

  lemma ReconnectKeepsOther(s: State, c: nat, r: ReconnectStep, x: nat)
    requires CallsInv(s) && ReconnectEnabled(s, c, r) && x != c && x in s.calls
    ensures CallInv(DoReconnect(s, c, r), x)
  {
    assert CallInv(s, x) && CallInv(s, c);
    ReconnectFrame(s, c, r, x);
  }

  /** A reconnect leaves the registry alone, and its call is not expecting an answer. */
  predicate LeavesRegistry(s: State, t: State, c: nat) {
    && t.core.pending == s.core.pending && t.nextReq == s.nextReq
    && c in t.calls && !Expecting(t.calls[c]) && t.calls == s.calls[c := t.calls[c]]
    && (t.lock.None? || t.lock == Some(c))
  }

  lemma BeginLeavesRegistry(s: State, c: nat)
    requires ReconnectEnabled(s, c, Begin)
    ensures LeavesRegistry(s, DoReconnect(s, c, Begin), c)
  {
  }

  lemma DialLeavesRegistry(s: State, c: nat, r: ReconnectStep)
    requires ReconnectEnabled(s, c, r) && (r.DialFail? || r.DialOk? || r.HandshakeFail? || r.HandshakeOk?)
    ensures LeavesRegistry(s, DoReconnect(s, c, r), c)
  {
    hide CooldownLeft;
  }

  lemma WaitLeavesRegistry(s: State, c: nat, r: ReconnectStep)
    requires ReconnectEnabled(s, c, r) && (r.Abort? || r.StartBurst? || r.ReaderDrained?)
    ensures LeavesRegistry(s, DoReconnect(s, c, r), c)
  {
    hide CooldownLeft;
  }

  lemma ReconnectLeavesRegistry(s: State, c: nat, r: ReconnectStep)
    requires ReconnectEnabled(s, c, r)
    ensures LeavesRegistry(s, DoReconnect(s, c, r), c)
  {
    hide LeavesRegistry, DoReconnect, ReconnectEnabled;
    if r.Begin? {
      BeginLeavesRegistry(s, c);
    } else if r.Abort? || r.StartBurst? || r.ReaderDrained? {
      WaitLeavesRegistry(s, c, r);
    } else {
      DialLeavesRegistry(s, c, r);
    }
  }

  lemma RegistryKeepsDemux(s: State, t: State, c: nat)
    requires DemuxInv(s) && LeavesRegistry(s, t, c)
    ensures DemuxInv(t)
  {
  }

  lemma ReconnectKeepsDemux(s: State, c: nat, r: ReconnectStep)
    requires CallsInv(s) && ReconnectEnabled(s, c, r)
    ensures DemuxInv(DoReconnect(s, c, r))
  {
    ReconnectLeavesRegistry(s, c, r);
    RegistryKeepsDemux(s, DoReconnect(s, c, r), c);
  }

  lemma ReconnectKeepsCalls(s: State, c: nat, r: ReconnectStep)
    requires CallsInv(s) && ReconnectEnabled(s, c, r)
    ensures CallsInv(DoReconnect(s, c, r))
  {
    ReconnectKeepsDemux(s, c, r);
    var t := DoReconnect(s, c, r);
    forall x | x in t.calls ensures CallInv(t, x) {
      if x == c {
        ReconnectKeepsOwn(s, c, r);
      } else {
        ReconnectFrame(s, c, r, x);
        ReconnectKeepsOther(s, c, r, x);
      }
    }
  }

  lemma ReaderKeepsCalls(s: State, conn: nat, d: ReaderStep)
    requires CallsInv(s) && Enabled(s, ReaderOf(conn, d))
    ensures CallsInv(DoReader(s, conn, d))
  {
    var t := DoReader(s, conn, d);
    forall x | x in t.calls ensures CallInv(t, x) {
      assert CallInv(s, x);
    }
  }

  lemma CallsIgnoreClosers(s: State, t: State)
    requires CallsInv(s)
    requires t == s.(core := s.core.(closed := t.core.closed), now := t.now, drains := t.drains,
                     closers := t.closers, open := t.open)
    ensures CallsInv(t)
  {
    forall x | x in t.calls ensures CallInv(t, x) {
      assert CallInv(s, x);
    }
  }

  lemma CloseKeepsCalls(s: State, step: Step)
    requires CallsInv(s) && Enabled(s, step) && (step.BeginClose? || step.EndClose? || step.Elapse?)
    ensures CallsInv(Next(s, step))
  {
    CallsIgnoreClosers(s, Next(s, step));
  }

  lemma CallsStep(s: State, step: Step)
    requires CallsInv(s) && Enabled(s, step)
    ensures CallsInv(Next(s, step))
  {
    match step
    case GateOf(c, g) => GateKeepsCalls(s, c, g);
    case AttemptOf(c, a) => AttemptKeepsCalls(s, c, a);
    case ReconnectOf(c, r) => ReconnectKeepsCalls(s, c, r);
    case ReaderOf(conn, d) => ReaderKeepsCalls(s, conn, d);
    case _ => CloseKeepsCalls(s, step);
  }

  // ----- Authentication

  /** Until it is closed the transport counts as authenticated exactly while the connection in use is open and has its
      handshake behind it. */
  ghost predicate AuthInv(s: State) {
    !s.core.closed ==>
      && (s.core.authed <==> s.core.conn in s.open && s.open[s.core.conn] && !s.recon.Handshaking?)
      && (s.recon.Handshaking? ==> s.core.conn in s.open && s.open[s.core.conn])
  }

  lemma ReconnectKeepsAuth(s: State, c: nat, r: ReconnectStep)
    requires AuthInv(s) && ConnInv(s) && CloseInv(s) && ReconnectEnabled(s, c, r)
    ensures AuthInv(DoReconnect(s, c, r))
  {
    hide CooldownLeft;
  }

  lemma AttemptKeepsAuth(s: State, c: nat, a: AttemptStep)
    requires AuthInv(s) && AttemptEnabled(s, c, a)
    ensures AuthInv(DoAttempt(s, c, a))
  {
    AttemptTouchesOnlyCalls(s, c, a);
    hide DoAttempt, AttemptEnabled;
  }

  lemma AuthStep(s: State, step: Step)
    requires AuthInv(s) && SharedInv(s) && Enabled(s, step)
    ensures AuthInv(Next(s, step))
  {
    match step
    case AttemptOf(c, a) => AttemptKeepsAuth(s, c, a);
    case ReconnectOf(c, r) => ReconnectKeepsAuth(s, c, r);
    case _ =>
  }

  // ----- Every reachable state

  ghost predicate Inv(s: State) {
    CountInv(s) && SharedInv(s) && CallsInv(s) && AuthInv(s)
  }

  lemma InvStep(s: State, step: Step)
    requires Inv(s) && Enabled(s, step)
    ensures Inv(Next(s, step))
  {
    CountStep(s, step);
    SharedStep(s, step);
    CallsStep(s, step);
    AuthStep(s, step);
  }

  lemma {:induction false} InvInRun(s: State, steps: seq<Step>)
    requires Inv(s) && ValidRun(s, steps)
    ensures Inv(Run(s, steps))
    decreases |steps|
  {
    if steps == [] {
    } else {
      InvStep(s, steps[0]);
      InvInRun(Next(s, steps[0]), steps[1..]);
    }
  }

  lemma StartInv(s: State)
    requires Start(s)
    ensures Inv(s)
  {
    assert InFlight(s) == {};
  }

  // ----- Shutdown

  /** What a step may still do once the flag is set. */
  predicate StaysShut(s: State, t: State) {
    && t.core.closed && t.core.inFlight <= s.core.inFlight && t.drains == s.drains
    && t.core.conn == s.core.conn && t.core.connGen == s.core.connGen && t.open.Keys == s.open.Keys
  }

  lemma ClosedAttempt(s: State, c: nat, a: AttemptStep)
    requires s.core.closed && AttemptEnabled(s, c, a)
    ensures StaysShut(s, DoAttempt(s, c, a))
  {
  }

  lemma ClosedReconnect(s: State, c: nat, r: ReconnectStep)
    requires s.core.closed && s.lock.None? && ReconnectEnabled(s, c, r)
    ensures StaysShut(s, DoReconnect(s, c, r))
  {
    assert r.Begin?;
  }

  lemma ClosedStep(s: State, step: Step)
    requires SharedInv(s) && s.core.closed && Enabled(s, step)
    ensures StaysShut(s, Next(s, step))
  {
    match step
    case AttemptOf(c, a) => ClosedAttempt(s, c, a);
    case ReconnectOf(c, r) => ClosedReconnect(s, c, r);
    case _ =>
  }

  lemma {:induction false} StaysShutInRun(s: State, steps: seq<Step>)
    requires Inv(s) && s.core.closed && ValidRun(s, steps)
    ensures StaysShut(s, Run(s, steps)) && Run(s, steps).drains == 1
    decreases |steps|
  {
    if steps == [] {
    } else {
      ClosedStep(s, steps[0]);
      InvStep(s, steps[0]);
      StaysShutInRun(Next(s, steps[0]), steps[1..]);
    }
  }

  /** In every interleaving, once the flag is set no call or upload is admitted, nobody else is given the drain,
      and no connection is dialed or installed. */
  lemma NothingStartsAfterClose(s0: State, before: seq<Step>, after: seq<Step>)
    requires Start(s0) && ValidRun(s0, before) && Run(s0, before).core.closed && ValidRun(Run(s0, before), after)
    ensures var s := Run(s0, before); StaysShut(s, Run(s, after)) && Run(s, after).drains == 1
  {
    StartInv(s0);
    InvInRun(s0, before);
    StaysShutInRun(Run(s0, before), after);
  }

  /** Shutdown discipline, in every interleaving. The in-flight counter is the number of admitted calls and
      uploads and never goes below zero; a drain that has seen it at zero is never joined by another call;
      at most one closer drains; every connection other than the one in use has been closed, and when the
      drain is over so has that one. */
  lemma ShutdownDiscipline(s0: State, before: seq<Step>, after: seq<Step>)
    requires Start(s0) && ValidRun(s0, before) && ValidRun(Run(s0, before), after)
    ensures var s := Run(s0, before); var t := Run(s, after);
            && s.core.inFlight == |InFlight(s)| && s.drains <= 1
            && (forall k :: k in s.open && s.open[k] ==> k == s.core.conn)
            && (s.core.closed && (forall k :: k in s.closers ==> s.closers[k].Closed?) ==>
                  forall k :: k in s.open ==> !s.open[k])
            && (s.core.closed ==>
                  t.core.inFlight <= s.core.inFlight && t.core.conn == s.core.conn && t.open.Keys == s.open.Keys)
            && (s.core.closed && s.core.inFlight == 0 ==> InFlight(t) == {})
  {
    StartInv(s0);
    InvInRun(s0, before);
    var s := Run(s0, before);
    InvInRun(s, after);
    if s.core.closed {
      StaysShutInRun(s, after);
    }
  }

  // ----- Readers and reconnects

  /** At most one reader is alive, in every interleaving. */
  lemma OneReaderAlive(s0: State, steps: seq<Step>, a: nat, b: nat)
    requires Start(s0) && ValidRun(s0, steps)
    requires var s := Run(s0, steps); a in s.readers && b in s.readers && !s.readers[a].Exited? && !s.readers[b].Exited?
    ensures a == b
  {
    StartInv(s0);
    InvInRun(s0, steps);
  }

  /** Reconnects coalesce, in every interleaving: the generation counts the successful swaps, the i-th swap is
      the only one to replace generation i, and bursts start at least 30 seconds apart. */
  lemma ReconnectsCoalesce(s0: State, steps: seq<Step>)
    requires Start(s0) && ValidRun(s0, steps)
    ensures var s := Run(s0, steps);
            && s.core.connGen == |s.swaps|
            && (forall i, j :: 0 <= i < j < |s.swaps| ==> s.swaps[i] < s.swaps[j])
            && (forall i :: 0 < i < |s.bursts| ==> s.bursts[i] - s.bursts[i - 1] >= 30_000_000_000)
  {
    StartInv(s0);
    InvInRun(s0, steps);
  }

  /** A call that goes on to its second attempt does so on a generation newer than the one it failed on, and no
      call sends more than two requests. */
  lemma RetriesUseNewerConnections(s0: State, steps: seq<Step>, c: nat)
    requires Start(s0) && ValidRun(s0, steps) && c in Run(s0, steps).calls
    ensures var s := Run(s0, steps);
            s.calls[c].sends <= 2 && (s.calls[c].attempt == 2 ==> s.core.connGen > s.calls[c].gen)
  {
    StartInv(s0);
    InvInRun(s0, steps);
    assert CallInv(Run(s0, steps), c);
  }

  // ----- Demultiplexing

  /** No call ever consumes a message for another request, nor more than one message per attempt. */
  lemma ResponsesReachTheirCall(s0: State, steps: seq<Step>, c: nat)
    requires Start(s0) && ValidRun(s0, steps) && c in Run(s0, steps).calls
    ensures var call := Run(s0, steps).calls[c];
            |call.got| <= 1 && forall i :: 0 <= i < |call.got| ==> call.got[i].id == call.req
  {
    StartInv(s0);
    InvInRun(s0, steps);
    assert CallInv(Run(s0, steps), c);
  }

  /** When a reader exits, every call that has registered a request and is still expecting its answer has a
      message for that request in its channel. */
  lemma ReaderExitWakesEveryone(s0: State, steps: seq<Step>, conn: nat, c: nat)
    requires Start(s0) && ValidRun(s0, steps) && Enabled(Run(s0, steps), ReaderOf(conn, Fail))
    requires c in Run(s0, steps).calls && Expecting(Run(s0, steps).calls[c])
    ensures var t := Next(Run(s0, steps), ReaderOf(conn, Fail));
            && t.calls[c].req in t.core.pending
            && t.core.pending[t.calls[c].req].Some?
            && t.core.pending[t.calls[c].req].value.id == t.calls[c].req
  {
    StartInv(s0);
    InvInRun(s0, steps);
    assert CallInv(Run(s0, steps), c);
  }

  /** In every interleaving, until the transport is closed, a request is let through to the connection in use exactly
      while that connection is open and its handshake is done; otherwise it is refused as not authenticated. */
  lemma AuthenticatedIffOpen(s0: State, steps: seq<Step>, c: nat, cancelled: bool)
    requires Start(s0) && ValidRun(s0, steps) && !Run(s0, steps).core.closed
    requires Enabled(Run(s0, steps), AttemptOf(c, Snapshot(cancelled)))
    ensures var s := Run(s0, steps);
            AtPc(Next(s, AttemptOf(c, Snapshot(cancelled))), c, Writing)
            <==> s.core.conn in s.open && s.open[s.core.conn] && !s.recon.Handshaking?
  {
    StartInv(s0);
    InvInRun(s0, steps);
  }

  /** How an attempt ends, in whatever state: a lost connection, a timeout, a failed write, a refused request or an
      answer that cannot be read is retried exactly on the first attempt and while the caller still waits; an
      answer and a cancellation are final; and the request is no longer registered. */
  lemma AttemptEndsIff(s: State, c: nat, a: AttemptStep)
    requires Enabled(s, AttemptOf(c, a))
    requires var t := Next(s, AttemptOf(c, a)); Expecting(s.calls[c]) && !Expecting(t.calls[c])
    ensures var call := s.calls[c]; var t := Next(s, AttemptOf(c, a));
            && t.calls[c].pc == (if t.calls[c].pc.WantReconnect? then WantReconnect else Leaving)
            && (t.calls[c].pc.WantReconnect? <==>
                  call.attempt == 1
                  && Retryable(a, if a.Receive? then s.core.pending[call.req].value.ConnLost? else false))
            && call.req !in t.core.pending
  {
  }

  predicate Retryable(a: AttemptStep, connLost: bool) {
    match a
    case Snapshot(cancelled) => !cancelled
    case WriteFail(cancelled) => !cancelled
    case Receive(malformed, cancelled) => (connLost || malformed) && !cancelled
    case TimeOut(cancelled) => !cancelled
    case ReaderGone(cancelled) => !cancelled
    case _ => false
  }

  /** A reconnect dials at most three times: a failed attempt is followed by the next one, the third by giving up. */
  lemma ThreeDials(s: State, c: nat, r: ReconnectStep)
    requires Enabled(s, ReconnectOf(c, r)) && (r.DialFail? || r.HandshakeFail?)
    ensures var t := Next(s, ReconnectOf(c, r));
            if s.recon.attempt < 2
            then t.recon == Dialing(s.recon.attempt + 1) && t.lock == s.lock && AtPc(t, c, Reconnecting)
            else t.lock.None? && AtPc(t, c, Leaving)
  {
  }

  // ----- What a reader can hold

  /** Readers hold only responses for requests that have been made. */
  ghost predicate HoldInv(s: State) {
    forall k :: k in s.readers && s.readers[k].Holding? ==> s.readers[k].m.id < s.nextReq
  }

  lemma ReadersHold(s: State, conn: nat, d: ReaderStep)
    requires HoldInv(s) && DemuxInv(s) && Enabled(s, ReaderOf(conn, d))
    ensures HoldInv(DoReader(s, conn, d))
  {
  }

  lemma AttemptHolds(s: State, c: nat, a: AttemptStep)
    requires HoldInv(s) && AttemptEnabled(s, c, a)
    ensures HoldInv(DoAttempt(s, c, a))
  {
    assert DoAttempt(s, c, a).nextReq >= s.nextReq;
  }

  lemma ReconnectHolds(s: State, c: nat, r: ReconnectStep)
    requires HoldInv(s) && ReconnectEnabled(s, c, r)
    ensures HoldInv(DoReconnect(s, c, r))
  {
    hide CooldownLeft, Assess;
  }

  lemma HoldStep(s: State, step: Step)
    requires HoldInv(s) && DemuxInv(s) && Enabled(s, step)
    ensures HoldInv(Next(s, step))
  {
    match step
    case AttemptOf(c, a) => AttemptHolds(s, c, a);
    case ReconnectOf(c, r) => ReconnectHolds(s, c, r);
    case ReaderOf(conn, d) => ReadersHold(s, conn, d);
    case _ =>
  }

  lemma {:induction false} HoldInRun(s: State, steps: seq<Step>)
    requires Inv(s) && HoldInv(s) && ValidRun(s, steps)
    ensures HoldInv(Run(s, steps))
    decreases |steps|
  {
    if steps == [] {
    } else {
      HoldStep(s, steps[0]);
      InvStep(s, steps[0]);
      HoldInRun(Next(s, steps[0]), steps[1..]);
    }
  }

  /** In every interleaving, a response for a request that nobody has made yet is dropped by the reader: it cannot wait
      there and answer a later request. */
  lemma NoAnswerBeforeItsRequest(s0: State, steps: seq<Step>, k: nat)
    requires Start(s0) && ValidRun(s0, steps)
    requires var s := Run(s0, steps); k in s.readers && s.readers[k].Holding?
    ensures var s := Run(s0, steps); s.readers[k].m.id < s.nextReq
  {
    StartInv(s0);
    HoldInRun(s0, steps);
  }

  // ----- Whose exit a waiter hears of

  /** The call waits for an answer and listens to a reader that is still alive. */
  predicate Listens(s: State, c: nat, reader: nat) {
    c in s.calls && s.calls[c].watched == reader && reader in s.readers && !s.readers[reader].Exited?
  }

  lemma ListensStep(s: State, step: Step, c: nat, reader: nat)
    requires Listens(s, c, reader) && ConnInv(s) && ReaderInv(s) && Enabled(s, step)
    requires step != AttemptOf(c, Watch) && step != ReaderOf(reader, Fail)
    ensures Listens(Next(s, step), c, reader)
  {
    if !ActsOn(step, c) {
      CallFrame(s, step, c);
    }
    match step
    case AttemptOf(d, a) => AttemptTouchesOnlyCalls(s, d, a);
    case _ =>
  }

  lemma {:induction false} ListensInRun(s: State, steps: seq<Step>, c: nat, reader: nat)
    requires Inv(s) && Listens(s, c, reader) && ValidRun(s, steps)
    requires forall i :: 0 <= i < |steps| ==> steps[i] != AttemptOf(c, Watch) && steps[i] != ReaderOf(reader, Fail)
    ensures Listens(Run(s, steps), c, reader)
    decreases |steps|
  {
    if steps == [] {
    } else {
      ListensStep(s, steps[0], c, reader);
      InvStep(s, steps[0]);
      ListensInRun(Next(s, steps[0]), steps[1..], c, reader);
    }
  }

  lemma WatchListens(s: State, c: nat)
    requires Enabled(s, AttemptOf(c, Watch)) && s.core.reader in s.readers && !s.readers[s.core.reader].Exited?
    ensures Listens(Next(s, AttemptOf(c, Watch)), c, s.core.reader)
  {
  }

  lemma ListenersWait(s: State, c: nat, reader: nat, cancelled: bool)
    requires Listens(s, c, reader)
    ensures !Enabled(s, AttemptOf(c, ReaderGone(cancelled)))
  {
  }

  /** In every interleaving, an attempt whose request was sent while the reader started last was alive is not ended by a
      reader's exit before that reader exits, whichever readers came before it. */
  lemma WaitersHearTheirReader(s0: State, steps: seq<Step>, c: nat, more: seq<Step>, cancelled: bool)
    requires Start(s0) && ValidRun(s0, steps) && Enabled(Run(s0, steps), AttemptOf(c, Watch))
    requires var s := Run(s0, steps); s.core.reader in s.readers && !s.readers[s.core.reader].Exited?
    requires ValidRun(Next(Run(s0, steps), AttemptOf(c, Watch)), more)
    requires forall i :: 0 <= i < |more| ==>
               more[i] != AttemptOf(c, Watch) && more[i] != ReaderOf(Run(s0, steps).core.reader, Fail)
    ensures !Enabled(Run(Next(Run(s0, steps), AttemptOf(c, Watch)), more), AttemptOf(c, ReaderGone(cancelled)))
  {
    StartInv(s0);
    InvInRun(s0, steps);
    var s := Run(s0, steps);
    InvStep(s, AttemptOf(c, Watch));
    WatchListens(s, c);
    ListensInRun(Next(s, AttemptOf(c, Watch)), more, c, s.core.reader);
    ListenersWait(Run(Next(s, AttemptOf(c, Watch)), more), c, s.core.reader, cancelled);
    hide Inv, Next, Enabled, Listens, Run, ValidRun, Start;
  }
}
