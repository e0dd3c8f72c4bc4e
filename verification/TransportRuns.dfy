/** Interleaved runs of the WebSocket transport: any number of calls, uploads and closers, the readers, and
    reconnects that hold the write lock across their sleeps, dials and handshakes. Dials, handshakes, sends,
    reads, cancellations and timeouts succeed or fail in any order. */
module TransportRuns {
  import opened Text
  import opened Transport

  const MAX_RECONNECT_ATTEMPTS: nat := 3

  datatype CallPc =
    | Registering     // about to register a request for this attempt
    | Sending         // about to take the connection to write on
    | Writing
    | Watching        // sent; about to snapshot the reader's done channel
    | Waiting
    | WantReconnect
    | Reconnecting    // holds the write lock
    | Uploading
    | Leaving
    | Finished
    | Rejected

  /** `gen` is the generation observed at the gate; `got` the messages consumed in this attempt. */
  datatype Call = Call(pc: CallPc, gen: nat, attempt: nat, req: nat, watched: nat, sends: nat, got: seq<Message>)

  datatype ReaderPc = Reading | Holding(m: Message) | Exited

  datatype CloserPc = Draining(last: nat) | Closed

  /** The reconnect that holds the write lock. */
  datatype Reconnect = NotReconnecting | Cooling | AwaitingReader | Dialing(attempt: nat) | Handshaking(attempt: nat)

  datatype State = State(
    core: Core,
    now: int,
    nextReq: nat,
    nextConn: nat,
    open: map<nat, bool>,          // every connection dialed, and whether it is still open
    readers: map<nat, ReaderPc>,   // by the connection they read
    calls: map<nat, Call>,
    closers: map<nat, CloserPc>,
    lock: Option<nat>,             // the call holding the write lock
    recon: Reconnect,
    drains: nat,                   // closers that were given the drain
    swaps: seq<nat>,               // the generation each successful swap replaced
    bursts: seq<int>)              // every value lastReconnect has had

  /** The read-locked gate at the start, and the end of the call. */
  datatype GateStep = EnterCall | EnterUpload | FinishUpload | Leave

  /** One attempt of a call. A failure is not retried when the caller's context is done by then. */
  datatype AttemptStep =
    | RegisterRequest
    | Snapshot(cancelled: bool)
    | WriteOk
    | WriteFail(cancelled: bool)
    | Watch
    | Receive(malformed: bool, cancelled: bool)
    | Cancel
    | TimeOut(cancelled: bool)
    | ReaderGone(cancelled: bool)

  /** The reconnect that a failed first attempt goes through. Abort interrupts one of its sleeps. */
  datatype ReconnectStep =
    | Begin
    | Abort
    | StartBurst
    | ReaderDrained
    | DialFail
    | DialOk
    | HandshakeFail
    | HandshakeOk

  datatype ReaderStep = Read(id: nat) | Hand | Fail

  datatype Step =
    | GateOf(c: nat, gate: GateStep)
    | AttemptOf(c: nat, attempt: AttemptStep)
    | ReconnectOf(c: nat, reconnect: ReconnectStep)
    | ReaderOf(conn: nat, reader: ReaderStep)
    | BeginClose(k: nat)
    | EndClose(k: nat)              // drained or timed out, then closes the connection
    | Elapse(now: int)

  predicate AtPc(s: State, c: nat, pc: CallPc) {
    c in s.calls && s.calls[c].pc == pc
  }

  predicate GateEnabled(s: State, c: nat, g: GateStep) {
    match g
    case EnterCall => c !in s.calls && s.lock.None?
    case EnterUpload => c !in s.calls && s.lock.None?
    case FinishUpload => AtPc(s, c, Uploading)
    case Leave => AtPc(s, c, Leaving)
  }

  predicate AttemptEnabled(s: State, c: nat, a: AttemptStep) {
    match a
    case RegisterRequest => AtPc(s, c, Registering)
    case Snapshot(_) => AtPc(s, c, Sending) && s.lock.None?
    case WriteOk => AtPc(s, c, Writing)
    case WriteFail(_) => AtPc(s, c, Writing)
    case Watch => AtPc(s, c, Watching) && s.lock.None?
    case Receive(_, _) =>
      AtPc(s, c, Waiting) && s.calls[c].req in s.core.pending && s.core.pending[s.calls[c].req].Some?
    case Cancel => AtPc(s, c, Sending) || AtPc(s, c, Waiting)
    case TimeOut(_) => AtPc(s, c, Waiting)
    case ReaderGone(_) =>
      AtPc(s, c, Waiting) && s.calls[c].watched in s.readers && s.readers[s.calls[c].watched].Exited?
  }

  predicate ReconnectEnabled(s: State, c: nat, r: ReconnectStep) {
    if r.Begin? then AtPc(s, c, WantReconnect) && s.lock.None?
    else
      AtPc(s, c, Reconnecting) && s.lock == Some(c) &&
      match r
      case Begin => false
      case Abort => s.recon.Cooling? || (s.recon.Dialing? && s.recon.attempt > 0)
      case StartBurst => s.recon.Cooling? && CooldownLeft(s.core, s.now) == 0
      case ReaderDrained => s.recon.AwaitingReader? && s.core.reader in s.readers && s.readers[s.core.reader].Exited?
      case DialFail => s.recon.Dialing?
      case DialOk => s.recon.Dialing?
      case HandshakeFail => s.recon.Handshaking?
      case HandshakeOk => s.recon.Handshaking?
  }

  predicate Enabled(s: State, step: Step) {
    match step
    case GateOf(c, g) => GateEnabled(s, c, g)
    case AttemptOf(c, a) => AttemptEnabled(s, c, a)
    case ReconnectOf(c, r) => ReconnectEnabled(s, c, r)
    case ReaderOf(conn, d) =>
      conn in s.readers && if d.Hand? then s.readers[conn].Holding? else s.readers[conn].Reading?
    case BeginClose(k) => k !in s.closers && s.lock.None?
    case EndClose(k) => k in s.closers && s.closers[k].Draining?
    case Elapse(t) => s.now <= t
  }

  function PutCall(s: State, c: nat, call: Call): State {
    s.(calls := s.calls[c := call])
  }

  function DoGate(s: State, c: nat, g: GateStep): State
    requires GateEnabled(s, c, g)
  {
    match g
    case EnterCall =>
      PutCall(s.(core := Enter(s.core)), c,
              Call(if s.core.closed then Rejected else Registering, s.core.connGen, 1, 0, 0, 0, []))
    case EnterUpload =>
      PutCall(s.(core := Enter(s.core)), c,
              Call(if s.core.closed then Rejected else Uploading, s.core.connGen, 1, 0, 0, 0, []))
    case FinishUpload => PutCall(s.(core := Transport.Leave(s.core)), c, s.calls[c].(pc := Finished))
    case Leave => PutCall(s.(core := Transport.Leave(s.core)), c, s.calls[c].(pc := Finished))
  }

  /** The end of an attempt: its request is unregistered; a retryable first attempt goes on to reconnect. */
  function EndAttempt(s: State, c: nat, call: Call, retryable: bool): State {
    PutCall(s.(core := Unregister(s.core, call.req)), c,
            call.(pc := if retryable && call.attempt == 1 then WantReconnect else Leaving))
  }

  function DoAttempt(s: State, c: nat, a: AttemptStep): State
    requires AttemptEnabled(s, c, a)
  {
    var call := s.calls[c];
    match a
    case RegisterRequest =>
      PutCall(s.(core := Register(s.core, s.nextReq), nextReq := s.nextReq + 1), c,
              call.(pc := Sending, req := s.nextReq, got := []))
    case Snapshot(cancelled) =>
      if s.core.authed then PutCall(s, c, call.(pc := Writing)) else EndAttempt(s, c, call, !cancelled)
    case WriteOk => PutCall(s, c, call.(pc := Watching, sends := call.sends + 1))
    case WriteFail(cancelled) => EndAttempt(s, c, call.(sends := call.sends + 1), !cancelled)
    case Watch => PutCall(s, c, call.(pc := Waiting, watched := s.core.reader))
    case Receive(malformed, cancelled) =>
      var m := s.core.pending[call.req].value;
      EndAttempt(s.(core := Take(s.core, call.req)), c, call.(got := call.got + [m]),
                 (m.ConnLost? || malformed) && !cancelled)
    case Cancel => EndAttempt(s, c, call, false)
    case TimeOut(cancelled) => EndAttempt(s, c, call, !cancelled)
    case ReaderGone(cancelled) => EndAttempt(s, c, call, !cancelled)
  }

  /** The lock is released and the call goes on. */
  function ReleaseLock(s: State, c: nat, call: Call): State {
    PutCall(s.(lock := None, recon := NotReconnecting), c, call)
  }

  /** One more dial, unless all attempts are used up. */
  function NextDial(s: State, c: nat, call: Call, attempt: nat): State {
    if attempt + 1 < MAX_RECONNECT_ATTEMPTS then s.(recon := Dialing(attempt + 1))
    else ReleaseLock(s, c, call.(pc := Leaving))
  }

  function Shutting(open: map<nat, bool>, conn: nat): map<nat, bool> {
    if conn in open then open[conn := false] else open
  }

  function DoReconnect(s: State, c: nat, r: ReconnectStep): State
    requires ReconnectEnabled(s, c, r)
  {
    var call := s.calls[c];
    match r
    case Begin =>
      var v := Assess(s.core, call.gen);
      if v.RefusedClosed? then PutCall(s, c, call.(pc := Leaving))
      else if v.AlreadyReplaced? then PutCall(s, c, call.(pc := Registering, attempt := 2))
      else PutCall(s.(lock := Some(c), recon := Cooling), c, call.(pc := Reconnecting))
    case Abort => ReleaseLock(s, c, call.(pc := Leaving))
    case StartBurst =>
      s.(core := BeginBurst(s.core, s.now), recon := AwaitingReader, bursts := s.bursts + [s.now],
         open := Shutting(s.open, s.core.conn))
    case ReaderDrained => s.(recon := Dialing(0))
    case DialFail => NextDial(s, c, call, s.recon.attempt)
    case DialOk =>
      s.(core := Dialed(s.core, s.nextConn), open := s.open[s.nextConn := true], nextConn := s.nextConn + 1,
         recon := Handshaking(s.recon.attempt))
    case HandshakeFail => NextDial(s.(open := Shutting(s.open, s.core.conn)), c, call, s.recon.attempt)
    case HandshakeOk =>
      ReleaseLock(s.(core := Installed(s.core), readers := s.readers[s.core.conn := Reading],
                     swaps := s.swaps + [s.core.connGen]),
                  c, call.(pc := Registering, attempt := 2))
  }

  function DoReader(s: State, conn: nat, d: ReaderStep): State
    requires conn in s.readers && (d.Hand? ==> s.readers[conn].Holding?)
  {
    match d
    case Read(id) => if id in s.core.pending then s.(readers := s.readers[conn := Holding(Response(id))]) else s
    case Hand => s.(core := Deliver(s.core, s.readers[conn].m), readers := s.readers[conn := Reading])
    case Fail => s.(core := FanOut(s.core), readers := s.readers[conn := Exited])
  }

  function Next(s: State, step: Step): State
    requires Enabled(s, step)
  {
    match step
    case GateOf(c, g) => DoGate(s, c, g)
    case AttemptOf(c, a) => DoAttempt(s, c, a)
    case ReconnectOf(c, r) => DoReconnect(s, c, r)
    case ReaderOf(conn, d) => DoReader(s, conn, d)
    case BeginClose(k) =>
      if s.core.closed then s.(closers := s.closers[k := Closed])
      else s.(core := Shut(s.core), drains := s.drains + 1, closers := s.closers[k := Draining(s.core.conn)])
    case EndClose(k) => s.(open := Shutting(s.open, s.closers[k].last), closers := s.closers[k := Closed])
    case Elapse(t) => s.(now := t)
  }

  ghost predicate ValidRun(s: State, steps: seq<Step>)
    decreases |steps|
  {
    steps == [] || (Enabled(s, steps[0]) && ValidRun(Next(s, steps[0]), steps[1..]))
  }

  ghost function Run(s: State, steps: seq<Step>): State
    requires ValidRun(s, steps)
    decreases |steps|
  {
    if steps == [] then s else Run(Next(s, steps[0]), steps[1..])
  }

  /** A dialed, authenticated connection 0 with its reader, and nobody using it yet. */
  predicate Start(s: State) {
    && s.core == Core(0, 0, true, 0, false, 0, map[], false, None)
    && s.open == map[0 := true] && s.readers == map[0 := Reading] && s.nextConn == 1
    && s.calls == map[] && s.closers == map[] && s.lock.None? && s.recon.NotReconnecting?
    && s.drains == 0 && s.swaps == [] && s.bursts == []
  }

  // ----- The in-flight counter

  predicate Live(c: Call) {
    !c.pc.Finished? && !c.pc.Rejected?
  }

  ghost function InFlight(s: State): set<nat> {
    set c | c in s.calls && Live(s.calls[c])
  }

  ghost predicate CountInv(s: State) {
    s.core.inFlight == |InFlight(s)|
  }

  predicate LiveAt(s: State, c: nat) {
    c in s.calls && Live(s.calls[c])
  }

  function CounterChange(s: State, step: Step): int {
    match step
    case GateOf(_, g) =>
      if g.EnterCall? || g.EnterUpload? then (if s.core.closed then 0 else 1) else -1
    case _ => 0
  }

  predicate ActsOn(step: Step, c: nat) {
    (step.GateOf? || step.AttemptOf? || step.ReconnectOf?) && step.c == c
  }

  predicate SameCall(s: State, t: State, x: nat) {
    (x in t.calls <==> x in s.calls) && (x in t.calls ==> t.calls[x] == s.calls[x])
  }

  lemma AttemptFrame(s: State, c: nat, a: AttemptStep, x: nat)
    requires AttemptEnabled(s, c, a) && x != c
    ensures SameCall(s, DoAttempt(s, c, a), x)
  {
  }

  lemma ReconnectFrame(s: State, c: nat, r: ReconnectStep, x: nat)
    requires ReconnectEnabled(s, c, r) && x != c
    ensures SameCall(s, DoReconnect(s, c, r), x)
  {
  }

  /** A step changes no call but its own. */
  lemma CallFrame(s: State, step: Step, x: nat)
    requires Enabled(s, step) && !ActsOn(step, x)
    ensures SameCall(s, Next(s, step), x)
  {
    match step
    case AttemptOf(c, a) => AttemptFrame(s, c, a, x);
    case ReconnectOf(c, r) => ReconnectFrame(s, c, r, x);
    case _ =>
  }

  predicate CountsLike(s: State, t: State, c: nat, change: int) {
    && t.core.inFlight == s.core.inFlight + change
    && (change == 1 ==> !LiveAt(s, c) && LiveAt(t, c))
    && (change == -1 ==> LiveAt(s, c) && !LiveAt(t, c))
    && (change == 0 ==> LiveAt(s, c) == LiveAt(t, c))
  }

  lemma AttemptCounts(s: State, c: nat, a: AttemptStep)
    requires AttemptEnabled(s, c, a)
    ensures CountsLike(s, DoAttempt(s, c, a), c, 0)
  {
  }

  lemma ReconnectCounts(s: State, c: nat, r: ReconnectStep)
    requires ReconnectEnabled(s, c, r)
    ensures CountsLike(s, DoReconnect(s, c, r), c, 0)
  {
  }

  lemma GateCounts(s: State, c: nat, g: GateStep)
    requires GateEnabled(s, c, g)
    ensures CountsLike(s, DoGate(s, c, g), c, CounterChange(s, GateOf(c, g)))
  {
  }

  /** The counter moves exactly when the acting call's liveness does. */
  lemma CounterFollowsCall(s: State, step: Step, c: nat)
    requires Enabled(s, step)
    requires step.GateOf? || step.AttemptOf? || step.ReconnectOf? ==> step.c == c
    ensures CountsLike(s, Next(s, step), c, CounterChange(s, step))
  {
    match step
    case GateOf(_, g) => GateCounts(s, c, g);
    case AttemptOf(_, a) => AttemptCounts(s, c, a);
    case ReconnectOf(_, r) => ReconnectCounts(s, c, r);
    case _ =>
  }

  lemma InFlightMoves(s: State, t: State, c: nat, change: int)
    requires forall x: nat :: x != c ==> LiveAt(s, x) == LiveAt(t, x)
    requires change == 1 ==> !LiveAt(s, c) && LiveAt(t, c)
    requires change == -1 ==> LiveAt(s, c) && !LiveAt(t, c)
    requires change == 0 ==> LiveAt(s, c) == LiveAt(t, c)
    requires -1 <= change <= 1
    ensures |InFlight(t)| == |InFlight(s)| + change
  {
    assert forall x: nat :: x in InFlight(t) <==> LiveAt(t, x);
    assert forall x: nat :: x in InFlight(s) <==> LiveAt(s, x);
    if change == 1 {
      assert InFlight(t) == InFlight(s) + {c};
    } else if change == -1 {
      assert InFlight(s) == InFlight(t) + {c};
    } else {
      assert InFlight(t) == InFlight(s);
    }
  }

  lemma CountStep(s: State, step: Step)
    requires CountInv(s) && Enabled(s, step)
    ensures CountInv(Next(s, step))
  {
    var t := Next(s, step);
    var c := if step.GateOf? || step.AttemptOf? || step.ReconnectOf? then step.c else 0;
    forall x: nat | !ActsOn(step, x) ensures LiveAt(s, x) == LiveAt(t, x) {
      CallFrame(s, step, x);
    }
    CounterFollowsCall(s, step, c);
    InFlightMoves(s, t, c, CounterChange(s, step));
  }
}
