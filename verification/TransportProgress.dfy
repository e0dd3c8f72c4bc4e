/** What calls can still achieve on a transport that has not been closed: after every interleaving a new call can be
    served on a healthy connection, and one whose first attempt failed can be served by its second. */
module TransportProgress {
  import opened Text
  import opened Transport
  import opened TransportRuns
  import opened TransportSafety

  /** The call ends with the one answer to its own request. */
  ghost predicate Served(s: State, steps: seq<Step>, c: nat, attempt: nat) {
    && ValidRun(s, steps)
    && var t := Run(s, steps);
    && AtPc(t, c, Finished) && t.calls[c].attempt == attempt && t.calls[c].got == [Response(t.calls[c].req)]
  }

  lemma ServedAfter(s: State, step: Step, rest: seq<Step>, c: nat, attempt: nat)
    requires Enabled(s, step) && Served(Next(s, step), rest, c, attempt)
    ensures Served(s, [step] + rest, c, attempt)
  {
    assert ([step] + rest)[1..] == rest;
  }

  /** Nobody holds the write lock, the connection in use is authenticated, and its reader reads. */
  predicate Healthy(s: State) {
    s.lock.None? && s.core.authed && s.core.reader in s.readers && s.readers[s.core.reader].Reading?
  }

  /** The call has a request registered whose channel is empty. */
  predicate Asked(s: State, c: nat, pc: CallPc) {
    && AtPc(s, c, pc) && s.calls[c].got == []
    && s.calls[c].req in s.core.pending && s.core.pending[s.calls[c].req].None?
  }

  lemma ServeArrived(s: State, c: nat) returns (steps: seq<Step>)
    requires AtPc(s, c, Waiting) && s.calls[c].got == []
    requires s.calls[c].req in s.core.pending && s.core.pending[s.calls[c].req] == Some(Response(s.calls[c].req))
    ensures Served(s, steps, c, s.calls[c].attempt)
  {
    var receive := AttemptOf(c, Receive(false, false));
    var leaving := Next(s, receive);
    var left := Next(leaving, GateOf(c, Leave));
    assert [] + [Response(s.calls[c].req)] == [Response(s.calls[c].req)];
    assert Served(left, [], c, s.calls[c].attempt);
    ServedAfter(leaving, GateOf(c, Leave), [], c, s.calls[c].attempt);
    steps := [receive] + ([GateOf(c, Leave)] + []);
    ServedAfter(s, receive, [GateOf(c, Leave)] + [], c, s.calls[c].attempt);
  }

  lemma ServeWaiting(s: State, c: nat) returns (steps: seq<Step>)
    requires Healthy(s) && Asked(s, c, Waiting)
    ensures Served(s, steps, c, s.calls[c].attempt)
  {
    var read, hand := ReaderOf(s.core.reader, Read(s.calls[c].req)), ReaderOf(s.core.reader, Hand);
    var held := Next(s, read);
    var arrived := Next(held, hand);
    var rest := ServeArrived(arrived, c);
    ServedAfter(held, hand, rest, c, s.calls[c].attempt);
    ServedAfter(s, read, [hand] + rest, c, s.calls[c].attempt);
    steps := [read] + ([hand] + rest);
  }

  lemma ServeWriting(s: State, c: nat) returns (steps: seq<Step>)
    requires Healthy(s) && Asked(s, c, Writing)
    ensures Served(s, steps, c, s.calls[c].attempt)
  {
    var write, watch := AttemptOf(c, WriteOk), AttemptOf(c, Watch);
    var watching := Next(s, write);
    var waiting := Next(watching, watch);
    var rest := ServeWaiting(waiting, c);
    ServedAfter(watching, watch, rest, c, s.calls[c].attempt);
    ServedAfter(s, write, [watch] + rest, c, s.calls[c].attempt);
    steps := [write] + ([watch] + rest);
  }

  lemma ServeRegistering(s: State, c: nat) returns (steps: seq<Step>)
    requires Healthy(s) && AtPc(s, c, Registering)
    ensures Served(s, steps, c, s.calls[c].attempt)
  {
    var register, snapshot := AttemptOf(c, RegisterRequest), AttemptOf(c, Snapshot(false));
    var sending := Next(s, register);
    var writing := Next(sending, snapshot);
    var rest := ServeWriting(writing, c);
    ServedAfter(sending, snapshot, rest, c, s.calls[c].attempt);
    ServedAfter(s, register, [snapshot] + rest, c, s.calls[c].attempt);
    steps := [register] + ([snapshot] + rest);
  }

  /** A new call on a transport that is open and healthy can be served by its first attempt. */
  lemma CallCanBeServed(s0: State, steps: seq<Step>, c: nat) returns (more: seq<Step>)
    requires Start(s0) && ValidRun(s0, steps)
    requires var s := Run(s0, steps); c !in s.calls && !s.core.closed && Healthy(s)
    ensures Served(Run(s0, steps), more, c, 1)
  {
    var s := Run(s0, steps);
    var rest := ServeRegistering(Next(s, GateOf(c, EnterCall)), c);
    ServedAfter(s, GateOf(c, EnterCall), rest, c, 1);
    more := [GateOf(c, EnterCall)] + rest;
  }

  // ----- After a lost connection

  lemma SwapServes(s: State, c: nat) returns (steps: seq<Step>)
    requires AtPc(s, c, Reconnecting) && s.lock == Some(c) && s.recon.Dialing?
    ensures Served(s, steps, c, 2)
  {
    var dial, shake := ReconnectOf(c, DialOk), ReconnectOf(c, HandshakeOk);
    var dialed := Next(s, dial);
    var swapped := Next(dialed, shake);
    var rest := ServeRegistering(swapped, c);
    ServedAfter(dialed, shake, rest, c, 2);
    ServedAfter(s, dial, [shake] + rest, c, 2);
    steps := [dial] + ([shake] + rest);
  }

  lemma DrainedServes(s: State, c: nat) returns (steps: seq<Step>)
    requires AtPc(s, c, Reconnecting) && s.lock == Some(c) && s.recon.AwaitingReader?
    requires s.core.reader in s.readers && s.readers[s.core.reader].Exited?
    ensures Served(s, steps, c, 2)
  {
    var drained := ReconnectOf(c, ReaderDrained);
    var rest := SwapServes(Next(s, drained), c);
    ServedAfter(s, drained, rest, c, 2);
    steps := [drained] + rest;
  }

  /** The old reader hands out what it holds, fails and exits. */
  lemma AwaitingServes(s: State, c: nat) returns (steps: seq<Step>)
    requires AtPc(s, c, Reconnecting) && s.lock == Some(c) && s.recon.AwaitingReader? && s.core.reader in s.readers
    ensures Served(s, steps, c, 2)
    decreases if s.readers[s.core.reader].Holding? then 2 else if s.readers[s.core.reader].Reading? then 1 else 0
  {
    if s.readers[s.core.reader].Exited? {
      steps := DrainedServes(s, c);
    } else {
      var step := ReaderOf(s.core.reader, if s.readers[s.core.reader].Holding? then Hand else Fail);
      var rest := AwaitingServes(Next(s, step), c);
      ServedAfter(s, step, rest, c, 2);
      steps := [step] + rest;
    }
  }

  lemma CooledServes(s: State, c: nat) returns (steps: seq<Step>)
    requires AtPc(s, c, Reconnecting) && s.lock == Some(c) && s.recon.Cooling? && s.core.reader in s.readers
    ensures Served(s, steps, c, 2)
  {
    var rested := if s.core.lastReconnect.Some? && s.core.lastReconnect.value + RECONNECT_COOLDOWN > s.now
                  then s.core.lastReconnect.value + RECONNECT_COOLDOWN else s.now;
    var elapse, burst := Elapse(rested), ReconnectOf(c, StartBurst);
    var cooled := Next(s, elapse);
    var rest := AwaitingServes(Next(cooled, burst), c);
    ServedAfter(cooled, burst, rest, c, 2);
    ServedAfter(s, elapse, [burst] + rest, c, 2);
    steps := [elapse] + ([burst] + rest);
  }

  /** In every interleaving, a call whose first attempt failed can be served by its second attempt if the transport has
      not been closed: on a new connection when the one it failed on is still in use, and otherwise on the one that
      another call has put in its place. */
  lemma RetryCanBeServed(s0: State, steps: seq<Step>, c: nat) returns (more: seq<Step>)
    requires Start(s0) && ValidRun(s0, steps) && AtPc(Run(s0, steps), c, WantReconnect)
    requires var s := Run(s0, steps);
             !s.core.closed && s.lock.None? && (s.calls[c].gen == s.core.connGen || Healthy(s))
    ensures Served(Run(s0, steps), more, c, 2)
  {
    StartInv(s0);
    InvInRun(s0, steps);
    var s := Run(s0, steps);
    var begun := Next(s, ReconnectOf(c, Begin));
    var rest;
    if s.calls[c].gen == s.core.connGen {
      rest := CooledServes(begun, c);
    } else {
      rest := ServeRegistering(begun, c);
    }
    ServedAfter(s, ReconnectOf(c, Begin), rest, c, 2);
    more := [ReconnectOf(c, Begin)] + rest;
  }
}
