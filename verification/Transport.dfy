/** The shared fields of the WebSocket transport and its critical sections. Each section is a function on
    the fields, and a method of the transport object that performs it. */
module Transport {
  import opened Text

  const RECONNECT_COOLDOWN: int := 30_000_000_000

  /** What a reader puts on a waiter's channel: a response, or the synthetic loss notice. */
  datatype Message = Response(id: nat) | ConnLost(id: nat)

  /** `pending` maps each registered request to the contents of its one-slot channel. `conn` is the
      connection in use and `reader` the one whose reader was started last. */
  datatype Core = Core(
    conn: nat,
    reader: nat,
    authed: bool,
    connGen: nat,
    closed: bool,
    inFlight: int,
    pending: map<nat, Option<Message>>,
    readerErr: bool,
    lastReconnect: Option<int>)

  // ----- The critical sections

  /** The gate at the start of Call and UploadFile. */
  function Enter(k: Core): Core {
    if k.closed then k else k.(inFlight := k.inFlight + 1)
  }

  function Leave(k: Core): Core {
    k.(inFlight := k.inFlight - 1)
  }

  function Register(k: Core, id: nat): Core {
    k.(pending := k.pending[id := None])
  }

  function Unregister(k: Core, id: nat): Core {
    k.(pending := k.pending - {id})
  }

  /** The reader's non-blocking send of a response to the channel it looked up. */
  function Deliver(k: Core, m: Message): Core {
    if m.id in k.pending && k.pending[m.id].None? then k.(pending := k.pending[m.id := Some(m)]) else k
  }

  /** The waiter takes its message. */
  function Take(k: Core, id: nat): Core {
    k.(pending := k.pending[id := None])
  }

  /** A failing reader records its error and offers every registered request a loss notice. */
  function FanOut(k: Core): Core {
    k.(readerErr := true, pending := OfferLoss(k.pending))
  }

  function OfferLoss(pending: map<nat, Option<Message>>): map<nat, Option<Message>> {
    map id | id in pending :: if pending[id].Some? then pending[id] else Some(ConnLost(id))
  }

  /** Close under the write lock. */
  function Shut(k: Core): Core {
    k.(closed := true)
  }

  datatype Verdict = RefusedClosed | AlreadyReplaced | Proceed

  /** The checks reconnect makes once it has the write lock. */
  function Assess(k: Core, observedGen: nat): Verdict {
    if k.closed then RefusedClosed else if k.connGen != observedGen then AlreadyReplaced else Proceed
  }

  /** How much longer the circuit breaker makes a reconnect wait. */
  function CooldownLeft(k: Core, now: int): int {
    if k.lastReconnect.Some? && now - k.lastReconnect.value < RECONNECT_COOLDOWN
    then RECONNECT_COOLDOWN - (now - k.lastReconnect.value)
    else 0
  }

  function BeginBurst(k: Core, now: int): Core {
    k.(lastReconnect := Some(now), authed := false)
  }

  function Dialed(k: Core, conn: nat): Core {
    k.(conn := conn)
  }

  /** The handshake succeeded: a fresh reader and the next generation. */
  function Installed(k: Core): Core {
    k.(authed := true, readerErr := false, reader := k.conn, connGen := k.connGen + 1)
  }

  // ----- What a waiter finds in its channel

  /** What a reader does to the registry: hand out a response, or fail. */
  datatype ReaderEvent = Hands(m: Message) | Fails

  function Feed(k: Core, events: seq<ReaderEvent>): Core
    decreases |events|
  {
    if events == [] then k
    else Feed(if events[0].Hands? then Deliver(k, events[0].m) else FanOut(k), events[1..])
  }

  /** The first message among the events that is for request `id`; a failure has one for everybody. */
  function FirstFor(id: nat, events: seq<ReaderEvent>): Option<Message> {
    if events == [] then None
    else if events[0].Fails? then Some(ConnLost(id))
    else if events[0].m.id == id then Some(events[0].m)
    else FirstFor(id, events[1..])
  }

  /** However long a waiter leaves its channel alone, it finds the first message for its own request: later
      responses, duplicates and loss notices never replace it, and no other request's message gets there. */
  lemma {:induction false} FirstMessageWins(k: Core, id: nat, events: seq<ReaderEvent>)
    requires id in k.pending
    ensures var after := Feed(k, events);
            && after.pending.Keys == k.pending.Keys
            && after.pending[id] == if k.pending[id].Some? then k.pending[id] else FirstFor(id, events)
    decreases |events|
  {
    if events == [] {
    } else {
      var next := if events[0].Hands? then Deliver(k, events[0].m) else FanOut(k);
      assert next.pending.Keys == k.pending.Keys;
      FirstMessageWins(next, id, events[1..]);
    }
  }

  // ----- The transport object

  /** The connections dialed so far that nobody has closed. */
  class Network {
    var open: set<nat>
    var next: nat

    predicate Valid()
      reads this
    {
      forall c :: c in open ==> c < next
    }

    method Dial() returns (c: nat)
      requires Valid()
      modifies this
      ensures Valid() && c == old(next) && next == old(next) + 1 && open == old(open) + {c}
    {
      c := next;
      next := next + 1;
      open := open + {c};
    }

    method Close(c: nat)
      modifies this`open
      ensures open == old(open) - {c}
    {
      open := open - {c};
    }
  }

  /** How one attempt of the reconnect loop goes; only later attempts are preceded by an interruptible sleep. */
  datatype Try = Interrupted | DialFails | HandshakeFails | Succeeds

  datatype ReconnectResult = TransportClosed | AlreadyFresh | AbortedInCooldown | AbortedInBackoff | Exhausted | Swapped

  predicate FailedTry(t: Try) {
    t.DialFails? || t.HandshakeFails?
  }

  /** The attempt that ends the loop before it runs out of attempts. */
  predicate Decisive(tries: seq<Try>, k: nat) {
    k < |tries| && !FailedTry(tries[k]) && forall j :: 0 <= j < k ==> FailedTry(tries[j])
  }

  class WsTransport {
    var conn: nat
    var reader: nat
    var authed: bool
    var connGen: nat
    var closed: bool
    var inFlight: int
    var pending: map<nat, Option<Message>>
    var readerErr: bool
    var lastReconnect: Option<int>

    function View(): Core
      reads this
    {
      Core(conn, reader, authed, connGen, closed, inFlight, pending, readerErr, lastReconnect)
    }

    /** `newWSTransport` on a connection whose handshake succeeded. */
    constructor (conn: nat)
      ensures View() == Core(conn, conn, true, 0, false, 0, map[], false, None)
    {
      this.conn, reader, authed, connGen := conn, conn, true, 0;
      closed, inFlight, pending, readerErr, lastReconnect := false, 0, map[], false, None;
    }

    /** The closed check, the WaitGroup increment and the generation snapshot, under one read lock. */
    method EnterCall() returns (admitted: bool, gen: nat)
      modifies this`inFlight
      ensures View() == Enter(old(View())) && admitted == !closed && gen == connGen
      ensures inFlight == if closed then old(inFlight) else old(inFlight) + 1
    {
      if closed {
        return false, connGen;
      }
      inFlight := inFlight + 1;
      return true, connGen;
    }

    /** `registerPending`: the request gets an empty channel, and no other request's channel is touched. */
    method RegisterPending(id: nat)
      modifies this`pending
      ensures View() == Register(old(View()), id)
      ensures pending.Keys == old(pending.Keys) + {id} && pending[id] == None
      ensures forall other :: other in old(pending) && other != id ==> pending[other] == old(pending[other])
    {
      pending := pending[id := None];
    }

    /** The reader hands a response to the channel of its request: an orphan or a duplicate is dropped, a
        message already there is never replaced, and no other request's channel is touched. */
    method DeliverResponse(m: Message)
      modifies this`pending
      ensures View() == Deliver(old(View()), m)
      ensures pending.Keys == old(pending.Keys)
      ensures forall id :: id in pending && old(pending[id]).Some? ==> pending[id] == old(pending[id])
      ensures forall id :: id in pending && id != m.id ==> pending[id] == old(pending[id])
      ensures m.id in pending && old(pending[m.id]).None? ==> pending[m.id] == Some(m)
    {
      if m.id in pending {
        if pending[m.id].None? {
          pending := pending[m.id := Some(m)];
        }
      }
    }

    /** The fan-out of a failing reader: one pass over the registry, never blocking on a full channel. */
    method FailPending()
      modifies this`pending, this`readerErr
      ensures View() == FanOut(old(View()))
      ensures readerErr && pending.Keys == old(pending.Keys)
      ensures forall id :: id in pending ==>
                pending[id] == if old(pending[id]).Some? then old(pending[id]) else Some(ConnLost(id))
    {
      readerErr := true;
      var todo := pending.Keys;
      while todo != {}
        invariant readerErr && todo <= pending.Keys == old(pending.Keys)
        invariant forall id :: id in todo ==> pending[id] == old(pending[id])
        invariant forall id :: id in pending && id !in todo ==>
                    pending[id] == if old(pending[id]).Some? then old(pending[id]) else Some(ConnLost(id))
        decreases todo
      {
        var id :| id in todo;
        if pending[id].None? {
          pending := pending[id := Some(ConnLost(id))];
        }
        todo := todo - {id};
      }
      assert pending == OfferLoss(old(pending));
    }

    /** The part of Close under the write lock; only the caller that flips the flag drains. */
    method ShutGate() returns (drains: bool, last: nat)
      modifies this`closed
      ensures View() == Shut(old(View())) && drains == !old(closed) && last == conn && closed
    {
      drains := !closed;
      closed := true;
      return drains, conn;
    }

    method AssessReconnect(observedGen: nat, now: int) returns (v: Verdict, wait: int)
      ensures v == Assess(View(), observedGen)
      ensures v.Proceed? ==> wait == CooldownLeft(View(), now)
      ensures v.RefusedClosed? <==> closed
      ensures v.AlreadyReplaced? <==> !closed && connGen != observedGen
      ensures v.Proceed? ==>
                wait == if lastReconnect == None || now >= lastReconnect.value + 30_000_000_000 then 0
                        else lastReconnect.value + 30_000_000_000 - now
    {
      if closed {
        return RefusedClosed, 0;
      }
      if connGen != observedGen {
        return AlreadyReplaced, 0;
      }
      wait := 0;
      if lastReconnect.Some? {
        var since := now - lastReconnect.value;
        if since < RECONNECT_COOLDOWN {
          wait := RECONNECT_COOLDOWN - since;
        }
      }
      return Proceed, wait;
    }

    method StartBurst(now: int) returns (previous: nat)
      modifies this`lastReconnect, this`authed
      ensures View() == BeginBurst(old(View()), now) && previous == conn
    {
      lastReconnect := Some(now);
      authed := false;
      return conn;
    }

    method AdoptDialed(c: nat)
      modifies this`conn
      ensures View() == Dialed(old(View()), c)
    {
      conn := c;
    }

    method Install()
      modifies this`authed, this`readerErr, this`reader, this`connGen
      ensures View() == Installed(old(View()))
    {
      authed := true;
      readerErr := false;
      reader := conn;
      connGen := connGen + 1;
    }

    /** `reconnect` under the write lock. `at` is the time after the cooldown; waiting for the old reader to
        drain leaves these fields to the reader. A swap leaves exactly one connection in place of the old one,
        any other outcome none. */
    method Reconnect(net: Network, observedGen: nat, now: int, cooldownInterrupted: bool, at: int, tries: seq<Try>)
      returns (r: ReconnectResult)
      requires net.Valid() && |tries| == 3 && !tries[0].Interrupted?
      modifies this`conn, this`reader, this`authed, this`connGen, this`readerErr, this`lastReconnect, net
      ensures net.Valid()
      ensures r.TransportClosed? <==> closed
      ensures r.AlreadyFresh? <==> !closed && old(connGen) != observedGen
      ensures r.AbortedInCooldown? <==> !closed && old(connGen) == observedGen && cooldownInterrupted
                                        && CooldownLeft(old(View()), now) > 0
      ensures r.TransportClosed? || r.AlreadyFresh? || r.AbortedInCooldown? ==>
                View() == old(View()) && net.open == old(net.open)
      ensures r.Swapped? ==>
                && View() == Installed(Dialed(BeginBurst(old(View()), at), conn))
                && net.open == old(net.open) - {old(conn)} + {conn} && conn !in old(net.open)
                && exists k: nat :: Decisive(tries, k) && tries[k].Succeeds?
      ensures r.Swapped? ==>
                authed && !readerErr && reader == conn && connGen == old(connGen) + 1 && lastReconnect == Some(at)
      ensures r.AbortedInBackoff? || r.Exhausted? ==>
                !authed && readerErr == old(readerErr) && reader == old(reader) && connGen == old(connGen)
                && lastReconnect == Some(at)
      ensures r.AbortedInBackoff? || r.Exhausted? ==>
                && View() == Dialed(BeginBurst(old(View()), at), conn)
                && net.open == old(net.open) - {old(conn)}
      ensures r.AbortedInBackoff? ==> exists k: nat :: Decisive(tries, k) && tries[k].Interrupted?
      ensures r.Exhausted? ==> forall k :: 0 <= k < |tries| ==> FailedTry(tries[k])
    {
      var verdict, wait := AssessReconnect(observedGen, now);
      if verdict.RefusedClosed? {
        return TransportClosed;
      }
      if verdict.AlreadyReplaced? {
        return AlreadyFresh;
      }
      if wait > 0 && cooldownInterrupted {
        return AbortedInCooldown;
      }
      var oldConn := StartBurst(at);
      net.Close(oldConn);
      for attempt := 0 to 3
        invariant net.Valid() && net.open == old(net.open) - {old(conn)} && net.next >= old(net.next)
        invariant View() == Dialed(BeginBurst(old(View()), at), conn)
        invariant forall j :: 0 <= j < attempt ==> FailedTry(tries[j])
      {
        var outcome := tries[attempt];
        if outcome.Interrupted? {
          assert Decisive(tries, attempt);
          return AbortedInBackoff;
        }
        if outcome.DialFails? {
          continue;
        }
        var c := net.Dial();
        AdoptDialed(c);
        if outcome.HandshakeFails? {
          net.Close(c);
          continue;
        }
        Install();
        assert Decisive(tries, attempt);
        return Swapped;
      }
      return Exhausted;
    }

    /** `Close`, once the drain is over or has timed out: later callers change nothing. */
    method Close(net: Network)
      modifies this`closed, net`open
      ensures View() == Shut(old(View()))
      ensures closed && net.open == if old(closed) then old(net.open) else old(net.open) - {conn}
    {
      var drains, last := ShutGate();
      if drains {
        net.Close(last);
      }
    }
  }
}
