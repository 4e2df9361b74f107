/** The in-process transport: two endpoints over one shared bus, and the filter that drops what is sent
  before registration. Endpoints also log what they put on the bus and what they took off it.
*/
module WebrtcTransports {
  import opened Wrappers
  import opened Ids
  import opened Streams
  import opened Json
  import opened Messages
  import opened SyncerTypes

  datatype Packet = Packet(dest: ParticipantId, from: ParticipantId, payload: TransportPayload)

  type Bus = seq<Packet>

  datatype SendCall = SendCall(dest: ParticipantId, payload: TransportPayload, params: SendParams)

  datatype Endpoint = Endpoint(me: ParticipantId, peer: ParticipantId, registered: bool, pending: seq<TransportEvent>,
                               injectFailureOnce: bool, calls: seq<SendCall>, got: seq<TransportEvent>)

  /** The endpoint behind its filter, which registers `me`. */
  datatype Link = Link(me: ParticipantId, registered: bool, inner: Endpoint)

  function NewEndpoint(me: ParticipantId, peer: ParticipantId, injectFailureOnce: bool): Endpoint {
    Endpoint(me, peer, false, [], injectFailureOnce, [], [])
  }

  function NewLink(me: ParticipantId, inner: Endpoint): Link {
    Link(me, false, inner)
  }

  /** What the bus holds for `me`, as events, in order. */
  function Deliveries(bus: Bus, me: ParticipantId): seq<TransportEvent> {
    if bus == [] then []
    else
      var p := bus[|bus| - 1];
      Deliveries(bus[..|bus| - 1], me) + (if p.dest == me then [Received(p.from, p.payload)] else [])
  }

  /** What the bus holds for anyone else, in order. */
  function Remaining(bus: Bus, me: ParticipantId): Bus {
    if bus == [] then []
    else
      var p := bus[|bus| - 1];
      Remaining(bus[..|bus| - 1], me) + (if p.dest == me then [] else [p])
  }

  /** The received messages among `events`, in order; failures are left out. */
  function ReceivedIn(events: seq<TransportEvent>): seq<TransportEvent> {
    if events == [] then []
    else
      var e := events[|events| - 1];
      ReceivedIn(events[..|events| - 1]) + (if e.Received? then [e] else [])
  }

  /** What the other end should receive from `me` for these sends. */
  function Expected(me: ParticipantId, calls: seq<SendCall>): seq<TransportEvent> {
    seq(|calls|, i requires 0 <= i < |calls| => Received(me, calls[i].payload))
  }

  predicate IsControl(payload: TransportPayload) {
    payload.Encoded? && FromSlice(payload.bytes).Ok?
      && FromSlice(payload.bytes).value.kind in {ControlJoin, ControlLeave}
  }

  function EndpointSend(e: Endpoint, bus: Bus, call: SendCall): (Endpoint, Bus) {
    if !e.registered then (e, bus)
    else
      var fails := e.injectFailureOnce && !IsControl(call.payload);
      (e.(calls := e.calls + [call],
          pending := if fails then e.pending + [Failure(e.peer)] else e.pending,
          injectFailureOnce := e.injectFailureOnce && !fails),
       bus + [Packet(e.peer, e.me, call.payload)])
  }

  function EndpointPoll(e: Endpoint, bus: Bus): (Endpoint, Bus, seq<TransportEvent>) {
    if !e.registered then (e, bus, [])
    else
      var events := e.pending + Deliveries(bus, e.me);
      (e.(pending := [], got := e.got + ReceivedIn(events)), Remaining(bus, e.me), events)
  }

  function LinkRegister(l: Link): Link {
    l.(registered := true, inner := l.inner.(registered := l.inner.registered || l.me == l.inner.me))
  }

  function LinkSend(l: Link, bus: Bus, call: SendCall): (Link, Bus) {
    if !l.registered then (l, bus)
    else
      var (e, bus') := EndpointSend(l.inner, bus, call);
      (l.(inner := e), bus')
  }

  function LinkPoll(l: Link, bus: Bus): (Link, Bus, seq<TransportEvent>) {
    var (e, bus', events) := EndpointPoll(l.inner, bus);
    (l.(inner := e), bus', events)
  }

  lemma NothingSeen(bus: Bus, me: ParticipantId)
    ensures Remaining(bus[..0], me) == [] && Deliveries(bus[..0], me) == [] && bus[0..] == bus
  {
  }

  lemma CutOut(kept: Bus, rest: Bus)
    requires rest != []
    ensures (kept + rest)[|kept|] == rest[0]
    ensures (kept + rest)[..|kept|] + (kept + rest)[|kept| + 1..] == kept + rest[1..]
    ensures kept + rest == (kept + [rest[0]]) + rest[1..]
  {
  }

  lemma SeenOneMore(bus: Bus, seen: nat, me: ParticipantId)
    requires seen < |bus|
    ensures Remaining(bus[..seen + 1], me)
      == Remaining(bus[..seen], me) + (if bus[seen].dest == me then [] else [bus[seen]])
    ensures Deliveries(bus[..seen + 1], me) ==
      Deliveries(bus[..seen], me) + (if bus[seen].dest == me then [Received(bus[seen].from, bus[seen].payload)] else [])
  {
    assert bus[..seen + 1][..seen] == bus[..seen];
  }

  class WebrtcBus {
    var messages: Bus

    constructor ()
      ensures messages == []
    {
      messages := [];
    }
  }

  class WebrtcTransport {
    const me: ParticipantId
    const peer: ParticipantId
    const bus: WebrtcBus
    var registered: bool
    var sentParams: seq<SendParams>
    var pending: seq<TransportEvent>
    var injectFailureOnce: bool
    ghost var calls: seq<SendCall>
    ghost var got: seq<TransportEvent>

    ghost function Contents(): Endpoint
      reads this
    {
      Endpoint(me, peer, registered, pending, injectFailureOnce, calls, got)
    }

    constructor (me: ParticipantId, peer: ParticipantId, bus: WebrtcBus, injectFailureOnce: bool)
      ensures this.bus == bus && Contents() == NewEndpoint(me, peer, injectFailureOnce) && sentParams == []
    {
      this.me, this.peer, this.bus, this.injectFailureOnce := me, peer, bus, injectFailureOnce;
      registered, sentParams, pending := false, [], [];
      calls, got := [], [];
    }

    method RegisterParticipant(p: ParticipantId)
      modifies this`registered
      ensures Contents() == old(Contents()).(registered := old(registered) || p == me)
    {
      if p == me {
        registered := true;
      }
    }

    method Send(dest: ParticipantId, payload: TransportPayload, params: SendParams)
      modifies this, bus
      ensures (Contents(), bus.messages)
        == EndpointSend(old(Contents()), old(bus.messages), SendCall(dest, payload, params))
      ensures sentParams == old(sentParams) + (if registered then [params] else [])
    {
      if !registered {
        return;
      }
      sentParams := sentParams + [params];
      calls := calls + [SendCall(dest, payload, params)];
      if injectFailureOnce && !IsControl(payload) {
        pending := pending + [Failure(peer)];
        injectFailureOnce := false;
      }
      bus.messages := bus.messages + [Packet(peer, me, payload)];
    }

    method Poll() returns (out: seq<TransportEvent>)
      modifies this, bus
      ensures (Contents(), bus.messages, out) == EndpointPoll(old(Contents()), old(bus.messages))
    {
      if !registered {
        return [];
      }
      out := pending;
      pending := [];
      var taken := TakeMine();
      out := out + taken;
      got := got + ReceivedIn(out);
    }

    /** Takes the packets for this end out of the shared list in place, keeping all others where they are. */
    method TakeMine() returns (taken: seq<TransportEvent>)
      modifies bus
      ensures bus.messages == Remaining(old(bus.messages), me) && taken == Deliveries(old(bus.messages), me)
    {
      ghost var was := bus.messages;
      ghost var seen, kept, rest := 0, [], was;
      hide Remaining, Deliveries;
      NothingSeen(was, me);
      taken := [];
      var i := 0;
      while i < |bus.messages|
        invariant 0 <= seen <= |was| && rest == was[seen..]
        invariant bus.messages == kept + rest && i == |kept|
        invariant kept == Remaining(was[..seen], me) && taken == Deliveries(was[..seen], me)
        decreases |rest|
      {
        SeenOneMore(was, seen, me);
        CutOut(kept, rest);
        if bus.messages[i].dest == me {
          taken := taken + [Received(bus.messages[i].from, bus.messages[i].payload)];
          bus.messages := bus.messages[..i] + bus.messages[i + 1..];
        } else {
          kept := kept + [rest[0]];
          i := i + 1;
        }
        seen, rest := seen + 1, rest[1..];
      }
      assert was[..seen] == was;
    }
  }

  /** Two ends facing each other over one new bus. */
  method PairWithOptions(a: ParticipantId, b: ParticipantId, failA: bool, failB: bool)
    returns (x: WebrtcTransport, y: WebrtcTransport)
    ensures x.Contents() == NewEndpoint(a, b, failA) && y.Contents() == NewEndpoint(b, a, failB)
    ensures x != y && x.bus == y.bus && x.bus.messages == [] && fresh({x, y}) && fresh(x.bus)
  {
    var bus := new WebrtcBus();
    x := new WebrtcTransport(a, b, bus, failA);
    y := new WebrtcTransport(b, a, bus, failB);
  }

  class FilteringTransport {
    const me: ParticipantId
    const inner: WebrtcTransport
    var registered: bool

    ghost function Contents(): Link
      reads this, inner
    {
      Link(me, registered, inner.Contents())
    }

    constructor (me: ParticipantId, inner: WebrtcTransport)
      ensures this.inner == inner && Contents() == NewLink(me, inner.Contents())
    {
      this.me, this.inner := me, inner;
      registered := false;
    }

    method Register()
      modifies this, inner
      ensures Contents() == LinkRegister(old(Contents()))
    {
      registered := true;
      inner.RegisterParticipant(me);
    }

    method Send(dest: ParticipantId, payload: TransportPayload, params: SendParams)
      modifies inner, inner.bus
      ensures (Contents(), inner.bus.messages)
        == LinkSend(old(Contents()), old(inner.bus.messages), SendCall(dest, payload, params))
    {
      if !registered {
        return;
      }
      inner.Send(dest, payload, params);
    }

    method Poll() returns (events: seq<TransportEvent>)
      modifies inner, inner.bus
      ensures (Contents(), inner.bus.messages, events) == LinkPoll(old(Contents()), old(inner.bus.messages))
    {
      events := inner.Poll();
    }
  }

  // ---------- exactly once, in order ----------

  predicate Between(p: Packet, from: ParticipantId, dest: ParticipantId) {
    p.from == from && p.dest == dest
  }

  /** Two ends of one bus, which carries nothing but packets between them; only failures are pending. */
  ghost predicate Paired(x: Endpoint, y: Endpoint, bus: Bus) {
    && x.me != y.me && x.peer == y.me && y.peer == x.me
    && ReceivedIn(x.pending) == [] == ReceivedIn(y.pending)
    && forall i :: 0 <= i < |bus| ==> Between(bus[i], x.me, y.me) || Between(bus[i], y.me, x.me)
  }

  /** The messages `y`'s polls returned, followed by what waits on the bus for `y`, are what `x` sent. */
  predicate InOrder(x: Endpoint, y: Endpoint, bus: Bus) {
    Expected(x.me, x.calls) == y.got + Deliveries(bus, y.me)
  }

  /** In both directions nothing is lost, duplicated, reordered or invented. */
  ghost predicate ExactlyOnce(x: Endpoint, y: Endpoint, bus: Bus) {
    Paired(x, y, bus) && InOrder(x, y, bus) && InOrder(y, x, bus)
  }

  lemma DeliveriesAppend(bus: Bus, p: Packet, me: ParticipantId)
    ensures Deliveries(bus + [p], me)
      == Deliveries(bus, me) + (if p.dest == me then [Received(p.from, p.payload)] else [])
  {
    assert (bus + [p])[..|bus|] == bus;
  }

  /** Polling is a stable partition: what stays is untouched for the others and empty for the poller. */
  lemma {:induction false} PollPartitions(bus: Bus, me: ParticipantId, other: ParticipantId)
    ensures Deliveries(Remaining(bus, me), other) == if other == me then [] else Deliveries(bus, other)
    ensures forall i :: 0 <= i < |Remaining(bus, me)| ==>
      Remaining(bus, me)[i] in bus && Remaining(bus, me)[i].dest != me
  {
    RemainingIsOthers(bus, me);
    hide Deliveries;
    if bus == [] {
      assert Remaining(bus, me) == bus;
      NothingDelivered(me);
      NothingDelivered(other);
    } else {
      var front, p := bus[..|bus| - 1], bus[|bus| - 1];
      assert bus == front + [p];
      PollPartitions(front, me, other);
      DeliveriesAppend(front, p, other);
      DeliveriesAppend(Remaining(front, me), p, other);
      assert Remaining(front, me) + [] == Remaining(front, me);
      assert Deliveries(front, other) + [] == Deliveries(front, other);
    }
  }

  lemma NothingDelivered(me: ParticipantId)
    ensures Deliveries([], me) == []
  {
  }

  lemma {:induction false} RemainingIsOthers(bus: Bus, me: ParticipantId)
    ensures forall i :: 0 <= i < |Remaining(bus, me)| ==>
      Remaining(bus, me)[i] in bus && Remaining(bus, me)[i].dest != me
  {
    if bus == [] {
    } else {
      RemainingIsOthers(bus[..|bus| - 1], me);
    }
  }

  lemma {:induction false} ReceivedInAppend(a: seq<TransportEvent>, b: seq<TransportEvent>)
    ensures ReceivedIn(a + b) == ReceivedIn(a) + ReceivedIn(b)
  {
    if b == [] {
      assert a + b == a;
    } else {
      ReceivedInAppend(a, b[..|b| - 1]);
      assert (a + b)[..|a + b| - 1] == a + b[..|b| - 1];
    }
  }

  lemma {:induction false} DeliveriesAreReceived(bus: Bus, me: ParticipantId)
    ensures ReceivedIn(Deliveries(bus, me)) == Deliveries(bus, me)
  {
    if bus == [] {
    } else {
      var front := Deliveries(bus[..|bus| - 1], me);
      DeliveriesAreReceived(bus[..|bus| - 1], me);
      assert front + [] == front;
      ReceivedInAppend(front, Deliveries(bus, me)[|front|..]);
    }
  }

  lemma SendKeepsOrder(x: Endpoint, y: Endpoint, bus: Bus, call: SendCall)
    requires ExactlyOnce(x, y, bus)
    ensures var (x', bus') := EndpointSend(x, bus, call); ExactlyOnce(x', y, bus')
  {
    hide Deliveries, IsControl;
    if x.registered {
      var p := Packet(x.peer, x.me, call.payload);
      DeliveriesAppend(bus, p, x.me);
      DeliveriesAppend(bus, p, y.me);
      assert Expected(x.me, x.calls + [call]) == Expected(x.me, x.calls) + [Received(x.me, call.payload)];
      assert Deliveries(bus, x.me) + [] == Deliveries(bus, x.me);
      assert (x.pending + [Failure(x.peer)])[..|x.pending|] == x.pending;
    }
  }

  lemma PollKeepsOrder(x: Endpoint, y: Endpoint, bus: Bus)
    requires ExactlyOnce(x, y, bus)
    ensures var (x', bus', _) := EndpointPoll(x, bus); ExactlyOnce(x', y, bus')
  {
    hide Remaining, Deliveries;
    if x.registered {
      PollPartitions(bus, x.me, x.me);
      PollPartitions(bus, x.me, y.me);
      ReceivedInAppend(x.pending, Deliveries(bus, x.me));
      DeliveriesAreReceived(bus, x.me);
    }
  }

  /** A poll of a registered end returns its failures first and then what the bus held, and leaves none of
    either; one of an unregistered end returns nothing and takes nothing. */
  lemma PollReturns(e: Endpoint, bus: Bus)
    requires ReceivedIn(e.pending) == []
    ensures var (e', bus', events) := EndpointPoll(e, bus);
      if !e.registered then e' == e && bus' == bus && events == []
      else
        && events == e.pending + ReceivedIn(events) && ReceivedIn(events) == Deliveries(bus, e.me)
        && e'.pending == [] && Deliveries(bus', e.me) == []
  {
    hide Deliveries, Remaining, ReceivedIn;
    DeliveriesAreReceived(bus, e.me);
    ReceivedInAppend(e.pending, Deliveries(bus, e.me));
    PollPartitions(bus, e.me, e.me);
  }

  /** What counts as control traffic: an encoded join or leave that is not too large. Audio, poses, chats and
    signaling never do. */
  lemma ControlIsRecognised(floats: Floats, size: Value -> nat, m: SyncMessage, frame: seq<bv8>)
    requires IntoEnvelope(floats, m).Ok?
    ensures var bytes := ToBytes(size, IntoEnvelope(floats, m).value);
      IsControl(Encoded(bytes)) <==> m.Control? && bytes.size <= 65_536
    ensures !IsControl(AudioFrame(frame))
  {
    var e := IntoEnvelope(floats, m).value;
    EncodesExactly(floats, m);
    SliceReads(ToBytes(size, e), e);
    ReadsItself(EnvelopeValue(e).fields);
    hide FromSlice, IntoEnvelope, Encodable, Reads;
  }
}
