/** The syncer: requests in, events out, over one transport. Every request is handled as drain, act,
  drain: take in what arrived, do what was asked, take in what arrived meanwhile.
*/
module BasicSyncers {
  import opened Wrappers
  import opened Ids
  import opened Streams
  import opened Messages
  import opened SyncerTypes
  import opened ParticipantTables
  import opened TransportInboxes
  import opened WebrtcTransports
  import Limiter = FixedLimiter

  datatype Peer = Peer(me: ParticipantId, link: Link, table: Table, inbox: Inbox, room: Option<RoomId>,
                       sessions: Limiter.Sessions)

  function NewPeer(me: ParticipantId, inner: Endpoint): Peer {
    Peer(me, NewLink(me, inner), EMPTY, Inbox([], {}), None, map[])
  }

  // ---------- routing ----------

  datatype Outbound = Outbound(from: ParticipantId, dest: ParticipantId, kind: StreamKind, payload: SyncMessage)

  /** One copy for every participant but the sender, in join order. */
  function Route(from: ParticipantId, order: seq<ParticipantId>, kind: StreamKind, payload: SyncMessage)
    : seq<Outbound>
  {
    var others := Without(order, from);
    seq(|others|, i requires 0 <= i < |others| => Outbound(from, others[i], kind, payload))
  }

  function IntoTransportPayload(env: Env, m: SyncMessage): Option<TransportPayload> {
    match IntoEnvelope(env.floats, m)
    case Ok(e) => Some(Encoded(ToBytes(env.size, e)))
    case Err(_) => None
  }

  /** The sends a batch of outbound messages turns into; what cannot be encoded is skipped. */
  function Calls(env: Env, outs: seq<Outbound>): seq<SendCall> {
    if outs == [] then []
    else
      var o := outs[|outs| - 1];
      var payload := IntoTransportPayload(env, o.payload);
      Calls(env, outs[..|outs| - 1])
        + (if payload.Some? then [SendCall(o.dest, payload.value, ForStream(o.kind))] else [])
  }

  function VoiceCalls(others: seq<ParticipantId>, frame: seq<bv8>): seq<SendCall> {
    seq(|others|, i requires 0 <= i < |others| => SendCall(others[i], AudioFrame(frame), ForStream(Voice)))
  }

  function RequestKind(req: SyncerRequest): StreamKind {
    match req
    case Join(_, _) => ControlJoin
    case SendPose(_, _) => StreamKind.Pose
    case SendChat(_, _) => StreamKind.Chat
    case SendVoiceFrame(_, _) => Voice
  }

  function Sender(req: SyncerRequest): ParticipantId {
    match req
    case Join(_, p) => p
    case SendPose(from, _) => from
    case SendChat(_, ctx) => ctx.participant
    case SendVoiceFrame(_, ctx) => ctx.participant
  }

  function Outgoing(env: Env, order: seq<ParticipantId>, req: SyncerRequest): seq<SendCall> {
    match req
    case Join(_, _) => []
    case SendPose(from, pose) => Calls(env, Route(from, order, StreamKind.Pose, SyncMessage.Pose(pose)))
    case SendChat(chat, ctx) => Calls(env, Route(ctx.participant, order, StreamKind.Chat, SyncMessage.Chat(chat)))
    case SendVoiceFrame(frame, ctx) => VoiceCalls(Without(order, ctx.participant), frame)
  }

  function JoinPayload(env: Env, p: ParticipantId): TransportPayload {
    Encoded(ToBytes(env.size, Envelope(1, ControlJoin,
      ControlValue(ControlMessage.Join(ControlPayload(env.ids.ShowParticipant(p), None, None))))))
  }

  function SendAll(l: Link, bus: Bus, calls: seq<SendCall>): (Link, Bus) {
    if calls == [] then (l, bus)
    else
      var (l', bus') := SendAll(l, bus, calls[..|calls| - 1]);
      LinkSend(l', bus', calls[|calls| - 1])
  }

  // ---------- handling ----------

  function PeerDrain(env: Env, s: Peer, bus: Bus): (Peer, Bus, seq<SyncerEvent>) {
    if s.room.None? then (s, bus, [])
    else
      var (link, bus', events) := LinkPoll(s.link, bus);
      var d := DrainAll(env, s.room.value, s.table, s.inbox.failureEmitted, s.inbox.events + events);
      (s.(link := link, table := d.table, inbox := Inbox([], d.failureEmitted)), bus', d.out)
  }

  function PeerJoin(env: Env, s: Peer, bus: Bus, room: RoomId, p: ParticipantId): (Peer, Bus, seq<SyncerEvent>) {
    var (link, bus') := LinkSend(LinkRegister(s.link), bus,
                                 SendCall(s.me, JoinPayload(env, p), ForStream(ControlJoin)));
    var (table, events) := JoinStep(s.table, p);
    (s.(room := Some(room), link := link, table := table), bus', events + [SelfJoined(room, p)])
  }

  /** The verdict on one more request of this syncer, whose session is named after its participant. */
  function Admit(env: Env, cfg: Limiter.Config, s: Peer, kind: StreamKind, now: int): (Peer, bool) {
    var (sessions, decision) := Limiter.CheckAndRecord(cfg, s.sessions, env.ids.ShowParticipant(s.me), kind, now);
    (s.(sessions := sessions), decision.Allowed?)
  }

  function PeerAct(env: Env, cfg: Limiter.Config, s: Peer, bus: Bus, req: SyncerRequest, now: int)
    : (Peer, Bus, seq<SyncerEvent>)
  {
    if req.Join? then PeerJoin(env, s, bus, req.room, req.participant)
    else
      var (s1, ok) := Admit(env, cfg, s, RequestKind(req), now);
      if !ok then (s1, bus, [Limited(RequestKind(req))])
      else if Sender(req) !in s1.table.sessions then (s1, bus, [])
      else
        var (link, bus') := SendAll(s1.link, bus, Outgoing(env, s1.table.order, req));
        (s1.(link := link), bus', [])
  }

  function PeerRequest(env: Env, cfg: Limiter.Config, s: Peer, bus: Bus, req: SyncerRequest, now: int)
    : (Peer, Bus, seq<SyncerEvent>)
  {
    var (s1, bus1, events1) := PeerAct(env, cfg, s, bus, req, now);
    var (s2, bus2, events2) := PeerDrain(env, s1, bus1);
    (s2, bus2, events1 + events2)
  }

  function PeerHandle(env: Env, cfg: Limiter.Config, s: Peer, bus: Bus, req: SyncerRequest, now: int)
    : (Peer, Bus, seq<SyncerEvent>)
  {
    var (s1, bus1, events1) := PeerDrain(env, s, bus);
    var (s2, bus2, events2) := PeerRequest(env, cfg, s1, bus1, req, now);
    (s2, bus2, events1 + events2)
  }

  function Rebind(s: Peer, inner: Endpoint): Peer {
    s.(link := NewLink(s.me, inner), inbox := Inbox([], {}))
  }

  class BasicSyncer {
    const env: Env
    const me: ParticipantId
    const participants: ParticipantTable
    const limiter: Limiter.RateLimiter
    var transport: FilteringTransport
    var inbox: TransportInbox
    var room: Option<RoomId>

    ghost function State(): Peer
      reads this, transport, transport.inner, participants, inbox, limiter
    {
      Peer(me, transport.Contents(), participants.Contents(), inbox.Contents(), room, limiter.sessions)
    }

    ghost function Wire(): Bus
      reads this, transport, transport.inner.bus
    {
      transport.inner.bus.messages
    }

    /** The filter always registers the syncer's own participant. */
    ghost predicate Valid()
      reads this, transport
    {
      transport.me == me
    }

    constructor (env: Env, me: ParticipantId, inner: WebrtcTransport, limiter: Limiter.RateLimiter)
      requires limiter.sessions == map[]
      ensures this.env == env && this.me == me && this.limiter == limiter && transport.inner == inner && Valid()
      ensures State() == NewPeer(me, inner.Contents())
      ensures fresh(transport) && fresh(participants) && fresh(inbox)
    {
      this.env, this.me, this.limiter := env, me, limiter;
      transport := new FilteringTransport(me, inner);
      participants := new ParticipantTable();
      inbox := new TransportInbox();
      room := None;
    }

    method RebindTransport(inner: WebrtcTransport)
      requires Valid()
      modifies this`transport, this`inbox
      ensures Valid() && State() == Rebind(old(State()), inner.Contents())
      ensures transport.inner == inner && fresh(transport) && fresh(inbox)
    {
      transport := new FilteringTransport(me, inner);
      inbox := new TransportInbox();
    }

    method PushTransportEvent(ev: TransportEvent)
      modifies inbox
      ensures State() == old(State()).(inbox := Inbox(old(inbox.events) + [ev], old(inbox.failureEmitted)))
    {
      inbox.Push(ev);
    }

    method DrainTransportEvents() returns (events: seq<SyncerEvent>)
      modifies transport.inner, transport.inner.bus, participants, inbox
      ensures (State(), Wire(), events) == PeerDrain(env, old(State()), old(Wire()))
    {
      hide LinkPoll, DrainAll;
      events := [];
      if room.Some? {
        var received := transport.Poll();
        var queued := inbox.events;
        for i := 0 to |received|
          invariant inbox.events == queued + received[..i] && inbox.failureEmitted == old(inbox.failureEmitted)
          invariant transport.Contents() == LinkPoll(old(transport.Contents()), old(Wire())).0
          invariant Wire() == LinkPoll(old(transport.Contents()), old(Wire())).1
          invariant participants.Contents() == old(participants.Contents())
        {
          inbox.Push(received[i]);
        }
        assert received[..|received|] == received;
        events := inbox.DrainIntoEvents(env, room.value, participants);
      }
    }

    method Handle(req: SyncerRequest, now: int) returns (events: seq<SyncerEvent>)
      requires Valid()
      modifies this`room, transport, transport.inner, transport.inner.bus, participants, inbox, limiter
      ensures Valid()
      ensures (State(), Wire(), events) == PeerHandle(env, limiter.cfg, old(State()), old(Wire()), req, now)
    {
      var inbound := DrainTransportEvents();
      var produced := HandleRequest(req, now);
      events := inbound + produced;
    }

    method PollOnly() returns (events: seq<SyncerEvent>)
      modifies transport.inner, transport.inner.bus, participants, inbox
      ensures (State(), Wire(), events) == PeerDrain(env, old(State()), old(Wire()))
    {
      events := DrainTransportEvents();
    }

    method HandleRequest(req: SyncerRequest, now: int) returns (events: seq<SyncerEvent>)
      requires Valid()
      modifies this`room, transport, transport.inner, transport.inner.bus, participants, inbox, limiter
      ensures Valid()
      ensures (State(), Wire(), events)
           == PeerRequest(env, limiter.cfg, old(State()), old(Wire()), req, now)
    {
      if req.Join? {
        events := ActJoin(req.room, req.participant);
      } else {
        events := ActSend(req, now);
      }
      assert (State(), Wire(), events) == PeerAct(env, limiter.cfg, old(State()), old(Wire()), req, now);
      var more := DrainTransportEvents();
      events := events + more;
    }

    method ActJoin(roomId: RoomId, p: ParticipantId) returns (events: seq<SyncerEvent>)
      requires Valid()
      modifies this`room, transport, transport.inner, transport.inner.bus, participants
      ensures Valid()
      ensures (State(), Wire(), events) == PeerJoin(env, old(State()), old(Wire()), roomId, p)
    {
      room := Some(roomId);
      transport.Register();
      transport.Send(me, JoinPayload(env, p), ForStream(ControlJoin));
      events := participants.ApplyJoin(p);
      events := events + [SelfJoined(roomId, p)];
    }

    method ActSend(req: SyncerRequest, now: int) returns (events: seq<SyncerEvent>)
      requires Valid() && !req.Join?
      modifies transport.inner, transport.inner.bus, limiter
      ensures Valid()
      ensures (State(), Wire(), events) == PeerAct(env, limiter.cfg, old(State()), old(Wire()), req, now)
    {
      events := [];
      var decision := limiter.Check(env.ids.ShowParticipant(me), RequestKind(req), now);
      if decision.RateLimited? {
        return [Limited(decision.kind)];
      }
      if !participants.IsRegistered(Sender(req)) {
        return;
      }
      var order := participants.Participants();
      match req
      case SendPose(from, pose) =>
        SendOutbounds(Route(from, order, StreamKind.Pose, SyncMessage.Pose(pose)));
      case SendChat(chat, ctx) =>
        SendOutbounds(Route(ctx.participant, order, StreamKind.Chat, SyncMessage.Chat(chat)));
      case SendVoiceFrame(frame, ctx) =>
        SendFrames(Without(order, ctx.participant), frame);
    }

    method SendOutbounds(outs: seq<Outbound>)
      modifies transport.inner, transport.inner.bus
      ensures (transport.Contents(), Wire()) == SendAll(old(transport.Contents()), old(Wire()), Calls(env, outs))
    {
      for i := 0 to |outs|
        invariant (transport.Contents(), Wire())
          == SendAll(old(transport.Contents()), old(Wire()), Calls(env, outs[..i]))
      {
        assert outs[..i + 1][..i] == outs[..i];
        var payload := IntoTransportPayload(env, outs[i].payload);
        if payload.Some? {
          SendAllAppend(old(transport.Contents()), old(Wire()), Calls(env, outs[..i]),
                        SendCall(outs[i].dest, payload.value, ForStream(outs[i].kind)));
          transport.Send(outs[i].dest, payload.value, ForStream(outs[i].kind));
        } else {
          assert Calls(env, outs[..i]) + [] == Calls(env, outs[..i]);
        }
      }
      assert outs[..|outs|] == outs;
    }

    method SendFrames(others: seq<ParticipantId>, frame: seq<bv8>)
      modifies transport.inner, transport.inner.bus
      ensures (transport.Contents(), Wire())
        == SendAll(old(transport.Contents()), old(Wire()), VoiceCalls(others, frame))
    {
      ghost var calls := VoiceCalls(others, frame);
      for i := 0 to |others|
        invariant (transport.Contents(), Wire()) == SendAll(old(transport.Contents()), old(Wire()), calls[..i])
      {
        assert calls[..i + 1] == calls[..i] + [calls[i]];
        SendAllAppend(old(transport.Contents()), old(Wire()), calls[..i], calls[i]);
        transport.Send(others[i], AudioFrame(frame), ForStream(Voice));
      }
      assert calls[..|others|] == calls;
    }
  }

  lemma SendAllAppend(l: Link, bus: Bus, calls: seq<SendCall>, call: SendCall)
    ensures var (l', bus') := SendAll(l, bus, calls);
      SendAll(l, bus, calls + [call]) == LinkSend(l', bus', call)
  {
    assert (calls + [call])[..|calls|] == calls;
  }
}
