/** Two syncers over one bus: every interleaving of their requests and polls. */
module TwoPeers {
  import opened Wrappers
  import opened Histories
  import opened Ids
  import opened Streams
  import opened Messages
  import opened SyncerTypes
  import opened ParticipantTables
  import opened TransportInboxes
  import opened WebrtcTransports
  import opened BasicSyncers
  import opened SyncerRuns
  import Limiter = FixedLimiter

  datatype System = System(a: Peer, b: Peer, bus: Bus)

  datatype Turn = Handle(first: bool, req: SyncerRequest, now: int) | PollOnly(first: bool)

  /** The pair the transport's constructor makes, each end under its own syncer. */
  function Init(a: ParticipantId, b: ParticipantId, failA: bool, failB: bool): System {
    System(NewPeer(a, NewEndpoint(a, b, failA)), NewPeer(b, NewEndpoint(b, a, failB)), [])
  }

  function OnPeer(env: Env, cfg: Limiter.Config, p: Peer, bus: Bus, t: Turn): (Peer, Bus, seq<SyncerEvent>) {
    match t
    case Handle(_, req, now) => PeerHandle(env, cfg, p, bus, req, now)
    case PollOnly(_) => PeerDrain(env, p, bus)
  }

  /** The two rate limits. */
  datatype Limits = Limits(a: Limiter.Config, b: Limiter.Config)

  function Next(env: Env, limits: Limits, s: System, t: Turn): System {
    if t.first then
      var (a, bus, _) := OnPeer(env, limits.a, s.a, s.bus, t);
      System(a, s.b, bus)
    else
      var (b, bus, _) := OnPeer(env, limits.b, s.b, s.bus, t);
      System(s.a, b, bus)
  }

  function Play(env: Env, limits: Limits, s: System, turns: History<Turn>): System {
    match turns
    case Start => s
    case Then(before, t) => Next(env, limits, Play(env, limits, s, before), t)
  }

  /** Everything one of the two returned to its application, in order. */
  function Told(env: Env, limits: Limits, start: System, turns: History<Turn>, first: bool): seq<SyncerEvent> {
    match turns
    case Start => []
    case Then(before, t) =>
      var told, s := Told(env, limits, start, before, first), Play(env, limits, start, before);
      if t.first != first then told
      else told + (if first then OnPeer(env, limits.a, s.a, s.bus, t) else OnPeer(env, limits.b, s.b, s.bus, t)).2
  }

  /** Two syncers that share nothing but the bus. */
  ghost predicate Apart(x: BasicSyncer, y: BasicSyncer)
    reads x, y, x.transport, y.transport
  {
    && x.Valid() && y.Valid()
    && x != y && x.transport != y.transport && x.transport.inner != y.transport.inner
    && x.participants != y.participants && x.inbox != y.inbox && x.limiter != y.limiter
    && x.transport.inner.bus == y.transport.inner.bus
  }

  /** The turn of syncer `x`: the other one sees of it only what happens to the bus. */
  method TakeTurn(x: BasicSyncer, y: BasicSyncer, t: Turn) returns (events: seq<SyncerEvent>)
    requires Apart(x, y)
    modifies x`room, x.transport, x.transport.inner, x.transport.inner.bus, x.participants, x.inbox, x.limiter
    ensures Apart(x, y) && x.Wire() == y.Wire()
    ensures (x.State(), x.Wire(), events) == OnPeer(x.env, x.limiter.cfg, old(x.State()), old(x.Wire()), t)
    ensures y.State() == old(y.State())
  {
    hide PeerHandle, PeerDrain;
    match t
    case Handle(_, req, now) => events := x.Handle(req, now);
    case PollOnly(_) => events := x.PollOnly();
  }

  // ---------- exactly-once delivery ----------

  lemma DrainKeepsOrder(env: Env, p: Peer, y: Endpoint, bus: Bus)
    requires ExactlyOnce(p.link.inner, y, bus)
    ensures var (p', bus', _) := PeerDrain(env, p, bus); ExactlyOnce(p'.link.inner, y, bus')
  {
    hide ExactlyOnce, DrainAll;
    if p.room.Some? {
      PollKeepsOrder(p.link.inner, y, bus);
    }
  }

  lemma LinkSendKeepsOrder(l: Link, y: Endpoint, bus: Bus, call: SendCall)
    requires ExactlyOnce(l.inner, y, bus)
    ensures var (l', bus') := LinkSend(l, bus, call); ExactlyOnce(l'.inner, y, bus')
  {
    hide ExactlyOnce, EndpointSend;
    SendKeepsOrder(l.inner, y, bus, call);
  }

  lemma {:induction false} SendAllKeepsOrder(l: Link, y: Endpoint, bus: Bus, calls: seq<SendCall>)
    requires ExactlyOnce(l.inner, y, bus)
    ensures var (l', bus') := SendAll(l, bus, calls); ExactlyOnce(l'.inner, y, bus')
  {
    hide ExactlyOnce, LinkSend;
    if calls == [] {
    } else {
      var n := |calls| - 1;
      SendAllKeepsOrder(l, y, bus, calls[..n]);
      LinkSendKeepsOrder(SendAll(l, bus, calls[..n]).0, y, SendAll(l, bus, calls[..n]).1, calls[n]);
    }
  }

  lemma RegisterKeepsOrder(l: Link, y: Endpoint, bus: Bus)
    requires ExactlyOnce(l.inner, y, bus)
    ensures ExactlyOnce(LinkRegister(l).inner, y, bus)
  {
  }

  lemma ActKeepsOrder(env: Env, cfg: Limiter.Config, p: Peer, y: Endpoint, bus: Bus, req: SyncerRequest, now: int)
    requires ExactlyOnce(p.link.inner, y, bus)
    ensures var (p', bus', _) := PeerAct(env, cfg, p, bus, req, now); ExactlyOnce(p'.link.inner, y, bus')
  {
    hide ExactlyOnce, LinkSend, LinkRegister, SendAll, Outgoing, JoinStep, JoinPayload;
    if req.Join? {
      RegisterKeepsOrder(p.link, y, bus);
      LinkSendKeepsOrder(LinkRegister(p.link), y, bus,
                         SendCall(p.me, JoinPayload(env, req.participant), ForStream(ControlJoin)));
    } else {
      var p1 := Admit(env, cfg, p, RequestKind(req), now).0;
      SendAllKeepsOrder(p1.link, y, bus, Outgoing(env, p1.table.order, req));
    }
  }

  lemma TurnKeepsOrder(env: Env, cfg: Limiter.Config, p: Peer, y: Endpoint, bus: Bus, t: Turn)
    requires ExactlyOnce(p.link.inner, y, bus)
    ensures var (p', bus', _) := OnPeer(env, cfg, p, bus, t); ExactlyOnce(p'.link.inner, y, bus')
  {
    hide ExactlyOnce, PeerDrain, PeerAct;
    DrainKeepsOrder(env, p, y, bus);
    if t.Handle? {
      var (p1, bus1, _) := PeerDrain(env, p, bus);
      var (p2, bus2, _) := PeerAct(env, cfg, p1, bus1, t.req, t.now);
      ActKeepsOrder(env, cfg, p1, y, bus1, t.req, t.now);
      DrainKeepsOrder(env, p2, y, bus2);
    }
  }

  lemma OrderIsSymmetric(x: Endpoint, y: Endpoint, bus: Bus)
    requires ExactlyOnce(x, y, bus)
    ensures ExactlyOnce(y, x, bus)
  {
  }

  /** A pair of ends that have neither sent nor received, over an empty bus. */
  predicate NewPair(s: System) {
    var x, y := s.a.link.inner, s.b.link.inner;
    && x.me != y.me && x == NewEndpoint(x.me, y.me, x.injectFailureOnce)
      && y == NewEndpoint(y.me, x.me, y.injectFailureOnce)
    && s.bus == [] && s.a.inbox.events == [] && s.b.inbox.events == []
  }

  /** Both syncers are given the ends of a new pair. */
  function Reconnected(s: System, failA: bool, failB: bool): System {
    System(Rebind(s.a, NewEndpoint(s.a.me, s.b.me, failA)), Rebind(s.b, NewEndpoint(s.b.me, s.a.me, failB)), [])
  }

  /** Where the delivery theorems start: at the beginning, and after any reconnect. */
  lemma NewPairs(a: ParticipantId, b: ParticipantId, failA: bool, failB: bool, s: System)
    ensures a != b ==> NewPair(Init(a, b, failA, failB))
    ensures s.a.me != s.b.me ==> NewPair(Reconnected(s, failA, failB))
  {
  }

  /** From a new pair on, in every interleaving, failure injection included, and in both directions: what
    one syncer has taken from its transport, followed by what still waits on the bus for it, is in order
    exactly what the other syncer's transport accepted for sending. */
  lemma {:induction false} DeliveryIsExactlyOnce(env: Env, limits: Limits, start: System, turns: History<Turn>)
    requires NewPair(start)
    ensures var s := Play(env, limits, start, turns);
      var a, b := start.a.link.inner.me, start.b.link.inner.me;
      && ExactlyOnce(s.a.link.inner, s.b.link.inner, s.bus)
      && s.a.link.inner.me == a && s.b.link.inner.me == b
      && Expected(a, s.a.link.inner.calls) == s.b.link.inner.got + Deliveries(s.bus, b)
      && Expected(b, s.b.link.inner.calls) == s.a.link.inner.got + Deliveries(s.bus, a)
  {
    if turns.Start? {
    } else {
      hide OnPeer;
      DeliveryIsExactlyOnce(env, limits, start, turns.past);
      var s := Play(env, limits, start, turns.past);
      if turns.last.first {
        TurnKeepsOrder(env, limits.a, s.a, s.b.link.inner, s.bus, turns.last);
      } else {
        var s' := Next(env, limits, s, turns.last);
        OrderIsSymmetric(s.a.link.inner, s.b.link.inner, s.bus);
        TurnKeepsOrder(env, limits.b, s.b, s.a.link.inner, s.bus, turns.last);
        OrderIsSymmetric(s'.b.link.inner, s.a.link.inner, s'.bus);
      }
    }
  }

  // ---------- end to end ----------

  lemma TurnHeeds(env: Env, cfg: Limiter.Config, p: Peer, bus: Bus, t: Turn, told: seq<SyncerEvent>)
    requires Heeds(env, p, told)
    ensures var (p', _, events) := OnPeer(env, cfg, p, bus, t); Heeds(env, p', told + events)
  {
    hide Heeds;
    match t
    case Handle(_, req, now) => HandleHeeds(env, cfg, p, bus, req, now, told);
    case PollOnly(_) => DrainHeeds(env, p, bus, told);
  }

  lemma {:induction false} BothHeed(env: Env, limits: Limits, start: System, turns: History<Turn>)
    requires NewPair(start)
    ensures var s := Play(env, limits, start, turns);
      && Heeds(env, s.a, Told(env, limits, start, turns, true))
      && Heeds(env, s.b, Told(env, limits, start, turns, false))
  {
    if turns.Start? {
    } else {
      hide OnPeer, Heeds;
      BothHeed(env, limits, start, turns.past);
      var s := Play(env, limits, start, turns.past);
      TurnHeeds(env, limits.a, s.a, s.bus, turns.last, Told(env, limits, start, turns.past, true));
      TurnHeeds(env, limits.b, s.b, s.bus, turns.last, Told(env, limits, start, turns.past, false));
    }
  }

  /** End to end, from a new pair on, in every interleaving and with failures injected: the poses, chats and
    voice frames one application was told, followed by those still on the bus for it, are in order exactly
    those in what the other syncer sent. */
  lemma ApplicationsHearEachOther(env: Env, limits: Limits, start: System, turns: History<Turn>)
    requires NewPair(start)
    ensures var s := Play(env, limits, start, turns);
      var x, y := s.a.link.inner, s.b.link.inner;
      var a, b := start.a.link.inner.me, start.b.link.inner.me;
      && ContentOfAll(env, Expected(a, x.calls))
         == ContentIn(Told(env, limits, start, turns, false)) + ContentOfAll(env, Deliveries(s.bus, b))
      && ContentOfAll(env, Expected(b, y.calls))
         == ContentIn(Told(env, limits, start, turns, true)) + ContentOfAll(env, Deliveries(s.bus, a))
  {
    hide Play, Told, ExactlyOnce, Deliveries, ContentOfAll, ContentIn;
    var s := Play(env, limits, start, turns);
    DeliveryIsExactlyOnce(env, limits, start, turns);
    BothHeed(env, limits, start, turns);
    ContentOfAllAppend(env, s.b.link.inner.got, Deliveries(s.bus, start.b.link.inner.me));
    ContentOfAllAppend(env, s.a.link.inner.got, Deliveries(s.bus, start.a.link.inner.me));
  }

  // ---------- agreement ----------

  /** A payload that changes no participant table unless it announces its sender. */
  predicate Harmless(env: Env, payload: TransportPayload, from: ParticipantId) {
    payload == JoinPayload(env, from) || payload.AudioFrame? ||
    !(ParseSyncMessage(env.floats, payload.bytes).Ok? && ParseSyncMessage(env.floats, payload.bytes).value.Control?)
  }

  function AnnouncePacket(env: Env, from: ParticipantId, dest: ParticipantId): Packet {
    Packet(dest, from, JoinPayload(env, from))
  }

  ghost predicate BusOk(env: Env, p: ParticipantId, q: ParticipantId, bus: Bus) {
    forall m :: m in bus ==> (Between(m, p, q) || Between(m, q, p)) && Harmless(env, m.payload, m.from)
  }

  /** The ends of `p` are wired to its own id, nothing is pending, and the transport is registered through and
    through, or not at all. It is from a join until the next reconnect. */
  predicate EndOk(p: Peer, q: ParticipantId) {
    && p.link.me == p.link.inner.me == p.me && p.link.inner.peer == q
    && p.link.inner.pending == [] && !p.link.inner.injectFailureOnce
    && p.inbox.events == []
    && p.link.registered == p.link.inner.registered && (p.link.registered ==> p.room.Some?)
  }

  /** `p` knows nobody but itself and `q`; once registered it knows itself, and `q` knows it or is about to. */
  ghost predicate Known(env: Env, p: Peer, q: Peer, bus: Bus) {
    && (forall x :: x in p.table.sessions ==> x == p.me || x == q.me)
    && (p.link.registered ==> p.me in p.table.sessions)
    && (p.link.registered ==> p.me in q.table.sessions || AnnouncePacket(env, p.me, q.me) in bus)
  }

  ghost predicate Agreement(env: Env, p: Peer, q: Peer, bus: Bus) {
    && p.me != q.me && EndOk(p, q.me) && EndOk(q, p.me)
    && BusOk(env, p.me, q.me, bus)
    && Known(env, p, q, bus) && Known(env, q, p, bus)
  }

  lemma {:induction false} DeliveriesRegister(env: Env, room: RoomId, t: Table, emitted: set<ParticipantId>,
                                             bus: Bus, p: ParticipantId, q: ParticipantId)
    requires Sane(env) && p != q && BusOk(env, p, q, bus)
    ensures var d := DrainAll(env, room, t, emitted, Deliveries(bus, p));
      forall x :: x in d.table.sessions <==> x in t.sessions || (x == q && AnnouncePacket(env, q, p) in bus)
  {
    hide OnReceived, JoinPayload;
    if bus == [] {
    } else {
      var front, m := bus[..|bus| - 1], bus[|bus| - 1];
      assert bus == front + [m];
      assert m in bus && forall k :: k in front ==> k in bus;
      DeliveriesRegister(env, room, t, emitted, front, p, q);
      var d := DrainAll(env, room, t, emitted, Deliveries(front, p));
      if m.dest == p {
        var evs := Deliveries(front, p);
        assert (evs + [Received(m.from, m.payload)])[..|evs|] == evs;
        if m.payload == JoinPayload(env, q) {
          AnnouncementJoins(env, room, d.table, q, q);
        } else {
          HarmlessKeepsTable(env, room, d.table, m.from, m.payload);
        }
      } else {
        assert Deliveries(front, p) + [] == Deliveries(front, p);
      }
    }
  }

  lemma HarmlessKeepsTable(env: Env, room: RoomId, t: Table, from: ParticipantId, payload: TransportPayload)
    requires Harmless(env, payload, from) && payload != JoinPayload(env, from)
    ensures OnReceived(env, room, t, from, payload).0 == t
  {
    hide ParseSyncMessage, JoinPayload;
  }

  /** Members of the remaining bus: exactly what is not addressed to the poller. */
  lemma {:induction false} RemainingMembers(bus: Bus, me: ParticipantId)
    ensures forall m :: m in Remaining(bus, me) <==> m in bus && m.dest != me
  {
    if bus == [] {
    } else {
      var front := bus[..|bus| - 1];
      assert bus == front + [bus[|bus| - 1]];
      RemainingMembers(front, me);
    }
  }

  lemma NothingDrained(env: Env, room: RoomId, t: Table, failureEmitted: set<ParticipantId>)
    ensures DrainAll(env, room, t, failureEmitted, []) == Drained(t, failureEmitted, [])
  {
  }

  lemma DrainKeepsAgreement(env: Env, p: Peer, q: Peer, bus: Bus)
    requires Sane(env) && Agreement(env, p, q, bus)
    ensures var (p', bus', _) := PeerDrain(env, p, bus); Agreement(env, p', q, bus')
    ensures p.link.registered ==> forall m :: m in PeerDrain(env, p, bus).1 ==> m in bus && m.dest != p.me
    ensures var p' := PeerDrain(env, p, bus).0;
      p'.room == p.room && p'.me == p.me && p'.link.registered == p.link.registered
  {
    hide DrainAll, Deliveries, Remaining, JoinPayload, Harmless, ReceivedIn, ParseSyncMessage;
    if p.room.Some? && !p.link.registered {
      NothingDrained(env, p.room.value, p.table, p.inbox.failureEmitted);
      assert p.inbox.events + [] == [];
    } else if p.room.Some? {
      assert p.inbox.events + (p.link.inner.pending + Deliveries(bus, p.me)) == Deliveries(bus, p.me);
      DeliveriesRegister(env, p.room.value, p.table, p.inbox.failureEmitted, bus, p.me, q.me);
      RemainingMembers(bus, p.me);
    }
  }

  /** Nothing a pose, chat or voice request sends is ever read as a control message. */
  lemma RequestsAreHarmless(env: Env, req: SyncerRequest, from: ParticipantId)
    requires !req.Join? && RequestPayload(env, req).Some?
    ensures Harmless(env, RequestPayload(env, req).value, from)
  {
    hide ParseSyncMessage, ValidateChat;
    if req.SendPose? {
      EnvelopeKindIsFamily(env.floats, env.size, FromPose(env.floats, req.pose).value);
    } else if req.SendChat? {
      EnvelopeKindIsFamily(env.floats, env.size, FromChat(req.chat).value);
    }
  }

  lemma SendKeepsAgreement(env: Env, p: Peer, q: Peer, bus: Bus, call: SendCall)
    requires Agreement(env, p, q, bus) && Harmless(env, call.payload, p.me)
    ensures var (link, bus') := LinkSend(p.link, bus, call);
      Agreement(env, p.(link := link), q, bus')
  {
    hide Harmless, JoinPayload;
  }

  lemma {:induction false} SendAllKeepsAgreement(env: Env, p: Peer, q: Peer, bus: Bus, calls: seq<SendCall>)
    requires Agreement(env, p, q, bus)
    requires forall i :: 0 <= i < |calls| ==> Harmless(env, calls[i].payload, p.me)
    ensures var (link, bus') := SendAll(p.link, bus, calls);
      Agreement(env, p.(link := link), q, bus')
  {
    hide Agreement, Harmless, LinkSend;
    if calls != [] {
      var n := |calls| - 1;
      SendAllKeepsAgreement(env, p, q, bus, calls[..n]);
      var (link, bus1) := SendAll(p.link, bus, calls[..n]);
      SendKeepsAgreement(env, p.(link := link), q, bus1, calls[n]);
    } else {
      assert p.(link := p.link) == p;
    }
  }

  lemma JoinKeepsPeersAgreed(env: Env, p: Peer, q: Peer, bus: Bus, room: RoomId)
    requires Agreement(env, p, q, bus)
    ensures var (p', bus', _) := PeerJoin(env, p, bus, room, p.me); Agreement(env, p', q, bus')
  {
    hide JoinPayload, ParseSyncMessage;
  }

  lemma ActKeepsAgreement(env: Env, cfg: Limiter.Config, p: Peer, q: Peer, bus: Bus, req: SyncerRequest, now: int)
    requires Agreement(env, p, q, bus) && (req.Join? ==> req.participant == p.me)
    ensures var (p', bus', _) := PeerAct(env, cfg, p, bus, req, now); Agreement(env, p', q, bus')
  {
    hide Agreement, SendAll, Outgoing, Harmless, JoinPayload, PeerJoin;
    if req.Join? {
      JoinKeepsPeersAgreed(env, p, q, bus, req.room);
    } else {
      var p1 := Admit(env, cfg, p, RequestKind(req), now).0;
      AgreementIgnoresLimiter(env, p, q, bus, p1.sessions);
      OutgoingIsCopies(env, p1.table.order, req);
      if RequestPayload(env, req).Some? {
        RequestsAreHarmless(env, req, p.me);
      }
      SendAllKeepsAgreement(env, p1, q, bus, Outgoing(env, p1.table.order, req));
    }
  }

  lemma AgreementIgnoresLimiter(env: Env, p: Peer, q: Peer, bus: Bus, sessions: Limiter.Sessions)
    requires Agreement(env, p, q, bus)
    ensures Agreement(env, p.(sessions := sessions), q, bus)
  {
  }

  lemma TurnKeepsAgreement(env: Env, cfg: Limiter.Config, p: Peer, q: Peer, bus: Bus, t: Turn)
    requires Sane(env) && Agreement(env, p, q, bus)
    requires t.Handle? && t.req.Join? ==> t.req.participant == p.me
    ensures var (p', bus', _) := OnPeer(env, cfg, p, bus, t); Agreement(env, p', q, bus') && p'.me == p.me
  {
    hide Agreement, PeerDrain, PeerAct;
    DrainKeepsAgreement(env, p, q, bus);
    if t.Handle? {
      var (p1, bus1, _) := PeerDrain(env, p, bus);
      var (p2, bus2, _) := PeerAct(env, cfg, p1, bus1, t.req, t.now);
      ActKeepsAgreement(env, cfg, p1, q, bus1, t.req, t.now);
      DrainKeepsAgreement(env, p2, q, bus2);
      ActKeepsMe(env, cfg, p1, bus1, t.req, t.now);
    }
  }

  lemma ActKeepsMe(env: Env, cfg: Limiter.Config, p: Peer, bus: Bus, req: SyncerRequest, now: int)
    ensures PeerAct(env, cfg, p, bus, req, now).0.me == p.me
  {
    hide SendAll, LinkSend, JoinStep, Outgoing;
  }

  lemma AgreementIsSymmetric(env: Env, p: Peer, q: Peer, bus: Bus)
    requires Agreement(env, p, q, bus)
    ensures Agreement(env, q, p, bus)
  {
  }

  /** Every syncer joins as itself. */
  predicate JoinsAsSelf(a: ParticipantId, b: ParticipantId, turns: History<Turn>) {
    turns.Then? ==>
      && JoinsAsSelf(a, b, turns.past)
      && (turns.last.Handle? && turns.last.req.Join?
          ==> turns.last.req.participant == if turns.last.first then a else b)
  }

  /** From any state in agreement, every run of turns keeps the agreement. */
  lemma {:induction false} PlayKeepsAgreement(env: Env, limits: Limits, start: System, turns: History<Turn>)
    requires Sane(env) && Agreement(env, start.a, start.b, start.bus)
    requires JoinsAsSelf(start.a.me, start.b.me, turns)
    ensures var s := Play(env, limits, start, turns);
      s.a.me == start.a.me && s.b.me == start.b.me && Agreement(env, s.a, s.b, s.bus)
  {
    if turns.Start? {
    } else {
      hide OnPeer, Agreement;
      PlayKeepsAgreement(env, limits, start, turns.past);
      var s := Play(env, limits, start, turns.past);
      if turns.last.first {
        TurnKeepsAgreement(env, limits.a, s.a, s.b, s.bus, turns.last);
      } else {
        AgreementIsSymmetric(env, s.a, s.b, s.bus);
        TurnKeepsAgreement(env, limits.b, s.b, s.a, s.bus, turns.last);
        var s' := Next(env, limits, s, turns.last);
        AgreementIsSymmetric(env, s'.b, s'.a, s'.bus);
      }
    }
  }

  lemma InitAgrees(env: Env, a: ParticipantId, b: ParticipantId)
    requires a != b
    ensures var s := Init(a, b, false, false); Agreement(env, s.a, s.b, s.bus)
  {
  }

  /** A joined syncer is in the other's table or its announcement is on the way; and when nothing is on the
    way, both tables are the two of them. */
  lemma AgreementTells(env: Env, s: System)
    requires Agreement(env, s.a, s.b, s.bus)
    ensures var a, b := s.a.me, s.b.me;
      && (s.a.link.registered ==> a in s.b.table.sessions || AnnouncePacket(env, a, b) in s.bus)
      && (s.b.link.registered ==> b in s.a.table.sessions || AnnouncePacket(env, b, a) in s.bus)
      && (s.a.link.registered && s.b.link.registered && s.bus == [] ==>
            s.a.table.sessions.Keys == {a, b} == s.b.table.sessions.Keys)
  {
    hide JoinPayload, Harmless, BusOk;
  }

  /** Without reconnects, having a room and being registered are the same. */
  predicate RegisteredIfJoined(s: System) {
    (s.a.room.Some? ==> s.a.link.registered) && (s.b.room.Some? ==> s.b.link.registered)
  }

  lemma TurnKeepsRegistered(env: Env, cfg: Limiter.Config, p: Peer, bus: Bus, t: Turn)
    requires p.room.Some? ==> p.link.registered
    ensures var p' := OnPeer(env, cfg, p, bus, t).0; p'.room.Some? ==> p'.link.registered
  {
    hide PeerAct;
    DrainKeepsRegistered(env, p, bus);
    if t.Handle? {
      var (p1, bus1, _) := PeerDrain(env, p, bus);
      var (p2, bus2, _) := PeerAct(env, cfg, p1, bus1, t.req, t.now);
      ActKeepsRegistered(env, cfg, p1, bus1, t.req, t.now);
      DrainKeepsRegistered(env, p2, bus2);
    }
  }

  lemma DrainKeepsRegistered(env: Env, p: Peer, bus: Bus)
    ensures var p' := PeerDrain(env, p, bus).0; p'.room == p.room && p'.link.registered == p.link.registered
  {
    hide DrainAll, EndpointPoll;
  }

  lemma ActKeepsRegistered(env: Env, cfg: Limiter.Config, p: Peer, bus: Bus, req: SyncerRequest, now: int)
    requires p.room.Some? ==> p.link.registered
    ensures var p' := PeerAct(env, cfg, p, bus, req, now).0; p'.room.Some? ==> p'.link.registered
  {
    hide SendAll, Outgoing, JoinStep, EndpointSend, JoinPayload;
    SendAllLogs(p.link, bus, Outgoing(env, p.table.order, req));
  }

  lemma {:induction false} PlayKeepsRegistered(env: Env, limits: Limits, start: System, turns: History<Turn>)
    requires RegisteredIfJoined(start)
    ensures RegisteredIfJoined(Play(env, limits, start, turns))
  {
    if turns.Start? {
    } else {
      hide OnPeer;
      PlayKeepsRegistered(env, limits, start, turns.past);
      var s := Play(env, limits, start, turns.past);
      TurnKeepsRegistered(env, limits.a, s.a, s.bus, turns.last);
      TurnKeepsRegistered(env, limits.b, s.b, s.bus, turns.last);
    }
  }

  /** Two-peer agreement: in every interleaving where each joins as itself and no failure is injected,
    once one has joined, the other's table holds it or its announcement is on the way; so when both have
    joined and the bus is empty, both tables are exactly the two of them. */
  lemma TablesAgreeAtQuiescence(env: Env, limits: Limits, a: ParticipantId, b: ParticipantId, turns: History<Turn>)
    requires Sane(env) && a != b && JoinsAsSelf(a, b, turns)
    ensures var s := Play(env, limits, Init(a, b, false, false), turns);
      && (s.a.room.Some? ==> a in s.b.table.sessions || AnnouncePacket(env, a, b) in s.bus)
      && (s.b.room.Some? ==> b in s.a.table.sessions || AnnouncePacket(env, b, a) in s.bus)
      && (s.a.room.Some? && s.b.room.Some? && s.bus == [] ==>
            s.a.table.sessions.Keys == {a, b} == s.b.table.sessions.Keys)
  {
    hide Play, Agreement, JoinPayload;
    InitAgrees(env, a, b);
    PlayKeepsAgreement(env, limits, Init(a, b, false, false), turns);
    PlayKeepsRegistered(env, limits, Init(a, b, false, false), turns);
    AgreementTells(env, Play(env, limits, Init(a, b, false, false), turns));
  }

  lemma FirstIsMember(bus: Bus)
    ensures bus == [] || bus[0] in bus
  {
  }

  /** Agreement is always two polls away: from any reachable state in which both have joined, one poll by
    each empties the bus and leaves both tables with exactly the two participants. */
  lemma TwoPollsAgree(env: Env, limits: Limits, a: ParticipantId, b: ParticipantId, turns: History<Turn>)
    requires Sane(env) && a != b && JoinsAsSelf(a, b, turns)
    requires var s := Play(env, limits, Init(a, b, false, false), turns); s.a.room.Some? && s.b.room.Some?
    ensures var s := Play(env, limits, Init(a, b, false, false), Then(Then(turns, PollOnly(true)), PollOnly(false)));
      s.bus == [] && s.a.table.sessions.Keys == {a, b} == s.b.table.sessions.Keys
  {
    hide Agreement, JoinPayload;
    InitAgrees(env, a, b);
    PlayKeepsAgreement(env, limits, Init(a, b, false, false), turns);
    PlayKeepsRegistered(env, limits, Init(a, b, false, false), turns);
    BothPoll(env, limits, Play(env, limits, Init(a, b, false, false), turns));
  }

  lemma BothPoll(env: Env, limits: Limits, s: System)
    requires Sane(env) && Agreement(env, s.a, s.b, s.bus) && s.a.link.registered && s.b.link.registered
    ensures var s2 := Next(env, limits, Next(env, limits, s, PollOnly(true)), PollOnly(false));
      s2.bus == [] && s2.a.table.sessions.Keys == {s.a.me, s.b.me} == s2.b.table.sessions.Keys
  {
    hide PeerDrain;
    var (a, bus1, _) := PeerDrain(env, s.a, s.bus);
    var (b, bus2, _) := PeerDrain(env, s.b, bus1);
    DrainKeepsAgreement(env, s.a, s.b, s.bus);
    FromOneOfTwo(env, a, s.b, bus1);
    AgreementIsSymmetric(env, a, s.b, bus1);
    hide Agreement;
    DrainKeepsAgreement(env, s.b, a, bus1);
    FirstIsMember(bus2);
    AgreementIsSymmetric(env, b, a, bus2);
    AgreementTells(env, System(a, b, bus2));
  }

  lemma FromOneOfTwo(env: Env, p: Peer, q: Peer, bus: Bus)
    requires Agreement(env, p, q, bus)
    ensures forall m :: m in bus ==> m.dest == p.me || m.dest == q.me
  {
  }

  // ---------- reconnects ----------

  /** Any number of sessions; before each both syncers are given a new pair of ends. */
  function PlayAll(env: Env, limits: Limits, a: ParticipantId, b: ParticipantId, sessions: History<History<Turn>>)
    : System
  {
    match sessions
    case Start => Init(a, b, false, false)
    case Then(before, turns) => Play(env, limits, Reconnected(PlayAll(env, limits, a, b, before), false, false), turns)
  }

  lemma ReconnectKeepsAgreement(env: Env, s: System)
    requires Agreement(env, s.a, s.b, s.bus)
    ensures var s' := Reconnected(s, false, false); Agreement(env, s'.a, s'.b, s'.bus)
  {
    hide JoinPayload, Harmless;
  }

  lemma {:induction false} PlayAllKeepsAgreement(env: Env, limits: Limits, a: ParticipantId, b: ParticipantId,
                                                 sessions: History<History<Turn>>)
    requires Sane(env) && a != b && Every(sessions, turns => JoinsAsSelf(a, b, turns))
    ensures var s := PlayAll(env, limits, a, b, sessions);
      s.a.me == a && s.b.me == b && Agreement(env, s.a, s.b, s.bus)
  {
    InitAgrees(env, a, b);
    if sessions.Start? {
    } else {
      hide Agreement, Play;
      PlayAllKeepsAgreement(env, limits, a, b, sessions.past);
      var s := PlayAll(env, limits, a, b, sessions.past);
      ReconnectKeepsAgreement(env, s);
      PlayKeepsAgreement(env, limits, Reconnected(s, false, false), sessions.last);
    }
  }

  /** Agreement across reconnects: the tables are kept and may be out of date, but once both have joined
    again after the latest reconnect, an empty bus means that both are exactly the two participants; and
    one poll by each is enough for that. */
  lemma RejoinedTablesAgree(env: Env, limits: Limits, a: ParticipantId, b: ParticipantId,
                            sessions: History<History<Turn>>)
    requires Sane(env) && a != b && Every(sessions, turns => JoinsAsSelf(a, b, turns))
    ensures var s := PlayAll(env, limits, a, b, sessions);
      s.a.link.registered && s.b.link.registered ==>
        && (s.bus == [] ==> s.a.table.sessions.Keys == {a, b} == s.b.table.sessions.Keys)
        && var s2 := Next(env, limits, Next(env, limits, s, PollOnly(true)), PollOnly(false));
           s2.bus == [] && s2.a.table.sessions.Keys == {a, b} == s2.b.table.sessions.Keys
  {
    hide Agreement, JoinPayload, PlayAll, OnPeer;
    PlayAllKeepsAgreement(env, limits, a, b, sessions);
    var s := PlayAll(env, limits, a, b, sessions);
    AgreementTells(env, s);
    if s.a.link.registered && s.b.link.registered {
      BothPoll(env, limits, s);
    }
  }
}
