/** What one syncer does over a whole run, whatever the rest of the world puts on its bus: the events it
  returns tell its participant table, joins and leaves balance, and sends are bounded.
*/
module SyncerRuns {
  import opened Wrappers
  import opened Histories
  import opened TimeLine
  import opened Ids
  import opened Streams
  import opened Messages
  import opened SyncerTypes
  import opened ParticipantTables
  import opened TransportInboxes
  import opened WebrtcTransports
  import opened BasicSyncers
  import Limiter = FixedLimiter

  /** One call on the syncer, with the bus contents it finds. */
  datatype Op =
    | Request(req: SyncerRequest, now: int, bus: Bus)
    | Poll(pollBus: Bus)
    | Push(ev: TransportEvent)
    | Reconnect(inner: Endpoint)

  function Step(env: Env, cfg: Limiter.Config, s: Peer, op: Op): (Peer, seq<SyncerEvent>) {
    match op
    case Request(req, now, bus) =>
      var (s', _, events) := PeerHandle(env, cfg, s, bus, req, now);
      (s', events)
    case Poll(bus) =>
      var (s', _, events) := PeerDrain(env, s, bus);
      (s', events)
    case Push(ev) => (s.(inbox := s.inbox.(events := s.inbox.events + [ev])), [])
    case Reconnect(inner) => (Rebind(s, inner), [])
  }

  /** The syncer after a run, and all events it returned, in order. */
  function Run(env: Env, cfg: Limiter.Config, start: Peer, ops: History<Op>): (Peer, seq<SyncerEvent>) {
    match ops
    case Start => (start, [])
    case Then(before, op) =>
      var (s, told) := Run(env, cfg, start, before);
      var (s', events) := Step(env, cfg, s, op);
      (s', told + events)
  }

  // ---------- event replay ----------

  /** `events` take a listener's list from the old participant list to the new one. */
  ghost predicate Tells(s: Peer, s': Peer, events: seq<SyncerEvent>) {
    Agrees(s'.table) && Replay(s.table.order, events) == s'.table.order
  }

  lemma TellsOn(s0: Peer, s1: Peer, s2: Peer, a: seq<SyncerEvent>, b: seq<SyncerEvent>)
    requires Tells(s0, s1, a) && Tells(s1, s2, b)
    ensures Tells(s0, s2, a + b)
  {
    hide Replay, Rising;
    ReplayAppend(s0.table.order, a, b);
  }

  lemma DrainTells(env: Env, s: Peer, bus: Bus)
    requires Agrees(s.table)
    ensures var (s', _, events) := PeerDrain(env, s, bus); Tells(s, s', events)
  {
    hide Rising, DrainAll;
    if s.room.Some? {
      DrainReplays(env, s.room.value, s.table, s.inbox.failureEmitted, s.inbox.events + LinkPoll(s.link, bus).2);
    }
  }

  lemma ActTells(env: Env, cfg: Limiter.Config, s: Peer, bus: Bus, req: SyncerRequest, now: int)
    requires Agrees(s.table)
    ensures var (s', _, events) := PeerAct(env, cfg, s, bus, req, now); Tells(s, s', events)
  {
    hide Rising, LinkSend, SendAll, JoinStep;
    if req.Join? {
      var events := JoinStep(s.table, req.participant).1;
      JoinKeepsAgreement(s.table, req.participant);
      JoinReplays(s.table, req.participant);
      ReplayAppend(s.table.order, events, [SelfJoined(req.room, req.participant)]);
      ReplayOne(JoinStep(s.table, req.participant).0.order, SelfJoined(req.room, req.participant));
    } else {
      ReplayOne(s.table.order, Limited(RequestKind(req)));
    }
  }

  /** Event replay for one call: the events returned by handling any request, early returns included,
    turn the old participant list into the new one. */
  lemma HandleTellsTable(env: Env, cfg: Limiter.Config, s: Peer, bus: Bus, req: SyncerRequest, now: int)
    requires Agrees(s.table)
    ensures var (s', _, events) := PeerHandle(env, cfg, s, bus, req, now);
      Agrees(s'.table) && Replay(s.table.order, events) == s'.table.order
  {
    hide PeerDrain, PeerAct, Replay;
    var (s1, bus1, e1) := PeerDrain(env, s, bus);
    var (s2, bus2, e2) := PeerAct(env, cfg, s1, bus1, req, now);
    var (s3, bus3, e3) := PeerDrain(env, s2, bus2);
    DrainTells(env, s, bus);
    ActTells(env, cfg, s1, bus1, req, now);
    DrainTells(env, s2, bus2);
    TellsOn(s1, s2, s3, e2, e3);
    TellsOn(s, s1, s3, e1, e2 + e3);
  }

  /** Event replay for runs: replaying everything a new syncer ever returned gives its participant list. */
  lemma {:induction false} RunTellsTable(env: Env, cfg: Limiter.Config, me: ParticipantId, inner: Endpoint,
                                         ops: History<Op>)
    ensures var (s, told) := Run(env, cfg, NewPeer(me, inner), ops);
      Agrees(s.table) && Replay([], told) == s.table.order
  {
    hide PeerDrain, PeerHandle;
    if ops.Start? {
    } else {
      var start := NewPeer(me, inner);
      RunTellsTable(env, cfg, me, inner, ops.past);
      var (s, told) := Run(env, cfg, start, ops.past);
      var (s', events) := Step(env, cfg, s, ops.last);
      match ops.last {
        case Request(req, now, bus) => HandleTellsTable(env, cfg, s, bus, req, now);
        case Poll(bus) => DrainTells(env, s, bus);
        case _ =>
      }
      assert Replay(s.table.order, events) == s'.table.order;
      ReplayAppend([], told, events);
    }
  }

  // ---------- joins and leaves balance ----------

  /** Unmatched failure signals of `p` in one drain. */
  function DrainUnmatched(env: Env, s: Peer, bus: Bus, p: ParticipantId): nat {
    if s.room.None? then 0
    else UnmatchedAll(env, s.room.value, s.table, s.inbox.failureEmitted, s.inbox.events + LinkPoll(s.link, bus).2, p)
  }

  function StepUnmatched(env: Env, cfg: Limiter.Config, s: Peer, op: Op, p: ParticipantId): nat {
    match op
    case Request(req, now, bus) =>
      var (s1, bus1, _) := PeerDrain(env, s, bus);
      var (s2, bus2, _) := PeerAct(env, cfg, s1, bus1, req, now);
      DrainUnmatched(env, s, bus, p) + DrainUnmatched(env, s2, bus2, p)
    case Poll(bus) => DrainUnmatched(env, s, bus, p)
    case _ => 0
  }

  /** How often the run reported the failure of `p` while `p` was not registered. */
  function RunUnmatched(env: Env, cfg: Limiter.Config, start: Peer, ops: History<Op>, p: ParticipantId): nat {
    match ops
    case Start => 0
    case Then(before, op) =>
      RunUnmatched(env, cfg, start, before, p) + StepUnmatched(env, cfg, Run(env, cfg, start, before).0, op, p)
  }

  function Reconnects(ops: History<Op>): nat {
    match ops
    case Start => 0
    case Then(before, op) => Reconnects(before) + Bit(op.Reconnect?)
  }

  /** Joins and `k` unmatched failures account for leaves and the table, and each unmatched failure is
    remembered by the inbox. */
  predicate Balances(s: Peer, s': Peer, events: seq<SyncerEvent>, k: nat, p: ParticipantId) {
    && Joins(events, p) + k + Bit(p in s.table.sessions) == Leaves(events, p) + Bit(p in s'.table.sessions)
    && Bit(p in s.inbox.failureEmitted) + k <= Bit(p in s'.inbox.failureEmitted)
  }

  lemma BalancesOn(s0: Peer, s1: Peer, s2: Peer, a: seq<SyncerEvent>, b: seq<SyncerEvent>, j: nat, k: nat,
                   p: ParticipantId)
    requires Balances(s0, s1, a, j, p) && Balances(s1, s2, b, k, p)
    ensures Balances(s0, s2, a + b, j + k, p)
  {
  }

  lemma DrainBalanced(env: Env, s: Peer, bus: Bus, p: ParticipantId)
    ensures var (s', _, events) := PeerDrain(env, s, bus);
      Balances(s, s', events, DrainUnmatched(env, s, bus, p), p)
  {
    if s.room.Some? {
      hide DrainAll, UnmatchedAll;
      DrainBalances(env, s.room.value, s.table, s.inbox.failureEmitted, s.inbox.events + LinkPoll(s.link, bus).2, p);
    }
  }

  lemma ActBalanced(env: Env, cfg: Limiter.Config, s: Peer, bus: Bus, req: SyncerRequest, now: int, p: ParticipantId)
    ensures var (s', _, events) := PeerAct(env, cfg, s, bus, req, now); Balances(s, s', events, 0, p)
  {
    hide LinkSend, SendAll, JoinStep;
    if req.Join? {
      JoinBalances(s.table, req.participant, p);
    }
  }

  lemma StepBalanced(env: Env, cfg: Limiter.Config, s: Peer, op: Op, p: ParticipantId)
    ensures var (s', events) := Step(env, cfg, s, op);
      if op.Reconnect? then StepUnmatched(env, cfg, s, op, p) == 0 && events == [] && s'.table == s.table
        && s'.inbox.failureEmitted == {}
      else Balances(s, s', events, StepUnmatched(env, cfg, s, op, p), p)
  {
    hide PeerDrain, PeerAct, DrainUnmatched;
    match op
    case Request(req, now, bus) =>
      var (s1, bus1, e1) := PeerDrain(env, s, bus);
      var (s2, bus2, e2) := PeerAct(env, cfg, s1, bus1, req, now);
      var (s3, bus3, e3) := PeerDrain(env, s2, bus2);
      DrainBalanced(env, s, bus, p);
      ActBalanced(env, cfg, s1, bus1, req, now, p);
      DrainBalanced(env, s2, bus2, p);
      hide Balances;
      BalancesOn(s1, s2, s3, e2, e3, 0, DrainUnmatched(env, s2, bus2, p), p);
      BalancesOn(s, s1, s3, e1, e2 + e3, DrainUnmatched(env, s, bus, p), DrainUnmatched(env, s2, bus2, p), p);
    case Poll(bus) => DrainBalanced(env, s, bus, p);
    case _ =>
  }

  /** Conservation over whole runs: for every participant, the joins ever returned plus the failures
    reported without a registration equal the leaves ever returned, plus one if it is registered now;
    and those failures number at most one per inbox, hence at most one more than the reconnects. */
  lemma {:induction false} JoinsAndLeavesBalance(env: Env, cfg: Limiter.Config, me: ParticipantId, inner: Endpoint,
                                                ops: History<Op>, p: ParticipantId)
    ensures var (s, told) := Run(env, cfg, NewPeer(me, inner), ops);
      var k := RunUnmatched(env, cfg, NewPeer(me, inner), ops, p);
      && Joins(told, p) + k == Leaves(told, p) + Bit(p in s.table.sessions)
      && k <= Reconnects(ops) + Bit(p in s.inbox.failureEmitted) <= Reconnects(ops) + 1
  {
    if ops.Start? {
    } else {
      hide Step, StepUnmatched;
      JoinsAndLeavesBalance(env, cfg, me, inner, ops.past, p);
      StepBalanced(env, cfg, Run(env, cfg, NewPeer(me, inner), ops.past).0, ops.last, p);
    }
  }

  // ---------- fan-out ----------

  function RequestPayload(env: Env, req: SyncerRequest): Option<TransportPayload> {
    match req
    case Join(_, p) => Some(JoinPayload(env, p))
    case SendPose(_, pose) => IntoTransportPayload(env, SyncMessage.Pose(pose))
    case SendChat(chat, _) => IntoTransportPayload(env, SyncMessage.Chat(chat))
    case SendVoiceFrame(frame, _) => Some(AudioFrame(frame))
  }

  /** One send per participant, in order, all with the same payload and parameters. */
  function Copies(dests: seq<ParticipantId>, payload: TransportPayload, kind: StreamKind): seq<SendCall> {
    seq(|dests|, i requires 0 <= i < |dests| => SendCall(dests[i], payload, ForStream(kind)))
  }

  lemma {:induction false} CallsAreCopies(env: Env, outs: seq<Outbound>, dests: seq<ParticipantId>, kind: StreamKind,
                                          m: SyncMessage)
    requires |outs| == |dests|
    requires forall i :: 0 <= i < |outs| ==> outs[i].dest == dests[i] && outs[i].kind == kind && outs[i].payload == m
    ensures var payload := IntoTransportPayload(env, m);
      Calls(env, outs) == if payload.Some? then Copies(dests, payload.value, kind) else []
  {
    if outs == [] {
    } else {
      var n := |outs| - 1;
      CallsAreCopies(env, outs[..n], dests[..n], kind, m);
    }
  }

  lemma OutgoingIsCopies(env: Env, order: seq<ParticipantId>, req: SyncerRequest)
    requires !req.Join?
    ensures var payload := RequestPayload(env, req);
      Outgoing(env, order, req) ==
        if payload.Some? then Copies(Without(order, Sender(req)), payload.value, RequestKind(req)) else []
  {
    hide Without, Calls;
    var others := Without(order, Sender(req));
    match req
    case SendPose(from, pose) =>
      CallsAreCopies(env, Route(from, order, StreamKind.Pose, SyncMessage.Pose(pose)), others, StreamKind.Pose,
                     SyncMessage.Pose(pose));
    case SendChat(chat, ctx) =>
      CallsAreCopies(env, Route(ctx.participant, order, StreamKind.Chat, SyncMessage.Chat(chat)), others,
                     StreamKind.Chat, SyncMessage.Chat(chat));
    case SendVoiceFrame(frame, ctx) =>
  }

  predicate CanSend(l: Link) {
    l.registered && l.inner.registered
  }

  lemma {:induction false} SendAllLogs(l: Link, bus: Bus, calls: seq<SendCall>)
    ensures var (l', _) := SendAll(l, bus, calls);
      && l'.registered == l.registered && l'.inner.registered == l.inner.registered && l'.inner.got == l.inner.got
      && l'.inner.calls == l.inner.calls + (if CanSend(l) then calls else [])
  {
    hide IsControl;
    if calls == [] {
    } else {
      var n := |calls| - 1;
      SendAllLogs(l, bus, calls[..n]);
      assert calls == calls[..n] + [calls[n]];
    }
  }

  lemma DrainSendsNothing(env: Env, s: Peer, bus: Bus)
    ensures var (s', _, _) := PeerDrain(env, s, bus);
      && s'.link.inner.calls == s.link.inner.calls && CanSend(s'.link) == CanSend(s.link)
      && s'.sessions == s.sessions && s'.me == s.me
  {
    hide DrainAll, Deliveries, Remaining, ReceivedIn;
  }

  /** Fan-out of a pose, chat or voice frame: it is sent exactly once, in join order and with its
    stream's parameters, to every participant registered after the pending input was taken in, except
    the sender. It is sent to nobody when the limiter refuses, the sender is not registered, the payload
    cannot be encoded, or the transport is not registered. */
  lemma FanOut(env: Env, cfg: Limiter.Config, s: Peer, bus: Bus, req: SyncerRequest, now: int)
    requires !req.Join? && Agrees(s.table)
    ensures var (s1, _, _) := PeerDrain(env, s, bus);
      var (s', _, _) := PeerHandle(env, cfg, s, bus, req, now);
      var others := Without(s1.table.order, Sender(req));
      var payload := RequestPayload(env, req);
      var goes := && Admit(env, cfg, s1, RequestKind(req), now).1
                  && Sender(req) in s1.table.sessions && payload.Some? && CanSend(s.link);
      && s'.link.inner.calls
        == s.link.inner.calls + (if goes then Copies(others, payload.value, RequestKind(req)) else [])
      && NoDup(others) && (forall q :: q in others <==> q in s1.table.sessions && q != Sender(req))
  {
    hide PeerDrain, SendAll, Outgoing, Rising, Without, Replay;
    var (s1, bus1, _) := PeerDrain(env, s, bus);
    var (s2, bus2, _) := PeerAct(env, cfg, s1, bus1, req, now);
    DrainSendsNothing(env, s, bus);
    DrainSendsNothing(env, s2, bus2);
    OutgoingIsCopies(env, s1.table.order, req);
    SendAllLogs(Admit(env, cfg, s1, RequestKind(req), now).0.link, bus1, Outgoing(env, s1.table.order, req));
    DrainTells(env, s, bus);
    RisingIsNoDup(s1.table.order, s1.table.sessions, s1.table.nextSession);
    WithoutNoDup(s1.table.order, Sender(req));
  }

  /** What can be sent: poses of version 1, valid chats, and every frame. */
  lemma RequestIsEncodable(env: Env, req: SyncerRequest)
    ensures RequestPayload(env, req).Some? <==>
      (req.SendPose? ==> req.pose.version == 1) && (req.SendChat? ==> ChatValid(req.chat))
  {
    hide ChatValid;
    if req.SendPose? {
      EncodesExactly(env.floats, SyncMessage.Pose(req.pose));
    } else if req.SendChat? {
      EncodesExactly(env.floats, SyncMessage.Chat(req.chat));
    }
  }

  /** A send stops being accepted after one injected failure at most: the first one that is not control. */
  lemma {:induction false} FailureIsInjectedOnce(l: Link, bus: Bus, calls: seq<SendCall>)
    requires CanSend(l)
    ensures var e, e' := l.inner, SendAll(l, bus, calls).0.inner;
      var hit := e.injectFailureOnce && exists i :: 0 <= i < |calls| && !IsControl(calls[i].payload);
      && e'.pending == e.pending + (if hit then [Failure(e.peer)] else [])
      && e'.injectFailureOnce == (e.injectFailureOnce && !hit)
      && CanSend(SendAll(l, bus, calls).0) && e'.peer == e.peer
  {
    hide IsControl;
    if calls == [] {
      assert l.inner.pending + [] == l.inner.pending;
    } else {
      var n := |calls| - 1;
      FailureIsInjectedOnce(l, bus, calls[..n]);
      var mid := SendAll(l, bus, calls[..n]).0.inner;
      assert calls == calls[..n] + [calls[n]];
      assert mid.pending + [] == mid.pending && l.inner.pending + [] == l.inner.pending;
      if l.inner.injectFailureOnce && !mid.injectFailureOnce {
        var i :| 0 <= i < n && !IsControl(calls[..n][i].payload);
        assert !IsControl(calls[i].payload);
      } else if l.inner.injectFailureOnce && IsControl(calls[n].payload) {
        forall i | 0 <= i < |calls| ensures IsControl(calls[i].payload) {
          assert i < n ==> calls[..n][i] == calls[i];
        }
      }
    }
  }

  // ---------- the application hears what the transport received ----------

  lemma {:induction false} ContentIsReceived(env: Env, evs: seq<TransportEvent>)
    ensures ContentOfAll(env, ReceivedIn(evs)) == ContentOfAll(env, evs)
  {
    if evs == [] {
    } else {
      var front, e := evs[..|evs| - 1], evs[|evs| - 1];
      ContentIsReceived(env, front);
      if e.Received? {
        hide ContentOf;
        assert (ReceivedIn(front) + [e])[..|ReceivedIn(front)|] == ReceivedIn(front);
      } else {
        assert ReceivedIn(front) + [] == ReceivedIn(front);
        assert ContentOfAll(env, front) + [] == ContentOfAll(env, front);
      }
    }
  }

  /** `told` has the content of everything the transport of `s` ever received, in order. */
  predicate Heeds(env: Env, s: Peer, told: seq<SyncerEvent>) {
    s.inbox.events == [] && ContentIn(told) == ContentOfAll(env, s.link.inner.got)
  }

  lemma DrainHeeds(env: Env, s: Peer, bus: Bus, told: seq<SyncerEvent>)
    requires Heeds(env, s, told)
    ensures var (s', _, events) := PeerDrain(env, s, bus); Heeds(env, s', told + events)
  {
    hide DrainAll, Deliveries, Remaining, ContentIn, ContentOfAll, ReceivedIn;
    if s.room.Some? {
      var evs := LinkPoll(s.link, bus).2;
      assert s.inbox.events + evs == evs;
      var out := DrainAll(env, s.room.value, s.table, s.inbox.failureEmitted, evs).out;
      DrainShows(env, s.room.value, s.table, s.inbox.failureEmitted, evs);
      ContentInAppend(told, out);
      ContentIsReceived(env, evs);
      ContentOfAllAppend(env, s.link.inner.got, ReceivedIn(evs));
      NoContentIn(env);
    } else {
      assert told + [] == told;
    }
  }

  lemma NoContentIn(env: Env)
    ensures ContentIn([]) == [] && ContentOfAll(env, []) == []
  {
  }

  lemma ActHeeds(env: Env, cfg: Limiter.Config, s: Peer, bus: Bus, req: SyncerRequest, now: int, told: seq<SyncerEvent>)
    requires Heeds(env, s, told)
    ensures var (s', _, events) := PeerAct(env, cfg, s, bus, req, now); Heeds(env, s', told + events)
  {
    hide JoinStep, ContentIn, ContentOfAll, SendAll, Outgoing, IsControl;
    var (s', _, events) := PeerAct(env, cfg, s, bus, req, now);
    ContentInAppend(told, events);
    NoContentIn(env);
    if req.Join? {
      MembershipHasNoContent(s.table, req.participant);
      ContentInAppend(JoinStep(s.table, req.participant).1, [SelfJoined(req.room, req.participant)]);
      ContentInOne(SelfJoined(req.room, req.participant));
    } else {
      ContentInOne(Limited(RequestKind(req)));
      SendAllLogs(s.link, bus, Outgoing(env, s.table.order, req));
    }
  }

  lemma HandleHeeds(env: Env, cfg: Limiter.Config, s: Peer, bus: Bus, req: SyncerRequest, now: int,
                    told: seq<SyncerEvent>)
    requires Heeds(env, s, told)
    ensures var (s', _, events) := PeerHandle(env, cfg, s, bus, req, now); Heeds(env, s', told + events)
  {
    hide PeerDrain, PeerAct, Heeds;
    var (s1, bus1, e1) := PeerDrain(env, s, bus);
    var (s2, bus2, e2) := PeerAct(env, cfg, s1, bus1, req, now);
    var (s3, bus3, e3) := PeerDrain(env, s2, bus2);
    DrainHeeds(env, s, bus, told);
    ActHeeds(env, cfg, s1, bus1, req, now, told + e1);
    DrainHeeds(env, s2, bus2, told + e1 + e2);
    assert told + (e1 + (e2 + e3)) == told + e1 + e2 + e3;
  }

  /** What the receiver of a request's payload hears is what was asked to be sent. */
  lemma RequestArrivesAsSent(env: Env, from: ParticipantId, req: SyncerRequest)
    requires env.floats.Faithful() && !req.Join? && RequestPayload(env, req).Some?
    requires RequestPayload(env, req).value.Encoded? ==> RequestPayload(env, req).value.bytes.size <= MAX_ENVELOPE_BYTES
    requires req.SendPose? ==> AllFinite(SyncMessage.Pose(req.pose))
    ensures ContentOf(env, Received(from, RequestPayload(env, req).value)) ==
      if req.SendPose? then [Posed(from, req.pose)]
      else if req.SendChat? then [Chatted(from, req.chat)]
      else [Voiced(from, req.frame)]
  {
    hide ParseSyncMessage, ValidateChat;
    if req.SendPose? {
      WireRoundTrip(env.floats, env.size, SyncMessage.Pose(req.pose));
    } else if req.SendChat? {
      WireRoundTrip(env.floats, env.size, SyncMessage.Chat(req.chat));
    }
  }

  /** A drain hands on what waited in the inbox first, and then what the transport returned. */
  lemma DrainTakesQueueFirst(env: Env, s: Peer, bus: Bus)
    requires s.room.Some?
    ensures var (s', _, events) := PeerDrain(env, s, bus);
      && ContentIn(events) == ContentOfAll(env, s.inbox.events) + ContentOfAll(env, LinkPoll(s.link, bus).2)
      && s'.inbox.events == []
  {
    hide DrainAll, LinkPoll;
    var evs := LinkPoll(s.link, bus).2;
    DrainShows(env, s.room.value, s.table, s.inbox.failureEmitted, s.inbox.events + evs);
    ContentOfAllAppend(env, s.inbox.events, evs);
  }

  /** After any request of a joined and registered syncer nothing that was for it is left behind: not in its
    inbox, not pending, not on the bus. */
  lemma NothingLeftBehind(env: Env, cfg: Limiter.Config, s: Peer, bus: Bus, req: SyncerRequest, now: int)
    ensures var (s', bus', _) := PeerHandle(env, cfg, s, bus, req, now);
      s'.room.Some? ==>
        && s'.inbox.events == []
        && (s'.link.inner.registered ==> s'.link.inner.pending == [] && Deliveries(bus', s'.link.inner.me) == [])
  {
    hide PeerAct;
    var (s1, bus1, _) := PeerDrain(env, s, bus);
    var (s2, bus2, _) := PeerAct(env, cfg, s1, bus1, req, now);
    DrainLeavesNothing(env, s2, bus2);
    hide PeerDrain;
  }

  lemma DrainLeavesNothing(env: Env, s: Peer, bus: Bus)
    ensures var (s', bus', _) := PeerDrain(env, s, bus);
      s'.room.Some? ==>
        && s'.inbox.events == []
        && (s'.link.inner.registered ==> s'.link.inner.pending == [] && Deliveries(bus', s'.link.inner.me) == [])
  {
    hide DrainAll, Deliveries, Remaining, ReceivedIn;
    PollPartitions(bus, s.link.inner.me, s.link.inner.me);
  }

  /** A reconnect replaces the transport, unregistered, and the inbox, and nothing else. */
  lemma RebindReplacesTransport(s: Peer, inner: Endpoint)
    ensures var s' := Rebind(s, inner);
      && s'.link.inner == inner && !s'.link.registered && s'.link.me == s.me
      && s'.inbox.events == [] && s'.inbox.failureEmitted == {}
      && s'.me == s.me && s'.table == s.table && s'.room == s.room && s'.sessions == s.sessions
  {
  }

  // ---------- what a syncer answers to its own requests ----------

  function OwnIn(events: seq<SyncerEvent>): seq<SyncerEvent> {
    if events == [] then []
    else
      var e := events[|events| - 1];
      OwnIn(events[..|events| - 1]) + (if e.SelfJoined? || e.Limited? then [e] else [])
  }

  lemma {:induction false} OwnInAppend(a: seq<SyncerEvent>, b: seq<SyncerEvent>)
    ensures OwnIn(a + b) == OwnIn(a) + OwnIn(b)
  {
    if b == [] {
      assert a + b == a;
    } else {
      OwnInAppend(a, b[..|b| - 1]);
      assert (a + b)[..|a + b| - 1] == a + b[..|b| - 1];
    }
  }

  lemma {:induction false} PeersCauseNoAnswers(events: seq<SyncerEvent>, room: RoomId)
    requires AllInContext(events, room)
    ensures OwnIn(events) == []
  {
    if events == [] {
    } else {
      var n := |events| - 1;
      assert InContext(events[n], room);
      forall i | 0 <= i < n ensures InContext(events[..n][i], room) {
        assert InContext(events[i], room);
      }
      PeersCauseNoAnswers(events[..n], room);
    }
  }

  lemma DrainAnswersNothing(env: Env, s: Peer, bus: Bus)
    ensures OwnIn(PeerDrain(env, s, bus).2) == []
  {
    hide DrainAll, AllInContext;
    if s.room.Some? {
      var evs := s.inbox.events + LinkPoll(s.link, bus).2;
      DrainKeepsContext(env, s.room.value, s.table, s.inbox.failureEmitted, evs);
      PeersCauseNoAnswers(PeerDrain(env, s, bus).2, s.room.value);
    }
  }

  /** The answer to a request: a join is confirmed; a send is answered only if it is refused, under its kind. */
  function Answer(req: SyncerRequest, refused: bool): seq<SyncerEvent> {
    match req
    case Join(room, p) => [SelfJoined(room, p)]
    case SendPose(_, _) => if refused then [Limited(StreamKind.Pose)] else []
    case SendChat(_, _) => if refused then [Limited(StreamKind.Chat)] else []
    case SendVoiceFrame(_, _) => if refused then [Limited(Voice)] else []
  }

  /** What a join does at once: it sets the room, registers, puts the participant last in the table, and
    reports the end of an earlier session, the join, and only then its own success. */
  lemma JoinIsAnswered(env: Env, cfg: Limiter.Config, s: Peer, bus: Bus, room: RoomId, p: ParticipantId, now: int)
    requires Agrees(s.table)
    ensures var (s', _, events) := PeerAct(env, cfg, s, bus, SyncerRequest.Join(room, p), now);
      && s'.room == Some(room) && s'.link.registered && s'.sessions == s.sessions && s'.inbox == s.inbox
      && s'.table.order == Without(s.table.order, p) + [p]
      && s'.table.sessions == s.table.sessions[p := s.table.nextSession]
      && events == (if p in s.table.sessions then [PeerLeft(p)] else []) + [PeerJoined(p), SelfJoined(room, p)]
  {
    hide Rising, EndpointSend, JoinPayload;
    JoinKeepsAgreement(s.table, p);
    assert [PeerJoined(p)] + [SelfJoined(room, p)] == [PeerJoined(p), SelfJoined(room, p)];
    assert [] + [PeerJoined(p), SelfJoined(room, p)] == [PeerJoined(p), SelfJoined(room, p)];
  }

  lemma ActAnswers(env: Env, cfg: Limiter.Config, s: Peer, bus: Bus, req: SyncerRequest, now: int)
    ensures OwnIn(PeerAct(env, cfg, s, bus, req, now).2) == Answer(req, !Admit(env, cfg, s, RequestKind(req), now).1)
  {
    hide SendAll, LinkSend, Outgoing;
    var events := PeerAct(env, cfg, s, bus, req, now).2;
    if req.Join? {
      var p := req.participant;
      OwnInAppend(JoinStep(s.table, p).1, [SelfJoined(req.room, p)]);
      OwnInAppend(if p in s.table.sessions then [PeerLeft(p)] else [], [PeerJoined(p)]);
      OwnInOne(PeerLeft(p));
      OwnInOne(PeerJoined(p));
      OwnInOne(SelfJoined(req.room, p));
    } else {
      OwnInOne(Limited(RequestKind(req)));
    }
  }

  lemma OwnInOne(e: SyncerEvent)
    ensures OwnIn([e]) == if e.SelfJoined? || e.Limited? then [e] else []
  {
    assert [e][..0] == [];
  }

  lemma HandleAnswers(env: Env, cfg: Limiter.Config, s: Peer, bus: Bus, req: SyncerRequest, now: int)
    ensures OwnIn(PeerHandle(env, cfg, s, bus, req, now).2) == Answer(req, !Admit(env, cfg, s, RequestKind(req), now).1)
  {
    hide PeerDrain, PeerAct, OwnIn, Limiter.CheckAndRecord;
    var (s1, bus1, e1) := PeerDrain(env, s, bus);
    var (s2, bus2, e2) := PeerAct(env, cfg, s1, bus1, req, now);
    var (s3, bus3, e3) := PeerDrain(env, s2, bus2);
    DrainAnswersNothing(env, s, bus);
    DrainSendsNothing(env, s, bus);
    ActAnswers(env, cfg, s1, bus1, req, now);
    DrainAnswersNothing(env, s2, bus2);
    OwnInAppend(e2, e3);
    OwnInAppend(e1, e2 + e3);
  }

  /** All answers of a run; a send is refused when the window it falls into is spent. */
  function Answers(cfg: Limiter.Config, ops: History<Op>): seq<SyncerEvent> {
    match ops
    case Start => []
    case Then(before, op) =>
      Answers(cfg, before) +
        if op.Request? then Answer(op.req, Limiter.Spent(cfg, SendTimes(before), op.now)) else []
  }

  // ---------- the limiter bounds the batches ----------

  /** The times of the send requests of a run. */
  function SendTimes(ops: History<Op>): Line {
    match ops
    case Start => Start
    case Then(before, op) =>
      if op.Request? && !op.req.Join? then Then(SendTimes(before), op.now) else SendTimes(before)
  }

  /** The times of the send requests the limiter let pass: by the fan-out, no other sends anything. */
  function BatchTimes(env: Env, cfg: Limiter.Config, start: Peer, ops: History<Op>): Line {
    match ops
    case Start => Start
    case Then(before, op) =>
      var times := BatchTimes(env, cfg, start, before);
      if op.Request? && !op.req.Join? && Admit(env, cfg, Run(env, cfg, start, before).0, RequestKind(op.req), op.now).1
      then Then(times, op.now) else times
  }

  lemma StepSessions(env: Env, cfg: Limiter.Config, s: Peer, op: Op)
    ensures var (s', _) := Step(env, cfg, s, op);
      && s'.me == s.me
      && s'.sessions == if op.Request? && !op.req.Join?
        then Admit(env, cfg, s, RequestKind(op.req), op.now).0.sessions else s.sessions
  {
    hide PeerDrain, SendAll, LinkSend, Outgoing, JoinStep;
    match op
    case Request(req, now, bus) =>
      var (s1, bus1, _) := PeerDrain(env, s, bus);
      var (s2, bus2, _) := PeerAct(env, cfg, s1, bus1, req, now);
      DrainSendsNothing(env, s, bus);
      DrainSendsNothing(env, s2, bus2);
    case Poll(bus) => DrainSendsNothing(env, s, bus);
    case _ =>
  }

  lemma {:induction false} BatchesAreAdmitted(env: Env, cfg: Limiter.Config, me: ParticipantId, inner: Endpoint,
                                              ops: History<Op>)
    ensures var s := Run(env, cfg, NewPeer(me, inner), ops).0;
      && s.me == me
      && Limiter.Lookup(s.sessions, env.ids.ShowParticipant(me)) == Limiter.After(cfg, SendTimes(ops))
      && BatchTimes(env, cfg, NewPeer(me, inner), ops) == Limiter.Admitted(cfg, SendTimes(ops))
  {
    if ops.Start? {
    } else {
      BatchesAreAdmitted(env, cfg, me, inner, ops.past);
      hide Step;
      StepSessions(env, cfg, Run(env, cfg, NewPeer(me, inner), ops.past).0, ops.last);
    }
  }

  /** Over any run with a non-decreasing clock: exactly the requests are let pass that the session's windows
    leave room for, and the application is told exactly that, in order. */
  lemma {:induction false} AnswersExactly(env: Env, cfg: Limiter.Config, me: ParticipantId, inner: Endpoint,
                                          ops: History<Op>)
    requires cfg.limit > 0 && Sorted(SendTimes(ops))
    ensures OwnIn(Run(env, cfg, NewPeer(me, inner), ops).1) == Answers(cfg, ops)
    ensures BatchTimes(env, cfg, NewPeer(me, inner), ops) == Limiter.LetPass(cfg.limit, cfg.window, SendTimes(ops))
  {
    BatchesAreAdmitted(env, cfg, me, inner, ops);
    Limiter.AdmitsExactly(cfg, SendTimes(ops));
    if ops.Start? {
    } else {
      AnswersExactly(env, cfg, me, inner, ops.past);
      BatchesAreAdmitted(env, cfg, me, inner, ops.past);
      var (s, told) := Run(env, cfg, NewPeer(me, inner), ops.past);
      OwnInAppend(told, Step(env, cfg, s, ops.last).1);
      StepAnswers(env, cfg, s, ops.last, SendTimes(ops.past));
    }
  }

  lemma StepAnswers(env: Env, cfg: Limiter.Config, s: Peer, op: Op, times: Line)
    requires cfg.limit > 0
    requires Limiter.Lookup(s.sessions, env.ids.ShowParticipant(s.me)) == Limiter.After(cfg, times)
    requires op.Request? && !op.req.Join? ==> Sorted(Then(times, op.now))
    ensures OwnIn(Step(env, cfg, s, op).1) ==
      if op.Request? then Answer(op.req, Limiter.Spent(cfg, times, op.now)) else []
  {
    hide PeerHandle, PeerDrain, Limiter.Advance, Limiter.Spent;
    match op
    case Request(req, now, bus) =>
      HandleAnswers(env, cfg, s, bus, req, now);
      if !req.Join? {
        Limiter.RefusedExactly(cfg, times, now);
      }
    case Poll(bus) => DrainAnswersNothing(env, s, bus);
    case _ =>
  }

  /** Over any run with a non-decreasing clock, joins, polls and reconnects included, the batches sent in
    an interval of the window's length obey the fixed-window bound. */
  lemma BatchesAreBounded(env: Env, cfg: Limiter.Config, me: ParticipantId, inner: Endpoint, ops: History<Op>, lo: int)
    requires cfg.limit > 0 && Sorted(SendTimes(ops))
    ensures var batches := BatchTimes(env, cfg, NewPeer(me, inner), ops);
      && CountIn(batches, lo, lo + cfg.window) <= 2 * cfg.limit - 1
      && (cfg.window > 0 ==> CountIn(batches, lo, lo + cfg.window + 1) <= 2 * cfg.limit)
  {
    BatchesAreAdmitted(env, cfg, me, inner, ops);
    Limiter.FixedWindowBound(cfg, SendTimes(ops), lo);
  }

  // ---------- the limiter bounds the sends ----------

  /** The sends a step made the transport accept. */
  function NewCalls(s: Peer, s': Peer): seq<SendCall> {
    if |s.link.inner.calls| <= |s'.link.inner.calls| then s'.link.inner.calls[|s.link.inner.calls|..] else []
  }

  function CallsTo(calls: seq<SendCall>, q: ParticipantId): nat {
    if calls == [] then 0
    else CallsTo(calls[..|calls| - 1], q) + Bit(calls[|calls| - 1].dest == q)
  }

  lemma {:induction false} CopiesReachOnce(dests: seq<ParticipantId>, payload: TransportPayload, kind: StreamKind,
                                           q: ParticipantId)
    requires NoDup(dests)
    ensures CallsTo(Copies(dests, payload, kind), q) == Bit(q in dests)
  {
    if dests == [] {
    } else {
      var front := dests[..|dests| - 1];
      assert dests == front + [dests[|dests| - 1]];
      assert Copies(dests, payload, kind)[..|dests| - 1] == Copies(front, payload, kind);
      CopiesReachOnce(front, payload, kind, q);
    }
  }

  /** Where sends come from: a pose, chat or voice request that was admitted makes at most one to each
    participant, a join makes its announcement, and nothing else sends. */
  lemma StepSends(env: Env, cfg: Limiter.Config, s: Peer, op: Op, q: ParticipantId)
    requires Agrees(s.table)
    ensures var sent := NewCalls(s, Step(env, cfg, s, op).0);
      match op
      case Request(req, now, _) =>
        if req.Join? then
          sent == (if s.link.inner.registered || s.link.me == s.link.inner.me
                  then [SendCall(s.me, JoinPayload(env, req.participant), ForStream(ControlJoin))] else [])
        else CallsTo(sent, q) <= Bit(Admit(env, cfg, s, RequestKind(req), now).1)
      case Poll(_) => sent == []
      case Push(_) => sent == []
      case Reconnect(_) => true
  {
    match op
    case Request(req, now, bus) =>
      if req.Join? {
        JoinSends(env, cfg, s, bus, req, now);
      } else {
        DataSends(env, cfg, s, bus, req, now, q);
      }
    case Poll(bus) => DrainSendsNothing(env, s, bus);
    case _ =>
  }

  lemma JoinSends(env: Env, cfg: Limiter.Config, s: Peer, bus: Bus, req: SyncerRequest, now: int)
    requires req.Join?
    ensures PeerHandle(env, cfg, s, bus, req, now).0.link.inner.calls == s.link.inner.calls +
      (if s.link.inner.registered || s.link.me == s.link.inner.me
       then [SendCall(s.me, JoinPayload(env, req.participant), ForStream(ControlJoin))] else [])
  {
    hide DrainAll, JoinStep, JoinPayload, IsControl, Deliveries, Remaining, ReceivedIn;
    var (s1, bus1, _) := PeerDrain(env, s, bus);
    var (s2, bus2, _) := PeerAct(env, cfg, s1, bus1, req, now);
    DrainKeepsIdentity(env, s, bus);
    DrainSendsNothing(env, s, bus);
    DrainSendsNothing(env, s2, bus2);
    hide PeerDrain;
  }

  lemma DrainKeepsIdentity(env: Env, s: Peer, bus: Bus)
    ensures var s' := PeerDrain(env, s, bus).0;
      s'.link.me == s.link.me && s'.link.inner.me == s.link.inner.me
        && s'.link.inner.registered == s.link.inner.registered
  {
    hide DrainAll, Deliveries, Remaining, ReceivedIn;
  }

  lemma DataSends(env: Env, cfg: Limiter.Config, s: Peer, bus: Bus, req: SyncerRequest, now: int, q: ParticipantId)
    requires !req.Join? && Agrees(s.table)
    ensures CallsTo(NewCalls(s, PeerHandle(env, cfg, s, bus, req, now).0), q)
      <= Bit(Admit(env, cfg, s, RequestKind(req), now).1)
  {
    hide PeerHandle, PeerDrain, Rising, Copies, Without;
    FanOut(env, cfg, s, bus, req, now);
    DrainSendsNothing(env, s, bus);
    var s1 := PeerDrain(env, s, bus).0;
    var payload := RequestPayload(env, req);
    if payload.Some? {
      CopiesReachOnce(Without(s1.table.order, Sender(req)), payload.value, RequestKind(req), q);
    }
  }

  /** How a call goes out, by what it carries. */
  predicate GoesAs(call: SendCall, ordered: bool, reliable: bool) {
    call.payload.Encoded? && call.params == DataChannel(ordered, reliable, "sutera-data")
  }

  /** The parameters of every send of a step: poses go unordered and unreliably, chats and announcements
    ordered and reliably, all on one named channel; audio frames, and nothing else, go on the audio track. */
  lemma StepParams(env: Env, cfg: Limiter.Config, s: Peer, op: Op, i: nat)
    requires Agrees(s.table) && !op.Reconnect? && i < |NewCalls(s, Step(env, cfg, s, op).0)|
    ensures var call := NewCalls(s, Step(env, cfg, s, op).0)[i];
      && op.Request?
      && (op.req.SendPose? ==> GoesAs(call, false, false))
      && (op.req.SendChat? ==> GoesAs(call, true, true))
      && (op.req.Join? ==> GoesAs(call, true, true))
      && (op.req.SendVoiceFrame? ==> call.payload == AudioFrame(op.req.frame))
      && (call.params.AudioTrack? <==> call.payload.AudioFrame?)
  {
    hide Rising, PeerHandle, PeerDrain, RequestPayload;
    match op
    case Request(req, now, bus) =>
      if req.Join? {
        JoinSends(env, cfg, s, bus, req, now);
      } else {
        hide ForStream;
        DataCalls(env, cfg, s, bus, req, now, i);
        ParamsOfKinds();
        PayloadsOfRequests(env, req);
      }
    case Poll(bus) => DrainSendsNothing(env, s, bus);
    case _ =>
  }

  lemma DataCalls(env: Env, cfg: Limiter.Config, s: Peer, bus: Bus, req: SyncerRequest, now: int, i: nat)
    requires !req.Join? && Agrees(s.table) && i < |NewCalls(s, PeerHandle(env, cfg, s, bus, req, now).0)|
    ensures var call := NewCalls(s, PeerHandle(env, cfg, s, bus, req, now).0)[i];
      RequestPayload(env, req) == Some(call.payload) && call.params == ForStream(RequestKind(req))
  {
    hide PeerHandle, PeerDrain, Rising, Without, ForStream;
    FanOut(env, cfg, s, bus, req, now);
  }

  lemma ParamsOfKinds()
    ensures ForStream(StreamKind.Pose) == DataChannel(false, false, "sutera-data")
    ensures ForStream(StreamKind.Chat) == ForStream(ControlJoin) == DataChannel(true, true, "sutera-data")
    ensures ForStream(Voice) == AudioTrack
  {
  }

  lemma PayloadsOfRequests(env: Env, req: SyncerRequest)
    ensures RequestPayload(env, req).Some? ==>
      if req.SendVoiceFrame? then RequestPayload(env, req).value == AudioFrame(req.frame)
      else RequestPayload(env, req).value.Encoded?
  {
  }

  /** How many poses, chats and voice frames the transport accepted for `q` at times in [lo, hi). */
  function SentTo(env: Env, cfg: Limiter.Config, start: Peer, ops: History<Op>, q: ParticipantId, lo: int, hi: int)
    : nat
  {
    match ops
    case Start => 0
    case Then(before, op) =>
      var s := Run(env, cfg, start, before).0;
      SentTo(env, cfg, start, before, q, lo, hi) +
        if op.Request? && !op.req.Join? && lo <= op.now < hi
        then CallsTo(NewCalls(s, Step(env, cfg, s, op).0), q) else 0
  }

  lemma {:induction false} SendsNeedBatches(env: Env, cfg: Limiter.Config, me: ParticipantId, inner: Endpoint,
                                            ops: History<Op>,
                                            q: ParticipantId, lo: int, hi: int)
    ensures SentTo(env, cfg, NewPeer(me, inner), ops, q, lo, hi)
      <= CountIn(BatchTimes(env, cfg, NewPeer(me, inner), ops), lo, hi)
  {
    if ops.Start? {
    } else {
      hide Step, Rising, Replay;
      SendsNeedBatches(env, cfg, me, inner, ops.past, q, lo, hi);
      RunTellsTable(env, cfg, me, inner, ops.past);
      StepSends(env, cfg, Run(env, cfg, NewPeer(me, inner), ops.past).0, ops.last, q);
    }
  }

  /** Over any run with a non-decreasing clock, no participant is sent more poses, chats and voice frames in
    an interval of the window's length than the fixed window allows. */
  lemma SendsAreBounded(env: Env, cfg: Limiter.Config, me: ParticipantId, inner: Endpoint, ops: History<Op>,
                        q: ParticipantId, lo: int)
    requires cfg.limit > 0 && Sorted(SendTimes(ops))
    ensures SentTo(env, cfg, NewPeer(me, inner), ops, q, lo, lo + cfg.window) <= 2 * cfg.limit - 1
    ensures cfg.window > 0 ==> SentTo(env, cfg, NewPeer(me, inner), ops, q, lo, lo + cfg.window + 1) <= 2 * cfg.limit
  {
    BatchesAreBounded(env, cfg, me, inner, ops, lo);
    SendsNeedBatches(env, cfg, me, inner, ops, q, lo, lo + cfg.window);
    SendsNeedBatches(env, cfg, me, inner, ops, q, lo, lo + cfg.window + 1);
  }

  // ---------- announcements ----------

  /** Ids print and parse faithfully, floats convert faithfully, and an announcement, which holds one
    printed id, fits into an envelope. */
  ghost predicate Sane(env: Env) {
    && env.ids.Faithful() && env.floats.Faithful()
    && forall p :: JoinPayload(env, p).bytes.size <= MAX_ENVELOPE_BYTES
  }

  function Announcement(env: Env, p: ParticipantId): SyncMessage {
    Control(ControlMessage.Join(ControlPayload(env.ids.ShowParticipant(p), None, None)))
  }

  lemma AnnouncementArrives(env: Env, p: ParticipantId)
    requires Sane(env)
    ensures ParseSyncMessage(env.floats, JoinPayload(env, p).bytes) == Ok(Announcement(env, p))
  {
    hide ParseSyncMessage;
    WireRoundTrip(env.floats, env.size, Announcement(env, p));
  }

  /** Receiving the announcement of `p` is `p` joining. */
  lemma AnnouncementJoins(env: Env, room: RoomId, t: Table, from: ParticipantId, p: ParticipantId)
    requires Sane(env)
    ensures OnReceived(env, room, t, from, JoinPayload(env, p)) == JoinStep(t, p)
  {
    hide ParseSyncMessage, JoinStep;
    AnnouncementArrives(env, p);
  }

  /** A failure takes a registered participant out if and only if it is the first one reported for it to
    this inbox; the inbox does not forget when the participant comes back. */
  lemma FailureRemovesOnlyOnce(env: Env, room: RoomId, d: Drained, from: ParticipantId, p: ParticipantId)
    requires Sane(env) && p in d.table.sessions
    ensures p !in DrainOne(env, room, d, Failure(p)).table.sessions <==> p !in d.failureEmitted
    ensures var again :=
      DrainAll(env, room, d.table, {}, [Failure(p), Received(from, JoinPayload(env, p)), Failure(p)]);
      p in again.table.sessions && again.out == [PeerLeft(p), PeerJoined(p)]
  {
    hide OnReceived;
    var evs := [Failure(p), Received(from, JoinPayload(env, p)), Failure(p)];
    assert evs[..2] == [Failure(p), Received(from, JoinPayload(env, p))];
    assert evs[..2][..1] == [Failure(p)] && [Failure(p)][..0] == [];
    assert DrainAll(env, room, d.table, {}, [Failure(p)]) == DrainOne(env, room, Drained(d.table, {}, []), Failure(p));
    var gone := DrainAll(env, room, d.table, {}, [Failure(p)]);
    assert gone.out == [PeerLeft(p)];
    AnnouncementJoins(env, room, gone.table, from, p);
  }
}
