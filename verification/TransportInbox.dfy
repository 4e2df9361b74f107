/** The buffer between the transport and the participant table: what was received is decoded, turned into
  events, and applied to the table.
*/
module TransportInboxes {
  import opened Wrappers
  import opened Ids
  import opened Streams
  import opened Json
  import opened Messages
  import opened SyncerTypes
  import opened ParticipantTables

  datatype Inbox = Inbox(events: seq<TransportEvent>, failureEmitted: set<ParticipantId>)

  /** Table and failure bookkeeping so far, and the events emitted so far. */
  datatype Drained = Drained(table: Table, failureEmitted: set<ParticipantId>, out: seq<SyncerEvent>)

  function KindOf(m: SyncMessage): StreamKind {
    match m
    case Pose(_) => StreamKind.Pose
    case Chat(_) => StreamKind.Chat
    case Control(control) => ControlKind(control)
    case Signaling(signaling) => SignalingKind(signaling)
  }

  const NOT_FOR_DATA_CHANNEL: SyncerEvent :=
    SyncerEvent.Error(InvalidPayload(UnknownKind("control_or_signaling_in_data_channel")))

  function OnMessage(env: Env, room: RoomId, t: Table, from: ParticipantId, m: SyncMessage): (Table, seq<SyncerEvent>) {
    var ctx := TracingContext(room, from, KindOf(m));
    match m
    case Pose(pose) => (t, [PoseReceived(from, pose, ctx)])
    case Chat(chat) => (t, [ChatReceived(chat, ctx)])
    case Control(control) => PendingStep(env.ids, t, Pending(control))
    case Signaling(_) => (t, [NOT_FOR_DATA_CHANNEL])
  }

  function OnReceived(env: Env, room: RoomId, t: Table, from: ParticipantId, payload: TransportPayload)
    : (Table, seq<SyncerEvent>)
  {
    match payload
    case AudioFrame(frame) => (t, [VoiceFrameReceived(from, frame, TracingContext(room, from, Voice))])
    case Encoded(bytes) =>
      match ParseSyncMessage(env.floats, bytes)
      case Ok(m) => OnMessage(env, room, t, from, m)
      case Err(error) => (t, [SyncerEvent.Error(InvalidPayload(error))])
  }

  /** A failure of a participant that is not registered is still reported once. */
  function OnFailure(t: Table, peer: ParticipantId): (Table, seq<SyncerEvent>) {
    var (t', events) := LeaveStep(t, peer);
    (t', if events == [] then [PeerLeft(peer)] else events)
  }

  function DrainOne(env: Env, room: RoomId, d: Drained, ev: TransportEvent): Drained {
    match ev
    case Received(from, payload) =>
      var (t, events) := OnReceived(env, room, d.table, from, payload);
      Drained(t, d.failureEmitted, d.out + events)
    case Failure(peer) =>
      if peer in d.failureEmitted then d
      else
        var (t, events) := OnFailure(d.table, peer);
        Drained(t, d.failureEmitted + {peer}, d.out + events)
  }

  function DrainAll(env: Env, room: RoomId, t: Table, failureEmitted: set<ParticipantId>, events: seq<TransportEvent>)
    : Drained
  {
    if events == [] then Drained(t, failureEmitted, [])
    else DrainOne(env, room, DrainAll(env, room, t, failureEmitted, events[..|events| - 1]), events[|events| - 1])
  }

  class TransportInbox {
    var events: seq<TransportEvent>
    var failureEmitted: set<ParticipantId>

    ghost function Contents(): Inbox
      reads this
    {
      Inbox(events, failureEmitted)
    }

    constructor ()
      ensures Contents() == Inbox([], {})
    {
      events, failureEmitted := [], {};
    }

    method Push(ev: TransportEvent)
      modifies this`events
      ensures Contents() == Inbox(old(events) + [ev], failureEmitted)
    {
      events := events + [ev];
    }

    method DrainIntoEvents(env: Env, room: RoomId, table: ParticipantTable) returns (out: seq<SyncerEvent>)
      modifies this, table
      ensures Drained(table.Contents(), failureEmitted, out)
           == DrainAll(env, room, old(table.Contents()), old(failureEmitted), old(events))
      ensures events == []
    {
      out := [];
      var taken := events;
      events := [];
      for i := 0 to |taken|
        invariant events == []
        invariant Drained(table.Contents(), failureEmitted, out)
               == DrainAll(env, room, old(table.Contents()), old(failureEmitted), taken[..i])
      {
        assert taken[..i + 1][..i] == taken[..i];
        match taken[i]
        case Received(from, AudioFrame(frame)) =>
          out := out + [VoiceFrameReceived(from, frame, TracingContext(room, from, Voice))];
        case Received(from, Encoded(bytes)) =>
          var more := HandleBytes(env, room, table, from, ParseSyncMessage(env.floats, bytes));
          out := out + more;
        case Failure(peer) =>
          if peer !in failureEmitted {
            failureEmitted := failureEmitted + {peer};
            var more := table.ApplyLeave(peer);
            if more == [] {
              more := [PeerLeft(peer)];
            }
            out := out + more;
          }
      }
      assert taken[..|taken|] == taken;
    }

    method HandleBytes(env: Env, room: RoomId, table: ParticipantTable, from: ParticipantId,
                       parsed: Outcome<SyncMessage>)
      returns (out: seq<SyncerEvent>)
      modifies table
      ensures parsed.Ok? ==> (table.Contents(), out) == OnMessage(env, room, old(table.Contents()), from, parsed.value)
      ensures parsed.Err? ==>
        table.Contents() == old(table.Contents()) && out == [SyncerEvent.Error(InvalidPayload(parsed.error))]
    {
      match parsed
      case Err(error) => out := [SyncerEvent.Error(InvalidPayload(error))];
      case Ok(Pose(pose)) => out := [PoseReceived(from, pose, TracingContext(room, from, StreamKind.Pose))];
      case Ok(Chat(chat)) => out := [ChatReceived(chat, TracingContext(room, from, StreamKind.Chat))];
      case Ok(Control(control)) => out := table.ApplyPendingPeerEvent(env.ids, Pending(control));
      case Ok(Signaling(_)) => out := [NOT_FOR_DATA_CHANNEL];
    }
  }

  // ---------- the events tell the table ----------

  /** What one transport event emits, replayed by a listener, is what it does to the table. */
  lemma DrainOneReplays(env: Env, room: RoomId, start: seq<ParticipantId>, d: Drained, ev: TransportEvent)
    requires Agrees(d.table) && Replay(start, d.out) == d.table.order
    ensures var d' := DrainOne(env, room, d, ev);
      Agrees(d'.table) && Replay(start, d'.out) == d'.table.order
  {
    hide Replay, Rising, ParseSyncMessage;
    match ev
    case Received(from, payload) =>
      var (t, events) := OnReceived(env, room, d.table, from, payload);
      ReplayAppend(start, d.out, events);
      if payload.Encoded? && ParseSyncMessage(env.floats, payload.bytes).Ok?
         && ParseSyncMessage(env.floats, payload.bytes).value.Control? {
        PendingReplays(env.ids, d.table, Pending(ParseSyncMessage(env.floats, payload.bytes).value.control));
      } else {
        ReplayOne(d.table.order, events[0]);
      }
    case Failure(peer) =>
      var (t, events) := OnFailure(d.table, peer);
      LeaveKeepsAgreement(d.table, peer);
      ReplayAppend(start, d.out, events);
      ReplayOne(d.table.order, PeerLeft(peer));
  }

  lemma {:induction false} DrainReplays(env: Env, room: RoomId, t: Table, failureEmitted: set<ParticipantId>,
                                        events: seq<TransportEvent>)
    requires Agrees(t)
    ensures var d := DrainAll(env, room, t, failureEmitted, events);
      Agrees(d.table) && Replay(t.order, d.out) == d.table.order
  {
    hide Rising, DrainOne;
    if events == [] {
    } else {
      var front := events[..|events| - 1];
      DrainReplays(env, room, t, failureEmitted, front);
      DrainOneReplays(env, room, t.order, DrainAll(env, room, t, failureEmitted, front), events[|events| - 1]);
    }
  }

  // ---------- joins and leaves balance ----------

  function Bit(b: bool): nat { if b then 1 else 0 }

  function Joins(events: seq<SyncerEvent>, p: ParticipantId): nat { multiset(events)[PeerJoined(p)] }

  function Leaves(events: seq<SyncerEvent>, p: ParticipantId): nat { multiset(events)[PeerLeft(p)] }

  /** Whether this event signals the failure of `p` for the first time while `p` is not registered. */
  predicate Unmatched(d: Drained, ev: TransportEvent, p: ParticipantId) {
    ev == Failure(p) && p !in d.failureEmitted && p !in d.table.sessions
  }

  function UnmatchedAll(env: Env, room: RoomId, t: Table, failureEmitted: set<ParticipantId>,
                        events: seq<TransportEvent>, p: ParticipantId): nat {
    if events == [] then 0
    else
      var front := events[..|events| - 1];
      UnmatchedAll(env, room, t, failureEmitted, front, p)
        + Bit(Unmatched(DrainAll(env, room, t, failureEmitted, front), events[|events| - 1], p))
  }

  lemma JoinBalances(t: Table, q: ParticipantId, p: ParticipantId)
    ensures var (t', events) := JoinStep(t, q);
      Joins(events, p) + Bit(p in t.sessions) == Leaves(events, p) + Bit(p in t'.sessions)
  {
  }

  lemma LeaveBalances(t: Table, q: ParticipantId, p: ParticipantId)
    ensures var (t', events) := LeaveStep(t, q);
      && Joins(events, p) + Bit(p in t.sessions) == Leaves(events, p) + Bit(p in t'.sessions)
      && (events == [] <==> q !in t.sessions)
  {
  }

  lemma ReceivedBalances(env: Env, room: RoomId, t: Table, from: ParticipantId, payload: TransportPayload,
                         p: ParticipantId)
    ensures var (t', events) := OnReceived(env, room, t, from, payload);
      Joins(events, p) + Bit(p in t.sessions) == Leaves(events, p) + Bit(p in t'.sessions)
  {
    hide ParseSyncMessage, JoinStep, LeaveStep;
    if payload.Encoded? && ParseSyncMessage(env.floats, payload.bytes).Ok?
       && ParseSyncMessage(env.floats, payload.bytes).value.Control? {
      var control := ParseSyncMessage(env.floats, payload.bytes).value.control;
      var q := env.ids.ParseParticipant(control.payload.participantId);
      if q.Some? {
        JoinBalances(t, q.value, p);
        LeaveBalances(t, q.value, p);
      }
    }
  }

  lemma DrainOneBalances(env: Env, room: RoomId, d: Drained, ev: TransportEvent, p: ParticipantId)
    ensures var d' := DrainOne(env, room, d, ev);
      && Joins(d'.out, p) + Leaves(d.out, p) + Bit(Unmatched(d, ev, p)) + Bit(p in d.table.sessions)
      == Leaves(d'.out, p) + Joins(d.out, p) + Bit(p in d'.table.sessions)
      && Bit(p in d.failureEmitted) + Bit(Unmatched(d, ev, p)) <= Bit(p in d'.failureEmitted)
  {
    hide OnReceived;
    match ev
    case Received(from, payload) => ReceivedBalances(env, room, d.table, from, payload, p);
    case Failure(peer) => LeaveBalances(d.table, peer, p);
  }

  /** Draining conserves: joins plus unmatched failures account for leaves and for the table; and unmatched
    failures of one participant happen at most once per inbox. */
  lemma {:induction false} DrainBalances(env: Env, room: RoomId, t: Table, failureEmitted: set<ParticipantId>,
                                         events: seq<TransportEvent>, p: ParticipantId)
    ensures var d := DrainAll(env, room, t, failureEmitted, events);
      var k := UnmatchedAll(env, room, t, failureEmitted, events, p);
      && Joins(d.out, p) + k + Bit(p in t.sessions) == Leaves(d.out, p) + Bit(p in d.table.sessions)
      && Bit(p in failureEmitted) + k <= Bit(p in d.failureEmitted)
  {
    if events == [] {
    } else {
      var front := events[..|events| - 1];
      hide DrainOne, Joins, Leaves, Unmatched;
      DrainBalances(env, room, t, failureEmitted, front, p);
      DrainOneBalances(env, room, DrainAll(env, room, t, failureEmitted, front), events[|events| - 1], p);
    }
  }

  // ---------- what the peers say reaches the application ----------

  /** What a peer said, apart from membership, and what was wrong with what it said. */
  datatype Content =
    | Posed(from: ParticipantId, pose: PoseMessage)
    | Chatted(from: ParticipantId, chat: ChatMessage)
    | Voiced(from: ParticipantId, frame: seq<bv8>)
    | Complained(error: SyncerError)

  function ContentOfEvent(e: SyncerEvent): seq<Content> {
    match e
    case PoseReceived(from, pose, _) => [Posed(from, pose)]
    case ChatReceived(chat, ctx) => [Chatted(ctx.participant, chat)]
    case VoiceFrameReceived(from, frame, _) => [Voiced(from, frame)]
    case Error(error) => [Complained(error)]
    case _ => []
  }

  function ContentIn(events: seq<SyncerEvent>): seq<Content> {
    if events == [] then [] else ContentIn(events[..|events| - 1]) + ContentOfEvent(events[|events| - 1])
  }

  function ContentOf(env: Env, ev: TransportEvent): seq<Content> {
    match ev
    case Failure(_) => []
    case Received(from, AudioFrame(frame)) => [Voiced(from, frame)]
    case Received(from, Encoded(bytes)) =>
      match ParseSyncMessage(env.floats, bytes)
      case Ok(Pose(pose)) => [Posed(from, pose)]
      case Ok(Chat(chat)) => [Chatted(from, chat)]
      case Ok(Control(control)) =>
        var id := control.payload.participantId;
        if env.ids.ParseParticipant(id).None? then [Complained(InvalidParticipantId(id))] else []
      case Ok(Signaling(_)) => [Complained(InvalidPayload(UnknownKind("control_or_signaling_in_data_channel")))]
      case Err(error) => [Complained(InvalidPayload(error))]
  }

  function ContentOfAll(env: Env, evs: seq<TransportEvent>): seq<Content> {
    if evs == [] then [] else ContentOfAll(env, evs[..|evs| - 1]) + ContentOf(env, evs[|evs| - 1])
  }

  lemma {:induction false} ContentInAppend(a: seq<SyncerEvent>, b: seq<SyncerEvent>)
    ensures ContentIn(a + b) == ContentIn(a) + ContentIn(b)
  {
    hide ContentOfEvent;
    if b == [] {
      assert a + b == a;
    } else {
      ContentInAppend(a, b[..|b| - 1]);
      assert (a + b)[..|a + b| - 1] == a + b[..|b| - 1];
    }
  }

  lemma {:induction false} ContentOfAllAppend(env: Env, a: seq<TransportEvent>, b: seq<TransportEvent>)
    ensures ContentOfAll(env, a + b) == ContentOfAll(env, a) + ContentOfAll(env, b)
  {
    hide ContentOf;
    if b == [] {
      assert a + b == a;
    } else {
      ContentOfAllAppend(env, a, b[..|b| - 1]);
      assert (a + b)[..|a + b| - 1] == a + b[..|b| - 1];
    }
  }

  lemma ContentInOne(e: SyncerEvent)
    ensures ContentIn([e]) == ContentOfEvent(e)
  {
    assert [e][..0] == [];
  }

  /** Membership events carry no content. */
  lemma MembershipHasNoContent(t: Table, p: ParticipantId)
    ensures ContentIn(JoinStep(t, p).1) == [] && ContentIn(LeaveStep(t, p).1) == []
  {
    ContentInOne(PeerLeft(p));
    ContentInOne(PeerJoined(p));
    ContentInAppend([PeerLeft(p)], [PeerJoined(p)]);
    assert [] + [PeerJoined(p)] == [PeerJoined(p)];
  }

  lemma DrainOneShows(env: Env, room: RoomId, d: Drained, ev: TransportEvent)
    ensures ContentIn(DrainOne(env, room, d, ev).out) == ContentIn(d.out) + ContentOf(env, ev)
  {
    hide ContentIn, ParseSyncMessage, JoinStep, LeaveStep;
    match ev
    case Received(from, payload) =>
      var (t, events) := OnReceived(env, room, d.table, from, payload);
      ContentInAppend(d.out, events);
      var parsed := if payload.Encoded? then ParseSyncMessage(env.floats, payload.bytes) else Err(MissingVersion);
      if parsed.Ok? && parsed.value.Control? {
        var p := env.ids.ParseParticipant(parsed.value.control.payload.participantId);
        if p.Some? {
          MembershipHasNoContent(d.table, p.value);
        } else {
          ContentInOne(events[0]);
        }
      } else {
        ContentInOne(events[0]);
      }
    case Failure(peer) =>
      ContentInAppend(d.out, OnFailure(d.table, peer).1);
      MembershipHasNoContent(d.table, peer);
      ContentInOne(PeerLeft(peer));
  }

  /** Draining turns every pose, chat and voice frame received, and everything that cannot be used, into one
    event, in order, whatever else is received in between and whoever is registered. */
  lemma {:induction false} DrainShows(env: Env, room: RoomId, t: Table, failureEmitted: set<ParticipantId>,
                                      events: seq<TransportEvent>)
    ensures ContentIn(DrainAll(env, room, t, failureEmitted, events).out) == ContentOfAll(env, events)
  {
    hide DrainOne, ContentOf;
    if events == [] {
    } else {
      var front := events[..|events| - 1];
      DrainShows(env, room, t, failureEmitted, front);
      DrainOneShows(env, room, DrainAll(env, room, t, failureEmitted, front), events[|events| - 1]);
    }
  }

  /** The context of an event is the room and the kind of what was received, and its sender. */
  predicate InContext(e: SyncerEvent, room: RoomId) {
    match e
    case PoseReceived(from, _, ctx) => ctx == TracingContext(room, from, StreamKind.Pose)
    case ChatReceived(_, ctx) => ctx.room == room && ctx.kind == StreamKind.Chat
    case VoiceFrameReceived(from, _, ctx) => ctx == TracingContext(room, from, Voice)
    case SelfJoined(_, _) => false
    case Limited(_) => false
    case _ => true
  }

  ghost predicate AllInContext(events: seq<SyncerEvent>, room: RoomId) {
    forall i :: 0 <= i < |events| ==> InContext(events[i], room)
  }

  /** Draining emits nothing but what peers cause, in the context of the room. */
  lemma {:induction false} DrainKeepsContext(env: Env, room: RoomId, t: Table, failureEmitted: set<ParticipantId>,
                                             events: seq<TransportEvent>)
    ensures AllInContext(DrainAll(env, room, t, failureEmitted, events).out, room)
  {
    hide DrainOne, AllInContext;
    if events == [] {
      NothingInContext(room);
    } else {
      var front := events[..|events| - 1];
      DrainKeepsContext(env, room, t, failureEmitted, front);
      DrainOneContext(env, room, DrainAll(env, room, t, failureEmitted, front), events[|events| - 1]);
    }
  }

  lemma NothingInContext(room: RoomId)
    ensures AllInContext([], room)
  {
  }

  lemma DrainOneContext(env: Env, room: RoomId, d: Drained, ev: TransportEvent)
    requires AllInContext(d.out, room)
    ensures AllInContext(DrainOne(env, room, d, ev).out, room)
  {
    hide ParseSyncMessage;
  }

  // ---------- what control messages do ----------

  /** The bytes of a control message about the participant `text` names. */
  function ControlBytes(env: Env, joined: bool, text: string, token: Option<string>, why: Option<string>): Bytes {
    var payload := ControlPayload(text, token, why);
    ToBytes(env.size, FromControl(if joined then ControlMessage.Join(payload) else ControlMessage.Leave(payload)).value)
  }

  lemma ControlBytesParse(env: Env, joined: bool, text: string, token: Option<string>, why: Option<string>)
    requires env.floats.Faithful() && ControlBytes(env, joined, text, token, why).size <= 65_536
    ensures var payload := ControlPayload(text, token, why);
      ParseSyncMessage(env.floats, ControlBytes(env, joined, text, token, why))
        == Ok(Control(if joined then ControlMessage.Join(payload) else ControlMessage.Leave(payload)))
  {
    hide ParseSyncMessage;
    var payload := ControlPayload(text, token, why);
    WireRoundTrip(env.floats, env.size,
                  Control(if joined then ControlMessage.Join(payload) else ControlMessage.Leave(payload)));
  }

  /** The table with `q` taken out of both indexes, and nothing else changed. */
  function Removed(t: Table, q: ParticipantId): Table {
    Table(t.sessions - {q}, Without(t.order, q), t.nextSession)
  }

  /** A leave received from anybody, about whatever participant the text names: a registered one is taken out
    of both indexes and reported once, an unregistered one is ignored, and a text that names nobody is
    reported as it is. */
  lemma LeaveReceived(env: Env, room: RoomId, t: Table, from: ParticipantId, text: string, token: Option<string>,
                      why: Option<string>)
    requires env.floats.Faithful() && Agrees(t) && ControlBytes(env, false, text, token, why).size <= 65_536
    ensures var q := env.ids.ParseParticipant(text);
      OnReceived(env, room, t, from, Encoded(ControlBytes(env, false, text, token, why))) ==
        if q.None? then (t, [SyncerEvent.Error(InvalidParticipantId(text))])
        else if q.value in t.sessions then (Removed(t, q.value), [PeerLeft(q.value)])
        else (t, [])
  {
    hide ParseSyncMessage, Rising;
    ControlBytesParse(env, false, text, token, why);
    var q := env.ids.ParseParticipant(text);
    if q.Some? {
      LeaveKeepsAgreement(t, q.value);
    }
  }

  /** A join received from anybody: the participant named is put last in the order, with a new session
    number, and reported; one that was registered is reported as having left first. */
  lemma JoinReceived(env: Env, room: RoomId, t: Table, from: ParticipantId, text: string, token: Option<string>,
                     why: Option<string>)
    requires env.floats.Faithful() && Agrees(t) && ControlBytes(env, true, text, token, why).size <= 65_536
    ensures var q := env.ids.ParseParticipant(text);
      OnReceived(env, room, t, from, Encoded(ControlBytes(env, true, text, token, why))) ==
        if q.None? then (t, [SyncerEvent.Error(InvalidParticipantId(text))])
        else
          (Table(t.sessions[q.value := t.nextSession], Without(t.order, q.value) + [q.value], t.nextSession + 1),
           if q.value in t.sessions then [PeerLeft(q.value), PeerJoined(q.value)] else [PeerJoined(q.value)])
  {
    hide ParseSyncMessage, Rising;
    ControlBytesParse(env, true, text, token, why);
    var q := env.ids.ParseParticipant(text);
    if q.Some? {
      JoinKeepsAgreement(t, q.value);
      assert [PeerLeft(q.value)] + [PeerJoined(q.value)] == [PeerLeft(q.value), PeerJoined(q.value)];
      assert [] + [PeerJoined(q.value)] == [PeerJoined(q.value)];
    }
  }

  /** The event is a control message, a join or a leave, that names `p`. */
  predicate Says(env: Env, ev: TransportEvent, joined: bool, p: ParticipantId) {
    ev.Received? && ev.payload.Encoded? &&
    var parsed := ParseSyncMessage(env.floats, ev.payload.bytes);
    parsed.Ok? && parsed.value.Control? && parsed.value.control.Join? == joined
    && env.ids.ParseParticipant(parsed.value.control.payload.participantId) == Some(p)
  }

  /** Whether `p` is there at the end, if it was at the beginning: the last word about it decides. Of its
    failures only the first counts, and only if none was reported before. */
  predicate Standing(env: Env, here: bool, reported: bool, evs: seq<TransportEvent>, p: ParticipantId) {
    if evs == [] then here
    else
      var front, ev := evs[..|evs| - 1], evs[|evs| - 1];
      if Says(env, ev, true, p) then true
      else if Says(env, ev, false, p) then false
      else if ev == Failure(p) && !reported && Failure(p) !in front then false
      else Standing(env, here, reported, front, p)
  }

  lemma DrainOneStanding(env: Env, room: RoomId, d: Drained, ev: TransportEvent, p: ParticipantId)
    ensures var d' := DrainOne(env, room, d, ev);
      && (p in d'.table.sessions <==>
            if Says(env, ev, true, p) then true
            else if Says(env, ev, false, p) || (ev == Failure(p) && p !in d.failureEmitted) then false
            else p in d.table.sessions)
      && (p in d'.failureEmitted <==> p in d.failureEmitted || ev == Failure(p))
  {
    hide ParseSyncMessage;
  }

  /** Who is registered after draining any events follows from the last word about each. */
  lemma {:induction false} LastWordDecides(env: Env, room: RoomId, t: Table, failureEmitted: set<ParticipantId>,
                                           events: seq<TransportEvent>, p: ParticipantId)
    ensures var d := DrainAll(env, room, t, failureEmitted, events);
      && (p in d.table.sessions <==> Standing(env, p in t.sessions, p in failureEmitted, events, p))
      && (p in d.failureEmitted <==> p in failureEmitted || Failure(p) in events)
  {
    hide DrainOne, Says;
    if events == [] {
    } else {
      var front, ev := events[..|events| - 1], events[|events| - 1];
      assert events == front + [ev];
      LastWordDecides(env, room, t, failureEmitted, front, p);
      DrainOneStanding(env, room, DrainAll(env, room, t, failureEmitted, front), ev, p);
    }
  }
}
