/** The handler of one connection: each text message is one atomic step on the shared rooms, the shared
  mailboxes and the handler's own state.
*/
module WsHandler {
  import opened Wrappers
  import opened Ids
  import opened BloomApi
  import opened Rooms
  import Limiter = SlidingLimiter

  /** What every participant was sent through the broadcast, oldest first. */
  type Mail = map<ParticipantId, seq<ServerToClient>>

  function MailOf(mail: Mail, p: ParticipantId): seq<ServerToClient> {
    if p in mail then mail[p] else []
  }

  function SendTo(mail: Mail, p: ParticipantId, message: ServerToClient): Mail {
    mail[p := MailOf(mail, p) + [message]]
  }

  function SendEach(mail: Mail, ps: seq<ParticipantId>, message: ServerToClient): Mail {
    if ps == [] then mail
    else SendTo(SendEach(mail, ps[..|ps| - 1], message), ps[|ps| - 1], message)
  }

  /** A broadcast puts the message once into the mailbox of everyone listed, and nowhere else. */
  lemma {:induction false} SendEachReaches(mail: Mail, ps: seq<ParticipantId>, message: ServerToClient,
                                           p: ParticipantId)
    requires NoDup(ps)
    ensures MailOf(SendEach(mail, ps, message), p) == MailOf(mail, p) + (if p in ps then [message] else [])
  {
    if ps == [] {
    } else {
      var front := ps[..|ps| - 1];
      assert ps == front + [ps[|ps| - 1]];
      SendEachReaches(mail, front, message, p);
    }
  }

  class Broadcast {
    var mail: Mail

    constructor ()
      ensures mail == map[]
    {
      mail := map[];
    }

    method Send(p: ParticipantId, message: ServerToClient)
      modifies this
      ensures mail == SendTo(old(mail), p, message)
    {
      mail := mail[p := (if p in mail then mail[p] else []) + [message]];
    }

    method SendAll(ps: seq<ParticipantId>, message: ServerToClient)
      modifies this
      ensures mail == SendEach(old(mail), ps, message)
    {
      for i := 0 to |ps|
        invariant mail == SendEach(old(mail), ps[..i], message)
      {
        assert ps[..i + 1][..i] == ps[..i];
        Send(ps[i], message);
      }
      assert ps[..|ps|] == ps;
    }
  }

  datatype Hub = Hub(rooms: RoomTable, mail: Mail)

  datatype Conn = Conn(me: ParticipantId, room: Option<RoomId>, limiter: Limiter.State, sink: seq<ServerToClient>)

  function Reply(conn: Conn, message: ServerToClient): Conn {
    conn.(sink := conn.sink + [message])
  }

  function Fail(conn: Conn, code: ErrorCode, message: string): Conn {
    Reply(conn, Error(code, message))
  }

  function DoCreate(ids: UuidText, hub: Hub, conn: Conn, id: RoomId): (Hub, Conn) {
    (hub.(rooms := Created(hub.rooms, id, conn.me)),
     Reply(conn.(room := Some(id)), RoomCreated(ids.ShowRoom(id), ids.ShowParticipant(conn.me))))
  }

  /** The roster announced to the room repeats the spelling the joining client used for the room. */
  function AnnounceJoin(ids: UuidText, mail: Mail, room: string, p: ParticipantId, members: seq<ParticipantId>): Mail {
    SendEach(SendEach(mail, members, PeerConnected(ids.ShowParticipant(p))),
             members, RoomParticipants(room, ids.ShowAll(members)))
  }

  function AnnounceLeave(ids: UuidText, mail: Mail, room: RoomId, p: ParticipantId, members: seq<ParticipantId>): Mail {
    SendEach(SendEach(mail, members, PeerDisconnected(ids.ShowParticipant(p))),
             members, RoomParticipants(ids.ShowRoom(room), ids.ShowAll(members)))
  }

  function DoJoin(ids: UuidText, hub: Hub, conn: Conn, text: string): (Hub, Conn) {
    match ids.ParseRoom(text)
    case None => (hub, Fail(conn, InvalidPayload, "invalid room_id"))
    case Some(r) =>
      var (rooms, outcome) := Joined(hub.rooms, r, conn.me);
      match outcome
      case None => (hub, Fail(conn, RoomNotFound, "room not found"))
      case Some(Err(_)) => (hub, Fail(conn, ErrorCode.RoomFull, "room is full"))
      case Some(Ok(members)) =>
        (Hub(rooms, AnnounceJoin(ids, hub.mail, text, conn.me, members)), conn.(room := Some(r)))
  }

  function DoLeave(ids: UuidText, hub: Hub, conn: Conn): (Hub, Conn) {
    match conn.room
    case None => (hub, Fail(conn, InvalidPayload, "room_id not set"))
    case Some(r) =>
      var (rooms, rest) := Left(hub.rooms, r, conn.me);
      match rest
      case None => (hub, Fail(conn, Internal, "room not found"))
      case Some(members) =>
        (Hub(rooms, AnnounceLeave(ids, hub.mail, r, conn.me, members)), conn.(room := None))
  }

  /** The core's verdict on a relay: both ends must be members of the room. */
  function CanRelay(rooms: RoomTable, r: RoomId, from: ParticipantId, recipient: ParticipantId): Option<ErrorCode> {
    if r !in rooms || from !in rooms[r] || recipient !in rooms[r] then Some(ParticipantNotFound) else None
  }

  function RelayFailure(what: Relayed): string {
    match what
    case Offer(_) => "failed to relay offer"
    case Answer(_) => "failed to relay answer"
    case IceCandidate(_) => "failed to relay ice"
  }

  function DoRelay(ids: UuidText, hub: Hub, conn: Conn, recipient: string, what: Relayed): (Hub, Conn) {
    match conn.room
    case None => (hub, Fail(conn, InvalidPayload, "room_id not set"))
    case Some(r) =>
      match ids.ParseParticipant(recipient)
      case None => (hub, Fail(conn, InvalidPayload, "invalid to id"))
      case Some(q) =>
        match CanRelay(hub.rooms, r, conn.me, q)
        case Some(code) => (hub, Fail(conn, code, RelayFailure(what)))
        case None =>
          var message := ServerToClient.Relayed(ids.ShowParticipant(conn.me), what);
          (hub.(mail := SendTo(hub.mail, q, message)), conn)
  }

  /** One text message; None stands for text that is no client message. `id` is the room id drawn if a
    room is created. */
  function HandleText(ids: UuidText, cfg: Limiter.Config, hub: Hub, conn: Conn,
                      text: Option<ClientToServer>, id: RoomId, now: int): (Hub, Conn)
  {
    var (limiter, ok) := Limiter.Decide(cfg, conn.limiter, now);
    Dispatch(ids, hub, conn.(limiter := limiter), ok, text, id)
  }

  function Dispatch(ids: UuidText, hub: Hub, conn: Conn, ok: bool, text: Option<ClientToServer>, id: RoomId)
    : (Hub, Conn)
  {
    if !ok then (hub, Fail(conn, ErrorCode.RateLimited, "rate limited"))
    else
      match text
      case None => (hub, Fail(conn, InvalidPayload, "invalid payload"))
      case Some(CreateRoom) => DoCreate(ids, hub, conn, id)
      case Some(JoinRoom(room)) => DoJoin(ids, hub, conn, room)
      case Some(LeaveRoom) => DoLeave(ids, hub, conn)
      case Some(Relay(recipient, what)) => DoRelay(ids, hub, conn, recipient, what)
  }

  function AbnormalClose(ids: UuidText, hub: Hub, conn: Conn): (Hub, Conn) {
    match conn.room
    case None => (hub, conn)
    case Some(r) =>
      var (rooms, rest) := Left(hub.rooms, r, conn.me);
      match rest
      case None => (hub, conn.(room := None))
      case Some(members) =>
        (Hub(rooms, AnnounceLeave(ids, hub.mail, r, conn.me, members)), conn.(room := None))
  }

  class RealCore {
    const rooms: RoomManager

    constructor ()
      ensures fresh(rooms) && rooms.rooms == map[]
    {
      rooms := new RoomManager();
    }

    /** Offers, answers and candidates pass the same check; what is delivered is the payload as given. */
    method Relay(room: RoomId, from: ParticipantId, recipient: ParticipantId) returns (refused: Option<ErrorCode>)
      ensures refused == CanRelay(rooms.rooms, room, from, recipient)
    {
      var participants := rooms.Participants(room);
      if participants.None? {
        return Some(ParticipantNotFound);
      }
      if from !in participants.value || recipient !in participants.value {
        return Some(ParticipantNotFound);
      }
      return None;
    }
  }

  class Handler {
    const ids: UuidText
    const me: ParticipantId
    const core: RealCore
    const broadcast: Broadcast
    const limiter: Limiter.RateLimiter
    var room: Option<RoomId>
    var sink: seq<ServerToClient>

    constructor (ids: UuidText, core: RealCore, me: ParticipantId, broadcast: Broadcast)
      ensures this.ids == ids && this.core == core && this.me == me && this.broadcast == broadcast
      ensures fresh(limiter) && limiter.cfg == Limiter.Config(20, 1_000_000_000)
      ensures State() == Conn(me, None, Limiter.FRESH, [])
    {
      this.ids, this.core, this.me, this.broadcast := ids, core, me, broadcast;
      limiter := new Limiter.RateLimiter(Limiter.Config(20, 1_000_000_000));
      room, sink := None, [];
    }

    ghost function State(): Conn
      reads this, limiter
    {
      Conn(me, room, limiter.Contents(), sink)
    }

    ghost function Shared(): Hub
      reads core.rooms, broadcast
    {
      Hub(core.rooms.rooms, broadcast.mail)
    }

    method SendError(code: ErrorCode, message: string)
      modifies this`sink
      ensures State() == Fail(old(State()), code, message)
    {
      sink := sink + [Error(code, message)];
    }

    method HandleTextMessage(text: Option<ClientToServer>, id: RoomId, now: int)
      modifies this, limiter, core.rooms, broadcast
      ensures (Shared(), State()) == HandleText(ids, limiter.cfg, old(Shared()), old(State()), text, id, now)
    {
      var decision := limiter.Check(now);
      if !decision.allowed {
        SendError(ErrorCode.RateLimited, "rate limited");
        return;
      }
      match text
      case None => SendError(InvalidPayload, "invalid payload");
      case Some(CreateRoom) =>
        var _ := core.rooms.CreateRoom(me, id);
        room := Some(id);
        sink := sink + [RoomCreated(ids.ShowRoom(id), ids.ShowParticipant(me))];
      case Some(JoinRoom(roomText)) =>
        HandleJoin(roomText);
      case Some(LeaveRoom) =>
        HandleLeave();
      case Some(Relay(recipient, what)) =>
        HandleSignaling(recipient, what);
    }

    method HandleJoin(text: string)
      modifies this, core.rooms, broadcast
      ensures (Shared(), State()) == DoJoin(ids, old(Shared()), old(State()), text)
    {
      var parsed := ids.ParseRoom(text);
      if parsed.None? {
        SendError(InvalidPayload, "invalid room_id");
        return;
      }
      var outcome := core.rooms.JoinRoom(parsed.value, me);
      match outcome
      case Some(Ok(members)) =>
        room := parsed;
        broadcast.SendAll(members, PeerConnected(ids.ShowParticipant(me)));
        broadcast.SendAll(members, RoomParticipants(text, ids.ShowAll(members)));
      case Some(Err(_)) => SendError(ErrorCode.RoomFull, "room is full");
      case None => SendError(RoomNotFound, "room not found");
    }

    method HandleLeave()
      modifies this, core.rooms, broadcast
      ensures (Shared(), State()) == DoLeave(ids, old(Shared()), old(State()))
    {
      if room.None? {
        SendError(InvalidPayload, "room_id not set");
        return;
      }
      var remaining := core.rooms.LeaveRoom(room.value, me);
      if remaining.Some? {
        broadcast.SendAll(remaining.value, PeerDisconnected(ids.ShowParticipant(me)));
        broadcast.SendAll(remaining.value, RoomParticipants(ids.ShowRoom(room.value), ids.ShowAll(remaining.value)));
        room := None;
      } else {
        SendError(Internal, "room not found");
      }
    }

    method HandleSignaling(recipient: string, what: Relayed)
      modifies this, broadcast
      ensures (Shared(), State()) == DoRelay(ids, old(Shared()), old(State()), recipient, what)
    {
      if room.None? {
        SendError(InvalidPayload, "room_id not set");
        return;
      }
      var parsed := ids.ParseParticipant(recipient);
      if parsed.None? {
        SendError(InvalidPayload, "invalid to id");
        return;
      }
      var refused := core.Relay(room.value, me, parsed.value);
      if refused.Some? {
        SendError(refused.value, RelayFailure(what));
      } else {
        broadcast.Send(parsed.value, ServerToClient.Relayed(ids.ShowParticipant(me), what));
      }
    }

    method HandleAbnormalClose()
      modifies this, core.rooms, broadcast
      ensures (Shared(), State()) == AbnormalClose(ids, old(Shared()), old(State()))
    {
      if room.Some? {
        var remaining := core.rooms.LeaveRoom(room.value, me);
        if remaining.Some? {
          broadcast.SendAll(remaining.value, PeerDisconnected(ids.ShowParticipant(me)));
          broadcast.SendAll(remaining.value, RoomParticipants(ids.ShowRoom(room.value), ids.ShowAll(remaining.value)));
        }
        room := None;
      }
    }
  }

  // ---------- what a message does to everyone ----------

  /** The announcement of a change reaches each listed member once, news first, then the roster. */
  lemma AnnouncementReaches(mail: Mail, members: seq<ParticipantId>, news: ServerToClient, roster: ServerToClient,
                            p: ParticipantId)
    requires NoDup(members)
    ensures MailOf(SendEach(SendEach(mail, members, news), members, roster), p) ==
      MailOf(mail, p) + (if p in members then [news, roster] else [])
  {
    hide NoDup;
    SendEachReaches(mail, members, news, p);
    SendEachReaches(SendEach(mail, members, news), members, roster, p);
    assert [news] + [roster] == [news, roster];
  }

  /** The mail `p` gets when a change of membership is announced to `members`. */
  function NewsFor(ids: UuidText, members: seq<ParticipantId>, news: ServerToClient, room: string, p: ParticipantId)
    : seq<ServerToClient>
  {
    if p in members then [news, RoomParticipants(room, ids.ShowAll(members))] else []
  }

  /** A join, seen by everyone: either it is refused with exactly one error and changes nothing; or the
    joiner is now a member of the parsed room, and exactly the members get the news and the new list. */
  lemma JoinIsAnnounced(ids: UuidText, hub: Hub, conn: Conn, text: string, p: ParticipantId)
    requires RoomsOk(hub.rooms)
    ensures var (hub', conn') := DoJoin(ids, hub, conn, text);
      var r := ids.ParseRoom(text);
      var admitted := r.Some? && r.value in hub.rooms
        && (conn.me in hub.rooms[r.value] || |hub.rooms[r.value]| < 8);
      if admitted then
        && IsMember(hub'.rooms, r.value, conn.me) && conn' == conn.(room := r)
        && MailOf(hub'.mail, p) == MailOf(hub.mail, p)
             + NewsFor(ids, hub'.rooms[r.value], PeerConnected(ids.ShowParticipant(conn.me)), text, p)
      else
        hub' == hub && exists code, message :: conn' == Fail(conn, code, message)
  {
    hide SendEach, NoDup;
    var r := ids.ParseRoom(text);
    if r.Some? {
      ApplyKeepsRooms(hub.rooms, Join(r.value, conn.me));
      var (rooms, outcome) := Joined(hub.rooms, r.value, conn.me);
      if outcome.Some? && outcome.value.Ok? {
        var members := outcome.value.value;
        assert rooms[r.value] == members;
        AnnouncementReaches(hub.mail, members, PeerConnected(ids.ShowParticipant(conn.me)),
                            RoomParticipants(text, ids.ShowAll(members)), p);
      }
    }
  }

  /** A leave, or an abnormal close, of a member: exactly the remaining members get the news and the new
    list, the leaver gets nothing, and an emptied room is gone. */
  lemma LeaveIsAnnounced(ids: UuidText, hub: Hub, conn: Conn, p: ParticipantId)
    requires RoomsOk(hub.rooms) && conn.room.Some? && IsMember(hub.rooms, conn.room.value, conn.me)
    ensures var r := conn.room.value;
      var (hub', conn') := DoLeave(ids, hub, conn);
      var rest := MembersOf(hub'.rooms, r);
      && conn' == conn.(room := None) && AbnormalClose(ids, hub, conn) == (hub', conn')
      && conn.me !in rest && (r in hub'.rooms <==> hub.rooms[r] != [conn.me])
      && (forall q :: q != conn.me ==> (q in rest <==> q in hub.rooms[r]))
      && MailOf(hub'.mail, p) == MailOf(hub.mail, p)
           + NewsFor(ids, rest, PeerDisconnected(ids.ShowParticipant(conn.me)), ids.ShowRoom(r), p)
  {
    hide SendEach, Without;
    var r := conn.room.value;
    var rest := Without(hub.rooms[r], conn.me);
    WithoutNoDup(hub.rooms[r], conn.me);
    assert |hub.rooms[r]| == 1 ==> hub.rooms[r] == [hub.rooms[r][0]];
    AnnouncementReaches(hub.mail, rest, PeerDisconnected(ids.ShowParticipant(conn.me)),
                        RoomParticipants(ids.ShowRoom(r), ids.ShowAll(rest)), p);
  }

  /** Whatever the message: a handler that answers with an error has changed nothing but its limiter, no
    message is answered more than once, and nothing is taken back. */
  lemma ErrorsChangeNothing(ids: UuidText, cfg: Limiter.Config, hub: Hub, conn: Conn,
                            text: Option<ClientToServer>, id: RoomId, now: int)
    ensures var (hub', conn') := HandleText(ids, cfg, hub, conn, text, id, now);
      && conn.sink <= conn'.sink && |conn'.sink| <= |conn.sink| + 1
      && (conn'.sink != conn.sink && conn'.sink[|conn.sink|].Error? ==> hub' == hub && conn'.room == conn.room)
      && (!Limiter.Decide(cfg, conn.limiter, now).1
          ==> conn'.sink == conn.sink + [Error(ErrorCode.RateLimited, "rate limited")])
  {
    hide Limiter.Decide, SendEach, Without;
  }

  /** An abnormal close makes the handler forget its room, whatever the core knows, and answers nobody. */
  lemma CloseForgetsRoom(ids: UuidText, hub: Hub, conn: Conn)
    ensures AbnormalClose(ids, hub, conn).1 == conn.(room := None)
    ensures (conn.room.None? || conn.room.value !in hub.rooms) ==> AbnormalClose(ids, hub, conn).0 == hub
  {
    hide AnnounceLeave, Without;
  }

  // ---------- the answers ----------

  /** Why a message is refused: under which conditions, in this order, with which code and words. */
  function Refusal(ids: UuidText, rooms: RoomTable, conn: Conn, ok: bool, text: Option<ClientToServer>)
    : Option<(ErrorCode, string)>
  {
    if !ok then Some((ErrorCode.RateLimited, "rate limited"))
    else
      match text
      case None => Some((InvalidPayload, "invalid payload"))
      case Some(CreateRoom) => None
      case Some(JoinRoom(name)) =>
        var r := ids.ParseRoom(name);
        if r.None? then Some((InvalidPayload, "invalid room_id"))
        else if r.value !in rooms then Some((RoomNotFound, "room not found"))
        else if conn.me !in rooms[r.value] && |rooms[r.value]| >= 8 then Some((ErrorCode.RoomFull, "room is full"))
        else None
      case Some(LeaveRoom) =>
        if conn.room.None? then Some((InvalidPayload, "room_id not set"))
        else if conn.room.value !in rooms then Some((Internal, "room not found"))
        else None
      case Some(Relay(name, what)) =>
        if conn.room.None? then Some((InvalidPayload, "room_id not set"))
        else
          var q := ids.ParseParticipant(name);
          if q.None? then Some((InvalidPayload, "invalid to id"))
          else if IsMember(rooms, conn.room.value, conn.me) && IsMember(rooms, conn.room.value, q.value) then None
          else Some((ParticipantNotFound, if what.Offer? then "failed to relay offer"
                                          else if what.Answer? then "failed to relay answer"
                                          else "failed to relay ice"))
  }

  /** Whatever the message: it is refused exactly under these conditions, with one error and no other effect
    than on the limiter; and no error is sent otherwise. */
  lemma RefusedExactly(ids: UuidText, cfg: Limiter.Config, hub: Hub, conn: Conn,
                       text: Option<ClientToServer>, id: RoomId, now: int)
    ensures var (hub', conn') := HandleText(ids, cfg, hub, conn, text, id, now);
      var (limiter, ok) := Limiter.Decide(cfg, conn.limiter, now);
      && conn'.limiter == limiter && conn'.me == conn.me
      && match Refusal(ids, hub.rooms, conn, ok, text)
         case Some(refusal) =>
           hub' == hub && conn' == conn.(limiter := limiter, sink := conn.sink + [Error(refusal.0, refusal.1)])
         case None =>
           conn'.sink == conn.sink || (text == Some(CreateRoom) && |conn'.sink| == |conn.sink| + 1
                                       && conn.sink <= conn'.sink && conn'.sink[|conn.sink|].RoomCreated?)
  {
    hide Limiter.Decide, SendEach, Without;
  }

  /** Creating a room, seen by its creator and by the next client: the answer names the room and the creator
    as they are printed, the creator is the only member, nobody is told and no other room changes; and a
    handler that joins under the text of the answer becomes a member of that very room. */
  lemma CreateIsAnswered(ids: UuidText, cfg: Limiter.Config, hub: Hub, conn: Conn, id: RoomId, now: int,
                         other: Conn, later: int, unused: RoomId)
    requires ids.Faithful() && Limiter.Decide(cfg, conn.limiter, now).1 && Limiter.Decide(cfg, other.limiter, later).1
    ensures var (hub', conn') := HandleText(ids, cfg, hub, conn, Some(CreateRoom), id, now);
      && |conn'.sink| == |conn.sink| + 1 && conn'.sink[..|conn.sink|] == conn.sink
      && var m := conn'.sink[|conn.sink|];
      && m.RoomCreated? && ids.ParseRoom(m.roomId) == Some(id) && ids.ParseParticipant(m.selfId) == Some(conn.me)
      && m.roomId == ids.ShowRoom(id) && m.selfId == ids.ShowParticipant(conn.me)
      && conn'.room == Some(id) && hub'.rooms == hub.rooms[id := [conn.me]] && hub'.mail == hub.mail
      && var (hub2, other') := HandleText(ids, cfg, hub', other, Some(JoinRoom(m.roomId)), unused, later);
         other'.room == Some(id)
         && hub2.rooms == hub.rooms[id := if other.me == conn.me then [conn.me] else [conn.me, other.me]]
  {
    hide Limiter.Decide, SendEach;
    assert [conn.me] + [other.me] == [conn.me, other.me];
  }
}
