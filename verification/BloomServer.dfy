/** The room server as a whole: any number of connections, each with its handler, over one core and one
  set of mailboxes. Theorems about every lawful run.
*/
module BloomServer {
  import opened Wrappers
  import opened Histories
  import opened Ids
  import opened BloomApi
  import opened Rooms
  import opened WsHandler
  import opened TimeLine
  import Limiter = SlidingLimiter

  datatype Server = Server(hub: Hub, conns: map<nat, Conn>, drawn: set<RoomId>)

  /** A disconnect is normal (the handler is dropped), abnormal (the handler leaves its room first), or
    follows an unsupported frame (the handler forgets its room first, so nothing is left). */
  datatype Action =
    | Connect(c: nat, p: ParticipantId)
    | Text(c: nat, text: Option<ClientToServer>, id: RoomId, now: int)
    | DisconnectNormal(c: nat)
    | DisconnectAbnormal(c: nat)
    | DisconnectUnsupported(c: nat)

  const EMPTY: Server := Server(Hub(map[], map[]), map[], {})

  function Step(ids: UuidText, cfg: Limiter.Config, s: Server, a: Action): Server {
    match a
    case Connect(c, p) => s.(conns := s.conns[c := Conn(p, None, Limiter.FRESH, [])])
    case Text(c, text, id, now) =>
      if c !in s.conns then s
      else
        var (hub, conn) := HandleText(ids, cfg, s.hub, s.conns[c], text, id, now);
        Server(hub, s.conns[c := conn], s.drawn + {id})
    case DisconnectNormal(c) => s.(conns := s.conns - {c})
    case DisconnectAbnormal(c) =>
      if c !in s.conns then s
      else s.(hub := AbnormalClose(ids, s.hub, s.conns[c]).0, conns := s.conns - {c})
    case DisconnectUnsupported(c) =>
      if c !in s.conns then s
      else s.(hub := AbnormalClose(ids, s.hub, s.conns[c].(room := None)).0, conns := s.conns - {c})
  }

  /** Randomly drawn room ids are new, and so are the numbers of connections. */
  predicate Fresh(s: Server, a: Action) {
    match a
    case Connect(c, p) => c !in s.conns
    case Text(c, text, id, now) => id !in s.drawn
    case _ => true
  }

  /** Moreover no two live connections share a participant. */
  predicate Lawful(s: Server, a: Action) {
    Fresh(s, a) && (a.Connect? ==> forall d :: d in s.conns ==> s.conns[d].me != a.p)
  }

  function Run(ids: UuidText, cfg: Limiter.Config, acts: History<Action>): Server {
    match acts
    case Start => EMPTY
    case Then(before, a) => Step(ids, cfg, Run(ids, cfg, before), a)
  }

  predicate FreshRun(ids: UuidText, cfg: Limiter.Config, acts: History<Action>) {
    acts.Then? ==> FreshRun(ids, cfg, acts.past) && Fresh(Run(ids, cfg, acts.past), acts.last)
  }

  predicate LawfulRun(ids: UuidText, cfg: Limiter.Config, acts: History<Action>) {
    acts.Then? ==> LawfulRun(ids, cfg, acts.past) && Lawful(Run(ids, cfg, acts.past), acts.last)
  }

  // ---------- rosters ----------

  /** The latest roster of room `r` in a mailbox, whatever spelling of the room it uses. */
  function LastRoster(ids: UuidText, box: seq<ServerToClient>, r: RoomId): Option<seq<string>> {
    if box == [] then None
    else
      var m := box[|box| - 1];
      if m.RoomParticipants? && ids.ParseRoom(m.roomId) == Some(r) then Some(m.participants)
      else LastRoster(ids, box[..|box| - 1], r)
  }

  /** `p`'s latest roster of `r` is the core's list, or none was ever sent and `p` is alone. */
  predicate RosterOk(ids: UuidText, hub: Hub, r: RoomId, p: ParticipantId)
    requires r in hub.rooms
  {
    var latest := LastRoster(ids, MailOf(hub.mail, p), r);
    latest == Some(ids.ShowAll(hub.rooms[r])) || (latest == None && hub.rooms[r] == [p])
  }

  ghost predicate RostersOk(ids: UuidText, hub: Hub) {
    forall r, p :: IsMember(hub.rooms, r, p) ==> RosterOk(ids, hub, r, p)
  }

  ghost predicate Unannounced(ids: UuidText, mail: Mail, drawn: set<RoomId>) {
    forall r, p :: r !in drawn ==> LastRoster(ids, MailOf(mail, p), r) == None
  }

  lemma LastRosterAppend(ids: UuidText, box: seq<ServerToClient>, m: ServerToClient, r: RoomId)
    ensures LastRoster(ids, box + [m], r) ==
      if m.RoomParticipants? && ids.ParseRoom(m.roomId) == Some(r) then Some(m.participants)
      else LastRoster(ids, box, r)
  {
    assert (box + [m])[..|box|] == box;
  }

  /** An announcement to `members` brings exactly them the roster of `r`, and touches no other roster. */
  lemma AnnouncedRoster(ids: UuidText, mail: Mail, members: seq<ParticipantId>, news: ServerToClient,
                        text: string, r: RoomId, p: ParticipantId, other: RoomId)
    requires NoDup(members) && !news.RoomParticipants? && ids.ParseRoom(text) == Some(r)
    ensures var roster := RoomParticipants(text, ids.ShowAll(members));
      LastRoster(ids, MailOf(SendEach(SendEach(mail, members, news), members, roster), p), other) ==
        if p in members && other == r then Some(ids.ShowAll(members))
        else LastRoster(ids, MailOf(mail, p), other)
  {
    var roster := RoomParticipants(text, ids.ShowAll(members));
    var box := MailOf(mail, p);
    AnnouncementReaches(mail, members, news, roster, p);
    if p in members {
      LastRosterAppend(ids, box, news, other);
      LastRosterAppend(ids, box + [news], roster, other);
      assert box + [news] + [roster] == box + [news, roster];
    } else {
      assert box + [] == box;
    }
  }

  /** Setting room `r` to `members` and announcing them keeps every roster right. */
  lemma AnnounceKeepsRosters(ids: UuidText, hub: Hub, hub': Hub, drawn: set<RoomId>, r: RoomId,
                             members: seq<ParticipantId>, news: ServerToClient, text: string)
    requires RostersOk(ids, hub) && Unannounced(ids, hub.mail, drawn) && r in drawn
    requires NoDup(members) && !news.RoomParticipants? && ids.ParseRoom(text) == Some(r)
    requires hub'.rooms == if members == [] then hub.rooms - {r} else hub.rooms[r := members]
    requires hub'.mail == SendEach(SendEach(hub.mail, members, news), members,
                                   RoomParticipants(text, ids.ShowAll(members)))
    ensures RostersOk(ids, hub') && Unannounced(ids, hub'.mail, drawn)
  {
    forall other, p | IsMember(hub'.rooms, other, p) ensures RosterOk(ids, hub', other, p) {
      AnnouncedRoster(ids, hub.mail, members, news, text, r, p, other);
      if other != r {
        assert IsMember(hub.rooms, other, p);
      }
    }
    forall other, p | other !in drawn ensures LastRoster(ids, MailOf(hub'.mail, p), other) == None {
      AnnouncedRoster(ids, hub.mail, members, news, text, r, p, other);
    }
  }

  // ---------- rooms and rosters, whoever shares a participant ----------

  ghost predicate HubOk(ids: UuidText, hub: Hub, drawn: set<RoomId>) {
    && RoomsOk(hub.rooms) && hub.rooms.Keys <= drawn
    && RostersOk(ids, hub) && Unannounced(ids, hub.mail, drawn)
  }

  lemma CreateOk(ids: UuidText, hub: Hub, conn: Conn, drawn: set<RoomId>, id: RoomId)
    requires HubOk(ids, hub, drawn) && id !in drawn
    ensures HubOk(ids, DoCreate(ids, hub, conn, id).0, drawn + {id})
  {
    var hub' := DoCreate(ids, hub, conn, id).0;
    ApplyKeepsRooms(hub.rooms, Create(id, conn.me));
    forall r, p | IsMember(hub'.rooms, r, p) ensures RosterOk(ids, hub', r, p) {
      if r != id {
        assert IsMember(hub.rooms, r, p);
      }
    }
  }

  lemma JoinOk(ids: UuidText, hub: Hub, conn: Conn, drawn: set<RoomId>, text: string)
    requires HubOk(ids, hub, drawn)
    ensures HubOk(ids, DoJoin(ids, hub, conn, text).0, drawn)
  {
    hide RostersOk, Unannounced, SendEach, NoDup;
    var room := ids.ParseRoom(text);
    if room.Some? && room.value in hub.rooms {
      var r := room.value;
      ApplyKeepsRooms(hub.rooms, Join(r, conn.me));
      var (rooms, outcome) := Joined(hub.rooms, r, conn.me);
      if outcome.value.Ok? {
        var members := outcome.value.value;
        assert rooms[r] == members;
        assert rooms == hub.rooms[r := members];
        AnnounceKeepsRosters(ids, hub, DoJoin(ids, hub, conn, text).0, drawn, r, members,
                             PeerConnected(ids.ShowParticipant(conn.me)), text);
      }
    }
  }

  lemma LeaveOk(ids: UuidText, hub: Hub, drawn: set<RoomId>, r: RoomId, p: ParticipantId)
    requires ids.Faithful() && HubOk(ids, hub, drawn) && r in hub.rooms
    ensures var (rooms, rest) := Left(hub.rooms, r, p);
      HubOk(ids, Hub(rooms, AnnounceLeave(ids, hub.mail, r, p, rest.value)), drawn)
  {
    hide Without, RostersOk, Unannounced, SendEach, NoDup;
    var (rooms, rest) := Left(hub.rooms, r, p);
    ApplyKeepsRooms(hub.rooms, Leave(r, p));
    WithoutNoDup(hub.rooms[r], p);
    AnnounceKeepsRosters(ids, hub, Hub(rooms, AnnounceLeave(ids, hub.mail, r, p, rest.value)), drawn, r, rest.value,
                         PeerDisconnected(ids.ShowParticipant(p)), ids.ShowRoom(r));
  }

  lemma RelayOk(ids: UuidText, hub: Hub, conn: Conn, drawn: set<RoomId>, recipient: string, what: Relayed)
    requires HubOk(ids, hub, drawn)
    ensures HubOk(ids, DoRelay(ids, hub, conn, recipient, what).0, drawn)
  {
    hide RoomsOk, LastRoster;
    var hub' := DoRelay(ids, hub, conn, recipient, what).0;
    var m := ServerToClient.Relayed(ids.ShowParticipant(conn.me), what);
    forall r, p ensures LastRoster(ids, MailOf(hub'.mail, p), r) == LastRoster(ids, MailOf(hub.mail, p), r) {
      LastRosterAppend(ids, MailOf(hub.mail, p), m, r);
    }
  }

  lemma TextKeepsHub(ids: UuidText, cfg: Limiter.Config, hub: Hub, conn: Conn, drawn: set<RoomId>,
                     text: Option<ClientToServer>, id: RoomId, now: int)
    requires ids.Faithful() && HubOk(ids, hub, drawn) && id !in drawn
    ensures HubOk(ids, HandleText(ids, cfg, hub, conn, text, id, now).0, drawn + {id})
  {
    hide RostersOk, RoomsOk, Left, Joined, DoRelay;
    var (limiter, ok) := Limiter.Decide(cfg, conn.limiter, now);
    var conn1 := conn.(limiter := limiter);
    if ok && text.Some? {
      match text.value
      case CreateRoom => CreateOk(ids, hub, conn1, drawn, id);
      case JoinRoom(room) => JoinOk(ids, hub, conn1, drawn, room);
      case LeaveRoom => CloseKeepsHub(ids, hub, conn1, drawn);
      case Relay(recipient, what) => RelayOk(ids, hub, conn1, drawn, recipient, what);
    }
  }

  lemma CloseKeepsHub(ids: UuidText, hub: Hub, conn: Conn, drawn: set<RoomId>)
    requires ids.Faithful() && HubOk(ids, hub, drawn)
    ensures HubOk(ids, AbnormalClose(ids, hub, conn).0, drawn) && HubOk(ids, DoLeave(ids, hub, conn).0, drawn)
  {
    hide HubOk;
    if conn.room.Some? && conn.room.value in hub.rooms {
      LeaveOk(ids, hub, drawn, conn.room.value, conn.me);
    }
  }

  lemma StepKeepsHub(ids: UuidText, cfg: Limiter.Config, s: Server, a: Action)
    requires ids.Faithful() && HubOk(ids, s.hub, s.drawn) && Fresh(s, a)
    ensures var s' := Step(ids, cfg, s, a); HubOk(ids, s'.hub, s'.drawn)
  {
    hide HubOk;
    match a
    case Text(c, text, id, now) =>
      if c in s.conns {
        TextKeepsHub(ids, cfg, s.hub, s.conns[c], s.drawn, text, id, now);
      }
    case DisconnectAbnormal(c) =>
      if c in s.conns {
        CloseKeepsHub(ids, s.hub, s.conns[c], s.drawn);
      }
    case _ =>
  }

  /** Rooms and rosters are right in every run, even when connections share participants. */
  lemma {:induction false} FreshRunsKeepHub(ids: UuidText, cfg: Limiter.Config, acts: History<Action>)
    requires ids.Faithful() && FreshRun(ids, cfg, acts)
    ensures var s := Run(ids, cfg, acts); HubOk(ids, s.hub, s.drawn)
  {
    if acts.Start? {
    } else {
      hide Step;
      FreshRunsKeepHub(ids, cfg, acts.past);
      StepKeepsHub(ids, cfg, Run(ids, cfg, acts.past), acts.last);
    }
  }

  // ---------- handlers and their rooms ----------

  predicate NoInternalError(sink: seq<ServerToClient>) {
    forall i :: 0 <= i < |sink| ==> !(sink[i].Error? && sink[i].code == Internal)
  }

  /** The handler's room exists and contains its participant. */
  predicate RoomReal(rooms: RoomTable, conn: Conn) {
    conn.room.Some? ==> IsMember(rooms, conn.room.value, conn.me)
  }

  ghost predicate HandlersReal(s: Server) {
    forall c :: c in s.conns ==> RoomReal(s.hub.rooms, s.conns[c])
  }

  ghost predicate NoneInternal(s: Server) {
    forall c :: c in s.conns ==> NoInternalError(s.conns[c].sink)
  }

  /** The connection whose handler leaves its room in this step. */
  function Leaver(cfg: Limiter.Config, s: Server, a: Action): Option<nat> {
    match a
    case Text(c, Some(LeaveRoom), _, now) =>
      if c in s.conns && s.conns[c].room.Some? && Limiter.Decide(cfg, s.conns[c].limiter, now).1 then Some(c) else None
    case DisconnectAbnormal(c) => if c in s.conns && s.conns[c].room.Some? then Some(c) else None
    case _ => None
  }

  /** The leaver's participant is also that of another live handler in the same room. */
  predicate Evicts(cfg: Limiter.Config, s: Server, a: Action) {
    var leaver := Leaver(cfg, s, a);
    leaver.Some? && leaver.value in s.conns &&
    exists d :: d in s.conns && d != leaver.value
      && s.conns[d].me == s.conns[leaver.value].me && s.conns[d].room == s.conns[leaver.value].room
  }

  /** A leave takes exactly this membership away. */
  predicate OnlyLeft(rooms: RoomTable, rooms': RoomTable, r: RoomId, p: ParticipantId, q: ParticipantId, room: RoomId) {
    IsMember(rooms', room, q) <==> IsMember(rooms, room, q) && !(room == r && q == p)
  }

  lemma LeaveTakesOne(ids: UuidText, hub: Hub, conn: Conn, q: ParticipantId, room: RoomId)
    requires conn.room.Some? && RoomReal(hub.rooms, conn)
    ensures OnlyLeft(hub.rooms, DoLeave(ids, hub, conn).0.rooms, conn.room.value, conn.me, q, room)
    ensures AbnormalClose(ids, hub, conn) == DoLeave(ids, hub, conn) && DoLeave(ids, hub, conn).1 == conn.(room := None)
  {
    hide Without, SendEach;
  }

  /** Any other message only adds memberships, and a handler that changes its room becomes a member of it. */
  lemma OthersOnlyAdd(ids: UuidText, hub: Hub, conn: Conn, ok: bool, text: Option<ClientToServer>, id: RoomId,
                      q: ParticipantId, room: RoomId)
    requires id !in hub.rooms && !(ok && text == Some(LeaveRoom) && conn.room.Some?)
    ensures var (hub', conn') := Dispatch(ids, hub, conn, ok, text, id);
      && (IsMember(hub.rooms, room, q) ==> IsMember(hub'.rooms, room, q))
      && conn'.me == conn.me && (RoomReal(hub.rooms, conn) ==> RoomReal(hub'.rooms, conn'))
      && (NoInternalError(conn.sink) ==> NoInternalError(conn'.sink))
  {
    hide SendEach;
  }

  /** What a leaver's step does: its room loses its membership, it forgets the room, the rest is as it was. */
  lemma LeaverLeaves(ids: UuidText, cfg: Limiter.Config, s: Server, a: Action)
    requires HandlersReal(s) && Leaver(cfg, s, a).Some?
    ensures var c, s' := Leaver(cfg, s, a).value, Step(ids, cfg, s, a);
      && s'.hub.rooms == DoLeave(ids, s.hub, s.conns[c]).0.rooms
      && (forall d :: d != c ==> (d in s'.conns <==> d in s.conns))
      && (forall d :: d != c && d in s.conns ==> s'.conns[d] == s.conns[d])
      && (c in s'.conns ==> s'.conns[c].room == None && s'.conns[c].sink == s.conns[c].sink)
  {
    hide Without, SendEach, Limiter.Decide;
    assert RoomReal(s.hub.rooms, s.conns[Leaver(cfg, s, a).value]);
  }

  lemma StayersStay(ids: UuidText, cfg: Limiter.Config, s: Server, a: Action)
    requires HandlersReal(s) && Fresh(s, a) && s.hub.rooms.Keys <= s.drawn && Leaver(cfg, s, a).None?
    ensures HandlersReal(Step(ids, cfg, s, a))
    ensures NoneInternal(s) ==> NoneInternal(Step(ids, cfg, s, a))
  {
    hide Limiter.Decide, Dispatch, IsMember;
    match a
    case Text(c, text, id, now) =>
      if c in s.conns {
        var (limiter, ok) := Limiter.Decide(cfg, s.conns[c].limiter, now);
        var conn := s.conns[c].(limiter := limiter);
        var (hub', conn') := Dispatch(ids, s.hub, conn, ok, text, id);
        forall d | d in s.conns && s.conns[d].room.Some? ensures RoomReal(hub'.rooms, s.conns[d]) {
          assert RoomReal(s.hub.rooms, s.conns[d]);
          OthersOnlyAdd(ids, s.hub, conn, ok, text, id, s.conns[d].me, s.conns[d].room.value);
        }
        OthersOnlyAdd(ids, s.hub, conn, ok, text, id, conn.me, id);
        assert RoomReal(s.hub.rooms, s.conns[c]);
      }
    case _ =>
  }

  /** The exact condition for handlers and core to stay in agreement: a step breaks it if and only if
    somebody leaves a room which another live handler of the same participant is in. Connects, other
    messages and other disconnects never do. */
  lemma StepBreaksExactly(ids: UuidText, cfg: Limiter.Config, s: Server, a: Action)
    requires HandlersReal(s) && Fresh(s, a) && s.hub.rooms.Keys <= s.drawn
    ensures HandlersReal(Step(ids, cfg, s, a)) <==> !Evicts(cfg, s, a)
    ensures NoneInternal(s) ==> NoneInternal(Step(ids, cfg, s, a))
  {
    var leaver := Leaver(cfg, s, a);
    if leaver.None? {
      StayersStay(ids, cfg, s, a);
    } else {
      var c, s' := leaver.value, Step(ids, cfg, s, a);
      LeaverLeaves(ids, cfg, s, a);
      hide Step, IsMember, DoLeave, AbnormalClose, NoInternalError;
      forall d | d in s.conns && d != c
        ensures RoomReal(s'.hub.rooms, s'.conns[d])
          <==> !(s.conns[d].me == s.conns[c].me && s.conns[d].room == s.conns[c].room)
      {
        assert RoomReal(s.hub.rooms, s.conns[c]) && RoomReal(s.hub.rooms, s.conns[d]);
        if s.conns[d].room.Some? {
          LeaveTakesOne(ids, s.hub, s.conns[c], s.conns[d].me, s.conns[d].room.value);
        }
      }
    }
  }

  /** Handlers and core agreed all along. */
  ghost predicate AlwaysReal(ids: UuidText, cfg: Limiter.Config, acts: History<Action>) {
    HandlersReal(Run(ids, cfg, acts)) && (acts.Then? ==> AlwaysReal(ids, cfg, acts.past))
  }

  predicate NeverEvicts(ids: UuidText, cfg: Limiter.Config, acts: History<Action>) {
    acts.Then? ==> NeverEvicts(ids, cfg, acts.past) && !Evicts(cfg, Run(ids, cfg, acts.past), acts.last)
  }

  /** Over runs, whoever shares a participant: handlers and core agree all along if and only if nobody ever
    leaves a room which another live handler of the same participant is in. And while they agree, no
    handler answers with an Internal error. */
  lemma {:induction false} MembershipExactly(ids: UuidText, cfg: Limiter.Config, acts: History<Action>)
    requires ids.Faithful() && FreshRun(ids, cfg, acts)
    ensures AlwaysReal(ids, cfg, acts) <==> NeverEvicts(ids, cfg, acts)
    ensures AlwaysReal(ids, cfg, acts) ==> NoneInternal(Run(ids, cfg, acts))
  {
    if acts.Start? {
    } else {
      MembershipExactly(ids, cfg, acts.past);
      FreshRunsKeepHub(ids, cfg, acts.past);
      if AlwaysReal(ids, cfg, acts.past) {
        StepBreaksExactly(ids, cfg, Run(ids, cfg, acts.past), acts.last);
      }
    }
  }

  // ---------- the invariant of lawful runs ----------

  ghost predicate Distinct(s: Server) {
    forall c, d :: c in s.conns && d in s.conns && c != d ==> s.conns[c].me != s.conns[d].me
  }

  ghost predicate Inv(ids: UuidText, s: Server) {
    HubOk(ids, s.hub, s.drawn) && HandlersReal(s) && NoneInternal(s) && Distinct(s)
  }

  lemma HandlersKeepTheirParticipant(ids: UuidText, cfg: Limiter.Config, hub: Hub, conn: Conn,
                                     text: Option<ClientToServer>, id: RoomId, now: int)
    ensures HandleText(ids, cfg, hub, conn, text, id, now).1.me == conn.me
  {
    hide Limiter.Decide, SendEach, Without;
  }

  lemma StepKeepsDistinct(ids: UuidText, cfg: Limiter.Config, s: Server, a: Action)
    requires Distinct(s) && Lawful(s, a)
    ensures Distinct(Step(ids, cfg, s, a)) && !Evicts(cfg, s, a)
  {
    hide HandleText, AbnormalClose, Limiter.Decide;
    if a.Text? && a.c in s.conns {
      HandlersKeepTheirParticipant(ids, cfg, s.hub, s.conns[a.c], a.text, a.id, a.now);
    }
  }

  lemma StepKeepsInv(ids: UuidText, cfg: Limiter.Config, s: Server, a: Action)
    requires ids.Faithful() && Inv(ids, s) && Lawful(s, a)
    ensures Inv(ids, Step(ids, cfg, s, a))
  {
    StepKeepsHub(ids, cfg, s, a);
    StepKeepsDistinct(ids, cfg, s, a);
    assert s.hub.rooms.Keys <= s.drawn;
    hide HubOk, Step, Evicts, HandlersReal, NoneInternal, Distinct;
    StepBreaksExactly(ids, cfg, s, a);
  }

  /** Every lawful run keeps the whole invariant. Among its parts: every member's latest roster of its
    room is the core's list (`RostersOk`), a handler's room exists and contains its participant
    (`HandlersReal`), and no handler ever answered with an Internal error. */
  lemma {:induction false} LawfulRunsKeepInv(ids: UuidText, cfg: Limiter.Config, acts: History<Action>)
    requires ids.Faithful() && LawfulRun(ids, cfg, acts)
    ensures Inv(ids, Run(ids, cfg, acts))
  {
    if acts.Start? {
    } else {
      LawfulRunsKeepInv(ids, cfg, acts.past);
      StepKeepsInv(ids, cfg, Run(ids, cfg, acts.past), acts.last);
    }
  }

  /** Roster consistency, spelled out for one room and one member, in any run with fresh ids. */
  lemma RosterConsistency(ids: UuidText, cfg: Limiter.Config, acts: History<Action>, r: RoomId, p: ParticipantId)
    requires ids.Faithful() && FreshRun(ids, cfg, acts)
    requires IsMember(Run(ids, cfg, acts).hub.rooms, r, p)
    ensures var hub := Run(ids, cfg, acts).hub;
      var latest := LastRoster(ids, MailOf(hub.mail, p), r);
      latest == Some(ids.ShowAll(hub.rooms[r])) || (latest == None && hub.rooms[r] == [p])
  {
    FreshRunsKeepHub(ids, cfg, acts);
    assert RosterOk(ids, Run(ids, cfg, acts).hub, r, p);
  }

  /** The handler/core agreement: a handler that thinks it is in a room is; so leaving it succeeds, and
    no Internal error was ever sent. */
  lemma HandlerRoomIsReal(ids: UuidText, cfg: Limiter.Config, acts: History<Action>, c: nat)
    requires ids.Faithful() && FreshRun(ids, cfg, acts) && NeverEvicts(ids, cfg, acts) && c in Run(ids, cfg, acts).conns
    ensures var s := Run(ids, cfg, acts);
      var conn := s.conns[c];
      && NoInternalError(conn.sink)
      && (conn.room.Some? ==>
            && IsMember(s.hub.rooms, conn.room.value, conn.me)
            && DoLeave(ids, s.hub, conn).1 == conn.(room := None)
            && !IsMember(DoLeave(ids, s.hub, conn).0.rooms, conn.room.value, conn.me))
  {
    hide Run, NoInternalError, FreshRun, NeverEvicts;
    MembershipExactly(ids, cfg, acts);
    var s := Run(ids, cfg, acts);
    var conn := s.conns[c];
    assert RoomReal(s.hub.rooms, conn);
    if conn.room.Some? {
      LeaveTakesOne(ids, s.hub, conn, conn.me, conn.room.value);
    }
  }

  /** Lawful runs meet the condition. */
  lemma {:induction false} LawfulRunsNeverEvict(ids: UuidText, cfg: Limiter.Config, acts: History<Action>)
    requires ids.Faithful() && LawfulRun(ids, cfg, acts)
    ensures FreshRun(ids, cfg, acts) && NeverEvicts(ids, cfg, acts)
  {
    if acts.Start? {
    } else {
      LawfulRunsNeverEvict(ids, cfg, acts.past);
      LawfulRunsKeepInv(ids, cfg, acts.past);
      StepKeepsDistinct(ids, cfg, Run(ids, cfg, acts.past), acts.last);
    }
  }

  /** A relay from a member: the payload lands unchanged, under the sender's name, in the mailbox of the
    addressee and in no other, exactly when the addressee is in the sender's room; otherwise the sender is
    told and no mailbox changes. */
  lemma RelayFromMember(ids: UuidText, hub: Hub, conn: Conn, recipient: string, what: Relayed, p: ParticipantId)
    requires conn.room.Some? && IsMember(hub.rooms, conn.room.value, conn.me)
    ensures var (hub', conn') := DoRelay(ids, hub, conn, recipient, what);
      var target := ids.ParseParticipant(recipient);
      var mates := hub.rooms[conn.room.value];
      var arrives := target == Some(p) && p in mates;
      && hub'.rooms == hub.rooms
      && MailOf(hub'.mail, p) == MailOf(hub.mail, p) +
           (if arrives then [ServerToClient.Relayed(ids.ShowParticipant(conn.me), what)] else [])
      && (conn' == conn <==> target.Some? && target.value in mates)
      && (conn' == conn || exists code, message :: conn' == Fail(conn, code, message))
  {
    assert MailOf(hub.mail, p) + [] == MailOf(hub.mail, p);
    var conn' := DoRelay(ids, hub, conn, recipient, what).1;
    assert conn' == conn || |conn'.sink| == |conn.sink| + 1;
  }

  /** Relaying in a reachable state: the sender is a member of its handler's room, so a relay it makes lands
    exactly once if the addressee is in that room, and nowhere otherwise. */
  lemma RelayLandsOnce(ids: UuidText, cfg: Limiter.Config, acts: History<Action>, c: nat,
                       recipient: string, what: Relayed, p: ParticipantId)
    requires ids.Faithful() && FreshRun(ids, cfg, acts) && NeverEvicts(ids, cfg, acts)
    requires c in Run(ids, cfg, acts).conns && Run(ids, cfg, acts).conns[c].room.Some?
    ensures var s := Run(ids, cfg, acts);
      var conn := s.conns[c];
      var (hub, conn') := DoRelay(ids, s.hub, conn, recipient, what);
      var target := ids.ParseParticipant(recipient);
      var mates := MembersOf(s.hub.rooms, conn.room.value);
      var arrives := target == Some(p) && p in mates;
      && conn.me in mates && hub.rooms == s.hub.rooms
      && MailOf(hub.mail, p) == MailOf(s.hub.mail, p) +
           (if arrives then [ServerToClient.Relayed(ids.ShowParticipant(conn.me), what)] else [])
      && (conn' == conn <==> target.Some? && target.value in mates)
  {
    hide DoRelay, Run, FreshRun, NeverEvicts;
    MembershipExactly(ids, cfg, acts);
    var s := Run(ids, cfg, acts);
    assert RoomReal(s.hub.rooms, s.conns[c]);
    RelayFromMember(ids, s.hub, s.conns[c], recipient, what, p);
  }

  /** Distinct participants are needed: when two live connections share one, the abnormal close of the
    first takes the participant out of the room the second still believes to be in. */
  lemma SharedParticipantBreaksMembership(ids: UuidText, p: ParticipantId, r: RoomId)
    requires ids.Faithful()
    ensures var room := ids.ShowRoom(r);
      var cfg := Limiter.Config(20, 1_000_000_000);
      var acts := Then(Then(Then(Then(Then(Start, Connect(0, p)), Connect(1, p)),
        Text(0, Some(CreateRoom), r, 0)), Text(1, Some(JoinRoom(room)), RoomId(r.uuid + 1), 0)), DisconnectAbnormal(0));
      var s := Run(ids, cfg, acts);
      1 in s.conns && s.conns[1].room == Some(r) && !IsMember(s.hub.rooms, r, p)
  {
    var cfg := Limiter.Config(20, 1_000_000_000);
    var blank := Conn(p, None, Limiter.FRESH, []);
    var h1 := Then(Start, Connect(0, p));
    var h2 := Then(h1, Connect(1, p));
    var h3 := Then(h2, Text(0, Some(CreateRoom), r, 0));
    var h4 := Then(h3, Text(1, Some(JoinRoom(ids.ShowRoom(r))), RoomId(r.uuid + 1), 0));
    assert Limiter.Decide(cfg, Limiter.FRESH, 0).1;
    assert Run(ids, cfg, h1) == Step(ids, cfg, EMPTY, Connect(0, p));
    assert Run(ids, cfg, h2) == Server(Hub(map[], map[]), map[0 := blank, 1 := blank], {});
    assert Run(ids, cfg, h3).hub.rooms == map[r := [p]];
    assert Run(ids, cfg, h3).conns[0].room == Some(r) && Run(ids, cfg, h3).conns[1] == blank;
    assert Run(ids, cfg, h4).hub.rooms == map[r := [p]];
    assert Run(ids, cfg, h4).conns[0].room == Run(ids, cfg, h4).conns[1].room == Some(r);
    assert [p][..0] == [];
  }

  // ---------- rates and disconnects ----------

  /** The times of the messages of connection `c`, since it connected last. */
  function TextTimes(acts: History<Action>, c: nat): Line {
    match acts
    case Start => Start
    case Then(before, Connect(d, _)) => if d == c then Start else TextTimes(before, c)
    case Then(before, Text(d, _, _, now)) => if d == c then Then(TextTimes(before, c), now) else TextTimes(before, c)
    case Then(before, _) => TextTimes(before, c)
  }

  /** Every connection is limited by its own messages alone, refused ones included: what it is let do is what
    a limiter would allow that saw nothing else. */
  lemma {:induction false} EachConnectionHasItsRate(ids: UuidText, cfg: Limiter.Config, acts: History<Action>, c: nat)
    requires c in Run(ids, cfg, acts).conns
    ensures Run(ids, cfg, acts).conns[c].limiter == Limiter.After(cfg, TextTimes(acts, c))
  {
    if acts.Start? {
    } else {
      var s := Run(ids, cfg, acts.past);
      if c in s.conns {
        EachConnectionHasItsRate(ids, cfg, acts.past, c);
      }
      match acts.last
      case Text(d, text, id, now) =>
        if d in s.conns {
          RefusedExactly(ids, cfg, s.hub, s.conns[d], text, id, now);
        }
        hide HandleText, Limiter.Decide, Refusal;
      case _ => hide HandleText, AbnormalClose;
    }
  }

  /** How many messages of a live connection had an effect in a half-open interval of the window's length: at
    most the limit. All others were answered with the rate limit error. */
  lemma ActedOnAtMostLimit(ids: UuidText, cfg: Limiter.Config, acts: History<Action>, c: nat, lo: int,
                           text: Option<ClientToServer>, id: RoomId, now: int)
    requires c in Run(ids, cfg, acts).conns && Sorted(Then(TextTimes(acts, c), now))
    ensures var s := Run(ids, cfg, acts);
      var times := TextTimes(acts, c);
      && CountIn(Limiter.Allowed(cfg, Then(times, now)), lo, lo + cfg.window) <= cfg.limit
      && var (hub', conn') := HandleText(ids, cfg, s.hub, s.conns[c], text, id, now);
         Limiter.Allowed(cfg, Then(times, now)) == Limiter.Allowed(cfg, times) ==>
           hub' == s.hub && conn'.room == s.conns[c].room
           && conn'.sink == s.conns[c].sink + [Error(ErrorCode.RateLimited, "rate limited")]
  {
    hide Limiter.Decide, HandleText, Run, TextTimes;
    EachConnectionHasItsRate(ids, cfg, acts, c);
    Limiter.SlidingWindowBound(cfg, Then(TextTimes(acts, c), now), lo);
    var s := Run(ids, cfg, acts);
    RefusedExactly(ids, cfg, s.hub, s.conns[c], text, id, now);
    var times := TextTimes(acts, c);
    LongerIsDifferent(Limiter.Allowed(cfg, times), now);
    assert Limiter.Decide(cfg, Limiter.After(cfg, times), now).1 ==>
      Limiter.Allowed(cfg, Then(times, now)) == Then(Limiter.Allowed(cfg, times), now);
  }

  lemma LongerIsDifferent(a: Line, now: int)
    ensures Then(a, now) != a
  {
    assert Length(Then(a, now)) == Length(a) + 1;
  }

  /** What a disconnect leaves behind: a normal one, or one after an unsupported frame, changes no room and
    no mailbox, so the participant stays a member; an abnormal one takes it out of its handler's room. */
  lemma DisconnectsExactly(ids: UuidText, cfg: Limiter.Config, s: Server, c: nat)
    requires c in s.conns && RoomReal(s.hub.rooms, s.conns[c])
    ensures var conn := s.conns[c];
      && Step(ids, cfg, s, DisconnectNormal(c)) == s.(conns := s.conns - {c})
      && Step(ids, cfg, s, DisconnectUnsupported(c)) == s.(conns := s.conns - {c})
      && var s' := Step(ids, cfg, s, DisconnectAbnormal(c));
         c !in s'.conns && (conn.room.Some? ==> !IsMember(s'.hub.rooms, conn.room.value, conn.me))
  {
    var conn := s.conns[c];
    if conn.room.Some? {
      LeaveTakesOne(ids, s.hub, conn, conn.me, conn.room.value);
    }
    hide IsMember, DoLeave;
  }
}
