/** Rosters for clients that compare the text of room ids instead of parsing it. A join announces the new
  list under the joining client's own spelling of the room, everything else under the printed id; this
  module says exactly when such clients have a right roster.
*/
module TextRosters {
  import opened Wrappers
  import opened Histories
  import opened Ids
  import opened BloomApi
  import opened Rooms
  import opened WsHandler
  import opened BloomServer
  import Limiter = SlidingLimiter

  /** The latest roster a client finds when it compares room texts instead of parsing them. */
  function LastByText(box: seq<ServerToClient>, text: string): Option<seq<string>> {
    if box == [] then None
    else
      var m := box[|box| - 1];
      if m.RoomParticipants? && m.roomId == text then Some(m.participants) else LastByText(box[..|box| - 1], text)
  }

  predicate RosterByTextOk(ids: UuidText, hub: Hub, r: RoomId, p: ParticipantId)
    requires r in hub.rooms
  {
    var latest := LastByText(MailOf(hub.mail, p), ids.ShowRoom(r));
    latest == Some(ids.ShowAll(hub.rooms[r])) || (latest == None && hub.rooms[r] == [p])
  }

  ghost predicate RoomByTextOk(ids: UuidText, hub: Hub, r: RoomId)
    requires r in hub.rooms
  {
    forall p :: p in hub.rooms[r] ==> RosterByTextOk(ids, hub, r, p)
  }

  lemma LastByTextAppend(box: seq<ServerToClient>, m: ServerToClient, text: string)
    ensures LastByText(box + [m], text) ==
      if m.RoomParticipants? && m.roomId == text then Some(m.participants) else LastByText(box, text)
  {
    assert (box + [m])[..|box|] == box;
  }

  /** An announcement replaces the roster found under its own text, for the listed members only. */
  lemma AnnouncedByText(mail: Mail, members: seq<ParticipantId>, news: ServerToClient, texts: seq<string>,
                        spelling: string, p: ParticipantId, text: string)
    requires NoDup(members) && !news.RoomParticipants?
    ensures var mail' := SendEach(SendEach(mail, members, news), members, RoomParticipants(spelling, texts));
      LastByText(MailOf(mail', p), text) ==
        if p in members && text == spelling then Some(texts) else LastByText(MailOf(mail, p), text)
  {
    var roster := RoomParticipants(spelling, texts);
    var box := MailOf(mail, p);
    AnnouncementReaches(mail, members, news, roster, p);
    if p in members {
      LastByTextAppend(box, news, text);
      LastByTextAppend(box + [news], roster, text);
      assert box + [news] + [roster] == box + [news, roster];
    } else {
      assert box + [] == box;
    }
  }

  // ---------- what a step does to the rooms ----------

  /** The change of membership, if any, that a step makes and announces. */
  datatype Move =
    | Opened(room: RoomId, owner: ParticipantId)
    | Entered(room: RoomId, text: string, p: ParticipantId)
    | Went(room: RoomId, p: ParticipantId)
    | NoMove

  function MoveOf(ids: UuidText, cfg: Limiter.Config, s: Server, a: Action): Move {
    match a
    case Text(c, Some(m), id, now) =>
      if c !in s.conns || !Limiter.Decide(cfg, s.conns[c].limiter, now).1 then NoMove
      else MoveBy(ids, s.hub, s.conns[c], m, id)
    case DisconnectAbnormal(c) => if c in s.conns then Going(s.hub, s.conns[c]) else NoMove
    case _ => NoMove
  }

  function MoveBy(ids: UuidText, hub: Hub, conn: Conn, m: ClientToServer, id: RoomId): Move {
    match m
    case CreateRoom => Opened(id, conn.me)
    case JoinRoom(text) =>
      var r := ids.ParseRoom(text);
      if r.Some? && r.value in hub.rooms
         && (conn.me in hub.rooms[r.value] || |hub.rooms[r.value]| < MAX_PARTICIPANTS)
      then Entered(r.value, text, conn.me) else NoMove
    case LeaveRoom => Going(hub, conn)
    case Relay(_, _) => NoMove
  }

  function Going(hub: Hub, conn: Conn): Move {
    if conn.room.Some? && conn.room.value in hub.rooms then Went(conn.room.value, conn.me) else NoMove
  }

  /** The list of the move's room after it. */
  function NewList(rooms: RoomTable, move: Move): seq<ParticipantId>
    requires move.Entered? || move.Went? ==> move.room in rooms
  {
    match move
    case Opened(_, owner) => [owner]
    case Entered(r, _, p) => if p in rooms[r] then rooms[r] else rooms[r] + [p]
    case Went(r, p) => Without(rooms[r], p)
    case NoMove => []
  }

  function MoveText(ids: UuidText, move: Move): string {
    match move
    case Entered(_, text, _) => text
    case Opened(r, _) => ids.ShowRoom(r)
    case Went(r, _) => ids.ShowRoom(r)
    case NoMove => ""
  }

  /** The rosters `p` can find after a step: the announced list under the announced text for the members of
    the move's room, and what was there before under every other text and for everybody else. */
  ghost predicate Announced(ids: UuidText, hub: Hub, hub': Hub, move: Move) {
    && (move.Entered? || move.Went? ==> move.room in hub.rooms)
    && var list := NewList(hub.rooms, move);
    && hub'.rooms == (if move.NoMove? then hub.rooms
                      else if list == [] then hub.rooms - {move.room} else hub.rooms[move.room := list])
    && forall p, text :: LastByText(MailOf(hub'.mail, p), text) ==
         if (move.Entered? || move.Went?) && p in list && text == MoveText(ids, move) then Some(ids.ShowAll(list))
         else LastByText(MailOf(hub.mail, p), text)
  }

  lemma EnteredAnnounces(ids: UuidText, hub: Hub, conn: Conn, text: string)
    requires RoomsOk(hub.rooms) && MoveBy(ids, hub, conn, JoinRoom(text), RoomId(0)).Entered?
    ensures Announced(ids, hub, DoJoin(ids, hub, conn, text).0, MoveBy(ids, hub, conn, JoinRoom(text), RoomId(0)))
  {
    hide SendEach, NoDup, LastByText;
    var move := MoveBy(ids, hub, conn, JoinRoom(text), RoomId(0));
    var list := NewList(hub.rooms, move);
    var hub' := DoJoin(ids, hub, conn, text).0;
    ApplyKeepsRooms(hub.rooms, Join(move.room, conn.me));
    assert Joined(hub.rooms, move.room, conn.me).0 == hub.rooms[move.room := list];
    assert list == hub'.rooms[move.room];
    forall p, other ensures LastByText(MailOf(hub'.mail, p), other) ==
      if p in list && other == text then Some(ids.ShowAll(list)) else LastByText(MailOf(hub.mail, p), other)
    {
      AnnouncedByText(hub.mail, list, PeerConnected(ids.ShowParticipant(conn.me)), ids.ShowAll(list), text, p, other);
    }
  }

  lemma WentAnnounces(ids: UuidText, hub: Hub, r: RoomId, q: ParticipantId)
    requires RoomsOk(hub.rooms) && r in hub.rooms
    ensures var (rooms, rest) := Left(hub.rooms, r, q);
      Announced(ids, hub, Hub(rooms, AnnounceLeave(ids, hub.mail, r, q, rest.value)), Went(r, q))
  {
    hide SendEach, NoDup, LastByText, Without;
    var list := Without(hub.rooms[r], q);
    var mail := AnnounceLeave(ids, hub.mail, r, q, list);
    WithoutNoDup(hub.rooms[r], q);
    forall p, other ensures LastByText(MailOf(mail, p), other) ==
      if p in list && other == ids.ShowRoom(r) then Some(ids.ShowAll(list)) else LastByText(MailOf(hub.mail, p), other)
    {
      AnnouncedByText(hub.mail, list, PeerDisconnected(ids.ShowParticipant(q)), ids.ShowAll(list), ids.ShowRoom(r),
                      p, other);
    }
  }

  lemma RelayAnnouncesNothing(ids: UuidText, hub: Hub, conn: Conn, recipient: string, what: Relayed)
    ensures Announced(ids, hub, DoRelay(ids, hub, conn, recipient, what).0, NoMove)
  {
    hide LastByText;
    var hub' := DoRelay(ids, hub, conn, recipient, what).0;
    forall p, text ensures LastByText(MailOf(hub'.mail, p), text) == LastByText(MailOf(hub.mail, p), text) {
      LastByTextAppend(MailOf(hub.mail, p), ServerToClient.Relayed(ids.ShowParticipant(conn.me), what), text);
    }
  }

  lemma MessageAnnounces(ids: UuidText, hub: Hub, conn: Conn, m: ClientToServer, id: RoomId)
    requires RoomsOk(hub.rooms)
    ensures Announced(ids, hub, Dispatch(ids, hub, conn, true, Some(m), id).0, MoveBy(ids, hub, conn, m, id))
  {
    hide LastByText, RoomsOk, Announced, DoJoin, DoLeave, DoRelay;
    match m
    case CreateRoom => OpenedAnnounces(ids, hub, conn, id);
    case JoinRoom(text) => JoinAnnounces(ids, hub, conn, text);
    case LeaveRoom => GoingAnnounces(ids, hub, conn);
    case Relay(recipient, what) => RelayAnnouncesNothing(ids, hub, conn, recipient, what);
  }

  lemma OpenedAnnounces(ids: UuidText, hub: Hub, conn: Conn, id: RoomId)
    ensures Announced(ids, hub, DoCreate(ids, hub, conn, id).0, Opened(id, conn.me))
  {
    hide LastByText;
  }

  lemma JoinAnnounces(ids: UuidText, hub: Hub, conn: Conn, text: string)
    requires RoomsOk(hub.rooms)
    ensures Announced(ids, hub, DoJoin(ids, hub, conn, text).0, MoveBy(ids, hub, conn, JoinRoom(text), RoomId(0)))
  {
    if MoveBy(ids, hub, conn, JoinRoom(text), RoomId(0)).Entered? {
      EnteredAnnounces(ids, hub, conn, text);
    } else {
      hide LastByText;
      assert DoJoin(ids, hub, conn, text).0 == hub;
    }
  }

  lemma GoingAnnounces(ids: UuidText, hub: Hub, conn: Conn)
    requires RoomsOk(hub.rooms)
    ensures Announced(ids, hub, AbnormalClose(ids, hub, conn).0, Going(hub, conn))
    ensures Announced(ids, hub, DoLeave(ids, hub, conn).0, Going(hub, conn))
  {
    hide Announced, AnnounceLeave;
    if Going(hub, conn).Went? {
      WentAnnounces(ids, hub, conn.room.value, conn.me);
    } else {
      NothingAnnounced(ids, hub);
    }
  }

  lemma NothingAnnounced(ids: UuidText, hub: Hub)
    ensures Announced(ids, hub, hub, NoMove)
  {
    hide LastByText;
  }

  lemma StepAnnounces(ids: UuidText, cfg: Limiter.Config, s: Server, a: Action)
    requires RoomsOk(s.hub.rooms)
    ensures Announced(ids, s.hub, Step(ids, cfg, s, a).hub, MoveOf(ids, cfg, s, a))
  {
    hide Limiter.Decide, LastByText, Announced, RoomsOk;
    if MoveOf(ids, cfg, s, a).NoMove? {
      NothingAnnounced(ids, s.hub);
    }
    match a
    case Text(c, Some(m), id, now) =>
      if c in s.conns && Limiter.Decide(cfg, s.conns[c].limiter, now).1 {
        var conn := s.conns[c].(limiter := Limiter.Decide(cfg, s.conns[c].limiter, now).0);
        MessageAnnounces(ids, s.hub, conn, m, id);
      }
    case DisconnectAbnormal(c) =>
      if c in s.conns {
        GoingAnnounces(ids, s.hub, s.conns[c]);
      }
    case _ =>
  }

  // ---------- when the rosters are right ----------

  /** The first member has no roster although it is not alone, or one that is too short. */
  predicate Stale(ids: UuidText, hub: Hub, r: RoomId)
    requires r in hub.rooms
  {
    hub.rooms[r] != [] &&
    match LastByText(MailOf(hub.mail, hub.rooms[r][0]), ids.ShowRoom(r))
    case None => |hub.rooms[r]| > 1
    case Some(texts) => |texts| < |hub.rooms[r]|
  }

  ghost predicate TextState(ids: UuidText, hub: Hub, r: RoomId, right: bool)
    requires r in hub.rooms
  {
    if right then RoomByTextOk(ids, hub, r) else Stale(ids, hub, r)
  }

  /** Whether `r` has the rosters right after this move, if `right` says so for before. */
  predicate StillRight(ids: UuidText, rooms: RoomTable, move: Move, r: RoomId, right: bool) {
    if move.NoMove? || move.room != r then right
    else MoveText(ids, move) == ids.ShowRoom(r) || (right && IsMember(rooms, r, move.p))
  }

  /** A move of the room itself. */
  lemma OwnMoveDecides(ids: UuidText, hub: Hub, hub': Hub, move: Move, right: bool)
    requires !move.NoMove? && RoomsOk(hub.rooms) && Announced(ids, hub, hub', move)
    requires move.room in hub'.rooms && (move.room in hub.rooms ==> TextState(ids, hub, move.room, right))
    requires move.Opened? ==> forall p :: LastByText(MailOf(hub.mail, p), ids.ShowRoom(move.room)) == None
    ensures TextState(ids, hub', move.room, StillRight(ids, hub.rooms, move, move.room, right))
  {
    hide LastByText, NewList;
    var r := move.room;
    var list := NewList(hub.rooms, move);
    assert list == hub'.rooms[r];
    if MoveText(ids, move) == ids.ShowRoom(r) {
      forall p | p in list ensures RosterByTextOk(ids, hub', r, p) {
        OpenedAlone(hub.rooms, move);
      }
    } else {
      assert RoomOk(hub.rooms[r]);
      MisspelledEntry(hub.rooms, move);
      if move.p in hub.rooms[r] {
        SameState(ids, hub, hub', r, right);
      } else {
        assert hub.rooms[r][0] in hub.rooms[r];
        assert right ==> RosterByTextOk(ids, hub, r, hub.rooms[r][0]);
      }
    }
  }

  lemma MoveDecides(ids: UuidText, hub: Hub, hub': Hub, move: Move, r: RoomId, right: bool)
    requires ids.Faithful() && RoomsOk(hub.rooms) && Announced(ids, hub, hub', move)
    requires r in hub'.rooms && (r in hub.rooms ==> TextState(ids, hub, r, right))
    requires move.Entered? ==> ids.ParseRoom(move.text) == Some(move.room)
    requires move.Opened? ==> forall p :: LastByText(MailOf(hub.mail, p), ids.ShowRoom(move.room)) == None
    ensures TextState(ids, hub', r, StillRight(ids, hub.rooms, move, r, right))
  {
    hide LastByText, NewList;
    if move.NoMove? || move.room != r {
      assert ids.ParseRoom(ids.ShowRoom(r)) == Some(r);
      assert move.Went? ==> ids.ParseRoom(MoveText(ids, move)) == Some(move.room);
      SameState(ids, hub, hub', r, right);
    } else {
      OwnMoveDecides(ids, hub, hub', move, right);
    }
  }

  lemma OpenedAlone(rooms: RoomTable, move: Move)
    requires move.Entered? || move.Went? ==> move.room in rooms
    ensures move.Opened? ==> NewList(rooms, move) == [move.owner]
  {
  }

  lemma MisspelledEntry(rooms: RoomTable, move: Move)
    requires move.Entered? && move.room in rooms && rooms[move.room] != []
    ensures var was, list := rooms[move.room], NewList(rooms, move);
      if move.p in was then list == was else |list| == |was| + 1 && list[0] == was[0]
  {
  }

  /** Where neither the list nor any roster under its printed id changed, the verdict does not. */
  lemma SameState(ids: UuidText, hub: Hub, hub': Hub, r: RoomId, right: bool)
    requires r in hub.rooms && r in hub'.rooms && hub.rooms[r] == hub'.rooms[r] && TextState(ids, hub, r, right)
    requires forall p ::
      LastByText(MailOf(hub'.mail, p), ids.ShowRoom(r)) == LastByText(MailOf(hub.mail, p), ids.ShowRoom(r))
    ensures TextState(ids, hub', r, right)
  {
    hide LastByText;
    if right {
      forall p | p in hub'.rooms[r] ensures RosterByTextOk(ids, hub', r, p) {
        assert RosterByTextOk(ids, hub, r, p);
      }
    }
  }

  /** What has no roster when ids are parsed has none by its printed text. */
  lemma {:induction false} TextFollowsRoster(ids: UuidText, box: seq<ServerToClient>, r: RoomId)
    requires ids.Faithful() && LastRoster(ids, box, r) == None
    ensures LastByText(box, ids.ShowRoom(r)) == None
  {
    if box == [] {
    } else {
      TextFollowsRoster(ids, box[..|box| - 1], r);
    }
  }

  /** The verdict on the actions alone: a room starts out right; an announcement under the printed id makes
    it right; one under another spelling makes it wrong if it brought a new member. */
  predicate InStep(ids: UuidText, cfg: Limiter.Config, acts: History<Action>, r: RoomId) {
    match acts
    case Start => true
    case Then(before, a) =>
      var s := BloomServer.Run(ids, cfg, before);
      StillRight(ids, s.hub.rooms, MoveOf(ids, cfg, s, a), r, InStep(ids, cfg, before, r))
  }

  lemma {:induction false} RosterTextState(ids: UuidText, cfg: Limiter.Config, acts: History<Action>, r: RoomId)
    requires ids.Faithful() && FreshRun(ids, cfg, acts) && r in BloomServer.Run(ids, cfg, acts).hub.rooms
    ensures TextState(ids, BloomServer.Run(ids, cfg, acts).hub, r, InStep(ids, cfg, acts, r))
  {
    var before, a := acts.past, acts.last;
    var s := BloomServer.Run(ids, cfg, before);
    var move := MoveOf(ids, cfg, s, a);
    FreshRunsKeepHub(ids, cfg, before);
    StepAnnounces(ids, cfg, s, a);
    if r in s.hub.rooms {
      RosterTextState(ids, cfg, before, r);
    }
    hide TextState, StillRight, Step, LastByText, LastRoster, Announced, RoomsOk, RostersOk;
    if move.Opened? {
      forall p ensures LastByText(MailOf(s.hub.mail, p), ids.ShowRoom(move.room)) == None {
        TextFollowsRoster(ids, MailOf(s.hub.mail, p), move.room);
      }
    }
    MoveDecides(ids, s.hub, Step(ids, cfg, s, a).hub, move, r, InStep(ids, cfg, before, r));
  }

  /** Over every run: the members of a room have the right roster under its printed id if and only if no
    client entered the room under another spelling since the last announcement under the printed id, or,
    if there was none, since the room was opened. */
  lemma TextRostersExactly(ids: UuidText, cfg: Limiter.Config, acts: History<Action>, r: RoomId)
    requires ids.Faithful() && FreshRun(ids, cfg, acts) && r in BloomServer.Run(ids, cfg, acts).hub.rooms
    ensures RoomByTextOk(ids, BloomServer.Run(ids, cfg, acts).hub, r) <==> InStep(ids, cfg, acts, r)
  {
    hide BloomServer.Run, FreshRun, InStep;
    RosterTextState(ids, cfg, acts, r);
    if !InStep(ids, cfg, acts, r) {
      StaleIsWrong(ids, BloomServer.Run(ids, cfg, acts).hub, r);
    }
  }

  lemma StaleIsWrong(ids: UuidText, hub: Hub, r: RoomId)
    requires r in hub.rooms && Stale(ids, hub, r)
    ensures !RoomByTextOk(ids, hub, r)
  {
    hide LastByText;
    assert hub.rooms[r][0] in hub.rooms[r];
    assert !RosterByTextOk(ids, hub, r, hub.rooms[r][0]);
  }

  /** The same for one join, in any state with right rosters. */
  lemma JoinSpellingMatters(ids: UuidText, hub: Hub, conn: Conn, drawn: set<RoomId>, text: string, r: RoomId)
    requires HubOk(ids, hub, drawn) && ids.ParseRoom(text) == Some(r)
    requires r in hub.rooms && RoomByTextOk(ids, hub, r)
    requires conn.me in hub.rooms[r] || |hub.rooms[r]| < MAX_PARTICIPANTS
    ensures var hub' := DoJoin(ids, hub, conn, text).0;
      r in hub'.rooms && (RoomByTextOk(ids, hub', r) <==> text == ids.ShowRoom(r) || conn.me in hub.rooms[r])
  {
    var hub' := DoJoin(ids, hub, conn, text).0;
    var move := MoveBy(ids, hub, conn, JoinRoom(text), RoomId(0));
    EnteredAnnounces(ids, hub, conn, text);
    assert r in hub'.rooms;
    hide DoJoin, HubOk, Stale, RoomByTextOk, LastByText;
    OwnMoveDecides(ids, hub, hub', move, true);
    if Stale(ids, hub', r) {
      StaleIsWrong(ids, hub', r);
    }
  }

  // ---------- the two kinds of misspelled join ----------

  const CFG: Limiter.Config := Limiter.Config(20, 1_000_000_000)

  function TwoConnected(p: ParticipantId, q: ParticipantId, r: RoomId): History<Action> {
    Then(Then(Then(Start, Connect(0, p)), Connect(1, q)), Text(0, Some(CreateRoom), r, 0))
  }

  lemma TwoConnectedRuns(ids: UuidText, p: ParticipantId, q: ParticipantId, r: RoomId)
    requires p != q
    ensures var s := BloomServer.Run(ids, CFG, TwoConnected(p, q, r));
      && LawfulRun(ids, CFG, TwoConnected(p, q, r)) && s.hub == Hub(map[r := [p]], map[]) && s.drawn == {r}
      && s.conns.Keys == {0, 1} && s.conns[1] == Conn(q, None, Limiter.FRESH, [])
      && s.conns[0].me == p && s.conns[0].limiter == Limiter.State([0], None)
  {
    var h1 := Then(Start, Connect(0, p));
    var h2 := Then(h1, Connect(1, q));
    var one, two := Conn(p, None, Limiter.FRESH, []), Conn(q, None, Limiter.FRESH, []);
    assert Limiter.Live(CFG, Limiter.FRESH, 0) + [0] == [0];
    assert Limiter.Decide(CFG, Limiter.FRESH, 0) == (Limiter.State([0], None), true);
    assert BloomServer.Run(ids, CFG, Start) == EMPTY && LawfulRun(ids, CFG, Start);
    assert BloomServer.Run(ids, CFG, h1) == Server(Hub(map[], map[]), map[0 := one], {}) && LawfulRun(ids, CFG, h1);
    assert BloomServer.Run(ids, CFG, h2) == Server(Hub(map[], map[]), map[0 := one, 1 := two], {})
      && LawfulRun(ids, CFG, h2);
  }

  /** A second client enters under another spelling: the first one, no longer alone, has no roster under the
    printed id. */
  lemma MisspelledEntryIsMissed(ids: UuidText, p: ParticipantId, q: ParticipantId, r: RoomId, text: string)
    requires ids.Faithful() && p != q && ids.ParseRoom(text) == Some(r) && text != ids.ShowRoom(r)
    ensures var acts := Then(TwoConnected(p, q, r), Text(1, Some(JoinRoom(text)), RoomId(r.uuid + 1), 0));
      var hub := BloomServer.Run(ids, CFG, acts).hub;
      && LawfulRun(ids, CFG, acts) && hub.rooms == map[r := [p, q]]
      && LastByText(MailOf(hub.mail, p), ids.ShowRoom(r)) == None && !RoomByTextOk(ids, hub, r)
  {
    hide LastByText;
    TwoConnectedRuns(ids, p, q, r);
    var before := TwoConnected(p, q, r);
    var s := BloomServer.Run(ids, CFG, before);
    var a := Text(1, Some(JoinRoom(text)), RoomId(r.uuid + 1), 0);
    assert Limiter.Decide(CFG, Limiter.FRESH, 0).1;
    StepAnnounces(ids, CFG, s, a);
    var hub := Step(ids, CFG, s, a).hub;
    EmptyBox(ids.ShowRoom(r));
    assert BloomServer.Run(ids, CFG, Then(before, a)).hub == hub;
    assert [p] + [q] == [p, q];
    assert hub.rooms == map[r := [p, q]];
    StaleIsWrong(ids, hub, r);
  }

  lemma EmptyBox(text: string)
    ensures LastByText([], text) == None
  {
  }

  /** A member that joins again under another spelling does no harm, although the latest announcement then
    is not under the printed id. */
  lemma MisspelledRejoinIsHarmless(ids: UuidText, p: ParticipantId, q: ParticipantId, r: RoomId, text: string)
    requires ids.Faithful() && p != q && ids.ParseRoom(text) == Some(r) && text != ids.ShowRoom(r)
    ensures var acts := Then(TwoConnected(p, q, r), Text(0, Some(JoinRoom(text)), RoomId(r.uuid + 1), 0));
      var hub := BloomServer.Run(ids, CFG, acts).hub;
      && LawfulRun(ids, CFG, acts) && hub.rooms == map[r := [p]]
      && LastByText(MailOf(hub.mail, p), text) == Some(ids.ShowAll([p])) && RoomByTextOk(ids, hub, r)
  {
    hide LastByText;
    TwoConnectedRuns(ids, p, q, r);
    var before := TwoConnected(p, q, r);
    var s := BloomServer.Run(ids, CFG, before);
    var a := Text(0, Some(JoinRoom(text)), RoomId(r.uuid + 1), 0);
    assert Limiter.Evict(0, CFG.window, [0]) == [0];
    assert Limiter.Decide(CFG, Limiter.State([0], None), 0).1;
    StepAnnounces(ids, CFG, s, a);
    EmptyBox(ids.ShowRoom(r));
    assert BloomServer.Run(ids, CFG, Then(before, a)).hub == Step(ids, CFG, s, a).hub;
  }
}
