/** Rooms and their members: the room manager and the core the connection handlers call. */
module Rooms {
  import opened Wrappers
  import opened Histories
  import opened Ids

  const MAX_PARTICIPANTS: nat := 8

  type RoomTable = map<RoomId, seq<ParticipantId>>

  datatype JoinError = RoomFull

  function Created(rooms: RoomTable, room: RoomId, owner: ParticipantId): RoomTable {
    rooms[room := [owner]]
  }

  function Joined(rooms: RoomTable, room: RoomId, p: ParticipantId)
    : (RoomTable, Option<Result<seq<ParticipantId>, JoinError>>)
  {
    if room !in rooms then (rooms, None)
    else if p in rooms[room] then (rooms, Some(Ok(rooms[room])))
    else if |rooms[room]| >= MAX_PARTICIPANTS then (rooms, Some(Err(RoomFull)))
    else (rooms[room := rooms[room] + [p]], Some(Ok(rooms[room] + [p])))
  }

  function Left(rooms: RoomTable, room: RoomId, p: ParticipantId): (RoomTable, Option<seq<ParticipantId>>) {
    if room !in rooms then (rooms, None)
    else
      var rest := Without(rooms[room], p);
      (if rest == [] then rooms - {room} else rooms[room := rest], Some(rest))
  }

  /** `fresh` parameters stand for the identifier the source draws at random. */
  class RoomManager {
    var rooms: RoomTable

    constructor ()
      ensures rooms == map[]
    {
      rooms := map[];
    }

    method CreateRoom(owner: ParticipantId, id: RoomId) returns (participants: seq<ParticipantId>)
      modifies this
      ensures rooms == Created(old(rooms), id, owner) && participants == rooms[id]
    {
      participants := [owner];
      rooms := rooms[id := participants];
    }

    method JoinRoom(room: RoomId, p: ParticipantId) returns (outcome: Option<Result<seq<ParticipantId>, JoinError>>)
      modifies this
      ensures (rooms, outcome) == Joined(old(rooms), room, p)
    {
      if room in rooms {
        if |rooms[room]| >= MAX_PARTICIPANTS && p !in rooms[room] {
          return Some(Err(RoomFull));
        }
        if p !in rooms[room] {
          rooms := rooms[room := rooms[room] + [p]];
        }
        return Some(Ok(rooms[room]));
      }
      return None;
    }

    method LeaveRoom(room: RoomId, p: ParticipantId) returns (remaining: Option<seq<ParticipantId>>)
      modifies this
      ensures (rooms, remaining) == Left(old(rooms), room, p)
    {
      if room in rooms {
        var was := rooms[room];
        var kept: seq<ParticipantId> := [];
        for i := 0 to |was|
          invariant rooms == old(rooms)
          invariant kept == Without(was[..i], p)
        {
          assert was[..i + 1][..i] == was[..i];
          if was[i] != p {
            kept := kept + [was[i]];
          }
        }
        assert was[..|was|] == was;
        if kept == [] {
          rooms := rooms - {room};
          return Some([]);
        }
        rooms := rooms[room := kept];
        return Some(kept);
      }
      return None;
    }

    function Participants(room: RoomId): Option<seq<ParticipantId>>
      reads this
    {
      if room in rooms then Some(rooms[room]) else None
    }
  }

  // ---------- room invariants over every run ----------

  datatype Op =
    | Create(room: RoomId, p: ParticipantId)
    | Join(room: RoomId, p: ParticipantId)
    | Leave(room: RoomId, p: ParticipantId)

  function Apply(rooms: RoomTable, op: Op): RoomTable {
    match op
    case Create(r, p) => Created(rooms, r, p)
    case Join(r, p) => Joined(rooms, r, p).0
    case Leave(r, p) => Left(rooms, r, p).0
  }

  function Run(ops: History<Op>): RoomTable {
    match ops
    case Start => map[]
    case Then(before, op) => Apply(Run(before), op)
  }

  ghost predicate RoomsOk(rooms: RoomTable) {
    forall r :: r in rooms ==> RoomOk(rooms[r])
  }

  predicate RoomOk(members: seq<ParticipantId>) {
    1 <= |members| <= 8 && NoDup(members)
  }

  lemma ApplyKeepsRooms(rooms: RoomTable, op: Op)
    requires RoomsOk(rooms)
    ensures RoomsOk(Apply(rooms, op))
  {
    if op.room in rooms {
      WithoutNoDup(rooms[op.room], op.p);
    }
  }

  /** Every reachable room is non-empty, holds at most eight members, and none twice. */
  lemma {:induction false} RoomsStayOk(ops: History<Op>)
    ensures RoomsOk(Run(ops))
  {
    if ops.Start? {
    } else {
      RoomsStayOk(ops.past);
      ApplyKeepsRooms(Run(ops.past), ops.last);
    }
  }

  function MembersOf(rooms: RoomTable, r: RoomId): seq<ParticipantId> {
    if r in rooms then rooms[r] else []
  }

  predicate IsMember(rooms: RoomTable, r: RoomId, p: ParticipantId) {
    r in rooms && p in rooms[r]
  }

  /** The operation by which `p` came into `r`: it was not a member before and is one after. */
  predicate Enters(rooms: RoomTable, op: Op, r: RoomId, p: ParticipantId) {
    op.room == r && !op.Leave? && op.p == p && IsMember(Apply(rooms, op), r, p)
      && (op.Create? || !IsMember(rooms, r, p))
  }

  /** When `p` last entered `r`, as a position in the history counted from 1; 0 when it never did. */
  function EnteredAt(ops: History<Op>, r: RoomId, p: ParticipantId): nat {
    match ops
    case Start => 0
    case Then(before, op) =>
      if Enters(Run(before), op, r, p) then Length(ops) else EnteredAt(before, r, p)
  }

  /** When `p` was last put out of `r`, by leaving or by somebody else creating the room anew; 0 if never. */
  function GoneAt(ops: History<Op>, r: RoomId, p: ParticipantId): nat {
    match ops
    case Start => 0
    case Then(before, op) =>
      if op.room == r && (op == Leave(r, p) || (op.Create? && op.p != p)) then Length(ops) else GoneAt(before, r, p)
  }

  predicate InOrderOfEntry(ops: History<Op>, r: RoomId, members: seq<ParticipantId>) {
    forall i, j :: 0 <= i < j < |members| ==> EnteredAt(ops, r, members[i]) < EnteredAt(ops, r, members[j])
  }

  lemma {:induction false} EnteredBounded(ops: History<Op>, r: RoomId, p: ParticipantId)
    ensures EnteredAt(ops, r, p) <= Length(ops) && GoneAt(ops, r, p) <= Length(ops)
  {
    if ops.Start? {
    } else {
      EnteredBounded(ops.past, r, p);
    }
  }

  /** Who is in a room follows from the history: those who entered it after they last went. */
  lemma {:induction false} MembersEnteredLast(ops: History<Op>, r: RoomId, p: ParticipantId)
    ensures IsMember(Run(ops), r, p) <==> EnteredAt(ops, r, p) > GoneAt(ops, r, p)
  {
    if ops.Start? {
    } else {
      MembersEnteredLast(ops.past, r, p);
      EnteredBounded(ops.past, r, p);
      hide Without;
    }
  }

  lemma {:induction false} WithoutKeepsOrder(ops: History<Op>, r: RoomId, members: seq<ParticipantId>, p: ParticipantId)
    requires InOrderOfEntry(ops, r, members)
    ensures InOrderOfEntry(ops, r, Without(members, p))
  {
    if members == [] {
    } else {
      var n := |members| - 1;
      WithoutKeepsOrder(ops, r, members[..n], p);
      var rest := Without(members[..n], p);
      forall i | 0 <= i < |rest| ensures EnteredAt(ops, r, rest[i]) < EnteredAt(ops, r, members[n]) {
        assert rest[i] in members[..n];
      }
    }
  }

  /** The list of every reachable room is its members in the order of their latest entry. */
  lemma {:induction false} RoomListIsEntryOrder(ops: History<Op>, r: RoomId)
    requires r in Run(ops)
    ensures InOrderOfEntry(ops, r, Run(ops)[r])
  {
    var before, op := Run(ops.past), ops.last;
    RoomsStayOk(ops.past);
    if r in before {
      RoomListIsEntryOrder(ops.past, r);
      var was := before[r];
      if op.room == r && op.Leave? {
        WithoutKeepsOrder(ops.past, r, was, op.p);
      }
      forall p ensures EnteredAt(ops.past, r, p) <= Length(ops.past) {
        EnteredBounded(ops.past, r, p);
      }
    }
  }

  /** A join that took effect is idempotent, even when it filled the room, and leaving right after it
    restores the whole table. */
  lemma LeaveUndoesJoin(rooms: RoomTable, r: RoomId, p: ParticipantId)
    requires RoomsOk(rooms) && r in rooms && p !in rooms[r] && |rooms[r]| < 8
    ensures var joined := Joined(rooms, r, p).0;
      && Joined(joined, r, p) == (joined, Some(Ok(rooms[r] + [p])))
      && Left(joined, r, p) == (rooms, Some(rooms[r]))
  {
    WithoutLast(rooms[r], p);
    assert rooms[r := rooms[r] + [p]][r := rooms[r]] == rooms;
  }
}
