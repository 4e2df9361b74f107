/** The syncer's table of participants: sessions by participant, and the order in which they joined. */
module ParticipantTables {
  import opened Wrappers
  import opened Histories
  import opened Ids
  import opened SyncerTypes

  datatype Table = Table(sessions: map<ParticipantId, nat>, order: seq<ParticipantId>, nextSession: nat)

  const EMPTY: Table := Table(map[], [], 1)

  /** `order` without the first occurrence of `p`. */
  function RemoveFirst(order: seq<ParticipantId>, p: ParticipantId): seq<ParticipantId> {
    if order == [] then []
    else
      var front := order[..|order| - 1];
      var last := order[|order| - 1];
      if p in front || last != p then RemoveFirst(front, p) + [last] else front
  }

  function JoinStep(t: Table, p: ParticipantId): (Table, seq<SyncerEvent>) {
    var rejoin := p in t.sessions;
    var order := if rejoin then RemoveFirst(t.order, p) else t.order;
    (Table(t.sessions[p := t.nextSession], order + [p], t.nextSession + 1),
     (if rejoin then [PeerLeft(p)] else []) + [PeerJoined(p)])
  }

  function LeaveStep(t: Table, p: ParticipantId): (Table, seq<SyncerEvent>) {
    if p in t.sessions
    then (t.(sessions := t.sessions - {p}, order := RemoveFirst(t.order, p)), [PeerLeft(p)])
    else (t, [])
  }

  function PendingStep(ids: UuidText, t: Table, event: PendingPeerEvent): (Table, seq<SyncerEvent>) {
    match ids.ParseParticipant(event.participantId)
    case None => (t, [SyncerEvent.Error(InvalidParticipantId(event.participantId))])
    case Some(p) => if event.joined then JoinStep(t, p) else LeaveStep(t, p)
  }

  class ParticipantTable {
    var sessions: map<ParticipantId, nat>
    var order: seq<ParticipantId>
    var nextSession: nat

    ghost function Contents(): Table
      reads this
    {
      Table(sessions, order, nextSession)
    }

    constructor ()
      ensures Contents() == EMPTY
    {
      sessions, order, nextSession := map[], [], 1;
    }

    method RemoveFromOrder(p: ParticipantId)
      modifies this`order
      ensures order == RemoveFirst(old(order), p)
    {
      var i := 0;
      while i < |order| && order[i] != p
        invariant i <= |order| && order == old(order)
        invariant p !in order[..i]
      {
        i := i + 1;
      }
      if i < |order| {
        RemoveFirstAt(order, p, i);
        order := order[..i] + order[i + 1..];
      } else {
        assert order[..i] == order;
        RemoveFirstAbsent(order, p);
      }
    }

    method ApplyJoin(p: ParticipantId) returns (events: seq<SyncerEvent>)
      modifies this
      ensures (Contents(), events) == JoinStep(old(Contents()), p)
    {
      events := [];
      if p in sessions {
        sessions := sessions - {p};
        RemoveFromOrder(p);
        events := events + [PeerLeft(p)];
      }
      assert events == if p in old(sessions) then [PeerLeft(p)] else [];
      assert sessions[p := nextSession] == old(sessions)[p := nextSession];
      sessions := sessions[p := nextSession];
      nextSession := nextSession + 1;
      order := order + [p];
      events := events + [PeerJoined(p)];
    }

    method ApplyLeave(p: ParticipantId) returns (events: seq<SyncerEvent>)
      modifies this
      ensures (Contents(), events) == LeaveStep(old(Contents()), p)
    {
      if p in sessions {
        sessions := sessions - {p};
        RemoveFromOrder(p);
        events := [PeerLeft(p)];
      } else {
        events := [];
      }
    }

    method ApplyPendingPeerEvent(ids: UuidText, event: PendingPeerEvent) returns (events: seq<SyncerEvent>)
      modifies this
      ensures (Contents(), events) == PendingStep(ids, old(Contents()), event)
    {
      var p := ids.ParseParticipant(event.participantId);
      if p.None? {
        events := [SyncerEvent.Error(InvalidParticipantId(event.participantId))];
      } else if event.joined {
        events := ApplyJoin(p.value);
      } else {
        events := ApplyLeave(p.value);
      }
    }

    predicate IsRegistered(p: ParticipantId)
      reads this
    {
      p in sessions
    }

    function Participants(): seq<ParticipantId>
      reads this
    {
      order
    }
  }

  lemma {:induction false} RemoveFirstAbsent(order: seq<ParticipantId>, p: ParticipantId)
    requires p !in order
    ensures RemoveFirst(order, p) == order
  {
    if order == [] {
    } else {
      RemoveFirstAbsent(order[..|order| - 1], p);
    }
  }

  lemma {:induction false} RemoveFirstAt(order: seq<ParticipantId>, p: ParticipantId, i: nat)
    requires i < |order| && order[i] == p && p !in order[..i]
    ensures RemoveFirst(order, p) == order[..i] + order[i + 1..]
  {
    var n := |order| - 1;
    if i < n {
      assert order[..n][..i] == order[..i];
      RemoveFirstAt(order[..n], p, i);
      assert order[..n][i] == p;
    }
  }

  // ---------- index agreement ----------

  /** The elements of `s` are ranked strictly upwards, all below `bound`. */
  predicate Rising(s: seq<ParticipantId>, rank: map<ParticipantId, nat>, bound: nat) {
    s != [] ==>
      var last := s[|s| - 1];
      last in rank && rank[last] < bound && Rising(s[..|s| - 1], rank, rank[last])
  }

  /** Both indexes describe the same participants: `order` lists the keys of `sessions` by strictly
    increasing session number, all below the next number to hand out. */
  ghost predicate Agrees(t: Table) {
    && (forall p :: p in t.order <==> p in t.sessions)
    && Rising(t.order, t.sessions, t.nextSession)
  }

  datatype Op = DoJoin(p: ParticipantId) | DoLeave(p: ParticipantId)

  function Run(ops: History<Op>): Table {
    match ops
    case Start => EMPTY
    case Then(before, DoJoin(p)) => JoinStep(Run(before), p).0
    case Then(before, DoLeave(p)) => LeaveStep(Run(before), p).0
  }

  /** On a duplicate-free list, removing the first occurrence removes the element. */
  lemma {:induction false} RemoveFirstIsWithout(order: seq<ParticipantId>, p: ParticipantId)
    requires NoDup(order)
    ensures RemoveFirst(order, p) == Without(order, p)
  {
    if order == [] {
    } else {
      var front := order[..|order| - 1];
      assert order == front + [order[|order| - 1]];
      RemoveFirstIsWithout(front, p);
      if order[|order| - 1] == p {
        assert p !in front;
      }
    }
  }

  lemma {:induction false} RisingBelow(s: seq<ParticipantId>, rank: map<ParticipantId, nat>, bound: nat, i: nat)
    requires Rising(s, rank, bound) && i < |s|
    ensures s[i] in rank && rank[s[i]] < bound
  {
    if i < |s| - 1 {
      RisingBelow(s[..|s| - 1], rank, rank[s[|s| - 1]], i);
    }
  }

  lemma {:induction false} RisingAt(s: seq<ParticipantId>, rank: map<ParticipantId, nat>, bound: nat, i: nat, j: nat)
    requires Rising(s, rank, bound) && i < j < |s|
    ensures s[i] in rank && s[j] in rank && rank[s[i]] < rank[s[j]]
  {
    var front := s[..|s| - 1];
    if j < |s| - 1 {
      RisingAt(front, rank, rank[s[|s| - 1]], i, j);
    } else {
      RisingBelow(front, rank, rank[s[j]], i);
    }
  }

  lemma RisingIsNoDup(s: seq<ParticipantId>, rank: map<ParticipantId, nat>, bound: nat)
    requires Rising(s, rank, bound)
    ensures NoDup(s)
  {
    forall i, j | 0 <= i < j < |s| ensures s[i] != s[j] {
      RisingAt(s, rank, bound, i, j);
    }
  }

  lemma {:induction false} RisingFrame(s: seq<ParticipantId>, rank: map<ParticipantId, nat>,
                                       rank': map<ParticipantId, nat>, bound: nat, bound': nat)
    requires Rising(s, rank, bound) && bound <= bound'
    requires forall q :: q in s && q in rank ==> q in rank' && rank'[q] == rank[q]
    ensures Rising(s, rank', bound')
  {
    if s == [] {
    } else {
      var n := |s| - 1;
      assert s[n] in s;
      RisingFrame(s[..n], rank, rank', rank[s[n]], rank[s[n]]);
    }
  }

  lemma RisingAppend(s: seq<ParticipantId>, rank: map<ParticipantId, nat>, p: ParticipantId, bound: nat)
    requires p in rank && rank[p] < bound && Rising(s, rank, rank[p])
    ensures Rising(s + [p], rank, bound)
  {
    assert (s + [p])[..|s|] == s;
  }

  lemma {:induction false} RisingWithout(s: seq<ParticipantId>, rank: map<ParticipantId, nat>, p: ParticipantId,
                                         bound: nat)
    requires Rising(s, rank, bound)
    ensures Rising(Without(s, p), rank, bound)
  {
    if s == [] {
    } else {
      var n := |s| - 1;
      RisingWithout(s[..n], rank, p, rank[s[n]]);
      var rest := Without(s[..n], p);
      if s[n] == p {
        RisingFrame(rest, rank, rank, rank[s[n]], bound);
      } else {
        RisingAppend(rest, rank, s[n], bound);
      }
    }
  }

  lemma LeaveKeepsAgreement(t: Table, p: ParticipantId)
    requires Agrees(t)
    ensures var t' := LeaveStep(t, p).0;
      Agrees(t') && t'.order == Without(t.order, p) && t'.nextSession == t.nextSession
  {
    if p in t.sessions {
      RisingIsNoDup(t.order, t.sessions, t.nextSession);
      RemoveFirstIsWithout(t.order, p);
      RisingWithout(t.order, t.sessions, p, t.nextSession);
      hide Rising, Without, RemoveFirst;
      RisingFrame(Without(t.order, p), t.sessions, t.sessions - {p}, t.nextSession, t.nextSession);
    }
  }

  lemma JoinKeepsAgreement(t: Table, p: ParticipantId)
    requires Agrees(t)
    ensures var t' := JoinStep(t, p).0;
      Agrees(t') && t'.order == Without(t.order, p) + [p]
  {
    hide Rising, Without, RemoveFirst;
    LeaveKeepsAgreement(t, p);
    var left := LeaveStep(t, p).0;
    var sessions := t.sessions[p := t.nextSession];
    RisingFrame(left.order, left.sessions, sessions, t.nextSession, t.nextSession);
    RisingAppend(left.order, sessions, p, t.nextSession + 1);
  }

  /** Index agreement in every reachable table: `order` has no duplicates, lists exactly the registered
    participants, and is the session map sorted by session number. */
  lemma {:induction false} TablesAgree(ops: History<Op>)
    ensures var t := Run(ops);
      && Agrees(t) && NoDup(t.order)
      && forall i, j :: 0 <= i < j < |t.order| ==>
           t.order[i] in t.sessions && t.order[j] in t.sessions && t.sessions[t.order[i]] < t.sessions[t.order[j]]
  {
    hide Rising;
    if ops.Then? {
      TablesAgree(ops.past);
      JoinKeepsAgreement(Run(ops.past), ops.last.p);
      LeaveKeepsAgreement(Run(ops.past), ops.last.p);
    } else {
      EmptyAgrees();
    }
    var t := Run(ops);
    RisingIsNoDup(t.order, t.sessions, t.nextSession);
    forall i, j | 0 <= i < j < |t.order|
      ensures t.order[i] in t.sessions && t.order[j] in t.sessions && t.sessions[t.order[i]] < t.sessions[t.order[j]]
    {
      RisingAt(t.order, t.sessions, t.nextSession, i, j);
    }
  }

  lemma EmptyAgrees()
    ensures Agrees(EMPTY)
  {
  }

  // ---------- events tell the whole story ----------

  /** The list a listener keeps: append who joined, drop who left, ignore everything else. */
  function Replay(members: seq<ParticipantId>, events: seq<SyncerEvent>): seq<ParticipantId> {
    if events == [] then members
    else Heard(Replay(members, events[..|events| - 1]), events[|events| - 1])
  }

  function Heard(members: seq<ParticipantId>, e: SyncerEvent): seq<ParticipantId> {
    if e.PeerJoined? then members + [e.participant]
    else if e.PeerLeft? then Without(members, e.participant)
    else members
  }

  lemma {:induction false} ReplayAppend(members: seq<ParticipantId>, a: seq<SyncerEvent>, b: seq<SyncerEvent>)
    ensures Replay(members, a + b) == Replay(Replay(members, a), b)
  {
    if b == [] {
      assert a + b == a;
    } else {
      ReplayAppend(members, a, b[..|b| - 1]);
      assert (a + b)[..|a + b| - 1] == a + b[..|b| - 1];
    }
  }

  lemma ReplayOne(members: seq<ParticipantId>, e: SyncerEvent)
    ensures Replay(members, [e]) == Heard(members, e)
  {
    assert [e][..0] == [];
  }

  lemma JoinReplays(t: Table, p: ParticipantId)
    requires Agrees(t)
    ensures var (t', events) := JoinStep(t, p); Replay(t.order, events) == t'.order
  {
    JoinKeepsAgreement(t, p);
    ReplayAppend(t.order, if p in t.sessions then [PeerLeft(p)] else [], [PeerJoined(p)]);
    ReplayOne(t.order, PeerLeft(p));
    ReplayOne(Without(t.order, p), PeerJoined(p));
  }

  lemma PendingReplays(ids: UuidText, t: Table, event: PendingPeerEvent)
    requires Agrees(t)
    ensures var (t', events) := PendingStep(ids, t, event); Agrees(t') && Replay(t.order, events) == t'.order
  {
    var p := ids.ParseParticipant(event.participantId);
    if p.None? {
      ReplayOne(t.order, SyncerEvent.Error(InvalidParticipantId(event.participantId)));
    } else if event.joined {
      JoinKeepsAgreement(t, p.value);
      JoinReplays(t, p.value);
    } else {
      LeaveKeepsAgreement(t, p.value);
      ReplayOne(t.order, PeerLeft(p.value));
    }
  }
}
