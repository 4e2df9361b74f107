/** The syncer's side of the signaling connection: what the room server relays becomes payloads for the
  transport, and repeated offers tear the old peer connection down.
*/
module SignalingAdapters {
  import opened Wrappers
  import opened Histories
  import opened Ids
  import opened Messages
  import opened SyncerTypes
  import Api = BloomApi

  datatype Context = Context(roomId: string, authToken: string, icePolicy: string)

  /** Participants with a tracked offer, and what was produced so far; `closed` lists the peer connections
    that were torn down. */
  datatype Digest = Digest(active: set<ParticipantId>, payloads: seq<TransportPayload>,
                           events: seq<SyncerEvent>, closed: seq<ParticipantId>)

  /** The message a relayed payload stands for in this session. */
  function Shaped(ctx: Context, from: string, what: Api.Relayed): SignalingMessage {
    match what
    case Offer(sdp) => Offer(1, ctx.roomId, from, ctx.authToken, ctx.icePolicy, sdp)
    case Answer(sdp) => Answer(1, ctx.roomId, from, ctx.authToken, sdp)
    case IceCandidate(candidate) => Ice(1, ctx.roomId, from, ctx.authToken, candidate, None, None)
  }

  /** The first fault of what is relayed into this session, by its fields. */
  function Fault(ctx: Context, what: Api.Relayed): Option<SyncMessageError> {
    if ctx.roomId == "" then Some(Violation("missing_room_id"))
    else if ctx.authToken == "" then Some(Violation("missing_auth_token"))
    else
      match what
      case Offer(sdp) =>
        if sdp == "" then Some(Violation("missing_sdp"))
        else if ctx.icePolicy == "" then Some(Violation("missing_ice_policy")) else None
      case Answer(sdp) => if sdp == "" then Some(Violation("missing_sdp")) else None
      case IceCandidate(candidate) =>
        if 1 <= Utf8Len(candidate) <= 1024 then None else Some(Violation("invalid_candidate"))
  }

  /** A valid message of the room server. */
  predicate ValidRelay(ctx: Context, m: Api.ServerToClient) {
    m.Relayed? && Fault(ctx, m.what).None?
  }

  /** The signaling message says what was relayed, from whom, in this session. */
  predicate Conveys(ctx: Context, m: Api.ServerToClient, s: SignalingMessage) {
    && m.Relayed? && s.version == 1
    && s.roomId == ctx.roomId && s.participantId == m.from && s.authToken == ctx.authToken
    && match m.what
       case Offer(sdp) => s.Offer? && s.sdp == sdp && s.icePolicy == ctx.icePolicy
       case Answer(sdp) => s.Answer? && s.sdp == sdp
       case IceCandidate(candidate) => s.Ice? && s.candidate == candidate && s.sdpMid == None && s.sdpMlineIndex == None
  }

  function CloseAndLeave(d: Digest, p: ParticipantId): Digest {
    d.(closed := d.closed + [p], events := d.events + [PeerLeft(p)])
  }

  function EmitInvalid(d: Digest, p: Option<ParticipantId>, error: SyncMessageError, existing: bool): Digest {
    var d1 := d.(events := d.events + [SyncerEvent.Error(InvalidPayload(error))]);
    if existing && p.Some? && p.value in d1.active
    then CloseAndLeave(d1.(active := d1.active - {p.value}), p.value)
    else d1
  }

  function OnEnvelope(env: Env, d: Digest, p: Option<ParticipantId>, existing: bool, result: Outcome<Envelope>)
    : Digest
  {
    match result
    case Ok(e) =>
      var d1 := d.(payloads := d.payloads + [Encoded(ToBytes(env.size, e))]);
      if existing && p.Some?
      then
        var d2 := CloseAndLeave(d1, p.value);
        d2.(events := d2.events + [PeerJoined(p.value)])
      else d1
    case Err(error) => EmitInvalid(d, p, error, existing)
  }

  function Shape(env: Env, ctx: Context, d: Digest, m: Api.ServerToClient): Digest {
    match m
    case Relayed(from, what) =>
      var p := env.ids.ParseParticipant(from);
      var existing := what.Offer? && p.Some? && p.value in d.active;
      var d1 := if what.Offer? && p.Some? then d.(active := d.active + {p.value}) else d;
      OnEnvelope(env, d1, p, existing, FromSignaling(Shaped(ctx, from, what)))
    case _ => d
  }

  function ShapeAll(env: Env, ctx: Context, d: Digest, ms: seq<Api.ServerToClient>): Digest {
    if ms == [] then d else Shape(env, ctx, ShapeAll(env, ctx, d, ms[..|ms| - 1]), ms[|ms| - 1])
  }

  class PeerConnectionCloser {
    var closed: seq<ParticipantId>

    constructor ()
      ensures closed == []
    {
      closed := [];
    }

    method Close(p: ParticipantId)
      modifies this
      ensures closed == old(closed) + [p]
    {
      closed := closed + [p];
    }
  }

  class BloomSignalingAdapter {
    const env: Env
    const ctx: Context
    const closer: PeerConnectionCloser
    var inbox: seq<Api.ServerToClient>
    var active: set<ParticipantId>
    var events: seq<SyncerEvent>

    constructor (env: Env, ctx: Context, closer: PeerConnectionCloser)
      ensures this.env == env && this.ctx == ctx && this.closer == closer
      ensures inbox == [] && active == {} && events == []
    {
      this.env, this.ctx, this.closer := env, ctx, closer;
      inbox, active, events := [], {}, [];
    }

    /** The adapter's state with the payloads of the poll in progress. */
    ghost function Doing(payloads: seq<TransportPayload>): Digest
      reads this, closer
    {
      Digest(active, payloads, events, closer.closed)
    }

    method PushIncoming(m: Api.ServerToClient)
      modifies this`inbox
      ensures inbox == old(inbox) + [m]
    {
      inbox := inbox + [m];
    }

    method Poll() returns (payloads: seq<TransportPayload>, polled: seq<SyncerEvent>)
      modifies this, closer
      ensures Digest(active, payloads, polled, closer.closed) == ShapeAll(env, ctx, old(Doing([])), old(inbox))
      ensures inbox == [] && events == []
    {
      var messages := inbox;
      inbox := [];
      payloads := [];
      for i := 0 to |messages|
        invariant inbox == []
        invariant Doing(payloads) == ShapeAll(env, ctx, old(Doing([])), messages[..i])
      {
        assert messages[..i + 1][..i] == messages[..i];
        var more := ShapeIncoming(messages[i], payloads);
        payloads := payloads + more;
      }
      assert messages[..|messages|] == messages;
      polled := events;
      events := [];
    }

    /** `before` is what this poll produced already. */
    method ShapeIncoming(m: Api.ServerToClient, ghost before: seq<TransportPayload>)
        returns (payloads: seq<TransportPayload>)
      modifies this`active, this`events, closer
      ensures Doing(before + payloads) == Shape(env, ctx, old(Doing(before)), m)
    {
      payloads := [];
      assert before + [] == before;
      match m
      case Relayed(from, what) =>
        var p := env.ids.ParseParticipant(from);
        var existing := false;
        if what.Offer? && p.Some? {
          existing := p.value in active;
          active := active + {p.value};
        }
        match FromSignaling(Shaped(ctx, from, what)) {
          case Ok(e) =>
            payloads := [Encoded(ToBytes(env.size, e))];
            if existing && p.Some? {
              CloseAndEmitPeerLeft(p.value);
              events := events + [PeerJoined(p.value)];
            }
          case Err(error) =>
            events := events + [SyncerEvent.Error(InvalidPayload(error))];
            if existing && p.Some? && p.value in active {
              active := active - {p.value};
              CloseAndEmitPeerLeft(p.value);
            }
        }
      case _ =>
    }

    method CloseAndEmitPeerLeft(p: ParticipantId)
      modifies this`events, closer
      ensures events == old(events) + [PeerLeft(p)] && closer.closed == old(closer.closed) + [p]
    {
      closer.Close(p);
      events := events + [PeerLeft(p)];
    }
  }

  // ---------- the re-offer discipline ----------

  /** The participants of the PeerLeft events, in order. */
  function LeftIn(events: seq<SyncerEvent>): seq<ParticipantId> {
    if events == [] then []
    else
      var e := events[|events| - 1];
      LeftIn(events[..|events| - 1]) + (if e.PeerLeft? then [e.participant] else [])
  }

  lemma LeftInAppend(events: seq<SyncerEvent>, e: SyncerEvent)
    ensures LeftIn(events + [e]) == LeftIn(events) + (if e.PeerLeft? then [e.participant] else [])
  {
    assert (events + [e])[..|events|] == events;
  }

  lemma ShapeClosesWhatLeaves(env: Env, ctx: Context, d: Digest, m: Api.ServerToClient)
    requires d.closed == LeftIn(d.events)
    ensures var d' := Shape(env, ctx, d, m); d'.closed == LeftIn(d'.events)
  {
    hide LeftIn, FromSignaling;
    if m.Relayed? {
      var p := env.ids.ParseParticipant(m.from);
      var existing := m.what.Offer? && p.Some? && p.value in d.active;
      match FromSignaling(Shaped(ctx, m.from, m.what))
      case Ok(e) =>
        if existing {
          LeftInAppend(d.events, PeerLeft(p.value));
          LeftInAppend(d.events + [PeerLeft(p.value)], PeerJoined(p.value));
          assert d.closed + [p.value] + [] == d.closed + [p.value];
        }
      case Err(error) =>
        var failure := SyncerEvent.Error(InvalidPayload(error));
        LeftInAppend(d.events, failure);
        assert LeftIn(d.events) + [] == LeftIn(d.events);
        if existing {
          LeftInAppend(d.events + [failure], PeerLeft(p.value));
        }
    }
  }

  /** Every PeerJoined is the second half of a replacement, and every PeerLeft either the first half of
    one or the consequence of an invalid offer. */
  predicate InPlace(events: seq<SyncerEvent>, i: nat)
    requires i < |events|
  {
    && (events[i].PeerJoined? ==> i > 0 && events[i - 1] == PeerLeft(events[i].participant))
    && (events[i].PeerLeft? ==>
          || (i + 1 < |events| && events[i + 1] == PeerJoined(events[i].participant))
          || (i > 0 && events[i - 1].Error?))
  }

  ghost predicate Disciplined(events: seq<SyncerEvent>) {
    forall i :: 0 <= i < |events| ==> InPlace(events, i)
  }

  lemma ErrorKeepsDiscipline(events: seq<SyncerEvent>, e: SyncerEvent)
    requires Disciplined(events) && e.Error?
    ensures Disciplined(events + [e])
  {
    var after := events + [e];
    forall i | 0 <= i < |after|
      ensures InPlace(after, i)
    {
      if i < |events| {
        assert InPlace(events, i);
      }
    }
  }

  lemma EvictionKeepsDiscipline(events: seq<SyncerEvent>, e: SyncerEvent, p: ParticipantId)
    requires Disciplined(events) && e.Error?
    ensures Disciplined(events + [e] + [PeerLeft(p)])
  {
    ErrorKeepsDiscipline(events, e);
    var failed := events + [e];
    var after := failed + [PeerLeft(p)];
    assert after[|events|] == e;
    forall i | 0 <= i < |after|
      ensures InPlace(after, i)
    {
      if i < |failed| {
        assert InPlace(failed, i);
      }
    }
  }

  lemma ReplacementKeepsDiscipline(events: seq<SyncerEvent>, p: ParticipantId)
    requires Disciplined(events)
    ensures Disciplined(events + [PeerLeft(p)] + [PeerJoined(p)])
  {
    var after := events + [PeerLeft(p)] + [PeerJoined(p)];
    assert after[|events|] == PeerLeft(p) && after[|events| + 1] == PeerJoined(p);
    forall i | 0 <= i < |after|
      ensures InPlace(after, i)
    {
      if i < |events| {
        assert InPlace(events, i);
      }
    }
  }

  lemma ShapeKeepsDiscipline(env: Env, ctx: Context, d: Digest, m: Api.ServerToClient)
    requires Disciplined(d.events)
    ensures Disciplined(Shape(env, ctx, d, m).events)
  {
    hide FromSignaling, Disciplined;
    if m.Relayed? {
      var p := env.ids.ParseParticipant(m.from);
      var existing := m.what.Offer? && p.Some? && p.value in d.active;
      match FromSignaling(Shaped(ctx, m.from, m.what))
      case Ok(e) =>
        if existing {
          ReplacementKeepsDiscipline(d.events, p.value);
        }
      case Err(error) =>
        var failure := SyncerEvent.Error(InvalidPayload(error));
        ErrorKeepsDiscipline(d.events, failure);
        if existing {
          EvictionKeepsDiscipline(d.events, failure, p.value);
        }
    }
  }

  /** The messages that are valid in this session, in order. */
  function Accepted(ctx: Context, ms: seq<Api.ServerToClient>): seq<Api.ServerToClient> {
    if ms == [] then []
    else
      var m := ms[|ms| - 1];
      Accepted(ctx, ms[..|ms| - 1]) + (if ValidRelay(ctx, m) then [m] else [])
  }

  /** Payload `i` is the envelope of what message `i` relays; so it is read by the receiver. */
  ghost predicate Carry(env: Env, ctx: Context, payloads: seq<TransportPayload>, ms: seq<Api.ServerToClient>) {
    |payloads| == |ms| && forall i :: 0 <= i < |ms| ==> CarriesOne(env, ctx, payloads[i], ms[i])
  }

  predicate CarriesOne(env: Env, ctx: Context, payload: TransportPayload, m: Api.ServerToClient) {
    payload.Encoded? &&
    (payload.bytes.size <= 65_536 ==>
       var parsed := ParseSyncMessage(env.floats, payload.bytes);
       parsed.Ok? && parsed.value.Signaling? && Conveys(ctx, m, parsed.value.signaling))
  }

  lemma ShapedConveys(ctx: Context, m: Api.ServerToClient)
    requires m.Relayed?
    ensures Conveys(ctx, m, Shaped(ctx, m.from, m.what))
    ensures ValidateSignaling(Shaped(ctx, m.from, m.what)) == Fault(ctx, m.what)
  {
    ValidationExactly(ChatMessage(1, 0, 0, "", ""), Shaped(ctx, m.from, m.what));
    hide ValidateSignaling, ValidateChat;
  }

  lemma ShapeCarries(env: Env, ctx: Context, d: Digest, m: Api.ServerToClient, ms: seq<Api.ServerToClient>)
    requires env.floats.Faithful() && Carry(env, ctx, d.payloads, ms)
    ensures Carry(env, ctx, Shape(env, ctx, d, m).payloads, ms + (if ValidRelay(ctx, m) then [m] else []))
  {
    hide ParseSyncMessage, ValidateSignaling, SignalingValue, Conveys, Shaped, Fault;
    if m.Relayed? {
      ShapedConveys(ctx, m);
      if ValidRelay(ctx, m) {
        WireRoundTrip(env.floats, env.size, Signaling(Shaped(ctx, m.from, m.what)));
      }
    }
    assert ms + [] == ms;
  }

  /** One message, by its fields alone: if it is valid it becomes one payload, in which the receiver reads
    what was relayed, and no error; otherwise it becomes one error that names the first fault, and nothing
    to send. A message that is not relayed is ignored. */
  lemma MessageIsShaped(env: Env, ctx: Context, d: Digest, m: Api.ServerToClient)
    requires env.floats.Faithful()
    ensures var d' := Shape(env, ctx, d, m);
      if !m.Relayed? then d' == d
      else
        match Fault(ctx, m.what)
        case None => |d'.payloads| == |d.payloads| + 1 && d'.payloads[..|d.payloads|] == d.payloads
                     && CarriesOne(env, ctx, d'.payloads[|d.payloads|], m)
        case Some(error) => d'.payloads == d.payloads && |d.events| < |d'.events|
                            && d'.events[|d.events|] == SyncerEvent.Error(InvalidPayload(error))
  {
    hide ParseSyncMessage, ValidateSignaling, SignalingValue, Conveys, Shaped, Fault;
    if m.Relayed? {
      ShapedConveys(ctx, m);
      if Fault(ctx, m.what).None? {
        WireRoundTrip(env.floats, env.size, Signaling(Shaped(ctx, m.from, m.what)));
      }
    }
  }

  /** The re-offer discipline over every run, from any set of active participants: connections are closed
    exactly for the PeerLeft events, in their order; joins and leaves come in the pairs they must; and
    the payloads are the valid signaling messages in arrival order, readable by the receiver. */
  lemma {:induction false} ReofferDiscipline(env: Env, ctx: Context, active: set<ParticipantId>,
                                             ms: seq<Api.ServerToClient>)
    requires env.floats.Faithful()
    ensures var d := ShapeAll(env, ctx, Digest(active, [], [], []), ms);
      d.closed == LeftIn(d.events) && Disciplined(d.events) && Carry(env, ctx, d.payloads, Accepted(ctx, ms))
  {
    hide Shape, Disciplined, ParseSyncMessage;
    if ms == [] {
      NothingIsDisciplined();
    } else {
      var front := ms[..|ms| - 1];
      hide Carry;
      ReofferDiscipline(env, ctx, active, front);
      var d := ShapeAll(env, ctx, Digest(active, [], [], []), front);
      ShapeClosesWhatLeaves(env, ctx, d, ms[|ms| - 1]);
      ShapeKeepsDiscipline(env, ctx, d, ms[|ms| - 1]);
      ShapeCarries(env, ctx, d, ms[|ms| - 1], Accepted(ctx, front));
    }
  }

  lemma NothingIsDisciplined()
    ensures Disciplined([])
  {
  }

  /** The messages of a queue may be shaped in two goes. */
  lemma {:induction false} PollsCompose(env: Env, ctx: Context, d: Digest, first: seq<Api.ServerToClient>,
                                        second: seq<Api.ServerToClient>)
    ensures ShapeAll(env, ctx, d, first + second) == ShapeAll(env, ctx, ShapeAll(env, ctx, d, first), second)
  {
    hide Shape;
    if second == [] {
      assert first + second == first;
    } else {
      PollsCompose(env, ctx, d, first, second[..|second| - 1]);
      assert (first + second)[..|first + second| - 1] == first + second[..|second| - 1];
    }
  }

  // ---------- who is active ----------

  predicate OfferFrom(env: Env, m: Api.ServerToClient, p: ParticipantId) {
    m.Relayed? && m.what.Offer? && env.ids.ParseParticipant(m.from) == Some(p)
  }

  /** How many offers of `p` came after its last valid one, all of them invalid. */
  function InvalidSince(env: Env, ctx: Context, ms: seq<Api.ServerToClient>, p: ParticipantId): nat {
    if ms == [] then 0
    else
      var front, m := ms[..|ms| - 1], ms[|ms| - 1];
      if !OfferFrom(env, m, p) then InvalidSince(env, ctx, front, p)
      else if ValidRelay(ctx, m) then 0
      else InvalidSince(env, ctx, front, p) + 1
  }

  /** Whether `p` made a valid offer. */
  predicate EverValid(env: Env, ctx: Context, ms: seq<Api.ServerToClient>, p: ParticipantId) {
    exists i :: 0 <= i < |ms| && OfferFrom(env, ms[i], p) && ValidRelay(ctx, ms[i])
  }

  /** The verdict on the messages alone: after them, `p` is active when the number of invalid offers since
    its last valid one is even, or, if it never made a valid one and was not active to begin with, odd. */
  predicate ActiveAfter(env: Env, ctx: Context, active: set<ParticipantId>, ms: seq<Api.ServerToClient>,
                        p: ParticipantId) {
    InvalidSince(env, ctx, ms, p) % 2 == 0 <==> (p in active || EverValid(env, ctx, ms, p))
  }

  /** An invalid offer makes an active participant inactive, but an inactive one active: the tracked set
    follows the parity. Nobody else's messages matter. */
  lemma {:induction false} ActiveByParity(env: Env, ctx: Context, active: set<ParticipantId>,
                                          ms: seq<Api.ServerToClient>, p: ParticipantId)
    ensures p in ShapeAll(env, ctx, Digest(active, [], [], []), ms).active <==> ActiveAfter(env, ctx, active, ms, p)
  {
    hide EverValid, Shape, OfferFrom, ValidRelay;
    if ms == [] {
      NothingIsValid(env, ctx, p);
    } else {
      var front, m := ms[..|ms| - 1], ms[|ms| - 1];
      ActiveByParity(env, ctx, active, front, p);
      EverValidGrows(env, ctx, ms, p);
      ShapeActive(env, ctx, ShapeAll(env, ctx, Digest(active, [], [], []), front), m, p);
    }
  }

  lemma NothingIsValid(env: Env, ctx: Context, p: ParticipantId)
    ensures !EverValid(env, ctx, [], p)
  {
  }

  lemma EverValidGrows(env: Env, ctx: Context, ms: seq<Api.ServerToClient>, p: ParticipantId)
    requires ms != []
    ensures EverValid(env, ctx, ms, p) <==>
      EverValid(env, ctx, ms[..|ms| - 1], p) || (OfferFrom(env, ms[|ms| - 1], p) && ValidRelay(ctx, ms[|ms| - 1]))
  {
    var front := ms[..|ms| - 1];
    hide OfferFrom, ValidRelay;
    if EverValid(env, ctx, front, p) {
      var i :| 0 <= i < |front| && OfferFrom(env, front[i], p) && ValidRelay(ctx, front[i]);
      assert OfferFrom(env, ms[i], p) && ValidRelay(ctx, ms[i]);
    }
    if EverValid(env, ctx, ms, p) {
      var i :| 0 <= i < |ms| && OfferFrom(env, ms[i], p) && ValidRelay(ctx, ms[i]);
      assert i < |front| ==> front[i] == ms[i];
    }
  }

  lemma ShapeActive(env: Env, ctx: Context, d: Digest, m: Api.ServerToClient, p: ParticipantId)
    ensures p in Shape(env, ctx, d, m).active <==>
      if OfferFrom(env, m, p) then ValidRelay(ctx, m) || p !in d.active else p in d.active
  {
    hide ValidateSignaling, Fault, Shaped;
    if m.Relayed? {
      ShapedConveys(ctx, m);
    }
  }

  // ---------- every re-offer is answered ----------

  function Times(events: seq<SyncerEvent>, e: SyncerEvent): nat {
    if events == [] then 0
    else Times(events[..|events| - 1], e) + (if events[|events| - 1] == e then 1 else 0)
  }

  function Errors(events: seq<SyncerEvent>): nat {
    if events == [] then 0
    else Errors(events[..|events| - 1]) + (if events[|events| - 1].Error? then 1 else 0)
  }

  lemma CountsAppend(events: seq<SyncerEvent>, last: SyncerEvent, e: SyncerEvent)
    ensures Times(events + [last], e) == Times(events, e) + (if last == e then 1 else 0)
    ensures Errors(events + [last]) == Errors(events) + (if last.Error? then 1 else 0)
  {
    assert (events + [last])[..|events|] == events;
  }

  /** The offers of `p` that found it active. */
  function Reoffers(env: Env, ctx: Context, active: set<ParticipantId>, ms: seq<Api.ServerToClient>, p: ParticipantId)
    : nat
  {
    if ms == [] then 0
    else
      var front, m := ms[..|ms| - 1], ms[|ms| - 1];
      Reoffers(env, ctx, active, front, p) +
        (if OfferFrom(env, m, p) && ActiveAfter(env, ctx, active, front, p) then 1 else 0)
  }

  function ValidReoffers(env: Env, ctx: Context, active: set<ParticipantId>, ms: seq<Api.ServerToClient>,
                         p: ParticipantId): nat {
    if ms == [] then 0
    else
      var front, m := ms[..|ms| - 1], ms[|ms| - 1];
      ValidReoffers(env, ctx, active, front, p) +
        (if OfferFrom(env, m, p) && ValidRelay(ctx, m) && ActiveAfter(env, ctx, active, front, p) then 1 else 0)
  }

  function Rejected(ctx: Context, ms: seq<Api.ServerToClient>): nat {
    if ms == [] then 0
    else
      var m := ms[|ms| - 1];
      Rejected(ctx, ms[..|ms| - 1]) + (if m.Relayed? && !ValidRelay(ctx, m) then 1 else 0)
  }

  lemma ShapeCounts(env: Env, ctx: Context, d: Digest, m: Api.ServerToClient, p: ParticipantId)
    ensures var events := Shape(env, ctx, d, m).events;
      var again := OfferFrom(env, m, p) && p in d.active;
      && Times(events, PeerLeft(p)) == Times(d.events, PeerLeft(p)) + (if again then 1 else 0)
      && Times(events, PeerJoined(p)) == Times(d.events, PeerJoined(p)) + (if again && ValidRelay(ctx, m) then 1 else 0)
      && Errors(events) == Errors(d.events) + (if m.Relayed? && !ValidRelay(ctx, m) then 1 else 0)
  {
    hide Times, Errors, ValidateSignaling, SignalingValue, Fault, Shaped;
    if m.Relayed? {
      ShapedConveys(ctx, m);
      var existing := m.what.Offer? && env.ids.ParseParticipant(m.from).Some?
        && env.ids.ParseParticipant(m.from).value in d.active;
      match FromSignaling(Shaped(ctx, m.from, m.what))
      case Ok(e) =>
        if existing {
          var q := env.ids.ParseParticipant(m.from).value;
          CountsPair(d.events, PeerLeft(q), PeerJoined(q), p);
        }
      case Err(error) =>
        var failure := SyncerEvent.Error(InvalidPayload(error));
        CountsAppend(d.events, failure, PeerLeft(p));
        CountsAppend(d.events, failure, PeerJoined(p));
        if existing {
          CountsPair(d.events, failure, PeerLeft(env.ids.ParseParticipant(m.from).value), p);
        }
    }
  }

  lemma CountsPair(events: seq<SyncerEvent>, first: SyncerEvent, second: SyncerEvent, p: ParticipantId)
    ensures var after := events + [first] + [second];
      && Times(after, PeerLeft(p))
          == Times(events, PeerLeft(p)) + (if first == PeerLeft(p) then 1 else 0)
            + (if second == PeerLeft(p) then 1 else 0)
      && Times(after, PeerJoined(p))
          == Times(events, PeerJoined(p)) + (if first == PeerJoined(p) then 1 else 0)
            + (if second == PeerJoined(p) then 1 else 0)
      && Errors(after) == Errors(events) + (if first.Error? then 1 else 0) + (if second.Error? then 1 else 0)
  {
    hide Times, Errors;
    CountsAppend(events, first, PeerLeft(p));
    CountsAppend(events, first, PeerJoined(p));
    CountsAppend(events + [first], second, PeerLeft(p));
    CountsAppend(events + [first], second, PeerJoined(p));
  }

  /** Over every run each offer that finds its participant active is answered by one PeerLeft, and by one
    PeerJoined as well exactly when it is valid; each invalid message by one Error. */
  lemma {:induction false} EveryReofferIsAnswered(env: Env, ctx: Context, active: set<ParticipantId>,
                                                  ms: seq<Api.ServerToClient>, p: ParticipantId)
    ensures var events := ShapeAll(env, ctx, Digest(active, [], [], []), ms).events;
      && Times(events, PeerLeft(p)) == Reoffers(env, ctx, active, ms, p)
      && Times(events, PeerJoined(p)) == ValidReoffers(env, ctx, active, ms, p)
      && Errors(events) == Rejected(ctx, ms)
  {
    hide Shape, OfferFrom, ValidRelay, ActiveAfter;
    if ms == [] {
    } else {
      var front, m := ms[..|ms| - 1], ms[|ms| - 1];
      EveryReofferIsAnswered(env, ctx, active, front, p);
      ActiveByParity(env, ctx, active, front, p);
      ShapeCounts(env, ctx, ShapeAll(env, ctx, Digest(active, [], [], []), front), m, p);
    }
  }

  // ---------- exactly which events ----------

  /** The events a message is worth; `again` says that it is an offer of an active participant. */
  function Verdict(env: Env, ctx: Context, m: Api.ServerToClient, again: bool): seq<SyncerEvent> {
    if !m.Relayed? then []
    else
      var p := env.ids.ParseParticipant(m.from);
      var left := if again && p.Some? then [PeerLeft(p.value)] else [];
      match Fault(ctx, m.what)
      case None => left + (if again && p.Some? then [PeerJoined(p.value)] else [])
      case Some(error) => [SyncerEvent.Error(InvalidPayload(error))] + left
  }

  /** Every message's verdict, in order; who was active follows from the messages before. */
  function Verdicts(env: Env, ctx: Context, active: set<ParticipantId>, ms: seq<Api.ServerToClient>): seq<SyncerEvent> {
    if ms == [] then []
    else
      var front, m := ms[..|ms| - 1], ms[|ms| - 1];
      var again := m.Relayed? && m.what.Offer? && var p := env.ids.ParseParticipant(m.from);
        p.Some? && ActiveAfter(env, ctx, active, front, p.value);
      Verdicts(env, ctx, active, front) + Verdict(env, ctx, m, again)
  }

  lemma ShapeEmits(env: Env, ctx: Context, d: Digest, m: Api.ServerToClient, again: bool)
    requires again <==> m.Relayed? && m.what.Offer? && var p := env.ids.ParseParticipant(m.from);
      p.Some? && p.value in d.active
    ensures Shape(env, ctx, d, m).events == d.events + Verdict(env, ctx, m, again)
  {
    hide ValidateSignaling, SignalingValue, Fault, Shaped;
    if m.Relayed? {
      ShapedConveys(ctx, m);
    }
  }

  /** Over every run the events are exactly the verdicts: each Error, PeerLeft and PeerJoined belongs to the
    message that caused it, and to its participant. */
  lemma {:induction false} EventsAreVerdicts(env: Env, ctx: Context, active: set<ParticipantId>,
                                             ms: seq<Api.ServerToClient>)
    ensures ShapeAll(env, ctx, Digest(active, [], [], []), ms).events == Verdicts(env, ctx, active, ms)
  {
    hide Shape, Verdict, ActiveAfter;
    if ms == [] {
    } else {
      var front, m := ms[..|ms| - 1], ms[|ms| - 1];
      EventsAreVerdicts(env, ctx, active, front);
      var d := ShapeAll(env, ctx, Digest(active, [], [], []), front);
      var p := if m.Relayed? then env.ids.ParseParticipant(m.from) else None;
      if p.Some? {
        ActiveByParity(env, ctx, active, front, p.value);
      }
      ShapeEmits(env, ctx, d, m, m.Relayed? && m.what.Offer? && p.Some? && p.value in d.active);
    }
  }

  // ---------- any number of polls ----------

  /** `e` with the logs of `d` before its own. */
  function Onto(d: Digest, e: Digest): Digest {
    Digest(e.active, d.payloads + e.payloads, d.events + e.events, d.closed + e.closed)
  }

  lemma ShapeOnto(env: Env, ctx: Context, d: Digest, e: Digest, m: Api.ServerToClient)
    ensures Shape(env, ctx, Onto(d, e), m) == Onto(d, Shape(env, ctx, e, m))
  {
    hide FromSignaling;
  }

  /** What was logged before makes no difference to what is done now. */
  lemma {:induction false} ShapeAllOnto(env: Env, ctx: Context, d: Digest, e: Digest, ms: seq<Api.ServerToClient>)
    ensures ShapeAll(env, ctx, Onto(d, e), ms) == Onto(d, ShapeAll(env, ctx, e, ms))
  {
    hide Shape, Onto;
    if ms == [] {
    } else {
      ShapeAllOnto(env, ctx, d, e, ms[..|ms| - 1]);
      ShapeOnto(env, ctx, d, ShapeAll(env, ctx, e, ms[..|ms| - 1]), ms[|ms| - 1]);
    }
  }

  /** After a history of polls, each given by the queue it found: who is active, all payloads and all events
    ever returned, and all connections closed. Every poll starts with empty payloads and events. */
  function Polled(env: Env, ctx: Context, active: set<ParticipantId>, polls: History<seq<Api.ServerToClient>>): Digest {
    match polls
    case Start => Digest(active, [], [], [])
    case Then(before, queue) =>
      var d := Polled(env, ctx, active, before);
      var e := ShapeAll(env, ctx, Digest(d.active, [], [], d.closed), queue);
      Digest(e.active, d.payloads + e.payloads, d.events + e.events, e.closed)
  }

  /** All messages of the polls, in order. */
  function Queued(polls: History<seq<Api.ServerToClient>>): seq<Api.ServerToClient> {
    match polls
    case Start => []
    case Then(before, queue) => Queued(before) + queue
  }

  /** How the messages are cut into polls makes no difference to what all polls together return. */
  lemma {:induction false} PollsAreOne(env: Env, ctx: Context, active: set<ParticipantId>,
                                       polls: History<seq<Api.ServerToClient>>)
    ensures Polled(env, ctx, active, polls) == ShapeAll(env, ctx, Digest(active, [], [], []), Queued(polls))
  {
    hide Shape;
    if polls.Start? {
    } else {
      PollsAreOne(env, ctx, active, polls.past);
      var d := Polled(env, ctx, active, polls.past);
      var blank := Digest(d.active, [], [], []);
      ShapeAllOnto(env, ctx, Digest(d.active, [], [], d.closed), blank, polls.last);
      ShapeAllOnto(env, ctx, d, blank, polls.last);
      assert Onto(Digest(d.active, [], [], d.closed), blank) == Digest(d.active, [], [], d.closed);
      assert Onto(d, blank) == d;
      PollsCompose(env, ctx, Digest(active, [], [], []), Queued(polls.past), polls.last);
    }
  }

  /** The discipline over any number of polls: what they returned, taken together, is exactly the verdicts on
    the messages, with the closes, pairs, payloads, counts and parity stated above. */
  lemma PolledDiscipline(env: Env, ctx: Context, active: set<ParticipantId>, polls: History<seq<Api.ServerToClient>>,
                         p: ParticipantId)
    requires env.floats.Faithful()
    ensures var d, ms := Polled(env, ctx, active, polls), Queued(polls);
      && d.events == Verdicts(env, ctx, active, ms)
      && d.closed == LeftIn(d.events) && Disciplined(d.events) && Carry(env, ctx, d.payloads, Accepted(ctx, ms))
      && Times(d.events, PeerLeft(p)) == Reoffers(env, ctx, active, ms, p)
      && Times(d.events, PeerJoined(p)) == ValidReoffers(env, ctx, active, ms, p)
      && Errors(d.events) == Rejected(ctx, ms)
      && (p in d.active <==> ActiveAfter(env, ctx, active, ms, p))
  {
    hide *;
    PollsAreOne(env, ctx, active, polls);
    var ms := Queued(polls);
    EventsAreVerdicts(env, ctx, active, ms);
    ReofferDiscipline(env, ctx, active, ms);
    EveryReofferIsAnswered(env, ctx, active, ms, p);
    ActiveByParity(env, ctx, active, ms, p);
  }
}
