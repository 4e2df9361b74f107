/** Requests, events and payloads of the syncer. */
module SyncerTypes {
  import opened Wrappers
  import opened Ids
  import opened Streams
  import opened Json
  import opened Messages

  /** What is assumed about texts, numbers and sizes outside the repository. */
  datatype Env = Env(ids: UuidText, floats: Floats, size: Value -> nat)

  datatype TransportPayload = Encoded(bytes: Bytes) | AudioFrame(frame: seq<bv8>)

  datatype SendParams = DataChannel(ordered: bool, reliable: bool, channel: string) | AudioTrack

  function ForStream(kind: StreamKind): SendParams {
    match kind
    case Pose => DataChannel(false, false, "sutera-data")
    case Voice => AudioTrack
    case _ => DataChannel(true, true, "sutera-data")
  }

  datatype TransportEvent = Received(from: ParticipantId, payload: TransportPayload) | Failure(peer: ParticipantId)

  datatype TracingContext = TracingContext(room: RoomId, participant: ParticipantId, kind: StreamKind)

  datatype SyncerError = InvalidParticipantId(raw: string) | InvalidPayload(error: SyncMessageError)

  datatype SyncerEvent =
    | SelfJoined(room: RoomId, participant: ParticipantId)
    | PeerJoined(participant: ParticipantId)
    | PeerLeft(participant: ParticipantId)
    | PoseReceived(from: ParticipantId, pose: PoseMessage, ctx: TracingContext)
    | ChatReceived(chat: ChatMessage, ctx: TracingContext)
    | VoiceFrameReceived(from: ParticipantId, frame: seq<bv8>, ctx: TracingContext)
    | Limited(kind: StreamKind)
    | Error(error: SyncerError)

  datatype SyncerRequest =
    | Join(room: RoomId, participant: ParticipantId)
    | SendPose(from: ParticipantId, pose: PoseMessage)
    | SendChat(chat: ChatMessage, ctx: TracingContext)
    | SendVoiceFrame(frame: seq<bv8>, ctx: TracingContext)

  /** A control message on its way to becoming a peer event. */
  datatype PendingPeerEvent = PendingPeerEvent(participantId: string, reconnectToken: Option<string>,
                                               reason: Option<string>, joined: bool)

  function Pending(m: ControlMessage): PendingPeerEvent {
    PendingPeerEvent(m.payload.participantId, m.payload.reconnectToken, m.payload.reason, m.Join?)
  }
}
