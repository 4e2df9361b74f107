/** The signaling protocol between clients and the room server. */
module BloomApi {
  datatype ErrorCode = RoomFull | RoomNotFound | InvalidPayload | ParticipantNotFound | RateLimited | Internal

  /** The three relayed payloads, which all travel the same way. */
  datatype Relayed = Offer(sdp: string) | Answer(sdp: string) | IceCandidate(candidate: string)

  datatype ClientToServer =
    | CreateRoom
    | JoinRoom(roomId: string)
    | LeaveRoom
    | Relay(recipient: string, what: Relayed)

  datatype ServerToClient =
    | RoomCreated(roomId: string, selfId: string)
    | RoomParticipants(roomId: string, participants: seq<string>)
    | PeerConnected(participantId: string)
    | PeerDisconnected(participantId: string)
    | Relayed(from: string, what: Relayed)
    | Error(code: ErrorCode, message: string)
}
