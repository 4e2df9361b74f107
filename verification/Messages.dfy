/** The messages syncers exchange, their envelope, and the codec between them. */
module Messages {
  import opened Wrappers
  import opened Streams
  import opened Json

  const MAX_ENVELOPE_BYTES: nat := 64 * 1024
  const MAX_MESSAGE_LEN: nat := 2048
  const MAX_CANDIDATE_LEN: nat := 1024

  datatype SyncMessageError =
    | MissingVersion
    | UnsupportedVersion(received: u32)
    | UnknownKind(value: string)
    | BodyTooLarge(bytes: nat)
    | BodyJsonMalformed
    | SchemaViolation(kind: string, reason: string)

  type Outcome<+T> = Result<T, SyncMessageError>

  datatype Vec3 = Vec3(x: F32, y: F32, z: F32)
  datatype Quat = Quat(x: F32, y: F32, z: F32, w: F32)
  datatype PoseTransform = PoseTransform(position: Vec3, rotation: Quat)

  datatype PoseMessage = PoseMessage(version: u32, timestampMicros: u64, head: PoseTransform,
                                     handL: Option<PoseTransform>, handR: Option<PoseTransform>)

  datatype ChatMessage = ChatMessage(version: u32, timestampMicros: u64, sequenceId: u64, sender: string,
                                     message: string)

  datatype ControlPayload = ControlPayload(participantId: string, reconnectToken: Option<string>,
                                           reason: Option<string>)

  datatype ControlMessage = Join(payload: ControlPayload) | Leave(payload: ControlPayload)

  datatype SignalingMessage =
    | Offer(version: u32, roomId: string, participantId: string, authToken: string, icePolicy: string, sdp: string)
    | Answer(version: u32, roomId: string, participantId: string, authToken: string, sdp: string)
    | Ice(version: u32, roomId: string, participantId: string, authToken: string, candidate: string,
          sdpMid: Option<string>, sdpMlineIndex: Option<u16>)

  datatype SyncMessage =
    | Pose(pose: PoseMessage)
    | Chat(chat: ChatMessage)
    | Control(control: ControlMessage)
    | Signaling(signaling: SignalingMessage)

  datatype Envelope = Envelope(version: u32, kind: StreamKind, body: Value)

  // ---------- pose ----------

  function VecValue(floats: Floats, v: Vec3): Value {
    JArray([FloatValue(floats, v.x), FloatValue(floats, v.y), FloatValue(floats, v.z)])
  }

  function QuatValue(floats: Floats, q: Quat): Value {
    JArray([FloatValue(floats, q.x), FloatValue(floats, q.y), FloatValue(floats, q.z), FloatValue(floats, q.w)])
  }

  function TransformValue(floats: Floats, t: PoseTransform): Value {
    JObject(map[KPosition := VecValue(floats, t.position), KRotation := QuatValue(floats, t.rotation)])
  }

  function OptTransformValue(floats: Floats, t: Option<PoseTransform>): Value {
    if t.Some? then TransformValue(floats, t.value) else JNull
  }

  function PoseValue(floats: Floats, m: PoseMessage): Value {
    JObject(map[
      KVersion := JInt(m.version), KTimestampMicros := JInt(m.timestampMicros),
      KHead := TransformValue(floats, m.head),
      KHandL := OptTransformValue(floats, m.handL), KHandR := OptTransformValue(floats, m.handR)])
  }

  function AsVec(floats: Floats, v: Value): Option<Vec3> {
    if v.JArray? && |v.items| == 3 then
      var x, y, z := AsF32(floats, v.items[0]), AsF32(floats, v.items[1]), AsF32(floats, v.items[2]);
      if x.Some? && y.Some? && z.Some? then Some(Vec3(x.value, y.value, z.value)) else None
    else None
  }

  function AsQuat(floats: Floats, v: Value): Option<Quat> {
    if v.JArray? && |v.items| == 4 then
      var x, y, z, w := AsF32(floats, v.items[0]), AsF32(floats, v.items[1]), AsF32(floats, v.items[2]),
        AsF32(floats, v.items[3]);
      if x.Some? && y.Some? && z.Some? && w.Some? then Some(Quat(x.value, y.value, z.value, w.value)) else None
    else None
  }

  /** Structs are read from an object by name, or from an array by position. */
  function AsTransform(floats: Floats, v: Value): Option<PoseTransform> {
    match v
    case JObject(f) => if KPosition in f && KRotation in f then Transform(floats, f[KPosition], f[KRotation]) else None
    case JArray(items) => if |items| == 2 then Transform(floats, items[0], items[1]) else None
    case _ => None
  }

  function Transform(floats: Floats, position: Value, rotation: Value): Option<PoseTransform> {
    var p, r := AsVec(floats, position), AsQuat(floats, rotation);
    if p.Some? && r.Some? then Some(PoseTransform(p.value, r.value)) else None
  }

  function AsOptTransform(floats: Floats, v: Option<Value>): Option<Option<PoseTransform>> {
    if v.None? || v.value.JNull? then Some(None)
    else
      var t := AsTransform(floats, v.value);
      if t.Some? then Some(t) else None
  }

  function AsPose(floats: Floats, f: map<Key, Value>): Option<PoseMessage> {
    var version, time := AsU32(Field(f, KVersion)), AsU64(Field(f, KTimestampMicros));
    var head := if KHead in f then AsTransform(floats, f[KHead]) else None;
    var l, r := AsOptTransform(floats, Field(f, KHandL)), AsOptTransform(floats, Field(f, KHandR));
    if version.Some? && time.Some? && head.Some? && l.Some? && r.Some?
    then Some(PoseMessage(version.value, time.value, head.value, l.value, r.value))
    else None
  }

  function PoseFromBody(floats: Floats, body: Value): Outcome<PoseMessage> {
    if !body.JObject? then Err(SchemaViolation("pose", "body_not_object"))
    else if KHead !in body.fields then Err(SchemaViolation("pose", "missing_head"))
    else
      match AsPose(floats, body.fields)
      case None => Err(SchemaViolation("pose", "invalid_pose"))
      case Some(m) => if m.version != 1 then Err(UnsupportedVersion(m.version)) else Ok(m)
  }

  function FromPose(floats: Floats, m: PoseMessage): Outcome<Envelope> {
    if m.version != 1 then Err(UnsupportedVersion(m.version))
    else Ok(Envelope(1, StreamKind.Pose, PoseValue(floats, m)))
  }

  // ---------- chat ----------

  function ChatValue(m: ChatMessage): Value {
    JObject(map[
      KVersion := JInt(m.version), KTimestampMicros := JInt(m.timestampMicros), KSequenceId := JInt(m.sequenceId),
      KSender := JString(m.sender), KMessage := JString(m.message)])
  }

  function AsChat(f: map<Key, Value>): Option<ChatMessage> {
    var version, time, sequence := AsU32(Field(f, KVersion)), AsU64(Field(f, KTimestampMicros)),
      AsU64(Field(f, KSequenceId));
    var sender, message := AsString(Field(f, KSender)), AsString(Field(f, KMessage));
    if version.Some? && time.Some? && sequence.Some? && sender.Some? && message.Some?
    then Some(ChatMessage(version.value, time.value, sequence.value, sender.value, message.value))
    else None
  }

  function ValidateChat(m: ChatMessage): Option<SyncMessageError> {
    if m.version != 1 then Some(UnsupportedVersion(m.version))
    else if m.sender == "" then Some(SchemaViolation("chat", "missing_sender"))
    else if m.message == "" || |m.message| > MAX_MESSAGE_LEN then Some(SchemaViolation("chat", "message_length"))
    else None
  }

  function ChatFromBody(body: Value): Outcome<ChatMessage> {
    if !body.JObject? then Err(SchemaViolation("chat", "body_not_object"))
    else
      match AsChat(body.fields)
      case None => Err(SchemaViolation("chat", "invalid_chat"))
      case Some(m) =>
        match ValidateChat(m)
        case Some(error) => Err(error)
        case None => Ok(m)
  }

  function FromChat(m: ChatMessage): Outcome<Envelope> {
    match ValidateChat(m)
    case Some(error) => Err(error)
    case None => Ok(Envelope(1, StreamKind.Chat, ChatValue(m)))
  }

  // ---------- control ----------

  function ControlKind(m: ControlMessage): StreamKind {
    if m.Join? then ControlJoin else ControlLeave
  }

  function ControlValue(m: ControlMessage): Value {
    JObject(map[
      KType := JString(if m.Join? then "join" else "leave"),
      KParticipantId := JString(m.payload.participantId),
      KReconnectToken := OptString(m.payload.reconnectToken),
      KReason := OptString(m.payload.reason)])
  }

  function AsControlPayload(f: map<Key, Value>): Option<ControlPayload> {
    var id, token, why := AsString(Field(f, KParticipantId)), AsOptString(Field(f, KReconnectToken)),
      AsOptString(Field(f, KReason));
    if id.Some? && token.Some? && why.Some? then Some(ControlPayload(id.value, token.value, why.value)) else None
  }

  function ControlFromBody(body: Value): Outcome<ControlMessage> {
    if !body.JObject? then Err(SchemaViolation("control", "body_not_object"))
    else
      var tag, payload := AsString(Field(body.fields, KType)), AsControlPayload(body.fields);
      if tag == Some("join") && payload.Some? then Ok(Join(payload.value))
      else if tag == Some("leave") && payload.Some? then Ok(Leave(payload.value))
      else Err(SchemaViolation("control", "unsupported_kind"))
  }

  function FromControl(m: ControlMessage): Outcome<Envelope> {
    Ok(Envelope(1, ControlKind(m), ControlValue(m)))
  }

  // ---------- signaling ----------

  /** Length of the UTF-8 encoding. */
  function Utf8Len(s: string): nat {
    if s == "" then 0
    else
      var code := s[|s| - 1] as int;
      Utf8Len(s[..|s| - 1]) + (if code < 0x80 then 1 else if code < 0x800 then 2 else if code < 0x1_0000 then 3 else 4)
  }

  function Violation(reason: string): SyncMessageError {
    SchemaViolation("signaling", reason)
  }

  function ValidateSignaling(m: SignalingMessage): Option<SyncMessageError> {
    if m.version != 1 then Some(UnsupportedVersion(m.version))
    else if m.roomId == "" then Some(Violation("missing_room_id"))
    else if m.authToken == "" then Some(Violation("missing_auth_token"))
    else
      match m
      case Offer(_, _, _, _, policy, sdp) =>
        if sdp == "" then Some(Violation("missing_sdp"))
        else if policy == "" then Some(Violation("missing_ice_policy")) else None
      case Answer(_, _, _, _, sdp) => if sdp == "" then Some(Violation("missing_sdp")) else None
      case Ice(_, _, _, _, candidate, _, _) =>
        if candidate == "" || Utf8Len(candidate) > MAX_CANDIDATE_LEN then Some(Violation("invalid_candidate")) else None
  }

  function SignalingKind(m: SignalingMessage): StreamKind {
    match m
    case Offer(_, _, _, _, _, _) => SignalingOffer
    case Answer(_, _, _, _, _) => SignalingAnswer
    case Ice(_, _, _, _, _, _, _) => SignalingIce
  }

  function SignalingValue(m: SignalingMessage): Value {
    match m
    case Offer(version, room, p, token, policy, sdp) =>
      JObject(map[KType := JString("offer"), KVersion := JInt(version), KRoomId := JString(room),
                  KParticipantId := JString(p),
                  KAuthToken := JString(token), KIcePolicy := JString(policy), KSdp := JString(sdp)])
    case Answer(version, room, p, token, sdp) =>
      JObject(map[KType := JString("answer"), KVersion := JInt(version), KRoomId := JString(room),
                  KParticipantId := JString(p),
                  KAuthToken := JString(token), KSdp := JString(sdp)])
    case Ice(version, room, p, token, candidate, mid, line) =>
      JObject(map[KType := JString("ice"), KVersion := JInt(version), KRoomId := JString(room),
                  KParticipantId := JString(p),
                  KAuthToken := JString(token), KCandidate := JString(candidate), KSdpMid := OptString(mid),
                  KSdpMlineIndex := OptU16(line)])
  }

  /** The first of the required fields that is absent, if any. */
  function FirstMissing(f: map<Key, Value>, required: seq<(Key, string)>): Option<string>
    decreases |required|
  {
    if required == [] then None
    else if required[0].0 !in f then Some(required[0].1)
    else FirstMissing(f, required[1..])
  }

  function AsOffer(f: map<Key, Value>): Option<SignalingMessage> {
    var version, room, p := AsU32(Field(f, KVersion)), AsString(Field(f, KRoomId)), AsString(Field(f, KParticipantId));
    var token, policy, sdp := AsString(Field(f, KAuthToken)), AsString(Field(f, KIcePolicy)), AsString(Field(f, KSdp));
    if version.Some? && room.Some? && p.Some? && token.Some? && policy.Some? && sdp.Some?
    then Some(Offer(version.value, room.value, p.value, token.value, policy.value, sdp.value)) else None
  }

  function AsAnswer(f: map<Key, Value>): Option<SignalingMessage> {
    var version, room, p := AsU32(Field(f, KVersion)), AsString(Field(f, KRoomId)), AsString(Field(f, KParticipantId));
    var token, sdp := AsString(Field(f, KAuthToken)), AsString(Field(f, KSdp));
    if version.Some? && room.Some? && p.Some? && token.Some? && sdp.Some?
    then Some(Answer(version.value, room.value, p.value, token.value, sdp.value)) else None
  }

  function AsIce(f: map<Key, Value>): Option<SignalingMessage> {
    var version, room, p := AsU32(Field(f, KVersion)), AsString(Field(f, KRoomId)), AsString(Field(f, KParticipantId));
    var token, candidate := AsString(Field(f, KAuthToken)), AsString(Field(f, KCandidate));
    var mid, line := AsOptString(Field(f, KSdpMid)), AsOptU16(Field(f, KSdpMlineIndex));
    if version.Some? && room.Some? && p.Some? && token.Some? && candidate.Some? && mid.Some? && line.Some?
    then Some(Ice(version.value, room.value, p.value, token.value, candidate.value, mid.value, line.value)) else None
  }

  /** Presence checks, then the typed read, then validation. */
  function Checked(f: map<Key, Value>, required: seq<(Key, string)>, typed: Option<SignalingMessage>, invalid: string)
    : Outcome<SignalingMessage>
  {
    match FirstMissing(f, required)
    case Some(reason) => Err(Violation(reason))
    case None =>
      match typed
      case None => Err(Violation(invalid))
      case Some(m) =>
        match ValidateSignaling(m)
        case Some(error) => Err(error)
        case None => Ok(m)
  }

  const ROOM_AND_TOKEN: seq<(Key, string)> := [(KRoomId, "missing_room_id"), (KAuthToken, "missing_auth_token")]

  function SignalingFromBody(body: Value): Outcome<SignalingMessage> {
    if !body.JObject? then Err(Violation("body_not_object"))
    else
      var f := body.fields;
      match AsString(Field(f, KType))
      case None => Err(Violation("missing_type"))
      case Some(tag) =>
        if tag == "offer" then
          Checked(f, ROOM_AND_TOKEN + [(KIcePolicy, "missing_ice_policy"), (KSdp, "missing_sdp")], AsOffer(f),
                  "invalid_offer")
        else if tag == "answer" then
          Checked(f, ROOM_AND_TOKEN + [(KSdp, "missing_sdp")], AsAnswer(f), "invalid_answer")
        else if tag == "ice" then
          Checked(f, ROOM_AND_TOKEN + [(KCandidate, "missing_candidate")], AsIce(f), "invalid_ice")
        else Err(Violation("unsupported_kind"))
  }

  function FromSignaling(m: SignalingMessage): Outcome<Envelope> {
    match ValidateSignaling(m)
    case Some(error) => Err(error)
    case None => Ok(Envelope(1, SignalingKind(m), SignalingValue(m)))
  }

  // ---------- any message ----------

  function IntoEnvelope(floats: Floats, m: SyncMessage): Outcome<Envelope> {
    match m
    case Pose(pose) => FromPose(floats, pose)
    case Chat(chat) => FromChat(chat)
    case Control(control) => FromControl(control)
    case Signaling(signaling) => FromSignaling(signaling)
  }

  function FromEnvelope(floats: Floats, e: Envelope): Outcome<SyncMessage> {
    match e.kind
    case Pose => Lift(PoseFromBody(floats, e.body), (m: PoseMessage) => SyncMessage.Pose(m))
    case Chat => Lift(ChatFromBody(e.body), (m: ChatMessage) => SyncMessage.Chat(m))
    case ControlJoin | ControlLeave => Lift(ControlFromBody(e.body), (m: ControlMessage) => Control(m))
    case SignalingOffer | SignalingAnswer | SignalingIce =>
      Lift(SignalingFromBody(e.body), (m: SignalingMessage) => Signaling(m))
    case Voice => Err(UnknownKind(KindName(Voice)))
  }

  function Lift<A, B>(r: Outcome<A>, wrap: A -> B): Outcome<B> {
    match r
    case Ok(a) => Ok(wrap(a))
    case Err(error) => Err(error)
  }

  // ---------- bytes ----------

  function EnvelopeValue(e: Envelope): Value {
    JObject(map[KV := JInt(e.version), KKind := JString(KindName(e.kind)), KBody := e.body])
  }

  function ToBytes(size: Value -> nat, e: Envelope): Bytes {
    Bytes(size(EnvelopeValue(e)), Some(EnvelopeValue(e)))
  }

  function FromSlice(bytes: Bytes): Outcome<Envelope> {
    if bytes.size > MAX_ENVELOPE_BYTES then Err(BodyTooLarge(bytes.size))
    else if bytes.value.None? then Err(BodyJsonMalformed)
    else if !bytes.value.value.JObject? then Err(SchemaViolation("envelope", "body_not_object"))
    else
      var f := bytes.value.value.fields;
      if KV !in f then Err(MissingVersion)
      else
        match AsU32(Some(f[KV]))
        case None => Err(SchemaViolation("envelope", "version_not_u32"))
        case Some(version) =>
          if version != 1 then Err(UnsupportedVersion(version))
          else if KKind !in f then Err(SchemaViolation("envelope", "missing_kind"))
          else if !f[KKind].JString? then Err(SchemaViolation("envelope", "kind_not_string"))
          else
            match ParseKind(f[KKind].s)
            case None => Err(UnknownKind(f[KKind].s))
            case Some(kind) =>
              if KBody !in f then Err(SchemaViolation(KindName(kind), "missing_body"))
              else if !f[KBody].JObject? then Err(SchemaViolation(KindName(kind), "body_not_object"))
              else Ok(Envelope(version, kind, f[KBody]))
  }

  function ParseSyncMessage(floats: Floats, bytes: Bytes): Outcome<SyncMessage> {
    match FromSlice(bytes)
    case Err(error) => Err(error)
    case Ok(e) => FromEnvelope(floats, e)
  }

  // ---------- exactly what is accepted ----------

  /** `f` says at least what `written` says; a missing field counts as null, further fields are ignored. */
  ghost predicate Reads(f: map<Key, Value>, written: map<Key, Value>) {
    forall k :: k in written ==> ReadsField(f, k, written[k])
  }

  predicate ReadsField(f: map<Key, Value>, k: Key, v: Value) {
    if k in f then f[k] == v else v == JNull
  }

  /** The decoder of envelopes accepts exactly what says what the encoder writes, at version 1, with an
    object for a body, within the size limit. */
  lemma SliceReads(bytes: Bytes, e: Envelope)
    ensures FromSlice(bytes) == Ok(e) <==>
      && bytes.size <= 65_536 && e.version == 1 && e.body.JObject?
      && bytes.value.Some? && bytes.value.value.JObject?
      && Reads(bytes.value.value.fields, EnvelopeValue(e).fields)
  {
    NamesAreDistinct(e.kind);
    hide ParseKind, KindName;
    var written := EnvelopeValue(e).fields;
    assert KV in written && KKind in written && KBody in written;
  }

  /** A chat message has a sender, and a text of at most 2048 characters that is not empty. */
  predicate ChatValid(m: ChatMessage) {
    m.version == 1 && m.sender != "" && 1 <= |m.message| <= 2048
  }

  /** A signaling message names its room and its token, and has a session description, or a candidate of at
    most 1024 bytes; an offer has an ICE policy as well. */
  predicate SignalingValid(m: SignalingMessage) {
    && m.version == 1 && m.roomId != "" && m.authToken != ""
    && (m.Offer? ==> m.sdp != "" && m.icePolicy != "")
    && (m.Answer? ==> m.sdp != "")
    && (m.Ice? ==> 1 <= Utf8Len(m.candidate) <= 1024)
  }

  lemma {:induction false} Utf8LenPositive(s: string)
    ensures Utf8Len(s) == 0 <==> s == ""
  {
    if s == "" {
    } else {
      Utf8LenPositive(s[..|s| - 1]);
    }
  }

  /** The first fault of a chat message that has one. */
  function ChatFault(m: ChatMessage): SyncMessageError {
    if m.version != 1 then UnsupportedVersion(m.version)
    else SchemaViolation("chat", if m.sender == "" then "missing_sender" else "message_length")
  }

  /** The first fault of a signaling message that has one. */
  function SignalingFault(m: SignalingMessage): SyncMessageError {
    if m.version != 1 then UnsupportedVersion(m.version)
    else SchemaViolation("signaling",
                         if m.roomId == "" then "missing_room_id"
                         else if m.authToken == "" then "missing_auth_token"
                         else if m.Ice? then "invalid_candidate"
                         else if m.sdp == "" then "missing_sdp"
                         else "missing_ice_policy")
  }

  /** What is refused, and with which error when several would apply. */
  lemma ValidationExactly(chat: ChatMessage, m: SignalingMessage)
    ensures ValidateChat(chat).None? <==> ChatValid(chat)
    ensures ValidateChat(chat).Some? ==> ValidateChat(chat).value == ChatFault(chat)
    ensures ValidateSignaling(m).None? <==> SignalingValid(m)
    ensures ValidateSignaling(m).Some? ==> ValidateSignaling(m).value == SignalingFault(m)
  {
    if m.Ice? {
      Utf8LenPositive(m.candidate);
    }
  }

  /** The kind a message travels under. */
  function NaturalKind(m: SyncMessage): StreamKind {
    match m
    case Pose(_) => StreamKind.Pose
    case Chat(_) => StreamKind.Chat
    case Control(control) => if control.Join? then ControlJoin else ControlLeave
    case Signaling(s) => if s.Offer? then SignalingOffer else if s.Answer? then SignalingAnswer else SignalingIce
  }

  predicate Encodable(m: SyncMessage) {
    && (m.Pose? ==> m.pose.version == 1)
    && (m.Chat? ==> ChatValid(m.chat))
    && (m.Signaling? ==> SignalingValid(m.signaling))
  }

  /** What is encoded: exactly the valid messages, under the kind they are of. */
  lemma EncodesExactly(floats: Floats, m: SyncMessage)
    ensures var e := IntoEnvelope(floats, m);
      && (e.Ok? <==> Encodable(m))
      && (e.Ok? ==> e.value.version == 1 && e.value.body.JObject? && e.value.kind == NaturalKind(m))
  {
    ValidationExactly(if m.Chat? then m.chat else ChatMessage(1, 0, 0, "", ""),
                      if m.Signaling? then m.signaling else Answer(1, "", "", "", ""));
    hide ValidateChat, ValidateSignaling, ChatValid, SignalingValid;
  }

  /** A refused envelope: the first of its faults, in the order size, text, object, version, kind, body. Each
    error says what is wrong, and that what is checked before it was right. */
  lemma SliceRefusal(bytes: Bytes)
    requires FromSlice(bytes).Err?
    ensures var error := FromSlice(bytes).error;
      if bytes.size > 65_536 then error == BodyTooLarge(bytes.size)
      else if bytes.value.None? then error == BodyJsonMalformed
      else if !bytes.value.value.JObject? then error == SchemaViolation("envelope", "body_not_object")
      else
        var f := bytes.value.value.fields;
        if KV !in f then error == MissingVersion
        else if !ReadsField(f, KV, JInt(1)) then
          if AsU32(Field(f, KV)).Some? then error == UnsupportedVersion(f[KV].n)
          else error == SchemaViolation("envelope", "version_not_u32")
        else if KKind !in f then error == SchemaViolation("envelope", "missing_kind")
        else if !f[KKind].JString? then error == SchemaViolation("envelope", "kind_not_string")
        else if forall k :: KindName(k) != f[KKind].s then error == UnknownKind(f[KKind].s)
        else error == SchemaViolation(f[KKind].s, if KBody !in f then "missing_body" else "body_not_object")
  {
    if bytes.size <= MAX_ENVELOPE_BYTES && bytes.value.Some? && bytes.value.value.JObject? {
      var f := bytes.value.value.fields;
      if KKind in f && f[KKind].JString? {
        KnownKinds(f[KKind].s);
      }
    }
    hide ParseKind, KindName;
  }

  lemma KnownKinds(text: string)
    ensures ParseKind(text).None? <==> forall k :: KindName(k) != text
  {
    forall k ensures ParseKind(KindName(k)) == Some(k) {
      NamesAreDistinct(k);
    }
    hide ParseKind, KindName;
  }

  lemma {:induction false} ChatReads(body: Value, m: ChatMessage)
    ensures ChatFromBody(body) == Ok(m) <==>
      body.JObject? && Reads(body.fields, ChatValue(m).fields) && ChatValid(m)
  {
    ValidationExactly(m, Answer(1, "", "", "", ""));
    if body.JObject? {
      ChatTyped(body.fields, m);
    }
    hide AsChat, ChatValue, ValidateChat, ChatValid, Reads;
  }

  lemma {:induction false} ControlReads(body: Value, m: ControlMessage)
    ensures ControlFromBody(body) == Ok(m) <==> body.JObject? && Reads(body.fields, ControlValue(m).fields)
  {
    assert "join"[0] == 'j' && "leave"[0] == 'l';
    var written := ControlValue(m).fields;
    assert KType in written && KParticipantId in written && KReconnectToken in written && KReason in written;
  }

  // The written forms, field by field, under the names of the message schemas.

  lemma EnvelopeLayout(e: Envelope)
    ensures var f := EnvelopeValue(e).fields;
      ReadsField(f, KV, JInt(e.version)) && ReadsField(f, KKind, JString(KindName(e.kind)))
        && ReadsField(f, KBody, e.body)
  {
  }

  lemma PoseLayout(floats: Floats, m: PoseMessage)
    ensures var f := PoseValue(floats, m).fields;
      && ReadsField(f, KVersion, JInt(m.version)) && ReadsField(f, KTimestampMicros, JInt(m.timestampMicros))
      && ReadsField(f, KHead, TransformValue(floats, m.head))
      && ReadsField(f, KHandL, if m.handL.Some? then TransformValue(floats, m.handL.value) else JNull)
      && ReadsField(f, KHandR, if m.handR.Some? then TransformValue(floats, m.handR.value) else JNull)
    ensures var f, p, r := TransformValue(floats, m.head).fields, m.head.position, m.head.rotation;
      && ReadsField(f, KPosition, JArray([FloatValue(floats, p.x), FloatValue(floats, p.y), FloatValue(floats, p.z)]))
      && ReadsField(f, KRotation, JArray([FloatValue(floats, r.x), FloatValue(floats, r.y), FloatValue(floats, r.z),
                                          FloatValue(floats, r.w)]))
  {
  }

  lemma ChatLayout(m: ChatMessage)
    ensures var f := ChatValue(m).fields;
      && ReadsField(f, KVersion, JInt(m.version)) && ReadsField(f, KTimestampMicros, JInt(m.timestampMicros))
      && ReadsField(f, KSequenceId, JInt(m.sequenceId))
      && ReadsField(f, KSender, JString(m.sender)) && ReadsField(f, KMessage, JString(m.message))
  {
  }

  lemma ControlLayout(m: ControlMessage)
    ensures var f := ControlValue(m).fields;
      && ReadsField(f, KType, JString(if m.Join? then "join" else "leave"))
      && ReadsField(f, KParticipantId, JString(m.payload.participantId))
      && ReadsField(f, KReconnectToken, OptString(m.payload.reconnectToken))
      && ReadsField(f, KReason, OptString(m.payload.reason))
  {
  }

  lemma SignalingLayout(m: SignalingMessage)
    ensures var f := SignalingValue(m).fields;
      && ReadsField(f, KVersion, JInt(m.version)) && ReadsField(f, KRoomId, JString(m.roomId))
      && ReadsField(f, KParticipantId, JString(m.participantId)) && ReadsField(f, KAuthToken, JString(m.authToken))
      && ReadsField(f, KType, JString(if m.Offer? then "offer" else if m.Answer? then "answer" else "ice"))
      && (m.Offer? ==> ReadsField(f, KSdp, JString(m.sdp)) && ReadsField(f, KIcePolicy, JString(m.icePolicy)))
      && (m.Answer? ==> ReadsField(f, KSdp, JString(m.sdp)))
      && (m.Ice? ==> ReadsField(f, KCandidate, JString(m.candidate)) && ReadsField(f, KSdpMid, OptString(m.sdpMid))
                     && ReadsField(f, KSdpMlineIndex, OptU16(m.sdpMlineIndex)))
  {
  }

  /** What each kind of field reader accepts, for each value that is written. */
  lemma FieldReads(f: map<Key, Value>, k: Key)
    ensures forall n: u32 :: AsU32(Field(f, k)) == Some(n) <==> ReadsField(f, k, JInt(n))
    ensures forall t: string :: AsString(Field(f, k)) == Some(t) <==> ReadsField(f, k, JString(t))
    ensures forall t: Option<string> :: AsOptString(Field(f, k)) == Some(t) <==> ReadsField(f, k, OptString(t))
    ensures forall n: Option<u16> :: AsOptU16(Field(f, k)) == Some(n) <==> ReadsField(f, k, OptU16(n))
  {
  }

  lemma FieldReadsU64(f: map<Key, Value>, k: Key)
    ensures forall n: u64 :: AsU64(Field(f, k)) == Some(n) <==> ReadsField(f, k, JInt(n))
  {
  }

  lemma OfferReads(f: map<Key, Value>, m: SignalingMessage)
    requires m.Offer?
    ensures AsOffer(f) == Some(m) && AsString(Field(f, KType)) == Some("offer") <==> Reads(f, SignalingValue(m).fields)
  {
    hide AsU32, AsString, Field, ReadsField;
    forall k { FieldReads(f, k); }
    var written := SignalingValue(m).fields;
    assert KType in written && KVersion in written && KRoomId in written && KParticipantId in written
           && KAuthToken in written && KIcePolicy in written && KSdp in written;
  }

  lemma AnswerReads(f: map<Key, Value>, m: SignalingMessage)
    requires m.Answer?
    ensures AsAnswer(f) == Some(m) && AsString(Field(f, KType)) == Some("answer")
      <==> Reads(f, SignalingValue(m).fields)
  {
    hide AsU32, AsString, Field, ReadsField;
    forall k { FieldReads(f, k); }
    var written := SignalingValue(m).fields;
    assert KType in written && KVersion in written && KRoomId in written && KParticipantId in written
           && KAuthToken in written && KSdp in written;
  }

  lemma {:induction false} IceReads(f: map<Key, Value>, m: SignalingMessage)
    requires m.Ice?
    ensures AsIce(f) == Some(m) && AsString(Field(f, KType)) == Some("ice") <==> Reads(f, SignalingValue(m).fields)
  {
    hide AsU32, AsString, AsOptString, AsOptU16, OptString, OptU16, Field, ReadsField;
    forall k { FieldReads(f, k); }
    var written := SignalingValue(m).fields;
    assert KType in written && KVersion in written && KRoomId in written && KParticipantId in written
           && KAuthToken in written && KCandidate in written && KSdpMid in written && KSdpMlineIndex in written;
  }

  /** Where all required fields are present, a body is accepted if its typed read is valid. */
  lemma {:induction false} CheckedAccepts(f: map<Key, Value>, required: seq<(Key, string)>,
                                          typed: Option<SignalingMessage>,
                                          invalid: string, m: SignalingMessage)
    requires typed == Some(m) ==> forall i :: 0 <= i < |required| ==> required[i].0 in f
    ensures Checked(f, required, typed, invalid) == Ok(m) <==> typed == Some(m) && ValidateSignaling(m).None?
  {
    hide ValidateSignaling;
    if required == [] {
    } else {
      CheckedAccepts(f, required[1..], typed, invalid, m);
    }
  }

  /** The signaling decoder accepts exactly the valid messages whose written form the body contains. */
  lemma {:induction false} SignalingReads(body: Value, m: SignalingMessage)
    ensures SignalingFromBody(body) == Ok(m) <==>
      body.JObject? && Reads(body.fields, SignalingValue(m).fields) && SignalingValid(m)
  {
    ValidationExactly(ChatMessage(1, 0, 0, "", ""), m);
    assert "offer"[0] == 'o' && "answer"[0] == 'a' && "ice"[0] == 'i';
    hide ValidateSignaling, SignalingValue, Checked, Reads, SignalingValid;
    if body.JObject? {
      var f := body.fields;
      CheckedAccepts(f, ROOM_AND_TOKEN + [(KIcePolicy, "missing_ice_policy"), (KSdp, "missing_sdp")], AsOffer(f),
                     "invalid_offer", m);
      CheckedAccepts(f, ROOM_AND_TOKEN + [(KSdp, "missing_sdp")], AsAnswer(f), "invalid_answer", m);
      CheckedAccepts(f, ROOM_AND_TOKEN + [(KCandidate, "missing_candidate")], AsIce(f), "invalid_ice", m);
      match m
      case Offer(_, _, _, _, _, _) => OfferReads(f, m);
      case Answer(_, _, _, _, _) => AnswerReads(f, m);
      case Ice(_, _, _, _, _, _, _) => IceReads(f, m);
    }
  }

  // ---------- what is refused, and how ----------

  /** A chat body that says a message which is not valid is refused for its first fault, one that says none
    as malformed. */
  lemma {:induction false} ChatRefusal(body: Value, m: ChatMessage)
    ensures !body.JObject? ==> ChatFromBody(body) == Err(SchemaViolation("chat", "body_not_object"))
    ensures body.JObject? && Reads(body.fields, ChatValue(m).fields) && !ChatValid(m)
      ==> ChatFromBody(body) == Err(ChatFault(m))
    ensures body.JObject? && (forall x :: !Reads(body.fields, ChatValue(x).fields)) ==>
      ChatFromBody(body) == Err(SchemaViolation("chat", "invalid_chat"))
  {
    if body.JObject? {
      var said := AsChat(body.fields);
      ChatTyped(body.fields, m);
      if said.Some? {
        ChatTyped(body.fields, said.value);
      }
      ValidationExactly(m, Answer(1, "", "", "", ""));
      hide AsChat, ChatValid, ChatFault, Reads, ValidateChat;
    }
  }

  lemma {:induction false} ChatTyped(f: map<Key, Value>, m: ChatMessage)
    ensures AsChat(f) == Some(m) <==> Reads(f, ChatValue(m).fields)
  {
    hide AsU32, AsU64, AsString, Field, ReadsField;
    forall k { FieldReads(f, k); }
    forall k { FieldReadsU64(f, k); }
    var written := ChatValue(m).fields;
    assert KVersion in written && KTimestampMicros in written && KSequenceId in written && KSender in written
           && KMessage in written;
  }

  lemma ControlRefusal(body: Value)
    ensures !body.JObject? ==> ControlFromBody(body) == Err(SchemaViolation("control", "body_not_object"))
    ensures body.JObject? && ControlFromBody(body).Err? ==>
      ControlFromBody(body) == Err(SchemaViolation("control", "unsupported_kind"))
  {
  }

  /** The first thing that is missing from a signaling body, before its fields are read. */
  function Missing(f: map<Key, Value>): Option<string> {
    var tag := Field(f, KType);
    if tag.None? || !tag.value.JString? then Some("missing_type")
    else if tag.value.s != "offer" && tag.value.s != "answer" && tag.value.s != "ice" then Some("unsupported_kind")
    else if KRoomId !in f then Some("missing_room_id")
    else if KAuthToken !in f then Some("missing_auth_token")
    else if tag.value.s == "offer" && KIcePolicy !in f then Some("missing_ice_policy")
    else if tag.value.s != "ice" && KSdp !in f then Some("missing_sdp")
    else if tag.value.s == "ice" && KCandidate !in f then Some("missing_candidate")
    else None
  }

  /** A signaling body is refused for the first thing missing from it, else for a field of a wrong type, else
    for the first fault of the message it says. */
  lemma {:induction false} SignalingRefusal(body: Value)
    requires body.JObject? && SignalingFromBody(body).Err?
    ensures var error := SignalingFromBody(body).error;
      match Missing(body.fields)
      case Some(reason) => error == Violation(reason)
      case None =>
        var said := if body.fields[KType].s == "offer" then AsOffer(body.fields)
                    else if body.fields[KType].s == "answer" then AsAnswer(body.fields) else AsIce(body.fields);
        if said.Some? then !SignalingValid(said.value) && error == SignalingFault(said.value)
        else error == Violation("invalid_" + body.fields[KType].s)
  {
    assert "offer"[0] == 'o' && "answer"[0] == 'a' && "ice"[0] == 'i';
    assert "invalid_" + "offer" == "invalid_offer" && "invalid_" + "answer" == "invalid_answer";
    assert "invalid_" + "ice" == "invalid_ice";
    var f := body.fields;
    MissingIsFirst(f);
    var blank := Answer(1, "", "", "", "");
    var said := if Missing(f).Some? then None else if f[KType].s == "offer" then AsOffer(f)
                else if f[KType].s == "answer" then AsAnswer(f) else AsIce(f);
    ValidationExactly(ChatMessage(1, 0, 0, "", ""), if said.Some? then said.value else blank);
    hide FirstMissing, AsOffer, AsAnswer, AsIce, SignalingValid, SignalingFault, ValidateSignaling;
  }

  lemma MissingIsFirst(f: map<Key, Value>)
    ensures var offer := FirstMissing(f, ROOM_AND_TOKEN + [(KIcePolicy, "missing_ice_policy"), (KSdp, "missing_sdp")]);
      offer == if KRoomId !in f then Some("missing_room_id") else if KAuthToken !in f then Some("missing_auth_token")
               else if KIcePolicy !in f then Some("missing_ice_policy")
               else if KSdp !in f then Some("missing_sdp") else None
    ensures var answer := FirstMissing(f, ROOM_AND_TOKEN + [(KSdp, "missing_sdp")]);
      answer == if KRoomId !in f then Some("missing_room_id") else if KAuthToken !in f then Some("missing_auth_token")
                else if KSdp !in f then Some("missing_sdp") else None
    ensures var ice := FirstMissing(f, ROOM_AND_TOKEN + [(KCandidate, "missing_candidate")]);
      ice == if KRoomId !in f then Some("missing_room_id") else if KAuthToken !in f then Some("missing_auth_token")
             else if KCandidate !in f then Some("missing_candidate") else None
  {
    var offer := ROOM_AND_TOKEN + [(KIcePolicy, "missing_ice_policy"), (KSdp, "missing_sdp")];
    assert offer[1..] == [(KAuthToken, "missing_auth_token"), (KIcePolicy, "missing_ice_policy"),
                          (KSdp, "missing_sdp")];
    assert offer[1..][1..] == [(KIcePolicy, "missing_ice_policy"), (KSdp, "missing_sdp")];
    assert offer[1..][1..][1..] == [(KSdp, "missing_sdp")];
    var answer := ROOM_AND_TOKEN + [(KSdp, "missing_sdp")];
    assert answer[1..] == [(KAuthToken, "missing_auth_token"), (KSdp, "missing_sdp")];
    assert answer[1..][1..] == [(KSdp, "missing_sdp")];
    var ice := ROOM_AND_TOKEN + [(KCandidate, "missing_candidate")];
    assert ice[1..] == [(KAuthToken, "missing_auth_token"), (KCandidate, "missing_candidate")];
    assert ice[1..][1..] == [(KCandidate, "missing_candidate")];
    hide FirstMissing;
    MissingStep(f, offer);
    MissingStep(f, offer[1..]);
    MissingStep(f, offer[1..][1..]);
    MissingStep(f, [(KSdp, "missing_sdp")]);
    MissingStep(f, answer);
    MissingStep(f, answer[1..]);
    MissingStep(f, ice);
    MissingStep(f, ice[1..]);
    MissingStep(f, [(KCandidate, "missing_candidate")]);
    MissingStep(f, []);
    assert [(KSdp, "missing_sdp")][1..] == [] && [(KCandidate, "missing_candidate")][1..] == [];
  }

  lemma MissingStep(f: map<Key, Value>, required: seq<(Key, string)>)
    ensures FirstMissing(f, required) ==
      if required == [] then None
      else if required[0].0 !in f then Some(required[0].1)
      else FirstMissing(f, required[1..])
  {
  }

  /** Any body that says a finite pose is read as that pose, hands left out included; and poses of another
    version are refused for it. */
  lemma PoseReads(floats: Floats, body: Value, m: PoseMessage)
    requires floats.Faithful() && AllFinite(SyncMessage.Pose(m))
    requires body.JObject? && Reads(body.fields, PoseValue(floats, m).fields)
    ensures PoseFromBody(floats, body) == if m.version == 1 then Ok(m) else Err(UnsupportedVersion(m.version))
  {
    var f, written := body.fields, PoseValue(floats, m).fields;
    assert KVersion in written && KTimestampMicros in written && KHead in written && KHandL in written
      && KHandR in written;
    FieldReads(f, KVersion);
    OptTransformReads(floats, f, KHead, Some(m.head));
    OptTransformReads(floats, f, KHandL, m.handL);
    OptTransformReads(floats, f, KHandR, m.handR);
    hide AsTransform, FiniteTransform, TransformValue, AsOptTransform, AsU32;
  }

  lemma OptTransformReads(floats: Floats, f: map<Key, Value>, k: Key, t: Option<PoseTransform>)
    requires floats.Faithful() && FiniteOpt(t) && ReadsField(f, k, OptTransformValue(floats, t))
    ensures AsOptTransform(floats, Field(f, k)) == Some(t)
    ensures t.Some? ==> k in f && AsTransform(floats, f[k]) == t
  {
    hide AsTransform, FiniteTransform;
    if t.Some? {
      TransformRoundTrip(floats, t.value);
    }
  }

  lemma PoseRefusal(floats: Floats, body: Value)
    requires PoseFromBody(floats, body).Err? && !PoseFromBody(floats, body).error.UnsupportedVersion?
    ensures PoseFromBody(floats, body) == Err(SchemaViolation("pose",
      if !body.JObject? then "body_not_object" else if KHead !in body.fields then "missing_head" else "invalid_pose"))
  {
    hide AsPose;
  }

  /** Coordinates are numbers: three make a vector and four a rotation, integers are converted and other
    numbers narrowed; anything else is refused. */
  lemma CoordinatesAreNumbers(floats: Floats, x: Value, y: Value, z: Value, w: Value)
    ensures var number := (v: Value) => v.JInt? || v.JFloat?;
      var read := (v: Value) =>
        if v.JInt? then floats.ofInt(v.n) else if v.JFloat? then floats.narrow(v.double) else Finite(0);
      && AsVec(floats, JArray([x, y, z])) ==
           (if number(x) && number(y) && number(z) then Some(Vec3(read(x), read(y), read(z))) else None)
      && AsQuat(floats, JArray([x, y, z, w])) ==
           (if number(x) && number(y) && number(z) && number(w)
            then Some(Quat(read(x), read(y), read(z), read(w))) else None)
      && AsVec(floats, JArray([x, y, z, w])) == None && AsQuat(floats, JArray([x, y, z])) == None
  {
  }

  /** A transform may also be given by position. */
  lemma PositionalTransform(floats: Floats, position: Value, rotation: Value)
    ensures AsTransform(floats, JArray([position, rotation]))
      == AsTransform(floats, JObject(map[KPosition := position, KRotation := rotation]))
  {
    hide AsVec, AsQuat;
  }

  // ---------- round trips ----------

  predicate FiniteVec(v: Vec3) { v.x.Finite? && v.y.Finite? && v.z.Finite? }

  predicate FiniteQuat(q: Quat) { q.x.Finite? && q.y.Finite? && q.z.Finite? && q.w.Finite? }

  predicate FiniteTransform(t: PoseTransform) { FiniteVec(t.position) && FiniteQuat(t.rotation) }

  predicate FiniteOpt(t: Option<PoseTransform>) { t.Some? ==> FiniteTransform(t.value) }

  /** All floats of the message are finite. */
  predicate AllFinite(m: SyncMessage) {
    m.Pose? ==> FiniteTransform(m.pose.head) && FiniteOpt(m.pose.handL) && FiniteOpt(m.pose.handR)
  }

  lemma TransformRoundTrip(floats: Floats, t: PoseTransform)
    requires floats.Faithful()
    ensures AsTransform(floats, TransformValue(floats, t)) == if FiniteTransform(t) then Some(t) else None
  {
    var v, q := VecValue(floats, t.position), QuatValue(floats, t.rotation);
    assert AsVec(floats, v) == if FiniteVec(t.position) then Some(t.position) else None;
    assert AsQuat(floats, q) == if FiniteQuat(t.rotation) then Some(t.rotation) else None;
  }

  lemma PoseRoundTrip(floats: Floats, m: PoseMessage)
    requires floats.Faithful()
    ensures AsPose(floats, PoseValue(floats, m).fields) == if AllFinite(SyncMessage.Pose(m)) then Some(m) else None
  {
    hide AsTransform, FiniteTransform;
    TransformRoundTrip(floats, m.head);
    if m.handL.Some? {
      TransformRoundTrip(floats, m.handL.value);
    }
    if m.handR.Some? {
      TransformRoundTrip(floats, m.handR.value);
    }
  }

  lemma NonPoseFinite(m: SyncMessage)
    requires !m.Pose?
    ensures AllFinite(m)
  {
  }

  lemma ReadsItself(f: map<Key, Value>)
    ensures Reads(f, f)
  {
  }

  lemma ChatRoundTrip(m: ChatMessage)
    requires ValidateChat(m).None?
    ensures ChatFromBody(ChatValue(m)) == Ok(m)
  {
    ValidationExactly(m, Answer(1, "", "", "", ""));
    ReadsItself(ChatValue(m).fields);
    hide ChatFromBody, ChatValid, Reads, ValidateChat;
    ChatReads(ChatValue(m), m);
  }

  lemma SignalingRoundTrip(m: SignalingMessage)
    requires ValidateSignaling(m).None?
    ensures SignalingFromBody(SignalingValue(m)) == Ok(m)
  {
    ValidationExactly(ChatMessage(1, 0, 0, "", ""), m);
    ReadsItself(SignalingValue(m).fields);
    hide SignalingFromBody, SignalingValid, Reads, ValidateSignaling;
    SignalingReads(SignalingValue(m), m);
  }

  /** The codec round trip: a message that was accepted for encoding decodes to itself if and only if its
    floats are all finite (which can only fail for poses). */
  lemma {:induction false} EncodeDecode(floats: Floats, m: SyncMessage)
    requires floats.Faithful() && IntoEnvelope(floats, m).Ok?
    ensures FromEnvelope(floats, IntoEnvelope(floats, m).value) ==
      if AllFinite(m) then Ok(m) else Err(SchemaViolation("pose", "invalid_pose"))
  {
    hide ControlFromBody, ChatFromBody, SignalingFromBody, AsPose, AllFinite, ValidateChat, ValidateSignaling, Field,
         ChatValid, SignalingValid, Reads;
    match m
    case Pose(pose) => PoseRoundTrip(floats, pose);
    case Chat(chat) =>
      NonPoseFinite(m);
      ChatRoundTrip(chat);
    case Control(control) =>
      NonPoseFinite(m);
      ControlReads(ControlValue(control), control);
      ReadsItself(ControlValue(control).fields);
    case Signaling(signaling) =>
      NonPoseFinite(m);
      SignalingRoundTrip(signaling);
  }

  /** Every decoded message is accepted for encoding again. So decode-encode-decode is decode, except
    for a pose with a number that overflowed to a non-finite float when it was first read. */
  lemma DecodeEncodeDecode(floats: Floats, e: Envelope)
    requires floats.Faithful() && FromEnvelope(floats, e).Ok?
    ensures var m := FromEnvelope(floats, e).value;
      && IntoEnvelope(floats, m).Ok?
      && (FromEnvelope(floats, IntoEnvelope(floats, m).value) == FromEnvelope(floats, e) <==> AllFinite(m))
  {
    var m := FromEnvelope(floats, e).value;
    assert IntoEnvelope(floats, m).Ok?;
    EncodeDecode(floats, m);
  }

  /** The exceptional family exists: a head coordinate that is a double beyond single precision. */
  lemma OverflowingPoseIsLostOnReencoding(floats: Floats, big: nat)
    requires floats.Faithful() && floats.narrow(big).NonFinite?
    ensures var zero := JFloat(floats.widen(0));
      var head := JObject(map[KPosition := JArray([JFloat(big), zero, zero]),
                              KRotation := JArray([zero, zero, zero, zero])]);
      var e := Envelope(1, StreamKind.Pose,
                        JObject(map[KVersion := JInt(1), KTimestampMicros := JInt(0), KHead := head]));
      FromEnvelope(floats, e).Ok? && !AllFinite(FromEnvelope(floats, e).value)
  {
    var zero := JFloat(floats.widen(0));
    var position, rotation := JArray([JFloat(big), zero, zero]), JArray([zero, zero, zero, zero]);
    assert AsVec(floats, position) == Some(Vec3(floats.narrow(big), Finite(0), Finite(0)));
    assert AsQuat(floats, rotation) == Some(Quat(Finite(0), Finite(0), Finite(0), Finite(0)));
  }

  /** On the wire: an encoded message is read back if and only if its envelope fits the size limit and
    its floats are finite; an oversized one is refused as such. */
  lemma WireRoundTrip(floats: Floats, size: Value -> nat, m: SyncMessage)
    requires floats.Faithful() && IntoEnvelope(floats, m).Ok?
    ensures var bytes := ToBytes(size, IntoEnvelope(floats, m).value);
      ParseSyncMessage(floats, bytes) ==
        if bytes.size > 65_536 then Err(BodyTooLarge(bytes.size))
        else if AllFinite(m) then Ok(m)
        else Err(SchemaViolation("pose", "invalid_pose"))
  {
    EncodeDecode(floats, m);
    NamesAreDistinct(IntoEnvelope(floats, m).value.kind);
  }

  /** Whatever bytes come with a given kind, they decode to a message of that kind's family: no chat or
    pose envelope is ever read as control. */
  lemma EnvelopeKindIsFamily(floats: Floats, size: Value -> nat, e: Envelope)
    requires e.version == 1 && e.body.JObject?
    ensures var r := ParseSyncMessage(floats, ToBytes(size, e));
      r.Ok? ==>
        && (r.value.Pose? <==> e.kind == StreamKind.Pose)
        && (r.value.Chat? <==> e.kind == StreamKind.Chat)
        && (r.value.Control? <==> e.kind in {ControlJoin, ControlLeave})
        && (r.value.Signaling? <==> e.kind in {SignalingOffer, SignalingAnswer, SignalingIce})
    ensures e.kind == Voice ==> FromEnvelope(floats, e) == Err(UnknownKind("voice"))
  {
    NamesAreDistinct(e.kind);
  }
}
