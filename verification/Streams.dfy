/** The kinds of traffic a syncer carries, and their names on the wire. */
module Streams {
  import opened Wrappers

  datatype StreamKind =
    | Pose | Chat | Voice
    | ControlJoin | ControlLeave
    | SignalingOffer | SignalingAnswer | SignalingIce

  function KindName(kind: StreamKind): string {
    match kind
    case Pose => "pose"
    case Chat => "chat"
    case Voice => "voice"
    case ControlJoin => "control.join"
    case ControlLeave => "control.leave"
    case SignalingOffer => "signaling.offer"
    case SignalingAnswer => "signaling.answer"
    case SignalingIce => "signaling.ice"
  }

  /** None stands for the UnknownKind error carrying the text. */
  function ParseKind(text: string): (kind: Option<StreamKind>)
    ensures kind.Some? ==> KindName(kind.value) == text
  {
    if text == "pose" then Some(Pose)
    else if text == "chat" then Some(Chat)
    else if text == "voice" then Some(Voice)
    else if text == "control.join" then Some(ControlJoin)
    else if text == "control.leave" then Some(ControlLeave)
    else if text == "signaling.offer" then Some(SignalingOffer)
    else if text == "signaling.answer" then Some(SignalingAnswer)
    else if text == "signaling.ice" then Some(SignalingIce)
    else None
  }

  /** The names on the wire. */
  lemma KindNames()
    ensures ParseKind("pose") == Some(Pose) && ParseKind("chat") == Some(Chat) && ParseKind("voice") == Some(Voice)
    ensures ParseKind("control.join") == Some(ControlJoin) && ParseKind("control.leave") == Some(ControlLeave)
    ensures ParseKind("signaling.offer") == Some(SignalingOffer)
    ensures ParseKind("signaling.answer") == Some(SignalingAnswer)
    ensures ParseKind("signaling.ice") == Some(SignalingIce)
  {
    NamesAreDistinct(Pose);
    NamesAreDistinct(Chat);
    NamesAreDistinct(Voice);
    NamesAreDistinct(ControlJoin);
    NamesAreDistinct(ControlLeave);
    NamesAreDistinct(SignalingOffer);
    NamesAreDistinct(SignalingAnswer);
    NamesAreDistinct(SignalingIce);
    hide ParseKind;
  }

  /** The name table has no collisions: every kind is read back from its own name. */
  lemma NamesAreDistinct(kind: StreamKind)
    ensures ParseKind(KindName(kind)) == Some(kind)
  {
    assert "pose"[0] == 'p' && "chat"[0] == 'c' && "chat"[1] == 'h' && "voice"[0] == 'v';
    assert "control.join"[8] == 'j' && "control.leave"[8] == 'l' && "control.join"[1] == 'o'
      && "control.leave"[1] == 'o';
    assert "signaling.offer"[10] == 'o' && "signaling.answer"[10] == 'a' && "signaling.ice"[10] == 'i';
  }
}
