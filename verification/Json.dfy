/** JSON values as the codec sees them, and the bytes they travel as. */
module Json {
  import opened Wrappers

  /** Object keys: the names the message schemas use, and every other name. */
  datatype Key =
    | KV | KKind | KBody | KType
    | KVersion | KTimestampMicros | KHead | KHandL | KHandR | KPosition | KRotation
    | KSequenceId | KSender | KMessage
    | KParticipantId | KReconnectToken | KReason
    | KRoomId | KAuthToken | KIcePolicy | KSdp | KCandidate | KSdpMid | KSdpMlineIndex
    | KOther(name: string)

  /** Integers are those of 64 bits, signed or not; other numbers are opaque finite doubles. */
  datatype Value =
    | JNull
    | JBool(b: bool)
    | JInt(n: int)
    | JFloat(double: nat)
    | JString(s: string)
    | JArray(items: seq<Value>)
    | JObject(fields: map<Key, Value>)

  /** Bytes on the wire: their number, and the value they parse to if they are JSON. That a value is
    read back from its own text is taken from the JSON library. */
  datatype Bytes = Bytes(size: nat, value: Option<Value>)

  datatype F32 = Finite(bits: nat) | NonFinite(bits: nat)

  /** Conversions between single-precision floats and JSON numbers: widening is exact, narrowing rounds
    and may overflow to a non-finite float, and integers are converted too. */
  datatype Floats = Floats(widen: nat -> nat, narrow: nat -> F32, ofInt: int -> F32) {
    ghost predicate Faithful() {
      forall b: nat :: narrow(widen(b)) == Finite(b)
    }
  }

  function Field(fields: map<Key, Value>, key: Key): Option<Value> {
    if key in fields then Some(fields[key]) else None
  }

  function AsString(v: Option<Value>): Option<string> {
    if v.Some? && v.value.JString? then Some(v.value.s) else None
  }

  function AsU32(v: Option<Value>): Option<u32> {
    if v.Some? && v.value.JInt? && 0 <= v.value.n < 0x1_0000_0000 then Some(v.value.n) else None
  }

  function AsU64(v: Option<Value>): Option<u64> {
    if v.Some? && v.value.JInt? && 0 <= v.value.n < 0x1_0000_0000_0000_0000 then Some(v.value.n) else None
  }

  /** Optional fields may be missing or null; the outer None is a type error. */
  function AsOptString(v: Option<Value>): Option<Option<string>> {
    if v.None? || v.value.JNull? then Some(None)
    else if v.value.JString? then Some(Some(v.value.s)) else None
  }

  function AsOptU16(v: Option<Value>): Option<Option<u16>> {
    if v.None? || v.value.JNull? then Some(None)
    else if v.value.JInt? && 0 <= v.value.n < 0x1_0000 then Some(Some(v.value.n)) else None
  }

  function OptString(s: Option<string>): Value {
    if s.Some? then JString(s.value) else JNull
  }

  function OptU16(n: Option<u16>): Value {
    if n.Some? then JInt(n.value) else JNull
  }

  /** A float that is no number has no JSON text and is written as null. */
  function FloatValue(floats: Floats, f: F32): Value {
    if f.Finite? then JFloat(floats.widen(f.bits)) else JNull
  }

  function AsF32(floats: Floats, v: Value): Option<F32> {
    match v
    case JInt(n) => Some(floats.ofInt(n))
    case JFloat(d) => Some(floats.narrow(d))
    case _ => None
  }
}
