/**
 * The values a signaling message is made of. Inbound text is decoded
 * before it reaches the relay, so a message is a JSON object: a map from
 * field names to values. The relay looks at two fields only, `type` and
 * `room`; every other field is carried along untouched.
 */
module Messages {

  /** Identity of one client connection (the `ws` object of the server). */
  type ConnId = nat

  /** A JavaScript value as produced by decoding JSON, plus `undefined`,
      which is what reading a missing field yields. */
  datatype JsValue =
    | Undefined
    | Null
    | Bool(b: bool)
    | Num(n: real)
    | Str(s: string)
    | Arr(items: seq<JsValue>)
    | Obj(fields: map<string, JsValue>)

  /** A decoded message object. */
  type Record = map<string, JsValue>

  /** JavaScript truthiness: `undefined`, `null`, `false`, `0` and `""` are
      falsy, everything else (including every array and object) is truthy. */
  predicate Truthy(v: JsValue)
  {
    match v
    case Undefined => false
    case Null => false
    case Bool(b) => b
    case Num(n) => n != 0.0
    case Str(s) => s != ""
    case Arr(_) => true
    case Obj(_) => true
  }

  /** Property access `data.name`: a missing field reads as `undefined`. */
  function Field(data: Record, name: string): (v: JsValue)
    ensures name in data ==> v == data[name]
    ensures name !in data ==> v == Undefined
  {
    if name in data then data[name] else Undefined
  }

  /** One inbound frame after decoding. `Malformed` stands for every frame
      whose handling throws before it reaches the dispatch: text that is not
      JSON, and JSON `null`, whose `.type` access throws. Any other
      non-object JSON value has no `type` field and is ignored, which is
      also what `Parsed` of a record without a recognised `type` does. */
  datatype Inbound = Parsed(data: Record) | Malformed

  /** The message `{type: t}` with no other field. */
  function Bare(t: JsValue): (m: Record)
    ensures m.Keys == {"type"} && Field(m, "type") == t
  {
    map["type" := t]
  }

  /** Notices the relay originates itself. */
  const PeerJoined: Record := Bare(Str("peer-joined"))
  const PeerLeft: Record := Bare(Str("peer-left"))

  /** The `type` values the router dispatches on. */
  const JoinType: JsValue := Str("join")
  const OfferType: JsValue := Str("offer")
  const AnswerType: JsValue := Str("answer")
  const IceType: JsValue := Str("ice-candidate")
  const TalkingType: JsValue := Str("talking")
  const StoppedType: JsValue := Str("stopped")
  const LeaveType: JsValue := Str("leave")

  /** Negotiation messages, forwarded verbatim. */
  predicate IsNegotiation(t: JsValue)
  {
    t == OfferType || t == AnswerType || t == IceType
  }

  /** Status messages, forwarded as a bare `{type}`. */
  predicate IsStatus(t: JsValue)
  {
    t == TalkingType || t == StoppedType
  }

  /** A `type` value that none of the `switch` cases matches. */
  predicate IsIgnored(t: JsValue)
  {
    t != JoinType && !IsNegotiation(t) && !IsStatus(t) && t != LeaveType
  }
}
