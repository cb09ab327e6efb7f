/**
 * The protocol message record (message.go) and its JSON object form.
 *
 * A `Message` is an immutable value. Its JSON form is modelled as an
 * object: a map from key to JSON value, built the way Go's encoding/json
 * builds it from the struct tags. `protocol_version` and `type` are always
 * present; every other field carries `omitempty` and is left out when it
 * holds its zero value. Decoding follows Go's rules for a struct target:
 * a missing key or a JSON null leaves the field at its zero value, a
 * value of the wrong JSON type or out of the field's range is an error,
 * and keys the struct does not name are ignored.
 */
module Messages {
  import opened Wrappers

  /** Go's uint8 (TurnOptions, Status, AgreedOptions). */
  type UInt8 = x: int | 0 <= x < 0x100

  /** Go's int on a 64-bit platform (ProtocolVersion). */
  type Int64 = x: int | -0x8000_0000_0000_0000 <= x < 0x8000_0000_0000_0000

  datatype Message = Message(
    protocolVersion: Int64,
    msgType: string,
    playerId: string,
    gameId: string,
    turnOptions: UInt8,
    status: UInt8,
    agreedOptions: UInt8,
    gameState: string)

  /** The message type strings the server dispatches on and the client checks. */
  const JoinGameRequest: string := "JOIN_GAME_REQUEST"
  const GameSetupAck: string := "GAME_SETUP_ACK"
  const StateUpdate: string := "STATE_UPDATE"
  const StateAck: string := "STATE_ACK"
  const StateResyncRequest: string := "STATE_RESYNC_REQUEST"

  /** The fields of Message, each written under the JSON key its struct tag names. */
  datatype Field =
    | ProtocolVersion | Type | PlayerId | GameId
    | TurnOptions | Status | AgreedOptions | GameState

  /** The JSON key of each field. */
  function Key(f: Field): string {
    match f
    case ProtocolVersion => "protocol_version"
    case Type => "type"
    case PlayerId => "player_id"
    case GameId => "game_id"
    case TurnOptions => "turn_options"
    case Status => "status"
    case AgreedOptions => "agreed_options"
    case GameState => "game_state"
  }

  /**
   * Different fields are written under different keys, so a decoder can tell
   * them apart. This is what justifies keying `JsonObject` by `Field`: mapping
   * a key's name to its field loses nothing. The names themselves only matter
   * to the JSON text layer.
   */
  lemma KeysDistinct(f: Field, g: Field)
    ensures Key(f) == Key(g) ==> f == g
  {
  }

  /** Only protocol_version and type lack `omitempty`. */
  predicate OmitEmpty(f: Field) {
    f != ProtocolVersion && f != Type
  }

  /** The fields whose Go type is string. */
  predicate IsStringField(f: Field) {
    f == Type || f == PlayerId || f == GameId || f == GameState
  }

  /**
   * A JSON value as the decoder sees it: an integer literal, a string, null,
   * or anything else (a boolean, array, object or non-integer number), which
   * no field of Message accepts.
   */
  datatype JsonValue = JNumber(n: int) | JString(s: string) | JNull | JOther

  /**
   * A JSON object, restricted to the keys the struct names (the decoder
   * ignores every other key).
   */
  type JsonObject = map<Field, JsonValue>

  datatype DecodeError =
    | Malformed                     // the bytes are not a JSON object
    | FieldTypeMismatch(field: Field) // a field holds a value its Go type cannot take

  /** The value json.Marshal writes for field `f` of `m`, whether or not it is omitted. */
  function FieldValue(m: Message, f: Field): JsonValue {
    match f
    case ProtocolVersion => JNumber(m.protocolVersion)
    case Type => JString(m.msgType)
    case PlayerId => JString(m.playerId)
    case GameId => JString(m.gameId)
    case TurnOptions => JNumber(m.turnOptions)
    case Status => JNumber(m.status)
    case AgreedOptions => JNumber(m.agreedOptions)
    case GameState => JString(m.gameState)
  }

  /** The JSON value a field's zero is written as. */
  function ZeroValue(f: Field): JsonValue {
    if IsStringField(f) then JString("") else JNumber(0)
  }

  /** The object json.Marshal produces for `m`: every field, except omitempty fields holding their zero. */
  function ToObject(m: Message): (o: JsonObject)
    ensures ProtocolVersion in o && o[ProtocolVersion] == JNumber(m.protocolVersion)
    ensures Type in o && o[Type] == JString(m.msgType)
    ensures PlayerId in o <==> m.playerId != ""
    ensures GameId in o <==> m.gameId != ""
    ensures TurnOptions in o <==> m.turnOptions != 0
    ensures Status in o <==> m.status != 0
    ensures AgreedOptions in o <==> m.agreedOptions != 0
    ensures GameState in o <==> m.gameState != ""
    ensures forall f :: f in o ==> o[f] == FieldValue(m, f) && o[f] != JNull
  {
    map f: Field | !OmitEmpty(f) || FieldValue(m, f) != ZeroValue(f) :: FieldValue(m, f)
  }

  /** Decoding of one string field: absent or null gives "". */
  function StringField(o: JsonObject, f: Field): (r: Result<string, DecodeError>)
    ensures r.Failure? <==> f in o && !o[f].JString? && !o[f].JNull?
    ensures r.Success? && f in o && o[f].JString? ==> r.value == o[f].s
    ensures r.Success? && (f !in o || o[f].JNull?) ==> r.value == ""
  {
    if f !in o then Success("")
    else match o[f]
      case JString(s) => Success(s)
      case JNull => Success("")
      case _ => Failure(FieldTypeMismatch(f))
  }

  /** Decoding of one uint8 field: absent or null gives 0, a number outside 0..255 is an error. */
  function UInt8Field(o: JsonObject, f: Field): (r: Result<UInt8, DecodeError>)
    ensures r.Failure? <==> f in o && !o[f].JNull? && !(o[f].JNumber? && 0 <= o[f].n < 0x100)
    ensures r.Success? && f in o && o[f].JNumber? ==> r.value == o[f].n
    ensures r.Success? && (f !in o || o[f].JNull?) ==> r.value == 0
  {
    if f !in o then Success(0)
    else match o[f]
      case JNumber(n) => if 0 <= n < 0x100 then Success(n) else Failure(FieldTypeMismatch(f))
      case JNull => Success(0)
      case _ => Failure(FieldTypeMismatch(f))
  }

  /** Decoding of one int field: absent or null gives 0, a number outside int64 is an error. */
  function Int64Field(o: JsonObject, f: Field): (r: Result<Int64, DecodeError>)
    ensures r.Failure? <==> f in o && !o[f].JNull? && !(o[f].JNumber? && -0x8000_0000_0000_0000 <= o[f].n < 0x8000_0000_0000_0000)
    ensures r.Success? && f in o && o[f].JNumber? ==> r.value == o[f].n
    ensures r.Success? && (f !in o || o[f].JNull?) ==> r.value == 0
  {
    if f !in o then Success(0)
    else match o[f]
      case JNumber(n) =>
        if -0x8000_0000_0000_0000 <= n < 0x8000_0000_0000_0000 then Success(n) else Failure(FieldTypeMismatch(f))
      case JNull => Success(0)
      case _ => Failure(FieldTypeMismatch(f))
  }

  /** Whether field `f` of `o` is acceptable to the field's Go type. */
  predicate FieldDecodes(o: JsonObject, f: Field) {
    match f
    case ProtocolVersion => Int64Field(o, f).Success?
    case TurnOptions | Status | AgreedOptions => UInt8Field(o, f).Success?
    case Type | PlayerId | GameId | GameState => StringField(o, f).Success?
  }

  /** Whether every field of `o` decodes to the corresponding field of `m`. */
  predicate Carries(o: JsonObject, m: Message) {
    && Int64Field(o, ProtocolVersion) == Success(m.protocolVersion)
    && StringField(o, Type) == Success(m.msgType)
    && StringField(o, PlayerId) == Success(m.playerId)
    && StringField(o, GameId) == Success(m.gameId)
    && UInt8Field(o, TurnOptions) == Success(m.turnOptions)
    && UInt8Field(o, Status) == Success(m.status)
    && UInt8Field(o, AgreedOptions) == Success(m.agreedOptions)
    && StringField(o, GameState) == Success(m.gameState)
  }

  /** Every field decodes exactly when each of the eight does. */
  lemma AllFieldsDecode(o: JsonObject)
    ensures (forall f :: FieldDecodes(o, f)) <==>
      && FieldDecodes(o, ProtocolVersion) && FieldDecodes(o, Type) && FieldDecodes(o, PlayerId)
      && FieldDecodes(o, GameId) && FieldDecodes(o, TurnOptions) && FieldDecodes(o, Status)
      && FieldDecodes(o, AgreedOptions) && FieldDecodes(o, GameState)
  {
  }

  /**
   * json.Unmarshal into a zero Message. When several fields are ill-typed
   * the model reports the first in declaration order.
   */
  function FromObject(o: JsonObject): (r: Result<Message, DecodeError>)
    ensures r.Success? <==> forall f :: FieldDecodes(o, f)
    ensures r.Success? ==> Carries(o, r.value)
    ensures r.Failure? ==> r.error.FieldTypeMismatch? && !FieldDecodes(o, r.error.field)
  {
    AllFieldsDecode(o);
    var version :- Int64Field(o, ProtocolVersion);
    var msgType :- StringField(o, Type);
    var playerId :- StringField(o, PlayerId);
    var gameId :- StringField(o, GameId);
    var turnOptions :- UInt8Field(o, TurnOptions);
    var status :- UInt8Field(o, Status);
    var agreedOptions :- UInt8Field(o, AgreedOptions);
    var gameState :- StringField(o, GameState);
    Success(Message(version, msgType, playerId, gameId, turnOptions, status, agreedOptions, gameState))
  }

  /** Omitting the zero-valued fields loses nothing: decoding the object gives the message back. */
  lemma ObjectRoundTrip(m: Message)
    ensures FromObject(ToObject(m)) == Success(m)
  {
    var o := ToObject(m);
    assert StringField(o, PlayerId) == Success(m.playerId);
    assert StringField(o, GameId) == Success(m.gameId);
    assert StringField(o, GameState) == Success(m.gameState);
    assert UInt8Field(o, TurnOptions) == Success(m.turnOptions);
    assert UInt8Field(o, Status) == Success(m.status);
    assert UInt8Field(o, AgreedOptions) == Success(m.agreedOptions);
  }

  /** Two objects whose every field decodes alike decode to the same result. */
  lemma FromObjectCongruent(a: JsonObject, b: JsonObject)
    requires Int64Field(a, ProtocolVersion) == Int64Field(b, ProtocolVersion)
    requires StringField(a, Type) == StringField(b, Type)
    requires StringField(a, PlayerId) == StringField(b, PlayerId)
    requires StringField(a, GameId) == StringField(b, GameId)
    requires UInt8Field(a, TurnOptions) == UInt8Field(b, TurnOptions)
    requires UInt8Field(a, Status) == UInt8Field(b, Status)
    requires UInt8Field(a, AgreedOptions) == UInt8Field(b, AgreedOptions)
    requires StringField(a, GameState) == StringField(b, GameState)
    ensures FromObject(a) == FromObject(b)
  {
  }

  /** A field other than `f` decodes the same in an object and in that object with `f` replaced or removed. */
  lemma OtherFieldsUnaffected(a: JsonObject, b: JsonObject, f: Field)
    requires forall g :: g != f ==> (g in a <==> g in b)
    requires forall g :: g != f && g in a ==> a[g] == b[g]
    ensures forall g :: g != f ==> Int64Field(a, g) == Int64Field(b, g)
    ensures forall g :: g != f ==> StringField(a, g) == StringField(b, g)
    ensures forall g :: g != f ==> UInt8Field(a, g) == UInt8Field(b, g)
  {
  }

  /**
   * For every field, an explicit zero, an explicit null and a missing key
   * decode to the same thing: after decoding, zero and absent are
   * indistinguishable.
   */
  lemma ZeroNullAndAbsentAgree(o: JsonObject, f: Field)
    ensures FromObject(o[f := ZeroValue(f)]) == FromObject(o - {f})
    ensures FromObject(o[f := JNull]) == FromObject(o - {f})
  {
    var zero, nulled, absent := o[f := ZeroValue(f)], o[f := JNull], o - {f};
    OtherFieldsUnaffected(zero, absent, f);
    OtherFieldsUnaffected(nulled, absent, f);
    assert Int64Field(zero, f) == Int64Field(nulled, f) == Int64Field(absent, f) || f != ProtocolVersion;
    assert UInt8Field(zero, f) == UInt8Field(nulled, f) == UInt8Field(absent, f) || IsStringField(f) || f == ProtocolVersion;
    assert StringField(zero, f) == StringField(nulled, f) == StringField(absent, f) || !IsStringField(f);
    FromObjectCongruent(zero, absent);
    FromObjectCongruent(nulled, absent);
  }
}
