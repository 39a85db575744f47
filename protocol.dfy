/**
 * The device wire codec: device responses become bus messages (`evse_to_mqtt`), bus commands
 * become device frames (`mqtt_to_evse`). Every `panic!` and `unwrap` of the source is a
 * `Panicked` outcome carrying the reason.
 */
module Protocol {
  import opened Wrappers
  import opened Bytes

  // Device -> gateway response codes.
  const RESPONSE_TYPE_PONG: Byte := 1
  const RESPONSE_TYPE_COLLECT_DATA: Byte := 2
  const RESPONSE_TYPE_SET_PWM_PERCENT: Byte := 3
  const RESPONSE_TYPE_SET_CONTACTOR_STATE: Byte := 4
  const NOTIFY: Byte := 100

  // Gateway -> device command codes.
  const REQUEST_TYPE_PING: Byte := 1
  const REQUEST_TYPE_FIRMWARE: Byte := 2
  const REQUEST_TYPE_COLLECT_DATA: Byte := 3
  const REQUEST_TYPE_SET_PWM_PERCENT: Byte := 4
  const REQUEST_TYPE_SET_CONTACTOR_STATE: Byte := 5

  /** Length of the fixed part of a measurement snapshot; the log buffer follows it. */
  const SNAPSHOT_FIXED_LENGTH := 44

  datatype MessageType =
    | NewConnection
    | Notify
    | ResponsePing
    | ResponseCollectData
    | ResponseSetPwmPercent
    | ResponseSetContactorState
    | RequestPing
    | RequestDataCollection
    | RequestFirmware
    | RequestSetPwmPercent
    | RequestSetContactorState

  datatype PilotVoltage = Volt12 | Volt9 | Volt6 | Volt3 | Fault

  datatype ProximityPilotAmps = Amp13 | Amp20 | Amp32 | NoCable

  datatype HandshakeInfo = HandshakeInfo(firmwareVersion: Byte)

  datatype FirmwareImage = FirmwareImage(dataBase64: string, crc32: U32)

  datatype Measurements = Measurements(
    pilotVoltage: PilotVoltage,
    proximityPilotAmps: ProximityPilotAmps,
    phase1Millivolts: U32,
    phase2Millivolts: U32,
    phase3Millivolts: U32,
    phase1Milliamps: U32,
    phase2Milliamps: U32,
    phase3Milliamps: U32,
    wifiRssi: I32,
    uptimeMilliseconds: I32,
    currentControlPilotAdc: U32,
    currentProximityPilotAdc: U32,
    loggingBuffer: string)

  /** The one record that travels on the bus and, as JSON, over the broker link. */
  datatype Message = Message(
    messageType: MessageType,
    clientId: string,
    handshake: Option<HandshakeInfo>,
    firmware: Option<FirmwareImage>,
    pwmPercent: Option<Byte>,
    contactorState: Option<bool>,
    measurements: Option<Measurements>)

  /** Why a task of the bridge panicked. */
  datatype Panic =
    | UnsupportedMessageType(code: Byte)    // unknown device response code
    | UnsupportedPilotVoltage(code: Byte)   // pilot-voltage code above 4
    | UnsupportedProximityAmps(code: Byte)  // proximity code above 3
    | PayloadTooShort                       // an index or a fixed-offset read past the payload
    | MissingField                          // `unwrap` of an absent optional field
    | InvalidBase64                         // `unwrap` of a failed base64 decode
    | CannotSend(messageType: MessageType)  // a variant with no device-bound encoding
    | LengthTooLarge(length: U32)           // a declared frame length above the cap
    | HandshakeReadFailed                   // `expect` on the serial or firmware read
    | ChannelFailed                         // `unwrap` of a broadcast send or receive
    | JsonFailed                            // `unwrap` of a JSON serialisation
    | UpstreamFailed                        // `unwrap` of a broker operation
    | AcceptFailed                          // `unwrap` of a failed TCP accept

  datatype Outcome<+T> = Ok(value: T) | Panicked(reason: Panic)

  /** A message of the given type that carries nothing but the client id. */
  function Bare(t: MessageType, clientId: string): Message {
    Message(t, clientId, None, None, None, None, None)
  }

  function PilotVoltageOf(code: Byte): (v: Option<PilotVoltage>)
    ensures v.Some? <==> code <= 4
  {
    match code
    case 0 => Some(Volt12)
    case 1 => Some(Volt9)
    case 2 => Some(Volt6)
    case 3 => Some(Volt3)
    case 4 => Some(Fault)
    case _ => None
  }

  /** The wire code of a pilot voltage: the inverse of `PilotVoltageOf`. */
  function PilotVoltageCode(v: PilotVoltage): (code: Byte)
    ensures PilotVoltageOf(code) == Some(v)
  {
    match v
    case Volt12 => 0
    case Volt9 => 1
    case Volt6 => 2
    case Volt3 => 3
    case Fault => 4
  }

  function ProximityPilotAmpsOf(code: Byte): (a: Option<ProximityPilotAmps>)
    ensures a.Some? <==> code <= 3
  {
    match code
    case 0 => Some(Amp13)
    case 1 => Some(Amp20)
    case 2 => Some(Amp32)
    case 3 => Some(NoCable)
    case _ => None
  }

  /** The wire code of a proximity reading: the inverse of `ProximityPilotAmpsOf`. */
  function ProximityPilotAmpsCode(a: ProximityPilotAmps): (code: Byte)
    ensures ProximityPilotAmpsOf(code) == Some(a)
  {
    match a
    case Amp13 => 0
    case Amp20 => 1
    case Amp32 => 2
    case NoCable => 3
  }

  /** The response codes `DecodeFrame` accepts without looking at the payload. */
  predicate IsPayloadFreeResponse(code: Byte) {
    code == RESPONSE_TYPE_PONG || code == NOTIFY
    || code == RESPONSE_TYPE_SET_PWM_PERCENT || code == RESPONSE_TYPE_SET_CONTACTOR_STATE
  }

  /** A snapshot payload that decodes without a panic. */
  predicate IsDecodableSnapshot(payload: seq<Byte>) {
    |payload| >= SNAPSHOT_FIXED_LENGTH && payload[2] <= 4 && payload[3] <= 3
  }

  /** The message types a device response can turn into. */
  predicate IsDeviceOriginated(t: MessageType) {
    t in {ResponsePing, Notify, ResponseSetPwmPercent, ResponseSetContactorState, RequestDataCollection}
  }

  /**
   * `evse_to_mqtt`: a device response code and its payload as a bus message for `clientId`.
   * `payloadLength` is accepted and ignored, as in the source; `utf8Lossy` stands for
   * `from_utf8_lossy`, which is not part of this model.
   */
  function DecodeFrame(
    clientId: string, messageType: Byte, payloadLength: U32, payload: seq<Byte>,
    utf8Lossy: seq<Byte> -> string): (r: Outcome<Message>)
    ensures r.Ok? <==>
      IsPayloadFreeResponse(messageType)
      || (messageType == RESPONSE_TYPE_COLLECT_DATA && IsDecodableSnapshot(payload))
    ensures r.Ok? ==> r.value.clientId == clientId && IsDeviceOriginated(r.value.messageType)
    ensures r.Ok? ==> r.value.handshake.None? && r.value.firmware.None?
    ensures !IsPayloadFreeResponse(messageType) && messageType != RESPONSE_TYPE_COLLECT_DATA ==>
      r == Panicked(UnsupportedMessageType(messageType))
    ensures messageType == RESPONSE_TYPE_COLLECT_DATA && |payload| < SNAPSHOT_FIXED_LENGTH ==> r.Panicked?
  {
    match messageType
    case 1 => Ok(Bare(ResponsePing, clientId))
    case 100 => Ok(Bare(Notify, clientId))
    case 3 => Ok(Bare(ResponseSetPwmPercent, clientId))
    case 4 => Ok(Bare(ResponseSetContactorState, clientId))
    case 2 => DecodeSnapshot(clientId, payload, utf8Lossy)
    case _ => Panicked(UnsupportedMessageType(messageType))
  }

  /**
   * The `RESPONSE_TYPE_COLLECT_DATA` branch. Its panics come in the order the source meets
   * them: the four leading bytes are indexed first, then the two enum codes are matched, then
   * the fixed-offset fields are read.
   */
  function DecodeSnapshot(clientId: string, payload: seq<Byte>, utf8Lossy: seq<Byte> -> string)
    : (r: Outcome<Message>)
    ensures r.Ok? <==> IsDecodableSnapshot(payload)
    ensures r.Ok? ==>
      && r.value.messageType == RequestDataCollection
      && r.value.clientId == clientId
      && r.value.handshake.None? && r.value.firmware.None?
      && r.value.pwmPercent.Some? && r.value.contactorState.Some? && r.value.measurements.Some?
    ensures |payload| < 4 ==> r == Panicked(PayloadTooShort)
    ensures |payload| >= 4 && payload[2] > 4 ==> r == Panicked(UnsupportedPilotVoltage(payload[2]))
    ensures |payload| >= 4 && payload[2] <= 4 && payload[3] > 3 ==>
      r == Panicked(UnsupportedProximityAmps(payload[3]))
    ensures 4 <= |payload| < SNAPSHOT_FIXED_LENGTH && payload[2] <= 4 && payload[3] <= 3 ==>
      r == Panicked(PayloadTooShort)
  {
    if |payload| < 4 then Panicked(PayloadTooShort)
    else
      var contactorState := payload[0] == 1;
      var pwmPercent := payload[1];
      match PilotVoltageOf(payload[2])
      case None => Panicked(UnsupportedPilotVoltage(payload[2]))
      case Some(pilotVoltage) =>
        match ProximityPilotAmpsOf(payload[3])
        case None => Panicked(UnsupportedProximityAmps(payload[3]))
        case Some(proximityPilotAmps) =>
          if |payload| < SNAPSHOT_FIXED_LENGTH then Panicked(PayloadTooShort)
          else
            var m := Measurements(
              pilotVoltage, proximityPilotAmps,
              ReadU32(payload[4..]), ReadU32(payload[8..]), ReadU32(payload[12..]),
              ReadU32(payload[16..]), ReadU32(payload[20..]), ReadU32(payload[24..]),
              ReadI32(payload[28..]), ReadI32(payload[32..]),
              ReadU32(payload[36..]), ReadU32(payload[40..]),
              utf8Lossy(payload[SNAPSHOT_FIXED_LENGTH..]));
            Ok(Message(RequestDataCollection, clientId, None, None,
                       Some(pwmPercent), Some(contactorState), Some(m)))
  }

  /** The five message types `EncodeCommand` knows how to send to a device. */
  predicate IsCommand(t: MessageType) {
    t in {RequestPing, RequestFirmware, RequestDataCollection, RequestSetPwmPercent, RequestSetContactorState}
  }

  /** A message `EncodeCommand` turns into a frame rather than a panic. */
  predicate IsEncodable(msg: Message, base64Decode: string -> Option<seq<Byte>>) {
    match msg.messageType
    case RequestPing => true
    case RequestDataCollection => true
    case RequestSetPwmPercent => msg.pwmPercent.Some?
    case RequestSetContactorState => msg.contactorState.Some?
    case RequestFirmware => msg.firmware.Some? && base64Decode(msg.firmware.value.dataBase64).Some?
    case _ => false
  }

  /** `firmware_data.len() as u32 + 4`: truncated to 32 bits, then added with wrap-around. */
  function FirmwareLengthField(dataLength: nat): U32 {
    (dataLength % 0x1_0000_0000 + 4) % 0x1_0000_0000
  }

  /**
   * `mqtt_to_evse`: a command message as a device frame, a one-byte command code, a four-byte
   * big-endian payload length, then the payload. `base64Decode` stands for `base64::decode`,
   * which is not part of this model.
   */
  function EncodeCommand(msg: Message, base64Decode: string -> Option<seq<Byte>>): (r: Outcome<seq<Byte>>)
    ensures r.Ok? <==> IsEncodable(msg, base64Decode)
    ensures r.Ok? ==> |r.value| >= 5
    ensures !IsCommand(msg.messageType) ==> r == Panicked(CannotSend(msg.messageType))
    ensures IsCommand(msg.messageType) && !IsEncodable(msg, base64Decode) ==>
      r.Panicked? && r.reason in {MissingField, InvalidBase64}
    ensures msg.messageType == RequestFirmware && msg.firmware.None? ==> r == Panicked(MissingField)
    ensures (msg.messageType == RequestFirmware && msg.firmware.Some? &&
             base64Decode(msg.firmware.value.dataBase64).None?) ==> r == Panicked(InvalidBase64)
    ensures msg.messageType == RequestSetPwmPercent && msg.pwmPercent.None? ==> r == Panicked(MissingField)
    ensures msg.messageType == RequestSetContactorState && msg.contactorState.None? ==> r == Panicked(MissingField)
  {
    match msg.messageType
    case RequestPing => Ok([REQUEST_TYPE_PING] + BE32(0))
    case RequestFirmware =>
      if msg.firmware.None? then Panicked(MissingField)
      else
        var firmware := msg.firmware.value;
        (match base64Decode(firmware.dataBase64)
         case None => Panicked(InvalidBase64)
         case Some(data) =>
           Ok([REQUEST_TYPE_FIRMWARE] + BE32(FirmwareLengthField(|data|)) + BE32(firmware.crc32) + data))
    case RequestDataCollection => Ok([REQUEST_TYPE_COLLECT_DATA] + BE32(0))
    case RequestSetPwmPercent =>
      if msg.pwmPercent.None? then Panicked(MissingField)
      else Ok([REQUEST_TYPE_SET_PWM_PERCENT] + BE32(1) + [msg.pwmPercent.value])
    case RequestSetContactorState =>
      if msg.contactorState.None? then Panicked(MissingField)
      else Ok([REQUEST_TYPE_SET_CONTACTOR_STATE] + BE32(1) + [if msg.contactorState.value then 1 else 0])
    case _ => Panicked(CannotSend(msg.messageType))
  }

  // ---------------------------------------------------------------------------------------
  // Properties of the decoder

  /** Codes 1, 100, 3 and 4 carry no data: the payload and its length are never looked at. */
  lemma PayloadFreeResponses(
    clientId: string, code: Byte, n: U32, payload: seq<Byte>, utf8Lossy: seq<Byte> -> string)
    requires IsPayloadFreeResponse(code)
    ensures DecodeFrame(clientId, code, n, payload, utf8Lossy) == Ok(Bare(
      if code == RESPONSE_TYPE_PONG then ResponsePing
      else if code == NOTIFY then Notify
      else if code == RESPONSE_TYPE_SET_PWM_PERCENT then ResponseSetPwmPercent
      else ResponseSetContactorState, clientId))
  {
  }

  /** The declared payload length never changes what is decoded. */
  lemma DecodeIgnoresLength(
    clientId: string, code: Byte, n1: U32, n2: U32, payload: seq<Byte>, utf8Lossy: seq<Byte> -> string)
    ensures DecodeFrame(clientId, code, n1, payload, utf8Lossy) == DecodeFrame(clientId, code, n2, payload, utf8Lossy)
  {
  }

  /** A snapshot is reported as `RequestDataCollection`; `ResponseCollectData` is never produced. */
  lemma NeverResponseCollectData(
    clientId: string, code: Byte, n: U32, payload: seq<Byte>, utf8Lossy: seq<Byte> -> string)
    ensures DecodeFrame(clientId, code, n, payload, utf8Lossy).Ok? ==>
      DecodeFrame(clientId, code, n, payload, utf8Lossy).value.messageType != ResponseCollectData
  {
  }

  /** The fields of a decoded snapshot, each at its fixed big-endian offset. */
  lemma SnapshotFields(clientId: string, n: U32, payload: seq<Byte>, utf8Lossy: seq<Byte> -> string)
    requires IsDecodableSnapshot(payload)
    ensures var r := DecodeFrame(clientId, RESPONSE_TYPE_COLLECT_DATA, n, payload, utf8Lossy);
      && r.Ok?
      && r.value.contactorState == Some(payload[0] == 1)
      && r.value.pwmPercent == Some(payload[1])
      && var m := r.value.measurements.value;
      && PilotVoltageCode(m.pilotVoltage) == payload[2]
      && ProximityPilotAmpsCode(m.proximityPilotAmps) == payload[3]
      && BE32(m.phase1Millivolts) == payload[4..8]
      && BE32(m.phase2Millivolts) == payload[8..12]
      && BE32(m.phase3Millivolts) == payload[12..16]
      && BE32(m.phase1Milliamps) == payload[16..20]
      && BE32(m.phase2Milliamps) == payload[20..24]
      && BE32(m.phase3Milliamps) == payload[24..28]
      && BE32(I32Bits(m.wifiRssi)) == payload[28..32]
      && BE32(I32Bits(m.uptimeMilliseconds)) == payload[32..36]
      && BE32(m.currentControlPilotAdc) == payload[36..40]
      && BE32(m.currentProximityPilotAdc) == payload[40..44]
      && m.loggingBuffer == utf8Lossy(payload[44..])
  {
    BE32OfRead(payload[4..]);
    BE32OfRead(payload[8..]);
    BE32OfRead(payload[12..]);
    BE32OfRead(payload[16..]);
    BE32OfRead(payload[20..]);
    BE32OfRead(payload[24..]);
    BE32OfRead(payload[28..]);
    BE32OfRead(payload[32..]);
    BE32OfRead(payload[36..]);
    BE32OfRead(payload[40..]);
    var m := DecodeFrame(clientId, RESPONSE_TYPE_COLLECT_DATA, n, payload, utf8Lossy).value.measurements.value;
    assert I32Bits(m.wifiRssi) == ReadU32(payload[28..]);
    assert I32Bits(m.uptimeMilliseconds) == ReadU32(payload[32..]);
  }

  /** Two snapshots that agree up to offset 44 and decode differ at most in their log buffers,
      and their log buffers agree whenever the bytes from offset 44 on do. */
  lemma LogBufferFromTail(
    clientId: string, n: U32, p1: seq<Byte>, p2: seq<Byte>, utf8Lossy: seq<Byte> -> string)
    requires IsDecodableSnapshot(p1) && IsDecodableSnapshot(p2)
    requires p1[SNAPSHOT_FIXED_LENGTH..] == p2[SNAPSHOT_FIXED_LENGTH..]
    ensures DecodeFrame(clientId, RESPONSE_TYPE_COLLECT_DATA, n, p1, utf8Lossy).value.measurements.value.loggingBuffer
         == DecodeFrame(clientId, RESPONSE_TYPE_COLLECT_DATA, n, p2, utf8Lossy).value.measurements.value.loggingBuffer
  {
  }

  /**
   * The payload a device sends with a snapshot: contactor byte, pwm percent, the two enum
   * codes, ten big-endian numbers and the raw log bytes. `m.loggingBuffer` is not written:
   * on the wire the log is `log`.
   */
  function SnapshotPayload(contactor: Byte, pwmPercent: Byte, m: Measurements, log: seq<Byte>): (p: seq<Byte>)
    ensures |p| == SNAPSHOT_FIXED_LENGTH + |log| && p[SNAPSHOT_FIXED_LENGTH..] == log
  {
    [contactor, pwmPercent, PilotVoltageCode(m.pilotVoltage), ProximityPilotAmpsCode(m.proximityPilotAmps)]
    + Words(SnapshotWords(m)) + log
  }

  /** The ten numbers of a snapshot payload, in wire order, as 32-bit patterns. */
  function SnapshotWords(m: Measurements): (w: seq<U32>)
    ensures |w| == 10
  {
    [m.phase1Millivolts, m.phase2Millivolts, m.phase3Millivolts,
     m.phase1Milliamps, m.phase2Milliamps, m.phase3Milliamps,
     I32Bits(m.wifiRssi), I32Bits(m.uptimeMilliseconds),
     m.currentControlPilotAdc, m.currentProximityPilotAdc]
  }

  /** Numbers written one after the other, each big-endian. */
  function Words(w: seq<U32>): (r: seq<Byte>)
    ensures |r| == 4 * |w|
  {
    if w == [] then [] else BE32(w[0]) + Words(w[1..])
  }

  /** The `i`-th number of a run of words starts at offset `4 * i`. */
  lemma {:induction false} WordsAt(w: seq<U32>, i: nat, tail: seq<Byte>)
    requires i < |w|
    ensures (Words(w) + tail)[4 * i..] == BE32(w[i]) + (Words(w[i + 1..]) + tail)
  {
    assert Words(w) + tail == BE32(w[0]) + (Words(w[1..]) + tail);
    if i > 0 {
      WordsAt(w[1..], i - 1, tail);
      assert w[1..][i - 1] == w[i] && w[1..][i..] == w[i + 1..];
    }
  }

  /** Each number of a snapshot payload reads back from its own offset. */
  lemma SnapshotPayloadReads(contactor: Byte, pwmPercent: Byte, m: Measurements, log: seq<Byte>)
    ensures var p := SnapshotPayload(contactor, pwmPercent, m, log);
      && p[..4] == [contactor, pwmPercent, PilotVoltageCode(m.pilotVoltage), ProximityPilotAmpsCode(m.proximityPilotAmps)]
      && forall i :: 0 <= i < 10 ==> ReadU32(p[4 + 4 * i..]) == SnapshotWords(m)[i]
  {
    var p := SnapshotPayload(contactor, pwmPercent, m, log);
    var w := SnapshotWords(m);
    var head := [contactor, pwmPercent, PilotVoltageCode(m.pilotVoltage), ProximityPilotAmpsCode(m.proximityPilotAmps)];
    assert p == head + (Words(w) + log);
    forall i | 0 <= i < 10
      ensures ReadU32(p[4 + 4 * i..]) == w[i]
    {
      WordsAt(w, i, log);
      assert p[4 + 4 * i..] == (Words(w) + log)[4 * i..];
      ReadBE32(w[i], Words(w[i + 1..]) + log);
    }
  }

  /** Decoding a snapshot payload gives back every measurement, at every value of its type. */
  lemma SnapshotRoundTrip(
    clientId: string, n: U32, contactor: Byte, pwmPercent: Byte, m: Measurements, log: seq<Byte>,
    utf8Lossy: seq<Byte> -> string)
    ensures DecodeFrame(clientId, RESPONSE_TYPE_COLLECT_DATA, n, SnapshotPayload(contactor, pwmPercent, m, log), utf8Lossy)
         == Ok(Message(RequestDataCollection, clientId, None, None, Some(pwmPercent), Some(contactor == 1),
                       Some(m.(loggingBuffer := utf8Lossy(log)))))
  {
    var p := SnapshotPayload(contactor, pwmPercent, m, log);
    SnapshotPayloadReads(contactor, pwmPercent, m, log);
    var w := SnapshotWords(m);
    assert p[0] == p[..4][0] && p[1] == p[..4][1] && p[2] == p[..4][2] && p[3] == p[..4][3];
    assert ReadU32(p[4..]) == w[0] && ReadU32(p[8..]) == w[1] && ReadU32(p[12..]) == w[2];
    assert ReadU32(p[16..]) == w[3] && ReadU32(p[20..]) == w[4] && ReadU32(p[24..]) == w[5];
    assert ReadU32(p[28..]) == w[6] && ReadU32(p[32..]) == w[7];
    assert ReadU32(p[36..]) == w[8] && ReadU32(p[40..]) == w[9];
  }

  // ---------------------------------------------------------------------------------------
  // Properties of the encoder

  /** The four commands with a fixed shape, byte for byte. */
  lemma FixedCommandFrames(msg: Message, base64Decode: string -> Option<seq<Byte>>)
    ensures msg.messageType == RequestPing ==> EncodeCommand(msg, base64Decode) == Ok([1, 0, 0, 0, 0])
    ensures msg.messageType == RequestDataCollection ==> EncodeCommand(msg, base64Decode) == Ok([3, 0, 0, 0, 0])
    ensures msg.messageType == RequestSetPwmPercent && msg.pwmPercent.Some? ==>
      EncodeCommand(msg, base64Decode) == Ok([4, 0, 0, 0, 1, msg.pwmPercent.value])
    ensures msg.messageType == RequestSetContactorState && msg.contactorState.Some? ==>
      EncodeCommand(msg, base64Decode) == Ok([5, 0, 0, 0, 1, if msg.contactorState.value then 1 else 0])
  {
    assert BE32(0) == [0, 0, 0, 0] && BE32(1) == [0, 0, 0, 1];
    match msg.messageType
    case RequestPing =>
      var frame: seq<Byte> := [REQUEST_TYPE_PING] + BE32(0);
      assert frame == [1, 0, 0, 0, 0];
      assert EncodeCommand(msg, base64Decode) == Ok(frame);
    case RequestDataCollection =>
      var frame: seq<Byte> := [REQUEST_TYPE_COLLECT_DATA] + BE32(0);
      assert frame == [3, 0, 0, 0, 0];
      assert EncodeCommand(msg, base64Decode) == Ok(frame);
    case RequestSetPwmPercent =>
      if msg.pwmPercent.Some? {
        var frame: seq<Byte> := [REQUEST_TYPE_SET_PWM_PERCENT] + BE32(1) + [msg.pwmPercent.value];
        assert frame == [4, 0, 0, 0, 1, msg.pwmPercent.value];
        assert EncodeCommand(msg, base64Decode) == Ok(frame);
      }
    case RequestSetContactorState =>
      if msg.contactorState.Some? {
        var b: Byte := if msg.contactorState.value then 1 else 0;
        var frame: seq<Byte> := [REQUEST_TYPE_SET_CONTACTOR_STATE] + BE32(1) + [b];
        assert frame == [5, 0, 0, 0, 1, b];
        assert EncodeCommand(msg, base64Decode) == Ok(frame);
      }
    case _ =>
  }

  /** A firmware push: code 2, the length field, the CRC, then the decoded image. */
  lemma FirmwareFrame(msg: Message, base64Decode: string -> Option<seq<Byte>>)
    requires msg.messageType == RequestFirmware && IsEncodable(msg, base64Decode)
    ensures var data := base64Decode(msg.firmware.value.dataBase64).value;
      EncodeCommand(msg, base64Decode)
      == Ok([2] + BE32(FirmwareLengthField(|data|)) + BE32(msg.firmware.value.crc32) + data)
  {
  }

  /**
   * Every frame the encoder produces declares, in bytes 1..5, exactly the number of bytes that
   * follow the header, as long as that number fits in 32 bits.
   */
  lemma EncodedLengthField(msg: Message, base64Decode: string -> Option<seq<Byte>>)
    requires EncodeCommand(msg, base64Decode).Ok?
    requires |EncodeCommand(msg, base64Decode).value| - 5 < 0x1_0000_0000
    ensures var frame := EncodeCommand(msg, base64Decode).value;
      ReadU32(frame[1..5]) == |frame| - 5
  {
    if msg.messageType == RequestFirmware {
      var firmware := msg.firmware.value;
      var data := base64Decode(firmware.dataBase64).value;
      FirmwareFrame(msg, base64Decode);
      LengthFieldOf(REQUEST_TYPE_FIRMWARE, FirmwareLengthField(|data|), BE32(firmware.crc32) + data);
    } else if msg.messageType == RequestSetPwmPercent {
      LengthFieldOf(REQUEST_TYPE_SET_PWM_PERCENT, 1, [msg.pwmPercent.value]);
    } else if msg.messageType == RequestSetContactorState {
      LengthFieldOf(REQUEST_TYPE_SET_CONTACTOR_STATE, 1, [if msg.contactorState.value then 1 else 0]);
    } else if msg.messageType == RequestPing {
      LengthFieldOf(REQUEST_TYPE_PING, 0, []);
    } else {
      LengthFieldOf(REQUEST_TYPE_COLLECT_DATA, 0, []);
    }
  }

  /** Bytes 1..5 of a frame read back the length its header was written with. */
  lemma LengthFieldOf(code: Byte, n: U32, payload: seq<Byte>)
    ensures var frame := [code] + BE32(n) + payload;
      |frame| == 5 + |payload| && ReadU32(frame[1..5]) == n
  {
    var frame := [code] + BE32(n) + payload;
    assert frame[1..5] == BE32(n) + [];
    ReadBE32(n, []);
  }
}
