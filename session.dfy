/**
 * `handle_evse`: one device session. The socket is the sequence of bytes the device sends
 * (followed by end-of-stream); each turn of the `select!` loop is an `Event` saying which arm
 * completed and with what result.
 */
module EvseSession {
  import opened Wrappers
  import opened Bytes
  import opened Protocol
  import Utils

  const SERIAL_LENGTH := 16
  const HEADER_LENGTH := 5
  const MAX_PAYLOAD_LENGTH: U32 := 1024
  const NAME_KEY_PREFIX := "evse_name.id_"

  /**
   * How a frame's payload is read. `ZeroLengthBuffer` is the code as written: the buffer
   * handed to `read_exact` is `Vec::with_capacity(msg_length)`, whose length is 0, so nothing
   * is read. `DeclaredLength` is the evident intent: exactly `msg_length` bytes are read.
   */
  datatype PayloadReader = ZeroLengthBuffer | DeclaredLength

  /**
   * The collaborators a session consults: the configuration (a partial map from key to
   * value), `from_utf8_lossy` and `base64::decode`; and how payloads are read.
   */
  datatype Env = Env(
    config: map<string, string>,
    utf8Lossy: seq<Byte> -> string,
    base64Decode: string -> Option<seq<Byte>>,
    reader: PayloadReader)

  /** The configured `evse_name.id_<HEX>` name of a serial, or the hex serial itself. */
  function ClientId(serialHex: string, config: map<string, string>): (id: string)
    ensures id == serialHex || id in config.Values
    ensures NAME_KEY_PREFIX + serialHex in config ==> id == config[NAME_KEY_PREFIX + serialHex]
    ensures NAME_KEY_PREFIX + serialHex !in config ==> id == serialHex
  {
    var key := NAME_KEY_PREFIX + serialHex;
    if key in config then config[key] else serialHex
  }

  datatype CloseReason = ShutdownRequested | WriteFailed | PeerDisconnected | ReadFailed

  /** `Active` while the loop runs; `Closed` after a `break`; `Aborted` after a panic. */
  datatype Status = Active | Closed(why: CloseReason) | Aborted(reason: Panic)

  /**
   * The session's state: the unread socket bytes (`input`), everything written to the socket
   * (`written`) and every message sent on the device-to-broker bus (`sent`).
   */
  datatype Session = Session(
    status: Status,
    clientId: string,
    firmwareVersion: Byte,
    input: seq<Byte>,
    written: seq<Byte>,
    sent: seq<Message>)

  /** The message announcing a device: its id and firmware version, nothing else. */
  function NewConnectionMessage(clientId: string, firmwareVersion: Byte): Message {
    Message(NewConnection, clientId, Some(HandshakeInfo(firmwareVersion)), None, None, None, None)
  }

  /** The session state a handshake failure leaves: nothing known, nothing sent. */
  function FailedHandshake(): Session {
    Session(Aborted(HandshakeReadFailed), "", 0, [], [], [])
  }

  /**
   * The handshake: 16 serial bytes, then one firmware byte, then the `new_connection`
   * announcement. `sendOk` is whether the bus accepted it (`send(..).unwrap()`).
   */
  function Start(stream: seq<Byte>, env: Env, sendOk: bool): (s: Session)
    ensures s.written == []
    ensures s.status.Active? <==> |stream| > SERIAL_LENGTH && sendOk
    ensures s.status.Active? || s.status.Aborted?
    ensures |stream| <= SERIAL_LENGTH ==> s.status == Aborted(HandshakeReadFailed)
    ensures |stream| > SERIAL_LENGTH && !sendOk ==> s.status == Aborted(ChannelFailed)
    ensures s.status.Active? ==>
      && s.sent == [NewConnectionMessage(s.clientId, s.firmwareVersion)]
      && s.firmwareVersion == stream[SERIAL_LENGTH]
      && s.input == stream[SERIAL_LENGTH + 1..]
    ensures !s.status.Active? ==> s.sent == []
  {
    if |stream| < SERIAL_LENGTH + 1 then FailedHandshake()
    else
      var clientId := ClientId(Utils.Hex(stream[..SERIAL_LENGTH]), env.config);
      var firmwareVersion := stream[SERIAL_LENGTH];
      var input := stream[SERIAL_LENGTH + 1..];
      if sendOk then Session(Active, clientId, firmwareVersion, input, [], [NewConnectionMessage(clientId, firmwareVersion)])
      else Session(Aborted(ChannelFailed), clientId, firmwareVersion, input, [], [])
  }

  /** Which arm of the `select!` completed, and how. */
  datatype Event =
    | ShutdownSignal(signalOk: bool)                     // false: the receive failed
    | BusMessage(received: Option<Message>, writeOk: bool) // None: lagged or closed bus
    | SocketData(readOk: bool, sendOk: bool)             // readOk false: an I/O error other than end-of-stream

  /** What reading one frame from the socket gives. */
  datatype Reception = Received(msg: Message, rest: seq<Byte>) | EndOfStream | Failed(reason: Panic)

  /** The message type and declared payload length of a five-byte header. */
  function HeaderType(input: seq<Byte>): Byte
    requires |input| >= HEADER_LENGTH
  {
    input[0]
  }

  function HeaderLength(input: seq<Byte>): U32
    requires |input| >= HEADER_LENGTH
  {
    ReadU32(input[1..HEADER_LENGTH])
  }

  /** A header as the device writes it. */
  function Header(messageType: Byte, length: U32): (h: seq<Byte>)
    ensures |h| == HEADER_LENGTH
  {
    [messageType] + BE32(length)
  }

  /**
   * One frame as the source reads it: the header, the length cap, then a payload read into
   * `Vec::with_capacity(msg_length)`. That vector has length 0, so `read_exact` reads nothing,
   * the decoder is handed an empty payload, and the payload bytes stay in the socket.
   */
  function ReceiveAsWritten(input: seq<Byte>, clientId: string, utf8Lossy: seq<Byte> -> string): (r: Reception)
    ensures r.EndOfStream? <==> |input| < HEADER_LENGTH
    ensures |input| >= HEADER_LENGTH && HeaderLength(input) > MAX_PAYLOAD_LENGTH ==>
      r == Failed(LengthTooLarge(HeaderLength(input)))
    ensures r.Received? ==>
      && r.rest == input[HEADER_LENGTH..]
      && r.msg.clientId == clientId
      && IsPayloadFreeResponse(input[0])
  {
    if |input| < HEADER_LENGTH then EndOfStream
    else
      var length := HeaderLength(input);
      if length > MAX_PAYLOAD_LENGTH then Failed(LengthTooLarge(length))
      else
        match DecodeFrame(clientId, HeaderType(input), length, [], utf8Lossy)
        case Ok(msg) => Received(msg, input[HEADER_LENGTH..])
        case Panicked(p) => Failed(p)
  }

  /** One frame as the protocol intends it to be read: the payload is the declared length. */
  function Receive(input: seq<Byte>, clientId: string, utf8Lossy: seq<Byte> -> string): (r: Reception)
    ensures r.EndOfStream? <==>
      |input| < HEADER_LENGTH
      || (HeaderLength(input) <= MAX_PAYLOAD_LENGTH && |input| < HEADER_LENGTH + HeaderLength(input))
    ensures |input| >= HEADER_LENGTH && HeaderLength(input) > MAX_PAYLOAD_LENGTH ==>
      r == Failed(LengthTooLarge(HeaderLength(input)))
    ensures r.Received? ==>
      && HEADER_LENGTH + HeaderLength(input) <= |input|
      && r.rest == input[HEADER_LENGTH + HeaderLength(input)..]
      && r.msg.clientId == clientId
  {
    if |input| < HEADER_LENGTH then EndOfStream
    else
      var length := HeaderLength(input);
      if length > MAX_PAYLOAD_LENGTH then Failed(LengthTooLarge(length))
      else if |input| < HEADER_LENGTH + length then EndOfStream
      else
        match DecodeFrame(clientId, HeaderType(input), length, input[HEADER_LENGTH..HEADER_LENGTH + length], utf8Lossy)
        case Ok(msg) => Received(msg, input[HEADER_LENGTH + length..])
        case Panicked(p) => Failed(p)
  }

  /** One frame, read the way `env.reader` says. */
  function ReadFrame(input: seq<Byte>, clientId: string, env: Env): (r: Reception)
    ensures r.EndOfStream? ==> |input| < HEADER_LENGTH || env.reader.DeclaredLength?
    ensures r.Received? ==>
      && |r.rest| + HEADER_LENGTH <= |input|
      && r.rest == input[|input| - |r.rest|..]
      && r.msg.clientId == clientId
      && IsDeviceOriginated(r.msg.messageType)
  {
    if env.reader.ZeroLengthBuffer? then ReceiveAsWritten(input, clientId, env.utf8Lossy)
    else Receive(input, clientId, env.utf8Lossy)
  }

  /** One turn of the loop. A session that has left the loop does not move again. */
  function Step(s: Session, e: Event, env: Env): (t: Session)
    ensures !s.status.Active? ==> t == s
    ensures t.clientId == s.clientId && t.firmwareVersion == s.firmwareVersion
  {
    if !s.status.Active? then s
    else
      match e
      case ShutdownSignal(signalOk) =>
        s.(status := if signalOk then Closed(ShutdownRequested) else Aborted(ChannelFailed))
      case BusMessage(received, writeOk) =>
        if received.None? then s.(status := Aborted(ChannelFailed))
        else if received.value.clientId != s.clientId then s
        else
          (match EncodeCommand(received.value, env.base64Decode)
           case Panicked(p) => s.(status := Aborted(p))
           case Ok(frame) =>
             if writeOk then s.(written := s.written + frame) else s.(status := Closed(WriteFailed)))
      case SocketData(readOk, sendOk) =>
        if !readOk then s.(status := Closed(ReadFailed))
        else
          match ReadFrame(s.input, s.clientId, env)
          case EndOfStream => s.(status := Closed(PeerDisconnected), input := [])
          case Failed(p) => s.(status := Aborted(p))
          case Received(msg, rest) =>
            if sendOk then s.(input := rest, sent := s.sent + [msg])
            else s.(status := Aborted(ChannelFailed), input := rest)
  }

  /**
   * What one turn can do: consume bytes from the front of the socket input, append to what
   * was written (only for a bus command, and only while the session stays active), and send
   * at most one message (only for socket data), addressed from this device and of a type a
   * device response turns into.
   */
  lemma StepEffects(s: Session, e: Event, env: Env)
    ensures var t := Step(s, e, env);
      && |t.input| <= |s.input| && t.input == s.input[|s.input| - |t.input|..]
      && s.written <= t.written && s.sent <= t.sent
      && |t.sent| <= |s.sent| + 1
      && (|t.sent| > |s.sent| ==>
            t.sent[|s.sent|].clientId == s.clientId && IsDeviceOriginated(t.sent[|s.sent|].messageType))
      && (t.written != s.written ==> e.BusMessage? && t.status.Active?)
      && (t.sent != s.sent ==> e.SocketData? && t.status.Active?)
  {
  }

  /** The loop over a sequence of events. */
  function Run(s: Session, events: seq<Event>, env: Env): Session
    decreases |events|
  {
    if events == [] then s else Run(Step(s, events[0], env), events[1..], env)
  }

  /** Once the loop is left, later events change nothing. */
  lemma {:induction false} RunStopped(s: Session, events: seq<Event>, env: Env)
    requires !s.status.Active?
    ensures Run(s, events, env) == s
    decreases |events|
  {
    if events != [] {
      RunStopped(Step(s, events[0], env), events[1..], env);
    }
  }

  /** Running two batches of events one after the other is running them together. */
  lemma {:induction false} RunAppend(s: Session, a: seq<Event>, b: seq<Event>, env: Env)
    ensures Run(s, a + b, env) == Run(Run(s, a, env), b, env)
    decreases |a|
  {
    if a != [] {
      assert (a + b)[1..] == a[1..] + b;
      RunAppend(Step(s, a[0], env), a[1..], b, env);
    } else {
      assert a + b == b;
    }
  }

  /** One turn of the `select!` loop of `handle_evse`, for the arm that completed. */
  method Turn(s: Session, event: Event, env: Env) returns (t: Session)
    requires s.status.Active?
    ensures t == Step(s, event, env)
  {
    t := s;
    match event {
      case ShutdownSignal(signalOk) =>
        t := t.(status := if signalOk then Closed(ShutdownRequested) else Aborted(ChannelFailed));
      case BusMessage(received, writeOk) =>
        if received.None? {
          t := t.(status := Aborted(ChannelFailed));
        } else if received.value.clientId == s.clientId {
          var frame := EncodeCommand(received.value, env.base64Decode);
          if frame.Panicked? {
            t := t.(status := Aborted(frame.reason));
          } else if writeOk {
            t := t.(written := s.written + frame.value);
          } else {
            t := t.(status := Closed(WriteFailed));
          }
        }
      case SocketData(readOk, sendOk) =>
        if !readOk {
          t := t.(status := Closed(ReadFailed));
        } else if |s.input| < HEADER_LENGTH {
          t := t.(status := Closed(PeerDisconnected), input := []);
        } else {
          var msgType := s.input[0];
          var msgLength := ReadU32(s.input[1..HEADER_LENGTH]);
          if msgLength > MAX_PAYLOAD_LENGTH {
            t := t.(status := Aborted(LengthTooLarge(msgLength)));
          } else {
            var payload: seq<Byte>;
            var rest: seq<Byte>;
            if env.reader.ZeroLengthBuffer? {
              payload, rest := [], s.input[HEADER_LENGTH..];
            } else if |s.input| < HEADER_LENGTH + msgLength {
              t := t.(status := Closed(PeerDisconnected), input := []);
              return;
            } else {
              payload, rest := s.input[HEADER_LENGTH..HEADER_LENGTH + msgLength], s.input[HEADER_LENGTH + msgLength..];
            }
            var msg := DecodeFrame(s.clientId, msgType, msgLength, payload, env.utf8Lossy);
            if msg.Panicked? {
              t := t.(status := Aborted(msg.reason));
            } else if sendOk {
              t := t.(input := rest, sent := s.sent + [msg.value]);
            } else {
              t := t.(status := Aborted(ChannelFailed), input := rest);
            }
          }
        }
    }
  }

  /**
   * The handshake of `handle_evse`: read the serial, look up its configured name, read the
   * firmware version and announce the device on the bus.
   */
  method Handshake(stream: seq<Byte>, env: Env, helloSent: bool) returns (s: Session)
    ensures s == Start(stream, env, helloSent)
  {
    if |stream| < SERIAL_LENGTH {
      return FailedHandshake();
    }
    var clientSerial := Utils.BytesToHex(stream[..SERIAL_LENGTH]);
    var key := NAME_KEY_PREFIX + clientSerial;
    var clientId := if key in env.config then env.config[key] else clientSerial;
    if |stream| < SERIAL_LENGTH + 1 {
      return FailedHandshake();
    }
    var firmwareVersion := stream[SERIAL_LENGTH];
    var input := stream[SERIAL_LENGTH + 1..];
    if !helloSent {
      return Session(Aborted(ChannelFailed), clientId, firmwareVersion, input, [], []);
    }
    s := Session(Active, clientId, firmwareVersion, input, [], [NewConnectionMessage(clientId, firmwareVersion)]);
  }

  /**
   * `handle_evse`: the handshake, then the `select!` loop until an arm breaks out of it.
   * `helloSent` is whether the bus accepted the `new_connection` message; `handled` is the
   * number of events the loop consumed: it stops at the first event that ends the session.
   * With `env.reader == ZeroLengthBuffer` this is the code as written.
   */
  method HandleEvse(stream: seq<Byte>, env: Env, helloSent: bool, events: seq<Event>)
    returns (s: Session, handled: nat)
    ensures handled <= |events|
    ensures s == Run(Start(stream, env, helloSent), events[..handled], env)
    ensures forall k :: 0 <= k < handled ==> Run(Start(stream, env, helloSent), events[..k], env).status.Active?
    ensures handled < |events| ==> !s.status.Active?
    ensures s == Run(Start(stream, env, helloSent), events, env)
  {
    handled := 0;
    s := Handshake(stream, env, helloSent);
    if !s.status.Active? {
      RunPrefix(s, events, 0, env);
      return;
    }
    s, handled := SelectLoop(s, events, env);
  }

  /** The `select!` loop of `handle_evse`, from the state the handshake left. */
  method SelectLoop(start: Session, events: seq<Event>, env: Env) returns (s: Session, handled: nat)
    requires start.status.Active?
    ensures handled <= |events|
    ensures s == Run(start, events[..handled], env)
    ensures forall k :: 0 <= k < handled ==> Run(start, events[..k], env).status.Active?
    ensures handled < |events| ==> !s.status.Active?
    ensures s == Run(start, events, env)
  {
    s, handled := start, 0;
    while handled < |events| && s.status.Active?
      invariant handled <= |events|
      invariant s == Run(start, events[..handled], env)
      invariant forall k :: 0 <= k < handled ==> Run(start, events[..k], env).status.Active?
      decreases |events| - handled
    {
      RunSnoc(start, events, handled, env);
      s := Turn(s, events[handled], env);
      handled := handled + 1;
    }
    RunPrefix(start, events, handled, env);
  }

  /** One more event at the end of a run is one more step. */
  lemma RunSnoc(s: Session, events: seq<Event>, n: nat, env: Env)
    requires n < |events|
    ensures Run(s, events[..n + 1], env) == Step(Run(s, events[..n], env), events[n], env)
  {
    assert events[..n + 1] == events[..n] + [events[n]];
    RunAppend(s, events[..n], [events[n]], env);
  }

  /** A run that stops after a prefix of the events is the run over all of them. */
  lemma RunPrefix(s: Session, events: seq<Event>, n: nat, env: Env)
    requires n <= |events|
    requires n < |events| ==> !Run(s, events[..n], env).status.Active?
    ensures Run(s, events, env) == Run(s, events[..n], env)
  {
    assert events == events[..n] + events[n..];
    RunAppend(s, events[..n], events[n..], env);
    if n < |events| {
      RunStopped(Run(s, events[..n], env), events[n..], env);
    }
  }

  // ---------------------------------------------------------------------------------------
  // The handshake

  /**
   * The handshake consumes the 16 serial bytes and the firmware byte and nothing more. The
   * client id is the configured name of the serial when there is one; otherwise it is the
   * serial in upper-case hex, 32 characters that read back as the serial.
   */
  lemma HandshakeReadsSerialAndVersion(stream: seq<Byte>, env: Env, sendOk: bool)
    ensures var s := Start(stream, env, sendOk);
      s.status.Active? <==> |stream| > SERIAL_LENGTH && sendOk
    ensures var s := Start(stream, env, sendOk);
      |stream| <= SERIAL_LENGTH ==> s.status == Aborted(HandshakeReadFailed) && s.sent == []
    ensures var s := Start(stream, env, sendOk);
      |stream| > SERIAL_LENGTH ==> stream[SERIAL_LENGTH..] == [s.firmwareVersion] + s.input
    ensures var s := Start(stream, env, sendOk);
      s.status.Active? ==> s.sent == [NewConnectionMessage(s.clientId, s.firmwareVersion)] && s.written == []
    ensures |stream| > SERIAL_LENGTH ==>
      var s := Start(stream, env, sendOk);
      var key := NAME_KEY_PREFIX + Utils.Hex(stream[..SERIAL_LENGTH]);
      && (key in env.config ==> s.clientId == env.config[key])
      && (key !in env.config ==>
            |s.clientId| == 2 * SERIAL_LENGTH && Utils.IsHexString(s.clientId)
            && Utils.ParseHex(s.clientId) == stream[..SERIAL_LENGTH])
  {
    if |stream| > SERIAL_LENGTH {
      Utils.ParseHexOfHex(stream[..SERIAL_LENGTH]);
      assert stream[SERIAL_LENGTH..] == [stream[SERIAL_LENGTH]] + stream[SERIAL_LENGTH + 1..];
    }
  }

  /** Two devices with different serials and no configured names get different client ids. */
  lemma DistinctSerialsDistinctIds(stream1: seq<Byte>, stream2: seq<Byte>, env: Env)
    requires |stream1| > SERIAL_LENGTH && |stream2| > SERIAL_LENGTH
    requires stream1[..SERIAL_LENGTH] != stream2[..SERIAL_LENGTH]
    requires NAME_KEY_PREFIX + Utils.Hex(stream1[..SERIAL_LENGTH]) !in env.config
    requires NAME_KEY_PREFIX + Utils.Hex(stream2[..SERIAL_LENGTH]) !in env.config
    ensures Start(stream1, env, true).clientId != Start(stream2, env, true).clientId
  {
    if Start(stream1, env, true).clientId == Start(stream2, env, true).clientId {
      Utils.HexInjective(stream1[..SERIAL_LENGTH], stream2[..SERIAL_LENGTH]);
    }
  }

  // ---------------------------------------------------------------------------------------
  // The loop

  /**
   * A session keeps its id and firmware version; what it sent and wrote only grows; every
   * message it sends carries its own id and, after the announcement, is a device response.
   */
  lemma {:induction false} RunKeepsIdentity(s: Session, events: seq<Event>, env: Env)
    requires forall m | m in s.sent :: m.clientId == s.clientId
    ensures var t := Run(s, events, env);
      && t.clientId == s.clientId && t.firmwareVersion == s.firmwareVersion
      && s.sent <= t.sent && s.written <= t.written
      && (forall m | m in t.sent :: m.clientId == s.clientId)
      && (forall i | |s.sent| <= i < |t.sent| :: IsDeviceOriginated(t.sent[i].messageType))
    decreases |events|
  {
    if events != [] {
      var next := Step(s, events[0], env);
      assert s.sent <= next.sent && s.written <= next.written;
      assert forall i | |s.sent| <= i < |next.sent| :: IsDeviceOriginated(next.sent[i].messageType);
      RunKeepsIdentity(next, events[1..], env);
    }
  }

  /**
   * What a whole session sends on the bus: the announcement first, then only device responses,
   * all under the session's client id.
   */
  lemma SessionMessages(stream: seq<Byte>, env: Env, helloSent: bool, events: seq<Event>)
    ensures var t := Run(Start(stream, env, helloSent), events, env);
      && (forall m | m in t.sent :: m.clientId == t.clientId)
      && (t.sent != [] ==> t.sent[0] == NewConnectionMessage(t.clientId, t.firmwareVersion))
      && (forall i | 1 <= i < |t.sent| :: IsDeviceOriginated(t.sent[i].messageType))
  {
    var s := Start(stream, env, helloSent);
    RunKeepsIdentity(s, events, env);
    if !s.status.Active? {
      RunStopped(s, events, env);
    }
  }

  /** A bus message addressed to another device is ignored, whatever it holds. */
  lemma ForeignMessageIgnored(s: Session, m: Message, writeOk: bool, env: Env)
    requires m.clientId != s.clientId
    ensures Step(s, BusMessage(Some(m), writeOk), env) == s
  {
  }

  /**
   * A bus message addressed to this device is encoded and written whole; if it cannot be
   * encoded the session panics, and if the write fails the session closes.
   */
  lemma AddressedCommand(s: Session, m: Message, writeOk: bool, env: Env)
    requires s.status.Active? && m.clientId == s.clientId
    ensures var t := Step(s, BusMessage(Some(m), writeOk), env);
      && t.input == s.input && t.sent == s.sent
      && (t.status.Active? <==> IsEncodable(m, env.base64Decode) && writeOk)
      && (t.status.Active? ==>
            t.written == s.written + EncodeCommand(m, env.base64Decode).value
            && |t.written| >= |s.written| + HEADER_LENGTH)
      && (!t.status.Active? ==> t.written == s.written)
      && (!IsCommand(m.messageType) ==> t.status == Aborted(CannotSend(m.messageType)))
      && (IsEncodable(m, env.base64Decode) && !writeOk ==> t.status == Closed(WriteFailed))
  {
  }

  /** Exactly which events end the loop, and how a shutdown ends it. */
  lemma LoopExit(s: Session, e: Event, env: Env)
    requires s.status.Active?
    ensures Step(s, e, env).status.Active? <==>
      match e
      case ShutdownSignal(_) => false
      case BusMessage(received, writeOk) =>
        received.Some?
        && (received.value.clientId != s.clientId || (IsEncodable(received.value, env.base64Decode) && writeOk))
      case SocketData(readOk, sendOk) =>
        readOk && sendOk && ReadFrame(s.input, s.clientId, env).Received?
    ensures e.ShutdownSignal? ==>
      Step(s, e, env).status == if e.signalOk then Closed(ShutdownRequested) else Aborted(ChannelFailed)
    ensures e.BusMessage? && e.received.None? ==> Step(s, e, env).status == Aborted(ChannelFailed)
    ensures e.SocketData? && !e.readOk ==> Step(s, e, env).status == Closed(ReadFailed)
    ensures e.SocketData? && e.readOk && |s.input| < HEADER_LENGTH ==>
      Step(s, e, env).status == Closed(PeerDisconnected)
    ensures e.SocketData? && e.readOk && ReadFrame(s.input, s.clientId, env).EndOfStream? ==>
      Step(s, e, env).status == Closed(PeerDisconnected)
    ensures e.SocketData? && e.readOk && ReadFrame(s.input, s.clientId, env).Failed? ==>
      Step(s, e, env).status == Aborted(ReadFrame(s.input, s.clientId, env).reason)
    ensures e.SocketData? && e.readOk && !e.sendOk && ReadFrame(s.input, s.clientId, env).Received? ==>
      Step(s, e, env).status == Aborted(ChannelFailed)
  {
  }

  // ---------------------------------------------------------------------------------------
  // Reading frames

  /** A declared payload length above 1024 panics, whatever follows the header. */
  lemma OversizedLengthPanics(t: Byte, n: U32, rest: seq<Byte>, clientId: string, utf8Lossy: seq<Byte> -> string)
    requires n > MAX_PAYLOAD_LENGTH
    ensures ReceiveAsWritten(Header(t, n) + rest, clientId, utf8Lossy) == Failed(LengthTooLarge(n))
    ensures Receive(Header(t, n) + rest, clientId, utf8Lossy) == Failed(LengthTooLarge(n))
  {
    HeaderReadsBack(t, n, rest);
  }

  /** The header fields read back from a written header, whatever follows it. */
  lemma HeaderReadsBack(t: Byte, n: U32, rest: seq<Byte>)
    ensures |Header(t, n) + rest| >= HEADER_LENGTH
    ensures HeaderType(Header(t, n) + rest) == t && HeaderLength(Header(t, n) + rest) == n
    ensures (Header(t, n) + rest)[HEADER_LENGTH..] == rest
  {
    var input := Header(t, n) + rest;
    assert input[1..HEADER_LENGTH] == BE32(n);
    ReadBE32(n, []);
    assert BE32(n) + [] == BE32(n);
  }

  /**
   * As written, the payload read is a read of zero bytes. A payload-free response is accepted
   * and its payload bytes are left in the socket to be read as the next header; a snapshot
   * always panics, because its decoder is handed an empty payload.
   */
  lemma AsWrittenLeavesPayloadUnread(
    t: Byte, payload: seq<Byte>, rest: seq<Byte>, clientId: string, utf8Lossy: seq<Byte> -> string)
    requires |payload| <= MAX_PAYLOAD_LENGTH as int
    ensures var r := ReceiveAsWritten(Header(t, |payload|) + payload + rest, clientId, utf8Lossy);
      && (IsPayloadFreeResponse(t) ==> r.Received? && r.rest == payload + rest)
      && (t == RESPONSE_TYPE_COLLECT_DATA ==> r == Failed(PayloadTooShort))
  {
    HeaderReadsBack(t, |payload|, payload + rest);
    assert Header(t, |payload|) + payload + rest == Header(t, |payload|) + (payload + rest);
  }

  /** What a device sends first: its serial, its firmware version, then one snapshot frame. */
  function SnapshotStream(serial: seq<Byte>, firmwareVersion: Byte, payload: seq<Byte>): seq<Byte>
    requires |payload| <= MAX_PAYLOAD_LENGTH as int
  {
    serial + [firmwareVersion] + Header(RESPONSE_TYPE_COLLECT_DATA, |payload|) + payload
  }

  /**
   * As written, the first snapshot a device sends panics the session, whatever its content:
   * only the announcement reaches the bus.
   */
  lemma AsWrittenSnapshotPanics(serial: seq<Byte>, firmwareVersion: Byte, payload: seq<Byte>, env: Env)
    requires |serial| == SERIAL_LENGTH && |payload| <= MAX_PAYLOAD_LENGTH as int
    requires env.reader == ZeroLengthBuffer
    ensures var start := Start(SnapshotStream(serial, firmwareVersion, payload), env, true);
      var t := Run(start, [SocketData(true, true)], env);
      t.status == Aborted(PayloadTooShort) && t.sent == [NewConnectionMessage(t.clientId, firmwareVersion)]
  {
    var frame := Header(RESPONSE_TYPE_COLLECT_DATA, |payload|) + payload;
    var stream := SnapshotStream(serial, firmwareVersion, payload);
    assert stream[SERIAL_LENGTH] == firmwareVersion;
    assert stream[SERIAL_LENGTH + 1..] == frame + [];
    var start := Start(stream, env, true);
    AsWrittenLeavesPayloadUnread(RESPONSE_TYPE_COLLECT_DATA, payload, [], start.clientId, env.utf8Lossy);
  }

  /**
   * With the payload read at its declared length, the first snapshot a device sends reaches
   * the bus intact, after the announcement, and the socket is left at the next frame.
   */
  lemma IntendedSnapshotForwarded(
    serial: seq<Byte>, firmwareVersion: Byte, contactor: Byte, pwmPercent: Byte, m: Measurements,
    log: seq<Byte>, env: Env)
    requires |serial| == SERIAL_LENGTH && |log| <= MAX_PAYLOAD_LENGTH as int - SNAPSHOT_FIXED_LENGTH
    requires env.reader == DeclaredLength
    ensures var p := SnapshotPayload(contactor, pwmPercent, m, log);
      var t := Run(Start(SnapshotStream(serial, firmwareVersion, p), env, true), [SocketData(true, true)], env);
      && t.status.Active? && t.input == []
      && t.sent == [NewConnectionMessage(t.clientId, firmwareVersion),
                    Message(RequestDataCollection, t.clientId, None, None, Some(pwmPercent), Some(contactor == 1),
                            Some(m.(loggingBuffer := env.utf8Lossy(log))))]
  {
    var p := SnapshotPayload(contactor, pwmPercent, m, log);
    var frame := Header(RESPONSE_TYPE_COLLECT_DATA, |p|) + p;
    assert SnapshotStream(serial, firmwareVersion, p) == serial + [firmwareVersion] + frame;
    var start := Start(SnapshotStream(serial, firmwareVersion, p), env, true);
    StartBeforeFrame(serial, firmwareVersion, frame, env);
    ReceiveSnapshot(start.clientId, contactor, pwmPercent, m, log, [], env.utf8Lossy);
    var msg := Message(RequestDataCollection, start.clientId, None, None, Some(pwmPercent), Some(contactor == 1),
                       Some(m.(loggingBuffer := env.utf8Lossy(log))));
    assert frame + [] == frame;
    RunReceives(start, msg, [], env);
  }

  /** After a handshake the device's first frame is the whole unread input. */
  lemma StartBeforeFrame(serial: seq<Byte>, firmwareVersion: Byte, frame: seq<Byte>, env: Env)
    requires |serial| == SERIAL_LENGTH
    ensures var s := Start(serial + [firmwareVersion] + frame, env, true);
      && s.status.Active? && s.input == frame && s.firmwareVersion == firmwareVersion
      && s.sent == [NewConnectionMessage(s.clientId, firmwareVersion)]
  {
    var stream := serial + [firmwareVersion] + frame;
    assert stream[SERIAL_LENGTH] == firmwareVersion;
    assert stream[SERIAL_LENGTH + 1..] == frame;
  }

  /** A turn on socket data that reads one frame forwards its message and moves past it. */
  lemma RunReceives(s: Session, msg: Message, rest: seq<Byte>, env: Env)
    requires s.status.Active? && ReadFrame(s.input, s.clientId, env) == Received(msg, rest)
    ensures Run(s, [SocketData(true, true)], env) == s.(input := rest, sent := s.sent + [msg])
  {
    assert Run(s, [SocketData(true, true)], env) == Run(Step(s, SocketData(true, true), env), [], env);
  }

  /**
   * The intended reader takes exactly one frame: the header, then the declared number of
   * payload bytes, and leaves what follows for the next read.
   */
  lemma ReceiveFrame(
    t: Byte, payload: seq<Byte>, rest: seq<Byte>, clientId: string, utf8Lossy: seq<Byte> -> string)
    requires |payload| <= MAX_PAYLOAD_LENGTH as int
    ensures Receive(Header(t, |payload|) + payload + rest, clientId, utf8Lossy) ==
      match DecodeFrame(clientId, t, |payload|, payload, utf8Lossy)
      case Ok(msg) => Received(msg, rest)
      case Panicked(p) => Failed(p)
  {
    var input := Header(t, |payload|) + payload + rest;
    HeaderReadsBack(t, |payload|, payload + rest);
    assert input == Header(t, |payload|) + (payload + rest);
    assert input[HEADER_LENGTH..HEADER_LENGTH + |payload|] == payload;
    assert input[HEADER_LENGTH + |payload|..] == rest;
  }

  /** With the intended reader, a snapshot the device writes arrives on the bus intact. */
  lemma ReceiveSnapshot(
    clientId: string, contactor: Byte, pwmPercent: Byte, m: Measurements, log: seq<Byte>,
    rest: seq<Byte>, utf8Lossy: seq<Byte> -> string)
    requires |log| <= MAX_PAYLOAD_LENGTH as int - SNAPSHOT_FIXED_LENGTH
    ensures var p := SnapshotPayload(contactor, pwmPercent, m, log);
      Receive(Header(RESPONSE_TYPE_COLLECT_DATA, |p|) + p + rest, clientId, utf8Lossy)
      == Received(Message(RequestDataCollection, clientId, None, None, Some(pwmPercent), Some(contactor == 1),
                          Some(m.(loggingBuffer := utf8Lossy(log)))), rest)
  {
    var p := SnapshotPayload(contactor, pwmPercent, m, log);
    ReceiveFrame(RESPONSE_TYPE_COLLECT_DATA, p, rest, clientId, utf8Lossy);
    SnapshotRoundTrip(clientId, |p|, contactor, pwmPercent, m, log, utf8Lossy);
  }
}
