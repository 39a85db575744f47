# dehneevse-mqtt-bridge, modelled in Dafny

The bridge connects Dehn EVSE charging stations to an MQTT broker. Each station opens a TCP
connection, sends a 16-byte serial and a firmware byte, and then exchanges frames with the
bridge. A frame is a 1-byte code, a 4-byte big-endian payload length and the payload. Frames
travel between the per-station sessions and the broker task on two broadcast buses as
`MqttMessage` records, and those records cross the broker link as JSON.

This project models the logic at the core of the bridge:

- `protocol.dfy` (module `Protocol`) is the wire codec of `src/protocol.rs`. Device responses
  become bus messages (`DecodeFrame`, for `evse_to_mqtt`), and bus commands become device
  frames (`EncodeCommand`, for `mqtt_to_evse`). Every `panic!` and `unwrap` is a `Panicked`
  outcome that names its reason. `src/main.rs:294-452` holds identical copies of
  `evse_to_mqtt`, `mqtt_to_evse`, the code constants and `bytes_to_hex`; the same members model
  them.
- `wrappers.dfy` (module `Wrappers`) holds `Option`, which every other module shares.
- `bytes.dfy` (module `Bytes`) holds the `u8`/`u32`/`i32` ranges and the big-endian reads and
  writes.
- `utils.dfy` (module `Utils`) is `bytes_to_hex`. It has a loop method, the function it is
  proved against, and an inverse.
- `session.dfy` (module `EvseSession`) is `handle_evse` of `src/evse_handler.rs`:
  - The socket is the sequence of bytes the station sends.
  - Each completed `select!` arm is an `Event` carrying its outcome.
  - `Start`, `Step` and `Run` specify the session.
  - `HandleEvse`, `Handshake`, `SelectLoop` and `Turn` are the imperative code, proved equal
    to them.
  - `Env.reader` selects how payloads are read: as written (see Findings) or at the declared
    length.
- `upstream.dfy` (module `MqttUpstream`) is `handle_mqtt` of `src/mqtt_handler.rs`:
  - The five locals and their guarded arms are the pure `Step`/`Enabled`.
  - The class `UpstreamLoop` has one method per arm, with the guard as its precondition.
  - `HandleMqtt` is the driving loop.
  - The invariant `Valid` is proved along every run.
- `legacy.dfy` (module `Legacy`) is the older control code in `src/main.rs`: its handshake, its
  connect-once broker loop, and the accept loop of `main`.

Collaborators that are not part of this model become parameters:

- `from_utf8_lossy` and `base64::decode` are fields of `EvseSession.Env`.
- `serde_json::to_string` and `serde_json::from_str` are the fields of `MqttUpstream.Codec`.
- The configuration lookup `settings.get_string` is the map `Env.config`.
- The outcome of every socket, bus and broker operation is an input of the event that
  reports it.

## Model

| member | source | states |
|---|---|---|
| `Bytes.ReadBE32` | src/evse_handler.rs:81 | Reading back four bytes written big-endian gives the number, whatever follows them. |
| `Bytes.BE32OfRead` | src/protocol.rs:70 | Writing out a big-endian read reproduces the four bytes read. |
| `Bytes.ReadI32BE` | src/protocol.rs:76-77 | A signed value survives being stored as its 32-bit pattern and read back with `read_i32`. |
| `Protocol.PilotVoltageOf` | src/protocol.rs:55-62 | A pilot-voltage code is accepted exactly when it is at most 4; other codes panic. |
| `Protocol.PilotVoltageCode` | src/protocol.rs:55-60 | Every pilot voltage has a code that decodes back to it: 0..4 map to volt_12, volt_9, volt_6, volt_3, fault. |
| `Protocol.ProximityPilotAmpsOf` | src/protocol.rs:63-69 | A proximity code is accepted exactly when it is at most 3; other codes panic. |
| `Protocol.ProximityPilotAmpsCode` | src/protocol.rs:63-67 | Every proximity reading has a code that decodes back to it: 0..3 map to amp_13, amp_20, amp_32, no_cable. |
| `Protocol.DecodeFrame` | src/protocol.rs:5-96 | Decoding succeeds exactly for codes 1, 3, 4 and 100, and for code 2 with a decodable snapshot. A success keeps the client id, has a device-response type and no handshake or firmware. Any other code panics with that code. A code-2 payload shorter than 44 bytes panics. |
| `Protocol.DecodeSnapshot` | src/protocol.rs:48-92 | A snapshot decodes exactly when it has 44 bytes and valid enum codes. The result is tagged request_data_collection, with pwm, contactor and measurements all present. The panics come in source order, each with its reason: fewer than 4 bytes is `PayloadTooShort`. Then a pilot code above 4 is `UnsupportedPilotVoltage` with that code. Then a proximity code above 3 is `UnsupportedProximityAmps` with that code. Then fewer than 44 bytes is `PayloadTooShort`. |
| `Protocol.PayloadFreeResponses` | src/protocol.rs:12-47 | Codes 1, 100, 3 and 4 give response_ping, notify, response_set_pwm_percent and response_set_contactor_state. Every optional field is absent, whatever the payload. |
| `Protocol.DecodeIgnoresLength` | src/protocol.rs:4-10 | The declared payload length never changes the decoded result. |
| `Protocol.NeverResponseCollectData` | src/protocol.rs:83-84 | No decoded message is ever tagged response_collect_data. |
| `Protocol.SnapshotFields` | src/protocol.rs:49-80 | Each field of a decoded snapshot is read from its own offset: contactor iff byte 0 is 1, pwm = byte 1, the enum codes at 2 and 3, the ten big-endian numbers at 4..44, and the log from byte 44 on. |
| `Protocol.LogBufferFromTail` | src/protocol.rs:80 | The log buffer depends only on the bytes from offset 44 onward. |
| `Protocol.SnapshotPayload` | src/protocol.rs:70-80 | The device-side snapshot layout is 44 fixed bytes followed by the raw log bytes. |
| `Protocol.SnapshotPayloadReads` | src/protocol.rs:70-79 | In the device-side layout, each of the ten numbers reads back big-endian from offset 4 + 4i. |
| `Protocol.SnapshotRoundTrip` | src/protocol.rs:48-92 | Decoding a snapshot a device wrote gives back every measurement at every value of its type. |
| `Protocol.EncodeCommand` | src/protocol.rs:98-142 | Encoding succeeds exactly for the five commands with their needed field present (and valid base64 for firmware), and every frame has a 5-byte header. A non-command variant panics with its type. A firmware push without its firmware field, or a set-pwm or set-contactor command without its value, panics with `MissingField`. Firmware whose base64 does not decode panics with `InvalidBase64`. |
| `Protocol.FixedCommandFrames` | src/protocol.rs:101-133 | Byte for byte: ping is [1,0,0,0,0], data collection is [3,0,0,0,0], set-pwm is [4,0,0,0,1,p], set-contactor is [5,0,0,0,1,b] with b = 1 iff the state is true. |
| `Protocol.FirmwareFrame` | src/protocol.rs:105-117 | A firmware push is [2] ++ BE32(len+4, 32-bit wrap) ++ BE32(crc32) ++ the decoded image. |
| `Protocol.EncodedLengthField` | src/protocol.rs:98-142 | In every encoded frame whose payload length is below 2^32 (so that it fits the 32-bit field), bytes 1..5 read as the number of bytes after the header. |
| `Protocol.LengthFieldOf` | src/protocol.rs:101-133 | A frame built as code, then BE32(n), then the payload, declares n in bytes 1..5. |
| `Utils.Digit` | src/utils.rs:5 | A nibble renders as an upper-case hex digit. |
| `Utils.Hex` | src/utils.rs:1-8 | The rendering has exactly two characters per byte. |
| `Utils.BytesToHex` | src/utils.rs:1-8 | The appending loop computes `Hex` of its input. |
| `Utils.HexAt` | src/utils.rs:4-5 | Characters 2i and 2i+1 are the high and low nibble of byte i, in input order. |
| `Utils.UpperCaseDigitsOnly` | src/utils.rs:5 | Every output character is one of 0-9 or A-F. |
| `Utils.ParseHexOfHex` | src/utils.rs:1-8 | Parsing the rendering gives the bytes back. |
| `Utils.HexInjective` | src/utils.rs:1-8 | Distinct byte sequences render to distinct strings. |
| `EvseSession.ClientId` | src/evse_handler.rs:32-33 | The id is the configured `evse_name.id_<HEX>` value when that key is present, otherwise the hex serial. It is always one of the two. |
| `EvseSession.Start` | src/evse_handler.rs:27-52 | The handshake never writes to the socket and never closes cleanly: it is active or it panicked. It is active exactly when 17 bytes arrived and the announcement was sent. A short stream panics with `HandshakeReadFailed`, a failed send with `ChannelFailed`. An active session has sent only the announcement, with the firmware byte, and its input starts right after byte 17. |
| `EvseSession.ReceiveAsWritten` | src/evse_handler.rs:77-107 | As written: end-of-stream exactly when fewer than 5 header bytes remain. A declared length above 1024 panics with that length. A frame that is accepted is a payload-free response, keeps the client id, and leaves everything after the 5-byte header unread (the zero-length read at lines 87-88). |
| `EvseSession.Receive` | src/evse_handler.rs:77-107 | Reading the declared length: end-of-stream exactly when the header, or a payload within the cap, is cut short. A declared length above 1024 panics with that length. An accepted frame keeps the client id and leaves the input just past its declared payload. |
| `EvseSession.ReadFrame` | src/evse_handler.rs:77-98 | Under either reader, an accepted frame consumes at least the 5-byte header from the front of the input and yields a device response for this client. End-of-stream with a full header happens only when reading the declared length. |
| `EvseSession.Step` | src/evse_handler.rs:57-119 | A session that has left the loop does not move again, and no turn changes its id or firmware version. |
| `EvseSession.StepEffects` | src/evse_handler.rs:57-119 | A turn only consumes input from the front. What was written and sent only grows, and at most one message is sent per turn. A sent message carries the session's id and is a device response. Writing happens only for a bus command and sending only for socket data, and in both cases the session stays active. |
| `EvseSession.Handshake` | src/evse_handler.rs:27-52 | The handshake's reads and lookup compute exactly `Start`: a short stream panics, an unsent announcement panics, otherwise the session is active with the announcement sent. |
| `EvseSession.RunStopped` | src/evse_handler.rs:56-120 | Once the loop is left, no later event changes the session. |
| `EvseSession.Turn` | src/evse_handler.rs:57-119 | One imperative turn of the `select!` computes exactly `Step`. |
| `EvseSession.SelectLoop` | src/evse_handler.rs:56-120 | From an active state, the loop computes `Run` over the events. It consumes events up to and including the first that ends the session. |
| `EvseSession.HandleEvse` | src/evse_handler.rs:14-121 | The whole session is `Run` of the handshake over the events. The loop consumes events up to and including the first that ends the session, and no further. |
| `EvseSession.HandshakeReadsSerialAndVersion` | src/evse_handler.rs:27-52 | The handshake consumes exactly 16 serial bytes and 1 firmware byte, and a short read panics. The client id is the configured `evse_name.id_<HEX>` value if present; otherwise it is the 32-character hex serial, which reads back as the serial. The first bus message is new_connection with the firmware version and nothing else. |
| `EvseSession.DistinctSerialsDistinctIds` | src/evse_handler.rs:32-33 | Without configured names, different serials give different client ids. |
| `EvseSession.RunKeepsIdentity` | src/evse_handler.rs:100-107 | A session keeps its id and firmware version. What it sent and wrote only grows. Every message it sends carries its own id and, after the announcement, is a device response. |
| `EvseSession.SessionMessages` | src/evse_handler.rs:42-107 | A whole session sends the announcement first, then only device responses, all under its client id. |
| `EvseSession.ForeignMessageIgnored` | src/evse_handler.rs:63-65 | A bus message for another client id leaves the session unchanged. |
| `EvseSession.AddressedCommand` | src/evse_handler.rs:63-76 | A message for this client is written whole, its encoding appended to what was written. Otherwise the session panics (cannot encode) or closes (write error). |
| `EvseSession.LoopExit` | src/evse_handler.rs:56-120 | Exactly which events end the loop, each with its status. A shutdown closes it, or panics with `ChannelFailed` if the receive failed. A failed bus receive panics with `ChannelFailed`. A write error closes it. A read error closes it with `ReadFailed`. End-of-stream closes it with `PeerDisconnected`. An undecodable frame panics with the decoder's reason. A frame read but not sent on the bus panics with `ChannelFailed`. |
| `EvseSession.OversizedLengthPanics` | src/evse_handler.rs:80-85 | A declared length above 1024 panics before any payload is read, under either reader. |
| `EvseSession.HeaderReadsBack` | src/evse_handler.rs:80-81 | The header type is byte 0 and the length is the big-endian u32 of bytes 1..5. |
| `EvseSession.AsWrittenLeavesPayloadUnread` | src/evse_handler.rs:87-107 | As written, a payload-free response is accepted and its payload bytes are left in the socket. A snapshot frame always panics. |
| `EvseSession.AsWrittenSnapshotPanics` | src/evse_handler.rs:87-88 | As written, the first snapshot any device sends panics its session, and only the announcement reaches the bus. |
| `EvseSession.IntendedSnapshotForwarded` | src/evse_handler.rs:87-107 | Reading the declared length, the first snapshot reaches the bus intact after the announcement, and the socket is left at the next frame. |
| `EvseSession.StartBeforeFrame` | src/evse_handler.rs:27-52 | After a successful handshake, the bytes the device sent after its serial and firmware byte are the whole unread input. |
| `EvseSession.RunReceives` | src/evse_handler.rs:77-107 | A socket turn that reads one frame sends its message on the bus and moves the input past it. |
| `EvseSession.ReceiveFrame` | src/evse_handler.rs:77-107 | Reading the declared length takes exactly one frame and leaves what follows it for the next read. |
| `EvseSession.ReceiveSnapshot` | src/evse_handler.rs:87-107 | Reading the declared length, a snapshot frame a device wrote decodes to all of its measurements. |
| `MqttUpstream.Init` | src/mqtt_handler.rs:34-38 | The locals as declared satisfy the invariant: not connected, running, and nothing published or forwarded. |
| `MqttUpstream.ConnectedOk` | src/mqtt_handler.rs:41 | `connected_ok`: connected, subscribed, and no reconnect or sleep pending. |
| `MqttUpstream.Enabled` | src/mqtt_handler.rs:46-111 | The `select!` guard of each arm (lines 46, 61, 67, 68, 72, 85, 102, 111), in a loop that has not returned. |
| `MqttUpstream.ConnectedOkGuards` | src/mqtt_handler.rs:41-111 | While `connected_ok` holds, no connect, sleep, reconnect or subscribe arm can run. The two receive arms run only while it holds, and in a running loop the broker receive is always enabled then. |
| `MqttUpstream.Step` | src/mqtt_handler.rs:46-143 | `connected` becomes set by the connect arm and is never reset. The function returns Ok exactly on shutdown, and Err exactly on a failed subscribe whose disconnect fails. Each log grows by at most one entry: published only by a successful publish of the pending message, forwarded only by a delivered broker message. The connect, reconnect and sleep counters each grow by one exactly on their own arm. |
| `MqttUpstream.InitialArms` | src/mqtt_handler.rs:34-46 | The initial locals satisfy the invariant, and only connect and shutdown are enabled. |
| `MqttUpstream.StepValid` | src/mqtt_handler.rs:45-145 | Every arm keeps the invariant. `connected` is never reset, and the logs only grow. |
| `MqttUpstream.RunReturned` | src/mqtt_handler.rs:68-71 | After the function returns, no arm runs. |
| `MqttUpstream.RunValid` | src/mqtt_handler.rs:40-146 | The invariant holds along every run of the loop. |
| `MqttUpstream.UpstreamGuarantees` | src/mqtt_handler.rs:46-84 | The connect arm completes at most once, and the reconnect arm never completes more often than the backoff sleep. A pending sleep implies a pending reconnect. Nothing is published or forwarded before the connect arm completes. |
| `MqttUpstream.EnabledArm` | src/mqtt_handler.rs:144 | In every running state some arm other than shutdown is enabled, so `else => break` is never taken. |
| `MqttUpstream.ShutdownFromAnyState` | src/mqtt_handler.rs:68-71 | Shutdown is enabled in every running state, changes only the status, and afterwards no arm runs. |
| `MqttUpstream.OnePublishPending` | src/mqtt_handler.rs:61-110 | Once a bus message is serialised, the bus is not read until the publish arm has run. That arm clears the pending message whether it succeeds or fails. |
| `MqttUpstream.UnserialisableDropped` | src/mqtt_handler.rs:102-110 | A failed bus receive or an unserialisable message changes nothing. |
| `MqttUpstream.BrokerReceiveEffects` | src/mqtt_handler.rs:111-143 | An unparsable broker message is dropped and a parsed one is forwarded. End of stream or an error starts a backoff only when the client reports it is disconnected. That backoff disables both receive arms, which come back only after a successful reconnect and resubscribe. |
| `MqttUpstream.PublishDuringBackoff` | src/mqtt_handler.rs:61-66 | A publish already pending when a backoff starts is still enabled and publishes its message, and the sleep alone does not re-enable the receive arms. |
| `MqttUpstream.SubscribeDuringBackoff` | src/mqtt_handler.rs:85-101 | After a connect and a failed subscribe, sleep and subscribe are both enabled. |
| `MqttUpstream.UpstreamLoop.constructor` | src/mqtt_handler.rs:34-38 | The locals start as connected=false, subscribed=true, need_reconnect=false, need_sleep=false, publish_msg=None. |
| `MqttUpstream.UpstreamLoop.OnConnect` | src/mqtt_handler.rs:46-60 | Under `!connected`: success sets connected and clears subscribed; failure sets connected, need_reconnect and need_sleep. |
| `MqttUpstream.UpstreamLoop.OnPublish` | src/mqtt_handler.rs:61-66 | Under a pending message, publishes it and clears it, success or not. |
| `MqttUpstream.UpstreamLoop.OnSleep` | src/mqtt_handler.rs:67 | Under need_sleep, it only clears need_sleep. |
| `MqttUpstream.UpstreamLoop.OnShutdown` | src/mqtt_handler.rs:68-71 | The loop returns Ok. |
| `MqttUpstream.UpstreamLoop.OnReconnect` | src/mqtt_handler.rs:72-84 | Under need_reconnect and not need_sleep: success clears need_reconnect and subscribed; failure sets need_sleep. |
| `MqttUpstream.UpstreamLoop.OnSubscribe` | src/mqtt_handler.rs:85-101 | Under `!subscribed`: success sets subscribed. Failure sets need_reconnect and need_sleep, and a failed disconnect returns Err. |
| `MqttUpstream.UpstreamLoop.OnBusReceive` | src/mqtt_handler.rs:102-110 | Under connected_ok with nothing pending, a serialisable message becomes the pending publish. |
| `MqttUpstream.UpstreamLoop.OnBrokerReceive` | src/mqtt_handler.rs:111-143 | Under connected_ok: a parsed message is forwarded, and a disconnect seen with the client not connected starts a backoff. |
| `MqttUpstream.HandleMqtt` | src/mqtt_handler.rs:13-148 | A failed client creation returns Err. Otherwise the loop is `RunArms` from the initial locals, and it stops early only when the function has returned. |
| `Legacy.LegacyStart` | src/main.rs:198-222 | The older handshake names a device by its hex serial, with no configuration lookup. It is active exactly when 17 bytes arrived and the announcement was sent, and then it has sent only the announcement. |
| `Legacy.LegacyMqttStart` | src/main.rs:120-142 | The older set-up enters the loop exactly when create, connect and subscribe all succeed, with nothing published or forwarded. A shutdown is broadcast exactly when the connect fails and that send succeeds, and then it returns. A failed create or subscribe panics with `UpstreamFailed`. A failed shutdown send panics with `ChannelFailed`. |
| `Legacy.LegacyMqttStep` | src/main.rs:144-183 | After the older loop has ended nothing changes. A turn never broadcasts a shutdown. Each log grows by at most one entry: published only by a successful publish from the device bus, forwarded only by a successful forward from the broker, and the loop keeps running in both cases. It returns normally exactly on a received shutdown signal. |
| `Legacy.LegacyClientIdIsSerial` | src/main.rs:198-222 | The older handshake names a device by its hex serial, which reads back as the serial. It matches the newer one for a device without a configured name. |
| `Legacy.ConnectFailureShutsDown` | src/main.rs:133-140 | A failed connect broadcasts shutdown and returns, with no retry and nothing published or forwarded. |
| `Legacy.LegacyLoopExit` | src/main.rs:144-183 | Exactly which arms end the older loop. End of the broker stream is ignored, and a stream error panics. |
| `Legacy.UnserialisableCrashesLegacyOnly` | src/main.rs:151-157 | An unserialisable device message panics the older loop, while the newer loop drops it. |
| `Legacy.LegacyHandleMqtt` | src/main.rs:111-184 | The set-up, then the loop up to the first arm that ends it. No arm runs after a failed set-up. |
| `Legacy.AcceptLoop` | src/main.rs:83-108 | Every accepted connection spawns a session. The loop runs until the first arm that is not a successful accept. A shutdown signal exits, a failed accept or a failed signal receive panics with its own reason, and `main` returns without waiting for the spawned sessions. |

## Left out

- TCP, the paho MQTT client and tokio's `select!` scheduling are not modelled. A run is the sequence of arms that completed, each with its outcome as an input. An arm whose guard is false is never chosen, so `RunArms` skips it.
- Cancellation of an unfinished `read_exact` when another `select!` arm wins is not modelled: a header read is taken as atomic.
- In `handle_mqtt`, `tokio::select!` evaluates every branch's expression on every turn, disabled branches included, and only skips polling the disabled ones. So `cli.connect(..)`, `cli.reconnect()` and `cli.subscribe(..)` (`src/mqtt_handler.rs:46`, `:72`, `:85`) are called on every turn. The guards decide which client result the loop observes, not which client calls are made. The counters in `MqttUpstream.UpstreamState` count completed arms, not client calls.
- A publish in flight (`src/mqtt_handler.rs:43`, `:61`) is dropped when another arm wins the turn. `publish_msg` then stays set, and the next turn issues the same publish again, so the broker may receive the same JSON twice. The model treats each completed arm as atomic: `OnePublishPending` and the `published` log describe completed publish arms only.
- In the newer `handle_mqtt`, a failed shutdown receive does not match `Ok(_)` and only disables that arm for one turn (`src/mqtt_handler.rs:68`). It is modelled as a turn in which no arm completes.
- The broadcast channels' capacity (32), lagging and fan-out to other sessions are not modelled. A bus receive is `Some(message)` or `None` for a failed receive.
- JSON serialisation and parsing, base64 decoding and `from_utf8_lossy` are parameters. Their own behaviour is not part of this model.
- The configuration is a map from the full key `evse_name.id_<HEX>` to the name. Loading it, and `src/cli.rs` with the `Cli` struct in `src/main.rs:454-468`, are not part of this model.
- Logging, the ctrl-c handler, the 10-second backoff duration and the 20-second keep-alive are not modelled. Only the `need_sleep` flag and a count of sleeps remain.
- Waiting for sessions before `main` exits does not exist in the source (`src/main.rs:107`). `AcceptLoop` reports how many sessions it spawned.
- Protocol.DecodeSnapshot: a panic reason carries the offending code, not the text of the panic message. The proximity panic's text prints the pilot-voltage byte (`src/protocol.rs:68`), which is not modelled.
- Protocol.FirmwareLengthField: the wrap-around of `len() as u32 + 4` is modelled, which is how a release build computes it; a debug build panics on that overflow instead. In either case a firmware image of 2^32 bytes or more cannot occur in practice. `EncodedLengthField` is stated only for frames whose length fits in 32 bits.
- The newer `handle_evse` and the older one in `src/main.rs:186-291` share `EvseSession.Step`, because the loops are identical. The older one differs only in its handshake, which is `Legacy.LegacyStart`.

## Findings

| source | as written | input that shows it | evidently intended | confidence | as-written member | corrected member |
|---|---|---|---|---|---|---|
| src/evse_handler.rs:87-88 | The payload buffer is `Vec::with_capacity(msg_length)`, whose length is 0, so `read_exact` reads no bytes. `evse_to_mqtt` always gets an empty payload, and every data-collection response panics on `payload[0]`. | Any 16-byte serial, firmware byte 1, then the frame [2,0,0,0,44] followed by a 44-byte snapshot. | Read exactly `msg_length` bytes (a buffer of length `msg_length`), so the snapshot is decoded and forwarded. | high (not executed) | `EvseSession.AsWrittenSnapshotPanics` | `EvseSession.IntendedSnapshotForwarded` |
| src/main.rs:257-258 | The same zero-length buffer in the older session. A payload-free response with a non-zero declared length leaves its payload in the socket, to be read as the next header. A snapshot panics. | The frame [1,0,0,0,2,7,7]: code 1 with a 2-byte payload. The bytes 7,7 are read as the start of the next header. | Consume the declared payload so that the next read starts at the next frame. | high (not executed) | `EvseSession.AsWrittenLeavesPayloadUnread` | `EvseSession.ReceiveFrame` |
