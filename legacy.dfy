/**
 * The older control code in `main.rs`: its session handshake (no name lookup), its broker
 * loop (connect once, panic on most failures) and the accept loop of `main`.
 */
module Legacy {
  import opened Wrappers
  import opened Bytes
  import opened Protocol
  import Utils
  import EvseSession
  import MqttUpstream

  // ---------------------------------------------------------------------------------------
  // The older device session

  /**
   * The older handshake: the client id is always the hex serial. The loop that follows is
   * the same as `EvseSession.Step`, which does not consult the configuration.
   */
  function LegacyStart(stream: seq<Byte>, env: EvseSession.Env, sendOk: bool): (s: EvseSession.Session)
    ensures |stream| > EvseSession.SERIAL_LENGTH ==> s.clientId == Utils.Hex(stream[..EvseSession.SERIAL_LENGTH])
    ensures s.status.Active? <==> |stream| > EvseSession.SERIAL_LENGTH && sendOk
    ensures s.status.Active? ==> s.sent == [EvseSession.NewConnectionMessage(s.clientId, s.firmwareVersion)]
  {
    EvseSession.Start(stream, env.(config := map[]), sendOk)
  }

  /**
   * The older session names a device by its serial in hex, which reads back as the serial;
   * it behaves as the newer one does for a device without a configured name.
   */
  lemma LegacyClientIdIsSerial(stream: seq<Byte>, env: EvseSession.Env, sendOk: bool)
    requires |stream| > EvseSession.SERIAL_LENGTH
    ensures var s := LegacyStart(stream, env, sendOk);
      && Utils.IsHexString(s.clientId)
      && Utils.ParseHex(s.clientId) == stream[..EvseSession.SERIAL_LENGTH]
    ensures EvseSession.NAME_KEY_PREFIX + Utils.Hex(stream[..EvseSession.SERIAL_LENGTH]) !in env.config ==>
      LegacyStart(stream, env, sendOk) == EvseSession.Start(stream, env, sendOk)
  {
    EvseSession.HandshakeReadsSerialAndVersion(stream, env.(config := map[]), sendOk);
  }

  // ---------------------------------------------------------------------------------------
  // The older broker loop

  /** `Looping` inside the loop; `Returned` after a `return` or `break`; `Crashed` after a panic. */
  datatype LegacyStatus = Looping | Returned | Crashed(reason: Panic)

  /**
   * The older `handle_mqtt`'s state: whether it broadcast a shutdown, the JSON it published
   * and the messages it forwarded to the device side.
   */
  datatype LegacyUpstream = LegacyUpstream(
    status: LegacyStatus,
    shutdownBroadcast: bool,
    published: seq<string>,
    forwarded: seq<Message>)

  /** One completed arm of the older `select!`, with its outcome. */
  datatype LegacyArm =
    | Stop(signalOk: bool)
    | FromDevices(received: Option<Message>, publishOk: bool)
    | FromBroker(event: MqttUpstream.BrokerEvent, forwardOk: bool)

  /**
   * Before the loop: create the client (`expect`), connect once (on failure broadcast a
   * shutdown and return), subscribe (`unwrap`).
   */
  function LegacyMqttStart(createOk: bool, connectOk: bool, shutdownSendOk: bool, subscribeOk: bool): (s: LegacyUpstream)
    ensures s.published == [] && s.forwarded == []
    ensures s.status.Looping? <==> createOk && connectOk && subscribeOk
    ensures s.shutdownBroadcast <==> createOk && !connectOk && shutdownSendOk
    ensures s.status == Returned <==> s.shutdownBroadcast
    ensures !createOk || (connectOk && !subscribeOk) ==> s.status == Crashed(UpstreamFailed)
    ensures createOk && !connectOk && !shutdownSendOk ==> s.status == Crashed(ChannelFailed)
  {
    var initial := LegacyUpstream(Looping, false, [], []);
    if !createOk then initial.(status := Crashed(UpstreamFailed))
    else if !connectOk then
      (if shutdownSendOk then initial.(status := Returned, shutdownBroadcast := true)
       else initial.(status := Crashed(ChannelFailed)))
    else if !subscribeOk then initial.(status := Crashed(UpstreamFailed))
    else initial
  }

  /** One turn of the older loop; after it has ended nothing changes. */
  function LegacyMqttStep(s: LegacyUpstream, arm: LegacyArm, codec: MqttUpstream.Codec): (t: LegacyUpstream)
    ensures !s.status.Looping? ==> t == s
    ensures t.shutdownBroadcast == s.shutdownBroadcast
    ensures s.published <= t.published && |t.published| <= |s.published| + 1
    ensures s.forwarded <= t.forwarded && |t.forwarded| <= |s.forwarded| + 1
    ensures t.published != s.published ==> arm.FromDevices? && arm.publishOk && t.status.Looping?
    ensures t.forwarded != s.forwarded ==> arm.FromBroker? && arm.forwardOk && t.status.Looping?
    ensures s.status.Looping? && t.status == Returned <==> s.status.Looping? && arm == Stop(true)
  {
    if !s.status.Looping? then s
    else
      match arm
      case Stop(signalOk) =>
        s.(status := if signalOk then Returned else Crashed(ChannelFailed))
      case FromDevices(received, publishOk) =>
        if received.None? then s.(status := Crashed(ChannelFailed))
        else
          (match codec.toJson(received.value)
           case None => s.(status := Crashed(JsonFailed))
           case Some(json) =>
             if publishOk then s.(published := s.published + [json]) else s.(status := Crashed(UpstreamFailed)))
      case FromBroker(event, forwardOk) =>
        match event
        case Delivered(payload) =>
          (match codec.fromJson(payload)
           case None => s
           case Some(msg) =>
             if forwardOk then s.(forwarded := s.forwarded + [msg]) else s.(status := Crashed(ChannelFailed)))
        case StreamEnded => s
        case StreamError => s.(status := Crashed(UpstreamFailed))
  }

  function LegacyMqttRun(s: LegacyUpstream, arms: seq<LegacyArm>, codec: MqttUpstream.Codec): LegacyUpstream
    decreases |arms|
  {
    if arms == [] then s else LegacyMqttRun(LegacyMqttStep(s, arms[0], codec), arms[1..], codec)
  }

  /** Once the older loop has ended, later arms change nothing. */
  lemma {:induction false} LegacyMqttRunEnded(s: LegacyUpstream, arms: seq<LegacyArm>, codec: MqttUpstream.Codec)
    requires !s.status.Looping?
    ensures LegacyMqttRun(s, arms, codec) == s
    decreases |arms|
  {
    if arms != [] {
      LegacyMqttRunEnded(LegacyMqttStep(s, arms[0], codec), arms[1..], codec);
    }
  }

  lemma {:induction false} LegacyMqttRunAppend(
    s: LegacyUpstream, a: seq<LegacyArm>, b: seq<LegacyArm>, codec: MqttUpstream.Codec)
    ensures LegacyMqttRun(s, a + b, codec) == LegacyMqttRun(LegacyMqttRun(s, a, codec), b, codec)
    decreases |a|
  {
    if a != [] {
      assert (a + b)[1..] == a[1..] + b;
      LegacyMqttRunAppend(LegacyMqttStep(s, a[0], codec), a[1..], b, codec);
    } else {
      assert a + b == b;
    }
  }

  /**
   * A failed connect is never retried: the function broadcasts a shutdown (or panics if
   * that send fails) and returns with nothing published or forwarded, whatever comes next.
   */
  lemma ConnectFailureShutsDown(shutdownSendOk: bool, subscribeOk: bool, arms: seq<LegacyArm>, codec: MqttUpstream.Codec)
    ensures var t := LegacyMqttRun(LegacyMqttStart(true, false, shutdownSendOk, subscribeOk), arms, codec);
      && t.shutdownBroadcast == shutdownSendOk
      && t.status == (if shutdownSendOk then Returned else Crashed(ChannelFailed))
      && t.published == [] && t.forwarded == []
  {
    LegacyMqttRunEnded(LegacyMqttStart(true, false, shutdownSendOk, subscribeOk), arms, codec);
  }

  /**
   * Which arms end the older loop: a shutdown always does, a device message only on failure,
   * a broker message only if forwarding fails, and a stream error by a panic. The end of the
   * broker stream is ignored: there is no reconnect.
   */
  lemma LegacyLoopExit(s: LegacyUpstream, arm: LegacyArm, codec: MqttUpstream.Codec)
    requires s.status.Looping?
    ensures LegacyMqttStep(s, arm, codec).status.Looping? <==>
      match arm
      case Stop(_) => false
      case FromDevices(received, publishOk) =>
        received.Some? && codec.toJson(received.value).Some? && publishOk
      case FromBroker(event, forwardOk) =>
        event.StreamEnded? || (event.Delivered? && (codec.fromJson(event.payload).None? || forwardOk))
    ensures arm.FromBroker? && arm.event.StreamEnded? ==> LegacyMqttStep(s, arm, codec) == s
    ensures arm.FromBroker? && arm.event.StreamError? ==> LegacyMqttStep(s, arm, codec).status == Crashed(UpstreamFailed)
  {
  }

  /**
   * A device message that cannot be serialised crashes the older loop, where the newer loop
   * drops it and carries on.
   */
  lemma UnserialisableCrashesLegacyOnly(
    s: LegacyUpstream, u: MqttUpstream.UpstreamState, m: Message, publishOk: bool, codec: MqttUpstream.Codec)
    requires s.status.Looping? && MqttUpstream.Enabled(u, MqttUpstream.BusReceive(Some(m)))
    requires codec.toJson(m).None?
    ensures LegacyMqttStep(s, FromDevices(Some(m), publishOk), codec).status == Crashed(JsonFailed)
    ensures MqttUpstream.Step(u, MqttUpstream.BusReceive(Some(m)), codec) == u
  {
  }

  /**
   * The older `handle_mqtt`: the set-up before the loop, then the loop until an arm ends it.
   * `handled` is the number of arms the loop consumed.
   */
  method LegacyHandleMqtt(
    createOk: bool, connectOk: bool, shutdownSendOk: bool, subscribeOk: bool,
    codec: MqttUpstream.Codec, arms: seq<LegacyArm>)
    returns (s: LegacyUpstream, handled: nat)
    ensures handled <= |arms|
    ensures s == LegacyMqttRun(LegacyMqttStart(createOk, connectOk, shutdownSendOk, subscribeOk), arms[..handled], codec)
    ensures s == LegacyMqttRun(LegacyMqttStart(createOk, connectOk, shutdownSendOk, subscribeOk), arms, codec)
    ensures handled < |arms| ==> !s.status.Looping?
    ensures !(createOk && connectOk && subscribeOk) ==> handled == 0
  {
    handled := 0;
    ghost var start := LegacyMqttStart(createOk, connectOk, shutdownSendOk, subscribeOk);
    if !createOk {
      s := LegacyUpstream(Crashed(UpstreamFailed), false, [], []);
      LegacyMqttRunEnded(s, arms, codec);
      return;
    }
    if !connectOk {
      if shutdownSendOk {
        s := LegacyUpstream(Returned, true, [], []);
      } else {
        s := LegacyUpstream(Crashed(ChannelFailed), false, [], []);
      }
      LegacyMqttRunEnded(s, arms, codec);
      return;
    }
    if !subscribeOk {
      s := LegacyUpstream(Crashed(UpstreamFailed), false, [], []);
      LegacyMqttRunEnded(s, arms, codec);
      return;
    }
    s := LegacyUpstream(Looping, false, [], []);
    while handled < |arms|
      invariant handled <= |arms|
      invariant s.status.Looping?
      invariant s == LegacyMqttRun(start, arms[..handled], codec)
      decreases |arms| - handled
    {
      var arm := arms[handled];
      ghost var before := s;
      match arm {
        case Stop(signalOk) =>
          s := s.(status := if signalOk then Returned else Crashed(ChannelFailed));
        case FromDevices(received, publishOk) =>
          if received.None? {
            s := s.(status := Crashed(ChannelFailed));
          } else {
            var json := codec.toJson(received.value);
            if json.None? {
              s := s.(status := Crashed(JsonFailed));
            } else if publishOk {
              s := s.(published := s.published + [json.value]);
            } else {
              s := s.(status := Crashed(UpstreamFailed));
            }
          }
        case FromBroker(event, forwardOk) =>
          match event {
            case Delivered(payload) =>
              var parsed := codec.fromJson(payload);
              if parsed.Some? {
                if forwardOk {
                  s := s.(forwarded := s.forwarded + [parsed.value]);
                } else {
                  s := s.(status := Crashed(ChannelFailed));
                }
              }
            case StreamEnded =>
            case StreamError =>
              s := s.(status := Crashed(UpstreamFailed));
          }
      }
      assert s == LegacyMqttStep(before, arm, codec);
      assert arms[..handled + 1] == arms[..handled] + [arm];
      LegacyMqttRunAppend(start, arms[..handled], [arm], codec);
      handled := handled + 1;
      if !s.status.Looping? {
        break;
      }
    }
    assert arms == arms[..handled] + arms[handled..];
    LegacyMqttRunAppend(start, arms[..handled], arms[handled..], codec);
    if !s.status.Looping? {
      LegacyMqttRunEnded(s, arms[handled..], codec);
    }
  }

  // ---------------------------------------------------------------------------------------
  // The accept loop of `main`

  /** One completed arm of `main`'s `select!`: an accepted connection, or a shutdown signal. */
  datatype MainArm = Incoming(acceptOk: bool) | ShutdownRequest(signalOk: bool)

  /** How `main`'s loop ended: still accepting, left by `break`, or by a panic in `unwrap`. */
  datatype MainStatus = Accepting | Exited | Failed(reason: Panic)

  /** The number of sessions spawned for a run of accepted connections. */
  function Accepted(arms: seq<MainArm>): (n: nat)
    ensures n <= |arms|
  {
    if arms == [] then 0 else Accepted(arms[..|arms| - 1]) + (if arms[|arms| - 1] == Incoming(true) then 1 else 0)
  }

  /**
   * `main`'s accept loop: every accepted connection spawns a session; the loop ends at the
   * first shutdown signal (or the first failed `unwrap`), and `main` then returns at once,
   * without waiting for the `spawned` sessions.
   */
  method AcceptLoop(arms: seq<MainArm>) returns (status: MainStatus, spawned: nat, handled: nat)
    ensures handled <= |arms|
    ensures forall k :: 0 <= k < handled - 1 ==> arms[k] == Incoming(true)
    ensures status.Accepting? <==> handled == |arms| && (forall k :: 0 <= k < |arms| ==> arms[k] == Incoming(true))
    ensures status == Exited <==> handled > 0 && arms[handled - 1] == ShutdownRequest(true)
    ensures status == Failed(AcceptFailed) <==> handled > 0 && arms[handled - 1] == Incoming(false)
    ensures status == Failed(ChannelFailed) <==> handled > 0 && arms[handled - 1] == ShutdownRequest(false)
    ensures status.Failed? ==> status.reason in {AcceptFailed, ChannelFailed}
    ensures spawned == Accepted(arms[..handled])
  {
    status, spawned, handled := Accepting, 0, 0;
    while handled < |arms|
      invariant handled <= |arms|
      invariant status.Accepting?
      invariant forall k :: 0 <= k < handled ==> arms[k] == Incoming(true)
      invariant spawned == Accepted(arms[..handled])
      decreases |arms| - handled
    {
      var arm := arms[handled];
      assert arms[..handled + 1][..handled] == arms[..handled];
      match arm {
        case Incoming(acceptOk) =>
          if acceptOk {
            spawned := spawned + 1;
          } else {
            status := Failed(AcceptFailed);
          }
        case ShutdownRequest(signalOk) =>
          status := if signalOk then Exited else Failed(ChannelFailed);
      }
      handled := handled + 1;
      if !status.Accepting? {
        break;
      }
    }
  }
}
