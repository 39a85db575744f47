/**
 * `handle_mqtt`: the broker side of the bridge. Five locals (`connected`, `subscribed`,
 * `need_reconnect`, `need_sleep`, `publish_msg`) decide which arms of a guarded `select!` may
 * run; each arm's outcome (connect, publish, subscribe ... succeeded or failed) is an input.
 */
module MqttUpstream {
  import opened Wrappers
  import opened Protocol

  /** `Running` while the loop turns; `Returned(ok)` once the function has returned `Ok` or `Err`. */
  datatype LoopStatus = Running | Returned(ok: bool)

  /**
   * The five locals and the loop status, with what an observer sees: how often the connect
   * and reconnect arms completed, how many backoff sleeps ran, the JSON published and the
   * messages forwarded to the device side.
   */
  datatype UpstreamState = UpstreamState(
    connected: bool,
    subscribed: bool,
    needReconnect: bool,
    needSleep: bool,
    publishMsg: Option<string>,
    status: LoopStatus,
    connectAttempts: nat,
    reconnectAttempts: nat,
    sleeps: nat,
    published: seq<string>,
    forwarded: seq<Message>)

  /** The locals as declared before the loop. */
  function Init(): (r: UpstreamState)
    ensures Valid(r) && r.status.Running? && !r.connected
    ensures r.published == [] && r.forwarded == []
  {
    UpstreamState(false, true, false, false, None, Running, 0, 0, 0, [], [])
  }

  /** `connected_ok`: connected, subscribed and not backing off. */
  predicate ConnectedOk(s: UpstreamState) {
    s.connected && !s.needReconnect && s.subscribed && !s.needSleep
  }

  /** What the broker's message stream yields: a message, end of stream, or an error. */
  datatype BrokerEvent = Delivered(payload: string) | StreamEnded | StreamError

  /**
   * One completed arm of the `select!`, with its outcome. `clientConnected` is what
   * `cli.is_connected()` answers; `disconnectOk` whether the disconnect after a failed
   * subscribe succeeded.
   */
  datatype Arm =
    | Connect(ok: bool)
    | Publish(ok: bool)
    | Sleep
    | Shutdown
    | Reconnect(ok: bool)
    | Subscribe(ok: bool, disconnectOk: bool)
    | BusReceive(received: Option<Message>)
    | BrokerReceive(event: BrokerEvent, clientConnected: bool)

  /** `serde_json::to_string` and `serde_json::from_str`, which are not part of this model. */
  datatype Codec = Codec(toJson: Message -> Option<string>, fromJson: string -> Option<Message>)

  /** The guard of each arm, in a loop that has not returned. */
  predicate Enabled(s: UpstreamState, arm: Arm) {
    s.status.Running? &&
    match arm
    case Connect(_) => !s.connected
    case Publish(_) => s.publishMsg.Some?
    case Sleep => s.needSleep
    case Shutdown => true
    case Reconnect(_) => s.needReconnect && !s.needSleep
    case Subscribe(_, _) => !s.subscribed
    case BusReceive(_) => ConnectedOk(s) && s.publishMsg.None?
    case BrokerReceive(_, _) => ConnectedOk(s)
  }

  /** The body of each arm. */
  function Step(s: UpstreamState, arm: Arm, codec: Codec): (t: UpstreamState)
    requires Enabled(s, arm)
    ensures t.connected <==> s.connected || arm.Connect?
    ensures t.status == Returned(true) <==> arm.Shutdown?
    ensures t.status == Returned(false) <==> arm == Subscribe(false, false)
    ensures s.published <= t.published && |t.published| <= |s.published| + 1
    ensures t.published != s.published ==> arm == Publish(true) && t.published == s.published + [s.publishMsg.value]
    ensures s.forwarded <= t.forwarded && |t.forwarded| <= |s.forwarded| + 1
    ensures t.forwarded != s.forwarded ==> arm.BrokerReceive? && arm.event.Delivered?
    ensures t.connectAttempts == s.connectAttempts + (if arm.Connect? then 1 else 0)
    ensures t.reconnectAttempts == s.reconnectAttempts + (if arm.Reconnect? then 1 else 0)
    ensures t.sleeps == s.sleeps + (if arm.Sleep? then 1 else 0)
  {
    match arm
    case Connect(ok) =>
      var tried := s.(connected := true, connectAttempts := s.connectAttempts + 1);
      if ok then tried.(subscribed := false) else tried.(needReconnect := true, needSleep := true)
    case Publish(ok) =>
      s.(publishMsg := None, published := if ok then s.published + [s.publishMsg.value] else s.published)
    case Sleep =>
      s.(needSleep := false, sleeps := s.sleeps + 1)
    case Shutdown =>
      s.(status := Returned(true))
    case Reconnect(ok) =>
      var tried := s.(reconnectAttempts := s.reconnectAttempts + 1);
      if ok then tried.(needReconnect := false, subscribed := false) else tried.(needSleep := true)
    case Subscribe(ok, disconnectOk) =>
      if ok then s.(subscribed := true)
      else s.(needReconnect := true, needSleep := true, status := if disconnectOk then Running else Returned(false))
    case BusReceive(received) =>
      if received.Some? && codec.toJson(received.value).Some? then s.(publishMsg := codec.toJson(received.value))
      else s
    case BrokerReceive(event, clientConnected) =>
      match event
      case Delivered(payload) =>
        if codec.fromJson(payload).Some? then s.(forwarded := s.forwarded + [codec.fromJson(payload).value])
        else s
      case _ =>
        if clientConnected then s else s.(needReconnect := true, needSleep := true)
  }

  /** The loop over the arms the `select!` completes; an arm whose guard is false is never polled. */
  function RunArms(s: UpstreamState, arms: seq<Arm>, codec: Codec): UpstreamState
    decreases |arms|
  {
    if arms == [] then s
    else RunArms(if Enabled(s, arms[0]) then Step(s, arms[0], codec) else s, arms[1..], codec)
  }

  /**
   * What holds in every state the loop reaches. Before the connect arm completes nothing has
   * happened; the connect arm completes at most once; a pending sleep always comes with a
   * pending reconnect; and each completed reconnect arm was preceded by its own backoff sleep.
   */
  predicate Valid(s: UpstreamState) {
    && (!s.connected ==>
          && s.subscribed && !s.needReconnect && !s.needSleep && s.publishMsg.None?
          && s.connectAttempts == 0 && s.reconnectAttempts == 0
          && s.published == [] && s.forwarded == [])
    && (s.connected ==> s.connectAttempts == 1)
    && (s.needSleep ==> s.needReconnect)
    && s.reconnectAttempts + (if s.needReconnect && !s.needSleep then 1 else 0) <= s.sleeps
  }

  // ---------------------------------------------------------------------------------------
  // Properties

  /**
   * While `connected_ok` holds none of the connection-repair arms can run, and the two
   * receive arms run only while it holds.
   */
  lemma ConnectedOkGuards(s: UpstreamState, arm: Arm)
    ensures ConnectedOk(s) && Enabled(s, arm) ==>
      !(arm.Connect? || arm.Sleep? || arm.Reconnect? || arm.Subscribe?)
    ensures (arm.BusReceive? || arm.BrokerReceive?) && Enabled(s, arm) ==> ConnectedOk(s)
    ensures s.status.Running? && ConnectedOk(s) && arm.BrokerReceive? ==> Enabled(s, arm)
  {
  }

  /** At the start only the connect and shutdown arms can run. */
  lemma InitialArms(arm: Arm)
    ensures Valid(Init())
    ensures Enabled(Init(), arm) <==> arm.Connect? || arm.Shutdown?
  {
  }

  /** Every arm keeps the invariant; `connected` is never reset and the logs only grow. */
  lemma StepValid(s: UpstreamState, arm: Arm, codec: Codec)
    requires Valid(s) && Enabled(s, arm)
    ensures var t := Step(s, arm, codec);
      && Valid(t)
      && (s.connected ==> t.connected)
      && s.published <= t.published && s.forwarded <= t.forwarded
  {
  }

  /** Once the function has returned, nothing runs again. */
  lemma {:induction false} RunReturned(s: UpstreamState, arms: seq<Arm>, codec: Codec)
    requires !s.status.Running?
    ensures RunArms(s, arms, codec) == s
    decreases |arms|
  {
    if arms != [] {
      assert !Enabled(s, arms[0]);
      RunReturned(s, arms[1..], codec);
    }
  }

  /** The invariant holds along every run, `connected` stays set, and the logs only grow. */
  lemma {:induction false} RunValid(s: UpstreamState, arms: seq<Arm>, codec: Codec)
    requires Valid(s)
    ensures var t := RunArms(s, arms, codec);
      && Valid(t)
      && (s.connected ==> t.connected)
      && s.published <= t.published && s.forwarded <= t.forwarded
      && (!s.status.Running? ==> t == s)
    decreases |arms|
  {
    if arms != [] {
      var next := if Enabled(s, arms[0]) then Step(s, arms[0], codec) else s;
      if Enabled(s, arms[0]) {
        StepValid(s, arms[0], codec);
      }
      RunValid(next, arms[1..], codec);
      if !s.status.Running? {
        RunReturned(s, arms, codec);
      }
    }
  }

  /**
   * From the start of `handle_mqtt`: the connect arm completes at most once, later connections
   * go through the reconnect arm, that arm never completes more often than the backoff sleep,
   * and nothing is published or forwarded before the connect arm completes.
   */
  lemma UpstreamGuarantees(arms: seq<Arm>, codec: Codec)
    ensures var t := RunArms(Init(), arms, codec);
      && t.connectAttempts <= 1
      && t.reconnectAttempts <= t.sleeps
      && (t.needSleep ==> t.needReconnect)
      && (!t.connected ==> t.published == [] && t.forwarded == [] && t.reconnectAttempts == 0)
  {
    RunValid(Init(), arms, codec);
  }

  /**
   * The `else => break` arm is never taken: in every running state some arm other than
   * shutdown is enabled.
   */
  function EnabledArm(s: UpstreamState): (arm: Arm)
    requires s.status.Running?
    ensures Enabled(s, arm) && !arm.Shutdown?
  {
    if !s.connected then Connect(true)
    else if s.needSleep then Sleep
    else if s.needReconnect then Reconnect(true)
    else if !s.subscribed then Subscribe(true, true)
    else if s.publishMsg.Some? then Publish(true)
    else BusReceive(None)
  }

  /** Shutdown can end the loop from any running state, and after it no arm runs. */
  lemma ShutdownFromAnyState(s: UpstreamState, codec: Codec, arm: Arm)
    requires s.status.Running?
    ensures Enabled(s, Shutdown)
    ensures Step(s, Shutdown, codec) == s.(status := Returned(true))
    ensures !Enabled(Step(s, Shutdown, codec), arm)
  {
  }

  /**
   * A bus message is taken only when no publish is pending; once it is serialised, the bus is
   * not read again until the publish arm has run, which clears the pending message whether
   * the publish succeeded or failed.
   */
  lemma OnePublishPending(s: UpstreamState, m: Message, codec: Codec, r: Option<Message>, ok: bool)
    requires Enabled(s, BusReceive(Some(m))) && codec.toJson(m).Some?
    ensures var t := Step(s, BusReceive(Some(m)), codec);
      && t.publishMsg == codec.toJson(m)
      && !Enabled(t, BusReceive(r))
      && Enabled(t, Publish(ok))
      && Step(t, Publish(ok), codec).publishMsg.None?
      && Step(t, Publish(ok), codec).published == if ok then s.published + [codec.toJson(m).value] else s.published
  {
  }

  /** A bus message that cannot be serialised, or a failed bus receive, changes nothing. */
  lemma UnserialisableDropped(s: UpstreamState, r: Option<Message>, codec: Codec)
    requires Enabled(s, BusReceive(r))
    requires r.None? || codec.toJson(r.value).None?
    ensures Step(s, BusReceive(r), codec) == s
  {
  }

  /**
   * A broker message that does not parse is dropped with no state change; one that parses
   * is forwarded. End of stream or a stream error starts a backoff only if the client says
   * it is no longer connected. That backoff disables both receive arms, which come back only
   * after a successful reconnect and a successful resubscribe; a publish already pending can
   * still run (see `PublishDuringBackoff`).
   */
  lemma BrokerReceiveEffects(s: UpstreamState, e: BrokerEvent, clientConnected: bool, codec: Codec)
    requires Enabled(s, BrokerReceive(e, clientConnected))
    ensures var t := Step(s, BrokerReceive(e, clientConnected), codec);
      && (e.Delivered? && codec.fromJson(e.payload).None? ==> t == s)
      && (e.Delivered? && codec.fromJson(e.payload).Some? ==>
            t == s.(forwarded := s.forwarded + [codec.fromJson(e.payload).value]))
      && (!e.Delivered? && clientConnected ==> t == s)
      && (!e.Delivered? && !clientConnected ==>
            !ConnectedOk(t) && Enabled(t, Sleep) && !Enabled(t, Reconnect(true)))
  {
  }

  /**
   * Subscribe stays enabled during a backoff: after a successful connect and a failed
   * subscribe, the loop is waiting to sleep and may already retry the subscription.
   */
  lemma SubscribeDuringBackoff(codec: Codec)
    ensures var t := RunArms(Init(), [Connect(true), Subscribe(false, true)], codec);
      t.needSleep && t.needReconnect && Enabled(t, Subscribe(true, true)) && Enabled(t, Sleep)
  {
    var s1 := Step(Init(), Connect(true), codec);
    assert RunArms(Init(), [Connect(true), Subscribe(false, true)], codec)
        == RunArms(s1, [Subscribe(false, true)], codec);
  }

  /**
   * A publish stays enabled during a backoff: a message serialised just before the broker
   * stream ends is still published while the loop waits to sleep, and the sleep alone does
   * not bring the receive arms back.
   */
  lemma PublishDuringBackoff(m: Message, codec: Codec)
    requires codec.toJson(m).Some?
    ensures var t := RunArms(Init(), [Connect(true), Subscribe(true, true), BusReceive(Some(m)),
                                      BrokerReceive(StreamEnded, false)], codec);
      && t.needSleep && t.needReconnect && !ConnectedOk(t)
      && Enabled(t, Publish(true))
      && Step(t, Publish(true), codec).published == t.published + [codec.toJson(m).value]
      && Enabled(t, Sleep) && !ConnectedOk(Step(t, Sleep, codec))
  {
    var arms := [Connect(true), Subscribe(true, true), BusReceive(Some(m)), BrokerReceive(StreamEnded, false)];
    var s1 := Step(Init(), Connect(true), codec);
    var s2 := Step(s1, Subscribe(true, true), codec);
    var s3 := Step(s2, BusReceive(Some(m)), codec);
    var s4 := Step(s3, BrokerReceive(StreamEnded, false), codec);
    assert RunArms(Init(), arms, codec) == RunArms(s1, arms[1..], codec);
    assert RunArms(s1, arms[1..], codec) == RunArms(s2, arms[2..], codec);
    assert RunArms(s2, arms[2..], codec) == RunArms(s3, arms[3..], codec);
    assert RunArms(s3, arms[3..], codec) == RunArms(s4, [], codec);
  }

  /**
   * The locals of `handle_mqtt` and one method per arm: each method requires its arm's
   * guard and performs that arm's body.
   */
  class UpstreamLoop {
    var connected: bool
    var subscribed: bool
    var needReconnect: bool
    var needSleep: bool
    var publishMsg: Option<string>
    var status: LoopStatus
    // What an observer sees of the run.
    var connectAttempts: nat
    var reconnectAttempts: nat
    var sleeps: nat
    var published: seq<string>
    var forwarded: seq<Message>
    const codec: Codec

    function State(): UpstreamState
      reads this
    {
      UpstreamState(connected, subscribed, needReconnect, needSleep, publishMsg, status,
                    connectAttempts, reconnectAttempts, sleeps, published, forwarded)
    }

    constructor (codec: Codec)
      ensures State() == Init() && this.codec == codec
    {
      connected := false;
      subscribed := true;
      needReconnect := false;
      needSleep := false;
      publishMsg := None;
      status := Running;
      connectAttempts, reconnectAttempts, sleeps := 0, 0, 0;
      published, forwarded := [], [];
      this.codec := codec;
    }

    method OnConnect(ok: bool)
      requires Enabled(State(), Arm.Connect(ok))
      modifies this
      ensures State() == Step(old(State()), Arm.Connect(ok), codec)
    {
      connectAttempts := connectAttempts + 1;
      if ok {
        connected := true;
        subscribed := false;
      } else {
        connected := true;
        needReconnect := true;
        needSleep := true;
      }
    }

    method OnPublish(ok: bool)
      requires Enabled(State(), Arm.Publish(ok))
      modifies this
      ensures State() == Step(old(State()), Arm.Publish(ok), codec)
    {
      if ok {
        published := published + [publishMsg.value];
      }
      publishMsg := None;
    }

    method OnSleep()
      requires Enabled(State(), Arm.Sleep)
      modifies this
      ensures State() == Step(old(State()), Arm.Sleep, codec)
    {
      sleeps := sleeps + 1;
      needSleep := false;
    }

    method OnShutdown()
      requires Enabled(State(), Arm.Shutdown)
      modifies this
      ensures State() == Step(old(State()), Arm.Shutdown, codec)
    {
      status := Returned(true);
    }

    method OnReconnect(ok: bool)
      requires Enabled(State(), Arm.Reconnect(ok))
      modifies this
      ensures State() == Step(old(State()), Arm.Reconnect(ok), codec)
    {
      reconnectAttempts := reconnectAttempts + 1;
      if ok {
        needReconnect := false;
        subscribed := false;
      } else {
        needSleep := true;
      }
    }

    method OnSubscribe(ok: bool, disconnectOk: bool)
      requires Enabled(State(), Arm.Subscribe(ok, disconnectOk))
      modifies this
      ensures State() == Step(old(State()), Arm.Subscribe(ok, disconnectOk), codec)
    {
      if ok {
        subscribed := true;
      } else {
        needReconnect := true;
        needSleep := true;
        if !disconnectOk {
          status := Returned(false);
        }
      }
    }

    method OnBusReceive(received: Option<Message>)
      requires Enabled(State(), Arm.BusReceive(received))
      modifies this
      ensures State() == Step(old(State()), Arm.BusReceive(received), codec)
    {
      if received.Some? {
        var json := codec.toJson(received.value);
        if json.Some? {
          publishMsg := json;
        }
      }
    }

    method OnBrokerReceive(event: BrokerEvent, clientConnected: bool)
      requires Enabled(State(), Arm.BrokerReceive(event, clientConnected))
      modifies this
      ensures State() == Step(old(State()), Arm.BrokerReceive(event, clientConnected), codec)
    {
      match event {
        case Delivered(payload) =>
          var parsed := codec.fromJson(payload);
          if parsed.Some? {
            forwarded := forwarded + [parsed.value];
          }
        case StreamEnded =>
          if !clientConnected {
            needReconnect := true;
            needSleep := true;
          }
        case StreamError =>
          if !clientConnected {
            needReconnect := true;
            needSleep := true;
          }
      }
    }
  }

  /**
   * `handle_mqtt`: create the client (`createOk`), then run the loop over the arms the
   * `select!` completes until one of them returns. `handled` is the number of arms consumed.
   */
  method HandleMqtt(createOk: bool, codec: Codec, arms: seq<Arm>)
    returns (result: LoopStatus, last: UpstreamState, handled: nat)
    ensures !createOk ==> result == Returned(false) && handled == 0
    ensures createOk ==>
      && handled <= |arms|
      && last == RunArms(Init(), arms[..handled], codec)
      && last == RunArms(Init(), arms, codec)
      && result == last.status
      && (handled < |arms| ==> !result.Running?)
  {
    handled := 0;
    if !createOk {
      return Returned(false), Init(), 0;
    }
    var up := new UpstreamLoop(codec);
    while handled < |arms| && up.status.Running?
      invariant handled <= |arms|
      invariant up.codec == codec
      invariant up.State() == RunArms(Init(), arms[..handled], codec)
      decreases |arms| - handled
    {
      var arm := arms[handled];
      if Enabled(up.State(), arm) {
        match arm {
          case Connect(ok) => up.OnConnect(ok);
          case Publish(ok) => up.OnPublish(ok);
          case Sleep => up.OnSleep();
          case Shutdown => up.OnShutdown();
          case Reconnect(ok) => up.OnReconnect(ok);
          case Subscribe(ok, disconnectOk) => up.OnSubscribe(ok, disconnectOk);
          case BusReceive(received) => up.OnBusReceive(received);
          case BrokerReceive(event, clientConnected) => up.OnBrokerReceive(event, clientConnected);
        }
      }
      RunAppendArm(Init(), arms[..handled], arm, codec);
      assert arms[..handled + 1] == arms[..handled] + [arm];
      handled := handled + 1;
    }
    last := up.State();
    result := up.status;
    assert arms == arms[..handled] + arms[handled..];
    RunAppend(Init(), arms[..handled], arms[handled..], codec);
    if handled < |arms| {
      RunReturned(last, arms[handled..], codec);
    }
  }

  /** Running two batches of arms one after the other is running them together. */
  lemma {:induction false} RunAppend(s: UpstreamState, a: seq<Arm>, b: seq<Arm>, codec: Codec)
    ensures RunArms(s, a + b, codec) == RunArms(RunArms(s, a, codec), b, codec)
    decreases |a|
  {
    if a != [] {
      assert (a + b)[1..] == a[1..] + b;
      RunAppend(if Enabled(s, a[0]) then Step(s, a[0], codec) else s, a[1..], b, codec);
    } else {
      assert a + b == b;
    }
  }

  /** One more arm at the end of a run. */
  lemma RunAppendArm(s: UpstreamState, a: seq<Arm>, arm: Arm, codec: Codec)
    ensures var t := RunArms(s, a, codec);
      RunArms(s, a + [arm], codec) == if Enabled(t, arm) then Step(t, arm, codec) else t
  {
    RunAppend(s, a, [arm], codec);
  }
}
