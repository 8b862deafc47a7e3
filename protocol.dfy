/**
 * The link-layer protocol as pure transitions of the process state that the
 * handlers share: the outbound frame queue, the ACK queue and the sequence counter.
 * Each transition is one handler of the gateway or client role; the lemmas state
 * what the handlers promise.
 */
module Protocol {
  import opened Wrappers
  import opened Codec

  /** An upstream IP address from the device table. */
  type Addr = string

  datatype Mode = Gateway | Client

  /** Outcome of the upstream socket round-trip: the bytes received, or any exception. */
  datatype Reply = Response(bytes: seq<Byte>) | Unreachable

  /** The upstream network: what a connection to an address returns for the bytes sent. */
  type Relay = (Addr, seq<Byte>) -> Reply

  /** The process-wide settings fixed at startup. */
  datatype Config = Config(mode: Mode, deviceId: int, deviceIpMap: map<int, Addr>, retries: int)

  /** The shared mutable state: `packet_queue`, `ack_queue` and `seq_num`. */
  datatype State = State(packetQueue: seq<seq<Byte>>, ackQueue: seq<Byte>, seqNum: nat)

  const Initial: State := State([], [], 0)

  /** Result of one logical send: whether an ACK matched, and how many times the frame was queued. */
  datatype Delivery = Delivery(acked: bool, attempts: nat)

  /** Result of one TAP packet in the client loop: the new state and whether it was acknowledged. */
  datatype ClientStep = ClientStep(st: State, delivered: bool)

  /** Result of the client loop over a series of TAP packets; `error` is the exception that ended it. */
  datatype ClientRun = ClientRun(st: State, delivered: seq<bool>, error: Option<EncodeError>)

  /** `n` copies of `x`. */
  function Repeat<T>(x: T, n: nat): (r: seq<T>)
    ensures |r| == n && forall i :: 0 <= i < n ==> r[i] == x
  {
    if n == 0 then [] else Repeat(x, n - 1) + [x]
  }

  // ---------------------------------------------------------------- handlers

  /** `handle_client_rx`: queue the sequence number of an ACK addressed to this device. */
  function ClientRx(cfg: Config, st: State, f: Frame): (st': State)
    ensures st'.packetQueue == st.packetQueue && st'.seqNum == st.seqNum
    ensures |st'.ackQueue| >= |st.ackQueue| && st'.ackQueue[..|st.ackQueue|] == st.ackQueue
    ensures |st'.ackQueue| == |st.ackQueue| + 1 <==> f.deviceId == cfg.deviceId && f.packetType == ACK
    ensures |st'.ackQueue| == |st.ackQueue| + 1 ==> st'.ackQueue[|st.ackQueue|] == f.sequenceNum
    ensures !(f.deviceId == cfg.deviceId && f.packetType == ACK) ==> st' == st
  {
    if f.deviceId == cfg.deviceId && f.packetType == ACK then
      st.(ackQueue := st.ackQueue + [f.sequenceNum])
    else
      st
  }

  /**
   * The state change of `forward_packet_to_internet` once the upstream round-trip
   * has produced `reply`: wrap the response into a RESPONSE frame numbered by the
   * counter, then bump the counter. Any exception, including a response that
   * cannot be encoded, leaves everything as it was.
   */
  function Forward(cfg: Config, st: State, reply: Reply): (st': State)
    ensures st'.ackQueue == st.ackQueue
    ensures |st'.packetQueue| >= |st.packetQueue| && st'.packetQueue[..|st.packetQueue|] == st.packetQueue
  {
    match reply
    case Unreachable => st
    case Response(bytes) =>
      match Encapsulate(cfg.deviceId, RESPONSE, st.seqNum, bytes)
      case Failure(_) => st
      case Success(frame) => st.(packetQueue := st.packetQueue + [frame], seqNum := st.seqNum + 1)
  }

  /**
   * `handle_gateway_rx`: for a DATA frame, queue an ACK stamped with the gateway's
   * own id and the frame's sequence number, then forward the payload if the sender
   * is in the device table. Other frame types are ignored. An ACK that cannot be
   * encoded raises out of the handler.
   */
  function GatewayRx(cfg: Config, st: State, f: Frame, relay: Relay): (r: Result<State, EncodeError>)
    ensures f.packetType != DATA ==> r == Success(st)
    ensures r.Success? ==> r.value.ackQueue == st.ackQueue
  {
    if f.packetType != DATA then
      Success(st)
    else
      match Encapsulate(cfg.deviceId, ACK, f.sequenceNum, [])
      case Failure(e) => Failure(e)
      case Success(ack) =>
        var acked := st.(packetQueue := st.packetQueue + [ack]);
        if f.deviceId in cfg.deviceIpMap then
          Success(Forward(cfg, acked, relay(cfg.deviceIpMap[f.deviceId], f.data)))
        else
          Success(acked)
  }

  /** `on_rx_done` without an encryption key: decode, then dispatch on the role. */
  function OnRxDone(cfg: Config, st: State, buf: seq<Byte>, relay: Relay): (r: Result<State, EncodeError>)
    ensures |buf| < HeaderSize ==> r == Success(st)
  {
    match Decode(buf)
    case None => Success(st)
    case Some(f) =>
      match cfg.mode
      case Gateway => GatewayRx(cfg, st, f, relay)
      case Client => Success(ClientRx(cfg, st, f))
  }

  /**
   * `send_with_ack` as a function of the waits' outcomes: each attempt queues the
   * frame once and consumes one outcome of `ack_queue.get` (None is a timeout);
   * the first outcome equal to `sequenceNum` ends the send with success.
   */
  function Deliver(retries: int, sequenceNum: int, replies: seq<Option<int>>): (d: Delivery)
    requires |replies| >= retries
    ensures d.attempts <= Max(retries, 0)
    ensures retries > 0 ==> d.attempts >= 1
    ensures d.acked ==> d.attempts >= 1
    decreases |replies|
  {
    if retries <= 0 then
      Delivery(false, 0)
    else if replies[0] == Some(sequenceNum) then
      Delivery(true, 1)
    else
      var rest := Deliver(retries - 1, sequenceNum, replies[1..]);
      Delivery(rest.acked, rest.attempts + 1)
  }

  /**
   * One pass of the `client_mode` loop body for a TAP packet: encode it as DATA with
   * the current counter, deliver it, and advance the counter whatever the outcome.
   * An encoding failure raises out of the loop before anything is queued.
   */
  function ClientPacket(cfg: Config, st: State, packet: seq<Byte>, replies: seq<Option<int>>): (r: Result<ClientStep, EncodeError>)
    requires |replies| >= cfg.retries
    ensures r.Success? <==> |packet| <= MaxPayload && IsByte(cfg.deviceId) && st.seqNum < 256
    ensures r.Success? ==> r.value.st.seqNum == st.seqNum + 1
  {
    match Encapsulate(cfg.deviceId, DATA, st.seqNum, packet)
    case Failure(e) => Failure(e)
    case Success(frame) =>
      var d := Deliver(cfg.retries, st.seqNum, replies);
      Success(ClientStep(st.(packetQueue := st.packetQueue + Repeat(frame, d.attempts), seqNum := st.seqNum + 1), d.acked))
  }

  /** The outcomes of the waits for each of `packets`, enough for every attempt. */
  predicate EnoughReplies(cfg: Config, packets: seq<seq<Byte>>, replies: seq<seq<Option<int>>>) {
    |replies| == |packets| && forall i :: 0 <= i < |replies| ==> |replies[i]| >= cfg.retries
  }

  /** The `client_mode` loop over a series of TAP packets; the first encoding failure ends it. */
  function RunClient(cfg: Config, st: State, packets: seq<seq<Byte>>, replies: seq<seq<Option<int>>>): (r: ClientRun)
    requires EnoughReplies(cfg, packets, replies)
    ensures |r.delivered| <= |packets|
    ensures r.st.seqNum == st.seqNum + |r.delivered|
    ensures r.error.None? <==> |r.delivered| == |packets|
    ensures r.st.ackQueue == st.ackQueue
    decreases |packets|
  {
    if packets == [] then
      ClientRun(st, [], None)
    else
      var step := ClientPacket(cfg, st, packets[0], replies[0]);
      if step.Failure? then
        ClientRun(st, [], Some(step.error))
      else
        var rest := RunClient(cfg, step.value.st, packets[1..], replies[1..]);
        ClientRun(rest.st, [step.value.delivered] + rest.delivered, rest.error)
  }

  /** A TAP packet whose frame was queued `Deliver`'s number of times is one successful client step. */
  lemma ClientPacketSent(cfg: Config, st: State, packet: seq<Byte>, replies: seq<Option<int>>, frame: seq<Byte>, q: seq<seq<Byte>>)
    requires |replies| >= cfg.retries
    requires Encapsulate(cfg.deviceId, DATA, st.seqNum, packet) == Success(frame)
    requires q == st.packetQueue + Repeat(frame, Deliver(cfg.retries, st.seqNum, replies).attempts)
    ensures ClientPacket(cfg, st, packet, replies) ==
      Success(ClientStep(State(q, st.ackQueue, st.seqNum + 1), Deliver(cfg.retries, st.seqNum, replies).acked))
  {
  }

  /** A run whose first `delivered` verdicts are already known, continued by `rest`. */
  function After(delivered: seq<bool>, rest: ClientRun): (r: ClientRun)
    ensures r.st == rest.st && r.error == rest.error && |r.delivered| == |delivered| + |rest.delivered|
  {
    ClientRun(rest.st, delivered + rest.delivered, rest.error)
  }

  /**
   * The client loop after its i-th packet: if the whole run is the verdicts so far
   * followed by the run from packet i, and packet i is handled successfully, the whole
   * run is the verdicts including packet i's followed by the run from packet i + 1.
   */
  lemma RunClientAdvance(cfg: Config, st0: State, packets: seq<seq<Byte>>, replies: seq<seq<Option<int>>>,
                         i: nat, delivered: seq<bool>, st: State, step: ClientStep)
    requires EnoughReplies(cfg, packets, replies) && i < |packets|
    requires RunClient(cfg, st0, packets, replies) == After(delivered, RunClient(cfg, st, packets[i..], replies[i..]))
    requires ClientPacket(cfg, st, packets[i], replies[i]) == Success(step)
    ensures RunClient(cfg, st0, packets, replies) ==
      After(delivered + [step.delivered], RunClient(cfg, step.st, packets[i + 1..], replies[i + 1..]))
  {
    var ps, rs := packets[i..], replies[i..];
    assert ps[0] == packets[i] && rs[0] == replies[i];
    assert ps[1..] == packets[i + 1..] && rs[1..] == replies[i + 1..];
    assert EnoughReplies(cfg, ps, rs);
    var rest := RunClient(cfg, step.st, ps[1..], rs[1..]);
    assert RunClient(cfg, st, ps, rs) == After([step.delivered], rest);
    assert (delivered + [step.delivered]) + rest.delivered == delivered + ([step.delivered] + rest.delivered);
  }

  /** The client loop at a packet that cannot be encoded: the whole run ends there with that error. */
  lemma RunClientRaises(cfg: Config, st0: State, packets: seq<seq<Byte>>, replies: seq<seq<Option<int>>>,
                        i: nat, delivered: seq<bool>, st: State)
    requires EnoughReplies(cfg, packets, replies) && i < |packets|
    requires RunClient(cfg, st0, packets, replies) == After(delivered, RunClient(cfg, st, packets[i..], replies[i..]))
    requires ClientPacket(cfg, st, packets[i], replies[i]).Failure?
    ensures RunClient(cfg, st0, packets, replies) ==
      ClientRun(st, delivered, Some(ClientPacket(cfg, st, packets[i], replies[i]).error))
  {
    assert packets[i..][0] == packets[i] && replies[i..][0] == replies[i];
    assert delivered + [] == delivered;
  }

  /** The client loop after its last packet. */
  lemma RunClientDone(cfg: Config, st0: State, packets: seq<seq<Byte>>, replies: seq<seq<Option<int>>>,
                      delivered: seq<bool>, st: State)
    requires EnoughReplies(cfg, packets, replies)
    requires RunClient(cfg, st0, packets, replies) == After(delivered, RunClient(cfg, st, packets[|packets|..], replies[|packets|..]))
    ensures RunClient(cfg, st0, packets, replies) == ClientRun(st, delivered, None)
  {
    assert packets[|packets|..] == [] && delivered + [] == delivered;
  }

  /** The frames `read_thread` hands to the radio, in queue order: it skips empty ones. */
  function Transmitted(q: seq<seq<Byte>>): (sent: seq<seq<Byte>>)
    ensures |sent| <= |q|
    ensures forall i :: 0 <= i < |sent| ==> sent[i] != []
    ensures forall x :: x != [] ==> (x in sent <==> x in q)
  {
    if q == [] then []
    else if q[0] == [] then Transmitted(q[1..])
    else [q[0]] + Transmitted(q[1..])
  }

  // ---------------------------------------------------------------- properties

  /** A queued frame is decodable and carries exactly as many payload bytes as its header declares. */
  predicate WellFormedFrame(frame: seq<Byte>) {
    HeaderSize <= |frame| && frame[2] >= 1 && |frame| == HeaderSize + frame[2] - 1
  }

  predicate WellFormed(q: seq<seq<Byte>>) {
    forall i :: 0 <= i < |q| ==> WellFormedFrame(q[i])
  }

  /** Everything `Encapsulate` produces is well formed and decodes to what was encoded. */
  lemma EncapsulateWellFormed(deviceId: int, packetType: int, sequenceNum: int, data: seq<Byte>)
    requires Encapsulate(deviceId, packetType, sequenceNum, data).Success?
    ensures WellFormedFrame(Encapsulate(deviceId, packetType, sequenceNum, data).value)
    ensures Decode(Encapsulate(deviceId, packetType, sequenceNum, data).value).value.data == data
  {
    RoundTrip(deviceId, packetType, sequenceNum, data);
  }

  /**
   * `forward_packet_to_internet` appends one RESPONSE frame and bumps the counter exactly
   * when the upstream answered with at most 251 bytes and the gateway id and counter fit
   * a byte; the frame decodes to the gateway id, RESPONSE, the old counter and the response.
   * Otherwise the state is unchanged.
   */
  lemma ForwardOutcome(cfg: Config, st: State, reply: Reply)
    ensures var st' := Forward(cfg, st, reply);
      var ok := reply.Response? && |reply.bytes| <= MaxPayload && IsByte(cfg.deviceId) && st.seqNum < 256;
      (ok ==> |st'.packetQueue| == |st.packetQueue| + 1 && st'.seqNum == st.seqNum + 1 &&
              Decode(st'.packetQueue[|st.packetQueue|]) ==
                Some(Frame(cfg.deviceId as Byte, RESPONSE, st.seqNum as Byte, reply.bytes))) &&
      (!ok ==> st' == st)
  {
    if reply.Response? && |reply.bytes| <= MaxPayload && IsByte(cfg.deviceId) && st.seqNum < 256 {
      RoundTrip(cfg.deviceId, RESPONSE, st.seqNum, reply.bytes);
    }
  }

  /** Once the counter has passed 255 no upstream response ever reaches the radio again. */
  lemma ForwardStuckAfterCounterOverflow(cfg: Config, st: State, reply: Reply)
    requires st.seqNum >= 256
    ensures Forward(cfg, st, reply) == st
  {
  }

  /**
   * For a DATA frame the gateway queues exactly one ACK frame (its own id, ACK, the
   * frame's sequence number, no payload) before anything else, known device or not;
   * then at most one RESPONSE frame follows, and only for a device in the table.
   */
  lemma GatewayAcksEveryDataFrame(cfg: Config, st: State, f: Frame, relay: Relay)
    requires f.packetType == DATA && IsByte(cfg.deviceId)
    ensures var r := GatewayRx(cfg, st, f, relay);
      r.Success? &&
      r.value.packetQueue[..|st.packetQueue|] == st.packetQueue &&
      r.value.packetQueue[|st.packetQueue|] == [cfg.deviceId as Byte, ACK, 1, f.sequenceNum] &&
      Decode(r.value.packetQueue[|st.packetQueue|]) == Some(Frame(cfg.deviceId as Byte, ACK, f.sequenceNum, [])) &&
      (|r.value.packetQueue| == |st.packetQueue| + 1 || |r.value.packetQueue| == |st.packetQueue| + 2) &&
      (f.deviceId !in cfg.deviceIpMap ==> r.value == st.(packetQueue := st.packetQueue + [[cfg.deviceId as Byte, ACK, 1, f.sequenceNum]]))
  {
    var ack := [cfg.deviceId as Byte, ACK, 1, f.sequenceNum];
    EmptyPayloadFrame(cfg.deviceId, ACK, f.sequenceNum);
    RoundTrip(cfg.deviceId, ACK, f.sequenceNum, []);
    var acked := st.(packetQueue := st.packetQueue + [ack]);
    if f.deviceId in cfg.deviceIpMap {
      ForwardOutcome(cfg, acked, relay(cfg.deviceIpMap[f.deviceId], f.data));
    }
  }

  /**
   * For a DATA frame from a device in the table, a second frame (the RESPONSE) is queued
   * exactly when the upstream round-trip for its address and payload succeeded with an
   * encodable response, and then the counter rises by one.
   */
  lemma GatewayRelaysKnownDevice(cfg: Config, st: State, f: Frame, relay: Relay)
    requires f.packetType == DATA && IsByte(cfg.deviceId) && f.deviceId in cfg.deviceIpMap
    ensures var r := GatewayRx(cfg, st, f, relay);
      var reply := relay(cfg.deviceIpMap[f.deviceId], f.data);
      var ok := reply.Response? && |reply.bytes| <= MaxPayload && st.seqNum < 256;
      r.Success? &&
      (ok ==> |r.value.packetQueue| == |st.packetQueue| + 2 && r.value.seqNum == st.seqNum + 1 &&
              Decode(r.value.packetQueue[|st.packetQueue| + 1]) ==
                Some(Frame(cfg.deviceId as Byte, RESPONSE, st.seqNum as Byte, reply.bytes))) &&
      (!ok ==> |r.value.packetQueue| == |st.packetQueue| + 1 && r.value.seqNum == st.seqNum)
  {
    var ack := [cfg.deviceId as Byte, ACK, 1, f.sequenceNum];
    EmptyPayloadFrame(cfg.deviceId, ACK, f.sequenceNum);
    var acked := st.(packetQueue := st.packetQueue + [ack]);
    ForwardOutcome(cfg, acked, relay(cfg.deviceIpMap[f.deviceId], f.data));
  }

  /** With the device table as the program ships it (empty), the gateway only ever acknowledges. */
  lemma EmptyDeviceTableOnlyAcks(cfg: Config, st: State, f: Frame, relay: Relay)
    requires cfg.deviceIpMap == map[] && IsByte(cfg.deviceId)
    ensures var r := GatewayRx(cfg, st, f, relay);
      r.Success? && r.value.seqNum == st.seqNum &&
      |r.value.packetQueue| == |st.packetQueue| + (if f.packetType == DATA then 1 else 0)
  {
    if f.packetType == DATA {
      GatewayAcksEveryDataFrame(cfg, st, f, relay);
    }
  }

  /** A gateway whose own id does not fit a byte raises on every DATA frame and queues nothing. */
  lemma GatewayRaisesOnBadOwnId(cfg: Config, st: State, f: Frame, relay: Relay)
    requires f.packetType == DATA && !IsByte(cfg.deviceId)
    ensures GatewayRx(cfg, st, f, relay) == Failure(FieldOutOfRange)
  {
  }

  /**
   * The gateway stamps its ACKs with its own id while a client accepts only ACKs
   * carrying the client's id: a gateway ACK is queued by a client exactly when the two
   * ids coincide, so with the gateway at id 0 and a client at any other id no ACK is
   * ever accepted.
   */
  lemma GatewayAckAcceptedOnlyBySameId(gatewayId: int, cfg: Config, st: State, sequenceNum: Byte, relay: Relay)
    requires IsByte(gatewayId) && cfg.mode == Client
    ensures var ack := Encapsulate(gatewayId, ACK, sequenceNum, []);
      ack.Success? &&
      OnRxDone(cfg, st, ack.value, relay) ==
        Success(if gatewayId == cfg.deviceId then st.(ackQueue := st.ackQueue + [sequenceNum]) else st)
  {
    RoundTrip(gatewayId, ACK, sequenceNum, []);
  }

  /**
   * `send_with_ack` fully characterised: it succeeds exactly when some outcome among
   * the first `retries` equals the sequence number, stopping at the first such outcome;
   * otherwise every one of the `retries` attempts is used and it fails.
   */
  lemma {:induction false} DeliverCharacterised(retries: int, sequenceNum: int, replies: seq<Option<int>>)
    requires |replies| >= retries
    ensures var d := Deliver(retries, sequenceNum, replies);
      (d.acked <==> exists k :: 0 <= k < retries && replies[k] == Some(sequenceNum)) &&
      (d.acked ==> replies[d.attempts - 1] == Some(sequenceNum) &&
                   forall j :: 0 <= j < d.attempts - 1 ==> replies[j] != Some(sequenceNum)) &&
      (!d.acked ==> d.attempts == Max(retries, 0))
    decreases |replies|
  {
    if retries > 0 && replies[0] != Some(sequenceNum) {
      var rest := replies[1..];
      DeliverCharacterised(retries - 1, sequenceNum, rest);
      var d := Deliver(retries, sequenceNum, replies);
      if d.acked {
        var k :| 0 <= k < retries - 1 && rest[k] == Some(sequenceNum);
        assert replies[k + 1] == Some(sequenceNum);
      } else {
        forall k | 0 <= k < retries ensures replies[k] != Some(sequenceNum) {
          if k > 0 { assert replies[k] == rest[k - 1]; }
        }
      }
    }
  }

  /** The retry budget: with no matching ACK the frame is queued exactly `retries` times; an ACK at attempt k stops it at k. */
  lemma DeliverStopsAtFirstMatch(retries: int, sequenceNum: int, replies: seq<Option<int>>, k: nat)
    requires |replies| >= retries && k < retries
    requires replies[k] == Some(sequenceNum)
    requires forall j :: 0 <= j < k ==> replies[j] != Some(sequenceNum)
    ensures Deliver(retries, sequenceNum, replies) == Delivery(true, k + 1)
  {
    DeliverCharacterised(retries, sequenceNum, replies);
  }

  /**
   * One TAP packet: it is rejected exactly when it is too long, the client id does not
   * fit a byte or the counter has passed 255; otherwise the same DATA frame is queued
   * once per attempt and the counter rises by one whether or not an ACK came.
   */
  lemma ClientPacketOutcome(cfg: Config, st: State, packet: seq<Byte>, replies: seq<Option<int>>)
    requires |replies| >= cfg.retries
    ensures var r := ClientPacket(cfg, st, packet, replies);
      (r.Success? <==> |packet| <= MaxPayload && IsByte(cfg.deviceId) && st.seqNum < 256) &&
      (r.Success? ==>
        var d := Deliver(cfg.retries, st.seqNum, replies);
        r.value.st.seqNum == st.seqNum + 1 && r.value.delivered == d.acked &&
        r.value.st.ackQueue == st.ackQueue &&
        r.value.st.packetQueue[..|st.packetQueue|] == st.packetQueue &&
        |r.value.st.packetQueue| == |st.packetQueue| + d.attempts &&
        forall i :: |st.packetQueue| <= i < |r.value.st.packetQueue| ==>
          Decode(r.value.st.packetQueue[i]) == Some(Frame(cfg.deviceId as Byte, DATA, st.seqNum as Byte, packet)))
  {
    var r := ClientPacket(cfg, st, packet, replies);
    if r.Success? {
      RoundTrip(cfg.deviceId, DATA, st.seqNum, packet);
      var q' := r.value.st.packetQueue;
      assert q'[..|st.packetQueue|] == st.packetQueue;
    }
  }

  /**
   * The counter is never reduced modulo 256: from counter `seqNum`, a client fed packets
   * that all fit handles exactly `256 - seqNum` of them (or all, if fewer) and then
   * raises on the next.
   */
  lemma {:induction false} ClientCounterExhausts(cfg: Config, st: State, packets: seq<seq<Byte>>, replies: seq<seq<Option<int>>>)
    requires EnoughReplies(cfg, packets, replies) && IsByte(cfg.deviceId)
    requires forall i :: 0 <= i < |packets| ==> |packets[i]| <= MaxPayload
    ensures var r := RunClient(cfg, st, packets, replies);
      |r.delivered| == Min(|packets|, Max(256 - st.seqNum, 0)) &&
      (r.error.Some? <==> |packets| > Max(256 - st.seqNum, 0))
    decreases |packets|
  {
    if packets != [] {
      ClientPacketOutcome(cfg, st, packets[0], replies[0]);
      var step := ClientPacket(cfg, st, packets[0], replies[0]);
      if step.Success? {
        ClientCounterExhausts(cfg, step.value.st, packets[1..], replies[1..]);
      }
    }
  }

  /** The handlers keep every queued frame well formed. */
  lemma OnRxDonePreservesWellFormed(cfg: Config, st: State, buf: seq<Byte>, relay: Relay)
    requires WellFormed(st.packetQueue)
    ensures var r := OnRxDone(cfg, st, buf, relay);
      r.Success? ==> WellFormed(r.value.packetQueue)
  {
    match Decode(buf)
    case None =>
    case Some(f) =>
      if cfg.mode == Gateway && f.packetType == DATA && IsByte(cfg.deviceId) {
        var ack := [cfg.deviceId as Byte, ACK, 1, f.sequenceNum];
        EmptyPayloadFrame(cfg.deviceId, ACK, f.sequenceNum);
        var acked := st.(packetQueue := st.packetQueue + [ack]);
        assert WellFormed(acked.packetQueue);
        if f.deviceId in cfg.deviceIpMap {
          var reply := relay(cfg.deviceIpMap[f.deviceId], f.data);
          if reply.Response? && Encapsulate(cfg.deviceId, RESPONSE, acked.seqNum, reply.bytes).Success? {
            EncapsulateWellFormed(cfg.deviceId, RESPONSE, acked.seqNum, reply.bytes);
          }
        }
      }
  }

  lemma {:induction false} RunClientPreservesWellFormed(cfg: Config, st: State, packets: seq<seq<Byte>>, replies: seq<seq<Option<int>>>)
    requires EnoughReplies(cfg, packets, replies) && WellFormed(st.packetQueue)
    ensures WellFormed(RunClient(cfg, st, packets, replies).st.packetQueue)
    decreases |packets|
  {
    if packets != [] {
      var step := ClientPacket(cfg, st, packets[0], replies[0]);
      if step.Success? {
        var frame := Encapsulate(cfg.deviceId, DATA, st.seqNum, packets[0]).value;
        EncapsulateWellFormed(cfg.deviceId, DATA, st.seqNum, packets[0]);
        var d := Deliver(cfg.retries, st.seqNum, replies[0]);
        assert WellFormed(st.packetQueue + Repeat(frame, d.attempts));
        RunClientPreservesWellFormed(cfg, step.value.st, packets[1..], replies[1..]);
      }
    }
  }

  /** `read_thread` sends a well-formed queue whole and in insertion order: no frame is skipped. */
  lemma {:induction false} TransmittedInOrder(q: seq<seq<Byte>>)
    requires WellFormed(q)
    ensures Transmitted(q) == q
  {
    if q != [] {
      assert q[0] != [];
      TransmittedInOrder(q[1..]);
    }
  }
}
