/**
 * The running process: the settings fixed at startup and the three globals that
 * the handlers and loops update in place (`packet_queue`, `ack_queue`, `seq_num`).
 * Every method is proved to end in exactly the state, and return exactly the
 * result, that its specification function in Protocol gives. The handlers are
 * written twice on purpose: here as the in-place updates the program performs,
 * in Protocol as values that the lemmas can reason about.
 *
 * The outcomes of the waits for an ACK are an input of SendWithAck; nothing here
 * takes entries off `ackQueue`, which the program's waits do.
 */
module Station {
  import opened Wrappers
  import opened Codec
  import opened Protocol

  class Station {
    const cfg: Config
    var packetQueue: seq<seq<Byte>>
    var ackQueue: seq<Byte>
    var seqNum: nat

    /** The current values of the three globals. */
    function Snapshot(): Protocol.State
      reads this
    {
      Protocol.State(packetQueue, ackQueue, seqNum)
    }

    /** Process start: both queues empty and the counter at 0. */
    constructor (cfg: Config)
      ensures this.cfg == cfg && Snapshot() == Initial
    {
      this.cfg := cfg;
      packetQueue := [];
      ackQueue := [];
      seqNum := 0;
    }

    /** `handle_client_rx`. */
    method HandleClientRx(deviceId: Byte, packetType: Byte, sequenceNum: Byte, data: seq<Byte>)
      modifies this
      ensures Snapshot() == ClientRx(cfg, old(Snapshot()), Frame(deviceId, packetType, sequenceNum, data))
    {
      if deviceId == cfg.deviceId && packetType == ACK {
        ackQueue := ackQueue + [sequenceNum];
      }
    }

    /** `forward_packet_to_internet`, with the socket round-trip supplied by `relay`. */
    method ForwardPacketToInternet(ip: Addr, data: seq<Byte>, relay: Relay)
      modifies this
      ensures Snapshot() == Forward(cfg, old(Snapshot()), relay(ip, data))
    {
      var reply := relay(ip, data);
      if reply.Response? {
        var responsePacket := Encapsulate(cfg.deviceId, RESPONSE, seqNum, reply.bytes);
        if responsePacket.Success? {
          seqNum := seqNum + 1;
          packetQueue := packetQueue + [responsePacket.value];
        }
      }
    }

    /** `handle_gateway_rx`; `raised` is the exception that escapes it, if any. */
    method HandleGatewayRx(deviceId: Byte, packetType: Byte, sequenceNum: Byte, data: seq<Byte>, relay: Relay)
      returns (raised: Option<EncodeError>)
      modifies this
      ensures var r := GatewayRx(cfg, old(Snapshot()), Frame(deviceId, packetType, sequenceNum, data), relay);
        if r.Success? then raised.None? && Snapshot() == r.value
        else raised == Some(r.error) && Snapshot() == old(Snapshot())
    {
      raised := None;
      if packetType == DATA {
        var ackPacket := Encapsulate(cfg.deviceId, ACK, sequenceNum, []);
        if ackPacket.Failure? {
          return Some(ackPacket.error);
        }
        packetQueue := packetQueue + [ackPacket.value];
        if deviceId in cfg.deviceIpMap {
          ForwardPacketToInternet(cfg.deviceIpMap[deviceId], data, relay);
        }
      }
    }

    /** `on_rx_done` for one received buffer. */
    method OnRxDone(buf: seq<Byte>, relay: Relay) returns (raised: Option<EncodeError>)
      modifies this
      ensures var r := Protocol.OnRxDone(cfg, old(Snapshot()), buf, relay);
        if r.Success? then raised.None? && Snapshot() == r.value
        else raised == Some(r.error) && Snapshot() == old(Snapshot())
    {
      raised := None;
      var frame := Decode(buf);
      if frame.Some? {
        var f := frame.value;
        if cfg.mode == Gateway {
          raised := HandleGatewayRx(f.deviceId, f.packetType, f.sequenceNum, f.data, relay);
        } else {
          HandleClientRx(f.deviceId, f.packetType, f.sequenceNum, f.data);
        }
      }
    }

    /**
     * `send_with_ack`: queue `packet` once per attempt and consume one wait outcome
     * per attempt (`replies[k]` is what the k-th `ack_queue.get` gave, None for a
     * timeout); stop with success at the first outcome equal to `sequenceNum`.
     */
    method SendWithAck(packet: seq<Byte>, sequenceNum: int, replies: seq<Option<int>>) returns (success: bool)
      requires |replies| >= cfg.retries
      modifies this
      ensures var d := Deliver(cfg.retries, sequenceNum, replies);
        success == d.acked && packetQueue == old(packetQueue) + Repeat(packet, d.attempts)
      ensures ackQueue == old(ackQueue) && seqNum == old(seqNum)
    {
      var attempt := 0;
      while attempt < cfg.retries
        invariant 0 <= attempt <= |replies|
        invariant attempt <= Max(cfg.retries, 0)
        invariant forall j :: 0 <= j < attempt ==> replies[j] != Some(sequenceNum)
        invariant packetQueue == old(packetQueue) + Repeat(packet, attempt)
        invariant ackQueue == old(ackQueue) && seqNum == old(seqNum)
        decreases cfg.retries - attempt
      {
        packetQueue := packetQueue + [packet];
        if replies[attempt] == Some(sequenceNum) {
          DeliverStopsAtFirstMatch(cfg.retries, sequenceNum, replies, attempt);
          return true;
        }
        attempt := attempt + 1;
      }
      DeliverCharacterised(cfg.retries, sequenceNum, replies);
      assert attempt == Max(cfg.retries, 0);
      assert !Deliver(cfg.retries, sequenceNum, replies).acked;
      return false;
    }

    /**
     * The body of `client_mode` for one TAP packet: encode it as DATA with the current
     * counter, send it with retries, then advance the counter whatever the outcome.
     * An encoding failure is returned as the exception that escapes the loop.
     */
    method ClientModeStep(packet: seq<Byte>, replies: seq<Option<int>>)
      returns (delivered: bool, raised: Option<EncodeError>)
      requires |replies| >= cfg.retries
      modifies this
      ensures var r := ClientPacket(cfg, old(Snapshot()), packet, replies);
        if r.Success? then raised.None? && Snapshot() == r.value.st && delivered == r.value.delivered
        else raised == Some(r.error) && Snapshot() == old(Snapshot())
    {
      ghost var before := Snapshot();
      var encapsulatedPacket := Encapsulate(cfg.deviceId, DATA, seqNum, packet);
      if encapsulatedPacket.Failure? {
        return false, Some(encapsulatedPacket.error);
      }
      delivered := SendWithAck(encapsulatedPacket.value, seqNum, replies);
      seqNum := seqNum + 1;
      raised := None;
      ClientPacketSent(cfg, before, packet, replies, encapsulatedPacket.value, packetQueue);
    }

    /**
     * `client_mode` over a series of TAP packets, `replies[i]` holding the wait
     * outcomes for packet i. The first encoding failure escapes the loop and ends it.
     */
    method ClientMode(packets: seq<seq<Byte>>, replies: seq<seq<Option<int>>>)
      returns (delivered: seq<bool>, raised: Option<EncodeError>)
      requires EnoughReplies(cfg, packets, replies)
      modifies this
      ensures var r := RunClient(cfg, old(Snapshot()), packets, replies);
        Snapshot() == r.st && delivered == r.delivered && raised == r.error
    {
      delivered := [];
      var i := 0;
      while i < |packets|
        invariant 0 <= i <= |packets| && |delivered| == i
        invariant RunClient(cfg, old(Snapshot()), packets, replies) ==
          After(delivered, RunClient(cfg, Snapshot(), packets[i..], replies[i..]))
      {
        ghost var before := Snapshot();
        var success, error := ClientModeStep(packets[i], replies[i]);
        if error.Some? {
          RunClientRaises(cfg, old(Snapshot()), packets, replies, i, delivered, before);
          return delivered, error;
        }
        RunClientAdvance(cfg, old(Snapshot()), packets, replies, i, delivered, before, ClientStep(Snapshot(), success));
        delivered := delivered + [success];
        i := i + 1;
      }
      RunClientDone(cfg, old(Snapshot()), packets, replies, delivered, Snapshot());
      raised := None;
    }

    /** One round of `read_thread`: take the oldest frame; a non-empty one goes to the radio. */
    method TransmitNext() returns (sent: Option<seq<Byte>>)
      requires packetQueue != []
      modifies this
      ensures packetQueue == old(packetQueue)[1..]
      ensures sent == if old(packetQueue)[0] == [] then None else Some(old(packetQueue)[0])
      ensures ackQueue == old(ackQueue) && seqNum == old(seqNum)
    {
      var packet := packetQueue[0];
      packetQueue := packetQueue[1..];
      sent := if packet == [] then None else Some(packet);
    }

    /** `read_thread` until the queue is empty: the frames handed to the radio, in order. */
    method ReadThread() returns (sent: seq<seq<Byte>>)
      modifies this
      ensures sent == Transmitted(old(packetQueue)) && packetQueue == []
      ensures ackQueue == old(ackQueue) && seqNum == old(seqNum)
    {
      sent := [];
      while packetQueue != []
        invariant Transmitted(old(packetQueue)) == sent + Transmitted(packetQueue)
        invariant ackQueue == old(ackQueue) && seqNum == old(seqNum)
        decreases |packetQueue|
      {
        var next := TransmitNext();
        if next.Some? {
          sent := sent + [next.value];
        }
      }
    }
  }
}
