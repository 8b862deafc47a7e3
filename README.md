# LoRa link-layer protocol, modelled in Dafny

`concept.py` bridges a TAP interface to a half-duplex LoRa radio. A gateway node and
client nodes exchange frames with a 4-byte header `[device id, type, length + 1, sequence]`.
The types are 1 = DATA, 2 = RESPONSE and 3 = ACK. A client sends each TAP packet as a
DATA frame and retries it until a matching ACK arrives. The gateway acknowledges every
DATA frame. It relays the payload of a known device to that device's upstream address
and queues the reply as a RESPONSE frame. One thread drains the shared outbound queue
to the radio.

The project has four modules:

- `Wrappers` (`wrappers.dfy`): `Option` and `Result`.
- `Codec` (`codec.dfy`): `encapsulate_packet` and the header/payload extraction of
  `on_rx_done` as pure functions on byte sequences, with the round trip and the size
  boundaries. Python slice clamping is modelled exactly.
- `Protocol` (`protocol.dfy`): the state the handlers share — `packet_queue`,
  `ack_queue` and `seq_num` — as a value. Each handler is a pure transition of that
  state, and the lemmas state what the handlers promise.
- `Station` (`station.dfy`): a class whose fields are those three globals. Its methods
  are the handlers and loops of the program, written as imperative code
  (`send_with_ack`'s `for` loop, the `client_mode` loop and the `read_thread` drain).
  Each method is proved to produce exactly the result of its specification function in
  `Protocol` (for example, `SendWithAck` against `Deliver` and `ReadThread` against `Transmitted`).

The code and the design description disagree in two places. The model follows the code:

- The design says decoding must reject a buffer shorter than its declared length. The
  code slices `payload[4:4 + (L - 1)]`, so a truncated buffer is accepted with a shorter
  payload (`Codec.TruncatedAccepted`).
- The design says the sequence counter wraps modulo 256. The code never reduces
  `seq_num`, and `struct.pack('B', …)` rejects values of 256 and above. A client
  therefore stops at its 257th packet (`Protocol.ClientCounterExhausts`). A gateway
  whose counter has passed 255 never queues another RESPONSE frame
  (`Protocol.ForwardStuckAfterCounterOverflow`).

Two more facts about the code as written are proved:

- The gateway stamps its ACK frames with its own id, and a client accepts only ACKs that
  carry the client's id. A client therefore accepts a gateway ACK exactly when the two
  ids are equal. With the gateway at id 0, no ACK is ever accepted by any other client
  (`Protocol.GatewayAckAcceptedOnlyBySameId`).
- The device table is `{}` and is never filled, so the shipped gateway only ever
  acknowledges (`Protocol.EmptyDeviceTableOnlyAcks`).

External effects are parameters:

- The upstream socket round-trip is a `Relay` function from an address and the payload
  to `Response(bytes)` or `Unreachable`.
- The outcomes of the blocking `ack_queue.get(timeout=…)` calls are an input sequence of
  `Option<int>`, where `None` is a timeout.
- TAP packets are an input sequence.
- The frames handed to the radio are an output sequence.

## Model

| member | source | states |
|---|---|---|
| `Codec.Slice` | concept.py:106 | Python slicing with non-negative bounds: the length is the clamped difference of the bounds (empty if reversed), and element i is element start + i of the input |
| `Codec.Encapsulate` | concept.py:86-94 | succeeds iff the payload has at most 251 bytes and the id, type and sequence fit a byte; a longer payload fails with PayloadTooLarge; the output is the 4 header bytes (length byte = payload length + 1 ≤ 252) followed by the payload |
| `Codec.Decode` | concept.py:101-106 | no frame iff the buffer is shorter than 4 bytes; otherwise id, type and sequence are bytes 0, 1, 3 and the payload is the next min(max(L − 1, 0), len − 4) bytes after the header |
| `Codec.RoundTrip` | concept.py:86-106 | decoding a successfully encapsulated frame gives back the id, type, sequence and payload it was built from |
| `Codec.EmptyPayloadFrame` | concept.py:122 | a frame with an empty payload, such as an ACK, is exactly [id, type, 1, sequence] |
| `Codec.TruncatedAccepted` | concept.py:101-106 | a buffer that ends before its declared length still decodes, with everything after the header as a payload shorter than declared |
| `Codec.PayloadBoundary` | concept.py:91-92 | a 251-byte payload is accepted and a 252-byte payload fails with PayloadTooLarge |
| `Protocol.Repeat` | concept.py:197-198 | n copies of the same frame: what n attempts put on the queue |
| `Protocol.ClientRx` | concept.py:131-135 | never touches the outbound queue or the counter; the ACK queue grows by one entry, the frame's sequence number, iff the frame is an ACK carrying this device's id; any other frame leaves the whole state unchanged |
| `Protocol.Forward` | concept.py:138-153 | the ACK queue is untouched and earlier outbound frames stay as they were |
| `Protocol.ForwardOutcome` | concept.py:138-153 | exactly one RESPONSE frame is appended and the counter rises by one iff the upstream answered with at most 251 bytes and the gateway id and counter fit a byte; the frame decodes to (gateway id, RESPONSE, old counter, response); otherwise nothing changes |
| `Protocol.ForwardStuckAfterCounterOverflow` | concept.py:149-150 | with the counter at 256 or more every forward leaves the state unchanged |
| `Protocol.GatewayRx` | concept.py:117-128 | frames other than DATA leave the state unchanged; the ACK queue is never touched |
| `Protocol.GatewayAcksEveryDataFrame` | concept.py:119-128 | for a DATA frame exactly one ACK [gateway id, 3, 1, seq] is appended first, known device or not; at most one further frame follows; for an unknown device the ACK is the only change |
| `Protocol.GatewayRelaysKnownDevice` | concept.py:124-126 | for a known device a RESPONSE frame follows the ACK and the counter rises iff the relay succeeded with an encodable response; otherwise only the ACK is queued |
| `Protocol.EmptyDeviceTableOnlyAcks` | concept.py:117-128 | with the shipped empty device table (line 70) a DATA frame adds one frame and any other frame none, and the counter never moves |
| `Protocol.GatewayRaisesOnBadOwnId` | concept.py:122-123 | a gateway id outside 0..255 makes the ACK encoding raise before anything is queued |
| `Protocol.OnRxDone` | concept.py:97-114 | a buffer shorter than 4 bytes invokes no handler and changes nothing |
| `Protocol.GatewayAckAcceptedOnlyBySameId` | concept.py:122-133 | a client receiving a gateway ACK queues its sequence number iff the gateway id equals the client id, and otherwise changes nothing |
| `Protocol.Deliver` | concept.py:195-205 | the number of attempts is at most the retry count, at least one when retries > 0, and at least one whenever the send succeeded |
| `Protocol.DeliverCharacterised` | concept.py:195-205 | success iff one of the first `retries` wait outcomes equals the sequence number; on success the last attempt is the first matching outcome; on failure all `retries` attempts were made |
| `Protocol.DeliverStopsAtFirstMatch` | concept.py:197-203 | if the first matching outcome is at attempt k, the send succeeds after exactly k + 1 attempts |
| `Protocol.ClientPacket` | concept.py:188-192 | one pass of the loop body raises iff the packet is longer than 251 bytes, the client id does not fit a byte or the counter passed 255, and otherwise advances the counter by one; `Protocol.ClientPacketOutcome` gives the queued frames and the verdict |
| `Protocol.ClientPacketOutcome` | concept.py:188-192 | a TAP packet raises iff it is longer than 251 bytes, the client id does not fit a byte or the counter passed 255; otherwise the same DATA frame is queued once per attempt, each copy decoding to (id, DATA, counter, packet), and the counter rises by one whether or not an ACK came (the ACK queue clause describes the model only, see Left out) |
| `Protocol.RunClient` | concept.py:183-192 | the counter rises by exactly the number of packets handled; the run ends early iff an encoding error escaped |
| `Protocol.ClientCounterExhausts` | concept.py:183-192 | from counter c, with packets that fit, the client handles min(n, 256 − c) packets and raises iff more than 256 − c were offered |
| `Protocol.Transmitted` | concept.py:158-163 | the radio gets at most as many frames as were queued, never an empty one, and every non-empty queued frame and nothing else |
| `Protocol.TransmittedInOrder` | concept.py:156-169 | a queue of well-formed frames is transmitted whole and in insertion order |
| `Protocol.EncapsulateWellFormed` | concept.py:86-94 | every encapsulated frame is well formed (its length matches its declared length) and decodes to its payload |
| `Protocol.OnRxDonePreservesWellFormed` | concept.py:97-153 | the receive path only ever appends well-formed frames to the outbound queue |
| `Protocol.RunClientPreservesWellFormed` | concept.py:180-205 | the client loop only ever appends well-formed frames to the outbound queue |
| `Station.Station.constructor` | concept.py:19-20 | both queues start empty and the counter at 0 (line 71) |
| `Station.Station.HandleClientRx` | concept.py:131-135 | the new state is the `ClientRx` transition of the old state |
| `Station.Station.ForwardPacketToInternet` | concept.py:138-153 | the new state is the `Forward` transition of the old state for the relay's reply |
| `Station.Station.HandleGatewayRx` | concept.py:117-128 | the new state is the `GatewayRx` transition; an escaping encoding error is returned and leaves the state unchanged |
| `Station.Station.OnRxDone` | concept.py:97-114 | the new state is the `OnRxDone` transition; an escaping error is returned and leaves the state unchanged |
| `Station.Station.SendWithAck` | concept.py:195-205 | the `for` loop returns exactly `Deliver`'s verdict and appends the packet exactly `Deliver`'s number of times; the counter is unchanged |
| `Station.Station.ClientModeStep` | concept.py:186-192 | one TAP packet ends in exactly `ClientPacket`'s state and delivery verdict, or returns its encoding error with the state unchanged |
| `Station.Station.ClientMode` | concept.py:180-192 | the loop ends in exactly `RunClient`'s state with its delivery verdicts and escaping error |
| `Station.Station.TransmitNext` | concept.py:158-163 | the oldest frame leaves the queue and is handed to the radio if it is non-empty |
| `Station.Station.ReadThread` | concept.py:156-169 | draining empties the queue and hands the radio exactly `Transmitted` of the old queue, in order |

## Left out

- AES-ECB encryption with PKCS#7 padding (concept.py:74-83, 88-89, 108-109) is a foreign library. Only the path without a key is modelled. The model therefore does not capture that a decryption or unpadding error in `on_rx_done` is not caught.
- Argument parsing and radio configuration (concept.py:24-67) are hardware calls and float arithmetic. In passing: `MODE = args.mode` at line 39 rebinds the name that `lora.set_mode(MODE.SLEEP)` at line 49 and `MODE.TX` at line 163 expect to be the radio's mode constants.
- TAP creation, `select` and `os.read` (concept.py:172-186) are OS I/O. The TAP packets are an input sequence of `Station.Station.ClientMode`.
- The socket connect/send/recv (concept.py:141-145) is the `Relay` parameter. Every exception it can raise is the single outcome `Unreachable`.
- Threads, the blocking queues and the busy-wait on `tx_done` (concept.py:156-169) are left out. The model is sequential: `Station.Station.TransmitNext` requires a non-empty queue, which is the only case in which the blocking `get` returns. `Station.Station.ReadThread` drains until the queue is empty instead of looping forever.
- Station.Station.SendWithAck: the outcomes of `ack_queue.get` are an input sequence and are not tied to the `ackQueue` field that `HandleClientRx` fills. The rendezvous between the receive thread and the sender is not modelled. As a result the model never dequeues `ackQueue`: it is only ever appended to, whereas concept.py:201 removes one entry per wait that does not time out. The clauses of `SendWithAck`, `ClientPacketOutcome` and `RunClient` saying the ACK queue is unchanged describe the model, not the program.
- Protocol.Deliver: the source is cut off inside the `except Empty` branch of `send_with_ack`. The model assumes the loop goes on to the next attempt and that the function returns a false value after the last attempt, which is how `client_mode` treats failure.
- The radio writes and mode switches are left out. Only the sequence of frames handed to the radio is modelled.
- `print` logging throughout is left out.
