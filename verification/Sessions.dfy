/**
 Session state and registry state as values (crates/GatoMQTT/src/session/state.rs,
 crates/GatoMQTT/src/session/registry.rs). A session is a struct owned by its slot, so
 updating it in place is updating the slot. Text is a UTF-8 byte string, one `char` per byte.
 */
module Sessions {
  import opened Basics
  import opened RateLimit

  const MAX_OUTBOX := 8
  const MAX_FRAME := 192
  const TOPIC_CAP := 128
  const PAYLOAD_CAP := 512
  const CLIENT_CAP := 64
  const PID_SPACE := 0x1_0000
  const GENERATIONS := 0x1_0000_0000

  datatype Handle = Handle(slot: nat, generation: nat)

  datatype Inflight = Inflight(packetId: nat, publish: Handle, sentAt: nat, retries: nat)

  datatype Stored = Stored(topic: string, payload: Bytes, retain: bool, generation: nat, refcount: nat)

  datatype Subscription = Subscription(filter: string, qos: QoS)

  /** A frame in an outbox. Only its fields matter; whether it fits is `Encodes`. */
  datatype Packet = Packet(qos: QoS, packetId: nat, retain: bool, topic: string, payload: Bytes)

  datatype Lwt = Lwt(topic: string, payload: Bytes, qos: QoS, retain: bool)

  datatype Session = Session(
    clientId: string,
    subscriptions: seq<Subscription>,
    inflight: seq<Inflight>,
    outbox: seq<Packet>,
    rate: Bucket,
    keepalive: nat,
    lastActivity: nat,
    lwt: Option<Lwt>,
    drops: nat,
    quarantined: bool,
    lastPid: nat)

  type Slots = seq<Option<Session>>
  type Store = seq<Option<Stored>>

  /** The inflight list of every session is bounded by the size of the store. */
  datatype Registry = Registry(slots: Slots, store: Store, nextGeneration: nat, lwts: seq<Lwt>)

  /** A message being routed. */
  datatype Message = Message(topic: string, payload: Bytes, qos: QoS, retain: bool)

  /** Session::next_packet_id: a 16-bit counter that skips zero. */
  function NextPid(last: nat): nat {
    var n := (last + 1) % PID_SPACE;
    if n == 0 then 1 else n
  }

  /** Bytes of the remaining-length field, section 2.2.3 of MQTT 3.1.1. */
  function LengthBytes(n: nat): nat {
    if n < 128 then 1 else if n < 16384 then 2 else if n < 2097152 then 3 else 4
  }

  /** Whether a PUBLISH fits the fixed outbound frame buffer. */
  predicate Encodes(topic: string, payload: Bytes, qos: QoS) {
    var remaining := 2 + |topic| + (if qos == AtMostOnce then 0 else 2) + |payload|;
    1 + LengthBytes(remaining) + remaining <= MAX_FRAME
  }

  function NewSession(clientId: string, keepalive: nat, rate: Bucket): Session {
    Session(clientId, [], [], [], rate, keepalive, 0, None, 0, false, 0)
  }
}
