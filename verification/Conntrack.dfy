/** Flow keys and timers, common to `src/nat/conntrack.go` and `src/netstat/conntrack.go`. */
module Conntrack {
  import opened Machine

  /** `ctTuple`: the key of one direction of a flow. */
  datatype Tuple = Tuple(saddr: U32, daddr: U32, sport: U16, dport: U16, proto: Byte)

  /** `invert`: the key of the opposite direction. */
  function Invert(t: Tuple): Tuple {
    Tuple(t.daddr, t.saddr, t.dport, t.sport, t.proto)
  }

  lemma InvertTwice(t: Tuple)
    ensures Invert(Invert(t)) == t
  {
  }

  const TCP: Byte := 6
  const UDP: Byte := 17

  datatype Status = CtNew | CtReply | CtEstablished | CtDel

  datatype Dir = Origin | Reply

  /** The two byte counters. */
  datatype Stats = Stats(origin: nat, reply: nat) {
    function Count(d: Dir, len: nat): Stats {
      if d.Origin? then Stats(origin + len, reply) else Stats(origin, reply + len)
    }
  }

  /** The clock counts nanoseconds, like `time.Duration`. */
  const SECOND: nat := 1_000_000_000

  const CT_TCP_SYN_TIMEOUT := 3 * SECOND
  const CT_TCP_SYN_RCVD_TIMEOUT := 3 * SECOND
  const CT_TCP_ESTABLISHED_TIMEOUT := 240 * SECOND
  const CT_DEL_TIMEOUT := 10 * SECOND
  const CT_UDP_NEW_TIMEOUT := 15 * SECOND
  const CT_UDP_ESTABLISHED_TIMEOUT := 120 * SECOND

  /** What a timer runs: `ctTimeoutDel`, or `ctESTABLISHEDTimeout` with the counters it was
      started with. */
  datatype Callback = TimeoutDel | EstablishedTimeout(snapshot: Stats)

  datatype Timer = Idle | Armed(deadline: nat, run: Callback)

  /** `getProtoEstablishTimeout`; the source panics for other protocols. */
  function EstablishTimeout(proto: Byte): nat
    requires proto == TCP || proto == UDP
  {
    if proto == TCP then CT_TCP_ESTABLISHED_TIMEOUT else CT_UDP_ESTABLISHED_TIMEOUT
  }
}
