/** The IPv4 and UDP headers of `src/nat/ipv4.go` and `src/nat/udp.go`, read and written in
    place in a packet buffer: `h` is the network offset, `u` the transport offset. */
module PacketHeaders {
  import opened Machine
  import opened InternetChecksum
  import opened Conntrack

  // ----- Reading -----

  function HeaderLength(b: seq<Byte>, h: nat): Byte
    requires h < |b|
  {
    b[h] % 16 * 4
  }

  function TotalLength(b: seq<Byte>, h: nat): U16
    requires h + 20 <= |b|
  {
    Get16(b, h + 2)
  }

  /** The offset field counts in units of eight bytes; the shift drops the flag bits. */
  function FragmentOffset(b: seq<Byte>, h: nat): U16
    requires h + 20 <= |b|
  {
    Get16(b, h + 6) * 8 % 0x1_0000
  }

  function Flags(b: seq<Byte>, h: nat): Byte
    requires h + 20 <= |b|
  {
    Get16(b, h + 6) / 0x2000
  }

  function SourceAddress(b: seq<Byte>, h: nat): U32
    requires h + 20 <= |b|
  {
    Get32(b, h + 12)
  }

  function DestinationAddress(b: seq<Byte>, h: nat): U32
    requires h + 20 <= |b|
  {
    Get32(b, h + 16)
  }

  function Protocol(b: seq<Byte>, h: nat): Byte
    requires h + 20 <= |b|
  {
    b[h + 9]
  }

  /** The IP header with its options, and somewhere behind its fixed part eight bytes that are
      taken for a UDP header, inside the buffer. */
  predicate Placed(b: seq<Byte>, h: nat, u: nat) {
    && h + 20 <= |b|
    && HeaderLength(b, h) >= 20
    && h + HeaderLength(b, h) <= |b|
    && h + 20 <= u && u + 8 <= |b|
  }

  /** The UDP header is where the IP header ends. */
  predicate WellPlaced(b: seq<Byte>, h: nat, u: nat) {
    Placed(b, h, u) && u == h + HeaderLength(b, h)
  }

  /** `getUDPTuple`. */
  function TupleOf(b: seq<Byte>, h: nat, u: nat): Tuple
    requires Placed(b, h, u)
  {
    Tuple(SourceAddress(b, h), DestinationAddress(b, h), Get16(b, u), Get16(b, u + 2), Protocol(b, h))
  }

  /** The one's-complement sum of the IP header, which `CalculateChecksum` computes. */
  function HeaderSum(b: seq<Byte>, h: nat): U16
    requires h + 20 <= |b| && h + HeaderLength(b, h) <= |b|
  {
    OnesSum(0, Words(b[h..h + HeaderLength(b, h)]))
  }

  // ----- Rewriting -----

  /** `SetChecksum(0)` and then `SetChecksum(^CalculateChecksum())` on the IP header. */
  function WithHeaderChecksum(b: seq<Byte>, h: nat): (r: seq<Byte>)
    requires h + 20 <= |b| && HeaderLength(b, h) >= 20 && h + HeaderLength(b, h) <= |b|
    ensures |r| == |b|
  {
    var zeroed := Patched(b, h + 10, Bytes16(0));
    Patched(zeroed, h + 10, Bytes16(Not16(HeaderSum(zeroed, h))))
  }

  /** Source address and port, or destination address and port, replaced. */
  function WithEndpoint(b: seq<Byte>, h: nat, u: nat, dir: Dir, addr: U32, port: U16): (r: seq<Byte>)
    requires Placed(b, h, u)
    ensures |r| == |b|
  {
    if dir.Origin? then Patched(Patched(b, h + 12, Bytes32(addr)), u, Bytes16(port))
    else Patched(Patched(b, h + 16, Bytes32(addr)), u + 2, Bytes16(port))
  }

  /** A packet with an endpoint replaced, a fresh header checksum and a zero UDP checksum. */
  function Rewritten(b: seq<Byte>, h: nat, u: nat, dir: Dir, addr: U32, port: U16): (r: seq<Byte>)
    requires Placed(b, h, u)
    ensures |r| == |b|
  {
    EndpointKeepsPlace(b, h, u, dir, addr, port);
    Patched(WithHeaderChecksum(WithEndpoint(b, h, u, dir, addr, port), h), u + 6, Bytes16(0))
  }

  // ----- Lemmas about single fields -----

  lemma {:induction false} Get32Patched(b: seq<Byte>, i: nat, v: U32, j: nat)
    requires i + 4 <= |b| && j + 4 <= |b|
    ensures i == j ==> Get32(Patched(b, i, Bytes32(v)), j) == v
    ensures i + 4 <= j || j + 4 <= i ==> Get32(Patched(b, i, Bytes32(v)), j) == Get32(b, j)
  {
    if i == j {
      Word32RoundTrip(v, []);
    }
  }

  lemma {:induction false} Get16Patched(b: seq<Byte>, i: nat, v: U16, j: nat)
    requires i + 2 <= |b| && j + 2 <= |b|
    ensures i == j ==> Get16(Patched(b, i, Bytes16(v)), j) == v
    ensures i + 2 <= j || j + 2 <= i ==> Get16(Patched(b, i, Bytes16(v)), j) == Get16(b, j)
  {
    if i == j {
      Word16RoundTrip(v, []);
    }
  }

  lemma {:induction false} Get16Unchanged(b: seq<Byte>, i: nat, w: seq<Byte>, j: nat)
    requires i + |w| <= |b| && j + 2 <= |b|
    requires i + |w| <= j || j + 2 <= i
    ensures Get16(Patched(b, i, w), j) == Get16(b, j)
  {
  }

  lemma {:induction false} Get32Unchanged(b: seq<Byte>, i: nat, w: seq<Byte>, j: nat)
    requires i + |w| <= |b| && j + 4 <= |b|
    requires i + |w| <= j || j + 4 <= i
    ensures Get32(Patched(b, i, w), j) == Get32(b, j)
  {
  }

  /** Writing away from the tuple's fields and the version byte leaves the tuple alone. */
  lemma {:induction false} PatchKeepsTuple(b: seq<Byte>, h: nat, u: nat, i: nat, w: seq<Byte>)
    requires Placed(b, h, u) && i + |w| <= |b|
    requires (i == h + 10 || i == u + 6) && |w| == 2
    ensures Placed(Patched(b, i, w), h, u)
    ensures TupleOf(Patched(b, i, w), h, u) == TupleOf(b, h, u)
  {
    Get32Unchanged(b, i, w, h + 12);
    Get32Unchanged(b, i, w, h + 16);
    Get16Unchanged(b, i, w, u);
    Get16Unchanged(b, i, w, u + 2);
  }

  lemma {:induction false} EndpointKeepsPlace(b: seq<Byte>, h: nat, u: nat, dir: Dir, addr: U32, port: U16)
    requires Placed(b, h, u)
    ensures Placed(WithEndpoint(b, h, u, dir, addr, port), h, u)
  {
  }

  /** The tuple after an endpoint is replaced. */
  lemma {:induction false} EndpointTuple(b: seq<Byte>, h: nat, u: nat, dir: Dir, addr: U32, port: U16)
    requires Placed(b, h, u)
    ensures Placed(WithEndpoint(b, h, u, dir, addr, port), h, u)
    ensures TupleOf(WithEndpoint(b, h, u, dir, addr, port), h, u) ==
      if dir.Origin? then TupleOf(b, h, u).(saddr := addr, sport := port)
      else TupleOf(b, h, u).(daddr := addr, dport := port)
  {
    var i, j := if dir.Origin? then h + 12 else h + 16, if dir.Origin? then u else u + 2;
    var c := Patched(b, i, Bytes32(addr));
    Get32Patched(b, i, addr, h + 12);
    Get32Patched(b, i, addr, h + 16);
    Get16Unchanged(b, i, Bytes32(addr), u);
    Get16Unchanged(b, i, Bytes32(addr), u + 2);
    Get16Patched(c, j, port, u);
    Get16Patched(c, j, port, u + 2);
    Get32Unchanged(c, j, Bytes16(port), h + 12);
    Get32Unchanged(c, j, Bytes16(port), h + 16);
  }

  // ----- Main results -----

  /** After `SetChecksum(^CalculateChecksum())` the header sums to 0xFFFF: it passes the check of
      RFC 791, section 3.1. Nothing but the checksum field changes. */
  lemma {:induction false} HeaderChecksumVerifies(b: seq<Byte>, h: nat)
    requires h + 20 <= |b| && HeaderLength(b, h) >= 20 && h + HeaderLength(b, h) <= |b|
    ensures var r := WithHeaderChecksum(b, h);
      && HeaderLength(r, h) == HeaderLength(b, h)
      && HeaderSum(r, h) == 0xFFFF
      && (forall k :: 0 <= k < |b| && k != h + 10 && k != h + 11 ==> r[k] == b[k])
  {
    var hl := HeaderLength(b, h);
    var zeroed := Patched(b, h + 10, Bytes16(0));
    var c := Not16(HeaderSum(zeroed, h));
    var header := zeroed[h..h + hl];
    Get16Patched(b, h + 10, 0, h + 10);
    assert Get16(header, 10) == 0;
    ComplementVerifies(header, 10);
    assert WithHeaderChecksum(b, h)[h..h + hl] == Patched(header, 10, Bytes16(c));
  }

  /** A rewritten packet carries the new endpoint, and keeps the other one. */
  lemma {:induction false} RewrittenTuple(b: seq<Byte>, h: nat, u: nat, dir: Dir, addr: U32, port: U16)
    requires Placed(b, h, u)
    ensures Placed(Rewritten(b, h, u, dir, addr, port), h, u)
    ensures TupleOf(Rewritten(b, h, u, dir, addr, port), h, u) ==
      if dir.Origin? then TupleOf(b, h, u).(saddr := addr, sport := port)
      else TupleOf(b, h, u).(daddr := addr, dport := port)
  {
    var e := WithEndpoint(b, h, u, dir, addr, port);
    EndpointTuple(b, h, u, dir, addr, port);
    HeaderChecksumKeepsTuple(e, h, u);
    PatchKeepsTuple(WithHeaderChecksum(e, h), h, u, u + 6, Bytes16(0));
  }

  lemma {:induction false} HeaderChecksumKeepsTuple(b: seq<Byte>, h: nat, u: nat)
    requires Placed(b, h, u)
    ensures Placed(WithHeaderChecksum(b, h), h, u)
    ensures TupleOf(WithHeaderChecksum(b, h), h, u) == TupleOf(b, h, u)
  {
    var zeroed := Patched(b, h + 10, Bytes16(0));
    PatchKeepsTuple(b, h, u, h + 10, Bytes16(0));
    PatchKeepsTuple(zeroed, h, u, h + 10, Bytes16(Not16(HeaderSum(zeroed, h))));
  }

  /** What the receiver finds: the bytes taken for the UDP checksum are zero, and the header
      checksum verifies unless they lie in the header, where they are zeroed after its checksum
      has been computed, and were not a zero of one's-complement arithmetic before. */
  lemma {:induction false} RewrittenSums(b: seq<Byte>, h: nat, u: nat, dir: Dir, addr: U32, port: U16)
    requires Placed(b, h, u) && (u - h) % 2 == 0
    ensures Placed(Rewritten(b, h, u, dir, addr, port), h, u)
    ensures HeaderSum(Rewritten(b, h, u, dir, addr, port), h) == 0xFFFF <==> ZeroingIsHarmless(b, h, u)
    ensures Get16(Rewritten(b, h, u, dir, addr, port), u + 6) == 0
  {
    EndpointKeepsPlace(b, h, u, dir, addr, port);
    var e := WithEndpoint(b, h, u, dir, addr, port);
    HeaderChecksumVerifies(e, h);
    FieldSpared(b, h, u, dir, addr, port);
    SumsAfterZeroing(WithHeaderChecksum(e, h), h, u);
  }

  /** The bytes taken for the UDP checksum, when they are about to be zeroed. */
  lemma {:induction false} FieldSpared(b: seq<Byte>, h: nat, u: nat, dir: Dir, addr: U32, port: U16)
    requires Placed(b, h, u)
    ensures Placed(WithEndpoint(b, h, u, dir, addr, port), h, u)
    ensures Get16(WithHeaderChecksum(WithEndpoint(b, h, u, dir, addr, port), h), u + 6) == Get16(b, u + 6)
    ensures WithHeaderChecksum(WithEndpoint(b, h, u, dir, addr, port), h)[h] == b[h]
  {
    EndpointKeepsPlace(b, h, u, dir, addr, port);
  }

  lemma {:induction false} SumsAfterZeroing(s: seq<Byte>, h: nat, u: nat)
    requires Placed(s, h, u) && (u - h) % 2 == 0 && HeaderSum(s, h) == 0xFFFF
    ensures var r := Patched(s, u + 6, Bytes16(0));
      && Placed(r, h, u)
      && (HeaderSum(r, h) == 0xFFFF <==> ZeroingIsHarmless(s, h, u))
      && Get16(r, u + 6) == 0
  {
    Get16Patched(s, u + 6, 0, u + 6);
    if u + 6 < h + HeaderLength(s, h) {
      EvenEnds(s[h] % 16, u + 6 - h);
      ZeroedInHeader(s, h, u + 6);
    } else {
      ZeroedOutside(s, h, u + 6);
    }
  }

  lemma {:induction false} EvenEnds(words: nat, i: nat)
    requires i % 2 == 0 && i < words * 4
    ensures i + 2 <= words * 4
  {
  }

  predicate ZeroingIsHarmless(b: seq<Byte>, h: nat, u: nat)
    requires Placed(b, h, u)
  {
    u + 6 < h + HeaderLength(b, h) ==> Get16(b, u + 6) == 0 || Get16(b, u + 6) == 0xFFFF
  }

  lemma {:induction false} ZeroedOutside(s: seq<Byte>, h: nat, i: nat)
    requires h + 20 <= |s| && h + HeaderLength(s, h) <= i && i + 2 <= |s| && HeaderLength(s, h) >= 20
    ensures HeaderSum(Patched(s, i, Bytes16(0)), h) == HeaderSum(s, h)
  {
    var r := Patched(s, i, Bytes16(0));
    assert r[h..h + HeaderLength(s, h)] == s[h..h + HeaderLength(s, h)];
  }

  /** The header does not start with a zero word: its length is in there. */
  lemma {:induction false} VersionIsThere(s: seq<Byte>, h: nat, i: nat)
    requires h + 20 <= |s| && h + HeaderLength(s, h) <= |s| && h + 20 <= i < h + HeaderLength(s, h)
    ensures Get16(s[h..h + HeaderLength(s, h)], 0) > 0
  {
    assert s[h..h + HeaderLength(s, h)][0] == s[h] > 0;
  }

  lemma {:induction false} ZeroedInHeader(s: seq<Byte>, h: nat, i: nat)
    requires h + 20 <= |s| && h + HeaderLength(s, h) <= |s| && h + 20 <= i && i + 2 <= h + HeaderLength(s, h)
    requires (i - h) % 2 == 0 && HeaderSum(s, h) == 0xFFFF
    ensures HeaderSum(Patched(s, i, Bytes16(0)), h) == 0xFFFF <==> Get16(s, i) == 0 || Get16(s, i) == 0xFFFF
  {
    var hl := HeaderLength(s, h);
    HeaderPatched(s, h, hl, i);
    VersionIsThere(s, h, i);
    ZeroingKeepsCheckIff(s[h..h + hl], i - h);
  }

  lemma {:induction false} HeaderPatched(s: seq<Byte>, h: nat, hl: nat, i: nat)
    requires h <= i && i + 2 <= h + hl <= |s|
    ensures Patched(s, i, Bytes16(0))[h..h + hl] == Patched(s[h..h + hl], i - h, Bytes16(0))
    ensures Get16(s[h..h + hl], i - h) == Get16(s, i)
  {
  }

  /** Every other byte of the packet is kept. */
  lemma {:induction false} RewrittenKeepsRest(b: seq<Byte>, h: nat, u: nat, dir: Dir, addr: U32, port: U16, k: nat)
    requires Placed(b, h, u)
    requires k < |b| && !Rewritable(k, h, u)
    ensures Rewritten(b, h, u, dir, addr, port)[k] == b[k]
  {
    var e := WithEndpoint(b, h, u, dir, addr, port);
    EndpointKeepsPlace(b, h, u, dir, addr, port);
    var s := WithHeaderChecksum(e, h);
    assert e[k] == b[k];
    assert s[k] == e[k];
  }

  /** The bytes that translation may write: header checksum, addresses, ports, UDP checksum. */
  predicate Rewritable(k: nat, h: nat, u: nat) {
    h + 10 <= k < h + 20 || u <= k < u + 4 || u + 6 <= k < u + 8
  }

  // ----- The UDP checksum chain -----

  /** `PseudoHeaderChecksum`, then the length, then the datagram: the chain that `doNat` runs. */
  function UdpChain(b: seq<Byte>, h: nat, u: nat, length: U16, len: nat): U16
    requires h + 20 <= |b| && u + len <= |b|
  {
    Chained([b[h + 12..h + 16], b[h + 16..h + 20], [0, UDP], Bytes16(length), b[u..u + len]], 0)
  }

  /** The pseudo-header of RFC 768 in front of the datagram. */
  function PseudoPacket(b: seq<Byte>, h: nat, u: nat, length: U16, len: nat): seq<Byte>
    requires h + 20 <= |b| && u + len <= |b|
  {
    b[h + 12..h + 16] + b[h + 16..h + 20] + [0, UDP] + Bytes16(length) + b[u..u + len]
  }

  /** The chain is the one's-complement sum that RFC 768 defines. */
  lemma {:induction false} UdpChainIsRfc768(b: seq<Byte>, h: nat, u: nat, length: U16, len: nat)
    requires h + 20 <= |b| && u + len <= |b| && len <= 131072
    ensures UdpChain(b, h, u, length, len) == OnesSum(0, Words(PseudoPacket(b, h, u, length, len)))
  {
    var pieces: seq<seq<Byte>> := [b[h + 12..h + 16], b[h + 16..h + 20], [0, UDP], Bytes16(length), b[u..u + len]];
    ChainingIsConcatenation(pieces, 0);
    JoinFive(pieces[0], pieces[1], pieces[2], pieces[3], pieces[4]);
  }

  lemma {:induction false} JoinFive(p: seq<Byte>, q: seq<Byte>, r: seq<Byte>, s: seq<Byte>, t: seq<Byte>)
    ensures Joined([p, q, r, s, t]) == p + q + r + s + t
  {
    assert Joined([t]) == t;
    assert [s, t][1..] == [t] && [r, s, t][1..] == [s, t] && [q, r, s, t][1..] == [r, s, t];
    assert [p, q, r, s, t][1..] == [q, r, s, t];
    assert Joined([s, t]) == s + t;
    assert Joined([r, s, t]) == r + (s + t);
    assert Joined([q, r, s, t]) == q + (r + (s + t));
  }
}
