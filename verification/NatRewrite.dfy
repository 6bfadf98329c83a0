/** The translation of packets in place: `doNat` of `src/nat/snat.go`. */
module NatRewrite {
  import opened Machine
  import opened InternetChecksum
  import opened Conntrack
  import opened NatEntry
  import opened PacketHeaders

  // ----- Packets -----

  method PutUint16(a: array<Byte>, i: nat, v: U16)
    requires i + 2 <= a.Length
    modifies a
    ensures a[..] == Patched(old(a[..]), i, Bytes16(v))
  {
    a[i], a[i + 1] := v / 0x100, v % 0x100;
  }

  method PutUint32(a: array<Byte>, i: nat, v: U32)
    requires i + 4 <= a.Length
    modifies a
    ensures a[..] == Patched(old(a[..]), i, Bytes32(v))
  {
    var b := Bytes32(v);
    a[i], a[i + 1], a[i + 2], a[i + 3] := b[0], b[1], b[2], b[3];
  }

  /** `SetChecksum(0)`, then `SetChecksum(^CalculateChecksum())`. */
  method RefreshHeaderChecksum(a: array<Byte>, h: nat)
    requires h + 20 <= a.Length && HeaderLength(a[..], h) >= 20 && h + HeaderLength(a[..], h) <= a.Length
    modifies a
    ensures a[..] == WithHeaderChecksum(old(a[..]), h)
  {
    PutUint16(a, h + 10, 0);
    var hl := a[h] % 16 * 4;
    assert a[..][h..h + hl] == a[h..h + hl];
    var sum := Checksum(a[h..h + hl], 0);
    PutUint16(a, h + 10, Not16(sum));
  }

  /** The transport length that `doNat` computes, a `uint16` difference. */
  function DataLength(b: seq<Byte>, h: nat): U16
    requires h + 20 <= |b|
  {
    ToU16((TotalLength(b, h) as int) - HeaderLength(b, h))
  }

  /** How many bytes `CalChecksum` sums: that length, or the UDP header's own when it is 0. */
  function SummedLength(b: seq<Byte>, h: nat, u: nat): U16
    requires Placed(b, h, u)
  {
    if DataLength(b, h) != 0 then DataLength(b, h) else Get16(b, u + 4)
  }

  /** The packet is to be translated, and its length field points past the buffer. */
  predicate PastBuffer(b: seq<Byte>, h: nat, u: nat, e: Entry)
    requires Placed(b, h, u)
  {
    e.snat && e.origin.proto == UDP && u + SummedLength(b, h, u) > |b|
  }

  lemma {:induction false} PatchSame(b: seq<Byte>, i: nat)
    requires i + 2 <= |b|
    ensures Patched(b, i, Bytes16(Get16(b, i))) == b
  {
    Word16RoundTrip(0, b[i..i + 2]);
    assert Get16(b[i..i + 2], 0) == Get16(b, i);
  }

  /** The endpoint that translation writes. */
  function NewAddress(e: Entry, dir: Dir): U32 {
    if dir.Origin? then e.reply.daddr else e.origin.saddr
  }

  function NewPort(b: seq<Byte>, u: nat, e: Entry, dir: Dir): U16
    requires u + 2 <= |b|
  {
    if dir.Reply? then e.origin.sport
    else if e.origin.sport != e.reply.dport then e.reply.dport
    else Get16(b, u)
  }

  /** What `doNat` makes of a packet of entry `e` going in direction `dir`. */
  function Translated(b: seq<Byte>, h: nat, u: nat, e: Entry, dir: Dir): (r: seq<Byte>)
    requires Placed(b, h, u)
    ensures |r| == |b|
  {
    if !e.snat || e.origin.proto != UDP then b
    else Rewritten(b, h, u, dir, NewAddress(e, dir), NewPort(b, u, e, dir))
  }

  method RewriteEndpoint(a: array<Byte>, h: nat, u: nat, e: Entry, dir: Dir)
    requires Placed(a[..], h, u)
    modifies a
    ensures a[..] == WithEndpoint(old(a[..]), h, u, dir, NewAddress(e, dir), NewPort(old(a[..]), u, e, dir))
  {
    ghost var b := a[..];
    if dir.Origin? {
      PutUint32(a, h + 12, e.reply.daddr);
      if e.origin.sport != e.reply.dport {
        PutUint16(a, u, e.reply.dport);
      } else {
        Get16Unchanged(b, h + 12, Bytes32(e.reply.daddr), u);
        PatchSame(a[..], u);
      }
    } else {
      PutUint32(a, h + 16, e.origin.saddr);
      PutUint16(a, u + 2, e.origin.sport);
    }
  }

  /** `PseudoHeaderChecksum`, then `CalculateChecksum` for the length, then `CalChecksum`. */
  method UdpChecksum(a: array<Byte>, h: nat, u: nat, length: U16, len: nat) returns (xsum: U16)
    requires h + 20 <= a.Length && u + len <= a.Length
    ensures xsum == UdpChain(a[..], h, u, length, len)
  {
    xsum := Checksum(a[h + 12..h + 16], 0);
    xsum := Checksum(a[h + 16..h + 20], xsum);
    xsum := Checksum([0, UDP], xsum);
    xsum := Checksum(Bytes16(length), xsum);
    xsum := Checksum(a[u..u + len], xsum);
    assert a[h + 12..h + 16] == a[..][h + 12..h + 16] && a[h + 16..h + 20] == a[..][h + 16..h + 20];
    assert a[u..u + len] == a[..][u..u + len];
    ChainFive(a[..][h + 12..h + 16], a[..][h + 16..h + 20], [0, UDP], Bytes16(length), a[..][u..u + len]);
  }

  lemma {:induction false} ChainFive(p: seq<Byte>, q: seq<Byte>, r: seq<Byte>, s: seq<Byte>, t: seq<Byte>)
    ensures Chained([p, q, r, s, t], 0) == Summed(t, Summed(s, Summed(r, Summed(q, Summed(p, 0)))))
  {
    assert [s, t][1..] == [t] && [r, s, t][1..] == [s, t] && [q, r, s, t][1..] == [r, s, t];
    assert [p, q, r, s, t][1..] == [q, r, s, t];
    ChainCons(p, [q, r, s, t], 0);
    ChainCons(q, [r, s, t], Summed(p, 0));
    ChainCons(r, [s, t], Summed(q, Summed(p, 0)));
    ChainCons(s, [t], Summed(r, Summed(q, Summed(p, 0))));
    ChainCons(t, [], Summed(s, Summed(r, Summed(q, Summed(p, 0)))));
  }

  lemma {:induction false} ChainCons(p: seq<Byte>, rest: seq<seq<Byte>>, initial: U16)
    ensures Chained([p] + rest, initial) == Chained(rest, Summed(p, initial))
  {
    assert ([p] + rest)[1..] == rest;
  }

  /** `doNat` on the first (or only) buffer of a datagram. The chain of checksums `xsum` is
      computed but, as in the source, the checksum field is left 0. A length field that points
      past the buffer aborts, when the packet has been rewritten. */
  method DoNat(a: array<Byte>, h: nat, u: nat, e: Entry, dir: Dir) returns (xsum: U16, aborts: bool)
    requires Placed(a[..], h, u)
    modifies a
    ensures a[..] == Translated(old(a[..]), h, u, e, dir)
    ensures aborts <==> PastBuffer(old(a[..]), h, u, e)
    ensures e.snat && e.origin.proto == UDP && !aborts ==>
      xsum == UdpChain(a[..], h, u, DataLength(old(a[..]), h), SummedLength(old(a[..]), h, u))
  {
    if !e.snat || e.origin.proto != UDP {
      return 0, false;
    }
    ghost var b := a[..];
    var length := DataLength(a[..], h);
    var len := if length != 0 then length else Get16(a[..], u + 4);
    ghost var addr, port := NewAddress(e, dir), NewPort(b, u, e, dir);
    EndpointKeepsPlace(b, h, u, dir, addr, port);
    RewriteEndpoint(a, h, u, e, dir);
    RefreshHeaderChecksum(a, h);
    assert a[..] == WithHeaderChecksum(WithEndpoint(b, h, u, dir, addr, port), h);
    PutUint16(a, u + 6, 0);
    assert a[..] == Rewritten(b, h, u, dir, addr, port);
    aborts := u + len > a.Length;
    xsum := 0;
    if !aborts {
      xsum := UdpChecksum(a, h, u, length, len);
    }
  }

  /** Follow-on fragments get the source address of the translated flow, whatever the direction. */
  function FollowOn(b: seq<Byte>, h: nat, e: Entry, dir: Dir): (r: seq<Byte>)
    requires h + 20 <= |b| && HeaderLength(b, h) >= 20 && h + HeaderLength(b, h) <= |b|
    ensures |r| == |b|
  {
    var addr := if dir.Origin? then e.reply.daddr else e.origin.daddr;
    WithHeaderChecksum(Patched(b, h + 12, Bytes32(addr)), h)
  }

  method DoNatFollowOn(a: array<Byte>, h: nat, e: Entry, dir: Dir)
    requires h + 20 <= a.Length && HeaderLength(a[..], h) >= 20 && h + HeaderLength(a[..], h) <= a.Length
    modifies a
    ensures a[..] == FollowOn(old(a[..]), h, e, dir)
  {
    PutUint32(a, h + 12, if dir.Origin? then e.reply.daddr else e.origin.daddr);
    RefreshHeaderChecksum(a, h);
  }

  // ----- Main results -----

  /** Translation in the buffer is translation of the tuple: with the entry and direction of the
      tuple that is read, the bytes afterwards carry exactly the translated tuple. The header
      checksum verifies if the tuple is read behind the header, and else exactly if zeroing the
      bytes taken for the UDP checksum is harmless. */
  lemma {:induction false} BytesCarryTranslation(b: seq<Byte>, h: nat, u: nat, e: Entry, dir: Dir, snatIP: U32)
    requires Placed(b, h, u) && (u - h) % 2 == 0 && EntryOk(e, snatIP)
    requires TupleOf(b, h, u) == if dir.Origin? then e.origin else e.reply
    ensures var r := Translated(b, h, u, e, dir);
      && Placed(r, h, u)
      && TupleOf(r, h, u) == Translate(e, TupleOf(b, h, u), dir)
      && (HeaderSum(r, h) == 0xFFFF <==> ZeroingIsHarmless(b, h, u))
      && (WellPlaced(b, h, u) ==> WellPlaced(r, h, u) && HeaderSum(r, h) == 0xFFFF)
  {
    var addr, port := NewAddress(e, dir), NewPort(b, u, e, dir);
    RewrittenTuple(b, h, u, dir, addr, port);
    RewrittenSums(b, h, u, dir, addr, port);
  }

  /** `doNat` leaves a packet alone if its connection is not marked for source NAT, or is not UDP. */
  lemma {:induction false} UnmarkedStays(b: seq<Byte>, h: nat, u: nat, e: Entry, dir: Dir)
    requires Placed(b, h, u) && (!e.snat || e.origin.proto != UDP)
    ensures Translated(b, h, u, e, dir) == b && !PastBuffer(b, h, u, e)
    ensures !e.snat ==> TupleOf(b, h, u) == Translate(e, TupleOf(b, h, u), dir)
  {
  }

  /** When `doNat` aborts, by the header bytes: what the `uint16` difference of the two lengths, or
      the UDP length if they are equal, claims to lie behind `u` is not in the buffer. */
  lemma {:induction false} AbortsExactly(b: seq<Byte>, h: nat, u: nat, e: Entry)
    requires Placed(b, h, u)
    ensures var total, header := Get16(b, h + 2), (b[h] as nat) % 16 * 4;
      PastBuffer(b, h, u, e) <==>
        && e.snat && e.origin.proto == UDP
        && |b| < u + if total == header then Get16(b, u + 4)
                     else if total > header then total - header
                     else 0x1_0000 + total - header
  {
  }

  /** A packet whose length field is right does not abort, and the sum that `doNat` computes is that
      of RFC 768 over the whole translated datagram, with its checksum field zeroed. */
  lemma {:induction false} SumsWholeDatagram(b: seq<Byte>, h: nat, u: nat, e: Entry, dir: Dir)
    requires WellPlaced(b, h, u) && Get16(b, h + 2) == |b| - h && e.snat && e.origin.proto == UDP
    ensures !PastBuffer(b, h, u, e)
    ensures var r, n := Translated(b, h, u, e, dir), |b| - u;
      && r[u + 6] == r[u + 7] == 0
      && UdpChain(r, h, u, DataLength(b, h), SummedLength(b, h, u)) == OnesSum(0, Words(PseudoPacket(r, h, u, n, n)))
  {
    var r, n := Translated(b, h, u, e, dir), |b| - u;
    assert DataLength(b, h) == SummedLength(b, h, u) == n;
    UdpChainIsRfc768(r, h, u, n, n);
  }

  /** There and back again: the answer to a translated packet, translated in the other direction,
      reaches the sender as the answer to what it sent; only header fields are ever written, so
      the payload of either packet is untouched. */
  lemma {:induction false} RoundTripInBytes(
    out: seq<Byte>, h: nat, u: nat, back: seq<Byte>, h': nat, u': nat, e: Entry, snatIP: U32)
    requires WellPlaced(out, h, u) && WellPlaced(back, h', u') && EntryOk(e, snatIP)
    requires TupleOf(out, h, u) == e.origin
    requires WellPlaced(Translated(out, h, u, e, Origin), h, u)
    requires TupleOf(back, h', u') == Invert(TupleOf(Translated(out, h, u, e, Origin), h, u))
    ensures WellPlaced(Translated(back, h', u', e, Reply), h', u')
    ensures TupleOf(Translated(back, h', u', e, Reply), h', u') == Invert(TupleOf(out, h, u))
    ensures PayloadKept(out, Translated(out, h, u, e, Origin), u)
    ensures PayloadKept(back, Translated(back, h', u', e, Reply), u')
  {
    WayOut(out, h, u, e, snatIP);
    WayBack(back, h', u', e, snatIP);
    PayloadUntouched(out, h, u, e, Origin);
    PayloadUntouched(back, h', u', e, Reply);
  }

  lemma {:induction false} WayOut(out: seq<Byte>, h: nat, u: nat, e: Entry, snatIP: U32)
    requires WellPlaced(out, h, u) && EntryOk(e, snatIP) && TupleOf(out, h, u) == e.origin
    requires WellPlaced(Translated(out, h, u, e, Origin), h, u)
    ensures Invert(TupleOf(Translated(out, h, u, e, Origin), h, u)) == e.reply
  {
    BytesCarryTranslation(out, h, u, e, Origin, snatIP);
    TranslationOf(e, snatIP);
    InvertTwice(e.reply);
  }

  lemma {:induction false} WayBack(back: seq<Byte>, h: nat, u: nat, e: Entry, snatIP: U32)
    requires WellPlaced(back, h, u) && EntryOk(e, snatIP) && TupleOf(back, h, u) == e.reply
    ensures WellPlaced(Translated(back, h, u, e, Reply), h, u)
    ensures TupleOf(Translated(back, h, u, e, Reply), h, u) == Invert(e.origin)
  {
    BytesCarryTranslation(back, h, u, e, Reply, snatIP);
    TranslationOf(e, snatIP);
  }

  /** No byte behind the UDP header changes. */
  ghost predicate PayloadKept(b: seq<Byte>, r: seq<Byte>, u: nat) {
    |r| == |b| && forall k :: u + 8 <= k < |b| ==> r[k] == b[k]
  }

  lemma {:induction false} PayloadUntouched(b: seq<Byte>, h: nat, u: nat, e: Entry, dir: Dir)
    requires Placed(b, h, u)
    ensures PayloadKept(b, Translated(b, h, u, e, dir), u)
  {
    forall k | u + 8 <= k < |b| ensures Translated(b, h, u, e, dir)[k] == b[k] {
      RewrittenKeepsRest(b, h, u, dir, NewAddress(e, dir), NewPort(b, u, e, dir), k);
    }
  }

  /** In the origin direction the follow-on fragments leave from the same address as the first
      one. In the reply direction they keep their destination: they reach the sender exactly when
      no address translation was needed. */
  lemma {:induction false} FollowOnAddresses(b: seq<Byte>, h: nat, e: Entry, dir: Dir, snatIP: U32)
    requires h + 20 <= |b| && HeaderLength(b, h) >= 20 && h + HeaderLength(b, h) <= |b|
    requires EntryOk(e, snatIP)
    requires SourceAddress(b, h) == if dir.Origin? then e.origin.saddr else e.reply.saddr
    requires DestinationAddress(b, h) == if dir.Origin? then e.origin.daddr else e.reply.daddr
    ensures var r := FollowOn(b, h, e, dir);
      && HeaderSum(r, h) == 0xFFFF
      && (dir.Origin? ==> SourceAddress(r, h) == snatIP && DestinationAddress(r, h) == e.origin.daddr)
      && (dir.Reply? ==> (DestinationAddress(r, h) == e.origin.saddr <==> e.origin.saddr == snatIP))
  {
    var addr := if dir.Origin? then e.reply.daddr else e.origin.daddr;
    var c := Patched(b, h + 12, Bytes32(addr));
    Get32Patched(b, h + 12, addr, h + 12);
    Get32Patched(b, h + 12, addr, h + 16);
    HeaderChecksumVerifies(c, h);
    SumKeepsAddresses(c, WithHeaderChecksum(c, h), h);
  }

  lemma {:induction false} SumKeepsAddresses(c: seq<Byte>, r: seq<Byte>, h: nat)
    requires |r| == |c| && h + 20 <= |c|
    requires forall k :: 0 <= k < |c| && k != h + 10 && k != h + 11 ==> r[k] == c[k]
    ensures SourceAddress(r, h) == SourceAddress(c, h)
    ensures DestinationAddress(r, h) == DestinationAddress(c, h)
  {
  }
}
