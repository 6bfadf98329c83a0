/** From header bytes to the reassembly queues: how `ipHandler` of `src/nat/snat.go` reads a
    fragment off its IPv4 header, and that it reads what a sender has written. */
module FragmentHeaders {
  import opened Machine
  import opened PacketHeaders
  import opened FragmentQueue
  import opened Reassembly
  import opened ArrivalOrders
  import opened FragmentTable

  /** A packet as it comes in: its bytes, where the IPv4 header starts, and the length of the
      network data as the buffer knows it. */
  datatype Inbound<P> = Inbound(bytes: seq<Byte>, h: nat, netLen: U16, pkb: P)

  /** The fixed part of the header is inside the buffer. */
  predicate Readable<P>(p: Inbound<P>) {
    p.h + 20 <= |p.bytes|
  }

  /** What the handler makes of a packet. */
  datatype Kind<P> = NotV4 | NotFragment | WrongLength | Part(a: Arrival<P>)

  function KeyOf(b: seq<Byte>, h: nat): FragInfo
    requires h + 20 <= |b|
  {
    FragInfo(Protocol(b, h), Get16(b, h + 4), SourceAddress(b, h), DestinationAddress(b, h))
  }

  predicate MoreFragments(b: seq<Byte>, h: nat)
    requires h + 20 <= |b|
  {
    Flags(b, h) % 2 == 1
  }

  function Classified<P>(p: Inbound<P>): Kind<P>
    requires Readable(p)
  {
    var b, h := p.bytes, p.h;
    var offset, more := FragmentOffset(b, h), MoreFragments(b, h);
    if b[h] / 16 != 4 then NotV4
    else if offset == 0 && !more then NotFragment
    else if p.netLen != TotalLength(b, h) then WrongLength
    else Part(Arrival(KeyOf(b, h), offset, ToU16(TotalLength(b, h) - HeaderLength(b, h)), more, p.pkb))
  }

  /** The classification from the bits of the header: the version nibble, the more-fragments bit and
      the 13-bit offset, which alone make a fragment, whatever the other two flags are; and the
      length field, which is compared for fragments only. */
  lemma {:induction false} ClassifiedByBits<P>(p: Inbound<P>)
    requires Readable(p)
    ensures var b, h := p.bytes, p.h;
      var word := Get16(b, h + 6);
      && (Classified(p) == NotV4 <==> b[h] / 16 != 4)
      && (Classified(p) == NotFragment <==> b[h] / 16 == 4 && word % 0x4000 == 0)
      && (Classified(p) == WrongLength <==> b[h] / 16 == 4 && word % 0x4000 != 0 && p.netLen != Get16(b, h + 2))
      && (Classified(p).Part? ==>
            Classified(p).a == Arrival(FragInfo(b[h + 9], Get16(b, h + 4), Get32(b, h + 12), Get32(b, h + 16)),
                                       word % 0x2000 * 8, ToU16(Get16(b, h + 2) - b[h] % 16 * 4),
                                       word % 0x4000 >= 0x2000, p.pkb))
  {
    OffsetInEights(p.bytes, p.h);
    FragmentBits(Get16(p.bytes, p.h + 6));
  }

  lemma {:induction false} FragmentBits(word: U16)
    ensures word / 0x2000 % 2 == 1 <==> word % 0x4000 >= 0x2000
    ensures word % 0x2000 == 0 && word / 0x2000 % 2 == 0 <==> word % 0x4000 == 0
  {
    var w: int := word;
    assert w == w / 0x4000 * 0x4000 + w % 0x4000;
    assert w / 0x2000 == w / 0x4000 * 2 + w % 0x4000 / 0x2000;
    assert w % 0x2000 == w % 0x4000 % 0x2000;
  }

  // ----- What a sender writes is what is read -----

  /** The data follows the header. */
  predicate HasData<P>(p: Inbound<P>, data: seq<Byte>)
    requires Readable(p)
  {
    var from := p.h + HeaderLength(p.bytes, p.h);
    from + |data| <= |p.bytes| && p.bytes[from..from + |data|] == data
  }

  /** The packet has a well-formed header for piece `i` of the payload: the offset in units of
      eight bytes, and the flag for more pieces. The other two flags are free. */
  ghost predicate Carries<P>(p: Inbound<P>, pieces: seq<seq<Byte>>, i: nat, key: FragInfo) {
    && IsCut(pieces) && i < |pieces|
    && Readable(p) && p.bytes[p.h] / 16 == 4 && KeyOf(p.bytes, p.h) == key
    && p.netLen == TotalLength(p.bytes, p.h) == HeaderLength(p.bytes, p.h) + |pieces[i]|
    && HasData(p, pieces[i])
    && MoreFragments(p.bytes, p.h) == (i < |pieces| - 1)
    && Get16(p.bytes, p.h + 6) % 0x2000 == Start(pieces, i) / 8
  }

  /** The shift of the offset field drops the flags. */
  lemma {:induction false} OffsetInEights(b: seq<Byte>, h: nat)
    requires h + 20 <= |b|
    ensures FragmentOffset(b, h) == Get16(b, h + 6) % 0x2000 * 8
  {
    var w: int := Get16(b, h + 6);
    assert w * 8 == w % 0x2000 * 8 + w / 0x2000 * 0x1_0000;
  }

  /** A piece is read as it was sent if and only if it starts at a multiple of eight bytes. */
  lemma {:induction false} ReadAsSentIff<P>(p: Inbound<P>, pieces: seq<seq<Byte>>, i: nat, key: FragInfo)
    requires Carries(p, pieces, i, key)
    ensures Classified(p) == Part(ArrivalOf(pieces, key, Arrived(i, p.pkb))) <==> Start(pieces, i) % 8 == 0
  {
    OffsetInEights(p.bytes, p.h);
    FragEnd(pieces, i);
    if i == |pieces| - 1 && Start(pieces, i) % 8 == 0 {
      StartsIncrease(pieces, 0, i);
    }
  }

  /** The fragments among the packets. */
  function Fragments<P>(packets: seq<Inbound<P>>): seq<Arrival<P>>
    requires forall n :: 0 <= n < |packets| ==> Readable(packets[n])
  {
    if |packets| == 0 then []
    else
      var before, last := Fragments(packets[..|packets| - 1]), Classified(packets[|packets| - 1]);
      if last.Part? then before + [last.a] else before
  }

  /** Packets, each in a buffer of its own, that carry pieces of the payload in this order. */
  ghost predicate AreSent<P>(packets: seq<Inbound<P>>, pieces: seq<seq<Byte>>, order: seq<Arrived<P>>, key: FragInfo) {
    && |packets| == |order|
    && (forall n :: 0 <= n < |packets| ==> Readable(packets[n]))
    && (forall n :: 0 <= n < |packets| ==>
          order[n].pkb == packets[n].pkb && Carries(packets[n], pieces, order[n].piece, key))
  }

  lemma {:induction false} FragmentsNext<P>(packets: seq<Inbound<P>>, n: nat, a: Arrival<P>)
    requires (forall m :: 0 <= m < |packets| ==> Readable(packets[m])) && n < |packets|
    requires Classified(packets[n]) == Part(a)
    ensures Fragments(packets[..n + 1]) == Fragments(packets[..n]) + [a]
  {
    assert packets[..n + 1][..n] == packets[..n];
  }

  lemma {:induction false} SentAsRead<P>(packets: seq<Inbound<P>>, pieces: seq<seq<Byte>>, order: seq<Arrived<P>>,
      key: FragInfo, n: nat)
    requires IsCut(pieces) && AreSent(packets, pieces, order, key) && n < |packets|
    requires forall i :: 0 <= i < |pieces| ==> Start(pieces, i) % 8 == 0
    ensures order[n].piece < |pieces| && Classified(packets[n]) == Part(ArrivalOf(pieces, key, order[n]))
  {
    ReadAsSentIff(packets[n], pieces, order[n].piece, key);
    assert Arrived(order[n].piece, packets[n].pkb) == order[n];
  }

  ghost predicate ReadSoFar<P>(packets: seq<Inbound<P>>, pieces: seq<seq<Byte>>, order: seq<Arrived<P>>, key: FragInfo,
      n: nat)
    requires IsCut(pieces) && IsArrivals(Numbers(order), |pieces|) && AreSent(packets, pieces, order, key)
    requires n <= |packets|
  {
    Fragments(packets[..n]) == Arrivals(pieces, order, key, n)
  }

  lemma {:induction false} ReadNext<P>(packets: seq<Inbound<P>>, pieces: seq<seq<Byte>>, order: seq<Arrived<P>>,
      key: FragInfo, n: nat)
    requires IsCut(pieces) && IsArrivals(Numbers(order), |pieces|) && AreSent(packets, pieces, order, key)
    requires forall i :: 0 <= i < |pieces| ==> Start(pieces, i) % 8 == 0
    requires n < |packets| && ReadSoFar(packets, pieces, order, key, n)
    ensures ReadSoFar(packets, pieces, order, key, n + 1)
  {
    SentAsRead(packets, pieces, order, key, n);
    FragmentsNext(packets, n, ArrivalOf(pieces, key, order[n]));
  }

  /** A payload cut at multiples of eight bytes, sent in packets in any order, with or without
      repeats, arrives as its fragments in that order. */
  lemma {:induction false} PacketsAreArrivals<P>(packets: seq<Inbound<P>>, pieces: seq<seq<Byte>>,
      order: seq<Arrived<P>>, key: FragInfo, n: nat)
    requires IsCut(pieces) && IsArrivals(Numbers(order), |pieces|) && AreSent(packets, pieces, order, key)
    requires forall i :: 0 <= i < |pieces| ==> Start(pieces, i) % 8 == 0
    requires n <= |packets|
    ensures ReadSoFar(packets, pieces, order, key, n)
  {
    if n > 0 {
      PacketsAreArrivals(packets, pieces, order, key, n - 1);
      ReadNext(packets, pieces, order, key, n - 1);
    }
  }

  /** The queue of the key is the one that the arrivals fill. */
  lemma {:induction false} PacketsFillQueue<P>(packets: seq<Inbound<P>>, pieces: seq<seq<Byte>>, order: seq<Arrived<P>>,
      key: FragInfo)
    requires IsCut(pieces) && IsArrivals(Numbers(order), |pieces|) && AreSent(packets, pieces, order, key)
    requires forall i :: 0 <= i < |pieces| ==> Start(pieces, i) % 8 == 0
    ensures QueueOf(TableAfter(Fragments(packets)), key) == Filled(pieces, order, |order|)
  {
    PacketsAreArrivals(packets, pieces, order, key, |packets|);
    assert packets[..|packets|] == packets;
    ArrivalsFillQueue(pieces, order, key, |order|);
  }

  /** From the bytes of the packets to the bytes of the payload: when all pieces have come, the
      first one first and none so that it aborts, the queue of their key holds buffers whose
      data, in list order, is the payload. */
  lemma {:induction false} PayloadFromPackets(packets: seq<Inbound<PktBuf>>, pieces: seq<seq<Byte>>,
      order: seq<Arrived<PktBuf>>, key: FragInfo)
    requires IsCut(pieces) && IsArrivals(Numbers(order), |pieces|) && AreSent(packets, pieces, order, key)
    requires forall i :: 0 <= i < |pieces| ==> Start(pieces, i) % 8 == 0
    requires |order| > 0 && BuffersHoldData(pieces, order) && NoneAborts(Numbers(order), |pieces|, |order|)
    requires order[0].piece == 0 && forall i: nat :: i < |pieces| ==> i in Numbers(order)
    ensures QueueOf(TableAfter(Fragments(packets)), key).complete
    ensures ChainBytes(Packets(QueueOf(TableAfter(Fragments(packets)), key).list)) == Payload(pieces)
  {
    PacketsFillQueue(packets, pieces, order, key);
    assert Numbers(order)[..|order|] == Numbers(order);
    ReassembledWithRepeats(pieces, order, |order|);
    ChainIsPayload(pieces, order, |order|);
  }

  // ----- The code -----

  /** `ipHandler`, up to the transport protocol: a fragment goes to the queue of its key, any
      other packet goes on; a fragment whose length field is wrong aborts. */
  method HandleIp(table: FragTable, p: Inbound<PktBuf>) returns (v: Verdict, head: PktBuf?, aborts: bool,
      ghost r: Outcome)
    requires table.Valid() && Readable(p)
    requires forall f :: f in QueueOf(table.View(), KeyOf(p.bytes, p.h)).list ==> f.pkb != p.pkb
    modifies table, table.fragQueueMap.Values
    modifies ({p.pkb} + set f | f in QueueOf(table.View(), KeyOf(p.bytes, p.h)).list :: f.pkb)`next
    ensures table.Valid()
    ensures aborts <==> Classified(p) == WrongLength || (Classified(p).Part? && r == Panicked)
    ensures Classified(p).Part? ==>
      && table.View() == Handle(old(table.View()), Classified(p).a).0
      && r == Handle(old(table.View()), Classified(p).a).1
      && v == (if r == Rejected then Drop else if r == Done then Continue else Stolen)
      && (r == Done ==> Classified(p).a.key in table.fragQueueMap)
      && (r == Done ==> IsChainOf(head, table.fragQueueMap[Classified(p).a.key].list))
    ensures !Classified(p).Part? ==>
      && table.View() == old(table.View())
      && v == (if Classified(p) == NotFragment then Continue else Drop)
      && head == if Classified(p) == NotFragment then p.pkb else null
  {
    var b, h := p.bytes, p.h;
    v, head, aborts, r := Drop, null, false, Rejected;
    if b[h] / 16 != 4 {
      return;
    }
    var offset, more := FragmentOffset(b, h), MoreFragments(b, h);
    if offset == 0 && !more {
      v, head := Continue, p.pkb;
      return;
    }
    if p.netLen != TotalLength(b, h) {
      aborts := true;
      return;
    }
    var ipDataLen := ToU16(TotalLength(b, h) - HeaderLength(b, h));
    var a := Arrival(KeyOf(b, h), offset, ipDataLen, more, p.pkb);
    v, head, aborts, r := table.HandleFragment(a);
  }
}
