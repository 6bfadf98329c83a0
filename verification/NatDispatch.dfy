/** `ipHandler` of `src/nat/snat.go` from end to end: reassembly, and then the transport handler on
    the head of the chain, with the header length of the packet that arrived last. */
module NatDispatch {
  import opened Machine
  import opened Conntrack
  import opened NatEntry
  import opened NatTable
  import opened NatConnections
  import PacketHeaders
  import NatRewrite
  import opened NatChain
  import NatHandler
  import opened FragmentQueue
  import opened FragmentTable
  import opened FragmentHeaders

  // ----- The buffers that are handed on -----

  const ICMP: Byte := 1

  /** The packet as it comes in. */
  ghost function Incoming(pkb: PktBuf, netLen: U16): Inbound<PktBuf>
    reads pkb.bytes
  {
    Inbound(pkb.bytes[..], pkb.h, netLen, pkb)
  }

  /** The buffers that go on to the transport protocol: the packet itself, or the chain that it
      completes, or none. */
  ghost function HandedOn(t: map<FragInfo, Queue<PktBuf>>, p: Inbound<PktBuf>): seq<PktBuf>
    requires Readable(p)
  {
    match Classified(p)
    case NotFragment => [p.pkb]
    case Part(a) => if Handle(t, a).1 == Done then Packets(Handle(t, a).0[a.key].list) else []
    case _ => []
  }

  /** Dropped, kept for reassembly, or passed on. */
  ghost function VerdictOf(t: map<FragInfo, Queue<PktBuf>>, p: Inbound<PktBuf>): Verdict
    requires Readable(p)
  {
    match Classified(p)
    case NotFragment => Continue
    case Part(a) =>
      var r := Handle(t, a).1;
      if r == Rejected then Drop else if r == Done then Continue else Stolen
    case _ => Drop
  }

  ghost predicate Aborts(t: map<FragInfo, Queue<PktBuf>>, p: Inbound<PktBuf>)
    requires Readable(p)
  {
    match Classified(p)
    case WrongLength => true
    case Part(a) => Handle(t, a).1 == Panicked
    case _ => false
  }

  /** Where the transport header is looked for. */
  function Offset(head: PktBuf, p: Inbound<PktBuf>): nat
    requires Readable(p)
  {
    head.h + PacketHeaders.HeaderLength(p.bytes, p.h)
  }

  /** A whole packet, whatever its "don't fragment" and reserved flags are, goes on by itself, is
      read at its own header length, and leaves the fragments alone. */
  lemma {:induction false} WholePacketGoesOn(t: map<FragInfo, Queue<PktBuf>>, p: Inbound<PktBuf>)
    requires Readable(p) && p.bytes[p.h] / 16 == 4 && Get16(p.bytes, p.h + 6) % 0x4000 == 0
    ensures HandedOn(t, p) == [p.pkb] && Stepped(t, p) == t
    ensures Offset(p.pkb, p) == p.pkb.h + p.bytes[p.h] % 16 * 4
  {
    ClassifiedByBits(p);
  }

  /** The fragments after the packet. */
  ghost function Stepped(t: map<FragInfo, Queue<PktBuf>>, p: Inbound<PktBuf>): map<FragInfo, Queue<PktBuf>>
    requires Readable(p)
  {
    match Classified(p)
    case Part(a) => Handle(t, a).0
    case _ => t
  }

  /** The buffers behind the head, as `doNat` walks them. */
  function Behind(ps: seq<PktBuf>): (rest: seq<Buffer>)
    requires |ps| > 0
    ensures |rest| == |ps| - 1 && forall i :: 0 <= i < |rest| ==> rest[i] == Buffer(ps[i + 1].bytes, ps[i + 1].h)
  {
    seq(|ps| - 1, i requires 0 <= i < |ps| - 1 => Buffer(ps[i + 1].bytes, ps[i + 1].h))
  }

  /** No two buffers share their bytes. */
  ghost predicate OwnBytes(ps: seq<PktBuf>) {
    forall i, j :: 0 <= i < j < |ps| ==> ps[i].bytes != ps[j].bytes
  }

  /** All headers are in their buffers, and the transport header is where it is looked for. */
  ghost predicate Usable(ps: seq<PktBuf>, bs: seq<seq<Byte>>, p: Inbound<PktBuf>)
    requires Readable(p) && |ps| == |bs| > 0
  {
    && PacketHeaders.Placed(bs[0], ps[0].h, Offset(ps[0], p))
    && forall i :: 0 <= i < |ps| ==> HasHeader(bs[i], ps[i].h)
  }

  lemma {:induction false} BehindIsApart(ps: seq<PktBuf>)
    requires |ps| > 0 && OwnBytes(ps)
    ensures Apart(ps[0].bytes, Behind(ps))
  {
  }

  /** The buffers behind the head, collected along the links. */
  method Walk(head: PktBuf, ghost list: seq<Fragment<PktBuf>>, n: nat) returns (rest: seq<Buffer>)
    requires IsChainOf(head, list) && n == |list|
    ensures rest == Behind(Packets(list))
  {
    var p: PktBuf := head;
    rest := [];
    var i := 1;
    while i < n
      invariant 1 <= i <= n && p == Packets(list)[i - 1]
      invariant rest == Behind(Packets(list))[..i - 1]
    {
      assert Packets(list)[i - 1].next == Packets(list)[i];
      p := p.next;
      rest := rest + [Buffer(p.bytes, p.h)];
      i := i + 1;
    }
  }

  // ----- The code -----

  /** Reassembly, and the buffers to go on with. */
  method Reassemble(table: FragTable, pkb: PktBuf, netLen: U16, ghost was: Inbound<PktBuf>)
    returns (v: Verdict, head: PktBuf?, rest: seq<Buffer>, aborts: bool, ghost ps: seq<PktBuf>)
    requires was == Incoming(pkb, netLen)
    requires table.Valid() && Readable(Incoming(pkb, netLen))
    requires forall f :: f in QueueOf(table.View(), KeyOf(pkb.bytes[..], pkb.h)).list ==> f.pkb != pkb
    modifies table, table.fragQueueMap.Values
    modifies ({pkb} + set f | f in QueueOf(table.View(), KeyOf(pkb.bytes[..], pkb.h)).list :: f.pkb)`next
    ensures table.Valid() && table.View() == Stepped(old(table.View()), was)
    ensures Readable(was) && ps == HandedOn(old(table.View()), was)
    ensures v == VerdictOf(old(table.View()), was) && (v == Continue <==> |ps| > 0)
    ensures v == Continue ==> !aborts && head == ps[0] && rest == Behind(ps)
    ensures aborts <==> Aborts(old(table.View()), was)
  {
    var p := Inbound(pkb.bytes[..], pkb.h, netLen, pkb);
    ps := HandedOn(table.View(), p);
    ghost var r;
    v, head, aborts, r := HandleIp(table, p);
    rest := [];
    if v == Continue && Classified(p).Part? {
      var list := table.fragQueueMap[Classified(p).a.key].list;
      rest := Walk(head, list, |list|);
    }
  }

  /** The transport handlers: only UDP is translated; other known protocols pass, unknown ones are
      dropped. */
  method Transport(nct: NetConntrack, head: PktBuf, rest: seq<Buffer>, proto: Byte, u: nat, pktLen: nat, now: nat)
    returns (v: Verdict, aborts: bool, t: Tuple, dir: Dir, ghost e: Entry)
    requires nct.Valid()
    requires proto == UDP ==>
      && PacketHeaders.Placed(head.bytes[..], head.h, u) && Apart(head.bytes, rest) && AllHeaders(Contents(rest), rest)
      && Enabled(nct.View(now), Packet(PacketHeaders.TupleOf(head.bytes[..], head.h, u), pktLen), nct.snatIP)
    modifies nct, nct.all, head.bytes, set b | b in rest :: b.a
    ensures nct.Valid()
    ensures v == if proto == UDP || proto == TCP || proto == ICMP then Continue else Drop
    ensures proto == UDP ==>
      && t == old(PacketHeaders.TupleOf(head.bytes[..], head.h, u))
      && nct.View(now) == Next(old(nct.View(now)), Packet(t, pktLen), nct.snatIP)
      && Handles(nct, t, e) && dir == e.DirOf(t)
      && head.bytes[..] == NatRewrite.Translated(old(head.bytes[..]), head.h, u, e, dir)
      && aborts == NatRewrite.PastBuffer(old(head.bytes[..]), head.h, u, e)
      && FollowOnsDone(old(Contents(rest)), rest, e, dir, aborts)
    ensures proto != UDP ==>
      && nct.View(now) == old(nct.View(now)) && !aborts
      && head.bytes[..] == old(head.bytes[..]) && Contents(rest) == old(Contents(rest))
  {
    t, aborts, dir := Tuple(0, 0, 0, 0, 0), false, Origin;
    e := Entry(CtNew, Stats(0, 0), t, t, Idle, false);
    v := if proto == UDP || proto == TCP || proto == ICMP then Continue else Drop;
    if proto == UDP {
      var ct;
      t, ct, dir, aborts := NatHandler.HandleUdp(nct, head.bytes, head.h, u, rest, pktLen, now);
      e := ct.Rec();
    }
  }

  /** The entry of the table that handles the tuple. */
  ghost predicate Handles(nct: NetConntrack, t: Tuple, e: Entry)
    reads nct, nct.all
  {
    t in nct.table && nct.table[t] < |nct.all| && nct.all[nct.table[t]].Rec() == e
  }

  /** What has to hold of the buffers handed on to the UDP handler, and of its table. */
  ghost predicate UdpReady(s: State, snatIP: U32, ps: seq<PktBuf>, bs: seq<seq<Byte>>, p: Inbound<PktBuf>, pktLen: nat)
    requires Readable(p) && |ps| == |bs| > 0
  {
    && OwnBytes(ps) && Usable(ps, bs, p)
    && Enabled(s, Packet(PacketHeaders.TupleOf(bs[0], ps[0].h, Offset(ps[0], p)), pktLen), snatIP)
  }

  /** The bytes of the buffers. */
  ghost function BytesOf(ps: seq<PktBuf>): (bs: seq<seq<Byte>>)
    reads set b | b in ps :: b.bytes
    ensures |bs| == |ps| && forall i :: 0 <= i < |ps| ==> bs[i] == ps[i].bytes[..]
  {
    seq(|ps|, i requires 0 <= i < |ps| reads set b | b in ps :: b.bytes => ps[i].bytes[..])
  }

  /** What becomes of the buffers of a datagram, and of the table, when the tuple is read at `u`. */
  ghost predicate Carried(nct: NetConntrack, ps: seq<PktBuf>, bs: seq<seq<Byte>>, u: nat, t: Tuple, e: Entry, dir: Dir,
      aborts: bool)
    requires |ps| == |bs| > 0
    reads nct, nct.all, set b | b in ps :: b.bytes
  {
    && PacketHeaders.Placed(bs[0], ps[0].h, u) && t == PacketHeaders.TupleOf(bs[0], ps[0].h, u)
    && Handles(nct, t, e) && dir == e.DirOf(t)
    && ps[0].bytes[..] == NatRewrite.Translated(bs[0], ps[0].h, u, e, dir)
    && aborts == NatRewrite.PastBuffer(bs[0], ps[0].h, u, e)
    && AllHeaders(bs[1..], Behind(ps)) && FollowOnsDone(bs[1..], Behind(ps), e, dir, aborts)
  }

  /** The table has seen one packet. */
  ghost predicate Counted(s: State, s': State, t: Tuple, pktLen: nat, snatIP: U32) {
    Enabled(s, Packet(t, pktLen), snatIP) && s' == Next(s, Packet(t, pktLen), snatIP)
  }

  /** The buffers handed on go to the transport handler. */
  method HandOver(nct: NetConntrack, head: PktBuf, rest: seq<Buffer>, proto: Byte, u: nat, pktLen: nat, now: nat,
      ghost ps: seq<PktBuf>, ghost p: Inbound<PktBuf>, ghost bs: seq<seq<Byte>>)
    returns (v: Verdict, aborts: bool, t: Tuple, dir: Dir, ghost e: Entry)
    requires bs == BytesOf(ps)
    requires |ps| > 0 && head == ps[0] && rest == Behind(ps) && nct.Valid() && Readable(p) && u == Offset(head, p)
    requires proto == UDP ==> UdpReady(nct.View(now), nct.snatIP, ps, bs, p, pktLen)
    modifies nct, nct.all, set b | b in ps :: b.bytes
    ensures nct.Valid()
    ensures v == if proto == UDP || proto == TCP || proto == ICMP then Continue else Drop
    ensures proto != UDP ==> nct.View(now) == old(nct.View(now)) && BytesOf(ps) == bs
    ensures proto == UDP ==>
      && Counted(old(nct.View(now)), nct.View(now), t, pktLen, nct.snatIP)
      && Carried(nct, ps, bs, u, t, e, dir, aborts)
  {
    assert Contents(rest) == bs[1..];
    if proto == UDP {
      BehindIsApart(ps);
    }
    v, aborts, t, dir, e := Transport(nct, head, rest, proto, u, pktLen, now);
    if proto != UDP {
      assert forall i :: 0 < i < |ps| ==> ps[i].bytes[..] == Contents(rest)[i - 1] == bs[i];
    }
  }

  /** The transport handler does not touch the fragments. */
  method HandOverAside(table: FragTable, nct: NetConntrack, head: PktBuf, rest: seq<Buffer>, proto: Byte, u: nat,
      pktLen: nat, now: nat, ghost ps: seq<PktBuf>, ghost p: Inbound<PktBuf>, ghost bs: seq<seq<Byte>>)
    returns (v: Verdict, aborts: bool, t: Tuple, dir: Dir, ghost e: Entry)
    requires bs == BytesOf(ps) && table.Valid()
    requires |ps| > 0 && head == ps[0] && rest == Behind(ps) && nct.Valid() && Readable(p) && u == Offset(head, p)
    requires proto == UDP ==> UdpReady(nct.View(now), nct.snatIP, ps, bs, p, pktLen)
    modifies nct, nct.all, set b | b in ps :: b.bytes
    ensures nct.Valid() && table.Valid() && table.View() == old(table.View())
    ensures v == if proto == UDP || proto == TCP || proto == ICMP then Continue else Drop
    ensures proto != UDP ==> nct.View(now) == old(nct.View(now)) && BytesOf(ps) == bs
    ensures proto == UDP ==>
      && Counted(old(nct.View(now)), nct.View(now), t, pktLen, nct.snatIP)
      && Carried(nct, ps, bs, u, t, e, dir, aborts)
  {
    v, aborts, t, dir, e := HandOver(nct, head, rest, proto, u, pktLen, now, ps, p, bs);
    table.ViewUntouched();
  }

  /** The bytes of the packet, and of the fragments held under its key. */
  ghost function HeldBytes(t: map<FragInfo, Queue<PktBuf>>, p: Inbound<PktBuf>): set<array<Byte>>
    requires Readable(p)
  {
    {p.pkb.bytes} + set f | f in QueueOf(t, KeyOf(p.bytes, p.h)).list :: f.pkb.bytes
  }

  lemma {:induction false} HandedOnAreHeld(t: map<FragInfo, Queue<PktBuf>>, p: Inbound<PktBuf>)
    requires Readable(p)
    ensures forall q :: q in HandedOn(t, p) ==> q.bytes in HeldBytes(t, p)
  {
  }

  /** Reassembly does not touch the bytes. */
  method ReassembleBytes(table: FragTable, pkb: PktBuf, netLen: U16)
    returns (v: Verdict, head: PktBuf?, rest: seq<Buffer>, aborts: bool, ghost p: Inbound<PktBuf>,
             ghost ps: seq<PktBuf>, ghost bs: seq<seq<Byte>>)
    requires table.Valid() && Readable(Incoming(pkb, netLen))
    requires forall f :: f in QueueOf(table.View(), KeyOf(pkb.bytes[..], pkb.h)).list ==> f.pkb != pkb
    modifies table, table.fragQueueMap.Values
    modifies ({pkb} + set f | f in QueueOf(table.View(), KeyOf(pkb.bytes[..], pkb.h)).list :: f.pkb)`next
    ensures p == old(Incoming(pkb, netLen)) && ps == HandedOn(old(table.View()), p)
    ensures bs == old(BytesOf(HandedOn(table.View(), Incoming(pkb, netLen)))) && bs == BytesOf(ps)
    ensures table.Valid() && table.View() == Stepped(old(table.View()), p)
    ensures v == VerdictOf(old(table.View()), p) && (v == Continue <==> |ps| > 0)
    ensures v == Continue ==> !aborts && head == ps[0] && rest == Behind(ps)
    ensures aborts <==> Aborts(old(table.View()), p)
  {
    p := Incoming(pkb, netLen);
    ps := HandedOn(table.View(), p);
    bs := BytesOf(ps);
    ghost var same;
    v, head, rest, aborts, same := Reassemble(table, pkb, netLen, p);
  }

  /** Nor the connections. */
  method ReassembleAside(table: FragTable, nct: NetConntrack, pkb: PktBuf, netLen: U16, now: nat)
    returns (v: Verdict, head: PktBuf?, rest: seq<Buffer>, aborts: bool, ghost p: Inbound<PktBuf>,
             ghost ps: seq<PktBuf>, ghost bs: seq<seq<Byte>>)
    requires table.Valid() && nct.Valid() && Readable(Incoming(pkb, netLen))
    requires forall f :: f in QueueOf(table.View(), KeyOf(pkb.bytes[..], pkb.h)).list ==> f.pkb != pkb
    modifies table, table.fragQueueMap.Values
    modifies ({pkb} + set f | f in QueueOf(table.View(), KeyOf(pkb.bytes[..], pkb.h)).list :: f.pkb)`next
    ensures nct.Valid() && nct.View(now) == old(nct.View(now)) && nct.all == old(nct.all)
    ensures p == old(Incoming(pkb, netLen)) && ps == HandedOn(old(table.View()), p)
    ensures bs == old(BytesOf(HandedOn(table.View(), Incoming(pkb, netLen)))) && bs == BytesOf(ps)
    ensures table.Valid() && table.View() == Stepped(old(table.View()), p)
    ensures v == VerdictOf(old(table.View()), p) && (v == Continue <==> |ps| > 0)
    ensures v == Continue ==> !aborts && head == ps[0] && rest == Behind(ps)
    ensures aborts <==> Aborts(old(table.View()), p)
  {
    v, head, rest, aborts, p, ps, bs := ReassembleBytes(table, pkb, netLen);
    nct.Untouched(now);
  }

  /** The packet that arrives may complete a datagram. What is handed on goes to the transport
      handler of the last arrival's protocol, at the header length of the last arrival. */
  method HandlePacket(table: FragTable, nct: NetConntrack, pkb: PktBuf, netLen: U16, pktLen: nat, now: nat)
    returns (v: Verdict, aborts: bool, t: Tuple, dir: Dir, ghost e: Entry, ghost p: Inbound<PktBuf>,
             ghost ps: seq<PktBuf>, ghost bs: seq<seq<Byte>>)
    requires table.Valid() && nct.Valid() && Readable(Incoming(pkb, netLen))
    requires forall f :: f in QueueOf(table.View(), KeyOf(pkb.bytes[..], pkb.h)).list ==> f.pkb != pkb
    requires var ps := HandedOn(table.View(), Incoming(pkb, netLen));
      |ps| > 0 && PacketHeaders.Protocol(pkb.bytes[..], pkb.h) == UDP ==>
        UdpReady(nct.View(now), nct.snatIP, ps, BytesOf(ps), Incoming(pkb, netLen), pktLen)
    modifies table, table.fragQueueMap.Values
    modifies ({pkb} + set f | f in QueueOf(table.View(), KeyOf(pkb.bytes[..], pkb.h)).list :: f.pkb)`next
    modifies nct, nct.all, HeldBytes(table.View(), Incoming(pkb, netLen))
    ensures nct.Valid() && p == old(Incoming(pkb, netLen)) && ps == HandedOn(old(table.View()), p)
    ensures bs == old(BytesOf(HandedOn(table.View(), Incoming(pkb, netLen))))
    ensures table.Valid() && table.View() == Stepped(old(table.View()), p)
    ensures ps == [] ==> v == VerdictOf(old(table.View()), p) != Continue
    ensures ps == [] ==> nct.View(now) == old(nct.View(now)) && (aborts <==> Aborts(old(table.View()), p))
    ensures |ps| > 0 ==> v == if p.bytes[p.h + 9] in {17, 6, 1} then Continue else Drop
    ensures |ps| > 0 && p.bytes[p.h + 9] != 17 ==> nct.View(now) == old(nct.View(now)) && BytesOf(ps) == bs
    ensures |ps| > 0 && p.bytes[p.h + 9] == 17 ==>
      && Counted(old(nct.View(now)), nct.View(now), t, pktLen, nct.snatIP)
      && |bs| == |ps| && Carried(nct, ps, bs, Offset(ps[0], p), t, e, dir, aborts)
  {
    var proto, hl := PacketHeaders.Protocol(pkb.bytes[..], pkb.h), PacketHeaders.HeaderLength(pkb.bytes[..], pkb.h);
    var head: PktBuf?, rest: seq<Buffer>;
    HandedOnAreHeld(table.View(), Incoming(pkb, netLen));
    v, head, rest, aborts, p, ps, bs := ReassembleAside(table, nct, pkb, netLen, now);
    t, dir := Tuple(0, 0, 0, 0, 0), Origin;
    e := Entry(CtNew, Stats(0, 0), t, t, Idle, false);
    if v == Continue {
      v, aborts, t, dir, e := HandOverAside(table, nct, head, rest, proto, head.h + hl, pktLen, now, ps, p, bs);
    }
  }
}
