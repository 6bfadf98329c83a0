/** Where the UDP header of a reassembled datagram is looked for. `ipHandler` of `src/nat/snat.go`
    goes on with the head of the chain, but takes the header length from the fragment that arrived
    last: the two can differ, as options may be in the first fragment only (RFC 791, section 3.1). */
module TransportOffset {
  import opened Machine
  import opened Conntrack
  import opened NatEntry
  import opened PacketHeaders
  import NatRewrite
  import opened FragmentQueue
  import opened FragmentTable
  import opened FragmentHeaders

  /** An IPv4 header length. */
  predicate IsLength(n: nat) {
    n % 4 == 0 && 20 <= n <= 60
  }

  /** A head with a header of `own` bytes, with room for a UDP header there and behind `last` bytes. */
  predicate IsHead(b: seq<Byte>, h: nat, own: nat, last: nat) {
    Placed(b, h, h + own) && HeaderLength(b, h) == own && Placed(b, h, h + last)
  }

  /** The tuple of the head is read correctly, with the header length of the last arrival, exactly
      if the four bytes behind that length are those behind its own. */
  lemma {:induction false} ReadsOwnExactly(b: seq<Byte>, h: nat, own: nat, last: nat)
    requires IsHead(b, h, own, last)
    ensures TupleOf(b, h, h + last) == TupleOf(b, h, h + own)
      <==> b[h + last..h + last + 4] == b[h + own..h + own + 4]
  {
    var p, q := b[h + last..h + last + 4], b[h + own..h + own + 4];
    assert p == q <==> p[0] == q[0] && p[1] == q[1] && p[2] == q[2] && p[3] == q[3];
    SameWord(p[0], p[1], q[0], q[1]);
    SameWord(p[2], p[3], q[2], q[3]);
  }

  lemma {:induction false} SameWord(a: Byte, b: Byte, c: Byte, d: Byte)
    ensures (a as int) * 0x100 + b == (c as int) * 0x100 + d <==> a == c && b == d
  {
  }

  /** For every head it is, if and only if the two lengths agree. */
  lemma {:induction false} ReadsOwnIff(own: nat, last: nat)
    requires IsLength(own) && IsLength(last)
    ensures (forall b, h: nat :: IsHead(b, h, own, last) ==> TupleOf(b, h, h + last) == TupleOf(b, h, h + own))
      <==> own == last
  {
    if own != last {
      var b := Misread(own);
      assert IsHead(b, 0, own, last);
      assert TupleOf(b, 0, own).sport == 0x100;
      assert TupleOf(b, 0, last).sport == 0;
    }
  }

  /** A head of nothing but its version, its header length and a source port. */
  function Misread(own: nat): (b: seq<Byte>)
    requires IsLength(own)
    ensures |b| == 68 && b[0] == 0x40 + own / 4 && b[own] == 1
    ensures forall k :: 0 < k < 68 && k != own ==> b[k] == 0
  {
    seq(68, k requires 0 <= k < 68 => if k == 0 then 0x40 + own / 4 else if k == own then 1 else 0)
  }

  /** What translation then does to the ports of the head: they stay as they were, whatever the
      entry says; only if the head's header is one word longer than that of the last arrival is
      its destination port set to 0, where the UDP checksum is taken to be. */
  lemma {:induction false} OwnPortsAfter(b: seq<Byte>, h: nat, own: nat, last: nat, e: Entry, dir: Dir)
    requires IsHead(b, h, own, last) && IsLength(own) && IsLength(last) && own != last
    requires e.snat && e.origin.proto == UDP
    ensures var r := NatRewrite.Translated(b, h, h + last, e, dir);
      && |r| == |b| && Get16(r, h + own) == Get16(b, h + own)
      && Get16(r, h + own + 2) == if own == last + 4 then 0 else Get16(b, h + own + 2)
  {
    var addr, port := NatRewrite.NewAddress(e, dir), NatRewrite.NewPort(b, h + last, e, dir);
    forall k | h + own <= k < h + own + 4
      ensures Rewritten(b, h, h + last, dir, addr, port)[k] == if own == last + 4 && k >= h + own + 2 then 0 else b[k]
    {
      OwnByteAfter(b, h, own, last, dir, addr, port, k);
    }
    TwoWords(b, Rewritten(b, h, h + last, dir, addr, port), h + own, own == last + 4);
  }

  lemma {:induction false} TwoWords(b: seq<Byte>, r: seq<Byte>, i: nat, zeroed: bool)
    requires |r| == |b| && i + 4 <= |b|
    requires forall k :: i <= k < i + 4 ==> r[k] == if zeroed && k >= i + 2 then 0 else b[k]
    ensures Get16(r, i) == Get16(b, i) && Get16(r, i + 2) == if zeroed then 0 else Get16(b, i + 2)
  {
  }

  lemma {:induction false} OwnByteAfter(b: seq<Byte>, h: nat, own: nat, last: nat, dir: Dir, addr: U32, port: U16,
      k: nat)
    requires IsHead(b, h, own, last) && IsLength(own) && IsLength(last) && own != last && h + own <= k < h + own + 4
    ensures Rewritten(b, h, h + last, dir, addr, port)[k]
      == if own == last + 4 && k >= h + own + 2 then 0 else b[k]
  {
    if own == last + 4 && k >= h + own + 2 {
      EndpointKeepsPlace(b, h, h + last, dir, addr, port);
    } else {
      RewrittenKeepsRest(b, h, h + last, dir, addr, port, k);
    }
  }

  // ----- A datagram that is misread -----

  /** The first fragment: a header of 32 bytes, twelve of them options, then ports 5000 and 53. */
  function FirstByte(k: nat): Byte {
    if k == 0 then 0x48
    else if k == 3 then 40
    else if k == 6 then 0x20
    else if k == 9 then 17
    else if k == 12 || k == 16 then 10
    else if k == 15 then 1
    else if k == 19 then 2
    else if 20 <= k < 31 then 1
    else if k == 32 then 0x13
    else if k == 33 then 0x88
    else if k == 35 then 53
    else if k == 37 then 16
    else 0
  }

  function FirstFragment(): (b: seq<Byte>)
    ensures |b| == 40 && forall k :: 0 <= k < 40 ==> b[k] == FirstByte(k)
  {
    seq(40, k requires 0 <= k < 40 => FirstByte(k))
  }

  /** The last one, without options. */
  function LastByte(k: nat): Byte {
    if k == 0 then 0x45
    else if k == 3 then 28
    else if k == 7 then 1
    else if k == 9 then 17
    else if k == 12 || k == 16 then 10
    else if k == 15 then 1
    else if k == 19 then 2
    else if k >= 20 then 7
    else 0
  }

  function LastFragment(): (b: seq<Byte>)
    ensures |b| == 28 && forall k :: 0 <= k < 28 ==> b[k] == LastByte(k)
  {
    seq(28, k requires 0 <= k < 28 => LastByte(k))
  }

  const KEY := FragInfo(17, 0, 0x0A00_0001, 0x0A00_0002)

  lemma {:induction false} ReadAs<P>(p: Inbound<P>, key: FragInfo, offset: U16, len: U16, more: bool)
    requires Readable(p) && p.bytes[p.h] / 16 == 4 && KeyOf(p.bytes, p.h) == key
    requires FragmentOffset(p.bytes, p.h) == offset && MoreFragments(p.bytes, p.h) == more && (offset != 0 || more)
    requires p.netLen == TotalLength(p.bytes, p.h) == HeaderLength(p.bytes, p.h) + len
    ensures Classified(p) == Part(Arrival(key, offset, len, more, p.pkb))
  {
  }

  lemma {:induction false} FirstFields()
    ensures var b := FirstFragment();
      && b[0] / 16 == 4 && HeaderLength(b, 0) == 32 && TotalLength(b, 0) == 40
      && FragmentOffset(b, 0) == 0 && MoreFragments(b, 0)
  {
    assert Get16(FirstFragment(), 6) == 0x2000;
  }

  lemma {:induction false} LastFields()
    ensures var b := LastFragment();
      && b[0] / 16 == 4 && HeaderLength(b, 0) == 20 && TotalLength(b, 0) == 28
      && FragmentOffset(b, 0) == 8 && !MoreFragments(b, 0)
  {
    assert Get16(LastFragment(), 6) == 1;
  }

  lemma {:induction false} FirstIsRead<P>(a: P)
    ensures var p := Inbound(FirstFragment(), 0, 40, a);
      Readable(p) && Classified(p) == Part(Arrival(KEY, 0, 8, true, a))
  {
    KeyIsRead(FirstFragment());
    FirstFields();
    ReadAs(Inbound(FirstFragment(), 0, 40, a), KEY, 0, 8, true);
  }

  lemma {:induction false} LastIsRead<P>(a: P)
    ensures var p := Inbound(LastFragment(), 0, 28, a);
      Readable(p) && Classified(p) == Part(Arrival(KEY, 8, 8, false, a))
  {
    KeyIsRead(LastFragment());
    LastFields();
    ReadAs(Inbound(LastFragment(), 0, 28, a), KEY, 8, 8, false);
  }

  lemma {:induction false} KeyIsRead(b: seq<Byte>)
    requires |b| >= 20 && b[9] == 17 && b[4] == 0 && b[5] == 0
    requires b[12] == 10 && b[13] == 0 && b[14] == 0 && b[15] == 1
    requires b[16] == 10 && b[17] == 0 && b[18] == 0 && b[19] == 2
    ensures KeyOf(b, 0) == KEY
  {
  }

  /** The two fragments arrive in order and complete the datagram; its ports are 5000 and 53, and
      what is read behind the header length of the last one is 0x0101 and 0x0101. */
  lemma {:induction false} OptionsMisread<P>(a: P, b: P)
    ensures var first, last := Inbound(FirstFragment(), 0, 40, a), Inbound(LastFragment(), 0, 28, b);
      && Readable(first) && Classified(first).Part? && Readable(last) && Classified(last).Part?
      && var t := Handle(map[], Classified(first).a).0;
        && Handle(t, Classified(last).a).1 == Done
        && KEY in Handle(t, Classified(last).a).0
        && |Handle(t, Classified(last).a).0[KEY].list| == 2 && Handle(t, Classified(last).a).0[KEY].list[0].pkb == a
    ensures HeaderLength(LastFragment(), 0) == 20 && IsHead(FirstFragment(), 0, 32, 20)
    ensures TupleOf(FirstFragment(), 0, 32).sport == 5000 && TupleOf(FirstFragment(), 0, 32).dport == 53
    ensures TupleOf(FirstFragment(), 0, 20).sport == 0x0101 && TupleOf(FirstFragment(), 0, 20).dport == 0x0101
  {
    FirstIsRead(a);
    LastIsRead(b);
    MisreadPorts();
  }

  lemma {:induction false} MisreadPorts()
    ensures HeaderLength(LastFragment(), 0) == 20 && IsHead(FirstFragment(), 0, 32, 20)
    ensures TupleOf(FirstFragment(), 0, 32).sport == 5000 && TupleOf(FirstFragment(), 0, 32).dport == 53
    ensures TupleOf(FirstFragment(), 0, 20).sport == 0x0101 && TupleOf(FirstFragment(), 0, 20).dport == 0x0101
  {
  }
}
