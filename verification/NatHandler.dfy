/** `udpHandler` of `src/nat/snat.go`, table and packet together. */
module NatHandler {
  import opened Machine
  import opened Conntrack
  import opened NatTable
  import opened NatConnections
  import PacketHeaders
  import NatRewrite
  import opened NatChain

  /** `doNat` on behalf of a connection of the table, which stays as it is. */
  method RewritePacket(nct: NetConntrack, ct: Conn, a: array<Byte>, h: nat, u: nat, rest: seq<Buffer>, dir: Dir,
      now: nat)
    returns (aborts: bool)
    requires nct.Valid() && PacketHeaders.Placed(a[..], h, u) && Apart(a, rest) && AllHeaders(Contents(rest), rest)
    modifies a, set b | b in rest :: b.a
    ensures nct.Valid() && nct.View(now) == old(nct.View(now)) && ct.Rec() == old(ct.Rec())
    ensures a[..] == NatRewrite.Translated(old(a[..]), h, u, ct.Rec(), dir)
    ensures aborts <==> NatRewrite.PastBuffer(old(a[..]), h, u, ct.Rec())
    ensures FollowOnsDone(old(Contents(rest)), rest, ct.Rec(), dir, aborts)
  {
    var xsum;
    xsum, aborts := DoNatChain(a, h, u, rest, ct.Rec(), dir);
    nct.Untouched(now);
  }

  /** The look-up on behalf of a packet, which stays as it is. */
  method LookUp(nct: NetConntrack, a: array<Byte>, rest: seq<Buffer>, t: Tuple, pktLen: nat, now: nat)
    returns (ct: Conn, dir: Dir)
    requires nct.Valid() && Enabled(nct.View(now), Packet(t, pktLen), nct.snatIP)
    modifies nct, nct.all
    ensures nct.Valid() && nct.View(now) == Next(old(nct.View(now)), Packet(t, pktLen), nct.snatIP)
    ensures ct.id < |nct.all| && nct.all[ct.id] == ct && Holds(nct.table, t, ct.id)
    ensures dir == ct.Rec().DirOf(t)
    ensures a[..] == old(a[..]) && Contents(rest) == old(Contents(rest))
  {
    ct, dir := nct.UdpHandler(t, pktLen, now);
  }

  /** `udpHandler` on a packet, with the follow-on fragments behind it if it has been reassembled:
      the table steps on, and the packet leaves translated by the entry that now handles its
      tuple, unless its length field points past the buffer, which aborts. */
  method HandleUdp(nct: NetConntrack, a: array<Byte>, h: nat, u: nat, rest: seq<Buffer>, pktLen: nat, now: nat)
    returns (t: Tuple, ct: Conn, dir: Dir, aborts: bool)
    requires nct.Valid() && PacketHeaders.Placed(a[..], h, u) && Apart(a, rest) && AllHeaders(Contents(rest), rest)
    requires Enabled(nct.View(now), Packet(PacketHeaders.TupleOf(a[..], h, u), pktLen), nct.snatIP)
    modifies nct, nct.all, a, set b | b in rest :: b.a
    ensures t == old(PacketHeaders.TupleOf(a[..], h, u))
    ensures nct.Valid() && nct.View(now) == Next(old(nct.View(now)), Packet(t, pktLen), nct.snatIP)
    ensures ct.id < |nct.all| && nct.all[ct.id] == ct && Holds(nct.table, t, ct.id)
    ensures dir == ct.Rec().DirOf(t)
    ensures a[..] == NatRewrite.Translated(old(a[..]), h, u, ct.Rec(), dir)
    ensures aborts <==> NatRewrite.PastBuffer(old(a[..]), h, u, ct.Rec())
    ensures FollowOnsDone(old(Contents(rest)), rest, ct.Rec(), dir, aborts)
  {
    t := PacketHeaders.TupleOf(a[..], h, u);
    ct, dir := LookUp(nct, a, rest, t, pktLen, now);
    aborts := RewritePacket(nct, ct, a, h, u, rest, dir, now);
  }
}
