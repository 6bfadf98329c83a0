/** `doNat` of `src/nat/snat.go` on a reassembled datagram: the first buffer, then the chain of
    follow-on fragments behind it. */
module NatChain {
  import opened Machine
  import opened InternetChecksum
  import opened Conntrack
  import opened NatEntry
  import opened PacketHeaders
  import opened NatRewrite

  /** A follow-on buffer, and where its IPv4 header starts. */
  datatype Buffer = Buffer(a: array<Byte>, h: nat)

  predicate HasHeader(b: seq<Byte>, h: nat) {
    h + 20 <= |b| && HeaderLength(b, h) >= 20 && h + HeaderLength(b, h) <= |b|
  }

  /** What follows the header, up to the end of the buffer. */
  function Transport(b: seq<Byte>, h: nat): seq<Byte> {
    if HasHeader(b, h) then b[h + HeaderLength(b, h)..] else []
  }

  lemma {:induction false} FollowOnByte(b: seq<Byte>, h: nat, e: Entry, dir: Dir, k: nat)
    requires HasHeader(b, h) && k < |b| && !(h + 10 <= k < h + 16)
    ensures FollowOn(b, h, e, dir)[k] == b[k]
  {
  }

  /** Rewriting a header leaves the header where it is, and what follows it as it was. */
  lemma {:induction false} FollowOnKeepsTransport(b: seq<Byte>, h: nat, e: Entry, dir: Dir)
    requires HasHeader(b, h)
    ensures HasHeader(FollowOn(b, h, e, dir), h)
    ensures Transport(FollowOn(b, h, e, dir), h) == Transport(b, h)
  {
    var r := FollowOn(b, h, e, dir);
    FollowOnByte(b, h, e, dir, h);
    forall k | h + 20 <= k < |b| ensures r[k] == b[k] {
      FollowOnByte(b, h, e, dir, k);
    }
    SameBehind(b, r, h);
  }

  lemma {:induction false} SameBehind(b: seq<Byte>, r: seq<Byte>, h: nat)
    requires HasHeader(b, h) && |r| == |b| && r[h] == b[h] && forall k :: h + 20 <= k < |b| ==> r[k] == b[k]
    ensures HasHeader(r, h) && Transport(r, h) == Transport(b, h)
  {
  }

  /** Buffers of their own. */
  ghost predicate Apart(a: array<Byte>, rest: seq<Buffer>) {
    && (forall i :: 0 <= i < |rest| ==> rest[i].a != a)
    && (forall i, j :: 0 <= i < j < |rest| ==> rest[i].a != rest[j].a)
  }

  /** The contents of the buffers. */
  ghost function Contents(rest: seq<Buffer>): (bs: seq<seq<Byte>>)
    reads set b | b in rest :: b.a
    ensures |bs| == |rest| && forall i :: 0 <= i < |rest| ==> bs[i] == rest[i].a[..]
  {
    seq(|rest|, i requires 0 <= i < |rest| reads set b | b in rest :: b.a => rest[i].a[..])
  }

  ghost predicate AllHeaders(bs: seq<seq<Byte>>, rest: seq<Buffer>) {
    |bs| == |rest| && forall i :: 0 <= i < |rest| ==> HasHeader(bs[i], rest[i].h)
  }

  /** From `bs` to `now` the first `n` buffers are rewritten, the others are not yet. */
  ghost predicate AreRewritten(bs: seq<seq<Byte>>, now: seq<seq<Byte>>, rest: seq<Buffer>, n: nat, e: Entry, dir: Dir)
    requires AllHeaders(bs, rest)
  {
    && |now| == |rest|
    && forall i :: 0 <= i < |rest| ==> now[i] == if i < n then FollowOn(bs[i], rest[i].h, e, dir) else bs[i]
  }

  ghost predicate Rewrote(bs: seq<seq<Byte>>, rest: seq<Buffer>, n: nat, e: Entry, dir: Dir)
    requires AllHeaders(bs, rest)
    reads set b | b in rest :: b.a
  {
    AreRewritten(bs, Contents(rest), rest, n, e, dir)
  }

  lemma {:induction false} OneMoreRewritten(bs: seq<seq<Byte>>, before: seq<seq<Byte>>, now: seq<seq<Byte>>,
      rest: seq<Buffer>, i: nat, e: Entry, dir: Dir)
    requires AllHeaders(bs, rest) && i < |rest| && AreRewritten(bs, before, rest, i, e, dir)
    requires |now| == |rest| && now == before[i := now[i]] && now[i] == FollowOn(bs[i], rest[i].h, e, dir)
    ensures AreRewritten(bs, now, rest, i + 1, e, dir)
  {
  }

  /** The transport data of the first `n` buffers. */
  ghost function Transports(bs: seq<seq<Byte>>, rest: seq<Buffer>, n: nat): (parts: seq<seq<Byte>>)
    requires n <= |rest| == |bs|
    ensures |parts| == n && forall i :: 0 <= i < n ==> parts[i] == Transport(bs[i], rest[i].h)
  {
    seq(n, i requires 0 <= i < n => Transport(bs[i], rest[i].h))
  }

  lemma {:induction false} ChainSnoc(parts: seq<seq<Byte>>, last: seq<Byte>, initial: U16)
    ensures Chained(parts + [last], initial) == Summed(last, Chained(parts, initial))
    decreases |parts|
  {
    if |parts| > 0 {
      assert parts + [last] == [parts[0]] + (parts[1..] + [last]);
      ChainCons(parts[0], parts[1..] + [last], initial);
      ChainSnoc(parts[1..], last, Summed(parts[0], initial));
    } else {
      assert [] + [last] == [last];
      ChainCons(last, [], initial);
    }
  }

  lemma {:induction false} ChainGrows(bs: seq<seq<Byte>>, rest: seq<Buffer>, n: nat, initial: U16)
    requires n < |rest| == |bs|
    ensures Chained(Transports(bs, rest, n + 1), initial)
      == Summed(Transport(bs[n], rest[n].h), Chained(Transports(bs, rest, n), initial))
  {
    ChainSnoc(Transports(bs, rest, n), Transport(bs[n], rest[n].h), initial);
    assert Transports(bs, rest, n + 1) == Transports(bs, rest, n) + [Transport(bs[n], rest[n].h)];
  }

  /** One turn of the loop. */
  method RewriteFollowOn(b: Buffer, e: Entry, dir: Dir, xsum: U16) returns (xsum': U16)
    requires HasHeader(b.a[..], b.h)
    modifies b.a
    ensures b.a[..] == FollowOn(old(b.a[..]), b.h, e, dir)
    ensures xsum' == Summed(Transport(old(b.a[..]), b.h), xsum)
  {
    FollowOnKeepsTransport(b.a[..], b.h, e, dir);
    DoNatFollowOn(b.a, b.h, e, dir);
    xsum' := Checksum(Transport(b.a[..], b.h), xsum);
  }

  /** The same, seen from all buffers. */
  method RewriteNext(rest: seq<Buffer>, i: nat, e: Entry, dir: Dir, xsum: U16,
      ghost bs: seq<seq<Byte>>) returns (xsum': U16)
    requires i < |rest| && AllHeaders(bs, rest) && Rewrote(bs, rest, i, e, dir)
    requires forall j, k :: 0 <= j < k < |rest| ==> rest[j].a != rest[k].a
    modifies rest[i].a
    ensures Rewrote(bs, rest, i + 1, e, dir)
    ensures xsum' == Summed(Transport(bs[i], rest[i].h), xsum)
  {
    ghost var before := Contents(rest);
    xsum' := RewriteFollowOn(rest[i], e, dir, xsum);
    assert Contents(rest) == before[i := rest[i].a[..]];
    OneMoreRewritten(bs, before, Contents(rest), rest, i, e, dir);
  }

  /** The loop over the buffers behind the first. */
  method RewriteRest(rest: seq<Buffer>, e: Entry, dir: Dir, initial: U16) returns (xsum: U16)
    requires AllHeaders(Contents(rest), rest) && forall i, j :: 0 <= i < j < |rest| ==> rest[i].a != rest[j].a
    modifies set b | b in rest :: b.a
    ensures Rewrote(old(Contents(rest)), rest, |rest|, e, dir)
    ensures xsum == Chained(Transports(old(Contents(rest)), rest, |rest|), initial)
  {
    ghost var bs := Contents(rest);
    xsum := initial;
    var i := 0;
    while i < |rest|
      invariant 0 <= i <= |rest| && Rewrote(bs, rest, i, e, dir)
      invariant xsum == Chained(Transports(bs, rest, i), initial)
    {
      xsum := RewriteNext(rest, i, e, dir, xsum, bs);
      ChainGrows(bs, rest, i, initial);
      i := i + 1;
    }
  }

  /** The follow-on buffers are all rewritten, or left as they were. */
  ghost predicate FollowOnsDone(bs: seq<seq<Byte>>, rest: seq<Buffer>, e: Entry, dir: Dir, aborts: bool)
    requires AllHeaders(bs, rest)
    reads set b | b in rest :: b.a
  {
    if e.snat && e.origin.proto == UDP && !aborts then Rewrote(bs, rest, |rest|, e, dir) else Contents(rest) == bs
  }

  /** `doNat`: nothing is written for an entry without translation; a length field past the first
      buffer aborts before the follow-on buffers are reached. */
  method DoNatChain(a: array<Byte>, h: nat, u: nat, rest: seq<Buffer>, e: Entry, dir: Dir)
    returns (xsum: U16, aborts: bool)
    requires Placed(a[..], h, u) && Apart(a, rest) && AllHeaders(Contents(rest), rest)
    modifies a, set b | b in rest :: b.a
    ensures a[..] == Translated(old(a[..]), h, u, e, dir)
    ensures aborts <==> PastBuffer(old(a[..]), h, u, e)
    ensures FollowOnsDone(old(Contents(rest)), rest, e, dir, aborts)
    ensures e.snat && e.origin.proto == UDP && !aborts ==>
      xsum == Chained(Transports(old(Contents(rest)), rest, |rest|),
                      UdpChain(a[..], h, u, DataLength(old(a[..]), h), SummedLength(old(a[..]), h, u)))
  {
    ghost var bs := Contents(rest);
    xsum, aborts := DoNat(a, h, u, e, dir);
    assert Contents(rest) == bs;
    if e.snat && e.origin.proto == UDP && !aborts {
      xsum := RewriteRest(rest, e, dir, xsum);
    }
  }

  /** When the fragments of a datagram leave: in the origin direction all of them go from the NAT
      address to the same destination. The header checksums of the follow-on fragments verify;
      that of the first one does if its ports were read behind its header, and else exactly if
      zeroing the bytes taken for the UDP checksum is harmless. */
  lemma {:induction false} ChainLeavesAsOne(
    first: seq<Byte>, h: nat, u: nat, frag: seq<Byte>, h': nat, e: Entry, snatIP: U32)
    requires Placed(first, h, u) && (u - h) % 2 == 0 && EntryOk(e, snatIP) && TupleOf(first, h, u) == e.origin
    requires HasHeader(frag, h')
    requires SourceAddress(frag, h') == e.origin.saddr && DestinationAddress(frag, h') == e.origin.daddr
    ensures var out, out' := Translated(first, h, u, e, Origin), FollowOn(frag, h', e, Origin);
      && SourceAddress(out', h') == snatIP == SourceAddress(out, h)
      && DestinationAddress(out', h') == DestinationAddress(out, h)
      && HeaderSum(out', h') == 0xFFFF && Transport(out', h') == Transport(frag, h')
      && (HeaderSum(out, h) == 0xFFFF <==> ZeroingIsHarmless(first, h, u))
      && (WellPlaced(first, h, u) ==> HeaderSum(out, h) == 0xFFFF)
  {
    BytesCarryTranslation(first, h, u, e, Origin, snatIP);
    TranslationOf(e, snatIP);
    FollowOnAddresses(frag, h', e, Origin, snatIP);
    FollowOnKeepsTransport(frag, h', e, Origin);
  }
}
