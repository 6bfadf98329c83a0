/** The IPv4 header printer and parser of `src/packet/ipv4.go`. */
module HeaderCodec {
  import opened Machine

  /** `net.IP`: four bytes, sixteen bytes, or anything else; nil is empty. */
  type IP = seq<Byte>

  const V4_IN_V6: seq<Byte> := [0, 0, 0, 0, 0, 0, 0, 0, 0, 0, 0xFF, 0xFF]

  /** `To4`. */
  function To4(ip: IP): (r: Option<seq<Byte>>)
    ensures r.Some? ==> |r.value| == 4
  {
    if |ip| == 4 then Some(ip)
    else if |ip| == 16 && ip[..12] == V4_IN_V6 then Some(ip[12..])
    else None
  }

  /** `net.IPv4`: the sixteen-byte form. */
  function IPv4(a: seq<Byte>): (ip: IP)
    requires |a| == 4
    ensures To4(ip) == Some(a)
  {
    assert (V4_IN_V6 + a)[..12] == V4_IN_V6 && (V4_IN_V6 + a)[12..] == a;
    V4_IN_V6 + a
  }

  datatype Error = HeaderTooShort | MissingAddress | BufferTooShort

  datatype Result<+T> = Ok(value: T) | Err(error: Error)

  /** The fields are Go `int`s; `options` is a byte slice. */
  datatype Header = Header(
    version: int, len: int, tos: int, totalLen: int, id: int, flags: int, fragOff: int,
    ttl: int, protocol: int, checksum: int, src: IP, dst: IP, options: seq<Byte>)

  /** `new(IPHeader)`. */
  const FRESH := Header(0, 0, 0, 0, 0, 0, 0, 0, 0, 0, [], [], [])

  // ----- Marshal -----

  /** Conversion of a Go `int` to `byte` and `uint16` keeps the low bits, of negative numbers too. */
  function LowByte(x: int): Byte {
    x % 0x100
  }

  function LowWord(x: int): U16 {
    x % 0x1_0000
  }

  /** Version 4, and the header length in words, of which four bits are kept. */
  function FirstByte(hdrlen: nat): Byte {
    0x40 + hdrlen / 4 % 0x10
  }

  /** Thirteen bits of offset below three bits of flags. */
  function FlagsAndFragOff(flags: int, fragOff: int): U16 {
    flags % 8 * 0x2000 + fragOff % 0x2000
  }

  /** The source address may be missing; it is then left zero. */
  function AddressBytes(ip: IP): (a: seq<Byte>)
    ensures |a| == 4
  {
    if To4(ip).Some? then To4(ip).value else [0, 0, 0, 0]
  }

  /** The first twelve bytes. */
  function Twelve(first: Byte, tos: Byte, totalLen: U16, id: U16, flagsAndFragOff: U16, ttl: Byte, protocol: Byte,
      checksum: U16): (b: seq<Byte>)
    ensures |b| == 12
  {
    [first, tos] + Bytes16(totalLen) + Bytes16(id) + Bytes16(flagsAndFragOff) + [ttl, protocol] + Bytes16(checksum)
  }

  function Fixed(h: Header): (b: seq<Byte>)
    ensures |b| == 12
  {
    Twelve(FirstByte(20 + |h.options|), LowByte(h.tos), LowWord(h.totalLen), LowWord(h.id),
           FlagsAndFragOff(h.flags, h.fragOff), LowByte(h.ttl), LowByte(h.protocol), LowWord(h.checksum))
  }

  function Encoded(h: Header): (b: seq<Byte>)
    ensures |b| == 20 + |h.options|
  {
    Fixed(h) + AddressBytes(h.src) + AddressBytes(h.dst) + h.options
  }

  function Marshalled(h: Header): Result<seq<Byte>> {
    if h.len < 20 then Err(HeaderTooShort)
    else if To4(h.dst).None? then Err(MissingAddress)
    else Ok(Encoded(h))
  }

  // ----- Parse -----

  function HeaderLen(b: seq<Byte>): nat
    requires |b| >= 1
  {
    b[0] % 0x10 * 4
  }

  /** Options that are not there leave the receiver's old ones in place. */
  function Decoded(b: seq<Byte>, prev: Header): Header
    requires |b| >= 20 && HeaderLen(b) <= |b|
  {
    var hdrlen := HeaderLen(b);
    Header(b[0] / 0x10, hdrlen, b[1], Get16(b, 2), Get16(b, 4), Get16(b, 6) / 0x2000, Get16(b, 6) % 0x2000,
           b[8], b[9], Get16(b, 10), IPv4(b[12..16]), IPv4(b[16..20]),
           if hdrlen > 20 then b[20..hdrlen] else prev.options)
  }

  /** `Parse` into the header `prev`, which keeps its value on an error. */
  function Parsed(b: seq<Byte>, prev: Header): Result<Header> {
    if |b| < 20 then Err(HeaderTooShort)
    else if HeaderLen(b) > |b| then Err(BufferTooShort)
    else Ok(Decoded(b, prev))
  }

  // ----- Errors -----

  /** An address that has a four-byte form: four bytes, or sixteen of which the first ten are 0 and
      the next two 0xFF. */
  predicate IsV4(ip: IP) {
    |ip| == 4 || (|ip| == 16 && ip[10] == 0xFF && ip[11] == 0xFF && forall i :: 0 <= i < 10 ==> ip[i] == 0)
  }

  /** Printing fails exactly for a length field below 20, and else for a destination without a
      four-byte form; a source without one is printed as zeros. */
  lemma {:induction false} MarshalErrors(h: Header)
    ensures Marshalled(h) == Err(HeaderTooShort) <==> h.len < 20
    ensures Marshalled(h) == Err(MissingAddress) <==> h.len >= 20 && !IsV4(h.dst)
    ensures Marshalled(h).Ok? <==> h.len >= 20 && IsV4(h.dst)
    ensures Marshalled(h).Ok? ==> |Marshalled(h).value| == 20 + |h.options|
    ensures Marshalled(h).Ok? && !IsV4(h.src) ==> Marshalled(h).value[12..16] == [0, 0, 0, 0]
    ensures Marshalled(h).Ok? && IsV4(h.src) ==> Marshalled(h).value[12..16] == h.src[|h.src| - 4..]
    ensures Marshalled(h).Ok? ==> Marshalled(h).value[16..20] == h.dst[|h.dst| - 4..]
  {
    V4Form(h.src);
    V4Form(h.dst);
    if Marshalled(h).Ok? {
      Layout(h);
    }
  }

  lemma {:induction false} V4Form(ip: IP)
    ensures To4(ip).Some? <==> IsV4(ip)
    ensures To4(ip).Some? ==> To4(ip).value == ip[|ip| - 4..]
  {
    if |ip| == 16 {
      assert ip[..12] == V4_IN_V6 <==> forall i :: 0 <= i < 12 ==> ip[i] == V4_IN_V6[i];
    } else if |ip| == 4 {
      assert ip[0..] == ip;
    }
  }

  /** Parsing fails exactly for fewer than 20 bytes, and else for fewer than the length field says. */
  lemma {:induction false} ParseErrors(b: seq<Byte>, prev: Header)
    ensures Parsed(b, prev) == Err(HeaderTooShort) <==> |b| < 20
    ensures Parsed(b, prev) == Err(BufferTooShort) <==> |b| >= 20 && b[0] % 16 * 4 > |b|
    ensures Parsed(b, prev).Ok? <==> |b| >= 20 && b[0] % 16 * 4 <= |b|
  {
  }

  // ----- Parse after Marshal -----

  /** The same header with its addresses in sixteen-byte form. */
  function Normal(h: Header): Header {
    h.(src := IPv4(AddressBytes(h.src)), dst := IPv4(AddressBytes(h.dst)))
  }

  /** Every field fits its place in a version 4 header, and the length matches the options. */
  predicate InRange(h: Header) {
    && h.version == 4 && h.len == 20 + |h.options| && |h.options| <= 40 && |h.options| % 4 == 0
    && 0 <= h.tos < 0x100 && 0 <= h.totalLen < 0x1_0000 && 0 <= h.id < 0x1_0000
    && 0 <= h.flags < 8 && 0 <= h.fragOff < 0x2000
    && 0 <= h.ttl < 0x100 && 0 <= h.protocol < 0x100 && 0 <= h.checksum < 0x1_0000
  }

  lemma {:induction false} WordAt(b: seq<Byte>, i: nat, v: U16)
    requires i + 2 <= |b| && b[i] == Bytes16(v)[0] && b[i + 1] == Bytes16(v)[1]
    ensures Get16(b, i) == v
  {
    Word16RoundTrip(v, []);
    assert Get16(b, i) == Get16(Bytes16(v), 0);
  }

  lemma {:induction false} SplitFlags(flags: int, fragOff: int)
    ensures FlagsAndFragOff(flags, fragOff) / 0x2000 == flags % 8
    ensures FlagsAndFragOff(flags, fragOff) % 0x2000 == fragOff % 0x2000
  {
  }

  lemma {:induction false} SplitFirst(hdrlen: nat)
    ensures FirstByte(hdrlen) / 0x10 == 4
    ensures FirstByte(hdrlen) % 0x10 == hdrlen / 4 % 0x10
  {
  }

  lemma {:induction false} LengthKept(n: nat)
    ensures n / 4 % 0x10 * 4 <= n
    ensures n / 4 % 0x10 * 4 == n <==> n <= 60 && n % 4 == 0
  {
    var q := n / 4;
    assert n == 4 * q + n % 4;
    assert q == q / 0x10 * 0x10 + q % 0x10;
  }

  /** Where the fields are in the printed bytes. */
  lemma {:induction false} Layout(h: Header)
    ensures var b := Encoded(h);
      && b[0] == FirstByte(20 + |h.options|) && b[1] == LowByte(h.tos)
      && Get16(b, 2) == LowWord(h.totalLen) && Get16(b, 4) == LowWord(h.id)
      && Get16(b, 6) == FlagsAndFragOff(h.flags, h.fragOff)
      && b[8] == LowByte(h.ttl) && b[9] == LowByte(h.protocol) && Get16(b, 10) == LowWord(h.checksum)
      && b[12..16] == AddressBytes(h.src) && b[16..20] == AddressBytes(h.dst) && b[20..] == h.options
  {
    var b := Encoded(h);
    assert forall i :: 0 <= i < 12 ==> b[i] == Fixed(h)[i];
    WordAt(b, 2, LowWord(h.totalLen));
    WordAt(b, 4, LowWord(h.id));
    WordAt(b, 6, FlagsAndFragOff(h.flags, h.fragOff));
    WordAt(b, 10, LowWord(h.checksum));
  }

  /** What parsing the printed header gives, field by field. */
  lemma {:induction false} ParsedFields(h: Header, prev: Header)
    ensures Parsed(Encoded(h), prev).Ok?
    ensures var p := Parsed(Encoded(h), prev).value;
      var hdrlen := (20 + |h.options|) / 4 % 0x10 * 4;
      && p.version == 4 && p.len == hdrlen
      && p.tos == h.tos % 0x100 && p.totalLen == h.totalLen % 0x1_0000 && p.id == h.id % 0x1_0000
      && p.flags == h.flags % 8 && p.fragOff == h.fragOff % 0x2000
      && p.ttl == h.ttl % 0x100 && p.protocol == h.protocol % 0x100 && p.checksum == h.checksum % 0x1_0000
      && p.src == IPv4(AddressBytes(h.src)) && p.dst == IPv4(AddressBytes(h.dst))
      && hdrlen <= 20 + |h.options|
      && p.options == if hdrlen > 20 then h.options[..hdrlen - 20] else prev.options
  {
    var b := Encoded(h);
    Layout(h);
    SplitFirst(20 + |h.options|);
    SplitFlags(h.flags, h.fragOff);
    LengthKept(20 + |h.options|);
    var hdrlen := HeaderLen(b);
    if hdrlen > 20 {
      assert b[20..hdrlen] == b[20..][..hdrlen - 20];
    }
  }

  /** A number is its own remainder exactly when it is in range. */
  lemma {:induction false} OwnRemainder(x: int, m: nat)
    requires m > 0
    ensures x % m == x <==> 0 <= x < m
  {
  }

  /** Parsing into a new header undoes printing, up to the form of the addresses, exactly when
      every field is in range, the version is 4, and the length and the options fit. */
  lemma {:induction false} ParseUndoesMarshalIffInRange(h: Header)
    requires Marshalled(h).Ok?
    ensures Parsed(Marshalled(h).value, FRESH) == Ok(Normal(h)) <==> InRange(h)
  {
    ParsedFields(h, FRESH);
    LengthKept(20 + |h.options|);
    OwnRemainder(h.tos, 0x100);
    OwnRemainder(h.totalLen, 0x1_0000);
    OwnRemainder(h.id, 0x1_0000);
    OwnRemainder(h.flags, 8);
    OwnRemainder(h.fragOff, 0x2000);
    OwnRemainder(h.ttl, 0x100);
    OwnRemainder(h.protocol, 0x100);
    OwnRemainder(h.checksum, 0x1_0000);
    assert h.options[..|h.options|] == h.options;
    assert (20 + |h.options|) % 4 == 0 <==> |h.options| % 4 == 0;
    var p := Parsed(Encoded(h), FRESH).value;
    assert p == Normal(h) ==> |p.options| == |h.options|;
  }

  /** Parsing into a used header brings its old options back when the printed one had none. */
  lemma {:induction false} OldOptionsSurvive(h: Header, prev: Header)
    requires Marshalled(h).Ok? && InRange(h)
    ensures Parsed(Marshalled(h).value, prev) == Ok(Normal(h)) <==> h.options != [] || prev.options == []
  {
    ParsedFields(h, prev);
    ParsedFields(h, FRESH);
    ParseUndoesMarshalIffInRange(h);
    LengthKept(20 + |h.options|);
    assert h.options[..|h.options|] == h.options;
    assert Parsed(Encoded(h), prev).value
      == Parsed(Encoded(h), FRESH).value.(options := Parsed(Encoded(h), prev).value.options);
  }

  // ----- Marshal after Parse -----

  lemma {:induction false} WordBytes(b: seq<Byte>, i: nat)
    requires i + 2 <= |b|
    ensures Bytes16(Get16(b, i)) == b[i..i + 2]
  {
    Word16RoundTrip(0, b[i..i + 2]);
    assert Get16(b, i) == Get16(b[i..i + 2], 0);
  }

  lemma {:induction false} JoinFlags(w: U16)
    ensures FlagsAndFragOff(w / 0x2000, w % 0x2000) == w
  {
  }

  lemma {:induction false} JoinFirst(b0: Byte)
    requires b0 / 0x10 == 4
    ensures FirstByte(b0 % 0x10 * 4) == b0
  {
  }

  lemma {:induction false} TwelveBack(b: seq<Byte>)
    requires |b| >= 20
    ensures Twelve(b[0], b[1], Get16(b, 2), Get16(b, 4), Get16(b, 6), b[8], b[9], Get16(b, 10)) == b[..12]
  {
    WordBytes(b, 2);
    WordBytes(b, 4);
    WordBytes(b, 6);
    WordBytes(b, 10);
    assert [b[0], b[1]] + b[2..4] + b[4..6] + b[6..8] + [b[8], b[9]] + b[10..12] == b[..12];
  }

  lemma {:induction false} LowParts(x: Byte, w: U16)
    ensures LowByte(x) == x && LowWord(w) == w
  {
  }

  /** Printing what was parsed from a version 4 header gives its bytes back. */
  lemma {:induction false} FixedBack(b: seq<Byte>, h: Header)
    requires |b| >= 20 && b[0] / 0x10 == 4 && HeaderLen(b) <= |b|
    requires h == Decoded(b, h) && 20 + |h.options| == HeaderLen(b)
    ensures Fixed(h) == b[..12]
  {
    JoinFirst(b[0]);
    JoinFlags(Get16(b, 6));
    LowParts(b[1], Get16(b, 2));
    LowParts(b[8], Get16(b, 4));
    LowParts(b[9], Get16(b, 10));
    TwelveBack(b);
  }

  lemma {:induction false} MarshalBack(b: seq<Byte>, h: Header)
    requires |b| >= 20 && b[0] / 0x10 == 4 && 20 <= HeaderLen(b) <= |b|
    requires h == Decoded(b, h) && 20 + |h.options| == HeaderLen(b)
    ensures Marshalled(h) == Ok(b[..HeaderLen(b)])
  {
    var n := HeaderLen(b);
    FixedBack(b, h);
    assert AddressBytes(h.src) == b[12..16] && AddressBytes(h.dst) == b[16..20];
    assert h.options == b[20..n];
    assert b[..12] + b[12..16] + b[16..20] + b[20..n] == b[..n];
  }

  /** Printing what was parsed gives back the header's bytes exactly when the buffer holds a
      version 4 header of at least five words, and no old options got in. */
  lemma {:induction false} MarshalUndoesParseIff(b: seq<Byte>, prev: Header)
    requires Parsed(b, prev).Ok?
    ensures Marshalled(Parsed(b, prev).value) == Ok(b[..HeaderLen(b)])
       <==> b[0] / 0x10 == 4 && HeaderLen(b) >= 20 && (HeaderLen(b) > 20 || prev.options == [])
  {
    var h := Decoded(b, prev);
    var n := HeaderLen(b);
    if b[0] / 0x10 == 4 && n >= 20 && (n > 20 || prev.options == []) {
      MarshalBack(b, h);
    }
    if Marshalled(h) == Ok(b[..n]) {
      var e := Encoded(h);
      assert |e| == n && e[0] == b[0];
      SplitFirst(20 + |h.options|);
      Layout(h);
    }
  }

  // ----- The code -----

  /** `binary.BigEndian.PutUint16`. */
  method PutWord(b: array<Byte>, i: nat, v: U16)
    requires i + 2 <= b.Length
    modifies b
    ensures b[i] == Bytes16(v)[0] && b[i + 1] == Bytes16(v)[1]
    ensures forall k :: 0 <= k < b.Length && k != i && k != i + 1 ==> b[k] == old(b[k])
  {
    b[i] := Bytes16(v)[0];
    b[i + 1] := Bytes16(v)[1];
  }

  /** `copy(b[i:], w)`. */
  method Copy(b: array<Byte>, i: nat, w: seq<Byte>)
    requires i + |w| <= b.Length
    modifies b
    ensures b[..] == Patched(old(b[..]), i, w)
  {
    ghost var was := b[..];
    var k := 0;
    while k < |w|
      invariant 0 <= k <= |w|
      invariant forall j :: 0 <= j < b.Length ==> b[j] == if i <= j < i + k then w[j - i] else was[j]
    {
      b[i + k] := w[k];
      k := k + 1;
    }
  }

  class IPHeader {
    var version: int
    var len: int
    var tos: int
    var totalLen: int
    var id: int
    var flags: int
    var fragOff: int
    var ttl: int
    var protocol: int
    var checksum: int
    var src: IP
    var dst: IP
    var options: seq<Byte>

    constructor ()
      ensures View() == FRESH
    {
      version, len, tos, totalLen, id, flags, fragOff := 0, 0, 0, 0, 0, 0, 0;
      ttl, protocol, checksum, src, dst, options := 0, 0, 0, [], [], [];
    }

    ghost function View(): Header
      reads this
    {
      Header(version, len, tos, totalLen, id, flags, fragOff, ttl, protocol, checksum, src, dst, options)
    }

    /** The first twelve bytes of `Marshal`. */
    method PutFixed(b: array<Byte>)
      requires b.Length >= 20
      modifies b
      ensures b[..12] == Fixed(View()) && b[12..] == old(b[12..])
    {
      b[0] := FirstByte(20 + |options|);
      b[1] := LowByte(tos);
      PutWord(b, 2, LowWord(totalLen));
      PutWord(b, 6, FlagsAndFragOff(flags, fragOff));
      PutWord(b, 4, LowWord(id));
      b[8] := LowByte(ttl);
      b[9] := LowByte(protocol);
      PutWord(b, 10, LowWord(checksum));
    }

    method Marshal() returns (r: Result<seq<Byte>>)
      ensures r == Marshalled(View())
    {
      if len < 20 {
        return Err(HeaderTooShort);
      }
      var hdrlen := 20 + |options|;
      var b := new Byte[hdrlen](_ => 0);
      PutFixed(b);
      var from := To4(src);
      if from.Some? {
        Copy(b, 12, from.value);
      }
      var to := To4(dst);
      if to.None? {
        return Err(MissingAddress);
      }
      Copy(b, 16, to.value);
      Copy(b, 20, options);
      assert b[..] == Encoded(View());
      r := Ok(b[..]);
    }

    /** The parts of `Parse` that fill the fields. */
    method FillNumbers(b: seq<Byte>)
      requires |b| >= 20
      modifies `version, `len, `tos, `totalLen, `id, `flags, `fragOff, `ttl, `protocol, `checksum
      ensures version == b[0] / 0x10 && len == HeaderLen(b) && tos == b[1]
      ensures totalLen == Get16(b, 2) && id == Get16(b, 4)
      ensures flags == Get16(b, 6) / 0x2000 && fragOff == Get16(b, 6) % 0x2000
      ensures ttl == b[8] && protocol == b[9] && checksum == Get16(b, 10)
    {
      version, len, tos, id := b[0] / 0x10, HeaderLen(b), b[1], Get16(b, 4);
      ttl, protocol, checksum := b[8], b[9], Get16(b, 10);
      totalLen := Get16(b, 2);
      var word := Get16(b, 6);
      flags, fragOff := word / 0x2000, word % 0x2000;
    }

    method Fill(b: seq<Byte>)
      requires |b| >= 20 && HeaderLen(b) <= |b|
      modifies this
      ensures View() == Decoded(b, old(View()))
    {
      FillNumbers(b);
      src := IPv4(b[12..16]);
      dst := IPv4(b[16..20]);
      if len > 20 {
        options := b[20..len];
      }
    }

    /** Fills the fields from `b`, or reports an error and leaves them alone. */
    method Parse(b: seq<Byte>) returns (error: Option<Error>)
      modifies this
      ensures match Parsed(b, old(View()))
        case Ok(h) => error == None && View() == h
        case Err(e) => error == Some(e) && View() == old(View())
    {
      if |b| < 20 {
        return Some(HeaderTooShort);
      }
      if HeaderLen(b) > |b| {
        return Some(BufferTooShort);
      }
      Fill(b);
      error := None;
    }
  }
}
