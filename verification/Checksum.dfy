/** The Internet checksum of `src/nat/checksum.go`, its overflow bound, and its relation
    to the one's-complement sum of RFC 1071. */
module InternetChecksum {
  import opened Machine

  // ----- The code -----

  /** `ChecksumCombine`: add two halves and the carry, keeping 16 bits; the `uint32` sum of two
      halves cannot wrap. */
  function Combine(a: U16, b: U16): U16 {
    var v := a + b;
    ToU16(v + v / 0x1_0000)
  }

  /** What `Checksum` returns for every buffer, however long: the accumulator is a `uint32`
      and wraps. */
  function Summed(buf: seq<Byte>, initial: U16): U16 {
    Folded(ToU32(initial + WordSum(buf)))
  }

  /** The single fold of the accumulator. */
  function Folded(v: U32): U16 {
    Combine(ToU16(v), ToU16(v / 0x1_0000))
  }

  /** `Checksum`: the trailing odd byte first, then the big-endian words, then one fold. */
  method Checksum(buf: seq<Byte>, initial: U16) returns (sum: U16)
    ensures sum == Summed(buf, initial)
    ensures |buf| <= 131072 ==> sum == OnesSum(initial, Words(buf))
  {
    var v: U32 := initial;
    var l := |buf|;
    if l % 2 != 0 {
      l := l - 1;
      v := ToU32(v + (buf[l] as int) * 0x100);
    }
    ghost var start := v;
    var i := 0;
    while i < l
      invariant 0 <= i <= l && (l - i) % 2 == 0
      invariant Accumulated(v, buf[i..l]) == Accumulated(start, buf[0..l])
    {
      assert buf[i..l][2..] == buf[i + 2..l];
      v := ToU32(v + Get16(buf, i));
      i := i + 2;
    }
    sum := Folded(v);
    LoopIsSum(buf, initial, l, start);
    if |buf| <= 131072 {
      ChecksumIsOnesSum(buf, initial);
    }
  }

  /** The accumulator after the words of `b`. */
  function Accumulated(v: U32, b: seq<Byte>): U32
    decreases |b|
  {
    if |b| < 2 then v else Accumulated(ToU32(v + Get16(b, 0)), b[2..])
  }

  lemma {:induction false} AccumulatedIsSum(v: int, b: seq<Byte>)
    requires |b| % 2 == 0
    ensures Accumulated(ToU32(v), b) == ToU32(v + WordSum(b))
    decreases |b|
  {
    if |b| >= 2 {
      WrappedAdd(v, Get16(b, 0));
      AccumulatedIsSum(v + Get16(b, 0), b[2..]);
    }
  }

  /** What the accumulator starts from: the initial value and the odd byte. */
  function Beginning(buf: seq<Byte>, initial: U16): nat {
    if |buf| % 2 == 0 then initial else initial + (buf[|buf| - 1] as int) * 0x100
  }

  lemma {:induction false} LoopIsSum(buf: seq<Byte>, initial: U16, l: nat, start: U32)
    requires l == |buf| - |buf| % 2 && start == ToU32(Beginning(buf, initial))
    ensures Folded(Accumulated(start, buf[0..l])) == Summed(buf, initial)
  {
    EvenPart(buf, initial, l);
    AccumulatedIsSum(Beginning(buf, initial), buf[0..l]);
  }

  lemma {:induction false} EvenPart(buf: seq<Byte>, initial: U16, l: nat)
    requires l == |buf| - |buf| % 2
    ensures Beginning(buf, initial) + WordSum(buf[0..l]) == initial + WordSum(buf)
  {
    if |buf| % 2 == 0 {
      assert buf[0..l] == buf;
    } else {
      assert buf == buf[0..l] + [buf[l]];
      WordSumConcat(buf[0..l], [buf[l]]);
    }
  }

  lemma {:induction false} WrappedAdd(x: int, y: int)
    ensures ToU32(ToU32(x) + y) == ToU32(x + y)
  {
  }

  // ----- The reference: RFC 1071, section 1 -----

  /** The big-endian 16-bit words of a buffer, the last one padded with a zero byte. */
  function Words(b: seq<Byte>): seq<U16> {
    if |b| == 0 then []
    else if |b| == 1 then [(b[0] as int) * 0x100]
    else [Get16(b, 0)] + Words(b[2..])
  }

  /** 16-bit one's-complement addition: the carry out is added back in. */
  function OnesAdd(a: U16, b: U16): U16 {
    if a + b <= 0xFFFF then a + b else a + b - 0xFFFF
  }

  /** One's-complement sum of `initial` and the words, one carry at a time. */
  function OnesSum(initial: U16, words: seq<U16>): U16
    decreases |words|
  {
    if |words| == 0 then initial else OnesSum(OnesAdd(initial, words[0]), words[1..])
  }

  // ----- Unbounded sums and their canonical 16-bit residue -----

  function WordSum(b: seq<Byte>): nat {
    if |b| == 0 then 0
    else if |b| == 1 then (b[0] as int) * 0x100
    else Get16(b, 0) + WordSum(b[2..])
  }

  /** The representative of `x` modulo 65535 in 0..65535 that is 0 only for 0. */
  function Canonical(x: nat): U16 {
    if x <= 0xFFFF then x else Canonical(x - 0xFFFF)
  }

  lemma {:induction false} CanonicalUnique(x: nat, r: U16, k: int)
    requires x == r + k * 0xFFFF
    requires r == 0 <==> x == 0
    ensures r == Canonical(x)
  {
    if x > 0xFFFF {
      CanonicalUnique(x - 0xFFFF, r, k - 1);
    }
  }

  /** `Canonical(x)` differs from `x` by a multiple of 65535, and is 0 only for 0. */
  lemma {:induction false} CanonicalResidue(x: nat) returns (k: nat)
    ensures x == Canonical(x) + k * 0xFFFF
    ensures Canonical(x) == 0 <==> x == 0
  {
    k := 0;
    if x > 0xFFFF {
      k := CanonicalResidue(x - 0xFFFF);
      k := k + 1;
    }
  }

  lemma {:induction false} CanonicalAbsorbs(x: nat, y: nat)
    ensures Canonical(Canonical(x) + y) == Canonical(x + y)
  {
    var k := CanonicalResidue(x);
    var m := CanonicalResidue(x + y);
    CanonicalUnique(Canonical(x) + y, Canonical(x + y), m - k);
  }

  lemma {:induction false} FoldedHalves(v: U32)
    ensures Folded(v) == OnesAdd(v % 0x1_0000, v / 0x1_0000)
  {
  }

  lemma {:induction false} OnesAddIsCanonical(lo: U16, hi: U16)
    ensures OnesAdd(lo, hi) == Canonical(hi * 0x1_0000 + lo)
  {
    var r := OnesAdd(lo, hi);
    CanonicalUnique(hi * 0x1_0000 + lo, r, if lo + hi <= 0xFFFF then hi else hi + 1);
  }

  /** The single fold of `ChecksumCombine` is already canonical for every `uint32`. */
  lemma {:induction false} CombineIsCanonical(v: U32)
    ensures Folded(v) == Canonical(v)
  {
    FoldedHalves(v);
    OnesAddIsCanonical(v % 0x1_0000, v / 0x1_0000);
  }

  lemma {:induction false} WordSumConcat(a: seq<Byte>, b: seq<Byte>)
    requires |a| % 2 == 0
    ensures WordSum(a + b) == WordSum(a) + WordSum(b)
  {
    if a == [] {
      assert a + b == b;
    } else {
      assert (a + b)[2..] == a[2..] + b;
      WordSumConcat(a[2..], b);
    }
  }

  lemma {:induction false} WordSumBound(b: seq<Byte>)
    ensures WordSum(b) <= (|b| + 1) / 2 * 0xFFFF
  {
    if |b| >= 2 {
      WordSumBound(b[2..]);
    }
  }

  lemma {:induction false} OnesSumIsCanonical(initial: U16, b: seq<Byte>)
    ensures OnesSum(initial, Words(b)) == Canonical(initial + WordSum(b))
    decreases |b|
  {
    if |b| == 0 {
    } else if |b| == 1 {
      assert Words(b)[1..] == [];
      var r := OnesAdd(initial, Words(b)[0]);
      CanonicalUnique(initial + WordSum(b), r, if initial + WordSum(b) == r then 0 else 1);
    } else {
      var w := Get16(b, 0);
      assert Words(b)[1..] == Words(b[2..]);
      OnesSumIsCanonical(OnesAdd(initial, w), b[2..]);
      CanonicalUnique(initial + w, OnesAdd(initial, w), if initial + w <= 0xFFFF then 0 else 1);
      CanonicalAbsorbs(initial + w, WordSum(b[2..]));
    }
  }

  // ----- Main results -----

  /** Up to 131072 bytes the `uint32` accumulator cannot overflow, whatever the bytes and the
      initial value, and one fold then gives the one's-complement sum of RFC 1071. */
  lemma {:induction false} ChecksumIsOnesSum(buf: seq<Byte>, initial: U16)
    requires |buf| <= 131072
    ensures initial + WordSum(buf) < 0x1_0000_0000
    ensures Summed(buf, initial) == OnesSum(initial, Words(buf)) == Canonical(initial + WordSum(buf))
  {
    SumFits(buf, initial);
    OnesSumIsCanonical(initial, buf);
    SummedShort(buf, initial);
  }

  lemma {:induction false} SummedShort(buf: seq<Byte>, initial: U16)
    requires |buf| <= 131072
    ensures Summed(buf, initial) == Canonical(initial + WordSum(buf))
  {
    SumFits(buf, initial);
    SummedWithoutOverflow(buf, initial);
  }

  lemma {:induction false} SummedWithoutOverflow(buf: seq<Byte>, initial: U16)
    requires initial + WordSum(buf) < 0x1_0000_0000
    ensures Summed(buf, initial) == Canonical(initial + WordSum(buf))
  {
    var v := ToU32(initial + WordSum(buf));
    CombineIsCanonical(v);
  }

  lemma {:induction false} SumFits(buf: seq<Byte>, initial: U16)
    requires |buf| <= 131072
    ensures initial + WordSum(buf) < 0x1_0000_0000
  {
    WordSumBound(buf);
    assert (|buf| + 1) / 2 <= 0x1_0000;
  }

  /** For every buffer, however long: the code is right exactly when what the accumulator has lost
      by wrapping is a multiple of 65535 times 2^32, and it has not been left at 0 by that. */
  lemma {:induction false} ChecksumRightIff(buf: seq<Byte>, initial: U16)
    ensures var total := initial + WordSum(buf);
      Summed(buf, initial) == OnesSum(initial, Words(buf))
      <==> total / 0x1_0000_0000 % 0xFFFF == 0 && (total % 0x1_0000_0000 == 0 ==> total == 0)
  {
    OnesSumIsCanonical(initial, buf);
    var total := initial + WordSum(buf);
    CombineIsCanonical(ToU32(total));
    WrapChangesResidue(total);
  }

  /** Below 2^32 times 65535, which only buffers of more than eight gigabytes reach: exactly when
      the true sum fits in 32 bits. */
  lemma {:induction false} ChecksumRightIffNoOverflow(buf: seq<Byte>, initial: U16)
    requires initial + WordSum(buf) < 0x1_0000_0000 * 0xFFFF
    ensures Summed(buf, initial) == OnesSum(initial, Words(buf)) <==> initial + WordSum(buf) < 0x1_0000_0000
  {
    var total := initial + WordSum(buf);
    ChecksumRightIff(buf, initial);
    SmallQuotient(total / 0x1_0000_0000);
  }

  lemma {:induction false} SmallQuotient(q: nat)
    requires q < 0xFFFF
    ensures q % 0xFFFF == 0 <==> q == 0
  {
  }

  lemma {:induction false} WrapChangesResidue(total: nat)
    ensures Canonical(ToU32(total)) == Canonical(total)
      <==> total / 0x1_0000_0000 % 0xFFFF == 0 && (total % 0x1_0000_0000 == 0 ==> total == 0)
  {
    var v, q := total % 0x1_0000_0000, total / 0x1_0000_0000;
    assert ToU32(total) == v;
    var k := CanonicalResidue(v);
    var m := CanonicalResidue(total);
    if Canonical(v) == Canonical(total) {
      MultipleOfLost(q, m - k);
    }
    if q % 0xFFFF == 0 && (v == 0 ==> total == 0) {
      var j := q / 0xFFFF;
      assert q == j * 0xFFFF;
      CanonicalUnique(total, Canonical(v), k + j * 0x1_0000_0000);
    }
  }

  lemma {:induction false} MultipleOfLost(q: nat, k: int)
    requires q * 0x1_0000_0000 == k * 0xFFFF
    ensures q % 0xFFFF == 0
  {
    var j := k - q * 0x1_0001;
    assert q == j * 0xFFFF;
  }

  function Repeat(x: Byte, n: nat): (s: seq<Byte>)
    ensures |s| == n && forall i :: 0 <= i < n ==> s[i] == x
  {
    seq(n, _ => x)
  }

  lemma {:induction false} AllOnesSum(n: nat)
    ensures WordSum(Repeat(0xFF, 2 * n)) == n * 0xFFFF
  {
    if n > 0 {
      assert Repeat(0xFF, 2 * n)[2..] == Repeat(0xFF, 2 * (n - 1));
      AllOnesSum(n - 1);
    }
  }

  /** The bound is tight: one more word can overflow, and the result is then wrong. */
  lemma {:induction false} ChecksumBoundIsTight()
    ensures Summed(Repeat(0xFF, 131074), 0xFFFF) != OnesSum(0xFFFF, Words(Repeat(0xFF, 131074)))
  {
    AllOnesSum(65537);
    ChecksumRightIffNoOverflow(Repeat(0xFF, 131074), 0xFFFF);
  }

  // ----- Chaining -----

  /** Folding `Checksum` over a list of pieces, as the callers do. */
  function Chained(pieces: seq<seq<Byte>>, initial: U16): U16 {
    if |pieces| == 0 then initial else Chained(pieces[1..], Summed(pieces[0], initial))
  }

  function Joined(pieces: seq<seq<Byte>>): seq<Byte> {
    if |pieces| == 0 then [] else pieces[0] + Joined(pieces[1..])
  }

  ghost predicate Chainable(pieces: seq<seq<Byte>>) {
    && (forall i :: 0 <= i < |pieces| ==> |pieces[i]| <= 131072)
    && (forall i :: 0 <= i < |pieces| - 1 ==> |pieces[i]| % 2 == 0)
  }

  lemma {:induction false} WordsConcat(a: seq<Byte>, b: seq<Byte>)
    requires |a| % 2 == 0
    ensures Words(a + b) == Words(a) + Words(b)
  {
    if a == [] {
      assert a + b == b;
    } else {
      assert (a + b)[2..] == a[2..] + b;
      WordsConcat(a[2..], b);
    }
  }

  lemma {:induction false} OnesSumConcat(initial: U16, u: seq<U16>, v: seq<U16>)
    ensures OnesSum(initial, u + v) == OnesSum(OnesSum(initial, u), v)
    decreases |u|
  {
    if u == [] {
      assert u + v == v;
    } else {
      assert (u + v)[1..] == u[1..] + v;
      OnesSumConcat(OnesAdd(initial, u[0]), u[1..], v);
    }
  }

  lemma {:induction false} ChainStep(pieces: seq<seq<Byte>>, initial: U16)
    requires Chainable(pieces) && |pieces| > 0
    ensures Chainable(pieces[1..])
    ensures Chained(pieces, initial) == Chained(pieces[1..], OnesSum(initial, Words(pieces[0])))
  {
    ChecksumIsOnesSum(pieces[0], initial);
  }

  lemma {:induction false} JoinStep(pieces: seq<seq<Byte>>, initial: U16)
    requires Chainable(pieces) && |pieces| > 0
    ensures OnesSum(initial, Words(Joined(pieces)))
      == OnesSum(OnesSum(initial, Words(pieces[0])), Words(Joined(pieces[1..])))
  {
    if |pieces| == 1 {
      assert Joined(pieces) == pieces[0];
    } else {
      WordsConcat(pieces[0], Joined(pieces[1..]));
      OnesSumConcat(initial, Words(pieces[0]), Words(Joined(pieces[1..])));
    }
  }

  /** Chaining over pieces, all but the last of even length and none above the overflow
      bound, is the one's-complement sum of their concatenation, however long that is. */
  lemma {:induction false} ChainingIsConcatenation(pieces: seq<seq<Byte>>, initial: U16)
    requires Chainable(pieces)
    ensures Chained(pieces, initial) == OnesSum(initial, Words(Joined(pieces)))
    decreases |pieces|
  {
    if |pieces| > 0 {
      ChainStep(pieces, initial);
      JoinStep(pieces, initial);
      ChainingIsConcatenation(pieces[1..], OnesSum(initial, Words(pieces[0])));
    }
  }

  /** When the concatenation is itself within the bound, one `Checksum` of it gives the same. */
  lemma {:induction false} ChainingIsOneChecksum(pieces: seq<seq<Byte>>, initial: U16)
    requires Chainable(pieces) && |Joined(pieces)| <= 131072
    ensures Chained(pieces, initial) == Summed(Joined(pieces), initial)
  {
    ChainingIsConcatenation(pieces, initial);
    ChecksumIsOnesSum(Joined(pieces), initial);
  }

  // ----- The sender's and the receiver's side -----

  lemma {:induction false} WordSumPatch(b: seq<Byte>, i: nat, v: U16)
    requires i % 2 == 0 && i + 2 <= |b|
    ensures WordSum(Patched(b, i, Bytes16(v))) == WordSum(b) - Get16(b, i) + v
  {
    var r := Patched(b, i, Bytes16(v));
    if i == 0 {
      assert r[2..] == b[2..];
    } else {
      assert r[2..] == Patched(b[2..], i - 2, Bytes16(v));
      WordSumPatch(b[2..], i - 2, v);
    }
  }

  /** Complementing the one's-complement sum into a zeroed, word-aligned field makes the buffer
      sum to 0xFFFF: the receiver's check of RFC 1071, section 1. */
  lemma {:induction false} ComplementVerifies(b: seq<Byte>, i: nat)
    requires i % 2 == 0 && i + 2 <= |b| && Get16(b, i) == 0
    ensures OnesSum(0, Words(Patched(b, i, Bytes16(Not16(OnesSum(0, Words(b))))))) == 0xFFFF
  {
    var c := Not16(OnesSum(0, Words(b)));
    var sent := Patched(b, i, Bytes16(c));
    OnesSumIsCanonical(0, b);
    var k := CanonicalResidue(WordSum(b));
    WordSumPatch(b, i, c);
    OnesSumIsCanonical(0, sent);
    CanonicalUnique(WordSum(sent), 0xFFFF, k);
  }

  /** Equal as one's-complement numbers. */
  predicate SameSum(a: U16, b: U16) {
    a == b || (a == 0 && b == 0xFFFF) || (a == 0xFFFF && b == 0)
  }

  /** No other value of the field passes the receiver's check, except that 0 and 0xFFFF, the
      two zeros of one's-complement arithmetic, stand for each other. */
  lemma {:induction false} ComplementUnique(b: seq<Byte>, i: nat, v: U16)
    requires i % 2 == 0 && i + 2 <= |b| && Get16(b, i) == 0
    requires OnesSum(0, Words(Patched(b, i, Bytes16(v)))) == 0xFFFF
    ensures SameSum(v, Not16(OnesSum(0, Words(b))))
  {
    var c := Not16(OnesSum(0, Words(b)));
    var sent := Patched(b, i, Bytes16(v));
    OnesSumIsCanonical(0, b);
    var k := CanonicalResidue(WordSum(b));
    WordSumPatch(b, i, v);
    OnesSumIsCanonical(0, sent);
    var m := CanonicalResidue(WordSum(sent));
    SameZero(c, v, (k as int) - m);
  }

  lemma {:induction false} SameZero(c: U16, v: U16, k: int)
    requires c == v + k * 0xFFFF
    ensures SameSum(v, c)
  {
  }

  /** Zeroing a word of a buffer that passes the receiver's check, behind a first word that is not
      zero: it still passes exactly if the word was one of the two zeros. */
  lemma {:induction false} ZeroingKeepsCheckIff(b: seq<Byte>, i: nat)
    requires i % 2 == 0 && 2 <= i && i + 2 <= |b| && Get16(b, 0) > 0
    requires OnesSum(0, Words(b)) == 0xFFFF
    ensures OnesSum(0, Words(Patched(b, i, Bytes16(0)))) == 0xFFFF <==> Get16(b, i) == 0 || Get16(b, i) == 0xFFFF
  {
    var r, w := Patched(b, i, Bytes16(0)), Get16(b, i);
    WordSumPatch(b, i, 0);
    OnesSumIsCanonical(0, b);
    OnesSumIsCanonical(0, r);
    var k := CanonicalResidue(WordSum(b));
    var m := CanonicalResidue(WordSum(r));
    FirstWordCounts(r);
    if w == 0 || w == 0xFFFF {
      CanonicalUnique(WordSum(r), 0xFFFF, if w == 0 then k else k - 1);
    } else if Canonical(WordSum(r)) == 0xFFFF {
      NoSmallMultiple(w, (k as int) - m);
    }
  }

  lemma {:induction false} FirstWordCounts(b: seq<Byte>)
    requires |b| >= 2 && Get16(b, 0) > 0
    ensures WordSum(b) > 0
  {
  }

  lemma {:induction false} NoSmallMultiple(w: U16, k: int)
    requires w == k * 0xFFFF
    ensures w == 0 || w == 0xFFFF
  {
  }
}
