/** The IPv4 reassembly queue of `src/nat/fragment.go`: one queue per datagram, filled by
    three insertion paths, with a running byte count (`meat`) and end mark (`qLen`). */
module FragmentQueue {
  import opened Machine

  datatype Fragment<P> = Fragment(offset: U16, len: U16, last: U16, more: bool, pkb: P)

  /** `createFragment`: the end mark is a `uint16` and wraps. */
  function CreateFragment<P>(offset: U16, len: U16, more: bool, pkb: P): Fragment<P> {
    Fragment(offset, len, ToU16(offset + len), more, pkb)
  }

  /** The value of a queue; `lastIn` and `complete` are the bits FRAG_LAST_IN and FRAG_COMPLETE. */
  datatype Queue<P> = Queue(list: seq<Fragment<P>>, qLen: U16, meat: U16, lastIn: bool, complete: bool)

  function EmptyQueue<P>(): Queue<P> {
    Queue([], 0, 0, false, false)
  }

  /** What a call reports: (false, false), (true, false), (true, true), or `log.Panicf`. */
  datatype Outcome = Rejected | Pending | Done | Panicked {
    predicate Accepted() {
      Pending? || Done?
    }
  }

  // ----- Specification of one call -----

  /** The backward scan: the last position below `k` whose fragment ends at or before `offset`. */
  function ScanBack<P>(list: seq<Fragment<P>>, offset: U16, k: nat): (e: int)
    requires k <= |list|
    ensures -1 <= e < k
    ensures e >= 0 ==> list[e].last <= offset
    ensures forall i :: e < i < k ==> offset < list[i].last
  {
    if k == 0 then -1
    else if offset >= list[k - 1].last then k - 1
    else ScanBack(list, offset, k - 1)
  }

  /** `list` with `x` put in front of position `k`. */
  function Inserted<P>(list: seq<Fragment<P>>, k: nat, x: Fragment<P>): (r: seq<Fragment<P>>)
    requires k <= |list|
    ensures |r| == |list| + 1 && r[k] == x
    ensures forall i {:trigger r[i]} :: 0 <= i < k ==> r[i] == list[i]
    ensures forall i {:trigger r[i]} :: k < i < |r| ==> r[i] == list[i - 1]
  {
    seq(|list| + 1, i requires 0 <= i <= |list| => if i < k then list[i] else if i == k then x else list[i - 1])
  }

  /** The last piece goes to the end of the list. */
  function AppendedLast<P>(q: Queue<P>, nfrag: Fragment<P>): (Queue<P>, Outcome)
    requires |q.list| > 0
  {
    if q.list[|q.list| - 1].last > nfrag.offset then (q.(lastIn := true), Panicked)
    else
      var meat := ToU16(q.meat + nfrag.len);
      var full := nfrag.last == meat;
      (Queue(Inserted(q.list, |q.list|, nfrag), nfrag.last, meat, true, full), if full then Done else Pending)
  }

  /** A middle piece goes behind the fragment at position `e`. */
  function SplicedAfter<P>(q: Queue<P>, e: int, nfrag: Fragment<P>): (Queue<P>, Outcome)
    requires -1 <= e < |q.list|
  {
    if e < 0 then (q, Rejected)
    else if e + 1 < |q.list| && nfrag.last > q.list[e + 1].offset then (q, Panicked)
    else
      var meat := ToU16(q.meat + nfrag.len);
      var qLen := if q.qLen < nfrag.last then nfrag.last else q.qLen;
      var full := q.lastIn && qLen == meat;
      (Queue(Inserted(q.list, e + 1, nfrag), qLen, meat, q.lastIn, full), if full then Done else Pending)
  }

  function Process<P>(q: Queue<P>, nfrag: Fragment<P>): (Queue<P>, Outcome) {
    if q.complete then (q, Rejected)
    else if |q.list| == 0 then
      (q.(list := Inserted([], 0, nfrag), meat := ToU16(q.meat + nfrag.len), qLen := nfrag.last), Pending)
    else if !nfrag.more then AppendedLast(q, nfrag)
    else SplicedAfter(q, ScanBack(q.list, nfrag.offset, |q.list|), nfrag)
  }

  // ----- What the queue keeps -----

  function TotalLen<P>(list: seq<Fragment<P>>): nat {
    if |list| == 0 then 0 else list[0].len + TotalLen(list[1..])
  }

  /** Sorted, disjoint, with unwrapped end marks. */
  ghost predicate Ordered<P>(list: seq<Fragment<P>>) {
    && (forall i :: 0 <= i < |list| ==> list[i].last == list[i].offset + list[i].len)
    && (forall i, j :: 0 <= i < j < |list| ==> list[i].last <= list[j].offset)
  }

  /** The fragments cover [0, end of the last one) with no gap. */
  ghost predicate Tiles<P>(list: seq<Fragment<P>>) {
    |list| > 0 && list[0].offset == 0 && Contiguous(list)
  }

  ghost predicate Contiguous<P>(list: seq<Fragment<P>>) {
    forall i :: 0 <= i < |list| - 1 ==> list[i].last == list[i + 1].offset
  }

  function End<P>(list: seq<Fragment<P>>): U16 {
    if |list| == 0 then 0 else list[|list| - 1].last
  }

  ghost predicate Valid<P>(q: Queue<P>) {
    && Ordered(q.list)
    && q.meat == TotalLen(q.list)
    && q.qLen == End(q.list)
    && (q.complete ==> q.lastIn && Tiles(q.list))
  }

  lemma {:induction false} TotalLenConcat<P>(a: seq<Fragment<P>>, b: seq<Fragment<P>>)
    ensures TotalLen(a + b) == TotalLen(a) + TotalLen(b)
  {
    if a == [] {
      assert a + b == b;
    } else {
      assert (a + b)[1..] == a[1..] + b;
      TotalLenConcat(a[1..], b);
    }
  }

  lemma {:induction false} TotalLenInsert<P>(list: seq<Fragment<P>>, k: nat, x: Fragment<P>)
    requires k <= |list|
    ensures TotalLen(Inserted(list, k, x)) == TotalLen(list) + x.len
  {
    TotalLenConcat(list[..k], list[k..]);
    assert list[..k] + list[k..] == list;
    TotalLenConcat([x], list[k..]);
    assert TotalLen([x]) == x.len;
    TotalLenConcat(list[..k], [x] + list[k..]);
    assert Inserted(list, k, x) == list[..k] + ([x] + list[k..]);
  }

  lemma {:induction false} InsertedMembers<P>(list: seq<Fragment<P>>, k: nat, x: Fragment<P>)
    requires k <= |list|
    ensures forall f :: f in Inserted(list, k, x) <==> f in list || f == x
  {
    var r := Inserted(list, k, x);
    forall f | f in list || f == x ensures f in r {
      if f == x {
        assert r[k] == f;
      } else {
        var i :| 0 <= i < |list| && list[i] == f;
        assert r[if i < k then i else i + 1] == f;
      }
    }
  }

  lemma {:induction false} InsertAddsOne<P>(list: seq<Fragment<P>>, k: nat, x: Fragment<P>)
    requires k <= |list|
    ensures multiset(Inserted(list, k, x)) == multiset(list) + multiset{x}
  {
    assert list[..k] + list[k..] == list;
    assert Inserted(list, k, x) == list[..k] + [x] + list[k..];
  }

  /** Disjoint fragments fit between the first offset and the last end, and fill that range
      exactly when there is no gap. */
  lemma {:induction false} MeatMeasuresGaps<P>(list: seq<Fragment<P>>)
    requires Ordered(list) && |list| > 0
    ensures TotalLen(list) <= End(list) - list[0].offset
    ensures TotalLen(list) == End(list) - list[0].offset <==> Contiguous(list)
  {
    var rest := list[1..];
    if rest != [] {
      assert End(rest) == End(list);
      assert rest[0] == list[1];
      MeatMeasuresGaps(rest);
      if Contiguous(list) {
        assert Contiguous(rest);
        assert list[0].last == list[1].offset;
      }
      if Contiguous(rest) && list[0].last == list[1].offset {
        forall i | 0 <= i < |list| - 1 ensures list[i].last == list[i + 1].offset {
          assert i > 0 ==> rest[i - 1] == list[i] && rest[i] == list[i + 1];
        }
      }
    }
  }

  /** Sorted disjoint lists stay so when a fragment is put between its neighbours. */
  lemma {:induction false} InsertKeepsOrder<P>(list: seq<Fragment<P>>, k: nat, x: Fragment<P>)
    requires Ordered(list) && k <= |list|
    requires x.last == x.offset + x.len
    requires k > 0 ==> list[k - 1].last <= x.offset
    requires k < |list| ==> x.last <= list[k].offset
    ensures Ordered(Inserted(list, k, x))
  {
    var r := Inserted(list, k, x);
    forall i, j | 0 <= i < j < |r| ensures r[i].last <= r[j].offset {
      if i < k && j == k {
        assert i < k - 1 ==> list[i].last <= list[k - 1].offset;
      } else if i == k {
        assert j > k + 1 ==> list[k].last <= list[j - 1].offset;
      }
    }
  }

  /** Whichever path it takes, an accepted call inserts its fragment between neighbours that
      leave room for it. */
  lemma {:induction false} AcceptedInsertion<P>(q: Queue<P>, nfrag: Fragment<P>) returns (k: nat)
    requires Ordered(q.list) && q.qLen == End(q.list)
    requires nfrag.last == nfrag.offset + nfrag.len
    requires Process(q, nfrag).1.Accepted()
    ensures k <= |q.list|
    ensures k > 0 ==> q.list[k - 1].last <= nfrag.offset
    ensures k < |q.list| ==> nfrag.last <= q.list[k].offset
    ensures Process(q, nfrag).0.list == Inserted(q.list, k, nfrag)
    ensures Process(q, nfrag).0.qLen == End(Process(q, nfrag).0.list)
  {
    if |q.list| == 0 || !nfrag.more {
      k := |q.list|;
    } else {
      k := ScanBack(q.list, nfrag.offset, |q.list|) + 1;
      if k < |q.list| {
        assert nfrag.last <= q.list[k].last <= q.qLen;
      }
    }
  }

  /** How the counters and flags of an accepted call follow from the list. */
  lemma {:induction false} AcceptedCounters<P>(q: Queue<P>, nfrag: Fragment<P>)
    requires Process(q, nfrag).1.Accepted()
    ensures var (q', r) := Process(q, nfrag);
      && !q.complete
      && q'.meat == ToU16(q.meat + nfrag.len)
      && q'.lastIn == (q.lastIn || (!nfrag.more && |q.list| > 0))
      && (r == Done <==> q'.complete)
      && (q'.complete <==> |q.list| > 0 && q'.lastIn && q'.qLen == q'.meat)
  {
  }

  lemma {:induction false} InsertionKeepsValid<P>(q: Queue<P>, q': Queue<P>, k: nat, nfrag: Fragment<P>)
    requires Valid(q) && nfrag.last == nfrag.offset + nfrag.len && k <= |q.list|
    requires k > 0 ==> q.list[k - 1].last <= nfrag.offset
    requires k < |q.list| ==> nfrag.last <= q.list[k].offset
    requires q'.list == Inserted(q.list, k, nfrag) && q'.qLen == End(q'.list)
    requires q'.meat == ToU16(q.meat + nfrag.len)
    requires q'.complete ==> q'.lastIn && q'.qLen == q'.meat
    ensures Valid(q')
    ensures q'.qLen == q'.meat <==> Tiles(q'.list)
  {
    InsertKeepsOrder(q.list, k, nfrag);
    TotalLenInsert(q.list, k, nfrag);
    MeatMeasuresGaps(q'.list);
  }

  /** Every call that does not abort keeps the queue valid; a rejected call changes nothing; an
      accepted one adds exactly its fragment. */
  lemma {:induction false} ProcessKeepsValid<P>(q: Queue<P>, nfrag: Fragment<P>)
    requires Valid(q) && nfrag.last == nfrag.offset + nfrag.len
    ensures var (q', r) := Process(q, nfrag);
      && (r != Panicked ==> Valid(q'))
      && (r == Rejected ==> q' == q)
      && (r.Accepted() ==> multiset(q'.list) == multiset(q.list) + multiset{nfrag})
  {
    var (q', r) := Process(q, nfrag);
    if r.Accepted() {
      var k := AcceptedInsertion(q, nfrag);
      AcceptedCounters(q, nfrag);
      InsertionKeepsValid(q, q', k, nfrag);
      InsertAddsOne(q.list, k, nfrag);
    }
  }

  /** Completion is reported exactly when the last piece is in and the list tiles [0, qLen) with
      no gap; the first fragment of a queue never completes it. */
  lemma {:induction false} DoneIffTiled<P>(q: Queue<P>, nfrag: Fragment<P>)
    requires Valid(q) && nfrag.last == nfrag.offset + nfrag.len
    requires Process(q, nfrag).1.Accepted()
    ensures var (q', r) := Process(q, nfrag);
      r == Done <==> |q.list| > 0 && q'.lastIn && Tiles(q'.list)
  {
    var (q', r) := Process(q, nfrag);
    var k := AcceptedInsertion(q, nfrag);
    AcceptedCounters(q, nfrag);
    InsertionKeepsValid(q, q', k, nfrag);
  }

  /** The outcome of a call depends only on which fragments are in the queue, not on the order
      in which they came: a last piece aborts exactly when some fragment ends beyond its start. */
  lemma {:induction false} LastPieceOutcome<P>(q: Queue<P>, nfrag: Fragment<P>)
    requires Valid(q) && !q.complete && |q.list| > 0
    requires nfrag.last == nfrag.offset + nfrag.len && !nfrag.more
    ensures Process(q, nfrag).1 == Panicked || Process(q, nfrag).1.Accepted()
    ensures Process(q, nfrag).1 == Panicked <==> exists f :: f in q.list && f.last > nfrag.offset
    ensures Process(q, nfrag).1 == Panicked ==> Process(q, nfrag).0 == q.(lastIn := true)
  {
    var n := |q.list| - 1;
    assert q.list[n] in q.list;
    assert forall i :: 0 <= i < n ==> q.list[i].last <= q.list[n].offset <= q.list[n].last;
  }

  ghost predicate Overlaps<P>(f: Fragment<P>, nfrag: Fragment<P>) {
    f.last > nfrag.offset && f.offset < nfrag.last
  }

  lemma {:induction false} NextIsNearest<P>(list: seq<Fragment<P>>, k: nat)
    requires Ordered(list) && k < |list|
    ensures forall i :: k <= i < |list| ==> list[k].offset <= list[i].offset
  {
    assert forall i :: k < i < |list| ==> list[k].offset <= list[k].last <= list[i].offset;
  }

  /** The scan separates the fragments that end at or before `offset` from the others. */
  lemma {:induction false} ScanSeparates<P>(list: seq<Fragment<P>>, offset: U16)
    requires Ordered(list)
    ensures var e := ScanBack(list, offset, |list|);
      && (forall i :: 0 <= i <= e ==> list[i].last <= offset)
      && (e < 0 <==> forall f :: f in list ==> f.last > offset)
  {
    var e := ScanBack(list, offset, |list|);
    if e >= 0 {
      assert list[e] in list;
      assert forall i :: 0 <= i < e ==> list[i].last <= list[e].offset <= list[e].last;
    }
  }

  /** Of the fragments behind position `e`, the next one is overlapped if any is. */
  lemma {:induction false} OverlapIsNext<P>(list: seq<Fragment<P>>, e: int, nfrag: Fragment<P>)
    requires Ordered(list) && -1 <= e < |list|
    requires forall i :: 0 <= i <= e ==> list[i].last <= nfrag.offset
    requires forall i :: e < i < |list| ==> list[i].last > nfrag.offset
    ensures e + 1 < |list| && nfrag.last > list[e + 1].offset <==> exists f :: f in list && Overlaps(f, nfrag)
  {
    if e + 1 < |list| {
      NextIsNearest(list, e + 1);
      assert list[e + 1] in list;
    }
  }

  /** A middle piece is refused exactly when no fragment ends at or before its start, and
      otherwise aborts exactly when it overlaps one. */
  lemma {:induction false} MiddlePieceOutcome<P>(q: Queue<P>, nfrag: Fragment<P>)
    requires Valid(q) && !q.complete && |q.list| > 0
    requires nfrag.last == nfrag.offset + nfrag.len && nfrag.more
    ensures Process(q, nfrag).1 == Rejected <==> forall f :: f in q.list ==> f.last > nfrag.offset
    ensures Process(q, nfrag).1 == Panicked
       <==> (exists f :: f in q.list && f.last <= nfrag.offset) && (exists f :: f in q.list && Overlaps(f, nfrag))
    ensures Process(q, nfrag).1 == Panicked ==> Process(q, nfrag).0 == q
  {
    ScanSeparates(q.list, nfrag.offset);
    OverlapIsNext(q.list, ScanBack(q.list, nfrag.offset, |q.list|), nfrag);
  }

  /** A fragment whose end does not fit in 16 bits is accepted all the same, and the list then
      is no longer sorted and disjoint: validity is kept exactly when the end fits. */
  lemma {:induction false} WrappedEndBreaksOrder<P>(q: Queue<P>, offset: U16, len: U16, more: bool, pkb: P)
    requires Valid(q)
    requires Process(q, CreateFragment(offset, len, more, pkb)).1.Accepted()
    ensures Valid(Process(q, CreateFragment(offset, len, more, pkb)).0) <==> offset + len <= 0xFFFF
  {
    var nfrag := CreateFragment(offset, len, more, pkb);
    var (q', r) := Process(q, nfrag);
    if offset + len <= 0xFFFF {
      ProcessKeepsValid(q, nfrag);
    } else {
      assert nfrag in q'.list;
    }
  }

  lemma {:induction false} WrappedEndIsAccepted<P>(p0: P, p1: P)
    ensures var q := Process(EmptyQueue(), CreateFragment(0, 8, true, p0)).0;
      Valid(q) && Process(q, CreateFragment(65528, 16, true, p1)).1 == Pending
  {
    var q := Process(EmptyQueue(), CreateFragment(0, 8, true, p0)).0;
    ProcessKeepsValid(EmptyQueue(), CreateFragment(0, 8, true, p0));
    assert ScanBack(q.list, 65528, 1) == 0;
  }

  // ----- The code -----

  /** A packet buffer: its bytes, where the IPv4 header starts in them, the data that the packet
      arrived with, and the `next` link. */
  class PktBuf {
    const bytes: array<Byte>
    const h: nat
    const data: seq<Byte>
    var next: PktBuf?

    constructor (bytes: array<Byte>, h: nat, data: seq<Byte>)
      ensures this.bytes == bytes && this.h == h && this.data == data && next == null
    {
      this.bytes, this.h, this.data := bytes, h, data;
      next := null;
    }
  }

  /** Consecutive buffers are linked by `next`. */
  ghost predicate IsChain(ps: seq<PktBuf>)
    reads ps
  {
    forall i :: 0 <= i < |ps| - 1 ==> ps[i].next == ps[i + 1]
  }

  function Packets(list: seq<Fragment<PktBuf>>): (ps: seq<PktBuf>)
    ensures |ps| == |list|
    ensures forall i :: 0 <= i < |ps| ==> ps[i] == list[i].pkb
  {
    seq(|list|, i requires 0 <= i < |list| => list[i].pkb)
  }

  /** The buffers of `list`, in list order, are chained, and `head` is the first. */
  ghost predicate IsChainOf(head: PktBuf?, list: seq<Fragment<PktBuf>>)
    reads Packets(list)
  {
    |list| > 0 && head == list[0].pkb && IsChain(Packets(list))
  }

  class FragQueue {
    var list: seq<Fragment<PktBuf>>
    var qLen: U16
    var meat: U16
    var lastIn: bool
    var complete: bool

    ghost function View(): Queue<PktBuf>
      reads this
    {
      Queue(list, qLen, meat, lastIn, complete)
    }

    /** `newfragQueue`. */
    constructor ()
      ensures View() == EmptyQueue()
    {
      list, qLen, meat, lastIn, complete := [], 0, 0, false, false;
    }

    method ProcessFragment(offset: U16, len: U16, more: bool, pkb: PktBuf) returns (r: Outcome)
      modifies this
      ensures View() == Process(old(View()), CreateFragment(offset, len, more, pkb)).0
      ensures r == Process(old(View()), CreateFragment(offset, len, more, pkb)).1
    {
      if complete {
        return Rejected;
      }
      var nfrag := CreateFragment(offset, len, more, pkb);
      if |list| == 0 {
        list := Inserted(list, 0, nfrag);
        meat := ToU16(meat + nfrag.len);
        qLen := nfrag.last;
        return Pending;
      }
      if !more {
        r := AppendLast(nfrag);
        return;
      }
      var e := FindPlace(offset);
      r := SpliceAfter(e, nfrag);
    }

    /** `ProcessFragment`, the case without more fragments. */
    method AppendLast(nfrag: Fragment<PktBuf>) returns (r: Outcome)
      requires |list| > 0 && !complete
      modifies this
      ensures (View(), r) == AppendedLast(old(View()), nfrag)
    {
      lastIn := true;
      if list[|list| - 1].last > nfrag.offset {
        return Panicked;
      }
      list := Inserted(list, |list|, nfrag);
      meat := ToU16(meat + nfrag.len);
      qLen := nfrag.last;
      if qLen == meat {
        complete := true;
        return Done;
      }
      return Pending;
    }

    /** `ProcessFragment`, the case with more fragments, once the scan has ended at `e`. */
    method SpliceAfter(e: int, nfrag: Fragment<PktBuf>) returns (r: Outcome)
      requires -1 <= e < |list| && !complete
      modifies this
      ensures (View(), r) == SplicedAfter(old(View()), e, nfrag)
    {
      if e < 0 {
        return Rejected;
      }
      if e + 1 < |list| && nfrag.last > list[e + 1].offset {
        return Panicked;
      }
      list := Inserted(list, e + 1, nfrag);
      if qLen < nfrag.last {
        qLen := nfrag.last;
      }
      meat := ToU16(meat + nfrag.len);
      if lastIn && qLen == meat {
        complete := true;
        return Done;
      }
      return Pending;
    }

    /** The backward scan of `ProcessFragment`. */
    method FindPlace(offset: U16) returns (e: int)
      ensures e == ScanBack(list, offset, |list|)
    {
      e := |list| - 1;
      while e >= 0 && offset < list[e].last
        invariant -1 <= e < |list|
        invariant ScanBack(list, offset, |list|) == ScanBack(list, offset, e + 1)
      {
        e := e - 1;
      }
    }

    /** `completed`: chain the buffers in list order and return the head. */
    method Completed() returns (first: PktBuf)
      requires complete && |list| > 0
      requires forall i, j :: 0 <= i < j < |list| ==> list[i].pkb != list[j].pkb
      modifies Packets(list)`next
      ensures IsChainOf(first, list)
      ensures list[|list| - 1].pkb.next == old(list[|list| - 1].pkb.next)
    {
      first := list[0].pkb;
      var prev := first;
      var e := 1;
      while e < |list|
        invariant 1 <= e <= |list|
        invariant prev == list[e - 1].pkb
        invariant forall i :: 0 <= i < e - 1 ==> list[i].pkb.next == list[i + 1].pkb
        invariant list[|list| - 1].pkb.next == old(list[|list| - 1].pkb.next)
      {
        var npkb := list[e].pkb;
        prev.next := npkb;
        prev := npkb;
        e := e + 1;
      }
    }
  }
}
