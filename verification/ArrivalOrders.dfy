/** Reassembly of fragments in their packet buffers. Every arrival, a repeated one too, comes in a
    buffer of its own; the queue of `src/nat/fragment.go` never looks into it. */
module ArrivalOrders {
  import Counting
  import opened Machine
  import opened FragmentQueue
  import opened Reassembly

  // ----- The buffers do not matter -----

  function Bare<P>(f: Fragment<P>): Fragment<()> {
    Fragment(f.offset, f.len, f.last, f.more, ())
  }

  function BareList<P>(list: seq<Fragment<P>>): (bare: seq<Fragment<()>>)
    ensures |bare| == |list| && forall i :: 0 <= i < |list| ==> bare[i] == Bare(list[i])
  {
    seq(|list|, i requires 0 <= i < |list| => Bare(list[i]))
  }

  function BareQueue<P>(q: Queue<P>): Queue<()> {
    Queue(BareList(q.list), q.qLen, q.meat, q.lastIn, q.complete)
  }

  lemma {:induction false} BareScan<P>(list: seq<Fragment<P>>, offset: U16, k: nat)
    requires k <= |list|
    ensures ScanBack(BareList(list), offset, k) == ScanBack(list, offset, k)
  {
    if k > 0 {
      BareScan(list, offset, k - 1);
    }
  }

  lemma {:induction false} BareInserted<P>(list: seq<Fragment<P>>, k: nat, x: Fragment<P>)
    requires k <= |list|
    ensures BareList(Inserted(list, k, x)) == Inserted(BareList(list), k, Bare(x))
  {
  }

  lemma {:induction false} BareAppended<P>(q: Queue<P>, nfrag: Fragment<P>)
    requires |q.list| > 0
    ensures AppendedLast(BareQueue(q), Bare(nfrag))
      == (BareQueue(AppendedLast(q, nfrag).0), AppendedLast(q, nfrag).1)
  {
    BareInserted(q.list, |q.list|, nfrag);
  }

  lemma {:induction false} BareSpliced<P>(q: Queue<P>, e: int, nfrag: Fragment<P>)
    requires -1 <= e < |q.list|
    ensures SplicedAfter(BareQueue(q), e, Bare(nfrag))
      == (BareQueue(SplicedAfter(q, e, nfrag).0), SplicedAfter(q, e, nfrag).1)
  {
    BareInserted(q.list, e + 1, nfrag);
  }

  /** A call does the same with the buffers as without. */
  lemma {:induction false} BareProcess<P>(q: Queue<P>, nfrag: Fragment<P>)
    ensures Process(BareQueue(q), Bare(nfrag)) == (BareQueue(Process(q, nfrag).0), Process(q, nfrag).1)
  {
    if |q.list| == 0 {
      BareInserted(q.list, 0, nfrag);
      assert BareList(q.list) == [] && q.list == [];
    } else if !nfrag.more {
      BareAppended(q, nfrag);
    } else {
      BareScan(q.list, nfrag.offset, |q.list|);
      BareSpliced(q, ScanBack(q.list, nfrag.offset, |q.list|), nfrag);
    }
  }

  lemma {:induction false} BareStep<P>(q: Queue<P>, nfrag: Fragment<P>, b: Queue<()>, q': Queue<P>)
    requires b == BareQueue(q) && q' == Process(q, nfrag).0
    ensures BareQueue(q') == Process(b, Bare(nfrag)).0
  {
    BareProcess(q, nfrag);
  }

  // ----- The run -----

  /** A piece, and the buffer in which it arrives. */
  datatype Arrived<P> = Arrived(piece: nat, pkb: P)

  function Numbers<P>(order: seq<Arrived<P>>): (numbers: seq<nat>)
    ensures |numbers| == |order| && forall n :: 0 <= n < |order| ==> numbers[n] == order[n].piece
  {
    seq(|order|, n requires 0 <= n < |order| => order[n].piece)
  }

  function FragOf<P>(pieces: seq<seq<Byte>>, a: Arrived<P>): (f: Fragment<P>)
    requires IsCut(pieces) && a.piece < |pieces|
    ensures Bare(f) == Frag(pieces, a.piece)
  {
    var f := Frag(pieces, a.piece);
    Fragment(f.offset, f.len, f.last, f.more, a.pkb)
  }

  /** The queue after the first `n` arrivals. */
  function Filled<P>(pieces: seq<seq<Byte>>, order: seq<Arrived<P>>, n: nat): Queue<P>
    requires IsCut(pieces) && IsArrivals(Numbers(order), |pieces|) && n <= |order|
  {
    if n == 0 then EmptyQueue()
    else
      assert Numbers(order)[n - 1] < |pieces|;
      Process(Filled(pieces, order, n - 1), FragOf(pieces, order[n - 1])).0
  }

  /** What the call for arrival `n` (counted from 0) reports. */
  function Reported<P>(pieces: seq<seq<Byte>>, order: seq<Arrived<P>>, n: nat): Outcome
    requires IsCut(pieces) && IsArrivals(Numbers(order), |pieces|) && n < |order|
  {
    assert Numbers(order)[n] < |pieces|;
    Process(Filled(pieces, order, n), FragOf(pieces, order[n])).1
  }

  lemma {:induction false} FilledNext<P>(pieces: seq<seq<Byte>>, order: seq<Arrived<P>>, n: nat)
    requires IsCut(pieces) && IsArrivals(Numbers(order), |pieces|) && n < |order|
    ensures order[n].piece < |pieces|
    ensures Filled(pieces, order, n + 1) == Process(Filled(pieces, order, n), FragOf(pieces, order[n])).0
    ensures Reported(pieces, order, n) == Process(Filled(pieces, order, n), FragOf(pieces, order[n])).1
  {
    assert Numbers(order)[n] < |pieces|;
  }

  /** After `n` arrivals the queue is the same as without buffers. */
  ghost predicate SameWithout<P>(pieces: seq<seq<Byte>>, order: seq<Arrived<P>>, n: nat)
    requires IsCut(pieces) && IsArrivals(Numbers(order), |pieces|) && n <= |order|
  {
    BareQueue(Filled(pieces, order, n)) == After(pieces, Numbers(order), n)
  }

  lemma {:induction false} NextIsBare<P>(pieces: seq<seq<Byte>>, order: seq<Arrived<P>>, n: nat)
    requires IsCut(pieces) && IsArrivals(Numbers(order), |pieces|) && 0 < n <= |order|
    requires SameWithout(pieces, order, n - 1)
    ensures SameWithout(pieces, order, n)
  {
    FilledNext(pieces, order, n - 1);
    BareStep(Filled(pieces, order, n - 1), FragOf(pieces, order[n - 1]), After(pieces, Numbers(order), n - 1),
             Filled(pieces, order, n));
  }

  lemma {:induction false} FilledIsBare<P>(pieces: seq<seq<Byte>>, order: seq<Arrived<P>>, n: nat)
    requires IsCut(pieces) && IsArrivals(Numbers(order), |pieces|) && n <= |order|
    ensures SameWithout(pieces, order, n)
  {
    if n > 0 {
      FilledIsBare(pieces, order, n - 1);
      NextIsBare(pieces, order, n);
    } else {
      assert BareList<P>([]) == [];
    }
  }

  lemma {:induction false} ReportedIsBare<P>(pieces: seq<seq<Byte>>, order: seq<Arrived<P>>, n: nat)
    requires IsCut(pieces) && IsArrivals(Numbers(order), |pieces|) && n < |order|
    ensures Reported(pieces, order, n) == Report(pieces, Numbers(order), n)
  {
    FilledIsBare(pieces, order, n);
    BareProcess(Filled(pieces, order, n), FragOf(pieces, order[n]));
  }

  // ----- Reports -----

  /** For every cut and every sequence of arrivals, up to the first abort: before the queue is
      complete a piece that lies before the first arrival is refused, and one that is in the
      queue already aborts, unless it is the first arrival itself, with more pieces after it,
      which is refused; afterwards every piece is refused. Completion is reported exactly when
      the last missing piece comes. */
  lemma {:induction false} ReportsWithRepeats<P>(pieces: seq<seq<Byte>>, order: seq<Arrived<P>>, n: nat)
    requires IsCut(pieces) && IsArrivals(Numbers(order), |pieces|) && n < |order|
    requires NoneAborts(Numbers(order), |pieces|, n)
    ensures Reported(pieces, order, n) == Expected(Numbers(order), |pieces|, n)
  {
    ReportedIsBare(pieces, order, n);
    ReportsAreExpected(pieces, Numbers(order), n);
  }

  /** A run aborts if and only if some piece that the incomplete queue holds arrives again and is
      not the refused first arrival. */
  lemma {:induction false} AbortsExactlyAtRepeat<P>(pieces: seq<seq<Byte>>, order: seq<Arrived<P>>, n: nat)
    requires IsCut(pieces) && IsArrivals(Numbers(order), |pieces|) && n <= |order|
    ensures (forall m :: 0 <= m < n ==> Reported(pieces, order, m) != Panicked)
      <==> NoneAborts(Numbers(order), |pieces|, n)
  {
    if n > 0 {
      AbortsExactlyAtRepeat(pieces, order, n - 1);
      if NoneAborts(Numbers(order), |pieces|, n - 1) {
        ReportsWithRepeats(pieces, order, n - 1);
      }
    }
  }

  /** For every cut and every arrival order: no call aborts; a piece is refused exactly when it
      lies before the one that came first; and completion is reported exactly at the final
      arrival when piece 0 came first, and never otherwise. */
  lemma {:induction false} ReportsInEveryOrder<P>(pieces: seq<seq<Byte>>, order: seq<Arrived<P>>, n: nat)
    requires IsCut(pieces) && IsOrder(Numbers(order), |pieces|) && n < |order|
    ensures Reported(pieces, order, n) != Panicked
    ensures Reported(pieces, order, n) == Rejected <==> order[n].piece < order[0].piece
    ensures Reported(pieces, order, n) == Done <==> n == |order| - 1 && order[0].piece == 0
  {
    OrderNeverAborts(Numbers(order), |pieces|);
    OrderExpected(Numbers(order), |pieces|, n);
    ReportsWithRepeats(pieces, order, n);
  }

  // ----- The buffers in the queue -----

  /** No earlier arrival is of the same piece. */
  ghost predicate IsFirst<P>(order: seq<Arrived<P>>, m: nat)
    requires m < |order|
  {
    forall j :: 0 <= j < m ==> order[j].piece != order[m].piece
  }

  /** Arrival `m`, the first of its piece, brought the fragment. */
  ghost predicate BroughtBy<P>(pieces: seq<seq<Byte>>, order: seq<Arrived<P>>, m: nat, f: Fragment<P>)
    requires IsCut(pieces)
  {
    && m < |order| && order[m].piece < |pieces|
    && f == FragOf(pieces, order[m]) && IsFirst(order, m)
  }

  ghost predicate FromFirst<P>(pieces: seq<seq<Byte>>, order: seq<Arrived<P>>, n: nat, f: Fragment<P>)
    requires IsCut(pieces)
  {
    exists m: nat :: m < n && BroughtBy(pieces, order, m, f)
  }

  lemma {:induction false} OnlyNew<P>(q: Queue<P>, nfrag: Fragment<P>)
    ensures Process(q, nfrag).1 == Rejected ==> Process(q, nfrag).0 == q
    ensures forall f :: f in Process(q, nfrag).0.list ==> f == nfrag || f in q.list
  {
  }

  /** What is accepted has not come before. */
  lemma {:induction false} AcceptedIsFirst<P>(order: seq<Arrived<P>>, k: nat, n: nat)
    requires n < |order| && Expected(Numbers(order), k, n).Accepted()
    ensures IsFirst(order, n)
  {
    forall j | 0 <= j < n ensures order[j].piece != order[n].piece {
      assert Numbers(order)[j] == order[j].piece && Numbers(order)[n] == order[n].piece;
      assert Numbers(order)[n] !in Kept(Numbers(order), n);
    }
  }

  ghost predicate AllFromFirst<P>(pieces: seq<seq<Byte>>, order: seq<Arrived<P>>, n: nat, list: seq<Fragment<P>>)
    requires IsCut(pieces)
  {
    forall f :: f in list ==> FromFirst(pieces, order, n, f)
  }

  lemma {:induction false} StillFromFirst<P>(pieces: seq<seq<Byte>>, order: seq<Arrived<P>>, n: nat,
      q: Queue<P>, q': Queue<P>, r: Outcome)
    requires IsCut(pieces) && n < |order| && order[n].piece < |pieces|
    requires AllFromFirst(pieces, order, n, q.list)
    requires q' == Process(q, FragOf(pieces, order[n])).0 && r == Process(q, FragOf(pieces, order[n])).1
    requires r == Expected(Numbers(order), |pieces|, n) && r != Panicked
    ensures AllFromFirst(pieces, order, n + 1, q'.list)
  {
    OnlyNew(q, FragOf(pieces, order[n]));
    forall f | f in q'.list ensures FromFirst(pieces, order, n + 1, f) {
      if f in q.list {
        var m: nat :| m < n && BroughtBy(pieces, order, m, f);
      } else {
        AcceptedIsFirst(order, |pieces|, n);
        assert BroughtBy(pieces, order, n, f);
      }
    }
  }

  ghost predicate FilledFromFirst<P>(pieces: seq<seq<Byte>>, order: seq<Arrived<P>>, n: nat)
    requires IsCut(pieces) && IsArrivals(Numbers(order), |pieces|) && n <= |order|
  {
    AllFromFirst(pieces, order, n, Filled(pieces, order, n).list)
  }

  lemma {:induction false} NextFromFirst<P>(pieces: seq<seq<Byte>>, order: seq<Arrived<P>>, n: nat)
    requires IsCut(pieces) && IsArrivals(Numbers(order), |pieces|) && n < |order|
    requires NoneAborts(Numbers(order), |pieces|, n + 1)
    requires FilledFromFirst(pieces, order, n)
    ensures FilledFromFirst(pieces, order, n + 1)
  {
    ReportsWithRepeats(pieces, order, n);
    FilledNext(pieces, order, n);
    StillFromFirst(pieces, order, n, Filled(pieces, order, n), Filled(pieces, order, n + 1),
                   Reported(pieces, order, n));
  }

  lemma {:induction false} HoldsFirstFrom<P>(pieces: seq<seq<Byte>>, order: seq<Arrived<P>>, m: nat, n: nat)
    requires IsCut(pieces) && IsArrivals(Numbers(order), |pieces|) && m <= n <= |order|
    requires NoneAborts(Numbers(order), |pieces|, n) && FilledFromFirst(pieces, order, m)
    ensures FilledFromFirst(pieces, order, n)
    decreases n - m
  {
    if m < n {
      NextFromFirst(pieces, order, m);
      HoldsFirstFrom(pieces, order, m + 1, n);
    }
  }

  /** The queue holds the first buffer of every piece, and no later one. */
  lemma {:induction false} HoldsFirstBuffers<P>(pieces: seq<seq<Byte>>, order: seq<Arrived<P>>, n: nat)
    requires IsCut(pieces) && IsArrivals(Numbers(order), |pieces|) && n <= |order|
    requires NoneAborts(Numbers(order), |pieces|, n)
    ensures FilledFromFirst(pieces, order, n)
  {
    HoldsFirstFrom(pieces, order, 0, n);
  }

  /** Buffers that arrive once are in the queue once at most: a further one is never there yet. */
  lemma {:induction false} BuffersStayApart<P>(pieces: seq<seq<Byte>>, order: seq<Arrived<P>>, n: nat)
    requires IsCut(pieces) && IsArrivals(Numbers(order), |pieces|) && n < |order|
    requires NoneAborts(Numbers(order), |pieces|, n)
    requires forall i, j :: 0 <= i < j < |order| ==> order[i].pkb != order[j].pkb
    ensures forall f :: f in Filled(pieces, order, n).list ==> f.pkb != order[n].pkb
  {
    HoldsFirstBuffers(pieces, order, n);
    forall f | f in Filled(pieces, order, n).list ensures f.pkb != order[n].pkb {
      var m: nat :| m < n && BroughtBy(pieces, order, m, f);
    }
  }

  // ----- Completion -----

  /** The queue completes exactly when every piece has come and piece 0 came first. It then holds
      the fragments in payload order, each in the buffer in which it came first. */
  lemma {:induction false} ReassembledWithRepeats<P>(pieces: seq<seq<Byte>>, order: seq<Arrived<P>>, n: nat)
    requires IsCut(pieces) && IsArrivals(Numbers(order), |pieces|) && 0 < n <= |order|
    requires NoneAborts(Numbers(order), |pieces|, n)
    ensures Filled(pieces, order, n).complete
      <==> order[0].piece == 0 && forall i: nat :: i < |pieces| ==> i in Numbers(order)[..n]
    ensures Filled(pieces, order, n).complete ==> InOrderFrom(pieces, order, n, Filled(pieces, order, n).list)
  {
    FilledIsBare(pieces, order, n);
    CompleteInOrder(pieces, Numbers(order), n);
    HoldsFirstBuffers(pieces, order, n);
    var list := Filled(pieces, order, n).list;
    if Filled(pieces, order, n).complete {
      assert BareList(list) == InOrder(pieces);
      forall i | 0 <= i < |pieces| ensures IsFirstOf(pieces, order, n, i, list[i]) {
        assert BareList(list)[i] == Bare(list[i]) == Frag(pieces, i);
        assert FromFirst(pieces, order, n, list[i]);
        FirstOfPiece(pieces, order, n, i, list[i]);
      }
    }
  }

  /** The fragment is that of the first arrival of piece `i`. */
  ghost predicate IsFirstOf<P>(pieces: seq<seq<Byte>>, order: seq<Arrived<P>>, n: nat, i: nat, f: Fragment<P>)
    requires IsCut(pieces) && IsArrivals(Numbers(order), |pieces|) && n <= |order| && i < |pieces|
  {
    exists m: nat :: m < n && BroughtBy(pieces, order, m, f) && order[m].piece == i
  }

  ghost predicate InOrderFrom<P>(pieces: seq<seq<Byte>>, order: seq<Arrived<P>>, n: nat, list: seq<Fragment<P>>)
    requires IsCut(pieces) && IsArrivals(Numbers(order), |pieces|) && n <= |order|
  {
    |list| == |pieces| && forall i :: 0 <= i < |pieces| ==> IsFirstOf(pieces, order, n, i, list[i])
  }

  lemma {:induction false} FirstOfPiece<P>(pieces: seq<seq<Byte>>, order: seq<Arrived<P>>, n: nat, i: nat,
      f: Fragment<P>)
    requires IsCut(pieces) && IsArrivals(Numbers(order), |pieces|) && n <= |order| && i < |pieces|
    requires FromFirst(pieces, order, n, f) && Bare(f) == Frag(pieces, i)
    ensures IsFirstOf(pieces, order, n, i, f)
  {
    var m: nat :| m < n && BroughtBy(pieces, order, m, f);
    FragEnd(pieces, i);
    FragEnd(pieces, order[m].piece);
    StartsDetermine(pieces, i + 1, order[m].piece + 1);
  }

  /** A run that starts with piece 0 ends, whatever the order of the others, with the fragments
      in payload order; the run completes if and only if it starts so. */
  lemma {:induction false} ReassembledInEveryOrder<P>(pieces: seq<seq<Byte>>, order: seq<Arrived<P>>)
    requires IsCut(pieces) && IsOrder(Numbers(order), |pieces|)
    ensures Filled(pieces, order, |order|).complete <==> order[0].piece == 0
    ensures order[0].piece == 0 ==> InOrderFrom(pieces, order, |order|, Filled(pieces, order, |order|).list)
  {
    OrderNeverAborts(Numbers(order), |pieces|);
    ReassembledWithRepeats(pieces, order, |order|);
    forall i: nat | i < |pieces| ensures i in Numbers(order)[..|order|] {
      Counting.DistinctHitsAll(Numbers(order), |pieces|, i);
    }
  }

  // ----- The payload -----

  /** The bytes of a list of buffers, in list order. */
  function ChainBytes(ps: seq<PktBuf>): seq<Byte> {
    if |ps| == 0 then [] else ps[0].data + ChainBytes(ps[1..])
  }

  /** Every arrival carries the data of its piece. */
  ghost predicate BuffersHoldData(pieces: seq<seq<Byte>>, order: seq<Arrived<PktBuf>>)
    requires IsArrivals(Numbers(order), |pieces|)
  {
    forall m :: 0 <= m < |order| ==> Numbers(order)[m] < |pieces| && order[m].pkb.data == pieces[order[m].piece]
  }

  lemma {:induction false} ChainBytesArePayload(pieces: seq<seq<Byte>>, ps: seq<PktBuf>)
    requires |ps| == |pieces| && forall i :: 0 <= i < |ps| ==> ps[i].data == pieces[i]
    ensures ChainBytes(ps) == Payload(pieces)
  {
    if |pieces| > 0 {
      ChainBytesArePayload(pieces[1..], ps[1..]);
    }
  }

  /** What `completed` chains together, once the queue is complete, is the payload. */
  lemma {:induction false} ChainIsPayload(pieces: seq<seq<Byte>>, order: seq<Arrived<PktBuf>>, n: nat)
    requires IsCut(pieces) && IsArrivals(Numbers(order), |pieces|) && 0 < n <= |order|
    requires NoneAborts(Numbers(order), |pieces|, n)
    requires BuffersHoldData(pieces, order) && Filled(pieces, order, n).complete
    ensures ChainBytes(Packets(Filled(pieces, order, n).list)) == Payload(pieces)
  {
    ReassembledWithRepeats(pieces, order, n);
    var list := Filled(pieces, order, n).list;
    forall i | 0 <= i < |list| ensures Packets(list)[i].data == pieces[i] {
      assert IsFirstOf(pieces, order, n, i, list[i]);
    }
    ChainBytesArePayload(pieces, Packets(list));
  }
}
