/** `RBGetBuf` of `src/reaserch/goRingBuffer.go` takes a slot under its lock and reads the slot
    after unlocking. Here one getter stands between the two statements while other users go on:
    exactly when does it still read the buffer that it has taken out? */
module RingRace {
  import opened RingBuffer

  /** The shared ring, with buffers by number, and how many buffers the other users hold. */
  datatype Shared = Shared(buf: seq<nat>, r: nat, w: nat, held: nat)

  predicate Fits(s: Shared) {
    s.r < |s.buf| <= 0xFFFF && s.w < |s.buf|
  }

  datatype Event =
    | Get
    | Put(b: nat)

  /** Who puts a buffer back holds one. */
  predicate Enabled(s: Shared, ev: Event) {
    ev.Put? ==> s.held > 0
  }

  predicate Full(s: Shared)
    requires Fits(s)
  {
    Step(s.w, |s.buf|) == s.r
  }

  /** One critical section of another user. */
  function Next(s: Shared, ev: Event): (s': Shared)
    requires Fits(s) && Enabled(s, ev)
    ensures Fits(s') && |s'.buf| == |s.buf|
  {
    match ev
    case Get => if s.r == s.w then s else s.(r := Step(s.r, |s.buf|), held := s.held + 1)
    case Put(b) => if Full(s) then s else s.(buf := s.buf[s.w := b], w := Step(s.w, |s.buf|), held := s.held - 1)
  }

  /** Nobody else holds `own`, so nobody else puts it back. */
  ghost predicate IsRun(s: Shared, run: seq<Event>, own: nat)
    requires Fits(s)
    decreases |run|
  {
    |run| == 0 || (Enabled(s, run[0]) && run[0] != Put(own) && IsRun(Next(s, run[0]), run[1..], own))
  }

  ghost function Final(s: Shared, run: seq<Event>, own: nat): Shared
    requires Fits(s) && IsRun(s, run, own)
    decreases |run|
  {
    if |run| == 0 then s else Final(Next(s, run[0]), run[1..], own)
  }

  /** The puts that are accepted, and the gets that find a buffer. */
  ghost function Puts(s: Shared, run: seq<Event>, own: nat): nat
    requires Fits(s) && IsRun(s, run, own)
    decreases |run|
  {
    if |run| == 0 then 0
    else (if run[0].Put? && !Full(s) then 1 else 0) + Puts(Next(s, run[0]), run[1..], own)
  }

  ghost function Gets(s: Shared, run: seq<Event>, own: nat): nat
    requires Fits(s) && IsRun(s, run, own)
    decreases |run|
  {
    if |run| == 0 then 0
    else (if run[0].Get? && s.r != s.w then 1 else 0) + Gets(Next(s, run[0]), run[1..], own)
  }

  /** How far it is from slot `i` up to slot `j`. */
  function Distance(i: nat, j: nat, count: nat): nat
    requires i < count && j < count
  {
    if j >= i then j - i else j - i + count
  }

  /** The buffers in the ring. */
  function Length(s: Shared): nat
    requires Fits(s)
  {
    Distance(s.r, s.w, |s.buf|)
  }

  lemma {:induction false} DistanceStep(i: nat, j: nat, count: nat)
    requires i < count && j < count <= 0xFFFF
    ensures Step(i, count) < count
    ensures Distance(Step(i, count), j, count) == if i == j then count - 1 else Distance(i, j, count) - 1
    ensures Distance(j, Step(i, count), count) == if Step(i, count) == j then 0 else Distance(j, i, count) + 1
  {
    StepIsSlot(i, count);
  }

  /** A slot that no longer holds the buffer never holds it again. */
  lemma {:induction false} LostForEver(s: Shared, run: seq<Event>, own: nat, at: nat)
    requires Fits(s) && IsRun(s, run, own) && at < |s.buf| && s.buf[at] != own
    ensures |Final(s, run, own).buf| == |s.buf| && Final(s, run, own).buf[at] != own
    decreases |run|
  {
    if |run| > 0 {
      LostForEver(Next(s, run[0]), run[1..], own, at);
    }
  }

  /** The slot keeps its buffer for as many puts as there are slots before it. */
  lemma {:induction false} KeptWhileRoom(s: Shared, run: seq<Event>, own: nat, at: nat)
    requires Fits(s) && IsRun(s, run, own) && at < |s.buf| && s.buf[at] == own
    ensures |Final(s, run, own).buf| == |s.buf|
    ensures Final(s, run, own).buf[at] == own <==> Puts(s, run, own) <= Distance(s.w, at, |s.buf|)
    decreases |run|
  {
    if |run| > 0 {
      var s' := Next(s, run[0]);
      DistanceStep(s.w, at, |s.buf|);
      if run[0].Put? && !Full(s) && s.w == at {
        LostForEver(s', run[1..], own, at);
      } else {
        KeptWhileRoom(s', run[1..], own, at);
      }
    }
  }

  /** The state in which the getter has taken slot `at` and unlocked. */
  predicate HasTaken(s: Shared, at: nat, own: nat) {
    Fits(s) && at < |s.buf| && s.buf[at] == own && s.r == Step(at, |s.buf|)
    && Length(s) + 1 < |s.buf|
  }

  /** The getter reads its own buffer if and only if, since it unlocked, no more puts have been
      accepted than there were buffers outside the ring, its own included. */
  lemma {:induction false} ReadsOwnBufferIff(s: Shared, run: seq<Event>, own: nat, at: nat)
    requires HasTaken(s, at, own) && IsRun(s, run, own)
    ensures |Final(s, run, own).buf| == |s.buf|
    ensures Final(s, run, own).buf[at] == own <==> Puts(s, run, own) <= |s.buf| - 1 - Length(s)
  {
    DistanceStep(at, s.w, |s.buf|);
    KeptWhileRoom(s, run, own, at);
  }

  /** The buffers that others hold come from the ring. */
  lemma {:induction false} HeldBalance(s: Shared, run: seq<Event>, own: nat)
    requires Fits(s) && IsRun(s, run, own)
    ensures Final(s, run, own).held + Puts(s, run, own) == s.held + Gets(s, run, own)
    decreases |run|
  {
    if |run| > 0 {
      HeldBalance(Next(s, run[0]), run[1..], own);
    }
  }

  /** With one slot more than buffers, a getter reads a foreign buffer only if two other gets
      have gone through before it reads. */
  lemma {:induction false} TwoOvertakeFirst(s: Shared, run: seq<Event>, own: nat, at: nat)
    requires HasTaken(s, at, own) && IsRun(s, run, own)
    requires s.held + 1 + Length(s) == |s.buf| - 1
    ensures |Final(s, run, own).buf| == |s.buf|
    ensures Final(s, run, own).buf[at] != own ==> Gets(s, run, own) >= 2
  {
    ReadsOwnBufferIff(s, run, own, at);
    HeldBalance(s, run, own);
  }

  /** And two are enough: of three buffers, 0 to 2, the getter has taken 0 from slot 0; another
      user takes and returns buffer 1, then buffer 2; the getter now reads buffer 2, which is
      also in the ring, and buffer 0 is nowhere. */
  lemma {:induction false} ForeignBufferRead()
    ensures var s, run := Shared([0, 1, 2, 3], 1, 3, 0), [Get, Put(1), Get, Put(2)];
      && HasTaken(s, 0, 0) && s.held + 1 + Length(s) == |s.buf| - 1
      && IsRun(s, run, 0) && Gets(s, run, 0) == 2
      && Final(s, run, 0) == Shared([2, 1, 2, 1], 3, 1, 0) && Length(Final(s, run, 0)) == 2
  {
    var s, run := Shared([0, 1, 2, 3], 1, 3, 0), [Get, Put(1), Get, Put(2)];
    var s1 := Next(s, Get);
    assert s1 == Shared([0, 1, 2, 3], 2, 3, 1);
    var s2 := Next(s1, Put(1));
    assert s2 == Shared([0, 1, 2, 1], 2, 0, 0);
    var s3 := Next(s2, Get);
    assert s3 == Shared([0, 1, 2, 1], 3, 0, 1);
    var s4 := Next(s3, Put(2));
    assert s4 == Shared([2, 1, 2, 1], 3, 1, 0);
    assert run[1..] == [Put(1), Get, Put(2)] && run[1..][1..] == [Get, Put(2)] && run[1..][1..][1..] == [Put(2)];
    assert run[1..][1..][1..][1..] == [];
    assert IsRun(s4, [], 0) && IsRun(s3, [Put(2)], 0);
    assert IsRun(s2, [Get, Put(2)], 0) && IsRun(s1, [Put(1), Get, Put(2)], 0);
  }
}
