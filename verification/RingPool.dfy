/** Many users of one ring: every atomic operation of `GetBuf`, `HoldPktBuf` and `PutBuf` is a
    step of its own. */
module RingPool {
  import Counting
  import RingBuffer

  /** Buffers 0 to n-1; `getting` have left the ring and are not held yet, `putting` have been
      released for the last time and are not back yet; `holders` counts who still has to call
      `PutBuf`. */
  datatype State = State(queue: seq<nat>, ref: seq<int>, holders: seq<nat>, getting: set<nat>, putting: set<nat>)

  datatype Event =
    | Pop
    | FirstHold(b: nat)
    | Hold(b: nat)
    | Release(b: nat)
    | Return(b: nat)

  function Start(n: nat): State {
    State(seq(n, i => i), seq(n, _ => 0), seq(n, _ => 0), {}, {})
  }

  /** Only who holds a buffer may hold it once more, or release it. */
  predicate Enabled(s: State, ev: Event) {
    match ev
    case Pop => true
    case FirstHold(b) => b in s.getting && b < |s.ref| && b < |s.holders|
    case Hold(b) => b < |s.ref| && b < |s.holders| && s.holders[b] > 0
    case Release(b) => b < |s.ref| && b < |s.holders| && s.holders[b] > 0
    case Return(b) => b in s.putting
  }

  /** `RBPutBuf` in a ring with one slot more than buffers; a full ring would lose the buffer. */
  function Pushed(queue: seq<nat>, b: nat, n: nat): seq<nat> {
    if |queue| < n then queue + [b] else queue
  }

  function Next(s: State, ev: Event): State
    requires Enabled(s, ev)
  {
    match ev
    case Pop =>
      if s.queue == [] then s else s.(queue := s.queue[1..], getting := s.getting + {s.queue[0]})
    case FirstHold(b) =>
      s.(ref := s.ref[b := s.ref[b] + 1], holders := s.holders[b := s.holders[b] + 1], getting := s.getting - {b})
    case Hold(b) => s.(ref := s.ref[b := s.ref[b] + 1], holders := s.holders[b := s.holders[b] + 1])
    case Release(b) =>
      s.(ref := s.ref[b := s.ref[b] - 1], holders := s.holders[b := s.holders[b] - 1],
         putting := s.putting + if s.ref[b] - 1 == 0 then {b} else {})
    case Return(b) => s.(queue := Pushed(s.queue, b, |s.ref|), putting := s.putting - {b})
  }

  ghost predicate IsRun(s: State, run: seq<Event>)
    decreases |run|
  {
    |run| == 0 || (Enabled(s, run[0]) && IsRun(Next(s, run[0]), run[1..]))
  }

  ghost function Final(s: State, run: seq<Event>): State
    requires IsRun(s, run)
    decreases |run|
  {
    if |run| == 0 then s else Final(Next(s, run[0]), run[1..])
  }

  /** Where a buffer is. */
  datatype Place = InRing | Getting | Held | Putting

  /** The buffer is in exactly this place, and its count agrees. */
  predicate At(s: State, b: nat, place: Place)
    requires b < |s.ref| && b < |s.holders|
  {
    && (b in s.queue <==> place == InRing)
    && (b in s.getting <==> place == Getting)
    && (b in s.putting <==> place == Putting)
    && (s.holders[b] > 0 <==> place == Held)
    && s.ref[b] == s.holders[b]
  }

  ghost predicate Somewhere(s: State, b: nat)
    requires b < |s.ref| && b < |s.holders|
  {
    At(s, b, InRing) || At(s, b, Getting) || At(s, b, Held) || At(s, b, Putting)
  }

  ghost predicate Inv(s: State, n: nat) {
    && |s.ref| == n && |s.holders| == n
    && Counting.Distinct(s.queue)
    && (forall i :: 0 <= i < |s.queue| ==> s.queue[i] < n)
    && (forall b :: b in s.getting || b in s.putting ==> b < n)
    && (forall b :: 0 <= b < n ==> Somewhere(s, b))
  }

  lemma {:induction false} StartInv(n: nat)
    ensures Inv(Start(n), n)
  {
    var s := Start(n);
    forall b | 0 <= b < n ensures Somewhere(s, b) {
      assert s.queue[b] == b;
      assert At(s, b, InRing);
    }
  }

  lemma {:induction false} PopKeeps(s: State, n: nat)
    requires Inv(s, n) && s.queue != []
    ensures Inv(Next(s, Pop), n)
  {
    var s' := Next(s, Pop);
    var first := s.queue[0];
    assert s.queue == [first] + s'.queue;
    assert Somewhere(s, first) && first in s.queue;
    assert At(s', first, Getting);
    forall b | 0 <= b < n && b != first ensures Somewhere(s', b) {
      assert Somewhere(s, b);
      assert b in s'.queue <==> b in s.queue;
    }
  }

  lemma {:induction false} CountKeeps(s: State, ev: Event, n: nat)
    requires Inv(s, n) && Enabled(s, ev) && (ev.FirstHold? || ev.Hold? || ev.Release?)
    ensures Inv(Next(s, ev), n)
  {
    var s' := Next(s, ev);
    forall b | 0 <= b < n ensures Somewhere(s', b) {
      assert Somewhere(s, b);
    }
  }

  lemma {:induction false} ReturnKeeps(s: State, b: nat, n: nat)
    requires Inv(s, n) && b in s.putting
    ensures |s.queue| < n
    ensures Inv(Next(s, Return(b)), n)
  {
    var s' := Next(s, Return(b));
    assert Somewhere(s, b);
    forall i | 0 <= i < |s.queue| ensures s.queue[i] in Counting.Below(n) {
    }
    RingBuffer.RoomForOneMore(s.queue, Counting.Below(n), b);
    assert s'.queue == s.queue + [b];
    forall c | 0 <= c < n ensures Somewhere(s', c) {
      assert Somewhere(s, c);
    }
  }

  lemma {:induction false} NextKeeps(s: State, ev: Event, n: nat)
    requires Inv(s, n) && Enabled(s, ev)
    ensures Inv(Next(s, ev), n)
  {
    match ev {
      case Pop =>
        if s.queue != [] {
          PopKeeps(s, n);
        }
      case Return(b) => ReturnKeeps(s, b, n);
      case _ => CountKeeps(s, ev, n);
    }
  }

  lemma {:induction false} RunKeeps(s: State, run: seq<Event>, n: nat)
    requires Inv(s, n) && IsRun(s, run)
    ensures Inv(Final(s, run), n)
    decreases |run|
  {
    if |run| > 0 {
      NextKeeps(s, run[0], n);
      RunKeeps(Next(s, run[0]), run[1..], n);
    }
  }

  /** After any run every buffer is in one place: once in the ring, with count 0; on its way out
      of it or back, with count 0; or held, with a count equal to the number of its holders. */
  lemma {:induction false} EveryBufferAccounted(run: seq<Event>, n: nat)
    requires IsRun(Start(n), run)
    ensures var s := Final(Start(n), run);
      && |s.ref| == n && |s.holders| == n && Counting.Distinct(s.queue)
      && (forall b :: 0 <= b < n ==> Somewhere(s, b))
      && (forall b :: 0 <= b < n ==> s.ref[b] >= 0)
  {
    StartInv(n);
    RunKeeps(Start(n), run, n);
    var s := Final(Start(n), run);
    forall b | 0 <= b < n ensures s.ref[b] >= 0 {
      assert Somewhere(s, b);
    }
  }

  /** A buffer that comes back never finds the ring full, and goes to the end of the queue; the
      release before it never makes a count negative. */
  lemma {:induction false} ReturnNeverRefused(run: seq<Event>, n: nat, b: nat)
    requires IsRun(Start(n), run) && Enabled(Final(Start(n), run), Return(b))
    ensures var s := Final(Start(n), run);
      && |s.queue| < n && b !in s.queue
      && Next(s, Return(b)).queue == s.queue + [b]
  {
    StartInv(n);
    RunKeeps(Start(n), run, n);
    ReturnKeeps(Final(Start(n), run), b, n);
    assert Somewhere(Final(Start(n), run), b);
  }

  lemma {:induction false} ReleaseNeverNegative(run: seq<Event>, n: nat, b: nat)
    requires IsRun(Start(n), run) && Enabled(Final(Start(n), run), Release(b))
    ensures var s := Final(Start(n), run);
      && b < n && Next(s, Release(b)).ref[b] >= 0
      && (b in Next(s, Release(b)).putting <==> s.holders[b] == 1)
  {
    StartInv(n);
    RunKeeps(Start(n), run, n);
    assert Somewhere(Final(Start(n), run), b);
  }

  // ----- What the state says about the run -----

  /** The buffers that a run takes out of the ring, and those that it puts back, in order. */
  ghost function TakenOut(s: State, run: seq<Event>): seq<nat>
    requires IsRun(s, run)
    decreases |run|
  {
    if |run| == 0 then []
    else (if run[0].Pop? && s.queue != [] then [s.queue[0]] else []) + TakenOut(Next(s, run[0]), run[1..])
  }

  function PutBack(run: seq<Event>): seq<nat> {
    if |run| == 0 then [] else (if run[0].Return? then [run[0].b] else []) + PutBack(run[1..])
  }

  /** The ring is first in, first out, and loses nothing: what has been taken out and what is left
      are together what was there before and what has come back, in this order. */
  lemma {:induction false} FirstInFirstOut(s: State, run: seq<Event>, n: nat)
    requires Inv(s, n) && IsRun(s, run)
    ensures TakenOut(s, run) + Final(s, run).queue == s.queue + PutBack(run)
    decreases |run|
  {
    if |run| > 0 {
      var s' := Next(s, run[0]);
      NextKeeps(s, run[0], n);
      FirstInFirstOut(s', run[1..], n);
      if run[0].Return? {
        ReturnKeeps(s, run[0].b, n);
      }
      var out := if run[0].Pop? && s.queue != [] then [s.queue[0]] else [];
      var back := if run[0].Return? then [run[0].b] else [];
      assert out + s'.queue == s.queue + back;
      Regroup(out, TakenOut(s', run[1..]), Final(s, run).queue, s'.queue, PutBack(run[1..]), s.queue, back);
    }
  }

  lemma {:induction false} Regroup(out: seq<nat>, later: seq<nat>, end: seq<nat>, mid: seq<nat>, put: seq<nat>,
      start: seq<nat>, back: seq<nat>)
    requires later + end == mid + put && out + mid == start + back
    ensures (out + later) + end == start + (back + put)
  {
    assert (out + later) + end == out + (later + end);
    assert out + (mid + put) == (out + mid) + put;
  }

  /** How often the buffer is taken into hold in a run, less how often it is released. */
  function HoldsLeft(run: seq<Event>, b: nat): int {
    if |run| == 0 then 0
    else
      HoldsLeft(run[1..], b)
      + (if run[0] == FirstHold(b) || run[0] == Hold(b) then 1 else if run[0] == Release(b) then -1 else 0)
  }

  /** The count of a buffer is that number. */
  lemma {:induction false} CountIsHolds(s: State, run: seq<Event>, n: nat, b: nat)
    requires Inv(s, n) && IsRun(s, run) && b < n
    ensures |Final(s, run).ref| == n && Final(s, run).ref[b] == s.ref[b] + HoldsLeft(run, b)
    decreases |run|
  {
    if |run| > 0 {
      NextKeeps(s, run[0], n);
      CountIsHolds(Next(s, run[0]), run[1..], n, b);
    }
  }

  /** As often as the buffer is held: a release; then it goes back. */
  function ReleasesAndReturn(b: nat, holds: nat): (run: seq<Event>)
    ensures |run| == holds + 1
  {
    if holds == 0 then [Return(b)] else [Release(b)] + ReleasesAndReturn(b, holds - 1)
  }

  /** A held buffer comes back, to the end of the ring, when each of its holders has released it. */
  lemma {:induction false} HeldComesBack(s: State, n: nat, b: nat)
    requires Inv(s, n) && b < n && (s.holders[b] > 0 || b in s.putting)
    ensures IsRun(s, ReleasesAndReturn(b, s.holders[b]))
    ensures Final(s, ReleasesAndReturn(b, s.holders[b])).queue == s.queue + [b]
    decreases s.holders[b]
  {
    var run := ReleasesAndReturn(b, s.holders[b]);
    assert Somewhere(s, b);
    if s.holders[b] == 0 {
      ReturnKeeps(s, b, n);
    } else {
      NextKeeps(s, Release(b), n);
      HeldComesBack(Next(s, Release(b)), n, b);
      assert run[1..] == ReleasesAndReturn(b, s.holders[b] - 1);
    }
  }

  /** The first buffer of the ring can be taken and held. */
  lemma {:induction false} FreeIsHeld(s: State, n: nat)
    requires Inv(s, n) && s.queue != []
    ensures var run := [Pop, FirstHold(s.queue[0])];
      && IsRun(s, run)
      && Final(s, run).queue == s.queue[1..]
      && Final(s, run).ref == s.ref[s.queue[0] := 1]
  {
    var b := s.queue[0];
    assert b in s.queue && Somewhere(s, b);
    PopKeeps(s, n);
    var s' := Next(s, Pop);
    assert [Pop, FirstHold(b)][1..] == [FirstHold(b)];
    assert Enabled(s', FirstHold(b));
    assert Final(s', [FirstHold(b)]) == Next(s', FirstHold(b));
  }

  /** One more hold and one more release undo each other. */
  lemma {:induction false} ReleaseUndoesHold(s: State, n: nat, b: nat)
    requires Inv(s, n) && b < n && s.holders[b] > 0
    ensures Enabled(s, Hold(b)) && Enabled(Next(s, Hold(b)), Release(b))
    ensures Next(Next(s, Hold(b)), Release(b)) == s
  {
    assert Somewhere(s, b);
  }
}
