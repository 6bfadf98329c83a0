/** One tracked connection when a timer and its callback are two steps, as in
    `src/vendor/timer/timer.go`: a tick marks the timer as fired, and its callback runs later in
    another goroutine. Packets that arrive in between find a timer that can be neither stopped
    nor reset. */
module NetstatRace {
  import opened Machine
  import opened Conntrack
  import opened Netstat

  /** `pending` is the callback that was launched and has not run yet. */
  datatype Split = Split(c: Conn, pending: Option<Callback>, inTable: bool, now: nat)

  datatype Step = Receive(seg: Segment, at: nat) | Expire(at: nat) | Invoke(at: nat)

  /** Time does not run backwards, and a timer does not expire before its deadline. */
  predicate Enabled(x: Split, step: Step) {
    && x.now <= step.at
    && match step
       case Receive(seg, _) => x.inTable && x.c.Owns(seg.tuple)
       case Expire(at) => x.c.timer.Armed? && x.c.timer.deadline <= at
       case Invoke(_) => x.pending.Some?
  }

  /** The callback, running on a connection whose timer may have been replaced or not. */
  function CalledBack(x: Split, run: Callback, now: nat): Split {
    if run.TimeoutDel? then x.(c := x.c.(status := CtDel), inTable := false)
    else if x.c.status == CtDel then x
    else x.(c := TimedOut(x.c.(timer := Armed(now, run)), now))
  }

  function Next(x: Split, step: Step): Split
    requires Enabled(x, step)
  {
    match step
    case Receive(seg, at) => x.(c := Handled(x.c, seg, at), now := at)
    case Expire(at) => x.(c := x.c.(timer := Idle), pending := Some(x.c.timer.run), now := at)
    case Invoke(at) => CalledBack(x.(pending := None, now := at), x.pending.value, at)
  }

  ghost predicate IsRun(x: Split, run: seq<Step>)
    decreases |run|
  {
    |run| == 0 || (Enabled(x, run[0]) && IsRun(Next(x, run[0]), run[1..]))
  }

  ghost function After(x: Split, run: seq<Step>, n: nat): Split
    requires IsRun(x, run) && n <= |run|
    decreases n
  {
    if n == 0 then x else After(Next(x, run[0]), run[1..], n - 1)
  }

  /** Being deleted, still in the table, and nothing left that would remove it. */
  predicate Stranded(x: Split) {
    x.inTable && x.c.status == CtDel && x.c.timer.Idle? && x.pending.None?
  }

  /** Stranded, or about to be: the one pending callback does nothing for a closed connection. */
  predicate Doomed(x: Split) {
    x.inTable && x.c.status == CtDel && x.c.timer.Idle? && (x.pending.None? || x.pending.value.EstablishedTimeout?)
  }

  /** A FIN or RST that is handled between the firing of the established timer and its callback. */
  predicate Races(x: Split, step: Step) {
    && step.Receive? && step.seg.tuple.proto == TCP && FinOrRst(step.seg.flags) && !IsSyn(step.seg.flags)
    && x.c.status == CtEstablished && x.pending.Some?
  }

  /** A connection that is not being deleted has a running timer or a pending callback, and never both. */
  predicate Sound(x: Split) {
    && Known(x.c.origin.proto)
    && (x.c.timer.Armed? ==> x.pending.None?)
    && (x.inTable && x.c.status != CtDel ==>
         (x.c.timer.Armed? || x.pending.Some?) && (KindOf(x).EstablishedTimeout? <==> x.c.status == CtEstablished))
    && (x.c.timer.Armed? && x.c.status == CtDel ==> x.c.timer.run.TimeoutDel?)
    && (!x.inTable ==> x.c.status == CtDel && x.c.timer.Idle? && x.pending.None?)
  }

  function KindOf(x: Split): Callback {
    if x.c.timer.Armed? then x.c.timer.run else if x.pending.Some? then x.pending.value else TimeoutDel
  }

  /** The steps of a run are in the order of their times. */
  lemma {:induction false} StepsInOrder(x: Split, run: seq<Step>, i: nat, j: nat)
    requires IsRun(x, run) && i <= j < |run|
    ensures x.now <= run[i].at <= run[j].at
    decreases j
  {
    if j > 0 {
      var x', rest := Next(x, run[0]), run[1..];
      StepsInOrder(x', rest, if i == 0 then 0 else i - 1, j - 1);
    }
  }

  lemma {:induction false} NextSound(x: Split, step: Step)
    requires Sound(x) && Enabled(x, step)
    ensures Sound(Next(x, step))
  {
  }

  /** From a sound state, one step dooms the connection exactly when it is such a race. */
  lemma {:induction false} DoomedByRace(x: Split, step: Step)
    requires Sound(x) && Enabled(x, step)
    ensures Doomed(Next(x, step)) <==> Doomed(x) || Races(x, step)
  {
  }

  /** A stranded connection stays in the table for ever: steps only let time pass. */
  lemma {:induction false} StrandedForEver(x: Split, run: seq<Step>)
    requires Stranded(x) && IsRun(x, run)
    ensures After(x, run, |run|) == x.(now := After(x, run, |run|).now)
    decreases |run|
  {
    if |run| > 0 {
      assert Next(x, run[0]) == x.(now := run[0].at);
      StrandedForEver(Next(x, run[0]), run[1..]);
    }
  }

  /** A connection as a packet has just opened it. */
  function Fresh(seg: Segment, now: nat): Split {
    Split(Opened(seg, now), None, true, now)
  }

  lemma {:induction false} FreshIsSound(seg: Segment, now: nat)
    requires Opens(seg)
    ensures Sound(Fresh(seg, now)) && !Doomed(Fresh(seg, now))
  {
  }

  /** The race is the only way to strand a connection, and it always does: after any run of a
      sound connection, it is doomed exactly when it was before or some step of the run was such a
      race. */
  lemma {:induction false} StrandedExactlyByRace(x: Split, run: seq<Step>)
    requires Sound(x) && IsRun(x, run)
    ensures Doomed(After(x, run, |run|)) <==> Doomed(x) || exists n :: 0 <= n < |run| && Races(After(x, run, n), run[n])
    decreases |run|
  {
    if |run| > 0 {
      var y, rest := Next(x, run[0]), run[1..];
      NextSound(x, run[0]);
      DoomedByRace(x, run[0]);
      StrandedExactlyByRace(y, rest);
      if n :| 0 <= n < |run| && Races(After(x, run, n), run[n]) {
        assert n > 0 ==> After(x, run, n) == After(y, rest, n - 1) && run[n] == rest[n - 1];
      }
      if n :| 0 <= n < |rest| && Races(After(y, rest, n), rest[n]) {
        assert After(x, run, n + 1) == After(y, rest, n) && run[n + 1] == rest[n];
      }
      if Races(x, run[0]) {
        assert After(x, run, 0) == x;
      }
    }
  }

  /** Once no callback is pending, the connection is stranded exactly if such a race occurred. */
  lemma {:induction false} QuietExactlyByRace(x: Split, run: seq<Step>)
    requires Sound(x) && !Doomed(x) && IsRun(x, run) && After(x, run, |run|).pending.None?
    ensures Stranded(After(x, run, |run|)) <==> exists n :: 0 <= n < |run| && Races(After(x, run, n), run[n])
  {
    StrandedExactlyByRace(x, run);
  }

  /** So it is for every connection that a packet opens. */
  lemma {:induction false} NewExactlyByRace(seg: Segment, now: nat, run: seq<Step>)
    requires Opens(seg) && IsRun(Fresh(seg, now), run)
    ensures var x := Fresh(seg, now);
      && (Doomed(After(x, run, |run|)) <==> exists n :: 0 <= n < |run| && Races(After(x, run, n), run[n]))
      && (After(x, run, |run|).pending.None? ==> (Stranded(After(x, run, |run|)) <==> Doomed(After(x, run, |run|))))
  {
    FreshIsSound(seg, now);
    StrandedExactlyByRace(Fresh(seg, now), run);
  }

  lemma {:induction false} RunEnds(x: Split, step: Step)
    requires Enabled(x, step)
    ensures IsRun(x, [step]) && After(x, [step], 1) == Next(x, step)
  {
    assert IsRun(Next(x, step), []);
  }

  lemma {:induction false} RunBegins(x: Split, step: Step, rest: seq<Step>)
    requires Enabled(x, step) && IsRun(Next(x, step), rest)
    ensures IsRun(x, [step] + rest)
    ensures After(x, [step] + rest, |rest| + 1) == After(Next(x, step), rest, |rest|)
  {
    assert ([step] + rest)[1..] == rest;
  }

  /** A connection that a handshake has just established. */
  function Established(t: Tuple): Split {
    var timer := Armed(2 + CT_TCP_ESTABLISHED_TIMEOUT, EstablishedTimeout(Stats(80, 40)));
    Split(Conn(CtEstablished, Stats(80, 40), t, timer, true), None, true, 2)
  }

  function New(t: Tuple): Split {
    Fresh(Segment(t, 2, 40, true), 0)
  }

  function SynAck(t: Tuple): Step {
    Receive(Segment(Invert(t), 18, 40, false), 1)
  }

  function Ack(t: Tuple): Step {
    Receive(Segment(t, 16, 40, true), 2)
  }

  /** When the timer of that connection is due. */
  const DUE := 2 + CT_TCP_ESTABLISHED_TIMEOUT

  function Fin(t: Tuple): Step {
    Receive(Segment(t, 17, 40, true), DUE + 1)
  }

  lemma {:induction false} Handshake(t: Tuple)
    requires t.proto == TCP && t != Invert(t)
    ensures Enabled(New(t), SynAck(t)) && Enabled(Next(New(t), SynAck(t)), Ack(t))
    ensures Next(Next(New(t), SynAck(t)), Ack(t)) == Established(t)
  {
    var x := Next(New(t), SynAck(t));
    assert x.c.status == CtReply && x.c.stats == Stats(40, 40)
      && x.c.timer == Armed(1 + CT_TCP_SYN_RCVD_TIMEOUT, TimeoutDel);
  }

  lemma {:induction false} FinRaces(t: Tuple)
    requires t.proto == TCP
    ensures IsRun(Established(t), [Expire(DUE), Fin(t), Invoke(DUE + 2)])
    ensures Stranded(After(Established(t), [Expire(DUE), Fin(t), Invoke(DUE + 2)], 3))
  {
    var x := Established(t);
    var y := Next(x, Expire(DUE));
    var z := Next(y, Fin(t));
    assert z.c.status == CtDel && z.c.timer.Idle? && z.inTable && z.pending.Some?;
    RunEnds(z, Invoke(DUE + 2));
    RunBegins(y, Fin(t), [Invoke(DUE + 2)]);
    RunBegins(x, Expire(DUE), [Fin(t), Invoke(DUE + 2)]);
  }

  /** It does happen: a handshake, 240 seconds later the timer of the established connection
      fires, in the next nanosecond a FIN is handled, and only then the callback runs. */
  lemma {:induction false} RaceHappens(t: Tuple)
    requires t.proto == TCP && t != Invert(t)
    ensures Sound(New(t)) && !Doomed(New(t))
    ensures var run := [SynAck(t), Ack(t), Expire(DUE), Fin(t), Invoke(DUE + 2)];
      IsRun(New(t), run) && Stranded(After(New(t), run, 5))
  {
    var tail := [Expire(DUE), Fin(t), Invoke(DUE + 2)];
    Handshake(t);
    FinRaces(t);
    RunBegins(Next(New(t), SynAck(t)), Ack(t), tail);
    RunBegins(New(t), SynAck(t), [Ack(t)] + tail);
    assert [SynAck(t)] + ([Ack(t)] + tail) == [SynAck(t), Ack(t), Expire(DUE), Fin(t), Invoke(DUE + 2)];
  }
}
