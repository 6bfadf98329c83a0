/** The timer wheel over whole runs: every timer is run once, when it is due. */
module TimerRuns {
  import opened Machine
  import opened TimerWheel

  /** A new timer is started; one that is not pending is started again, as a periodic or reset one
      is; a timer is stopped; a tick. */
  datatype Event =
    | Start(expires: nat)
    | Again(t: nat, expires: nat)
    | Stop(t: nat)
    | Tick

  function NewWheel(): (w: Wheel)
    ensures Shape(w.tv)
  {
    Wheel(0, seq(5, l => seq(if l == 0 then 256 else 64, _ => [])), [])
  }

  predicate Enabled(w: Wheel, ev: Event) {
    match ev
    case Again(t, _) => t < |w.timers| && !Pending(w, t)
    case Stop(t) => t < |w.timers|
    case _ => true
  }

  function Next(w: Wheel, ev: Event): (w': Wheel)
    requires Shape(w.tv) && Enabled(w, ev)
    ensures Shape(w'.tv)
  {
    match ev
    case Start(expires) => Added(w.(timers := w.timers + [Timer(0, 0, 0, -1, 0, 0)]), |w.timers|, expires)
    case Again(t, expires) => Added(w, t, expires)
    case Stop(t) => if Pending(w, t) && Found(w, t) then Deleted(w, t) else w
    case Tick => Ticked(w)
  }

  ghost predicate IsRun(w: Wheel, run: seq<Event>)
    requires Shape(w.tv)
    decreases |run|
  {
    |run| == 0 || (Enabled(w, run[0]) && IsRun(Next(w, run[0]), run[1..]))
  }

  ghost function Final(w: Wheel, run: seq<Event>): (w': Wheel)
    requires Shape(w.tv) && IsRun(w, run)
    ensures Shape(w'.tv)
    decreases |run|
  {
    if |run| == 0 then w else Final(Next(w, run[0]), run[1..])
  }

  /** The ticks at which the timer is run. */
  ghost function RanAt(w: Wheel, run: seq<Event>, t: nat): seq<nat>
    requires Shape(w.tv) && IsRun(w, run)
    decreases |run|
  {
    if |run| == 0 then []
    else (if run[0].Tick? && Some(t) in Running(w) then [w.jiffies] else []) + RanAt(Next(w, run[0]), run[1..], t)
  }

  lemma {:induction false} NewIsOk()
    ensures Ok(NewWheel(), {}, 0)
  {
  }

  lemma {:induction false} RoomForNew(w: Wheel)
    requires Ok(w, {}, 0)
    ensures Ok(w.(timers := w.timers + [Timer(0, 0, 0, -1, 0, 0)]), {}, 0)
  {
    var w' := w.(timers := w.timers + [Timer(0, 0, 0, -1, 0, 0)]);
    forall t: nat ensures TimerOk(w', {}, 0, t) {
      assert TimerOk(w, {}, 0, t);
    }
    forall l: nat, s: nat, i: nat | l < 5 && s < |w'.tv[l]| && i < |w'.tv[l][s]| ensures PlaceOk(w', {}, l, s, i) {
      assert PlaceOk(w, {}, l, s, i);
    }
  }

  /** Every event keeps the wheel in order. Only a tick ends the wait of a timer that is neither
      stopped nor started again. */
  lemma {:induction false} NextKeeps(w: Wheel, ev: Event)
    requires Ok(w, {}, 0) && Enabled(w, ev)
    ensures Ok(Next(w, ev), {}, 0)
    ensures Next(w, ev).jiffies == w.jiffies + if ev.Tick? then 1 else 0
    ensures forall t: nat :: t < |w.timers| && !ev.Tick? && ev != Stop(t) && !(ev.Again? && ev.t == t) ==>
      (Pending(Next(w, ev), t) <==> Pending(w, t)) && Next(w, ev).timers[t].due == w.timers[t].due
    ensures |Next(w, ev).timers| >= |w.timers|
  {
    match ev {
      case Start(expires) =>
        RoomForNew(w);
        AddedKeeps(w.(timers := w.timers + [Timer(0, 0, 0, -1, 0, 0)]), |w.timers|, expires, {}, 0);
        assert {} - {|w.timers|} == {};
      case Again(t, expires) =>
        AddedKeeps(w, t, expires, {}, 0);
        assert {} - {t} == {};
      case Stop(t) =>
        if Pending(w, t) {
          DeletedKeeps(w, t);
        }
      case Tick => TickRunsExactlyDue(w);
    }
  }

  /** The run neither stops nor restarts the timer. */
  ghost predicate Spares(run: seq<Event>, t: nat) {
    forall i :: 0 <= i < |run| ==> run[i] != Stop(t) && !(run[i].Again? && run[i].t == t)
  }

  /** A pending timer that is left alone is run exactly once, at the tick at which it is due, and is
      pending until then, whatever other timers do. */
  lemma {:induction false} RunsOnceWhenDue(w: Wheel, run: seq<Event>, t: nat)
    requires Ok(w, {}, 0) && Pending(w, t) && IsRun(w, run) && Spares(run, t)
    ensures w.jiffies <= w.timers[t].due
    ensures RanAt(w, run, t) == if Final(w, run).jiffies > w.timers[t].due then [w.timers[t].due] else []
    ensures Pending(Final(w, run), t) <==> Final(w, run).jiffies <= w.timers[t].due
    decreases |run|
  {
    assert TimerOk(w, {}, 0, t);
    if |run| > 0 {
      var w', rest := Next(w, run[0]), run[1..];
      NextKeeps(w, run[0]);
      assert run[0] != Stop(t) && !(run[0].Again? && run[0].t == t);
      if run[0].Tick? {
        TickRunsExactlyDue(w);
      }
      if Pending(w', t) {
        RunsOnceWhenDue(w', rest, t);
      } else {
        NotRunAgain(w', rest, t);
      }
    }
  }

  /** A timer that has been run or stopped is not run any more, unless it is started again. */
  lemma {:induction false} NotRunAgain(w: Wheel, run: seq<Event>, t: nat)
    requires Ok(w, {}, 0) && t < |w.timers| && !Pending(w, t) && IsRun(w, run)
    requires forall i :: 0 <= i < |run| ==> !(run[i].Again? && run[i].t == t)
    ensures RanAt(w, run, t) == [] && !Pending(Final(w, run), t) && Final(w, run).jiffies >= w.jiffies
    decreases |run|
  {
    if |run| > 0 {
      NextKeeps(w, run[0]);
      assert !(run[0].Again? && run[0].t == t);
      if run[0].Tick? {
        TickRunsExactlyDue(w);
      }
      NotRunAgain(Next(w, run[0]), run[1..], t);
    }
  }

  lemma {:induction false} RunKeeps(w: Wheel, run: seq<Event>)
    requires Ok(w, {}, 0) && IsRun(w, run)
    ensures Ok(Final(w, run), {}, 0)
    decreases |run|
  {
    if |run| > 0 {
      NextKeeps(w, run[0]);
      RunKeeps(Next(w, run[0]), run[1..]);
    }
  }

  /** From a new wheel: a timer that is started with `expires` at some time, and then left alone,
      is run exactly once, at the tick `expires`, or at the next one if that has passed. */
  lemma {:induction false} StartedRunsAtExpires(before: seq<Event>, expires: nat, run: seq<Event>)
    requires IsRun(NewWheel(), before)
    requires var w := Final(NewWheel(), before);
      IsRun(Next(w, Start(expires)), run) && Spares(run, |w.timers|)
    ensures var w := Final(NewWheel(), before);
      var due := Max(expires, w.jiffies);
      var end := Final(Next(w, Start(expires)), run);
      && RanAt(Next(w, Start(expires)), run, |w.timers|) == (if end.jiffies > due then [due] else [])
      && (Pending(end, |w.timers|) <==> end.jiffies <= due)
  {
    NewIsOk();
    RunKeeps(NewWheel(), before);
    var w := Final(NewWheel(), before);
    NextKeeps(w, Start(expires));
    RoomForNew(w);
    AddedKeeps(w.(timers := w.timers + [Timer(0, 0, 0, -1, 0, 0)]), |w.timers|, expires, {}, 0);
    RunsOnceWhenDue(Next(w, Start(expires)), run, |w.timers|);
  }

  /** So is one that is started again. */
  lemma {:induction false} RestartedRunsAtExpires(before: seq<Event>, t: nat, expires: nat, run: seq<Event>)
    requires IsRun(NewWheel(), before) && Enabled(Final(NewWheel(), before), Again(t, expires))
    requires IsRun(Next(Final(NewWheel(), before), Again(t, expires)), run) && Spares(run, t)
    ensures var w := Final(NewWheel(), before);
      var due := Max(expires, w.jiffies);
      var end := Final(Next(w, Again(t, expires)), run);
      && RanAt(Next(w, Again(t, expires)), run, t) == (if end.jiffies > due then [due] else [])
      && (Pending(end, t) <==> end.jiffies <= due)
  {
    NewIsOk();
    RunKeeps(NewWheel(), before);
    var w := Final(NewWheel(), before);
    NextKeeps(w, Again(t, expires));
    AddedKeeps(w, t, expires, {}, 0);
    RunsOnceWhenDue(Next(w, Again(t, expires)), run, t);
  }

  /** A timer that is stopped at some time is not run from then on, unless it is started again. */
  lemma {:induction false} StoppedRunsNot(before: seq<Event>, t: nat, run: seq<Event>)
    requires IsRun(NewWheel(), before) && Enabled(Final(NewWheel(), before), Stop(t))
    requires IsRun(Next(Final(NewWheel(), before), Stop(t)), run)
    requires forall i :: 0 <= i < |run| ==> !(run[i].Again? && run[i].t == t)
    ensures RanAt(Next(Final(NewWheel(), before), Stop(t)), run, t) == []
    ensures !Pending(Final(Next(Final(NewWheel(), before), Stop(t)), run), t)
  {
    NewIsOk();
    RunKeeps(NewWheel(), before);
    var w := Final(NewWheel(), before);
    NextKeeps(w, Stop(t));
    if Pending(w, t) {
      DeletedKeeps(w, t);
    }
    NotRunAgain(Next(w, Stop(t)), run, t);
  }
}
