/** No lost wake-up in the failover protocol: how a master that waits for a closed slave gets on. */
module FailoverRelease {
  import opened Machine
  import opened Failover
  import opened FailoverInvariant

  /** The master waits for the WaitGroup, and the active slave, if any is left, is closed. */
  predicate Pending(s: State) {
    s.master.Waiting? && s.wg != 0
    && (s.active.Some? ==> s.active.value < |s.clients| && s.clients[s.active.value].closed)
  }

  /** The step that the wait is for: the send on `reconnect` by the goroutine that closed the
      slave, then those of the slave's own loop. */
  function Releaser(s: State): Action
    requires Pending(s)
  {
    if s.active.None? then LoopStep(if s.lock.ByLoop? then s.lock.i else 0)
    else
      var cl := s.clients[s.active.value];
      if cl.closing > 0 then SendStep(s.active.value) else LoopStep(cl.owner)
  }

  /** How many such steps are left. */
  function StepsLeft(s: State): (r: nat)
    ensures r <= 8
  {
    if !Pending(s) then 0
    else if s.active.None? then 1
    else
      var cl := s.clients[s.active.value];
      if cl.closing > 0 then 8
      else if cl.owner >= |s.loops| then 0
      else match s.loops[cl.owner].stage
        case Wait => 7
        case DelCheck => 6
        case DelLock => 5
        case Remove => 4
        case Disown => 3
        case Deactivate => 2
        case _ => 0
  }

  /** How many steps of the loop that holds the lock are left before it gives it back. */
  function HeldFor(s: State): nat {
    if !s.lock.ByLoop? || s.lock.i >= |s.loops| then 0
    else match s.loops[s.lock.i].stage
      case Place => 3
      case Post => 2
      case Adopt => 1
      case Remove => 5
      case Disown => 4
      case Deactivate => 3
      case DoneWg => 2
      case DelUnlock => 1
      case _ => 0
  }

  // ----- Every step -----

  /** What a pending state looks like. */
  lemma {:induction false} PendingStages(s: State)
    requires Inv(s) && Pending(s)
    ensures s.active.None? ==> DonePending(s)
    ensures s.active.Some? ==> s.clients[s.active.value].owner < |s.loops|
    ensures s.active.Some? ==>
      var l := s.loops[s.clients[s.active.value].owner];
      l.cur == s.active.value
      && (l.stage.Wait? || l.stage.DelCheck? || l.stage.DelLock?
          || l.stage.Remove? || l.stage.Disown? || l.stage.Deactivate?)
  {
  }

  /** With no active slave left the only thing that can happen to the WaitGroup is the pending
      `Done`. */
  lemma {:induction false} LoopStepsDone(s: State, i: nat)
    requires Inv(s) && Pending(s) && Enabled(s, LoopStep(i)) && s.active.None?
    ensures var s' := LoopNext(s, i);
      if Releaser(s) == LoopStep(i) then s'.wg == 0 else Pending(s') && s'.active.None?
  {
    PendingStages(s);
  }

  lemma {:induction false} OtherLoopSteps(s: State, i: nat)
    requires Inv(s) && Pending(s) && Enabled(s, LoopStep(i))
    requires s.active.Some? && s.clients[s.active.value].owner != i
    ensures var s' := LoopNext(s, i);
      && Pending(s') && s'.active == s.active && s'.clients[s.active.value] == s.clients[s.active.value]
      && (s.clients[s.active.value].owner < |s.loops| ==>
            s'.loops[s.clients[s.active.value].owner] == s.loops[s.clients[s.active.value].owner])
  {
    PendingStages(s);
  }

  lemma {:induction false} OwnLoopSteps(s: State, i: nat)
    requires Inv(s) && Pending(s) && Enabled(s, LoopStep(i))
    requires s.active.Some? && s.clients[s.active.value].owner == i
    ensures var s' := LoopNext(s, i);
      Releaser(s) == LoopStep(i) && Pending(s') && StepsLeft(s') == StepsLeft(s) - 1
  {
    PendingStages(s);
  }

  lemma {:induction false} LoopSteps(s: State, i: nat)
    requires Inv(s) && Pending(s) && Enabled(s, LoopStep(i))
    ensures var s' := LoopNext(s, i);
      && (Pending(s') || s'.wg == 0)
      && StepsLeft(s') == StepsLeft(s) - (if Releaser(s) == LoopStep(i) then 1 else 0)
  {
    PendingStages(s);
    if s.active.None? {
      LoopStepsDone(s, i);
    } else if s.clients[s.active.value].owner == i {
      OwnLoopSteps(s, i);
    } else {
      OtherLoopSteps(s, i);
    }
  }

  lemma {:induction false} SendSteps(s: State, c: nat)
    requires Inv(s) && Pending(s) && Enabled(s, SendStep(c))
    ensures var s' := SendNext(s, c);
      && Pending(s')
      && StepsLeft(s') == StepsLeft(s) - (if Releaser(s) == SendStep(c) then 1 else 0)
  {
    PendingStages(s);
  }

  lemma {:induction false} CloseSteps(s: State, c: nat)
    requires Inv(s) && Pending(s) && Enabled(s, CloseStep(c))
    ensures Pending(CloseNext(s, c)) && StepsLeft(CloseNext(s, c)) == StepsLeft(s)
  {
    PendingStages(s);
  }

  /** The releasing step brings the release one step nearer, and no other step changes anything
      about it. */
  lemma {:induction false} NextSteps(s: State, a: Action)
    requires Inv(s) && Pending(s) && Enabled(s, a)
    ensures var s' := Next(s, a);
      && (Pending(s') || s'.wg == 0)
      && StepsLeft(s') == StepsLeft(s) - (if a == Releaser(s) then 1 else 0)
  {
    match a {
      case LoopStep(i) => LoopSteps(s, i);
      case SendStep(c) => SendSteps(s, c);
      case CloseStep(c) => CloseSteps(s, c);
      case MasterStep(_) =>
    }
  }

  /** The releasing step can be taken, unless the slave's loop is at the lock and another loop
      holds it, which then can go on. */
  lemma {:induction false} ReleaserOrHolder(s: State)
    requires Inv(s) && Pending(s)
    ensures StepsLeft(s) > 0
    ensures !Enabled(s, Releaser(s)) ==>
      s.lock.ByLoop? && Enabled(s, LoopStep(s.lock.i)) && HeldFor(s) > 0 && Releaser(s) != LoopStep(s.lock.i)
  {
    PendingStages(s);
    if s.active.Some? && s.clients[s.active.value].closing > 0 {
      SendKeeps(s, s.active.value);
    }
    if s.lock.ByLoop? {
      HolderCanMove(s);
    }
  }

  /** The holder is inside `addBackup` or `delBackup`, and stays there until its last statement. */
  lemma {:induction false} HolderStage(s: State)
    requires Inv(s) && s.lock.ByLoop?
    ensures s.lock.i < |s.loops| && Critical(s.loops[s.lock.i].stage)
    ensures s.loops[s.lock.i].cur < |s.clients|
  {
  }

  /** A step of the loop that holds the lock brings it nearer to giving it back. */
  lemma {:induction false} HolderSteps(s: State)
    requires s.lock.ByLoop? && Enabled(s, LoopStep(s.lock.i)) && Critical(s.loops[s.lock.i].stage)
    ensures HeldFor(LoopNext(s, s.lock.i)) < HeldFor(s)
  {
  }

  // ----- Whole runs -----

  /** A run during which the wait goes on. */
  ghost predicate WaitRun(s: State, actions: seq<Action>)
    decreases |actions|
  {
    |actions| == 0 || (Pending(s) && Enabled(s, actions[0]) && WaitRun(Next(s, actions[0]), actions[1..]))
  }

  /** How many of the steps are releasing ones. */
  ghost function Releasing(s: State, actions: seq<Action>): nat
    requires WaitRun(s, actions)
    decreases |actions|
  {
    if |actions| == 0 then 0
    else (if actions[0] == Releaser(s) then 1 else 0) + Releasing(Next(s, actions[0]), actions[1..])
  }

  lemma {:induction false} WaitRunCounts(s: State, actions: seq<Action>)
    requires Inv(s) && (Pending(s) || s.wg == 0) && WaitRun(s, actions)
    ensures IsRun(s, actions)
    ensures Inv(Final(s, actions)) && (Pending(Final(s, actions)) || Final(s, actions).wg == 0)
    ensures StepsLeft(Final(s, actions)) + Releasing(s, actions) == StepsLeft(s)
    decreases |actions|
  {
    if |actions| > 0 {
      NextSteps(s, actions[0]);
      NextKeeps(s, actions[0]);
      WaitRunCounts(Next(s, actions[0]), actions[1..]);
    }
  }

  /** No lost wake-up: whatever other goroutines do in between, the master waits for exactly
      `StepsLeft` releasing steps, at most eight, and then the WaitGroup is 0. */
  lemma {:induction false} ReleasedAfterSteps(n: nat, before: seq<Action>, actions: seq<Action>)
    requires IsRun(Init(n), before)
    requires Pending(Final(Init(n), before)) && WaitRun(Final(Init(n), before), actions)
    ensures var s := Final(Init(n), before);
      && IsRun(s, actions) && Releasing(s, actions) <= StepsLeft(s) <= 8
      && (Final(s, actions).wg == 0 <==> Releasing(s, actions) == StepsLeft(s))
  {
    InitInv(n);
    RunKeeps(Init(n), before);
    var s := Final(Init(n), before);
    WaitRunCounts(s, actions);
    if Pending(Final(s, actions)) {
      ReleaserOrHolder(Final(s, actions));
    }
  }

  /** Nobody closes a client, and the master does not move. */
  predicate Gentle(actions: seq<Action>) {
    forall i :: 0 <= i < |actions| ==> actions[i].LoopStep? || actions[i].SendStep?
  }

  /** The wait can always be ended: by the releasing steps, each after the loop that holds the
      lock has gone on to give it back. */
  lemma {:induction false} Release(s: State) returns (actions: seq<Action>)
    requires Inv(s) && (Pending(s) || s.wg == 0)
    ensures IsRun(s, actions) && WaitRun(s, actions) && Final(s, actions).wg == 0 && Gentle(actions)
    decreases StepsLeft(s), HeldFor(s)
  {
    if s.wg == 0 {
      return [];
    }
    ReleaserOrHolder(s);
    var a := if Enabled(s, Releaser(s)) then Releaser(s) else LoopStep(s.lock.i);
    NextSteps(s, a);
    NextKeeps(s, a);
    if a != Releaser(s) {
      HolderStage(s);
      HolderSteps(s);
    }
    var rest := Release(Next(s, a));
    actions := [a] + rest;
    assert actions[1..] == rest;
  }

  lemma {:induction false} ClosedActiveIsReleased(n: nat, before: seq<Action>) returns (actions: seq<Action>)
    requires IsRun(Init(n), before) && Pending(Final(Init(n), before))
    ensures var s := Final(Init(n), before);
      && IsRun(s, actions) && Final(s, actions).wg == 0
      && WaitRun(s, actions) && Releasing(s, actions) == StepsLeft(s)
  {
    InitInv(n);
    RunKeeps(Init(n), before);
    actions := Release(Final(Init(n), before));
    ReleasedAfterSteps(n, before, actions);
  }
}
