/** The failover protocol gets somewhere: the master activates an open slave whenever there is one,
    and another one when the active slave is closed. */
module FailoverActivation {
  import opened Machine
  import opened BackupSlots
  import opened Failover
  import opened FailoverInvariant
  import opened FailoverRelease

  // ----- The chosen slave is activated -----

  /** A client that is about to be unlocked and is not closed has been made the active slave, and
      counted. */
  predicate ChosenIsActive(s: State) {
    s.master.Unlocking? && s.master.c < |s.clients| && !s.clients[s.master.c].closed ==>
      s.active == Some(s.master.c) && s.wg == 1
  }

  /** Only `delBackup` touches the active slave and the WaitGroup, and no loop closes a client or
      moves the master. */
  lemma {:induction false} LoopFrame(s: State, i: nat)
    requires Enabled(s, LoopStep(i))
    ensures var s' := LoopNext(s, i);
      && s'.master == s.master && |s.clients| <= |s'.clients| && |s'.slots| == |s.slots|
      && (forall c :: 0 <= c < |s.clients| ==> s'.clients[c].closed == s.clients[c].closed)
      && (!s.loops[i].stage.Deactivate? && !s.loops[i].stage.DoneWg? ==> s'.active == s.active && s'.wg == s.wg)
  {
  }

  /** And that only for a client that is closed. */
  lemma {:induction false} DeletedIsClosed(s: State, i: nat)
    requires Inv(s) && Enabled(s, LoopStep(i)) && (s.loops[i].stage.Deactivate? || s.loops[i].stage.DoneWg?)
    ensures s.clients[s.loops[i].cur].closed
    ensures s.loops[i].stage.DoneWg? ==> DonePending(s)
  {
    assert ClientOk(s.clients[s.loops[i].cur], StageOf(s, s.loops[i].cur));
  }

  lemma {:induction false} LoopKeepsChosen(s: State, i: nat)
    requires Inv(s) && ChosenIsActive(s) && Enabled(s, LoopStep(i))
    ensures ChosenIsActive(LoopNext(s, i))
  {
    LoopFrame(s, i);
    if s.loops[i].stage.Deactivate? || s.loops[i].stage.DoneWg? {
      DeletedIsClosed(s, i);
    }
    if s.master.Unlocking? {
      ChosenExists(s);
    }
  }

  lemma {:induction false} ChosenExists(s: State)
    requires Inv(s) && s.master.Unlocking?
    ensures s.master.c < |s.clients| && Balanced(s)
  {
  }

  lemma {:induction false} MasterKeepsChosen(s: State, delay: int)
    requires Inv(s) && ChosenIsActive(s) && Enabled(s, MasterStep(delay))
    ensures ChosenIsActive(MasterNext(s, delay))
  {
  }

  lemma {:induction false} NextKeepsChosen(s: State, a: Action)
    requires Inv(s) && ChosenIsActive(s) && Enabled(s, a)
    ensures ChosenIsActive(Next(s, a))
  {
    match a {
      case LoopStep(i) => LoopKeepsChosen(s, i);
      case MasterStep(delay) => MasterKeepsChosen(s, delay);
      case CloseStep(c) =>
      case SendStep(c) =>
    }
  }

  lemma {:induction false} RunKeepsChosen(s: State, actions: seq<Action>)
    requires Inv(s) && ChosenIsActive(s) && IsRun(s, actions)
    ensures ChosenIsActive(Final(s, actions))
    decreases |actions|
  {
    if |actions| > 0 {
      NextKeepsChosen(s, actions[0]);
      NextKeeps(s, actions[0]);
      RunKeepsChosen(Next(s, actions[0]), actions[1..]);
    }
  }

  /** In every reachable state: when the master unlocks the slave that it has chosen, and that is
      not closed, the slave is the active one, and the WaitGroup is 1. */
  lemma {:induction false} ChosenIsActivated(n: nat, actions: seq<Action>)
    requires IsRun(Init(n), actions)
    ensures var s := Final(Init(n), actions);
      s.master.Unlocking? ==>
        s.master.c < |s.clients| && (!s.clients[s.master.c].closed ==> s.active == Some(s.master.c) && s.wg == 1)
  {
    InitInv(n);
    RunKeeps(Init(n), actions);
    RunKeepsChosen(Init(n), actions);
  }

  // ----- A scan -----

  /** What the master has found so far is open, and it has passed no open slot without finding one. */
  predicate FoundOpen(s: State)
    requires s.master.Scanning?
  {
    var i, acc := s.master.i, s.master.acc;
    && i <= |s.slots|
    && (acc.best.Some? ==> acc.best.value < |s.clients| && !s.clients[acc.best.value].closed && acc.best in s.slots)
    && (acc.first != -1 ==> 0 <= acc.first < |s.slots| && OpenSlot(s, acc.first as nat))
    && (acc.first == -1 ==> acc.best.None? && forall j :: 0 <= j < i ==> !OpenSlot(s, j))
  }

  lemma {:induction false} ScanEnabled(s: State, delay: int)
    requires Inv(s) && s.master.Scanning? && s.master.i <= |s.slots|
    ensures Enabled(s, MasterStep(delay))
    ensures forall j :: 0 <= j < |s.slots| && s.slots[j].Some? ==> s.slots[j].value < |s.clients|
  {
  }

  lemma {:induction false} ScanStep(s: State, delay: int)
    requires s.master.Scanning? && FoundOpen(s) && s.master.i < |s.slots| && Enabled(s, MasterStep(delay))
    requires forall j :: 0 <= j < |s.slots| && s.slots[j].Some? ==> s.slots[j].value < |s.clients|
    ensures var s' := MasterNext(s, delay);
      && s'.master.Scanning? && s'.master.i == s.master.i + 1 && FoundOpen(s')
      && s' == s.(master := s'.master)
  {
    var i := s.master.i;
    var s' := MasterNext(s, delay);
    if s.slots[i].Some? {
      assert s.slots[i] in s.slots;
    }
    forall j | 0 <= j < i ensures OpenSlot(s', j) == OpenSlot(s, j) {
    }
    assert OpenSlot(s', i) == OpenSlot(s, i);
  }

  /** The choice at the end of a scan: an open client, if any slot is open. */
  lemma {:induction false} ScanEnds(s: State, delay: int, j: nat)
    requires Inv(s) && s.master.Scanning? && FoundOpen(s) && s.master.i == |s.slots| && j < |s.slots| && OpenSlot(s, j)
    ensures Enabled(s, MasterStep(delay))
    ensures var s' := MasterNext(s, delay);
      && s'.master.LockClient? && Some(s'.master.c) in s.slots
      && s'.master.c < |s.clients| && !s.clients[s'.master.c].closed
      && s' == s.(lock := Free, master := s'.master)
    ensures s.master.acc.best.Some? ==> MasterNext(s, delay).master.c == s.master.acc.best.value
  {
  }

  // ----- Master steps in a row -----

  /** Steps of the master that read these delays. */
  function MasterSteps(ds: seq<int>): (actions: seq<Action>)
    ensures |actions| == |ds| && forall i :: 0 <= i < |ds| ==> actions[i] == MasterStep(ds[i])
  {
    seq(|ds|, i requires 0 <= i < |ds| => MasterStep(ds[i]))
  }

  lemma {:induction false} OneMore(s: State, ds: seq<int>)
    requires |ds| > 0 && Enabled(s, MasterStep(ds[0])) && IsRun(MasterNext(s, ds[0]), MasterSteps(ds[1..]))
    ensures IsRun(s, MasterSteps(ds))
    ensures Final(s, MasterSteps(ds)) == Final(MasterNext(s, ds[0]), MasterSteps(ds[1..]))
  {
    assert MasterSteps(ds)[1..] == MasterSteps(ds[1..]);
  }

  /** The four steps from the choice to the unlocking of an open slave. */
  lemma {:induction false} ActivationSteps(s: State, ds: seq<int>)
    requires Inv(s) && s.master.LockClient? && s.master.c < |s.clients| && !s.clients[s.master.c].closed && |ds| == 4
    ensures IsRun(s, MasterSteps(ds))
    ensures Final(s, MasterSteps(ds))
      == s.(master := Unlocking(s.master.c), active := Some(s.master.c), wg := 1)
  {
    var c := s.master.c;
    assert s.wg == 0;
    var s1 := s.(master := Checking(c));
    var s2 := s1.(master := Setting(c));
    var s3 := s2.(active := Some(c), master := Adding(c));
    var s4 := s3.(wg := 1, master := Unlocking(c));
    assert MasterSteps(ds[4..]) == [] && IsRun(s4, MasterSteps(ds[4..]));
    assert ds[3..][1..] == ds[4..] && ds[2..][1..] == ds[3..] && ds[1..][1..] == ds[2..];
    OneMore(s3, ds[3..]);
    OneMore(s2, ds[2..]);
    OneMore(s1, ds[1..]);
    OneMore(s, ds);
  }

  /** The chosen slave will be activated, or is just being so. */
  predicate Picks(s: State)
    requires Chosen(s.master) && s.master.c < |s.clients|
  {
    s.master.Setting? || s.master.Adding? || (!s.master.Unlocking? && !s.clients[s.master.c].closed)
  }

  /** What becomes of the choice. */
  function Settled(s: State): State
    requires Chosen(s.master) && s.master.c < |s.clients|
  {
    if Picks(s) then s.(master := Waiting, active := Some(s.master.c), wg := 1) else s.(master := Waiting)
  }

  function StepsToWait(m: Master): nat {
    match m
    case LockClient(_) => 5
    case Checking(_) => 4
    case Setting(_) => 3
    case Adding(_) => 2
    case Unlocking(_) => 1
    case _ => 0
  }

  lemma {:induction false} ChoiceStep(s: State)
    requires Inv(s) && Chosen(s.master) && s.master.c < |s.clients|
    ensures Enabled(s, MasterStep(0)) && StepsToWait(MasterNext(s, 0).master) < StepsToWait(s.master)
    ensures s.master.Unlocking? ==> MasterNext(s, 0) == Settled(s)
    ensures !s.master.Unlocking? ==>
      var s' := MasterNext(s, 0);
      Chosen(s'.master) && s'.master.c < |s'.clients| && Settled(s') == Settled(s)
  {
  }

  /** Nothing can hold up a master that has made its choice: on its own it comes to wait, with the
      chosen slave active and counted unless that one was closed when it was checked. */
  lemma {:induction false} ChoiceEnds(s: State) returns (ds: seq<int>)
    requires Inv(s) && Chosen(s.master) && s.master.c < |s.clients|
    ensures IsRun(s, MasterSteps(ds)) && |ds| <= StepsToWait(s.master)
    ensures Final(s, MasterSteps(ds)) == Settled(s)
    decreases StepsToWait(s.master)
  {
    ChoiceStep(s);
    NextKeeps(s, MasterStep(0));
    var rest := [];
    if !s.master.Unlocking? {
      rest := ChoiceEnds(MasterNext(s, 0));
    }
    ds := [0] + rest;
    assert ds[1..] == rest;
    OneMore(s, ds);
  }

  /** Whatever delays it reads, a master that scans, undisturbed, activates an open client. */
  lemma {:induction false} ScanGoesOn(s: State, ds: seq<int>, j: nat)
    requires Inv(s) && s.master.Scanning? && FoundOpen(s) && |ds| == |s.slots| - s.master.i + 5
    requires j < |s.slots| && OpenSlot(s, j)
    ensures IsRun(s, MasterSteps(ds)) && ActivatedFrom(s, Final(s, MasterSteps(ds)))
    decreases |ds|
  {
    if s.master.i < |s.slots| {
      ScanEnabled(s, ds[0]);
      ScanStep(s, ds[0]);
      NextKeeps(s, MasterStep(ds[0]));
      ScanGoesOn(MasterNext(s, ds[0]), ds[1..], j);
    } else {
      ScanEnds(s, ds[0], j);
      NextKeeps(s, MasterStep(ds[0]));
      ActivationSteps(MasterNext(s, ds[0]), ds[1..]);
    }
    OneMore(s, ds);
  }

  /** The master has activated an open client, and changed nothing else. */
  ghost predicate ActivatedFrom(s: State, s': State) {
    && s'.master.Unlocking? && s'.active == Some(s'.master.c) && s'.wg == 1
    && s'.active in s'.slots && s'.master.c < |s'.clients| && !s'.clients[s'.master.c].closed
    && s' == s.(lock := Free, master := s'.master, active := s'.active, wg := 1)
  }

  lemma {:induction false} ScanActivates(s: State, ds: seq<int>, j: nat)
    requires Inv(s) && s.master.ScanLock? && s.lock.Free? && |ds| == |s.slots| + 6
    requires j < |s.slots| && OpenSlot(s, j)
    ensures IsRun(s, MasterSteps(ds)) && ActivatedFrom(s, Final(s, MasterSteps(ds)))
  {
    NextKeeps(s, MasterStep(ds[0]));
    ScanGoesOn(MasterNext(s, ds[0]), ds[1..], j);
    OneMore(s, ds);
  }

  // ----- The slave with the least delay -----

  /** Only slot `j` shows a delay; then come the steps behind the scan. */
  function DelaysFrom(i: nat, n: nat, j: nat): (ds: seq<int>)
    requires i <= n
    ensures |ds| == n - i + 5
    decreases n - i
  {
    if i == n then [0, 0, 0, 0, 0] else [if i == j then 1 else 0] + DelaysFrom(i + 1, n, j)
  }

  /** The scan has found slot `j` if it has passed it, and no other slot with a delay. */
  predicate FoundOnly(s: State, j: nat)
    requires s.master.Scanning? && j < |s.slots|
  {
    if s.master.i <= j then s.master.acc.best.None? && s.master.acc.minDelay == MAX_DURATION
    else s.master.acc.best == s.slots[j]
  }

  lemma {:induction false} OnlyStep(s: State, j: nat)
    requires s.master.Scanning? && s.master.i < |s.slots| && j < |s.slots| && OpenSlot(s, j) && FoundOnly(s, j)
    requires Enabled(s, MasterStep(if s.master.i == j then 1 else 0))
    ensures MasterNext(s, if s.master.i == j then 1 else 0).master.Scanning?
    ensures FoundOnly(MasterNext(s, if s.master.i == j then 1 else 0), j)
  {
  }

  lemma {:induction false} ScanFinds(s: State, j: nat, ds: seq<int>)
    requires Inv(s) && s.master.Scanning? && FoundOpen(s)
    requires j < |s.slots| && OpenSlot(s, j) && FoundOnly(s, j) && ds == DelaysFrom(s.master.i, |s.slots|, j)
    ensures IsRun(s, MasterSteps(ds)) && ActivatedFrom(s, Final(s, MasterSteps(ds)))
    ensures Final(s, MasterSteps(ds)).active == s.slots[j]
    decreases |ds|
  {
    ScanEnabled(s, ds[0]);
    NextKeeps(s, MasterStep(ds[0]));
    if s.master.i < |s.slots| {
      ScanStep(s, ds[0]);
      OnlyStep(s, j);
      ScanFinds(MasterNext(s, ds[0]), j, ds[1..]);
    } else {
      ScanEnds(s, ds[0], j);
      ActivationSteps(MasterNext(s, ds[0]), ds[1..]);
    }
    OneMore(s, ds);
  }

  /** Any open slave can become the active one: it does if it shows a delay and no other does. */
  lemma {:induction false} ScanActivatesAny(s: State, j: nat) returns (actions: seq<Action>)
    requires Inv(s) && s.master.ScanLock? && s.lock.Free? && j < |s.slots| && OpenSlot(s, j)
    ensures IsRun(s, actions) && ActivatedFrom(s, Final(s, actions)) && Final(s, actions).active == s.slots[j]
  {
    var ds := [0] + DelaysFrom(0, |s.slots|, j);
    actions := MasterSteps(ds);
    NextKeeps(s, MasterStep(0));
    assert ds[1..] == DelaysFrom(0, |s.slots|, j);
    ScanFinds(MasterNext(s, 0), j, ds[1..]);
    OneMore(s, ds);
  }

  // ----- From any point -----

  lemma {:induction false} RunsJoin(s: State, before: seq<Action>, after: seq<Action>)
    requires IsRun(s, before) && IsRun(Final(s, before), after)
    ensures IsRun(s, before + after) && Final(s, before + after) == Final(Final(s, before), after)
    decreases |before|
  {
    if |before| > 0 {
      RunsJoin(Next(s, before[0]), before[1..], after);
      FirstStep(s, Next(s, before[0]), before[0], before[1..] + after);
      assert [before[0]] + (before[1..] + after) == before + after;
    } else {
      assert before + after == after;
    }
  }

  lemma {:induction false} FirstStep(s: State, t: State, a: Action, rest: seq<Action>)
    requires Enabled(s, a) && t == Next(s, a) && IsRun(t, rest)
    ensures IsRun(s, [a] + rest) && Final(s, [a] + rest) == Final(t, rest)
  {
    assert ([a] + rest)[1..] == rest;
  }

  /** The slot holds this client, and it is open. */
  predicate HoldsOpen(s: State, j: nat, c: nat) {
    j < |s.slots| && s.slots[j] == Some(c) && c < |s.clients| && !s.clients[c].closed
  }

  /** An open slave stays where it is while nobody closes it. */
  lemma {:induction false} OpenStays(s: State, a: Action, j: nat, c: nat)
    requires Inv(s) && Enabled(s, a) && (a.LoopStep? || a.SendStep?) && HoldsOpen(s, j, c)
    ensures HoldsOpen(Next(s, a), j, c) && Next(s, a).master == s.master && |Next(s, a).slots| == |s.slots|
  {
    if a.LoopStep? {
      LoopFrame(s, a.i);
      if s.loops[a.i].stage.Remove? {
        RemovedIsClosed(s, a.i);
      }
      SlotKept(s, a.i, j, c);
    }
  }

  /** `addBackup` fills a free slot, and `delBackup` frees that of its own client. */
  lemma {:induction false} SlotKept(s: State, i: nat, j: nat, c: nat)
    requires Enabled(s, LoopStep(i)) && j < |s.slots| && s.slots[j] == Some(c)
    requires s.loops[i].stage.Remove? ==> s.loops[i].cur != c
    ensures j < |LoopNext(s, i).slots| && LoopNext(s, i).slots[j] == Some(c)
  {
  }

  lemma {:induction false} RemovedIsClosed(s: State, i: nat)
    requires Inv(s) && Enabled(s, LoopStep(i)) && s.loops[i].stage.Remove?
    ensures s.clients[s.loops[i].cur].closed
  {
    assert ClientOk(s.clients[s.loops[i].cur], StageOf(s, s.loops[i].cur));
  }

  lemma {:induction false} OpenStaysRun(s: State, actions: seq<Action>, j: nat, c: nat)
    requires Inv(s) && IsRun(s, actions) && Gentle(actions) && HoldsOpen(s, j, c)
    ensures Inv(Final(s, actions)) && HoldsOpen(Final(s, actions), j, c) && Final(s, actions).master == s.master
    decreases |actions|
  {
    if |actions| > 0 {
      OpenStays(s, actions[0], j, c);
      NextKeeps(s, actions[0]);
      assert Gentle(actions[1..]);
      OpenStaysRun(Next(s, actions[0]), actions[1..], j, c);
    }
  }

  /** The loop that holds the lock gives it back. */
  lemma {:induction false} FreeTheLock(s: State) returns (actions: seq<Action>)
    requires Inv(s)
    ensures IsRun(s, actions) && Gentle(actions) && !Final(s, actions).lock.ByLoop?
    ensures s.wg == 0 && s.active.None? ==> Final(s, actions).wg == 0 && Final(s, actions).active.None?
    decreases HeldFor(s)
  {
    if s.lock.ByLoop? {
      HolderCanMove(s);
      HolderStage(s);
      HolderSteps(s);
      IdleStays(s, s.lock.i);
      NextKeeps(s, LoopStep(s.lock.i));
      var rest := FreeTheLock(LoopNext(s, s.lock.i));
      actions := [LoopStep(s.lock.i)] + rest;
      assert actions[1..] == rest;
    } else {
      actions := [];
    }
  }

  /** Without an active slave, a loop leaves the WaitGroup at 0. */
  lemma {:induction false} IdleStays(s: State, i: nat)
    requires Inv(s) && Enabled(s, LoopStep(i))
    ensures s.wg == 0 && s.active.None? ==> LoopNext(s, i).wg == 0 && LoopNext(s, i).active.None?
  {
    LoopFrame(s, i);
    if s.loops[i].stage.DoneWg? {
      DeletedIsClosed(s, i);
      DoneMeansOne(s);
    }
  }

  lemma {:induction false} DoneMeansOne(s: State)
    requires Inv(s) && DonePending(s)
    ensures s.wg == 1
  {
  }

  /** With the lock free, a master that waits for a token finds one if any slot is open. */
  lemma {:induction false} TokenIsThere(s: State, j: nat, c: nat)
    requires Inv(s) && s.master.Receiving? && !s.lock.ByLoop? && HoldsOpen(s, j, c)
    ensures s.token > 0
  {
    assert OpenSlot(s, j);
  }

  /** The master is between two choices: about to scan, waiting for a token, or waiting for the
      WaitGroup, which is 0. */
  predicate BetweenChoices(s: State) {
    s.master.ScanLock? || s.master.Receiving? || (s.master.Waiting? && s.wg == 0)
  }

  lemma {:induction false} BackToScan(s: State, j: nat, c: nat)
    requires Inv(s) && BetweenChoices(s) && !s.lock.ByLoop? && HoldsOpen(s, j, c) && !s.master.ScanLock?
    ensures Enabled(s, MasterStep(0))
    ensures MasterNext(s, 0).master.ScanLock? && MasterNext(s, 0).lock.Free? && HoldsOpen(MasterNext(s, 0), j, c)
  {
    if s.master.Receiving? {
      TokenIsThere(s, j, c);
    }
  }

  lemma {:induction false} IdleBetween(s: State)
    requires Inv(s) && BetweenChoices(s)
    ensures s.wg == 0 && s.active.None?
  {
  }

  lemma {:induction false} Choose(s: State, j: nat, c: nat) returns (actions: seq<Action>)
    requires Inv(s) && BetweenChoices(s) && !s.lock.ByLoop? && HoldsOpen(s, j, c)
    ensures IsRun(s, actions) && Final(s, actions).active == Some(c) && Final(s, actions).wg == 1
  {
    if s.master.ScanLock? {
      actions := ScanActivatesAny(s, j);
    } else {
      BackToScan(s, j, c);
      NextKeeps(s, MasterStep(0));
      var rest := ScanActivatesAny(MasterNext(s, 0), j);
      actions := [MasterStep(0)] + rest;
      assert actions[1..] == rest;
    }
  }

  /** From every reachable state in which the master is between two choices, any open slave can
      become the active one, without anybody being closed. */
  lemma {:induction false} OpenSlaveIsActivated(s: State, j: nat, c: nat) returns (actions: seq<Action>)
    requires Inv(s) && BetweenChoices(s) && HoldsOpen(s, j, c)
    ensures IsRun(s, actions) && Final(s, actions).active == Some(c) && Final(s, actions).wg == 1
  {
    IdleBetween(s);
    var free := FreeTheLock(s);
    OpenStaysRun(s, free, j, c);
    var rest := Choose(Final(s, free), j, c);
    actions := free + rest;
    RunsJoin(s, free, rest);
  }

  /** The failover: the active slave is closed while another one is open; a run that closes nobody
      else ends with the other one active. */
  lemma {:induction false} FailsOver(n: nat, before: seq<Action>, j: nat, c: nat) returns (actions: seq<Action>)
    requires IsRun(Init(n), before)
    requires var s := Final(Init(n), before);
      && s.master.Waiting? && s.active.Some? && s.active.value < |s.clients| && s.clients[s.active.value].working
      && HoldsOpen(s, j, c) && s.active != Some(c)
    ensures var s := Final(Init(n), before);
      && Enabled(s, CloseStep(s.active.value))
      && var s' := Next(s, CloseStep(s.active.value));
        IsRun(s', actions) && Final(s', actions).active == Some(c) && Final(s', actions).wg == 1
  {
    InitInv(n);
    RunKeeps(Init(n), before);
    var s := Final(Init(n), before);
    NextKeeps(s, CloseStep(s.active.value));
    var s' := CloseNext(s, s.active.value);
    if s'.wg == 0 {
      actions := OpenSlaveIsActivated(s', j, c);
    } else {
      var release := Release(s');
      OpenStaysRun(s', release, j, c);
      var rest := OpenSlaveIsActivated(Final(s', release), j, c);
      actions := release + rest;
      RunsJoin(s', release, rest);
    }
  }

  // ----- A loop in a row -----

  function LoopSteps(i: nat, n: nat): (actions: seq<Action>)
    ensures |actions| == n && forall k :: 0 <= k < n ==> actions[k] == LoopStep(i)
  {
    seq(n, _ => LoopStep(i))
  }

  lemma {:induction false} OneLoopStep(s: State, i: nat, n: nat)
    requires n > 0 && Enabled(s, LoopStep(i)) && IsRun(LoopNext(s, i), LoopSteps(i, n - 1))
    ensures IsRun(s, LoopSteps(i, n))
    ensures Final(s, LoopSteps(i, n)) == Final(LoopNext(s, i), LoopSteps(i, n - 1))
  {
    assert LoopSteps(i, n)[1..] == LoopSteps(i, n - 1);
  }

  /** The last steps of `addBackup`, and `Working`. */
  lemma {:induction false} FinishJoining(s: State, i: nat, c: nat)
    requires i < |s.loops| && s.loops[i] == Loop(Place, c) && s.lock == ByLoop(i) && !s.panicked
    requires c < |s.clients| && s.clients[c] == Client(i, false, false, false, 0, 0, 0, false)
    ensures IsRun(s, LoopSteps(i, 4))
    ensures Final(s, LoopSteps(i, 4)) == s.(
      slots := Placed(s.slots, c), token := if s.token == 0 then 1 else s.token, lock := Free,
      clients := s.clients[c := Client(i, true, false, true, 0, 0, 0, false)], loops := s.loops[i := Loop(Wait, c)])
  {
    var s1 := LoopNext(s, i);
    var s2 := LoopNext(s1, i);
    var s3 := LoopNext(s2, i);
    var s4 := LoopNext(s3, i);
    assert IsRun(s4, LoopSteps(i, 0));
    OneLoopStep(s3, i, 1);
    OneLoopStep(s2, i, 2);
    OneLoopStep(s1, i, 3);
    OneLoopStep(s, i, 4);
  }

  /** The state in which loop `i` has dialled and taken the lock. */
  function Dialled(s: State, i: nat): State
    requires i < |s.loops|
  {
    s.(clients := s.clients + [NewClient(i)], loops := s.loops[i := Loop(Place, |s.clients|)], lock := ByLoop(i))
  }

  lemma {:induction false} DialSteps(s: State, i: nat)
    requires Inv(s) && i < |s.loops| && s.loops[i].stage.Dial? && s.lock.Free?
    ensures Enabled(s, LoopStep(i)) && Enabled(LoopNext(s, i), LoopStep(i))
    ensures LoopNext(LoopNext(s, i), i) == Dialled(s, i) && Inv(Dialled(s, i))
  {
    NextKeeps(s, LoopStep(i));
    NextKeeps(LoopNext(s, i), LoopStep(i));
  }

  /** The state in which the loop waits for its client, placed into these slots. */
  function JoinedAt(s: State, i: nat, slots: seq<Option<nat>>): State
    requires i < |s.loops|
  {
    s.(slots := slots, token := 1, loops := s.loops[i := Loop(Wait, |s.clients|)],
       clients := s.clients + [Client(i, true, false, true, 0, 0, 0, false)])
  }

  lemma {:induction false} JoinedState(s: State, i: nat, slots: seq<Option<nat>>)
    requires i < |s.loops| && s.lock.Free?
    ensures var c, t, cl := |s.clients|, Dialled(s, i), Client(i, true, false, true, 0, 0, 0, false);
      t.(slots := slots, token := 1, lock := Free, clients := t.clients[c := cl], loops := t.loops[i := Loop(Wait, c)])
      == JoinedAt(s, i, slots)
  {
  }

  lemma {:induction false} JoinRun(s: State, i: nat)
    requires Inv(s) && i < |s.loops| && s.loops[i].stage.Dial? && s.lock.Free?
    ensures IsRun(s, LoopSteps(i, 6)) && Final(s, LoopSteps(i, 6)) == JoinedAt(s, i, Placed(s.slots, |s.clients|))
  {
    DialSteps(s, i);
    FinishJoining(Dialled(s, i), i, |s.clients|);
    TokenIsOne(s);
    JoinedState(s, i, Placed(s.slots, |s.clients|));
    OneLoopStep(LoopNext(s, i), i, 5);
    OneLoopStep(s, i, 6);
  }

  /** A loop that dials, with the lock free, gets a new client into a free slot and the token posted,
      and waits with the client working; nothing else changes. */
  lemma {:induction false} LoopJoins(s: State, i: nat)
    requires Inv(s) && i < |s.loops| && s.loops[i].stage.Dial? && s.lock.Free?
    ensures IsRun(s, LoopSteps(i, 6))
    ensures var s', c := Final(s, LoopSteps(i, 6)), |s.clients|;
      && None in s.slots && Some(c) !in s.slots && Some(c) in s'.slots && Removed(s'.slots, c) == s.slots
      && s' == s.(slots := s'.slots, token := 1, loops := s.loops[i := Loop(Wait, c)],
                  clients := s.clients + [Client(i, true, false, true, 0, 0, 0, false)])
  {
    DialSteps(s, i);
    PlaceSlots(Dialled(s, i), i);
    RemovedUndoesPlaced(s.slots, |s.clients|);
    JoinRun(s, i);
  }

  lemma {:induction false} TokenIsOne(s: State)
    requires Inv(s)
    ensures s.token <= 1
  {
  }

  /** The client is no longer adopted, nor active. */
  function Deactivated(s: State, i: nat, c: nat): State
    requires i < |s.loops| && c < |s.clients|
  {
    s.(loops := s.loops[i := Loop(DelUnlock, c)],
       clients := s.clients[c := s.clients[c].(adopted := false)],
       active := if s.active == Some(c) then None else s.active,
       wg := if s.active == Some(c) then s.wg - 1 else s.wg)
  }

  /** The critical section of `delBackup`. */
  function Left(s: State, i: nat, c: nat): State
    requires i < |s.loops| && c < |s.clients|
  {
    Deactivated(s, i, c).(slots := Removed(s.slots, c))
  }

  /** The last steps of it, after `Remove`. */
  lemma {:induction false} LeaveActivity(s: State, i: nat, c: nat)
    requires i < |s.loops| && s.loops[i] == Loop(Disown, c) && c < |s.clients| && !s.panicked
    requires s.active == Some(c) ==> s.wg > 0
    ensures var n := if s.active == Some(c) then 3 else 2;
      IsRun(s, LoopSteps(i, n)) && Final(s, LoopSteps(i, n)) == Deactivated(s, i, c)
  {
    var s1 := LoopNext(s, i);
    var s2 := LoopNext(s1, i);
    assert s1.loops[i] == Loop(Deactivate, c);
    if s.active == Some(c) {
      assert IsRun(LoopNext(s2, i), LoopSteps(i, 0));
      OneLoopStep(s2, i, 1);
      OneLoopStep(s1, i, 2);
      OneLoopStep(s, i, 3);
    } else {
      assert IsRun(s2, LoopSteps(i, 0));
      OneLoopStep(s1, i, 1);
      OneLoopStep(s, i, 2);
    }
  }

  lemma {:induction false} LeaveSlot(s: State, i: nat, c: nat)
    requires i < |s.loops| && s.loops[i] == Loop(Remove, c) && c < |s.clients| && !s.panicked
    requires s.active == Some(c) ==> s.wg > 0
    ensures var n := if s.active == Some(c) then 4 else 3;
      IsRun(s, LoopSteps(i, n)) && Final(s, LoopSteps(i, n)) == Left(s, i, c)
  {
    LeaveActivity(LoopNext(s, i), i, c);
    OneLoopStep(s, i, if s.active == Some(c) then 4 else 3);
  }

  /** The state in which the loop has the lock and is about to free the slot. */
  function Leaving(s: State, i: nat, c: nat): State
    requires i < |s.loops| && c < |s.clients| && s.clients[c].box > 0
  {
    s.(lock := ByLoop(i), loops := s.loops[i := Loop(Remove, c)],
       clients := s.clients[c := s.clients[c].(box := s.clients[c].box - 1)])
  }

  /** From `reconnect` to the removal. */
  lemma {:induction false} StartLeaving(s: State, i: nat, c: nat)
    requires i < |s.loops| && s.loops[i] == Loop(Wait, c) && c < |s.clients| && !s.panicked && s.lock.Free?
    requires s.clients[c].box > 0 && s.clients[c].adopted
    ensures IsRun(s, LoopSteps(i, 3))
    ensures Final(s, LoopSteps(i, 3)) == Leaving(s, i, c)
  {
    var s1 := LoopNext(s, i);
    var s2 := LoopNext(s1, i);
    var s3 := LoopNext(s2, i);
    assert IsRun(s3, LoopSteps(i, 0));
    OneLoopStep(s2, i, 1);
    OneLoopStep(s1, i, 2);
    OneLoopStep(s, i, 3);
  }

  lemma {:induction false} FinishLeaving(s: State, i: nat, c: nat)
    requires i < |s.loops| && s.loops[i] == Loop(DelUnlock, c) && c < |s.clients| && !s.panicked
    requires s.lock == ByLoop(i) && !s.clients[c].boxClosed
    ensures IsRun(s, LoopSteps(i, 2))
    ensures Final(s, LoopSteps(i, 2)) == s.(lock := Free, loops := s.loops[i := Loop(Dial, c)],
                                            clients := s.clients[c := s.clients[c].(boxClosed := true)])
  {
    var s1 := LoopNext(s, i);
    var s2 := LoopNext(s1, i);
    assert IsRun(s2, LoopSteps(i, 0));
    OneLoopStep(s1, i, 1);
    OneLoopStep(s, i, 2);
  }

  /** What a loop's leaving comes to: its client is out of its slot and out of activity, and nobody
      else's slot or client has changed. */
  predicate HasLeft(s: State, s': State, i: nat, c: nat)
    requires i < |s.loops| && c < |s.clients|
  {
    && s'.loops == s.loops[i := Loop(Dial, c)] && s'.lock.Free? && s'.master == s.master && s'.token == s.token
    && Some(c) in s.slots && s'.slots == Removed(s.slots, c)
    && |s'.clients| == |s.clients| && s'.clients[c].boxClosed && !s'.clients[c].adopted
    && (forall d :: 0 <= d < |s.clients| && d != c ==> s'.clients[d] == s.clients[d])
    && (if s.active == Some(c) then s'.active.None? && s'.wg == s.wg - 1 else s'.active == s.active && s'.wg == s.wg)
  }

  function LeftAndClosed(s: State, i: nat, c: nat): State
    requires i < |s.loops| && c < |s.clients|
  {
    s.(lock := Free, loops := s.loops[i := Loop(Dial, c)], clients := s.clients[c := s.clients[c].(boxClosed := true)])
  }

  lemma {:induction false} LeftState(s: State, i: nat, c: nat)
    requires i < |s.loops| && c < |s.clients| && s.clients[c].box > 0 && Some(c) in s.slots
    ensures HasLeft(s, LeftAndClosed(Left(Leaving(s, i, c), i, c), i, c), i, c)
  {
  }

  /** From `Remove` on. */
  lemma {:induction false} LeavesFromRemove(s: State, i: nat, c: nat) returns (n: nat)
    requires i < |s.loops| && s.loops[i] == Loop(Remove, c) && c < |s.clients| && !s.panicked && s.lock == ByLoop(i)
    requires (s.active == Some(c) ==> s.wg > 0) && !s.clients[c].boxClosed
    ensures IsRun(s, LoopSteps(i, n)) && Final(s, LoopSteps(i, n)) == LeftAndClosed(Left(s, i, c), i, c)
  {
    n := if s.active == Some(c) then 4 else 3;
    LeaveSlot(s, i, c);
    FinishLeaving(Left(s, i, c), i, c);
    RunsJoin(s, LoopSteps(i, n), LoopSteps(i, 2));
    assert LoopSteps(i, n) + LoopSteps(i, 2) == LoopSteps(i, n + 2);
    n := n + 2;
  }

  /** A loop that is told to reconnect, with the lock free, takes its client out of its slot and out
      of activity, and is ready to dial again; nobody else's slot or client changes. */
  lemma {:induction false} LoopLeaves(s: State, i: nat) returns (n: nat)
    requires Inv(s) && i < |s.loops| && s.loops[i].stage.Wait? && s.lock.Free?
    requires s.loops[i].cur < |s.clients| && s.clients[s.loops[i].cur].box > 0
    ensures IsRun(s, LoopSteps(i, n)) && HasLeft(s, Final(s, LoopSteps(i, n)), i, s.loops[i].cur)
  {
    var c := s.loops[i].cur;
    WaitingClient(s, i);
    StartLeaving(s, i, c);
    n := LeavesFromRemove(Leaving(s, i, c), i, c);
    RunsJoin(s, LoopSteps(i, 3), LoopSteps(i, n));
    assert LoopSteps(i, 3) + LoopSteps(i, n) == LoopSteps(i, 3 + n);
    n := 3 + n;
    LeftState(s, i, c);
  }

  lemma {:induction false} WaitingClient(s: State, i: nat)
    requires Inv(s) && i < |s.loops| && s.loops[i].stage.Wait? && s.lock.Free?
    ensures var c := s.loops[i].cur;
      && c < |s.clients| && s.clients[c].adopted && !s.clients[c].boxClosed && Some(c) in s.slots
      && (s.active == Some(c) ==> s.wg == 1 || s.master.Adding?)
      && (s.active == Some(c) && s.clients[c].closed ==> s.wg == 1)
      && (s.clients[c].box > 0 ==> s.clients[c].closed)
  {
    assert ClientOk(s.clients[s.loops[i].cur], StageOf(s, s.loops[i].cur));
  }
}
