/** What every step of the failover protocol keeps. */
module FailoverInvariant {
  import opened Machine
  import Counting
  import BackupSlots
  import opened Failover

  // ----- What a stage means -----

  /** Inside `addBackup` or `delBackup`, holding the lock. */
  predicate Critical(st: Stage) {
    st.Place? || st.Post? || st.Adopt? || st.Remove? || st.Disown? || st.Deactivate? || st.DoneWg? || st.DelUnlock?
  }

  /** The client is in a slot. */
  predicate InSlot(st: Stage) {
    st.Post? || st.Adopt? || st.Start? || st.Wait? || st.DelCheck? || st.DelLock? || st.Remove?
  }

  predicate Adopted(st: Stage) {
    st.Start? || st.Wait? || st.DelCheck? || st.DelLock? || st.Remove? || st.Disown?
  }

  /** `Working` has not been called yet. */
  predicate Fresh(st: Stage) {
    st.AddLock? || st.Place? || st.Post? || st.Adopt? || st.Start?
  }

  /** The loop has received from `reconnect`. */
  predicate Received(st: Stage) {
    !Fresh(st) && !st.Wait? && !st.Dial?
  }

  /** The stage of client `c`: that of its loop while it is the loop's current client. */
  function StageOf(s: State, c: nat): Stage
    requires c < |s.clients| && s.clients[c].owner < |s.loops|
  {
    var l := s.loops[s.clients[c].owner];
    if l.cur == c && !l.stage.Dial? then l.stage else Gone
  }

  // ----- The invariant -----

  predicate ClientOk(cl: Client, st: Stage) {
    && cl.adopted == Adopted(st)
    && (Fresh(st) ==> !cl.working && !cl.closed && cl.closing == 0 && cl.sends == 0 && cl.box == 0)
    && (st.Wait? ==> cl.working && cl.closing + cl.sends == (if cl.closed then 1 else 0) && cl.box == cl.sends)
    && (Received(st) ==> cl.closed && cl.closing == 0 && cl.sends == 1 && cl.box == 0)
    && (cl.boxClosed <==> st.Gone?)
  }

  ghost predicate ClientsOk(s: State) {
    forall c :: 0 <= c < |s.clients| ==>
      s.clients[c].owner < |s.loops| && ClientOk(s.clients[c], StageOf(s, c))
  }

  ghost predicate LoopsOk(s: State) {
    forall i :: 0 <= i < |s.loops| ==>
      && !s.loops[i].stage.Gone?
      && (Critical(s.loops[i].stage) <==> s.lock == ByLoop(i))
      && (!s.loops[i].stage.Dial? ==> s.loops[i].cur < |s.clients| && s.clients[s.loops[i].cur].owner == i)
      && (InSlot(s.loops[i].stage) ==> Some(s.loops[i].cur) in s.slots)
  }

  ghost predicate SlotsOk(s: State)
    requires ClientsOk(s)
  {
    && |s.slots| == |s.loops|
    && BackupSlots.NoDuplicates(s.slots)
    && (forall j :: 0 <= j < |s.slots| && s.slots[j].Some? ==>
          s.slots[j].value < |s.clients| && InSlot(StageOf(s, s.slots[j].value)))
  }

  predicate DonePending(s: State) {
    s.lock.ByLoop? && s.lock.i < |s.loops| && s.loops[s.lock.i].stage.DoneWg?
  }

  predicate Chosen(m: Master) {
    m.LockClient? || m.Checking? || m.Setting? || m.Adding? || m.Unlocking?
  }

  ghost predicate MasterOk(s: State)
    requires ClientsOk(s) && SlotsOk(s)
  {
    && (s.lock.ByMaster? <==> s.master.Scanning?)
    && (s.lock.ByLoop? ==> s.lock.i < |s.loops|)
    && s.token <= 1
    && (Chosen(s.master) ==> s.master.c < |s.clients|)
    && (Chosen(s.master) ==> InSlot(StageOf(s, s.master.c)) || Received(StageOf(s, s.master.c)))
    && (s.master.Setting? || s.master.Adding? ==> !s.clients[s.master.c].closed)
  }

  /** The slot holds a client that is not closed. */
  predicate OpenSlot(s: State, j: nat)
    requires j < |s.slots|
  {
    s.slots[j].Some? && s.slots[j].value < |s.clients| && !s.clients[s.slots[j].value].closed
  }

  ghost predicate ScanOk(s: State) {
    s.master.Scanning? ==>
      var i, acc := s.master.i, s.master.acc;
      && i <= |s.slots|
      && (acc.first == -1 ==> acc.best.None? && forall j :: 0 <= j < i && j < |s.slots| ==> !OpenSlot(s, j))
      && (acc.first != -1 ==> 0 <= acc.first < |s.slots| && s.slots[acc.first].Some?)
      && (acc.best.Some? ==> acc.best in s.slots)
  }

  /** A master waiting for a token will find one if any slot is open, or a loop inside
      `addBackup` is about to post it. */
  ghost predicate TokenOk(s: State)
    requires ClientsOk(s) && SlotsOk(s)
  {
    s.master.Receiving? && s.token == 0 ==>
      forall j :: 0 <= j < |s.slots| && OpenSlot(s, j) ==> StageOf(s, s.slots[j].value).Post?
  }

  ghost predicate GroupOk(s: State)
    requires ClientsOk(s)
  {
    && (s.active.Some? ==> s.active.value < |s.clients| && ActiveStage(StageOf(s, s.active.value)))
    && match s.master
       case Adding(c) => s.active == Some(c) && s.wg == 0 && !DonePending(s)
       case Unlocking(_) => Balanced(s)
       case Waiting => Balanced(s)
       case _ => s.active.None? && s.wg == 0 && !DonePending(s)
  }

  /** The active slave is in a slot, or its own `delBackup` is about to deactivate it. */
  predicate ActiveStage(st: Stage) {
    InSlot(st) || st.Disown? || st.Deactivate?
  }

  /** The WaitGroup counts the active slave, or the one just deactivated and not yet counted off. */
  ghost predicate Balanced(s: State) {
    && !(s.active.Some? && DonePending(s))
    && s.wg == if s.active.Some? || DonePending(s) then 1 else 0
  }

  ghost predicate Inv(s: State) {
    && !s.panicked
    && ClientsOk(s) && LoopsOk(s) && SlotsOk(s)
    && MasterOk(s) && ScanOk(s) && TokenOk(s) && GroupOk(s)
  }

  lemma {:induction false} InitInv(n: nat)
    ensures Inv(Init(n))
  {
  }

  // ----- Frames -----

  /** Loop `i` moves on to `stage`: at most its own client changes, none opens or closes, and
      slots and master stay. */
  ghost predicate Moved(s: State, s': State, i: nat, stage: Stage) {
    && i < |s.loops| && !s.loops[i].stage.Dial? && !stage.Gone? && s.loops[i].cur < |s.clients|
    && s'.loops == s.loops[i := Loop(stage, s.loops[i].cur)]
    && |s'.clients| == |s.clients|
    && (forall c :: 0 <= c < |s.clients| && c != s.loops[i].cur ==> s'.clients[c] == s.clients[c])
    && s'.clients[s.loops[i].cur].owner == i && s'.clients[s.loops[i].cur].closed == s.clients[s.loops[i].cur].closed
    && s'.slots == s.slots && InSlot(stage) == InSlot(s.loops[i].stage)
    && (Critical(stage) <==> s'.lock == ByLoop(i))
    && (s'.lock == s.lock || (s.lock.Free? && s'.lock == ByLoop(i)) || (s.lock == ByLoop(i) && s'.lock.Free?))
    && s'.master == s.master
  }

  /** A client whose loop goes back to `Dial` is finished. */
  function Shown(stage: Stage): Stage {
    if stage.Dial? then Gone else stage
  }

  lemma {:induction false} LoopMoves(s: State, s': State, i: nat, stage: Stage)
    requires ClientsOk(s) && LoopsOk(s) && SlotsOk(s) && Moved(s, s', i, stage)
    requires ClientOk(s'.clients[s.loops[i].cur], Shown(stage))
    ensures ClientsOk(s') && LoopsOk(s') && SlotsOk(s')
    ensures forall c :: 0 <= c < |s.clients| ==>
      StageOf(s', c) == if c == s.loops[i].cur then Shown(stage) else StageOf(s, c)
  {
    StagesAfter(s, s', i, stage);
  }

  lemma {:induction false} MasterSurvives(s: State, s': State, i: nat, stage: Stage)
    requires ClientsOk(s) && LoopsOk(s) && SlotsOk(s) && MasterOk(s) && Moved(s, s', i, stage)
    requires ClientsOk(s') && SlotsOk(s')
    requires s'.token <= 1
    requires Received(s.loops[i].stage) ==> Received(Shown(stage))
    ensures MasterOk(s')
  {
    StagesAfter(s, s', i, stage);
  }

  lemma {:induction false} TokenSurvives(s: State, s': State, i: nat, stage: Stage)
    requires ClientsOk(s) && LoopsOk(s) && SlotsOk(s) && TokenOk(s) && Moved(s, s', i, stage)
    requires ClientsOk(s') && SlotsOk(s')
    requires if s.loops[i].stage.Post? then s'.token == 1 else s'.token == s.token
    ensures TokenOk(s')
  {
    StagesAfter(s, s', i, stage);
  }

  /** A step that changes neither the active slave nor the WaitGroup. */
  lemma {:induction false} GroupSurvives(s: State, s': State, i: nat, stage: Stage)
    requires ClientsOk(s) && LoopsOk(s) && SlotsOk(s) && GroupOk(s) && Moved(s, s', i, stage)
    requires ClientsOk(s')
    requires s'.active == s.active && s'.wg == s.wg && !s.loops[i].stage.DoneWg? && !stage.DoneWg?
    requires ActiveStage(s.loops[i].stage) && s.active == Some(s.loops[i].cur) ==> ActiveStage(stage)
    ensures GroupOk(s')
  {
    StagesAfter(s, s', i, stage);
  }

  /** Everything but the group survives a move. */
  lemma {:induction false} MoveSurvives(s: State, s': State, i: nat, stage: Stage)
    requires Inv(s) && Moved(s, s', i, stage) && !s'.panicked
    requires ClientOk(s'.clients[s.loops[i].cur], Shown(stage))
    requires if s.loops[i].stage.Post? then s'.token == 1 else s'.token == s.token
    requires Received(s.loops[i].stage) ==> Received(Shown(stage))
    ensures ClientsOk(s') && (GroupOk(s') ==> Inv(s'))
  {
    LoopMoves(s, s', i, stage);
    MasterSurvives(s, s', i, stage);
    TokenSurvives(s, s', i, stage);
    ScanSurvives(s, s');
  }

  lemma {:induction false} MoveKeeps(s: State, s': State, i: nat, stage: Stage)
    requires Inv(s) && Moved(s, s', i, stage) && !s'.panicked
    requires ClientOk(s'.clients[s.loops[i].cur], Shown(stage))
    requires if s.loops[i].stage.Post? then s'.token == 1 else s'.token == s.token
    requires Received(s.loops[i].stage) ==> Received(Shown(stage))
    requires s'.active == s.active && s'.wg == s.wg && !s.loops[i].stage.DoneWg? && !stage.DoneWg?
    requires ActiveStage(s.loops[i].stage) && s.active == Some(s.loops[i].cur) ==> ActiveStage(stage)
    ensures Inv(s')
  {
    MoveSurvives(s, s', i, stage);
    GroupSurvives(s, s', i, stage);
  }

  /** Moving loop `i` on changes the stage of its current client only. */
  lemma {:induction false} StagesAfter(s: State, s': State, i: nat, stage: Stage)
    requires ClientsOk(s) && i < |s.loops| && !s.loops[i].stage.Dial? && s.loops[i].cur < |s.clients|
    requires s.clients[s.loops[i].cur].owner == i
    requires s'.loops == s.loops[i := Loop(stage, s.loops[i].cur)]
    requires |s'.clients| == |s.clients|
    requires forall c :: 0 <= c < |s.clients| ==> s'.clients[c].owner == s.clients[c].owner
    ensures forall c :: 0 <= c < |s.clients| ==>
      StageOf(s', c) == if c == s.loops[i].cur then Shown(stage) else StageOf(s, c)
  {
  }

  /** With the same loops and owners every client is at the same stage. */
  lemma {:induction false} SameStages(s: State, s': State)
    requires ClientsOk(s) && s'.loops == s.loops && |s'.clients| == |s.clients|
    requires forall c :: 0 <= c < |s.clients| ==> s'.clients[c].owner == s.clients[c].owner
    ensures forall c :: 0 <= c < |s.clients| ==> StageOf(s', c) == StageOf(s, c)
  {
  }

  /** What the master relies on survives a step in which no chosen client leaves and none opens. */
  lemma {:induction false} ScanSurvives(s: State, s': State)
    requires ScanOk(s) && s'.master == s.master && s'.slots == s.slots && |s'.clients| == |s.clients|
    requires forall c :: 0 <= c < |s.clients| ==> s.clients[c].closed ==> s'.clients[c].closed
    ensures ScanOk(s')
    ensures forall j :: 0 <= j < |s.slots| ==> OpenSlot(s', j) ==> OpenSlot(s, j)
  {
    assert forall j :: 0 <= j < |s.slots| ==> OpenSlot(s', j) ==> OpenSlot(s, j);
  }

  // ----- Loop steps -----

  /** Loop `i`, outside the slots, finds one free: the others have at most one each. */
  lemma {:induction false} FreeSlotExists(s: State, i: nat)
    requires ClientsOk(s) && LoopsOk(s) && SlotsOk(s)
    requires i < |s.loops| && !InSlot(s.loops[i].stage)
    ensures None in s.slots
  {
    if None !in s.slots {
      var owners := seq(|s.slots|, j requires 0 <= j < |s.slots| => SlotOwner(s, j));
      forall j, k | 0 <= j < k < |owners| ensures owners[j] != owners[k] {
        assert s.slots[j] in s.slots && s.slots[k] in s.slots;
      }
      forall j | 0 <= j < |owners| ensures owners[j] < |s.slots| && owners[j] != i {
        assert s.slots[j] in s.slots;
      }
      Counting.DistinctHitsAll(owners, |s.slots|, i);
      assert false;
    }
  }

  function SlotOwner(s: State, j: nat): nat
    requires j < |s.slots|
  {
    if s.slots[j].Some? && s.slots[j].value < |s.clients| then s.clients[s.slots[j].value].owner else 0
  }

  lemma {:induction false} DialStages(s: State, i: nat)
    requires Inv(s) && Enabled(s, LoopStep(i)) && s.loops[i].stage.Dial?
    ensures ClientsOk(LoopNext(s, i))
    ensures forall c :: 0 <= c < |s.clients| ==> StageOf(LoopNext(s, i), c) == StageOf(s, c)
  {
  }

  lemma {:induction false} DialLoops(s: State, i: nat)
    requires Inv(s) && Enabled(s, LoopStep(i)) && s.loops[i].stage.Dial?
    ensures LoopsOk(LoopNext(s, i))
    ensures forall j :: 0 <= j < |s.slots| ==> OpenSlot(LoopNext(s, i), j) ==> OpenSlot(s, j)
  {
  }

  lemma {:induction false} DialKeeps(s: State, i: nat)
    requires Inv(s) && Enabled(s, LoopStep(i)) && s.loops[i].stage.Dial?
    ensures Inv(LoopNext(s, i))
  {
    DialStages(s, i);
    DialLoops(s, i);
  }

  lemma {:induction false} AddLockKeeps(s: State, i: nat)
    requires Inv(s) && Enabled(s, LoopStep(i)) && s.loops[i].stage.AddLock?
    ensures Inv(LoopNext(s, i))
  {
    MoveKeeps(s, LoopNext(s, i), i, Place);
  }

  lemma {:induction false} PlaceSlots(s: State, i: nat)
    requires Inv(s) && Enabled(s, LoopStep(i)) && s.loops[i].stage.Place?
    ensures None in s.slots && Some(s.loops[i].cur) !in s.slots
  {
    FreeSlotExists(s, i);
  }

  lemma {:induction false} PlaceStages(s: State, i: nat)
    requires Inv(s) && Enabled(s, LoopStep(i)) && s.loops[i].stage.Place?
    ensures forall c :: 0 <= c < |s.clients| && c != s.loops[i].cur ==> StageOf(LoopNext(s, i), c) == StageOf(s, c)
    ensures s.loops[i].cur < |s.clients| && StageOf(LoopNext(s, i), s.loops[i].cur).Post?
    ensures ClientsOk(LoopNext(s, i))
  {
    StagesAfter(s, LoopNext(s, i), i, Post);
  }

  lemma {:induction false} PlaceLoops(s: State, i: nat)
    requires Inv(s) && Enabled(s, LoopStep(i)) && s.loops[i].stage.Place?
    requires None in s.slots && Some(s.loops[i].cur) !in s.slots
    ensures LoopsOk(LoopNext(s, i))
  {
    BackupSlots.RemovedUndoesPlaced(s.slots, s.loops[i].cur);
  }

  lemma {:induction false} PlaceKeeps(s: State, i: nat)
    requires Inv(s) && Enabled(s, LoopStep(i)) && s.loops[i].stage.Place?
    ensures Inv(LoopNext(s, i))
  {
    PlaceSlots(s, i);
    PlaceStages(s, i);
    PlaceLoops(s, i);
    BackupSlots.RemovedUndoesPlaced(s.slots, s.loops[i].cur);
  }

  lemma {:induction false} PostKeeps(s: State, i: nat)
    requires Inv(s) && Enabled(s, LoopStep(i)) && s.loops[i].stage.Post?
    ensures Inv(LoopNext(s, i))
  {
    MoveKeeps(s, LoopNext(s, i), i, Adopt);
  }

  lemma {:induction false} AdoptKeeps(s: State, i: nat)
    requires Inv(s) && Enabled(s, LoopStep(i)) && s.loops[i].stage.Adopt?
    ensures Inv(LoopNext(s, i))
  {
    MoveKeeps(s, LoopNext(s, i), i, Start);
  }

  lemma {:induction false} StartKeeps(s: State, i: nat)
    requires Inv(s) && Enabled(s, LoopStep(i)) && s.loops[i].stage.Start?
    ensures Inv(LoopNext(s, i))
  {
    MoveKeeps(s, LoopNext(s, i), i, Wait);
  }

  lemma {:induction false} WaitKeeps(s: State, i: nat)
    requires Inv(s) && Enabled(s, LoopStep(i)) && s.loops[i].stage.Wait?
    ensures Inv(LoopNext(s, i))
  {
    MoveKeeps(s, LoopNext(s, i), i, DelCheck);
  }

  lemma {:induction false} DelCheckKeeps(s: State, i: nat)
    requires Inv(s) && Enabled(s, LoopStep(i)) && s.loops[i].stage.DelCheck?
    ensures Inv(LoopNext(s, i))
  {
    MoveKeeps(s, LoopNext(s, i), i, DelLock);
  }

  lemma {:induction false} DelLockKeeps(s: State, i: nat)
    requires Inv(s) && Enabled(s, LoopStep(i)) && s.loops[i].stage.DelLock?
    ensures Inv(LoopNext(s, i))
  {
    MoveKeeps(s, LoopNext(s, i), i, Remove);
  }

  lemma {:induction false} RemoveKeeps(s: State, i: nat)
    requires Inv(s) && Enabled(s, LoopStep(i)) && s.loops[i].stage.Remove?
    ensures Inv(LoopNext(s, i))
  {
    var s', c := LoopNext(s, i), s.loops[i].cur;
    StagesAfter(s, s', i, Disown);
    RemoveSlots(s, i);
    RemoveOpens(s, i);
  }

  /** No slot opens, and only that of the client itself is emptied. */
  lemma {:induction false} RemoveOpens(s: State, i: nat)
    requires Inv(s) && Enabled(s, LoopStep(i)) && s.loops[i].stage.Remove?
    ensures |LoopNext(s, i).slots| == |s.slots|
    ensures forall j :: 0 <= j < |s.slots| ==> OpenSlot(LoopNext(s, i), j) ==> OpenSlot(s, j)
    ensures ScanOk(LoopNext(s, i))
  {
    var c := s.loops[i].cur;
    assert Some(c) in s.slots;
    var k := BackupSlots.FirstWith(s.slots, c, 0);
    assert LoopNext(s, i).slots == s.slots[k := None];
  }

  lemma {:induction false} RemoveSlots(s: State, i: nat)
    requires Inv(s) && Enabled(s, LoopStep(i)) && s.loops[i].stage.Remove?
    ensures ClientsOk(LoopNext(s, i)) && LoopsOk(LoopNext(s, i)) && SlotsOk(LoopNext(s, i))
  {
    var s', c := LoopNext(s, i), s.loops[i].cur;
    StagesAfter(s, s', i, Disown);
    assert Some(c) in s.slots;
    RemoveLoops(s, i);
  }

  lemma {:induction false} RemoveLoops(s: State, i: nat)
    requires Inv(s) && Enabled(s, LoopStep(i)) && s.loops[i].stage.Remove?
    ensures LoopsOk(LoopNext(s, i))
  {
    var s', c := LoopNext(s, i), s.loops[i].cur;
    var k := BackupSlots.FirstWith(s.slots, c, 0);
    forall m | 0 <= m < |s.loops| && m != i && InSlot(s.loops[m].stage) ensures Some(s.loops[m].cur) in s'.slots {
      var j :| 0 <= j < |s.slots| && s.slots[j] == Some(s.loops[m].cur);
      assert s.loops[m].cur != c;
      assert s'.slots[j] == s.slots[j];
    }
  }

  lemma {:induction false} DisownKeeps(s: State, i: nat)
    requires Inv(s) && Enabled(s, LoopStep(i)) && s.loops[i].stage.Disown?
    ensures Inv(LoopNext(s, i))
  {
    MoveKeeps(s, LoopNext(s, i), i, Deactivate);
  }

  lemma {:induction false} DeactivateKeeps(s: State, i: nat)
    requires Inv(s) && Enabled(s, LoopStep(i)) && s.loops[i].stage.Deactivate?
    ensures Inv(LoopNext(s, i))
  {
    if s.active == Some(s.loops[i].cur) {
      MoveSurvives(s, LoopNext(s, i), i, DoneWg);
    } else {
      MoveKeeps(s, LoopNext(s, i), i, DelUnlock);
    }
  }

  lemma {:induction false} DoneWgKeeps(s: State, i: nat)
    requires Inv(s) && Enabled(s, LoopStep(i)) && s.loops[i].stage.DoneWg?
    ensures Inv(LoopNext(s, i))
  {
    MoveSurvives(s, LoopNext(s, i), i, DelUnlock);
  }

  lemma {:induction false} DelUnlockKeeps(s: State, i: nat)
    requires Inv(s) && Enabled(s, LoopStep(i)) && s.loops[i].stage.DelUnlock?
    ensures Inv(LoopNext(s, i))
  {
    MoveKeeps(s, LoopNext(s, i), i, CloseBox);
  }

  lemma {:induction false} CloseBoxKeeps(s: State, i: nat)
    requires Inv(s) && Enabled(s, LoopStep(i)) && s.loops[i].stage.CloseBox?
    ensures Inv(LoopNext(s, i))
  {
    MoveKeeps(s, LoopNext(s, i), i, Dial);
  }

  lemma {:induction false} LoopKeeps(s: State, i: nat)
    requires Inv(s) && Enabled(s, LoopStep(i))
    ensures Inv(LoopNext(s, i))
  {
    match s.loops[i].stage {
      case Dial => DialKeeps(s, i);
      case AddLock => AddLockKeeps(s, i);
      case Place => PlaceKeeps(s, i);
      case Post => PostKeeps(s, i);
      case Adopt => AdoptKeeps(s, i);
      case Start => StartKeeps(s, i);
      case Wait => WaitKeeps(s, i);
      case DelCheck => DelCheckKeeps(s, i);
      case DelLock => DelLockKeeps(s, i);
      case Remove => RemoveKeeps(s, i);
      case Disown => DisownKeeps(s, i);
      case Deactivate => DeactivateKeeps(s, i);
      case DoneWg => DoneWgKeeps(s, i);
      case DelUnlock => DelUnlockKeeps(s, i);
      case CloseBox => CloseBoxKeeps(s, i);
    }
  }

  // ----- The other steps -----

  /** Master steps touch neither clients, loops nor slots. */
  lemma {:induction false} MasterFrame(s: State, s': State)
    requires ClientsOk(s) && LoopsOk(s) && SlotsOk(s)
    requires s'.clients == s.clients && s'.loops == s.loops && s'.slots == s.slots
    requires (!s.lock.ByLoop? && !s'.lock.ByLoop?) || s'.lock == s.lock
    ensures ClientsOk(s') && LoopsOk(s') && SlotsOk(s')
    ensures forall c :: 0 <= c < |s.clients| ==> StageOf(s', c) == StageOf(s, c)
    ensures forall j :: 0 <= j < |s.slots| ==> (OpenSlot(s', j) <==> OpenSlot(s, j))
  {
    SameStages(s, s');
  }

  lemma {:induction false} MasterScanKeeps(s: State, delay: int)
    requires Inv(s) && Enabled(s, MasterStep(delay)) && s.master.Scanning?
    ensures Inv(MasterNext(s, delay))
  {
    MasterFrame(s, MasterNext(s, delay));
    if s.master.i < |s.slots| {
      assert s.slots[s.master.i] in s.slots;
    } else if 0 <= s.master.acc.first {
      assert s.slots[s.master.acc.first] in s.slots;
    }
  }

  lemma {:induction false} MasterOtherKeeps(s: State, delay: int)
    requires Inv(s) && Enabled(s, MasterStep(delay)) && !s.master.Scanning?
    ensures Inv(MasterNext(s, delay))
  {
    MasterFrame(s, MasterNext(s, delay));
  }

  lemma {:induction false} CloseKeeps(s: State, c: nat)
    requires Inv(s) && Enabled(s, CloseStep(c))
    ensures Inv(CloseNext(s, c))
  {
    var s' := CloseNext(s, c);
    SameStages(s, s');
    ScanSurvives(s, s');
  }

  /** The sender never finds the channel full or closed. */
  lemma {:induction false} SendKeeps(s: State, c: nat)
    requires Inv(s) && c < |s.clients| && s.clients[c].closing > 0
    ensures Enabled(s, SendStep(c)) && s.clients[c].box == 0 && !s.clients[c].boxClosed
    ensures Inv(SendNext(s, c))
  {
    var s' := SendNext(s, c);
    SameStages(s, s');
    ScanSurvives(s, s');
  }

  lemma {:induction false} NextKeeps(s: State, a: Action)
    requires Inv(s) && Enabled(s, a)
    ensures Inv(Next(s, a))
  {
    match a {
      case LoopStep(i) => LoopKeeps(s, i);
      case MasterStep(delay) =>
        if s.master.Scanning? {
          MasterScanKeeps(s, delay);
        } else {
          MasterOtherKeeps(s, delay);
        }
      case CloseStep(c) => CloseKeeps(s, c);
      case SendStep(c) => SendKeeps(s, c);
    }
  }

  // ----- Every reachable state -----

  lemma {:induction false} RunKeeps(s: State, actions: seq<Action>)
    requires Inv(s) && IsRun(s, actions)
    ensures Inv(Final(s, actions))
    decreases |actions|
  {
    if |actions| > 0 {
      NextKeeps(s, actions[0]);
      RunKeeps(Next(s, actions[0]), actions[1..]);
    }
  }

  /** What panics: a client that is removed and was not added, a WaitGroup that falls below 0, and a
      second close of `reconnect` or a send to it once it is closed. */
  lemma {:induction false} PanicsExactly(s: State, a: Action)
    requires Enabled(s, a)
    ensures Next(s, a).panicked <==>
      match a
      case LoopStep(i) =>
        var stage, c := s.loops[i].stage, s.loops[i].cur;
        || (stage.DelCheck? && !s.clients[c].adopted)
        || (stage.DoneWg? && s.wg < 1)
        || (stage.CloseBox? && s.clients[c].boxClosed)
      case SendStep(c) => s.clients[c].boxClosed
      case _ => false
  {
  }

  /** The WaitGroup is 0 or 1, and is 1 exactly when a slave is active, except between the two
      statements that set the one and then the other; nothing ever panics. */
  lemma {:induction false} WaitGroupTracksActive(n: nat, actions: seq<Action>)
    requires IsRun(Init(n), actions)
    ensures var s := Final(Init(n), actions);
      && !s.panicked && 0 <= s.wg <= 1
      && (!s.master.Adding? && !DonePending(s) ==> (s.wg == 1 <==> s.active.Some?))
      && (s.master.Adding? ==> s.wg == 0 && s.active == Some(s.master.c))
      && (DonePending(s) ==> s.wg == 1 && s.active.None?)
  {
    InitInv(n);
    RunKeeps(Init(n), actions);
  }

  /** The active slave is in a slot, unless its own loop is inside `delBackup`, has just freed
      the slot and holds the lock. */
  lemma {:induction false} ActiveIsInSlot(n: nat, actions: seq<Action>)
    requires IsRun(Init(n), actions)
    ensures var s := Final(Init(n), actions);
      s.active.Some? ==>
        || s.active in s.slots
        || (s.lock.ByLoop? && s.lock.i < |s.loops| && Some(s.loops[s.lock.i].cur) == s.active
            && (s.loops[s.lock.i].stage.Disown? || s.loops[s.lock.i].stage.Deactivate?))
  {
    InitInv(n);
    RunKeeps(Init(n), actions);
  }

  lemma {:induction false} SizeFixed(s: State, actions: seq<Action>)
    requires IsRun(s, actions)
    ensures |Final(s, actions).loops| == |s.loops|
    decreases |actions|
  {
    if |actions| > 0 {
      SizeFixed(Next(s, actions[0]), actions[1..]);
    }
  }

  /** A master about to block on an empty `backupChan` has not overlooked an open client: any in
      a slot was placed since the scan, by a loop that is inside `addBackup` and whose next
      statement, which nothing can hold up, posts the token. */
  lemma {:induction false} MasterNeverMissesOpenSlave(n: nat, actions: seq<Action>, j: nat)
    requires IsRun(Init(n), actions)
    requires var s := Final(Init(n), actions);
      s.master.Receiving? && s.token == 0 && j < |s.slots| && OpenSlot(s, j)
    ensures var s := Final(Init(n), actions);
      && s.lock.ByLoop? && Enabled(s, LoopStep(s.lock.i))
      && s.loops[s.lock.i].stage.Post? && LoopNext(s, s.lock.i).token == 1
  {
    InitInv(n);
    RunKeeps(Init(n), actions);
  }

  /** Every slave's `reconnect` is sent to at most once: one goroutine per closed slave is about
      to send or has sent, and its send can always proceed, on an open and empty channel. */
  lemma {:induction false} ReconnectSentOnce(n: nat, actions: seq<Action>, c: nat)
    requires IsRun(Init(n), actions) && c < |Final(Init(n), actions).clients|
    ensures var s := Final(Init(n), actions);
      var cl := s.clients[c];
      && cl.closing + cl.sends == (if cl.closed then 1 else 0)
      && (cl.closing > 0 ==> Enabled(s, SendStep(c)) && cl.box == 0 && !cl.boxClosed)
      && (cl.boxClosed ==> cl.sends == 1 && cl.box == 0)
  {
    InitInv(n);
    RunKeeps(Init(n), actions);
    var s := Final(Init(n), actions);
    if s.clients[c].closing > 0 {
      SendKeeps(s, c);
    }
  }

  /** A client that `addBackup` has taken in is in exactly one slot until `delBackup` frees it,
      and `delBackup` finds it its own: no client is lost for want of a slot. */
  lemma {:induction false} BackedUpInOneSlot(n: nat, actions: seq<Action>, i: nat)
    requires IsRun(Init(n), actions) && i < n
    ensures var s := Final(Init(n), actions);
      && |s.loops| == n
      && (InSlot(s.loops[i].stage) ==>
           exists j :: 0 <= j < |s.slots| && s.slots[j] == Some(s.loops[i].cur)
             && forall k :: 0 <= k < |s.slots| && s.slots[k] == s.slots[j] ==> k == j)
      && (s.loops[i].stage.DelCheck? ==> s.loops[i].cur < |s.clients| && s.clients[s.loops[i].cur].adopted)
  {
    InitInv(n);
    RunKeeps(Init(n), actions);
    SizeFixed(Init(n), actions);
    var s := Final(Init(n), actions);
    if InSlot(s.loops[i].stage) {
      var j :| 0 <= j < |s.slots| && s.slots[j] == Some(s.loops[i].cur);
      forall k | 0 <= k < |s.slots| && s.slots[k] == s.slots[j] ensures k == j {
      }
    }
  }

  /** The holder of the lock is never itself blocked. */
  lemma {:induction false} HolderCanMove(s: State)
    requires Inv(s) && s.lock.ByLoop?
    ensures Enabled(s, LoopStep(s.lock.i))
  {
  }
}
