/** The failover protocol of `src/vnet/bakLink.go` with `Close` and `Reconnect` of
    `src/vnet/client.go`, as a step system: one reconnecting loop per backup address
    (`BackupClient`), any number of goroutines that close a slave, and the master loop
    (`MasterWorking`). A step is one statement that touches shared state. */
module Failover {
  import opened Machine
  import opened BackupSlots

  // ----- State -----

  /** Where a `BackupClient` loop is; the statement named is the next one. `Gone` stands for a
      client whose loop has moved on. */
  datatype Stage =
    | Dial | AddLock | Place | Post | Adopt | Start | Wait
    | DelCheck | DelLock | Remove | Disown | Deactivate | DoneWg | DelUnlock | CloseBox | Gone

  datatype Loop = Loop(stage: Stage, cur: nat)

  /** A slave client. `closing` counts goroutines that have won `Close` and not yet sent;
      `box` is the content of the one-place channel `reconnect`, `sends` all sends to it. */
  datatype Client = Client(owner: nat, working: bool, closed: bool, adopted: bool,
                           closing: nat, sends: nat, box: nat, boxClosed: bool)

  datatype Master =
    | ScanLock | Scanning(i: nat, acc: Scan<nat>) | Receiving
    | LockClient(c: nat) | Checking(c: nat) | Setting(c: nat) | Adding(c: nat) | Unlocking(c: nat) | Waiting

  /** Who holds the lock of the backup link. */
  datatype Holder = Free | ByMaster | ByLoop(i: nat)

  datatype State = State(
    slots: seq<Option<nat>>,
    token: nat,
    active: Option<nat>,
    wg: int,
    lock: Holder,
    clients: seq<Client>,
    loops: seq<Loop>,
    master: Master,
    panicked: bool)

  function Init(n: nat): State {
    State(seq(n, _ => None), 0, None, 0, Free, [], seq(n, _ => Loop(Dial, 0)), ScanLock, false)
  }

  // ----- Steps -----

  function NewClient(owner: nat): Client {
    Client(owner, false, false, false, 0, 0, 0, false)
  }

  predicate MasterHolds(m: Master, c: nat) {
    (m.Checking? || m.Setting? || m.Adding? || m.Unlocking?) && m.c == c
  }

  datatype Action =
    | LoopStep(i: nat)
    | MasterStep(delay: int)
    | CloseStep(c: nat)
    | SendStep(c: nat)

  predicate Enabled(s: State, a: Action) {
    !s.panicked && match a
    case LoopStep(i) =>
      && i < |s.loops|
      && var l := s.loops[i];
      && (l.stage != Dial ==> l.cur < |s.clients|)
      && (l.stage == AddLock || l.stage == DelLock ==> s.lock.Free?)
      && (l.stage == Wait ==> s.clients[l.cur].box > 0)
      && l.stage != Gone
    case MasterStep(_) =>
      && (s.master.ScanLock? ==> s.lock.Free?)
      && (s.master.Scanning? ==> s.master.i <= |s.slots| && SlotsInRange(s))
      && (s.master.Receiving? ==> s.token > 0)
      && (s.master.Checking? ==> s.master.c < |s.clients|)
      && (s.master.Waiting? ==> s.wg == 0)
    case CloseStep(c) =>
      c < |s.clients| && s.clients[c].working && !MasterHolds(s.master, c)
    case SendStep(c) =>
      c < |s.clients| && s.clients[c].closing > 0 && (s.clients[c].box == 0 || s.clients[c].boxClosed)
  }

  predicate SlotsInRange(s: State) {
    forall j :: 0 <= j < |s.slots| && s.slots[j].Some? ==> s.slots[j].value < |s.clients|
  }

  /** `s` with loop `i` at `stage`. */
  function At(s: State, i: nat, stage: Stage): State
    requires i < |s.loops|
  {
    s.(loops := s.loops[i := s.loops[i].(stage := stage)])
  }

  /** `s` with client `c` replaced. */
  function With(s: State, c: nat, cl: Client): State
    requires c < |s.clients|
  {
    s.(clients := s.clients[c := cl])
  }

  function LoopNext(s: State, i: nat): State
    requires Enabled(s, LoopStep(i))
  {
    var l := s.loops[i];
    var c := l.cur;
    match l.stage
    case Dial => s.(clients := s.clients + [NewClient(i)], loops := s.loops[i := Loop(AddLock, |s.clients|)])
    case AddLock => At(s, i, Place).(lock := ByLoop(i))
    case Place => At(s, i, Post).(slots := Placed(s.slots, c))
    case Post => At(s, i, Adopt).(token := if s.token == 0 then 1 else s.token)
    case Adopt => With(At(s, i, Start), c, s.clients[c].(adopted := true)).(lock := Free)
    case Start => With(At(s, i, Wait), c, s.clients[c].(working := true))
    case Wait => With(At(s, i, DelCheck), c, s.clients[c].(box := s.clients[c].box - 1))
    case DelCheck => At(s, i, DelLock).(panicked := !s.clients[c].adopted)
    case DelLock => At(s, i, Remove).(lock := ByLoop(i))
    case Remove => At(s, i, Disown).(slots := Removed(s.slots, c))
    case Disown => With(At(s, i, Deactivate), c, s.clients[c].(adopted := false))
    case Deactivate =>
      if s.active == Some(c) then At(s, i, DoneWg).(active := None) else At(s, i, DelUnlock)
    case DoneWg => At(s, i, DelUnlock).(wg := s.wg - 1, panicked := s.wg - 1 < 0)
    case DelUnlock => At(s, i, CloseBox).(lock := Free)
    case CloseBox =>
      With(At(s, i, Dial), c, s.clients[c].(boxClosed := true)).(panicked := s.clients[c].boxClosed)
    case Gone => s
  }

  function MasterNext(s: State, delay: int): State
    requires Enabled(s, MasterStep(delay))
  {
    match s.master
    case ScanLock => s.(lock := ByMaster, master := Scanning(0, NewScan()))
    case Scanning(i, acc) =>
      if i < |s.slots| then
        var closed := s.slots[i].Some? && s.clients[s.slots[i].value].closed;
        s.(master := Scanning(i + 1, ScanSlot(acc, i, s.slots[i], closed, delay)))
      else
        var bc := ScanResult(acc, s.slots);
        s.(lock := Free, master := if bc.None? then Receiving else LockClient(bc.value))
    case Receiving => s.(token := s.token - 1, master := ScanLock)
    case LockClient(c) => s.(master := Checking(c))
    case Checking(c) => s.(master := if s.clients[c].closed then Unlocking(c) else Setting(c))
    case Setting(c) => s.(active := Some(c), master := Adding(c))
    case Adding(c) => s.(wg := s.wg + 1, master := Unlocking(c))
    case Unlocking(c) => s.(master := Waiting)
    case Waiting => s.(master := ScanLock)
  }

  /** `Close` by some goroutine: the first one wins and will send, the others get an error. */
  function CloseNext(s: State, c: nat): State
    requires Enabled(s, CloseStep(c))
  {
    var cl := s.clients[c];
    if cl.closed then s else With(s, c, cl.(closed := true, closing := cl.closing + 1))
  }

  /** `c.reconnect <- true`; a send on a closed channel panics. */
  function SendNext(s: State, c: nat): State
    requires Enabled(s, SendStep(c))
  {
    var cl := s.clients[c];
    var box := if cl.boxClosed then cl.box else cl.box + 1;
    With(s, c, cl.(closing := cl.closing - 1, sends := cl.sends + 1, box := box))
    .(panicked := cl.boxClosed)
  }

  function Next(s: State, a: Action): State
    requires Enabled(s, a)
  {
    match a
    case LoopStep(i) => LoopNext(s, i)
    case MasterStep(delay) => MasterNext(s, delay)
    case CloseStep(c) => CloseNext(s, c)
    case SendStep(c) => SendNext(s, c)
  }

  /** A run: every action is enabled when it is taken. */
  ghost predicate IsRun(s: State, actions: seq<Action>)
    decreases |actions|
  {
    |actions| == 0 || (Enabled(s, actions[0]) && IsRun(Next(s, actions[0]), actions[1..]))
  }

  ghost function Final(s: State, actions: seq<Action>): State
    requires IsRun(s, actions)
    decreases |actions|
  {
    if |actions| == 0 then s else Final(Next(s, actions[0]), actions[1..])
  }
}
