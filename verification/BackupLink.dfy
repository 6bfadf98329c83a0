/** The slots of `src/vnet/bakLink.go` and the choice of the active slave, as they run under the
    lock of the backup link. */
module BackupSlots {
  import opened Machine

  /** `time.Duration` is an int64; the scan starts from its maximum. */
  const MAX_DURATION := 0x7FFF_FFFF_FFFF_FFFF

  // ----- addBackup, delBackup -----

  /** The first free slot at or after `i`, or the number of slots. */
  function FirstEmpty<C>(slots: seq<Option<C>>, i: nat): (k: nat)
    requires i <= |slots|
    ensures i <= k <= |slots|
    ensures forall j :: i <= j < k ==> slots[j].Some?
    ensures k < |slots| ==> slots[k].None?
    decreases |slots| - i
  {
    if i == |slots| || slots[i].None? then i else FirstEmpty(slots, i + 1)
  }

  /** `addBackup`: the first free slot takes the client; with no free slot it is lost. */
  function Placed<C>(slots: seq<Option<C>>, c: C): seq<Option<C>> {
    var k := FirstEmpty(slots, 0);
    if k < |slots| then slots[k := Some(c)] else slots
  }

  function FirstWith<C(==)>(slots: seq<Option<C>>, c: C, i: nat): (k: nat)
    requires i <= |slots|
    ensures i <= k <= |slots|
    ensures forall j :: i <= j < k ==> slots[j] != Some(c)
    ensures k < |slots| ==> slots[k] == Some(c)
    decreases |slots| - i
  {
    if i == |slots| || slots[i] == Some(c) then i else FirstWith(slots, c, i + 1)
  }

  /** `delBackup`: the first slot that holds the client is freed. */
  function Removed<C(==)>(slots: seq<Option<C>>, c: C): seq<Option<C>> {
    var k := FirstWith(slots, c, 0);
    if k < |slots| then slots[k := None] else slots
  }

  /** No client is in two slots. */
  ghost predicate NoDuplicates<C>(slots: seq<Option<C>>) {
    forall i, j :: 0 <= i < j < |slots| && slots[i].Some? ==> slots[i] != slots[j]
  }

  /** Removing undoes placing, on the contents of the slots. */
  lemma {:induction false} RemovedUndoesPlaced<C>(slots: seq<Option<C>>, c: C)
    requires Some(c) !in slots && None in slots
    ensures Some(c) in Placed(slots, c)
    ensures Removed(Placed(slots, c), c) == slots
    ensures NoDuplicates(slots) ==> NoDuplicates(Placed(slots, c))
  {
    var k := FirstEmpty(slots, 0);
    var placed := Placed(slots, c);
    assert placed[k] == Some(c);
    assert forall j :: 0 <= j < k ==> placed[j] == slots[j] != Some(c);
    assert FirstWith(placed, c, 0) == k;
  }

  // ----- choseBackup -----

  datatype Scan<C> = Scan(first: int, best: Option<C>, minDelay: int)

  function NewScan<C>(): Scan<C> {
    Scan(-1, None, MAX_DURATION)
  }

  /** One slot of the scan; `closed` and `delay` are what is read of the client in it. */
  function ScanSlot<C>(acc: Scan<C>, i: nat, slot: Option<C>, closed: bool, delay: int): Scan<C> {
    if slot.None? || closed then acc
    else
      var first := if acc.first == -1 then i else acc.first;
      if delay != 0 && delay < acc.minDelay then Scan(first, slot, delay)
      else acc.(first := first)
  }

  /** The client chosen at the end: the one with the smallest delay, else the first open one. */
  function ScanResult<C>(acc: Scan<C>, slots: seq<Option<C>>): Option<C> {
    if acc.best.None? && 0 <= acc.first < |slots| then slots[acc.first] else acc.best
  }

  class Slave {
    var isClosed: bool
    var delayAvg: int
    var master: BackupLink?
  }

  ghost predicate Open(slot: Option<Slave>)
    reads if slot.Some? then {slot.value} else {}
  {
    slot.Some? && !slot.value.isClosed
  }

  /** An open client whose measured delay can be compared. */
  ghost predicate Measured(slot: Option<Slave>)
    reads if slot.Some? then {slot.value} else {}
  {
    Open(slot) && slot.value.delayAvg != 0 && slot.value.delayAvg < MAX_DURATION
  }

  ghost function Clients(slots: seq<Option<Slave>>): (s: set<Slave>)
    ensures forall i :: 0 <= i < |slots| && slots[i].Some? ==> slots[i].value in s
  {
    set i | 0 <= i < |slots| && slots[i].Some? :: slots[i].value
  }

  /** Slot `k` is open; it has the smallest measured delay, and the earlier slot wins a tie; with
      no measured delay anywhere it is the first open one. */
  ghost predicate IsBest(slots: seq<Option<Slave>>, k: nat)
    reads Clients(slots)
  {
    && k < |slots| && Open(slots[k])
    && ((exists i :: 0 <= i < |slots| && Measured(slots[i])) ==> Measured(slots[k]))
    && (Measured(slots[k]) ==> forall i :: 0 <= i < |slots| && Measured(slots[i]) ==>
          Delay(slots[k]) <= Delay(slots[i]) && (i < k ==> Delay(slots[k]) < Delay(slots[i])))
    && (!Measured(slots[k]) ==> forall i :: 0 <= i < k ==> !Open(slots[i]))
  }

  ghost function Delay(slot: Option<Slave>): int
    reads if slot.Some? then {slot.value} else {}
  {
    if slot.Some? then slot.value.delayAvg else 0
  }

  class BackupLink {
    var backupClients: seq<Option<Slave>>
    var backupChan: nat
    var activeSlave: Slave?
    var wg: int

    constructor (backupNum: nat)
      ensures backupClients == seq(backupNum, _ => None)
      ensures backupChan == 0 && activeSlave == null && wg == 0
    {
      backupClients := seq(backupNum, _ => None);
      backupChan, activeSlave, wg := 0, null, 0;
    }

    method AddBackup(bc: Slave)
      modifies this`backupClients, this`backupChan, bc`master
      ensures backupClients == Placed(old(backupClients), bc)
      ensures backupChan == if old(backupChan) == 0 then 1 else old(backupChan)
      ensures bc.master == this
    {
      var i := 0;
      while i < |backupClients| && backupClients[i].Some?
        invariant 0 <= i <= |backupClients|
        invariant FirstEmpty(backupClients, 0) == FirstEmpty(backupClients, i)
      {
        i := i + 1;
      }
      if i < |backupClients| {
        backupClients := backupClients[i := Some(bc)];
      }
      if backupChan == 0 {
        backupChan := 1;
      }
      bc.master := this;
    }

    /** The source panics unless `bc.master` is this link's client. */
    method DelBackup(bc: Slave)
      requires bc.master == this
      modifies this`backupClients, this`activeSlave, this`wg, bc`master
      ensures backupClients == Removed(old(backupClients), bc)
      ensures bc.master == null
      ensures activeSlave == if old(activeSlave) == bc then null else old(activeSlave)
      ensures wg == old(wg) - if old(activeSlave) == bc then 1 else 0
    {
      var i := 0;
      while i < |backupClients| && backupClients[i] != Some(bc)
        invariant 0 <= i <= |backupClients|
        invariant FirstWith(backupClients, bc, 0) == FirstWith(backupClients, bc, i)
      {
        i := i + 1;
      }
      if i < |backupClients| {
        backupClients := backupClients[i := None];
      }
      bc.master := null;
      if activeSlave == bc {
        activeSlave := null;
        wg := wg - 1;
      }
    }

    /** No client is chosen exactly when none is open; otherwise the best one is. */
    method ChoseBackup() returns (bc: Option<Slave>)
      ensures bc.None? <==> forall i :: 0 <= i < |backupClients| ==> !Open(backupClients[i])
      ensures bc.Some? ==> exists k :: 0 <= k < |backupClients| && backupClients[k] == bc && IsBest(backupClients, k)
    {
      var acc: Scan<Slave> := NewScan();
      var i := 0;
      ghost var at := -1;
      while i < |backupClients|
        invariant 0 <= i <= |backupClients|
        invariant acc.first == -1 ==> forall j :: 0 <= j < i ==> !Open(backupClients[j])
        invariant acc.first != -1 ==> 0 <= acc.first < i && Open(backupClients[acc.first])
        invariant acc.first != -1 ==> forall j :: 0 <= j < acc.first ==> !Open(backupClients[j])
        invariant acc.best.None? ==> acc.minDelay == MAX_DURATION
        invariant acc.best.None? ==> forall j :: 0 <= j < i ==> !Measured(backupClients[j])
        invariant acc.best.Some? ==> 0 <= at < i && backupClients[at] == acc.best && Measured(backupClients[at])
        invariant acc.best.Some? ==> acc.minDelay == acc.best.value.delayAvg
        invariant acc.best.Some? ==> forall j :: 0 <= j < i && Measured(backupClients[j]) ==>
          acc.minDelay <= backupClients[j].value.delayAvg
        invariant acc.best.Some? ==> forall j :: 0 <= j < at && Measured(backupClients[j]) ==>
          acc.minDelay < backupClients[j].value.delayAvg
      {
        if backupClients[i].Some? {
          var c := backupClients[i].value;
          if !c.isClosed && c.delayAvg != 0 && c.delayAvg < acc.minDelay {
            at := i;
          }
          acc := ScanSlot(acc, i, backupClients[i], c.isClosed, c.delayAvg);
        }
        i := i + 1;
      }
      bc := ScanResult(acc, backupClients);
      if acc.best.None? {
        at := acc.first;
      }
      assert bc.Some? ==> backupClients[at] == bc && IsBest(backupClients, at);
    }
  }
}
