/** The membership code of `src/vnet/vid.go` as it runs: the registry of FDBs, the clients with
    their maps, and the loops over id lists and masters. */
module Reconciliation {
  import Counting
  import Fdb
  import opened Membership
  import opened MembershipLists

  /** The registry `FdbMap`, with all FDB objects ever created. */
  class Registry {
    var fdbs: map<nat, nat>
    var objects: seq<FdbObject>

    constructor ()
      ensures fdbs == map[] && objects == []
    {
      fdbs, objects := map[], [];
    }

    /** `NewFdb`. */
    method NewFdbFor(id: nat) returns (o: nat)
      requires id in fdbs ==> fdbs[id] < |objects|
      modifies this
      ensures id in fdbs && o == fdbs[id]
      ensures forall joined :: World(fdbs, objects, joined) == Registered(World(old(fdbs), old(objects), joined), id)
    {
      if id in fdbs {
        return fdbs[id];
      }
      o := |objects|;
      var registered: map<nat, nat> := fdbs[id := o];
      fdbs := registered;
      objects := objects + [FdbObject(id, Fdb.NewFdb())];
    }

    /** `TryToDelFdbById`. */
    method TryToDelFdbById(id: nat)
      requires id in fdbs ==> fdbs[id] < |objects|
      modifies `fdbs
      ensures forall joined :: World(fdbs, objects, joined) == TryToDel(World(old(fdbs), objects, joined), id)
    {
      if id in fdbs && objects[fdbs[id]].f.allocNum == 0 {
        fdbs := fdbs - {id};
      }
    }
  }

  class Client {
    const me: Owner
    const registry: Registry
    var fdbJoined: map<nat, FdbPort>
    var isNil: bool

    constructor (me: Owner, registry: Registry)
      ensures this.me == me && this.registry == registry && fdbJoined == map[] && !isNil
    {
      this.me, this.registry, fdbJoined, isNil := me, registry, map[], false;
    }

    ghost function View(): World
      reads this, registry
    {
      World(registry.fdbs, registry.objects, fdbJoined)
    }

    /** A nil map reads as an empty one, and the client owns the ports that it knows of. */
    ghost predicate Valid()
      reads this, registry
    {
      Sound(View(), me) && (isNil ==> fdbJoined == map[])
    }

    // ----- One id -----

    /** `joinFdbById`. For a client that has quit everything the write to the nil map panics, after
        the port has been taken. */
    method JoinFdbById(id: nat) returns (panicked: bool)
      requires Valid()
      modifies `fdbJoined, registry
      ensures !isNil ==> View() == JoinOne(old(View()), me, id)
      ensures panicked <==> isNil && !Full(old(View()), id)
      ensures isNil && !panicked ==> View() == old(View())
    {
      ghost var w := View();
      assert RegistryOk(w, id);
      var o := registry.NewFdbFor(id);
      RegisteredSound(w, me, id);
      RegisteredSame(w, me, id, id);
      assert RegistryOk(View(), id) && ObjectOk(View(), o);
      JoinedOk(registry.objects[o].f, me);
      var (f, portId) := Fdb.Joined(registry.objects[o].f, me, !me.isClient);
      if portId == 0 {
        return false;
      }
      registry.objects := registry.objects[o := registry.objects[o].(f := f)];
      if isNil {
        return true;
      }
      var joined: map<nat, FdbPort> := fdbJoined[id := FdbPort(o, portId)];
      fdbJoined := joined;
      panicked := false;
    }

    /** The body of the loops of `quitFdbByIds` and `quitAllFdb`. */
    method QuitFdbById(id: nat, fixed: bool)
      requires Valid()
      modifies `fdbJoined, registry
      ensures View() == QuitOne(old(View()), me, id, fixed)
    {
      assert RegistryOk(View(), id) && KnownOk(View(), me, id);
      if id in fdbJoined {
        var fp := fdbJoined[id];
        var f := Fdb.Released(registry.objects[fp.obj].f, fp.portId, !me.isClient);
        registry.objects := registry.objects[fp.obj := registry.objects[fp.obj].(f := f)];
        fdbJoined := fdbJoined - {id};
        if !fixed {
          registry.TryToDelFdbById(id);
        }
      }
    }

    // ----- Lists of ids -----

    /** One round of `joinFdbByIds`. */
    method JoinRound(ghost w: World, ids: seq<nat>, i: nat)
      requires i < |ids| && View() == JoinAll(w, me, ids, i) && Valid() && !isNil
      modifies `fdbJoined, registry
      ensures View() == JoinAll(w, me, ids, i + 1) && Valid()
    {
      ghost var w1 := View();
      JoinOneKeeps(w1, me, ids[i], 0);
      var panicked := JoinFdbById(ids[i]);
      JoinedNext(w, w1, View(), me, ids, i);
    }

    method JoinFdbByIds(ids: seq<nat>)
      requires Valid() && !isNil
      modifies `fdbJoined, registry
      ensures View() == JoinAll(old(View()), me, ids, |ids|)
    {
      ghost var w := View();
      var i := 0;
      while i < |ids|
        invariant 0 <= i <= |ids|
        invariant View() == JoinAll(w, me, ids, i) && Valid() && !isNil
      {
        JoinRound(w, ids, i);
        i := i + 1;
      }
    }

    /** The same for a client that has quit everything: nothing happens, or a panic at the first
        FDB that is not full. */
    method JoinFdbByIdsNil(ids: seq<nat>) returns (panicked: bool)
      requires Valid() && isNil
      modifies `fdbJoined, registry
      ensures panicked <==> exists id :: id in ids && !Full(old(View()), id)
      ensures !panicked ==> View() == old(View())
    {
      ghost var w := View();
      var i := 0;
      panicked := false;
      while i < |ids| && !panicked
        invariant 0 <= i <= |ids|
        invariant !panicked ==> View() == w && forall j :: 0 <= j < i ==> Full(w, ids[j])
        invariant panicked ==> i > 0 && !Full(w, ids[i - 1])
      {
        panicked := JoinFdbById(ids[i]);
        i := i + 1;
      }
      assert panicked ==> ids[i - 1] in ids;
    }

    /** One round of `quitFdbByIds`. */
    method QuitRound(ghost w: World, ids: seq<nat>, fixed: bool, i: nat)
      requires i < |ids| && View() == QuitAll(w, me, ids, fixed, i) && Valid()
      modifies `fdbJoined, registry
      ensures View() == QuitAll(w, me, ids, fixed, i + 1) && Valid()
    {
      ghost var w1 := View();
      QuitOneKeeps(w1, me, ids[i], fixed, 0);
      QuitFdbById(ids[i], fixed);
      QuitNextOf(w, w1, View(), me, ids, fixed, i);
    }

    method QuitFdbByIds(ids: seq<nat>, fixed: bool)
      requires Valid()
      modifies `fdbJoined, registry
      ensures View() == QuitAll(old(View()), me, ids, fixed, |ids|)
    {
      ghost var w := View();
      var i := 0;
      while i < |ids|
        invariant 0 <= i <= |ids|
        invariant View() == QuitAll(w, me, ids, fixed, i) && Valid()
      {
        QuitRound(w, ids, fixed, i);
        i := i + 1;
      }
    }

    /** The ids of `from` that are not in `other`, in the order in which the map is visited. */
    static method Missing(from: set<nat>, other: set<nat>) returns (ids: seq<nat>)
      ensures Counting.Distinct(ids)
      ensures forall id: nat :: id in ids <==> id in from && id !in other
      ensures ids == [] <==> from <= other
    {
      ids := [];
      var todo := from;
      while todo != {}
        invariant todo <= from
        invariant Counting.Distinct(ids)
        invariant forall id: nat :: id in ids <==> id in from && id !in todo && id !in other
        decreases todo
      {
        var id :| id in todo;
        todo := todo - {id};
        if id !in other {
          ids := ids + [id];
        }
      }
      assert ids != [] ==> ids[0] in ids;
    }

    /** Collect a list into `newVidMap`. */
    static method Collect(newVids: seq<nat>) returns (newVidMap: set<nat>)
      ensures forall id :: id in newVidMap <==> id in newVids
    {
      newVidMap := {};
      var i := 0;
      while i < |newVids|
        invariant 0 <= i <= |newVids|
        invariant forall k :: k in newVidMap ==> k in newVids
        invariant forall j :: 0 <= j < i ==> newVids[j] in newVidMap
      {
        newVidMap := newVidMap + {newVids[i]};
        i := i + 1;
      }
    }

    /** Quit what is gone, join what is missing. */
    method Reconcile(joinIds: seq<nat>, quitIds: seq<nat>, fixed: bool)
      requires Valid() && !isNil
      modifies `fdbJoined, registry
      ensures View() == Reconciling(old(View()), me, joinIds, quitIds, fixed)
    {
      ghost var w := View();
      QuitAllSound(w, me, quitIds, fixed, |quitIds|);
      QuitFdbByIds(quitIds, fixed);
      JoinFdbByIds(joinIds);
    }

    /** Whatever the list, duplicates included, the client ends up in exactly the requested FDBs
        that were not full, with one port in each and no other, and nobody else's ports change.
        It panics exactly if it has quit everything and some requested FDB is not full. */
    method HandleFdbIds(newVids: seq<nat>, fixed: bool) returns (panicked: bool, ghost wanted: set<nat>)
      requires Valid() && NoLeak(View(), me)
      modifies `fdbJoined, registry
      ensures forall id :: id in wanted <==> id in newVids
      ensures panicked <==> isNil && exists id :: id in newVids && !Full(old(View()), id)
      ensures !isNil ==> Reconciled(old(View()), View(), me, wanted)
      ensures isNil && !panicked ==> View() == old(View())
    {
      var newVidMap := Collect(newVids);
      wanted := newVidMap;
      ghost var w := View();
      var joinIds := Missing(newVidMap, fdbJoined.Keys);
      var quitIds := Missing(fdbJoined.Keys, newVidMap);
      if isNil {
        panicked := JoinFdbByIdsNil(joinIds);
      } else {
        Reconciles(w, me, wanted, Visit(joinIds, quitIds), fixed);
        Reconcile(joinIds, quitIds, fixed);
        panicked := false;
      }
    }

    /** `quitAllFdb`: the client owns no port any more, in any FDB, and its map is nil. */
    method QuitAllFdb(fixed: bool)
      requires Valid() && NoLeak(View(), me)
      modifies `fdbJoined, `isNil, registry
      ensures Valid() && isNil && OthersUntouched(old(View()), View(), me)
      ensures forall o: nat, p: nat :: !Owns(View(), me, o, p)
    {
      ghost var w := View();
      var ids := Missing(fdbJoined.Keys, {});
      QuitAllSound(w, me, ids, fixed, |ids|);
      QuitsEverything(w, me, ids, fixed);
      QuitFdbByIds(ids, fixed);
      isNil := true;
    }
  }

  lemma {:induction false} JoinedNext(w: World, w1: World, w2: World, me: Owner, ids: seq<nat>, n: nat)
    requires n < |ids| && w1 == JoinAll(w, me, ids, n) && w2 == JoinOne(w1, me, ids[n])
    ensures w2 == JoinAll(w, me, ids, n + 1)
  {
  }

  lemma {:induction false} QuitNextOf(w: World, w1: World, w2: World, me: Owner, ids: seq<nat>, fixed: bool, n: nat)
    requires n < |ids| && w1 == QuitAll(w, me, ids, fixed, n) && w2 == QuitOne(w1, me, ids[n], fixed)
    ensures w2 == QuitAll(w, me, ids, fixed, n + 1)
  {
  }

  lemma {:induction false} QuitsEverything(w: World, me: Owner, ids: seq<nat>, fixed: bool)
    requires WorldOk(w, me) && forall id: nat :: id in ids <==> id in w.joined
    ensures QuitAll(w, me, ids, fixed, |ids|).joined == map[]
    ensures forall o: nat, p: nat :: !Owns(QuitAll(w, me, ids, fixed, |ids|), me, o, p)
  {
    var w' := QuitAll(w, me, ids, fixed, |ids|);
    var v := Visit([], ids);
    assert IsVisit({}, w.joined, v);
    assert Reconciling(w, me, [], ids, fixed) == w';
    Reconciles(w, me, {}, v, fixed);
    forall id ensures id !in w'.joined {
      assert id in w'.joined ==> ReconciledAt(w, w', me, {}, id);
    }
  }
}
