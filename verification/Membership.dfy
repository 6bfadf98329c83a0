/** Which FDBs a client has joined, as kept by `src/vnet/vid.go`. FDB objects are referred to by
    their number, so that an FDB that was deleted and created again is another object. */
module Membership {
  import opened Fdb

  /** Clients with `isClient` are this program's own links to servers; they are not counted. */
  datatype Owner = Owner(num: nat, isClient: bool)

  datatype FdbPort = FdbPort(obj: nat, portId: nat)

  datatype FdbObject = FdbObject(id: nat, f: Fdb<Owner>)

  /** The registry of live FDBs, all FDB objects ever created, and one client's `fdbJoined`. */
  datatype World = World(fdbs: map<nat, nat>, objects: seq<FdbObject>, joined: map<nat, FdbPort>)

  // ----- Operations on one id -----

  /** Replacing one FDB object's state. Here and below a number that is out of range would be a
      dangling reference; `References` excludes it. */
  function WithFdb(w: World, o: nat, f: Fdb<Owner>, joined: map<nat, FdbPort>): World {
    if o < |w.objects| then w.(objects := w.objects[o := w.objects[o].(f := f)], joined := joined) else w
  }

  /** `NewFdb`: the registered FDB, or a new one. */
  function Registered(w: World, id: nat): World {
    if id in w.fdbs then w
    else w.(fdbs := w.fdbs[id := |w.objects|], objects := w.objects + [FdbObject(id, NewFdb())])
  }

  /** `JoinFwdPort` on a registered FDB; a full FDB is not joined. */
  function JoinRegistered(w: World, me: Owner, id: nat): World {
    if id !in w.fdbs || w.fdbs[id] >= |w.objects| then w else
    var (f, portId) := Joined(w.objects[w.fdbs[id]].f, me, !me.isClient);
    if portId == 0 then w else WithFdb(w, w.fdbs[id], f, w.joined[id := FdbPort(w.fdbs[id], portId)])
  }

  /** `joinFdbById`. */
  function JoinOne(w: World, me: Owner, id: nat): World {
    JoinRegistered(Registered(w, id), me, id)
  }

  /** `TryToDelFdbById`. */
  function TryToDel(w: World, id: nat): World {
    if id in w.fdbs && w.fdbs[id] < |w.objects| && w.objects[w.fdbs[id]].f.allocNum == 0
    then w.(fdbs := w.fdbs - {id}) else w
  }

  /** One round of `quitFdbByIds`; `fixed` says that the set of FDBs is configured. */
  function QuitOne(w: World, me: Owner, id: nat, fixed: bool): World {
    if id !in w.joined || w.joined[id].obj >= |w.objects| then w
    else
      var fp := w.joined[id];
      var f := Released(w.objects[fp.obj].f, fp.portId, !me.isClient);
      var w' := WithFdb(w, fp.obj, f, w.joined - {id});
      if fixed then w' else TryToDel(w', id)
  }

  // ----- What the operations keep -----

  function Counted(ports: map<nat, Owner>): set<nat> {
    set p | p in ports && !ports[p].isClient
  }

  ghost predicate FdbOk(f: Fdb<Owner>) {
    Partition(f) && f.allocNum == |Counted(f.ports)|
  }

  predicate Owns(w: World, me: Owner, o: nat, p: nat) {
    o < |w.objects| && p in w.objects[o].f.ports && w.objects[o].f.ports[p] == me
  }

  /** The object registered for an id was made for it. */
  predicate RegistryOk(w: World, id: nat) {
    id in w.fdbs ==> w.fdbs[id] < |w.objects| && w.objects[w.fdbs[id]].id == id
  }

  /** What the client knows of an id leads to an object made for it, in which it owns the port. */
  predicate KnownOk(w: World, me: Owner, id: nat) {
    id in w.joined ==>
      && w.joined[id].obj < |w.objects| && w.objects[w.joined[id].obj].id == id
      && Owns(w, me, w.joined[id].obj, w.joined[id].portId)
  }

  ghost predicate ObjectOk(w: World, o: nat) {
    o < |w.objects| ==> FdbOk(w.objects[o].f)
  }

  /** The registry and the client's list are as they should be. */
  ghost predicate Sound(w: World, me: Owner) {
    && (forall id: nat :: RegistryOk(w, id))
    && (forall id: nat :: KnownOk(w, me, id))
    && (forall o: nat :: ObjectOk(w, o))
  }

  /** The client owns a port in some object made for `id`. */
  ghost predicate HasPort(w: World, me: Owner, id: nat) {
    exists o: nat, p: nat :: Owns(w, me, o, p) && w.objects[o].id == id
  }

  /** The client knows of every port it owns in objects made for `id`. */
  ghost predicate Tidy(w: World, me: Owner, id: nat) {
    forall o: nat, p: nat :: Owns(w, me, o, p) && w.objects[o].id == id ==>
      id in w.joined && w.joined[id] == FdbPort(o, p)
  }

  /** The client knows of every port it owns. */
  ghost predicate NoLeak(w: World, me: Owner) {
    forall o: nat, p: nat :: Owns(w, me, o, p) ==>
      w.objects[o].id in w.joined && w.joined[w.objects[o].id] == FdbPort(o, p)
  }

  /** The client owns exactly the ports it knows of: one for each FDB it has joined. */
  ghost predicate WorldOk(w: World, me: Owner) {
    Sound(w, me) && NoLeak(w, me)
  }

  /** Joining `id` would fail. */
  predicate Full(w: World, id: nat) {
    id in w.fdbs && w.fdbs[id] < |w.objects| && |w.objects[w.fdbs[id]].f.free| == 0
  }

  /** Nothing changes for the other owners of ports. */
  ghost predicate OthersUntouched(w: World, w': World, me: Owner) {
    && |w.objects| <= |w'.objects|
    && (forall o :: 0 <= o < |w.objects| ==> w'.objects[o].id == w.objects[o].id)
    && (forall other, o: nat, p: nat :: other != me ==> (Owns(w', other, o, p) <==> Owns(w, other, o, p)))
  }

  /** Nothing changes for `id`, seen from the client. */
  ghost predicate SameAt(w: World, w': World, me: Owner, id: nat) {
    && (id in w'.joined <==> id in w.joined)
    && (id in w.joined ==> w'.joined[id] == w.joined[id])
    && (id in w'.fdbs <==> id in w.fdbs)
    && (id in w.fdbs ==> w'.fdbs[id] == w.fdbs[id])
    && (Full(w', id) <==> Full(w, id))
    && (HasPort(w', me, id) <==> HasPort(w, me, id))
    && (Tidy(w', me, id) <==> Tidy(w, me, id))
  }

  lemma {:induction false} NoLeakIsTidy(w: World, me: Owner)
    requires Sound(w, me)
    ensures NoLeak(w, me) <==> forall id: nat :: Tidy(w, me, id)
  {
    if forall id: nat :: Tidy(w, me, id) {
      forall o: nat, p: nat | Owns(w, me, o, p)
        ensures w.objects[o].id in w.joined && w.joined[w.objects[o].id] == FdbPort(o, p)
      {
        assert Tidy(w, me, w.objects[o].id);
      }
    }
  }

  /** A tidy client has a port exactly for what it has joined. */
  lemma {:induction false} TidyHas(w: World, me: Owner, id: nat)
    requires Sound(w, me) && Tidy(w, me, id)
    ensures HasPort(w, me, id) <==> id in w.joined
  {
    assert KnownOk(w, me, id);
    if id in w.joined {
      assert Owns(w, me, w.joined[id].obj, w.joined[id].portId);
    }
  }

  lemma {:induction false} NewFdbOk()
    ensures FdbOk(NewFdb())
  {
    NewPartition<Owner>();
    assert Counted(map[]) == {};
  }

  lemma {:induction false} JoinedOk(f: Fdb<Owner>, me: Owner)
    requires FdbOk(f)
    ensures FdbOk(Joined(f, me, !me.isClient).0)
    ensures Joined(f, me, !me.isClient).1 == 0 <==> |f.free| == 0
    ensures Joined(f, me, !me.isClient).1 !in f.ports
  {
    if |f.free| > 0 {
      JoinPartition(f, me, !me.isClient);
      var id := f.free[0];
      assert Counted(f.ports[id := me]) == Counted(f.ports) + if me.isClient then {} else {id};
      assert id !in Counted(f.ports);
    } else {
      assert 0 !in f.ports;
    }
  }

  lemma {:induction false} ReleasedOk(f: Fdb<Owner>, id: nat, me: Owner)
    requires FdbOk(f) && id in f.ports && f.ports[id] == me
    ensures FdbOk(Released(f, id, !me.isClient))
    ensures id != 0
    ensures !me.isClient ==> f.allocNum > 0
  {
    ReleasePartition(f, id, !me.isClient);
    assert Counted(f.ports - {id}) == Counted(f.ports) - {id};
    assert id in Counted(f.ports) <==> !me.isClient;
  }

  /** The FDB registered for an id (a new one if there is none), and the one the client is in. */
  function LiveFdb(w: World, id: nat): Fdb<Owner> {
    if id in w.fdbs && w.fdbs[id] < |w.objects| then w.objects[w.fdbs[id]].f else NewFdb()
  }

  function OwnFdb(w: World, id: nat): Fdb<Owner> {
    if id in w.joined && w.joined[id].obj < |w.objects| then w.objects[w.joined[id].obj].f else NewFdb()
  }

  // ----- Joining -----

  lemma {:induction false} RegisteredSound(w: World, me: Owner, id: nat)
    requires Sound(w, me)
    ensures Sound(Registered(w, id), me) && OthersUntouched(w, Registered(w, id), me)
    ensures forall o: nat, p: nat :: Owns(Registered(w, id), me, o, p) <==> Owns(w, me, o, p)
  {
    NewFdbOk();
    var r := Registered(w, id);
    forall o: nat ensures ObjectOk(r, o) {
      assert ObjectOk(w, o);
    }
    forall k: nat ensures RegistryOk(r, k) && KnownOk(r, me, k) {
      assert RegistryOk(w, k) && KnownOk(w, me, k);
    }
    assert forall owner, o: nat, p: nat :: Owns(r, owner, o, p) <==> Owns(w, owner, o, p);
  }

  lemma {:induction false} ReplacedOk(w: World, me: Owner, o: nat, f: Fdb<Owner>, joined: map<nat, FdbPort>)
    requires Sound(w, me) && o < |w.objects| && FdbOk(f)
    ensures forall id: nat :: RegistryOk(WithFdb(w, o, f, joined), id)
    ensures forall k: nat :: ObjectOk(WithFdb(w, o, f, joined), k)
  {
    forall k: nat ensures ObjectOk(WithFdb(w, o, f, joined), k) {
      assert ObjectOk(w, k);
    }
    forall id: nat ensures RegistryOk(WithFdb(w, o, f, joined), id) {
      assert RegistryOk(w, id);
    }
  }

  /** Who owns what after one object's ports have changed. */
  lemma {:induction false} ReplacedOwns(w: World, at: nat, f: Fdb<Owner>, joined: map<nat, FdbPort>, owner: Owner,
      o: nat, p: nat)
    requires at < |w.objects|
    ensures Owns(WithFdb(w, at, f, joined), owner, o, p)
       <==> if o == at then p in f.ports && f.ports[p] == owner else Owns(w, owner, o, p)
  {
  }

  /** One more port of the client in the FDB registered for `id`. */
  function Placed(w: World, id: nat, f: Fdb<Owner>, portId: nat): World
    requires id in w.fdbs
  {
    WithFdb(w, w.fdbs[id], f, w.joined[id := FdbPort(w.fdbs[id], portId)])
  }

  /** The port is new in that FDB. */
  ghost predicate NewPort(w: World, me: Owner, id: nat, f: Fdb<Owner>, portId: nat) {
    && id in w.fdbs && w.fdbs[id] < |w.objects| && FdbOk(f)
    && portId !in w.objects[w.fdbs[id]].f.ports
    && f.ports == w.objects[w.fdbs[id]].f.ports[portId := me]
  }

  /** Port `at` of object `here` is now owned by the client; nothing else has changed hands. */
  ghost predicate GainsPort(w: World, w': World, me: Owner, here: nat, at: nat) {
    forall owner, o: nat, p: nat ::
      Owns(w', owner, o, p) <==> if o == here && p == at then owner == me else Owns(w, owner, o, p)
  }

  lemma {:induction false} PlacedOwns(w: World, me: Owner, id: nat, f: Fdb<Owner>, portId: nat)
    requires NewPort(w, me, id, f, portId)
    ensures GainsPort(w, Placed(w, id, f, portId), me, w.fdbs[id], portId)
  {
    forall owner, o: nat, p: nat
      ensures Owns(Placed(w, id, f, portId), owner, o, p)
         <==> if o == w.fdbs[id] && p == portId then owner == me else Owns(w, owner, o, p)
    {
      ReplacedOwns(w, w.fdbs[id], f, w.joined[id := FdbPort(w.fdbs[id], portId)], owner, o, p);
    }
  }

  lemma {:induction false} PlacedSound(w: World, me: Owner, id: nat, f: Fdb<Owner>, portId: nat)
    requires Sound(w, me) && NewPort(w, me, id, f, portId)
    ensures Sound(Placed(w, id, f, portId), me)
    ensures OthersUntouched(w, Placed(w, id, f, portId), me)
  {
    ReplacedOk(w, me, w.fdbs[id], f, w.joined[id := FdbPort(w.fdbs[id], portId)]);
    PlacedOwns(w, me, id, f, portId);
    forall k: nat ensures KnownOk(Placed(w, id, f, portId), me, k) {
      assert RegistryOk(w, id) && KnownOk(w, me, k);
    }
  }

  /** The client is tidy afterwards exactly if this is its only port for the id. */
  lemma {:induction false} PlacedHere(w: World, me: Owner, id: nat, f: Fdb<Owner>, portId: nat)
    requires Sound(w, me) && NewPort(w, me, id, f, portId)
    ensures HasPort(Placed(w, id, f, portId), me, id)
    ensures Tidy(Placed(w, id, f, portId), me, id) <==> !HasPort(w, me, id)
  {
    var w' := Placed(w, id, f, portId);
    PlacedOwns(w, me, id, f, portId);
    assert RegistryOk(w, id);
    assert Owns(w', me, w.fdbs[id], portId);
    if o: nat, p: nat :| Owns(w, me, o, p) && w.objects[o].id == id {
      assert Owns(w', me, o, p);
    }
  }

  lemma {:induction false} PlacedElsewhere(w: World, me: Owner, id: nat, f: Fdb<Owner>, portId: nat, k: nat)
    requires Sound(w, me) && NewPort(w, me, id, f, portId) && k != id
    ensures SameAt(w, Placed(w, id, f, portId), me, k)
  {
    var w' := Placed(w, id, f, portId);
    PlacedOwns(w, me, id, f, portId);
    assert RegistryOk(w, id) && RegistryOk(w, k);
    assert forall o: nat, p: nat ::
      Owns(w', me, o, p) && w'.objects[o].id == k <==> Owns(w, me, o, p) && w.objects[o].id == k;
  }

  lemma {:induction false} RegisteredSame(w: World, me: Owner, id: nat, k: nat)
    requires Sound(w, me)
    ensures k != id ==> SameAt(w, Registered(w, id), me, k)
    ensures Full(Registered(w, id), k) <==> Full(w, k)
    ensures HasPort(Registered(w, id), me, k) <==> HasPort(w, me, k)
    ensures Tidy(Registered(w, id), me, k) <==> Tidy(w, me, k)
    ensures id in w.fdbs ==> Registered(w, id) == w
  {
    RegisteredSound(w, me, id);
    var r := Registered(w, id);
    assert RegistryOk(w, k);
    assert forall o: nat, p: nat ::
      Owns(r, me, o, p) && r.objects[o].id == k <==> Owns(w, me, o, p) && w.objects[o].id == k;
  }

  /** `JoinFwdPort` hands out a new port unless the FDB is full. */
  lemma {:induction false} JoinCases(w: World, me: Owner, id: nat)
    requires Sound(w, me) && id in w.fdbs
    ensures Full(w, id) ==> JoinRegistered(w, me, id) == w
    ensures var (f, portId) := Joined(LiveFdb(w, id), me, !me.isClient);
      !Full(w, id) ==> NewPort(w, me, id, f, portId) && JoinRegistered(w, me, id) == Placed(w, id, f, portId)
  {
    assert RegistryOk(w, id) && ObjectOk(w, w.fdbs[id]);
    JoinedOk(w.objects[w.fdbs[id]].f, me);
  }

  /** What joining does to the id itself: a full FDB is not joined; otherwise the client has the
      port of the live FDB, and no other for the id exactly if it had none before. */
  ghost predicate JoinedHere(w: World, w': World, me: Owner, id: nat) {
    && id in w'.fdbs && (id in w.fdbs ==> w'.fdbs[id] == w.fdbs[id])
    && (Full(w, id) ==> SameAt(w, w', me, id))
    && (!Full(w, id) ==> id in w'.joined && w'.joined[id].obj == w'.fdbs[id] && HasPort(w', me, id)
                         && (Tidy(w', me, id) <==> !HasPort(w, me, id)))
  }

  lemma {:induction false} JoinRegisteredKeeps(w: World, me: Owner, id: nat, k: nat)
    requires Sound(w, me) && id in w.fdbs
    ensures Sound(JoinRegistered(w, me, id), me)
    ensures OthersUntouched(w, JoinRegistered(w, me, id), me)
    ensures k != id ==> SameAt(w, JoinRegistered(w, me, id), me, k)
    ensures JoinedHere(w, JoinRegistered(w, me, id), me, id)
  {
    JoinCases(w, me, id);
    if !Full(w, id) {
      var (f, portId) := Joined(LiveFdb(w, id), me, !me.isClient);
      PlacedSound(w, me, id, f, portId);
      PlacedHere(w, me, id, f, portId);
      if k != id {
        PlacedElsewhere(w, me, id, f, portId, k);
      }
    }
  }

  lemma {:induction false} UntouchedTwice(w: World, w1: World, w2: World, me: Owner)
    requires OthersUntouched(w, w1, me) && OthersUntouched(w1, w2, me)
    ensures OthersUntouched(w, w2, me)
  {
  }

  lemma {:induction false} SameTwice(w: World, w1: World, w2: World, me: Owner, k: nat)
    requires SameAt(w, w1, me, k) && SameAt(w1, w2, me, k)
    ensures SameAt(w, w2, me, k)
  {
  }

  lemma {:induction false} HereAfterRegistered(w: World, r: World, w': World, me: Owner, id: nat)
    requires JoinedHere(r, w', me, id) && id in r.fdbs && r.joined == w.joined
    requires id in w.fdbs ==> r == w
    requires Full(r, id) <==> Full(w, id)
    requires HasPort(r, me, id) <==> HasPort(w, me, id)
    requires Tidy(r, me, id) <==> Tidy(w, me, id)
    ensures JoinedHere(w, w', me, id)
  {
  }

  /** Joining one FDB: the client's knowledge stays sound, nobody else's ports change, other ids
      are not affected. */
  lemma {:induction false} JoinOneKeeps(w: World, me: Owner, id: nat, k: nat)
    requires Sound(w, me)
    ensures Sound(JoinOne(w, me, id), me)
    ensures OthersUntouched(w, JoinOne(w, me, id), me)
    ensures k != id ==> SameAt(w, JoinOne(w, me, id), me, k)
    ensures JoinedHere(w, JoinOne(w, me, id), me, id)
  {
    var r := Registered(w, id);
    var w' := JoinOne(w, me, id);
    RegisteredSound(w, me, id);
    RegisteredSame(w, me, id, k);
    RegisteredSame(w, me, id, id);
    JoinRegisteredKeeps(r, me, id, k);
    UntouchedTwice(w, r, w', me);
    if k != id {
      SameTwice(w, r, w', me, k);
    }
    HereAfterRegistered(w, r, w', me, id);
  }

  // ----- Quitting -----

  /** The client's port for `id` given back. */
  function Vacated(w: World, id: nat, f: Fdb<Owner>): World
    requires id in w.joined
  {
    WithFdb(w, w.joined[id].obj, f, w.joined - {id})
  }

  ghost predicate LessPort(w: World, id: nat, f: Fdb<Owner>) {
    && id in w.joined && w.joined[id].obj < |w.objects| && FdbOk(f)
    && f.ports == w.objects[w.joined[id].obj].f.ports - {w.joined[id].portId}
  }

  /** Port `at` of object `here` is now free; nothing else has changed hands. */
  ghost predicate LosesPort(w: World, w': World, here: nat, at: nat) {
    forall owner, o: nat, p: nat :: Owns(w', owner, o, p) <==> Owns(w, owner, o, p) && !(o == here && p == at)
  }

  lemma {:induction false} VacatedOwns(w: World, id: nat, f: Fdb<Owner>)
    requires LessPort(w, id, f)
    ensures LosesPort(w, Vacated(w, id, f), w.joined[id].obj, w.joined[id].portId)
  {
    forall owner, o: nat, p: nat
      ensures Owns(Vacated(w, id, f), owner, o, p)
         <==> Owns(w, owner, o, p) && !(o == w.joined[id].obj && p == w.joined[id].portId)
    {
      ReplacedOwns(w, w.joined[id].obj, f, w.joined - {id}, owner, o, p);
    }
  }

  lemma {:induction false} VacatedSound(w: World, me: Owner, id: nat, f: Fdb<Owner>)
    requires Sound(w, me) && LessPort(w, id, f)
    ensures Sound(Vacated(w, id, f), me)
    ensures OthersUntouched(w, Vacated(w, id, f), me)
  {
    assert KnownOk(w, me, id);
    ReplacedOk(w, me, w.joined[id].obj, f, w.joined - {id});
    VacatedOwns(w, id, f);
    forall k: nat ensures KnownOk(Vacated(w, id, f), me, k) {
      assert KnownOk(w, me, k);
    }
  }

  lemma {:induction false} VacatedElsewhere(w: World, me: Owner, id: nat, f: Fdb<Owner>, k: nat)
    requires Sound(w, me) && LessPort(w, id, f) && k != id
    ensures SameAt(w, Vacated(w, id, f), me, k)
  {
    var w' := Vacated(w, id, f);
    VacatedOwns(w, id, f);
    assert KnownOk(w, me, id) && RegistryOk(w, k);
    assert forall o: nat, p: nat ::
      Owns(w', me, o, p) && w'.objects[o].id == k <==> Owns(w, me, o, p) && w.objects[o].id == k;
  }

  lemma {:induction false} VacatedHere(w: World, me: Owner, id: nat, f: Fdb<Owner>)
    requires Sound(w, me) && LessPort(w, id, f) && Tidy(w, me, id)
    ensures !HasPort(Vacated(w, id, f), me, id)
  {
    assert KnownOk(w, me, id);
    VacatedOwns(w, id, f);
  }

  lemma {:induction false} UnregisteredKeeps(was: World, w: World, me: Owner, id: nat, k: nat)
    requires Sound(w, me) && OthersUntouched(was, w, me)
    ensures Sound(TryToDel(w, id), me) && OthersUntouched(was, TryToDel(w, id), me)
    ensures k != id ==> SameAt(w, TryToDel(w, id), me, k)
    ensures HasPort(TryToDel(w, id), me, id) <==> HasPort(w, me, id)
  {
    var w' := TryToDel(w, id);
    assert w'.objects == w.objects && w'.joined == w.joined;
    forall o: nat ensures ObjectOk(w', o) {
      assert ObjectOk(w, o);
    }
    assert forall owner, o: nat, p: nat :: Owns(w', owner, o, p) <==> Owns(w, owner, o, p);
    forall j: nat ensures RegistryOk(w', j) && KnownOk(w', me, j) {
      assert RegistryOk(w, j) && KnownOk(w, me, j);
    }
  }

  lemma {:induction false} QuitCases(w: World, me: Owner, id: nat, fixed: bool)
    requires Sound(w, me) && id in w.joined
    ensures var f := Released(OwnFdb(w, id), w.joined[id].portId, !me.isClient);
      && LessPort(w, id, f)
      && QuitOne(w, me, id, fixed) == if fixed then Vacated(w, id, f) else TryToDel(Vacated(w, id, f), id)
  {
    assert KnownOk(w, me, id) && ObjectOk(w, w.joined[id].obj);
    ReleasedOk(w.objects[w.joined[id].obj].f, w.joined[id].portId, me);
  }

  /** Quitting one FDB: the client's knowledge stays sound, nobody else's ports change, other ids
      are not affected; a tidy client then has no port left for the id. */
  lemma {:induction false} QuitOneKeeps(w: World, me: Owner, id: nat, fixed: bool, k: nat)
    requires Sound(w, me)
    ensures Sound(QuitOne(w, me, id, fixed), me)
    ensures OthersUntouched(w, QuitOne(w, me, id, fixed), me)
    ensures k != id ==> SameAt(w, QuitOne(w, me, id, fixed), me, k)
    ensures QuitOne(w, me, id, fixed).joined == w.joined - {id}
    ensures Tidy(w, me, id) ==> !HasPort(QuitOne(w, me, id, fixed), me, id)
  {
    assert KnownOk(w, me, id);
    if id in w.joined {
      QuitCases(w, me, id, fixed);
      var f := Released(OwnFdb(w, id), w.joined[id].portId, !me.isClient);
      var v := Vacated(w, id, f);
      VacatedSound(w, me, id, f);
      if k != id {
        VacatedElsewhere(w, me, id, f, k);
      }
      if Tidy(w, me, id) {
        VacatedHere(w, me, id, f);
      }
      UnregisteredKeeps(w, v, me, id, k);
      if k != id {
        SameTwice(w, v, TryToDel(v, id), me, k);
      }
    } else if Tidy(w, me, id) {
      TidyHas(w, me, id);
    }
  }

  /** An FDB disappears from the registry only when it is quit, and never changes there. */
  lemma {:induction false} QuitOneRegistry(w: World, me: Owner, id: nat, fixed: bool)
    ensures var w' := QuitOne(w, me, id, fixed);
      && (forall k: nat :: k in w'.fdbs ==> k in w.fdbs && w'.fdbs[k] == w.fdbs[k])
      && (forall k: nat :: k in w.fdbs && k != id ==> k in w'.fdbs)
      && |w'.objects| == |w.objects|
  {
  }

  /** Quitting takes an FDB out of the registry exactly when the set of FDBs is not configured and
      only links to other servers are left in the registered object, whichever object the client
      was in: nobody who is counted loses a live FDB. */
  lemma {:induction false} DeletedExactlyWhenUncounted(w: World, me: Owner, id: nat, fixed: bool)
    requires Sound(w, me) && id in w.joined && id in w.fdbs
    ensures var w' := QuitOne(w, me, id, fixed);
      var ports := LiveFdb(w, id).ports;
      id !in w'.fdbs
      <==> !fixed && forall p :: p in ports && w.joined[id] != FdbPort(w.fdbs[id], p) ==> ports[p].isClient
  {
    QuitCases(w, me, id, fixed);
    assert KnownOk(w, me, id) && RegistryOk(w, id);
    var f := Released(OwnFdb(w, id), w.joined[id].portId, !me.isClient);
    var here := w.fdbs[id];
    var g := Vacated(w, id, f).objects[here].f;
    VacatedSound(w, me, id, f);
    assert ObjectOk(Vacated(w, id, f), here);
    NoneCounted(g.ports);
    assert forall p :: p in g.ports <==> p in w.objects[here].f.ports && w.joined[id] != FdbPort(here, p);
    assert forall p :: p in g.ports ==> g.ports[p] == w.objects[here].f.ports[p];
  }

  lemma {:induction false} NoneCounted(ports: map<nat, Owner>)
    ensures |Counted(ports)| == 0 <==> forall p :: p in ports ==> ports[p].isClient
  {
    if |Counted(ports)| == 0 {
      forall p | p in ports ensures ports[p].isClient {
        assert p !in Counted(ports);
      }
    } else {
      var p :| p in Counted(ports);
    }
  }
}
