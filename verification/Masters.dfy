/** `updateMasterFdb` of `src/vnet/vid.go` over any number of masters: the lists of ids to join and
    to quit are declared outside the loop and carried from one master to the next. */
module Masters {
  import opened Machine
  import Counting
  import PortPool
  import opened Membership
  import opened MembershipLists

  // ----- How one client stands with one FDB -----

  /** The ports that joining `id` will find free. */
  function FreePorts(w: World, id: nat): nat {
    if id in w.fdbs && w.fdbs[id] < |w.objects| then |w.objects[w.fdbs[id]].f.free| else PortPool.MAXPORT - 1
  }

  /** The client is in the live FDB of the id. */
  predicate Live(w: World, id: nat) {
    id in w.joined && id in w.fdbs && w.joined[id].obj == w.fdbs[id]
  }

  /** Free ports of the live FDB; does the client own a port for the id, does it know of all it
      owns, and is it in the live FDB? */
  datatype Standing = Standing(free: nat, has: bool, tidy: bool, live: bool)

  ghost function StandingOf(w: World, me: Owner, id: nat): Standing {
    Standing(FreePorts(w, id), HasPort(w, me, id), Tidy(w, me, id), Live(w, id))
  }

  /** One more join: with a port left, it is taken, and the old one, if any, is forgotten. */
  function Pushed(s: Standing): Standing {
    if s.free == 0 then s else Standing(s.free - 1, true, !s.has, true)
  }

  function PushedTimes(s: Standing, n: nat): Standing {
    if n == 0 then s else Pushed(PushedTimes(s, n - 1))
  }

  function Min(a: nat, b: nat): nat {
    if a <= b then a else b
  }

  /** `n` joins take as many ports as there are; a tidy client stays tidy if that is at most one,
      and none if it had a port already. */
  lemma {:induction false} PushedSum(s: Standing, n: nat)
    ensures var t := PushedTimes(s, n);
      && t.free == s.free - Min(n, s.free)
      && t.has == (s.has || Min(n, s.free) > 0)
      && t.live == (s.live || Min(n, s.free) > 0)
      && (s.tidy ==> (t.tidy <==> Min(n, s.free) <= if s.has then 0 else 1))
  {
    if n > 0 {
      PushedSum(s, n - 1);
    }
  }

  function Count(ids: seq<nat>, n: nat, id: nat): nat
    requires n <= |ids|
  {
    if n == 0 then 0 else Count(ids, n - 1, id) + if ids[n - 1] == id then 1 else 0
  }

  lemma {:induction false} JoinOneFree(w: World, me: Owner, id: nat, k: nat)
    requires Sound(w, me)
    ensures FreePorts(JoinOne(w, me, id), k) == FreePorts(w, k) - if k == id && !Full(w, id) then 1 else 0
  {
    var r := Registered(w, id);
    RegisteredSound(w, me, id);
    assert RegistryOk(w, id) && RegistryOk(w, k) && RegistryOk(r, id) && RegistryOk(r, k);
    assert FreePorts(r, k) == FreePorts(w, k);
    JoinCases(r, me, id);
  }

  lemma {:induction false} JoinOneStanding(w: World, me: Owner, id: nat, k: nat)
    requires Sound(w, me)
    ensures StandingOf(JoinOne(w, me, id), me, k)
      == if k == id then Pushed(StandingOf(w, me, k)) else StandingOf(w, me, k)
  {
    JoinOneFree(w, me, id, k);
    JoinOneKeeps(w, me, id, k);
  }

  lemma {:induction false} JoinsStanding(ws: seq<World>, me: Owner, ids: seq<nat>, n: nat, k: nat)
    requires IsJoins(ws, me, ids, n) && Sound(ws[0], me)
    ensures StandingOf(ws[n], me, k) == PushedTimes(StandingOf(ws[0], me, k), Count(ids, n, k))
  {
    if n > 0 {
      JoinsStanding(ws, me, ids, n - 1, k);
      JoinsSound(ws, me, ids, n - 1);
      JoinOneStanding(ws[n - 1], me, ids[n - 1], k);
    }
  }

  /** Joining registered FDBs creates none. */
  lemma {:induction false} JoinsRegistry(ws: seq<World>, me: Owner, ids: seq<nat>, n: nat)
    requires IsJoins(ws, me, ids, n) && Sound(ws[0], me)
    requires forall j :: 0 <= j < n ==> ids[j] in ws[0].fdbs
    ensures ws[n].fdbs == ws[0].fdbs && |ws[n].objects| == |ws[0].objects|
  {
    if n > 0 {
      JoinsRegistry(ws, me, ids, n - 1);
    }
  }

  lemma {:induction false} QuitOneFree(w: World, me: Owner, id: nat, fixed: bool, k: nat)
    requires Sound(w, me) && k != id
    ensures FreePorts(QuitOne(w, me, id, fixed), k) == FreePorts(w, k)
  {
    if id in w.joined {
      assert KnownOk(w, me, id) && RegistryOk(w, k);
      QuitCases(w, me, id, fixed);
    }
  }

  lemma {:induction false} QuitOneStanding(w: World, me: Owner, id: nat, fixed: bool, k: nat)
    requires Sound(w, me) && k != id
    ensures StandingOf(QuitOne(w, me, id, fixed), me, k) == StandingOf(w, me, k)
  {
    QuitOneFree(w, me, id, fixed, k);
    QuitOneKeeps(w, me, id, fixed, k);
    StandingSame(w, QuitOne(w, me, id, fixed), me, k);
  }

  lemma {:induction false} StandingSame(w: World, w': World, me: Owner, k: nat)
    requires SameAt(w, w', me, k) && FreePorts(w', k) == FreePorts(w, k)
    ensures StandingOf(w', me, k) == StandingOf(w, me, k)
  {
  }

  lemma {:induction false} QuitsStanding(ws: seq<World>, me: Owner, ids: seq<nat>, fixed: bool, n: nat, k: nat)
    requires IsQuits(ws, me, ids, fixed, n) && Sound(ws[0], me) && forall j :: 0 <= j < n ==> ids[j] != k
    ensures StandingOf(ws[n], me, k) == StandingOf(ws[0], me, k)
  {
    if n > 0 {
      QuitsStanding(ws, me, ids, fixed, n - 1, k);
      QuitsSound(ws, me, ids, fixed, n - 1);
      QuitOneStanding(ws[n - 1], me, ids[n - 1], fixed, k);
    }
  }

  /** Quitting ids that are not registered leaves the registry as it is. */
  lemma {:induction false} QuitsKeepRegistry(ws: seq<World>, me: Owner, ids: seq<nat>, fixed: bool, n: nat)
    requires IsQuits(ws, me, ids, fixed, n) && forall j :: 0 <= j < n ==> ids[j] !in ws[0].fdbs
    ensures ws[n].fdbs == ws[0].fdbs && |ws[n].objects| == |ws[0].objects|
  {
    if n > 0 {
      QuitsKeepRegistry(ws, me, ids, fixed, n - 1);
      QuitOneRegistry(ws[n - 1], me, ids[n - 1], fixed);
    }
  }

  lemma {:induction false} QuitsForget(ws: seq<World>, me: Owner, ids: seq<nat>, fixed: bool, n: nat, at: nat)
    requires IsQuits(ws, me, ids, fixed, n) && Sound(ws[0], me) && at < n
    ensures ids[at] !in ws[n].joined
  {
    QuitsSound(ws, me, ids, fixed, n - 1);
    QuitOneKeeps(ws[n - 1], me, ids[n - 1], fixed, 0);
    if at < n - 1 {
      QuitsForget(ws, me, ids, fixed, n - 1, at);
    }
  }

  // ----- One master -----

  /** The lists fit the registry: only registered ids are to be joined, only others to be quit. */
  ghost predicate Fits(fdbs: map<nat, nat>, joinIds: seq<nat>, quitIds: seq<nat>) {
    && (forall j :: 0 <= j < |joinIds| ==> joinIds[j] in fdbs)
    && (forall j :: 0 <= j < |quitIds| ==> quitIds[j] !in fdbs)
  }

  /** What its turn does to a master: the registry stays; in each live FDB it takes a port for
      every time the id is on the list; nothing else is leaked, and what is to be quit is. */
  lemma {:induction false} TurnRounds(qs: seq<World>, js: seq<World>, me: Owner, joinIds: seq<nat>,
      quitIds: seq<nat>, k: nat)
    requires IsQuits(qs, me, quitIds, false, |quitIds|) && IsJoins(js, me, joinIds, |joinIds|)
    requires js[0] == qs[|quitIds|] && Sound(qs[0], me) && Fits(qs[0].fdbs, joinIds, quitIds)
    ensures js[|joinIds|].fdbs == qs[0].fdbs && |js[|joinIds|].objects| == |qs[0].objects|
    ensures k in qs[0].fdbs ==>
      StandingOf(js[|joinIds|], me, k) == PushedTimes(StandingOf(qs[0], me, k), Count(joinIds, |joinIds|, k))
    ensures k !in qs[0].fdbs && Tidy(qs[0], me, k) ==> Tidy(js[|joinIds|], me, k)
    ensures k in quitIds ==> k !in js[|joinIds|].joined
  {
    QuitsSound(qs, me, quitIds, false, |quitIds|);
    QuitsKeepRegistry(qs, me, quitIds, false, |quitIds|);
    JoinsRegistry(js, me, joinIds, |joinIds|);
    if k in qs[0].fdbs {
      QuitsStanding(qs, me, quitIds, false, |quitIds|, k);
      JoinsStanding(js, me, joinIds, |joinIds|, k);
    } else {
      JoinsElsewhere(js, me, joinIds, |joinIds|, k);
      if Tidy(qs[0], me, k) {
        QuitsTidy(qs, me, quitIds, false, |quitIds|, k);
      }
      if k in quitIds {
        var at :| 0 <= at < |quitIds| && quitIds[at] == k;
        QuitsForget(qs, me, quitIds, false, |quitIds|, at);
      }
    }
  }

  lemma {:induction false} TurnOfMaster(w: World, me: Owner, joinIds: seq<nat>, quitIds: seq<nat>, k: nat)
    requires Sound(w, me) && Fits(w.fdbs, joinIds, quitIds)
    ensures var w' := Reconciling(w, me, joinIds, quitIds, false);
      && Sound(w', me) && OthersUntouched(w, w', me)
      && w'.fdbs == w.fdbs && |w'.objects| == |w.objects|
      && (k in w.fdbs ==> StandingOf(w', me, k) == PushedTimes(StandingOf(w, me, k), Count(joinIds, |joinIds|, k)))
      && (k !in w.fdbs && Tidy(w, me, k) ==> Tidy(w', me, k))
      && (k in quitIds ==> k !in w'.joined)
  {
    var qs := QuitRounds(w, me, quitIds, false);
    var js := Rounds(qs[|quitIds|], me, joinIds);
    RoundsAreQuits(w, me, quitIds, false, |quitIds|);
    RoundsAreJoins(qs[|quitIds|], me, joinIds, |joinIds|);
    ReconcilingSound(w, me, joinIds, quitIds, false);
    TurnRounds(qs, js, me, joinIds, quitIds, k);
  }

  // ----- All masters -----

  /** A client; its map is nil once it has quit everything. */
  datatype Member = Member(owner: Owner, joined: Option<map<nat, FdbPort>>) {
    function List(): map<nat, FdbPort> {
      if joined.Some? then joined.value else map[]
    }
  }

  datatype System = System(fdbs: map<nat, nat>, objects: seq<FdbObject>, members: seq<Member>) {
    /** The FDBs as client `i` knows them. */
    function View(i: nat): World
      requires i < |members|
    {
      World(fdbs, objects, members[i].List())
    }

    function Put(i: nat, w: World): System
      requires i < |members|
    {
      System(w.fdbs, w.objects, members[i := Member(members[i].owner, Some(w.joined))])
    }
  }

  /** Clients are told apart by their number. */
  predicate Apart(s: System, i: nat, j: nat)
    requires i < |s.members| && j < |s.members|
  {
    s.members[i].owner != s.members[j].owner
  }

  ghost predicate SoundAt(s: System, i: nat)
    requires i < |s.members|
  {
    Sound(s.View(i), s.members[i].owner)
  }

  ghost predicate SystemSound(s: System) {
    && (forall i: nat, j: nat :: i < |s.members| && j < |s.members| && i != j ==> Apart(s, i, j))
    && (forall i: nat :: i < |s.members| ==> SoundAt(s, i))
  }

  /** Seen from a client that does not move, nothing changes but the free ports. */
  lemma {:induction false} BystanderStands(w: World, w': World, me: Owner, other: Owner, joined: map<nat, FdbPort>,
      k: nat)
    requires OthersUntouched(w, w', me) && other != me && w'.fdbs == w.fdbs && |w'.objects| == |w.objects|
    ensures var v, v' := World(w.fdbs, w.objects, joined), World(w'.fdbs, w'.objects, joined);
      StandingOf(v', other, k) == StandingOf(v, other, k).(free := FreePorts(w', k))
  {
    var v, v' := World(w.fdbs, w.objects, joined), World(w'.fdbs, w'.objects, joined);
    assert forall o: nat, p: nat ::
      (Owns(v', other, o, p) <==> Owns(w', other, o, p)) && (Owns(v, other, o, p) <==> Owns(w, other, o, p));
    assert forall o: nat, p: nat ::
      Owns(v', other, o, p) && v'.objects[o].id == k <==> Owns(v, other, o, p) && v.objects[o].id == k;
  }

  lemma {:induction false} BystanderSound(w: World, w': World, me: Owner, other: Owner, joined: map<nat, FdbPort>)
    requires OthersUntouched(w, w', me) && other != me && Sound(w', me)
    requires Sound(World(w.fdbs, w.objects, joined), other)
    ensures Sound(World(w'.fdbs, w'.objects, joined), other)
  {
    var v, v' := World(w.fdbs, w.objects, joined), World(w'.fdbs, w'.objects, joined);
    forall o: nat ensures ObjectOk(v', o) {
      assert ObjectOk(w', o);
    }
    forall id: nat ensures RegistryOk(v', id) && KnownOk(v', other, id) {
      assert RegistryOk(w', id) && KnownOk(v, other, id);
      if id in joined {
        assert Owns(w, other, joined[id].obj, joined[id].portId);
        assert Owns(w', other, joined[id].obj, joined[id].portId);
      }
    }
  }

  lemma {:induction false} PutSound(s: System, i: nat, w': World)
    requires SystemSound(s) && i < |s.members|
    requires Sound(w', s.members[i].owner) && OthersUntouched(s.View(i), w', s.members[i].owner)
    ensures SystemSound(s.Put(i, w'))
  {
    var s' := s.Put(i, w');
    forall j: nat | j < |s.members| ensures SoundAt(s', j) {
      assert SoundAt(s, j);
      if j != i {
        assert Apart(s, i, j);
        BystanderSound(s.View(i), w', s.members[i].owner, s.members[j].owner, s.members[j].List());
      }
    }
    forall j: nat, k: nat | j < |s.members| && k < |s.members| && j != k ensures Apart(s', j, k) {
      assert Apart(s, j, k);
    }
  }

  /** The loop variables of `updateMasterFdb`. */
  datatype Carry = Carry(s: System, joinIds: seq<nat>, quitIds: seq<nat>)

  /** The turn of member `i`; a member that has quit everything is skipped. */
  function Turn(c: Carry, i: nat, v: Visit): Carry
    requires i < |c.s.members|
  {
    if c.s.members[i].joined.None? then c
    else
      var joinIds, quitIds := c.joinIds + v.missing, c.quitIds + v.gone;
      Carry(c.s.Put(i, Reconciling(c.s.View(i), c.s.members[i].owner, joinIds, quitIds, false)), joinIds, quitIds)
  }

  /** The loop: `cs[n]` are the loop variables after the first `n` masters. */
  ghost predicate IsLoop(cs: seq<Carry>, s: System, masters: seq<nat>, visits: seq<Visit>, n: nat) {
    && n <= |masters| == |visits| && n < |cs|
    && (forall m :: 0 <= m < |masters| ==> masters[m] < |s.members|)
    && if n == 0 then cs[0] == Carry(s, [], [])
       else IsLoop(cs, s, masters, visits, n - 1) && |cs[n - 1].s.members| == |s.members|
            && cs[n] == Turn(cs[n - 1], masters[n - 1], visits[n - 1])
  }

  /** The masters are different clients, and each visits the maps as they are. */
  ghost predicate IsUpdate(s: System, masters: seq<nat>, visits: seq<Visit>) {
    && |visits| == |masters| && Counting.Distinct(masters)
    && (forall m :: 0 <= m < |masters| ==> masters[m] < |s.members|)
    && (forall m :: 0 <= m < |masters| && s.members[masters[m]].joined.Some? ==>
         IsVisit(s.fdbs.Keys, s.members[masters[m]].List(), visits[m]))
  }

  // ----- What the loop does, in terms of the state before it -----

  predicate Alive(s: System, masters: seq<nat>, m: nat)
    requires m < |masters| && masters[m] < |s.members|
  {
    s.members[masters[m]].joined.Some?
  }

  /** How many of the first `n` masters lack the id: so often it is on the list by then. */
  function Asked(s: System, masters: seq<nat>, n: nat, id: nat): nat
    requires n <= |masters| && forall m :: 0 <= m < |masters| ==> masters[m] < |s.members|
  {
    if n == 0 then 0
    else
      var lacks := Alive(s, masters, n - 1) && id !in s.members[masters[n - 1]].List();
      Asked(s, masters, n - 1, id) + if lacks then 1 else 0
  }

  /** The ports that master `m` takes in the FDB of the id, and those left before its turn. */
  function Taken(s: System, masters: seq<nat>, m: nat, id: nat): nat
    requires m < |masters| && forall n :: 0 <= n < |masters| ==> masters[n] < |s.members|
    decreases m, 1
  {
    if Alive(s, masters, m) then Min(Asked(s, masters, m + 1, id), Left(s, masters, m, id)) else 0
  }

  function Left(s: System, masters: seq<nat>, m: nat, id: nat): nat
    requires m <= |masters| && forall n :: 0 <= n < |masters| ==> masters[n] < |s.members|
    decreases m, 0
  {
    if m == 0 then FreePorts(World(s.fdbs, s.objects, map[]), id)
    else Left(s, masters, m - 1, id) - Taken(s, masters, m - 1, id)
  }
}
