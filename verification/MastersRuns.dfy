/** Runs of membership changes: lists handled for clients, and masters updated. Stale and leaking
    masters are reached, and a discipline that keeps a single master from becoming stale. */
module MastersRuns {
  import opened Machine
  import opened Fdb
  import opened Membership
  import opened MembershipLists
  import opened Masters
  import MastersLoop
  import opened MastersResult

  // ----- Steps -----

  /** `handleFdbIds` for client `i`, which has not quit everything. */
  ghost predicate IsHandle(s: System, s': System, i: nat, wanted: set<nat>, v: Visit) {
    && i < |s.members| && s.members[i].joined.Some? && IsVisit(wanted, s.members[i].List(), v)
    && s' == s.Put(i, Reconciling(s.View(i), s.members[i].owner, v.missing, v.gone, false))
  }

  /** `updateMasterFdb`. */
  ghost predicate IsUpdated(s: System, s': System, masters: seq<nat>, visits: seq<Visit>, cs: seq<Carry>) {
    && IsUpdate(s, masters, visits) && IsLoop(cs, s, masters, visits, |masters|)
    && s' == cs[|masters|].s
  }

  // ----- What one step keeps of the whole system -----

  ghost predicate TidyClient(s: System, i: nat)
    requires i < |s.members|
  {
    NoLeak(s.View(i), s.members[i].owner)
  }

  ghost predicate AllTidy(s: System) {
    forall i: nat :: i < |s.members| ==> TidyClient(s, i)
  }

  /** The client is in the live FDB of every id it has. */
  ghost predicate Settled(s: System, i: nat)
    requires i < |s.members|
  {
    forall id: nat :: id in s.members[i].List() ==> Live(s.View(i), id)
  }

  lemma {:induction false} HandledClient(s: System, s': System, i: nat, wanted: set<nat>, v: Visit)
    requires SystemSound(s) && AllTidy(s) && IsHandle(s, s', i, wanted, v)
    ensures s'.View(i) == Reconciling(s.View(i), s.members[i].owner, v.missing, v.gone, false)
    ensures Reconciled(s.View(i), s'.View(i), s.members[i].owner, wanted)
  {
    assert SoundAt(s, i) && TidyClient(s, i);
    Reconciles(s.View(i), s.members[i].owner, wanted, v, false);
  }

  lemma {:induction false} HandleSound(s: System, s': System, i: nat, wanted: set<nat>, v: Visit)
    requires SystemSound(s) && IsHandle(s, s', i, wanted, v)
    ensures SystemSound(s') && |s'.members| == |s.members|
    ensures forall j :: 0 <= j < |s.members| ==> s'.members[j].owner == s.members[j].owner
    ensures forall j :: 0 <= j < |s.members| && j != i ==> s'.members[j] == s.members[j]
  {
    assert SoundAt(s, i);
    ReconcilingSound(s.View(i), s.members[i].owner, v.missing, v.gone, false);
    PutSound(s, i, Reconciling(s.View(i), s.members[i].owner, v.missing, v.gone, false));
  }

  /** Whatever one client does, another that knew all its ports still does. */
  lemma {:induction false} BystanderTidy(w: World, w': World, me: Owner, other: Owner, joined: map<nat, FdbPort>)
    requires OthersUntouched(w, w', me) && other != me
    requires Sound(World(w.fdbs, w.objects, joined), other) && Sound(World(w'.fdbs, w'.objects, joined), other)
    requires NoLeak(World(w.fdbs, w.objects, joined), other)
    ensures NoLeak(World(w'.fdbs, w'.objects, joined), other)
  {
    var v, v' := World(w.fdbs, w.objects, joined), World(w'.fdbs, w'.objects, joined);
    forall o: nat, p: nat | Owns(v', other, o, p)
      ensures v'.objects[o].id in joined && joined[v'.objects[o].id] == FdbPort(o, p)
    {
      assert Owns(w', other, o, p);
      assert Owns(w, other, o, p);
      assert Owns(v, other, o, p);
    }
  }

  lemma {:induction false} HandleTidy(s: System, s': System, i: nat, wanted: set<nat>, v: Visit)
    requires SystemSound(s) && AllTidy(s) && IsHandle(s, s', i, wanted, v)
    ensures AllTidy(s')
  {
    HandleSound(s, s', i, wanted, v);
    HandledClient(s, s', i, wanted, v);
    forall j: nat | j < |s'.members| ensures TidyClient(s', j) {
      if j != i {
        assert SoundAt(s, j) && SoundAt(s', j) && TidyClient(s, j) && Apart(s, i, j);
        BystanderTidy(s.View(i), s'.View(i), s.members[i].owner, s.members[j].owner, s.members[j].List());
      }
    }
  }

  /** A list handled for one client leaves another in live FDBs, as far as they are still there:
      within one list no FDB is deleted and created again. */
  lemma {:induction false} HandleLeavesLive(s: System, s': System, i: nat, wanted: set<nat>, v: Visit, j: nat, id: nat)
    requires SystemSound(s) && AllTidy(s) && IsHandle(s, s', i, wanted, v)
    requires j < |s.members| && j != i && Live(s.View(j), id)
    ensures |s'.members| == |s.members|
    ensures id in s'.fdbs ==> Live(s'.View(j), id)
  {
    HandleSound(s, s', i, wanted, v);
    HandledClient(s, s', i, wanted, v);
    assert ReconciledAt(s.View(i), s'.View(i), s.members[i].owner, wanted, id);
  }

  // ----- A single master -----

  /** A single master takes at most the port that it lacks. */
  lemma {:induction false} SingleTakesNoMore(s: System, masters: seq<nat>, id: nat)
    requires |masters| == 1 && masters[0] < |s.members| && Alive(s, masters, 0)
    ensures TakesNoMore(s, masters, 0, id)
    ensures Taken(s, masters, 0, id) > 0 ==> id !in s.members[masters[0]].List()
  {
    assert Asked(s, masters, 0, id) == 0;
    assert Asked(s, masters, 1, id) == if id !in s.members[masters[0]].List() then 1 else 0;
  }

  lemma {:induction false} SingleSound(s: System, s': System, m: nat, visits: seq<Visit>, cs: seq<Carry>)
    requires SystemSound(s) && IsUpdated(s, s', [m], visits, cs) && m < |s.members| && s.members[m].joined.Some?
    ensures SystemSound(s') && MastersLoop.SameClients(s, s')
    ensures forall j :: 0 <= j < |s.members| && j != m ==> s'.members[j] == s.members[j]
  {
    MastersLoop.LoopKeeps(cs, s, [m], visits, 1);
    assert MastersLoop.Touched([m], 0) == {};
    assert MastersLoop.Touched([m], 1) == {m};
  }

  lemma {:induction false} SingleTidy(s: System, s': System, m: nat, visits: seq<Visit>, cs: seq<Carry>)
    requires SystemSound(s) && IsUpdated(s, s', [m], visits, cs) && m < |s.members| && s.members[m].joined.Some?
    requires TidyClient(s, m)
    ensures |s'.members| == |s.members| && TidyClient(s', m)
  {
    SingleSound(s, s', m, visits, cs);
    forall id | id in s.fdbs ensures TakesNoMore(s, [m], 0, id) {
      SingleTakesNoMore(s, [m], id);
    }
    KeepsPortsIff(cs, s, [m], visits, 0);
  }

  /** After its update a single master is in the live FDB of every id it has, if it was in the
      live FDB of every id it had that is still registered; and, for a stale one, only then. */
  lemma {:induction false} SingleSettlesIff(s: System, s': System, m: nat, visits: seq<Visit>, cs: seq<Carry>)
    requires SystemSound(s) && IsUpdated(s, s', [m], visits, cs) && m < |s.members| && s.members[m].joined.Some?
    requires TidyClient(s, m)
    ensures |s'.members| == |s.members|
    ensures forall id: nat :: id in s'.members[m].List() ==> id in s'.fdbs
    ensures forall id: nat :: id in s'.members[m].List() ==>
      (Live(s'.View(m), id) <==> id !in s.members[m].List() || Live(s.View(m), id))
  {
    SingleSound(s, s', m, visits, cs);
    forall id: nat | id in s'.members[m].List()
      ensures id in s'.fdbs && (Live(s'.View(m), id) <==> id !in s.members[m].List() || Live(s.View(m), id))
    {
      SingleAt(s, s', m, visits, cs, id);
    }
  }

  lemma {:induction false} SingleAt(s: System, s': System, m: nat, visits: seq<Visit>, cs: seq<Carry>, id: nat)
    requires SystemSound(s) && IsUpdated(s, s', [m], visits, cs) && m < |s.members| && s.members[m].joined.Some?
    requires TidyClient(s, m) && SystemSound(s') && MastersLoop.SameClients(s, s') && id in s'.members[m].List()
    ensures id in s'.fdbs
    ensures Live(s'.View(m), id) <==> id !in s.members[m].List() || Live(s.View(m), id)
  {
    var me := s.members[m].owner;
    assert SoundAt(s, m) && SoundAt(s', m);
    LiveIff(cs, s, [m], visits, 0, id);
    SingleTakesNoMore(s, [m], id);
    MasterStands(cs, s, [m], visits, 0, id);
    NoLeakIsTidy(s.View(m), me);
    TidyHas(s.View(m), me, id);
    assert HasPort(s'.View(m), me, id) by {
      assert KnownOk(s'.View(m), me, id);
      assert Owns(s'.View(m), me, s'.members[m].List()[id].obj, s'.members[m].List()[id].portId);
    }
  }

  lemma {:induction false} SingleOthers(s: System, s': System, m: nat, visits: seq<Visit>, cs: seq<Carry>)
    requires SystemSound(s) && IsUpdated(s, s', [m], visits, cs) && m < |s.members| && s.members[m].joined.Some?
    ensures m < |s'.members| && OthersUntouched(s.View(m), s'.View(m), s.members[m].owner)
  {
    var v := visits[0];
    assert IsLoop(cs, s, [m], visits, 0);
    assert SoundAt(s, m);
    assert [] + v.missing == v.missing && [] + v.gone == v.gone;
    ReconcilingSound(s.View(m), s.members[m].owner, v.missing, v.gone, false);
    assert cs[1] == Turn(Carry(s, [], []), m, v);
    assert s'.View(m) == Reconciling(s.View(m), s.members[m].owner, v.missing, v.gone, false);
  }

  lemma {:induction false} SingleAllTidy(s: System, s': System, m: nat, visits: seq<Visit>, cs: seq<Carry>)
    requires SystemSound(s) && IsUpdated(s, s', [m], visits, cs) && m < |s.members| && s.members[m].joined.Some?
    requires AllTidy(s)
    ensures AllTidy(s')
  {
    assert TidyClient(s, m);
    SingleSound(s, s', m, visits, cs);
    SingleTidy(s, s', m, visits, cs);
    SingleOthers(s, s', m, visits, cs);
    forall j: nat | j < |s'.members| ensures TidyClient(s', j) {
      if j != m {
        assert SoundAt(s, j) && SoundAt(s', j) && TidyClient(s, j) && Apart(s, m, j);
        BystanderTidy(s.View(m), s'.View(m), s.members[m].owner, s.members[j].owner, s.members[j].List());
      }
    }
  }

  /** No port is leaked, and the single master `m` is in live FDBs only. */
  ghost predicate Orderly(s: System, m: nat) {
    && SystemSound(s) && AllTidy(s)
    && m < |s.members| && s.members[m].joined.Some? && Settled(s, m)
  }

  /** One list handled for a client other than the master, and the update after it. */
  datatype Round = Round(i: nat, wanted: set<nat>, v: Visit, mid: System, visits: seq<Visit>, cs: seq<Carry>)

  ghost predicate IsRound(s: System, s': System, r: Round, m: nat) {
    r.i != m && IsHandle(s, r.mid, r.i, r.wanted, r.v) && IsUpdated(r.mid, s', [m], r.visits, r.cs)
  }

  lemma {:induction false} RoundSettles(s: System, s': System, r: Round, m: nat)
    requires Orderly(s, m) && IsRound(s, s', r, m)
    ensures Orderly(s', m)
  {
    HandleSound(s, r.mid, r.i, r.wanted, r.v);
    HandleTidy(s, r.mid, r.i, r.wanted, r.v);
    assert TidyClient(r.mid, m);
    SingleSound(r.mid, s', m, r.visits, r.cs);
    SingleAllTidy(r.mid, s', m, r.visits, r.cs);
    SingleSettlesIff(r.mid, s', m, r.visits, r.cs);
    forall id: nat | id in s'.members[m].List() ensures Live(s'.View(m), id) {
      if id in r.mid.members[m].List() {
        HandleLeavesLive(s, r.mid, r.i, r.wanted, r.v, m, id);
      }
    }
  }

  ghost predicate IsRounds(ss: seq<System>, rounds: seq<Round>, m: nat, n: nat) {
    && n <= |rounds| && n < |ss|
    && (n > 0 ==> IsRounds(ss, rounds, m, n - 1) && IsRound(ss[n - 1], ss[n], rounds[n - 1], m))
  }

  /** As long as every list that is handled is followed by its update before the next one, a single
      master is never in a dead FDB, and nobody ever leaks a port. */
  lemma {:induction false} RoundsSettle(ss: seq<System>, rounds: seq<Round>, m: nat, n: nat)
    requires IsRounds(ss, rounds, m, n) && Orderly(ss[0], m)
    ensures Orderly(ss[n], m)
  {
    if n > 0 {
      RoundsSettle(ss, rounds, m, n - 1);
      RoundSettles(ss[n - 1], ss[n], rounds[n - 1], m);
    }
  }

  // ----- A stale master -----

  const C1 := Owner(0, false)
  const C2 := Owner(1, false)
  const M1 := Owner(2, true)
  const M2 := Owner(3, true)

  /** A new FDB that `owner` has joined, and its port. */
  function First(owner: Owner): Fdb<Owner> {
    Joined(NewFdb(), owner, !owner.isClient).0
  }

  function FirstPort(): nat {
    Joined(NewFdb(), C1, true).1
  }

  /** Then joined by a master. */
  function Second(): Fdb<Owner> {
    Joined(First(C1), M1, false).0
  }

  function SecondPort(): nat {
    Joined(First(C1), M1, false).1
  }

  lemma {:induction false} PortNumbers()
    ensures FirstPort() == 127 && SecondPort() == 126
    ensures Joined(NewFdb(), C2, true).1 == FirstPort()
    ensures First(C1).allocNum == 1 && Second().allocNum == 1
    ensures FirstPort() in Second().ports
    ensures Released(Second(), FirstPort(), true).allocNum == 0
  {
  }

  /** Nobody has joined anything. */
  function Empty(): System {
    System(map[], [], [Member(C1, Some(map[])), Member(C2, Some(map[])), Member(M1, Some(map[]))])
  }

  /** The first client has joined `id`; and then the master too. */
  function One(id: nat): System {
    System(map[id := 0], [FdbObject(id, First(C1))],
           [Member(C1, Some(map[id := FdbPort(0, FirstPort())])), Member(C2, Some(map[])), Member(M1, Some(map[]))])
  }

  function Two(id: nat): System {
    System(map[id := 0], [FdbObject(id, Second())],
           [Member(C1, Some(map[id := FdbPort(0, FirstPort())])), Member(C2, Some(map[])),
            Member(M1, Some(map[id := FdbPort(0, SecondPort())]))])
  }

  /** The first client has quit: its FDB is no longer registered. */
  function Three(id: nat): System {
    System(map[], [FdbObject(id, Released(Second(), FirstPort(), true))],
           [Member(C1, Some(map[])), Member(C2, Some(map[])), Member(M1, Some(map[id := FdbPort(0, SecondPort())]))])
  }

  /** The second client has joined `id`, which is another FDB now. */
  function Four(id: nat): System {
    System(map[id := 1], [FdbObject(id, Released(Second(), FirstPort(), true)), FdbObject(id, First(C2))],
           [Member(C1, Some(map[])), Member(C2, Some(map[id := FdbPort(1, FirstPort())])),
            Member(M1, Some(map[id := FdbPort(0, SecondPort())]))])
  }

  lemma {:induction false} StepOne(id: nat)
    ensures IsHandle(Empty(), One(id), 0, {id}, Visit([id], []))
  {
    PortNumbers();
    var w := Empty().View(0);
    assert JoinAll(w, C1, [id], 0) == w;
    assert JoinAll(w, C1, [id], 1) == JoinOne(w, C1, id);
    assert JoinOne(w, C1, id) == One(id).View(0);
  }

  lemma {:induction false} StepTwo(id: nat)
    ensures IsUpdated(One(id), Two(id), [2], [Visit([id], [])], [Carry(One(id), [], []), Carry(Two(id), [id], [])])
  {
    PortNumbers();
    var w := One(id).View(2);
    assert JoinAll(w, M1, [id], 0) == w;
    assert JoinAll(w, M1, [id], 1) == JoinOne(w, M1, id);
    assert JoinOne(w, M1, id) == Two(id).View(2);
    var c, v := Carry(One(id), [], []), Visit([id], []);
    assert [] + [id] == [id];
    assert Turn(c, 2, v) == Carry(Two(id), [id], []);
    var cs := [c, Carry(Two(id), [id], [])];
    assert IsLoop(cs, One(id), [2], [v], 0);
    assert IsLoop(cs, One(id), [2], [v], 1);
  }

  lemma {:induction false} StepThree(id: nat)
    ensures IsHandle(Two(id), Three(id), 0, {}, Visit([], [id]))
  {
    PortNumbers();
    var w := Two(id).View(0);
    assert QuitAll(w, C1, [id], false, 0) == w;
    assert QuitAll(w, C1, [id], false, 1) == QuitOne(w, C1, id, false);
    assert w.joined - {id} == map[];
    assert QuitOne(w, C1, id, false) == Three(id).View(0);
  }

  lemma {:induction false} StepFour(id: nat)
    ensures IsHandle(Three(id), Four(id), 1, {id}, Visit([id], []))
  {
    PortNumbers();
    var w := Three(id).View(1);
    assert JoinAll(w, C2, [id], 0) == w;
    assert JoinAll(w, C2, [id], 1) == JoinOne(w, C2, id);
    assert JoinOne(w, C2, id) == Four(id).View(1);
  }

  lemma {:induction false} StepFive(id: nat)
    ensures IsUpdated(Four(id), Four(id), [2], [Visit([], [])], [Carry(Four(id), [], []), Carry(Four(id), [], [])])
  {
    var c, v := Carry(Four(id), [], []), Visit([], []);
    assert Turn(c, 2, v) == c;
    var cs := [c, c];
    assert IsLoop(cs, Four(id), [2], [v], 0);
    assert IsLoop(cs, Four(id), [2], [v], 1);
  }

  /** A stale master is reached when a second list is handled before the first is followed by its
      update: a client joins `id` and the master follows; the client quits, which deletes the FDB;
      another client joins, which creates it again; and the update then sees nothing to do. */
  lemma {:induction false} StaleHappens(id: nat)
    ensures IsHandle(Empty(), One(id), 0, {id}, Visit([id], []))
    ensures IsUpdated(One(id), Two(id), [2], [Visit([id], [])], [Carry(One(id), [], []), Carry(Two(id), [id], [])])
    ensures IsHandle(Two(id), Three(id), 0, {}, Visit([], [id]))
    ensures IsHandle(Three(id), Four(id), 1, {id}, Visit([id], []))
    ensures IsUpdated(Four(id), Four(id), [2], [Visit([], [])], [Carry(Four(id), [], []), Carry(Four(id), [], [])])
    ensures id in Four(id).fdbs && id in Four(id).members[2].List() && !Live(Four(id).View(2), id)
  {
    StepOne(id);
    StepTwo(id);
    StepThree(id);
    StepFour(id);
    StepFive(id);
  }

  // ----- A leaking master -----

  /** A client has joined `id`, and two masters have joined nothing. */
  function TwoMasters(id: nat): System {
    System(map[id := 0], [FdbObject(id, First(C1))],
           [Member(C1, Some(map[id := FdbPort(0, FirstPort())])), Member(M1, Some(map[])), Member(M2, Some(map[]))])
  }

  function NoMasters(): System {
    System(map[], [], [Member(C1, Some(map[])), Member(M1, Some(map[])), Member(M2, Some(map[]))])
  }

  lemma {:induction false} StepTwoMasters(id: nat)
    ensures IsHandle(NoMasters(), TwoMasters(id), 0, {id}, Visit([id], []))
    ensures SystemSound(TwoMasters(id)) && TidyClient(TwoMasters(id), 1) && TidyClient(TwoMasters(id), 2)
  {
    PortNumbers();
    var s := NoMasters();
    var w := s.View(0);
    assert JoinAll(w, C1, [id], 0) == w;
    assert JoinAll(w, C1, [id], 1) == JoinOne(w, C1, id);
    assert JoinOne(w, C1, id) == TwoMasters(id).View(0);
    forall i: nat | i < |s.members| ensures SoundAt(s, i) {
    }
    HandleSound(s, TwoMasters(id), 0, {id}, Visit([id], []));
  }

  /** Two masters and one FDB that neither has joined, with 126 ports left, as one list handled for
      one client leaves them: whatever course the update takes, the second master leaks a port. */
  lemma {:induction false} LeakHappens(id: nat, s': System, cs: seq<Carry>)
    requires IsUpdated(TwoMasters(id), s', [1, 2], [Visit([id], []), Visit([id], [])], cs)
    ensures |s'.members| == 3 && s'.members[2].owner == M2
    ensures !NoLeak(s'.View(2), M2)
  {
    StepTwoMasters(id);
    PortNumbers();
    var s := TwoMasters(id);
    assert FreePorts(s.View(2), id) == 126;
    MastersLoop.LoopKeeps(cs, s, [1, 2], [Visit([id], []), Visit([id], [])], 2);
    TwoMastersIff(cs, s, [1, 2], [Visit([id], []), Visit([id], [])]);
  }

  lemma {:induction false} TwoTurnLoop(cs: seq<Carry>, s: System, v: Visit)
    requires |cs| == 3 && |s.members| == 3 && cs[0] == Carry(s, [], [])
    requires cs[1] == Turn(cs[0], 1, v) && cs[2] == Turn(cs[1], 2, v)
    ensures IsLoop(cs, s, [1, 2], [v, v], 2)
  {
    assert IsLoop(cs, s, [1, 2], [v, v], 0);
    assert IsLoop(cs, s, [1, 2], [v, v], 1);
  }

  /** And the update has such a course. */
  lemma {:induction false} LeakingUpdateExists(id: nat) returns (s': System, cs: seq<Carry>)
    ensures IsUpdated(TwoMasters(id), s', [1, 2], [Visit([id], []), Visit([id], [])], cs)
  {
    var s, v := TwoMasters(id), Visit([id], []);
    var c0 := Carry(s, [], []);
    var c1 := Turn(c0, 1, v);
    var c2 := Turn(c1, 2, v);
    cs, s' := [c0, c1, c2], c2.s;
    TwoTurnLoop(cs, s, v);
  }
}
