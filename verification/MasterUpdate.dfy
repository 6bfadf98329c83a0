/** `updateMasterFdb` of `src/vnet/vid.go` as it runs, over the list of masters. */
module MasterUpdate {
  import opened Machine
  import Counting
  import Membership
  import opened MembershipLists
  import opened Masters
  import MastersLoop
  import opened Reconciliation

  function MemberOf(c: Client): Member
    reads c
  {
    Member(c.me, if c.isNil then None else Some(c.fdbJoined))
  }

  ghost function Members(clients: seq<Client>): (ms: seq<Member>)
    reads clients
    ensures |ms| == |clients|
    ensures forall i :: 0 <= i < |ms| ==> ms[i] == MemberOf(clients[i])
  {
    seq(|clients|, i requires 0 <= i < |clients| reads clients => MemberOf(clients[i]))
  }

  ghost function SystemOf(registry: Registry, clients: seq<Client>): System
    reads registry, clients
  {
    System(registry.fdbs, registry.objects, Members(clients))
  }

  /** The clients are different objects and share the registry; a nil map is empty. */
  ghost predicate Wired(registry: Registry, clients: seq<Client>)
    reads registry, clients
  {
    && Counting.Distinct(clients)
    && (forall i :: 0 <= i < |clients| ==> clients[i].registry == registry)
    && (forall i :: 0 <= i < |clients| ==> clients[i].isNil ==> clients[i].fdbJoined == map[])
  }

  /** All masters, in order. */
  function Everyone(n: nat): (masters: seq<nat>)
    ensures |masters| == n && forall i :: 0 <= i < n ==> masters[i] == i
  {
    seq(n, i requires 0 <= i < n => i)
  }

  /** The loop so far depends on the visits so far only, and goes on with any turn. */
  lemma {:induction false} LoopExtends(cs: seq<Carry>, s: System, masters: seq<nat>, visits: seq<Visit>, n: nat,
      at: nat, v: Visit, c: Carry)
    requires IsLoop(cs, s, masters, visits, n) && n <= at < |visits|
    ensures IsLoop(cs + [c], s, masters, visits[at := v], n)
    decreases n
  {
    if n > 0 {
      LoopExtends(cs, s, masters, visits, n - 1, at, v, c);
    }
  }

  lemma {:induction false} LoopGoesOn(cs: seq<Carry>, s: System, masters: seq<nat>, visits: seq<Visit>, n: nat,
      v: Visit)
    requires IsLoop(cs, s, masters, visits, n) && |cs| == n + 1 && n < |masters| && |cs[n].s.members| == |s.members|
    ensures IsLoop(cs + [Turn(cs[n], masters[n], v)], s, masters, visits[n := v], n + 1)
  {
    LoopExtends(cs, s, masters, visits, n, n, v, Turn(cs[n], masters[n], v));
  }

  /** One turn, in place: the client's own maps and the registry step as in `Turn`. */
  method TakeTurn(c: Client, joinIds: seq<nat>, quitIds: seq<nat>, ghost clients: seq<Client>, ghost i: nat)
    requires Wired(c.registry, clients) && i < |clients| && clients[i] == c && !c.isNil
    requires Membership.Sound(c.View(), c.me)
    modifies c`fdbJoined, c.registry
    ensures Wired(c.registry, clients) && !c.isNil
    ensures SystemOf(c.registry, clients)
      == old(SystemOf(c.registry, clients)).Put(i, Reconciling(old(c.View()), c.me, joinIds, quitIds, false))
  {
    ghost var s := SystemOf(c.registry, clients);
    c.Reconcile(joinIds, quitIds, false);
    forall j | 0 <= j < |clients|
      ensures MemberOf(clients[j]) == if j == i then Member(c.me, Some(c.fdbJoined)) else s.members[j]
    {
    }
    assert Members(clients) == s.members[i := Member(c.me, Some(c.fdbJoined))];
  }

  /** The course of the loop up to master `n`, from the values of the system alone. */
  ghost predicate Course(s: System, visits: seq<Visit>, cs: seq<Carry>, n: nat) {
    && n <= |visits| == |s.members| && |cs| == n + 1
    && IsLoop(cs, s, Everyone(|visits|), visits, n)
    && MastersLoop.LoopInv(cs[n], s, MastersLoop.Touched(Everyone(|visits|), n))
    && forall m :: 0 <= m < n && s.members[m].joined.Some? ==> IsVisit(s.fdbs.Keys, s.members[m].List(), visits[m])
  }

  lemma {:induction false} CourseStarts(s: System, visits: seq<Visit>)
    requires |visits| == |s.members| && SystemSound(s)
    ensures Course(s, visits, [Carry(s, [], [])], 0)
  {
  }

  lemma {:induction false} CourseGoesOn(s: System, visits: seq<Visit>, cs: seq<Carry>, n: nat, v: Visit)
    requires Course(s, visits, cs, n) && n < |visits|
    requires s.members[n].joined.Some? ==> IsVisit(s.fdbs.Keys, s.members[n].List(), v)
    ensures n < |cs[n].s.members|
    ensures Course(s, visits[n := v], cs + [Turn(cs[n], n, v)], n + 1)
  {
    var masters := Everyone(|visits|);
    MastersLoop.NotTouchedYet(masters, n, n);
    LoopGoesOn(cs, s, masters, visits, n, v);
    MastersLoop.LoopInvStep(cs[n], s, n, v, MastersLoop.Touched(masters, n));
  }

  /** What a turn meets: the client is as it was, and sound. */
  lemma {:induction false} CourseMeets(s: System, visits: seq<Visit>, cs: seq<Carry>, n: nat)
    requires Course(s, visits, cs, n) && n < |visits|
    ensures n < |cs[n].s.members| == |s.members| && cs[n].s.members[n] == s.members[n] && cs[n].s.fdbs == s.fdbs
    ensures Membership.Sound(cs[n].s.View(n), cs[n].s.members[n].owner)
  {
    MastersLoop.NotTouchedYet(Everyone(|visits|), n, n);
    assert SoundAt(cs[n].s, n);
  }

  /** The masters that have to report: those whose lists were not both empty at their turn. */
  ghost predicate Reported(s: System, cs: seq<Carry>, reports: seq<bool>, n: nat) {
    && |reports| == n <= |s.members| && |cs| == n + 1
    && forall m :: 0 <= m < n ==>
         (reports[m] <==> s.members[m].joined.Some? && (cs[m + 1].joinIds != [] || cs[m + 1].quitIds != []))
  }

  lemma {:induction false} ReportedGoesOn(s: System, cs: seq<Carry>, reports: seq<bool>, n: nat, c: Carry, report: bool)
    requires Reported(s, cs, reports, n) && n < |s.members|
    requires report <==> s.members[n].joined.Some? && (c.joinIds != [] || c.quitIds != [])
    ensures Reported(s, cs + [c], reports + [report], n + 1)
  {
  }

  /** The loop in progress: the course up to master `n` has led to this registry, these clients
      and these lists. */
  ghost predicate Underway(registry: Registry, clients: seq<Client>, joinIds: seq<nat>, quitIds: seq<nat>,
                           s: System, visits: seq<Visit>, cs: seq<Carry>, n: nat)
    reads registry, clients
  {
    && |s.members| == |clients| && Wired(registry, clients)
    && Course(s, visits, cs, n) && cs[n] == Carry(SystemOf(registry, clients), joinIds, quitIds)
  }

  /** The turn of one master in the loop; it has to report if either list is not empty. */
  method MasterTurn(registry: Registry, clients: seq<Client>, i: nat, newVidMap: set<nat>, joinIds: seq<nat>,
      quitIds: seq<nat>,
                    ghost s: System, ghost visits: seq<Visit>, ghost cs: seq<Carry>)
    returns (joinIds': seq<nat>, quitIds': seq<nat>, report: bool, ghost v: Visit)
    requires i < |clients| && Underway(registry, clients, joinIds, quitIds, s, visits, cs, i)
    requires newVidMap == s.fdbs.Keys
    modifies registry, (set c | c in clients)`fdbJoined
    ensures i < |visits| && |cs| == i + 1 && i < |cs[i].s.members|
    ensures Underway(registry, clients, joinIds', quitIds', s, visits[i := v], cs + [Turn(cs[i], i, v)], i + 1)
    ensures report <==> s.members[i].joined.Some? && (joinIds' != [] || quitIds' != [])
  {
    var c := clients[i];
    CourseMeets(s, visits, cs, i);
    if c.isNil {
      joinIds', quitIds', report, v := joinIds, quitIds, false, Visit([], []);
    } else {
      var missing := Client.Missing(newVidMap, c.fdbJoined.Keys);
      var gone := Client.Missing(c.fdbJoined.Keys, newVidMap);
      v := Visit(missing, gone);
      joinIds', quitIds' := joinIds + missing, quitIds + gone;
      TakeTurn(c, joinIds', quitIds', clients, i);
      report := |joinIds'| > 0 || |quitIds'| > 0;
    }
    CourseGoesOn(s, visits, cs, i, v);
  }

  /** The lists of ids to join and to quit are carried from one master to the next; a master that
      has quit everything is skipped. The course that the loop takes is returned for the record,
      and `reports` says which masters have to report. */
  method UpdateMasterFdb(registry: Registry, clients: seq<Client>)
    returns (reports: seq<bool>, ghost visits: seq<Visit>, ghost cs: seq<Carry>)
    requires Wired(registry, clients) && SystemSound(SystemOf(registry, clients))
    modifies registry, (set c | c in clients)`fdbJoined
    ensures IsUpdate(old(SystemOf(registry, clients)), Everyone(|clients|), visits)
    ensures IsLoop(cs, old(SystemOf(registry, clients)), Everyone(|clients|), visits, |clients|)
    ensures SystemOf(registry, clients) == cs[|clients|].s
    ensures Reported(old(SystemOf(registry, clients)), cs, reports, |clients|)
  {
    ghost var s := SystemOf(registry, clients);
    visits := seq(|clients|, _ => Visit([], []));
    cs := [Carry(s, [], [])];
    reports := [];
    var newVidMap := registry.fdbs.Keys;
    var joinIds: seq<nat>, quitIds: seq<nat> := [], [];
    CourseStarts(s, visits);
    var i := 0;
    while i < |clients|
      invariant 0 <= i <= |clients| && Underway(registry, clients, joinIds, quitIds, s, visits, cs, i)
      invariant Reported(s, cs, reports, i)
    {
      ghost var v;
      var report;
      joinIds, quitIds, report, v := MasterTurn(registry, clients, i, newVidMap, joinIds, quitIds, s, visits, cs);
      ReportedGoesOn(s, cs, reports, i, Turn(cs[i], i, v), report);
      cs := cs + [Turn(cs[i], i, v)];
      visits := visits[i := v];
      reports := reports + [report];
      i := i + 1;
    }
  }
}
