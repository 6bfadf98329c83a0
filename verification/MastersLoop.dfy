/** What `updateMasterFdb` leaves behind, for any number of masters: exactly when a master keeps
    one port per FDB, and exactly when it sits in the live FDB. */
module MastersLoop {
  import opened Machine
  import Counting
  import opened Membership
  import opened MembershipLists
  import opened Masters

  // ----- The loop variables after `n` masters -----

  ghost predicate SameClients(s: System, s': System) {
    && s'.fdbs == s.fdbs && |s'.objects| == |s.objects| && |s'.members| == |s.members|
    && (forall i :: 0 <= i < |s.members| ==> s'.members[i].owner == s.members[i].owner)
    && (forall i :: 0 <= i < |s.members| ==> (s'.members[i].joined.Some? <==> s.members[i].joined.Some?))
  }

  ghost predicate LoopOk(c: Carry, s: System) {
    SystemSound(c.s) && SameClients(s, c.s) && Fits(s.fdbs, c.joinIds, c.quitIds)
  }

  /** Member `i` has not had a turn. */
  ghost predicate Waiting(c: Carry, s: System, i: nat, k: nat)
    requires i < |s.members|
  {
    && SameClients(s, c.s) && c.s.members[i] == s.members[i]
    && StandingOf(c.s.View(i), s.members[i].owner, k)
       == StandingOf(s.View(i), s.members[i].owner, k).(free := FreePorts(c.s.View(i), k))
  }

  lemma {:induction false} FitsMore(fdbs: map<nat, nat>, joined: map<nat, FdbPort>, c: Carry, v: Visit)
    requires Fits(fdbs, c.joinIds, c.quitIds) && IsVisit(fdbs.Keys, joined, v)
    ensures Fits(fdbs, c.joinIds + v.missing, c.quitIds + v.gone)
  {
    var joinIds, quitIds := c.joinIds + v.missing, c.quitIds + v.gone;
    forall j | 0 <= j < |joinIds| ensures joinIds[j] in fdbs {
      assert j >= |c.joinIds| ==> joinIds[j] == v.missing[j - |c.joinIds|] && joinIds[j] in v.missing;
    }
    forall j | 0 <= j < |quitIds| ensures quitIds[j] !in fdbs {
      assert j >= |c.quitIds| ==> quitIds[j] == v.gone[j - |c.quitIds|] && quitIds[j] in v.gone;
    }
  }

  /** An id that is neither had nor to be joined is not had afterwards. */
  lemma {:induction false} ForgottenOrNever(w: World, me: Owner, joinIds: seq<nat>, quitIds: seq<nat>, k: nat)
    requires Sound(w, me) && Fits(w.fdbs, joinIds, quitIds) && k !in w.fdbs
    ensures k !in w.joined ==> k !in Reconciling(w, me, joinIds, quitIds, false).joined
  {
    var qs := QuitRounds(w, me, quitIds, false);
    var js := Rounds(qs[|quitIds|], me, joinIds);
    RoundsAreQuits(w, me, quitIds, false, |quitIds|);
    RoundsAreJoins(qs[|quitIds|], me, joinIds, |joinIds|);
    QuitsSound(qs, me, quitIds, false, |quitIds|);
    JoinsElsewhere(js, me, joinIds, |joinIds|, k);
    if k !in w.joined {
      QuitsOnlyForget(qs, me, quitIds, false, |quitIds|, k);
    }
  }

  lemma {:induction false} QuitsOnlyForget(ws: seq<World>, me: Owner, ids: seq<nat>, fixed: bool, n: nat, k: nat)
    requires IsQuits(ws, me, ids, fixed, n) && Sound(ws[0], me) && k !in ws[0].joined
    ensures k !in ws[n].joined
  {
    if n > 0 {
      QuitsOnlyForget(ws, me, ids, fixed, n - 1, k);
      QuitsSound(ws, me, ids, fixed, n - 1);
      QuitOneKeeps(ws[n - 1], me, ids[n - 1], fixed, 0);
    }
  }

  ghost predicate MovedAt(c: Carry, c': Carry, s: System, i: nat, k: nat)
    requires i < |s.members| && SameClients(s, c.s) && SameClients(s, c'.s)
  {
    && (k in s.fdbs ==> StandingOf(c'.s.View(i), s.members[i].owner, k)
                        == PushedTimes(StandingOf(c.s.View(i), s.members[i].owner, k),
                                       Count(c'.joinIds, |c'.joinIds|, k)))
    && (k !in s.fdbs && Tidy(c.s.View(i), s.members[i].owner, k) ==> Tidy(c'.s.View(i), s.members[i].owner, k))
    && (k !in s.fdbs ==> k !in c'.s.members[i].List())
  }

  ghost predicate UnmovedAt(c: Carry, c': Carry, s: System, j: nat, k: nat)
    requires j < |s.members| && SameClients(s, c.s) && SameClients(s, c'.s)
  {
    && c'.s.members[j] == c.s.members[j]
    && StandingOf(c'.s.View(j), s.members[j].owner, k)
       == StandingOf(c.s.View(j), s.members[j].owner, k).(free := FreePorts(c'.s.View(j), k))
  }

  /** The premises of a turn. */
  ghost predicate MayTurn(c: Carry, s: System, i: nat, v: Visit) {
    && LoopOk(c, s) && i < |s.members| && s.members[i].joined.Some?
    && c.s.members[i] == s.members[i] && IsVisit(s.fdbs.Keys, s.members[i].List(), v)
  }

  /** `w'` is what the turn makes of member `i`'s view. */
  ghost predicate TurnResult(w: World, w': World, me: Owner, joinIds: seq<nat>, quitIds: seq<nat>, k: nat) {
    && Sound(w', me) && OthersUntouched(w, w', me)
    && w'.fdbs == w.fdbs && |w'.objects| == |w.objects|
    && (k in w.fdbs ==> StandingOf(w', me, k) == PushedTimes(StandingOf(w, me, k), Count(joinIds, |joinIds|, k)))
    && (k !in w.fdbs && Tidy(w, me, k) ==> Tidy(w', me, k))
    && (k in quitIds ==> k !in w'.joined)
    && (k !in w.fdbs && k !in w.joined ==> k !in w'.joined)
  }

  lemma {:induction false} TurnResults(w: World, me: Owner, joinIds: seq<nat>, quitIds: seq<nat>, k: nat)
    requires Sound(w, me) && Fits(w.fdbs, joinIds, quitIds)
    ensures TurnResult(w, Reconciling(w, me, joinIds, quitIds, false), me, joinIds, quitIds, k)
  {
    TurnOfMaster(w, me, joinIds, quitIds, k);
    if k !in w.fdbs {
      ForgottenOrNever(w, me, joinIds, quitIds, k);
    }
  }

  lemma {:induction false} PutOk(c: Carry, s: System, i: nat, v: Visit, w': World, k: nat)
    requires MayTurn(c, s, i, v)
    requires TurnResult(c.s.View(i), w', s.members[i].owner, c.joinIds + v.missing, c.quitIds + v.gone, k)
    ensures LoopOk(Carry(c.s.Put(i, w'), c.joinIds + v.missing, c.quitIds + v.gone), s)
  {
    FitsMore(s.fdbs, s.members[i].List(), c, v);
    PutSound(c.s, i, w');
  }

  lemma {:induction false} MovedByTurn(c: Carry, s: System, i: nat, v: Visit, w': World, k: nat)
    requires MayTurn(c, s, i, v)
    requires TurnResult(c.s.View(i), w', s.members[i].owner, c.joinIds + v.missing, c.quitIds + v.gone, k)
    ensures var c' := Carry(c.s.Put(i, w'), c.joinIds + v.missing, c.quitIds + v.gone);
      LoopOk(c', s) && MovedAt(c, c', s, i, k)
  {
    PutOk(c, s, i, v, w', k);
    assert c.s.Put(i, w').View(i) == w';
    if k in s.members[i].List() && k !in s.fdbs {
      var at :| 0 <= at < |v.gone| && v.gone[at] == k;
      assert (c.quitIds + v.gone)[|c.quitIds| + at] == k;
    }
  }

  lemma {:induction false} UnmovedByTurn(c: Carry, s: System, i: nat, v: Visit, w': World, j: nat, k: nat)
    requires MayTurn(c, s, i, v) && j < |s.members| && j != i
    requires TurnResult(c.s.View(i), w', s.members[i].owner, c.joinIds + v.missing, c.quitIds + v.gone, k)
    requires var c' := Carry(c.s.Put(i, w'), c.joinIds + v.missing, c.quitIds + v.gone);
      LoopOk(c', s)
    ensures UnmovedAt(c, Carry(c.s.Put(i, w'), c.joinIds + v.missing, c.quitIds + v.gone), s, j, k)
  {
    assert s.members[i].owner != s.members[j].owner by {
      assert Apart(c.s, i, j);
    }
    BystanderStands(c.s.View(i), w', s.members[i].owner, s.members[j].owner, c.s.members[j].List(), k);
  }

  lemma {:induction false} TurnKeepsOk(c: Carry, s: System, i: nat, v: Visit)
    requires MayTurn(c, s, i, v)
    ensures LoopOk(Turn(c, i, v), s)
    ensures forall j :: 0 <= j < |s.members| && j != i ==> Turn(c, i, v).s.members[j] == c.s.members[j]
  {
    FitsMore(s.fdbs, s.members[i].List(), c, v);
    assert SoundAt(c.s, i);
    TurnResults(c.s.View(i), s.members[i].owner, c.joinIds + v.missing, c.quitIds + v.gone, 0);
    MovedByTurn(c, s, i, v,
      Reconciling(c.s.View(i), s.members[i].owner, c.joinIds + v.missing, c.quitIds + v.gone, false), 0);
  }

  lemma {:induction false} TurnMoves(c: Carry, s: System, i: nat, v: Visit, k: nat)
    requires MayTurn(c, s, i, v)
    ensures SameClients(s, Turn(c, i, v).s) && MovedAt(c, Turn(c, i, v), s, i, k)
  {
    FitsMore(s.fdbs, s.members[i].List(), c, v);
    assert SoundAt(c.s, i);
    TurnResults(c.s.View(i), s.members[i].owner, c.joinIds + v.missing, c.quitIds + v.gone, k);
    MovedByTurn(c, s, i, v,
      Reconciling(c.s.View(i), s.members[i].owner, c.joinIds + v.missing, c.quitIds + v.gone, false), k);
  }

  lemma {:induction false} TurnLeaves(c: Carry, s: System, i: nat, v: Visit, j: nat, k: nat)
    requires MayTurn(c, s, i, v) && j < |s.members| && j != i
    ensures SameClients(s, Turn(c, i, v).s) && UnmovedAt(c, Turn(c, i, v), s, j, k)
  {
    FitsMore(s.fdbs, s.members[i].List(), c, v);
    assert SoundAt(c.s, i);
    TurnResults(c.s.View(i), s.members[i].owner, c.joinIds + v.missing, c.quitIds + v.gone, k);
    TurnKeepsOk(c, s, i, v);
    UnmovedByTurn(c, s, i, v,
      Reconciling(c.s.View(i), s.members[i].owner, c.joinIds + v.missing, c.quitIds + v.gone, false), j, k);
  }

  // ----- The whole loop -----

  function Touched(masters: seq<nat>, n: nat): set<nat>
    requires n <= |masters|
  {
    if n == 0 then {} else Touched(masters, n - 1) + {masters[n - 1]}
  }

  lemma {:induction false} NotTouchedYet(masters: seq<nat>, n: nat, i: nat)
    requires n <= |masters|
    ensures i in Touched(masters, n) <==> exists m :: 0 <= m < n && masters[m] == i
  {
    if n > 0 {
      NotTouchedYet(masters, n - 1, i);
      if m :| 0 <= m < n && masters[m] == i {
        assert m < n - 1 || m == n - 1;
      }
    }
  }

  /** What the loop keeps: members whose turn has not come are as they were. */
  ghost predicate LoopInv(c: Carry, s: System, touched: set<nat>) {
    LoopOk(c, s) && forall i :: 0 <= i < |s.members| && i !in touched ==> c.s.members[i] == s.members[i]
  }

  lemma {:induction false} LoopInvStep(c: Carry, s: System, i: nat, v: Visit, touched: set<nat>)
    requires LoopInv(c, s, touched) && i < |s.members| && i !in touched
    requires s.members[i].joined.Some? ==> IsVisit(s.fdbs.Keys, s.members[i].List(), v)
    ensures LoopInv(Turn(c, i, v), s, touched + {i})
  {
    if s.members[i].joined.Some? {
      TurnKeepsOk(c, s, i, v);
    }
  }

  lemma {:induction false} LoopKeeps(cs: seq<Carry>, s: System, masters: seq<nat>, visits: seq<Visit>, n: nat)
    requires IsLoop(cs, s, masters, visits, n) && IsUpdate(s, masters, visits) && SystemSound(s)
    ensures LoopInv(cs[n], s, Touched(masters, n))
  {
    if n > 0 {
      LoopKeeps(cs, s, masters, visits, n - 1);
      NotTouchedYet(masters, n - 1, masters[n - 1]);
      LoopInvStep(cs[n - 1], s, masters[n - 1], visits[n - 1], Touched(masters, n - 1));
    }
  }

  lemma {:induction false} CountConcat(a: seq<nat>, b: seq<nat>, n: nat, k: nat)
    requires n <= |b|
    ensures Count(a + b, |a| + n, k) == Count(a, |a|, k) + Count(b, n, k)
  {
    if n > 0 {
      CountConcat(a, b, n - 1, k);
    } else {
      CountPrefix(a, b, |a|, k);
    }
  }

  lemma {:induction false} CountPrefix(a: seq<nat>, b: seq<nat>, n: nat, k: nat)
    requires n <= |a|
    ensures Count(a + b, n, k) == Count(a, n, k)
  {
    if n > 0 {
      CountPrefix(a, b, n - 1, k);
    }
  }

  /** An id is once in a list without repetition, or not at all. */
  lemma {:induction false} CountDistinct(ids: seq<nat>, n: nat, k: nat)
    requires Counting.Distinct(ids) && n <= |ids|
    ensures Count(ids, n, k) == if exists j :: 0 <= j < n && ids[j] == k then 1 else 0
  {
    if n > 0 {
      CountDistinct(ids, n - 1, k);
      if j :| 0 <= j < n && ids[j] == k {
        assert j < n - 1 || j == n - 1;
      }
    }
  }

  lemma {:induction false} CountMissing(v: Visit, wanted: set<nat>, joined: map<nat, FdbPort>, k: nat)
    requires IsVisit(wanted, joined, v) && k in wanted
    ensures Count(v.missing, |v.missing|, k) == if k in joined then 0 else 1
  {
    CountDistinct(v.missing, |v.missing|, k);
    assert k in v.missing <==> exists j :: 0 <= j < |v.missing| && v.missing[j] == k;
  }

  /** The free ports do not depend on who looks. */
  lemma {:induction false} FreeIsShared(s: System, i: nat, k: nat)
    requires i < |s.members|
    ensures FreePorts(s.View(i), k) == FreePorts(World(s.fdbs, s.objects, map[]), k)
  {
  }
}
