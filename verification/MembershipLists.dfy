/** The loops of `src/vnet/vid.go` over lists of ids: joining and quitting one FDB after the other,
    and what `handleFdbIds` and `updateMasterFdb` make of it for one client. */
module MembershipLists {
  import Counting
  import opened Membership

  /** `joinFdbByIds`, the first `n` rounds. */
  function JoinAll(w: World, me: Owner, ids: seq<nat>, n: nat): World
    requires n <= |ids|
  {
    if n == 0 then w else JoinOne(JoinAll(w, me, ids, n - 1), me, ids[n - 1])
  }

  /** `quitFdbByIds`, the first `n` rounds. */
  function QuitAll(w: World, me: Owner, ids: seq<nat>, fixed: bool, n: nat): World
    requires n <= |ids|
  {
    if n == 0 then w else QuitOne(QuitAll(w, me, ids, fixed, n - 1), me, ids[n - 1], fixed)
  }

  // ----- Joining a list -----

  /** The worlds that the rounds go through. */
  ghost predicate IsJoins(ws: seq<World>, me: Owner, ids: seq<nat>, n: nat) {
    && n <= |ids| && n < |ws|
    && (n > 0 ==> IsJoins(ws, me, ids, n - 1) && ws[n] == JoinOne(ws[n - 1], me, ids[n - 1]))
  }

  ghost function Rounds(w: World, me: Owner, ids: seq<nat>): (ws: seq<World>)
    ensures |ws| == |ids| + 1
    ensures forall n :: 0 <= n <= |ids| ==> ws[n] == JoinAll(w, me, ids, n)
  {
    seq(|ids| + 1, n requires 0 <= n <= |ids| => JoinAll(w, me, ids, n))
  }

  lemma {:induction false} RoundsAreJoins(w: World, me: Owner, ids: seq<nat>, n: nat)
    requires n <= |ids|
    ensures IsJoins(Rounds(w, me, ids), me, ids, n)
  {
    if n > 0 {
      RoundsAreJoins(w, me, ids, n - 1);
    }
  }

  lemma {:induction false} JoinsSound(ws: seq<World>, me: Owner, ids: seq<nat>, n: nat)
    requires IsJoins(ws, me, ids, n) && Sound(ws[0], me)
    ensures Sound(ws[n], me) && OthersUntouched(ws[0], ws[n], me)
  {
    if n > 0 {
      JoinsSound(ws, me, ids, n - 1);
      JoinOneKeeps(ws[n - 1], me, ids[n - 1], 0);
      UntouchedTwice(ws[0], ws[n - 1], ws[n], me);
    }
  }

  /** An id that is not in the list is not affected. */
  lemma {:induction false} JoinsElsewhere(ws: seq<World>, me: Owner, ids: seq<nat>, n: nat, k: nat)
    requires IsJoins(ws, me, ids, n) && Sound(ws[0], me) && forall j :: 0 <= j < n ==> ids[j] != k
    ensures SameAt(ws[0], ws[n], me, k)
  {
    if n > 0 {
      JoinsElsewhere(ws, me, ids, n - 1, k);
      JoinsSound(ws, me, ids, n - 1);
      JoinOneKeeps(ws[n - 1], me, ids[n - 1], k);
      SameTwice(ws[0], ws[n - 1], ws[n], me, k);
    }
  }

  lemma {:induction false} HereAfterSame(w: World, w1: World, w2: World, me: Owner, k: nat)
    requires SameAt(w, w1, me, k) && JoinedHere(w1, w2, me, k)
    ensures JoinedHere(w, w2, me, k)
  {
  }

  lemma {:induction false} SameAfterHere(w: World, w1: World, w2: World, me: Owner, k: nat)
    requires JoinedHere(w, w1, me, k) && SameAt(w1, w2, me, k)
    ensures JoinedHere(w, w2, me, k)
  {
  }

  /** An id that is in the list once is joined as if it were alone. */
  lemma {:induction false} JoinsOnce(ws: seq<World>, me: Owner, ids: seq<nat>, n: nat, at: nat)
    requires IsJoins(ws, me, ids, n) && Sound(ws[0], me) && at < n && Counting.Distinct(ids)
    ensures JoinedHere(ws[0], ws[n], me, ids[at])
  {
    JoinsSound(ws, me, ids, n - 1);
    JoinOneKeeps(ws[n - 1], me, ids[n - 1], ids[at]);
    if at == n - 1 {
      JoinsElsewhere(ws, me, ids, n - 1, ids[at]);
      HereAfterSame(ws[0], ws[n - 1], ws[n], me, ids[at]);
    } else {
      JoinsOnce(ws, me, ids, n - 1, at);
      SameAfterHere(ws[0], ws[n - 1], ws[n], me, ids[at]);
    }
  }

  lemma {:induction false} JoinAllSound(w: World, me: Owner, ids: seq<nat>, n: nat)
    requires Sound(w, me) && n <= |ids|
    ensures Sound(JoinAll(w, me, ids, n), me)
    ensures OthersUntouched(w, JoinAll(w, me, ids, n), me)
  {
    RoundsAreJoins(w, me, ids, n);
    JoinsSound(Rounds(w, me, ids), me, ids, n);
  }

  // ----- Quitting a list -----

  ghost predicate IsQuits(ws: seq<World>, me: Owner, ids: seq<nat>, fixed: bool, n: nat) {
    && n <= |ids| && n < |ws|
    && (n > 0 ==> IsQuits(ws, me, ids, fixed, n - 1) && ws[n] == QuitOne(ws[n - 1], me, ids[n - 1], fixed))
  }

  ghost function QuitRounds(w: World, me: Owner, ids: seq<nat>, fixed: bool): (ws: seq<World>)
    ensures |ws| == |ids| + 1
    ensures forall n :: 0 <= n <= |ids| ==> ws[n] == QuitAll(w, me, ids, fixed, n)
  {
    seq(|ids| + 1, n requires 0 <= n <= |ids| => QuitAll(w, me, ids, fixed, n))
  }

  lemma {:induction false} RoundsAreQuits(w: World, me: Owner, ids: seq<nat>, fixed: bool, n: nat)
    requires n <= |ids|
    ensures IsQuits(QuitRounds(w, me, ids, fixed), me, ids, fixed, n)
  {
    if n > 0 {
      RoundsAreQuits(w, me, ids, fixed, n - 1);
    }
  }

  lemma {:induction false} QuitsSound(ws: seq<World>, me: Owner, ids: seq<nat>, fixed: bool, n: nat)
    requires IsQuits(ws, me, ids, fixed, n) && Sound(ws[0], me)
    ensures Sound(ws[n], me) && OthersUntouched(ws[0], ws[n], me)
  {
    if n > 0 {
      QuitsSound(ws, me, ids, fixed, n - 1);
      QuitOneKeeps(ws[n - 1], me, ids[n - 1], fixed, 0);
      UntouchedTwice(ws[0], ws[n - 1], ws[n], me);
    }
  }

  lemma {:induction false} QuitsElsewhere(ws: seq<World>, me: Owner, ids: seq<nat>, fixed: bool, n: nat, k: nat)
    requires IsQuits(ws, me, ids, fixed, n) && Sound(ws[0], me) && forall j :: 0 <= j < n ==> ids[j] != k
    ensures SameAt(ws[0], ws[n], me, k)
  {
    if n > 0 {
      QuitsElsewhere(ws, me, ids, fixed, n - 1, k);
      QuitsSound(ws, me, ids, fixed, n - 1);
      QuitOneKeeps(ws[n - 1], me, ids[n - 1], fixed, k);
      SameTwice(ws[0], ws[n - 1], ws[n], me, k);
    }
  }

  /** The client has nothing left for the id. */
  ghost predicate Gone(w: World, me: Owner, k: nat) {
    k !in w.joined && !HasPort(w, me, k)
  }

  lemma {:induction false} StaysGone(w: World, w': World, me: Owner, k: nat)
    requires Gone(w, me, k) && SameAt(w, w', me, k)
    ensures Gone(w', me, k)
  {
  }

  lemma {:induction false} GoneIsTidy(w: World, me: Owner, k: nat)
    requires Gone(w, me, k)
    ensures Tidy(w, me, k)
  {
  }

  lemma {:induction false} SameIsTidy(w: World, w': World, me: Owner, k: nat)
    requires SameAt(w, w', me, k) && Tidy(w, me, k)
    ensures Tidy(w', me, k)
  {
  }

  /** What is tidy stays tidy. */
  lemma {:induction false} QuitsTidy(ws: seq<World>, me: Owner, ids: seq<nat>, fixed: bool, n: nat, k: nat)
    requires IsQuits(ws, me, ids, fixed, n) && Sound(ws[0], me) && Tidy(ws[0], me, k)
    ensures Tidy(ws[n], me, k)
  {
    if n > 0 {
      QuitsTidy(ws, me, ids, fixed, n - 1, k);
      QuitsSound(ws, me, ids, fixed, n - 1);
      QuitOneKeeps(ws[n - 1], me, ids[n - 1], fixed, k);
      if ids[n - 1] == k {
        GoneIsTidy(ws[n], me, k);
      } else {
        SameIsTidy(ws[n - 1], ws[n], me, k);
      }
    }
  }

  /** An id in the list, however often, is quit. */
  lemma {:induction false} QuitsHere(ws: seq<World>, me: Owner, ids: seq<nat>, fixed: bool, n: nat, at: nat)
    requires IsQuits(ws, me, ids, fixed, n) && Sound(ws[0], me) && at < n && Tidy(ws[0], me, ids[at])
    ensures Gone(ws[n], me, ids[at])
  {
    QuitsTidy(ws, me, ids, fixed, n - 1, ids[at]);
    QuitsSound(ws, me, ids, fixed, n - 1);
    QuitOneKeeps(ws[n - 1], me, ids[n - 1], fixed, ids[at]);
    if ids[n - 1] != ids[at] {
      QuitsHere(ws, me, ids, fixed, n - 1, at);
      StaysGone(ws[n - 1], ws[n], me, ids[at]);
    }
  }

  lemma {:induction false} QuitAllSound(w: World, me: Owner, ids: seq<nat>, fixed: bool, n: nat)
    requires Sound(w, me) && n <= |ids|
    ensures Sound(QuitAll(w, me, ids, fixed, n), me)
    ensures OthersUntouched(w, QuitAll(w, me, ids, fixed, n), me)
  {
    RoundsAreQuits(w, me, ids, fixed, n);
    QuitsSound(QuitRounds(w, me, ids, fixed), me, ids, fixed, n);
  }

  /** Quitting only ever takes FDBs out of the registry. */
  lemma {:induction false} QuitsRegistry(ws: seq<World>, me: Owner, ids: seq<nat>, fixed: bool, n: nat, k: nat)
    requires IsQuits(ws, me, ids, fixed, n)
    ensures k in ws[n].fdbs ==> k in ws[0].fdbs && ws[n].fdbs[k] == ws[0].fdbs[k]
    ensures |ws[n].objects| == |ws[0].objects|
  {
    if n > 0 {
      QuitsRegistry(ws, me, ids, fixed, n - 1, k);
      QuitOneRegistry(ws[n - 1], me, ids[n - 1], fixed);
    }
  }

  // ----- Reconciliation of one client -----

  /** What one client adds to the two lists, in the order in which it visits the maps. */
  datatype Visit = Visit(missing: seq<nat>, gone: seq<nat>)

  ghost predicate IsVisit(wanted: set<nat>, joined: map<nat, FdbPort>, v: Visit) {
    && Counting.Distinct(v.missing)
    && (forall k: nat :: k in v.missing <==> k in wanted && k !in joined)
    && (forall k: nat :: k in v.gone <==> k in joined && k !in wanted)
  }

  /** Quit what is gone, join what is missing. */
  function Reconciling(w: World, me: Owner, joinIds: seq<nat>, quitIds: seq<nat>, fixed: bool): World {
    JoinAll(QuitAll(w, me, quitIds, fixed, |quitIds|), me, joinIds, |joinIds|)
  }

  /** The result for one id: the client has joined it exactly if it is wanted and was joined or
      not full; what it had, it keeps; what is new, is live; and nothing is leaked. */
  ghost predicate ReconciledAt(w: World, w': World, me: Owner, wanted: set<nat>, k: nat) {
    && (k in w'.joined <==> k in wanted && (k in w.joined || !Full(w, k)))
    && (k in wanted && k in w.joined ==> w'.joined[k] == w.joined[k])
    && (k in w'.joined && k !in w.joined ==> k in w'.fdbs && w'.fdbs[k] == w'.joined[k].obj)
    && (k in w.fdbs && k in w'.fdbs ==> w'.fdbs[k] == w.fdbs[k])
    && (k in w.fdbs && k !in w'.fdbs ==> k in w.joined && k !in wanted)
    && (k !in w.fdbs && k in w'.fdbs ==> k in wanted && k !in w.joined)
    && Tidy(w', me, k)
  }

  ghost predicate Reconciled(w: World, w': World, me: Owner, wanted: set<nat>) {
    && WorldOk(w', me) && OthersUntouched(w, w', me)
    && forall k: nat :: ReconciledAt(w, w', me, wanted, k)
  }

  lemma {:induction false} MissingIsReconciled(w: World, w1: World, w2: World, me: Owner, wanted: set<nat>, k: nat)
    requires SameAt(w, w1, me, k) && JoinedHere(w1, w2, me, k)
    requires Tidy(w, me, k) && k in wanted && k !in w.joined && !HasPort(w, me, k)
    ensures ReconciledAt(w, w2, me, wanted, k)
  {
  }

  lemma {:induction false} OtherIsReconciled(w: World, w1: World, w2: World, me: Owner, wanted: set<nat>, k: nat)
    requires SameAt(w, w1, me, k) && SameAt(w1, w2, me, k)
    requires Tidy(w, me, k) && (k in wanted <==> k in w.joined)
    ensures ReconciledAt(w, w2, me, wanted, k)
  {
  }

  lemma {:induction false} GoneIsReconciled(w: World, w1: World, w2: World, me: Owner, wanted: set<nat>, k: nat)
    requires Gone(w1, me, k) && SameAt(w1, w2, me, k)
    requires k in w1.fdbs ==> k in w.fdbs && w1.fdbs[k] == w.fdbs[k]
    requires k in w.joined && k !in wanted
    ensures ReconciledAt(w, w2, me, wanted, k)
  {
    GoneIsTidy(w1, me, k);
  }

  /** `qs` quits what is gone, and `js` goes on to join what is missing. */
  ghost predicate IsReconciling(qs: seq<World>, js: seq<World>, me: Owner, wanted: set<nat>, v: Visit, fixed: bool) {
    && IsQuits(qs, me, v.gone, fixed, |v.gone|) && IsJoins(js, me, v.missing, |v.missing|)
    && js[0] == qs[|v.gone|] && WorldOk(qs[0], me) && IsVisit(wanted, qs[0].joined, v)
  }

  lemma {:induction false} MissingCase(qs: seq<World>, js: seq<World>, me: Owner, wanted: set<nat>, v: Visit,
      fixed: bool, at: nat)
    requires IsReconciling(qs, js, me, wanted, v, fixed) && at < |v.missing|
    ensures ReconciledAt(qs[0], js[|v.missing|], me, wanted, v.missing[at])
  {
    var k := v.missing[at];
    assert k in v.missing;
    NoLeakIsTidy(qs[0], me);
    TidyHas(qs[0], me, k);
    QuitsSound(qs, me, v.gone, fixed, |v.gone|);
    assert forall j :: 0 <= j < |v.gone| ==> v.gone[j] in v.gone;
    QuitsElsewhere(qs, me, v.gone, fixed, |v.gone|, k);
    JoinsOnce(js, me, v.missing, |v.missing|, at);
    MissingIsReconciled(qs[0], js[0], js[|v.missing|], me, wanted, k);
  }

  lemma {:induction false} GoneCase(qs: seq<World>, js: seq<World>, me: Owner, wanted: set<nat>, v: Visit,
      fixed: bool, at: nat)
    requires IsReconciling(qs, js, me, wanted, v, fixed) && at < |v.gone|
    ensures ReconciledAt(qs[0], js[|v.missing|], me, wanted, v.gone[at])
  {
    var k := v.gone[at];
    assert k in v.gone;
    NoLeakIsTidy(qs[0], me);
    QuitsSound(qs, me, v.gone, fixed, |v.gone|);
    QuitsHere(qs, me, v.gone, fixed, |v.gone|, at);
    QuitsRegistry(qs, me, v.gone, fixed, |v.gone|, k);
    assert forall j :: 0 <= j < |v.missing| ==> v.missing[j] in v.missing;
    JoinsElsewhere(js, me, v.missing, |v.missing|, k);
    GoneIsReconciled(qs[0], js[0], js[|v.missing|], me, wanted, k);
  }

  lemma {:induction false} OtherCase(qs: seq<World>, js: seq<World>, me: Owner, wanted: set<nat>, v: Visit,
      fixed: bool, k: nat)
    requires IsReconciling(qs, js, me, wanted, v, fixed) && k !in v.missing && k !in v.gone
    ensures ReconciledAt(qs[0], js[|v.missing|], me, wanted, k)
  {
    NoLeakIsTidy(qs[0], me);
    QuitsSound(qs, me, v.gone, fixed, |v.gone|);
    QuitsElsewhere(qs, me, v.gone, fixed, |v.gone|, k);
    JoinsElsewhere(js, me, v.missing, |v.missing|, k);
    OtherIsReconciled(qs[0], js[0], js[|v.missing|], me, wanted, k);
  }

  lemma {:induction false} ReconcilesAt(w: World, me: Owner, wanted: set<nat>, v: Visit, fixed: bool, k: nat)
    requires WorldOk(w, me) && IsVisit(wanted, w.joined, v)
    ensures ReconciledAt(w, Reconciling(w, me, v.missing, v.gone, fixed), me, wanted, k)
  {
    var qs := QuitRounds(w, me, v.gone, fixed);
    var js := Rounds(qs[|v.gone|], me, v.missing);
    RoundsAreQuits(w, me, v.gone, fixed, |v.gone|);
    RoundsAreJoins(qs[|v.gone|], me, v.missing, |v.missing|);
    if k in v.missing {
      var at :| 0 <= at < |v.missing| && v.missing[at] == k;
      MissingCase(qs, js, me, wanted, v, fixed, at);
    } else if k in v.gone {
      var at :| 0 <= at < |v.gone| && v.gone[at] == k;
      GoneCase(qs, js, me, wanted, v, fixed, at);
    } else {
      OtherCase(qs, js, me, wanted, v, fixed, k);
    }
  }

  lemma {:induction false} ReconcilingSound(w: World, me: Owner, joinIds: seq<nat>, quitIds: seq<nat>, fixed: bool)
    requires Sound(w, me)
    ensures Sound(Reconciling(w, me, joinIds, quitIds, fixed), me)
    ensures OthersUntouched(w, Reconciling(w, me, joinIds, quitIds, fixed), me)
  {
    var w1 := QuitAll(w, me, quitIds, fixed, |quitIds|);
    QuitAllSound(w, me, quitIds, fixed, |quitIds|);
    JoinAllSound(w1, me, joinIds, |joinIds|);
    UntouchedTwice(w, w1, JoinAll(w1, me, joinIds, |joinIds|), me);
  }

  lemma {:induction false} ReconciledEverywhere(w: World, w': World, me: Owner, wanted: set<nat>)
    requires Sound(w', me) && OthersUntouched(w, w', me)
    requires forall k: nat :: ReconciledAt(w, w', me, wanted, k)
    ensures Reconciled(w, w', me, wanted)
  {
    forall k: nat ensures Tidy(w', me, k) {
      assert ReconciledAt(w, w', me, wanted, k);
    }
    NoLeakIsTidy(w', me);
  }

  /** In whatever order the maps are visited, quitting and joining reconciles the client's list
      with the wanted ids, leaks no port, and touches nobody else's. */
  lemma {:induction false} Reconciles(w: World, me: Owner, wanted: set<nat>, v: Visit, fixed: bool)
    requires WorldOk(w, me) && IsVisit(wanted, w.joined, v)
    ensures Reconciled(w, Reconciling(w, me, v.missing, v.gone, fixed), me, wanted)
  {
    ReconcilingSound(w, me, v.missing, v.gone, fixed);
    forall k: nat ensures ReconciledAt(w, Reconciling(w, me, v.missing, v.gone, fixed), me, wanted, k) {
      ReconcilesAt(w, me, wanted, v, fixed, k);
    }
    ReconciledEverywhere(w, Reconciling(w, me, v.missing, v.gone, fixed), me, wanted);
  }
}
