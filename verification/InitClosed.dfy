/** Exactly when a reload is the closed form of InitModel, of the table as it is stored. */
module InitClosed {
  import opened InitModel
  import opened InitReload
  import opened InitQueue

  // ----- one key -----

  /** Of the kinds left to a key only the last may live; and if it lives and the key had a
      process, then it is left to the entry with the process. */
  predicate HarmlessAt(q: seq<Entry>, ls: seq<Line>)
    requires |q| <= 1
  {
    var ks := KindsLeft(q, ls);
    && (forall i :: 0 <= i < |ks| - 1 ==> !Lives(ks[i]))
    && (|q| > 0 && q[0].proc != NoProc && Lives(ks[|ks| - 1]) ==> Place(0, 1, ls) == |ks| - 1)
  }

  lemma {:induction false} CutsNone(ls: seq<Line>)
    ensures Cuts(Cut(ls)) == 0
  {
    if |ls| > 0 {
      assert Cut(ls)[..|ls| - 1] == Cut(ls[..|ls| - 1]);
      CutsNone(ls[..|ls| - 1]);
    }
  }

  /** The process of at most one entry. */
  function Only(q: seq<Entry>): Proc { if |q| > 0 then q[0].proc else NoProc }

  lemma SizeCut(n: nat, ls: seq<Line>)
    requires n <= 1
    ensures Size(n, Cut(ls)) == if n + |ls| > 0 then 1 else 0
  {
    CutsNone(ls);
    if |ls| > 0 {
      assert Cut(ls)[1..] == Cut(ls[1..]);
      CutsNone(ls[1..]);
    }
  }

  lemma TurnedSize(q: seq<Entry>, ls: seq<Line>)
    ensures |Turned(q, ls)| == Size(|q|, ls)
  {
    TurnedKinds(q, ls);
  }

  lemma TurnedKind(q: seq<Entry>, ls: seq<Line>, i: nat)
    requires i < |Turned(q, ls)|
    ensures |Turned(q, ls)| == |KindsLeft(q, ls)| && Turned(q, ls)[i].kind == KindsLeft(q, ls)[i]
  {
    TurnedKinds(q, ls);
  }

  /** The last kind is the same for lines and for lines as they are stored. */
  lemma LastKindCut(q: seq<Entry>, ls: seq<Line>)
    requires |q| <= 1 && |q| + |ls| > 0
    ensures var ks, cut := KindsLeft(q, ls), KindsLeft(q, Cut(ls));
            |cut| == 1 && |ks| > 0 && cut[0] == ks[|ks| - 1]
  {
    SizeCut(|q|, ls);
    assert AllFresh(Cut(ls)) == AllFresh(ls);
    LastLeft(q, ls);
    LastLeft(q, Cut(ls));
  }

  lemma LastLeft(q: seq<Entry>, ls: seq<Line>)
    requires |q| + |ls| > 0
    ensures var ks, all := KindsLeft(q, ls), Kinds(q + AllFresh(ls));
            |ks| == Size(|q|, ls) > 0 && |all| > 0 && ks[|ks| - 1] == all[|all| - 1]
  {
  }

  /** An entry has the one process there was exactly if there was none or it is in the
      place of that. */
  lemma ProcIn(q: seq<Entry>, ls: seq<Line>, n: nat)
    requires |q| <= 1 && n < |Turned(q, ls)|
    ensures Turned(q, ls)[n].proc == Only(q) <==> Only(q) == NoProc || Place(0, 1, ls) == n
  {
    var i := OtherPlaces(q, ls, n);
    if |q| > 0 {
      OldPlaces(q, ls, 0);
    }
  }

  /** Lines as they are stored leave one entry, with the last kind and the process. */
  lemma TurnedCut(q: seq<Entry>, ls: seq<Line>)
    requires |q| <= 1 && |q| + |ls| > 0
    ensures var t, u, ks := Turned(q, ls), Turned(q, Cut(ls)), KindsLeft(q, ls);
            |u| == 1 && |t| == |ks| > 0 && u[0].kind == ks[|ks| - 1] && u[0].proc == Only(q)
  {
    TurnedSize(q, ls);
    TurnedSize(q, Cut(ls));
    LastKindCut(q, ls);
    TurnedKind(q, Cut(ls), 0);
    ProcIn(q, Cut(ls), 0);
  }

  /** All entries have this key. */
  predicate Keyed(es: seq<Entry>, k: Key) {
    forall i :: 0 <= i < |es| ==> es[i].Key() == k
  }

  /** Only the last entry may live, and if it does it has this process. */
  predicate LastOnly(t: seq<Entry>, p: Proc)
    requires |t| > 0
  {
    NoneLives(Kinds(t[..|t| - 1])) && (Lives(t[|t| - 1].kind) ==> p == t[|t| - 1].proc)
  }

  lemma LastSwept(t: seq<Entry>, e: Entry)
    requires |t| > 0 && t[|t| - 1].Key() == e.Key() && t[|t| - 1].kind == e.kind
    ensures Sweep(t) == Sweep([e]) <==> LastOnly(t, e.proc)
  {
    SweptQueue(t[..|t| - 1]);
    OneSwept(e);
  }

  lemma HarmlessMeans(q: seq<Entry>, ls: seq<Line>)
    requires |q| <= 1 && |q| + |ls| > 0 && |KindsLeft(q, ls)| > 0
    ensures var ks := KindsLeft(q, ls); var n := |ks| - 1;
            HarmlessAt(q, ls) <==>
            NoneLives(ks[..n]) && (Lives(ks[n]) ==> Only(q) == NoProc || Place(0, 1, ls) == n)
  {
  }

  lemma HarmlessTurned(q: seq<Entry>, ls: seq<Line>)
    requires |q| <= 1 && |q| + |ls| > 0 && |Turned(q, ls)| > 0
    ensures HarmlessAt(q, ls) <==> LastOnly(Turned(q, ls), Only(q))
  {
    var t := Turned(q, ls);
    TurnedKinds(q, ls);
    assert Kinds(t[..|t| - 1]) == KindsLeft(q, ls)[..|t| - 1];
    TurnedKind(q, ls, |t| - 1);
    ProcIn(q, ls, |t| - 1);
    HarmlessMeans(q, ls);
  }

  lemma LastOfBoth(q: seq<Entry>, ls: seq<Line>, k: Key)
    requires |q| <= 1 && |q| + |ls| > 0 && Keyed(q, k) && forall i :: 0 <= i < |ls| ==> Stored(ls[i]).Key() == k
    ensures var t, u := Turned(q, ls), Turned(q, Cut(ls));
            && |t| > 0 && |u| == 1 && u[0].proc == Only(q)
            && t[|t| - 1].Key() == u[0].Key() && t[|t| - 1].kind == u[0].kind
  {
    TurnedKeys(q, ls, k);
    TurnedKeys(q, Cut(ls), k);
    TurnedCut(q, ls);
    TurnedKind(q, ls, |Turned(q, ls)| - 1);
  }

  lemma HarmlessSame(q: seq<Entry>, ls: seq<Line>, k: Key)
    requires |q| <= 1 && Keyed(q, k) && forall i :: 0 <= i < |ls| ==> Stored(ls[i]).Key() == k
    ensures Sweep(Turned(q, ls)) == Sweep(Turned(q, Cut(ls))) <==> HarmlessAt(q, ls)
  {
    if |q| + |ls| > 0 {
      var t, u := Turned(q, ls), Turned(q, Cut(ls));
      LastOfBoth(q, ls, k);
      assert u == [u[0]];
      LastSwept(t, u[0]);
      HarmlessTurned(q, ls);
    }
  }

  // ----- all keys -----

  predicate HarmlessFor(es: seq<Entry>, tab: seq<Line>, k: Key) {
    |Queue(es, k)| <= 1 && HarmlessAt(MarkStale(Queue(es, k)), LinesOf(tab, k))
  }

  ghost predicate Harmless(es: seq<Entry>, tab: seq<Line>) {
    forall k :: HarmlessFor(es, tab, k)
  }

  lemma {:induction false} LinesCut(tab: seq<Line>, k: Key)
    ensures LinesOf(Cut(tab), k) == Cut(LinesOf(tab, k))
  {
    if |tab| > 0 {
      assert Cut(tab)[..|tab| - 1] == Cut(tab[..|tab| - 1]);
      LinesCut(tab[..|tab| - 1], k);
    }
  }

  lemma SameQueue(es: seq<Entry>, tab: seq<Line>, k: Key)
    requires EntriesFit(es) && |Queue(es, k)| <= 1
    ensures Queue(Reload(es, tab), k) == Queue(Reload(es, Cut(tab)), k) <==> HarmlessFor(es, tab, k)
  {
    ReloadQueue(es, tab, k);
    ReloadQueue(es, Cut(tab), k);
    LinesCut(tab, k);
    QueueKeys(es, k);
    LinesKeys(tab, k);
    HarmlessSame(MarkStale(Queue(es, k)), LinesOf(tab, k), k);
  }

  /** What stands by the numbers n and not by m is dead. */
  ghost predicate DeadBetween(ev: seq<Entry>, n: Key -> nat, m: Key -> nat) {
    forall k :: m(k) <= n(k) && DeadFor(Queue(ev, k), n(k), m(k))
  }

  predicate DeadFor(q: seq<Entry>, n: nat, m: nat) {
    forall i :: 0 <= i < |q| && m < |q| - i <= n ==> !Lives(q[i].kind)
  }

  lemma DeadFirst(ev: seq<Entry>, n: Key -> nat, m: Key -> nat)
    requires |ev| > 0 && DeadBetween(ev, n, m)
    ensures var k := ev[0].Key(); m(k) <= n(k) && (m(k) < |Queue(ev, k)| <= n(k) ==> !Lives(ev[0].kind))
  {
    var k := ev[0].Key();
    QueueFirst(ev, k);
    assert DeadFor(Queue(ev, k), n(k), m(k));
    assert Queue(ev, k)[0] == ev[0];
  }

  lemma SweptCons(ev: seq<Entry>, n: Key -> nat)
    requires |ev| > 0
    ensures Sweep(Standing(ev, n)) ==
            (if |Queue(ev, ev[0].Key())| <= n(ev[0].Key()) && Lives(ev[0].kind) then [ev[0]] else []) +
            Sweep(Standing(ev[1..], n))
  {
    StandCons(ev, n);
    SweepConcat([ev[0]], Standing(ev[1..], n));
    OneSwept(ev[0]);
  }

  lemma {:induction false} SweptStanding(ev: seq<Entry>, n: Key -> nat, m: Key -> nat)
    requires DeadBetween(ev, n, m)
    ensures Sweep(Standing(ev, n)) == Sweep(Standing(ev, m))
  {
    if |ev| > 0 {
      DeadRest(ev, n, m);
      SweptStanding(ev[1..], n, m);
      DeadFirst(ev, n, m);
      SweptCons(ev, n);
      SweptCons(ev, m);
    }
  }

  lemma DeadSuffix(q: seq<Entry>, i: nat, n: nat, m: nat)
    requires DeadFor(q, n, m) && i <= |q|
    ensures DeadFor(q[i..], n, m)
  {
  }

  lemma DeadRest(ev: seq<Entry>, n: Key -> nat, m: Key -> nat)
    requires |ev| > 0 && DeadBetween(ev, n, m)
    ensures DeadBetween(ev[1..], n, m)
  {
    forall k ensures m(k) <= n(k) && DeadFor(Queue(ev[1..], k), n(k), m(k)) {
      QueueFirst(ev, k);
      var i := if ev[0].Key() == k then 1 else 0;
      assert Queue(ev[1..], k) == Queue(ev, k)[i..];
      DeadSuffix(Queue(ev, k), i, n(k), m(k));
    }
  }

  lemma DeadKinds(q: seq<Entry>, n: nat)
    requires n <= |q| && NoneLives(LastOf(Kinds(q), n)[..if n > 0 then n - 1 else 0])
    ensures DeadFor(q, n, 1)
  {
    var ks := LastOf(Kinds(q), n);
    forall i | 0 <= i < |q| && 1 < |q| - i <= n ensures !Lives(q[i].kind) {
      assert ks[..n - 1][i - (|q| - n)] == Kinds(q)[i];
    }
  }

  lemma HarmlessDead(q: seq<Entry>, ls: seq<Line>)
    requires |q| <= 1 && HarmlessAt(q, ls)
    ensures Size(|q|, Cut(ls)) <= Size(|q|, ls)
    ensures DeadFor(Bare(q) + AllFresh(ls), Size(|q|, ls), Size(|q|, Cut(ls)))
  {
    SizeCut(|q|, ls);
    if |q| + |ls| > 0 {
      assert Kinds(Bare(q) + AllFresh(ls)) == Kinds(q + AllFresh(ls));
      HarmlessMeans(q, ls);
      DeadKinds(Bare(q) + AllFresh(ls), Size(|q|, ls));
    }
  }

  /** A harmless table leaves the same entries in the same order as the table that is
      stored. */
  lemma SameOrder(es: seq<Entry>, tab: seq<Line>)
    requires EntriesFit(es) && Harmless(es, tab)
    ensures Bare(Reload(es, tab)) == Bare(Reload(es, Cut(tab)))
  {
    ReloadOrder(es, tab);
    ReloadOrder(es, Cut(tab));
    assert AllFresh(Cut(tab)) == AllFresh(tab);
    var ev := Events(MarkStale(es), tab);
    forall k ensures Sizes(es, Cut(tab))(k) <= Sizes(es, tab)(k) &&
                     DeadFor(Queue(ev, k), Sizes(es, tab)(k), Sizes(es, Cut(tab))(k))
    {
      assert HarmlessFor(es, tab, k);
      QueueEvents(MarkStale(es), tab, k);
      QueueStale(es, k);
      LinesCut(tab, k);
      HarmlessDead(MarkStale(Queue(es, k)), LinesOf(tab, k));
    }
    SweptStanding(ev, Sizes(es, tab), Sizes(es, Cut(tab)));
  }

  /** Two lists are one if their entries are, in order, and the queues of their keys. */
  lemma SameList(a: seq<Entry>, b: seq<Entry>)
    requires Bare(a) == Bare(b) && QueuesShort(b) && forall k :: Queue(a, k) == Queue(b, k)
    ensures a == b
  {
    forall i | 0 <= i < |a| ensures a[i] == b[i] {
      var k := a[i].Key();
      assert Bare(a)[i].Key() == k && Bare(b)[i].Key() == b[i].Key();
      QueueContents(a, k, a[i]);
      QueueContents(b, k, b[i]);
      assert |Queue(b, k)| <= 1;
    }
  }

  /** A reload does what a reload of the table as it is stored does, for exactly the
      harmless tables. */
  lemma ReloadAsStored(es: seq<Entry>, tab: seq<Line>)
    requires Distinct(es) && EntriesFit(es)
    ensures Reload(es, tab) == Reload(es, Cut(tab)) <==> Harmless(es, tab)
  {
    DistinctQueues(es);
    forall k ensures Queue(Reload(es, tab), k) == Queue(Reload(es, Cut(tab)), k) <==> HarmlessFor(es, tab, k) {
      assert |Queue(es, k)| <= 1;
      SameQueue(es, tab, k);
    }
    if Harmless(es, tab) {
      SameOrder(es, tab);
      FittingDistinct(es, Cut(tab));
      DistinctQueues(Reload(es, Cut(tab)));
      SameList(Reload(es, tab), Reload(es, Cut(tab)));
    }
  }

  /** Exactly when a reload is its closed form: the static entries the table does not
      name, in their old order, then the keys of the table as it is stored by last
      occurrence, each with its last type and the process it had, but for those of type
      sysinit. */
  lemma ReloadIsClosed(es: seq<Entry>, tab: seq<Line>)
    requires Distinct(es) && EntriesFit(es)
    ensures Reload(es, tab) == InitModel.Kept(es, Cut(tab)) + Named(es, Lasts(Cut(tab))) <==> Harmless(es, tab)
  {
    ReloadFitting(es, Cut(tab));
    ReloadAsStored(es, tab);
  }

  /** And exactly when reloading the same table again changes nothing: when it is harmless
      for what the first reload left, too. */
  lemma ReloadAgain(es: seq<Entry>, tab: seq<Line>)
    requires Distinct(es) && EntriesFit(es) && Harmless(es, tab)
    ensures Reload(Reload(es, tab), tab) == Reload(es, tab) <==> Harmless(Reload(es, tab), tab)
  {
    var r := Reload(es, tab);
    ReloadAsStored(es, tab);
    ReloadFits(es, tab);
    FittingDistinct(es, Cut(tab));
    FittingAgain(es, Cut(tab));
    ReloadAsStored(r, tab);
  }

  /** What a reload lets go it forgets: the process of a key is kept exactly when the
      table's last line for it is not a sysinit one, or it has no line and a static
      entry. So a process whose key one reload drops and the next names again is
      started a second time. */
  lemma ProcAfterReload(es: seq<Entry>, tab: seq<Line>, k: Key)
    requires Distinct(es) && EntriesFit(es) && Harmless(es, tab)
    ensures ProcOf(Reload(es, tab), k) == if Survives(es, Cut(tab), k) then ProcOf(es, k) else NoProc
  {
    ReloadAsStored(es, tab);
    ProcAfterFitting(es, Cut(tab), k);
  }

  /** Which keys a reload leaves: for any list and any table, those that are left a kind
      other than 0 and sysinit. */
  lemma KeyStays(es: seq<Entry>, tab: seq<Line>, k: Key)
    requires EntriesFit(es)
    ensures Has(Reload(es, tab), k) <==>
            exists i :: 0 <= i < |KindsOf(es, tab, k)| && KindsOf(es, tab, k)[i] != 0 && KindsOf(es, tab, k)[i] != 0x01
  {
    var ks := KindsOf(es, tab, k);
    ReloadQueue(es, tab, k);
    TurnedKinds(MarkStale(Queue(es, k)), LinesOf(tab, k));
    SweptQueue(Turned(MarkStale(Queue(es, k)), LinesOf(tab, k)));
    QueueHas(Reload(es, tab), k);
    forall i | 0 <= i < |ks| ensures Lives(ks[i]) <==> ks[i] != 0 && ks[i] != 0x01 {
      LivesMeans(ks[i]);
    }
  }

  /** In the closed form: a key of the table stays unless its last line has type 0 or
      sysinit, and any other unless it is not static. */
  lemma KeyAfterReload(es: seq<Entry>, tab: seq<Line>, k: Key)
    requires Distinct(es) && EntriesFit(es) && Harmless(es, tab)
    ensures Has(Reload(es, tab), k) <==>
            if Names(Cut(tab), k) then LastKind(Cut(tab), k) != 0 && LastKind(Cut(tab), k) != 0x01
            else Has(es, k) && es[Find(es, k)].kind & 0x100 != 0
  {
    var fit, r := Cut(tab), Reload(es, tab);
    ReloadAsStored(es, tab);
    ReloadFitting(es, fit);
    if Names(fit, k) {
      LivesMeans(LastKind(fit, k) as bv16);
      NarrowKind(LastKind(fit, k));
    }
    if Has(r, k) {
      FoundSurvives(es, fit, r[Find(r, k)]);
    } else if Survives(es, fit, k) {
      SurvivorHas(es, fit, k);
    }
  }

  lemma NarrowKind(kind: bv8)
    ensures (kind as bv16 == 0 <==> kind == 0) && (kind as bv16 == 0x01 <==> kind == 0x01)
  {
  }

  lemma SurvivorHas(es: seq<Entry>, tab: seq<Line>, k: Key)
    requires Distinct(es) && Survives(es, tab, k)
    ensures Has(InitModel.Kept(es, tab) + Named(es, Lasts(tab)), k)
  {
    if Names(tab, k) {
      var i := NamedFound(es, tab, k);
      var a := InitModel.Kept(es, tab);
      assert (a + Named(es, Lasts(tab)))[|a| + i] == Named(es, Lasts(tab))[i];
    } else {
      SurvivorFound(es, tab, Find(es, k));
    }
  }

  /** Tables that store no line under a key that is there already are harmless. */
  lemma TidyHarmless(es: seq<Entry>, tab: seq<Line>)
    requires Tidy(es, tab)
    ensures Harmless(es, tab)
  {
    ReloadClosed(es, tab);
    ReloadIsClosed(es, tab);
  }

  /** So are tables whose strings all fit. */
  lemma FittingHarmless(es: seq<Entry>, tab: seq<Line>)
    requires Distinct(es) && EntriesFit(es) && AllFit(tab)
    ensures Harmless(es, tab) && Harmless(Reload(es, tab), tab)
  {
    FittingClean(es, tab);
    TidyHarmless(es, tab);
    ReloadClosed(es, tab);
    FittingClean(Reload(es, tab), tab);
    TidyHarmless(Reload(es, tab), tab);
  }
}
