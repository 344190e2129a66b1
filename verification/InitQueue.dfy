/** Reloads key by key, for any list and any table, with lines cut short and keys that are
    there more than once. The entries of a key are a queue: a line that fits takes the
    first of them to the end, a line that does not adds a new one. */
module InitQueue {
  import opened Seqs
  import opened InitModel
  import opened InitReload

  // ----- the entries of one key -----

  /** The entries of a key, in order. */
  function Queue(es: seq<Entry>, k: Key): seq<Entry> {
    if |es| == 0 then []
    else
      var rest := Queue(es[..|es| - 1], k);
      if es[|es| - 1].Key() == k then rest + [es[|es| - 1]] else rest
  }

  /** The lines that are stored under a key, in order. */
  function LinesOf(tab: seq<Line>, k: Key): seq<Line> {
    if |tab| == 0 then []
    else
      var rest := LinesOf(tab[..|tab| - 1], k);
      if Stored(tab[|tab| - 1]).Key() == k then rest + [tab[|tab| - 1]] else rest
  }

  function Fresh(l: Line): Entry {
    Entry(Stored(l).command, Stored(l).terminal, l.kind as bv16, NoProc)
  }

  /** What a line does to the entries of its stored key. */
  function Turn(q: seq<Entry>, l: Line): seq<Entry> {
    if l.Fits() && |q| > 0 then q[1..] + [q[0].(kind := l.kind as bv16)] else q + [Fresh(l)]
  }

  function Turned(q: seq<Entry>, ls: seq<Line>): seq<Entry> {
    if |ls| == 0 then q else Turn(Turned(q, ls[..|ls| - 1]), ls[|ls| - 1])
  }

  lemma {:induction false} QueueConcat(a: seq<Entry>, b: seq<Entry>, k: Key)
    ensures Queue(a + b, k) == Queue(a, k) + Queue(b, k)
  {
    if |b| == 0 {
      assert a + b == a;
    } else {
      assert (a + b)[..|a + b| - 1] == a + b[..|b| - 1];
      QueueConcat(a, b[..|b| - 1], k);
    }
  }

  lemma QueueOne(e: Entry, k: Key)
    ensures Queue([e], k) == if e.Key() == k then [e] else []
  {
    assert [e][..0] == [];
  }

  lemma {:induction false} QueueContents(es: seq<Entry>, k: Key, e: Entry)
    ensures e in Queue(es, k) <==> e in es && e.Key() == k
  {
    if |es| > 0 {
      QueueContents(es[..|es| - 1], k, e);
      assert es == es[..|es| - 1] + [es[|es| - 1]];
    }
  }

  lemma QueueKeys(es: seq<Entry>, k: Key)
    ensures forall i :: 0 <= i < |Queue(es, k)| ==> Queue(es, k)[i].Key() == k
  {
    forall i | 0 <= i < |Queue(es, k)| ensures Queue(es, k)[i].Key() == k {
      QueueContents(es, k, Queue(es, k)[i]);
    }
  }

  lemma QueueHas(es: seq<Entry>, k: Key)
    ensures |Queue(es, k)| > 0 <==> Has(es, k)
    ensures Has(es, k) ==> Queue(es, k)[0] == es[Find(es, k)]
  {
    var i := Find(es, k);
    if i < |es| {
      QueueSplit(es, k, i);
      QueueNone(es[..i], k);
    } else {
      QueueNone(es, k);
    }
  }

  lemma QueueNone(es: seq<Entry>, k: Key)
    requires forall i :: 0 <= i < |es| ==> es[i].Key() != k
    ensures Queue(es, k) == []
  {
    if |Queue(es, k)| > 0 {
      QueueContents(es, k, Queue(es, k)[0]);
      assert false;
    }
  }

  lemma QueueSplit(es: seq<Entry>, k: Key, i: nat)
    requires i < |es|
    ensures Queue(es, k) == Queue(es[..i], k) + (if es[i].Key() == k then [es[i]] else []) + Queue(es[i + 1..], k)
    ensures Queue(WithoutAt(es, i), k) == Queue(es[..i], k) + Queue(es[i + 1..], k)
  {
    assert es == es[..i] + [es[i]] + es[i + 1..];
    QueueConcat(es[..i] + [es[i]], es[i + 1..], k);
    QueueConcat(es[..i], [es[i]], k);
    QueueOne(es[i], k);
    QueueConcat(es[..i], es[i + 1..], k);
  }

  lemma QueueLast(es: seq<Entry>, e: Entry, k: Key)
    ensures Queue(es + [e], k) == Queue(es, k) + (if e.Key() == k then [e] else [])
  {
    QueueConcat(es, [e], k);
    QueueOne(e, k);
  }

  lemma QueueWithout(es: seq<Entry>, k: Key, other: Key)
    requires Has(es, k)
    ensures |Queue(es, k)| > 0
    ensures Queue(WithoutAt(es, Find(es, k)), other) == if other == k then Queue(es, k)[1..] else Queue(es, other)
  {
    QueueSplit(es, other, Find(es, k));
    QueueHas(es, k);
    QueueNone(es[..Find(es, k)], k);
  }

  /** A line turns the queue of the key it is stored under, and no other. */
  lemma QueueStep(es: seq<Entry>, l: Line, k: Key)
    requires EntriesFit(es)
    ensures Queue(NewAction(es, l), k) == if Stored(l).Key() == k then Turn(Queue(es, k), l) else Queue(es, k)
  {
    QueueHas(es, l.Key());
    if !l.Fits() {
      NotFound(es, l);
      QueueLast(es, Fresh(l), k);
    } else if Has(es, l.Key()) {
      var e := es[Find(es, l.Key())].(kind := l.kind as bv16);
      QueueWithout(es, l.Key(), k);
      QueueLast(WithoutAt(es, Find(es, l.Key())), e, k);
    } else {
      QueueLast(es, Fresh(l), k);
    }
  }

  lemma {:induction false} QueueParse(es: seq<Entry>, tab: seq<Line>, k: Key)
    requires EntriesFit(es)
    ensures Queue(Parse(es, tab), k) == Turned(Queue(es, k), LinesOf(tab, k))
  {
    if |tab| > 0 {
      var before, l := tab[..|tab| - 1], tab[|tab| - 1];
      ParseKeys(es, before, k);
      QueueParse(es, before, k);
      QueueStep(Parse(es, before), l, k);
      assert LinesOf(before, k) + [l] != [] && (LinesOf(before, k) + [l])[..|LinesOf(before, k)|] == LinesOf(before, k);
    }
  }

  lemma {:induction false} QueueStale(es: seq<Entry>, k: Key)
    ensures Queue(MarkStale(es), k) == MarkStale(Queue(es, k))
  {
    if |es| > 0 {
      assert MarkStale(es)[..|es| - 1] == MarkStale(es[..|es| - 1]);
      QueueStale(es[..|es| - 1], k);
    }
  }

  lemma {:induction false} QueueSwept(es: seq<Entry>, k: Key)
    ensures Queue(Sweep(es), k) == Sweep(Queue(es, k))
  {
    if |es| > 0 {
      var rest, e := es[..|es| - 1], es[|es| - 1];
      QueueSwept(rest, k);
      QueueConcat(Sweep(rest), [e], k);
      QueueOne(e, k);
      SweepConcat(Queue(rest, k), [e]);
      OneSwept(e);
    }
  }

  /** A reload, seen from one key. */
  lemma ReloadQueue(es: seq<Entry>, tab: seq<Line>, k: Key)
    requires EntriesFit(es)
    ensures Queue(Reload(es, tab), k) == Sweep(Turned(MarkStale(Queue(es, k)), LinesOf(tab, k)))
  {
    QueueParse(MarkStale(es), tab, k);
    QueueSwept(Parse(MarkStale(es), tab), k);
    QueueStale(es, k);
  }

  // ----- how many there are, and of which kinds -----

  function Kinds(q: seq<Entry>): (ks: seq<bv16>)
    ensures |ks| == |q|
  {
    seq(|q|, i requires 0 <= i < |q| => q[i].kind)
  }

  /** Lines as new entries. */
  function AllFresh(ls: seq<Line>): (q: seq<Entry>)
    ensures |q| == |ls|
  {
    seq(|ls|, i requires 0 <= i < |ls| => Fresh(ls[i]))
  }

  /** The number of lines that are cut short. */
  function Cuts(ls: seq<Line>): (n: nat)
    ensures n <= |ls|
  {
    if |ls| == 0 then 0 else Cuts(ls[..|ls| - 1]) + if ls[|ls| - 1].Fits() then 0 else 1
  }

  /** How many entries n entries of a key become: one more for every line that is cut
      short; and if there is none, one for the first line. */
  function Size(n: nat, ls: seq<Line>): (m: nat)
    ensures n <= m <= n + |ls| && (m == 0 <==> n == 0 && |ls| == 0)
  {
    if n > 0 then n + Cuts(ls) else if |ls| > 0 then 1 + Cuts(ls[1..]) else 0
  }

  lemma {:induction false} CutsMore(ls: seq<Line>, l: Line)
    ensures Cuts(ls + [l]) == Cuts(ls) + if l.Fits() then 0 else 1
  {
    assert (ls + [l])[..|ls|] == ls;
  }

  lemma SizeMore(n: nat, ls: seq<Line>, l: Line)
    ensures Size(n, ls + [l]) == Size(n, ls) + if l.Fits() && Size(n, ls) > 0 then 0 else 1
  {
    CutsMore(ls, l);
    if |ls| > 0 {
      assert (ls + [l])[1..] == ls[1..] + [l];
      CutsMore(ls[1..], l);
    } else {
      assert (ls + [l])[1..] == [];
    }
  }

  function LastOf<T>(s: seq<T>, n: nat): seq<T>
    requires n <= |s|
  {
    s[|s| - n..]
  }

  /** The kinds that are left to entries of a key: the last of those they had and of those
      the lines give. */
  function KindsLeft(q: seq<Entry>, ls: seq<Line>): (ks: seq<bv16>)
    ensures |ks| == Size(|q|, ls)
  {
    LastOf(Kinds(q + AllFresh(ls)), Size(|q|, ls))
  }

  lemma {:induction false} TurnedKinds(q: seq<Entry>, ls: seq<Line>)
    ensures Kinds(Turned(q, ls)) == KindsLeft(q, ls)
  {
    if |ls| > 0 {
      var before, l := ls[..|ls| - 1], ls[|ls| - 1];
      assert ls == before + [l];
      TurnedKinds(q, before);
      KindsTurn(Turned(q, before), l);
      KindsLeftMore(q, before, l);
    } else {
      assert Kinds(q + AllFresh(ls)) == Kinds(q);
    }
  }

  lemma KindsLeftMore(q: seq<Entry>, ls: seq<Line>, l: Line)
    ensures var ks := KindsLeft(q, ls);
            KindsLeft(q, ls + [l]) == (if l.Fits() && |ks| > 0 then ks[1..] else ks) + [Fresh(l).kind]
  {
    SizeMore(|q|, ls, l);
    assert Kinds(q + AllFresh(ls + [l])) == Kinds(q + AllFresh(ls)) + [Fresh(l).kind];
    LastMore(Kinds(q + AllFresh(ls)), Fresh(l).kind, Size(|q|, ls));
  }

  lemma LastMore<T>(s: seq<T>, x: T, n: nat)
    requires n <= |s|
    ensures LastOf(s + [x], n + 1) == LastOf(s, n) + [x]
    ensures n > 0 ==> LastOf(s + [x], n) == LastOf(s, n)[1..] + [x]
  {
  }

  lemma KindsTurn(q: seq<Entry>, l: Line)
    ensures Kinds(Turn(q, l)) == (if l.Fits() && |q| > 0 then Kinds(q)[1..] else Kinds(q)) + [Fresh(l).kind]
  {
  }

  predicate AtMostOneLives(ks: seq<bv16>) {
    forall i, j :: 0 <= i < j < |ks| ==> !Lives(ks[i]) || !Lives(ks[j])
  }

  predicate NoneLives(ks: seq<bv16>) {
    forall i :: 0 <= i < |ks| ==> !Lives(ks[i])
  }

  lemma LivesMore(ks: seq<bv16>, x: bv16)
    ensures NoneLives(ks + [x]) <==> NoneLives(ks) && !Lives(x)
    ensures AtMostOneLives(ks + [x]) <==> AtMostOneLives(ks) && (Lives(x) ==> NoneLives(ks))
  {
    var more := ks + [x];
    assert more[|ks|] == x && forall i :: 0 <= i < |ks| ==> more[i] == ks[i];
  }

  /** How many are left of a queue that is swept. */
  lemma {:induction false} SweptQueue(q: seq<Entry>)
    ensures Sweep(q) == [] <==> NoneLives(Kinds(q))
    ensures |Sweep(q)| <= 1 <==> AtMostOneLives(Kinds(q))
  {
    if |q| > 0 {
      var before, e := q[..|q| - 1], q[|q| - 1];
      SweptQueue(before);
      assert Kinds(q) == Kinds(before) + [e.kind];
      LivesMore(Kinds(before), e.kind);
    }
  }

  ghost predicate QueuesShort(es: seq<Entry>) { forall k :: |Queue(es, k)| <= 1 }

  lemma {:induction false} DistinctQueues(es: seq<Entry>)
    ensures Distinct(es) <==> QueuesShort(es)
  {
    if |es| > 0 {
      var before, e := es[..|es| - 1], es[|es| - 1];
      assert es == before + [e];
      DistinctQueues(before);
      AppendedDistinct(before, e);
      QueueHas(before, e.Key());
      QueuesMore(before, e);
    }
  }

  lemma QueuesMore(es: seq<Entry>, e: Entry)
    ensures QueuesShort(es + [e]) <==> QueuesShort(es) && Queue(es, e.Key()) == []
  {
    forall k ensures Queue(es + [e], k) == Queue(es, k) + (if e.Key() == k then [e] else []) {
      QueueConcat(es, [e], k);
      QueueOne(e, k);
    }
    if QueuesShort(es + [e]) {
      forall k ensures |Queue(es, k)| <= 1 {
        assert |Queue(es + [e], k)| <= 1;
      }
      assert |Queue(es + [e], e.Key())| <= 1;
    }
  }

  /** The kinds that a reload leaves to the entries of a key before it sweeps. */
  function KindsOf(es: seq<Entry>, tab: seq<Line>, k: Key): (ks: seq<bv16>)
    ensures |ks| == Size(|Queue(es, k)|, LinesOf(tab, k))
  {
    KindsLeft(MarkStale(Queue(es, k)), LinesOf(tab, k))
  }

  /** At most one of the kinds left to each key lives. */
  ghost predicate OneLivesEach(es: seq<Entry>, tab: seq<Line>) {
    forall k :: AtMostOneLives(KindsOf(es, tab, k))
  }

  lemma OneLives(es: seq<Entry>, tab: seq<Line>, k: Key)
    requires EntriesFit(es)
    ensures |Queue(Reload(es, tab), k)| <= 1 <==> AtMostOneLives(KindsOf(es, tab, k))
  {
    ReloadQueue(es, tab, k);
    TurnedKinds(MarkStale(Queue(es, k)), LinesOf(tab, k));
    SweptQueue(Turned(MarkStale(Queue(es, k)), LinesOf(tab, k)));
  }

  /** Exactly when a reload leaves no key twice, whatever the list and the table. */
  lemma ReloadDistinct(es: seq<Entry>, tab: seq<Line>)
    requires EntriesFit(es)
    ensures Distinct(Reload(es, tab)) <==> OneLivesEach(es, tab)
  {
    DistinctQueues(Reload(es, tab));
    forall k ensures |Queue(Reload(es, tab), k)| <= 1 <==> AtMostOneLives(KindsOf(es, tab, k)) {
      OneLives(es, tab, k);
    }
  }

  /** It does happen: a line that does not fit, given twice, is there twice. */
  lemma CutLineTwice(l: Line)
    requires !l.Fits() && Lives(l.kind as bv16)
    ensures !Distinct(Reload([], [l, l]))
  {
    var k := Stored(l).Key();
    LinesMore([], l, k);
    LinesMore([l], l, k);
    assert [] + [l] == [l] && [l] + [l] == [l, l];
    assert MarkStale([]) == [];
    var ks := KindsOf([], [l, l], k);
    assert [l, l][..1] == [l] && [l, l][1..] == [l];
    CutsMore([], l);
    assert Kinds([] + AllFresh([l, l])) == [Fresh(l).kind, Fresh(l).kind];
    assert ks[0] == ks[1] == Fresh(l).kind;
    ReloadDistinct([], [l, l]);
  }

  // ----- which of them has which process -----

  /** Where the i-th of n entries of a key is after these lines. */
  function Place(i: nat, n: nat, ls: seq<Line>): (p: nat)
    requires i < n
    ensures p < Size(n, ls)
  {
    if |ls| == 0 then i
    else
      var p := Place(i, n, ls[..|ls| - 1]);
      if !ls[|ls| - 1].Fits() then p else if p > 0 then p - 1 else Size(n, ls) - 1
  }

  lemma {:induction false} OldPlaces(q: seq<Entry>, ls: seq<Line>, i: nat)
    requires i < |q|
    ensures |Turned(q, ls)| == Size(|q|, ls)
    ensures Turned(q, ls)[Place(i, |q|, ls)].proc == q[i].proc
  {
    if |ls| > 0 {
      OldPlaces(q, ls[..|ls| - 1], i);
    }
  }

  /** An entry is an old one in its place, or has no process. */
  lemma {:induction false} OtherPlaces(q: seq<Entry>, ls: seq<Line>, p: nat) returns (i: nat)
    requires p < |Turned(q, ls)|
    ensures (i < |q| && Place(i, |q|, ls) == p) || Turned(q, ls)[p].proc == NoProc
  {
    i := p;
    if |ls| > 0 {
      var before, l := ls[..|ls| - 1], ls[|ls| - 1];
      var t := Turned(q, before);
      if |q| > 0 {
        OldPlaces(q, before, 0);
      }
      if l.Fits() && |t| > 0 {
        i := OtherPlaces(q, before, if p < |t| - 1 then p + 1 else 0);
      } else if p < |t| {
        i := OtherPlaces(q, before, p);
      }
    }
  }

  lemma {:induction false} TurnedKeys(q: seq<Entry>, ls: seq<Line>, k: Key)
    requires forall i :: 0 <= i < |q| ==> q[i].Key() == k
    requires forall i :: 0 <= i < |ls| ==> Stored(ls[i]).Key() == k
    ensures forall i :: 0 <= i < |Turned(q, ls)| ==> Turned(q, ls)[i].Key() == k
  {
    if |ls| > 0 {
      TurnedKeys(q, ls[..|ls| - 1], k);
    }
  }

  lemma {:induction false} LinesKeys(tab: seq<Line>, k: Key)
    ensures forall i :: 0 <= i < |LinesOf(tab, k)| ==> Stored(LinesOf(tab, k)[i]).Key() == k
  {
    if |tab| > 0 {
      LinesKeys(tab[..|tab| - 1], k);
    }
  }

  /** The i-th entry of a key, as a reload leaves it unless it is swept away. */
  function Carrier(es: seq<Entry>, tab: seq<Line>, k: Key, i: nat): Entry
    requires i < |Queue(es, k)|
  {
    Entry(k.0, k.1, KindsOf(es, tab, k)[Place(i, |Queue(es, k)|, LinesOf(tab, k))], Queue(es, k)[i].proc)
  }

  predicate Stays(es: seq<Entry>, tab: seq<Line>, k: Key, i: nat) {
    i < |Queue(es, k)| && Lives(Carrier(es, tab, k, i).kind)
  }

  lemma LeftOf(es: seq<Entry>, tab: seq<Line>, k: Key, e: Entry)
    requires EntriesFit(es) && e.Key() == k
    ensures e in Reload(es, tab) <==> e in Turned(MarkStale(Queue(es, k)), LinesOf(tab, k)) && Lives(e.kind)
  {
    ReloadQueue(es, tab, k);
    QueueContents(Reload(es, tab), k, e);
    SweepContents(Turned(MarkStale(Queue(es, k)), LinesOf(tab, k)), e);
  }

  lemma ProcStays(es: seq<Entry>, tab: seq<Line>, k: Key, i: nat)
    requires EntriesFit(es) && Stays(es, tab, k, i)
    ensures Carrier(es, tab, k, i) in Reload(es, tab)
  {
    CarrierAt(es, tab, k, i);
    LeftOf(es, tab, k, Carrier(es, tab, k, i));
  }

  lemma ProcFrom(es: seq<Entry>, tab: seq<Line>, e: Entry) returns (i: nat)
    requires EntriesFit(es) && e in Reload(es, tab) && e.proc != NoProc
    ensures Stays(es, tab, e.Key(), i) && e == Carrier(es, tab, e.Key(), i)
  {
    var q, ls := MarkStale(Queue(es, e.Key())), LinesOf(tab, e.Key());
    LeftOf(es, tab, e.Key(), e);
    var p :| 0 <= p < |Turned(q, ls)| && Turned(q, ls)[p] == e;
    i := OtherPlaces(q, ls, p);
    CarrierAt(es, tab, e.Key(), i);
  }

  predicate HasProc(es: seq<Entry>, k: Key, p: Proc) {
    exists e :: e in es && e.Key() == k && e.proc == p
  }

  predicate ProcLives(es: seq<Entry>, tab: seq<Line>, k: Key, p: Proc) {
    exists i :: 0 <= i < |Queue(es, k)| && Stays(es, tab, k, i) && Queue(es, k)[i].proc == p
  }

  /** Which processes a reload keeps, whatever the list and the table: a key has a process
      afterwards exactly when an entry of this key had it, and the kind lives that is
      left to the place of that entry. */
  lemma ReloadProcs(es: seq<Entry>, tab: seq<Line>, k: Key, p: Proc)
    requires EntriesFit(es) && p != NoProc
    ensures HasProc(Reload(es, tab), k, p) <==> ProcLives(es, tab, k, p)
  {
    if HasProc(Reload(es, tab), k, p) {
      var e :| e in Reload(es, tab) && e.Key() == k && e.proc == p;
      var i := ProcFrom(es, tab, e);
    }
    if ProcLives(es, tab, k, p) {
      var i :| 0 <= i < |Queue(es, k)| && Stays(es, tab, k, i) && Queue(es, k)[i].proc == p;
      ProcStays(es, tab, k, i);
    }
  }

  lemma CarrierAt(es: seq<Entry>, tab: seq<Line>, k: Key, i: nat)
    requires i < |Queue(es, k)|
    ensures var q, ls := MarkStale(Queue(es, k)), LinesOf(tab, k);
            |Turned(q, ls)| == Size(|q|, ls) && Turned(q, ls)[Place(i, |q|, ls)] == Carrier(es, tab, k, i)
  {
    var q, ls := MarkStale(Queue(es, k)), LinesOf(tab, k);
    OldPlaces(q, ls, i);
    TurnedKinds(q, ls);
    QueueKeys(es, k);
    LinesKeys(tab, k);
    TurnedKeys(q, ls, k);
    var e := Turned(q, ls)[Place(i, |q|, ls)];
    assert e.kind == Kinds(Turned(q, ls))[Place(i, |q|, ls)];
    assert e.Key() == k;
  }

  // ----- in which order they are -----

  /** Entries without their processes. */
  function Bare(es: seq<Entry>): (r: seq<Entry>)
    ensures |r| == |es|
  {
    seq(|es|, i requires 0 <= i < |es| => es[i].(proc := NoProc))
  }

  /** Of a sequence of entries, those that are among the last n of their key, where n is
      given for each key. */
  function Standing(ev: seq<Entry>, n: Key -> nat): seq<Entry> {
    if |ev| == 0 then []
    else
      var rest := Standing(ev[1..], n);
      if |Queue(ev, ev[0].Key())| <= n(ev[0].Key()) then [ev[0]] + rest else rest
  }

  /** How many entries of each key there are after these lines. */
  function Sizes(es: seq<Entry>, tab: seq<Line>): Key -> nat {
    k => Size(|Queue(es, k)|, LinesOf(tab, k))
  }

  /** One after the other: the old entries and what the lines would add. */
  function Events(es: seq<Entry>, tab: seq<Line>): seq<Entry> {
    Bare(es) + AllFresh(tab)
  }

  lemma QueueFirst(es: seq<Entry>, k: Key)
    requires |es| > 0
    ensures Queue(es, k) == (if es[0].Key() == k then [es[0]] else []) + Queue(es[1..], k)
  {
    assert es == [es[0]] + es[1..];
    QueueConcat([es[0]], es[1..], k);
    QueueOne(es[0], k);
  }

  /** The numbers m let the same entries stand as n does, with one more at the end. */
  ghost predicate SameStand(ev: seq<Entry>, x: Entry, n: Key -> nat, m: Key -> nat) {
    && (forall k :: k != x.Key() ==> m(k) == n(k))
    && (m(x.Key()) == n(x.Key()) + 1 || |Queue(ev, x.Key())| < m(x.Key()) == n(x.Key()))
  }

  lemma {:induction false} StandMore(ev: seq<Entry>, x: Entry, n: Key -> nat, m: Key -> nat)
    requires SameStand(ev, x, n, m)
    ensures Standing(ev + [x], m) == Standing(ev, n) + [x]
  {
    var k := x.Key();
    if |ev| == 0 {
      assert ev + [x] == [x] && [x][1..] == [];
      QueueOne(x, k);
    } else {
      assert (ev + [x])[1..] == ev[1..] + [x];
      QueueFirst(ev, k);
      StandMore(ev[1..], x, n, m);
      QueueLast(ev, x, ev[0].Key());
    }
  }

  lemma StandCons(ev: seq<Entry>, n: Key -> nat)
    requires |ev| > 0
    ensures Standing(ev, n) ==
            (if |Queue(ev, ev[0].Key())| <= n(ev[0].Key()) then [ev[0]] else []) + Standing(ev[1..], n)
  {
  }

  /** The first of a key goes, another comes to the end. */
  lemma {:induction false} StandTurn(ev: seq<Entry>, x: Entry, n: Key -> nat)
    requires 0 < n(x.Key()) <= |Queue(ev, x.Key())|
    ensures Standing(ev + [x], n) == Without(Standing(ev, n), x.Key()) + [x]
  {
    var k, e, rest := x.Key(), ev[0], ev[1..];
    assert (ev + [x])[1..] == rest + [x];
    QueueFirst(ev, k);
    QueueLast(ev, x, e.Key());
    StandCons(ev, n);
    StandCons(ev + [x], n);
    if e.Key() != k {
      StandTurn(rest, x, n);
      FindNext(e, Standing(rest, n), k);
    } else if |Queue(ev, k)| == n(k) {
      StandMore(rest, x, n, n);
      FindHere(e, Standing(rest, n));
    } else {
      StandTurn(rest, x, n);
    }
  }

  function Without(es: seq<Entry>, k: Key): seq<Entry> { WithoutAt(es, Find(es, k)) }

  lemma FindHere(e: Entry, es: seq<Entry>)
    ensures Without([e] + es, e.Key()) == es
  {
    assert ([e] + es)[1..] == es;
  }

  lemma FindNext(e: Entry, es: seq<Entry>, k: Key)
    requires e.Key() != k
    ensures Without([e] + es, k) == [e] + Without(es, k)
  {
    assert ([e] + es)[1..] == es;
  }

  lemma {:induction false} StandAll(ev: seq<Entry>, n: Key -> nat)
    requires forall k :: |Queue(ev, k)| <= n(k)
    ensures Standing(ev, n) == ev
  {
    if |ev| > 0 {
      forall k ensures |Queue(ev[1..], k)| <= n(k) {
        QueueFirst(ev, k);
      }
      StandAll(ev[1..], n);
    }
  }

  lemma {:induction false} QueueBare(es: seq<Entry>, k: Key)
    ensures Queue(Bare(es), k) == Bare(Queue(es, k))
  {
    if |es| > 0 {
      assert Bare(es)[..|es| - 1] == Bare(es[..|es| - 1]);
      QueueBare(es[..|es| - 1], k);
    }
  }

  lemma {:induction false} QueueFresh(tab: seq<Line>, k: Key)
    ensures Queue(AllFresh(tab), k) == AllFresh(LinesOf(tab, k))
  {
    if |tab| > 0 {
      assert AllFresh(tab)[..|tab| - 1] == AllFresh(tab[..|tab| - 1]);
      QueueFresh(tab[..|tab| - 1], k);
    }
  }

  lemma QueueEvents(es: seq<Entry>, tab: seq<Line>, k: Key)
    ensures Queue(Events(es, tab), k) == Bare(Queue(es, k)) + AllFresh(LinesOf(tab, k))
  {
    QueueConcat(Bare(es), AllFresh(tab), k);
    QueueBare(es, k);
    QueueFresh(tab, k);
  }

  lemma {:induction false} FindBare(es: seq<Entry>, k: Key)
    ensures Find(Bare(es), k) == Find(es, k)
  {
    if |es| > 0 {
      assert Bare(es)[1..] == Bare(es[1..]);
      FindBare(es[1..], k);
    }
  }

  lemma BareStep(es: seq<Entry>, l: Line)
    requires EntriesFit(es)
    ensures Bare(NewAction(es, l)) == (if l.Fits() then Without(Bare(es), Fresh(l).Key()) else Bare(es)) + [Fresh(l)]
  {
    FindBare(es, l.Key());
    if !l.Fits() {
      NotFound(es, l);
    }
  }

  lemma LinesMore(tab: seq<Line>, l: Line, k: Key)
    ensures LinesOf(tab + [l], k) == LinesOf(tab, k) + (if Stored(l).Key() == k then [l] else [])
  {
    assert (tab + [l])[..|tab|] == tab;
  }

  /** The order that parsing leaves, for any list and any table. */
  lemma {:induction false} ParseOrder(es: seq<Entry>, tab: seq<Line>)
    requires EntriesFit(es)
    ensures Bare(Parse(es, tab)) == Standing(Events(es, tab), Sizes(es, tab))
  {
    if |tab| == 0 {
      assert Events(es, tab) == Bare(es);
      forall k ensures |Queue(Events(es, tab), k)| <= Sizes(es, tab)(k) {
        QueueBare(es, k);
      }
      StandAll(Events(es, tab), Sizes(es, tab));
    } else {
      var before, l := tab[..|tab| - 1], tab[|tab| - 1];
      assert tab == before + [l];
      ParseOrder(es, before);
      ParseKeys(es, before, l.Key());
      BareStep(Parse(es, before), l);
      OrderStep(es, before, l);
    }
  }

  lemma SizesMore(es: seq<Entry>, tab: seq<Line>, l: Line, k: Key)
    ensures var n := Sizes(es, tab)(k);
            Sizes(es, tab + [l])(k) == if k == Fresh(l).Key() && !(l.Fits() && n > 0) then n + 1 else n
  {
    LinesMore(tab, l, k);
    SizeMore(|Queue(es, k)|, LinesOf(tab, k), l);
  }

  lemma StandHas(es: seq<Entry>, tab: seq<Line>, k: Key)
    requires EntriesFit(es) && Bare(Parse(es, tab)) == Standing(Events(es, tab), Sizes(es, tab))
    ensures Sizes(es, tab)(k) <= |Queue(Events(es, tab), k)|
    ensures Sizes(es, tab)(k) == 0 ==> Without(Standing(Events(es, tab), Sizes(es, tab)), k) == Bare(Parse(es, tab))
  {
    QueueEvents(es, tab, k);
    QueueParse(es, tab, k);
    TurnedKinds(Queue(es, k), LinesOf(tab, k));
    QueueHas(Parse(es, tab), k);
    FindBare(Parse(es, tab), k);
  }

  lemma StandStep(ev: seq<Entry>, x: Entry, fits: bool, n: Key -> nat, m: Key -> nat)
    requires forall k :: m(k) == if k == x.Key() && !(fits && n(k) > 0) then n(k) + 1 else n(k)
    requires n(x.Key()) <= |Queue(ev, x.Key())|
    requires n(x.Key()) == 0 ==> Without(Standing(ev, n), x.Key()) == Standing(ev, n)
    ensures Standing(ev + [x], m) == (if fits then Without(Standing(ev, n), x.Key()) else Standing(ev, n)) + [x]
  {
    if fits && n(x.Key()) > 0 {
      StandSame(ev + [x], n, m);
      StandTurn(ev, x, n);
    } else {
      StandMore(ev, x, n, m);
    }
  }

  lemma OrderStep(es: seq<Entry>, tab: seq<Line>, l: Line)
    requires EntriesFit(es) && Bare(Parse(es, tab)) == Standing(Events(es, tab), Sizes(es, tab))
    ensures var st := Standing(Events(es, tab), Sizes(es, tab));
            Standing(Events(es, tab + [l]), Sizes(es, tab + [l])) ==
            (if l.Fits() then Without(st, Fresh(l).Key()) else st) + [Fresh(l)]
  {
    EventsMore(es, tab, l);
    forall k {
      SizesMore(es, tab, l, k);
    }
    StandHas(es, tab, Fresh(l).Key());
    StandStep(Events(es, tab), Fresh(l), l.Fits(), Sizes(es, tab), Sizes(es, tab + [l]));
  }

  lemma EventsMore(es: seq<Entry>, tab: seq<Line>, l: Line)
    ensures Events(es, tab + [l]) == Events(es, tab) + [Fresh(l)]
  {
  }

  lemma {:induction false} StandSame(ev: seq<Entry>, n: Key -> nat, m: Key -> nat)
    requires forall k :: m(k) == n(k)
    ensures Standing(ev, m) == Standing(ev, n)
  {
    if |ev| > 0 {
      StandSame(ev[1..], n, m);
    }
  }

  lemma {:induction false} SweptBare(es: seq<Entry>)
    ensures Bare(Sweep(es)) == Sweep(Bare(es))
  {
    if |es| > 0 {
      assert Bare(es)[..|es| - 1] == Bare(es[..|es| - 1]);
      SweptBare(es[..|es| - 1]);
    }
  }

  /** What a reload leaves, and in which order, for any list and any table: of the old
      entries, made stale, and the lines, each one that is among the last of its key, as
      many as there are, and lives. */
  lemma ReloadOrder(es: seq<Entry>, tab: seq<Line>)
    requires EntriesFit(es)
    ensures Bare(Reload(es, tab)) == Sweep(Standing(Events(MarkStale(es), tab), Sizes(es, tab)))
  {
    var ms := MarkStale(es);
    ParseOrder(ms, tab);
    SweptBare(Parse(ms, tab));
    forall k ensures Sizes(ms, tab)(k) == Sizes(es, tab)(k) {
      QueueStale(es, k);
    }
    StandSame(Events(ms, tab), Sizes(ms, tab), Sizes(es, tab));
  }
}
