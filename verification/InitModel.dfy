/** busybox init's action list as a value: what one inittab line, and a whole
    reload, makes of it; and the closed form of a reload. */
module InitModel {
  import opened Seqs

  const SYSINIT: bv16 := 0x01
  const WAIT: bv16 := 0x02
  const ONCE: bv16 := 0x04
  const RESPAWN: bv16 := 0x08
  const ASKFIRST: bv16 := 0x10
  const CTRLALTDEL: bv16 := 0x20
  const SHUTDOWN: bv16 := 0x40
  const STATICACT: bv16 := 0x100

  const COMMAND_SIZE := 256
  const CONSOLE_NAME_SIZE := 32

  type Key = (string, string)

  /** What an entry holds of its process: the pid, 0 for none and -1 after a failed
      fork, and the number of the fork that started it last, 0 for none. */
  datatype Proc = Proc(pid: int, fork: nat)

  const NoProc := Proc(0, 0)

  datatype Entry = Entry(command: string, terminal: string, kind: bv16, proc: Proc) {
    function Key(): Key { (command, terminal) }
  }

  /** A parsed inittab line: an action type, a command and a tty. */
  datatype Line = Line(kind: bv8, command: string, terminal: string) {
    function Key(): Key { (command, terminal) }

    /** The strings fit the entry's buffers, terminator included. */
    predicate Fits() { |command| < COMMAND_SIZE && |terminal| < CONSOLE_NAME_SIZE }
  }

  function Truncated(s: string, size: nat): string
    requires size > 0
  {
    if |s| < size then s else s[..size - 1]
  }

  // ----- the operations -----

  /** The index of the first entry with a key; the length if there is none. */
  function Find(es: seq<Entry>, k: Key): (i: nat)
    ensures i <= |es|
    ensures i < |es| ==> es[i].Key() == k
    ensures forall j :: 0 <= j < i ==> es[j].Key() != k
  {
    if |es| == 0 then 0 else if es[0].Key() == k then 0 else 1 + Find(es[1..], k)
  }

  /** A matching entry moves to the end, otherwise a new one goes there. */
  function NewAction(es: seq<Entry>, l: Line): seq<Entry> {
    var i := Find(es, l.Key());
    WithoutAt(es, i) +
    [Entry(Truncated(l.command, COMMAND_SIZE), Truncated(l.terminal, CONSOLE_NAME_SIZE), l.kind as bv16,
           if i < |es| then es[i].proc else NoProc)]
  }

  function Parse(es: seq<Entry>, tab: seq<Line>): seq<Entry> {
    if |tab| == 0 then es else NewAction(Parse(es, tab[..|tab| - 1]), tab[|tab| - 1])
  }

  lemma ParseMore(es: seq<Entry>, tab: seq<Line>, l: Line)
    ensures Parse(es, tab + [l]) == NewAction(Parse(es, tab), l)
  {
    assert (tab + [l])[..|tab|] == tab;
  }

  predicate Static(e: Entry) { e.kind & STATICACT != 0 }

  function Stale(e: Entry): Entry { if Static(e) then e else e.(kind := 0) }

  function MarkStale(es: seq<Entry>): seq<Entry> {
    seq(|es|, i requires 0 <= i < |es| => Stale(es[i]))
  }

  predicate Lives(kind: bv16) { kind & !SYSINIT != 0 }

  function Sweep(es: seq<Entry>): seq<Entry> {
    if |es| == 0 then []
    else
      var rest := Sweep(es[..|es| - 1]);
      if Lives(es[|es| - 1].kind) then rest + [es[|es| - 1]] else rest
  }

  lemma SweepNext(es: seq<Entry>, k: nat)
    requires k < |es|
    ensures Sweep(es[..k + 1]) == if Lives(es[k].kind) then Sweep(es[..k]) + [es[k]] else Sweep(es[..k])
  {
    assert es[..k + 1][..k] == es[..k];
  }

  function Reload(es: seq<Entry>, tab: seq<Line>): seq<Entry> {
    Sweep(Parse(MarkStale(es), tab))
  }

  /** The kinds that a sweep leaves: all but 0, which no line has, and sysinit alone. */
  lemma LivesMeans(kind: bv16)
    ensures Lives(kind) <==> kind != 0 && kind != 0x01
  {
  }

  // ----- the closed form -----

  predicate Names(tab: seq<Line>, k: Key) {
    exists i :: 0 <= i < |tab| && tab[i].Key() == k
  }

  /** The static entries that the table does not name, in their old order. */
  function Kept(es: seq<Entry>, tab: seq<Line>): seq<Entry> {
    if |es| == 0 then []
    else
      var e, rest := es[|es| - 1], Kept(es[..|es| - 1], tab);
      if Static(e) && !Names(tab, e.Key()) then rest + [e] else rest
  }

  /** The lines of a table, each key at its last occurrence only. */
  function Lasts(tab: seq<Line>): seq<Line> {
    if |tab| == 0 then []
    else if Names(tab[1..], tab[0].Key()) then Lasts(tab[1..])
    else [tab[0]] + Lasts(tab[1..])
  }

  function ProcOf(es: seq<Entry>, k: Key): Proc {
    var i := Find(es, k);
    if i < |es| then es[i].proc else NoProc
  }

  function EntryFor(es: seq<Entry>, l: Line): Entry {
    Entry(l.command, l.terminal, l.kind as bv16, ProcOf(es, l.Key()))
  }

  /** The entries of the lines that stay, with the processes their keys had. */
  function Named(es: seq<Entry>, ls: seq<Line>): seq<Entry> {
    if |ls| == 0 then []
    else
      var l, rest := ls[|ls| - 1], Named(es, ls[..|ls| - 1]);
      if Lives(l.kind as bv16) then rest + [EntryFor(es, l)] else rest
  }

  predicate Distinct(es: seq<Entry>) {
    forall i, j :: 0 <= i < j < |es| ==> es[i].Key() != es[j].Key()
  }

  predicate AllFit(tab: seq<Line>) {
    forall i :: 0 <= i < |tab| ==> tab[i].Fits()
  }

  // ----- parsing in closed form -----

  /** Entries whose key the table does not name. */
  function Others(es: seq<Entry>, tab: seq<Line>): seq<Entry> {
    if |es| == 0 then []
    else
      var e, rest := es[|es| - 1], Others(es[..|es| - 1], tab);
      if Names(tab, e.Key()) then rest else rest + [e]
  }

  function Moved(es: seq<Entry>, ls: seq<Line>): seq<Entry> {
    seq(|ls|, i requires 0 <= i < |ls| => EntryFor(es, ls[i]))
  }

  function Drop(es: seq<Entry>, k: Key): seq<Entry> {
    if |es| == 0 then []
    else
      var rest := Drop(es[..|es| - 1], k);
      if es[|es| - 1].Key() == k then rest else rest + [es[|es| - 1]]
  }

  lemma {:induction false} DropAbsent(es: seq<Entry>, k: Key)
    requires forall i :: 0 <= i < |es| ==> es[i].Key() != k
    ensures Drop(es, k) == es
  {
    if |es| > 0 {
      DropAbsent(es[..|es| - 1], k);
    }
  }

  lemma {:induction false} DropConcat(a: seq<Entry>, b: seq<Entry>, k: Key)
    ensures Drop(a + b, k) == Drop(a, k) + Drop(b, k)
  {
    if |b| == 0 {
      assert a + b == a;
    } else {
      assert (a + b)[..|a + b| - 1] == a + b[..|b| - 1];
      DropConcat(a, b[..|b| - 1], k);
    }
  }

  /** In a list without duplicates, removing the first match removes the key. */
  lemma WithoutIsDrop(es: seq<Entry>, k: Key)
    requires Distinct(es)
    ensures WithoutAt(es, Find(es, k)) == Drop(es, k)
  {
    var i := Find(es, k);
    if i < |es| {
      var a, b := es[..i], es[i + 1..];
      assert es == a + [es[i]] + b;
      DropAround(a, es[i], b, k);
    } else {
      DropAbsent(es, k);
    }
  }

  lemma DropAround(a: seq<Entry>, e: Entry, b: seq<Entry>, k: Key)
    requires e.Key() == k && Distinct(a + [e] + b)
    ensures Drop(a + [e] + b, k) == a + b
  {
    var es := a + [e] + b;
    DropConcat(a + [e], b, k);
    DropConcat(a, [e], k);
    assert Drop([e], k) == [] by {
      assert [e][..0] == [];
    }
    assert es[|a|] == e;
    forall j | 0 <= j < |a| ensures a[j].Key() != k {
      assert es[j] == a[j];
    }
    forall j | 0 <= j < |b| ensures b[j].Key() != k {
      assert es[|a| + 1 + j] == b[j];
    }
    DropAbsent(a, k);
    DropAbsent(b, k);
  }

  lemma NewActionDistinct(es: seq<Entry>, l: Line)
    requires Distinct(es) && l.Fits()
    ensures Distinct(NewAction(es, l))
  {
    var i := Find(es, l.Key());
    var rest := WithoutAt(es, i);
    forall j | 0 <= j < |rest| ensures rest[j].Key() != l.Key() {
      assert i < |es| ==> rest[j] == es[if j < i then j else j + 1];
    }
  }

  function DropLines(ls: seq<Line>, k: Key): seq<Line> {
    if |ls| == 0 then []
    else
      var rest := DropLines(ls[..|ls| - 1], k);
      if ls[|ls| - 1].Key() == k then rest else rest + [ls[|ls| - 1]]
  }

  lemma {:induction false} DropLinesCons(l: Line, ls: seq<Line>, k: Key)
    ensures DropLines([l] + ls, k) == (if l.Key() == k then [] else [l]) + DropLines(ls, k)
  {
    if |ls| == 0 {
      assert [l] + ls == [l] && [l][..0] == [];
    } else {
      assert ([l] + ls)[..|ls|] == [l] + ls[..|ls| - 1];
      DropLinesCons(l, ls[..|ls| - 1], k);
    }
  }

  lemma NamesMore(tab: seq<Line>, l: Line, k: Key)
    ensures Names(tab + [l], k) <==> Names(tab, k) || l.Key() == k
  {
    var more := tab + [l];
    assert more[|tab|] == l;
    if Names(tab, k) {
      var i :| 0 <= i < |tab| && tab[i].Key() == k;
      assert more[i] == tab[i];
    }
  }

  /** A line more replaces the earlier ones of its key and comes last. */
  lemma {:induction false} LastsMore(tab: seq<Line>, l: Line)
    ensures Lasts(tab + [l]) == DropLines(Lasts(tab), l.Key()) + [l]
  {
    if |tab| == 0 {
      assert tab + [l] == [l] && !Names([], l.Key());
    } else {
      var k := tab[0].Key();
      assert (tab + [l])[1..] == tab[1..] + [l];
      LastsMore(tab[1..], l);
      NamesMore(tab[1..], l, k);
      DropLinesCons(tab[0], Lasts(tab[1..]), l.Key());
    }
  }

  lemma {:induction false} LastsNames(tab: seq<Line>, k: Key)
    ensures Names(Lasts(tab), k) <==> Names(tab, k)
    ensures forall i :: 0 <= i < |Lasts(tab)| ==> Names(tab, Lasts(tab)[i].Key())
  {
    if |tab| > 0 {
      var ls := Lasts(tab[1..]);
      LastsNames(tab[1..], k);
      NamesFirst(tab[0], tab[1..], k);
      NamesFirst(tab[0], ls, k);
      assert tab == [tab[0]] + tab[1..];
      forall i | 0 <= i < |Lasts(tab)| ensures Names(tab, Lasts(tab)[i].Key()) {
        NamesFirst(tab[0], tab[1..], Lasts(tab)[i].Key());
      }
    }
  }

  lemma NamesFirst(l: Line, ls: seq<Line>, k: Key)
    ensures Names([l] + ls, k) <==> l.Key() == k || Names(ls, k)
  {
    var more := [l] + ls;
    assert more[0] == l;
    if Names(ls, k) {
      var i :| 0 <= i < |ls| && ls[i].Key() == k;
      assert more[i + 1] == ls[i];
    }
    if Names(more, k) {
      var i :| 0 <= i < |more| && more[i].Key() == k;
      assert i > 0 ==> ls[i - 1] == more[i];
    }
  }

  lemma {:induction false} OthersMore(es: seq<Entry>, tab: seq<Line>, l: Line)
    ensures Others(es, tab + [l]) == Drop(Others(es, tab), l.Key())
  {
    if |es| > 0 {
      OthersMore(es[..|es| - 1], tab, l);
      NamesMore(tab, l, es[|es| - 1].Key());
      var rest := Others(es[..|es| - 1], tab);
      assert (rest + [es[|es| - 1]])[..|rest|] == rest;
    }
  }

  lemma {:induction false} MovedDrop(es: seq<Entry>, ls: seq<Line>, k: Key)
    ensures Drop(Moved(es, ls), k) == Moved(es, DropLines(ls, k))
  {
    if |ls| > 0 {
      var m := Moved(es, ls);
      assert m[..|m| - 1] == Moved(es, ls[..|ls| - 1]);
      MovedDrop(es, ls[..|ls| - 1], k);
    }
  }

  /** In a list without duplicates an entry's process is that of its key. */
  lemma ProcAt(es: seq<Entry>, i: nat)
    requires i < |es| && Distinct(es)
    ensures ProcOf(es, es[i].Key()) == es[i].proc
  {
    var j := Find(es, es[i].Key());
    assert j == i;
  }

  lemma {:induction false} OthersContents(es: seq<Entry>, tab: seq<Line>, e: Entry)
    ensures e in Others(es, tab) <==> e in es && !Names(tab, e.Key())
  {
    if |es| > 0 {
      OthersContents(es[..|es| - 1], tab, e);
      assert es == es[..|es| - 1] + [es[|es| - 1]];
    }
  }

  /** Moving entries about does not change the process of a key. */
  lemma ProcKept(es: seq<Entry>, tab: seq<Line>, k: Key)
    requires Distinct(es) && Distinct(Others(es, tab) + Moved(es, Lasts(tab)))
    ensures ProcOf(Others(es, tab) + Moved(es, Lasts(tab)), k) == ProcOf(es, k)
  {
    var a, ls := Others(es, tab), Lasts(tab);
    var b := Moved(es, ls);
    var i, j := Find(a + b, k), Find(es, k);
    if i < |a| {
      var e := (a + b)[i];
      assert e == a[i] && e in a;
      OthersContents(es, tab, e);
      var n :| 0 <= n < |es| && es[n] == e;
      ProcAt(es, n);
    } else if i < |a + b| {
      assert (a + b)[i] == b[i - |a|] == EntryFor(es, ls[i - |a|]);
    } else if j < |es| {
      KeyKept(es, tab, j);
      assert false;
    }
  }

  lemma KeyKept(es: seq<Entry>, tab: seq<Line>, j: nat)
    requires j < |es|
    ensures exists n :: 0 <= n < |Others(es, tab) + Moved(es, Lasts(tab))| &&
                        (Others(es, tab) + Moved(es, Lasts(tab)))[n].Key() == es[j].Key()
  {
    var a, ls, k := Others(es, tab), Lasts(tab), es[j].Key();
    var b := Moved(es, ls);
    OthersContents(es, tab, es[j]);
    LastsNames(tab, k);
    if Names(tab, k) {
      var n :| 0 <= n < |ls| && ls[n].Key() == k;
      assert (a + b)[|a| + n] == b[n];
    } else {
      var n :| 0 <= n < |a| && a[n] == es[j];
      assert (a + b)[n] == a[n];
    }
  }

  /** Parsing a table: first the entries it does not name, in their order, then its
      keys by last occurrence, each with its process. */
  lemma {:induction false} ParseFitting(es: seq<Entry>, tab: seq<Line>)
    requires Distinct(es) && AllFit(tab)
    ensures Distinct(Parse(es, tab))
    ensures Parse(es, tab) == Others(es, tab) + Moved(es, Lasts(tab))
  {
    if |tab| == 0 {
      OthersOfNone(es);
    } else {
      var before, l := tab[..|tab| - 1], tab[|tab| - 1];
      assert tab == before + [l] && l.Fits();
      ParseFitting(es, before);
      ParseStep(es, Parse(es, before), before, l);
    }
  }

  lemma {:induction false} OthersOfNone(es: seq<Entry>)
    ensures Others(es, []) == es
  {
    if |es| > 0 {
      OthersOfNone(es[..|es| - 1]);
    }
  }

  lemma ParseStep(es: seq<Entry>, p: seq<Entry>, tab: seq<Line>, l: Line)
    requires Distinct(es) && l.Fits() && Distinct(p) && p == Others(es, tab) + Moved(es, Lasts(tab))
    ensures Distinct(NewAction(p, l))
    ensures NewAction(p, l) == Others(es, tab + [l]) + Moved(es, Lasts(tab + [l]))
  {
    NewActionDistinct(p, l);
    ProcKept(es, tab, l.Key());
    StepMoved(es, p, tab, l);
  }

  lemma StepMoved(es: seq<Entry>, p: seq<Entry>, tab: seq<Line>, l: Line)
    requires l.Fits() && Distinct(p) && p == Others(es, tab) + Moved(es, Lasts(tab))
    requires ProcOf(p, l.Key()) == ProcOf(es, l.Key())
    ensures NewAction(p, l) == Others(es, tab + [l]) + Moved(es, Lasts(tab + [l]))
  {
    NewActionDrops(p, l);
    DropBoth(es, tab, l);
    MovedLast(es, tab, l);
  }

  lemma MovedLast(es: seq<Entry>, tab: seq<Line>, l: Line)
    ensures Moved(es, Lasts(tab + [l])) == Moved(es, DropLines(Lasts(tab), l.Key())) + [EntryFor(es, l)]
  {
    LastsMore(tab, l);
    MovedMore(es, DropLines(Lasts(tab), l.Key()), l);
  }

  lemma MovedMore(es: seq<Entry>, ls: seq<Line>, l: Line)
    ensures Moved(es, ls + [l]) == Moved(es, ls) + [EntryFor(es, l)]
  {
  }

  lemma NewActionDrops(es: seq<Entry>, l: Line)
    requires Distinct(es) && l.Fits()
    ensures NewAction(es, l) == Drop(es, l.Key()) + [Entry(l.command, l.terminal, l.kind as bv16, ProcOf(es, l.Key()))]
  {
    WithoutIsDrop(es, l.Key());
  }

  lemma DropBoth(es: seq<Entry>, tab: seq<Line>, l: Line)
    ensures Drop(Others(es, tab) + Moved(es, Lasts(tab)), l.Key()) ==
            Others(es, tab + [l]) + Moved(es, DropLines(Lasts(tab), l.Key()))
  {
    DropConcat(Others(es, tab), Moved(es, Lasts(tab)), l.Key());
    OthersMore(es, tab, l);
    MovedDrop(es, Lasts(tab), l.Key());
  }

  // ----- the reload -----

  lemma {:induction false} SweepConcat(a: seq<Entry>, b: seq<Entry>)
    ensures Sweep(a + b) == Sweep(a) + Sweep(b)
  {
    if |b| == 0 {
      assert a + b == a;
    } else {
      assert (a + b)[..|a + b| - 1] == a + b[..|b| - 1];
      SweepConcat(a, b[..|b| - 1]);
    }
  }

  lemma StaticLives(kind: bv16)
    ensures kind & STATICACT != 0 ==> Lives(kind)
    ensures !Lives(0)
  {
  }

  lemma {:induction false} SweptOthers(es: seq<Entry>, tab: seq<Line>)
    ensures Sweep(Others(MarkStale(es), tab)) == Kept(es, tab)
  {
    if |es| > 0 {
      var e := es[|es| - 1];
      assert MarkStale(es)[..|es| - 1] == MarkStale(es[..|es| - 1]);
      SweptOthers(es[..|es| - 1], tab);
      StaticLives(e.kind);
      var rest := Others(MarkStale(es[..|es| - 1]), tab);
      assert (rest + [Stale(e)])[..|rest|] == rest;
    }
  }

  lemma {:induction false} SweptMoved(es: seq<Entry>, ls: seq<Line>)
    ensures Sweep(Moved(es, ls)) == Named(es, ls)
  {
    if |ls| > 0 {
      var m := Moved(es, ls);
      assert m[..|m| - 1] == Moved(es, ls[..|ls| - 1]);
      SweptMoved(es, ls[..|ls| - 1]);
    }
  }

  lemma {:induction false} ProcStale(es: seq<Entry>, k: Key)
    ensures Find(MarkStale(es), k) == Find(es, k)
    ensures ProcOf(MarkStale(es), k) == ProcOf(es, k)
  {
    if |es| > 0 {
      assert MarkStale(es)[1..] == MarkStale(es[1..]);
      ProcStale(es[1..], k);
    }
  }

  lemma MovedStale(es: seq<Entry>, ls: seq<Line>)
    ensures Moved(MarkStale(es), ls) == Moved(es, ls)
  {
    forall i | 0 <= i < |ls| ensures EntryFor(MarkStale(es), ls[i]) == EntryFor(es, ls[i]) {
      ProcStale(es, ls[i].Key());
    }
  }

  /** Reload in closed form: the static entries the table does not name, in their old
      order, then the table's keys by last occurrence, each with its last type and
      the process it had, but for those of type sysinit. */
  lemma ReloadFitting(es: seq<Entry>, tab: seq<Line>)
    requires Distinct(es) && AllFit(tab)
    ensures Reload(es, tab) == Kept(es, tab) + Named(es, Lasts(tab))
  {
    var ms := MarkStale(es);
    assert forall i :: 0 <= i < |es| ==> ms[i].Key() == es[i].Key();
    ParseFitting(ms, tab);
    MovedStale(es, Lasts(tab));
    SweepConcat(Others(ms, tab), Moved(es, Lasts(tab)));
    SweptOthers(es, tab);
    SweptMoved(es, Lasts(tab));
  }

  lemma {:induction false} SweepContents(es: seq<Entry>, e: Entry)
    ensures e in Sweep(es) <==> e in es && Lives(e.kind)
  {
    if |es| > 0 {
      SweepContents(es[..|es| - 1], e);
      assert es == es[..|es| - 1] + [es[|es| - 1]];
    }
  }

  lemma SweepLeaves(es: seq<Entry>)
    ensures forall e :: e in Sweep(es) <==> e in es && e.kind != 0 && e.kind != 0x01
  {
    forall e ensures e in Sweep(es) <==> e in es && e.kind != 0 && e.kind != 0x01 {
      SweepContents(es, e);
      LivesMeans(e.kind);
    }
  }

  /** What a reload leaves of a list that is parsed, for any list and any table: entries of
      every kind but 0 and sysinit. */
  lemma ReloadLeaves(es: seq<Entry>, tab: seq<Line>, e: Entry)
    ensures e in Reload(es, tab) <==> e in Parse(MarkStale(es), tab) && e.kind != 0 && e.kind != 0x01
  {
    SweepContents(Parse(MarkStale(es), tab), e);
    LivesMeans(e.kind);
  }

  /** What an empty table leaves: the static entries, as they are, and nothing else. */
  lemma EmptyReload(es: seq<Entry>, e: Entry)
    ensures e in Reload(es, []) <==> e in es && e.kind & 0x100 != 0
  {
    var ms := MarkStale(es);
    ReloadLeaves(es, [], e);
    StaleMeans(e.kind);
    if e in ms && e.kind != 0 && e.kind != 0x01 {
      var i :| 0 <= i < |ms| && ms[i] == e;
      StaleMeans(es[i].kind);
      assert ms[i] == Stale(es[i]);
    }
    if e in es && e.kind & 0x100 != 0 {
      var i :| 0 <= i < |es| && es[i] == e;
      assert ms[i] == Stale(es[i]) == e;
    }
  }

  lemma StaleMeans(kind: bv16)
    ensures kind & 0x100 != 0 <==> kind & STATICACT != 0
    ensures kind & 0x100 != 0 ==> kind != 0 && kind != 0x01
  {
  }

  lemma {:induction false} SweepDistinct(es: seq<Entry>)
    requires Distinct(es)
    ensures Distinct(Sweep(es))
  {
    if |es| > 0 {
      var before, last := es[..|es| - 1], es[|es| - 1];
      SweepDistinct(before);
      forall i | 0 <= i < |Sweep(before)| ensures Sweep(before)[i].Key() != last.Key() {
        SweepContents(before, Sweep(before)[i]);
        var n :| 0 <= n < |before| && before[n] == Sweep(before)[i];
        assert es[n] == before[n];
      }
    }
  }

  /** A reload leaves no key twice. */
  lemma FittingDistinct(es: seq<Entry>, tab: seq<Line>)
    requires Distinct(es) && AllFit(tab)
    ensures Distinct(Reload(es, tab))
  {
    var ms := MarkStale(es);
    assert forall i :: 0 <= i < |es| ==> ms[i].Key() == es[i].Key();
    ParseFitting(ms, tab);
    SweepDistinct(Parse(ms, tab));
  }

  /** Reloading the same table again changes nothing. */
  lemma FittingAgain(es: seq<Entry>, tab: seq<Line>)
    requires Distinct(es) && AllFit(tab)
    ensures Reload(Reload(es, tab), tab) == Reload(es, tab)
  {
    var r, first, named := Reload(es, tab), Kept(es, tab), Named(es, Lasts(tab));
    ReloadFitting(es, tab);
    FittingDistinct(es, tab);
    ReloadFitting(r, tab);
    KeptOfReload(es, tab);
    assert Named(r, Lasts(tab)) == named by {
      ProcsAgain(es, r, first, Lasts(tab));
      NamedSame(r, es, Lasts(tab));
    }
  }

  lemma KeptOfReload(es: seq<Entry>, tab: seq<Line>)
    ensures Kept(Kept(es, tab) + Named(es, Lasts(tab)), tab) == Kept(es, tab)
  {
    KeptConcat(Kept(es, tab), Named(es, Lasts(tab)), tab);
    KeptAgain(es, tab);
    LastsNames(tab, ("", ""));
    KeptNamed(es, Lasts(tab), tab);
  }

  lemma ProcsAgain(es: seq<Entry>, r: seq<Entry>, first: seq<Entry>, ls: seq<Line>)
    requires Distinct(r) && r == first + Named(es, ls)
    ensures forall i :: 0 <= i < |ls| && Lives(ls[i].kind as bv16) ==> ProcOf(r, ls[i].Key()) == ProcOf(es, ls[i].Key())
  {
    forall i | 0 <= i < |ls| && Lives(ls[i].kind as bv16)
      ensures ProcOf(r, ls[i].Key()) == ProcOf(es, ls[i].Key())
    {
      var e := EntryFor(es, ls[i]);
      NamedContents(es, ls, i);
      var n :| 0 <= n < |Named(es, ls)| && Named(es, ls)[n] == e;
      assert r[|first| + n] == e;
      ProcAt(r, |first| + n);
    }
  }

  lemma {:induction false} NamedContents(es: seq<Entry>, ls: seq<Line>, i: nat)
    requires i < |ls| && Lives(ls[i].kind as bv16)
    ensures EntryFor(es, ls[i]) in Named(es, ls)
  {
    if i < |ls| - 1 {
      NamedContents(es, ls[..|ls| - 1], i);
    }
  }

  lemma {:induction false} NamedSame(a: seq<Entry>, b: seq<Entry>, ls: seq<Line>)
    requires forall i :: 0 <= i < |ls| && Lives(ls[i].kind as bv16) ==> ProcOf(a, ls[i].Key()) == ProcOf(b, ls[i].Key())
    ensures Named(a, ls) == Named(b, ls)
  {
    if |ls| > 0 {
      NamedSame(a, b, ls[..|ls| - 1]);
    }
  }

  lemma {:induction false} KeptConcat(a: seq<Entry>, b: seq<Entry>, tab: seq<Line>)
    ensures Kept(a + b, tab) == Kept(a, tab) + Kept(b, tab)
  {
    if |b| == 0 {
      assert a + b == a;
    } else {
      assert (a + b)[..|a + b| - 1] == a + b[..|b| - 1];
      KeptConcat(a, b[..|b| - 1], tab);
    }
  }

  lemma {:induction false} KeptAgain(es: seq<Entry>, tab: seq<Line>)
    ensures Kept(Kept(es, tab), tab) == Kept(es, tab)
  {
    if |es| > 0 {
      KeptAgain(es[..|es| - 1], tab);
      var rest := Kept(es[..|es| - 1], tab);
      assert (rest + [es[|es| - 1]])[..|rest|] == rest;
    }
  }

  lemma {:induction false} KeptNamed(es: seq<Entry>, ls: seq<Line>, tab: seq<Line>)
    requires forall i :: 0 <= i < |ls| ==> Names(tab, ls[i].Key())
    ensures Kept(Named(es, ls), tab) == []
  {
    if |ls| > 0 {
      KeptNamed(es, ls[..|ls| - 1], tab);
      var rest := Named(es, ls[..|ls| - 1]);
      var l := ls[|ls| - 1];
      assert (rest + [EntryFor(es, l)])[..|rest|] == rest;
      assert Names(tab, EntryFor(es, l).Key());
    }
  }

  // ----- strings that do not fit -----

  /** A line whose strings do not fit is stored cut short, so that it never matches
      what it stored: named twice, it is there twice. The closed form holds of
      exactly the lines that fit. */
  lemma OnlyFittingLinesMatch(l: Line)
    ensures Distinct(Parse([], [l, l])) <==> l.Fits()
  {
    var once := NewAction([], l);
    ParseMore([], [], l);
    ParseMore([], [l], l);
    assert [] + [l] == [l] && [l] + [l] == [l, l];
    if l.Fits() {
      NewActionDistinct([], l);
      NewActionDistinct(once, l);
    } else {
      assert once[0].Key() != l.Key();
      assert Find(once, l.Key()) == 1;
      var twice := Parse([], [l, l]);
      assert |twice| == 2 && twice[0].Key() == twice[1].Key();
    }
  }

  // ----- which entries survive with their process -----

  /** The kind of the last line of a key. */
  function LastKind(tab: seq<Line>, k: Key): bv8
    requires Names(tab, k)
  {
    if tab[|tab| - 1].Key() == k then tab[|tab| - 1].kind
    else
      assert Names(tab[..|tab| - 1], k) by {
        var i :| 0 <= i < |tab| && tab[i].Key() == k;
        assert tab[..|tab| - 1][i] == tab[i];
      }
      LastKind(tab[..|tab| - 1], k)
  }

  predicate Survives(es: seq<Entry>, tab: seq<Line>, k: Key) {
    if Names(tab, k) then Lives(LastKind(tab, k) as bv16)
    else Find(es, k) < |es| && Static(es[Find(es, k)])
  }

  lemma {:induction false} KeptContents(es: seq<Entry>, tab: seq<Line>, e: Entry)
    ensures e in Kept(es, tab) <==> e in es && Static(e) && !Names(tab, e.Key())
  {
    if |es| > 0 {
      KeptContents(es[..|es| - 1], tab, e);
      assert es == es[..|es| - 1] + [es[|es| - 1]];
    }
  }

  lemma {:induction false} NamedFrom(es: seq<Entry>, ls: seq<Line>, e: Entry) returns (i: nat)
    requires e in Named(es, ls)
    ensures i < |ls| && Lives(ls[i].kind as bv16) && e == EntryFor(es, ls[i])
  {
    i := |ls| - 1;
    if !Lives(ls[i].kind as bv16) || e != EntryFor(es, ls[i]) {
      i := NamedFrom(es, ls[..|ls| - 1], e);
    }
  }

  /** The last lines carry the last kinds. */
  lemma {:induction false} LastsKinds(tab: seq<Line>, l: Line)
    ensures l in Lasts(tab) ==> Names(tab, l.Key()) && LastKind(tab, l.Key()) == l.kind
  {
    if |tab| > 0 {
      var before, last := tab[..|tab| - 1], tab[|tab| - 1];
      assert tab == before + [last];
      LastsMore(before, last);
      LastsKinds(before, l);
      DropLinesContents(Lasts(before), last.Key(), l);
      NamesMore(before, last, l.Key());
    }
  }

  lemma {:induction false} DropLinesContents(ls: seq<Line>, k: Key, l: Line)
    ensures l in DropLines(ls, k) <==> l in ls && l.Key() != k
  {
    if |ls| > 0 {
      DropLinesContents(ls[..|ls| - 1], k, l);
      assert ls == ls[..|ls| - 1] + [ls[|ls| - 1]];
    }
  }

  /** What a reload lets go it forgets: the process of a key is kept exactly when the
      table's last line for it is not a sysinit one, or it has no line and a static
      entry. So a process whose key one reload drops and the next names again is
      started a second time. */
  lemma ProcAfterFitting(es: seq<Entry>, tab: seq<Line>, k: Key)
    requires Distinct(es) && AllFit(tab)
    ensures ProcOf(Reload(es, tab), k) == if Survives(es, tab, k) then ProcOf(es, k) else NoProc
  {
    ReloadFitting(es, tab);
    FittingDistinct(es, tab);
    var r, i := Reload(es, tab), Find(Reload(es, tab), k);
    if i < |r| {
      FoundSurvives(es, tab, r[i]);
    } else if Survives(es, tab, k) && Find(es, k) < |es| {
      SurvivorFound(es, tab, Find(es, k));
      assert false;
    }
  }

  lemma FoundSurvives(es: seq<Entry>, tab: seq<Line>, e: Entry)
    requires Distinct(es) && e in Kept(es, tab) + Named(es, Lasts(tab))
    ensures Survives(es, tab, e.Key()) && e.proc == ProcOf(es, e.Key())
  {
    KeptContents(es, tab, e);
    if e in Kept(es, tab) {
      var n :| 0 <= n < |es| && es[n] == e;
      ProcAt(es, n);
    } else {
      var n := NamedFrom(es, Lasts(tab), e);
      LastsKinds(tab, Lasts(tab)[n]);
    }
  }

  lemma SurvivorFound(es: seq<Entry>, tab: seq<Line>, j: nat)
    requires j < |es| && Distinct(es) && Survives(es, tab, es[j].Key())
    ensures exists n :: 0 <= n < |Kept(es, tab) + Named(es, Lasts(tab))| &&
                        (Kept(es, tab) + Named(es, Lasts(tab)))[n].Key() == es[j].Key()
  {
    var a, b, k := Kept(es, tab), Named(es, Lasts(tab)), es[j].Key();
    if Names(tab, k) {
      var i := NamedFound(es, tab, k);
      assert (a + b)[|a| + i] == b[i];
    } else {
      KeptContents(es, tab, es[j]);
      var i :| 0 <= i < |a| && a[i] == es[j];
      assert (a + b)[i] == a[i];
    }
  }

  lemma NamedFound(es: seq<Entry>, tab: seq<Line>, k: Key) returns (i: nat)
    requires Names(tab, k) && Lives(LastKind(tab, k) as bv16)
    ensures i < |Named(es, Lasts(tab))| && Named(es, Lasts(tab))[i].Key() == k
  {
    LastsNames(tab, k);
    var n :| 0 <= n < |Lasts(tab)| && Lasts(tab)[n].Key() == k;
    var l := Lasts(tab)[n];
    LastsKinds(tab, l);
    NamedContents(es, Lasts(tab), n);
    i :| 0 <= i < |Named(es, Lasts(tab))| && Named(es, Lasts(tab))[i] == EntryFor(es, l);
  }

  // ----- kinds -----

  const WAITED: bv16 := SYSINIT | WAIT | CTRLALTDEL | SHUTDOWN
  const UNRECORDED: bv16 := WAITED | ONCE
  const RESPAWNED: bv16 := RESPAWN | ASKFIRST

  /** An entry that is respawned is not also run once or waited for; the parser and
      the static table make no other entries. */
  predicate Pure(kind: bv16) { kind & RESPAWNED != 0 ==> kind & UNRECORDED == 0 }

  predicate AllPure(es: seq<Entry>) {
    forall i :: 0 <= i < |es| ==> Pure(es[i].kind)
  }

  predicate PureLines(tab: seq<Line>) {
    forall i :: 0 <= i < |tab| ==> Pure(tab[i].kind as bv16)
  }

  lemma {:induction false} ParsePure(es: seq<Entry>, tab: seq<Line>)
    requires AllPure(es) && PureLines(tab)
    ensures AllPure(Parse(es, tab))
  {
    if |tab| > 0 {
      ParsePure(es, tab[..|tab| - 1]);
      NewActionPure(Parse(es, tab[..|tab| - 1]), tab[|tab| - 1]);
    }
  }

  lemma NewActionPure(es: seq<Entry>, l: Line)
    requires AllPure(es) && Pure(l.kind as bv16)
    ensures AllPure(NewAction(es, l))
  {
    var i, r := Find(es, l.Key()), NewAction(es, l);
    assert forall j :: 0 <= j < |r| - 1 ==> r[j] == es[if j < i then j else j + 1];
  }

  lemma ReloadPure(es: seq<Entry>, tab: seq<Line>)
    requires AllPure(es) && PureLines(tab)
    ensures AllPure(Reload(es, tab))
  {
    ParsePure(MarkStale(es), tab);
    var ps := Parse(MarkStale(es), tab);
    forall i | 0 <= i < |Sweep(ps)| ensures Pure(Sweep(ps)[i].kind) {
      SweepContents(ps, Sweep(ps)[i]);
    }
  }
}
