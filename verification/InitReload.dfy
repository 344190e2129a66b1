/** Reloads of any table, lines included whose strings are cut short: when they are the
    closed form of InitModel, and when not. */
module InitReload {
  import opened Seqs
  import opened InitModel

  // ----- what is stored -----

  /** What an entry keeps of a line. */
  function Stored(l: Line): (r: Line)
    ensures r.Fits() && (l.Fits() ==> r == l)
  {
    Line(l.kind, Truncated(l.command, COMMAND_SIZE), Truncated(l.terminal, CONSOLE_NAME_SIZE))
  }

  /** At most 255 characters of the command and 31 of the terminal, each from the start. */
  lemma StoredMeans(l: Line)
    ensures Stored(l).kind == l.kind
    ensures Stored(l).command <= l.command && |Stored(l).command| == if |l.command| < 255 then |l.command| else 255
    ensures Stored(l).terminal <= l.terminal && |Stored(l).terminal| == if |l.terminal| < 31 then |l.terminal| else 31
  {
  }

  /** A table as it is stored. */
  function Cut(tab: seq<Line>): (r: seq<Line>)
    ensures |r| == |tab| && AllFit(r)
  {
    seq(|tab|, i requires 0 <= i < |tab| => Stored(tab[i]))
  }

  /** The strings of an entry are in its buffers. */
  predicate EntriesFit(es: seq<Entry>) {
    forall i :: 0 <= i < |es| ==> |es[i].command| < COMMAND_SIZE && |es[i].terminal| < CONSOLE_NAME_SIZE
  }

  predicate Has(es: seq<Entry>, k: Key) { Find(es, k) < |es| }

  /** A line that is cut short is not found, so what is stored of it must be new. */
  predicate CleanLine(es: seq<Entry>, before: seq<Line>, l: Line) {
    !l.Fits() ==> !Has(es, Stored(l).Key()) && !Names(Cut(before), Stored(l).Key())
  }

  /** No line that is cut short is stored under a key that is there already. */
  predicate Clean(es: seq<Entry>, tab: seq<Line>) {
    forall i :: 0 <= i < |tab| ==> CleanLine(es, tab[..i], tab[i])
  }

  lemma FittingClean(es: seq<Entry>, tab: seq<Line>)
    requires AllFit(tab)
    ensures Clean(es, tab) && Cut(tab) == tab
  {
  }

  lemma CleanMore(es: seq<Entry>, tab: seq<Line>)
    requires |tab| > 0
    ensures Clean(es, tab) <==> Clean(es, tab[..|tab| - 1]) && CleanLine(es, tab[..|tab| - 1], tab[|tab| - 1])
  {
    var before := tab[..|tab| - 1];
    assert forall i :: 0 <= i < |before| ==> before[..i] == tab[..i];
  }

  // ----- one line -----

  lemma NotFound(es: seq<Entry>, l: Line)
    requires EntriesFit(es) && !l.Fits()
    ensures !Has(es, l.Key())
  {
  }

  /** A line adds its stored key, and takes none away. */
  lemma LineKeys(es: seq<Entry>, l: Line, k: Key)
    requires EntriesFit(es)
    ensures Has(NewAction(es, l), k) <==> Has(es, k) || Stored(l).Key() == k
    ensures EntriesFit(NewAction(es, l))
  {
    var i, r := Find(es, l.Key()), NewAction(es, l);
    assert forall j :: 0 <= j < |r| - 1 ==> r[j] == es[if j < i then j else j + 1];
    assert r[|r| - 1].Key() == Stored(l).Key();
    if Has(es, k) && k != l.Key() {
      var j := Find(es, k);
      assert r[if i < |es| then After(i, j) else j] == es[j] by {
        WithoutOther(es, i, j);
      }
    }
  }

  lemma CutMore(tab: seq<Line>, k: Key)
    requires |tab| > 0
    ensures Cut(tab)[..|tab| - 1] == Cut(tab[..|tab| - 1])
    ensures Names(Cut(tab), k) <==> Names(Cut(tab[..|tab| - 1]), k) || Stored(tab[|tab| - 1]).Key() == k
  {
    var before := tab[..|tab| - 1];
    assert Cut(tab) == Cut(before) + [Stored(tab[|tab| - 1])];
    NamesMore(Cut(before), Stored(tab[|tab| - 1]), k);
  }

  lemma {:induction false} ParseKeys(es: seq<Entry>, tab: seq<Line>, k: Key)
    requires EntriesFit(es)
    ensures EntriesFit(Parse(es, tab))
    ensures Has(Parse(es, tab), k) <==> Has(es, k) || Names(Cut(tab), k)
  {
    if |tab| > 0 {
      var p := Parse(es, tab[..|tab| - 1]);
      ParseKeys(es, tab[..|tab| - 1], k);
      CutMore(tab, k);
      LineKeys(p, tab[|tab| - 1], k);
    }
  }

  /** A line makes a list without duplicates of exactly such a list, unless what it stores
      of strings that do not fit is there already. */
  lemma LineDistinct(es: seq<Entry>, l: Line)
    requires EntriesFit(es)
    ensures Distinct(NewAction(es, l)) <==> Distinct(es) && (l.Fits() || !Has(es, Stored(l).Key()))
  {
    if Distinct(NewAction(es, l)) {
      DistinctBefore(es, l);
    }
    if l.Fits() {
      if Distinct(es) {
        NewActionDistinct(es, l);
      }
    } else {
      NotFound(es, l);
      AppendedDistinct(es, NewAction(es, l)[|es|]);
    }
  }

  lemma AppendedDistinct(es: seq<Entry>, e: Entry)
    ensures Distinct(es + [e]) <==> Distinct(es) && !Has(es, e.Key())
  {
    var r := es + [e];
    assert r[|es|] == e && forall i :: 0 <= i < |es| ==> r[i] == es[i];
  }

  lemma DistinctBefore(es: seq<Entry>, l: Line)
    requires Distinct(NewAction(es, l))
    requires EntriesFit(es)
    ensures Distinct(es)
  {
    var i, r := Find(es, l.Key()), NewAction(es, l);
    if !l.Fits() {
      NotFound(es, l);
    }
    forall a, b | 0 <= a < b < |es| ensures es[a].Key() != es[b].Key() {
      var x := PlaceAfter(es, l, a);
      var y := PlaceAfter(es, l, b);
    }
  }

  /** Where an entry is after a line; the entry found is filled in at the end. */
  lemma PlaceAfter(es: seq<Entry>, l: Line, j: nat) returns (n: nat)
    requires j < |es| && (Find(es, l.Key()) < |es| ==> l.Fits())
    ensures n < |NewAction(es, l)| && NewAction(es, l)[n].Key() == es[j].Key()
    ensures var i := Find(es, l.Key()); n == if i >= |es| then j else if j == i then |es| - 1 else After(i, j)
  {
    var i := Find(es, l.Key());
    if j == i {
      n := |es| - 1;
    } else {
      n := if i < |es| then After(i, j) else j;
      WithoutOther(es, i, j);
    }
  }

  // ----- a table -----

  lemma CleanStep(es: seq<Entry>, tab: seq<Line>)
    requires EntriesFit(es) && |tab| > 0
    ensures var p, l := Parse(es, tab[..|tab| - 1]), tab[|tab| - 1];
            EntriesFit(p) && (l.Fits() || !Has(p, Stored(l).Key()) <==> CleanLine(es, tab[..|tab| - 1], l))
  {
    ParseKeys(es, tab[..|tab| - 1], Stored(tab[|tab| - 1]).Key());
  }

  /** Parsing leaves no key twice exactly when none was there twice and the table is
      clean; and then it is the parsing of the table as it is stored. */
  lemma {:induction false} ParseClean(es: seq<Entry>, tab: seq<Line>)
    requires EntriesFit(es)
    ensures Distinct(Parse(es, tab)) <==> Distinct(es) && Clean(es, tab)
    ensures Distinct(Parse(es, tab)) ==> Parse(es, tab) == Parse(es, Cut(tab))
  {
    if |tab| > 0 {
      var p, l := Parse(es, tab[..|tab| - 1]), tab[|tab| - 1];
      ParseClean(es, tab[..|tab| - 1]);
      CleanStep(es, tab);
      LineDistinct(p, l);
      CleanMore(es, tab);
      CutMore(tab, l.Key());
      if !l.Fits() && !Has(p, Stored(l).Key()) {
        StoredAlike(p, l);
      }
    }
  }

  /** A line whose stored key is new does what its stored form does. */
  lemma StoredAlike(es: seq<Entry>, l: Line)
    requires EntriesFit(es) && !l.Fits() && !Has(es, Stored(l).Key())
    ensures NewAction(es, l) == NewAction(es, Stored(l))
  {
    NotFound(es, l);
  }

  /** The closed form of parsing, for any table: the entries it does not name, in order,
      then its stored keys by last occurrence, each with its process. It holds of exactly
      the clean tables. */
  lemma ParseClosed(es: seq<Entry>, tab: seq<Line>)
    requires EntriesFit(es) && Distinct(es)
    ensures Parse(es, tab) == Others(es, Cut(tab)) + Moved(es, Lasts(Cut(tab))) <==> Clean(es, tab)
  {
    ParseClean(es, tab);
    ParseFitting(es, Cut(tab));
  }

  /** A list and a table for which nothing is twice, before, during and after parsing. */
  predicate Tidy(es: seq<Entry>, tab: seq<Line>) { EntriesFit(es) && Distinct(es) && Clean(es, tab) }

  // ----- a reload -----

  lemma StaleFits(es: seq<Entry>)
    ensures EntriesFit(es) ==> EntriesFit(MarkStale(es))
  {
    assert forall i :: 0 <= i < |es| ==> MarkStale(es)[i].Key() == es[i].Key();
  }

  lemma StaleSame(es: seq<Entry>, tab: seq<Line>)
    ensures Tidy(es, tab) ==> Tidy(MarkStale(es), tab)
  {
    assert forall i :: 0 <= i < |es| ==> MarkStale(es)[i].Key() == es[i].Key();
    forall i | 0 <= i < |tab| ensures CleanLine(MarkStale(es), tab[..i], tab[i]) <==> CleanLine(es, tab[..i], tab[i]) {
      ProcStale(es, Stored(tab[i]).Key());
    }
  }

  lemma ReloadFits(es: seq<Entry>, tab: seq<Line>)
    requires EntriesFit(es)
    ensures EntriesFit(Reload(es, tab))
  {
    ParseKeys(MarkStale(es), tab, ("", ""));
    var ps := Parse(MarkStale(es), tab);
    forall i | 0 <= i < |Sweep(ps)|
      ensures |Sweep(ps)[i].command| < COMMAND_SIZE && |Sweep(ps)[i].terminal| < CONSOLE_NAME_SIZE
    {
      SweepContents(ps, Sweep(ps)[i]);
    }
  }

  lemma ReloadCut(es: seq<Entry>, tab: seq<Line>)
    requires Tidy(es, tab)
    ensures Reload(es, tab) == Reload(es, Cut(tab))
  {
    StaleSame(es, tab);
    ParseClean(MarkStale(es), tab);
  }

  /** Reload in closed form: the static entries the table does not name, in their old
      order, then the keys of the table as it is stored by last occurrence, each with its
      last type and the process it had, but for those of type sysinit; and no key twice. */
  lemma ReloadClosed(es: seq<Entry>, tab: seq<Line>)
    requires Tidy(es, tab)
    ensures Reload(es, tab) == Kept(es, Cut(tab)) + Named(es, Lasts(Cut(tab)))
    ensures Distinct(Reload(es, tab)) && EntriesFit(Reload(es, tab))
  {
    ReloadCut(es, tab);
    ReloadFits(es, tab);
    ReloadFitting(es, Cut(tab));
    FittingDistinct(es, Cut(tab));
  }

  // ----- a line that is cut short -----

  /** A line that does not fit, loaded twice, is started twice: the second reload drops
      the entry of the first with its process and puts a new one there. */
  lemma CutLineRestarts(l: Line, p: Proc)
    requires !l.Fits() && Lives(l.kind as bv16) && !Static(Entry("", "", l.kind as bv16, p))
    ensures var e := Entry(Stored(l).command, Stored(l).terminal, l.kind as bv16, p);
            && Reload([], [l]) == [e.(proc := NoProc)]
            && Reload([e], [l]) == [e.(proc := NoProc)]
  {
    var e := Entry(Stored(l).command, Stored(l).terminal, l.kind as bv16, p);
    assert MarkStale([]) == [] && MarkStale([e]) == [e.(kind := 0)];
    CutLineAdded([], l);
    CutLineAdded([e.(kind := 0)], l);
    StaticLives(0);
    OneSwept(e.(kind := 0));
    assert Sweep([]) == [];
  }

  /** A line that does not fit comes last, whatever there is. */
  lemma CutLineAdded(es: seq<Entry>, l: Line)
    requires EntriesFit(es) && !l.Fits()
    ensures var n := Entry(Stored(l).command, Stored(l).terminal, l.kind as bv16, NoProc);
            Sweep(Parse(es, [l])) == Sweep(es) + if Lives(n.kind) then [n] else []
  {
    var n := Entry(Stored(l).command, Stored(l).terminal, l.kind as bv16, NoProc);
    assert [l][..0] == [];
    NotFound(es, l);
    assert Parse(es, [l]) == es + [n];
    SweepConcat(es, [n]);
    OneSwept(n);
  }

  lemma OneSwept(e: Entry)
    ensures Sweep([e]) == if Lives(e.kind) then [e] else []
  {
    assert [e][..0] == [];
  }
}
