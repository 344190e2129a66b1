/** busybox init's action list in memory: a singly linked list edited through a
    pointer to a pointer, and reload over it. */
module InitList {
  import opened InitModel
  import opened InitReload
  import opened Seqs
  import opened InitRun

  class Action {
    var next: Action?
    var pid: int
    var kind: bv16
    var terminal: string
    var command: string
    // Which fork of the respawn branch this entry was last started by; 0 for none.
    ghost var fork: nat

    constructor ()
      ensures next == null && pid == 0 && kind == 0 && terminal == "" && command == "" && fork == 0
    {
      next, pid, kind, terminal, command, fork := null, 0, 0, "", "", 0;
    }

    ghost function Value(): Entry
      reads this`command, this`terminal, this`kind, this`pid, this`fork
    {
      Entry(command, terminal, kind, Proc(pid, fork))
    }
  }

  // ----- the list as a sequence of nodes -----

  function At(s: seq<Action>, i: nat): Action? {
    if i < |s| then s[i] else null
  }

  /** From h the links lead through these nodes, none twice, and end. */
  ghost predicate Linked(h: Action?, s: seq<Action>, own: set<Action>)
    reads own`next
  {
    if |s| == 0 then h == null
    else h == s[0] && h in own && h !in s[1..] && Linked(h.next, s[1..], own)
  }

  lemma {:induction false} LinkedAll(h: Action?, s: seq<Action>, own: set<Action>)
    ensures Linked(h, s, own) <==>
            (Owned(s, own) && NoRepeats(s) && h == At(s, 0) && forall i :: 0 <= i < |s| ==> s[i].next == At(s, i + 1))
    decreases |s|
  {
    if |s| > 0 {
      var rest := s[1..];
      assert s == [s[0]] + rest;
      LinkedAll(if s[0] in own then s[0].next else null, rest, own);
      if Owned(s, own) && NoRepeats(s) && h == At(s, 0) && forall i :: 0 <= i < |s| ==> s[i].next == At(s, i + 1) {
        assert forall i :: 0 <= i < |rest| ==> rest[i] == s[i + 1];
        assert s[0].next == At(s, 1) == At(rest, 0);
      }
    }
  }

  lemma LinkedOnce(h: Action?, s: seq<Action>, own: set<Action>)
    requires Linked(h, s, own)
    ensures NoRepeats(s)
  {
    LinkedAll(h, s, own);
  }

  /** The nodes show these values, in this order. */
  ghost predicate Shows(s: seq<Action>, own: set<Action>, es: seq<Entry>)
    reads own`command, own`terminal, own`kind, own`pid, own`fork
  {
    if |s| == 0 || |es| == 0 then |s| == |es|
    else s[0] in own && s[0].Value() == es[0] && Shows(s[1..], own, es[1..])
  }

  lemma {:induction false} ShowsAll(s: seq<Action>, own: set<Action>, es: seq<Entry>)
    ensures Shows(s, own, es) <==> Owned(s, own) && |s| == |es| && forall i :: 0 <= i < |s| ==> s[i].Value() == es[i]
  {
    if |s| > 0 && |es| > 0 {
      ShowsAll(s[1..], own, es[1..]);
      assert s == [s[0]] + s[1..] && es == [es[0]] + es[1..];
    }
  }

  lemma Hop(h: Action?, s: seq<Action>, own: set<Action>, i: nat)
    requires Linked(h, s, own) && i < |s|
    ensures s[i].next == At(s, i + 1) && s[i] in own
  {
    LinkedAll(h, s, own);
  }

  lemma ShowsAt(s: seq<Action>, own: set<Action>, es: seq<Entry>, i: nat)
    requires Shows(s, own, es)
    ensures |s| == |es| && (i < |s| ==> s[i] in own && s[i].Value() == es[i])
  {
    ShowsAll(s, own, es);
  }

  ghost function Cell(link: Action?): set<Action> {
    if link == null then {} else {link}
  }

  lemma ShowsWithout(s: seq<Action>, own: set<Action>, es: seq<Entry>, i: nat)
    requires i < |s| && Shows(s, own, es)
    ensures Shows(WithoutAt(s, i), own, WithoutAt(es, i))
  {
    ShowsAll(s, own, es);
    ShowsAll(WithoutAt(s, i), own, WithoutAt(es, i));
  }

  lemma ShowsMore(s: seq<Action>, own: set<Action>, es: seq<Entry>, a: Action)
    requires a in own && Shows(s, own, es)
    ensures Shows(s + [a], own, es + [a.Value()])
  {
    ShowsAll(s, own, es);
    ShowsAll(s + [a], own, es + [a.Value()]);
  }

  lemma OwnMore(h: Action?, s: seq<Action>, own: set<Action>, es: seq<Entry>, a: Action)
    requires Linked(h, s, own) && Shows(s, own, es)
    ensures Linked(h, s, own + {a}) && Shows(s, own + {a}, es)
  {
    LinkedAll(h, s, own);
    LinkedAll(h, s, own + {a});
    ShowsAll(s, own, es);
    ShowsAll(s, own + {a}, es);
  }

  lemma OwnHas(h: Action?, s: seq<Action>, own: set<Action>, a: Action)
    requires Linked(h, s, own) && a in s
    ensures a in own
  {
    LinkedAll(h, s, own);
  }

  // ----- stretches of a reload -----

  /** The first i entries of a list are marked. */
  ghost predicate Marked(es: seq<Entry>, i: nat, now: seq<Entry>) {
    i <= |es| && now == MarkStale(es[..i]) + es[i..]
  }

  lemma MarkNext(es: seq<Entry>, i: nat, now: seq<Entry>)
    requires Marked(es, i, now) && i < |es|
    ensures |now| == |es| && Marked(es, i + 1, now[i := Stale(now[i])])
  {
  }

  lemma MarkEnd(es: seq<Entry>, now: seq<Entry>)
    requires Marked(es, |es|, now)
    ensures now == MarkStale(es)
  {
    assert es[..|es|] == es;
  }

  lemma ParseNext(es: seq<Entry>, tab: seq<Line>, k: nat)
    requires k < |tab|
    ensures Parse(es, tab[..k + 1]) == NewAction(Parse(es, tab[..k]), tab[k])
  {
    var more := tab[..k + 1];
    assert more[..k] == tab[..k] && more[k] == tab[k];
  }

  /** The sweep is k entries into a list and i into what it has left of it. */
  ghost predicate Swept(es: seq<Entry>, k: nat, now: seq<Entry>, i: nat)
    requires k <= |es|
  {
    i == |Sweep(es[..k])| && now == Sweep(es[..k]) + es[k..]
  }

  lemma SweepOn(es: seq<Entry>, k: nat, now: seq<Entry>, i: nat)
    requires k <= |es| && Swept(es, k, now, i) && i < |now|
    ensures k < |es| && now[i] == es[k]
    ensures if Lives(now[i].kind) then Swept(es, k + 1, now, i + 1) else Swept(es, k + 1, WithoutAt(now, i), i)
  {
    SweepNext(es, k);
    assert es[k..] == [es[k]] + es[k + 1..];
  }

  lemma SweepEnd(es: seq<Entry>, k: nat, now: seq<Entry>, i: nat)
    requires k <= |es| && Swept(es, k, now, i) && i == |now|
    ensures now == Sweep(es)
  {
    assert es[..k] == es;
  }

  // ----- which node has an entry -----

  /** The node is in the list, with the key and the process of this entry. */
  predicate StillHas(x: Action, e: Entry, s: seq<Action>, es: seq<Entry>) {
    |s| == |es| && exists i :: 0 <= i < |s| && s[i] == x && es[i].Key() == e.Key() && es[i].proc == e.proc
  }

  predicate AllHave(s0: seq<Action>, es0: seq<Entry>, s: seq<Action>, es: seq<Entry>) {
    |s0| == |es0| && forall j :: 0 <= j < |s0| ==> StillHas(s0[j], es0[j], s, es)
  }

  lemma HasAt(x: Action, e: Entry, s: seq<Action>, es: seq<Entry>, n: nat)
    requires n < |s| == |es| && s[n] == x && es[n].Key() == e.Key() && es[n].proc == e.proc
    ensures StillHas(x, e, s, es)
  {
  }

  /** A line, cut short or not, leaves every node in the list, with its key and its
      process. */
  lemma LineKeeps(x: Action, e: Entry, s: seq<Action>, es: seq<Entry>, a: Action, l: Line)
    requires StillHas(x, e, s, es) && EntriesFit(es)
    requires Find(es, l.Key()) < |es| ==> a == s[Find(es, l.Key())]
    ensures StillHas(x, e, WithoutAt(s, Find(es, l.Key())) + [a], NewAction(es, l))
  {
    var i, r, t := Find(es, l.Key()), NewAction(es, l), WithoutAt(s, Find(es, l.Key())) + [a];
    var j :| 0 <= j < |s| && s[j] == x && es[j].Key() == e.Key() && es[j].proc == e.proc;
    if j == i {
      HasAt(x, e, t, r, |r| - 1);
    } else {
      WithoutOther(s, i, j);
      WithoutOther(es, i, j);
      HasAt(x, e, t, r, if i < |es| then After(i, j) else j);
    }
  }

  lemma AllLineKeeps(s0: seq<Action>, es0: seq<Entry>, s: seq<Action>, es: seq<Entry>, a: Action, l: Line)
    requires AllHave(s0, es0, s, es) && EntriesFit(es)
    requires Find(es, l.Key()) < |es| ==> |s| == |es| && a == s[Find(es, l.Key())]
    ensures AllHave(s0, es0, WithoutAt(s, Find(es, l.Key())) + [a], NewAction(es, l))
  {
    forall j | 0 <= j < |s0|
      ensures StillHas(s0[j], es0[j], WithoutAt(s, Find(es, l.Key())) + [a], NewAction(es, l))
    {
      LineKeeps(s0[j], es0[j], s, es, a, l);
    }
  }

  /** Marking changes no key and no process. */
  lemma StaleHave(s: seq<Action>, es: seq<Entry>)
    requires |s| == |es|
    ensures AllHave(s, es, s, MarkStale(es)) && (EntriesFit(es) ==> EntriesFit(MarkStale(es)))
  {
    StaleFits(es);
    forall j | 0 <= j < |s| ensures StillHas(s[j], es[j], s, MarkStale(es)) {
      HasAt(s[j], es[j], s, MarkStale(es), j);
    }
  }

  /** The nodes that the sweep leaves. */
  function SweptNodes(s: seq<Action>, es: seq<Entry>): seq<Action>
    requires |s| == |es|
  {
    if |s| == 0 then []
    else
      var rest := SweptNodes(s[..|s| - 1], es[..|s| - 1]);
      if Lives(es[|s| - 1].kind) then rest + [s[|s| - 1]] else rest
  }

  lemma SweptNodesNext(s: seq<Action>, es: seq<Entry>, k: nat)
    requires k < |s| == |es|
    ensures SweptNodes(s[..k + 1], es[..k + 1]) ==
            SweptNodes(s[..k], es[..k]) + if Lives(es[k].kind) then [s[k]] else []
  {
    assert s[..k + 1][..k] == s[..k] && es[..k + 1][..k] == es[..k];
  }

  /** The sweep is k nodes into these, and this is what is left. */
  ghost predicate NodesSwept(s: seq<Action>, es: seq<Entry>, k: nat, now: seq<Action>) {
    k <= |s| == |es| && now == SweptNodes(s[..k], es[..k]) + s[k..]
  }

  lemma SweepBegin(s: seq<Action>, es: seq<Entry>)
    requires |s| == |es|
    ensures Swept(es, 0, es, 0) && NodesSwept(s, es, 0, s)
  {
  }

  lemma NodesOn(s: seq<Action>, es: seq<Entry>, k: nat, now: seq<Action>, i: nat)
    requires NodesSwept(s, es, k, now) && k < |s| && i == |Sweep(es[..k])|
    ensures i < |now| && now[i] == s[k]
    ensures NodesSwept(s, es, k + 1, if Lives(es[k].kind) then now else WithoutAt(now, i))
  {
    var _ := SweptNode(s[..k], es[..k], 0);
    SweptNodesNext(s, es, k);
    assert s[k..] == [s[k]] + s[k + 1..];
  }

  lemma NodesEnd(s: seq<Action>, es: seq<Entry>, k: nat, now: seq<Action>, i: nat)
    requires NodesSwept(s, es, k, now) && i == |Sweep(es[..k])| == |now|
    ensures now == SweptNodes(s, es)
  {
    var _ := SweptNode(s[..k], es[..k], 0);
    assert s[..k] == s && es[..k] == es;
  }

  /** The same nodes as the entries. */
  lemma {:induction false} SweptNode(s: seq<Action>, es: seq<Entry>, i: nat) returns (p: nat)
    requires |s| == |es|
    ensures |SweptNodes(s, es)| == |Sweep(es)|
    ensures i < |Sweep(es)| ==> p < |s| && s[p] == SweptNodes(s, es)[i] && es[p] == Sweep(es)[i] && Lives(es[p].kind)
  {
    p := 0;
    if |s| > 0 {
      p := SweptNode(s[..|s| - 1], es[..|s| - 1], i);
      if i == |Sweep(es[..|s| - 1])| {
        p := |s| - 1;
      }
    }
  }

  lemma {:induction false} SweptNodeStays(s: seq<Action>, es: seq<Entry>, p: nat)
    requires p < |s| == |es| && Lives(es[p].kind)
    ensures s[p] in SweptNodes(s, es)
  {
    if p < |s| - 1 {
      SweptNodeStays(s[..|s| - 1], es[..|s| - 1], p);
    }
  }

  /** What a reload does with the nodes: all stay in the list t that is parsed, with their
      keys and their processes, and those are swept away whose entries are. */
  predicate Reloaded(s0: seq<Action>, es0: seq<Entry>, tab: seq<Line>, t: seq<Action>, s: seq<Action>) {
    IsParsed(s0, es0, tab, t) && s == SweptNodes(t, Parse(MarkStale(es0), tab))
  }

  predicate IsParsed(s0: seq<Action>, es0: seq<Entry>, tab: seq<Line>, t: seq<Action>) {
    |t| == |Parse(MarkStale(es0), tab)| && NoRepeats(t) && AllHave(s0, es0, t, Parse(MarkStale(es0), tab))
  }

  lemma ParsedIs(h: Action?, s0: seq<Action>, es0: seq<Entry>, tab: seq<Line>, t: seq<Action>, own: set<Action>)
    requires Linked(h, t, own) && |t| == |Parse(MarkStale(es0), tab)|
    ensures AllHave(s0, es0, t, Parse(MarkStale(es0), tab)) ==> IsParsed(s0, es0, tab, t)
  {
    LinkedOnce(h, t, own);
  }

  /** So for any list and any table a node that is still in the list has the key and the
      process that it had. */
  lemma NodesKeep(s0: seq<Action>, es0: seq<Entry>, tab: seq<Line>, t: seq<Action>, s: seq<Action>,
                  i: nat, j: nat)
    requires Reloaded(s0, es0, tab, t, s) && i < |s| && j < |s0| && s[i] == s0[j]
    ensures |s| == |Reload(es0, tab)| && |s0| == |es0|
    ensures Reload(es0, tab)[i].Key() == es0[j].Key() && Reload(es0, tab)[i].proc == es0[j].proc
  {
    var ps := Parse(MarkStale(es0), tab);
    var p := SweptNode(t, ps, i);
    assert StillHas(s0[j], es0[j], t, ps);
  }

  // ----- which node has a key -----

  /** If the key is there, this node has it. */
  predicate MayHave(x: Action, k: Key, s: seq<Action>, es: seq<Entry>) {
    |es| == |s| && (Find(es, k) < |es| ==> s[Find(es, k)] == x)
  }

  predicate AllMay(s0: seq<Action>, es0: seq<Entry>, s: seq<Action>, es: seq<Entry>) {
    |s0| == |es0| && forall j :: 0 <= j < |s0| ==> MayHave(s0[j], es0[j].Key(), s, es)
  }

  /** And if nothing is there twice, a key that is still there is held by its node. */
  lemma KeysKeep(s0: seq<Action>, es0: seq<Entry>, tab: seq<Line>, t: seq<Action>, s: seq<Action>)
    requires Reloaded(s0, es0, tab, t, s) && Tidy(es0, tab)
    ensures AllMay(s0, es0, s, Reload(es0, tab))
  {
    var ps := Parse(MarkStale(es0), tab);
    StaleSame(es0, tab);
    ParseClean(MarkStale(es0), tab);
    forall j | 0 <= j < |s0| ensures MayHave(s0[j], es0[j].Key(), s, Reload(es0, tab)) {
      var i := Find(Sweep(ps), es0[j].Key());
      var p := SweptNode(t, ps, i);
      assert StillHas(s0[j], es0[j], t, ps);
    }
  }

  class ActionList {
    var head: Action?
    ghost var nodes: seq<Action>
    ghost var contents: seq<Entry>
    // Every entry this list has ever had.
    ghost var own: set<Action>

    constructor ()
      ensures Valid() && nodes == [] && contents == [] && own == {}
    {
      head, nodes, contents, own := null, [], [], {};
    }

    ghost predicate Valid()
      reads this`head, this`nodes, this`contents, this`own
      reads own`next, own`command, own`terminal, own`kind, own`pid, own`fork
    {
      Linked(head, nodes, own) && Shows(nodes, own, contents)
    }

    // A pointer to a link is the entry holding it, or null for the list head.

    function Load(link: Action?): Action?
      reads this`head, link
    {
      if link == null then head else link.next
    }

    method Store(link: Action?, a: Action?)
      modifies this`head, Cell(link)`next
      ensures Load(link) == a
      ensures link != null ==> head == old(head)
    {
      if link == null {
        head := a;
      } else {
        link.next := a;
      }
    }

    ghost predicate LinkAt(link: Action?, s: seq<Action>, i: nat) {
      i <= |s| && link == if i == 0 then null else s[i - 1]
    }

    /** What a link points to. */
    method Peek(link: Action?, ghost i: nat) returns (a: Action?)
      requires Valid() && LinkAt(link, nodes, i)
      ensures a == At(nodes, i) && |contents| == |nodes|
    {
      if i > 0 {
        Hop(head, nodes, own, i - 1);
      }
      ShowsAt(nodes, own, contents, i);
      a := Load(link);
    }

    /** Takes the entry a link points to out of the list. */
    method Unlink(link: Action?, a: Action, ghost s: seq<Action>, ghost i: nat)
      requires Linked(head, s, own) && i < |s| && LinkAt(link, s, i) && a == s[i]
      modifies this`head, Cell(link)`next
      ensures Linked(head, WithoutAt(s, i), own) && a !in WithoutAt(s, i)
    {
      ghost var t := WithoutAt(s, i);
      LinkedAll(head, s, own);
      WithoutOne(s, i);
      Store(link, a.next);
      forall j | 0 <= j < |t| ensures t[j].next == At(t, j + 1) {
        if j + 1 == i {
          assert t[j] == link;
        } else {
          assert t[j] == s[if j < i then j else j + 1] != link;
        }
      }
      LinkedAll(head, t, own);
    }

    /** Moves a link on to the end of the list. */
    method Advance(start: Action?, ghost i: nat) returns (link: Action?)
      requires Valid() && LinkAt(start, nodes, i)
      ensures LinkAt(link, nodes, |nodes|)
    {
      link := start;
      ghost var n := i;
      var a := Peek(link, n);
      while a != null
        invariant LinkAt(link, nodes, n) && a == At(nodes, n)
        decreases |nodes| - n
      {
        link := a;
        n := n + 1;
        a := Peek(link, n);
      }
    }

    /** Hangs an entry on the link at the end of the list. */
    method Append(link: Action?, a: Action)
      requires Linked(head, nodes, own) && LinkAt(link, nodes, |nodes|) && a !in nodes && a in own && a.next == null
      modifies this`head, Cell(link)`next
      ensures Linked(head, nodes + [a], own)
    {
      LinkedAll(head, nodes, own);
      Store(link, a);
      LinkedAll(head, nodes + [a], own);
    }

    // ----- one line -----

    /** Finds an entry by its strings: the entry and the link to it, or the link at the
        end of the list. */
    method Seek(command: string, terminal: string) returns (link: Action?, a: Action?, ghost i: nat)
      requires Valid()
      ensures i == Find(contents, (command, terminal)) <= |nodes|
      ensures a == At(nodes, Find(contents, (command, terminal)))
      ensures LinkAt(link, nodes, i)
    {
      link, i := null, 0;
      a := Peek(link, i);
      while a != null && !(a.command == command && a.terminal == terminal)
        invariant a == At(nodes, i) && LinkAt(link, nodes, i)
        invariant forall j :: 0 <= j < i ==> contents[j].Key() != (command, terminal)
        decreases |nodes| - i
      {
        ShowsAt(nodes, own, contents, i);
        link, i := a, i + 1;
        a := Peek(link, i);
      }
      ShowsAt(nodes, own, contents, i);
    }

    /** Takes the entry at i out of the list. */
    method DropAt(link: Action?, a: Action, ghost i: nat)
      requires Valid() && i < |nodes| && LinkAt(link, nodes, i) && a == nodes[i]
      modifies this`head, this`nodes, this`contents, Cell(link)`next
      ensures Valid() && nodes == WithoutAt(old(nodes), i) && contents == WithoutAt(old(contents), i)
      ensures a !in nodes
    {
      ShowsWithout(nodes, own, contents, i);
      Unlink(link, a, nodes, i);
      nodes, contents := WithoutAt(nodes, i), WithoutAt(contents, i);
    }

    method Allocate() returns (a: Action)
      requires Valid()
      modifies this`own
      ensures Valid() && own == old(own) + {a} && fresh(a) && a !in nodes
      ensures a.next == null && a.Value().proc == NoProc
    {
      a := new Action();
      OwnMore(head, nodes, own, contents, a);
      if a in nodes {
        OwnHas(head, nodes, own, a);
      }
      own := own + {a};
    }

    method Unhook(a: Action)
      requires Linked(head, nodes, own) && a !in nodes
      modifies a`next
      ensures Linked(head, nodes, own) && a.next == null
    {
      LinkedAll(head, nodes, own);
      a.next := null;
      LinkedAll(head, nodes, own);
    }

    /** Takes out the entry a link points to and moves the link to the end. */
    method Detach(start: Action?, a: Action, ghost i: nat) returns (link: Action?)
      requires Valid() && i < |nodes| && LinkAt(start, nodes, i) && a == nodes[i]
      modifies this`head, this`nodes, this`contents, Cell(start)`next, a`next
      ensures Valid() && LinkAt(link, nodes, |nodes|)
      ensures nodes == WithoutAt(old(nodes), i) && contents == WithoutAt(old(contents), i)
      ensures a !in nodes && a.next == null
    {
      DropAt(start, a, i);
      link := Advance(start, i);
      Unhook(a);
    }

    lemma OwnLink(link: Action?, i: nat)
      requires Valid() && LinkAt(link, nodes, i)
      ensures link != null ==> link in own && link in nodes
    {
      if i > 0 {
        Hop(head, nodes, own, i - 1);
      }
    }

    lemma ProcFound(i: nat, command: string, terminal: string)
      requires Valid() && i == Find(contents, (command, terminal))
      ensures |nodes| == |contents|
      ensures ProcOf(contents, (command, terminal)) == if i < |nodes| then nodes[i].Value().proc else NoProc
      ensures i < |nodes| ==> nodes[i] in own
    {
      ShowsAt(nodes, own, contents, i);
    }

    /** Takes the matching entry out of the list, or makes a new one; finds the end of
        the rest. */
    method TakeOut(command: string, terminal: string) returns (link: Action?, a: Action, ghost i: nat)
      requires Valid()
      modifies this`head, this`nodes, this`contents, this`own, own`next
      ensures Valid() && LinkAt(link, nodes, |nodes|)
      ensures i == Find(old(contents), (command, terminal)) <= |old(nodes)|
      ensures nodes == WithoutAt(old(nodes), i) && contents == WithoutAt(old(contents), i)
      ensures a !in nodes && a.next == null && own == old(own) + {a}
      ensures if i < |old(nodes)| then a == old(nodes)[i] && a in old(own) else fresh(a)
      ensures a.Value().proc == ProcOf(old(contents), (command, terminal))
    {
      var found: Action?;
      link, found, i := Seek(command, terminal);
      ProcFound(i, command, terminal);
      OwnLink(link, i);
      if found == null {
        a := Allocate();
      } else {
        a := found;
        link := Detach(link, a, i);
      }
    }

    /** Fills in an entry that is not in the list. */
    method Fill(a: Action, kind: bv8, command: string, terminal: string)
      requires Shows(nodes, own, contents) && a !in nodes
      modifies a`kind, a`command, a`terminal
      ensures a.Value() == Entry(Truncated(command, COMMAND_SIZE), Truncated(terminal, CONSOLE_NAME_SIZE),
                                 kind as bv16, old(a.Value()).proc)
      ensures Shows(nodes, own, contents)
    {
      ShowsAll(nodes, own, contents);
      a.kind := kind as bv16;
      a.command := Truncated(command, COMMAND_SIZE);
      a.terminal := Truncated(terminal, CONSOLE_NAME_SIZE);
      ShowsAll(nodes, own, contents);
    }

    /** Hangs an entry on the link at the end and fills it in. */
    method AppendFilled(link: Action?, a: Action, kind: bv8, command: string, terminal: string)
      requires Valid() && LinkAt(link, nodes, |nodes|) && a !in nodes && a in own && a.next == null
      modifies this`head, this`nodes, this`contents, Cell(link)`next, a`kind, a`command, a`terminal
      ensures Valid() && nodes == old(nodes) + [a]
      ensures contents == old(contents) +
                [Entry(Truncated(command, COMMAND_SIZE), Truncated(terminal, CONSOLE_NAME_SIZE),
                       kind as bv16, old(a.Value()).proc)]
    {
      Append(link, a);
      Fill(a, kind, command, terminal);
      ShowsMore(nodes, own, contents, a);
      nodes, contents := nodes + [a], contents + [a.Value()];
    }

    /** Moves the matching entry to the end, or puts a new one there; then fills it in.
        A matching entry is still the same node. */
    method NewInitAction(kind: bv8, command: string, terminal: string) returns (a: Action, ghost i: nat)
      requires Valid()
      modifies this`head, this`nodes, this`contents, this`own, own`next, own`kind, own`command, own`terminal
      ensures Valid() && own == old(own) + {a}
      ensures i == Find(old(contents), (command, terminal)) <= |old(nodes)|
      ensures nodes == WithoutAt(old(nodes), i) + [a]
      ensures contents == NewAction(old(contents), Line(kind, command, terminal))
      ensures if i < |old(nodes)| then a == old(nodes)[i] && a in old(own) else fresh(a)
    {
      var link: Action?;
      link, a, i := TakeOut(command, terminal);
      OwnLink(link, |nodes|);
      AppendFilled(link, a, kind, command, terminal);
    }

    // ----- reload -----

    /** Disables one entry, unless it is static. */
    method Disable(a: Action, ghost i: nat)
      requires Valid() && i < |nodes| && a == nodes[i]
      modifies this`contents, a`kind
      ensures Valid() && i < |old(contents)|
      ensures contents == old(contents)[i := Stale(old(contents)[i])]
    {
      LinkedAll(head, nodes, own);
      ShowsAll(nodes, own, contents);
      if a.kind & STATICACT == 0 {
        a.kind := 0;
      }
      contents := contents[i := Stale(contents[i])];
      ShowsAll(nodes, own, contents);
    }

    /** Disables the old entries; an entry not named again is then recognised by its
        kind. */
    method DisableOld()
      requires Valid()
      modifies this`contents, own`kind
      ensures Valid() && contents == MarkStale(old(contents))
    {
      ghost var i, es := 0, contents;
      var a := Peek(null, 0);
      while a != null
        invariant Valid() && i <= |nodes| == |es| && a == At(nodes, i)
        invariant Marked(es, i, contents)
        decreases |es| - i
      {
        MarkNext(es, i, contents);
        OwnHas(head, nodes, own, a);
        Disable(a, i);
        i := i + 1;
        a := Peek(a, i);
      }
      MarkEnd(es, contents);
    }

    /** A line; the nodes s0 keep the keys and processes that es0 shows. */
    method ParseLine(l: Line, ghost s0: seq<Action>, ghost es0: seq<Entry>)
      requires Valid()
      modifies this`head, this`nodes, this`contents, this`own, own`next, own`kind, own`command, own`terminal
      ensures Valid() && fresh(own - old(own))
      ensures contents == NewAction(old(contents), l)
      ensures old(AllHave(s0, es0, nodes, contents)) && EntriesFit(old(contents)) ==> AllHave(s0, es0, nodes, contents)
    {
      ghost var s, es := nodes, contents;
      ShowsAt(s, own, es, 0);
      var a, _ := NewInitAction(l.kind, l.command, l.terminal);
      if AllHave(s0, es0, s, es) && EntriesFit(es) {
        AllLineKeeps(s0, es0, s, es, a, l);
      }
    }

    /** The lines one after the other. */
    method ParseInittab(tab: seq<Line>, ghost s0: seq<Action>, ghost es0: seq<Entry>)
      requires Valid()
      modifies this`head, this`nodes, this`contents, this`own, own`next, own`kind, own`command, own`terminal
      ensures Valid() && fresh(own - old(own))
      ensures contents == Parse(old(contents), tab)
      ensures old(AllHave(s0, es0, nodes, contents)) && EntriesFit(old(contents)) ==> AllHave(s0, es0, nodes, contents)
    {
      ghost var es, ok := contents, AllHave(s0, es0, nodes, contents) && EntriesFit(contents);
      for k := 0 to |tab|
        invariant Valid() && fresh(own - old(own))
        invariant contents == Parse(es, tab[..k])
        invariant ok ==> AllHave(s0, es0, nodes, contents)
      {
        if ok {
          ParseKeys(es, tab[..k], ("", ""));
        }
        ParseLine(tab[k], s0, es0);
        ParseNext(es, tab, k);
      }
      assert tab[..|tab|] == tab;
    }

    /** Takes out the entry a link points to if it is stale or a sysinit one, and
        otherwise goes on to the next link. */
    method SweepOne(start: Action?, a: Action, ghost i: nat) returns (link: Action?, ghost n: nat)
      requires Valid() && i < |nodes| && LinkAt(start, nodes, i) && a == nodes[i]
      modifies this`head, this`nodes, this`contents, own`next
      ensures Valid() && LinkAt(link, nodes, n)
      ensures i < |old(contents)|
      ensures if Lives(old(contents)[i].kind) then n == i + 1 && contents == old(contents) && nodes == old(nodes)
              else n == i && contents == WithoutAt(old(contents), i) && nodes == WithoutAt(old(nodes), i)
    {
      link, n := start, i;
      ShowsAt(nodes, own, contents, i);
      OwnLink(link, i);
      if a.kind & !SYSINIT == 0 {
        DropAt(link, a, i);
      } else {
        link, n := a, i + 1;
      }
    }

    /** Where the sweep of these nodes and entries stands: before the entry a, which the
        link leads to. */
    ghost predicate Sweeping(link: Action?, a: Action?, i: nat, k: nat, s: seq<Action>, es: seq<Entry>)
      reads this`nodes, this`contents
    {
      && LinkAt(link, nodes, i) && a == At(nodes, i) && |nodes| == |contents|
      && k <= |es| && Swept(es, k, contents, i) && NodesSwept(s, es, k, nodes)
    }

    method SweepNext(start: Action?, a: Action, ghost i: nat, ghost k: nat, ghost s: seq<Action>, ghost es: seq<Entry>)
      returns (link: Action?, next: Action?, ghost n: nat)
      requires Valid() && Sweeping(start, a, i, k, s, es)
      modifies this`head, this`nodes, this`contents, own`next
      ensures Valid() && k < |es| && Sweeping(link, next, n, k + 1, s, es)
    {
      SweepOn(es, k, contents, i);
      NodesOn(s, es, k, nodes, i);
      link, n := SweepOne(start, a, i);
      next := Peek(link, n);
    }

    lemma BeginSweep()
      requires Valid()
      ensures |nodes| == |contents| && Sweeping(null, At(nodes, 0), 0, 0, nodes, contents)
    {
      ShowsAt(nodes, own, contents, 0);
      SweepBegin(nodes, contents);
    }

    lemma EndSweep(link: Action?, i: nat, k: nat, s: seq<Action>, es: seq<Entry>)
      requires Sweeping(link, null, i, k, s, es)
      ensures |s| == |es| && contents == Sweep(es) && nodes == SweptNodes(s, es)
    {
      SweepEnd(es, k, contents, i);
      NodesEnd(s, es, k, nodes, i);
    }

    /** Takes out the stale entries and the sysinit ones. */
    method SweepStale()
      requires Valid()
      modifies this`head, this`nodes, this`contents, own`next
      ensures Valid() && contents == Sweep(old(contents))
      ensures forall e :: e in contents <==> e in old(contents) && e.kind != 0 && e.kind != 0x01
      ensures |old(nodes)| == |old(contents)| && nodes == SweptNodes(old(nodes), old(contents))
    {
      var link: Action? := null;
      ghost var i, k, s, es := 0, 0, nodes, contents;
      var a := Peek(link, i);
      BeginSweep();
      while a != null
        invariant Valid() && Sweeping(link, a, i, k, s, es)
        decreases |es| - k
      {
        link, a, i := SweepNext(link, a, i, k, s, es);
        k := k + 1;
      }
      EndSweep(link, i, k, s, es);
      SweepLeaves(es);
    }

    /** The first half of a reload. */
    method Reparse(tab: seq<Line>)
      requires Valid()
      modifies this`head, this`nodes, this`contents, this`own, own`next, own`kind, own`command, own`terminal
      ensures Valid() && fresh(own - old(own))
      ensures contents == Parse(MarkStale(old(contents)), tab)
      ensures EntriesFit(old(contents)) ==> IsParsed(old(nodes), old(contents), tab, nodes)
    {
      ghost var s, es := nodes, contents;
      ShowsAt(s, own, es, 0);
      StaleHave(s, es);
      DisableOld();
      ParseInittab(tab, s, es);
      ShowsAt(nodes, own, contents, 0);
      ParsedIs(head, s, es, tab, nodes, own);
    }

    /** The list becomes the model's reload of it, and every node that stays in it keeps
        its key and its process. */
    method ReloadInittab(tab: seq<Line>) returns (ghost parsed: seq<Action>)
      requires Valid()
      modifies this`head, this`nodes, this`contents, this`own, own`next, own`kind, own`command, own`terminal
      ensures Valid() && fresh(own - old(own))
      ensures contents == Reload(old(contents), tab)
      ensures EntriesFit(old(contents)) ==> Reloaded(old(nodes), old(contents), tab, parsed, nodes)
      ensures Tidy(old(contents), tab) ==> AllMay(old(nodes), old(contents), nodes, contents)
    {
      ghost var s, es := nodes, contents;
      Reparse(tab);
      parsed := nodes;
      SweepStale();
      if Tidy(es, tab) {
        KeysKeep(s, es, tab, parsed, nodes);
      }
    }

    // ----- the end of a child -----

    method SetProc(a: Action, pid: int, ghost fork: nat, ghost i: nat)
      requires Valid() && i < |nodes| && a == nodes[i]
      modifies this`contents, a`pid, a`fork
      ensures Valid() && i < |old(contents)|
      ensures contents == old(contents)[i := old(contents)[i].(proc := Proc(pid, fork))]
    {
      LinkedAll(head, nodes, own);
      ShowsAll(nodes, own, contents);
      a.pid, a.fork := pid, fork;
      contents := contents[i := contents[i].(proc := Proc(pid, fork))];
      ShowsAll(nodes, own, contents);
    }

    method SeekPid(pid: int) returns (a: Action?, ghost i: nat)
      requires Valid()
      ensures i == FindPid(contents, pid) <= |nodes|
      ensures a == At(nodes, FindPid(contents, pid))
    {
      i := 0;
      a := Peek(null, i);
      while a != null && a.pid != pid
        invariant i <= |nodes| && a == At(nodes, i)
        invariant forall j :: 0 <= j < i ==> contents[j].proc.pid != pid
        decreases |nodes| - i
      {
        ShowsAt(nodes, own, contents, i);
        i := i + 1;
        a := Peek(a, i);
      }
      ShowsAt(nodes, own, contents, i);
    }

    /** The entry with this pid has no child any more. */
    method MarkTerminated(pid: int)
      requires Valid()
      modifies this`contents, own`pid, own`fork
      ensures Valid() && contents == Terminated(old(contents), pid)
    {
      if pid > 0 {
        var a, i := SeekPid(pid);
        ShowsAt(nodes, own, contents, i);
        if a != null {
          SetProc(a, 0, a.fork, i);
        }
      }
    }
  }
}
