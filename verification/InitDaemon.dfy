/** busybox init running: forks, waits, run_actions and the main loop over the action
    list in memory. */
module InitDaemon {
  import opened InitModel
  import opened InitRun
  import opened InitList

  lemma SignalsMore(f: Offers, s: Sys, signals: seq<Signal>, n: nat)
    requires n < |signals|
    ensures History(f, s, Signals(signals[..n + 1])) == Happen(f, History(f, s, Signals(signals[..n])), Got(signals[n]))
  {
    assert Signals(signals[..n + 1]) == Signals(signals[..n]) + [Got(signals[n])];
    HistoryMore(f, s, Signals(signals[..n]), Got(signals[n]));
  }

  lemma ChildrenMore(f: Offers, s: Sys, waits: seq<int>)
    requires |waits| > 0 && waits[0] > 0
    ensures History(f, s, Children(waits)) == History(f, Happen(f, s, Child(waits[0])), Children(waits[1..]))
  {
    HistorySplit(f, s, [Child(waits[0])], Children(waits[1..]));
    HistoryMore(f, s, [], Child(waits[0]));
    assert [] + [Child(waits[0])] == [Child(waits[0])];
  }

  lemma RunAlone(f: Offers, s: Sys, wanted: bv16)
    ensures History(f, s, [Run(wanted)]) == Happen(f, s, Run(wanted))
  {
    HistoryMore(f, s, [], Run(wanted));
    assert [] + [Run(wanted)] == [Run(wanted)];
  }

  lemma TurnSplit(f: Offers, s: Sys, t: Turn)
    ensures History(f, s, TurnEvents(t)) ==
            History(f,
                    History(f, History(f, s, Signals(t.first) + [Run(RESPAWNED)]),
                            Signals(t.second) + Signals(t.third)),
                    Children(t.waits))
  {
    var a, b, c := Signals(t.first) + [Run(RESPAWNED)], Signals(t.second) + Signals(t.third), Children(t.waits);
    assert TurnEvents(t) == a + b + c;
    HistorySplit(f, s, a + b, c);
    HistorySplit(f, s, a, b);
  }

  lemma LoopMore(f: Offers, s: Sys, turns: seq<Turn>, n: nat)
    requires n < |turns|
    ensures History(f, s, LoopEvents(turns[..n + 1])) ==
            History(f, History(f, s, LoopEvents(turns[..n])), TurnEvents(turns[n]))
  {
    assert turns[..n + 1][..n] == turns[..n];
    HistorySplit(f, s, LoopEvents(turns[..n]), TurnEvents(turns[n]));
  }

  lemma BootSplit(f: Offers, s: Sys, first: seq<Signal>, second: seq<Signal>)
    ensures var a, b := [Run(SYSINIT)] + Signals(first), [Run(WAIT)] + Signals(second);
            var t := History(f, History(f, s, a), b);
            History(f, s, BootEvents(first, second)) ==
            History(f, History(f, t, [Run(RESPAWN | STATICACT)]), [Run(ONCE)])
  {
    var a, b := [Run(SYSINIT)] + Signals(first), [Run(WAIT)] + Signals(second);
    assert BootEvents(first, second) == a + b + [Run(RESPAWN | STATICACT)] + [Run(ONCE)];
    HistorySplit(f, s, a + b + [Run(RESPAWN | STATICACT)], [Run(ONCE)]);
    HistorySplit(f, s, a + b, [Run(RESPAWN | STATICACT)]);
    HistorySplit(f, s, a, b);
  }

  class Init {
    const list: ActionList
    const offers: Offers
    var kernel: Kernel
    var stuck: bool

    constructor (list: ActionList, offers: Offers, exits: seq<int>)
      requires list.Valid()
      ensures this.list == list && this.offers == offers
      ensures Sys() == InitRun.Sys(list.contents, Kernel(map[], 0, 0, exits), false)
    {
      this.list, this.offers := list, offers;
      kernel, stuck := Kernel(map[], 0, 0, exits), false;
    }

    ghost function Sys(): Sys
      reads this`kernel, this`stuck, list`contents
    {
      InitRun.Sys(list.contents, kernel, stuck)
    }

    method Fork() returns (pid: int)
      modifies this`kernel
      ensures pid == Offered(offers, old(kernel)) && kernel == Forked(offers, old(kernel))
    {
      pid := Offered(offers, kernel);
      kernel := Forked(offers, kernel);
    }

    /** A wait has returned. */
    method Reap(pid: int)
      requires list.Valid()
      modifies this`kernel, list`contents, list.own`pid, list.own`fork
      ensures list.Valid() && Sys() == Reaped(old(Sys()), pid)
    {
      list.MarkTerminated(pid);
      kernel := kernel.(procs := kernel.procs - {pid});
    }

    method WaitFor(pid: int)
      requires list.Valid()
      modifies this`kernel, this`stuck, list`contents, list.own`pid, list.own`fork
      ensures list.Valid() && Sys() == Waited(old(Sys()), pid)
    {
      if pid <= 0 {
        return;
      }
      ghost var goal := Waited(Sys(), pid);
      while pid in kernel.procs && |kernel.exits| > 0
        invariant list.Valid() && Waited(Sys(), pid) == goal
        decreases |kernel.exits|
      {
        var child := kernel.exits[0];
        kernel := kernel.(exits := kernel.exits[1..]);
        Reap(child);
      }
      if pid in kernel.procs {
        stuck := true;
      }
    }

    // ----- run_actions -----

    method RunUnrecorded(kind: bv16)
      requires list.Valid()
      modifies this`kernel, this`stuck, list`contents, list.own`pid, list.own`fork
      ensures list.Valid() && Sys() == RunFirst(offers, old(Sys()), kind)
    {
      if kind & UNRECORDED != 0 {
        var pid := Fork();
        if kind & WAITED != 0 {
          WaitFor(pid);
        }
      }
    }

    /** Only an entry without a pid is run; the others are already running. */
    method StartIfIdle(a: Action, ghost i: nat)
      requires list.Valid() && i < |list.nodes| && a == list.nodes[i]
      modifies this`kernel, list`contents, a`pid, a`fork
      ensures list.Valid() && i < |old(list.contents)|
      ensures Sys() == Respawn(offers, old(Sys()), i)
    {
      ShowsAt(list.nodes, list.own, list.contents, i);
      if a.pid == 0 {
        ghost var n := kernel.calls + 1;
        var pid := Fork();
        list.SetProc(a, pid, if pid > 0 then n else a.fork, i);
      }
    }

    method RunSelectedAction(a: Action, ghost i: nat)
      requires list.Valid() && i < |list.nodes| && a == list.nodes[i] && a in list.own
      requires i < |list.contents| && a.kind == list.contents[i].kind
      modifies this`kernel, this`stuck, list`contents, list.own`pid, list.own`fork
      ensures list.Valid() && Sys() == RunSelected(offers, old(Sys()), i)
    {
      RunUnrecorded(a.kind);
      if !stuck && a.kind & RESPAWNED != 0 {
        StartIfIdle(a, i);
      }
    }

    method RunAction(a: Action, wanted: bv16, ghost i: nat)
      requires list.Valid() && i < |list.nodes| && a == list.nodes[i]
      modifies this`kernel, this`stuck, list`contents, list.own`pid, list.own`fork
      ensures list.Valid() && i < |old(list.contents)|
      ensures Sys() == RunEntry(offers, old(Sys()), i, wanted)
    {
      ShowsAt(list.nodes, list.own, list.contents, i);
      if Selected(a.kind, wanted) {
        RunSelectedAction(a, i);
      }
    }

    method RunActions(wanted: bv16)
      requires list.Valid() && !stuck
      modifies this`kernel, this`stuck, list`contents, list.own`pid, list.own`fork
      ensures list.Valid() && Sys() == InitRun.RunActions(offers, old(Sys()), wanted)
    {
      ghost var i, goal := 0, RunFrom(offers, Sys(), 0, wanted);
      var a := list.Peek(null, i);
      while a != null && !stuck
        invariant list.Valid() && i <= |list.nodes| == |list.contents| && a == At(list.nodes, i)
        invariant RunFrom(offers, Sys(), i, wanted) == goal
        decreases |list.nodes| - i
      {
        RunAction(a, wanted, i);
        i := i + 1;
        a := list.Peek(a, i);
      }
    }

    // ----- the main loop -----

    method RunAll(wanted: bv16)
      requires list.Valid()
      modifies this`kernel, this`stuck, list`contents, list.own`pid, list.own`fork
      ensures list.Valid() && Sys() == History(offers, old(Sys()), [Run(wanted)])
    {
      RunAlone(offers, Sys(), wanted);
      if !stuck {
        RunActions(wanted);
      }
    }

    method OnSignal(signal: Signal)
      requires list.Valid()
      modifies this`kernel, this`stuck, list`head, list`nodes, list`contents, list`own, list.own
      ensures list.Valid() && fresh(list.own - old(list.own))
      ensures Sys() == Happen(offers, old(Sys()), Got(signal))
    {
      if stuck {
        return;
      }
      match signal
      case Hangup(tab) => var _ := list.ReloadInittab(tab);
      case Interrupt => RunActions(CTRLALTDEL);
    }

    method CheckSignals(signals: seq<Signal>)
      requires list.Valid()
      modifies this`kernel, this`stuck, list`head, list`nodes, list`contents, list`own, list.own
      ensures list.Valid() && fresh(list.own - old(list.own))
      ensures Sys() == History(offers, old(Sys()), Signals(signals))
    {
      ghost var before := Sys();
      for n := 0 to |signals|
        invariant list.Valid() && fresh(list.own - old(list.own))
        invariant Sys() == History(offers, before, Signals(signals[..n]))
      {
        SignalsMore(offers, before, signals, n);
        OnSignal(signals[n]);
      }
      assert signals[..|signals|] == signals;
    }

    method WaitChildren(waits: seq<int>)
      requires list.Valid()
      modifies this`kernel, list`contents, list.own`pid, list.own`fork
      ensures list.Valid() && Sys() == History(offers, old(Sys()), Children(waits))
    {
      if stuck {
        StuckStays(offers, Sys(), Children(waits));
        return;
      }
      ghost var goal := History(offers, Sys(), Children(waits));
      var n := 0;
      while n < |waits| && waits[n] > 0
        invariant n <= |waits| && list.Valid() && !stuck
        invariant History(offers, Sys(), Children(waits[n..])) == goal
        decreases |waits| - n
      {
        ChildrenMore(offers, Sys(), waits[n..]);
        assert waits[n..][1..] == waits[n + 1..];
        Reap(waits[n]);
        n := n + 1;
      }
    }

    /** Signals, the respawning, and the signals that came meanwhile. */
    method FirstHalf(t: Turn)
      requires list.Valid()
      modifies this`kernel, this`stuck, list`head, list`nodes, list`contents, list`own, list.own
      ensures list.Valid() && fresh(list.own - old(list.own))
      ensures Sys() == History(offers, old(Sys()), Signals(t.first) + [Run(RESPAWNED)])
    {
      HistorySplit(offers, Sys(), Signals(t.first), [Run(RESPAWNED)]);
      CheckSignals(t.first);
      RunAll(RESPAWN | ASKFIRST);
    }

    method SecondHalf(t: Turn)
      requires list.Valid()
      modifies this`kernel, this`stuck, list`head, list`nodes, list`contents, list`own, list.own
      ensures list.Valid() && fresh(list.own - old(list.own))
      ensures Sys() == History(offers, old(Sys()), Signals(t.second) + Signals(t.third))
    {
      HistorySplit(offers, Sys(), Signals(t.second), Signals(t.third));
      CheckSignals(t.second);
      CheckSignals(t.third);
    }

    /** One turn of the endless loop. */
    method TakeTurn(t: Turn)
      requires list.Valid()
      modifies this`kernel, this`stuck, list`head, list`nodes, list`contents, list`own, list.own
      ensures list.Valid() && fresh(list.own - old(list.own))
      ensures Sys() == History(offers, old(Sys()), TurnEvents(t))
    {
      TurnSplit(offers, Sys(), t);
      FirstHalf(t);
      SecondHalf(t);
      WaitChildren(t.waits);
    }

    /** As many turns of the loop as there are. */
    method MainLoop(turns: seq<Turn>)
      requires list.Valid()
      modifies this`kernel, this`stuck, list`head, list`nodes, list`contents, list`own, list.own
      ensures list.Valid() && fresh(list.own - old(list.own))
      ensures Sys() == History(offers, old(Sys()), LoopEvents(turns))
    {
      ghost var before := Sys();
      for n := 0 to |turns|
        invariant list.Valid() && fresh(list.own - old(list.own))
        invariant Sys() == History(offers, before, LoopEvents(turns[..n]))
      {
        LoopMore(offers, before, turns, n);
        TakeTurn(turns[n]);
      }
      assert turns[..|turns|] == turns;
    }

    method RunThenCheck(wanted: bv16, signals: seq<Signal>)
      requires list.Valid()
      modifies this`kernel, this`stuck, list`head, list`nodes, list`contents, list`own, list.own
      ensures list.Valid() && fresh(list.own - old(list.own))
      ensures Sys() == History(offers, old(Sys()), [Run(wanted)] + Signals(signals))
    {
      HistorySplit(offers, Sys(), [Run(wanted)], Signals(signals));
      RunAll(wanted);
      CheckSignals(signals);
    }

    /** The runs before the loop. */
    method Boot(first: seq<Signal>, second: seq<Signal>)
      requires list.Valid()
      modifies this`kernel, this`stuck, list`head, list`nodes, list`contents, list`own, list.own
      ensures list.Valid() && fresh(list.own - old(list.own))
      ensures Sys() == History(offers, old(Sys()), BootEvents(first, second))
    {
      BootSplit(offers, Sys(), first, second);
      RunThenCheck(SYSINIT, first);
      RunThenCheck(WAIT, second);
      RunAll(RESPAWN | STATICACT);
      RunAll(ONCE);
    }
  }
}
