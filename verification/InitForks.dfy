/** Which entries a run of busybox init starts, which of them it waits for, and what the
    start of init and a turn of its main loop run: with the kinds in figures. */
module InitForks {
  import opened InitModel
  import opened InitRun

  // ----- one entry -----

  /** The entry is for a run of these kinds; one for static entries takes its own kind only. */
  predicate Picked(kind: bv16, wanted: bv16) {
    kind & wanted != 0 && (wanted & 0x100 != 0 ==> kind == wanted)
  }

  /** It is run each time: sysinit, wait, once, ctrlaltdel and shutdown. */
  predicate Single(kind: bv16) {
    kind & 0x01 != 0 || kind & 0x02 != 0 || kind & 0x04 != 0 || kind & 0x20 != 0 || kind & 0x40 != 0
  }

  /** It is waited for: all of these but once. */
  predicate Awaited(kind: bv16) {
    kind & 0x01 != 0 || kind & 0x02 != 0 || kind & 0x20 != 0 || kind & 0x40 != 0
  }

  /** It is kept running: respawn and askfirst. */
  predicate Kept(kind: bv16) { kind & 0x08 != 0 || kind & 0x10 != 0 }

  lemma KindsMean(kind: bv16, wanted: bv16)
    ensures Selected(kind, wanted) <==> Picked(kind, wanted)
    ensures kind & UNRECORDED != 0 <==> Single(kind)
    ensures kind & WAITED != 0 <==> Awaited(kind)
    ensures kind & RESPAWNED != 0 <==> Kept(kind)
    ensures Awaited(kind) ==> Single(kind)
  {
  }

  // ----- how many forks -----

  function FirstForks(kind: bv16, wanted: bv16): nat { if Picked(kind, wanted) && Single(kind) then 1 else 0 }

  function RespawnForks(kind: bv16, wanted: bv16, idle: bool): nat {
    if Picked(kind, wanted) && Kept(kind) && idle then 1 else 0
  }

  /** No process is recorded when the run comes to the entry's respawn branch. */
  predicate IdleWhenReached(f: Offers, s: Sys, i: nat, wanted: bv16)
    requires i < |s.es|
  {
    AtRespawn(f, s, i, wanted).es[i].proc.pid == 0
  }

  /** The forks of a run as far as entry n: one for each picked entry that is run each time,
      and one for each that is kept running and idle when reached. */
  function ForksBefore(f: Offers, s: Sys, wanted: bv16, n: nat): nat
    requires n <= |s.es|
  {
    if n == 0 then 0
    else
      var kind := s.es[n - 1].kind;
      ForksBefore(f, s, wanted, n - 1) + FirstForks(kind, wanted) +
      RespawnForks(kind, wanted, IdleWhenReached(f, s, n - 1, wanted))
  }

  lemma {:induction false} WaitedCalls(s: Sys, pid: int)
    ensures Waited(s, pid).kernel.calls == s.kernel.calls
    decreases |s.kernel.exits|
  {
    if pid > 0 && pid in s.kernel.procs && |s.kernel.exits| > 0 {
      WaitedCalls(Reaped(s.(kernel := s.kernel.(exits := s.kernel.exits[1..])), s.kernel.exits[0]), pid);
    }
  }

  lemma FirstCalls(f: Offers, s: Sys, kind: bv16)
    ensures RunFirst(f, s, kind).kernel.calls == s.kernel.calls + if Single(kind) then 1 else 0
  {
    KindsMean(kind, kind);
    WaitedCalls(s.(kernel := Forked(f, s.kernel)), Offered(f, s.kernel));
  }

  lemma EntryCalls(f: Offers, s: Sys, i: nat, wanted: bv16)
    requires i < |s.es| && !s.stuck && !RunEntry(f, s, i, wanted).stuck
    ensures var kind := s.es[i].kind;
            RunEntry(f, s, i, wanted).kernel.calls == s.kernel.calls + FirstForks(kind, wanted) +
              RespawnForks(kind, wanted, RunFirst(f, s, kind).es[i].proc.pid == 0)
  {
    KindsMean(s.es[i].kind, wanted);
    FirstCalls(f, s, s.es[i].kind);
  }

  /** One entry more. */
  lemma {:induction false} UpToNext(f: Offers, s: Sys, n: nat, i: nat, wanted: bv16)
    requires n <= i < |s.es|
    ensures var t := RunUpTo(f, s, n, i, wanted);
            RunUpTo(f, s, n, i + 1, wanted) == if t.stuck then t else RunEntry(f, t, i, wanted)
    decreases i - n
  {
    if n < i && !s.stuck {
      UpToNext(f, RunEntry(f, s, n, wanted), n + 1, i, wanted);
    }
  }

  lemma {:induction false} UpToForks(f: Offers, s: Sys, wanted: bv16, n: nat)
    requires n <= |s.es| && !RunUpTo(f, s, 0, n, wanted).stuck
    ensures RunUpTo(f, s, 0, n, wanted).kernel.calls == s.kernel.calls + ForksBefore(f, s, wanted, n)
  {
    if n > 0 {
      UpToNext(f, s, 0, n - 1, wanted);
      UpToForks(f, s, wanted, n - 1);
      EntryCalls(f, RunUpTo(f, s, 0, n - 1, wanted), n - 1, wanted);
    }
  }

  lemma WholeRun(f: Offers, s: Sys, wanted: bv16)
    ensures RunActions(f, s, wanted) == RunUpTo(f, s, 0, |s.es|, wanted)
  {
    RunGoesOn(f, s, 0, |s.es|, wanted);
  }

  /** A run that is not stuck makes exactly one fork for each picked entry that is sysinit,
      wait, once, ctrlaltdel or shutdown, and one for each that is respawn or askfirst and
      idle when reached; a run that picks nothing of that makes none. */
  lemma RunForks(f: Offers, s: Sys, wanted: bv16)
    requires !RunActions(f, s, wanted).stuck
    ensures RunActions(f, s, wanted).kernel.calls == s.kernel.calls + ForksBefore(f, s, wanted, |s.es|)
  {
    WholeRun(f, s, wanted);
    UpToForks(f, s, wanted, |s.es|);
  }

  // ----- what is waited for -----

  /** Where a process is in a list of ends. */
  function Until(exits: seq<int>, pid: int): (n: nat)
    ensures n <= |exits|
  {
    if |exits| == 0 || exits[0] == pid then 0 else 1 + Until(exits[1..], pid)
  }

  /** A wait for a live child takes the ends up to that of the child, and reaps each; if the
      child does not end the wait does not. */
  lemma {:induction false} WaitMeans(s: Sys, pid: int)
    requires pid > 0 && pid in s.kernel.procs && !s.stuck
    ensures var r, exits := Waited(s, pid), s.kernel.exits;
            var n := Until(exits, pid);
            && (r.stuck <==> pid !in exits) && (pid in exits <==> n < |exits|)
            && (!r.stuck ==> r.kernel.exits == exits[n + 1..] &&
                             forall p :: p in r.kernel.procs <==> p in s.kernel.procs && p !in exits[..n + 1])
    decreases |s.kernel.exits|
  {
    var exits := s.kernel.exits;
    if |exits| > 0 {
      var next := Reaped(s.(kernel := s.kernel.(exits := exits[1..])), exits[0]);
      assert exits == [exits[0]] + exits[1..];
      if exits[0] == pid {
        assert Waited(next, pid) == next;
        assert exits[..1] == [pid];
      } else {
        WaitMeans(next, pid);
        var n := Until(exits[1..], pid);
        assert n < |exits[1..]| ==> exits[..n + 2] == [exits[0]] + exits[1..][..n + 1];
      }
    }
  }

  /** Waits only take children away. */
  lemma {:induction false} WaitedLess(s: Sys, pid: int)
    ensures var r := Waited(s, pid);
            && (forall p :: p in r.kernel.procs ==> p in s.kernel.procs && r.kernel.procs[p] == s.kernel.procs[p])
            && (!r.stuck && !s.stuck && pid > 0 ==> pid !in r.kernel.procs)
    decreases |s.kernel.exits|
  {
    if pid > 0 && pid in s.kernel.procs && |s.kernel.exits| > 0 {
      WaitedLess(Reaped(s.(kernel := s.kernel.(exits := s.kernel.exits[1..])), s.kernel.exits[0]), pid);
    }
  }

  lemma FirstWaits(f: Offers, s: Sys, kind: bv16)
    requires Sound(s.kernel) && !s.stuck && Awaited(kind) && !RunFirst(f, s, kind).stuck
    ensures !Alive(RunFirst(f, s, kind).kernel, s.kernel.calls + 1)
  {
    KindsMean(kind, kind);
    ForkSound(f, s.kernel);
    WaitedLess(s.(kernel := Forked(f, s.kernel)), Offered(f, s.kernel));
  }

  /** A child that is gone, by the number of its fork, does not come back. */
  predicate GoneFor(k: Kernel, n: nat) { n <= k.calls && !Alive(k, n) }

  lemma StillGone(a: Kernel, b: Kernel, n: nat)
    requires GoneFor(a, n) && a.calls <= b.calls
    requires forall p :: p in b.procs ==> b.procs[p] > a.calls || (p in a.procs && a.procs[p] == b.procs[p])
    ensures GoneFor(b, n)
  {
  }

  lemma FirstGone(f: Offers, s: Sys, kind: bv16, n: nat)
    requires GoneFor(s.kernel, n)
    ensures GoneFor(RunFirst(f, s, kind).kernel, n)
  {
    FirstCalls(f, s, kind);
    WaitedLess(s.(kernel := Forked(f, s.kernel)), Offered(f, s.kernel));
    StillGone(s.kernel, RunFirst(f, s, kind).kernel, n);
  }

  lemma SecondGone(f: Offers, s: Sys, i: nat, n: nat)
    requires i < |s.es| && GoneFor(s.kernel, n)
    ensures GoneFor(Respawn(f, s, i).kernel, n)
  {
    StillGone(s.kernel, Respawn(f, s, i).kernel, n);
  }

  lemma EntryGone(f: Offers, s: Sys, i: nat, wanted: bv16, n: nat)
    requires i < |s.es| && GoneFor(s.kernel, n)
    ensures GoneFor(RunEntry(f, s, i, wanted).kernel, n)
  {
    FirstGone(f, s, s.es[i].kind, n);
    SecondGone(f, RunFirst(f, s, s.es[i].kind), i, n);
  }

  lemma {:induction false} RunGone(f: Offers, s: Sys, i: nat, wanted: bv16, n: nat)
    requires GoneFor(s.kernel, n)
    ensures GoneFor(RunFrom(f, s, i, wanted).kernel, n)
    decreases |s.es| - i
  {
    if i < |s.es| && !s.stuck {
      EntryGone(f, s, i, wanted, n);
      RunGone(f, RunEntry(f, s, i, wanted), i + 1, wanted, n);
    }
  }

  /** A run past an entry that is waited for. */
  lemma EntryWaits(f: Offers, s: Sys, i: nat, wanted: bv16)
    requires i < |s.es| && Sound(s.kernel) && !s.stuck && Picked(s.es[i].kind, wanted) && Awaited(s.es[i].kind)
    requires !RunEntry(f, s, i, wanted).stuck
    ensures GoneFor(RunEntry(f, s, i, wanted).kernel, s.kernel.calls + 1)
  {
    var kind := s.es[i].kind;
    KindsMean(kind, wanted);
    FirstWaits(f, s, kind);
    FirstCalls(f, s, kind);
    SecondGone(f, RunFirst(f, s, kind), i, s.kernel.calls + 1);
  }

  /** The run goes on past the entry, a picked one that is waited for, and n is the number of
      the fork that is made for it. */
  ghost predicate Passes(f: Offers, s: Sys, wanted: bv16, i: nat, n: nat)
    requires i < |s.es|
  {
    var t := RunUpTo(f, s, 0, i, wanted);
    && Picked(s.es[i].kind, wanted) && Awaited(s.es[i].kind)
    && Sound(t.kernel) && !t.stuck && n == t.kernel.calls + 1
    && RunUpTo(f, s, 0, i + 1, wanted) == RunEntry(f, t, i, wanted) && !RunEntry(f, t, i, wanted).stuck
  }

  lemma ComesPast(f: Offers, s: Sys, wanted: bv16, i: nat)
    requires Supervised(s) && i < |s.es| && Picked(s.es[i].kind, wanted) && Awaited(s.es[i].kind)
    requires !RunUpTo(f, s, 0, i + 1, wanted).stuck
    ensures Passes(f, s, wanted, i, s.kernel.calls + ForksBefore(f, s, wanted, i) + 1)
  {
    UpToNext(f, s, 0, i, wanted);
    UpToForks(f, s, wanted, i);
    UpToSupervised(f, s, 0, i, wanted);
  }

  lemma PastIsGone(f: Offers, s: Sys, wanted: bv16, i: nat, n: nat)
    requires i < |s.es| && Passes(f, s, wanted, i, n)
    ensures !Alive(RunActions(f, s, wanted).kernel, n)
  {
    var t := RunUpTo(f, s, 0, i, wanted);
    EntryWaits(f, t, i, wanted);
    RunGoesOn(f, s, 0, i + 1, wanted);
    RunGone(f, RunEntry(f, t, i, wanted), i + 1, wanted, n);
  }

  /** When a run goes on past a picked entry that is sysinit, wait, ctrlaltdel or shutdown,
      the child that it forked for the entry is reaped, and it stays so; its number among
      the forks is told by those of the entries before. */
  lemma RunWaits(f: Offers, s: Sys, wanted: bv16, i: nat) returns (n: nat)
    requires Supervised(s) && i < |s.es| && Picked(s.es[i].kind, wanted) && Awaited(s.es[i].kind)
    requires !RunUpTo(f, s, 0, i + 1, wanted).stuck
    ensures n == s.kernel.calls + ForksBefore(f, s, wanted, i) + 1
    ensures !Alive(RunActions(f, s, wanted).kernel, n)
  {
    ComesPast(f, s, wanted, i);
    n := s.kernel.calls + ForksBefore(f, s, wanted, i) + 1;
    PastIsGone(f, s, wanted, i, n);
  }

  /** An entry that is run once is started and not waited for. */
  lemma OnceGoesOn(f: Offers, s: Sys, i: nat, wanted: bv16)
    requires i < |s.es| && !s.stuck && Picked(s.es[i].kind, wanted)
    requires Single(s.es[i].kind) && !Awaited(s.es[i].kind) && !Kept(s.es[i].kind)
    ensures var r := RunEntry(f, s, i, wanted);
            && !r.stuck && r.es == s.es && r.kernel.exits == s.kernel.exits
            && r.kernel.calls == s.kernel.calls + 1
            && (Offered(f, s.kernel) > 0 ==> Alive(r.kernel, s.kernel.calls + 1))
            && forall p :: p in s.kernel.procs ==> p in r.kernel.procs && r.kernel.procs[p] == s.kernel.procs[p]
  {
    KindsMean(s.es[i].kind, wanted);
    var r := RunEntry(f, s, i, wanted);
    assert r.kernel == Forked(f, s.kernel);
    var p := Offered(f, s.kernel);
    assert p > 0 ==> p in r.kernel.procs && r.kernel.procs[p] == s.kernel.calls + 1;
  }

  // ----- the start of init and its main loop -----

  function RunOf(e: Event): seq<bv16> { if e.Run? then [e.wanted] else [] }

  function SignalOf(e: Event): seq<Signal> { if e.Got? then [e.signal] else [] }

  function EndOf(e: Event): seq<int> { if e.Child? then [e.pid] else [] }

  /** The runs among events, by their kinds. */
  function RunsIn(events: seq<Event>): seq<bv16> {
    if |events| == 0 then [] else RunOf(events[0]) + RunsIn(events[1..])
  }

  function SignalsIn(events: seq<Event>): seq<Signal> {
    if |events| == 0 then [] else SignalOf(events[0]) + SignalsIn(events[1..])
  }

  function EndsIn(events: seq<Event>): seq<int> {
    if |events| == 0 then [] else EndOf(events[0]) + EndsIn(events[1..])
  }

  lemma Regroup<T>(a: seq<T>, b: seq<T>, c: seq<T>)
    ensures a + (b + c) == a + b + c
  {
  }

  lemma FirstOfBoth(a: seq<Event>, b: seq<Event>)
    requires |a| > 0
    ensures (a + b)[0] == a[0] && (a + b)[1..] == a[1..] + b
  {
  }

  lemma {:induction false} RunsConcat(a: seq<Event>, b: seq<Event>)
    ensures RunsIn(a + b) == RunsIn(a) + RunsIn(b)
  {
    if |a| == 0 {
      assert a + b == b;
    } else {
      FirstOfBoth(a, b);
      RunsConcat(a[1..], b);
      Regroup(RunOf(a[0]), RunsIn(a[1..]), RunsIn(b));
    }
  }

  lemma {:induction false} SignalsConcat(a: seq<Event>, b: seq<Event>)
    ensures SignalsIn(a + b) == SignalsIn(a) + SignalsIn(b)
  {
    if |a| == 0 {
      assert a + b == b;
    } else {
      FirstOfBoth(a, b);
      SignalsConcat(a[1..], b);
      Regroup(SignalOf(a[0]), SignalsIn(a[1..]), SignalsIn(b));
    }
  }

  lemma {:induction false} EndsConcat(a: seq<Event>, b: seq<Event>)
    ensures EndsIn(a + b) == EndsIn(a) + EndsIn(b)
  {
    if |a| == 0 {
      assert a + b == b;
    } else {
      FirstOfBoth(a, b);
      EndsConcat(a[1..], b);
      Regroup(EndOf(a[0]), EndsIn(a[1..]), EndsIn(b));
    }
  }

  lemma InConcat(a: seq<Event>, b: seq<Event>)
    ensures RunsIn(a + b) == RunsIn(a) + RunsIn(b) && SignalsIn(a + b) == SignalsIn(a) + SignalsIn(b)
    ensures EndsIn(a + b) == EndsIn(a) + EndsIn(b)
  {
    RunsConcat(a, b);
    SignalsConcat(a, b);
    EndsConcat(a, b);
  }

  lemma {:induction false} InSignals(signals: seq<Signal>)
    ensures var events := Signals(signals); RunsIn(events) == [] && SignalsIn(events) == signals && EndsIn(events) == []
  {
    if |signals| > 0 {
      assert Signals(signals)[1..] == Signals(signals[1..]);
      InSignals(signals[1..]);
    }
  }

  lemma InRun(wanted: bv16)
    ensures RunsIn([Run(wanted)]) == [wanted] && SignalsIn([Run(wanted)]) == [] && EndsIn([Run(wanted)]) == []
  {
    assert [Run(wanted)][1..] == [];
  }

  /** How many waits return children before the first that returns none. */
  function Returned(waits: seq<int>): (n: nat)
    ensures n <= |waits| && (forall i :: 0 <= i < n ==> waits[i] > 0) && (n < |waits| ==> waits[n] <= 0)
  {
    if |waits| == 0 || waits[0] <= 0 then 0 else 1 + Returned(waits[1..])
  }

  lemma {:induction false} InChildren(waits: seq<int>)
    ensures var events := Children(waits);
            RunsIn(events) == [] && SignalsIn(events) == [] && EndsIn(events) == waits[..Returned(waits)]
  {
    if |waits| > 0 && waits[0] > 0 {
      assert Children(waits)[1..] == Children(waits[1..]);
      InChildren(waits[1..]);
      assert waits[..Returned(waits)] == [waits[0]] + waits[1..][..Returned(waits[1..])];
    }
  }

  /** One turn of the main loop: all its signals in order, one run of respawn and askfirst
      after the first of them, and then the ends up to the first wait that returns none. */
  lemma TurnIs(t: Turn)
    ensures var events := TurnEvents(t);
            && RunsIn(events) == [0x18] && SignalsIn(events) == t.first + (t.second + t.third)
            && EndsIn(events) == t.waits[..Returned(t.waits)]
  {
    var a, b, c := Signals(t.first) + [Run(RESPAWNED)], Signals(t.second) + Signals(t.third), Children(t.waits);
    TurnStart(t);
    TurnParts(t);
    InThree(a, b, c);
    InChildren(t.waits);
    NothingMore(RunsIn(a), RunsIn(b), RunsIn(c));
    NothingMore(SignalsIn(a), SignalsIn(b), SignalsIn(c));
  }

  lemma NothingMore<T>(a: seq<T>, b: seq<T>, c: seq<T>)
    ensures b == [] && c == [] ==> a + b + c == a
    ensures c == [] ==> a + b + c == a + b
  {
  }

  lemma TurnParts(t: Turn)
    ensures TurnEvents(t) ==
            (Signals(t.first) + [Run(RESPAWNED)]) + (Signals(t.second) + Signals(t.third)) + Children(t.waits)
  {
  }

  lemma InThree(a: seq<Event>, b: seq<Event>, c: seq<Event>)
    ensures RunsIn(a + b + c) == RunsIn(a) + RunsIn(b) + RunsIn(c)
    ensures SignalsIn(a + b + c) == SignalsIn(a) + SignalsIn(b) + SignalsIn(c)
    ensures EndsIn(a + b + c) == EndsIn(a) + EndsIn(b) + EndsIn(c)
  {
    InConcat(a + b, c);
    InConcat(a, b);
  }

  /** The run comes right after the first signals. */
  lemma TurnAt(t: Turn)
    ensures |t.first| < |TurnEvents(t)| && TurnEvents(t)[|t.first|] == Run(0x18)
    ensures TurnEvents(t)[..|t.first|] == Signals(t.first)
  {
    var rest := Signals(t.second) + Signals(t.third) + Children(t.waits);
    assert TurnEvents(t) == Signals(t.first) + ([Run(RESPAWNED)] + rest);
  }

  lemma TurnStart(t: Turn)
    ensures var a, b := Signals(t.first) + [Run(RESPAWNED)], Signals(t.second) + Signals(t.third);
            && RunsIn(a) == [0x18] && RunsIn(b) == [] && EndsIn(a) == [] && EndsIn(b) == []
            && SignalsIn(a) == t.first && SignalsIn(b) == t.second + t.third
  {
    InConcat(Signals(t.first), [Run(RESPAWNED)]);
    InConcat(Signals(t.second), Signals(t.third));
    InSignals(t.first);
    InSignals(t.second);
    InSignals(t.third);
    InRun(RESPAWNED);
  }

  /** Init starts with sysinit, wait, the static entries to be respawned, and once, with the
      signals that came looked at after the first and after the second. */
  lemma BootIs(first: seq<Signal>, second: seq<Signal>)
    ensures var events := BootEvents(first, second);
            && RunsIn(events) == [0x01, 0x02, 0x108, 0x04]
            && SignalsIn(events) == first + second && EndsIn(events) == []
  {
    var a, b := [Run(SYSINIT)] + Signals(first), [Run(WAIT)] + Signals(second);
    var c := [Run(RESPAWN | STATICACT), Run(ONCE)];
    assert BootEvents(first, second) == a + b + c;
    BootPart(SYSINIT, first);
    BootPart(WAIT, second);
    BootEnd();
    InThree(a, b, c);
    NothingMore(SignalsIn(a), SignalsIn(b), SignalsIn(c));
    NothingMore(EndsIn(a), EndsIn(b), EndsIn(c));
    FourRuns(RunsIn(a), RunsIn(b), RunsIn(c));
  }

  lemma BootEnd()
    ensures var c := [Run(RESPAWN | STATICACT), Run(ONCE)];
            RunsIn(c) == [0x108, 0x04] && SignalsIn(c) == [] && EndsIn(c) == []
  {
    var c := [Run(RESPAWN | STATICACT), Run(ONCE)];
    assert c == [Run(RESPAWN | STATICACT)] + [Run(ONCE)];
    InConcat([Run(RESPAWN | STATICACT)], [Run(ONCE)]);
    InRun(RESPAWN | STATICACT);
    InRun(ONCE);
  }

  lemma FourRuns(a: seq<bv16>, b: seq<bv16>, c: seq<bv16>)
    requires a == [0x01] && b == [0x02] && c == [0x108, 0x04]
    ensures a + b + c == [0x01, 0x02, 0x108, 0x04]
  {
  }

  lemma BootAt(first: seq<Signal>, second: seq<Signal>)
    ensures var events := BootEvents(first, second);
            && |events| == |first| + |second| + 4
            && events[0] == Run(0x01) && events[|first| + 1] == Run(0x02)
            && events[1..|first| + 1] == Signals(first) && events[|first| + 2..|events| - 2] == Signals(second)
  {
    var a, b := [Run(SYSINIT)] + Signals(first), [Run(WAIT)] + Signals(second);
    assert BootEvents(first, second) == a + (b + [Run(RESPAWN | STATICACT), Run(ONCE)]);
  }

  lemma BootPart(wanted: bv16, signals: seq<Signal>)
    ensures var events := [Run(wanted)] + Signals(signals);
            RunsIn(events) == [wanted] && SignalsIn(events) == signals && EndsIn(events) == []
  {
    InConcat([Run(wanted)], Signals(signals));
    InSignals(signals);
    InRun(wanted);
  }

  /** SIGINT is a run of the ctrlaltdel entries, and of no others. */
  lemma InterruptRuns(f: Offers, s: Sys)
    ensures Happen(f, s, Got(Interrupt)) == Happen(f, s, Run(0x20))
  {
  }

  // ----- what is started before the main loop -----

  predicate NoneRunning(es: seq<Entry>) { forall i :: 0 <= i < |es| ==> es[i].proc.pid == 0 }

  /** Only static entries to be respawned have a process. */
  predicate OnlyStatic(es: seq<Entry>) { forall i :: 0 <= i < |es| && es[i].proc.pid != 0 ==> es[i].kind == 0x108 }

  predicate NotStarted(before: int, after: int, kind: bv16, wanted: bv16) {
    after == before || after == 0 || wanted == 0x108 == kind
  }

  /** No process is recorded that was not before, but of static entries where they are wanted. */
  predicate NoneStarted(a: seq<Entry>, b: seq<Entry>, wanted: bv16) {
    && SameKeys(a, b)
    && forall i :: 0 <= i < |a| ==> NotStarted(a[i].proc.pid, b[i].proc.pid, b[i].kind, wanted)
  }

  lemma {:induction false} WaitedNone(s: Sys, pid: int, wanted: bv16)
    ensures NoneStarted(s.es, Waited(s, pid).es, wanted)
    decreases |s.kernel.exits|
  {
    if pid > 0 && pid in s.kernel.procs && |s.kernel.exits| > 0 {
      WaitedNone(Reaped(s.(kernel := s.kernel.(exits := s.kernel.exits[1..])), s.kernel.exits[0]), pid, wanted);
    }
  }

  /** The runs before the main loop. */
  predicate Early(wanted: bv16) {
    wanted == 0x01 || wanted == 0x02 || wanted == 0x04 || wanted == 0x20 || wanted == 0x108
  }

  lemma EarlyKind(kind: bv16, wanted: bv16)
    requires Early(wanted) && Pure(kind) && Picked(kind, wanted) && Kept(kind)
    ensures kind == wanted == 0x108
  {
    KindsMean(kind, wanted);
  }

  lemma EarlyEntry(f: Offers, s: Sys, i: nat, wanted: bv16)
    requires i < |s.es| && Early(wanted) && Pure(s.es[i].kind)
    ensures NoneStarted(s.es, RunEntry(f, s, i, wanted).es, wanted)
  {
    var kind := s.es[i].kind;
    KindsMean(kind, wanted);
    WaitedNone(s.(kernel := Forked(f, s.kernel)), Offered(f, s.kernel), wanted);
    if Picked(kind, wanted) && Kept(kind) {
      EarlyKind(kind, wanted);
    }
  }

  lemma {:induction false} EarlyRun(f: Offers, s: Sys, i: nat, wanted: bv16)
    requires AllPure(s.es) && Early(wanted)
    ensures NoneStarted(s.es, RunFrom(f, s, i, wanted).es, wanted)
    decreases |s.es| - i
  {
    if i < |s.es| && !s.stuck {
      EarlyEntry(f, s, i, wanted);
      EarlyRun(f, RunEntry(f, s, i, wanted), i + 1, wanted);
    }
  }

  lemma {:induction false} ParseIdle(es: seq<Entry>, tab: seq<Line>)
    requires NoneRunning(es)
    ensures NoneRunning(Parse(es, tab))
  {
    if |tab| > 0 {
      ParseIdle(es, tab[..|tab| - 1]);
    }
  }

  lemma ReloadIdle(es: seq<Entry>, tab: seq<Line>)
    requires NoneRunning(es)
    ensures NoneRunning(Reload(es, tab))
  {
    var ps := Parse(MarkStale(es), tab);
    assert forall i :: 0 <= i < |es| ==> MarkStale(es)[i].proc == es[i].proc;
    ParseIdle(MarkStale(es), tab);
    forall i | 0 <= i < |Sweep(ps)| ensures Sweep(ps)[i].proc.pid == 0 {
      SweepContents(ps, Sweep(ps)[i]);
    }
  }

  /** A signal, or a run of other kinds than respawn ones. */
  predicate Quiet(e: Event) {
    && PureEvents([e])
    && (e.Got? || (e.Run? && Early(e.wanted) && e.wanted != 0x108))
  }

  lemma QuietRun(f: Offers, s: Sys, wanted: bv16)
    requires NoneRunning(s.es) && AllPure(s.es) && Early(wanted) && wanted != 0x108
    ensures NoneRunning(RunActions(f, s, wanted).es) && AllPure(RunActions(f, s, wanted).es)
  {
    EarlyRun(f, s, 0, wanted);
  }

  lemma QuietEvent(f: Offers, s: Sys, e: Event)
    requires NoneRunning(s.es) && AllPure(s.es) && Quiet(e)
    ensures NoneRunning(Happen(f, s, e).es) && AllPure(Happen(f, s, e).es)
  {
    assert [e][0] == e;
    if e.Got? && e.signal.Hangup? {
      ReloadIdle(s.es, e.signal.tab);
      ReloadPure(s.es, e.signal.tab);
    } else {
      QuietRun(f, s, if e.Run? then e.wanted else 0x20);
    }
  }

  lemma {:induction false} QuietHistory(f: Offers, s: Sys, events: seq<Event>)
    requires NoneRunning(s.es) && AllPure(s.es) && forall i :: 0 <= i < |events| ==> Quiet(events[i])
    ensures NoneRunning(History(f, s, events).es) && AllPure(History(f, s, events).es)
  {
    if |events| > 0 {
      QuietHistory(f, s, events[..|events| - 1]);
      QuietEvent(f, History(f, s, events[..|events| - 1]), events[|events| - 1]);
    }
  }

  lemma LastRuns(f: Offers, s: Sys)
    requires NoneRunning(s.es) && AllPure(s.es)
    ensures OnlyStatic(Happen(f, Happen(f, s, Run(0x108)), Run(0x04)).es)
  {
    EarlyRun(f, s, 0, 0x108);
    var t := Happen(f, s, Run(0x108));
    assert NoneStarted(s.es, t.es, 0x108);
    EarlyRun(f, t, 0, 0x04);
    assert NoneStarted(t.es, Happen(f, t, Run(0x04)).es, 0x04);
  }

  predicate PureSignals(signals: seq<Signal>) {
    forall i :: 0 <= i < |signals| && signals[i].Hangup? ==> PureLines(signals[i].tab)
  }

  /** Whatever comes while init starts, before its main loop only static entries have a
      process recorded: no other respawn or askfirst entry is started before once. */
  lemma BootStarts(f: Offers, s: Sys, first: seq<Signal>, second: seq<Signal>)
    requires Initial(s) && AllPure(s.es) && PureSignals(first) && PureSignals(second)
    ensures OnlyStatic(History(f, s, BootEvents(first, second)).es)
  {
    var quiet := [Run(SYSINIT)] + Signals(first) + [Run(WAIT)] + Signals(second);
    assert BootEvents(first, second) == quiet + [Run(0x108)] + [Run(0x04)];
    forall i | 0 <= i < |quiet| ensures Quiet(quiet[i]) {
      assert [quiet[i]][0] == quiet[i];
    }
    QuietHistory(f, s, quiet);
    HistoryMore(f, s, quiet, Run(0x108));
    HistoryMore(f, s, quiet + [Run(0x108)], Run(0x04));
    LastRuns(f, History(f, s, quiet));
  }
}
