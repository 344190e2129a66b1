/** busybox init as a supervisor, on values: what run_actions, the waits and the main
    loop make of the action list and of the processes, with the kernel as environment. */
module InitRun {
  import opened InitModel
  import opened InitReload
  import opened InitQueue

  /** The kernel's side: the children that are not reaped yet, each with the number of
      the fork that made it; how many forks there were and how many failed; and what
      the coming waits in waitfor will return. */
  datatype Kernel = Kernel(procs: map<int, nat>, calls: nat, failed: nat, exits: seq<int>)

  /** Stuck: waitfor waits for a child that does not end. */
  datatype Sys = Sys(es: seq<Entry>, kernel: Kernel, stuck: bool)

  /** The pid that the kernel has for a fork, by the number of the fork; it refuses a
      fork by offering nothing positive, and never gives out an unreaped pid. */
  type Offers = nat -> int

  function Offered(f: Offers, k: Kernel): int {
    var p := f(k.calls);
    if p > 0 && p !in k.procs then p else -1
  }

  function Forked(f: Offers, k: Kernel): Kernel {
    var p := Offered(f, k);
    if p > 0 then k.(procs := k.procs[p := k.calls + 1], calls := k.calls + 1)
    else k.(calls := k.calls + 1, failed := k.failed + 1)
  }

  /** The same entries, but perhaps for their processes. */
  predicate SameKeys(a: seq<Entry>, b: seq<Entry>) {
    |a| == |b| && forall i :: 0 <= i < |a| ==> b[i].kind == a[i].kind && b[i].Key() == a[i].Key()
  }

  // ----- the end of a child -----

  function FindPid(es: seq<Entry>, pid: int): (i: nat)
    ensures i <= |es|
    ensures i < |es| ==> es[i].proc.pid == pid
    ensures forall j :: 0 <= j < i ==> es[j].proc.pid != pid
  {
    if |es| == 0 then 0 else if es[0].proc.pid == pid then 0 else 1 + FindPid(es[1..], pid)
  }

  function Ended(e: Entry): Entry { e.(proc := e.proc.(pid := 0)) }

  function Terminated(es: seq<Entry>, pid: int): (r: seq<Entry>)
    ensures SameKeys(es, r)
    ensures forall i :: 0 <= i < |es| ==> r[i].proc.fork == es[i].proc.fork
    ensures forall i :: 0 <= i < |es| ==> r[i].proc.pid == es[i].proc.pid || r[i].proc.pid == 0
  {
    var i := FindPid(es, pid);
    if pid > 0 && i < |es| then es[i := Ended(es[i])] else es
  }

  /** A wait returned this value: a child of ours, an adopted process, or an error. */
  function Reaped(s: Sys, pid: int): (r: Sys)
    ensures SameKeys(s.es, r.es) && r.stuck == s.stuck
  {
    s.(es := Terminated(s.es, pid), kernel := s.kernel.(procs := s.kernel.procs - {pid}))
  }

  function Waited(s: Sys, pid: int): (r: Sys)
    ensures SameKeys(s.es, r.es)
    decreases |s.kernel.exits|
  {
    if pid <= 0 || pid !in s.kernel.procs then s
    else if |s.kernel.exits| == 0 then s.(stuck := true)
    else Waited(Reaped(s.(kernel := s.kernel.(exits := s.kernel.exits[1..])), s.kernel.exits[0]), pid)
  }

  // ----- run_actions -----

  predicate Selected(kind: bv16, wanted: bv16) {
    !(STATICACT & wanted != 0 && wanted != kind) && kind & wanted != 0
  }

  /** The entry is run and not recorded; some are waited for. */
  function RunOnce(f: Offers, s: Sys, kind: bv16): (r: Sys)
    ensures SameKeys(s.es, r.es)
  {
    var forked := s.(kernel := Forked(f, s.kernel));
    if kind & WAITED != 0 then Waited(forked, Offered(f, s.kernel)) else forked
  }

  function Started(f: Offers, e: Entry, k: Kernel): Entry {
    var p := Offered(f, k);
    e.(proc := if p > 0 then Proc(p, k.calls + 1) else Proc(-1, e.proc.fork))
  }

  /** The respawn branch: only entries without a pid are run. */
  function Respawn(f: Offers, s: Sys, i: nat): (r: Sys)
    requires i < |s.es|
    ensures SameKeys(s.es, r.es)
  {
    if s.es[i].proc.pid != 0 then s
    else s.(es := s.es[i := Started(f, s.es[i], s.kernel)], kernel := Forked(f, s.kernel))
  }

  /** The part of an entry's run that leaves its own pid alone. */
  function RunFirst(f: Offers, s: Sys, kind: bv16): (r: Sys)
    ensures SameKeys(s.es, r.es)
  {
    if kind & UNRECORDED != 0 then RunOnce(f, s, kind) else s
  }

  function RunSelected(f: Offers, s: Sys, i: nat): (r: Sys)
    requires i < |s.es|
    ensures SameKeys(s.es, r.es)
  {
    var kind := s.es[i].kind;
    var ran := RunFirst(f, s, kind);
    if ran.stuck || kind & RESPAWNED == 0 then ran else Respawn(f, ran, i)
  }

  function RunEntry(f: Offers, s: Sys, i: nat, wanted: bv16): (r: Sys)
    requires i < |s.es|
    ensures SameKeys(s.es, r.es)
  {
    if Selected(s.es[i].kind, wanted) then RunSelected(f, s, i) else s
  }

  function RunFrom(f: Offers, s: Sys, i: nat, wanted: bv16): (r: Sys)
    ensures SameKeys(s.es, r.es)
    decreases |s.es| - i
  {
    if i >= |s.es| || s.stuck then s else RunFrom(f, RunEntry(f, s, i, wanted), i + 1, wanted)
  }

  function RunActions(f: Offers, s: Sys, wanted: bv16): Sys { RunFrom(f, s, 0, wanted) }

  // ----- what can happen -----

  datatype Signal = Hangup(tab: seq<Line>) | Interrupt

  function Handled(f: Offers, s: Sys, signal: Signal): Sys {
    match signal
    case Hangup(tab) => s.(es := Reload(s.es, tab))
    case Interrupt => RunActions(f, s, CTRLALTDEL)
  }

  datatype Event = Got(signal: Signal) | Run(wanted: bv16) | Child(pid: int)

  function Happen(f: Offers, s: Sys, e: Event): Sys {
    if s.stuck then s
    else
      match e
      case Got(signal) => Handled(f, s, signal)
      case Run(wanted) => RunActions(f, s, wanted)
      case Child(pid) => Reaped(s, pid)
  }

  function History(f: Offers, s: Sys, events: seq<Event>): Sys {
    if |events| == 0 then s else Happen(f, History(f, s, events[..|events| - 1]), events[|events| - 1])
  }

  lemma HistoryMore(f: Offers, s: Sys, events: seq<Event>, e: Event)
    ensures History(f, s, events + [e]) == Happen(f, History(f, s, events), e)
  {
    assert (events + [e])[..|events|] == events;
  }

  lemma {:induction false} StuckStays(f: Offers, s: Sys, events: seq<Event>)
    requires s.stuck
    ensures History(f, s, events) == s
  {
    if |events| > 0 {
      StuckStays(f, s, events[..|events| - 1]);
    }
  }

  lemma {:induction false} HistorySplit(f: Offers, s: Sys, a: seq<Event>, b: seq<Event>)
    ensures History(f, s, a + b) == History(f, History(f, s, a), b)
  {
    if |b| == 0 {
      assert a + b == a;
    } else {
      HistorySplit(f, s, a, b[..|b| - 1]);
      assert (a + b)[..|a + b| - 1] == a + b[..|b| - 1];
    }
  }

  // ----- the main loop -----

  /** What comes to init in one turn of the main loop: signals before the respawning,
      after it and after the pause, and what the waits return. */
  datatype Turn = Turn(first: seq<Signal>, second: seq<Signal>, third: seq<Signal>, waits: seq<int>)

  function Signals(signals: seq<Signal>): seq<Event> {
    seq(|signals|, i requires 0 <= i < |signals| => Got(signals[i]))
  }

  /** The waits until the first that returns no child. */
  function Children(waits: seq<int>): seq<Event> {
    if |waits| == 0 || waits[0] <= 0 then [] else [Child(waits[0])] + Children(waits[1..])
  }

  function TurnEvents(t: Turn): seq<Event> {
    Signals(t.first) + [Run(RESPAWNED)] + Signals(t.second) + Signals(t.third) + Children(t.waits)
  }

  function LoopEvents(turns: seq<Turn>): seq<Event> {
    if |turns| == 0 then [] else LoopEvents(turns[..|turns| - 1]) + TurnEvents(turns[|turns| - 1])
  }

  /** What init does before the loop. */
  function BootEvents(first: seq<Signal>, second: seq<Signal>): seq<Event> {
    [Run(SYSINIT)] + Signals(first) + [Run(WAIT)] + Signals(second) + [Run(RESPAWN | STATICACT), Run(ONCE)]
  }

  // ----- supervision -----

  /** An entry with a pid has a live child with it, the one it started last; an entry
      without one started no child that is still there. */
  predicate Tracked(p: Proc, k: Kernel) {
    && p.fork <= k.calls && p.pid >= -1
    && (p.pid < 0 ==> k.failed > 0)
    && (p.pid > 0 ==> p.pid in k.procs && k.procs[p.pid] == p.fork && p.fork > 0)
    && (p.pid <= 0 ==> forall q :: q in k.procs ==> k.procs[q] != p.fork)
  }

  ghost predicate AllTracked(es: seq<Entry>, k: Kernel) {
    forall i :: 0 <= i < |es| ==> Tracked(es[i].proc, k)
  }

  /** No two entries look after the same child. */
  predicate Separate(es: seq<Entry>) {
    forall i, j :: 0 <= i < j < |es| ==> es[i].proc.fork != es[j].proc.fork || es[i].proc.fork == 0
  }

  /** A child has one pid, a positive one, and is the child of a fork. */
  ghost predicate Sound(k: Kernel) {
    && (forall p :: p in k.procs ==> p > 0 && 0 < k.procs[p] <= k.calls)
    && forall p, q :: p in k.procs && q in k.procs && k.procs[p] == k.procs[q] ==> p == q
  }

  ghost predicate Supervised(s: Sys) {
    Sound(s.kernel) && AllTracked(s.es, s.kernel) && Separate(s.es)
  }

  lemma ForkSound(f: Offers, k: Kernel)
    requires Sound(k)
    ensures Sound(Forked(f, k))
  {
  }

  lemma ForkTracks(f: Offers, k: Kernel, p: Proc)
    requires Sound(k) && Tracked(p, k)
    ensures Tracked(p, Forked(f, k))
  {
  }

  lemma ForkSupervised(f: Offers, s: Sys)
    requires Supervised(s)
    ensures Supervised(s.(kernel := Forked(f, s.kernel)))
  {
    ForkSound(f, s.kernel);
    forall i | 0 <= i < |s.es| ensures Tracked(s.es[i].proc, Forked(f, s.kernel)) {
      ForkTracks(f, s.kernel, s.es[i].proc);
    }
  }

  lemma ReapedEntry(s: Sys, pid: int, i: nat)
    requires Supervised(s) && i < |s.es|
    ensures Tracked(Terminated(s.es, pid)[i].proc, s.kernel.(procs := s.kernel.procs - {pid}))
  {
    var n := FindPid(s.es, pid);
    assert Tracked(s.es[i].proc, s.kernel);
    if n < |s.es| {
      assert Tracked(s.es[n].proc, s.kernel);
    }
  }

  lemma ReapSupervised(s: Sys, pid: int)
    requires Supervised(s)
    ensures Supervised(Reaped(s, pid))
  {
    forall i | 0 <= i < |s.es| ensures Tracked(Reaped(s, pid).es[i].proc, Reaped(s, pid).kernel) {
      ReapedEntry(s, pid, i);
    }
  }

  lemma {:induction false} WaitSupervised(s: Sys, pid: int)
    requires Supervised(s)
    ensures Supervised(Waited(s, pid))
    decreases |s.kernel.exits|
  {
    if pid > 0 && pid in s.kernel.procs && |s.kernel.exits| > 0 {
      var next := s.(kernel := s.kernel.(exits := s.kernel.exits[1..]));
      assert AllTracked(next.es, next.kernel) by {
        forall i | 0 <= i < |s.es| ensures Tracked(s.es[i].proc, next.kernel) {
          assert Tracked(s.es[i].proc, s.kernel);
        }
      }
      ReapSupervised(next, s.kernel.exits[0]);
      WaitSupervised(Reaped(next, s.kernel.exits[0]), pid);
    }
  }

  lemma RunOnceSupervised(f: Offers, s: Sys, kind: bv16)
    requires Supervised(s)
    ensures Supervised(RunOnce(f, s, kind))
  {
    ForkSupervised(f, s);
    WaitSupervised(s.(kernel := Forked(f, s.kernel)), Offered(f, s.kernel));
  }

  lemma RespawnSupervised(f: Offers, s: Sys, i: nat)
    requires Supervised(s) && i < |s.es|
    ensures Supervised(Respawn(f, s, i))
  {
    ForkSupervised(f, s);
    assert Tracked(s.es[i].proc, s.kernel);
    if s.es[i].proc.pid == 0 {
      StartedTracked(f, s.es[i], s.kernel);
      StartedSeparate(f, s, i);
    }
  }

  lemma StartedTracked(f: Offers, e: Entry, k: Kernel)
    requires Sound(k) && Tracked(e.proc, k) && e.proc.pid == 0
    ensures Tracked(Started(f, e, k).proc, Forked(f, k))
  {
  }

  lemma StartedSeparate(f: Offers, s: Sys, i: nat)
    requires Supervised(s) && i < |s.es|
    ensures Separate(s.es[i := Started(f, s.es[i], s.kernel)])
  {
    forall j | 0 <= j < |s.es| ensures s.es[j].proc.fork <= s.kernel.calls {
      assert Tracked(s.es[j].proc, s.kernel);
    }
  }

  lemma RunEntrySupervised(f: Offers, s: Sys, i: nat, wanted: bv16)
    requires Supervised(s) && i < |s.es|
    ensures Supervised(RunEntry(f, s, i, wanted))
  {
    var kind := s.es[i].kind;
    RunOnceSupervised(f, s, kind);
    var ran := RunFirst(f, s, kind);
    RespawnSupervised(f, ran, i);
  }

  lemma {:induction false} RunSupervised(f: Offers, s: Sys, i: nat, wanted: bv16)
    requires Supervised(s)
    ensures Supervised(RunFrom(f, s, i, wanted))
    decreases |s.es| - i
  {
    if i < |s.es| && !s.stuck {
      RunEntrySupervised(f, s, i, wanted);
      RunSupervised(f, RunEntry(f, s, i, wanted), i + 1, wanted);
    }
  }

  // ----- across reloads -----

  lemma NewActionSupervised(es: seq<Entry>, l: Line, k: Kernel)
    requires Sound(k) && AllTracked(es, k) && Separate(es)
    ensures AllTracked(NewAction(es, l), k) && Separate(NewAction(es, l))
  {
    var i, r := Find(es, l.Key()), NewAction(es, l);
    forall j | 0 <= j < |r|
      ensures r[j].proc == if j == |r| - 1 then ProcOf(es, l.Key()) else es[if j < i then j else j + 1].proc
    {
    }
    assert Tracked(NoProc, k);
    NewActionSeparate(es, l);
  }

  lemma NewActionSeparate(es: seq<Entry>, l: Line)
    requires Separate(es)
    ensures Separate(NewAction(es, l))
  {
    var i, r := Find(es, l.Key()), NewAction(es, l);
    forall j | 0 <= j < |r| - 1
      ensures r[j].proc.fork != r[|r| - 1].proc.fork || r[j].proc.fork == 0
    {
      assert r[j] == es[if j < i then j else j + 1];
    }
  }

  lemma {:induction false} ParseSupervised(es: seq<Entry>, tab: seq<Line>, k: Kernel)
    requires Sound(k) && AllTracked(es, k) && Separate(es)
    ensures AllTracked(Parse(es, tab), k) && Separate(Parse(es, tab))
  {
    if |tab| > 0 {
      ParseSupervised(es, tab[..|tab| - 1], k);
      NewActionSupervised(Parse(es, tab[..|tab| - 1]), tab[|tab| - 1], k);
    }
  }

  lemma {:induction false} SweepSupervised(es: seq<Entry>, k: Kernel)
    requires AllTracked(es, k) && Separate(es)
    ensures AllTracked(Sweep(es), k) && Separate(Sweep(es))
  {
    if |es| > 0 {
      var before, last := es[..|es| - 1], es[|es| - 1];
      SweepSupervised(before, k);
      forall i | 0 <= i < |Sweep(before)|
        ensures Sweep(before)[i].proc.fork != last.proc.fork || last.proc.fork == 0
      {
        SweepContents(before, Sweep(before)[i]);
        var n :| 0 <= n < |before| && before[n] == Sweep(before)[i];
        assert es[n] == before[n];
      }
    }
  }

  /** A reload keeps every entry with the child it looks after, whatever the lines. */
  lemma ReloadSupervised(es: seq<Entry>, tab: seq<Line>, k: Kernel)
    requires Sound(k) && AllTracked(es, k) && Separate(es)
    ensures AllTracked(Reload(es, tab), k) && Separate(Reload(es, tab))
  {
    var marked := MarkStale(es);
    assert forall i :: 0 <= i < |es| ==> marked[i].proc == es[i].proc;
    ParseSupervised(marked, tab, k);
    SweepSupervised(Parse(marked, tab), k);
  }

  // ----- whole histories -----

  /** What init starts with: entries that nothing was run for, and no children. */
  ghost predicate Initial(s: Sys) {
    (forall i :: 0 <= i < |s.es| ==> s.es[i].proc == NoProc) && s.kernel.procs == map[]
  }

  lemma HappenSupervised(f: Offers, s: Sys, e: Event)
    requires Supervised(s)
    ensures Supervised(Happen(f, s, e))
  {
    match e
    case Got(Hangup(tab)) => ReloadSupervised(s.es, tab, s.kernel);
    case Got(Interrupt) => RunSupervised(f, s, 0, CTRLALTDEL);
    case Run(wanted) => RunSupervised(f, s, 0, wanted);
    case Child(pid) => ReapSupervised(s, pid);
  }

  /** Whatever happens, each entry's pid is that of the child it started last as long
      as that child is not reaped, and no child has two entries. */
  lemma {:induction false} HistorySupervised(f: Offers, s: Sys, events: seq<Event>)
    requires Initial(s)
    ensures Supervised(History(f, s, events))
  {
    if |events| > 0 {
      HistorySupervised(f, s, events[..|events| - 1]);
      HappenSupervised(f, History(f, s, events[..|events| - 1]), events[|events| - 1]);
    }
  }

  /** No two entries ever have the same pid but none and failed. */
  lemma PidsDistinct(f: Offers, s: Sys, events: seq<Event>, i: nat, j: nat)
    requires Initial(s) && i < j < |History(f, s, events).es|
    ensures var es := History(f, s, events).es;
            es[i].proc.pid > 0 ==> es[i].proc.pid != es[j].proc.pid
  {
    HistorySupervised(f, s, events);
    var now := History(f, s, events);
    assert Tracked(now.es[i].proc, now.kernel) && Tracked(now.es[j].proc, now.kernel);
  }

  /** Number n of the forks made a child that is not reaped. */
  predicate Alive(k: Kernel, n: nat) { exists p :: p in k.procs && k.procs[p] == n }

  /** An entry has a pid exactly as long as the child it started last is not reaped. */
  lemma PidIsAlive(s: Sys, i: nat)
    requires Supervised(s) && i < |s.es|
    ensures s.es[i].proc.pid > 0 <==> Alive(s.kernel, s.es[i].proc.fork)
  {
    assert Tracked(s.es[i].proc, s.kernel);
  }

  /** A run from the entry n as far as the entry i: the entries between are through. */
  function RunUpTo(f: Offers, s: Sys, n: nat, i: nat, wanted: bv16): (r: Sys)
    requires i <= |s.es|
    ensures SameKeys(s.es, r.es)
    decreases i - n
  {
    if n >= i || s.stuck then s else RunUpTo(f, RunEntry(f, s, n, wanted), n + 1, i, wanted)
  }

  /** The run goes on from there. */
  lemma {:induction false} RunGoesOn(f: Offers, s: Sys, n: nat, i: nat, wanted: bv16)
    requires n <= i <= |s.es|
    ensures RunFrom(f, s, n, wanted) == RunFrom(f, RunUpTo(f, s, n, i, wanted), i, wanted)
    decreases i - n
  {
    if n < i && !s.stuck {
      RunGoesOn(f, RunEntry(f, s, n, wanted), n + 1, i, wanted);
    }
  }

  lemma {:induction false} UpToSupervised(f: Offers, s: Sys, n: nat, i: nat, wanted: bv16)
    requires Supervised(s) && i <= |s.es|
    ensures Supervised(RunUpTo(f, s, n, i, wanted))
    decreases i - n
  {
    if n < i && !s.stuck {
      RunEntrySupervised(f, s, n, wanted);
      UpToSupervised(f, RunEntry(f, s, n, wanted), n + 1, i, wanted);
    }
  }

  /** The state in which a run comes to the respawn branch of entry i: the entries before
      it are through, with all that was waited for, and so is its own first part. */
  function AtRespawn(f: Offers, s: Sys, i: nat, wanted: bv16): (r: Sys)
    requires i < |s.es|
    ensures SameKeys(s.es, r.es)
  {
    RunFirst(f, RunUpTo(f, s, 0, i, wanted), s.es[i].kind)
  }

  /** In any history, however often init was reloaded in it, a run takes the respawn
      branch of an entry only when the child that the entry started last is reaped; and
      there, too, an entry with a pid has a child that is not. */
  lemma NeverTwice(f: Offers, s: Sys, events: seq<Event>, i: nat, wanted: bv16)
    requires Initial(s) && i < |History(f, s, events).es|
    ensures var now := History(f, s, events);
            var at := AtRespawn(f, now, i, wanted);
            && RunActions(f, now, wanted) == RunFrom(f, RunUpTo(f, now, 0, i, wanted), i, wanted)
            && (Respawn(f, at, i) != at ==> !Alive(at.kernel, at.es[i].proc.fork))
            && (at.es[i].proc.pid > 0 <==> Alive(at.kernel, at.es[i].proc.fork))
  {
    var now := History(f, s, events);
    HistorySupervised(f, s, events);
    RunGoesOn(f, now, 0, i, wanted);
    UpToSupervised(f, now, 0, i, wanted);
    RunOnceSupervised(f, RunUpTo(f, now, 0, i, wanted), now.es[i].kind);
    PidIsAlive(AtRespawn(f, now, i, wanted), i);
  }

  // ----- what respawning achieves -----

  /** Run_actions of the respawn kinds runs no entry of another kind, so nothing is
      waited for. */
  lemma RespawnOnly(f: Offers, s: Sys, i: nat)
    requires i < |s.es| && Pure(s.es[i].kind) && !s.stuck
    ensures RunEntry(f, s, i, RESPAWNED) == if s.es[i].kind & RESPAWNED != 0 then Respawn(f, s, i) else s
  {
    assert STATICACT & RESPAWNED == 0;
  }

  /** From one state to the other, the entries of the respawn kinds without a pid were
      run; each of these has a pid or its fork failed. */
  ghost predicate Respawned(a: Sys, b: Sys, i: nat) {
    && |b.es| == |a.es| && b.stuck == a.stuck
    && b.kernel.failed >= a.kernel.failed && b.kernel.calls >= a.kernel.calls
    && (forall j :: 0 <= j < |a.es| ==> SameBut(a.es[j], b.es[j], j >= i, a.kernel.calls))
    && (b.kernel.failed == a.kernel.failed <==>
        forall j :: 0 <= j < |a.es| && j >= i && Due(a.es[j]) ==> b.es[j].proc.pid > 0)
  }

  predicate Due(e: Entry) { e.kind & RESPAWNED != 0 && e.proc.pid == 0 }

  /** A new child comes from a new fork. */
  predicate SameBut(a: Entry, b: Entry, run: bool, calls: nat) {
    && b.kind == a.kind && b.Key() == a.Key()
    && if run && Due(a) then b.proc.pid != 0 && (b.proc.pid > 0 ==> b.proc.fork > calls) else b == a
  }

  lemma {:induction false} RespawnedFrom(f: Offers, s: Sys, i: nat)
    requires AllPure(s.es) && !s.stuck
    ensures Respawned(s, RunFrom(f, s, i, RESPAWNED), i)
    decreases |s.es| - i
  {
    if i < |s.es| {
      RespawnOnly(f, s, i);
      var next := RunEntry(f, s, i, RESPAWNED);
      assert forall j :: 0 <= j < |s.es| && j != i ==> next.es[j] == s.es[j];
      RespawnedFrom(f, next, i + 1);
      RespawnedFirst(f, s, RunFrom(f, next, i + 1, RESPAWNED), i);
    }
  }

  lemma RespawnedFirst(f: Offers, s: Sys, r: Sys, i: nat)
    requires AllPure(s.es) && !s.stuck && i < |s.es|
    requires Respawned(RunEntry(f, s, i, RESPAWNED), r, i + 1)
    ensures Respawned(s, r, i)
  {
    RespawnOnly(f, s, i);
  }

  /** How many entries from i on are to be started. */
  function DueFrom(es: seq<Entry>, i: nat): nat
    decreases |es| - i
  {
    if i >= |es| then 0 else (if Due(es[i]) then 1 else 0) + DueFrom(es, i + 1)
  }

  /** The next n forks succeed, as the kernel goes along. */
  predicate Willing(f: Offers, k: Kernel, n: nat)
    decreases n
  {
    n == 0 || (Offered(f, k) > 0 && Willing(f, Forked(f, k), n - 1))
  }

  /** What that asks of the coming offers: each is a pid that no child has, and that was
      not offered before. */
  predicate GoodOffers(f: Offers, k: Kernel, n: nat) {
    forall c :: k.calls <= c < k.calls + n ==> GoodOffer(f, k, c)
  }

  predicate GoodOffer(f: Offers, k: Kernel, c: nat) {
    f(c) > 0 && f(c) !in k.procs && forall b :: k.calls <= b < c ==> f(b) != f(c)
  }

  lemma {:induction false} WillingMeans(f: Offers, k: Kernel, n: nat)
    ensures Willing(f, k, n) <==> GoodOffers(f, k, n)
    decreases n
  {
    if n > 0 {
      assert Offered(f, k) > 0 <==> GoodOffer(f, k, k.calls);
      if Offered(f, k) > 0 {
        WillingMeans(f, Forked(f, k), n - 1);
        forall c: nat | k.calls < c ensures GoodOffer(f, Forked(f, k), c) <==> GoodOffer(f, k, c) {
        }
      }
    }
  }

  lemma {:induction false} DueSame(a: seq<Entry>, b: seq<Entry>, i: nat)
    requires |a| == |b| && forall j :: i <= j < |a| ==> a[j] == b[j]
    ensures DueFrom(a, i) == DueFrom(b, i)
    decreases |a| - i
  {
    if i < |a| {
      DueSame(a, b, i + 1);
    }
  }

  /** A respawn run has no failed fork exactly when the kernel is willing as often as
      there are entries to be started. */
  lemma {:induction false} WillingRun(f: Offers, s: Sys, i: nat)
    requires AllPure(s.es) && !s.stuck
    ensures RunFrom(f, s, i, RESPAWNED).kernel.failed == s.kernel.failed <==> Willing(f, s.kernel, DueFrom(s.es, i))
    ensures RunFrom(f, s, i, RESPAWNED).kernel.failed >= s.kernel.failed
    decreases |s.es| - i
  {
    if i < |s.es| {
      WillingStep(f, s, i);
      WillingRun(f, RunEntry(f, s, i, RESPAWNED), i + 1);
    }
  }

  /** One entry: it is started if it is due, and the others are due as before. */
  lemma WillingStep(f: Offers, s: Sys, i: nat)
    requires AllPure(s.es) && !s.stuck && i < |s.es|
    ensures var next := RunEntry(f, s, i, RESPAWNED);
            && AllPure(next.es) && !next.stuck && |next.es| == |s.es|
            && next.kernel == (if Due(s.es[i]) then Forked(f, s.kernel) else s.kernel)
            && DueFrom(s.es, i) == (if Due(s.es[i]) then 1 else 0) + DueFrom(next.es, i + 1)
  {
    RespawnOnly(f, s, i);
    var next := RunEntry(f, s, i, RESPAWNED);
    DueSame(s.es, next.es, i + 1);
  }

  lemma AllRunningUnlessFailed(f: Offers, s: Sys)
    requires AllPure(s.es) && Supervised(s) && !s.stuck
    ensures var r := RunActions(f, s, RESPAWNED);
            (forall i :: 0 <= i < |r.es| && r.es[i].kind & RESPAWNED != 0 ==> r.es[i].proc.pid > 0) <==>
            (r.kernel.failed == s.kernel.failed &&
             forall i :: 0 <= i < |s.es| && s.es[i].kind & RESPAWNED != 0 ==> s.es[i].proc.pid >= 0)
  {
    var r := RunActions(f, s, RESPAWNED);
    RespawnedFrom(f, s, 0);
    RunSupervised(f, s, 0, RESPAWNED);
    forall i | 0 <= i < |s.es|
      ensures SameBut(s.es[i], r.es[i], true, s.kernel.calls) && Tracked(r.es[i].proc, r.kernel)
    {
    }
  }

  /** After run_actions(RESPAWN | ASKFIRST) every entry of these kinds has a child
      running exactly when none had failed to fork before, and the kernel has for each of
      those to be started a pid that is neither unreaped nor given to another. */
  lemma AllRunning(f: Offers, s: Sys)
    requires AllPure(s.es) && Supervised(s) && !s.stuck
    ensures var r := RunActions(f, s, RESPAWNED);
            (forall i :: 0 <= i < |r.es| && r.es[i].kind & RESPAWNED != 0 ==> r.es[i].proc.pid > 0) <==>
            (GoodOffers(f, s.kernel, DueFrom(s.es, 0)) &&
             forall i :: 0 <= i < |s.es| && s.es[i].kind & RESPAWNED != 0 ==> s.es[i].proc.pid >= 0)
  {
    AllRunningUnlessFailed(f, s);
    WillingRun(f, s, 0);
    WillingMeans(f, s.kernel, DueFrom(s.es, 0));
  }

  predicate PureEvents(events: seq<Event>) {
    forall i :: 0 <= i < |events| && events[i].Got? && events[i].signal.Hangup? ==> PureLines(events[i].signal.tab)
  }

  lemma {:induction false} HistoryPure(f: Offers, s: Sys, events: seq<Event>)
    requires AllPure(s.es) && PureEvents(events)
    ensures AllPure(History(f, s, events).es)
  {
    if |events| > 0 {
      var before, e := events[..|events| - 1], events[|events| - 1];
      HistoryPure(f, s, before);
      if e.Got? && e.signal.Hangup? {
        ReloadPure(History(f, s, before).es, e.signal.tab);
      } else {
        assert SameKeys(History(f, s, before).es, History(f, s, events).es);
      }
    }
  }

  /** As long as no fork ever failed, every entry to be respawned has its child after
      every run of these kinds. */
  lemma AlwaysRunning(f: Offers, s: Sys, events: seq<Event>, i: nat)
    requires Initial(s) && AllPure(s.es) && PureEvents(events)
    requires var now := History(f, s, events + [Run(RESPAWNED)]);
             !now.stuck && now.kernel.failed == 0 && i < |now.es| && now.es[i].kind & RESPAWNED != 0
    ensures var now := History(f, s, events + [Run(RESPAWNED)]);
            now.es[i].proc.pid > 0 && Alive(now.kernel, now.es[i].proc.fork)
  {
    var before := History(f, s, events);
    HistoryMore(f, s, events, Run(RESPAWNED));
    HistorySupervised(f, s, events);
    HistoryPure(f, s, events);
    RespawnedFrom(f, before, 0);
    AllRunningUnlessFailed(f, before);
    forall j | 0 <= j < |before.es| ensures before.es[j].proc.pid >= 0 {
      assert Tracked(before.es[j].proc, before.kernel);
    }
    HistorySupervised(f, s, events + [Run(RESPAWNED)]);
    PidIsAlive(History(f, s, events + [Run(RESPAWNED)]), i);
  }

  // ----- a failed fork -----

  /** What is not a reload leaves a failed entry as it is. */
  lemma {:induction false} FailedStays(f: Offers, s: Sys, i: nat, n: nat, wanted: bv16)
    requires i < |s.es| && s.es[i].proc.pid < 0
    ensures RunFrom(f, s, n, wanted).es[i] == s.es[i]
    decreases |s.es| - n
  {
    if n < |s.es| && !s.stuck {
      FailedEntryStays(f, s, i, n, wanted);
      FailedStays(f, RunEntry(f, s, n, wanted), i, n + 1, wanted);
    }
  }

  lemma FailedEntryStays(f: Offers, s: Sys, i: nat, n: nat, wanted: bv16)
    requires i < |s.es| && n < |s.es| && s.es[i].proc.pid < 0
    ensures RunEntry(f, s, n, wanted).es[i] == s.es[i]
  {
    FailedWaits(s.(kernel := Forked(f, s.kernel)), Offered(f, s.kernel), i);
  }

  lemma {:induction false} FailedWaits(s: Sys, pid: int, i: nat)
    requires i < |s.es| && s.es[i].proc.pid < 0
    ensures Waited(s, pid).es[i] == s.es[i]
    decreases |s.kernel.exits|
  {
    if pid > 0 && pid in s.kernel.procs && |s.kernel.exits| > 0 {
      FailedWaits(Reaped(s.(kernel := s.kernel.(exits := s.kernel.exits[1..])), s.kernel.exits[0]), pid, i);
    }
  }

  /** The events that leave a key a process: all but a reload that drops its entry. */
  predicate Keeps(s: Sys, e: Event, k: Key, p: Proc) {
    e.Got? && e.signal.Hangup? && !s.stuck ==> ProcLives(s.es, e.signal.tab, k, p)
  }

  predicate AlwaysKept(f: Offers, s: Sys, events: seq<Event>, k: Key, p: Proc) {
    |events| == 0 ||
    (AlwaysKept(f, s, events[..|events| - 1], k, p) &&
     Keeps(History(f, s, events[..|events| - 1]), events[|events| - 1], k, p))
  }

  /** An entry whose fork failed goes with the reloads that drop it, and with nothing
      else. */
  lemma FailedEvent(f: Offers, s: Sys, e: Event, k: Key, p: Proc)
    requires EntriesFit(s.es) && p.pid < 0 && HasProc(s.es, k, p)
    ensures EntriesFit(Happen(f, s, e).es)
    ensures HasProc(Happen(f, s, e).es, k, p) <==> Keeps(s, e, k, p)
  {
    if e.Got? && e.signal.Hangup? {
      if !s.stuck {
        ReloadFits(s.es, e.signal.tab);
        ReloadProcs(s.es, e.signal.tab, k, p);
      }
    } else {
      var r := Happen(f, s, e);
      assert SameKeys(s.es, r.es);
      FitsSame(s.es, r.es);
      var i :| 0 <= i < |s.es| && s.es[i].Key() == k && s.es[i].proc == p;
      FailedStays(f, s, i, 0, if e.Run? then e.wanted else CTRLALTDEL);
      assert r.es[i] == s.es[i];
    }
  }

  lemma FitsSame(a: seq<Entry>, b: seq<Entry>)
    requires EntriesFit(a) && SameKeys(a, b)
    ensures EntriesFit(b)
  {
    forall i | 0 <= i < |b| ensures |b[i].command| < COMMAND_SIZE && |b[i].terminal| < CONSOLE_NAME_SIZE {
      assert b[i].Key() == a[i].Key();
    }
  }

  /** An entry whose fork failed is not run again, however the system goes on, until a
      reload drops it: its pid stays -1, which is not the 0 that run_actions looks
      for. */
  lemma {:induction false} FailedForever(f: Offers, s: Sys, events: seq<Event>, k: Key, p: Proc)
    requires EntriesFit(s.es) && p.pid < 0 && HasProc(s.es, k, p) && AlwaysKept(f, s, events, k, p)
    ensures EntriesFit(History(f, s, events).es) && HasProc(History(f, s, events).es, k, p)
    ensures Distinct(History(f, s, events).es) ==> ProcOf(History(f, s, events).es, k) == p
  {
    if |events| > 0 {
      FailedForever(f, s, events[..|events| - 1], k, p);
      FailedEvent(f, History(f, s, events[..|events| - 1]), events[|events| - 1], k, p);
    }
    OnlyProc(History(f, s, events).es, k, p);
  }

  lemma OnlyProc(es: seq<Entry>, k: Key, p: Proc)
    requires HasProc(es, k, p)
    ensures Distinct(es) ==> ProcOf(es, k) == p
  {
    var e :| e in es && e.Key() == k && e.proc == p;
    var i :| 0 <= i < |es| && es[i] == e;
    if Distinct(es) {
      ProcAt(es, i);
    }
  }

  /** A kernel that refuses the first fork, and has a new pid for every other. */
  const RefusingOnce: Offers := n => if n == 0 then -1 else n

  /** So much for one refused fork: an entry to be respawned, run for the first time when
      the kernel refuses, is not run again although every later fork would succeed. */
  lemma RefusedOnce(command: string, terminal: string, events: seq<Event>)
    requires |command| < COMMAND_SIZE && |terminal| < CONSOLE_NAME_SIZE
    ensures var s := Sys([Entry(command, terminal, RESPAWN, NoProc)], Kernel(map[], 0, 0, []), false);
            var after := History(RefusingOnce, s, [Run(RESPAWNED)]);
            && Initial(s) && AllPure(s.es)
            && (forall n :: GoodOffers(RefusingOnce, after.kernel, n))
            && after.es == [Entry(command, terminal, RESPAWN, Proc(-1, 0))]
            && (AlwaysKept(RefusingOnce, after, events, (command, terminal), Proc(-1, 0)) ==>
                  HasProc(History(RefusingOnce, s, [Run(RESPAWNED)] + events).es, (command, terminal), Proc(-1, 0)))
  {
    var e := Entry(command, terminal, RESPAWN, NoProc);
    var s := Sys([e], Kernel(map[], 0, 0, []), false);
    var failed := Sys([e.(proc := Proc(-1, 0))], Kernel(map[], 1, 1, []), false);
    FirstRefused(e, s, failed);
    HistoryMore(RefusingOnce, s, [], Run(RESPAWNED));
    assert [] + [Run(RESPAWNED)] == [Run(RESPAWNED)];
    if AlwaysKept(RefusingOnce, failed, events, (command, terminal), Proc(-1, 0)) {
      HistorySplit(RefusingOnce, s, [Run(RESPAWNED)], events);
      assert failed.es[0] in failed.es;
      FailedForever(RefusingOnce, failed, events, (command, terminal), Proc(-1, 0));
    }
  }

  lemma FirstRefused(e: Entry, s: Sys, failed: Sys)
    requires e.kind == RESPAWN && e.proc == NoProc
    requires s == Sys([e], Kernel(map[], 0, 0, []), false)
    requires failed == Sys([e.(proc := Proc(-1, 0))], Kernel(map[], 1, 1, []), false)
    ensures RunActions(RefusingOnce, s, RESPAWNED) == failed
    ensures forall n :: GoodOffers(RefusingOnce, failed.kernel, n)
  {
    RespawnOnly(RefusingOnce, s, 0);
    assert Respawn(RefusingOnce, s, 0) == failed;
    assert RunFrom(RefusingOnce, failed, 1, RESPAWNED) == failed;
  }

  lemma EndsOnly(s: Sys, i: nat)
    requires Supervised(s) && i < |s.es| && s.es[i].proc.pid > 0
    ensures Terminated(s.es, s.es[i].proc.pid) == s.es[i := Ended(s.es[i])]
  {
    var n := FindPid(s.es, s.es[i].proc.pid);
    assert Tracked(s.es[i].proc, s.kernel) && Tracked(s.es[n].proc, s.kernel);
  }

  /** When the child of an entry ends, the next run starts another, unless the fork
      fails. */
  lemma EndedIsRestarted(f: Offers, s: Sys, i: nat)
    requires AllPure(s.es) && Supervised(s) && !s.stuck
    requires i < |s.es| && s.es[i].proc.pid > 0 && s.es[i].kind & RESPAWNED != 0
    ensures var r := RunActions(f, Reaped(s, s.es[i].proc.pid), RESPAWNED);
            r.kernel.failed == s.kernel.failed ==> r.es[i].proc.pid > 0 && r.es[i].proc.fork > s.es[i].proc.fork
    ensures var ended := Reaped(s, s.es[i].proc.pid);
            RunActions(f, ended, RESPAWNED).kernel.failed == s.kernel.failed <==>
            GoodOffers(f, ended.kernel, DueFrom(ended.es, 0))
  {
    var pid := s.es[i].proc.pid;
    var ended := Reaped(s, pid);
    EndsOnly(s, i);
    RespawnedFrom(f, ended, 0);
    WillingRun(f, ended, 0);
    WillingMeans(f, ended.kernel, DueFrom(ended.es, 0));
    assert Tracked(s.es[i].proc, s.kernel);
    assert SameBut(ended.es[i], RunActions(f, ended, RESPAWNED).es[i], true, s.kernel.calls);
  }
}
