/** sinetd's registry of running scripts: a list of processes with their start times. */
module Sinetd {
  import opened Seqs
  import L = ListHead

  const MAX_RUNTIME := 300

  const EEXIST := 17
  const EINVAL := 22

  datatype App = App(pid: int, create: int)

  // ----- the registry as a sequence -----

  predicate PidsDistinct(apps: seq<App>) {
    forall i, j :: 0 <= i < j < |apps| ==> apps[i].pid != apps[j].pid
  }

  /** The first entry with a pid; the length if there is none. */
  function Find(apps: seq<App>, pid: int): (i: nat)
    ensures i <= |apps|
    ensures i < |apps| ==> apps[i].pid == pid
    ensures forall j :: 0 <= j < i ==> apps[j].pid != pid
  {
    if |apps| == 0 || apps[0].pid == pid then 0 else 1 + Find(apps[1..], pid)
  }

  predicate Expired(a: App, now: int) { now - a.create > MAX_RUNTIME }

  /** The entries that are not too old, in their order. */
  function Young(apps: seq<App>, now: int): seq<App> {
    if |apps| == 0 then []
    else
      var rest := Young(apps[..|apps| - 1], now);
      if Expired(apps[|apps| - 1], now) then rest else rest + [apps[|apps| - 1]]
  }

  /** The pids of the others. */
  function Killed(apps: seq<App>, now: int): seq<int> {
    if |apps| == 0 then []
    else Killed(apps[..|apps| - 1], now) + if Expired(apps[|apps| - 1], now) then [apps[|apps| - 1].pid] else []
  }

  // ----- the registry as a map -----

  function Starts(apps: seq<App>): map<int, int> {
    if |apps| == 0 then map[] else Starts(apps[..|apps| - 1])[apps[|apps| - 1].pid := apps[|apps| - 1].create]
  }

  predicate Maps(m: map<int, int>, a: App) { a.pid in m && m[a.pid] == a.create }

  /** The entries are the map's items. */
  lemma {:induction false} StartsMaps(apps: seq<App>, a: App)
    requires PidsDistinct(apps)
    ensures Maps(Starts(apps), a) <==> a in apps
    ensures a.pid in Starts(apps) ==> App(a.pid, Starts(apps)[a.pid]) in apps
  {
    if |apps| > 0 {
      var before, last := apps[..|apps| - 1], apps[|apps| - 1];
      StartsMaps(before, a);
      assert apps == before + [last] && last == apps[|before|];
      assert forall i :: 0 <= i < |before| ==> before[i] == apps[i];
    }
  }

  lemma SameItems(apps: seq<App>, m: map<int, int>)
    requires PidsDistinct(apps) && forall a :: a in apps <==> Maps(m, a)
    ensures Starts(apps) == m
  {
    forall p ensures p in Starts(apps) <==> p in m
      ensures p in m ==> Starts(apps)[p] == m[p]
    {
      StartsMaps(apps, App(p, if p in m then m[p] else 0));
      if p in Starts(apps) {
        assert App(p, Starts(apps)[p]) in apps;
      }
    }
  }

  lemma DistinctParts(apps: seq<App>)
    requires PidsDistinct(apps)
    ensures NoRepeats(apps)
    ensures forall i, j :: 0 <= i < |apps| && 0 <= j < |apps| && apps[i].pid == apps[j].pid ==> i == j
  {
  }

  /** Adding a pid that is not there adds it to the map. */
  lemma CreateRefines(apps: seq<App>, pid: int, now: int)
    requires PidsDistinct(apps) && Find(apps, pid) == |apps|
    ensures PidsDistinct(apps + [App(pid, now)])
    ensures pid !in Starts(apps) && Starts(apps + [App(pid, now)]) == Starts(apps)[pid := now]
  {
    assert (apps + [App(pid, now)])[..|apps|] == apps;
    StartsMaps(apps, App(pid, now));
  }

  /** Taking out the entry of a pid takes the pid out of the map, and nothing else. */
  lemma DeleteRefines(apps: seq<App>, pid: int)
    requires PidsDistinct(apps)
    ensures PidsDistinct(WithoutAt(apps, Find(apps, pid)))
    ensures Starts(WithoutAt(apps, Find(apps, pid))) == Starts(apps) - {pid}
  {
    var i := Find(apps, pid);
    var r := WithoutAt(apps, i);
    forall a ensures a in r <==> Maps(Starts(apps) - {pid}, a) {
      StartsMaps(apps, a);
      DistinctParts(apps);
      if i < |apps| {
        WithoutOne(apps, i);
      }
    }
    SameItems(r, Starts(apps) - {pid});
  }

  lemma {:induction false} YoungHas(apps: seq<App>, now: int, a: App)
    ensures a in Young(apps, now) <==> a in apps && !Expired(a, now)
  {
    if |apps| > 0 {
      YoungHas(apps[..|apps| - 1], now, a);
      assert apps == apps[..|apps| - 1] + [apps[|apps| - 1]];
    }
  }

  lemma {:induction false} YoungDistinct(apps: seq<App>, now: int)
    requires PidsDistinct(apps)
    ensures PidsDistinct(Young(apps, now))
  {
    if |apps| > 0 {
      var before := apps[..|apps| - 1];
      YoungDistinct(before, now);
      forall i | 0 <= i < |Young(before, now)| ensures Young(before, now)[i].pid != apps[|apps| - 1].pid {
        YoungHas(before, now, Young(before, now)[i]);
        var j :| 0 <= j < |before| && before[j] == Young(before, now)[i];
        assert apps[j] == before[j];
      }
    }
  }

  lemma {:induction false} KilledHas(apps: seq<App>, now: int, pid: int)
    ensures pid in Killed(apps, now) <==> exists i :: 0 <= i < |apps| && apps[i].pid == pid && Expired(apps[i], now)
  {
    if |apps| > 0 {
      var before := apps[..|apps| - 1];
      KilledHas(before, now, pid);
      if i :| 0 <= i < |apps| && apps[i].pid == pid && Expired(apps[i], now) {
        assert i < |before| ==> before[i] == apps[i];
      }
      if i :| 0 <= i < |before| && before[i].pid == pid && Expired(before[i], now) {
        assert apps[i] == before[i];
      }
    }
  }

  /** The timeout leaves exactly the pids whose start is recent enough. */
  lemma TimeoutRefines(apps: seq<App>, now: int)
    requires PidsDistinct(apps)
    ensures PidsDistinct(Young(apps, now))
    ensures Starts(Young(apps, now)) ==
            map p | p in Starts(apps) && now - Starts(apps)[p] <= 300 :: Starts(apps)[p]
  {
    var m := map p | p in Starts(apps) && now - Starts(apps)[p] <= 300 :: Starts(apps)[p];
    YoungDistinct(apps, now);
    forall a ensures a in Young(apps, now) <==> Maps(m, a) {
      YoungHas(apps, now, a);
      StartsMaps(apps, a);
    }
    SameItems(Young(apps, now), m);
  }

  /** And it kills exactly the others. */
  lemma KilledExpired(apps: seq<App>, now: int, pid: int)
    requires PidsDistinct(apps)
    ensures pid in Killed(apps, now) <==> pid in Starts(apps) && pid !in Starts(Young(apps, now))
  {
    KilledHas(apps, now, pid);
    TimeoutRefines(apps, now);
    if pid in Killed(apps, now) {
      var i :| 0 <= i < |apps| && apps[i].pid == pid && Expired(apps[i], now);
      StartsMaps(apps, apps[i]);
    }
    if pid in Starts(apps) {
      StartsMaps(apps, App(pid, Starts(apps)[pid]));
      var i :| 0 <= i < |apps| && apps[i] == App(pid, Starts(apps)[pid]);
    }
  }

  /** What the waits return before they return no process. */
  function Ended(pids: seq<int>): set<int> {
    if |pids| == 0 || pids[0] <= 0 then {} else {pids[0]} + Ended(pids[1..])
  }

  /** These are all those before the first that is none. */
  lemma {:induction false} EndedMeans(pids: seq<int>, p: int)
    ensures p in Ended(pids) <==> exists i :: 0 <= i < |pids| && pids[i] == p && forall j :: 0 <= j <= i ==> pids[j] > 0
  {
    if |pids| > 0 && pids[0] > 0 {
      EndedMeans(pids[1..], p);
      if i :| 0 <= i < |pids| && pids[i] == p && forall j :: 0 <= j <= i ==> pids[j] > 0 {
        assert i > 0 ==> pids[1..][i - 1] == p && forall j :: 0 <= j <= i - 1 ==> pids[1..][j] == pids[j + 1];
      }
      if i :| 0 <= i < |pids[1..]| && pids[1..][i] == p && forall j :: 0 <= j <= i ==> pids[1..][j] > 0 {
        assert pids[i + 1] == p && forall j :: 0 < j <= i + 1 ==> pids[j] == pids[1..][j - 1];
      }
    }
  }

  // ----- the registry in memory -----

  lemma ContentsWithout(s: seq<L.Node<App>>, i: nat)
    requires i < |s| && PidsDistinct(L.Entries(s))
    ensures L.Entries(WithoutAt(s, i)) == WithoutAt(L.Entries(s), i)
    ensures PidsDistinct(L.Entries(WithoutAt(s, i)))
  {
    var r := L.Entries(WithoutAt(s, i));
    assert r == WithoutAt(L.Entries(s), i);
    assert forall j :: 0 <= j < |r| ==> r[j] == L.Entries(s)[if j < i then j else j + 1];
  }

  /** Where a timeout stands: what is left of the list, how many of that are looked at,
      and who was killed. */
  datatype Progress = Progress(left: seq<App>, i: nat, killed: seq<int>) {
    function Next(now: int): Progress {
      if i >= |left| then this
      else if Expired(left[i], now) then Progress(WithoutAt(left, i), i, killed + [left[i].pid])
      else Progress(left, i + 1, killed)
    }
  }

  function StateAfter(apps: seq<App>, k: nat, now: int): Progress {
    if k == 0 then Progress(apps, 0, []) else StateAfter(apps, k - 1, now).Next(now)
  }

  function Closed(apps: seq<App>, k: nat, now: int): Progress
    requires k <= |apps|
  {
    Progress(Young(apps[..k], now) + apps[k..], |Young(apps[..k], now)|, Killed(apps[..k], now))
  }

  lemma ClosedNext(apps: seq<App>, k: nat, now: int)
    requires k < |apps|
    ensures Closed(apps, k, now).Next(now) == Closed(apps, k + 1, now)
  {
    var young, killed, rest := Young(apps[..k], now), Killed(apps[..k], now), apps[k + 1..];
    assert apps[..k + 1][..k] == apps[..k];
    assert apps[k..] == [apps[k]] + rest;
    TakeOne(young, apps[k], rest);
  }

  lemma TakeOne(young: seq<App>, a: App, rest: seq<App>)
    ensures (young + ([a] + rest))[|young|] == a
    ensures WithoutAt(young + ([a] + rest), |young|) == young + rest
    ensures young + ([a] + rest) == young + [a] + rest
  {
  }

  /** After k entries the young among them are left, and the others were killed. */
  lemma {:induction false} StateAfterIs(apps: seq<App>, k: nat, now: int)
    requires k <= |apps|
    ensures StateAfter(apps, k, now) == Closed(apps, k, now)
  {
    if k > 0 {
      StateAfterIs(apps, k - 1, now);
      ClosedNext(apps, k - 1, now);
    }
  }

  lemma Going(apps: seq<App>, k: nat, now: int)
    requires k <= |apps|
    ensures StateAfter(apps, k, now).i < |StateAfter(apps, k, now).left| <==> k < |apps|
  {
    StateAfterIs(apps, k, now);
  }

  lemma AfterAll(apps: seq<App>, now: int)
    ensures StateAfter(apps, |apps|, now).left == Young(apps, now)
    ensures StateAfter(apps, |apps|, now).killed == Killed(apps, now)
  {
    StateAfterIs(apps, |apps|, now);
    assert apps[..|apps|] == apps;
  }

  class Registry {
    const head: L.Node<App>
    var count: int
    ghost var apps: seq<L.Node<App>>
    ghost var own: set<L.Node<App>>

    ghost predicate Valid()
      reads this`count, this`apps, this`own, own`next, own`prev
    {
      L.Ring(head, apps, own) && count == |apps| && PidsDistinct(L.Entries(apps))
    }

    constructor ()
      ensures Valid() && apps == []
    {
      var h := new L.Node<App>(App(0, 0));
      head, count, apps, own := h, 0, [], {h};
    }

    /** The node after the place before entry i: that entry, or the head. */
    method Peek(n: L.Node<App>, ghost i: nat) returns (next: L.Node<App>)
      requires Valid() && i <= |apps| && n == L.Point(head, apps, head, i)
      ensures next == L.Point(head, apps, head, i + 1)
      ensures next == head <==> i == |apps|
    {
      L.RingAt(head, apps, own, i);
      L.RingFrame(head, apps, own);
      next := n.next;
    }

    /** Stops at the first entry with the pid. */
    method FindApp(pid: int) returns (found: L.Node?<App>, ghost i: nat)
      requires Valid()
      ensures i == Find(L.Entries(apps), pid) <= |apps|
      ensures found == if Find(L.Entries(apps), pid) < |apps| then apps[Find(L.Entries(apps), pid)] else null
    {
      i := 0;
      var n := Peek(head, 0);
      while n != head
        invariant i <= |apps| && n == L.Point(head, apps, head, i + 1) && (n == head <==> i == |apps|)
        invariant forall j :: 0 <= j < i ==> L.Entries(apps)[j].pid != pid
        decreases |apps| - i
      {
        if n.entry.pid == pid {
          assert L.Entries(apps)[i].pid == pid;
          return n, i;
        }
        i := i + 1;
        n := Peek(n, i);
      }
      found := null;
    }

    method Insert(a: App)
      requires Valid() && PidsDistinct(L.Entries(apps) + [a])
      modifies this`count, this`apps, this`own, own`next, own`prev
      ensures Valid() && L.Entries(apps) == L.Entries(old(apps)) + [a] && fresh(own - old(own))
    {
      L.RingFrame(head, apps, own);
      L.RingAt(head, apps, own, |apps|);
      var n := new L.Node<App>(a);
      L.OwnAny(head, apps, own, own + {n});
      L.ListAddTail(n, head, apps, own + {n});
      apps, own := apps + [n], own + {n};
      count := count + 1;
      assert L.Entries(apps) == L.Entries(old(apps)) + [a];
    }

    /** Registers a process that is not registered yet, if there is memory. */
    method Create(pid: int, now: int, memory: bool) returns (err: int)
      requires Valid()
      modifies this`count, this`apps, this`own, own`next, own`prev
      ensures Valid() && fresh(own - old(own))
      ensures err == if pid in Starts(L.Entries(old(apps))) then -17 else if !memory then -22 else 0
      ensures L.Entries(apps) == L.Entries(old(apps)) + if err == 0 then [App(pid, now)] else []
      ensures Starts(L.Entries(apps)) == if err == 0 then Starts(L.Entries(old(apps)))[pid := now]
                                         else Starts(L.Entries(old(apps)))
    {
      var found, i := FindApp(pid);
      if found != null {
        StartsMaps(L.Entries(apps), L.Entries(apps)[i]);
        return -EEXIST;
      }
      CreateRefines(L.Entries(apps), pid, now);
      if !memory {
        return -EINVAL;
      }
      Insert(App(pid, now));
      return 0;
    }

    method Remove(n: L.Node<App>, ghost i: nat)
      requires Valid() && i < |apps| && n == apps[i]
      modifies this`count, this`apps, own`next, own`prev
      ensures Valid() && apps == WithoutAt(old(apps), i)
    {
      L.RingAt(head, apps, own, i);
      L.RingAt(head, apps, own, i + 1);
      count := count - 1;
      L.ListDel(n, head, apps, i, own);
      ContentsWithout(apps, i);
      apps := WithoutAt(apps, i);
    }

    /** Takes out the one entry of a process that has ended. */
    method Delete(pid: int)
      requires Valid()
      modifies this`count, this`apps, own`next, own`prev
      ensures Valid()
      ensures L.Entries(apps) == WithoutAt(L.Entries(old(apps)), Find(L.Entries(old(apps)), pid))
      ensures Starts(L.Entries(apps)) == Starts(L.Entries(old(apps))) - {pid}
    {
      DeleteRefines(L.Entries(apps), pid);
      var n, i := FindApp(pid);
      if n != null {
        ContentsWithout(apps, i);
        Remove(n, i);
      }
    }

    /** Checks one entry, which may go. */
    method Check(n: L.Node<App>, now: int, ghost i: nat) returns (next: L.Node<App>, expired: bool)
      requires Valid() && i < |apps| && n == apps[i]
      modifies this`count, this`apps, own`next, own`prev
      ensures Valid() && expired == Expired(n.entry, now)
      ensures apps == if expired then WithoutAt(old(apps), i) else old(apps)
      ensures L.Entries(apps) == if expired then WithoutAt(L.Entries(old(apps)), i) else L.Entries(old(apps))
      ensures var j := if expired then i else i + 1;
              j <= |apps| && next == L.Point(head, apps, head, j + 1) && (next == head <==> j == |apps|)
    {
      ContentsWithout(apps, i);
      next := Peek(n, i + 1);
      expired := now - n.entry.create > MAX_RUNTIME;
      if expired {
        L.WithoutPoint(head, apps, i, i + 1);
        Remove(n, i);
      }
    }

    /** The walk has come to n, k entries of the list having been looked at. */
    ghost predicate Reached(n: L.Node<App>, cs: seq<App>, k: nat, i: nat, killed: seq<int>, now: int)
      reads this`apps
    {
      && i <= |apps| && n == L.Point(head, apps, head, i + 1) && (n == head <==> i == |apps|)
      && k <= |cs| && Progress(L.Entries(apps), i, killed) == StateAfter(cs, k, now)
    }

    method CheckOne(n: L.Node<App>, now: int, killed: seq<int>, ghost cs: seq<App>, ghost k: nat, ghost i: nat)
      returns (next: L.Node<App>, more: seq<int>, ghost j: nat)
      requires Valid() && n != head && Reached(n, cs, k, i, killed, now)
      modifies this`count, this`apps, own`next, own`prev
      ensures Valid() && k < |cs| && Reached(next, cs, k + 1, j, more, now)
    {
      Going(cs, k, now);
      var pid := n.entry.pid;
      var expired;
      next, expired := Check(n, now, i);
      more := if expired then killed + [pid] else killed;
      j := if expired then i else i + 1;
    }

    /** Kills and takes out what has run too long, while going through the list. */
    method Timeout(now: int) returns (killed: seq<int>)
      requires Valid()
      modifies this`count, this`apps, own`next, own`prev
      ensures Valid() && L.Entries(apps) == Young(L.Entries(old(apps)), now)
      ensures killed == Killed(L.Entries(old(apps)), now)
    {
      ghost var cs, k, i := L.Entries(apps), 0, 0;
      killed := [];
      var n := Peek(head, 0);
      while n != head
        invariant Valid() && Reached(n, cs, k, i, killed, now)
        decreases |cs| - k
      {
        n, killed, i := CheckOne(n, now, killed, cs, k, i);
        k := k + 1;
      }
      Going(cs, k, now);
      AfterAll(cs, now);
    }

    /** Takes out all the processes that have ended. */
    method Wait(pids: seq<int>)
      requires Valid()
      modifies this`count, this`apps, own`next, own`prev
      ensures Valid()
      ensures Starts(L.Entries(apps)) == Starts(L.Entries(old(apps))) - Ended(pids)
      ensures forall i :: 0 <= i < |pids| && (forall j :: 0 <= j <= i ==> pids[j] > 0) ==>
                            pids[i] !in Starts(L.Entries(apps))
    {
      forall i | 0 <= i < |pids| && forall j :: 0 <= j <= i ==> pids[j] > 0 ensures pids[i] in Ended(pids) {
        EndedMeans(pids, pids[i]);
      }
      var i := 0;
      ghost var m := Starts(L.Entries(apps));
      while i < |pids| && pids[i] > 0
        invariant i <= |pids| && Valid()
        invariant Starts(L.Entries(apps)) - Ended(pids[i..]) == m - Ended(pids)
        decreases |pids| - i
      {
        assert pids[i..][1..] == pids[i + 1..];
        Delete(pids[i]);
        i := i + 1;
      }
    }
  }
}
