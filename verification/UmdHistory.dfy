/** What a log by itself says about a user: definitions that never look at the
    user manager's transitions, only at the entries they left behind. */
module UmdHistory {
  import opened UmdModel

  /** A MAC's life as its events tell it; Broken once an event came that could
      not happen in the state before it. */
  datatype Life = Gone | Live(state: State) | Broken

  function From(l: Life, before: State, after: State): Life {
    if l == Live(before) then Live(after) else Broken
  }

  predicate Leaving(e: Entry, s: State)
    requires e.Event?
  {
    e.snap.state == s && e.snap.reason != NoReason
  }

  /** The effect of one entry. An event that enters a state shows the script the
      state entered; one that leaves a state shows the state left and why. */
  function Step(l: Life, e: Entry): Life {
    match e
    case Charge(_, _, _) =>
      if l == Live(Bind) || l == Live(Fake) || l == Live(Auth) then l else Broken
    case Event(Created, snap) => if l == Gone && snap.state == None then Live(None) else Broken
    case Event(Deleted, snap) => if l == Live(snap.state) then Gone else Broken
    case Event(Bound, snap) => if snap.state == Bind then From(l, None, Bind) else Broken
    case Event(Faked, snap) => if snap.state == Fake then From(l, None, Fake) else Broken
    case Event(Authed, snap) =>
      if snap.state != Auth || snap.reason != NoReason then Broken
      else if l == Live(Bind) || l == Live(Fake) || l == Live(Auth) then Live(Auth)
      else Broken
    case Event(Reauthed, snap) => if snap.state == Auth then From(l, Auth, Auth) else Broken
    case Event(Deauthed, snap) => if Leaving(e, Auth) then From(l, Auth, Bind) else Broken
    case Event(Unfaked, snap) => if Leaving(e, Fake) then From(l, Fake, Bind) else Broken
    case Event(Unbound, snap) => if Leaving(e, Bind) then From(l, Bind, None) else Broken
    case Event(Blocked, snap) => if Leaving(e, None) then From(l, None, Block) else Broken
    case Event(Unblocked, snap) => if snap.state == None then From(l, Block, None) else Broken
  }

  function Replay(log: seq<Entry>): Life {
    if |log| == 0 then Gone else Step(Replay(log[..|log| - 1]), log[|log| - 1])
  }

  /** The events after which the counters of a type start again from zero. */
  predicate Resets(act: Action, t: FlowType) {
    act == Created || act == Bound || act == Faked || (t == Wan && act == Authed)
  }

  function ChargeFor(e: Entry, t: FlowType, d: Dir): nat
    requires e.Charge?
  {
    if (t == Lan || e.flow == Wan) && (d == All || d == e.dir) then e.len else 0
  }

  /** The bytes charged to a counter since it was last reset. */
  function Bytes(log: seq<Entry>, t: FlowType, d: Dir): nat {
    if |log| == 0 then 0
    else
      var before, e := log[..|log| - 1], log[|log| - 1];
      match e
      case Charge(_, _, _) => Bytes(before, t, d) + ChargeFor(e, t, d)
      case Event(act, _) => if Resets(act, t) then 0 else Bytes(before, t, d)
  }

  /** The address shown by the last bind or fake event. */
  function LastAddress(log: seq<Entry>): Ip {
    if |log| == 0 then 0
    else
      var e := log[|log| - 1];
      if e.Event? && (e.action == Bound || e.action == Faked) then e.snap.ip
      else LastAddress(log[..|log| - 1])
  }

  predicate OnlyUpOrDown(log: seq<Entry>) {
    forall i :: 0 <= i < |log| && log[i].Charge? ==> log[i].dir != All
  }

  /** One entry more, for all three readings of a log. */
  lemma OneMore(log: seq<Entry>, e: Entry)
    ensures Replay(log + [e]) == Step(Replay(log), e)
    ensures forall t, d :: Bytes(log + [e], t, d) ==
                           if e.Charge? then Bytes(log, t, d) + ChargeFor(e, t, d)
                           else if Resets(e.action, t) then 0 else Bytes(log, t, d)
    ensures LastAddress(log + [e]) ==
            if e.Event? && (e.action == Bound || e.action == Faked) then e.snap.ip else LastAddress(log)
    ensures OnlyUpOrDown(log + [e]) <==> OnlyUpOrDown(log) && (e.Charge? ==> e.dir != All)
  {
    var more := log + [e];
    assert more[..|more| - 1] == log && more[|more| - 1] == e;
    assert OnlyUpOrDown(more) ==> OnlyUpOrDown(log) by {
      if OnlyUpOrDown(more) {
        forall i | 0 <= i < |log| && log[i].Charge? ensures log[i].dir != All {
          assert more[i] == log[i];
        }
      }
    }
  }

  /** Both directions together are what `All` counts. */
  lemma {:induction false} BytesSplit(log: seq<Entry>, t: FlowType)
    requires OnlyUpOrDown(log)
    ensures Bytes(log, t, All) == Bytes(log, t, Up) + Bytes(log, t, Down)
  {
    if |log| > 0 {
      BytesSplit(log[..|log| - 1], t);
    }
  }

  /** WAN bytes are LAN bytes too. */
  lemma {:induction false} WanWithinLan(log: seq<Entry>, d: Dir)
    ensures Bytes(log, Wan, d) <= Bytes(log, Lan, d)
  {
    if |log| > 0 {
      WanWithinLan(log[..|log| - 1], d);
    }
  }
}
