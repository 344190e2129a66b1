/** What every command, packet and timer visit does to a user, as a table: what shows of the
    user afterwards, and what the event script and the accounting are told on the way. The
    table does not look at the transitions of UmdModel; the commands are shown here to keep to it. */
module UmdManual {
  import opened UmdModel
  import opened UmdSafety

  // ----- what shows -----

  datatype Face = Nobody | Face(state: State, ip: Ip, group: int)

  const Free := Face(None, 0, 0)

  function FaceOf(u: User): Face { Face(u.state, u.ip, u.group) }

  function Shown(r: Record): Face {
    if r.slot.Present? then FaceOf(r.slot.user) else Nobody
  }

  /** What the script is told of an event: which, of whom, and why, if it leaves a state. */
  datatype Told = Told(action: Action, face: Face, why: Reason) | Counted(flow: FlowType, dir: Dir, len: nat)

  function ToldOf(e: Entry): Told {
    match e
    case Charge(t, d, len) => Counted(t, d, len)
    case Event(action, snap) =>
      Told(action, FaceOf(snap),
           if action == Deauthed || action == Unfaked || action == Unbound || action == Blocked then snap.reason
           else NoReason)
  }

  function Tale(log: seq<Entry>): (r: seq<Told>)
    ensures |r| == |log|
  {
    seq(|log|, i requires 0 <= i < |log| => ToldOf(log[i]))
  }

  lemma TaleMore(log: seq<Entry>, e: Entry)
    ensures Tale(log + [e]) == Tale(log) + [ToldOf(e)]
  {
  }

  // ----- the table of the commands -----

  datatype Outcome = Outcome(face: Face, told: seq<Told>) {
    function After(before: seq<Told>): Outcome { Outcome(face, before + told) }
  }

  function Says(action: Action, face: Face): Told { Told(action, face, NoReason) }

  /** On the way from a binding to none. */
  function WayOut(f: Face, why: Reason): seq<Told> {
    if f.Nobody? then []
    else
      match f.state
      case Auth => [Told(Deauthed, f, why), Told(Unbound, Face(Bind, f.ip, 0), why)]
      case Fake => [Told(Unfaked, f, why), Told(Unbound, Face(Bind, f.ip, 0), why)]
      case Bind => [Told(Unbound, f, why)]
      case _ => []
  }

  predicate HasBinding(f: Face) { f.Face? && (f.state == Bind || f.state == Fake || f.state == Auth) }

  /** A bind or a fake: nothing for a blocked user and for the address already held. */
  function Entering(f: Face, state: State, action: Action, ip: Ip): Outcome
    requires f.Face?
  {
    if f.state == Block || (HasBinding(f) && f.ip == ip) then Outcome(f, [])
    else Outcome(Face(state, ip, 0), WayOut(f, Auto) + [Says(action, Face(state, ip, 0))])
  }

  function Authorising(f: Face, group: int, answer: Answer): Outcome
    requires f.Face?
  {
    if f.state == Block || (f.state == None && answer.NotFound?) then Outcome(f, [])
    else if f.state == None then
      Outcome(Face(Auth, answer.ip, group),
              [Says(Bound, Face(Bind, answer.ip, 0)), Says(Authed, Face(Auth, answer.ip, group))])
    else Outcome(Face(Auth, f.ip, group), [Says(Authed, Face(Auth, f.ip, group))])
  }

  /** The commands that make the user if there is none. */
  predicate Making(op: Op) { op.OpCreate? || op.OpBlock? || op.OpBind? || op.OpFake? || op.OpAuth? }

  function Made(f: Face, op: Op): Outcome
    requires f.Face? && Making(op)
  {
    match op
    case OpCreate(_) => Outcome(f, [])
    case OpBlock(_) =>
      if f.state == Block then Outcome(f, [])
      else Outcome(Face(Block, 0, 0), WayOut(f, Blocking) + [Told(Blocked, Free, Blocking)])
    case OpBind(ip, _) => Entering(f, Bind, Bound, ip)
    case OpFake(ip, _) => Entering(f, Fake, Faked, ip)
    case OpAuth(group, _, _, answer, _) => Authorising(f, group, answer)
  }

  /** The others, for a user that is there. */
  function Ordered(f: Face, op: Op): Outcome
    requires f.Face?
  {
    match op
    case OpDelete => Outcome(Nobody, [Says(Deleted, f)])
    case OpUnblock => if f.state == Block then Outcome(Free, [Says(Unblocked, Free)]) else Outcome(f, [])
    case OpUnbind(_) => if HasBinding(f) then Outcome(Free, WayOut(f, Initiative)) else Outcome(f, [])
    case OpUnfake(_) =>
      if f.state == Fake then Outcome(Face(Bind, f.ip, 0), [Told(Unfaked, f, Initiative)]) else Outcome(f, [])
    case OpDeauth(why, _) =>
      if f.state == Auth && why != NoReason then Outcome(Face(Bind, f.ip, 0), [Told(Deauthed, f, why)])
      else Outcome(f, [])
    case OpReauth => if f.state == Auth then Outcome(f, [Says(Reauthed, f)]) else Outcome(f, [])
    case OpGc => if f.state == None then Outcome(Nobody, [Says(Deleted, f)]) else Outcome(f, [])
    case _ => Outcome(f, [])
  }

  function Commanded(f: Face, op: Op): Outcome {
    if Making(op) then
      if f.Nobody? then Made(Free, op).After([Says(Created, Free)]) else Made(f, op)
    else if f.Nobody? then Outcome(Nobody, [])
    else Ordered(f, op)
  }

  // ----- packets -----

  predicate Full(q: Quota, len: nat) { q.max != 0 && q.max < q.now + len }

  predicate FullFor(l: Limit, d: Dir, len: nat) { Full(l.Flow(d), len) || Full(l.all, len) }

  /** The packet takes the count over the threshold for warnings, of which 0 is none. */
  predicate Nears(q: Quota, len: nat) {
    0 < Reauthor(q.max, q.numerator, q.denominator, 0x1_0000_0000_0000_0000) < q.now + len
  }

  predicate Near(l: Limit, d: Dir, len: nat) { Nears(l.Flow(d), len) || Nears(l.all, len) }

  /** A packet for a user with a binding: it is counted; it warns an authorised user that it
      brings near a WAN maximum; over a LAN maximum it ends the binding, and over a WAN
      maximum the authorisation. */
  function Carried(cfg: Config, u: User, t: FlowType, d: PacketDir, len: nat): Outcome {
    var f, paid := FaceOf(u), t == Wan && u.state == Auth;
    var told := [Counted(t, d, len)] +
                if cfg.reauthable && paid && Near(u.wan, d, len) then [Says(Reauthed, f)] else [];
    if FullFor(u.lan, d, len) then Outcome(Free, told + WayOut(f, FlowLimit))
    else if paid && FullFor(u.wan, d, len) then Outcome(Face(Bind, f.ip, 0), told + [Told(Deauthed, f, FlowLimit)])
    else Outcome(f, told)
  }

  function Delivered(cfg: Config, r: Record, t: FlowType, d: PacketDir, len: nat, ip: Ip): Outcome {
    if r.slot.Present? then
      if HasBinding(Shown(r)) then Carried(cfg, r.slot.user, t, d, len) else Outcome(Shown(r), [])
    else if !cfg.autouser then Outcome(Nobody, [])
    else
      var f := Face(if cfg.fakeable then Fake else Bind, ip, 0);
      Outcome(f, [Says(Created, Free), Says(if cfg.fakeable then Faked else Bound, f), Counted(t, d, len)])
  }

  // ----- the timer -----

  predicate Past(limit: nat, since: Time, now: Time) { limit != 0 && now - since > limit }

  predicate Idle(o: Online, ticks: nat) { o.idle != 0 && o.aging <= ticks }

  /** The time of a fake or of an authorisation is up. */
  predicate Over(cfg: Config, u: User, now: Time) {
    (u.state == Fake && Past(cfg.fake, u.faketime, now)) ||
    (u.state == Auth && (Past(u.wan.online.max, u.wan.online.uptime, now) ||
                         Past(u.lan.online.max, u.lan.online.uptime, now)))
  }

  predicate Warned(cfg: Config, u: User, now: Time) {
    cfg.reauthable && u.state == Auth && (Late(u.wan.online, now) || Late(u.lan.online, now))
  }

  /** The online time is over its threshold for warnings. */
  predicate Late(o: Online, now: Time) {
    Past(Reauthor(o.max, o.numerator, o.denominator, 0x1_0000_0000), o.uptime, now)
  }

  predicate Idles(cfg: Config, u: User) {
    u.HaveBind() && (Idle(u.wan.online, cfg.ticks) || Idle(u.lan.online, cfg.ticks))
  }

  /** The first half of a visit: the warning, and the end of a fake or an authorisation. */
  function TimedOut(cfg: Config, u: User, now: Time): Outcome {
    var f := FaceOf(u);
    var told := if Warned(cfg, u, now) then [Says(Reauthed, f)] else [];
    if Over(cfg, u, now)
    then Outcome(Face(Bind, f.ip, 0), told + [Told(if u.state == Fake then Unfaked else Deauthed, f, OnlineTime)])
    else Outcome(f, told)
  }

  /** A visit before the collector: after that the end of the binding, if it is idle. */
  function Visited(cfg: Config, u: User, now: Time): Outcome {
    var v := TimedOut(cfg, u, now);
    if Idles(cfg, u) then Outcome(Free, v.told + WayOut(v.face, Aging)) else v
  }

  /** Since when a user will have been unused after a visit. */
  function UnusedSince(cfg: Config, u: User, clock: Time): Time {
    if Idles(cfg, u) then clock else u.noused
  }

  function Ticked(cfg: Config, u: User, now: Time, clock: Time): Outcome {
    var v := Visited(cfg, u, now);
    if v.face.Face? && v.face.state == None && Past(cfg.gcuser, UnusedSince(cfg, u, clock), now)
    then Outcome(Nobody, v.told + [Says(Deleted, Free)]) else v
  }

  // ----- the whole table -----

  function Manual(cfg: Config, r: Record, op: Op): Outcome {
    match op
    case OpPacket(t, d, len, ip, _) => Delivered(cfg, r, t, d, len, ip)
    case OpTick(now, clock) => if r.slot.Present? then Ticked(cfg, r.slot.user, now, clock) else Outcome(Nobody, [])
    case _ => Commanded(Shown(r), op)
  }

  /** This is how a record came about from another. */
  predicate Keeps(before: Record, o: Outcome, after: Record) {
    Shown(after) == o.face && Tale(after.log) == Tale(before.log) + o.told
  }

  predicate KeepsAccount(a: Account, o: Outcome, b: Account) { Keeps(Held(a), o, Held(b)) }

  // ----- commands keep to the table -----

  lemma Chain(a: Account, p: Outcome, b: Account, q: Outcome, c: Account)
    requires KeepsAccount(a, p, b) && KeepsAccount(b, q, c)
    ensures KeepsAccount(a, q.After(p.told), c)
  {
    assert Tale(a.log) + p.told + q.told == Tale(a.log) + (p.told + q.told);
  }

  /** Leaving one state for the next. */
  function OneLeft(f: Face, state: State, next: Face, action: Action, why: Reason): Outcome {
    if f.Face? && f.state == state then Outcome(next, [Told(action, f, why)]) else Outcome(f, [])
  }

  lemma DeauthKeeps(a: Account, why: Reason, clock: Time)
    requires Core(a)
    ensures var o := OneLeft(FaceOf(a.user), Auth, Face(Bind, a.user.ip, 0), Deauthed, why);
            KeepsAccount(a, o, DoDeauth(a, why, clock))
  {
    TaleMore(a.log, Event(Deauthed, a.user.(reason := why)));
  }

  lemma UnfakeKeeps(a: Account, why: Reason, clock: Time)
    requires Core(a)
    ensures var o := OneLeft(FaceOf(a.user), Fake, Face(Bind, a.user.ip, 0), Unfaked, why);
            KeepsAccount(a, o, DoUnfake(a, why, clock))
  {
    TaleMore(a.log, Event(Unfaked, a.user.(reason := why)));
  }

  lemma LeaveBindKeeps(a: Account, why: Reason, clock: Time)
    requires Core(a)
    ensures KeepsAccount(a, OneLeft(FaceOf(a.user), Bind, Free, Unbound, why), LeaveBind(a, why, clock))
  {
    TaleMore(a.log, Event(Unbound, a.user.(reason := why)));
  }

  function Unbinding(f: Face, why: Reason): Outcome { Outcome(if HasBinding(f) then Free else f, WayOut(f, why)) }

  lemma UnbindKeeps(a: Account, why: Reason, clock: Time)
    requires Core(a) && why != NoReason
    ensures KeepsAccount(a, Unbinding(FaceOf(a.user), why), DoUnbind(a, why, clock))
  {
    DeauthKeeps(a, why, clock);
    DeauthCore(a, why, clock);
    var b := DoDeauth(a, why, clock);
    UnfakeKeeps(b, why, clock);
    UnfakeCore(b, why, clock);
    LeaveBindKeeps(DoUnfake(b, why, clock), why, clock);
  }

  lemma BlockKeeps(a: Account, clock: Time)
    requires Good(a)
    ensures KeepsAccount(a, Made(FaceOf(a.user), OpBlock(clock)), DoBlock(a, clock))
  {
    UnbindKeeps(a, Blocking, clock);
    UnbindGood(a, Blocking, clock);
    var b := DoUnbind(a, Blocking, clock);
    TaleMore(b.log, Event(Blocked, b.user.(reason := Blocking)));
  }

  lemma UnblockKeeps(a: Account)
    requires Good(a)
    ensures KeepsAccount(a, Ordered(FaceOf(a.user), OpUnblock), DoUnblock(a))
  {
    TaleMore(a.log, Event(Unblocked, a.user.(state := None)));
  }

  lemma LeaveOldKeeps(a: Account, ip: Ip, clock: Time)
    requires Good(a)
    ensures var b := LeaveOldAddress(a, ip, clock);
            && KeepsAccount(a, if HasBinding(FaceOf(a.user)) && a.user.ip != ip then Unbinding(FaceOf(a.user), Auto)
                               else Outcome(FaceOf(a.user), []), b)
            && Good(b)
  {
    UnbindKeeps(a, Auto, clock);
    UnbindGood(a, Auto, clock);
  }

  lemma BindKeeps(cfg: Config, a: Account, ip: Ip, clock: Time)
    requires Good(a)
    ensures KeepsAccount(a, Entering(FaceOf(a.user), Bind, Bound, ip), DoBind(cfg, a, ip, clock))
  {
    LeaveOldKeeps(a, ip, clock);
    var b := LeaveOldAddress(a, ip, clock);
    TaleMore(b.log, Event(Bound, EnterBind(cfg, b, ip, clock).user));
  }

  lemma FakeKeeps(cfg: Config, a: Account, ip: Ip, clock: Time)
    requires Good(a)
    ensures KeepsAccount(a, Entering(FaceOf(a.user), Fake, Faked, ip), DoFake(cfg, a, ip, clock))
  {
    LeaveOldKeeps(a, ip, clock);
    var b := LeaveOldAddress(a, ip, clock);
    TaleMore(b.log, Event(Faked, EnterFake(cfg, b, ip, clock).user));
  }

  lemma EnterAuthKeeps(a: Account, group: int, lan: LimitPlan, wan: LimitPlan, clock: Time)
    ensures var f := Face(Auth, a.user.ip, group);
            KeepsAccount(a, Outcome(f, [Says(Authed, f)]), EnterAuth(a, group, lan, wan, clock))
  {
    TaleMore(a.log, Event(Authed, EnterAuth(a, group, lan, wan, clock).user));
  }

  lemma AuthKeeps(cfg: Config, a: Account, group: int, lan: LimitPlan, wan: LimitPlan, answer: Answer, clock: Time)
    requires Good(a)
    ensures KeepsAccount(a, Authorising(FaceOf(a.user), group, answer), DoAuth(cfg, a, group, lan, wan, answer, clock))
  {
    if a.user.state == None && answer.Found? {
      BindKeeps(cfg, a, answer.ip, clock);
      EnterAuthKeeps(DoBind(cfg, a, answer.ip, clock), group, lan, wan, clock);
    } else if a.user.HaveBind() {
      EnterAuthKeeps(a, group, lan, wan, clock);
    }
  }

  lemma ReauthKeeps(a: Account)
    ensures KeepsAccount(a, Ordered(FaceOf(a.user), OpReauth), DoReauth(a))
  {
    TaleMore(a.log, Event(Reauthed, a.user));
  }

  lemma RemoveKeeps(a: Account)
    ensures Keeps(Held(a), Outcome(Nobody, [Says(Deleted, FaceOf(a.user))]), Remove(Held(a)))
  {
    TaleMore(a.log, Event(Deleted, a.user));
  }

  lemma CreateKeeps(cfg: Config, r: Record, clock: Time)
    requires GoodRecord(r)
    ensures var f := if r.slot.Present? then Shown(r) else Free;
            && Shown(Held(Demand(cfg, r, clock))) == f && Good(Demand(cfg, r, clock))
            && Tale(Demand(cfg, r, clock).log) == Tale(r.log) + if r.slot.Present? then [] else [Says(Created, Free)]
  {
    DemandGood(cfg, r, clock);
    TaleMore(r.log, Event(Created, LanOnline(cfg, ZeroUser, clock).(create := clock, noused := clock)));
  }

  lemma MadeKeeps(cfg: Config, a: Account, r: Record, op: Op)
    requires Good(a) && Making(op) && r.slot.Present? && Opened(r) == a
    ensures Keeps(r, Made(FaceOf(a.user), op), Apply(cfg, r, op))
  {
    match op
    case OpCreate(_) =>
    case OpBlock(clock) => BlockKeeps(a, clock);
    case OpBind(ip, clock) => BindKeeps(cfg, a, ip, clock);
    case OpFake(ip, clock) => FakeKeeps(cfg, a, ip, clock);
    case OpAuth(group, lan, wan, answer, clock) => AuthKeeps(cfg, a, group, lan, wan, answer, clock);
  }

  lemma OrderedKeeps(cfg: Config, a: Account, op: Op)
    requires Good(a) && !op.OpPacket? && !op.OpTick?
    ensures Keeps(Held(a), Ordered(FaceOf(a.user), op), ApplyToUser(cfg, a, op))
  {
    match op
    case OpDelete => RemoveKeeps(a);
    case OpUnblock => UnblockKeeps(a);
    case OpUnbind(clock) => UnbindKeeps(a, Initiative, clock);
    case OpUnfake(clock) => UnfakeKeeps(a, Initiative, clock);
    case OpDeauth(why, clock) => DeauthKeeps(a, why, clock);
    case OpReauth => ReauthKeeps(a);
    case OpGc => RemoveKeeps(a);
    case _ =>
  }

  function ClockOf(op: Op): Time
    requires Making(op)
  {
    match op
    case OpCreate(clock) => clock
    case OpBlock(clock) => clock
    case OpBind(_, clock) => clock
    case OpFake(_, clock) => clock
    case OpAuth(_, _, _, _, clock) => clock
  }

  /** A command that makes its user does the same to a user just made. */
  lemma MakesFirst(cfg: Config, r: Record, op: Op)
    requires Making(op)
    ensures Apply(cfg, r, op) == Apply(cfg, Held(Demand(cfg, r, ClockOf(op))), op)
  {
  }

  lemma CommandKeeps(cfg: Config, r: Record, op: Op)
    requires GoodRecord(r) && !op.OpPacket? && !op.OpTick?
    ensures Keeps(r, Commanded(Shown(r), op), Apply(cfg, r, op))
  {
    if Making(op) {
      MakingKeeps(cfg, r, op);
    } else if r.slot.Present? {
      OrderedKeeps(cfg, Opened(r), op);
    }
  }

  lemma MakingKeeps(cfg: Config, r: Record, op: Op)
    requires GoodRecord(r) && Making(op)
    ensures Keeps(r, Commanded(Shown(r), op), Apply(cfg, r, op))
  {
    var a := Demand(cfg, r, ClockOf(op));
    CreateKeeps(cfg, r, ClockOf(op));
    MakesFirst(cfg, r, op);
    MadeKeeps(cfg, a, Held(a), op);
    if r.slot.Absent? {
      Regrouped(Tale(r.log), [Says(Created, Free)], Made(Free, op).told);
    }
  }

  lemma Regrouped(a: seq<Told>, b: seq<Told>, c: seq<Told>)
    ensures a + b + c == a + (b + c)
  {
  }
}
