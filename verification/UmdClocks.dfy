/** The limits that an auth and a bind start with, and the times that a user carries: what each
    command does to them. */
module UmdClocks {
  import opened UmdModel
  import opened UmdSafety
  import opened UmdManual

  // ----- what an auth and a bind start with -----

  function PlanFor(p: LimitPlan, d: Dir): QuotaPlan {
    match d
    case Up => p.up
    case Down => p.down
    case All => p.all
  }

  /** The limits are those of a plan, with these counts. */
  predicate Follows(l: Limit, p: LimitPlan, now: Dir -> nat) {
    && l.online.max == p.max && l.online.idle == p.idle && l.online.aging == p.idle
    && l.online.numerator == p.numerator && l.online.denominator == p.denominator
    && forall d :: l.Flow(d) == Quota(PlanFor(p, d).max, now(d), PlanFor(p, d).numerator, PlanFor(p, d).denominator)
  }

  /** An authorisation starts with the limits of its command and full aging, WAN from zero and
      LAN from what it has counted. */
  lemma AuthFollows(a: Account, group: int, lan: LimitPlan, wan: LimitPlan, clock: Time)
    ensures var u := EnterAuth(a, group, lan, wan, clock).user;
            Follows(u.lan, lan, d => a.user.lan.Flow(d).now) && Follows(u.wan, wan, d => 0)
  {
  }

  /** A binding starts from zero, with the configured idle time, and keeps the maxima. */
  predicate Restarts(n: Limit, l: Limit, idle: nat) {
    && n.online.idle == idle && n.online.aging == idle && n.online.max == l.online.max
    && forall d :: n.Flow(d) == l.Flow(d).(now := 0)
  }

  lemma BindRestarts(cfg: Config, a: Account, ip: Ip, clock: Time)
    requires a.user.state == None
    ensures var u, v := DoBind(cfg, a, ip, clock).user, DoFake(cfg, a, ip, clock).user;
            && Restarts(u.lan, a.user.lan, cfg.idle) && Restarts(u.wan, a.user.wan, cfg.idle)
            && Restarts(v.lan, a.user.lan, cfg.idle) && Restarts(v.wan, a.user.wan, cfg.idle)
  {
  }

  // ----- the clocks of a user -----

  /** The times that a user carries. */
  datatype Times = Times(create: Time, fake: Time, unused: Time, hit: Time,
                         lanUp: Time, lanDown: Time, wanUp: Time, wanDown: Time)

  function TimesOf(u: User): Times {
    Times(u.create, u.faketime, u.noused, u.hitime, u.lan.online.uptime, u.lan.online.downtime,
          u.wan.online.uptime, u.wan.online.downtime)
  }

  function NewTimes(clock: Time): Times { Times(clock, 0, clock, 0, clock, 0, 0, 0) }

  /** The end of an authorisation or a fake. */
  function WanEnds(s: Times, clock: Time): Times { s.(lanDown := 0, wanDown := clock) }

  /** The end of a binding, through the end of an authorisation or a fake. */
  function BindingEnds(s: Times, f: Face, clock: Time): Times {
    if !HasBinding(f) then s
    else s.(lanDown := clock, unused := clock, wanDown := if f.state == Bind then s.wanDown else clock)
  }

  function BindingStarts(s: Times, clock: Time): Times { s.(lanUp := clock, lanDown := 0, wanUp := 0, wanDown := 0) }

  function AuthStarts(s: Times, clock: Time): Times { s.(lanDown := 0, wanUp := clock, wanDown := 0) }

  function EnteringTimes(s: Times, f: Face, ip: Ip, clock: Time): Times
    requires f.Face?
  {
    if f.state == Block || (HasBinding(f) && f.ip == ip) then s
    else BindingStarts(BindingEnds(s, f, clock), clock)
  }

  /** What a command does to them. */
  function Clocked(s: Times, f: Face, op: Op): Times
    requires f.Face?
  {
    match op
    case OpBlock(clock) => BindingEnds(s, f, clock)
    case OpBind(ip, clock) => EnteringTimes(s, f, ip, clock)
    case OpUnbind(clock) => BindingEnds(s, f, clock)
    case OpFake(ip, clock) =>
      var t := EnteringTimes(s, f, ip, clock);
      if f.state == Block || (HasBinding(f) && f.ip == ip) then t else t.(fake := clock)
    case OpUnfake(clock) => if f.state == Fake then WanEnds(s, clock) else s
    case OpAuth(_, _, _, answer, clock) =>
      if f.state == Block || (f.state == None && answer.NotFound?) then s
      else AuthStarts(if f.state == None then BindingStarts(s, clock) else s, clock)
    case OpDeauth(why, clock) => if f.state == Auth && why != NoReason then WanEnds(s, clock) else s
    case _ => s
  }

  lemma UnbindTimes(a: Account, why: Reason, clock: Time)
    requires Core(a)
    ensures TimesOf(DoUnbind(a, why, clock).user) == BindingEnds(TimesOf(a.user), FaceOf(a.user), clock)
  {
  }

  lemma BlockTimes(a: Account, clock: Time)
    requires Good(a)
    ensures TimesOf(DoBlock(a, clock).user) == BindingEnds(TimesOf(a.user), FaceOf(a.user), clock)
  {
    UnbindTimes(a, Blocking, clock);
    UnbindGood(a, Blocking, clock);
  }

  lemma LeaveOldTimes(a: Account, ip: Ip, clock: Time)
    requires Good(a)
    ensures var b := LeaveOldAddress(a, ip, clock);
            && TimesOf(b.user) == (if HasBinding(FaceOf(a.user)) && a.user.ip != ip
                                   then BindingEnds(TimesOf(a.user), FaceOf(a.user), clock) else TimesOf(a.user))
            && (a.user.state != Block && !(HasBinding(FaceOf(a.user)) && a.user.ip == ip) ==> b.user.state == None)
  {
    UnbindTimes(a, Auto, clock);
    UnbindGood(a, Auto, clock);
  }

  lemma BindTimes(cfg: Config, a: Account, ip: Ip, clock: Time)
    requires Good(a)
    ensures TimesOf(DoBind(cfg, a, ip, clock).user) == EnteringTimes(TimesOf(a.user), FaceOf(a.user), ip, clock)
  {
    LeaveOldTimes(a, ip, clock);
  }

  lemma FakeTimes(cfg: Config, a: Account, ip: Ip, clock: Time)
    requires Good(a)
    ensures TimesOf(DoFake(cfg, a, ip, clock).user) == Clocked(TimesOf(a.user), FaceOf(a.user), OpFake(ip, clock))
  {
    LeaveOldTimes(a, ip, clock);
  }

  lemma MadeTimes(cfg: Config, a: Account, r: Record, op: Op)
    requires Good(a) && Making(op) && r.slot.Present? && Opened(r) == a
    ensures Apply(cfg, r, op).slot.Present?
    ensures TimesOf(Apply(cfg, r, op).slot.user) == Clocked(TimesOf(a.user), FaceOf(a.user), op)
  {
    match op
    case OpCreate(_) =>
    case OpBlock(clock) => BlockTimes(a, clock);
    case OpBind(ip, clock) => BindTimes(cfg, a, ip, clock);
    case OpFake(ip, clock) => FakeTimes(cfg, a, ip, clock);
    case OpAuth(group, lan, wan, answer, clock) =>
      if a.user.state == None && answer.Found? { BindTimes(cfg, a, answer.ip, clock); }
  }

  lemma OrderedTimes(cfg: Config, a: Account, op: Op)
    requires Good(a) && !Making(op) && !op.OpPacket? && !op.OpTick?
    ensures var after := ApplyToUser(cfg, a, op);
            after.slot.Present? ==> TimesOf(after.slot.user) == Clocked(TimesOf(a.user), FaceOf(a.user), op)
  {
    match op
    case OpUnbind(clock) => UnbindTimes(a, Initiative, clock);
    case _ =>
  }

  /** A command sets the times of a user as the table says; one that makes its user does it
      to a user made then. */
  lemma CommandTimes(cfg: Config, r: Record, op: Op)
    requires GoodRecord(r) && !op.OpPacket? && !op.OpTick? && Apply(cfg, r, op).slot.Present?
    ensures r.slot.Present? || Making(op)
    ensures TimesOf(Apply(cfg, r, op).slot.user) ==
            if r.slot.Present? then Clocked(TimesOf(r.slot.user), Shown(r), op)
            else Clocked(NewTimes(ClockOf(op)), Free, op)
  {
    if Making(op) {
      CreateKeeps(cfg, r, ClockOf(op));
      MakesFirst(cfg, r, op);
      var a := Demand(cfg, r, ClockOf(op));
      MadeTimes(cfg, a, Held(a), op);
    } else if r.slot.Present? {
      OrderedTimes(cfg, Opened(r), op);
    }
  }

  /** A packet marks the time of its user, bound or not, and renews the aging of both types
      for a user that it leaves bound. */
  lemma PacketRenews(cfg: Config, a: Account, t: FlowType, d: PacketDir, len: nat, clock: Time)
    requires Good(a)
    ensures var u := HandlePacket(cfg, a, t, d, len, clock).user;
            && u.hitime == clock
            && (u.HaveBind() ==> u.lan.online.aging == u.lan.online.idle && u.wan.online.aging == u.wan.online.idle)
            && (u.state == a.user.state && u.HaveBind() ==> TimesOf(u) == TimesOf(a.user).(hit := clock))
            && (!a.user.HaveBind() ==> u == a.user.(hitime := clock))
  {
    if a.user.HaveBind() {
      var b := a.(user := a.user.(hitime := clock));
      OverflowTimes(FlowReauth(cfg, Charged(b, t, d, len), t, d), t, d, clock);
    }
  }

  lemma OverflowTimes(a: Account, t: FlowType, d: Dir, clock: Time)
    requires a.user.HaveBind()
    ensures var u := Overflow(a, t, d, clock).user;
            && u.hitime == a.user.hitime
            && (u.state == a.user.state ==> TimesOf(u) == TimesOf(a.user))
  {
  }
}
