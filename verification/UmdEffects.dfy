/** What the longer transitions leave alone. */
module UmdEffects {
  import opened UmdModel

  predicate LanSame(u: User, v: User) {
    u.lan.up == v.lan.up && u.lan.down == v.lan.down && u.lan.all == v.lan.all
  }

  /** v is u but for its aging counts. */
  predicate OnlyAged(u: User, v: User) {
    v == u.(lan := u.lan.(online := u.lan.online.(aging := v.lan.online.aging)),
            wan := u.wan.(online := u.wan.online.(aging := v.wan.online.aging)))
  }

  /** v is u after losing its binding. */
  predicate Freed(u: User, v: User, clock: Time) {
    && u.HaveBind() && v.state == None && v.ip == 0 && v.flags == u.flags
    && (u.flags == 0 ==> v.noused == clock)
    && LanSame(u, v)
  }

  lemma UnbindEffect(a: Account, reason: Reason, clock: Time)
    ensures var b := DoUnbind(a, reason, clock);
            && (if a.user.HaveBind() then Freed(a.user, b.user, clock) else b == a)
            && a.log <= b.log
  {
  }

  /** A bind that is not refused leaves the user at its address, bound there just now or as
      it was before. */
  lemma BindAddress(cfg: Config, a: Account, ip: Ip, clock: Time)
    requires a.user.state != Block
    ensures var u := DoBind(cfg, a, ip, clock).user;
            && u.ip == ip && u.HaveBind()
            && (a.user.HaveBind() && a.user.ip == ip ==> DoBind(cfg, a, ip, clock) == a)
            && (!(a.user.HaveBind() && a.user.ip == ip) ==> u.state == Bind)
  {
    UnbindEffect(a, Auto, clock);
  }

  lemma FakeAddress(cfg: Config, a: Account, ip: Ip, clock: Time)
    requires a.user.state != Block
    ensures var u := DoFake(cfg, a, ip, clock).user;
            && u.ip == ip && u.HaveBind()
            && (a.user.HaveBind() && a.user.ip == ip ==> DoFake(cfg, a, ip, clock) == a)
            && (!(a.user.HaveBind() && a.user.ip == ip) ==> u.state == Fake)
  {
    UnbindEffect(a, Auto, clock);
  }

  /** An auth keeps the address of a binding and takes that of the script where there is
      none; the group is the command's. */
  lemma AuthAddress(cfg: Config, a: Account, group: int, lan: LimitPlan, wan: LimitPlan, answer: Answer, clock: Time)
    ensures var u := DoAuth(cfg, a, group, lan, wan, answer, clock).user;
            if a.user.HaveBind() then u.state == Auth && u.ip == a.user.ip && u.group == group
            else if a.user.state == None && answer.Found? then u.state == Auth && u.ip == answer.ip && u.group == group
            else u == a.user
  {
    if a.user.state == None && answer.Found? {
      BindAddress(cfg, a, answer.ip, clock);
    }
  }

  /** An unblock takes a blocked user to none, tells the script once, and leaves the rest. */
  lemma UnblockFrees(a: Account)
    ensures var b := DoUnblock(a);
            if a.user.state == Block
            then b.user == a.user.(state := None) && b.log == a.log + [Event(Unblocked, a.user.(state := None))]
            else b == a
  {
  }

  lemma AgeEffect(cfg: Config, a: Account, t: FlowType, clock: Time)
    ensures var b := AgeType(cfg, a, t, clock);
            && (OnlyAged(a.user, b.user) || Freed(a.user, b.user, clock))
            && a.log <= b.log
  {
    var l := a.user.Limits(t);
    var aged := l.(online := l.online.(aging := l.online.aging - cfg.ticks));
    UnbindEffect(a.(user := a.user.WithLimits(t, aged)), Reason.Aging, clock);
  }

  function Timeouts(cfg: Config, a: Account, now: Time, clock: Time): Account {
    OnlineTimeout(OnlineReauth(cfg, FakeTimeout(cfg, a, now, clock), now), now, clock)
  }

  /** v is u but perhaps for its authorisation. */
  predicate Demoted(u: User, v: User) {
    && v.HaveBind() == u.HaveBind() && v.ip == u.ip && v.flags == u.flags
    && LanSame(u, v)
    && v.lan.online == u.lan.online.(downtime := v.lan.online.downtime)
    && v.wan.online == u.wan.online.(downtime := v.wan.online.downtime)
  }

  lemma TimeoutsEffect(cfg: Config, a: Account, now: Time, clock: Time)
    ensures var b := Timeouts(cfg, a, now, clock);
            && Demoted(a.user, b.user)
            && (!a.user.HaveBind() ==> b == a)
            && a.log <= b.log
  {
  }

  lemma AgingEffect(cfg: Config, a: Account, clock: Time)
    ensures var b := OnlineAging(cfg, a, clock);
            && (!a.user.HaveBind() ==> b == a)
            && (a.user.HaveBind() ==> b.user.HaveBind() || b.user.state == None)
            && (b.user.HaveBind() ==> OnlyAged(a.user, b.user))
            && (a.user.HaveBind() && !b.user.HaveBind() && a.user.flags == 0 ==>
                  b.user.noused == clock && b.user.flags == 0)
            && LanSame(a.user, b.user)
            && a.log <= b.log
  {
    AgeEffect(cfg, a, Wan, clock);
    AgeEffect(cfg, AgeType(cfg, a, Wan, clock), Lan, clock);
  }

  /** A timer pass on a user, all but the garbage collector. */
  lemma TickEffect(cfg: Config, a: Account, now: Time, clock: Time)
    ensures var b := TickUser(cfg, a, now, clock);
            && (!a.user.HaveBind() ==> b == a)
            && (b.user.HaveBind() ==> a.user.HaveBind() && b.user.ip == a.user.ip)
            && (a.user.HaveBind() && !b.user.HaveBind() ==>
                  b.user.state == None && (a.user.flags == 0 ==> b.user.noused == clock && b.user.flags == 0))
            && LanSame(a.user, b.user)
  {
    TimeoutsEffect(cfg, a, now, clock);
    AgingEffect(cfg, Timeouts(cfg, a, now, clock), clock);
  }
}
