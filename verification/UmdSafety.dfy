/** Safety of the user manager over whole runs. */
module UmdSafety {
  import opened UmdModel
  import opened UmdHistory

  // ----- the invariant -----

  predicate Within(l: Limit) {
    !QuotaOver(l.up) && !QuotaOver(l.down) && !QuotaOver(l.all)
  }

  predicate AgingOk(o: Online) {
    o.idle == 0 || 0 < o.aging <= o.idle
  }

  predicate CountersAgree(u: User, log: seq<Entry>) {
    forall t, d :: u.Limits(t).Flow(d).now == Bytes(log, t, d)
  }

  predicate AddressAgrees(u: User, log: seq<Entry>) {
    u.ip == if u.HaveBind() then LastAddress(log) else 0
  }

  /** What every step keeps, even halfway through: the log is a legal life that
      ends in the present state, and the counters and the address are the ones
      the log accounts for. */
  predicate Core(a: Account) {
    && Replay(a.log) == Live(a.user.state)
    && CountersAgree(a.user, a.log)
    && AddressAgrees(a.user, a.log)
    && OnlyUpOrDown(a.log)
    && a.user.flags == 0
    && (a.user.state != Auth ==> a.user.group == 0)
  }

  predicate Aged(u: User) {
    u.HaveBind() ==> AgingOk(u.lan.online) && AgingOk(u.wan.online)
  }

  /** No authorised user is over a WAN quota. */
  predicate InQuota(u: User) {
    u.state == Auth ==> Within(u.wan)
  }

  predicate Good(a: Account) {
    Core(a) && Aged(a.user) && InQuota(a.user)
  }

  predicate GoodRecord(r: Record) {
    if r.slot.Present? then Good(Opened(r)) else Replay(r.log) == Gone && OnlyUpOrDown(r.log)
  }

  // ----- each transition keeps it -----

  lemma CreateGood(cfg: Config, log: seq<Entry>, clock: Time)
    requires Replay(log) == Gone && OnlyUpOrDown(log)
    ensures Good(DoCreate(cfg, log, clock))
  {
    var u := LanOnline(cfg, ZeroUser, clock).(create := clock, noused := clock);
    OneMore(log, Event(Created, u));
  }

  lemma DeauthCore(a: Account, reason: Reason, clock: Time)
    requires Core(a) && reason != NoReason
    ensures Core(DoDeauth(a, reason, clock))
  {
    OneMore(a.log, Event(Deauthed, a.user.(reason := reason)));
  }

  lemma UnfakeCore(a: Account, reason: Reason, clock: Time)
    requires Core(a) && reason != NoReason
    ensures Core(DoUnfake(a, reason, clock))
  {
    OneMore(a.log, Event(Unfaked, a.user.(reason := reason)));
  }

  lemma LeaveBindCore(a: Account, reason: Reason, clock: Time)
    requires Core(a) && reason != NoReason
    ensures Core(LeaveBind(a, reason, clock))
  {
    OneMore(a.log, Event(Unbound, a.user.(reason := reason)));
  }

  /** Unbinding ends in none from every bound state, through deauth or unfake,
      and so restores the whole invariant from its core. */
  lemma UnbindGood(a: Account, reason: Reason, clock: Time)
    requires Core(a) && reason != NoReason
    ensures Good(DoUnbind(a, reason, clock))
    ensures DoUnbind(a, reason, clock).user.state == if a.user.HaveBind() then None else a.user.state
  {
    DeauthCore(a, reason, clock);
    var b := DoDeauth(a, reason, clock);
    UnfakeCore(b, reason, clock);
    LeaveBindCore(DoUnfake(b, reason, clock), reason, clock);
  }

  lemma EnterBlockGood(a: Account)
    requires Good(a) && a.user.state == None
    ensures var b := a.(user := a.user.(reason := Blocking)).Emit(Blocked); Good(b.(user := b.user.(state := Block)))
  {
    OneMore(a.log, Event(Blocked, a.user.(reason := Blocking)));
  }

  lemma BlockGood(a: Account, clock: Time)
    requires Good(a)
    ensures Good(DoBlock(a, clock)) && DoBlock(a, clock).user.state == Block
  {
    UnbindGood(a, Blocking, clock);
    if a.user.state != Block {
      EnterBlockGood(DoUnbind(a, Blocking, clock));
    }
  }

  lemma UnblockGood(a: Account)
    requires Good(a)
    ensures Good(DoUnblock(a))
  {
    OneMore(a.log, Event(Unblocked, a.user.(state := None)));
  }

  lemma BindGood(cfg: Config, a: Account, ip: Ip, clock: Time)
    requires Good(a)
    ensures Good(DoBind(cfg, a, ip, clock))
    ensures a.user.state != Block ==> DoBind(cfg, a, ip, clock).user.HaveBind()
  {
    UnbindGood(a, Auto, clock);
    var b := LeaveOldAddress(a, ip, clock);
    OneMore(b.log, Event(Bound, EnterBind(cfg, b, ip, clock).user));
  }

  lemma FakeGood(cfg: Config, a: Account, ip: Ip, clock: Time)
    requires Good(a)
    ensures Good(DoFake(cfg, a, ip, clock))
  {
    UnbindGood(a, Auto, clock);
    var b := LeaveOldAddress(a, ip, clock);
    OneMore(b.log, Event(Faked, EnterFake(cfg, b, ip, clock).user));
  }

  lemma ReauthGood(a: Account)
    requires Good(a)
    ensures Good(DoReauth(a))
  {
    OneMore(a.log, Event(Reauthed, a.user));
  }

  lemma EnterAuthGood(a: Account, group: int, lan: LimitPlan, wan: LimitPlan, clock: Time)
    requires Good(a) && a.user.HaveBind()
    ensures Good(EnterAuth(a, group, lan, wan, clock))
  {
    OneMore(a.log, Event(Authed, EnterAuth(a, group, lan, wan, clock).user));
  }

  lemma AuthGood(cfg: Config, a: Account, group: int, lan: LimitPlan, wan: LimitPlan, answer: Answer, clock: Time)
    requires Good(a)
    ensures Good(DoAuth(cfg, a, group, lan, wan, answer, clock))
  {
    var b := a;
    if a.user.state == None && answer.Found? {
      BindGood(cfg, a, answer.ip, clock);
      b := DoBind(cfg, a, answer.ip, clock);
    }
    if b.user.HaveBind() {
      EnterAuthGood(b, group, lan, wan, clock);
    }
  }

  // ----- packets -----

  function Charged(a: Account, t: FlowType, d: Dir, len: nat): Account {
    Account(FlowUpdate(a.user, t, d, len), a.log + [Charge(t, d, len)])
  }

  lemma ChargedCore(a: Account, t: FlowType, d: PacketDir, len: nat)
    requires Core(a) && a.user.HaveBind()
    ensures Core(Charged(a, t, d, len))
  {
    OneMore(a.log, Charge(t, d, len));
  }

  /** A packet looks only at its own direction and `All`; that is enough, since
      the other direction has not moved. */
  lemma CutWanGood(cfg: Config, a: Account, t: FlowType, d: PacketDir, len: nat, clock: Time)
    requires Good(a) && a.user.HaveBind()
    ensures Good(CutWan(FlowReauth(cfg, Charged(a, t, d, len), t, d), t, d, clock))
  {
    ChargedCore(a, t, d, len);
    var b := Charged(a, t, d, len);
    OneMore(b.log, Event(Reauthed, b.user));
    DeauthCore(FlowReauth(cfg, b, t, d), FlowLimit, clock);
  }

  lemma ChargeGood(cfg: Config, a: Account, t: FlowType, d: PacketDir, len: nat, clock: Time)
    requires Good(a) && a.user.HaveBind()
    ensures Good(ChargePacket(cfg, a, t, d, len, clock))
  {
    CutWanGood(cfg, a, t, d, len, clock);
    var b := CutWan(FlowReauth(cfg, Charged(a, t, d, len), t, d), t, d, clock);
    UnbindGood(b, FlowLimit, clock);
    AgingRenewed(Overflow(FlowReauth(cfg, Charged(a, t, d, len), t, d), t, d, clock));
  }

  lemma AgingRenewed(a: Account)
    requires Good(a)
    ensures Good(a.(user := UpdateAging(a.user)))
  {
  }

  lemma HandleGood(cfg: Config, a: Account, t: FlowType, d: PacketDir, len: nat, clock: Time)
    requires Good(a)
    ensures Good(HandlePacket(cfg, a, t, d, len, clock))
  {
    var b := a.(user := a.user.(hitime := clock));
    if b.user.HaveBind() {
      ChargeGood(cfg, b, t, d, len, clock);
    }
  }

  lemma PacketGood(cfg: Config, r: Record, t: FlowType, d: PacketDir, len: nat, ip: Ip, clock: Time)
    requires GoodRecord(r)
    ensures GoodRecord(Packet(cfg, r, t, d, len, ip, clock))
  {
    if r.slot.Present? || cfg.autouser {
      ArriveGood(cfg, r, ip, clock);
      HandleGood(cfg, Arrive(cfg, r, ip, clock), t, d, len, clock);
    }
  }

  lemma ArriveGood(cfg: Config, r: Record, ip: Ip, clock: Time)
    requires GoodRecord(r)
    ensures Good(Arrive(cfg, r, ip, clock))
  {
    if r.slot.Absent? {
      CreateGood(cfg, r.log, clock);
      var a := DoCreate(cfg, r.log, clock);
      FakeGood(cfg, a, ip, clock);
      BindGood(cfg, a, ip, clock);
    }
  }

  // ----- timer -----

  /** The core does not look at the aging. */
  lemma AgingCore(a: Account, t: FlowType, aging: int)
    requires Core(a)
    ensures Core(a.(user := WithAging(a.user, t, aging)))
  {
    assert forall f, d :: WithAging(a.user, t, aging).Limits(f).Flow(d) == a.user.Limits(f).Flow(d);
  }

  lemma AgedGood(a: Account, t: FlowType, aging: int)
    requires Good(a) && 0 < aging <= a.user.Limits(t).online.aging
    ensures Good(a.(user := WithAging(a.user, t, aging)))
  {
    AgingCore(a, t, aging);
  }

  lemma AgeGood(cfg: Config, a: Account, t: FlowType, clock: Time)
    requires Good(a)
    ensures Good(AgeType(cfg, a, t, clock))
  {
    var aging := a.user.Limits(t).online.aging - cfg.ticks;
    if a.user.Limits(t).online.idle == 0 {
    } else if aging > 0 {
      AgedGood(a, t, aging);
    } else {
      AgingCore(a, t, aging);
      UnbindGood(a.(user := WithAging(a.user, t, aging)), Reason.Aging, clock);
    }
  }

  lemma TickGood(cfg: Config, a: Account, now: Time, clock: Time)
    requires Good(a)
    ensures Good(TickUser(cfg, a, now, clock))
    ensures GoodRecord(Tick(cfg, a, now, clock))
  {
    UnfakeCore(a, OnlineTime, clock);
    var b := FakeTimeout(cfg, a, now, clock);
    ReauthGood(b);
    var c := OnlineReauth(cfg, b, now);
    DeauthCore(c, OnlineTime, clock);
    var d := OnlineTimeout(c, now, clock);
    AgeGood(cfg, d, Wan, clock);
    AgeGood(cfg, AgeType(cfg, d, Wan, clock), Lan, clock);
    RemoveGood(TickUser(cfg, a, now, clock));
  }

  lemma RemoveGood(a: Account)
    requires Good(a)
    ensures GoodRecord(Remove(Held(a)))
  {
    OneMore(a.log, Event(Deleted, a.user));
  }

  // ----- runs -----

  lemma DemandGood(cfg: Config, r: Record, clock: Time)
    requires GoodRecord(r)
    ensures Good(Demand(cfg, r, clock))
  {
    if r.slot.Absent? {
      CreateGood(cfg, r.log, clock);
    }
  }

  lemma ApplyToUserGood(cfg: Config, a: Account, op: Op)
    requires Good(a)
    ensures GoodRecord(ApplyToUser(cfg, a, op))
  {
    match op
    case OpDelete => RemoveGood(a);
    case OpUnblock => UnblockGood(a);
    case OpUnbind(clock) => UnbindGood(a, Initiative, clock);
    case OpUnfake(clock) => UnfakeCore(a, Initiative, clock);
    case OpDeauth(reason, clock) => if reason != NoReason { DeauthCore(a, reason, clock); }
    case OpReauth => ReauthGood(a);
    case OpTick(now, clock) => TickGood(cfg, a, now, clock);
    case OpGc => RemoveGood(a);
    case _ =>
  }

  lemma ApplyGood(cfg: Config, r: Record, op: Op)
    requires GoodRecord(r)
    ensures GoodRecord(Apply(cfg, r, op))
  {
    match op
    case OpCreate(clock) => DemandGood(cfg, r, clock);
    case OpBlock(clock) => DemandGood(cfg, r, clock); BlockGood(Demand(cfg, r, clock), clock);
    case OpBind(ip, clock) => DemandGood(cfg, r, clock); BindGood(cfg, Demand(cfg, r, clock), ip, clock);
    case OpFake(ip, clock) => DemandGood(cfg, r, clock); FakeGood(cfg, Demand(cfg, r, clock), ip, clock);
    case OpAuth(group, lan, wan, answer, clock) =>
      DemandGood(cfg, r, clock);
      AuthGood(cfg, Demand(cfg, r, clock), group, lan, wan, answer, clock);
    case OpPacket(t, d, len, ip, clock) => PacketGood(cfg, r, t, d, len, ip, clock);
    case _ => if r.slot.Present? { ApplyToUserGood(cfg, Opened(r), op); }
  }

  /** The invariant holds in every reachable state. */
  lemma {:induction false} RunGood(cfg: Config, ops: seq<Op>)
    ensures GoodRecord(Run(cfg, ops))
  {
    if |ops| > 0 {
      RunGood(cfg, ops[..|ops| - 1]);
      ApplyGood(cfg, Run(cfg, ops[..|ops| - 1]), ops[|ops| - 1]);
    }
  }
}
