/** Packets, timer visits, all steps and all runs keep to the table of UmdManual. */
module UmdTold {
  import opened UmdModel
  import opened UmdHistory
  import opened UmdEffects
  import opened UmdSafety
  import opened UmdManual

  // ----- packets keep to the table -----

  /** What a count that is reached means for a user. */
  function Cut(u: User, t: FlowType, d: PacketDir, len: nat): Outcome {
    var f := FaceOf(u);
    if FullFor(u.lan, d, len) then Outcome(Free, WayOut(f, FlowLimit))
    else if t == Wan && u.state == Auth && FullFor(u.wan, d, len)
    then Outcome(Face(Bind, f.ip, 0), [Told(Deauthed, f, FlowLimit)])
    else Outcome(f, [])
  }

  function Notice(cfg: Config, u: User, t: FlowType, d: PacketDir, len: nat): Outcome {
    Outcome(FaceOf(u), [Counted(t, d, len)] +
                       if cfg.reauthable && t == Wan && u.state == Auth && Near(u.wan, d, len)
                       then [Says(Reauthed, FaceOf(u))] else [])
  }

  /** A packet counts first, and then the count is looked at. */
  lemma CountedFirst(u: User, t: FlowType, d: PacketDir, len: nat)
    ensures var v := FlowUpdate(u, t, d, len);
            && FaceOf(v) == FaceOf(u) && FullFor(v.lan, d, 0) == FullFor(u.lan, d, len)
            && (t == Wan ==> FullFor(v.wan, d, 0) == FullFor(u.wan, d, len))
            && (t == Wan ==> FlowWarns(v.wan, d) == Near(u.wan, d, len))
  {
  }

  lemma NoticeKeeps(cfg: Config, a: Account, t: FlowType, d: PacketDir, len: nat)
    requires Core(a) && a.user.HaveBind()
    ensures var c := FlowReauth(cfg, Charged(a, t, d, len), t, d);
            && KeepsAccount(a, Notice(cfg, a.user, t, d, len), c) && Core(c)
            && c.user == FlowUpdate(a.user, t, d, len)
  {
    var b := Charged(a, t, d, len);
    CountedFirst(a.user, t, d, len);
    ChargedCore(a, t, d, len);
    TaleMore(a.log, Charge(t, d, len));
    TaleMore(b.log, Event(Reauthed, b.user));
    OneMore(b.log, Event(Reauthed, b.user));
  }

  lemma CutKeeps(a: Account, t: FlowType, d: PacketDir, clock: Time)
    requires Core(a) && a.user.HaveBind()
    ensures KeepsAccount(a, Cut(a.user, t, d, 0), Overflow(a, t, d, clock))
  {
    CutWanKeeps(a, t, d, clock);
    UnbindKeeps(CutWan(a, t, d, clock), FlowLimit, clock);
  }

  lemma CutWanKeeps(a: Account, t: FlowType, d: PacketDir, clock: Time)
    requires Core(a)
    ensures var b, f := CutWan(a, t, d, clock), FaceOf(a.user);
            && KeepsAccount(a, if t == Wan && f.state == Auth && FullFor(a.user.wan, d, 0)
                               then Outcome(Face(Bind, f.ip, 0), [Told(Deauthed, f, FlowLimit)]) else Outcome(f, []), b)
            && Core(b) && LanSame(b.user, a.user)
  {
    DeauthKeeps(a, FlowLimit, clock);
    DeauthCore(a, FlowLimit, clock);
  }

  /** A packet does not say more than it is said to. */
  lemma CarriedIs(cfg: Config, u: User, t: FlowType, d: PacketDir, len: nat)
    ensures Carried(cfg, u, t, d, len) == Cut(u, t, d, len).After(Notice(cfg, u, t, d, len).told)
  {
  }

  lemma CarriedKeeps(cfg: Config, a: Account, t: FlowType, d: PacketDir, len: nat, clock: Time)
    requires Core(a) && a.user.HaveBind()
    ensures KeepsAccount(a, Carried(cfg, a.user, t, d, len), ChargePacket(cfg, a, t, d, len, clock))
  {
    var c := FlowReauth(cfg, Charged(a, t, d, len), t, d);
    NoticeKeeps(cfg, a, t, d, len);
    CountedFirst(a.user, t, d, len);
    CutKeeps(c, t, d, clock);
    CutLater(a.user, c.user, t, d, len);
    Chain(a, Notice(cfg, a.user, t, d, len), c, Cut(a.user, t, d, len), Overflow(c, t, d, clock));
    CarriedIs(cfg, a.user, t, d, len);
  }

  lemma CutLater(u: User, v: User, t: FlowType, d: PacketDir, len: nat)
    requires v == FlowUpdate(u, t, d, len)
    ensures Cut(v, t, d, 0) == Cut(u, t, d, len)
  {
    CountedFirst(u, t, d, len);
  }

  lemma HandleKeeps(cfg: Config, a: Account, t: FlowType, d: PacketDir, len: nat, clock: Time)
    requires Good(a)
    ensures KeepsAccount(a, if a.user.HaveBind() then Carried(cfg, a.user, t, d, len) else Outcome(FaceOf(a.user), []),
                         HandlePacket(cfg, a, t, d, len, clock))
  {
    if a.user.HaveBind() {
      var b := a.(user := a.user.(hitime := clock));
      CarriedKeeps(cfg, b, t, d, len, clock);
      assert Carried(cfg, b.user, t, d, len) == Carried(cfg, a.user, t, d, len);
    }
  }

  lemma ArriveKeeps(cfg: Config, r: Record, ip: Ip, clock: Time)
    requires GoodRecord(r) && r.slot.Absent?
    ensures var a, f := Arrive(cfg, r, ip, clock), Face(if cfg.fakeable then Fake else Bind, ip, 0);
            && Keeps(r, Outcome(f, [Says(Created, Free), Says(if cfg.fakeable then Faked else Bound, f)]), Held(a))
            && Good(a) && a.user.lan.up == a.user.lan.down == a.user.lan.all == ZeroQuota
  {
    var b := DoCreate(cfg, r.log, clock);
    NewUser(cfg, r.log, clock);
    BindKeeps(cfg, b, ip, clock);
    FakeKeeps(cfg, b, ip, clock);
    ArriveGood(cfg, r, ip, clock);
    NewLimits(cfg, b, ip, clock);
  }

  lemma NewUser(cfg: Config, log: seq<Entry>, clock: Time)
    requires Replay(log) == Gone && OnlyUpOrDown(log)
    ensures var b := DoCreate(cfg, log, clock);
            && Good(b) && FaceOf(b.user) == Free && Tale(b.log) == Tale(log) + [Says(Created, Free)]
            && b.user.lan.up == b.user.lan.down == b.user.lan.all == ZeroQuota
  {
    CreateGood(cfg, log, clock);
    TaleMore(log, Event(Created, DoCreate(cfg, log, clock).user));
  }

  lemma NewLimits(cfg: Config, a: Account, ip: Ip, clock: Time)
    requires a.user.state == None && a.user.lan.up == a.user.lan.down == a.user.lan.all == ZeroQuota
    ensures var u, v := DoBind(cfg, a, ip, clock).user.lan, DoFake(cfg, a, ip, clock).user.lan;
            u.up == u.down == u.all == v.up == v.down == v.all == ZeroQuota
  {
  }

  lemma DeliveredKeeps(cfg: Config, r: Record, t: FlowType, d: PacketDir, len: nat, ip: Ip, clock: Time)
    requires GoodRecord(r)
    ensures Keeps(r, Delivered(cfg, r, t, d, len, ip), Packet(cfg, r, t, d, len, ip, clock))
  {
    if r.slot.Present? {
      HandleKeeps(cfg, Opened(r), t, d, len, clock);
    } else if cfg.autouser {
      FirstKeeps(cfg, r, t, d, len, ip, clock);
    }
  }

  /** The packet that makes a user is its first, and nothing is full yet. */
  lemma FirstKeeps(cfg: Config, r: Record, t: FlowType, d: PacketDir, len: nat, ip: Ip, clock: Time)
    requires GoodRecord(r) && r.slot.Absent? && cfg.autouser
    ensures Keeps(r, Delivered(cfg, r, t, d, len, ip), Packet(cfg, r, t, d, len, ip, clock))
  {
    var a := Arrive(cfg, r, ip, clock);
    ArriveKeeps(cfg, r, ip, clock);
    HandleKeeps(cfg, a, t, d, len, clock);
    assert Carried(cfg, a.user, t, d, len) == Outcome(FaceOf(a.user), [Counted(t, d, len)]);
  }

  // ----- the timer keeps to the table -----

  lemma FakeTimedKeeps(cfg: Config, a: Account, now: Time, clock: Time)
    requires Core(a) && a.user.state == Fake
    ensures Timeouts(cfg, a, now, clock) == if Over(cfg, a.user, now) then DoUnfake(a, OnlineTime, clock) else a
    ensures KeepsAccount(a, TimedOut(cfg, a.user, now), Timeouts(cfg, a, now, clock))
    ensures Core(Timeouts(cfg, a, now, clock))
  {
    UnfakeKeeps(a, OnlineTime, clock);
    UnfakeCore(a, OnlineTime, clock);
  }

  lemma WarnKeeps(cfg: Config, a: Account, now: Time)
    requires Core(a) && a.user.state == Auth
    ensures var b, f := OnlineReauth(cfg, a, now), FaceOf(a.user);
            && KeepsAccount(a, Outcome(f, if Warned(cfg, a.user, now) then [Says(Reauthed, f)] else []), b)
            && Core(b) && b.user == a.user
  {
    TaleMore(a.log, Event(Reauthed, a.user));
    ReauthCore(a);
  }

  lemma ReauthCore(a: Account)
    requires Core(a) && a.user.state == Auth
    ensures Core(a.Emit(Reauthed))
  {
    OneMore(a.log, Event(Reauthed, a.user));
  }

  lemma EndKeeps(cfg: Config, a: Account, now: Time, clock: Time)
    requires Core(a) && a.user.state == Auth
    ensures var b, f := OnlineTimeout(a, now, clock), FaceOf(a.user);
            && KeepsAccount(a, if Over(cfg, a.user, now)
                               then OneLeft(f, Auth, Face(Bind, f.ip, 0), Deauthed, OnlineTime)
                               else Outcome(f, []), b)
            && Core(b)
  {
    DeauthKeeps(a, OnlineTime, clock);
    DeauthCore(a, OnlineTime, clock);
  }

  lemma TimedKeeps(cfg: Config, a: Account, now: Time, clock: Time)
    requires Core(a)
    ensures KeepsAccount(a, TimedOut(cfg, a.user, now), Timeouts(cfg, a, now, clock))
    ensures Core(Timeouts(cfg, a, now, clock))
  {
    if a.user.state == Fake {
      FakeTimedKeeps(cfg, a, now, clock);
    } else if a.user.state == Auth {
      WarnKeeps(cfg, a, now);
      EndKeeps(cfg, OnlineReauth(cfg, a, now), now, clock);
    }
  }

  lemma AgeTypeIs(cfg: Config, a: Account, t: FlowType, clock: Time)
    ensures var o := a.user.Limits(t).online;
            var b := a.(user := WithAging(a.user, t, o.aging - cfg.ticks));
            && AgeType(cfg, a, t, clock) == (if o.idle == 0 then a
                                             else if Idle(o, cfg.ticks) then DoUnbind(b, Aging, clock) else b)
            && FaceOf(b.user) == FaceOf(a.user)
  {
  }

  lemma AgeKeeps(cfg: Config, a: Account, t: FlowType, clock: Time)
    requires Core(a)
    ensures var b, f := AgeType(cfg, a, t, clock), FaceOf(a.user);
            && KeepsAccount(a, if Idle(a.user.Limits(t).online, cfg.ticks) then Unbinding(f, Aging)
                               else Outcome(f, []), b)
            && Core(b)
  {
    var b := a.(user := WithAging(a.user, t, a.user.Limits(t).online.aging - cfg.ticks));
    AgeTypeIs(cfg, a, t, clock);
    AgingCore(a, t, a.user.Limits(t).online.aging - cfg.ticks);
    if Idle(a.user.Limits(t).online, cfg.ticks) {
      AgedOut(a, b, clock);
    }
  }

  lemma AgedOut(a: Account, b: Account, clock: Time)
    requires Core(b) && FaceOf(a.user) == FaceOf(b.user) && a.log == b.log
    ensures KeepsAccount(a, Unbinding(FaceOf(a.user), Aging), DoUnbind(b, Aging, clock))
    ensures Core(DoUnbind(b, Aging, clock))
  {
    UnbindKeeps(b, Aging, clock);
    UnbindGood(b, Aging, clock);
    SameStart(a, b, Unbinding(FaceOf(a.user), Aging), DoUnbind(b, Aging, clock));
  }

  lemma SameStart(a: Account, b: Account, o: Outcome, c: Account)
    requires FaceOf(a.user) == FaceOf(b.user) && a.log == b.log && KeepsAccount(b, o, c)
    ensures KeepsAccount(a, o, c)
  {
  }

  lemma OtherAging(cfg: Config, a: Account, clock: Time)
    ensures AgeType(cfg, a, Wan, clock).user.HaveBind() ==>
              AgeType(cfg, a, Wan, clock).user.lan.online == a.user.lan.online
  {
  }

  /** The end of a binding that is idle. */
  function IdledOut(cfg: Config, u: User): Outcome {
    if Idles(cfg, u) then Unbinding(FaceOf(u), Aging) else Outcome(FaceOf(u), [])
  }

  lemma IdledKeeps(cfg: Config, a: Account, clock: Time)
    requires Core(a)
    ensures KeepsAccount(a, IdledOut(cfg, a.user), OnlineAging(cfg, a, clock))
  {
    if a.user.HaveBind() {
      var b := AgeType(cfg, a, Wan, clock);
      AgeKeeps(cfg, a, Wan, clock);
      AgeKeeps(cfg, b, Lan, clock);
      OtherAging(cfg, a, clock);
    }
  }

  lemma VisitedKeeps(cfg: Config, a: Account, now: Time, clock: Time)
    requires Core(a)
    ensures KeepsAccount(a, Visited(cfg, a.user, now), TickUser(cfg, a, now, clock))
  {
    var b := Timeouts(cfg, a, now, clock);
    TimedKeeps(cfg, a, now, clock);
    TimeoutsEffect(cfg, a, now, clock);
    IdledKeeps(cfg, b, clock);
    Chain(a, TimedOut(cfg, a.user, now), b, IdledOut(cfg, b.user), TickUser(cfg, a, now, clock));
  }

  lemma TickedKeeps(cfg: Config, a: Account, now: Time, clock: Time)
    requires Good(a)
    ensures Keeps(Held(a), Ticked(cfg, a.user, now, clock), Tick(cfg, a, now, clock))
  {
    var b := TickUser(cfg, a, now, clock);
    VisitedKeeps(cfg, a, now, clock);
    TickEffect(cfg, a, now, clock);
    TickGood(cfg, a, now, clock);
    RemoveKeeps(b);
  }

  // ----- all steps, all runs -----

  /** Every step keeps to the table: what shows of the user afterwards, and what was told
      and counted, in order. */
  lemma StepKeeps(cfg: Config, r: Record, op: Op)
    requires GoodRecord(r)
    ensures Keeps(r, Manual(cfg, r, op), Apply(cfg, r, op))
  {
    match op
    case OpPacket(t, d, len, ip, clock) => DeliveredKeeps(cfg, r, t, d, len, ip, clock);
    case OpTick(now, clock) => if r.slot.Present? { TickedKeeps(cfg, Opened(r), now, clock); }
    case _ => CommandKeeps(cfg, r, op);
  }

  /** So does every run, step by step: its whole log is the table's telling of it. */
  function Telling(cfg: Config, ops: seq<Op>): seq<Told> {
    if |ops| == 0 then [] else
    Telling(cfg, ops[..|ops| - 1]) + Manual(cfg, Run(cfg, ops[..|ops| - 1]), ops[|ops| - 1]).told
  }

  lemma {:induction false} RunKeeps(cfg: Config, ops: seq<Op>)
    ensures Tale(Run(cfg, ops).log) == Telling(cfg, ops)
    ensures |ops| > 0 ==> Shown(Run(cfg, ops)) == Manual(cfg, Run(cfg, ops[..|ops| - 1]), ops[|ops| - 1]).face
  {
    if |ops| > 0 {
      RunKeeps(cfg, ops[..|ops| - 1]);
      RunGood(cfg, ops[..|ops| - 1]);
      StepKeeps(cfg, Run(cfg, ops[..|ops| - 1]), ops[|ops| - 1]);
    }
  }

  /** After any run that ends blocked an unblock ends in none, and a bind ends bound at its
      address again. */
  lemma UnblockReturns(cfg: Config, ops: seq<Op>, ip: Ip, clock: Time)
    requires Run(cfg, ops).slot.Present? && Run(cfg, ops).slot.user.state == Block
    ensures Shown(Run(cfg, ops + [OpUnblock])) == Free
    ensures Shown(Run(cfg, ops + [OpUnblock] + [OpBind(ip, clock)])) == Face(Bind, ip, 0)
  {
    var next := ops + [OpUnblock];
    RunKeeps(cfg, next);
    assert next[..|next| - 1] == ops;
    RunKeeps(cfg, next + [OpBind(ip, clock)]);
    assert (next + [OpBind(ip, clock)])[..|next|] == next;
  }
}
