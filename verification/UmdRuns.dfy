/** What holds of a MAC after any run of commands, packets and timer visits. */
module UmdRuns {
  import opened UmdModel
  import opened UmdHistory
  import opened UmdEffects
  import opened UmdSafety

  lemma RunMore(cfg: Config, ops: seq<Op>, op: Op)
    ensures Run(cfg, ops + [op]) == Apply(cfg, Run(cfg, ops), op)
  {
    assert (ops + [op])[..|ops|] == ops;
  }

  function LifeOf(r: Record): Life {
    if r.slot.Present? then Live(r.slot.user.state) else Gone
  }

  /** The event log determines the state: replaying it gives exactly the state the
      user is in, and no event in it came out of turn. */
  lemma LogDeterminesState(cfg: Config, ops: seq<Op>)
    ensures Replay(Run(cfg, ops).log) == LifeOf(Run(cfg, ops))
    ensures forall n :: 0 <= n <= |Run(cfg, ops).log| ==> Replay(Run(cfg, ops).log[..n]) != Broken
  {
    RunGood(cfg, ops);
    var log := Run(cfg, ops).log;
    forall n | 0 <= n <= |log| ensures Replay(log[..n]) != Broken {
      assert log == log[..|log|];
      PrefixUnbroken(log, n);
    }
  }

  lemma {:induction false} PrefixUnbroken(log: seq<Entry>, n: nat)
    requires n <= |log| && Replay(log) != Broken
    ensures Replay(log[..n]) != Broken
  {
    if n == |log| {
      assert log[..n] == log;
    } else {
      PrefixUnbroken(log[..|log| - 1], n);
      assert log[..|log| - 1][..n] == log[..n];
    }
  }

  /** No reachable authorised user is over a WAN quota in any direction. */
  lemma WanQuotaSafe(cfg: Config, ops: seq<Op>, d: Dir)
    requires Run(cfg, ops).slot.Present? && Run(cfg, ops).slot.user.state == Auth
    ensures var q := Run(cfg, ops).slot.user.wan.Flow(d); q.max == 0 || q.now <= q.max
  {
    RunGood(cfg, ops);
  }

  /** Bytes are neither lost nor invented: every counter is the bytes charged
      since its last reset, up and down make up all, and WAN is within LAN. */
  lemma BytesConserved(cfg: Config, ops: seq<Op>, t: FlowType, d: Dir)
    requires Run(cfg, ops).slot.Present?
    ensures var u := Run(cfg, ops).slot.user;
            && u.Limits(t).Flow(d).now == Bytes(Run(cfg, ops).log, t, d)
            && u.Limits(t).all.now == u.Limits(t).up.now + u.Limits(t).down.now
            && u.wan.Flow(d).now <= u.lan.Flow(d).now
  {
    RunGood(cfg, ops);
    var r := Run(cfg, ops);
    var u := r.slot.user;
    BytesSplit(r.log, t);
    WanWithinLan(r.log, d);
    assert CountersAgree(u, r.log);
    assert u.Limits(t).Flow(All).now == Bytes(r.log, t, All);
    assert u.Limits(t).Flow(Up).now == Bytes(r.log, t, Up);
    assert u.Limits(t).Flow(Down).now == Bytes(r.log, t, Down);
    assert u.Limits(Wan).Flow(d).now == Bytes(r.log, Wan, d);
    assert u.Limits(Lan).Flow(d).now == Bytes(r.log, Lan, d);
  }

  // ----- state coherence -----

  predicate NonZeroAddress(op: Op) {
    match op
    case OpBind(ip, _) => ip != 0
    case OpFake(ip, _) => ip != 0
    case OpPacket(_, _, _, ip, _) => ip != 0
    case OpAuth(_, _, _, answer, _) => answer.Found? ==> answer.ip != 0
    case _ => true
  }

  predicate Addressed(r: Record) {
    r.slot.Present? && r.slot.user.HaveBind() ==> r.slot.user.ip != 0
  }

  lemma PacketKeepsAddress(cfg: Config, a: Account, t: FlowType, d: Dir, len: nat, clock: Time)
    ensures var u := HandlePacket(cfg, a, t, d, len, clock).user;
            u.HaveBind() ==> a.user.HaveBind() && u.ip == a.user.ip
  {
    var b := Charged(a.(user := a.user.(hitime := clock)), t, d, len);
    UnbindEffect(CutWan(FlowReauth(cfg, b, t, d), t, d, clock), FlowLimit, clock);
  }

  lemma EnteringAddressed(cfg: Config, a: Account, ip: Ip, clock: Time)
    requires Addressed(Held(a)) && ip != 0
    ensures Addressed(Held(DoBind(cfg, a, ip, clock))) && Addressed(Held(DoFake(cfg, a, ip, clock)))
  {
    UnbindEffect(a, Auto, clock);
  }

  lemma ApplyAddressed(cfg: Config, r: Record, op: Op)
    requires Addressed(r) && NonZeroAddress(op)
    ensures Addressed(Apply(cfg, r, op))
  {
    match op
    case OpBind(ip, clock) => EnteringAddressed(cfg, Demand(cfg, r, clock), ip, clock);
    case OpFake(ip, clock) => EnteringAddressed(cfg, Demand(cfg, r, clock), ip, clock);
    case OpAuth(_, _, _, answer, clock) =>
      if answer.Found? { EnteringAddressed(cfg, Demand(cfg, r, clock), answer.ip, clock); }
    case OpBlock(clock) => UnbindEffect(Demand(cfg, r, clock), Blocking, clock);
    case OpUnbind(clock) => if r.slot.Present? { UnbindEffect(Opened(r), Initiative, clock); }
    case OpPacket(t, d, len, ip, clock) =>
      var a := DoCreate(cfg, r.log, clock);
      EnteringAddressed(cfg, a, ip, clock);
      PacketKeepsAddress(cfg, Arrive(cfg, r, ip, clock), t, d, len, clock);
    case OpTick(now, clock) => if r.slot.Present? { TickEffect(cfg, Opened(r), now, clock); }
    case _ =>
  }

  lemma {:induction false} RunAddressed(cfg: Config, ops: seq<Op>)
    requires forall op :: op in ops ==> NonZeroAddress(op)
    ensures Addressed(Run(cfg, ops))
  {
    if |ops| > 0 {
      RunAddressed(cfg, ops[..|ops| - 1]);
      ApplyAddressed(cfg, Run(cfg, ops[..|ops| - 1]), ops[|ops| - 1]);
    }
  }

  /** The address is zero exactly in none and block, and only an authorised user
      has a group, in every run whose bind and fake addresses are not zero. */
  lemma StateCoherent(cfg: Config, ops: seq<Op>)
    requires forall op :: op in ops ==> NonZeroAddress(op)
    requires Run(cfg, ops).slot.Present?
    ensures var u := Run(cfg, ops).slot.user;
            && (u.ip == 0 <==> u.state == None || u.state == Block)
            && (u.group != 0 ==> u.state == Auth)
  {
    RunGood(cfg, ops);
    RunAddressed(cfg, ops);
  }

  /** Without that condition the address says so only as far as the last bind or
      fake did: a bound user has address zero exactly when it was bound to zero. */
  lemma CoherentUnlessBoundToZero(cfg: Config, ops: seq<Op>)
    requires Run(cfg, ops).slot.Present?
    ensures var u := Run(cfg, ops).slot.user;
            (u.ip == 0 <==> !u.HaveBind()) <==> !(u.HaveBind() && LastAddress(Run(cfg, ops).log) == 0)
  {
    RunGood(cfg, ops);
  }

  // ----- the LAN quota -----

  predicate Covered(l: Limit, d: Dir) { !QuotaOver(l.Flow(d)) && !QuotaOver(l.all) }

  lemma OverflowEffect(a: Account, t: FlowType, d: Dir, clock: Time)
    requires a.user.HaveBind()
    ensures var u := Overflow(a, t, d, clock).user;
            LanSame(u, a.user) && (u.state == None || (u.HaveBind() && Covered(u.lan, d)))
  {
    var b := CutWan(a, t, d, clock);
    assert LanSame(b.user, a.user) && b.user.HaveBind();
    UnbindEffect(b, FlowLimit, clock);
  }

  /** After a packet in direction d a bound user is either gone from its binding or
      within the LAN maxima for d and for all. */
  lemma LanQuotaAfterPacket(cfg: Config, a: Account, t: FlowType, d: PacketDir, len: nat, clock: Time)
    requires a.user.HaveBind()
    ensures var u := HandlePacket(cfg, a, t, d, len, clock).user;
            && (u.state == None || (u.HaveBind() && Covered(u.lan, d)))
            && (forall e :: e != d && e != All ==> u.lan.Flow(e) == a.user.lan.Flow(e))
  {
    var b := Charged(a.(user := a.user.(hitime := clock)), t, d, len);
    var c := FlowReauth(cfg, b, t, d);
    assert c.user == b.user;
    OverflowEffect(c, t, d, clock);
    assert LanSame(HandlePacket(cfg, a, t, d, len, clock).user, b.user);
  }

  predicate LanOk(r: Record) {
    r.slot.Present? && r.slot.user.HaveBind() ==> Within(r.slot.user.lan)
  }

  lemma PacketKeepsLan(cfg: Config, a: Account, t: FlowType, d: PacketDir, len: nat, clock: Time)
    requires LanOk(Held(a))
    ensures LanOk(Held(HandlePacket(cfg, a, t, d, len, clock)))
  {
    if a.user.HaveBind() {
      LanQuotaAfterPacket(cfg, a, t, d, len, clock);
      var e := if d == Up then Down else Up;
      assert HandlePacket(cfg, a, t, d, len, clock).user.lan.Flow(e) == a.user.lan.Flow(e);
    }
  }

  /** A fresh binding counts from zero; no binding has nothing to break. */
  lemma EnteringLanOk(cfg: Config, a: Account, ip: Ip, clock: Time)
    requires LanOk(Held(a))
    ensures LanOk(Held(DoBind(cfg, a, ip, clock))) && LanOk(Held(DoFake(cfg, a, ip, clock)))
  {
    UnbindEffect(a, Auto, clock);
  }

  /** Nothing but an auth takes a bound user over a LAN maximum. */
  lemma LanQuotaKept(cfg: Config, r: Record, op: Op)
    requires LanOk(r) && !op.OpAuth?
    ensures LanOk(Apply(cfg, r, op))
  {
    match op
    case OpBind(ip, clock) => EnteringLanOk(cfg, Demand(cfg, r, clock), ip, clock);
    case OpFake(ip, clock) => EnteringLanOk(cfg, Demand(cfg, r, clock), ip, clock);
    case OpBlock(clock) => UnbindEffect(Demand(cfg, r, clock), Blocking, clock);
    case OpPacket(t, d, len, ip, clock) =>
      var a := DoCreate(cfg, r.log, clock);
      EnteringLanOk(cfg, a, ip, clock);
      PacketKeepsLan(cfg, Arrive(cfg, r, ip, clock), t, d, len, clock);
    case OpTick(now, clock) => if r.slot.Present? { TickEffect(cfg, Opened(r), now, clock); }
    case OpUnbind(clock) => if r.slot.Present? { UnbindEffect(Opened(r), Initiative, clock); }
    case _ =>
  }

  predicate PlanCovers(p: LimitPlan, l: Limit) {
    && (p.up.max == 0 || l.up.now <= p.up.max)
    && (p.down.max == 0 || l.down.now <= p.down.max)
    && (p.all.max == 0 || l.all.now <= p.all.max)
  }

  lemma BoundAuth(a: Account, group: int, lan: LimitPlan, wan: LimitPlan, clock: Time)
    ensures var u := EnterAuth(a, group, lan, wan, clock).user;
            u.state == Auth && (Within(u.lan) <==> PlanCovers(lan, a.user.lan))
  {
  }

  /** An auth loads LAN maxima without restarting the LAN counters: whatever the record
      and the answer of the address script, it leaves the user within them unless there
      was a binding before that has counted more than they cover. A user that the auth
      has to bind first counts from zero. */
  lemma LanQuotaAtAuth(cfg: Config, r: Record, group: int, lan: LimitPlan, wan: LimitPlan, answer: Answer, clock: Time)
    ensures var after := Apply(cfg, r, OpAuth(group, lan, wan, answer, clock));
            && after.slot.Present?
            && (after.slot.user.HaveBind() ==> after.slot.user.state == Auth)
            && (LanOk(after) <==> !(r.slot.Present? && r.slot.user.HaveBind()) || PlanCovers(lan, r.slot.user.lan))
  {
    var a := Demand(cfg, r, clock);
    BoundAuth(a, group, lan, wan, clock);
    if a.user.state == None && answer.Found? {
      BoundAuth(DoBind(cfg, a, answer.ip, clock), group, lan, wan, clock);
    }
  }

  const FreePlan := LimitPlan(0, 0, 0, 0, QuotaPlan(0, 0, 0), QuotaPlan(0, 0, 0), QuotaPlan(0, 0, 0))

  /** Such a run: 100 LAN bytes as a bound user, then an auth with a LAN maximum of 50. */
  lemma LanQuotaBrokenByAuth(cfg: Config)
    ensures var plan := FreePlan.(all := QuotaPlan(50, 0, 0));
            var ops := [OpBind(1, 0)] + [OpPacket(Lan, Up, 100, 1, 0)];
            var r := Run(cfg, ops + [OpAuth(1, plan, FreePlan, NotFound, 0)]);
            r.slot.Present? && r.slot.user.state == Auth && !LanOk(r)
  {
    BoundRun(cfg);
    var plan := FreePlan.(all := QuotaPlan(50, 0, 0));
    var ops := [OpBind(1, 0)] + [OpPacket(Lan, Up, 100, 1, 0)];
    RunMore(cfg, ops, OpAuth(1, plan, FreePlan, NotFound, 0));
    LanQuotaAtAuth(cfg, Run(cfg, ops), 1, plan, FreePlan, NotFound, 0);
  }

  const Unlimited := Quota(0, 0, 0, 0)

  predicate NoWarning(log: seq<Entry>) {
    forall i :: 0 <= i < |log| && log[i].Event? ==> log[i].action != Reauthed
  }

  predicate FreshlyBound(a: Account) {
    && a.user.state == Bind && NoWarning(a.log) && a.user.lan.online.uptime == 0
    && a.user.lan == Limit(a.user.lan.online, Unlimited, Unlimited, Unlimited)
    && a.user.wan == Limit(a.user.wan.online, Unlimited, Unlimited, Unlimited)
  }

  lemma FirstBind(cfg: Config)
    ensures var r := Run(cfg, [OpBind(1, 0)]); r.slot.Present? && FreshlyBound(Opened(r))
  {
    RunMore(cfg, [], OpBind(1, 0));
    assert [] + [OpBind(1, 0)] == [OpBind(1, 0)];
  }

  lemma BoundRun(cfg: Config)
    ensures var r := Run(cfg, [OpBind(1, 0)] + [OpPacket(Lan, Up, 100, 1, 0)]);
            r.slot.Present? && r.slot.user.state == Bind && r.slot.user.lan.all.now == 100
  {
    FirstBind(cfg);
    RunMore(cfg, [OpBind(1, 0)], OpPacket(Lan, Up, 100, 1, 0));
    FirstPacket(cfg, Opened(Run(cfg, [OpBind(1, 0)])));
  }

  lemma FirstPacket(cfg: Config, a: Account)
    requires FreshlyBound(a)
    ensures var u := HandlePacket(cfg, a, Lan, Up, 100, 0).user; u.state == Bind && u.lan.all.now == 100
  {
  }
}
