/** The umd user manager: what a user record holds and what each transition of
    app/umd/user.c and app/umd/flow.c does to it. Every transition maps an
    account (a user record and its log so far) to the next account. The log
    gets one entry per event script call, with the record the script is shown,
    and one entry per charged packet. */
module UmdModel {
  type Mac = nat
  type Ip = nat
  type Time = int

  datatype State = None | Bind | Fake | Auth | Block

  datatype Reason = NoReason | Auto | OnlineTime | FlowLimit | Admin | Aging | Initiative | Blocking

  datatype FlowType = Lan | Wan

  datatype Dir = Up | Down | All

  /** The direction of a packet: `All` is a counter, never a packet's direction. */
  type PacketDir = d: Dir | d != All witness Up

  datatype Online = Online(max: nat, idle: nat, numerator: nat, denominator: nat,
                           aging: int, uptime: Time, downtime: Time)

  datatype Quota = Quota(max: nat, now: nat, numerator: nat, denominator: nat)

  datatype Limit = Limit(online: Online, up: Quota, down: Quota, all: Quota) {
    function Flow(d: Dir): Quota {
      match d
      case Up => up
      case Down => down
      case All => all
    }

    function WithNow(d: Dir, n: nat): Limit {
      match d
      case Up => this.(up := up.(now := n))
      case Down => this.(down := down.(now := n))
      case All => this.(all := all.(now := n))
    }
  }

  datatype User = User(state: State, reason: Reason, group: int, flags: nat, ip: Ip,
                       create: Time, faketime: Time, noused: Time, hitime: Time,
                       lan: Limit, wan: Limit)
  {
    function Limits(t: FlowType): Limit {
      match t
      case Lan => lan
      case Wan => wan
    }

    function WithLimits(t: FlowType, l: Limit): User {
      match t
      case Lan => this.(lan := l)
      case Wan => this.(wan := l)
    }

    predicate HaveBind() { state == Bind || state == Fake || state == Auth }

    predicate Noused() { state == None && flags == 0 }
  }

  datatype Config = Config(idle: nat, ticks: nat, fake: nat, gcuser: nat,
                           reauthable: bool, autouser: bool, fakeable: bool)

  /** The limits an auth command carries; a leaf missing from its JSON is 0. */
  datatype QuotaPlan = QuotaPlan(max: nat, numerator: nat, denominator: nat)

  datatype LimitPlan = LimitPlan(max: nat, idle: nat, numerator: nat, denominator: nat,
                                 up: QuotaPlan, down: QuotaPlan, all: QuotaPlan)

  datatype Action =
    | Created | Deleted | Bound | Unbound | Faked | Unfaked
    | Authed | Deauthed | Reauthed | Blocked | Unblocked

  datatype Entry =
    | Event(action: Action, snap: User)
    | Charge(flow: FlowType, dir: Dir, len: nat)

  datatype Account = Account(user: User, log: seq<Entry>) {
    /** Run the event script: it sees the record as it is now. */
    function Emit(action: Action): Account {
      this.(log := log + [Event(action, user)])
    }
  }

  // ----- pieces of a transition -----

  function ResetFlow(l: Limit): Limit {
    l.WithNow(Up, 0).WithNow(Down, 0).WithNow(All, 0)
  }

  function LanOnline(cfg: Config, u: User, clock: Time): User {
    u.(lan := ResetFlow(u.lan.(online := u.lan.online.(uptime := clock, downtime := 0, idle := cfg.idle))),
       wan := ResetFlow(u.wan.(online := u.wan.online.(uptime := 0, downtime := 0, idle := cfg.idle))))
  }

  function WanOnline(u: User, clock: Time): User {
    u.(lan := u.lan.(online := u.lan.online.(downtime := 0)),
       wan := ResetFlow(u.wan.(online := u.wan.online.(uptime := clock, downtime := 0))))
  }

  function LanOffline(u: User, clock: Time): User {
    var v := u.(lan := u.lan.(online := u.lan.online.(downtime := clock)));
    if v.Noused() then v.(noused := clock) else v
  }

  function WanOffline(u: User, clock: Time): User {
    u.(lan := u.lan.(online := u.lan.online.(downtime := 0)),
       wan := u.wan.(online := u.wan.online.(downtime := clock)))
  }

  function UpdateAging(u: User): User {
    u.(lan := u.lan.(online := u.lan.online.(aging := u.lan.online.idle)),
       wan := u.wan.(online := u.wan.online.(aging := u.wan.online.idle)))
  }

  function LoadQuota(q: Quota, p: QuotaPlan): Quota {
    q.(max := p.max, numerator := p.numerator, denominator := p.denominator)
  }

  function LoadLimit(l: Limit, p: LimitPlan): Limit {
    Limit(l.online.(max := p.max, idle := p.idle, numerator := p.numerator, denominator := p.denominator),
          LoadQuota(l.up, p.up), LoadQuota(l.down, p.down), LoadQuota(l.all, p.all))
  }

  function UpdateLimit(u: User, lan: LimitPlan, wan: LimitPlan): User {
    u.(lan := LoadLimit(u.lan, lan), wan := LoadLimit(u.wan, wan))
  }

  const ZeroQuota := Quota(0, 0, 0, 0)
  const ZeroLimit := Limit(Online(0, 0, 0, 0, 0, 0, 0), ZeroQuota, ZeroQuota, ZeroQuota)
  const ZeroUser := User(None, NoReason, 0, 0, 0, 0, 0, 0, 0, ZeroLimit, ZeroLimit)

  // ----- transitions -----

  function DoCreate(cfg: Config, log: seq<Entry>, clock: Time): Account {
    Account(LanOnline(cfg, ZeroUser, clock).(create := clock, noused := clock), log).Emit(Created)
  }

  function DoDeauth(a: Account, reason: Reason, clock: Time): Account {
    if a.user.state != Auth then a else
    var b := a.(user := a.user.(reason := reason)).Emit(Deauthed);
    b.(user := WanOffline(b.user.(state := Bind, group := 0), clock))
  }

  function DoUnfake(a: Account, reason: Reason, clock: Time): Account {
    if a.user.state != Fake then a else
    var b := a.(user := a.user.(reason := reason)).Emit(Unfaked);
    b.(user := WanOffline(b.user.(state := Bind), clock))
  }

  /** The last leg of an unbind: bind ==> none. */
  function LeaveBind(a: Account, reason: Reason, clock: Time): Account {
    if a.user.state != Bind then a else
    var b := a.(user := a.user.(reason := reason)).Emit(Unbound);
    b.(user := LanOffline(b.user.(ip := 0, state := None), clock))
  }

  function DoUnbind(a: Account, reason: Reason, clock: Time): Account {
    LeaveBind(DoUnfake(DoDeauth(a, reason, clock), reason, clock), reason, clock)
  }

  function DoBlock(a: Account, clock: Time): Account {
    var b := DoUnbind(a, Blocking, clock);
    if b.user.state != None then b else
    var c := b.(user := b.user.(reason := Blocking)).Emit(Blocked);
    c.(user := c.user.(state := Block))
  }

  function DoUnblock(a: Account): Account {
    if a.user.state != Block then a else
    a.(user := a.user.(state := None)).Emit(Unblocked)
  }

  /** What bind and fake do first: leave an old address that differs. */
  function LeaveOldAddress(a: Account, ip: Ip, clock: Time): Account {
    if a.user.HaveBind() && ip != a.user.ip then DoUnbind(a, Auto, clock) else a
  }

  function EnterBind(cfg: Config, a: Account, ip: Ip, clock: Time): Account {
    a.(user := UpdateAging(LanOnline(cfg, a.user.(ip := ip, state := Bind), clock))).Emit(Bound)
  }

  function DoBind(cfg: Config, a: Account, ip: Ip, clock: Time): Account {
    if a.user.state == Block || (a.user.HaveBind() && ip == a.user.ip) then a else
    var b := LeaveOldAddress(a, ip, clock);
    if b.user.state != None then b else EnterBind(cfg, b, ip, clock)
  }

  function EnterFake(cfg: Config, a: Account, ip: Ip, clock: Time): Account {
    a.(user := UpdateAging(LanOnline(cfg, a.user.(ip := ip, state := Fake), clock)).(faketime := clock)).Emit(Faked)
  }

  function DoFake(cfg: Config, a: Account, ip: Ip, clock: Time): Account {
    if a.user.state == Block || (a.user.HaveBind() && ip == a.user.ip) then a else
    EnterFake(cfg, LeaveOldAddress(a, ip, clock), ip, clock)
  }

  function DoReauth(a: Account): Account {
    if a.user.state != Auth then a else a.Emit(Reauthed)
  }

  /** The address script's answer: it finds an address for the MAC or fails. */
  datatype Answer = NotFound | Found(ip: Ip)

  function EnterAuth(a: Account, group: int, lan: LimitPlan, wan: LimitPlan, clock: Time): Account {
    var u := a.user.(state := Auth, group := group, reason := NoReason);
    a.(user := UpdateAging(WanOnline(UpdateLimit(u, lan, wan), clock))).Emit(Authed)
  }

  function DoAuth(cfg: Config, a: Account, group: int, lan: LimitPlan, wan: LimitPlan, answer: Answer, clock: Time)
    : Account
  {
    var b := if a.user.state == None && answer.Found? then DoBind(cfg, a, answer.ip, clock) else a;
    if b.user.HaveBind() then EnterAuth(b, group, lan, wan, clock) else b
  }

  // ----- packets -----

  function AddFlow(l: Limit, d: Dir, len: nat): Limit {
    var m := if d != All then l.WithNow(d, l.Flow(d).now + len) else l;
    m.WithNow(All, m.all.now + len)
  }

  /** LAN counters include the WAN traffic. */
  function FlowUpdate(u: User, t: FlowType, d: Dir, len: nat): User {
    var v := u.WithLimits(t, AddFlow(u.Limits(t), d, len));
    if t == Wan then v.(lan := AddFlow(v.lan, d, len)) else v
  }

  const WIDTH32: nat := 0x1_0000_0000
  const WIDTH64: nat := 0x1_0000_0000_0000_0000

  /** The warning threshold; the product is taken in an unsigned type of the
      given width and wraps. 0 means no threshold. */
  function Reauthor(max: nat, numerator: nat, denominator: nat, width: nat): nat
    requires width > 0
  {
    if max == 0 || numerator == 0 then 0
    else if denominator == 0 then numerator
    else (max * numerator % width) / denominator
  }

  predicate QuotaWarns(q: Quota) {
    var t := Reauthor(q.max, q.numerator, q.denominator, WIDTH64);
    t != 0 && t < q.now
  }

  predicate QuotaOver(q: Quota) { q.max != 0 && q.max < q.now }

  predicate FlowWarns(l: Limit, d: Dir) { QuotaWarns(l.Flow(d)) || QuotaWarns(l.all) }

  predicate FlowOver(l: Limit, d: Dir) { QuotaOver(l.Flow(d)) || QuotaOver(l.all) }

  function FlowReauth(cfg: Config, a: Account, t: FlowType, d: Dir): Account {
    if cfg.reauthable && t == Wan && a.user.state == Auth && FlowWarns(a.user.wan, d) then DoReauth(a) else a
  }

  function CutWan(a: Account, t: FlowType, d: Dir, clock: Time): Account {
    if t == Wan && a.user.state == Auth && FlowOver(a.user.wan, d) then DoDeauth(a, FlowLimit, clock) else a
  }

  function CutLan(a: Account, d: Dir, clock: Time): Account {
    if FlowOver(a.user.lan, d) then DoUnbind(a, FlowLimit, clock) else a
  }

  function Overflow(a: Account, t: FlowType, d: Dir, clock: Time): Account {
    CutLan(CutWan(a, t, d, clock), d, clock)
  }

  /** One packet for a user that has a binding. */
  function ChargePacket(cfg: Config, a: Account, t: FlowType, d: Dir, len: nat, clock: Time): Account {
    var b := Account(FlowUpdate(a.user, t, d, len), a.log + [Charge(t, d, len)]);
    var c := Overflow(FlowReauth(cfg, b, t, d), t, d, clock);
    c.(user := UpdateAging(c.user))
  }

  function HandlePacket(cfg: Config, a: Account, t: FlowType, d: Dir, len: nat, clock: Time): Account {
    var b := a.(user := a.user.(hitime := clock));
    if b.user.HaveBind() then ChargePacket(cfg, b, t, d, len, clock) else b
  }

  // ----- timer handlers -----

  /** More than `limit` has passed since `since`; a limit of 0 never expires. */
  predicate Expired(limit: nat, since: Time, now: Time) {
    limit != 0 && since < now && now - since > limit
  }

  predicate OnlineOver(o: Online, now: Time) { Expired(o.max, o.uptime, now) }

  predicate OnlineWarns(o: Online, now: Time) {
    Expired(Reauthor(o.max, o.numerator, o.denominator, WIDTH32), o.uptime, now)
  }

  function FakeTimeout(cfg: Config, a: Account, now: Time, clock: Time): Account {
    if a.user.state == Fake && Expired(cfg.fake, a.user.faketime, now) then DoUnfake(a, OnlineTime, clock) else a
  }

  function OnlineReauth(cfg: Config, a: Account, now: Time): Account {
    if cfg.reauthable && a.user.state == Auth &&
       (OnlineWarns(a.user.wan.online, now) || OnlineWarns(a.user.lan.online, now))
    then DoReauth(a) else a
  }

  function OnlineTimeout(a: Account, now: Time, clock: Time): Account {
    if a.user.state == Auth && (OnlineOver(a.user.wan.online, now) || OnlineOver(a.user.lan.online, now))
    then DoDeauth(a, OnlineTime, clock) else a
  }

  function WithAging(u: User, t: FlowType, aging: int): User {
    u.WithLimits(t, u.Limits(t).(online := u.Limits(t).online.(aging := aging)))
  }

  function AgeType(cfg: Config, a: Account, t: FlowType, clock: Time): Account {
    if a.user.Limits(t).online.idle == 0 then a else
    var aging := a.user.Limits(t).online.aging - cfg.ticks;
    var b := a.(user := WithAging(a.user, t, aging));
    if aging <= 0 then DoUnbind(b, Reason.Aging, clock) else b
  }

  function OnlineAging(cfg: Config, a: Account, clock: Time): Account {
    if a.user.HaveBind() then AgeType(cfg, AgeType(cfg, a, Wan, clock), Lan, clock) else a
  }

  /** The handlers of one timer pass, all but the last. */
  function TickUser(cfg: Config, a: Account, now: Time, clock: Time): Account {
    OnlineAging(cfg, OnlineTimeout(OnlineReauth(cfg, FakeTimeout(cfg, a, now, clock), now), now, clock), clock)
  }

  predicate Collectable(cfg: Config, u: User, now: Time) {
    Expired(cfg.gcuser, u.noused, now) && u.Noused()
  }

  // ----- commands by MAC -----

  datatype Slot = Absent | Present(user: User)

  /** Everything known about one MAC: its user, if any, and its log, which
      outlives a deletion. */
  datatype Record = Record(slot: Slot, log: seq<Entry>)

  const Unknown := Record(Absent, [])

  function Held(a: Account): Record { Record(Present(a.user), a.log) }

  function Opened(r: Record): Account
    requires r.slot.Present?
  {
    Account(r.slot.user, r.log)
  }

  function Remove(r: Record): Record {
    if r.slot.Absent? then r else Record(Absent, Opened(r).Emit(Deleted).log)
  }

  /** The user of a MAC, created when there is none. */
  function Demand(cfg: Config, r: Record, clock: Time): Account {
    if r.slot.Present? then Opened(r) else DoCreate(cfg, r.log, clock)
  }

  function Tick(cfg: Config, a: Account, now: Time, clock: Time): Record {
    var b := TickUser(cfg, a, now, clock);
    if Collectable(cfg, b.user, now) then Remove(Held(b)) else Held(b)
  }

  /** The user a packet finds, made on the spot when users are made by packets. */
  function Arrive(cfg: Config, r: Record, ip: Ip, clock: Time): Account {
    if r.slot.Present? then Opened(r)
    else
      var a := DoCreate(cfg, r.log, clock);
      if cfg.fakeable then DoFake(cfg, a, ip, clock) else DoBind(cfg, a, ip, clock)
  }

  function Packet(cfg: Config, r: Record, t: FlowType, d: Dir, len: nat, ip: Ip, clock: Time): Record {
    if r.slot.Absent? && !cfg.autouser then r
    else Held(HandlePacket(cfg, Arrive(cfg, r, ip, clock), t, d, len, clock))
  }

  /** One command, packet or timer visit, as one MAC sees it. */
  datatype Op =
    | OpCreate(clock: Time)
    | OpDelete
    | OpBlock(clock: Time)
    | OpUnblock
    | OpBind(ip: Ip, clock: Time)
    | OpUnbind(clock: Time)
    | OpFake(ip: Ip, clock: Time)
    | OpUnfake(clock: Time)
    | OpAuth(group: int, lan: LimitPlan, wan: LimitPlan, answer: Answer, clock: Time)
    | OpDeauth(reason: Reason, clock: Time)
    | OpReauth
    | OpPacket(flow: FlowType, dir: PacketDir, len: nat, ip: Ip, clock: Time)
    | OpTick(now: Time, clock: Time)
    | OpGc

  /** Commands that do not create a user leave an unknown MAC alone. */
  function ApplyToUser(cfg: Config, a: Account, op: Op): Record {
    match op
    case OpDelete => Remove(Held(a))
    case OpUnblock => Held(DoUnblock(a))
    case OpUnbind(clock) => Held(DoUnbind(a, Initiative, clock))
    case OpUnfake(clock) => Held(DoUnfake(a, Initiative, clock))
    case OpDeauth(reason, clock) => if reason == NoReason then Held(a) else Held(DoDeauth(a, reason, clock))
    case OpReauth => Held(DoReauth(a))
    case OpTick(now, clock) => Tick(cfg, a, now, clock)
    case OpGc => if a.user.Noused() then Remove(Held(a)) else Held(a)
    case _ => Held(a)
  }

  function Apply(cfg: Config, r: Record, op: Op): Record {
    match op
    case OpCreate(clock) => Held(Demand(cfg, r, clock))
    case OpBlock(clock) => Held(DoBlock(Demand(cfg, r, clock), clock))
    case OpBind(ip, clock) => Held(DoBind(cfg, Demand(cfg, r, clock), ip, clock))
    case OpFake(ip, clock) => Held(DoFake(cfg, Demand(cfg, r, clock), ip, clock))
    case OpAuth(group, lan, wan, answer, clock) =>
      Held(DoAuth(cfg, Demand(cfg, r, clock), group, lan, wan, answer, clock))
    case OpPacket(t, d, len, ip, clock) => Packet(cfg, r, t, d, len, ip, clock)
    case _ => if r.slot.Absent? then r else ApplyToUser(cfg, Opened(r), op)
  }

  /** The steps that allocate a user where there is none. */
  predicate Allocates(op: Op) {
    op.OpCreate? || op.OpBlock? || op.OpBind? || op.OpFake? || op.OpAuth? || op.OpPacket?
  }

  /** The user would have to be made, but may not be or there is no memory for it: nothing
      happens. */
  predicate Refused(cfg: Config, known: bool, op: Op, memory: bool) {
    !known && Allocates(op) && (!memory || (op.OpPacket? && !cfg.autouser))
  }

  /** A step as it is attempted. */
  function Attempt(cfg: Config, r: Record, op: Op, memory: bool): Record {
    if Refused(cfg, r.slot.Present?, op, memory) then r else Apply(cfg, r, op)
  }

  /** A run: what a MAC's record is after any sequence of steps from nothing. */
  function Run(cfg: Config, ops: seq<Op>): Record {
    if |ops| == 0 then Unknown
    else Apply(cfg, Run(cfg, ops[..|ops| - 1]), ops[|ops| - 1])
  }
}
