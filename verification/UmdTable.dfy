/** The user table in memory: user nodes with mutable fields, indexed by MAC and
    by IP in two bucket arrays, and the transitions as they update them. */
module UmdTable {
  import opened UmdModel
  import opened UmdEffects
  import opened UmdRuns
  import opened UmdTimer

  /** What loading leaves of the online record. */
  predicate SameClock(n: Online, o: Online) {
    n.aging == o.aging && n.uptime == o.uptime && n.downtime == o.downtime
  }

  predicate Loaded(n: Quota, o: Quota, p: QuotaPlan) {
    n.max == p.max && n.numerator == p.numerator && n.denominator == p.denominator && n.now == o.now
  }

  /** A count is over what a command allows. */
  predicate PlanOver(p: LimitPlan, d: Dir, now: nat) {
    var max := match d case Up => p.up.max case Down => p.down.max case All => p.all.max;
    max != 0 && max < now
  }

  class UserNode {
    const mac: Mac
    var state: State
    var reason: Reason
    var group: int
    var flags: nat
    var ip: Ip
    var create: Time
    var faketime: Time
    var noused: Time
    var hitime: Time
    var lan: Limit
    var wan: Limit

    // Whether the node is in the table.
    var linked: bool

    // The events and charges of this MAC so far.
    ghost var log: seq<Entry>

    constructor (mac: Mac, ghost log: seq<Entry>)
      ensures this.mac == mac && View() == ZeroUser && this.log == log && !linked
    {
      this.mac, this.log := mac, log;
      state, reason, group, flags, ip := None, NoReason, 0, 0, 0;
      create, faketime, noused, hitime := 0, 0, 0, 0;
      lan, wan := ZeroLimit, ZeroLimit;
      linked := false;
    }

    ghost function View(): User
      reads this
    {
      User(state, reason, group, flags, ip, create, faketime, noused, hitime, lan, wan)
    }

    ghost function Acc(): Account
      reads this
    {
      Account(View(), log)
    }

    predicate IsBound()
      reads this`state
    {
      state == Bind || state == Fake || state == Auth
    }

    function Limits(t: FlowType): Limit
      reads this`lan, this`wan
    {
      match t
      case Lan => lan
      case Wan => wan
    }

    method SetLimits(t: FlowType, l: Limit)
      modifies this`lan, this`wan
      ensures View() == old(View()).WithLimits(t, l)
    {
      match t
      case Lan => lan := l;
      case Wan => wan := l;
    }

    /** Counts a type's aging down, if it has an idle time; tells whether it ran out. */
    method CountDown(t: FlowType, ticks: nat) returns (runOut: bool)
      modifies this`lan, this`wan
      ensures var o := old(Limits(t)).online;
              && View() == (if o.idle == 0 then old(View()) else WithAging(old(View()), t, o.aging - ticks))
              && (runOut <==> o.idle != 0 && o.aging - ticks <= 0)
    {
      var l := Limits(t);
      if l.online.idle == 0 {
        return false;
      }
      SetLimits(t, l.(online := l.online.(aging := l.online.aging - ticks)));
      return Limits(t).online.aging <= 0;
    }

    method FlowReset(t: FlowType)
      modifies this`lan, this`wan
      ensures View() == old(View()).WithLimits(t, ResetFlow(old(Limits(t))))
    {
      var dirs := [Up, Down, All];
      ghost var was := Limits(t);
      for i := 0 to |dirs|
        invariant View() == old(View()).WithLimits(t, Limits(t))
        invariant i == 0 ==> Limits(t) == was
        invariant i == 1 ==> Limits(t) == was.WithNow(Up, 0)
        invariant i == 2 ==> Limits(t) == was.WithNow(Up, 0).WithNow(Down, 0)
        invariant i == 3 ==> Limits(t) == ResetFlow(was)
      {
        SetLimits(t, Limits(t).WithNow(dirs[i], 0));
      }
    }

    method GoLanOnline(cfg: Config, clock: Time)
      modifies this`lan, this`wan
      ensures View() == LanOnline(cfg, old(View()), clock)
    {
      lan := lan.(online := lan.online.(uptime := clock));
      wan := wan.(online := wan.online.(uptime := 0));
      lan := lan.(online := lan.online.(downtime := 0));
      wan := wan.(online := wan.online.(downtime := 0));
      lan := lan.(online := lan.online.(idle := cfg.idle));
      wan := wan.(online := wan.online.(idle := cfg.idle));
      FlowReset(Lan);
      FlowReset(Wan);
    }

    method GoWanOnline(clock: Time)
      modifies this`lan, this`wan
      ensures View() == WanOnline(old(View()), clock)
    {
      wan := wan.(online := wan.online.(uptime := clock));
      lan := lan.(online := lan.online.(downtime := 0));
      wan := wan.(online := wan.online.(downtime := 0));
      FlowReset(Wan);
    }

    method GoLanOffline(clock: Time)
      modifies this`lan, this`noused
      ensures View() == LanOffline(old(View()), clock)
    {
      lan := lan.(online := lan.online.(downtime := clock));
      if state == None && flags == 0 {
        noused := clock;
      }
    }

    method GoWanOffline(clock: Time)
      modifies this`lan, this`wan
      ensures View() == WanOffline(old(View()), clock)
    {
      wan := wan.(online := wan.online.(downtime := clock));
      lan := lan.(online := lan.online.(downtime := 0));
    }

    method RenewAging()
      modifies this`lan, this`wan
      ensures View() == UpdateAging(old(View()))
    {
      wan := wan.(online := wan.online.(aging := wan.online.idle));
      lan := lan.(online := lan.online.(aging := lan.online.idle));
    }

    /** Charges a packet; a WAN packet is charged once more as LAN. */
    method ChargeFlow(t: FlowType, d: Dir, len: nat)
      modifies this`lan, this`wan
      ensures View() == FlowUpdate(old(View()), t, d, len)
      decreases t == Wan
    {
      if d != All {
        SetLimits(t, Limits(t).WithNow(d, Limits(t).Flow(d).now + len));
      }
      SetLimits(t, Limits(t).WithNow(All, Limits(t).all.now + len));
      if t == Wan {
        ChargeFlow(Lan, d, len);
      }
    }

    method Start(cfg: Config, clock: Time)
      modifies this`lan, this`wan, this`create, this`noused
      ensures View() == LanOnline(cfg, old(View()), clock).(create := clock, noused := clock)
    {
      GoLanOnline(cfg, clock);
      create, noused := clock, clock;
    }

    // ----- transitions that do not touch the address -----

    /** Run the event script. */
    ghost method Emit(action: Action)
      modifies this`log
      ensures Acc() == old(Acc()).Emit(action)
    {
      log := log + [Event(action, View())];
    }

    method DeauthUser(reason: Reason, clock: Time)
      modifies this`log, this`state, this`reason, this`group, this`lan, this`wan
      ensures Acc() == DoDeauth(old(Acc()), reason, clock)
    {
      if state != Auth {
        return;
      }
      this.reason := reason;
      Emit(Deauthed);
      state := Bind;
      group := 0;
      GoWanOffline(clock);
    }

    method UnfakeUser(reason: Reason, clock: Time)
      modifies this`log, this`state, this`reason, this`lan, this`wan
      ensures Acc() == DoUnfake(old(Acc()), reason, clock)
    {
      if state != Fake {
        return;
      }
      this.reason := reason;
      Emit(Unfaked);
      state := Bind;
      GoWanOffline(clock);
    }

    method UnblockUser() returns (ok: bool)
      modifies this`log, this`state
      ensures Acc() == DoUnblock(old(Acc()))
      ensures ok <==> old(state) == Block
      ensures ok ==> state == None && log == old(log) + [Event(Unblocked, View())]
      ensures !ok ==> state == old(state) && log == old(log)
    {
      if state != Block {
        return false;
      }
      state := None;
      Emit(Unblocked);
      return true;
    }

    method ReauthUser() returns (ok: bool)
      modifies this`log
      ensures Acc() == DoReauth(old(Acc()))
      ensures ok <==> state == Auth
    {
      if state == Block {
        return false;
      } else if state != Auth {
        return false;
      }
      Emit(Reauthed);
      return true;
    }

    /** auth/fake ==> bind, then the unbind event; tells whether the user is at bind. */
    method AnnounceUnbind(reason: Reason, clock: Time) returns (atBind: bool)
      modifies this`log, this`state, this`reason, this`group, this`lan, this`wan
      ensures var a := DoUnfake(DoDeauth(old(Acc()), reason, clock), reason, clock);
              && (atBind <==> a.user.state == Bind)
              && Acc() == if atBind then a.(user := a.user.(reason := reason)).Emit(Unbound) else a
    {
      DeauthUser(reason, clock);
      UnfakeUser(reason, clock);
      if state != Bind {
        return false;
      }
      this.reason := reason;
      Emit(Unbound);
      return true;
    }

    method FinishUnbind(clock: Time)
      modifies this`state, this`lan, this`noused
      ensures Acc() == old(Acc()).(user := LanOffline(old(View()).(state := None), clock))
    {
      state := None;
      GoLanOffline(clock);
    }

    method FinishBlock()
      modifies this`log, this`state, this`reason
      ensures var a := old(Acc()).(user := old(View()).(reason := Blocking)).Emit(Blocked);
              Acc() == a.(user := a.user.(state := Block))
    {
      reason := Blocking;
      Emit(Blocked);
      state := Block;
    }

    method FinishBind(cfg: Config, clock: Time)
      modifies this`log, this`state, this`lan, this`wan
      ensures Acc() == EnterBind(cfg, old(Acc()), ip, clock)
    {
      state := Bind;
      GoLanOnline(cfg, clock);
      RenewAging();
      Emit(Bound);
    }

    method FinishFake(cfg: Config, clock: Time)
      modifies this`log, this`state, this`lan, this`wan, this`faketime
      ensures Acc() == EnterFake(cfg, old(Acc()), ip, clock)
    {
      state := Fake;
      GoLanOnline(cfg, clock);
      RenewAging();
      faketime := clock;
      Emit(Faked);
    }

    method LoadOnline(t: FlowType, p: LimitPlan)
      modifies this`lan, this`wan
      ensures View() == old(View()).WithLimits(t, Limits(t))
      ensures var o, n := old(Limits(t)), Limits(t);
              && n.online.max == p.max && n.online.idle == p.idle
              && n.online.numerator == p.numerator && n.online.denominator == p.denominator
              && SameClock(n.online, o.online) && n.up == o.up && n.down == o.down && n.all == o.all
    {
      SetLimits(t, Limits(t).(online := Limits(t).online.(max := p.max)));
      SetLimits(t, Limits(t).(online := Limits(t).online.(idle := p.idle)));
      SetLimits(t, Limits(t).(online := Limits(t).online.(numerator := p.numerator)));
      SetLimits(t, Limits(t).(online := Limits(t).online.(denominator := p.denominator)));
    }

    method LoadFlow(t: FlowType, p: LimitPlan)
      modifies this`lan, this`wan
      ensures View() == old(View()).WithLimits(t, Limits(t))
      ensures var o, n := old(Limits(t)), Limits(t);
              && n.online == o.online
              && Loaded(n.up, o.up, p.up) && Loaded(n.down, o.down, p.down) && Loaded(n.all, o.all, p.all)
    {
      SetLimits(t, Limits(t).(up := Limits(t).up.(max := p.up.max)));
      SetLimits(t, Limits(t).(down := Limits(t).down.(max := p.down.max)));
      SetLimits(t, Limits(t).(all := Limits(t).all.(max := p.all.max)));
      SetLimits(t, Limits(t).(up := Limits(t).up.(numerator := p.up.numerator)));
      SetLimits(t, Limits(t).(down := Limits(t).down.(numerator := p.down.numerator)));
      SetLimits(t, Limits(t).(all := Limits(t).all.(numerator := p.all.numerator)));
      SetLimits(t, Limits(t).(up := Limits(t).up.(denominator := p.up.denominator)));
      SetLimits(t, Limits(t).(down := Limits(t).down.(denominator := p.down.denominator)));
      SetLimits(t, Limits(t).(all := Limits(t).all.(denominator := p.all.denominator)));
    }

    /** Every maximum and fraction comes from the command; what is counted and when it
        began stays. */
    method LoadLimits(lan: LimitPlan, wan: LimitPlan)
      modifies this`lan, this`wan
      ensures View() == UpdateLimit(old(View()), lan, wan)
      ensures forall d :: this.lan.Flow(d).now == old(this.lan).Flow(d).now &&
                          this.wan.Flow(d).now == old(this.wan).Flow(d).now
      ensures SameClock(this.lan.online, old(this.lan).online) && SameClock(this.wan.online, old(this.wan).online)
      ensures forall d :: (QuotaOver(this.wan.Flow(d)) <==> PlanOver(wan, d, old(this.wan).Flow(d).now)) &&
                          (QuotaOver(this.lan.Flow(d)) <==> PlanOver(lan, d, old(this.lan).Flow(d).now))
    {
      LoadOnline(Lan, lan);
      LoadOnline(Wan, wan);
      LoadFlow(Lan, lan);
      LoadFlow(Wan, wan);
    }

    method FinishAuth(group: int, lan: LimitPlan, wan: LimitPlan, clock: Time)
      modifies this`log, this`state, this`group, this`reason, this`lan, this`wan
      ensures Acc() == EnterAuth(old(Acc()), group, lan, wan, clock)
    {
      state := Auth;
      this.group := group;
      reason := NoReason;
      LoadLimits(lan, wan);
      GoWanOnline(clock);
      RenewAging();
      Emit(Authed);
    }

    method ReauthOverFlow(cfg: Config, t: FlowType, d: Dir)
      modifies this`log
      ensures Acc() == FlowReauth(cfg, old(Acc()), t, d)
    {
      if cfg.reauthable && t == Wan && state == Auth && FlowWarns(wan, d) {
        var _ := ReauthUser();
      }
    }

    /** Charge a packet, warn, and cut an authorisation that is over its WAN quota. */
    method ChargeAndCut(cfg: Config, t: FlowType, d: Dir, len: nat, clock: Time)
      modifies this`log, this`state, this`reason, this`group, this`lan, this`wan
      ensures var a := Account(FlowUpdate(old(View()), t, d, len), old(log) + [Charge(t, d, len)]);
              Acc() == CutWan(FlowReauth(cfg, a, t, d), t, d, clock)
    {
      ChargeFlow(t, d, len);
      log := log + [Charge(t, d, len)];
      ReauthOverFlow(cfg, t, d);
      if t == Wan && state == Auth && FlowOver(wan, d) {
        DeauthUser(FlowLimit, clock);
      }
    }

    /** The first three timer handlers. */
    method HandleTimeouts(cfg: Config, now: Time, clock: Time)
      modifies this`log, this`state, this`reason, this`group, this`lan, this`wan
      ensures Acc() == OnlineTimeout(OnlineReauth(cfg, FakeTimeout(cfg, old(Acc()), now, clock), now), now, clock)
    {
      if state == Fake && Expired(cfg.fake, faketime, now) {
        UnfakeUser(OnlineTime, clock);
      }
      if cfg.reauthable && state == Auth && (OnlineWarns(wan.online, now) || OnlineWarns(lan.online, now)) {
        var _ := ReauthUser();
      }
      if state == Auth && (OnlineOver(wan.online, now) || OnlineOver(lan.online, now)) {
        DeauthUser(OnlineTime, clock);
      }
    }
  }

  /** The hash reduced to the table size (the sizes are powers of two, so that is
      masking with size - 1). */
  function Mask(hash: nat, size: nat): (b: nat)
    requires size > 0
    ensures b < size
  {
    if hash < size then hash else Mask(hash - size, size)
  }

  class UserTable {
    const cfg: Config
    const macHash: Mac -> nat
    const ipHash: Ip -> nat

    // A bucket of the hash library, whose chains are not modelled, is a set of nodes.
    const macs: array<set<UserNode>>
    const ips: array<set<UserNode>>

    ghost var members: set<UserNode>
    ghost var users: map<Mac, UserNode>
    // The logs of MACs that have no user.
    ghost var closed: map<Mac, seq<Entry>>
    // The steps served so far, each with its MAC.
    ghost var trace: seq<(Mac, Op)>

    constructor (cfg: Config, macHash: Mac -> nat, ipHash: Ip -> nat, macSize: nat, ipSize: nat)
      requires macSize > 0 && ipSize > 0
      ensures Valid() && Traced() && trace == [] && fresh(macs) && fresh(ips)
      ensures this.cfg == cfg && members == {}
    {
      this.cfg, this.macHash, this.ipHash := cfg, macHash, ipHash;
      macs := new set<UserNode>[macSize](_ => {});
      ips := new set<UserNode>[ipSize](_ => {});
      members, users, closed, trace := {}, map[], map[], [];
    }

    function MacBucket(mac: Mac): (b: nat)
      requires macs.Length > 0
      ensures b < macs.Length
    {
      Mask(macHash(mac), macs.Length)
    }

    function IpBucket(ip: Ip): (b: nat)
      requires ips.Length > 0
      ensures b < ips.Length
    {
      Mask(ipHash(ip), ips.Length)
    }

    // ----- invariant -----

    /** Exactly the users of s are in the MAC index, each in the bucket of its
        current MAC and no other. */
    ghost predicate MacIndexed(s: set<UserNode>)
      reads macs
    {
      && macs.Length > 0
      && (forall u :: u in s ==> u in macs[MacBucket(u.mac)])
      && (forall b, u :: 0 <= b < macs.Length && u in macs[b] ==> u in s && b == MacBucket(u.mac))
    }

    /** The same for the IP index and the current address. */
    ghost predicate IpIndexed(s: set<UserNode>)
      reads ips, s`ip
    {
      && ips.Length > 0
      && (forall u :: u in s ==> u in ips[IpBucket(u.ip)])
      && (forall b, u :: 0 <= b < ips.Length && u in ips[b] ==> u in s && b == IpBucket(u.ip))
    }

    ghost predicate Indexed(s: set<UserNode>)
      reads macs, ips, s`ip, s`linked
    {
      macs != ips && MacIndexed(s) && IpIndexed(s) && forall u :: u in s ==> u.linked
    }

    ghost predicate Linked()
      reads this`members, macs, ips, members`ip, members`linked
    {
      Indexed(members)
    }

    /** A MAC has at most one user, and the users are the nodes of the table. */
    ghost predicate Keyed()
      reads this`members, this`users
    {
      && (forall m :: m in users ==> users[m].mac == m && users[m] in members)
      && (forall u :: u in members ==> u.mac in users && users[u.mac] == u)
    }

    /** The table's abstract value: what is known about a MAC. */
    ghost function RecordOf(m: Mac): Record
      reads this`users, this`closed, if m in users then {users[m]} else {}
    {
      if m in users then Held(users[m].Acc())
      else Record(Absent, if m in closed then closed[m] else [])
    }

    ghost predicate Valid()
      reads this`members, this`users, macs, ips, members`ip, members`linked
    {
      Linked() && Keyed()
    }

    /** What the table knows of a MAC is what the steps served for it come to. */
    ghost predicate Traced()
      reads this`users, this`closed, this`trace, users.Values
    {
      forall m :: RecordOf(m) == Served(cfg, Unknown, trace, m)
    }

    // ----- the two indexes -----

    /** Takes a node out of the buckets of its present keys. */
    method Remove(u: UserNode, ghost s: set<UserNode>)
      requires Indexed(s) && (u.linked <==> u in s)
      modifies macs, ips, u`linked
      ensures Indexed(s - {u}) && !u.linked
    {
      if !u.linked {
        assert s - {u} == s;
        return;
      }
      macs[MacBucket(u.mac)] := macs[MacBucket(u.mac)] - {u};
      ips[IpBucket(u.ip)] := ips[IpBucket(u.ip)] - {u};
      u.linked := false;
    }

    /** Puts a node in the buckets of its present keys. */
    method Add(u: UserNode, ghost s: set<UserNode>)
      requires Indexed(s) && u !in s
      modifies macs, ips, u`linked
      ensures Indexed(s + {u})
    {
      AddToMacs(u, s);
      AddToIps(u, s);
      u.linked := true;
    }

    method AddToMacs(u: UserNode, ghost s: set<UserNode>)
      requires MacIndexed(s)
      modifies macs
      ensures MacIndexed(s + {u})
    {
      macs[MacBucket(u.mac)] := macs[MacBucket(u.mac)] + {u};
    }

    method AddToIps(u: UserNode, ghost s: set<UserNode>)
      requires IpIndexed(s)
      modifies ips
      ensures IpIndexed(s + {u})
    {
      ips[IpBucket(u.ip)] := ips[IpBucket(u.ip)] + {u};
    }

    method Insert(u: UserNode, ghost s: set<UserNode>)
      requires Indexed(s) && (u.linked <==> u in s)
      modifies macs, ips, u`linked
      ensures Indexed(s + {u})
    {
      if u.linked {
        Remove(u, s);
      }
      assert s + {u} == s - {u} + {u};
      Add(u, s - {u});
    }

    method SetUserIp(u: UserNode, ip: Ip)
      requires Linked() && u in members
      modifies macs, ips, u`ip, u`linked
      ensures Linked() && u.View() == old(u.View()).(ip := ip)
    {
      if ip == u.ip {
        return;
      }
      Remove(u, members);
      u.ip := ip;
      Insert(u, members - {u});
      assert members - {u} + {u} == members;
    }

    /** Finds a user exactly when the MAC is known. */
    method Get(mac: Mac) returns (found: UserNode?)
      requires Linked() && Keyed()
      ensures found == if mac in users then users[mac] else null
    {
      var bucket := macs[MacBucket(mac)];
      while bucket != {}
        invariant bucket <= macs[MacBucket(mac)]
        invariant mac in users ==> users[mac] in bucket
        decreases |bucket|
      {
        var u :| u in bucket;
        if u.mac == mac {
          return u;
        }
        bucket := bucket - {u};
      }
      found := null;
    }

    /** Finds a user exactly when one has that address. */
    method GetByIp(ip: Ip) returns (found: UserNode?)
      requires Linked() && Keyed()
      ensures found == null ==> forall m :: m in users ==> users[m].ip != ip
      ensures found != null ==> found.mac in users && users[found.mac] == found && found.ip == ip
    {
      var bucket := ips[IpBucket(ip)];
      while bucket != {}
        invariant bucket <= ips[IpBucket(ip)]
        invariant forall m :: m in users && users[m].ip == ip ==> users[m] in bucket
        decreases |bucket|
      {
        var u :| u in bucket;
        if u.ip == ip {
          return u;
        }
        bucket := bucket - {u};
      }
      found := null;
    }

    // ----- transitions of one user -----

    method UnbindUser(u: UserNode, reason: Reason, clock: Time)
      requires Linked() && u in members
      modifies macs, ips, u
      ensures Linked() && u.Acc() == DoUnbind(old(u.Acc()), reason, clock)
    {
      var atBind := u.AnnounceUnbind(reason, clock);
      if !atBind {
        return;
      }
      LeaveIp(u, clock);
    }

    method LeaveIp(u: UserNode, clock: Time)
      requires Linked() && u in members
      modifies macs, ips, u
      ensures Linked()
      ensures u.Acc() == old(u.Acc()).(user := LanOffline(old(u.View()).(ip := 0, state := None), clock))
    {
      SetUserIp(u, 0);
      u.FinishUnbind(clock);
    }

    method BlockUser(u: UserNode, clock: Time) returns (ok: bool)
      requires Linked() && u in members
      modifies macs, ips, u
      ensures Linked() && u.Acc() == DoBlock(old(u.Acc()), clock)
      ensures ok <==> old(u.state) != Block
    {
      UnbindUser(u, Blocking, clock);
      if u.state != None {
        return false;
      }
      u.FinishBlock();
      return true;
    }

    /** First unbind a user whose address is to change. */
    method LeaveAddress(u: UserNode, ip: Ip, clock: Time)
      requires Linked() && u in members
      modifies macs, ips, u
      ensures Linked() && u.Acc() == LeaveOldAddress(old(u.Acc()), ip, clock)
    {
      if u.IsBound() && ip != u.ip {
        UnbindUser(u, Auto, clock);
      }
    }

    method BindTo(u: UserNode, ip: Ip, clock: Time)
      requires Linked() && u in members
      modifies macs, ips, u
      ensures Linked() && u.Acc() == EnterBind(cfg, old(u.Acc()), ip, clock)
    {
      SetUserIp(u, ip);
      u.FinishBind(cfg, clock);
    }

    method FakeTo(u: UserNode, ip: Ip, clock: Time)
      requires Linked() && u in members
      modifies macs, ips, u
      ensures Linked() && u.Acc() == EnterFake(cfg, old(u.Acc()), ip, clock)
    {
      SetUserIp(u, ip);
      u.FinishFake(cfg, clock);
    }

    method BindUser(u: UserNode, ip: Ip, clock: Time) returns (ok: bool)
      requires Linked() && u in members
      modifies macs, ips, u
      ensures Linked() && u.Acc() == DoBind(cfg, old(u.Acc()), ip, clock)
      ensures ok <==> old(u.state) != Block
      ensures ok ==> u.ip == ip && u.IsBound()
    {
      ghost var before := u.Acc();
      if before.user.state != Block {
        BindAddress(cfg, before, ip, clock);
      }
      if u.state == Block {
        return false;
      } else if u.IsBound() && ip == u.ip {
        return true;
      }
      LeaveAddress(u, ip, clock);
      if u.state != None {
        return false;
      }
      BindTo(u, ip, clock);
      return true;
    }

    method FakeUser(u: UserNode, ip: Ip, clock: Time) returns (ok: bool)
      requires Linked() && u in members
      modifies macs, ips, u
      ensures Linked() && u.Acc() == DoFake(cfg, old(u.Acc()), ip, clock)
      ensures ok <==> old(u.state) != Block
      ensures ok ==> u.ip == ip && u.IsBound()
    {
      ghost var before := u.Acc();
      if before.user.state != Block {
        FakeAddress(cfg, before, ip, clock);
      }
      if u.state == Block {
        return false;
      } else if u.IsBound() && ip == u.ip {
        return true;
      }
      LeaveAddress(u, ip, clock);
      FakeTo(u, ip, clock);
      return true;
    }

    method AuthUser(u: UserNode, group: int, lan: LimitPlan, wan: LimitPlan, answer: Answer, clock: Time)
      returns (ok: bool)
      requires Linked() && u in members
      modifies macs, ips, u
      ensures Linked() && u.Acc() == DoAuth(cfg, old(u.Acc()), group, lan, wan, answer, clock)
      ensures ok <==> u.state == Auth
      ensures ok ==> u.group == group
    {
      if u.state == Block {
        return false;
      } else if u.state == None {
        if answer == NotFound {
          return false;
        }
        var _ := BindUser(u, answer.ip, clock);
      }
      ghost var b := u.Acc();
      if !u.IsBound() {
        return false;
      }
      u.FinishAuth(group, lan, wan, clock);
      assert u.Acc() == EnterAuth(b, group, lan, wan, clock);
      return true;
    }

    method CutNode(u: UserNode, d: Dir, clock: Time)
      requires Linked() && u in members
      modifies macs, ips, u
      ensures Linked() && u.Acc() == CutLan(old(u.Acc()), d, clock)
    {
      if FlowOver(u.lan, d) {
        UnbindUser(u, FlowLimit, clock);
      }
    }

    method ChargeNode(u: UserNode, t: FlowType, d: Dir, len: nat, clock: Time)
      requires Linked()
      modifies u`log, u`state, u`reason, u`group, u`lan, u`wan
      ensures Linked()
      ensures var a := Account(FlowUpdate(old(u.View()), t, d, len), old(u.log) + [Charge(t, d, len)]);
              u.Acc() == CutWan(FlowReauth(cfg, a, t, d), t, d, clock)
    {
      u.ChargeAndCut(cfg, t, d, len, clock);
    }

    method HandleBound(u: UserNode, t: FlowType, d: Dir, len: nat, clock: Time)
      requires Linked() && u in members
      modifies macs, ips, u
      ensures Linked() && u.Acc() == ChargePacket(cfg, old(u.Acc()), t, d, len, clock)
    {
      ChargeNode(u, t, d, len, clock);
      CutNode(u, d, clock);
      u.RenewAging();
    }

    /** A packet for a user that is there. */
    method HandleFlow(u: UserNode, t: FlowType, d: Dir, len: nat, clock: Time)
      requires Linked() && u in members
      modifies macs, ips, u
      ensures Linked() && u.Acc() == HandlePacket(cfg, old(u.Acc()), t, d, len, clock)
    {
      u.hitime := clock;
      if u.IsBound() {
        HandleBound(u, t, d, len, clock);
      }
    }

    method CountNode(u: UserNode, t: FlowType) returns (runOut: bool)
      requires Linked()
      modifies u`lan, u`wan
      ensures Linked()
      ensures var o := old(u.Limits(t)).online;
              && u.Acc() == (if o.idle == 0 then old(u.Acc())
                             else old(u.Acc()).(user := WithAging(old(u.View()), t, o.aging - cfg.ticks)))
              && (runOut <==> o.idle != 0 && o.aging - cfg.ticks <= 0)
    {
      runOut := u.CountDown(t, cfg.ticks);
    }

    method AgeOnline(u: UserNode, t: FlowType, clock: Time)
      requires Linked() && u in members
      modifies macs, ips, u
      ensures Linked() && u.Acc() == AgeType(cfg, old(u.Acc()), t, clock)
    {
      var runOut := CountNode(u, t);
      if runOut {
        UnbindUser(u, Reason.Aging, clock);
      }
    }

    /** All the timer handlers but the garbage collector. */
    method AgeUser(u: UserNode, now: Time, clock: Time)
      requires Linked() && u in members
      modifies macs, ips, u
      ensures Linked() && u.Acc() == TickUser(cfg, old(u.Acc()), now, clock)
    {
      u.HandleTimeouts(cfg, now, clock);
      if u.IsBound() {
        AgeOnline(u, Wan, clock);
        AgeOnline(u, Lan, clock);
      }
    }

    // ----- commands by MAC -----

    ghost method Enrol(u: UserNode)
      requires Keyed() && u.mac !in users && Indexed(members + {u})
      modifies this`members, this`users
      ensures Valid()
      ensures members == old(members) + {u} && users == old(users)[u.mac := u]
    {
      members, users := members + {u}, users[u.mac := u];
    }

    method NewNode(mac: Mac, ghost log: seq<Entry>, clock: Time) returns (u: UserNode)
      requires Linked()
      modifies macs, ips
      ensures fresh(u) && u.mac == mac && Indexed(members + {u})
      ensures u.Acc() == DoCreate(cfg, log, clock)
    {
      u := new UserNode(mac, log);
      u.Start(cfg, clock);
      Insert(u, members);
      u.Emit(Created);
    }

    /** A new node for an unknown MAC, if there is memory for it. */
    method CreateUser(mac: Mac, clock: Time, memory: bool) returns (u: UserNode?)
      requires Valid() && mac !in users
      modifies this`members, this`users, macs, ips
      ensures Valid() && (u == null <==> !memory)
      ensures u == null ==> members == old(members) && users == old(users)
      ensures u != null ==> fresh(u) && u.mac == mac
      ensures u != null ==> members == old(members) + {u} && users == old(users)[mac := u]
      ensures u != null ==> u.Acc() == DoCreate(cfg, old(RecordOf(mac)).log, clock)
    {
      if !memory {
        return null;
      }
      u := NewNode(mac, RecordOf(mac).log, clock);
      Enrol(u);
    }

    ghost function NodeOf(mac: Mac): set<UserNode>
      reads this`users
    {
      if mac in users then {users[mac]} else {}
    }

    /** No MAC but this one has gained or lost a user. */
    twostate predicate Kept(mac: Mac)
      reads this
    {
      && closed == old(closed)
      && mac in users && users == old(users)[mac := users[mac]]
      && (mac in old(users) ==> users[mac] == old(users)[mac])
      && (mac !in old(users) ==> fresh(users[mac]))
    }

    /** Only this MAC may have gained, lost or replaced a user, and a gained one is new. */
    twostate predicate Changed(mac: Mac)
      reads this
    {
      && (forall m :: m != mac ==> (m in users <==> m in old(users)) && (m in users ==> users[m] == old(users)[m]))
      && (forall m :: m != mac ==> (m in closed <==> m in old(closed)) && (m in closed ==> closed[m] == old(closed)[m]))
      && (mac in users ==> fresh(users[mac]) || (mac in old(users) && users[mac] == old(users)[mac]))
    }

    /** The user of this MAC is gone; its log ends with the deletion. */
    twostate predicate Dropped(mac: Mac, last: Account)
      reads this
    {
      users == old(users) - {mac} && closed == old(closed)[mac := last.Emit(Deleted).log]
    }

    /** No MAC has gained or lost a user. */
    twostate predicate Untouched()
      reads this
    {
      users == old(users) && closed == old(closed)
    }

    /** The user of a MAC, created when there is none and there is memory. */
    method RequestCreate(mac: Mac, clock: Time, memory: bool) returns (u: UserNode?)
      requires Valid()
      modifies this`members, this`users, macs, ips
      ensures Valid() && (u == null <==> old(mac !in users) && !memory)
      ensures u == null ==> Untouched()
      ensures u != null ==> Kept(mac) && u == users[mac]
      ensures u != null ==> u.Acc() == Demand(cfg, old(RecordOf(mac)), clock)
    {
      u := Get(mac);
      if u == null {
        u := CreateUser(mac, clock, memory);
      }
    }

    method RequestBlock(mac: Mac, clock: Time, memory: bool) returns (u: UserNode?)
      requires Valid()
      modifies this`members, this`users, macs, ips, NodeOf(mac)
      ensures Valid() && if old(mac !in users) && !memory then Untouched() else Kept(mac)
      ensures old(mac in users) || memory ==> users[mac].Acc() == DoBlock(Demand(cfg, old(RecordOf(mac)), clock), clock)
      ensures u == null <==> old(if mac in users then users[mac].state == Block else !memory)
    {
      u := RequestCreate(mac, clock, memory);
      if u != null {
        var ok := BlockUser(u, clock);
        u := if ok then u else null;
      }
    }

    method RequestBind(mac: Mac, ip: Ip, clock: Time, memory: bool) returns (u: UserNode?)
      requires Valid()
      modifies this`members, this`users, macs, ips, NodeOf(mac)
      ensures Valid() && if old(mac !in users) && !memory then Untouched() else Kept(mac)
      ensures old(mac in users) || memory ==>
                users[mac].Acc() == DoBind(cfg, Demand(cfg, old(RecordOf(mac)), clock), ip, clock)
      ensures u == null <==> old(if mac in users then users[mac].state == Block else !memory)
      ensures u == null || (mac in users && u == users[mac])
      ensures u != null ==> u.ip == ip && u.IsBound()
    {
      u := RequestCreate(mac, clock, memory);
      if u != null {
        var ok := BindUser(u, ip, clock);
        u := if ok then u else null;
      }
    }

    method RequestFake(mac: Mac, ip: Ip, clock: Time, memory: bool) returns (u: UserNode?)
      requires Valid()
      modifies this`members, this`users, macs, ips, NodeOf(mac)
      ensures Valid() && if old(mac !in users) && !memory then Untouched() else Kept(mac)
      ensures old(mac in users) || memory ==>
                users[mac].Acc() == DoFake(cfg, Demand(cfg, old(RecordOf(mac)), clock), ip, clock)
      ensures u == null <==> old(if mac in users then users[mac].state == Block else !memory)
      ensures u == null || (mac in users && u == users[mac])
      ensures u != null ==> u.ip == ip && u.IsBound()
    {
      u := RequestCreate(mac, clock, memory);
      if u != null {
        var ok := FakeUser(u, ip, clock);
        u := if ok then u else null;
      }
    }

    method RequestAuth(mac: Mac, group: int, lan: LimitPlan, wan: LimitPlan, answer: Answer, clock: Time, memory: bool)
      returns (u: UserNode?)
      requires Valid()
      modifies this`members, this`users, macs, ips, NodeOf(mac)
      ensures Valid() && if old(mac !in users) && !memory then Untouched() else Kept(mac)
      ensures old(mac in users) || memory ==>
                users[mac].Acc() == DoAuth(cfg, Demand(cfg, old(RecordOf(mac)), clock), group, lan, wan, answer, clock)
      ensures u != null <==> mac in users && users[mac].state == Auth
      ensures u != null ==> u == users[mac] && u.group == group
    {
      u := RequestCreate(mac, clock, memory);
      if u != null {
        var ok := AuthUser(u, group, lan, wan, answer, clock);
        u := if ok then u else null;
      }
    }

    method UnblockNode(u: UserNode) returns (ok: bool)
      requires Valid()
      modifies u`log, u`state
      ensures Valid()
      ensures u.Acc() == DoUnblock(old(u.Acc()))
      ensures ok <==> old(u.state) == Block
      ensures ok ==> u.state == None
    {
      ok := u.UnblockUser();
    }

    method RequestUnblock(mac: Mac) returns (ok: bool)
      requires Valid()
      modifies NodeOf(mac)`log, NodeOf(mac)`state
      ensures Valid()
      ensures mac in users ==> users[mac].Acc() == DoUnblock(old(users[mac].Acc()))
      ensures ok <==> old(mac in users && users[mac].state == Block)
      ensures ok ==> users[mac].state == None
    {
      var u := Get(mac);
      if u == null {
        return false;
      }
      ok := UnblockNode(u);
    }

    method RequestUnbind(mac: Mac, clock: Time) returns (known: bool)
      requires Valid()
      modifies macs, ips, NodeOf(mac)
      ensures Valid()
      ensures mac in users ==> users[mac].Acc() == DoUnbind(old(users[mac].Acc()), Initiative, clock)
      ensures known <==> mac in users
    {
      var u := Get(mac);
      if u == null {
        return false;
      }
      UnbindUser(u, Initiative, clock);
      return true;
    }

    method UnfakeNode(u: UserNode, clock: Time)
      requires Valid()
      modifies u`log, u`state, u`reason, u`lan, u`wan
      ensures Valid()
      ensures u.Acc() == DoUnfake(old(u.Acc()), Initiative, clock)
    {
      u.UnfakeUser(Initiative, clock);
    }

    method RequestUnfake(mac: Mac, clock: Time) returns (known: bool)
      requires Valid()
      modifies NodeOf(mac)
      ensures Valid()
      ensures mac in users ==> users[mac].Acc() == DoUnfake(old(users[mac].Acc()), Initiative, clock)
      ensures known <==> mac in users
    {
      var u := Get(mac);
      if u == null {
        return false;
      }
      UnfakeNode(u, clock);
      return true;
    }

    method DeauthNode(u: UserNode, reason: Reason, clock: Time)
      requires Valid()
      modifies u`log, u`state, u`reason, u`group, u`lan, u`wan
      ensures Valid()
      ensures u.Acc() == DoDeauth(old(u.Acc()), reason, clock)
    {
      u.DeauthUser(reason, clock);
    }

    /** A deauth without a valid reason is refused. */
    method RequestDeauth(mac: Mac, reason: Reason, clock: Time) returns (ok: bool)
      requires Valid()
      modifies NodeOf(mac)
      ensures Valid()
      ensures mac in users && !ok ==> users[mac].Acc() == old(users[mac].Acc())
      ensures mac in users && ok ==> users[mac].Acc() == DoDeauth(old(users[mac].Acc()), reason, clock)
      ensures ok <==> mac in users && reason != NoReason
    {
      var u := Get(mac);
      if reason == NoReason || u == null {
        return false;
      }
      DeauthNode(u, reason, clock);
      return true;
    }

    method RequestReauth(mac: Mac) returns (ok: bool)
      requires Valid()
      modifies NodeOf(mac)
      ensures Valid()
      ensures mac in users ==> users[mac].Acc() == DoReauth(old(users[mac].Acc()))
      ensures ok <==> mac in users && users[mac].state == Auth
    {
      var u := Get(mac);
      if u == null {
        return false;
      }
      ok := u.ReauthUser();
    }

    ghost method Retire(u: UserNode)
      requires Keyed() && u in members && Indexed(members - {u})
      modifies this`members, this`users, this`closed
      ensures Valid()
      ensures members == old(members) - {u} && users == old(users) - {u.mac}
      ensures closed == old(closed)[u.mac := u.log]
    {
      members, users, closed := members - {u}, users - {u.mac}, closed[u.mac := u.log];
    }

    method DeleteUser(u: UserNode)
      requires Valid() && u in members
      modifies this`members, this`users, this`closed, macs, ips, u
      ensures Valid() && users == old(users) - {u.mac}
      ensures closed == old(closed)[u.mac := old(u.Acc()).Emit(Deleted).log]
    {
      u.Emit(Deleted);
      Remove(u, members);
      Retire(u);
    }

    method RequestDelete(mac: Mac) returns (known: bool)
      requires Valid()
      modifies this`members, this`users, this`closed, macs, ips, NodeOf(mac)
      ensures Valid() && Changed(mac)
      ensures RecordOf(mac) == UmdModel.Remove(old(RecordOf(mac)))
      ensures known <==> old(mac in users)
    {
      var u := Get(mac);
      if u == null {
        return false;
      }
      DeleteUser(u);
      return true;
    }

    /** What the gc command does to each user. */
    method RequestGc(mac: Mac)
      requires Valid()
      modifies this`members, this`users, this`closed, macs, ips, NodeOf(mac)
      ensures Valid() && Changed(mac)
      ensures RecordOf(mac) == if old(mac in users && users[mac].state == None && users[mac].flags == 0)
                               then UmdModel.Remove(old(RecordOf(mac))) else old(RecordOf(mac))
    {
      var u := Get(mac);
      if u != null && u.state == None && u.flags == 0 {
        DeleteUser(u);
      }
    }

    /** The user of a packet's MAC, made if there is none and that is allowed. */
    method FindOrMake(mac: Mac, ip: Ip, clock: Time, memory: bool) returns (u: UserNode?)
      requires Valid()
      modifies this`members, this`users, macs, ips, NodeOf(mac)
      ensures Valid() && (u == null <==> !old(Reached(mac, memory)))
      ensures u == null ==> Untouched()
      ensures u != null ==> Kept(mac) && u == users[mac]
      ensures u != null ==> u.Acc() == Arrive(cfg, old(RecordOf(mac)), ip, clock)
    {
      u := Get(mac);
      if u == null && cfg.autouser {
        if cfg.fakeable {
          u := RequestFake(mac, ip, clock, memory);
        } else {
          u := RequestBind(mac, ip, clock, memory);
        }
      }
    }

    method RequestPacket(mac: Mac, t: FlowType, d: PacketDir, len: nat, ip: Ip, clock: Time, memory: bool)
      returns (known: bool)
      requires Valid()
      modifies this`members, this`users, macs, ips, NodeOf(mac)
      ensures Valid() && (known <==> old(Reached(mac, memory)))
      ensures !known ==> Untouched()
      ensures known ==> Kept(mac)
      ensures known ==>
                users[mac].Acc() == HandlePacket(cfg, Arrive(cfg, old(RecordOf(mac)), ip, clock), t, d, len, clock)
    {
      var u := FindOrMake(mac, ip, clock, memory);
      if u == null {
        return false;
      }
      HandleFlow(u, t, d, len, clock);
      return true;
    }

    /** The garbage collector, at one user. */
    method CollectNode(u: UserNode, now: Time)
      requires Valid() && u in members
      modifies this`members, this`users, this`closed, macs, ips, u
      ensures Valid()
      ensures if Collectable(cfg, old(u.View()), now) then Dropped(u.mac, old(u.Acc()))
              else Untouched() && u.Acc() == old(u.Acc())
    {
      if Expired(cfg.gcuser, u.noused, now) && u.state == None && u.flags == 0 {
        DeleteUser(u);
      }
    }

    /** One visit of the timer: all handlers, the garbage collector last. */
    method TickNode(u: UserNode, now: Time, clock: Time)
      requires Valid() && u in members
      modifies this`members, this`users, this`closed, macs, ips, u
      ensures Valid() && Changed(u.mac)
      ensures RecordOf(u.mac) == Tick(cfg, old(u.Acc()), now, clock)
    {
      AgeUser(u, now, clock);
      CollectNode(u, now);
    }

    // ----- whole runs -----

    predicate Creates(op: Op) {
      op.OpCreate? || op.OpBlock? || op.OpBind? || op.OpFake? || op.OpAuth?
    }

    /** A command that creates its user, with memory or a user that is there. */
    method CreateAndDo(mac: Mac, op: Op, memory: bool)
      requires Valid() && Creates(op)
      modifies this`members, this`users, macs, ips, NodeOf(mac)
      ensures Valid() && if old(mac !in users) && !memory then Untouched() else Kept(mac)
      ensures old(mac in users) || memory ==> Held(users[mac].Acc()) == Apply(cfg, old(RecordOf(mac)), op)
    {
      match op
      case OpCreate(clock) => var _ := RequestCreate(mac, clock, memory);
      case OpBlock(clock) => var _ := RequestBlock(mac, clock, memory);
      case OpBind(ip, clock) => var _ := RequestBind(mac, ip, clock, memory);
      case OpFake(ip, clock) => var _ := RequestFake(mac, ip, clock, memory);
      case OpAuth(group, lan, wan, answer, clock) =>
        var _ := RequestAuth(mac, group, lan, wan, answer, clock, memory);
    }

    method ExecuteCreating(mac: Mac, op: Op, memory: bool)
      requires Valid() && Creates(op)
      modifies this`members, this`users, macs, ips, NodeOf(mac)
      ensures Valid() && Changed(mac)
      ensures RecordOf(mac) == Attempt(cfg, old(RecordOf(mac)), op, memory)
    {
      CreateAndDo(mac, op, memory);
    }

    predicate Leaves(op: Op) {
      op.OpUnblock? || op.OpUnbind? || op.OpUnfake? || op.OpDeauth? || op.OpReauth?
    }

    method LeaveNode(mac: Mac, op: Op)
      requires Valid() && Leaves(op)
      modifies macs, ips, NodeOf(mac)
      ensures Valid()
      ensures mac in users ==> Held(users[mac].Acc()) == ApplyToUser(cfg, old(users[mac].Acc()), op)
    {
      match op
      case OpUnblock => var _ := RequestUnblock(mac);
      case OpUnbind(clock) => var _ := RequestUnbind(mac, clock);
      case OpUnfake(clock) => var _ := RequestUnfake(mac, clock);
      case OpDeauth(reason, clock) => var _ := RequestDeauth(mac, reason, clock);
      case OpReauth => var _ := RequestReauth(mac);
    }

    method ExecuteLeaving(mac: Mac, op: Op)
      requires Valid() && Leaves(op)
      modifies macs, ips, NodeOf(mac)
      ensures Valid() && Changed(mac)
      ensures RecordOf(mac) == Apply(cfg, old(RecordOf(mac)), op)
    {
      LeaveNode(mac, op);
    }

    method RequestTick(mac: Mac, now: Time, clock: Time)
      requires Valid()
      modifies this`members, this`users, this`closed, macs, ips, NodeOf(mac)
      ensures Valid()
      ensures old(mac in users) ==> Changed(mac) && RecordOf(mac) == Tick(cfg, old(users[mac].Acc()), now, clock)
      ensures old(mac !in users) ==> Untouched()
    {
      var u := Get(mac);
      if u != null {
        TickNode(u, now, clock);
      }
    }

    method ExecuteTick(mac: Mac, now: Time, clock: Time)
      requires Valid()
      modifies this`members, this`users, this`closed, macs, ips, NodeOf(mac)
      ensures Valid() && Changed(mac)
      ensures RecordOf(mac) == Apply(cfg, old(RecordOf(mac)), OpTick(now, clock))
    {
      RequestTick(mac, now, clock);
    }

    method ExecutePacket(mac: Mac, op: Op, memory: bool) returns (known: bool)
      requires Valid() && op.OpPacket?
      modifies this`members, this`users, macs, ips, NodeOf(mac)
      ensures Valid() && Changed(mac)
      ensures RecordOf(mac) == Attempt(cfg, old(RecordOf(mac)), op, memory)
      ensures (known <==> old(Reached(mac, memory))) && (mac in users <==> known)
    {
      known := RequestPacket(mac, op.flow, op.dir, op.len, op.ip, op.clock, memory);
    }

    /** A packet is refused when its user is not there and may not or cannot be made. */
    ghost predicate Reached(mac: Mac, memory: bool)
      reads this`users
    {
      mac in users || (cfg.autouser && memory)
    }

    predicate Drops(op: Op) { op.OpTick? || op.OpDelete? || op.OpGc? }

    method ExecuteDropping(mac: Mac, op: Op)
      requires Valid() && Drops(op)
      modifies this`members, this`users, this`closed, macs, ips, NodeOf(mac)
      ensures Valid() && Changed(mac)
      ensures RecordOf(mac) == Apply(cfg, old(RecordOf(mac)), op)
    {
      match op
      case OpTick(now, clock) => ExecuteTick(mac, now, clock);
      case OpDelete => var _ := RequestDelete(mac);
      case OpGc => RequestGc(mac);
    }

    /** Any step for one MAC does to its record what the model says. */
    method Execute(mac: Mac, op: Op, memory: bool) returns (ok: bool)
      requires Valid()
      modifies this`members, this`users, this`closed, macs, ips, NodeOf(mac)
      ensures Valid() && Changed(mac)
      ensures RecordOf(mac) == Attempt(cfg, old(RecordOf(mac)), op, memory)
      ensures op.OpPacket? ==> (ok <==> old(Reached(mac, memory))) && (mac in users <==> ok)
    {
      ok := true;
      if Creates(op) {
        ExecuteCreating(mac, op, memory);
      } else if Leaves(op) {
        ExecuteLeaving(mac, op);
      } else if op.OpPacket? {
        ok := ExecutePacket(mac, op, memory);
      } else {
        ExecuteDropping(mac, op);
      }
    }

    /** Steps for one MAC do not show at another. */
    twostate lemma OthersSame(mac: Mac)
      requires old(Keyed()) && Changed(mac)
      requires forall v :: v in old(members) && v.mac != mac ==> v.Acc() == old(v.Acc())
      ensures forall m :: m != mac ==> RecordOf(m) == old(RecordOf(m)) && (m in users <==> m in old(users))
    {
    }

    twostate lemma MembersSame(mac: Mac)
      requires old(Keyed()) && Keyed() && Changed(mac)
      ensures fresh(members - old(members))
    {
    }

    method ExecuteAlone(mac: Mac, op: Op, memory: bool) returns (ok: bool)
      requires Valid()
      modifies this`members, this`users, this`closed, macs, ips, NodeOf(mac)
      ensures Valid() && fresh(members - old(members))
      ensures RecordOf(mac) == Attempt(cfg, old(RecordOf(mac)), op, memory)
      ensures forall m :: m != mac ==> RecordOf(m) == old(RecordOf(m)) && (m in users <==> m in old(users))
      ensures op.OpPacket? ==> (ok <==> old(Reached(mac, memory))) && (mac in users <==> ok)
    {
      ok := Execute(mac, op, memory);
      OthersSame(mac);
      MembersSame(mac);
    }

    /** What an attempt adds to the trace: its step, unless that is refused. */
    ghost function Entered(t: Try): seq<(Mac, Op)>
      reads this`users
    {
      if Refused(cfg, t.mac in users, t.op, t.memory) then [] else [(t.mac, t.op)]
    }

    /** A step, entered in the trace. */
    method ServeOne(mac: Mac, op: Op, memory: bool) returns (ok: bool)
      requires Valid() && Traced()
      modifies this`members, this`users, this`closed, this`trace, macs, ips, NodeOf(mac)
      ensures Valid() && Traced() && fresh(members - old(members))
      ensures trace == old(trace) + old(Entered(Try(mac, op, memory)))
      ensures forall m :: m != mac ==> (m in users <==> m in old(users))
      ensures op.OpPacket? ==> (ok <==> old(Reached(mac, memory))) && (mac in users <==> ok)
    {
      ghost var t := Try(mac, op, memory);
      ghost var steps := Entered(t);
      ok := ExecuteAlone(mac, op, memory);
      NextInTrace(t);
      Enter(steps);
    }

    ghost method Enter(steps: seq<(Mac, Op)>)
      requires forall m :: RecordOf(m) == Served(cfg, Unknown, trace + steps, m)
      modifies this`trace
      ensures Traced() && trace == old(trace) + steps
    {
      trace := trace + steps;
    }

    twostate lemma NextInTrace(t: Try)
      requires old(Traced()) && trace == old(trace)
      requires RecordOf(t.mac) == Attempt(cfg, old(RecordOf(t.mac)), t.op, t.memory)
      requires forall m :: m != t.mac ==> RecordOf(m) == old(RecordOf(m))
      ensures forall m :: RecordOf(m) == Served(cfg, Unknown, trace + old(Entered(t)), m)
    {
      ghost var steps := old(Entered(t));
      forall m ensures RecordOf(m) == Served(cfg, Unknown, trace + steps, m) {
        if steps == [] {
          assert trace + steps == trace;
        } else {
          ServedMore(cfg, Unknown, trace, (t.mac, t.op), m);
        }
      }
    }

    method ServeTry(t: Try)
      requires Valid() && Traced()
      modifies this, macs, ips, members
      ensures Valid() && Traced() && fresh(members - old(members))
      ensures forall m :: RecordOf(m) == OneTried(cfg, old(RecordOf(m)), t, m)
    {
      ghost var before, steps := trace, Entered(t);
      var _ := ServeOne(t.mac, t.op, t.memory);
      forall m ensures RecordOf(m) == OneTried(cfg, old(RecordOf(m)), t, m) {
        if steps == [] {
          assert before + steps == before;
        } else {
          ServedMore(cfg, Unknown, before, (t.mac, t.op), m);
        }
      }
    }

    /** The table serves any sequence of attempts, with and without memory for them. */
    method Serve(tries: seq<Try>)
      requires Valid() && Traced()
      modifies this, macs, ips, members
      ensures Valid() && Traced() && fresh(members - old(members))
      ensures forall m :: RecordOf(m) == Tried(cfg, old(RecordOf(m)), tries, m)
    {
      for i := 0 to |tries|
        invariant Valid() && Traced() && fresh(members - old(members))
        invariant forall m :: RecordOf(m) == Tried(cfg, old(RecordOf(m)), tries[..i], m)
      {
        ServeTry(tries[i]);
        assert tries[..i + 1][..i] == tries[..i];
      }
      assert tries[..|tries|] == tries;
    }

    /** One visit of a sweep. */
    method VisitUser(v: Visit, now: Time)
      requires Valid() && Traced()
      modifies this, macs, ips, members
      ensures Valid() && Traced() && fresh(members - old(members))
      ensures forall m :: RecordOf(m) ==
                          if m == v.mac then Apply(cfg, old(RecordOf(m)), OpTick(now, v.clock)) else old(RecordOf(m))
    {
      ServeTry(Try(v.mac, OpTick(now, v.clock), true));
    }

    /** The MACs in a bucket. */
    method BucketMacs(b: nat) returns (todo: set<Mac>)
      requires Valid() && b < macs.Length
      ensures forall m :: m in users && MacBucket(m) == b ==> m in todo
    {
      todo := set u | u in macs[b] :: u.mac;
      forall m | m in users && MacBucket(m) == b ensures m in todo {
        assert users[m] in macs[b];
      }
    }

    /** The walk along one bucket: all users that hash to it are visited, in some order,
        each at the time that its clock tells. */
    method WalkBucket(b: nat, now: Time, clocks: Mac -> Time) returns (ghost visits: seq<Visit>)
      requires Valid() && Traced() && b < macs.Length
      modifies this, macs, ips, members
      ensures Valid() && Traced() && fresh(members - old(members))
      ensures forall m :: RecordOf(m) == Swept(cfg, old(RecordOf(m)), visits, now, m)
      ensures forall m :: m in old(users) && MacBucket(m) == b ==> Visited(visits, m)
    {
      var todo := BucketMacs(b);
      visits := [];
      while todo != {}
        invariant Valid() && Traced() && fresh(members - old(members))
        invariant forall m :: RecordOf(m) == Swept(cfg, old(RecordOf(m)), visits, now, m)
        invariant forall m :: m in old(users) && MacBucket(m) == b ==> m in todo || Visited(visits, m)
        decreases |todo|
      {
        var mac :| mac in todo;
        ghost var v := Visit(mac, clocks(mac));
        VisitUser(Visit(mac, clocks(mac)), now);
        forall m
          ensures RecordOf(m) == Swept(cfg, old(RecordOf(m)), visits + [v], now, m)
          ensures Visited(visits + [v], m) <==> Visited(visits, m) || m == mac
        {
          SweptMore(cfg, old(RecordOf(m)), visits, v, now, m);
          VisitedMore(visits, v, m);
        }
        visits, todo := visits + [v], todo - {mac};
      }
    }

    /** A timer sweep at time `now` walks all the buckets. It visits every user, and
        leaves each one quiet. */
    method UserTimer(now: Time, clocks: Mac -> Time) returns (ghost visits: seq<Visit>)
      requires Valid() && Traced()
      modifies this, macs, ips, members
      ensures Valid() && Traced() && fresh(members - old(members))
      ensures forall m :: RecordOf(m) == Swept(cfg, old(RecordOf(m)), visits, now, m)
      ensures forall m :: m in old(users) ==> Visited(visits, m)
      ensures forall m :: Quiet(cfg, RecordOf(m), now)
    {
      visits := [];
      for b := 0 to macs.Length
        invariant Valid() && Traced() && fresh(members - old(members))
        invariant forall m :: RecordOf(m) == Swept(cfg, old(RecordOf(m)), visits, now, m)
        invariant forall m :: m in old(users) && MacBucket(m) < b ==> Visited(visits, m)
      {
        ghost var before := users;
        ghost var more := WalkBucket(b, now, clocks);
        forall m
          ensures RecordOf(m) == Swept(cfg, old(RecordOf(m)), visits + more, now, m)
          ensures Visited(visits + more, m) <==> Visited(visits, m) || Visited(more, m)
          ensures m in old(users) && !Visited(visits, m) ==> m in before
        {
          SweptSplit(cfg, old(RecordOf(m)), visits, more, now, m);
          SweepQuiets(cfg, old(RecordOf(m)), visits, now, m);
        }
        visits := visits + more;
      }
      forall m ensures Quiet(cfg, RecordOf(m), now) {
        SweepQuiets(cfg, old(RecordOf(m)), visits, now, m);
      }
    }

    /** Deletes a user that has the address, if there is one. */
    method DeleteByIp(ip: Ip) returns (found: bool, mac: Mac)
      requires Valid() && Traced()
      modifies this, macs, ips, members
      ensures Valid() && Traced() && fresh(members - old(members))
      ensures !found ==> users == old(users) && forall m :: m in users ==> users[m].ip != ip
      ensures found ==> old(mac in users && users[mac].ip == ip) && mac !in users
      ensures forall m :: RecordOf(m) ==
                          if found && m == mac then UmdModel.Remove(old(RecordOf(m))) else old(RecordOf(m))
    {
      var u := GetByIp(ip);
      if u == null {
        return false, 0;
      }
      found, mac := true, u.mac;
      ServeTry(Try(mac, OpDelete, true));
      forall m
        ensures RecordOf(m) == if m == mac then UmdModel.Remove(old(RecordOf(m))) else old(RecordOf(m))
      {
        DeleteTried(cfg, old(RecordOf(m)), mac, m);
      }
      assert RecordOf(mac) == UmdModel.Remove(old(RecordOf(mac)));
    }
  }

  lemma DeleteTried(cfg: Config, r: Record, mac: Mac, m: Mac)
    ensures OneTried(cfg, r, Try(mac, OpDelete, true), m) == if m == mac then UmdModel.Remove(r) else r
  {
  }

  /** A step that is attempted, with or without memory for a new user. */
  datatype Try = Try(mac: Mac, op: Op, memory: bool)

  function OneTried(cfg: Config, r: Record, t: Try, m: Mac): Record {
    if t.mac == m then Attempt(cfg, r, t.op, t.memory) else r
  }

  /** What a sequence of attempts makes of one MAC. */
  function Tried(cfg: Config, r: Record, tries: seq<Try>, m: Mac): Record {
    if |tries| == 0 then r
    else OneTried(cfg, Tried(cfg, r, tries[..|tries| - 1], m), tries[|tries| - 1], m)
  }

  /** What a sequence of steps makes of one MAC. */
  function Served(cfg: Config, r: Record, steps: seq<(Mac, Op)>, m: Mac): Record {
    if |steps| == 0 then r
    else
      var before, last := Served(cfg, r, steps[..|steps| - 1], m), steps[|steps| - 1];
      if last.0 == m then Apply(cfg, before, last.1) else before
  }

  lemma ServedMore(cfg: Config, r: Record, steps: seq<(Mac, Op)>, s: (Mac, Op), m: Mac)
    ensures Served(cfg, r, steps + [s], m) ==
            if s.0 == m then Apply(cfg, Served(cfg, r, steps, m), s.1) else Served(cfg, r, steps, m)
  {
    assert (steps + [s])[..|steps|] == steps;
  }

  /** So from an empty table every MAC's record is the outcome of a run, and all that
      holds of runs holds of the table. */
  lemma {:induction false} ServedIsRun(cfg: Config, steps: seq<(Mac, Op)>, m: Mac) returns (ops: seq<Op>)
    ensures Served(cfg, Unknown, steps, m) == Run(cfg, ops)
  {
    if |steps| == 0 {
      ops := [];
    } else {
      ops := ServedIsRun(cfg, steps[..|steps| - 1], m);
      var last := steps[|steps| - 1];
      if last.0 == m {
        RunMore(cfg, ops, last.1);
        ops := ops + [last.1];
      }
    }
  }
}
