/** Packet handling: the stages a frame passes, the counters they keep, and which
    users a frame is charged to. */
module UmdFlow {
  import opened UmdModel
  import opened UmdSafety
  import opened UmdManual
  import opened UmdTold
  import opened UmdTable

  datatype EtherType = Ipv4 | Vlan | Other

  datatype ConnDir =
    | Dev2Dev | Dev2User | Dev2Lan | Dev2Wan
    | User2Dev | User2User | User2Lan | User2Wan
    | Lan2Dev | Lan2User | Lan2Lan | Lan2Wan
    | Wan2Dev | Wan2User | Wan2Lan | Wan2Wan

  /** What the stages look at in a frame. The direction is computed elsewhere. */
  datatype Frame = Frame(len: nat, onIngress: bool, ether: EtherType, smacGood: bool, dmacGood: bool,
                         vlanCarriesIp: bool, version: nat, headerLen: nat,
                         dir: ConnDir, smac: Mac, dmac: Mac, sip: Ip, dip: Ip)

  // ----- the direction of a frame -----

  datatype Net = Net(ip: bv32, mask: bv32) {
    predicate Has(a: bv32) { a & mask == ip & mask }
  }

  /** The three worlds an address can be in: the ingress's, a plan's, or all others. */
  datatype World = OfUsers | OfLan | OfWan

  function WorldOf(a: bv32, ingress: Net, plans: seq<Net>): World {
    if ingress.Has(a) then OfUsers
    else if exists i :: 0 <= i < |plans| && plans[i].Has(a) then OfLan
    else OfWan
  }

  /** By MACs first, whether they are the device's own, and then by addresses. */
  function Direction(sdev: bool, ddev: bool, from: World, to: World): ConnDir {
    if sdev then
      if ddev then Dev2Dev
      else match to case OfUsers => Dev2User case OfLan => Dev2Lan case OfWan => Dev2Wan
    else
      match from
      case OfUsers =>
        if ddev then User2Dev
        else (match to case OfUsers => User2User case OfLan => User2Lan case OfWan => User2Wan)
      case OfLan =>
        if ddev then Lan2Dev
        else (match to case OfUsers => Lan2Dev case OfLan => Lan2Lan case OfWan => Lan2Wan)
      case OfWan =>
        if ddev then Wan2Dev
        else (match to case OfUsers => Wan2User case OfLan => Wan2Lan case OfWan => Wan2Wan)
  }

  /** The addresses as they stand in a frame. */
  datatype Ends = Ends(sdev: bool, ddev: bool, sip: bv32, dip: bv32)

  function DirectionOf(e: Ends, ingress: Net, plans: seq<Net>): ConnDir {
    Direction(e.sdev, e.ddev, WorldOf(e.sip, ingress, plans), WorldOf(e.dip, ingress, plans))
  }

  // ----- which users a frame is charged to -----

  datatype Share = Share(mac: Mac, ip: Ip, flow: FlowType, dir: PacketDir)

  /** The user of a charge: the source for up, the destination for down. */
  function ShareOf(f: Frame, t: FlowType, d: PacketDir): Share {
    if d == Up then Share(f.smac, f.sip, t, d) else Share(f.dmac, f.dip, t, d)
  }

  /** Whom a frame is charged to; between two users the receiver comes first. */
  function Shares(f: Frame): seq<Share> {
    match f.dir
    case Dev2User => [ShareOf(f, Lan, Down)]
    case User2Dev => [ShareOf(f, Lan, Up)]
    case User2User => if f.sip == f.dip then [] else [ShareOf(f, Lan, Down), ShareOf(f, Lan, Up)]
    case User2Lan => [ShareOf(f, Lan, Up)]
    case User2Wan => [ShareOf(f, Wan, Up)]
    case Lan2User => [ShareOf(f, Lan, Down)]
    case Wan2User => [ShareOf(f, Wan, Down)]
    case _ => []
  }

  /** What a frame meets: the clock, and whether there is memory for the users it may
      have to make. */
  datatype Moment = Moment(clock: Time, first: bool, second: bool)

  function StepOf(s: Share, len: nat, clock: Time): (Mac, Op) {
    (s.mac, OpPacket(s.flow, s.dir, len, s.ip, clock))
  }

  /** The steps of shares: those whose user is there or is made; the second of two is
      served only if the first is. */
  function StepsOf(ss: seq<Share>, len: nat, known: set<Mac>, cfg: Config, at: Moment): seq<(Mac, Op)> {
    if |ss| == 0 || !Reachable(ss[0].mac, known, cfg, at.first) then []
    else if |ss| == 1 || !Reachable(ss[1].mac, known + {ss[0].mac}, cfg, at.second) then [StepOf(ss[0], len, at.clock)]
    else [StepOf(ss[0], len, at.clock), StepOf(ss[1], len, at.clock)]
  }

  function Steps(f: Frame, known: set<Mac>, cfg: Config, at: Moment): seq<(Mac, Op)> {
    if HeaderOk(f) then StepsOf(Shares(f), f.len, known, cfg, at) else []
  }

  predicate HeaderOk(f: Frame) { f.version == 4 && f.headerLen == 5 }

  predicate Reachable(m: Mac, known: set<Mac>, cfg: Config, memory: bool) { m in known || (cfg.autouser && memory) }

  predicate AllReachable(ss: seq<Share>, known: set<Mac>, cfg: Config, at: Moment) {
    && |ss| > 0 && Reachable(ss[0].mac, known, cfg, at.first)
    && (|ss| > 1 ==> Reachable(ss[1].mac, known + {ss[0].mac}, cfg, at.second))
  }

  /** A frame is accepted when it has users to be charged to, and all of them are
      there or are made. */
  predicate Accepted(f: Frame, known: set<Mac>, cfg: Config, at: Moment) {
    HeaderOk(f) && AllReachable(Shares(f), known, cfg, at)
  }

  lemma TwoSteps(s: Share, t: Share, len: nat, known: set<Mac>, cfg: Config, at: Moment, trace: seq<(Mac, Op)>)
    ensures var first := Reachable(s.mac, known, cfg, at.first);
            var second := Reachable(t.mac, known + {s.mac}, cfg, at.second);
            && (AllReachable([s, t], known, cfg, at) <==> first && second)
            && trace + StepsOf([s, t], len, known, cfg, at) ==
               if !first then trace + []
               else if !second then trace + [StepOf(s, len, at.clock)] + []
               else trace + [StepOf(s, len, at.clock)] + [StepOf(t, len, at.clock)]
  {
  }

  // ----- charges in a log -----

  /** The charges among the entries of a log. */
  function Charges(log: seq<Entry>): seq<Entry> {
    if |log| == 0 then []
    else
      var before, e := Charges(log[..|log| - 1]), log[|log| - 1];
      if e.Charge? then before + [e] else before
  }

  lemma ChargesMore(log: seq<Entry>, e: Entry)
    ensures Charges(log + [e]) == if e.Charge? then Charges(log) + [e] else Charges(log)
  {
    assert (log + [e])[..|log|] == log;
  }

  lemma EmitCharges(a: Account, action: Action)
    ensures Charges(a.Emit(action).log) == Charges(a.log)
  {
    ChargesMore(a.log, Event(action, a.user));
  }

  lemma DeauthCharges(a: Account, reason: Reason, clock: Time)
    ensures Charges(DoDeauth(a, reason, clock).log) == Charges(a.log)
  {
    EmitCharges(a.(user := a.user.(reason := reason)), Deauthed);
  }

  lemma UnfakeCharges(a: Account, reason: Reason, clock: Time)
    ensures Charges(DoUnfake(a, reason, clock).log) == Charges(a.log)
  {
    EmitCharges(a.(user := a.user.(reason := reason)), Unfaked);
  }

  lemma UnbindCharges(a: Account, reason: Reason, clock: Time)
    ensures Charges(DoUnbind(a, reason, clock).log) == Charges(a.log)
  {
    DeauthCharges(a, reason, clock);
    var b := DoDeauth(a, reason, clock);
    UnfakeCharges(b, reason, clock);
    var c := DoUnfake(b, reason, clock);
    EmitCharges(c.(user := c.user.(reason := reason)), Unbound);
  }

  lemma OverflowCharges(a: Account, t: FlowType, d: Dir, clock: Time)
    ensures Charges(Overflow(a, t, d, clock).log) == Charges(a.log)
  {
    DeauthCharges(a, FlowLimit, clock);
    UnbindCharges(CutWan(a, t, d, clock), FlowLimit, clock);
  }

  /** A packet for a bound user leaves exactly one charge, of its own length and
      direction, whatever warnings and cut-offs it sets off. */
  lemma OneCharge(cfg: Config, a: Account, t: FlowType, d: PacketDir, len: nat, clock: Time)
    ensures Charges(HandlePacket(cfg, a, t, d, len, clock).log) ==
            if a.user.HaveBind() then Charges(a.log) + [Charge(t, d, len)] else Charges(a.log)
  {
    if a.user.HaveBind() {
      var b := Charged(a.(user := a.user.(hitime := clock)), t, d, len);
      ChargesMore(a.log, Charge(t, d, len));
      EmitCharges(b, Reauthed);
      var c := FlowReauth(cfg, b, t, d);
      OverflowCharges(c, t, d, clock);
    }
  }

  /** A packet is charged to a user with a binding, and to one that is made for it. */
  predicate Chargeable(cfg: Config, r: Record) {
    if r.slot.Present? then r.slot.user.HaveBind() else cfg.autouser
  }

  lemma ArriveCharges(cfg: Config, r: Record, ip: Ip, clock: Time)
    ensures Charges(Arrive(cfg, r, ip, clock).log) == Charges(r.log)
    ensures Arrive(cfg, r, ip, clock).user.HaveBind() <==> !r.slot.Present? || r.slot.user.HaveBind()
  {
    if r.slot.Absent? {
      var a := DoCreate(cfg, r.log, clock);
      ChargesMore(r.log, Event(Created, a.user));
      ChargesMore(a.log, Event(Faked, EnterFake(cfg, a, ip, clock).user));
      ChargesMore(a.log, Event(Bound, EnterBind(cfg, a, ip, clock).user));
    }
  }

  lemma PacketCharges(cfg: Config, r: Record, op: Op)
    requires op.OpPacket?
    ensures Charges(Apply(cfg, r, op).log) ==
            Charges(r.log) + if Chargeable(cfg, r) then [Charge(op.flow, op.dir, op.len)] else []
  {
    ArriveCharges(cfg, r, op.ip, op.clock);
    OneCharge(cfg, Arrive(cfg, r, op.ip, op.clock), op.flow, op.dir, op.len, op.clock);
    PacketIs(cfg, r, op);
  }

  lemma PacketIs(cfg: Config, r: Record, op: Op)
    requires op.OpPacket?
    ensures var a := Arrive(cfg, r, op.ip, op.clock);
            Apply(cfg, r, op) == if r.slot.Present? || cfg.autouser
                                 then Held(HandlePacket(cfg, a, op.flow, op.dir, op.len, op.clock)) else r
  {
  }

  /** What packets charge to a MAC, each by the state it meets. */
  function Due(cfg: Config, trace: seq<(Mac, Op)>, steps: seq<(Mac, Op)>, m: Mac): seq<Entry> {
    if |steps| == 0 then []
    else
      var before, s := steps[..|steps| - 1], steps[|steps| - 1];
      Due(cfg, trace, before, m) +
      if s.0 == m && s.1.OpPacket? && Chargeable(cfg, Served(cfg, Unknown, trace + before, m))
      then [Charge(s.1.flow, s.1.dir, s.1.len)] else []
  }

  lemma {:induction false} PacketsCharge(cfg: Config, trace: seq<(Mac, Op)>, steps: seq<(Mac, Op)>, m: Mac)
    requires forall i :: 0 <= i < |steps| ==> steps[i].1.OpPacket?
    ensures Charges(Served(cfg, Unknown, trace + steps, m).log) ==
            Charges(Served(cfg, Unknown, trace, m).log) + Due(cfg, trace, steps, m)
  {
    if |steps| == 0 {
      assert trace + steps == trace;
    } else {
      var before, s := steps[..|steps| - 1], steps[|steps| - 1];
      assert trace + steps == trace + before + [s];
      PacketsCharge(cfg, trace, before, m);
      ServedMore(cfg, Unknown, trace + before, s, m);
      PacketCharges(cfg, Served(cfg, Unknown, trace + before, m), s.1);
    }
  }

  /** Any frame is charged to its users and to nobody else: in full, in their order, and
      to each that has a binding when its turn comes. */
  lemma FrameCharges(cfg: Config, trace: seq<(Mac, Op)>, f: Frame, known: set<Mac>, at: Moment, m: Mac)
    ensures var steps := Steps(f, known, cfg, at);
            Charges(Served(cfg, Unknown, trace + steps, m).log) ==
            Charges(Served(cfg, Unknown, trace, m).log) + Due(cfg, trace, steps, m)
  {
    PacketsCharge(cfg, trace, Steps(f, known, cfg, at), m);
  }

  function ServedStep(cfg: Config, r: Record, s: (Mac, Op), m: Mac): Record {
    if s.0 == m then Apply(cfg, r, s.1) else r
  }

  /** A frame between two users is charged down to the receiver and then up to the
      sender, once each: to the one if it has a binding or is made, to the other if it has
      one or is made when the receiver is served. */
  lemma UserToUserCharges(cfg: Config, trace: seq<(Mac, Op)>, f: Frame, known: set<Mac>, at: Moment, m: Mac)
    requires HeaderOk(f) && f.dir == User2User && f.sip != f.dip
    ensures var first := Reachable(f.dmac, known, cfg, at.first);
            var both := first && Reachable(f.smac, known + {f.dmac}, cfg, at.second);
            var before := Served(cfg, Unknown, trace, m);
            var between := ServedStep(cfg, before, StepOf(ShareOf(f, Lan, Down), f.len, at.clock), m);
            Charges(Served(cfg, Unknown, trace + Steps(f, known, cfg, at), m).log) ==
            Charges(before.log) +
            (if m == f.dmac && first && Chargeable(cfg, before) then [Charge(Lan, Down, f.len)] else []) +
            (if m == f.smac && both && Chargeable(cfg, between) then [Charge(Lan, Up, f.len)] else [])
  {
    var s, t := StepOf(ShareOf(f, Lan, Down), f.len, at.clock), StepOf(ShareOf(f, Lan, Up), f.len, at.clock);
    var steps := Steps(f, known, cfg, at);
    BothSteps(f, known, cfg, at);
    if steps == [] {
      assert trace + steps == trace;
    } else {
      StepCharges(cfg, trace, s, m);
      if steps == [s, t] {
        assert trace + steps == trace + [s] + [t];
        StepCharges(cfg, trace + [s], t, m);
      }
    }
  }

  lemma BothSteps(f: Frame, known: set<Mac>, cfg: Config, at: Moment)
    requires HeaderOk(f) && f.dir == User2User && f.sip != f.dip
    ensures var first := Reachable(f.dmac, known, cfg, at.first);
            var both := first && Reachable(f.smac, known + {f.dmac}, cfg, at.second);
            var s, t := StepOf(ShareOf(f, Lan, Down), f.len, at.clock), StepOf(ShareOf(f, Lan, Up), f.len, at.clock);
            Steps(f, known, cfg, at) == if both then [s, t] else if first then [s] else []
  {
  }

  /** One packet more, as a MAC sees it. */
  lemma StepCharges(cfg: Config, trace: seq<(Mac, Op)>, s: (Mac, Op), m: Mac)
    requires s.1.OpPacket?
    ensures var before := Served(cfg, Unknown, trace, m);
            && Served(cfg, Unknown, trace + [s], m) == ServedStep(cfg, before, s, m)
            && Charges(Served(cfg, Unknown, trace + [s], m).log) ==
               Charges(before.log) +
               if m == s.0 && Chargeable(cfg, before) then [Charge(s.1.flow, s.1.dir, s.1.len)] else []
  {
    ServedMore(cfg, Unknown, trace, s, m);
    PacketCharges(cfg, Served(cfg, Unknown, trace, m), s.1);
  }

  // ----- the tolls -----

  /** What a direction is to a user at one end of it. */
  datatype Toll = NoToll | Toll(flow: FlowType)

  /** For the source, up. */
  function SourceToll(d: ConnDir): Toll {
    if d == User2Wan then Toll(Wan)
    else if d == User2Dev || d == User2User || d == User2Lan then Toll(Lan)
    else NoToll
  }

  /** For the destination, down. */
  function TargetToll(d: ConnDir): Toll {
    if d == Wan2User then Toll(Wan)
    else if d == Dev2User || d == User2User || d == Lan2User then Toll(Lan)
    else NoToll
  }

  /** A frame that is for the IP stage, with a plain header. */
  predicate Proper(f: Frame) {
    && f.onIngress && f.smacGood && f.dmacGood && f.version == 4 && f.headerLen == 5
    && (f.ether == Ipv4 || (f.ether == EtherType.Vlan && f.vlanCarriesIp))
  }

  /** A frame that a user sends to its own address is not for anybody. */
  predicate ToItself(f: Frame) { f.dir == User2User && f.sip == f.dip }

  /** The user of a record pays: it has a binding, or is made now. */
  predicate Pays(cfg: Config, r: Record, memory: bool) {
    if r.slot.Present? then HasBinding(Shown(r)) else cfg.autouser && memory
  }

  /** The binding, if there is one, survives the frame being counted down. */
  predicate Survives(r: Record, len: nat) { r.slot.Present? ==> !FullFor(r.slot.user.lan, Down, len) }

  predicate There(m: Mac, known: set<Mac>, cfg: Config, memory: bool) { m in known || (cfg.autouser && memory) }

  /** The frame comes to its source: between users only after its destination, which may be
      the same user. */
  predicate ComesToSource(cfg: Config, f: Frame, known: set<Mac>, at: Moment, r: Record) {
    if f.dir != User2User then Pays(cfg, r, at.first)
    else if f.smac == f.dmac then Pays(cfg, r, at.first) && Survives(r, f.len)
    else There(f.dmac, known, cfg, at.first) && Pays(cfg, r, at.second)
  }

  /** What a frame adds to the charges of a MAC with this record. */
  function Tolls(cfg: Config, f: Frame, known: set<Mac>, at: Moment, m: Mac, r: Record): seq<Entry> {
    if !Proper(f) || ToItself(f) then []
    else
      (if m == f.dmac && TargetToll(f.dir).Toll? && Pays(cfg, r, at.first)
       then [Charge(TargetToll(f.dir).flow, Down, f.len)] else []) +
      (if m == f.smac && SourceToll(f.dir).Toll? && ComesToSource(cfg, f, known, at, r)
       then [Charge(SourceToll(f.dir).flow, Up, f.len)] else [])
  }

  /** The users that are known are those with a record. */
  ghost predicate KnownAre(cfg: Config, trace: seq<(Mac, Op)>, known: set<Mac>) {
    forall k :: k in known <==> Served(cfg, Unknown, trace, k).slot.Present?
  }

  function StepsFor(f: Frame, known: set<Mac>, cfg: Config, at: Moment): seq<(Mac, Op)> {
    if ReachesIp(f) then Steps(f, known, cfg, at) else []
  }

  lemma OneToll(cfg: Config, trace: seq<(Mac, Op)>, s: Share, len: nat, known: set<Mac>, at: Moment, m: Mac)
    requires KnownAre(cfg, trace, known)
    ensures var before := Served(cfg, Unknown, trace, m);
            Charges(Served(cfg, Unknown, trace + StepsOf([s], len, known, cfg, at), m).log) ==
            Charges(before.log) + if m == s.mac && Pays(cfg, before, at.first) then [Charge(s.flow, s.dir, len)] else []
  {
    var before, steps := Served(cfg, Unknown, trace, m), StepsOf([s], len, known, cfg, at);
    assert s.mac in known <==> Served(cfg, Unknown, trace, s.mac).slot.Present?;
    if steps == [] {
      assert trace + steps == trace;
    } else {
      assert steps == [StepOf(s, len, at.clock)];
      ServedMore(cfg, Unknown, trace, StepOf(s, len, at.clock), m);
      PacketCharges(cfg, before, StepOf(s, len, at.clock).1);
    }
  }

  /** A user that is served a frame down has a binding afterwards, if it pays and survives. */
  lemma BetweenBound(cfg: Config, r: Record, len: nat, ip: Ip, clock: Time)
    requires GoodRecord(r) && (r.slot.Present? || cfg.autouser)
    ensures Chargeable(cfg, Apply(cfg, r, OpPacket(Lan, Down, len, ip, clock))) <==>
            Pays(cfg, r, true) && Survives(r, len)
  {
    StepKeeps(cfg, r, OpPacket(Lan, Down, len, ip, clock));
  }

  lemma ServedGood(cfg: Config, trace: seq<(Mac, Op)>, m: Mac)
    ensures GoodRecord(Served(cfg, Unknown, trace, m))
  {
    var ops := ServedIsRun(cfg, trace, m);
    RunGood(cfg, ops);
  }

  lemma BothTolls(cfg: Config, trace: seq<(Mac, Op)>, f: Frame, known: set<Mac>, at: Moment, m: Mac)
    requires KnownAre(cfg, trace, known) && Proper(f) && f.dir == User2User && f.sip != f.dip
    ensures var before := Served(cfg, Unknown, trace, m);
            Charges(Served(cfg, Unknown, trace + Steps(f, known, cfg, at), m).log) ==
            Charges(before.log) + Tolls(cfg, f, known, at, m, before)
  {
    var before := Served(cfg, Unknown, trace, m);
    UserToUserCharges(cfg, trace, f, known, at, m);
    assert f.dmac in known <==> Served(cfg, Unknown, trace, f.dmac).slot.Present?;
    assert f.smac in known <==> Served(cfg, Unknown, trace, f.smac).slot.Present?;
    ServedGood(cfg, trace, m);
    if m == f.dmac && (before.slot.Present? || cfg.autouser) {
      BetweenBound(cfg, before, f.len, f.dip, at.clock);
    }
  }

  lemma NoSteps(f: Frame, known: set<Mac>, cfg: Config, at: Moment)
    requires !Proper(f) || Shares(f) == []
    ensures StepsFor(f, known, cfg, at) == []
  {
  }

  lemma NoTolls(cfg: Config, f: Frame, known: set<Mac>, at: Moment, m: Mac, r: Record)
    requires !Proper(f) || Shares(f) == []
    ensures Tolls(cfg, f, known, at, m, r) == []
  {
  }

  /** Every frame is charged by the table of the tolls, whatever its direction: to its source
      up, to its destination down, and to nobody else. */
  lemma FrameTolls(cfg: Config, trace: seq<(Mac, Op)>, f: Frame, known: set<Mac>, at: Moment, m: Mac)
    requires KnownAre(cfg, trace, known)
    ensures var before := Served(cfg, Unknown, trace, m);
            Charges(Served(cfg, Unknown, trace + StepsFor(f, known, cfg, at), m).log) ==
            Charges(before.log) + Tolls(cfg, f, known, at, m, before)
  {
    if !Proper(f) || Shares(f) == [] {
      NoSteps(f, known, cfg, at);
      NoTolls(cfg, f, known, at, m, Served(cfg, Unknown, trace, m));
      assert trace + [] == trace;
    } else if f.dir == User2User {
      BothTolls(cfg, trace, f, known, at, m);
    } else {
      OneToll(cfg, trace, Shares(f)[0], f.len, known, at, m);
      TollIs(cfg, f, known, at, m, Served(cfg, Unknown, trace, m));
    }
  }

  lemma TollIs(cfg: Config, f: Frame, known: set<Mac>, at: Moment, m: Mac, r: Record)
    requires Proper(f) && Shares(f) != [] && f.dir != User2User
    ensures StepsFor(f, known, cfg, at) == StepsOf([Shares(f)[0]], f.len, known, cfg, at)
    ensures var s := Shares(f)[0];
            Tolls(cfg, f, known, at, m, r) ==
            if m == s.mac && Pays(cfg, r, at.first) then [Charge(s.flow, s.dir, f.len)] else []
  {
  }

  /** The address that a user made by a frame has: its own in that frame. */
  predicate OwnAddress(f: Frame, m: Mac, after: Record) {
    after.slot.Present? && after.slot.user.HaveBind() ==>
      after.slot.user.ip == if m == f.dmac && TargetToll(f.dir).Toll? then f.dip else f.sip
  }

  lemma MadeAddress(cfg: Config, r: Record, op: Op)
    requires GoodRecord(r) && op.OpPacket?
    ensures var s := Apply(cfg, r, op);
            s.slot.Present? && s.slot.user.HaveBind() ==>
              s.slot.user.ip == if r.slot.Present? then r.slot.user.ip else op.ip
    ensures GoodRecord(Apply(cfg, r, op))
    ensures r.slot.Present? && Apply(cfg, r, op).slot.user.HaveBind() ==> r.slot.user.HaveBind()
  {
    StepKeeps(cfg, r, op);
    ApplyGood(cfg, r, op);
  }

  /** A step of a frame is for its destination, or for its source where no step before it
      was for the destination. */
  predicate ForEnd(f: Frame, s: (Mac, Op), second: bool) {
    && s.1.OpPacket?
    && if !second && TargetToll(f.dir).Toll? then s.0 == f.dmac && s.1.ip == f.dip
       else s.0 == f.smac && s.1.ip == f.sip && (second ==> TargetToll(f.dir).Toll?)
  }

  lemma StepsAre(f: Frame, known: set<Mac>, cfg: Config, at: Moment)
    ensures var steps := StepsFor(f, known, cfg, at);
            && |steps| <= 2
            && (|steps| > 0 ==> ForEnd(f, steps[0], false)) && (|steps| > 1 ==> ForEnd(f, steps[1], true))
  {
  }

  /** One step touches its own MAC only, and gives a user that it makes its own address. */
  lemma OneTouch(cfg: Config, r: Record, f: Frame, s: (Mac, Op), second: bool, m: Mac)
    requires GoodRecord(r) && ForEnd(f, s, second) && (second && m == f.dmac ==> r.slot.Present?)
    ensures var t := ServedStep(cfg, r, s, m);
            && GoodRecord(t) && (m != f.smac && m != f.dmac ==> t == r)
            && (if r.slot.Absent? || OwnAddress(f, m, r) then OwnAddress(f, m, t) else true)
  {
    MadeAddress(cfg, r, s.1);
  }

  lemma FirstServed(cfg: Config, r: Record, f: Frame, s: (Mac, Op), m: Mac)
    requires ForEnd(f, s, false) && TargetToll(f.dir).Toll? && m == f.dmac && (r.slot.Present? || cfg.autouser)
    ensures ServedStep(cfg, r, s, m).slot.Present?
  {
  }

  lemma Made(f: Frame, known: set<Mac>, cfg: Config, at: Moment)
    requires |StepsFor(f, known, cfg, at)| > 0
    ensures StepsFor(f, known, cfg, at)[0].0 in known || cfg.autouser
  {
  }

  /** Only the source and the destination of a frame are touched, and one that it makes has
      its own address. */
  lemma FrameTouches(cfg: Config, trace: seq<(Mac, Op)>, f: Frame, known: set<Mac>, at: Moment, m: Mac)
    requires KnownAre(cfg, trace, known)
    ensures var before := Served(cfg, Unknown, trace, m);
            var after := Served(cfg, Unknown, trace + StepsFor(f, known, cfg, at), m);
            && (m != f.smac && m != f.dmac ==> after == before)
            && (before.slot.Absent? ==> OwnAddress(f, m, after))
  {
    var before, steps := Served(cfg, Unknown, trace, m), StepsFor(f, known, cfg, at);
    StepsAre(f, known, cfg, at);
    ServedGood(cfg, trace, m);
    if steps == [] {
      assert trace + steps == trace;
    } else {
      Made(f, known, cfg, at);
      ServedMore(cfg, Unknown, trace, steps[0], m);
      OneTouch(cfg, before, f, steps[0], false, m);
      assert m in known <==> before.slot.Present?;
      if |steps| == 1 {
        assert trace + steps == trace + [steps[0]];
      } else {
        assert trace + steps == trace + [steps[0]] + [steps[1]];
        if m == f.dmac {
          FirstServed(cfg, before, f, steps[0], m);
        }
        ServedMore(cfg, Unknown, trace + [steps[0]], steps[1], m);
        OneTouch(cfg, ServedStep(cfg, before, steps[0], m), f, steps[1], true, m);
      }
    }
  }

  /** What a frame does to a MAC: its charges grow by its tolls; a MAC that is not an end of the
      frame is left alone; and a user that the frame makes has its own address. */
  predicate Tolled(cfg: Config, f: Frame, known: set<Mac>, at: Moment, m: Mac, before: Record, after: Record) {
    && Charges(after.log) == Charges(before.log) + Tolls(cfg, f, known, at, m, before)
    && (m != f.smac && m != f.dmac ==> after == before)
    && (before.slot.Absent? ==> OwnAddress(f, m, after))
  }

  /** No frame has the direction from the LAN to a user. One that goes there is taken for one
      to the device: it is charged to nobody. */
  lemma LanToUserIsLost(e: Ends, ingress: Net, plans: seq<Net>, cfg: Config, f: Frame, known: set<Mac>, at: Moment,
                        m: Mac, r: Record)
    requires f.dir == DirectionOf(e, ingress, plans)
    ensures f.dir != Lan2User
    ensures !e.sdev && !e.ddev && ingress.Has(e.dip) && !ingress.Has(e.sip) &&
            (exists i :: 0 <= i < |plans| && plans[i].Has(e.sip)) ==>
              f.dir == Lan2Dev && Tolls(cfg, f, known, at, m, r) == [] && !Admitted(f, known, cfg, at)
  {
  }

  /** Every other direction says where the frame comes from and where it goes. */
  lemma DirectionSays(sdev: bool, ddev: bool, from: World, to: World)
    ensures var d := Direction(sdev, ddev, from, to);
            && (sdev <==> d == Dev2Dev || d == Dev2User || d == Dev2Lan || d == Dev2Wan)
            && (!sdev && from == OfUsers <==> d == User2Dev || d == User2User || d == User2Lan || d == User2Wan)
            && (!sdev && from == OfLan <==> d == Lan2Dev || d == Lan2Lan || d == Lan2Wan)
            && (!sdev && from == OfWan <==> d == Wan2Dev || d == Wan2User || d == Wan2Lan || d == Wan2Wan)
    ensures var d := Direction(sdev, ddev, from, to);
            var lost := !sdev && !ddev && from == OfLan && to == OfUsers;
            && (ddev || lost <==> d == Dev2Dev || d == User2Dev || d == Lan2Dev || d == Wan2Dev)
            && (!ddev && !lost && to == OfUsers <==> d == Dev2User || d == User2User || d == Wan2User)
            && (!ddev && to == OfLan <==> d == Dev2Lan || d == User2Lan || d == Lan2Lan || d == Wan2Lan)
            && (!ddev && to == OfWan <==> d == Dev2Wan || d == User2Wan || d == Lan2Wan || d == Wan2Wan)
  {
  }

  /** The users a frame is for are all there, or are made. */
  predicate Admitted(f: Frame, known: set<Mac>, cfg: Config, at: Moment) {
    && Proper(f) && !ToItself(f) && (SourceToll(f.dir).Toll? || TargetToll(f.dir).Toll?)
    && (TargetToll(f.dir).Toll? ==> There(f.dmac, known, cfg, at.first))
    && (SourceToll(f.dir).Toll? ==>
          if f.dir == User2User then f.smac == f.dmac || There(f.smac, known, cfg, at.second)
          else There(f.smac, known, cfg, at.first))
  }

  lemma AdmittedIs(f: Frame, known: set<Mac>, cfg: Config, at: Moment)
    ensures Admitted(f, known, cfg, at) <==> ReachesIp(f) && Accepted(f, known, cfg, at)
  {
  }

  // ----- counters -----

  datatype Tally = Tally(packets: nat, bytes: nat) {
    function Plus(t: Tally): Tally { Tally(packets + t.packets, bytes + t.bytes) }
    predicate AtMost(t: Tally) { packets <= t.packets && bytes <= t.bytes }
    function And(f: Frame): Tally { Plus(Tally(1, f.len)) }
  }

  const ETH := 0
  const VLAN := 1
  const IP := 2
  const GOOD := 0
  const BAD := 1
  const ALL := 2

  /** The three totals of a stage. */
  datatype Stage = Stage(good: Tally, bad: Tally, all: Tally) {
    predicate Adds() { all == good.Plus(bad) }

    /** One more frame, which is good or bad there. */
    function Count(f: Frame, ok: bool): Stage {
      Stage(if ok then good.And(f) else good, if ok then bad else bad.And(f), all.And(f))
    }
  }

  function TypeIndex(t: FlowType): nat {
    match t
    case Lan => 0
    case Wan => 1
  }

  function DirIndex(d: Dir): nat {
    match d
    case Up => 0
    case Down => 1
    case All => 2
  }

  /** What a stage says about the frame. */
  predicate EthOk(f: Frame) { f.ether != Other && f.smacGood && f.dmacGood }

  predicate VlanOk(f: Frame) { f.ether == EtherType.Vlan ==> f.vlanCarriesIp }

  predicate Tagged(f: Frame) { f.ether == EtherType.Vlan }

  predicate ReachesIp(f: Frame) { f.onIngress && EthOk(f) && VlanOk(f) }

  /** The device counter a frame of a direction goes to; such a frame is never good. */
  datatype DevCounter = NoCounter | DevCounter(flow: FlowType, dir: Dir)

  function DevOf(d: ConnDir): DevCounter {
    match d
    case Dev2Lan => DevCounter(Lan, Up)
    case Dev2Wan => DevCounter(Wan, Up)
    case Lan2Dev => DevCounter(Lan, Down)
    case Wan2Dev => DevCounter(Wan, Down)
    case _ => NoCounter
  }

  predicate ToDev(f: Frame) { HeaderOk(f) && DevOf(f.dir) != NoCounter }

  /** The device counters, row by row, after a frame that reaches the IP stage. */
  function DevAfter(devs: seq<Tally>, f: Frame): seq<Tally>
    requires |devs| == 6
  {
    if !ToDev(f) then devs
    else
      var i := 3 * TypeIndex(DevOf(f.dir).flow) + DirIndex(DevOf(f.dir).dir);
      devs[i := devs[i].And(f)]
  }

  function Sum(devs: seq<Tally>): Tally
    requires |devs| == 6
  {
    devs[0].Plus(devs[1]).Plus(devs[2]).Plus(devs[3]).Plus(devs[4]).Plus(devs[5])
  }

  lemma SumAfter(devs: seq<Tally>, f: Frame)
    requires |devs| == 6
    ensures Sum(DevAfter(devs, f)) == if ToDev(f) then Sum(devs).And(f) else Sum(devs)
  {
  }

  /** The balance of the stages and the device counters: every frame counted at a stage
      is good or bad there; what is good at the Ethernet stage reaches the IP stage or is
      bad at the VLAN stage; and what the device counters hold was bad at the IP
      stage. */
  predicate InBalance(eth: Stage, vlan: Stage, ip: Stage, devs: seq<Tally>)
    requires |devs| == 6
  {
    && eth.Adds() && vlan.Adds() && ip.Adds()
    && eth.good == ip.all.Plus(vlan.bad)
    && Sum(devs).AtMost(ip.bad)
  }

  /** Counting a frame keeps the balance, whatever the frame: bad at the IP stage if it
      goes to a device counter. */
  lemma BalanceKept(eth: Stage, vlan: Stage, ip: Stage, devs: seq<Tally>, f: Frame, ok: bool)
    requires |devs| == 6 && InBalance(eth, vlan, ip, devs) && f.onIngress && (ok ==> !ToDev(f))
    ensures InBalance(
              eth.Count(f, EthOk(f)),
              if EthOk(f) && Tagged(f) then vlan.Count(f, VlanOk(f)) else vlan,
              if ReachesIp(f) then ip.Count(f, ok) else ip,
              if ReachesIp(f) then DevAfter(devs, f) else devs)
  {
    SumAfter(devs, f);
  }

  // ----- what is counted where -----

  function Grown(t: Tally, f: Frame, yes: bool): Tally {
    if yes then Tally(t.packets + 1, t.bytes + f.len) else t
  }

  /** A stage after a frame that comes to it, or not, and is good there, or not. */
  function GrownStage(s: Stage, f: Frame, comes: bool, good: bool): Stage {
    Stage(Grown(s.good, f, comes && good), Grown(s.bad, f, comes && !good), Grown(s.all, f, comes))
  }

  predicate GoodLink(f: Frame) { f.smacGood && f.dmacGood && f.ether != Other }

  /** The frame comes to the IP stage. */
  predicate Comes(f: Frame) {
    f.onIngress && GoodLink(f) && (f.ether == Ipv4 || f.vlanCarriesIp)
  }

  predicate Plain(f: Frame) { f.version == 4 && f.headerLen == 5 }

  /** The device counters: LAN up, down and all, then WAN up, down and all. */
  function GrownDevs(devs: seq<Tally>, f: Frame): seq<Tally>
    requires |devs| == 6
  {
    var counts := Comes(f) && Plain(f);
    [Grown(devs[0], f, counts && f.dir == Dev2Lan), Grown(devs[1], f, counts && f.dir == Lan2Dev), devs[2],
     Grown(devs[3], f, counts && f.dir == Dev2Wan), Grown(devs[4], f, counts && f.dir == Wan2Dev), devs[5]]
  }

  /** These are the counters of the stages after the frame. */
  lemma CountersAre(f: Frame, ok: bool, eth: Stage, vlan: Stage, ip: Stage, devs: seq<Tally>)
    requires |devs| == 6
    ensures (if f.onIngress then eth.Count(f, EthOk(f)) else eth) == GrownStage(eth, f, f.onIngress, GoodLink(f))
    ensures (if f.onIngress && EthOk(f) && Tagged(f) then vlan.Count(f, VlanOk(f)) else vlan) ==
            GrownStage(vlan, f, f.onIngress && GoodLink(f) && f.ether == EtherType.Vlan, f.vlanCarriesIp)
    ensures (if ReachesIp(f) then ip.Count(f, ok) else ip) == GrownStage(ip, f, Comes(f), ok)
    ensures (if ReachesIp(f) then DevAfter(devs, f) else devs) == GrownDevs(devs, f)
  {
  }

  class Flower {
    const umd: UserTable
    const total: array2<Tally>
    const dev: array2<Tally>

    constructor (umd: UserTable)
      ensures this.umd == umd && Ready() && Balanced() && fresh(total) && fresh(dev)
    {
      this.umd := umd;
      total := new Tally[3, 3]((_, _) => Tally(0, 0));
      dev := new Tally[2, 3]((_, _) => Tally(0, 0));
      new;
      var zero := Tally(0, 0);
      assert StageAt(ETH) == StageAt(VLAN) == StageAt(IP) == Stage(zero, zero, zero);
      assert Devs() == [zero, zero, zero, zero, zero, zero];
    }

    predicate Ready() {
      && total.Length0 == 3 && total.Length1 == 3 && dev.Length0 == 2 && dev.Length1 == 3
      && total != dev
    }

    ghost function StageAt(t: nat): Stage
      requires Ready() && t < 3
      reads total
    {
      Stage(total[t, GOOD], total[t, BAD], total[t, ALL])
    }

    ghost function Devs(): (r: seq<Tally>)
      requires Ready()
      reads dev
      ensures |r| == 6
    {
      [dev[0, 0], dev[0, 1], dev[0, 2], dev[1, 0], dev[1, 1], dev[1, 2]]
    }

    ghost predicate Balanced()
      requires Ready()
      reads total, dev
    {
      InBalance(StageAt(ETH), StageAt(VLAN), StageAt(IP), Devs())
    }

    method AddTotal(t: nat, c: nat, f: Frame)
      requires Ready() && t < 3 && c < 3
      modifies total
      ensures var s := old(StageAt(t));
              StageAt(t) == (if c == GOOD then s.(good := s.good.And(f))
                             else if c == BAD then s.(bad := s.bad.And(f)) else s.(all := s.all.And(f)))
      ensures forall u: nat :: u < 3 && u != t ==> StageAt(u) == old(StageAt(u))
    {
      total[t, c] := total[t, c].And(f);
    }

    method AddDev(f: Frame)
      requires Ready() && ToDev(f)
      modifies dev
      ensures Devs() == DevAfter(old(Devs()), f)
    {
      var i, j := TypeIndex(DevOf(f.dir).flow), DirIndex(DevOf(f.dir).dir);
      dev[i, j] := dev[i, j].And(f);
    }

    /** The Ethernet stage. */
    method EthHandle(f: Frame) returns (ok: bool)
      requires Ready()
      modifies total
      ensures (ok <==> EthOk(f)) && StageAt(ETH) == old(StageAt(ETH)).Count(f, ok)
      ensures StageAt(VLAN) == old(StageAt(VLAN)) && StageAt(IP) == old(StageAt(IP))
    {
      AddTotal(ETH, ALL, f);
      if f.ether != Ipv4 && f.ether != EtherType.Vlan {
        AddTotal(ETH, BAD, f);
        return false;
      } else if !f.smacGood {
        AddTotal(ETH, BAD, f);
        return false;
      } else if !f.dmacGood {
        AddTotal(ETH, BAD, f);
        return false;
      }
      AddTotal(ETH, GOOD, f);
      return true;
    }

    /** The VLAN stage; it passes an untagged frame without counting it. */
    method VlanHandle(f: Frame) returns (ok: bool)
      requires Ready()
      modifies total
      ensures ok <==> VlanOk(f)
      ensures StageAt(VLAN) == if Tagged(f) then old(StageAt(VLAN)).Count(f, ok) else old(StageAt(VLAN))
      ensures StageAt(ETH) == old(StageAt(ETH)) && StageAt(IP) == old(StageAt(IP))
    {
      if f.ether == EtherType.Vlan {
        AddTotal(VLAN, ALL, f);
        if !f.vlanCarriesIp {
          AddTotal(VLAN, BAD, f);
          return false;
        }
        AddTotal(VLAN, GOOD, f);
      }
      return true;
    }

    // ----- the IP stage -----

    method ChargeUser(s: Share, len: nat, clock: Time, memory: bool) returns (ok: bool)
      requires umd.Valid() && umd.Traced()
      modifies umd, umd.macs, umd.ips, umd.members
      ensures umd.Valid() && umd.Traced() && fresh(umd.members - old(umd.members))
      ensures ok <==> Reachable(s.mac, old(umd.users.Keys), umd.cfg, memory)
      ensures umd.trace == old(umd.trace) + if ok then [StepOf(s, len, clock)] else []
      ensures ok ==> forall m :: m in umd.users <==> m in old(umd.users) || m == s.mac
    {
      ok := umd.ServeOne(s.mac, OpPacket(s.flow, s.dir, len, s.ip, clock), memory);
    }

    /** A share alone. */
    method ChargeOne(s: Share, len: nat, at: Moment) returns (ok: bool)
      requires umd.Valid() && umd.Traced()
      modifies umd, umd.macs, umd.ips, umd.members
      ensures umd.Valid() && umd.Traced()
      ensures ok <==> AllReachable([s], old(umd.users.Keys), umd.cfg, at)
      ensures umd.trace == old(umd.trace) + StepsOf([s], len, old(umd.users.Keys), umd.cfg, at)
    {
      ok := ChargeUser(s, len, at.clock, at.first);
    }

    /** Two shares: the first, and if its user is reached the second. */
    method ChargeBoth(s: Share, t: Share, len: nat, at: Moment) returns (ok: bool)
      requires umd.Valid() && umd.Traced()
      modifies umd, umd.macs, umd.ips, umd.members
      ensures umd.Valid() && umd.Traced()
      ensures ok <==> AllReachable([s, t], old(umd.users.Keys), umd.cfg, at)
      ensures umd.trace == old(umd.trace) + StepsOf([s, t], len, old(umd.users.Keys), umd.cfg, at)
    {
      ghost var known, before := umd.users.Keys, umd.trace;
      TwoSteps(s, t, len, known, umd.cfg, at, before);
      ok := ChargeUser(s, len, at.clock, at.first);
      if ok {
        ok := ChargeUser(t, len, at.clock, at.second);
      }
    }

    /** Hand a frame to the users it is charged to. */
    method ChargeUsers(f: Frame, at: Moment) returns (ok: bool)
      requires umd.Valid() && umd.Traced() && HeaderOk(f)
      modifies umd, umd.macs, umd.ips, umd.members
      ensures umd.Valid() && umd.Traced()
      ensures ok <==> Accepted(f, old(umd.users.Keys), umd.cfg, at)
      ensures umd.trace == old(umd.trace) + Steps(f, old(umd.users.Keys), umd.cfg, at)
    {
      match f.dir
      case Dev2User => ok := ChargeOne(ShareOf(f, Lan, Down), f.len, at);
      case User2Dev => ok := ChargeOne(ShareOf(f, Lan, Up), f.len, at);
      case User2User =>
        if f.sip == f.dip {
          return false;
        }
        ok := ChargeBoth(ShareOf(f, Lan, Down), ShareOf(f, Lan, Up), f.len, at);
      case User2Lan => ok := ChargeOne(ShareOf(f, Lan, Up), f.len, at);
      case User2Wan => ok := ChargeOne(ShareOf(f, Wan, Up), f.len, at);
      case Lan2User => ok := ChargeOne(ShareOf(f, Lan, Down), f.len, at);
      case Wan2User => ok := ChargeOne(ShareOf(f, Wan, Down), f.len, at);
      case _ => ok := false;
    }

    /** Check the header, and hand the frame to a device counter or to its users. */
    method Route(f: Frame, at: Moment) returns (ok: bool)
      requires Ready() && umd.Valid() && umd.Traced()
      modifies dev, umd, umd.macs, umd.ips, umd.members
      ensures umd.Valid() && umd.Traced() && Devs() == DevAfter(old(Devs()), f)
      ensures ok <==> Accepted(f, old(umd.users.Keys), umd.cfg, at)
      ensures umd.trace == old(umd.trace) + Steps(f, old(umd.users.Keys), umd.cfg, at)
    {
      if f.version != 4 || f.headerLen != 5 {
        return false;
      }
      if DevOf(f.dir) != NoCounter {
        NeverBoth(f);
        AddDev(f);
        return false;
      }
      ok := ChargeUsers(f, at);
    }

    /** Counting a frame at the IP stage does not touch the users. */
    method CountResult(c: nat, f: Frame)
      requires Ready() && umd.Valid() && umd.Traced() && c < 3
      modifies total
      ensures umd.Valid() && umd.Traced() && Devs() == old(Devs())
      ensures var s := old(StageAt(IP));
              StageAt(IP) == (if c == GOOD then s.(good := s.good.And(f))
                              else if c == BAD then s.(bad := s.bad.And(f)) else s.(all := s.all.And(f)))
      ensures StageAt(ETH) == old(StageAt(ETH)) && StageAt(VLAN) == old(StageAt(VLAN))
    {
      AddTotal(IP, c, f);
    }

    method CountAndRoute(f: Frame, at: Moment) returns (ok: bool)
      requires Ready() && umd.Valid() && umd.Traced()
      modifies total, dev, umd, umd.macs, umd.ips, umd.members
      ensures umd.Valid() && umd.Traced() && Devs() == DevAfter(old(Devs()), f)
      ensures ok <==> Accepted(f, old(umd.users.Keys), umd.cfg, at)
      ensures umd.trace == old(umd.trace) + Steps(f, old(umd.users.Keys), umd.cfg, at)
      ensures StageAt(IP) == old(StageAt(IP)).(all := old(StageAt(IP)).all.And(f))
      ensures StageAt(ETH) == old(StageAt(ETH)) && StageAt(VLAN) == old(StageAt(VLAN))
    {
      CountResult(ALL, f);
      ok := Route(f, at);
    }

    /** The IP stage. */
    method IpHandle(f: Frame, at: Moment) returns (ok: bool)
      requires Ready() && umd.Valid() && umd.Traced()
      modifies total, dev, umd, umd.macs, umd.ips, umd.members
      ensures umd.Valid() && umd.Traced() && Devs() == DevAfter(old(Devs()), f)
      ensures ok <==> Accepted(f, old(umd.users.Keys), umd.cfg, at)
      ensures umd.trace == old(umd.trace) + Steps(f, old(umd.users.Keys), umd.cfg, at)
      ensures StageAt(IP) == old(StageAt(IP)).Count(f, ok)
      ensures StageAt(ETH) == old(StageAt(ETH)) && StageAt(VLAN) == old(StageAt(VLAN))
    {
      ok := CountAndRoute(f, at);
      CountResult(if ok then GOOD else BAD, f);
    }

    /** The stages before IP. */
    method LinkStages(f: Frame) returns (ok: bool)
      requires Ready()
      modifies total
      ensures ok <==> ReachesIp(f)
      ensures StageAt(ETH) == if f.onIngress then old(StageAt(ETH)).Count(f, EthOk(f)) else old(StageAt(ETH))
      ensures StageAt(VLAN) == if f.onIngress && EthOk(f) && Tagged(f) then old(StageAt(VLAN)).Count(f, VlanOk(f))
                               else old(StageAt(VLAN))
      ensures StageAt(IP) == old(StageAt(IP))
    {
      if !f.onIngress {
        return false;
      }
      ok := EthHandle(f);
      if !ok {
        return;
      }
      ok := VlanHandle(f);
    }

    /** The counters after a frame, stage by stage. */
    method RunStages(f: Frame, at: Moment) returns (ok: bool)
      requires Ready() && umd.Valid() && umd.Traced()
      modifies total, dev, umd, umd.macs, umd.ips, umd.members
      ensures umd.Valid() && umd.Traced()
      ensures ok <==> ReachesIp(f) && Accepted(f, old(umd.users.Keys), umd.cfg, at)
      ensures umd.trace == old(umd.trace) + if ReachesIp(f) then Steps(f, old(umd.users.Keys), umd.cfg, at) else []
      ensures StageAt(ETH) == if f.onIngress then old(StageAt(ETH)).Count(f, EthOk(f)) else old(StageAt(ETH))
      ensures StageAt(VLAN) == if f.onIngress && EthOk(f) && Tagged(f) then old(StageAt(VLAN)).Count(f, VlanOk(f))
                               else old(StageAt(VLAN))
      ensures StageAt(IP) == if ReachesIp(f) then old(StageAt(IP)).Count(f, ok) else old(StageAt(IP))
      ensures Devs() == if ReachesIp(f) then DevAfter(old(Devs()), f) else old(Devs())
    {
      ok := LinkStages(f);
      if ok {
        ok := IpHandle(f, at);
      }
    }

    /** All stages. A frame from another interface is not counted; the others are
        counted as good or bad at every stage they reach, and charged by the table of the
        tolls. */
    method Flow(f: Frame, at: Moment) returns (ok: bool)
      requires Ready() && Balanced() && umd.Valid() && umd.Traced()
      modifies total, dev, umd, umd.macs, umd.ips, umd.members
      ensures umd.Valid() && umd.Traced() && Balanced()
      ensures ok <==> Admitted(f, old(umd.users.Keys), umd.cfg, at)
      ensures umd.trace == old(umd.trace) + StepsFor(f, old(umd.users.Keys), umd.cfg, at)
      ensures forall m :: Tolled(umd.cfg, f, old(umd.users.Keys), at, m, old(umd.RecordOf(m)), umd.RecordOf(m))
      ensures StageAt(ETH) == GrownStage(old(StageAt(ETH)), f, f.onIngress, GoodLink(f))
      ensures StageAt(VLAN) == GrownStage(old(StageAt(VLAN)), f,
                                          f.onIngress && GoodLink(f) && f.ether == EtherType.Vlan, f.vlanCarriesIp)
      ensures StageAt(IP) == GrownStage(old(StageAt(IP)), f, Comes(f), ok)
      ensures Devs() == GrownDevs(old(Devs()), f)
    {
      ghost var known, trace := umd.users.Keys, umd.trace;
      Remembered();
      ok := RunCounted(f, at);
      AdmittedIs(f, known, umd.cfg, at);
      forall m ensures Tolled(umd.cfg, f, known, at, m, old(umd.RecordOf(m)), umd.RecordOf(m)) {
        FrameTolls(umd.cfg, trace, f, known, at, m);
        FrameTouches(umd.cfg, trace, f, known, at, m);
      }
    }

    /** The table knows the users of its trace. */
    lemma Remembered()
      requires umd.Traced()
      ensures KnownAre(umd.cfg, umd.trace, umd.users.Keys)
      ensures forall m :: umd.RecordOf(m) == Served(umd.cfg, Unknown, umd.trace, m)
    {
      forall k ensures k in umd.users.Keys <==> Served(umd.cfg, Unknown, umd.trace, k).slot.Present? {
        assert umd.RecordOf(k) == Served(umd.cfg, Unknown, umd.trace, k);
      }
    }

    /** The stages, with their counters in balance. */
    method RunCounted(f: Frame, at: Moment) returns (ok: bool)
      requires Ready() && Balanced() && umd.Valid() && umd.Traced()
      modifies total, dev, umd, umd.macs, umd.ips, umd.members
      ensures umd.Valid() && umd.Traced() && Balanced()
      ensures ok <==> ReachesIp(f) && Accepted(f, old(umd.users.Keys), umd.cfg, at)
      ensures umd.trace == old(umd.trace) + StepsFor(f, old(umd.users.Keys), umd.cfg, at)
      ensures StageAt(ETH) == GrownStage(old(StageAt(ETH)), f, f.onIngress, GoodLink(f))
      ensures StageAt(VLAN) == GrownStage(old(StageAt(VLAN)), f,
                                          f.onIngress && GoodLink(f) && f.ether == EtherType.Vlan, f.vlanCarriesIp)
      ensures StageAt(IP) == GrownStage(old(StageAt(IP)), f, Comes(f), ok)
      ensures Devs() == GrownDevs(old(Devs()), f)
    {
      ghost var eth, vlan, ip, devs := StageAt(ETH), StageAt(VLAN), StageAt(IP), Devs();
      ok := RunStages(f, at);
      CountersAre(f, ok, eth, vlan, ip, devs);
      if f.onIngress {
        NeverBoth(f);
        BalanceKept(eth, vlan, ip, devs, f, ok);
      }
    }
  }

  /** A frame for a device counter has no users. */
  lemma NeverBoth(f: Frame)
    ensures ToDev(f) ==> Shares(f) == []
  {
  }
}
