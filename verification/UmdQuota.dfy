/** Warning before cut-off: when is a user that is about to lose its
    authorisation over a WAN maximum, or over an online-time maximum, told to
    authorise again first? */
module UmdQuota {
  import opened UmdModel
  import opened UmdEffects
  import opened UmdSafety
  import opened UmdRuns

  /** The condition a configuration tool could check on the three numbers. */
  predicate Fits(max: nat, numerator: nat, denominator: nat, width: nat)
    requires width > 0
  {
    numerator > 0 &&
    if denominator == 0 then numerator <= max
    else denominator <= max * numerator % width < (max + 1) * denominator
  }

  lemma QuotientBounds(p: nat, d: nat, max: nat)
    requires d > 0
    ensures 1 <= p / d <= max <==> d <= p < (max + 1) * d
  {
    var q := p / d;
    assert p == q * d + p % d;
    if q <= max {
      assert (q + 1) * d <= (max + 1) * d;
    } else {
      assert (max + 1) * d <= q * d;
    }
    if q >= 1 {
      assert d <= q * d;
    } else {
      assert q * d == 0;
    }
  }

  /** The threshold lies in 1..max exactly when the numbers fit. */
  lemma ThresholdInRange(max: nat, numerator: nat, denominator: nat, width: nat)
    requires max > 0 && width > 0
    ensures 1 <= Reauthor(max, numerator, denominator, width) <= max <==> Fits(max, numerator, denominator, width)
  {
    if numerator > 0 && denominator > 0 {
      QuotientBounds(max * numerator % width, denominator, max);
    }
  }

  /** In particular: a fraction no greater than one, not too small for the maximum,
      and no wrap-around. */
  lemma FractionFits(max: nat, numerator: nat, denominator: nat, width: nat)
    requires width > 0 && 0 < numerator <= denominator <= max * numerator < width
    ensures Fits(max, numerator, denominator, width)
  {
    Product(max, numerator, denominator);
    NoWrap(max * numerator, width);
  }

  lemma NoWrap(p: nat, width: nat)
    requires p < width
    ensures p % width == p
  {
  }

  lemma Product(max: nat, numerator: nat, denominator: nat)
    requires 0 < numerator <= denominator
    ensures max * numerator < (max + 1) * denominator
  {
    assert max * numerator <= max * denominator;
    assert (max + 1) * denominator == max * denominator + denominator;
  }

  /** A wrapped product: 2^31 seconds at two thirds gives threshold 0, no warning. */
  lemma WrapLosesWarning()
    ensures Reauthor(0x8000_0000, 2, 3, WIDTH32) == 0 && !Fits(0x8000_0000, 2, 3, WIDTH32)
  {
    assert 0x8000_0000 * 2 % WIDTH32 == 0;
  }

  // ----- packets -----

  predicate QuotaFits(q: Quota) {
    q.max == 0 || Fits(q.max, q.numerator, q.denominator, WIDTH64)
  }

  /** A quota warns at every count that is over it exactly when its numbers fit. */
  lemma QuotaWarnsFirst(max: nat, numerator: nat, denominator: nat)
    ensures QuotaFits(Quota(max, 0, numerator, denominator)) <==>
            forall now: nat :: QuotaOver(Quota(max, now, numerator, denominator)) ==>
                               QuotaWarns(Quota(max, now, numerator, denominator))
  {
    if max > 0 {
      ThresholdInRange(max, numerator, denominator, WIDTH64);
      if !QuotaFits(Quota(max, 0, numerator, denominator)) {
        assert QuotaOver(Quota(max, max + 1, numerator, denominator));
        assert !QuotaWarns(Quota(max, max + 1, numerator, denominator));
      }
    }
  }

  /** The packet takes an authorised user over a WAN maximum. */
  predicate CutByWan(a: Account, d: Dir, len: nat) {
    a.user.state == Auth && FlowOver(Charged(a, Wan, d, len).user.wan, d)
  }

  /** The log the step leaves: charge, warning, cut. */
  function WarnedCut(a: Account, d: Dir, len: nat): seq<Entry> {
    var b := Charged(a, Wan, d, len);
    b.log + [Event(Reauthed, b.user)] + [Event(Deauthed, b.user.(reason := FlowLimit))]
  }

  /** What the step logs, whether it warns or not. */
  lemma CutLog(cfg: Config, a: Account, d: PacketDir, len: nat, clock: Time)
    requires CutByWan(a, d, len)
    ensures var b := Charged(a.(user := a.user.(hitime := clock)), Wan, d, len);
            var c := FlowReauth(cfg, b, Wan, d);
            c.log + [Event(Deauthed, b.user.(reason := FlowLimit))] <= HandlePacket(cfg, a, Wan, d, len, clock).log
  {
    var b := Charged(a.(user := a.user.(hitime := clock)), Wan, d, len);
    CutStep(FlowReauth(cfg, b, Wan, d), d, clock);
  }

  lemma CutStep(c: Account, d: Dir, clock: Time)
    requires c.user.state == Auth && FlowOver(c.user.wan, d)
    ensures c.log + [Event(Deauthed, c.user.(reason := FlowLimit))] <= Overflow(c, Wan, d, clock).log
  {
    UnbindEffect(CutWan(c, Wan, d, clock), FlowLimit, clock);
  }

  lemma OverWarns(q: Quota)
    requires QuotaFits(q) && QuotaOver(q)
    ensures QuotaWarns(q)
  {
    QuotaWarnsFirst(q.max, q.numerator, q.denominator);
    assert q == Quota(q.max, q.now, q.numerator, q.denominator);
  }

  lemma CutWarns(l: Limit, d: Dir)
    requires QuotaFits(l.Flow(d)) && QuotaFits(l.all) && FlowOver(l, d)
    ensures FlowWarns(l, d)
  {
    if QuotaOver(l.all) {
      OverWarns(l.all);
    } else {
      OverWarns(l.Flow(d));
    }
  }

  /** With reauth enabled and limits that fit, every cut-off over a WAN maximum is
      preceded, in the same step and directly, by a reauth event for that user. */
  lemma FlowCutIsWarned(cfg: Config, a: Account, d: PacketDir, len: nat, clock: Time)
    requires cfg.reauthable && CutByWan(a, d, len)
    requires QuotaFits(a.user.wan.Flow(d)) && QuotaFits(a.user.wan.all)
    ensures WarnedCut(a.(user := a.user.(hitime := clock)), d, len) <= HandlePacket(cfg, a, Wan, d, len, clock).log
  {
    var b := Charged(a.(user := a.user.(hitime := clock)), Wan, d, len);
    CutWarns(b.user.wan, d);
    CutLog(cfg, a, d, len, clock);
  }

  // ----- the run that shows the converse -----

  /** The size of the buffer that a frame is received in. */
  const FRAME_SIZE := 2048

  function Total(lens: seq<nat>): nat {
    if |lens| == 0 then 0 else Total(lens[..|lens| - 1]) + lens[|lens| - 1]
  }

  /** A direction of packets that counts for a maximum. */
  function Along(d: Dir): PacketDir { if d == Down then Down else Up }

  function Packets(d: Dir, lens: seq<nat>): seq<Op> {
    if |lens| == 0 then []
    else Packets(d, lens[..|lens| - 1]) + [OpPacket(Wan, Along(d), lens[|lens| - 1], 1, 0)]
  }

  /** A plan with one maximum. */
  function PlanWith(d: Dir, q: QuotaPlan): LimitPlan {
    match d
    case Up => FreePlan.(up := q)
    case Down => FreePlan.(down := q)
    case All => FreePlan.(all := q)
  }

  function AuthRun(lan: LimitPlan, wan: LimitPlan): seq<Op> {
    [OpBind(1, 0)] + [OpAuth(1, lan, wan, NotFound, 0)]
  }

  /** A bind, an auth with a WAN maximum on up, down or all traffic, and frames that it
      counts. */
  function CutRun(d: Dir, q: QuotaPlan, lens: seq<nat>): seq<Op> {
    AuthRun(FreePlan, PlanWith(d, q)) + Packets(d, lens)
  }

  /** Any number of bytes comes in frames that the buffer holds, and that are no shorter
      than an Ethernet frame if there are as many bytes as that. */
  lemma {:induction false} FramesFor(n: nat) returns (lens: seq<nat>)
    requires n > 0
    ensures Total(lens) == n
    ensures forall i :: 0 <= i < |lens| ==> 0 < lens[i] <= FRAME_SIZE && (n >= 64 ==> lens[i] >= 64)
    decreases n
  {
    if n <= FRAME_SIZE {
      lens := [n];
      assert lens[..0] == [];
    } else {
      var first := FramesFor(n - 1024);
      lens := first + [1024];
      assert lens[..|first|] == first;
    }
  }

  /** What n bytes are in a direction's counter, under this one maximum. */
  function Counted(d: Dir, q: QuotaPlan, n: nat, e: Dir): Quota {
    var now := if e == Along(d) || e == All then n else 0;
    if e == d then Quota(q.max, now, q.numerator, q.denominator) else Quota(0, now, 0, 0)
  }

  /** Authorised, with n bytes counted and never warned. */
  predicate AuthorisedAt(a: Account, d: Dir, q: QuotaPlan, n: nat) {
    && a.user.state == Auth && NoWarning(a.log)
    && a.user.lan.up.max == 0 && a.user.lan.down.max == 0 && a.user.lan.all.max == 0
    && a.user.wan.up == Counted(d, q, n, Up) && a.user.wan.down == Counted(d, q, n, Down)
    && a.user.wan.all == Counted(d, q, n, All)
  }

  /** The numbers of a maximum do not fit, and a count of 64 bits can exceed it. */
  predicate Unfit(q: QuotaPlan) {
    0 < q.max < WIDTH64 - 1 && !Fits(q.max, q.numerator, q.denominator, WIDTH64)
  }

  /** Numbers that do not fit give no warning up to the maximum and one byte over. */
  lemma NoWarningYet(q: QuotaPlan, n: nat)
    requires Unfit(q) && n <= q.max + 1
    ensures !QuotaWarns(Quota(q.max, n, q.numerator, q.denominator))
  {
    ThresholdInRange(q.max, q.numerator, q.denominator, WIDTH64);
  }

  lemma ChargedUnwarned(cfg: Config, a: Account, d: Dir, q: QuotaPlan, n: nat, len: nat)
    requires Unfit(q) && AuthorisedAt(a, d, q, n) && n + len <= q.max + 1
    ensures var b := Charged(a.(user := a.user.(hitime := 0)), Wan, Along(d), len);
            AuthorisedAt(b, d, q, n + len) && FlowReauth(cfg, b, Wan, Along(d)) == b && !FlowOver(b.user.lan, Along(d))
  {
    NoWarningYet(q, n + len);
  }

  lemma UncutPacket(cfg: Config, a: Account, d: Dir, q: QuotaPlan, n: nat, len: nat)
    requires Unfit(q) && AuthorisedAt(a, d, q, n) && n + len <= q.max
    ensures AuthorisedAt(HandlePacket(cfg, a, Wan, Along(d), len, 0), d, q, n + len)
  {
    ChargedUnwarned(cfg, a, d, q, n, len);
  }

  lemma CutPacket(cfg: Config, a: Account, d: Dir, q: QuotaPlan, n: nat, len: nat)
    requires Unfit(q) && AuthorisedAt(a, d, q, n) && n + len == q.max + 1
    ensures var b := HandlePacket(cfg, a, Wan, Along(d), len, 0);
            b.user.state == Bind && b.user.reason == FlowLimit && NoWarning(b.log)
  {
    ChargedUnwarned(cfg, a, d, q, n, len);
  }

  /** What the auth makes of the first bind. */
  lemma AuthorisedRun(cfg: Config, lan: LimitPlan, wan: LimitPlan)
    ensures var r, b := Run(cfg, AuthRun(lan, wan)), Run(cfg, [OpBind(1, 0)]);
            b.slot.Present? && FreshlyBound(Opened(b)) && r == Held(EnterAuth(Opened(b), 1, lan, wan, 0))
  {
    FirstBind(cfg);
    RunMore(cfg, [OpBind(1, 0)], OpAuth(1, lan, wan, NotFound, 0));
  }

  lemma ThenAuth(a: Account, d: Dir, q: QuotaPlan)
    requires FreshlyBound(a)
    ensures AuthorisedAt(EnterAuth(a, 1, FreePlan, PlanWith(d, q), 0), d, q, 0)
  {
  }

  lemma {:induction false} FramesRun(cfg: Config, d: Dir, q: QuotaPlan, lens: seq<nat>)
    requires Unfit(q) && Total(lens) <= q.max
    ensures var r := Run(cfg, CutRun(d, q, lens)); r.slot.Present? && AuthorisedAt(Opened(r), d, q, Total(lens))
  {
    if |lens| == 0 {
      AuthorisedRun(cfg, FreePlan, PlanWith(d, q));
      ThenAuth(Opened(Run(cfg, [OpBind(1, 0)])), d, q);
      assert CutRun(d, q, lens) == AuthRun(FreePlan, PlanWith(d, q));
    } else {
      var before, len := lens[..|lens| - 1], lens[|lens| - 1];
      FramesRun(cfg, d, q, before);
      LastFrame(cfg, d, q, lens);
      UncutPacket(cfg, Opened(Run(cfg, CutRun(d, q, before))), d, q, Total(before), len);
    }
  }

  lemma LastFrame(cfg: Config, d: Dir, q: QuotaPlan, lens: seq<nat>)
    requires |lens| > 0 && Run(cfg, CutRun(d, q, lens[..|lens| - 1])).slot.Present?
    ensures var r := Run(cfg, CutRun(d, q, lens[..|lens| - 1]));
            Run(cfg, CutRun(d, q, lens)) == Held(HandlePacket(cfg, Opened(r), Wan, Along(d), lens[|lens| - 1], 0))
  {
    var before, len := lens[..|lens| - 1], lens[|lens| - 1];
    assert CutRun(d, q, lens) == CutRun(d, q, before) + [OpPacket(Wan, Along(d), len, 1, 0)];
    RunMore(cfg, CutRun(d, q, before), OpPacket(Wan, Along(d), len, 1, 0));
  }

  /** For every WAN maximum, up, down or all, whose numbers do not fit, a run in frames of any lengths that
      add up to one byte more than the maximum ends in a cut-off, and no warning came. */
  lemma UnfitQuotaCutsUnwarned(cfg: Config, d: Dir, q: QuotaPlan, lens: seq<nat>)
    requires Unfit(q) && |lens| > 0 && lens[|lens| - 1] > 0 && Total(lens) == q.max + 1
    ensures var r := Run(cfg, CutRun(d, q, lens));
            && r.slot.Present? && r.slot.user.state == Bind && r.slot.user.reason == FlowLimit
            && NoWarning(r.log)
  {
    var before := lens[..|lens| - 1];
    FramesRun(cfg, d, q, before);
    LastFrame(cfg, d, q, lens);
    CutPacket(cfg, Opened(Run(cfg, CutRun(d, q, before))), d, q, Total(before), lens[|lens| - 1]);
  }

  /** So a WAN maximum, up, down or all, can be relied on to warn first exactly when its
      numbers fit: otherwise there are frames, none larger than the buffer and none
      shorter than an Ethernet frame if the maximum is not, that are cut off unwarned. */
  lemma UnfitQuotaHasRun(cfg: Config, d: Dir, q: QuotaPlan) returns (lens: seq<nat>)
    requires Unfit(q)
    ensures forall i :: 0 <= i < |lens| ==> 0 < lens[i] <= FRAME_SIZE && (q.max >= 63 ==> lens[i] >= 64)
    ensures var r := Run(cfg, CutRun(d, q, lens));
            && r.slot.Present? && r.slot.user.state == Bind && r.slot.user.reason == FlowLimit
            && NoWarning(r.log)
  {
    lens := FramesFor(q.max + 1);
    UnfitQuotaCutsUnwarned(cfg, d, q, lens);
  }

  // ----- online time -----

  predicate OnlineFits(o: Online) {
    o.max == 0 || Fits(o.max, o.numerator, o.denominator, WIDTH32)
  }

  lemma OnlineWarnsFirst(o: Online)
    ensures OnlineFits(o) <==> forall now :: OnlineOver(o, now) ==> OnlineWarns(o, now)
  {
    if o.max > 0 {
      ThresholdInRange(o.max, o.numerator, o.denominator, WIDTH32);
      if !OnlineFits(o) {
        var now := o.uptime + o.max + 1;
        assert OnlineOver(o, now) && !OnlineWarns(o, now);
      }
    }
  }

  predicate CutByTime(u: User, now: Time) {
    u.state == Auth && (OnlineOver(u.wan.online, now) || OnlineOver(u.lan.online, now))
  }

  /** The same for the timer: a timer pass that ends an authorisation for online time
      has warned just before. */
  lemma TimeCutIsWarned(cfg: Config, a: Account, now: Time, clock: Time)
    requires cfg.reauthable && CutByTime(a.user, now)
    requires OnlineFits(a.user.wan.online) && OnlineFits(a.user.lan.online)
    ensures a.log + [Event(Reauthed, a.user)] + [Event(Deauthed, a.user.(reason := OnlineTime))]
            <= TickUser(cfg, a, now, clock).log
  {
    OnlineWarnsFirst(a.user.wan.online);
    OnlineWarnsFirst(a.user.lan.online);
    var b := OnlineReauth(cfg, FakeTimeout(cfg, a, now, clock), now);
    assert b.log == a.log + [Event(Reauthed, a.user)];
    AgingEffect(cfg, OnlineTimeout(b, now, clock), clock);
  }

  // ----- the run that shows the converse -----

  /** An auth with an online maximum for one type, and a visit that is just too late. */
  function TimeRun(t: FlowType, p: LimitPlan): seq<Op> {
    AuthRun(if t == Lan then p else FreePlan, if t == Wan then p else FreePlan) + [OpTick(p.max + 1, p.max + 1)]
  }

  predicate TimeOnly(p: LimitPlan) {
    p == FreePlan.(max := p.max, numerator := p.numerator, denominator := p.denominator)
  }

  lemma LateTick(cfg: Config, a: Account, t: FlowType, p: LimitPlan)
    requires FreshlyBound(a) && TimeOnly(p) && p.max > 0 && !Fits(p.max, p.numerator, p.denominator, WIDTH32)
    ensures var lan, wan := if t == Lan then p else FreePlan, if t == Wan then p else FreePlan;
            var b := TickUser(cfg, EnterAuth(a, 1, lan, wan, 0), p.max + 1, p.max + 1);
            b.user.state == Bind && b.user.reason == OnlineTime && NoWarning(b.log)
  {
    var lan, wan := if t == Lan then p else FreePlan, if t == Wan then p else FreePlan;
    var c := EnterAuth(a, 1, lan, wan, 0);
    ThresholdInRange(p.max, p.numerator, p.denominator, WIDTH32);
    assert OnlineReauth(cfg, FakeTimeout(cfg, c, p.max + 1, p.max + 1), p.max + 1) == c;
  }

  /** For every online maximum whose numbers do not fit, for WAN or for LAN, a run ends
      in a cut-off for online time, and no warning came. */
  lemma UnfitTimeCutsUnwarned(cfg: Config, t: FlowType, p: LimitPlan)
    requires TimeOnly(p) && p.max > 0 && !Fits(p.max, p.numerator, p.denominator, WIDTH32)
    ensures var r := Run(cfg, TimeRun(t, p));
            && r.slot.Present? && r.slot.user.state == Bind && r.slot.user.reason == OnlineTime
            && NoWarning(r.log)
  {
    var lan, wan := if t == Lan then p else FreePlan, if t == Wan then p else FreePlan;
    AuthorisedRun(cfg, lan, wan);
    LateTick(cfg, Opened(Run(cfg, [OpBind(1, 0)])), t, p);
    RunMore(cfg, AuthRun(lan, wan), OpTick(p.max + 1, p.max + 1));
    TickIs(cfg, Run(cfg, AuthRun(lan, wan)), p.max + 1);
  }

  lemma TickIs(cfg: Config, r: Record, now: Time)
    requires r.slot.Present? && TickUser(cfg, Opened(r), now, now).user.state == Bind
    ensures Apply(cfg, r, OpTick(now, now)) == Held(TickUser(cfg, Opened(r), now, now))
  {
    assert Apply(cfg, r, OpTick(now, now)) == Tick(cfg, Opened(r), now, now);
  }
}
