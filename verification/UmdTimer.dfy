/** The timer: how long an idle binding lasts, and what a sweep leaves behind. */
module UmdTimer {
  import opened UmdModel
  import opened UmdEffects
  import opened UmdSafety

  // ----- idle -----

  datatype Pass = Pass(now: Time, clock: Time)

  function Passes(cfg: Config, r: Record, ps: seq<Pass>): Record
    decreases |ps|
  {
    if |ps| == 0 then r else Passes(cfg, Apply(cfg, r, OpTick(ps[0].now, ps[0].clock)), ps[1..])
  }

  /** How much the aging goes down in k passes. */
  function Span(cfg: Config, k: nat): nat { k * cfg.ticks }

  predicate Bounded(r: Record) { r.slot.Present? && r.slot.user.HaveBind() }

  /** The binding outlives n seconds of ticks as far as this type is concerned. */
  predicate Lasts(o: Online, n: nat) { o.idle == 0 || n < o.aging }

  function Older(o: Online, n: nat): Online {
    if o.idle == 0 then o else o.(aging := o.aging - n)
  }

  predicate SameAging(o: Online, p: Online) { o.idle == p.idle && o.aging == p.aging }

  predicate Aligned(u: User, v: User, n: nat) {
    SameAging(u.wan.online, Older(v.wan.online, n)) && SameAging(u.lan.online, Older(v.lan.online, n))
  }

  lemma TickAges(cfg: Config, a: Account, now: Time, clock: Time)
    requires Good(a)
    ensures var u := TickUser(cfg, a, now, clock).user;
            && (u.HaveBind() <==>
                a.user.HaveBind() && Lasts(a.user.wan.online, cfg.ticks) && Lasts(a.user.lan.online, cfg.ticks))
            && (u.HaveBind() ==> Aligned(u, a.user, cfg.ticks))
            && (a.user.HaveBind() && !u.HaveBind() ==> u.state == None)
  {
    TimeoutsEffect(cfg, a, now, clock);
    var b := Timeouts(cfg, a, now, clock);
    if b.user.HaveBind() {
      AgeTypeAges(cfg, b, Wan, clock);
      AgeTypeAges(cfg, AgeType(cfg, b, Wan, clock), Lan, clock);
    }
  }

  lemma AgeTypeAges(cfg: Config, a: Account, t: FlowType, clock: Time)
    ensures var u, o := AgeType(cfg, a, t, clock).user, a.user.Limits(t).online;
            && (o.idle == 0 ==> u == a.user)
            && (o.idle != 0 && o.aging > cfg.ticks ==>
                  u == a.user.WithLimits(t, a.user.Limits(t).(online := Older(o, cfg.ticks))))
            && (o.idle != 0 && o.aging <= cfg.ticks ==>
                  u.state == if a.user.HaveBind() then None else a.user.state)
  {
  }

  predicate IdleState(r: Record, a: Account, n: nat) {
    && GoodRecord(r)
    && (Bounded(r) <==> Lasts(a.user.wan.online, n) && Lasts(a.user.lan.online, n))
    && (Bounded(r) ==> Aligned(r.slot.user, a.user, n))
    && (!Bounded(r) && r.slot.Present? ==> r.slot.user.state == None)
  }

  /** With no packet and no command, a bound user is still bound after k passes
      exactly when k ticks are less than its remaining aging, for each type that
      has an idle time; otherwise it is in none or collected. Aging goes down by
      one tick a pass. */
  lemma IdleExactly(cfg: Config, a: Account, ps: seq<Pass>)
    requires Good(a) && a.user.HaveBind()
    ensures IdleState(Passes(cfg, Held(a), ps), a, Span(cfg, |ps|))
  {
    assert IdleState(Held(a), a, 0);
    IdleFrom(cfg, a, Held(a), 0, ps);
  }

  lemma {:induction false} IdleFrom(cfg: Config, a: Account, r: Record, n: nat, ps: seq<Pass>)
    requires Good(a) && a.user.HaveBind() && IdleState(r, a, n)
    ensures IdleState(Passes(cfg, r, ps), a, n + Span(cfg, |ps|))
    decreases |ps|
  {
    if |ps| > 0 {
      var s := Apply(cfg, r, OpTick(ps[0].now, ps[0].clock));
      IdleOnce(cfg, a, r, n, ps[0]);
      IdleFrom(cfg, a, s, n + cfg.ticks, ps[1..]);
      OneTickMore(cfg, |ps| - 1);
    }
  }

  lemma OneTickMore(cfg: Config, k: nat)
    ensures Span(cfg, k + 1) == Span(cfg, k) + cfg.ticks
  {
  }

  lemma IdleOnce(cfg: Config, a: Account, r: Record, n: nat, p: Pass)
    requires Good(a) && a.user.HaveBind() && IdleState(r, a, n)
    ensures IdleState(Apply(cfg, r, OpTick(p.now, p.clock)), a, n + cfg.ticks)
  {
    if r.slot.Present? {
      var b := Opened(r);
      TickGood(cfg, b, p.now, p.clock);
      TickAges(cfg, b, p.now, p.clock);
      if !b.user.HaveBind() {
        assert TickUser(cfg, b, p.now, p.clock) == b;
      }
    }
  }

  /** Hence the bound: ceil(idle / ticks) passes at the latest. */
  lemma IdleEnds(cfg: Config, a: Account, t: FlowType, ps: seq<Pass>)
    requires Good(a) && a.user.HaveBind() && cfg.ticks > 0 && a.user.Limits(t).online.idle > 0
    requires |ps| >= (a.user.Limits(t).online.idle + cfg.ticks - 1) / cfg.ticks
    ensures var r := Passes(cfg, Held(a), ps); r.slot.Absent? || r.slot.user.state == None
  {
    IdleExactly(cfg, a, ps);
    CeilCovers(a.user.Limits(t).online.idle, cfg.ticks, |ps|);
  }

  lemma CeilCovers(idle: nat, ticks: nat, k: nat)
    requires ticks > 0 && k >= (idle + ticks - 1) / ticks
    ensures idle <= k * ticks
  {
    var c := (idle + ticks - 1) / ticks;
    assert c * ticks + (idle + ticks - 1) % ticks == idle + ticks - 1;
    assert c * ticks <= k * ticks;
  }

  // ----- fake and auth -----

  /** What may end a fake or an authorisation at a time. */
  predicate TimeIsUp(cfg: Config, u: User, now: Time) {
    if u.state == Fake then Expired(cfg.fake, u.faketime, now)
    else OnlineOver(u.wan.online, now) || OnlineOver(u.lan.online, now)
  }

  predicate Timed(u: User) { u.state == Fake || u.state == Auth }

  predicate Still(r: Record, s: State) { r.slot.Present? && r.slot.user.state == s }

  /** The same but for the aging, which is n less. */
  predicate SameTimes(u: User, v: User, n: nat) {
    && u.state == v.state && u.faketime == v.faketime
    && u.wan.online == Older(v.wan.online, n) && u.lan.online == Older(v.lan.online, n)
  }

  predicate Goes(cfg: Config, u: User, now: Time, n: nat) {
    !TimeIsUp(cfg, u, now) && Lasts(u.wan.online, n) && Lasts(u.lan.online, n)
  }

  lemma TickEnds(cfg: Config, a: Account, now: Time, clock: Time)
    requires Good(a) && Timed(a.user)
    ensures var u := TickUser(cfg, a, now, clock).user;
            && (u.state == a.user.state <==> Goes(cfg, a.user, now, cfg.ticks))
            && (u.state == a.user.state ==> SameTimes(u, a.user, cfg.ticks))
  {
    var b := Timeouts(cfg, a, now, clock);
    AgeTypeAges(cfg, b, Wan, clock);
    AgeTypeAges(cfg, AgeType(cfg, b, Wan, clock), Lan, clock);
    AgeEffect(cfg, b, Wan, clock);
  }

  /** A timer visit does not authorise, and makes nobody fake. */
  lemma TickNeverEnters(cfg: Config, r: Record, now: Time, clock: Time, s: State)
    requires (s == Fake || s == Auth) && !Still(r, s)
    ensures !Still(Apply(cfg, r, OpTick(now, clock)), s)
  {
    if r.slot.Present? {
      var a := Opened(r);
      var b := Timeouts(cfg, a, now, clock);
      AgeTypeAges(cfg, b, Wan, clock);
      AgeEffect(cfg, b, Wan, clock);
      AgeTypeAges(cfg, AgeType(cfg, b, Wan, clock), Lan, clock);
      AgeEffect(cfg, AgeType(cfg, b, Wan, clock), Lan, clock);
    }
  }

  lemma {:induction false} NeverAgain(cfg: Config, r: Record, ps: seq<Pass>, s: State)
    requires (s == Fake || s == Auth) && !Still(r, s)
    ensures !Still(Passes(cfg, r, ps), s)
    decreases |ps|
  {
    if |ps| > 0 {
      TickNeverEnters(cfg, r, ps[0].now, ps[0].clock, s);
      NeverAgain(cfg, Apply(cfg, r, OpTick(ps[0].now, ps[0].clock)), ps[1..], s);
    }
  }

  predicate InTime(cfg: Config, u: User, ps: seq<Pass>) {
    forall i :: 0 <= i < |ps| ==> !TimeIsUp(cfg, u, ps[i].now)
  }

  lemma GoesLater(cfg: Config, u: User, v: User, n: nat, now: Time)
    requires SameTimes(v, u, n)
    ensures Goes(cfg, v, now, cfg.ticks) <==> Goes(cfg, u, now, n + cfg.ticks)
  {
  }

  lemma StillLater(u: User, v: User, w: User, n: nat, ticks: nat)
    requires SameTimes(v, u, n) && SameTimes(w, v, ticks)
    ensures SameTimes(w, u, n + ticks)
  {
  }

  /** A visit that leaves a user fake or authorised does not collect it. */
  lemma TickKeeps(cfg: Config, r: Record, now: Time, clock: Time, s: State)
    requires r.slot.Present? && (s == Fake || s == Auth)
    ensures var b := TickUser(cfg, Opened(r), now, clock);
            Still(Apply(cfg, r, OpTick(now, clock)), s) <==> b.user.state == s
    ensures var t := Apply(cfg, r, OpTick(now, clock));
            Still(t, s) ==> t.slot.user == TickUser(cfg, Opened(r), now, clock).user
  {
    assert Apply(cfg, r, OpTick(now, clock)) == Tick(cfg, Opened(r), now, clock);
  }

  lemma TimedOnce(cfg: Config, u: User, r: Record, n: nat, p: Pass)
    requires Timed(u) && GoodRecord(r) && Still(r, u.state) && SameTimes(r.slot.user, u, n)
    ensures var s := Apply(cfg, r, OpTick(p.now, p.clock));
            && GoodRecord(s)
            && (Still(s, u.state) <==> Goes(cfg, u, p.now, n + cfg.ticks))
            && (Still(s, u.state) ==> SameTimes(s.slot.user, u, n + cfg.ticks))
  {
    var v := r.slot.user;
    var w := TickUser(cfg, Opened(r), p.now, p.clock).user;
    TickEnds(cfg, Opened(r), p.now, p.clock);
    ApplyGood(cfg, r, OpTick(p.now, p.clock));
    TickKeeps(cfg, r, p.now, p.clock, u.state);
    GoesLater(cfg, u, v, n, p.now);
    if w.state == u.state {
      StillLater(u, v, w, n, cfg.ticks);
    }
  }

  lemma AgingLeft(u: User, r: Record, n: nat)
    requires GoodRecord(r) && Bounded(r) && SameTimes(r.slot.user, u, n)
    ensures Lasts(u.wan.online, n) && Lasts(u.lan.online, n)
  {
  }

  /** No pass finds the time up, and there is idle time for n seconds. */
  predicate Unended(cfg: Config, u: User, ps: seq<Pass>, n: nat) {
    InTime(cfg, u, ps) && Lasts(u.wan.online, n) && Lasts(u.lan.online, n)
  }

  lemma UnendedFirst(cfg: Config, u: User, ps: seq<Pass>, n: nat)
    requires |ps| > 0
    ensures Unended(cfg, u, ps, n + Span(cfg, |ps|)) <==>
            Goes(cfg, u, ps[0].now, n + cfg.ticks) && Unended(cfg, u, ps[1..], n + cfg.ticks + Span(cfg, |ps[1..]|))
  {
    assert ps == [ps[0]] + ps[1..];
    OneTickMore(cfg, |ps| - 1);
  }

  lemma {:induction false} TimedFrom(cfg: Config, u: User, r: Record, n: nat, ps: seq<Pass>)
    requires Timed(u) && GoodRecord(r) && Still(r, u.state) && SameTimes(r.slot.user, u, n)
    ensures Still(Passes(cfg, r, ps), u.state) <==> Unended(cfg, u, ps, n + Span(cfg, |ps|))
    decreases |ps|, 0
  {
    if |ps| == 0 {
      AgingLeft(u, r, n);
    } else {
      TimedOnce(cfg, u, r, n, ps[0]);
      UnendedFirst(cfg, u, ps, n);
      TimedRest(cfg, u, Apply(cfg, r, OpTick(ps[0].now, ps[0].clock)), n + cfg.ticks, ps[1..]);
    }
  }

  lemma {:induction false} TimedRest(cfg: Config, u: User, r: Record, n: nat, ps: seq<Pass>)
    requires Timed(u) && GoodRecord(r) && (Still(r, u.state) ==> SameTimes(r.slot.user, u, n))
    ensures Still(Passes(cfg, r, ps), u.state) <==>
            Still(r, u.state) && Unended(cfg, u, ps, n + Span(cfg, |ps|))
    decreases |ps|, 1
  {
    if Still(r, u.state) {
      TimedFrom(cfg, u, r, n, ps);
    } else {
      NeverAgain(cfg, r, ps, u.state);
    }
  }

  /** Without packets and commands a user is still fake or authorised exactly when no
      pass found its time up and neither type has run out of idle time. */
  lemma TimedExactly(cfg: Config, a: Account, ps: seq<Pass>)
    requires Good(a) && Timed(a.user)
    ensures Still(Passes(cfg, Held(a), ps), a.user.state) <==> Unended(cfg, a.user, ps, Span(cfg, |ps|))
  {
    TimedFrom(cfg, a.user, Held(a), 0, ps);
  }

  /** An authorisation lasts exactly as long as its command says, counted from then
      for WAN and from the bind for LAN. */
  lemma AuthLasts(cfg: Config, a: Account, group: int, lan: LimitPlan, wan: LimitPlan, clock: Time, ps: seq<Pass>)
    requires Good(a) && a.user.HaveBind()
    ensures var since, n := a.user.lan.online.uptime, Span(cfg, |ps|);
            Still(Passes(cfg, Held(EnterAuth(a, group, lan, wan, clock)), ps), Auth) <==>
            (forall i :: 0 <= i < |ps| ==>
                           !Expired(wan.max, clock, ps[i].now) && !Expired(lan.max, since, ps[i].now)) &&
            (wan.idle == 0 || n < wan.idle) && (lan.idle == 0 || n < lan.idle)
  {
    EnterAuthGood(a, group, lan, wan, clock);
    TimedExactly(cfg, EnterAuth(a, group, lan, wan, clock), ps);
  }

  /** And a fake as long as the configuration says. */
  lemma FakeLasts(cfg: Config, a: Account, ip: Ip, clock: Time, ps: seq<Pass>)
    requires Good(a) && a.user.state == None
    ensures Still(Passes(cfg, Held(DoFake(cfg, a, ip, clock)), ps), Fake) <==>
            (forall i :: 0 <= i < |ps| ==> !Expired(cfg.fake, clock, ps[i].now)) &&
            (cfg.idle == 0 || Span(cfg, |ps|) < cfg.idle)
  {
    FakeGood(cfg, a, ip, clock);
    TimedExactly(cfg, DoFake(cfg, a, ip, clock), ps);
  }

  predicate Unexpired(cfg: Config, since: Time, ps: seq<Pass>) {
    forall i :: 0 <= i < |ps| ==> !Expired(cfg.gcuser, since, ps[i].now)
  }

  lemma {:induction false} UnusedFrom(cfg: Config, a: Account, ps: seq<Pass>)
    requires Good(a) && a.user.state == None
    ensures Passes(cfg, Held(a), ps).slot.Present? <==> Unexpired(cfg, a.user.noused, ps)
    decreases |ps|
  {
    if |ps| > 0 {
      var p := ps[0];
      assert ps == [p] + ps[1..];
      TickEffect(cfg, a, p.now, p.clock);
      var r := Apply(cfg, Held(a), OpTick(p.now, p.clock));
      if Expired(cfg.gcuser, a.user.noused, p.now) {
        AbsentStays(cfg, r, ps[1..]);
      } else {
        assert r == Held(a);
        UnusedFrom(cfg, a, ps[1..]);
      }
    }
  }

  lemma {:induction false} AbsentStays(cfg: Config, r: Record, ps: seq<Pass>)
    requires r.slot.Absent?
    ensures Passes(cfg, r, ps) == r
    decreases |ps|
  {
    if |ps| > 0 {
      AbsentStays(cfg, r, ps[1..]);
    }
  }

  /** A user that is unbound is collected by the first pass that comes more than the
      configured time later, and by none before. */
  lemma UnusedLasts(cfg: Config, a: Account, reason: Reason, clock: Time, ps: seq<Pass>)
    requires Good(a) && a.user.HaveBind() && reason != NoReason
    ensures Passes(cfg, Held(DoUnbind(a, reason, clock)), ps).slot.Present? <==> Unexpired(cfg, clock, ps)
  {
    UnbindGood(a, reason, clock);
    UnbindEffect(a, reason, clock);
    UnusedFrom(cfg, DoUnbind(a, reason, clock), ps);
  }

  // ----- sweep -----

  /** Nothing the handlers look for is left at this user. */
  predicate Quiet(cfg: Config, r: Record, now: Time) {
    r.slot.Present? ==>
      var u := r.slot.user;
      && !(u.state == Fake && Expired(cfg.fake, u.faketime, now))
      && !(u.state == Auth && (OnlineOver(u.wan.online, now) || OnlineOver(u.lan.online, now)))
      && !Collectable(cfg, u, now)
  }

  lemma TimeoutsQuiet(cfg: Config, a: Account, now: Time, clock: Time)
    ensures Quiet(cfg.(gcuser := 0), Held(Timeouts(cfg, a, now, clock)), now)
  {
  }

  lemma TickQuiet(cfg: Config, r: Record, now: Time, clock: Time)
    ensures Quiet(cfg, Apply(cfg, r, OpTick(now, clock)), now)
  {
    if r.slot.Present? {
      var a := Opened(r);
      TimeoutsQuiet(cfg, a, now, clock);
      AgingEffect(cfg, Timeouts(cfg, a, now, clock), clock);
      assert Apply(cfg, r, OpTick(now, clock)) == Tick(cfg, a, now, clock);
    }
  }

  /** A pass deletes exactly the users that came to it unused for too long and, when the
      clock was set back by more than that since the pass began, those it unbinds; so
      with a clock that is not behind no bound or blocked user. */
  lemma TickDeletes(cfg: Config, a: Account, now: Time, clock: Time)
    requires Good(a)
    ensures var lasts := Lasts(a.user.wan.online, cfg.ticks) && Lasts(a.user.lan.online, cfg.ticks);
            Tick(cfg, a, now, clock).slot.Absent? <==>
            (a.user.state == None && Expired(cfg.gcuser, a.user.noused, now)) ||
            (a.user.HaveBind() && !lasts && Expired(cfg.gcuser, clock, now))
    ensures now <= clock ==>
              (Tick(cfg, a, now, clock).slot.Absent? <==>
               a.user.state == None && Expired(cfg.gcuser, a.user.noused, now))
  {
    TickEffect(cfg, a, now, clock);
    TickAges(cfg, a, now, clock);
    TickGood(cfg, a, now, clock);
  }

  datatype Visit = Visit(mac: Mac, clock: Time)

  /** What a sweep at time `now` makes of one MAC: a tick for every visit to it. The
      visits come in whatever order the table is walked, and a user that an unbind
      moves in mid-sweep may be met again. */
  function Swept(cfg: Config, r: Record, visits: seq<Visit>, now: Time, m: Mac): Record {
    if |visits| == 0 then r
    else
      var v := visits[|visits| - 1];
      var s := Swept(cfg, r, visits[..|visits| - 1], now, m);
      if v.mac == m then Apply(cfg, s, OpTick(now, v.clock)) else s
  }

  predicate Visited(visits: seq<Visit>, m: Mac) {
    exists i :: 0 <= i < |visits| && visits[i].mac == m
  }

  /** Whatever the order, a sweep leaves every user it visited quiet and every user
      it did not visit untouched. A deleted user stays deleted and its log closed. */
  lemma {:induction false} SweepQuiets(cfg: Config, r: Record, visits: seq<Visit>, now: Time, m: Mac)
    ensures Visited(visits, m) ==> Quiet(cfg, Swept(cfg, r, visits, now, m), now)
    ensures !Visited(visits, m) || r.slot.Absent? ==> Swept(cfg, r, visits, now, m) == r
  {
    if |visits| > 0 {
      var k := |visits| - 1;
      SweepQuiets(cfg, r, visits[..k], now, m);
      TickQuiet(cfg, Swept(cfg, r, visits[..k], now, m), now, visits[k].clock);
      VisitedMore(visits[..k], visits[k], m);
      assert visits == visits[..k] + [visits[k]];
    }
  }

  lemma SweptMore(cfg: Config, r: Record, visits: seq<Visit>, v: Visit, now: Time, m: Mac)
    ensures var s := Swept(cfg, r, visits, now, m);
            Swept(cfg, r, visits + [v], now, m) == if v.mac == m then Apply(cfg, s, OpTick(now, v.clock)) else s
  {
    assert (visits + [v])[..|visits|] == visits;
  }

  lemma {:induction false} SweptSplit(cfg: Config, r: Record, a: seq<Visit>, b: seq<Visit>, now: Time, m: Mac)
    ensures Swept(cfg, r, a + b, now, m) == Swept(cfg, Swept(cfg, r, a, now, m), b, now, m)
    ensures Visited(a + b, m) <==> Visited(a, m) || Visited(b, m)
  {
    if |b| == 0 {
      assert a + b == a;
    } else {
      var k := |b| - 1;
      assert a + b == a + b[..k] + [b[k]] && b == b[..k] + [b[k]];
      SweptSplit(cfg, r, a, b[..k], now, m);
      SweptMore(cfg, r, a + b[..k], b[k], now, m);
      VisitedMore(a + b[..k], b[k], m);
      VisitedMore(b[..k], b[k], m);
    }
  }

  lemma VisitedMore(visits: seq<Visit>, v: Visit, m: Mac)
    ensures Visited(visits + [v], m) <==> Visited(visits, m) || v.mac == m
  {
    var more := visits + [v];
    assert more[|visits|] == v;
    if Visited(visits, m) {
      var i :| 0 <= i < |visits| && visits[i].mac == m;
      assert more[i] == visits[i];
    }
  }
}
