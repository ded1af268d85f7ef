/** The token-bucket limiter: the class as the program has it, and its behaviour over whole
    runs. Times are seconds on the monotonic clock. */
module RateLimit {

  datatype Visitor = Visitor(tokens: real, lastSeen: real)

  type Visitors = map<string, Visitor>

  datatype Config = Config(rate: real, burst: real)

  /** Seconds a visitor may stay away before the sweep forgets it. */
  const IDLE: real := 600.0

  // ----- one request, one sweep

  /** Tokens earned in a stretch of time. */
  function Earned(rate: real, time: real): real {
    time * rate
  }

  function Refill(v: Visitor, since: real, cfg: Config): real {
    var tokens := v.tokens + Earned(cfg.rate, since - v.lastSeen);
    if tokens > cfg.burst then cfg.burst else tokens
  }

  /** The visitor's bucket after a request, and the answer. */
  function Spend(v: Visitor, since: real, stamp: real, cfg: Config): (Visitor, bool) {
    var tokens := Refill(v, since, cfg);
    if tokens < 1.0 then (Visitor(tokens, stamp), false) else (Visitor(tokens - 1.0, stamp), true)
  }

  function Admit(vs: Visitors, cfg: Config, ip: string, since: real, stamp: real): (Visitors, bool) {
    if ip !in vs then (vs[ip := Visitor(cfg.burst - 1.0, stamp)], true)
    else
      var (v, ok) := Spend(vs[ip], since, stamp, cfg);
      (vs[ip := v], ok)
  }

  predicate Idle(v: Visitor, now: real) {
    now - v.lastSeen > IDLE
  }

  /** The visitors that stay; each is judged by its own reading of the clock. */
  function Forget(vs: Visitors, clock: string -> real): Visitors {
    map ip | ip in vs && !Idle(vs[ip], clock(ip)) :: vs[ip]
  }

  class Limiter {
    var visitors: Visitors
    const rate: real
    const burst: real

    ghost function Settings(): Config {
      Config(rate, burst)
    }

    constructor (requestsPerSecond: real, burst: int)
      ensures visitors == map[] && Settings() == Config(requestsPerSecond, burst as real)
    {
      visitors := map[];
      rate := requestsPerSecond;
      this.burst := burst as real;
    }

    /** since is the clock reading that measures the time gone by, stamp the one that is
        stored; a visitor not seen before needs only the second. */
    method Allow(ip: string, since: real, stamp: real) returns (ok: bool)
      modifies this`visitors
      ensures (visitors, ok) == Admit(old(visitors), Settings(), ip, since, stamp)
    {
      if ip !in visitors {
        visitors := visitors[ip := Visitor(burst - 1.0, stamp)];
        return true;
      }
      var v := visitors[ip];
      ghost var spent := Spend(v, since, stamp, Settings());
      var elapsed := since - v.lastSeen;
      v := v.(lastSeen := stamp);
      v := v.(tokens := v.tokens + elapsed * rate);
      if v.tokens > burst {
        v := v.(tokens := burst);
      }
      assert v == Visitor(Refill(old(visitors)[ip], since, Settings()), stamp);
      if v.tokens < 1.0 {
        assert spent == (v, false);
        visitors := visitors[ip := v];
        return false;
      }
      v := v.(tokens := v.tokens - 1.0);
      visitors := visitors[ip := v];
      return true;
    }

    /** One pass of the background sweep; the visitors come in no particular order. */
    method Cleanup(clock: string -> real)
      modifies this`visitors
      ensures visitors == Forget(old(visitors), clock)
    {
      var pending := visitors.Keys;
      while pending != {}
        invariant visitors.Keys <= old(visitors).Keys && pending <= visitors.Keys
        invariant forall ip :: ip in visitors ==> visitors[ip] == old(visitors)[ip]
        invariant forall ip :: ip in old(visitors) && ip !in pending ==>
          (ip in visitors <==> !Idle(old(visitors)[ip], clock(ip)))
        decreases |pending|
      {
        var ip :| ip in pending;
        pending := pending - {ip};
        if clock(ip) - visitors[ip].lastSeen > IDLE {
          visitors := visitors - {ip};
        }
      }
    }
  }

  // ----- runs

  datatype Event =
    | Request(ip: string, since: real, stamp: real)
    | Sweep(begin: real, clock: string -> real, end: real)

  datatype Outcome = Outcome(ip: string, since: real, stamp: real, ok: bool)

  /** The clock never goes back, within an event or from one to the next. */
  ghost predicate Timely(es: seq<Event>, now: real) {
    es == [] || match es[0]
      case Request(_, since, stamp) => now <= since <= stamp && Timely(es[1..], stamp)
      case Sweep(begin, clock, end) =>
        now <= begin <= end && (forall ip :: begin <= clock(ip) <= end) && Timely(es[1..], end)
  }

  /** The answers given in a run. */
  function Log(vs: Visitors, cfg: Config, es: seq<Event>): seq<Outcome>
    decreases |es|
  {
    if es == [] then []
    else match es[0]
      case Request(ip, since, stamp) =>
        var (vs', ok) := Admit(vs, cfg, ip, since, stamp);
        [Outcome(ip, since, stamp, ok)] + Log(vs', cfg, es[1..])
      case Sweep(_, clock, _) => Log(Forget(vs, clock), cfg, es[1..])
  }

  /** The same run for a limiter that never forgets a visitor. */
  function WithoutSweeps(es: seq<Event>): seq<Event> {
    if es == [] then []
    else if es[0].Sweep? then WithoutSweeps(es[1..])
    else [es[0]] + WithoutSweeps(es[1..])
  }

  // ----- forgetting is invisible

  predicate Sensible(cfg: Config) {
    cfg.rate >= 0.0 && cfg.burst >= 1.0
  }

  ghost predicate Sound(vs: Visitors, cfg: Config, now: real) {
    forall ip :: ip in vs ==> 0.0 <= vs[ip].tokens <= cfg.burst && vs[ip].lastSeen <= now
  }

  lemma EarnedAdds(rate: real, a: real, b: real)
    ensures Earned(rate, a) + Earned(rate, b) == Earned(rate, a + b)
  {
  }

  lemma EarnedSome(rate: real, time: real)
    requires rate >= 0.0 && time >= 0.0
    ensures Earned(rate, time) >= 0.0
  {
  }

  lemma EarnedNothing(rate: real)
    ensures Earned(rate, 0.0) == 0.0
  {
  }

  lemma EarnedMore(rate: real, a: real, b: real)
    requires rate >= 0.0 && a <= b
    ensures Earned(rate, a) <= Earned(rate, b)
  {
    hide Earned;
    EarnedAdds(rate, a, b - a);
    EarnedSome(rate, b - a);
  }

  lemma SpendSound(v: Visitor, since: real, stamp: real, cfg: Config)
    requires Sensible(cfg) && 0.0 <= v.tokens <= cfg.burst && v.lastSeen <= since <= stamp
    ensures var (v', ok) := Spend(v, since, stamp, cfg);
      0.0 <= v'.tokens <= cfg.burst && v'.lastSeen == stamp && (ok ==> v'.tokens <= cfg.burst - 1.0)
  {
    hide Earned;
    EarnedSome(cfg.rate, since - v.lastSeen);
  }

  lemma EarnedIdle(cfg: Config)
    requires cfg.rate * 600.0 >= cfg.burst
    ensures Earned(cfg.rate, IDLE) >= cfg.burst
  {
  }

  /** After a long enough pause the bucket is full, just like a new one. */
  lemma FullAfterIdle(v: Visitor, since: real, cfg: Config)
    requires Sensible(cfg) && cfg.rate * 600.0 >= cfg.burst
    requires v.tokens >= 0.0 && Idle(v, since)
    ensures Refill(v, since, cfg) == cfg.burst
  {
    hide Earned;
    EarnedIdle(cfg);
    EarnedMore(cfg.rate, IDLE, since - v.lastSeen);
  }

  /** few is what is left of all after sweeps: what is missing has been idle too long. */
  ghost predicate Forgotten(few: Visitors, all: Visitors, now: real) {
    && few.Keys <= all.Keys
    && (forall ip :: ip in few ==> few[ip] == all[ip])
    && (forall ip :: ip in all && ip !in few ==> Idle(all[ip], now))
  }

  lemma {:induction false} SameLog(few: Visitors, all: Visitors, cfg: Config, es: seq<Event>, now: real)
    requires Sensible(cfg) && cfg.rate * 600.0 >= cfg.burst
    requires Timely(es, now) && Sound(all, cfg, now) && Forgotten(few, all, now)
    ensures Log(few, cfg, es) == Log(all, cfg, WithoutSweeps(es))
    decreases |es|
  {
    hide Refill;
    if es != [] {
      match es[0]
      case Request(ip, since, stamp) =>
        if ip in all {
          SpendSound(all[ip], since, stamp, cfg);
          if ip !in few {
            FullAfterIdle(all[ip], since, cfg);
          }
        }
        var (few', ok) := Admit(few, cfg, ip, since, stamp);
        var (all', ok') := Admit(all, cfg, ip, since, stamp);
        SameLog(few', all', cfg, es[1..], stamp);
        assert WithoutSweeps(es)[1..] == WithoutSweeps(es[1..]);
      case Sweep(begin, clock, end) =>
        SameLog(Forget(few, clock), all, cfg, es[1..], end);
    }
  }

  /** When ten minutes refill the whole bucket, sweeping at any times changes no answer. */
  lemma ForgettingIsInvisible(cfg: Config, es: seq<Event>, now: real)
    requires Sensible(cfg) && cfg.rate * 600.0 >= cfg.burst && Timely(es, now)
    ensures Log(map[], cfg, es) == Log(map[], cfg, WithoutSweeps(es))
  {
    SameLog(map[], map[], cfg, es, now);
  }

  // ----- the sliding window

  /** Admissions of one visitor whose readings of the clock touch the window [s, t]. */
  function Admitted(log: seq<Outcome>, ip: string, s: real, t: real): nat {
    if log == [] then 0
    else (if log[0].ok && log[0].ip == ip && s <= log[0].stamp && log[0].since <= t then 1 else 0)
         + Admitted(log[1..], ip, s, t)
  }

  ghost predicate NoSweeps(es: seq<Event>) {
    forall e :: e in es ==> e.Request?
  }

  lemma {:induction false} LateRequests(vs: Visitors, cfg: Config, es: seq<Event>, now: real, ip: string, s: real, t: real)
    requires NoSweeps(es) && Timely(es, now) && now > t
    ensures Admitted(Log(vs, cfg, es), ip, s, t) == 0
    decreases |es|
  {
    if es != [] {
      var (vs', ok) := Admit(vs, cfg, es[0].ip, es[0].since, es[0].stamp);
      LateRequests(vs', cfg, es[1..], es[0].stamp, ip, s, t);
      var log := Log(vs, cfg, es);
      assert log[1..] == Log(vs', cfg, es[1..]);
    }
  }

  /** What a bucket last touched at v.lastSeen can still admit up to t. */
  function Potential(v: Visitor, cfg: Config, t: real): real {
    v.tokens + Earned(cfg.rate, Ahead(v.lastSeen, t))
  }

  function Ahead(from: real, t: real): real {
    if t > from then t - from else 0.0
  }

  lemma SpendPotential(v: Visitor, since: real, stamp: real, cfg: Config, t: real)
    requires Sensible(cfg) && v.lastSeen <= since <= stamp && since <= t
    ensures var (v', ok) := Spend(v, since, stamp, cfg);
      (if ok then 1.0 else 0.0) + Potential(v', cfg, t) <= Potential(v, cfg, t)
  {
    hide Earned;
    var used, ahead := since - v.lastSeen, Ahead(stamp, t);
    EarnedAdds(cfg.rate, used, ahead);
    EarnedMore(cfg.rate, used + ahead, Ahead(v.lastSeen, t));
  }

  /** Once a visitor has been seen, its admissions are paid for by its potential. */
  lemma {:induction false} PaidByPotential(vs: Visitors, cfg: Config, es: seq<Event>, now: real, ip: string, s: real, t: real)
    requires Sensible(cfg) && NoSweeps(es) && Timely(es, now) && Sound(vs, cfg, now) && ip in vs
    ensures Admitted(Log(vs, cfg, es), ip, s, t) as real <= Potential(vs[ip], cfg, t)
    decreases |es|
  {
    hide Earned, Spend;
    EarnedSome(cfg.rate, Ahead(vs[ip].lastSeen, t));
    if es != [] {
      var e := es[0];
      var (vs', ok) := Admit(vs, cfg, e.ip, e.since, e.stamp);
      if e.ip in vs {
        SpendSound(vs[e.ip], e.since, e.stamp, cfg);
      }
      var log := Log(vs, cfg, es);
      assert log[1..] == Log(vs', cfg, es[1..]);
      PaidByPotential(vs', cfg, es[1..], e.stamp, ip, s, t);
      if e.ip == ip {
        if e.since <= t {
          SpendPotential(vs[ip], e.since, e.stamp, cfg, t);
        } else {
          LateRequests(vs, cfg, es, e.since, ip, s, t);
        }
      }
    }
  }

  lemma FirstInWindow(v: Visitor, cfg: Config, s: real, t: real)
    requires Sensible(cfg) && s <= v.lastSeen && s <= t && v.tokens <= cfg.burst - 1.0
    ensures 1.0 + Potential(v, cfg, t) <= cfg.burst + Earned(cfg.rate, t - s)
  {
    hide Earned;
    EarnedMore(cfg.rate, Ahead(v.lastSeen, t), t - s);
  }

  lemma {:induction false} WindowBoundFrom(vs: Visitors, cfg: Config, es: seq<Event>, now: real, ip: string, s: real, t: real)
    requires Sensible(cfg) && NoSweeps(es) && Timely(es, now) && Sound(vs, cfg, now) && s <= t
    ensures Admitted(Log(vs, cfg, es), ip, s, t) as real <= cfg.burst + Earned(cfg.rate, t - s)
    decreases |es|
  {
    hide Earned, Spend;
    if es == [] {
      EarnedSome(cfg.rate, t - s);
    } else {
      var e := es[0];
      var (vs', ok) := Admit(vs, cfg, e.ip, e.since, e.stamp);
      if e.ip in vs {
        SpendSound(vs[e.ip], e.since, e.stamp, cfg);
      }
      var log := Log(vs, cfg, es);
      assert log[1..] == Log(vs', cfg, es[1..]);
      if e.ip == ip && ok && s <= e.stamp && e.since <= t {
        PaidByPotential(vs', cfg, es[1..], e.stamp, ip, s, t);
        FirstInWindow(vs'[ip], cfg, s, t);
      } else {
        WindowBoundFrom(vs', cfg, es[1..], e.stamp, ip, s, t);
      }
    }
  }

  lemma {:induction false} TimelyWithoutSweeps(es: seq<Event>, now: real, earlier: real)
    requires Timely(es, now) && earlier <= now
    ensures NoSweeps(WithoutSweeps(es)) && Timely(WithoutSweeps(es), earlier)
    decreases |es|
  {
    if es != [] {
      match es[0]
      case Request(_, _, stamp) =>
        TimelyWithoutSweeps(es[1..], stamp, stamp);
        assert WithoutSweeps(es)[1..] == WithoutSweeps(es[1..]);
      case Sweep(_, _, end) => TimelyWithoutSweeps(es[1..], end, earlier);
    }
  }

  ghost predicate WithinBound(cfg: Config, es: seq<Event>, ip: string, s: real, t: real) {
    Admitted(Log(map[], cfg, es), ip, s, t) as real <= cfg.burst + Earned(cfg.rate, t - s)
  }

  ghost predicate AlwaysWithinBound(cfg: Config) {
    forall es: seq<Event>, ip, s, t {:trigger WithinBound(cfg, es, ip, s, t)} ::
      Timely(es, 0.0) && s <= t ==> WithinBound(cfg, es, ip, s, t)
  }

  /** In every run, with sweeps at any times, and in every window, one visitor is admitted at
      most burst + rate * length times. */
  lemma WindowBound(cfg: Config, es: seq<Event>, now: real, ip: string, s: real, t: real)
    requires Sensible(cfg) && cfg.rate * 600.0 >= cfg.burst && Timely(es, now) && s <= t
    ensures WithinBound(cfg, es, ip, s, t)
  {
    ForgettingIsInvisible(cfg, es, now);
    TimelyWithoutSweeps(es, now, now);
    WindowBoundFrom(map[], cfg, WithoutSweeps(es), now, ip, s, t);
  }

  // ----- exactly as strict as the bound

  /** The visitor's time from s on that passed inside its requests, between the reading that
      measures and the reading that is stored, and so earned nothing. */
  function Lost(past: seq<Outcome>, ip: string, s: real): real {
    if past == [] then 0.0
    else LostIn(past[0], ip, s) + Lost(past[1..], ip, s)
  }

  function LostIn(o: Outcome, ip: string, s: real): real {
    if o.ip != ip || o.stamp < s then 0.0
    else if o.since < s then o.stamp - s
    else o.stamp - o.since
  }

  /** What the bound would still leave at time t for the window from s on. */
  function Left(cfg: Config, past: seq<Outcome>, ip: string, s: real, t: real): real {
    cfg.burst + Earned(cfg.rate, t - s - Lost(past, ip, s)) - Admitted(past, ip, s, t) as real
  }

  /** One more admission now would keep every window that ends now within the bound. */
  ghost predicate RoomForOne(cfg: Config, past: seq<Outcome>, ip: string, now: real) {
    forall s :: s <= now ==> Left(cfg, past, ip, s, now) >= 1.0
  }

  /** Nothing later has happened yet, and clocks ran forward. */
  ghost predicate Past(past: seq<Outcome>, now: real) {
    forall o :: o in past ==> o.since <= o.stamp <= now
  }

  lemma {:induction false} AdmittedConcat(a: seq<Outcome>, b: seq<Outcome>, ip: string, s: real, t: real)
    ensures Admitted(a + b, ip, s, t) == Admitted(a, ip, s, t) + Admitted(b, ip, s, t)
    ensures Lost(a + b, ip, s) == Lost(a, ip, s) + Lost(b, ip, s)
    decreases |a|
  {
    hide LostIn;
    if a == [] {
      assert a + b == b;
    } else {
      assert (a + b)[0] == a[0] && (a + b)[1..] == a[1..] + b;
      AdmittedConcat(a[1..], b, ip, s, t);
    }
  }

  lemma {:induction false} AdmittedSoFar(past: seq<Outcome>, ip: string, s: real, t: real, t': real)
    requires Past(past, t) && t <= t'
    ensures Admitted(past, ip, s, t) == Admitted(past, ip, s, t')
    decreases |past|
  {
    if past != [] {
      AdmittedSoFar(past[1..], ip, s, t, t');
    }
  }

  lemma {:induction false} LostSome(past: seq<Outcome>, ip: string, s: real, now: real)
    requires Past(past, now)
    ensures Lost(past, ip, s) >= 0.0
    decreases |past|
  {
    if past != [] {
      LostSome(past[1..], ip, s, now);
    }
  }

  /** After the visitor's last request there is nothing to count. */
  lemma {:induction false} NothingAfter(past: seq<Outcome>, ip: string, s: real, t: real)
    requires forall o :: o in past && o.ip == ip ==> o.stamp < s
    ensures Admitted(past, ip, s, t) == 0 && Lost(past, ip, s) == 0.0
    decreases |past|
  {
    if past != [] {
      NothingAfter(past[1..], ip, s, t);
    }
  }

  /** One more outcome of the visitor, in a window that reaches back to s. */
  lemma OneMore(past: seq<Outcome>, o: Outcome, s: real, t: real)
    requires o.since <= o.stamp <= t && s <= o.stamp
    ensures Admitted(past + [o], o.ip, s, t) == Admitted(past, o.ip, s, t) + if o.ok then 1 else 0
    ensures Lost(past + [o], o.ip, s) == Lost(past, o.ip, s) + if o.since < s then o.stamp - s else o.stamp - o.since
  {
    AdmittedConcat(past, [o], o.ip, s, t);
    assert [o][1..] == [];
    assert Lost([o], o.ip, s) == LostIn(o, o.ip, s) + Lost([], o.ip, s);
  }

  /** The bucket holds exactly what the tightest window leaves. */
  ghost predicate Accounted(v: Visitor, cfg: Config, past: seq<Outcome>, ip: string) {
    && v.tokens <= cfg.burst
    && (forall o :: o in past && o.ip == ip ==> o.stamp <= v.lastSeen)
    && (forall s :: s <= v.lastSeen ==> v.tokens <= Left(cfg, past, ip, s, v.lastSeen))
    && exists s :: s <= v.lastSeen && Left(cfg, past, ip, s, v.lastSeen) <= v.tokens
  }

  ghost predicate AllAccounted(vs: Visitors, cfg: Config, past: seq<Outcome>) {
    && (forall ip :: ip in vs ==> Accounted(vs[ip], cfg, past, ip))
    && (forall o :: o in past ==> o.ip in vs)
  }

  /** What is left of a window grows with what is earned, until the next request. */
  lemma LeftLater(cfg: Config, past: seq<Outcome>, ip: string, s: real, seen: real, at: real)
    requires seen <= at && forall o :: o in past && o.ip == ip ==> o.since <= seen
    ensures Left(cfg, past, ip, s, at) == Left(cfg, past, ip, s, seen) + Earned(cfg.rate, at - seen)
  {
    hide Earned, Admitted, Lost;
    AdmittedUntil(past, ip, s, seen, at);
    EarnedAdds(cfg.rate, seen - s - Lost(past, ip, s), at - seen);
    assert (seen - s - Lost(past, ip, s)) + (at - seen) == at - s - Lost(past, ip, s);
  }

  lemma {:induction false} AdmittedUntil(past: seq<Outcome>, ip: string, s: real, t: real, t': real)
    requires t <= t' && forall o :: o in past && o.ip == ip ==> o.since <= t
    ensures Admitted(past, ip, s, t) == Admitted(past, ip, s, t')
    decreases |past|
  {
    if past != [] {
      AdmittedUntil(past[1..], ip, s, t, t');
    }
  }

  lemma LeftAfter(cfg: Config, past: seq<Outcome>, ip: string, s: real, at: real)
    requires Sensible(cfg) && s <= at && forall o :: o in past && o.ip == ip ==> o.stamp < s
    ensures Left(cfg, past, ip, s, at) >= cfg.burst
  {
    hide Earned, Admitted, Lost;
    NothingAfter(past, ip, s, at);
    EarnedSome(cfg.rate, at - s);
  }

  lemma LeftNow(cfg: Config, past: seq<Outcome>, ip: string, at: real, now: real)
    requires Sensible(cfg) && Past(past, now)
    ensures Left(cfg, past, ip, at, at) <= cfg.burst
  {
    hide Earned, Admitted, Lost;
    LostSome(past, ip, at, now);
    EarnedMore(cfg.rate, at - at - Lost(past, ip, at), 0.0);
    EarnedNothing(cfg.rate);
  }

  /** At the next request the refilled bucket is again what the tightest window leaves. */
  lemma RefillAccounted(v: Visitor, cfg: Config, past: seq<Outcome>, ip: string, now: real, at: real)
    requires Sensible(cfg) && Accounted(v, cfg, past, ip) && Past(past, now) && v.lastSeen <= now <= at
    ensures forall s :: s <= at ==> Refill(v, at, cfg) <= Left(cfg, past, ip, s, at)
    ensures exists s :: s <= at && Left(cfg, past, ip, s, at) <= Refill(v, at, cfg)
  {
    hide Earned, Left;
    EarnedSome(cfg.rate, at - v.lastSeen);
    forall s | s <= at
      ensures Refill(v, at, cfg) <= Left(cfg, past, ip, s, at)
    {
      if s <= v.lastSeen {
        LeftLater(cfg, past, ip, s, v.lastSeen, at);
      } else {
        LeftAfter(cfg, past, ip, s, at);
      }
    }
    var s :| s <= v.lastSeen && Left(cfg, past, ip, s, v.lastSeen) <= v.tokens;
    LeftLater(cfg, past, ip, s, v.lastSeen, at);
    LeftNow(cfg, past, ip, at, now);
  }

  /** So the limiter admits exactly when every window has room. */
  lemma SpendsWhatFits(v: Visitor, cfg: Config, past: seq<Outcome>, ip: string, now: real, since: real, stamp: real)
    requires Sensible(cfg) && Accounted(v, cfg, past, ip) && Past(past, now) && v.lastSeen <= now <= since <= stamp
    ensures Spend(v, since, stamp, cfg).1 <==> RoomForOne(cfg, past, ip, since)
  {
    hide Left, Refill, Accounted;
    RefillAccounted(v, cfg, past, ip, now, since);
    var s :| s <= since && Left(cfg, past, ip, s, since) <= Refill(v, since, cfg);
  }

  /** A request moves every window by what it admits; its own duration earns nothing. */
  lemma LeftSpent(cfg: Config, past: seq<Outcome>, o: Outcome, s: real)
    requires s <= o.since <= o.stamp && Past(past, o.since)
    ensures Left(cfg, past + [o], o.ip, s, o.stamp) == Left(cfg, past, o.ip, s, o.since) - if o.ok then 1.0 else 0.0
  {
    hide Earned, Admitted, Lost;
    OneMore(past, o, s, o.stamp);
    AdmittedSoFar(past, o.ip, s, o.since, o.stamp);
    assert o.stamp - s - (Lost(past, o.ip, s) + (o.stamp - o.since)) == o.since - s - Lost(past, o.ip, s);
  }

  lemma LeftInside(cfg: Config, past: seq<Outcome>, o: Outcome, s: real)
    requires o.since < s <= o.stamp && Past(past, o.since)
    ensures Left(cfg, past + [o], o.ip, s, o.stamp) == cfg.burst - if o.ok then 1.0 else 0.0
  {
    hide Earned, Admitted, Lost;
    OneMore(past, o, s, o.stamp);
    NothingAfter(past, o.ip, s, o.stamp);
    EarnedNothing(cfg.rate);
    assert o.stamp - s - (0.0 + (o.stamp - s)) == 0.0;
  }

  lemma SpendAccounted(v: Visitor, cfg: Config, past: seq<Outcome>, ip: string, now: real, since: real, stamp: real)
    requires Sensible(cfg) && Accounted(v, cfg, past, ip) && Past(past, now) && v.lastSeen <= now <= since <= stamp
    ensures var (v', ok) := Spend(v, since, stamp, cfg);
      Accounted(v', cfg, past + [Outcome(ip, since, stamp, ok)], ip)
  {
    hide Left, Earned;
    var (v', ok) := Spend(v, since, stamp, cfg);
    var o := Outcome(ip, since, stamp, ok);
    RefillAccounted(v, cfg, past, ip, now, since);
    forall s | s <= stamp
      ensures v'.tokens <= Left(cfg, past + [o], ip, s, stamp)
    {
      if s <= since {
        LeftSpent(cfg, past, o, s);
      } else {
        LeftInside(cfg, past, o, s);
      }
    }
    var s :| s <= since && Left(cfg, past, ip, s, since) <= Refill(v, since, cfg);
    LeftSpent(cfg, past, o, s);
    assert s <= v'.lastSeen && Left(cfg, past + [o], ip, s, v'.lastSeen) <= v'.tokens;
  }

  lemma FirstAccounted(cfg: Config, past: seq<Outcome>, ip: string, since: real, stamp: real)
    requires Sensible(cfg) && Past(past, since) && since <= stamp && forall p :: p in past ==> p.ip != ip
    ensures Accounted(Visitor(cfg.burst - 1.0, stamp), cfg, past + [Outcome(ip, since, stamp, true)], ip)
    ensures RoomForOne(cfg, past, ip, since)
  {
    hide Left;
    var o := Outcome(ip, since, stamp, true);
    forall s | s <= stamp
      ensures cfg.burst - 1.0 <= Left(cfg, past + [o], ip, s, stamp)
      ensures s <= since ==> Left(cfg, past, ip, s, since) >= cfg.burst
    {
      if s <= since {
        LeftAfter(cfg, past, ip, s, since);
        LeftSpent(cfg, past, o, s);
      } else {
        LeftInside(cfg, past, o, s);
      }
    }
    LeftNow(cfg, past, ip, since, since);
    LeftSpent(cfg, past, o, since);
    assert Left(cfg, past + [o], ip, since, stamp) <= cfg.burst - 1.0;
  }

  lemma {:induction false} OthersSame(past: seq<Outcome>, o: Outcome, ip: string, s: real, t: real)
    requires o.ip != ip
    ensures Admitted(past + [o], ip, s, t) == Admitted(past, ip, s, t) && Lost(past + [o], ip, s) == Lost(past, ip, s)
  {
    AdmittedConcat(past, [o], ip, s, t);
    assert [o][1..] == [];
    assert Lost([o], ip, s) == LostIn(o, ip, s) + Lost([], ip, s);
  }

  lemma OthersAccounted(v: Visitor, cfg: Config, past: seq<Outcome>, ip: string, o: Outcome)
    requires Accounted(v, cfg, past, ip) && o.ip != ip
    ensures Accounted(v, cfg, past + [o], ip)
  {
    hide Earned, Admitted, Lost;
    forall s
      ensures Left(cfg, past + [o], ip, s, v.lastSeen) == Left(cfg, past, ip, s, v.lastSeen)
    {
      OthersSame(past, o, ip, s, v.lastSeen);
    }
    var s :| s <= v.lastSeen && Left(cfg, past, ip, s, v.lastSeen) <= v.tokens;
    assert Left(cfg, past + [o], ip, s, v.lastSeen) <= v.tokens;
  }

  /** One request: the answer is exactly whether there is room, and the accounts stay right. */
  lemma AccountedStep(vs: Visitors, cfg: Config, past: seq<Outcome>, now: real, ip: string, since: real, stamp: real)
    requires Sensible(cfg) && AllAccounted(vs, cfg, past) && Past(past, now) && Sound(vs, cfg, now) && now <= since <= stamp
    ensures var (vs', ok) := Admit(vs, cfg, ip, since, stamp);
      && (ok <==> RoomForOne(cfg, past, ip, since))
      && AllAccounted(vs', cfg, past + [Outcome(ip, since, stamp, ok)])
  {
    hide Accounted, Spend, RoomForOne;
    var (vs', ok) := Admit(vs, cfg, ip, since, stamp);
    var o := Outcome(ip, since, stamp, ok);
    if ip in vs {
      SpendsWhatFits(vs[ip], cfg, past, ip, now, since, stamp);
      SpendAccounted(vs[ip], cfg, past, ip, now, since, stamp);
    } else {
      FirstAccounted(cfg, past, ip, since, stamp);
    }
    forall other | other in vs' && other != ip
      ensures Accounted(vs'[other], cfg, past + [o], other)
    {
      OthersAccounted(vs[other], cfg, past, other, o);
    }
  }

  /** The i-th answer of a log is what room for one says, given what came before. */
  ghost predicate AnswersRoom(cfg: Config, past: seq<Outcome>, log: seq<Outcome>, i: nat)
    requires i < |log|
  {
    log[i].ok <==> RoomForOne(cfg, past + log[..i], log[i].ip, log[i].since)
  }

  lemma PastLater(past: seq<Outcome>, now: real, o: Outcome)
    requires Past(past, now) && now <= o.since <= o.stamp
    ensures Past(past + [o], o.stamp)
  {
  }

  lemma {:induction false} RunAnswersRoom(vs: Visitors, cfg: Config, es: seq<Event>, past: seq<Outcome>, now: real, i: nat)
    requires Sensible(cfg) && NoSweeps(es) && Timely(es, now) && Sound(vs, cfg, now)
    requires AllAccounted(vs, cfg, past) && Past(past, now) && i < |Log(vs, cfg, es)|
    ensures AnswersRoom(cfg, past, Log(vs, cfg, es), i)
    decreases i
  {
    hide Spend, AllAccounted, RoomForOne, Past;
    var e, log := es[0], Log(vs, cfg, es);
    var (vs', ok) := Admit(vs, cfg, e.ip, e.since, e.stamp);
    var o := Outcome(e.ip, e.since, e.stamp, ok);
    assert log[0] == o && log[1..] == Log(vs', cfg, es[1..]);
    AccountedStep(vs, cfg, past, now, e.ip, e.since, e.stamp);
    if i == 0 {
      assert past + log[..0] == past;
    } else {
      if e.ip in vs {
        SpendSound(vs[e.ip], e.since, e.stamp, cfg);
      }
      PastLater(past, now, o);
      RunAnswersRoom(vs', cfg, es[1..], past + [o], e.stamp, i - 1);
      assert past + [o] + log[1..][..i - 1] == past + log[..i];
    }
  }

  /** In every run, whatever the clock readings, the limiter admits a request exactly when every
      window that ends with it stays within burst + rate * length, the time lost inside requests
      not counted: it neither admits more nor refuses anything that fits. */
  lemma AdmitsExactlyWhatFits(cfg: Config, es: seq<Event>, now: real, i: nat)
    requires Sensible(cfg) && cfg.rate * 600.0 >= cfg.burst && Timely(es, now)
    requires i < |Log(map[], cfg, es)|
    ensures var log := Log(map[], cfg, es);
      log[i].ok <==> RoomForOne(cfg, log[..i], log[i].ip, log[i].since)
  {
    hide RoomForOne;
    var log := Log(map[], cfg, es);
    ForgettingIsInvisible(cfg, es, now);
    TimelyWithoutSweeps(es, now, now);
    RunAnswersRoom(map[], cfg, WithoutSweeps(es), [], now, i);
    assert [] + log[..i] == log[..i];
  }

  /** When the clock stands still inside requests, no time is lost. */
  lemma {:induction false} NothingLost(past: seq<Outcome>, ip: string, s: real)
    requires forall o :: o in past ==> o.since == o.stamp
    ensures Lost(past, ip, s) == 0.0
    decreases |past|
  {
    if past != [] {
      NothingLost(past[1..], ip, s);
    }
  }

  // ----- the condition is exact

  function Repeat(ip: string, k: nat, at: real): seq<Event> {
    if k == 0 then [] else [Request(ip, at, at)] + Repeat(ip, k - 1, at)
  }

  function AllAdmitted(ip: string, k: nat, at: real): seq<Outcome> {
    if k == 0 then [] else [Outcome(ip, at, at, true)] + AllAdmitted(ip, k - 1, at)
  }

  /** A token still in the bucket is spent at once. */
  lemma OneSpent(v: Visitor, cfg: Config, at: real)
    requires v.lastSeen == at && 1.0 <= v.tokens <= cfg.burst
    ensures Spend(v, at, at, cfg) == (Visitor(v.tokens - 1.0, at), true)
  {
    hide Earned;
    EarnedNothing(cfg.rate);
    assert at - v.lastSeen == 0.0;
  }

  lemma NextVisit(vs: Visitors, cfg: Config, ip: string, at: real, es: seq<Event>)
    requires ip in vs && vs[ip].lastSeen == at && 1.0 <= vs[ip].tokens <= cfg.burst
    requires es != [] && es[0] == Request(ip, at, at)
    ensures Log(vs, cfg, es) == [Outcome(ip, at, at, true)] + Log(vs[ip := Visitor(vs[ip].tokens - 1.0, at)], cfg, es[1..])
  {
    hide Spend;
    OneSpent(vs[ip], cfg, at);
  }

  lemma {:induction false} Drain(vs: Visitors, cfg: Config, ip: string, k: nat, at: real, rest: seq<Event>)
    requires ip in vs && vs[ip].lastSeen == at && k as real <= vs[ip].tokens <= cfg.burst
    ensures Log(vs, cfg, Repeat(ip, k, at) + rest) ==
            AllAdmitted(ip, k, at) + Log(vs[ip := Visitor(vs[ip].tokens - k as real, at)], cfg, rest)
    decreases k
  {
    hide Log;
    if k == 0 {
      assert Repeat(ip, 0, at) + rest == rest;
      assert vs[ip := Visitor(vs[ip].tokens - 0.0, at)] == vs;
      assert AllAdmitted(ip, 0, at) + Log(vs, cfg, rest) == Log(vs, cfg, rest);
    } else {
      var es := Repeat(ip, k, at) + rest;
      assert es[0] == Request(ip, at, at) && es[1..] == Repeat(ip, k - 1, at) + rest;
      NextVisit(vs, cfg, ip, at, es);
      var next := Visitor(vs[ip].tokens - 1.0, at);
      Drain(vs[ip := next], cfg, ip, k - 1, at, rest);
      var drained := vs[ip := Visitor(vs[ip].tokens - k as real, at)];
      assert next.tokens - (k - 1) as real == vs[ip].tokens - k as real;
      assert vs[ip := next][ip := Visitor(next.tokens - (k - 1) as real, at)] == drained;
      var o, more, later := [Outcome(ip, at, at, true)], AllAdmitted(ip, k - 1, at), Log(drained, cfg, rest);
      assert o + (more + later) == (o + more) + later;
    }
  }

  /** A visitor not on record gets the whole burst at once. */
  lemma DrainNew(vs: Visitors, cfg: Config, ip: string, b: nat, at: real, rest: seq<Event>)
    requires ip !in vs && b >= 1 && cfg.burst == b as real
    ensures Log(vs, cfg, Repeat(ip, b, at) + rest) ==
            AllAdmitted(ip, b, at) + Log(vs[ip := Visitor(0.0, at)], cfg, rest)
  {
    hide Log, Admit, Refill, Spend;
    var es := Repeat(ip, b, at) + rest;
    var first := Visitor((b - 1) as real, at);
    var vs', drained := vs[ip := first], vs[ip := Visitor(0.0, at)];
    assert es[0] == Request(ip, at, at) && es[1..] == Repeat(ip, b - 1, at) + rest;
    FirstVisit(vs, cfg, ip, at, es);
    Drain(vs', cfg, ip, b - 1, at, rest);
    assert vs'[ip := Visitor(0.0, at)] == drained;
    var o, more, later := [Outcome(ip, at, at, true)], AllAdmitted(ip, b - 1, at), Log(drained, cfg, rest);
    assert o + (more + later) == (o + more) + later;
  }

  lemma FirstVisit(vs: Visitors, cfg: Config, ip: string, at: real, es: seq<Event>)
    requires ip !in vs && es != [] && es[0] == Request(ip, at, at)
    ensures Log(vs, cfg, es) == [Outcome(ip, at, at, true)] + Log(vs[ip := Visitor(cfg.burst - 1.0, at)], cfg, es[1..])
  {
  }

  lemma {:induction false} CountAll(ip: string, k: nat, at: real, rest: seq<Outcome>, s: real, t: real)
    requires s <= at <= t
    ensures Admitted(AllAdmitted(ip, k, at) + rest, ip, s, t) == k + Admitted(rest, ip, s, t)
    decreases k
  {
    var log := AllAdmitted(ip, k, at) + rest;
    if k == 0 {
      assert log == rest;
    } else {
      assert log[1..] == AllAdmitted(ip, k - 1, at) + rest;
      CountAll(ip, k - 1, at, rest, s, t);
    }
  }

  lemma {:induction false} TimelyRepeat(ip: string, k: nat, at: real, rest: seq<Event>, now: real)
    requires now <= at && Timely(rest, at)
    ensures k >= 1 ==> Timely(Repeat(ip, k, at) + rest, now)
    decreases k
  {
    var es := Repeat(ip, k, at) + rest;
    if k >= 1 {
      assert es[1..] == Repeat(ip, k - 1, at) + rest;
      if k == 1 {
        assert es[1..] == rest;
      }
      TimelyRepeat(ip, k - 1, at, rest, at);
    }
  }

  /** A burst, a pause just long enough to be forgotten, and a second burst. */
  function TwoBursts(ip: string, b: nat, pause: real): seq<Event> {
    Repeat(ip, b, 0.0) + ([Sweep(pause, _ => pause, pause)] + (Repeat(ip, b, pause) + []))
  }

  lemma TwoBurstsLog(cfg: Config, ip: string, b: nat, pause: real)
    requires b >= 1 && cfg.burst == b as real && pause > IDLE
    ensures Timely(TwoBursts(ip, b, pause), 0.0)
    ensures Admitted(Log(map[], cfg, TwoBursts(ip, b, pause)), ip, 0.0, pause) == 2 * b
  {
    var second := Repeat(ip, b, pause) + [];
    var tail := [Sweep(pause, _ => pause, pause)] + second;
    TimelyRepeat(ip, b, pause, [], pause);
    assert tail[1..] == second;
    TimelyRepeat(ip, b, 0.0, tail, 0.0);
    DrainNew(map[], cfg, ip, b, 0.0, tail);
    var vs: Visitors := map[ip := Visitor(0.0, 0.0)];
    assert map[][ip := Visitor(0.0, 0.0)] == vs;
    assert Forget(vs, tail[0].clock) == map[];
    DrainNew(map[], cfg, ip, b, pause, []);
    CountAll(ip, b, 0.0, Log(vs, cfg, tail), 0.0, pause);
    CountAll(ip, b, pause, Log(map[][ip := Visitor(0.0, pause)], cfg, []), 0.0, pause);
  }

  /** For a whole burst of at least one, sweeping is invisible in every run exactly when ten
      minutes refill the bucket; and only then does the window bound hold in every run. */
  lemma InvisibleExactlyWhenRefilled(rate: real, b: nat)
    requires rate >= 0.0 && b >= 1
    ensures rate * 600.0 >= b as real <==>
            forall es: seq<Event> :: Timely(es, 0.0) ==>
              Log(map[], Config(rate, b as real), es) == Log(map[], Config(rate, b as real), WithoutSweeps(es))
    ensures rate * 600.0 >= b as real <==>
            AlwaysWithinBound(Config(rate, b as real))
  {
    var cfg := Config(rate, b as real);
    if rate * 600.0 >= b as real {
      forall es: seq<Event> | Timely(es, 0.0)
        ensures Log(map[], cfg, es) == Log(map[], cfg, WithoutSweeps(es))
      {
        ForgettingIsInvisible(cfg, es, 0.0);
      }
      forall es: seq<Event>, ip, s, t | Timely(es, 0.0) && s <= t
        ensures WithinBound(cfg, es, ip, s, t)
      {
        WindowBound(cfg, es, 0.0, ip, s, t);
      }
    } else {
      var es, pause := SweepShows(rate, b);
    }
  }

  lemma SweepShows(rate: real, b: nat) returns (es: seq<Event>, pause: real)
    requires rate >= 0.0 && b >= 1 && rate * 600.0 < b as real
    ensures pause > 0.0 && Timely(es, 0.0)
    ensures !WithinBound(Config(rate, b as real), es, "", 0.0, pause)
    ensures Log(map[], Config(rate, b as real), es) != Log(map[], Config(rate, b as real), WithoutSweeps(es))
  {
    var cfg := Config(rate, b as real);
    pause := ShortPause(rate, b);
    es := TwoBursts("", b, pause);
    TwoBurstsLog(cfg, "", b, pause);
    TimelyWithoutSweeps(es, 0.0, 0.0);
    WindowBoundFrom(map[], cfg, WithoutSweeps(es), 0.0, "", 0.0, pause);
  }

  lemma Share(whole: real, rate: real)
    requires rate > 0.0
    ensures whole / rate * rate == whole
  {
  }

  lemma LongerPause(rate: real, full: real)
    requires rate > 0.0 && Earned(rate, IDLE) < Earned(rate, full)
    ensures full > IDLE
  {
    hide Earned;
    if full <= IDLE {
      EarnedMore(rate, full, IDLE);
      assert false;
    }
  }

  lemma EarnedTimes(rate: real, time: real)
    ensures Earned(rate, time) == time * rate == rate * time
  {
  }

  lemma HalfWay(rate: real, a: real, b: real)
    ensures rate * ((a + b) / 2.0) == (rate * a + rate * b) / 2.0
  {
  }

  /** A pause that outlasts the sweep and still does not refill the bucket. */
  lemma ShortPause(rate: real, b: nat) returns (pause: real)
    requires rate >= 0.0 && b >= 1 && rate * 600.0 < b as real
    ensures pause > IDLE && rate * pause < b as real
  {
    if rate == 0.0 {
      pause := 601.0;
    } else {
      var full := b as real / rate;
      Share(b as real, rate);
      EarnedTimes(rate, full);
      EarnedTimes(rate, IDLE);
      hide Earned;
      LongerPause(rate, full);
      pause := (IDLE + full) / 2.0;
      HalfWay(rate, IDLE, full);
    }
  }
}
