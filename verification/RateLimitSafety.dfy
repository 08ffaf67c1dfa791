/** What eviction, one window of time and other clients can change about the limiter's answers. */
module RateLimitSafety {
  import opened TokenBucket

  /** The tokens a request of `ip` at time t would find; an unknown client would find a full bucket. */
  function Level(cfg: Config, m: Limiters, ip: string, t: real): real {
    if ip in m then Tokens(cfg, m[ip].bucket, t) else cfg.burst as real
  }

  ghost predicate WellFormed(cfg: Config, m: Limiters, now: real) {
    forall ip | ip in m ::
      && m[ip].bucket.last <= m[ip].lastSeen <= now
      && 0.0 <= m[ip].bucket.tokens <= cfg.burst as real
  }

  /** Two maps that no later request can tell apart. */
  ghost predicate Agree(cfg: Config, m: Limiters, n: Limiters, now: real) {
    forall ip, t :: t >= now ==> Level(cfg, m, ip, t) == Level(cfg, n, ip, t)
  }

  lemma RefillNonNegative(cfg: Config, since: real, now: real)
    requires cfg.Valid() && since <= now
    ensures Refill(cfg, since, now) >= 0.0
  {
    RefillIsRateTimesElapsed(cfg, since, now);
  }

  lemma RefillWhenIdle(cfg: Config, since: real, now: real)
    requires cfg.Valid() && cfg.RefillsBeforeEviction() && now - since > IDLE_LIMIT
    ensures Refill(cfg, since, now) >= cfg.burst as real
  {
    RefillIsRateTimesElapsed(cfg, since, now);
    assert cfg.rate * ((now - since) - IDLE_LIMIT) >= 0.0;
  }

  lemma AfterWellFormed(cfg: Config, m: Limiters, e: Event, now: real)
    requires cfg.Valid() && WellFormed(cfg, m, now) && now <= e.at
    ensures WellFormed(cfg, After(cfg, m, e), e.at)
  {
    if e.Request? {
      var b := BucketOf(cfg, m, e.ip, e.at);
      RefillNonNegative(cfg, b.last, e.at);
    }
  }

  /** What a request does to every client's level, seen from outside. */
  lemma ServedLevel(cfg: Config, m: Limiters, ip: string, now: real, other: string, t: real)
    requires cfg.Valid() && t >= now
    ensures other != ip ==> Level(cfg, Served(cfg, m, ip, now), other, t) == Level(cfg, m, other, t)
    ensures Decision(cfg, m, ip, now) <==> Level(cfg, m, ip, now) >= 1.0
    ensures Level(cfg, Served(cfg, m, ip, now), ip, t)
         == if Decision(cfg, m, ip, now)
            then Min(cfg.burst as real, Level(cfg, m, ip, now) - 1.0 + Refill(cfg, now, t))
            else Level(cfg, m, ip, t)
  {
    RefillNonNegative(cfg, now, t);
    var b := BucketOf(cfg, m, ip, now);
    assert Tokens(cfg, b, now) == Level(cfg, m, ip, now);
    assert Served(cfg, m, ip, now)[ip].bucket == Taken(cfg, b, now);
    if Admits(cfg, b, now) {
      assert Taken(cfg, b, now) == Bucket(Tokens(cfg, b, now) - 1.0, now);
    }
  }

  /** Eviction takes away only buckets that are full by then. */
  lemma PrunedLevel(cfg: Config, m: Limiters, now: real, ip: string, t: real)
    requires cfg.Valid() && cfg.RefillsBeforeEviction() && WellFormed(cfg, m, now) && t >= now
    ensures Level(cfg, Pruned(m, now), ip, t) == Level(cfg, m, ip, t)
  {
    if ip in m && now - m[ip].lastSeen > IDLE_LIMIT {
      RefillWhenIdle(cfg, m[ip].bucket.last, t);
    }
  }

  lemma ServedAgree(cfg: Config, m: Limiters, n: Limiters, ip: string, at: real, now: real)
    requires cfg.Valid() && Agree(cfg, m, n, now) && now <= at
    ensures Decision(cfg, m, ip, at) == Decision(cfg, n, ip, at)
    ensures Agree(cfg, Served(cfg, m, ip, at), Served(cfg, n, ip, at), at)
  {
    ServedLevel(cfg, m, ip, at, ip, at);
    ServedLevel(cfg, n, ip, at, ip, at);
    assert Level(cfg, m, ip, at) == Level(cfg, n, ip, at);
    forall other, t | t >= at
      ensures Level(cfg, Served(cfg, m, ip, at), other, t) == Level(cfg, Served(cfg, n, ip, at), other, t)
    {
      assert Level(cfg, m, other, t) == Level(cfg, n, other, t);
      ServedLevel(cfg, m, ip, at, other, t);
      ServedLevel(cfg, n, ip, at, other, t);
    }
  }

  lemma PrunedAgree(cfg: Config, m: Limiters, n: Limiters, at: real, now: real)
    requires cfg.Valid() && cfg.RefillsBeforeEviction()
    requires WellFormed(cfg, m, now) && Agree(cfg, m, n, now) && now <= at
    ensures Agree(cfg, Pruned(m, at), n, at)
  {
    forall ip, t | t >= at ensures Level(cfg, Pruned(m, at), ip, t) == Level(cfg, n, ip, t) {
      PrunedLevel(cfg, m, at, ip, t);
    }
  }

  lemma {:induction false} EvictionHiddenFrom(cfg: Config, m: Limiters, n: Limiters, trace: Trace, now: real,
                                              till: real)
    requires cfg.Valid() && cfg.RefillsBeforeEviction()
    requires WellFormed(cfg, m, now) && Agree(cfg, m, n, now) && Timed(trace, now, till)
    ensures Decisions(cfg, m, trace) == Decisions(cfg, n, WithoutCleanups(trace))
    decreases |trace|
  {
    if trace != [] {
      var e := trace[0];
      AfterWellFormed(cfg, m, e, now);
      if e.Request? {
        ServedAgree(cfg, m, n, e.ip, e.at, now);
        EvictionHiddenFrom(cfg, After(cfg, m, e), After(cfg, n, e), trace[1..], e.at, till);
        assert WithoutCleanups(trace)[1..] == WithoutCleanups(trace[1..]);
      } else {
        PrunedAgree(cfg, m, n, e.at, now);
        EvictionHiddenFrom(cfg, After(cfg, m, e), n, trace[1..], e.at, till);
      }
    }
  }

  /** With enough refill, the pruned map answers every run as a map that never deletes would. */
  lemma EvictionHidden(cfg: Config, trace: Trace, from: real, till: real)
    requires cfg.Valid() && cfg.RefillsBeforeEviction() && Timed(trace, from, till)
    ensures Decisions(cfg, map[], trace) == Decisions(cfg, map[], WithoutCleanups(trace))
  {
    EvictionHiddenFrom(cfg, map[], map[], trace, from, till);
  }

  // ---- The admission bound ----

  ghost predicate NoCleanups(trace: Trace) {
    forall e | e in trace :: e.Request?
  }

  /** Refilling adds at most rate times the time that passes. */
  lemma LevelGrowth(cfg: Config, m: Limiters, ip: string, s: real, t: real)
    requires cfg.Valid() && s <= t
    ensures Level(cfg, m, ip, t) <= Level(cfg, m, ip, s) + Refill(cfg, s, t)
  {
    RefillNonNegative(cfg, s, t);
  }

  /** The tokens one event takes from `ip`, and the refill up to it. */
  lemma EventPays(cfg: Config, m: Limiters, e: Event, ip: string, now: real)
    requires cfg.Valid() && (cfg.RefillsBeforeEviction() || e.Request?)
    requires WellFormed(cfg, m, now) && now <= e.at
    ensures Level(cfg, After(cfg, m, e), ip, e.at)
         <= Level(cfg, m, ip, now) + Refill(cfg, now, e.at)
            - if e.Request? && e.ip == ip && Decision(cfg, m, ip, e.at) then 1.0 else 0.0
  {
    LevelGrowth(cfg, m, ip, now, e.at);
    if e.Request? {
      ServedLevel(cfg, m, e.ip, e.at, ip, e.at);
    } else {
      AfterWellFormed(cfg, m, e, now);
      assert WellFormed(cfg, m, e.at);
      PrunedLevel(cfg, m, e.at, ip, e.at);
    }
  }

  /** Admissions are paid for by the tokens at the start and the refill since. */
  lemma {:induction false} TokensPay(cfg: Config, m: Limiters, trace: Trace, ip: string, now: real, till: real)
    requires cfg.Valid() && (cfg.RefillsBeforeEviction() || NoCleanups(trace))
    requires WellFormed(cfg, m, now) && Timed(trace, now, till)
    ensures Count(DecisionsFor(cfg, m, trace, ip)) as real + Level(cfg, AfterAll(cfg, m, trace), ip, till)
         <= Level(cfg, m, ip, now) + Refill(cfg, now, till)
    decreases |trace|
  {
    if trace == [] {
      LevelGrowth(cfg, m, ip, now, till);
    } else {
      var e := trace[0];
      assert NoCleanups(trace) ==> e in trace && NoCleanups(trace[1..]);
      AfterWellFormed(cfg, m, e, now);
      EventPays(cfg, m, e, ip, now);
      TokensPay(cfg, After(cfg, m, e), trace[1..], ip, e.at, till);
      CountFirst(cfg, m, trace, ip);
    }
  }

  lemma CountFirst(cfg: Config, m: Limiters, trace: Trace, ip: string)
    requires trace != []
    ensures Count(DecisionsFor(cfg, m, trace, ip))
         == Count(DecisionsFor(cfg, After(cfg, m, trace[0]), trace[1..], ip))
            + if trace[0].Request? && trace[0].ip == ip && Decision(cfg, m, ip, trace[0].at) then 1 else 0
  {
    var e := trace[0];
    var rest := DecisionsFor(cfg, After(cfg, m, e), trace[1..], ip);
    assert ([Decision(cfg, m, ip, e.at)] + rest)[1..] == rest;
  }

  lemma LevelBounds(cfg: Config, m: Limiters, ip: string, now: real)
    requires cfg.Valid() && WellFormed(cfg, m, now)
    ensures 0.0 <= Level(cfg, m, ip, now) <= cfg.burst as real
  {
    if ip in m {
      RefillNonNegative(cfg, m[ip].bucket.last, now);
    }
  }

  lemma {:induction false} WellFormedAfterAll(cfg: Config, m: Limiters, trace: Trace, now: real, till: real)
    requires cfg.Valid() && WellFormed(cfg, m, now) && Timed(trace, now, till)
    ensures WellFormed(cfg, AfterAll(cfg, m, trace), till)
    decreases |trace|
  {
    if trace != [] {
      AfterWellFormed(cfg, m, trace[0], now);
      WellFormedAfterAll(cfg, After(cfg, m, trace[0]), trace[1..], trace[0].at, till);
    }
  }

  /**
   One client is admitted at most burst + rate * T times in any window of length T,
   whatever came before it and with cleanups in between.
   */
  lemma AdmissionBound(cfg: Config, before: Trace, window: Trace, ip: string, start: real, from: real, till: real)
    requires cfg.Valid() && (cfg.RefillsBeforeEviction() || NoCleanups(window))
    requires Timed(before, start, from) && Timed(window, from, till)
    ensures Count(DecisionsFor(cfg, AfterAll(cfg, map[], before), window, ip)) as real
         <= cfg.burst as real + cfg.rate * (till - from)
  {
    WellFormedAfterAll(cfg, map[], before, start, from);
    var m := AfterAll(cfg, map[], before);
    TokensPay(cfg, m, window, ip, from, till);
    LevelBounds(cfg, m, ip, from);
    RefillIsRateTimesElapsed(cfg, from, till);
    WellFormedAfterAll(cfg, m, window, from, till);
    LevelBounds(cfg, AfterAll(cfg, m, window), ip, till);
  }

  // ---- Who is admitted ----

  /** Eviction forgets exactly the clients not seen for more than 300 seconds, and changes nothing else. */
  lemma PrunedIff(m: Limiters, now: real, ip: string)
    ensures ip in Pruned(m, now) <==> ip in m && now - m[ip].lastSeen <= 300.0
    ensures ip in Pruned(m, now) ==> Pruned(m, now)[ip] == m[ip]
  {
  }

  /** The requests of this client are at least `gap` apart, and the first that long after `last`. */
  ghost predicate Spaced(trace: Trace, ip: string, gap: real, last: real) {
    trace != [] ==>
      if trace[0].Request? && trace[0].ip == ip then
        trace[0].at - last >= gap && Spaced(trace[1..], ip, gap, trace[0].at)
      else Spaced(trace[1..], ip, gap, last)
  }

  /** The client has what was refilled since `last`, or a full bucket. */
  ghost predicate Refilled(cfg: Config, m: Limiters, ip: string, last: real, now: real) {
    forall t | t >= now :: Level(cfg, m, ip, t) >= Min(cfg.burst as real, Refill(cfg, last, t))
  }

  lemma GapPays(cfg: Config, last: real, at: real, gap: real)
    requires cfg.Valid() && at - last >= gap && cfg.rate * gap >= 1.0
    ensures Refill(cfg, last, at) >= 1.0
  {
    RefillIsRateTimesElapsed(cfg, last, at);
    assert cfg.rate * ((at - last) - gap) >= 0.0;
  }

  lemma PrunedNeverLowers(cfg: Config, m: Limiters, now: real, ip: string, t: real)
    ensures Level(cfg, Pruned(m, now), ip, t) >= Level(cfg, m, ip, t)
  {
  }

  lemma EventRefills(cfg: Config, m: Limiters, e: Event, ip: string, last: real, now: real)
    requires cfg.Valid() && Refilled(cfg, m, ip, last, now) && now <= e.at
    requires e.Request? && e.ip == ip ==> Refill(cfg, last, e.at) >= 1.0 && cfg.burst >= 1
    ensures if e.Request? && e.ip == ip then
              Decision(cfg, m, ip, e.at) && Refilled(cfg, After(cfg, m, e), ip, e.at, e.at)
            else Refilled(cfg, After(cfg, m, e), ip, last, e.at)
  {
    forall t | t >= e.at
      ensures e.Request? && e.ip == ip ==>
                Decision(cfg, m, ip, e.at)
                && Level(cfg, After(cfg, m, e), ip, t) >= Min(cfg.burst as real, Refill(cfg, e.at, t))
      ensures !(e.Request? && e.ip == ip) ==>
                Level(cfg, After(cfg, m, e), ip, t) >= Min(cfg.burst as real, Refill(cfg, last, t))
    {
      assert Level(cfg, m, ip, e.at) >= Min(cfg.burst as real, Refill(cfg, last, e.at));
      if e.Request? {
        ServedLevel(cfg, m, e.ip, e.at, ip, t);
      } else {
        PrunedNeverLowers(cfg, m, e.at, ip, t);
      }
    }
    assert e.at >= e.at;
  }

  lemma {:induction false} SpacedFrom(cfg: Config, m: Limiters, trace: Trace, ip: string, gap: real, last: real,
                                      now: real, till: real)
    requires cfg.Valid() && cfg.burst >= 1 && cfg.rate * gap >= 1.0
    requires Refilled(cfg, m, ip, last, now) && Timed(trace, now, till) && Spaced(trace, ip, gap, last)
    ensures forall d | d in DecisionsFor(cfg, m, trace, ip) :: d
    decreases |trace|
  {
    if trace != [] {
      var e := trace[0];
      if e.Request? && e.ip == ip {
        GapPays(cfg, last, e.at, gap);
        EventRefills(cfg, m, e, ip, last, now);
        SpacedFrom(cfg, After(cfg, m, e), trace[1..], ip, gap, e.at, e.at, till);
      } else {
        EventRefills(cfg, m, e, ip, last, now);
        SpacedFrom(cfg, After(cfg, m, e), trace[1..], ip, gap, last, e.at, till);
      }
    }
  }

  /** A client that leaves a token's refill time between its requests is never refused, in any run. */
  lemma SpacedRequestsAreAdmitted(cfg: Config, trace: Trace, ip: string, gap: real, from: real, till: real)
    requires cfg.Valid() && cfg.burst >= 1 && cfg.rate * gap >= 1.0
    requires Timed(trace, from, till) && Spaced(trace, ip, gap, from - gap)
    ensures forall d | d in DecisionsFor(cfg, map[], trace, ip) :: d
  {
    SpacedFrom(cfg, map[], trace, ip, gap, from - gap, from, till);
  }

  // ---- Independence of clients ----

  ghost predicate SameFor(m: Limiters, n: Limiters, ip: string) {
    (ip in m <==> ip in n) && (ip in m ==> m[ip] == n[ip])
  }

  lemma {:induction false} IndependentFrom(cfg: Config, m: Limiters, n: Limiters, trace: Trace, ip: string)
    requires SameFor(m, n, ip)
    ensures DecisionsFor(cfg, m, trace, ip) == Decisions(cfg, n, Only(trace, ip))
    decreases |trace|
  {
    if trace != [] {
      var e := trace[0];
      if e.Request? && e.ip != ip {
        IndependentFrom(cfg, After(cfg, m, e), n, trace[1..], ip);
      } else {
        assert Only(trace, ip)[1..] == Only(trace[1..], ip);
        IndependentFrom(cfg, After(cfg, m, e), After(cfg, n, e), trace[1..], ip);
      }
    }
  }

  /** What a client is answered in a run is what it is answered when no other client makes a request. */
  lemma ClientsAreIndependent(cfg: Config, trace: Trace, ip: string)
    ensures DecisionsFor(cfg, map[], trace, ip) == Decisions(cfg, map[], Only(trace, ip))
  {
    IndependentFrom(cfg, map[], map[], trace, ip);
  }

  // ---- The refill condition is exactly what eviction needs ----

  /** n requests of one client at one instant. */
  function Volley(ip: string, n: nat, at: real): Trace {
    if n == 0 then [] else [Request(ip, at)] + Volley(ip, n - 1, at)
  }

  function Trues(n: nat): seq<bool> {
    if n == 0 then [] else [true] + Trues(n - 1)
  }

  lemma {:induction false} VolleyTimed(ip: string, n: nat, at: real)
    ensures Timed(Volley(ip, n, at), at, at)
  {
    if n > 0 {
      VolleyTimed(ip, n - 1, at);
      assert Volley(ip, n, at)[1..] == Volley(ip, n - 1, at);
    }
  }

  /** A client with n tokens has n requests admitted at once, and is seen then. */
  lemma {:induction false} VolleyAdmitted(cfg: Config, m: Limiters, ip: string, n: nat, at: real, rest: Trace)
    requires cfg.Valid() && Level(cfg, m, ip, at) >= n as real && WellFormed(cfg, m, at)
    requires m.Keys <= {ip} && (n == 0 ==> ip in m && m[ip].lastSeen == at)
    ensures var after := AfterAll(cfg, m, Volley(ip, n, at));
            && WellFormed(cfg, after, at) && after.Keys == {ip} && after[ip].lastSeen == at
            && Decisions(cfg, m, Volley(ip, n, at) + rest) == Trues(n) + Decisions(cfg, after, rest)
    decreases n
  {
    var volley := Volley(ip, n, at);
    if n == 0 {
      assert volley + rest == rest;
      assert Trues(0) + Decisions(cfg, m, rest) == Decisions(cfg, m, rest);
    } else {
      var next := Served(cfg, m, ip, at);
      assert volley[1..] == Volley(ip, n - 1, at);
      assert (volley + rest)[1..] == volley[1..] + rest;
      AfterWellFormed(cfg, m, Request(ip, at), at);
      ServedLevel(cfg, m, ip, at, ip, at);
      LevelBounds(cfg, m, ip, at);
      VolleyAdmitted(cfg, next, ip, n - 1, at, rest);
      var tail := Decisions(cfg, AfterAll(cfg, next, volley[1..]), rest);
      assert [true] + (Trues(n - 1) + tail) == ([true] + Trues(n - 1)) + tail;
    }
  }

  /** Empty a bucket, let it be evicted while it is not yet full, and empty the new one. */
  function EarlyEviction(cfg: Config, ip: string, at: real): Trace {
    Volley(ip, cfg.burst, 0.0) + ([Cleanup(at)] + Volley(ip, cfg.burst, at))
  }

  lemma EvictionMoment(cfg: Config) returns (at: real)
    requires cfg.Valid() && !cfg.RefillsBeforeEviction()
    ensures at > IDLE_LIMIT && cfg.rate * at < cfg.burst as real
  {
    var slack := cfg.burst as real - cfg.rate * IDLE_LIMIT;
    at := IDLE_LIMIT + slack / (2.0 * (cfg.rate + 1.0));
    var extra := slack / (2.0 * (cfg.rate + 1.0));
    assert extra * (2.0 * (cfg.rate + 1.0)) == slack;
    assert extra > 0.0;
    assert cfg.rate * extra < slack;
  }

  ghost predicate OneClient(trace: Trace, ip: string) {
    forall e | e in trace :: e.Request? ==> e.ip == ip
  }

  lemma {:induction false} OnlyIsAll(trace: Trace, ip: string)
    requires OneClient(trace, ip)
    ensures Only(trace, ip) == trace
  {
    if trace != [] {
      assert trace[0] in trace;
      OnlyIsAll(trace[1..], ip);
    }
  }

  lemma {:induction false} WithoutCleanupsKeeps(trace: Trace, ip: string, from: real, till: real)
    requires Timed(trace, from, till) && OneClient(trace, ip)
    ensures var kept := WithoutCleanups(trace);
            Timed(kept, from, till) && OneClient(kept, ip) && NoCleanups(kept)
  {
    if trace != [] {
      assert trace[0] in trace;
      WithoutCleanupsKeeps(trace[1..], ip, trace[0].at, till);
      var rest := WithoutCleanups(trace[1..]);
      if trace[0].Cleanup? {
        TimedEarlier(rest, trace[0].at, till, from);
      } else {
        assert ([trace[0]] + rest)[1..] == rest;
      }
    }
  }

  lemma TimedEarlier(trace: Trace, from: real, till: real, earlier: real)
    requires Timed(trace, from, till) && earlier <= from
    ensures Timed(trace, earlier, till)
  {
  }

  lemma {:induction false} VolleyThen(ip: string, n: nat, at: real, rest: Trace, till: real)
    requires Timed(rest, at, till) && OneClient(rest, ip)
    ensures Timed(Volley(ip, n, at) + rest, at, till) && OneClient(Volley(ip, n, at) + rest, ip)
  {
    if n == 0 {
      assert Volley(ip, n, at) + rest == rest;
    } else {
      VolleyThen(ip, n - 1, at, rest, till);
      assert (Volley(ip, n, at) + rest)[1..] == Volley(ip, n - 1, at) + rest;
    }
  }

  lemma {:induction false} CountTrues(n: nat, rest: seq<bool>)
    ensures Count(Trues(n) + rest) == n + Count(rest)
  {
    if n == 0 {
      assert Trues(n) + rest == rest;
    } else {
      CountTrues(n - 1, rest);
      assert (Trues(n) + rest)[1..] == Trues(n - 1) + rest;
    }
  }

  lemma EarlyEvictionTimed(cfg: Config, ip: string, at: real)
    requires at >= 0.0
    ensures Timed(EarlyEviction(cfg, ip, at), 0.0, at) && OneClient(EarlyEviction(cfg, ip, at), ip)
  {
    var again := Volley(ip, cfg.burst, at);
    assert again + [] == again;
    VolleyThen(ip, cfg.burst, at, [], at);
    assert ([Cleanup(at)] + again)[1..] == again;
    VolleyThen(ip, cfg.burst, 0.0, [Cleanup(at)] + again, at);
  }

  /** The new bucket is full again, so everything is admitted. */
  lemma EarlyEvictionAdmitted(cfg: Config, ip: string, at: real)
    requires cfg.Valid() && at > IDLE_LIMIT && cfg.burst > 0
    ensures Count(Decisions(cfg, map[], EarlyEviction(cfg, ip, at))) == 2 * cfg.burst
  {
    var again := Volley(ip, cfg.burst, at);
    var rest := [Cleanup(at)] + again;
    VolleyAdmitted(cfg, map[], ip, cfg.burst, 0.0, rest);
    var m := AfterAll(cfg, map[], Volley(ip, cfg.burst, 0.0));
    assert Pruned(m, at) == map[];
    assert rest[1..] == again;
    assert Decisions(cfg, m, rest) == Decisions(cfg, map[], again);
    VolleyAdmitted(cfg, map[], ip, cfg.burst, at, []);
    assert again + [] == again;
    CountTrues(cfg.burst, []);
    assert Trues(cfg.burst) + [] == Trues(cfg.burst);
    CountTrues(cfg.burst, Trues(cfg.burst));
  }

  ghost predicate AlwaysHidden(cfg: Config) {
    forall trace, from, till :: Timed(trace, from, till) ==>
      Decisions(cfg, map[], trace) == Decisions(cfg, map[], WithoutCleanups(trace))
  }

  ghost predicate AlwaysBounded(cfg: Config) {
    forall before, window, ip, start, from, till :: Timed(before, start, from) && Timed(window, from, till) ==>
      Count(DecisionsFor(cfg, AfterAll(cfg, map[], before), window, ip)) as real
      <= cfg.burst as real + cfg.rate * (till - from)
  }

  lemma EarlyEvictionShows(cfg: Config)
    requires cfg.Valid() && !cfg.RefillsBeforeEviction()
    ensures !AlwaysHidden(cfg) && !AlwaysBounded(cfg)
  {
    var at := EvictionMoment(cfg);
    assert cfg.burst > 0 by {
      assert cfg.rate * IDLE_LIMIT >= 0.0;
    }
    var trace := EarlyEviction(cfg, "c", at);
    EarlyEvictionTimed(cfg, "c", at);
    EarlyEvictionAdmitted(cfg, "c", at);
    OnlyIsAll(trace, "c");
    ClientsAreIndependent(cfg, trace, "c");
    assert Timed([], 0.0, 0.0);
    assert AfterAll(cfg, map[], []) == map[];
    assert cfg.rate * (at - 0.0) == cfg.rate * at;
    assert !AlwaysBounded(cfg);
    var kept := WithoutCleanups(trace);
    WithoutCleanupsKeeps(trace, "c", 0.0, at);
    OnlyIsAll(kept, "c");
    ClientsAreIndependent(cfg, kept, "c");
    AdmissionBound(cfg, [], kept, "c", 0.0, 0.0, at);
  }

  /**
   Eviction is invisible in every run, and the admission bound holds in every window, exactly
   when five idle minutes refill a bucket.
   */
  lemma RefillConditionIsExact(cfg: Config)
    requires cfg.Valid()
    ensures AlwaysHidden(cfg) <==> cfg.rate * 300.0 >= cfg.burst as real
    ensures AlwaysBounded(cfg) <==> cfg.rate * 300.0 >= cfg.burst as real
  {
    if cfg.RefillsBeforeEviction() {
      forall trace, from, till | Timed(trace, from, till)
        ensures Decisions(cfg, map[], trace) == Decisions(cfg, map[], WithoutCleanups(trace))
      {
        EvictionHidden(cfg, trace, from, till);
      }
      forall before, window, ip, start, from, till | Timed(before, start, from) && Timed(window, from, till)
        ensures Count(DecisionsFor(cfg, AfterAll(cfg, map[], before), window, ip)) as real
             <= cfg.burst as real + cfg.rate * (till - from)
      {
        AdmissionBound(cfg, before, window, ip, start, from, till);
      }
    } else {
      EarlyEvictionShows(cfg);
    }
  }

  /** The limits the router sets, in production (5 per second, burst 10) and under test. */
  lemma RouterLimits()
    ensures AlwaysHidden(Config(5.0, 10)) && AlwaysBounded(Config(5.0, 10))
    ensures AlwaysHidden(Config(10000.0, 10000)) && AlwaysBounded(Config(10000.0, 10000))
  {
    RefillConditionIsExact(Config(5.0, 10));
    RefillConditionIsExact(Config(10000.0, 10000));
  }
}
