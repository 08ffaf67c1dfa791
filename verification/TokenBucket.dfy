/**
 The limiter's token bucket and the map of buckets, as values. Time is in seconds
 and amounts are real. A bucket starts full, refills at `rate` up to `burst`, and
 a refused request leaves it as it was.
 */
module TokenBucket {

  datatype Config = Config(rate: real, burst: nat) {
    ghost predicate Valid() {
      rate >= 0.0
    }

    /** Five idle minutes refill any bucket. */
    predicate RefillsBeforeEviction() {
      rate * IDLE_LIMIT >= burst as real
    }
  }

  const IDLE_LIMIT := 300.0

  datatype Bucket = Bucket(tokens: real, last: real)

  function Min(a: real, b: real): real {
    if a <= b then a else b
  }

  /** What the rate adds between two instants (see RefillIsRateTimesElapsed). */
  function Refill(cfg: Config, since: real, now: real): real {
    cfg.rate * now - cfg.rate * since
  }

  lemma RefillIsRateTimesElapsed(cfg: Config, since: real, now: real)
    ensures Refill(cfg, since, now) == cfg.rate * (now - since)
  {
  }

  function Tokens(cfg: Config, b: Bucket, now: real): real {
    Min(cfg.burst as real, b.tokens + Refill(cfg, b.last, now))
  }

  function Admits(cfg: Config, b: Bucket, now: real): bool {
    Tokens(cfg, b, now) >= 1.0
  }

  function Taken(cfg: Config, b: Bucket, now: real): Bucket {
    if Admits(cfg, b, now) then Bucket(Tokens(cfg, b, now) - 1.0, now) else b
  }

  datatype Entry = Entry(bucket: Bucket, lastSeen: real)

  type Limiters = map<string, Entry>

  /** The bucket a request of `ip` meets: its own, or a new full one. */
  function BucketOf(cfg: Config, m: Limiters, ip: string, now: real): Bucket {
    if ip in m then m[ip].bucket else Bucket(cfg.burst as real, now)
  }

  /** One request: get, then Allow. */
  function Served(cfg: Config, m: Limiters, ip: string, now: real): Limiters {
    m[ip := Entry(Taken(cfg, BucketOf(cfg, m, ip, now), now), now)]
  }

  function Decision(cfg: Config, m: Limiters, ip: string, now: real): bool {
    Admits(cfg, BucketOf(cfg, m, ip, now), now)
  }

  /** One pass of the background loop. */
  function Pruned(m: Limiters, now: real): Limiters {
    map ip | ip in m && now - m[ip].lastSeen <= IDLE_LIMIT :: m[ip]
  }

  datatype Event = Request(ip: string, at: real) | Cleanup(at: real)

  type Trace = seq<Event>

  function After(cfg: Config, m: Limiters, e: Event): Limiters {
    match e
    case Request(ip, at) => Served(cfg, m, ip, at)
    case Cleanup(at) => Pruned(m, at)
  }

  function AfterAll(cfg: Config, m: Limiters, trace: Trace): Limiters
    decreases |trace|
  {
    if trace == [] then m else AfterAll(cfg, After(cfg, m, trace[0]), trace[1..])
  }

  /** The answers to the requests of a trace, in order. */
  function Decisions(cfg: Config, m: Limiters, trace: Trace): seq<bool>
    decreases |trace|
  {
    if trace == [] then []
    else
      var rest := Decisions(cfg, After(cfg, m, trace[0]), trace[1..]);
      if trace[0].Request? then [Decision(cfg, m, trace[0].ip, trace[0].at)] + rest else rest
  }

  /** The answers that one client gets in the same run. */
  function DecisionsFor(cfg: Config, m: Limiters, trace: Trace, ip: string): seq<bool>
    decreases |trace|
  {
    if trace == [] then []
    else
      var rest := DecisionsFor(cfg, After(cfg, m, trace[0]), trace[1..], ip);
      if trace[0].Request? && trace[0].ip == ip then [Decision(cfg, m, ip, trace[0].at)] + rest else rest
  }

  /** Events in time order, none before `from` and none after `till`. */
  ghost predicate Timed(trace: Trace, from: real, till: real) {
    if trace == [] then from <= till
    else from <= trace[0].at && Timed(trace[1..], trace[0].at, till)
  }

  /** The same requests, served by a map that never forgets. */
  function WithoutCleanups(trace: Trace): Trace {
    if trace == [] then []
    else if trace[0].Cleanup? then WithoutCleanups(trace[1..])
    else [trace[0]] + WithoutCleanups(trace[1..])
  }

  /** The requests of one client, with the cleanups. */
  function Only(trace: Trace, ip: string): Trace {
    if trace == [] then []
    else if trace[0].Request? && trace[0].ip != ip then Only(trace[1..], ip)
    else [trace[0]] + Only(trace[1..], ip)
  }

  function Count(decisions: seq<bool>): nat {
    if decisions == [] then 0
    else (if decisions[0] then 1 else 0) + Count(decisions[1..])
  }
}
