/** The per-IP limiter of the HTTP middleware, updating its buckets in place. */
module RateLimiter {
  import opened Wrappers
  import opened TokenBucket
  import RateLimitSafety

  /** What the limiter reads of a request; `host` is net.SplitHostPort of the remote address, if it parses. */
  datatype HttpRequest = HttpRequest(forwardedFor: string, remoteAddr: string, host: Option<string>)

  /** unicode.IsSpace */
  predicate IsSpace(c: char) {
    var n := c as int;
    || 0x09 <= n <= 0x0d || n == 0x20 || n == 0x85 || n == 0xa0 || n == 0x1680 || 0x2000 <= n <= 0x200a
    || n == 0x2028 || n == 0x2029 || n == 0x202f || n == 0x205f || n == 0x3000
  }

  /** strings.Split(s, ",")[0] */
  function FirstElement(s: string): (r: string)
    ensures r <= s && ',' !in r && (|r| < |s| ==> s[|r|] == ',')
  {
    if s == "" || s[0] == ',' then "" else [s[0]] + FirstElement(s[1..])
  }

  function TrimLeft(s: string): (r: string)
    ensures |r| <= |s| && r == s[|s| - |r|..]
    ensures r != "" ==> !IsSpace(r[0])
    ensures forall i | 0 <= i < |s| - |r| :: IsSpace(s[i])
  {
    if s == "" || !IsSpace(s[0]) then s else TrimLeft(s[1..])
  }

  function TrimRight(s: string): (r: string)
    ensures r <= s
    ensures r != "" ==> !IsSpace(r[|r| - 1])
    ensures forall i | |r| <= i < |s| :: IsSpace(s[i])
  {
    if s == "" || !IsSpace(s[|s| - 1]) then s else TrimRight(s[..|s| - 1])
  }

  function TrimSpace(s: string): string {
    TrimRight(TrimLeft(s))
  }

  predicate AllSpace(s: string) {
    forall k | 0 <= k < |s| :: IsSpace(s[k])
  }

  /** s is white space, r, and white space, and r has none at its ends. */
  ghost predicate IsTrimmed(s: string, r: string) {
    && (exists before, after :: s == before + r + after && AllSpace(before) && AllSpace(after))
    && (r != "" ==> !IsSpace(r[0]) && !IsSpace(r[|r| - 1]))
  }

  lemma LeftPart(s: string) returns (before: string)
    ensures s == before + TrimLeft(s) && AllSpace(before)
  {
    before := s[..|s| - |TrimLeft(s)|];
  }

  lemma RightPart(s: string) returns (after: string)
    ensures s == TrimRight(s) + after && AllSpace(after)
  {
    after := s[|TrimRight(s)|..];
  }

  lemma TrimSpaceTrims(s: string)
    ensures IsTrimmed(s, TrimSpace(s))
    ensures TrimSpace(s) == "" <==> AllSpace(s)
  {
    var before := LeftPart(s);
    var after := RightPart(TrimLeft(s));
    var r := TrimSpace(s);
    assert before + (r + after) == before + r + after;
    assert r != "" ==> r[0] == TrimLeft(s)[0];
    AllSpaceConcat(before, r + after);
    AllSpaceConcat(r, after);
    NotAllSpace(r);
  }

  lemma NotAllSpace(r: string)
    ensures r != "" && !IsSpace(r[0]) ==> !AllSpace(r)
  {
  }

  lemma AllSpaceConcat(a: string, b: string)
    ensures AllSpace(a + b) <==> AllSpace(a) && AllSpace(b)
  {
    if AllSpace(a + b) {
      assert forall k | 0 <= k < |a| :: a[k] == (a + b)[k];
      assert forall k | 0 <= k < |b| :: b[k] == (a + b)[|a| + k];
    }
  }

  function ClientIP(trustProxy: bool, r: HttpRequest): string {
    if trustProxy && r.forwardedFor != "" && TrimSpace(FirstElement(r.forwardedFor)) != "" then
      TrimSpace(FirstElement(r.forwardedFor))
    else if r.host.Some? then r.host.value
    else r.remoteAddr
  }

  lemma {:induction false} FirstElementBefore(s: string, rest: string)
    requires ',' !in s
    ensures FirstElement(s + "," + rest) == s
  {
    if s == "" {
      assert (s + "," + rest)[0] == ',';
    } else {
      assert (s + "," + rest)[1..] == s[1..] + "," + rest;
      FirstElementBefore(s[1..], rest);
    }
  }

  lemma {:induction false} FirstElementAll(s: string)
    requires ',' !in s
    ensures FirstElement(s) == s
  {
    if s != "" {
      FirstElementAll(s[1..]);
    }
  }

  /** Behind a proxy only the leftmost hop counts: what follows its comma changes nothing. */
  lemma LeftmostHopCounts(r: HttpRequest, rest: string)
    requires ',' !in r.forwardedFor && TrimSpace(r.forwardedFor) != ""
    ensures ClientIP(true, r.(forwardedFor := r.forwardedFor + "," + rest)) == TrimSpace(r.forwardedFor)
    ensures ClientIP(true, r) == TrimSpace(r.forwardedFor)
  {
    FirstElementBefore(r.forwardedFor, rest);
    FirstElementAll(r.forwardedFor);
    assert TrimSpace("") == "";
  }

  /** This is what stands before the first comma. */
  predicate IsFirstElement(s: string, first: string) {
    first <= s && ',' !in first && (|first| < |s| ==> s[|first|] == ',')
  }

  lemma {:induction false} FirstElementIs(s: string, first: string)
    requires IsFirstElement(s, first)
    ensures FirstElement(s) == first
  {
    assert first != "" ==> first[0] == s[0];
    if s != "" && s[0] != ',' {
      FirstElementIs(s[1..], first[1..]);
    }
  }

  /**
   The key of a request. Behind a trusted proxy it is the leftmost address of the header, trimmed,
   unless that is blank; otherwise the host of the connection, whatever its port, and the whole
   address when that does not parse.
   */
  lemma ClientIPIs(trustProxy: bool, r: HttpRequest, first: string)
    requires IsFirstElement(r.forwardedFor, first)
    ensures var ip := ClientIP(trustProxy, r);
            if trustProxy && !AllSpace(first) then ip != "" && IsTrimmed(first, ip)
            else if r.host.Some? then ip == r.host.value else ip == r.remoteAddr
  {
    FirstElementIs(r.forwardedFor, first);
    TrimSpaceTrims(first);
  }

  /** What happens to a limiter: a request, or the background loop waking up. */
  datatype Input = Incoming(request: HttpRequest, at: real) | Wake(at: real)

  function AsEvent(trustProxy: bool, input: Input): Event {
    match input
    case Incoming(request, at) => Request(ClientIP(trustProxy, request), at)
    case Wake(at) => Event.Cleanup(at)
  }

  function AsTrace(trustProxy: bool, inputs: seq<Input>): Trace {
    if inputs == [] then [] else [AsEvent(trustProxy, inputs[0])] + AsTrace(trustProxy, inputs[1..])
  }

  /** The same input, but for the X-Forwarded-For header of a request. */
  predicate SameButHeader(a: Input, b: Input) {
    && a.at == b.at
    && (a.Incoming? <==> b.Incoming?)
    && (a.Incoming? ==> a.request.(forwardedFor := "") == b.request.(forwardedFor := ""))
  }

  /** Without a trusted proxy, no X-Forwarded-For header changes any answer of any run. */
  lemma {:induction false} HeaderIgnored(cfg: Config, m: Limiters, a: seq<Input>, b: seq<Input>)
    requires |a| == |b| && forall i | 0 <= i < |a| :: SameButHeader(a[i], b[i])
    ensures Decisions(cfg, m, AsTrace(false, a)) == Decisions(cfg, m, AsTrace(false, b))
    ensures AfterAll(cfg, m, AsTrace(false, a)) == AfterAll(cfg, m, AsTrace(false, b))
    decreases |a|
  {
    if a != [] {
      assert SameButHeader(a[0], b[0]);
      var e := AsEvent(false, a[0]);
      assert AsTrace(false, a)[0] == AsTrace(false, b)[0] == e;
      assert AsTrace(false, a)[1..] == AsTrace(false, a[1..]);
      assert AsTrace(false, b)[1..] == AsTrace(false, b[1..]);
      HeaderIgnored(cfg, After(cfg, m, e), a[1..], b[1..]);
    }
  }

  /** Among the answers to the requests of a trace, those that one client got. */
  function AnswersTo(trace: Trace, answers: seq<bool>, ip: string): seq<bool> {
    if trace == [] || answers == [] then []
    else if trace[0].Cleanup? then AnswersTo(trace[1..], answers, ip)
    else (if trace[0].ip == ip then [answers[0]] else []) + AnswersTo(trace[1..], answers[1..], ip)
  }

  lemma {:induction false} AnswersAreDecisions(cfg: Config, m: Limiters, trace: Trace, ip: string)
    ensures AnswersTo(trace, Decisions(cfg, m, trace), ip) == DecisionsFor(cfg, m, trace, ip)
    decreases |trace|
  {
    if trace != [] {
      var next := After(cfg, m, trace[0]);
      AnswersAreDecisions(cfg, next, trace[1..], ip);
      if trace[0].Request? {
        assert Decisions(cfg, m, trace)[1..] == Decisions(cfg, next, trace[1..]);
      } else if Decisions(cfg, m, trace) == [] {
        NoAnswers(cfg, next, trace[1..], ip);
      }
    }
  }

  lemma {:induction false} NoAnswers(cfg: Config, m: Limiters, trace: Trace, ip: string)
    requires Decisions(cfg, m, trace) == []
    ensures DecisionsFor(cfg, m, trace, ip) == []
    decreases |trace|
  {
    if trace != [] {
      NoAnswers(cfg, After(cfg, m, trace[0]), trace[1..], ip);
    }
  }

  /** Among the answers to the requests of a run, those to the requests that `who` selects. */
  function AnswersWhere(inputs: seq<Input>, answers: seq<bool>, who: HttpRequest -> bool): seq<bool> {
    if inputs == [] || answers == [] then []
    else if inputs[0].Wake? then AnswersWhere(inputs[1..], answers, who)
    else (if who(inputs[0].request) then [answers[0]] else []) + AnswersWhere(inputs[1..], answers[1..], who)
  }

  /** The requests over connections from this host, from any port. */
  function From(host: string): HttpRequest -> bool {
    (r: HttpRequest) => r.host == Some(host)
  }

  /** The requests that a proxy forwarded for this address. */
  function ForwardedFor(address: string): HttpRequest -> bool {
    (r: HttpRequest) => TrimSpace(FirstElement(r.forwardedFor)) == address
  }

  lemma {:induction false} SelectedShareKey(trustProxy: bool, inputs: seq<Input>, answers: seq<bool>,
                                            who: HttpRequest -> bool, key: string)
    requires forall r: HttpRequest :: who(r) ==> ClientIP(trustProxy, r) == key
    ensures Count(AnswersWhere(inputs, answers, who)) <= Count(AnswersTo(AsTrace(trustProxy, inputs), answers, key))
    decreases |inputs|
  {
    if inputs != [] && answers != [] {
      var trace := AsTrace(trustProxy, inputs);
      assert trace[0] == AsEvent(trustProxy, inputs[0]) && trace[1..] == AsTrace(trustProxy, inputs[1..]);
      if inputs[0].Wake? {
        SelectedShareKey(trustProxy, inputs[1..], answers, who, key);
      } else {
        SelectedShareKey(trustProxy, inputs[1..], answers[1..], who, key);
        CountConcat(if who(inputs[0].request) then [answers[0]] else [], AnswersWhere(inputs[1..], answers[1..], who));
        CountConcat(if trace[0].ip == key then [answers[0]] else [], AnswersTo(trace[1..], answers[1..], key));
      }
    }
  }

  lemma {:induction false} CountConcat(a: seq<bool>, b: seq<bool>)
    ensures Count(a + b) == Count(a) + Count(b)
  {
    if a == [] {
      assert a + b == b;
    } else {
      assert (a + b)[1..] == a[1..] + b;
      CountConcat(a[1..], b);
    }
  }

  lemma DecisionsFirst(cfg: Config, m: Limiters, trace: Trace)
    requires trace != []
    ensures Decisions(cfg, m, trace)
         == Decisions(cfg, m, [trace[0]]) + Decisions(cfg, After(cfg, m, trace[0]), trace[1..])
  {
    assert [trace[0]][1..] == [];
  }

  /** One client's bucket, with the time of its last request. */
  class IpLimiter {
    var bucket: Bucket
    var lastSeen: real

    constructor (bucket: Bucket, lastSeen: real)
      ensures this.bucket == bucket && this.lastSeen == lastSeen
    {
      this.bucket := bucket;
      this.lastSeen := lastSeen;
    }

    method Allow(cfg: Config, now: real) returns (ok: bool)
      modifies this`bucket
      ensures ok == Admits(cfg, old(bucket), now) && bucket == Taken(cfg, old(bucket), now)
    {
      var tokens := bucket.tokens + Refill(cfg, bucket.last, now);
      if tokens > cfg.burst as real {
        tokens := cfg.burst as real;
      }
      ok := tokens - 1.0 >= 0.0;
      if ok {
        bucket := Bucket(tokens - 1.0, now);
      }
    }
  }

  class RateLimiter {
    const cfg: Config
    const trustProxy: bool
    var limiters: map<string, IpLimiter>

    /** No two clients share a bucket. */
    ghost predicate Valid()
      reads this
    {
      forall a, b | a in limiters && b in limiters && a != b :: limiters[a] != limiters[b]
    }

    ghost function View(): Limiters
      reads this, limiters.Values
    {
      map ip | ip in limiters :: Entry(limiters[ip].bucket, limiters[ip].lastSeen)
    }

    constructor (cfg: Config, trustProxy: bool)
      ensures Valid() && limiters == map[] && View() == map[] && this.cfg == cfg && this.trustProxy == trustProxy
    {
      this.cfg := cfg;
      this.trustProxy := trustProxy;
      limiters := map[];
    }

    method Get(ip: string, now: real) returns (entry: IpLimiter)
      requires Valid()
      modifies this, limiters.Values
      ensures Valid() && fresh(limiters.Values - old(limiters.Values))
      ensures ip in limiters && entry == limiters[ip]
      ensures View() == old(View())[ip := Entry(BucketOf(cfg, old(View()), ip, now), now)]
    {
      if ip !in limiters {
        entry := new IpLimiter(Bucket(cfg.burst as real, now), now);
        limiters := limiters[ip := entry];
      }
      entry := limiters[ip];
      entry.lastSeen := now;
    }

    /** The background loop's work each time it wakes up. */
    method Cleanup(now: real)
      requires Valid()
      modifies this
      ensures Valid() && limiters.Values <= old(limiters.Values)
      ensures View() == Pruned(old(View()), now)
    {
      var todo := limiters.Keys;
      ghost var all := limiters;
      while todo != {}
        invariant limiters.Keys <= all.Keys && todo <= limiters.Keys
        invariant forall ip | ip in limiters :: limiters[ip] == all[ip]
        invariant forall ip | ip in all && ip !in todo :: ip in limiters <==> now - all[ip].lastSeen <= IDLE_LIMIT
        decreases |todo|
      {
        var ip :| ip in todo;
        if now - limiters[ip].lastSeen > IDLE_LIMIT {
          limiters := limiters - {ip};
        }
        todo := todo - {ip};
      }
    }

    method Limit(r: HttpRequest, now: real) returns (admitted: bool)
      requires Valid()
      modifies this, limiters.Values
      ensures Valid() && fresh(limiters.Values - old(limiters.Values))
      ensures admitted == Decision(cfg, old(View()), ClientIP(trustProxy, r), now)
      ensures View() == Served(cfg, old(View()), ClientIP(trustProxy, r), now)
    {
      var ip := ClientIP(trustProxy, r);
      var entry := Get(ip, now);
      ghost var before := View();
      assert before[ip] == Entry(entry.bucket, now);
      admitted := entry.Allow(cfg, now);
      assert View() == before[ip := Entry(entry.bucket, now)];
    }

    method Handle(input: Input) returns (answer: seq<bool>)
      requires Valid()
      modifies this, limiters.Values
      ensures Valid() && fresh(limiters.Values - old(limiters.Values))
      ensures View() == After(cfg, old(View()), AsEvent(trustProxy, input))
      ensures answer == Decisions(cfg, old(View()), [AsEvent(trustProxy, input)])
    {
      match input
      case Incoming(request, at) =>
        var admitted := Limit(request, at);
        answer := [admitted];
      case Wake(at) =>
        Cleanup(at);
        answer := [];
    }

    /** A run of the limiter; its answers are the decisions of the trace. */
    method HandleAll(inputs: seq<Input>) returns (answers: seq<bool>)
      requires Valid()
      modifies this, limiters.Values
      ensures Valid() && fresh(limiters.Values - old(limiters.Values))
      ensures answers == Decisions(cfg, old(View()), AsTrace(trustProxy, inputs))
      ensures View() == AfterAll(cfg, old(View()), AsTrace(trustProxy, inputs))
      decreases |inputs|
    {
      if inputs == [] {
        return [];
      }
      DecisionsFirst(cfg, View(), AsTrace(trustProxy, inputs));
      var first := Handle(inputs[0]);
      var rest := HandleAll(inputs[1..]);
      answers := first + rest;
    }
  }

  /** What a new limiter answers: with enough refill, what one that never forgets a client would. */
  method Run(cfg: Config, trustProxy: bool, inputs: seq<Input>, ghost from: real, ghost till: real)
    returns (answers: seq<bool>)
    requires cfg.Valid() && Timed(AsTrace(trustProxy, inputs), from, till)
    ensures answers == Decisions(cfg, map[], AsTrace(trustProxy, inputs))
    ensures cfg.RefillsBeforeEviction() ==>
              answers == Decisions(cfg, map[], WithoutCleanups(AsTrace(trustProxy, inputs)))
  {
    var limiter := new RateLimiter(cfg, trustProxy);
    answers := limiter.HandleAll(inputs);
    if cfg.RefillsBeforeEviction() {
      RateLimitSafety.EvictionHidden(cfg, AsTrace(trustProxy, inputs), from, till);
    }
  }

  /**
   In any window of time, after any history, it admits each client at most burst + rate * T times:
   each remote host, from all of its ports together, or each address that a trusted proxy names.
   */
  method RunWindow(cfg: Config, trustProxy: bool, before: seq<Input>, window: seq<Input>,
                   ghost start: real, ghost from: real, ghost till: real)
    returns (answers: seq<bool>)
    requires cfg.Valid()
    requires Timed(AsTrace(trustProxy, before), start, from) && Timed(AsTrace(trustProxy, window), from, till)
    ensures cfg.RefillsBeforeEviction() && !trustProxy ==>
              forall host :: Count(AnswersWhere(window, answers, From(host))) as real
                             <= cfg.burst as real + cfg.rate * (till - from)
    ensures cfg.RefillsBeforeEviction() && trustProxy ==>
              forall address | address != "" ::
                Count(AnswersWhere(window, answers, ForwardedFor(address))) as real
                <= cfg.burst as real + cfg.rate * (till - from)
  {
    var limiter := new RateLimiter(cfg, trustProxy);
    var _ := limiter.HandleAll(before);
    ghost var m := limiter.View();
    answers := limiter.HandleAll(window);
    if cfg.RefillsBeforeEviction() {
      forall key: string
        ensures var who := if trustProxy then ForwardedFor(key) else From(key);
                (trustProxy ==> key != "") ==>
                  Count(AnswersWhere(window, answers, who)) as real <= cfg.burst as real + cfg.rate * (till - from)
      {
        if trustProxy ==> key != "" {
          SelectedShareKey(trustProxy, window, answers, if trustProxy then ForwardedFor(key) else From(key), key);
          AnswersAreDecisions(cfg, m, AsTrace(trustProxy, window), key);
          RateLimitSafety.AdmissionBound(cfg, AsTrace(trustProxy, before), AsTrace(trustProxy, window), key,
                                         start, from, till);
        }
      }
    }
  }
}
