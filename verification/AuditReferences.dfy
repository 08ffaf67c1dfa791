/** Which audit inserts the foreign keys let through, in every run of requests: all but those of team creations. */
module AuditReferences {
  import opened Wrappers
  import opened Domain
  import opened ServiceSpec
  import opened ServiceRuns
  import opened Sessions
  import opened Integrity

  /** A person who reads is a user. */
  ghost predicate ReaderExists(t: Tables, call: Call) {
    call.Secrets? && call.secrets.Read? && call.secrets.p.kind == UserPrincipal ==> call.secrets.p.id in t.users.rows
  }

  /** A successful team creation. Its event has the new team's id where a project's is meant. */
  ghost predicate CreatesTeam(call: Call, reply: Reply) {
    call.Teams? && call.teams.Found? && reply.Ok?
  }

  lemma SecretEventReferences(c: Crypto, t: Tables, call: SecretCall, env: Env, out: Outcome)
    requires Sound(t) && out == SecretStep(c, t, call, env) && ReaderExists(t, Secrets(call))
    ensures out.event.Some? ==> References(out.tables, out.event.value)
  {
    assert OrgSound(t.users.rows, t.org) && SecretsSound(t.users.rows, t.org.ids, t.vault.secrets);
  }

  lemma AuthEventReferences(t: Tables, call: AuthCall, env: Env, out: Outcome)
    requires EmailsSound(t.users) && out == AuthStep(t, call, env)
    ensures out.event.Some? ==> References(out.tables, out.event.value)
  {
  }

  lemma ProjectEventReferences(t: Tables, call: ProjectCall, env: Env, out: Outcome)
    requires OrgSound(t.users.rows, t.org) && out == ProjectStep(t, call, env)
    ensures out.event.Some? ==> References(out.tables, out.event.value)
  {
  }

  lemma TeamEventReferences(t: Tables, call: TeamCall, env: Env, out: Outcome)
    requires out == TeamStep(t, call, env)
    ensures out.event.Some? <==> CreatesTeam(Teams(call), out.reply)
    ensures out.event.Some? ==> (References(out.tables, out.event.value) <==> env.id in t.org.ids)
  {
  }

  lemma AccessEventReferences(t: Tables, call: AccessCall, env: Env, out: Outcome)
    requires OrgSound(t.users.rows, t.org) && out == AccessStep(t, call, env)
    ensures out.event.Some? ==> References(out.tables, out.event.value)
  {
  }

  lemma AccountEventReferences(t: Tables, call: AccountCall, env: Env, out: Outcome)
    requires OrgSound(t.users.rows, t.org) && AccountsSound(t.org.ids, t.accounts) && out == AccountStep(t, call, env)
    ensures out.event.Some? ==> References(out.tables, out.event.value)
  {
  }

  /** An event refers only to rows that exist, unless it is a team creation's under an id that is no project's. */
  lemma EventReferencesIff(c: Crypto, t: Tables, call: Call, env: Env, out: Outcome)
    requires Sound(t) && ReaderExists(t, call) && out == Step(c, t, call, env)
    ensures out.event.Some? ==>
              (References(out.tables, out.event.value) <==> !CreatesTeam(call, out.reply) || env.id in t.org.ids)
  {
    match call
    case Auth(a) => AuthEventReferences(t, a, env, out);
    case Project(p) => ProjectEventReferences(t, p, env, out);
    case Secrets(s) => SecretEventReferences(c, t, s, env, out);
    case Access(a) => AccessEventReferences(t, a, env, out);
    case Accounts(a) => AccountEventReferences(t, a, env, out);
    case Teams(tc) => TeamEventReferences(t, tc, env, out);
  }

  /** Whoever is let in to read as a person is a user. */
  lemma AdmittedReaderExists(w: World, request: Request, now: Time)
    ensures var call := Admitted(w, request, now); call.Ok? ==> ReaderExists(w.tables, call.value)
  {
  }

  /** The request comes from a service account: its login, or a request with its token. */
  predicate FromAccount(request: Request) {
    match request
    case AccountLogIn(_, _) => true
    case ReadValue(bearer, _) => bearer.subject == AccountSubject
    case UserOnly(bearer, _) => bearer.subject == AccountSubject
    case _ => false
  }

  lemma AccountEventsNameNoUser(c: Crypto, w: World, request: Request, env: Env)
    requires FromAccount(request)
    ensures var call := Admitted(w, request, env.now);
            call.Ok? ==>
              var event := Step(c, w.tables, call.value, env).event;
              event.Some? ==> event.value.actorUserID == None
  {
  }

  /** Every event in the log refers only to rows that exist. */
  ghost predicate LogSound(t: Tables) {
    forall e | e in t.audit :: References(t, e)
  }

  lemma LogKeepsSound(t: Tables, out: Outcome, after: Tables, auditOk: bool)
    requires LogSound(t) && Grows(t, out.tables) && out.tables.audit == t.audit
    requires after == Logged(out.tables, out.event, auditOk)
    ensures LogSound(after)
  {
    forall e | e in after.audit ensures References(after, e) {
      assert e in t.audit ==> References(t, e);
    }
  }

  lemma RequestKeepsSound(c: Crypto, w: World, request: Request, env: Env)
    requires Sound(w.tables) && LogSound(w.tables)
    ensures var after := Serve(c, w, request, env).world.tables; Sound(after) && LogSound(after)
  {
    var call := Admitted(w, request, env.now);
    if call.Ok? {
      var out := Step(c, w.tables, call.value, env);
      StepKeepsSound(c, w.tables, call.value, env, out.tables);
      LogKeepsSound(w.tables, out, Logged(out.tables, out.event, env.auditOk), env.auditOk);
    }
  }

  lemma {:induction false} RequestsKeepSound(c: Crypto, w: World, requests: Requests)
    requires Sound(w.tables) && LogSound(w.tables)
    ensures Sound(RunRequests(c, w, requests).tables) && LogSound(RunRequests(c, w, requests).tables)
    decreases |requests|
  {
    if requests != [] {
      RequestKeepsSound(c, w, requests[0].0, requests[0].1);
      RequestsKeepSound(c, Serve(c, w, requests[0].0, requests[0].1).world, requests[1..]);
    }
  }

  /** What a request does to the log. */
  lemma LoggedIff(c: Crypto, w: World, request: Request, env: Env, call: Call, out: Outcome)
    requires Sound(w.tables) && Admitted(w, request, env.now) == Ok(call) && out == Step(c, w.tables, call, env)
    ensures var log := Serve(c, w, request, env).world.tables.audit;
            if out.event.Some? && env.auditOk && (!CreatesTeam(call, out.reply) || env.id in w.tables.org.ids)
            then log == w.tables.audit + [out.event.value] else log == w.tables.audit
  {
    StepKeepsSound(c, w.tables, call, env, out.tables);
    AdmittedReaderExists(w, request, env.now);
    EventReferencesIff(c, w.tables, call, env, out);
  }

  /**
   In every run of requests from nothing every event in the log refers only to rows that exist;
   and the event of whatever request comes next is stored if and only if the database does not
   fail its insert and it is not that of a team creation, or the new team has a project's id.
   */
  lemma EventStoredIff(c: Crypto, requests: Requests, request: Request, env: Env, w: World, call: Call, out: Outcome)
    requires w == RunRequests(c, EmptyWorld(), requests)
    requires Admitted(w, request, env.now) == Ok(call) && out == Step(c, w.tables, call, env) && out.event.Some?
    ensures LogSound(w.tables)
    ensures Serve(c, w, request, env).world.tables.audit == w.tables.audit + [out.event.value]
       <==> env.auditOk && (!CreatesTeam(call, out.reply) || env.id in w.tables.org.ids)
  {
    RequestsKeepSound(c, EmptyWorld(), requests);
    LoggedIff(c, w, request, env, call, out);
    assert |w.tables.audit + [out.event.value]| != |w.tables.audit|;
  }

  // ---- With fresh ids no team creation is ever logged ----

  ghost predicate NoTeamEvent(log: seq<AuditEvent>) {
    forall e | e in log :: e.eventType != TeamCreated
  }

  /** No id is generated twice. */
  ghost predicate FreshIds(requests: Requests) {
    forall i, j | 0 <= i < j < |requests| :: requests[i].1.id != requests[j].1.id
  }

  lemma ProjectIdsAreGenerated(c: Crypto, t: Tables, call: Call, env: Env)
    ensures After(c, t, call, env).org.ids <= t.org.ids + {env.id}
    ensures call.Teams? ==> After(c, t, call, env).org.ids == t.org.ids
  {
    match call
    case Auth(a) => AuthFrame(t, a, env);
    case Project(p) => ProjectFrame(t, p, env);
    case Secrets(s) => SecretFrame(c, t, s, env);
    case Access(a) => AccessFrame(t, a, env);
    case Accounts(a) => AccountFrame(t, a, env);
    case Teams(tc) => TeamFrame(t, tc, env);
  }

  /** Only team creations have such an event. */
  lemma TeamEventsAreCreations(c: Crypto, t: Tables, call: Call, env: Env, out: Outcome)
    requires out == Step(c, t, call, env)
    ensures out.event.Some? && out.event.value.eventType == TeamCreated ==> CreatesTeam(call, out.reply)
  {
  }

  lemma RequestLogsNoTeam(c: Crypto, w: World, request: Request, env: Env)
    requires Sound(w.tables) && NoTeamEvent(w.tables.audit) && env.id !in w.tables.org.ids
    ensures var after := Serve(c, w, request, env).world.tables;
            NoTeamEvent(after.audit) && after.org.ids <= w.tables.org.ids + {env.id}
  {
    var call := Admitted(w, request, env.now);
    if call.Ok? {
      var out := Step(c, w.tables, call.value, env);
      LoggedIff(c, w, request, env, call.value, out);
      TeamEventsAreCreations(c, w.tables, call.value, env, out);
      ProjectIdsAreGenerated(c, w.tables, call.value, env);
    }
  }

  lemma {:induction false} NoTeamLoggedFrom(c: Crypto, w: World, requests: Requests)
    requires Sound(w.tables) && LogSound(w.tables) && NoTeamEvent(w.tables.audit) && FreshIds(requests)
    requires forall i | 0 <= i < |requests| :: requests[i].1.id !in w.tables.org.ids
    ensures NoTeamEvent(RunRequests(c, w, requests).tables.audit)
    decreases |requests|
  {
    if requests != [] {
      var (request, env) := requests[0];
      RequestLogsNoTeam(c, w, request, env);
      RequestKeepsSound(c, w, request, env);
      var next := Serve(c, w, request, env).world;
      forall i | 0 <= i < |requests[1..]| ensures requests[1..][i].1.id !in next.tables.org.ids {
        assert requests[1..][i] == requests[i + 1];
      }
      NoTeamLoggedFrom(c, next, requests[1..]);
    }
  }

  /** In every run of requests from nothing with fresh ids the log holds no team creation. */
  lemma NoTeamIsLogged(c: Crypto, requests: Requests)
    requires FreshIds(requests)
    ensures NoTeamEvent(RunRequests(c, EmptyWorld(), requests).tables.audit)
  {
    NoTeamLoggedFrom(c, EmptyWorld(), requests);
  }

  /** Ann signs up and logs in. */
  function Arrival(env: Env): Requests {
    [(SignUp("ann@example.org", "password"), env.(id := 1)), (LogIn("ann@example.org", "password"), env.(id := 2))]
  }

  function Bearer(env: Env): Claims {
    Claims(1, UserSubject, true, None, env.now + TOKEN_TTL)
  }

  lemma Arrived(c: Crypto, env: Env)
    requires env.fault == None
    ensures var w := RunRequests(c, EmptyWorld(), Arrival(env));
            && w.tables.users.rows == map[1 := User("ann@example.org", Hash("password"), false, true)]
            && w.tables.org == EmptyTables().org && Bearer(env) in w.issued
  {
    var requests := Arrival(env);
    var w1 := Serve(c, EmptyWorld(), requests[0].0, requests[0].1).world;
    var w := Serve(c, w1, requests[1].0, requests[1].1).world;
    assert requests[1..][1..] == [] && requests[1..][0] == requests[1];
    assert RunRequests(c, EmptyWorld(), requests) == RunRequests(c, w1, requests[1..]) == RunRequests(c, w, []) == w;
    assert w1.tables.users.rows == map[1 := User("ann@example.org", Hash("password"), false, true)];
  }

  lemma FirstTeam(c: Crypto, w: World, bearer: Claims, name: string, env: Env)
    requires Authenticated(w, bearer, env.now) == Ok(Principal(1, UserPrincipal, 0, true))
    requires w.tables.org == EmptyTables().org && 1 in w.tables.users.rows && env.fault == None
    ensures var served := Serve(c, w, UserOnly(bearer, Teams(Found(1, name))), env);
            && served.reply == Ok(Created(env.id))
            && served.world.tables.org.teams == map[env.id := Team(name, [1], {1})]
            && served.world.tables.audit == w.tables.audit
  {
    assert !TeamNameTaken(w.tables, name);
    var out := CreateTeam(w.tables, 1, name, env);
    assert !References(out.tables, out.event.value);
  }

  /** Ann creates a team: it is there, the database fails no insert, and the log is as before. */
  lemma TeamCreationIsLost(c: Crypto, env: Env)
    requires env.auditOk && env.fault == None
    ensures var w := RunRequests(c, EmptyWorld(), Arrival(env));
            var served := Serve(c, w, UserOnly(Bearer(env), Teams(Found(1, "core"))), env.(id := 3));
            && served.reply == Ok(Created(3))
            && served.world.tables.org.teams == map[3 := Team("core", [1], {1})]
            && served.world.tables.audit == w.tables.audit
  {
    Arrived(c, env);
    FirstTeam(c, RunRequests(c, EmptyWorld(), Arrival(env)), Bearer(env), "core", env.(id := 3));
  }
}
