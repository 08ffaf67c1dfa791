/** What auditing changes, and what its log says about reads. */
module AuditTrail {
  import opened Domain
  import opened ServiceSpec
  import opened ServiceRuns
  import opened SecretStoreRefinement
  import opened SecretReadRules
  import opened Sessions
  import opened Integrity
  import opened AuditReferences

  // ---- Non-interference ----

  /** What the call does with another audit log in the database, and another fate of its audit insert. */
  ghost predicate IgnoresAudit(out: Outcome, other: Outcome, log: seq<AuditEvent>) {
    && other.tables == out.tables.(audit := log)
    && other.reply == out.reply
    && other.event == out.event
  }

  lemma AuthIgnoresAudit(t: Tables, call: AuthCall, env: Env, log: seq<AuditEvent>, ok: bool)
    ensures IgnoresAudit(AuthStep(t, call, env), AuthStep(t.(audit := log), call, env.(auditOk := ok)), log)
  {
  }

  lemma ProjectIgnoresAudit(t: Tables, call: ProjectCall, env: Env, log: seq<AuditEvent>, ok: bool)
    ensures IgnoresAudit(ProjectStep(t, call, env), ProjectStep(t.(audit := log), call, env.(auditOk := ok)), log)
  {
    if call.Assign? && call.team in t.org.teams {
      assert Recipients(t.(audit := log), t.org.teams[call.team].members, env.lostUpserts)
          == Recipients(t, t.org.teams[call.team].members, env.lostUpserts);
    }
  }

  lemma CreateIgnoresAudit(c: Crypto, t: Tables, actor: Id, project: Id, input: SecretInput, env: Env,
                           log: seq<AuditEvent>, ok: bool)
    ensures IgnoresAudit(CreateSecret(c, t, actor, project, input, env),
                         CreateSecret(c, t.(audit := log), actor, project, input, env.(auditOk := ok)), log)
  {
    assert NameTaken(t.(audit := log), project, input.name) == NameTaken(t, project, input.name);
  }

  lemma DecisionIgnoresAudit(t: Tables, p: Principal, s: Secret, now: Time, log: seq<AuditEvent>)
    ensures ReadRefusal(t.(audit := log), p, s, now) == ReadRefusal(t, p, s, now)
    ensures VersionsOf(t.(audit := log), s.id) == VersionsOf(t, s.id)
  {
  }

  lemma ReadIgnoresAudit(c: Crypto, t: Tables, p: Principal, secret: Id, env: Env, log: seq<AuditEvent>, ok: bool)
    ensures IgnoresAudit(GetSecretValue(c, t, p, secret, env),
                         GetSecretValue(c, t.(audit := log), p, secret, env.(auditOk := ok)), log)
  {
    if secret in t.vault.secrets {
      DecisionIgnoresAudit(t, p, t.vault.secrets[secret], env.now, log);
    }
  }

  lemma RotateIgnoresAudit(c: Crypto, t: Tables, actor: Id, secret: Id, value: string, env: Env,
                           log: seq<AuditEvent>, ok: bool)
    ensures IgnoresAudit(RotateSecret(c, t, actor, secret, value, env),
                         RotateSecret(c, t.(audit := log), actor, secret, value, env.(auditOk := ok)), log)
  {
  }

  lemma RollbackIgnoresAudit(t: Tables, actor: Id, secret: Id, version: int, env: Env, log: seq<AuditEvent>, ok: bool)
    ensures IgnoresAudit(RollbackSecret(t, actor, secret, version, env),
                         RollbackSecret(t.(audit := log), actor, secret, version, env.(auditOk := ok)), log)
  {
  }

  lemma SecretIgnoresAudit(c: Crypto, t: Tables, call: SecretCall, env: Env, log: seq<AuditEvent>, ok: bool)
    ensures IgnoresAudit(SecretStep(c, t, call, env), SecretStep(c, t.(audit := log), call, env.(auditOk := ok)), log)
  {
    match call
    case CreateIn(actor, project, input) => CreateIgnoresAudit(c, t, actor, project, input, env, log, ok);
    case Read(p, secret) => ReadIgnoresAudit(c, t, p, secret, env, log, ok);
    case Rotate(actor, secret, value) => RotateIgnoresAudit(c, t, actor, secret, value, env, log, ok);
    case Rollback(actor, secret, version) => RollbackIgnoresAudit(t, actor, secret, version, env, log, ok);
    case Revoke(_, _) =>
  }

  lemma AccessIgnoresAudit(t: Tables, call: AccessCall, env: Env, log: seq<AuditEvent>, ok: bool)
    ensures IgnoresAudit(AccessStep(t, call, env), AccessStep(t.(audit := log), call, env.(auditOk := ok)), log)
  {
  }

  lemma AccountIgnoresAudit(t: Tables, call: AccountCall, env: Env, log: seq<AuditEvent>, ok: bool)
    ensures IgnoresAudit(AccountStep(t, call, env), AccountStep(t.(audit := log), call, env.(auditOk := ok)), log)
  {
    if call.CreateFor? {
      assert AccountNameTaken(t.(audit := log), call.project, call.name)
          == AccountNameTaken(t, call.project, call.name);
    }
  }

  lemma TeamIgnoresAudit(t: Tables, call: TeamCall, env: Env, log: seq<AuditEvent>, ok: bool)
    ensures IgnoresAudit(TeamStep(t, call, env), TeamStep(t.(audit := log), call, env.(auditOk := ok)), log)
  {
    if call.Found? {
      assert TeamNameTaken(t.(audit := log), call.name) == TeamNameTaken(t, call.name);
    }
  }

  lemma StepIgnoresAudit(c: Crypto, t: Tables, call: Call, env: Env, log: seq<AuditEvent>, ok: bool)
    ensures IgnoresAudit(Step(c, t, call, env), Step(c, t.(audit := log), call, env.(auditOk := ok)), log)
  {
    match call
    case Auth(a) => AuthIgnoresAudit(t, a, env, log, ok);
    case Project(p) => ProjectIgnoresAudit(t, p, env, log, ok);
    case Secrets(s) => SecretIgnoresAudit(c, t, s, env, log, ok);
    case Access(a) => AccessIgnoresAudit(t, a, env, log, ok);
    case Accounts(a) => AccountIgnoresAudit(t, a, env, log, ok);
    case Teams(tc) => TeamIgnoresAudit(t, tc, env, log, ok);
  }

  /** Equal in every table but the audit log. */
  ghost predicate SameButAudit(t: Tables, u: Tables) {
    u == t.(audit := u.audit)
  }

  /** The same calls with the same clock, ids and faults, except for the fate of the audit inserts. */
  ghost predicate SameCalls(a: Trace, b: Trace) {
    && |a| == |b|
    && forall i | 0 <= i < |a| :: b[i].0 == a[i].0 && b[i].1 == a[i].1.(auditOk := b[i].1.auditOk)
  }

  /** Which audit inserts fail changes no reply and nothing outside the audit log, in any run. */
  lemma {:induction false} AuditDoesNotInterfere(c: Crypto, t: Tables, u: Tables, a: Trace, b: Trace)
    requires SameButAudit(t, u) && SameCalls(a, b)
    ensures Replies(c, t, a) == Replies(c, u, b)
    ensures SameButAudit(Run(c, t, a), Run(c, u, b))
    decreases |a|
  {
    if a != [] {
      var (call, env) := a[0];
      StepIgnoresAudit(c, t, call, env, u.audit, b[0].1.auditOk);
      AuditDoesNotInterfere(c, After(c, t, call, env), After(c, u, b[0].0, b[0].1), a[1..], b[1..]);
    }
  }

  // ---- What the log counts ----

  function Occurrences(log: seq<AuditEvent>, kind: EventType): nat {
    if log == [] then 0
    else Occurrences(log[..|log| - 1], kind) + if log[|log| - 1].eventType == kind then 1 else 0
  }

  predicate IsRead(call: Call) {
    call.Secrets? && call.secrets.Read?
  }

  /** How many reads of the run return a value. */
  function ValuesReturned(c: Crypto, t: Tables, trace: Trace): nat
    decreases |trace|
  {
    if trace == [] then 0
    else
      var (call, env) := trace[0];
      (if IsRead(call) && Step(c, t, call, env).reply.Ok? then 1 else 0)
      + ValuesReturned(c, After(c, t, call, env), trace[1..])
  }

  /** How many reads of the run are refused although the secret is live. */
  function LiveReadsRefused(c: Crypto, t: Tables, trace: Trace): nat
    decreases |trace|
  {
    if trace == [] then 0
    else
      var (call, env) := trace[0];
      (if IsRead(call) && Live(t, call.secrets.secret, env.now) && Step(c, t, call, env).reply.Err? then 1 else 0)
      + LiveReadsRefused(c, After(c, t, call, env), trace[1..])
  }

  lemma OtherEvents(c: Crypto, t: Tables, call: Call, env: Env, out: Outcome)
    requires out == Step(c, t, call, env) && !IsRead(call)
    ensures out.event.Some? ==> out.event.value.eventType != SecretRead && out.event.value.eventType != SecretReadDenied
  {
  }

  /** Exactly these calls hand a read event to the log. */
  lemma ReadEvents(c: Crypto, t: Tables, books: Books, call: Call, env: Env)
    requires Holds(c, t, books)
    ensures var out := Step(c, t, call, env);
            && ((out.event.Some? && out.event.value.eventType == SecretRead) <==> (IsRead(call) && out.reply.Ok?))
            && ((out.event.Some? && out.event.value.eventType == SecretReadDenied)
                <==> (IsRead(call) && Live(t, call.secrets.secret, env.now) && out.reply.Err?))
  {
    if IsRead(call) {
      ReadWhenStored(c, t, books, call.secrets.p, call.secrets.secret, env);
    } else {
      OtherEvents(c, t, call, env, Step(c, t, call, env));
    }
  }

  lemma StepKeepsLog(c: Crypto, t: Tables, call: Call, env: Env)
    ensures Step(c, t, call, env).tables.audit == t.audit
  {
    match call
    case Auth(a) => AuthFrame(t, a, env);
    case Project(p) => ProjectFrame(t, p, env);
    case Secrets(s) => SecretFrame(c, t, s, env);
    case Access(a) => AccessFrame(t, a, env);
    case Accounts(a) => AccountFrame(t, a, env);
    case Teams(tc) => TeamFrame(t, tc, env);
  }

  /** The log after one call. */
  lemma StepCounts(c: Crypto, t: Tables, call: Call, env: Env, kind: EventType, out: Outcome)
    requires out == Step(c, t, call, env)
    ensures Occurrences(After(c, t, call, env).audit, kind)
         == Occurrences(t.audit, kind)
            + if env.auditOk && out.event.Some? && References(out.tables, out.event.value)
                 && out.event.value.eventType == kind then 1 else 0
  {
    StepKeepsLog(c, t, call, env);
    if env.auditOk && out.event.Some? && References(out.tables, out.event.value) {
      var log := t.audit + [out.event.value];
      assert log[..|log| - 1] == t.audit;
    }
  }

  /** The log is append-only: no run drops or changes an event. */
  lemma {:induction false} LogOnlyGrows(c: Crypto, t: Tables, trace: Trace)
    ensures t.audit <= Run(c, t, trace).audit
    decreases |trace|
  {
    if trace != [] {
      StepKeepsLog(c, t, trace[0].0, trace[0].1);
      LogOnlyGrows(c, After(c, t, trace[0].0, trace[0].1), trace[1..]);
    }
  }

  /** The call is a read that hands an event to the log, and the database fails its insert. */
  ghost predicate LosesReadEvent(c: Crypto, t: Tables, call: Call, env: Env) {
    IsRead(call) && Step(c, t, call, env).event.Some? && !env.auditOk
  }

  ghost predicate LosesNoReadEvent(c: Crypto, t: Tables, trace: Trace)
    decreases |trace|
  {
    trace == []
    || (&& !LosesReadEvent(c, t, trace[0].0, trace[0].1)
        && LosesNoReadEvent(c, After(c, t, trace[0].0, trace[0].1), trace[1..]))
  }

  ghost predicate ReadersAreUsers(c: Crypto, t: Tables, trace: Trace)
    decreases |trace|
  {
    trace == []
    || (ReaderExists(t, trace[0].0) && ReadersAreUsers(c, After(c, t, trace[0].0, trace[0].1), trace[1..]))
  }

  /** One call adds a read event exactly when it is such a read, unless it loses its event. */
  lemma StepCountsReads(c: Crypto, t: Tables, books: Books, call: Call, env: Env, out: Outcome)
    requires Holds(c, t, books) && Sound(t) && ReaderExists(t, call) && out == Step(c, t, call, env)
    ensures var log := After(c, t, call, env).audit;
            var read := Occurrences(log, SecretRead) - Occurrences(t.audit, SecretRead);
            var denied := Occurrences(log, SecretReadDenied) - Occurrences(t.audit, SecretReadDenied);
            var returned := if IsRead(call) && out.reply.Ok? then 1 else 0;
            var refused := if IsRead(call) && Live(t, call.secrets.secret, env.now) && out.reply.Err? then 1 else 0;
            && 0 <= read <= returned && 0 <= denied <= refused
            && (read == returned && denied == refused <==> !LosesReadEvent(c, t, call, env))
  {
    ReadEvents(c, t, books, call, env);
    StepCounts(c, t, call, env, SecretRead, out);
    StepCounts(c, t, call, env, SecretReadDenied, out);
    EventReferencesIff(c, t, call, env, out);
    if IsRead(call) {
      ReadWhenStored(c, t, books, call.secrets.p, call.secrets.secret, env);
    }
  }

  lemma {:induction false} CountsFrom(c: Crypto, t: Tables, books: Books, trace: Trace)
    requires Holds(c, t, books) && Sound(t) && ReadersAreUsers(c, t, trace)
    ensures var log := Run(c, t, trace).audit;
            var read := Occurrences(log, SecretRead) - Occurrences(t.audit, SecretRead);
            var denied := Occurrences(log, SecretReadDenied) - Occurrences(t.audit, SecretReadDenied);
            && read <= ValuesReturned(c, t, trace) && denied <= LiveReadsRefused(c, t, trace)
            && (read == ValuesReturned(c, t, trace) && denied == LiveReadsRefused(c, t, trace)
                <==> LosesNoReadEvent(c, t, trace))
    decreases |trace|
  {
    if trace != [] {
      var (call, env) := trace[0];
      var out := Step(c, t, call, env);
      StepCountsReads(c, t, books, call, env, out);
      StepKeepsSound(c, t, call, env, out.tables);
      AfterRefines(c, t, books, call, env);
      CountsFrom(c, After(c, t, call, env), BookStep(books, call, env, out.reply), trace[1..]);
    }
  }

  /** In a run of requests every person who reads is a user. */
  lemma {:induction false} RequestReadersAreUsers(c: Crypto, w: World, requests: Requests)
    ensures ReadersAreUsers(c, w.tables, CallsOf(c, w, requests))
    decreases |requests|
  {
    if requests != [] {
      var (request, env) := requests[0];
      var next := Serve(c, w, request, env).world;
      AdmittedReaderExists(w, request, env.now);
      RequestReadersAreUsers(c, next, requests[1..]);
      if Admitted(w, request, env.now).Ok? {
        assert CallsOf(c, w, requests)[1..] == CallsOf(c, next, requests[1..]);
      } else {
        assert CallsOf(c, w, requests) == CallsOf(c, next, requests[1..]);
      }
    }
  }

  /**
   In every run of requests from nothing the log never holds more read events than reads that
   returned a value, nor more denials than refused reads of live secrets; and exactly as many if
   and only if the database fails no insert of theirs.
   */
  lemma LogCountsReads(c: Crypto, requests: Requests, calls: Trace, log: seq<AuditEvent>)
    requires calls == CallsOf(c, EmptyWorld(), requests) && log == RunRequests(c, EmptyWorld(), requests).tables.audit
    ensures var returned := ValuesReturned(c, EmptyTables(), calls);
            var refused := LiveReadsRefused(c, EmptyTables(), calls);
            && Occurrences(log, SecretRead) <= returned && Occurrences(log, SecretReadDenied) <= refused
            && (Occurrences(log, SecretRead) == returned && Occurrences(log, SecretReadDenied) == refused
                <==> LosesNoReadEvent(c, EmptyTables(), calls))
  {
    RequestsAreCalls(c, EmptyWorld(), requests);
    RequestReadersAreUsers(c, EmptyWorld(), requests);
    CountsFrom(c, EmptyTables(), map[], calls);
  }
}
