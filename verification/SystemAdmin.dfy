/** The first registered user is the one system admin, for good. */
module SystemAdmin {
  import opened Wrappers
  import opened Domain
  import opened ServiceRuns

  /** Exactly this user is a system admin, and not blocked. */
  ghost predicate SoleAdmin(t: Tables, admin: Id) {
    && admin in t.users.rows && t.users.rows[admin].isAdmin && !t.users.rows[admin].isBlocked
    && forall u | u in t.users.rows && t.users.rows[u].isAdmin :: u == admin
  }

  lemma StepKeepsAdmin(c: Crypto, t: Tables, call: Call, env: Env, admin: Id)
    requires SoleAdmin(t, admin)
    ensures SoleAdmin(After(c, t, call, env), admin)
  {
    match call
    case Auth(a) => AuthFrame(t, a, env);
    case Project(p) => ProjectFrame(t, p, env);
    case Secrets(s) => SecretFrame(c, t, s, env);
    case Access(a) => AccessFrame(t, a, env);
    case Accounts(a) => AccountFrame(t, a, env);
    case Teams(tc) => TeamFrame(t, tc, env);
  }

  lemma {:induction false} RunKeepsAdmin(c: Crypto, t: Tables, trace: Trace, admin: Id)
    requires SoleAdmin(t, admin)
    ensures SoleAdmin(Run(c, t, trace), admin)
    decreases |trace|
  {
    if trace != [] {
      StepKeepsAdmin(c, t, trace[0].0, trace[0].1, admin);
      RunKeepsAdmin(c, After(c, t, trace[0].0, trace[0].1), trace[1..], admin);
    }
  }

  lemma StepFromNoUsers(c: Crypto, t: Tables, call: Call, env: Env)
    requires t.users.rows == map[]
    ensures var out := Step(c, t, call, env);
            if call.Auth? && call.auth.Register? && out.reply.Ok? then
              out.reply == Ok(Created(env.id)) && SoleAdmin(After(c, t, call, env), env.id)
            else After(c, t, call, env).users.rows == map[]
  {
    match call
    case Auth(a) => AuthFrame(t, a, env);
    case Project(p) => ProjectFrame(t, p, env);
    case Secrets(s) => SecretFrame(c, t, s, env);
    case Access(a) => AccessFrame(t, a, env);
    case Accounts(a) => AccountFrame(t, a, env);
    case Teams(tc) => TeamFrame(t, tc, env);
  }

  ghost predicate Registers(c: Crypto, t: Tables, step: (Call, Env)) {
    step.0.Auth? && step.0.auth.Register? && Step(c, t, step.0, step.1).reply.Ok?
  }

  /** The id of the first successful registration of a run, if there is one. */
  ghost function FirstRegistered(c: Crypto, t: Tables, trace: Trace): Option<Id>
    decreases |trace|
  {
    if trace == [] then None
    else if Registers(c, t, trace[0]) then Some(trace[0].1.id)
    else FirstRegistered(c, After(c, t, trace[0].0, trace[0].1), trace[1..])
  }

  lemma {:induction false} AdminFrom(c: Crypto, t: Tables, trace: Trace)
    requires t.users.rows == map[]
    ensures var first := FirstRegistered(c, t, trace);
            && (first.None? <==> Run(c, t, trace).users.rows == map[])
            && (first.Some? ==> SoleAdmin(Run(c, t, trace), first.value))
    decreases |trace|
  {
    if trace != [] {
      var (call, env) := trace[0];
      StepFromNoUsers(c, t, call, env);
      if Registers(c, t, trace[0]) {
        RunKeepsAdmin(c, After(c, t, call, env), trace[1..], env.id);
      } else {
        AdminFrom(c, After(c, t, call, env), trace[1..]);
      }
    }
  }

  /**
   In every run from an empty database: as soon as anyone has registered there is exactly one
   system admin, it is the first who did, and it is not blocked.
   */
  lemma FirstUserIsTheAdmin(c: Crypto, trace: Trace)
    ensures var t := Run(c, EmptyTables(), trace);
            var first := FirstRegistered(c, EmptyTables(), trace);
            && (first.None? <==> t.users.rows == map[])
            && (first.Some? ==> SoleAdmin(t, first.value))
  {
    AdminFrom(c, EmptyTables(), trace);
  }
}
