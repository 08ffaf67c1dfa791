/** Which grants are in the table, in any run: exactly the last ones given and not taken back since. */
module GrantHistory {
  import opened Wrappers
  import opened Domain
  import opened ServiceSpec
  import opened ServiceRuns
  import opened SecretReadRules

  /** A call that succeeds in writing or deleting the grant row of this secret and user. */
  ghost predicate Touches(c: Crypto, t: Tables, call: Call, env: Env, secret: Id, user: Id) {
    && call.Access? && call.access.secret == secret && call.access.user == user
    && Step(c, t, call, env).reply.Ok?
  }

  /**
   The call succeeds in giving this grant. Its giver manages the project that it names, the
   secret lives there, and the receiver is a user.
   */
  ghost predicate GivenBy(c: Crypto, t: Tables, call: Call, env: Env, secret: Id, user: Id, grant: Domain.Grant) {
    && call.Access? && call.access.Grant?
    && call.access.secret == secret && call.access.user == user
    && Step(c, t, call, env).reply == Ok(Done)
    && grant == Domain.Grant(call.access.actor, call.access.expiresAt)
    && secret in t.vault.secrets && t.vault.secrets[secret].projectID == call.access.project
    && HasRole(t, call.access.project, call.access.actor, {Admin, Manager})
    && user in t.users.rows
  }

  /** No call of the run touches the grant of this secret and user. */
  ghost predicate Untouched(c: Crypto, t: Tables, trace: Trace, secret: Id, user: Id)
    decreases |trace|
  {
    trace == []
    || (&& !Touches(c, t, trace[0].0, trace[0].1, secret, user)
        && Untouched(c, After(c, t, trace[0].0, trace[0].1), trace[1..], secret, user))
  }

  /** Some call of the run gives this grant, and none after it touches it. */
  ghost predicate LastGivenIn(c: Crypto, t: Tables, trace: Trace, secret: Id, user: Id, grant: Domain.Grant)
    decreases |trace|
  {
    trace != []
    && var next := After(c, t, trace[0].0, trace[0].1);
       || (GivenBy(c, t, trace[0].0, trace[0].1, secret, user, grant) && Untouched(c, next, trace[1..], secret, user))
       || LastGivenIn(c, next, trace[1..], secret, user, grant)
  }

  ghost predicate Holding(t: Tables, secret: Id, user: Id, grant: Domain.Grant) {
    (secret, user) in t.grants && t.grants[(secret, user)] == grant
  }

  lemma AccessCallGives(t: Tables, call: AccessCall, env: Env, secret: Id, user: Id, grant: Domain.Grant, out: Outcome)
    requires out == AccessStep(t, call, env)
    ensures Holding(out.tables, secret, user, grant)
       <==> if call.secret == secret && call.user == user && out.reply.Ok?
            then call.Grant? && grant == Domain.Grant(call.actor, call.expiresAt)
            else Holding(t, secret, user, grant)
  {
  }

  /** After a call the table holds a grant exactly when the call gave it, or did not touch it and it was there. */
  lemma StepGives(c: Crypto, t: Tables, call: Call, env: Env, secret: Id, user: Id, grant: Domain.Grant)
    ensures Holding(After(c, t, call, env), secret, user, grant)
       <==> || GivenBy(c, t, call, env, secret, user, grant)
            || (Holding(t, secret, user, grant) && !Touches(c, t, call, env, secret, user))
  {
    match call
    case Auth(a) => AuthFrame(t, a, env);
    case Project(p) => ProjectFrame(t, p, env);
    case Secrets(s) => SecretFrame(c, t, s, env);
    case Access(a) => AccessCallGives(t, a, env, secret, user, grant, AccessStep(t, a, env));
    case Accounts(a) => AccountFrame(t, a, env);
    case Teams(tc) => TeamFrame(t, tc, env);
  }

  lemma {:induction false} HoldingFrom(c: Crypto, t: Tables, trace: Trace, secret: Id, user: Id, grant: Domain.Grant)
    ensures Holding(Run(c, t, trace), secret, user, grant)
       <==> || (Holding(t, secret, user, grant) && Untouched(c, t, trace, secret, user))
            || LastGivenIn(c, t, trace, secret, user, grant)
    decreases |trace|
  {
    if trace != [] {
      var (call, env) := trace[0];
      StepGives(c, t, call, env, secret, user, grant);
      HoldingFrom(c, After(c, t, call, env), trace[1..], secret, user, grant);
    }
  }

  /**
   In every run from empty tables the table holds a grant if and only if a successful call of the
   run gave it, with its giver managing the secret's project at the time, and no later
   successful call replaced or deleted it.
   */
  lemma GrantsAreGiven(c: Crypto, trace: Trace, secret: Id, user: Id, grant: Domain.Grant)
    ensures Holding(Run(c, EmptyTables(), trace), secret, user, grant)
       <==> LastGivenIn(c, EmptyTables(), trace, secret, user, grant)
  {
    HoldingFrom(c, EmptyTables(), trace, secret, user, grant);
  }

  lemma PlainReaderHoldsGrant(t: Tables, p: Principal, secret: Id, now: Time)
    requires MayRead(t, p, secret, now) && p.kind == UserPrincipal
    requires !HasRole(t, t.vault.secrets[secret].projectID, p.id, {Admin, Manager})
    ensures RoleOf(t, t.vault.secrets[secret].projectID, p.id) == Some(Developer)
    ensures LiveGrant(t, secret, p.id, now)
  {
    var role := t.org.members[(t.vault.secrets[secret].projectID, p.id)];
    assert role == Admin || role == Manager || role == Developer;
  }

  /**
   In every run, a user who reads a value without managing the project is a developer of it to whom
   someone who managed it gave, in that run, a grant that has not expired and was not touched since.
   */
  lemma PlainReadersWereGranted(c: Crypto, trace: Trace, p: Principal, secret: Id, env: Env, t: Tables)
    returns (grant: Domain.Grant)
    requires t == Run(c, EmptyTables(), trace)
    requires GetSecretValue(c, t, p, secret, env).reply.Ok? && p.kind == UserPrincipal
    requires !HasRole(t, t.vault.secrets[secret].projectID, p.id, {Admin, Manager})
    ensures LastGivenIn(c, EmptyTables(), trace, secret, p.id, grant)
    ensures grant.expiresAt.Some? ==> env.now <= grant.expiresAt.value
    ensures RoleOf(t, t.vault.secrets[secret].projectID, p.id) == Some(Developer)
  {
    ReadSucceedsIff(c, trace, p, secret, env);
    PlainReaderHoldsGrant(t, p, secret, env.now);
    grant := t.grants[(secret, p.id)];
    GrantsAreGiven(c, trace, secret, p.id, grant);
  }
}
