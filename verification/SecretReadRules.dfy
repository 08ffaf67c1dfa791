/** Who can read a secret's value, in every reachable state. */
module SecretReadRules {
  import opened Wrappers
  import opened Domain
  import opened ServiceSpec
  import opened ServiceRuns
  import opened SecretStoreRefinement
  import opened ServiceRules

  /** A grant that has not expired. */
  predicate LiveGrant(t: Tables, secret: Id, user: Id, now: Time) {
    && (secret, user) in t.grants
    && (t.grants[(secret, user)].expiresAt.Some? ==> now <= t.grants[(secret, user)].expiresAt.value)
  }

  /** The secret exists, is not revoked and has not expired. */
  predicate Live(t: Tables, secret: Id, now: Time) {
    && secret in t.vault.secrets
    && t.vault.secrets[secret].status == Active
    && (t.vault.secrets[secret].expiresAt.Some? ==> now <= t.vault.secrets[secret].expiresAt.value)
  }

  /** The rule as a reader of the product would state it. */
  predicate MayRead(t: Tables, p: Principal, secret: Id, now: Time) {
    && Live(t, secret, now)
    && var project := t.vault.secrets[secret].projectID;
       if p.kind == ServiceAccountPrincipal then p.projectID == project
       else HasRole(t, project, p.id, {Admin, Manager})
            || (HasRole(t, project, p.id, {Developer}) && LiveGrant(t, secret, p.id, now))
  }

  /** The decision on a live secret, with the reason of a refusal. */
  lemma ReadDecision(t: Tables, p: Principal, s: Secret, now: Time)
    ensures p.kind == ServiceAccountPrincipal ==>
              ReadRefusal(t, p, s, now) == if p.projectID == s.projectID then None else Some(Forbidden)
    ensures p.kind == UserPrincipal ==>
              ReadRefusal(t, p, s, now)
              == if (s.projectID, p.id) !in t.org.members then Some(NotFound)
                 else if HasRole(t, s.projectID, p.id, {Admin, Manager}) || LiveGrant(t, s.id, p.id, now) then None
                 else if (s.id, p.id) in t.grants then Some(AccessExpired) else Some(Forbidden)
  {
  }

  /** In every reachable state a read succeeds exactly for those who may read. */
  lemma ReadSucceedsIff(c: Crypto, trace: Trace, p: Principal, secret: Id, env: Env)
    ensures var t := Run(c, EmptyTables(), trace);
            GetSecretValue(c, t, p, secret, env).reply.Ok? <==> MayRead(t, p, secret, env.now)
  {
    RunRefines(c, trace);
    var t := Run(c, EmptyTables(), trace);
    ReadWhenStored(c, t, BooksAfter(c, trace), p, secret, env);
    if secret in t.vault.secrets {
      ReadDecision(t, p, t.vault.secrets[secret], env.now);
      EveryMemberHasARole(t, t.vault.secrets[secret].projectID, p.id);
    }
  }

  // ---- Revocation ----

  ghost predicate IsRevoked(t: Tables, secret: Id) {
    secret in t.vault.secrets && t.vault.secrets[secret].status == Revoked
  }

  lemma StepStaysRevoked(c: Crypto, t: Tables, call: Call, env: Env, secret: Id)
    requires IsRevoked(t, secret)
    ensures IsRevoked(After(c, t, call, env), secret)
  {
    match call
    case Auth(a) => AuthFrame(t, a, env);
    case Project(p) => ProjectFrame(t, p, env);
    case Secrets(s) => SecretEffect(c, t, s, env);
    case Access(a) => AccessFrame(t, a, env);
    case Accounts(a) => AccountFrame(t, a, env);
    case Teams(tc) => TeamFrame(t, tc, env);
  }

  ghost predicate Reads(call: Call, secret: Id) {
    call.Secrets? && call.secrets.Read? && call.secrets.secret == secret
  }

  /** Once revoked, a secret stays revoked, and every read of it in every later run is refused. */
  lemma {:induction false} RevokedForGood(c: Crypto, t: Tables, trace: Trace, secret: Id)
    requires IsRevoked(t, secret)
    ensures IsRevoked(Run(c, t, trace), secret)
    ensures forall i | 0 <= i < |trace| && Reads(trace[i].0, secret) :: Replies(c, t, trace)[i] == Err(SecretRevoked)
    decreases |trace|
  {
    if trace != [] {
      var (call, env) := trace[0];
      var next := After(c, t, call, env);
      StepStaysRevoked(c, t, call, env, secret);
      RevokedForGood(c, next, trace[1..], secret);
      assert Replies(c, t, trace) == [Step(c, t, call, env).reply] + Replies(c, next, trace[1..]);
    }
  }

  /** Revocation is terminal: no later rotation, rollback, grant or role change brings the secret back. */
  lemma RevocationIsTerminal(c: Crypto, t: Tables, actor: Id, secret: Id, env: Env, rest: Trace)
    requires RevokeSecret(t, actor, secret, env).reply.Ok?
    ensures var t' := After(c, t, Secrets(Revoke(actor, secret)), env);
            forall i | 0 <= i < |rest| && Reads(rest[i].0, secret) :: Replies(c, t', rest)[i] == Err(SecretRevoked)
  {
    RevokedForGood(c, After(c, t, Secrets(Revoke(actor, secret)), env), rest, secret);
  }
}
