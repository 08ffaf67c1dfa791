/**
 Who may create, rotate, roll back, revoke and read secrets, when it succeeds, and everything it
 then changes and logs, told in rows alone; and what every run keeps of a secret's row.
 */
module SecretRules {
  import opened Wrappers
  import opened VersionRows
  import opened Domain
  import opened ServiceSpec
  import opened ServiceRuns
  import opened ServiceRules

  /** Statements 0 to last of the transaction go through; number last + 1 is its answer. */
  predicate Commits(fault: Option<nat>, last: nat) {
    fault.Some? ==> fault.value > last
  }

  /** The row that a creation stores, and its first version. */
  predicate Stored(c: Crypto, t: Tables, actor: Id, project: Id, input: SecretInput, env: Env) {
    && env.id in t.vault.secrets
    && t.vault.secrets[env.id]
       == Secret(env.id, project, input.name, input.description, Active,
                 if input.environment == None then Production else input.environment.value,
                 input.tags, input.expiresAt, actor, env.now)
    && env.id in t.vault.versions
    && t.vault.versions[env.id] == map[1 := Row(Sealed(c.encrypt(input.value, env.nonce), env.nonce), true)]
  }

  lemma CreateSecretRule(c: Crypto, t: Tables, actor: Id, project: Id, input: SecretInput, env: Env, out: Outcome)
    requires out == CreateSecret(c, t, actor, project, input, env)
    ensures var committed :=
              && HasRole(t, project, actor, {Admin, Manager}) && env.id !in t.vault.secrets
              && (forall s | s in t.vault.secrets ::
                    t.vault.secrets[s].projectID != project || t.vault.secrets[s].name != input.name)
              && Commits(env.fault, 3);
            && (out.reply.Ok? <==> committed && env.fault != Some(4))
            && (if committed then
                  && Stored(c, out.tables, actor, project, input, env)
                  && out.tables.vault.secrets == t.vault.secrets[env.id := out.tables.vault.secrets[env.id]]
                  && out.tables.vault.versions == t.vault.versions[env.id := out.tables.vault.versions[env.id]]
                else out.tables.vault == t.vault)
    ensures out.tables == t.(vault := out.tables.vault)
    ensures out.reply == Err(NotFound) <==> (project, actor) !in t.org.members
    ensures out.reply == Err(Conflict)
       <==> && HasRole(t, project, actor, {Admin, Manager}) && env.fault != Some(0)
            && (|| env.id in t.vault.secrets
                || exists s | s in t.vault.secrets ::
                     t.vault.secrets[s].projectID == project && t.vault.secrets[s].name == input.name)
    ensures out.reply == Err(Forbidden) <==> HasRole(t, project, actor, {Developer})
    ensures out.reply.Ok? ==>
              out.reply == Ok(Created(env.id))
              && Hands(out, Some(actor), Some(project), Some(env.id), SecretCreated, env.now)
    ensures out.reply.Err? ==> out.event == None
  {
    EveryMemberHasARole(t, project, actor);
  }

  /** The actor's row in the secret's project reads admin or manager. */
  predicate Manages(t: Tables, actor: Id, secret: Id) {
    secret in t.vault.secrets && HasRole(t, t.vault.secrets[secret].projectID, actor, {Admin, Manager})
  }

  /** The actor's row in the secret's project reads developer. */
  predicate OnlyDevelops(t: Tables, actor: Id, secret: Id) {
    secret in t.vault.secrets && HasRole(t, t.vault.secrets[secret].projectID, actor, {Developer})
  }

  lemma RotateRule(c: Crypto, t: Tables, actor: Id, secret: Id, value: string, env: Env, out: Outcome)
    requires out == RotateSecret(c, t, actor, secret, value, env)
    ensures out.reply.Ok? <==> Manages(t, actor, secret) && Commits(env.fault, 6)
    ensures out.reply.Ok? ==> out.reply == Ok(Done)
    ensures out.tables == t.(vault := t.vault.(versions := out.tables.vault.versions))
    ensures out.tables.vault.versions
         == if Manages(t, actor, secret) && Commits(env.fault, 5) then
              t.vault.versions[secret := Rotated(if secret in t.vault.versions then t.vault.versions[secret] else map[],
                                                 Sealed(c.encrypt(value, env.nonce), env.nonce))]
            else t.vault.versions
    ensures out.reply == Err(Forbidden) <==> OnlyDevelops(t, actor, secret)
    ensures out.reply == Err(NotFound)
       <==> secret !in t.vault.secrets || (t.vault.secrets[secret].projectID, actor) !in t.org.members
    ensures out.event
         == if out.reply.Ok? then
              Some(AuditEvent(Some(actor), Some(t.vault.secrets[secret].projectID), Some(t.vault.secrets[secret].id),
                              SecretRotated, env.now))
            else None
  {
    if secret in t.vault.secrets {
      EveryMemberHasARole(t, t.vault.secrets[secret].projectID, actor);
    }
  }

  lemma RevokeRule(t: Tables, actor: Id, secret: Id, env: Env, out: Outcome)
    requires out == RevokeSecret(t, actor, secret, env)
    ensures out.reply.Ok? <==> Manages(t, actor, secret) && env.fault != Some(0)
    ensures out.reply.Ok? ==>
              && out.reply == Ok(Done)
              && out.tables
                 == t.(vault := t.vault.(secrets :=
                         t.vault.secrets[secret := t.vault.secrets[secret].(status := Revoked)]))
              && Hands(out, Some(actor), Some(t.vault.secrets[secret].projectID), Some(t.vault.secrets[secret].id),
                       SecretWasRevoked, env.now)
    ensures out.reply.Err? ==> NoEffect(t, out)
    ensures out.reply == Err(Forbidden) <==> OnlyDevelops(t, actor, secret)
    ensures out.reply == Err(NotFound)
       <==> secret !in t.vault.secrets || (t.vault.secrets[secret].projectID, actor) !in t.org.members
  {
    if secret in t.vault.secrets {
      EveryMemberHasARole(t, t.vault.secrets[secret].projectID, actor);
    }
  }

  lemma RollbackRule(t: Tables, actor: Id, secret: Id, version: int, env: Env, out: Outcome)
    requires out == RollbackSecret(t, actor, secret, version, env)
    ensures out.reply.Ok?
       <==> && Manages(t, actor, secret) && env.fault != Some(0)
            && version >= 0 && secret in t.vault.versions && version in t.vault.versions[secret]
    ensures out.reply.Ok? ==>
              && out.reply == Ok(Done)
              && out.tables
                 == t.(vault := t.vault.(versions :=
                         t.vault.versions[secret := RolledBack(t.vault.versions[secret], version)]))
              && Hands(out, Some(actor), Some(t.vault.secrets[secret].projectID), Some(t.vault.secrets[secret].id),
                       SecretRolledBack, env.now)
    ensures out.reply.Err? ==> NoEffect(t, out)
    ensures out.reply == Err(Forbidden) <==> secret in t.vault.secrets && !Manages(t, actor, secret)
    ensures out.reply == Err(NotFound)
       <==> || secret !in t.vault.secrets
            || (Manages(t, actor, secret)
                && (version < 0 || secret !in t.vault.versions || version !in t.vault.versions[secret]))
  {
  }

  /** The event of a read names its reader, if a person, its project and its secret. */
  lemma ReadRule(c: Crypto, t: Tables, p: Principal, secret: Id, env: Env, out: Outcome)
    requires out == GetSecretValue(c, t, p, secret, env)
    ensures out.tables == t
    ensures out.event.Some? ==>
              && secret in t.vault.secrets
              && Hands(out, if p.kind == UserPrincipal then Some(p.id) else None,
                       Some(t.vault.secrets[secret].projectID), Some(t.vault.secrets[secret].id),
                       if out.reply.Ok? then SecretRead else SecretReadDenied, env.now)
    ensures out.reply.Ok? ==> out.event.Some?
  {
  }

  // ---- Every secret call of every run ----

  /** The i-th reply of a run is that of the i-th call on the tables that the calls before it leave. */
  lemma {:induction false} ReplyOfCall(c: Crypto, t: Tables, trace: Trace, i: nat)
    requires i < |trace|
    ensures Replies(c, t, trace)[i] == Step(c, Run(c, t, trace[..i]), trace[i].0, trace[i].1).reply
    decreases i
  {
    if i == 0 {
      assert trace[..0] == [];
    } else {
      ReplyOfCall(c, After(c, t, trace[0].0, trace[0].1), trace[1..], i - 1);
      assert trace[..i][0] == trace[0] && trace[..i][1..] == trace[1..][..i - 1];
    }
  }

  /** The actor's row reads admin or manager, what the call names is there, and the database does its part. */
  predicate CanTakeEffect(t: Tables, call: SecretCall, env: Env)
    requires !call.Read?
  {
    match call
    case CreateIn(actor, project, input) =>
      && HasRole(t, project, actor, {Admin, Manager}) && Commits(env.fault, 3) && env.id !in t.vault.secrets
      && (forall s | s in t.vault.secrets ::
            t.vault.secrets[s].projectID != project || t.vault.secrets[s].name != input.name)
    case Rotate(actor, secret, _) => Manages(t, actor, secret) && Commits(env.fault, 5)
    case Rollback(actor, secret, version) =>
      && Manages(t, actor, secret) && env.fault != Some(0) && version >= 0
      && secret in t.vault.versions && version in t.vault.versions[secret]
    case Revoke(actor, secret) => Manages(t, actor, secret) && env.fault != Some(0)
  }

  lemma TakesEffectIff(c: Crypto, t: Tables, call: SecretCall, env: Env, out: Outcome)
    requires !call.Read? && out == SecretStep(c, t, call, env)
    ensures TookEffect(call, env, out.reply) <==> CanTakeEffect(t, call, env)
  {
    match call
    case CreateIn(actor, project, input) => CreateSecretRule(c, t, actor, project, input, env, out);
    case Rotate(actor, secret, value) => RotateRule(c, t, actor, secret, value, env, out);
    case Rollback(actor, secret, version) => RollbackRule(t, actor, secret, version, env, out);
    case Revoke(actor, secret) => RevokeRule(t, actor, secret, env, out);
  }

  /** In every run a creation, rotation, rollback or revocation takes effect exactly when it can at the time. */
  lemma ManagedInRun(c: Crypto, t: Tables, trace: Trace, i: nat, call: SecretCall, env: Env)
    requires i < |trace| && trace[i] == (Secrets(call), env) && !call.Read?
    ensures TookEffect(call, env, Replies(c, t, trace)[i]) <==> CanTakeEffect(Run(c, t, trace[..i]), call, env)
  {
    ReplyOfCall(c, t, trace, i);
    var before := Run(c, t, trace[..i]);
    TakesEffectIff(c, before, call, env, SecretStep(c, before, call, env));
  }

  // ---- What every run keeps of a secret's row ----

  /** Only the status of the row may change, and only to revoked. */
  predicate KeptRow(before: Secret, after: Secret) {
    after == before || after == before.(status := Revoked)
  }

  lemma StepKeepsRow(c: Crypto, t: Tables, call: Call, env: Env, secret: Id)
    requires secret in t.vault.secrets
    ensures var after := After(c, t, call, env).vault.secrets;
            secret in after && KeptRow(t.vault.secrets[secret], after[secret])
  {
    match call
    case Auth(a) => AuthFrame(t, a, env);
    case Project(p) => ProjectFrame(t, p, env);
    case Secrets(s) => SecretEffect(c, t, s, env);
    case Access(a) => AccessFrame(t, a, env);
    case Accounts(a) => AccountFrame(t, a, env);
    case Teams(tc) => TeamFrame(t, tc, env);
  }

  /** No run moves a secret, renames it, or changes its expiry or anything else of its row but the status. */
  lemma {:induction false} RunKeepsRow(c: Crypto, t: Tables, trace: Trace, secret: Id)
    requires secret in t.vault.secrets
    ensures var after := Run(c, t, trace).vault.secrets;
            secret in after && KeptRow(t.vault.secrets[secret], after[secret])
    decreases |trace|
  {
    if trace != [] {
      StepKeepsRow(c, t, trace[0].0, trace[0].1, secret);
      RunKeepsRow(c, After(c, t, trace[0].0, trace[0].1), trace[1..], secret);
    }
  }

  /** In every run after a creation that took effect, the secret keeps what the creator gave it. */
  lemma CreatedAsGiven(c: Crypto, t: Tables, actor: Id, project: Id, input: SecretInput, env: Env, rest: Trace,
                       t': Tables)
    requires t' == After(c, t, Secrets(CreateIn(actor, project, input)), env)
    requires TookEffect(CreateIn(actor, project, input), env, CreateSecret(c, t, actor, project, input, env).reply)
    ensures Stored(c, t', actor, project, input, env)
    ensures var secrets := Run(c, t', rest).vault.secrets;
            env.id in secrets && KeptRow(t'.vault.secrets[env.id], secrets[env.id])
  {
    CreateSecretRule(c, t, actor, project, input, env, CreateSecret(c, t, actor, project, input, env));
    RunKeepsRow(c, t', rest, env.id);
  }

  /** In every run after a creation with an expiry, every read after that time is refused. */
  lemma ExpiredIsRefused(c: Crypto, t: Tables, actor: Id, project: Id, input: SecretInput, env: Env, rest: Trace,
                         t': Tables, p: Principal, readEnv: Env)
    requires t' == After(c, t, Secrets(CreateIn(actor, project, input)), env)
    requires TookEffect(CreateIn(actor, project, input), env, CreateSecret(c, t, actor, project, input, env).reply)
    requires input.expiresAt.Some? && readEnv.now > input.expiresAt.value
    ensures GetSecretValue(c, Run(c, t', rest), p, env.id, readEnv).reply == Err(SecretRevoked)
  {
    CreatedAsGiven(c, t, actor, project, input, env, rest, t');
  }
}
