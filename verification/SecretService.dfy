/** The secret service, proved to do what its specification says. */
module SecretService {
  import opened Wrappers
  import opened Domain
  import opened ServiceSpec
  import opened Storage
  import opened Services

  class SecretService {
    const store: Store
    const access: AccessService
    const crypto: Crypto

    /** The access service answers from the same database. */
    predicate Valid() {
      access.store == store
    }

    constructor (store: Store, access: AccessService, crypto: Crypto)
      requires access.store == store
      ensures Valid() && this.store == store && this.access == access && this.crypto == crypto
    {
      this.store, this.access, this.crypto := store, access, crypto;
    }

    method CreateSecret(actor: Id, project: Id, input: SecretInput, env: Env) returns (r: Reply)
      modifies store
      ensures Does(ServiceSpec.CreateSecret(crypto, old(store.View()), actor, project, input, env), env, store.View(),
                   r)
    {
      var member := store.GetMember(project, actor);
      if member.Err? {
        return Err(member.error);
      }
      if member.value != Admin && member.value != Manager {
        return Err(Forbidden);
      }
      var secret := NewSecret(actor, project, input, env);
      var err := store.CreateSecretWithVersion(secret, Seal(crypto, input.value, env), env.fault);
      if err.Some? {
        return Err(err.value);
      }
      var _ := store.Log(AuditEvent(Some(actor), Some(project), Some(secret.id), SecretCreated, env.now), env.auditOk);
      return Ok(Created(secret.id));
    }

    /** authorizeSecretRead */
    method AuthorizeSecretRead(p: Principal, secret: Secret, now: Time) returns (err: Option<Error>)
      requires Valid()
      ensures err == ReadRefusal(store.View(), p, secret, now)
    {
      if p.kind == ServiceAccountPrincipal {
        if p.projectID != secret.projectID {
          return Some(Forbidden);
        }
        return None;
      }
      err := access.CanReadSecret(secret.projectID, secret.id, p.id, now);
    }

    method GetSecretValue(p: Principal, secret: Id, env: Env) returns (r: Reply)
      requires Valid()
      modifies store
      ensures Does(ServiceSpec.GetSecretValue(crypto, old(store.View()), p, secret, env), env, store.View(), r)
    {
      var found := store.GetSecretByID(secret);
      if found.Err? {
        return Err(found.error);
      }
      var s := found.value;
      if s.status == Revoked {
        return Err(SecretRevoked);
      }
      if s.expiresAt.Some? && env.now > s.expiresAt.value {
        return Err(SecretRevoked);
      }
      var refusal := AuthorizeSecretRead(p, s, env.now);
      if refusal.Some? {
        var _ := store.Log(AuditEvent(ActorRef(p), Some(s.projectID), Some(s.id), SecretReadDenied, env.now),
                           env.auditOk);
        return Err(refusal.value);
      }
      var version := store.GetCurrentVersion(s.id);
      if version.Err? {
        return Err(version.error);
      }
      var plain := crypto.decrypt(version.value.cipherText, version.value.nonce);
      if plain.None? {
        return Err(Error.Crypto);
      }
      var _ := store.Log(AuditEvent(ActorRef(p), Some(s.projectID), Some(s.id), SecretRead, env.now), env.auditOk);
      return Ok(Value(plain.value));
    }

    /** The secret, when the actor may rotate or revoke it. */
    method FindManaged(actor: Id, secret: Id) returns (r: Result<Secret, Error>)
      ensures r == var refusal := ManageRefusal(store.View(), actor, secret);
                   if refusal.Some? then Err(refusal.value) else Ok(store.secrets[secret])
    {
      r := store.GetSecretByID(secret);
      if r.Err? {
        return;
      }
      var member := store.GetMember(r.value.projectID, actor);
      if member.Err? {
        return Err(member.error);
      }
      if member.value != Admin && member.value != Manager {
        return Err(Forbidden);
      }
    }

    method RevokeSecret(actor: Id, secret: Id, env: Env) returns (r: Reply)
      modifies store
      ensures Does(ServiceSpec.RevokeSecret(old(store.View()), actor, secret, env), env, store.View(), r)
    {
      var found := FindManaged(actor, secret);
      if found.Err? {
        return Err(found.error);
      }
      var s := found.value;
      var err := store.UpdateSecretStatus(secret, Revoked, !FailsAt(env.fault, 0));
      if err.Some? {
        return Err(err.value);
      }
      var _ := store.Log(AuditEvent(Some(actor), Some(s.projectID), Some(s.id), SecretWasRevoked, env.now),
                         env.auditOk);
      return Ok(Done);
    }

    method RotateSecret(actor: Id, secret: Id, value: string, env: Env) returns (r: Reply)
      modifies store
      ensures Does(ServiceSpec.RotateSecret(crypto, old(store.View()), actor, secret, value, env), env, store.View(), r)
    {
      var found := FindManaged(actor, secret);
      if found.Err? {
        return Err(found.error);
      }
      var s := found.value;
      var rotated := store.RotateInTx(secret, Seal(crypto, value, env), env.fault);
      if rotated.Err? {
        return Err(rotated.error);
      }
      var _ := store.Log(AuditEvent(Some(actor), Some(s.projectID), Some(s.id), SecretRotated, env.now), env.auditOk);
      return Ok(Done);
    }

    method RollbackSecret(actor: Id, secret: Id, version: int, env: Env) returns (r: Reply)
      modifies store
      ensures Does(ServiceSpec.RollbackSecret(old(store.View()), actor, secret, version, env), env, store.View(), r)
    {
      var found := store.GetSecretByID(secret);
      if found.Err? {
        return Err(found.error);
      }
      var s := found.value;
      var member := store.GetMember(s.projectID, actor);
      if member.Err? || (member.value != Admin && member.value != Manager) {
        return Err(Forbidden);
      }
      var target := store.GetVersionByNumber(secret, version);
      if target.Err? {
        return Err(NotFound);
      }
      var err := store.SetCurrentVersion(secret, version, !FailsAt(env.fault, 0));
      if err.Some? {
        return Err(err.value);
      }
      var _ := store.Log(AuditEvent(Some(actor), Some(s.projectID), Some(s.id), SecretRolledBack, env.now),
                         env.auditOk);
      return Ok(Done);
    }
  }
}
