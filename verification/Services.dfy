/** The services but that of secrets, each proved to do what its specification says. */
module Services {
  import opened Wrappers
  import opened Domain
  import opened ServiceSpec
  import opened Storage
  import Sessions
  import TeamAssignment

  /** The call has done exactly what `out` says: its answer, its tables, and its event in the log. */
  ghost predicate Does(out: Outcome, env: Env, after: Tables, r: Reply) {
    r == out.reply && after == Logged(out.tables, out.event, env.auditOk)
  }

  class AuthService {
    const store: Store

    constructor (store: Store)
      ensures this.store == store
    {
      this.store := store;
    }

    method CreateUser(email: string, password: string, env: Env) returns (r: Reply)
      modifies store
      ensures Does(ServiceSpec.CreateUser(old(store.View()), email, password, env), env, store.View(), r)
    {
      if |password| < 8 || |password| > 72 {
        return Err(InvalidInput);
      }
      // the first registered user becomes the system administrator
      var count := |store.users|;
      var err := store.CreateUser(env.id, User(email, Hash(password), false, count == 0), !FailsAt(env.fault, 0));
      if err.Some? {
        return Err(err.value);
      }
      var _ := store.Log(AuditEvent(None, None, None, UserRegistered, env.now), env.auditOk);
      return Ok(Created(env.id));
    }

    method Login(email: string, password: string, env: Env) returns (r: Reply)
      modifies store
      ensures Does(ServiceSpec.Login(old(store.View()), email, password, env), env, store.View(), r)
    {
      if email !in store.byEmail || store.byEmail[email] !in store.users {
        return Err(InvalidCreds);
      }
      var id := store.byEmail[email];
      var user := store.users[id];
      if user.passwordHash != Hash(password) {
        return Err(InvalidCreds);
      }
      if user.isBlocked {
        return Err(Forbidden);
      }
      var _ := store.Log(AuditEvent(Some(id), None, None, UserLoggedIn, env.now), env.auditOk);
      return Ok(Created(id));
    }

    /** BlockUser, or UnblockUser */
    method SetBlocked(actor: Id, target: Id, blocked: bool, env: Env) returns (r: Reply)
      modifies store
      ensures Does(ServiceSpec.SetBlocked(old(store.View()), actor, target, blocked, env), env, store.View(), r)
    {
      var user := store.GetUser(actor);
      if user.Err? {
        return Err(user.error);
      }
      if !user.value.isAdmin {
        return Err(Forbidden);
      }
      if actor == target {
        return Err(InvalidInput);
      }
      var err := store.SetBlocked(target, blocked, !FailsAt(env.fault, 0));
      if err.Some? {
        return Err(err.value);
      }
      var kind := if blocked then UserBlocked else UserUnblocked;
      var _ := store.Log(AuditEvent(Some(actor), None, None, kind, env.now), env.auditOk);
      return Ok(Done);
    }
  }

  class Validator {
    const store: Store

    constructor (store: Store)
      ensures this.store == store
    {
      this.store := store;
    }

    /** Whether a principal may still act: an account that is active, or a user who is not blocked. */
    method ValidatePrincipal(p: Principal) returns (err: Option<Error>)
      ensures err == if Sessions.StillValid(store.View(), p) then None else Some(Unauthorized)
    {
      if p.kind == ServiceAccountPrincipal {
        var account := store.GetAccount(p.id);
        if account.Err? || account.value.status != Active {
          return Some(Unauthorized);
        }
        return None;
      }
      var user := store.GetUser(p.id);
      if user.Err? || user.value.isBlocked {
        return Some(Unauthorized);
      }
      return None;
    }
  }

  class ProjectService {
    const store: Store

    constructor (store: Store)
      ensures this.store == store
    {
      this.store := store;
    }

    method CreateProject(actor: Id, env: Env) returns (r: Reply)
      modifies store
      ensures Does(ServiceSpec.CreateProject(old(store.View()), actor, env), env, store.View(), r)
    {
      var err := store.CreateProject(env.id, actor, !FailsAt(env.fault, 0));
      if err.Some? {
        return Err(err.value);
      }
      err := store.AddMember(env.id, actor, Admin, !FailsAt(env.fault, 1));
      if err.Some? {
        return Err(err.value);
      }
      var _ := store.Log(AuditEvent(Some(actor), Some(env.id), None, ProjectCreated, env.now), env.auditOk);
      return Ok(Created(env.id));
    }

    /** The check that every change of a project's members starts with. */
    method RequireAdmin(actor: Id, project: Id) returns (err: Option<Error>)
      ensures err == if AdminIn(store.members, project, actor) then None else Some(Forbidden)
    {
      var member := store.GetMember(project, actor);
      if member.Err? || member.value != Admin {
        return Some(Forbidden);
      }
      return None;
    }

    method AddMember(actor: Id, project: Id, user: Id, role: ProjectRole, env: Env) returns (r: Reply)
      modifies store
      ensures Does(ServiceSpec.AddMember(old(store.View()), actor, project, user, role, env), env, store.View(), r)
    {
      var err := RequireAdmin(actor, project);
      if err.Some? {
        return Err(err.value);
      }
      err := store.AddMember(project, user, role, !FailsAt(env.fault, 0));
      if err.Some? {
        return Err(err.value);
      }
      var _ := store.Log(AuditEvent(Some(actor), Some(project), None, MemberAdded, env.now), env.auditOk);
      return Ok(Done);
    }

    method RemoveMember(actor: Id, project: Id, target: Id, env: Env) returns (r: Reply)
      modifies store
      ensures Does(ServiceSpec.RemoveMember(old(store.View()), actor, project, target, env), env, store.View(), r)
    {
      var err := RequireAdmin(actor, project);
      if err.Some? {
        return Err(err.value);
      }
      if actor == target {
        return Err(InvalidInput);
      }
      err := store.RemoveMember(project, target, !FailsAt(env.fault, 0));
      assert (project, target) !in old(store.members) ==> store.members == old(store.members);
      return if err.Some? then Err(err.value) else Ok(Done);
    }

    method UpdateMemberRole(actor: Id, project: Id, target: Id, role: ProjectRole, env: Env) returns (r: Reply)
      modifies store
      ensures Does(ServiceSpec.UpdateMemberRole(old(store.View()), actor, project, target, role, env), env,
                   store.View(), r)
    {
      var err := RequireAdmin(actor, project);
      if err.Some? {
        return Err(err.value);
      }
      err := store.UpdateMemberRole(project, target, role, !FailsAt(env.fault, 0));
      return if err.Some? then Err(err.value) else Ok(Done);
    }

    /** The upserts of a team's members, one after the other; a failed one is ignored. */
    method AddTeamMembers(project: Id, team: seq<Id>, role: ProjectRole, lost: set<Id>)
      modifies store`members
      ensures store.members == Upserted(old(store.members), project, Recipients(old(store.View()), team, lost), role)
    {
      ghost var t := old(store.View());
      for i := 0 to |team|
        invariant store.members == TeamAssignment.AfterUpserts(t, project, team, i, role, lost)
      {
        var _ := store.AddMember(project, team[i], role, team[i] !in lost);
      }
      TeamAssignment.UpsertsAre(t, project, team, |team|, role, lost);
      assert team[..|team|] == team;
    }

    method AssignTeam(actor: Id, project: Id, team: Id, role: ProjectRole, env: Env) returns (r: Reply)
      modifies store
      ensures Does(ServiceSpec.AssignTeam(old(store.View()), actor, project, team, role, env), env, store.View(), r)
    {
      var err := RequireAdmin(actor, project);
      if err.Some? {
        return Err(err.value);
      }
      err := store.AssignTeam(project, team, !FailsAt(env.fault, 0));
      if err.Some? {
        return Err(err.value);
      }
      var listed := store.ListTeamMembers(team, !FailsAt(env.fault, 1));
      if listed.Err? {
        return Err(listed.error);
      }
      assert Recipients(store.View(), listed.value, env.lostUpserts)
          == Recipients(old(store.View()), listed.value, env.lostUpserts);
      AddTeamMembers(project, listed.value, role, env.lostUpserts);
      var _ := store.Log(AuditEvent(Some(actor), Some(project), None, TeamAssigned, env.now), env.auditOk);
      return Ok(Done);
    }

    method UnassignTeam(actor: Id, project: Id, team: Id, env: Env) returns (r: Reply)
      modifies store
      ensures Does(ServiceSpec.UnassignTeam(old(store.View()), actor, project, team, env), env, store.View(), r)
    {
      var err := RequireAdmin(actor, project);
      if err.Some? {
        return Err(err.value);
      }
      err := store.UnassignTeam(project, team, !FailsAt(env.fault, 0));
      assert (project, team) !in old(store.links) ==> store.links == old(store.links);
      return if err.Some? then Err(err.value) else Ok(Done);
    }
  }

  class TeamService {
    const store: Store

    constructor (store: Store)
      ensures this.store == store
    {
      this.store := store;
    }

    method CreateTeam(actor: Id, name: string, env: Env) returns (r: Reply)
      modifies store
      ensures Does(ServiceSpec.CreateTeam(old(store.View()), actor, name, env), env, store.View(), r)
    {
      var err := store.CreateTeam(env.id, name, actor, !FailsAt(env.fault, 0));
      if err.Some? {
        return Err(err.value);
      }
      err := store.AddTeamMember(env.id, actor, Owner, !FailsAt(env.fault, 1));
      if err.Some? {
        return Err(err.value);
      }
      assert store.teams[env.id] == Team(name, [actor], {actor});
      var _ := store.Log(AuditEvent(Some(actor), Some(env.id), None, TeamCreated, env.now), env.auditOk);
      return Ok(Created(env.id));
    }

    method AddMember(actor: Id, team: Id, user: Id, role: TeamRole, env: Env) returns (r: Reply)
      modifies store
      ensures Does(AddTeamMember(old(store.View()), actor, team, user, role, env), env, store.View(), r)
    {
      var owner := store.IsTeamOwner(team, actor);
      if !owner {
        return Err(Forbidden);
      }
      var err := store.AddTeamMember(team, user, role, !FailsAt(env.fault, 0));
      return if err.Some? then Err(err.value) else Ok(Done);
    }

    method RemoveMember(actor: Id, team: Id, user: Id, env: Env) returns (r: Reply)
      modifies store
      ensures Does(RemoveTeamMember(old(store.View()), actor, team, user, env), env, store.View(), r)
    {
      var owner := store.IsTeamOwner(team, actor);
      if !owner {
        return Err(Forbidden);
      }
      var err := store.RemoveTeamMember(team, user, !FailsAt(env.fault, 0));
      return if err.Some? then Err(err.value) else Ok(Done);
    }
  }

  class AccessService {
    const store: Store

    constructor (store: Store)
      ensures this.store == store
    {
      this.store := store;
    }

    /** A manager of the project, and a secret that lives in it. */
    method RequireManagedSecret(actor: Id, project: Id, secret: Id) returns (err: Option<Error>)
      ensures err == GrantRefusal(store.View(), actor, project, secret)
    {
      var member := store.GetMember(project, actor);
      if member.Err? || (member.value != Admin && member.value != Manager) {
        return Some(Forbidden);
      }
      var found := store.GetSecretByID(secret);
      if found.Err? {
        return Some(found.error);
      }
      if found.value.projectID != project {
        return Some(NotFound);
      }
      return None;
    }

    method GrantAccess(actor: Id, project: Id, secret: Id, user: Id, expiresAt: Option<Time>, env: Env)
      returns (r: Reply)
      modifies store
      ensures Does(ServiceSpec.GrantAccess(old(store.View()), actor, project, secret, user, expiresAt, env),
                   env, store.View(), r)
    {
      var err := RequireManagedSecret(actor, project, secret);
      if err.Some? {
        return Err(err.value);
      }
      err := store.CreateGrant(secret, user, Domain.Grant(actor, expiresAt), !FailsAt(env.fault, 0));
      if err.Some? {
        return Err(err.value);
      }
      var _ := store.Log(AuditEvent(Some(actor), Some(project), Some(secret), AccessGranted, env.now), env.auditOk);
      return Ok(Done);
    }

    method RevokeAccess(actor: Id, project: Id, secret: Id, user: Id, env: Env) returns (r: Reply)
      modifies store
      ensures Does(ServiceSpec.RevokeAccess(old(store.View()), actor, project, secret, user, env), env, store.View(), r)
    {
      var err := RequireManagedSecret(actor, project, secret);
      if err.Some? {
        return Err(err.value);
      }
      err := store.DeleteGrant(secret, user, !FailsAt(env.fault, 0));
      if err.Some? {
        assert store.grants == old(store.grants);
        return Err(err.value);
      }
      var _ := store.Log(AuditEvent(Some(actor), Some(project), Some(secret), AccessRevoked, env.now), env.auditOk);
      return Ok(Done);
    }

    /** CanReadSecret; it never answers false without an error. */
    method CanReadSecret(project: Id, secret: Id, user: Id, now: Time) returns (err: Option<Error>)
      ensures forall s: Secret, p: Principal |
                s.id == secret && s.projectID == project && p.id == user && p.kind == UserPrincipal ::
                err == ReadRefusal(store.View(), p, s, now)
    {
      var member := store.GetMember(project, user);
      if member.Err? {
        return Some(member.error);
      }
      if member.value == Admin || member.value == Manager {
        return None;
      }
      var grant := store.GetGrant(secret, user);
      if grant.Err? {
        return Some(Forbidden);
      }
      if grant.value.expiresAt.Some? && grant.value.expiresAt.value < now {
        return Some(AccessExpired);
      }
      return None;
    }
  }

  class AccountService {
    const store: Store

    constructor (store: Store)
      ensures this.store == store
    {
      this.store := store;
    }

    method Create(actor: Id, project: Id, name: string, env: Env) returns (r: Reply)
      modifies store
      ensures Does(CreateAccount(old(store.View()), actor, project, name, env), env, store.View(), r)
    {
      var member := store.GetMember(project, actor);
      if member.Err? || (member.value != Admin && member.value != Manager) {
        return Err(Forbidden);
      }
      var err := store.CreateAccount(env.id, Account(project, name, Hash("sa_" + env.nonce), Active),
                                     !FailsAt(env.fault, 0));
      if err.Some? {
        return Err(err.value);
      }
      var _ := store.Log(AuditEvent(Some(actor), Some(project), None, AccountCreated, env.now), env.auditOk);
      return Ok(Created(env.id));
    }

    method Authenticate(account: Id, token: string, env: Env) returns (r: Reply)
      modifies store
      ensures Does(ServiceSpec.Authenticate(old(store.View()), account, token, env), env, store.View(), r)
    {
      var found := store.GetAccount(account);
      if found.Err? {
        return Err(InvalidCreds);
      }
      if found.value.status != Active {
        return Err(Unauthorized);
      }
      if found.value.tokenHash != Hash(token) {
        return Err(InvalidCreds);
      }
      var _ := store.Log(AuditEvent(None, Some(found.value.projectID), None, AccountLoggedIn, env.now), env.auditOk);
      return Ok(Created(found.value.projectID));
    }

    method Revoke(actor: Id, account: Id, env: Env) returns (r: Reply)
      modifies store
      ensures Does(RevokeAccount(old(store.View()), actor, account, env), env, store.View(), r)
    {
      var found := store.GetAccount(account);
      if found.Err? {
        return Err(found.error);
      }
      var member := store.GetMember(found.value.projectID, actor);
      if member.Err? || (member.value != Admin && member.value != Manager) {
        return Err(Forbidden);
      }
      var err := store.UpdateAccountStatus(account, Revoked, !FailsAt(env.fault, 0));
      if err.Some? {
        return Err(err.value);
      }
      var _ := store.Log(AuditEvent(Some(actor), Some(found.value.projectID), None, AccountRevoked, env.now),
                         env.auditOk);
      return Ok(Done);
    }
  }
}
