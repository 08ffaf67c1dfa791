/**
 Who may make each call on users, projects, teams and access, when it succeeds, and everything it
 then changes and logs, told in rows alone.
 */
module ServiceRules {
  import opened Wrappers
  import opened Domain
  import opened ServiceSpec

  /** Nothing changed and nothing handed to the log. */
  predicate NoEffect(t: Tables, out: Outcome) {
    out.tables == t && out.event == None
  }

  /** The call's event, and nothing else of its kind. */
  predicate Hands(out: Outcome, actor: Option<Id>, project: Option<Id>, secret: Option<Id>, kind: EventType,
                  now: Time)
  {
    out.event == Some(AuditEvent(actor, project, secret, kind, now))
  }

  lemma EveryMemberHasARole(t: Tables, project: Id, user: Id)
    ensures (project, user) in t.org.members
       <==> HasRole(t, project, user, {Admin, Manager}) || HasRole(t, project, user, {Developer})
  {
    if (project, user) in t.org.members {
      var role := t.org.members[(project, user)];
      assert role.Admin? || role.Manager? || role.Developer?;
    }
  }

  // ---- users ----

  lemma RegisterRule(t: Tables, email: string, password: string, env: Env, out: Outcome)
    requires out == CreateUser(t, email, password, env)
    ensures out.reply == Err(InvalidInput) <==> !(8 <= |password| <= 72)
    ensures out.reply == Err(Conflict)
       <==> && 8 <= |password| <= 72 && env.fault != Some(0)
            && (env.id in t.users.rows || email in t.users.byEmail)
    ensures out.reply.Ok?
       <==> && 8 <= |password| <= 72 && env.fault != Some(0)
            && env.id !in t.users.rows && email !in t.users.byEmail
    ensures out.reply.Ok? ==>
              && out.reply == Ok(Created(env.id))
              && out.tables.users.rows
                 == t.users.rows[env.id := User(email, Hash(password), false, t.users.rows == map[])]
              && out.tables.users.byEmail == t.users.byEmail[email := env.id]
              && out.tables == t.(users := out.tables.users)
              && Hands(out, None, None, None, UserRegistered, env.now)
    ensures out.reply.Err? ==> NoEffect(t, out)
  {
    assert |t.users.rows| == 0 <==> t.users.rows == map[];
  }

  lemma LoginRule(t: Tables, email: string, password: string, env: Env, out: Outcome, id: Id)
    requires out == Login(t, email, password, env)
    ensures out.reply == Ok(Created(id))
       <==> && email in t.users.byEmail && t.users.byEmail[email] == id && id in t.users.rows
            && t.users.rows[id].passwordHash == Hash(password) && !t.users.rows[id].isBlocked
    ensures out.tables == t
    ensures out.reply == Ok(Created(id)) ==> Hands(out, Some(id), None, None, UserLoggedIn, env.now)
    ensures out.reply.Err? ==> out.event == None
    ensures out.reply == Err(Forbidden)
       <==> && email in t.users.byEmail && t.users.byEmail[email] in t.users.rows
            && t.users.rows[t.users.byEmail[email]].passwordHash == Hash(password)
            && t.users.rows[t.users.byEmail[email]].isBlocked
    ensures out.reply.Err? && out.reply.error != Forbidden ==> out.reply.error == InvalidCreds
  {
  }

  lemma BlockRule(t: Tables, actor: Id, target: Id, blocked: bool, env: Env, out: Outcome)
    requires out == SetBlocked(t, actor, target, blocked, env)
    ensures out.reply.Ok?
       <==> && actor in t.users.rows && t.users.rows[actor].isAdmin && actor != target
            && target in t.users.rows && env.fault != Some(0)
    ensures out.reply.Ok? ==>
              && out.tables.users.rows.Keys == t.users.rows.Keys
              && out.tables.users.rows[target] == t.users.rows[target].(isBlocked := blocked)
              && (forall u | u in t.users.rows && u != target :: out.tables.users.rows[u] == t.users.rows[u])
              && out.tables == t.(users := t.users.(rows := out.tables.users.rows))
              && Hands(out, Some(actor), None, None, if blocked then UserBlocked else UserUnblocked, env.now)
    ensures out.reply.Err? ==> NoEffect(t, out)
    ensures out.reply == Err(Forbidden) <==> actor in t.users.rows && !t.users.rows[actor].isAdmin
    ensures out.reply == Err(InvalidInput)
       <==> actor in t.users.rows && t.users.rows[actor].isAdmin && actor == target
  {
  }

  // ---- projects ----

  lemma CreateProjectRule(t: Tables, actor: Id, env: Env, out: Outcome)
    requires out == CreateProject(t, actor, env)
    ensures out.reply.Ok?
       <==> env.id !in t.org.ids && actor in t.users.rows && env.fault != Some(0) && env.fault != Some(1)
    ensures out.reply.Ok? ==>
              && out.reply == Ok(Created(env.id))
              && out.tables.org == t.org.(ids := t.org.ids + {env.id},
                                          members := t.org.members[(env.id, actor) := Admin])
              && Hands(out, Some(actor), Some(env.id), None, ProjectCreated, env.now)
    ensures out.tables == t.(org := out.tables.org)
    ensures out.reply == Err(Conflict) <==> env.fault != Some(0) && env.id in t.org.ids
    ensures out.reply.Err? ==> out.event == None
    ensures out.reply.Err? ==>
              out.tables.org == if env.id !in t.org.ids && actor in t.users.rows && env.fault == Some(1)
                                then t.org.(ids := t.org.ids + {env.id}) else t.org
  {
  }

  lemma AddMemberRule(t: Tables, actor: Id, project: Id, user: Id, role: ProjectRole, env: Env, out: Outcome)
    requires out == AddMember(t, actor, project, user, role, env)
    ensures out.reply.Ok? <==> HasRole(t, project, actor, {Admin}) && user in t.users.rows && env.fault != Some(0)
    ensures out.reply == Err(Forbidden) <==> !HasRole(t, project, actor, {Admin})
    ensures out.reply.Ok? ==>
              && out.tables == t.(org := t.org.(members := t.org.members[(project, user) := role]))
              && Hands(out, Some(actor), Some(project), None, MemberAdded, env.now)
    ensures out.reply.Err? ==> NoEffect(t, out)
  {
  }

  lemma RemoveMemberRule(t: Tables, actor: Id, project: Id, user: Id, env: Env, out: Outcome)
    requires out == RemoveMember(t, actor, project, user, env)
    ensures out.reply.Ok?
       <==> && HasRole(t, project, actor, {Admin}) && actor != user
            && (project, user) in t.org.members && env.fault != Some(0)
    ensures out.reply == Err(Forbidden) <==> !HasRole(t, project, actor, {Admin})
    ensures out.reply == Err(InvalidInput) <==> HasRole(t, project, actor, {Admin}) && actor == user
    ensures out.reply == Err(NotFound)
       <==> && HasRole(t, project, actor, {Admin}) && actor != user
            && (project, user) !in t.org.members && env.fault != Some(0)
    ensures out.reply.Ok? ==> out.tables == t.(org := t.org.(members := t.org.members - {(project, user)}))
    ensures out.reply.Err? ==> out.tables == t
    ensures out.event == None
  {
  }

  lemma UpdateRoleRule(t: Tables, actor: Id, project: Id, user: Id, role: ProjectRole, env: Env, out: Outcome)
    requires out == UpdateMemberRole(t, actor, project, user, role, env)
    ensures out.reply.Ok?
       <==> HasRole(t, project, actor, {Admin}) && (project, user) in t.org.members && env.fault != Some(0)
    ensures out.reply == Err(Forbidden) <==> !HasRole(t, project, actor, {Admin})
    ensures out.reply == Err(NotFound)
       <==> HasRole(t, project, actor, {Admin}) && (project, user) !in t.org.members && env.fault != Some(0)
    ensures out.reply.Ok? ==> out.tables == t.(org := t.org.(members := t.org.members[(project, user) := role]))
    ensures out.reply.Err? ==> out.tables == t
    ensures out.event == None
  {
  }

  lemma AssignTeamRule(t: Tables, actor: Id, project: Id, team: Id, role: ProjectRole, env: Env, out: Outcome)
    requires out == AssignTeam(t, actor, project, team, role, env)
    ensures out.reply.Ok?
       <==> HasRole(t, project, actor, {Admin}) && team in t.org.teams && env.fault != Some(0) && env.fault != Some(1)
    ensures out.reply == Err(Forbidden) <==> !HasRole(t, project, actor, {Admin})
    ensures out.reply.Ok? ==> Hands(out, Some(actor), Some(project), None, TeamAssigned, env.now)
    ensures out.reply.Err? ==> out.event == None && out.tables.org.members == t.org.members
    ensures out.tables == t.(org := t.org.(members := out.tables.org.members, links := out.tables.org.links))
    ensures out.tables.org.links
         == if HasRole(t, project, actor, {Admin}) && team in t.org.teams && env.fault != Some(0)
            then t.org.links + {(project, team)} else t.org.links
  {
  }

  lemma UnassignTeamRule(t: Tables, actor: Id, project: Id, team: Id, env: Env, out: Outcome)
    requires out == UnassignTeam(t, actor, project, team, env)
    ensures out.reply.Ok?
       <==> HasRole(t, project, actor, {Admin}) && (project, team) in t.org.links && env.fault != Some(0)
    ensures out.reply == Err(Forbidden) <==> !HasRole(t, project, actor, {Admin})
    ensures out.reply == Err(NotFound)
       <==> HasRole(t, project, actor, {Admin}) && (project, team) !in t.org.links && env.fault != Some(0)
    ensures out.reply.Ok? ==> out.tables == t.(org := t.org.(links := t.org.links - {(project, team)}))
    ensures out.reply.Err? ==> out.tables == t
    ensures out.event == None
  {
  }

  // ---- teams ----

  lemma CreateTeamRule(t: Tables, actor: Id, name: string, env: Env, out: Outcome)
    requires out == CreateTeam(t, actor, name, env)
    ensures out.reply.Ok?
       <==> && env.id !in t.org.teams && (forall team | team in t.org.teams :: t.org.teams[team].name != name)
            && actor in t.users.rows && env.fault != Some(0) && env.fault != Some(1)
    ensures out.reply.Ok? ==>
              && out.reply == Ok(Created(env.id))
              && out.tables == t.(org := t.org.(teams := t.org.teams[env.id := Team(name, [actor], {actor})]))
              && Hands(out, Some(actor), Some(env.id), None, TeamCreated, env.now)
    ensures out.reply.Err? ==> out.event == None
    ensures out.reply == Err(Conflict)
       <==> && env.fault != Some(0)
            && (env.id in t.org.teams || exists team | team in t.org.teams :: t.org.teams[team].name == name)
    ensures out.reply.Err? ==>
              out.tables == if out.reply == Err(Storage) && actor in t.users.rows && env.fault == Some(1)
                            then t.(org := t.org.(teams := t.org.teams[env.id := Team(name, [], {})])) else t
  {
  }

  lemma AddTeamMemberRule(t: Tables, actor: Id, team: Id, user: Id, role: TeamRole, env: Env, out: Outcome)
    requires out == AddTeamMember(t, actor, team, user, role, env)
    ensures out.reply.Ok?
       <==> && team in t.org.teams && actor in t.org.teams[team].owners
            && user in t.users.rows && env.fault != Some(0)
    ensures out.reply == Err(Forbidden) <==> !(team in t.org.teams && actor in t.org.teams[team].owners)
    ensures out.reply.Ok? ==>
              var (before, after) := (t.org.teams[team], out.tables.org.teams[team]);
              && out.tables == t.(org := t.org.(teams := t.org.teams[team := after]))
              && after.name == before.name
              && after.members == (if user in before.members then before.members else before.members + [user])
              && (forall u :: u in after.owners <==> if u == user then role == Owner else u in before.owners)
    ensures out.reply.Err? ==> out.tables == t
    ensures out.event == None
  {
  }

  lemma RemoveTeamMemberRule(t: Tables, actor: Id, team: Id, user: Id, env: Env, out: Outcome)
    requires out == RemoveTeamMember(t, actor, team, user, env)
    ensures out.reply.Ok?
       <==> && team in t.org.teams && actor in t.org.teams[team].owners
            && user in t.org.teams[team].members && env.fault != Some(0)
    ensures out.reply == Err(Forbidden) <==> !(team in t.org.teams && actor in t.org.teams[team].owners)
    ensures out.reply == Err(NotFound)
       <==> && team in t.org.teams && actor in t.org.teams[team].owners
            && user !in t.org.teams[team].members && env.fault != Some(0)
    ensures out.reply.Ok? ==>
              var (before, after) := (t.org.teams[team], out.tables.org.teams[team]);
              && out.tables == t.(org := t.org.(teams := t.org.teams[team := after]))
              && after.name == before.name && after.owners == before.owners - {user}
              && (forall u :: u in after.members <==> u in before.members && u != user)
    ensures out.reply.Err? ==> out.tables == t
    ensures out.event == None
  {
  }

  // ---- access ----

  lemma GrantRule(t: Tables, actor: Id, project: Id, secret: Id, user: Id, expiresAt: Option<Time>, env: Env,
                  out: Outcome)
    requires out == GrantAccess(t, actor, project, secret, user, expiresAt, env)
    ensures out.reply.Ok?
       <==> && HasRole(t, project, actor, {Admin, Manager})
            && secret in t.vault.secrets && t.vault.secrets[secret].projectID == project
            && user in t.users.rows && env.fault != Some(0)
    ensures out.reply == Err(Forbidden) <==> !HasRole(t, project, actor, {Admin, Manager})
    ensures out.reply == Err(NotFound)
       <==> && HasRole(t, project, actor, {Admin, Manager})
            && (secret !in t.vault.secrets || t.vault.secrets[secret].projectID != project)
    ensures out.reply.Ok? ==>
              && out.tables == t.(grants := t.grants[(secret, user) := Domain.Grant(actor, expiresAt)])
              && Hands(out, Some(actor), Some(project), Some(secret), AccessGranted, env.now)
    ensures out.reply.Err? ==> NoEffect(t, out)
  {
  }

  lemma RevokeAccessRule(t: Tables, actor: Id, project: Id, secret: Id, user: Id, env: Env, out: Outcome)
    requires out == RevokeAccess(t, actor, project, secret, user, env)
    ensures out.reply.Ok?
       <==> && HasRole(t, project, actor, {Admin, Manager})
            && secret in t.vault.secrets && t.vault.secrets[secret].projectID == project
            && (secret, user) in t.grants && env.fault != Some(0)
    ensures out.reply == Err(Forbidden) <==> !HasRole(t, project, actor, {Admin, Manager})
    ensures out.reply == Err(NotFound)
       <==> && HasRole(t, project, actor, {Admin, Manager})
            && (|| secret !in t.vault.secrets || t.vault.secrets[secret].projectID != project
                || ((secret, user) !in t.grants && env.fault != Some(0)))
    ensures out.reply.Ok? ==>
              && out.tables == t.(grants := t.grants - {(secret, user)})
              && Hands(out, Some(actor), Some(project), Some(secret), AccessRevoked, env.now)
    ensures out.reply.Err? ==> NoEffect(t, out)
  {
  }

  // ---- service accounts ----

  lemma CreateAccountRule(t: Tables, actor: Id, project: Id, name: string, env: Env, out: Outcome)
    requires out == CreateAccount(t, actor, project, name, env)
    ensures out.reply.Ok?
       <==> && HasRole(t, project, actor, {Admin, Manager}) && env.id !in t.accounts && env.fault != Some(0)
            && (forall a | a in t.accounts :: t.accounts[a].projectID != project || t.accounts[a].name != name)
    ensures out.reply == Err(Forbidden) <==> !HasRole(t, project, actor, {Admin, Manager})
    ensures out.reply == Err(Conflict)
       <==> && HasRole(t, project, actor, {Admin, Manager}) && env.fault != Some(0)
            && (|| env.id in t.accounts
                || exists a | a in t.accounts :: t.accounts[a].projectID == project && t.accounts[a].name == name)
    ensures out.reply.Ok? ==>
              && out.reply == Ok(Created(env.id))
              && out.tables
                 == t.(accounts := t.accounts[env.id := Account(project, name, Hash("sa_" + env.nonce), Active)])
              && Hands(out, Some(actor), Some(project), None, AccountCreated, env.now)
    ensures out.reply.Err? ==> NoEffect(t, out)
  {
  }

  lemma AuthenticateRule(t: Tables, account: Id, token: string, env: Env, out: Outcome)
    requires out == Authenticate(t, account, token, env)
    ensures out.reply.Ok?
       <==> && account in t.accounts && t.accounts[account].status == Active
            && t.accounts[account].tokenHash == Hash(token)
    ensures out.tables == t
    ensures out.reply.Ok? ==>
              && out.reply == Ok(Created(t.accounts[account].projectID))
              && Hands(out, None, Some(t.accounts[account].projectID), None, AccountLoggedIn, env.now)
    ensures out.reply.Err? ==> out.event == None
    ensures out.reply == Err(InvalidCreds)
       <==> (account in t.accounts ==>
               t.accounts[account].status == Active && t.accounts[account].tokenHash != Hash(token))
    ensures account in t.accounts && t.accounts[account].status == Revoked ==> out.reply == Err(Unauthorized)
  {
  }

  lemma RevokeAccountRule(t: Tables, actor: Id, account: Id, env: Env, out: Outcome)
    requires out == RevokeAccount(t, actor, account, env)
    ensures out.reply.Ok?
       <==> && account in t.accounts && env.fault != Some(0)
            && HasRole(t, t.accounts[account].projectID, actor, {Admin, Manager})
    ensures out.reply == Err(Forbidden)
       <==> account in t.accounts && !HasRole(t, t.accounts[account].projectID, actor, {Admin, Manager})
    ensures out.reply.Ok? ==>
              && out.tables == t.(accounts := t.accounts[account := t.accounts[account].(status := Revoked)])
              && Hands(out, Some(actor), Some(t.accounts[account].projectID), None, AccountRevoked, env.now)
    ensures out.reply.Err? ==> NoEffect(t, out)
    ensures out.reply == Err(NotFound) <==> account !in t.accounts
  {
  }
}
