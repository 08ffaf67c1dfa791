/**
 What each service call does to the tables and what it answers, as functions. The services
 themselves, which update a database statement by statement, are proved against these.
 */
module ServiceSpec {
  import opened Wrappers
  import opened VersionRows
  import opened Domain

  /** Begin, lock, max, clear, insert, commit. */
  const ROTATE_STATEMENTS := 6

  /** Begin, two inserts, commit. */
  const CREATE_STATEMENTS := 4

  // ---- auth ----

  function CreateUser(t: Tables, email: string, password: string, env: Env): Outcome {
    if |password| < 8 || |password| > 72 then Refused(t, InvalidInput)
    else if FailsAt(env.fault, 0) then Refused(t, Storage)
    else if env.id in t.users.rows || email in t.users.byEmail then Refused(t, Conflict)
    else
      var user := User(email, Hash(password), false, |t.users.rows| == 0);
      var t' := t.(users := Users(t.users.rows[env.id := user], t.users.byEmail[email := env.id]));
      Outcome(t', Ok(Created(env.id)), Event(env, None, None, None, UserRegistered))
  }

  function Login(t: Tables, email: string, password: string, env: Env): Outcome {
    if email !in t.users.byEmail || t.users.byEmail[email] !in t.users.rows then Refused(t, InvalidCreds)
    else
      var id := t.users.byEmail[email];
      if t.users.rows[id].passwordHash != Hash(password) then Refused(t, InvalidCreds)
      else if t.users.rows[id].isBlocked then Refused(t, Forbidden)
      else Outcome(t, Ok(Created(id)), Event(env, Some(id), None, None, UserLoggedIn))
  }

  /** BlockUser and UnblockUser */
  function SetBlocked(t: Tables, actor: Id, target: Id, blocked: bool, env: Env): Outcome {
    if actor !in t.users.rows then Refused(t, NotFound)
    else if !t.users.rows[actor].isAdmin then Refused(t, Forbidden)
    else if actor == target then Refused(t, InvalidInput)
    else if FailsAt(env.fault, 0) then Refused(t, Storage)
    else if target !in t.users.rows then Refused(t, NotFound)
    else
      var t' := t.(users := t.users.(rows := t.users.rows[target := t.users.rows[target].(isBlocked := blocked)]));
      Outcome(t', Ok(Done), Event(env, Some(actor), None, None, if blocked then UserBlocked else UserUnblocked))
  }

  // ---- project ----

  /** Two statements without a transaction: when the second fails, the project stays without members. */
  function CreateProject(t: Tables, actor: Id, env: Env): Outcome {
    if FailsAt(env.fault, 0) then Refused(t, Storage)
    else if env.id in t.org.ids then Refused(t, Conflict)
    else if actor !in t.users.rows then Refused(t, Storage)
    else
      var t1 := t.(org := t.org.(ids := t.org.ids + {env.id}));
      if FailsAt(env.fault, 1) then Refused(t1, Storage)
      else
        var t2 := t1.(org := t1.org.(members := t1.org.members[(env.id, actor) := Admin]));
        Outcome(t2, Ok(Created(env.id)), Event(env, Some(actor), Some(env.id), None, ProjectCreated))
  }

  function AddMember(t: Tables, actor: Id, project: Id, user: Id, role: ProjectRole, env: Env): Outcome {
    if !AdminIn(t.org.members, project, actor) then Refused(t, Forbidden)
    else if FailsAt(env.fault, 0) || user !in t.users.rows then Refused(t, Storage)
    else
      var t' := t.(org := t.org.(members := t.org.members[(project, user) := role]));
      Outcome(t', Ok(Done), Event(env, Some(actor), Some(project), None, MemberAdded))
  }

  function RemoveMember(t: Tables, actor: Id, project: Id, target: Id, env: Env): Outcome {
    if !AdminIn(t.org.members, project, actor) then Refused(t, Forbidden)
    else if actor == target then Refused(t, InvalidInput)
    else if FailsAt(env.fault, 0) then Refused(t, Storage)
    else if (project, target) !in t.org.members then Refused(t, NotFound)
    else Outcome(t.(org := t.org.(members := t.org.members - {(project, target)})), Ok(Done), None)
  }

  function UpdateMemberRole(t: Tables, actor: Id, project: Id, target: Id, role: ProjectRole, env: Env): Outcome {
    if !AdminIn(t.org.members, project, actor) then Refused(t, Forbidden)
    else if FailsAt(env.fault, 0) then Refused(t, Storage)
    else if (project, target) !in t.org.members then Refused(t, NotFound)
    else Outcome(t.(org := t.org.(members := t.org.members[(project, target) := role])), Ok(Done), None)
  }

  /** The team members whose upsert goes through: users that exist and whose write is not lost. */
  function Recipients(t: Tables, team: seq<Id>, lost: set<Id>): set<Id> {
    set u | u in team && u in t.users.rows && u !in lost
  }

  function Upserted(members: Members, project: Id, users: set<Id>, role: ProjectRole): Members {
    members + (map u | u in users :: (project, u) := role)
  }

  /** The link is written first, so it stays when the team cannot be listed. */
  function AssignTeam(t: Tables, actor: Id, project: Id, team: Id, role: ProjectRole, env: Env): Outcome {
    if !AdminIn(t.org.members, project, actor) then Refused(t, Forbidden)
    else if FailsAt(env.fault, 0) || team !in t.org.teams then Refused(t, Storage)
    else if FailsAt(env.fault, 1) then Refused(t.(org := t.org.(links := t.org.links + {(project, team)})), Storage)
    else
      var users := Recipients(t, t.org.teams[team].members, env.lostUpserts);
      var t' := t.(org := t.org.(links := t.org.links + {(project, team)},
                                 members := Upserted(t.org.members, project, users, role)));
      Outcome(t', Ok(Done), Event(env, Some(actor), Some(project), None, TeamAssigned))
  }

  function UnassignTeam(t: Tables, actor: Id, project: Id, team: Id, env: Env): Outcome {
    if !AdminIn(t.org.members, project, actor) then Refused(t, Forbidden)
    else if FailsAt(env.fault, 0) then Refused(t, Storage)
    else if (project, team) !in t.org.links then Refused(t, NotFound)
    else Outcome(t.(org := t.org.(links := t.org.links - {(project, team)})), Ok(Done), None)
  }

  // ---- team ----

  predicate TeamNameTaken(t: Tables, name: string) {
    exists team | team in t.org.teams :: t.org.teams[team].name == name
  }

  predicate OwnerOf(t: Tables, team: Id, user: Id) {
    team in t.org.teams && user in t.org.teams[team].owners
  }

  function WithTeam(t: Tables, id: Id, team: Team): Tables {
    t.(org := t.org.(teams := t.org.teams[id := team]))
  }

  /** Two statements without a transaction; the event names the team where a project is meant. */
  function CreateTeam(t: Tables, actor: Id, name: string, env: Env): Outcome {
    if FailsAt(env.fault, 0) then Refused(t, Storage)
    else if env.id in t.org.teams || TeamNameTaken(t, name) then Refused(t, Conflict)
    else if actor !in t.users.rows then Refused(t, Storage)
    else if FailsAt(env.fault, 1) then Refused(WithTeam(t, env.id, Team(name, [], {})), Storage)
    else
      Outcome(WithTeam(t, env.id, Team(name, [actor], {actor})), Ok(Created(env.id)),
              Event(env, Some(actor), Some(env.id), None, TeamCreated))
  }

  /** The upsert of a team member: a new one comes last, and the role is the given one. */
  function TeamWith(team: Team, user: Id, role: TeamRole): Team {
    Team(team.name, if user in team.members then team.members else team.members + [user],
         if role == Owner then team.owners + {user} else team.owners - {user})
  }

  function Without(users: seq<Id>, user: Id): (r: seq<Id>)
    ensures forall u :: u in r <==> u in users && u != user
  {
    if users == [] then []
    else (if users[0] == user then [] else [users[0]]) + Without(users[1..], user)
  }

  function AddTeamMember(t: Tables, actor: Id, team: Id, user: Id, role: TeamRole, env: Env): Outcome {
    if !OwnerOf(t, team, actor) then Refused(t, Forbidden)
    else if FailsAt(env.fault, 0) || user !in t.users.rows then Refused(t, Storage)
    else Outcome(WithTeam(t, team, TeamWith(t.org.teams[team], user, role)), Ok(Done), None)
  }

  function RemoveTeamMember(t: Tables, actor: Id, team: Id, user: Id, env: Env): Outcome {
    if !OwnerOf(t, team, actor) then Refused(t, Forbidden)
    else if FailsAt(env.fault, 0) then Refused(t, Storage)
    else if user !in t.org.teams[team].members then Refused(t, NotFound)
    else
      var before := t.org.teams[team];
      var after := Team(before.name, Without(before.members, user), before.owners - {user});
      Outcome(WithTeam(t, team, after), Ok(Done), None)
  }

  // ---- secret ----

  predicate NameTaken(t: Tables, project: Id, name: string) {
    exists s | s in t.vault.secrets :: t.vault.secrets[s].projectID == project && t.vault.secrets[s].name == name
  }

  datatype SecretInput = SecretInput(name: string, description: string, value: string,
                                     environment: Option<Environment>, tags: seq<string>, expiresAt: Option<Time>)

  function NewSecret(actor: Id, project: Id, input: SecretInput, env: Env): Secret {
    var environment := if input.environment.Some? then input.environment.value else Production;
    Secret(env.id, project, input.name, input.description, Active, environment, input.tags, input.expiresAt,
           actor, env.now)
  }

  function Seal(c: Crypto, value: string, env: Env): Sealed {
    Sealed(c.encrypt(value, env.nonce), env.nonce)
  }

  function CreateSecret(c: Crypto, t: Tables, actor: Id, project: Id, input: SecretInput, env: Env): Outcome {
    if (project, actor) !in t.org.members then Refused(t, NotFound)
    else if !MayManage(t, project, actor) then Refused(t, Forbidden)
    else if FailsAt(env.fault, 0) then Refused(t, Storage)
    else if env.id in t.vault.secrets || NameTaken(t, project, input.name) then Refused(t, Conflict)
    else if FailsWithin(env.fault, CREATE_STATEMENTS) then Refused(t, Storage)
    else
      var t' := t.(vault := Vault(t.vault.secrets[env.id := NewSecret(actor, project, input, env)],
                                 t.vault.versions[env.id := map[1 := Row(Seal(c, input.value, env), true)]]));
      if FailsAt(env.fault, CREATE_STATEMENTS) then Refused(t', Storage)
      else Outcome(t', Ok(Created(env.id)), Event(env, Some(actor), Some(project), Some(env.id), SecretCreated))
  }

  function VersionsOf(t: Tables, secret: Id): Rows<Sealed> {
    if secret in t.vault.versions then t.vault.versions[secret] else map[]
  }

  /** authorizeSecretRead with CanReadSecret: None when the read is allowed. */
  function ReadRefusal(t: Tables, p: Principal, s: Secret, now: Time): Option<Error> {
    if p.kind == ServiceAccountPrincipal then
      if p.projectID != s.projectID then Some(Forbidden) else None
    else if (s.projectID, p.id) !in t.org.members then Some(NotFound)
    else if MayManage(t, s.projectID, p.id) then None
    else if (s.id, p.id) !in t.grants then Some(Forbidden)
    else
      var expires := t.grants[(s.id, p.id)].expiresAt;
      if expires.Some? && expires.value < now then Some(AccessExpired) else None
  }

  function ActorRef(p: Principal): Option<Id> {
    if p.kind == UserPrincipal then Some(p.id) else None
  }

  /** The reply when the read is authorized. */
  function CurrentValue(c: Crypto, rows: Rows<Sealed>): Reply {
    // LIMIT 1 may return any current row; serial runs keep exactly one
    var v := MaxVersion(Currents(rows));
    if v !in rows then Err(NotFound)
    else
      var plain := c.decrypt(rows[v].payload.cipherText, rows[v].payload.nonce);
      if plain.Some? then Ok(Value(plain.value)) else Err(Crypto)
  }

  function GetSecretValue(c: Crypto, t: Tables, p: Principal, secret: Id, env: Env): Outcome {
    if secret !in t.vault.secrets then Refused(t, NotFound)
    else
      var s := t.vault.secrets[secret];
      if s.status == Revoked then Refused(t, SecretRevoked)
      else if s.expiresAt.Some? && env.now > s.expiresAt.value then Refused(t, SecretRevoked)
      else
        var refusal := ReadRefusal(t, p, s, env.now);
        if refusal.Some? then
          Outcome(t, Err(refusal.value), Event(env, ActorRef(p), Some(s.projectID), Some(s.id), SecretReadDenied))
        else
          var reply := CurrentValue(c, VersionsOf(t, s.id));
          if reply.Err? then Outcome(t, reply, None)
          else Outcome(t, reply, Event(env, ActorRef(p), Some(s.projectID), Some(s.id), SecretRead))
  }

  /** What RevokeSecret and RotateSecret check first. */
  function ManageRefusal(t: Tables, actor: Id, secret: Id): Option<Error> {
    if secret !in t.vault.secrets then Some(NotFound)
    else if (t.vault.secrets[secret].projectID, actor) !in t.org.members then Some(NotFound)
    else if !MayManage(t, t.vault.secrets[secret].projectID, actor) then Some(Forbidden)
    else None
  }

  function RevokeSecret(t: Tables, actor: Id, secret: Id, env: Env): Outcome {
    var refusal := ManageRefusal(t, actor, secret);
    if refusal.Some? then Refused(t, refusal.value)
    else if FailsAt(env.fault, 0) then Refused(t, Storage)
    else
      var s := t.vault.secrets[secret];
      var t' := t.(vault := t.vault.(secrets := t.vault.secrets[secret := s.(status := Revoked)]));
      Outcome(t', Ok(Done), Event(env, Some(actor), Some(s.projectID), Some(s.id), SecretWasRevoked))
  }

  function RotateSecret(c: Crypto, t: Tables, actor: Id, secret: Id, value: string, env: Env): Outcome {
    var refusal := ManageRefusal(t, actor, secret);
    if refusal.Some? then Refused(t, refusal.value)
    else if FailsWithin(env.fault, ROTATE_STATEMENTS) then Refused(t, Storage)
    else
      var s := t.vault.secrets[secret];
      var rows := Rotated(VersionsOf(t, secret), Seal(c, value, env));
      var t' := t.(vault := t.vault.(versions := t.vault.versions[secret := rows]));
      if FailsAt(env.fault, ROTATE_STATEMENTS) then Refused(t', Storage)
      else Outcome(t', Ok(Done), Event(env, Some(actor), Some(s.projectID), Some(s.id), SecretRotated))
  }

  function RollbackSecret(t: Tables, actor: Id, secret: Id, version: int, env: Env): Outcome {
    if secret !in t.vault.secrets then Refused(t, NotFound)
    else if !MayManage(t, t.vault.secrets[secret].projectID, actor) then Refused(t, Forbidden)
    else if version < 0 || version !in VersionsOf(t, secret) then Refused(t, NotFound)
    else if FailsAt(env.fault, 0) then Refused(t, Storage)
    else
      var s := t.vault.secrets[secret];
      var rows := RolledBack(VersionsOf(t, secret), version);
      var t' := t.(vault := t.vault.(versions := t.vault.versions[secret := rows]));
      Outcome(t', Ok(Done), Event(env, Some(actor), Some(s.projectID), Some(s.id), SecretRolledBack))
  }

  // ---- access ----

  /** What every grant operation checks first. */
  function GrantRefusal(t: Tables, actor: Id, project: Id, secret: Id): Option<Error> {
    if !MayManage(t, project, actor) then Some(Forbidden)
    else if secret !in t.vault.secrets || t.vault.secrets[secret].projectID != project then Some(NotFound)
    else None
  }

  function GrantAccess(t: Tables, actor: Id, project: Id, secret: Id, user: Id,
                       expiresAt: Option<Time>, env: Env): Outcome {
    var refusal := GrantRefusal(t, actor, project, secret);
    if refusal.Some? then Refused(t, refusal.value)
    else if FailsAt(env.fault, 0) || user !in t.users.rows then Refused(t, Storage)
    else
      var t' := t.(grants := t.grants[(secret, user) := Grant(actor, expiresAt)]);
      Outcome(t', Ok(Done), Event(env, Some(actor), Some(project), Some(secret), AccessGranted))
  }

  function RevokeAccess(t: Tables, actor: Id, project: Id, secret: Id, user: Id, env: Env): Outcome {
    var refusal := GrantRefusal(t, actor, project, secret);
    if refusal.Some? then Refused(t, refusal.value)
    else if FailsAt(env.fault, 0) then Refused(t, Storage)
    else if (secret, user) !in t.grants then Refused(t, NotFound)
    else
      var t' := t.(grants := t.grants - {(secret, user)});
      Outcome(t', Ok(Done), Event(env, Some(actor), Some(project), Some(secret), AccessRevoked))
  }

  // ---- serviceaccount ----

  predicate AccountNameTaken(t: Tables, project: Id, name: string) {
    exists a | a in t.accounts :: t.accounts[a].projectID == project && t.accounts[a].name == name
  }

  /** `env.nonce` is the generated token. */
  function CreateAccount(t: Tables, actor: Id, project: Id, name: string, env: Env): Outcome {
    if !MayManage(t, project, actor) then Refused(t, Forbidden)
    else if FailsAt(env.fault, 0) then Refused(t, Storage)
    else if env.id in t.accounts || AccountNameTaken(t, project, name) then Refused(t, Conflict)
    else
      var t' := t.(accounts := t.accounts[env.id := Account(project, name, Hash("sa_" + env.nonce), Active)]);
      Outcome(t', Ok(Created(env.id)), Event(env, Some(actor), Some(project), None, AccountCreated))
  }

  /** Answers with the project that the account's session is bound to. */
  function Authenticate(t: Tables, account: Id, token: string, env: Env): Outcome {
    if account !in t.accounts then Refused(t, InvalidCreds)
    else if t.accounts[account].status != Active then Refused(t, Unauthorized)
    else if t.accounts[account].tokenHash != Hash(token) then Refused(t, InvalidCreds)
    else
      var project := t.accounts[account].projectID;
      Outcome(t, Ok(Created(project)), Event(env, None, Some(project), None, AccountLoggedIn))
  }

  function RevokeAccount(t: Tables, actor: Id, account: Id, env: Env): Outcome {
    if account !in t.accounts then Refused(t, NotFound)
    else
      var a := t.accounts[account];
      if !MayManage(t, a.projectID, actor) then Refused(t, Forbidden)
      else if FailsAt(env.fault, 0) then Refused(t, Storage)
      else
        var t' := t.(accounts := t.accounts[account := a.(status := Revoked)]);
        Outcome(t', Ok(Done), Event(env, Some(actor), Some(a.projectID), None, AccountRevoked))
  }
}
