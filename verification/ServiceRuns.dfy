/** Serial runs of the whole service: any calls, by any callers, in any order. */
module ServiceRuns {
  import opened Wrappers
  import opened VersionRows
  import opened Domain
  import opened ServiceSpec

  datatype AuthCall =
    | Register(email: string, password: string)
    | UserLogin(email: string, password: string)
    | Block(actor: Id, target: Id, blocked: bool)

  datatype ProjectCall =
    | Create(actor: Id)
    | Add(actor: Id, project: Id, user: Id, role: ProjectRole)
    | Remove(actor: Id, project: Id, user: Id)
    | ChangeRole(actor: Id, project: Id, user: Id, role: ProjectRole)
    | Assign(actor: Id, project: Id, team: Id, role: ProjectRole)
    | Unassign(actor: Id, project: Id, team: Id)

  datatype TeamCall =
    | Found(actor: Id, name: string)
    | AddTo(actor: Id, team: Id, user: Id, role: TeamRole)
    | RemoveFrom(actor: Id, team: Id, user: Id)

  datatype SecretCall =
    | CreateIn(actor: Id, project: Id, input: SecretInput)
    | Read(p: Principal, secret: Id)
    | Rotate(actor: Id, secret: Id, value: string)
    | Rollback(actor: Id, secret: Id, version: int)
    | Revoke(actor: Id, secret: Id)

  datatype AccessCall =
    | Grant(actor: Id, project: Id, secret: Id, user: Id, expiresAt: Option<Time>)
    | Ungrant(actor: Id, project: Id, secret: Id, user: Id)

  datatype AccountCall =
    | CreateFor(actor: Id, project: Id, name: string)
    | AccountLogin(account: Id, token: string)
    | RevokeFor(actor: Id, account: Id)

  datatype Call =
    | Auth(auth: AuthCall)
    | Project(project: ProjectCall)
    | Secrets(secrets: SecretCall)
    | Access(access: AccessCall)
    | Accounts(accounts: AccountCall)
    | Teams(teams: TeamCall)

  function AuthStep(t: Tables, call: AuthCall, env: Env): Outcome {
    match call
    case Register(email, password) => CreateUser(t, email, password, env)
    case UserLogin(email, password) => Login(t, email, password, env)
    case Block(actor, target, blocked) => SetBlocked(t, actor, target, blocked, env)
  }

  function ProjectStep(t: Tables, call: ProjectCall, env: Env): Outcome {
    match call
    case Create(actor) => CreateProject(t, actor, env)
    case Add(actor, project, user, role) => AddMember(t, actor, project, user, role, env)
    case Remove(actor, project, user) => RemoveMember(t, actor, project, user, env)
    case ChangeRole(actor, project, user, role) => UpdateMemberRole(t, actor, project, user, role, env)
    case Assign(actor, project, team, role) => AssignTeam(t, actor, project, team, role, env)
    case Unassign(actor, project, team) => UnassignTeam(t, actor, project, team, env)
  }

  function TeamStep(t: Tables, call: TeamCall, env: Env): Outcome {
    match call
    case Found(actor, name) => CreateTeam(t, actor, name, env)
    case AddTo(actor, team, user, role) => AddTeamMember(t, actor, team, user, role, env)
    case RemoveFrom(actor, team, user) => RemoveTeamMember(t, actor, team, user, env)
  }

  function SecretStep(c: Crypto, t: Tables, call: SecretCall, env: Env): Outcome {
    match call
    case CreateIn(actor, project, input) => CreateSecret(c, t, actor, project, input, env)
    case Read(p, secret) => GetSecretValue(c, t, p, secret, env)
    case Rotate(actor, secret, value) => RotateSecret(c, t, actor, secret, value, env)
    case Rollback(actor, secret, version) => RollbackSecret(t, actor, secret, version, env)
    case Revoke(actor, secret) => RevokeSecret(t, actor, secret, env)
  }

  function AccessStep(t: Tables, call: AccessCall, env: Env): Outcome {
    match call
    case Grant(actor, project, secret, user, expiresAt) => GrantAccess(t, actor, project, secret, user, expiresAt, env)
    case Ungrant(actor, project, secret, user) => RevokeAccess(t, actor, project, secret, user, env)
  }

  function AccountStep(t: Tables, call: AccountCall, env: Env): Outcome {
    match call
    case CreateFor(actor, project, name) => CreateAccount(t, actor, project, name, env)
    case AccountLogin(account, token) => Authenticate(t, account, token, env)
    case RevokeFor(actor, account) => RevokeAccount(t, actor, account, env)
  }

  function Step(c: Crypto, t: Tables, call: Call, env: Env): Outcome {
    match call
    case Auth(a) => AuthStep(t, a, env)
    case Project(p) => ProjectStep(t, p, env)
    case Secrets(s) => SecretStep(c, t, s, env)
    case Access(a) => AccessStep(t, a, env)
    case Accounts(a) => AccountStep(t, a, env)
    case Teams(tc) => TeamStep(t, tc, env)
  }

  /** The tables after a call and its audit insert. */
  function After(c: Crypto, t: Tables, call: Call, env: Env): Tables {
    Logged(Step(c, t, call, env).tables, Step(c, t, call, env).event, env.auditOk)
  }

  type Trace = seq<(Call, Env)>

  function Run(c: Crypto, t: Tables, trace: Trace): Tables
    decreases |trace|
  {
    if trace == [] then t
    else Run(c, After(c, t, trace[0].0, trace[0].1), trace[1..])
  }

  function Replies(c: Crypto, t: Tables, trace: Trace): (replies: seq<Reply>)
    ensures |replies| == |trace|
    decreases |trace|
  {
    if trace == [] then []
    else
      [Step(c, t, trace[0].0, trace[0].1).reply] + Replies(c, After(c, t, trace[0].0, trace[0].1), trace[1..])
  }

  // ---- What each service leaves alone ----

  lemma AuthFrame(t: Tables, call: AuthCall, env: Env)
    ensures var after := AuthStep(t, call, env).tables;
            after == t.(users := after.users)
  {
  }

  lemma ProjectFrame(t: Tables, call: ProjectCall, env: Env)
    ensures var after := ProjectStep(t, call, env).tables;
            after == t.(org := after.org) && after.org.teams == t.org.teams
  {
  }

  lemma TeamFrame(t: Tables, call: TeamCall, env: Env)
    ensures var after := TeamStep(t, call, env).tables;
            after == t.(org := t.org.(teams := after.org.teams))
  {
  }

  lemma SecretFrame(c: Crypto, t: Tables, call: SecretCall, env: Env)
    ensures var after := SecretStep(c, t, call, env).tables;
            after == t.(vault := after.vault)
  {
  }

  lemma AccessFrame(t: Tables, call: AccessCall, env: Env)
    ensures var after := AccessStep(t, call, env).tables;
            after == t.(grants := after.grants)
  {
  }

  lemma AccountFrame(t: Tables, call: AccountCall, env: Env)
    ensures var after := AccountStep(t, call, env).tables;
            after == t.(accounts := after.accounts)
  {
  }

  /** The call was answered with success, or its transaction committed and the answer was lost. */
  predicate TookEffect(call: SecretCall, env: Env, reply: Reply) {
    || reply.Ok?
    || (&& reply == Err(Storage)
        && ((call.CreateIn? && FailsAt(env.fault, CREATE_STATEMENTS))
            || (call.Rotate? && FailsAt(env.fault, ROTATE_STATEMENTS))))
  }

  /** What a secret call does to the two secret tables, by whether it took effect. */
  lemma SecretEffect(c: Crypto, t: Tables, call: SecretCall, env: Env)
    ensures var out := SecretStep(c, t, call, env);
            match call
            case CreateIn(actor, project, input) =>
              if TookEffect(call, env, out.reply) then
                && env.id !in t.vault.secrets
                && out.tables.vault.secrets == t.vault.secrets[env.id := NewSecret(actor, project, input, env)]
                && out.tables.vault.versions
                   == t.vault.versions[env.id := map[1 := Row(Seal(c, input.value, env), true)]]
              else out.tables == t
            case Read(_, _) =>
              out.tables.vault.secrets == t.vault.secrets && out.tables.vault.versions == t.vault.versions
            case Rotate(_, secret, value) =>
              if TookEffect(call, env, out.reply) then
                && secret in t.vault.secrets && out.tables.vault.secrets == t.vault.secrets
                && out.tables.vault.versions
                   == t.vault.versions[secret := Rotated(VersionsOf(t, secret), Seal(c, value, env))]
              else out.tables == t
            case Rollback(_, secret, version) =>
              if TookEffect(call, env, out.reply) then
                && secret in t.vault.secrets && out.tables.vault.secrets == t.vault.secrets
                && version >= 0 && version in VersionsOf(t, secret)
                && out.tables.vault.versions == t.vault.versions[secret := RolledBack(VersionsOf(t, secret), version)]
              else out.tables == t
            case Revoke(_, secret) =>
              if TookEffect(call, env, out.reply) then
                && secret in t.vault.secrets && out.tables.vault.versions == t.vault.versions
                && out.tables.vault.secrets == t.vault.secrets[secret := t.vault.secrets[secret].(status := Revoked)]
              else out.tables == t
  {
  }
}
