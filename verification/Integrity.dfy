/** The keys of the schema, in every run: every reference, and every unique key. */
module Integrity {
  import opened Domain
  import opened ServiceSpec
  import opened ServiceRuns
  import ProjectMembership

  /** users.email is unique, and `byEmail` is its index. */
  ghost predicate EmailsSound(users: Users) {
    && (forall e | e in users.byEmail :: users.byEmail[e] in users.rows && users.rows[users.byEmail[e]].email == e)
    && (forall u | u in users.rows :: users.rows[u].email in users.byEmail && users.byEmail[users.rows[u].email] == u)
  }

  /** Members and links refer to projects, users and teams that exist. */
  ghost predicate OrgSound(users: map<Id, User>, org: Projects) {
    && (forall p, u | (p, u) in org.members :: p in org.ids && u in users)
    && (forall p, team | (p, team) in org.links :: p in org.ids && team in org.teams)
  }

  ghost predicate Distinct(users: seq<Id>) {
    forall i, j | 0 <= i < j < |users| :: users[i] != users[j]
  }

  /** A team's members are users, none of them twice, and its owners are among them. */
  ghost predicate TeamSound(users: map<Id, User>, team: Team) {
    && Distinct(team.members)
    && (forall u | u in team.members :: u in users)
    && (forall u | u in team.owners :: u in team.members)
  }

  ghost predicate TeamsSound(users: map<Id, User>, teams: map<Id, Team>) {
    && (forall team | team in teams :: TeamSound(users, teams[team]))
    && (forall a, b | a in teams && b in teams && a != b :: teams[a].name != teams[b].name)
  }

  /** Secrets are keyed by their id, live in a project, were created by a user, and their names are unique in it. */
  ghost predicate SecretsSound(users: map<Id, User>, ids: set<Id>, secrets: map<Id, Secret>) {
    && (forall s | s in secrets :: secrets[s].id == s && secrets[s].projectID in ids && secrets[s].createdBy in users)
    && (forall s, r | s in secrets && r in secrets && s != r ::
          secrets[s].projectID != secrets[r].projectID || secrets[s].name != secrets[r].name)
  }

  /** Grants are on a secret, to a user and by a user. */
  ghost predicate GrantsSound(users: map<Id, User>, secrets: map<Id, Secret>, grants: map<(Id, Id), Domain.Grant>) {
    forall s, u | (s, u) in grants :: s in secrets && u in users && grants[(s, u)].grantedBy in users
  }

  /** Accounts live in a project, and their names are unique in it. */
  ghost predicate AccountsSound(ids: set<Id>, accounts: map<Id, Account>) {
    && (forall a | a in accounts :: accounts[a].projectID in ids)
    && (forall a, b | a in accounts && b in accounts && a != b ::
          accounts[a].projectID != accounts[b].projectID || accounts[a].name != accounts[b].name)
  }

  ghost predicate Sound(t: Tables) {
    && EmailsSound(t.users)
    && OrgSound(t.users.rows, t.org)
    && TeamsSound(t.users.rows, t.org.teams)
    && SecretsSound(t.users.rows, t.org.ids, t.vault.secrets)
    && t.vault.versions.Keys <= t.vault.secrets.Keys
    && GrantsSound(t.users.rows, t.vault.secrets, t.grants)
    && AccountsSound(t.org.ids, t.accounts)
  }

  lemma AuthKeepsSound(t: Tables, call: AuthCall, env: Env, users: Users)
    requires EmailsSound(t.users) && users == AuthStep(t, call, env).tables.users
    ensures EmailsSound(users) && t.users.rows.Keys <= users.rows.Keys
  {
  }

  lemma ProjectKeepsSound(t: Tables, call: ProjectCall, env: Env, org: Projects)
    requires OrgSound(t.users.rows, t.org) && org == ProjectStep(t, call, env).tables.org
    ensures OrgSound(t.users.rows, org) && t.org.ids <= org.ids
  {
    if call.Assign? && call.team in t.org.teams {
      ProjectMembership.UpsertedIs(t.org.members, call.project,
                                   Recipients(t, t.org.teams[call.team].members, env.lostUpserts), call.role);
    }
  }

  lemma {:induction false} WithoutDistinct(users: seq<Id>, user: Id)
    requires Distinct(users)
    ensures Distinct(Without(users, user))
  {
    if users != [] {
      WithoutDistinct(users[1..], user);
      var rest := Without(users[1..], user);
      forall j | 0 <= j < |rest| ensures rest[j] != users[0] {
        assert rest[j] in rest;
        var k :| 0 <= k < |users[1..]| && users[1..][k] == rest[j];
        assert users[k + 1] == rest[j];
      }
    }
  }

  lemma TeamUpdated(users: map<Id, User>, teams: map<Id, Team>, id: Id, team: Team)
    requires TeamsSound(users, teams) && TeamSound(users, team)
    requires forall other | other in teams && other != id :: teams[other].name != team.name
    ensures TeamsSound(users, teams[id := team])
  {
  }

  lemma TeamWithSound(users: map<Id, User>, team: Team, user: Id, role: TeamRole)
    requires TeamSound(users, team) && user in users
    ensures TeamSound(users, TeamWith(team, user, role))
  {
  }

  lemma TeamWithoutSound(users: map<Id, User>, team: Team, user: Id)
    requires TeamSound(users, team)
    ensures TeamSound(users, Team(team.name, Without(team.members, user), team.owners - {user}))
  {
    WithoutDistinct(team.members, user);
  }

  lemma TeamKeepsSound(t: Tables, call: TeamCall, env: Env, out: Outcome)
    requires TeamsSound(t.users.rows, t.org.teams) && out == TeamStep(t, call, env)
    ensures TeamsSound(t.users.rows, out.tables.org.teams) && t.org.teams.Keys <= out.tables.org.teams.Keys
  {
    match call
    case Found(actor, name) =>
      if env.id !in t.org.teams && !TeamNameTaken(t, name) {
        TeamUpdated(t.users.rows, t.org.teams, env.id, Team(name, [], {}));
        if actor in t.users.rows {
          TeamUpdated(t.users.rows, t.org.teams, env.id, Team(name, [actor], {actor}));
        }
      }
    case AddTo(_, team, user, role) =>
      if out.reply.Ok? {
        TeamWithSound(t.users.rows, t.org.teams[team], user, role);
        TeamUpdated(t.users.rows, t.org.teams, team, TeamWith(t.org.teams[team], user, role));
      }
    case RemoveFrom(_, team, user) =>
      if out.reply.Ok? {
        TeamWithoutSound(t.users.rows, t.org.teams[team], user);
        TeamUpdated(t.users.rows, t.org.teams, team,
                    Team(t.org.teams[team].name, Without(t.org.teams[team].members, user),
                         t.org.teams[team].owners - {user}));
      }
  }

  /** A new secret's project exists because its creator is a member, and its name is new because it was checked. */
  lemma SecretKeepsSound(c: Crypto, t: Tables, call: SecretCall, env: Env, vault: Vault)
    requires OrgSound(t.users.rows, t.org) && SecretsSound(t.users.rows, t.org.ids, t.vault.secrets)
    requires t.vault.versions.Keys <= t.vault.secrets.Keys
    requires vault == SecretStep(c, t, call, env).tables.vault
    ensures SecretsSound(t.users.rows, t.org.ids, vault.secrets) && t.vault.secrets.Keys <= vault.secrets.Keys
    ensures vault.versions.Keys <= vault.secrets.Keys
  {
    SecretEffect(c, t, call, env);
    if call.CreateIn? && TookEffect(call, env, SecretStep(c, t, call, env).reply) {
      assert (call.project, call.actor) in t.org.members;
      assert !NameTaken(t, call.project, call.input.name);
    }
  }

  /** A grant's giver is a user because they are a member. */
  lemma AccessKeepsSound(t: Tables, call: AccessCall, env: Env, grants: map<(Id, Id), Domain.Grant>)
    requires OrgSound(t.users.rows, t.org) && GrantsSound(t.users.rows, t.vault.secrets, t.grants)
    requires grants == AccessStep(t, call, env).tables.grants
    ensures GrantsSound(t.users.rows, t.vault.secrets, grants)
  {
  }

  lemma AccountKeepsSound(t: Tables, call: AccountCall, env: Env, accounts: map<Id, Account>)
    requires OrgSound(t.users.rows, t.org) && AccountsSound(t.org.ids, t.accounts)
    requires accounts == AccountStep(t, call, env).tables.accounts
    ensures AccountsSound(t.org.ids, accounts)
  {
    if call.CreateFor? && AccountStep(t, call, env).reply.Ok? {
      assert (call.project, call.actor) in t.org.members;
      assert !AccountNameTaken(t, call.project, call.name);
    }
  }

  /** No user, project or secret is gone. */
  ghost predicate Grows(t: Tables, after: Tables) {
    && t.users.rows.Keys <= after.users.rows.Keys && t.org.ids <= after.org.ids
    && t.vault.secrets.Keys <= after.vault.secrets.Keys
  }

  /** Every call keeps every key. */
  lemma StepKeepsSound(c: Crypto, t: Tables, call: Call, env: Env, after: Tables)
    requires Sound(t) && after == Step(c, t, call, env).tables
    ensures Sound(after) && Grows(t, after) && after.audit == t.audit
  {
    match call
    case Auth(a) => AuthFrame(t, a, env); AuthKeepsSound(t, a, env, after.users);
    case Project(p) => ProjectFrame(t, p, env); ProjectKeepsSound(t, p, env, after.org);
    case Secrets(s) => SecretFrame(c, t, s, env); SecretKeepsSound(c, t, s, env, after.vault);
    case Access(a) => AccessFrame(t, a, env); AccessKeepsSound(t, a, env, after.grants);
    case Accounts(a) => AccountFrame(t, a, env); AccountKeepsSound(t, a, env, after.accounts);
    case Teams(tc) => TeamFrame(t, tc, env); TeamKeepsSound(t, tc, env, TeamStep(t, tc, env));
  }

  lemma {:induction false} RunKeepsSound(c: Crypto, t: Tables, trace: Trace)
    requires Sound(t)
    ensures Sound(Run(c, t, trace))
    decreases |trace|
  {
    if trace != [] {
      StepKeepsSound(c, t, trace[0].0, trace[0].1, Step(c, t, trace[0].0, trace[0].1).tables);
      RunKeepsSound(c, After(c, t, trace[0].0, trace[0].1), trace[1..]);
    }
  }

  /** In every run from empty tables every reference is to a row that exists and every unique key is unique. */
  lemma ReachableSound(c: Crypto, trace: Trace)
    ensures Sound(Run(c, EmptyTables(), trace))
  {
    RunKeepsSound(c, EmptyTables(), trace);
  }
}
