/**
 The database and the repositories' statements on it. A writing method's last parameter tells
 whether, or where, the database fails it; a failed statement changes nothing.
 */
module Storage {
  import opened Wrappers
  import opened VersionRows
  import opened Domain
  import opened ServiceSpec

  class Store {
    var users: map<Id, User>
    var byEmail: map<string, Id>
    var projects: set<Id>
    var members: Members
    var teams: map<Id, Team>
    var links: set<(Id, Id)>
    var secrets: map<Id, Secret>
    var versions: map<Id, Rows<Sealed>>
    var grants: map<(Id, Id), Domain.Grant>
    var accounts: map<Id, Account>
    var audit: seq<AuditEvent>

    /** The tables as a value. */
    function View(): Tables
      reads this
    {
      Tables(Users(users, byEmail), Projects(projects, members, teams, links), Vault(secrets, versions),
             grants, accounts, audit)
    }

    constructor ()
      ensures View() == EmptyTables()
    {
      users, byEmail := map[], map[];
      projects, members, teams, links := {}, map[], map[], {};
      secrets, versions := map[], map[];
      grants, accounts, audit := map[], map[], [];
    }

    // ---- users ----

    method CreateUser(id: Id, user: User, ok: bool) returns (err: Option<Error>)
      modifies this`users, this`byEmail
      ensures err == if !ok then Some(Error.Storage)
                     else if id in old(users) || user.email in old(byEmail) then Some(Conflict) else None
      ensures err.Some? ==> users == old(users) && byEmail == old(byEmail)
      ensures err.None? ==> users == old(users)[id := user] && byEmail == old(byEmail)[user.email := id]
    {
      if !ok {
        return Some(Error.Storage);
      }
      if id in users || user.email in byEmail {
        return Some(Conflict);
      }
      users := users[id := user];
      byEmail := byEmail[user.email := id];
      return None;
    }

    method GetUser(id: Id) returns (r: Result<User, Error>)
      ensures r == if id in users then Ok(users[id]) else Err(NotFound)
    {
      if id in users {
        return Ok(users[id]);
      }
      return Err(NotFound);
    }

    /** Block and Unblock */
    method SetBlocked(id: Id, blocked: bool, ok: bool) returns (err: Option<Error>)
      modifies this`users
      ensures err == if !ok then Some(Error.Storage) else if id in old(users) then None else Some(NotFound)
      ensures users == if err.None? then old(users)[id := old(users)[id].(isBlocked := blocked)] else old(users)
    {
      if !ok {
        return Some(Error.Storage);
      }
      if id !in users {
        return Some(NotFound);
      }
      users := users[id := users[id].(isBlocked := blocked)];
      return None;
    }

    // ---- projects ----

    method CreateProject(id: Id, createdBy: Id, ok: bool) returns (err: Option<Error>)
      modifies this`projects
      ensures err == if !ok then Some(Error.Storage)
                     else if id in old(projects) then Some(Conflict)
                     else if createdBy !in users then Some(Error.Storage) else None
      ensures projects == if err.None? then old(projects) + {id} else old(projects)
    {
      if !ok {
        return Some(Error.Storage);
      }
      if id in projects {
        return Some(Conflict);
      }
      if createdBy !in users {
        return Some(Error.Storage);
      }
      projects := projects + {id};
      return None;
    }

    /** INSERT … ON CONFLICT (project_id, user_id) DO UPDATE SET role; the user must exist. */
    method AddMember(project: Id, user: Id, role: ProjectRole, ok: bool) returns (err: Option<Error>)
      modifies this`members
      ensures err == if ok && user in users then None else Some(Error.Storage)
      ensures members == if err.None? then old(members)[(project, user) := role] else old(members)
    {
      if !ok || user !in users {
        return Some(Error.Storage);
      }
      members := members[(project, user) := role];
      return None;
    }

    method GetMember(project: Id, user: Id) returns (r: Result<ProjectRole, Error>)
      ensures r == if (project, user) in members then Ok(members[(project, user)]) else Err(NotFound)
    {
      if (project, user) in members {
        return Ok(members[(project, user)]);
      }
      return Err(NotFound);
    }

    method RemoveMember(project: Id, user: Id, ok: bool) returns (err: Option<Error>)
      modifies this`members
      ensures err == if !ok then Some(Error.Storage)
                     else if (project, user) in old(members) then None else Some(NotFound)
      ensures members == if ok then old(members) - {(project, user)} else old(members)
    {
      if !ok {
        return Some(Error.Storage);
      }
      err := if (project, user) in members then None else Some(NotFound);
      members := members - {(project, user)};
    }

    method UpdateMemberRole(project: Id, user: Id, role: ProjectRole, ok: bool) returns (err: Option<Error>)
      modifies this`members
      ensures err == if !ok then Some(Error.Storage)
                     else if (project, user) in old(members) then None else Some(NotFound)
      ensures members == if err.None? then old(members)[(project, user) := role] else old(members)
    {
      if !ok {
        return Some(Error.Storage);
      }
      if (project, user) !in members {
        return Some(NotFound);
      }
      members := members[(project, user) := role];
      return None;
    }

    /** INSERT … ON CONFLICT DO NOTHING; the team must exist. */
    method AssignTeam(project: Id, team: Id, ok: bool) returns (err: Option<Error>)
      modifies this`links
      ensures err == if ok && team in teams then None else Some(Error.Storage)
      ensures links == if err.None? then old(links) + {(project, team)} else old(links)
    {
      if !ok || team !in teams {
        return Some(Error.Storage);
      }
      if (project, team) !in links {
        links := links + {(project, team)};
      }
      return None;
    }

    method UnassignTeam(project: Id, team: Id, ok: bool) returns (err: Option<Error>)
      modifies this`links
      ensures err == if !ok then Some(Error.Storage) else if (project, team) in old(links) then None else Some(NotFound)
      ensures links == if ok then old(links) - {(project, team)} else old(links)
    {
      if !ok {
        return Some(Error.Storage);
      }
      err := if (project, team) in links then None else Some(NotFound);
      links := links - {(project, team)};
    }

    // ---- teams ----

    method CreateTeam(id: Id, name: string, createdBy: Id, ok: bool) returns (err: Option<Error>)
      modifies this`teams
      ensures err == if !ok then Some(Error.Storage)
                     else if id in old(teams) || TeamNameTaken(old(View()), name) then Some(Conflict)
                     else if createdBy !in users then Some(Error.Storage) else None
      ensures teams == if err.None? then old(teams)[id := Team(name, [], {})] else old(teams)
    {
      if !ok {
        return Some(Error.Storage);
      }
      if id in teams || TeamNameTaken(View(), name) {
        return Some(Conflict);
      }
      if createdBy !in users {
        return Some(Error.Storage);
      }
      teams := teams[id := Team(name, [], {})];
      return None;
    }

    /** INSERT … ON CONFLICT (team_id, user_id) DO UPDATE SET role; the team and the user must exist. */
    method AddTeamMember(team: Id, user: Id, role: TeamRole, ok: bool) returns (err: Option<Error>)
      modifies this`teams
      ensures err == if ok && team in old(teams) && user in users then None else Some(Error.Storage)
      ensures teams == if err.None? then old(teams)[team := TeamWith(old(teams)[team], user, role)] else old(teams)
    {
      if !ok || team !in teams || user !in users {
        return Some(Error.Storage);
      }
      teams := teams[team := TeamWith(teams[team], user, role)];
      return None;
    }

    /** GetMember, as far as the team service looks at it. */
    method IsTeamOwner(team: Id, user: Id) returns (owner: bool)
      ensures owner == OwnerOf(View(), team, user)
    {
      return team in teams && user in teams[team].owners;
    }

    method RemoveTeamMember(team: Id, user: Id, ok: bool) returns (err: Option<Error>)
      modifies this`teams
      ensures err == if !ok then Some(Error.Storage)
                     else if team in old(teams) && user in old(teams)[team].members then None else Some(NotFound)
      ensures teams == if err.Some? then old(teams)
                       else
                         var before := old(teams)[team];
                         old(teams)[team := Team(before.name, Without(before.members, user), before.owners - {user})]
    {
      if !ok {
        return Some(Error.Storage);
      }
      if team !in teams || user !in teams[team].members {
        return Some(NotFound);
      }
      var before := teams[team];
      teams := teams[team := Team(before.name, Without(before.members, user), before.owners - {user})];
      return None;
    }

    /** Members of a team in created_at order. */
    method ListTeamMembers(team: Id, ok: bool) returns (r: Result<seq<Id>, Error>)
      ensures r == if !ok then Err(Error.Storage) else Ok(if team in teams then teams[team].members else [])
    {
      if !ok {
        return Err(Error.Storage);
      }
      return Ok(if team in teams then teams[team].members else []);
    }

    // ---- secrets ----

    method GetSecretByID(id: Id) returns (r: Result<Secret, Error>)
      ensures r == if id in secrets then Ok(secrets[id]) else Err(NotFound)
    {
      if id in secrets {
        return Ok(secrets[id]);
      }
      return Err(NotFound);
    }

    /**
     One transaction: both rows are inserted in its own copy of the tables, and published by the
     commit. `fault` is the position of the statement that fails, if any does;
     after the last one, the commit's answer is lost.
     */
    method CreateSecretWithVersion(secret: Secret, first: Sealed, fault: Option<nat>) returns (err: Option<Error>)
      modifies this`secrets, this`versions
      ensures err == if FailsAt(fault, 0) then Some(Error.Storage)
                     else if secret.id in old(secrets)
                             || NameTaken(old(View()), secret.projectID, secret.name) then Some(Conflict)
                     else if FailsWithin(fault, CREATE_STATEMENTS + 1) then Some(Error.Storage) else None
      ensures if err.None? || (err == Some(Error.Storage) && FailsAt(fault, CREATE_STATEMENTS)) then
                && secrets == old(secrets)[secret.id := secret]
                && versions == old(versions)[secret.id := map[1 := Row(first, true)]]
              else secrets == old(secrets) && versions == old(versions)
    {
      if FailsAt(fault, 0) {
        return Some(Error.Storage);
      }
      var txSecrets, txVersions := secrets, versions;
      if secret.id in txSecrets || NameTaken(View(), secret.projectID, secret.name) {
        return Some(Conflict);
      }
      if FailsAt(fault, 1) {
        return Some(Error.Storage);
      }
      txSecrets := txSecrets[secret.id := secret];
      if FailsAt(fault, 2) {
        return Some(Error.Storage);
      }
      txVersions := txVersions[secret.id := map[1 := Row(first, true)]];
      if FailsAt(fault, 3) {
        return Some(Error.Storage);
      }
      secrets, versions := txSecrets, txVersions;
      if FailsAt(fault, CREATE_STATEMENTS) {
        return Some(Error.Storage);
      }
      return None;
    }

    /** The one-transaction rotation, with `fault` as above; its answer is the new version's number. */
    method RotateInTx(secret: Id, sealed: Sealed, fault: Option<nat>) returns (r: Result<nat, Error>)
      modifies this`versions
      ensures r == if !FailsAt(fault, 0) && secret !in secrets then Err(NotFound)
                   else if FailsWithin(fault, ROTATE_STATEMENTS + 1) then Err(Error.Storage)
                   else Ok(MaxVersion(VersionsOf(old(View()), secret).Keys) + 1)
      ensures versions == if r.Ok? || (r == Err(Error.Storage) && FailsAt(fault, ROTATE_STATEMENTS))
                          then old(versions)[secret := Rotated(VersionsOf(old(View()), secret), sealed)]
                          else old(versions)
    {
      if FailsAt(fault, 0) {
        return Err(Error.Storage);
      }
      if secret !in secrets {
        return Err(NotFound);
      }
      if FailsAt(fault, 1) {
        return Err(Error.Storage);
      }
      ghost var before := VersionsOf(View(), secret);
      var rows := if secret in versions then versions[secret] else map[];
      if FailsAt(fault, 2) {
        return Err(Error.Storage);
      }
      var next := MaxVersion(rows.Keys) + 1;
      if FailsAt(fault, 3) {
        return Err(Error.Storage);
      }
      rows := ClearRows(rows, Currents(rows));
      if FailsAt(fault, 4) {
        return Err(Error.Storage);
      }
      rows := rows[next := Row(sealed, true)];
      assert rows == Rotated(before, sealed);
      if FailsAt(fault, 5) {
        return Err(Error.Storage);
      }
      versions := versions[secret := rows];
      if FailsAt(fault, ROTATE_STATEMENTS) {
        return Err(Error.Storage);
      }
      return Ok(next);
    }

    method GetVersionByNumber(secret: Id, version: int) returns (r: Result<Sealed, Error>)
      ensures r == if version >= 0 && version in VersionsOf(View(), secret)
                   then Ok(VersionsOf(View(), secret)[version].payload) else Err(NotFound)
    {
      if version >= 0 && secret in versions && version in versions[secret] {
        return Ok(versions[secret][version].payload);
      }
      return Err(NotFound);
    }

    /** LIMIT 1 may pick any current row; with at most one there is no choice. */
    method GetCurrentVersion(secret: Id) returns (r: Result<Sealed, Error>)
      ensures var rows := VersionsOf(View(), secret);
              var v := MaxVersion(Currents(rows));
              r == if v in rows then Ok(rows[v].payload) else Err(NotFound)
    {
      var rows := if secret in versions then versions[secret] else map[];
      var v := MaxVersion(Currents(rows));
      if v in rows {
        return Ok(rows[v].payload);
      }
      return Err(NotFound);
    }

    /** One UPDATE over every version of the secret. */
    method SetCurrentVersion(secret: Id, version: nat, ok: bool) returns (err: Option<Error>)
      modifies this`versions
      ensures err == if ok then None else Some(Error.Storage)
      ensures versions == if ok && secret in old(versions)
                          then old(versions)[secret := RolledBack(old(versions)[secret], version)] else old(versions)
    {
      if !ok {
        return Some(Error.Storage);
      }
      if secret in versions {
        var rows := versions[secret];
        var written := map v | v in rows :: rows[v].(current := v == version);
        assert written == RolledBack(rows, version);
        versions := versions[secret := written];
      }
      return None;
    }

    method UpdateSecretStatus(secret: Id, status: Status, ok: bool) returns (err: Option<Error>)
      modifies this`secrets
      ensures err == if !ok then Some(Error.Storage) else if secret in old(secrets) then None else Some(NotFound)
      ensures secrets == if err.None? then old(secrets)[secret := old(secrets)[secret].(status := status)]
                         else old(secrets)
    {
      if !ok {
        return Some(Error.Storage);
      }
      if secret !in secrets {
        return Some(NotFound);
      }
      secrets := secrets[secret := secrets[secret].(status := status)];
      return None;
    }

    // ---- grants ----

    /** INSERT … ON CONFLICT (secret_id, user_id) DO UPDATE; the user must exist. */
    method CreateGrant(secret: Id, user: Id, grant: Domain.Grant, ok: bool) returns (err: Option<Error>)
      modifies this`grants
      ensures err == if !ok then Some(Error.Storage) else if user in users then None else Some(Error.Storage)
      ensures grants == if err.None? then old(grants)[(secret, user) := grant] else old(grants)
    {
      if !ok {
        return Some(Error.Storage);
      }
      if user !in users {
        return Some(Error.Storage);
      }
      grants := grants[(secret, user) := grant];
      return None;
    }

    method DeleteGrant(secret: Id, user: Id, ok: bool) returns (err: Option<Error>)
      modifies this`grants
      ensures err == if !ok then Some(Error.Storage) else if (secret, user) in old(grants) then None else Some(NotFound)
      ensures grants == if ok then old(grants) - {(secret, user)} else old(grants)
    {
      if !ok {
        return Some(Error.Storage);
      }
      err := if (secret, user) in grants then None else Some(NotFound);
      grants := grants - {(secret, user)};
    }

    method GetGrant(secret: Id, user: Id) returns (r: Result<Domain.Grant, Error>)
      ensures r == if (secret, user) in grants then Ok(grants[(secret, user)]) else Err(NotFound)
    {
      if (secret, user) in grants {
        return Ok(grants[(secret, user)]);
      }
      return Err(NotFound);
    }

    // ---- service accounts ----

    method CreateAccount(id: Id, account: Account, ok: bool) returns (err: Option<Error>)
      modifies this`accounts
      ensures err == if !ok then Some(Error.Storage)
                     else if id in old(accounts) || AccountNameTaken(old(View()), account.projectID, account.name)
                     then Some(Conflict) else None
      ensures accounts == if err.None? then old(accounts)[id := account] else old(accounts)
    {
      if !ok {
        return Some(Error.Storage);
      }
      if id in accounts || AccountNameTaken(View(), account.projectID, account.name) {
        return Some(Conflict);
      }
      accounts := accounts[id := account];
      return None;
    }

    method GetAccount(id: Id) returns (r: Result<Account, Error>)
      ensures r == if id in accounts then Ok(accounts[id]) else Err(NotFound)
    {
      if id in accounts {
        return Ok(accounts[id]);
      }
      return Err(NotFound);
    }

    method UpdateAccountStatus(id: Id, status: Status, ok: bool) returns (err: Option<Error>)
      modifies this`accounts
      ensures err == if !ok then Some(Error.Storage) else if id in old(accounts) then None else Some(NotFound)
      ensures accounts == if err.None? then old(accounts)[id := old(accounts)[id].(status := status)] else old(accounts)
    {
      if !ok {
        return Some(Error.Storage);
      }
      if id !in accounts {
        return Some(NotFound);
      }
      accounts := accounts[id := accounts[id].(status := status)];
      return None;
    }

    // ---- audit ----

    /** CreateEvent, through audit.Log; the foreign keys refuse an event that refers to a row that does not exist. */
    method Log(event: AuditEvent, ok: bool) returns (err: Option<Error>)
      modifies this`audit
      ensures err == if ok && References(old(View()), event) then None else Some(Error.Storage)
      ensures audit == if err.None? then old(audit) + [event] else old(audit)
    {
      if !ok || !References(View(), event) {
        return Some(Error.Storage);
      }
      audit := audit + [event];
      return None;
    }
  }
}
