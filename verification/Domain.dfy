/** The entities of the service, and its tables as one value. */
module Domain {
  import opened Wrappers
  import opened VersionRows

  /** Instants and durations, in one unit. */
  type Time = int

  const HOUR := 3600

  /** A UUID: ids are generated and compared, and nothing else. */
  type Id = int

  datatype Error =
    | Unauthorized | Forbidden | NotFound | Conflict | InvalidInput | InvalidCreds
    | SecretRevoked | AccessExpired
    | Storage      // any other error of the database
    | Crypto       // authentication failure on decryption

  datatype ProjectRole = Admin | Manager | Developer

  datatype TeamRole = Owner | Member

  datatype Status = Active | Revoked

  datatype Environment = Development | Staging | Production

  /** What bcrypt stores: comparable with a password or token, and nothing else. */
  datatype Hash = Hash(of: string)

  datatype User = User(email: string, passwordHash: Hash, isBlocked: bool, isAdmin: bool)

  datatype Secret = Secret(id: Id, projectID: Id, name: string, description: string, status: Status,
                           environment: Environment, tags: seq<string>, expiresAt: Option<Time>,
                           createdBy: Id, createdAt: Time)

  /** encrypted_value and nonce */
  datatype Sealed = Sealed(cipherText: string, nonce: string)

  datatype Grant = Grant(grantedBy: Id, expiresAt: Option<Time>)

  datatype Account = Account(projectID: Id, name: string, tokenHash: Hash, status: Status)

  datatype PrincipalType = UserPrincipal | ServiceAccountPrincipal

  datatype Principal = Principal(id: Id, kind: PrincipalType, projectID: Id, isAdmin: bool)

  datatype EventType =
    | UserRegistered | UserLoggedIn | UserBlocked | UserUnblocked
    | ProjectCreated | MemberAdded | TeamAssigned | TeamCreated
    | SecretCreated | SecretRead | SecretReadDenied | SecretRotated | SecretRolledBack | SecretWasRevoked
    | AccessGranted | AccessRevoked
    | AccountCreated | AccountLoggedIn | AccountRevoked

  datatype AuditEvent = AuditEvent(actorUserID: Option<Id>, projectID: Option<Id>,
                                   secretID: Option<Id>, eventType: EventType, createdAt: Time)

  /** `byEmail` is the unique index on the address. */
  datatype Users = Users(rows: map<Id, User>, byEmail: map<string, Id>)

  /** Roles by (project, user). */
  type Members = map<(Id, Id), ProjectRole>

  /** Its members are in created_at order. */
  datatype Team = Team(name: string, members: seq<Id>, owners: set<Id>)

  /** Links are (project, team). */
  datatype Projects = Projects(ids: set<Id>, members: Members,
                               teams: map<Id, Team>, links: set<(Id, Id)>)

  /** Secrets by id, and versions by secret and number. */
  datatype Vault = Vault(secrets: map<Id, Secret>, versions: map<Id, Rows<Sealed>>)

  /** The tables; grants are keyed by (secret, user). */
  datatype Tables = Tables(users: Users, org: Projects, vault: Vault, grants: map<(Id, Id), Grant>,
                           accounts: map<Id, Account>, audit: seq<AuditEvent>)

  function EmptyTables(): Tables {
    Tables(Users(map[], map[]), Projects({}, map[], map[], {}), Vault(map[], map[]), map[], map[], [])
  }

  /** Authenticated encryption under the service's key, with its round trip. */
  datatype CryptoFunctions = CryptoFunctions(
    encrypt: (string, string) -> string,            // plaintext, nonce
    decrypt: (string, string) -> Option<string>     // ciphertext, nonce
  )

  ghost predicate RoundTrip(c: CryptoFunctions) {
    forall plain, nonce :: c.decrypt(c.encrypt(plain, nonce), nonce) == Some(plain)
  }

  type Crypto = c: CryptoFunctions | RoundTrip(c)
    witness CryptoFunctions((plain, nonce) => plain, (cipher, nonce) => Some(cipher))

  /**
   What one call takes from outside: the clock, a generated id and nonce, and which of its
   statements the database fails: the audit insert, one statement of a sequence of them
   (`fault` is its position, and the position after a transaction's last statement stands for a
   commit whose answer is lost), or the upserts of some team members.
   */
  datatype Env = Env(now: Time, id: Id, nonce: string, auditOk: bool, fault: Option<nat>, lostUpserts: set<Id>)

  /** Statement number `position` is the one that fails. */
  predicate FailsAt(fault: Option<nat>, position: nat) {
    fault == Some(position)
  }

  /** One of the first `statements` statements fails. */
  predicate FailsWithin(fault: Option<nat>, statements: nat) {
    fault.Some? && fault.value < statements
  }

  /** Nothing, a created or resolved id, or a secret's plaintext. */
  datatype Answer = Done | Created(id: Id) | Value(plain: string)

  type Reply = Result<Answer, Error>

  /** What a call does: the new tables, its answer, and the event it hands to the audit log. */
  datatype Outcome = Outcome(tables: Tables, reply: Reply, event: Option<AuditEvent>)

  function Refused(t: Tables, e: Error): Outcome {
    Outcome(t, Err(e), None)
  }

  function Event(env: Env, actor: Option<Id>, project: Option<Id>, secret: Option<Id>, kind: EventType)
    : Option<AuditEvent>
  {
    Some(AuditEvent(actor, project, secret, kind, env.now))
  }

  /** The foreign keys of audit_events. */
  predicate References(t: Tables, e: AuditEvent) {
    && (e.actorUserID.Some? ==> e.actorUserID.value in t.users.rows)
    && (e.projectID.Some? ==> e.projectID.value in t.org.ids)
    && (e.secretID.Some? ==> e.secretID.value in t.vault.secrets)
  }

  /**
   audit.Log: every caller drops its error, so an insert that fails, by a fault of the database or
   by a foreign key, only loses the event.
   */
  function Logged(t: Tables, event: Option<AuditEvent>, auditOk: bool): Tables {
    if event.Some? && auditOk && References(t, event.value) then t.(audit := t.audit + [event.value]) else t
  }

  /** GetMember */
  function RoleOf(t: Tables, project: Id, user: Id): Option<ProjectRole> {
    if (project, user) in t.org.members then Some(t.org.members[(project, user)]) else None
  }

  /** The user's row in the project has one of these roles. */
  predicate HasRole(t: Tables, project: Id, user: Id, roles: set<ProjectRole>) {
    (project, user) in t.org.members && t.org.members[(project, user)] in roles
  }

  predicate AdminIn(members: Members, project: Id, user: Id) {
    (project, user) in members && members[(project, user)] == Admin
  }

  predicate MayManage(t: Tables, project: Id, user: Id) {
    RoleOf(t, project, user) == Some(Admin) || RoleOf(t, project, user) == Some(Manager)
  }
}
