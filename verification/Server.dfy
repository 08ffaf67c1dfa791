/** The services behind the HTTP endpoints: what holds of runs of requests holds of this server. */
module Server {
  import opened Wrappers
  import opened Domain
  import opened ServiceRuns
  import opened Sessions
  import opened Storage
  import opened Services
  import SecretService

  /** A login leaves the users alone, so its token may be made after it. */
  lemma LoginsKeepUsers(c: Crypto, t: Tables, request: Request, call: Call, env: Env)
    requires request.LogIn? ==> call == Auth(UserLogin(request.email, request.password))
    ensures forall reply ::
              NewTokens(After(c, t, call, env), request, reply, env.now) == NewTokens(t, request, reply, env.now)
  {
  }

  class Server {
    const store: Store
    const crypto: Crypto
    const validator: Validator
    const auth: AuthService
    const projects: ProjectService
    const teams: TeamService
    const secrets: SecretService.SecretService
    const access: AccessService
    const accounts: AccountService
    var issued: set<Claims>

    ghost predicate Valid() {
      && auth.store == projects.store == teams.store == access.store == accounts.store == secrets.store == store
      && validator.store == store
      && secrets.access == access && secrets.crypto == crypto
    }

    /** The tables and the tokens that are out. */
    ghost function Now(): World
      reads this, store
    {
      World(store.View(), issued)
    }

    constructor (crypto: Crypto)
      ensures Valid() && fresh(store) && Now() == EmptyWorld() && this.crypto == crypto
    {
      var db := new Store();
      var access := new AccessService(db);
      this.store, this.crypto, this.access := db, crypto, access;
      validator := new Validator(db);
      auth := new AuthService(db);
      projects := new ProjectService(db);
      teams := new TeamService(db);
      accounts := new AccountService(db);
      secrets := new SecretService.SecretService(db, access, crypto);
      issued := {};
    }

    method PerformAuth(call: AuthCall, env: Env) returns (r: Reply)
      requires Valid()
      modifies store
      ensures Does(AuthStep(old(store.View()), call, env), env, store.View(), r)
    {
      match call
      case Register(email, password) => r := auth.CreateUser(email, password, env);
      case UserLogin(email, password) => r := auth.Login(email, password, env);
      case Block(actor, target, blocked) => r := auth.SetBlocked(actor, target, blocked, env);
    }

    method PerformProject(call: ProjectCall, env: Env) returns (r: Reply)
      requires Valid()
      modifies store
      ensures Does(ProjectStep(old(store.View()), call, env), env, store.View(), r)
    {
      match call
      case Create(actor) => r := projects.CreateProject(actor, env);
      case Add(actor, project, user, role) => r := projects.AddMember(actor, project, user, role, env);
      case Remove(actor, project, user) => r := projects.RemoveMember(actor, project, user, env);
      case ChangeRole(actor, project, user, role) => r := projects.UpdateMemberRole(actor, project, user, role, env);
      case Assign(actor, project, team, role) => r := projects.AssignTeam(actor, project, team, role, env);
      case Unassign(actor, project, team) => r := projects.UnassignTeam(actor, project, team, env);
    }

    method PerformTeam(call: TeamCall, env: Env) returns (r: Reply)
      requires Valid()
      modifies store
      ensures Does(TeamStep(old(store.View()), call, env), env, store.View(), r)
    {
      match call
      case Found(actor, name) => r := teams.CreateTeam(actor, name, env);
      case AddTo(actor, team, user, role) => r := teams.AddMember(actor, team, user, role, env);
      case RemoveFrom(actor, team, user) => r := teams.RemoveMember(actor, team, user, env);
    }

    method PerformSecret(call: SecretCall, env: Env) returns (r: Reply)
      requires Valid()
      modifies store
      ensures Does(SecretStep(crypto, old(store.View()), call, env), env, store.View(), r)
    {
      match call
      case CreateIn(actor, project, input) => r := secrets.CreateSecret(actor, project, input, env);
      case Read(p, secret) => r := secrets.GetSecretValue(p, secret, env);
      case Rotate(actor, secret, value) => r := secrets.RotateSecret(actor, secret, value, env);
      case Rollback(actor, secret, version) => r := secrets.RollbackSecret(actor, secret, version, env);
      case Revoke(actor, secret) => r := secrets.RevokeSecret(actor, secret, env);
    }

    method PerformAccount(call: AccountCall, env: Env) returns (r: Reply)
      requires Valid()
      modifies store
      ensures Does(AccountStep(old(store.View()), call, env), env, store.View(), r)
    {
      match call
      case CreateFor(actor, project, name) => r := accounts.Create(actor, project, name, env);
      case AccountLogin(account, token) => r := accounts.Authenticate(account, token, env);
      case RevokeFor(actor, account) => r := accounts.Revoke(actor, account, env);
    }

    /** Every call does what its step of the run says. */
    method Perform(call: Call, env: Env) returns (r: Reply)
      requires Valid()
      modifies store
      ensures Does(Step(crypto, old(store.View()), call, env), env, store.View(), r)
    {
      match call
      case Auth(a) => r := PerformAuth(a, env);
      case Project(p) => r := PerformProject(p, env);
      case Secrets(s) => r := PerformSecret(s, env);
      case Access(Grant(actor, project, secret, user, expiresAt)) =>
        r := access.GrantAccess(actor, project, secret, user, expiresAt, env);
      case Access(Ungrant(actor, project, secret, user)) => r := access.RevokeAccess(actor, project, secret, user, env);
      case Accounts(a) => r := PerformAccount(a, env);
      case Teams(tc) => r := PerformTeam(tc, env);
    }

    /** Auth: the token's signature and expiry, then the principal behind it. */
    method Authenticate(bearer: Claims, now: Time) returns (r: Result<Principal, Error>)
      requires Valid()
      ensures r == Authenticated(Now(), bearer, now)
    {
      if bearer !in issued || now >= bearer.expiresAt {
        return Err(Unauthorized);
      }
      var kind := if bearer.subject == AccountSubject then ServiceAccountPrincipal else UserPrincipal;
      var project := if bearer.projectID.Some? then bearer.projectID.value else 0;
      var principal := Principal(bearer.userID, kind, project, bearer.isAdmin);
      var err := validator.ValidatePrincipal(principal);
      if err.Some? {
        return Err(err.value);
      }
      return Ok(principal);
    }

    /** The handler's part before the service call; endpoints for users ask for a user's id. */
    method Admit(request: Request, now: Time) returns (call: Result<Call, Error>)
      requires Valid()
      ensures call == Admitted(Now(), request, now)
    {
      match request
      case SignUp(email, password) => call := Ok(Auth(Register(email, password)));
      case LogIn(email, password) => call := Ok(Auth(UserLogin(email, password)));
      case AccountLogIn(account, token) => call := Ok(Accounts(AccountLogin(account, token)));
      case ReadValue(bearer, secret) =>
        var p := Authenticate(bearer, now);
        call := if p.Err? then Err(p.error) else Ok(Secrets(Read(p.value, secret)));
      case UserOnly(bearer, asked) =>
        var p := Authenticate(bearer, now);
        if p.Err? {
          return Err(p.error);
        }
        if p.value.kind != UserPrincipal {
          return Err(Unauthorized);
        }
        call := Ok(By(p.value.id, asked));
    }

    /** The token that a successful login answers with. */
    method Issue(request: Request, reply: Reply, now: Time)
      requires Valid()
      modifies this`issued
      ensures issued == old(issued) + NewTokens(store.View(), request, reply, now)
    {
      if reply.Err? || !reply.value.Created? {
        return;
      }
      match request
      case LogIn(_, _) =>
        var user := store.GetUser(reply.value.id);
        var isAdmin := user.Ok? && user.value.isAdmin;
        issued := issued + {Claims(reply.value.id, UserSubject, isAdmin, None, now + TOKEN_TTL)};
      case AccountLogIn(account, _) =>
        issued := issued + {Claims(account, AccountSubject, false, Some(reply.value.id), now + ACCOUNT_TOKEN_TTL)};
      case _ =>
    }

    /** One request, from its token to its reply. */
    method Handle(request: Request, env: Env) returns (r: Reply)
      requires Valid()
      modifies this, store
      ensures Valid()
      ensures Served(Now(), r) == Serve(crypto, old(Now()), request, env)
    {
      var call := Admit(request, env.now);
      if call.Err? {
        return Err(call.error);
      }
      r := Perform(call.value, env);
      LoginsKeepUsers(crypto, old(store.View()), request, call.value, env);
      Issue(request, r, env.now);
    }

    /** A run of requests ends in the world, and gives the replies, of the same run of the specification. */
    method HandleAll(requests: Requests) returns (replies: seq<Reply>)
      requires Valid()
      modifies this, store
      ensures Valid()
      ensures Now() == RunRequests(crypto, old(Now()), requests)
      ensures replies == RequestReplies(crypto, old(Now()), requests)
    {
      replies := [];
      var i := 0;
      while i < |requests|
        invariant 0 <= i <= |requests| && Valid()
        invariant RunRequests(crypto, Now(), requests[i..]) == RunRequests(crypto, old(Now()), requests)
        invariant replies + RequestReplies(crypto, Now(), requests[i..]) == RequestReplies(crypto, old(Now()), requests)
      {
        assert requests[i..][0] == requests[i] && requests[i..][1..] == requests[i + 1..];
        var r := Handle(requests[i].0, requests[i].1);
        replies := replies + [r];
        i := i + 1;
      }
    }
  }
}
