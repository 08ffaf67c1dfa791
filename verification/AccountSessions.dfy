/** Service accounts read only their own project, and revoking one ends all of its sessions. */
module AccountSessions {
  import opened Wrappers
  import opened Domain
  import opened ServiceRuns
  import opened Sessions

  // ---- One call ----

  /** No call removes an account, moves it to another project, or makes a revoked one active. */
  ghost predicate AccountsKept(before: map<Id, Account>, after: map<Id, Account>) {
    forall a | a in before ::
      a in after && after[a].projectID == before[a].projectID
        && (before[a].status == Revoked ==> after[a].status == Revoked)
  }

  lemma CallKeepsAccounts(c: Crypto, t: Tables, call: Call, env: Env)
    ensures AccountsKept(t.accounts, After(c, t, call, env).accounts)
  {
    match call
    case Auth(a) => AuthFrame(t, a, env);
    case Project(p) => ProjectFrame(t, p, env);
    case Secrets(s) => SecretFrame(c, t, s, env);
    case Access(a) => AccessFrame(t, a, env);
    case Accounts(a) => AccountFrame(t, a, env);
    case Teams(tc) => TeamFrame(t, tc, env);
  }

  lemma RequestKeepsAccounts(c: Crypto, w: World, request: Request, env: Env)
    ensures AccountsKept(w.tables.accounts, Serve(c, w, request, env).world.tables.accounts)
  {
    var call := Admitted(w, request, env.now);
    if call.Ok? {
      CallKeepsAccounts(c, w.tables, call.value, env);
    }
  }

  // ---- The project of an account ----

  /** Every account token names the project of an existing account. */
  ghost predicate TokensBound(w: World) {
    forall claims | claims in w.issued && claims.subject == AccountSubject ::
      claims.userID in w.tables.accounts && claims.projectID == Some(w.tables.accounts[claims.userID].projectID)
  }

  lemma RequestKeepsTokensBound(c: Crypto, w: World, request: Request, env: Env)
    requires TokensBound(w)
    ensures TokensBound(Serve(c, w, request, env).world)
  {
    RequestKeepsAccounts(c, w, request, env);
    var after := Serve(c, w, request, env).world;
    forall claims | claims in after.issued && claims.subject == AccountSubject
      ensures claims.userID in after.tables.accounts
      ensures claims.projectID == Some(after.tables.accounts[claims.userID].projectID)
    {
      if claims !in w.issued {
        assert request.AccountLogIn? && claims.userID == request.account;
      }
    }
  }

  /** What any run of requests keeps of tokens and accounts. */
  lemma {:induction false} RunKeepsAccounts(c: Crypto, w: World, requests: Requests)
    requires TokensBound(w)
    ensures TokensBound(RunRequests(c, w, requests))
    ensures AccountsKept(w.tables.accounts, RunRequests(c, w, requests).tables.accounts)
    decreases |requests|
  {
    if requests != [] {
      var (request, env) := requests[0];
      RequestKeepsAccounts(c, w, request, env);
      RequestKeepsTokensBound(c, w, request, env);
      RunKeepsAccounts(c, Serve(c, w, request, env).world, requests[1..]);
    }
  }

  /** A request with an account's token that returns a value returns one of the account's project. */
  lemma AccountReadIsInProject(c: Crypto, w: World, bearer: Claims, secret: Id, env: Env)
    requires TokensBound(w) && bearer.subject == AccountSubject
    requires Serve(c, w, ReadValue(bearer, secret), env).reply.Ok?
    ensures secret in w.tables.vault.secrets && bearer.userID in w.tables.accounts
    ensures w.tables.vault.secrets[secret].projectID == w.tables.accounts[bearer.userID].projectID
  {
  }

  /**
   In every run: an account created in a project never reads a value outside that project,
   whichever of its tokens it uses and whatever happened since.
   */
  lemma AccountsReadOnlyTheirProject(c: Crypto, before: Requests, creator: Claims, actor: Id, project: Id, name: string,
                                     env: Env, rest: Requests, bearer: Claims, secret: Id, readEnv: Env, w: World)
    requires w == RunRequests(c, EmptyWorld(), before)
    requires Serve(c, w, UserOnly(creator, Accounts(CreateFor(actor, project, name))), env).reply.Ok?
    requires bearer.subject == AccountSubject && bearer.userID == env.id
    ensures var w' := Serve(c, w, UserOnly(creator, Accounts(CreateFor(actor, project, name))), env).world;
            var last := RunRequests(c, w', rest);
            Serve(c, last, ReadValue(bearer, secret), readEnv).reply.Ok? ==>
              && secret in last.tables.vault.secrets && last.tables.vault.secrets[secret].projectID == project
  {
    RunKeepsAccounts(c, EmptyWorld(), before);
    var request := UserOnly(creator, Accounts(CreateFor(actor, project, name)));
    var w' := Serve(c, w, request, env).world;
    RequestKeepsTokensBound(c, w, request, env);
    assert env.id in w'.tables.accounts && w'.tables.accounts[env.id].projectID == project;
    RunKeepsAccounts(c, w', rest);
    if Serve(c, RunRequests(c, w', rest), ReadValue(bearer, secret), readEnv).reply.Ok? {
      AccountReadIsInProject(c, RunRequests(c, w', rest), bearer, secret, readEnv);
    }
  }

  // ---- Revocation ----

  ghost predicate AccountRevoked(w: World, account: Id) {
    account in w.tables.accounts && w.tables.accounts[account].status == Revoked
  }

  /** A login of the account, or a request with one of its tokens. */
  predicate Uses(request: Request, account: Id) {
    match request
    case AccountLogIn(a, _) => a == account
    case ReadValue(bearer, _) => bearer.subject == AccountSubject && bearer.userID == account
    case UserOnly(bearer, _) => bearer.subject == AccountSubject && bearer.userID == account
    case _ => false
  }

  lemma RevokedIsRefused(c: Crypto, w: World, request: Request, env: Env, account: Id)
    requires AccountRevoked(w, account) && Uses(request, account)
    ensures Serve(c, w, request, env).reply == Err(Unauthorized)
    ensures Serve(c, w, request, env).world == w
  {
  }

  /** Once an account is revoked, every use of it in every later run is refused. */
  lemma {:induction false} RevokedAccountIsOut(c: Crypto, w: World, requests: Requests, account: Id)
    requires AccountRevoked(w, account)
    ensures forall i | 0 <= i < |requests| && Uses(requests[i].0, account) ::
              RequestReplies(c, w, requests)[i] == Err(Unauthorized)
    decreases |requests|
  {
    if requests != [] {
      var (request, env) := requests[0];
      RequestKeepsAccounts(c, w, request, env);
      if Uses(request, account) {
        RevokedIsRefused(c, w, request, env, account);
      }
      var served := Serve(c, w, request, env);
      RevokedAccountIsOut(c, served.world, requests[1..], account);
      assert RequestReplies(c, w, requests) == [served.reply] + RequestReplies(c, served.world, requests[1..]);
    }
  }

  /** After a successful revocation no login and no token of the account, however old, is accepted again. */
  lemma RevocationEndsSessions(c: Crypto, w: World, bearer: Claims, actor: Id, account: Id, env: Env, rest: Requests)
    requires Serve(c, w, UserOnly(bearer, Accounts(RevokeFor(actor, account))), env).reply.Ok?
    ensures var w' := Serve(c, w, UserOnly(bearer, Accounts(RevokeFor(actor, account))), env).world;
            forall i | 0 <= i < |rest| && Uses(rest[i].0, account) ::
              RequestReplies(c, w', rest)[i] == Err(Unauthorized)
  {
    RevokedAccountIsOut(c, Serve(c, w, UserOnly(bearer, Accounts(RevokeFor(actor, account))), env).world, rest,
                        account);
  }

  /** Endpoints for people refuse every account token, in every state. */
  lemma AccountsAreNotUsers(c: Crypto, w: World, bearer: Claims, call: Call, env: Env)
    requires bearer.subject == AccountSubject
    ensures Serve(c, w, UserOnly(bearer, call), env) == Served(w, Err(Unauthorized))
  {
  }

  // ---- Every session starts with a login ----

  /** This request is the login that the token comes from. */
  ghost predicate IssuedBy(c: Crypto, w: World, request: Request, env: Env, claims: Claims) {
    var reply := Serve(c, w, request, env).reply;
    if claims.subject == UserSubject then
      && request.LogIn? && reply == Ok(Created(claims.userID))
      && claims.userID in w.tables.users.rows && !w.tables.users.rows[claims.userID].isBlocked
      && w.tables.users.rows[claims.userID].passwordHash == Hash(request.password)
      && claims.isAdmin == w.tables.users.rows[claims.userID].isAdmin
      && claims.expiresAt == env.now + 24 * HOUR
    else
      && request.AccountLogIn? && reply.Ok? && request.account == claims.userID
      && claims.userID in w.tables.accounts && w.tables.accounts[claims.userID].status == Active
      && w.tables.accounts[claims.userID].tokenHash == Hash(request.token)
      && claims.projectID == Some(w.tables.accounts[claims.userID].projectID)
      && claims.expiresAt == env.now + HOUR
  }

  /** One request of the run is that login. */
  ghost predicate IssuedIn(c: Crypto, w: World, requests: Requests, claims: Claims)
    decreases |requests|
  {
    requests != [] &&
    (IssuedBy(c, w, requests[0].0, requests[0].1, claims)
     || IssuedIn(c, Serve(c, w, requests[0].0, requests[0].1).world, requests[1..], claims))
  }

  lemma NewTokenIsIssued(c: Crypto, w: World, request: Request, env: Env, claims: Claims)
    requires claims in Serve(c, w, request, env).world.issued && claims !in w.issued
    ensures IssuedBy(c, w, request, env, claims)
  {
  }

  lemma {:induction false} TokensComeFromLogins(c: Crypto, w: World, requests: Requests, claims: Claims)
    requires claims in RunRequests(c, w, requests).issued && claims !in w.issued
    ensures IssuedIn(c, w, requests, claims)
    decreases |requests|
  {
    if requests != [] {
      var (request, env) := requests[0];
      var next := Serve(c, w, request, env).world;
      if claims in next.issued {
        NewTokenIsIssued(c, w, request, env, claims);
      } else {
        TokensComeFromLogins(c, next, requests[1..], claims);
      }
    }
  }

  /**
   In every run from nothing, whoever is authenticated logged in with their password or token
   before, less than the token's lifetime ago, and may still act now.
   */
  lemma SessionsComeFromLogins(c: Crypto, requests: Requests, claims: Claims, now: Time)
    ensures var w := RunRequests(c, EmptyWorld(), requests);
            Authenticated(w, claims, now).Ok? ==>
              && IssuedIn(c, EmptyWorld(), requests, claims) && now < claims.expiresAt
              && StillValid(w.tables, PrincipalOf(claims))
  {
    if Authenticated(RunRequests(c, EmptyWorld(), requests), claims, now).Ok? {
      TokensComeFromLogins(c, EmptyWorld(), requests, claims);
    }
  }
}
