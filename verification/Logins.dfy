/** Who gets in, in every later run: exactly the right password, the right account token, and a live session. */
module Logins {
  import opened Wrappers
  import opened Domain
  import opened ServiceSpec
  import opened ServiceRuns
  import opened Sessions
  import opened ServiceRules
  import opened RequestRules

  // ---- What every run keeps of users, accounts and tokens ----

  /** A user keeps their address and password, an account its project and token; neither is ever gone. */
  predicate IdentitiesKept(t: Tables, u: Tables) {
    && (forall id | id in t.users.rows ::
          && id in u.users.rows && u.users.rows[id].email == t.users.rows[id].email
          && u.users.rows[id].passwordHash == t.users.rows[id].passwordHash
          && u.users.rows[id].isAdmin == t.users.rows[id].isAdmin)
    && (forall e | e in t.users.byEmail :: e in u.users.byEmail && u.users.byEmail[e] == t.users.byEmail[e])
    && (forall a | a in t.accounts ::
          && a in u.accounts && u.accounts[a].projectID == t.accounts[a].projectID
          && u.accounts[a].tokenHash == t.accounts[a].tokenHash)
  }

  lemma AuthKeepsIdentities(t: Tables, call: AuthCall, env: Env)
    ensures IdentitiesKept(t, AuthStep(t, call, env).tables)
  {
    AuthFrame(t, call, env);
  }

  lemma CallKeepsIdentities(c: Crypto, t: Tables, call: Call, env: Env)
    ensures IdentitiesKept(t, After(c, t, call, env))
  {
    match call
    case Auth(a) => AuthKeepsIdentities(t, a, env);
    case Project(p) => ProjectFrame(t, p, env);
    case Teams(tc) => TeamFrame(t, tc, env);
    case Secrets(s) => SecretFrame(c, t, s, env);
    case Access(a) => AccessFrame(t, a, env);
    case Accounts(a) => AccountFrame(t, a, env);
  }

  lemma RequestKeepsIdentities(c: Crypto, w: World, request: Request, env: Env)
    ensures IdentitiesKept(w.tables, Serve(c, w, request, env).world.tables)
    ensures w.issued <= Serve(c, w, request, env).world.issued
  {
    var call := Admitted(w, request, env.now);
    if call.Ok? {
      CallKeepsIdentities(c, w.tables, call.value, env);
    }
  }

  lemma {:induction false} RunKeepsIdentities(c: Crypto, w: World, requests: Requests)
    ensures IdentitiesKept(w.tables, RunRequests(c, w, requests).tables)
    ensures w.issued <= RunRequests(c, w, requests).issued
    decreases |requests|
  {
    if requests != [] {
      var (request, env) := requests[0];
      RequestKeepsIdentities(c, w, request, env);
      RunKeepsIdentities(c, Serve(c, w, request, env).world, requests[1..]);
    }
  }

  // ---- People ----

  predicate Unblocked(t: Tables, user: Id) {
    user in t.users.rows && !t.users.rows[user].isBlocked
  }

  /**
   In every run after a sign-up that succeeded, a login at that address succeeds exactly with that
   password while the user is not blocked, and then it is that user's; a blocked user with the right
   password is told so.
   */
  lemma SignedUpLogsIn(c: Crypto, w: World, email: string, password: string, env: Env, rest: Requests, last: World,
                       attempt: string, at: Env)
    requires Serve(c, w, SignUp(email, password), env).reply.Ok?
    requires last == RunRequests(c, Serve(c, w, SignUp(email, password), env).world, rest)
    ensures var reply := Serve(c, last, LogIn(email, attempt), at).reply;
            && (reply == Ok(Created(env.id)) <==> attempt == password && Unblocked(last.tables, env.id))
            && (reply == Err(Forbidden) <==> attempt == password && !Unblocked(last.tables, env.id))
            && (reply == Err(InvalidCreds) <==> attempt != password)
  {
    var signedUp := Serve(c, w, SignUp(email, password), env).world;
    RegisterRule(w.tables, email, password, env, CreateUser(w.tables, email, password, env));
    RunKeepsIdentities(c, signedUp, rest);
    LoginRule(last.tables, email, attempt, at, Login(last.tables, email, attempt, at), env.id);
  }

  /**
   In every run after a login that succeeded there is a token of it, for 24 hours, which is accepted
   exactly until then and while the user is not blocked.
   */
  lemma LoggedInStaysIn(c: Crypto, w: World, email: string, password: string, env: Env, user: Id, rest: Requests,
                        last: World, now: Time)
    requires Serve(c, w, LogIn(email, password), env).reply == Ok(Created(user))
    requires last == RunRequests(c, Serve(c, w, LogIn(email, password), env).world, rest)
    ensures user in w.tables.users.rows
    ensures var claims := Claims(user, UserSubject, w.tables.users.rows[user].isAdmin, None, env.now + 24 * 3600);
            var r := Authenticated(last, claims, now);
            && (r.Ok? <==> now < env.now + 24 * 3600 && Unblocked(last.tables, user))
            && (r.Ok? ==> r.value.id == user && r.value.kind == UserPrincipal)
  {
    RequestRule(c, w, LogIn(email, password), env);
    LoginRule(w.tables, email, password, env, Login(w.tables, email, password, env), user);
    RunKeepsIdentities(c, Serve(c, w, LogIn(email, password), env).world, rest);
    var claims := Claims(user, UserSubject, w.tables.users.rows[user].isAdmin, None, env.now + 24 * 3600);
    AuthenticatedIff(last, claims, now);
  }

  // ---- Service accounts ----

  predicate NotRevoked(t: Tables, account: Id) {
    account in t.accounts && t.accounts[account].status == Active
  }

  lemma AccountCreated(c: Crypto, w: World, creator: Claims, actor: Id, project: Id, name: string, env: Env,
                       served: Served)
    requires served == Serve(c, w, UserOnly(creator, Accounts(CreateFor(actor, project, name))), env)
    requires served.reply.Ok?
    ensures served.world.tables.accounts
         == w.tables.accounts[env.id := Account(project, name, Hash("sa_" + env.nonce), Active)]
  {
    AuthenticatedIff(w, creator, env.now);
    CreateAccountRule(w.tables, creator.userID, project, name, env,
                      CreateAccount(w.tables, creator.userID, project, name, env));
  }

  /**
   In every run after an account is created, its login succeeds exactly with the token generated for it
   while it is not revoked, and opens a session of the project it was created in.
   */
  lemma AccountLogsIn(c: Crypto, w: World, creator: Claims, actor: Id, project: Id, name: string, env: Env,
                      rest: Requests, last: World, token: string, at: Env)
    requires Serve(c, w, UserOnly(creator, Accounts(CreateFor(actor, project, name))), env).reply.Ok?
    requires var created := Serve(c, w, UserOnly(creator, Accounts(CreateFor(actor, project, name))), env).world;
             last == RunRequests(c, created, rest)
    ensures var reply := Serve(c, last, AccountLogIn(env.id, token), at).reply;
            && (reply.Ok? <==> token == "sa_" + env.nonce && NotRevoked(last.tables, env.id))
            && (reply.Ok? ==> reply == Ok(Created(project)))
  {
    var request := UserOnly(creator, Accounts(CreateFor(actor, project, name)));
    AccountCreated(c, w, creator, actor, project, name, env, Serve(c, w, request, env));
    RunKeepsIdentities(c, Serve(c, w, request, env).world, rest);
    AuthenticateRule(last.tables, env.id, token, at, Authenticate(last.tables, env.id, token, at));
  }

  /**
   In every run after an account's login that succeeded there is a token of it, for an hour and bound to
   its project, which is accepted exactly until then and while the account is not revoked.
   */
  lemma AccountStaysIn(c: Crypto, w: World, account: Id, token: string, env: Env, project: Id, rest: Requests,
                       last: World, now: Time)
    requires Serve(c, w, AccountLogIn(account, token), env).reply == Ok(Created(project))
    requires last == RunRequests(c, Serve(c, w, AccountLogIn(account, token), env).world, rest)
    ensures var r := Authenticated(last, Claims(account, AccountSubject, false, Some(project), env.now + 3600), now);
            && (r.Ok? <==> now < env.now + 3600 && NotRevoked(last.tables, account))
            && (r.Ok? ==> r == Ok(Principal(account, ServiceAccountPrincipal, project, false)))
  {
    RequestRule(c, w, AccountLogIn(account, token), env);
    AuthenticateRule(w.tables, account, token, env, Authenticate(w.tables, account, token, env));
    RunKeepsIdentities(c, Serve(c, w, AccountLogIn(account, token), env).world, rest);
    AuthenticatedIff(last, Claims(account, AccountSubject, false, Some(project), env.now + 3600), now);
  }
}
