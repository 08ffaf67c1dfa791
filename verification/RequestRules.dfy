/** What each request does and as whom, told without the dispatch: a person's request acts as its bearer. */
module RequestRules {
  import opened Wrappers
  import opened Domain
  import opened ServiceSpec
  import opened ServiceRuns
  import opened Sessions

  /** The token was issued, has not expired, and its owner may still act. */
  predicate LiveToken(w: World, bearer: Claims, now: Time) {
    && bearer in w.issued && now < bearer.expiresAt
    && match bearer.subject
       case AccountSubject => bearer.userID in w.tables.accounts && w.tables.accounts[bearer.userID].status == Active
       case UserSubject => bearer.userID in w.tables.users.rows && !w.tables.users.rows[bearer.userID].isBlocked
  }

  /** Exactly the live tokens are accepted, and each stands for its owner. */
  lemma AuthenticatedIff(w: World, bearer: Claims, now: Time)
    ensures var r := Authenticated(w, bearer, now);
            && (r.Ok? <==> LiveToken(w, bearer, now))
            && (r.Err? ==> r == Err(Unauthorized))
            && (r.Ok? ==> && r.value.id == bearer.userID && r.value.isAdmin == bearer.isAdmin
                          && (r.value.kind == ServiceAccountPrincipal <==> bearer.subject == AccountSubject)
                          && (bearer.projectID.Some? ==> r.value.projectID == bearer.projectID.value))
  {
  }

  /** What a call leads to when this person makes it: every argument as asked, and the person as its actor. */
  predicate AsAsked(c: Crypto, t: Tables, user: Id, call: Call, env: Env, out: Outcome) {
    match call
    case Auth(Register(email, password)) => out == CreateUser(t, email, password, env)
    case Auth(UserLogin(email, password)) => out == Login(t, email, password, env)
    case Auth(Block(_, target, blocked)) => out == SetBlocked(t, user, target, blocked, env)
    case Project(p) => out == ProjectStep(t, p.(actor := user), env)
    case Teams(tc) => out == TeamStep(t, tc.(actor := user), env)
    case Secrets(CreateIn(_, project, input)) => out == CreateSecret(c, t, user, project, input, env)
    case Secrets(Read(p, secret)) =>
      out == GetSecretValue(c, t, Principal(user, UserPrincipal, 0, p.isAdmin), secret, env)
    case Secrets(Rotate(_, secret, value)) => out == RotateSecret(c, t, user, secret, value, env)
    case Secrets(Rollback(_, secret, version)) => out == RollbackSecret(t, user, secret, version, env)
    case Secrets(Revoke(_, secret)) => out == RevokeSecret(t, user, secret, env)
    case Access(a) => out == AccessStep(t, a.(actor := user), env)
    case Accounts(CreateFor(_, project, name)) => out == CreateAccount(t, user, project, name, env)
    case Accounts(AccountLogin(account, token)) => out == Authenticate(t, account, token, env)
    case Accounts(RevokeFor(_, account)) => out == RevokeAccount(t, user, account, env)
  }

  /** The request does this and nothing else to the tables, and answers with this. */
  predicate DoesInWorld(w: World, served: Served, out: Outcome, env: Env) {
    && served.reply == out.reply
    && served.world.tables == Logged(out.tables, out.event, env.auditOk)
  }

  /** What a request must do. */
  ghost predicate ServedAsAsked(c: Crypto, w: World, request: Request, env: Env, served: Served) {
    match request
    case SignUp(email, password) =>
      DoesInWorld(w, served, CreateUser(w.tables, email, password, env), env) && served.world.issued == w.issued
    case LogIn(email, password) =>
      var out := Login(w.tables, email, password, env);
      && DoesInWorld(w, served, out, env)
      && served.world.issued == w.issued + if out.reply.Err? then {} else
           {Claims(out.reply.value.id, UserSubject, w.tables.users.rows[out.reply.value.id].isAdmin, None,
                   env.now + 24 * 3600)}
    case AccountLogIn(account, token) =>
      var out := Authenticate(w.tables, account, token, env);
      && DoesInWorld(w, served, out, env)
      && served.world.issued == w.issued + if out.reply.Err? then {} else
           {Claims(account, AccountSubject, false, Some(w.tables.accounts[account].projectID), env.now + 3600)}
    case ReadValue(bearer, secret) =>
      if !LiveToken(w, bearer, env.now) then served == Served(w, Err(Unauthorized))
      else
        var kind := if bearer.subject == AccountSubject then ServiceAccountPrincipal else UserPrincipal;
        var project := if bearer.projectID.Some? then bearer.projectID.value else 0;
        var out := GetSecretValue(c, w.tables, Principal(bearer.userID, kind, project, bearer.isAdmin), secret, env);
        DoesInWorld(w, served, out, env) && served.world.issued == w.issued
    case UserOnly(bearer, call) =>
      if !LiveToken(w, bearer, env.now) || bearer.subject == AccountSubject then served == Served(w, Err(Unauthorized))
      else
        && (exists out :: AsAsked(c, w.tables, bearer.userID, call, env, out) && DoesInWorld(w, served, out, env))
        && served.world.issued == w.issued
  }

  lemma LoginAnswersAUser(t: Tables, email: string, password: string, env: Env)
    ensures var reply := Login(t, email, password, env).reply;
            reply.Ok? ==> reply.value.Created? && reply.value.id in t.users.rows
  {
  }

  lemma PersonsCall(c: Crypto, t: Tables, user: Id, call: Call, env: Env)
    ensures AsAsked(c, t, user, call, env, Step(c, t, By(user, call), env))
  {
  }

  /** Every request is served as asked, and a person's as that person. */
  lemma RequestRule(c: Crypto, w: World, request: Request, env: Env)
    ensures ServedAsAsked(c, w, request, env, Serve(c, w, request, env))
  {
    match request
    case SignUp(_, _) =>
    case LogIn(email, password) => LoginAnswersAUser(w.tables, email, password, env);
    case AccountLogIn(_, _) =>
    case ReadValue(bearer, _) => AuthenticatedIff(w, bearer, env.now);
    case UserOnly(bearer, call) =>
      AuthenticatedIff(w, bearer, env.now);
      PersonsCall(c, w.tables, bearer.userID, call, env);
  }

  /** The i-th reply of a run is that of the i-th request in the world that the requests before it leave. */
  lemma {:induction false} ReplyInRun(c: Crypto, w: World, requests: Requests, i: nat)
    requires i < |requests|
    ensures RequestReplies(c, w, requests)[i]
         == Serve(c, RunRequests(c, w, requests[..i]), requests[i].0, requests[i].1).reply
    ensures RunRequests(c, w, requests[..i + 1])
         == Serve(c, RunRequests(c, w, requests[..i]), requests[i].0, requests[i].1).world
    decreases i
  {
    var next := Serve(c, w, requests[0].0, requests[0].1).world;
    assert requests[..i + 1][0] == requests[0] && requests[..i + 1][1..] == requests[1..][..i];
    if i == 0 {
      assert requests[..0] == [] && requests[1..][..0] == [];
    } else {
      ReplyInRun(c, next, requests[1..], i - 1);
      assert requests[..i][0] == requests[0] && requests[..i][1..] == requests[1..][..i - 1];
    }
  }

  /** In every run every request is served as asked, in the world that the requests before it leave. */
  lemma RunServesAsAsked(c: Crypto, w: World, requests: Requests, i: nat)
    requires i < |requests|
    ensures var (request, env) := requests[i];
            ServedAsAsked(c, RunRequests(c, w, requests[..i]), request, env,
                          Served(RunRequests(c, w, requests[..i + 1]), RequestReplies(c, w, requests)[i]))
  {
    ReplyInRun(c, w, requests, i);
    RequestRule(c, RunRequests(c, w, requests[..i]), requests[i].0, requests[i].1);
  }
}
