/** Requests with bearer tokens: how a token is issued, how a request is authenticated, and runs of requests. */
module Sessions {
  import opened Wrappers
  import opened Domain
  import opened ServiceRuns

  const TOKEN_TTL: Time := 24 * HOUR
  const ACCOUNT_TOKEN_TTL: Time := HOUR

  /** The sub_type claim. */
  datatype Subject = UserSubject | AccountSubject

  /** A signed token is its claims: nobody but the service makes one. Users' claims name no project. */
  datatype Claims = Claims(userID: Id, subject: Subject, isAdmin: bool, projectID: Option<Id>, expiresAt: Time)

  datatype World = World(tables: Tables, issued: set<Claims>)

  /** The public endpoints, the one that answers with a secret's value, and the endpoints for users only. */
  datatype Request =
    | SignUp(email: string, password: string)
    | LogIn(email: string, password: string)
    | AccountLogIn(account: Id, token: string)
    | ReadValue(bearer: Claims, secret: Id)
    | UserOnly(bearer: Claims, call: Call)

  /** principalType */
  function KindOf(subject: Subject): PrincipalType {
    if subject == AccountSubject then ServiceAccountPrincipal else UserPrincipal
  }

  function PrincipalOf(claims: Claims): Principal {
    Principal(claims.userID, KindOf(claims.subject),
              if claims.projectID.Some? then claims.projectID.value else 0, claims.isAdmin)
  }

  /** ValidatePrincipal */
  predicate StillValid(t: Tables, p: Principal) {
    if p.kind == ServiceAccountPrincipal then p.id in t.accounts && t.accounts[p.id].status == Active
    else p.id in t.users.rows && !t.users.rows[p.id].isBlocked
  }

  /** Auth: the signature, the expiry, and whether the principal may still act. */
  function Authenticated(w: World, claims: Claims, now: Time): Result<Principal, Error> {
    if claims !in w.issued || claims.expiresAt <= now then Err(Unauthorized)
    else if !StillValid(w.tables, PrincipalOf(claims)) then Err(Unauthorized)
    else Ok(PrincipalOf(claims))
  }

  /** GetUserID: only people have one. */
  function UserIDOf(p: Principal): Option<Id> {
    if p.kind == UserPrincipal then Some(p.id) else None
  }

  /** The handlers pass the caller's id as the actor; a read is made as the caller. */
  function By(user: Id, call: Call): Call {
    match call
    case Auth(a) => if a.Block? then Auth(a.(actor := user)) else call
    case Project(p) => Project(p.(actor := user))
    case Teams(t) => Teams(t.(actor := user))
    case Secrets(s) =>
      if s.Read? then Secrets(Read(Principal(user, UserPrincipal, 0, s.p.isAdmin), s.secret))
      else Secrets(s.(actor := user))
    case Access(a) => Access(a.(actor := user))
    case Accounts(a) => if a.AccountLogin? then call else Accounts(a.(actor := user))
  }

  datatype Served = Served(world: World, reply: Reply)

  /** The service call a request leads to, or the error that stops it before. */
  function Admitted(w: World, request: Request, now: Time): Result<Call, Error> {
    match request
    case SignUp(email, password) => Ok(Auth(Register(email, password)))
    case LogIn(email, password) => Ok(Auth(UserLogin(email, password)))
    case AccountLogIn(account, token) => Ok(Accounts(AccountLogin(account, token)))
    case ReadValue(bearer, secret) =>
      var p := Authenticated(w, bearer, now);
      if p.Err? then Err(p.error) else Ok(Secrets(Read(p.value, secret)))
    case UserOnly(bearer, call) =>
      var p := Authenticated(w, bearer, now);
      if p.Err? then Err(p.error)
      else if UserIDOf(p.value).None? then Err(Unauthorized)
      else Ok(By(UserIDOf(p.value).value, call))
  }

  /** The token of a login that succeeded. */
  function NewTokens(t: Tables, request: Request, reply: Reply, now: Time): set<Claims> {
    if reply.Err? || !reply.value.Created? then {}
    else if request.LogIn? then
      var user := reply.value.id;
      {Claims(user, UserSubject, user in t.users.rows && t.users.rows[user].isAdmin, None, now + TOKEN_TTL)}
    else if request.AccountLogIn? then
      {Claims(request.account, AccountSubject, false, Some(reply.value.id), now + ACCOUNT_TOKEN_TTL)}
    else {}
  }

  function Serve(c: Crypto, w: World, request: Request, env: Env): Served {
    var call := Admitted(w, request, env.now);
    if call.Err? then Served(w, Err(call.error))
    else
      var reply := Step(c, w.tables, call.value, env).reply;
      Served(World(After(c, w.tables, call.value, env), w.issued + NewTokens(w.tables, request, reply, env.now)), reply)
  }

  type Requests = seq<(Request, Env)>

  function RunRequests(c: Crypto, w: World, requests: Requests): World
    decreases |requests|
  {
    if requests == [] then w
    else RunRequests(c, Serve(c, w, requests[0].0, requests[0].1).world, requests[1..])
  }

  function RequestReplies(c: Crypto, w: World, requests: Requests): (replies: seq<Reply>)
    ensures |replies| == |requests|
    decreases |requests|
  {
    if requests == [] then []
    else
      var served := Serve(c, w, requests[0].0, requests[0].1);
      [served.reply] + RequestReplies(c, served.world, requests[1..])
  }

  /** The service calls that a run of requests leads to. */
  ghost function CallsOf(c: Crypto, w: World, requests: Requests): Trace
    decreases |requests|
  {
    if requests == [] then []
    else
      var (request, env) := requests[0];
      var call := Admitted(w, request, env.now);
      (if call.Ok? then [(call.value, env)] else []) + CallsOf(c, Serve(c, w, request, env).world, requests[1..])
  }

  /** A run of requests is a run of those calls, so what is proved of runs of calls holds of it. */
  lemma {:induction false} RequestsAreCalls(c: Crypto, w: World, requests: Requests)
    ensures RunRequests(c, w, requests).tables == Run(c, w.tables, CallsOf(c, w, requests))
    decreases |requests|
  {
    if requests != [] {
      var (request, env) := requests[0];
      var next := Serve(c, w, request, env).world;
      RequestsAreCalls(c, next, requests[1..]);
      if Admitted(w, request, env.now).Ok? {
        assert CallsOf(c, w, requests)[1..] == CallsOf(c, next, requests[1..]);
      } else {
        assert CallsOf(c, w, requests) == CallsOf(c, next, requests[1..]);
      }
    }
  }

  function EmptyWorld(): World {
    World(EmptyTables(), {})
  }
}
