/** A blocked user is out until unblocked: no login, and no token however fresh. */
module BlockedUsers {
  import opened Wrappers
  import opened Domain
  import opened ServiceRuns
  import opened Sessions

  ghost predicate IsBlocked(t: Tables, user: Id) {
    user in t.users.rows && t.users.rows[user].isBlocked
  }

  /** A call that would lift the block. */
  predicate Unblocks(call: Call, user: Id) {
    call.Auth? && call.auth.Block? && call.auth.target == user && !call.auth.blocked
  }

  /** Only an unblocking lifts a block, and it does exactly when a system admin makes it. */
  lemma StaysBlockedIff(c: Crypto, t: Tables, call: Call, env: Env, user: Id)
    requires IsBlocked(t, user)
    ensures !IsBlocked(After(c, t, call, env), user)
            <==> && Unblocks(call, user) && !FailsAt(env.fault, 0) && call.auth.actor in t.users.rows
                 && t.users.rows[call.auth.actor].isAdmin && call.auth.actor != user
  {
    match call
    case Auth(a) => AuthFrame(t, a, env);
    case Project(p) => ProjectFrame(t, p, env);
    case Secrets(s) => SecretFrame(c, t, s, env);
    case Access(a) => AccessFrame(t, a, env);
    case Accounts(a) => AccountFrame(t, a, env);
    case Teams(tc) => TeamFrame(t, tc, env);
  }

  /** A call that would block the user. */
  predicate Blocks(call: Call, user: Id) {
    call.Auth? && call.auth.Block? && call.auth.target == user && call.auth.blocked
  }

  /** Only a blocking puts a block on, and it does exactly when another user who is a system admin makes it. */
  lemma BecomesBlockedIff(c: Crypto, t: Tables, call: Call, env: Env, user: Id)
    requires user in t.users.rows && !t.users.rows[user].isBlocked
    ensures IsBlocked(After(c, t, call, env), user)
            <==> && Blocks(call, user) && !FailsAt(env.fault, 0) && call.auth.actor in t.users.rows
                 && t.users.rows[call.auth.actor].isAdmin && call.auth.actor != user
  {
    match call
    case Auth(a) => AuthFrame(t, a, env);
    case Project(p) => ProjectFrame(t, p, env);
    case Secrets(s) => SecretFrame(c, t, s, env);
    case Access(a) => AccessFrame(t, a, env);
    case Accounts(a) => AccountFrame(t, a, env);
    case Teams(tc) => TeamFrame(t, tc, env);
  }

  /** The request succeeds in unblocking the user. */
  ghost predicate Lifts(c: Crypto, w: World, request: Request, env: Env, user: Id) {
    request.UserOnly? && Unblocks(request.call, user) && Serve(c, w, request, env).reply.Ok?
  }

  /** No request of the run succeeds in unblocking the user; any may try. */
  ghost predicate NeverLifted(c: Crypto, w: World, requests: Requests, user: Id)
    decreases |requests|
  {
    requests == []
    || (&& !Lifts(c, w, requests[0].0, requests[0].1, user)
        && NeverLifted(c, Serve(c, w, requests[0].0, requests[0].1).world, requests[1..], user))
  }

  /** The request presents a token of this user. */
  predicate BearsTokenOf(request: Request, user: Id) {
    match request
    case ReadValue(bearer, _) => bearer.subject == UserSubject && bearer.userID == user
    case UserOnly(bearer, _) => bearer.subject == UserSubject && bearer.userID == user
    case _ => false
  }

  lemma BlockedIsRefused(c: Crypto, w: World, request: Request, env: Env, user: Id)
    requires IsBlocked(w.tables, user)
    ensures BearsTokenOf(request, user) ==> Serve(c, w, request, env).reply == Err(Unauthorized)
    ensures request.LogIn? ==> Serve(c, w, request, env).reply != Ok(Created(user))
  {
  }

  /** A request ends the block exactly when it succeeds in unblocking the user. */
  lemma RequestLiftsIff(c: Crypto, w: World, request: Request, env: Env, user: Id)
    requires IsBlocked(w.tables, user)
    ensures !IsBlocked(Serve(c, w, request, env).world.tables, user) <==> Lifts(c, w, request, env, user)
  {
    var call := Admitted(w, request, env.now);
    if call.Ok? {
      StaysBlockedIff(c, w.tables, call.value, env, user);
    }
  }

  /**
   In every run, until a request succeeds in unblocking them, no token of the user is accepted and no
   login is theirs.
   */
  lemma {:induction false} BlockedUserIsOut(c: Crypto, w: World, requests: Requests, user: Id)
    requires IsBlocked(w.tables, user) && NeverLifted(c, w, requests, user)
    ensures IsBlocked(RunRequests(c, w, requests).tables, user)
    ensures forall i | 0 <= i < |requests| && BearsTokenOf(requests[i].0, user) ::
              RequestReplies(c, w, requests)[i] == Err(Unauthorized)
    ensures forall i | 0 <= i < |requests| && requests[i].0.LogIn? ::
              RequestReplies(c, w, requests)[i] != Ok(Created(user))
    decreases |requests|
  {
    if requests != [] {
      var (request, env) := requests[0];
      var served := Serve(c, w, request, env);
      BlockedIsRefused(c, w, request, env, user);
      RequestLiftsIff(c, w, request, env, user);
      BlockedUserIsOut(c, served.world, requests[1..], user);
      assert RequestReplies(c, w, requests) == [served.reply] + RequestReplies(c, served.world, requests[1..]);
    }
  }

  /** After a successful BlockUser the user is out until a request succeeds in unblocking them. */
  lemma BlockingLocksOut(c: Crypto, w: World, bearer: Claims, actor: Id, user: Id, env: Env, rest: Requests, w': World)
    requires var served := Serve(c, w, UserOnly(bearer, Auth(Block(actor, user, true))), env);
             served.reply.Ok? && served.world == w'
    requires NeverLifted(c, w', rest, user)
    ensures forall i | 0 <= i < |rest| && BearsTokenOf(rest[i].0, user) ::
              RequestReplies(c, w', rest)[i] == Err(Unauthorized)
    ensures forall i | 0 <= i < |rest| && rest[i].0.LogIn? :: RequestReplies(c, w', rest)[i] != Ok(Created(user))
  {
    BlockedUserIsOut(c, w', rest, user);
  }
}
