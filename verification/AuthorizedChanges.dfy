/** Whatever a run changes, someone whom the rows allowed it just then changed it with a live token. */
module AuthorizedChanges {
  import opened Wrappers
  import opened Domain
  import opened ServiceRuns
  import opened Sessions
  import opened ServiceRules
  import opened SecretRules
  import opened RequestRules

  /** What a role protects. */
  datatype Thing =
    | TheSecret(secret: Id)        // its row and its versions
    | TheGrants(secret: Id)        // who may read it besides its managers
    | TheSecretsOf(project: Id)    // which secrets the project has
    | TheAccountsOf(project: Id)   // its service accounts
    | TheMembersOf(project: Id)    // its members, their roles and its teams
    | TheTeam(team: Id)
    | TheBlock(user: Id)

  predicate SecretOf(t: Tables, project: Id, secret: Id) {
    secret in t.vault.secrets && t.vault.secrets[secret].projectID == project
  }

  predicate AccountOf(t: Tables, project: Id, account: Id) {
    account in t.accounts && t.accounts[account].projectID == project
  }

  /** The thing is there. */
  predicate Exists(t: Tables, thing: Thing) {
    match thing
    case TheSecret(secret) => secret in t.vault.secrets
    case TheGrants(secret) => secret in t.vault.secrets
    case TheSecretsOf(project) => true
    case TheAccountsOf(project) => true
    case TheMembersOf(project) => project in t.org.ids
    case TheTeam(team) => team in t.org.teams
    case TheBlock(user) => user in t.users.rows
  }

  /** The thing is the same before and after. */
  ghost predicate Same(t: Tables, u: Tables, thing: Thing) {
    match thing
    case TheSecret(secret) =>
      && SameAt(t.vault.secrets, u.vault.secrets, secret) && SameAt(t.vault.versions, u.vault.versions, secret)
    case TheGrants(secret) => forall user :: SameAt(t.grants, u.grants, (secret, user))
    case TheSecretsOf(project) => forall secret :: SecretOf(t, project, secret) <==> SecretOf(u, project, secret)
    case TheAccountsOf(project) =>
      && (forall a :: AccountOf(t, project, a) <==> AccountOf(u, project, a))
      && (forall a | AccountOf(t, project, a) && AccountOf(u, project, a) :: t.accounts[a] == u.accounts[a])
    case TheMembersOf(project) =>
      && (forall user :: SameAt(t.org.members, u.org.members, (project, user)))
      && (forall team :: (project, team) in t.org.links <==> (project, team) in u.org.links)
    case TheTeam(team) => SameAt(t.org.teams, u.org.teams, team)
    case TheBlock(user) =>
      user in t.users.rows && user in u.users.rows && t.users.rows[user].isBlocked == u.users.rows[user].isBlocked
  }

  predicate SameAt<K, V(==)>(before: map<K, V>, after: map<K, V>, key: K) {
    (key in before <==> key in after) && (key in before && key in after ==> before[key] == after[key])
  }

  /** The rows allow this user to change the thing. */
  predicate MayChange(t: Tables, thing: Thing, user: Id) {
    match thing
    case TheSecret(secret) => Manages(t, user, secret)
    case TheGrants(secret) => Manages(t, user, secret)
    case TheSecretsOf(project) => HasRole(t, project, user, {Admin, Manager})
    case TheAccountsOf(project) => HasRole(t, project, user, {Admin, Manager})
    case TheMembersOf(project) => HasRole(t, project, user, {Admin})
    case TheTeam(team) => team in t.org.teams && user in t.org.teams[team].owners
    case TheBlock(target) => user in t.users.rows && t.users.rows[user].isAdmin && user != target
  }

  // ---- One call ----

  /** The person who makes a call, if it takes one. */
  function ActorOf(call: Call): Option<Id> {
    match call
    case Auth(a) => if a.Block? then Some(a.actor) else None
    case Project(p) => Some(p.actor)
    case Teams(tc) => Some(tc.actor)
    case Secrets(s) => if s.Read? then None else Some(s.actor)
    case Access(a) => Some(a.actor)
    case Accounts(a) => if a.AccountLogin? then None else Some(a.actor)
  }

  /** The call leaves the thing alone, or its actor may change it. */
  ghost predicate Allowed(t: Tables, u: Tables, thing: Thing, call: Call) {
    Same(t, u, thing) || (ActorOf(call).Some? && MayChange(t, thing, ActorOf(call).value))
  }

  lemma AuthAllowed(t: Tables, call: AuthCall, env: Env, thing: Thing)
    requires Exists(t, thing)
    ensures Allowed(t, AuthStep(t, call, env).tables, thing, Auth(call))
  {
    match call
    case Register(email, password) => RegisterRule(t, email, password, env, AuthStep(t, call, env));
    case UserLogin(_, _) =>
    case Block(actor, target, blocked) => BlockRule(t, actor, target, blocked, env, AuthStep(t, call, env));
  }

  lemma ProjectAllowed(t: Tables, call: ProjectCall, env: Env, thing: Thing)
    requires Exists(t, thing)
    ensures Allowed(t, ProjectStep(t, call, env).tables, thing, Project(call))
  {
    ProjectFrame(t, call, env);
  }

  lemma TeamAllowed(t: Tables, call: TeamCall, env: Env, thing: Thing)
    requires Exists(t, thing)
    ensures Allowed(t, TeamStep(t, call, env).tables, thing, Teams(call))
  {
    TeamFrame(t, call, env);
  }

  lemma SecretAllowed(c: Crypto, t: Tables, call: SecretCall, env: Env, thing: Thing)
    requires Exists(t, thing)
    ensures Allowed(t, SecretStep(c, t, call, env).tables, thing, Secrets(call))
  {
    SecretEffect(c, t, call, env);
    var out := SecretStep(c, t, call, env);
    match call
    case CreateIn(actor, project, input) => CreateSecretRule(c, t, actor, project, input, env, out);
    case Read(_, _) =>
    case Rotate(actor, secret, value) => RotateRule(c, t, actor, secret, value, env, out);
    case Rollback(actor, secret, version) => RollbackRule(t, actor, secret, version, env, out);
    case Revoke(actor, secret) => RevokeRule(t, actor, secret, env, out);
  }

  lemma AccessAllowed(t: Tables, call: AccessCall, env: Env, thing: Thing)
    requires Exists(t, thing)
    ensures Allowed(t, AccessStep(t, call, env).tables, thing, Access(call))
  {
    AccessFrame(t, call, env);
  }

  lemma AccountAllowed(t: Tables, call: AccountCall, env: Env, thing: Thing)
    requires Exists(t, thing)
    ensures Allowed(t, AccountStep(t, call, env).tables, thing, Accounts(call))
  {
    AccountFrame(t, call, env);
  }

  /** Every call that changes a thing is made by someone who may. */
  lemma CallIsAllowed(c: Crypto, t: Tables, call: Call, env: Env, thing: Thing)
    requires Exists(t, thing)
    ensures Allowed(t, After(c, t, call, env), thing, call)
  {
    match call
    case Auth(a) => AuthAllowed(t, a, env, thing);
    case Project(p) => ProjectAllowed(t, p, env, thing);
    case Teams(tc) => TeamAllowed(t, tc, env, thing);
    case Secrets(s) => SecretAllowed(c, t, s, env, thing);
    case Access(a) => AccessAllowed(t, a, env, thing);
    case Accounts(a) => AccountAllowed(t, a, env, thing);
  }

  // ---- Requests and runs of them ----

  /** The request is a person's, with a live token, and that person may change the thing. */
  predicate ComesFromSomeoneAllowed(w: World, request: Request, now: Time, thing: Thing) {
    && request.UserOnly? && request.bearer.subject == UserSubject
    && LiveToken(w, request.bearer, now) && MayChange(w.tables, thing, request.bearer.userID)
  }

  /** The actor of a call that a request leads to is a person with a live token. */
  lemma ActorIsTheBearer(w: World, request: Request, now: Time, call: Call)
    requires Admitted(w, request, now) == Ok(call) && ActorOf(call).Some?
    ensures request.UserOnly? && request.bearer.subject == UserSubject
    ensures LiveToken(w, request.bearer, now) && ActorOf(call) == Some(request.bearer.userID)
  {
  }

  lemma RequestIsAllowed(c: Crypto, w: World, request: Request, env: Env, thing: Thing)
    requires Exists(w.tables, thing)
    requires !Same(w.tables, Serve(c, w, request, env).world.tables, thing)
    ensures ComesFromSomeoneAllowed(w, request, env.now, thing)
  {
    var call := Admitted(w, request, env.now);
    if call.Ok? {
      CallIsAllowed(c, w.tables, call.value, env, thing);
      ActorIsTheBearer(w, request, env.now, call.value);
    } else {
      SameItself(w.tables, thing);
    }
  }

  lemma SameItself(t: Tables, thing: Thing)
    requires Exists(t, thing)
    ensures Same(t, t, thing)
  {
  }

  lemma SecretsStay(c: Crypto, t: Tables, call: SecretCall, env: Env)
    ensures t.vault.secrets.Keys <= SecretStep(c, t, call, env).tables.vault.secrets.Keys
  {
    SecretEffect(c, t, call, env);
  }

  /** No call removes a thing. */
  lemma CallKeepsThings(c: Crypto, t: Tables, call: Call, env: Env, thing: Thing, after: Tables)
    requires Exists(t, thing) && after == Step(c, t, call, env).tables
    ensures Exists(after, thing)
  {
    match call
    case Auth(a) => AuthFrame(t, a, env);
    case Project(p) => ProjectFrame(t, p, env);
    case Teams(tc) => TeamFrame(t, tc, env);
    case Secrets(s) => SecretsStay(c, t, s, env); SecretFrame(c, t, s, env);
    case Access(a) => AccessFrame(t, a, env);
    case Accounts(a) => AccountFrame(t, a, env);
  }

  /** The world that the first i requests leave. */
  function WorldAt(c: Crypto, w: World, requests: Requests, i: nat): World
    requires i <= |requests|
  {
    RunRequests(c, w, requests[..i])
  }

  lemma {:induction false} ThingsStay(c: Crypto, w: World, requests: Requests, thing: Thing, i: nat)
    requires Exists(w.tables, thing) && i <= |requests|
    ensures Exists(WorldAt(c, w, requests, i).tables, thing)
  {
    if i > 0 {
      ThingsStay(c, w, requests, thing, i - 1);
      ReplyInRun(c, w, requests, i - 1);
      var before := WorldAt(c, w, requests, i - 1);
      var (request, env) := requests[i - 1];
      var call := Admitted(before, request, env.now);
      if call.Ok? {
        CallKeepsThings(c, before.tables, call.value, env, thing, Step(c, before.tables, call.value, env).tables);
      }
    }
  }

  /** In every run, each request that changes a thing comes from someone allowed to in the state it found. */
  lemma EveryChangeIsAllowed(c: Crypto, w: World, requests: Requests, thing: Thing, i: nat)
    requires Exists(w.tables, thing) && i < |requests|
    requires !Same(WorldAt(c, w, requests, i).tables, WorldAt(c, w, requests, i + 1).tables, thing)
    ensures ComesFromSomeoneAllowed(WorldAt(c, w, requests, i), requests[i].0, requests[i].1.now, thing)
  {
    ThingsStay(c, w, requests, thing, i);
    ReplyInRun(c, w, requests, i);
    RequestIsAllowed(c, WorldAt(c, w, requests, i), requests[i].0, requests[i].1, thing);
  }

  lemma SameSame(t: Tables, u: Tables, v: Tables, thing: Thing)
    requires Same(t, u, thing) && Same(u, v, thing)
    ensures Same(t, v, thing)
  {
  }

  lemma {:induction false} StaysOrChanges(c: Crypto, w: World, requests: Requests, thing: Thing, n: nat)
    requires Exists(w.tables, thing) && n <= |requests|
    requires forall i | 0 <= i < n ::
               Same(WorldAt(c, w, requests, i).tables, WorldAt(c, w, requests, i + 1).tables, thing)
    ensures Same(w.tables, WorldAt(c, w, requests, n).tables, thing)
  {
    if n > 0 {
      StaysOrChanges(c, w, requests, thing, n - 1);
      SameSame(w.tables, WorldAt(c, w, requests, n - 1).tables, WorldAt(c, w, requests, n).tables, thing);
    }
  }

  /**
   Whatever is different at the end of a run was changed by a request of it, whose bearer had a live
   token and a row that allowed the change in the state that the request found.
   */
  lemma ChangedByTheAllowed(c: Crypto, w: World, requests: Requests, thing: Thing) returns (i: nat)
    requires Exists(w.tables, thing)
    requires !Same(w.tables, RunRequests(c, w, requests).tables, thing)
    ensures i < |requests|
    ensures !Same(WorldAt(c, w, requests, i).tables, WorldAt(c, w, requests, i + 1).tables, thing)
    ensures ComesFromSomeoneAllowed(WorldAt(c, w, requests, i), requests[i].0, requests[i].1.now, thing)
  {
    assert requests[..|requests|] == requests;
    if forall i | 0 <= i < |requests| ::
         Same(WorldAt(c, w, requests, i).tables, WorldAt(c, w, requests, i + 1).tables, thing) {
      StaysOrChanges(c, w, requests, thing, |requests|);
      assert false;
    }
    i :| 0 <= i < |requests|
         && !Same(WorldAt(c, w, requests, i).tables, WorldAt(c, w, requests, i + 1).tables, thing);
    EveryChangeIsAllowed(c, w, requests, thing, i);
  }
}
