/** The access check chain of the repository's README (lines 146-154), and how the code departs from it. */
module DocumentedRule {
  import opened Wrappers
  import opened Domain
  import opened ServiceSpec
  import opened ServiceRuns
  import opened SecretReadRules

  /** The chain: a live secret, and a member of its project or the holder of a grant. */
  predicate Documented(t: Tables, user: Id, secret: Id, now: Time) {
    && Live(t, secret, now)
    && ((t.vault.secrets[secret].projectID, user) in t.org.members || LiveGrant(t, secret, user, now))
  }

  /**
   The code departs from the chain exactly for developers without a grant, whom it refuses, and
   for holders of a grant who are not members, whom it refuses too.
   */
  lemma CodeDepartsIff(t: Tables, p: Principal, secret: Id, now: Time)
    requires p.kind == UserPrincipal && Documented(t, p.id, secret, now)
    ensures !MayRead(t, p, secret, now)
       <==> RoleOf(t, t.vault.secrets[secret].projectID, p.id)
            == if LiveGrant(t, secret, p.id, now) then None else Some(Developer)
  {
    var member := (t.vault.secrets[secret].projectID, p.id);
    if member in t.org.members {
      var role := t.org.members[member];
      assert role.Admin? || role.Manager? || role.Developer?;
    }
  }

  /** And it never allows a user whom the chain refuses. */
  lemma CodeIsStricter(t: Tables, p: Principal, secret: Id, now: Time)
    requires p.kind == UserPrincipal && MayRead(t, p, secret, now)
    ensures Documented(t, p.id, secret, now)
  {
  }

  // ---- Two runs in which it departs ----

  lemma {:induction false} RunOneMore(c: Crypto, t: Tables, trace: Trace, call: Call, env: Env)
    ensures Run(c, t, trace + [(call, env)]) == After(c, Run(c, t, trace), call, env)
    decreases |trace|
  {
    if trace == [] {
      assert trace + [(call, env)] == [(call, env)];
    } else {
      assert (trace + [(call, env)])[1..] == trace[1..] + [(call, env)];
      RunOneMore(c, After(c, t, trace[0].0, trace[0].1), trace[1..], call, env);
    }
  }

  const ANN: Id := 1
  const BOB: Id := 2
  const PROJECT: Id := 3
  const SECRET: Id := 4

  function Input(): SecretInput {
    SecretInput("key", "", "value", None, [], None)
  }

  /** Ann and Bob register, Ann creates a project, and in it a secret. */
  function Setup(env: Env): Trace {
    [(Auth(Register("ann@example.org", "password")), env.(id := ANN))]
    + [(Auth(Register("bob@example.org", "password")), env.(id := BOB))]
    + [(Project(Create(ANN)), env.(id := PROJECT))]
    + [(Secrets(CreateIn(ANN, PROJECT, Input())), env.(id := SECRET))]
  }

  lemma UsersRegistered(c: Crypto, env: Env) returns (t: Tables)
    requires env.fault == None
    ensures t == After(c, After(c, EmptyTables(), Auth(Register("ann@example.org", "password")), env.(id := ANN)),
                       Auth(Register("bob@example.org", "password")), env.(id := BOB))
    ensures ANN in t.users.rows && BOB in t.users.rows
    ensures t == EmptyTables().(users := t.users, audit := t.audit)
  {
    var t1 := After(c, EmptyTables(), Auth(Register("ann@example.org", "password")), env.(id := ANN));
    assert "bob@example.org"[0] != "ann@example.org"[0];
    assert "bob@example.org" !in t1.users.byEmail;
    t := After(c, t1, Auth(Register("bob@example.org", "password")), env.(id := BOB));
  }

  /** What the run of Setup leaves, as far as reading goes. */
  ghost predicate SetUp(t: Tables, env: Env) {
    && ANN in t.users.rows && BOB in t.users.rows
    && t.org.members == map[(PROJECT, ANN) := Admin]
    && t.vault.secrets == map[SECRET := NewSecret(ANN, PROJECT, Input(), env.(id := SECRET))]
    && t.grants == map[]
  }

  lemma SetupRun(c: Crypto, env: Env)
    requires env.fault == None
    ensures SetUp(Run(c, EmptyTables(), Setup(env)), env)
  {
    var ann := (Auth(Register("ann@example.org", "password")), env.(id := ANN));
    var bob := (Auth(Register("bob@example.org", "password")), env.(id := BOB));
    var project := (Project(Create(ANN)), env.(id := PROJECT));
    var secret := (Secrets(CreateIn(ANN, PROJECT, Input())), env.(id := SECRET));
    var t2 := UsersRegistered(c, env);
    RunOneMore(c, EmptyTables(), [], ann.0, ann.1);
    assert [] + [ann] == [ann];
    RunOneMore(c, EmptyTables(), [ann], bob.0, bob.1);
    RunOneMore(c, EmptyTables(), [ann] + [bob], project.0, project.1);
    RunOneMore(c, EmptyTables(), [ann] + [bob] + [project], secret.0, secret.1);
    var t3 := After(c, t2, project.0, project.1);
    assert t3.org.members == map[(PROJECT, ANN) := Admin];
    assert t3.vault == EmptyTables().vault && t3.grants == map[] && t3.users == t2.users;
  }

  /** A run after which the chain lets a developer read, and the code refuses. */
  lemma DeveloperIsRefused(c: Crypto, env: Env, p: Principal, readEnv: Env)
    requires env.fault == None && p.kind == UserPrincipal && p.id == BOB
    ensures var t := Run(c, EmptyTables(), Setup(env) + [(Project(Add(ANN, PROJECT, BOB, Developer)), env)]);
            && Documented(t, BOB, SECRET, readEnv.now)
            && !MayRead(t, p, SECRET, readEnv.now)
            && GetSecretValue(c, t, p, SECRET, readEnv).reply == Err(Forbidden)
  {
    SetupRun(c, env);
    RunOneMore(c, EmptyTables(), Setup(env), Project(Add(ANN, PROJECT, BOB, Developer)), env);
  }

  /** A run after which the chain lets the holder of a grant read, and the code refuses. */
  lemma GranteeIsRefused(c: Crypto, env: Env, p: Principal, readEnv: Env)
    requires env.fault == None && p.kind == UserPrincipal && p.id == BOB
    ensures var t := Run(c, EmptyTables(), Setup(env)
                                              + [(Access(AccessCall.Grant(ANN, PROJECT, SECRET, BOB, None)), env)]);
            && Documented(t, BOB, SECRET, readEnv.now)
            && !MayRead(t, p, SECRET, readEnv.now)
            && GetSecretValue(c, t, p, SECRET, readEnv).reply == Err(NotFound)
  {
    SetupRun(c, env);
    RunOneMore(c, EmptyTables(), Setup(env), Access(AccessCall.Grant(ANN, PROJECT, SECRET, BOB, None)), env);
  }
}
