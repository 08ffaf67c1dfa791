/** What every run keeps of a project's members and admins, and what assigning a team does. */
module ProjectMembership {
  import opened Wrappers
  import opened Domain
  import opened ServiceSpec
  import opened ServiceRuns

  ghost predicate HasMember(members: Members, project: Id) {
    exists u :: (project, u) in members
  }

  ghost predicate HasAdmin(members: Members, project: Id) {
    exists u :: AdminIn(members, project, u)
  }

  ghost predicate OnlyAdmin(members: Members, project: Id, user: Id) {
    AdminIn(members, project, user) && forall u | AdminIn(members, project, u) :: u == user
  }

  /** The two tables have the same rows of this project. */
  ghost predicate SameRoster(before: Members, after: Members, project: Id) {
    forall u ::
      && ((project, u) in before <==> (project, u) in after)
      && ((project, u) in before ==> after[(project, u)] == before[(project, u)])
  }

  /** The member row a call needs of its actor: an admin's of the project it names. */
  function NamedProject(call: ProjectCall): Option<Id> {
    match call
    case Create(_) => None
    case Add(_, project, _, _) => Some(project)
    case Remove(_, project, _) => Some(project)
    case ChangeRole(_, project, _, _) => Some(project)
    case Assign(_, project, _, _) => Some(project)
    case Unassign(_, project, _) => Some(project)
  }

  /** A call on a project's members changes nothing unless its actor is an admin of that project. */
  lemma OnlyAdminsAct(t: Tables, call: ProjectCall, env: Env, out: Outcome)
    requires out == ProjectStep(t, call, env) && !call.Create?
    ensures !AdminIn(t.org.members, NamedProject(call).value, call.actor) ==>
              out.tables == t && out.reply == Err(Forbidden)
  {
  }

  lemma UpsertedIs(members: Members, project: Id, users: set<Id>, role: ProjectRole)
    ensures var after := Upserted(members, project, users, role);
            forall p, u ::
              && ((p, u) in after <==> (p, u) in members || (p == project && u in users))
              && ((p, u) in after ==>
                    after[(p, u)] == if p == project && u in users then role else members[(p, u)])
  {
    var added := map u | u in users :: (project, u) := role;
    assert forall p, u :: (p, u) in added <==> p == project && u in users;
  }

  /** Rows of projects that the call does not name stay as they are. */
  lemma OtherRostersStay(t: Tables, call: ProjectCall, env: Env, project: Id)
    requires project in t.org.ids && NamedProject(call) != Some(project)
    ensures SameRoster(t.org.members, ProjectStep(t, call, env).tables.org.members, project)
  {
    if call.Assign? && call.team in t.org.teams {
      UpsertedIs(t.org.members, call.project, Recipients(t, t.org.teams[call.team].members, env.lostUpserts),
                 call.role);
    }
  }

  lemma IdsStay(c: Crypto, t: Tables, call: Call, env: Env)
    ensures t.org.ids <= After(c, t, call, env).org.ids
  {
    match call
    case Auth(a) => AuthFrame(t, a, env);
    case Project(p) => ProjectFrame(t, p, env);
    case Secrets(s) => SecretFrame(c, t, s, env);
    case Access(a) => AccessFrame(t, a, env);
    case Accounts(a) => AccountFrame(t, a, env);
    case Teams(tc) => TeamFrame(t, tc, env);
  }

  /** Calls of the other services leave the members alone. */
  lemma OnlyProjectCallsChangeMembers(c: Crypto, t: Tables, call: Call, env: Env)
    ensures After(c, t, call, env).org.members
         == if call.Project? then ProjectStep(t, call.project, env).tables.org.members else t.org.members
  {
    match call
    case Auth(a) => AuthFrame(t, a, env);
    case Project(p) => ProjectFrame(t, p, env);
    case Secrets(s) => SecretFrame(c, t, s, env);
    case Access(a) => AccessFrame(t, a, env);
    case Accounts(a) => AccountFrame(t, a, env);
    case Teams(tc) => TeamFrame(t, tc, env);
  }

  // ---- At least one member ----

  lemma RemoveKeepsTheActor(t: Tables, actor: Id, project: Id, user: Id, env: Env, members: Members)
    requires members == RemoveMember(t, actor, project, user, env).tables.org.members
    ensures members == t.org.members || ((project, actor) in t.org.members && (project, actor) in members)
  {
  }

  lemma OnlyRemoveDropsRows(t: Tables, call: ProjectCall, env: Env)
    requires !call.Remove?
    ensures t.org.members.Keys <= ProjectStep(t, call, env).tables.org.members.Keys
  {
  }

  lemma StepKeepsMember(c: Crypto, t: Tables, call: Call, env: Env, project: Id)
    requires project in t.org.ids && HasMember(t.org.members, project)
    ensures HasMember(After(c, t, call, env).org.members, project)
  {
    OnlyProjectCallsChangeMembers(c, t, call, env);
    if call.Project? {
      var u :| (project, u) in t.org.members;
      if NamedProject(call.project) != Some(project) {
        OtherRostersStay(t, call.project, env, project);
      } else if call.project.Remove? {
        RemoveKeepsTheActor(t, call.project.actor, project, call.project.user, env, After(c, t, call, env).org.members);
      } else {
        OnlyRemoveDropsRows(t, call.project, env);
        assert (project, u) in t.org.members.Keys;
      }
    }
  }

  /** A project that has a member keeps one in every run. */
  lemma {:induction false} RunKeepsMember(c: Crypto, t: Tables, trace: Trace, project: Id)
    requires project in t.org.ids && HasMember(t.org.members, project)
    ensures HasMember(Run(c, t, trace).org.members, project)
    decreases |trace|
  {
    if trace != [] {
      var (call, env) := trace[0];
      IdsStay(c, t, call, env);
      StepKeepsMember(c, t, call, env, project);
      RunKeepsMember(c, After(c, t, call, env), trace[1..], project);
    }
  }

  /** In every run after a successful CreateProject, the project has a member. */
  lemma CreatedProjectKeepsAMember(c: Crypto, t: Tables, actor: Id, env: Env, rest: Trace)
    requires CreateProject(t, actor, env).reply.Ok?
    ensures var t' := After(c, t, Project(Create(actor)), env);
            HasAdmin(t'.org.members, env.id) && HasMember(Run(c, t', rest).org.members, env.id)
  {
    var t' := After(c, t, Project(Create(actor)), env);
    assert AdminIn(t'.org.members, env.id, actor);
    assert (env.id, actor) in t'.org.members;
    RunKeepsMember(c, t', rest, env.id);
  }

  // ---- The last admin ----

  /**
   The calls that take a project's last admin away, told from the state before: a sole admin gives
   themselves a lesser role, or assigns with a lesser role a team that reaches every admin.
   */
  ghost predicate LosesLastAdmin(t: Tables, call: ProjectCall, env: Env, project: Id) {
    && NamedProject(call) == Some(project) && !FailsAt(env.fault, 0)
    && match call
       case Add(actor, _, user, role) =>
         user == actor && role != Admin && OnlyAdmin(t.org.members, project, actor) && actor in t.users.rows
       case ChangeRole(actor, _, user, role) =>
         user == actor && role != Admin && OnlyAdmin(t.org.members, project, actor)
       case Assign(actor, _, team, role) =>
         && role != Admin && AdminIn(t.org.members, project, actor) && team in t.org.teams && !FailsAt(env.fault, 1)
         && forall u | AdminIn(t.org.members, project, u) ::
              u in Recipients(t, t.org.teams[team].members, env.lostUpserts)
       case _ => false
  }

  lemma AssignLosesIff(t: Tables, call: ProjectCall, env: Env, out: Outcome)
    requires call.Assign? && HasAdmin(t.org.members, call.project) && out == ProjectStep(t, call, env)
    ensures !HasAdmin(out.tables.org.members, call.project) <==> LosesLastAdmin(t, call, env, call.project)
  {
    var project := call.project;
    if AdminIn(t.org.members, project, call.actor) && call.team in t.org.teams && !FailsWithin(env.fault, 2) {
      var users := Recipients(t, t.org.teams[call.team].members, env.lostUpserts);
      var after := Upserted(t.org.members, project, users, call.role);
      UpsertedIs(t.org.members, project, users, call.role);
      assert call.role == Admin ==> AdminIn(after, project, call.actor);
      assert forall u | AdminIn(t.org.members, project, u) :: u !in users ==> AdminIn(after, project, u);
    } else {
      assert out.tables.org.members == t.org.members;
    }
  }

  lemma RoleChangeLosesIff(t: Tables, call: ProjectCall, env: Env, project: Id, out: Outcome)
    requires call.Add? || call.ChangeRole? || call.Remove? || call.Unassign?
    requires NamedProject(call) == Some(project) && HasAdmin(t.org.members, project) && out == ProjectStep(t, call, env)
    ensures !HasAdmin(out.tables.org.members, project) <==> LosesLastAdmin(t, call, env, project)
  {
    var after := out.tables.org.members;
    if !AdminIn(t.org.members, project, call.actor) {
      assert after == t.org.members;
    } else if !LosesLastAdmin(t, call, env, project) {
      if !AdminIn(after, project, call.actor) {
        var other :| AdminIn(t.org.members, project, other) && other != call.actor;
        assert AdminIn(after, project, other);
      }
    } else {
      assert !AdminIn(after, project, call.actor);
      assert forall u | u != call.actor :: AdminIn(after, project, u) ==> AdminIn(t.org.members, project, u);
    }
  }

  /** Exactly those calls leave a project that had an admin without one. */
  lemma LastAdminLostIff(c: Crypto, t: Tables, call: Call, env: Env, project: Id)
    requires project in t.org.ids && HasAdmin(t.org.members, project)
    ensures !HasAdmin(After(c, t, call, env).org.members, project)
            <==> call.Project? && LosesLastAdmin(t, call.project, env, project)
  {
    OnlyProjectCallsChangeMembers(c, t, call, env);
    if call.Project? {
      if NamedProject(call.project) != Some(project) {
        OtherRostersStay(t, call.project, env, project);
        SameAdmins(t.org.members, ProjectStep(t, call.project, env).tables.org.members, project);
      } else if call.project.Assign? {
        AssignLosesIff(t, call.project, env, ProjectStep(t, call.project, env));
      } else {
        RoleChangeLosesIff(t, call.project, env, project, ProjectStep(t, call.project, env));
      }
    }
  }

  lemma SameAdmins(before: Members, after: Members, project: Id)
    requires SameRoster(before, after, project)
    ensures HasAdmin(before, project) <==> HasAdmin(after, project)
  {
    assert forall u :: AdminIn(before, project, u) <==> AdminIn(after, project, u);
  }

  /** A call that takes the last admin away rewrites the role of the admin who makes it. */
  lemma LossRewritesTheActor(t: Tables, call: ProjectCall, env: Env, project: Id)
    requires LosesLastAdmin(t, call, env, project)
    ensures AdminIn(t.org.members, project, call.actor)
    ensures var after := ProjectStep(t, call, env).tables.org.members;
            (project, call.actor) in after && after[(project, call.actor)] == call.role != Admin
  {
    if call.Assign? {
      UpsertedIs(t.org.members, project, Recipients(t, t.org.teams[call.team].members, env.lostUpserts), call.role);
    }
  }

  // ---- Projects without an admin ----

  lemma StepOnOrphan(c: Crypto, t: Tables, call: Call, env: Env, project: Id)
    requires project in t.org.ids && !HasAdmin(t.org.members, project)
    ensures SameRoster(t.org.members, After(c, t, call, env).org.members, project)
  {
    OnlyProjectCallsChangeMembers(c, t, call, env);
    if call.Project? {
      if NamedProject(call.project) == Some(project) {
        OnlyAdminsAct(t, call.project, env, ProjectStep(t, call.project, env));
      } else {
        OtherRostersStay(t, call.project, env, project);
      }
    }
  }

  /** No run ever changes the members of a project without an admin, let alone gives it one. */
  lemma {:induction false} OrphanIsFrozen(c: Crypto, t: Tables, trace: Trace, project: Id)
    requires project in t.org.ids && !HasAdmin(t.org.members, project)
    ensures SameRoster(t.org.members, Run(c, t, trace).org.members, project)
    ensures !HasAdmin(Run(c, t, trace).org.members, project)
    decreases |trace|
  {
    if trace != [] {
      var (call, env) := trace[0];
      IdsStay(c, t, call, env);
      StepOnOrphan(c, t, call, env, project);
      SameAdmins(t.org.members, After(c, t, call, env).org.members, project);
      OrphanIsFrozen(c, After(c, t, call, env), trace[1..], project);
    }
  }

  /** Some call of the run takes the project's last admin away. */
  ghost predicate LosesSomewhere(c: Crypto, t: Tables, trace: Trace, project: Id)
    decreases |trace|
  {
    trace != [] &&
    ((trace[0].0.Project? && LosesLastAdmin(t, trace[0].0.project, trace[0].1, project))
     || LosesSomewhere(c, After(c, t, trace[0].0, trace[0].1), trace[1..], project))
  }

  /** A run ends with the project orphaned exactly when one of its calls is such a one. */
  lemma {:induction false} OrphanedIff(c: Crypto, t: Tables, trace: Trace, project: Id)
    requires project in t.org.ids && HasAdmin(t.org.members, project)
    ensures !HasAdmin(Run(c, t, trace).org.members, project) <==> LosesSomewhere(c, t, trace, project)
    decreases |trace|
  {
    if trace != [] {
      var (call, env) := trace[0];
      var next := After(c, t, call, env);
      IdsStay(c, t, call, env);
      LastAdminLostIff(c, t, call, env, project);
      if HasAdmin(next.org.members, project) {
        OrphanedIff(c, next, trace[1..], project);
      } else {
        OrphanIsFrozen(c, next, trace[1..], project);
      }
    }
  }

  /**
   After a CreateProject under a new id the project exists without a member, for good, exactly
   when the second of the two inserts failed.
   */
  lemma HalfCreatedStaysEmpty(c: Crypto, t: Tables, actor: Id, env: Env, rest: Trace)
    requires env.id !in t.org.ids && !HasMember(t.org.members, env.id)
    ensures var t' := After(c, t, Project(Create(actor)), env);
            env.id in t'.org.ids && !HasMember(Run(c, t', rest).org.members, env.id)
            <==> actor in t.users.rows && env.fault == Some(1)
  {
    var t' := After(c, t, Project(Create(actor)), env);
    if CreateProject(t, actor, env).reply.Ok? {
      CreatedProjectKeepsAMember(c, t, actor, env, rest);
    } else {
      assert t'.org.members == t.org.members;
      if env.id in t'.org.ids {
        assert forall u :: AdminIn(t'.org.members, env.id, u) ==> (env.id, u) in t.org.members;
        OrphanIsFrozen(c, t', rest, env.id);
      }
    }
  }

  /**
   The comment at internal/project/service.go:107 says that refusing to remove oneself protects
   from orphaned projects. It does not: an admin alone in a project may demote themselves, and
   then no run gives the project an admin again.
   */
  lemma SelfDemotionOrphans(c: Crypto, env: Env, rest: Trace)
    requires env.fault == None
    ensures var t := Run(c, EmptyTables(), [(Auth(Register("ann@example.org", "password")), env.(id := 1)),
                                            (Project(Create(1)), env.(id := 2))]);
            var demotion := ChangeRole(1, 2, 1, Developer);
            && HasAdmin(t.org.members, 2)
            && ProjectStep(t, demotion, env).reply == Ok(Done)
            && !HasAdmin(Run(c, After(c, t, Project(demotion), env), rest).org.members, 2)
  {
    var calls := [(Auth(Register("ann@example.org", "password")), env.(id := 1)), (Project(Create(1)), env.(id := 2))];
    var t1 := After(c, EmptyTables(), calls[0].0, calls[0].1);
    var t := After(c, t1, calls[1].0, calls[1].1);
    assert calls[1..][1..] == [] && Run(c, EmptyTables(), calls) == Run(c, t1, calls[1..]) == Run(c, t, []) == t;
    assert t.org.members == map[(2, 1) := Admin];
    assert AdminIn(t.org.members, 2, 1);
    var call := Project(ChangeRole(1, 2, 1, Developer));
    var t' := After(c, t, call, env);
    assert t'.org.members == map[(2, 1) := Developer];
    OrphanIsFrozen(c, t', rest, 2);
  }
}
