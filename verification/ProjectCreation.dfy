/** Exactly which projects have a member, in every run. */
module ProjectCreation {
  import opened Wrappers
  import opened Domain
  import opened ServiceSpec
  import opened ServiceRuns
  import opened Integrity
  import opened ProjectMembership

  /** A project that exists and has no member. */
  ghost predicate Memberless(t: Tables, project: Id) {
    project in t.org.ids && !HasMember(t.org.members, project)
  }

  /** A CreateProject that answers with this project. */
  ghost predicate Creates(c: Crypto, t: Tables, call: Call, env: Env, project: Id) {
    call.Project? && call.project.Create? && Step(c, t, call, env).reply == Ok(Created(project))
  }

  /** A CreateProject under this new id whose second insert fails. */
  ghost predicate HalfCreates(t: Tables, call: Call, env: Env, project: Id) {
    && call.Project? && call.project.Create? && env.id == project && project !in t.org.ids
    && call.project.actor in t.users.rows && env.fault == Some(1)
  }

  lemma CreateCall(c: Crypto, t: Tables, actor: Id, env: Env, project: Id, after: Projects)
    requires OrgSound(t.users.rows, t.org) && after == CreateProject(t, actor, env).tables.org
    ensures HasMember(after.members, project)
       <==> HasMember(t.org.members, project) || Creates(c, t, Project(Create(actor)), env, project)
    ensures project in after.ids
       <==> || project in t.org.ids || Creates(c, t, Project(Create(actor)), env, project)
            || HalfCreates(t, Project(Create(actor)), env, project)
  {
    if Creates(c, t, Project(Create(actor)), env, project) {
      assert (project, actor) in after.members;
    } else {
      assert forall u :: (project, u) in after.members <==> (project, u) in t.org.members;
    }
  }

  lemma OtherProjectCall(t: Tables, call: ProjectCall, env: Env, project: Id, after: Projects)
    requires OrgSound(t.users.rows, t.org) && !call.Create? && after == ProjectStep(t, call, env).tables.org
    ensures HasMember(after.members, project) <==> HasMember(t.org.members, project)
    ensures after.ids == t.org.ids
  {
    if NamedProject(call) != Some(project) {
      if project in t.org.ids {
        OtherRostersStay(t, call, env, project);
      } else {
        UnnamedGetsNoMember(t, call, env, project);
      }
    } else if !AdminIn(t.org.members, project, call.actor) {
      OnlyAdminsAct(t, call, env, ProjectStep(t, call, env));
    } else if call.Remove? {
      RemoveKeepsTheActor(t, call.actor, project, call.user, env, after.members);
    } else {
      OnlyRemoveDropsRows(t, call, env);
      assert (project, call.actor) in t.org.members.Keys;
    }
  }

  lemma UnnamedGetsNoMember(t: Tables, call: ProjectCall, env: Env, project: Id)
    requires OrgSound(t.users.rows, t.org) && !call.Create? && project !in t.org.ids
        && NamedProject(call) != Some(project)
    ensures !HasMember(t.org.members, project) && !HasMember(ProjectStep(t, call, env).tables.org.members, project)
  {
    if call.Assign? && call.team in t.org.teams {
      UpsertedIs(t.org.members, call.project, Recipients(t, t.org.teams[call.team].members, env.lostUpserts),
                 call.role);
    }
  }

  /** What one call does to who has a member, and to what exists. */
  lemma StepCreates(c: Crypto, t: Tables, call: Call, env: Env, project: Id)
    requires OrgSound(t.users.rows, t.org)
    ensures var after := After(c, t, call, env).org;
            && (HasMember(after.members, project)
                <==> HasMember(t.org.members, project) || Creates(c, t, call, env, project))
            && (project in after.ids
                <==> project in t.org.ids || Creates(c, t, call, env, project) || HalfCreates(t, call, env, project))
  {
    match call
    case Auth(a) => AuthFrame(t, a, env);
    case Project(Create(actor)) => CreateCall(c, t, actor, env, project, CreateProject(t, actor, env).tables.org);
    case Project(p) => OtherProjectCall(t, p, env, project, ProjectStep(t, p, env).tables.org);
    case Secrets(s) => SecretFrame(c, t, s, env);
    case Access(a) => AccessFrame(t, a, env);
    case Accounts(a) => AccountFrame(t, a, env);
    case Teams(tc) => TeamFrame(t, tc, env);
  }

  ghost predicate CreatedIn(c: Crypto, t: Tables, trace: Trace, project: Id)
    decreases |trace|
  {
    trace != [] &&
    (Creates(c, t, trace[0].0, trace[0].1, project)
     || CreatedIn(c, After(c, t, trace[0].0, trace[0].1), trace[1..], project))
  }

  ghost predicate HalfCreatedIn(c: Crypto, t: Tables, trace: Trace, project: Id)
    decreases |trace|
  {
    trace != [] &&
    (HalfCreates(t, trace[0].0, trace[0].1, project)
     || HalfCreatedIn(c, After(c, t, trace[0].0, trace[0].1), trace[1..], project))
  }

  lemma {:induction false} CreatedFrom(c: Crypto, t: Tables, trace: Trace, project: Id)
    requires Sound(t)
    ensures var last := Run(c, t, trace).org;
            && (HasMember(last.members, project)
                <==> HasMember(t.org.members, project) || CreatedIn(c, t, trace, project))
            && (project in last.ids
                <==> project in t.org.ids || CreatedIn(c, t, trace, project) || HalfCreatedIn(c, t, trace, project))
    decreases |trace|
  {
    if trace != [] {
      var (call, env) := trace[0];
      StepCreates(c, t, call, env, project);
      StepKeepsSound(c, t, call, env, Step(c, t, call, env).tables);
      CreatedFrom(c, After(c, t, call, env), trace[1..], project);
    }
  }

  /** A project that exists is not created half-way again, and one that was created half-way is never created. */
  lemma {:induction false} NotBoth(c: Crypto, t: Tables, trace: Trace, project: Id)
    requires Sound(t) && project in t.org.ids
    ensures !CreatedIn(c, t, trace, project) && !HalfCreatedIn(c, t, trace, project)
    decreases |trace|
  {
    if trace != [] {
      IdsStay(c, t, trace[0].0, trace[0].1);
      StepKeepsSound(c, t, trace[0].0, trace[0].1, Step(c, t, trace[0].0, trace[0].1).tables);
      NotBoth(c, After(c, t, trace[0].0, trace[0].1), trace[1..], project);
    }
  }

  lemma {:induction false} CreatedOnce(c: Crypto, t: Tables, trace: Trace, project: Id)
    requires Sound(t)
    ensures !(CreatedIn(c, t, trace, project) && HalfCreatedIn(c, t, trace, project))
    decreases |trace|
  {
    if trace != [] {
      var (call, env) := trace[0];
      var next := After(c, t, call, env);
      StepCreates(c, t, call, env, project);
      StepKeepsSound(c, t, call, env, Step(c, t, call, env).tables);
      if project in next.org.ids {
        NotBoth(c, next, trace[1..], project);
      } else {
        CreatedOnce(c, next, trace[1..], project);
      }
    }
  }

  /**
   In every run from empty tables a project has a member if and only if a CreateProject of the run
   answered with it, and exists without one if and only if its creation failed between the inserts.
   */
  lemma MemberIff(c: Crypto, trace: Trace, project: Id)
    ensures var t := Run(c, EmptyTables(), trace);
            && (HasMember(t.org.members, project) <==> CreatedIn(c, EmptyTables(), trace, project))
            && (Memberless(t, project) <==> HalfCreatedIn(c, EmptyTables(), trace, project))
  {
    CreatedFrom(c, EmptyTables(), trace, project);
    CreatedOnce(c, EmptyTables(), trace, project);
  }
}
