/** A removed member reads nothing of the project until someone adds them back. */
module RemovedMembers {
  import opened Wrappers
  import opened Domain
  import opened ServiceSpec
  import opened ServiceRuns
  import opened SecretReadRules
  import Integrity
  import ProjectMembership

  /** The rows of project_members that the call names to be written: one user's, or those of a team that it reaches. */
  predicate Names(t: Tables, call: ProjectCall, env: Env, project: Id, user: Id) {
    match call
    case Add(_, p, u, _) => p == project && u == user
    case Assign(_, p, team, _) =>
      p == project && team in t.org.teams && user in Recipients(t, t.org.teams[team].members, env.lostUpserts)
    case _ => false
  }

  /** The call succeeds in making the user a member: by adding them, or by assigning a team that reaches them. */
  ghost predicate Readmits(t: Tables, call: Call, env: Env, project: Id, user: Id) {
    call.Project? && Names(t, call.project, env, project, user) && ProjectStep(t, call.project, env).reply.Ok?
  }

  ghost predicate NeverReadmitted(c: Crypto, t: Tables, trace: Trace, project: Id, user: Id)
    decreases |trace|
  {
    trace == []
    || (&& !Readmits(t, trace[0].0, trace[0].1, project, user)
        && NeverReadmitted(c, After(c, t, trace[0].0, trace[0].1), trace[1..], project, user))
  }

  lemma AssignReadmitsIff(t: Tables, call: ProjectCall, env: Env, project: Id, user: Id, out: Outcome)
    requires call.Assign? && (project, user) !in t.org.members && out == ProjectStep(t, call, env)
    ensures (project, user) in out.tables.org.members <==> Names(t, call, env, project, user) && out.reply.Ok?
  {
    if call.team in t.org.teams {
      ProjectMembership.UpsertedIs(t.org.members, call.project,
                                   Recipients(t, t.org.teams[call.team].members, env.lostUpserts), call.role);
    }
  }

  lemma OtherReadmitsIff(t: Tables, call: ProjectCall, env: Env, project: Id, user: Id, out: Outcome)
    requires !call.Assign? && project in t.org.ids && (project, user) !in t.org.members
    requires out == ProjectStep(t, call, env)
    ensures (project, user) in out.tables.org.members <==> Names(t, call, env, project, user) && out.reply.Ok?
  {
  }

  /** Someone who is not a member becomes one exactly by such a call. */
  lemma StepReadmitsIff(c: Crypto, t: Tables, call: Call, env: Env, project: Id, user: Id)
    requires project in t.org.ids && (project, user) !in t.org.members
    ensures (project, user) in After(c, t, call, env).org.members <==> Readmits(t, call, env, project, user)
  {
    ProjectMembership.OnlyProjectCallsChangeMembers(c, t, call, env);
    if call.Project? {
      if call.project.Assign? {
        AssignReadmitsIff(t, call.project, env, project, user, ProjectStep(t, call.project, env));
      } else {
        OtherReadmitsIff(t, call.project, env, project, user, ProjectStep(t, call.project, env));
      }
    }
  }

  lemma {:induction false} StaysOut(c: Crypto, t: Tables, trace: Trace, project: Id, user: Id)
    requires project in t.org.ids && (project, user) !in t.org.members && NeverReadmitted(c, t, trace, project, user)
    ensures (project, user) !in Run(c, t, trace).org.members
    decreases |trace|
  {
    if trace != [] {
      var (call, env) := trace[0];
      ProjectMembership.IdsStay(c, t, call, env);
      StepReadmitsIff(c, t, call, env, project, user);
      StaysOut(c, After(c, t, call, env), trace[1..], project, user);
    }
  }

  lemma NonMemberIsRefused(c: Crypto, t: Tables, p: Principal, secret: Id, env: Env)
    requires p.kind == UserPrincipal && secret in t.vault.secrets
    requires (t.vault.secrets[secret].projectID, p.id) !in t.org.members
    ensures GetSecretValue(c, t, p, secret, env).reply
        == Err(if Live(t, secret, env.now) then NotFound else SecretRevoked)
  {
  }

  /**
   In every run: after a member is removed, every read by them in the project is refused, of old
   secrets and new ones, whatever grants they hold, until a call makes them a member again.
   */
  lemma RemovedMemberIsDenied(c: Crypto, before: Trace, actor: Id, project: Id, user: Id, env: Env, rest: Trace,
                              p: Principal, secret: Id, readEnv: Env, t: Tables, last: Tables)
    requires t == Run(c, EmptyTables(), before) && RemoveMember(t, actor, project, user, env).reply.Ok?
    requires var t' := After(c, t, Project(Remove(actor, project, user)), env);
             NeverReadmitted(c, t', rest, project, user) && last == Run(c, t', rest)
    requires p.kind == UserPrincipal && p.id == user
    requires secret in last.vault.secrets && last.vault.secrets[secret].projectID == project
    ensures GetSecretValue(c, last, p, secret, readEnv).reply
         == Err(if Live(last, secret, readEnv.now) then NotFound else SecretRevoked)
    ensures !MayRead(last, p, secret, readEnv.now)
  {
    Integrity.ReachableSound(c, before);
    assert (project, actor) in t.org.members && project in t.org.ids;
    StaysOut(c, After(c, t, Project(Remove(actor, project, user)), env), rest, project, user);
    NonMemberIsRefused(c, last, p, secret, readEnv);
  }
}
