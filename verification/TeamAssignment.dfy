/** What assigning a team to a project, and unassigning it, does to the members and the links. */
module TeamAssignment {
  import opened Domain
  import opened ServiceSpec
  import opened ProjectMembership

  /** The users that an assignment reaches. */
  function Reached(t: Tables, team: Id, env: Env): set<Id>
    requires team in t.org.teams
  {
    Recipients(t, t.org.teams[team].members, env.lostUpserts)
  }

  /**
   After a successful assignment exactly the team's members whose write went through hold exactly
   the given role in the project, and every other membership is as it was.
   */
  lemma AssignGivesTheRole(t: Tables, actor: Id, project: Id, team: Id, role: ProjectRole, env: Env, out: Outcome)
    requires out == AssignTeam(t, actor, project, team, role, env) && out.reply.Ok?
    ensures team in t.org.teams && out.tables.org.links == t.org.links + {(project, team)}
    ensures forall u | u in t.org.teams[team].members && u in t.users.rows && u !in env.lostUpserts ::
              (project, u) in out.tables.org.members && out.tables.org.members[(project, u)] == role
    ensures forall p, u | p != project || u !in Reached(t, team, env) ::
              && ((p, u) in out.tables.org.members <==> (p, u) in t.org.members)
              && ((p, u) in t.org.members ==> out.tables.org.members[(p, u)] == t.org.members[(p, u)])
  {
    UpsertedIs(t.org.members, project, Reached(t, team, env), role);
  }

  // ---- The loop ----

  /** The members after the upserts of the first `i` members of a team. */
  ghost function AfterUpserts(t: Tables, project: Id, team: seq<Id>, i: nat, role: ProjectRole, lost: set<Id>)
    : (after: Members)
    requires i <= |team|
    decreases i
  {
    if i == 0 then t.org.members
    else
      var before := AfterUpserts(t, project, team, i - 1, role, lost);
      if team[i - 1] in t.users.rows && team[i - 1] !in lost then before[(project, team[i - 1]) := role] else before
  }

  lemma OneMoreRecipient(t: Tables, team: seq<Id>, i: nat, lost: set<Id>)
    requires i < |team|
    ensures Recipients(t, team[..i + 1], lost)
         == Recipients(t, team[..i], lost) + if team[i] in t.users.rows && team[i] !in lost then {team[i]} else {}
  {
    assert team[..i + 1] == team[..i] + [team[i]];
  }

  lemma OneMoreUpsert(members: Members, project: Id, users: set<Id>, user: Id, role: ProjectRole)
    ensures Upserted(members, project, users + {user}, role)
        == Upserted(members, project, users, role)[(project, user) := role]
  {
  }

  lemma OneMoreMember(t: Tables, project: Id, team: seq<Id>, i: nat, role: ProjectRole, lost: set<Id>,
                      before: Members, after: Members)
    requires i < |team| && before == Upserted(t.org.members, project, Recipients(t, team[..i], lost), role)
    requires after == if team[i] in t.users.rows && team[i] !in lost then before[(project, team[i]) := role] else before
    ensures after == Upserted(t.org.members, project, Recipients(t, team[..i + 1], lost), role)
  {
    OneMoreRecipient(t, team, i, lost);
    if team[i] in t.users.rows && team[i] !in lost {
      OneMoreUpsert(t.org.members, project, Recipients(t, team[..i], lost), team[i], role);
    } else {
      assert Recipients(t, team[..i], lost) + {} == Recipients(t, team[..i], lost);
    }
  }

  lemma NoUpserts(t: Tables, project: Id, team: seq<Id>, role: ProjectRole, lost: set<Id>)
    ensures Upserted(t.org.members, project, Recipients(t, team[..0], lost), role) == t.org.members
  {
    var none := Recipients(t, team[..0], lost);
    assert none == {};
    UpsertedIs(t.org.members, project, none, role);
  }

  /** One upsert after the other is all of them at once, whatever the order. */
  lemma {:induction false} UpsertsAre(t: Tables, project: Id, team: seq<Id>, i: nat, role: ProjectRole, lost: set<Id>)
    requires i <= |team|
    ensures AfterUpserts(t, project, team, i, role, lost)
         == Upserted(t.org.members, project, Recipients(t, team[..i], lost), role)
    decreases i
  {
    if i == 0 {
      NoUpserts(t, project, team, role, lost);
    } else {
      var before := AfterUpserts(t, project, team, i - 1, role, lost);
      UpsertsAre(t, project, team, i - 1, role, lost);
      OneMoreMember(t, project, team, i - 1, role, lost, before, AfterUpserts(t, project, team, i, role, lost));
    }
  }

  /** The order in which the loop meets the team's members does not matter, nor do repetitions. */
  lemma LoopOrderDoesNotMatter(t: Tables, project: Id, one: seq<Id>, other: seq<Id>, role: ProjectRole, lost: set<Id>)
    requires forall u :: u in one <==> u in other
    ensures AfterUpserts(t, project, one, |one|, role, lost) == AfterUpserts(t, project, other, |other|, role, lost)
  {
    UpsertsAre(t, project, one, |one|, role, lost);
    UpsertsAre(t, project, other, |other|, role, lost);
    assert one[..|one|] == one && other[..|other|] == other;
    assert Recipients(t, one, lost) == Recipients(t, other, lost) by {
      forall u ensures u in Recipients(t, one, lost) <==> u in Recipients(t, other, lost) {
        assert u in one <==> u in other;
      }
    }
  }

  // ---- Again, and back ----

  lemma UpsertTwice(members: Members, project: Id, users: set<Id>, more: set<Id>, role: ProjectRole)
    ensures Upserted(Upserted(members, project, users, role), project, more, role)
         == Upserted(members, project, users + more, role)
  {
    var once := Upserted(members, project, users, role);
    UpsertedIs(members, project, users, role);
    UpsertedIs(once, project, more, role);
    UpsertedIs(members, project, users + more, role);
    var twice, both := Upserted(once, project, more, role), Upserted(members, project, users + more, role);
    forall key ensures (key in twice <==> key in both) && (key in both ==> twice[key] == both[key]) {
      var (p, u) := key;
      assert (p, u) in twice <==> (p, u) in both;
    }
  }

  /** Two rounds of upserts, some of them lost, are one round in which only those are lost that are lost both times. */
  lemma RoundsCombine(t: Tables, u: Tables, project: Id, team: seq<Id>, role: ProjectRole, lost: set<Id>,
                      again: set<Id>, once: Members, twice: Members)
    requires u.users == t.users
    requires once == Upserted(t.org.members, project, Recipients(t, team, lost), role)
    requires twice == Upserted(once, project, Recipients(u, team, again), role)
    ensures twice == Upserted(t.org.members, project, Recipients(t, team, lost * again), role)
    ensures lost <= again ==> twice == once
  {
    var users, more := Recipients(t, team, lost), Recipients(u, team, again);
    UpsertTwice(t.org.members, project, users, more, role);
    assert users + more == Recipients(t, team, lost * again);
    assert lost <= again ==> users + more == users;
  }

  /** The actor keeps the admin role through the assignment. */
  predicate ActorStays(t: Tables, actor: Id, team: Id, role: ProjectRole, env: Env)
    requires team in t.org.teams
  {
    role == Admin || actor !in Reached(t, team, env)
  }

  /**
   Assigning twice is assigning once, with only those writes lost that are lost both times; so it
   changes nothing unless a write that was lost goes through. The second call is refused exactly
   when a statement of it fails or the first one took the admin role from the actor, and then it
   changes nothing.
   */
  lemma AssignIsIdempotent(t: Tables, actor: Id, project: Id, team: Id, role: ProjectRole, env: Env, out: Outcome,
                           again: Env)
    requires out == AssignTeam(t, actor, project, team, role, env) && out.reply.Ok?
    ensures var second := AssignTeam(out.tables, actor, project, team, role, again);
            var once := AssignTeam(t, actor, project, team, role,
                                   env.(lostUpserts := env.lostUpserts * again.lostUpserts));
            && (second.reply.Ok? <==> ActorStays(t, actor, team, role, env) && !FailsWithin(again.fault, 2))
            && (second.reply.Ok? ==> second.tables.org == once.tables.org)
            && (second.reply.Err? || env.lostUpserts <= again.lostUpserts ==> second.tables.org == out.tables.org)
  {
    var second := AssignTeam(out.tables, actor, project, team, role, again);
    UpsertedIs(t.org.members, project, Reached(t, team, env), role);
    assert out.tables.org.links + {(project, team)} == out.tables.org.links;
    if second.reply.Ok? {
      RoundsCombine(t, out.tables, project, t.org.teams[team].members, role, env.lostUpserts, again.lostUpserts,
                    out.tables.org.members, second.tables.org.members);
    }
  }

  /**
   Unassigning takes the link away again and nothing else: the members that the assignment added
   or changed stay. It succeeds exactly when the actor is still an admin
   and the statement does not fail; else it changes nothing.
   */
  lemma AssignThenUnassign(t: Tables, actor: Id, project: Id, team: Id, role: ProjectRole, env: Env, out: Outcome,
                           later: Env)
    requires out == AssignTeam(t, actor, project, team, role, env) && out.reply.Ok?
    ensures var undone := UnassignTeam(out.tables, actor, project, team, later);
            && (undone.reply.Ok? <==> ActorStays(t, actor, team, role, env) && !FailsAt(later.fault, 0))
            && undone.tables.org.members == out.tables.org.members
            && (undone.reply.Ok? ==> undone.tables.org.links == t.org.links - {(project, team)})
            && (undone.reply.Ok? && (project, team) !in t.org.links ==> undone.tables.org.links == t.org.links)
            && (undone.reply.Err? ==> undone.tables == out.tables)
  {
    UpsertedIs(t.org.members, project, Reached(t, team, env), role);
  }
}
