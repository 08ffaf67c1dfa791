/**
 What holds in every run of the rotation protocol: for any number of clients,
 any interleaving of their statements and row visits, and any of them aborting
 at any step.
 */
module RotationSafety {
  import opened VersionRows
  import opened RotationProtocol

  lemma {:induction false} RunKeepsInv<V>(s: State<V>, schedule: Schedule<V>)
    requires Inv(s)
    ensures Inv(Run(s, schedule))
    decreases |schedule|
  {
    if schedule != [] {
      NextKeepsInv(s, schedule[0].0, schedule[0].1);
      RunKeepsInv(Next(s, schedule[0].0, schedule[0].1), schedule[1..]);
    }
  }

  lemma InitInv<V>()
    ensures Inv(Init<V>())
  {
    var s := Init<V>();
    forall c: Client ensures s.Txn(c) == Idle {}
  }

  /** Committed versions are always exactly 1..n, and a created secret always has a current one. */
  lemma CommittedVersions<V>(schedule: Schedule<V>)
    ensures var s := Run(Init(), schedule);
            && Numbered(s.rows)
            && (s.created <==> 1 <= |s.rows|)
            && (s.created ==> Currents(s.rows) != {})
  {
    InitInv<V>();
    RunKeepsInv(Init(), schedule);
    var s := Run(Init(), schedule);
    assert s.rows != map[] <==> 1 <= |s.rows|;
  }

  lemma ReachableInv<V>(schedule: Schedule<V>, c: Client)
    ensures var s := Run(Init(), schedule); Inv(s) && TxnInv(s, s.Txn(c))
  {
    InitInv<V>();
    RunKeepsInv(Init(), schedule);
  }

  /**
   The version number a rotation has chosen is still n+1 when it inserts and when
   it commits, so the unique key never fails it and its payload becomes version n+1.
   */
  lemma RotationCommitsNext<V>(schedule: Schedule<V>, c: Client)
    requires Run(Init(), schedule).Txn(c).WritesFlags()
    ensures var s := Run(Init(), schedule);
            var txn := s.Txn(c);
            && txn.max == |s.rows| && txn.max + 1 !in s.rows
            && (txn.VersionInserted? ==>
                  var after := Committed(s, c).rows;
                  && Numbered(s.rows) && Numbered(after)
                  && History(after) == History(s.rows) + [txn.payload]
                  && txn.max + 1 in Currents(after))
  {
    ReachableInv(schedule, c);
    var s := Run(Init(), schedule);
    if s.Txn(c).VersionInserted? {
      CommittedRotation(s, c);
    }
  }

  lemma CommitAppendsHistory<V>(s: State<V>, c: Client)
    requires Numbered(s.rows) && TxnInv(s, s.Txn(c)) && Numbered(Committed(s, c).rows)
    requires s.created <==> s.rows != map[]
    ensures History(s.rows) <= History(Committed(s, c).rows)
  {
    match s.Txn(c)
    case VersionInserted(_, _, _, _) => CommittedRotation(s, c);
    case Rewriting(_, todo, _, _) => if todo == {} { CommittedRollback(s, c); }
    case _ =>
  }

  lemma NextAppendsHistory<V>(s: State<V>, c: Client, a: Action<V>)
    requires Inv(s)
    ensures Inv(Next(s, c, a)) && History(s.rows) <= History(Next(s, c, a).rows)
  {
    NextKeepsInv(s, c, a);
    assert TxnInv(s, s.Txn(c));
    if a.Commit? {
      CommitAppendsHistory(s, c);
    }
  }

  /** No step of any run changes or drops the payload of a committed version. */
  lemma {:induction false} HistoryOnlyGrows<V>(s: State<V>, schedule: Schedule<V>)
    requires Inv(s)
    ensures Inv(Run(s, schedule)) && History(s.rows) <= History(Run(s, schedule).rows)
    decreases |schedule|
  {
    if schedule != [] {
      NextAppendsHistory(s, schedule[0].0, schedule[0].1);
      HistoryOnlyGrows(Next(s, schedule[0].0, schedule[0].1), schedule[1..]);
    }
  }

  // ---- When a commit has the effect of the whole operation at once ----

  lemma RotationAtomicAt<V>(s: State<V>, c: Client)
    requires Numbered(s.rows) && TxnInv(s, s.Txn(c)) && s.Txn(c).VersionInserted?
    ensures var txn := s.Txn(c);
            var after := Committed(s, c).rows;
            && (after == Rotated(s.rows, txn.payload) <==> Currents(s.rows) <= txn.cleared)
            && (ExactlyOneCurrent(after) <==> Currents(s.rows) <= txn.cleared)
  {
    AppendedIsRotated(s.rows, s.Txn(c).cleared, s.Txn(c).payload);
  }

  /**
   A rotation's commit is the atomic rotation of the rows it finds, and leaves one current
   version, exactly when it has cleared every flag set by then; it has, unless a rollback
   committed after its snapshot.
   */
  lemma RotationAtomic<V>(schedule: Schedule<V>, c: Client)
    requires Run(Init(), schedule).Txn(c).VersionInserted?
    ensures var s := Run(Init(), schedule);
            var txn := s.Txn(c);
            var after := Committed(s, c).rows;
            && (after == Rotated(s.rows, txn.payload) <==> Currents(s.rows) <= txn.cleared)
            && (ExactlyOneCurrent(after) <==> Currents(s.rows) <= txn.cleared)
            && (txn.since == s.rollbacks ==> Currents(s.rows) <= txn.cleared)
  {
    ReachableInv(schedule, c);
    RotationAtomicAt(Run(Init(), schedule), c);
  }

  lemma RollbackAtomicAt<V>(s: State<V>, c: Client)
    requires Numbered(s.rows) && TxnInv(s, s.Txn(c)) && s.Txn(c).Rewriting? && s.Txn(c).todo == {}
    ensures var txn := s.Txn(c);
            var after := Committed(s, c).rows;
            && (after == RolledBack(s.rows, txn.target) <==> forall v | v in Currents(s.rows) :: v <= txn.seen)
            && (ExactlyOneCurrent(after) <==> forall v | v in Currents(s.rows) :: v <= txn.seen)
  {
    var txn := s.Txn(c);
    assert txn.todo + txn.written == txn.written;
    RewrittenIsRolledBack(s.rows, txn.written, txn.target, txn.seen);
  }

  /**
   A rollback's commit is the atomic rollback of the rows it finds, and leaves one current
   version, exactly when no version newer than its snapshot is current; only a rotation
   that commits while the rollback runs can bring one.
   */
  lemma RollbackAtomic<V>(schedule: Schedule<V>, c: Client)
    requires Run(Init(), schedule).Txn(c).Rewriting? && Run(Init(), schedule).Txn(c).todo == {}
    ensures var s := Run(Init(), schedule);
            var txn := s.Txn(c);
            var after := Committed(s, c).rows;
            && (after == RolledBack(s.rows, txn.target) <==> forall v | v in Currents(s.rows) :: v <= txn.seen)
            && (ExactlyOneCurrent(after) <==> forall v | v in Currents(s.rows) :: v <= txn.seen)
            && (txn.seen == |s.rows| ==> forall v | v in Currents(s.rows) :: v <= txn.seen)
  {
    ReachableInv(schedule, c);
    RollbackAtomicAt(Run(Init(), schedule), c);
  }

  // ---- Exactly one current version ----

  /** A rollback is under way while a rotation is writing. */
  ghost predicate Overlap<V>(s: State<V>) {
    exists c: Client, d: Client :: s.Txn(c).WritesFlags() && s.Txn(d).Rewriting?
  }

  ghost predicate NeverOverlaps<V>(s: State<V>, schedule: Schedule<V>)
    decreases |schedule|
  {
    !Overlap(s) && (schedule == [] || NeverOverlaps(Next(s, schedule[0].0, schedule[0].1), schedule[1..]))
  }

  ghost predicate Undisturbed<V>(s: State<V>) {
    && (s.created ==> ExactlyOneCurrent(s.rows))
    && forall c: Client ::
         && (s.Txn(c).WritesFlags() ==> s.Txn(c).since == s.rollbacks)
         && (s.Txn(c).Rewriting? ==> s.Txn(c).seen == |s.rows|)
  }

  lemma CreateStaysUndisturbed<V>(s: State<V>, c: Client)
    requires Inv(s) && s.Txn(c).FirstInserted?
    ensures Undisturbed(Committed(s, c))
  {
    var after := Committed(s, c);
    assert TxnInv(s, s.Txn(c));
    assert Currents(after.rows) == {1};
    forall d: Client ensures !after.Txn(d).WritesFlags() && !after.Txn(d).Rewriting? {
      assert TxnInv(s, s.Txn(d));
    }
  }

  lemma AllCleared<V>(rows: Rows<V>, payload: V)
    requires Numbered(rows)
    ensures var after := ClearRows(rows, Currents(rows))[|rows| + 1 := Row(payload, true)]; Currents(after) == {|after|}
  {
    ClearedAndAppended(rows, Currents(rows), payload);
    assert Currents(rows) - Currents(rows) == {};
  }

  lemma RotationStaysUndisturbed<V>(s: State<V>, c: Client)
    requires Inv(s) && Undisturbed(s) && !Overlap(s) && s.Txn(c).VersionInserted?
    ensures Undisturbed(Committed(s, c))
  {
    var after := Committed(s, c);
    assert TxnInv(s, s.Txn(c));
    assert s.Txn(c).WritesFlags();
    AllCleared(s.rows, s.Txn(c).payload);
    forall d: Client ensures !after.Txn(d).WritesFlags() && !after.Txn(d).Rewriting? {
      assert d != c ==> !s.Txn(d).HoldsSecretLock();
    }
  }

  lemma RollbackStaysUndisturbed<V>(s: State<V>, c: Client)
    requires Inv(s) && Undisturbed(s) && !Overlap(s) && s.Txn(c).Rewriting? && s.Txn(c).todo == {}
    ensures Undisturbed(Committed(s, c))
  {
    var after := Committed(s, c);
    assert TxnInv(s, s.Txn(c));
    RollbackAtomicAt(s, c);
    assert s.Txn(c).seen == |s.rows|;
    forall d: Client ensures !after.Txn(d).WritesFlags() {
      assert d != c ==> after.Txn(d) == s.Txn(d);
    }
    forall d: Client ensures after.Txn(d).Rewriting? ==> after.Txn(d).seen == |after.rows| {
      assert d != c ==> after.Txn(d) == s.Txn(d);
    }
  }

  lemma CommitStaysUndisturbed<V>(s: State<V>, c: Client)
    requires Inv(s) && Undisturbed(s) && !Overlap(s)
    ensures Undisturbed(Committed(s, c))
  {
    match s.Txn(c)
    case FirstInserted(_) => CreateStaysUndisturbed(s, c);
    case VersionInserted(_, _, _, _) => RotationStaysUndisturbed(s, c);
    case Rewriting(_, todo, _, _) => if todo == {} { RollbackStaysUndisturbed(s, c); }
    case _ =>
  }

  lemma NextStaysUndisturbed<V>(s: State<V>, c: Client, a: Action<V>)
    requires Inv(s) && Undisturbed(s) && !Overlap(s)
    ensures Undisturbed(Next(s, c, a))
  {
    if a.Commit? {
      CommitStaysUndisturbed(s, c);
    } else {
      var after := Next(s, c, a);
      forall d: Client ensures d != c ==> after.Txn(d) == s.Txn(d) {}
      assert s.Txn(c).WritesFlags() ==> s.Txn(c).since == s.rollbacks;
    }
  }

  /** A run in which no rollback overlaps a rotation's writes has exactly one current version throughout. */
  lemma {:induction false} ExactlyOneWithoutOverlap<V>(s: State<V>, schedule: Schedule<V>)
    requires Inv(s) && Undisturbed(s) && NeverOverlaps(s, schedule)
    ensures var end := Run(s, schedule); end.created ==> ExactlyOneCurrent(end.rows)
    decreases |schedule|
  {
    if schedule != [] {
      NextKeepsInv(s, schedule[0].0, schedule[0].1);
      NextStaysUndisturbed(s, schedule[0].0, schedule[0].1);
      ExactlyOneWithoutOverlap(Next(s, schedule[0].0, schedule[0].1), schedule[1..]);
    }
  }

  lemma NoOverlapExactlyOne<V>(schedule: Schedule<V>)
    requires NeverOverlaps(Init(), schedule)
    ensures var s := Run(Init(), schedule); s.created ==> ExactlyOneCurrent(s.rows)
  {
    InitInv<V>();
    forall c: Client ensures Init<V>().Txn(c) == Idle {}
    ExactlyOneWithoutOverlap(Init(), schedule);
  }

  /** As long as no rollback has committed, the newest version alone is current. */
  ghost predicate NewestCurrent<V>(s: State<V>) {
    s.created && s.rollbacks == 0 ==> Currents(s.rows) == {|s.rows|}
  }

  lemma CommitKeepsNewest<V>(s: State<V>, c: Client)
    requires Inv(s) && NewestCurrent(s)
    ensures NewestCurrent(Committed(s, c))
  {
    assert TxnInv(s, s.Txn(c));
    if s.Txn(c).VersionInserted? && s.rollbacks == 0 {
      assert s.Txn(c).since == s.rollbacks;
      AllCleared(s.rows, s.Txn(c).payload);
    }
  }

  lemma {:induction false} NewestStaysCurrent<V>(s: State<V>, schedule: Schedule<V>)
    requires Inv(s) && NewestCurrent(s)
    ensures NewestCurrent(Run(s, schedule))
    decreases |schedule|
  {
    if schedule != [] {
      var (c, a) := schedule[0];
      NextKeepsInv(s, c, a);
      if a.Commit? {
        CommitKeepsNewest(s, c);
      }
      NewestStaysCurrent(Next(s, c, a), schedule[1..]);
    }
  }

  /** In every run in which no rollback commits, the newest committed version is the one current version. */
  lemma NewestIsCurrent<V>(schedule: Schedule<V>)
    requires Run(Init(), schedule).rollbacks == 0
    ensures var s := Run(Init(), schedule); s.created ==> Currents(s.rows) == {|s.rows|}
  {
    InitInv<V>();
    NewestStaysCurrent(Init(), schedule);
  }

  // ---- Single runs ----

  ghost predicate Reaches<V(!new)>(s: State<V>, t: State<V>) {
    exists schedule: Schedule<V> :: Run(s, schedule) == t
  }

  lemma {:induction false} RunConcat<V(!new)>(s: State<V>, p: Schedule<V>, q: Schedule<V>)
    ensures Run(s, p + q) == Run(Run(s, p), q)
    decreases |p|
  {
    if p == [] {
      assert p + q == q;
    } else {
      assert (p + q)[1..] == p[1..] + q;
      RunConcat(Next(s, p[0].0, p[0].1), p[1..], q);
    }
  }

  lemma Step<V(!new)>(s: State<V>, c: Client, a: Action<V>, t: State<V>)
    requires Next(s, c, a) == t
    ensures Reaches(s, t)
  {
    assert Run(t, []) == t;
    assert Run(s, [(c, a)]) == t;
  }

  lemma Then<V(!new)>(s: State<V>, t: State<V>, u: State<V>)
    requires Reaches(s, t) && Reaches(t, u)
    ensures Reaches(s, u)
  {
    var p: Schedule<V> :| Run(s, p) == t;
    var q: Schedule<V> :| Run(t, q) == u;
    RunConcat(s, p, q);
  }

  lemma RotationLocks<V(!new)>(s: State<V>, c: Client, payload: V)
    requires s.created && s.Txn(c).Idle? && SecretLockFree(s, c)
    ensures Reaches(s, s.With(c, SecretLocked(payload)))
  {
    var s1 := s.With(c, RotationBegun(payload));
    forall d: Client | d != c ensures !s1.Txn(d).HoldsSecretLock() {
      assert s1.Txn(d) == s.Txn(d);
    }
    Step(s, c, BeginRotation(payload), s1);
    Step(s1, c, LockSecret, s.With(c, SecretLocked(payload)));
    Then(s, s1, s.With(c, SecretLocked(payload)));
  }

  lemma RotationSnapshots<V(!new)>(s: State<V>, c: Client)
    requires Numbered(s.rows) && s.Txn(c).SecretLocked?
    ensures Reaches(s, s.With(c, Clearing(s.Txn(c).payload, |s.rows|, Currents(s.rows), {}, s.rollbacks)))
  {
    MaxOfNumbered(s.rows);
    var s1 := s.With(c, MaxRead(s.Txn(c).payload, |s.rows|));
    var s2 := s.With(c, Clearing(s.Txn(c).payload, |s.rows|, Currents(s.rows), {}, s.rollbacks));
    Step(s, c, ReadMax, s1);
    Step(s1, c, StartClearing, s2);
    Then(s, s1, s2);
  }

  lemma RotationClears<V(!new)>(s: State<V>, c: Client, payload: V, current: nat)
    requires current in Currents(s.rows) && RowFree(s, c, current)
    requires s.Txn(c) == Clearing(payload, |s.rows|, {current}, {}, s.rollbacks)
    ensures Reaches(s, s.With(c, Clearing(payload, |s.rows|, {}, {current}, s.rollbacks)))
  {
    assert {current} - {current} == {} && {} + {current} == {current};
    Step(s, c, ClearRow(current), s.With(c, Clearing(payload, |s.rows|, {}, {current}, s.rollbacks)));
  }

  lemma RotationInserts<V(!new)>(s: State<V>, c: Client, payload: V)
    requires Numbered(s.rows)
    requires s.Txn(c) == Clearing(payload, |s.rows|, {}, Currents(s.rows), s.rollbacks)
    ensures Reaches(s, s.With(c, Idle).(rows := Rotated(s.rows, payload)))
  {
    var s1 := s.With(c, VersionInserted(payload, |s.rows|, Currents(s.rows), s.rollbacks));
    RotatedIs(s.rows, payload);
    Step(s, c, InsertVersion, s1);
    Step(s1, c, Commit, s.With(c, Idle).(rows := Rotated(s.rows, payload)));
    Then(s, s1, s.With(c, Idle).(rows := Rotated(s.rows, payload)));
  }

  /** From the snapshot of its UPDATE to its commit, when one version is current and its row is free. */
  lemma RotationEnds<V(!new)>(s: State<V>, c: Client, payload: V, current: nat)
    requires Numbered(s.rows) && Currents(s.rows) == {current} && RowFree(s, c, current)
    requires s.Txn(c) == Clearing(payload, |s.rows|, {current}, {}, s.rollbacks)
    ensures Reaches(s, s.With(c, Idle).(rows := Rotated(s.rows, payload)))
  {
    var s1 := s.With(c, Clearing(payload, |s.rows|, {}, {current}, s.rollbacks));
    var s2 := s.With(c, Idle).(rows := Rotated(s.rows, payload));
    assert current in Currents(s.rows);
    RotationClears(s, c, payload, current);
    RotationInserts(s1, c, payload);
    assert s1.With(c, Idle).(rows := Rotated(s.rows, payload)) == s2;
    Then(s, s1, s2);
  }

  /** A rotation that nobody disturbs can run to its commit, and does what the serial operation does. */
  lemma RotationAlone<V(!new)>(s: State<V>, c: Client, payload: V, current: nat)
    requires s.created && Numbered(s.rows) && Currents(s.rows) == {current}
    requires forall d: Client :: s.Txn(d) == Idle
    ensures Reaches(s, s.With(c, Idle).(rows := Rotated(s.rows, payload)))
  {
    var s1 := s.With(c, SecretLocked(payload));
    var s2 := s.With(c, Clearing(payload, |s.rows|, {current}, {}, s.rollbacks));
    var s3 := s.With(c, Idle).(rows := Rotated(s.rows, payload));
    RotationLocks(s, c, payload);
    RotationSnapshots(s1, c);
    assert s1.With(c, Clearing(payload, |s.rows|, {current}, {}, s.rollbacks)) == s2;
    forall d: Client | d != c ensures current !in s2.Txn(d).Written() {
      assert s.Txn(d) == Idle;
    }
    RotationEnds(s2, c, payload, current);
    assert s2.With(c, Idle).(rows := Rotated(s.rows, payload)) == s3;
    Then(s, s1, s2);
    Then(s, s2, s3);
  }

  lemma SecretCreated<V(!new)>(a: V)
    ensures Reaches(Init(), State(true, map[1 := Row(a, true)], map[0 := Idle], 0))
  {
    var s0 := Init<V>();
    var s1 := State(false, map[], map[0 := SecretInserted(a)], 0);
    var s2 := State(false, map[], map[0 := FirstInserted(a)], 0);
    var s3 := State(true, map[1 := Row(a, true)], map[0 := Idle], 0);
    assert CreateFree(s0, 0);
    Step(s0, 0, BeginCreate(a), s1);
    Step(s1, 0, InsertFirst, s2);
    Step(s2, 0, Commit, s3);
    Then(s0, s1, s2);
    Then(s0, s2, s3);
  }

  lemma RollbackSnapshots<V(!new)>(s: State<V>, c: Client, target: nat)
    requires s.Txn(c).Idle? && target in s.rows
    ensures Reaches(s, s.With(c, Rewriting(target, s.rows.Keys, {}, |s.rows|)))
  {
    var s1 := s.With(c, TargetVerified(target));
    var s2 := s.With(c, Rewriting(target, s.rows.Keys, {}, |s.rows|));
    Step(s, c, VerifyTarget(target), s1);
    Step(s1, c, StartRewriting, s2);
    Then(s, s1, s2);
  }

  lemma RollbackRewrites<V(!new)>(s: State<V>, c: Client, target: nat, row: nat, seen: nat)
    requires s.Txn(c) == Rewriting(target, {row}, {}, seen) && RowFree(s, c, row)
    ensures Reaches(s, s.With(c, Rewriting(target, {}, {row}, seen)))
  {
    assert {row} - {row} == {} && {} + {row} == {row};
    Step(s, c, RewriteRow(row), s.With(c, Rewriting(target, {}, {row}, seen)));
  }

  /** A rollback that nobody disturbs visits every row its snapshot saw. */
  lemma {:induction false} RollbackVisits<V(!new)>(s: State<V>, c: Client, target: nat, todo: set<nat>,
                                                   written: set<nat>, seen: nat)
    requires s.Txn(c) == Rewriting(target, todo, written, seen) && forall d: Client :: d != c ==> s.Txn(d) == Idle
    ensures Reaches(s, s.With(c, Rewriting(target, {}, written + todo, seen)))
    decreases |todo|
  {
    var done := s.With(c, Rewriting(target, {}, written + todo, seen));
    if todo == {} {
      assert written + todo == written;
      Stays(s, c);
    } else {
      var row :| row in todo;
      var next := s.With(c, Rewriting(target, todo - {row}, written + {row}, seen));
      forall d: Client | d != c ensures row !in s.Txn(d).Written() && next.Txn(d) == Idle {
        assert s.Txn(d) == Idle;
      }
      Step(s, c, RewriteRow(row), next);
      RollbackVisits(next, c, target, todo - {row}, written + {row}, seen);
      assert written + {row} + (todo - {row}) == written + todo;
      assert next.With(c, Rewriting(target, {}, written + todo, seen)) == done;
      Then(s, next, done);
    }
  }

  lemma Stays<V(!new)>(s: State<V>, c: Client)
    requires c in s.txns
    ensures Reaches(s, s.With(c, s.Txn(c)))
  {
    assert s.With(c, s.Txn(c)) == s;
    assert Run(s, []) == s;
  }

  lemma RollbackCommits<V(!new)>(s: State<V>, c: Client, target: nat)
    requires s.Txn(c) == Rewriting(target, {}, s.rows.Keys, |s.rows|)
    ensures Reaches(s, s.With(c, Idle).(rows := RolledBack(s.rows, target), rollbacks := s.rollbacks + 1))
  {
    Step(s, c, Commit, s.With(c, Idle).(rows := RolledBack(s.rows, target), rollbacks := s.rollbacks + 1));
  }

  lemma RollbackRuns<V(!new)>(s: State<V>, c: Client, target: nat)
    requires target in s.rows && forall d: Client :: s.Txn(d) == Idle
    ensures Reaches(s, s.With(c, Rewriting(target, {}, s.rows.Keys, |s.rows|)))
  {
    var s1 := s.With(c, Rewriting(target, s.rows.Keys, {}, |s.rows|));
    RollbackSnapshots(s, c, target);
    forall d: Client | d != c ensures s1.Txn(d) == Idle {
      assert s.Txn(d) == Idle;
    }
    RollbackVisits(s1, c, target, s.rows.Keys, {}, |s.rows|);
    assert {} + s.rows.Keys == s.rows.Keys;
    assert s1.With(c, Rewriting(target, {}, s.rows.Keys, |s.rows|))
        == s.With(c, Rewriting(target, {}, s.rows.Keys, |s.rows|));
    Then(s, s1, s.With(c, Rewriting(target, {}, s.rows.Keys, |s.rows|)));
  }

  /**
   A rollback to an existing version that nobody disturbs can run to its commit, and does what the
   serial one does.
   */
  lemma RollbackAlone<V(!new)>(s: State<V>, c: Client, target: nat)
    requires target in s.rows && forall d: Client :: s.Txn(d) == Idle
    ensures Reaches(s, s.With(c, Idle).(rows := RolledBack(s.rows, target), rollbacks := s.rollbacks + 1))
  {
    var s2 := s.With(c, Rewriting(target, {}, s.rows.Keys, |s.rows|));
    var s3 := s.With(c, Idle).(rows := RolledBack(s.rows, target), rollbacks := s.rollbacks + 1);
    RollbackRuns(s, c, target);
    RollbackCommits(s2, c, target);
    assert s2.With(c, Idle).(rows := RolledBack(s.rows, target), rollbacks := s.rollbacks + 1) == s3;
    Then(s, s2, s3);
  }

  /** A rollback that has one row left to visit. */
  lemma RollbackEnds<V(!new)>(s: State<V>, c: Client, target: nat, row: nat, seen: nat)
    requires s.Txn(c) == Rewriting(target, {row}, {}, seen) && RowFree(s, c, row)
    ensures Reaches(s, s.With(c, Idle).(rows := RewriteRows(s.rows, {row}, target), rollbacks := s.rollbacks + 1))
  {
    var s1 := s.With(c, Rewriting(target, {}, {row}, seen));
    var s2 := s.With(c, Idle).(rows := RewriteRows(s.rows, {row}, target), rollbacks := s.rollbacks + 1);
    RollbackRewrites(s, c, target, row, seen);
    Step(s1, c, Commit, s2);
    Then(s, s1, s2);
  }

  lemma SecretIsLocked<V(!new)>(a: V, b: V)
    ensures Reaches(Init(), State(true, map[1 := Row(a, true)], map[0 := Idle, 1 := SecretLocked(b)], 0))
  {
    var s := State(true, map[1 := Row(a, true)], map[0 := Idle], 0);
    SecretCreated(a);
    RotationLocks(s, 1, b);
    assert s.With(1, SecretLocked(b)).txns == map[0 := Idle, 1 := SecretLocked(b)];
    Then(Init(), s, s.With(1, SecretLocked(b)));
  }

  lemma RotationUnderWay<V(!new)>(a: V, b: V)
    ensures Reaches(Init(), State(true, map[1 := Row(a, true)], map[0 := Idle, 1 := Clearing(b, 1, {1}, {}, 0)], 0))
  {
    var s := State(true, map[1 := Row(a, true)], map[0 := Idle, 1 := SecretLocked(b)], 0);
    SecretIsLocked(a, b);
    assert Currents(s.rows) == {1};
    RotationSnapshots(s, 1);
    assert s.With(1, Clearing(b, 1, {1}, {}, 0)).txns == map[0 := Idle, 1 := Clearing(b, 1, {1}, {}, 0)];
    Then(Init(), s, s.With(1, Clearing(b, 1, {1}, {}, 0)));
  }

  /** The state in which client 1 is about to clear version 1 and client 0 has just taken its snapshot. */
  lemma BothUnderWay<V(!new)>(a: V, b: V)
    ensures Reaches(Init(), State(true, map[1 := Row(a, true)],
                                  map[0 := Rewriting(1, {1}, {}, 1), 1 := Clearing(b, 1, {1}, {}, 0)], 0))
  {
    var s2 := State(true, map[1 := Row(a, true)], map[0 := Idle, 1 := Clearing(b, 1, {1}, {}, 0)], 0);
    RotationUnderWay(a, b);
    assert s2.rows.Keys == {1};
    RollbackSnapshots(s2, 0, 1);
    assert s2.With(0, Rewriting(1, {1}, {}, 1)).txns
        == map[0 := Rewriting(1, {1}, {}, 1), 1 := Clearing(b, 1, {1}, {}, 0)];
    Then(Init(), s2, s2.With(0, Rewriting(1, {1}, {}, 1)));
  }

  lemma SecondVersion<V>(a: V, b: V)
    ensures Currents(map[1 := Row(a, true)]) == {1}
    ensures Rotated(map[1 := Row(a, true)], b) == map[1 := Row(a, false), 2 := Row(b, true)]
  {
    var rows := map[1 := Row(a, true)];
    assert Currents(rows) == {1};
    RotatedIs(rows, b);
    assert ClearRows(rows, {1}) == map[1 := Row(a, false)];
  }

  lemma FirstRewritten<V>(a: V, b: V)
    ensures RewriteRows(map[1 := Row(a, false), 2 := Row(b, true)], {1}, 1) == map[1 := Row(a, true), 2 := Row(b, true)]
  {
  }

  lemma BothCurrent<V>(a: V, b: V)
    ensures Currents(map[1 := Row(a, true), 2 := Row(b, true)]) == {1, 2}
  {
  }

  lemma RotationOvertakes<V(!new)>(a: V, b: V)
    ensures Reaches(State(true, map[1 := Row(a, true)],
                          map[0 := Rewriting(1, {1}, {}, 1), 1 := Clearing(b, 1, {1}, {}, 0)], 0),
                    State(true, map[1 := Row(a, false), 2 := Row(b, true)],
                          map[0 := Rewriting(1, {1}, {}, 1), 1 := Idle], 0))
  {
    var s := State(true, map[1 := Row(a, true)],
                   map[0 := Rewriting(1, {1}, {}, 1), 1 := Clearing(b, 1, {1}, {}, 0)], 0);
    SecondVersion(a, b);
    RotationEnds(s, 1, b, 1);
    assert s.txns[1 := Idle] == map[0 := Rewriting(1, {1}, {}, 1), 1 := Idle];
  }

  lemma RollbackAfter<V(!new)>(a: V, b: V)
    ensures Reaches(State(true, map[1 := Row(a, false), 2 := Row(b, true)],
                          map[0 := Rewriting(1, {1}, {}, 1), 1 := Idle], 0),
                    State(true, map[1 := Row(a, true), 2 := Row(b, true)], map[0 := Idle, 1 := Idle], 1))
  {
    var s := State(true, map[1 := Row(a, false), 2 := Row(b, true)], map[0 := Rewriting(1, {1}, {}, 1), 1 := Idle], 0);
    FirstRewritten(a, b);
    RollbackEnds(s, 0, 1, 1, 1);
    assert s.txns[0 := Idle] == map[0 := Idle, 1 := Idle];
  }

  /**
   "Exactly one" fails without the condition. A rollback to version 1 takes its snapshot while
   a rotation is about to clear that row; it rewrites the row after the rotation's commit
   without having seen version 2, and both stay current.
   */
  lemma OverlapLeavesTwoCurrent<V(!new)>(a: V, b: V)
    ensures exists schedule: Schedule<V> :: Currents(Run(Init(), schedule).rows) == {1, 2}
  {
    BothUnderWay(a, b);
    RotationOvertakes(a, b);
    RollbackAfter(a, b);
    var s := State(true, map[1 := Row(a, true)],
                   map[0 := Rewriting(1, {1}, {}, 1), 1 := Clearing(b, 1, {1}, {}, 0)], 0);
    var s1 := State(true, map[1 := Row(a, false), 2 := Row(b, true)], map[0 := Rewriting(1, {1}, {}, 1), 1 := Idle], 0);
    var s2 := State(true, map[1 := Row(a, true), 2 := Row(b, true)], map[0 := Idle, 1 := Idle], 1);
    Then(Init(), s, s1);
    Then(Init(), s1, s2);
    var schedule: Schedule<V> :| Run(Init(), schedule) == s2;
    BothCurrent(a, b);
  }
}
