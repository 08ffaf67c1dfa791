/**
 Rotations and rollbacks of one secret, as PostgreSQL interleaves them under
 READ COMMITTED. Each client runs one transaction, statement by statement, and
 an UPDATE is further split into its snapshot and one step for each row it
 visits. A row that another open transaction has written is locked until that
 transaction ends; once it is free, the UPDATE re-reads the committed row.
 */
module RotationProtocol {
  import opened VersionRows

  type Client = nat

  datatype Txn<V> =
    | Idle
      // CreateSecretWithVersion: the secret row, then version 1
    | SecretInserted(payload: V)
    | FirstInserted(payload: V)
      // RotateInTx
    | RotationBegun(payload: V)
    | SecretLocked(payload: V)
    | MaxRead(payload: V, max: nat)
      // the clearing UPDATE: rows matched by its snapshot but not yet visited, rows it has written,
      // and the number of rollbacks that had committed when it took its snapshot
    | Clearing(payload: V, max: nat, todo: set<nat>, cleared: set<nat>, since: nat)
    | VersionInserted(payload: V, max: nat, cleared: set<nat>, since: nat)
      // RollbackSecret and SetCurrentVersion; `seen` rows were visible to the UPDATE's snapshot
    | TargetVerified(target: nat)
    | Rewriting(target: nat, todo: set<nat>, written: set<nat>, seen: nat)
  {
    /** Holds the FOR UPDATE lock on the secret's row. */
    predicate HoldsSecretLock() {
      SecretLocked? || MaxRead? || WritesFlags()
    }

    /** A rotation between the start of its clearing UPDATE and its end. */
    predicate WritesFlags() {
      Clearing? || VersionInserted?
    }

    predicate Creates() {
      SecretInserted? || FirstInserted?
    }

    /** The rows with an uncommitted write of this transaction. */
    function Written(): set<nat> {
      if Clearing? || VersionInserted? then cleared
      else if Rewriting? then written
      else {}
    }
  }

  /**
   `rows` is what has been committed; `rollbacks` counts committed rollbacks and
   is read by no step, only by the properties below.
   */
  datatype State<V> = State(created: bool, rows: Rows<V>, txns: map<Client, Txn<V>>, rollbacks: nat)
  {
    function Txn(c: Client): Txn<V> {
      if c in txns then txns[c] else Idle
    }

    function With(c: Client, txn: Txn<V>): State<V> {
      this.(txns := txns[c := txn])
    }
  }

  datatype Action<V> =
    | BeginCreate(first: V)
    | InsertFirst
    | BeginRotation(payload: V)
    | LockSecret
    | ReadMax
    | StartClearing
    | ClearRow(row: nat)
    | InsertVersion
    | VerifyTarget(target: nat)
    | StartRewriting
    | RewriteRow(row: nat)
    | Commit
    | Abort

  ghost predicate SecretLockFree<V>(s: State<V>, c: Client) {
    forall d: Client :: d != c ==> !s.Txn(d).HoldsSecretLock()
  }

  ghost predicate RowFree<V>(s: State<V>, c: Client, row: nat) {
    forall d: Client :: d != c ==> row !in s.Txn(d).Written()
  }

  ghost predicate CreateFree<V>(s: State<V>, c: Client) {
    forall d: Client :: d != c ==> !s.Txn(d).Creates()
  }

  /** COMMIT publishes the transaction's writes at once. */
  ghost function Committed<V>(s: State<V>, c: Client): State<V> {
    match s.Txn(c)
    case FirstInserted(payload) =>
      s.With(c, Idle).(created := true, rows := map[1 := Row(payload, true)])
    case VersionInserted(payload, max, cleared, _) =>
      s.With(c, Idle).(rows := ClearRows(s.rows, cleared)[max + 1 := Row(payload, true)])
    case Rewriting(target, todo, written, _) =>
      if todo == {} then
        s.With(c, Idle).(rows := RewriteRows(s.rows, written, target), rollbacks := s.rollbacks + 1)
      else s
    case _ => s
  }

  /**
   Client c's transaction after one of its steps other than COMMIT. An action that is not
   c's next one, or that must wait for a lock, leaves it as it was.
   */
  ghost function Statement<V>(s: State<V>, c: Client, a: Action<V>): Txn<V> {
    var txn := s.Txn(c);
    match a
    case BeginCreate(first) =>
      if txn.Idle? && !s.created && CreateFree(s, c) then SecretInserted(first) else txn
    case InsertFirst =>
      if txn.SecretInserted? then FirstInserted(txn.payload) else txn
    case BeginRotation(payload) =>
      if txn.Idle? then RotationBegun(payload) else txn
    case LockSecret =>
      if !txn.RotationBegun? then txn
      else if !s.created then Idle   // not found
      else if SecretLockFree(s, c) then SecretLocked(txn.payload)
      else txn
    case ReadMax =>
      if txn.SecretLocked? then MaxRead(txn.payload, MaxVersion(s.rows.Keys)) else txn
    case StartClearing =>
      if txn.MaxRead? then Clearing(txn.payload, txn.max, Currents(s.rows), {}, s.rollbacks) else txn
    case ClearRow(row) =>
      if txn.Clearing? && row in txn.todo && row in s.rows && RowFree(s, c, row) then
        var cleared := if s.rows[row].current then txn.cleared + {row} else txn.cleared;
        Clearing(txn.payload, txn.max, txn.todo - {row}, cleared, txn.since)
      else txn
    case InsertVersion =>
      if !(txn.Clearing? && txn.todo == {}) then txn
      else if txn.max + 1 in s.rows then Idle   // UNIQUE (secret_id, version)
      else VersionInserted(txn.payload, txn.max, txn.cleared, txn.since)
    case VerifyTarget(target) =>
      if txn.Idle? && target in s.rows then TargetVerified(target) else txn
    case StartRewriting =>
      if txn.TargetVerified? then Rewriting(txn.target, s.rows.Keys, {}, |s.rows|) else txn
    case RewriteRow(row) =>
      if txn.Rewriting? && row in txn.todo && RowFree(s, c, row) then
        Rewriting(txn.target, txn.todo - {row}, txn.written + {row}, txn.seen)
      else txn
    case Commit => txn
    case Abort => Idle
  }

  ghost function Next<V>(s: State<V>, c: Client, a: Action<V>): State<V> {
    if a.Commit? then Committed(s, c) else s.With(c, Statement(s, c, a))
  }

  /** A schedule says whose step comes next, in any order and for any number of clients. */
  type Schedule<V> = seq<(Client, Action<V>)>

  ghost function Run<V>(s: State<V>, schedule: Schedule<V>): State<V>
    decreases |schedule|
  {
    if schedule == [] then s
    else Run(Next(s, schedule[0].0, schedule[0].1), schedule[1..])
  }

  function Init<V>(): State<V> {
    State(false, map[], map[], 0)
  }

  // ---- What every step keeps ----

  ghost predicate TxnInv<V>(s: State<V>, txn: Txn<V>) {
    match txn
    case Idle => true
    case RotationBegun(_) => true
    case SecretInserted(_) => !s.created
    case FirstInserted(_) => !s.created
    case SecretLocked(_) => s.created
    case MaxRead(_, max) => s.created && max == |s.rows|
    case Clearing(_, max, todo, cleared, since) =>
      && s.created && max == |s.rows| && since <= s.rollbacks
      && todo <= s.rows.Keys && cleared <= Currents(s.rows)
      && (since == s.rollbacks ==> todo + cleared == Currents(s.rows))
    case VersionInserted(_, max, cleared, since) =>
      && s.created && max == |s.rows| && since <= s.rollbacks
      && cleared <= Currents(s.rows)
      && (since == s.rollbacks ==> cleared == Currents(s.rows))
    case TargetVerified(target) => target in s.rows
    case Rewriting(target, todo, written, seen) =>
      && target in todo + written && seen <= |s.rows|
      && forall v: nat :: v in todo + written <==> 1 <= v <= seen
  }

  ghost predicate Inv<V>(s: State<V>) {
    && Numbered(s.rows)
    && (s.created <==> s.rows != map[])
    && (s.created ==> Currents(s.rows) != {})
    && (forall c: Client :: TxnInv(s, s.Txn(c)))
    && (forall c: Client, d: Client :: c != d && s.Txn(c).HoldsSecretLock() ==> !s.Txn(d).HoldsSecretLock())
    && (forall c: Client, d: Client :: c != d && s.Txn(c).Creates() ==> !s.Txn(d).Creates())
    && (forall c: Client, d: Client :: c != d ==> s.Txn(c).Written() !! s.Txn(d).Written())
  }

  /** A step that changes only its own transaction, and takes only free locks. */
  lemma LocalStep<V>(s: State<V>, c: Client, txn: Txn<V>)
    requires Inv(s) && TxnInv(s, txn) && TakesFreeLocks(s, c, txn)
    ensures Inv(s.With(c, txn))
  {
    var after := s.With(c, txn);
    forall d: Client ensures after.Txn(d) == if d == c then txn else s.Txn(d) {}
    forall d: Client ensures TxnInv(after, after.Txn(d)) {
      assert TxnInv(s, s.Txn(d));
    }
    forall d: Client | d != c ensures txn.Written() !! s.Txn(d).Written() {
      forall row | row in txn.Written() ensures row !in s.Txn(d).Written() {
        assert row in s.Txn(c).Written() || RowFree(s, c, row);
      }
    }
  }

  ghost predicate TakesFreeLocks<V>(s: State<V>, c: Client, txn: Txn<V>) {
    && (txn.HoldsSecretLock() ==> s.Txn(c).HoldsSecretLock() || SecretLockFree(s, c))
    && (txn.Creates() ==> s.Txn(c).Creates() || CreateFree(s, c))
    && forall row | row in txn.Written() :: row in s.Txn(c).Written() || RowFree(s, c, row)
  }

  lemma StatementTakesFreeLocks<V>(s: State<V>, c: Client, a: Action<V>)
    ensures TakesFreeLocks(s, c, Statement(s, c, a))
  {
  }

  lemma StatementKeepsTxnInv<V>(s: State<V>, c: Client, a: Action<V>)
    requires Numbered(s.rows) && TxnInv(s, s.Txn(c))
    ensures TxnInv(s, Statement(s, c, a))
  {
    var txn := s.Txn(c);
    if Statement(s, c, a) != txn {
      match a
      case ReadMax => MaxOfNumbered(s.rows);
      case ClearRow(row) =>
        assert txn.since == s.rollbacks ==>
            Statement(s, c, a).todo + Statement(s, c, a).cleared == txn.todo + txn.cleared;
      case InsertVersion =>
        assert txn.todo + txn.cleared == txn.cleared;
      case RewriteRow(row) =>
        assert (txn.todo - {row}) + (txn.written + {row}) == txn.todo + txn.written;
      case _ =>
    }
  }

  /** After a commit the other transactions still satisfy TxnInv, so their locks decide the rest. */
  lemma CommitStep<V>(s: State<V>, c: Client, after: State<V>)
    requires Inv(s)
    requires Numbered(after.rows) && Currents(after.rows) != {} && after.created
    requires after.txns == s.txns[c := Idle]
    requires forall d: Client | d != c :: TxnInv(after, s.Txn(d))
    ensures Inv(after)
  {
    forall d: Client ensures after.Txn(d) == if d == c then Idle else s.Txn(d) {}
    forall d: Client ensures TxnInv(after, after.Txn(d)) {}
    var v :| v in Currents(after.rows);
    assert after.rows != map[];
  }

  lemma CommitCreate<V>(s: State<V>, c: Client)
    requires Inv(s) && s.Txn(c).FirstInserted?
    ensures Inv(Committed(s, c))
  {
    var after := Committed(s, c);
    assert TxnInv(s, s.Txn(c));
    assert 1 in Currents(after.rows);
    forall d: Client | d != c ensures TxnInv(after, s.Txn(d)) {
      assert TxnInv(s, s.Txn(d));
      assert !s.Txn(d).Creates();
    }
    CommitStep(s, c, after);
  }

  /** What a rotation commits: version n+1, current, beside the old rows with the cleared flags down. */
  lemma CommittedRotation<V>(s: State<V>, c: Client)
    requires Numbered(s.rows) && TxnInv(s, s.Txn(c)) && s.Txn(c).VersionInserted?
    ensures var rows, after := s.rows, Committed(s, c).rows;
            var txn := s.Txn(c);
            && txn.max == |rows|
            && Numbered(after) && |after| == |rows| + 1
            && History(after) == History(rows) + [txn.payload]
            && Currents(after) == Currents(rows) - txn.cleared + {|rows| + 1}
  {
    ClearedAndAppended(s.rows, s.Txn(c).cleared, s.Txn(c).payload);
  }

  /** A rotation's commit, seen from a transaction that does not hold the secret's lock. */
  lemma BesideRotation<V>(s: State<V>, c: Client, txn: Txn<V>)
    requires Numbered(s.rows) && TxnInv(s, s.Txn(c)) && s.Txn(c).VersionInserted?
    requires TxnInv(s, txn) && !txn.HoldsSecretLock()
    ensures TxnInv(Committed(s, c), txn)
  {
    CommittedRotation(s, c);
  }

  lemma CommitRotation<V>(s: State<V>, c: Client)
    requires Inv(s) && s.Txn(c).VersionInserted?
    ensures Inv(Committed(s, c))
  {
    assert TxnInv(s, s.Txn(c));
    CommittedRotation(s, c);
    var after := Committed(s, c);
    assert |s.rows| + 1 in Currents(after.rows);
    forall d: Client | d != c ensures TxnInv(after, s.Txn(d)) {
      BesideRotation(s, c, s.Txn(d));
    }
    CommitStep(s, c, after);
  }

  /** What a rollback commits: no payload changes, and only the rows its snapshot saw are rewritten. */
  lemma CommittedRollback<V>(s: State<V>, c: Client)
    requires Numbered(s.rows) && TxnInv(s, s.Txn(c)) && s.Txn(c).Rewriting? && s.Txn(c).todo == {}
    ensures var rows, after := s.rows, Committed(s, c).rows;
            var txn := s.Txn(c);
            && Numbered(after) && History(after) == History(rows)
            && txn.target in rows && txn.target <= txn.seen
            && Currents(after) == (set v | v in Currents(rows) && v > txn.seen) + {txn.target}
  {
    var txn := s.Txn(c);
    assert txn.todo + txn.written == txn.written;
    RewrittenUpTo(s.rows, txn.written, txn.target, txn.seen);
  }

  /** A rollback's commit, seen from a transaction whose written rows are not the rollback's. */
  lemma BesideRollback<V>(s: State<V>, c: Client, txn: Txn<V>)
    requires Numbered(s.rows) && TxnInv(s, s.Txn(c)) && s.Txn(c).Rewriting? && s.Txn(c).todo == {}
    requires TxnInv(s, txn) && s.Txn(c).Written() !! txn.Written()
    ensures TxnInv(Committed(s, c), txn)
  {
    var rows := Committed(s, c).rows;
    if txn.WritesFlags() {
      forall v | v in txn.cleared ensures v in Currents(rows) {
        assert v in txn.Written();
      }
    }
  }

  lemma RollbackLeavesCurrent<V>(s: State<V>, c: Client)
    requires Numbered(s.rows) && TxnInv(s, s.Txn(c)) && s.Txn(c).Rewriting? && s.Txn(c).todo == {}
    ensures Numbered(Committed(s, c).rows) && Currents(Committed(s, c).rows) != {}
  {
    CommittedRollback(s, c);
    assert s.Txn(c).target in Currents(Committed(s, c).rows);
  }

  lemma CommitRollback<V>(s: State<V>, c: Client)
    requires Inv(s) && s.Txn(c).Rewriting? && s.Txn(c).todo == {}
    ensures Inv(Committed(s, c))
  {
    assert TxnInv(s, s.Txn(c));
    RollbackLeavesCurrent(s, c);
    var after := Committed(s, c);
    assert after.created && after.txns == s.txns[c := Idle];
    forall d: Client | d != c ensures TxnInv(after, s.Txn(d)) {
      BesideRollback(s, c, s.Txn(d));
    }
    CommitStep(s, c, after);
  }

  lemma CommitKeepsInv<V>(s: State<V>, c: Client)
    requires Inv(s)
    ensures Inv(Committed(s, c))
  {
    match s.Txn(c)
    case FirstInserted(_) => CommitCreate(s, c);
    case VersionInserted(_, _, _, _) => CommitRotation(s, c);
    case Rewriting(_, todo, _, _) => if todo == {} { CommitRollback(s, c); }
    case _ =>
  }

  lemma NextKeepsInv<V>(s: State<V>, c: Client, a: Action<V>)
    requires Inv(s)
    ensures Inv(Next(s, c, a))
  {
    if a.Commit? {
      CommitKeepsInv(s, c);
    } else {
      assert TxnInv(s, s.Txn(c));
      StatementKeepsTxnInv(s, c, a);
      StatementTakesFreeLocks(s, c, a);
      LocalStep(s, c, Statement(s, c, a));
    }
  }
}
