/**
 The concurrent protocol refines the serial store: in a run without overlap the committed rows
 are what the committed operations leave when they run one after the other, in commit order.
 */
module RotationSerial {
  import opened VersionRows
  import opened RotationProtocol
  import opened RotationSafety

  datatype Operation<V> = Creation(first: V) | Rotation(payload: V) | Rollback(target: nat)

  /** One operation on the serial store. */
  function Applied<V>(rows: Rows<V>, op: Operation<V>): Rows<V> {
    match op
    case Creation(first) => map[1 := Row(first, true)]
    case Rotation(payload) => Rotated(rows, payload)
    case Rollback(target) => RolledBack(rows, target)
  }

  function AllApplied<V>(rows: Rows<V>, ops: seq<Operation<V>>): Rows<V>
    decreases |ops|
  {
    if ops == [] then rows else AllApplied(Applied(rows, ops[0]), ops[1..])
  }

  /** The operation that a step commits, if it commits one. */
  ghost function CommittedBy<V>(s: State<V>, c: Client, a: Action<V>): seq<Operation<V>> {
    if !a.Commit? then []
    else
      match s.Txn(c)
      case FirstInserted(payload) => [Creation(payload)]
      case VersionInserted(payload, _, _, _) => [Rotation(payload)]
      case Rewriting(target, todo, _, _) => if todo == {} then [Rollback(target)] else []
      case _ => []
  }

  /** The operations of a run, in commit order. */
  ghost function CommittedIn<V>(s: State<V>, schedule: Schedule<V>): seq<Operation<V>>
    decreases |schedule|
  {
    if schedule == [] then []
    else
      CommittedBy(s, schedule[0].0, schedule[0].1)
      + CommittedIn(Next(s, schedule[0].0, schedule[0].1), schedule[1..])
  }

  lemma RotationIsSerial<V>(s: State<V>, c: Client)
    requires Inv(s) && Undisturbed(s) && s.Txn(c).VersionInserted?
    ensures Committed(s, c).rows == Rotated(s.rows, s.Txn(c).payload)
  {
    assert TxnInv(s, s.Txn(c)) && s.Txn(c).WritesFlags();
    RotationAtomicAt(s, c);
  }

  lemma RollbackIsSerial<V>(s: State<V>, c: Client)
    requires Inv(s) && Undisturbed(s) && s.Txn(c).Rewriting? && s.Txn(c).todo == {}
    ensures Committed(s, c).rows == RolledBack(s.rows, s.Txn(c).target)
  {
    assert TxnInv(s, s.Txn(c));
    assert s.Txn(c).seen == |s.rows|;
    RollbackAtomicAt(s, c);
  }

  lemma OneApplied<V>(rows: Rows<V>, op: Operation<V>)
    ensures AllApplied(rows, [op]) == Applied(rows, op)
  {
    assert [op][1..] == [];
  }

  lemma StepIsSerial<V>(s: State<V>, c: Client, a: Action<V>)
    requires Inv(s) && Undisturbed(s)
    ensures Next(s, c, a).rows == AllApplied(s.rows, CommittedBy(s, c, a))
  {
    if a.Commit? {
      match s.Txn(c)
      case FirstInserted(payload) => OneApplied(s.rows, Creation(payload));
      case VersionInserted(payload, _, _, _) =>
        RotationIsSerial(s, c);
        OneApplied(s.rows, Rotation(payload));
      case Rewriting(target, todo, _, _) =>
        if todo == {} {
          RollbackIsSerial(s, c);
          OneApplied(s.rows, Rollback(target));
        }
      case _ =>
    }
  }

  lemma {:induction false} AppliedConcat<V>(rows: Rows<V>, first: seq<Operation<V>>, rest: seq<Operation<V>>)
    ensures AllApplied(rows, first + rest) == AllApplied(AllApplied(rows, first), rest)
    decreases |first|
  {
    if first == [] {
      assert first + rest == rest;
    } else {
      assert (first + rest)[1..] == first[1..] + rest;
      AppliedConcat(Applied(rows, first[0]), first[1..], rest);
    }
  }

  lemma {:induction false} SerialFrom<V>(s: State<V>, schedule: Schedule<V>)
    requires Inv(s) && Undisturbed(s) && NeverOverlaps(s, schedule)
    ensures Run(s, schedule).rows == AllApplied(s.rows, CommittedIn(s, schedule))
    decreases |schedule|
  {
    if schedule != [] {
      var (c, a) := schedule[0];
      var next := Next(s, c, a);
      NextKeepsInv(s, c, a);
      NextStaysUndisturbed(s, c, a);
      StepIsSerial(s, c, a);
      SerialFrom(next, schedule[1..]);
      AppliedConcat(s.rows, CommittedBy(s, c, a), CommittedIn(next, schedule[1..]));
    }
  }

  /**
   In every run in which no rollback overlaps a rotation's writes, the committed rows are what the
   committed operations leave when each runs alone, in commit order.
   */
  lemma RunIsSerial<V>(schedule: Schedule<V>)
    requires NeverOverlaps(Init(), schedule)
    ensures Run(Init(), schedule).rows == AllApplied(map[], CommittedIn(Init(), schedule))
  {
    InitInv<V>();
    forall c: Client ensures Init<V>().Txn(c) == Idle {}
    SerialFrom(Init(), schedule);
  }

  /** Whatever overlaps, the committed versions are the payloads of the creations and rotations, in commit order. */
  function Payloads<V>(ops: seq<Operation<V>>): seq<V> {
    if ops == [] then []
    else
      (match ops[0]
       case Creation(first) => [first]
       case Rotation(payload) => [payload]
       case Rollback(_) => [])
      + Payloads(ops[1..])
  }

  lemma FirstPayload<V>(first: V)
    ensures Numbered(map[1 := Row(first, true)]) && History(map[1 := Row(first, true)]) == [first]
  {
  }

  lemma PayloadsOfOne<V>(op: Operation<V>)
    ensures Payloads([op]) == match op
                              case Creation(first) => [first]
                              case Rotation(payload) => [payload]
                              case Rollback(_) => []
  {
    assert [op][1..] == [] && Payloads<V>([]) == [];
  }

  lemma NoPayloads<V>(history: seq<V>)
    ensures history + Payloads([]) == history
  {
  }

  lemma RollbackPayloads<V>(s: State<V>, c: Client)
    requires Numbered(s.rows) && TxnInv(s, s.Txn(c)) && s.Txn(c).Rewriting?
    ensures Numbered(Committed(s, c).rows) && History(Committed(s, c).rows) == History(s.rows)
    ensures Payloads(CommittedBy(s, c, Commit)) == []
  {
    if s.Txn(c).todo == {} {
      CommittedRollback(s, c);
      PayloadsOfOne(Operation<V>.Rollback(s.Txn(c).target));
    }
  }

  lemma RotationPayloads<V>(s: State<V>, c: Client)
    requires Numbered(s.rows) && TxnInv(s, s.Txn(c)) && s.Txn(c).VersionInserted?
    ensures Numbered(Committed(s, c).rows) && History(Committed(s, c).rows) == History(s.rows) + [s.Txn(c).payload]
    ensures Payloads(CommittedBy(s, c, Commit)) == [s.Txn(c).payload]
  {
    CommittedRotation(s, c);
    PayloadsOfOne(Rotation(s.Txn(c).payload));
  }

  lemma CreationPayloads<V>(s: State<V>, c: Client)
    requires s.rows == map[] && s.Txn(c).FirstInserted?
    ensures Numbered(s.rows) && Numbered(Committed(s, c).rows)
    ensures History(Committed(s, c).rows) == History(s.rows) + [s.Txn(c).payload]
    ensures Payloads(CommittedBy(s, c, Commit)) == [s.Txn(c).payload]
  {
    FirstPayload(s.Txn(c).payload);
    PayloadsOfOne(Creation(s.Txn(c).payload));
  }

  lemma CommitPayloads<V>(s: State<V>, c: Client)
    requires Numbered(s.rows) && TxnInv(s, s.Txn(c)) && (s.created <==> s.rows != map[])
    ensures Numbered(Committed(s, c).rows)
    ensures History(Committed(s, c).rows) == History(s.rows) + Payloads(CommittedBy(s, c, Commit))
  {
    NoPayloads(History(s.rows));
    match s.Txn(c)
    case FirstInserted(_) => CreationPayloads(s, c);
    case VersionInserted(_, _, _, _) => RotationPayloads(s, c);
    case Rewriting(_, _, _, _) => RollbackPayloads(s, c);
    case _ =>
  }

  lemma StepPayloads<V>(s: State<V>, c: Client, a: Action<V>, next: State<V>)
    requires Inv(s) && next == Next(s, c, a)
    ensures Inv(next) && History(next.rows) == History(s.rows) + Payloads(CommittedBy(s, c, a))
  {
    NextKeepsInv(s, c, a);
    if a.Commit? {
      assert TxnInv(s, s.Txn(c));
      CommitPayloads(s, c);
    }
  }

  lemma {:induction false} PayloadsConcat<V>(first: seq<Operation<V>>, rest: seq<Operation<V>>)
    ensures Payloads(first + rest) == Payloads(first) + Payloads(rest)
  {
    if first == [] {
      assert first + rest == rest;
    } else {
      assert (first + rest)[1..] == first[1..] + rest;
      PayloadsConcat(first[1..], rest);
    }
  }

  lemma Associate<T>(a: seq<T>, b: seq<T>, d: seq<T>)
    ensures (a + b) + d == a + (b + d)
  {
  }

  lemma {:induction false} PayloadsFrom<V>(s: State<V>, schedule: Schedule<V>)
    requires Inv(s)
    ensures Inv(Run(s, schedule))
    ensures History(Run(s, schedule).rows) == History(s.rows) + Payloads(CommittedIn(s, schedule))
    decreases |schedule|
  {
    if schedule != [] {
      var (c, a) := schedule[0];
      var next := Next(s, c, a);
      StepPayloads(s, c, a, next);
      PayloadsFrom(next, schedule[1..]);
      PayloadsConcat(CommittedBy(s, c, a), CommittedIn(next, schedule[1..]));
      Associate(History(s.rows), Payloads(CommittedBy(s, c, a)), Payloads(CommittedIn(next, schedule[1..])));
    }
  }

  /** In every run, version k is what the k-th committed creation or rotation stored. */
  lemma VersionsAreCommits<V>(schedule: Schedule<V>)
    ensures Numbered(Run(Init(), schedule).rows)
    ensures History(Run(Init(), schedule).rows) == Payloads(CommittedIn(Init(), schedule))
  {
    InitInv<V>();
    PayloadsFrom(Init(), schedule);
    assert History(Init<V>().rows) == [];
  }
}
