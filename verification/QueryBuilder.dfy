/**
 The two query builders, and what the database makes of their queries. A query is its list of
 conditions, each on a numbered placeholder, with the argument list.
 */
module QueryBuilder {
  import opened Wrappers
  import opened Domain
  import opened LikePattern

  datatype Arg =
    | IdArg(id: Id) | Text(s: string) | TagList(tags: seq<string>) | Instant(t: Time) | Number(n: int)
    | EnvironmentArg(e: Environment) | StatusArg(status: Status) | EventArg(event: EventType)

  /** A column with its operator: =, ILIKE, @>, >= or <=. */
  datatype Column =
    | ProjectEq | EnvironmentEq | StatusEq | NameILike | TagsContain
    | ActorEq | SecretEq | EventTypeEq | CreatedFrom | CreatedTo

  /** One condition, such as `status = $3`. */
  datatype Cond = Cond(column: Column, placeholder: nat)

  // ---- What the database makes of a query ----

  datatype TableRow = SecretRow(secret: Secret) | EventRow(event: AuditEvent)

  /** A condition on a row of `secrets` or `audit_events`; a comparison with NULL does not hold. */
  predicate Holds(c: Cond, args: seq<Arg>, row: TableRow) {
    && 1 <= c.placeholder <= |args|
    && var arg := args[c.placeholder - 1];
       match row {
         case SecretRow(s) =>
           (match c.column
            case ProjectEq => arg == IdArg(s.projectID)
            case EnvironmentEq => arg == EnvironmentArg(s.environment)
            case StatusEq => arg == StatusArg(s.status)
            case NameILike => arg.Text? && ILike(s.name, arg.s)
            case TagsContain => arg.TagList? && forall t | t in arg.tags :: t in s.tags
            case _ => false)
         case EventRow(e) =>
           (match c.column
            case ProjectEq => e.projectID.Some? && arg == IdArg(e.projectID.value)
            case ActorEq => e.actorUserID.Some? && arg == IdArg(e.actorUserID.value)
            case SecretEq => e.secretID.Some? && arg == IdArg(e.secretID.value)
            case EventTypeEq => arg == EventArg(e.eventType)
            case CreatedFrom => arg.Instant? && e.createdAt >= arg.t
            case CreatedTo => arg.Instant? && e.createdAt <= arg.t
            case _ => false)
       }
  }

  predicate AllHold(conds: seq<Cond>, args: seq<Arg>, row: TableRow) {
    forall i | 0 <= i < |conds| :: Holds(conds[i], args, row)
  }

  function CreatedAt(row: TableRow): Time {
    match row
    case SecretRow(s) => s.createdAt
    case EventRow(e) => e.createdAt
  }

  /** WHERE */
  function Where(table: seq<TableRow>, conds: seq<Cond>, args: seq<Arg>): seq<TableRow> {
    if table == [] then []
    else (if AllHold(conds, args, table[0]) then [table[0]] else []) + Where(table[1..], conds, args)
  }

  function InsertNewest(row: TableRow, rows: seq<TableRow>): seq<TableRow> {
    if rows == [] || CreatedAt(row) >= CreatedAt(rows[0]) then [row] + rows
    else [rows[0]] + InsertNewest(row, rows[1..])
  }

  /** ORDER BY created_at DESC */
  function NewestFirst(rows: seq<TableRow>): seq<TableRow> {
    if rows == [] then [] else InsertNewest(rows[0], NewestFirst(rows[1..]))
  }

  /** LIMIT and OFFSET */
  function Page(rows: seq<TableRow>, limit: nat, offset: nat): seq<TableRow> {
    var rest := if offset <= |rows| then rows[offset..] else [];
    if limit <= |rest| then rest[..limit] else rest
  }

  // ---- Building ----

  /** Every placeholder denotes its own argument: the i-th condition uses the i-th. */
  predicate NumberedInOrder(conds: seq<Cond>) {
    forall i | 0 <= i < |conds| :: conds[i].placeholder == i + 1
  }

  /** One condition before it is numbered: a column and the argument it is compared with. */
  datatype Field = Field(column: Column, arg: Arg)

  /** The conditions and arguments spell out the fields, one by one. */
  ghost predicate Codes(conds: seq<Cond>, args: seq<Arg>, fields: seq<Field>) {
    && |conds| == |fields| <= |args|
    && forall i | 0 <= i < |fields| :: conds[i] == Cond(fields[i].column, i + 1) && args[i] == fields[i].arg
  }

  predicate FieldHolds(field: Field, row: TableRow) {
    Holds(Cond(field.column, 1), [field.arg], row)
  }

  ghost predicate AllFieldsHold(fields: seq<Field>, row: TableRow) {
    forall i | 0 <= i < |fields| :: FieldHolds(fields[i], row)
  }

  lemma FieldsConcat(a: seq<Field>, b: seq<Field>, row: TableRow)
    ensures AllFieldsHold(a + b, row) <==> AllFieldsHold(a, row) && AllFieldsHold(b, row)
  {
    if AllFieldsHold(a + b, row) {
      assert forall i | 0 <= i < |a| :: (a + b)[i] == a[i];
      assert forall i | 0 <= i < |b| :: (a + b)[|a| + i] == b[i];
    }
  }

  lemma OneField(column: Column, arg: Arg, row: TableRow)
    ensures AllFieldsHold([Field(column, arg)], row) <==> Holds(Cond(column, 1), [arg], row)
  {
    assert [Field(column, arg)][0] == Field(column, arg);
  }

  lemma CodesMean(conds: seq<Cond>, args: seq<Arg>, fields: seq<Field>, row: TableRow)
    requires Codes(conds, args, fields)
    ensures AllHold(conds, args, row) <==> AllFieldsHold(fields, row)
  {
    forall i | 0 <= i < |fields| ensures Holds(conds[i], args, row) <==> FieldHolds(fields[i], row) {
      assert conds[i] == Cond(fields[i].column, i + 1) && args[i] == fields[i].arg;
    }
  }

  /** What one optional field of a filter adds to the fields before it. */
  function Optional(column: Column, arg: Option<Arg>): seq<Field> {
    if arg.Some? then [Field(column, arg.value)] else []
  }

  /**
   One `if field != nil` block of a builder: when the field is set, one more condition on
   placeholder `idx`, one more argument, and the next `idx`.
   */
  method AppendIfSet(conds: seq<Cond>, args: seq<Arg>, idx: nat, column: Column, arg: Option<Arg>,
                     ghost fields: seq<Field>, ghost fields': seq<Field>)
    returns (conds': seq<Cond>, args': seq<Arg>, idx': nat)
    requires Codes(conds, args, fields) && |fields| == |args| && idx == |args| + 1
    requires fields' == fields + Optional(column, arg)
    ensures Codes(conds', args', fields') && |fields'| == |args'| && idx' == |args'| + 1
  {
    conds', args', idx' := conds, args, idx;
    if arg.Some? {
      conds' := conds' + [Cond(column, idx')];
      args' := args' + [arg.value];
      idx' := idx' + 1;
    }
  }

  datatype SecretFilter = SecretFilter(environment: Option<Environment>, status: Option<Status>, name: Option<string>,
                                       tags: seq<string>)

  /** What the filter means. */
  predicate SecretMatches(projectID: Id, f: SecretFilter, row: TableRow) {
    && row.SecretRow?
    && row.secret.projectID == projectID
    && (f.environment.Some? ==> row.secret.environment == f.environment.value)
    && (f.status.Some? ==> row.secret.status == f.status.value)
    && (f.name.Some? ==> ILike(row.secret.name, Substring(f.name.value)))
    && forall t | t in f.tags :: t in row.secret.tags
  }

  /** The k-th field of the filter; field 0 is the project. */
  function SecretColumn(k: nat): Column {
    match k
    case 0 => ProjectEq
    case 1 => EnvironmentEq
    case 2 => StatusEq
    case 3 => NameILike
    case _ => TagsContain
  }

  function SecretArg(projectID: Id, f: SecretFilter, k: nat): Option<Arg> {
    match k
    case 0 => Some(IdArg(projectID))
    case 1 => if f.environment.Some? then Some(EnvironmentArg(f.environment.value)) else None
    case 2 => if f.status.Some? then Some(StatusArg(f.status.value)) else None
    case 3 => if f.name.Some? then Some(Text("%" + f.name.value + "%")) else None
    case _ => if |f.tags| > 0 then Some(TagList(f.tags)) else None
  }

  function SecretField(projectID: Id, f: SecretFilter, k: nat): seq<Field> {
    Optional(SecretColumn(k), SecretArg(projectID, f, k))
  }

  function SecretFields(projectID: Id, f: SecretFilter, k: nat): seq<Field> {
    if k == 0 then [] else SecretFields(projectID, f, k - 1) + SecretField(projectID, f, k - 1)
  }

  lemma SecretFieldsMean(projectID: Id, f: SecretFilter, s: Secret)
    ensures AllFieldsHold(SecretFields(projectID, f, 5), SecretRow(s)) <==> SecretMatches(projectID, f, SecretRow(s))
  {
    var row := SecretRow(s);
    FieldsConcat(SecretFields(projectID, f, 4), SecretField(projectID, f, 4), row);
    FieldsConcat(SecretFields(projectID, f, 3), SecretField(projectID, f, 3), row);
    FieldsConcat(SecretFields(projectID, f, 2), SecretField(projectID, f, 2), row);
    FieldsConcat(SecretFields(projectID, f, 1), SecretField(projectID, f, 1), row);
    FieldsConcat(SecretFields(projectID, f, 0), SecretField(projectID, f, 0), row);
    OneField(ProjectEq, IdArg(projectID), row);
    if f.environment.Some? { OneField(EnvironmentEq, EnvironmentArg(f.environment.value), row); }
    if f.status.Some? { OneField(StatusEq, StatusArg(f.status.value), row); }
    if f.name.Some? { OneField(NameILike, Text(Substring(f.name.value)), row); }
    if |f.tags| > 0 { OneField(TagsContain, TagList(f.tags), row); }
  }

  lemma SecretCodesSelect(conds: seq<Cond>, args: seq<Arg>, projectID: Id, f: SecretFilter)
    requires Codes(conds, args, SecretFields(projectID, f, 5))
    ensures forall s :: AllHold(conds, args, SecretRow(s)) <==> SecretMatches(projectID, f, SecretRow(s))
  {
    forall s ensures AllHold(conds, args, SecretRow(s)) <==> SecretMatches(projectID, f, SecretRow(s)) {
      CodesMean(conds, args, SecretFields(projectID, f, 5), SecretRow(s));
      SecretFieldsMean(projectID, f, s);
    }
  }

  /** `limitAt` and `offsetAt` are the placeholders of LIMIT and OFFSET. */
  datatype Query = Query(conds: seq<Cond>, args: seq<Arg>, limitAt: nat, offsetAt: nat)

  method BuildSecretQuery(projectID: Id, f: SecretFilter, limit: int, offset: int) returns (q: Query)
    ensures |q.args| == |q.conds| + 2 && NumberedInOrder(q.conds)
    ensures q.limitAt == |q.args| - 1 && q.args[q.limitAt - 1] == Number(limit)
    ensures q.offsetAt == |q.args| && q.args[q.offsetAt - 1] == Number(offset)
    ensures forall s :: AllHold(q.conds, q.args, SecretRow(s)) <==> SecretMatches(projectID, f, SecretRow(s))
  {
    var args := [IdArg(projectID)];
    var idx := 2;
    var conds := [Cond(ProjectEq, 1)];
    assert SecretFields(projectID, f, 1) == [Field(ProjectEq, IdArg(projectID))];
    conds, args, idx := AppendIfSet(conds, args, idx, SecretColumn(1), SecretArg(projectID, f, 1),
                                    SecretFields(projectID, f, 1), SecretFields(projectID, f, 2));
    conds, args, idx := AppendIfSet(conds, args, idx, SecretColumn(2), SecretArg(projectID, f, 2),
                                    SecretFields(projectID, f, 2), SecretFields(projectID, f, 3));
    conds, args, idx := AppendIfSet(conds, args, idx, SecretColumn(3), SecretArg(projectID, f, 3),
                                    SecretFields(projectID, f, 3), SecretFields(projectID, f, 4));
    conds, args, idx := AppendIfSet(conds, args, idx, SecretColumn(4), SecretArg(projectID, f, 4),
                                    SecretFields(projectID, f, 4), SecretFields(projectID, f, 5));
    q := Query(conds, args + [Number(limit), Number(offset)], idx, idx + 1);
    SecretCodesSelect(q.conds, q.args, projectID, f);
  }

  datatype AuditFilter = AuditFilter(projectID: Option<Id>, actorUserID: Option<Id>, secretID: Option<Id>,
                                     eventType: Option<EventType>, from: Option<Time>, to: Option<Time>, limit: int)

  /** What the filter means. */
  predicate EventMatches(f: AuditFilter, row: TableRow) {
    && row.EventRow?
    && (f.projectID.Some? ==> row.event.projectID == f.projectID)
    && (f.actorUserID.Some? ==> row.event.actorUserID == f.actorUserID)
    && (f.secretID.Some? ==> row.event.secretID == f.secretID)
    && (f.eventType.Some? ==> row.event.eventType == f.eventType.value)
    && (f.from.Some? ==> row.event.createdAt >= f.from.value)
    && (f.to.Some? ==> row.event.createdAt <= f.to.value)
  }

  /** The k-th field of the filter. */
  function EventColumn(k: nat): Column {
    match k
    case 0 => ProjectEq
    case 1 => ActorEq
    case 2 => SecretEq
    case 3 => EventTypeEq
    case 4 => CreatedFrom
    case _ => CreatedTo
  }

  function EventArgument(f: AuditFilter, k: nat): Option<Arg> {
    match k
    case 0 => if f.projectID.Some? then Some(IdArg(f.projectID.value)) else None
    case 1 => if f.actorUserID.Some? then Some(IdArg(f.actorUserID.value)) else None
    case 2 => if f.secretID.Some? then Some(IdArg(f.secretID.value)) else None
    case 3 => if f.eventType.Some? then Some(EventArg(f.eventType.value)) else None
    case 4 => if f.from.Some? then Some(Instant(f.from.value)) else None
    case _ => if f.to.Some? then Some(Instant(f.to.value)) else None
  }

  function EventField(f: AuditFilter, k: nat): seq<Field> {
    Optional(EventColumn(k), EventArgument(f, k))
  }

  function EventFields(f: AuditFilter, k: nat): seq<Field> {
    if k == 0 then [] else EventFields(f, k - 1) + EventField(f, k - 1)
  }

  lemma WhoFieldsMean(f: AuditFilter, e: AuditEvent)
    ensures AllFieldsHold(EventFields(f, 3), EventRow(e))
       <==> && (f.projectID.Some? ==> e.projectID == f.projectID)
            && (f.actorUserID.Some? ==> e.actorUserID == f.actorUserID)
            && (f.secretID.Some? ==> e.secretID == f.secretID)
  {
    var row := EventRow(e);
    FieldsConcat(EventFields(f, 2), EventField(f, 2), row);
    FieldsConcat(EventFields(f, 1), EventField(f, 1), row);
    FieldsConcat(EventFields(f, 0), EventField(f, 0), row);
    if f.projectID.Some? { OneField(ProjectEq, IdArg(f.projectID.value), row); }
    if f.actorUserID.Some? { OneField(ActorEq, IdArg(f.actorUserID.value), row); }
    if f.secretID.Some? { OneField(SecretEq, IdArg(f.secretID.value), row); }
  }

  lemma EventFieldsMean(f: AuditFilter, e: AuditEvent)
    ensures AllFieldsHold(EventFields(f, 6), EventRow(e)) <==> EventMatches(f, EventRow(e))
  {
    var row := EventRow(e);
    WhoFieldsMean(f, e);
    FieldsConcat(EventFields(f, 5), EventField(f, 5), row);
    FieldsConcat(EventFields(f, 4), EventField(f, 4), row);
    FieldsConcat(EventFields(f, 3), EventField(f, 3), row);
    if f.eventType.Some? { OneField(EventTypeEq, EventArg(f.eventType.value), row); }
    if f.from.Some? { OneField(CreatedFrom, Instant(f.from.value), row); }
    if f.to.Some? { OneField(CreatedTo, Instant(f.to.value), row); }
  }

  lemma EventCodesSelect(conds: seq<Cond>, args: seq<Arg>, f: AuditFilter)
    requires Codes(conds, args, EventFields(f, 6))
    ensures forall e :: AllHold(conds, args, EventRow(e)) <==> EventMatches(f, EventRow(e))
  {
    forall e ensures AllHold(conds, args, EventRow(e)) <==> EventMatches(f, EventRow(e)) {
      CodesMean(conds, args, EventFields(f, 6), EventRow(e));
      EventFieldsMean(f, e);
    }
  }

  /** The limit stands in the text itself. */
  datatype EventQuery = EventQuery(conds: seq<Cond>, args: seq<Arg>, limit: nat)

  method BuildEventQuery(f: AuditFilter) returns (q: EventQuery)
    ensures |q.args| == |q.conds| && NumberedInOrder(q.conds)
    ensures forall e :: AllHold(q.conds, q.args, EventRow(e)) <==> EventMatches(f, EventRow(e))
    ensures 1 <= q.limit <= 500 && (1 <= f.limit <= 500 ==> q.limit == f.limit)
    ensures f.limit < 1 || f.limit > 500 ==> q.limit == 100
  {
    var conds: seq<Cond>, args: seq<Arg>, idx := [], [], 1;
    conds, args, idx := AppendIfSet(conds, args, idx, EventColumn(0), EventArgument(f, 0),
                                    EventFields(f, 0), EventFields(f, 1));
    conds, args, idx := AppendIfSet(conds, args, idx, EventColumn(1), EventArgument(f, 1),
                                    EventFields(f, 1), EventFields(f, 2));
    conds, args, idx := AppendIfSet(conds, args, idx, EventColumn(2), EventArgument(f, 2),
                                    EventFields(f, 2), EventFields(f, 3));
    conds, args, idx := AppendIfSet(conds, args, idx, EventColumn(3), EventArgument(f, 3),
                                    EventFields(f, 3), EventFields(f, 4));
    conds, args, idx := AppendIfSet(conds, args, idx, EventColumn(4), EventArgument(f, 4),
                                    EventFields(f, 4), EventFields(f, 5));
    conds, args, idx := AppendIfSet(conds, args, idx, EventColumn(5), EventArgument(f, 5),
                                    EventFields(f, 5), EventFields(f, 6));
    var limit := 100;
    if f.limit > 0 && f.limit <= 500 {
      limit := f.limit;
    }
    q := EventQuery(conds, args, limit);
    EventCodesSelect(q.conds, q.args, f);
  }

  // ---- The rows a caller gets ----

  /** The rows of a table that a filter matches, in table order. */
  function MatchingSecrets(table: seq<TableRow>, projectID: Id, f: SecretFilter): seq<TableRow> {
    if table == [] then []
    else (if SecretMatches(projectID, f, table[0]) then [table[0]] else []) + MatchingSecrets(table[1..], projectID, f)
  }

  function MatchingEvents(table: seq<TableRow>, f: AuditFilter): seq<TableRow> {
    if table == [] then []
    else (if EventMatches(f, table[0]) then [table[0]] else []) + MatchingEvents(table[1..], f)
  }

  lemma {:induction false} WhereIsMatchingSecrets(table: seq<TableRow>, conds: seq<Cond>, args: seq<Arg>,
                                                  projectID: Id, f: SecretFilter)
    requires forall row | row in table :: row.SecretRow?
    requires forall s :: AllHold(conds, args, SecretRow(s)) <==> SecretMatches(projectID, f, SecretRow(s))
    ensures Where(table, conds, args) == MatchingSecrets(table, projectID, f)
  {
    if table != [] {
      assert table[0] in table && table[0] == SecretRow(table[0].secret);
      WhereIsMatchingSecrets(table[1..], conds, args, projectID, f);
    }
  }

  lemma {:induction false} WhereIsMatchingEvents(table: seq<TableRow>, conds: seq<Cond>, args: seq<Arg>, f: AuditFilter)
    requires forall row | row in table :: row.EventRow?
    requires forall e :: AllHold(conds, args, EventRow(e)) <==> EventMatches(f, EventRow(e))
    ensures Where(table, conds, args) == MatchingEvents(table, f)
  {
    if table != [] {
      assert table[0] in table && table[0] == EventRow(table[0].event);
      WhereIsMatchingEvents(table[1..], conds, args, f);
    }
  }

  ghost predicate Newer(rows: seq<TableRow>) {
    forall i, j | 0 <= i < j < |rows| :: CreatedAt(rows[i]) >= CreatedAt(rows[j])
  }

  ghost predicate StrictlyNewer(rows: seq<TableRow>) {
    forall i, j | 0 <= i < j < |rows| :: CreatedAt(rows[i]) > CreatedAt(rows[j])
  }

  lemma {:induction false} InsertNewestKeeps(row: TableRow, rows: seq<TableRow>)
    ensures multiset(InsertNewest(row, rows)) == multiset{row} + multiset(rows)
  {
    if rows != [] && CreatedAt(row) < CreatedAt(rows[0]) {
      InsertNewestKeeps(row, rows[1..]);
      assert rows == [rows[0]] + rows[1..];
    }
  }

  lemma {:induction false} InsertNewestSorts(row: TableRow, rows: seq<TableRow>)
    requires Newer(rows)
    ensures Newer(InsertNewest(row, rows))
    ensures InsertNewest(row, rows)[0] == row || (rows != [] && InsertNewest(row, rows)[0] == rows[0])
  {
    if rows != [] && CreatedAt(row) < CreatedAt(rows[0]) {
      var rest := rows[1..];
      InsertNewestSorts(row, rest);
      var tail := InsertNewest(row, rest);
      assert CreatedAt(rows[0]) >= CreatedAt(tail[0]);
      assert forall j | 0 < j < |tail| :: CreatedAt(tail[0]) >= CreatedAt(tail[j]);
    }
  }

  lemma {:induction false} NewestFirstSorts(rows: seq<TableRow>)
    ensures Newer(NewestFirst(rows)) && multiset(NewestFirst(rows)) == multiset(rows)
  {
    if rows != [] {
      NewestFirstSorts(rows[1..]);
      InsertNewestSorts(rows[0], NewestFirst(rows[1..]));
      InsertNewestKeeps(rows[0], NewestFirst(rows[1..]));
      assert rows == [rows[0]] + rows[1..];
    }
  }

  lemma SameNewest(a: seq<TableRow>, b: seq<TableRow>)
    requires Newer(a) && StrictlyNewer(b) && multiset(a) == multiset(b) && a != [] && b != []
    ensures a[0] == b[0]
  {
    assert a[0] in multiset(b) && b[0] in multiset(a);
    var k :| 0 <= k < |b| && b[k] == a[0];
    var l :| 0 <= l < |a| && a[l] == b[0];
    assert CreatedAt(a[0]) >= CreatedAt(a[l]);
  }

  lemma Rest(a: seq<TableRow>)
    requires a != []
    ensures multiset(a[1..]) == multiset(a) - multiset{a[0]}
  {
    assert a == [a[0]] + a[1..];
  }

  lemma {:induction false} OneOrder(a: seq<TableRow>, b: seq<TableRow>)
    requires Newer(a) && StrictlyNewer(b) && multiset(a) == multiset(b)
    ensures a == b
    decreases |a|
  {
    assert |a| == |multiset(a)| == |b|;
    if a != [] {
      SameNewest(a, b);
      Rest(a);
      Rest(b);
      OneOrder(a[1..], b[1..]);
      assert a == [a[0]] + a[1..] && b == [b[0]] + b[1..];
    }
  }

  /** When creation times differ, "newest first" is one list: any such ordering of the rows is what is answered. */
  lemma NewestFirstIsTheOrder(rows: seq<TableRow>, ordered: seq<TableRow>)
    requires multiset(ordered) == multiset(rows) && StrictlyNewer(ordered)
    ensures NewestFirst(rows) == ordered
  {
    NewestFirstSorts(rows);
    OneOrder(NewestFirst(rows), ordered);
  }

  /** The rows of one table. */
  predicate OneTable(rows: seq<TableRow>) {
    (forall row | row in rows :: row.SecretRow?) || (forall row | row in rows :: row.EventRow?)
  }

  /** a was created no earlier than b. */
  predicate NoOlder(a: TableRow, b: TableRow) {
    || (a.SecretRow? && b.SecretRow? && a.secret.createdAt >= b.secret.createdAt)
    || (a.EventRow? && b.EventRow? && a.event.createdAt >= b.event.createdAt)
  }

  ghost predicate NewestFirstIn(ordered: seq<TableRow>) {
    forall i, j | 0 <= i < j < |ordered| :: NoOlder(ordered[i], ordered[j])
  }

  /** `limit` of the rows, or as many as there are, from `offset` on. */
  ghost predicate IsSlice(answer: seq<TableRow>, ordered: seq<TableRow>, limit: nat, offset: nat) {
    && |answer| == (if |ordered| <= offset then 0
                    else if |ordered| - offset <= limit then |ordered| - offset else limit)
    && forall k | 0 <= k < |answer| :: answer[k] == ordered[offset + k]
  }

  /** The answer is that slice of the rows put newest first. */
  ghost predicate IsPage(answer: seq<TableRow>, rows: seq<TableRow>, limit: nat, offset: nat) {
    exists ordered: seq<TableRow> ::
      multiset(ordered) == multiset(rows) && NewestFirstIn(ordered) && IsSlice(answer, ordered, limit, offset)
  }

  lemma NewerIsNewestFirst(ordered: seq<TableRow>)
    requires Newer(ordered) && OneTable(ordered)
    ensures NewestFirstIn(ordered)
  {
    forall i, j | 0 <= i < j < |ordered| ensures NoOlder(ordered[i], ordered[j]) {
      assert ordered[i] in ordered && ordered[j] in ordered;
    }
  }

  lemma SameRows(a: seq<TableRow>, b: seq<TableRow>)
    requires multiset(a) == multiset(b) && OneTable(b)
    ensures OneTable(a)
  {
    forall row | row in a ensures row in b {
      assert row in multiset(a);
    }
  }

  lemma PageIs(rows: seq<TableRow>, limit: nat, offset: nat)
    requires OneTable(rows)
    ensures IsPage(Page(NewestFirst(rows), limit, offset), rows, limit, offset)
  {
    NewestFirstSorts(rows);
    SameRows(NewestFirst(rows), rows);
    NewerIsNewestFirst(NewestFirst(rows));
    assert IsSlice(Page(NewestFirst(rows), limit, offset), NewestFirst(rows), limit, offset);
  }

  lemma {:induction false} MatchingSecretsAre(table: seq<TableRow>, projectID: Id, f: SecretFilter, row: TableRow)
    ensures multiset(MatchingSecrets(table, projectID, f))[row]
         == if SecretMatches(projectID, f, row) then multiset(table)[row] else 0
  {
    if table != [] {
      MatchingSecretsAre(table[1..], projectID, f, row);
      assert table == [table[0]] + table[1..];
    }
  }

  lemma {:induction false} MatchingEventsAre(table: seq<TableRow>, f: AuditFilter, row: TableRow)
    ensures multiset(MatchingEvents(table, f))[row] == if EventMatches(f, row) then multiset(table)[row] else 0
  {
    if table != [] {
      MatchingEventsAre(table[1..], f, row);
      assert table == [table[0]] + table[1..];
    }
  }

  lemma SelectedRowsAreSecrets(table: seq<TableRow>, projectID: Id, f: SecretFilter)
    ensures OneTable(MatchingSecrets(table, projectID, f))
  {
    forall row | row in MatchingSecrets(table, projectID, f) ensures row.SecretRow? {
      MatchingSecretsAre(table, projectID, f, row);
      assert row in multiset(MatchingSecrets(table, projectID, f));
    }
  }

  lemma SelectedRowsAreEvents(table: seq<TableRow>, f: AuditFilter)
    ensures OneTable(MatchingEvents(table, f))
  {
    forall row | row in MatchingEvents(table, f) ensures row.EventRow? {
      MatchingEventsAre(table, f, row);
      assert row in multiset(MatchingEvents(table, f));
    }
  }

  /** What the database answers; it refuses a negative LIMIT or OFFSET. */
  function Execute(table: seq<TableRow>, q: Query): Result<seq<TableRow>, Error> {
    if !(1 <= q.limitAt <= |q.args| && 1 <= q.offsetAt <= |q.args|) then Err(Storage)
    else
      var limit, offset := q.args[q.limitAt - 1], q.args[q.offsetAt - 1];
      if !limit.Number? || !offset.Number? || limit.n < 0 || offset.n < 0 then Err(Storage)
      else Ok(Page(NewestFirst(Where(table, q.conds, q.args)), limit.n, offset.n))
  }

  /** The built query answers with the page of matching rows, newest first. */
  method ListSecretsByProject(table: seq<TableRow>, projectID: Id, f: SecretFilter, limit: int, offset: int)
    returns (r: Result<seq<TableRow>, Error>)
    requires forall row | row in table :: row.SecretRow?
    ensures limit < 0 || offset < 0 ==> r == Err(Storage)
    ensures limit >= 0 && offset >= 0 ==>
              && r == Ok(Page(NewestFirst(MatchingSecrets(table, projectID, f)), limit, offset))
              && IsPage(r.value, MatchingSecrets(table, projectID, f), limit, offset)
    ensures forall row :: multiset(MatchingSecrets(table, projectID, f))[row]
                       == if SecretMatches(projectID, f, row) then multiset(table)[row] else 0
  {
    var q := BuildSecretQuery(projectID, f, limit, offset);
    WhereIsMatchingSecrets(table, q.conds, q.args, projectID, f);
    r := Execute(table, q);
    forall row ensures multiset(MatchingSecrets(table, projectID, f))[row]
                    == if SecretMatches(projectID, f, row) then multiset(table)[row] else 0 {
      MatchingSecretsAre(table, projectID, f, row);
    }
    if limit >= 0 && offset >= 0 {
      SelectedRowsAreSecrets(table, projectID, f);
      PageIs(MatchingSecrets(table, projectID, f), limit, offset);
    }
  }

  method ListEvents(table: seq<TableRow>, f: AuditFilter) returns (events: seq<TableRow>)
    requires forall row | row in table :: row.EventRow?
    ensures exists limit: nat ::
              && 1 <= limit <= 500 && limit == (if 1 <= f.limit <= 500 then f.limit else 100)
              && events == Page(NewestFirst(MatchingEvents(table, f)), limit, 0)
              && IsPage(events, MatchingEvents(table, f), limit, 0)
    ensures forall row :: multiset(MatchingEvents(table, f))[row]
                       == if EventMatches(f, row) then multiset(table)[row] else 0
  {
    var q := BuildEventQuery(f);
    WhereIsMatchingEvents(table, q.conds, q.args, f);
    events := Page(NewestFirst(Where(table, q.conds, q.args)), q.limit, 0);
    forall row ensures multiset(MatchingEvents(table, f))[row]
                    == if EventMatches(f, row) then multiset(table)[row] else 0 {
      MatchingEventsAre(table, f, row);
    }
    SelectedRowsAreEvents(table, f);
    PageIs(MatchingEvents(table, f), q.limit, 0);
  }

  /** A plain name asks for a case-insensitive substring. */
  lemma PlainNameFilter(projectID: Id, f: SecretFilter, s: Secret)
    requires f.name.Some? && !HasMeta(f.name.value)
    ensures SecretMatches(projectID, f, SecretRow(s))
       <==> SecretMatches(projectID, f.(name := None), SecretRow(s)) && Contains(s.name, f.name.value)
  {
    PlainNameSearches(s.name, f.name.value);
  }
}
