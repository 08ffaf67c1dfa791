/**
 The encrypted, versioned store is a list of plaintexts for each secret, one of them current: what
 every serial run keeps, what each call does to the lists, and what a read returns.
 */
module SecretStoreRefinement {
  import opened Wrappers
  import opened VersionRows
  import opened Domain
  import opened ServiceSpec
  import opened ServiceRuns

  /** One secret as its owner sees it: every value it ever had, and the number of the current one. */
  datatype Book = Book(values: seq<string>, current: nat)

  type Books = map<Id, Book>

  function Opened(c: Crypto, sealed: Sealed): Option<string> {
    c.decrypt(sealed.cipherText, sealed.nonce)
  }

  /** The rows are numbered as the values are, open to them, and the book's current one, alone, is flagged. */
  ghost predicate Stores(c: Crypto, rows: Rows<Sealed>, b: Book) {
    && Numbered(rows) && |rows| == |b.values|
    && Currents(rows) == {b.current}
    && forall v | v in rows :: Opened(c, rows[v].payload) == Some(b.values[v - 1])
  }

  ghost predicate AllStore(c: Crypto, versions: map<Id, Rows<Sealed>>, books: Books) {
    versions.Keys == books.Keys && forall s | s in books :: Stores(c, versions[s], books[s])
  }

  /** Every secret has versions, and the other way round. */
  ghost predicate Keyed(t: Tables) {
    t.vault.secrets.Keys == t.vault.versions.Keys && forall s | s in t.vault.secrets :: t.vault.secrets[s].id == s
  }

  /** The tables hold these books. */
  ghost predicate Holds(c: Crypto, t: Tables, books: Books) {
    Keyed(t) && AllStore(c, t.vault.versions, books)
  }

  /**
   What a call with this reply does to the books: only creations, rotations and rollbacks that took
   effect touch them.
   */
  function SecretBookStep(books: Books, call: SecretCall, env: Env, reply: Reply): Books {
    if !TookEffect(call, env, reply) then books
    else
      match call
      case CreateIn(_, _, input) => books[env.id := Book([input.value], 1)]
      case Rotate(_, secret, value) =>
        if secret in books then books[secret := Book(books[secret].values + [value], |books[secret].values| + 1)]
        else books
      case Rollback(_, secret, version) =>
        if secret in books && version >= 0 then books[secret := Book(books[secret].values, version)] else books
      case _ => books
  }

  function BookStep(books: Books, call: Call, env: Env, reply: Reply): Books {
    if call.Secrets? then SecretBookStep(books, call.secrets, env, reply) else books
  }

  // ---- One secret ----

  lemma CreatedStores(c: Crypto, value: string, env: Env)
    ensures Stores(c, map[1 := Row(Seal(c, value, env), true)], Book([value], 1))
  {
    assert Currents(map[1 := Row(Seal(c, value, env), true)]) == {1};
  }

  lemma RotatedStores(c: Crypto, rows: Rows<Sealed>, b: Book, value: string, env: Env)
    requires Stores(c, rows, b)
    ensures Stores(c, Rotated(rows, Seal(c, value, env)), Book(b.values + [value], |b.values| + 1))
  {
    var after := Rotated(rows, Seal(c, value, env));
    RotatedMeaning(rows, Seal(c, value, env));
    RotatedIs(rows, Seal(c, value, env));
    forall v | v in after ensures Opened(c, after[v].payload) == Some((b.values + [value])[v - 1]) {
      if v <= |rows| {
        assert v in rows && after[v].payload == rows[v].payload;
      }
    }
  }

  lemma RolledBackStores(c: Crypto, rows: Rows<Sealed>, b: Book, version: nat)
    requires Stores(c, rows, b) && version in rows
    ensures Stores(c, RolledBack(rows, version), Book(b.values, version))
  {
    RolledBackMeaning(rows, version);
  }

  lemma MaxOfOne(v: nat)
    ensures MaxVersion({v}) == v
  {
    assert v in {v};
  }

  /** A read finds the current value. */
  lemma StoredValue(c: Crypto, rows: Rows<Sealed>, b: Book)
    requires Stores(c, rows, b)
    ensures 1 <= b.current <= |b.values| && CurrentValue(c, rows) == Ok(Value(b.values[b.current - 1]))
  {
    MaxOfOne(b.current);
    assert b.current in Currents(rows);
  }

  // ---- One call ----

  /** One secret's rows and book change together. */
  lemma Replaced(c: Crypto, versions: map<Id, Rows<Sealed>>, books: Books, secret: Id, rows: Rows<Sealed>, b: Book)
    requires AllStore(c, versions, books) && Stores(c, rows, b)
    ensures AllStore(c, versions[secret := rows], books[secret := b])
  {
  }

  lemma CreateRefines(c: Crypto, t: Tables, books: Books, value: string, env: Env, secret: Secret, after: Tables)
    requires Holds(c, t, books) && secret.id == env.id
    requires after.vault.versions == t.vault.versions[env.id := map[1 := Row(Seal(c, value, env), true)]]
    requires after.vault.secrets == t.vault.secrets[env.id := secret]
    ensures Holds(c, after, books[env.id := Book([value], 1)])
  {
    CreatedStores(c, value, env);
    Replaced(c, t.vault.versions, books, env.id, map[1 := Row(Seal(c, value, env), true)], Book([value], 1));
  }

  lemma RotateRefines(c: Crypto, t: Tables, books: Books, secret: Id, value: string, env: Env, after: Tables)
    requires Holds(c, t, books) && secret in t.vault.versions && after.vault.secrets == t.vault.secrets
    requires after.vault.versions == t.vault.versions[secret := Rotated(t.vault.versions[secret], Seal(c, value, env))]
    ensures secret in books
    ensures Holds(c, after, books[secret := Book(books[secret].values + [value], |books[secret].values| + 1)])
  {
    var b := books[secret];
    RotatedStores(c, t.vault.versions[secret], b, value, env);
    Replaced(c, t.vault.versions, books, secret, Rotated(t.vault.versions[secret], Seal(c, value, env)),
             Book(b.values + [value], |b.values| + 1));
  }

  lemma RollbackRefines(c: Crypto, t: Tables, books: Books, secret: Id, version: nat, after: Tables)
    requires Holds(c, t, books) && secret in t.vault.versions && version in t.vault.versions[secret]
    requires after.vault.secrets == t.vault.secrets
    requires after.vault.versions == t.vault.versions[secret := RolledBack(t.vault.versions[secret], version)]
    ensures secret in books && Holds(c, after, books[secret := Book(books[secret].values, version)])
  {
    var b := books[secret];
    RolledBackStores(c, t.vault.versions[secret], b, version);
    Replaced(c, t.vault.versions, books, secret, RolledBack(t.vault.versions[secret], version),
             Book(b.values, version));
  }

  lemma SecretCallRefines(c: Crypto, t: Tables, books: Books, call: SecretCall, env: Env, out: Outcome)
    requires Holds(c, t, books) && out == SecretStep(c, t, call, env)
    ensures Holds(c, out.tables, SecretBookStep(books, call, env, out.reply))
  {
    SecretEffect(c, t, call, env);
    if TookEffect(call, env, out.reply) {
      match call
      case CreateIn(actor, project, input) =>
        CreateRefines(c, t, books, input.value, env, NewSecret(actor, project, input, env), out.tables);
      case Rotate(_, secret, value) =>
        RotateRefines(c, t, books, secret, value, env, out.tables);
      case Rollback(_, secret, version) =>
        RollbackRefines(c, t, books, secret, version, out.tables);
      case _ =>
    }
  }

  /** Each call changes the tables as its abstract operation changes the books. */
  lemma StepRefines(c: Crypto, t: Tables, books: Books, call: Call, env: Env)
    requires Holds(c, t, books)
    ensures var out := Step(c, t, call, env);
            Holds(c, out.tables, BookStep(books, call, env, out.reply))
  {
    match call
    case Auth(a) => AuthFrame(t, a, env);
    case Project(p) => ProjectFrame(t, p, env);
    case Secrets(s) => SecretCallRefines(c, t, books, s, env, SecretStep(c, t, s, env));
    case Access(a) => AccessFrame(t, a, env);
    case Accounts(a) => AccountFrame(t, a, env);
    case Teams(tc) => TeamFrame(t, tc, env);
  }

  // ---- Whole runs ----

  function BookRun(books: Books, trace: Trace, replies: seq<Reply>): Books
    requires |trace| == |replies|
    decreases |trace|
  {
    if trace == [] then books
    else BookRun(BookStep(books, trace[0].0, trace[0].1, replies[0]), trace[1..], replies[1..])
  }

  lemma AfterRefines(c: Crypto, t: Tables, books: Books, call: Call, env: Env)
    requires Holds(c, t, books)
    ensures Holds(c, After(c, t, call, env), BookStep(books, call, env, Step(c, t, call, env).reply))
  {
    StepRefines(c, t, books, call, env);
  }

  lemma {:induction false} RunRefinesFrom(c: Crypto, t: Tables, books: Books, trace: Trace)
    requires Holds(c, t, books)
    ensures Holds(c, Run(c, t, trace), BookRun(books, trace, Replies(c, t, trace)))
    decreases |trace|
  {
    if trace != [] {
      var (call, env) := trace[0];
      var next := After(c, t, call, env);
      AfterRefines(c, t, books, call, env);
      RunRefinesFrom(c, next, BookStep(books, call, env, Step(c, t, call, env).reply), trace[1..]);
      assert Replies(c, t, trace)[1..] == Replies(c, next, trace[1..]);
    }
  }

  /** The books after a run from empty tables. */
  function BooksAfter(c: Crypto, trace: Trace): Books {
    BookRun(map[], trace, Replies(c, EmptyTables(), trace))
  }

  /** Every run of the service from empty tables is a run of the books. */
  lemma RunRefines(c: Crypto, trace: Trace)
    ensures Holds(c, Run(c, EmptyTables(), trace), BooksAfter(c, trace))
  {
    RunRefinesFrom(c, EmptyTables(), map[], trace);
  }

  /**
   A read that succeeds returns the book's current value: the plaintext of the
   version last created, rotated in or rolled back to. An authorized read never fails for
   want of a current version or of a decryption.
   */
  lemma ReadReturnsCurrentValue(c: Crypto, trace: Trace, p: Principal, secret: Id, env: Env)
    ensures var t := Run(c, EmptyTables(), trace);
            var reply := GetSecretValue(c, t, p, secret, env).reply;
            var books := BooksAfter(c, trace);
            && (secret in t.vault.secrets <==> secret in books)
            && (reply.Ok? ==>
                  && secret in books && 1 <= books[secret].current <= |books[secret].values|
                  && reply.value == Value(books[secret].values[books[secret].current - 1]))
            && (secret in books && reply.Err? ==>
                  GetSecretValue(c, t, p, secret, env).event.Some? || reply.error == SecretRevoked)
  {
    RunRefines(c, trace);
    var t := Run(c, EmptyTables(), trace);
    ReadWhenStored(c, t, BooksAfter(c, trace), p, secret, env);
  }

  /** The outcome of a read when the tables hold the books. */
  lemma ReadWhenStored(c: Crypto, t: Tables, books: Books, p: Principal, secret: Id, env: Env)
    requires Holds(c, t, books)
    ensures var out := GetSecretValue(c, t, p, secret, env);
            if secret !in books then out.reply == Err(NotFound) && out.event.None?
            else
              var s := t.vault.secrets[secret];
              if s.status == Revoked || (s.expiresAt.Some? && env.now > s.expiresAt.value) then
                out.reply == Err(SecretRevoked) && out.event.None?
              else if ReadRefusal(t, p, s, env.now).Some? then
                && out.reply == Err(ReadRefusal(t, p, s, env.now).value)
                && out.event.Some? && out.event.value.eventType == SecretReadDenied
              else
                && 1 <= books[secret].current <= |books[secret].values|
                && out.reply == Ok(Value(books[secret].values[books[secret].current - 1]))
                && out.event.Some? && out.event.value.eventType == SecretRead
  {
    if secret in books {
      assert Stores(c, t.vault.versions[secret], books[secret]);
      StoredValue(c, t.vault.versions[secret], books[secret]);
    }
  }

  /** Every book of the first is in the second, with at least the same values in the same places. */
  ghost predicate Extends(before: Books, after: Books) {
    forall s | s in before :: s in after && before[s].values <= after[s].values
  }

  lemma BookStepExtends(books: Books, call: SecretCall, env: Env, reply: Reply)
    requires call.CreateIn? && TookEffect(call, env, reply) ==> env.id !in books
    ensures Extends(books, SecretBookStep(books, call, env, reply))
  {
  }

  lemma StepExtends(c: Crypto, t: Tables, books: Books, call: Call, env: Env)
    requires Holds(c, t, books)
    ensures Extends(books, BookStep(books, call, env, Step(c, t, call, env).reply))
  {
    if call.Secrets? {
      SecretEffect(c, t, call.secrets, env);
      BookStepExtends(books, call.secrets, env, Step(c, t, call, env).reply);
    }
  }

  /** No operation of any run alters or drops the plaintext of an older version. */
  lemma {:induction false} OldValuesStay(c: Crypto, t: Tables, books: Books, trace: Trace)
    requires Holds(c, t, books)
    ensures Extends(books, BookRun(books, trace, Replies(c, t, trace)))
    decreases |trace|
  {
    if trace != [] {
      var (call, env) := trace[0];
      var next := After(c, t, call, env);
      var books' := BookStep(books, call, env, Step(c, t, call, env).reply);
      AfterRefines(c, t, books, call, env);
      StepExtends(c, t, books, call, env);
      OldValuesStay(c, next, books', trace[1..]);
      assert Replies(c, t, trace)[1..] == Replies(c, next, trace[1..]);
      ExtendsTransitive(books, books', BookRun(books, trace, Replies(c, t, trace)));
    }
  }

  lemma ExtendsTransitive(a: Books, b: Books, d: Books)
    requires Extends(a, b) && Extends(b, d)
    ensures Extends(a, d)
  {
    forall s | s in a ensures s in d && a[s].values <= d[s].values {
      assert s in b;
    }
  }

  /** The call rotates this secret or rolls it back, with effect. */
  ghost predicate Writes(c: Crypto, t: Tables, call: Call, env: Env, secret: Id) {
    && call.Secrets?
    && ((call.secrets.Rotate? && call.secrets.secret == secret)
        || (call.secrets.Rollback? && call.secrets.secret == secret))
    && TookEffect(call.secrets, env, Step(c, t, call, env).reply)
  }

  /** No call of the run does so; any may try. */
  ghost predicate NeverWritten(c: Crypto, t: Tables, trace: Trace, secret: Id)
    decreases |trace|
  {
    trace == []
    || (&& !Writes(c, t, trace[0].0, trace[0].1, secret)
        && NeverWritten(c, After(c, t, trace[0].0, trace[0].1), trace[1..], secret))
  }

  /** A call that does not write this secret leaves its book. */
  lemma UnwrittenByCall(c: Crypto, t: Tables, books: Books, call: Call, env: Env, secret: Id)
    requires Holds(c, t, books) && secret in books && !Writes(c, t, call, env, secret)
    ensures var after := BookStep(books, call, env, Step(c, t, call, env).reply);
            secret in after && after[secret] == books[secret]
  {
    if call.Secrets? && call.secrets.CreateIn? {
      SecretEffect(c, t, call.secrets, env);
    }
  }

  lemma {:induction false} UnwrittenBookStays(c: Crypto, t: Tables, books: Books, trace: Trace, secret: Id)
    requires Holds(c, t, books) && secret in books && NeverWritten(c, t, trace, secret)
    ensures var after := BookRun(books, trace, Replies(c, t, trace)); secret in after && after[secret] == books[secret]
    decreases |trace|
  {
    if trace != [] {
      var (call, env) := trace[0];
      var next := After(c, t, call, env);
      AfterRefines(c, t, books, call, env);
      UnwrittenByCall(c, t, books, call, env, secret);
      UnwrittenBookStays(c, next, BookStep(books, call, env, Step(c, t, call, env).reply), trace[1..], secret);
      assert Replies(c, t, trace)[1..] == Replies(c, next, trace[1..]);
    }
  }

  lemma RotatedBook(books: Books, actor: Id, secret: Id, value: string, env: Env, reply: Reply, after: Books)
    requires secret in books && reply.Ok? && after == SecretBookStep(books, Rotate(actor, secret, value), env, reply)
    ensures secret in after && 1 <= after[secret].current <= |after[secret].values|
    ensures after[secret].values[after[secret].current - 1] == value
  {
  }

  lemma RotateWrites(c: Crypto, t: Tables, books: Books, actor: Id, secret: Id, value: string, env: Env)
    returns (after: Books)
    requires Holds(c, t, books) && RotateSecret(c, t, actor, secret, value, env).reply.Ok?
    ensures Holds(c, After(c, t, Secrets(Rotate(actor, secret, value)), env), after)
    ensures secret in after && 1 <= after[secret].current <= |after[secret].values|
    ensures after[secret].values[after[secret].current - 1] == value
  {
    var reply := RotateSecret(c, t, actor, secret, value, env).reply;
    assert secret in t.vault.secrets.Keys;
    AfterRefines(c, t, books, Secrets(Rotate(actor, secret, value)), env);
    after := BookStep(books, Secrets(Rotate(actor, secret, value)), env, reply);
    RotatedBook(books, actor, secret, value, env, reply, after);
  }

  /** While a secret is not written, a read that succeeds returns the value that was current in its book. */
  lemma ReadUnwritten(c: Crypto, t: Tables, books: Books, rest: Trace, p: Principal, secret: Id, env: Env)
    requires Holds(c, t, books) && secret in books && NeverWritten(c, t, rest, secret)
    ensures 1 <= books[secret].current <= |books[secret].values|
    ensures var reply := GetSecretValue(c, Run(c, t, rest), p, secret, env).reply;
            reply.Ok? ==> reply.value == Value(books[secret].values[books[secret].current - 1])
  {
    UnwrittenBookStays(c, t, books, rest, secret);
    RunRefinesFrom(c, t, books, rest);
    var last := BookRun(books, rest, Replies(c, t, rest));
    ReadWhenStored(c, Run(c, t, rest), last, p, secret, env);
    assert Stores(c, Run(c, t, rest).vault.versions[secret], last[secret]);
    StoredValue(c, Run(c, t, rest).vault.versions[secret], last[secret]);
  }

  /** After a rotation succeeds, every read that succeeds returns its value until a call writes the secret again. */
  lemma RotateThenRead(c: Crypto, before: Trace, actor: Id, secret: Id, value: string, env: Env, rest: Trace,
                       p: Principal, readEnv: Env, t: Tables, t': Tables)
    requires t == Run(c, EmptyTables(), before) && t' == After(c, t, Secrets(Rotate(actor, secret, value)), env)
    requires RotateSecret(c, t, actor, secret, value, env).reply.Ok?
    requires NeverWritten(c, t', rest, secret)
    ensures var reply := GetSecretValue(c, Run(c, t', rest), p, secret, readEnv).reply;
            reply.Ok? ==> reply.value == Value(value)
  {
    RunRefines(c, before);
    var books := RotateWrites(c, t, BooksAfter(c, before), actor, secret, value, env);
    ReadUnwritten(c, t', books, rest, p, secret, readEnv);
  }
}
