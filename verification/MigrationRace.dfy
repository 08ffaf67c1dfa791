/**
 Any number of servers running the migrations at once against one database, each of them
 crashing or failing anywhere and starting again. `files` is the sorted file list.
 */
module MigrationRace {
  import opened FileOrder

  type Server = nat

  datatype Proc =
    | Off                                                          // not started, crashed, failed or finished
    | Looping(skip: set<string>, next: nat)                        // about to look at files[next]
    | Executed(skip: set<string>, next: nat, seen: seq<string>)    // its statements ran on the schema `seen`
    | Recorded(skip: set<string>, next: nat, seen: seq<string>)    // and its row is inserted, uncommitted

  /** `applied` and `log` are what has been committed. */
  datatype State = State(applied: set<string>, log: seq<string>, procs: map<Server, Proc>) {
    function Proc(p: Server): Proc {
      if p in procs then procs[p] else Off
    }
  }

  datatype Action = Start | Skip | Execute | Record | Commit | Finish | Crash

  /** No other open transaction has inserted this schema_migrations row; otherwise the insert waits. */
  ghost predicate KeyFree(s: State, p: Server, version: string, files: seq<string>) {
    forall q: Server :: q != p && s.Proc(q).Recorded? && s.Proc(q).next < |files| ==> files[s.Proc(q).next] != version
  }

  /** Server p after one of its steps; a step that is not its next one, or that waits, changes nothing. */
  ghost function Stepped(s: State, files: seq<string>, p: Server, a: Action): Proc {
    var proc := s.Proc(p);
    match a
    case Start => if proc.Off? then Looping(s.applied, 0) else proc
    case Skip =>
      if proc.Looping? && proc.next < |files| && files[proc.next] in proc.skip then Looping(proc.skip, proc.next + 1)
      else proc
    case Execute =>
      if proc.Looping? && proc.next < |files| && files[proc.next] !in proc.skip then
        Executed(proc.skip, proc.next, s.log)
      else proc
    case Record =>
      if !(proc.Executed? && proc.next < |files|) then proc
      else if files[proc.next] in s.applied then Off    // duplicate key: roll back and return the error
      else if KeyFree(s, p, files[proc.next], files) then Recorded(proc.skip, proc.next, proc.seen)
      else proc
    case Commit =>
      if proc.Recorded? && proc.next < |files| then Looping(proc.skip, proc.next + 1) else proc
    case Finish => if proc.Looping? && proc.next == |files| then Off else proc
    case Crash => Off
  }

  ghost function Next(s: State, files: seq<string>, p: Server, a: Action): State {
    var proc := s.Proc(p);
    var procs := s.procs[p := Stepped(s, files, p, a)];
    if a.Commit? && proc.Recorded? && proc.next < |files| then
      State(s.applied + {files[proc.next]}, s.log + [files[proc.next]], procs)
    else s.(procs := procs)
  }

  type Schedule = seq<(Server, Action)>

  ghost function Run(s: State, files: seq<string>, schedule: Schedule): State
    decreases |schedule|
  {
    if schedule == [] then s
    else Run(Next(s, files, schedule[0].0, schedule[0].1), files, schedule[1..])
  }

  /** No server running, on a database in which `log` has been committed before. */
  ghost function Init(log: seq<string>): State {
    State(Elements(log), log, map[])
  }

  ghost predicate InOrder(log: seq<string>, files: seq<string>) {
    |log| <= |files| && log == files[..|log|]
  }

  ghost predicate ProcInv(s: State, files: seq<string>, proc: Proc) {
    match proc
    case Off => true
    case Looping(skip, next) => skip <= s.applied && next <= |s.log|
    case Executed(skip, next, seen) =>
      skip <= s.applied && next < |files| && next <= |seen| && seen <= s.log
    case Recorded(skip, next, seen) =>
      skip <= s.applied && next < |files| && next == |s.log| && seen == s.log
  }

  ghost predicate Inv(s: State, files: seq<string>) {
    && s.applied == Elements(s.log)
    && InOrder(s.log, files)
    && (forall p: Server :: ProcInv(s, files, s.Proc(p)))
    && (forall p: Server, q: Server :: p != q && s.Proc(p).Recorded? ==> !s.Proc(q).Recorded?)
  }

  /** A file among the committed ones is one of the first |log| files. */
  lemma AppliedIndex(s: State, files: seq<string>, i: nat)
    requires Sorted(files) && s.applied == Elements(s.log) && InOrder(s.log, files) && i < |files|
    ensures files[i] in s.applied <==> i < |s.log|
  {
    if i < |s.log| {
      assert s.log[i] == files[i];
    } else {
      forall k | 0 <= k < |s.log| ensures s.log[k] != files[i] {
        assert s.log[k] == files[k] && Before(files[k], files[i]);
        BeforeIrreflexive(files[i]);
      }
    }
  }

  lemma SteppedInv(s: State, files: seq<string>, p: Server, a: Action)
    requires Sorted(files) && s.applied == Elements(s.log) && InOrder(s.log, files)
    requires !a.Commit? && ProcInv(s, files, s.Proc(p))
    ensures ProcInv(s, files, Stepped(s, files, p, a))
  {
    var proc := s.Proc(p);
    if !proc.Off? && proc.next < |files| {
      AppliedIndex(s, files, proc.next);
    }
  }

  lemma LocalStep(s: State, files: seq<string>, p: Server, a: Action)
    requires Sorted(files) && Inv(s, files) && !a.Commit?
    ensures Inv(Next(s, files, p, a), files)
  {
    var after := Next(s, files, p, a);
    assert ProcInv(s, files, s.Proc(p));
    SteppedInv(s, files, p, a);
    forall q: Server ensures after.Proc(q) == if q == p then Stepped(s, files, p, a) else s.Proc(q) {}
    forall q: Server ensures ProcInv(after, files, after.Proc(q)) {
      assert ProcInv(s, files, s.Proc(q));
    }
    if after.Proc(p).Recorded? && !s.Proc(p).Recorded? {
      forall q: Server | q != p ensures !s.Proc(q).Recorded? {
        assert ProcInv(s, files, s.Proc(q));
        assert s.Proc(p).next == |s.log| by {
          AppliedIndex(s, files, s.Proc(p).next);
        }
      }
    }
  }

  lemma CommitStep(s: State, files: seq<string>, p: Server)
    requires Sorted(files) && Inv(s, files) && s.Proc(p).Recorded?
    ensures Inv(Next(s, files, p, Commit), files)
    ensures Next(s, files, p, Commit).log == s.log + [files[|s.log|]]
  {
    var after := Next(s, files, p, Commit);
    assert ProcInv(s, files, s.Proc(p));
    assert after.log == files[..|s.log| + 1];
    assert Elements(after.log) == Elements(s.log) + {files[|s.log|]};
    forall q: Server
      ensures after.Proc(q) == if q == p then Looping(s.Proc(p).skip, s.Proc(p).next + 1) else s.Proc(q)
    {}
    forall q: Server ensures ProcInv(after, files, after.Proc(q)) {
      assert ProcInv(s, files, s.Proc(q));
      assert q != p ==> !s.Proc(q).Recorded?;
    }
  }

  lemma NextInv(s: State, files: seq<string>, p: Server, a: Action)
    requires Sorted(files) && Inv(s, files)
    ensures Inv(Next(s, files, p, a), files)
    ensures s.log <= Next(s, files, p, a).log
  {
    if !a.Commit? {
      LocalStep(s, files, p, a);
    } else if s.Proc(p).Recorded? {
      CommitStep(s, files, p);
    } else {
      var after := Next(s, files, p, a);
      forall q: Server ensures after.Proc(q) == s.Proc(q) {}
      forall q: Server ensures ProcInv(after, files, after.Proc(q)) {
        assert ProcInv(s, files, s.Proc(q));
      }
    }
  }

  lemma {:induction false} RunInv(s: State, files: seq<string>, schedule: Schedule)
    requires Sorted(files) && Inv(s, files)
    ensures Inv(Run(s, files, schedule), files)
    ensures s.log <= Run(s, files, schedule).log
    decreases |schedule|
  {
    if schedule != [] {
      NextInv(s, files, schedule[0].0, schedule[0].1);
      RunInv(Next(s, files, schedule[0].0, schedule[0].1), files, schedule[1..]);
    }
  }

  lemma InitInv(log: seq<string>, files: seq<string>)
    requires InOrder(log, files)
    ensures Inv(Init(log), files)
  {
    forall p: Server ensures Init(log).Proc(p) == Off {}
  }

  /**
   However the servers interleave and crash, the committed migrations are a prefix of the
   sorted list, in that order, and none is committed twice.
   */
  lemma CommittedInOrder(log: seq<string>, files: seq<string>, schedule: Schedule)
    requires Sorted(files) && InOrder(log, files)
    ensures var s := Run(Init(log), files, schedule);
            InOrder(s.log, files) && Distinct(s.log) && s.applied == Elements(s.log)
  {
    InitInv(log, files);
    RunInv(Init(log), files, schedule);
    var s := Run(Init(log), files, schedule);
    forall i, j | 0 <= i < j < |s.log| ensures s.log[i] != s.log[j] {
      assert s.log[i] == files[i] && s.log[j] == files[j];
      BeforeIrreflexive(files[i]);
    }
  }

  /** Committed migrations stay committed, in place. */
  lemma CommittedForGood(log: seq<string>, files: seq<string>, schedule: Schedule, more: Schedule)
    requires Sorted(files) && InOrder(log, files)
    ensures Run(Init(log), files, schedule).log <= Run(Run(Init(log), files, schedule), files, more).log
  {
    InitInv(log, files);
    RunInv(Init(log), files, schedule);
    RunInv(Run(Init(log), files, schedule), files, more);
  }

  /** A migration that commits ran its statements on exactly the schema its predecessors left. */
  lemma CommitSawPredecessors(log: seq<string>, files: seq<string>, schedule: Schedule, p: Server)
    requires Sorted(files) && InOrder(log, files) && Run(Init(log), files, schedule).Proc(p).Recorded?
    ensures var s := Run(Init(log), files, schedule);
            var after := Next(s, files, p, Commit);
            && s.Proc(p).next < |files|
            && s.Proc(p).seen == s.log == files[..s.Proc(p).next]
            && after.log == files[..s.Proc(p).next + 1]
  {
    InitInv(log, files);
    RunInv(Init(log), files, schedule);
    var s := Run(Init(log), files, schedule);
    assert ProcInv(s, files, s.Proc(p));
    CommitStep(s, files, p);
  }

  /** A server that gets through its loop leaves every migration committed, whoever committed it. */
  lemma FinishedMeansComplete(log: seq<string>, files: seq<string>, schedule: Schedule, p: Server)
    requires Sorted(files) && InOrder(log, files)
    requires var proc := Run(Init(log), files, schedule).Proc(p); proc.Looping? && proc.next == |files|
    ensures Run(Init(log), files, schedule).log == files
  {
    InitInv(log, files);
    RunInv(Init(log), files, schedule);
    var s := Run(Init(log), files, schedule);
    assert ProcInv(s, files, s.Proc(p));
  }
}
