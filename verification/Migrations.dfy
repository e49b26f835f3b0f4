/**
 The migration runner: any number of processes contend for one session advisory lock, read what is
 applied inside it, and commit each pending migration together with its version row.
 */
module Migrations {
  import opened Common

  datatype File = File(name: string, version: int, sql: string, up: bool)

  // ---- The chain of files ----

  /** The order Files() returns: by version, up before down. */
  predicate Before(f: File, g: File) {
    f.version < g.version || (f.version == g.version && (f.up || !g.up))
  }

  /** It orders any two files: lower versions first, then up before down, and only the same file place is shared. */
  lemma BeforeOrders(f: File, g: File, h: File)
    ensures Before(f, g) || Before(g, f)
    ensures Before(f, g) && Before(g, h) ==> Before(f, h)
    ensures Before(f, g) && Before(g, f) <==> f.version == g.version && f.up == g.up
    ensures f.version < g.version || (f.version == g.version && f.up && !g.up) ==> !Before(g, f)
  {
  }

  ghost predicate Sorted(files: seq<File>) {
    forall i, j :: 0 <= i < j < |files| ==> Before(files[i], files[j])
  }

  predicate OccursAt(s: string, part: string, i: nat) {
    i + |part| <= |s| && s[i..i + |part|] == part
  }

  predicate Contains(s: string, part: string) {
    exists i: nat :: i <= |s| && OccursAt(s, part, i)
  }

  predicate HasConflictMarker(f: File) {
    Contains(f.sql, "<<<<<<<") || Contains(f.sql, ">>>>>>>") || Contains(f.sql, "\n=======\n")
  }

  /** An earlier file of the same direction has this version. */
  predicate Duplicates(files: seq<File>, i: nat)
    requires i < |files|
  {
    exists j :: 0 <= j < i && files[j].version == files[i].version && files[j].up == files[i].up
  }

  datatype ChainError = DuplicateVersion(version: int, first: string, second: string) | ConflictMarkers(name: string)

  predicate Faulty(files: seq<File>, i: nat)
    requires i < |files|
  {
    Duplicates(files, i) || HasConflictMarker(files[i])
  }

  predicate ValidChain(files: seq<File>) { forall i :: 0 <= i < |files| ==> !Faulty(files, i) }

  const MARKERS := {"<<<<<<<", ">>>>>>>", "\n=======\n"}

  /** The text is `m` with something before and after it. */
  ghost predicate Around(s: string, before: string, m: string, after: string) { s == before + m + after }

  ghost predicate Marked(s: string) {
    exists before, m, after :: m in MARKERS && Around(s, before, m, after)
  }

  lemma ContainsIff(s: string, part: string)
    ensures Contains(s, part) <==> exists before, after :: Around(s, before, part, after)
  {
    if Contains(s, part) {
      var i: nat :| i <= |s| && OccursAt(s, part, i);
      assert s == s[..i] + part + s[i + |part|..];
      assert Around(s, s[..i], part, s[i + |part|..]);
    }
    if before, after :| Around(s, before, part, after) {
      assert s[|before|..|before| + |part|] == part;
      assert OccursAt(s, part, |before|);
    }
  }

  /** A file has a conflict marker exactly when its text is something, then a marker, then something. */
  lemma MarkedIff(f: File)
    ensures HasConflictMarker(f) <==> Marked(f.sql)
  {
    forall m | m in MARKERS ensures Contains(f.sql, m) <==> exists before, after :: Around(f.sql, before, m, after) {
      ContainsIff(f.sql, m);
    }
  }

  /** Wherever a marker stands in a file, a chain with that file is rejected. */
  lemma MarkerIsFound(files: seq<File>, i: nat, before: string, m: string, after: string)
    requires i < |files| && files[i].sql == before + m + after
    requires m == "<<<<<<<" || m == ">>>>>>>" || m == "\n=======\n"
    ensures !ValidChain(files)
  {
    MarkedIff(files[i]);
    assert Around(files[i].sql, before, m, after);
    assert Faulty(files, i);
  }

  /** A chain is valid exactly when versions are distinct per direction and no text holds a marker. */
  lemma ValidChainIff(files: seq<File>)
    ensures ValidChain(files) <==>
            && (forall i, j | 0 <= i < j < |files| && files[i].version == files[j].version :: files[i].up != files[j].up)
            && (forall i | 0 <= i < |files| :: !Marked(files[i].sql))
  {
    forall i | 0 <= i < |files|
      ensures Faulty(files, i) <==>
              Marked(files[i].sql) || exists j :: 0 <= j < i && files[j].version == files[i].version && files[j].up == files[i].up
    {
      MarkedIff(files[i]);
    }
  }

  /** Accepts exactly the chains without a fault; otherwise reports the first faulty file. */
  method Validate(files: seq<File>) returns (r: Result<(), ChainError>)
    ensures r.Ok? <==> ValidChain(files)
    ensures r.Ok? <==> (forall i, j | 0 <= i < j < |files| && files[i].version == files[j].version :: files[i].up != files[j].up)
                       && (forall i | 0 <= i < |files| :: !Marked(files[i].sql))
    ensures r.Err? ==> exists i ::
              && 0 <= i < |files| && Faulty(files, i) && (forall j :: 0 <= j < i ==> !Faulty(files, j))
              && (r.error.DuplicateVersion? <==> Duplicates(files, i))
              && (r.error.DuplicateVersion? ==>
                    && r.error.version == files[i].version && r.error.second == files[i].name
                    && exists j :: 0 <= j < i && files[j].version == files[i].version
                                   && files[j].up == files[i].up && files[j].name == r.error.first)
              && (r.error.ConflictMarkers? ==> r.error.name == files[i].name)
  {
    ValidChainIff(files);
    var upSeen: map<int, string>, downSeen: map<int, string> := map[], map[];
    for i := 0 to |files|
      invariant forall j :: 0 <= j < i ==> !Faulty(files, j)
      invariant forall j :: 0 <= j < i ==> files[j].version in (if files[j].up then upSeen else downSeen)
      invariant forall v :: v in upSeen ==>
                  exists j :: 0 <= j < i && files[j].version == v && files[j].up && files[j].name == upSeen[v]
      invariant forall v :: v in downSeen ==>
                  exists j :: 0 <= j < i && files[j].version == v && !files[j].up && files[j].name == downSeen[v]
    {
      var f := files[i];
      var seen := if f.up then upSeen else downSeen;
      if f.version in seen {
        assert Faulty(files, i);
        return Err(DuplicateVersion(f.version, seen[f.version], f.name));
      }
      assert !Duplicates(files, i);
      if f.up { upSeen := upSeen[f.version := f.name]; } else { downSeen := downSeen[f.version := f.name]; }
      assert Faulty(files, i) <==> HasConflictMarker(f);
      if HasConflictMarker(f) { return Err(ConflictMarkers(f.name)); }
    }
    r := Ok(());
  }

  /** What ApplyUp relies on once the sorted chain is validated: up versions strictly ascend. */
  ghost predicate UpVersionsAscend(files: seq<File>) {
    forall i, j :: 0 <= i < j < |files| && files[i].up && files[j].up ==> files[i].version < files[j].version
  }

  lemma ValidChainAscends(files: seq<File>)
    requires Sorted(files) && ValidChain(files)
    ensures UpVersionsAscend(files)
  {
    forall i, j | 0 <= i < j < |files| && files[i].up && files[j].up ensures files[i].version < files[j].version {
      assert !Faulty(files, j);
    }
  }

  /** The up versions that are not in `applied`, in file order. */
  function Pending(files: seq<File>, applied: set<int>): seq<int> {
    if files == [] then []
    else (if files[0].up && files[0].version !in applied then [files[0].version] else []) + Pending(files[1..], applied)
  }

  function Versions(vs: seq<int>): set<int> { set i | 0 <= i < |vs| :: vs[i] }

  function UpVersions(files: seq<File>): set<int> { set i | 0 <= i < |files| && files[i].up :: files[i].version }

  // ---- Concurrent runners ----

  datatype Outcome = Applied(n: nat) | Failed(n: nat)

  /**
   Where a runner stands. `applied` is its read of schema_migrations, `i` the next file, `n` the
   count it will return; in InTx the SQL of file `i` has run but nothing is committed.
   */
  datatype Runner =
    | Waiting
    | Locked
    | Reading(applied: set<int>)
    | Working(applied: set<int>, i: nat, n: nat)
    | InTx(applied: set<int>, i: nat, n: nat)
    | Unlocking(outcome: Outcome)
    | Done(outcome: Outcome)

  /**
   `table` is schema_migrations, `sqlLog` the versions whose SQL was committed, in commit order;
   `start` remembers, per runner that took the lock, how long the log was, what the table held and
   what was pending then.
   */
  datatype State = State(table: set<int>, sqlLog: seq<int>, holder: Option<Id>, runners: map<Id, Runner>, start: map<Id, Start>)

  datatype Start = Start(pos: nat, table: set<int>, pending: seq<int>)

  /**
   Each statement succeeds or fails; a dropped connection frees the lock and undoes the transaction. A
   connection goes back to the pool when its runner is done and may be dropped later as well.
   */
  datatype Event =
    | Begin(r: Id)
    | Statement(r: Id, ok: bool)
    | DropConnection(r: Id)

  function Set(s: State, r: Id, next: Runner): State { s.(runners := s.runners[r := next]) }

  function DoStatement(files: seq<File>, s: State, r: Id, ok: bool): State {
    if r !in s.runners then s
    else
      match s.runners[r]
      case Waiting => // SELECT pg_advisory_lock: waits for the holder
        if !ok then Set(s, r, Unlocking(Failed(0)))
        else if s.holder.Some? then s
        else Set(s, r, Locked).(holder := Some(r), start := s.start[r := Start(|s.sqlLog|, s.table, Pending(files, s.table))])
      case Locked => // CREATE TABLE IF NOT EXISTS, then SELECT version
        if ok then Set(s, r, Reading(s.table)) else Set(s, r, Unlocking(Failed(0)))
      case Reading(applied) => // Files and Validate
        if ok && ValidChain(files) then Set(s, r, Working(applied, 0, 0)) else Set(s, r, Unlocking(Failed(0)))
      case Working(applied, i, n) =>
        if i >= |files| then Set(s, r, Unlocking(Applied(n)))
        else if !files[i].up || files[i].version in applied then Set(s, r, Working(applied, i + 1, n))
        else if ok then Set(s, r, InTx(applied, i, n)) // begin and run the SQL
        else Set(s, r, Unlocking(Failed(n)))
      case InTx(applied, i, n) => // insert the version and commit; PRIMARY KEY(version)
        if ok && i < |files| && files[i].version !in s.table then
          Set(s, r, Working(applied, i + 1, n + 1)).(table := s.table + {files[i].version}, sqlLog := s.sqlLog + [files[i].version])
        else Set(s, r, Unlocking(Failed(n)))
      case Unlocking(outcome) => // on a session without the lock it releases nothing; failing, it keeps the lock
        Set(s, r, Done(outcome)).(holder := if ok && s.holder == Some(r) then None else s.holder)
      case Done(_) => s
  }

  function OutcomeOf(runner: Runner): Outcome {
    match runner
    case Waiting => Failed(0)
    case Locked => Failed(0)
    case Reading(_) => Failed(0)
    case Working(_, _, n) => Failed(n)
    case InTx(_, _, n) => Failed(n)
    case Unlocking(outcome) => outcome
    case Done(outcome) => outcome
  }

  function Step(files: seq<File>, s: State, e: Event): State {
    match e
    case Begin(r) => if r in s.runners then s else Set(s, r, Waiting)
    case Statement(r, ok) => DoStatement(files, s, r, ok)
    case DropConnection(r) =>
      if r !in s.runners then s
      else Set(s, r, Done(OutcomeOf(s.runners[r]))).(holder := if s.holder == Some(r) then None else s.holder)
  }

  function Exec(files: seq<File>, s: State, es: seq<Event>): State {
    if es == [] then s else Step(files, Exec(files, s, es[..|es| - 1]), es[|es| - 1])
  }

  // ---- Invariant ----

  predicate HoldsLock(runner: Runner) {
    runner.Locked? || runner.Reading? || runner.Working? || runner.InTx?
  }

  function Count(runner: Runner): nat {
    match OutcomeOf(runner) case Applied(n) => n case Failed(n) => n
  }

  /** The first `n` versions of `pending` were committed, in this order, since position `from`. */
  ghost predicate Committed(log: seq<int>, from: nat, n: nat, pending: seq<int>) {
    from + n <= |log| && n <= |pending| && log[from..from + n] == pending[..n]
  }

  /** What a runner did since it took the lock. */
  ghost predicate Progress(files: seq<File>, table: set<int>, log: seq<int>, runner: Runner, st: Start) {
    && st.table <= table
    && Committed(log, st.pos, Count(runner), st.pending)
    && (OutcomeOf(runner).Applied? ==> Count(runner) == |st.pending|)
    && (HoldsLock(runner) ==> AtWork(files, table, log, runner, st))
  }

  /** While it holds the lock only the runner itself commits, and it works through what it read. */
  ghost predicate AtWork(files: seq<File>, table: set<int>, log: seq<int>, runner: Runner, st: Start) {
    && |log| == st.pos + Count(runner)
    && (forall v :: v in table ==> v in st.table || v in log[st.pos..])
    && (runner.Reading? ==> runner.applied == st.table)
    && (runner.Working? || runner.InTx? ==>
          && runner.applied == st.table && runner.i <= |files| && runner.n <= |st.pending|
          && Pending(files[runner.i..], st.table) == st.pending[runner.n..])
    && (runner.Working? || runner.InTx? ==> ValidChain(files))
    && (runner.InTx? ==> runner.i < |files| && files[runner.i].up && files[runner.i].version !in st.table)
  }

  ghost predicate RunnerOk(files: seq<File>, s: State, r: Id)
    requires r in s.runners
  {
    if r in s.start then
      s.start[r].pending == Pending(files, s.start[r].table) && Progress(files, s.table, s.sqlLog, s.runners[r], s.start[r])
    else !HoldsLock(s.runners[r]) && OutcomeOf(s.runners[r]) == Failed(0)
  }

  ghost predicate TableInv(s: State, base: set<int>) {
    && s.table == base + Versions(s.sqlLog)
    && (forall i, j :: 0 <= i < j < |s.sqlLog| ==> s.sqlLog[i] != s.sqlLog[j])
    && (forall i :: 0 <= i < |s.sqlLog| ==> s.sqlLog[i] !in base)
  }

  /** Only the holder is past the lock, and the holder is past it or about to unlock. */
  ghost predicate LockInv(s: State) {
    && (forall r :: r in s.runners && HoldsLock(s.runners[r]) ==> s.holder == Some(r) && r in s.start)
    && (s.holder.Some? ==>
          && s.holder.value in s.runners
          && (HoldsLock(s.runners[s.holder.value]) || s.runners[s.holder.value].Unlocking? || s.runners[s.holder.value].Done?))
    && s.start.Keys <= s.runners.Keys
  }

  /** `base` is what schema_migrations held before every run. */
  ghost predicate Inv(files: seq<File>, s: State, base: set<int>) {
    TableInv(s, base) && LockInv(s) && forall r :: r in s.runners ==> RunnerOk(files, s, r)
  }

  // ---- Pending versions ----

  lemma {:induction false} PendingMember(files: seq<File>, applied: set<int>, v: int)
    ensures v in Pending(files, applied) <==> v !in applied && exists i :: 0 <= i < |files| && files[i].up && files[i].version == v
  {
    if files != [] {
      PendingMember(files[1..], applied, v);
      if i :| 0 <= i < |files| && files[i].up && files[i].version == v {
        assert i > 0 ==> files[1..][i - 1] == files[i];
      }
      if i :| 0 <= i < |files[1..]| && files[1..][i].up && files[1..][i].version == v {
        assert files[i + 1] == files[1..][i];
      }
    }
  }

  lemma PendingAfterHead(files: seq<File>, applied: set<int>, v: int)
    requires UpVersionsAscend(files) && files != [] && files[0].up && v in Pending(files[1..], applied)
    ensures files[0].version < v
  {
    PendingMember(files[1..], applied, v);
    var i :| 0 <= i < |files[1..]| && files[1..][i].up && files[1..][i].version == v;
    assert files[i + 1] == files[1..][i];
  }

  /** The pending versions come in strictly ascending order. */
  lemma {:induction false} PendingAscends(files: seq<File>, applied: set<int>)
    requires UpVersionsAscend(files)
    ensures forall i, j :: 0 <= i < j < |Pending(files, applied)| ==> Pending(files, applied)[i] < Pending(files, applied)[j]
  {
    if files != [] {
      var p, rest := Pending(files, applied), files[1..];
      forall i, j | 0 <= i < j < |rest| && rest[i].up && rest[j].up ensures rest[i].version < rest[j].version {
        assert files[i + 1] == rest[i] && files[j + 1] == rest[j];
      }
      PendingAscends(rest, applied);
      var q := Pending(rest, applied);
      if files[0].up && files[0].version !in applied {
        assert p == [files[0].version] + q;
        forall i, j | 0 <= i < j < |p| ensures p[i] < p[j] {
          assert p[j] == q[j - 1];
          if i == 0 { PendingAfterHead(files, applied, q[j - 1]); } else { assert p[i] == q[i - 1]; }
        }
      }
    }
  }

  /** They are exactly the up versions that are not applied. */
  lemma PendingIsMissing(files: seq<File>, applied: set<int>)
    ensures Versions(Pending(files, applied)) == UpVersions(files) - applied
  {
    var p := Pending(files, applied);
    forall v ensures v in Versions(p) <==> v in UpVersions(files) - applied {
      PendingMember(files, applied, v);
      assert v in Versions(p) <==> v in p;
    }
  }

  // ---- Preservation ----

  lemma VersionsAppend(log: seq<int>, v: int)
    ensures Versions(log + [v]) == Versions(log) + {v}
  {
    assert (log + [v])[|log|] == v;
    forall w | w in Versions(log) ensures w in Versions(log + [v]) {
      var i :| 0 <= i < |log| && log[i] == w;
      assert (log + [v])[i] == w;
    }
  }

  /** A runner that does not hold the lock is not disturbed by what the holder commits. */
  lemma BystanderOk(files: seq<File>, table: set<int>, log: seq<int>, v: int, runner: Runner, st: Start)
    requires Progress(files, table, log, runner, st) && !HoldsLock(runner)
    ensures Progress(files, table + {v}, log + [v], runner, st)
  {
    var n := st.pos + Count(runner);
    assert (log + [v])[st.pos..n] == log[st.pos..n];
  }

  /** The version a runner is about to record is the next pending one and is not recorded yet. */
  lemma NextVersion(files: seq<File>, table: set<int>, log: seq<int>, runner: Runner, st: Start)
    requires UpVersionsAscend(files) && st.pending == Pending(files, st.table)
    requires Progress(files, table, log, runner, st) && runner.InTx?
    ensures runner.n < |st.pending| && st.pending[runner.n] == files[runner.i].version
    ensures files[runner.i].version !in table
    ensures Pending(files[runner.i + 1..], st.table) == st.pending[runner.n + 1..]
  {
    var rest := files[runner.i..];
    assert rest[0] == files[runner.i] && rest[1..] == files[runner.i + 1..];
    assert Pending(rest, st.table)[1..] == Pending(files[runner.i + 1..], st.table);
    assert st.pending[runner.n..][1..] == st.pending[runner.n + 1..];
    PendingAscends(files, st.table);
    assert log[st.pos..] == st.pending[..runner.n];
  }

  lemma CommittedAppend(log: seq<int>, from: nat, n: nat, pending: seq<int>)
    requires Committed(log, from, n, pending) && |log| == from + n && n < |pending|
    ensures Committed(log + [pending[n]], from, n + 1, pending)
  {
    assert (log + [pending[n]])[from..from + n + 1] == log[from..from + n] + [pending[n]];
    assert pending[..n + 1] == pending[..n] + [pending[n]];
  }

  lemma StillAtWork(files: seq<File>, table: set<int>, log: seq<int>, runner: Runner, st: Start, v: int)
    requires AtWork(files, table, log, runner, st) && runner.InTx? && runner.n < |st.pending| && st.pos <= |log|
    requires Pending(files[runner.i + 1..], st.table) == st.pending[runner.n + 1..]
    ensures AtWork(files, table + {v}, log + [v], Working(runner.applied, runner.i + 1, runner.n + 1), st)
  {
    assert (log + [v])[st.pos..] == log[st.pos..] + [v];
  }

  lemma CommitterOk(files: seq<File>, table: set<int>, log: seq<int>, runner: Runner, st: Start)
    requires UpVersionsAscend(files) && st.pending == Pending(files, st.table)
    requires Progress(files, table, log, runner, st) && runner.InTx?
    ensures Progress(files, table + {files[runner.i].version}, log + [files[runner.i].version],
                     Working(runner.applied, runner.i + 1, runner.n + 1), st)
  {
    var v := files[runner.i].version;
    assert Committed(log + [v], st.pos, runner.n + 1, st.pending) by {
      NextVersion(files, table, log, runner, st);
      CommittedAppend(log, st.pos, runner.n, st.pending);
    }
    assert AtWork(files, table + {v}, log + [v], Working(runner.applied, runner.i + 1, runner.n + 1), st) by {
      NextVersion(files, table, log, runner, st);
      StillAtWork(files, table, log, runner, st, v);
    }
  }

  lemma TableStep(s: State, base: set<int>, v: int)
    requires TableInv(s, base) && v !in s.table
    ensures TableInv(s.(table := s.table + {v}, sqlLog := s.sqlLog + [v]), base)
  {
    VersionsAppend(s.sqlLog, v);
    assert forall i :: 0 <= i < |s.sqlLog| ==> s.sqlLog[i] in Versions(s.sqlLog);
  }

  lemma LockStatement(files: seq<File>, s: State, r: Id, ok: bool)
    requires LockInv(s) && r in s.runners
    ensures LockInv(DoStatement(files, s, r, ok))
  {
    if HoldsLock(s.runners[r]) {
      assert s.holder == Some(r);
    } else if s.runners[r].Waiting? && ok && s.holder.None? {
      assert forall q :: q in s.runners ==> !HoldsLock(s.runners[q]);
    }
  }

  lemma LockStep(files: seq<File>, s: State, e: Event)
    requires LockInv(s)
    ensures LockInv(Step(files, s, e))
  {
    if e.Statement? && e.r in s.runners { LockStatement(files, s, e.r, e.ok); }
  }

  /** The one step that changes the table: a holder commits the next migration. */
  predicate Commits(files: seq<File>, s: State, e: Event) {
    && e.Statement? && e.ok && e.r in s.runners && s.runners[e.r].InTx?
    && s.runners[e.r].i < |files| && files[s.runners[e.r].i].version !in s.table
  }

  /** A runner that commits has validated the chain. */
  lemma CommitterValidated(files: seq<File>, s: State, e: Event)
    requires Sorted(files) && LockInv(s) && Commits(files, s, e) && RunnerOk(files, s, e.r)
    ensures ValidChain(files) && UpVersionsAscend(files)
  {
    assert AtWork(files, s.table, s.sqlLog, s.runners[e.r], s.start[e.r]);
    ValidChainAscends(files);
  }

  /** The committed state, with the committer moved on. */
  function AfterCommit(files: seq<File>, s: State, r: Id): State
    requires r in s.runners && s.runners[r].InTx? && s.runners[r].i < |files|
  {
    var x, v := s.runners[r], files[s.runners[r].i].version;
    s.(runners := s.runners[r := Working(x.applied, x.i + 1, x.n + 1)], table := s.table + {v}, sqlLog := s.sqlLog + [v])
  }

  lemma CommitIs(files: seq<File>, s: State, e: Event)
    requires Commits(files, s, e)
    ensures Step(files, s, e) == AfterCommit(files, s, e.r)
  {
  }

  lemma CommitterKept(files: seq<File>, s: State, r: Id)
    requires UpVersionsAscend(files) && r in s.start && r in s.runners && RunnerOk(files, s, r)
    requires s.runners[r].InTx? && s.runners[r].i < |files|
    ensures RunnerOk(files, AfterCommit(files, s, r), r)
  {
    CommitterOk(files, s.table, s.sqlLog, s.runners[r], s.start[r]);
  }

  lemma BystanderKept(files: seq<File>, s: State, r: Id, q: Id)
    requires r in s.runners && s.runners[r].InTx? && s.runners[r].i < |files|
    requires q != r && q in s.runners && RunnerOk(files, s, q) && !HoldsLock(s.runners[q])
    ensures RunnerOk(files, AfterCommit(files, s, r), q)
  {
    if q in s.start { BystanderOk(files, s.table, s.sqlLog, files[s.runners[r].i].version, s.runners[q], s.start[q]); }
  }

  lemma CommitKeepsRunner(files: seq<File>, s: State, e: Event, q: Id)
    requires UpVersionsAscend(files) && LockInv(s) && Commits(files, s, e) && q in s.runners && RunnerOk(files, s, q)
    ensures RunnerOk(files, Step(files, s, e), q)
  {
    CommitIs(files, s, e);
    assert HoldsLock(s.runners[e.r]) && s.holder == Some(e.r);
    if q == e.r { CommitterKept(files, s, q); } else { BystanderKept(files, s, e.r, q); }
  }

  lemma TakesLock(files: seq<File>, table: set<int>, log: seq<int>)
    ensures Progress(files, table, log, Locked, Start(|log|, table, Pending(files, table)))
  {
  }

  lemma PendingSkip(files: seq<File>, i: nat, applied: set<int>)
    requires i < |files| && (!files[i].up || files[i].version in applied)
    ensures Pending(files[i..], applied) == Pending(files[i + 1..], applied)
  {
    assert files[i..][0] == files[i] && files[i..][1..] == files[i + 1..];
  }

  /** A step of the holder that commits nothing and does not fail. */
  predicate ReadOnlyStep(files: seq<File>, table: set<int>, runner: Runner, next: Runner) {
    match runner
    case Locked => next == Reading(table)
    case Reading(applied) => ValidChain(files) && next == Working(applied, 0, 0)
    case Working(applied, i, n) =>
      if i >= |files| then next == Unlocking(Applied(n))
      else if !files[i].up || files[i].version in applied then next == Working(applied, i + 1, n)
      else next == InTx(applied, i, n)
    case _ => false
  }

  lemma HolderMoves(files: seq<File>, table: set<int>, log: seq<int>, runner: Runner, next: Runner, st: Start)
    requires st.pending == Pending(files, st.table) && Progress(files, table, log, runner, st)
    requires ReadOnlyStep(files, table, runner, next)
    ensures Progress(files, table, log, next, st)
  {
    match runner
    case Locked => assert log[st.pos..] == [];
    case Reading(_) => assert files[0..] == files;
    case Working(applied, i, n) =>
      if i < |files| && (!files[i].up || files[i].version in applied) { PendingSkip(files, i, applied); }
      if i >= |files| { assert files[i..] == []; }
    case _ =>
  }

  /** Giving up, being cut off or unlocking keeps the count and the outcome. */
  lemma GivesUp(files: seq<File>, table: set<int>, log: seq<int>, runner: Runner, next: Runner, st: Start)
    requires Progress(files, table, log, runner, st) && !HoldsLock(next) && OutcomeOf(next) == OutcomeOf(runner)
    ensures Progress(files, table, log, next, st)
  {
  }

  lemma WaiterOk(files: seq<File>, s: State, r: Id, ok: bool)
    requires LockInv(s) && r in s.runners && RunnerOk(files, s, r) && s.runners[r].Waiting?
    ensures RunnerOk(files, DoStatement(files, s, r, ok), r)
  {
    TakesLock(files, s.table, s.sqlLog);
  }

  lemma HolderOk(files: seq<File>, s: State, r: Id, ok: bool)
    requires LockInv(s) && r in s.start && r in s.runners && RunnerOk(files, s, r) && HoldsLock(s.runners[r])
    requires !Commits(files, s, Statement(r, ok))
    ensures RunnerOk(files, DoStatement(files, s, r, ok), r)
  {
    var x, next := s.runners[r], DoStatement(files, s, r, ok).runners[r];
    if HoldsLock(next) || OutcomeOf(next) != OutcomeOf(x) {
      HolderMoves(files, s.table, s.sqlLog, x, next, s.start[r]);
    } else {
      GivesUp(files, s.table, s.sqlLog, x, next, s.start[r]);
    }
  }

  lemma EndingOk(files: seq<File>, s: State, r: Id, ok: bool)
    requires r in s.runners && RunnerOk(files, s, r) && (s.runners[r].Unlocking? || s.runners[r].Done?)
    ensures RunnerOk(files, DoStatement(files, s, r, ok), r)
  {
    if r in s.start && s.runners[r].Unlocking? {
      GivesUp(files, s.table, s.sqlLog, s.runners[r], Done(s.runners[r].outcome), s.start[r]);
    }
  }

  lemma StatementOk(files: seq<File>, s: State, r: Id, ok: bool)
    requires LockInv(s) && r in s.runners && RunnerOk(files, s, r) && !Commits(files, s, Statement(r, ok))
    ensures RunnerOk(files, DoStatement(files, s, r, ok), r)
  {
    if s.runners[r].Waiting? { WaiterOk(files, s, r, ok); }
    else if HoldsLock(s.runners[r]) { HolderOk(files, s, r, ok); }
    else { EndingOk(files, s, r, ok); }
  }

  lemma QuietKeepsRunner(files: seq<File>, s: State, e: Event, q: Id)
    requires LockInv(s) && !Commits(files, s, e) && q in s.runners && RunnerOk(files, s, q)
    ensures RunnerOk(files, Step(files, s, e), q)
  {
    if q == e.r && e.Statement? {
      StatementOk(files, s, q, e.ok);
    } else if q == e.r && e.DropConnection? && q in s.start {
      GivesUp(files, s.table, s.sqlLog, s.runners[q], Done(OutcomeOf(s.runners[q])), s.start[q]);
    }
  }

  lemma TableKept(files: seq<File>, s: State, base: set<int>, e: Event)
    requires TableInv(s, base)
    ensures TableInv(Step(files, s, e), base)
  {
    if Commits(files, s, e) { TableStep(s, base, files[s.runners[e.r].i].version); }
  }

  lemma KeepsRunner(files: seq<File>, s: State, e: Event, q: Id)
    requires Sorted(files) && LockInv(s) && q in Step(files, s, e).runners
    requires q in s.runners ==> RunnerOk(files, s, q)
    requires e.r in s.runners ==> RunnerOk(files, s, e.r)
    ensures RunnerOk(files, Step(files, s, e), q)
  {
    if q in s.runners {
      if Commits(files, s, e) {
        CommitterValidated(files, s, e);
        CommitKeepsRunner(files, s, e, q);
      } else {
        QuietKeepsRunner(files, s, e, q);
      }
    }
  }

  lemma StepInv(files: seq<File>, s: State, base: set<int>, e: Event)
    requires Sorted(files) && Inv(files, s, base)
    ensures Inv(files, Step(files, s, e), base)
  {
    TableKept(files, s, base, e);
    LockStep(files, s, e);
    var t := Step(files, s, e);
    forall q | q in t.runners ensures RunnerOk(files, t, q) {
      KeepsRunner(files, s, e, q);
    }
  }

  lemma {:induction false} RunInv(files: seq<File>, s: State, base: set<int>, es: seq<Event>)
    requires Sorted(files) && Inv(files, s, base)
    ensures Inv(files, Exec(files, s, es), base)
  {
    if es != [] {
      RunInv(files, s, base, es[..|es| - 1]);
      StepInv(files, Exec(files, s, es[..|es| - 1]), base, es[|es| - 1]);
    }
  }

  // ---- What every run guarantees ----

  function Fresh(base: set<int>): State { State(base, [], None, map[], map[]) }

  /**
   However many runners interleave at statement granularity, fail or lose their connection: each
   version's SQL is committed at most once, never when it was applied before, and schema_migrations
   is exactly what was there plus what was committed.
   */
  lemma EachMigrationCommitsOnce(files: seq<File>, base: set<int>, es: seq<Event>)
    requires Sorted(files)
    ensures var s := Exec(files, Fresh(base), es);
            && s.table == base + Versions(s.sqlLog) && base !! Versions(s.sqlLog)
            && forall i, j :: 0 <= i < j < |s.sqlLog| ==> s.sqlLog[i] != s.sqlLog[j]
  {
    RunInv(files, Fresh(base), base, es);
  }

  lemma CommittedIsLogged(log: seq<int>, from: nat, pending: seq<int>, v: int)
    requires Committed(log, from, |pending|, pending) && v in Versions(pending)
    ensures v in Versions(log)
  {
    var i :| 0 <= i < |pending| && pending[i] == v;
    assert pending[..|pending|][i] == log[from..from + |pending|][i] == log[from + i];
  }

  /** After committing everything that was pending, no up version is missing. */
  lemma NothingMissing(files: seq<File>, s: State, base: set<int>, st: Start)
    requires TableInv(s, base) && st.table <= s.table && st.pending == Pending(files, st.table)
    requires Committed(s.sqlLog, st.pos, |st.pending|, st.pending)
    ensures UpVersions(files) <= s.table
  {
    PendingIsMissing(files, st.table);
    forall v | v in UpVersions(files) && v !in st.table ensures v in s.table {
      CommittedIsLogged(s.sqlLog, st.pos, st.pending, v);
    }
  }

  /** The unlock statement of the runner that holds the lock fails on a connection that lives on. */
  predicate UnlockFails(s: State, e: Event) {
    e.Statement? && !e.ok && e.r in s.runners && s.runners[e.r].Unlocking? && s.holder == Some(e.r)
  }

  /** What the step makes of it. */
  function LeakedAfter(s: State, e: Event, before: Option<Id>): Option<Id> {
    if UnlockFails(s, e) then Some(e.r)
    else if e.DropConnection? && before == Some(e.r) then None
    else before
  }

  /** The runner whose failed unlock took the lock back to the pool, unless its connection was dropped since. */
  function Leaked(files: seq<File>, s: State, es: seq<Event>): Option<Id> {
    if es == [] then None
    else LeakedAfter(Exec(files, s, es[..|es| - 1]), es[|es| - 1], Leaked(files, s, es[..|es| - 1]))
  }

  /** A runner that is done holds the lock exactly when it has leaked it. */
  predicate LeakOk(s: State, leaked: Option<Id>) {
    && (leaked.Some? ==> s.holder == leaked && leaked.value in s.runners && s.runners[leaked.value].Done?)
    && (s.holder.Some? && s.holder.value in s.runners && s.runners[s.holder.value].Done? ==> leaked == s.holder)
  }

  lemma LeakedStep(files: seq<File>, s: State, e: Event, before: Option<Id>)
    requires LockInv(s) && LeakOk(s, before)
    ensures LeakOk(Step(files, s, e), LeakedAfter(s, e, before))
  {
  }

  lemma {:induction false} LeakedHolds(files: seq<File>, base: set<int>, es: seq<Event>)
    requires Sorted(files)
    ensures LeakOk(Exec(files, Fresh(base), es), Leaked(files, Fresh(base), es))
  {
    if es != [] {
      var init := es[..|es| - 1];
      LeakedHolds(files, base, init);
      RunInv(files, Fresh(base), base, init);
      LeakedStep(files, Exec(files, Fresh(base), init), es[|es| - 1], Leaked(files, Fresh(base), init));
    }
  }

  /**
   A finished runner that took the lock committed exactly the first `n` of the versions pending
   when it took it, in ascending order, with nobody else's in between; on success, all of them.
   */
  lemma RunnerProgress(files: seq<File>, base: set<int>, es: seq<Event>, r: Id)
    requires Sorted(files)
    requires var s := Exec(files, Fresh(base), es); r in s.runners && s.runners[r].Done?
    ensures var s := Exec(files, Fresh(base), es);
            && (s.holder == Some(r) <==> Leaked(files, Fresh(base), es) == Some(r))
            && (r !in s.start ==> s.runners[r].outcome == Failed(0))
            && (r in s.start ==>
                  && Committed(s.sqlLog, s.start[r].pos, s.runners[r].outcome.n, Pending(files, s.start[r].table))
                  && (s.runners[r].outcome.Applied? ==>
                        s.runners[r].outcome.n == |Pending(files, s.start[r].table)| && UpVersions(files) <= s.table))
  {
    RunInv(files, Fresh(base), base, es);
    var s := Exec(files, Fresh(base), es);
    assert RunnerOk(files, s, r);
    LeakedHolds(files, base, es);
    if r in s.start && s.runners[r].outcome.Applied? {
      NothingMissing(files, s, base, s.start[r]);
    }
  }

  /** None of the runner's own statements fails and its connection is not dropped. */
  predicate Undisturbed(es: seq<Event>, r: Id) {
    Statement(r, false) !in es && DropConnection(r) !in es
  }

  predicate HasFailed(runner: Runner) {
    (runner.Unlocking? || runner.Done?) && runner.outcome.Failed?
  }

  lemma CommitDoesNotFail(files: seq<File>, s: State, r: Id)
    requires Sorted(files) && ValidChain(files) && r in s.start && r in s.runners && RunnerOk(files, s, r)
    requires s.runners[r].InTx?
    ensures !HasFailed(DoStatement(files, s, r, true).runners[r])
  {
    ValidChainAscends(files);
    NextVersion(files, s.table, s.sqlLog, s.runners[r], s.start[r]);
  }

  lemma StatementDoesNotFail(files: seq<File>, s: State, r: Id)
    requires ValidChain(files) && r in s.runners && !s.runners[r].InTx? && !HasFailed(s.runners[r])
    ensures !HasFailed(DoStatement(files, s, r, true).runners[r])
  {
  }

  lemma OthersLeaveIt(files: seq<File>, s: State, e: Event, r: Id)
    requires e.r != r || e.Begin?
    ensures r in s.runners ==> Step(files, s, e).runners[r] == s.runners[r]
    ensures r !in s.runners && r in Step(files, s, e).runners ==> Step(files, s, e).runners[r] == Waiting
  {
  }

  lemma StepDoesNotFail(files: seq<File>, s: State, e: Event, r: Id)
    requires Sorted(files) && ValidChain(files)
    requires r in s.runners ==> (s.runners[r].InTx? ==> r in s.start) && RunnerOk(files, s, r) && !HasFailed(s.runners[r])
    requires e != Statement(r, false) && e != DropConnection(r)
    ensures var t := Step(files, s, e); r in t.runners ==> !HasFailed(t.runners[r])
  {
    if e.r != r || e.Begin? { OthersLeaveIt(files, s, e, r); }
    else if r in s.runners && s.runners[r].InTx? { CommitDoesNotFail(files, s, r); }
    else if r in s.runners { StatementDoesNotFail(files, s, r); }
  }

  /**
   What the lock is for: with a valid chain, a runner whose own statements all succeed never fails,
   whatever the runners beside it do. Nobody loses a race for a version and dies of it.
   */
  lemma {:induction false} NobodyLosesTheRace(files: seq<File>, base: set<int>, es: seq<Event>, r: Id)
    requires Sorted(files) && ValidChain(files) && Undisturbed(es, r)
    ensures var s := Exec(files, Fresh(base), es); r in s.runners ==> !HasFailed(s.runners[r])
  {
    if es != [] {
      var init := es[..|es| - 1];
      NobodyLosesTheRace(files, base, init, r);
      RunInv(files, Fresh(base), base, init);
      StepDoesNotFail(files, Exec(files, Fresh(base), init), es[|es| - 1], r);
    }
  }

  /** How many statements a runner can still have before it. */
  function Ahead(files: seq<File>, runner: Runner): nat {
    match runner
    case Waiting => 2 * |files| + 6
    case Locked => 2 * |files| + 5
    case Reading(_) => 2 * |files| + 4
    case Working(_, i, _) => if i < |files| then 2 * (|files| - i) + 3 else 3
    case InTx(_, i, _) => if i < |files| then 2 * (|files| - i) + 2 else 2
    case Unlocking(_) => 1
    case Done(_) => 0
  }

  /** A migration that has begun is one of the files. */
  lemma InTxIsAFile(files: seq<File>, s: State, base: set<int>, r: Id)
    requires Inv(files, s, base) && r in s.runners && s.runners[r].InTx?
    ensures s.runners[r].i < |files| && r in s.start
  {
    assert RunnerOk(files, s, r);
  }

  lemma ComesNearer(files: seq<File>, s: State, r: Id)
    requires r in s.runners && !s.runners[r].Done? && s.holder in {None, Some(r)}
    requires s.runners[r].InTx? ==> s.runners[r].i < |files|
    requires s.runners[r].Waiting? ==> s.holder == None
    ensures var t := DoStatement(files, s, r, true);
            && r in t.runners && t.holder in {None, Some(r)}
            && Ahead(files, t.runners[r]) < Ahead(files, s.runners[r])
            && (t.runners[r].Done? ==> t.holder == None)
  {
  }

  /** With the lock its own or free, a statement of the runner that succeeds brings it nearer its end. */
  lemma GoesOn(files: seq<File>, s: State, base: set<int>, r: Id)
    requires Sorted(files) && ValidChain(files) && Inv(files, s, base)
    requires r in s.runners && !s.runners[r].Done? && !HasFailed(s.runners[r]) && s.holder in {None, Some(r)}
    ensures var t := DoStatement(files, s, r, true);
            && r in t.runners && !HasFailed(t.runners[r]) && t.holder in {None, Some(r)}
            && Ahead(files, t.runners[r]) < Ahead(files, s.runners[r])
            && (t.runners[r].Done? ==> t.holder == None)
  {
    if s.runners[r].InTx? { InTxIsAFile(files, s, base, r); }
    assert RunnerOk(files, s, r);
    StepDoesNotFail(files, s, Statement(r, true), r);
    ComesNearer(files, s, r);
  }

  lemma ExecNext(files: seq<File>, s: State, es: seq<Event>, e: Event)
    ensures Exec(files, s, es + [e]) == Step(files, Exec(files, s, es), e)
  {
    assert (es + [e])[..|es|] == es;
  }

  /** The runner has not failed, and nobody else has the lock. */
  predicate Able(s: State, r: Id) {
    r in s.runners && !HasFailed(s.runners[r]) && s.holder in {None, Some(r)}
  }

  lemma OneStatement(files: seq<File>, base: set<int>, es: seq<Event>, r: Id)
    requires Sorted(files) && ValidChain(files)
    requires Able(Exec(files, Fresh(base), es), r) && !Exec(files, Fresh(base), es).runners[r].Done?
    ensures var t := Exec(files, Fresh(base), es + [Statement(r, true)]);
            && Able(t, r)
            && Ahead(files, t.runners[r]) < Ahead(files, Exec(files, Fresh(base), es).runners[r])
            && (t.runners[r].Done? ==> t.holder == None)
  {
    ExecNext(files, Fresh(base), es, Statement(r, true));
    RunInv(files, Fresh(base), base, es);
    GoesOn(files, Exec(files, Fresh(base), es), base, r);
  }

  /** The runner has ended well: every up version is applied and the lock is free. */
  ghost predicate Succeeded(files: seq<File>, s: State, r: Id) {
    && r in s.runners && s.runners[r].Done? && s.runners[r].outcome.Applied?
    && UpVersions(files) <= s.table && s.holder == None
  }

  lemma SuccessIsComplete(files: seq<File>, base: set<int>, es: seq<Event>, r: Id)
    requires Sorted(files)
    requires Able(Exec(files, Fresh(base), es), r) && Exec(files, Fresh(base), es).runners[r].Done?
    requires Exec(files, Fresh(base), es).holder == None
    ensures Succeeded(files, Exec(files, Fresh(base), es), r)
  {
    RunnerProgress(files, base, es, r);
  }

  /**
   Recovery: whatever runners did before, how far this one had got and however many migrations are in, once nobody else
   holds the lock it ends with every up version applied and the lock free, if its remaining statements succeed.
   */
  lemma {:induction false} RunnerFinishes(files: seq<File>, base: set<int>, es: seq<Event>, r: Id) returns (more: seq<Event>)
    requires Sorted(files) && ValidChain(files)
    requires Able(Exec(files, Fresh(base), es), r) && !Exec(files, Fresh(base), es).runners[r].Done?
    ensures forall e :: e in more ==> e == Statement(r, true)
    ensures Succeeded(files, Exec(files, Fresh(base), es + more), r)
    decreases Ahead(files, Exec(files, Fresh(base), es).runners[r])
  {
    var e := Statement(r, true);
    OneStatement(files, base, es, r);
    if Exec(files, Fresh(base), es + [e]).runners[r].Done? {
      more := [e];
      SuccessIsComplete(files, base, es + more, r);
    } else {
      var rest := RunnerFinishes(files, base, es + [e], r);
      more := [e] + rest;
      assert es + more == (es + [e]) + rest;
    }
  }

  /** A chain that Validate rejects stops every runner before its first migration. */
  lemma {:induction false} InvalidChainCommitsNothing(files: seq<File>, base: set<int>, es: seq<Event>)
    requires Sorted(files) && !ValidChain(files)
    ensures Exec(files, Fresh(base), es).sqlLog == [] && Exec(files, Fresh(base), es).table == base
  {
    if es != [] {
      var s, e := Exec(files, Fresh(base), es[..|es| - 1]), es[|es| - 1];
      InvalidChainCommitsNothing(files, base, es[..|es| - 1]);
      RunInv(files, Fresh(base), base, es[..|es| - 1]);
      if Commits(files, s, e) { CommitterValidated(files, s, e); } else { OnlyCommitsWrite(files, s, e); }
    }
  }

  lemma OnlyCommitsWrite(files: seq<File>, s: State, e: Event)
    requires !Commits(files, s, e)
    ensures Step(files, s, e).sqlLog == s.sqlLog && Step(files, s, e).table == s.table
  {
  }

  /** When every runner is done, the lock is free if and only if none has gone back to the pool with it. */
  lemma LockIsFreedIff(files: seq<File>, base: set<int>, es: seq<Event>)
    requires Sorted(files)
    requires forall r :: r in Exec(files, Fresh(base), es).runners ==> Exec(files, Fresh(base), es).runners[r].Done?
    ensures Exec(files, Fresh(base), es).holder == None <==> Leaked(files, Fresh(base), es) == None
  {
    RunInv(files, Fresh(base), base, es);
    LeakedHolds(files, base, es);
  }

  /** In particular it is free when no unlock fails, whichever way each runner ended. */
  lemma LockIsFreed(files: seq<File>, base: set<int>, es: seq<Event>)
    requires Sorted(files)
    requires forall r :: r in Exec(files, Fresh(base), es).runners ==> Exec(files, Fresh(base), es).runners[r].Done?
    requires forall k :: 0 <= k < |es| ==> !UnlockFails(Exec(files, Fresh(base), es[..k]), es[k])
    ensures Exec(files, Fresh(base), es).holder == None
  {
    NeverLeaked(files, Fresh(base), es);
    LockIsFreedIff(files, base, es);
  }

  lemma {:induction false} NeverLeaked(files: seq<File>, s: State, es: seq<Event>)
    requires forall k :: 0 <= k < |es| ==> !UnlockFails(Exec(files, s, es[..k]), es[k])
    ensures Leaked(files, s, es) == None
  {
    if es != [] {
      var init := es[..|es| - 1];
      forall k | 0 <= k < |init| ensures !UnlockFails(Exec(files, s, init[..k]), init[k]) {
        assert init[..k] == es[..k];
      }
      NeverLeaked(files, s, init);
      assert !UnlockFails(Exec(files, s, init), es[|es| - 1]);
    }
  }

  // ---- The runner as a program ----

  /** The server side: the bookkeeping table, what was committed, and the session holding the lock. */
  class Database {
    var table: set<int>
    var sqlLog: seq<int>
    var holder: Option<Id>

    constructor (table: set<int>)
      ensures this.table == table && sqlLog == [] && holder == None
    {
      this.table, sqlLog, holder := table, [], None;
    }
  }

  class AdvisoryLock {
    const db: Database
    /** The dedicated session, until it is returned to the pool. */
    var conn: Option<Id>

    constructor (db: Database, session: Id)
      ensures this.db == db && conn == Some(session)
    {
      this.db, conn := db, Some(session);
    }

    /**
     Releases the lock if this session holds it and the statement succeeds; the connection goes back
     to the pool either way, with the lock if it fails. A second call does nothing.
     */
    method Unlock(succeeds: bool) returns (ok: bool)
      modifies this, db`holder
      ensures conn == None
      ensures ok <==> old(conn).None? || succeeds
      ensures db.holder == if succeeds && old(conn).Some? && old(db.holder) == old(conn) then None else old(db.holder)
    {
      if conn.None? { return true; }
      var session := conn;
      conn := None;
      if !succeeds { return false; }
      if db.holder == session { db.holder := None; }
      ok := true;
    }
  }

  /** The next pending version is never one that is already recorded: the primary key cannot fail. */
  lemma NothingCollides(files: seq<File>, applied: set<int>, n: nat)
    requires UpVersionsAscend(files) && n < |Pending(files, applied)|
    ensures Pending(files, applied)[n] !in applied + Versions(Pending(files, applied)[..n])
  {
    var p := Pending(files, applied);
    PendingAscends(files, applied);
    PendingMember(files, applied, p[n]);
  }

  /** Applying the next file commits the next pending version, which the primary key accepts. */
  lemma ApplyNext(files: seq<File>, applied: set<int>, i: nat, n: nat)
    requires UpVersionsAscend(files) && i < |files| && files[i].up && files[i].version !in applied
    requires n <= |Pending(files, applied)| && Pending(files[i..], applied) == Pending(files, applied)[n..]
    ensures var p, v := Pending(files, applied), files[i].version;
            && n < |p| && Pending(files[i + 1..], applied) == p[n + 1..]
            && v !in applied + Versions(p[..n])
            && p[..n + 1] == p[..n] + [v] && Versions(p[..n + 1]) == Versions(p[..n]) + {v}
  {
    var p, v := Pending(files, applied), files[i].version;
    assert files[i..][0] == files[i] && files[i..][1..] == files[i + 1..];
    assert p[n..][0] == v && p[n..][1..] == p[n + 1..];
    NothingCollides(files, applied, n);
    assert p[..n + 1] == p[..n] + [v];
    VersionsAppend(p[..n], v);
  }

  /** Which statements of a run succeed; `tx` answers for the transaction of each file. */
  datatype Weather = Weather(lock: bool, read: bool, tx: nat -> bool, unlock: bool)

  /** The transaction of one file: its SQL and its version, unless a statement or the primary key fails. */
  method ApplyOne(db: Database, version: int, succeeds: bool) returns (ok: bool)
    modifies db`table, db`sqlLog
    ensures ok <==> succeeds && version !in old(db.table)
    ensures db.table == old(db.table) + (if ok then {version} else {})
    ensures db.sqlLog == old(db.sqlLog) + (if ok then [version] else [])
  {
    ok := succeeds && version !in db.table;
    if ok { db.table, db.sqlLog := db.table + {version}, db.sqlLog + [version]; }
  }

  /** The loop of ApplyUp: each pending file in its own transaction, stopping at the first failure. */
  method ApplyPending(db: Database, files: seq<File>, w: Weather) returns (n: nat, ok: bool)
    requires UpVersionsAscend(files)
    modifies db`table, db`sqlLog
    ensures n <= |Pending(files, old(db.table))|
    ensures db.sqlLog == old(db.sqlLog) + Pending(files, old(db.table))[..n]
    ensures db.table == old(db.table) + Versions(Pending(files, old(db.table))[..n])
    ensures ok ==> n == |Pending(files, old(db.table))|
    ensures (forall i :: w.tx(i)) ==> ok
  {
    n, ok := 0, false;
    var applied := db.table;
    ghost var p := Pending(files, applied);
    for i := 0 to |files|
      invariant n <= |p| && Pending(files[i..], applied) == p[n..]
      invariant db.sqlLog == old(db.sqlLog) + p[..n] && db.table == applied + Versions(p[..n])
    {
      if !files[i].up || files[i].version in applied {
        PendingSkip(files, i, applied);
        continue;
      }
      ApplyNext(files, applied, i, n);
      ok := ApplyOne(db, files[i].version, w.tx(i));
      if !ok { return; }
      n := n + 1;
    }
    assert files[|files|..] == [];
    ok := true;
  }

  /**
   One run, once the lock is free. It commits the first `n` pending versions in order and nothing
   else, all of them when it reports success, and it leaves the lock taken only by a failed unlock.
   */
  method ApplyUp(db: Database, session: Id, files: seq<File>, w: Weather) returns (n: nat, ok: bool)
    requires Sorted(files) && db.holder == None
    modifies db
    ensures db.holder == if w.lock && !w.unlock then Some(session) else None
    ensures n <= |Pending(files, old(db.table))|
    ensures db.sqlLog == old(db.sqlLog) + Pending(files, old(db.table))[..n]
    ensures db.table == old(db.table) + Versions(Pending(files, old(db.table))[..n])
    ensures ok ==> n == |Pending(files, old(db.table))| && UpVersions(files) <= db.table
    ensures !ValidChain(files) ==> n == 0 && !ok
    ensures w.lock && w.read && (forall i :: w.tx(i)) && ValidChain(files) ==> ok
  {
    n, ok := 0, false;
    var lock := new AdvisoryLock(db, session);
    if w.lock {
      db.holder := Some(session);
      var valid := Validate(files);
      if w.read && valid.Ok? {
        ValidChainAscends(files);
        PendingIsMissing(files, db.table);
        n, ok := ApplyPending(db, files, w);
        assert ok ==> Pending(files, old(db.table))[..n] == Pending(files, old(db.table));
      }
    }
    var released := lock.Unlock(w.unlock);
  }
}
