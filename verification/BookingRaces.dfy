/**
 Bookings, sweeps and settlements as concurrent transactions.

 A transaction reads committed rows, keeps its own writes private and publishes them in one
 commit. A booking holds its cohort's row lock from the read to the commit; a settlement and a
 sweep hold the row lock of every order they have claimed; a sweep holds the row lock of every
 enrolment it has listed, and skips those another sweep holds. A step that would wait for a lock,
 or that the code refuses, leaves the state as it is.
 */
module BookingRaces {
  import opened Common
  import opened BookingModel

  /** `held` are the enrolment rows the listing locked, all created before `cutoff`. */
  datatype Sweep = Sweep(todo: seq<Claim>, done: seq<Claim>, held: set<Id>, cutoff: int)

  datatype State = State(db: Db, bookings: map<Id, Booking>, sweeps: map<Id, Sweep>, settles: map<Id, Settle>)

  datatype Event =
    | BookBegin(tx: Id, cohort: Id, student: Id, parent: Id, key: Option<string>, now: int)
    | BookCommit(tx: Id, order: Id, newRow: Id)
    | SweepList(tx: Id, rows: seq<Id>, cutoff: int)
    | SweepRow(tx: Id)
    | SweepCommit(tx: Id)
    | SettleBegin(tx: Id, order: Id)
    | SettleCommit(tx: Id)
    | Abort(tx: Id)

  // ---- Locks ----

  ghost predicate CohortLocked(s: State, c: Id) {
    exists t :: t in s.bookings && s.bookings[t].cohort == c
  }

  ghost predicate OrderLocked(s: State, o: Id) {
    || (exists t :: t in s.settles && s.settles[t].order == o)
    || (exists t :: t in s.sweeps && ClaimsOrder(s.sweeps[t].done, o))
  }

  ghost predicate RowLocked(s: State, e: Id) {
    exists t :: t in s.sweeps && e in s.sweeps[t].held
  }

  predicate Distinct(rows: seq<Id>) { forall i, j :: 0 <= i < j < |rows| ==> rows[i] != rows[j] }

  function Members(rows: seq<Id>): set<Id> { set i | 0 <= i < |rows| :: rows[i] }

  /** The settlement would write an enrolment or cohort row that another transaction has locked. */
  ghost predicate SettleWaits(s: State, t: Settle) {
    && t.row.Some? && t.row.value in s.db.enrollments && t.seen != EnrollConfirmed
    && (RowLocked(s, t.row.value)
        || (t.seen == EnrollCancelled && CohortLocked(s, s.db.enrollments[t.row.value].cohort)))
  }

  // ---- Steps ----

  ghost function DoBookBegin(s: State, tx: Id, c: Id, student: Id, parent: Id, key: Option<string>, now: int): State {
    if tx in s.bookings || KeyUsed(s.db, key) || CohortLocked(s, c) then s
    else
      match Admit(s.db, c, student, now)
      case Err(_) => s
      case Ok(revive) => s.(bookings := s.bookings[tx := Booking(c, student, parent, key, revive, now)])
  }

  /** The ids of a new order and row are unused ones; a used key is a unique violation and rolls back. */
  ghost function DoBookCommit(s: State, tx: Id, o: Id, newRow: Id): State {
    if tx !in s.bookings || o in s.db.orders || newRow in s.db.enrollments then s
    else
      var b := s.bookings[tx];
      if KeyUsed(s.db, b.key) then s.(bookings := s.bookings - {tx})
      else if b.cohort !in s.db.cohorts || (b.revive.Some? && b.revive.value !in s.db.enrollments) then s
      else if b.revive.Some? && RowLocked(s, b.revive.value) then s
      else s.(db := Reserve(s.db, b, o, newRow), bookings := s.bookings - {tx})
  }

  function ListedAll(db: Db, rows: seq<Id>): (cs: seq<Claim>)
    requires forall i :: 0 <= i < |rows| ==> rows[i] in db.enrollments
    ensures |cs| == |rows| && forall i :: 0 <= i < |rows| ==> cs[i] == Listed(db, rows[i])
  {
    seq(|rows|, i requires 0 <= i < |rows| => Listed(db, rows[i]))
  }

  predicate AllStale(db: Db, rows: seq<Id>, cutoff: int) {
    forall i :: 0 <= i < |rows| ==> rows[i] in db.enrollments && Stale(db, rows[i], cutoff)
  }

  /** SELECT ... FOR UPDATE SKIP LOCKED: stale rows that no other sweep holds, each once. */
  ghost predicate Listable(s: State, rows: seq<Id>, cutoff: int) {
    Distinct(rows) && AllStale(s.db, rows, cutoff) && forall i :: 0 <= i < |rows| ==> !RowLocked(s, rows[i])
  }

  ghost function DoSweepList(s: State, tx: Id, rows: seq<Id>, cutoff: int): State {
    if tx in s.sweeps || !Listable(s, rows, cutoff) then s
    else s.(sweeps := s.sweeps[tx := Sweep(ListedAll(s.db, rows), [], Members(rows), cutoff)])
  }

  /** Reads the row's order; on PENDING takes the order by compare-and-set, waiting for its lock. */
  ghost function DoSweepRow(s: State, tx: Id): State {
    if tx !in s.sweeps || s.sweeps[tx].todo == [] then s
    else
      var sw := s.sweeps[tx];
      var cl := sw.todo[0];
      var rest := sw.todo[1..];
      if !Expires(s.db, cl) then s.(sweeps := s.sweeps[tx := sw.(todo := rest)])
      else if Claimed(s.db, cl).order.Some? && ClaimsOrder(sw.done, cl.order.value) then
        s.(sweeps := s.sweeps[tx := sw.(todo := rest)]) // its own write: no longer PENDING
      else if Claimed(s.db, cl).order.Some? && OrderLocked(s, cl.order.value) then s
      else s.(sweeps := s.sweeps[tx := sw.(todo := rest, done := sw.done + [Claimed(s.db, cl)])])
  }

  ghost function DoSweepCommit(s: State, tx: Id): State {
    if tx !in s.sweeps || s.sweeps[tx].todo != [] then s
    else if exists i :: 0 <= i < |s.sweeps[tx].done| && CohortLocked(s, s.sweeps[tx].done[i].cohort) then s
    else s.(db := Release(s.db, s.sweeps[tx].done), sweeps := s.sweeps - {tx})
  }

  ghost function DoSettleBegin(s: State, tx: Id, o: Id): State {
    if tx in s.settles || !Settleable(s.db, o) || OrderLocked(s, o) then s
    else
      var row := SettledRow(s.db, o);
      var seen := if row.Some? then s.db.enrollments[row.value].status else EnrollPending;
      s.(settles := s.settles[tx := Settle(o, row, seen)])
  }

  ghost function DoSettleCommit(s: State, tx: Id): State {
    if tx !in s.settles then s
    else
      var t := s.settles[tx];
      if t.order !in s.db.orders || (t.row.Some? && t.row.value !in s.db.enrollments) then s
      else if SettleWaits(s, t) then s
      else s.(db := Pay(s.db, t), settles := s.settles - {tx})
  }

  ghost function Step(s: State, e: Event): State {
    match e
    case BookBegin(tx, c, student, parent, key, now) => DoBookBegin(s, tx, c, student, parent, key, now)
    case BookCommit(tx, o, newRow) => DoBookCommit(s, tx, o, newRow)
    case SweepList(tx, rows, cutoff) => DoSweepList(s, tx, rows, cutoff)
    case SweepRow(tx) => DoSweepRow(s, tx)
    case SweepCommit(tx) => DoSweepCommit(s, tx)
    case SettleBegin(tx, o) => DoSettleBegin(s, tx, o)
    case SettleCommit(tx) => DoSettleCommit(s, tx)
    case Abort(tx) => s.(bookings := s.bookings - {tx}, sweeps := s.sweeps - {tx}, settles := s.settles - {tx})
  }

  ghost function Exec(s: State, es: seq<Event>): State {
    if es == [] then s else Step(Exec(s, es[..|es| - 1]), es[|es| - 1])
  }

  lemma ExecTwo(s: State, a: Event, b: Event)
    ensures Exec(s, [a, b]) == Step(Step(s, a), b)
  {
    assert [a, b][..1] == [a] && [a][..0] == [];
    assert Exec(s, [a]) == Step(s, a);
  }

  // ---- The invariant of every run ----

  /** A row's order exists, being a foreign key, and was made for the row's own cohort and student. */
  ghost predicate Carried(db: Db) {
    forall e :: e in db.enrollments && db.enrollments[e].order.Some? ==>
      && db.enrollments[e].order.value in db.orders
      && db.orders[db.enrollments[e].order.value].cohort == Some(db.enrollments[e].cohort)
      && db.orders[db.enrollments[e].order.value].student == db.enrollments[e].student
  }

  /** A row whose order is still PENDING holds its seat. */
  ghost predicate PendingHolds(db: Db) {
    forall e :: OrderIs(db, e, OrderPending) ==> db.enrollments[e].status != EnrollCancelled
  }

  /** A row whose order is PAID is CONFIRMED. */
  ghost predicate PaidConfirmed(db: Db) {
    forall e :: OrderIs(db, e, OrderPaid) ==> db.enrollments[e].status == EnrollConfirmed
  }

  ghost predicate DbInv(db: Db) {
    UniqueRows(db) && UniqueKeys(db) && Carried(db) && PendingHolds(db) && PaidConfirmed(db)
  }

  ghost predicate BookingOk(db: Db, b: Booking) {
    && b.cohort in db.cohorts
    && !db.cohorts[b.cohort].IsFull()
    && (b.revive.Some? ==>
          && RowMatches(db, b.revive.value, b.cohort, b.student)
          && db.enrollments[b.revive.value].status != EnrollPending
          && !OrderIs(db, b.revive.value, OrderPending))
    && (b.revive.None? ==> forall e :: !RowMatches(db, e, b.cohort, b.student))
  }

  /** A listed row stays as it was listed until the sweep that holds it ends. */
  ghost predicate ListedOk(db: Db, sw: Sweep, cl: Claim) {
    && cl.row in sw.held && cl.row in db.enrollments
    && db.enrollments[cl.row].cohort == cl.cohort && db.enrollments[cl.row].order == cl.order
    && Stale(db, cl.row, sw.cutoff)
  }

  /** A claimed order, if the row has one, stays PENDING until then too. */
  ghost predicate ClaimOk(db: Db, sw: Sweep, cl: Claim) {
    && ListedOk(db, sw, cl)
    && (cl.order.Some? ==> cl.order.value in db.orders && db.orders[cl.order.value].status == OrderPending)
  }

  ghost predicate SettleOk(db: Db, t: Settle) {
    && Settleable(db, t.order)
    && (t.row.Some? ==>
          && db.orders[t.order].cohort.Some?
          && RowMatches(db, t.row.value, db.orders[t.order].cohort.value, db.orders[t.order].student)
          && (t.seen == EnrollConfirmed && db.enrollments[t.row.value].order == Some(t.order)
              ==> db.enrollments[t.row.value].status == EnrollConfirmed))
    && (t.row.None? ==> forall e :: e in db.enrollments ==> db.enrollments[e].order != Some(t.order))
  }

  ghost predicate BookingsInv(s: State) {
    && (forall t :: t in s.bookings ==> BookingOk(s.db, s.bookings[t]))
    && (forall t, u | t in s.bookings && u in s.bookings :: s.bookings[t].cohort == s.bookings[u].cohort ==> t == u)
  }

  ghost predicate DistinctRows(cs: seq<Claim>) {
    forall i, j :: 0 <= i < j < |cs| ==> cs[i].row != cs[j].row
  }

  ghost predicate SweepOk(db: Db, sw: Sweep) {
    && (forall i :: 0 <= i < |sw.todo| ==> ListedOk(db, sw, sw.todo[i]))
    && (forall i :: 0 <= i < |sw.done| ==> ClaimOk(db, sw, sw.done[i]))
    && DistinctRows(sw.done + sw.todo)
  }

  /** No row is held, and no order claimed, by two sweeps. */
  ghost predicate SweepsInv(s: State) {
    && (forall t :: t in s.sweeps ==> SweepOk(s.db, s.sweeps[t]))
    && (forall t, u | t in s.sweeps && u in s.sweeps && t != u :: s.sweeps[t].held !! s.sweeps[u].held)
    && (forall t, u, o | t in s.sweeps && u in s.sweeps
          :: ClaimsOrder(s.sweeps[t].done, o) && ClaimsOrder(s.sweeps[u].done, o) ==> t == u)
  }

  ghost predicate SettlesInv(s: State) {
    && (forall t :: t in s.settles ==> SettleOk(s.db, s.settles[t]))
    && (forall t, u | t in s.settles && u in s.settles :: s.settles[t].order == s.settles[u].order ==> t == u)
    && (forall t, u | t in s.settles && u in s.sweeps :: !ClaimsOrder(s.sweeps[u].done, s.settles[t].order))
  }

  ghost predicate Inv(s: State) {
    DbInv(s.db) && BookingsInv(s) && SweepsInv(s) && SettlesInv(s)
  }

  ghost predicate Quiet(s: State) { s.bookings == map[] && s.sweeps == map[] && s.settles == map[] }

  lemma QuietInv(s: State)
    requires Quiet(s) && DbInv(s.db)
    ensures Inv(s)
  {
  }

  lemma BookBeginInv(s: State, tx: Id, c: Id, student: Id, parent: Id, key: Option<string>, now: int)
    requires Inv(s)
    ensures Inv(DoBookBegin(s, tx, c, student, parent, key, now))
  {
    var s' := DoBookBegin(s, tx, c, student, parent, key, now);
    if s' != s {
      assert BookingOk(s.db, s'.bookings[tx]);
      assert s'.sweeps == s.sweeps && s'.settles == s.settles && s'.db == s.db;
    }
  }

  // ---- Booking commit ----

  lemma BookCommitDb(db: Db, b: Booking, o: Id, newRow: Id)
    requires DbInv(db) && BookingOk(db, b) && o !in db.orders && newRow !in db.enrollments
    requires !KeyUsed(db, b.key)
    ensures DbInv(Reserve(db, b, o, newRow))
  {
    var db' := Reserve(db, b, o, newRow);
    assert UniqueRows(db') by {
      forall e | e in db.enrollments && b.revive.None?
        ensures db.enrollments[e].cohort != b.cohort || db.enrollments[e].student != b.student
      {
        assert !RowMatches(db, e, b.cohort, b.student);
      }
    }
    assert UniqueKeys(db');
    assert Carried(db');
  }

  /** A booking's writes touch no existing order, and no row that is PENDING. */
  lemma ReserveKeepsSweep(db: Db, b: Booking, o: Id, newRow: Id, sw: Sweep)
    requires BookingOk(db, b) && o !in db.orders && newRow !in db.enrollments && SweepOk(db, sw)
    ensures SweepOk(Reserve(db, b, o, newRow), sw)
  {
  }

  lemma ReserveKeepsSettle(db: Db, b: Booking, o: Id, newRow: Id, t: Settle)
    requires DbInv(db) && BookingOk(db, b) && o !in db.orders && newRow !in db.enrollments
    requires SettleOk(db, t)
    ensures SettleOk(Reserve(db, b, o, newRow), t)
  {
  }

  lemma ReserveKeepsBooking(db: Db, b: Booking, o: Id, newRow: Id, other: Booking)
    requires DbInv(db) && BookingOk(db, b) && o !in db.orders && newRow !in db.enrollments
    requires BookingOk(db, other) && other.cohort != b.cohort
    ensures BookingOk(Reserve(db, b, o, newRow), other)
  {
    var db' := Reserve(db, b, o, newRow);
    if other.revive.None? {
      forall e ensures !RowMatches(db', e, other.cohort, other.student) {
        assert !RowMatches(db, e, other.cohort, other.student);
      }
    }
  }

  lemma BookCommitBookings(s: State, tx: Id, o: Id, newRow: Id)
    requires DbInv(s.db) && BookingsInv(s) && tx in s.bookings && o !in s.db.orders && newRow !in s.db.enrollments
    requires BookingOk(s.db, s.bookings[tx])
    ensures BookingsInv(s.(db := Reserve(s.db, s.bookings[tx], o, newRow), bookings := s.bookings - {tx}))
  {
    forall t | t in s.bookings && t != tx ensures BookingOk(Reserve(s.db, s.bookings[tx], o, newRow), s.bookings[t]) {
      ReserveKeepsBooking(s.db, s.bookings[tx], o, newRow, s.bookings[t]);
    }
  }

  lemma BookCommitSweeps(s: State, b: Booking, o: Id, newRow: Id, bookings: map<Id, Booking>)
    requires SweepsInv(s) && BookingOk(s.db, b) && o !in s.db.orders && newRow !in s.db.enrollments
    ensures SweepsInv(s.(db := Reserve(s.db, b, o, newRow), bookings := bookings))
  {
    forall t | t in s.sweeps ensures SweepOk(Reserve(s.db, b, o, newRow), s.sweeps[t]) {
      ReserveKeepsSweep(s.db, b, o, newRow, s.sweeps[t]);
    }
  }

  lemma BookCommitSettles(s: State, b: Booking, o: Id, newRow: Id, bookings: map<Id, Booking>)
    requires DbInv(s.db) && SettlesInv(s) && BookingOk(s.db, b) && o !in s.db.orders && newRow !in s.db.enrollments
    ensures SettlesInv(s.(db := Reserve(s.db, b, o, newRow), bookings := bookings))
  {
    forall t | t in s.settles ensures SettleOk(Reserve(s.db, b, o, newRow), s.settles[t]) {
      ReserveKeepsSettle(s.db, b, o, newRow, s.settles[t]);
    }
  }

  lemma BookWritesInv(s: State, tx: Id, o: Id, newRow: Id)
    requires Inv(s) && tx in s.bookings && BookingOk(s.db, s.bookings[tx]) && !KeyUsed(s.db, s.bookings[tx].key)
    requires o !in s.db.orders && newRow !in s.db.enrollments
    ensures Inv(s.(db := Reserve(s.db, s.bookings[tx], o, newRow), bookings := s.bookings - {tx}))
  {
    BookCommitDb(s.db, s.bookings[tx], o, newRow);
    BookCommitBookings(s, tx, o, newRow);
    BookCommitSweeps(s, s.bookings[tx], o, newRow, s.bookings - {tx});
    BookCommitSettles(s, s.bookings[tx], o, newRow, s.bookings - {tx});
  }

  lemma BookCommitInv(s: State, tx: Id, o: Id, newRow: Id)
    requires Inv(s)
    ensures Inv(DoBookCommit(s, tx, o, newRow))
  {
    if DoBookCommit(s, tx, o, newRow).db != s.db { BookWritesInv(s, tx, o, newRow); }
  }

  // ---- Sweep ----

  lemma ListingOk(s: State, rows: seq<Id>, cutoff: int)
    requires Listable(s, rows, cutoff)
    ensures SweepOk(s.db, Sweep(ListedAll(s.db, rows), [], Members(rows), cutoff))
    ensures forall t :: t in s.sweeps ==> s.sweeps[t].held !! Members(rows)
  {
    var cs := ListedAll(s.db, rows);
    assert [] + cs == cs;
    forall e, t | e in Members(rows) && t in s.sweeps ensures e !in s.sweeps[t].held {
      assert !RowLocked(s, e);
    }
  }

  lemma SweepListInv(s: State, tx: Id, rows: seq<Id>, cutoff: int)
    requires Inv(s)
    ensures Inv(DoSweepList(s, tx, rows, cutoff))
  {
    if tx !in s.sweeps && Listable(s, rows, cutoff) { ListingOk(s, rows, cutoff); }
  }

  lemma ClaimsOrderAppend(done: seq<Claim>, cl: Claim, o: Id)
    ensures ClaimsOrder(done + [cl], o) <==> ClaimsOrder(done, o) || cl.order == Some(o)
  {
    if ClaimsOrder(done, o) {
      var i :| 0 <= i < |done| && done[i].order == Some(o);
      assert (done + [cl])[i] == done[i];
    }
    assert (done + [cl])[|done|] == cl;
  }

  /** Moving one sweep forward keeps the invariant if it claims nothing that is locked by another. */
  lemma AdvanceSweep(s: State, tx: Id, sw: Sweep)
    requires Inv(s) && tx in s.sweeps && SweepOk(s.db, sw)
    requires sw.held == s.sweeps[tx].held
    requires forall o :: ClaimsOrder(sw.done, o) ==> ClaimsOrder(s.sweeps[tx].done, o) || !OrderLocked(s, o)
    ensures Inv(s.(sweeps := s.sweeps[tx := sw]))
  {
  }

  lemma NextDistinct(done: seq<Claim>, todo: seq<Claim>)
    requires DistinctRows(done + todo) && todo != []
    ensures DistinctRows(done + todo[1..]) && DistinctRows((done + [todo[0]]) + todo[1..])
  {
    var all, rest := done + todo, done + todo[1..];
    assert (done + [todo[0]]) + todo[1..] == all;
    forall i, j | 0 <= i < j < |rest| ensures rest[i].row != rest[j].row {
      assert rest[i] == all[if i < |done| then i else i + 1] && rest[j] == all[if j < |done| then j else j + 1];
    }
  }

  /** Passing over the next listed row, or claiming it, keeps the sweep in order. */
  lemma NextOk(db: Db, sw: Sweep)
    requires SweepOk(db, sw) && sw.todo != []
    ensures SweepOk(db, sw.(todo := sw.todo[1..]))
    ensures ClaimOk(db, sw, sw.todo[0]) ==> SweepOk(db, sw.(todo := sw.todo[1..], done := sw.done + [sw.todo[0]]))
  {
    NextDistinct(sw.done, sw.todo);
  }

  lemma SweepRowInv(s: State, tx: Id)
    requires Inv(s)
    ensures Inv(DoSweepRow(s, tx))
  {
    var s' := DoSweepRow(s, tx);
    if s' != s {
      var sw, sw' := s.sweeps[tx], s'.sweeps[tx];
      var cl := sw.todo[0];
      assert SweepOk(s.db, sw) && ListedOk(s.db, sw, cl);
      NextOk(s.db, sw);
      forall o { ClaimsOrderAppend(sw.done, cl, o); }
      AdvanceSweep(s, tx, sw');
    }
  }

  lemma ReleaseDb(db: Db, mine: Sweep)
    requires DbInv(db) && SweepOk(db, mine)
    ensures DbInv(Release(db, mine.done))
  {
  }

  /** A sweep releases only rows and orders that no other sweep holds. */
  lemma ReleaseKeepsSweep(db: Db, mine: Sweep, sw: Sweep)
    requires SweepOk(db, mine) && SweepOk(db, sw) && mine.held !! sw.held
    requires forall o :: ClaimsOrder(sw.done, o) ==> !ClaimsOrder(mine.done, o)
    ensures SweepOk(Release(db, mine.done), sw)
  {
    var db' := Release(db, mine.done);
    forall e | e in sw.held && e in db.enrollments ensures db'.enrollments[e] == db.enrollments[e] {
      assert forall i :: 0 <= i < |mine.done| ==> ClaimOk(db, mine, mine.done[i]);
    }
    forall i | 0 <= i < |sw.done| ensures ClaimOk(db', sw, sw.done[i]) {
      assert sw.done[i].order.Some? ==> ClaimsOrder(sw.done, sw.done[i].order.value);
    }
  }

  lemma ReleaseKeepsSettle(db: Db, mine: Sweep, t: Settle)
    requires DbInv(db) && SweepOk(db, mine)
    requires SettleOk(db, t) && !ClaimsOrder(mine.done, t.order)
    ensures SettleOk(Release(db, mine.done), t)
  {
  }

  lemma SeatsOfNone(done: seq<Claim>, c: Id)
    requires forall i :: 0 <= i < |done| ==> done[i].cohort != c
    ensures SeatsOf(done, c) == 0
  {
  }

  lemma ReleaseKeepsBooking(db: Db, mine: Sweep, b: Booking)
    requires DbInv(db) && SweepOk(db, mine)
    requires BookingOk(db, b) && forall i :: 0 <= i < |mine.done| ==> mine.done[i].cohort != b.cohort
    ensures BookingOk(Release(db, mine.done), b)
  {
    SeatsOfNone(mine.done, b.cohort);
    forall e ensures RowMatches(Release(db, mine.done), e, b.cohort, b.student) == RowMatches(db, e, b.cohort, b.student) {}
  }

  lemma SweepCommitInv(s: State, tx: Id)
    requires Inv(s)
    ensures Inv(DoSweepCommit(s, tx))
  {
    var s' := DoSweepCommit(s, tx);
    if s' != s {
      var mine := s.sweeps[tx];
      assert SweepOk(s.db, mine);
      ReleaseDb(s.db, mine);
      forall t | t in s'.bookings ensures BookingOk(s'.db, s'.bookings[t]) {
        forall i | 0 <= i < |mine.done| ensures mine.done[i].cohort != s.bookings[t].cohort {
          assert !CohortLocked(s, mine.done[i].cohort);
        }
        ReleaseKeepsBooking(s.db, mine, s.bookings[t]);
      }
      forall t | t in s'.sweeps ensures SweepOk(s'.db, s'.sweeps[t]) {
        ReleaseKeepsSweep(s.db, mine, s.sweeps[t]);
      }
      forall t | t in s'.settles ensures SettleOk(s'.db, s'.settles[t]) {
        ReleaseKeepsSettle(s.db, mine, s.settles[t]);
      }
    }
  }

  // ---- Settlement ----

  lemma SettleBeginInv(s: State, tx: Id, o: Id)
    requires Inv(s)
    ensures Inv(DoSettleBegin(s, tx, o))
  {
    var s' := DoSettleBegin(s, tx, o);
    if s' != s {
      forall e | e in s.db.enrollments && SettledRow(s.db, o).None? ensures s.db.enrollments[e].order != Some(o) {
        if s.db.orders[o].cohort.Some? {
          assert !RowMatches(s.db, e, s.db.orders[o].cohort.value, s.db.orders[o].student);
        }
      }
      assert SettleOk(s.db, s'.settles[tx]);
    }
  }

  lemma PayUnique(db: Db, t: Settle)
    requires UniqueRows(db) && UniqueKeys(db) && t.order in db.orders
    requires t.row.Some? ==> t.row.value in db.enrollments
    ensures UniqueRows(Pay(db, t)) && UniqueKeys(Pay(db, t))
  {
    var db' := Pay(db, t);
    forall o | o in db'.orders ensures o in db.orders && db'.orders[o].key == db.orders[o].key {}
    forall e | e in db'.enrollments
      ensures RowMatches(db, e, db'.enrollments[e].cohort, db'.enrollments[e].student) {}
  }

  lemma PayCarried(db: Db, t: Settle)
    requires Carried(db) && PendingHolds(db) && SettleOk(db, t)
    ensures Carried(Pay(db, t)) && PendingHolds(Pay(db, t))
  {
    forall e | OrderIs(Pay(db, t), e, OrderPending) ensures OrderIs(db, e, OrderPending) {}
  }

  lemma PayConfirmed(db: Db, t: Settle, e: Id)
    requires DbInv(db) && SettleOk(db, t) && OrderIs(Pay(db, t), e, OrderPaid)
    ensures Pay(db, t).enrollments[e].status == EnrollConfirmed
  {
    if db.enrollments[e].order == Some(t.order) {
      assert t.row == Some(e);
    } else {
      assert OrderIs(db, e, OrderPaid);
    }
  }

  lemma PayDb(db: Db, t: Settle)
    requires DbInv(db) && SettleOk(db, t)
    ensures DbInv(Pay(db, t))
  {
    PayUnique(db, t);
    PayCarried(db, t);
    forall e | OrderIs(Pay(db, t), e, OrderPaid) ensures Pay(db, t).enrollments[e].status == EnrollConfirmed {
      PayConfirmed(db, t, e);
    }
  }

  lemma PayKeepsSweep(db: Db, t: Settle, sw: Sweep)
    requires SettleOk(db, t) && SweepOk(db, sw) && !ClaimsOrder(sw.done, t.order)
    requires t.row.Some? && t.seen != EnrollConfirmed ==> t.row.value !in sw.held
    ensures SweepOk(Pay(db, t), sw)
  {
    forall i | 0 <= i < |sw.done| ensures ClaimOk(Pay(db, t), sw, sw.done[i]) {
      assert sw.done[i].order.Some? ==> ClaimsOrder(sw.done, sw.done[i].order.value);
    }
  }

  lemma PayKeepsSettle(db: Db, t: Settle, other: Settle)
    requires DbInv(db) && SettleOk(db, t) && SettleOk(db, other) && other.order != t.order
    ensures SettleOk(Pay(db, t), other)
  {
  }

  lemma PayKeepsBooking(db: Db, t: Settle, b: Booking)
    requires DbInv(db) && SettleOk(db, t) && BookingOk(db, b)
    requires Retakes(t) ==> db.enrollments[t.row.value].cohort != b.cohort
    ensures BookingOk(Pay(db, t), b)
  {
    forall e ensures RowMatches(Pay(db, t), e, b.cohort, b.student) == RowMatches(db, e, b.cohort, b.student) {}
  }

  lemma SettleCommitInv(s: State, tx: Id)
    requires Inv(s)
    ensures Inv(DoSettleCommit(s, tx))
  {
    var s' := DoSettleCommit(s, tx);
    if s' != s {
      var t := s.settles[tx];
      PayDb(s.db, t);
      forall u | u in s'.bookings ensures BookingOk(s'.db, s'.bookings[u]) {
        PayKeepsBooking(s.db, t, s.bookings[u]);
      }
      forall u | u in s'.sweeps ensures SweepOk(s'.db, s'.sweeps[u]) {
        assert t.row.Some? && t.row.value in s.sweeps[u].held ==> RowLocked(s, t.row.value);
        PayKeepsSweep(s.db, t, s.sweeps[u]);
      }
      forall u | u in s'.settles ensures SettleOk(s'.db, s'.settles[u]) {
        PayKeepsSettle(s.db, t, s.settles[u]);
      }
    }
  }

  lemma StepInv(s: State, e: Event)
    requires Inv(s)
    ensures Inv(Step(s, e))
  {
    match e
    case BookBegin(tx, c, student, parent, key, now) => BookBeginInv(s, tx, c, student, parent, key, now);
    case BookCommit(tx, o, newRow) => BookCommitInv(s, tx, o, newRow);
    case SweepList(tx, rows, cutoff) => SweepListInv(s, tx, rows, cutoff);
    case SweepRow(tx) => SweepRowInv(s, tx);
    case SweepCommit(tx) => SweepCommitInv(s, tx);
    case SettleBegin(tx, o) => SettleBeginInv(s, tx, o);
    case SettleCommit(tx) => SettleCommitInv(s, tx);
    case Abort(tx) =>
  }

  lemma {:induction false} RunInv(s: State, es: seq<Event>)
    requires Inv(s)
    ensures Inv(Exec(s, es))
  {
    if es != [] {
      RunInv(s, es[..|es| - 1]);
      StepInv(Exec(s, es[..|es| - 1]), es[|es| - 1]);
    }
  }
}
