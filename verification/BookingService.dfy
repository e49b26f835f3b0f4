/**
 The booking service itself: CreateCohortBooking with idempotent replay, the abandoned-checkout
 sweep, and the settlement that confirms an enrolment, each as one unit of work over the tables.
 Each is proved against a function of the tables, and those functions are the transactions of
 BookingRaces run with nothing in between.
 */
module BookingService {
  import opened Common
  import opened BookingModel
  import opened BookingRaces

  datatype BookingResult = Booked(order: Id, row: Id) | Replayed(order: Id)

  datatype Request = Request(cohort: Id, student: Id, parent: Id, key: string)
  {
    function Key(): Option<string> { if key == "" then None else Some(key) }
  }

  // ---- What each unit of work does to the tables ----

  ghost function KeyOwner(db: Db, key: Option<string>): (o: Option<Id>)
    ensures o.Some? ==> o.value in db.orders && db.orders[o.value].key == key && key.Some?
    ensures o.None? <==> !KeyUsed(db, key)
  {
    if KeyUsed(db, key) then var o :| o in db.orders && db.orders[o].key == key; Some(o) else None
  }

  ghost function Book(db: Db, req: Request, authorized: bool, now: int, o: Id, newRow: Id)
    : (Db, Result<BookingResult, BookError>)
  {
    var owner := KeyOwner(db, req.Key());
    if owner.Some? then
      (db, if db.orders[owner.value].parent == req.parent then Ok(Replayed(owner.value)) else Err(Forbidden))
    else if !authorized then (db, Err(Forbidden))
    else
      match Admit(db, req.cohort, req.student, now)
      case Err(e) => (db, Err(e))
      case Ok(revive) =>
        (Reserve(db, Booking(req.cohort, req.student, req.parent, req.Key(), revive, now), o, newRow),
         Ok(Booked(o, if revive.Some? then revive.value else newRow)))
  }

  /** The claims a sweep ends with: later rows see the orders it has cancelled itself. */
  ghost function SweepClaims(db: Db, todo: seq<Claim>, done: seq<Claim>): seq<Claim> {
    if todo == [] then done
    else if Expires(db, todo[0]) && !(Claimed(db, todo[0]).order.Some? && ClaimsOrder(done, todo[0].order.value)) then
      SweepClaims(db, todo[1..], done + [Claimed(db, todo[0])])
    else SweepClaims(db, todo[1..], done)
  }

  /** The writes for one claim: order and row CANCELLED, one seat back. */
  function ReleasedOne(db: Db, cl: Claim): Db
    requires cl.row in db.enrollments
  {
    Db(if cl.order.Some? && cl.order.value in db.orders
       then db.orders[cl.order.value := db.orders[cl.order.value].(status := OrderCancelled)] else db.orders,
       db.enrollments[cl.row := db.enrollments[cl.row].(status := EnrollCancelled)],
       if cl.cohort in db.cohorts
       then db.cohorts[cl.cohort := db.cohorts[cl.cohort].(enrolled := db.cohorts[cl.cohort].enrolled - 1)]
       else db.cohorts)
  }

  ghost function SettleOrder(db: Db, o: Id): (Db, bool) {
    if !Settleable(db, o) then (db, false)
    else
      var row := SettledRow(db, o);
      (Pay(db, Settle(o, row, if row.Some? then db.enrollments[row.value].status else EnrollPending)), true)
  }

  // ---- The answer to a booking, read off the rows ----

  /** An order was already made with this idempotency key. */
  ghost predicate SentBefore(db: Db, key: string) {
    key != "" && exists o :: o in db.orders && db.orders[o].key == Some(key)
  }

  /** The student has a row in the cohort that is not CANCELLED. */
  ghost predicate Enrolled(db: Db, c: Id, student: Id) {
    exists e :: e in db.enrollments && db.enrollments[e].cohort == c && db.enrollments[e].student == student
                && db.enrollments[e].status != EnrollCancelled
  }

  /** With one row per cohort and student, the row found tells whether the student is enrolled. */
  lemma EnrolledIsRow(db: Db, c: Id, student: Id)
    requires UniqueRows(db)
    ensures Enrolled(db, c, student) <==>
            RowOf(db, c, student).Some? && db.enrollments[RowOf(db, c, student).value].status != EnrollCancelled
  {
    if e :| e in db.enrollments && db.enrollments[e].cohort == c && db.enrollments[e].student == student
            && db.enrollments[e].status != EnrollCancelled {
      assert RowMatches(db, e, c, student);
    }
  }

  /** Which requests take a seat: all that is asked of the caller, the cohort, the clock and the student. */
  lemma BookedIff(db: Db, req: Request, authorized: bool, now: int, o: Id, newRow: Id)
    requires UniqueRows(db) && !SentBefore(db, req.key)
    ensures var (after, r) := Book(db, req, authorized, now, o, newRow);
            && (r.Ok? <==>
                  && authorized && req.cohort in db.cohorts
                  && (var c := db.cohorts[req.cohort];
                      && c.status == Published && c.enrolled < c.capacity
                      && (c.opensAt.Some? ==> c.opensAt.value <= now)
                      && (c.closesAt.Some? ==> now <= c.closesAt.value)
                      && (c.endDate.Some? ==> now <= c.endDate.value))
                  && !Enrolled(db, req.cohort, req.student))
            && (r.Ok? ==> r.value.Booked? && r.value.order == o)
            && (r.Err? ==> after == db)
  {
    EnrolledIsRow(db, req.cohort, req.student);
  }

  /** Which error the others get: the first that applies. */
  lemma RefusedIff(db: Db, req: Request, authorized: bool, now: int, o: Id, newRow: Id)
    requires UniqueRows(db) && !SentBefore(db, req.key)
    ensures var r := Book(db, req, authorized, now, o, newRow).1;
            && (r == Err(Forbidden) <==> !authorized)
            && (r == Err(NotFound) <==> authorized && req.cohort !in db.cohorts)
            && (authorized && req.cohort in db.cohorts ==>
                  var c := db.cohorts[req.cohort];
                  var unavailable := c.status != Published || c.capacity <= c.enrolled;
                  var outside := || (c.opensAt.Some? && now < c.opensAt.value)
                                 || (c.closesAt.Some? && c.closesAt.value < now)
                                 || (c.endDate.Some? && c.endDate.value < now);
                  && (r == Err(CapacityFull) <==> unavailable)
                  && (r == Err(WindowClosed) <==> !unavailable && outside)
                  && (r == Err(AlreadyEnrolled) <==> !unavailable && !outside && Enrolled(db, req.cohort, req.student)))
            && r != Err(DuplicateKey)
  {
    EnrolledIsRow(db, req.cohort, req.student);
  }

  /** A key that was sent before: its order for the same parent, nobody else's, and nothing is written. */
  lemma ReplayedIff(db: Db, req: Request, authorized: bool, now: int, o: Id, newRow: Id, first: Id)
    requires UniqueKeys(db) && req.key != "" && first in db.orders && db.orders[first].key == Some(req.key)
    ensures Book(db, req, authorized, now, o, newRow)
            == (db, if db.orders[first].parent == req.parent then Ok(Replayed(first)) else Err(Forbidden))
  {
  }

  /** What a booking that goes through leaves: its PENDING order and row, one seat less, the rest untouched. */
  lemma BookedRows(db: Db, req: Request, authorized: bool, now: int, o: Id, newRow: Id, e: Id)
    requires UniqueRows(db) && !SentBefore(db, req.key) && o !in db.orders && newRow !in db.enrollments
    requires Book(db, req, authorized, now, o, newRow).1 == Ok(Booked(o, e))
    ensures var after := Book(db, req, authorized, now, o, newRow).0;
            && after.orders.Keys == db.orders.Keys + {o} && (forall p | p in db.orders :: after.orders[p] == db.orders[p])
            && after.orders[o].parent == req.parent && after.orders[o].student == req.student
            && after.orders[o].cohort == Some(req.cohort) && after.orders[o].status == OrderPending
            && after.orders[o].key == (if req.key == "" then None else Some(req.key))
            && after.enrollments.Keys == db.enrollments.Keys + {e}
            && (forall f | f in db.enrollments && f != e :: after.enrollments[f] == db.enrollments[f])
            && after.enrollments[e].cohort == req.cohort && after.enrollments[e].student == req.student
            && after.enrollments[e].order == Some(o) && after.enrollments[e].status == EnrollPending
            && after.enrollments[e].enrolledAt == now
            && (e in db.enrollments ==> after.enrollments[e].createdAt == db.enrollments[e].createdAt
                                        && after.enrollments[e].parent == db.enrollments[e].parent)
            && (e !in db.enrollments ==> after.enrollments[e].createdAt == now && after.enrollments[e].parent == req.parent)
            && after.cohorts.Keys == db.cohorts.Keys
            && (forall c | c in db.cohorts :: after.cohorts[c] ==
                  if c == req.cohort then db.cohorts[c].(enrolled := db.cohorts[c].enrolled + 1) else db.cohorts[c])
  {
  }

  // ---- The service ----

  class Store {
    var orders: map<Id, Order>
    var enrollments: map<Id, Enrollment>
    var cohorts: map<Id, Cohort>

    constructor (orders: map<Id, Order>, enrollments: map<Id, Enrollment>, cohorts: map<Id, Cohort>)
      ensures Tables() == Db(orders, enrollments, cohorts)
    {
      this.orders, this.enrollments, this.cohorts := orders, enrollments, cohorts;
    }

    function Tables(): Db
      reads this
    {
      Db(orders, enrollments, cohorts)
    }

    /** The unique constraints of the schema. */
    ghost predicate Valid()
      reads this
    {
      UniqueRows(Tables()) && UniqueKeys(Tables())
    }

    method GetByIdempotencyKey(key: string) returns (o: Option<Id>)
      requires Valid()
      ensures o == KeyOwner(Tables(), Some(key))
    {
      if p :| p in orders && orders[p].key == Some(key) {
        o := Some(p);
      } else {
        o := None;
      }
    }

    method GetByCohortAndStudent(cohort: Id, student: Id) returns (e: Option<Id>)
      requires Valid()
      ensures e == RowOf(Tables(), cohort, student)
    {
      if r :| r in enrollments && enrollments[r].cohort == cohort && enrollments[r].student == student {
        assert RowMatches(Tables(), r, cohort, student);
        e := Some(r);
      } else {
        assert forall r :: !RowMatches(Tables(), r, cohort, student);
        e := None;
      }
    }

    /** `o` and `newRow` are the ids the tables will generate; `authorized` is the enrolment authorization. */
    method CreateCohortBooking(req: Request, authorized: bool, now: int, o: Id, newRow: Id)
      returns (r: Result<BookingResult, BookError>)
      requires Valid() && o !in orders && newRow !in enrollments
      modifies this
      ensures Valid()
      ensures (Tables(), r) == Book(old(Tables()), req, authorized, now, o, newRow)
      ensures !SentBefore(old(Tables()), req.key) ==>
                (r.Ok? <==>
                   && authorized && req.cohort in old(cohorts)
                   && (var c := old(cohorts)[req.cohort];
                       && c.status == Published && c.enrolled < c.capacity
                       && (c.opensAt.Some? ==> c.opensAt.value <= now)
                       && (c.closesAt.Some? ==> now <= c.closesAt.value)
                       && (c.endDate.Some? ==> now <= c.endDate.value))
                   && !Enrolled(old(Tables()), req.cohort, req.student))
      ensures r.Err? ==> Tables() == old(Tables())
    {
      if !SentBefore(Tables(), req.key) { BookedIff(Tables(), req, authorized, now, o, newRow); }
      if req.key != "" {
        var owner := GetByIdempotencyKey(req.key);
        if owner.Some? {
          return if orders[owner.value].parent == req.parent then Ok(Replayed(owner.value)) else Err(Forbidden);
        }
      }
      if !authorized { return Err(Forbidden); }
      if req.cohort !in cohorts { return Err(NotFound); }
      var cohort := cohorts[req.cohort];
      if cohort.status != Published || cohort.IsFull() { return Err(CapacityFull); }
      if !cohort.WindowOpen(now) { return Err(WindowClosed); }
      var existing := GetByCohortAndStudent(req.cohort, req.student);
      if existing.Some? && enrollments[existing.value].status != EnrollCancelled { return Err(AlreadyEnrolled); }

      ghost var was := Tables();
      ghost var b := Booking(req.cohort, req.student, req.parent, req.Key(), existing, now);
      var newOrders := orders[o := Order(req.parent, req.student, Some(req.cohort), OrderPending, req.Key())];
      var id := newRow;
      var newEnrollments := enrollments;
      if existing.Some? {
        id := existing.value;
        newEnrollments := enrollments[id := enrollments[id].(status := EnrollPending, order := Some(o), enrolledAt := now)];
      } else {
        newEnrollments := enrollments[id := Enrollment(req.cohort, req.student, req.parent, Some(o), EnrollPending, now, now)];
      }
      var newCohorts := cohorts[req.cohort := cohort.(enrolled := cohort.enrolled + 1)];
      ReserveUnique(was, b, o, newRow);
      orders, enrollments, cohorts := newOrders, newEnrollments, newCohorts;
      r := Ok(Booked(o, id));
    }

    /** `stale` is what ListStalePending returned: PENDING rows created before the cutoff. */
    method ExpireStalePendingEnrollments(stale: seq<Id>, cutoff: int) returns (expired: nat)
      requires Valid() && AllStale(Tables(), stale, cutoff)
      modifies this
      ensures Valid()
      ensures var claims := SweepClaims(old(Tables()), ListedAll(old(Tables()), stale), []);
              Tables() == Release(old(Tables()), claims) && expired == |claims|
    {
      ghost var was := Tables();
      ghost var listed := ListedAll(was, stale);
      ghost var done: seq<Claim> := [];
      var uow := Tables();
      expired := 0;
      ReleaseNothing(was);
      for i := 0 to |stale|
        invariant Tables() == was && expired == |done|
        invariant uow == Release(was, done)
        invariant SweepClaims(was, listed[i..], done) == SweepClaims(was, listed, [])
      {
        NextClaim(was, listed, i, done);
        var e := enrollments[stale[i]];
        var gone;
        uow, gone := ExpireRow(uow, Claim(stale[i], e.cohort, e.order));
        if gone {
          expired := expired + 1;
          done := done + [Claimed(was, listed[i])];
        }
      }
      if expired == 0 { return; }
      ReleaseUnique(was, done);
      orders, enrollments, cohorts := uow.orders, uow.enrollments, uow.cohorts;
    }

    /** One turn of the loop, on the transaction's own view of the tables. */
    static method ExpireRow(uow: Db, cl: Claim) returns (after: Db, expired: bool)
      requires cl.row in uow.enrollments
      ensures expired <==> Expires(uow, cl)
      ensures after == if expired then ReleasedOne(uow, Claimed(uow, cl)) else uow
    {
      after, expired := uow, false;
      if cl.order.Some? && cl.order.value in uow.orders {
        if uow.orders[cl.order.value].status != OrderPending { return; }
        after := after.(orders := uow.orders[cl.order.value := uow.orders[cl.order.value].(status := OrderCancelled)]);
      }
      after := after.(enrollments := uow.enrollments[cl.row := uow.enrollments[cl.row].(status := EnrollCancelled)]);
      if cl.cohort in uow.cohorts {
        var cohort := uow.cohorts[cl.cohort];
        after := after.(cohorts := uow.cohorts[cl.cohort := cohort.(enrolled := cohort.enrolled - 1)]);
      }
      expired := true;
    }

    /** TryMarkPaid, then confirmEnrollment; false when another settlement won. */
    method SettleSuccess(o: Id) returns (settled: bool)
      requires Valid()
      modifies this
      ensures Valid()
      ensures (Tables(), settled) == SettleOrder(old(Tables()), o)
      ensures settled <==> o in old(orders) && old(orders)[o].status in {OrderPending, OrderCancelled}
      ensures !settled ==> Tables() == old(Tables())
      ensures settled ==> orders == old(orders)[o := old(orders)[o].(status := OrderPaid)]
      ensures settled && orders[o].cohort.Some? ==>
                forall e :: RowMatches(old(Tables()), e, orders[o].cohort.value, orders[o].student) ==>
                  enrollments == old(enrollments)[e := old(enrollments)[e].(status := EnrollConfirmed)]
    {
      if o !in orders || (orders[o].status != OrderPending && orders[o].status != OrderCancelled) {
        return false;
      }
      var order := orders[o];
      var row: Option<Id> := None;
      if order.cohort.Some? {
        row := GetByCohortAndStudent(order.cohort.value, order.student);
      }
      PayUnique(Tables(), Settle(o, row, if row.Some? then enrollments[row.value].status else EnrollPending));
      orders := orders[o := order.(status := OrderPaid)];
      if row.Some? && enrollments[row.value].status != EnrollConfirmed {
        var e := enrollments[row.value];
        if e.status == EnrollCancelled && e.cohort in cohorts {
          cohorts := cohorts[e.cohort := cohorts[e.cohort].(enrolled := cohorts[e.cohort].enrolled + 1)];
        }
        enrollments := enrollments[row.value := e.(status := EnrollConfirmed)];
      }
      settled := true;
    }
  }

  lemma ReserveUnique(db: Db, b: Booking, o: Id, newRow: Id)
    requires UniqueRows(db) && UniqueKeys(db) && !KeyUsed(db, b.key)
    requires b.cohort in db.cohorts && o !in db.orders && newRow !in db.enrollments
    requires b.revive == RowOf(db, b.cohort, b.student)
    ensures UniqueRows(Reserve(db, b, o, newRow)) && UniqueKeys(Reserve(db, b, o, newRow))
  {
    forall e | e in db.enrollments && b.revive.None?
      ensures db.enrollments[e].cohort != b.cohort || db.enrollments[e].student != b.student
    {
      assert !RowMatches(db, e, b.cohort, b.student);
    }
  }

  lemma ReleaseUnique(db: Db, done: seq<Claim>)
    requires UniqueRows(db) && UniqueKeys(db)
    ensures UniqueRows(Release(db, done)) && UniqueKeys(Release(db, done))
  {
  }

  lemma ReleaseNothing(db: Db)
    ensures Release(db, []) == db
  {
  }

  lemma ClaimsRowAppend(done: seq<Claim>, cl: Claim, e: Id)
    ensures ClaimsRow(done + [cl], e) <==> ClaimsRow(done, e) || cl.row == e
  {
    assert (done + [cl])[|done|] == cl;
    if ClaimsRow(done, e) {
      var i :| 0 <= i < |done| && done[i].row == e;
      assert (done + [cl])[i] == done[i];
    }
  }

  lemma ReleaseOrders(db: Db, done: seq<Claim>, cl: Claim)
    ensures var was := Release(db, done).orders;
            Release(db, done + [cl]).orders ==
            if cl.order.Some? && cl.order.value in db.orders
            then was[cl.order.value := was[cl.order.value].(status := OrderCancelled)] else was
  {
    forall o { ClaimsOrderAppend(done, cl, o); }
  }

  lemma ReleaseRows(db: Db, done: seq<Claim>, cl: Claim)
    ensures var was := Release(db, done).enrollments;
            Release(db, done + [cl]).enrollments ==
            if cl.row in db.enrollments then was[cl.row := was[cl.row].(status := EnrollCancelled)] else was
  {
    forall e { ClaimsRowAppend(done, cl, e); }
  }

  lemma ReleaseSeats(db: Db, done: seq<Claim>, cl: Claim)
    ensures var was := Release(db, done).cohorts;
            Release(db, done + [cl]).cohorts ==
            if cl.cohort in db.cohorts
            then was[cl.cohort := was[cl.cohort].(enrolled := was[cl.cohort].enrolled - 1)] else was
  {
    assert (done + [cl])[..|done|] == done;
  }

  /** Releasing one more claim is one turn of the sweep's loop. */
  lemma ReleaseNext(db: Db, done: seq<Claim>, cl: Claim)
    requires cl.row in db.enrollments
    ensures Release(db, done + [cl]) == ReleasedOne(Release(db, done), cl)
  {
    ReleaseOrders(db, done, cl);
    ReleaseRows(db, done, cl);
    ReleaseSeats(db, done, cl);
  }

  /** Within its transaction the sweep sees the orders it has cancelled itself. */
  lemma ExpiresInside(db: Db, done: seq<Claim>, cl: Claim)
    ensures Claimed(Release(db, done), cl) == Claimed(db, cl)
    ensures Expires(Release(db, done), cl) <==>
            Expires(db, cl) && !(Claimed(db, cl).order.Some? && ClaimsOrder(done, cl.order.value))
  {
  }

  /** What the loop does with the next row is what the claims of the sweep say. */
  lemma NextClaim(db: Db, listed: seq<Claim>, i: nat, done: seq<Claim>)
    requires i < |listed| && listed[i].row in db.enrollments
    ensures var uow, cl := Release(db, done), Claimed(db, listed[i]);
            if Expires(uow, listed[i])
            then SweepClaims(db, listed[i..], done) == SweepClaims(db, listed[i + 1..], done + [cl])
                 && Release(db, done + [cl]) == ReleasedOne(uow, Claimed(uow, listed[i]))
            else SweepClaims(db, listed[i..], done) == SweepClaims(db, listed[i + 1..], done)
  {
    assert listed[i..][0] == listed[i] && listed[i..][1..] == listed[i + 1..];
    ExpiresInside(db, done, listed[i]);
    ReleaseNext(db, done, Claimed(db, listed[i]));
  }

  // ---- The functions above are the transactions of BookingRaces, run alone ----

  lemma BookIsTransaction(s: State, req: Request, now: int, tx: Id, o: Id, newRow: Id)
    requires Quiet(s) && o !in s.db.orders && newRow !in s.db.enrollments
    ensures Exec(s, [BookBegin(tx, req.cohort, req.student, req.parent, req.Key(), now), BookCommit(tx, o, newRow)])
         == s.(db := Book(s.db, req, true, now, o, newRow).0)
  {
    var e, f := BookBegin(tx, req.cohort, req.student, req.parent, req.Key(), now), BookCommit(tx, o, newRow);
    ExecTwo(s, e, f);
  }

  lemma SettleIsTransaction(s: State, tx: Id, o: Id)
    requires Quiet(s)
    ensures Exec(s, [SettleBegin(tx, o), SettleCommit(tx)]) == s.(db := SettleOrder(s.db, o).0)
  {
    var e, f := SettleBegin(tx, o), SettleCommit(tx);
    ExecTwo(s, e, f);
  }

  function RowSteps(tx: Id, n: nat): seq<Event> { seq(n, _ => SweepRow(tx)) }

  /** The events of one sweep: list, one step per listed row, commit. */
  function SweepEvents(tx: Id, stale: seq<Id>, cutoff: int): seq<Event> {
    [SweepList(tx, stale, cutoff)] + RowSteps(tx, |stale|) + [SweepCommit(tx)]
  }

  /** No open settlement holds the order of a claim that the sweep will expire. */
  ghost predicate Unclaimed(s: State, todo: seq<Claim>) {
    forall i, t | 0 <= i < |todo| && t in s.settles :: Expires(s.db, todo[i]) ==> todo[i].order != Some(s.settles[t].order)
  }

  /** One row of a sweep that no settlement is in the way of. */
  lemma SweepRowAlone(s: State, tx: Id)
    requires s.sweeps.Keys == {tx} && s.sweeps[tx].todo != [] && Unclaimed(s, s.sweeps[tx].todo)
    ensures var sw := s.sweeps[tx];
            && DoSweepRow(s, tx) == s.(sweeps := map[tx := sw.(todo := sw.todo[1..], done := DoSweepRow(s, tx).sweeps[tx].done)])
            && SweepClaims(s.db, sw.todo[1..], DoSweepRow(s, tx).sweeps[tx].done) == SweepClaims(s.db, sw.todo, sw.done)
            && Unclaimed(DoSweepRow(s, tx), sw.todo[1..])
  {
    assert DoSweepRow(s, tx).sweeps.Keys == {tx};
  }

  lemma {:induction false} SweepRowsAlone(s: State, tx: Id, n: nat)
    requires s.sweeps.Keys == {tx} && n == |s.sweeps[tx].todo| && Unclaimed(s, s.sweeps[tx].todo)
    ensures Exec(s, RowSteps(tx, n)) ==
            s.(sweeps := map[tx := s.sweeps[tx].(todo := [], done := SweepClaims(s.db, s.sweeps[tx].todo, s.sweeps[tx].done))])
    decreases n
  {
    if n == 0 {
      assert s.sweeps == map[tx := s.sweeps[tx]];
    } else {
      var s1 := DoSweepRow(s, tx);
      SweepRowAlone(s, tx);
      assert RowSteps(tx, n) == [SweepRow(tx)] + RowSteps(tx, n - 1);
      ExecFirst(s, SweepRow(tx), RowSteps(tx, n - 1));
      SweepRowsAlone(s1, tx, n - 1);
    }
  }

  lemma {:induction false} ExecFirst(s: State, e: Event, es: seq<Event>)
    ensures Exec(s, [e] + es) == Exec(Step(s, e), es)
  {
    if es == [] {
      assert [e] + es == [e] && [e][..0] == [];
      assert Exec(s, []) == s;
    } else {
      ExecFirst(s, e, es[..|es| - 1]);
      assert ([e] + es)[..|[e] + es| - 1] == [e] + es[..|es| - 1];
    }
  }

  lemma SweepClaimsAll(s: State, tx: Id, stale: seq<Id>, cutoff: int)
    requires Quiet(s) && Distinct(stale) && AllStale(s.db, stale, cutoff)
    ensures Exec(s, [SweepList(tx, stale, cutoff)] + RowSteps(tx, |stale|))
         == s.(sweeps := map[tx := Sweep([], SweepClaims(s.db, ListedAll(s.db, stale), []), Members(stale), cutoff)])
  {
    assert Listable(s, stale, cutoff);
    ExecFirst(s, SweepList(tx, stale, cutoff), RowSteps(tx, |stale|));
    SweepRowsAlone(Step(s, SweepList(tx, stale, cutoff)), tx, |stale|);
  }

  lemma SweepIsTransaction(s: State, tx: Id, stale: seq<Id>, cutoff: int)
    requires Quiet(s) && Distinct(stale) && AllStale(s.db, stale, cutoff)
    ensures Exec(s, SweepEvents(tx, stale, cutoff))
         == s.(db := Release(s.db, SweepClaims(s.db, ListedAll(s.db, stale), [])))
  {
    var es := [SweepList(tx, stale, cutoff)] + RowSteps(tx, |stale|);
    SweepClaimsAll(s, tx, stale, cutoff);
    assert (es + [SweepCommit(tx)])[..|es + [SweepCommit(tx)]| - 1] == es;
    assert Exec(s, SweepEvents(tx, stale, cutoff)).sweeps == map[];
  }

  // ---- Idempotent replay ----

  /** An order keeps its key and its parent through every step. */
  lemma OrderStep(s: State, e: Event, o: Id)
    requires o in s.db.orders
    ensures o in Step(s, e).db.orders
    ensures Step(s, e).db.orders[o].key == s.db.orders[o].key && Step(s, e).db.orders[o].parent == s.db.orders[o].parent
  {
  }

  lemma {:induction false} OrderRun(s: State, es: seq<Event>, o: Id)
    requires o in s.db.orders
    ensures o in Exec(s, es).db.orders
    ensures Exec(s, es).db.orders[o].key == s.db.orders[o].key && Exec(s, es).db.orders[o].parent == s.db.orders[o].parent
  {
    if es != [] {
      OrderRun(s, es[..|es| - 1], o);
      OrderStep(Exec(s, es[..|es| - 1]), es[|es| - 1], o);
    }
  }

  /**
   After a booking with a key, and whatever concurrent transactions run next, a second request with
   that key returns the first order and writes nothing; from another parent it is refused.
   */
  lemma ReplayReturnsFirstOrder(s: State, req: Request, now: int, o: Id, newRow: Id,
                                es: seq<Event>, again: Request, authorized: bool, later: int, p: Id, q: Id)
    requires Quiet(s) && DbInv(s.db) && o !in s.db.orders && newRow !in s.db.enrollments
    requires req.key != "" && again.key == req.key
    requires Book(s.db, req, true, now, o, newRow).1.Ok? && Book(s.db, req, true, now, o, newRow).1.value.Booked?
    ensures var db := Exec(s.(db := Book(s.db, req, true, now, o, newRow).0), es).db;
            Book(db, again, authorized, later, p, q)
            == (db, if again.parent == req.parent then Ok(Replayed(o)) else Err(Forbidden))
  {
    var booked := s.(db := Book(s.db, req, true, now, o, newRow).0);
    var b := Booking(req.cohort, req.student, req.parent, req.Key(), RowOf(s.db, req.cohort, req.student), now);
    assert BookingOk(s.db, b);
    BookCommitDb(s.db, b, o, newRow);
    RunInv(booked, es);
    OrderRun(booked, es, o);
    assert KeyUsed(Exec(booked, es).db, again.Key());
  }
}
