/**
 The rows that seat reservation works on, and what one transaction of each actor
 writes: a cohort booking, a row of the abandoned-checkout sweep, a settlement.
 */
module BookingModel {
  import opened Common

  datatype OrderStatus = OrderPending | OrderPaid | OrderFailed | OrderRefunded | OrderCancelled

  datatype EnrollmentStatus = EnrollPending | EnrollConfirmed | EnrollCancelled | EnrollRefunded | EnrollWaitlisted

  datatype CohortStatus = Draft | Published | Full | Ongoing | Completed | Cancelled

  /** `cohort` is the reference of the order's COHORT item, if it has one. */
  datatype Order = Order(parent: Id, student: Id, cohort: Option<Id>, status: OrderStatus, key: Option<string>)

  datatype Enrollment = Enrollment(cohort: Id, student: Id, parent: Id, order: Option<Id>,
                                   status: EnrollmentStatus, enrolledAt: int, createdAt: int)

  datatype Cohort = Cohort(status: CohortStatus, capacity: int, enrolled: int,
                           opensAt: Option<int>, closesAt: Option<int>, endDate: Option<int>)
  {
    predicate IsFull() { enrolled >= capacity }

    predicate WindowOpen(now: int) {
      && !(opensAt.Some? && now < opensAt.value)
      && !(closesAt.Some? && now > closesAt.value)
      && !(endDate.Some? && now > endDate.value)
    }
  }

  datatype Db = Db(orders: map<Id, Order>, enrollments: map<Id, Enrollment>, cohorts: map<Id, Cohort>)

  // ---- What the tables must satisfy ----

  /** The enrolments that hold a seat of cohort `c`: all but the CANCELLED ones. */
  ghost function Holders(db: Db, c: Id): set<Id> {
    set e | e in db.enrollments && db.enrollments[e].cohort == c && db.enrollments[e].status != EnrollCancelled
  }

  ghost predicate ConservedAt(db: Db, c: Id) {
    c in db.cohorts ==> db.cohorts[c].enrolled == |Holders(db, c)|
  }

  /** Seat conservation: every cohort's counter is the number of its seat holders. */
  ghost predicate Conserved(db: Db) {
    forall c :: c in db.cohorts ==> ConservedAt(db, c)
  }

  predicate RowMatches(db: Db, e: Id, c: Id, student: Id) {
    e in db.enrollments && db.enrollments[e].cohort == c && db.enrollments[e].student == student
  }

  /** At most one enrolment row per cohort and student. */
  ghost predicate UniqueRows(db: Db) {
    forall e, f | e in db.enrollments && f in db.enrollments
      :: (db.enrollments[e].cohort == db.enrollments[f].cohort
          && db.enrollments[e].student == db.enrollments[f].student) ==> e == f
  }

  /** At most one order per idempotency key. */
  ghost predicate UniqueKeys(db: Db) {
    forall o, p | o in db.orders && p in db.orders
      :: (db.orders[o].key.Some? && db.orders[o].key == db.orders[p].key) ==> o == p
  }

  predicate KeyUsed(db: Db, key: Option<string>) {
    key.Some? && exists o :: o in db.orders && db.orders[o].key == key
  }

  /** The enrolment row the repositories find for a cohort and a student. */
  ghost function RowOf(db: Db, c: Id, student: Id): (row: Option<Id>)
    ensures row.Some? ==> RowMatches(db, row.value, c, student)
    ensures row.None? ==> forall e :: !RowMatches(db, e, c, student)
  {
    if e :| RowMatches(db, e, c, student) then Some(e) else None
  }

  /** The status of the order an enrolment row points at. */
  ghost predicate OrderIs(db: Db, e: Id, status: OrderStatus) {
    && e in db.enrollments && db.enrollments[e].order.Some?
    && db.enrollments[e].order.value in db.orders
    && db.orders[db.enrollments[e].order.value].status == status
  }

  // ---- Cohort booking ----

  /** An open booking transaction: the cohort row is locked and the decision to revive is taken. */
  datatype Booking = Booking(cohort: Id, student: Id, parent: Id, key: Option<string>, revive: Option<Id>, now: int)

  datatype BookError = NotFound | Forbidden | CapacityFull | WindowClosed | AlreadyEnrolled | DuplicateKey

  /** What a booking decides from the locked cohort row and the student's existing row. */
  ghost function Admit(db: Db, c: Id, student: Id, now: int): Result<Option<Id>, BookError> {
    if c !in db.cohorts then Err(NotFound)
    else if db.cohorts[c].status != Published || db.cohorts[c].IsFull() then Err(CapacityFull)
    else if !db.cohorts[c].WindowOpen(now) then Err(WindowClosed)
    else
      match RowOf(db, c, student)
      case None => Ok(None)
      case Some(e) => if db.enrollments[e].status == EnrollCancelled then Ok(Some(e)) else Err(AlreadyEnrolled)
  }

  /** The writes of a booking: a PENDING order, the PENDING row (new, or the revived one), one seat. */
  function Reserve(db: Db, b: Booking, o: Id, newRow: Id): Db
    requires b.cohort in db.cohorts
    requires b.revive.Some? ==> b.revive.value in db.enrollments
  {
    var row := if b.revive.Some? then
                 // Reactivate leaves created_at and the paying parent of the row as they were.
                 db.enrollments[b.revive.value].(status := EnrollPending, order := Some(o), enrolledAt := b.now)
               else
                 Enrollment(b.cohort, b.student, b.parent, Some(o), EnrollPending, b.now, b.now);
    var id := if b.revive.Some? then b.revive.value else newRow;
    var cohort := db.cohorts[b.cohort];
    Db(db.orders[o := Order(b.parent, b.student, Some(b.cohort), OrderPending, b.key)],
       db.enrollments[id := row],
       db.cohorts[b.cohort := cohort.(enrolled := cohort.enrolled + 1)])
  }

  // ---- Abandoned-checkout sweep ----

  /** A row listed as stale, or claimed by the sweep, with the cohort and order it was listed with. */
  datatype Claim = Claim(row: Id, cohort: Id, order: Option<Id>)

  predicate Stale(db: Db, e: Id, cutoff: int) {
    e in db.enrollments && db.enrollments[e].status == EnrollPending && db.enrollments[e].createdAt < cutoff
  }

  function Listed(db: Db, e: Id): Claim
    requires e in db.enrollments
  {
    Claim(e, db.enrollments[e].cohort, db.enrollments[e].order)
  }

  /** Whether the sweep expires a listed row: no order, a missing order, or one still PENDING. */
  predicate Expires(db: Db, cl: Claim) {
    cl.order.None? || cl.order.value !in db.orders || db.orders[cl.order.value].status == OrderPending
  }

  /** The claim the sweep keeps for an expiring row; a missing order is dropped from it. */
  function Claimed(db: Db, cl: Claim): Claim {
    if cl.order.Some? && cl.order.value !in db.orders then cl.(order := None) else cl
  }

  ghost predicate ClaimsOrder(done: seq<Claim>, o: Id) {
    exists i :: 0 <= i < |done| && done[i].order == Some(o)
  }

  ghost predicate ClaimsRow(done: seq<Claim>, e: Id) {
    exists i :: 0 <= i < |done| && done[i].row == e
  }

  function SeatsOf(done: seq<Claim>, c: Id): nat {
    if done == [] then 0 else SeatsOf(done[..|done| - 1], c) + (if done[|done| - 1].cohort == c then 1 else 0)
  }

  /** Everything a sweep transaction writes: orders and rows CANCELLED, one seat back per claim. */
  ghost function Release(db: Db, done: seq<Claim>): Db {
    Db(map o | o in db.orders ::
         if ClaimsOrder(done, o) then db.orders[o].(status := OrderCancelled) else db.orders[o],
       map e | e in db.enrollments ::
         if ClaimsRow(done, e) then db.enrollments[e].(status := EnrollCancelled) else db.enrollments[e],
       map c | c in db.cohorts ::
         db.cohorts[c].(enrolled := db.cohorts[c].enrolled - SeatsOf(done, c)))
  }

  // ---- Settlement ----

  /** An open settlement: its order is claimed PAID and the student's row was read as `seen`. */
  datatype Settle = Settle(order: Id, row: Option<Id>, seen: EnrollmentStatus)

  predicate Settleable(db: Db, o: Id) {
    o in db.orders && (db.orders[o].status == OrderPending || db.orders[o].status == OrderCancelled)
  }

  /** The row a settlement of `o` confirms. */
  ghost function SettledRow(db: Db, o: Id): Option<Id>
    requires o in db.orders
  {
    if db.orders[o].cohort.None? then None else RowOf(db, db.orders[o].cohort.value, db.orders[o].student)
  }

  predicate Retakes(t: Settle) { t.row.Some? && t.seen == EnrollCancelled }

  /** The writes of a settlement: order PAID; unless read CONFIRMED, the row CONFIRMED and, if read CANCELLED, a seat. */
  function Pay(db: Db, t: Settle): Db
    requires t.order in db.orders
    requires t.row.Some? ==> t.row.value in db.enrollments
  {
    var orders := db.orders[t.order := db.orders[t.order].(status := OrderPaid)];
    if t.row.None? || t.seen == EnrollConfirmed then db.(orders := orders)
    else
      var row := db.enrollments[t.row.value];
      var cohorts := if t.seen == EnrollCancelled && row.cohort in db.cohorts then
                       db.cohorts[row.cohort := db.cohorts[row.cohort].(enrolled := db.cohorts[row.cohort].enrolled + 1)]
                     else db.cohorts;
      Db(orders, db.enrollments[t.row.value := row.(status := EnrollConfirmed)], cohorts)
  }
}
