/**
 What one step of the concurrent model may do to an order or an enrolment row, said of the rows
 themselves: how an order moves between its statuses, when a seat is taken and which rows a sweep takes.
 */
module BookingAnswers {
  import opened Common
  import opened BookingModel
  import opened BookingRaces
  import opened BookingTheorems
  import opened BookingService
  import opened BookingStaleness

  // ---- Orders ----

  lemma SweptOrderWasPending(db: Db, sw: Sweep, o: Id)
    requires SweepOk(db, sw) && ClaimsOrder(sw.done, o)
    ensures o in db.orders && db.orders[o].status == OrderPending
  {
    var i :| 0 <= i < |sw.done| && sw.done[i].order == Some(o);
    assert ClaimOk(db, sw, sw.done[i]);
  }

  lemma SweptOrder(s: State, tx: Id, o: Id)
    requires Inv(s) && o in DoSweepCommit(s, tx).db.orders
    ensures o in s.db.orders
    ensures var before, after := s.db.orders[o], DoSweepCommit(s, tx).db.orders[o];
            after == before || (before.status == OrderPending && after == before.(status := OrderCancelled))
  {
    if tx in s.sweeps && ClaimsOrder(s.sweeps[tx].done, o) { SweptOrderWasPending(s.db, s.sweeps[tx], o); }
  }

  lemma SettledOrder(s: State, tx: Id, o: Id)
    requires Inv(s) && o in DoSettleCommit(s, tx).db.orders
    ensures o in s.db.orders
    ensures var before, after := s.db.orders[o], DoSettleCommit(s, tx).db.orders[o];
            after == before || (before.status in {OrderPending, OrderCancelled} && after == before.(status := OrderPaid))
  {
    if tx in s.settles { assert SettleOk(s.db, s.settles[tx]); }
  }

  lemma BookedOrder(s: State, tx: Id, p: Id, newRow: Id, o: Id)
    requires o in DoBookCommit(s, tx, p, newRow).db.orders
    ensures var after := DoBookCommit(s, tx, p, newRow).db.orders[o];
            if o in s.db.orders then after == s.db.orders[o] else o == p && after.status == OrderPending
  {
  }

  lemma NoOrderWritten(s: State, ev: Event)
    requires !ev.BookCommit? && !ev.SweepCommit? && !ev.SettleCommit?
    ensures Step(s, ev).db == s.db
  {
  }

  /**
   Every move an order can make: it appears PENDING in a booking's commit, goes from PENDING to CANCELLED in a
   sweep's, and from PENDING or CANCELLED to PAID in a settlement's. Nothing else about it ever changes.
   */
  lemma OrderMoves(s: State, es: seq<Event>, ev: Event, o: Id)
    requires Quiet(s) && DbInv(s.db) && o in Step(Exec(s, es), ev).db.orders
    ensures var before, after := Exec(s, es).db.orders, Step(Exec(s, es), ev).db.orders;
            if o !in before then ev.BookCommit? && ev.order == o && after[o].status == OrderPending
            else
              || after[o] == before[o]
              || (ev.SweepCommit? && before[o].status == OrderPending && after[o] == before[o].(status := OrderCancelled))
              || (ev.SettleCommit? && before[o].status in {OrderPending, OrderCancelled}
                  && after[o] == before[o].(status := OrderPaid))
  {
    RunInv(s, es);
    var now := Exec(s, es);
    match ev
    case BookCommit(tx, p, newRow) => BookedOrder(now, tx, p, newRow, o);
    case SweepCommit(tx) => SweptOrder(now, tx, o);
    case SettleCommit(tx) => SettledOrder(now, tx, o);
    case _ => NoOrderWritten(now, ev);
  }

  /** A refunded or failed order is never touched again, whatever captures come in. */
  lemma {:induction false} ClosedForever(s: State, es: seq<Event>, fs: seq<Event>, o: Id)
    requires Quiet(s) && DbInv(s.db)
    requires o in Exec(s, es).db.orders && Exec(s, es).db.orders[o].status in {OrderRefunded, OrderFailed}
    ensures o in Exec(s, es + fs).db.orders && Exec(s, es + fs).db.orders[o] == Exec(s, es).db.orders[o]
  {
    if fs == [] {
      assert es + fs == es;
    } else {
      var gs := es + fs[..|fs| - 1];
      assert (es + fs)[..|es + fs| - 1] == gs;
      ClosedForever(s, es, fs[..|fs| - 1], o);
      OrderStep(Exec(s, gs), (es + fs)[|es + fs| - 1], o);
      OrderMoves(s, gs, (es + fs)[|es + fs| - 1], o);
    }
  }

  /** A settlement nobody interrupts leaves the order PAID unless it was FAILED or REFUNDED. */
  lemma SettledAloneIff(s: State, tx: Id, o: Id)
    requires Quiet(s) && o in s.db.orders
    ensures var after := Exec(s, [SettleBegin(tx, o), SettleCommit(tx)]).db.orders;
            o in after && (after[o].status == OrderPaid <==> s.db.orders[o].status !in {OrderFailed, OrderRefunded})
  {
    SettleIsTransaction(s, tx, o);
  }

  // ---- Seats ----

  lemma RowStep(s: State, ev: Event, e: Id)
    requires e in s.db.enrollments
    ensures e in Step(s, ev).db.enrollments
  {
  }

  lemma {:induction false} RowStays(s: State, es: seq<Event>, k: nat, e: Id)
    requires k <= |es| && e in Exec(s, es[..k]).db.enrollments
    ensures e in Exec(s, es).db.enrollments
    decreases |es|
  {
    if k < |es| {
      assert es[..|es| - 1][..k] == es[..k];
      RowStays(s, es[..|es| - 1], k, e);
      RowStep(Exec(s, es[..|es| - 1]), es[|es| - 1], e);
    } else {
      assert es[..k] == es;
    }
  }

  /** The event that opened a booking transaction, the cohort then being open to this student. */
  ghost predicate Opening(s: State, e: Event, tx: Id, b: Booking) {
    && e == BookBegin(tx, b.cohort, b.student, b.parent, b.key, b.now)
    && b.cohort in s.db.cohorts
    && var c := s.db.cohorts[b.cohort];
       && c.status == Published && c.enrolled < c.capacity
       && (c.opensAt.Some? ==> c.opensAt.value <= b.now)
       && (c.closesAt.Some? ==> b.now <= c.closesAt.value)
       && (c.endDate.Some? ==> b.now <= c.endDate.value)
       && b.revive == RowOf(s.db, b.cohort, b.student) && !Enrolled(s.db, b.cohort, b.student)
  }

  lemma BeginOpens(s: State, tx: Id, c: Id, student: Id, parent: Id, key: Option<string>, now: int)
    requires UniqueRows(s.db) && DoBookBegin(s, tx, c, student, parent, key, now) != s
    ensures var s' := DoBookBegin(s, tx, c, student, parent, key, now);
            tx in s'.bookings && Opening(s, BookBegin(tx, c, student, parent, key, now), tx, s'.bookings[tx])
  {
    EnrolledIsRow(s.db, c, student);
  }

  lemma OnlyBeginOpens(s: State, e: Event, tx: Id)
    requires tx in Step(s, e).bookings && !(tx in s.bookings && Step(s, e).bookings[tx] == s.bookings[tx])
    ensures e.BookBegin? && e.tx == tx
  {
  }

  /** Every open booking was opened by an event of the run, while its cohort was open. */
  lemma {:induction false} OpenedAt(s: State, es: seq<Event>, tx: Id) returns (k: nat)
    requires Quiet(s) && DbInv(s.db) && tx in Exec(s, es).bookings
    ensures k < |es| && Opening(Exec(s, es[..k]), es[k], tx, Exec(s, es).bookings[tx])
  {
    var n := |es| - 1;
    var was := Exec(s, es[..n]);
    if tx in was.bookings && Exec(s, es).bookings[tx] == was.bookings[tx] {
      k := OpenedAt(s, es[..n], tx);
      assert es[..n][..k] == es[..k];
    } else {
      var e := es[n];
      RunInv(s, es[..n]);
      OnlyBeginOpens(was, e, tx);
      BeginOpens(was, e.tx, e.cohort, e.student, e.parent, e.key, e.now);
      k := n;
    }
  }

  lemma OthersTakeNothing(s: State, ev: Event, e: Id)
    requires !ev.BookCommit? && e in Step(s, ev).db.enrollments && Step(s, ev).db.enrollments[e].status == EnrollPending
    ensures e in s.db.enrollments && s.db.enrollments[e].status == EnrollPending
  {
    if !ev.SweepCommit? && !ev.SettleCommit? { NoOrderWritten(s, ev); }
  }

  /** Only a booking's commit makes a row PENDING: the row it had decided to revive, or a new one. */
  lemma OnlyBookingTakes(s: State, ev: Event, e: Id)
    requires e in Step(s, ev).db.enrollments && Step(s, ev).db.enrollments[e].status == EnrollPending
    requires e !in s.db.enrollments || s.db.enrollments[e].status != EnrollPending
    requires Inv(s)
    ensures ev.BookCommit? && ev.tx in s.bookings
    ensures var b, row := s.bookings[ev.tx], Step(s, ev).db.enrollments[e];
            && row.cohort == b.cohort && row.student == b.student && row.enrolledAt == b.now && row.order == Some(ev.order)
            && (if b.revive.Some? then e == b.revive.value else e == ev.newRow && e !in s.db.enrollments)
  {
    if !ev.BookCommit? { OthersTakeNothing(s, ev, e); }
    else if ev.tx in s.bookings { assert BookingOk(s.db, s.bookings[ev.tx]); }
  }

  /**
   Over every run: whenever a step makes or revives a PENDING row, its booking was begun at a moment when the cohort was
   Published, not full and within its window, and the student had no row in it, or a CANCELLED one.
   */
  lemma SeatTakenWhileOpen(s: State, es: seq<Event>, ev: Event, e: Id) returns (k: nat)
    requires Quiet(s) && DbInv(s.db)
    requires e in Step(Exec(s, es), ev).db.enrollments
    requires Step(Exec(s, es), ev).db.enrollments[e].status == EnrollPending
    requires e !in Exec(s, es).db.enrollments || Exec(s, es).db.enrollments[e].status != EnrollPending
    ensures ev.BookCommit? && k < |es| && es[k].BookBegin? && es[k].tx == ev.tx
    ensures var row, at := Step(Exec(s, es), ev).db.enrollments[e], Exec(s, es[..k]).db;
            && row.cohort == es[k].cohort && row.student == es[k].student && row.enrolledAt == es[k].now
            && row.order == Some(ev.order) && row.cohort in at.cohorts
            && (var c := at.cohorts[row.cohort];
                && c.status == Published && c.enrolled < c.capacity
                && (c.opensAt.Some? ==> c.opensAt.value <= es[k].now)
                && (c.closesAt.Some? ==> es[k].now <= c.closesAt.value)
                && (c.endDate.Some? ==> es[k].now <= c.endDate.value))
            && (e in at.enrollments ==> at.enrollments[e].status == EnrollCancelled)
            && (forall f | f in at.enrollments && at.enrollments[f].status != EnrollCancelled ::
                  at.enrollments[f].cohort != row.cohort || at.enrollments[f].student != row.student)
  {
    RunInv(s, es);
    OnlyBookingTakes(Exec(s, es), ev, e);
    k := OpenedAt(s, es, ev.tx);
    if e in Exec(s, es[..k]).db.enrollments { RowStays(s, es, k, e); }
  }

  // ---- Rows the sweep takes ----

  /** A row that becomes CANCELLED was PENDING and created before the cutoff of the sweep that commits. */
  lemma OnlyStaleRowsSwept(s: State, es: seq<Event>, ev: Event, e: Id)
    requires Quiet(s) && DbInv(s.db) && e in Exec(s, es).db.enrollments
    requires Exec(s, es).db.enrollments[e].status != EnrollCancelled
    requires e in Step(Exec(s, es), ev).db.enrollments && Step(Exec(s, es), ev).db.enrollments[e].status == EnrollCancelled
    ensures ev.SweepCommit? && ev.tx in Exec(s, es).sweeps
    ensures Exec(s, es).db.enrollments[e].status == EnrollPending
    ensures Exec(s, es).db.enrollments[e].createdAt < Exec(s, es).sweeps[ev.tx].cutoff
  {
    RunInv(s, es);
    var now := Exec(s, es);
    CancelledTogether(s, es, ev, e);
    var sw := now.sweeps[ev.tx];
    var i :| 0 <= i < |sw.done| && sw.done[i].row == e;
    assert SweepOk(now.db, sw) && ClaimOk(now.db, sw, sw.done[i]);
  }

  /** A claimed row has no order, or one that is PENDING. */
  lemma ClaimedIsUnpaid(s: State, tx: Id, rows: seq<Id>, cutoff: int, e: Id)
    requires Quiet(s) && DbInv(s.db) && Distinct(rows) && AllStale(s.db, rows, cutoff)
    requires ClaimsRow(SweepClaims(s.db, ListedAll(s.db, rows), []), e)
    ensures e in s.db.enrollments && (s.db.enrollments[e].order.Some? ==> OrderIs(s.db, e, OrderPending))
  {
    var es := [SweepList(tx, rows, cutoff)] + RowSteps(tx, |rows|);
    SweepClaimsAll(s, tx, rows, cutoff);
    RunInv(s, es);
    var sw := Exec(s, es).sweeps[tx];
    var i :| 0 <= i < |sw.done| && sw.done[i].row == e;
    assert SweepOk(s.db, sw) && ClaimOk(s.db, sw, sw.done[i]);
  }

  lemma ListedIsTaken(db: Db, rows: seq<Id>, i: nat)
    requires DbInv(db) && Distinct(rows) && i < |rows| && forall j :: 0 <= j < |rows| ==> rows[j] in db.enrollments
    requires db.enrollments[rows[i]].order.Some? ==> OrderIs(db, rows[i], OrderPending)
    ensures ClaimsRow(SweepClaims(db, ListedAll(db, rows), []), rows[i])
  {
    ListingOwnsOrders(db, rows, i);
    ListedIsClaimed(db, ListedAll(db, rows), [], i);
  }

  /**
   A sweep of PENDING rows created before its cutoff cancels exactly those without an order and those whose order is
   still PENDING, and no other row.
   */
  lemma SweptAloneIff(s: State, tx: Id, rows: seq<Id>, cutoff: int, e: Id)
    requires Quiet(s) && DbInv(s.db) && Distinct(rows) && e in s.db.enrollments
    requires forall i :: 0 <= i < |rows| ==>
               && rows[i] in s.db.enrollments
               && s.db.enrollments[rows[i]].status == EnrollPending && s.db.enrollments[rows[i]].createdAt < cutoff
    ensures var row, after := s.db.enrollments[e], Exec(s, SweepEvents(tx, rows, cutoff)).db.enrollments;
            && e in after
            && after[e] == if e in rows && (row.order.None? || s.db.orders[row.order.value].status == OrderPending)
                           then row.(status := EnrollCancelled) else row
  {
    SweepIsTransaction(s, tx, rows, cutoff);
    var claims := SweepClaims(s.db, ListedAll(s.db, rows), []);
    if ClaimsRow(claims, e) {
      ClaimedIsUnpaid(s, tx, rows, cutoff, e);
      ClaimsAreListed(s.db, ListedAll(s.db, rows), [], e);
    }
    if i :| 0 <= i < |rows| && rows[i] == e && (s.db.enrollments[e].order.Some? ==> OrderIs(s.db, e, OrderPending)) {
      ListedIsTaken(s.db, rows, i);
    }
  }
}
