/**
 Which checkouts the sweep takes although they were made after its cutoff: reviving a row refreshes
 `enrolled_at`, and the sweep goes by `created_at`.
 */
module BookingStaleness {
  import opened Common
  import opened BookingModel
  import opened BookingRaces
  import opened BookingTheorems
  import opened BookingService

  /** The step commits a booking that revives the row. */
  ghost predicate RevivesAt(s: State, ev: Event, e: Id) {
    ev.BookCommit? && ev.tx in s.bookings && s.bookings[ev.tx].revive == Some(e) && Step(s, ev).db != s.db
  }

  ghost predicate RevivedIn(s: State, es: seq<Event>, e: Id) {
    es != [] && (RevivedIn(s, es[..|es| - 1], e) || RevivesAt(Exec(s, es[..|es| - 1]), es[|es| - 1], e))
  }

  /** The row was revived in the run, or its dates show that it was before. */
  ghost predicate WasRevived(s: State, es: seq<Event>, e: Id) {
    || RevivedIn(s, es, e)
    || (e in s.db.enrollments && s.db.enrollments[e].enrolledAt != s.db.enrollments[e].createdAt)
  }

  /** Only reviving a row parts its two dates. */
  lemma DatesStep(s: State, ev: Event, e: Id)
    requires e in Step(s, ev).db.enrollments && !RevivesAt(s, ev, e)
    requires e in s.db.enrollments ==> s.db.enrollments[e].enrolledAt == s.db.enrollments[e].createdAt
    ensures Step(s, ev).db.enrollments[e].enrolledAt == Step(s, ev).db.enrollments[e].createdAt
  {
  }

  lemma {:induction false} DatesAgree(s: State, es: seq<Event>, e: Id)
    requires e in Exec(s, es).db.enrollments && !WasRevived(s, es, e)
    ensures Exec(s, es).db.enrollments[e].enrolledAt == Exec(s, es).db.enrollments[e].createdAt
  {
    if es != [] {
      var init := es[..|es| - 1];
      if e in Exec(s, init).db.enrollments { DatesAgree(s, init, e); }
      DatesStep(Exec(s, init), es[|es| - 1], e);
    }
  }

  /**
   Under every interleaving: a row that a sweep cancels although it was enrolled at or after the
   cutoff was created before the cutoff and revived.
   */
  lemma SweptCheckoutWasRevived(s: State, es: seq<Event>, tx: Id, e: Id)
    requires Quiet(s) && DbInv(s.db) && tx in Exec(s, es).sweeps
    requires var db := Exec(s, es).db;
             && e in db.enrollments && db.enrollments[e].status != EnrollCancelled
             && db.enrollments[e].enrolledAt >= Exec(s, es).sweeps[tx].cutoff
    requires var after := Step(Exec(s, es), SweepCommit(tx)).db;
             e in after.enrollments && after.enrollments[e].status == EnrollCancelled
    ensures Exec(s, es).db.enrollments[e].createdAt < Exec(s, es).sweeps[tx].cutoff && WasRevived(s, es, e)
  {
    RunInv(s, es);
    var now := Exec(s, es);
    var sw := now.sweeps[tx];
    var i :| 0 <= i < |sw.done| && sw.done[i].row == e;
    assert SweepOk(now.db, sw) && ClaimOk(now.db, sw, sw.done[i]);
    if !WasRevived(s, es, e) { DatesAgree(s, es, e); }
  }

  // ---- One sweep from a quiet state ----

  /** No other claim of the list has the order of claim `i`. */
  ghost predicate OwnOrder(cs: seq<Claim>, i: nat)
    requires i < |cs|
  {
    cs[i].order.Some? ==> forall j :: 0 <= j < |cs| && j != i ==> cs[j].order != cs[i].order
  }

  lemma {:induction false} ClaimsKept(db: Db, todo: seq<Claim>, done: seq<Claim>, e: Id)
    requires ClaimsRow(done, e)
    ensures ClaimsRow(SweepClaims(db, todo, done), e)
    decreases |todo|
  {
    if todo != [] {
      ClaimsRowAppend(done, Claimed(db, todo[0]), e);
      ClaimsKept(db, todo[1..], done, e);
      ClaimsKept(db, todo[1..], done + [Claimed(db, todo[0])], e);
    }
  }

  /** A listed row with a PENDING order of its own, or none, ends up claimed. */
  lemma {:induction false} ListedIsClaimed(db: Db, todo: seq<Claim>, done: seq<Claim>, i: nat)
    requires i < |todo| && Expires(db, todo[i]) && OwnOrder(todo, i)
    requires todo[i].order.Some? ==> !ClaimsOrder(done, todo[i].order.value)
    ensures ClaimsRow(SweepClaims(db, todo, done), todo[i].row)
    decreases |todo|
  {
    var next := done + [Claimed(db, todo[0])];
    if i == 0 {
      ClaimsRowAppend(done, Claimed(db, todo[0]), todo[0].row);
      ClaimsKept(db, todo[1..], next, todo[0].row);
    } else {
      if todo[i].order.Some? { ClaimsOrderAppend(done, Claimed(db, todo[0]), todo[i].order.value); }
      assert todo[1..][i - 1] == todo[i];
      assert OwnOrder(todo[1..], i - 1) by {
        forall j | 0 <= j < |todo| - 1 ensures todo[1..][j] == todo[j + 1] {}
      }
      ListedIsClaimed(db, todo[1..], done, i - 1);
      ListedIsClaimed(db, todo[1..], next, i - 1);
    }
  }

  lemma ListingOwnsOrders(db: Db, rows: seq<Id>, i: nat)
    requires UniqueRows(db) && Carried(db) && Distinct(rows) && i < |rows|
    requires forall j :: 0 <= j < |rows| ==> rows[j] in db.enrollments
    ensures OwnOrder(ListedAll(db, rows), i)
  {
  }

  /** A sweep that lists a stale row with a PENDING order, among others, cancels both. */
  lemma ListedIsCancelled(s: State, tx: Id, rows: seq<Id>, cutoff: int, i: nat)
    requires Quiet(s) && DbInv(s.db) && Distinct(rows) && AllStale(s.db, rows, cutoff)
    requires i < |rows| && OrderIs(s.db, rows[i], OrderPending)
    ensures var db := Exec(s, SweepEvents(tx, rows, cutoff)).db;
            && rows[i] in db.enrollments && OrderIs(db, rows[i], OrderCancelled)
            && db.enrollments[rows[i]] == s.db.enrollments[rows[i]].(status := EnrollCancelled)
  {
    var listed := ListedAll(s.db, rows);
    SweepIsTransaction(s, tx, rows, cutoff);
    ListingOwnsOrders(s.db, rows, i);
    ListedIsClaimed(s.db, listed, [], i);
    ClaimsOwnOrder(s.db, listed, [], rows[i]);
  }

  /** Claims keep the order their row has. */
  lemma {:induction false} ClaimsOwnOrder(db: Db, todo: seq<Claim>, done: seq<Claim>, e: Id)
    requires forall i :: 0 <= i < |todo| ==> todo[i].row in db.enrollments && todo[i] == Listed(db, todo[i].row)
    requires OrderIs(db, e, OrderPending)
    requires ClaimsRow(done, e) ==> ClaimsOrder(done, db.enrollments[e].order.value)
    ensures ClaimsRow(SweepClaims(db, todo, done), e) ==>
              ClaimsOrder(SweepClaims(db, todo, done), db.enrollments[e].order.value)
    decreases |todo|
  {
    if todo != [] {
      var cl := Claimed(db, todo[0]);
      ClaimsRowAppend(done, cl, e);
      ClaimsOrderAppend(done, cl, db.enrollments[e].order.value);
      ClaimsOwnOrder(db, todo[1..], done, e);
      ClaimsOwnOrder(db, todo[1..], done + [cl], e);
    }
  }

  lemma {:induction false} ClaimsAreListed(db: Db, todo: seq<Claim>, done: seq<Claim>, e: Id)
    requires ClaimsRow(SweepClaims(db, todo, done), e)
    ensures ClaimsRow(done, e) || ClaimsRow(todo, e)
    decreases |todo|
  {
    if todo != [] {
      var claims := Expires(db, todo[0]) && !(Claimed(db, todo[0]).order.Some? && ClaimsOrder(done, todo[0].order.value));
      ClaimsAreListed(db, todo[1..], if claims then done + [Claimed(db, todo[0])] else done, e);
      ClaimsRowAppend(done, Claimed(db, todo[0]), e);
      assert [todo[0]] + todo[1..] == todo;
      if i :| 0 <= i < |todo[1..]| && todo[1..][i].row == e { assert todo[i + 1].row == e; }
    }
  }

  /** A sweep that takes this listing, one of stale rows, leaves the row CANCELLED. */
  ghost predicate SweepCancels(s: State, tx: Id, rows: seq<Id>, cutoff: int, e: Id) {
    && Distinct(rows) && AllStale(s.db, rows, cutoff)
    && (var db := Exec(s, SweepEvents(tx, rows, cutoff)).db;
        e in db.enrollments && db.enrollments[e].status == EnrollCancelled)
  }

  lemma CancelledWasListed(s: State, tx: Id, rows: seq<Id>, cutoff: int, e: Id)
    requires Quiet(s) && SweepCancels(s, tx, rows, cutoff, e)
    requires e in s.db.enrollments && s.db.enrollments[e].status != EnrollCancelled
    ensures Stale(s.db, e, cutoff)
  {
    SweepIsTransaction(s, tx, rows, cutoff);
    ClaimsAreListed(s.db, ListedAll(s.db, rows), [], e);
  }

  /**
   In every quiet state of every run: an unpaid checkout made at or after the cutoff can be cancelled
   by a sweep with that cutoff if and only if its row was revived and first created before the cutoff.
   */
  lemma FreshCheckoutSweptIff(s: State, es: seq<Event>, tx: Id, cutoff: int, e: Id)
    requires Quiet(s) && DbInv(s.db) && Quiet(Exec(s, es))
    requires var db := Exec(s, es).db;
             && OrderIs(db, e, OrderPending) && db.enrollments[e].status == EnrollPending
             && db.enrollments[e].enrolledAt >= cutoff
    ensures (exists rows :: SweepCancels(Exec(s, es), tx, rows, cutoff, e)) <==>
            WasRevived(s, es, e) && Exec(s, es).db.enrollments[e].createdAt < cutoff
  {
    RunInv(s, es);
    var now := Exec(s, es);
    if rows :| SweepCancels(now, tx, rows, cutoff, e) {
      CancelledWasListed(now, tx, rows, cutoff, e);
      if !WasRevived(s, es, e) { DatesAgree(s, es, e); }
    }
    if now.db.enrollments[e].createdAt < cutoff {
      ListedIsCancelled(now, tx, [e], cutoff, 0);
      assert SweepCancels(now, tx, [e], cutoff, e);
    }
  }

  /**
   The run itself: a student books again on a row created before the cutoff, and a sweep right after
   cancels the new checkout, whose enrolment date is not before the cutoff.
   */
  lemma RevivedCheckoutIsSwept(s: State, req: Request, now: int, o: Id, newRow: Id, e: Id, cutoff: int, tx: Id, tx2: Id)
    requires Quiet(s) && DbInv(s.db) && o !in s.db.orders && newRow !in s.db.enrollments
    requires Book(s.db, req, true, now, o, newRow).1 == Ok(Booked(o, e)) && e in s.db.enrollments
    requires s.db.enrollments[e].createdAt < cutoff <= now
    ensures var book := [BookBegin(tx, req.cohort, req.student, req.parent, req.Key(), now), BookCommit(tx, o, newRow)];
            var db := Exec(s, book + SweepEvents(tx2, [e], cutoff)).db;
            && e in db.enrollments && o in db.orders && db.orders[o].status == OrderCancelled
            && db.enrollments[e].status == EnrollCancelled && db.enrollments[e].order == Some(o)
            && db.enrollments[e].enrolledAt == now >= cutoff
  {
    var book := [BookBegin(tx, req.cohort, req.student, req.parent, req.Key(), now), BookCommit(tx, o, newRow)];
    BookIsTransaction(s, req, now, tx, o, newRow);
    RunInv(s, book);
    ExecAppend(s, book, SweepEvents(tx2, [e], cutoff));
    ListedIsCancelled(Exec(s, book), tx2, [e], cutoff, 0);
  }
}
