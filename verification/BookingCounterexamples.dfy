/** Concrete runs on which seat conservation and capacity fail. */
module BookingCounterexamples {
  import opened Common
  import opened BookingModel
  import opened BookingRaces
  import opened BookingTheorems

  lemma Exec4(s: State, a: Event, b: Event, c: Event, d: Event)
    ensures Exec(s, [a, b, c, d]) == Step(Step(Step(Step(s, a), b), c), d)
  {
    assert [a, b, c, d][..3] == [a, b, c] && [a, b, c][..2] == [a, b];
    ExecTwo(s, a, b);
  }

  // ---- A late capture racing a rebooking ----

  const SWEPT := Enrollment(5, 7, 70, Some(1), EnrollCancelled, 0, 0)
  const REVIVED := Enrollment(5, 7, 70, Some(2), EnrollPending, 10, 0)
  const OLD_ORDER := Order(70, 7, Some(5), OrderCancelled, None)
  const NEW_ORDER := Order(70, 7, Some(5), OrderPending, None)

  function Seats(capacity: int, enrolled: int): map<Id, Cohort> {
    map[5 := Cohort(Published, capacity, enrolled, None, None, None)]
  }

  /** Order 1 of student 7 was swept earlier: order and row CANCELLED, no seat taken. */
  function AfterSweep(): Db { Db(map[1 := OLD_ORDER], map[1 := SWEPT], Seats(20, 0)) }

  function Rebooked(): Db { Db(map[1 := OLD_ORDER, 2 := NEW_ORDER], map[1 := REVIVED], Seats(20, 1)) }

  const STALE_READ := Settle(1, Some(1), EnrollCancelled)

  lemma ReadThenRebook()
    ensures Step(State(AfterSweep(), map[], map[], map[]), SettleBegin(1, 1))
         == State(AfterSweep(), map[], map[], map[1 := STALE_READ])
    ensures Step(State(AfterSweep(), map[], map[], map[1 := STALE_READ]), BookBegin(2, 5, 7, 70, None, 10))
         == State(AfterSweep(), map[2 := Booking(5, 7, 70, None, Some(1), 10)], map[], map[1 := STALE_READ])
  {
    assert RowMatches(AfterSweep(), 1, 5, 7);
    assert RowOf(AfterSweep(), 5, 7) == Some(1);
  }

  lemma RebookCommits()
    ensures Step(State(AfterSweep(), map[2 := Booking(5, 7, 70, None, Some(1), 10)], map[], map[1 := STALE_READ]),
                 BookCommit(2, 2, 9))
         == State(Rebooked(), map[], map[], map[1 := STALE_READ])
  {
    var b := Booking(5, 7, 70, None, Some(1), 10);
    assert Reserve(AfterSweep(), b, 2, 9) == Rebooked();
    assert map[2 := b] - {2} == map[];
  }

  lemma CaptureCommits()
    ensures Step(State(Rebooked(), map[], map[], map[1 := STALE_READ]), SettleCommit(1)).db
         == Db(map[1 := OLD_ORDER.(status := OrderPaid), 2 := NEW_ORDER],
               map[1 := REVIVED.(status := EnrollConfirmed)], Seats(20, 2))
  {
  }

  /**
   A late capture of the swept order reads the row as CANCELLED, the student books again before it
   commits, and both take a seat for the one row.
   */
  lemma LateCaptureRacesRebooking()
    ensures var s := State(AfterSweep(), map[], map[], map[]);
            var db := Exec(s, [SettleBegin(1, 1), BookBegin(2, 5, 7, 70, None, 10), BookCommit(2, 2, 9), SettleCommit(1)]).db;
            && Quiet(s) && DbInv(s.db) && Conserved(s.db)
            && db.cohorts == Seats(20, 2) && Holders(db, 5) == {1} && !Conserved(db)
  {
    var s := State(AfterSweep(), map[], map[], map[]);
    assert Holders(s.db, 5) == {} && ConservedAt(s.db, 5);
    Exec4(s, SettleBegin(1, 1), BookBegin(2, 5, 7, 70, None, 10), BookCommit(2, 2, 9), SettleCommit(1));
    ReadThenRebook();
    RebookCommits();
    CaptureCommits();
    var db := Step(State(Rebooked(), map[], map[], map[1 := STALE_READ]), SettleCommit(1)).db;
    assert Holders(db, 5) == {1};
    assert !ConservedAt(db, 5);
  }

  // ---- A late capture into a full cohort ----

  const OTHER := Enrollment(5, 8, 80, Some(2), EnrollConfirmed, 0, 0)
  const OTHER_ORDER := Order(80, 8, Some(5), OrderPaid, None)

  /** The swept seat was sold to student 8: the cohort of one seat is full. */
  function SeatResold(): Db {
    Db(map[1 := OLD_ORDER, 2 := OTHER_ORDER], map[1 := SWEPT, 2 := OTHER], Seats(1, 1))
  }

  lemma CaptureOfResoldSeat()
    ensures Step(State(SeatResold(), map[], map[], map[]), SettleBegin(1, 1))
         == State(SeatResold(), map[], map[], map[1 := STALE_READ])
    ensures Step(State(SeatResold(), map[], map[], map[1 := STALE_READ]), SettleCommit(1)).db
         == Db(map[1 := OLD_ORDER.(status := OrderPaid), 2 := OTHER_ORDER],
               map[1 := SWEPT.(status := EnrollConfirmed), 2 := OTHER], Seats(1, 2))
  {
    assert RowMatches(SeatResold(), 1, 5, 7);
    assert RowOf(SeatResold(), 5, 7) == Some(1);
  }

  lemma ResoldIsSound()
    ensures DbInv(SeatResold()) && Conserved(SeatResold())
  {
    assert Holders(SeatResold(), 5) == {2} && ConservedAt(SeatResold(), 5);
  }

  /** A late capture into a cohort that filled up in the meantime goes over capacity. */
  lemma LateCaptureOversells()
    ensures var s := State(SeatResold(), map[], map[], map[]);
            var db := Exec(s, [SettleBegin(1, 1), SettleCommit(1)]).db;
            Quiet(s) && DbInv(s.db) && Conserved(s.db) && Conserved(db) && db.cohorts == Seats(1, 2)
  {
    var s := State(SeatResold(), map[], map[], map[]);
    ResoldIsSound();
    ExecTwo(s, SettleBegin(1, 1), SettleCommit(1));
    CaptureOfResoldSeat();
    var db := Step(State(SeatResold(), map[], map[], map[1 := STALE_READ]), SettleCommit(1)).db;
    assert Holders(db, 5) == {1, 2} && ConservedAt(db, 5);
  }
}
