/**
 A settlement and a sweep that wait for each other: the settlement has taken the order and waits for
 the enrolment row, the sweep has listed the row and waits for the order.
 */
module BookingDeadlock {
  import opened Common
  import opened BookingModel
  import opened BookingRaces
  import opened BookingService

  /** Settlement `tx` has the order and needs row `e`; sweep `tx2` has the row and needs the order. */
  ghost predicate Stuck(s: State, tx: Id, tx2: Id, o: Id, e: Id) {
    && tx in s.settles && s.settles[tx] == Settle(o, Some(e), EnrollPending)
    && tx2 in s.sweeps && e in s.sweeps[tx2].held && ClaimsRow(s.sweeps[tx2].todo, e)
    && o in s.db.orders && s.db.orders[o].status == OrderPending
    && e in s.db.enrollments && s.db.enrollments[e].order == Some(o)
  }

  lemma SettlementWaits(s: State, tx: Id, tx2: Id, o: Id, e: Id)
    requires Stuck(s, tx, tx2, o, e)
    ensures DoSettleCommit(s, tx) == s
  {
    assert RowLocked(s, e);
  }

  /** The sweep may go through the rows listed before, and then waits. */
  lemma SweepWaits(s: State, tx: Id, tx2: Id, o: Id, e: Id)
    requires Inv(s) && Stuck(s, tx, tx2, o, e)
    ensures s.sweeps[tx2].todo != []
    ensures s.sweeps[tx2].todo[0].row == e ==> DoSweepRow(s, tx2) == s
    ensures Stuck(DoSweepRow(s, tx2), tx, tx2, o, e)
  {
    var sw := s.sweeps[tx2];
    assert SweepOk(s.db, sw);
    var i :| 0 <= i < |sw.todo| && sw.todo[i].row == e;
    assert ListedOk(s.db, sw, sw.todo[i]) && OrderLocked(s, o);
    if sw.todo[0].row == e {
      assert ListedOk(s.db, sw, sw.todo[0]);
    } else {
      assert sw.todo[1..][i - 1].row == e;
    }
  }

  lemma OthersSettle(s: State, tx: Id, tx2: Id, o: Id, e: Id, other: Id)
    requires Inv(s) && Stuck(s, tx, tx2, o, e) && other != tx
    ensures Stuck(DoSettleCommit(s, other), tx, tx2, o, e) && DoSettleCommit(s, other).sweeps == s.sweeps
  {
    if other in s.settles && s.settles[other].row == Some(e) { assert RowLocked(s, e); }
  }

  lemma OthersSweep(s: State, tx: Id, tx2: Id, o: Id, e: Id, other: Id)
    requires Inv(s) && Stuck(s, tx, tx2, o, e) && other != tx2
    ensures Stuck(DoSweepCommit(s, other), tx, tx2, o, e) && DoSweepCommit(s, other).sweeps[tx2] == s.sweeps[tx2]
  {
  }

  lemma OthersBook(s: State, tx: Id, tx2: Id, o: Id, e: Id, other: Id, order: Id, newRow: Id)
    requires Inv(s) && Stuck(s, tx, tx2, o, e)
    ensures Stuck(DoBookCommit(s, other, order, newRow), tx, tx2, o, e)
    ensures DoBookCommit(s, other, order, newRow).sweeps == s.sweeps
  {
  }

  predicate Opens(ev: Event) { ev.BookBegin? || ev.SweepList? || ev.SettleBegin? || ev.Abort? }

  lemma OthersOpen(s: State, tx: Id, tx2: Id, o: Id, e: Id, ev: Event)
    requires Stuck(s, tx, tx2, o, e) && ev != Abort(tx) && ev != Abort(tx2) && Opens(ev)
    ensures Stuck(Step(s, ev), tx, tx2, o, e) && Step(s, ev).sweeps[tx2] == s.sweeps[tx2]
  {
  }

  lemma OthersGoThrough(s: State, tx: Id, tx2: Id, o: Id, e: Id, other: Id)
    requires Stuck(s, tx, tx2, o, e) && other != tx2
    ensures Stuck(DoSweepRow(s, other), tx, tx2, o, e) && DoSweepRow(s, other).sweeps[tx2] == s.sweeps[tx2]
  {
  }

  /** Whatever anybody does, short of aborting one of the two, both stay where they are. */
  lemma StuckStep(s: State, ev: Event, tx: Id, tx2: Id, o: Id, e: Id)
    requires Inv(s) && Stuck(s, tx, tx2, o, e) && ev != Abort(tx) && ev != Abort(tx2)
    ensures Stuck(Step(s, ev), tx, tx2, o, e)
    ensures s.sweeps[tx2].todo != []
    ensures s.sweeps[tx2].todo[0].row == e ==> Step(s, ev).sweeps[tx2] == s.sweeps[tx2]
  {
    match ev
    case SettleCommit(t) => if t == tx { SettlementWaits(s, tx, tx2, o, e); } else { OthersSettle(s, tx, tx2, o, e, t); }
    case SweepCommit(t) => if t != tx2 { OthersSweep(s, tx, tx2, o, e, t); }
    case SweepRow(t) => if t == tx2 { SweepWaits(s, tx, tx2, o, e); } else { OthersGoThrough(s, tx, tx2, o, e, t); }
    case BookCommit(t, order, newRow) => OthersBook(s, tx, tx2, o, e, t, order, newRow);
    case _ => OthersOpen(s, tx, tx2, o, e, ev);
  }

  lemma {:induction false} StuckForever(s: State, es: seq<Event>, tx: Id, tx2: Id, o: Id, e: Id)
    requires Inv(s) && Stuck(s, tx, tx2, o, e) && Abort(tx) !in es && Abort(tx2) !in es
    ensures Stuck(Exec(s, es), tx, tx2, o, e)
    ensures s.sweeps[tx2].todo != []
    ensures s.sweeps[tx2].todo[0].row == e ==> Exec(s, es).sweeps[tx2] == s.sweeps[tx2]
  {
    SweepWaits(s, tx, tx2, o, e);
    if es != [] {
      var init := es[..|es| - 1];
      StuckForever(s, init, tx, tx2, o, e);
      RunInv(s, init);
      StuckStep(Exec(s, init), es[|es| - 1], tx, tx2, o, e);
    }
  }

  // ---- When it comes to that ----

  function Seen(db: Db, row: Option<Id>): EnrollmentStatus
    requires row.Some? ==> row.value in db.enrollments
  {
    if row.Some? then db.enrollments[row.value].status else EnrollPending
  }

  /** The settlement has read its row and the sweep has listed its rows. */
  lemma BothHold(s: State, o: Id, rows: seq<Id>, cutoff: int, tx: Id, tx2: Id)
    requires Quiet(s) && Settleable(s.db, o) && Distinct(rows) && AllStale(s.db, rows, cutoff)
    ensures var row := SettledRow(s.db, o);
            Exec(s, [SettleBegin(tx, o), SweepList(tx2, rows, cutoff)])
            == State(s.db, map[], map[tx2 := Sweep(ListedAll(s.db, rows), [], Members(rows), cutoff)],
                     map[tx := Settle(o, row, Seen(s.db, row))])
  {
    ExecTwo(s, SettleBegin(tx, o), SweepList(tx2, rows, cutoff));
    assert Listable(Step(s, SettleBegin(tx, o)), rows, cutoff);
  }

  /** A listed row carries the order, which is still PENDING. */
  ghost predicate Contended(db: Db, o: Id, rows: seq<Id>) {
    && o in db.orders && db.orders[o].status == OrderPending
    && exists i :: 0 <= i < |rows| && rows[i] in db.enrollments && db.enrollments[rows[i]].order == Some(o)
  }

  lemma ContendedIsStuck(s: State, o: Id, rows: seq<Id>, i: nat, cutoff: int, tx: Id, tx2: Id)
    requires Quiet(s) && DbInv(s.db) && Settleable(s.db, o) && Distinct(rows) && AllStale(s.db, rows, cutoff)
    requires i < |rows| && s.db.enrollments[rows[i]].order == Some(o) && s.db.orders[o].status == OrderPending
    ensures Stuck(Exec(s, [SettleBegin(tx, o), SweepList(tx2, rows, cutoff)]), tx, tx2, o, rows[i])
  {
    BothHold(s, o, rows, cutoff, tx, tx2);
    var order := s.db.orders[o];
    assert RowMatches(s.db, rows[i], order.cohort.value, order.student);
    assert SettledRow(s.db, o) == Some(rows[i]);
    assert rows[i] in Members(rows) && ListedAll(s.db, rows)[i].row == rows[i];
  }

  /** The run goes on without aborting either of the two, and both have ended. */
  ghost predicate Finishes(d: State, es: seq<Event>, tx: Id, tx2: Id) {
    && Abort(tx) !in es && Abort(tx2) !in es
    && tx !in Exec(d, es).settles && tx2 !in Exec(d, es).sweeps
  }

  ghost predicate CanFinish(d: State, tx: Id, tx2: Id) { exists es :: Finishes(d, es, tx, tx2) }

  function Rest(n: nat, tx: Id, tx2: Id): seq<Event> {
    RowSteps(tx2, n) + [SweepCommit(tx2)] + [SettleCommit(tx)]
  }

  /** Uncontended, the sweep goes through and then the settlement. */
  lemma UncontendedFinishes(s: State, o: Id, rows: seq<Id>, cutoff: int, tx: Id, tx2: Id)
    requires Quiet(s) && Settleable(s.db, o) && Distinct(rows) && AllStale(s.db, rows, cutoff)
    requires !Contended(s.db, o, rows)
    ensures Finishes(Exec(s, [SettleBegin(tx, o), SweepList(tx2, rows, cutoff)]), Rest(|rows|, tx, tx2), tx, tx2)
  {
    BothHold(s, o, rows, cutoff, tx, tx2);
    SweepGoesThrough(Exec(s, [SettleBegin(tx, o), SweepList(tx2, rows, cutoff)]), |rows|, tx, tx2);
  }

  lemma SweepGoesThrough(d: State, n: nat, tx: Id, tx2: Id)
    requires d.bookings == map[] && d.sweeps.Keys == {tx2} && d.settles.Keys == {tx} && n == |d.sweeps[tx2].todo|
    requires Unclaimed(d, d.sweeps[tx2].todo) && SettleReady(d, tx)
    ensures tx !in Exec(d, Rest(n, tx, tx2)).settles && tx2 !in Exec(d, Rest(n, tx, tx2)).sweeps
  {
    SweepRowsAlone(d, tx2, n);
    var es := RowSteps(tx2, n) + [SweepCommit(tx2)];
    assert es[..n] == RowSteps(tx2, n);
    assert Rest(n, tx, tx2)[..|es|] == es;
    SweepThenSettle(Exec(d, RowSteps(tx2, n)), tx, tx2);
  }

  /** What the settlement works on exists. */
  predicate SettleReady(d: State, tx: Id) {
    && tx in d.settles && d.settles[tx].order in d.db.orders
    && (d.settles[tx].row.Some? ==> d.settles[tx].row.value in d.db.enrollments)
  }

  lemma SweepThenSettle(d: State, tx: Id, tx2: Id)
    requires d.bookings == map[] && d.sweeps.Keys == {tx2} && d.sweeps[tx2].todo == [] && SettleReady(d, tx)
    ensures var t := Step(Step(d, SweepCommit(tx2)), SettleCommit(tx)); tx !in t.settles && tx2 !in t.sweeps
  {
    var c := Step(d, SweepCommit(tx2));
    assert c == d.(db := Release(d.db, d.sweeps[tx2].done), sweeps := map[]);
    assert !SettleWaits(c, c.settles[tx]);
  }

  /**
   From every quiet state: after a settlement has taken an order and a sweep has listed rows, the two can
   both end without either being aborted if and only if no listed row carries the order while it is PENDING.
   */
  lemma DeadlockIff(s: State, o: Id, rows: seq<Id>, cutoff: int, tx: Id, tx2: Id)
    requires Quiet(s) && DbInv(s.db) && Settleable(s.db, o) && Distinct(rows) && AllStale(s.db, rows, cutoff)
    ensures CanFinish(Exec(s, [SettleBegin(tx, o), SweepList(tx2, rows, cutoff)]), tx, tx2) <==> !Contended(s.db, o, rows)
  {
    var begun := [SettleBegin(tx, o), SweepList(tx2, rows, cutoff)];
    if Contended(s.db, o, rows) {
      var i :| 0 <= i < |rows| && rows[i] in s.db.enrollments && s.db.enrollments[rows[i]].order == Some(o);
      ContendedIsStuck(s, o, rows, i, cutoff, tx, tx2);
      RunInv(s, begun);
      forall es ensures !Finishes(Exec(s, begun), es, tx, tx2) {
        if Abort(tx) !in es && Abort(tx2) !in es { StuckForever(Exec(s, begun), es, tx, tx2, o, rows[i]); }
      }
    } else {
      UncontendedFinishes(s, o, rows, cutoff, tx, tx2);
      assert Finishes(Exec(s, begun), Rest(|rows|, tx, tx2), tx, tx2);
    }
  }

  /**
   The two over one row: both are still open and unchanged after any run that aborts neither; once the
   sweep is aborted the settlement goes through.
   */
  lemma SettlementAndSweepDeadlock(s: State, o: Id, e: Id, cutoff: int, tx: Id, tx2: Id, es: seq<Event>)
    requires Quiet(s) && DbInv(s.db) && Stale(s.db, e, cutoff) && tx != tx2
    requires s.db.enrollments[e].order == Some(o) && OrderIs(s.db, e, OrderPending)
    requires Abort(tx) !in es && Abort(tx2) !in es
    ensures var d := Exec(s, [SettleBegin(tx, o), SweepList(tx2, [e], cutoff)]);
            && tx in d.settles && tx2 in d.sweeps
            && tx in Exec(d, es).settles && Exec(d, es).settles[tx] == d.settles[tx]
            && tx2 in Exec(d, es).sweeps && Exec(d, es).sweeps[tx2] == d.sweeps[tx2]
            && OrderIs(Step(Step(d, Abort(tx2)), SettleCommit(tx)).db, e, OrderPaid)
  {
    var begun := [SettleBegin(tx, o), SweepList(tx2, [e], cutoff)];
    BothHold(s, o, [e], cutoff, tx, tx2);
    ContendedIsStuck(s, o, [e], 0, cutoff, tx, tx2);
    RunInv(s, begun);
    StuckForever(Exec(s, begun), es, tx, tx2, o, e);
    AbortedSweepLetsPass(Exec(s, begun), o, e, tx, tx2);
  }

  lemma AbortedSweepLetsPass(d: State, o: Id, e: Id, tx: Id, tx2: Id)
    requires Stuck(d, tx, tx2, o, e) && tx != tx2 && d.bookings == map[] && d.sweeps.Keys == {tx2}
    ensures OrderIs(Step(Step(d, Abort(tx2)), SettleCommit(tx)).db, e, OrderPaid)
  {
    assert Step(d, Abort(tx2)).sweeps == map[];
  }
}
