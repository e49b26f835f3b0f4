/**
 What holds of seats, rows and orders over every run of concurrent bookings, sweeps and
 settlements, and exactly where seat conservation and capacity fail.
 */
module BookingTheorems {
  import opened Common
  import opened BookingModel
  import opened BookingRaces

  // ---- Seat conservation ----

  lemma ReserveHolders(db: Db, b: Booking, o: Id, newRow: Id, c: Id)
    requires BookingOk(db, b) && newRow !in db.enrollments
    requires b.revive.Some? ==> db.enrollments[b.revive.value].status == EnrollCancelled
    ensures var id := if b.revive.Some? then b.revive.value else newRow;
            && id !in Holders(db, c)
            && Holders(Reserve(db, b, o, newRow), c) == if c == b.cohort then Holders(db, c) + {id} else Holders(db, c)
  {
  }

  /** A booking that inserts a row, or revives one that is still CANCELLED, takes exactly one seat. */
  lemma ReserveConserves(db: Db, b: Booking, o: Id, newRow: Id)
    requires Conserved(db) && BookingOk(db, b) && newRow !in db.enrollments
    requires b.revive.Some? ==> db.enrollments[b.revive.value].status == EnrollCancelled
    ensures Conserved(Reserve(db, b, o, newRow))
  {
    var db' := Reserve(db, b, o, newRow);
    forall c | c in db'.cohorts ensures ConservedAt(db', c) {
      assert ConservedAt(db, c);
      ReserveHolders(db, b, o, newRow, c);
    }
  }

  /** The rows of cohort `c` among the claims. */
  ghost function RowsIn(done: seq<Claim>, c: Id): (rows: set<Id>)
    ensures forall e :: e in rows <==> exists i :: 0 <= i < |done| && done[i].cohort == c && done[i].row == e
  {
    if done == [] then {}
    else
      var last := done[|done| - 1];
      RowsIn(done[..|done| - 1], c) + (if last.cohort == c then {last.row} else {})
  }

  lemma {:induction false} SeatsAreRows(done: seq<Claim>, c: Id)
    requires forall i, j :: 0 <= i < j < |done| ==> done[i].row != done[j].row
    ensures SeatsOf(done, c) == |RowsIn(done, c)|
  {
    if done != [] {
      var init, last := done[..|done| - 1], done[|done| - 1];
      SeatsAreRows(init, c);
      assert last.row !in RowsIn(init, c);
    }
  }

  lemma ClaimedRowsHold(db: Db, sw: Sweep, c: Id)
    requires SweepOk(db, sw)
    ensures RowsIn(sw.done, c) <= Holders(db, c)
    ensures forall i, j :: 0 <= i < j < |sw.done| ==> sw.done[i].row != sw.done[j].row
    ensures Holders(Release(db, sw.done), c) == Holders(db, c) - RowsIn(sw.done, c)
  {
    forall i | 0 <= i < |sw.done|
      ensures (sw.done + sw.todo)[i] == sw.done[i] && ClaimOk(db, sw, sw.done[i]) {}
  }

  /** A sweep gives back one seat for each row it cancels, and every row it cancels had one to give. */
  lemma ReleaseConserves(db: Db, sw: Sweep)
    requires Conserved(db) && SweepOk(db, sw)
    ensures Conserved(Release(db, sw.done))
  {
    var db' := Release(db, sw.done);
    forall c | c in db'.cohorts ensures ConservedAt(db', c) {
      assert ConservedAt(db, c);
      ClaimedRowsHold(db, sw, c);
      SeatsAreRows(sw.done, c);
      RemoveCount(Holders(db, c), RowsIn(sw.done, c));
    }
  }

  /** In every reachable state a row is listed or claimed by at most one sweep, with or without an order. */
  lemma OneSweepPerRow(s: State, es: seq<Event>, t: Id, u: Id, e: Id)
    requires Quiet(s) && DbInv(s.db)
    requires var sweeps := Exec(s, es).sweeps;
             && t in sweeps && ClaimsRow(sweeps[t].done + sweeps[t].todo, e)
             && u in sweeps && ClaimsRow(sweeps[u].done + sweeps[u].todo, e)
    ensures t == u
  {
    QuietInv(s);
    RunInv(s, es);
    var now := Exec(s, es);
    ListedIsHeld(now.db, now.sweeps[t], e);
    ListedIsHeld(now.db, now.sweeps[u], e);
  }

  lemma ListedIsHeld(db: Db, sw: Sweep, e: Id)
    requires SweepOk(db, sw) && ClaimsRow(sw.done + sw.todo, e)
    ensures e in sw.held
  {
    var i :| 0 <= i < |sw.done + sw.todo| && (sw.done + sw.todo)[i].row == e;
    if i < |sw.done| { assert ClaimOk(db, sw, sw.done[i]); } else { assert ListedOk(db, sw, sw.todo[i - |sw.done|]); }
  }

  lemma ReleaseOne(db: Db, cl: Claim, c: Id)
    requires cl.row in db.enrollments && cl.cohort == db.enrollments[cl.row].cohort
    ensures Holders(Release(db, [cl]), c) == Holders(db, c) - {cl.row}
    ensures SeatsOf([cl], c) == if c == cl.cohort then 1 else 0
  {
    assert [cl][..0] == [] && [cl][0] == cl;
  }

  /** What that protects from: releasing one claim of a row without an order a second time breaks the count. */
  lemma ReleasedTwiceBreaks(db: Db, cl: Claim)
    requires Conserved(db) && cl.row in db.enrollments && db.enrollments[cl.row].status == EnrollPending
    requires cl.order.None? && cl.cohort == db.enrollments[cl.row].cohort && cl.cohort in db.cohorts
    ensures Conserved(Release(db, [cl])) && !Conserved(Release(Release(db, [cl]), [cl]))
  {
    var once := Release(db, [cl]);
    forall c | c in once.cohorts ensures ConservedAt(once, c) {
      assert ConservedAt(db, c);
      ReleaseOne(db, cl, c);
    }
    assert ConservedAt(once, cl.cohort);
    ReleaseOne(once, cl, cl.cohort);
    assert cl.row !in Holders(once, cl.cohort);
    assert !ConservedAt(Release(once, [cl]), cl.cohort);
  }

  /** What a settlement read about the row's seat is still true when it commits. */
  ghost predicate FreshRead(db: Db, t: Settle) {
    t.row.Some? && t.row.value in db.enrollments && t.seen != EnrollConfirmed
      && db.enrollments[t.row.value].cohort in db.cohorts
    ==> ((db.enrollments[t.row.value].status == EnrollCancelled) <==> (t.seen == EnrollCancelled))
  }

  lemma PayHolders(db: Db, t: Settle, c: Id)
    requires SettleOk(db, t)
    ensures Holders(Pay(db, t), c) ==
            if t.row.Some? && t.seen != EnrollConfirmed && c == db.enrollments[t.row.value].cohort
            then Holders(db, c) + {t.row.value} else Holders(db, c)
  {
  }

  /** What the settlement does at one cohort. */
  lemma PayConservesAtIff(db: Db, t: Settle, c: Id)
    requires ConservedAt(db, c) && SettleOk(db, t) && c in db.cohorts
    ensures ConservedAt(Pay(db, t), c) <==>
            (t.row.Some? && t.seen != EnrollConfirmed && c == db.enrollments[t.row.value].cohort ==> FreshRead(db, t))
  {
    PayHolders(db, t, c);
    if t.row.Some? && t.seen != EnrollConfirmed && c == db.enrollments[t.row.value].cohort {
      var before, e := Holders(db, c), t.row.value;
      assert e in before <==> db.enrollments[e].status != EnrollCancelled;
      assert |before + {e}| == |before| + (if e in before then 0 else 1) by {
        if e in before { assert before + {e} == before; }
      }
    }
  }

  /** A settlement keeps the counters exact if and only if its read of the row is not out of date. */
  lemma PayConservesIff(db: Db, t: Settle)
    requires Conserved(db) && SettleOk(db, t)
    ensures Conserved(Pay(db, t)) <==> FreshRead(db, t)
  {
    assert Pay(db, t).cohorts.Keys == db.cohorts.Keys;
    forall c | c in db.cohorts
      ensures ConservedAt(Pay(db, t), c) <==>
              (t.row.Some? && t.seen != EnrollConfirmed && c == db.enrollments[t.row.value].cohort ==> FreshRead(db, t))
    {
      assert ConservedAt(db, c);
      PayConservesAtIff(db, t, c);
    }
    if !FreshRead(db, t) { assert !ConservedAt(Pay(db, t), db.enrollments[t.row.value].cohort); }
  }

  /** The settlement `tx` is open and waits for no row lock. */
  ghost predicate CommitsNow(s: State, tx: Id) {
    tx in s.settles && !SettleWaits(s, s.settles[tx])
  }

  ghost predicate FreshStep(s: State, e: Event) {
    e.SettleCommit? && CommitsNow(s, e.tx) ==> FreshRead(s.db, s.settles[e.tx])
  }

  /** Every settlement of the run commits on a read that is still true. */
  ghost predicate FreshRun(s: State, es: seq<Event>) {
    es == [] || (FreshRun(s, es[..|es| - 1]) && FreshStep(Exec(s, es[..|es| - 1]), es[|es| - 1]))
  }

  /** A settlement that commits with nothing in between its read and its commit is never stale. */
  lemma AtomicSettlementIsFresh(s: State, tx: Id, o: Id)
    requires tx !in s.settles
    ensures FreshStep(DoSettleBegin(s, tx, o), SettleCommit(tx))
  {
    if tx in DoSettleBegin(s, tx, o).settles {
      assert DoSettleBegin(s, tx, o).settles[tx].row == SettledRow(s.db, o);
    }
  }

  ghost predicate RevivesCancelled(s: State) {
    forall t :: t in s.bookings && s.bookings[t].revive.Some? && s.bookings[t].revive.value in s.db.enrollments
                ==> s.db.enrollments[s.bookings[t].revive.value].status == EnrollCancelled
  }

  lemma RevivesBookCommit(s: State, tx: Id, o: Id, newRow: Id)
    requires Inv(s) && RevivesCancelled(s)
    ensures RevivesCancelled(DoBookCommit(s, tx, o, newRow))
  {
    var s' := DoBookCommit(s, tx, o, newRow);
    if s'.db != s.db {
      forall t | t in s'.bookings && s'.bookings[t].revive.Some? && s'.bookings[t].revive.value in s'.db.enrollments
        ensures s'.db.enrollments[s'.bookings[t].revive.value].status == EnrollCancelled
      {
        assert BookingOk(s.db, s.bookings[t]) && BookingOk(s.db, s.bookings[tx]);
        assert s.bookings[t].cohort != s.bookings[tx].cohort;
      }
    }
  }

  lemma RevivesSettleCommit(s: State, tx: Id)
    requires Inv(s) && RevivesCancelled(s) && FreshStep(s, SettleCommit(tx))
    ensures RevivesCancelled(DoSettleCommit(s, tx))
  {
    var s' := DoSettleCommit(s, tx);
    if s'.db != s.db {
      forall u | u in s.bookings && s.bookings[u].revive.Some? && s.bookings[u].revive == s.settles[tx].row
        ensures s.settles[tx].seen == EnrollConfirmed
      {
        assert BookingOk(s.db, s.bookings[u]) && SettleOk(s.db, s.settles[tx]);
        assert CohortLocked(s, s.bookings[u].cohort);
      }
    }
  }

  lemma RevivesSweepCommit(s: State, tx: Id)
    requires Inv(s) && RevivesCancelled(s)
    ensures RevivesCancelled(DoSweepCommit(s, tx))
  {
  }

  lemma RevivesStep(s: State, e: Event)
    requires Inv(s) && RevivesCancelled(s) && FreshStep(s, e)
    ensures RevivesCancelled(Step(s, e))
  {
    match e
    case BookBegin(tx, c, student, parent, key, now) =>
    case BookCommit(tx, o, newRow) => RevivesBookCommit(s, tx, o, newRow);
    case SettleCommit(tx) => RevivesSettleCommit(s, tx);
    case SweepCommit(tx) => RevivesSweepCommit(s, tx);
    case _ =>
  }

  /** From a conserved state, the next state is conserved if and only if the step is not a stale settlement. */
  lemma ConservedStep(s: State, e: Event)
    requires Inv(s) && Conserved(s.db) && RevivesCancelled(s)
    ensures Conserved(Step(s, e).db) <==> FreshStep(s, e)
  {
    match e
    case BookBegin(tx, c, student, parent, key, now) =>
    case BookCommit(tx, o, newRow) =>
      if Step(s, e).db != s.db {
        ReserveConserves(s.db, s.bookings[tx], o, newRow);
      }
    case SweepList(tx, rows, cutoff) =>
    case SweepRow(tx) =>
    case SweepCommit(tx) =>
      if Step(s, e).db != s.db {
        assert SweepOk(s.db, s.sweeps[tx]);
        ReleaseConserves(s.db, s.sweeps[tx]);
      }
    case SettleBegin(tx, o) =>
    case SettleCommit(tx) =>
      if CommitsNow(s, tx) {
        assert SettleOk(s.db, s.settles[tx]);
        PayConservesIff(s.db, s.settles[tx]);
      }
    case Abort(tx) =>
  }

  lemma {:induction false} FreshRunConserves(s: State, es: seq<Event>)
    requires Quiet(s) && DbInv(s.db) && Conserved(s.db) && FreshRun(s, es)
    ensures Conserved(Exec(s, es).db) && RevivesCancelled(Exec(s, es))
  {
    if es != [] {
      var init := es[..|es| - 1];
      FreshRunConserves(s, init);
      RunInv(s, init);
      ConservedStep(Exec(s, init), es[|es| - 1]);
      RevivesStep(Exec(s, init), es[|es| - 1]);
    }
  }

  /** The counters are right in every state along the run. */
  ghost predicate ConservedAlong(s: State, es: seq<Event>) {
    forall k :: 0 <= k <= |es| ==> Conserved(Exec(s, es[..k]).db)
  }

  lemma AlongAppend(s: State, es: seq<Event>)
    requires es != []
    ensures ConservedAlong(s, es) <==> ConservedAlong(s, es[..|es| - 1]) && Conserved(Exec(s, es).db)
  {
    var init := es[..|es| - 1];
    assert es[..|es|] == es;
    forall k | 0 <= k <= |init| ensures Exec(s, init[..k]) == Exec(s, es[..k]) {
      assert init[..k] == es[..k];
    }
    if ConservedAlong(s, init) && Conserved(Exec(s, es).db) {
      forall k | 0 <= k <= |es| ensures Conserved(Exec(s, es[..k]).db) {
        if k < |es| { assert Conserved(Exec(s, init[..k]).db); }
      }
    }
    if ConservedAlong(s, es) {
      forall k | 0 <= k <= |init| ensures Conserved(Exec(s, init[..k]).db) {
        assert Conserved(Exec(s, es[..k]).db);
      }
    }
  }

  /**
   Seat conservation, exactly: the counters are right in every state along a run if and only if
   every settlement of the run commits on a read of the row that is still true.
   */
  lemma {:induction false} SeatConservation(s: State, es: seq<Event>)
    requires Quiet(s) && DbInv(s.db) && Conserved(s.db)
    ensures ConservedAlong(s, es) <==> FreshRun(s, es)
  {
    if es == [] {
      assert es[..0] == [];
    } else {
      var init := es[..|es| - 1];
      SeatConservation(s, init);
      AlongAppend(s, es);
      if FreshRun(s, init) {
        FreshRunConserves(s, init);
        RunInv(s, init);
        ConservedStep(Exec(s, init), es[|es| - 1]);
      }
    }
  }

  /** Without settlements, bookings and any number of sweeps at once always keep the counters exact. */
  lemma {:induction false} BookingsAndSweepsConserve(s: State, es: seq<Event>)
    requires Quiet(s) && DbInv(s.db) && Conserved(s.db)
    requires forall i :: 0 <= i < |es| ==> !es[i].SettleCommit?
    ensures FreshRun(s, es) && Conserved(Exec(s, es).db)
  {
    if es != [] {
      BookingsAndSweepsConserve(s, es[..|es| - 1]);
    }
    FreshRunConserves(s, es);
  }

  // ---- Rows and keys ----

  /** In every reachable state a student has one row per cohort and an idempotency key one order. */
  lemma OneRowOneOrder(s: State, es: seq<Event>)
    requires Quiet(s) && DbInv(s.db)
    ensures UniqueRows(Exec(s, es).db) && UniqueKeys(Exec(s, es).db)
  {
    QuietInv(s);
    RunInv(s, es);
  }

  // ---- Capacity ----

  /** Seats taken back by late captures of cohort `c` along the run. */
  ghost function LateCaptures(s: State, es: seq<Event>, c: Id): nat {
    if es == [] then 0
    else
      LateCaptures(s, es[..|es| - 1], c)
      + (if LateCapture(Exec(s, es[..|es| - 1]), es[|es| - 1], c) then 1 else 0)
  }

  /** Whether the step is a late capture taking back a seat of cohort `c`. */
  ghost predicate LateCapture(s: State, e: Event, c: Id) {
    && e.SettleCommit? && CommitsNow(s, e.tx) && Retakes(s.settles[e.tx])
    && s.settles[e.tx].row.value in s.db.enrollments
    && s.db.enrollments[s.settles[e.tx].row.value].cohort == c
  }

  /** Seats taken in cohort `c` beyond its capacity. */
  function Over(db: Db, c: Id): int
    requires c in db.cohorts
  {
    db.cohorts[c].enrolled - db.cohorts[c].capacity
  }

  lemma ReleaseLowers(db: Db, done: seq<Claim>, c: Id)
    requires c in db.cohorts
    ensures c in Release(db, done).cohorts && Over(Release(db, done), c) <= Over(db, c)
  {
  }

  lemma PayRaises(db: Db, t: Settle, c: Id)
    requires c in db.cohorts && SettleOk(db, t)
    ensures c in Pay(db, t).cohorts
    ensures Over(Pay(db, t), c) ==
            Over(db, c) + (if Retakes(t) && db.enrollments[t.row.value].cohort == c then 1 else 0)
  {
  }

  /** One step adds a seat beyond capacity only as a late capture. */
  lemma CapacityStep(s: State, e: Event, c: Id, extra: nat)
    requires Inv(s) && c in s.db.cohorts && Over(s.db, c) <= extra
    ensures var db := Step(s, e).db; c in db.cohorts && Over(db, c) <= extra + (if LateCapture(s, e, c) then 1 else 0)
  {
    if Step(s, e).db != s.db {
      match e
      case BookCommit(tx, o, newRow) => assert BookingOk(s.db, s.bookings[tx]);
      case SweepCommit(tx) => ReleaseLowers(s.db, s.sweeps[tx].done, c);
      case SettleCommit(tx) =>
        assert SettleOk(s.db, s.settles[tx]);
        PayRaises(s.db, s.settles[tx], c);
      case _ =>
    }
  }

  /**
   No booking oversells: whatever the interleaving, a cohort is over its capacity by at most the
   number of late captures that took a seat back.
   */
  lemma {:induction false} CapacityBound(s: State, es: seq<Event>, c: Id)
    requires Quiet(s) && DbInv(s.db)
    requires c in s.db.cohorts && Over(s.db, c) <= 0
    ensures c in Exec(s, es).db.cohorts && Over(Exec(s, es).db, c) <= LateCaptures(s, es, c)
  {
    if es != [] {
      CapacityBound(s, es[..|es| - 1], c);
      RunInv(s, es[..|es| - 1]);
      CapacityStep(Exec(s, es[..|es| - 1]), es[|es| - 1], c, LateCaptures(s, es[..|es| - 1], c));
    }
  }

  /** A late capture leaves its cohort within capacity if and only if the cohort still had a free seat. */
  lemma LateCaptureWithinCapacityIff(s: State, e: Event, c: Id)
    requires Inv(s) && c in s.db.cohorts && LateCapture(s, e, c)
    ensures c in Step(s, e).db.cohorts && (Over(Step(s, e).db, c) <= 0 <==> !s.db.cohorts[c].IsFull())
  {
    assert SettleOk(s.db, s.settles[e.tx]);
    PayRaises(s.db, s.settles[e.tx], c);
  }

  ghost predicate WithinCapacity(s: State, c: Id) { c in s.db.cohorts && Over(s.db, c) <= 0 }

  /** A late capture of `c` commits while `c` is full. */
  ghost predicate CapturesFull(s: State, e: Event, c: Id) {
    c in s.db.cohorts && LateCapture(s, e, c) && s.db.cohorts[c].IsFull()
  }

  lemma WithinCapacityStep(s: State, e: Event, c: Id)
    requires Inv(s) && WithinCapacity(s, c)
    ensures WithinCapacity(Step(s, e), c) <==> !CapturesFull(s, e, c)
  {
    if LateCapture(s, e, c) { LateCaptureWithinCapacityIff(s, e, c); } else { CapacityStep(s, e, c, 0); }
  }

  ghost predicate KeptWithin(s: State, es: seq<Event>, c: Id) {
    forall k :: 0 <= k <= |es| ==> WithinCapacity(Exec(s, es[..k]), c)
  }

  ghost predicate NeverCapturesFull(s: State, es: seq<Event>, c: Id) {
    forall k :: 0 <= k < |es| ==> !CapturesFull(Exec(s, es[..k]), es[k], c)
  }

  lemma WithinCapacityAt(s: State, es: seq<Event>, c: Id, k: nat)
    requires Quiet(s) && DbInv(s.db) && k < |es| && WithinCapacity(Exec(s, es[..k]), c)
    ensures WithinCapacity(Exec(s, es[..k + 1]), c) <==> !CapturesFull(Exec(s, es[..k]), es[k], c)
  {
    RunInv(s, es[..k]);
    assert es[..k + 1][..k] == es[..k];
    WithinCapacityStep(Exec(s, es[..k]), es[k], c);
  }

  lemma {:induction false} StaysWithin(s: State, es: seq<Event>, c: Id, k: nat)
    requires Quiet(s) && DbInv(s.db) && WithinCapacity(s, c) && k <= |es| && NeverCapturesFull(s, es, c)
    ensures WithinCapacity(Exec(s, es[..k]), c)
  {
    if k > 0 {
      StaysWithin(s, es, c, k - 1);
      assert !CapturesFull(Exec(s, es[..k - 1]), es[k - 1], c);
      WithinCapacityAt(s, es, c, k - 1);
    }
  }

  /**
   No oversubscription, exactly: a cohort stays within its capacity in every state along a run if and
   only if no late capture of the run takes a seat of it while it is full.
   */
  lemma CapacityKeptIff(s: State, es: seq<Event>, c: Id)
    requires Quiet(s) && DbInv(s.db) && WithinCapacity(s, c)
    ensures KeptWithin(s, es, c) <==> NeverCapturesFull(s, es, c)
  {
    if NeverCapturesFull(s, es, c) {
      forall k | 0 <= k <= |es| ensures WithinCapacity(Exec(s, es[..k]), c) { StaysWithin(s, es, c, k); }
    }
    if KeptWithin(s, es, c) {
      forall k | 0 <= k < |es| ensures !CapturesFull(Exec(s, es[..k]), es[k], c) {
        assert WithinCapacity(Exec(s, es[..k]), c) && WithinCapacity(Exec(s, es[..k + 1]), c);
        WithinCapacityAt(s, es, c, k);
      }
    }
  }

  // ---- Payment wins the race ----

  lemma PaidNotClaimed(db: Db, sw: Sweep, o: Id)
    requires SweepOk(db, sw) && o in db.orders && db.orders[o].status == OrderPaid
    ensures !ClaimsOrder(sw.done, o)
  {
    forall i | 0 <= i < |sw.done| ensures sw.done[i].order != Some(o) { assert ClaimOk(db, sw, sw.done[i]); }
  }

  /** No step moves an order out of PAID. */
  lemma PaidStep(s: State, e: Event, o: Id)
    requires Inv(s) && o in s.db.orders && s.db.orders[o].status == OrderPaid
    ensures o in Step(s, e).db.orders && Step(s, e).db.orders[o].status == OrderPaid
  {
    if e.SweepCommit? && e.tx in s.sweeps { PaidNotClaimed(s.db, s.sweeps[e.tx], o); }
  }

  lemma {:induction false} ExecAppend(s: State, es: seq<Event>, fs: seq<Event>)
    ensures Exec(s, es + fs) == Exec(Exec(s, es), fs)
  {
    if fs == [] {
      assert es + fs == es;
    } else {
      assert (es + fs)[..|es + fs| - 1] == es + fs[..|fs| - 1];
      ExecAppend(s, es, fs[..|fs| - 1]);
    }
  }

  /** Once PAID, an order is PAID in every later state of every run. */
  lemma {:induction false} PaidForever(s: State, es: seq<Event>, fs: seq<Event>, o: Id)
    requires Quiet(s) && DbInv(s.db)
    requires o in Exec(s, es).db.orders && Exec(s, es).db.orders[o].status == OrderPaid
    ensures o in Exec(s, es + fs).db.orders && Exec(s, es + fs).db.orders[o].status == OrderPaid
  {
    if fs == [] {
      assert es + fs == es;
    } else {
      var gs := es + fs[..|fs| - 1];
      assert (es + fs)[..|es + fs| - 1] == gs;
      PaidForever(s, es, fs[..|fs| - 1], o);
      RunInv(s, gs);
      PaidStep(Exec(s, gs), (es + fs)[|es + fs| - 1], o);
    }
  }

  /** A row whose order is PAID is CONFIRMED in every reachable state: the sweep never takes a paid seat. */
  lemma PaidRowsConfirmed(s: State, es: seq<Event>, e: Id)
    requires Quiet(s) && DbInv(s.db)
    requires OrderIs(Exec(s, es).db, e, OrderPaid)
    ensures Exec(s, es).db.enrollments[e].status == EnrollConfirmed
  {
    RunInv(s, es);
  }

  lemma OnlySweepCancels(s: State, ev: Event, e: Id)
    requires e in s.db.enrollments && s.db.enrollments[e].status != EnrollCancelled && !ev.SweepCommit?
    ensures e in Step(s, ev).db.enrollments && Step(s, ev).db.enrollments[e].status != EnrollCancelled
  {
  }

  lemma ReleasedTogether(db: Db, sw: Sweep, e: Id)
    requires SweepOk(db, sw) && ClaimsRow(sw.done, e)
    ensures e in db.enrollments && Release(db, sw.done).enrollments[e].order == db.enrollments[e].order
    ensures db.enrollments[e].order.Some? ==>
              OrderIs(db, e, OrderPending) && OrderIs(Release(db, sw.done), e, OrderCancelled)
  {
    var i :| 0 <= i < |sw.done| && sw.done[i].row == e;
    assert ClaimOk(db, sw, sw.done[i]);
    if sw.done[i].order.Some? { assert ClaimsOrder(sw.done, sw.done[i].order.value); }
  }

  /**
   A row becomes CANCELLED only in a sweep's commit and, if it has an order, together with that
   order, PENDING before the step and CANCELLED after.
   */
  lemma CancelledTogether(s: State, es: seq<Event>, ev: Event, e: Id)
    requires Quiet(s) && DbInv(s.db)
    requires var db := Exec(s, es).db; e in db.enrollments && db.enrollments[e].status != EnrollCancelled
    requires var db' := Step(Exec(s, es), ev).db;
             e in db'.enrollments && db'.enrollments[e].status == EnrollCancelled
    ensures ev.SweepCommit?
    ensures Step(Exec(s, es), ev).db.enrollments[e].order == Exec(s, es).db.enrollments[e].order
    ensures Exec(s, es).db.enrollments[e].order.Some? ==>
              OrderIs(Exec(s, es).db, e, OrderPending) && OrderIs(Step(Exec(s, es), ev).db, e, OrderCancelled)
  {
    RunInv(s, es);
    var now := Exec(s, es);
    if !ev.SweepCommit? { OnlySweepCancels(now, ev, e); }
    else { ReleasedTogether(now.db, now.sweeps[ev.tx], e); }
  }
}
