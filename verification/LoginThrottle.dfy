/**
 Per-account login throttling: failures are counted in fixed windows and the fifth locks the
 account. Instants count from Go's zero time on one clock that does not go back.
 */
module LoginThrottle {
  import opened Common

  const SECOND := 1_000_000_000
  const FAIL_WINDOW := 900 * SECOND
  const LOCK_DURATION := 900 * SECOND
  const THRESHOLD := 5

  /** The clock is more than a window past the zero time, as every wall clock is. */
  type Instant = t: int | t > FAIL_WINDOW witness FAIL_WINDOW + 1

  datatype Fails = Fails(count: int, lockedUntil: int, windowStart: int)

  const NO_FAILS := Fails(0, 0, 0)

  predicate Locked(st: Fails, now: Instant) { st.lockedUntil > now }

  /** What recordLoginFailure stores for one more failure. */
  function Record(st: Fails, now: Instant): Fails {
    var cur := if now - st.windowStart > FAIL_WINDOW then Fails(0, 0, now) else st;
    if cur.count + 1 >= THRESHOLD then Fails(0, now + LOCK_DURATION, cur.windowStart)
    else cur.(count := cur.count + 1)
  }

  // ---- Logins of one account, none of them successful ----

  /**
   `counted` are the stamps of the counted failures, in the order they were counted. `checked` is how
   many logins have passed the lock check and not read the clock yet, `pending` the stamps of those
   that have and wait to be counted: check, clock and count are three separate steps of a login.
   */
  datatype History = History(st: Fails, counted: seq<Instant>, checked: nat, pending: seq<Instant>)
  {
    function InFlight(): nat { checked + |pending| }
  }

  datatype Event =
    | Check(now: Instant)
    | Leave(now: Instant)
    | Stamp(now: Instant)
    | Count(now: Instant, i: nat)

  const START := History(NO_FAILS, [], 0, [])

  function Without(ts: seq<Instant>, i: nat): seq<Instant>
    requires i < |ts|
  {
    ts[..i] + ts[i + 1..]
  }

  /** A login is refused while locked; one that was let in leaves uncounted, or reads the clock and is counted. */
  function Do(h: History, e: Event): History {
    match e
    case Check(now) => if Locked(h.st, now) then h else h.(checked := h.checked + 1)
    case Leave(_) => if h.checked == 0 then h else h.(checked := h.checked - 1)
    case Stamp(now) =>
      if h.checked == 0 then h else h.(checked := h.checked - 1, pending := h.pending + [now])
    case Count(_, i) =>
      if i >= |h.pending| then h
      else History(Record(h.st, h.pending[i]), h.counted + [h.pending[i]], h.checked, Without(h.pending, i))
  }

  function Exec(es: seq<Event>): History {
    if es == [] then START else Do(Exec(es[..|es| - 1]), es[|es| - 1])
  }

  predicate Chronological(es: seq<Event>) {
    forall i, j :: 0 <= i < j < |es| ==> es[i].now <= es[j].now
  }

  /** How many of the stamps are before `a`. */
  function Before(ts: seq<Instant>, a: int): nat {
    if ts == [] then 0 else Before(ts[..|ts| - 1], a) + (if ts[|ts| - 1] < a then 1 else 0)
  }

  /** How many logins with an earlier stamp the event overtakes. */
  function Overtaken(h: History, e: Event): nat {
    if e.Count? && e.i < |h.pending| then Before(h.pending, h.pending[e.i]) else 0
  }

  /** At most `m` logins are ever in flight together. */
  predicate AtMost(es: seq<Event>, m: nat) {
    es == [] || (AtMost(es[..|es| - 1], m) && Exec(es).InFlight() <= m)
  }

  /** No login is counted before more than `d` logins with earlier stamps. */
  predicate Overtakes(es: seq<Event>, d: nat) {
    es == [] || (Overtakes(es[..|es| - 1], d) && Overtaken(Exec(es[..|es| - 1]), es[|es| - 1]) <= d)
  }

  /** The stamps in the half-open interval of one window from `a`. */
  function InWindow(ts: seq<Instant>, a: int): nat {
    if ts == [] then 0
    else InWindow(ts[..|ts| - 1], a) + (if a <= ts[|ts| - 1] < a + FAIL_WINDOW then 1 else 0)
  }

  lemma InWindowAppend(ts: seq<Instant>, t: Instant, a: int)
    ensures InWindow(ts + [t], a) == InWindow(ts, a) + (if a <= t < a + FAIL_WINDOW then 1 else 0)
  {
    assert (ts + [t])[..|ts|] == ts;
  }

  lemma BeforeAppend(ts: seq<Instant>, t: Instant, a: int)
    ensures Before(ts + [t], a) == Before(ts, a) + (if t < a then 1 else 0)
  {
    assert (ts + [t])[..|ts|] == ts;
  }

  lemma {:induction false} BeforeConcat(ts: seq<Instant>, us: seq<Instant>, a: int)
    ensures Before(ts + us, a) == Before(ts, a) + Before(us, a)
  {
    if us == [] {
      assert ts + us == ts;
    } else {
      var init, last := us[..|us| - 1], us[|us| - 1];
      BeforeConcat(ts, init, a);
      assert ts + us == (ts + init) + [last];
      BeforeAppend(ts + init, last, a);
    }
  }

  lemma BeforeWithout(ts: seq<Instant>, i: nat, a: int)
    requires i < |ts|
    ensures Before(ts, a) == Before(Without(ts, i), a) + (if ts[i] < a then 1 else 0)
  {
    assert ts == (ts[..i] + [ts[i]]) + ts[i + 1..];
    BeforeConcat(ts[..i] + [ts[i]], ts[i + 1..], a);
    BeforeAppend(ts[..i], ts[i], a);
    BeforeConcat(ts[..i], ts[i + 1..], a);
  }

  lemma {:induction false} BeforeAtMost(ts: seq<Instant>, a: int)
    ensures Before(ts, a) <= |ts|
    ensures (forall i :: 0 <= i < |ts| ==> ts[i] < a) ==> Before(ts, a) == |ts|
  {
    if ts != [] { BeforeAtMost(ts[..|ts| - 1], a); }
  }

  lemma {:induction false} BeforeMonotone(ts: seq<Instant>, a: int, b: int)
    requires a <= b
    ensures Before(ts, a) <= Before(ts, b)
  {
    if ts != [] { BeforeMonotone(ts[..|ts| - 1], a, b); }
  }

  lemma {:induction false} InWindowConcat(ts: seq<Instant>, us: seq<Instant>, a: int)
    ensures InWindow(ts + us, a) == InWindow(ts, a) + InWindow(us, a)
  {
    if us == [] {
      assert ts + us == ts;
    } else {
      var init, last := us[..|us| - 1], us[|us| - 1];
      InWindowConcat(ts, init, a);
      assert ts + us == (ts + init) + [last];
      InWindowAppend(ts + init, last, a);
    }
  }

  lemma InWindowWithout(ts: seq<Instant>, i: nat, a: int)
    requires i < |ts|
    ensures InWindow(ts, a) == InWindow(Without(ts, i), a) + (if a <= ts[i] < a + FAIL_WINDOW then 1 else 0)
  {
    assert ts == (ts[..i] + [ts[i]]) + ts[i + 1..];
    InWindowConcat(ts[..i] + [ts[i]], ts[i + 1..], a);
    InWindowAppend(ts[..i], ts[i], a);
    InWindowConcat(ts[..i], ts[i + 1..], a);
  }

  lemma {:induction false} InWindowOrBefore(ts: seq<Instant>, a: int)
    ensures InWindow(ts, a) + Before(ts, a) <= |ts|
  {
    if ts != [] { InWindowOrBefore(ts[..|ts| - 1], a); }
  }

  // ---- The bound ----

  /** What `d` late logins can add, each moving the lock back or clearing it when it is counted. */
  function Late(m: nat, d: nat): int { if d == 0 then 0 else Late(m, d - 1) + m + 5 - d }

  /** With at most `m` logins in flight, none of which overtakes more than `d`. */
  function Bound(m: nat, d: nat): int { 2 * m + 7 - d + Late(m, d) }

  lemma {:induction false} BoundIs(m: nat, d: nat)
    ensures 2 * Bound(m, d) == 4 * m + 14 + 2 * d * (m + 4) - d * (d + 1)
  {
    if d > 0 { BoundIs(m, d - 1); }
  }

  lemma {:induction false} BoundGrows(m: nat, c: nat, d: nat)
    requires c <= d <= m
    ensures 0 <= Late(m, c) <= Late(m, d) && Bound(m, c) <= Bound(m, d)
    decreases d
  {
    if c < d { BoundGrows(m, c, d - 1); }
    else if c > 0 { BoundGrows(m, c - 1, c - 1); }
  }

  /** How many logins in flight may still be counted in the window from `a`. */
  function Candidates(h: History, a: int): int { h.InFlight() - Before(h.pending, a) }

  /** What the window from `a` may come to hold, while it lasts: unlocked, or locked beyond its end. */
  function Outlook(h: History, a: int, m: nat): int {
    var late := Before(h.pending, a);
    InWindow(h.counted, a) + Late(m, late)
    + (if h.st.windowStart < a then m + 3 else 0)
    + (if h.st.lockedUntil < a + FAIL_WINDOW then (5 - h.st.count) + (m - 1 - late) else Candidates(h, a))
  }

  /** Nothing has been counted in the window from `a`, nor set by a stamp in it. */
  predicate Untouched(h: History, a: int) {
    InWindow(h.counted, a) == 0 && h.st.windowStart < a && h.st.lockedUntil < a + FAIL_WINDOW
  }

  predicate Budget(h: History, a: int, m: nat, d: nat) {
    Untouched(h, a) || (Before(h.pending, a) < m && Outlook(h, a, m) <= Bound(m, d))
  }

  /** The clock of the last event is `now`. */
  predicate Inv(h: History, now: int, a: int, m: nat, d: nat) {
    && 0 <= h.st.count < THRESHOLD && h.InFlight() <= m
    && (forall i :: 0 <= i < |h.pending| ==> h.pending[i] <= now)
    && (now < a ==> Untouched(h, a))
    && (if now < a + FAIL_WINDOW then Budget(h, a, m, d)
        else InWindow(h.counted, a) + InWindow(h.pending, a) <= Bound(m, d))
  }

  /** Whatever is in flight when the window ends, the bound is kept. */
  lemma BudgetSuffices(h: History, a: int, m: nat, d: nat)
    requires Budget(h, a, m, d) && h.InFlight() <= m && d < m && 0 <= h.st.count < THRESHOLD
    ensures InWindow(h.counted, a) + InWindow(h.pending, a) <= Bound(m, d)
  {
    InWindowOrBefore(h.pending, a);
    BoundGrows(m, 0, d);
    if !Untouched(h, a) { BoundGrows(m, 0, Before(h.pending, a)); }
  }

  /** After the window only logins that were stamped in it still count. */
  lemma LateStep(h: History, e: Event, a: int)
    requires e.now >= a + FAIL_WINDOW
    ensures InWindow(Do(h, e).counted, a) + InWindow(Do(h, e).pending, a) == InWindow(h.counted, a) + InWindow(h.pending, a)
  {
    match e
    case Stamp(now) => InWindowAppend(h.pending, now, a);
    case Count(_, i) =>
      if i < |h.pending| {
        InWindowWithout(h.pending, i, a);
        InWindowAppend(h.counted, h.pending[i], a);
      }
    case _ =>
  }

  /** The first count in the window: the late logins are those it overtakes. */
  lemma FirstCount(h: History, i: nat, a: int, m: nat, d: nat)
    requires Untouched(h, a) && h.InFlight() <= m && d < m && i < |h.pending| && 0 <= h.st.count < THRESHOLD
    requires a <= h.pending[i] < a + FAIL_WINDOW && Before(h.pending, h.pending[i]) <= d
    ensures Budget(Do(h, Count(FAIL_WINDOW + 1, i)), a, m, d)
  {
    var x := h.pending[i];
    var late := Before(h.pending, a);
    BeforeMonotone(h.pending, a, x);
    BeforeWithout(h.pending, i, a);
    InWindowAppend(h.counted, x, a);
    BoundGrows(m, late, d);
  }

  /** A count that is late for the window. */
  lemma LateCount(h: History, i: nat, a: int, m: nat, d: nat)
    requires !Untouched(h, a) && Budget(h, a, m, d) && h.InFlight() <= m && i < |h.pending| && 0 <= h.st.count < THRESHOLD
    requires h.pending[i] < a
    ensures Budget(Do(h, Count(FAIL_WINDOW + 1, i)), a, m, d)
  {
    BeforeWithout(h.pending, i, a);
    BeforeAtMost(Without(h.pending, i), a);
    InWindowAppend(h.counted, h.pending[i], a);
  }

  /** A further count in the window. */
  lemma NextCount(h: History, i: nat, a: int, m: nat, d: nat)
    requires !Untouched(h, a) && Budget(h, a, m, d) && h.InFlight() <= m && i < |h.pending| && 0 <= h.st.count < THRESHOLD
    requires a <= h.pending[i] < a + FAIL_WINDOW
    ensures Budget(Do(h, Count(FAIL_WINDOW + 1, i)), a, m, d)
  {
    BeforeWithout(h.pending, i, a);
    BeforeAtMost(Without(h.pending, i), a);
    InWindowAppend(h.counted, h.pending[i], a);
  }

  lemma CountStep(h: History, i: nat, now: int, a: int, m: nat, d: nat)
    requires Inv(h, now, a, m, d) && now < a + FAIL_WINDOW && d < m && i < |h.pending|
    requires Before(h.pending, h.pending[i]) <= d
    ensures Budget(Do(h, Count(FAIL_WINDOW + 1, i)), a, m, d)
    ensures now < a ==> Untouched(Do(h, Count(FAIL_WINDOW + 1, i)), a)
  {
    if Untouched(h, a) && h.pending[i] < a { InWindowAppend(h.counted, h.pending[i], a); }
    else if Untouched(h, a) { FirstCount(h, i, a, m, d); }
    else if h.pending[i] < a { LateCount(h, i, a, m, d); }
    else { NextCount(h, i, a, m, d); }
  }

  /** A check that passes, a login that leaves, a clock that is read. */
  lemma QuietStep(h: History, e: Event, now: int, a: int, m: nat, d: nat)
    requires Inv(h, now, a, m, d) && now <= e.now < a + FAIL_WINDOW && !e.Count? && Do(h, e).InFlight() <= m
    ensures Budget(Do(h, e), a, m, d) && (e.now < a ==> Untouched(Do(h, e), a))
  {
    if e.Stamp? { BeforeAppend(h.pending, e.now, a); }
  }

  lemma CountEvent(h: History, e: Event, now: int, a: int, m: nat, d: nat)
    requires Inv(h, now, a, m, d) && d < m && now <= e.now < a + FAIL_WINDOW && e.Count? && Overtaken(h, e) <= d
    ensures Budget(Do(h, e), a, m, d) && (e.now < a ==> Untouched(Do(h, e), a))
  {
    if e.i < |h.pending| {
      CountStep(h, e.i, now, a, m, d);
      assert Do(h, e) == Do(h, Count(FAIL_WINDOW + 1, e.i));
    }
  }

  lemma EndStep(h: History, e: Event, now: int, a: int, m: nat, d: nat)
    requires Inv(h, now, a, m, d) && d < m && a + FAIL_WINDOW <= e.now
    ensures InWindow(Do(h, e).counted, a) + InWindow(Do(h, e).pending, a) <= Bound(m, d)
  {
    if now < a + FAIL_WINDOW { BudgetSuffices(h, a, m, d); }
    LateStep(h, e, a);
  }

  lemma PendingStep(h: History, e: Event, now: int)
    requires now <= e.now && 0 <= h.st.count < THRESHOLD && forall i :: 0 <= i < |h.pending| ==> h.pending[i] <= now
    ensures 0 <= Do(h, e).st.count < THRESHOLD
    ensures forall i :: 0 <= i < |Do(h, e).pending| ==> Do(h, e).pending[i] <= e.now
  {
  }

  lemma StepInv(h: History, e: Event, now: int, a: int, m: nat, d: nat)
    requires Inv(h, now, a, m, d) && d < m && now <= e.now
    requires Do(h, e).InFlight() <= m && Overtaken(h, e) <= d
    ensures Inv(Do(h, e), e.now, a, m, d)
  {
    PendingStep(h, e, now);
    if e.now >= a + FAIL_WINDOW { EndStep(h, e, now, a, m, d); }
    else if e.Count? { CountEvent(h, e, now, a, m, d); }
    else { QuietStep(h, e, now, a, m, d); }
  }

  lemma {:induction false} RunInv(es: seq<Event>, a: int, m: nat, d: nat)
    requires Chronological(es) && d < m && AtMost(es, m) && Overtakes(es, d)
    ensures Inv(Exec(es), if es == [] then FAIL_WINDOW + 1 else es[|es| - 1].now, a, m, d)
  {
    BoundGrows(m, 0, d);
    if es != [] {
      var init, e := es[..|es| - 1], es[|es| - 1];
      RunInv(init, a, m, d);
      StepInv(Exec(init), e, if init == [] then FAIL_WINDOW + 1 else init[|init| - 1].now, a, m, d);
    }
  }

  /**
   However the logins of an account interleave between lock check, clock and count: with at most `m` in
   flight, none of which is counted before more than `d` earlier stamps, any fifteen minutes hold at
   most 2m + 7 + d(m + 4) - d(d + 1)/2 counted failures.
   */
  lemma LateThrottleBound(es: seq<Event>, m: nat, d: nat, a: int)
    requires Chronological(es) && d < m && AtMost(es, m) && Overtakes(es, d)
    ensures 2 * InWindow(Exec(es).counted, a) <= 4 * m + 14 + 2 * d * (m + 4) - d * (d + 1)
  {
    RunInv(es, a, m, d);
    BoundIs(m, d);
    var h := Exec(es);
    if Budget(h, a, m, d) { BudgetSuffices(h, a, m, d); }
  }

  lemma {:induction false} OvertakesAtMost(es: seq<Event>, m: nat)
    requires 0 < m && AtMost(es, m)
    ensures Overtakes(es, m - 1)
  {
    if es != [] {
      var init, e := es[..|es| - 1], es[|es| - 1];
      OvertakesAtMost(init, m);
      var h := Exec(init);
      if e.Count? && e.i < |h.pending| {
        BeforeWithout(h.pending, e.i, h.pending[e.i]);
        BeforeAtMost(Without(h.pending, e.i), h.pending[e.i]);
        InFlightKept(init, m);
      }
    }
  }

  lemma InFlightKept(es: seq<Event>, m: nat)
    requires AtMost(es, m)
    ensures Exec(es).InFlight() <= m
  {
  }

  /** Without any condition on the order: (m * m + 11m + 6) / 2. */
  lemma ThrottleBound(es: seq<Event>, m: nat, a: int)
    requires Chronological(es) && 0 < m && AtMost(es, m)
    ensures 2 * InWindow(Exec(es).counted, a) <= m * m + 11 * m + 6
  {
    OvertakesAtMost(es, m);
    LateThrottleBound(es, m, m - 1, a);
    AnyOrder(m);
  }

  lemma AnyOrder(m: nat)
    requires 0 < m
    ensures 4 * m + 14 + 2 * (m - 1) * (m + 4) - (m - 1) * m == m * m + 11 * m + 6
  {
    assert (m - 1) * (m + 4) == m * m + 3 * m - 4;
  }

  /** Logins counted in the order of their stamps: 2m + 7. */
  lemma InOrderThrottleBound(es: seq<Event>, m: nat, a: int)
    requires Chronological(es) && 0 < m && AtMost(es, m) && Overtakes(es, 0)
    ensures InWindow(Exec(es).counted, a) <= 2 * m + 7
  {
    LateThrottleBound(es, m, 0, a);
  }

  /** Logins one at a time: at most nine, although the counter uses fixed windows. */
  lemma SerialThrottleBound(es: seq<Event>, a: int)
    requires Chronological(es) && AtMost(es, 1)
    ensures InWindow(Exec(es).counted, a) <= 9
  {
    ThrottleBound(es, 1, a);
  }

  /** A failure counted during a lock, with the latest stamp, clears it if and only if the counting window is over. */
  lemma LateFailureUnlocksIff(st: Fails, now: Instant)
    requires Locked(st, now) && 0 <= st.count < THRESHOLD
    ensures !Locked(Record(st, now), now) <==> now - st.windowStart > FAIL_WINDOW
  {
  }

  /** An earlier stamp clears a lock also as the fifth of its count, if it is a whole lock old. */
  lemma LateStampUnlocksIff(st: Fails, stamp: Instant, now: Instant)
    requires Locked(st, now) && 0 <= st.count < THRESHOLD && stamp <= now
    ensures !Locked(Record(st, stamp), now) <==>
            stamp - st.windowStart > FAIL_WINDOW || (st.count == THRESHOLD - 1 && stamp + LOCK_DURATION <= now)
  {
  }

  // ---- The bounds are reached ----

  /** The run `es`, with at most `m` in flight and `d` overtaken, ends at `now` in `h`. */
  ghost predicate Stage(es: seq<Event>, h: History, m: nat, d: nat, now: int) {
    && Exec(es) == h && AtMost(es, m) && Overtakes(es, d) && Chronological(es)
    && forall i :: 0 <= i < |es| ==> es[i].now <= now
  }

  lemma Then(es: seq<Event>, h: History, m: nat, d: nat, now: int, e: Event) returns (more: seq<Event>)
    requires Stage(es, h, m, d, now) && now <= e.now && Do(h, e).InFlight() <= m && Overtaken(h, e) <= d
    ensures Stage(more, Do(h, e), m, d, e.now)
  {
    more := es + [e];
    assert more[..|es|] == es;
  }

  /** A login that passed the check fails at `t` and is counted at once. */
  lemma Failure(es: seq<Event>, h: History, m: nat, d: nat, now: int, t: Instant, a: int)
    returns (more: seq<Event>, g: History)
    requires Stage(es, h, m, d, now) && now <= t && 0 < h.checked && h.InFlight() <= m && Before(h.pending, t) <= d
    ensures Stage(more, g, m, d, t)
    ensures g.st == Record(h.st, t) && g.checked == h.checked - 1 && g.pending == h.pending
    ensures InWindow(g.counted, a) == InWindow(h.counted, a) + (if a <= t < a + FAIL_WINDOW then 1 else 0)
  {
    var h1 := Do(h, Stamp(t));
    BeforeAppend(h.pending, t, t);
    assert Without(h1.pending, |h.pending|) == h.pending;
    more := Then(es, h, m, d, now, Stamp(t));
    more := Then(more, h1, m, d, t, Count(t, |h.pending|));
    g := Do(h1, Count(t, |h.pending|));
    InWindowAppend(h.counted, t, a);
  }

  /** One login at `t`, checked and counted at once. */
  lemma Try(es: seq<Event>, h: History, m: nat, d: nat, now: int, t: Instant, a: int)
    returns (more: seq<Event>, g: History)
    requires Stage(es, h, m, d, now) && now <= t && !Locked(h.st, t) && h.InFlight() < m && Before(h.pending, t) <= d
    ensures Stage(more, g, m, d, t)
    ensures g.st == Record(h.st, t) && g.checked == h.checked && g.pending == h.pending
    ensures InWindow(g.counted, a) == InWindow(h.counted, a) + (if a <= t < a + FAIL_WINDOW then 1 else 0)
  {
    more := Then(es, h, m, d, now, Check(t));
    more, g := Failure(more, Do(h, Check(t)), m, d, t, t, a);
  }

  /** Failures inside the counting window, up to and including the one that locks. */
  lemma {:induction false} Tries(es: seq<Event>, h: History, m: nat, d: nat, now: int, t: Instant, n: nat, a: int)
    returns (more: seq<Event>, g: History)
    requires Stage(es, h, m, d, now) && now <= t && !Locked(h.st, t) && h.InFlight() < m && Before(h.pending, t) <= d
    requires t - h.st.windowStart <= FAIL_WINDOW && 0 <= h.st.count && h.st.count + n <= THRESHOLD && 0 < n
    ensures Stage(more, g, m, d, t) && g.checked == h.checked && g.pending == h.pending
    ensures g.st == if h.st.count + n < THRESHOLD then h.st.(count := h.st.count + n)
                    else Fails(0, t + LOCK_DURATION, h.st.windowStart)
    ensures InWindow(g.counted, a) == InWindow(h.counted, a) + (if a <= t < a + FAIL_WINDOW then n else 0)
  {
    if n == 1 {
      more, g := Try(es, h, m, d, now, t, a);
    } else {
      more, g := Tries(es, h, m, d, now, t, n - 1, a);
      more, g := Try(more, g, m, d, t, t, a);
    }
  }

  lemma {:induction false} Checks(es: seq<Event>, h: History, m: nat, d: nat, now: int, t: Instant, n: nat)
    returns (more: seq<Event>)
    requires Stage(es, h, m, d, now) && now <= t && !Locked(h.st, t) && h.InFlight() + n <= m
    ensures Stage(more, h.(checked := h.checked + n), m, d, t)
  {
    if n == 0 {
      more := es;
    } else {
      more := Checks(es, h, m, d, now, t, n - 1);
      more := Then(more, h.(checked := h.checked + n - 1), m, d, t, Check(t));
    }
  }

  function Next(count: int): int { if count + 1 >= THRESHOLD then 0 else count + 1 }

  /** The count after `n` more failures inside the counting window. */
  function Cycled(count: int, n: nat): int { if n == 0 then count else Next(Cycled(count, n - 1)) }

  lemma {:induction false} CycledFromZero(n: nat)
    ensures Cycled(0, n) == n % 5
  {
    if n > 0 { CycledFromZero(n - 1); }
  }

  lemma RecordInside(st: Fails, t: Instant)
    requires t - st.windowStart <= FAIL_WINDOW
    ensures Record(st, t).windowStart == st.windowStart && Record(st, t).count == Next(st.count)
  {
  }

  /** Logins in flight that fail inside the counting window, lock or no lock. */
  lemma {:induction false} Failures(es: seq<Event>, h: History, m: nat, d: nat, now: int, t: Instant, n: nat, a: int)
    returns (more: seq<Event>, g: History)
    requires Stage(es, h, m, d, now) && now <= t && n <= h.checked && h.InFlight() <= m && Before(h.pending, t) <= d
    requires t - h.st.windowStart <= FAIL_WINDOW
    ensures Stage(more, g, m, d, t) && g.checked == h.checked - n && g.pending == h.pending
    ensures g.st.windowStart == h.st.windowStart && g.st.count == Cycled(h.st.count, n)
    ensures InWindow(g.counted, a) == InWindow(h.counted, a) + (if a <= t < a + FAIL_WINDOW then n else 0)
  {
    if n == 0 {
      more, g := es, h;
    } else {
      more, g := Failures(es, h, m, d, now, t, n - 1, a);
      RecordInside(g.st, t);
      more, g := Failure(more, g, m, d, t, t, a);
    }
  }

  /** As the lock set at `t` ends: nobody in flight except the late ones, the count at zero, `n` so far. */
  predicate AtReopening(h: History, t: Instant, n: nat) {
    && h.checked == 0 && h.pending == [] && h.st == Fails(0, t + LOCK_DURATION, t)
    && InWindow(h.counted, t + FAIL_WINDOW) == n
  }

  /**
   From there to the failure just after the counting window that opens the next one: a login of its own,
   or, with others waiting, the last of those, which also clears the lock the fifth failure has set.
   */
  lemma Turn(es: seq<Event>, h: History, m: nat, d: nat, t: Instant, n: nat) returns (more: seq<Event>, g: History)
    requires 0 < m && Stage(es, h, m, d, t + FAIL_WINDOW) && AtReopening(h, t, n)
    ensures Stage(more, g, m, d, t + FAIL_WINDOW + 1) && g.checked == 0 && g.pending == []
    ensures g.st == Fails(1, 0, t + FAIL_WINDOW + 1) && InWindow(g.counted, t + FAIL_WINDOW) == n + m + 4
  {
    var u: Instant := t + FAIL_WINDOW;
    var v: Instant := u + 1;
    more := Checks(es, h, m, d, u, u, m - 1);
    more, g := Tries(more, h.(checked := m - 1), m, d, u, u, 4, u);
    if m == 1 {
      more, g := Try(more, g, m, d, u, v, u);
    } else {
      more, g := LastWaiting(more, g, m, d, t, n + 4);
    }
  }

  /** `j` failures up to the one that locks, then `k` of the logins in flight behind the lock. */
  lemma LockThen(es: seq<Event>, h: History, m: nat, d: nat, u: Instant, j: nat, k: nat, a: int)
    returns (more: seq<Event>, g: History)
    requires Stage(es, h, m, d, u) && !Locked(h.st, u) && h.InFlight() < m && Before(h.pending, u) <= d && k <= h.checked
    requires u - h.st.windowStart <= FAIL_WINDOW && 0 <= h.st.count && 0 < j && h.st.count + j == THRESHOLD
    requires a <= u < a + FAIL_WINDOW
    ensures Stage(more, g, m, d, u) && g.checked == h.checked - k && g.pending == h.pending
    ensures g.st.windowStart == h.st.windowStart && g.st.count == Cycled(0, k)
    ensures InWindow(g.counted, a) == InWindow(h.counted, a) + j + k
  {
    more, g := Tries(es, h, m, d, u, u, j, a);
    more, g := Failures(more, g, m, d, u, u, k, a);
  }

  /** The fifth failure locks, all the waiting logins but one are counted behind the lock, the last clears it. */
  lemma LastWaiting(es: seq<Event>, h: History, m: nat, d: nat, t: Instant, n: nat) returns (more: seq<Event>, g: History)
    requires 1 < m && Stage(es, h, m, d, t + FAIL_WINDOW) && h.checked == m - 1 && h.pending == []
    requires h.st == Fails(4, t + LOCK_DURATION, t) && InWindow(h.counted, t + FAIL_WINDOW) == n
    ensures Stage(more, g, m, d, t + FAIL_WINDOW + 1) && g.checked == 0 && g.pending == []
    ensures g.st == Fails(1, 0, t + FAIL_WINDOW + 1) && InWindow(g.counted, t + FAIL_WINDOW) == n + m
  {
    var u: Instant := t + FAIL_WINDOW;
    more, g := LockThen(es, h, m, d, u, 1, m - 2, u);
    more, g := Failure(more, g, m, d, u, u + 1, u);
  }

  /** From there 2m + 7 more fit into the window. */
  lemma Finish(es: seq<Event>, h: History, m: nat, d: nat, t: Instant, n: nat) returns (more: seq<Event>)
    requires 0 < m && Stage(es, h, m, d, t + FAIL_WINDOW) && AtReopening(h, t, n)
    ensures Chronological(more) && AtMost(more, m) && Overtakes(more, d)
    ensures InWindow(Exec(more).counted, t + FAIL_WINDOW) == n + 2 * m + 7
  {
    var u: Instant := t + FAIL_WINDOW;
    var v: Instant := u + 1;
    var g: History;
    more, g := Turn(es, h, m, d, t, n);
    more := Checks(more, g, m, d, v, v, m - 1);
    more, g := LockThen(more, g.(checked := m - 1), m, d, v, 4, m - 1, u);
  }

  /** Five failures at `t`, with at most one login waiting that was stamped at `t` as well. */
  lemma FiveFailures(es: seq<Event>, h: History, m: nat, d: nat, t: Instant) returns (more: seq<Event>, g: History)
    requires Stage(es, h, m, d, t) && h.st == NO_FAILS && h.counted == [] && h.InFlight() < m && Before(h.pending, t) <= d
    ensures Stage(more, g, m, d, t) && g.checked == h.checked && g.pending == h.pending
    ensures g.st == Fails(0, t + LOCK_DURATION, t) && InWindow(g.counted, t + FAIL_WINDOW) == 0
  {
    more, g := Try(es, h, m, d, t, t, t + FAIL_WINDOW);
    more, g := Tries(more, g, m, d, t, t, 4, t + FAIL_WINDOW);
  }

  /** For every number of logins in flight, counted in the order of their stamps, 2m + 7 is reached. */
  lemma BoundIsReached(m: nat) returns (es: seq<Event>, a: int)
    requires 0 < m
    ensures Chronological(es) && AtMost(es, m) && Overtakes(es, 0) && InWindow(Exec(es).counted, a) == 2 * m + 7
  {
    var t: Instant := FAIL_WINDOW + 1;
    var h: History;
    a := t + FAIL_WINDOW;
    assert Stage([], START, m, 0, t);
    es, h := FiveFailures([], START, m, 0, t);
    assert Stage(es, h, m, 0, a);
    es := Finish(es, h, m, 0, t, 0);
  }

  /** So nine is reached by logins that come one at a time. */
  lemma NineIsReached() returns (es: seq<Event>, a: int)
    ensures Chronological(es) && AtMost(es, 1) && InWindow(Exec(es).counted, a) == 9
  {
    es, a := BoundIsReached(1);
  }

  /** One login reads the clock at `t`, before the five failures of others at `t`, and waits. */
  lemma OneWaits(m: nat, t: Instant) returns (es: seq<Event>, h: History)
    requires 1 < m
    ensures Stage(es, h, m, 1, t + FAIL_WINDOW) && h.checked == 0 && h.pending == [t]
    ensures h.st == Fails(0, t + LOCK_DURATION, t) && InWindow(h.counted, t + FAIL_WINDOW) == 0
  {
    assert Stage([], START, m, 1, t);
    es := Then([], START, m, 1, t, Check(t));
    es := Then(es, Do(START, Check(t)), m, 1, t, Stamp(t));
    h := Do(Do(START, Check(t)), Stamp(t));
    assert h.pending == [] + [t];
    BeforeAtMost([t], t);
    es, h := FiveFailures(es, h, m, 1, t);
  }

  /** The waiting login is counted as the fifth: its lock is over as soon as it is set. */
  lemma WaitingCounted(es: seq<Event>, h: History, m: nat, t: Instant, n: nat) returns (more: seq<Event>, g: History)
    requires 1 < m && Stage(es, h, m, 1, t + FAIL_WINDOW) && h.checked == 0 && h.pending == [t]
    requires h.st.count == 4 && h.st.windowStart == t && InWindow(h.counted, t + FAIL_WINDOW) == n
    ensures Stage(more, g, m, 1, t + FAIL_WINDOW) && AtReopening(g, t, n)
  {
    var u: Instant := t + FAIL_WINDOW;
    BeforeAtMost([t], t);
    assert [t][..0] == [] && Before([t], t) == 0;
    more := Then(es, h, m, 1, u, Count(u, 0));
    g := Do(h, Count(u, 0));
    assert Without([t], 0) == [];
    InWindowAppend(h.counted, t, u);
  }

  /** One overtaken login is enough to go beyond 2m + 7, whenever two logins can be in flight. */
  lemma OvertakingExceeds(m: nat) returns (es: seq<Event>, a: int)
    requires 1 < m
    ensures Chronological(es) && AtMost(es, m) && Overtakes(es, 1) && InWindow(Exec(es).counted, a) == 2 * m + 11
  {
    var t: Instant := FAIL_WINDOW + 1;
    var h: History;
    a := t + FAIL_WINDOW;
    es, h := OneWaits(m, t);
    BeforeAtMost([t], a);
    es, h := Tries(es, h, m, 1, a, a, 4, a);
    es, h := WaitingCounted(es, h, m, t, 4);
    es := Finish(es, h, m, 1, t, 4);
  }

  /** Five failures lock, and the others in flight are counted behind the lock, up to the fourth of a count. */
  lemma LockedBehind(es: seq<Event>, h: History, m: nat, t: Instant) returns (more: seq<Event>, g: History)
    requires 1 < m && Cycled(0, m - 2) == 4 && Stage(es, h, m, 1, t + FAIL_WINDOW) && h.checked == 0 && h.pending == [t]
    requires h.st == Fails(0, t + LOCK_DURATION, t) && InWindow(h.counted, t + FAIL_WINDOW) == 0
    ensures Stage(more, g, m, 1, t + FAIL_WINDOW) && g.checked == 0 && g.pending == [t]
    ensures g.st.count == 4 && g.st.windowStart == t && InWindow(g.counted, t + FAIL_WINDOW) == m + 3
  {
    var u: Instant := t + FAIL_WINDOW;
    BeforeAtMost([t], u);
    more := Checks(es, h, m, 1, u, u, m - 2);
    assert !Locked(h.st, u) && h.(checked := m - 2).InFlight() == m - 1;
    more, g := LockThen(more, h.(checked := m - 2), m, 1, u, 5, m - 2, u);
  }

  /** The bound for one overtaken login is reached too, for m = 6, 11, 16 and so on. */
  lemma LateBoundIsReached(m: nat) returns (es: seq<Event>, a: int)
    requires 1 < m && m % 5 == 1
    ensures Chronological(es) && AtMost(es, m) && Overtakes(es, 1) && InWindow(Exec(es).counted, a) == Bound(m, 1)
  {
    var t: Instant := FAIL_WINDOW + 1;
    var h: History;
    a := t + FAIL_WINDOW;
    es, h := OneWaits(m, t);
    BeforeAtMost([t], a);
    CycledFromZero(m - 2);
    es, h := LockedBehind(es, h, m, t);
    es, h := WaitingCounted(es, h, m, t, m + 3);
    es := Finish(es, h, m, 1, t, m + 3);
    assert Late(m, 1) == Late(m, 0) + m + 4;
  }

  /** The bound 2m + 7 for runs with at most `m` in flight and `d` overtaken. */
  ghost predicate TwoMPlusSeven(m: nat, d: nat) {
    forall es, a: int | Chronological(es) && AtMost(es, m) && Overtakes(es, d) :: InWindow(Exec(es).counted, a) <= 2 * m + 7
  }

  lemma {:induction false} OvertakesMore(es: seq<Event>, c: nat, d: nat)
    requires Overtakes(es, c) && c <= d
    ensures Overtakes(es, d)
  {
    if es != [] { OvertakesMore(es[..|es| - 1], c, d); }
  }

  /** With two or more in flight 2m + 7 holds if and only if no login overtakes one with an earlier stamp. */
  lemma InOrderIff(m: nat, d: nat)
    requires 1 < m
    ensures TwoMPlusSeven(m, d) <==> d == 0
  {
    if d == 0 {
      forall es, a: int | Chronological(es) && AtMost(es, m) && Overtakes(es, d) ensures InWindow(Exec(es).counted, a) <= 2 * m + 7 {
        InOrderThrottleBound(es, m, a);
      }
    } else {
      var es, a := OvertakingExceeds(m);
      OvertakesMore(es, 1, d);
    }
  }

  // ---- The service ----

  datatype Account = NoSuchUser | Suspended | Deleted | PendingVerification | Active

  datatype LoginError = TooManyRequests(remaining: int) | Unauthorized | Forbidden

  class Throttle {
    /** Keyed by the normalised email. */
    var failures: map<string, Fails>

    constructor ()
      ensures failures == map[]
    {
      failures := map[];
    }

    function StateOf(key: string): Fails
      reads this
    {
      if key in failures then failures[key] else NO_FAILS
    }

    /** The remaining lock, or zero. */
    method LoginThrottleState(key: string, now: Instant) returns (remain: int)
      ensures remain == if Locked(StateOf(key), now) then StateOf(key).lockedUntil - now else 0
    {
      remain := 0;
      if key in failures && failures[key].lockedUntil - now > 0 {
        remain := failures[key].lockedUntil - now;
      }
    }

    method RecordLoginFailure(key: string, now: Instant)
      modifies this
      ensures failures == old(failures)[key := Record(old(StateOf(key)), now)]
    {
      var st := if key in failures then failures[key] else NO_FAILS;
      if now - st.windowStart > FAIL_WINDOW { st := Fails(0, 0, now); }
      st := st.(count := st.count + 1);
      if st.count >= THRESHOLD {
        st := st.(lockedUntil := now + LOCK_DURATION);
        st := st.(count := 0);
      }
      failures := failures[key := st];
    }

    method ClearLoginFailures(key: string)
      modifies this
      ensures failures == old(failures) - {key}
    {
      failures := failures - {key};
    }

    /**
     The password check of Login with its throttle: `checked` is the clock at the lock check, `now`
     when a failure is counted. Only a wrong password of an existing account
     that is neither suspended nor deleted nor federated-only is counted; only a full success clears.
     */
    method Login(email: string, account: Account, passwordOk: bool, federatedOnly: bool,
                 checked: Instant, now: Instant)
      returns (r: Result<(), LoginError>)
      modifies this
      ensures r.Ok? <==> !Locked(old(StateOf(email)), checked) && account == Active && passwordOk
      ensures Locked(old(StateOf(email)), checked) ==>
                r == Err(TooManyRequests(old(StateOf(email)).lockedUntil - checked)) && failures == old(failures)
      ensures !Locked(old(StateOf(email)), checked) ==>
                && (r == Err(Unauthorized) <==>
                      account == NoSuchUser || (account in {PendingVerification, Active} && !passwordOk))
                && (r == Err(LoginError.Forbidden) <==>
                      account in {Suspended, Deleted} || (account == PendingVerification && passwordOk))
      ensures forall other :: other != email ==> StateOf(other) == old(StateOf(other))
      ensures StateOf(email) ==
              if r.Ok? then NO_FAILS
              else if !Locked(old(StateOf(email)), checked) && account in {PendingVerification, Active} && !passwordOk && !federatedOnly
              then Record(old(StateOf(email)), now)
              else old(StateOf(email))
    {
      var remain := LoginThrottleState(email, checked);
      if remain > 0 { return Err(TooManyRequests(remain)); }
      if account == NoSuchUser { return Err(Unauthorized); }
      if account == Suspended || account == Deleted { return Err(Forbidden); }
      if !passwordOk {
        if !federatedOnly { RecordLoginFailure(email, now); }
        return Err(Unauthorized);
      }
      if account == PendingVerification { return Err(Forbidden); }
      ClearLoginFailures(email);
      r := Ok(());
    }
  }
}
