/** The circuit breaker in front of server-side fetches: three network failures open it for a minute. */
module SsrBreaker {
  import opened Common

  const BREAKER_THRESHOLD := 3
  const BREAKER_COOLDOWN_MS := 60000

  datatype Breaker = Breaker(consecutiveFailures: int, breakerOpenUntil: int)

  const LOADED := Breaker(0, 0)

  /** How a fetch would end: with no response, with an error status, or with a good answer. */
  datatype Outcome = NoResponse | HttpError | Good

  /** One call: the clock when it checks the breaker, how its fetch would end, the clock at that end. */
  datatype Call = Call(start: int, outcome: Outcome, end: int)

  function TripBreaker(b: Breaker, now: int): Breaker {
    if b.consecutiveFailures + 1 >= BREAKER_THRESHOLD then Breaker(0, now + BREAKER_COOLDOWN_MS)
    else b.(consecutiveFailures := b.consecutiveFailures + 1)
  }

  /** What the end of a fetch does to the breaker. */
  function Settled(b: Breaker, outcome: Outcome, now: int): Breaker {
    match outcome
    case NoResponse => TripBreaker(b, now)
    case HttpError => b
    case Good => LOADED
  }

  predicate Skipped(b: Breaker, c: Call) { c.start < b.breakerOpenUntil }

  function Do(b: Breaker, c: Call): Breaker {
    if Skipped(b, c) then b else Settled(b, c.outcome, c.end)
  }

  function Run(calls: seq<Call>): Breaker {
    if calls == [] then LOADED else Do(Run(calls[..|calls| - 1]), calls[|calls| - 1])
  }

  /** Each call ends before the next one looks at the breaker. */
  predicate Sequential(calls: seq<Call>) {
    && (forall i :: 0 <= i < |calls| ==> calls[i].start <= calls[i].end)
    && (forall i, j :: 0 <= i < j < |calls| ==> calls[i].end <= calls[j].start)
  }

  // ---- The counter ----

  /** Whether call `i` got to fetch. */
  predicate Fetched(calls: seq<Call>, i: nat)
    requires i < |calls|
  {
    !Skipped(Run(calls[..i]), calls[i])
  }

  /** Network failures since the last good answer, error statuses and skipped calls not counting. */
  function Streak(calls: seq<Call>): nat {
    if calls == [] then 0
    else
      var c := calls[|calls| - 1];
      if Skipped(Run(calls[..|calls| - 1]), c) || c.outcome == HttpError then Streak(calls[..|calls| - 1])
      else if c.outcome == Good then 0
      else Streak(calls[..|calls| - 1]) + 1
  }

  /** In every run the counter is that streak counted in threes, so it is 0, 1 or 2 between calls. */
  lemma {:induction false} CounterIsStreak(calls: seq<Call>)
    ensures Run(calls).consecutiveFailures == Streak(calls) % BREAKER_THRESHOLD
    ensures Run(calls).consecutiveFailures in {0, 1, 2}
  {
    if calls != [] { CounterIsStreak(calls[..|calls| - 1]); }
  }

  /** Call `i` opens the breaker. */
  predicate Trips(calls: seq<Call>, i: nat)
    requires i < |calls|
  {
    Fetched(calls, i) && calls[i].outcome == NoResponse && Run(calls[..i]).consecutiveFailures + 1 >= BREAKER_THRESHOLD
  }

  /** A call opens the breaker exactly when it brings the streak to a multiple of three. */
  lemma TripsIff(calls: seq<Call>, i: nat)
    requires i < |calls|
    ensures Trips(calls, i) <==>
            Fetched(calls, i) && calls[i].outcome == NoResponse && Streak(calls[..i + 1]) % BREAKER_THRESHOLD == 0
  {
    CounterIsStreak(calls[..i]);
    assert calls[..i + 1][..i] == calls[..i];
  }

  // ---- The cooldown ----

  lemma {:induction false} StaysOpen(calls: seq<Call>, i: nat, k: nat)
    requires Sequential(calls) && i < k <= |calls| && Trips(calls, i)
    ensures Run(calls[..k]).breakerOpenUntil >= calls[i].end + BREAKER_COOLDOWN_MS
            || calls[k - 1].start >= calls[i].end + BREAKER_COOLDOWN_MS
  {
    assert calls[..k][..k - 1] == calls[..k - 1];
    if k > i + 1 { StaysOpen(calls, i, k - 1); }
  }

  /** Whatever the outcomes: once a call has opened the breaker, no fetch starts for a minute. */
  lemma CooldownHolds(calls: seq<Call>, i: nat, k: nat)
    requires Sequential(calls) && i < k < |calls| && Trips(calls, i) && Fetched(calls, k)
    ensures calls[k].start >= calls[i].end + 60000
  {
    StaysOpen(calls, i, k);
  }

  /** A good answer closes the breaker: the next two failures cannot open it again. */
  lemma GoodAnswerResets(calls: seq<Call>, c: Call, d: Call, e: Call)
    requires c.outcome == Good && !Skipped(Run(calls), c)
    requires d.start >= 0 && e.start >= 0
    ensures !Skipped(Run(calls + [c]), d) && !Skipped(Run(calls + [c, d]), e)
    ensures Run(calls + [c, d, e]).breakerOpenUntil == 0
  {
    assert calls + [c, d] == (calls + [c]) + [d] && calls + [c, d, e] == (calls + [c, d]) + [e];
    RunAppend(calls, c);
    RunAppend(calls + [c], d);
    RunAppend(calls + [c, d], e);
  }

  // ---- Calls that overlap ----

  /** A call looks at the breaker; later, in any order with others, its fetch ends. */
  datatype Step = Begin(id: Id, now: int) | Settle(id: Id, outcome: Outcome, now: int)

  datatype Page = Page(breaker: Breaker, fetching: set<Id>)

  predicate Departs(p: Page, e: Step) { e.Begin? && e.id !in p.fetching && e.now >= p.breaker.breakerOpenUntil }

  predicate Ends(p: Page, e: Step) { e.Settle? && e.id in p.fetching }

  function DoStep(p: Page, e: Step): Page {
    if Departs(p, e) then p.(fetching := p.fetching + {e.id})
    else if Ends(p, e) then Page(Settled(p.breaker, e.outcome, e.now), p.fetching - {e.id})
    else p
  }

  function Overlap(es: seq<Step>): Page {
    if es == [] then Page(LOADED, {}) else DoStep(Overlap(es[..|es| - 1]), es[|es| - 1])
  }

  /** Network failures since the last good answer, in the order in which fetches end. */
  function OverlapStreak(es: seq<Step>): nat {
    if es == [] then 0
    else
      var before, e := OverlapStreak(es[..|es| - 1]), es[|es| - 1];
      if !Ends(Overlap(es[..|es| - 1]), e) || e.outcome == HttpError then before
      else if e.outcome == Good then 0
      else before + 1
  }

  /** Also when calls overlap, the counter is that streak counted in threes. */
  lemma {:induction false} OverlapCounterIsStreak(es: seq<Step>)
    ensures Overlap(es).breaker.consecutiveFailures == OverlapStreak(es) % BREAKER_THRESHOLD
    ensures Overlap(es).breaker.consecutiveFailures in {0, 1, 2}
  {
    if es != [] { OverlapCounterIsStreak(es[..|es| - 1]); }
  }

  /** A call by itself is its two steps. */
  lemma CallIsItsSteps(b: Breaker, c: Call, id: Id)
    ensures DoStep(DoStep(Page(b, {}), Begin(id, c.start)), Settle(id, c.outcome, c.end)).breaker == Do(b, c)
  {
  }

  predicate OverlapTrips(es: seq<Step>, i: nat)
    requires i < |es|
  {
    var p := Overlap(es[..i]);
    Ends(p, es[i]) && es[i].outcome == NoResponse && p.breaker.consecutiveFailures + 1 >= BREAKER_THRESHOLD
  }

  /** Step `j` is a fetch that was under way and comes back good. */
  predicate GoodAt(es: seq<Step>, j: nat)
    requires j < |es|
  {
    Ends(Overlap(es[..j]), es[j]) && es[j].outcome == Good
  }

  predicate ClockAscends(es: seq<Step>) { forall j, l :: 0 <= j < l < |es| ==> es[j].now <= es[l].now }

  lemma OverlapStep(p: Page, e: Step, until: int)
    requires p.breaker.breakerOpenUntil >= until && e.now + BREAKER_COOLDOWN_MS >= until
    requires !(Ends(p, e) && e.outcome == Good)
    ensures DoStep(p, e).breaker.breakerOpenUntil >= until
  {
  }

  lemma {:induction false} OverlapStaysOpen(es: seq<Step>, i: nat, k: nat)
    requires ClockAscends(es) && i < k <= |es| && OverlapTrips(es, i)
    requires forall j :: i < j < k ==> !GoodAt(es, j)
    ensures Overlap(es[..k]).breaker.breakerOpenUntil >= es[i].now + BREAKER_COOLDOWN_MS
  {
    assert es[..k][..k - 1] == es[..k - 1];
    if k > i + 1 {
      OverlapStaysOpen(es, i, k - 1);
      assert !GoodAt(es, k - 1);
      OverlapStep(Overlap(es[..k - 1]), es[k - 1], es[i].now + BREAKER_COOLDOWN_MS);
    }
  }

  /**
   When calls overlap, a fetch starts within a minute of the breaker opening only if one already under
   way has come back good in between.
   */
  lemma OverlapCooldown(es: seq<Step>, i: nat, k: nat)
    requires ClockAscends(es) && i < k < |es| && OverlapTrips(es, i) && Departs(Overlap(es[..k]), es[k])
    ensures es[k].now >= es[i].now + BREAKER_COOLDOWN_MS || exists j :: i < j < k && GoodAt(es, j)
  {
    if forall j :: i < j < k ==> !GoodAt(es, j) { OverlapStaysOpen(es, i, k); }
  }

  lemma OverlapNext(es: seq<Step>, n: nat)
    requires n < |es|
    ensures Overlap(es[..n + 1]) == DoStep(Overlap(es[..n]), es[n])
  {
    assert es[..n + 1][..n] == es[..n];
  }

  lemma {:induction false} OpenUntilIs(es: seq<Step>, i: nat, k: nat)
    requires i < k <= |es| && OverlapTrips(es, i) && forall j :: i < j < k ==> !OverlapTrips(es, j)
    ensures Overlap(es[..k]).breaker.breakerOpenUntil ==
            if exists j :: i < j < k && GoodAt(es, j) then 0 else es[i].now + BREAKER_COOLDOWN_MS
  {
    OverlapNext(es, k - 1);
    if k > i + 1 {
      OpenUntilIs(es, i, k - 1);
      assert !OverlapTrips(es, k - 1);
      if GoodAt(es, k - 1) {
        assert i < k - 1 < k;
      } else if j :| i < j < k - 1 && GoodAt(es, j) {
        assert i < j < k;
      } else {
        assert forall j :: i < j < k ==> !GoodAt(es, j);
      }
    }
  }

  /**
   When calls overlap, and the breaker last opened at step `i`: a new call at step `k` fetches if and only
   if the minute is up or a fetch already under way has come back good in between.
   */
  lemma OverlapDepartsIff(es: seq<Step>, i: nat, k: nat)
    requires i < k < |es| && OverlapTrips(es, i) && forall j :: i < j < k ==> !OverlapTrips(es, j)
    requires es[k].Begin? && es[k].id !in Overlap(es[..k]).fetching && es[k].now >= 0
    ensures Departs(Overlap(es[..k]), es[k]) <==>
            es[k].now >= es[i].now + BREAKER_COOLDOWN_MS || exists j :: i < j < k && GoodAt(es, j)
  {
    OpenUntilIs(es, i, k);
  }

  /** Four fetches under way together: three fail and open the breaker, the fourth comes back good. */
  const OPEN_RUN: seq<Step> :=
    [Begin(1, 0), Begin(2, 0), Begin(3, 0), Begin(4, 0),
     Settle(1, NoResponse, 0), Settle(2, NoResponse, 0), Settle(3, NoResponse, 0), Settle(4, Good, 0), Begin(5, 1)]

  lemma FourUnderWay()
    ensures Overlap(OPEN_RUN[..4]) == Page(LOADED, {1, 2, 3, 4})
  {
    assert OPEN_RUN[..0] == [];
    OverlapNext(OPEN_RUN, 0);
    OverlapNext(OPEN_RUN, 1);
    OverlapNext(OPEN_RUN, 2);
    OverlapNext(OPEN_RUN, 3);
  }

  lemma TwoFailed()
    ensures Overlap(OPEN_RUN[..6]) == Page(Breaker(2, 0), {3, 4})
  {
    FourUnderWay();
    OverlapNext(OPEN_RUN, 4);
    OverlapNext(OPEN_RUN, 5);
  }

  /** A fetch that starts a millisecond after the breaker has opened. */
  lemma StartsWhileOpen()
    ensures ClockAscends(OPEN_RUN) && OverlapTrips(OPEN_RUN, 6) && Departs(Overlap(OPEN_RUN[..8]), OPEN_RUN[8])
  {
    TwoFailed();
    OverlapNext(OPEN_RUN, 6);
    OverlapNext(OPEN_RUN, 7);
  }

  // ---- The cost of an outage when calls overlap ----

  lemma Minutes(d: nat)
    ensures d < BREAKER_COOLDOWN_MS * (d / BREAKER_COOLDOWN_MS + 1)
  {
  }

  /** At most `m` fetches are ever under way together, and each that ends has had no response. */
  predicate FailingAtMost(es: seq<Step>, m: nat) {
    es == [] ||
    (FailingAtMost(es[..|es| - 1], m) && |Overlap(es).fetching| <= m
     && (es[|es| - 1].Settle? ==> es[|es| - 1].outcome == NoResponse))
  }

  /** How many fetches start from `lo` on and before `hi`. */
  function Departures(es: seq<Step>, lo: int, hi: int): nat {
    if es == [] then 0
    else
      Departures(es[..|es| - 1], lo, hi)
      + (if Departs(Overlap(es[..|es| - 1]), es[|es| - 1]) && lo <= es[|es| - 1].now < hi then 1 else 0)
  }

  /** Within the minute from `a`, before and after the breaker opens in it. */
  predicate MinuteInv(p: Page, n: nat, now: int, a: int, m: nat) {
    && 0 <= p.breaker.consecutiveFailures <= 2 && |p.fetching| <= m && n <= m + 2
    && (now < a ==> n == 0 && p.breaker.breakerOpenUntil < a + BREAKER_COOLDOWN_MS)
    && (now < a + BREAKER_COOLDOWN_MS && p.breaker.breakerOpenUntil < a + BREAKER_COOLDOWN_MS ==>
          n <= p.breaker.consecutiveFailures + |p.fetching|)
  }

  lemma MinuteStep(p: Page, e: Step, n: nat, now: int, a: int, m: nat)
    requires MinuteInv(p, n, now, a, m) && now <= e.now && |DoStep(p, e).fetching| <= m
    requires e.Settle? ==> e.outcome == NoResponse
    ensures MinuteInv(DoStep(p, e), n + (if Departs(p, e) && a <= e.now < a + BREAKER_COOLDOWN_MS then 1 else 0), e.now, a, m)
  {
    if Ends(p, e) { assert |p.fetching - {e.id}| == |p.fetching| - 1; }
    if Departs(p, e) { assert |p.fetching + {e.id}| == |p.fetching| + 1; }
  }

  predicate StartsAtZero(es: seq<Step>) { forall j :: 0 <= j < |es| ==> 0 <= es[j].now }

  lemma {:induction false} MinuteRun(es: seq<Step>, a: int, m: nat)
    requires ClockAscends(es) && StartsAtZero(es) && FailingAtMost(es, m)
    ensures MinuteInv(Overlap(es), Departures(es, a, a + BREAKER_COOLDOWN_MS),
                      if es == [] then 0 else es[|es| - 1].now, a, m)
  {
    if es != [] {
      var init, e := es[..|es| - 1], es[|es| - 1];
      MinuteRun(init, a, m);
      MinuteStep(Overlap(init), e, Departures(init, a, a + BREAKER_COOLDOWN_MS), if init == [] then 0 else init[|init| - 1].now, a, m);
    }
  }

  lemma {:induction false} DeparturesSplit(es: seq<Step>, lo: int, mid: int, hi: int)
    requires lo <= mid <= hi
    ensures Departures(es, lo, hi) == Departures(es, lo, mid) + Departures(es, mid, hi)
  {
    if es != [] { DeparturesSplit(es[..|es| - 1], lo, mid, hi); }
  }

  lemma {:induction false} MinutesCost(es: seq<Step>, t: int, k: nat, m: nat)
    requires ClockAscends(es) && StartsAtZero(es) && FailingAtMost(es, m)
    ensures Departures(es, t, t + BREAKER_COOLDOWN_MS * k) <= (m + 2) * k
  {
    if k == 0 {
      NoDepartures(es, t);
    } else {
      var mid := t + BREAKER_COOLDOWN_MS * (k - 1);
      MinutesCost(es, t, k - 1, m);
      MinuteRun(es, mid, m);
      DeparturesSplit(es, t, mid, mid + BREAKER_COOLDOWN_MS);
      assert (m + 2) * (k - 1) + (m + 2) == (m + 2) * k;
    }
  }

  lemma {:induction false} NoDepartures(es: seq<Step>, t: int)
    ensures Departures(es, t, t) == 0
  {
    if es != [] { NoDepartures(es[..|es| - 1], t); }
  }

  lemma IntervalCost(es: seq<Step>, t: int, d: nat, k: nat, m: nat)
    requires ClockAscends(es) && StartsAtZero(es) && FailingAtMost(es, m) && d < BREAKER_COOLDOWN_MS * k
    ensures Departures(es, t, t + d + 1) <= (m + 2) * k
  {
    MinutesCost(es, t, k, m);
    DeparturesSplit(es, t, t + d + 1, t + BREAKER_COOLDOWN_MS * k);
  }

  /**
   While every fetch fails at the network and at most `m` are under way together, at most
   (m + 2) * (D / 60000 + 1) fetches start in any closed interval of D milliseconds.
   */
  lemma OverlapOutageCost(es: seq<Step>, t: int, d: nat, m: nat)
    requires ClockAscends(es) && StartsAtZero(es) && FailingAtMost(es, m)
    ensures Departures(es, t, t + d + 1) <= (m + 2) * (d / 60000 + 1)
  {
    Minutes(d);
    IntervalCost(es, t, d, d / BREAKER_COOLDOWN_MS + 1, m);
  }

  /** In a minute m + 2 is reached, for every positive `m`. */
  lemma OverlapCostIsReached(m: nat) returns (es: seq<Step>)
    requires 0 < m
    ensures ClockAscends(es) && StartsAtZero(es) && FailingAtMost(es, m) && Departures(es, 0, 1) == m + 2
  {
    es := BeginAll(m, m);
    es := SwapTwo(es, m);
    AtZeroAscends(es);
  }

  lemma SwapTwo(es: seq<Step>, m: nat) returns (more: seq<Step>)
    requires 0 < m && AtZero(es, Page(LOADED, Ids(m)), m, m)
    ensures FailingAtMost(more, m) && Departures(more, 0, 1) == m + 2 && AllAtZero(more)
  {
    more := Swap(es, Page(LOADED, Ids(m)), m, 0, m);
    var ids := Ids(m) - {0} + {m};
    assert |Ids(m) - {0}| == m - 1 && |ids| == m;
    more := Swap(more, Page(Breaker(1, 0), ids), m, 1, m + 1);
  }

  predicate AllAtZero(es: seq<Step>) { forall j :: 0 <= j < |es| ==> es[j].now == 0 }

  lemma AtZeroAscends(es: seq<Step>)
    requires AllAtZero(es)
    ensures ClockAscends(es) && StartsAtZero(es)
  {
  }

  function Ids(n: nat): (ids: set<Id>)
    ensures |ids| == n && forall i: Id :: i in ids <==> i < n
  {
    if n == 0 then {} else Ids(n - 1) + {n - 1}
  }

  /** A run at time zero that ends in `p` after `n` departures. */
  ghost predicate AtZero(es: seq<Step>, p: Page, m: nat, n: nat) {
    && Overlap(es) == p && FailingAtMost(es, m) && Departures(es, 0, 1) == n && AllAtZero(es)
  }

  lemma AtZeroNext(es: seq<Step>, p: Page, m: nat, n: nat, e: Step) returns (more: seq<Step>)
    requires AtZero(es, p, m, n) && e.now == 0 && |DoStep(p, e).fetching| <= m && (e.Settle? ==> e.outcome == NoResponse)
    ensures AtZero(more, DoStep(p, e), m, n + if Departs(p, e) then 1 else 0)
  {
    more := es + [e];
    assert more[..|es|] == es;
  }

  lemma {:induction false} BeginAll(m: nat, n: nat) returns (es: seq<Step>)
    requires n <= m
    ensures AtZero(es, Page(LOADED, Ids(n)), m, n)
  {
    if n == 0 {
      es := [];
    } else {
      es := BeginAll(m, n - 1);
      es := AtZeroNext(es, Page(LOADED, Ids(n - 1)), m, n - 1, Begin(n - 1, 0));
    }
  }

  /** One fetch fails and another starts in its place. */
  lemma Swap(es: seq<Step>, p: Page, m: nat, gone: Id, next: Id) returns (more: seq<Step>)
    requires AtZero(es, p, m, Departures(es, 0, 1)) && |p.fetching| <= m && gone in p.fetching && next !in p.fetching
    requires 0 <= p.breaker.consecutiveFailures < 2 && p.breaker.breakerOpenUntil == 0
    ensures AtZero(more, Page(Breaker(p.breaker.consecutiveFailures + 1, 0), p.fetching - {gone} + {next}), m, Departures(es, 0, 1) + 1)
  {
    var n := Departures(es, 0, 1);
    var q := Page(Breaker(p.breaker.consecutiveFailures + 1, 0), p.fetching - {gone});
    assert |p.fetching - {gone}| == |p.fetching| - 1;
    more := AtZeroNext(es, p, m, n, Settle(gone, NoResponse, 0));
    assert |q.fetching + {next}| == |q.fetching| + 1;
    more := AtZeroNext(more, q, m, n, Begin(next, 0));
  }

  // ---- The cost of an outage ----

  /** When the fetches that were made started. */
  function Starts(calls: seq<Call>): seq<int> {
    if calls == [] then []
    else
      Starts(calls[..|calls| - 1]) +
      (if Skipped(Run(calls[..|calls| - 1]), calls[|calls| - 1]) then [] else [calls[|calls| - 1].start])
  }

  /** Every third fetch is followed by a pause. */
  predicate Paused(s: seq<int>) {
    forall i :: 0 < i < |s| && i % 3 == 0 ==> PausedAt(s, i)
  }

  predicate PausedAt(s: seq<int>, i: nat)
    requires 0 < i < |s|
  {
    s[i - 1] + BREAKER_COOLDOWN_MS <= s[i]
  }

  predicate AllFail(calls: seq<Call>) { forall i :: 0 <= i < |calls| ==> calls[i].outcome == NoResponse }

  lemma OneMoreStart(s: seq<int>, x: int)
    requires Ascending(s) && Paused(s)
    requires s != [] ==> s[|s| - 1] <= x
    requires s != [] && |s| % 3 == 0 ==> s[|s| - 1] + BREAKER_COOLDOWN_MS <= x
    ensures Ascending(s + [x]) && Paused(s + [x])
  {
    forall i | 0 < i < |s + [x]| && i % 3 == 0 ensures PausedAt(s + [x], i) {
      if i < |s| { assert PausedAt(s, i); }
    }
  }

  predicate OutageInv(b: Breaker, s: seq<int>, now: int) {
    && Ascending(s) && Paused(s)
    && b.consecutiveFailures == |s| % 3
    && (s != [] ==> s[|s| - 1] <= now)
    && (s != [] && |s| % 3 == 0 ==> s[|s| - 1] + BREAKER_COOLDOWN_MS <= b.breakerOpenUntil)
  }

  lemma OutageStep(b: Breaker, s: seq<int>, now: int, c: Call)
    requires OutageInv(b, s, now) && c.outcome == NoResponse && now <= c.start <= c.end
    ensures OutageInv(Do(b, c), s + (if Skipped(b, c) then [] else [c.start]), c.end)
  {
    if Skipped(b, c) { assert s + [] == s; }
    else { OneMoreStart(s, c.start); }
  }

  function LastEnd(calls: seq<Call>, before: int): int {
    if calls == [] then before else calls[|calls| - 1].end
  }

  lemma {:induction false} OutageRun(calls: seq<Call>, before: int)
    requires Sequential(calls) && AllFail(calls)
    ensures OutageInv(Run(calls), Starts(calls), LastEnd(calls, before))
  {
    if calls != [] {
      var init, c := calls[..|calls| - 1], calls[|calls| - 1];
      OutageRun(init, c.start);
      OutageStep(Run(init), Starts(init), LastEnd(init, c.start), c);
    }
  }

  /** Of any three fetches in a row one is followed by a pause. */
  lemma ThreeLater(s: seq<int>, i: nat)
    requires Ascending(s) && Paused(s) && i + 3 < |s|
    ensures s[i] + BREAKER_COOLDOWN_MS <= s[i + 3]
  {
    var pause := i + 3 - i % 3;
    assert PausedAt(s, pause);
    assert s[i] <= s[pause - 1] && s[pause] <= s[i + 3];
  }

  lemma {:induction false} Spread(s: seq<int>, i: nat, m: nat)
    requires Ascending(s) && Paused(s) && i + 3 * m < |s|
    ensures s[i] + BREAKER_COOLDOWN_MS * m <= s[i + 3 * m]
  {
    if m > 0 {
      Spread(s, i, m - 1);
      ThreeLater(s, i + 3 * (m - 1));
    }
  }

  /** How many of the times fall in the closed interval from `t`, `d` long. */
  function CountIn(s: seq<int>, t: int, d: nat): nat {
    if s == [] then 0
    else CountIn(s[..|s| - 1], t, d) + (if t <= s[|s| - 1] <= t + d then 1 else 0)
  }

  lemma {:induction false} CountIsRange(s: seq<int>, t: int, d: nat) returns (i: nat, j: nat)
    requires Ascending(s)
    ensures i <= j <= |s| && CountIn(s, t, d) <= j - i
    ensures i < j ==> t <= s[i] && s[j - 1] <= t + d
  {
    i, j := 0, 0;
    if s != [] {
      var init := s[..|s| - 1];
      i, j := CountIsRange(init, t, d);
      if t <= s[|s| - 1] <= t + d {
        if i == j { i := |s| - 1; }
        j := |s|;
      }
    }
  }

  lemma RangeIsShort(s: seq<int>, i: nat, j: nat, t: int, d: nat, m: nat)
    requires Ascending(s) && Paused(s) && i <= j <= |s| && d < BREAKER_COOLDOWN_MS * m
    requires i < j ==> t <= s[i] && s[j - 1] <= t + d
    ensures j - i <= 3 * m
  {
    if j - i > 3 * m { Spread(s, i, m); }
  }

  /**
   While every fetch fails at the network, at most 3 * (D / 60000 + 1) fetches start in any closed
   interval of D milliseconds, wherever it lies in the run.
   */
  lemma OutageCost(calls: seq<Call>, t: int, d: nat)
    requires Sequential(calls) && AllFail(calls)
    ensures CountIn(Starts(calls), t, d) <= 3 * (d / 60000 + 1)
  {
    OutageRun(calls, 0);
    var i, j := CountIsRange(Starts(calls), t, d);
    Minutes(d);
    RangeIsShort(Starts(calls), i, j, t, d, d / BREAKER_COOLDOWN_MS + 1);
  }

  /** The bound is met: three calls at once, and three more each time the minute is up. */
  function Worst(groups: nat): seq<Call> {
    if groups == 0 then []
    else
      var c := Call(BREAKER_COOLDOWN_MS * (groups - 1), NoResponse, BREAKER_COOLDOWN_MS * (groups - 1));
      Worst(groups - 1) + [c] + [c] + [c]
  }

  /** Sequential failing calls, each over at once, none after `last`. */
  predicate Instant(calls: seq<Call>, last: int) {
    && Sequential(calls) && AllFail(calls)
    && forall i :: 0 <= i < |calls| ==> 0 <= calls[i].start == calls[i].end <= last
  }

  lemma InstantAppend(calls: seq<Call>, last: int, t: int)
    requires Instant(calls, last) && last <= t && 0 <= t
    ensures Instant(calls + [Call(t, NoResponse, t)], t)
  {
  }

  lemma RunAppend(calls: seq<Call>, c: Call)
    ensures Run(calls + [c]) == Do(Run(calls), c)
    ensures Starts(calls + [c]) == Starts(calls) + (if Skipped(Run(calls), c) then [] else [c.start])
  {
    assert (calls + [c])[..|calls|] == calls;
  }

  /** Three failures at one moment, the breaker being closed, are all made and open it. */
  lemma ThreeAtOnce(calls: seq<Call>, t: int)
    requires Run(calls).consecutiveFailures == 0 && Run(calls).breakerOpenUntil <= t
    ensures var c := Call(t, NoResponse, t);
            && Run(calls + [c] + [c] + [c]) == Breaker(0, t + BREAKER_COOLDOWN_MS)
            && Starts(calls + [c] + [c] + [c]) == Starts(calls) + [t] + [t] + [t]
  {
    var c := Call(t, NoResponse, t);
    RunAppend(calls, c);
    RunAppend(calls + [c], c);
    RunAppend(calls + [c] + [c], c);
  }

  /** All the times lie between 0 and `last`. */
  predicate Between(s: seq<int>, last: int) { forall i :: 0 <= i < |s| ==> 0 <= s[i] <= last }

  lemma InstantThree(calls: seq<Call>, t: int)
    requires Instant(calls, t - BREAKER_COOLDOWN_MS) && 0 <= t
    ensures var c := Call(t, NoResponse, t); Instant(calls + [c] + [c] + [c], t)
  {
    var c := Call(t, NoResponse, t);
    InstantAppend(calls, t - BREAKER_COOLDOWN_MS, t);
    InstantAppend(calls + [c], t, t);
    InstantAppend(calls + [c] + [c], t, t);
  }

  lemma BetweenThree(s: seq<int>, t: int)
    requires Between(s, t - BREAKER_COOLDOWN_MS) && 0 <= t
    ensures Between(s + [t] + [t] + [t], t)
  {
  }

  /** The breaker is due to close at `t`, after `n` fetches. */
  predicate DueAt(calls: seq<Call>, n: nat, t: int) {
    && Instant(calls, t - BREAKER_COOLDOWN_MS) && Run(calls) == Breaker(0, t)
    && |Starts(calls)| == n && Between(Starts(calls), t - BREAKER_COOLDOWN_MS)
  }

  lemma NextDue(calls: seq<Call>, n: nat, t: int)
    requires DueAt(calls, n, t) && 0 <= t
    ensures var c := Call(t, NoResponse, t); DueAt(calls + [c] + [c] + [c], n + 3, t + BREAKER_COOLDOWN_MS)
  {
    ThreeAtOnce(calls, t);
    InstantThree(calls, t);
    BetweenThree(Starts(calls), t);
  }

  lemma {:induction false} WorstRun(groups: nat)
    ensures DueAt(Worst(groups), 3 * groups, BREAKER_COOLDOWN_MS * groups)
  {
    if groups > 0 {
      WorstRun(groups - 1);
      NextDue(Worst(groups - 1), 3 * (groups - 1), BREAKER_COOLDOWN_MS * (groups - 1));
    }
  }

  lemma {:induction false} CountAll(s: seq<int>, d: nat)
    requires Between(s, d)
    ensures CountIn(s, 0, d) == |s|
  {
    if s != [] { CountAll(s[..|s| - 1], d); }
  }

  lemma OutageCostIsTight(d: nat)
    ensures var calls := Worst(d / BREAKER_COOLDOWN_MS + 1);
            && Sequential(calls) && AllFail(calls)
            && CountIn(Starts(calls), 0, d) == 3 * (d / 60000 + 1)
  {
    var groups := d / BREAKER_COOLDOWN_MS + 1;
    WorstRun(groups);
    assert BREAKER_COOLDOWN_MS * groups - BREAKER_COOLDOWN_MS <= d;
    CountAll(Starts(Worst(groups)), d);
  }

  // ---- The module's variables ----

  datatype Answer = Skip | Failed | Status | Envelope

  class ServerApi {
    var consecutiveFailures: int
    var breakerOpenUntil: int

    constructor ()
      ensures State() == LOADED
    {
      consecutiveFailures, breakerOpenUntil := 0, 0;
    }

    function State(): Breaker
      reads this
    {
      Breaker(consecutiveFailures, breakerOpenUntil)
    }

    method Trip(now: int)
      modifies this
      ensures State() == TripBreaker(old(State()), now)
    {
      consecutiveFailures := consecutiveFailures + 1;
      if consecutiveFailures >= BREAKER_THRESHOLD {
        breakerOpenUntil := now + BREAKER_COOLDOWN_MS;
        consecutiveFailures := 0;
      }
    }

    method ApiFetchSSR(c: Call) returns (r: Answer)
      modifies this
      ensures State() == Do(old(State()), c)
      ensures r == Skip <==> Skipped(old(State()), c)
      ensures r == Envelope <==> !Skipped(old(State()), c) && c.outcome == Good
      ensures r == Status <==> !Skipped(old(State()), c) && c.outcome == HttpError
    {
      if c.start < breakerOpenUntil { return Skip; }
      if c.outcome == NoResponse {
        Trip(c.end);
        return Failed;
      }
      if c.outcome == HttpError { return Status; }
      consecutiveFailures := 0;
      breakerOpenUntil := 0;
      r := Envelope;
    }
  }
}
