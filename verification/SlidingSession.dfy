/**
 The sliding expiry of a login session: each use may extend it to thirty days from now, at most
 once a day. A use reads the expiry, then the clock, and if it extends it writes a new expiry later;
 uses may overlap.
 */
module SlidingSession {
  import opened Common

  const HOUR := 3_600_000_000_000
  const SESSION_TTL := 720 * HOUR
  const SLIDING_INTERVAL := 24 * HOUR

  datatype SessionError = Revoked | Expired | Inactive | NotFound

  /** A session that starts at `now`. */
  function Started(now: int): int { now + SESSION_TTL }

  predicate Accepts(expiresAt: int, now: int) { expiresAt >= now }

  predicate Extends(expiresAt: int, now: int) {
    Accepts(expiresAt, now) && expiresAt - now < SESSION_TTL - SLIDING_INTERVAL
  }

  /** The expiry after a use at `now`, when extensions succeed. */
  function Used(expiresAt: int, now: int): int {
    if Extends(expiresAt, now) then now + SESSION_TTL else expiresAt
  }

  // ---- Uses one at a time ----

  /** The expiry after a session started at `start` is used at each of `ts`. */
  function Uses(start: int, ts: seq<int>): int {
    if ts == [] then Started(start) else Used(Uses(start, ts[..|ts| - 1]), ts[|ts| - 1])
  }

  ghost predicate InOrder(start: int, ts: seq<int>) {
    (forall i :: 0 <= i < |ts| ==> start <= ts[i]) && forall i, j :: 0 <= i < j < |ts| ==> ts[i] <= ts[j]
  }

  /** The use before `ts[i]`, or the start of the session. */
  function Prior(start: int, ts: seq<int>, i: nat): int
    requires i <= |ts|
  {
    if i == 0 then start else ts[i - 1]
  }

  predicate AcceptedAt(start: int, ts: seq<int>, i: nat)
    requires i < |ts|
  {
    Accepts(Uses(start, ts[..i]), ts[i])
  }

  /** An accepted use leaves between 29 and 30 days. */
  lemma {:induction false} ExpiryBounds(start: int, ts: seq<int>)
    requires InOrder(start, ts)
    ensures Uses(start, ts) <= Prior(start, ts, |ts|) + SESSION_TTL
    ensures (forall i :: 0 <= i < |ts| ==> AcceptedAt(start, ts, i)) ==>
              Uses(start, ts) >= Prior(start, ts, |ts|) + SESSION_TTL - SLIDING_INTERVAL
  {
    if ts != [] {
      var init := ts[..|ts| - 1];
      ExpiryBounds(start, init);
      if forall i :: 0 <= i < |ts| ==> AcceptedAt(start, ts, i) {
        forall i | 0 <= i < |init| ensures AcceptedAt(start, init, i) {
          assert AcceptedAt(start, ts, i) && ts[..i] == init[..i];
        }
        assert AcceptedAt(start, ts, |ts| - 1);
      }
    }
  }

  /** Uses at most 29 days apart are all accepted, for as long as they go on. */
  lemma {:induction false} SerialFrequentUseLives(start: int, ts: seq<int>)
    requires InOrder(start, ts)
    requires forall i :: 0 <= i < |ts| ==> ts[i] - Prior(start, ts, i) <= SESSION_TTL - SLIDING_INTERVAL
    ensures forall i :: 0 <= i < |ts| ==> AcceptedAt(start, ts, i)
  {
    if ts != [] {
      var init := ts[..|ts| - 1];
      forall i | 0 <= i < |init| ensures Prior(start, init, i) == Prior(start, ts, i) {}
      SerialFrequentUseLives(start, init);
      ExpiryBounds(start, init);
      forall i | 0 <= i < |ts| ensures AcceptedAt(start, ts, i) {
        if i < |init| { assert AcceptedAt(start, init, i) && ts[..i] == init[..i]; }
      }
    }
  }

  /** A use more than 30 days after the one before is rejected. */
  lemma SerialLongGapDies(start: int, ts: seq<int>, i: nat)
    requires InOrder(start, ts) && i < |ts| && ts[i] - Prior(start, ts, i) > SESSION_TTL
    ensures !AcceptedAt(start, ts, i)
  {
    ExpiryBounds(start, ts[..i]);
  }

  /** After a rejected use every later use is rejected too. */
  lemma {:induction false} SerialDeadStaysDead(start: int, ts: seq<int>, i: nat, j: nat)
    requires InOrder(start, ts) && i <= j < |ts| && !AcceptedAt(start, ts, i)
    ensures !AcceptedAt(start, ts, j) && Uses(start, ts[..j + 1]) == Uses(start, ts[..i])
    decreases j
  {
    assert ts[..j + 1][..j] == ts[..j];
    if i < j {
      SerialDeadStaysDead(start, ts, i, j - 1);
    }
  }

  /** Both outcomes are possible for a gap between 29 and 30 days: it depends on the use before. */
  lemma ThresholdIsExact(gap: int)
    requires SESSION_TTL - SLIDING_INTERVAL < gap <= SESSION_TTL
    ensures AcceptedAt(0, [gap], 0)
    ensures InOrder(0, [SLIDING_INTERVAL, SLIDING_INTERVAL + gap])
    ensures AcceptedAt(0, [SLIDING_INTERVAL, SLIDING_INTERVAL + gap], 0)
    ensures !AcceptedAt(0, [SLIDING_INTERVAL, SLIDING_INTERVAL + gap], 1)
  {
    var ts := [SLIDING_INTERVAL, SLIDING_INTERVAL + gap];
    assert ts[..1] == [SLIDING_INTERVAL] && ts[..0] == [] && [gap][..0] == [];
    assert Uses(0, [SLIDING_INTERVAL]) == SESSION_TTL by { assert [SLIDING_INTERVAL][..0] == []; }
  }

  predicate ExtendsAt(start: int, ts: seq<int>, i: nat)
    requires i < |ts|
  {
    Extends(Uses(start, ts[..i]), ts[i])
  }

  lemma {:induction false} ExpiryGrows(start: int, ts: seq<int>, i: nat, j: nat)
    requires InOrder(start, ts) && i <= j <= |ts|
    ensures Uses(start, ts[..i]) <= Uses(start, ts[..j])
    decreases j
  {
    if i < j {
      ExpiryGrows(start, ts, i, j - 1);
      assert ts[..j][..j - 1] == ts[..j - 1];
    }
  }

  /** Two extensions of one session are more than 24 hours apart. */
  lemma SerialExtensionsApart(start: int, ts: seq<int>, i: nat, j: nat)
    requires InOrder(start, ts) && i < j < |ts| && ExtendsAt(start, ts, i) && ExtendsAt(start, ts, j)
    ensures ts[j] - ts[i] > SLIDING_INTERVAL
  {
    assert ts[..i + 1][..i] == ts[..i];
    ExpiryGrows(start, ts, i + 1, j);
  }

  // ---- Uses that overlap ----

  /**
   Events come in the order in which the row is read and written. A use reads the expiry and decides by
   its clock reading `now`, which comes after; an extension that was decided lands later, in any order
   with others.
   */
  datatype Event = Use(now: int) | Land(now: int, i: nat)

  /** `origin` is the use, or the start, whose expiry is in force; `pending` the uses whose write has not landed. */
  datatype State = State(origin: int, pending: seq<int>)

  function ExpiresAt(s: State): int { s.origin + SESSION_TTL }

  /** Extend is an unconditional UPDATE: the last write wins, whichever use it comes from. */
  function Do(s: State, e: Event): State {
    match e
    case Use(now) => if Extends(ExpiresAt(s), now) then s.(pending := s.pending + [now]) else s
    case Land(_, i) =>
      if i >= |s.pending| then s else State(s.pending[i], s.pending[..i] + s.pending[i + 1..])
  }

  function Exec(start: int, es: seq<Event>): State {
    if es == [] then State(start, []) else Do(Exec(start, es[..|es| - 1]), es[|es| - 1])
  }

  predicate Since(start: int, es: seq<Event>) { forall i :: 0 <= i < |es| ==> start <= es[i].now }

  /** A use reads the clock within `lag` of reading the row, so its reading may be that much ahead of later ones. */
  predicate ClockWithin(es: seq<Event>, lag: int) {
    forall i, j :: 0 <= i < j < |es| ==> Within(es[i].now, es[j].now, lag)
  }

  predicate Within(t: int, u: int, lag: int) { t <= u + lag }

  predicate AcceptedUse(start: int, es: seq<Event>, i: nat)
    requires i < |es|
  {
    es[i].Use? && Accepts(ExpiresAt(Exec(start, es[..i])), es[i].now)
  }

  predicate ExtendingUse(start: int, es: seq<Event>, i: nat)
    requires i < |es|
  {
    es[i].Use? && Extends(ExpiresAt(Exec(start, es[..i])), es[i].now)
  }

  lemma ExecNext(start: int, es: seq<Event>, n: nat)
    requires n < |es|
    ensures Exec(start, es[..n + 1]) == Do(Exec(start, es[..n]), es[n])
  {
    assert es[..n + 1][..n] == es[..n];
  }

  /** A use by itself is its read and, if it extends, its write. */
  lemma UseIsItsSteps(origin: int, now: int)
    ensures var after := Do(Do(State(origin, []), Use(now)), Land(now, 0));
            after.pending == [] && ExpiresAt(after) == Used(origin + SESSION_TTL, now)
  {
    assert ([] + [now])[0] == now;
  }

  /** What is in force or pending was written by a use that has happened. */
  lemma {:induction false} OriginIsPast(start: int, es: seq<Event>, n: nat, last: int)
    requires n <= |es| && start <= last
    requires forall k :: 0 <= k < n && es[k].Use? ==> es[k].now <= last
    ensures var s := Exec(start, es[..n]);
            s.origin <= last && forall p :: 0 <= p < |s.pending| ==> s.pending[p] <= last
  {
    if n > 0 {
      OriginIsPast(start, es, n - 1, last);
      ExecNext(start, es, n - 1);
    }
  }

  lemma {:induction false} OriginIsSince(start: int, es: seq<Event>, n: nat)
    requires Since(start, es) && n <= |es|
    ensures var s := Exec(start, es[..n]);
            start <= s.origin && forall p :: 0 <= p < |s.pending| ==> start <= s.pending[p]
  {
    if n > 0 {
      OriginIsSince(start, es, n - 1);
      ExecNext(start, es, n - 1);
    }
  }

  /** A use more than 30 days after all the uses before it is rejected, whatever lands when. */
  lemma LongGapDies(start: int, es: seq<Event>, n: nat, last: int)
    requires n < |es| && start <= last
    requires forall k :: 0 <= k < n && es[k].Use? ==> es[k].now <= last
    requires es[n].now - last > SESSION_TTL
    ensures !AcceptedUse(start, es, n)
  {
    OriginIsPast(start, es, n, last);
  }

  // ---- Two extensions within a day ----

  /**
   An accepted use within 24 hours of an extension extends again if and only if the write in force at
   its read is more than 24 hours old; that is then the write of a use before the first of the two.
   */
  lemma SecondExtensionIff(start: int, es: seq<Event>, i: nat, j: nat)
    requires i < j < |es| && ExtendingUse(start, es, i) && AcceptedUse(start, es, j)
    requires es[j].now - es[i].now <= SLIDING_INTERVAL
    ensures ExtendingUse(start, es, j) <==> Exec(start, es[..j]).origin < es[j].now - SLIDING_INTERVAL
    ensures ExtendingUse(start, es, j) ==> Exec(start, es[..j]).origin < es[i].now
  {
  }

  lemma {:induction false} StaysInForce(start: int, es: seq<Event>, k: nat, j: nat, since: int)
    requires k < j <= |es| && es[k].Land? && es[k].i < |Exec(start, es[..k]).pending|
    requires forall l :: k <= l < j && es[l].Land? && es[l].i < |Exec(start, es[..l]).pending| ==>
               Exec(start, es[..l]).pending[es[l].i] >= since
    ensures Exec(start, es[..j]).origin >= since
  {
    ExecNext(start, es, j - 1);
    if j > k + 1 { StaysInForce(start, es, k, j - 1, since); }
  }

  /**
   Once the write of an extension has landed, and none of an earlier use has landed after it, the next
   extension is more than 24 hours after it.
   */
  lemma ExtensionsApart(start: int, es: seq<Event>, i: nat, k: nat, j: nat)
    requires i < k < j < |es| && ExtendingUse(start, es, i) && ExtendingUse(start, es, j)
    requires es[k].Land? && es[k].i < |Exec(start, es[..k]).pending|
    requires forall l :: k <= l < j && es[l].Land? && es[l].i < |Exec(start, es[..l]).pending| ==>
               Exec(start, es[..l]).pending[es[l].i] >= es[i].now
    ensures es[j].now - es[i].now > SLIDING_INTERVAL
  {
    StaysInForce(start, es, k, j, es[i].now);
  }

  /** Two uses that overlap can extend at one instant. */
  lemma TwoExtensionsAtOnce(start: int)
    ensures var t := start + SLIDING_INTERVAL + 1;
            var es := [Use(t), Use(t)];
            Since(start, es) && ClockWithin(es, 0) && ExtendingUse(start, es, 0) && ExtendingUse(start, es, 1)
  {
    var t := start + SLIDING_INTERVAL + 1;
    var es := [Use(t), Use(t)];
    assert es[..0] == [] && es[..1] == [Use(t)] && [Use(t)][..0] == [];
    assert Exec(start, [Use(t)]) == Do(Exec(start, []), Use(t));
  }

  // ---- Rejected and revived ----

  lemma {:induction false} NothingLanded(start: int, es: seq<Event>, i: nat, j: nat)
    requires i <= j <= |es|
    requires forall k :: i <= k < j && es[k].Land? ==> es[k].i >= |Exec(start, es[..k]).pending|
    ensures Exec(start, es[..j]).origin == Exec(start, es[..i]).origin
  {
    if i < j {
      NothingLanded(start, es, i, j - 1);
      ExecNext(start, es, j - 1);
    }
  }

  /**
   A use after a rejected one is accepted if and only if the write in force is of its last 30 days, and
   then, unless its clock reading is the earlier one, a write has landed in between.
   */
  lemma RevivedOnlyByLanding(start: int, es: seq<Event>, i: nat, j: nat)
    requires i < j < |es| && es[i].Use? && !AcceptedUse(start, es, i) && es[j].Use?
    ensures AcceptedUse(start, es, j) <==> Exec(start, es[..j]).origin >= es[j].now - SESSION_TTL
    ensures AcceptedUse(start, es, j) && es[i].now <= es[j].now ==>
              exists k :: i < k < j && es[k].Land? && es[k].i < |Exec(start, es[..k]).pending|
  {
    if AcceptedUse(start, es, j) && es[i].now <= es[j].now && forall k :: i < k < j && es[k].Land? ==> es[k].i >= |Exec(start, es[..k]).pending| {
      NothingLanded(start, es, i, j);
    }
  }

  /** An extension that lands late brings a session back after it was rejected. */
  lemma LateLandingRevives(start: int)
    ensures var t := start + SLIDING_INTERVAL + 1;
            var late := start + SESSION_TTL + 1;
            var es := [Use(t), Use(late), Land(late, 0), Use(late)];
            && Since(start, es) && ClockWithin(es, 0)
            && AcceptedUse(start, es, 0) && !AcceptedUse(start, es, 1) && AcceptedUse(start, es, 3)
  {
    var t := start + SLIDING_INTERVAL + 1;
    var late := start + SESSION_TTL + 1;
    var es := [Use(t), Use(late), Land(late, 0), Use(late)];
    assert es[..0] == [] && Exec(start, es[..0]) == State(start, []);
    ExecNext(start, es, 0);
    assert Exec(start, es[..1]) == State(start, [t]);
    ExecNext(start, es, 1);
    ExecNext(start, es, 2);
    assert Exec(start, es[..3]).origin == t;
  }

  // ---- Frequent use ----

  /** Every write lands within `delay` of the use that decided it. */
  predicate LandsWithin(start: int, es: seq<Event>, delay: int) {
    forall n :: 0 <= n < |es| ==> OnTime(start, es, delay, n)
  }

  predicate OnTime(start: int, es: seq<Event>, delay: int, n: nat)
    requires n < |es|
  {
    NoneOverdue(Exec(start, es[..n]), es[n].now, delay)
  }

  predicate NoneOverdue(s: State, now: int, delay: int) {
    forall p :: 0 <= p < |s.pending| ==> now - s.pending[p] <= delay
  }

  /** The use before step `n`, or -1 for the start. */
  function PriorUse(es: seq<Event>, n: nat): (j: int)
    requires n <= |es|
    ensures -1 <= j < n && (j >= 0 ==> es[j].Use?)
  {
    if n == 0 then -1 else if es[n - 1].Use? then n - 1 else PriorUse(es, n - 1)
  }

  function TimeOf(start: int, es: seq<Event>, j: int): int
    requires -1 <= j < |es|
  {
    if j < 0 then start else es[j].now
  }

  predicate UsedEvery(start: int, es: seq<Event>, gap: int) {
    forall n :: 0 <= n < |es| ==> SoonAfter(start, es, gap, n)
  }

  predicate SoonAfter(start: int, es: seq<Event>, gap: int, n: nat)
    requires n < |es|
  {
    es[n].Use? ==> es[n].now - TimeOf(start, es, PriorUse(es, n)) <= gap
  }

  /** The expiry in force is at most a day short of the use, or the use's own write has still to land. */
  predicate Covered(s: State, t: int) { s.origin >= t - SLIDING_INTERVAL || t in s.pending }

  lemma CoveredStep(s: State, e: Event, t: int, delay: int, lag: int)
    requires Covered(s, t) && t <= e.now + lag && delay + lag <= SLIDING_INTERVAL
    requires NoneOverdue(s, e.now, delay)
    ensures Covered(Do(s, e), t)
  {
    if e.Use? || e.i >= |s.pending| {
      if t in s.pending { assert t in Do(s, e).pending; }
    } else {
      assert Do(s, e).origin >= t - SLIDING_INTERVAL;
    }
  }

  lemma UseCovered(s: State, now: int)
    requires Accepts(ExpiresAt(s), now)
    ensures Covered(Do(s, Use(now)), now)
  {
    if Extends(ExpiresAt(s), now) { assert (s.pending + [now])[|s.pending|] == now; }
  }

  /** Writes land within `delay` and clocks are read within `lag`, together at most a day. */
  predicate Prompt(start: int, es: seq<Event>, delay: int, lag: int) {
    && 0 <= delay && 0 <= lag && delay + lag <= SLIDING_INTERVAL
    && Since(start, es) && ClockWithin(es, lag) && LandsWithin(start, es, delay)
  }

  lemma PromptAt(start: int, es: seq<Event>, delay: int, lag: int, k: nat, n: nat)
    requires Prompt(start, es, delay, lag) && k < n < |es|
    ensures delay + lag <= SLIDING_INTERVAL && es[k].now <= es[n].now + lag
    ensures NoneOverdue(Exec(start, es[..n]), es[n].now, delay)
  {
    assert OnTime(start, es, delay, n) && Within(es[k].now, es[n].now, lag);
  }

  lemma CoveredNext(start: int, es: seq<Event>, delay: int, lag: int, t: int, n: nat)
    requires n < |es| && Covered(Exec(start, es[..n]), t)
    requires delay + lag <= SLIDING_INTERVAL && t <= es[n].now + lag
    requires NoneOverdue(Exec(start, es[..n]), es[n].now, delay)
    ensures Covered(Exec(start, es[..n + 1]), t)
  {
    ExecNext(start, es, n);
    CoveredStep(Exec(start, es[..n]), es[n], t, delay, lag);
  }

  lemma CoveredFirst(start: int, es: seq<Event>, k: nat)
    requires k < |es| && AcceptedUse(start, es, k)
    ensures Covered(Exec(start, es[..k + 1]), es[k].now)
  {
    ExecNext(start, es, k);
    UseCovered(Exec(start, es[..k]), es[k].now);
  }

  lemma {:induction false} UsesCovered(start: int, es: seq<Event>, delay: int, lag: int, n: nat, k: nat)
    requires Prompt(start, es, delay, lag)
    requires k < n <= |es| && AcceptedUse(start, es, k)
    ensures Covered(Exec(start, es[..n]), es[k].now)
  {
    if n == k + 1 {
      CoveredFirst(start, es, k);
    } else {
      UsesCovered(start, es, delay, lag, n - 1, k);
      PromptAt(start, es, delay, lag, k, n - 1);
      CoveredNext(start, es, delay, lag, es[k].now, n - 1);
    }
  }

  predicate AllAccepted(start: int, es: seq<Event>, n: nat)
    requires n <= |es|
  {
    forall j {:trigger AcceptedUse(start, es, j)} :: 0 <= j < n && es[j].Use? ==> AcceptedUse(start, es, j)
  }

  /** Going back from `k`, which is `n` or a use whose write has still to land, to a use that is covered. */
  lemma {:induction false} OriginIsRecent(start: int, es: seq<Event>, delay: int, lag: int, n: nat, k: nat)
    requires Prompt(start, es, delay, lag)
    requires UsedEvery(start, es, SESSION_TTL - SLIDING_INTERVAL - delay)
    requires k <= n < |es| && es[k].Use? && es[n].now - es[k].now <= delay
    requires AllAccepted(start, es, n)
    ensures Exec(start, es[..n]).origin >= es[n].now - SESSION_TTL
    decreases k
  {
    var j := PriorUse(es, k);
    assert SoonAfter(start, es, SESSION_TTL - SLIDING_INTERVAL - delay, k);
    if j < 0 {
      OriginIsSince(start, es, n);
    } else {
      assert AcceptedUse(start, es, j);
      UsesCovered(start, es, delay, lag, n, j);
      if es[j].now in Exec(start, es[..n]).pending {
        assert OnTime(start, es, delay, n);
        OriginIsRecent(start, es, delay, lag, n, j);
      }
    }
  }

  /**
   When every write lands within `delay` and every clock is read within `lag`, together at most a day, uses
   at most 29 days less `delay` apart are all accepted for as long as they go on, however they overlap.
   */
  lemma {:induction false} FrequentUseLives(start: int, es: seq<Event>, delay: int, lag: int, n: nat)
    requires Prompt(start, es, delay, lag)
    requires UsedEvery(start, es, SESSION_TTL - SLIDING_INTERVAL - delay) && n <= |es|
    ensures AllAccepted(start, es, n)
  {
    if n > 0 {
      FrequentUseLives(start, es, delay, lag, n - 1);
      if es[n - 1].Use? {
        OriginIsRecent(start, es, delay, lag, n - 1, n - 1);
        assert AcceptedUse(start, es, n - 1);
      }
    }
  }

  lemma DelayedRun(t: int, u: int)
    requires SESSION_TTL - SLIDING_INTERVAL < t <= SESSION_TTL
    ensures var es := [Use(SLIDING_INTERVAL), Use(t), Use(u)];
            && Exec(0, es[..0]) == State(0, []) && Exec(0, es[..1]) == State(0, []) && Exec(0, es[..2]) == State(0, [t])
  {
    var es := [Use(SLIDING_INTERVAL), Use(t), Use(u)];
    assert es[..0] == [];
    ExecNext(0, es, 0);
    ExecNext(0, es, 1);
  }

  /** One unit more between uses, and one can be rejected while a write is on its way. */
  lemma DelayedThresholdIsExact(delay: int)
    requires 0 < delay <= SLIDING_INTERVAL
    ensures var t := SESSION_TTL - delay + 1;
            var es := [Use(SLIDING_INTERVAL), Use(t), Use(t + delay)];
            && Prompt(0, es, delay, 0)
            && UsedEvery(0, es, SESSION_TTL - SLIDING_INTERVAL - delay + 1)
            && !AcceptedUse(0, es, 2)
  {
    var t := SESSION_TTL - delay + 1;
    var es := [Use(SLIDING_INTERVAL), Use(t), Use(t + delay)];
    DelayedRun(t, t + delay);
    assert OnTime(0, es, delay, 0) && OnTime(0, es, delay, 1) && OnTime(0, es, delay, 2);
  }

  // ---- The service ----

  class Session {
    var expiresAt: int
    var revoked: bool

    constructor (now: int)
      ensures expiresAt == Started(now) && !revoked
    {
      expiresAt, revoked := now + SESSION_TTL, false;
    }

    /** `extendOk` is whether the best-effort extension reaches the table; `userActive` is CanLogin. */
    method Me(now: int, userActive: bool, extendOk: bool) returns (r: Result<(), SessionError>)
      modifies this`expiresAt
      ensures r == if revoked then Err(Revoked) else if !Accepts(old(expiresAt), now) then Err(Expired)
                   else if !userActive then Err(Inactive) else Ok(())
      ensures expiresAt == if !revoked && extendOk then Used(old(expiresAt), now) else old(expiresAt)
    {
      if revoked { return Err(Revoked); }
      if expiresAt < now { return Err(Expired); }
      if expiresAt - now < SESSION_TTL - SLIDING_INTERVAL {
        if extendOk { expiresAt := now + SESSION_TTL; }
      }
      if !userActive { return Err(Inactive); }
      r := Ok(());
    }
  }
}
