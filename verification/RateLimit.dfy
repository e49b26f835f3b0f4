/**
 The sliding-window rate limiter: per client the instants of the requests admitted in the last
 window, with idle clients evicted. It is proved to decide like a limiter that forgets nothing.
 */
module RateLimit {
  import opened Common

  const MAX_ENTRIES := 10000

  /** The instants after `cutoff`, in their order. Clients are told apart by an id for their resolved address. */
  function After(ts: seq<int>, cutoff: int): seq<int> {
    if ts == [] then []
    else After(ts[..|ts| - 1], cutoff) + (if ts[|ts| - 1] > cutoff then [ts[|ts| - 1]] else [])
  }

  ghost predicate UpTo(ts: seq<int>, hi: int) {
    Ascending(ts) && forall i :: 0 <= i < |ts| ==> ts[i] <= hi
  }

  lemma {:induction false} AfterKeeps(ts: seq<int>, cutoff: int, hi: int)
    requires UpTo(ts, hi)
    ensures UpTo(After(ts, cutoff), hi)
  {
    if ts != [] {
      AfterKeeps(ts[..|ts| - 1], cutoff, ts[|ts| - 1]);
    }
  }

  /** Filtering twice is filtering by the later cutoff. */
  lemma {:induction false} AfterAfter(ts: seq<int>, early: int, late: int)
    requires early <= late
    ensures After(After(ts, early), late) == After(ts, late)
  {
    if ts != [] {
      var init, last := ts[..|ts| - 1], ts[|ts| - 1];
      AfterAfter(init, early, late);
      if last > early {
        assert (After(init, early) + [last])[..|After(init, early)|] == After(init, early);
      } else {
        assert After(init, early) + [] == After(init, early);
      }
    }
  }

  lemma {:induction false} AfterNone(ts: seq<int>, cutoff: int)
    requires forall i :: 0 <= i < |ts| ==> ts[i] <= cutoff
    ensures After(ts, cutoff) == []
  {
    if ts != [] { AfterNone(ts[..|ts| - 1], cutoff); }
  }

  lemma AfterAppend(ts: seq<int>, t: int, cutoff: int)
    ensures After(ts + [t], cutoff) == After(ts, cutoff) + (if t > cutoff then [t] else [])
  {
    assert (ts + [t])[..|ts|] == ts;
  }

  // ---- The limiter that forgets nothing ----

  /** Every admitted instant per client. */
  type Full = map<Id, seq<int>>

  function Get(m: map<Id, seq<int>>, ip: Id): seq<int> { if ip in m then m[ip] else [] }

  /** Fewer than `limit` requests of this client were admitted within the window. */
  predicate Admits(full: Full, ip: Id, now: int, limit: int, window: int) {
    |After(Get(full, ip), now - window)| < limit
  }

  function FullStep(full: Full, ip: Id, now: int, limit: int, window: int): Full {
    if Admits(full, ip, now, limit, window) then full[ip := Get(full, ip) + [now]] else full
  }

  // ---- The limiter that prunes ----

  datatype Table = Table(requests: map<Id, seq<int>>, lastSeen: map<Id, int>)

  function Prune(t: Table, now: int, window: int): Table {
    if |t.requests| <= MAX_ENTRIES then t
    else
      var idle := Idle(t.lastSeen, now - window);
      Table(t.requests - idle, t.lastSeen - idle)
  }

  /** The clients last seen before `instant`. */
  function Idle(lastSeen: map<Id, int>, instant: int): set<Id> {
    set ip | ip in lastSeen && lastSeen[ip] < instant
  }

  /** One request: the new table and whether it is admitted. */
  function Request(t: Table, ip: Id, now: int, limit: int, window: int): (Table, bool) {
    var filtered := After(Get(t.requests, ip), now - window);
    if |filtered| >= limit then (t, false)
    else (Prune(Table(t.requests[ip := filtered + [now]], t.lastSeen[ip := now]), now, window), true)
  }

  // ---- Refinement ----

  /** From now on a client's stored list and its full history filter to the same instants. */
  ghost predicate SameFuture(stored: seq<int>, history: seq<int>, now: int, window: int) {
    forall cutoff :: cutoff >= now - window ==> After(stored, cutoff) == After(history, cutoff)
  }

  ghost predicate SoundAt(t: Table, full: Full, ip: Id, now: int, limit: int, window: int) {
    && SameFuture(Get(t.requests, ip), Get(full, ip), now, window)
    && UpTo(Get(full, ip), now)
    && (ip in t.requests <==> ip in t.lastSeen)
    && (ip in t.requests ==> 0 < |t.requests[ip]| <= limit && UpTo(t.requests[ip], t.lastSeen[ip]) && t.lastSeen[ip] <= now)
  }

  ghost predicate Sound(t: Table, full: Full, now: int, limit: int, window: int) {
    forall ip :: SoundAt(t, full, ip, now, limit, window)
  }

  /** Evicting a client idle for a window changes no later decision. */
  lemma PruneSound(t: Table, full: Full, now: int, limit: int, window: int)
    requires Sound(t, full, now, limit, window)
    ensures Sound(Prune(t, now, window), full, now, limit, window)
  {
    var p := Prune(t, now, window);
    forall ip ensures SoundAt(p, full, ip, now, limit, window) {
      assert SoundAt(t, full, ip, now, limit, window);
      if ip in t.requests && ip !in p.requests {
        forall cutoff | cutoff >= now - window ensures After(t.requests[ip], cutoff) == [] {
          AfterNone(t.requests[ip], cutoff);
        }
      }
    }
  }

  lemma AdmittedFuture(stored: seq<int>, history: seq<int>, was: int, now: int, window: int)
    requires SameFuture(stored, history, was, window) && was <= now
    ensures SameFuture(After(stored, now - window) + [now], history + [now], now, window)
  {
    forall cutoff | cutoff >= now - window
      ensures After(After(stored, now - window) + [now], cutoff) == After(history + [now], cutoff)
    {
      AfterAppend(After(stored, now - window), now, cutoff);
      AfterAppend(history, now, cutoff);
      AfterAfter(stored, now - window, cutoff);
    }
  }

  lemma UpToAppend(ts: seq<int>, now: int)
    requires UpTo(ts, now)
    ensures UpTo(ts + [now], now)
  {
  }

  lemma AdmitAt(t: Table, full: Full, ip: Id, was: int, now: int, limit: int, window: int)
    requires SoundAt(t, full, ip, was, limit, window) && was <= now && Admits(full, ip, now, limit, window)
    ensures var filtered := After(Get(t.requests, ip), now - window);
            SoundAt(Table(t.requests[ip := filtered + [now]], t.lastSeen[ip := now]),
                    full[ip := Get(full, ip) + [now]], ip, now, limit, window)
  {
    AdmittedFuture(Get(t.requests, ip), Get(full, ip), was, now, window);
    AfterKeeps(Get(t.requests, ip), now - window, now);
    UpToAppend(After(Get(t.requests, ip), now - window), now);
    UpToAppend(Get(full, ip), now);
    assert After(Get(t.requests, ip), now - window) == After(Get(full, ip), now - window);
  }

  lemma OtherAt(t: Table, full: Full, t1: Table, full1: Full, k: Id, was: int, now: int, limit: int, window: int)
    requires SoundAt(t, full, k, was, limit, window) && was <= now
    requires Get(t1.requests, k) == Get(t.requests, k) && Get(full1, k) == Get(full, k)
    requires (k in t1.requests <==> k in t.requests) && (k in t1.lastSeen <==> k in t.lastSeen)
    requires k in t.lastSeen ==> t1.lastSeen[k] == t.lastSeen[k]
    ensures SoundAt(t1, full1, k, now, limit, window)
  {
  }

  /** One request is decided alike by both limiters, and they go on agreeing. */
  lemma RequestRefines(t: Table, full: Full, ip: Id, was: int, now: int, limit: int, window: int)
    requires Sound(t, full, was, limit, window) && was <= now
    ensures Request(t, ip, now, limit, window).1 <==> Admits(full, ip, now, limit, window)
    ensures Sound(Request(t, ip, now, limit, window).0, FullStep(full, ip, now, limit, window), now, limit, window)
  {
    assert SoundAt(t, full, ip, was, limit, window);
    var filtered := After(Get(t.requests, ip), now - window);
    assert filtered == After(Get(full, ip), now - window);
    if Admits(full, ip, now, limit, window) {
      var t1 := Table(t.requests[ip := filtered + [now]], t.lastSeen[ip := now]);
      var full1 := full[ip := Get(full, ip) + [now]];
      forall k ensures SoundAt(t1, full1, k, now, limit, window) {
        assert SoundAt(t, full, k, was, limit, window);
        if k == ip { AdmitAt(t, full, ip, was, now, limit, window); }
        else { OtherAt(t, full, t1, full1, k, was, now, limit, window); }
      }
      PruneSound(t1, full1, now, limit, window);
    } else {
      forall k ensures SoundAt(t, full, k, now, limit, window) {
        assert SoundAt(t, full, k, was, limit, window);
        OtherAt(t, full, t, full, k, was, now, limit, window);
      }
    }
  }

  // ---- Whole request sequences ----

  datatype Arrival = Arrival(ip: Id, now: int)

  ghost predicate Chronological(rs: seq<Arrival>) {
    forall i, j :: 0 <= i < j < |rs| ==> rs[i].now <= rs[j].now
  }

  function RunTable(rs: seq<Arrival>, limit: int, window: int): (r: (Table, seq<bool>))
    ensures |r.1| == |rs|
  {
    if rs == [] then (Table(map[], map[]), [])
    else
      var (t, ds) := RunTable(rs[..|rs| - 1], limit, window);
      var (t', ok) := Request(t, rs[|rs| - 1].ip, rs[|rs| - 1].now, limit, window);
      (t', ds + [ok])
  }

  function RunFull(rs: seq<Arrival>, limit: int, window: int): (Full, seq<bool>) {
    if rs == [] then (map[], [])
    else
      var (full, ds) := RunFull(rs[..|rs| - 1], limit, window);
      var r := rs[|rs| - 1];
      (FullStep(full, r.ip, r.now, limit, window), ds + [Admits(full, r.ip, r.now, limit, window)])
  }

  /** The pruned table makes every decision the full history makes, on every request sequence. */
  lemma {:induction false} PruningIsInvisible(rs: seq<Arrival>, limit: int, window: int)
    requires Chronological(rs)
    ensures RunTable(rs, limit, window).1 == RunFull(rs, limit, window).1
    ensures rs != [] ==> Sound(RunTable(rs, limit, window).0, RunFull(rs, limit, window).0, rs[|rs| - 1].now, limit, window)
  {
    if rs != [] {
      var init := rs[..|rs| - 1];
      PruningIsInvisible(init, limit, window);
      var (t, ds) := RunTable(init, limit, window);
      var (full, es) := RunFull(init, limit, window);
      var was := if init == [] then rs[0].now else init[|init| - 1].now;
      RequestRefines(t, full, rs[|rs| - 1].ip, was, rs[|rs| - 1].now, limit, window);
    }
  }

  // ---- The bound ----

  /** The instants of `ts` in the window that ends at `t`, both ends as the limiter counts them. */
  function Within(ts: seq<int>, t: int, window: int): nat {
    if ts == [] then 0
    else Within(ts[..|ts| - 1], t, window) + (if t - window < ts[|ts| - 1] <= t then 1 else 0)
  }

  /** Each instant was added when fewer than `limit` earlier ones were in its window. */
  predicate Paced(ts: seq<int>, limit: int, window: int) {
    ts == [] || (Paced(ts[..|ts| - 1], limit, window) && |After(ts[..|ts| - 1], ts[|ts| - 1] - window)| < limit)
  }

  lemma {:induction false} WithinAfter(ts: seq<int>, t: int, window: int, cutoff: int)
    requires cutoff <= t - window
    ensures Within(ts, t, window) <= |After(ts, cutoff)|
  {
    if ts != [] { WithinAfter(ts[..|ts| - 1], t, window, cutoff); }
  }

  lemma {:induction false} PacedBound(ts: seq<int>, t: int, limit: int, window: int)
    requires Paced(ts, limit, window) && limit >= 0
    ensures Within(ts, t, window) <= limit
  {
    if ts != [] {
      var init, last := ts[..|ts| - 1], ts[|ts| - 1];
      PacedBound(init, t, limit, window);
      if t - window < last <= t {
        WithinAfter(init, t, window, last - window);
      }
    }
  }

  lemma PacedAppend(ts: seq<int>, t: int, limit: int, window: int)
    requires Paced(ts, limit, window) && |After(ts, t - window)| < limit
    ensures Paced(ts + [t], limit, window)
  {
    assert (ts + [t])[..|ts|] == ts;
  }

  lemma {:induction false} RunPaced(rs: seq<Arrival>, ip: Id, limit: int, window: int)
    ensures Paced(Get(RunFull(rs, limit, window).0, ip), limit, window)
  {
    if rs != [] {
      var before, r := RunFull(rs[..|rs| - 1], limit, window).0, rs[|rs| - 1];
      RunPaced(rs[..|rs| - 1], ip, limit, window);
      if r.ip == ip && Admits(before, ip, r.now, limit, window) {
        PacedAppend(Get(before, ip), r.now, limit, window);
      }
    }
  }

  /** The instants at which a client's requests were admitted, given the decisions. */
  function Admitted(rs: seq<Arrival>, ds: seq<bool>, ip: Id): seq<int>
    requires |ds| == |rs|
  {
    if rs == [] then []
    else
      var n := |rs| - 1;
      Admitted(rs[..n], ds[..n], ip) + (if rs[n].ip == ip && ds[n] then [rs[n].now] else [])
  }

  lemma {:induction false} HistoryIsAdmitted(rs: seq<Arrival>, ip: Id, limit: int, window: int)
    ensures |RunFull(rs, limit, window).1| == |rs|
    ensures Get(RunFull(rs, limit, window).0, ip) == Admitted(rs, RunFull(rs, limit, window).1, ip)
  {
    if rs != [] {
      var n := |rs| - 1;
      HistoryIsAdmitted(rs[..n], ip, limit, window);
      assert RunFull(rs, limit, window).1[..n] == RunFull(rs[..n], limit, window).1;
    }
  }

  /**
   Of the requests of one client that the pruning limiter admits, at most `limit` fall in any window,
   wherever it ends; and the list kept for the client is in order and no longer than that.
   */
  lemma SlidingWindowBound(rs: seq<Arrival>, ip: Id, t: int, limit: int, window: int)
    requires Chronological(rs) && limit >= 0
    ensures var (table, decisions) := RunTable(rs, limit, window);
            && Within(Admitted(rs, decisions, ip), t, window) <= limit
            && |Get(table.requests, ip)| <= limit && Ascending(Get(table.requests, ip))
  {
    RunPaced(rs, ip, limit, window);
    PruningIsInvisible(rs, limit, window);
    HistoryIsAdmitted(rs, ip, limit, window);
    PacedBound(Get(RunFull(rs, limit, window).0, ip), t, limit, window);
    if rs != [] {
      assert SoundAt(RunTable(rs, limit, window).0, RunFull(rs, limit, window).0, ip, rs[|rs| - 1].now, limit, window);
    }
  }

  // ---- Who is admitted ----

  lemma {:induction false} WithinIsAfter(ts: seq<int>, t: int, window: int)
    requires forall i :: 0 <= i < |ts| ==> ts[i] <= t
    ensures Within(ts, t, window) == |After(ts, t - window)|
  {
    if ts != [] { WithinIsAfter(ts[..|ts| - 1], t, window); }
  }

  /** Decisions do not depend on later requests. */
  lemma {:induction false} DecisionsPrefix(rs: seq<Arrival>, k: nat, limit: int, window: int)
    requires k <= |rs|
    ensures RunTable(rs, limit, window).1[..k] == RunTable(rs[..k], limit, window).1
    decreases |rs|
  {
    if k < |rs| {
      assert rs[..|rs| - 1][..k] == rs[..k];
      DecisionsPrefix(rs[..|rs| - 1], k, limit, window);
    } else {
      if rs != [] { DecisionsPrefix(rs[..|rs| - 1], 0, limit, window); }
      assert rs[..k] == rs;
    }
  }

  /** Admitted instants come from earlier requests, so none is in the future. */
  lemma {:induction false} AdmittedUpTo(rs: seq<Arrival>, ds: seq<bool>, ip: Id, now: int)
    requires |ds| == |rs| && forall i :: 0 <= i < |rs| ==> rs[i].now <= now
    ensures forall i :: 0 <= i < |Admitted(rs, ds, ip)| ==> Admitted(rs, ds, ip)[i] <= now
  {
    if rs != [] { AdmittedUpTo(rs[..|rs| - 1], ds[..|rs| - 1], ip, now); }
  }

  /** The limiter that forgets nothing, after the requests `rs` and at a moment not before them. */
  lemma FullAdmits(rs: seq<Arrival>, ip: Id, now: int, limit: int, window: int)
    requires forall i :: 0 <= i < |rs| ==> rs[i].now <= now
    ensures var (full, ds) := RunFull(rs, limit, window);
            |ds| == |rs| && (Admits(full, ip, now, limit, window) <==> Within(Admitted(rs, ds, ip), now, window) < limit)
  {
    var (full, ds) := RunFull(rs, limit, window);
    HistoryIsAdmitted(rs, ip, limit, window);
    AdmittedUpTo(rs, ds, ip, now);
    WithinIsAfter(Admitted(rs, ds, ip), now, window);
  }

  lemma ChronologicalPrefix(rs: seq<Arrival>, k: nat)
    requires Chronological(rs) && k <= |rs|
    ensures Chronological(rs[..k])
  {
  }

  lemma LastDecision(rs: seq<Arrival>, limit: int, window: int)
    requires Chronological(rs) && rs != []
    ensures var n := |rs| - 1;
            var ds := RunTable(rs[..n], limit, window).1;
            RunTable(rs, limit, window).1[n] <==> Within(Admitted(rs[..n], ds, rs[n].ip), rs[n].now, window) < limit
  {
    ChronologicalPrefix(rs, |rs| - 1);
    PruningIsInvisible(rs[..|rs| - 1], limit, window);
    PruningIsInvisible(rs, limit, window);
    FullAdmits(rs[..|rs| - 1], rs[|rs| - 1].ip, rs[|rs| - 1].now, limit, window);
  }

  /**
   The limiter, exactly: on every sequence of requests in the order of time, a request is admitted by the pruning
   limiter if and only if fewer than `limit` of its client's earlier requests were admitted within the window.
   */
  lemma AdmittedIff(rs: seq<Arrival>, k: nat, limit: int, window: int)
    requires Chronological(rs) && k < |rs|
    ensures var ds := RunTable(rs, limit, window).1;
            ds[k] <==> Within(Admitted(rs[..k], ds[..k], rs[k].ip), rs[k].now, window) < limit
  {
    var upto := rs[..k + 1];
    DecisionsPrefix(rs, k, limit, window);
    DecisionsPrefix(rs, k + 1, limit, window);
    ChronologicalPrefix(rs, k + 1);
    LastDecision(upto, limit, window);
    assert upto[..k] == rs[..k] && upto[k] == rs[k];
  }

  // ---- What is kept ----

  /** Each client's entry is as old as its last admitted request. */
  lemma {:induction false} LastSeenIsAdmitted(rs: seq<Arrival>, ip: Id, limit: int, window: int)
    requires ip in RunTable(rs, limit, window).0.lastSeen
    ensures var seen := Admitted(rs, RunTable(rs, limit, window).1, ip);
            seen != [] && seen[|seen| - 1] == RunTable(rs, limit, window).0.lastSeen[ip]
  {
    var n := |rs| - 1;
    var before, r := RunTable(rs[..n], limit, window), rs[n];
    DecisionsPrefix(rs, n, limit, window);
    if ip in before.0.lastSeen { LastSeenIsAdmitted(rs[..n], ip, limit, window); }
  }

  /**
   What the eviction is for: after an admitted request the table has at most 10000 clients, or each of
   them was last admitted within the window.
   */
  lemma TableStaysSmall(rs: seq<Arrival>, ip: Id, limit: int, window: int)
    requires Chronological(rs) && rs != [] && RunTable(rs, limit, window).1[|rs| - 1]
    requires |RunTable(rs, limit, window).0.requests| > 10000 && ip in RunTable(rs, limit, window).0.requests
    ensures var seen := Admitted(rs, RunTable(rs, limit, window).1, ip);
            seen != [] && seen[|seen| - 1] >= rs[|rs| - 1].now - window
  {
    var n := |rs| - 1;
    var t := RunTable(rs, limit, window).0;
    PruningIsInvisible(rs, limit, window);
    assert SoundAt(t, RunFull(rs, limit, window).0, ip, rs[n].now, limit, window);
    LastSeenIsAdmitted(rs, ip, limit, window);
  }

  // ---- The middleware ----

  class RateLimiter {
    var requests: map<Id, seq<int>>
    var lastSeen: map<Id, int>
    const limit: int
    const window: int

    constructor (limit: int, window: int)
      ensures requests == map[] && lastSeen == map[] && this.limit == limit && this.window == window
    {
      requests, lastSeen := map[], map[];
      this.limit, this.window := limit, window;
    }

    /** The filter loop of the middleware. */
    static method Recent(times: seq<int>, cutoff: int) returns (filtered: seq<int>)
      ensures filtered == After(times, cutoff)
    {
      filtered := [];
      for i := 0 to |times|
        invariant filtered == After(times[..i], cutoff)
      {
        assert times[..i + 1][..i] == times[..i];
        if times[i] > cutoff { filtered := filtered + [times[i]]; }
      }
      assert times[..|times|] == times;
    }

    /** `ip` is the resolved client address. Under the mutex, `now` does not go back. */
    method Middleware(ip: Id, now: int) returns (admitted: bool)
      modifies this
      ensures (Table(requests, lastSeen), admitted) == Request(old(Table(requests, lastSeen)), ip, now, limit, window)
    {
      var cutoff := now - window;
      var times := if ip in requests then requests[ip] else [];
      var filtered := Recent(times, cutoff);
      if |filtered| >= limit { return false; }
      filtered := filtered + [now];
      requests := requests[ip := filtered];
      lastSeen := lastSeen[ip := now];
      MaybePrune(now);
      admitted := true;
    }

    method MaybePrune(now: int)
      modifies this
      ensures Table(requests, lastSeen) == Prune(old(Table(requests, lastSeen)), now, window)
      ensures |old(requests)| <= 10000 ==> requests == old(requests) && lastSeen == old(lastSeen)
      ensures |old(requests)| > 10000 ==>
                forall ip :: ip in lastSeen <==> ip in old(lastSeen) && old(lastSeen)[ip] >= now - window
    {
      if |requests| <= MAX_ENTRIES { return; }
      EvictIdle(now - window);
    }

    /** The loop of maybePrune, in whatever order the clients come. */
    method EvictIdle(idleBefore: int)
      modifies this
      ensures requests == old(requests) - Idle(old(lastSeen), idleBefore)
      ensures lastSeen == old(lastSeen) - Idle(old(lastSeen), idleBefore)
      ensures forall ip :: ip in lastSeen <==> ip in old(lastSeen) && old(lastSeen)[ip] >= idleBefore
    {
      var todo := lastSeen.Keys;
      ghost var was, seen := requests, lastSeen;
      ghost var idle := Idle(seen, idleBefore);
      assert was - (idle - todo) == was && seen - (idle - todo) == seen;
      while todo != {}
        invariant todo <= seen.Keys
        invariant requests == was - (idle - todo) && lastSeen == seen - (idle - todo)
        decreases todo
      {
        var ip :| ip in todo;
        EvictOne(was, idle, todo, ip);
        EvictOne(seen, idle, todo, ip);
        if lastSeen[ip] < idleBefore {
          requests, lastSeen := requests - {ip}, lastSeen - {ip};
        }
        todo := todo - {ip};
      }
      assert idle - todo == idle;
    }
  }

  /** Evicting one more idle client, or passing over one that is not idle. */
  lemma EvictOne<V>(m: map<Id, V>, idle: set<Id>, todo: set<Id>, ip: Id)
    requires ip in todo
    ensures m - (idle - (todo - {ip})) == if ip in idle then (m - (idle - todo)) - {ip} else m - (idle - todo)
  {
    assert idle - (todo - {ip}) == (idle - todo) + (if ip in idle then {ip} else {});
  }
}
