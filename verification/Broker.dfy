/**
 The live-event hub: every stream has a bounded channel, publishers never block, and a full channel
 loses its oldest events. A delivery is up to three separate channel operations, and the reader and
 other publishers can act between any two of them.
 */
module Broker {
  import opened Common

  const SUB_BUFFER := 32

  datatype Event = Event(kind: string, recipient: Id, conversation: string, message: string, at: int)

  // ---- One channel, operation by operation ----

  /** Where a publisher stands after its first send found the channel full. */
  datatype Phase = Overflow(ev: Event) | Cleared(ev: Event)

  /**
   `queue` is the channel. The other fields are its history: events whose delivery began, events the
   channel took, events the stream read, how many were dropped as oldest, events refused for good.
   */
  datatype State = State(queue: seq<Event>, busy: map<Id, Phase>,
                         published: seq<Event>, accepted: seq<Event>, taken: seq<Event>, dropped: nat, lost: seq<Event>)

  datatype Step = Send(p: Id, ev: Event) | Drop(p: Id) | Resend(p: Id) | Read

  const SUBSCRIBED := State([], map[], [], [], [], 0, [])

  function Push(s: State, ev: Event): State { s.(queue := s.queue + [ev], accepted := s.accepted + [ev]) }

  predicate Full(s: State) { |s.queue| >= SUB_BUFFER }

  /** A step that is not its actor's next one changes nothing. */
  function Do(s: State, e: Step): State {
    match e
    case Send(p, ev) =>
      if p in s.busy then s
      else
        var s1 := s.(published := s.published + [ev]);
        if Full(s) then s1.(busy := s.busy[p := Overflow(ev)]) else Push(s1, ev)
    case Drop(p) =>
      if p !in s.busy || !s.busy[p].Overflow? then s
      else
        var s1 := s.(busy := s.busy[p := Cleared(s.busy[p].ev)]);
        if s.queue == [] then s1 else s1.(queue := s.queue[1..], dropped := s.dropped + 1)
    case Resend(p) =>
      if p !in s.busy || !s.busy[p].Cleared? then s
      else
        var s1 := s.(busy := s.busy - {p});
        if Full(s) then s1.(lost := s.lost + [s.busy[p].ev]) else Push(s1, s.busy[p].ev)
    case Read =>
      if s.queue == [] then s else s.(queue := s.queue[1..], taken := s.taken + [s.queue[0]])
  }

  function Exec(s: State, steps: seq<Step>): State {
    if steps == [] then s else Do(Exec(s, steps[..|steps| - 1]), steps[|steps| - 1])
  }

  function Run(steps: seq<Step>): State { Exec(SUBSCRIBED, steps) }

  // ---- Any number of publishers ----

  /** `a` is what is left of `b` after deleting some of its events: order is kept. */
  predicate InOrder(a: seq<Event>, b: seq<Event>) {
    if a == [] then true
    else if b == [] then false
    else
      || (a[|a| - 1] == b[|b| - 1] && InOrder(a[..|a| - 1], b[..|b| - 1]))
      || InOrder(a, b[..|b| - 1])
  }

  lemma InOrderExtend(a: seq<Event>, b: seq<Event>, x: Event)
    requires InOrder(a, b)
    ensures InOrder(a, b + [x]) && InOrder(a + [x], b + [x])
  {
    assert (a + [x])[..|a|] == a && (b + [x])[..|b|] == b;
  }

  /** First in, first out: what waits is the tail of what came, and what was read is in order before it. */
  ghost predicate Fifo(queue: seq<Event>, accepted: seq<Event>, taken: seq<Event>, dropped: nat) {
    && |queue| <= 32 && |queue| <= |accepted|
    && (var gone := |accepted| - |queue|;
        && queue == accepted[gone..]
        && InOrder(taken, accepted[..gone])
        && gone == |taken| + dropped
        && (dropped == 0 ==> taken == accepted[..gone]))
  }

  ghost predicate Inv(s: State) {
    && Fifo(s.queue, s.accepted, s.taken, s.dropped)
    && Counted(s)
  }

  lemma FifoPush(queue: seq<Event>, accepted: seq<Event>, taken: seq<Event>, dropped: nat, ev: Event)
    requires Fifo(queue, accepted, taken, dropped) && |queue| < SUB_BUFFER
    ensures Fifo(queue + [ev], accepted + [ev], taken, dropped)
  {
    var gone := |accepted| - |queue|;
    assert (accepted + [ev])[..gone] == accepted[..gone];
  }

  /** Taking the head off the channel, to read it or to make room. */
  lemma FifoPop(queue: seq<Event>, accepted: seq<Event>, taken: seq<Event>, dropped: nat)
    requires Fifo(queue, accepted, taken, dropped) && queue != []
    ensures Fifo(queue[1..], accepted, taken, dropped + 1)
    ensures Fifo(queue[1..], accepted, taken + [queue[0]], dropped)
  {
    var gone := |accepted| - |queue|;
    assert accepted[..gone + 1] == accepted[..gone] + [queue[0]];
    InOrderExtend(taken, accepted[..gone], queue[0]);
  }

  /** The bookkeeping of publishers under way. */
  lemma BusyCount(busy: map<Id, Phase>, p: Id, ph: Phase)
    ensures |busy[p := ph]| == |busy| + (if p in busy then 0 else 1)
    ensures p in busy ==> |busy - {p}| == |busy| - 1
  {
    assert busy[p := ph].Keys == busy.Keys + {p};
    assert (busy - {p}).Keys == busy.Keys - {p};
    assert |busy[p := ph].Keys| == |busy[p := ph]| && |(busy - {p}).Keys| == |busy - {p}| && |busy.Keys| == |busy|;
  }

  lemma StepFifo(s: State, e: Step)
    requires Fifo(s.queue, s.accepted, s.taken, s.dropped)
    ensures var t := Do(s, e); Fifo(t.queue, t.accepted, t.taken, t.dropped)
  {
    match e
    case Send(p, ev) =>
      if !Full(s) { FifoPush(s.queue, s.accepted, s.taken, s.dropped, ev); }
    case Resend(p) =>
      if p in s.busy && !Full(s) { FifoPush(s.queue, s.accepted, s.taken, s.dropped, s.busy[p].ev); }
    case _ =>
      if s.queue != [] { FifoPop(s.queue, s.accepted, s.taken, s.dropped); }
  }

  predicate Counted(s: State) { |s.published| == |s.accepted| + |s.lost| + |s.busy| }

  lemma StepCounted(s: State, e: Step)
    requires Counted(s)
    ensures Counted(Do(s, e))
  {
    match e
    case Send(p, ev) => BusyCount(s.busy, p, Overflow(ev));
    case Drop(p) => if p in s.busy { BusyCount(s.busy, p, Cleared(s.busy[p].ev)); }
    case Resend(p) => if p in s.busy { BusyCount(s.busy, p, s.busy[p]); }
    case Read =>
  }

  /**
   Under every interleaving of any number of publishers with the reader: at most 32 events wait, they
   are the newest the channel took, in order and without a gap; what the stream has read is in that
   order too, and is everything before them exactly when nothing was dropped; and every delivery begun is
   taken, refused or still under way.
   */
  lemma {:induction false} QueueIsSuffix(steps: seq<Step>)
    ensures Inv(Run(steps))
    ensures var s := Run(steps); s.taken + s.queue == s.accepted <==> s.dropped == 0
  {
    if steps != [] {
      QueueIsSuffix(steps[..|steps| - 1]);
      StepFifo(Run(steps[..|steps| - 1]), steps[|steps| - 1]);
      StepCounted(Run(steps[..|steps| - 1]), steps[|steps| - 1]);
    }
    var s := Run(steps);
    var gone := |s.accepted| - |s.queue|;
    assert s.accepted == s.accepted[..gone] + s.queue;
    assert |s.taken + s.queue| == |s.accepted| - s.dropped;
  }

  // ---- One publisher ----

  predicate Alone(steps: seq<Step>, p: Id) {
    forall i :: 0 <= i < |steps| ==> steps[i] == Read || steps[i].p == p
  }

  function Pending(s: State, p: Id): seq<Event> { if p in s.busy then [s.busy[p].ev] else [] }

  function Last(es: seq<Event>): Option<Event> { if es == [] then None else Some(es[|es| - 1]) }

  /** The newest accepted event waits in the channel or is the last one read. */
  predicate NewestKept(s: State) {
    Last(if s.queue != [] then s.queue else s.taken) == Last(s.accepted)
  }

  ghost predicate SoloInv(s: State, p: Id) {
    && s.busy.Keys <= {p}
    && s.lost == []
    && s.published == s.accepted + Pending(s, p)
    && (p in s.busy && s.busy[p].Cleared? ==> !Full(s))
    && (p !in s.busy || s.busy[p].Overflow? ==> NewestKept(s))
  }

  lemma SoloStep(s: State, e: Step, p: Id)
    requires Inv(s) && SoloInv(s, p) && (e == Read || e.p == p)
    ensures SoloInv(Do(s, e), p)
  {
    var t := Do(s, e);
    match e
    case Resend(_) =>
      if p in s.busy && s.busy[p].Cleared? { assert t.busy.Keys == {}; }
    case Read =>
      if s.queue != [] && t.queue == [] { assert s.queue[0] == s.accepted[|s.accepted| - 1]; }
    case _ =>
  }

  /**
   With one publisher no event is ever refused: apart from the one under way the channel takes all
   of them in publish order, and between deliveries the newest is waiting or was the last one read.
   */
  lemma {:induction false} SinglePublisherLosesNoNewest(steps: seq<Step>, p: Id)
    requires Alone(steps, p)
    ensures SoloInv(Run(steps), p)
    ensures var s := Run(steps);
            p !in s.busy ==> Last(if s.queue != [] then s.queue else s.taken) == Last(s.published)
  {
    if steps != [] {
      var init := steps[..|steps| - 1];
      SinglePublisherLosesNoNewest(init, p);
      QueueIsSuffix(init);
      SoloStep(Run(init), steps[|steps| - 1], p);
    }
    assert p !in Run(steps).busy ==> Run(steps).published == Run(steps).accepted;
  }

  // ---- Racing publishers ----

  /** The step puts an event of another publisher into the channel. */
  predicate RivalPush(s: State, e: Step, p: Id) {
    (e.Send? || e.Resend?) && e.p != p && |Do(s, e).accepted| > |s.accepted|
  }

  /** The step takes the oldest event out: a read, or another publisher making room. */
  predicate Pop(s: State, e: Step) { |Do(s, e).queue| < |s.queue| }

  function Pushes(s: State, rest: seq<Step>, p: Id): nat {
    if rest == [] then 0
    else
      Pushes(s, rest[..|rest| - 1], p)
      + (if RivalPush(Exec(s, rest[..|rest| - 1]), rest[|rest| - 1], p) then 1 else 0)
  }

  function Pops(s: State, rest: seq<Step>): nat {
    if rest == [] then 0
    else Pops(s, rest[..|rest| - 1]) + (if Pop(Exec(s, rest[..|rest| - 1]), rest[|rest| - 1]) then 1 else 0)
  }

  /** The publisher has made room for its event and has not sent it again yet. */
  predicate Waits(s: State, p: Id, ev: Event) { p in s.busy && s.busy[p] == Cleared(ev) }

  lemma BalanceStep(s: State, e: Step, p: Id, ev: Event)
    requires Waits(s, p, ev) && e != Resend(p)
    ensures Waits(Do(s, e), p, ev)
    ensures |Do(s, e).queue| == |s.queue| + (if RivalPush(s, e, p) then 1 else 0) - (if Pop(s, e) then 1 else 0)
  {
  }

  lemma {:induction false} Balance(s: State, rest: seq<Step>, p: Id, ev: Event)
    requires Waits(s, p, ev) && Resend(p) !in rest
    ensures Waits(Exec(s, rest), p, ev)
    ensures |Exec(s, rest).queue| == |s.queue| + Pushes(s, rest, p) - Pops(s, rest)
  {
    if rest != [] {
      Balance(s, rest[..|rest| - 1], p, ev);
      BalanceStep(Exec(s, rest[..|rest| - 1]), rest[|rest| - 1], p, ev);
    }
  }

  /**
   When a publisher that found the channel full comes to its second send, its event is refused if and
   only if, since it made room, rivals put in at least as many events more than were taken out as
   there were free places.
   */
  lemma RefusedIff(first: seq<Step>, rest: seq<Step>, p: Id)
    requires p in Run(first).busy && Run(first).busy[p].Overflow? && Resend(p) !in rest
    ensures var ev, s := Run(first).busy[p].ev, Do(Run(first), Drop(p));
            var t := Exec(s, rest);
            && (Do(t, Resend(p)).lost == t.lost + [ev] <==> Pushes(s, rest, p) - Pops(s, rest) >= SUB_BUFFER - |s.queue|)
            && (Do(t, Resend(p)).accepted == t.accepted + [ev] <==> Pushes(s, rest, p) - Pops(s, rest) < SUB_BUFFER - |s.queue|)
  {
    var ev, s := Run(first).busy[p].ev, Do(Run(first), Drop(p));
    Balance(s, rest, p, ev);
    assert |Exec(s, rest).lost + [ev]| == |Exec(s, rest).lost| + 1;
    assert |Exec(s, rest).accepted + [ev]| == |Exec(s, rest).accepted| + 1;
  }

  lemma {:induction false} SomePush(s: State, rest: seq<Step>, p: Id)
    requires Pushes(s, rest, p) > 0
    ensures exists i :: 0 <= i < |rest| && RivalPush(Exec(s, rest[..i]), rest[i], p)
  {
    var n := |rest| - 1;
    if !RivalPush(Exec(s, rest[..n]), rest[n], p) {
      SomePush(s, rest[..n], p);
      var i :| 0 <= i < n && RivalPush(Exec(s, rest[..n][..i]), rest[..n][i], p);
      assert rest[..n][..i] == rest[..i];
    }
  }

  /** So the second send is refused only if another publisher filled the room this one had made. */
  lemma RefusalNeedsRival(first: seq<Step>, rest: seq<Step>, p: Id)
    requires p in Run(first).busy && Run(first).busy[p].Overflow?
    requires Resend(p) !in rest
    requires Full(Exec(Do(Run(first), Drop(p)), rest))
    ensures exists i :: 0 <= i < |rest| && RivalPush(Exec(Do(Run(first), Drop(p)), rest[..i]), rest[i], p)
  {
    QueueIsSuffix(first);
    var s := Do(Run(first), Drop(p));
    Balance(s, rest, p, Run(first).busy[p].ev);
    SomePush(s, rest, p);
  }

  function Flood(p: Id, ev: Event, n: nat): (steps: seq<Step>)
    ensures |steps| == n
  {
    if n == 0 then [] else Flood(p, ev, n - 1) + [Send(p, ev)]
  }

  lemma {:induction false} FloodFills(p: Id, ev: Event, n: nat)
    requires n <= 32
    ensures var s := Run(Flood(p, ev, n)); |s.queue| == n && s.busy == map[] && s.lost == []
  {
    if n > 0 {
      FloodFills(p, ev, n - 1);
      assert Flood(p, ev, n)[..n - 1] == Flood(p, ev, n - 1);
    }
  }

  /** With two publishers and no reading, the newer of two events can be the one refused. */
  lemma TwoPublishersLoseNewest(p: Id, q: Id, earlier: Event, mine: Event, theirs: Event)
    requires p != q
    ensures var steps := Flood(p, earlier, 32) + [Send(p, mine), Drop(p), Send(q, theirs), Resend(p)];
            Run(steps).lost == [mine] && |Run(steps).queue| == 32
  {
    var f := Flood(p, earlier, SUB_BUFFER);
    FloodFills(p, earlier, SUB_BUFFER);
    var a := f + [Send(p, mine)];
    var b := a + [Drop(p)];
    var c := b + [Send(q, theirs)];
    var d := c + [Resend(p)];
    assert a[..|f|] == f && b[..|a|] == a && c[..|b|] == b && d[..|c|] == c;
    assert d == f + [Send(p, mine), Drop(p), Send(q, theirs), Resend(p)];
    assert Run(a).busy == map[p := Overflow(mine)] && Run(a).queue == Run(f).queue;
    assert Run(b).busy == map[p := Cleared(mine)] && |Run(b).queue| == SUB_BUFFER - 1;
    assert |Run(c).queue| == SUB_BUFFER && Run(c).busy == Run(b).busy;
    assert Run(d).lost == [] + [mine];
  }

  // ---- The hub ----

  type Buffer = q: seq<Event> | |q| <= SUB_BUFFER

  class Channel {
    var buffer: Buffer

    constructor ()
      ensures buffer == []
    {
      buffer := [];
    }

    method TrySend(ev: Event) returns (sent: bool)
      modifies this
      ensures sent <==> old(|buffer|) < SUB_BUFFER
      ensures buffer == if sent then old(buffer) + [ev] else old(buffer)
    {
      sent := |buffer| < SUB_BUFFER;
      if sent { buffer := buffer + [ev]; }
    }

    method TryReceive() returns (got: Option<Event>)
      modifies this
      ensures got == if old(buffer) == [] then None else Some(old(buffer)[0])
      ensures buffer == if old(buffer) == [] then [] else old(buffer)[1..]
    {
      if buffer == [] { return None; }
      got := Some(buffer[0]);
      buffer := buffer[1..];
    }
  }

  /** What an undisturbed delivery does to a channel. */
  function Delivered(q: seq<Event>, ev: Event): seq<Event> {
    (if |q| < SUB_BUFFER then q else q[1..]) + [ev]
  }

  /** The three operations run together are that delivery. */
  lemma UndisturbedDelivery(steps: seq<Step>, p: Id, ev: Event)
    requires p !in Run(steps).busy
    ensures var s := Do(Do(Do(Run(steps), Send(p, ev)), Drop(p)), Resend(p));
            && s.queue == Delivered(Run(steps).queue, ev)
            && s.busy == Run(steps).busy && s.lost == Run(steps).lost
            && s.accepted == Run(steps).accepted + [ev]
  {
    QueueIsSuffix(steps);
    var s := Do(Do(Do(Run(steps), Send(p, ev)), Drop(p)), Resend(p));
    assert s.busy == Run(steps).busy;
  }

  class Hub {
    var subs: map<Id, set<Channel>>

    /** No empty sets, and no channel belongs to two users. */
    ghost predicate Valid()
      reads this
    {
      && (forall u | u in subs :: subs[u] != {})
      && (forall u, v | u in subs && v in subs && u != v :: subs[u] !! subs[v])
    }

    ghost function StreamsOf(user: Id): set<Channel>
      reads this
    {
      if user in subs then subs[user] else {}
    }

    ghost function Pairs(): set<(Id, Channel)>
      reads this
    {
      PairsOf(subs, subs.Keys)
    }

    constructor ()
      ensures Valid() && subs == map[]
    {
      subs := map[];
    }

    method Subscribe(user: Id) returns (ch: Channel)
      requires Valid()
      modifies this
      ensures Valid() && fresh(ch) && ch.buffer == []
      ensures StreamsOf(user) == old(StreamsOf(user)) + {ch}
      ensures forall v | v != user :: StreamsOf(v) == old(StreamsOf(v))
    {
      ch := new Channel();
      if user !in subs { subs := subs[user := {}]; }
      subs := subs[user := subs[user] + {ch}];
    }

    method Cancel(user: Id, ch: Channel)
      requires Valid()
      modifies this
      ensures Valid()
      ensures StreamsOf(user) == old(StreamsOf(user)) - {ch}
      ensures forall v | v != user :: StreamsOf(v) == old(StreamsOf(v))
    {
      if user in subs {
        subs := subs[user := subs[user] - {ch}];
        if subs[user] == {} { subs := subs - {user}; }
      }
    }

    /** Every stream of the recipient gets the event, nobody else's does. */
    method LocalDeliver(ev: Event)
      requires Valid()
      modifies StreamsOf(ev.recipient)
      ensures forall c | c in StreamsOf(ev.recipient) :: c.buffer == Delivered(old(c.buffer), ev)
    {
      var chans := if ev.recipient in subs then subs[ev.recipient] else {};
      ghost var all := chans;
      while chans != {}
        invariant chans <= all == StreamsOf(ev.recipient)
        invariant forall c | c in chans :: c.buffer == old(c.buffer)
        invariant forall c | c in all - chans :: c.buffer == Delivered(old(c.buffer), ev)
        decreases chans
      {
        var ch :| ch in chans;
        chans := chans - {ch};
        var sent := ch.TrySend(ev);
        if !sent {
          var oldest := ch.TryReceive();
          sent := ch.TrySend(ev);
        }
      }
    }

    /** Counts every open stream once. */
    method Subscribers() returns (n: nat)
      requires Valid()
      ensures n == |Pairs()|
    {
      n := 0;
      var left := subs.Keys;
      while left != {}
        invariant left <= subs.Keys && n == |PairsOf(subs, subs.Keys - left)|
        decreases left
      {
        var u :| u in left;
        OneMoreUser(subs, subs.Keys - left, u);
        assert subs.Keys - (left - {u}) == subs.Keys - left + {u};
        left := left - {u};
        n := n + |subs[u]|;
      }
      assert subs.Keys - left == subs.Keys;
    }
  }

  ghost function PairsOf(subs: map<Id, set<Channel>>, users: set<Id>): set<(Id, Channel)> {
    set u, c | u in users && u in subs && c in subs[u] :: (u, c)
  }

  lemma {:induction false} RowSize(u: Id, cs: set<Channel>)
    ensures |set c | c in cs :: (u, c)| == |cs|
    decreases cs
  {
    if cs == {} {
      assert (set c | c in cs :: (u, c)) == {};
    } else {
      var c0 :| c0 in cs;
      RowSize(u, cs - {c0});
      assert (set c | c in cs :: (u, c)) == (set c | c in cs - {c0} :: (u, c)) + {(u, c0)};
    }
  }

  lemma OneMoreUser(subs: map<Id, set<Channel>>, users: set<Id>, u: Id)
    requires u in subs && u !in users
    ensures |PairsOf(subs, users + {u})| == |PairsOf(subs, users)| + |subs[u]|
  {
    RowSize(u, subs[u]);
    var row := set c | c in subs[u] :: (u, c);
    assert PairsOf(subs, users + {u}) == PairsOf(subs, users) + row;
    assert PairsOf(subs, users) !! row;
  }
}
