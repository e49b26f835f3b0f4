/** Namespacing: caches that share one store, each behind its own key prefix. */
module PrefixCache {
  import opened Common
  import opened MemoryCache

  function Key(prefix: string, k: string): string { prefix + k }

  function Keys(prefix: string, ks: seq<string>): (r: seq<string>)
    ensures |r| == |ks| && forall i :: 0 <= i < |ks| ==> r[i] == Key(prefix, ks[i])
  {
    seq(|ks|, i requires 0 <= i < |ks| => Key(prefix, ks[i]))
  }

  /** The call as the shared store sees it. */
  function Forward(prefix: string, op: Op): Op {
    match op
    case Get(k) => Get(Key(prefix, k))
    case Set(k, v, ttl) => Set(Key(prefix, k), v, ttl)
    case Del(ks) => Del(Keys(prefix, ks))
    case DelPrefix(p) => DelPrefix(Key(prefix, p))
    case Incr(k) => Incr(Key(prefix, k))
    case Exists(k) => Exists(Key(prefix, k))
    case SetNX(k, v, ttl) => SetNX(Key(prefix, k), v, ttl)
    case GetDel(k) => GetDel(Key(prefix, k))
  }

  function ForwardCall(prefix: string, call: Call): Call { call.(op := Forward(prefix, call.op)) }

  /** The store as the cache behind the prefix sees it. */
  function View(store: Store, prefix: string): Store {
    var tails := set full | full in store && prefix <= full :: full[|prefix|..];
    map k | k in tails && Key(prefix, k) in store :: store[Key(prefix, k)]
  }

  lemma InView(store: Store, prefix: string, k: string)
    ensures k in View(store, prefix) <==> Key(prefix, k) in store
    ensures k in View(store, prefix) ==> View(store, prefix)[k] == store[Key(prefix, k)]
  {
    assert Key(prefix, k)[|prefix|..] == k;
    assert prefix <= Key(prefix, k);
  }

  lemma ViewIs(store: Store, prefix: string, v: Store)
    requires forall k :: k in v <==> Key(prefix, k) in store
    requires forall k | k in v :: v[k] == store[Key(prefix, k)]
    ensures View(store, prefix) == v
  {
    forall k ensures k in View(store, prefix) <==> k in v { InView(store, prefix, k); }
    forall k | k in v ensures View(store, prefix)[k] == v[k] { InView(store, prefix, k); }
  }

  lemma KeyInjective(prefix: string, a: string, b: string)
    ensures Key(prefix, a) == Key(prefix, b) <==> a == b
    ensures Key(prefix, a) <= Key(prefix, b) <==> a <= b
  {
    assert Key(prefix, a)[|prefix|..] == a && Key(prefix, b)[|prefix|..] == b;
    if a <= b { assert b == a + b[|a|..]; assert Key(prefix, b) == Key(prefix, a) + b[|a|..]; }
    if Key(prefix, a) <= Key(prefix, b) {
      assert Key(prefix, b)[..|Key(prefix, a)|] == Key(prefix, a);
      assert Key(prefix, b)[|prefix|..][..|a|] == Key(prefix, b)[..|Key(prefix, a)|][|prefix|..];
    }
  }

  lemma KeysContain(prefix: string, ks: seq<string>, k: string)
    ensures Key(prefix, k) in Keys(prefix, ks) <==> k in ks
  {
    forall i | 0 <= i < |ks| ensures Key(prefix, ks[i]) == Key(prefix, k) <==> ks[i] == k {
      KeyInjective(prefix, ks[i], k);
    }
    if k in ks {
      var i :| 0 <= i < |ks| && ks[i] == k;
      assert Keys(prefix, ks)[i] == Key(prefix, k);
    }
  }

  lemma PrefixTransitive(a: string, b: string, c: string)
    requires a <= b <= c
    ensures a <= c
  {
  }

  lemma PrefixesNest(a: string, b: string, c: string)
    requires a <= c && b <= c
    ensures a <= b || b <= a
  {
    if |a| <= |b| { assert a == c[..|a|] == b[..|a|]; }
    else { assert b == c[..|b|] == a[..|b|]; }
  }

  // ---- One call ----

  /** Key by key, the forwarded call does to the store what the call does to the view. */
  lemma ForwardAt(store: Store, prefix: string, call: Call, k: string)
    ensures var after := Do(store, ForwardCall(prefix, call)).0;
            var mine := Do(View(store, prefix), call).0;
            && (k in mine <==> Key(prefix, k) in after)
            && (k in mine ==> mine[k] == after[Key(prefix, k)])
  {
    InView(store, prefix, k);
    match call.op
    case Del(ks) => KeysContain(prefix, ks, k);
    case DelPrefix(p) => KeyInjective(prefix, p, k);
    case Incr(_) =>
    case _ =>
      InView(store, prefix, call.op.key);
      KeyInjective(prefix, call.op.key, k);
  }

  lemma ForwardReply(store: Store, prefix: string, call: Call)
    ensures Do(store, ForwardCall(prefix, call)).1 == Do(View(store, prefix), call).1
  {
    match call.op
    case Del(_) =>
    case DelPrefix(_) =>
    case _ => InView(store, prefix, call.op.key);
  }

  /** A forwarded call answers, and changes its own view, as if that view were the whole cache. */
  lemma ForwardRefines(store: Store, prefix: string, call: Call)
    ensures var (after, reply) := Do(store, ForwardCall(prefix, call));
            (View(after, prefix), reply) == Do(View(store, prefix), call)
  {
    var after := Do(store, ForwardCall(prefix, call)).0;
    var mine := Do(View(store, prefix), call).0;
    forall k ensures (k in mine <==> Key(prefix, k) in after) && (k in mine ==> mine[k] == after[Key(prefix, k)]) {
      ForwardAt(store, prefix, call, k);
    }
    ViewIs(after, prefix, mine);
    ForwardReply(store, prefix, call);
  }

  /** Keys outside the namespace are left alone. */
  lemma ForwardFrame(store: Store, prefix: string, call: Call, full: string)
    requires !(prefix <= full)
    ensures var after := Do(store, ForwardCall(prefix, call)).0;
            && (full in after <==> full in store)
            && (full in after ==> after[full] == store[full])
  {
    match call.op
    case Del(ks) =>
      forall i | 0 <= i < |ks| ensures Keys(prefix, ks)[i] != full {}
    case DelPrefix(p) =>
      if Key(prefix, p) <= full { PrefixTransitive(prefix, Key(prefix, p), full); }
    case _ =>
  }

  // ---- Two caches ----

  predicate Apart(p: string, q: string) { !(p <= q) && !(q <= p) }

  lemma ApartKeys(p: string, q: string, k: string)
    requires Apart(p, q)
    ensures !(p <= Key(q, k))
  {
    if p <= Key(q, k) { PrefixesNest(p, q, Key(q, k)); }
  }

  lemma ForwardSpares(store: Store, p: string, q: string, call: Call)
    requires Apart(p, q)
    ensures View(Do(store, ForwardCall(p, call)).0, q) == View(store, q)
  {
    var after := Do(store, ForwardCall(p, call)).0;
    forall k
      ensures k in View(store, q) <==> Key(q, k) in after
      ensures k in View(store, q) ==> View(store, q)[k] == after[Key(q, k)]
    {
      InView(store, q, k);
      ApartKeys(p, q, k);
      ForwardFrame(store, p, call, Key(q, k));
    }
    ViewIs(after, q, View(store, q));
  }

  /** No call on the first cache can ever change what the second one holds. */
  ghost predicate Spares(p: string, q: string) {
    forall store: Store, call: Call :: View(Do(store, ForwardCall(p, call)).0, q) == View(store, q)
  }

  /** Consuming a key that is in both namespaces shows in both caches. */
  lemma SharedKeyShows(p: string, q: string, k: string, j: string)
    requires Key(p, k) == Key(q, j)
    ensures var store: Store := map[Key(q, j) := Entry("", None)];
            View(Do(store, ForwardCall(p, Call(GetDel(k), 0, 0))).0, q) != View(store, q)
  {
    var store: Store := map[Key(q, j) := Entry("", None)];
    var after := Do(store, ForwardCall(p, Call(GetDel(k), 0, 0))).0;
    assert Key(q, j) in store && Key(q, j) !in after;
    InView(store, q, j);
    InView(after, q, j);
  }

  lemma SharedKeyDisturbs(p: string, q: string, k: string, j: string)
    requires Key(p, k) == Key(q, j)
    ensures !Spares(p, q)
  {
    SharedKeyShows(p, q, k, j);
  }

  /** When one prefix begins with the other, they share a key. */
  lemma NestedDisturbs(p: string, q: string)
    requires !Apart(p, q)
    ensures !Spares(p, q)
  {
    var full := if p <= q then q else p;
    assert full == Key(p, full[|p|..]) && full == Key(q, full[|q|..]);
    SharedKeyDisturbs(p, q, full[|p|..], full[|q|..]);
  }

  /** The namespaces are separate exactly when neither prefix begins with the other. */
  lemma SeparateIff(p: string, q: string)
    ensures Spares(p, q) <==> Apart(p, q)
  {
    if Apart(p, q) {
      forall store: Store, call: Call ensures View(Do(store, ForwardCall(p, call)).0, q) == View(store, q) {
        ForwardSpares(store, p, q, call);
      }
    } else {
      NestedDisturbs(p, q);
    }
  }

  /** The two backends that may share one Redis are separate. */
  lemma BackendsAreSeparate()
    ensures Spares("pg:", "mem:") && Spares("mem:", "pg:")
  {
    assert "pg:"[0] != "mem:"[0];
    SeparateIff("pg:", "mem:");
    SeparateIff("mem:", "pg:");
  }

  // ---- Runs ----

  /** A call on the first or the second of two caches over one store. */
  datatype Tagged = First(call: Call) | Second(call: Call)

  function Shared(store: Store, p: string, q: string, ts: seq<Tagged>): (Store, seq<Reply>) {
    if ts == [] then (store, [])
    else
      var (s, rs) := Shared(store, p, q, ts[..|ts| - 1]);
      var t := ts[|ts| - 1];
      var (after, r) := Do(s, ForwardCall(if t.First? then p else q, t.call));
      (after, rs + [r])
  }

  /** Two caches with nothing in common, given the same calls. */
  function Independent(a: Store, b: Store, ts: seq<Tagged>): (Store, Store, seq<Reply>) {
    if ts == [] then (a, b, [])
    else
      var (a1, b1, rs) := Independent(a, b, ts[..|ts| - 1]);
      match ts[|ts| - 1]
      case First(call) => var (a2, r) := Do(a1, call); (a2, b1, rs + [r])
      case Second(call) => var (b2, r) := Do(b1, call); (a1, b2, rs + [r])
  }

  /**
   Two caches over one store, neither prefix beginning with the other, give on every interleaving of
   their calls the replies and contents of two independent caches.
   */
  lemma {:induction false} SharedIsIndependent(store: Store, p: string, q: string, ts: seq<Tagged>)
    requires Apart(p, q)
    ensures var (after, replies) := Shared(store, p, q, ts);
            (View(after, p), View(after, q), replies) == Independent(View(store, p), View(store, q), ts)
  {
    if ts != [] {
      SharedIsIndependent(store, p, q, ts[..|ts| - 1]);
      var s := Shared(store, p, q, ts[..|ts| - 1]).0;
      match ts[|ts| - 1]
      case First(call) =>
        ForwardRefines(s, p, call);
        ForwardSpares(s, p, q, call);
      case Second(call) =>
        ForwardRefines(s, q, call);
        ForwardSpares(s, q, p, call);
    }
  }

  // ---- The cache as an object ----

  class Namespaced {
    const inner: InMemoryCache
    const prefix: string

    constructor (c: InMemoryCache, wanted: string)
      ensures inner == c && prefix == if wanted == "" then "default:" else wanted
    {
      inner := c;
      prefix := if wanted == "" then "default:" else wanted;
    }

    function Mine(): Store
      reads inner
    {
      View(inner.store, prefix)
    }

    method GetValue(key: string, now: int) returns (r: Reply)
      modifies inner
      ensures (inner.store, r) == Do(old(inner.store), ForwardCall(prefix, Call(Get(key), now, now)))
      ensures (Mine(), r) == Do(old(Mine()), Call(Get(key), now, now))
    {
      ForwardRefines(inner.store, prefix, Call(Get(key), now, now));
      r := inner.GetValue(prefix + key, now);
    }

    method SetValue(key: string, value: string, ttl: int, now: int) returns (r: Reply)
      modifies inner
      ensures (inner.store, r) == Do(old(inner.store), ForwardCall(prefix, Call(Set(key, value, ttl), now, now)))
      ensures (Mine(), r) == Do(old(Mine()), Call(Set(key, value, ttl), now, now))
    {
      ForwardRefines(inner.store, prefix, Call(Set(key, value, ttl), now, now));
      r := inner.SetValue(prefix + key, value, ttl, now);
    }

    method Delete(keys: seq<string>) returns (r: Reply)
      modifies inner
      ensures (inner.store, r) == Do(old(inner.store), ForwardCall(prefix, Call(Del(keys), 0, 0)))
      ensures (Mine(), r) == Do(old(Mine()), Call(Del(keys), 0, 0))
    {
      ForwardRefines(inner.store, prefix, Call(Del(keys), 0, 0));
      var prefixed := new string[|keys|];
      for i := 0 to |keys|
        modifies prefixed
        invariant forall j :: 0 <= j < i ==> prefixed[j] == Key(prefix, keys[j])
      {
        prefixed[i] := prefix + keys[i];
      }
      var all := prefixed[..];
      assert all == Keys(prefix, keys);
      r := inner.Delete(all);
    }

    method DeletePrefix(p: string) returns (r: Reply)
      modifies inner
      ensures (inner.store, r) == Do(old(inner.store), ForwardCall(prefix, Call(DelPrefix(p), 0, 0)))
      ensures (Mine(), r) == Do(old(Mine()), Call(DelPrefix(p), 0, 0))
    {
      ForwardRefines(inner.store, prefix, Call(DelPrefix(p), 0, 0));
      r := inner.DeletePrefix(prefix + p);
    }

    method Increment(key: string) returns (r: Reply)
      ensures (Mine(), r) == Do(Mine(), Call(Incr(key), 0, 0))
    {
      ForwardRefines(inner.store, prefix, Call(Incr(key), 0, 0));
      r := inner.Increment(prefix + key);
      assert (inner.store, r) == Do(inner.store, Call(Incr(Key(prefix, key)), 0, 0));
    }

    method Contains(key: string) returns (r: Reply)
      ensures (Mine(), r) == Do(Mine(), Call(Exists(key), 0, 0))
    {
      ForwardRefines(inner.store, prefix, Call(Exists(key), 0, 0));
      r := inner.Contains(prefix + key);
    }

    method SetIfAbsent(key: string, value: string, ttl: int, asked: int, now: int) returns (r: Reply)
      modifies inner
      ensures (inner.store, r) == Do(old(inner.store), ForwardCall(prefix, Call(SetNX(key, value, ttl), asked, now)))
      ensures (Mine(), r) == Do(old(Mine()), Call(SetNX(key, value, ttl), asked, now))
    {
      ForwardRefines(inner.store, prefix, Call(SetNX(key, value, ttl), asked, now));
      r := inner.SetIfAbsent(prefix + key, value, ttl, asked, now);
    }

    method GetAndDelete(key: string, now: int) returns (r: Reply)
      modifies inner
      ensures (inner.store, r) == Do(old(inner.store), ForwardCall(prefix, Call(GetDel(key), now, now)))
      ensures (Mine(), r) == Do(old(Mine()), Call(GetDel(key), now, now))
    {
      ForwardRefines(inner.store, prefix, Call(GetDel(key), now, now));
      r := inner.GetAndDelete(prefix + key, now);
    }
  }
}
