/**
 The in-memory cache: a map from keys to values with an optional expiry, consulted lazily. Every
 call takes its clock readings as arguments: `asked` is read before the lock, `now` under it.
 */
module MemoryCache {
  import opened Common

  datatype Entry = Entry(val: string, exp: Option<int>)

  type Store = map<string, Entry>

  datatype Op = Get(key: string)
              | Set(key: string, value: string, ttl: int)
              | Del(keys: seq<string>)
              | DelPrefix(prefix: string)
              | Incr(key: string)
              | Exists(key: string)
              | SetNX(key: string, value: string, ttl: int)
              | GetDel(key: string)

  datatype Call = Call(op: Op, asked: int, now: int)

  datatype Reply = Done | Text(text: string) | Number(n: int) | Flag(yes: bool)

  function Expiry(ttl: int, asked: int): Option<int> { if ttl > 0 then Some(asked + ttl) else None }

  /** For reading: strictly past its expiry. */
  predicate Stale(e: Entry, now: int) { e.exp.Some? && now > e.exp.value }

  /** For claiming: strictly before its expiry, or without one. */
  predicate Held(e: Entry, now: int) { e.exp.None? || now < e.exp.value }

  function Without(store: Store, ks: seq<string>): Store { store - (set k | k in ks) }

  function Do(store: Store, call: Call): (Store, Reply) {
    match call.op
    case Get(k) =>
      if k !in store then (store, Text(""))
      else if Stale(store[k], call.now) then (store - {k}, Text(""))
      else (store, Text(store[k].val))
    case Set(k, v, ttl) => (store[k := Entry(v, Expiry(ttl, call.asked))], Done)
    case Del(ks) => (Without(store, ks), Done)
    case DelPrefix(p) => (map k | k in store && !(p <= k) :: store[k], Done)
    case Incr(_) => (store, Number(1))
    case Exists(k) => (store, Flag(k in store))
    case SetNX(k, v, ttl) =>
      if k in store && Held(store[k], call.now) then (store, Flag(false))
      else (store[k := Entry(v, Expiry(ttl, call.asked))], Flag(true))
    case GetDel(k) =>
      if k !in store then (store, Text(""))
      else if Stale(store[k], call.now) then (store - {k}, Text(""))
      else (store - {k}, Text(store[k].val))
  }

  /** The store after the calls, which the mutex puts in one order. */
  function Run(calls: seq<Call>): Store {
    if calls == [] then map[] else Do(Run(calls[..|calls| - 1]), calls[|calls| - 1]).0
  }

  function ReplyTo(calls: seq<Call>, i: nat): Reply
    requires i < |calls|
  {
    Do(Run(calls[..i]), calls[i]).1
  }

  // ---- Single-use nonces ----

  /** Call `i` puts a value under the key: it sets it, or wins the race for it. */
  predicate Puts(calls: seq<Call>, i: nat, key: string)
    requires i < |calls|
  {
    || (calls[i].op.Set? && calls[i].op.key == key)
    || (calls[i].op.SetNX? && calls[i].op.key == key && ReplyTo(calls, i) == Flag(true))
  }

  /** Call `i` takes a non-empty value out. */
  predicate Takes(calls: seq<Call>, i: nat, key: string)
    requires i < |calls|
  {
    calls[i].op == GetDel(key) && ReplyTo(calls, i).Text? && ReplyTo(calls, i).text != ""
  }

  function CountPuts(calls: seq<Call>, n: nat, key: string): nat
    requires n <= |calls|
  {
    if n == 0 then 0 else CountPuts(calls, n - 1, key) + (if Puts(calls, n - 1, key) then 1 else 0)
  }

  function CountTakes(calls: seq<Call>, n: nat, key: string): nat
    requires n <= |calls|
  {
    if n == 0 then 0 else CountTakes(calls, n - 1, key) + (if Takes(calls, n - 1, key) then 1 else 0)
  }

  /** The latest call among the first `n` that put something under the key. */
  function LastPut(calls: seq<Call>, n: nat, key: string): (r: Option<nat>)
    requires n <= |calls|
    ensures r.Some? ==> r.value < n && Puts(calls, r.value, key)
    ensures forall i :: (if r.Some? then r.value + 1 else 0) <= i < n ==> !Puts(calls, i, key)
  {
    if n == 0 then None else if Puts(calls, n - 1, key) then Some(n - 1) else LastPut(calls, n - 1, key)
  }

  /** What a putting call stores. */
  function EntryOf(call: Call): Entry
    requires call.op.Set? || call.op.SetNX?
  {
    Entry(call.op.value, Expiry(call.op.ttl, call.asked))
  }

  /** Whatever is under the key came, unchanged, from the latest call that put something there. */
  lemma {:induction false} HoldsLastPut(calls: seq<Call>, n: nat, key: string)
    requires n <= |calls|
    ensures key in Run(calls[..n]) ==>
              LastPut(calls, n, key).Some? && Run(calls[..n])[key] == EntryOf(calls[LastPut(calls, n, key).value])
    ensures CountTakes(calls, n, key) + (if key in Run(calls[..n]) then 1 else 0) <= CountPuts(calls, n, key)
  {
    if n > 0 {
      HoldsLastPut(calls, n - 1, key);
      assert calls[..n][..n - 1] == calls[..n - 1];
    }
  }

  /**
   Over any calls whatever, whoever makes them: a key is never consumed more often than something was
   put there, so when it is written only through SetNX the non-empty GetDel replies never outnumber
   the SetNX calls that won.
   */
  lemma NeverConsumedTwice(calls: seq<Call>, key: string)
    ensures CountTakes(calls, |calls|, key) <= CountPuts(calls, |calls|, key)
  {
    HoldsLastPut(calls, |calls|, key);
  }

  /** Between two consumptions of a key something was put there. */
  lemma FreshPutBetweenTakes(calls: seq<Call>, i: nat, j: nat, key: string)
    requires i < j < |calls| && Takes(calls, i, key) && Takes(calls, j, key)
    ensures exists w :: i < w < j && Puts(calls, w, key)
  {
    if forall w :: i < w < j ==> !Puts(calls, w, key) {
      assert calls[..i + 1][..i] == calls[..i];
      StaysGone(calls, i + 1, j, key);
    }
  }

  lemma {:induction false} StaysGone(calls: seq<Call>, i: nat, j: nat, key: string)
    requires i <= j <= |calls|
    requires key in Run(calls[..j])
    requires forall w :: i <= w < j ==> !Puts(calls, w, key)
    ensures key in Run(calls[..i])
  {
    if i < j {
      assert calls[..j][..j - 1] == calls[..j - 1] && !Puts(calls, j - 1, key);
      StaysGone(calls, i, j - 1, key);
    }
  }

  /** A consumption yields the value of the latest put, and not after that value's expiry. */
  lemma TakesLatestUnexpired(calls: seq<Call>, i: nat, key: string)
    requires i < |calls| && Takes(calls, i, key)
    ensures var w := LastPut(calls, i, key);
            && w.Some?
            && ReplyTo(calls, i) == Text(calls[w.value].op.value)
            && (calls[w.value].op.ttl > 0 ==> calls[i].now <= calls[w.value].asked + calls[w.value].op.ttl)
  {
    HoldsLastPut(calls, i, key);
  }

  // ---- What every reader and claimer is told ----

  /** What was put at `w` runs out: it was given a time to live, and that is past. */
  predicate RanOut(put: Call, now: int)
    requires put.op.Set? || put.op.SetNX?
  {
    put.op.ttl > 0 && now > put.asked + put.op.ttl
  }

  /** The call takes the key away whatever is there. */
  predicate Removes(op: Op, key: string) {
    (op.Del? && key in op.keys) || (op.DelPrefix? && op.prefix <= key) || op == GetDel(key)
  }

  /** Nothing was put under the key, or removed it, after call `w` put something there; a Get may have found it expired. */
  predicate Undisturbed(calls: seq<Call>, w: nat, n: nat, key: string)
    requires w < n <= |calls|
  {
    forall m :: w < m < n ==> !Puts(calls, m, key) && !Removes(calls[m].op, key)
  }

  /** The value put by call `w` is still in the store before call `n`. */
  predicate Stored(calls: seq<Call>, w: nat, n: nat, key: string)
    requires w < n <= |calls|
  {
    && Puts(calls, w, key) && Undisturbed(calls, w, n, key)
    && forall m :: w < m < n && calls[m].op == Get(key) ==> !RanOut(calls[w], calls[m].now)
  }

  /** One more call, not a put: the value stays unless the call removes it or finds it expired. */
  lemma StoredNext(calls: seq<Call>, w: nat, n: nat, key: string)
    requires w < n < |calls| && !Puts(calls, n, key)
    ensures Stored(calls, w, n + 1, key) <==>
            && Stored(calls, w, n, key) && !Removes(calls[n].op, key)
            && (calls[n].op == Get(key) ==> !RanOut(calls[w], calls[n].now))
  {
  }

  /** What such a call does to the store under the key. */
  lemma KeyNext(store: Store, call: Call, key: string)
    requires !(call.op.Set? && call.op.key == key)
    requires !(call.op.SetNX? && call.op.key == key && Do(store, call).1 == Flag(true))
    ensures var after := Do(store, call).0;
            && (key in after <==>
                  && key in store && !Removes(call.op, key)
                  && (call.op == Get(key) ==> !Stale(store[key], call.now)))
            && (key in after ==> after[key] == store[key])
  {
  }

  /** The key is in the store exactly when some call's value is still there, and then with that value. */
  lemma {:induction false} StoredIff(calls: seq<Call>, n: nat, key: string)
    requires n <= |calls|
    ensures key in Run(calls[..n]) <==> exists w: nat :: w < n && Stored(calls, w, n, key)
    ensures forall w: nat | w < n && Stored(calls, w, n, key) :: Run(calls[..n])[key] == EntryOf(calls[w])
  {
    if n > 0 {
      StoredIff(calls, n - 1, key);
      assert calls[..n][..n - 1] == calls[..n - 1];
      if Puts(calls, n - 1, key) {
        assert Stored(calls, n - 1, n, key);
      } else {
        KeyNext(Run(calls[..n - 1]), calls[n - 1], key);
        forall w: nat | w < n - 1
          ensures Stored(calls, w, n, key) <==>
                  && Stored(calls, w, n - 1, key) && !Removes(calls[n - 1].op, key)
                  && (calls[n - 1].op == Get(key) ==> !RanOut(calls[w], calls[n - 1].now))
        {
          StoredNext(calls, w, n - 1, key);
        }
      }
    }
  }

  /** With a clock that does not go back, a value that nothing removed is there until it runs out. */
  lemma StoredUntilExpiry(calls: seq<Call>, w: nat, i: nat, key: string)
    requires ClockAscends(calls) && w < i < |calls| && Puts(calls, w, key) && Undisturbed(calls, w, i, key)
    requires !RanOut(calls[w], calls[i].now)
    ensures Stored(calls, w, i, key)
  {
  }

  /** The value put at `w` is what a reader at `i` must get. */
  predicate Current(calls: seq<Call>, w: nat, i: nat, key: string)
    requires w < i < |calls|
  {
    Puts(calls, w, key) && Undisturbed(calls, w, i, key) && !RanOut(calls[w], calls[i].now)
  }

  /**
   Get and GetDel, exactly: they answer the value of the call that last put something under the key, if nothing has
   removed it since and it has not run out, and otherwise nothing.
   */
  lemma ReadsLatest(calls: seq<Call>, i: nat, key: string)
    requires ClockAscends(calls) && i < |calls| && calls[i].op in {Get(key), GetDel(key)}
    ensures forall w: nat | w < i && Current(calls, w, i, key) :: ReplyTo(calls, i) == Text(calls[w].op.value)
    ensures (forall w: nat | w < i :: !Current(calls, w, i, key)) ==> ReplyTo(calls, i) == Text("")
  {
    StoredIff(calls, i, key);
    forall w: nat | w < i && Current(calls, w, i, key) ensures ReplyTo(calls, i) == Text(calls[w].op.value) {
      StoredUntilExpiry(calls, w, i, key);
    }
    if key in Run(calls[..i]) {
      var w: nat :| w < i && Stored(calls, w, i, key);
      assert Current(calls, w, i, key) <==> !RanOut(calls[w], calls[i].now);
    }
  }

  /** SetNX, exactly: it wins unless a value was put, not removed since, that has no time to live or has some left. */
  lemma ClaimsIff(calls: seq<Call>, i: nat, key: string)
    requires ClockAscends(calls) && i < |calls| && calls[i].op.SetNX? && calls[i].op.key == key
    ensures Puts(calls, i, key) <==>
            forall w: nat | w < i && Puts(calls, w, key) && Undisturbed(calls, w, i, key) ::
              calls[w].op.ttl > 0 && calls[i].now >= calls[w].asked + calls[w].op.ttl
  {
    StoredIff(calls, i, key);
    forall w: nat | w < i && Puts(calls, w, key) && Undisturbed(calls, w, i, key)
                    && !(calls[w].op.ttl > 0 && calls[i].now >= calls[w].asked + calls[w].op.ttl)
      ensures !Puts(calls, i, key)
    {
      StoredUntilExpiry(calls, w, i, key);
    }
    if !Puts(calls, i, key) {
      var w: nat :| w < i && Stored(calls, w, i, key);
    }
  }

  // ---- SetNX as a lock ----

  predicate ClockAscends(calls: seq<Call>) {
    forall i, j :: 0 <= i < j < |calls| ==> calls[i].now <= calls[j].now
  }

  /** A call that frees or overwrites the key whatever its expiry. */
  predicate Releases(op: Op, key: string) {
    match op
    case Set(k, _, _) => k == key
    case Del(ks) => key in ks
    case DelPrefix(p) => p <= key
    case GetDel(k) => k == key
    case _ => false
  }

  lemma {:induction false} HeldUntilExpiry(calls: seq<Call>, i: nat, j: nat, key: string)
    requires ClockAscends(calls) && i < j <= |calls|
    requires calls[i].op.SetNX? && Puts(calls, i, key)
    requires forall m :: i < m < j ==> !Releases(calls[m].op, key)
    ensures var e := EntryOf(calls[i]);
            || (key in Run(calls[..j]) && Run(calls[..j])[key] == e)
            || (e.exp.Some? && calls[j - 1].now >= e.exp.value)
  {
    assert calls[..j][..j - 1] == calls[..j - 1];
    if j > i + 1 { HeldUntilExpiry(calls, i, j - 1, key); }
  }

  /**
   Two callers win the same key with no release in between only if the first one's time to live has
   run out when the second wins; without a time to live the second cannot win at all.
   */
  lemma LockExcludes(calls: seq<Call>, i: nat, j: nat, key: string)
    requires ClockAscends(calls) && i < j < |calls|
    requires calls[i].op.SetNX? && Puts(calls, i, key) && calls[j].op.SetNX? && Puts(calls, j, key)
    requires forall m :: i < m < j ==> !Releases(calls[m].op, key)
    ensures calls[i].op.ttl > 0 && calls[j].now >= calls[i].asked + calls[i].op.ttl
  {
    HeldUntilExpiry(calls, i, j, key);
  }

  /** At the very instant of expiry a reader still gets the value and a claimer already wins. */
  lemma BothAtTheEdge(store: Store, key: string, asked: int, now: int, value: string, ttl: int)
    requires key in store
    ensures (Do(store, Call(Get(key), asked, now)).0 == store &&
             Do(store, Call(SetNX(key, value, ttl), asked, now)).1 == Flag(true)) <==> store[key].exp == Some(now)
  {
    assert Stale(store[key], now) ==> key !in store - {key};
  }

  /** Exists counts an expired key until a read removes it: exactly then it disagrees with Get. */
  lemma ExistsDisagreesWithGetIff(store: Store, key: string, asked: int, now: int)
    ensures (Do(store, Call(Exists(key), asked, now)).1 == Flag(true) && Do(store, Call(Get(key), asked, now)).1 == Text(""))
            <==> key in store && (Stale(store[key], now) || store[key].val == "")
  {
  }

  // ---- The cache as an object ----

  class InMemoryCache {
    var store: Store

    constructor ()
      ensures store == map[]
    {
      store := map[];
    }

    method GetValue(key: string, now: int) returns (r: Reply)
      modifies this
      ensures forall asked :: (store, r) == Do(old(store), Call(Get(key), asked, now))
    {
      if key !in store { return Text(""); }
      var v := store[key];
      if v.exp.Some? && now > v.exp.value {
        store := store - {key};
        return Text("");
      }
      r := Text(v.val);
    }

    method SetValue(key: string, value: string, ttl: int, asked: int) returns (r: Reply)
      modifies this
      ensures forall now :: (store, r) == Do(old(store), Call(Set(key, value, ttl), asked, now))
    {
      var exp: Option<int> := None;
      if ttl > 0 { exp := Some(asked + ttl); }
      store := store[key := Entry(value, exp)];
      r := Done;
    }

    method Delete(keys: seq<string>) returns (r: Reply)
      modifies this
      ensures forall asked, now :: (store, r) == Do(old(store), Call(Del(keys), asked, now))
    {
      for i := 0 to |keys|
        invariant store == Without(old(store), keys[..i])
      {
        assert keys[..i + 1] == keys[..i] + [keys[i]];
        store := store - {keys[i]};
      }
      assert keys[..|keys|] == keys;
      r := Done;
    }

    method DeletePrefix(prefix: string) returns (r: Reply)
      modifies this
      ensures forall asked, now :: (store, r) == Do(old(store), Call(DelPrefix(prefix), asked, now))
    {
      var left := store.Keys;
      while left != {}
        invariant store.Keys <= old(store).Keys && left <= old(store).Keys
        invariant forall k | k in store :: store[k] == old(store)[k]
        invariant forall k | k in left :: k in store
        invariant forall k | k in old(store) && k !in left :: k in store <==> !(prefix <= k)
        decreases left
      {
        var k :| k in left;
        left := left - {k};
        if prefix <= k { store := store - {k}; }
      }
      assert store == Do(old(store), Call(DelPrefix(prefix), 0, 0)).0;
      r := Done;
    }

    method Increment(key: string) returns (r: Reply)
      ensures forall asked, now :: (store, r) == Do(store, Call(Incr(key), asked, now))
    {
      r := Number(1);
    }

    method Contains(key: string) returns (r: Reply)
      ensures forall asked, now :: (store, r) == Do(store, Call(Exists(key), asked, now))
    {
      r := Flag(key in store);
    }

    method SetIfAbsent(key: string, value: string, ttl: int, asked: int, now: int) returns (r: Reply)
      modifies this
      ensures (store, r) == Do(old(store), Call(SetNX(key, value, ttl), asked, now))
    {
      var exp: Option<int> := None;
      if ttl > 0 { exp := Some(asked + ttl); }
      if key in store {
        var v := store[key];
        if v.exp.None? || now < v.exp.value { return Flag(false); }
      }
      store := store[key := Entry(value, exp)];
      r := Flag(true);
    }

    method GetAndDelete(key: string, now: int) returns (r: Reply)
      modifies this
      ensures forall asked :: (store, r) == Do(old(store), Call(GetDel(key), asked, now))
    {
      if key !in store { return Text(""); }
      var v := store[key];
      if v.exp.Some? && now > v.exp.value {
        store := store - {key};
        return Text("");
      }
      store := store - {key};
      r := Text(v.val);
    }
  }
}
