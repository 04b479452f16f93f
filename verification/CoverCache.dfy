/**
 The memory cache of go_backend/cover.go: one fetch per key at a time, whose
 result everybody waiting gets, and a byte counter that is the sum of the cached
 lengths and stays under the limit.
 */
module CoverCache {
  import opened Options

  type Key = string
  type Bytes = seq<int>

  datatype Entry = Entry(data: Bytes, expiresAt: int)

  // ---------------------------------------------------------------- the byte counter

  /** The cached bytes under the given keys. */
  ghost function Total(cache: map<Key, Entry>, keys: set<Key>): nat
    requires keys <= cache.Keys
  {
    if keys == {} then 0
    else
      var k :| k in keys;
      |cache[k].data| + Total(cache, keys - {k})
  }

  ghost function Size(cache: map<Key, Entry>): nat {
    Total(cache, cache.Keys)
  }

  /** The sum does not depend on the order. */
  lemma {:induction false} TotalTake(cache: map<Key, Entry>, keys: set<Key>, k: Key)
    requires keys <= cache.Keys && k in keys
    ensures Total(cache, keys) == |cache[k].data| + Total(cache, keys - {k})
    decreases |keys|
  {
    var first :| first in keys && Total(cache, keys) == |cache[first].data| + Total(cache, keys - {first});
    if first != k {
      TotalTake(cache, keys - {first}, k);
      TotalTake(cache, keys - {k}, first);
      assert keys - {first} - {k} == keys - {k} - {first};
    }
  }

  lemma {:induction false} TotalSame(a: map<Key, Entry>, b: map<Key, Entry>, keys: set<Key>)
    requires keys <= a.Keys && keys <= b.Keys && forall k :: k in keys ==> a[k] == b[k]
    ensures Total(a, keys) == Total(b, keys)
    decreases |keys|
  {
    if keys != {} {
      var k :| k in keys;
      TotalTake(a, keys, k);
      TotalTake(b, keys, k);
      TotalSame(a, b, keys - {k});
    }
  }

  lemma {:induction false} SizeWithout(cache: map<Key, Entry>, k: Key)
    requires k in cache
    ensures Size(cache) == Size(cache - {k}) + |cache[k].data|
  {
    TotalTake(cache, cache.Keys, k);
    assert (cache - {k}).Keys == cache.Keys - {k};
    TotalSame(cache, cache - {k}, cache.Keys - {k});
  }

  lemma {:induction false} SizeWith(cache: map<Key, Entry>, k: Key, e: Entry)
    ensures Size(cache[k := e]) == Size(cache - {k}) + |e.data|
  {
    var c := cache[k := e];
    SizeWithout(c, k);
    assert c - {k} == cache - {k};
  }

  const MAX_BYTES: nat := 24 * 1024 * 1024
  const TTL: int := 15 * 60 * 1000

  /** The guarded state: counter exact, entries neither empty nor above the limit. */
  ghost predicate Exact(cache: map<Key, Entry>, bytes: int) {
    bytes == Size(cache) && forall k :: k in cache ==> 0 < |cache[k].data| <= MAX_BYTES
  }

  lemma {:induction false} OneEntry(cache: map<Key, Entry>, bytes: int)
    requires Exact(cache, bytes) && |cache| <= 1
    ensures bytes <= MAX_BYTES
  {
    if cache != map[] {
      var k :| k in cache;
      SizeWithout(cache, k);
      assert |cache.Keys| == 1;
      assert |cache.Keys - {k}| == 0;
      assert (cache - {k}).Keys == {};
    }
  }

  /** `gone` expires no later than anything kept. */
  ghost predicate OldestGone(before: map<Key, Entry>, after: map<Key, Entry>) {
    forall g, k :: g in before && g !in after && k in after ==> before[g].expiresAt <= after[k].expiresAt
  }

  class Cache {
    var cache: map<Key, Entry>
    var bytes: int

    constructor ()
      ensures Valid() && cache == map[]
    {
      cache, bytes := map[], 0;
    }

    /** What holds whenever the lock is free. */
    ghost predicate Valid()
      reads this
    {
      Exact(cache, bytes) && bytes <= MAX_BYTES
    }

    method Clear()
      modifies this
      ensures Valid() && cache == map[]
    {
      cache, bytes := map[], 0;
    }

    /** The first critical section of fetchCoverCachedWithKey: a fresh entry, or none; a stale one is dropped. */
    method Lookup(key: Key, now: int) returns (hit: Option<Bytes>)
      requires Valid()
      modifies this
      ensures Valid()
      ensures hit.Some? <==> key in old(cache) && now < old(cache)[key].expiresAt
      ensures hit.Some? ==> hit.value == old(cache)[key].data && cache == old(cache)
      ensures hit.None? ==> cache == old(cache) - {key}
    {
      if key in cache {
        var e := cache[key];
        if now < e.expiresAt { return Some(e.data); }
        SizeWithout(cache, key);
        cache := cache - {key};
        bytes := bytes - |e.data|;
      }
      assert cache == old(cache) - {key};
      return None;
    }

    /** The entry that expires first; it is found by going over all of them. */
    method Oldest() returns (oldest: Key)
      requires cache != map[]
      ensures oldest in cache && forall k :: k in cache ==> cache[oldest].expiresAt <= cache[k].expiresAt
    {
      var keys := cache.Keys;
      oldest :| oldest in keys;
      keys := keys - {oldest};
      while keys != {}
        invariant keys <= cache.Keys && oldest in cache
        invariant forall k :: k in cache && k !in keys ==> cache[oldest].expiresAt <= cache[k].expiresAt
        decreases |keys|
      {
        var k :| k in keys;
        if cache[k].expiresAt < cache[oldest].expiresAt { oldest := k; }
        keys := keys - {k};
      }
    }

    /**
     coverCachePut: the new entry goes in, then the entries that expire first go
     out until the rest fits; what stays is unchanged and one entry always stays.
     */
    method Put(key: Key, data: Bytes, now: int)
      requires Valid()
      modifies this
      ensures Valid()
      ensures |data| == 0 || |data| > MAX_BYTES ==> cache == old(cache)
      ensures 0 < |data| <= MAX_BYTES ==> Evicted(old(cache)[key := Entry(data, now + TTL)], cache)
    {
      if |data| == 0 || |data| > MAX_BYTES { return; }
      Insert(key, Entry(data, now + TTL));
      assert key in cache;
      Evict();
    }

    /** The counter follows a replaced or new entry. */
    method Insert(key: Key, e: Entry)
      requires Exact(cache, bytes) && 0 < |e.data| <= MAX_BYTES
      modifies this
      ensures cache == old(cache)[key := e] && Exact(cache, bytes)
    {
      SizeWith(cache, key, e);
      if key in cache {
        SizeWithout(cache, key);
        bytes := bytes - |cache[key].data|;
      } else {
        assert cache - {key} == cache;
      }
      cache := cache[key := e];
      bytes := bytes + |e.data|;
    }

    /** The eviction loop. */
    method Evict()
      requires Exact(cache, bytes) && cache != map[]
      modifies this
      ensures Valid() && Evicted(old(cache), cache)
    {
      assert |cache| >= 1;
      while bytes > MAX_BYTES && |cache| > 1
        invariant Exact(cache, bytes) && |cache| >= 1 && Evicted(old(cache), cache)
        decreases |cache|
      {
        var k := Oldest();
        SizeWithout(cache, k);
        FewerEntries(cache, k);
        OneMoreGone(old(cache), cache, k);
        bytes := bytes - |cache[k].data|;
        cache := cache - {k};
      }
      if |cache| <= 1 { OneEntry(cache, bytes); }
    }
  }

  /** Part of `full` is left, the part that expires last, and all of it if it fits. */
  ghost predicate Evicted(full: map<Key, Entry>, left: map<Key, Entry>) {
    && left != map[] && left.Keys <= full.Keys && (forall k :: k in left ==> left[k] == full[k])
    && OldestGone(full, left)
    && (Size(full) <= MAX_BYTES ==> left == full)
    && (left != full ==> exists k :: LastGone(full, left, k))
  }

  /** The last entry to go had to: the rest did not fit with it. */
  ghost predicate LastGone(full: map<Key, Entry>, left: map<Key, Entry>, k: Key) {
    && k in full && k !in left && Size(left[k := full[k]]) > MAX_BYTES
    && forall o :: o in full && o !in left ==> full[o].expiresAt <= full[k].expiresAt
  }

  lemma {:induction false} OneMoreGone(full: map<Key, Entry>, left: map<Key, Entry>, k: Key)
    requires Evicted(full, left) && k in left && |left| > 1 && Size(left) > MAX_BYTES
    requires forall o :: o in left ==> left[k].expiresAt <= left[o].expiresAt
    ensures Evicted(full, left - {k})
  {
    FewerEntries(left, k);
    assert |left - {k}| > 0;
    assert (left - {k})[k := full[k]] == left;
    assert LastGone(full, left - {k}, k);
  }

  lemma {:induction false} FewerEntries(m: map<Key, Entry>, k: Key)
    requires k in m
    ensures |m - {k}| == |m| - 1
  {
    assert (m - {k}).Keys == m.Keys - {k};
  }

  // ---------------------------------------------------------------- single flight

  type CallId = nat
  type Thread = nat

  /** What a fetch gives; None is an error. A call starts with the error that a panicking fetch leaves. */
  datatype Call = Call(key: Key, result: Option<Bytes>, done: bool)

  datatype Phase =
    | Fetching(call: CallId)                 // the leader runs fetch
    | Storing(call: CallId, data: Bytes)     // ... puts the data into the cache
    | Signalling(call: CallId)               // ... is about to wake the waiters
    | Leaving(call: CallId)                  // ... is about to take the call off the map
    | Waiting(asked: Key, call: CallId)
    | Returned(key: Key, source: Option<CallId>, result: Option<Bytes>)

  datatype Flight = Flight(
    stored: map<Key, Bytes>, inflight: map<Key, CallId>, calls: map<CallId, Call>, threads: map<Thread, Phase>,
      next: nat)

  /**
   Entries of the cache come through puts, and go through those, expiry and clears;
   `left` is what is there afterwards.
   */
  datatype Event =
    | Request(t: Thread, key: Key, hit: bool)       // `hit`: an entry is there and not expired
    | FetchEnds(t: Thread, result: Option<Bytes>)
    | Store(t: Thread, left: map<Key, Bytes>)
    | Signal(t: Thread)
    | Leave(t: Thread)
    | Wake(t: Thread)
    | CacheChanges(left: map<Key, Bytes>)

  predicate Leads(p: Phase, c: CallId) {
    match p
    case Fetching(d) => d == c
    case Storing(d, _) => d == c
    case Signalling(d) => d == c
    case Leaving(d) => d == c
    case _ => false
  }

  predicate PartOf(left: map<Key, Bytes>, stored: map<Key, Bytes>) {
    forall k :: k in left ==> k in stored && left[k] == stored[k]
  }

  /** Every entry is an old one, or the new one. */
  predicate PutInto(stored: map<Key, Bytes>, key: Key, data: Bytes, left: map<Key, Bytes>) {
    forall k :: k in left ==> (k == key && left[k] == data) || (k in stored && left[k] == stored[k])
  }

  /** What a cache holds. */
  function Contents(cache: map<Key, Entry>): map<Key, Bytes> {
    map k | k in cache :: cache[k].data
  }

  /** The methods of the cache do nothing else. */
  lemma {:induction false} CacheMethodsAllowed(before: map<Key, Entry>, after: map<Key, Entry>, key: Key, e: Entry)
    ensures Evicted(before[key := e], after) ==> PutInto(Contents(before), key, e.data, Contents(after))
    ensures after == before ==> PutInto(Contents(before), key, e.data, Contents(after))
    ensures after == before - {key} || after == map[] ==> PartOf(Contents(after), Contents(before))
  {
  }

  predicate Enabled(s: Flight, e: Event) {
    match e
    case Request(t, key, hit) => t !in s.threads && (hit ==> key in s.stored)
    case FetchEnds(t, _) => t in s.threads && s.threads[t].Fetching? && s.threads[t].call in s.calls
    case Store(t, left) =>
      && t in s.threads && s.threads[t].Storing? && s.threads[t].call in s.calls
      && PutInto(s.stored, s.calls[s.threads[t].call].key, s.threads[t].data, left)
    case Signal(t) => t in s.threads && s.threads[t].Signalling? && s.threads[t].call in s.calls
    case Leave(t) => t in s.threads && s.threads[t].Leaving? && s.threads[t].call in s.calls
    case Wake(t) => t in s.threads && s.threads[t].Waiting? && s.threads[t].call in s.calls &&
      s.calls[s.threads[t].call].done
    case CacheChanges(left) => PartOf(left, s.stored)
  }

  function SetPhase(s: Flight, t: Thread, p: Phase): Flight {
    s.(threads := s.threads[t := p])
  }

  function Apply(s: Flight, e: Event): Flight
    requires Enabled(s, e)
  {
    match e
    case Request(t, key, hit) =>
      if hit then SetPhase(s, t, Returned(key, None, Some(s.stored[key])))
      else if key in s.inflight then SetPhase(s, t, Waiting(key, s.inflight[key]))
      else
        SetPhase(s, t, Fetching(s.next))
          .(inflight := s.inflight[key := s.next], calls := s.calls[s.next := Call(key, None, false)],
            next := s.next + 1)
    case FetchEnds(t, result) =>
      var c := s.threads[t].call;
      SetPhase(s, t, if result.Some? then Storing(c, result.value) else Signalling(c))
        .(calls := s.calls[c := s.calls[c].(result := result)])
    case Store(t, left) => SetPhase(s, t, Signalling(s.threads[t].call)).(stored := left)
    case Signal(t) =>
      var c := s.threads[t].call;
      SetPhase(s, t, Leaving(c)).(calls := s.calls[c := s.calls[c].(done := true)])
    case Leave(t) =>
      var c := s.calls[s.threads[t].call];
      SetPhase(s, t, Returned(c.key, Some(s.threads[t].call), c.result)).(inflight := s.inflight - {c.key})
    case Wake(t) =>
      var c := s.calls[s.threads[t].call];
      SetPhase(s, t, Returned(s.threads[t].asked, Some(s.threads[t].call), c.result))
    case CacheChanges(left) => s.(stored := left)
  }

  ghost predicate Run(s: Flight, trace: seq<Event>, z: Flight)
    decreases |trace|
  {
    if trace == [] then s == z else Enabled(s, trace[0]) && Run(Apply(s, trace[0]), trace[1..], z)
  }

  /** The one thread that leads a call, while it does; the call is registered under its key as long. */
  ghost predicate Led(s: Flight) {
    && (forall t, c :: t in s.threads && Leads(s.threads[t], c) ==>
          c in s.calls && s.calls[c].key in s.inflight && s.inflight[s.calls[c].key] == c)
    && (forall t, u, c :: t in s.threads && u in s.threads && Leads(s.threads[t], c) && Leads(s.threads[u], c) ==>
      t == u)
  }

  /** A call that is not done is still led, before its signal. */
  ghost predicate Tended(s: Flight, c: CallId) {
    exists t :: t in s.threads && Leads(s.threads[t], c) && !s.threads[t].Leaving?
  }

  ghost predicate Served(s: Flight) {
    && (forall c :: c in s.calls ==> c < s.next && (s.calls[c].done || Tended(s, c)))
    && (forall t, c :: t in s.threads && Leads(s.threads[t], c) && c in s.calls ==>
          (s.threads[t].Leaving? <==> s.calls[c].done))
    && (forall k :: k in s.inflight ==> s.inflight[k] in s.calls && s.calls[s.inflight[k]].key == k)
    && (forall t :: t in s.threads ==> PhaseTrue(s, s.threads[t]))
  }

  /** Waiters wait for a known call of the key they asked for; a result that was returned is that of a finished call. */
  ghost predicate PhaseTrue(s: Flight, p: Phase) {
    match p
    case Waiting(key, c) => c in s.calls && s.calls[c].key == key
    case Returned(key, Some(c), result) => c in s.calls && s.calls[c].done && s.calls[c].key == key &&
      s.calls[c].result == result
    case _ => true
  }

  ghost predicate Inv(s: Flight) {
    Led(s) && Served(s)
  }

  /** A leader goes on to its next phase; its call may learn its result. */
  lemma {:induction false} AdvanceKeeps(s: Flight, t: Thread, p: Phase, c: CallId, call: Call)
    requires Inv(s) && t in s.threads && Leads(s.threads[t], c) && Leads(p, c)
    requires c in s.calls && call.key == s.calls[c].key && !s.threads[t].Leaving?
    requires p.Leaving? <==> call.done
    ensures Inv(SetPhase(s, t, p).(calls := s.calls[c := call]))
  {
    AdvanceLed(s, t, p, c, call);
    AdvanceServed(s, t, p, c, call);
  }

  lemma {:induction false} AdvanceLed(s: Flight, t: Thread, p: Phase, c: CallId, call: Call)
    requires Led(s) && t in s.threads && Leads(s.threads[t], c) && Leads(p, c)
    requires c in s.calls && call.key == s.calls[c].key
    ensures Led(SetPhase(s, t, p).(calls := s.calls[c := call]))
  {
    hide Leads;
    LeadsOne(s.threads[t], p, c);
  }

  /** A phase leads at most one call. */
  lemma {:induction false} LeadsOne(p: Phase, q: Phase, c: CallId)
    requires Leads(p, c) && Leads(q, c)
    ensures forall d :: (Leads(p, d) <==> d == c) && (Leads(q, d) <==> d == c)
  {
  }

  lemma {:induction false} AdvanceServed(s: Flight, t: Thread, p: Phase, c: CallId, call: Call)
    requires Inv(s) && t in s.threads && Leads(s.threads[t], c) && Leads(p, c)
    requires c in s.calls && call.key == s.calls[c].key && !s.threads[t].Leaving?
    requires p.Leaving? <==> call.done
    ensures Served(SetPhase(s, t, p).(calls := s.calls[c := call]))
  {
    hide Leads;
    LeadsOne(s.threads[t], p, c);
    var z := SetPhase(s, t, p).(calls := s.calls[c := call]);
    forall d | d in z.calls ensures d < z.next && (z.calls[d].done || Tended(z, d)) {
      if d == c {
        if !call.done { assert t in z.threads && Leads(z.threads[t], c); }
      } else if !s.calls[d].done {
        var u :| u in s.threads && Leads(s.threads[u], d) && !s.threads[u].Leaving?;
        assert u != t && u in z.threads && z.threads[u] == s.threads[u];
      }
    }
    NotIdle(p, c);
    forall u | u in z.threads ensures PhaseTrue(z, z.threads[u]) {
      if u != t { assert PhaseTrue(s, s.threads[u]); }
    }
  }

  lemma {:induction false} NotIdle(p: Phase, c: CallId)
    requires Leads(p, c)
    ensures !p.Waiting? && !p.Returned?
  {
  }

  /** A thread that leads nothing waits or returns. */
  lemma {:induction false} JoinKeeps(s: Flight, t: Thread, p: Phase)
    requires Inv(s) && (t in s.threads ==> s.threads[t].Waiting?) && (p.Waiting? || p.Returned?) && PhaseTrue(s, p)
    ensures Inv(SetPhase(s, t, p))
  {
    JoinLed(s, t, p);
    JoinServed(s, t, p);
  }

  lemma {:induction false} JoinLed(s: Flight, t: Thread, p: Phase)
    requires Led(s) && (t in s.threads ==> s.threads[t].Waiting?) && (p.Waiting? || p.Returned?)
    ensures Led(SetPhase(s, t, p))
  {
  }

  lemma {:induction false} JoinServed(s: Flight, t: Thread, p: Phase)
    requires Served(s) && (t in s.threads ==> s.threads[t].Waiting?) && (p.Waiting? || p.Returned?) && PhaseTrue(s, p)
    ensures Served(SetPhase(s, t, p))
  {
    var z := SetPhase(s, t, p);
    forall d | d in z.calls ensures d < z.next && (z.calls[d].done || Tended(z, d)) {
      if !s.calls[d].done {
        var u :| u in s.threads && Leads(s.threads[u], d) && !s.threads[u].Leaving?;
        assert u in z.threads && z.threads[u] == s.threads[u];
      }
    }
    forall u | u in z.threads ensures PhaseTrue(z, z.threads[u]) {
      if u != t { assert PhaseTrue(s, s.threads[u]); }
    }
  }

  /** A new call and its leader. */
  lemma {:induction false} NewCallKeeps(s: Flight, t: Thread, key: Key)
    requires Inv(s) && t !in s.threads && key !in s.inflight
    ensures Inv(SetPhase(s, t, Fetching(s.next))
      .(inflight := s.inflight[key := s.next], calls := s.calls[s.next := Call(key, None, false)], next := s.next + 1))
  {
    var z := SetPhase(s, t, Fetching(s.next))
      .(inflight := s.inflight[key := s.next], calls := s.calls[s.next := Call(key, None, false)], next := s.next + 1);
    NewCallLed(s, z, t, key);
    forall d | d in z.calls ensures d < z.next && (z.calls[d].done || Tended(z, d)) {
      if d == s.next {
        assert t in z.threads && Leads(z.threads[t], d);
      } else if !s.calls[d].done {
        var u :| u in s.threads && Leads(s.threads[u], d) && !s.threads[u].Leaving?;
        assert u in z.threads && z.threads[u] == s.threads[u];
      }
    }
    forall u | u in z.threads ensures PhaseTrue(z, z.threads[u]) {
      if u != t { assert PhaseTrue(s, s.threads[u]); }
    }
  }

  lemma {:induction false} OldLead(s: Flight, t: Thread, c: CallId)
    requires Inv(s) && t in s.threads && Leads(s.threads[t], c)
    ensures c in s.calls && c < s.next
  {
  }

  lemma {:induction false} NewCallLed(s: Flight, z: Flight, t: Thread, key: Key)
    requires Inv(s) && t !in s.threads && key !in s.inflight
    requires z == SetPhase(s, t, Fetching(s.next))
      .(inflight := s.inflight[key := s.next], calls := s.calls[s.next := Call(key, None, false)], next := s.next + 1)
    ensures Led(z)
  {
    hide Tended, PhaseTrue;
    forall u: Thread, c: CallId | u in z.threads && Leads(z.threads[u], c)
      ensures c in z.calls && z.calls[c].key in z.inflight && z.inflight[z.calls[c].key] == c
      ensures u != t ==> c in s.calls && c < s.next
    {
      if u != t { assert Leads(s.threads[u], c); }
    }
    forall u: Thread, v: Thread, c: CallId | u in z.threads && v in z.threads && Leads(z.threads[u], c) &&
      Leads(z.threads[v], c)
      ensures u == v
    {
      if u != t { OldLead(s, u, c); }
      if v != t { OldLead(s, v, c); }
    }
  }

  lemma {:induction false} RequestKeeps(s: Flight, t: Thread, key: Key, hit: bool)
    requires Inv(s) && Enabled(s, Request(t, key, hit))
    ensures Inv(Apply(s, Request(t, key, hit)))
  {
    if hit {
      JoinKeeps(s, t, Returned(key, None, Some(s.stored[key])));
    } else if key in s.inflight {
      JoinKeeps(s, t, Waiting(key, s.inflight[key]));
    } else {
      NewCallKeeps(s, t, key);
    }
  }

  lemma {:induction false} LeaveKeeps(s: Flight, t: Thread)
    requires Inv(s) && Enabled(s, Leave(t))
    ensures Inv(Apply(s, Leave(t)))
  {
    LeaveLed(s, t);
    LeaveServed(s, t);
  }

  lemma {:induction false} LeaveLed(s: Flight, t: Thread)
    requires Inv(s) && Enabled(s, Leave(t))
    ensures Led(Apply(s, Leave(t)))
  {
    hide Tended, PhaseTrue;
    var z, c := Apply(s, Leave(t)), s.threads[t].call;
    assert Leads(s.threads[t], c);
    forall u: Thread, d: CallId | u in z.threads && Leads(z.threads[u], d)
      ensures u != t && Leads(s.threads[u], d) && d != c
      ensures d in z.calls && z.calls[d].key in z.inflight && z.inflight[z.calls[d].key] == d
    {
      NotIdle(z.threads[u], d);
    }
  }

  lemma {:induction false} LeaveServed(s: Flight, t: Thread)
    requires Inv(s) && Enabled(s, Leave(t))
    ensures Served(Apply(s, Leave(t)))
  {
    hide Led;
    var z, c := Apply(s, Leave(t)), s.threads[t].call;
    assert Leads(s.threads[t], c);
    forall d | d in z.calls ensures d < z.next && (z.calls[d].done || Tended(z, d)) {
      if !s.calls[d].done {
        var u :| u in s.threads && Leads(s.threads[u], d) && !s.threads[u].Leaving?;
        assert u != t && u in z.threads && z.threads[u] == s.threads[u];
      }
    }
    forall u | u in z.threads ensures PhaseTrue(z, z.threads[u]) {
      if u != t { assert PhaseTrue(s, s.threads[u]); }
    }
  }

  lemma {:induction false} ChangeKeeps(s: Flight, left: map<Key, Bytes>)
    requires Inv(s)
    ensures Inv(s.(stored := left))
  {
    var z := s.(stored := left);
    forall d | d in z.calls && !z.calls[d].done ensures Tended(z, d) {
      var u :| u in s.threads && Leads(s.threads[u], d) && !s.threads[u].Leaving?;
      assert u in z.threads;
    }
    forall t | t in z.threads ensures PhaseTrue(z, z.threads[t]) {
      assert PhaseTrue(s, s.threads[t]);
    }
  }

  lemma {:induction false} StepKeeps(s: Flight, e: Event)
    requires Inv(s) && Enabled(s, e)
    ensures Inv(Apply(s, e))
  {
    hide Inv;
    match e
    case Request(t, key, hit) => RequestKeeps(s, t, key, hit);
    case FetchEnds(t, result) =>
      var c := s.threads[t].call;
      Undone(s, t, c);
      AdvanceKeeps(s, t, if result.Some? then Storing(c, result.value)
        else Signalling(c), c, s.calls[c].(result := result));
    case Store(t, left) =>
      var c := s.threads[t].call;
      Undone(s, t, c);
      AdvanceKeeps(s, t, Signalling(c), c, s.calls[c]);
      assert s.calls[c := s.calls[c]] == s.calls;
      ChangeKeeps(SetPhase(s, t, Signalling(c)), left);
    case Signal(t) =>
      var c := s.threads[t].call;
      AdvanceKeeps(s, t, Leaving(c), c, s.calls[c].(done := true));
    case Leave(t) => LeaveKeeps(s, t);
    case Wake(t) =>
      var c := s.threads[t].call;
      PhaseOf(s, t);
      JoinKeeps(s, t, Returned(s.threads[t].asked, Some(c), s.calls[c].result));
    case CacheChanges(left) => ChangeKeeps(s, left);
  }

  lemma {:induction false} PhaseOf(s: Flight, t: Thread)
    requires Inv(s) && t in s.threads
    ensures PhaseTrue(s, s.threads[t])
  {
  }

  lemma {:induction false} Undone(s: Flight, t: Thread, c: CallId)
    requires Inv(s) && t in s.threads && Leads(s.threads[t], c) && !s.threads[t].Leaving?
    ensures c in s.calls && !s.calls[c].done
  {
  }

  lemma {:induction false} RunKeeps(s: Flight, trace: seq<Event>, z: Flight)
    requires Inv(s) && Run(s, trace, z)
    ensures Inv(z)
    decreases |trace|
  {
    hide Inv, Apply, Enabled;
    if trace != [] {
      StepKeeps(s, trace[0]);
      RunKeeps(Apply(s, trace[0]), trace[1..], z);
    }
  }

  // ---------------------------------------------------------------- where cached values come from

  /** A fetch of the key, for this call, gave this result. */
  predicate Fetched(s: Flight, c: CallId, key: Key, result: Option<Bytes>) {
    c in s.calls && s.calls[c].key == key && result.Some? && s.calls[c].result == result
  }

  /** What the cache holds, is about to hold, or gave to a thread was fetched for its key. */
  ghost predicate Backed(s: Flight) {
    && (forall k :: k in s.stored ==> exists c :: Fetched(s, c, k, Some(s.stored[k])))
    && (forall t :: t in s.threads ==> PhaseBacked(s, s.threads[t]))
  }

  ghost predicate PhaseBacked(s: Flight, p: Phase) {
    match p
    case Fetching(c) => c in s.calls && s.calls[c].result.None?
    case Storing(c, data) => c in s.calls && s.calls[c].result == Some(data)
    case Returned(key, None, result) => exists c :: Fetched(s, c, key, result)
    case _ => true
  }

  /** No call loses its result. */
  ghost predicate Grows(s: Flight, z: Flight) {
    forall c :: c in s.calls && s.calls[c].result.Some? ==>
      c in z.calls && z.calls[c].key == s.calls[c].key && z.calls[c].result == s.calls[c].result
  }

  lemma {:induction false} StillFetched(s: Flight, z: Flight, key: Key, result: Option<Bytes>)
    requires Grows(s, z) && exists c :: Fetched(s, c, key, result)
    ensures exists c :: Fetched(z, c, key, result)
  {
    var c :| Fetched(s, c, key, result);
    assert Fetched(z, c, key, result);
  }

  lemma {:induction false} StepGrows(s: Flight, e: Event)
    requires Inv(s) && Backed(s) && Enabled(s, e)
    ensures Grows(s, Apply(s, e))
  {
    hide Tended, PhaseTrue;
    if e.FetchEnds? { assert PhaseBacked(s, s.threads[e.t]); }
  }

  /** Whatever a thread does, the other threads' values stay backed. */
  lemma {:induction false} OthersBacked(s: Flight, e: Event, u: Thread)
    requires Inv(s) && Backed(s) && Enabled(s, e) && u in s.threads && Grows(s, Apply(s, e))
    requires e.CacheChanges? || e.t != u
    ensures u in Apply(s, e).threads && PhaseBacked(Apply(s, e), Apply(s, e).threads[u])
  {
    hide Tended, PhaseTrue, Served, PartOf, PutInto;
    var p, z := s.threads[u], Apply(s, e);
    assert PhaseBacked(s, p);
    match p
    case Returned(key, None, result) => StillFetched(s, z, key, result);
    case Fetching(c) =>
      if e.FetchEnds? { assert Leads(s.threads[e.t], s.threads[e.t].call) && Leads(p, c); }
    case _ =>
  }

  /** The acting thread's value is backed. */
  lemma {:induction false} OwnBacked(s: Flight, e: Event)
    requires Inv(s) && Backed(s) && Enabled(s, e) && !e.CacheChanges?
    ensures PhaseBacked(Apply(s, e), Apply(s, e).threads[e.t])
  {
    hide Tended, PhaseTrue, Led;
    if e.Request? && e.hit {
      var c :| Fetched(s, c, e.key, Some(s.stored[e.key]));
      assert Fetched(Apply(s, e), c, e.key, Some(s.stored[e.key]));
    }
  }

  /** What is in the cache afterwards was there, or was just fetched. */
  lemma {:induction false} CacheBacked(s: Flight, e: Event, k: Key)
    requires Inv(s) && Backed(s) && Enabled(s, e) && Grows(s, Apply(s, e)) && k in Apply(s, e).stored
    ensures exists c :: Fetched(Apply(s, e), c, k, Some(Apply(s, e).stored[k]))
  {
    hide Tended, PhaseTrue, Led;
    var z := Apply(s, e);
    if k in s.stored && z.stored[k] == s.stored[k] {
      StillFetched(s, z, k, Some(s.stored[k]));
    } else {
      assert PhaseBacked(s, s.threads[e.t]);
      assert Fetched(z, s.threads[e.t].call, k, Some(z.stored[k]));
    }
  }

  lemma {:induction false} StepBacked(s: Flight, e: Event)
    requires Inv(s) && Backed(s) && Enabled(s, e)
    ensures Backed(Apply(s, e))
  {
    hide Inv, Apply, PhaseBacked, Fetched;
    StepGrows(s, e);
    forall k | k in Apply(s, e).stored ensures exists c :: Fetched(Apply(s, e), c, k, Some(Apply(s, e).stored[k])) {
      CacheBacked(s, e, k);
    }
    forall t | t in Apply(s, e).threads ensures PhaseBacked(Apply(s, e), Apply(s, e).threads[t]) {
      if !e.CacheChanges? && e.t == t {
        OwnBacked(s, e);
      } else {
        NoNewThread(s, e, t);
        OthersBacked(s, e, t);
      }
    }
  }

  lemma {:induction false} NoNewThread(s: Flight, e: Event, t: Thread)
    requires Enabled(s, e) && t in Apply(s, e).threads && (e.CacheChanges? || e.t != t)
    ensures t in s.threads
  {
  }

  lemma {:induction false} RunBacked(s: Flight, trace: seq<Event>, z: Flight)
    requires Inv(s) && Backed(s) && Run(s, trace, z)
    ensures Backed(z)
    decreases |trace|
  {
    hide Inv, Apply, Enabled, Backed;
    if trace != [] {
      StepKeeps(s, trace[0]);
      StepBacked(s, trace[0]);
      RunBacked(Apply(s, trace[0]), trace[1..], z);
    }
  }

  // ---------------------------------------------------------------- results

  /** The key a leading thread fetches. */
  function KeyOf(s: Flight, t: Thread): Option<Key> {
    if t in s.threads && s.threads[t].Fetching? &&
      s.threads[t].call in s.calls then Some(s.calls[s.threads[t].call].key)
    else None
  }

  const IDLE: Flight := Flight(map[], map[], map[], map[], 0)

  /** The key a thread came for. */
  function Asked(s: Flight, t: Thread): Option<Key> {
    if t !in s.threads then None
    else
      match s.threads[t]
      case Waiting(key, _) => Some(key)
      case Returned(key, _, _) => Some(key)
      case p => if p.call in s.calls then Some(s.calls[p.call].key) else None
  }

  lemma {:induction false} StepAsked(s: Flight, e: Event, t: Thread)
    requires Inv(s) && Enabled(s, e)
    ensures Asked(s, t).Some? ==> Asked(Apply(s, e), t) == Asked(s, t)
    ensures e.Request? && e.t == t ==> Asked(Apply(s, e), t) == Some(e.key)
  {
    hide Tended, PhaseTrue;
  }

  /** A thread that asked for a key has asked for it ever since. */
  lemma {:induction false} RunAsked(s: Flight, trace: seq<Event>, z: Flight, t: Thread, key: Key)
    requires Inv(s) && Run(s, trace, z)
    requires Asked(s, t) == Some(key) || exists i, hit :: 0 <= i < |trace| && trace[i] == Request(t, key, hit)
    ensures Asked(z, t) == Some(key)
    decreases |trace|
  {
    hide Inv, Apply, Enabled, Asked;
    if trace != [] {
      StepKeeps(s, trace[0]);
      StepAsked(s, trace[0], t);
      if Asked(Apply(s, trace[0]), t) != Some(key) {
        var i, hit :| 0 <= i < |trace| && trace[i] == Request(t, key, hit);
        assert trace[1..][i - 1] == Request(t, key, hit);
      }
      RunAsked(Apply(s, trace[0]), trace[1..], z, t, key);
    }
  }

  /** Whoever asked for a key is given what a fetch of that key gave: that of one call, or one that was cached. */
  lemma {:induction false} AnsweredAsAsked(trace: seq<Event>, s: Flight, t: Thread, key: Key, i: nat, hit: bool)
    requires Run(IDLE, trace, s) && i < |trace| && trace[i] == Request(t, key, hit)
    ensures t in s.threads && Asked(s, t) == Some(key)
    ensures s.threads[t].Returned? ==> s.threads[t].key == key
    ensures s.threads[t].Returned? && s.threads[t].source.Some? ==>
      var c := s.threads[t].source.value;
      c in s.calls && s.calls[c].done && s.calls[c].key == key && s.calls[c].result == s.threads[t].result
    ensures s.threads[t].Returned? && s.threads[t].source.None? ==> exists c :: Fetched(s, c, key, s.threads[t].result)
    ensures s.threads[t].Waiting? ==> s.threads[t].call in s.calls && s.calls[s.threads[t].call].key == key
    ensures forall k :: k in s.stored ==> exists c :: Fetched(s, c, k, Some(s.stored[k]))
  {
    hide Run;
    RunKeeps(IDLE, trace, s);
    RunBacked(IDLE, trace, s);
    RunAsked(IDLE, trace, s, t, key);
    assert PhaseTrue(s, s.threads[t]) && PhaseBacked(s, s.threads[t]);
  }

  /**
   In every interleaving: two fetches of one key never overlap; everybody who got
   the result of a call got the same one; and nobody waits for a call that no thread
   will finish.
   */
  lemma {:induction false} SingleFlight(trace: seq<Event>, s: Flight, t: Thread, u: Thread)
    requires Run(IDLE, trace, s) && t in s.threads && u in s.threads
    ensures KeyOf(s, t).Some? && KeyOf(s, t) == KeyOf(s, u) ==> t == u
    ensures s.threads[t].Returned? && s.threads[u].Returned? && s.threads[t].source.Some?
      && s.threads[t].source == s.threads[u].source
      ==> s.threads[t].result == s.threads[u].result && s.threads[t].key == s.threads[u].key
    ensures s.threads[t].Waiting? ==>
      s.threads[t].call in s.calls && (s.calls[s.threads[t].call].done || Tended(s, s.threads[t].call))
  {
    hide Run;
    RunKeeps(IDLE, trace, s);
    assert PhaseTrue(s, s.threads[t]) && PhaseTrue(s, s.threads[u]);
    if KeyOf(s, t).Some? && KeyOf(s, t) == KeyOf(s, u) {
      assert Leads(s.threads[t], s.threads[t].call) && Leads(s.threads[u], s.threads[u].call);
    }
  }
}
