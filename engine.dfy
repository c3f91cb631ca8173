/** The query-cache engine: the registry (`QueryClient`), its cache entries
    (`Query`, built by createQuery) and the per-consumer bindings
    (`Observer`, built by createQueryObserver), run as a single-threaded
    state machine.

    Callbacks are not called back into the engine: every `subscriber.notify()`
    and every client listener call is appended, in the order the source makes
    them, to the client's `log`. The awaited `queryFn` is split into
    `Query.Fetch` (the synchronous start) and `Query.CompleteFetch` (the
    continuation after the await, given the outcome and the clock). Timers are
    explicit: `Query.gcTimers` holds the live GC timers with their deadlines and
    `Query.GcFire` is the step the environment takes when one of them is due. */
module Engine {
  import opened Common
  import opened QueryHash
  import opened QueryStates

  /** Identity of a callback function (a consumer's rerender, a devtools listener). */
  type CallbackId = nat

  /** Identity of the queryFn an entry was created with. */
  type QueryFnId = nat

  /** One callback invocation. */
  datatype Notice = ObserverNotified(observer: Observer) | ListenerCalled(listener: CallbackId)

  /** `subscribers.forEach((subscriber) => subscriber.notify())`, as a log. */
  function ObserverNotices(subs: seq<Observer>): (r: seq<Notice>)
    ensures |r| == |subs|
    ensures forall i :: 0 <= i < |subs| ==> r[i] == ObserverNotified(subs[i])
  {
    if subs == [] then [] else ObserverNotices(subs[..|subs| - 1]) + [ObserverNotified(subs[|subs| - 1])]
  }

  /** `this.subscribers.forEach((cb) => cb())`, as a log. */
  function ListenerNotices(listeners: seq<CallbackId>): (r: seq<Notice>)
    ensures |r| == |listeners|
    ensures forall i :: 0 <= i < |listeners| ==> r[i] == ListenerCalled(listeners[i])
  {
    if listeners == [] then [] else ListenerNotices(listeners[..|listeners| - 1]) + [ListenerCalled(listeners[|listeners| - 1])]
  }

  /** What one `setState` emits: each entry subscriber once, in registration
      order, then each client listener once. */
  function Fanout(subs: seq<Observer>, listeners: seq<CallbackId>): seq<Notice>
  {
    ObserverNotices(subs) + ListenerNotices(listeners)
  }

  lemma FanoutOrder(subs: seq<Observer>, listeners: seq<CallbackId>)
    ensures |Fanout(subs, listeners)| == |subs| + |listeners|
    ensures forall i :: 0 <= i < |subs| ==> Fanout(subs, listeners)[i] == ObserverNotified(subs[i])
    ensures forall j :: 0 <= j < |listeners| ==> Fanout(subs, listeners)[|subs| + j] == ListenerCalled(listeners[j])
  {
  }

  /** No two entries of the registry have the same hash. */
  predicate UniqueHashes(qs: seq<Query>)
  {
    forall i, j :: 0 <= i < j < |qs| ==> qs[i].hash != qs[j].hash
  }

  /** `queries.find((d) => d.queryHash === queryHash)`, as an index. */
  function FindByHash(qs: seq<Query>, h: string): (r: Option<nat>)
    ensures r.Some? ==> r.value < |qs| && qs[r.value].hash == h
    ensures r.Some? ==> forall j :: 0 <= j < r.value ==> qs[j].hash != h
    ensures r.None? <==> forall j :: 0 <= j < |qs| ==> qs[j].hash != h
  {
    if qs == [] then None
    else if qs[0].hash == h then Some(0)
    else match FindByHash(qs[1..], h)
      case None => None
      case Some(j) => Some(j + 1)
  }

  /** Dropping an entry keeps the others' hashes distinct. */
  lemma {:induction false} RemoveKeepsHashesUnique(qs: seq<Query>, x: Query)
    requires UniqueHashes(qs)
    ensures UniqueHashes(Remove(qs, x))
  {
    if qs != [] {
      UniqueHashesTail(qs);
      RemoveKeepsHashesUnique(qs[1..], x);
      if qs[0] != x {
        HeadHashFresh(qs, Remove(qs[1..], x));
        assert Remove(qs, x) == [qs[0]] + Remove(qs[1..], x);
      }
    }
  }

  lemma UniqueHashesTail(qs: seq<Query>)
    requires qs != [] && UniqueHashes(qs)
    ensures UniqueHashes(qs[1..])
  {
    forall i, j | 0 <= i < j < |qs[1..]| ensures qs[1..][i].hash != qs[1..][j].hash {
      assert qs[1..][i] == qs[i + 1] && qs[1..][j] == qs[j + 1];
    }
  }

  /** The head's hash differs from that of every element taken from the tail. */
  lemma HeadHashFresh(qs: seq<Query>, rest: seq<Query>)
    requires qs != [] && UniqueHashes(qs) && UniqueHashes(rest)
    requires forall j :: 0 <= j < |rest| ==> rest[j] in qs[1..]
    ensures UniqueHashes([qs[0]] + rest)
  {
    forall j | 0 <= j < |rest| ensures qs[0].hash != rest[j].hash {
      var k :| 0 <= k < |qs[1..]| && qs[1..][k] == rest[j];
      assert qs[k + 1] == rest[j];
    }
    var r := [qs[0]] + rest;
    forall i, j | 0 <= i < j < |r| ensures r[i].hash != r[j].hash {
      assert r[j] == rest[j - 1];
      if i > 0 {
        assert r[i] == rest[i - 1];
      }
    }
  }

  /** The mutable part of an entry, as a value. */
  datatype Entry = Entry(
    state: QueryState,
    promise: Option<nat>,
    flights: nat,
    subscribers: seq<Observer>,
    gcTimers: map<nat, nat>,
    gcTimeout: Option<nat>,
    nextTimer: nat)

  /** What every entry `q` satisfies, also after a synchronous throw: its
      subscribers are observers of `q`, its state is well formed, and a stored
      promise is that of the latest fetch. */
  predicate EntryConsistent(e: Entry, q: Query)
  {
    && (forall o :: o in e.subscribers ==> o.query == q)
    && WellFormed(e.state)
    && (e.promise.Some? ==> e.promise.value + 1 == e.flights)
  }

  /** The invariant of an entry `q` as the code intends it: consistent, and a
      stored promise is in flight, so the entry shows as fetching. */
  predicate EntryValid(e: Entry, q: Query)
  {
    EntryConsistent(e, q) && (e.promise.Some? ==> e.state.isFetching)
  }

  /** Revalidation keeps an entry's invariant. */
  lemma RevalidationKeepsValid(e: Entry, q: Query, now: nat)
    requires EntryValid(e, q)
    ensures EntryValid(Revalidated(e, now), q)
  {
    BeginFetchWellFormed(e.state);
  }

  /** Revalidation keeps an entry consistent, valid or not. */
  lemma RevalidationKeepsConsistent(e: Entry, q: Query, now: nat)
    requires EntryConsistent(e, q)
    ensures EntryConsistent(Revalidated(e, now), q)
  {
    BeginFetchWellFormed(e.state);
  }

  /** A new entry: loading, nothing in flight, no subscriber, no timer. */
  const NewEntry := Entry(InitialState, None, 0, [], map[], None, 0)

  /** Whether `subscriber.fetch()` for each subscriber starts a fetch: none is
      in flight and at least one subscriber finds the data stale (a fetch once
      started is in flight for the remaining subscribers). */
  predicate WillStart(e: Entry, now: nat)
  {
    e.promise.None? && AnyStale(e.state.lastUpdated, e.subscribers, now)
  }

  /** Some observer in `subs` finds data last updated at `lastUpdated` stale. */
  predicate AnyStale(lastUpdated: Option<nat>, subs: seq<Observer>, now: nat)
  {
    subs != [] && (AnyStale(lastUpdated, subs[..|subs| - 1], now) || IsStale(lastUpdated, subs[|subs| - 1].staleTime, now))
  }

  lemma {:induction false} AnyStaleExists(lastUpdated: Option<nat>, subs: seq<Observer>, now: nat)
    ensures AnyStale(lastUpdated, subs, now) <==> exists k :: 0 <= k < |subs| && IsStale(lastUpdated, subs[k].staleTime, now)
  {
    if subs != [] {
      var init := subs[..|subs| - 1];
      AnyStaleExists(lastUpdated, init, now);
      if exists k :: 0 <= k < |subs| && IsStale(lastUpdated, subs[k].staleTime, now) {
        var k :| 0 <= k < |subs| && IsStale(lastUpdated, subs[k].staleTime, now);
        if k < |init| {
          assert init[k] == subs[k];
        }
      }
      if AnyStale(lastUpdated, init, now) {
        var k :| 0 <= k < |init| && IsStale(lastUpdated, init[k].staleTime, now);
        assert subs[k] == init[k];
      }
    }
  }

  /** The entry after `query.fetch()` started a fetch. */
  function Started(e: Entry): Entry
  {
    e.(promise := Some(e.flights), flights := e.flights + 1, state := BeginFetch(e.state))
  }

  /** The entry after `query.fetch()`: a fetch starts unless one is in flight. */
  function Fetched(e: Entry): Entry
  {
    if e.promise.None? then Started(e) else e
  }

  /** The entry after all its subscribers ran their staleness-checked fetch. */
  function Revalidated(e: Entry, now: nat): Entry
  {
    if WillStart(e, now) then Started(e) else e
  }

  /** The notices the revalidation of one entry emits. */
  function RevalidationNotices(e: Entry, listeners: seq<CallbackId>, now: nat): seq<Notice>
  {
    if WillStart(e, now) then Fanout(e.subscribers, listeners) else []
  }

  /** Revalidation starts at most one fetch per entry, none while one is in
      flight and none for an entry nobody subscribes to; it changes nothing
      but the fetch fields. */
  lemma RevalidationStartsAtMostOne(e: Entry, listeners: seq<CallbackId>, now: nat)
    ensures Revalidated(e, now).flights <= e.flights + 1
    ensures e.promise.Some? ==> Revalidated(e, now) == e && RevalidationNotices(e, listeners, now) == []
    ensures e.subscribers == [] ==> Revalidated(e, now) == e
    ensures Revalidated(e, now).subscribers == e.subscribers
    ensures Revalidated(e, now).gcTimers == e.gcTimers && Revalidated(e, now).gcTimeout == e.gcTimeout
    ensures Revalidated(e, now).state.data == e.state.data && Revalidated(e, now).state.status == e.state.status
  {
  }

  /** The notices one revalidation emits, entry after entry. */
  function RevalidationLog(es: seq<Entry>, listeners: seq<CallbackId>, now: nat): seq<Notice>
  {
    if es == [] then []
    else RevalidationLog(es[..|es| - 1], listeners, now) + RevalidationNotices(es[|es| - 1], listeners, now)
  }

  /** Revalidating one more entry appends that entry's notices. */
  lemma RevalidationLogStep(es: seq<Entry>, k: nat, listeners: seq<CallbackId>, now: nat,
                            log0: seq<Notice>, log1: seq<Notice>, log2: seq<Notice>)
    requires k < |es|
    requires log1 == log0 + RevalidationLog(es[..k], listeners, now)
    requires log2 == log1 + RevalidationNotices(es[k], listeners, now)
    ensures log2 == log0 + RevalidationLog(es[..k + 1], listeners, now)
  {
    assert es[..k + 1][..k] == es[..k];
  }

  /** The entries of `qs`, as values. */
  ghost function Snapshots(qs: seq<Query>): (r: seq<Entry>)
    reads set i | 0 <= i < |qs| :: qs[i]
    ensures |r| == |qs|
    ensures forall i :: 0 <= i < |qs| ==> r[i] == qs[i].Snapshot()
  {
    if qs == [] then [] else Snapshots(qs[..|qs| - 1]) + [qs[|qs| - 1].Snapshot()]
  }

  /** The delay after which `setTimeout(callback, cacheTime)` runs its callback.
      The HTML Standard's timer initialization steps take the delay as a Web
      IDL `long`, so ConvertToInt maps `Infinity` to 0 and reduces a finite
      delay modulo 2^32 into the signed 32-bit range; a negative result is
      then raised to 0. */
  function TimerDelay(d: Duration): (r: nat)
    ensures r < 0x8000_0000
    ensures d.Finite? && d.ms < 0x8000_0000 ==> r == d.ms
  {
    match d
    case Forever => 0
    case Finite(ms) => var w := ms % 0x1_0000_0000; if w < 0x8000_0000 then w else 0
  }

  /** A cacheTime of `Infinity`, or of 2^31 ms (about 24.8 days) or more below
      2^32, yields a GC timer due at once; beyond that the delay wraps around. */
  lemma LongCacheTimeEvictsAtOnce(ms: nat)
    requires 0x8000_0000 <= ms < 0x1_0000_0000
    ensures TimerDelay(Forever) == 0
    ensures TimerDelay(Finite(ms)) == 0
    ensures TimerDelay(Finite(ms + 0x1_0000_0000)) == 0
    ensures TimerDelay(Finite(ms + 0x8000_0000)) == ms - 0x8000_0000
  {
  }

  /** The entry after `query.fetch()` when queryFn throws before returning a
      promise, as the code runs: the async function runs synchronously up to
      its first real suspension, so the start update, the `catch` update, the
      `finally` block's `promise = null` and its update all run before
      line 156 stores the (already settled) promise. */
  function Thrown(e: Entry, error: Option<Payload>): Entry
  {
    e.(promise := Some(e.flights), flights := e.flights + 1,
       state := FinishFetch(Fail(BeginFetch(e.state), error)))
  }

  /** The evidently intended effect of the same call: as if queryFn had
      rejected asynchronously, the fetch ends with no promise stored. */
  function ThrownIntended(e: Entry, error: Option<Payload>): Entry
  {
    e.(flights := e.flights + 1, state := FinishFetch(Fail(BeginFetch(e.state), error)))
  }

  /** As written, a queryFn that throws synchronously leaves a settled promise
      stored with the entry not fetching: the entry breaks its invariant, and
      no later `fetch()`, through revalidation or directly, starts a fetch
      again, because only a completing fetch clears the promise and none is
      pending. */
  lemma ThrowingFetchSticks(e: Entry, q: Query, error: Option<Payload>, now: nat)
    requires EntryConsistent(e, q) && e.promise.None?
    ensures var s := Thrown(e, error);
      && s.promise.Some? && !s.state.isFetching && !EntryValid(s, q) && EntryConsistent(s, q)
      && Fetched(s) == s && Revalidated(s, now) == s
      && !WillStart(s, now)
      && s.state == ThrownIntended(e, error).state
  {
  }

  /** The intended behaviour is the ordinary fetch cycle with a rejection:
      the entry keeps its invariant, ends in the state `Settle` gives a
      rejection, and the next `fetch()` starts a fetch. */
  lemma ThrowingFetchRecovers(e: Entry, q: Query, error: Option<Payload>, now: nat)
    requires EntryValid(e, q) && e.promise.None?
    ensures var s := ThrownIntended(e, error);
      && EntryValid(s, q) && s.promise == None
      && s.flights == Started(e).flights
      && s.state == Settle(Started(e).state, Rejected(error), now)
      && Fetched(s) == Started(s)
  {
    BeginFetchWellFormed(e.state);
    SettleWellFormed(BeginFetch(e.state), Rejected(error), now);
  }

  class QueryClient {
    var queries: seq<Query>
    var listeners: seq<CallbackId>
    /** Every callback invocation made so far, oldest first. */
    var log: seq<Notice>

    /** Hashes are unique and every entry belongs to this client. */
    ghost predicate Valid()
      reads this`queries
    {
      && UniqueHashes(queries)
      && (forall i :: 0 <= i < |queries| ==> queries[i].client == this)
    }

    /** Every entry's hash is its key's. */
    ghost predicate Keyed()
      reads this`queries
    {
      forall q :: q in queries ==> q.hash == Hash(q.key)
    }

    /** Every registered entry keeps its own invariant. */
    ghost predicate AllValid()
      reads this`queries, queries
    {
      forall i :: 0 <= i < |queries| ==> queries[i].Valid()
    }

    /** Every registered entry is consistent. */
    ghost predicate AllConsistent()
      reads this`queries, queries
    {
      forall i :: 0 <= i < |queries| ==> queries[i].Consistent()
    }

    constructor()
      ensures Valid() && Keyed() && AllValid()
      ensures queries == [] && listeners == [] && log == []
    {
      queries := [];
      listeners := [];
      log := [];
    }

    /** Resolves a key to its entry, reusing the entry with the same hash or
        appending a new one; an existing entry keeps its own queryFn and
        cacheTime. */
    method GetQuery(key: QueryKey, fn: QueryFnId, cacheTime: Duration := DefaultCacheTime) returns (q: Query)
      requires Valid() && Keyed()
      modifies this`queries
      ensures Valid() && Keyed()
      ensures q.client == this && q.key == key && q.hash == Hash(key) && q in queries
      ensures var found := FindByHash(old(queries), Hash(key));
        && (found.Some? ==> queries == old(queries) && q == old(queries)[found.value])
        && (found.None? ==> queries == old(queries) + [q] && fresh(q) && q.fn == fn && q.cacheTime == cacheTime
                             && q.Snapshot() == NewEntry && q.Valid() && q.GcSound())
      ensures old(AllValid()) ==> AllValid()
      ensures old(AllConsistent()) ==> AllConsistent()
    {
      var h := Hash(key);
      var found := FindByHash(queries, h);
      if found.Some? {
        q := queries[found.value];
        HashInjective(q.key, key);
      } else {
        q := new Query(this, key, fn, cacheTime);
        queries := queries + [q];
      }
    }

    /** Adds a global listener. */
    method Subscribe(cb: CallbackId)
      modifies this`listeners
      ensures listeners == old(listeners) + [cb]
    {
      listeners := listeners + [cb];
    }

    /** The function `subscribe` returns: drops every occurrence of `cb`. */
    method Unsubscribe(cb: CallbackId)
      modifies this`listeners
      ensures listeners == Remove(old(listeners), cb)
    {
      listeners := Remove(listeners, cb);
    }

    /** Calls every listener once, in registration order. */
    method Notify()
      modifies this`log
      ensures log == old(log) + ListenerNotices(listeners)
    {
      var i := 0;
      while i < |listeners|
        invariant 0 <= i <= |listeners|
        invariant log == old(log) + ListenerNotices(listeners[..i])
      {
        assert listeners[..i + 1][..i] == listeners[..i];
        log := log + [ListenerCalled(listeners[i])];
        i := i + 1;
      }
      assert listeners[..i] == listeners;
    }

    /** The inner loop of the focus handler:
        `query.subscribers.forEach((subscriber) => subscriber.fetch())`. */
    method RevalidateQuery(q: Query, now: nat)
      requires q.client == this && q.Consistent()
      modifies q`promise, q`flights, q`state, this`log
      ensures q.Consistent()
      ensures old(q.Valid()) ==> q.Valid()
      ensures q.Snapshot() == Revalidated(old(q.Snapshot()), now)
      ensures log == old(log) + RevalidationNotices(old(q.Snapshot()), listeners, now)
    {
      ghost var e := q.Snapshot();
      var j := 0;
      while j < |q.subscribers|
        invariant 0 <= j <= |q.subscribers|
        invariant q.Consistent()
        invariant EntryValid(e, q) ==> q.Valid()
        invariant q.subscribers == e.subscribers
        invariant var go := e.promise.None? && AnyStale(e.state.lastUpdated, q.subscribers[..j], now);
          && q.Snapshot() == (if go then Started(e) else e)
          && log == old(log) + (if go then Fanout(q.subscribers, listeners) else [])
      {
        assert q.subscribers[..j + 1][..j] == q.subscribers[..j];
        q.subscribers[j].Fetch(now);
        j := j + 1;
      }
      assert q.subscribers[..j] == q.subscribers;
    }

    /** The focus / visibilitychange handler of QueryClientProvider: every
        subscriber of every registered entry runs its staleness-checked fetch,
        entry after entry. */
    method Revalidate(now: nat)
      requires Valid() && AllConsistent()
      modifies this`log, queries`promise, queries`flights, queries`state
      ensures AllConsistent()
      ensures old(AllValid()) ==> AllValid()
      ensures RevalidatedUpTo(old(Snapshots(queries)), old(log), |queries|, now)
    {
      ghost var before := Snapshots(queries);
      ghost var wasValid := AllValid();
      var i := 0;
      while i < |queries|
        invariant 0 <= i <= |queries|
        invariant RevalidatedUpTo(before, old(log), i, now)
        invariant forall m :: 0 <= m < |queries| ==>
          && queries[m].subscribers == before[m].subscribers && queries[m].gcTimers == before[m].gcTimers
          && queries[m].gcTimeout == before[m].gcTimeout && queries[m].nextTimer == before[m].nextTimer
        invariant wasValid ==> forall m :: 0 <= m < |queries| ==> EntryValid(before[m], queries[m])
      {
        RevalidateNext(before, old(log), i, now);
        i := i + 1;
      }
      RevalidatedAll(before, old(log), now, wasValid);
    }

    /** After the whole pass every entry is its revalidated self, so it is
        still consistent, and still valid when it was valid before. */
    lemma RevalidatedAll(before: seq<Entry>, log0: seq<Notice>, now: nat, wasValid: bool)
      requires RevalidatedUpTo(before, log0, |queries|, now)
      requires forall m :: 0 <= m < |queries| ==>
        && queries[m].subscribers == before[m].subscribers && queries[m].gcTimers == before[m].gcTimers
        && queries[m].gcTimeout == before[m].gcTimeout && queries[m].nextTimer == before[m].nextTimer
      requires wasValid ==> forall m :: 0 <= m < |queries| ==> EntryValid(before[m], queries[m])
      ensures AllConsistent()
      ensures wasValid ==> AllValid()
    {
      forall m | 0 <= m < |queries| ensures queries[m].Consistent() {
        RevalidationKeepsConsistent(before[m], queries[m], now);
      }
      if wasValid {
        forall m | 0 <= m < |queries| ensures queries[m].Valid() {
          RevalidationKeepsValid(before[m], queries[m], now);
        }
      }
    }

    /** The entries before `i` are revalidated, those from `i` on are as
        they were, and the log holds the notices of the first `i`. */
    ghost predicate RevalidatedUpTo(before: seq<Entry>, log0: seq<Notice>, i: nat, now: nat)
      reads this`queries, this`log, this`listeners, queries
    {
      && i <= |queries| == |before|
      && (forall m :: 0 <= m < |queries| ==> EntryConsistent(before[m], queries[m]))
      && (forall m :: 0 <= m < |queries| ==>
            var e := if m < i then Revalidated(before[m], now) else before[m];
            queries[m].promise == e.promise && queries[m].flights == e.flights && queries[m].state == e.state)
      && log == log0 + RevalidationLog(before[..i], listeners, now)
    }

    /** One pass of the outer loop of `Revalidate`. */
    method RevalidateNext(ghost before: seq<Entry>, ghost log0: seq<Notice>, i: nat, now: nat)
      requires Valid() && i < |queries| && RevalidatedUpTo(before, log0, i, now)
      requires forall m :: 0 <= m < |queries| ==>
        && queries[m].subscribers == before[m].subscribers && queries[m].gcTimers == before[m].gcTimers
        && queries[m].gcTimeout == before[m].gcTimeout && queries[m].nextTimer == before[m].nextTimer
      modifies this`log, queries`promise, queries`flights, queries`state
      ensures RevalidatedUpTo(before, log0, i + 1, now)
      ensures forall m :: 0 <= m < |queries| ==>
        && queries[m].subscribers == before[m].subscribers && queries[m].gcTimers == before[m].gcTimers
        && queries[m].gcTimeout == before[m].gcTimeout && queries[m].nextTimer == before[m].nextTimer
    {
      var q := queries[i];
      ghost var e := q.Snapshot();
      assert e == before[i];
      assert q.Consistent();
      RevalidateQuery(q, now);
      RevalidationLogStep(before, i, listeners, now, log0, old(log), log);
      forall m | 0 <= m < |queries|
        ensures var e := if m < i + 1 then Revalidated(before[m], now) else before[m];
          queries[m].promise == e.promise && queries[m].flights == e.flights && queries[m].state == e.state
      {
        if m != i {
          assert queries[m].hash != queries[i].hash;
        }
      }
    }
  }

  class Query {
    const client: QueryClient
    const key: QueryKey
    const hash: string
    const fn: QueryFnId
    const cacheTime: Duration
    var state: QueryState
    /** The in-flight promise, identified by the number of the fetch it runs. */
    var promise: Option<nat>
    /** How many fetches have started, that is how often queryFn was invoked. */
    var flights: nat
    var subscribers: seq<Observer>
    /** Live GC timers: handle to deadline. */
    var gcTimers: map<nat, nat>
    /** `gcTimeout`: the handle of the last timer armed. */
    var gcTimeout: Option<nat>
    var nextTimer: nat

    ghost predicate Valid()
      reads this
    {
      EntryValid(Snapshot(), this)
    }

    ghost predicate Consistent()
      reads this
    {
      EntryConsistent(Snapshot(), this)
    }

    /** The mutable fields, as a value. */
    ghost function Snapshot(): Entry
      reads this
    {
      Entry(state, promise, flights, subscribers, gcTimers, gcTimeout, nextTimer)
    }

    /** Every live timer is the one `gcTimeout` names (so at most one is
        live), and a timer is live only while nobody subscribes. */
    ghost predicate GcSound()
      reads this
    {
      && (forall t :: t in gcTimers ==> gcTimeout == Some(t) && t < nextTimer)
      && (gcTimers != map[] ==> subscribers == [])
    }

    /** createQuery. */
    constructor(client: QueryClient, key: QueryKey, fn: QueryFnId, cacheTime: Duration)
      ensures this.client == client && this.key == key && hash == Hash(key)
      ensures this.fn == fn && this.cacheTime == cacheTime
      ensures state == InitialState && promise == None && flights == 0 && subscribers == []
      ensures gcTimers == map[] && gcTimeout == None && nextTimer == 0
      ensures Valid() && GcSound()
    {
      this.client := client;
      this.key := key;
      this.hash := Hash(key);
      this.fn := fn;
      this.cacheTime := cacheTime;
      state := InitialState;
      promise := None;
      flights := 0;
      subscribers := [];
      gcTimers := map[];
      gcTimeout := None;
      nextTimer := 0;
    }

    /** Replaces the state through `updater`, then notifies the entry's
        subscribers and the client's listeners. */
    method SetState(updater: QueryState -> QueryState)
      requires forall o :: o in subscribers ==> o.query == this
      modifies this`state, client`log
      ensures state == updater(old(state))
      ensures client.log == old(client.log) + Fanout(subscribers, client.listeners)
    {
      state := updater(state);
      var i := 0;
      while i < |subscribers|
        invariant 0 <= i <= |subscribers|
        invariant state == updater(old(state))
        invariant client.log == old(client.log) + ObserverNotices(subscribers[..i])
      {
        assert subscribers[..i + 1][..i] == subscribers[..i];
        subscribers[i].Notify();
        i := i + 1;
      }
      assert subscribers[..i] == subscribers;
      client.Notify();
    }

    /** Starts a fetch unless one is in flight; either way returns the
        in-flight promise. */
    method Fetch() returns (p: nat)
      requires Consistent()
      modifies this`promise, this`flights, this`state, client`log
      ensures Consistent()
      ensures old(Valid()) ==> Valid()
      ensures promise == Some(p)
      ensures Snapshot() == Fetched(old(Snapshot()))
      ensures client.log == old(client.log) + if old(promise).None? then Fanout(subscribers, client.listeners) else []
    {
      if promise.None? {
        promise := Some(flights);
        flights := flights + 1;
        BeginFetchWellFormed(state);
        SetState(BeginFetch);
      }
      p := promise.value;
    }

    /** `query.fetch()` with a queryFn that throws synchronously, as the
        code runs it (see `Thrown`): the entry is left with a settled promise
        and no longer satisfies `Valid`. */
    method FetchThrowing(error: Option<Payload>) returns (p: nat)
      requires Consistent()
      modifies this`promise, this`flights, this`state, client`log
      ensures promise == Some(p)
      ensures Snapshot() == if old(promise).None? then Thrown(old(Snapshot()), error) else old(Snapshot())
      ensures old(promise).None? ==> !Valid()
      ensures Consistent()
      ensures client.log == old(client.log) + if old(promise).None? then
        Fanout(subscribers, client.listeners) + Fanout(subscribers, client.listeners) + Fanout(subscribers, client.listeners)
        else []
    {
      if promise.None? {
        ghost var e := Snapshot();
        ThrowingFetchSticks(e, this, error, 0);
        var id := flights;
        RunThrowing(error);
        promise := Some(id);
      }
      p := promise.value;
    }

    /** The async function of `fetch()` when queryFn throws synchronously:
        it runs to its end before returning, `promise = null` included. */
    method RunThrowing(error: Option<Payload>)
      requires forall o :: o in subscribers ==> o.query == this
      modifies this`promise, this`flights, this`state, client`log
      ensures promise == None && flights == old(flights) + 1
      ensures state == FinishFetch(Fail(BeginFetch(old(state)), error))
      ensures client.log == old(client.log) + Fanout(subscribers, client.listeners) + Fanout(subscribers, client.listeners) + Fanout(subscribers, client.listeners)
    {
      flights := flights + 1;
      SetState(BeginFetch);
      Settled(Rejected(error), 0);
    }

    /** The same call as the code evidently intends it (see `ThrownIntended`):
        start the fetch, then complete it with the rejection. */
    method FetchThrowingFixed(error: Option<Payload>)
      requires Valid()
      modifies this`promise, this`flights, this`state, client`log
      ensures Valid()
      ensures Snapshot() == if old(promise).None? then ThrownIntended(old(Snapshot()), error) else old(Snapshot())
    {
      if promise.None? {
        var _ := Fetch();
        CompleteFetch(Rejected(error), 0);
      }
    }

    /** The in-flight fetch completes with `outcome` at time `now`. */
    method CompleteFetch(outcome: Outcome, now: nat)
      requires Valid() && promise.Some?
      modifies this`promise, this`state, client`log
      ensures Valid()
      ensures promise == None
      ensures state == Settle(old(state), outcome, now)
      ensures client.log == old(client.log) + Fanout(subscribers, client.listeners) + Fanout(subscribers, client.listeners)
    {
      SettleWellFormed(state, outcome, now);
      Settled(outcome, now);
    }

    /** The code after `await queryFn()` settles: the outcome's update, then
        `promise = null` and the `finally` update. */
    method Settled(outcome: Outcome, now: nat)
      requires forall o :: o in subscribers ==> o.query == this
      modifies this`promise, this`state, client`log
      ensures promise == None
      ensures state == Settle(old(state), outcome, now)
      ensures client.log == old(client.log) + Fanout(subscribers, client.listeners) + Fanout(subscribers, client.listeners)
    {
      match outcome {
        case Resolved(d) => SetState(s => Succeed(s, d, now));
        case Rejected(e) => SetState(s => Fail(s, e));
      }
      promise := None;
      SetState(FinishFetch);
    }

    /** Adds a subscriber and cancels the pending GC timer. */
    method Subscribe(o: Observer)
      requires Consistent() && o.query == this
      modifies this`subscribers, this`gcTimers
      ensures Consistent()
      ensures old(Valid()) ==> Valid()
      ensures subscribers == old(subscribers) + [o]
      ensures gcTimers == if gcTimeout.Some? then old(gcTimers) - {gcTimeout.value} else old(gcTimers)
      ensures old(GcSound()) ==> GcSound() && gcTimers == map[]
    {
      subscribers := subscribers + [o];
      UnscheduleGc();
    }

    /** The function `subscribe` returns: drops every occurrence of `o` and
        arms GC when no subscriber is left. */
    method Unsubscribe(o: Observer, now: nat)
      modifies this`subscribers, this`gcTimers, this`gcTimeout, this`nextTimer
      ensures old(Valid()) ==> Valid()
      ensures old(Consistent()) ==> Consistent()
      ensures subscribers == Remove(old(subscribers), o)
      ensures subscribers != [] ==>
        gcTimers == old(gcTimers) && gcTimeout == old(gcTimeout) && nextTimer == old(nextTimer)
      ensures subscribers == [] ==>
        && gcTimeout == Some(old(nextTimer)) && nextTimer == old(nextTimer) + 1
        && gcTimers == old(gcTimers)[old(nextTimer) := now + TimerDelay(cacheTime)]
      ensures old(GcSound()) && (old(subscribers) != [] || old(gcTimers) == map[]) ==> GcSound()
    {
      subscribers := Remove(subscribers, o);
      if |subscribers| == 0 {
        ScheduleGc(now);
      }
    }

    /** `setTimeout(..., cacheTime)`; an older live timer is not cleared. */
    method ScheduleGc(now: nat)
      modifies this`gcTimers, this`gcTimeout, this`nextTimer
      ensures gcTimeout == Some(old(nextTimer)) && nextTimer == old(nextTimer) + 1
      ensures gcTimers == old(gcTimers)[old(nextTimer) := now + TimerDelay(cacheTime)]
    {
      gcTimers := gcTimers[nextTimer := now + TimerDelay(cacheTime)];
      gcTimeout := Some(nextTimer);
      nextTimer := nextTimer + 1;
    }

    /** `clearTimeout(gcTimeout)`. */
    method UnscheduleGc()
      modifies this`gcTimers
      ensures gcTimers == if gcTimeout.Some? then old(gcTimers) - {gcTimeout.value} else old(gcTimers)
    {
      if gcTimeout.Some? {
        gcTimers := gcTimers - {gcTimeout.value};
      }
    }

    /** A due GC timer fires: this entry, and no other, leaves the registry,
        and the client's listeners are told. */
    method GcFire(t: nat, now: nat)
      requires t in gcTimers && gcTimers[t] <= now
      requires client.Valid() && client.Keyed()
      modifies this`gcTimers, client`queries, client`log
      ensures gcTimers == old(gcTimers) - {t}
      ensures client.queries == Remove(old(client.queries), this)
      ensures client.log == old(client.log) + ListenerNotices(client.listeners)
      ensures client.Valid() && client.Keyed()
      ensures old(GcSound()) ==> GcSound() && old(subscribers) == []
    {
      gcTimers := gcTimers - {t};
      RemoveKeepsHashesUnique(client.queries, this);
      client.queries := Remove(client.queries, this);
      client.Notify();
    }
  }

  class Observer {
    const query: Query
    const staleTime: Duration
    /** `observer.notify`: the consumer's callback, none before subscribe. */
    var callback: Option<CallbackId>

    constructor(query: Query, staleTime: Duration)
      ensures this.query == query && this.staleTime == staleTime && callback == None
    {
      this.query := query;
      this.staleTime := staleTime;
      callback := None;
    }

    /** `observer.notify()`. */
    method Notify()
      modifies query.client`log
      ensures query.client.log == old(query.client.log) + [ObserverNotified(this)]
    {
      query.client.log := query.client.log + [ObserverNotified(this)];
    }

    /** `observer.getResult()`: the entry's current state. */
    method GetResult() returns (s: QueryState)
      requires WellFormed(query.state)
      ensures s == query.state && WellFormed(s)
    {
      s := query.state;
    }

    /** Fetches through the entry when its data is stale for this observer. */
    method Fetch(now: nat)
      requires query.Consistent()
      modifies query`promise, query`flights, query`state, query.client`log
      ensures query.Consistent()
      ensures old(query.Valid()) ==> query.Valid()
      ensures var go := IsStale(old(query.state.lastUpdated), staleTime, now) && old(query.promise).None?;
        && query.Snapshot() == (if go then Started(old(query.Snapshot())) else old(query.Snapshot()))
        && query.client.log == old(query.client.log) + (if go then Fanout(query.subscribers, query.client.listeners) else [])
    {
      if IsStale(query.state.lastUpdated, staleTime, now) {
        var _ := query.Fetch();
      }
    }

    /** Installs the callback, subscribes to the entry (cancelling its GC) and
        immediately runs the staleness-checked fetch. */
    method Subscribe(cb: CallbackId, now: nat)
      requires query.Consistent()
      modifies this`callback, query`subscribers, query`gcTimers, query`promise, query`flights, query`state, query.client`log
      ensures callback == Some(cb)
      ensures query.Consistent()
      ensures old(query.Valid()) ==> query.Valid()
      ensures query.subscribers == old(query.subscribers) + [this]
      ensures query.gcTimers == if query.gcTimeout.Some? then old(query.gcTimers) - {query.gcTimeout.value} else old(query.gcTimers)
      ensures old(query.GcSound()) ==> query.GcSound() && query.gcTimers == map[]
      ensures var go := IsStale(old(query.state.lastUpdated), staleTime, now) && old(query.promise).None?;
        && query.promise == (if go then Some(old(query.flights)) else old(query.promise))
        && query.flights == old(query.flights) + (if go then 1 else 0)
        && query.state == (if go then BeginFetch(old(query.state)) else old(query.state))
        && query.client.log == old(query.client.log) + (if go then Fanout(query.subscribers, query.client.listeners) else [])
    {
      callback := Some(cb);
      query.Subscribe(this);
      Fetch(now);
    }
  }

  /** createQueryObserver: resolves the entry through the registry and binds
      a new observer to it, without subscribing. */
  method CreateObserver(client: QueryClient, key: QueryKey, fn: QueryFnId,
                        staleTime: Duration := DefaultStaleTime, cacheTime: Duration := DefaultCacheTime)
    returns (o: Observer)
    requires client.Valid() && client.Keyed()
    modifies client`queries
    ensures client.Valid() && client.Keyed() && fresh(o)
    ensures o.staleTime == staleTime && o.callback == None
    ensures o.query.client == client && o.query.key == key && o.query in client.queries
    ensures var found := FindByHash(old(client.queries), Hash(key));
      && (found.Some? ==> client.queries == old(client.queries) && o.query == old(client.queries)[found.value])
      && (found.None? ==> client.queries == old(client.queries) + [o.query] && fresh(o.query)
                           && o.query.fn == fn && o.query.cacheTime == cacheTime
                           && o.query.Snapshot() == NewEntry && o.query.Valid() && o.query.GcSound())
    ensures old(client.AllValid()) ==> client.AllValid()
    ensures old(client.AllConsistent()) ==> client.AllConsistent()
  {
    var q := client.GetQuery(key, fn, cacheTime);
    o := new Observer(q, staleTime);
  }

  /** Two components reading the same key share one entry and one fetch:
      the second observer finds the fetch in flight and starts none, the
      queryFn of the first registration is the one kept, and when the fetch
      resolves both observers see the same success. */
  method SharedFetchScenario(key: QueryKey, data: Payload)
    returns (fnUsed: QueryFnId, during: QueryState, after1: QueryState, after2: QueryState, calls: nat)
    ensures fnUsed == 7
    ensures during == InitialState
    ensures after1 == after2 == QueryState(Success, false, Some(data), None, Some(1000))
    ensures calls == 1
  {
    var a, b := TwoReaders(key);
    var q := a.query;
    fnUsed := q.fn;
    during := b.GetResult();
    q.CompleteFetch(Resolved(Some(data)), 1000);
    assert q.flights == 1;
    after1 := a.GetResult();
    after2 := b.GetResult();
    calls := q.flights;
  }

  /** The first half of SharedFetchScenario: a fresh client, one observer
      subscribed at time 0 with queryFn 7, a second one subscribed at time 10
      with queryFn 8. */
  method TwoReaders(key: QueryKey) returns (a: Observer, b: Observer)
    ensures a.query == b.query && fresh(a.query) && fresh(a.query.client)
    ensures var q := a.query;
      && q.Valid() && q.fn == 7
      && q.promise == Some(0) && q.flights == 1 && q.state == InitialState
  {
    a := FirstReader(key);
    var q := a.query;
    b := CreateObserver(q.client, key, 8);
    assert b.query == q;
    b.Subscribe(2, 10);
  }

  /** The first step of TwoReaders: a fresh client whose only entry is that
      of `key`, with one observer subscribed at time 0 with queryFn 7. */
  method FirstReader(key: QueryKey) returns (a: Observer)
    ensures fresh(a.query) && fresh(a.query.client)
    ensures var q := a.query;
      && q.client.Valid() && q.client.Keyed() && q.client.queries == [q] && q.key == key
      && q.Valid() && q.fn == 7
      && q.promise == Some(0) && q.flights == 1 && q.state == InitialState
  {
    a := FreshObserver(key);
    ghost var q := a.query;
    assert q.Valid() && q.Consistent() && IsStale(q.state.lastUpdated, a.staleTime, 0);
    a.Subscribe(1, 0);
    assert q.client.Valid() && q.client.Keyed();
  }

  /** A fresh client whose only entry is that of `key`, with queryFn 7, and
      one observer of it not yet subscribed. */
  method FreshObserver(key: QueryKey) returns (a: Observer)
    ensures fresh(a) && fresh(a.query) && fresh(a.query.client)
    ensures var q := a.query;
      && q.client.Valid() && q.client.Keyed() && q.client.queries == [q] && q.key == key
      && q.fn == 7 && q.Snapshot() == NewEntry && a.staleTime == DefaultStaleTime && a.callback == None
  {
    var client := new QueryClient();
    a := CreateObserver(client, key, 7);
  }

  /** Calling an unsubscribe function twice arms a second GC timer without
      clearing the first; a later subscribe clears only the second, so the
      first fires and evicts the entry from the registry although it has a
      live subscriber again. */
  method LeakedTimerScenario(q: Query, o: Observer)
    requires q.client.Valid() && q.client.Keyed() && q.Valid() && o.query == q
    requires q in q.client.queries && q.Snapshot() == NewEntry
    modifies q, q.client`queries, q.client`log
    ensures q.client.queries == Remove(old(q.client.queries), q)
    ensures q !in q.client.queries && q.subscribers == [o]
  {
    TwoTimers(q, o);
    q.Subscribe(o);
    assert q.gcTimers == map[0 := TimerDelay(q.cacheTime)] && q.subscribers == [o];
    q.GcFire(0, TimerDelay(q.cacheTime));
  }

  /** The other way to arm two GC timers: the same observer subscribes twice
      and each unsubscribe function is called once. The first drops both
      occurrences and arms a timer; the second finds the list already empty
      and arms another, leaving two live timers. */
  method DoubleSubscribeScenario(q: Query, o: Observer)
    requires q.Valid() && o.query == q && q.Snapshot() == NewEntry
    modifies q`subscribers, q`gcTimers, q`gcTimeout, q`nextTimer
    ensures q.Valid() && q.subscribers == []
    ensures q.gcTimers == map[0 := TimerDelay(q.cacheTime), 1 := TimerDelay(q.cacheTime)] && q.gcTimeout == Some(1)
    ensures !q.GcSound()
  {
    SubscribeTwice(q, o);
    q.Unsubscribe(o, 0);
    assert multiset([o, o])[o := 0] == multiset{};
    assert q.subscribers == [];
    assert q.gcTimers == map[0 := TimerDelay(q.cacheTime)] && q.nextTimer == 1;
    q.Unsubscribe(o, 0);
    assert 0 in q.gcTimers && q.gcTimeout != Some(0);
  }

  /** The first step of DoubleSubscribeScenario. */
  method SubscribeTwice(q: Query, o: Observer)
    requires q.Valid() && o.query == q && q.Snapshot() == NewEntry
    modifies q`subscribers, q`gcTimers
    ensures q.Valid() && q.subscribers == [o, o]
    ensures q.gcTimers == map[] && q.gcTimeout == None && q.nextTimer == 0
  {
    q.Subscribe(o);
    q.Subscribe(o);
  }

  /** The first half of LeakedTimerScenario: subscribe at time 0, then call
      the unsubscribe function twice; two timers are live and `gcTimeout`
      names only the second. */
  method TwoTimers(q: Query, o: Observer)
    requires q.Valid() && o.query == q && q.Snapshot() == NewEntry
    modifies q`subscribers, q`gcTimers, q`gcTimeout, q`nextTimer
    ensures q.Valid() && q.subscribers == []
    ensures q.gcTimers == map[0 := TimerDelay(q.cacheTime), 1 := TimerDelay(q.cacheTime)] && q.gcTimeout == Some(1)
  {
    q.Subscribe(o);
    assert q.gcTimers == map[] && q.nextTimer == 0;
    q.Unsubscribe(o, 0);
    assert q.gcTimers == map[0 := TimerDelay(q.cacheTime)] && q.nextTimer == 1;
    q.Unsubscribe(o, 0);
  }
}

