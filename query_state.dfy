/** The state record of one cache entry, the pure updaters that the entry's
    fetch passes to `setState`, and the observer's staleness rule. */
module QueryStates {
  import opened Common

  /** A value produced by the caller's queryFn (data) or thrown by it (error);
      the engine stores it without looking inside. */
  type Payload = string

  datatype Status = Loading | Success | Error

  /** How the awaited queryFn settled: the value it resolved with, or the
      value it threw. Either may be `undefined` (`None`): a queryFn may resolve
      with nothing, and `throw undefined` is legal. */
  datatype Outcome = Resolved(data: Option<Payload>) | Rejected(error: Option<Payload>)

  /** `query.state`; `None` stands for a field that is `undefined`. */
  datatype QueryState = QueryState(
    status: Status,
    isFetching: bool,
    data: Option<Payload>,
    error: Option<Payload>,
    lastUpdated: Option<nat>)

  /** A staleTime or a cacheTime: a number of milliseconds, or `Infinity`. */
  datatype Duration = Finite(ms: nat) | Forever

  /** The state a new entry starts in. */
  const InitialState := QueryState(Loading, true, None, None, None)

  /** `staleTime = 0` in the observer's options. */
  const DefaultStaleTime := Finite(0)

  /** `cacheTime = 5 * 60 * 1000` in createQuery's options. */
  const DefaultCacheTime := Finite(5 * 60 * 1000)

  /** The updater applied when a fetch starts. */
  function BeginFetch(s: QueryState): QueryState
  {
    s.(isFetching := true, error := None)
  }

  /** The updater applied when queryFn resolved with `data` at time `now`. */
  function Succeed(s: QueryState, data: Option<Payload>, now: nat): QueryState
  {
    s.(status := Success, lastUpdated := Some(now), data := data)
  }

  /** The updater applied when queryFn threw `error`. */
  function Fail(s: QueryState, error: Option<Payload>): QueryState
  {
    s.(status := Error, error := error)
  }

  /** The updater of the `finally` block. */
  function FinishFetch(s: QueryState): QueryState
  {
    s.(isFetching := false)
  }

  /** The two updates a completing fetch applies, in order: the outcome's,
      then the `finally` one. */
  function Settle(s: QueryState, outcome: Outcome, now: nat): (r: QueryState)
    ensures !r.isFetching
    ensures outcome.Resolved? ==>
      r.status == Success && r.data == outcome.data && r.lastUpdated == Some(now) && r.error == s.error
    ensures outcome.Rejected? ==>
      r.status == Error && r.error == outcome.error && r.data == s.data && r.lastUpdated == s.lastUpdated
  {
    match outcome
    case Resolved(d) => FinishFetch(Succeed(s, d, now))
    case Rejected(e) => FinishFetch(Fail(s, e))
  }

  /** A whole fetch cycle, start then completion. The status does not move
      while the fetch runs; a success leaves no error behind; a failure keeps
      the data and timestamp of the last success. */
  lemma FetchCycle(s: QueryState, outcome: Outcome, now: nat)
    ensures BeginFetch(s).isFetching && BeginFetch(s).error == None
    ensures BeginFetch(s).status == s.status && BeginFetch(s).data == s.data
    ensures BeginFetch(s).lastUpdated == s.lastUpdated
    ensures var r := Settle(BeginFetch(s), outcome, now);
      && !r.isFetching
      && (outcome.Resolved? ==> r == QueryState(Success, false, outcome.data, None, Some(now)))
      && (outcome.Rejected? ==> r == QueryState(Error, false, s.data, outcome.error, s.lastUpdated))
  {
  }

  /** What every reachable entry state satisfies: `loading` means nothing has
      come back yet, and a `success` always carries its timestamp. (Its data
      may be `undefined`: that is what the queryFn resolved with.) */
  predicate WellFormed(s: QueryState)
  {
    && (s.status == Loading ==> s.data == None && s.error == None && s.lastUpdated == None)
    && (s.status == Success ==> s.lastUpdated.Some?)
  }

  lemma InitialWellFormed()
    ensures WellFormed(InitialState)
  {
  }

  /** Starting a fetch keeps the state well formed. */
  lemma BeginFetchWellFormed(s: QueryState)
    requires WellFormed(s)
    ensures WellFormed(BeginFetch(s))
  {
  }

  /** Completing a fetch keeps the state well formed and never leaves the
      entry `loading`. */
  lemma SettleWellFormed(s: QueryState, outcome: Outcome, now: nat)
    requires WellFormed(s)
    ensures WellFormed(Settle(s, outcome, now))
    ensures Settle(s, outcome, now).status != Loading
  {
  }

  /** The observer's rule `!lastUpdated || now - lastUpdated > staleTime`.
      A timestamp of 0 is falsy in JavaScript and so counts as absent. */
  predicate IsStale(lastUpdated: Option<nat>, staleTime: Duration, now: nat)
  {
    || lastUpdated == None
    || lastUpdated == Some(0)
    || (staleTime.Finite? && now - lastUpdated.value > staleTime.ms)
  }

  /** The comparison is strict: data exactly `staleTime` old is still fresh,
      one millisecond later it is stale. */
  lemma StaleBoundary(t: nat, ms: nat)
    requires t > 0
    ensures !IsStale(Some(t), Finite(ms), t + ms)
    ensures IsStale(Some(t), Finite(ms), t + ms + 1)
  {
  }

  /** With the default staleTime of 0, data from any earlier instant is stale. */
  lemma DefaultStaleTimeAlwaysRefetches(t: nat, now: nat)
    requires t < now
    ensures IsStale(Some(t), DefaultStaleTime, now)
  {
  }

  /** With `staleTime = Infinity` only an entry that never succeeded is stale,
      however much time passes. */
  lemma ForeverNeverStale(lastUpdated: Option<nat>, now: nat)
    ensures IsStale(lastUpdated, Forever, now) <==> lastUpdated == None || lastUpdated == Some(0)
  {
  }

  /** Once stale, an entry stays stale as time goes on. */
  lemma StaleIsMonotonic(lastUpdated: Option<nat>, staleTime: Duration, t1: nat, t2: nat)
    requires t1 <= t2 && IsStale(lastUpdated, staleTime, t1)
    ensures IsStale(lastUpdated, staleTime, t2)
  {
  }
}
