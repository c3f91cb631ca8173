# react-query-lite: a verified model of the query cache

react-query-lite is a small data-fetching cache for React. Components read
server data through `useQuery`. Requests for the same key share one cache
entry, and one fetch is used while that entry is in flight. An entry is
refetched when its data is stale, and it is removed a while after the last
reader goes away. This project models the engine in
`src/utils/react-query-lite.js` as a single-threaded state machine and
proves its properties in Dafny. The parts are:

- `QueryClient`, the registry of entries, which looks an entry up by the hash
  of its key;
- the cache entry that `createQuery` builds, with its state, in-flight
  promise, subscribers and garbage-collection timer;
- the observer that `createQueryObserver` binds to one consumer, which
  applies the staleness rule;
- the focus/visibility revalidation loop of `QueryClientProvider`;
- the devtools panel's listing, which sorts entries by hash and labels each
  with a status.

Files and modules:

- `common.dfy` (`Common`): `Option`, and `Remove`, the `filter((d) => d !== x)`
  the engine uses on listeners, subscribers and entries.
- `query_hash.dfy` (`QueryHash`): query keys (strings, safe integers, arrays)
  and their hash. The hash is the string, integer and array fragment of
  ECMA-262 `JSON.stringify` (section 25.5.2, with QuoteJSONString and
  Number::toString). Integers are the safe integers, of magnitude at most
  2^53 - 1, which a JavaScript number holds exactly and Number::toString
  prints digit for digit. The module proves the hash injective.
- `query_state.dfy` (`QueryStates`): the entry's state record. It holds the
  pure updaters passed to `setState`, the well-formedness invariant and the
  observer's staleness predicate.
- `engine.dfy` (`Engine`): the classes `QueryClient`, `Query` and `Observer`,
  with the revalidation loop and two scenarios.
- `devtools.dfy` (`Devtools`): the status label and the sorted listing.

How notifications are modelled: callbacks are not called back into the
engine. Every `subscriber.notify()` and every client listener call is
appended to `QueryClient.log`, in the order the source makes them.

How the async fetch is modelled: it is split in two steps.
- `Query.Fetch` is the synchronous start.
- `Query.CompleteFetch(outcome, now)` is the continuation after
  `await queryFn()`.
- The outcome is `Resolved(data)` or `Rejected(error)`, with opaque
  payloads. Either may be `undefined` (`None`): a queryFn may resolve with
  nothing, and it may throw `undefined`.
- A queryFn that throws synchronously, before returning a promise, runs a
  different path; it is modelled as written by `Query.FetchThrowing` (see
  "## Findings").
- A promise is identified by the number of the fetch it runs, so
  `Query.flights` counts the invocations of `queryFn`.

How time is modelled:
- The clock is a `now` parameter.
- A `setTimeout` becomes an entry in `Query.gcTimers`, mapping a handle to
  its deadline.
- `gcTimeout` is the handle of the last timer armed.
- `Query.GcFire` is the step the environment takes when a timer is due.
- A timer's deadline is `now + TimerDelay(cacheTime)`. `TimerDelay` applies
  the HTML Standard's timer steps, which take the delay as a Web IDL `long`:
  `Infinity` becomes 0, a finite delay is reduced modulo 2^32 into the
  signed 32-bit range, and a negative one becomes 0. So a cacheTime of
  `Infinity`, or of 2^31 ms or more below 2^32, evicts the entry at once
  (`LongCacheTimeEvictsAtOnce`).

Two behaviours of the code are modelled as written:

- **JavaScript truthiness in the staleness check.** `!lastUpdated` treats a
  timestamp of 0 as absent, and `IsStale` does the same.
- **Stale GC timers.** `scheduleGC` overwrites `gcTimeout` without clearing a
  timer that is still live. `Query.GcSound` says that at most one timer is
  live, and only while the entry has no subscriber. Every step keeps it
  except one: an unsubscribe that runs while the subscriber list is already
  empty and a timer is live (the exact condition in `Query.Unsubscribe`'s
  contract). Such an unsubscribe arms a second timer, and no later
  `subscribe` cancels the first. Two call sequences reach it:
  - calling one unsubscribe function twice (`TwoTimers`);
  - subscribing the same observer twice and calling each returned
    unsubscribe function once (`DoubleSubscribeScenario`). The first call's
    filter drops both occurrences and arms a timer; the second finds the
    list empty and arms another.

  `LeakedTimerScenario` continues the first sequence: after a re-subscribe,
  the first timer fires and evicts the entry while it has a subscriber.

## Model

| member | source | states |
|---|---|---|
| Common.Remove | src/utils/react-query-lite.js:49 | The filter drops every occurrence of `x`. Every survivor comes from the input, and the multiset of survivors is the input's with the count of `x` set to zero. |
| Common.RemoveKeepsOthers | src/utils/react-query-lite.js:138 | Every element other than `x` survives the filter, and the length drops by exactly the number of occurrences of `x`. |
| Common.RemoveAppend | src/utils/react-query-lite.js:147 | Filtering a concatenation filters each part, so the survivors keep their relative order. |
| Common.RemoveAbsent | src/utils/react-query-lite.js:49 | Filtering out an element that is not present returns the list unchanged. |
| QueryHash.Hash | src/utils/react-query-lite.js:34 | Definition of the hash, `JSON.stringify(queryKey)` (also line 117): a quoted escaped string, an integer's decimal text, or a bracketed comma-separated list. Its properties are HashInjective, HashPrefix and HashShape. |
| QueryHash.EscapeChar | src/utils/react-query-lite.js:34 | Definition of QuoteJSONString for one character: the two-character escapes, `\u00hh` for other control characters, else the character. Properties in EscapeCharPrefixFree. |
| QueryHash.Escape | src/utils/react-query-lite.js:34 | Definition of a string body: EscapeChar of each character in turn. Properties in EscapeInjective. |
| QueryHash.NumberString | src/utils/react-query-lite.js:34 | Definition of Number::toString on a safe integer: an optional minus sign, then the decimal digits. Properties in NumberPrefix. |
| QueryHash.HashInjective | src/utils/react-query-lite.js:34-35 | Two keys have equal `JSON.stringify` hashes exactly when they are equal keys, so lookup by hash means lookup by key. |
| QueryHash.TypeSensitive | src/utils/react-query-lite.js:117 | `['post', 1]` and `['post', '1']` hash differently. |
| QueryHash.HashPrefix | src/utils/react-query-lite.js:34 | A serialized key followed by nothing, a comma or a closing bracket can be split in only one way. |
| QueryHash.JoinPrefix | src/utils/react-query-lite.js:34 | The comma-separated body of an array, closed by its bracket, determines the elements and what follows. |
| QueryHash.EscapeInjective | src/utils/react-query-lite.js:34 | Escaped string bodies, closed by their quote, determine the string and what follows. |
| QueryHash.EscapeCharPrefixFree | src/utils/react-query-lite.js:34 | No escape sequence of QuoteJSONString is a proper prefix of another, and different characters escape differently. |
| QueryHash.NumberPrefix | src/utils/react-query-lite.js:34 | An integer's text followed by a non-digit determines the integer and what follows. |
| QueryStates.BeginFetch | src/utils/react-query-lite.js:157-161 | Definition of the start updater: isFetching set, error cleared, all else kept. Properties in FetchCycle and BeginFetchWellFormed. |
| QueryStates.Succeed | src/utils/react-query-lite.js:164-169 | Definition of the success updater: status `success`, `lastUpdated` the time, data the result. Properties in Settle and FetchCycle. |
| QueryStates.Fail | src/utils/react-query-lite.js:171-175 | Definition of the error updater: status `error`, error the thrown value. Properties in Settle and FetchCycle. |
| QueryStates.FinishFetch | src/utils/react-query-lite.js:178-181 | Definition of the `finally` updater: isFetching cleared. Properties in Settle. |
| QueryStates.IsStale | src/utils/react-query-lite.js:211-213 | Definition of the staleness test, with a 0 timestamp treated as absent. Properties in StaleBoundary, DefaultStaleTimeAlwaysRefetches, ForeverNeverStale and StaleIsMonotonic. |
| QueryStates.Settle | src/utils/react-query-lite.js:162-181 | After completion the entry is not fetching. On success the status is `success`, the data is the result (possibly `undefined`), `lastUpdated` is `now` and the error is kept. On error the status is `error` and the error is the thrown value (possibly `undefined`), while the data and `lastUpdated` keep their prior values. |
| QueryStates.FetchCycle | src/utils/react-query-lite.js:157-181 | A start sets isFetching and clears the error without touching status, data or `lastUpdated`. A full start-then-complete cycle ends in exactly `success/not fetching/data/no error/now`, or in `error/not fetching/old data/error/old lastUpdated`. |
| QueryStates.InitialWellFormed | src/utils/react-query-lite.js:121-126 | The initial state (`loading`, fetching, no data, no error) is well formed: `loading` has no data, error or timestamp, and `success` has a timestamp. |
| QueryStates.BeginFetchWellFormed | src/utils/react-query-lite.js:157-161 | Starting a fetch keeps the state well formed. |
| QueryStates.SettleWellFormed | src/utils/react-query-lite.js:162-181 | Completing a fetch keeps the state well formed and never leaves the entry `loading`. |
| QueryStates.StaleBoundary | src/utils/react-query-lite.js:211-213 | The staleness comparison is strict: data exactly `staleTime` old is fresh, and one millisecond later it is stale. |
| QueryStates.DefaultStaleTimeAlwaysRefetches | src/utils/react-query-lite.js:195-213 | With the default `staleTime = 0`, data from any earlier instant is stale. |
| QueryStates.ForeverNeverStale | src/utils/react-query-lite.js:211-213 | With `staleTime = Infinity`, only an entry without a (truthy) timestamp is stale. |
| QueryStates.StaleIsMonotonic | src/utils/react-query-lite.js:211-213 | Once stale, data stays stale as time advances. |
| Engine.WillStart | src/utils/react-query-lite.js:7-13 | Definition: revalidating an entry starts a fetch when none is in flight and some subscriber finds the data stale. Properties in AnyStaleExists and RevalidationStartsAtMostOne. |
| Engine.Started | src/utils/react-query-lite.js:154-161 | Definition of the entry after a fetch starts: the promise is that fetch, the count goes up, BeginFetch applied. Query.Fetch is proved against it. |
| Engine.Fetched | src/utils/react-query-lite.js:154-161 | Definition of `query.fetch()` on an entry value: Started unless a promise is in flight. Query.Fetch is proved against it; used in ThrowingFetchSticks and ThrowingFetchRecovers. |
| Engine.Revalidated | src/utils/react-query-lite.js:7-13 | Definition of one entry after the focus handler: Started when WillStart, else unchanged. RevalidateQuery is proved against it; properties in RevalidationStartsAtMostOne and RevalidationKeepsValid. |
| Engine.Thrown | src/utils/react-query-lite.js:154-186 | Definition of the as-written result of a fetch whose queryFn throws synchronously: a rejected state, not fetching, with the promise stored. Query.FetchThrowing is proved against it; ThrowingFetchSticks states its consequences. |
| Engine.ThrownIntended | src/utils/react-query-lite.js:154-186 | Definition of the intended result of the same fetch: the rejected state with no promise stored. Query.FetchThrowingFixed is proved against it; ThrowingFetchRecovers states its consequences. |
| Engine.ObserverNotices | src/utils/react-query-lite.js:129 | One `notify` per subscriber, in registration order. |
| Engine.ListenerNotices | src/utils/react-query-lite.js:54 | One call per listener, in registration order. |
| Engine.FanoutOrder | src/utils/react-query-lite.js:127-131 | What one `setState` emits: first each entry subscriber once, in order, then each client listener once, in order, and nothing else. |
| Engine.FindByHash | src/utils/react-query-lite.js:35 | `find` returns the first entry with the hash. It returns none exactly when no entry has that hash. |
| Engine.RemoveKeepsHashesUnique | src/utils/react-query-lite.js:147 | Removing an entry from a registry with distinct hashes leaves the hashes distinct. |
| Engine.AnyStaleExists | src/utils/react-query-lite.js:9-10 | Revalidating an entry's subscribers finds stale data exactly when some subscriber's staleTime makes it stale. |
| Engine.RevalidationKeepsValid | src/utils/react-query-lite.js:7-13 | Revalidation keeps an entry's invariant: well-formed state, its own observers, and an in-flight promise that is the latest fetch. |
| Engine.RevalidationKeepsConsistent | src/utils/react-query-lite.js:7-13 | Revalidation keeps the weaker invariant that also holds after a synchronous throw: well-formed state, its own observers, and a stored promise that is the latest fetch. |
| Engine.RevalidationStartsAtMostOne | src/utils/react-query-lite.js:7-13 | Revalidation starts at most one fetch per entry. It starts none while one is in flight and none for an entry without subscribers. It changes only the fetch fields, so data and status are kept. |
| Engine.QueryClient.constructor | src/utils/react-query-lite.js:27-31 | A new client has no entries and no listeners, and satisfies the registry invariant. |
| Engine.QueryClient.GetQuery | src/utils/react-query-lite.js:33-43 | If an entry with the key's hash exists, it is returned and the registry is unchanged, so a later caller's queryFn and cacheTime are ignored. Otherwise exactly one fresh entry is appended in the initial state, with no promise, no subscriber and no timer. Hashes stay unique, and every entry stays valid, or consistent, if all were. |
| Engine.QueryClient.Subscribe | src/utils/react-query-lite.js:45-47 | The callback is appended to the listeners. |
| Engine.QueryClient.Unsubscribe | src/utils/react-query-lite.js:48-50 | Every occurrence of the callback is removed, and the other listeners keep their order (`Common.Remove`). |
| Engine.QueryClient.Notify | src/utils/react-query-lite.js:53-55 | The log grows by one call per listener, in order. |
| Engine.QueryClient.RevalidateQuery | src/utils/react-query-lite.js:9-11 | Running every subscriber's fetch leaves the entry as `Revalidated` describes it. The log grows by exactly the one fan-out of the fetch that started, if any. It applies to any consistent entry, including one a synchronous throw left behind; the entry stays consistent, and stays valid if it was. |
| Engine.QueryClient.Revalidate | src/utils/react-query-lite.js:7-13 | After the focus handler, every entry is revalidated against its state before the loop, entry after entry. The log holds their notices in registry order. It runs on any registry of consistent entries, also after a synchronous throw; every entry stays consistent, and all stay valid if all were. |
| Engine.QueryClient.RevalidatedAll | src/utils/react-query-lite.js:7-13 | Once every entry is revalidated, all entries are still consistent, and all are valid if they were before. |
| Engine.QueryClient.RevalidateNext | src/utils/react-query-lite.js:8-12 | One pass of the outer loop revalidates the next entry and appends its notices, leaving the later entries untouched. Entries need only be consistent. |
| Engine.Query.constructor | src/utils/react-query-lite.js:114-126 | createQuery: the hash is `JSON.stringify(queryKey)`. The state is `loading`, fetching, with no data and no error. There is no promise, no subscriber and no timer. |
| Engine.Query.SetState | src/utils/react-query-lite.js:127-131 | The state becomes `updater(old state)`. The log grows by the subscribers' notices in order, then the listeners' calls. |
| Engine.Query.Fetch | src/utils/react-query-lite.js:154-161 | While a promise is in flight nothing changes and the same promise is returned (line 186). Otherwise exactly one fetch starts: the count goes up by one, the new promise is in flight, isFetching is set, the error is cleared, and one fan-out is logged. It applies to any consistent entry; the entry stays consistent, and stays valid if it was. |
| Engine.Query.CompleteFetch | src/utils/react-query-lite.js:162-181 | After the await, the promise is cleared and the state is `Settle(old state, outcome, now)`. Two fan-outs are logged, one per `setState`, and the entry stays valid. |
| Engine.Query.Settled | src/utils/react-query-lite.js:163-181 | The code after the await: the state becomes `Settle(old state, outcome, now)`, the promise is cleared, and two fan-outs are logged. |
| Engine.Query.FetchThrowing | src/utils/react-query-lite.js:154-186 | With a queryFn that throws synchronously, a fetch that starts ends with the state of a rejected fetch, not fetching, yet with the settled promise stored, so the entry no longer satisfies its invariant. Three fan-outs are logged. |
| Engine.Query.RunThrowing | src/utils/react-query-lite.js:156-183 | The async function run to its end inside `fetch()`: one more queryFn call, the start, `catch` and `finally` updates in order, the promise cleared, three fan-outs. |
| Engine.Query.FetchThrowingFixed | src/utils/react-query-lite.js:154-186 | The intended behaviour of the same call: the fetch ends as a rejected one with no promise stored, and the entry keeps its invariant. |
| Engine.ThrowingFetchSticks | src/utils/react-query-lite.js:154-186 | After a synchronous throw the stored promise is settled while the entry is not fetching. The entry is still consistent but no longer valid, and neither `fetch()` nor revalidation starts a fetch again. |
| Engine.ThrowingFetchRecovers | src/utils/react-query-lite.js:162-181 | The intended result equals a start followed by a rejection (`Settle`), keeps the invariant, and lets the next `fetch()` start a fetch. |
| Engine.Query.Subscribe | src/utils/react-query-lite.js:132-135 | The subscriber is appended and the timer named by `gcTimeout` is cancelled. From a sound GC state no timer stays live. The entry stays consistent, and valid if it was. |
| Engine.Query.Unsubscribe | src/utils/react-query-lite.js:137-143 | It applies to any entry, and keeps the invariant of a valid one and the consistency of a consistent one. Exactly that subscriber is removed. Exactly when the list becomes empty, a new timer is armed with deadline `now + TimerDelay(cacheTime)` and named by `gcTimeout`. A sound GC state stays sound unless the list was already empty with a timer live. |
| Engine.Query.ScheduleGc | src/utils/react-query-lite.js:145-150 | A new timer with deadline `now + TimerDelay(cacheTime)` is armed, and `gcTimeout` names it. An older live timer is not cleared. |
| Engine.Query.UnscheduleGc | src/utils/react-query-lite.js:151-153 | Only the timer named by `gcTimeout` is cancelled. |
| Engine.Query.GcFire | src/utils/react-query-lite.js:146-149 | When a due timer fires, this entry and no other leaves the registry, the others keep their order, and the listeners are called once each. The registry invariant is kept, and from a sound GC state the entry had no subscriber. |
| Engine.TimerDelay | src/utils/react-query-lite.js:146-149 | The delay `setTimeout` applies is below 2^31, and equals cacheTime whenever cacheTime is below 2^31. |
| Engine.LongCacheTimeEvictsAtOnce | src/utils/react-query-lite.js:146-149 | A cacheTime of `Infinity`, or from 2^31 up to 2^32 ms, gives a delay of 0; beyond 2^32 the delay wraps around. |
| Engine.Observer.constructor | src/utils/react-query-lite.js:199-201 | A new observer is bound to its entry with its staleTime and has no callback yet. |
| Engine.Observer.Notify | src/utils/react-query-lite.js:200 | One notice for this observer is logged. |
| Engine.Observer.GetResult | src/utils/react-query-lite.js:201 | The entry's current state is returned. It needs only a well-formed state, so it also applies after the as-written synchronous throw. |
| Engine.Observer.Fetch | src/utils/react-query-lite.js:210-217 | A fetch starts exactly when the data is stale for this observer's staleTime and none is in flight. Otherwise nothing changes. It needs only a consistent entry, which stays consistent, and valid if it was. |
| Engine.Observer.Subscribe | src/utils/react-query-lite.js:202-209 | The callback is installed, the observer is appended to the entry (cancelling its GC timer), and the staleness-checked fetch runs at once. It needs only a consistent entry, which stays consistent, and valid if it was. |
| Engine.CreateObserver | src/utils/react-query-lite.js:193-198 | The observer is bound to the entry GetQuery resolves for the key. `staleTime` defaults to 0 and `cacheTime` to five minutes. The registry invariant is kept, and so are the validity and the consistency of all entries. |
| Engine.SharedFetchScenario | src/utils/react-query-lite.js:154-187 | Two observers of one key share one entry and one fetch. The first queryFn is kept, queryFn runs once, and both end with the same success. |
| Engine.TwoReaders | src/utils/react-query-lite.js:202-217 | The second observer finds the fetch of the first in flight and starts nothing. |
| Engine.FirstReader | src/utils/react-query-lite.js:193-217 | A first observer of a key in a fresh client creates the only entry and starts its fetch. |
| Engine.FreshObserver | src/utils/react-query-lite.js:193-201 | An observer created in a fresh client is bound to the only entry, which is new, and has no callback yet. |
| Engine.LeakedTimerScenario | src/utils/react-query-lite.js:132-153 | For a registered entry, after a double unsubscribe and a re-subscribe, the first timer fires and evicts it (the registry loses exactly this entry) although it has a live subscriber. |
| Engine.TwoTimers | src/utils/react-query-lite.js:137-146 | Calling the unsubscribe function twice leaves two live timers, and `gcTimeout` names only the second. |
| Engine.DoubleSubscribeScenario | src/utils/react-query-lite.js:132-146 | Subscribing one observer twice and calling each unsubscribe once also leaves two live timers, and the GC state is no longer sound. |
| Engine.SubscribeTwice | src/utils/react-query-lite.js:132-135 | The same observer subscribed twice is listed twice, and no timer is live. |
| Devtools.StatusLabel | src/utils/react-query-lite.js:97-105 | Each label holds exactly when its condition does, in order: `fetching` if fetching; else `inactive` with no subscriber; else `success` or `error` by status; else nothing. |
| Devtools.BlankRowMeansNoData | src/utils/react-query-lite.js:97-105 | For a well-formed entry, a blank row means no data, no error and no timestamp. |
| Devtools.LexLess | src/utils/react-query-lite.js:91 | Definition of JavaScript's string `<`: the first differing character decides, and a proper prefix is smaller. Its order properties are the LexLess lemmas below. |
| Devtools.RowOf | src/utils/react-query-lite.js:94-105 | Definition of one panel row: the entry's hash and the StatusLabel of its fetching flag, subscriber count and status. |
| Devtools.LexLessIrreflexive | src/utils/react-query-lite.js:91 | JavaScript's `>` on strings is irreflexive. |
| Devtools.LexLessTransitive | src/utils/react-query-lite.js:91 | JavaScript's `>` on strings is transitive. |
| Devtools.LexLessTotal | src/utils/react-query-lite.js:91 | Of two different strings, one is smaller. |
| Devtools.LexLessAsymmetric | src/utils/react-query-lite.js:91 | The string order is asymmetric. |
| Devtools.NotAfterTransitive | src/utils/react-query-lite.js:91 | The "not greater" relation is transitive. |
| Devtools.Insert | src/utils/react-query-lite.js:90-91 | Inserting a row adds exactly that row and keeps a sorted list sorted. |
| Devtools.SortRows | src/utils/react-query-lite.js:90-91 | `[...queries].sort(...)` is a permutation of its input, in ascending hash order. |
| Devtools.Rows | src/utils/react-query-lite.js:92-105 | One row per entry, in registry order, with the entry's hash and label. |
| Devtools.Listing | src/utils/react-query-lite.js:90-105 | The panel lists every registered entry exactly once, in ascending hash order. |
| Devtools.ListingCoversRegistry | src/utils/react-query-lite.js:90-92 | A row is in the listing exactly when some registered entry produces it. |
| Devtools.SortedUnique | src/utils/react-query-lite.js:90-91 | When equal hashes mean equal rows, two arrangements of the same rows that are both in ascending hash order are equal. |
| Devtools.ListingIsTheOnlyOrder | src/utils/react-query-lite.js:90-91 | With the registry's unique hashes, every arrangement of its rows in ascending hash order is the listing. |

Registry hashes are unique (`QueryClient.Valid`), so no two rows share a hash and the sorted order is unique (`ListingIsTheOnlyOrder`, from `SortedUnique`). The order therefore does not depend on how the engine's sort uses its `a > b ? 1 : -1` comparator, which never returns 0.

## Left out

- The React layer is not modelled: the context, `useQuery`'s reducer, ref and
  effect plumbing, and the JSX of the devtools panel. Presentation is outside
  the engine.
- Key display in the panel is not modelled. Line 95 pretty-prints the key
  with `JSON.stringify(queryKey, null, 2)`; only the hash row and the label
  are modelled.
- Window event registration is not modelled (`addEventListener` and
  `removeEventListener`). `QueryClient.Revalidate` is the step the
  environment takes on focus or visibility change.
- Real timers and the clock are replaced by explicit steps: `setTimeout` and
  `clearTimeout` become `gcTimers` and `GcFire`, and `Date.now()` becomes the
  `now` parameter. In `Revalidate`, all subscribers see one instant `now`,
  while the source reads the clock once per subscriber.
- Promises and `await` are replaced by `Fetch` and `CompleteFetch`. Other
  code can interleave between the two, and the environment chooses the
  order. The returned promise is identified by the number of its fetch.
  `queryFn` is external: its outcome is a parameter.
- Engine.Query.Fetch: the start is modelled as one step. In the source, the
  first `setState` (line 157) runs inside the async function before
  `query.promise` is assigned (line 156), so a synchronous callback could
  re-enter `fetch` in between. Callbacks are only logged here, so that
  window cannot be observed.
- Re-entrant callbacks are not modelled. A subscriber's notify or a listener
  that calls back into the engine does not run; its call is recorded in
  `log`.
- Only part of `JSON.stringify` is in the key datatype. Floating-point
  numbers, `NaN`, `null`, `undefined`, booleans and objects are left out.
  So are integers beyond ±(2^53 - 1): JavaScript rounds them to the nearest
  double and prints the shortest digits that identify it, so distinct
  integers can share a hash there. Lone surrogates
  are not escaped as `\u` sequences, because a Dafny `char` is a Unicode
  scalar value.
- Devtools.LexLess compares code points. JavaScript compares UTF-16 code
  units, which orders differently only for characters outside the Basic
  Multilingual Plane.
- Data and errors are opaque strings (`Payload`), or `undefined`. The engine
  stores them without inspecting them.
- Engine.TimerDelay follows the browser rules. Node.js instead uses 1 ms for
  a delay above 2^31 - 1 or for `Infinity`; either way the entry is evicted
  almost at once. Negative and fractional cacheTimes and staleTimes are not
  modelled; with a negative staleTime every read would find the data stale.
- Engine.Query.FetchThrowing: after it, the entry no longer satisfies
  `Query.Valid`, only the weaker `Query.Consistent`. Every operation the
  source can run next still applies to it: `Query.Fetch`, `Observer.Fetch`,
  `Observer.Subscribe`, `Query.Subscribe`, `Query.Unsubscribe`,
  `Observer.GetResult` and `QueryClient.Revalidate` require no more than
  consistency. `Query.CompleteFetch` and `Query.FetchThrowingFixed` require
  `Valid`; no completion is pending after the throw, so nothing is left out
  there. `ThrowingFetchSticks` states that `Fetched` and `Revalidated` leave
  the entry unchanged.
- src/App.js is not part of this model. It holds presentation components
  and mock data.

## Findings

| source | as written | input that shows it | evidently intended | confidence | as-written member | corrected member |
|---|---|---|---|---|---|---|
| src/utils/react-query-lite.js:155-186 | The async function runs synchronously up to its first suspension. A queryFn that throws before returning a promise sends it through `catch` and `finally`, so `promise = null` (line 177) runs before line 156 stores the promise. The settled promise stays stored, `isFetching` is false, and every later `fetch()` returns it without starting a fetch. | `queryFn = () => { throw new Error('x') }` (a plain, non-async function), then any later `fetch()` | the fetch ends as a rejected fetch with no promise stored, so a later `fetch()` starts a fetch | not executed; high | Engine.ThrowingFetchSticks | Engine.ThrowingFetchRecovers |

The model's ordinary path, `Query.Fetch` then `Query.CompleteFetch(Rejected(error), now)`, is the corrected behaviour; `Query.FetchThrowingFixed` runs exactly that path.
