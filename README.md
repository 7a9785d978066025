# crates.io API client: request gate, crate stream, reverse-dependency pager, composite views

A Dafny model of the sequential logic in the asynchronous client of the
crates.io API crate (`src/async_client.rs`). Once the network is replaced by
inputs, that logic comes down to four parts, and each has its own module:

- `Transport` models `Client::get`. Every request of a client and of its
  clones goes through one shared slot that holds the instant of the last
  request. A request waits until `rate_limit` has passed since that instant,
  sends, classifies the response by status, and unwraps the JSON envelope.
  The slot is a class (`RateSlot`) shared by `Client` objects. `Get` is one
  critical section over it. The clock is an integer, and the network call is
  an input: no response, or a response with its status, text and decoded body.
- `Paging` models `CrateStream::poll_next`, the lazy crate listing. Its four
  fields are the query with its page counter, the `closed` flag, the buffer
  and the in-flight fetch. `Step` is the pure specification of one poll, and
  the class `CrateStream` is tied to it. The fetch's status at each poll is an
  input: not ready, or ready with a page or an error. `Consistent` is the
  invariant every reachable stream keeps. It says:
  - the crates yielded so far, followed by the buffer, are exactly the pages
    fetched, in order;
  - only the last page result can be empty or an error, and such a result
    closes the stream;
  - each fetch error is yielded exactly once, and only `End` comes after it;
  - fetches ask for consecutive pages, one at a time.
- `ReverseDeps` models `crate_reverse_dependencies_page`, which clamps page 0
  to page 1, and `crate_reverse_dependencies`. The latter is a loop that
  requests pages 1, 2, … until it gets an empty page. The server is a
  function from a page query to a page or an error. The loop is proved equal
  to a closed-form result (`Expected`): the pages before the first empty or
  failing page `k`, in order, with the total of page `k - 1`, or 0 when
  `k = 1`. The loop makes exactly `k` requests.
- `Aggregate` models `full_version` and `full_crate`. The joins `try_join!`
  and `try_join_all` become functions over `Result`s: the whole is `Ok`
  exactly when every part is. The version order is kept, and the crate's
  license comes from `versions[0]`.

The model follows the code where it differs from what one might expect:

- `get` empties the slot with `take()` before sending (:148). A send that
  fails (`?` at :155) therefore leaves the slot empty. It does not keep the
  older timestamp. The next request then goes out without any wait
  (`NoSpacingAfterSendFailure`).
- The slot stores the instant captured just before the send (:154, :173),
  not the time the request completed.
- The generic error branch unwraps the error of `error_for_status` (:168),
  which has one only for 4xx and 5xx statuses. Any other unsuccessful status,
  such as 304, panics before the slot is refilled at :173, so the slot stays
  empty (`Classify` returns `Panicked`, and so does `Get`).
- `full_crate` gets the reverse dependencies through the paging loop. That
  costs one request per page, so it is not a single request.

## Model

| member | source | states |
|---|---|---|
| `Transport.ClassifyStatus` | src/async_client.rs:157-178 | The classification the generic branch evidently intends, which never panics. Each outcome belongs to exactly one kind of response: NotFound iff the status is 404, and it carries the URL. PermissionDenied iff 403, and it carries the body text, or "" when the text cannot be read. A generic status error iff any other non-2xx status. Api iff 2xx with an error envelope, and it carries that envelope's errors. Ok iff 2xx with a success envelope, and it carries the payload. A 2xx body that does not decode is a decode error. |
| `Transport.Classify` | src/async_client.rs:157-178 | As written: it panics iff the status is neither 2xx nor 4xx/5xx, because `error_for_status` gives no error to unwrap there. Otherwise the same exclusive kinds hold: NotFound iff 404, PermissionDenied iff 403, a generic status error iff any other 4xx/5xx status, Api or Ok iff 2xx with that envelope, a decode error for an undecodable 2xx body. Each carries what the response said. |
| `Transport.UnexpectedStatusPanics` | src/async_client.rs:167-168 | A 304 response makes the code as written panic, where the intended classification gives a status error. |
| `Transport.ClassifyAgreesWhenItReturns` | src/async_client.rs:157-178 | Whenever the code as written returns rather than panics, it returns the intended classification. |
| `Transport.RateGateDelay` | src/async_client.rs:148-152 | The gate waits only when a last instant exists and less than `rate_limit` has elapsed since it. The wait then ends exactly when `rate_limit` has elapsed. So with a monotonic clock, the send comes at least `rate_limit` after the stored instant. The wait never exceeds `rate_limit`. |
| `Transport.Schedule` | src/async_client.rs:146-173 | A run of consecutive requests through one slot gives one send instant per request. |
| `Transport.FirstSendSpaced` | src/async_client.rs:148-154 | A request that takes the slot after the instant stored in it is sent at least `rate_limit` after that instant. |
| `Transport.ScheduleSpacingAt` | src/async_client.rs:146-173 | With the mutex held for a whole request, a request that stored its instant (it got a response whose status does not panic) is followed by the next send at least `rate_limit` later. |
| `Transport.ScheduleSpacing` | src/async_client.rs:146-173 | Over a whole run, the first send comes at least `rate_limit` after the stored instant. Every send after a request that stored its instant is at least `rate_limit` after it. |
| `Transport.NoSpacingAfterSendFailure` | src/async_client.rs:148-155 | A failed send leaves the slot empty. The next request can then go out at the same instant as the failed one, which is less than `rate_limit` apart. |
| `Transport.SleepAsWritten` | src/async_client.rs:149-150 | The wait as written, from two clock readings: it panics exactly when the first reading is under the limit and the second is past it. Otherwise the wait is at most `rate_limit`, and with a single reading it equals the gate's wait. |
| `Transport.SleepAsWrittenCanPanic` | src/async_client.rs:149-150 | As written, the wait reads `elapsed()` twice. A clock that passes the limit between the two readings makes the `Duration` subtraction panic. |
| `Transport.RateSlot.constructor` | src/async_client.rs:135 | A new slot is empty. |
| `Transport.Client.constructor` | src/async_client.rs:120-143 | A new client has the given rate limit and a fresh, empty slot. |
| `Transport.Client.Clone` | src/async_client.rs:13-19 | A clone has the same rate limit and shares the same slot. |
| `Transport.Client.Share` | src/async_client.rs:13-19 | The derived field copy: the new client has the other's rate limit and the very same slot object, as the cloned `Arc` shares the mutex. |
| `Transport.Client.Get` | src/async_client.rs:145-179 | The send instant is the stored instant's gate applied to the lock-acquisition time. It is at least `rate_limit` after the previous instant. A send failure returns the transport error and leaves the slot empty. A response returns its classification. A status that panics leaves the slot empty. Every other response leaves the slot holding the pre-send instant. |
| `Paging.Step` | src/async_client.rs:45-96 | A closed stream ends and changes nothing. A non-empty buffer yields its front item and changes nothing else. The page counter moves, by exactly one, iff a fetch is started, which happens only when the stream is open, the buffer is empty and nothing is in flight. A fetch that is not ready is put back unchanged. A completed fetch leaves its slot. Then an error closes the stream and yields the error. An empty page closes it and ends. A non-empty page yields its first crate and appends the rest to the back of the buffer. |
| `Paging.InitialIsConsistent` | src/async_client.rs:31-39 | A new stream meets the stream invariant with an empty history. |
| `Paging.StepKeepsFetchesInOrder` | src/async_client.rs:59-91 | One poll keeps fetches asking for consecutive pages from the first query on. At most one fetch is in flight, and it is the last one started. |
| `Paging.StepKeepsItemsInOrder` | src/async_client.rs:55-71 | One poll keeps the yielded crates followed by the buffer equal to the fetched pages in order. |
| `Paging.StepKeepsClosedByLastPage` | src/async_client.rs:62-76 | One poll keeps two facts: only the last page result can be empty or an error, and the stream is closed exactly when it is. |
| `Paging.StepKeepsErrorsYieldedOnce` | src/async_client.rs:51-53 | One poll keeps the yielded errors equal to the fetch errors. After an error, only `End` is yielded. |
| `Paging.StepKeepsConsistent` | src/async_client.rs:45-96 | One poll keeps the whole stream invariant. |
| `Paging.RunKeepsConsistent` | src/async_client.rs:45-96 | Any sequence of polls keeps the stream invariant. |
| `Paging.AtMostOneError` | src/async_client.rs:73-76 | Page results in which only the last can be terminal hold at most one error. |
| `Paging.PollSequenceYieldsPagesInOrder` | src/async_client.rs:45-96 | Whatever the fetches report, a stream from `CrateStream::new` has these properties. It yields the crates of its fetched pages in order, and each page is non-empty except possibly the last. Once closed, it has yielded all of them. It asks for the pages `filter.page`, `filter.page + 1`, … one at a time. It yields at most one error. |
| `Paging.ClosedStreamStaysEnded` | src/async_client.rs:51-53 | After the stream closes, every poll returns `End`. No fetch starts, the state does not change and the page counter stays put. |
| `Paging.CrateStream.constructor` | src/async_client.rs:31-39 | A new stream is open, with an empty buffer and nothing in flight. |
| `Paging.CrateStream.PollNext` | src/async_client.rs:45-96 | Updates the fields in place exactly as `Step` says and returns `Step`'s output. It keeps the stream invariant. |
| `ReverseDeps.ClampPage` | src/async_client.rs:221-222 | The page asked for is at least 1. Any page from 1 on is kept, and 0 becomes 1. |
| `ReverseDeps.FetchPage` | src/async_client.rs:216-241 | Asks the server for the clamped page at 100 per page. Passes on its error, or its dependencies and its total. |
| `ReverseDeps.PageZeroIsPageOne` | src/async_client.rs:221-222 | Page 0 gives exactly what page 1 gives. |
| `ReverseDeps.CrateReverseDependencies` | src/async_client.rs:248-269 | Requests pages 1, 2, …, k and no more, where k is the first page that is empty or failing. On an error it returns that error. Otherwise it returns pages 1 to k-1 concatenated in order, with the total of page k-1, or 0 when page 1 is empty. |
| `ReverseDeps.TwoFullPagesThenEmpty` | src/async_client.rs:248-269 | Two pages of 100 and then an empty third page: 3 requests and 200 dependencies, which are page 1's followed by page 2's, and page 2's total. |
| `Aggregate.TryJoin2` | src/async_client.rs:307 | Ok iff both parts are Ok, with both values. Otherwise the error is one of the failing parts' errors. |
| `Aggregate.TryJoin3` | src/async_client.rs:352 | Ok iff all three parts are Ok, with their values. Otherwise the error is one of the failing parts' errors. |
| `Aggregate.TryJoinAll` | src/async_client.rs:340-347 | Ok iff every part is Ok, with the values in the given order. Otherwise the error is one of the parts' errors. |
| `Aggregate.FullVersionOf` | src/async_client.rs:303-323 | Ok iff the authors and the dependencies both succeed. The version's own fields are kept, and the authors' names and the dependencies are added. Otherwise the error is one of the two errors. |
| `Aggregate.VersionDetails` | src/async_client.rs:335-348 | Builds the details of the first version only, or of every version. Ok iff every selected version's lookups succeed, with one detail per version in order. Otherwise the error is one of those lookups' errors. |
| `Aggregate.FullCrateOf` | src/async_client.rs:333-376 | A failed base lookup is the result. A failed version detail is the result before any crate-level part counts. The whole is Ok iff the base, every selected version detail, the downloads, the owners and the reverse dependencies all succeed. The versions keep their order. The license is `versions[0]`'s, and the crate-level parts are copied in. |

## Left out

- The HTTP transport, JSON decoding and reading the body as text are library calls. A response is an abstract value (status, text, decoded envelope), and a failed send is one value.
- The async mutex, `sleep`, `Instant` and the task `Context`/`Waker` are left out, and so are the self-wake and the `assert!` that a fresh fetch is pending. Time is an integer clock. A whole `get` is one method call, because the mutex makes it one critical section.
- Transport.Client.Get: requires nothing of the clock. Its spacing guarantee is stated only when the clock has not gone back since the stored instant, because `Instant` is monotonic.
- Transport.RateGateDelay: reads the clock once. The code reads it twice (see Findings), and the model uses the single reading.
- Aggregate.FullCrateOf: requires that a crate with no versions never reaches `versions[0]`. That happens in single-version mode, or in all-versions mode when the three crate-level lookups all succeed. The source panics there.
- Aggregate.TryJoin2, Aggregate.TryJoin3, Aggregate.TryJoinAll: which failing part a join reports first depends on scheduling. The contracts promise only "one of the errors", even though the bodies pick one.
- Aggregate.FullVersionOf: keeps only the version fields `id`, `num`, `license` and `yanked`. It does not copy dates, paths, features or links field by field.
- ReverseDeps.CrateReverseDependencies: requires that some page from 1 on is empty or an error. A server that never sends one makes the source loop forever, and the model only covers loops that terminate.
- ReverseDeps.FetchPage: takes each page's reverse dependencies as delivered. The pairing of each dependency with its version happens inside `ReverseDependencies::extend`, in src/types.rs, which is not part of this model.
- The page counters are unbounded: the `u64` overflow of `filter.page += 1` and of the reverse-dependency page number is not modelled.
- The endpoint wrappers are not modelled: `summary`, `get_crate`, `crate_downloads`, `crate_owners`, `crate_authors`, `crate_dependencies`, `crates`, `user` and `crate_reverse_dependency_count`. Each is URL building plus one `get`, and their results are inputs to the aggregate. URL construction and query encoding are string plumbing over a library.
- The number of requests `full_crate` issues is not modelled. On a failure it depends on which futures the scheduler polled before the join gave up.
- `Client::new`'s validation of the user-agent header is a library call.
- The `#[cfg(test)]` module talks to the live service.

## Findings

| source | as written | input that shows it | evidently intended | confidence | as-written member | corrected member |
|---|---|---|---|---|---|---|
| src/async_client.rs:149-150 | The code reads `elapsed()` once for the comparison and again for the wait. The second reading is subtracted from `rate_limit` as a `Duration`, which panics when the result would be negative. | rate_limit 1000, stored instant 0, first reading 999, second reading 1001 | Wait for the rest of the interval, computed from one reading and never negative. | low, not executed; the clock has to pass the limit between two adjacent readings | `Transport.SleepAsWrittenCanPanic` | `Transport.RateGateDelay` |
| src/async_client.rs:167-168 | The generic branch for an unsuccessful status calls `error_for_status().unwrap_err()`. `error_for_status` gives an error only for 4xx and 5xx, so any other unsuccessful status panics, and the slot is left empty. | a 304 Not Modified response, which the HTTP library does not follow as a redirect | A status error for every unsuccessful status, as the branch's guard `!is_success()` says. | low, not executed; crates.io is not known to send such statuses to plain GET requests | `Transport.UnexpectedStatusPanics` | `Transport.ClassifyStatus` |
