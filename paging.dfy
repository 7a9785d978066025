/** The lazy crate listing `CrateStream` (src/async_client.rs:21-97).

    A stream holds the listing query whose page number it advances, a flag
    that marks it finished, a buffer of crates already fetched but not yet
    handed out, and at most one page fetch in flight. The fetch itself is a
    request through the rate-gated client; here its status at the moment of
    a poll is an input: not ready yet, or ready with a page or an error. */
module Paging {
  import opened Types

  /** What polling the in-flight page fetch reports. */
  datatype FetchStatus = NotReady | Ready(page: Result<seq<Crate>>)

  /** The result of one `poll_next`: `Poll::Pending`,
      `Poll::Ready(Some(item))` or `Poll::Ready(None)`. */
  datatype PollOutput = Pending | Yield(item: Result<Crate>) | End
  {
    predicate IsError() { Yield? && item.Err? }
  }

  /** The four fields of a stream that `poll_next` reads and writes. The
      in-flight fetch is identified by the query it was started with. */
  datatype State = State(filter: CratesQuery, closed: bool, items: seq<Crate>,
                         nextPageFetch: Option<CratesQuery>)

  datatype Transition = Transition(next: State, output: PollOutput)

  /** `CrateStream::new`: open, empty buffer, nothing in flight. */
  function Initial(filter: CratesQuery): State {
    State(filter, false, [], None)
  }

  /** The poll starts a new page fetch: open, nothing buffered, nothing in flight. */
  predicate Starts(s: State) {
    !s.closed && s.items == [] && s.nextPageFetch.None?
  }

  /** The poll observes the in-flight fetch completing. */
  predicate Consumes(s: State, status: FetchStatus) {
    !s.closed && s.items == [] && s.nextPageFetch.Some? && status.Ready?
  }

  /** A completed fetch that ends the stream: an error or an empty page. */
  predicate Terminal(page: Result<seq<Crate>>) {
    page.Err? || page.value == []
  }

  /** One call of `poll_next`. */
  function Step(s: State, status: FetchStatus): (r: Transition)
    // a closed stream ends at once and changes nothing
    ensures s.closed ==> r == Transition(s, End)
    // a non-empty buffer hands out its front item and touches nothing else
    ensures !s.closed && s.items != [] ==>
              r == Transition(s.(items := s.items[1..]), Yield(Ok(s.items[0])))
    // the page counter moves exactly when a fetch is started, and by one
    ensures r.next.filter != s.filter <==> Starts(s)
    ensures Starts(s) ==>
              r.output == Pending &&
              r.next == s.(filter := s.filter.(page := s.filter.page + 1),
                           nextPageFetch := Some(s.filter))
    // a fetch that is not ready is put back unchanged
    ensures !s.closed && s.items == [] && s.nextPageFetch.Some? && status.NotReady? ==>
              r == Transition(s, Pending)
    // a completed fetch is taken out of its slot and decides the output
    ensures Consumes(s, status) ==>
              r.next.nextPageFetch.None? && r.next.filter == s.filter &&
              r.next.closed == Terminal(status.page) &&
              (status.page.Err? ==> r.output == Yield(Err(status.page.error)) && r.next.items == []) &&
              (status.page == Ok([]) ==> r.output == End && r.next.items == []) &&
              (status.page.Ok? && status.page.value != [] ==>
                 r.output == Yield(Ok(status.page.value[0])) &&
                 r.next.items == s.items + status.page.value[1..])
    // the closed flag, once set, stays set
    ensures s.closed ==> r.next.closed
  {
    if s.closed then Transition(s, End)
    else if s.items != [] then Transition(s.(items := s.items[1..]), Yield(Ok(s.items[0])))
    else if s.nextPageFetch.Some? then
      match status
      case NotReady => Transition(s, Pending)
      case Ready(Ok(page)) =>
        if page == [] then Transition(s.(closed := true, nextPageFetch := None), End)
        else Transition(s.(items := s.items + page[1..], nextPageFetch := None), Yield(Ok(page[0])))
      case Ready(Err(e)) => Transition(s.(closed := true, nextPageFetch := None), Yield(Err(e)))
    else
      Transition(s.(filter := s.filter.(page := s.filter.page + 1), nextPageFetch := Some(s.filter)),
                 Pending)
  }

  /** The page result a poll takes from the in-flight fetch, if any. */
  function Completion(s: State, status: FetchStatus): seq<Result<seq<Crate>>> {
    if Consumes(s, status) then [status.page] else []
  }

  /** The query of the fetch a poll starts, if any. */
  function Request(s: State): seq<CratesQuery> {
    if Starts(s) then [s.filter] else []
  }

  /** Everything observable about a run of polls: the final state, what each
      poll returned, the page results taken in, and the fetches started. */
  datatype Trace = Trace(final: State, outputs: seq<PollOutput>,
                         completions: seq<Result<seq<Crate>>>, requests: seq<CratesQuery>)

  /** Poll `s` once per status, in order. */
  function Run(s: State, statuses: seq<FetchStatus>): Trace
    decreases |statuses|
  {
    if statuses == [] then Trace(s, [], [], [])
    else
      var t := Step(s, statuses[0]);
      var rest := Run(t.next, statuses[1..]);
      Trace(rest.final, [t.output] + rest.outputs,
            Completion(s, statuses[0]) + rest.completions,
            Request(s) + rest.requests)
  }

  /** The crates yielded by a sequence of poll results, in order. */
  function OkItems(outs: seq<PollOutput>): seq<Crate> {
    if outs == [] then []
    else OkItems(outs[..|outs| - 1]) +
         (match outs[|outs| - 1] case Yield(Ok(c)) => [c] case _ => [])
  }

  /** The errors yielded by a sequence of poll results, in order. */
  function ErrItems(outs: seq<PollOutput>): seq<Error> {
    if outs == [] then []
    else ErrItems(outs[..|outs| - 1]) +
         (match outs[|outs| - 1] case Yield(Err(e)) => [e] case _ => [])
  }

  /** The concatenation of the successfully fetched pages, in order. */
  function PageItems(pages: seq<Result<seq<Crate>>>): seq<Crate> {
    if pages == [] then []
    else PageItems(pages[..|pages| - 1]) +
         (match pages[|pages| - 1] case Ok(p) => p case Err(_) => [])
  }

  /** The errors among the fetched page results, in order. */
  function ErrPages(pages: seq<Result<seq<Crate>>>): seq<Error> {
    if pages == [] then []
    else ErrPages(pages[..|pages| - 1]) +
         (match pages[|pages| - 1] case Ok(_) => [] case Err(e) => [e])
  }

  /** The shape every reachable stream state has. */
  ghost predicate WellFormed(s: State) {
    && (s.nextPageFetch.Some? ==> s.items == [] && !s.closed)
    && (s.closed ==> s.items == [] && s.nextPageFetch.None?)
  }

  /** Fetches ask for consecutive pages from the first query's page on, and
      at most one is in flight: the last one started. */
  ghost predicate FetchesInOrder(first: CratesQuery, s: State, pages: seq<Result<seq<Crate>>>,
                                 reqs: seq<CratesQuery>)
  {
    && s.filter == first.(page := first.page + |reqs|)
    && (forall i :: 0 <= i < |reqs| ==> reqs[i] == first.(page := first.page + i))
    && (s.nextPageFetch.None? ==> |reqs| == |pages|)
    && (s.nextPageFetch.Some? ==> |reqs| == |pages| + 1 && s.nextPageFetch.value == reqs[|reqs| - 1])
  }

  /** The crates yielded so far followed by the buffer are exactly the
      fetched pages, in order. */
  ghost predicate ItemsInOrder(s: State, outs: seq<PollOutput>, pages: seq<Result<seq<Crate>>>) {
    OkItems(outs) + s.items == PageItems(pages)
  }

  /** Only the last page result can be empty or an error, and exactly such a
      result has closed the stream. */
  ghost predicate ClosedByLastPage(s: State, pages: seq<Result<seq<Crate>>>) {
    && (forall i :: 0 <= i < |pages| - 1 ==> !Terminal(pages[i]))
    && (s.closed <==> |pages| > 0 && Terminal(pages[|pages| - 1]))
  }

  /** Every fetch error is yielded once, and after it only the end. */
  ghost predicate ErrorsYieldedOnce(s: State, outs: seq<PollOutput>, pages: seq<Result<seq<Crate>>>) {
    && ErrItems(outs) == ErrPages(pages)
    && (forall i :: 0 <= i < |outs| && outs[i].IsError() ==> s.closed)
    && (forall i, j :: 0 <= i < j < |outs| && outs[i].IsError() ==> outs[j] == End)
  }

  /** How the state of a stream created with query `first` relates to its
      history: the outputs so far, the page results taken in, the fetches
      started. */
  ghost predicate Consistent(first: CratesQuery, s: State, outs: seq<PollOutput>,
                             pages: seq<Result<seq<Crate>>>, reqs: seq<CratesQuery>)
  {
    && WellFormed(s)
    && FetchesInOrder(first, s, pages, reqs)
    && ItemsInOrder(s, outs, pages)
    && ClosedByLastPage(s, pages)
    && ErrorsYieldedOnce(s, outs, pages)
  }

  lemma InitialIsConsistent(filter: CratesQuery)
    ensures Consistent(filter, Initial(filter), [], [], [])
  {
  }

  lemma StepKeepsFetchesInOrder(first: CratesQuery, s: State, status: FetchStatus,
                                pages: seq<Result<seq<Crate>>>, reqs: seq<CratesQuery>)
    requires WellFormed(s) && FetchesInOrder(first, s, pages, reqs)
    ensures FetchesInOrder(first, Step(s, status).next, pages + Completion(s, status), reqs + Request(s))
  {
  }

  lemma StepKeepsItemsInOrder(s: State, status: FetchStatus,
                              outs: seq<PollOutput>, pages: seq<Result<seq<Crate>>>)
    requires WellFormed(s) && ItemsInOrder(s, outs, pages)
    ensures var t := Step(s, status);
            ItemsInOrder(t.next, outs + [t.output], pages + Completion(s, status))
  {
    var t := Step(s, status);
    var outs', pages' := outs + [t.output], pages + Completion(s, status);
    assert outs'[..|outs|] == outs;
    if !Consumes(s, status) {
      assert pages' == pages;
    }
    assert OkItems(outs') == OkItems(outs) +
           (match t.output case Yield(Ok(c)) => [c] case _ => []);
    if Consumes(s, status) {
      assert pages'[..|pages|] == pages;
      assert PageItems(pages') == PageItems(pages) +
             (match status.page case Ok(p) => p case Err(_) => []);
      match status.page {
        case Ok(p) =>
          if p != [] {
            assert [p[0]] + p[1..] == p;
          }
        case Err(_) =>
      }
    } else if !s.closed && s.items != [] {
      assert [s.items[0]] + s.items[1..] == s.items;
    }
  }

  lemma StepKeepsClosedByLastPage(s: State, status: FetchStatus, pages: seq<Result<seq<Crate>>>)
    requires WellFormed(s) && ClosedByLastPage(s, pages)
    ensures ClosedByLastPage(Step(s, status).next, pages + Completion(s, status))
  {
  }

  lemma StepKeepsErrorsYieldedOnce(s: State, status: FetchStatus,
                                   outs: seq<PollOutput>, pages: seq<Result<seq<Crate>>>)
    requires WellFormed(s) && ErrorsYieldedOnce(s, outs, pages)
    ensures var t := Step(s, status);
            ErrorsYieldedOnce(t.next, outs + [t.output], pages + Completion(s, status))
  {
    var t := Step(s, status);
    var outs', pages' := outs + [t.output], pages + Completion(s, status);
    assert outs'[..|outs|] == outs;
    if !Consumes(s, status) {
      assert pages' == pages;
    }
    assert ErrItems(outs') == ErrItems(outs) +
           (match t.output case Yield(Err(e)) => [e] case _ => []);
    if Consumes(s, status) {
      assert pages'[..|pages|] == pages;
      assert ErrPages(pages') == ErrPages(pages) +
             (match status.page case Ok(_) => [] case Err(e) => [e]);
    }
    forall i, j | 0 <= i < j < |outs'| && outs'[i].IsError()
      ensures outs'[j] == End
    {
      if j == |outs| {
        assert s.closed;
      }
    }
  }

  /** One poll keeps a stream's state consistent with its history. */
  lemma StepKeepsConsistent(first: CratesQuery, s: State, status: FetchStatus,
                            outs: seq<PollOutput>, pages: seq<Result<seq<Crate>>>,
                            reqs: seq<CratesQuery>)
    requires Consistent(first, s, outs, pages, reqs)
    ensures var t := Step(s, status);
            Consistent(first, t.next, outs + [t.output],
                       pages + Completion(s, status), reqs + Request(s))
  {
    StepKeepsFetchesInOrder(first, s, status, pages, reqs);
    StepKeepsItemsInOrder(s, status, outs, pages);
    StepKeepsClosedByLastPage(s, status, pages);
    StepKeepsErrorsYieldedOnce(s, status, outs, pages);
  }

  /** Any run of polls keeps a stream's state consistent with its history. */
  lemma {:induction false} RunKeepsConsistent(first: CratesQuery, s: State, statuses: seq<FetchStatus>,
                                              outs: seq<PollOutput>, pages: seq<Result<seq<Crate>>>,
                                              reqs: seq<CratesQuery>)
    requires Consistent(first, s, outs, pages, reqs)
    ensures var t := Run(s, statuses);
            Consistent(first, t.final, outs + t.outputs, pages + t.completions, reqs + t.requests)
    decreases |statuses|
  {
    var t := Run(s, statuses);
    if statuses == [] {
      assert outs + t.outputs == outs && pages + t.completions == pages && reqs + t.requests == reqs;
    } else {
      var st := Step(s, statuses[0]);
      var c, q := Completion(s, statuses[0]), Request(s);
      var rest := Run(st.next, statuses[1..]);
      assert t.final == rest.final;
      assert outs + t.outputs == outs + [st.output] + rest.outputs by {
        assert t.outputs == [st.output] + rest.outputs;
      }
      assert pages + t.completions == pages + c + rest.completions by {
        assert t.completions == c + rest.completions;
      }
      assert reqs + t.requests == reqs + q + rest.requests by {
        assert t.requests == q + rest.requests;
      }
      StepKeepsConsistent(first, s, statuses[0], outs, pages, reqs);
      RunKeepsConsistent(first, st.next, statuses[1..], outs + [st.output], pages + c, reqs + q);
    }
  }

  /** Page results before the last are non-empty pages, so at most one is an error. */
  lemma {:induction false} AtMostOneError(pages: seq<Result<seq<Crate>>>)
    requires forall i :: 0 <= i < |pages| - 1 ==> !Terminal(pages[i])
    ensures |ErrPages(pages)| <= 1
  {
    if pages != [] {
      var front := pages[..|pages| - 1];
      NoErrorsInOkPages(front);
    }
  }

  lemma {:induction false} NoErrorsInOkPages(pages: seq<Result<seq<Crate>>>)
    requires forall i :: 0 <= i < |pages| ==> pages[i].Ok?
    ensures ErrPages(pages) == []
  {
    if pages != [] {
      NoErrorsInOkPages(pages[..|pages| - 1]);
    }
  }

  /** End to end: whatever the fetches report, a stream created with `filter`
      yields, in order, the crates of the pages it fetched, which are all
      non-empty but possibly the last; once closed it has yielded all of
      them. It asks for pages `filter.page`, `filter.page + 1`, ... one at a
      time, and yields at most one error, after which it only ends. */
  lemma {:induction false} PollSequenceYieldsPagesInOrder(filter: CratesQuery, statuses: seq<FetchStatus>)
    ensures var t := Run(Initial(filter), statuses);
            && Consistent(filter, t.final, t.outputs, t.completions, t.requests)
            && (t.final.closed ==> OkItems(t.outputs) == PageItems(t.completions))
            && |ErrItems(t.outputs)| <= 1
  {
    var t := Run(Initial(filter), statuses);
    InitialIsConsistent(filter);
    RunKeepsConsistent(filter, Initial(filter), statuses, [], [], []);
    assert [] + t.outputs == t.outputs && [] + t.completions == t.completions && [] + t.requests == t.requests;
    AtMostOneError(t.completions);
  }

  /** Once closed, every later poll ends and nothing changes: no fetch is
      started and the page counter stays where it is. */
  lemma {:induction false} ClosedStreamStaysEnded(s: State, statuses: seq<FetchStatus>)
    requires s.closed
    ensures var t := Run(s, statuses);
            t.final == s && t.completions == [] && t.requests == [] &&
            |t.outputs| == |statuses| && forall i :: 0 <= i < |t.outputs| ==> t.outputs[i] == End
    decreases |statuses|
  {
    if statuses != [] {
      ClosedStreamStaysEnded(s, statuses[1..]);
    }
  }

  /** `CrateStream` as the object `poll_next` updates in place. The ghost
      fields record the history that `Consistent` relates to the state. */
  class CrateStream {
    var filter: CratesQuery
    var closed: bool
    var items: seq<Crate>
    var nextPageFetch: Option<CratesQuery>

    ghost const first: CratesQuery
    ghost var yielded: seq<PollOutput>
    ghost var fetched: seq<Result<seq<Crate>>>
    ghost var requested: seq<CratesQuery>

    function Snapshot(): State
      reads this
    {
      State(filter, closed, items, nextPageFetch)
    }

    ghost predicate Valid()
      reads this
    {
      Consistent(first, Snapshot(), yielded, fetched, requested)
    }

    /** `CrateStream::new` (reached through `Client::crates_stream`). */
    constructor (filter: CratesQuery)
      ensures Valid()
      ensures Snapshot() == Initial(filter) && first == filter
      ensures yielded == [] && fetched == [] && requested == []
    {
      this.filter := filter;
      closed := false;
      items := [];
      nextPageFetch := None;
      first := filter;
      yielded, fetched, requested := [], [], [];
      InitialIsConsistent(filter);
    }

    /** `poll_next`, with the in-flight fetch's status at this poll as input. */
    method PollNext(status: FetchStatus) returns (out: PollOutput)
      requires Valid()
      modifies this
      ensures Valid()
      ensures Transition(Snapshot(), out) == Step(old(Snapshot()), status)
      ensures yielded == old(yielded) + [out]
      ensures fetched == old(fetched) + Completion(old(Snapshot()), status)
      ensures requested == old(requested) + Request(old(Snapshot()))
    {
      ghost var s := Snapshot();
      StepKeepsConsistent(first, s, status, yielded, fetched, requested);
      if closed {
        out := End;
      } else if items != [] {
        out := Yield(Ok(items[0]));
        items := items[1..];
      } else if nextPageFetch.Some? {
        var fetch := nextPageFetch.value;
        nextPageFetch := None;
        match status {
          case Ready(Ok(page)) =>
            if page == [] {
              closed := true;
              out := End;
            } else {
              items := items + page[1..];
              out := Yield(Ok(page[0]));
            }
          case Ready(Err(e)) =>
            closed := true;
            out := Yield(Err(e));
          case NotReady =>
            nextPageFetch := Some(fetch);
            out := Pending;
        }
      } else {
        var query := filter;
        filter := filter.(page := filter.page + 1);
        nextPageFetch := Some(query);
        out := Pending;
      }
      yielded := yielded + [out];
      fetched := fetched + Completion(s, status);
      requested := requested + Request(s);
    }
  }
}
