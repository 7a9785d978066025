/** Reverse dependencies of a crate (src/async_client.rs:213-269): one page
    with its page number clamped to at least 1, and the accumulation of
    every page until the first empty one.

    The remote service is a function from the query of one page to what
    requesting it gives: the page's reverse dependencies and reported total,
    or an error. */
module ReverseDeps {
  import opened Types

  /** One reverse dependency: a version of another crate that depends on this one. */
  datatype ReverseDependency = ReverseDependency(crateName: string, versionNum: string)

  /** The reverse-dependency query of one page. */
  datatype PageQuery = PageQuery(crateName: string, perPage: nat, page: nat)

  /** One page as received: its reverse dependencies and the reported total. */
  datatype ReceivedPage = ReceivedPage(dependencies: seq<ReverseDependency>, total: nat)

  /** `ReverseDependencies`: the dependencies and `meta.total`. */
  datatype ReverseDependencies = ReverseDependencies(dependencies: seq<ReverseDependency>, total: nat)

  type Server = PageQuery -> Result<ReceivedPage>

  /** The fixed page size of the reverse-dependency endpoint. */
  const PerPage: nat := 100

  /** `page.max(1)`. */
  function ClampPage(page: nat): (p: nat)
    ensures p >= 1
    ensures page >= 1 ==> p == page
    ensures page == 0 ==> p == 1
  {
    if page < 1 then 1 else page
  }

  /** `crate_reverse_dependencies_page`. */
  function FetchPage(server: Server, name: string, page: nat): (r: Result<ReverseDependencies>)
    ensures var received := server(PageQuery(name, PerPage, ClampPage(page)));
            && (r.Ok? <==> received.Ok?)
            && (r.Ok? ==> r.value.dependencies == received.value.dependencies &&
                          r.value.total == received.value.total)
            && (r.Err? ==> r.error == received.error)
  {
    match server(PageQuery(name, PerPage, ClampPage(page)))
    case Err(e) => Err(e)
    case Ok(received) => Ok(ReverseDependencies(received.dependencies, received.total))
  }

  /** Page 0 is asked for, and answered, exactly as page 1. */
  lemma PageZeroIsPageOne(server: Server, name: string)
    ensures FetchPage(server, name, 0) == FetchPage(server, name, 1)
  {
  }

  /** Requesting page `k` ends the accumulation: an error or an empty page. */
  predicate Stops(server: Server, name: string, k: nat) {
    var r := FetchPage(server, name, k);
    r.Err? || r.value.dependencies == []
  }

  /** Some page from 1 on is empty or an error, so the accumulation ends. */
  ghost predicate Drains(server: Server, name: string) {
    exists k: nat :: k >= 1 && Stops(server, name, k)
  }

  ghost function FirstStopFrom(server: Server, name: string, j: nat, bound: nat): (k: nat)
    requires 1 <= j <= bound && Stops(server, name, bound)
    requires forall i :: 1 <= i < j ==> !Stops(server, name, i)
    ensures j <= k <= bound && Stops(server, name, k)
    ensures forall i :: 1 <= i < k ==> !Stops(server, name, i)
    decreases bound - j
  {
    if Stops(server, name, j) then j else FirstStopFrom(server, name, j + 1, bound)
  }

  /** The first page, counting from 1, that is empty or an error. */
  ghost function FirstStop(server: Server, name: string): (k: nat)
    requires Drains(server, name)
    ensures k >= 1 && Stops(server, name, k)
    ensures forall i :: 1 <= i < k ==> !Stops(server, name, i)
  {
    var bound: nat :| bound >= 1 && Stops(server, name, bound);
    FirstStopFrom(server, name, 1, bound)
  }

  /** The reverse dependencies of pages 1 to `n`, in page order. */
  ghost function Collected(server: Server, name: string, n: nat): seq<ReverseDependency>
    requires forall i :: 1 <= i <= n ==> !Stops(server, name, i)
  {
    if n == 0 then []
    else
      assert !Stops(server, name, n);
      Collected(server, name, n - 1) + FetchPage(server, name, n).value.dependencies
  }

  /** What accumulating every page gives, where `k` is the first empty or
      failing page: that page's error, or pages 1 to `k - 1` in order with
      the total reported by page `k - 1` (0 when page 1 is already empty). */
  ghost function Expected(server: Server, name: string): Result<ReverseDependencies>
    requires Drains(server, name)
  {
    var k := FirstStop(server, name);
    match FetchPage(server, name, k)
    case Err(e) => Err(e)
    case Ok(_) =>
      assert k > 1 ==> !Stops(server, name, k - 1);
      Ok(ReverseDependencies(Collected(server, name, k - 1),
                             if k == 1 then 0 else FetchPage(server, name, k - 1).value.total))
  }

  /** `crate_reverse_dependencies`: request pages 1, 2, ... until one is
      empty; `requested` records the page numbers asked for. */
  method CrateReverseDependencies(server: Server, name: string)
    returns (r: Result<ReverseDependencies>, ghost requested: seq<nat>)
    requires Drains(server, name)
    ensures r == Expected(server, name)
    ensures |requested| == FirstStop(server, name)
    ensures forall i :: 0 <= i < |requested| ==> requested[i] == i + 1
  {
    ghost var k := FirstStop(server, name);
    var deps := ReverseDependencies([], 0);
    var pageNumber: nat := 1;
    requested := [];
    while true
      invariant 1 <= pageNumber <= k
      invariant |requested| == pageNumber - 1
      invariant forall i :: 0 <= i < |requested| ==> requested[i] == i + 1
      invariant deps.dependencies == Collected(server, name, pageNumber - 1)
      invariant pageNumber > 1 ==> !Stops(server, name, pageNumber - 1)
      invariant deps.total == if pageNumber == 1 then 0 else FetchPage(server, name, pageNumber - 1).value.total
      decreases k - pageNumber
    {
      var page := FetchPage(server, name, pageNumber);
      requested := requested + [pageNumber];
      if Stops(server, name, pageNumber) {
        assert pageNumber == k;
      }
      if page.Err? {
        r := Err(page.error);
        return;
      }
      if page.value.dependencies == [] {
        break;
      }
      deps := ReverseDependencies(deps.dependencies + page.value.dependencies, page.value.total);
      pageNumber := pageNumber + 1;
    }
    r := Ok(deps);
  }

  /** Two full pages and then an empty third one: three requests, and the
      200 dependencies of the first two pages with the second page's total. */
  lemma TwoFullPagesThenEmpty(server: Server, name: string)
    requires FetchPage(server, name, 1).Ok? && |FetchPage(server, name, 1).value.dependencies| == PerPage
    requires FetchPage(server, name, 2).Ok? && |FetchPage(server, name, 2).value.dependencies| == PerPage
    requires FetchPage(server, name, 3).Ok? && FetchPage(server, name, 3).value.dependencies == []
    ensures Drains(server, name) && FirstStop(server, name) == 3
    ensures Expected(server, name).Ok?
    ensures |Expected(server, name).value.dependencies| == 200
    ensures Expected(server, name).value.dependencies ==
              FetchPage(server, name, 1).value.dependencies + FetchPage(server, name, 2).value.dependencies
    ensures Expected(server, name).value.total == FetchPage(server, name, 2).value.total
  {
    assert Stops(server, name, 3);
    var k := FirstStop(server, name);
    assert !Stops(server, name, 1) && !Stops(server, name, 2);
    assert k == 3;
    assert Collected(server, name, 2) ==
           Collected(server, name, 1) + FetchPage(server, name, 2).value.dependencies;
    assert Collected(server, name, 1) == [] + FetchPage(server, name, 1).value.dependencies;
  }
}
