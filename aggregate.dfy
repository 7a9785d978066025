/** The composite views `full_version` and `full_crate`
    (src/async_client.rs:303-376), built from several sub-requests joined
    fail-fast with `try_join!` and `try_join_all`.

    Which failing sub-request a join reports first depends on how the
    futures are scheduled, so the contracts below only promise that the
    reported error is one of the sub-errors. The results of the
    sub-requests are inputs. */
module Aggregate {
  import opened Types
  import ReverseDeps

  datatype Version = Version(crateName: string, num: string, id: nat, license: Option<string>, yanked: bool)

  datatype Dependency = Dependency(crateId: string, req: string)

  /** A version together with its authors and dependencies. */
  datatype FullVersion = FullVersion(id: nat, num: string, license: Option<string>, yanked: bool,
                                     authorNames: seq<string>, dependencies: seq<Dependency>)

  datatype CrateData = CrateData(id: string, name: string)

  /** The answer to `get_crate`: the crate and its versions, latest first. */
  datatype CrateResponse = CrateResponse(crateData: CrateData, versions: seq<Version>)

  datatype CrateDownloads = CrateDownloads(versionDownloads: seq<nat>)

  datatype User = User(id: nat, login: string)

  datatype FullCrate = FullCrate(id: string, name: string, license: Option<string>,
                                 downloads: CrateDownloads, owners: seq<User>,
                                 reverseDependencies: ReverseDeps.ReverseDependencies,
                                 versions: seq<FullVersion>)

  /** `try_join!` of two futures. */
  function TryJoin2<A, B>(a: Result<A>, b: Result<B>): (r: Result<(A, B)>)
    ensures r.Ok? <==> a.Ok? && b.Ok?
    ensures r.Ok? ==> r.value == (a.value, b.value)
    ensures r.Err? ==> (a.Err? && r.error == a.error) || (b.Err? && r.error == b.error)
  {
    match a
    case Err(e) => Err(e)
    case Ok(x) =>
      match b
      case Err(e) => Err(e)
      case Ok(y) => Ok((x, y))
  }

  /** `try_join!` of three futures. */
  function TryJoin3<A, B, C>(a: Result<A>, b: Result<B>, c: Result<C>): (r: Result<(A, B, C)>)
    ensures r.Ok? <==> a.Ok? && b.Ok? && c.Ok?
    ensures r.Ok? ==> r.value == (a.value, b.value, c.value)
    ensures r.Err? ==> (a.Err? && r.error == a.error) || (b.Err? && r.error == b.error) ||
                       (c.Err? && r.error == c.error)
  {
    match TryJoin2(a, b)
    case Err(e) => Err(e)
    case Ok((x, y)) =>
      match c
      case Err(e) => Err(e)
      case Ok(z) => Ok((x, y, z))
  }

  /** `try_join_all`: every result, in the order given, or one of the errors. */
  function TryJoinAll<T>(rs: seq<Result<T>>): (r: Result<seq<T>>)
    ensures r.Ok? <==> forall i :: 0 <= i < |rs| ==> rs[i].Ok?
    ensures r.Ok? ==> |r.value| == |rs| && forall i :: 0 <= i < |rs| ==> r.value[i] == rs[i].value
    ensures r.Err? ==> exists i :: 0 <= i < |rs| && rs[i] == Err(r.error)
  {
    if rs == [] then Ok([])
    else
      match rs[0]
      case Err(e) => Err(e)
      case Ok(v) =>
        match TryJoinAll(rs[1..])
        case Err(e) => Err(e)
        case Ok(vs) => Ok([v] + vs)
  }

  /** The record `full_version` builds once both sub-requests succeeded. */
  function Detail(version: Version, authorNames: seq<string>, deps: seq<Dependency>): FullVersion {
    FullVersion(version.id, version.num, version.license, version.yanked, authorNames, deps)
  }

  /** `full_version`: the authors and the dependencies of one version, joined. */
  function FullVersionOf(version: Version, authors: Result<seq<string>>, deps: Result<seq<Dependency>>)
    : (r: Result<FullVersion>)
    ensures r.Ok? <==> authors.Ok? && deps.Ok?
    ensures r.Ok? ==> r.value.num == version.num && r.value.id == version.id &&
                      r.value.license == version.license && r.value.yanked == version.yanked &&
                      r.value.authorNames == authors.value && r.value.dependencies == deps.value
    ensures r.Err? ==> (authors.Err? && r.error == authors.error) || (deps.Err? && r.error == deps.error)
  {
    match TryJoin2(authors, deps)
    case Err(e) => Err(e)
    case Ok((names, ds)) => Ok(Detail(version, names, ds))
  }

  /** What each sub-request of `full_crate` gives. */
  datatype Lookups = Lookups(
    krate: Result<CrateResponse>,
    authors: Version -> Result<seq<string>>,
    dependencies: Version -> Result<seq<Dependency>>,
    downloads: Result<CrateDownloads>,
    owners: Result<seq<User>>,
    reverseDependencies: Result<ReverseDeps.ReverseDependencies>)

  /** The versions whose details are fetched: all of them, or only the first. */
  function Selected(versions: seq<Version>, allVersions: bool): seq<Version>
    requires allVersions || |versions| > 0
  {
    if allVersions then versions else versions[..1]
  }

  /** The details of the selected versions, one result per version in order. */
  function Details(l: Lookups, versions: seq<Version>): seq<Result<FullVersion>> {
    seq(|versions|, i requires 0 <= i < |versions| =>
          FullVersionOf(versions[i], l.authors(versions[i]), l.dependencies(versions[i])))
  }

  /** The selected version's details all succeed. */
  ghost predicate DetailsOk(l: Lookups, versions: seq<Version>) {
    forall i :: 0 <= i < |versions| ==> l.authors(versions[i]).Ok? && l.dependencies(versions[i]).Ok?
  }

  /** The detailed versions of `full_crate`: `full_version` of the first
      version alone, or `try_join_all` over every version. */
  function VersionDetails(l: Lookups, versions: seq<Version>, allVersions: bool): (r: Result<seq<FullVersion>>)
    requires allVersions || |versions| > 0
    ensures var sel := Selected(versions, allVersions);
            && (r.Ok? <==> DetailsOk(l, sel))
            && (r.Ok? ==> |r.value| == |sel| &&
                          forall i :: 0 <= i < |sel| ==>
                            r.value[i] == Detail(sel[i], l.authors(sel[i]).value, l.dependencies(sel[i]).value))
            && (r.Err? ==> exists i :: 0 <= i < |sel| &&
                             (l.authors(sel[i]) == Err(r.error) || l.dependencies(sel[i]) == Err(r.error)))
  {
    if !allVersions then
      var first := versions[0];
      assert Selected(versions, allVersions) == [first];
      match FullVersionOf(first, l.authors(first), l.dependencies(first))
      case Err(e) => Err(e)
      case Ok(v) => Ok([v])
    else
      var details := Details(l, versions);
      assert forall i :: 0 <= i < |versions| ==>
               details[i] == FullVersionOf(versions[i], l.authors(versions[i]), l.dependencies(versions[i]));
      TryJoinAll(details)
  }

  /** `full_crate`. Indexing `versions[0]` panics on a crate without
      versions; the requires admits exactly the cases that do not reach it. */
  function FullCrateOf(l: Lookups, allVersions: bool): (r: Result<FullCrate>)
    requires l.krate.Ok? && l.krate.value.versions == [] ==>
               allVersions && (l.downloads.Err? || l.owners.Err? || l.reverseDependencies.Err?)
    // the base lookup comes first and its failure is the result
    ensures l.krate.Err? ==> r == Err(l.krate.error)
    // the version details are joined before the crate-level lookups start
    ensures l.krate.Ok? && !DetailsOk(l, Selected(l.krate.value.versions, allVersions)) ==>
              var sel := Selected(l.krate.value.versions, allVersions);
              r.Err? && exists i :: 0 <= i < |sel| &&
                          (l.authors(sel[i]) == Err(r.error) || l.dependencies(sel[i]) == Err(r.error))
    // fail-fast: the whole succeeds exactly when every part does
    ensures r.Ok? <==>
              l.krate.Ok? && DetailsOk(l, Selected(l.krate.value.versions, allVersions)) &&
              l.downloads.Ok? && l.owners.Ok? && l.reverseDependencies.Ok?
    ensures l.krate.Ok? && DetailsOk(l, Selected(l.krate.value.versions, allVersions)) && r.Err? ==>
              (l.downloads.Err? && r.error == l.downloads.error) ||
              (l.owners.Err? && r.error == l.owners.error) ||
              (l.reverseDependencies.Err? && r.error == l.reverseDependencies.error)
    // the composite keeps the version order and takes its license from the first version
    ensures r.Ok? ==>
              var krate := l.krate.value;
              var sel := Selected(krate.versions, allVersions);
              && |r.value.versions| == |sel|
              && (forall i :: 0 <= i < |sel| ==>
                    r.value.versions[i] == Detail(sel[i], l.authors(sel[i]).value, l.dependencies(sel[i]).value))
              && r.value.license == krate.versions[0].license
              && r.value.id == krate.crateData.id && r.value.name == krate.crateData.name
              && r.value.downloads == l.downloads.value && r.value.owners == l.owners.value
              && r.value.reverseDependencies == l.reverseDependencies.value
  {
    match l.krate
    case Err(e) => Err(e)
    case Ok(krate) =>
      match VersionDetails(l, krate.versions, allVersions)
      case Err(e) => Err(e)
      case Ok(vs) =>
        match TryJoin3(l.downloads, l.owners, l.reverseDependencies)
        case Err(e) => Err(e)
        case Ok((dls, owners, rdeps)) =>
          Ok(FullCrate(krate.crateData.id, krate.crateData.name, krate.versions[0].license,
                       dls, owners, rdeps, vs))
  }
}
