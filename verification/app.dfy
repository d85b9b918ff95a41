/** The catalog page of src/App.tsx: the search filter over the loaded
    catalog, and the one-shot load that prefers the cache over the network. */
module App {
  import opened Types
  import opened Text
  import opened Cache

  // ---------------------------------------------------------------------------
  // Search
  // ---------------------------------------------------------------------------

  /** An app matches when its name or its description contains the search
      term, all three lower-cased. */
  predicate Matches(app: DockerApp, term: string): (b: bool)
    ensures b <==> ((exists i: nat :: OccursAt(Lower(app.Name), Lower(term), i))
                    || (exists i: nat :: OccursAt(Lower(app.Description), Lower(term), i)))
  {
    Includes(Lower(app.Name), Lower(term)) || Includes(Lower(app.Description), Lower(term))
  }

  /** `xs` can be obtained from `ys` by deleting elements, keeping the rest in order. */
  predicate IsSubsequence<T(==)>(xs: seq<T>, ys: seq<T>)
    decreases |ys|
  {
    if xs == [] then true
    else if ys == [] then false
    else (xs[0] == ys[0] && IsSubsequence(xs[1..], ys[1..])) || IsSubsequence(xs, ys[1..])
  }

  /** `filteredApps`: the apps matching the term, in catalog order. */
  function FilterApps(apps: seq<DockerApp>, term: string): (r: seq<DockerApp>)
    ensures IsSubsequence(r, apps)
    ensures forall i :: 0 <= i < |r| ==> Matches(r[i], term)
    decreases |apps|
  {
    if apps == [] then []
    else
      var rest := FilterApps(apps[1..], term);
      assert apps == [apps[0]] + apps[1..];
      if Matches(apps[0], term) then [apps[0]] + rest else rest
  }

  /** Each matching app occurs in the result as often as in the catalog, and
      no other app occurs at all. */
  lemma {:induction false} FilterCounts(apps: seq<DockerApp>, term: string, a: DockerApp)
    ensures multiset(FilterApps(apps, term))[a] == if Matches(a, term) then multiset(apps)[a] else 0
    decreases |apps|
  {
    if apps != [] {
      FilterCounts(apps[1..], term, a);
      assert apps == [apps[0]] + apps[1..];
      assert multiset(apps) == multiset([apps[0]]) + multiset(apps[1..]);
    }
  }

  /** An app is kept exactly when it matches. */
  lemma KeptIffMatches(apps: seq<DockerApp>, term: string, a: DockerApp)
    ensures a in FilterApps(apps, term) <==> a in apps && Matches(a, term)
  {
  }

  /** Filtering distributes over concatenation: relative order is kept. */
  lemma {:induction false} FilterAppend(xs: seq<DockerApp>, ys: seq<DockerApp>, term: string)
    ensures FilterApps(xs + ys, term) == FilterApps(xs, term) + FilterApps(ys, term)
    decreases |xs|
  {
    if xs == [] {
      assert xs + ys == ys;
    } else {
      assert (xs + ys)[1..] == xs[1..] + ys;
      assert (xs + ys)[0] == xs[0];
      FilterAppend(xs[1..], ys, term);
    }
  }

  /** An empty search term keeps every app. */
  lemma {:induction false} EmptyTermKeepsAll(apps: seq<DockerApp>)
    ensures FilterApps(apps, "") == apps
    decreases |apps|
  {
    if apps != [] {
      assert Lower("") == [];
      IncludesEmpty(Lower(apps[0].Name));
      EmptyTermKeepsAll(apps[1..]);
      assert apps == [apps[0]] + apps[1..];
    }
  }

  /** Filtering an already filtered list with the same term changes nothing. */
  lemma {:induction false} FilterIdempotent(apps: seq<DockerApp>, term: string)
    ensures FilterApps(FilterApps(apps, term), term) == FilterApps(apps, term)
    decreases |apps|
  {
    if apps != [] {
      FilterIdempotent(apps[1..], term);
      var rest := FilterApps(apps[1..], term);
      if Matches(apps[0], term) {
        assert ([apps[0]] + rest)[1..] == rest;
      }
    }
  }

  /** Narrowing the search: any app matching a term also matches every
      substring of that term, letter case aside. */
  lemma MatchesNarrower(a: DockerApp, t1: string, t2: string)
    requires Includes(Lower(t2), Lower(t1))
    requires Matches(a, t2)
    ensures Matches(a, t1)
  {
    if Includes(Lower(a.Name), Lower(t2)) {
      IncludesTransitive(Lower(a.Name), Lower(t2), Lower(t1));
    } else {
      IncludesTransitive(Lower(a.Description), Lower(t2), Lower(t1));
    }
  }

  /** The longer term's result can be computed from the shorter term's result. */
  lemma {:induction false} FilterRefines(apps: seq<DockerApp>, t1: string, t2: string)
    requires Includes(Lower(t2), Lower(t1))
    ensures FilterApps(FilterApps(apps, t1), t2) == FilterApps(apps, t2)
    decreases |apps|
  {
    if apps != [] {
      FilterRefines(apps[1..], t1, t2);
      var rest := FilterApps(apps[1..], t1);
      if Matches(apps[0], t1) {
        assert ([apps[0]] + rest)[1..] == rest;
      } else if Matches(apps[0], t2) {
        MatchesNarrower(apps[0], t1, t2);
      }
    }
  }

  /** If term `t1` is a substring of term `t2`, letter case aside, searching
      for `t2` shows a subsequence of what searching for `t1` shows. */
  lemma FilterMonotone(apps: seq<DockerApp>, t1: string, t2: string)
    requires Includes(Lower(t2), Lower(t1))
    ensures IsSubsequence(FilterApps(apps, t2), FilterApps(apps, t1))
  {
    FilterRefines(apps, t1, t2);
  }

  function ExampleApp(name: string, description: string): DockerApp
  {
    DockerApp(name, description, "", "", "", "", "", "")
  }

  /** The search is case-insensitive on both sides: "RE" finds "Redis" by its
      name and "Postgres" by the "re" inside "postgres". */
  lemma SearchExample()
    ensures FilterApps([ExampleApp("Redis", "cache"), ExampleApp("Postgres", "db")], "RE")
         == [ExampleApp("Redis", "cache"), ExampleApp("Postgres", "db")]
  {
    var redis := ExampleApp("Redis", "cache");
    var postgres := ExampleApp("Postgres", "db");
    assert Lower("RE") == "re";
    assert Lower("Redis") == "redis";
    assert Lower("Postgres") == "postgres";
    assert OccursAt("redis", "re", 0);
    assert OccursAt("postgres", "re", 5);
    assert Matches(redis, "RE") && Matches(postgres, "RE");
    assert [redis, postgres][1..] == [postgres];
  }

  // ---------------------------------------------------------------------------
  // Loading the catalog
  // ---------------------------------------------------------------------------

  /** What the one request to `${API_BASE_URL}/apps` produced. */
  datatype FetchOutcome =
    | Ok(data: seq<DockerApp>)   // 2xx status and a body that parsed as the catalog
    | HttpError(status: int)     // `response.ok` was false
    | NetworkError               // `fetch` itself rejected
    | MalformedBody              // `response.json()` rejected

  /** The page state `fetchApps` drives: the `apps`, `loading` and `error` state hooks. */
  datatype CatalogView = CatalogView(apps: seq<DockerApp>, loading: bool, error: Option<string>)

  /** The state hooks before the load effect runs. */
  const InitialView: CatalogView := CatalogView([], true, None)

  const LoadErrorMessage: string := "Failed to load apps. Please try again later."

  /** Everything the load changes: the page state, the storage, and how many
      network requests it issued. */
  datatype LoadResult = LoadResult(view: CatalogView, storage: Storage, requests: nat)

  /** `fetchApps`, run once from the initial view. The cache is read at
      `readAt`; a miss issues one request whose outcome is `response`, and a
      successful response is cached with the clock reading `writeAt` taken
      after the response arrived. Any failure is caught and becomes one error
      message; `loading` ends false on every path. */
  function FetchApps(s: Storage, readAt: nat, response: FetchOutcome, writeAt: nat): (r: LoadResult)
    ensures !r.view.loading
    ensures SameOtherKeys(s, r.storage)
    ensures r.requests == 0 <==> GetApps(s, readAt).apps.Some?
    ensures r.requests <= 1
    ensures GetApps(s, readAt).apps.Some? ==>
      r.view == CatalogView(GetApps(s, readAt).apps.value, false, None) && r.storage == s
    ensures r.view.error.Some? <==> GetApps(s, readAt).apps.None? && !response.Ok?
    ensures r.view.error.Some? ==>
      r.view.apps == [] && r.view.error == Some(LoadErrorMessage) && CacheKey !in r.storage
    ensures GetApps(s, readAt).apps.None? && response.Ok? ==>
      r.view.apps == response.data && CacheKey in r.storage &&
      r.storage[CacheKey] == CacheData(writeAt, response.data)
  {
    var cached := GetApps(s, readAt);
    match cached.apps
    case Some(apps) =>
      // An empty array is truthy too, so any stored catalog counts as a hit.
      LoadResult(CatalogView(apps, false, None), cached.storage, 0)
    case None =>
      match response
      case Ok(data) =>
        LoadResult(CatalogView(data, false, None), SetApps(cached.storage, data, writeAt), 1)
      case _ =>
        LoadResult(CatalogView(InitialView.apps, false, Some(LoadErrorMessage)), cached.storage, 1)
  }

  /** After a successful fetch, the catalog shown is the catalog cached: a read
      at the write time returns exactly what the page displays. */
  lemma FetchedIsCached(s: Storage, readAt: nat, data: seq<DockerApp>, writeAt: nat)
    requires GetApps(s, readAt).apps.None?
    ensures GetApps(FetchApps(s, readAt, Ok(data), writeAt).storage, writeAt).apps
         == Some(FetchApps(s, readAt, Ok(data), writeAt).view.apps)
  {
  }

  /** A page reload within the time to live after a successful load shows the
      same catalog without any request, whatever the network would answer. */
  lemma ReloadWithinTtlHits(s: Storage, readAt: nat, data: seq<DockerApp>, writeAt: nat,
                            reloadAt: nat, response2: FetchOutcome, writeAt2: nat)
    requires GetApps(s, readAt).apps.None?
    requires reloadAt - writeAt <= CacheExpiry
    ensures var first := FetchApps(s, readAt, Ok(data), writeAt);
            var second := FetchApps(first.storage, reloadAt, response2, writeAt2);
            second.requests == 0 && second.view.apps == data && second.view.error == None
  {
  }

  /** A failed load caches nothing: the next load misses again and issues a
      request, at any clock value. */
  lemma FailureCachesNothing(s: Storage, readAt: nat, response: FetchOutcome, writeAt: nat,
                             reloadAt: nat, response2: FetchOutcome, writeAt2: nat)
    requires !response.Ok?
    requires GetApps(s, readAt).apps.None?
    ensures var first := FetchApps(s, readAt, response, writeAt);
            FetchApps(first.storage, reloadAt, response2, writeAt2).requests == 1
  {
  }
}
