/** How the proxy maps request addresses to an upstream endpoint, and upstream redirects back. */
module ProxyAddress {
  type Pairs = seq<(int, int)>

  /** A parsed address: origin, path characters, query pairs in order and the fragment. */
  datatype Url = Url(origin: int, credentials: bool, path: string, query: Pairs, hash: string)

  datatype Error = OriginMismatch | QueryConflict

  datatype Resolution = Resolved(target: Url) | Rejected(error: Error)

  /** A rewritten redirect, or the redirect as it came. */
  datatype Location = Rewritten(path: string, query: Pairs, hash: string) | Untouched

  // ----- paths -----

  function StripLeading(path: string): (r: string)
    ensures r != "" ==> r[0] != '/'
    ensures path != "" && path[0] != '/' ==> r == path
  {
    if path != "" && path[0] == '/' then StripLeading(path[1..]) else path
  }

  function StripTrailing(path: string): (r: string)
    ensures r != "" ==> r[|r| - 1] != '/'
    ensures r <= path
  {
    if path != "" && path[|path| - 1] == '/' then StripTrailing(path[..|path| - 1]) else path
  }

  /** Only slashes are dropped, and only at the start. */
  lemma {:induction false} StripLeadingMeans(path: string)
    ensures var r := StripLeading(path);
            && |r| <= |path| && path[|path| - |r|..] == r
            && forall i :: 0 <= i < |path| - |r| ==> path[i] == '/'
  {
    if path != "" && path[0] == '/' {
      StripLeadingMeans(path[1..]);
      var r := StripLeading(path[1..]);
      assert path[|path| - |r|..] == path[1..][|path| - 1 - |r|..];
      forall i | 0 <= i < |path| - |r| ensures path[i] == '/' {
        if i > 0 { assert path[1..][i - 1] == '/'; }
      }
    }
  }

  function BasePath(endpoint: Url): string {
    if endpoint.path == "/" then "" else StripTrailing(endpoint.path)
  }

  /** The base is the endpoint's path without its trailing slashes. */
  lemma BasePathMeans(endpoint: Url)
    ensures var base := BasePath(endpoint);
            && base <= endpoint.path && (base != "" ==> base[|base| - 1] != '/')
            && forall i :: |base| <= i < |endpoint.path| ==> endpoint.path[i] == '/'
  {
    StripTrailingMeans(endpoint.path);
  }

  lemma {:induction false} StripTrailingMeans(path: string)
    ensures forall i :: |StripTrailing(path)| <= i < |path| ==> path[i] == '/'
  {
    if path != "" && path[|path| - 1] == '/' {
      StripTrailingMeans(path[..|path| - 1]);
      forall i | |StripTrailing(path)| <= i < |path| ensures path[i] == '/' {
        if i < |path| - 1 { assert path[..|path| - 1][i] == '/'; }
      }
    }
  }

  function PublicPath(base: string, path: string): string {
    if base != "" && (path == base || base + "/" <= path)
    then if path[|base|..] == "" then "/" else path[|base|..]
    else path
  }

  /**
   * Below a base the rest of the path is public, the base itself is the root, and any other path is public as it is.
   */
  lemma PublicPathMeans(base: string, path: string)
    ensures base == "" ==> PublicPath(base, path) == path
    ensures base != "" && path == base ==> PublicPath(base, path) == "/"
    ensures base != "" && base + "/" <= path ==> base + PublicPath(base, path) == path
    ensures path != base && !(base + "/" <= path) ==> PublicPath(base, path) == path
  {
    if base != "" && base + "/" <= path { assert path == base + path[|base|..] && path[|base|] == '/'; }
  }

  // ----- queries -----

  predicate Names(query: Pairs, name: int) {
    exists i :: 0 <= i < |query| && query[i].0 == name
  }

  predicate DistinctNames(query: Pairs) {
    forall i, j :: 0 <= i < j < |query| ==> query[i].0 != query[j].0
  }

  predicate Disjoint(a: Pairs, b: Pairs) {
    forall i, j :: 0 <= i < |a| && 0 <= j < |b| ==> a[i].0 != b[j].0
  }

  /** The pairs whose name is not among the given ones, in order. */
  function Dropping(query: Pairs, names: Pairs): Pairs {
    if query == [] then []
    else Dropping(query[..|query| - 1], names) + if Names(names, query[|query| - 1].0) then [] else [query[|query| - 1]]
  }

  /** Exactly the pairs with another name stay. */
  lemma {:induction false} DroppingMeans(query: Pairs, names: Pairs, pair: (int, int))
    ensures pair in Dropping(query, names) <==> pair in query && forall i :: 0 <= i < |names| ==> names[i].0 != pair.0
  {
    if query != [] {
      var n := |query| - 1;
      DroppingMeans(query[..n], names, pair);
      assert pair in query <==> pair in query[..n] || pair == query[n];
    }
  }

  lemma {:induction false} DroppingPrefix(own: Pairs, rest: Pairs, names: Pairs)
    requires forall i :: 0 <= i < |own| ==> Names(names, own[i].0)
    requires forall i :: 0 <= i < |rest| ==> !Names(names, rest[i].0)
    ensures Dropping(own + rest, names) == rest
  {
    var all := own + rest;
    if rest != [] {
      assert all[..|all| - 1] == own + rest[..|rest| - 1];
      DroppingPrefix(own, rest[..|rest| - 1], names);
    } else if own != [] {
      assert all[..|all| - 1] == own[..|own| - 1] + [];
      DroppingPrefix(own[..|own| - 1], [], names);
    }
  }

  lemma {:induction false} DroppingTwice(query: Pairs, names: Pairs, name: (int, int))
    ensures Dropping(Dropping(query, names), [name]) == Dropping(query, names + [name])
  {
    if query != [] {
      var n := |query| - 1;
      var before := Dropping(query[..n], names);
      DroppingTwice(query[..n], names, name);
      NamesOfAppend(names, name, query[n].0);
      if !Names(names, query[n].0) {
        assert (before + [query[n]])[..|before|] == before;
        assert Names([name], query[n].0) <==> name.0 == query[n].0 by { assert [name][0] == name; }
      } else {
        assert Dropping(query, names) == before;
      }
    }
  }

  lemma NamesOfAppend(names: Pairs, name: (int, int), x: int)
    ensures Names(names + [name], x) <==> Names(names, x) || name.0 == x
  {
    assert (names + [name])[|names|] == name;
    if i :| 0 <= i < |names| && names[i].0 == x { assert (names + [name])[i].0 == x; }
  }

  lemma {:induction false} DroppingNothing(query: Pairs)
    ensures Dropping(query, []) == query
  {
    if query != [] { DroppingNothing(query[..|query| - 1]); }
  }

  // ----- resolving a request -----

  /**
   * The upstream address of a request. It is refused exactly for a foreign origin or credentials, or when a query name
   * is taken: by the endpoint, or by an earlier pair of the same request.
   */
  method ResolveProxyTarget(request: Url, own: int, endpoint: Url) returns (resolution: Resolution)
    ensures resolution == Resolve(request, own, endpoint)
    ensures resolution == Rejected(OriginMismatch) <==> request.origin != own || request.credentials
    ensures resolution == Rejected(QueryConflict) <==>
              && request.origin == own && !request.credentials
              && (|| (exists i, j :: 0 <= i < |endpoint.query| && 0 <= j < |request.query| &&
                        endpoint.query[i].0 == request.query[j].0)
                  || exists i, j :: 0 <= i < j < |request.query| && request.query[i].0 == request.query[j].0)
    ensures resolution.Resolved? ==>
              && resolution.target.origin == endpoint.origin && resolution.target.hash == endpoint.hash
              && resolution.target.path == BasePath(endpoint) + "/" + StripLeading(request.path)
              && resolution.target.query == endpoint.query + request.query
  {
    if request.origin != own || request.credentials { return Rejected(OriginMismatch); }
    var path := BasePath(endpoint) + "/" + StripLeading(request.path);
    var target := endpoint.(path := path);
    for i := 0 to |request.query|
      invariant target == endpoint.(path := path, query := endpoint.query + request.query[..i])
      invariant Disjoint(endpoint.query, request.query[..i]) && DistinctNames(request.query[..i])
    {
      var pair := request.query[i];
      var taken := Has(target.query, pair.0);
      NextName(endpoint.query, request.query, i);
      if taken { return Rejected(QueryConflict); }
      target := target.(query := target.query + [pair]);
      assert target.query == endpoint.query + request.query[..i + 1];
    }
    assert request.query[..|request.query|] == request.query;
    return Resolved(target);
  }

  /** The next name is taken exactly if the endpoint or an earlier pair has it. */
  lemma NextName(names: Pairs, query: Pairs, i: nat)
    requires i < |query| && Disjoint(names, query[..i]) && DistinctNames(query[..i])
    ensures if Names(names + query[..i], query[i].0) then !Disjoint(names, query) || !DistinctNames(query)
            else Disjoint(names, query[..i + 1]) && DistinctNames(query[..i + 1])
  {
    var all := names + query[..i];
    if k :| 0 <= k < |all| && all[k].0 == query[i].0 {
      assert if k < |names| then all[k] == names[k] else all[k] == query[k - |names|];
    } else {
      forall k | 0 <= k < |names| ensures names[k].0 != query[i].0 { assert all[k] == names[k]; }
      forall k | 0 <= k < i ensures query[k].0 != query[i].0 { assert all[|names| + k] == query[k]; }
    }
  }

  method Has(query: Pairs, name: int) returns (found: bool)
    ensures found <==> Names(query, name)
  {
    found := false;
    for i := 0 to |query|
      invariant found <==> Names(query[..i], name)
    {
      assert query[..i + 1] == query[..i] + [query[i]];
      NamesOfAppend(query[..i], query[i], name);
      if query[i].0 == name { found := true; }
    }
    assert query[..|query|] == query;
  }

  function Resolve(request: Url, own: int, endpoint: Url): Resolution {
    if request.origin != own || request.credentials then Rejected(OriginMismatch)
    else if !Disjoint(endpoint.query, request.query) || !DistinctNames(request.query) then Rejected(QueryConflict)
    else Resolved(endpoint.(path := BasePath(endpoint) + "/" + StripLeading(request.path),
        query := endpoint.query + request.query))
  }

  // ----- rewriting a redirect -----

  method RewriteLocation(target: Url, endpoint: Url, prefix: string) returns (location: Location)
    ensures location == Rewrite(target, endpoint, prefix)
    ensures location.Untouched? <==> target.origin != endpoint.origin
    ensures location.Rewritten? ==>
              && location.hash == target.hash
              && (forall pair :: pair in location.query <==>
                    pair in target.query && forall i :: 0 <= i < |endpoint.query| ==> endpoint.query[i].0 != pair.0)
  {
    if target.origin != endpoint.origin { return Untouched; }
    var query := target.query;
    DroppingNothing(target.query);
    for i := 0 to |endpoint.query|
      invariant query == Dropping(target.query, endpoint.query[..i])
    {
      DroppingTwice(target.query, endpoint.query[..i], endpoint.query[i]);
      assert endpoint.query[..i + 1] == endpoint.query[..i] + [endpoint.query[i]];
      query := Delete(query, endpoint.query[i]);
    }
    assert endpoint.query[..|endpoint.query|] == endpoint.query;
    forall pair { DroppingMeans(target.query, endpoint.query, pair); }
    return Rewritten(prefix + PublicPath(BasePath(endpoint), target.path), query, target.hash);
  }

  /** Removes every pair of that name. */
  method Delete(query: Pairs, pair: (int, int)) returns (kept: Pairs)
    ensures kept == Dropping(query, [pair])
  {
    kept := [];
    for i := 0 to |query|
      invariant kept == Dropping(query[..i], [pair])
    {
      assert query[..i + 1][..i] == query[..i];
      assert Names([pair], query[i].0) <==> pair.0 == query[i].0 by { assert [pair][0] == pair; }
      if query[i].0 != pair.0 { kept := kept + [query[i]]; }
    }
    assert query[..|query|] == query;
  }

  function Rewrite(target: Url, endpoint: Url, prefix: string): Location {
    if target.origin != endpoint.origin then Untouched
    else Rewritten(prefix + PublicPath(BasePath(endpoint), target.path), Dropping(target.query, endpoint.query),
        target.hash)
  }

  // ----- there and back -----

  /**
   * Whenever a request is accepted, rewriting the address it was resolved to gives the instance prefix, the request
   * path with its leading slashes collapsed, exactly the request's query pairs in order, and the endpoint's fragment.
   */
  lemma RewriteUndoesResolve(request: Url, own: int, endpoint: Url, prefix: string)
    requires Resolve(request, own, endpoint).Resolved?
    ensures Rewrite(Resolve(request, own, endpoint).target, endpoint, prefix)
         == Rewritten(prefix + "/" + StripLeading(request.path), request.query, endpoint.hash)
  {
    var base := BasePath(endpoint);
    var rest := "/" + StripLeading(request.path);
    var path := base + "/" + StripLeading(request.path);
    assert path == base + rest && path[|base|..] == rest;
    assert base + "/" <= path;
    assert PublicPath(base, path) == rest;
    assert prefix + rest == prefix + "/" + StripLeading(request.path);
    forall i | 0 <= i < |endpoint.query| ensures Names(endpoint.query, endpoint.query[i].0) {
    }
    DroppingPrefix(endpoint.query, request.query, endpoint.query);
  }

  /** An upstream path below the endpoint's base with a single slash after it. */
  predicate SinglySlashed(base: string, path: string) {
    base + "/" <= path && (|path| > |base| + 1 ==> path[|base| + 1] != '/')
  }

  /**
   * The request a browser makes when it follows a rewritten redirect, after the prefix is taken off again.  A path that
   * starts with two slashes is parsed as an address of its own and so gets another origin.
   */
  function Followed(own: int, foreign: int, public: string, query: Pairs, hash: string): Url {
    Url(if "//" <= public then foreign else own, false, public, query, hash)
  }

  /**
   * A followed redirect is refused if and only if its public path starts with two slashes; else it brings the
   * endpoint's query and the redirect's own pairs.  It comes back to the very path the upstream named exactly when
   * that path lies below the base with one slash after it; a path outside the base, the bare base and doubled slashes
   * do not come back.
   */
  lemma RedirectComesBack(target: Url, endpoint: Url, own: int, foreign: int)
    requires target.origin == endpoint.origin && DistinctNames(Dropping(target.query, endpoint.query)) && foreign != own
    ensures var base := BasePath(endpoint);
            var public := PublicPath(base, target.path);
            var query := Dropping(target.query, endpoint.query);
            var again := Resolve(Followed(own, foreign, public, query, target.hash), own, endpoint);
            && (again.Resolved? <==> !("//" <= public))
            && (again.Resolved? ==> again.target.query == endpoint.query + query)
            && (again.Resolved? && again.target.path == target.path <==> SinglySlashed(base, target.path))
  {
    var base := BasePath(endpoint);
    var public := PublicPath(base, target.path);
    DroppedAreDisjoint(target.query, endpoint.query);
    if SinglySlashed(base, target.path) {
      SingleSlashIsUndone(base, target.path);
    } else if base + "/" + StripLeading(public) == target.path {
      assert target.path[|base| + 1..] == StripLeading(public);
      assert base + "/" <= target.path;
      assert SinglySlashed(base, target.path);
    }
  }

  lemma SingleSlashIsUndone(base: string, path: string)
    requires SinglySlashed(base, path)
    ensures var public := PublicPath(base, path);
            !("//" <= public) && base + "/" + StripLeading(public) == path
  {
    var rest := path[|base|..];
    assert path == base + rest && rest[0] == '/';
    assert PublicPath(base, path) == rest;
    assert rest == "/" + rest[1..];
    assert |rest| > 1 ==> rest[1] == path[|base| + 1];
    assert StripLeading(rest) == StripLeading(rest[1..]) == rest[1..];
  }

  lemma {:induction false} DroppedAreDisjoint(query: Pairs, names: Pairs)
    ensures Disjoint(names, Dropping(query, names))
  {
    if query != [] { DroppedAreDisjoint(query[..|query| - 1], names); }
  }
}
