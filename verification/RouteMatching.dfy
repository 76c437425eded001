/** Which configured routes a signal takes. */
module RouteMatching {
  import opened Basics
  import opened ProjectPaths
  import opened Router

  datatype RouteConfig = RouteConfig(
    sources: seq<string>, providers: seq<string>, minimumMs: Option<nat>, onlyFromPaths: seq<string>)

  datatype FilterMiss = DurationTooShort | MissingProjectPath | ProjectPathNotAllowed

  function RouteFilterMiss(signal: Signal, route: RouteConfig): Option<FilterMiss> {
    if route.minimumMs.Some? && signal.durationMs.Some?
      && signal.durationMs.value < route.minimumMs.value then Some(DurationTooShort)
    else if route.onlyFromPaths == [] then None
    else if Path(signal).None? then Some(MissingProjectPath)
    else if exists p :: p in route.onlyFromPaths && StartsWith(Path(signal).value, p) then None
    else Some(ProjectPathNotAllowed)
  }

  predicate Matches(signal: Signal, route: RouteConfig) {
    signal.sourceId in route.sources && RouteFilterMiss(signal, route).None?
  }

  function MatchingRoutes(signal: Signal, routes: seq<RouteConfig>): seq<RouteConfig> {
    Filter(routes, (route: RouteConfig) => Matches(signal, route))
  }

  function Flattened(routes: seq<RouteConfig>): seq<string> {
    if routes == [] then [] else Flattened(routes[..|routes| - 1]) + routes[|routes| - 1].providers
  }

  /** The provider ids of the matching routes, in the order they are visited. */
  function Listed(signal: Signal, routes: seq<RouteConfig>): seq<string> {
    if routes == [] then []
    else (if Matches(signal, routes[0]) then routes[0].providers else []) + Listed(signal, routes[1..])
  }

  lemma {:induction false} FlattenedCons(route: RouteConfig, routes: seq<RouteConfig>)
    ensures Flattened([route] + routes) == route.providers + Flattened(routes)
  {
    if routes == [] {
      assert [route] + routes == [route];
    } else {
      var front := routes[..|routes| - 1];
      FlattenedCons(route, front);
      assert ([route] + routes)[..|routes|] == [route] + front;
    }
  }

  lemma {:induction false} ListedIsFlattened(signal: Signal, routes: seq<RouteConfig>)
    ensures Listed(signal, routes) == Flattened(MatchingRoutes(signal, routes))
  {
    if routes == [] {
    } else {
      ListedIsFlattened(signal, routes[1..]);
      var rest := MatchingRoutes(signal, routes[1..]);
      if Matches(signal, routes[0]) {
        FlattenedCons(routes[0], rest);
      } else {
        assert MatchingRoutes(signal, routes) == rest;
      }
    }
  }

  lemma FlattenedNext(routes: seq<RouteConfig>, i: nat)
    requires i < |routes|
    ensures Flattened(routes[..i + 1]) == Flattened(routes[..i]) + routes[i].providers
  {
    assert routes[..i + 1][..i] == routes[..i];
  }

  // ---- what it means to match ----

  /** The route lists the source, asks for no longer duration than a known one, and either names no
      folders or one at or above the signal's clean path. */
  ghost predicate Admits(signal: Signal, route: RouteConfig) {
    && signal.sourceId in route.sources
    && (route.minimumMs.Some? && signal.durationMs.Some? ==> signal.durationMs.value >= route.minimumMs.value)
    && (route.onlyFromPaths == [] ||
          (signal.projectPath.Some? && IsCleanAbsolute(signal.projectPath.value)
           && exists base :: base in route.onlyFromPaths && AtOrBelow(Tidied(signal.projectPath.value), Tidied(base))))
  }

  lemma MatchesIffAdmits(signal: Signal, route: RouteConfig)
    ensures Matches(signal, route) <==> Admits(signal, route)
  {
    if signal.projectPath.Some? {
      forall base | base in route.onlyFromPaths
        ensures StartsWith(signal.projectPath.value, base)
          <==> AtOrBelow(Tidied(signal.projectPath.value), Tidied(base))
      {
        StartsWithIsAtOrBelow(signal.projectPath.value, base);
      }
    }
  }

  /** Some admitting route lists the provider. */
  ghost predicate ListedByAdmitting(signal: Signal, routes: seq<RouteConfig>, id: string) {
    exists i :: 0 <= i < |routes| && id in routes[i].providers && Admits(signal, routes[i])
  }

  ghost function AdmittingRoutes(signal: Signal, routes: seq<RouteConfig>): set<int> {
    set i | 0 <= i < |routes| && Admits(signal, routes[i])
  }

  lemma {:induction false} ListedIffAdmitting(signal: Signal, routes: seq<RouteConfig>, id: string)
    ensures id in Listed(signal, routes) <==> ListedByAdmitting(signal, routes, id)
  {
    if routes == [] {
    } else {
      ListedIffAdmitting(signal, routes[1..], id);
      MatchesIffAdmits(signal, routes[0]);
      if ListedByAdmitting(signal, routes[1..], id) {
        var i :| 0 <= i < |routes[1..]| && id in routes[1..][i].providers && Admits(signal, routes[1..][i]);
        assert routes[i + 1] == routes[1..][i];
      }
      if i :| 0 <= i < |routes| && id in routes[i].providers && Admits(signal, routes[i]) {
        assert i > 0 ==> routes[1..][i - 1] == routes[i];
      }
    }
  }

  lemma {:induction false} AdmittingFrom(signal: Signal, routes: seq<RouteConfig>, k: nat)
    requires k <= |routes|
    ensures |MatchingRoutes(signal, routes[k..])| == |set i | k <= i < |routes| && Admits(signal, routes[i])|
    decreases |routes| - k
  {
    var here := set i | k <= i < |routes| && Admits(signal, routes[i]);
    if k == |routes| {
      assert here == {};
    } else {
      AdmittingFrom(signal, routes, k + 1);
      var later := set i | k + 1 <= i < |routes| && Admits(signal, routes[i]);
      MatchesIffAdmits(signal, routes[k]);
      assert routes[k..][1..] == routes[k + 1..];
      assert here == if Admits(signal, routes[k]) then later + {k} else later;
    }
  }

  /** The providers visited are those that an admitting route lists, and the matching routes are counted
      as the admitting ones. */
  lemma RoutesAreAdmitting(signal: Signal, routes: seq<RouteConfig>)
    ensures forall id :: id in Listed(signal, routes) <==> ListedByAdmitting(signal, routes, id)
    ensures |MatchingRoutes(signal, routes)| == |AdmittingRoutes(signal, routes)|
  {
    forall id
      ensures id in Listed(signal, routes) <==> ListedByAdmitting(signal, routes, id)
    {
      ListedIffAdmitting(signal, routes, id);
    }
    AdmittingFrom(signal, routes, 0);
    assert routes[0..] == routes;
  }
}
