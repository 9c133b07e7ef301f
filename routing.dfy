/** How the jobs router picks a handler for a request: routes are tried in
    the order they are declared, and the first whose method and path pattern
    fit the request serves it. Paths are the segments after the router prefix
    `/api/jobs`; a `{job_uuid}` parameter fits any one non-empty segment. */
module Routing {
  import opened Wrappers
  import Enums
  import Models
  import Jobs

  datatype HttpMethod = GET | POST | PUT | DELETE

  datatype Segment = Lit(text: string) | Param

  datatype Handler = CreateJob | GetJob | ListJobs | UpdateJob | DeleteJob | PublishJob | GetMatchingJobs

  datatype Route = Route(verb: HttpMethod, pattern: seq<Segment>, handler: Handler)

  predicate SegmentFits(s: Segment, text: string) {
    match s
    case Lit(t) => t == text
    case Param => text != ""
  }

  predicate PatternFits(pattern: seq<Segment>, path: seq<string>) {
    |pattern| == |path| && forall i :: 0 <= i < |path| ==> SegmentFits(pattern[i], path[i])
  }

  predicate RouteFits(r: Route, verb: HttpMethod, path: seq<string>) {
    r.verb == verb && PatternFits(r.pattern, path)
  }

  /** The handler of the first fitting route, None when no route fits. */
  function Dispatch(routes: seq<Route>, verb: HttpMethod, path: seq<string>): (h: Option<Handler>)
    ensures h.Some? <==> exists i :: 0 <= i < |routes| && RouteFits(routes[i], verb, path)
    ensures h.Some? ==> exists i :: 0 <= i < |routes| && RouteFits(routes[i], verb, path) &&
                                    routes[i].handler == h.value &&
                                    forall k :: 0 <= k < i ==> !RouteFits(routes[k], verb, path)
  {
    if routes == [] then None
    else if RouteFits(routes[0], verb, path) then Some(routes[0].handler)
    else
      var h := Dispatch(routes[1..], verb, path);
      assert forall i :: 1 <= i < |routes| ==> routes[i] == routes[1..][i - 1];
      h
  }

  const CreateRoute: Route := Route(POST, [], CreateJob)
  const GetRoute: Route := Route(GET, [Param], GetJob)
  const ListRoute: Route := Route(GET, [], ListJobs)
  const UpdateRoute: Route := Route(PUT, [Param], UpdateJob)
  const DeleteRoute: Route := Route(DELETE, [Param], DeleteJob)
  const PublishRoute: Route := Route(POST, [Param, Lit("publish")], PublishJob)
  const MatchingRoute: Route := Route(GET, [Lit("matching")], GetMatchingJobs)

  /** The routes in the order the jobs router declares them. */
  const JobsRoutesAsWritten: seq<Route> :=
    [CreateRoute, GetRoute, ListRoute, UpdateRoute, DeleteRoute, PublishRoute, MatchingRoute]

  /** The same routes with the fixed path declared before the parameterised
      one, as the router needs for `/matching` to be reachable. */
  const JobsRoutes: seq<Route> :=
    [CreateRoute, MatchingRoute, GetRoute, ListRoute, UpdateRoute, DeleteRoute, PublishRoute]

  /** As declared, `GET /api/jobs/matching` fits `/{job_uuid}` first and is
      served by `get_job` (see `ShadowedMatchingFails` for its answer);
      `get_matching_jobs` can never be reached. */
  lemma MatchingShadowedAsWritten()
    ensures Dispatch(JobsRoutesAsWritten, GET, ["matching"]) == Some(GetJob)
    ensures forall path :: Dispatch(JobsRoutesAsWritten, GET, path) != Some(GetMatchingJobs)
  {
    assert RouteFits(GetRoute, GET, ["matching"]);
    forall path ensures Dispatch(JobsRoutesAsWritten, GET, path) != Some(GetMatchingJobs) {
      if RouteFits(MatchingRoute, GET, path) {
        // `/{job_uuid}` fits the same path and is tried first
        assert path == ["matching"];
        assert Dispatch(JobsRoutesAsWritten, GET, path) == Some(GetJob);
      } else {
        // only the last route has that handler, and it does not fit
        assert forall i :: 0 <= i < 6 ==> JobsRoutesAsWritten[i].handler != GetMatchingJobs;
      }
    }
  }

  /** Served by `get_job`, the shadowed request always fails: "matching" is
      not uuid text, so the query's cast fails and a printer, the only role
      the matching endpoint admits, gets 500; a customer gets 404 when it has
      no profile and 500 otherwise. */
  lemma ShadowedMatchingFails(jobs: seq<Models.PrintingJob>, u: Models.User)
    ensures !Models.UuidLiteral("matching")
    ensures u.role == Enums.PRINTER ==> Jobs.GetJob(jobs, u, "matching") == Err(ServerError, InternalServerError)
    ensures u.role == Enums.CUSTOMER ==>
              Jobs.GetJob(jobs, u, "matching") ==
              if u.customer_profile_id.None? then Err(Jobs.NotFound, Jobs.ProfileMissingShort)
              else Err(ServerError, InternalServerError)
  {
    assert !Models.IsHexDigit('m');
  }

  /** With the corrected order the matching endpoint is served. */
  lemma MatchingReachable()
    ensures Dispatch(JobsRoutes, GET, ["matching"]) == Some(GetMatchingJobs)
  {
    assert RouteFits(MatchingRoute, GET, ["matching"]);
  }

  /** The correction changes nothing else: every other request reaches the
      same handler under both orders, so every job uuid still reaches
      `get_job`. */
  lemma ReorderChangesOnlyMatching(verb: HttpMethod, path: seq<string>)
    requires !(verb == GET && path == ["matching"])
    ensures Dispatch(JobsRoutes, verb, path) == Dispatch(JobsRoutesAsWritten, verb, path)
  {
    assert !RouteFits(MatchingRoute, verb, path) by {
      if |path| == 1 {
        assert path == [path[0]];
      }
    }
    if !RouteFits(CreateRoute, verb, path) {
      var rest := JobsRoutes[1..];
      assert rest[0] == MatchingRoute && rest[1..] == JobsRoutes[2..];
      assert Dispatch(JobsRoutes, verb, path) == Dispatch(JobsRoutes[2..], verb, path);
      DispatchDropsUnfitLast(JobsRoutesAsWritten[1..], verb, path);
      assert JobsRoutesAsWritten[1..][..5] == JobsRoutes[2..];
    }
  }

  /** A last route that does not fit never changes the outcome. */
  lemma DispatchDropsUnfitLast(routes: seq<Route>, verb: HttpMethod, path: seq<string>)
    requires routes != [] && !RouteFits(routes[|routes| - 1], verb, path)
    ensures Dispatch(routes, verb, path) == Dispatch(routes[..|routes| - 1], verb, path)
  {
    if |routes| > 1 && !RouteFits(routes[0], verb, path) {
      DispatchDropsUnfitLast(routes[1..], verb, path);
      assert routes[1..][..|routes| - 2] == routes[..|routes| - 1][1..];
    }
  }

  /** Any other single non-empty segment, which covers every job uuid, is
      served by `get_job` under the corrected order. */
  lemma UuidReachesGetJob(id: string)
    requires id != "" && id != "matching"
    ensures Dispatch(JobsRoutes, GET, [id]) == Some(GetJob)
  {
    assert !SegmentFits(MatchingRoute.pattern[0], [id][0]);
    assert !RouteFits(MatchingRoute, GET, [id]);
    assert RouteFits(GetRoute, GET, [id]);
    var rest := JobsRoutes[1..];
    assert rest[0] == MatchingRoute && rest[1..] == JobsRoutes[2..] && JobsRoutes[2] == GetRoute;
    assert Dispatch(JobsRoutes[2..], GET, [id]) == Some(GetJob);
  }
}
