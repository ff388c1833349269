/**
 What the conflict rule between HTTPRoutes and GRPCRoutes means for the tunnels that
 serve them: conflicts are resolved Gateway by Gateway, routes are united tunnel by
 tunnel (the order of steps in internal/controller/route_syncer.go).
 */
module TunnelConflicts {
  import opened Lists
  import opened Routes
  import CrossType
  import Hostnames
  import RoutePartitions

  /** Both kinds after the conflicts between them are resolved, as they are then split into partitions. */
  ghost function Resolved(http: RouteResult, grpc: RouteResult): (r: (RouteResult, RouteResult))
  {
    var httpLosers, grpcLosers := CrossType.HttpLosers(http, grpc), CrossType.GrpcLosers(http, grpc);
    (RouteResult(CrossType.Survivors(http.accepted, httpLosers),
                 CrossType.BindingsAfter(http.bindings, http.accepted, httpLosers)),
     RouteResult(CrossType.Survivors(grpc.accepted, grpcLosers),
                 CrossType.BindingsAfter(grpc.bindings, grpc.accepted, grpcLosers)))
  }

  /** A rejection changes verdicts, not the Gateways a route was accepted on. */
  lemma SameGateways(bindings: Bindings, accepted: seq<Route>, losers: set<string>, r: Route)
    ensures AcceptedOn(CrossType.BindingsAfter(bindings, accepted, losers), r) == AcceptedOn(bindings, r)
  {
  }

  /** The route is among those the tunnel's ingress document and proxies are given. */
  ghost predicate OnTunnel(
      shared: RoutePartitions.ResolvedConfig, ps: seq<RoutePartitions.Partition>, tunnel: string,
      kind: RoutePartitions.Kind, r: Route)
  {
    r in RoutePartitions.Union(RoutePartitions.OnTunnel(shared, ps, tunnel), kind)
  }

  /** A surviving route is on a tunnel iff it was accepted on a Gateway the tunnel serves. */
  lemma SurvivorReachesIff(
      http: RouteResult, grpc: RouteResult, infra: Option<RoutePartitions.Infra>, shared: RoutePartitions.ResolvedConfig,
      ps: seq<RoutePartitions.Partition>, tunnel: string, kind: RoutePartitions.Kind, r: Route)
    requires RoutePartitions.ProperInfra(infra) && ProperRoutes(http.accepted) && ProperRoutes(grpc.accepted)
    requires RoutePartitions.IsPartitioning(ps, Resolved(http, grpc).0, Resolved(http, grpc).1, infra)
    requires r in RoutePartitions.ResultOf(Resolved(http, grpc).0, Resolved(http, grpc).1, kind).accepted
    ensures OnTunnel(shared, ps, tunnel, kind, r) <==>
            exists g :: g in AcceptedOn(RoutePartitions.ResultOf(http, grpc, kind).bindings, r)
                        && RoutePartitions.ServesGateway(shared, infra, tunnel, g)
  {
    var httpLosers, grpcLosers := CrossType.HttpLosers(http, grpc), CrossType.GrpcLosers(http, grpc);
    KeepProper(http.accepted, x => RouteKey(x) !in httpLosers);
    KeepProper(grpc.accepted, x => RouteKey(x) !in grpcLosers);
    SameGateways(http.bindings, http.accepted, httpLosers, r);
    SameGateways(grpc.bindings, grpc.accepted, grpcLosers, r);
    RoutePartitions.RouteReachesTunnelIff(
      ps, Resolved(http, grpc).0, Resolved(http, grpc).1, infra, shared, tunnel, kind, r);
  }

  /**
   Two surviving routes of different kind with a host in common end up on one tunnel
   exactly when they are accepted on two different Gateways that the tunnel serves.
   */
  lemma SharedTunnelClashIff(
      http: RouteResult, grpc: RouteResult, infra: Option<RoutePartitions.Infra>, shared: RoutePartitions.ResolvedConfig,
      ps: seq<RoutePartitions.Partition>, tunnel: string, h: Route, g: Route)
    requires RoutePartitions.ProperInfra(infra) && ProperRoutes(http.accepted) && ProperRoutes(grpc.accepted)
    requires RoutePartitions.IsPartitioning(ps, Resolved(http, grpc).0, Resolved(http, grpc).1, infra)
    requires CrossType.HttpSurvives(http, grpc, h) && CrossType.GrpcSurvives(http, grpc, g)
    requires forall x :: x in h.hostnames + g.hostnames ==> Hostnames.WellFormed(x)
    requires Hostnames.ShareHost(h.hostnames, g.hostnames)
    ensures OnTunnel(shared, ps, tunnel, RoutePartitions.HTTP, h) && OnTunnel(shared, ps, tunnel, RoutePartitions.GRPC, g) <==>
            exists a, b :: a in AcceptedOn(http.bindings, h) && b in AcceptedOn(grpc.bindings, g) && a != b
                           && RoutePartitions.ServesGateway(shared, infra, tunnel, a)
                           && RoutePartitions.ServesGateway(shared, infra, tunnel, b)
  {
    SurvivorReachesIff(http, grpc, infra, shared, ps, tunnel, RoutePartitions.HTTP, h);
    SurvivorReachesIff(http, grpc, infra, shared, ps, tunnel, RoutePartitions.GRPC, g);
    CrossType.SurvivorsNeverClash(http, grpc, h, g);
    assert forall a :: a in AcceptedOn(http.bindings, h) && a in AcceptedOn(grpc.bindings, g) ==>
                         a in AcceptedOn(http.bindings, h) * AcceptedOn(grpc.bindings, g);
  }

  // ---------------------------------------------------------------- such a pair

  function OneRoute(name: string, gateway: string): RouteResult
  {
    var r := Route("n", name, 1, ["x"], "");
    RouteResult([r], map[RouteKey(r) := RouteBinding(map[], {gateway}, map[], map[])])
  }

  lemma PlainHostname()
    ensures Hostnames.WellFormed("x") && Hostnames.HostnamesIntersect(["x"], ["x"])
  {
    assert Hostnames.LabelsOf("x") == ["x"];
    assert "x" in ["x"] && Hostnames.HostnameMatches("x", "x");
  }

  /** One route of each kind on Gateways of their own: neither conflicts with the other. */
  lemma ApartSurvive(http: RouteResult, grpc: RouteResult)
    requires http == OneRoute("h", "a") && grpc == OneRoute("g", "b")
    ensures CrossType.HttpSurvives(http, grpc, http.accepted[0]) && CrossType.GrpcSurvives(http, grpc, grpc.accepted[0])
  {
    var h, g := http.accepted[0], grpc.accepted[0];
    assert {"a"} * {"b"} == {};
    assert !CrossType.Conflict(http, h, grpc, g);
    CrossType.SurvivesIff(http, grpc);
  }

  /** An HTTPRoute and a GRPCRoute for one host, on two Gateways of the shared plane, are both given to its tunnel. */
  lemma TwoGatewaysOneTunnel(
      http: RouteResult, grpc: RouteResult, shared: RoutePartitions.ResolvedConfig, ps: seq<RoutePartitions.Partition>)
    requires http == OneRoute("h", "a") && grpc == OneRoute("g", "b")
    requires RoutePartitions.IsPartitioning(ps, Resolved(http, grpc).0, Resolved(http, grpc).1, None)
    ensures var h, g := http.accepted[0], grpc.accepted[0];
            && Hostnames.ShareHost(h.hostnames, g.hostnames)
            && OnTunnel(shared, ps, shared.tunnelID, RoutePartitions.HTTP, h)
            && OnTunnel(shared, ps, shared.tunnelID, RoutePartitions.GRPC, g)
  {
    var h, g := http.accepted[0], grpc.accepted[0];
    PlainHostname();
    Hostnames.IntersectIffShareHost(["x"], ["x"]);
    ApartSurvive(http, grpc);
    assert "a" in AcceptedOn(http.bindings, h) && "b" in AcceptedOn(grpc.bindings, g) && "a"[0] != "b"[0];
    SharedTunnelClashIff(http, grpc, None, shared, ps, shared.tunnelID, h, g);
  }
}
