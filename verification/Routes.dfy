/**
 Routes of either kind and what is known about their parents
 (internal/controller/route_syncer.go, internal/controller/route_partition.go).
 */
module Routes {
  import opened Lists
  import Strings

  /** The partition of the data plane shared by all Gateways without one of their own. */
  const SHARED_KEY := "shared"

  /** `rules` stands for the part of the spec that no decision here looks into. */
  datatype Route = Route(namespace: string, name: string, created: int, hostnames: seq<string>, rules: string)

  function RouteKey(r: Route): string
  {
    r.namespace + "/" + r.name
  }

  datatype BindingResult = BindingResult(accepted: bool, reason: string, message: string)

  /** Per parentRef index: the binding verdict and the Gateway; the Gateways accepted on; per Gateway: the sync error. */
  datatype RouteBinding = RouteBinding(
    results: map<nat, BindingResult>, accepted: set<string>, parents: map<nat, string>, syncErrs: map<string, string>)

  type Bindings = map<string, RouteBinding>

  /** A route without a binding is accepted nowhere. */
  function AcceptedOn(bindings: Bindings, r: Route): set<string>
  {
    if RouteKey(r) in bindings then bindings[RouteKey(r)].accepted else {}
  }

  /** The accepted routes of one kind with their bindings. */
  datatype RouteResult = RouteResult(accepted: seq<Route>, bindings: Bindings)

  predicate SameName(r: Route, s: Route)
  {
    r.namespace == s.namespace && r.name == s.name
  }

  /** A Kubernetes namespace has no slash, so the key can be read in one way only. */
  predicate PlainNamespace(r: Route)
  {
    '/' !in r.namespace
  }

  lemma RouteKeyIsName(r: Route, s: Route)
    requires PlainNamespace(r) && PlainNamespace(s)
    ensures RouteKey(r) == RouteKey(s) <==> SameName(r, s)
  {
    if RouteKey(r) == RouteKey(s) {
      Strings.CutUnique(r.namespace, s.namespace, '/', r.name, s.name);
    }
  }

  /** One object for every namespace and name, as the API server keeps them. */
  predicate ProperRoutes(rs: seq<Route>)
  {
    && (forall r :: r in rs ==> PlainNamespace(r))
    && (forall r, s :: r in rs && s in rs && SameName(r, s) ==> r == s)
  }

  lemma ProperKeys(rs: seq<Route>)
    requires ProperRoutes(rs)
    ensures forall r, s :: r in rs && s in rs && RouteKey(r) == RouteKey(s) ==> r == s
  {
    forall r, s | r in rs && s in rs && RouteKey(r) == RouteKey(s) ensures r == s {
      RouteKeyIsName(r, s);
    }
  }

  lemma {:induction false} KeepProper(rs: seq<Route>, p: Route -> bool)
    requires ProperRoutes(rs)
    ensures ProperRoutes(Keep(rs, p))
  {
    KeepMembers(rs, p);
  }
}
