/**
 Splitting accepted routes into data planes and uniting them per tunnel
 (internal/controller/route_partition.go, and buildTunnelGroups and groupRoutes
 in internal/controller/route_syncer.go).
 */
module RoutePartitions {
  import opened Lists
  import opened Routes
  import Strings

  datatype ResolvedConfig = ResolvedConfig(tunnelID: string, apiToken: string, accountID: string)

  datatype PerGateway = PerGateway(config: ResolvedConfig, authToken: string)

  /** Gateways that opted into a dedicated data plane: those that resolved and those that did not. */
  datatype Infra = Infra(resolved: map<string, PerGateway>, broken: set<string>)

  predicate IsBroken(infra: Option<Infra>, key: string)
  {
    infra.Some? && key in infra.value.broken
  }

  predicate IsResolved(infra: Option<Infra>, key: string)
  {
    infra.Some? && key in infra.value.resolved
  }

  function ResolvedPlanes(infra: Option<Infra>): map<string, PerGateway>
  {
    if infra.Some? then infra.value.resolved else map[]
  }

  /** Gateway keys are "namespace/name", so none of them is the shared key. */
  predicate ProperInfra(infra: Option<Infra>)
  {
    !IsResolved(infra, SHARED_KEY)
  }

  // ---------------------------------------------------------------- partition keys

  /** A Gateway served by the shared plane: it did not opt in. */
  predicate OnSharedPlane(infra: Option<Infra>, gateway: string)
  {
    !IsResolved(infra, gateway) && !IsBroken(infra, gateway)
  }

  predicate UsesSharedPlane(gateways: set<string>, infra: Option<Infra>)
  {
    exists g :: g in gateways && OnSharedPlane(infra, g)
  }

  function PartitionKeys(gateways: set<string>, infra: Option<Infra>): set<string>
  {
    (set g | g in gateways && IsResolved(infra, g)) + (if UsesSharedPlane(gateways, infra) then {SHARED_KEY} else {})
  }

  /** Sorting a listing of a set. */
  method SortKeys(keys: seq<string>, ghost elements: set<string>) returns (r: seq<string>)
    requires Listing(keys, elements)
    ensures Strings.Ascending(r) && Listing(r, elements)
  {
    Strings.SortDistinctAscends(keys);
    r := Strings.SortStrings(keys);
  }

  method PartitionKeysFor(gateways: set<string>, infra: Option<Infra>) returns (keys: seq<string>)
    requires ProperInfra(infra)
    ensures Strings.Ascending(keys) && Listing(keys, PartitionKeys(gateways, infra))
  {
    keys := [];
    var sharedSeen := false;
    var todo := gateways;
    ghost var done: set<string> := {};
    while todo != {}
      invariant done !! todo && done + todo == gateways
      invariant Listing(keys, PartitionKeys(done, infra))
      invariant sharedSeen == UsesSharedPlane(done, infra)
    {
      var gateway :| gateway in todo;
      todo := todo - {gateway};
      KeysOfOneMore(done, gateway, infra);
      done := done + {gateway};
      if IsResolved(infra, gateway) {
        keys := keys + [gateway];
        continue;
      }
      if IsBroken(infra, gateway) {
        continue;
      }
      if !sharedSeen {
        keys := keys + [SHARED_KEY];
        sharedSeen := true;
      }
    }
    assert done == gateways;
    keys := SortKeys(keys, PartitionKeys(gateways, infra));
  }

  lemma KeysOfOneMore(done: set<string>, gateway: string, infra: Option<Infra>)
    requires gateway !in done && ProperInfra(infra)
    ensures UsesSharedPlane(done + {gateway}, infra) == (UsesSharedPlane(done, infra) || OnSharedPlane(infra, gateway))
    ensures PartitionKeys(done + {gateway}, infra) == PartitionKeys(done, infra) +
            (if IsResolved(infra, gateway) then {gateway} else if IsBroken(infra, gateway) then {} else {SHARED_KEY})
    ensures IsResolved(infra, gateway) ==> gateway !in PartitionKeys(done, infra)
    ensures UsesSharedPlane(done, infra) <==> SHARED_KEY in PartitionKeys(done, infra)
  {
    var more := done + {gateway};
    if UsesSharedPlane(more, infra) {
      var g :| g in more && OnSharedPlane(infra, g);
      assert g in done || g == gateway;
    }
    if UsesSharedPlane(done, infra) {
      var g :| g in done && OnSharedPlane(infra, g);
      assert g in more;
    }
    assert gateway in more;
  }

  // ---------------------------------------------------------------- partitions

  /** `perGateway` is absent for the shared partition. */
  datatype Partition = Partition(key: string, perGateway: Option<PerGateway>, http: seq<Route>, grpc: seq<Route>)

  /** The routes that belong to one partition. */
  function InPartition(bindings: Bindings, infra: Option<Infra>, key: string): Route -> bool
  {
    (r: Route) => key in PartitionKeys(AcceptedOn(bindings, r), infra)
  }

  /** The accepted routes of one partition, in order. */
  function Members(accepted: seq<Route>, bindings: Bindings, infra: Option<Infra>, key: string): seq<Route>
  {
    Keep(accepted, InPartition(bindings, infra, key))
  }

  lemma MembersSnoc(accepted: seq<Route>, r: Route, bindings: Bindings, infra: Option<Infra>, key: string)
    ensures Members(accepted + [r], bindings, infra, key) ==
            if key in PartitionKeys(AcceptedOn(bindings, r), infra) then Members(accepted, bindings, infra, key) + [r]
            else Members(accepted, bindings, infra, key)
  {
    KeepSnoc(accepted, r, InPartition(bindings, infra, key));
  }

  /** Membership is exactly the key test, and a route listed once is in a partition at most once. */
  lemma {:induction false} MembersExact(accepted: seq<Route>, bindings: Bindings, infra: Option<Infra>, key: string)
    ensures forall r :: r in Members(accepted, bindings, infra, key) <==>
                        r in accepted && key in PartitionKeys(AcceptedOn(bindings, r), infra)
    ensures Distinct(accepted) ==> Distinct(Members(accepted, bindings, infra, key))
  {
    KeepMembers(accepted, InPartition(bindings, infra, key));
    if Distinct(accepted) {
      KeepDistinct(accepted, InPartition(bindings, infra, key));
    }
  }

  /**
   Exact and fail-closed: a route is in a dedicated partition iff accepted on that
   resolved Gateway, in the shared one iff accepted on a Gateway that did not opt
   in, and in none when every Gateway it is accepted on is broken.
   */
  lemma {:induction false} MembershipExact(accepted: seq<Route>, bindings: Bindings, resolved: map<string, PerGateway>,
                                           broken: set<string>, r: Route)
    requires SHARED_KEY !in resolved && r in accepted
    ensures forall key :: key in resolved ==>
              (r in Members(accepted, bindings, Some(Infra(resolved, broken)), key) <==> key in AcceptedOn(bindings, r))
    ensures r in Members(accepted, bindings, Some(Infra(resolved, broken)), SHARED_KEY) <==>
            exists g :: g in AcceptedOn(bindings, r) && g !in resolved && g !in broken
    ensures (forall g :: g in AcceptedOn(bindings, r) ==> g in broken && g !in resolved) ==>
              forall key :: r !in Members(accepted, bindings, Some(Infra(resolved, broken)), key)
  {
    var infra := Some(Infra(resolved, broken));
    forall key ensures r in Members(accepted, bindings, infra, key) <==> key in PartitionKeys(AcceptedOn(bindings, r), infra) {
      MembersExact(accepted, bindings, infra, key);
    }
    assert forall g :: OnSharedPlane(infra, g) <==> g !in resolved && g !in broken;
  }

  /** Without dedicated data planes, a route is in the shared partition iff it is accepted anywhere, and in no other. */
  lemma {:induction false} MembershipShared(accepted: seq<Route>, bindings: Bindings, r: Route, key: string)
    requires r in accepted
    ensures r in Members(accepted, bindings, None, key) <==> key == "shared" && AcceptedOn(bindings, r) != {}
  {
    MembersExact(accepted, bindings, None, key);
    assert forall g :: OnSharedPlane(None, g);
  }

  /** One accepted route is appended to the list of each of its partitions. */
  method AddRoute(byKey: map<string, seq<Route>>, keys: seq<string>, r: Route) returns (now: map<string, seq<Route>>)
    requires Distinct(keys) && ToSet(keys) <= byKey.Keys
    ensures now.Keys == byKey.Keys
    ensures forall k :: k in byKey ==> now[k] == if k in keys then byKey[k] + [r] else byKey[k]
  {
    now := byKey;
    for j := 0 to |keys|
      invariant now.Keys == byKey.Keys
      invariant forall k :: k in byKey ==> now[k] == if k in keys[..j] then byKey[k] + [r] else byKey[k]
    {
      assert keys[j] in keys && keys[j] in ToSet(keys);
      assert keys[j] !in keys[..j];
      now := now[keys[j] := now[keys[j]] + [r]];
      assert keys[..j + 1] == keys[..j] + [keys[j]];
    }
    assert keys[..|keys|] == keys;
  }

  /** Every key a route maps to has a partition. */
  lemma KeysHavePartitions(gateways: set<string>, infra: Option<Infra>)
    ensures PartitionKeys(gateways, infra) <= ResolvedPlanes(infra).Keys + {SHARED_KEY}
  {
  }

  method Distribute(accepted: seq<Route>, bindings: Bindings, infra: Option<Infra>) returns (byKey: map<string, seq<Route>>)
    requires ProperInfra(infra)
    ensures byKey.Keys == ResolvedPlanes(infra).Keys + {SHARED_KEY}
    ensures forall k :: k in byKey ==> byKey[k] == Members(accepted, bindings, infra, k)
  {
    byKey := map k | k in ResolvedPlanes(infra).Keys + {SHARED_KEY} :: [];
    for i := 0 to |accepted|
      invariant byKey.Keys == ResolvedPlanes(infra).Keys + {SHARED_KEY}
      invariant forall k :: k in byKey ==> byKey[k] == Members(accepted[..i], bindings, infra, k)
    {
      var r := accepted[i];
      var keys := PartitionKeysFor(AcceptedOn(bindings, r), infra);
      KeysHavePartitions(AcceptedOn(bindings, r), infra);
      byKey := AddRoute(byKey, keys, r);
      assert accepted[..i + 1] == accepted[..i] + [r];
      forall k | k in byKey ensures byKey[k] == Members(accepted[..i + 1], bindings, infra, k) {
        MembersSnoc(accepted[..i], r, bindings, infra, k);
        assert k in keys <==> k in ToSet(keys);
      }
    }
    assert accepted[..|accepted|] == accepted;
  }

  function PartitionOf(http: RouteResult, grpc: RouteResult, infra: Option<Infra>, key: string): Partition
  {
    Partition(key, if IsResolved(infra, key) then Some(infra.value.resolved[key]) else None,
              Members(http.accepted, http.bindings, infra, key), Members(grpc.accepted, grpc.bindings, infra, key))
  }

  function KeysOf(ps: seq<Partition>): (r: seq<string>)
    ensures |r| == |ps| && forall i :: 0 <= i < |ps| ==> r[i] == ps[i].key
  {
    Map(ps, (p: Partition) => p.key)
  }

  /** The shared partition first, then one per resolved Gateway in key order. */
  ghost predicate IsPartitioning(ps: seq<Partition>, http: RouteResult, grpc: RouteResult, infra: Option<Infra>)
  {
    && ps != [] && ps[0].key == SHARED_KEY
    && Strings.Ascending(KeysOf(ps)[1..]) && Listing(KeysOf(ps)[1..], ResolvedPlanes(infra).Keys)
    && (forall p :: p in ps ==> IsPartition(p, http, grpc, infra))
  }

  ghost predicate IsPartition(p: Partition, http: RouteResult, grpc: RouteResult, infra: Option<Infra>)
  {
    p == PartitionOf(http, grpc, infra, p.key)
  }

  method ListKeys(elements: set<string>) returns (r: seq<string>)
    ensures Listing(r, elements)
  {
    r := [];
    var todo := elements;
    ghost var done: set<string> := {};
    while todo != {}
      invariant done !! todo && done + todo == elements && Listing(r, done)
    {
      var k :| k in todo;
      todo := todo - {k};
      ListingSnoc(r, done, k);
      r := r + [k];
      done := done + {k};
    }
    assert done == elements;
  }

  method InfraPartitions(
      keys: seq<string>, planes: map<string, PerGateway>, httpByKey: map<string, seq<Route>>, grpcByKey: map<string, seq<Route>>)
    returns (ps: seq<Partition>)
    requires forall k :: k in keys ==> k in planes && k in httpByKey && k in grpcByKey
    ensures |ps| == |keys|
    ensures forall j :: 0 <= j < |keys| ==>
              ps[j] == Partition(keys[j], Some(planes[keys[j]]), httpByKey[keys[j]], grpcByKey[keys[j]])
  {
    ps := [];
    for i := 0 to |keys|
      invariant |ps| == i
      invariant forall j :: 0 <= j < i ==>
                  ps[j] == Partition(keys[j], Some(planes[keys[j]]), httpByKey[keys[j]], grpcByKey[keys[j]])
    {
      ps := ps + [Partition(keys[i], Some(planes[keys[i]]), httpByKey[keys[i]], grpcByKey[keys[i]])];
    }
  }

  lemma KeysOfRest(first: Partition, rest: seq<Partition>, keys: seq<string>)
    requires |rest| == |keys| && forall j :: 0 <= j < |keys| ==> rest[j].key == keys[j]
    ensures KeysOf([first] + rest)[1..] == keys
  {
  }

  method PartitionRoutes(http: RouteResult, grpc: RouteResult, infra: Option<Infra>) returns (ps: seq<Partition>)
    requires ProperInfra(infra)
    ensures IsPartitioning(ps, http, grpc, infra)
  {
    var planes := ResolvedPlanes(infra);
    var httpByKey := Distribute(http.accepted, http.bindings, infra);
    var grpcByKey := Distribute(grpc.accepted, grpc.bindings, infra);
    var keys := ListKeys(planes.Keys);
    keys := SortKeys(keys, planes.Keys);
    assert forall k :: k in keys ==> k in ToSet(keys);
    var rest := InfraPartitions(keys, planes, httpByKey, grpcByKey);
    ps := [Partition(SHARED_KEY, None, httpByKey[SHARED_KEY], grpcByKey[SHARED_KEY])] + rest;
    assert forall j :: 0 <= j < |keys| ==> keys[j] in keys && rest[j] == PartitionOf(http, grpc, infra, keys[j]);
    AssemblePartitions(rest, keys, http, grpc, infra);
  }

  lemma AssemblePartitions(rest: seq<Partition>, keys: seq<string>, http: RouteResult, grpc: RouteResult, infra: Option<Infra>)
    requires Strings.Ascending(keys) && Listing(keys, ResolvedPlanes(infra).Keys)
    requires |rest| == |keys| && forall j :: 0 <= j < |keys| ==> rest[j] == PartitionOf(http, grpc, infra, keys[j])
    ensures IsPartitioning([PartitionOf(http, grpc, infra, SHARED_KEY)] + rest, http, grpc, infra)
  {
    var shared := PartitionOf(http, grpc, infra, SHARED_KEY);
    var ps := [shared] + rest;
    KeysOfRest(shared, rest, keys);
    forall p | p in ps ensures IsPartition(p, http, grpc, infra) {
      assert p == shared || p in rest;
    }
  }

  lemma PartitionKeysDistinct(ps: seq<Partition>, http: RouteResult, grpc: RouteResult, infra: Option<Infra>)
    requires IsPartitioning(ps, http, grpc, infra) && ProperInfra(infra)
    ensures Listing(KeysOf(ps), ResolvedPlanes(infra).Keys + {SHARED_KEY})
  {
    var rest := KeysOf(ps)[1..];
    assert KeysOf(ps) == [SHARED_KEY] + rest;
    assert SHARED_KEY !in rest by { assert SHARED_KEY !in ToSet(rest); }
  }

  // ---------------------------------------------------------------- tunnel groups

  function ConfigOf(shared: ResolvedConfig, p: Partition): ResolvedConfig
  {
    if p.perGateway.Some? then p.perGateway.value.config else shared
  }

  function TunnelOf(shared: ResolvedConfig, p: Partition): string
  {
    ConfigOf(shared, p).tunnelID
  }

  function ServedBy(shared: ResolvedConfig, tunnel: string): Partition -> bool
  {
    (p: Partition) => TunnelOf(shared, p) == tunnel
  }

  /** The partitions on one tunnel, in order. */
  function OnTunnel(shared: ResolvedConfig, ps: seq<Partition>, tunnel: string): seq<Partition>
  {
    Keep(ps, ServedBy(shared, tunnel))
  }

  /** One ingress document: the tunnel's credentials and the partitions it serves. */
  datatype Group = Group(resolved: ResolvedConfig, partitions: seq<Partition>)

  function Tunnels(shared: ResolvedConfig, ps: seq<Partition>): set<string>
  {
    if ps == [] then {} else Tunnels(shared, ps[..|ps| - 1]) + {TunnelOf(shared, ps[|ps| - 1])}
  }

  lemma {:induction false} TunnelsMember(shared: ResolvedConfig, ps: seq<Partition>, p: Partition)
    requires p in ps
    ensures TunnelOf(shared, p) in Tunnels(shared, ps)
  {
    if p != ps[|ps| - 1] {
      assert ps == ps[..|ps| - 1] + [ps[|ps| - 1]];
      TunnelsMember(shared, ps[..|ps| - 1], p);
    }
  }

  function GroupTunnels(gs: seq<Group>): (r: seq<string>)
    ensures |r| == |gs| && forall i :: 0 <= i < |gs| ==> r[i] == gs[i].resolved.tunnelID
  {
    Map(gs, (g: Group) => g.resolved.tunnelID)
  }

  /** The group of one tunnel: its partitions in order, under the credentials of the first. */
  ghost predicate IsGroup(g: Group, shared: ResolvedConfig, ps: seq<Partition>, tunnel: string)
  {
    && g.partitions == OnTunnel(shared, ps, tunnel) && g.partitions != []
    && g.resolved == ConfigOf(shared, g.partitions[0]) && g.resolved.tunnelID == tunnel
  }

  /** One group per tunnel; the first partition's tunnel first, the rest ascending. */
  ghost predicate IsGrouping(gs: seq<Group>, shared: ResolvedConfig, ps: seq<Partition>)
  {
    && Listing(GroupTunnels(gs), Tunnels(shared, ps))
    && (ps != [] ==> gs != [] && gs[0].resolved.tunnelID == TunnelOf(shared, ps[0]))
    && (gs != [] ==> Strings.Ascending(GroupTunnels(gs)[1..]))
    && (forall i :: 0 <= i < |gs| ==> IsGroup(gs[i], shared, ps, gs[i].resolved.tunnelID))
  }

  lemma {:induction false} NoPartitionOnTunnel(shared: ResolvedConfig, ps: seq<Partition>, tunnel: string)
    requires tunnel !in Tunnels(shared, ps)
    ensures OnTunnel(shared, ps, tunnel) == []
  {
    if ps == [] {
    } else {
      NoPartitionOnTunnel(shared, ps[..|ps| - 1], tunnel);
    }
  }

  /** The tunnels in order of appearance. */
  function OrderOf(shared: ResolvedConfig, ps: seq<Partition>): seq<string>
  {
    if ps == [] then []
    else
      var front, t := ps[..|ps| - 1], TunnelOf(shared, ps[|ps| - 1]);
      if t in Tunnels(shared, front) then OrderOf(shared, front) else OrderOf(shared, front) + [t]
  }

  lemma {:induction false} OrderOfListing(shared: ResolvedConfig, ps: seq<Partition>)
    ensures Listing(OrderOf(shared, ps), Tunnels(shared, ps))
    ensures ps != [] ==> OrderOf(shared, ps) != [] && OrderOf(shared, ps)[0] == TunnelOf(shared, ps[0])
  {
    if ps == [] {
    } else {
      var front, t := ps[..|ps| - 1], TunnelOf(shared, ps[|ps| - 1]);
      OrderOfListing(shared, front);
      if t in Tunnels(shared, front) {
        assert Tunnels(shared, front) + {t} == Tunnels(shared, front);
      } else {
        ListingSnoc(OrderOf(shared, front), Tunnels(shared, front), t);
      }
    }
  }

  /** A partition joins the group of its tunnel; the first one brings the credentials. */
  function Join(byTunnel: map<string, Group>, shared: ResolvedConfig, p: Partition): map<string, Group>
  {
    var t := TunnelOf(shared, p);
    byTunnel[t := if t in byTunnel then byTunnel[t].(partitions := byTunnel[t].partitions + [p])
                  else Group(ConfigOf(shared, p), [p])]
  }

  function GroupsOf(shared: ResolvedConfig, ps: seq<Partition>): map<string, Group>
  {
    if ps == [] then map[] else Join(GroupsOf(shared, ps[..|ps| - 1]), shared, ps[|ps| - 1])
  }

  lemma {:induction false} GroupsOfKeys(shared: ResolvedConfig, ps: seq<Partition>)
    ensures GroupsOf(shared, ps).Keys == Tunnels(shared, ps)
  {
    if ps == [] {
    } else {
      GroupsOfKeys(shared, ps[..|ps| - 1]);
    }
  }

  lemma {:induction false} GroupsOfCorrect(shared: ResolvedConfig, ps: seq<Partition>, t: string)
    requires t in GroupsOf(shared, ps)
    ensures IsGroup(GroupsOf(shared, ps)[t], shared, ps, t)
  {
    var front, p := ps[..|ps| - 1], ps[|ps| - 1];
    if t in GroupsOf(shared, front) {
      GroupsOfCorrect(shared, front, t);
    } else {
      GroupsOfKeys(shared, front);
      NoPartitionOnTunnel(shared, front, t);
    }
  }

  /** Sorting all but the first of the tunnels in order of appearance. */
  method SortRest(order: seq<string>, ghost elements: set<string>) returns (r: seq<string>)
    requires Listing(order, elements)
    ensures Listing(r, elements)
    ensures order != [] ==> r != [] && r[0] == order[0] && Strings.Ascending(r[1..])
  {
    if |order| <= 1 {
      return order;
    }
    var first, rest := order[0], order[1..];
    assert order == [first] + rest;
    var sorted := SortKeys(rest, ToSet(rest));
    r := [first] + sorted;
    assert first !in rest;
    assert first !in sorted by { assert first !in ToSet(sorted); }
    assert ToSet(r) == {first} + ToSet(sorted);
    assert ToSet(order) == {first} + ToSet(rest);
    assert r[1..] == sorted;
  }

  method GroupByTunnel(shared: ResolvedConfig, ps: seq<Partition>) returns (byTunnel: map<string, Group>, order: seq<string>)
    ensures byTunnel == GroupsOf(shared, ps) && order == OrderOf(shared, ps)
  {
    byTunnel := map[];
    order := [];
    for i := 0 to |ps|
      invariant byTunnel == GroupsOf(shared, ps[..i]) && order == OrderOf(shared, ps[..i])
    {
      var p := ps[i];
      assert ps[..i + 1][..i] == ps[..i];
      GroupsOfKeys(shared, ps[..i]);
      var config := ConfigOf(shared, p);
      var t := config.tunnelID;
      assert [] + [p] == [p];
      if t !in byTunnel {
        byTunnel := byTunnel[t := Group(config, [])];
        order := order + [t];
      }
      byTunnel := byTunnel[t := byTunnel[t].(partitions := byTunnel[t].partitions + [p])];
    }
    assert ps[..|ps|] == ps;
  }

  method CollectGroups(byTunnel: map<string, Group>, order: seq<string>) returns (gs: seq<Group>)
    requires forall t :: t in order ==> t in byTunnel
    ensures |gs| == |order| && forall i :: 0 <= i < |order| ==> gs[i] == byTunnel[order[i]]
  {
    gs := [];
    for i := 0 to |order|
      invariant |gs| == i && forall j :: 0 <= j < i ==> gs[j] == byTunnel[order[j]]
    {
      gs := gs + [byTunnel[order[i]]];
    }
  }

  method BuildTunnelGroups(shared: ResolvedConfig, ps: seq<Partition>) returns (gs: seq<Group>)
    ensures IsGrouping(gs, shared, ps)
  {
    var byTunnel, order := GroupByTunnel(shared, ps);
    OrderOfListing(shared, ps);
    GroupsOfKeys(shared, ps);
    order := SortRest(order, Tunnels(shared, ps));
    assert forall t :: t in order ==> t in ToSet(order);
    gs := CollectGroups(byTunnel, order);
    forall i | 0 <= i < |gs| ensures gs[i].resolved.tunnelID == order[i] && IsGroup(gs[i], shared, ps, order[i]) {
      assert order[i] in order;
      GroupsOfCorrect(shared, ps, order[i]);
    }
    assert GroupTunnels(gs) == order;
  }

  /** The groups are a partition: every partition is in the group of its tunnel, and in no other. */
  lemma GroupOfPartition(gs: seq<Group>, shared: ResolvedConfig, ps: seq<Partition>, p: Partition) returns (i: nat)
    requires IsGrouping(gs, shared, ps) && p in ps
    ensures i < |gs| && p in gs[i].partitions && gs[i].resolved.tunnelID == TunnelOf(shared, p)
    ensures forall j :: 0 <= j < |gs| && p in gs[j].partitions ==> j == i
  {
    var t := TunnelOf(shared, p);
    TunnelsMember(shared, ps, p);
    assert t in ToSet(GroupTunnels(gs));
    i :| 0 <= i < |gs| && GroupTunnels(gs)[i] == t;
    assert IsGroup(gs[i], shared, ps, t);
    KeepMembers(ps, ServedBy(shared, t));
    forall j | 0 <= j < |gs| && p in gs[j].partitions ensures j == i {
      var u := gs[j].resolved.tunnelID;
      assert IsGroup(gs[j], shared, ps, u);
      KeepMembers(ps, ServedBy(shared, u));
      assert GroupTunnels(gs)[j] == GroupTunnels(gs)[i];
    }
  }

  /** The group that serves the shared partition works under the shared credentials, whoever else is on the tunnel. */
  lemma {:induction false} SharedGroupConfig(
      gs: seq<Group>, shared: ResolvedConfig, ps: seq<Partition>, http: RouteResult, grpc: RouteResult, infra: Option<Infra>)
    requires IsPartitioning(ps, http, grpc, infra) && ProperInfra(infra) && IsGrouping(gs, shared, ps)
    ensures gs != [] && gs[0].resolved == shared && ps[0] in gs[0].partitions
  {
    assert IsPartition(ps[0], http, grpc, infra);
    var t := gs[0].resolved.tunnelID;
    assert t == shared.tunnelID && IsGroup(gs[0], shared, ps, t);
    FirstOnTunnel(shared, ps, t);
  }

  lemma {:induction false} FirstOnTunnel(shared: ResolvedConfig, ps: seq<Partition>, tunnel: string)
    requires ps != [] && TunnelOf(shared, ps[0]) == tunnel
    ensures OnTunnel(shared, ps, tunnel) != [] && OnTunnel(shared, ps, tunnel)[0] == ps[0]
  {
    if |ps| == 1 {
      assert OnTunnel(shared, ps, tunnel) == OnTunnel(shared, ps[..0], tunnel) + [ps[0]] == [] + [ps[0]];
    } else {
      FirstOnTunnel(shared, ps[..|ps| - 1], tunnel);
    }
  }

  /** Every other group works under the credentials of a Gateway it serves. */
  lemma {:induction false} GroupConfig(
      gs: seq<Group>, shared: ResolvedConfig, ps: seq<Partition>, http: RouteResult, grpc: RouteResult, infra: Option<Infra>, i: nat)
    returns (gateway: string)
    requires IsPartitioning(ps, http, grpc, infra) && ProperInfra(infra) && IsGrouping(gs, shared, ps) && 0 < i < |gs|
    ensures infra.Some? && gateway in infra.value.resolved && gs[i].resolved == infra.value.resolved[gateway].config
    ensures ServesGateway(shared, infra, gs[i].resolved.tunnelID, gateway)
  {
    var t := gs[i].resolved.tunnelID;
    SharedGroupConfig(gs, shared, ps, http, grpc, infra);
    assert GroupTunnels(gs)[0] != GroupTunnels(gs)[i];
    assert IsGroup(gs[i], shared, ps, t);
    KeepMembers(ps, ServedBy(shared, t));
    var p := gs[i].partitions[0];
    assert p in gs[i].partitions && IsPartition(p, http, grpc, infra);
    gateway := p.key;
  }

  // ---------------------------------------------------------------- unions

  predicate DistinctKeys(rs: seq<Route>)
  {
    forall i, j :: 0 <= i < j < |rs| ==> RouteKey(rs[i]) != RouteKey(rs[j])
  }

  function RouteKeys(rs: seq<Route>): set<string>
  {
    set r | r in rs :: RouteKey(r)
  }

  /** `rs` appended to `acc`, keeping the first route of every namespace/name. */
  function AddNew(acc: seq<Route>, rs: seq<Route>): seq<Route>
  {
    if rs == [] then acc
    else
      var sofar, r := AddNew(acc, rs[..|rs| - 1]), rs[|rs| - 1];
      if RouteKey(r) in RouteKeys(sofar) then sofar else sofar + [r]
  }

  datatype Kind = HTTP | GRPC

  function RoutesIn(p: Partition, kind: Kind): seq<Route>
  {
    if kind == HTTP then p.http else p.grpc
  }

  /** The routes of several partitions in order, each namespace/name once. */
  function Union(ps: seq<Partition>, kind: Kind): seq<Route>
  {
    if ps == [] then [] else AddNew(Union(ps[..|ps| - 1], kind), RoutesIn(ps[|ps| - 1], kind))
  }

  lemma RouteKeysSnoc(rs: seq<Route>, r: Route)
    ensures RouteKeys(rs + [r]) == RouteKeys(rs) + {RouteKey(r)}
  {
    var more := rs + [r];
    assert r in more;
    forall k | k in RouteKeys(rs) ensures k in RouteKeys(more) {
      var q :| q in rs && RouteKey(q) == k;
      assert q in more;
    }
  }

  lemma DistinctKeysSnoc(rs: seq<Route>, r: Route)
    requires DistinctKeys(rs) && RouteKey(r) !in RouteKeys(rs)
    ensures DistinctKeys(rs + [r])
  {
    forall i | 0 <= i < |rs| ensures RouteKey(rs[i]) != RouteKey(r) {
      assert rs[i] in rs;
      assert RouteKey(rs[i]) in RouteKeys(rs);
    }
  }

  lemma {:induction false} AddNewContents(acc: seq<Route>, rs: seq<Route>)
    ensures DistinctKeys(acc) ==> DistinctKeys(AddNew(acc, rs))
    ensures RouteKeys(AddNew(acc, rs)) == RouteKeys(acc) + RouteKeys(rs)
    ensures forall r :: r in AddNew(acc, rs) ==> r in acc || r in rs
  {
    if rs == [] {
    } else {
      var front, r := rs[..|rs| - 1], rs[|rs| - 1];
      var sofar := AddNew(acc, front);
      AddNewContents(acc, front);
      assert rs == front + [r];
      RouteKeysSnoc(front, r);
      RouteKeysSnoc(sofar, r);
      if DistinctKeys(acc) && RouteKey(r) !in RouteKeys(sofar) {
        DistinctKeysSnoc(sofar, r);
      }
    }
  }

  ghost predicate InSome(ps: seq<Partition>, kind: Kind, r: Route)
  {
    exists p :: p in ps && r in RoutesIn(p, kind)
  }

  ghost predicate KeyInSome(ps: seq<Partition>, kind: Kind, key: string)
  {
    exists p :: p in ps && key in RouteKeys(RoutesIn(p, kind))
  }

  lemma {:induction false} UnionDistinct(ps: seq<Partition>, kind: Kind)
    ensures DistinctKeys(Union(ps, kind))
  {
    if ps == [] {
    } else {
      UnionDistinct(ps[..|ps| - 1], kind);
      AddNewContents(Union(ps[..|ps| - 1], kind), RoutesIn(ps[|ps| - 1], kind));
    }
  }

  lemma {:induction false} UnionKeys(ps: seq<Partition>, kind: Kind, key: string)
    ensures key in RouteKeys(Union(ps, kind)) <==> KeyInSome(ps, kind, key)
  {
    if ps == [] {
    } else {
      var front, p := ps[..|ps| - 1], ps[|ps| - 1];
      UnionKeys(front, kind, key);
      AddNewContents(Union(front, kind), RoutesIn(p, kind));
      assert forall q :: q in ps <==> q in front || q == p;
    }
  }

  lemma {:induction false} UnionFrom(ps: seq<Partition>, kind: Kind, r: Route)
    ensures r in Union(ps, kind) ==> InSome(ps, kind, r)
  {
    if ps == [] {
    } else {
      var front, p := ps[..|ps| - 1], ps[|ps| - 1];
      UnionFrom(front, kind, r);
      AddNewContents(Union(front, kind), RoutesIn(p, kind));
      assert forall q :: q in ps <==> q in front || q == p;
    }
  }

  predicate HasName(rs: seq<Route>, namespace: string, name: string)
  {
    exists r :: r in rs && r.namespace == namespace && r.name == name
  }

  ghost predicate NameInSome(ps: seq<Partition>, kind: Kind, namespace: string, name: string)
  {
    exists p :: p in ps && HasName(RoutesIn(p, kind), namespace, name)
  }

  ghost predicate PlainNamespaces(ps: seq<Partition>, kind: Kind)
  {
    forall r :: InSome(ps, kind, r) ==> PlainNamespace(r)
  }

  lemma {:induction false} UnionHasName(ps: seq<Partition>, kind: Kind, r: Route) returns (s: Route)
    requires PlainNamespaces(ps, kind) && InSome(ps, kind, r)
    ensures s in Union(ps, kind) && SameName(r, s)
  {
    var p :| p in ps && r in RoutesIn(p, kind);
    assert RouteKey(r) in RouteKeys(RoutesIn(p, kind));
    assert KeyInSome(ps, kind, RouteKey(r));
    UnionKeys(ps, kind, RouteKey(r));
    s :| s in Union(ps, kind) && RouteKey(s) == RouteKey(r);
    UnionFrom(ps, kind, s);
    RouteKeyIsName(r, s);
  }

  /** A union names no route twice, and exactly the routes that one of its partitions names. */
  lemma {:induction false} UnionContents(ps: seq<Partition>, kind: Kind)
    requires PlainNamespaces(ps, kind)
    ensures forall i, j :: 0 <= i < j < |Union(ps, kind)| ==> !SameName(Union(ps, kind)[i], Union(ps, kind)[j])
    ensures forall namespace, name :: HasName(Union(ps, kind), namespace, name) <==> NameInSome(ps, kind, namespace, name)
    ensures forall r :: r in Union(ps, kind) ==> InSome(ps, kind, r)
  {
    UnionDistinct(ps, kind);
    forall r | r in Union(ps, kind) ensures InSome(ps, kind, r) {
      UnionFrom(ps, kind, r);
    }
    forall namespace, name ensures HasName(Union(ps, kind), namespace, name) <==> NameInSome(ps, kind, namespace, name) {
      if HasName(Union(ps, kind), namespace, name) {
        var r :| r in Union(ps, kind) && r.namespace == namespace && r.name == name;
        var p :| p in ps && r in RoutesIn(p, kind);
        assert HasName(RoutesIn(p, kind), namespace, name);
      }
      if NameInSome(ps, kind, namespace, name) {
        var p :| p in ps && HasName(RoutesIn(p, kind), namespace, name);
        var r :| r in RoutesIn(p, kind) && r.namespace == namespace && r.name == name;
        assert InSome(ps, kind, r);
        var s := UnionHasName(ps, kind, r);
      }
    }
  }

  /** The partitions hold one version of every route. */
  ghost predicate OneVersion(ps: seq<Partition>, kind: Kind)
  {
    && PlainNamespaces(ps, kind)
    && forall r, s :: InSome(ps, kind, r) && InSome(ps, kind, s) && SameName(r, s) ==> r == s
  }

  /** With one version of every route, a union contains a route iff one of its partitions does. */
  lemma {:induction false} UnionExact(ps: seq<Partition>, kind: Kind, r: Route)
    requires OneVersion(ps, kind)
    ensures r in Union(ps, kind) <==> InSome(ps, kind, r)
  {
    if InSome(ps, kind, r) {
      var s := UnionHasName(ps, kind, r);
      UnionFrom(ps, kind, s);
    }
    UnionFrom(ps, kind, r);
  }

  /** More routes are only appended, so the first partition to name a route decides its version and place. */
  lemma {:induction false} UnionGrows(ps: seq<Partition>, k: nat, kind: Kind)
    requires k <= |ps|
    ensures Union(ps[..k], kind) <= Union(ps, kind)
  {
    if k == |ps| {
      assert ps[..k] == ps;
    } else {
      var front := ps[..|ps| - 1];
      UnionGrows(front, k, kind);
      assert front[..k] == ps[..k];
      AddNewGrows(Union(front, kind), RoutesIn(ps[|ps| - 1], kind));
    }
  }

  lemma {:induction false} AddNewGrows(acc: seq<Route>, rs: seq<Route>)
    ensures acc <= AddNew(acc, rs)
  {
    if rs == [] {
    } else {
      AddNewGrows(acc, rs[..|rs| - 1]);
    }
  }

  /** What a further partition adds comes in the order of its own routes. */
  lemma {:induction false} UnionAddsInOrder(ps: seq<Partition>, p: Partition, kind: Kind)
    requires DistinctKeys(RoutesIn(p, kind))
    ensures Union(ps + [p], kind) == Union(ps, kind) + Keep(RoutesIn(p, kind), NewTo(Union(ps, kind)))
  {
    UnionSnoc(ps, p, kind);
    AddNewInOrder(Union(ps, kind), RoutesIn(p, kind));
  }

  /** The routes whose key is not among those of `acc`. */
  function NewTo(acc: seq<Route>): Route -> bool
  {
    (r: Route) => RouteKey(r) !in RouteKeys(acc)
  }

  lemma {:induction false} AddNewInOrder(acc: seq<Route>, rs: seq<Route>)
    requires DistinctKeys(rs)
    ensures AddNew(acc, rs) == acc + Keep(rs, NewTo(acc))
  {
    if rs == [] {
    } else {
      var front, r := rs[..|rs| - 1], rs[|rs| - 1];
      AddNewInOrder(acc, front);
      AddNewContents(acc, front);
      assert RouteKey(r) !in RouteKeys(front);
    }
  }

  lemma {:induction false} UnionSnoc(ps: seq<Partition>, p: Partition, kind: Kind)
    ensures Union(ps + [p], kind) == AddNew(Union(ps, kind), RoutesIn(p, kind))
  {
    assert (ps + [p])[..|ps|] == ps;
  }

  /** The inner loop of both implementations: the seen set holds the keys of the routes taken. */
  method AppendUnseen(acc: seq<Route>, seen: set<string>, rs: seq<Route>) returns (now: seq<Route>, nowSeen: set<string>)
    requires seen == RouteKeys(acc)
    ensures now == AddNew(acc, rs) && nowSeen == RouteKeys(now)
  {
    now, nowSeen := acc, seen;
    for i := 0 to |rs|
      invariant now == AddNew(acc, rs[..i]) && nowSeen == RouteKeys(now)
    {
      assert rs[..i + 1][..i] == rs[..i];
      var key := RouteKey(rs[i]);
      if key in nowSeen {
        continue;
      }
      RouteKeysSnoc(now, rs[i]);
      nowSeen := nowSeen + {key};
      now := now + [rs[i]];
    }
    assert rs[..|rs|] == rs;
  }

  /** The routes of one tunnel's ingress document. */
  method GroupRoutes(group: Group) returns (http: seq<Route>, grpc: seq<Route>)
    ensures http == Union(group.partitions, HTTP) && grpc == Union(group.partitions, GRPC)
  {
    var seenHTTP: set<string>, seenGRPC: set<string> := {}, {};
    http, grpc := [], [];
    var ps := group.partitions;
    for i := 0 to |ps|
      invariant http == Union(ps[..i], HTTP) && seenHTTP == RouteKeys(http)
      invariant grpc == Union(ps[..i], GRPC) && seenGRPC == RouteKeys(grpc)
    {
      http, seenHTTP := AppendUnseen(http, seenHTTP, ps[i].http);
      grpc, seenGRPC := AppendUnseen(grpc, seenGRPC, ps[i].grpc);
      assert ps[..i + 1] == ps[..i] + [ps[i]];
      UnionSnoc(ps[..i], ps[i], HTTP);
      UnionSnoc(ps[..i], ps[i], GRPC);
    }
    assert ps[..|ps|] == ps;
  }

  /** The union of one tunnel while the partitions are walked. */
  datatype RouteUnion = RouteUnion(http: seq<Route>, grpc: seq<Route>, seenHTTP: set<string>, seenGRPC: set<string>)

  ghost predicate IsUnion(u: RouteUnion, ps: seq<Partition>)
  {
    && u.http == Union(ps, HTTP) && u.seenHTTP == RouteKeys(u.http)
    && u.grpc == Union(ps, GRPC) && u.seenGRPC == RouteKeys(u.grpc)
  }

  /** A partition's routes join the union of its tunnel. */
  function Unite(u: RouteUnion, p: Partition): RouteUnion
  {
    var http, grpc := AddNew(u.http, p.http), AddNew(u.grpc, p.grpc);
    RouteUnion(http, grpc, RouteKeys(http), RouteKeys(grpc))
  }

  function UnionsOf(shared: ResolvedConfig, ps: seq<Partition>): map<string, RouteUnion>
  {
    if ps == [] then map[]
    else
      var front, p := UnionsOf(shared, ps[..|ps| - 1]), ps[|ps| - 1];
      var t := TunnelOf(shared, p);
      front[t := Unite(if t in front then front[t] else RouteUnion([], [], {}, {}), p)]
  }

  lemma {:induction false} UnionsOfKeys(shared: ResolvedConfig, ps: seq<Partition>)
    ensures UnionsOf(shared, ps).Keys == Tunnels(shared, ps)
  {
    if ps == [] {
    } else {
      UnionsOfKeys(shared, ps[..|ps| - 1]);
    }
  }

  lemma {:induction false} UnionsOfCorrect(shared: ResolvedConfig, ps: seq<Partition>, t: string)
    requires t in UnionsOf(shared, ps)
    ensures IsUnion(UnionsOf(shared, ps)[t], OnTunnel(shared, ps, t))
  {
    var front, p := ps[..|ps| - 1], ps[|ps| - 1];
    var mates := OnTunnel(shared, front, t);
    if t in UnionsOf(shared, front) {
      UnionsOfCorrect(shared, front, t);
    } else {
      UnionsOfKeys(shared, front);
      NoPartitionOnTunnel(shared, front, t);
    }
    UnionSnoc(mates, p, HTTP);
    UnionSnoc(mates, p, GRPC);
  }

  method UniteByTunnel(ps: seq<Partition>, shared: ResolvedConfig) returns (unions: map<string, RouteUnion>)
    ensures unions == UnionsOf(shared, ps)
  {
    unions := map[];
    for i := 0 to |ps|
      invariant unions == UnionsOf(shared, ps[..i])
      invariant forall t :: t in unions ==> Tracked(unions[t])
    {
      var p := ps[i];
      assert ps[..i + 1][..i] == ps[..i];
      var t := TunnelOf(shared, p);
      if t !in unions {
        unions := unions[t := RouteUnion([], [], {}, {})];
      }
      var u := unions[t];
      var http, seenHTTP := AppendUnseen(u.http, u.seenHTTP, p.http);
      var grpc, seenGRPC := AppendUnseen(u.grpc, u.seenGRPC, p.grpc);
      unions := unions[t := RouteUnion(http, grpc, seenHTTP, seenGRPC)];
    }
    assert ps[..|ps|] == ps;
  }

  predicate Tracked(u: RouteUnion)
  {
    u.seenHTTP == RouteKeys(u.http) && u.seenGRPC == RouteKeys(u.grpc)
  }

  function United(shared: ResolvedConfig, ps: seq<Partition>, p: Partition): Partition
  {
    var mates := OnTunnel(shared, ps, TunnelOf(shared, p));
    p.(http := Union(mates, HTTP), grpc := Union(mates, GRPC))
  }

  /** Every partition gets the united routes of all partitions on its tunnel. */
  method UnionPartitionRoutes(ps: seq<Partition>, shared: ResolvedConfig) returns (out: seq<Partition>)
    ensures |out| == |ps| && forall i :: 0 <= i < |ps| ==> out[i] == United(shared, ps, ps[i])
  {
    var unions := UniteByTunnel(ps, shared);
    UnionsOfKeys(shared, ps);
    out := [];
    for i := 0 to |ps|
      invariant |out| == i && forall j :: 0 <= j < i ==> out[j] == United(shared, ps, ps[j])
    {
      var t := TunnelOf(shared, ps[i]);
      TunnelsMember(shared, ps, ps[i]);
      UnionsOfCorrect(shared, ps, t);
      out := out + [ps[i].(http := unions[t].http, grpc := unions[t].grpc)];
    }
  }

  /** What the proxy of a partition is pushed is what its tunnel's ingress document is built from. */
  lemma {:induction false} UnionsAgree(gs: seq<Group>, shared: ResolvedConfig, ps: seq<Partition>, i: nat, g: nat, kind: Kind)
    requires IsGrouping(gs, shared, ps) && i < |ps| && g < |gs| && ps[i] in gs[g].partitions
    ensures RoutesIn(United(shared, ps, ps[i]), kind) == Union(gs[g].partitions, kind)
  {
    var t := gs[g].resolved.tunnelID;
    assert IsGroup(gs[g], shared, ps, t);
    KeepMembers(ps, ServedBy(shared, t));
  }

  // ---------------------------------------------------------------- isolation

  /** A tunnel serves a Gateway: by the Gateway's own plane, or by the shared one if it did not opt in. */
  predicate ServesGateway(shared: ResolvedConfig, infra: Option<Infra>, tunnel: string, gateway: string)
  {
    match infra
    case None => shared.tunnelID == tunnel
    case Some(Infra(resolved, broken)) =>
      if gateway in resolved then resolved[gateway].config.tunnelID == tunnel
      else gateway !in broken && shared.tunnelID == tunnel
  }

  function ResultOf(http: RouteResult, grpc: RouteResult, kind: Kind): RouteResult
  {
    if kind == HTTP then http else grpc
  }

  lemma PartitionWithKey(ps: seq<Partition>, http: RouteResult, grpc: RouteResult, infra: Option<Infra>, key: string)
    requires IsPartitioning(ps, http, grpc, infra) && ProperInfra(infra)
    requires key == SHARED_KEY || IsResolved(infra, key)
    ensures PartitionOf(http, grpc, infra, key) in ps
  {
    PartitionKeysDistinct(ps, http, grpc, infra);
    assert key in ToSet(KeysOf(ps));
    var i :| 0 <= i < |ps| && KeysOf(ps)[i] == key;
    assert ps[i] in ps && IsPartition(ps[i], http, grpc, infra);
  }

  lemma {:induction false} PartitionRoutesIn(http: RouteResult, grpc: RouteResult, infra: Option<Infra>, key: string, kind: Kind)
    ensures var result := ResultOf(http, grpc, kind);
            RoutesIn(PartitionOf(http, grpc, infra, key), kind) == Members(result.accepted, result.bindings, infra, key)
  {
  }

  lemma {:induction false} OneVersionOnTunnel(
      ps: seq<Partition>, http: RouteResult, grpc: RouteResult, infra: Option<Infra>, shared: ResolvedConfig,
      tunnel: string, kind: Kind)
    requires IsPartitioning(ps, http, grpc, infra) && ProperRoutes(ResultOf(http, grpc, kind).accepted)
    ensures OneVersion(OnTunnel(shared, ps, tunnel), kind)
    ensures forall r :: InSome(OnTunnel(shared, ps, tunnel), kind, r) ==> r in ResultOf(http, grpc, kind).accepted
  {
    var mates, result := OnTunnel(shared, ps, tunnel), ResultOf(http, grpc, kind);
    forall r | InSome(mates, kind, r) ensures r in result.accepted {
      var p :| p in mates && r in RoutesIn(p, kind);
      KeepMembers(ps, ServedBy(shared, tunnel));
      var i :| 0 <= i < |ps| && ps[i] == p;
      assert ps[i] in ps && IsPartition(ps[i], http, grpc, infra);
      MembersExact(result.accepted, result.bindings, infra, p.key);
    }
  }

  /**
   Isolation: an accepted route is in a tunnel's documents and pushes exactly when
   it is accepted on a Gateway that tunnel serves.
   */
  lemma {:induction false} RouteReachesTunnelIff(
      ps: seq<Partition>, http: RouteResult, grpc: RouteResult, infra: Option<Infra>, shared: ResolvedConfig,
      tunnel: string, kind: Kind, r: Route)
    requires IsPartitioning(ps, http, grpc, infra) && ProperInfra(infra)
    requires ProperRoutes(ResultOf(http, grpc, kind).accepted) && r in ResultOf(http, grpc, kind).accepted
    ensures r in Union(OnTunnel(shared, ps, tunnel), kind) <==>
            exists g :: g in AcceptedOn(ResultOf(http, grpc, kind).bindings, r) && ServesGateway(shared, infra, tunnel, g)
  {
    OneVersionOnTunnel(ps, http, grpc, infra, shared, tunnel, kind);
    UnionExact(OnTunnel(shared, ps, tunnel), kind, r);
    if InSome(OnTunnel(shared, ps, tunnel), kind, r) {
      var g := ReachedThrough(ps, http, grpc, infra, shared, tunnel, kind, r);
    }
    var gateways := AcceptedOn(ResultOf(http, grpc, kind).bindings, r);
    if exists g :: g in gateways && ServesGateway(shared, infra, tunnel, g) {
      var g :| g in gateways && ServesGateway(shared, infra, tunnel, g);
      Reaches(ps, http, grpc, infra, shared, tunnel, kind, r, g);
    }
  }

  /** A Gateway that brings a route into a partition. */
  lemma {:induction false} GatewayOfMember(result: RouteResult, infra: Option<Infra>, key: string, r: Route) returns (g: string)
    requires ProperInfra(infra) && r in Members(result.accepted, result.bindings, infra, key)
    ensures g in AcceptedOn(result.bindings, r)
    ensures if IsResolved(infra, key) then g == key else key == SHARED_KEY && OnSharedPlane(infra, g)
  {
    MembersExact(result.accepted, result.bindings, infra, key);
    var gateways := AcceptedOn(result.bindings, r);
    assert key in PartitionKeys(gateways, infra);
    if key in gateways && IsResolved(infra, key) {
      g := key;
    } else {
      assert UsesSharedPlane(gateways, infra);
      g :| g in gateways && OnSharedPlane(infra, g);
    }
  }

  lemma {:induction false} ReachedThrough(
      ps: seq<Partition>, http: RouteResult, grpc: RouteResult, infra: Option<Infra>, shared: ResolvedConfig,
      tunnel: string, kind: Kind, r: Route) returns (g: string)
    requires IsPartitioning(ps, http, grpc, infra) && ProperInfra(infra) && InSome(OnTunnel(shared, ps, tunnel), kind, r)
    ensures g in AcceptedOn(ResultOf(http, grpc, kind).bindings, r) && ServesGateway(shared, infra, tunnel, g)
  {
    var p :| p in OnTunnel(shared, ps, tunnel) && r in RoutesIn(p, kind);
    KeepMembers(ps, ServedBy(shared, tunnel));
    assert IsPartition(p, http, grpc, infra);
    PartitionRoutesIn(http, grpc, infra, p.key, kind);
    g := GatewayOfMember(ResultOf(http, grpc, kind), infra, p.key, r);
  }

  lemma {:induction false} Reaches(
      ps: seq<Partition>, http: RouteResult, grpc: RouteResult, infra: Option<Infra>, shared: ResolvedConfig,
      tunnel: string, kind: Kind, r: Route, g: string)
    requires IsPartitioning(ps, http, grpc, infra) && ProperInfra(infra) && r in ResultOf(http, grpc, kind).accepted
    requires g in AcceptedOn(ResultOf(http, grpc, kind).bindings, r) && ServesGateway(shared, infra, tunnel, g)
    ensures InSome(OnTunnel(shared, ps, tunnel), kind, r)
  {
    var result := ResultOf(http, grpc, kind);
    var key := if IsResolved(infra, g) then g else SHARED_KEY;
    var p := PartitionOf(http, grpc, infra, key);
    PartitionWithKey(ps, http, grpc, infra, key);
    assert OnSharedPlane(infra, g) ==> UsesSharedPlane(AcceptedOn(result.bindings, r), infra);
    MembersExact(result.accepted, result.bindings, infra, key);
    PartitionRoutesIn(http, grpc, infra, key, kind);
    KeepMembers(ps, ServedBy(shared, tunnel));
    assert p in OnTunnel(shared, ps, tunnel);
  }
}
