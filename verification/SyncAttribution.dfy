/**
 Mapping failed tunnel syncs back to the route parents they affect
 (injectPartitionSyncErrors and gatewaySyncError in
 internal/controller/route_syncer.go; perParentSyncErr and
 buildAcceptedCondition in internal/controller/route_status.go).
 */
module SyncAttribution {
  import opened Lists
  import opened RoutePartitions
  import opened Routes
  import opened TunnelSync

  const BROKEN_DATA_PLANE: Error := "broken data plane"

  // ---------------------------------------------------------------- bindings

  /** The partition that serves a Gateway which is not broken. */
  function ServingKey(infra: Option<Infra>, gateway: string): string
  {
    if IsResolved(infra, gateway) then gateway else SHARED_KEY
  }

  function GatewaySyncError(gateway: string, failed: Failures, infra: Option<Infra>): Option<Error>
  {
    if IsBroken(infra, gateway) then Some(BROKEN_DATA_PLANE)
    else if ServingKey(infra, gateway) in failed then Some(failed[ServingKey(infra, gateway)])
    else None
  }

  function ErrorsOf(gateways: set<string>, failed: Failures, infra: Option<Infra>): map<string, Error>
  {
    map g | g in gateways && GatewaySyncError(g, failed, infra).Some? :: GatewaySyncError(g, failed, infra).value
  }

  function Injected(b: RouteBinding, failed: Failures, infra: Option<Infra>): RouteBinding
  {
    var errs := ErrorsOf(b.accepted, failed, infra);
    if errs == map[] then b else b.(syncErrs := errs)
  }

  method CollectErrors(gateways: set<string>, failed: Failures, infra: Option<Infra>) returns (errs: map<string, Error>)
    ensures errs == ErrorsOf(gateways, failed, infra)
  {
    errs := map[];
    var todo := gateways;
    while todo != {}
      invariant todo <= gateways
      invariant errs == ErrorsOf(gateways - todo, failed, infra)
    {
      var g :| g in todo;
      var err := GatewaySyncError(g, failed, infra);
      if err.Some? {
        errs := errs[g := err.value];
      }
      assert gateways - (todo - {g}) == gateways - todo + {g};
      todo := todo - {g};
    }
    assert gateways - todo == gateways;
  }

  method InjectPartitionSyncErrors(bindings: map<string, RouteBinding>, failed: Failures, infra: Option<Infra>)
    returns (now: map<string, RouteBinding>)
    ensures now.Keys == bindings.Keys && forall k :: k in bindings ==> now[k] == Injected(bindings[k], failed, infra)
  {
    now := bindings;
    var todo := bindings.Keys;
    while todo != {}
      invariant todo <= bindings.Keys && now.Keys == bindings.Keys
      invariant forall k :: k in bindings ==> now[k] == if k in todo then bindings[k] else Injected(bindings[k], failed, infra)
    {
      var key :| key in todo;
      todo := todo - {key};
      var errs := CollectErrors(now[key].accepted, failed, infra);
      if errs != map[] {
        now := now[key := now[key].(syncErrs := errs)];
      }
    }
  }

  // ---------------------------------------------------------------- conditions

  /** The text of a condition: the standard one, one given elsewhere, or that of an error, cut to the limit. */
  datatype Message = Standard | Given(text: string) | ErrorText(err: Error)

  datatype Condition = Condition(status: bool, reason: string, message: Message, observedGeneration: int)

  datatype Override = Override(reason: string, message: string)

  function PerParentSyncErr(b: RouteBinding, ref: nat, globalErr: Option<Error>): Option<Error>
  {
    if ref !in b.parents then globalErr
    else if b.parents[ref] in b.syncErrs then Some(b.syncErrs[b.parents[ref]])
    else globalErr
  }

  function AcceptedCondition(
      generation: int, b: RouteBinding, ref: nat, syncErr: Option<Error>, override: Option<Override>): Condition
  {
    var err := PerParentSyncErr(b, ref, syncErr);
    if ref in b.results && !b.results[ref].accepted then
      Condition(false, b.results[ref].reason, Given(b.results[ref].message), generation)
    else if err.Some? then Condition(false, "Pending", ErrorText(err.value), generation)
    else if override.Some? then Condition(false, override.value.reason, Given(override.value.message), generation)
    else Condition(true, "Accepted", Standard, generation)
  }

  /** The error a Gateway's parents report, given what became of the group serving it. */
  function ServingError(s: Sync, gateway: string, i: nat): Option<Error>
    requires i < |s.errs|
  {
    if IsBroken(s.infra, gateway) then Some(BROKEN_DATA_PLANE) else s.errs[i]
  }

  // ---------------------------------------------------------------- end to end

  /** One sync: the routes split into partitions, the partitions into groups, and what became of each group. */
  datatype Sync = Sync(
    http: RouteResult, grpc: RouteResult, infra: Option<Infra>, shared: ResolvedConfig,
    partitions: seq<Partition>, groups: seq<Group>, errs: seq<Option<Error>>)

  ghost predicate ValidSync(s: Sync)
  {
    && ProperInfra(s.infra)
    && IsPartitioning(s.partitions, s.http, s.grpc, s.infra)
    && IsGrouping(s.groups, s.shared, s.partitions)
    && |s.errs| == |s.groups|
  }

  /** A group of the sync serves the Gateway: it holds the Gateway's own partition, or the shared one. */
  predicate Serves(s: Sync, i: nat, gateway: string)
  {
    i < |s.groups| && HoldsKey(s.groups[i], ServingKey(s.infra, gateway))
  }

  /** Exactly one group holds the partition that a Gateway is served from. */
  lemma ServingGroup(s: Sync, gateway: string) returns (i: nat)
    requires ValidSync(s)
    ensures Serves(s, i, gateway) && forall j: nat :: Serves(s, j, gateway) ==> j == i
  {
    var key := ServingKey(s.infra, gateway);
    var p := PartitionOf(s.http, s.grpc, s.infra, key);
    PartitionWithKey(s.partitions, s.http, s.grpc, s.infra, key);
    i := GroupOfPartition(s.groups, s.shared, s.partitions, p);
    forall j: nat | Serves(s, j, gateway) ensures j == i {
      var q :| q in s.groups[j].partitions && q.key == key;
      assert IsGroup(s.groups[j], s.shared, s.partitions, s.groups[j].resolved.tunnelID);
      KeepMembers(s.partitions, ServedBy(s.shared, s.groups[j].resolved.tunnelID));
      assert IsPartition(q, s.http, s.grpc, s.infra);
    }
  }

  /** The group that serves a Gateway which is not broken is the one whose tunnel does. */
  lemma {:induction false} ServesByTunnel(s: Sync, i: nat, gateway: string)
    requires ValidSync(s) && !IsBroken(s.infra, gateway) && i < |s.groups|
    ensures Serves(s, i, gateway) <==> ServesGateway(s.shared, s.infra, s.groups[i].resolved.tunnelID, gateway)
  {
    var key := ServingKey(s.infra, gateway);
    var p := PartitionOf(s.http, s.grpc, s.infra, key);
    var t := s.groups[i].resolved.tunnelID;
    PartitionWithKey(s.partitions, s.http, s.grpc, s.infra, key);
    assert IsGroup(s.groups[i], s.shared, s.partitions, t);
    KeepMembers(s.partitions, ServedBy(s.shared, t));
    assert TunnelOf(s.shared, p) == t <==> p in s.groups[i].partitions;
    if Serves(s, i, gateway) {
      var q :| q in s.groups[i].partitions && q.key == key;
      assert IsPartition(q, s.http, s.grpc, s.infra);
    }
  }

  /** A Gateway's sync error is that of a broken data plane, or else that of the one group serving it. */
  lemma SyncErrorIs(s: Sync, gateway: string, i: nat)
    requires ValidSync(s) && Serves(s, i, gateway)
    ensures GatewaySyncError(gateway, FailedPartitions(s.groups, s.errs), s.infra) == ServingError(s, gateway, i)
  {
    var only := ServingGroup(s, gateway);
    var key := ServingKey(s.infra, gateway);
    forall j | 0 <= j < |s.groups| && HoldsKey(s.groups[j], key) ensures j == i {
      assert Serves(s, j, gateway);
    }
    FailedIffGroupFailed(s.groups, s.errs, key, i);
  }

  /** A parent that was bound and accepted in this sync, before any error was recorded. */
  predicate AcceptedParent(b: RouteBinding, ref: nat, gateway: string)
  {
    && ref in b.results && b.results[ref].accepted
    && ref in b.parents && b.parents[ref] == gateway && gateway in b.accepted
    && b.syncErrs == map[]
  }

  /**
   What a parent accepted on a Gateway reports, in terms of the one group serving the
   Gateway: its own error outranks a global one, and that outranks an override.
   */
  lemma {:induction false} ReportIs(
      s: Sync, b: RouteBinding, ref: nat, gateway: string, i: nat, generation: int, globalErr: Option<Error>,
      override: Option<Override>)
    requires ValidSync(s) && AcceptedParent(b, ref, gateway) && Serves(s, i, gateway)
    ensures var err := ServingError(s, gateway, i);
            AcceptedCondition(generation, Injected(b, FailedPartitions(s.groups, s.errs), s.infra), ref, globalErr, override) ==
            if err.Some? then Condition(false, "Pending", ErrorText(err.value), generation)
            else if globalErr.Some? then Condition(false, "Pending", ErrorText(globalErr.value), generation)
            else if override.Some? then Condition(false, override.value.reason, Given(override.value.message), generation)
            else Condition(true, "Accepted", Standard, generation)
  {
    var failed := FailedPartitions(s.groups, s.errs);
    SyncErrorIs(s, gateway, i);
    assert gateway in ErrorsOf(b.accepted, failed, s.infra) <==> GatewaySyncError(gateway, failed, s.infra).Some?;
  }

  /** A parent that was not bound to a Gateway has only the global error to report. */
  lemma UnboundReport(b: RouteBinding, ref: nat, failed: Failures, infra: Option<Infra>, generation: int, globalErr: Option<Error>)
    requires ref !in b.parents && (ref in b.results ==> b.results[ref].accepted)
    ensures AcceptedCondition(generation, Injected(b, failed, infra), ref, globalErr, None) ==
            if globalErr.Some? then Condition(false, "Pending", ErrorText(globalErr.value), generation)
            else Condition(true, "Accepted", Standard, generation)
  {
  }

  /**
   Failure attribution: a parent accepted on a Gateway reports Accepted=False with
   reason Pending exactly when the Gateway's data plane is broken or the one group
   serving the Gateway failed, and it reports that very error.
   */
  lemma PendingIff(s: Sync, b: RouteBinding, ref: nat, gateway: string, i: nat, generation: int)
    requires ValidSync(s) && AcceptedParent(b, ref, gateway) && Serves(s, i, gateway)
    ensures AcceptedCondition(generation, Injected(b, FailedPartitions(s.groups, s.errs), s.infra), ref, None, None) ==
            if IsBroken(s.infra, gateway) then Condition(false, "Pending", ErrorText(BROKEN_DATA_PLANE), generation)
            else if s.errs[i].Some? then Condition(false, "Pending", ErrorText(s.errs[i].value), generation)
            else Condition(true, "Accepted", Standard, generation)
  {
    ReportIs(s, b, ref, gateway, i, generation, None, None);
  }

  /**
   The same in terms of tunnels: with `broken` the Gateways whose data plane did not
   resolve, and group `i` the one whose tunnel serves the Gateway.
   */
  lemma {:induction false} PendingByTunnel(s: Sync, b: RouteBinding, ref: nat, gateway: string, i: nat, generation: int)
    requires ValidSync(s) && AcceptedParent(b, ref, gateway) && i < |s.groups|
    ensures var c := AcceptedCondition(generation, Injected(b, FailedPartitions(s.groups, s.errs), s.infra), ref, None, None);
            && (s.infra.Some? && gateway in s.infra.value.broken ==>
                  c == Condition(false, "Pending", ErrorText(BROKEN_DATA_PLANE), generation))
            && (!(s.infra.Some? && gateway in s.infra.value.broken)
                && ServesGateway(s.shared, s.infra, s.groups[i].resolved.tunnelID, gateway) ==>
                  c == if s.errs[i].Some? then Condition(false, "Pending", ErrorText(s.errs[i].value), generation)
                       else Condition(true, "Accepted", Standard, generation))
  {
    var j := ServingGroup(s, gateway);
    PendingIff(s, b, ref, gateway, j, generation);
    if !IsBroken(s.infra, gateway) && ServesGateway(s.shared, s.infra, s.groups[i].resolved.tunnelID, gateway) {
      ServesByTunnel(s, i, gateway);
    }
  }

  /** Two syncs that differ only in what became of groups not serving the Gateway report the same on its parents. */
  lemma {:induction false} OtherTunnelsDoNotMatter(
      s: Sync, errs: seq<Option<Error>>, b: RouteBinding, ref: nat, gateway: string, i: nat, generation: int,
      globalErr: Option<Error>, override: Option<Override>)
    requires ValidSync(s) && AcceptedParent(b, ref, gateway) && Serves(s, i, gateway) && |errs| == |s.errs|
    ensures var before := AcceptedCondition(generation, Injected(b, FailedPartitions(s.groups, s.errs), s.infra), ref, globalErr, override);
            var after := AcceptedCondition(generation, Injected(b, FailedPartitions(s.groups, errs), s.infra), ref, globalErr, override);
            && (errs[i] == s.errs[i] ==> after == before)
            && (errs[i].Some? == s.errs[i].Some? ==> after.status == before.status && after.reason == before.reason)
  {
    ReportIs(s, b, ref, gateway, i, generation, globalErr, override);
    var t := s.(errs := errs);
    assert ValidSync(t) && Serves(t, i, gateway);
    ReportIs(t, b, ref, gateway, i, generation, globalErr, override);
  }

  /** A binding rejection keeps its own reason whatever failed. */
  lemma RejectionKeepsReason(
      b: RouteBinding, failed: Failures, infra: Option<Infra>, ref: nat, syncErr: Option<Error>,
      override: Option<Override>, generation: int)
    requires ref in b.results && !b.results[ref].accepted
    ensures AcceptedCondition(generation, Injected(b, failed, infra), ref, syncErr, override)
            == Condition(false, b.results[ref].reason, Given(b.results[ref].message), generation)
  {
  }
}
