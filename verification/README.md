# Cloudflare tunnel gateway controller: verified cores

A Dafny model of the algorithms inside the controller that turn Gateway API
objects into tunnel ingress documents, proxy pushes and route status, with
proofs of what they guarantee over all inputs and all runs. API-server reads are
snapshots, writes are guarded steps, and a program loop is a loop here too.

| file | what it models |
|---|---|
| `ListenerMerge.dfy` | precedence order and in-place conflict annotation of Gateway and ListenerSet listeners |
| `ViewStore.dfy` | the fingerprint-keyed store of merged views shared by concurrent reconciles |
| `PushState.dfy` | the per-partition push state: prepare, deliver, record, resync, evict, and the steady-state skip |
| `RoutePartitions.dfy` | splitting routes into data planes, grouping data planes by tunnel, and the two route unions |
| `TunnelSync.dfy` | syncing the tunnel groups and collecting what became of them |
| `SyncAttribution.dfy` | mapping tunnel failures back to the parents of a route |
| `IngressDocument.dfy` | diff, apply, stable sort, catch-all and unchanged-check of a tunnel's ingress document |
| `Hostnames.dfy` | hostname patterns as sets of hosts, their intersection test, and per-namespace ownership |
| `CrossType.dfy` | conflicts between HTTPRoutes and GRPCRoutes |
| `TunnelConflicts.dfy` | what the conflict rule means for the tunnels that serve the routes |
| `RouteStatus.dfy` | the status-write protocol with foreign entries, a generation guard and optimistic concurrency |
| `Utf8Truncation.dfy` | capping messages at a byte length, over UTF-8 as in sections 3 and 4 of RFC 3629 |
| `Annotations.dfy` | overlaying managed annotations, tracked in one comma-separated annotation |
| `TlsPolicies.dfy` | BackendTLSPolicy precedence and its watch mapper |
| `Routes.dfy` | routes, bindings and results, common to the modules on routes |
| `Lists.dfy`, `Strings.dfy` | filtering, stable sorting, string order, split and join, decimal text |

Main results: the shared view store answers as a from-scratch merge would in
every interleaving (`ViewStore.CacheAgreesWithScratch`); a skipped push is one
whose config every endpoint already holds (`PushState.SkipIsSound`), and exactly the
pushes and resyncs that are compatible with those in flight keep it so
(`PushState.BeginningSafeIff`); a route reaches a tunnel exactly when one of its
Gateways is served by it (`RoutePartitions.RouteReachesTunnelIff`), and a tunnel's
failure reaches exactly the parents it serves (`SyncAttribution.PendingIff`); the
intersection test decides whether two hostname lists share a host
(`Hostnames.IntersectIffShareHost`); while our status entries stay present, status
never goes back to an older generation (`RouteStatus.StatusNeverRegresses`).

Properties that do not always hold, each with the exact condition under which it
does and, where that is not plain from the condition, an input that shows the rest:

- One write is not always enough for an ingress document: a rule whose hostname
  is present but empty is read back without one and sorts elsewhere
  (`IngressDocument.EmptyHostnameWritesTwice`, `OneWriteFixpointIff`); two writes
  always are (`TwoWritesAreEnough`). The Gateway API's hostname type has a minimum
  length of 1, so an admitted route has no such hostname; the rule builder itself
  passes an empty one through (internal/ingress/generic_builder.go:157-160).
- The endpoint test is set equality exactly for lists without repetition
  (`PushState.RepeatedEndpointAccepted`, `EndpointTestExact`).
- The skip is unsound when pushes of one partition overlap and disagree: two in
  flight that share an endpoint and differ in hash or token can always be finished
  so that a later skip is wrong (`PushState.OverlapBreaksSkip`, with a run from the
  start in `OverlapRun`). After a run without such overlap, beginning one more push
  or resync is safe iff it is compatible with the pushes in flight
  (`PushState.BeginningSafeIff`).
- The view store answers right in every interleaving of a set of calls iff any two of
  them that it cannot tell apart have views that stand for each other
  (`ViewStore.AnswersRightIff`, `RecreatedGatewayServedStale`).
- Conflicts are resolved for each Gateway, so one tunnel can still be given an
  HTTPRoute and a GRPCRoute with a host in common: iff they are accepted on two
  different Gateways that the tunnel serves (`TunnelConflicts.TwoGatewaysOneTunnel`,
  `SharedTunnelClashIff`).
- Accepting exactly one of two conflicting routes fails when the preferred one
  loses to a third (`CrossType.BothRejected`, `ExactlyOneIff`).
- A target Service can be left without any accepted BackendTLSPolicy
  (`TlsPolicies.TargetLeftWithout`, `TargetServedIff`).
- A condition's `observedGeneration` names the generation its content was
  computed from exactly when the spec did not change in between
  (`RouteStatus.ClaimExactIff`).
- Content of an older generation can follow newer content
  (`RouteStatus.OlderContentAfterRemoval`): an older writer gets through iff our
  entries, which the generation guard reads, are gone by then
  (`RouteStatus.OlderWriteLandsIff`).
- A truncated message fits its cap exactly when the cap has room for the marker
  (`Utf8Truncation.TruncationFitsIff`).

Where code and documentation disagree the code is modelled: ListenerSets of equal
age are ordered by namespace and then name, while the package comment says
alphabetically by `{namespace}/{name}`; `ListenerMerge.DocumentedOrderAgrees`
says exactly when the two agree.

## Model

| member | source | states |
|---|---|---|
| `ListenerMerge.AnnotateConflicts` | internal/listenermerge/merge.go:187-220 | the one pass over the array with its two maps leaves every entry as it was except for its verdict, which is the greedy one |
| `ListenerMerge.VerdictsAreGreedy` | internal/listenermerge/merge.go:187-220 | an entry is refused for its protocol iff an earlier free entry has its port and another protocol, else for its hostname iff an earlier free entry has its port and hostname, else it is free |
| `ListenerMerge.GreedyUnique` | internal/listenermerge/merge.go:187-220 | no other annotation satisfies that rule |
| `ListenerMerge.SurvivorsCompatible` | internal/listenermerge/merge.go:187-220 | two free entries on one port have one protocol and different hostnames |
| `ListenerMerge.ConflictHasWitness` | internal/listenermerge/merge.go:187-220 | a refused entry has an earlier free entry that clashes for exactly its reason, protocol before hostname |
| `ListenerMerge.SeenRecordsWinners` | internal/listenermerge/merge.go:188-219 | the two maps hold the ports and slots claimed by the free entries, and nothing else |
| `ListenerMerge.OrderEntries` | internal/listenermerge/merge.go:96-148 | the entries are the Gateway's listeners followed by those of the ListenerSets in precedence order |
| `ListenerMerge.MergeListeners` | internal/listenermerge/merge.go:96-109 | the merged view is the annotation of those entries |
| `ListenerMerge.MergeInOrder` | internal/listenermerge/merge.go:96-181 | own listeners come first in order, then those of older ListenerSets before younger, then by namespace, then by name, and within one set in order |
| `ListenerMerge.MergeOwnListeners` | internal/listenermerge/merge.go:111-130 | the Gateway's own listeners are the first entries, each at its index |
| `ListenerMerge.MergeAllListeners` | internal/listenermerge/merge.go:132-148 | every listener of an attached ListenerSet has an entry |
| `ListenerMerge.MergeOnlyListeners` | internal/listenermerge/merge.go:111-148 | every entry is a listener of the Gateway or of an attached ListenerSet, under its index |
| `ListenerMerge.RefusedByElder` | internal/listenermerge/merge.go:96-220 | a refused listener of a view has an earlier free one on its port, of another protocol or else of the same protocol and hostname; never one of a younger ListenerSet |
| `ListenerMerge.FreeAreCompatible` | internal/listenermerge/merge.go:96-220 | two free listeners of a view on one port have one protocol and different hostnames |
| `ListenerMerge.SameHostnameIff` | internal/listenermerge/merge.go:227-233 | hostnames count as the same iff they are equal, an absent one being the same as an empty one |
| `ListenerMerge.MergePermuted` | internal/listenermerge/merge.go:96-181 | ListenerSets listed in another order give the same view |
| `ListenerMerge.MergeExtends` | internal/listenermerge/merge.go:96-220 | attaching lower-precedence ListenerSets only appends entries and changes no earlier verdict |
| `ListenerMerge.OwnVerdictsFixed` | internal/listenermerge/merge.go:96-220 | the Gateway's own entries and verdicts are the same whatever is attached |
| `ListenerMerge.DocumentedOrderAgrees` | internal/listenermerge/merge.go:164-181 | namespace-then-name order is the documented text order exactly when no namespace continues the other below the slash |
| `ViewStore.MergeViewFingerprint` | internal/controller/listenerset_view.go:345-363 | builds the fingerprint from the generation and the sorted tokens |
| `Strings.NatTextSpells` | internal/controller/listenerset_view.go:350-351 | the decimal text of a number spells it, without leading zeros |
| `ViewStore.TokenInjective` | internal/controller/listenerset_view.go:349-355 | a token determines namespace, name, generation and creation time |
| `ViewStore.FingerprintInjective` | internal/controller/listenerset_view.go:345-363 | equal fingerprints mean the same Gateway generation and the same collection of ListenerSet identities, in any order |
| `ViewStore.AcceptedFromCandidates` | internal/controller/listenerset_collect.go:66-86 | keeps the accepted candidates in order, or fails when one cannot be evaluated |
| `ViewStore.AcceptedIff` | internal/routebinding/listenerset.go:20-52 | a candidate is accepted iff the Gateway allows all namespaces, or the same one and it is, or selected ones and it is; the build fails iff a selected namespace cannot be read |
| `ViewStore.ViewFromCandidates` | internal/controller/listenerset_view.go:144-159 | builds the view from scratch, or fails |
| `ViewStore.SameFingerprintSameView` | internal/controller/listenerset_view.go:279-363 | on one Gateway, equal fingerprints mean equal merges and the same accepted ListenerSets counted |
| `ViewStore.MergeViewStore.constructor` | internal/controller/listenerset_view.go:254-256 | starts with no entries |
| `ViewStore.MergeViewStore.Forget` | internal/controller/listenerset_view.go:265-273 | removes exactly the key's entry |
| `ViewStore.ForgottenIsRebuilt` | internal/controller/listenerset_view.go:265-273 | after a forget the next call for that Gateway builds anew, and other entries stay |
| `ViewStore.BuiltIsReused` | internal/controller/listenerset_view.go:279-320 | what a finished build stored is what the next call that looks the same returns |
| `ViewStore.MergeViewStore.Resolve` | internal/controller/listenerset_view.go:279-320 | returns a view that agrees with the caller's snapshot, keeps every entry traceable to a call, and never stores for selector Gateways |
| `ViewStore.HitAgrees` | internal/controller/listenerset_view.go:299-305 | a hit serves a view that agrees with the caller's own snapshot |
| `ViewStore.RunSound` | internal/controller/listenerset_view.go:265-320 | every interleaving keeps every entry traceable to a from-scratch build |
| `ViewStore.CacheAgreesWithScratch` | internal/controller/listenerset_view.go:265-320 | in every interleaving of resolves and forgets, a returned view is the from-scratch merge of the snapshot that call listed |
| `ViewStore.EveryCallIsAnswered` | internal/controller/listenerset_view.go:279-320 | in every interleaving a call that has begun is there with the snapshot it listed, and has an answer once it was finished |
| `ViewStore.CoherentIsInterchangeable` | internal/controller/listenerset_view.go:279-363 | when key and generation fix a Gateway and identity fixes a ListenerSet, calls the store cannot tell apart have views that stand for each other |
| `ViewStore.AnswersRightIff` | internal/controller/listenerset_view.go:265-320 | every interleaving of a set of calls answers right iff any two non-selector calls with equal key and fingerprint have agreeing from-scratch views |
| `ViewStore.LateStoreServes` | internal/controller/listenerset_view.go:307-317 | a build caught between listing and storing by a forget leaves its view for any later call with the same key and fingerprint |
| `ViewStore.RecreatedGatewayServedStale` | internal/controller/listenerset_view.go:265-320 | a Gateway recreated with another spec under the same key and generation can be served the deleted one's view |
| `PushState.EndpointTestExact` | internal/controller/proxy_syncer.go:1024-1036 | the endpoint test is set equality for lists without repetition, and otherwise accepts only strictly larger recorded sets |
| `PushState.RepeatedEndpointAccepted` | internal/controller/proxy_syncer.go:1024-1036 | a repeated endpoint can pass for a recorded one that is gone |
| `PushState.ProxySyncer.PreparePush` | internal/controller/proxy_syncer.go:753-799 | the whole new target state, and the answer to skip or push |
| `PushState.ProxySyncer.RecordPush` | internal/controller/proxy_syncer.go:805-847 | the whole new target state after a success, a failure, or an eviction in between |
| `PushState.ProxySyncer.ResyncTarget` | internal/controller/proxy_syncer.go:1214-1277 | the whole new target state after a replay of the last config |
| `PushState.ProxySyncer.RetainPartitions` | internal/controller/proxy_syncer.go:889-900 | keeps exactly the live targets |
| `PushState.ProxySyncer.PushFailureStreak` | internal/controller/proxy_syncer.go:853-863 | returns the target's failure count, zero without a target |
| `PushState.TargetRemembers` | internal/controller/proxy_syncer.go:753-900 | in every run a target exists iff it was created and not evicted since, and remembers the config of its last successful push, the skip key of its last delivery, and the endpoints and token of its last sync |
| `PushState.ResyncReplaysLastPush` | internal/controller/proxy_syncer.go:1214-1277 | every endpoint a resync reaches holds the config of the last successful push, under the token of the resync |
| `PushState.SkipsIff` | internal/controller/proxy_syncer.go:991-1036 | a sync is skipped iff its config can be hashed and the last thing that happened to the endpoints was a full delivery of that hash, under that token, to exactly those endpoints |
| `PushState.StreakCounts` | internal/controller/proxy_syncer.go:805-863 | in every run that count is the number of failed pushes recorded since the last success, skip, creation or eviction |
| `PushState.RunTruthful` | internal/controller/proxy_syncer.go:703-847 | in every run whose overlapping pushes are compatible, a skip key tells the truth about every endpoint that no other push can reach |
| `PushState.SkipIsSound` | internal/controller/proxy_syncer.go:991-999 | whenever a compatible sync skips, every resolved endpoint holds a config of the desired hash, delivered under the current token |
| `PushState.SkippedContentHeld` | internal/controller/proxy_syncer.go:991-999 | with a collision-free hash, that endpoint holds the very config that was not pushed |
| `PushState.KeyNeedsConfig` | internal/controller/proxy_syncer.go:805-847 | in every run a target with a skip key has a config to replay |
| `PushState.StaysInvalidated` | internal/controller/proxy_syncer.go:805-900 | a cleared skip key stays cleared until a push or resync of that partition succeeds |
| `PushState.NoSkipAfterFailure` | internal/controller/proxy_syncer.go:805-847 | after a failed push, a failed resync or an eviction, no sync of that partition skips until one succeeds |
| `PushState.SteadyStateSkips` | internal/controller/proxy_syncer.go:991-1036 | right after a successful push the same config to the same endpoints is skipped |
| `PushState.OverlapBreaksSkip` | internal/controller/proxy_syncer.go:753-847 | from any state with two pushes of one partition in flight that share an endpoint and disagree, deliveries and records lead to an idle state with a wrong skip |
| `PushState.OverwriteBreaksSkip` | internal/controller/proxy_syncer.go:1214-1277 | so do they after a resync has overwritten what a push in flight had delivered |
| `PushState.SkipBesideBreaks` | internal/controller/proxy_syncer.go:991-999 | a skip beside a push in flight that it shares an endpoint with and does not agree with is wrong after one delivery |
| `PushState.BeginningSafeIff` | internal/controller/proxy_syncer.go:703-847 | after a disciplined run, a push or resync can begin without any way to a wrong skip iff it is compatible with the pushes in flight |
| `PushState.OverlapRun` | internal/controller/proxy_syncer.go:753-847 | a run from the start in which two overlapping pushes of different content make a later skip wrong |
| `RoutePartitions.PartitionKeysFor` | internal/controller/route_partition.go:231-256 | the sorted list, without repetition, of the data planes an accepted route belongs to |
| `RoutePartitions.MembersExact` | internal/controller/route_partition.go:169-224 | a partition's routes are the accepted routes with its key, none twice |
| `RoutePartitions.MembershipExact` | internal/controller/route_partition.go:169-256 | a route is in a dedicated partition iff accepted on that resolved Gateway, in shared iff accepted on one neither resolved nor broken, and in none when accepted only on broken ones |
| `RoutePartitions.MembershipShared` | internal/controller/route_partition.go:231-256 | without dedicated data planes a route is in the shared partition iff accepted anywhere, and in no other |
| `RoutePartitions.Distribute` | internal/controller/route_partition.go:174-205 | the loop over accepted routes fills every partition's list with exactly its members, in order |
| `RoutePartitions.PartitionRoutes` | internal/controller/route_partition.go:169-224 | shared first, then one partition for each resolved Gateway in key order, each with its members |
| `RoutePartitions.PartitionKeysDistinct` | internal/controller/route_partition.go:206-223 | no two partitions have the same key |
| `RoutePartitions.BuildTunnelGroups` | internal/controller/route_syncer.go:978-1018 | the groups have pairwise different tunnels, shared's first and the rest ascending, and each holds the partitions of its tunnel in order |
| `RoutePartitions.GroupOfPartition` | internal/controller/route_syncer.go:978-1018 | every partition is in the group of its tunnel and in no other |
| `RoutePartitions.SharedGroupConfig` | internal/controller/route_syncer.go:978-1018 | the first group serves the shared partition under the shared credentials, whoever else is on the tunnel |
| `RoutePartitions.GroupConfig` | internal/controller/route_syncer.go:978-1018 | every other group works under the credentials of a Gateway it serves |
| `RoutePartitions.GroupRoutes` | internal/controller/route_syncer.go:1241-1275 | the routes of a group are the union of its partitions |
| `RoutePartitions.UnionPartitionRoutes` | internal/controller/route_partition.go:266-331 | every partition is given the union of the partitions on its tunnel, and nothing else of it changes |
| `Routes.RouteKeyIsName` | internal/controller/route_partition.go:295-295 | two routes have the same key iff they have the same namespace and name |
| `RoutePartitions.UnionContents` | internal/controller/route_partition.go:266-331 | a union names no route twice, and exactly the namespaces and names of the routes in its partitions |
| `RoutePartitions.UnionExact` | internal/controller/route_partition.go:266-331 | with one version of every route, a route is in the union iff it is in one of the partitions |
| `RoutePartitions.UnionGrows` | internal/controller/route_partition.go:266-331 | further partitions only append, so the first to name a route decides its version and place |
| `RoutePartitions.UnionAddsInOrder` | internal/controller/route_partition.go:266-331 | what a further partition appends are its new routes, in its own order |
| `RoutePartitions.UnionsAgree` | internal/controller/route_partition.go:266-331 | what a partition's proxy is pushed is, route for route, what its tunnel's ingress document is built from |
| `RoutePartitions.RouteReachesTunnelIff` | internal/controller/route_partition.go:169-331 | an accepted route is among a tunnel's routes iff it is accepted on a Gateway that the tunnel serves |
| `TunnelSync.SyncTunnelGroups` | internal/controller/route_syncer.go:1130-1161 | collects every group's error for each of its partitions, the errors in group order, the rule total, whether anything was written, and the failed references of both kinds in order |
| `TunnelSync.FailedIffGroupFailed` | internal/controller/route_syncer.go:1130-1161 | a partition held by one group has failed iff that group has, with its error |
| `TunnelSync.UnheldNeverFails` | internal/controller/route_syncer.go:1130-1161 | a key that no group holds is never marked |
| `SyncAttribution.InjectPartitionSyncErrors` | internal/controller/route_syncer.go:1182-1210 | every binding gets exactly the errors of its accepted Gateways and is otherwise unchanged |
| `SyncAttribution.ServingGroup` | internal/controller/route_syncer.go:978-1227 | exactly one group holds the partition that a Gateway is served from |
| `SyncAttribution.ServesByTunnel` | internal/controller/route_syncer.go:978-1227 | the group that serves a Gateway is the one whose tunnel does |
| `SyncAttribution.SyncErrorIs` | internal/controller/route_syncer.go:1216-1227 | a Gateway's sync error is that of a broken data plane when it is broken, and else exactly that of the one group serving it |
| `SyncAttribution.ReportIs` | internal/controller/route_status.go:511-569 | an accepted parent reports the error of its Gateway, else the global error, else the override, else that it is accepted |
| `SyncAttribution.UnboundReport` | internal/controller/route_status.go:511-569 | an accepted parent without a Gateway and without an override reports the global error, else that it is accepted |
| `SyncAttribution.PendingIff` | internal/controller/route_status.go:511-569 | without a global error or override, a parent accepted on a Gateway reports Accepted=False with reason Pending and the error's text iff the Gateway is broken or its serving group failed, and Accepted=True otherwise |
| `SyncAttribution.PendingByTunnel` | internal/controller/route_status.go:511-569 | an accepted parent reports Pending iff its Gateway is among the broken ones or the group whose tunnel serves it failed |
| `SyncAttribution.OtherTunnelsDoNotMatter` | internal/controller/route_status.go:511-569 | with any global error and override, the whole report is the same whatever becomes of groups that do not serve the Gateway; status and reason depend only on whether the serving group failed |
| `SyncAttribution.RejectionKeepsReason` | internal/controller/route_status.go:524-569 | a rejected binding reports its own reason and message whatever failed |
| `IngressDocument.DiffRules` | internal/ingress/diff.go:59-122 | the desired specific rules not deployed, and the deployed specific rules not desired |
| `IngressDocument.ApplyDiff` | internal/ingress/diff.go:126-161 | the deployed specific rules without the removed ones, in order, then the added ones |
| `IngressDocument.EnsureCatchAll` | internal/ingress/diff.go:164-183 | the specific rules in order and one catch-all last |
| `IngressDocument.SyncTunnelDocument` | internal/controller/route_syncer.go:1334-1364 | too many rules, unchanged, or the document to write |
| `IngressDocument.OutcomeIs` | internal/controller/route_syncer.go:1345-1364 | over 1000 rules the sync fails, an already deployed document is not written, any other is |
| `IngressDocument.AppliedContents` | internal/ingress/diff.go:59-161 | applying the diff gives exactly the desired specific rules |
| `IngressDocument.FinalIsBodyAndCatchAll` | internal/controller/route_syncer.go:1334-1364 | the final document is a sorted body of specific rules and the catch-all |
| `IngressDocument.FinalInOrder` | internal/controller/route_syncer.go:1657-1682 | before the catch-all, rules with a hostname come first, hostnames ascend, and within one hostname paths do not get longer |
| `IngressDocument.FinalKeepsTies` | internal/controller/route_syncer.go:1657-1682 | rules with the same hostname and path length are the deployed ones that stay and then the additions, each in their order |
| `IngressDocument.FinalServesDesired` | internal/controller/route_syncer.go:1334-1364 | the final document serves exactly the desired rules and its only catch-all is last |
| `IngressDocument.FinalRoutesDesired` | internal/controller/route_syncer.go:1334-1364 | the last rule answers 404, and the rules before it are exactly the desired ones that have a hostname or another backend |
| `IngressDocument.FinalReads` | internal/controller/route_syncer.go:1334-1364 | the final document reads as the desired deployed rules, the new ones and one catch-all, counted, which fixes its length |
| `IngressDocument.FinalCounts` | internal/controller/route_syncer.go:1334-1364 | a desired deployed rule occurs as often as it was deployed, a new one as often as it is desired, any other not at all |
| `IngressDocument.SecondFinal` | internal/controller/route_syncer.go:1657-1682 | the document a second pass gives, from the first one's body |
| `IngressDocument.OneWriteFixpointIff` | internal/ingress/diff.go:59-225 | a second pass finds the document unchanged iff no added rule with an empty hostname is out of place |
| `IngressDocument.OneWriteIsEnough` | internal/ingress/diff.go:59-225 | with non-empty hostnames the pass after a write never writes |
| `IngressDocument.TwoWritesAreEnough` | internal/ingress/diff.go:59-225 | whatever the hostnames, the pass after two writes never writes |
| `IngressDocument.EmptyHostnameWritesTwice` | internal/ingress/diff.go:186-225 | an empty hostname beside a real one is written twice |
| `Hostnames.WildcardCoversIff` | internal/controller/route_crosstype.go:230-237 | the suffix test holds iff the host is one the wildcard stands for |
| `Hostnames.MatchHasHost` | internal/controller/route_crosstype.go:213-228 | matching hostnames have a concrete host in common |
| `Hostnames.HostHasMatch` | internal/controller/route_crosstype.go:213-228 | hostnames with a host in common match |
| `Hostnames.IntersectIffShareHost` | internal/controller/route_crosstype.go:195-237 | two hostname lists intersect iff some concrete host is served by both, an empty list serving every host |
| `Hostnames.CheckHostnamesIff` | internal/hostnameownership/policy.go:117-125 | the search allows a list iff every hostname in it lies within the suffix |
| `Hostnames.OutsideIsFirst` | internal/hostnameownership/policy.go:117-125 | otherwise the verdict names the first hostname outside it |
| `Hostnames.WithinSuffixIff` | internal/hostnameownership/policy.go:140-145 | for any hostname and any suffix that is not a wildcard, the string test holds iff the hostname's labels, lower-cased, end in the suffix's |
| `Hostnames.AllowedIffServesOnlyOwned` | internal/hostnameownership/policy.go:95-126 | in a policed namespace a route is allowed iff every host it serves is owned by the namespace |
| `Hostnames.EvaluateIff` | internal/hostnameownership/policy.go:95-126 | in a labelled namespace: when there is no selector or it matches, a route is allowed iff it serves only hosts of the labelled suffix; when the selector does not match, always |
| `Hostnames.DenialNamesCause` | internal/hostnameownership/policy.go:95-126 | a denial says the label is missing iff it is missing or empty, the hostnames are iff there are none, and otherwise names the first one outside |
| `Hostnames.LowerIs` | internal/hostnameownership/policy.go:104-104 | exactly the ASCII capitals become their small letters |
| `Hostnames.MatchNests` | internal/controller/route_crosstype.go:213-237 | if two hostnames match, the bare name of one lies within that of the other |
| `Hostnames.DisjointOwnersNeverIntersect` | internal/hostnameownership/policy.go:95-145 | routes allowed under two suffixes, neither within the other, never intersect |
| `CrossType.TestGateways` | internal/controller/route_crosstype.go:177-190 | the search over the smaller set answers whether the sets intersect |
| `CrossType.FindLosers` | internal/controller/route_crosstype.go:43-69 | the pairwise loop collects exactly the keys of the routes that lose some pairing |
| `CrossType.RouteResult.MarkBindingConflicted` | internal/controller/route_crosstype.go:157-173 | flips the accepted results of one binding and changes nothing else |
| `CrossType.RouteResult.RejectLosers` | internal/controller/route_crosstype.go:128-152 | the accepted list keeps the others in order, the rejected list gains the losers in order, and their bindings are flipped |
| `CrossType.ResolveCrossTypeConflicts` | internal/controller/route_crosstype.go:43-80 | the whole new state of both kinds, in terms of the routes that lose some pairing |
| `CrossType.SurvivesIff` | internal/controller/route_crosstype.go:43-80 | a route survives iff it loses no pairing |
| `CrossType.HttpRejectedIff` | internal/controller/route_crosstype.go:43-123 | an HTTPRoute is rejected iff a GRPCRoute shares a Gateway and a concrete host with it and is older, or as old with a namespace/name not after its own |
| `CrossType.GrpcRejectedIff` | internal/controller/route_crosstype.go:43-123 | a GRPCRoute is rejected iff an HTTPRoute shares a Gateway and a concrete host with it and is older, or as old with a smaller namespace/name |
| `CrossType.SurvivorsNeverClash` | internal/controller/route_crosstype.go:43-80 | no surviving HTTPRoute and GRPCRoute share both a Gateway and a concrete host |
| `CrossType.FirstSurvives` | internal/controller/route_crosstype.go:51-80 | the first route by age, then namespace/name, then GRPCRoute before HTTPRoute survives |
| `CrossType.WinnerComesFirst` | internal/controller/route_crosstype.go:117-123 | the loser of a pairing comes after its opponent in that order |
| `Strings.LeqIsLexicographic` | internal/controller/route_crosstype.go:122-122 | the string order: a prefix comes first, otherwise the first difference decides |
| `CrossType.Conserved` | internal/controller/route_crosstype.go:128-152 | accepted and rejected routes together are what they were, counted |
| `CrossType.OnlyLosersRejected` | internal/controller/route_crosstype.go:128-173 | a loser keeps no accepted result, its rejected ones stay as they were, and no other route's results change |
| `CrossType.ExactlyOneIff` | internal/controller/route_crosstype.go:31-80 | of two conflicting routes at most one is accepted, and one is iff the preferred one loses no pairing |
| `CrossType.BothRejected` | internal/controller/route_crosstype.go:51-69 | two conflicting routes can both be rejected |
| `CrossType.FullTieGoesToGrpc` | internal/controller/route_crosstype.go:64-68 | with equal age and equal namespace/name the HTTPRoute is rejected |
| `TunnelConflicts.SurvivorReachesIff` | internal/controller/route_syncer.go:833-845 | a route that survives the conflicts is on a tunnel iff it was accepted on a Gateway the tunnel serves |
| `TunnelConflicts.SharedTunnelClashIff` | internal/controller/route_syncer.go:833-845 | two surviving routes of different kind with a host in common are on one tunnel iff they are accepted on two different Gateways that it serves |
| `TunnelConflicts.TwoGatewaysOneTunnel` | internal/controller/route_syncer.go:833-845 | an HTTPRoute and a GRPCRoute for one host on two Gateways of the shared plane are both given to its tunnel |
| `RouteStatus.RebuildParents` | internal/controller/route_status.go:119-173 | no list when an own condition is newer than the reconciled generation, else our entries cut to fit and the others |
| `RouteStatus.RebuiltKeepsForeign` | internal/controller/route_status.go:119-173 | our entries and then the others' verbatim and in order; ours are a prefix of what was built, all of it if at most 32 fit together, and otherwise the list is cut to 32 or to the others' entries if they are more |
| `RouteStatus.BuildParentStatus` | internal/controller/route_status.go:240-312 | an entry is ours and for the given parent, with Accepted, ResolvedRefs and the diagnostics in order, each stamped with the fetched generation |
| `RouteStatus.UnblockedClaims` | internal/controller/status_generation.go:23-33 | a write is let through iff none of our stored conditions is newer than the reconciled generation |
| `RouteStatus.RunGood` | internal/controller/route_status.go:99-180 | every run of concurrent writers, spec changes and foreign writes keeps the protocol invariant |
| `RouteStatus.ObservedNeverDecreases` | internal/controller/route_status.go:109-180 | between two versions our conditions are unchanged or none claims less than any earlier one |
| `RouteStatus.ContentNeverRegresses` | internal/controller/route_status.go:109-180 | while our entries stay present, content is never followed by content of an older generation |
| `RouteStatus.OlderWriteLandsIff` | internal/controller/route_status.go:119-173 | a writer older than the content of an earlier version, our entries present since, stores something iff they are gone from the current one |
| `RouteStatus.StatusNeverRegresses` | internal/controller/route_status.go:109-180 | both, and the length limit, for any two versions of any run |
| `RouteStatus.ForeignSurvive` | internal/controller/route_status.go:119-173 | over any run without a foreign write, other controllers' entries are verbatim what they were |
| `RouteStatus.ForeignAreTheirs` | internal/controller/route_status.go:119-173 | in every run the other controllers' entries are verbatim and in order what they last wrote themselves |
| `RouteStatus.NewestIsWritten` | internal/controller/route_status.go:132-138 | in every reachable state a writer that reconciled and fetched the current generation is let through and leaves only its own verdict |
| `RouteStatus.ClaimExactIff` | internal/controller/route_status.go:205-215 | a write's conditions claim the generation they were computed from iff the fetched generation is the reconciled one |
| `RouteStatus.OlderContentAfterRemoval` | internal/controller/route_status.go:124-139 | such a run from the start: newer content, removal, then older content |
| `Utf8Truncation.TruncateUTF8` | internal/controller/route_status.go:444-462 | the loop backs up to the last place where a character starts |
| `Utf8Truncation.ValidSpells` | internal/controller/route_status.go:436-443 | well-formed text is a sequence of characters encoded as in section 3 of RFC 3629 |
| `Utf8Truncation.SpelledIsValid` | internal/controller/route_status.go:436-443 | every such sequence is well-formed |
| `Utf8Truncation.TruncationValid` | internal/controller/route_status.go:444-462 | well-formed text stays well-formed |
| `Utf8Truncation.TruncationFitsIff` | internal/controller/route_status.go:444-462 | the result fits iff the text did or the cap has room for the marker |
| `Utf8Truncation.TruncationIsPrefix` | internal/controller/route_status.go:444-462 | a cut text is a well-formed prefix and the marker, at most three bytes short of the cap |
| `Utf8Truncation.TruncationLongest` | internal/controller/route_status.go:444-462 | no well-formed prefix that leaves room for the marker is longer |
| `Annotations.MergeManagedAnnotations` | internal/controller/gateway_infra_reconciler.go:375-405 | the whole merged map: tracked keys no longer desired removed, desired laid over, tracking rewritten or dropped |
| `Annotations.TrackingRoundTrip` | internal/controller/gateway_infra_reconciler.go:379-402 | reading back the joined sorted keys gives the set of keys that was written |
| `Annotations.TrackingRefinesSet` | internal/controller/gateway_infra_reconciler.go:375-405 | over any history of reconciles and other actors' edits, the string-tracked merge does what one remembering the keys as a set does |
| `Annotations.ForeignKeysUntouched` | internal/controller/gateway_infra_reconciler.go:375-405 | after any history a key never desired holds what its owners last left there |
| `Annotations.ReconcilesLeave` | internal/controller/gateway_infra_reconciler.go:375-405 | after any reconciles from an untracked start: the last desired map, plus exactly the original keys never desired, plus a tracking key iff the last map is not empty |
| `Annotations.ReconciledLookup` | internal/controller/gateway_infra_reconciler.go:375-405 | after any reconciles each key holds its last desired value, or nothing if it was only desired earlier, or what it held at the start |
| `Annotations.TrackingListsDesired` | internal/controller/gateway_infra_reconciler.go:389-402 | the tracking annotation is the last desired keys in ascending order joined with commas, and absent when there are none |
| `Annotations.MergeIdempotent` | internal/controller/gateway_infra_reconciler.go:375-405 | merging the same desired map again changes nothing, whatever the object held |
| `TlsPolicies.NormalizePolicyTargets` | internal/controller/backendtlspolicy_controller.go:405-423 | the set of Service targets, unset section as empty |
| `TlsPolicies.TargetsAre` | internal/controller/backendtlspolicy_controller.go:405-423 | the targets are those of references of kind Service or of no kind, by name and section, an unset section being empty |
| `TlsPolicies.PoliciesShareTarget` | internal/controller/backendtlspolicy_controller.go:428-436 | answers whether the targets intersect |
| `TlsPolicies.ConflictWinnerFor` | internal/controller/backendtlspolicy_controller.go:340-383 | none iff no older policy shares a target, else the oldest that does |
| `TlsPolicies.WinnerIsEldest` | internal/controller/proxy_syncer.go:533-543 | the winner is created before the loser, or at the same time with a smaller name, shares a target with it, and no such policy is elder |
| `TlsPolicies.NoElderRival` | internal/controller/backendtlspolicy_controller.go:340-383 | a policy without a winner shares no target with an elder one |
| `TlsPolicies.VerdictUnique` | internal/controller/backendtlspolicy_controller.go:340-383 | the verdict depends on which policies exist, not on how they are listed |
| `TlsPolicies.AcceptedShareNothing` | internal/controller/backendtlspolicy_controller.go:340-383 | policies without a conflict have no target in common |
| `TlsPolicies.TargetServedIff` | internal/controller/backendtlspolicy_controller.go:340-383 | a target has an accepted policy iff its oldest holder loses on none of its targets |
| `TlsPolicies.TargetLeftWithout` | internal/controller/backendtlspolicy_controller.go:340-383 | a target whose every holder is conflicted |
| `TlsPolicies.PoliciesForPeerChange` | internal/controller/backendtlspolicy_controller.go:909-946 | enqueues exactly the namespace and name of every other policy of the namespace that shares a target |
| `TlsPolicies.PeerChangeComplete` | internal/controller/backendtlspolicy_controller.go:909-946 | every other policy whose verdict a create, update or delete changes is enqueued for the old or the new object |

## Left out

- Kubernetes reads, lists, watches, events, logging, metrics and tracing: reads are snapshots given to a step, and list errors end a call.
- The Cloudflare API, DNS resolution, JSON and SHA-256: the config hash is a function parameter, and delivery reaches any subset of the endpoints.
- The config pusher, the router and the route converter, and with them effective hostnames, redirect defaults and headless or 503 backends.
- Different partitions interleave freely and have disjoint endpoints; a push in flight may reach an endpoint more than once, as a retry would.
- ViewStore.CacheAgreesWithScratch: takes a Gateway key and generation to fix its spec, and a ListenerSet's namespace, name, generation and creation time to fix the ListenerSet; `ViewStore.RecreatedGatewayServedStale` shows the need, `ViewStore.AnswersRightIff` the exact condition.
- ViewStore.HitAgrees: the accepted ListenerSets agree as a multiset, not in order, because a hit returns the list of the call that built it.
- ViewStore.FingerprintInjective: for names in the Kubernetes alphabet, which has none of the separators.
- SyncAttribution.InjectPartitionSyncErrors: returns the new bindings instead of updating the shared maps, so aliasing is not captured.
- SyncAttribution.PendingIff: the message is named by the error it shows; cutting it to the limit is in `Utf8Truncation`.
- Hostnames.IntersectIffShareHost: for hostnames made of non-empty labels, which the Gateway API's validation enforces.
- Hostnames.AllowedIffServesOnlyOwned: lower-casing is that of ASCII letters, and the suffix is no wildcard, as a label value cannot be.
- CrossType.SurvivesIff: for routes with one object per namespace, name and kind, in namespaces without `/`, as the API server keeps them.
- RoutePartitions.UnionContents: for namespaces without `/`, as Kubernetes names are; two routes could otherwise share a key.
- RouteStatus.RunGood: conflicts are retried any number of times, where the program stops after the client library's default; what a verdict says is a parameter of the write.
- `ownedConditionsStale` and the BackendTLSPolicy ancestor list, capped at 16: the same merge and guard as for routes.
- `listenerViewCache`, the memo of one reconcile pass over the shared store.
- `selectPolicyForServicePort`, which resolves ports against the Service at run time, apart from its age comparison.
- Annotations.TrackingRefinesSet: for desired keys that are not empty, have no comma and are not the tracking key, as Kubernetes annotation names are.
- Secrets, certificates, tokens, condition message texts, CRD types, command line and deployment rendering: mostly single branches.
