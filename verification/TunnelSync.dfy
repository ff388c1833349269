/**
 Syncing the tunnel groups one after the other and collecting what became of them
 (syncTunnelGroups in internal/controller/route_syncer.go).
 */
module TunnelSync {
  import opened Lists
  import opened RoutePartitions

  type Error = string

  type Failures = map<string, Error>

  function MarkFailed(failed: Failures, ps: seq<Partition>, err: Error): Failures
  {
    if ps == [] then failed else MarkFailed(failed, ps[..|ps| - 1], err)[ps[|ps| - 1].key := err]
  }

  /** `errs[i]` is the error of the sync of group `i`, if it failed. */
  function FailedPartitions(gs: seq<Group>, errs: seq<Option<Error>>): Failures
    requires |gs| == |errs|
  {
    if gs == [] then map[]
    else
      var m := |gs| - 1;
      var failed := FailedPartitions(gs[..m], errs[..m]);
      match errs[m]
      case None => failed
      case Some(err) => MarkFailed(failed, gs[m].partitions, err)
  }

  /** What the sync of one group reports; a failed backend reference is named by its text. */
  datatype GroupResult = GroupResult(
    err: Option<Error>, ruleCount: nat, written: bool, httpFailedRefs: seq<string>, grpcFailedRefs: seq<string>)

  datatype Outcome = Outcome(
    failed: Failures, groupErrs: seq<Error>, totalRules: nat, anyWritten: bool,
    httpFailedRefs: seq<string>, grpcFailedRefs: seq<string>)

  function ErrorsIn(results: seq<GroupResult>): (r: seq<Option<Error>>)
  {
    Map(results, (g: GroupResult) => g.err)
  }

  /** The errors of the failed groups, in group order. */
  function GroupErrors(errs: seq<Option<Error>>): seq<Error>
  {
    Map(Keep(errs, (e: Option<Error>) => e.Some?), (e: Option<Error>) => if e.Some? then e.value else "")
  }

  function Sum(ns: seq<nat>): nat
  {
    if ns == [] then 0 else Sum(ns[..|ns| - 1]) + ns[|ns| - 1]
  }

  function Concat(lists: seq<seq<string>>): seq<string>
  {
    if lists == [] then [] else Concat(lists[..|lists| - 1]) + lists[|lists| - 1]
  }

  /** The failures of the groups and of their partitions. */
  ghost predicate FailuresCollected(o: Outcome, gs: seq<Group>, results: seq<GroupResult>)
    requires |gs| == |results|
  {
    o.failed == FailedPartitions(gs, ErrorsIn(results)) && o.groupErrs == GroupErrors(ErrorsIn(results))
  }

  ghost predicate RefsCollected(o: Outcome, results: seq<GroupResult>)
  {
    && o.httpFailedRefs == Concat(Map(results, (g: GroupResult) => g.httpFailedRefs))
    && o.grpcFailedRefs == Concat(Map(results, (g: GroupResult) => g.grpcFailedRefs))
  }

  ghost predicate WritesCollected(o: Outcome, results: seq<GroupResult>)
  {
    && o.totalRules == Sum(Map(results, (g: GroupResult) => g.ruleCount))
    && (o.anyWritten <==> exists g :: g in results && g.written)
  }

  ghost predicate IsOutcome(o: Outcome, gs: seq<Group>, results: seq<GroupResult>)
    requires |gs| == |results|
  {
    FailuresCollected(o, gs, results) && RefsCollected(o, results) && WritesCollected(o, results)
  }

  /** One group's share of the outcome. */
  function WithGroup(o: Outcome, g: Group, r: GroupResult): Outcome
  {
    Outcome(
      if r.err.Some? then MarkFailed(o.failed, g.partitions, r.err.value) else o.failed,
      if r.err.Some? then o.groupErrs + [r.err.value] else o.groupErrs,
      o.totalRules + r.ruleCount, o.anyWritten || r.written,
      o.httpFailedRefs + r.httpFailedRefs, o.grpcFailedRefs + r.grpcFailedRefs)
  }

  lemma MapSnoc<S, T>(s: seq<S>, x: S, f: S -> T)
    ensures Map(s + [x], f) == Map(s, f) + [f(x)]
  {
  }

  lemma {:induction false} SumSnoc(ns: seq<nat>, n: nat)
    ensures Sum(ns + [n]) == Sum(ns) + n
  {
    assert (ns + [n])[..|ns|] == ns;
  }

  lemma {:induction false} ConcatSnoc(lists: seq<seq<string>>, l: seq<string>)
    ensures Concat(lists + [l]) == Concat(lists) + l
  {
    assert (lists + [l])[..|lists|] == lists;
  }

  lemma GroupErrorsSnoc(errs: seq<Option<Error>>, e: Option<Error>)
    ensures GroupErrors(errs + [e]) == if e.Some? then GroupErrors(errs) + [e.value] else GroupErrors(errs)
  {
    KeepSnoc(errs, e, (x: Option<Error>) => x.Some?);
  }

  lemma {:induction false} FailedSnoc(gs: seq<Group>, g: Group, errs: seq<Option<Error>>, e: Option<Error>)
    requires |gs| == |errs|
    ensures FailedPartitions(gs + [g], errs + [e]) ==
            if e.Some? then MarkFailed(FailedPartitions(gs, errs), g.partitions, e.value) else FailedPartitions(gs, errs)
  {
    assert (gs + [g])[..|gs|] == gs && (errs + [e])[..|errs|] == errs;
  }

  lemma FailuresSnoc(o: Outcome, gs: seq<Group>, g: Group, results: seq<GroupResult>, r: GroupResult)
    requires |gs| == |results| && FailuresCollected(o, gs, results)
    ensures FailuresCollected(WithGroup(o, g, r), gs + [g], results + [r])
  {
    MapSnoc(results, r, (x: GroupResult) => x.err);
    GroupErrorsSnoc(ErrorsIn(results), r.err);
    FailedSnoc(gs, g, ErrorsIn(results), r.err);
  }

  lemma RefsSnoc(o: Outcome, g: Group, results: seq<GroupResult>, r: GroupResult)
    requires RefsCollected(o, results)
    ensures RefsCollected(WithGroup(o, g, r), results + [r])
  {
    MapSnoc(results, r, (x: GroupResult) => x.httpFailedRefs);
    ConcatSnoc(Map(results, (x: GroupResult) => x.httpFailedRefs), r.httpFailedRefs);
    MapSnoc(results, r, (x: GroupResult) => x.grpcFailedRefs);
    ConcatSnoc(Map(results, (x: GroupResult) => x.grpcFailedRefs), r.grpcFailedRefs);
  }

  lemma WritesSnoc(o: Outcome, g: Group, results: seq<GroupResult>, r: GroupResult)
    requires WritesCollected(o, results)
    ensures WritesCollected(WithGroup(o, g, r), results + [r])
  {
    MapSnoc(results, r, (x: GroupResult) => x.ruleCount);
    SumSnoc(Map(results, (x: GroupResult) => x.ruleCount), r.ruleCount);
    assert forall x :: x in results + [r] <==> x in results || x == r;
  }

  lemma OutcomeSnoc(o: Outcome, gs: seq<Group>, g: Group, results: seq<GroupResult>, r: GroupResult)
    requires |gs| == |results| && IsOutcome(o, gs, results)
    ensures IsOutcome(WithGroup(o, g, r), gs + [g], results + [r])
  {
    FailuresSnoc(o, gs, g, results, r);
    RefsSnoc(o, g, results, r);
    WritesSnoc(o, g, results, r);
  }

  method MarkPartitions(was: Failures, ps: seq<Partition>, err: Error) returns (failed: Failures)
    ensures failed == MarkFailed(was, ps, err)
  {
    failed := was;
    for j := 0 to |ps|
      invariant failed == MarkFailed(was, ps[..j], err)
    {
      assert ps[..j + 1][..j] == ps[..j];
      failed := failed[ps[j].key := err];
    }
    assert ps[..|ps|] == ps;
  }

  /** The loop body: what one group's sync adds to the outcome. */
  method AddGroup(was: Outcome, g: Group, r: GroupResult) returns (o: Outcome)
    ensures o == WithGroup(was, g, r)
  {
    o := was.(
      httpFailedRefs := was.httpFailedRefs + r.httpFailedRefs, grpcFailedRefs := was.grpcFailedRefs + r.grpcFailedRefs,
      totalRules := was.totalRules + r.ruleCount);
    if r.written {
      o := o.(anyWritten := true);
    }
    if r.err.None? {
      return;
    }
    var failed := MarkPartitions(was.failed, g.partitions, r.err.value);
    o := o.(groupErrs := was.groupErrs + [r.err.value], failed := failed);
  }

  lemma NothingCollected(o: Outcome)
    requires o == Outcome(map[], [], 0, false, [], [])
    ensures IsOutcome(o, [], [])
  {
  }

  method SyncTunnelGroups(gs: seq<Group>, results: seq<GroupResult>) returns (o: Outcome)
    requires |gs| == |results|
    ensures IsOutcome(o, gs, results)
  {
    o := Outcome(map[], [], 0, false, [], []);
    NothingCollected(o);
    for i := 0 to |gs|
      invariant IsOutcome(o, gs[..i], results[..i])
    {
      OutcomeSnoc(o, gs[..i], gs[i], results[..i], results[i]);
      assert gs[..i + 1] == gs[..i] + [gs[i]] && results[..i + 1] == results[..i] + [results[i]];
      o := AddGroup(o, gs[i], results[i]);
    }
    assert gs[..|gs|] == gs && results[..|results|] == results;
  }

  predicate HoldsKey(g: Group, key: string)
  {
    exists p :: p in g.partitions && p.key == key
  }

  lemma {:induction false} MarkFailedExact(failed: Failures, ps: seq<Partition>, err: Error, key: string)
    ensures (exists p :: p in ps && p.key == key) ==>
              key in MarkFailed(failed, ps, err) && MarkFailed(failed, ps, err)[key] == err
    ensures !(exists p :: p in ps && p.key == key) ==>
              (key in MarkFailed(failed, ps, err) <==> key in failed)
              && (key in failed ==> MarkFailed(failed, ps, err)[key] == failed[key])
  {
    if ps == [] {
    } else {
      var front, last := ps[..|ps| - 1], ps[|ps| - 1];
      MarkFailedExact(failed, front, err, key);
      assert ps == front + [last];
      assert last in ps;
      assert forall p :: p in ps <==> p in front || p == last;
    }
  }

  /** A key held by one group only has failed iff that group has, and with that group's error. */
  lemma {:induction false} FailedIffGroupFailed(gs: seq<Group>, errs: seq<Option<Error>>, key: string, i: nat)
    requires |gs| == |errs| && i < |gs| && HoldsKey(gs[i], key)
    requires forall j :: 0 <= j < |gs| && HoldsKey(gs[j], key) ==> j == i
    ensures key in FailedPartitions(gs, errs) <==> errs[i].Some?
    ensures errs[i].Some? ==> FailedPartitions(gs, errs)[key] == errs[i].value
  {
    var m := |gs| - 1;
    var failed := FailedPartitions(gs[..m], errs[..m]);
    if errs[m].Some? {
      MarkFailedExact(failed, gs[m].partitions, errs[m].value, key);
    }
    if i < m {
      assert !HoldsKey(gs[m], key);
      FailedIffGroupFailed(gs[..m], errs[..m], key, i);
    } else {
      UnheldNeverFails(gs[..m], errs[..m], key);
    }
  }

  lemma {:induction false} UnheldNeverFails(gs: seq<Group>, errs: seq<Option<Error>>, key: string)
    requires |gs| == |errs| && forall j :: 0 <= j < |gs| ==> !HoldsKey(gs[j], key)
    ensures key !in FailedPartitions(gs, errs)
  {
    if gs == [] {
    } else {
      var m := |gs| - 1;
      UnheldNeverFails(gs[..m], errs[..m], key);
      assert !HoldsKey(gs[m], key);
      if errs[m].Some? {
        MarkFailedExact(FailedPartitions(gs[..m], errs[..m]), gs[m].partitions, errs[m].value, key);
      }
    }
  }
}
