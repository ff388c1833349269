/**
 Per-partition config pushes (internal/controller/proxy_syncer.go): the locked
 prepare and record phases around a lock-free push, resync, eviction, and the
 steady-state skip they guard.
 */
module PushState {
  import opened Lists
  import opened Routes

  /** `version` counts builds; everything the proxy serves is in `content`. */
  datatype Config = Config(version: nat, content: string)

  /** The content hash; the empty string stands for a config that cannot be hashed. */
  type Hasher = string -> string

  /** The push state of one partition. An empty hash names no pushed config. */
  datatype Target = Target(
    lastCfg: Option<Config>, lastPushedHash: string, lastPushedToken: string, lastPushedEndpoints: set<string>,
    endpointURLs: seq<string>, authToken: string, consecutivePushFail: nat)

  type Targets = map<string, Target>

  const NEW_TARGET := Target(None, "", "", {}, [], "", 0)

  function TargetOf(targets: Targets, key: string): Target
  {
    if key in targets then targets[key] else NEW_TARGET
  }

  predicate EndpointSetsEqual(previous: set<string>, resolved: seq<string>)
  {
    |previous| == |resolved| && forall e :: e in resolved ==> e in previous
  }

  predicate ShouldSkipPush(cfgHash: string, authToken: string, resolved: seq<string>, t: Target)
  {
    && cfgHash != "" && cfgHash == t.lastPushedHash
    && authToken == t.lastPushedToken
    && EndpointSetsEqual(t.lastPushedEndpoints, resolved)
  }

  lemma {:induction false} SetSize(s: seq<string>)
    ensures |ToSet(s)| <= |s|
    ensures |ToSet(s)| == |s| <==> Distinct(s)
  {
    if s == [] {
    } else {
      var front, x := s[..|s| - 1], s[|s| - 1];
      SetSize(front);
      assert s == front + [x];
      if x in front {
        assert ToSet(s) == ToSet(front);
        var i :| 0 <= i < |front| && front[i] == x;
        assert s[i] == s[|s| - 1];
      } else {
        assert ToSet(s) == ToSet(front) + {x};
        assert Distinct(front) ==> Distinct(s);
        assert Distinct(s) ==> Distinct(front);
      }
    }
  }

  /**
   The length-and-membership test compares sets exactly when the resolved list
   has no repetition; with a repetition it accepts a strictly larger previous set.
   */
  lemma EndpointTestExact(previous: set<string>, resolved: seq<string>)
    ensures Distinct(resolved) ==> (EndpointSetsEqual(previous, resolved) <==> previous == ToSet(resolved))
    ensures !Distinct(resolved) && EndpointSetsEqual(previous, resolved) ==> ToSet(resolved) < previous
  {
    SetSize(resolved);
    var now := ToSet(resolved);
    if EndpointSetsEqual(previous, resolved) {
      assert now <= previous;
      SubsetSize(now, previous);
      assert !Distinct(resolved) ==> now != previous;
    }
  }

  lemma SubsetSize(a: set<string>, b: set<string>)
    requires a <= b
    ensures |a| <= |b|
    ensures |a| == |b| ==> a == b
  {
    assert b == a + (b - a);
    assert |b| == |a| + |b - a|;
  }

  lemma RepeatedEndpointAccepted()
    ensures EndpointSetsEqual({"a", "b"}, ["a", "a"])
  {
    var two := {"a", "b"};
    assert |two| == 2;
  }

  // ---------------------------------------------------------------- one critical section each

  function Prepared(
      targets: Targets, key: string, authToken: string, endpoints: seq<string>, resolved: seq<string>, cfgHash: string): Targets
  {
    var t := TargetOf(targets, key).(endpointURLs := endpoints, authToken := authToken);
    targets[key := if ShouldSkipPush(cfgHash, authToken, resolved, t) then t.(consecutivePushFail := 0) else t]
  }

  function Recorded(
      targets: Targets, key: string, authToken: string, cfgHash: string, cfg: Config, resolved: seq<string>,
      failed: bool): Targets
  {
    if key !in targets then targets
    else if failed then
      targets[key := targets[key].(lastPushedHash := "", lastPushedEndpoints := {},
                                   consecutivePushFail := targets[key].consecutivePushFail + 1)]
    else
      targets[key := targets[key].(lastCfg := Some(cfg), lastPushedHash := cfgHash, lastPushedToken := authToken,
                                   lastPushedEndpoints := ToSet(resolved), consecutivePushFail := 0)]
  }

  /** A resync replays the last fully pushed config, when there is one. */
  predicate Replayable(targets: Targets, key: string)
  {
    key in targets && targets[key].lastCfg.Some?
  }

  function Resynced(targets: Targets, key: string, authToken: string, resolved: seq<string>, failed: bool, h: Hasher): Targets
  {
    if !Replayable(targets, key) then targets
    else if failed then
      targets[key := targets[key].(lastPushedHash := "", lastPushedEndpoints := {})]
    else
      targets[key := targets[key].(lastPushedHash := h(targets[key].lastCfg.value.content), lastPushedToken := authToken,
                                   lastPushedEndpoints := ToSet(resolved))]
  }

  function Retained(targets: Targets, keep: set<string>): Targets
  {
    map k | k in targets && (k == SHARED_KEY || k in keep) :: targets[k]
  }

  class ProxySyncer {
    var targets: Targets
    const hash: Hasher

    constructor (hash: Hasher)
      ensures targets == map[] && this.hash == hash
    {
      this.targets := map[];
      this.hash := hash;
    }

    method PreparePush(key: string, authToken: string, endpoints: seq<string>, resolved: seq<string>, cfg: Config)
      returns (cfgHash: string, skip: bool)
      modifies this
      ensures cfgHash == hash(cfg.content)
      ensures skip == ShouldSkipPush(cfgHash, authToken, resolved, old(TargetOf(targets, key)))
      ensures targets == Prepared(old(targets), key, authToken, endpoints, resolved, cfgHash)
    {
      if key !in targets {
        targets := targets[key := NEW_TARGET];
      }
      targets := targets[key := targets[key].(endpointURLs := endpoints, authToken := authToken)];
      cfgHash := hash(cfg.content);
      skip := ShouldSkipPush(cfgHash, authToken, resolved, targets[key]);
      if skip {
        targets := targets[key := targets[key].(consecutivePushFail := 0)];
      }
    }

    method RecordPush(key: string, authToken: string, cfgHash: string, cfg: Config, resolved: seq<string>, pushErr: bool)
      modifies this
      ensures targets == Recorded(old(targets), key, authToken, cfgHash, cfg, resolved, pushErr)
    {
      if key !in targets {
        return;
      }
      var t := targets[key];
      if pushErr {
        var streak := t.consecutivePushFail + 1;
        targets := targets[key := t.(lastPushedHash := "", lastPushedEndpoints := {}, consecutivePushFail := streak)];
        return;
      }
      var pushed := CollectEndpoints(resolved);
      targets := targets[key := t.(lastCfg := Some(cfg), lastPushedHash := cfgHash, lastPushedToken := authToken,
                                   lastPushedEndpoints := pushed, consecutivePushFail := 0)];
    }

    /** `pushErrors` counts the endpoints that refused the replayed config. */
    method ResyncTarget(key: string, authToken: string, resolved: seq<string>, pushErrors: nat) returns (replayed: bool)
      modifies this
      ensures replayed == Replayable(old(targets), key)
      ensures targets == Resynced(old(targets), key, authToken, resolved, pushErrors > 0, hash)
    {
      if key !in targets || targets[key].lastCfg.None? {
        return false;
      }
      var t := targets[key];
      if pushErrors > 0 {
        targets := targets[key := t.(lastPushedHash := "", lastPushedEndpoints := {})];
        return true;
      }
      var pushed := CollectEndpoints(resolved);
      targets := targets[key := t.(lastPushedHash := hash(t.lastCfg.value.content), lastPushedToken := authToken,
                                   lastPushedEndpoints := pushed)];
      return true;
    }

    method RetainPartitions(keep: set<string>)
      modifies this
      ensures targets == Retained(old(targets), keep)
    {
      ghost var was := targets;
      var todo := targets.Keys;
      while todo != {}
        invariant todo <= was.Keys
        invariant forall k :: k in targets ==> k in was && targets[k] == was[k]
        invariant forall k :: k in was ==> (k in targets <==> k in todo || k == SHARED_KEY || k in keep)
      {
        var key :| key in todo;
        todo := todo - {key};
        if key == SHARED_KEY || key in keep {
          continue;
        }
        targets := targets - {key};
      }
    }

    method PushFailureStreak(key: string) returns (n: nat)
      ensures n == TargetOf(targets, key).consecutivePushFail
    {
      if key !in targets {
        return 0;
      }
      return targets[key].consecutivePushFail;
    }
  }

  method CollectEndpoints(resolved: seq<string>) returns (r: set<string>)
    ensures r == ToSet(resolved)
  {
    r := {};
    for i := 0 to |resolved|
      invariant r == ToSet(resolved[..i])
    {
      r := r + {resolved[i]};
      assert resolved[..i + 1] == resolved[..i] + [resolved[i]];
    }
    assert resolved[..|resolved|] == resolved;
  }

  // ---------------------------------------------------------------- runs

  /** What an endpoint last received, and under which token. */
  datatype Delivery = Delivery(cfg: Config, token: string)

  /** A push between its prepare and record phases, with the endpoints reached so far. */
  datatype Op = Op(key: string, token: string, cfg: Config, cfgHash: string, resolved: seq<string>, delivered: set<string>)

  datatype State = State(targets: Targets, held: map<string, Delivery>, ops: map<nat, Op>)

  /**
   Deliver reaches one endpoint of a push in flight. A push may be recorded as
   failed whatever it reached, and as successful only when it reached all its
   endpoints. A resync holds the lock throughout, so it is one step.
   */
  datatype Step =
    | Prepare(id: nat, key: string, token: string, endpoints: seq<string>, resolved: seq<string>, cfg: Config)
    | Deliver(id: nat, endpoint: string)
    | Record(id: nat, failed: bool)
    | Resync(key: string, token: string, resolved: seq<string>, reached: set<string>, failed: bool)
    | Retain(keep: set<string>)

  const START := State(map[], map[], map[])

  predicate Enabled(s: State, step: Step)
  {
    match step
    case Prepare(id, _, _, _, _, _) => id !in s.ops
    case Deliver(id, e) => id in s.ops && e in s.ops[id].resolved
    case Record(id, failed) => id in s.ops && (failed || s.ops[id].delivered == ToSet(s.ops[id].resolved))
    case Resync(_, _, resolved, reached, failed) => reached <= ToSet(resolved) && (failed || reached == ToSet(resolved))
    case Retain(_) => true
  }

  predicate Skips(s: State, step: Step, h: Hasher)
  {
    step.Prepare? && ShouldSkipPush(h(step.cfg.content), step.token, step.resolved, TargetOf(s.targets, step.key))
  }

  /** Steps that are not enabled change nothing. */
  function Exec(s: State, step: Step, h: Hasher): State
  {
    if Enabled(s, step) then Effect(s, step, h) else s
  }

  function Effect(s: State, step: Step, h: Hasher): State
    requires Enabled(s, step)
  {
    match step
    case Prepare(id, key, token, endpoints, resolved, cfg) =>
      var cfgHash := h(cfg.content);
      State(Prepared(s.targets, key, token, endpoints, resolved, cfgHash), s.held,
            if Skips(s, step, h) then s.ops else s.ops[id := Op(key, token, cfg, cfgHash, resolved, {})])
    case Deliver(id, e) =>
      var op := s.ops[id];
      State(s.targets, s.held[e := Delivery(op.cfg, op.token)], s.ops[id := op.(delivered := op.delivered + {e})])
    case Record(id, failed) =>
      var op := s.ops[id];
      State(Recorded(s.targets, op.key, op.token, op.cfgHash, op.cfg, op.resolved, failed), s.held, s.ops - {id})
    case Resync(key, token, resolved, reached, failed) =>
      State(Resynced(s.targets, key, token, resolved, failed, h),
            if Replayable(s.targets, key) then
              s.held + (map e | e in reached :: Delivery(s.targets[key].lastCfg.value, token))
            else s.held,
            s.ops)
    case Retain(keep) => s.(targets := Retained(s.targets, keep))
  }

  /** A push in flight delivers a config of this hash under this token. */
  predicate Names(op: Op, cfgHash: string, token: string)
  {
    op.cfgHash == cfgHash && op.token == token
  }

  predicate Shares(op: Op, endpoints: seq<string>)
  {
    exists e :: e in op.resolved && e in endpoints
  }

  /**
   What may happen beside the pushes in flight. A new push agrees in hash and token
   with every push it shares an endpoint with, unless neither can ever be skipped.
   A resync does not overwrite what a push in flight has already delivered with
   something else, unless that push can never be skipped.
   */
  predicate Compatible(s: State, step: Step, h: Hasher)
  {
    match step
    case Prepare(_, _, token, _, resolved, cfg) =>
      forall id :: id in s.ops && Shares(s.ops[id], resolved) ==> MayOverlap(s.ops[id], h(cfg.content), token)
    case Resync(key, token, _, reached, _) =>
      Replayable(s.targets, key) ==>
        forall id :: id in s.ops && s.ops[id].delivered * reached != {} ==>
          s.ops[id].cfgHash == "" || Names(s.ops[id], h(s.targets[key].lastCfg.value.content), token)
    case _ => true
  }

  predicate MayOverlap(op: Op, cfgHash: string, token: string)
  {
    Names(op, cfgHash, token) || (op.cfgHash == "" && cfgHash == "")
  }

  /** Distinct partitions have distinct endpoints. */
  predicate Owned(step: Step, owner: string -> string)
  {
    (step.Prepare? || step.Resync?) ==> forall e :: e in step.resolved ==> owner(e) == step.key
  }

  function Run(steps: seq<Step>, h: Hasher): State
  {
    if steps == [] then START else Exec(Run(steps[..|steps| - 1], h), steps[|steps| - 1], h)
  }

  ghost predicate Obeys(s: State, step: Step, h: Hasher, owner: string -> string)
  {
    (Skips(s, step, h) || Compatible(s, step, h)) && Owned(step, owner)
  }

  /** A run in which only compatible pushes of one partition overlap; different partitions interleave freely. */
  ghost predicate Disciplined(steps: seq<Step>, h: Hasher, owner: string -> string)
  {
    forall i :: 0 <= i < |steps| ==> Obeys(Run(steps[..i], h), steps[i], h, owner)
  }

  /** Endpoint `e` holds a config with this hash, delivered under this token. */
  predicate Holds(s: State, e: string, cfgHash: string, token: string, h: Hasher)
  {
    e in s.held && h(s.held[e].cfg.content) == cfgHash && s.held[e].token == token
  }

  /** Every push in flight that can still reach `e` delivers this. */
  ghost predicate Undisturbed(s: State, e: string, cfgHash: string, token: string)
  {
    forall id :: id in s.ops && e in s.ops[id].resolved ==> Names(s.ops[id], cfgHash, token)
  }

  /** The skip key tells the truth about every endpoint that no other push can reach. */
  ghost predicate TargetTruthful(s: State, key: string, h: Hasher, owner: string -> string)
  {
    key in s.targets ==>
      var t := s.targets[key];
      forall e :: e in t.lastPushedEndpoints ==>
        && owner(e) == key
        && (t.lastPushedHash != "" && Undisturbed(s, e, t.lastPushedHash, t.lastPushedToken) ==>
              Holds(s, e, t.lastPushedHash, t.lastPushedToken, h))
  }

  ghost predicate OpTruthful(s: State, id: nat, h: Hasher, owner: string -> string)
    requires id in s.ops
  {
    var op := s.ops[id];
    && op.cfgHash == h(op.cfg.content)
    && (forall e :: e in op.resolved ==> owner(e) == op.key)
    && (forall e :: e in op.delivered ==> e in op.resolved)
    && (op.cfgHash != "" ==> forall e :: e in op.delivered ==> Holds(s, e, op.cfgHash, op.token, h))
    && (forall other :: other in s.ops && Shares(s.ops[other], op.resolved) ==> MayOverlap(s.ops[other], op.cfgHash, op.token))
  }

  ghost predicate Truthful(s: State, h: Hasher, owner: string -> string)
  {
    && (forall key :: TargetTruthful(s, key, h, owner))
    && (forall id :: id in s.ops ==> OpTruthful(s, id, h, owner))
  }

  lemma PrepareKeepsTruth(s: State, step: Step, h: Hasher, owner: string -> string)
    requires Truthful(s, h, owner) && step.Prepare? && Enabled(s, step) && Obeys(s, step, h, owner)
    ensures Truthful(Exec(s, step, h), h, owner)
  {
    var n := Exec(s, step, h);
    assert forall id :: id in s.ops ==> id in n.ops && n.ops[id] == s.ops[id];
    assert forall e, cfgHash, token :: Undisturbed(n, e, cfgHash, token) ==> Undisturbed(s, e, cfgHash, token);
    forall key ensures TargetTruthful(n, key, h, owner) {
      assert TargetTruthful(s, key, h, owner);
    }
    forall id | id in n.ops ensures OpTruthful(n, id, h, owner) {
      assert id in s.ops ==> OpTruthful(s, id, h, owner);
      if !Skips(s, step, h) {
        NewOpCompatible(s, n, step, id, h);
      }
    }
  }

  /** The pairs of pushes in flight stay compatible when one more starts. */
  lemma NewOpCompatible(s: State, n: State, step: Step, id: nat, h: Hasher)
    requires step.Prepare? && step.id !in s.ops && Compatible(s, step, h) && id in n.ops
    requires n.ops == s.ops[step.id := Op(step.key, step.token, step.cfg, h(step.cfg.content), step.resolved, {})]
    requires forall other :: id in s.ops && other in s.ops && Shares(s.ops[other], s.ops[id].resolved) ==>
               MayOverlap(s.ops[other], s.ops[id].cfgHash, s.ops[id].token)
    ensures forall other :: other in n.ops && Shares(n.ops[other], n.ops[id].resolved) ==>
              MayOverlap(n.ops[other], n.ops[id].cfgHash, n.ops[id].token)
  {
    var mine := n.ops[step.id];
    forall other | other in n.ops && Shares(n.ops[other], n.ops[id].resolved)
      ensures MayOverlap(n.ops[other], n.ops[id].cfgHash, n.ops[id].token)
    {
      if id == step.id && other != id {
        assert Shares(s.ops[other], step.resolved);
      } else if other == step.id && other != id {
        assert Shares(s.ops[id], step.resolved);
      }
    }
  }

  lemma DeliverKeepsTruth(s: State, step: Step, h: Hasher, owner: string -> string)
    requires Truthful(s, h, owner) && step.Deliver? && Enabled(s, step)
    ensures Truthful(Exec(s, step, h), h, owner)
  {
    var n := Exec(s, step, h);
    var op := s.ops[step.id];
    assert OpTruthful(s, step.id, h, owner);
    forall key ensures TargetTruthful(n, key, h, owner) {
      assert TargetTruthful(s, key, h, owner);
      forall e, cfgHash, token | Undisturbed(n, e, cfgHash, token)
        ensures Undisturbed(s, e, cfgHash, token) && (e == step.endpoint ==> Names(op, cfgHash, token))
      {
        assert n.ops[step.id].resolved == op.resolved;
        assert forall id :: id in s.ops ==> id in n.ops && n.ops[id].resolved == s.ops[id].resolved;
      }
    }
    forall id | id in n.ops ensures OpTruthful(n, id, h, owner) {
      assert OpTruthful(s, id, h, owner);
      DeliverKeepsOps(s, n, step, id, h, owner);
    }
  }

  lemma DeliverKeepsOps(s: State, n: State, step: Step, id: nat, h: Hasher, owner: string -> string)
    requires Truthful(s, h, owner) && step.Deliver? && Enabled(s, step) && n == Exec(s, step, h) && id in n.ops
    ensures OpTruthful(n, id, h, owner)
  {
    var op := s.ops[id];
    assert OpTruthful(s, id, h, owner) && OpTruthful(s, step.id, h, owner);
    assert step.endpoint in op.resolved ==> Shares(s.ops[step.id], op.resolved);
    forall other | other in n.ops && Shares(n.ops[other], n.ops[id].resolved)
      ensures MayOverlap(n.ops[other], n.ops[id].cfgHash, n.ops[id].token)
    {
      assert Shares(s.ops[other], op.resolved);
    }
  }

  lemma RecordKeepsTruth(s: State, step: Step, h: Hasher, owner: string -> string)
    requires Truthful(s, h, owner) && step.Record? && Enabled(s, step)
    ensures Truthful(Exec(s, step, h), h, owner)
  {
    var n := Exec(s, step, h);
    var op := s.ops[step.id];
    assert OpTruthful(s, step.id, h, owner);
    forall key ensures TargetTruthful(n, key, h, owner) {
      assert TargetTruthful(s, key, h, owner);
      if key != op.key {
        forall e, cfgHash, token | owner(e) == key && Undisturbed(n, e, cfgHash, token)
          ensures Undisturbed(s, e, cfgHash, token)
        {
          assert forall id :: id in s.ops && e in s.ops[id].resolved ==> id in n.ops && n.ops[id] == s.ops[id];
        }
      }
    }
    assert forall id :: id in n.ops ==> id in s.ops && n.ops[id] == s.ops[id];
    forall id | id in n.ops ensures OpTruthful(n, id, h, owner) {
      assert OpTruthful(s, id, h, owner);
    }
  }

  lemma ResyncKeepsTruth(s: State, step: Step, h: Hasher, owner: string -> string)
    requires Truthful(s, h, owner) && step.Resync? && Enabled(s, step) && Obeys(s, step, h, owner)
    ensures Truthful(Exec(s, step, h), h, owner)
  {
    var n := Exec(s, step, h);
    assert forall e, cfgHash, token :: Undisturbed(n, e, cfgHash, token) ==> Undisturbed(s, e, cfgHash, token);
    forall key ensures TargetTruthful(n, key, h, owner) {
      assert TargetTruthful(s, key, h, owner);
    }
    forall id | id in n.ops ensures OpTruthful(n, id, h, owner) {
      assert OpTruthful(s, id, h, owner);
      assert forall e :: e in s.ops[id].delivered && e in step.reached ==> e in s.ops[id].delivered * step.reached;
    }
  }

  lemma RetainKeepsTruth(s: State, step: Step, h: Hasher, owner: string -> string)
    requires Truthful(s, h, owner) && step.Retain? && Enabled(s, step)
    ensures Truthful(Exec(s, step, h), h, owner)
  {
    var n := Exec(s, step, h);
    assert forall e, cfgHash, token :: Undisturbed(n, e, cfgHash, token) ==> Undisturbed(s, e, cfgHash, token);
    forall key ensures TargetTruthful(n, key, h, owner) {
      assert TargetTruthful(s, key, h, owner);
    }
    forall id | id in n.ops ensures OpTruthful(n, id, h, owner) {
      assert OpTruthful(s, id, h, owner);
    }
  }

  lemma ExecKeepsTruth(s: State, step: Step, h: Hasher, owner: string -> string)
    requires Truthful(s, h, owner) && Obeys(s, step, h, owner)
    ensures Truthful(Exec(s, step, h), h, owner)
  {
    if Enabled(s, step) {
      match step
      case Prepare(_, _, _, _, _, _) => PrepareKeepsTruth(s, step, h, owner);
      case Deliver(_, _) => DeliverKeepsTruth(s, step, h, owner);
      case Record(_, _) => RecordKeepsTruth(s, step, h, owner);
      case Resync(_, _, _, _, _) => ResyncKeepsTruth(s, step, h, owner);
      case Retain(_) => RetainKeepsTruth(s, step, h, owner);
    }
  }

  lemma {:induction false} RunTruthful(steps: seq<Step>, h: Hasher, owner: string -> string)
    requires Disciplined(steps, h, owner)
    ensures Truthful(Run(steps, h), h, owner)
  {
    if steps == [] {
      assert Run(steps, h) == START;
    } else {
      var m := |steps| - 1;
      forall i | 0 <= i < m ensures Obeys(Run(steps[..m][..i], h), steps[..m][i], h, owner) {
        assert steps[..m][..i] == steps[..i];
      }
      RunTruthful(steps[..m], h, owner);
      ExecKeepsTruth(Run(steps[..m], h), steps[m], h, owner);
    }
  }

  /** A skip in a truthful state that is compatible with the pushes in flight is right. */
  lemma TruthfulSkip(s: State, next: Step, h: Hasher, owner: string -> string)
    requires Truthful(s, h, owner) && Compatible(s, next, h) && Skips(s, next, h)
    ensures forall e :: e in next.resolved ==> Holds(s, e, h(next.cfg.content), next.token, h)
  {
    assert TargetTruthful(s, next.key, h, owner);
    forall e | e in next.resolved ensures Undisturbed(s, e, h(next.cfg.content), next.token) {
      forall id | id in s.ops && e in s.ops[id].resolved ensures Names(s.ops[id], h(next.cfg.content), next.token) {
        assert Shares(s.ops[id], next.resolved);
      }
    }
  }

  /**
   Whenever a disciplined run skips a push, every resolved endpoint already
   holds a config with the desired hash, delivered under the current token.
   */
  lemma {:induction false} SkipIsSound(steps: seq<Step>, next: Step, h: Hasher, owner: string -> string)
    requires Disciplined(steps, h, owner) && Compatible(Run(steps, h), next, h) && Skips(Run(steps, h), next, h)
    ensures forall e :: e in next.resolved ==> Holds(Run(steps, h), e, h(next.cfg.content), next.token, h)
  {
    RunTruthful(steps, h, owner);
    TruthfulSkip(Run(steps, h), next, h, owner);
  }

  /** With a hash that tells contents apart, the endpoints hold the very content that was not pushed. */
  lemma {:induction false} SkippedContentHeld(steps: seq<Step>, next: Step, h: Hasher, owner: string -> string, e: string)
    requires Disciplined(steps, h, owner) && Compatible(Run(steps, h), next, h) && Skips(Run(steps, h), next, h)
    requires forall a, b :: h(a) == h(b) && h(a) != "" ==> a == b
    requires e in next.resolved
    ensures e in Run(steps, h).held && Run(steps, h).held[e].cfg.content == next.cfg.content
  {
    SkipIsSound(steps, next, h, owner);
    assert Holds(Run(steps, h), e, h(next.cfg.content), next.token, h);
  }

  // ---------------------------------------------------------------- failures

  /** The partition has no skip key. */
  predicate Invalidated(s: State, key: string)
  {
    key !in s.targets || s.targets[key].lastPushedHash == ""
  }

  /** A step that leaves a partition without a skip key: a failed push or resync of it, or its eviction. */
  predicate Invalidates(s: State, step: Step, key: string)
  {
    match step
    case Record(id, failed) => failed && id in s.ops && s.ops[id].key == key
    case Resync(k, _, _, _, failed) => failed && k == key
    case Retain(keep) => key != SHARED_KEY && key !in keep
    case _ => false
  }

  /** A step that can give a partition a skip key: only a successful push or resync of it. */
  predicate Revalidates(s: State, step: Step, key: string)
  {
    match step
    case Record(id, failed) => !failed && id in s.ops && s.ops[id].key == key
    case Resync(k, _, _, _, failed) => !failed && k == key
    case _ => false
  }

  /** Only a config that was fully pushed is named by a skip key. */
  lemma {:induction false} KeyNeedsConfig(steps: seq<Step>, h: Hasher, key: string)
    ensures var targets := Run(steps, h).targets;
            key in targets && targets[key].lastCfg.None? ==> targets[key].lastPushedHash == ""
  {
    if steps == [] {
    } else {
      KeyNeedsConfig(steps[..|steps| - 1], h, key);
    }
  }

  lemma StepKeepsInvalidated(s: State, step: Step, key: string, h: Hasher)
    requires Invalidated(s, key) && !Revalidates(s, step, key)
    ensures Invalidated(Exec(s, step, h), key)
  {
  }

  lemma {:induction false} StaysInvalidated(steps: seq<Step>, n: nat, key: string, h: Hasher)
    requires n <= |steps| && Invalidated(Run(steps[..n], h), key)
    requires forall i :: n <= i < |steps| ==> !Revalidates(Run(steps[..i], h), steps[i], key)
    ensures Invalidated(Run(steps, h), key)
  {
    if n == |steps| {
      assert steps[..n] == steps;
    } else {
      var m := |steps| - 1;
      var front := steps[..m];
      assert front[..n] == steps[..n];
      forall i | n <= i < m ensures !Revalidates(Run(front[..i], h), front[i], key) {
        assert front[..i] == steps[..i];
      }
      StaysInvalidated(front, n, key, h);
      StepKeepsInvalidated(Run(front, h), steps[m], key, h);
    }
  }

  /**
   After a failed push, a failed resync or an eviction, in any run at all, no
   sync of that partition skips until one of its pushes or resyncs succeeds.
   */
  lemma {:induction false} NoSkipAfterFailure(steps: seq<Step>, n: nat, next: Step, h: Hasher)
    requires 0 < n <= |steps| && next.Prepare?
    requires Enabled(Run(steps[..n - 1], h), steps[n - 1]) && Invalidates(Run(steps[..n - 1], h), steps[n - 1], next.key)
    requires forall i :: n <= i < |steps| ==> !Revalidates(Run(steps[..i], h), steps[i], next.key)
    ensures !Skips(Run(steps, h), next, h)
  {
    assert steps[..n][..n - 1] == steps[..n - 1];
    KeyNeedsConfig(steps[..n - 1], h, next.key);
    StaysInvalidated(steps, n, next.key, h);
  }

  /** In the steady state the skip does happen: right after a successful push, the same config is not pushed again. */
  lemma SteadyStateSkips(s: State, id: nat, next: Step, h: Hasher)
    requires Enabled(s, Record(id, false)) && s.ops[id].key in s.targets && s.ops[id].cfgHash == h(s.ops[id].cfg.content)
    requires next.Prepare? && next.key == s.ops[id].key && next.token == s.ops[id].token
    requires h(next.cfg.content) == s.ops[id].cfgHash != ""
    requires Distinct(next.resolved) && ToSet(next.resolved) == ToSet(s.ops[id].resolved)
    ensures Skips(Exec(s, Record(id, false), h), next, h)
  {
    EndpointTestExact(ToSet(s.ops[id].resolved), next.resolved);
  }

  // ---------------------------------------------------------------- failure streaks

  /** What a run tells about the health of a partition, one entry for each push recorded, skipped or begun anew. */
  datatype Outcome = Failed | Clean

  function Outcomes(steps: seq<Step>, h: Hasher, key: string): seq<Outcome>
  {
    if steps == [] then []
    else
      var s, step := Run(steps[..|steps| - 1], h), steps[|steps| - 1];
      Outcomes(steps[..|steps| - 1], h, key) + (if Enabled(s, step) then OutcomeOf(s, step, h, key) else [])
  }

  /** A push is recorded on an existing target, or skipped; or the target is created or evicted. */
  function OutcomeOf(s: State, step: Step, h: Hasher, key: string): seq<Outcome>
    requires Enabled(s, step)
  {
    match step
    case Record(id, failed) => if s.ops[id].key == key && key in s.targets then [if failed then Failed else Clean] else []
    case Prepare(_, k, _, _, _, _) => if k == key && (key !in s.targets || Skips(s, step, h)) then [Clean] else []
    case Retain(keep) => if key != SHARED_KEY && key !in keep then [Clean] else []
    case _ => []
  }

  /** `n` is the number of failures at the end, back to the last clean outcome. */
  predicate FailuresInARow(outcomes: seq<Outcome>, n: nat)
  {
    && n <= |outcomes|
    && (forall i :: |outcomes| - n <= i < |outcomes| ==> outcomes[i] == Failed)
    && (n < |outcomes| ==> outcomes[|outcomes| - n - 1] == Clean)
  }

  lemma OneMoreOutcome(outcomes: seq<Outcome>, n: nat, o: Outcome)
    requires FailuresInARow(outcomes, n)
    ensures FailuresInARow(outcomes + [o], if o == Failed then n + 1 else 0)
  {
  }

  /** One step changes the count as the outcomes it adds say. */
  lemma StreakStep(s: State, step: Step, h: Hasher, key: string)
    requires Enabled(s, step)
    ensures var was, now, more := TargetOf(s.targets, key).consecutivePushFail,
                                  TargetOf(Exec(s, step, h).targets, key).consecutivePushFail, OutcomeOf(s, step, h, key);
            if more == [] then now == was else |more| == 1 && now == if more[0] == Failed then was + 1 else 0
  {
  }

  /** In every run the streak is the number of failed pushes since the last success, skip, creation or eviction. */
  lemma {:induction false} StreakCounts(steps: seq<Step>, h: Hasher, key: string)
    ensures FailuresInARow(Outcomes(steps, h, key), TargetOf(Run(steps, h).targets, key).consecutivePushFail)
  {
    if steps == [] {
    } else {
      var front, step := steps[..|steps| - 1], steps[|steps| - 1];
      var s, outcomes := Run(front, h), Outcomes(front, h, key);
      StreakCounts(front, h, key);
      if Enabled(s, step) {
        StreakStep(s, step, h, key);
        var more := OutcomeOf(s, step, h, key);
        if more != [] {
          assert more == [more[0]];
          OneMoreOutcome(outcomes, TargetOf(s.targets, key).consecutivePushFail, more[0]);
        } else {
          assert outcomes + more == outcomes;
        }
      } else {
        assert outcomes + [] == outcomes;
      }
    }
  }

  // ---------------------------------------------------------------- the history of a target

  /** What happens to the target of a partition, apart from its creation and eviction. */
  datatype Event =
    | Configured(endpoints: seq<string>, token: string)
    | Pushed(cfg: Config, token: string, resolved: seq<string>)
    | PushFailed
    | Replayed(token: string, resolved: seq<string>)
    | ReplayFailed

  /** The events since the target was last created; None while there is no target. */
  function History(steps: seq<Step>, h: Hasher, key: string): Option<seq<Event>>
  {
    if steps == [] then None
    else
      var front, step := steps[..|steps| - 1], steps[|steps| - 1];
      var was := History(front, h, key);
      if Enabled(Run(front, h), step) then Continued(was, step, Run(front, h).ops, key) else was
  }

  function Continued(was: Option<seq<Event>>, step: Step, ops: map<nat, Op>, key: string): Option<seq<Event>>
  {
    match step
    case Prepare(_, k, token, endpoints, _, _) =>
      if k != key then was else Some((if was.Some? then was.value else []) + [Configured(endpoints, token)])
    case Record(id, failed) =>
      if was.None? || id !in ops || ops[id].key != key then was
      else Some(was.value + [if failed then PushFailed else Pushed(ops[id].cfg, ops[id].token, ops[id].resolved)])
    case Resync(k, token, resolved, _, failed) =>
      if was.None? || k != key || LastPush(was.value).None? then was
      else Some(was.value + [if failed then ReplayFailed else Replayed(token, resolved)])
    case Retain(keep) =>
      if key == "shared" || key in keep then was else None
    case Deliver(_, _) => was
  }

  /** The last of the events that satisfies `p`. */
  function LastOf(events: seq<Event>, p: Event -> bool): Option<Event>
  {
    if events == [] then None
    else if p(events[|events| - 1]) then Some(events[|events| - 1])
    else LastOf(events[..|events| - 1], p)
  }

  lemma {:induction false} LastOfSnoc(events: seq<Event>, e: Event, p: Event -> bool)
    ensures LastOf(events + [e], p) == if p(e) then Some(e) else LastOf(events, p)
  {
    assert (events + [e])[..|events|] == events;
  }

  function LastPush(events: seq<Event>): (r: Option<Event>)
    ensures r.Some? ==> r.value.Pushed?
  {
    LastOfHolds(events, (e: Event) => e.Pushed?);
    LastOf(events, (e: Event) => e.Pushed?)
  }

  lemma {:induction false} LastOfHolds(events: seq<Event>, p: Event -> bool)
    ensures LastOf(events, p).Some? ==> p(LastOf(events, p).value)
  {
    if events == [] {
    } else {
      LastOfHolds(events[..|events| - 1], p);
    }
  }

  /** The last event that says something about what the endpoints hold. */
  function LastDelivery(events: seq<Event>): Option<Event>
  {
    LastOf(events, (e: Event) => !e.Configured?)
  }

  function LastConfigured(events: seq<Event>): Option<Event>
  {
    LastOf(events, (e: Event) => e.Configured?)
  }

  /** The config of the last push recorded as a success. */
  function LastCfg(events: seq<Event>): Option<Config>
  {
    if LastPush(events).Some? then Some(LastPush(events).value.cfg) else None
  }

  /** The skip key that the last delivery leaves behind. */
  predicate KeyFrom(t: Target, events: seq<Event>, h: Hasher)
  {
    match LastDelivery(events)
    case None => t.lastPushedHash == "" && t.lastPushedEndpoints == {}
    case Some(PushFailed) => t.lastPushedHash == "" && t.lastPushedEndpoints == {}
    case Some(ReplayFailed) => t.lastPushedHash == "" && t.lastPushedEndpoints == {}
    case Some(Pushed(cfg, token, resolved)) =>
      t.lastPushedHash == h(cfg.content) && t.lastPushedToken == token && t.lastPushedEndpoints == ToSet(resolved)
    case Some(Replayed(token, resolved)) =>
      && LastCfg(events).Some? && t.lastPushedHash == h(LastCfg(events).value.content)
      && t.lastPushedToken == token && t.lastPushedEndpoints == ToSet(resolved)
    case Some(Configured(_, _)) => false
  }

  /** The target is what its history makes of it. */
  predicate Remembers(t: Target, events: seq<Event>, h: Hasher)
  {
    && t.lastCfg == LastCfg(events) && KeyFrom(t, events, h)
    && LastConfigured(events) == Some(Configured(t.endpointURLs, t.authToken))
  }

  lemma OneMoreEvent(events: seq<Event>, e: Event)
    ensures LastCfg(events + [e]) == if e.Pushed? then Some(e.cfg) else LastCfg(events)
    ensures LastDelivery(events + [e]) == if e.Configured? then LastDelivery(events) else Some(e)
    ensures LastConfigured(events + [e]) == if e.Configured? then Some(e) else LastConfigured(events)
  {
    LastOfSnoc(events, e, (x: Event) => x.Pushed?);
    LastOfSnoc(events, e, (x: Event) => !x.Configured?);
    LastOfSnoc(events, e, (x: Event) => x.Configured?);
  }

  ghost predicate HistoryHolds(s: State, history: Option<seq<Event>>, key: string, h: Hasher)
  {
    && (key in s.targets <==> history.Some?)
    && (key in s.targets ==> Remembers(s.targets[key], history.value, h))
    && (forall id :: id in s.ops ==> s.ops[id].cfgHash == h(s.ops[id].cfg.content))
  }

  lemma FirstEvent(e: Event, h: Hasher, t: Target)
    requires e.Configured? && t == NEW_TARGET.(endpointURLs := e.endpoints, authToken := e.token)
    ensures Remembers(t, [] + [e], h)
  {
    OneMoreEvent([], e);
  }

  lemma HistoryStep(s: State, was: Option<seq<Event>>, step: Step, key: string, h: Hasher)
    requires HistoryHolds(s, was, key, h) && Enabled(s, step)
    ensures HistoryHolds(Exec(s, step, h), Continued(was, step, s.ops, key), key, h)
  {
    var n := Exec(s, step, h);
    var now := Continued(was, step, s.ops, key);
    if was.Some? && now.Some? && now != was {
      var e := now.value[|now.value| - 1];
      assert now.value == was.value + [e];
      OneMoreEvent(was.value, e);
    }
    if was.None? && now.Some? {
      FirstEvent(now.value[0], h, NEW_TARGET.(endpointURLs := step.endpoints, authToken := step.token));
    }
  }

  /**
   In every run, whatever overlaps: a partition has a target iff one was created and not
   evicted since, and then the target remembers the config of the last successful push,
   the skip key of the last delivery, and the endpoints and token of the last sync.
   */
  lemma {:induction false} TargetRemembers(steps: seq<Step>, h: Hasher, key: string)
    ensures HistoryHolds(Run(steps, h), History(steps, h, key), key, h)
  {
    if steps == [] {
    } else {
      var front, step := steps[..|steps| - 1], steps[|steps| - 1];
      TargetRemembers(front, h, key);
      if Enabled(Run(front, h), step) {
        HistoryStep(Run(front, h), History(front, h, key), step, key, h);
      }
    }
  }

  /** The last thing that happened to the endpoints was a full delivery of a config with this hash, under this token. */
  predicate LastDelivered(events: seq<Event>, cfgHash: string, token: string, endpoints: set<string>, h: Hasher)
  {
    match LastDelivery(events)
    case Some(Pushed(cfg, t, resolved)) => h(cfg.content) == cfgHash && t == token && ToSet(resolved) == endpoints
    case Some(Replayed(t, resolved)) =>
      LastCfg(events).Some? && h(LastCfg(events).value.content) == cfgHash && t == token && ToSet(resolved) == endpoints
    case _ => false
  }

  /**
   In every run, a sync with a list of endpoints without repetition is skipped exactly
   when its config can be hashed and the last thing that happened to the endpoints was a
   full delivery of that hash, under that token, to exactly those endpoints.
   */
  lemma {:induction false} SkipsIff(steps: seq<Step>, next: Step, h: Hasher)
    requires next.Prepare? && Distinct(next.resolved)
    ensures Skips(Run(steps, h), next, h) <==>
            && h(next.cfg.content) != "" && History(steps, h, next.key).Some?
            && LastDelivered(History(steps, h, next.key).value, h(next.cfg.content), next.token, ToSet(next.resolved), h)
  {
    TargetRemembers(steps, h, next.key);
    EndpointTestExact(TargetOf(Run(steps, h).targets, next.key).lastPushedEndpoints, next.resolved);
  }

  /** Every endpoint a resync reaches holds the config of the last successful push, under the token of the resync. */
  lemma {:induction false} ResyncReplaysLastPush(steps: seq<Step>, step: Step, h: Hasher, e: string)
    requires step.Resync? && Enabled(Run(steps, h), step) && e in step.reached
    requires History(steps, h, step.key).Some? && LastCfg(History(steps, h, step.key).value).Some?
    ensures var n := Exec(Run(steps, h), step, h);
            e in n.held && n.held[e] == Delivery(LastCfg(History(steps, h, step.key).value).value, step.token)
  {
    TargetRemembers(steps, h, step.key);
  }

  // ---------------------------------------------------------------- incompatible overlap

  /** The state after more steps from `s`. */
  function After(s: State, more: seq<Step>, h: Hasher): State
  {
    if more == [] then s else Exec(After(s, more[..|more| - 1], h), more[|more| - 1], h)
  }

  /** Steps that start nothing: pushes in flight deliver and are recorded. */
  predicate Settles(more: seq<Step>)
  {
    forall step :: step in more ==> step.Deliver? || step.Record?
  }

  /** `n` is one of the states in which the pushes in flight in `s` can leave things. */
  ghost predicate Settled(s: State, n: State, h: Hasher)
  {
    exists more :: Settles(more) && After(s, more, h) == n
  }

  lemma SettledAtOnce(s: State, h: Hasher)
    ensures Settled(s, s, h)
  {
    assert After(s, [], h) == s;
  }

  lemma {:induction false} SettleMore(s: State, m: State, step: Step, h: Hasher)
    requires Settled(s, m, h) && (step.Deliver? || step.Record?)
    ensures Settled(s, Exec(m, step, h), h)
  {
    var more :| Settles(more) && After(s, more, h) == m;
    var longer := more + [step];
    assert longer[..|longer| - 1] == more && longer[|longer| - 1] == step;
    assert After(s, longer, h) == Exec(m, step, h);
  }

  predicate SkipsWrongly(s: State, next: Step, h: Hasher)
  {
    Skips(s, next, h) && exists e :: e in next.resolved && !Holds(s, e, h(next.cfg.content), next.token, h)
  }

  /** The endpoints of a list, each once. */
  function Once(endpoints: seq<string>): (r: seq<string>)
    ensures Distinct(r) && ToSet(r) == ToSet(endpoints)
  {
    if endpoints == [] then []
    else
      var front, last := Once(endpoints[..|endpoints| - 1]), endpoints[|endpoints| - 1];
      assert endpoints == endpoints[..|endpoints| - 1] + [last];
      assert ToSet(endpoints) == ToSet(front) + {last};
      if last in front then front else front + [last]
  }

  predicate NamedBy(t: Target, a: Op)
  {
    t.lastPushedHash == a.cfgHash && t.lastPushedToken == a.token && t.lastPushedEndpoints == ToSet(a.resolved)
  }

  /** Nothing is in flight and the skip key is that of the push `a`, but `e` holds something else. */
  predicate Mistaken(s: State, a: Op, e: string, h: Hasher)
  {
    && s.ops == map[] && a.key in s.targets && NamedBy(s.targets[a.key], a)
    && a.cfgHash == h(a.cfg.content) != ""
    && e in a.resolved && !Holds(s, e, a.cfgHash, a.token, h)
  }

  lemma MistakenSkips(s: State, a: Op, e: string, h: Hasher) returns (next: Step)
    requires Mistaken(s, a, e, h)
    ensures Compatible(s, next, h) && SkipsWrongly(s, next, h)
  {
    next := Prepare(0, a.key, a.token, [], Once(a.resolved), a.cfg);
    EndpointTestExact(s.targets[a.key].lastPushedEndpoints, next.resolved);
    assert e in ToSet(next.resolved);
  }

  function Kept(ops: map<nat, Op>, keep: set<nat>): map<nat, Op>
  {
    map id | id in ops && id in keep :: ops[id]
  }

  lemma KeptWithout(ops: map<nat, Op>, keep: set<nat>, id: nat)
    requires id !in keep
    ensures Kept(ops - {id}, keep) == Kept(ops, keep)
    ensures (ops - {id}).Keys - keep == (ops.Keys - keep) - {id}
  {
  }

  lemma KeptAll(ops: map<nat, Op>, keep: set<nat>)
    requires ops.Keys - keep == {}
    ensures Kept(ops, keep) == ops
  {
    assert forall id :: id in ops ==> id !in ops.Keys - keep;
  }

  lemma FailOne(s: State, m: State, id: nat, h: Hasher) returns (n: State)
    requires Settled(s, m, h) && id in m.ops
    ensures Settled(s, n, h)
    ensures n.held == m.held && n.ops == m.ops - {id} && n.targets.Keys == m.targets.Keys
  {
    SettleMore(s, m, Record(id, true), h);
    n := Exec(m, Record(id, true), h);
  }

  /** Every push outside `keep` is recorded as failed. */
  lemma {:induction false} FailOthers(s: State, m: State, keep: set<nat>, h: Hasher) returns (n: State)
    requires Settled(s, m, h)
    ensures Settled(s, n, h)
    ensures n.held == m.held && n.ops == Kept(m.ops, keep) && n.targets.Keys == m.targets.Keys
    decreases |m.ops.Keys - keep|
  {
    var others := m.ops.Keys - keep;
    if others == {} {
      KeptAll(m.ops, keep);
      n := m;
    } else {
      var id :| id in others;
      KeptWithout(m.ops, keep, id);
      n := FailOne(s, m, id, h);
      n := FailOthers(s, n, keep, h);
    }
  }

  /** `op` after it has reached these endpoints, too. */
  function Reaching(op: Op, endpoints: set<string>): Op
  {
    op.(delivered := op.delivered + endpoints)
  }

  /** These endpoints now hold `d`, the others what they held. */
  ghost predicate Spread(now: map<string, Delivery>, was: map<string, Delivery>, endpoints: set<string>, d: Delivery)
  {
    && now.Keys == was.Keys + endpoints
    && forall e :: e in now ==> now[e] == if e in endpoints then d else was[e]
  }

  lemma DeliverOne(s: State, m: State, id: nat, e: string, h: Hasher) returns (n: State)
    requires Settled(s, m, h) && id in m.ops && e in m.ops[id].resolved
    ensures Settled(s, n, h)
    ensures n.targets == m.targets && n.ops == m.ops[id := Reaching(m.ops[id], {e})]
    ensures n.held == m.held[e := Delivery(m.ops[id].cfg, m.ops[id].token)]
  {
    SettleMore(s, m, Deliver(id, e), h);
    n := Exec(m, Deliver(id, e), h);
  }

  lemma ReachingTwice(op: Op, e: string, endpoints: set<string>)
    requires e in endpoints
    ensures Reaching(Reaching(op, {e}), endpoints - {e}) == Reaching(op, endpoints)
  {
    assert op.delivered + {e} + (endpoints - {e}) == op.delivered + endpoints;
  }

  /** The push `id` reaches these endpoints. */
  lemma {:induction false} DeliverAll(s: State, m: State, id: nat, endpoints: set<string>, h: Hasher) returns (n: State)
    requires Settled(s, m, h) && id in m.ops && forall e :: e in endpoints ==> e in m.ops[id].resolved
    ensures Settled(s, n, h)
    ensures n.targets == m.targets && n.ops == m.ops[id := Reaching(m.ops[id], endpoints)]
    ensures Spread(n.held, m.held, endpoints, Delivery(m.ops[id].cfg, m.ops[id].token))
    decreases endpoints
  {
    if endpoints == {} {
      n := m;
      assert Reaching(m.ops[id], {}) == m.ops[id];
    } else {
      var e :| e in endpoints;
      var k := DeliverOne(s, m, id, e, h);
      n := DeliverAll(s, k, id, endpoints - {e}, h);
      ReachingTwice(m.ops[id], e, endpoints);
    }
  }

  /** A push that has reached all its endpoints is recorded and names the skip key. */
  lemma RecordNames(s: State, m: State, id: nat, h: Hasher) returns (n: State)
    requires Settled(s, m, h) && id in m.ops && m.ops[id].delivered == ToSet(m.ops[id].resolved) && m.ops[id].key in m.targets
    ensures Settled(s, n, h)
    ensures n.held == m.held && n.ops == m.ops - {id} && n.targets.Keys == m.targets.Keys
    ensures NamedBy(n.targets[m.ops[id].key], m.ops[id])
  {
    SettleMore(s, m, Record(id, false), h);
    n := Exec(m, Record(id, false), h);
  }

  predicate WellTracked(op: Op, h: Hasher)
  {
    op.cfgHash == h(op.cfg.content) && op.delivered <= ToSet(op.resolved)
  }

  /** Of two pushes in flight, all others failed, both reach their endpoints, the second one last. */
  lemma DeliverBoth(s: State, i: nat, j: nat, e: string, h: Hasher) returns (n: State)
    requires i in s.ops && j in s.ops && i != j && e in s.ops[j].resolved
    ensures Settled(s, n, h) && n.targets.Keys == s.targets.Keys
    ensures n.ops == map[i := Reaching(s.ops[i], ToSet(s.ops[i].resolved)), j := Reaching(s.ops[j], ToSet(s.ops[j].resolved))]
    ensures e in n.held && n.held[e] == Delivery(s.ops[j].cfg, s.ops[j].token)
  {
    SettledAtOnce(s, h);
    n := FailOthers(s, s, {i, j}, h);
    n := DeliverAll(s, n, i, ToSet(s.ops[i].resolved), h);
    n := DeliverAll(s, n, j, ToSet(s.ops[j].resolved), h);
  }

  /**
   Two pushes of one partition in flight that share an endpoint and disagree: deliver
   the first, then the second, then record the second and then the first. The skip key
   is then the first one's while the endpoint holds the second one's config.
   */
  lemma OverlapBreaksSkip(s: State, i: nat, j: nat, e: string, h: Hasher) returns (n: State, next: Step)
    requires i in s.ops && j in s.ops && i != j && s.ops[i].key == s.ops[j].key && s.ops[i].key in s.targets
    requires WellTracked(s.ops[i], h) && WellTracked(s.ops[j], h)
    requires e in s.ops[i].resolved && e in s.ops[j].resolved
    requires s.ops[i].cfgHash != "" && !Names(s.ops[j], s.ops[i].cfgHash, s.ops[i].token)
    ensures Settled(s, n, h) && Compatible(n, next, h) && SkipsWrongly(n, next, h)
  {
    var a := s.ops[i];
    n := DeliverBoth(s, i, j, e, h);
    n := RecordNames(s, n, j, h);
    n := RecordNames(s, n, i, h);
    next := MistakenSkips(n, a, e, h);
  }

  /** A resync that overwrites what a push in flight has delivered: the push reaches the rest and is recorded. */
  lemma OverwriteBreaksSkip(s: State, i: nat, e: string, h: Hasher) returns (n: State, next: Step)
    requires i in s.ops && s.ops[i].key in s.targets && WellTracked(s.ops[i], h) && s.ops[i].cfgHash != ""
    requires e in s.ops[i].delivered && !Holds(s, e, s.ops[i].cfgHash, s.ops[i].token, h)
    ensures Settled(s, n, h) && Compatible(n, next, h) && SkipsWrongly(n, next, h)
  {
    var a := s.ops[i];
    var rest := ToSet(a.resolved) - {e};
    assert a.delivered + rest == ToSet(a.resolved);
    SettledAtOnce(s, h);
    n := FailOthers(s, s, {i}, h);
    n := DeliverAll(s, n, i, rest, h);
    n := RecordNames(s, n, i, h);
    next := MistakenSkips(n, a, e, h);
  }

  /** A skip beside a push in flight that it does not agree with is undone by one delivery. */
  lemma SkipBesideBreaks(s: State, i: nat, e: string, next: Step, h: Hasher) returns (n: State)
    requires i in s.ops && WellTracked(s.ops[i], h) && e in s.ops[i].resolved
    requires Skips(s, next, h) && e in next.resolved && !Names(s.ops[i], h(next.cfg.content), next.token)
    ensures Settled(s, n, h) && SkipsWrongly(n, next, h)
  {
    SettledAtOnce(s, h);
    n := DeliverOne(s, s, i, e, h);
  }

  // ---------------------------------------------------------------- exactly the compatible steps are safe

  /** However the pushes in flight settle from here, no compatible skip is wrong. */
  ghost predicate Safe(s: State, h: Hasher)
  {
    forall n, next :: Settled(s, n, h) && Compatible(n, next, h) ==> !SkipsWrongly(n, next, h)
  }

  lemma {:induction false} SettlingKeepsTruth(s: State, more: seq<Step>, h: Hasher, owner: string -> string)
    requires Truthful(s, h, owner) && Settles(more)
    ensures Truthful(After(s, more, h), h, owner)
  {
    if more == [] {
    } else {
      var front, last := more[..|more| - 1], more[|more| - 1];
      SettlingKeepsTruth(s, front, h, owner);
      assert last in more;
      ExecKeepsTruth(After(s, front, h), last, h, owner);
    }
  }

  lemma TruthfulIsSafe(s: State, h: Hasher, owner: string -> string)
    requires Truthful(s, h, owner)
    ensures Safe(s, h)
  {
    forall n, next | Settled(s, n, h) && Compatible(n, next, h) ensures !SkipsWrongly(n, next, h) {
      var more :| Settles(more) && After(s, more, h) == n;
      SettlingKeepsTruth(s, more, h, owner);
      if Skips(n, next, h) {
        TruthfulSkip(n, next, h, owner);
      }
    }
  }

  /** A push or a resync begins: a prepare that does not skip, or a resync with something to replay. */
  predicate Begins(s: State, step: Step, h: Hasher)
  {
    && Enabled(s, step)
    && ((step.Prepare? && !Skips(s, step, h)) || (step.Resync? && Replayable(s.targets, step.key)))
  }

  lemma IncompatiblePushUnsafe(s: State, step: Step, h: Hasher, owner: string -> string)
    requires Truthful(s, h, owner) && Owned(step, owner) && Begins(s, step, h) && step.Prepare? && !Compatible(s, step, h)
    ensures !Safe(Exec(s, step, h), h)
  {
    var j := step.id;
    var i :| i in s.ops && Shares(s.ops[i], step.resolved) && !MayOverlap(s.ops[i], h(step.cfg.content), step.token);
    var e :| e in s.ops[i].resolved && e in step.resolved;
    assert OpTruthful(s, i, h, owner);
    var m := Exec(s, step, h);
    assert m.ops[i] == s.ops[i] && i != j;
    if s.ops[i].cfgHash != "" {
      var n, next := OverlapBreaksSkip(m, i, j, e, h);
    } else {
      var n, next := OverlapBreaksSkip(m, j, i, e, h);
    }
  }

  lemma IncompatibleResyncUnsafe(s: State, step: Step, h: Hasher, owner: string -> string)
    requires Truthful(s, h, owner) && Owned(step, owner) && Begins(s, step, h) && step.Resync? && !Compatible(s, step, h)
    ensures !Safe(Exec(s, step, h), h)
  {
    var cfg := s.targets[step.key].lastCfg.value;
    var i :| i in s.ops && s.ops[i].delivered * step.reached != {}
             && s.ops[i].cfgHash != "" && !Names(s.ops[i], h(cfg.content), step.token);
    var e :| e in s.ops[i].delivered * step.reached;
    assert OpTruthful(s, i, h, owner);
    assert e in ToSet(step.resolved);
    var m := Exec(s, step, h);
    assert m.held[e] == Delivery(cfg, step.token);
    var n, next := OverwriteBreaksSkip(m, i, e, h);
  }

  /**
   After a disciplined run, beginning a push or a resync is safe exactly when it is
   compatible with the pushes in flight: then, and only then, no way for them to
   finish leads to a wrong skip.
   */
  lemma {:induction false} BeginningSafeIff(steps: seq<Step>, step: Step, h: Hasher, owner: string -> string)
    requires Disciplined(steps, h, owner) && Owned(step, owner) && Begins(Run(steps, h), step, h)
    ensures Safe(Exec(Run(steps, h), step, h), h) <==> Compatible(Run(steps, h), step, h)
  {
    var s := Run(steps, h);
    RunTruthful(steps, h, owner);
    if Compatible(s, step, h) {
      ExecKeepsTruth(s, step, h, owner);
      TruthfulIsSafe(Exec(s, step, h), h, owner);
    } else if step.Prepare? {
      IncompatiblePushUnsafe(s, step, h, owner);
    } else {
      IncompatibleResyncUnsafe(s, step, h, owner);
    }
  }

  // ---------------------------------------------------------------- one such run

  function SyncOf(id: nat, content: string): Step
  {
    Prepare(id, "k", "t", [], ["e"], Config(id, content))
  }

  lemma {:induction false} RunSnoc(steps: seq<Step>, step: Step, h: Hasher)
    ensures Run(steps + [step], h) == Exec(Run(steps, h), step, h)
  {
    assert (steps + [step])[..|steps|] == steps;
  }

  /** A run from the start: two pushes of different content to one endpoint overlap, and a third is wrongly skipped. */
  lemma OverlapRun(h: Hasher, a: string, b: string) returns (n: State, next: Step)
    requires h(a) != "" && h(a) != h(b)
    ensures Settled(Run([SyncOf(0, a), SyncOf(1, b)], h), n, h) && SkipsWrongly(n, next, h)
  {
    var s := Exec(START, SyncOf(0, a), h);
    RunSnoc([], SyncOf(0, a), h);
    RunSnoc([SyncOf(0, a)], SyncOf(1, b), h);
    assert [] + [SyncOf(0, a)] == [SyncOf(0, a)] && [SyncOf(0, a)] + [SyncOf(1, b)] == [SyncOf(0, a), SyncOf(1, b)];
    assert s.ops == map[0 := Op("k", "t", Config(0, a), h(a), ["e"], {})];
    n, next := OverlapBreaksSkip(Exec(s, SyncOf(1, b), h), 0, 1, "e", h);
  }
}
