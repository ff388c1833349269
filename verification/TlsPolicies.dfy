/**
 Precedence among BackendTLSPolicies that target the same Service
 (internal/controller/backendtlspolicy_controller.go, with the age comparison of
 internal/controller/proxy_syncer.go) and the watch mapper that re-evaluates it.
 */
module TlsPolicies {
  import opened Lists
  import Strings

  datatype TargetRef = TargetRef(kind: string, name: string, section: Option<string>)

  datatype TargetKey = TargetKey(name: string, section: string)

  datatype Policy = Policy(namespace: string, name: string, created: int, targetRefs: seq<TargetRef>)

  datatype Request = Request(namespace: string, name: string)

  /** Earlier created, or created together with the smaller name. */
  predicate IsPolicyOlder(candidate: Policy, incumbent: Policy)
  {
    if candidate.created < incumbent.created then true
    else if incumbent.created < candidate.created then false
    else Strings.Less(candidate.name, incumbent.name)
  }

  // ---------------------------------------------------------------- targets

  predicate ForService(t: TargetRef)
  {
    t.kind == "" || t.kind == "Service"
  }

  function KeyOf(t: TargetRef): TargetKey
  {
    TargetKey(t.name, if t.section.Some? then t.section.value else "")
  }

  function Targets(p: Policy): set<TargetKey>
  {
    set t | t in p.targetRefs && ForService(t) :: KeyOf(t)
  }

  method NormalizePolicyTargets(p: Policy) returns (keys: set<TargetKey>)
    ensures keys == Targets(p)
  {
    keys := {};
    var refs := p.targetRefs;
    for i := 0 to |refs|
      invariant keys == set t | t in refs[..i] && ForService(t) :: KeyOf(t)
    {
      var target := refs[i];
      assert forall t :: t in refs[..i + 1] <==> t in refs[..i] || t == target;
      if target.kind != "" && target.kind != "Service" {
        continue;
      }
      keys := keys + {KeyOf(target)};
    }
    assert refs[..|refs|] == refs;
  }

  method PoliciesShareTarget(peer: Policy, own: set<TargetKey>) returns (r: bool)
    ensures r <==> Targets(peer) * own != {}
  {
    var todo := NormalizePolicyTargets(peer);
    while todo != {}
      invariant todo <= Targets(peer) && (Targets(peer) - todo) * own == {}
    {
      var key :| key in todo;
      if key in own {
        assert key in Targets(peer) * own;
        return true;
      }
      todo := todo - {key};
    }
    assert Targets(peer) - todo == Targets(peer);
    return false;
  }

  // ---------------------------------------------------------------- the winner

  predicate SamePolicy(p: Policy, q: Policy)
  {
    p.namespace == q.namespace && p.name == q.name
  }

  /** Another policy of the namespace with a target in common. */
  predicate Rival(peer: Policy, p: Policy)
  {
    peer.namespace == p.namespace && peer.name != p.name && Targets(peer) * Targets(p) != {}
  }

  predicate Beats(peer: Policy, p: Policy)
  {
    Rival(peer, p) && IsPolicyOlder(peer, p)
  }

  ghost predicate Conflicted(cluster: seq<Policy>, p: Policy)
  {
    exists peer :: peer in cluster && Beats(peer, p)
  }

  /** `w` is the oldest of the policies that `p` loses to. */
  ghost predicate IsWinner(cluster: seq<Policy>, p: Policy, w: Policy)
  {
    w in cluster && Beats(w, p) && forall r :: r in cluster && Beats(r, p) ==> !IsPolicyOlder(r, w)
  }

  ghost predicate IsVerdict(cluster: seq<Policy>, p: Policy, v: Option<Policy>)
  {
    match v
    case None => !Conflicted(cluster, p)
    case Some(w) => IsWinner(cluster, p, w)
  }

  /** The running winner over the policies listed for the namespace. */
  method ConflictWinnerFor(cluster: seq<Policy>, policy: Policy) returns (winner: Option<Policy>)
    ensures IsVerdict(cluster, policy, winner)
  {
    winner := None;
    var own := NormalizePolicyTargets(policy);
    if own == {} {
      return;
    }
    for i := 0 to |cluster|
      invariant IsVerdict(cluster[..i], policy, winner)
    {
      var peer := cluster[i];
      VerdictSnoc(cluster[..i], policy, winner, peer);
      assert cluster[..i + 1] == cluster[..i] + [peer];
      var share := PoliciesShareTarget(peer, own);
      if peer.namespace != policy.namespace || SamePolicy(peer, policy) || !share {
        continue;
      }
      if !IsPolicyOlder(peer, policy) {
        continue;
      }
      if winner == None || IsPolicyOlder(peer, winner.value) {
        winner := Some(peer);
      }
    }
    assert cluster[..|cluster|] == cluster;
  }

  lemma OlderIsOrder()
    ensures forall p, q :: IsPolicyOlder(p, q) ==> !IsPolicyOlder(q, p)
    ensures forall p: Policy, q: Policy :: p.name != q.name ==> IsPolicyOlder(p, q) || IsPolicyOlder(q, p)
    ensures forall p, q, r :: IsPolicyOlder(p, q) && IsPolicyOlder(q, r) ==> IsPolicyOlder(p, r)
    ensures forall p, q, r :: !IsPolicyOlder(p, q) && !IsPolicyOlder(q, r) ==> !IsPolicyOlder(p, r)
  {
    Strings.LeqIsOrder();
  }

  lemma VerdictSnoc(seen: seq<Policy>, p: Policy, v: Option<Policy>, peer: Policy)
    requires IsVerdict(seen, p, v)
    ensures IsVerdict(seen + [peer], p, if Beats(peer, p) && (v == None || IsPolicyOlder(peer, v.value)) then Some(peer) else v)
  {
    OlderIsOrder();
    var more := seen + [peer];
    assert forall x :: x in more <==> x in seen || x == peer;
  }

  /** Created earlier, or at the same time with a smaller name. */
  predicate ElderOf(p: Policy, q: Policy)
  {
    p.created < q.created || (p.created == q.created && p.name != q.name && Strings.Leq(p.name, q.name))
  }

  /** The winner is a policy of the namespace, elder than the loser, that shares a target, and no elder one does. */
  lemma WinnerIsEldest(cluster: seq<Policy>, p: Policy, w: Policy)
    requires IsWinner(cluster, p, w)
    ensures w in cluster && w.namespace == p.namespace && w.name != p.name && ElderOf(w, p)
    ensures exists key :: key in Targets(w) && key in Targets(p)
    ensures forall r, key :: r in cluster && r.namespace == p.namespace && r.name != p.name && key in Targets(r) && key in Targets(p)
              ==> !ElderOf(r, w)
  {
    Strings.LeqIsOrder();
    var key :| key in Targets(w) * Targets(p);
    forall r, k | r in cluster && r.namespace == p.namespace && r.name != p.name && k in Targets(r) && k in Targets(p)
      ensures !ElderOf(r, w)
    {
      assert k in Targets(r) * Targets(p);
      OlderIsOrder();
    }
  }

  /** Without a winner, no elder policy of the namespace shares a target. */
  lemma NoElderRival(cluster: seq<Policy>, p: Policy, r: Policy, key: TargetKey)
    requires !Conflicted(cluster, p) && r in cluster && r.namespace == p.namespace && r.name != p.name
    requires key in Targets(r) && key in Targets(p)
    ensures !ElderOf(r, p)
  {
    assert key in Targets(r) * Targets(p);
    assert !Beats(r, p);
  }

  /** The targets of a policy are those of its references to Services; a reference without a kind is one. */
  lemma TargetsAre(p: Policy, key: TargetKey)
    ensures key in Targets(p) <==>
            exists t :: t in p.targetRefs && t.kind in {"", "Service"} && t.name == key.name
                        && (t.section == Some(key.section) || (t.section == None && key.section == ""))
  {
  }

  // ---------------------------------------------------------------- what precedence guarantees

  /** Kubernetes names are unique within a namespace. */
  predicate UniqueNames(cluster: seq<Policy>)
  {
    forall p, q :: p in cluster && q in cluster && SamePolicy(p, q) ==> p == q
  }

  /** Policies without a conflict have no target in common. */
  lemma AcceptedShareNothing(cluster: seq<Policy>, p: Policy, q: Policy)
    requires p in cluster && q in cluster && p.namespace == q.namespace && p.name != q.name
    requires !Conflicted(cluster, p) && !Conflicted(cluster, q)
    ensures Targets(p) * Targets(q) == {}
  {
    OlderIsOrder();
    assert !Beats(p, q) && !Beats(q, p);
    assert Targets(p) * Targets(q) == Targets(q) * Targets(p);
  }

  /** The verdict depends only on which policies exist, not on how they are listed. */
  lemma VerdictUnique(a: seq<Policy>, b: seq<Policy>, p: Policy, v: Option<Policy>, w: Option<Policy>)
    requires UniqueNames(a) && (forall x :: x in a && Beats(x, p) <==> x in b && Beats(x, p))
    requires IsVerdict(a, p, v) && IsVerdict(b, p, w)
    ensures v == w
  {
    OlderIsOrder();
    if v.Some? && w.Some? {
      assert SamePolicy(v.value, w.value);
    }
  }

  // ---------------------------------------------------------------- targets left without a policy

  predicate Holds(p: Policy, namespace: string, key: TargetKey)
  {
    p.namespace == namespace && key in Targets(p)
  }

  /** `p` is the oldest policy of the namespace that holds `key`. */
  ghost predicate OldestHolder(cluster: seq<Policy>, namespace: string, key: TargetKey, p: Policy)
  {
    && p in cluster && Holds(p, namespace, key)
    && forall q :: q in cluster && Holds(q, namespace, key) ==> !IsPolicyOlder(q, p)
  }

  /** A target has an accepted policy exactly when its oldest holder loses on none of its targets. */
  lemma TargetServedIff(cluster: seq<Policy>, namespace: string, key: TargetKey, oldest: Policy)
    requires OldestHolder(cluster, namespace, key, oldest) && UniqueNames(cluster)
    ensures (exists p :: p in cluster && Holds(p, namespace, key) && !Conflicted(cluster, p)) <==> !Conflicted(cluster, oldest)
  {
    OlderIsOrder();
    forall p | p in cluster && Holds(p, namespace, key) && p != oldest ensures Conflicted(cluster, p) {
      assert !SamePolicy(p, oldest);
      assert key in Targets(oldest) * Targets(p);
      assert Beats(oldest, p);
    }
  }

  function ServicePolicy(name: string, created: int, services: seq<string>): Policy
  {
    Policy("ns", name, created, Map(services, (s: string) => TargetRef("Service", s, None)))
  }

  /** A middle policy that loses one Service still keeps a younger one off another, which is then left with none. */
  lemma TargetLeftWithout() returns (cluster: seq<Policy>, key: TargetKey, oldest: Policy)
    ensures UniqueNames(cluster) && OldestHolder(cluster, "ns", key, oldest)
    ensures forall p :: p in cluster && Holds(p, "ns", key) ==> Conflicted(cluster, p)
  {
    var a, b, c := ServicePolicy("a", 1, ["x"]), ServicePolicy("b", 2, ["x", "y"]), ServicePolicy("c", 3, ["y"]);
    cluster, key, oldest := [a, b, c], TargetKey("y", ""), b;
    var x := TargetKey("x", "");
    assert a.targetRefs[0] in a.targetRefs && x in Targets(a);
    assert b.targetRefs[0] in b.targetRefs && x in Targets(b);
    assert b.targetRefs[1] in b.targetRefs && key in Targets(b);
    assert c.targetRefs[0] in c.targetRefs && key in Targets(c);
    assert x in Targets(a) * Targets(b) && key in Targets(b) * Targets(c);
    assert "a"[0] != "b"[0] && "b"[0] != "c"[0] && "a"[0] != "c"[0];
    assert Beats(a, b) && Beats(b, c);
    assert key !in Targets(a);
    assert a in cluster && b in cluster;
  }

  // ---------------------------------------------------------------- the watch mapper

  function RequestOf(p: Policy): Request
  {
    Request(p.namespace, p.name)
  }

  /** The policies to reconcile again after `changed` was created, updated or deleted. */
  method PoliciesForPeerChange(cluster: seq<Policy>, changed: Policy) returns (requests: seq<Request>)
    ensures forall r :: r in requests <==>
              exists peer :: peer in cluster && Rival(peer, changed) && r == Request(peer.namespace, peer.name)
  {
    requests := [];
    var own := NormalizePolicyTargets(changed);
    if own == {} {
      return;
    }
    for i := 0 to |cluster|
      invariant forall r :: r in requests <==> exists peer :: peer in cluster[..i] && Rival(peer, changed) && r == RequestOf(peer)
    {
      var peer := cluster[i];
      assert forall x :: x in cluster[..i + 1] <==> x in cluster[..i] || x == peer;
      var share := PoliciesShareTarget(peer, own);
      if peer.namespace != changed.namespace || SamePolicy(peer, changed) || !share {
        continue;
      }
      requests := requests + [RequestOf(peer)];
    }
    assert cluster[..|cluster|] == cluster;
  }

  /** One policy was created (`was` absent), deleted (`now` absent) or updated; all others are as before. */
  ghost predicate OnlyChanged(before: seq<Policy>, after: seq<Policy>, was: Option<Policy>, now: Option<Policy>)
  {
    && (forall p :: Some(p) != was && Some(p) != now ==> (p in before <==> p in after))
    && (was.Some? ==> was.value in before && (was != now ==> was.value !in after))
    && (now.Some? ==> now.value in after && (was != now ==> now.value !in before))
    && (was.Some? && now.Some? ==> SamePolicy(was.value, now.value))
  }

  predicate Enqueues(changed: Option<Policy>, q: Policy)
  {
    changed.Some? && Rival(q, changed.value)
  }

  /** Any policy whose verdict differs after the change is enqueued by the mapper for the old or the new object. */
  lemma PeerChangeComplete(
      before: seq<Policy>, after: seq<Policy>, was: Option<Policy>, now: Option<Policy>,
      q: Policy, v: Option<Policy>, w: Option<Policy>)
    requires OnlyChanged(before, after, was, now) && UniqueNames(before) && UniqueNames(after)
    requires q in before && q in after && Some(q) != was && Some(q) != now
    requires IsVerdict(before, q, v) && IsVerdict(after, q, w) && v != w
    ensures Enqueues(was, q) || Enqueues(now, q)
  {
    if !Enqueues(was, q) && !Enqueues(now, q) {
      forall x ensures x in before && Beats(x, q) <==> x in after && Beats(x, q) {
        if Some(x) == was || Some(x) == now {
          assert Targets(q) * Targets(x) == Targets(x) * Targets(q);
          assert !Rival(x, q);
        }
      }
      VerdictUnique(before, after, q, v, w);
    }
  }
}
