/**
 Conflicts between HTTPRoutes and GRPCRoutes that share a Gateway and a host
 (internal/controller/route_crosstype.go).
 */
module CrossType {
  import opened Lists
  import opened Routes
  import Hostnames
  import Strings

  /** The routes of one kind, as the conflict rule sees them. */
  type Side = Routes.RouteResult

  /** Oldest first; on a tie the smaller namespace/name. */
  predicate Wins(left: Route, right: Route)
  {
    if left.created != right.created then left.created < right.created else Strings.Less(RouteKey(left), RouteKey(right))
  }

  predicate GatewaysIntersect(left: set<string>, right: set<string>)
  {
    left * right != {}
  }

  predicate Conflict(http: Side, h: Route, grpc: Side, g: Route)
  {
    GatewaysIntersect(AcceptedOn(http.bindings, h), AcceptedOn(grpc.bindings, g))
    && Hostnames.HostnamesIntersect(h.hostnames, g.hostnames)
  }

  /** The HTTPRoute `h` loses a pairing, including the full tie. */
  ghost predicate HttpLoses(http: Side, grpc: Side, h: Route)
  {
    exists g :: g in grpc.accepted && Conflict(http, h, grpc, g) && !Wins(h, g)
  }

  ghost predicate GrpcLoses(http: Side, grpc: Side, g: Route)
  {
    exists h :: h in http.accepted && Conflict(http, h, grpc, g) && Wins(h, g)
  }

  // ---------------------------------------------------------------- the pairwise loop

  ghost function HttpLosers(http: Side, grpc: Side): set<string>
  {
    set h | h in http.accepted && HttpLoses(http, grpc, h) :: RouteKey(h)
  }

  ghost function GrpcLosers(http: Side, grpc: Side): set<string>
  {
    set g | g in grpc.accepted && GrpcLoses(http, grpc, g) :: RouteKey(g)
  }

  /** The search loop over the smaller of the two sets. */
  method TestGateways(left: set<string>, right: set<string>) returns (r: bool)
    ensures r == GatewaysIntersect(left, right)
  {
    var small, large := left, right;
    if |right| < |left| {
      small, large := right, left;
    }
    assert left * right == small * large;
    var todo := small;
    while todo != {}
      invariant todo <= small
      invariant (small - todo) * large == {}
    {
      var gw :| gw in todo;
      if gw in large {
        assert gw in small * large;
        return true;
      }
      todo := todo - {gw};
    }
    assert small - todo == small;
    return false;
  }

  /** One row of the pairwise loop: the HTTPRoute `h` against every GRPCRoute. */
  method PairAll(http: Side, grpc: Side, h: Route) returns (loses: bool, beaten: set<string>)
    ensures loses <==> HttpLoses(http, grpc, h)
    ensures beaten == set g | g in grpc.accepted && Conflict(http, h, grpc, g) && Wins(h, g) :: RouteKey(g)
  {
    loses, beaten := false, {};
    var gs := grpc.accepted;
    for i := 0 to |gs|
      invariant loses <==> exists g :: g in gs[..i] && Conflict(http, h, grpc, g) && !Wins(h, g)
      invariant beaten == set g | g in gs[..i] && Conflict(http, h, grpc, g) && Wins(h, g) :: RouteKey(g)
    {
      var g := gs[i];
      assert forall x :: x in gs[..i + 1] <==> x in gs[..i] || x == g;
      var shared := TestGateways(AcceptedOn(http.bindings, h), AcceptedOn(grpc.bindings, g));
      if !shared {
        continue;
      }
      if !Hostnames.HostnamesIntersect(h.hostnames, g.hostnames) {
        continue;
      }
      if Wins(h, g) {
        beaten := beaten + {RouteKey(g)};
      } else {
        loses := true;
      }
    }
    assert gs[..|gs|] == gs;
  }

  method FindLosers(http: Side, grpc: Side) returns (httpLosers: set<string>, grpcLosers: set<string>)
    ensures httpLosers == HttpLosers(http, grpc) && grpcLosers == GrpcLosers(http, grpc)
  {
    httpLosers, grpcLosers := {}, {};
    var hs := http.accepted;
    for i := 0 to |hs|
      invariant httpLosers == set h | h in hs[..i] && HttpLoses(http, grpc, h) :: RouteKey(h)
      invariant grpcLosers ==
                set h, g | h in hs[..i] && g in grpc.accepted && Conflict(http, h, grpc, g) && Wins(h, g) :: RouteKey(g)
    {
      var h := hs[i];
      assert forall x :: x in hs[..i + 1] <==> x in hs[..i] || x == h;
      var loses, beaten := PairAll(http, grpc, h);
      if loses {
        httpLosers := httpLosers + {RouteKey(h)};
      }
      grpcLosers := grpcLosers + beaten;
    }
    assert hs[..|hs|] == hs;
    forall k | k in grpcLosers ensures k in GrpcLosers(http, grpc) {
      var h, g :| h in hs && g in grpc.accepted && Conflict(http, h, grpc, g) && Wins(h, g) && RouteKey(g) == k;
      assert GrpcLoses(http, grpc, g);
    }
    forall k | k in GrpcLosers(http, grpc) ensures k in grpcLosers {
      var g :| g in grpc.accepted && GrpcLoses(http, grpc, g) && RouteKey(g) == k;
      var h :| h in hs && Conflict(http, h, grpc, g) && Wins(h, g);
    }
  }

  // ---------------------------------------------------------------- rejection

  const CONFLICTED := "Conflicted"
  const CONFLICT_MESSAGE := "conflicting route of the other kind"

  function Flip(r: BindingResult): BindingResult
  {
    if r.accepted then BindingResult(false, CONFLICTED, CONFLICT_MESSAGE) else r
  }

  function FlipAll(b: RouteBinding): RouteBinding
  {
    b.(results := map i | i in b.results :: Flip(b.results[i]))
  }

  function Survivors(accepted: seq<Route>, losers: set<string>): seq<Route>
  {
    Keep(accepted, r => RouteKey(r) !in losers)
  }

  function Rejected(accepted: seq<Route>, losers: set<string>): seq<Route>
  {
    Keep(accepted, r => RouteKey(r) in losers)
  }

  /** One of the accepted routes has this key, and it is a loser's. */
  predicate Lost(accepted: seq<Route>, losers: set<string>, key: string)
  {
    key in losers && exists r :: r in accepted && RouteKey(r) == key
  }

  /** The bindings after rejecting the losers among the accepted routes. */
  function BindingsAfter(bindings: Bindings, accepted: seq<Route>, losers: set<string>): Bindings
  {
    map k | k in bindings :: if Lost(accepted, losers, k) then FlipAll(bindings[k]) else bindings[k]
  }

  /** Accepted and rejected routes of one kind with their bindings, updated in place. */
  class RouteResult {
    var accepted: seq<Route>
    var rejected: seq<Route>
    var bindings: Bindings

    constructor (accepted: seq<Route>, rejected: seq<Route>, bindings: Bindings)
      ensures this.accepted == accepted && this.rejected == rejected && this.bindings == bindings
    {
      this.accepted, this.rejected, this.bindings := accepted, rejected, bindings;
    }

    function AsSide(): Side
      reads this
    {
      Routes.RouteResult(accepted, bindings)
    }

    method MarkBindingConflicted(key: string)
      modifies this`bindings
      ensures bindings == if key in old(bindings) then old(bindings)[key := FlipAll(old(bindings)[key])] else old(bindings)
    {
      if key !in bindings {
        return;
      }
      var info := bindings[key];
      var results := info.results;
      var todo := info.results.Keys;
      while todo != {}
        invariant todo <= info.results.Keys && results.Keys == info.results.Keys
        invariant forall i :: i in results ==> results[i] == if i in todo then info.results[i] else Flip(info.results[i])
      {
        var idx :| idx in todo;
        todo := todo - {idx};
        if !results[idx].accepted {
          continue;
        }
        results := results[idx := BindingResult(false, CONFLICTED, CONFLICT_MESSAGE)];
      }
      assert results == FlipAll(info).results;
      bindings := bindings[key := info.(results := results)];
    }

    method RejectLosers(losers: set<string>)
      modifies this
      ensures accepted == Survivors(old(accepted), losers)
      ensures rejected == old(rejected) + Rejected(old(accepted), losers)
      ensures bindings == BindingsAfter(old(bindings), old(accepted), losers)
    {
      ghost var all, was, before := accepted, rejected, bindings;
      var kept: seq<Route> := [];
      for i := 0 to |accepted|
        invariant accepted == all
        invariant kept == Survivors(all[..i], losers)
        invariant rejected == was + Rejected(all[..i], losers)
        invariant bindings == BindingsAfter(before, all[..i], losers)
      {
        var r := accepted[i];
        assert all[..i + 1] == all[..i] + [r];
        KeepSnoc(all[..i], r, x => RouteKey(x) !in losers);
        KeepSnoc(all[..i], r, x => RouteKey(x) in losers);
        BindingsAfterSnoc(before, all[..i], r, losers);
        if RouteKey(r) in losers {
          rejected := rejected + [r];
          MarkBindingConflicted(RouteKey(r));
        } else {
          kept := kept + [r];
        }
      }
      assert all[..|all|] == all;
      accepted := kept;
    }
  }

  lemma FlipTwice(b: RouteBinding)
    ensures FlipAll(FlipAll(b)) == FlipAll(b)
  {
  }

  lemma BindingsAfterSnoc(bindings: Bindings, accepted: seq<Route>, r: Route, losers: set<string>)
    ensures var before, after := BindingsAfter(bindings, accepted, losers), BindingsAfter(bindings, accepted + [r], losers);
            after == if RouteKey(r) in losers && RouteKey(r) in before
                     then before[RouteKey(r) := FlipAll(before[RouteKey(r)])] else before
  {
    var before, after := BindingsAfter(bindings, accepted, losers), BindingsAfter(bindings, accepted + [r], losers);
    forall k | k in bindings
      ensures after[k] == if k == RouteKey(r) && k in losers then FlipAll(before[k]) else before[k]
    {
      LostSnoc(accepted, r, losers, k);
      FlipTwice(bindings[k]);
    }
  }

  lemma LostSnoc(accepted: seq<Route>, r: Route, losers: set<string>, key: string)
    ensures Lost(accepted + [r], losers, key) <==> Lost(accepted, losers, key) || (key in losers && RouteKey(r) == key)
  {
    assert forall x :: x in accepted + [r] <==> x in accepted || x == r;
  }

  /** The whole resolution, on both kinds at once. */
  method ResolveCrossTypeConflicts(http: RouteResult, grpc: RouteResult)
    requires http != grpc
    modifies http, grpc
    ensures var h, g := old(http.AsSide()), old(grpc.AsSide());
            && http.accepted == Survivors(h.accepted, HttpLosers(h, g))
            && http.rejected == old(http.rejected) + Rejected(h.accepted, HttpLosers(h, g))
            && http.bindings == BindingsAfter(h.bindings, h.accepted, HttpLosers(h, g))
            && grpc.accepted == Survivors(g.accepted, GrpcLosers(h, g))
            && grpc.rejected == old(grpc.rejected) + Rejected(g.accepted, GrpcLosers(h, g))
            && grpc.bindings == BindingsAfter(g.bindings, g.accepted, GrpcLosers(h, g))
  {
    var httpLosers, grpcLosers := FindLosers(http.AsSide(), grpc.AsSide());
    http.RejectLosers(httpLosers);
    grpc.RejectLosers(grpcLosers);
  }

  // ---------------------------------------------------------------- what the resolution guarantees

  ghost predicate HttpSurvives(http: Side, grpc: Side, h: Route)
  {
    h in Survivors(http.accepted, HttpLosers(http, grpc))
  }

  ghost predicate GrpcSurvives(http: Side, grpc: Side, g: Route)
  {
    g in Survivors(grpc.accepted, GrpcLosers(http, grpc))
  }

  /** A route survives exactly when it loses no pairing. */
  lemma SurvivesIff(http: Side, grpc: Side)
    requires ProperRoutes(http.accepted) && ProperRoutes(grpc.accepted)
    ensures forall h :: HttpSurvives(http, grpc, h) <==> h in http.accepted && !HttpLoses(http, grpc, h)
    ensures forall g :: GrpcSurvives(http, grpc, g) <==> g in grpc.accepted && !GrpcLoses(http, grpc, g)
  {
    ProperKeys(http.accepted);
    ProperKeys(grpc.accepted);
    KeepMembers(http.accepted, r => RouteKey(r) !in HttpLosers(http, grpc));
    KeepMembers(grpc.accepted, r => RouteKey(r) !in GrpcLosers(http, grpc));
  }

  lemma SurvivorsNeverConflict(http: Side, grpc: Side, h: Route, g: Route)
    requires ProperRoutes(http.accepted) && ProperRoutes(grpc.accepted)
    requires HttpSurvives(http, grpc, h) && GrpcSurvives(http, grpc, g)
    ensures !Conflict(http, h, grpc, g)
  {
    SurvivesIff(http, grpc);
    assert Conflict(http, h, grpc, g) && Wins(h, g) ==> GrpcLoses(http, grpc, g);
    assert Conflict(http, h, grpc, g) && !Wins(h, g) ==> HttpLoses(http, grpc, h);
  }

  /** No surviving HTTPRoute and GRPCRoute share both a Gateway and a concrete host. */
  lemma SurvivorsNeverClash(http: Side, grpc: Side, h: Route, g: Route)
    requires ProperRoutes(http.accepted) && ProperRoutes(grpc.accepted)
    requires HttpSurvives(http, grpc, h) && GrpcSurvives(http, grpc, g)
    requires forall x :: x in h.hostnames + g.hostnames ==> Hostnames.WellFormed(x)
    ensures AcceptedOn(http.bindings, h) * AcceptedOn(grpc.bindings, g) != {} ==> !Hostnames.ShareHost(h.hostnames, g.hostnames)
  {
    SurvivorsNeverConflict(http, grpc, h, g);
    Hostnames.IntersectIffShareHost(h.hostnames, g.hostnames);
  }

  /** A Gateway accepts both routes, and some concrete host is served by both. */
  ghost predicate Clash(http: Side, h: Route, grpc: Side, g: Route)
  {
    && (exists gateway :: gateway in AcceptedOn(http.bindings, h) && gateway in AcceptedOn(grpc.bindings, g))
    && Hostnames.ShareHost(h.hostnames, g.hostnames)
  }

  lemma ConflictIsClash(http: Side, h: Route, grpc: Side, g: Route)
    requires forall x :: x in h.hostnames + g.hostnames ==> Hostnames.WellFormed(x)
    ensures Conflict(http, h, grpc, g) <==> Clash(http, h, grpc, g)
  {
    Hostnames.IntersectIffShareHost(h.hostnames, g.hostnames);
    var a, b := AcceptedOn(http.bindings, h), AcceptedOn(grpc.bindings, g);
    assert forall gateway :: gateway in a && gateway in b <==> gateway in a * b;
  }

  predicate WellFormedHostnames(side: Side)
  {
    forall r, x :: r in side.accepted && x in r.hostnames ==> Hostnames.WellFormed(x)
  }

  /**
   An HTTPRoute is rejected exactly because of a GRPCRoute that it clashes with and that
   is older, or as old with a namespace/name that does not come later.
   */
  lemma HttpRejectedIff(http: Side, grpc: Side, h: Route)
    requires ProperRoutes(http.accepted) && ProperRoutes(grpc.accepted) && h in http.accepted
    requires WellFormedHostnames(http) && WellFormedHostnames(grpc)
    ensures !HttpSurvives(http, grpc, h) <==>
            exists g :: g in grpc.accepted && Clash(http, h, grpc, g)
                        && (g.created < h.created || (g.created == h.created && Strings.Leq(RouteKey(g), RouteKey(h))))
  {
    SurvivesIff(http, grpc);
    Strings.LeqIsOrder();
    forall g | g in grpc.accepted ensures Conflict(http, h, grpc, g) <==> Clash(http, h, grpc, g) {
      ConflictIsClash(http, h, grpc, g);
    }
  }

  /** A GRPCRoute is rejected exactly because of a clashing HTTPRoute that is older, or as old with a smaller namespace/name. */
  lemma GrpcRejectedIff(http: Side, grpc: Side, g: Route)
    requires ProperRoutes(http.accepted) && ProperRoutes(grpc.accepted) && g in grpc.accepted
    requires WellFormedHostnames(http) && WellFormedHostnames(grpc)
    ensures !GrpcSurvives(http, grpc, g) <==>
            exists h :: h in http.accepted && Clash(http, h, grpc, g)
                        && (h.created < g.created
                            || (h.created == g.created && RouteKey(h) != RouteKey(g) && Strings.Leq(RouteKey(h), RouteKey(g))))
  {
    SurvivesIff(http, grpc);
    forall h | h in http.accepted ensures Conflict(http, h, grpc, g) <==> Clash(http, h, grpc, g) {
      ConflictIsClash(http, h, grpc, g);
    }
  }

  /** Precedence over both kinds: age, then namespace/name, then GRPCRoute before HTTPRoute. */
  datatype Ranked = Ranked(route: Route, isHttp: bool)

  predicate Before(a: Ranked, b: Ranked)
  {
    if a.route.created != b.route.created then a.route.created < b.route.created
    else if RouteKey(a.route) != RouteKey(b.route) then Strings.Leq(RouteKey(a.route), RouteKey(b.route))
    else !a.isHttp || b.isHttp
  }

  lemma BeforeIsPreorder()
    ensures Preorder(Before)
  {
    Strings.LeqIsOrder();
  }

  function Everyone(http: Side, grpc: Side): seq<Ranked>
  {
    Map(http.accepted, (r: Route) => Ranked(r, true)) + Map(grpc.accepted, (r: Route) => Ranked(r, false))
  }

  lemma EveryoneMembers(http: Side, grpc: Side)
    ensures forall x: Ranked :: x in Everyone(http, grpc) <==> x.route in (if x.isHttp then http.accepted else grpc.accepted)
  {
    var hs, gs := Map(http.accepted, (r: Route) => Ranked(r, true)), Map(grpc.accepted, (r: Route) => Ranked(r, false));
    forall x: Ranked | x.route in (if x.isHttp then http.accepted else grpc.accepted) ensures x in hs + gs {
      var from := if x.isHttp then http.accepted else grpc.accepted;
      var i :| 0 <= i < |from| && from[i] == x.route;
      assert x == if x.isHttp then hs[i] else gs[i];
      assert x.isHttp ==> hs[i] in hs;
      assert !x.isHttp ==> gs[i] in gs;
    }
  }

  /** A winner of a pairing comes before its loser in the joint precedence. */
  lemma WinnerComesFirst(h: Route, g: Route)
    ensures Wins(h, g) ==> !Before(Ranked(g, false), Ranked(h, true))
    ensures !Wins(h, g) ==> !Before(Ranked(h, true), Ranked(g, false))
  {
    Strings.LeqIsOrder();
  }

  /** The first route in the joint precedence survives, so a resolution never rejects everyone. */
  lemma FirstSurvives(http: Side, grpc: Side) returns (first: Ranked)
    requires ProperRoutes(http.accepted) && ProperRoutes(grpc.accepted)
    requires http.accepted != [] || grpc.accepted != []
    ensures first in Everyone(http, grpc) && forall x :: x in Everyone(http, grpc) ==> Before(first, x)
    ensures if first.isHttp then HttpSurvives(http, grpc, first.route) else GrpcSurvives(http, grpc, first.route)
  {
    var all := Everyone(http, grpc);
    BeforeIsPreorder();
    first := Least(all);
    EveryoneMembers(http, grpc);
    SurvivesIff(http, grpc);
    if first.isHttp {
      forall g | g in grpc.accepted ensures Wins(first.route, g) {
        assert Ranked(g, false) in all;
        WinnerComesFirst(first.route, g);
      }
    } else {
      forall h | h in http.accepted ensures !Wins(h, first.route) {
        assert Ranked(h, true) in all;
        WinnerComesFirst(h, first.route);
      }
    }
  }

  lemma {:induction false} Least(all: seq<Ranked>) returns (first: Ranked)
    requires all != [] && Preorder(Before)
    ensures first in all && forall x :: x in all ==> Before(first, x)
  {
    var last := all[|all| - 1];
    var front := all[..|all| - 1];
    assert all == front + [last];
    if front == [] {
      first := last;
    } else {
      first := Least(front);
      if !Before(first, last) {
        first := last;
      }
    }
  }

  /** Nothing is lost or duplicated: what was accepted is now accepted or rejected. */
  lemma Conserved(accepted: seq<Route>, rejected: seq<Route>, losers: set<string>)
    ensures multiset(Survivors(accepted, losers)) + multiset(rejected + Rejected(accepted, losers))
            == multiset(accepted) + multiset(rejected)
  {
    var kept, gone := Survivors(accepted, losers), Rejected(accepted, losers);
    forall r ensures multiset(kept)[r] + multiset(gone)[r] == multiset(accepted)[r] {
      KeepMultiset(accepted, x => RouteKey(x) !in losers, r);
      KeepMultiset(accepted, x => RouteKey(x) in losers, r);
    }
    assert multiset(kept) + multiset(gone) == multiset(accepted);
    assert multiset(rejected + gone) == multiset(rejected) + multiset(gone);
  }

  predicate Rejecting(b: RouteBinding)
  {
    forall i :: i in b.results ==> !b.results[i].accepted
  }

  /** Exactly the losers lose their accepted bindings; every other verdict stays as it was. */
  lemma OnlyLosersRejected(bindings: Bindings, accepted: seq<Route>, losers: set<string>, r: Route, i: nat)
    requires r in accepted && RouteKey(r) in bindings && i in bindings[RouteKey(r)].results
    ensures var was, now := bindings[RouteKey(r)].results[i], BindingsAfter(bindings, accepted, losers)[RouteKey(r)].results[i];
            if RouteKey(r) in losers
            then !now.accepted && (was.accepted ==> now.reason == "Conflicted") && (!was.accepted ==> now == was)
            else now == was
    ensures RouteKey(r) in losers ==> Rejecting(BindingsAfter(bindings, accepted, losers)[RouteKey(r)])
  {
  }

  // ---------------------------------------------------------------- exactly one of two

  /** The route of a conflicting pair that the rule prefers. */
  ghost predicate WinnerSurvives(http: Side, grpc: Side, h: Route, g: Route)
  {
    if Wins(h, g) then !HttpLoses(http, grpc, h) else !GrpcLoses(http, grpc, g)
  }

  /**
   Of two conflicting routes at most one is accepted; exactly one is, unless the
   preferred one loses to a third route.
   */
  lemma ExactlyOneIff(http: Side, grpc: Side, h: Route, g: Route)
    requires ProperRoutes(http.accepted) && ProperRoutes(grpc.accepted)
    requires h in http.accepted && g in grpc.accepted && Conflict(http, h, grpc, g)
    ensures !(HttpSurvives(http, grpc, h) && GrpcSurvives(http, grpc, g))
    ensures (HttpSurvives(http, grpc, h) || GrpcSurvives(http, grpc, g)) <==> WinnerSurvives(http, grpc, h, g)
  {
    SurvivesIff(http, grpc);
    assert Wins(h, g) ==> GrpcLoses(http, grpc, g);
    assert !Wins(h, g) ==> HttpLoses(http, grpc, h);
  }

  /** Both of two conflicting routes can be rejected: the older loses to a third route that does not touch the younger. */
  lemma BothRejected()
    ensures exists http: Side, grpc: Side, h: Route, g: Route ::
              && ProperRoutes(http.accepted) && ProperRoutes(grpc.accepted)
              && h in http.accepted && g in grpc.accepted && Conflict(http, h, grpc, g)
              && !HttpSurvives(http, grpc, h) && !GrpcSurvives(http, grpc, g)
  {
    var oldest, g, h := Route("n", "a", 1, ["x"], ""), Route("n", "b", 2, [], ""), Route("n", "c", 3, ["y"], "");
    var on := RouteBinding(map[], {"gw"}, map[], map[]);
    var http := Routes.RouteResult([oldest, h], map[RouteKey(oldest) := on, RouteKey(h) := on]);
    var grpc := Routes.RouteResult([g], map[RouteKey(g) := on]);
    KeysDiffer();
    assert "gw" in {"gw"} * {"gw"};
    assert h in http.accepted && oldest in http.accepted && g in grpc.accepted;
    assert Conflict(http, oldest, grpc, g) && Conflict(http, h, grpc, g);
    assert GrpcLoses(http, grpc, g) && HttpLoses(http, grpc, h);
    assert ProperRoutes(http.accepted) && ProperRoutes(grpc.accepted);
    SurvivesIff(http, grpc);
  }

  lemma KeysDiffer()
    ensures RouteKey(Route("n", "a", 1, ["x"], "")) != RouteKey(Route("n", "c", 3, ["y"], ""))
  {
    assert ("n" + "/" + "a")[2] != ("n" + "/" + "c")[2];
  }

  /** The full tie, equal age and equal namespace/name, goes to the GRPCRoute. */
  lemma FullTieGoesToGrpc(http: Side, grpc: Side, h: Route, g: Route)
    requires ProperRoutes(http.accepted) && ProperRoutes(grpc.accepted)
    requires h in http.accepted && g in grpc.accepted && Conflict(http, h, grpc, g)
    requires h.created == g.created && RouteKey(h) == RouteKey(g)
    ensures !HttpSurvives(http, grpc, h)
  {
    SurvivesIff(http, grpc);
    assert !Wins(h, g);
    assert HttpLoses(http, grpc, h);
  }
}
