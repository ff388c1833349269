/**
 Reconciling one tunnel's ingress document: diff, apply, stable sort, catch-all,
 limit and unchanged checks (internal/ingress/diff.go and syncTunnelGroup in
 internal/controller/route_syncer.go).
 */
module IngressDocument {
  import opened Lists
  import Strings

  const CATCH_ALL_SERVICE := "http_status:404"
  const MAX_INGRESS_RULES := 1000

  /** A deployed rule, as read back from the API; absent fields read as empty. */
  datatype Rule = Rule(hostname: string, path: string, service: string)

  /** A rule to write: a field left out differs from a field set to the empty string. */
  datatype UpdateRule = UpdateRule(hostname: Option<string>, path: Option<string>, service: string)

  function FieldValue(f: Option<string>): string
  {
    match f case None => "" case Some(v) => v
  }

  /** What a written rule reads back as. */
  function ReadBack(r: UpdateRule): Rule
  {
    Rule(FieldValue(r.hostname), FieldValue(r.path), r.service)
  }

  function Field(v: string): Option<string>
  {
    if v == "" then None else Some(v)
  }

  /** A deployed rule in the form the writer uses. */
  function ToUpdate(r: Rule): UpdateRule
  {
    UpdateRule(Field(r.hostname), Field(r.path), r.service)
  }

  predicate IsCatchAll(r: Rule)
  {
    r.hostname == "" && r.service == CATCH_ALL_SERVICE
  }

  const CATCH_ALL := UpdateRule(None, None, CATCH_ALL_SERVICE)

  predicate Specific(r: UpdateRule)
  {
    !IsCatchAll(ReadBack(r))
  }

  function Documented(rules: seq<UpdateRule>): seq<Rule>
  {
    Map(rules, ReadBack)
  }

  /** The non-catch-all rules of a document, as a set. */
  function RuleSet(rules: seq<Rule>): set<Rule>
  {
    set r | r in rules && !IsCatchAll(r)
  }

  // ---------------------------------------------------------------- diff

  /** Desired rules that are not deployed. */
  function ToAdd(current: seq<Rule>, desired: seq<UpdateRule>): seq<UpdateRule>
  {
    Keep(desired, d => Specific(d) && ReadBack(d) !in current)
  }

  /** Deployed rules that are not desired. */
  function ToRemove(current: seq<Rule>, desired: seq<UpdateRule>): seq<Rule>
  {
    Keep(current, r => !IsCatchAll(r) && r !in Documented(desired))
  }

  method DiffRules(current: seq<Rule>, desired: seq<UpdateRule>) returns (toAdd: seq<UpdateRule>, toRemove: seq<Rule>)
    ensures toAdd == ToAdd(current, desired)
    ensures toRemove == ToRemove(current, desired)
  {
    toAdd := [];
    var add := (d: UpdateRule) => Specific(d) && ReadBack(d) !in current;
    for i := 0 to |desired|
      invariant toAdd == Keep(desired[..i], add)
    {
      var found := FindRule(ReadBack(desired[i]), current);
      if Specific(desired[i]) && !found {
        toAdd := toAdd + [desired[i]];
      }
      assert desired[..i + 1] == desired[..i] + [desired[i]];
      KeepSnoc(desired[..i], desired[i], add);
    }
    assert desired[..|desired|] == desired;
    toRemove := [];
    var documented := Documented(desired);
    var remove := (r: Rule) => !IsCatchAll(r) && r !in documented;
    for i := 0 to |current|
      invariant toRemove == Keep(current[..i], remove)
    {
      var found := FindRule(current[i], documented);
      if !IsCatchAll(current[i]) && !found {
        toRemove := toRemove + [current[i]];
      }
      assert current[..i + 1] == current[..i] + [current[i]];
      KeepSnoc(current[..i], current[i], remove);
    }
    assert current[..|current|] == current;
  }

  /** The inner search loop with its found flag. */
  method FindRule(rule: Rule, rules: seq<Rule>) returns (found: bool)
    ensures found <==> rule in rules
  {
    found := false;
    for i := 0 to |rules|
      invariant !found
      invariant rule !in rules[..i]
    {
      if rule.hostname == rules[i].hostname && rule.path == rules[i].path && rule.service == rules[i].service {
        return true;
      }
      assert rules[..i + 1] == rules[..i] + [rules[i]];
    }
    assert rules[..|rules|] == rules;
  }

  /** Deployed rules that stay, in the writer's form, followed by the additions. */
  function Applied(current: seq<Rule>, toAdd: seq<UpdateRule>, toRemove: seq<Rule>): seq<UpdateRule>
  {
    Map(Keep(current, r => !IsCatchAll(r) && r !in toRemove), ToUpdate) + toAdd
  }

  method ApplyDiff(current: seq<Rule>, toAdd: seq<UpdateRule>, toRemove: seq<Rule>) returns (result: seq<UpdateRule>)
    ensures result == Applied(current, toAdd, toRemove)
  {
    result := [];
    var keep := (r: Rule) => !IsCatchAll(r) && r !in toRemove;
    for i := 0 to |current|
      invariant result == Map(Keep(current[..i], keep), ToUpdate)
    {
      assert current[..i + 1] == current[..i] + [current[i]];
      KeepSnoc(current[..i], current[i], keep);
      if IsCatchAll(current[i]) {
        continue;
      }
      var shouldRemove := FindRule(current[i], toRemove);
      if !shouldRemove {
        result := result + [ToUpdate(current[i])];
      }
    }
    assert current[..|current|] == current;
    result := result + toAdd;
  }

  /** The document with exactly one catch-all, at the end. */
  function Closed(rules: seq<UpdateRule>): seq<UpdateRule>
  {
    Keep(rules, Specific) + [CATCH_ALL]
  }

  method EnsureCatchAll(rules: seq<UpdateRule>) returns (filtered: seq<UpdateRule>)
    ensures filtered == Closed(rules)
  {
    filtered := [];
    for i := 0 to |rules|
      invariant filtered == Keep(rules[..i], Specific)
    {
      if !IsCatchAll(ReadBack(rules[i])) {
        filtered := filtered + [rules[i]];
      }
      assert rules[..i + 1] == rules[..i] + [rules[i]];
      KeepSnoc(rules[..i], rules[i], Specific);
    }
    assert rules[..|rules|] == rules;
    filtered := filtered + [CATCH_ALL];
  }

  // ---------------------------------------------------------------- order

  /** Rules with a hostname first, alphabetically; longer paths first within a hostname. */
  predicate RuleLeq(l: UpdateRule, r: UpdateRule)
  {
    if l.hostname.Some? != r.hostname.Some? then l.hostname.Some?
    else if FieldValue(l.hostname) != FieldValue(r.hostname) then Strings.Leq(FieldValue(l.hostname), FieldValue(r.hostname))
    else |FieldValue(r.path)| <= |FieldValue(l.path)|
  }

  lemma RuleOrder()
    ensures Preorder(RuleLeq)
  {
    Strings.LeqIsOrder();
  }

  /** The whole pipeline from the deployed document and the desired rules to the document to write. */
  function Final(current: seq<Rule>, desired: seq<UpdateRule>): seq<UpdateRule>
  {
    Closed(SortBy(Applied(current, ToAdd(current, desired), ToRemove(current, desired)), RuleLeq))
  }

  predicate RulesUnchanged(current: seq<Rule>, next: seq<UpdateRule>)
  {
    |current| == |next| && forall i :: 0 <= i < |current| ==> current[i] == ReadBack(next[i])
  }

  datatype Outcome = LimitExceeded(count: nat) | Unchanged | Write(document: seq<UpdateRule>)

  function SyncOutcome(current: seq<Rule>, desired: seq<UpdateRule>): Outcome
  {
    var final := Final(current, desired);
    if |final| > MAX_INGRESS_RULES then LimitExceeded(|final|)
    else if RulesUnchanged(current, final) then Unchanged
    else Write(final)
  }

  method SyncTunnelDocument(current: seq<Rule>, desired: seq<UpdateRule>) returns (outcome: Outcome)
    ensures outcome == SyncOutcome(current, desired)
  {
    var toAdd, toRemove := DiffRules(current, desired);
    var applied := ApplyDiff(current, toAdd, toRemove);
    var final := EnsureCatchAll(SortBy(applied, RuleLeq));
    if |final| > MAX_INGRESS_RULES {
      return LimitExceeded(|final|);
    }
    if RulesUnchanged(current, final) {
      return Unchanged;
    }
    return Write(final);
  }

  // ---------------------------------------------------------------- contents

  lemma ReadBackOfUpdate(r: Rule)
    ensures ReadBack(ToUpdate(r)) == r
  {
  }

  /** Every rule that stays or is added is desired, and every desired rule stays or is added. */
  lemma AppliedContents(current: seq<Rule>, desired: seq<UpdateRule>)
    ensures var all := Applied(current, ToAdd(current, desired), ToRemove(current, desired));
            && (forall u :: u in all ==> Specific(u) && ReadBack(u) in Documented(desired))
            && (forall d :: d in desired && Specific(d) ==> ReadBack(d) in Documented(all))
  {
    var add, remove := ToAdd(current, desired), ToRemove(current, desired);
    var stays := (r: Rule) => !IsCatchAll(r) && r !in remove;
    var kept := Keep(current, stays);
    var all := Map(kept, ToUpdate) + add;
    KeepMembers(desired, d => Specific(d) && ReadBack(d) !in current);
    KeepMembers(current, r => !IsCatchAll(r) && r !in Documented(desired));
    KeepMembers(current, stays);
    forall u | u in all ensures Specific(u) && ReadBack(u) in Documented(desired) {
      var i :| 0 <= i < |all| && all[i] == u;
      if i < |kept| {
        assert u == ToUpdate(kept[i]) && kept[i] in kept;
        ReadBackOfUpdate(kept[i]);
      } else {
        assert u == add[i - |kept|];
        InDocument(desired, u);
      }
    }
    forall d | d in desired && Specific(d) ensures ReadBack(d) in Documented(all) {
      InDocument(desired, d);
      if ReadBack(d) in current {
        var i :| 0 <= i < |kept| && kept[i] == ReadBack(d);
        assert all[i] == ToUpdate(kept[i]);
        ReadBackOfUpdate(kept[i]);
        InDocument(all, all[i]);
      } else {
        assert d in add && d in all;
        InDocument(all, d);
      }
    }
  }

  lemma InDocument(rules: seq<UpdateRule>, u: UpdateRule)
    requires u in rules
    ensures ReadBack(u) in Documented(rules)
  {
    var i :| 0 <= i < |rules| && rules[i] == u;
    assert Documented(rules)[i] == ReadBack(u);
  }

  lemma FromDocument(rules: seq<UpdateRule>, r: Rule) returns (u: UpdateRule)
    requires r in Documented(rules)
    ensures u in rules && ReadBack(u) == r
  {
    var i :| 0 <= i < |rules| && Documented(rules)[i] == r;
    u := rules[i];
  }

  /** The sorted body of the final document: the pipeline never drops a rule at the catch-all step. */
  function Body(current: seq<Rule>, desired: seq<UpdateRule>): seq<UpdateRule>
  {
    SortBy(Applied(current, ToAdd(current, desired), ToRemove(current, desired)), RuleLeq)
  }

  lemma FinalIsBodyAndCatchAll(current: seq<Rule>, desired: seq<UpdateRule>)
    ensures Final(current, desired) == Body(current, desired) + [CATCH_ALL]
    ensures forall u :: u in Body(current, desired) ==> Specific(u)
    ensures Sorted(Body(current, desired), RuleLeq)
  {
    AppliedContents(current, desired);
    SortMembers(Applied(current, ToAdd(current, desired), ToRemove(current, desired)), RuleLeq);
    KeepAll(Body(current, desired), Specific);
    RuleOrder();
    SortSorted(Applied(current, ToAdd(current, desired), ToRemove(current, desired)), RuleLeq);
  }

  /** The final document serves exactly the desired rules, and its only catch-all is its last rule. */
  lemma FinalServesDesired(current: seq<Rule>, desired: seq<UpdateRule>)
    ensures var doc := Documented(Final(current, desired));
            && RuleSet(doc) == RuleSet(Documented(desired))
            && doc != [] && IsCatchAll(doc[|doc| - 1])
            && (forall i :: 0 <= i < |doc| - 1 ==> !IsCatchAll(doc[i]))
  {
    var body, final := Body(current, desired), Final(current, desired);
    var doc := Documented(final);
    FinalIsBodyAndCatchAll(current, desired);
    var all := Applied(current, ToAdd(current, desired), ToRemove(current, desired));
    AppliedContents(current, desired);
    SortMembers(all, RuleLeq);
    forall r | r in RuleSet(doc) ensures r in RuleSet(Documented(desired)) {
      var u := FromDocument(final, r);
      assert u in body;
    }
    forall r | r in RuleSet(Documented(desired)) ensures r in RuleSet(doc) {
      var d := FromDocument(desired, r);
      var u := FromDocument(all, r);
      assert u in body && u in final;
      InDocument(final, u);
    }
    forall i | 0 <= i < |doc| - 1 ensures !IsCatchAll(doc[i]) {
      assert final[i] == body[i] && body[i] in body;
    }
  }

  /** A rule for a hostname, or to a backend of its own. */
  predicate Routes(r: Rule)
  {
    r.hostname != "" || r.service != "http_status:404"
  }

  lemma RuleSetRoutes(doc: seq<Rule>, r: Rule)
    ensures r in RuleSet(doc) <==> Routes(r) && r in doc
  {
  }

  lemma FrontIsRuleSet(doc: seq<Rule>, r: Rule)
    requires doc != [] && IsCatchAll(doc[|doc| - 1])
    requires forall i :: 0 <= i < |doc| - 1 ==> !IsCatchAll(doc[i])
    ensures r in doc[..|doc| - 1] <==> r in RuleSet(doc)
  {
    var front := doc[..|doc| - 1];
    assert doc == front + [doc[|doc| - 1]];
    if r in front {
      var i :| 0 <= i < |front| && front[i] == r;
      assert r == doc[i];
    }
  }

  lemma EndsWith404(current: seq<Rule>, desired: seq<UpdateRule>)
    ensures var doc := Documented(Final(current, desired)); doc != [] && doc[|doc| - 1] == Rule("", "", "http_status:404")
  {
    FinalIsBodyAndCatchAll(current, desired);
  }

  /** The final document has exactly the desired rules that route somewhere, and ends with the one rule that answers 404. */
  lemma FinalRoutesDesired(current: seq<Rule>, desired: seq<UpdateRule>, r: Rule)
    ensures var doc := Documented(Final(current, desired));
            && doc != [] && doc[|doc| - 1] == Rule("", "", "http_status:404")
            && (r in doc[..|doc| - 1] <==> Routes(r) && r in Documented(desired))
  {
    EndsWith404(current, desired);
    FinalServesDesired(current, desired);
    FrontIsRuleSet(Documented(Final(current, desired)), r);
    RuleSetRoutes(Documented(desired), r);
  }

  /** A sync fails over 1000 rules, writes nothing if the document is already deployed, and writes it otherwise. */
  lemma OutcomeIs(current: seq<Rule>, desired: seq<UpdateRule>)
    ensures var final := Final(current, desired);
            SyncOutcome(current, desired) ==
            if |final| > 1000 then LimitExceeded(|final|)
            else if Documented(final) == current then Unchanged
            else Write(final)
  {
    var final := Final(current, desired);
    if RulesUnchanged(current, final) {
      assert Documented(final) == current;
    }
  }

  /** Rules with a hostname first, ascending; within one hostname longer paths first. */
  predicate RulesInOrder(x: UpdateRule, y: UpdateRule)
  {
    && (y.hostname.Some? ==> x.hostname.Some?)
    && (x.hostname.Some? && y.hostname.Some? ==> Strings.Leq(x.hostname.value, y.hostname.value))
    && (x.hostname == y.hostname ==> |FieldValue(x.path)| >= |FieldValue(y.path)|)
  }

  /** The rules before the catch-all are in order. */
  lemma FinalInOrder(current: seq<Rule>, desired: seq<UpdateRule>, i: nat, j: nat)
    requires i < j < |Final(current, desired)| - 1
    ensures RulesInOrder(Final(current, desired)[i], Final(current, desired)[j])
  {
    FinalIsBodyAndCatchAll(current, desired);
    Strings.LeqIsOrder();
    assert RuleLeq(Body(current, desired)[i], Body(current, desired)[j]);
  }

  /** The rules for one hostname, or for none, with paths of one length. */
  function Alike(hostname: Option<string>, pathLength: nat): UpdateRule -> bool
  {
    (u: UpdateRule) => u.hostname == hostname && |FieldValue(u.path)| == pathLength
  }

  /** Rules that the order does not tell apart stay as they were: deployed ones first, then the additions, each in order. */
  lemma FinalKeepsTies(current: seq<Rule>, desired: seq<UpdateRule>, hostname: Option<string>, pathLength: nat)
    ensures var final, same := Final(current, desired), Alike(hostname, pathLength);
            Keep(final[..|final| - 1], same) ==
            Keep(Map(Staying(current, desired), ToUpdate), same) + Keep(ToAdd(current, desired), same)
  {
    var add, remove, same := ToAdd(current, desired), ToRemove(current, desired), Alike(hostname, pathLength);
    FinalIsBodyAndCatchAll(current, desired);
    assert Final(current, desired)[..|Final(current, desired)| - 1] == Body(current, desired);
    assert Tied(same, RuleLeq);
    SortStable(Applied(current, add, remove), RuleLeq, same);
    StayingIsApplied(current, desired);
    KeepConcat(Map(Staying(current, desired), ToUpdate), add, same);
  }

  lemma StayingIsApplied(current: seq<Rule>, desired: seq<UpdateRule>)
    ensures Applied(current, ToAdd(current, desired), ToRemove(current, desired))
            == Map(Staying(current, desired), ToUpdate) + ToAdd(current, desired)
  {
    var remove := ToRemove(current, desired);
    KeepMembers(current, r => !IsCatchAll(r) && r !in Documented(desired));
    KeepCongruent(current, r => !IsCatchAll(r) && r !in remove, r => !IsCatchAll(r) && r in Documented(desired));
  }

  /** The deployed rules that stay: those that are desired. */
  function Staying(current: seq<Rule>, desired: seq<UpdateRule>): seq<Rule>
  {
    Keep(current, r => !IsCatchAll(r) && r in Documented(desired))
  }

  /** The desired rules that are new. */
  function Adding(current: seq<Rule>, desired: seq<UpdateRule>): seq<Rule>
  {
    Keep(Documented(desired), r => !IsCatchAll(r) && r !in current)
  }

  lemma AppliedReads(current: seq<Rule>, desired: seq<UpdateRule>)
    ensures Documented(Applied(current, ToAdd(current, desired), ToRemove(current, desired)))
            == Staying(current, desired) + Adding(current, desired)
  {
    var add, remove := ToAdd(current, desired), ToRemove(current, desired);
    var stays := (r: Rule) => !IsCatchAll(r) && r !in remove;
    var kept := Keep(current, stays);
    KeepMembers(current, r => !IsCatchAll(r) && r !in Documented(desired));
    KeepCongruent(current, stays, r => !IsCatchAll(r) && r in Documented(desired));
    assert Map(Map(kept, ToUpdate), ReadBack) == kept;
    MapKeep(desired, ReadBack, r => !IsCatchAll(r) && r !in current, d => Specific(d) && ReadBack(d) !in current);
    assert Documented(Map(kept, ToUpdate) + add) == Map(Map(kept, ToUpdate), ReadBack) + Documented(add);
  }

  /** The final document reads as the rules that stay, the rules that are new and the catch-all, counted. */
  lemma FinalReads(current: seq<Rule>, desired: seq<UpdateRule>)
    ensures multiset(Documented(Final(current, desired)))
            == multiset(Staying(current, desired)) + multiset(Adding(current, desired)) + multiset{ReadBack(CATCH_ALL)}
    ensures |Final(current, desired)| == |Staying(current, desired)| + |Adding(current, desired)| + 1
  {
    var all := Applied(current, ToAdd(current, desired), ToRemove(current, desired));
    FinalIsBodyAndCatchAll(current, desired);
    AppliedReads(current, desired);
    SortMapped(all, RuleLeq, ReadBack);
    assert Documented(Final(current, desired)) == Documented(Body(current, desired)) + [ReadBack(CATCH_ALL)];
    var doc := Documented(Final(current, desired));
    assert multiset(doc) == multiset(Staying(current, desired) + Adding(current, desired)) + multiset{ReadBack(CATCH_ALL)};
    SameLength(doc, Staying(current, desired) + Adding(current, desired) + [ReadBack(CATCH_ALL)]);
  }

  /**
   How often the final document has a rule: a deployed rule that is desired as often as
   it was deployed, a new one as often as it is desired, and no other rule at all.
   */
  lemma FinalCounts(current: seq<Rule>, desired: seq<UpdateRule>, r: Rule)
    requires !IsCatchAll(r)
    ensures multiset(Documented(Final(current, desired)))[r] ==
            if r !in Documented(desired) then 0
            else if r in current then multiset(current)[r]
            else multiset(Documented(desired))[r]
  {
    FinalReads(current, desired);
    KeepMultiset(current, x => !IsCatchAll(x) && x in Documented(desired), r);
    KeepMultiset(Documented(desired), x => !IsCatchAll(x) && x !in current, r);
    assert IsCatchAll(ReadBack(CATCH_ALL));
  }

  // ---------------------------------------------------------------- convergence

  /** A rule as the writer would see it after one trip through the API. */
  function Normal(u: UpdateRule): UpdateRule
  {
    ToUpdate(ReadBack(u))
  }

  /** The hostname is set, but to the empty string, which the API does not tell from an absent one. */
  predicate EmptyHostname(u: UpdateRule)
  {
    u.hostname == Some("")
  }

  lemma NormalKeepsOrder(u: UpdateRule, v: UpdateRule)
    requires !EmptyHostname(u)
    ensures RuleLeq(u, v) ==> RuleLeq(Normal(u), Normal(v))
    ensures RuleLeq(Normal(u), v) == RuleLeq(u, v)
    ensures EmptyHostname(v) ==> !RuleLeq(u, v)
  {
    if EmptyHostname(v) && u.hostname.Some? {
      Strings.LeqIsOrder();
      assert !Strings.Leq(u.hostname.value, "") by { assert u.hostname.value != ""; }
    }
  }

  /** The second pass over a written document keeps every rule, in order, and adds none. */
  lemma SecondPass(current: seq<Rule>, desired: seq<UpdateRule>)
    ensures var doc := Documented(Final(current, desired));
            Applied(doc, ToAdd(doc, desired), ToRemove(doc, desired)) == Map(Body(current, desired), Normal)
  {
    var body, final := Body(current, desired), Final(current, desired);
    var doc := Documented(final);
    FinalIsBodyAndCatchAll(current, desired);
    FinalServesDesired(current, desired);
    var served := Documented(body);
    assert doc == served + [ReadBack(CATCH_ALL)];
    KeepNone(desired, d => Specific(d) && ReadBack(d) !in doc) by {
      forall d | d in desired ensures !(Specific(d) && ReadBack(d) !in doc) {
        InDocument(desired, d);
        assert Specific(d) ==> ReadBack(d) in RuleSet(doc);
      }
    }
    KeepNone(doc, r => !IsCatchAll(r) && r !in Documented(desired)) by {
      forall r | r in doc ensures !(!IsCatchAll(r) && r !in Documented(desired)) {
        assert !IsCatchAll(r) ==> r in RuleSet(Documented(desired));
      }
    }
    var stays := (r: Rule) => !IsCatchAll(r) && r !in ToRemove(doc, desired);
    forall r | r in served ensures stays(r) {
      var u := FromDocument(body, r);
    }
    KeepAll(served, stays);
    KeepSnoc(served, ReadBack(CATCH_ALL), stays);
    assert Map(served, ToUpdate) == Map(body, Normal);
  }

  /** The document the second pass writes. */
  lemma SecondFinal(current: seq<Rule>, desired: seq<UpdateRule>)
    ensures Final(Documented(Final(current, desired)), desired)
            == SortBy(Map(Body(current, desired), Normal), RuleLeq) + [CATCH_ALL]
  {
    SecondPass(current, desired);
    FinalIsBodyAndCatchAll(Documented(Final(current, desired)), desired);
  }

  /**
   The guard of the one case in which one write is not enough: an added rule
   whose hostname is set to the empty string sorts among the hostnames when it
   is written and behind them once it is read back.
   */
  predicate SettlesAtOnce(current: seq<Rule>, desired: seq<UpdateRule>)
  {
    var add := ToAdd(current, desired);
    var rest := Applied(current, add, ToRemove(current, desired));
    forall p, q :: p in add && EmptyHostname(p) && q in rest && !EmptyHostname(q) ==> RuleLeq(Normal(p), Normal(q))
  }

  lemma SettledBodyStaysSorted(current: seq<Rule>, desired: seq<UpdateRule>)
    requires SettlesAtOnce(current, desired)
    ensures Sorted(Map(Body(current, desired), Normal), RuleLeq)
  {
    var body := Body(current, desired);
    var add := ToAdd(current, desired);
    var rest := Applied(current, add, ToRemove(current, desired));
    FinalIsBodyAndCatchAll(current, desired);
    SortMembers(rest, RuleLeq);
    forall i, j | 0 <= i < j < |body| ensures RuleLeq(Normal(body[i]), Normal(body[j])) {
      assert body[i] in body && body[j] in body && RuleLeq(body[i], body[j]);
      if !EmptyHostname(body[i]) {
        NormalKeepsOrder(body[i], body[j]);
      } else if !EmptyHostname(body[j]) {
        EmptyHostnameIsAdded(current, desired, body[i]);
      }
    }
  }

  lemma EmptyHostnameIsAdded(current: seq<Rule>, desired: seq<UpdateRule>, u: UpdateRule)
    requires u in Applied(current, ToAdd(current, desired), ToRemove(current, desired)) && EmptyHostname(u)
    ensures u in ToAdd(current, desired)
  {
    var kept := Keep(current, r => !IsCatchAll(r) && r !in ToRemove(current, desired));
    assert forall i :: 0 <= i < |kept| ==> !EmptyHostname(Map(kept, ToUpdate)[i]);
  }

  lemma SortedBodySettles(current: seq<Rule>, desired: seq<UpdateRule>)
    requires Sorted(Map(Body(current, desired), Normal), RuleLeq)
    ensures SettlesAtOnce(current, desired)
  {
    var body := Body(current, desired);
    var add := ToAdd(current, desired);
    var rest := Applied(current, add, ToRemove(current, desired));
    FinalIsBodyAndCatchAll(current, desired);
    SortMembers(rest, RuleLeq);
    forall p, q | p in add && EmptyHostname(p) && q in rest && !EmptyHostname(q) ensures RuleLeq(Normal(p), Normal(q)) {
      assert p in rest && p in body && q in body;
      EmptyHostnameFirst(body, p, q);
    }
  }

  /** In a sorted body an empty hostname comes before every other rule, also once it is read back. */
  lemma EmptyHostnameFirst(body: seq<UpdateRule>, p: UpdateRule, q: UpdateRule)
    requires Sorted(body, RuleLeq) && Sorted(Map(body, Normal), RuleLeq)
    requires p in body && q in body && EmptyHostname(p) && !EmptyHostname(q)
    ensures RuleLeq(Normal(p), Normal(q))
  {
    var i :| 0 <= i < |body| && body[i] == p;
    var j :| 0 <= j < |body| && body[j] == q;
    NormalKeepsOrder(q, p);
    assert i != j && !(j < i);
    assert Map(body, Normal)[i] == Normal(p) && Map(body, Normal)[j] == Normal(q);
  }

  /** Every rule of a sorted list of read-back rules is determined by what it reads back as. */
  lemma {:induction false} SecondPassNormal(normal: seq<UpdateRule>, i: nat)
    requires forall u :: u in normal ==> Normal(u) == u
    requires i < |normal|
    ensures |SortBy(normal, RuleLeq)| == |normal|
    ensures Normal(SortBy(normal, RuleLeq)[i]) == SortBy(normal, RuleLeq)[i]
  {
    SortMultiset(normal, RuleLeq);
    SameLength(SortBy(normal, RuleLeq), normal);
    SortMembers(normal, RuleLeq);
    assert SortBy(normal, RuleLeq)[i] in SortBy(normal, RuleLeq);
  }

  lemma SettledIsUnchanged(current: seq<Rule>, desired: seq<UpdateRule>)
    requires SettlesAtOnce(current, desired)
    ensures RulesUnchanged(Documented(Final(current, desired)), Final(Documented(Final(current, desired)), desired))
  {
    FinalIsBodyAndCatchAll(current, desired);
    SecondFinal(current, desired);
    SettledBodyStaysSorted(current, desired);
    SortedIsFixed(Map(Body(current, desired), Normal), RuleLeq);
  }

  lemma UnchangedIsSettled(current: seq<Rule>, desired: seq<UpdateRule>)
    requires RulesUnchanged(Documented(Final(current, desired)), Final(Documented(Final(current, desired)), desired))
    ensures SettlesAtOnce(current, desired)
  {
    var body := Body(current, desired);
    FinalIsBodyAndCatchAll(current, desired);
    SecondFinal(current, desired);
    UnchangedBodySorted(body);
    SortedBodySettles(current, desired);
  }

  lemma UnchangedBodySorted(body: seq<UpdateRule>)
    requires RulesUnchanged(Documented(body + [CATCH_ALL]), SortBy(Map(body, Normal), RuleLeq) + [CATCH_ALL])
    ensures Sorted(Map(body, Normal), RuleLeq)
  {
    var normal := Map(body, Normal);
    var sorted := SortBy(normal, RuleLeq);
    var doc, again := Documented(body + [CATCH_ALL]), sorted + [CATCH_ALL];
    SortMultiset(normal, RuleLeq);
    SameLength(sorted, normal);
    forall i | 0 <= i < |body| ensures sorted[i] == normal[i] {
      SecondPassNormal(normal, i);
      assert doc[i] == ReadBack(body[i]) && again[i] == sorted[i];
    }
    assert sorted == normal;
    RuleOrder();
    SortSorted(normal, RuleLeq);
  }

  /**
   One write reaches a fixpoint exactly when no added empty-hostname rule is out
   of place: then running the pipeline on its own document gives that document
   back rule for rule.
   */
  lemma OneWriteFixpointIff(current: seq<Rule>, desired: seq<UpdateRule>)
    ensures var final := Final(current, desired);
            RulesUnchanged(Documented(final), Final(Documented(final), desired)) <==> SettlesAtOnce(current, desired)
  {
    if SettlesAtOnce(current, desired) {
      SettledIsUnchanged(current, desired);
    }
    var first := Documented(Final(current, desired));
    if RulesUnchanged(first, Final(first, desired)) {
      UnchangedIsSettled(current, desired);
    }
  }

  /** With non-empty hostnames, as the rule builders produce them, the write after a write is never made. */
  lemma OneWriteIsEnough(current: seq<Rule>, desired: seq<UpdateRule>)
    requires forall d :: d in desired && Specific(d) ==> !EmptyHostname(d)
    requires SyncOutcome(current, desired).Write?
    ensures SyncOutcome(Documented(SyncOutcome(current, desired).document), desired) == Unchanged
  {
    var final := Final(current, desired);
    KeepMembers(desired, d => Specific(d) && ReadBack(d) !in current);
    assert SettlesAtOnce(current, desired);
    OneWriteFixpointIff(current, desired);
  }

  /** Whatever the hostnames, the third pass never writes. */
  lemma TwoWritesAreEnough(current: seq<Rule>, desired: seq<UpdateRule>)
    ensures var first := Documented(Final(current, desired));
            var second := Documented(Final(first, desired));
            RulesUnchanged(second, Final(second, desired))
  {
    var first := Documented(Final(current, desired));
    FinalServesDesired(current, desired);
    KeepNone(desired, d => Specific(d) && ReadBack(d) !in first) by {
      forall d | d in desired ensures !(Specific(d) && ReadBack(d) !in first) {
        InDocument(desired, d);
        assert Specific(d) ==> ReadBack(d) in RuleSet(first);
      }
    }
    assert SettlesAtOnce(first, desired);
    OneWriteFixpointIff(first, desired);
  }

  /** The failing family is not empty: an empty hostname next to a real one is written twice. */
  lemma EmptyHostnameWritesTwice()
    ensures var desired := [UpdateRule(Some(""), None, "a"), UpdateRule(Some("h"), None, "b")];
            var first := Documented(Final([], desired));
            !RulesUnchanged(first, Final(first, desired))
  {
    var p, q := UpdateRule(Some(""), None, "a"), UpdateRule(Some("h"), None, "b");
    var desired := [p, q];
    KeepMembers(desired, d => Specific(d) && ReadBack(d) !in []);
    assert p in desired && q in desired;
    assert p in ToAdd([], desired) && q in ToAdd([], desired);
    assert !RuleLeq(Normal(p), Normal(q));
    assert !SettlesAtOnce([], desired);
    OneWriteFixpointIff([], desired);
  }
}
