/**
 Hostname patterns, their intersection test (internal/controller/route_crosstype.go)
 and the per-namespace ownership policy (internal/hostnameownership/policy.go),
 related to the concrete hosts the patterns stand for.
 */
module Hostnames {
  import opened Lists
  import opened Strings

  // ---------------------------------------------------------------- string tests

  predicate IsWildcard(hostname: string)
  {
    HasPrefix(hostname, "*.")
  }

  predicate WildcardCovers(wildcard: string, host: string)
    requires wildcard != ""
  {
    HasSuffix(host, wildcard[1..]) && |host| > |wildcard[1..]|
  }

  predicate HostnameMatches(left: string, right: string)
  {
    if !IsWildcard(left) && !IsWildcard(right) then left == right
    else if IsWildcard(left) && !IsWildcard(right) then WildcardCovers(left, right)
    else if !IsWildcard(left) then WildcardCovers(right, left)
    else HasSuffix(left[1..], right[1..]) || HasSuffix(right[1..], left[1..])
  }

  predicate HostnamesIntersect(left: seq<string>, right: seq<string>)
  {
    left == [] || right == [] || exists l, r :: l in left && r in right && HostnameMatches(l, r)
  }

  // ---------------------------------------------------------------- denotation

  /** A label is not empty and contains neither the label separator nor the wildcard character. */
  predicate ValidLabel(l: string)
  {
    l != "" && '.' !in l && '*' !in l
  }

  predicate ValidLabels(ls: seq<string>)
  {
    ls != [] && forall l :: l in ls ==> ValidLabel(l)
  }

  /** The labels a hostname spells out, without its wildcard. */
  function LabelsOf(hostname: string): seq<string>
  {
    Split(if IsWildcard(hostname) then hostname[2..] else hostname, '.')
  }

  predicate WellFormed(hostname: string)
  {
    ValidLabels(LabelsOf(hostname))
  }

  /** A concrete host, as a list of labels, is one the hostname stands for. */
  predicate Covers(hostname: string, host: seq<string>)
  {
    if IsWildcard(hostname) then |host| > |LabelsOf(hostname)| && IsTail(host, LabelsOf(hostname))
    else host == LabelsOf(hostname)
  }

  /** A route without hostnames serves every host. */
  predicate Serves(hostnames: seq<string>, host: seq<string>)
  {
    hostnames == [] || exists h :: h in hostnames && Covers(h, host)
  }

  ghost predicate ShareHost(left: seq<string>, right: seq<string>)
  {
    exists host :: ValidLabels(host) && Serves(left, host) && Serves(right, host)
  }

  // ---------------------------------------------------------------- text and labels

  /** Parts that can be told apart after they are joined with dots. */
  predicate DotFree(ls: seq<string>)
  {
    ls != [] && forall l :: l in ls ==> '.' !in l
  }

  lemma {:induction false} SplitDotFree(s: string)
    ensures DotFree(Split(s, '.'))
    decreases |s|
  {
    var k := IndexOf(s, '.');
    if k == |s| {
      assert Split(s, '.') == [s];
    } else {
      SplitDotFree(s[k + 1..]);
      assert Split(s, '.') == [s[..k]] + Split(s[k + 1..], '.');
    }
  }

  lemma {:induction false} SplitOnce(s: string, sep: char)
    requires IndexOf(s, sep) < |s|
    ensures var k := IndexOf(s, sep);
            Split(s, sep) == [s[..k]] + Split(s[k + 1..], sep) && s == s[..k] + [sep] + s[k + 1..]
  {
    var k := IndexOf(s, sep);
    assert s == s[..k] + [s[k]] + s[k + 1..];
  }

  lemma {:induction false} JoinOnto(x: string, parts: seq<string>, sep: char, rest: string)
    requires parts != [] && Join(parts, sep) == rest
    ensures Join([x] + parts, sep) == x + [sep] + rest
  {
    JoinCons(x, parts, sep);
  }

  lemma {:induction false} JoinSplit(s: string, sep: char)
    ensures Join(Split(s, sep), sep) == s
    decreases |s|
  {
    var k := IndexOf(s, sep);
    if k < |s| {
      JoinSplit(s[k + 1..], sep);
      SplitOnce(s, sep);
      JoinOnto(s[..k], Split(s[k + 1..], sep), sep, s[k + 1..]);
    } else {
      assert Split(s, sep) == [s];
    }
  }

  lemma {:induction false} JoinConcat(a: seq<string>, b: seq<string>)
    requires a != [] && b != []
    ensures Join(a + b, '.') == Join(a, '.') + "." + Join(b, '.')
  {
    var x, rest := a[0], a[1..];
    assert a == [x] + rest;
    if rest == [] {
      assert a + b == [x] + b;
      JoinCons(x, b, '.');
    } else {
      assert a + b == [x] + (rest + b);
      JoinConcat(rest, b);
      JoinCons(x, rest, '.');
      JoinCons(x, rest + b, '.');
    }
  }

  lemma {:induction false} JoinUnique(a: seq<string>, b: seq<string>)
    requires DotFree(a) && DotFree(b) && Join(a, '.') == Join(b, '.')
    ensures a == b
  {
    SplitJoin(a, '.');
    SplitJoin(b, '.');
  }

  lemma {:induction false} LabelTailIsText(front: seq<string>, p: seq<string>)
    requires p != [] && front != []
    ensures HasSuffix(Join(front + p, '.'), "." + Join(p, '.'))
  {
    JoinConcat(front, p);
    assert Join(front + p, '.') == Join(front, '.') + ("." + Join(p, '.'));
    TailOfConcat(Join(front, '.'), "." + Join(p, '.'));
  }

  /** Ending in a dot and some labels, as text, is ending in those labels with more in front. */
  lemma {:induction false} DotSuffixIff(h: seq<string>, p: seq<string>)
    requires DotFree(h) && DotFree(p)
    ensures HasSuffix(Join(h, '.'), "." + Join(p, '.')) <==> |p| < |h| && IsTail(h, p)
  {
    if HasSuffix(Join(h, '.'), "." + Join(p, '.')) {
      DotSuffixLabels(h, p);
    } else if |p| < |h| && IsTail(h, p) {
      var k := |h| - |p|;
      assert h == h[..k] + p;
      LabelTailIsText(h[..k], p);
    }
  }

  lemma {:induction false} DotSuffixLabels(h: seq<string>, p: seq<string>)
    requires DotFree(h) && DotFree(p) && HasSuffix(Join(h, '.'), "." + Join(p, '.'))
    ensures |p| < |h| && IsTail(h, p)
  {
    var text, tail := Join(h, '.'), "." + Join(p, '.');
    var at := |text| - |tail|;
    assert text[at] == text[at..][0] == '.';
    assert h[0] in h && '.' !in h[0];
    if |h| > 1 {
      var rest := h[1..];
      assert text == h[0] + "." + Join(rest, '.');
      assert forall i :: 0 <= i < |h[0]| ==> text[i] == h[0][i];
      assert at >= |h[0]|;
      if at == |h[0]| {
        assert text[at..] == "." + Join(rest, '.');
        assert Join(p, '.') == tail[1..] && Join(rest, '.') == text[at..][1..];
        JoinUnique(p, rest);
      } else {
        var cut := at - |h[0]| - 1;
        assert Join(rest, '.')[cut..] == text[at..];
        DotSuffixLabels(rest, p);
        assert h[|h| - |p|..] == rest[|rest| - |p|..];
      }
    }
  }

  /** Two dotted suffixes, one a suffix of the other as text: one label list ends in the other. */
  lemma {:induction false} DotDotSuffixIff(a: seq<string>, b: seq<string>)
    requires DotFree(a) && DotFree(b)
    ensures HasSuffix("." + Join(a, '.'), "." + Join(b, '.')) <==> IsTail(a, b)
  {
    var text, tail := "." + Join(a, '.'), "." + Join(b, '.');
    JoinConcat(["x"], a);
    assert Join(["x"] + a, '.') == ['x'] + text;
    DotSuffixIff(["x"] + a, b);
    TailOfCons('x', text, tail);
    TailOfCons("x", a, b);
    assert tail[0] != (['x'] + text)[0];
  }

  lemma Spelled(hostname: string)
    requires WellFormed(hostname)
    ensures IsWildcard(hostname) ==> hostname[1..] == "." + Join(LabelsOf(hostname), '.')
    ensures !IsWildcard(hostname) ==> hostname == Join(LabelsOf(hostname), '.')
  {
    if IsWildcard(hostname) {
      JoinSplit(hostname[2..], '.');
      assert hostname[1..] == [hostname[1]] + hostname[2..];
      assert hostname[..2] == "*.";
      assert hostname[1] == hostname[..2][1];
    } else {
      JoinSplit(hostname, '.');
    }
  }

  // ---------------------------------------------------------------- the test decides the denotation

  lemma WildcardCoversIff(wildcard: string, host: string)
    requires WellFormed(wildcard) && WellFormed(host) && IsWildcard(wildcard) && !IsWildcard(host)
    ensures WildcardCovers(wildcard, host) <==> Covers(wildcard, LabelsOf(host))
  {
    Spelled(wildcard);
    Spelled(host);
    var h, p := LabelsOf(host), LabelsOf(wildcard);
    DotSuffixIff(h, p);
    if HasSuffix(host, wildcard[1..]) {
      assert h[0] in h && '.' !in h[0] && h[0] != "";
      assert host[0] == h[0][0] by {
        if |h| > 1 {
          assert host == h[0] + "." + Join(h[1..], '.');
        }
      }
    }
  }

  /** A host one label below `ls`. */
  lemma BelowIsCovered(ls: seq<string>, x: string)
    requires ValidLabels(ls) && ValidLabel(x)
    ensures ValidLabels([x] + ls) && IsTail([x] + ls, ls)
  {
  }

  lemma MatchHasHost(l: string, r: string) returns (host: seq<string>)
    requires WellFormed(l) && WellFormed(r) && HostnameMatches(l, r)
    ensures ValidLabels(host) && Covers(l, host) && Covers(r, host)
  {
    var a, b := LabelsOf(l), LabelsOf(r);
    if !IsWildcard(l) && !IsWildcard(r) {
      host := a;
    } else if !IsWildcard(r) {
      WildcardCoversIff(l, r);
      host := b;
    } else if !IsWildcard(l) {
      WildcardCoversIff(r, l);
      host := a;
    } else {
      Spelled(l);
      Spelled(r);
      DotDotSuffixIff(a, b);
      DotDotSuffixIff(b, a);
      var longer := if |a| < |b| then b else a;
      host := ["x"] + longer;
      BelowIsCovered(longer, "x");
      assert IsTail(longer, a) && IsTail(longer, b);
      TailTransitive(host, longer, a);
      TailTransitive(host, longer, b);
    }
  }

  lemma HostHasMatch(l: string, r: string, host: seq<string>)
    requires WellFormed(l) && WellFormed(r) && Covers(l, host) && Covers(r, host)
    ensures HostnameMatches(l, r)
  {
    var a, b := LabelsOf(l), LabelsOf(r);
    if !IsWildcard(l) && !IsWildcard(r) {
      Spelled(l);
      Spelled(r);
    } else if !IsWildcard(r) {
      WildcardCoversIff(l, r);
    } else if !IsWildcard(l) {
      WildcardCoversIff(r, l);
    } else {
      Spelled(l);
      Spelled(r);
      DotDotSuffixIff(a, b);
      DotDotSuffixIff(b, a);
      if |a| <= |b| {
        TailsNest(host, a, b);
      } else {
        TailsNest(host, b, a);
      }
    }
  }

  /** The intersection test answers exactly whether the two hostname lists share a concrete host. */
  lemma IntersectIffShareHost(left: seq<string>, right: seq<string>)
    requires forall h :: h in left + right ==> WellFormed(h)
    ensures HostnamesIntersect(left, right) <==> ShareHost(left, right)
  {
    assert forall h :: h in left || h in right ==> h in left + right;
    if ShareHost(left, right) && left != [] && right != [] {
      var host :| ValidLabels(host) && Serves(left, host) && Serves(right, host);
      var l :| l in left && Covers(l, host);
      var r :| r in right && Covers(r, host);
      HostHasMatch(l, r, host);
    }
    if HostnamesIntersect(left, right) {
      var host := SharedHost(left, right);
    }
  }

  lemma SharedHost(left: seq<string>, right: seq<string>) returns (host: seq<string>)
    requires forall h :: h in left ==> WellFormed(h)
    requires forall h :: h in right ==> WellFormed(h)
    requires HostnamesIntersect(left, right)
    ensures ValidLabels(host) && Serves(left, host) && Serves(right, host)
  {
    if left == [] && right == [] {
      host := ["x"];
    } else if left == [] || right == [] {
      var some := if left == [] then right[0] else left[0];
      assert some in left + right;
      host := MatchHasHost(some, some) by { SelfMatch(some); }
    } else {
      var l, r :| l in left && r in right && HostnameMatches(l, r);
      host := MatchHasHost(l, r);
    }
  }

  lemma SelfMatch(h: string)
    ensures HostnameMatches(h, h)
  {
    if IsWildcard(h) {
      assert h[1..][|h[1..]| - |h[1..]|..] == h[1..];
    }
  }

  // ---------------------------------------------------------------- ownership

  function LowerChar(c: char): char
  {
    if 'A' <= c <= 'Z' then (c as int + 32) as char else c
  }

  /** strings.ToLower on the ASCII texts hostnames and label values are limited to. */
  function Lower(s: string): (r: string)
    ensures |r| == |s|
  {
    Map(s, LowerChar)
  }

  /** The ASCII capitals become their small letters, and nothing else changes. */
  lemma LowerIs(c: char)
    ensures if 65 <= c as int <= 90 then LowerChar(c) == "abcdefghijklmnopqrstuvwxyz"[c as int - 65] else LowerChar(c) == c
  {
  }

  function TrimWildcard(hostname: string): string
  {
    if IsWildcard(hostname) then hostname[2..] else hostname
  }

  /** `name` is `suffix` or a subdomain of it, cut at a dot. */
  predicate WithinDomain(name: string, suffix: string)
  {
    name == suffix || HasSuffix(name, "." + suffix)
  }

  predicate HostnameWithinSuffix(hostname: string, suffix: string)
  {
    WithinDomain(TrimWildcard(Lower(hostname)), suffix)
  }

  type NamespaceLabels = map<string, string>

  /** `selector` is the compiled namespace selector; None polices every namespace. */
  datatype Policy = Policy(labelKey: string, selector: Option<NamespaceLabels -> bool>)

  datatype Verdict = Allowed | MissingLabel | MissingHostnames | Outside(hostname: string)

  predicate Policed(p: Policy, labels: NamespaceLabels)
  {
    p.selector.None? || p.selector.value(labels)
  }

  function SuffixOf(p: Policy, labels: NamespaceLabels): string
  {
    Lower(if p.labelKey in labels then labels[p.labelKey] else "")
  }

  function CheckHostnames(hostnames: seq<string>, suffix: string): Verdict
  {
    if hostnames == [] then Allowed
    else if !HostnameWithinSuffix(hostnames[0], suffix) then Outside(hostnames[0])
    else CheckHostnames(hostnames[1..], suffix)
  }

  function Evaluate(p: Policy, labels: NamespaceLabels, hostnames: seq<string>): Verdict
  {
    if !Policed(p, labels) then Allowed
    else if SuffixOf(p, labels) == "" then MissingLabel
    else if hostnames == [] then MissingHostnames
    else CheckHostnames(hostnames, SuffixOf(p, labels))
  }

  /** `k` is the first place in the list whose hostname lies outside the suffix. */
  predicate FirstOutside(hostnames: seq<string>, suffix: string, k: nat)
  {
    && k < |hostnames| && !HostnameWithinSuffix(hostnames[k], suffix)
    && forall j :: 0 <= j < k ==> HostnameWithinSuffix(hostnames[j], suffix)
  }

  lemma {:induction false} CheckHostnamesIff(hostnames: seq<string>, suffix: string)
    ensures CheckHostnames(hostnames, suffix) == Allowed <==>
            forall h :: h in hostnames ==> HostnameWithinSuffix(h, suffix)
  {
    if hostnames == [] {
    } else {
      CheckHostnamesIff(hostnames[1..], suffix);
      assert hostnames == [hostnames[0]] + hostnames[1..];
    }
  }

  /** The verdict names the first hostname outside the suffix. */
  lemma {:induction false} OutsideIsFirst(hostnames: seq<string>, suffix: string) returns (k: nat)
    requires CheckHostnames(hostnames, suffix) != Allowed
    ensures FirstOutside(hostnames, suffix, k) && CheckHostnames(hostnames, suffix) == Outside(hostnames[k])
  {
    k := 0;
    if HostnameWithinSuffix(hostnames[0], suffix) {
      var rest := hostnames[1..];
      var i := OutsideIsFirst(rest, suffix);
      k := i + 1;
      forall j | 0 <= j < k ensures HostnameWithinSuffix(hostnames[j], suffix) {
        if j > 0 {
          assert hostnames[j] == rest[j - 1];
        }
      }
    }
  }

  /** Every concrete host the hostnames stand for, in lower case, lies in the domain. */
  ghost predicate ServesOnlyWithin(hostnames: seq<string>, domain: seq<string>)
  {
    forall host :: ValidLabels(host) && Serves(Map(hostnames, Lower), host) ==> IsTail(host, domain)
  }

  lemma {:induction false} WithinDomainIff(labels: seq<string>, suffix: string)
    requires DotFree(labels) && !IsWildcard(suffix)
    ensures WithinDomain(Join(labels, '.'), suffix) <==> IsTail(labels, LabelsOf(suffix))
  {
    var d := LabelsOf(suffix);
    SplitDotFree(suffix);
    JoinSplit(suffix, '.');
    DotSuffixIff(labels, d);
    if Join(labels, '.') == suffix {
      JoinUnique(labels, d);
    }
    if IsTail(labels, d) && |labels| == |d| {
      assert labels == d;
    }
  }

  lemma WithinSuffixIff(hostname: string, suffix: string)
    requires !IsWildcard(suffix)
    ensures HostnameWithinSuffix(hostname, suffix) <==> IsTail(LabelsOf(Lower(hostname)), LabelsOf(suffix))
  {
    JoinSplit(TrimWildcard(Lower(hostname)), '.');
    SplitDotFree(TrimWildcard(Lower(hostname)));
    WithinDomainIff(LabelsOf(Lower(hostname)), suffix);
  }

  lemma NothingWithinEmpty(hostname: string)
    requires WellFormed(Lower(hostname))
    ensures !HostnameWithinSuffix(hostname, "")
  {
    WithinSuffixIff(hostname, "");
    var ls := LabelsOf(Lower(hostname));
    assert LabelsOf("") == [""];
    assert ls[|ls| - 1] in ls && ls[|ls| - 1..] == [ls[|ls| - 1]];
  }

  ghost predicate CoversOnlyWithin(hostname: string, domain: seq<string>)
  {
    forall host :: ValidLabels(host) && Covers(hostname, host) ==> IsTail(host, domain)
  }

  lemma CoversOnlyOwned(hostname: string, domain: seq<string>)
    requires IsTail(LabelsOf(hostname), domain)
    ensures CoversOnlyWithin(hostname, domain)
  {
    forall host | ValidLabels(host) && Covers(hostname, host) ensures IsTail(host, domain) {
      if IsWildcard(hostname) {
        TailTransitive(host, LabelsOf(hostname), domain);
      }
    }
  }

  lemma OwnedLabels(hostname: string, domain: seq<string>)
    requires WellFormed(hostname) && CoversOnlyWithin(hostname, domain)
    ensures IsTail(LabelsOf(hostname), domain)
  {
    var ls := LabelsOf(hostname);
    if IsWildcard(hostname) {
      OwnedBelow(hostname, "x", domain);
      OwnedBelow(hostname, "y", domain);
      TailBelowBoth("x", "y", ls, domain);
    } else {
      assert Covers(hostname, ls);
    }
  }

  lemma OwnedBelow(wildcard: string, x: string, domain: seq<string>)
    requires WellFormed(wildcard) && IsWildcard(wildcard) && ValidLabel(x) && CoversOnlyWithin(wildcard, domain)
    ensures IsTail([x] + LabelsOf(wildcard), domain)
  {
    BelowIsCovered(LabelsOf(wildcard), x);
    assert Covers(wildcard, [x] + LabelsOf(wildcard));
  }

  /**
   In a policed namespace a route is allowed exactly when every concrete host it could
   serve lies in the namespace's domain. A route without hostnames could serve every
   host, so it is denied; a suffix with an empty label is the domain of no host.
   */
  lemma AllowedIffServesOnlyOwned(p: Policy, labels: NamespaceLabels, hostnames: seq<string>)
    requires Policed(p, labels) && !IsWildcard(SuffixOf(p, labels))
    requires forall h :: h in hostnames ==> WellFormed(Lower(h))
    ensures Evaluate(p, labels, hostnames) == Allowed <==> ServesOnlyWithin(hostnames, LabelsOf(SuffixOf(p, labels)))
  {
    var suffix := SuffixOf(p, labels);
    var domain := LabelsOf(suffix);
    if hostnames == [] {
      StrayHost(domain);
    } else {
      CheckHostnamesIff(hostnames, suffix);
      ServedWithinIff(hostnames, suffix);
      if suffix == "" {
        NothingWithinEmpty(hostnames[0]);
      }
    }
  }

  /** The selector matches the namespace, or there is none and every namespace is policed. */
  lemma EvaluateIff(p: Policy, labels: NamespaceLabels, hostnames: seq<string>)
    requires p.labelKey in labels && !IsWildcard(Lower(labels[p.labelKey])) && forall h :: h in hostnames ==> WellFormed(Lower(h))
    ensures p.selector == None || p.selector.value(labels) ==>
              (Evaluate(p, labels, hostnames) == Allowed <==> ServesOnlyWithin(hostnames, LabelsOf(Lower(labels[p.labelKey]))))
    ensures p.selector != None && !p.selector.value(labels) ==> Evaluate(p, labels, hostnames) == Allowed
  {
    if p.selector == None || p.selector.value(labels) {
      AllowedIffServesOnlyOwned(p, labels, hostnames);
    }
  }

  /** Why a policed route is denied: the label is missing, the hostnames are, or one hostname is outside. */
  lemma {:induction false} DenialNamesCause(p: Policy, labels: NamespaceLabels, hostnames: seq<string>)
    requires p.selector == None || p.selector.value(labels)
    ensures Evaluate(p, labels, hostnames) == MissingLabel <==> p.labelKey !in labels || labels[p.labelKey] == ""
    ensures Evaluate(p, labels, hostnames) == MissingHostnames <==>
              p.labelKey in labels && labels[p.labelKey] != "" && hostnames == []
    ensures Evaluate(p, labels, hostnames).Outside? ==>
              exists k: nat :: FirstOutside(hostnames, SuffixOf(p, labels), k) && Evaluate(p, labels, hostnames) == Outside(hostnames[k])
  {
    var suffix := SuffixOf(p, labels);
    assert suffix == "" <==> p.labelKey !in labels || labels[p.labelKey] == "";
    CheckGives(hostnames, suffix);
    if Evaluate(p, labels, hostnames).Outside? {
      var k := OutsideIsFirst(hostnames, suffix);
    }
  }

  lemma {:induction false} CheckGives(hostnames: seq<string>, suffix: string)
    ensures CheckHostnames(hostnames, suffix).Allowed? || CheckHostnames(hostnames, suffix).Outside?
  {
    if hostnames == [] {
    } else {
      CheckGives(hostnames[1..], suffix);
    }
  }

  lemma OtherLabel(l: string) returns (x: string)
    ensures ValidLabel(x) && x != l
  {
    x := if l == "x" then "y" else "x";
  }

  lemma OtherTail<T>(x: T, domain: seq<T>)
    requires domain != [] && domain[|domain| - 1] != x
    ensures !IsTail([x], domain)
  {
    assert [x][0..] == [x];
  }

  lemma ServesAll(host: seq<string>)
    ensures Serves(Map([], Lower), host)
  {
    assert Map([], Lower) == [];
  }

  /** No domain holds every host. */
  lemma StrayHost(domain: seq<string>)
    requires domain != []
    ensures !ServesOnlyWithin([], domain)
  {
    var stray := OtherLabel(domain[|domain| - 1]);
    assert ValidLabels([stray]);
    ServesAll([stray]);
    OtherTail(stray, domain);
  }

  lemma ServedWithinIff(hostnames: seq<string>, suffix: string)
    requires hostnames != [] && !IsWildcard(suffix)
    requires forall h :: h in hostnames ==> WellFormed(Lower(h))
    ensures (forall h :: h in hostnames ==> HostnameWithinSuffix(h, suffix)) <==> ServesOnlyWithin(hostnames, LabelsOf(suffix))
  {
    var lowered := Map(hostnames, Lower);
    var domain := LabelsOf(suffix);
    if forall h :: h in hostnames ==> HostnameWithinSuffix(h, suffix) {
      forall host | ValidLabels(host) && Serves(lowered, host) ensures IsTail(host, domain) {
        var low :| low in lowered && Covers(low, host);
        var i :| 0 <= i < |hostnames| && lowered[i] == low;
        assert hostnames[i] in hostnames;
        WithinSuffixIff(hostnames[i], suffix);
        CoversOnlyOwned(low, domain);
      }
    }
    if ServesOnlyWithin(hostnames, domain) {
      forall h | h in hostnames ensures HostnameWithinSuffix(h, suffix) {
        var i :| 0 <= i < |hostnames| && hostnames[i] == h;
        assert lowered[i] == Lower(h) && Lower(h) in lowered;
        assert CoversOnlyWithin(Lower(h), domain);
        OwnedLabels(Lower(h), domain);
        WithinSuffixIff(h, suffix);
      }
    }
  }

  // ---------------------------------------------------------------- two namespaces

  lemma DotSuffixComparable(name: string, a: string, b: string)
    requires WithinDomain(name, a) && WithinDomain(name, b) && |a| <= |b|
    ensures WithinDomain(b, a)
  {
    if |a| == |b| {
      assert a == name[|name| - |a|..] && b == name[|name| - |b|..];
    } else {
      var tail := "." + a;
      assert name[|name| - |tail|..] == tail;
      assert b == name[|name| - |b|..];
      assert b[|b| - |tail|..] == name[|name| - |tail|..];
    }
  }

  lemma WithinTransitive(name: string, mid: string, suffix: string)
    requires WithinDomain(name, mid) && WithinDomain(mid, suffix)
    ensures WithinDomain(name, suffix)
  {
    if name != mid && mid != suffix {
      var outer, inner := "." + mid, "." + suffix;
      assert name[|name| - |outer|..] == outer;
      assert outer[|outer| - |inner|..] == mid[|mid| - |inner|..];
      assert name[|name| - |inner|..] == outer[|outer| - |inner|..];
    }
  }

  lemma LowerSuffix(s: string, t: string)
    requires HasSuffix(s, t)
    ensures HasSuffix(Lower(s), Lower(t))
  {
    assert forall i :: 0 <= i < |t| ==> t[i] == s[|s| - |t| + i];
    assert Lower(s)[|s| - |t|..] == Lower(t);
  }

  lemma WildcardShape(h: string)
    ensures IsWildcard(h) <==> |h| >= 2 && h[0] == '*' && h[1] == '.'
  {
    if |h| >= 2 {
      assert h[..2] == [h[0], h[1]];
    }
  }

  lemma LowerWildcard(h: string)
    ensures IsWildcard(Lower(h)) <==> IsWildcard(h)
    ensures TrimWildcard(Lower(h)) == Lower(TrimWildcard(h))
    ensures IsWildcard(h) ==> h[1..] == "." + TrimWildcard(h)
  {
    WildcardShape(h);
    WildcardShape(Lower(h));
  }

  lemma LowerDot(s: string)
    ensures Lower("." + s) == "." + Lower(s)
  {
  }

  /** Matching hostnames: the bare name of one lies within the bare name of the other. */
  lemma MatchNests(l: string, r: string)
    requires HostnameMatches(l, r)
    ensures WithinDomain(Lower(TrimWildcard(l)), Lower(TrimWildcard(r)))
            || WithinDomain(Lower(TrimWildcard(r)), Lower(TrimWildcard(l)))
  {
    var a, b := TrimWildcard(l), TrimWildcard(r);
    LowerWildcard(l);
    LowerWildcard(r);
    LowerDot(a);
    LowerDot(b);
    if !IsWildcard(l) && !IsWildcard(r) {
    } else if !IsWildcard(r) {
      LowerSuffix(b, "." + a);
    } else if !IsWildcard(l) {
      LowerSuffix(a, "." + b);
    } else if HasSuffix(l[1..], r[1..]) {
      LowerSuffix("." + a, "." + b);
      DottedNests(Lower(a), Lower(b));
    } else {
      LowerSuffix("." + b, "." + a);
      DottedNests(Lower(b), Lower(a));
    }
  }

  lemma DottedNests(a: string, b: string)
    requires HasSuffix("." + a, "." + b)
    ensures WithinDomain(a, b)
  {
    if |a| == |b| {
      assert ("." + a)[0..] == "." + b;
      assert a == ("." + a)[1..] && b == ("." + b)[1..];
    } else {
      assert ("." + a)[|a| - |b|..] == a[|a| - |b| - 1..];
    }
  }

  /** Routes allowed under two suffixes, neither within the other, never intersect. */
  lemma DisjointOwnersNeverIntersect(
      p: Policy, leftLabels: NamespaceLabels, rightLabels: NamespaceLabels, left: seq<string>, right: seq<string>)
    requires Policed(p, leftLabels) && Policed(p, rightLabels)
    requires Evaluate(p, leftLabels, left) == Allowed && Evaluate(p, rightLabels, right) == Allowed
    requires !WithinDomain(SuffixOf(p, leftLabels), SuffixOf(p, rightLabels))
    requires !WithinDomain(SuffixOf(p, rightLabels), SuffixOf(p, leftLabels))
    ensures !HostnamesIntersect(left, right)
  {
    var s, t := SuffixOf(p, leftLabels), SuffixOf(p, rightLabels);
    CheckHostnamesIff(left, s);
    CheckHostnamesIff(right, t);
    forall l, r | l in left && r in right ensures !HostnameMatches(l, r) {
      if HostnameMatches(l, r) {
        var a, b := Lower(TrimWildcard(l)), Lower(TrimWildcard(r));
        LowerWildcard(l);
        LowerWildcard(r);
        MatchNests(l, r);
        if WithinDomain(a, b) {
          WithinTransitive(a, b, t);
          SuffixesNest(a, s, t);
        } else {
          WithinTransitive(b, a, s);
          SuffixesNest(b, s, t);
        }
      }
    }
  }

  lemma SuffixesNest(name: string, s: string, t: string)
    requires WithinDomain(name, s) && WithinDomain(name, t)
    ensures WithinDomain(s, t) || WithinDomain(t, s)
  {
    if |s| <= |t| {
      DotSuffixComparable(name, s, t);
    } else {
      DotSuffixComparable(name, t, s);
    }
  }
}
