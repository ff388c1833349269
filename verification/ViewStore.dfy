/**
 The cross-reconcile cache of merged listener views
 (internal/controller/listenerset_view.go): the fingerprint that guards it, the
 shared store, and every interleaving of the calls that use the store.
 */
module ViewStore {
  import opened Lists
  import opened ListenerMerge
  import Strings

  // ---------------------------------------------------------------- fingerprint

  /** Namespaces and names use the Kubernetes alphabet: none of the fingerprint's separators. */
  predicate PlainName(s: string)
  {
    '/' !in s && '@' !in s && '#' !in s && ';' !in s
  }

  predicate PlainSet(ls: ListenerSet)
  {
    PlainName(ls.namespace) && PlainName(ls.name)
  }

  /** What the fingerprint says about one ListenerSet. */
  datatype Identity = Identity(namespace: string, name: string, generation: int, created: int)

  function IdentityOf(ls: ListenerSet): Identity
  {
    Identity(ls.namespace, ls.name, ls.generation, ls.created)
  }

  function Token(ls: ListenerSet): string
  {
    ls.namespace + "/" + ls.name + "@" + Strings.IntText(ls.generation) + "#" + Strings.IntText(ls.created)
  }

  function Fingerprint(gateway: Gateway, candidates: seq<ListenerSet>): string
  {
    "g@" + Strings.IntText(gateway.generation) + ";" + Strings.Join(Strings.SortStrings(Map(candidates, Token)), ';')
  }

  method MergeViewFingerprint(gateway: Gateway, candidates: seq<ListenerSet>) returns (r: string)
    ensures r == Fingerprint(gateway, candidates)
  {
    var keys: seq<string> := [];
    for i := 0 to |candidates|
      invariant keys == Map(candidates, Token)[..i]
    {
      var ls := candidates[i];
      keys := keys + [ls.namespace + "/" + ls.name + "@" + Strings.IntText(ls.generation) + "#" + Strings.IntText(ls.created)];
    }
    assert keys == Map(candidates, Token);
    keys := Strings.SortStrings(keys);
    r := "g@";
    r := r + Strings.IntText(gateway.generation);
    r := r + ";";
    r := r + Strings.Join(keys, ';');
  }

  lemma NumbersHaveNoSeparators(n: int)
    ensures PlainName(Strings.IntText(n))
  {
  }

  lemma TokenShape(ls: ListenerSet)
    requires PlainSet(ls)
    ensures ';' !in Token(ls) && Token(ls) != ""
  {
    NumbersHaveNoSeparators(ls.generation);
    NumbersHaveNoSeparators(ls.created);
  }

  lemma TokenInjective(a: ListenerSet, b: ListenerSet)
    requires PlainSet(a) && PlainSet(b) && Token(a) == Token(b)
    ensures IdentityOf(a) == IdentityOf(b)
  {
    var ga, gb := Strings.IntText(a.generation), Strings.IntText(b.generation);
    var ca, cb := Strings.IntText(a.created), Strings.IntText(b.created);
    TokenRegroup(a.namespace, a.name, ga, ca);
    TokenRegroup(b.namespace, b.name, gb, cb);
    NumbersHaveNoSeparators(a.generation);
    NumbersHaveNoSeparators(b.generation);
    Strings.CutUnique(a.namespace, b.namespace, '/', a.name + "@" + (ga + "#" + ca), b.name + "@" + (gb + "#" + cb));
    Strings.CutUnique(a.name, b.name, '@', ga + "#" + ca, gb + "#" + cb);
    Strings.CutUnique(ga, gb, '#', ca, cb);
    Strings.IntTextInjective(a.generation, b.generation);
    Strings.IntTextInjective(a.created, b.created);
  }

  lemma TokenRegroup(namespace: string, name: string, generation: string, created: string)
    ensures namespace + "/" + name + "@" + generation + "#" + created
            == namespace + "/" + (name + "@" + (generation + "#" + created))
  {
    ConcatAssoc(namespace + "/" + name + "@", generation + "#", created);
    ConcatAssoc(namespace + "/" + name, "@", generation + "#" + created);
    ConcatAssoc(namespace + "/", name, "@" + (generation + "#" + created));
    ConcatAssoc(name, "@", generation + "#" + created);
    ConcatAssoc(namespace + "/" + name + "@", generation, "#");
  }

  /** If `f` determines `g`, equal collections of `f` values give equal collections of `g` values. */
  lemma {:induction false} DeterminedMultiset<S, T(!new), U>(a: seq<S>, b: seq<S>, f: S -> T, g: S -> U)
    requires multiset(Map(a, f)) == multiset(Map(b, f))
    requires forall x, y :: x in a && y in b && f(x) == f(y) ==> g(x) == g(y)
    ensures multiset(Map(a, g)) == multiset(Map(b, g))
    decreases |a|
  {
    SameLength(Map(a, f), Map(b, f));
    if a == [] {
    } else {
      var j := MatchIn(a, b, f);
      var a', b' := Without(a, 0), Without(b, j);
      RemoveMatched(a, 0, b, j, f);
      assert (forall x :: x in a' ==> x in a) && forall y :: y in b' ==> y in b;
      DeterminedMultiset(a', b', f, g);
      assert a[0] in a && b[j] in b;
      RemoveMatched(a, 0, b, j, g);
    }
  }

  function Without<S>(s: seq<S>, j: nat): seq<S>
    requires j < |s|
  {
    s[..j] + s[j + 1..]
  }

  /** Removing an element that maps alike from both sides keeps equal collections equal, and unequal ones unequal. */
  lemma RemoveMatched<S, T>(a: seq<S>, i: nat, b: seq<S>, j: nat, f: S -> T)
    requires i < |a| && j < |b| && f(a[i]) == f(b[j])
    ensures multiset(Map(a, f)) == multiset(Map(b, f)) <==> multiset(Map(Without(a, i), f)) == multiset(Map(Without(b, j), f))
  {
    RemoveAt(a, i, f);
    RemoveAt(b, j, f);
    var ma, mb, one := multiset(Map(Without(a, i), f)), multiset(Map(Without(b, j), f)), multiset{f(a[i])};
    assert ma == (ma + one) - one && mb == (mb + one) - one;
  }

  lemma MatchIn<S, T(!new)>(a: seq<S>, b: seq<S>, f: S -> T) returns (j: nat)
    requires a != [] && multiset(Map(a, f)) == multiset(Map(b, f))
    ensures j < |b| && f(b[j]) == f(a[0])
  {
    SameMembers(Map(a, f), Map(b, f));
    assert Map(a, f)[0] in Map(a, f);
    j :| 0 <= j < |b| && Map(b, f)[j] == f(a[0]);
  }

  lemma RemoveAt<S, T>(s: seq<S>, j: nat, f: S -> T)
    requires j < |s|
    ensures multiset(Map(s, f)) == multiset(Map(Without(s, j), f)) + multiset{f(s[j])}
  {
    var m := Map(s, f);
    assert Map(Without(s, j), f) == m[..j] + m[j + 1..];
    assert m == m[..j] + [m[j]] + m[j + 1..];
  }

  lemma TokensPlain(candidates: seq<ListenerSet>)
    requires forall ls :: ls in candidates ==> PlainSet(ls)
    ensures forall t :: t in Map(candidates, Token) ==> ';' !in t && t != ""
  {
    var ts := Map(candidates, Token);
    forall t | t in ts ensures ';' !in t && t != "" {
      var i :| 0 <= i < |ts| && ts[i] == t;
      TokenShape(candidates[i]);
    }
  }

  lemma JoinedTokens(candidates: seq<ListenerSet>)
    requires forall ls :: ls in candidates ==> PlainSet(ls)
    ensures var ks := Strings.SortStrings(Map(candidates, Token));
            if candidates == [] then Strings.Join(ks, ';') == ""
            else Strings.Join(ks, ';') != "" && Strings.Split(Strings.Join(ks, ';'), ';') == ks
  {
    var ts := Map(candidates, Token);
    var ks := Strings.SortStrings(ts);
    SameLength(ks, ts);
    SameMembers(ks, ts);
    TokensPlain(candidates);
    if candidates == [] {
    } else {
      Strings.SplitJoin(ks, ';');
      assert ks[0] in ks;
    }
  }

  /**
   Equal fingerprints mean the same Gateway generation and the same collection
   of (namespace, name, generation, creationTimestamp), in whatever order the
   ListenerSets were listed.
   */
  lemma FingerprintInjective(g: Gateway, a: seq<ListenerSet>, h: Gateway, b: seq<ListenerSet>)
    requires forall ls :: ls in a ==> PlainSet(ls)
    requires forall ls :: ls in b ==> PlainSet(ls)
    requires Fingerprint(g, a) == Fingerprint(h, b)
    ensures g.generation == h.generation
    ensures multiset(Map(a, IdentityOf)) == multiset(Map(b, IdentityOf))
  {
    var ta, tb := Map(a, Token), Map(b, Token);
    FingerprintParts(g, Strings.SortStrings(ta), h, Strings.SortStrings(tb));
    JoinedTokens(a);
    JoinedTokens(b);
    assert multiset(ta) == multiset(tb);
    forall x, y | x in a && y in b && Token(x) == Token(y) ensures IdentityOf(x) == IdentityOf(y) {
      TokenInjective(x, y);
    }
    DeterminedMultiset(a, b, Token, IdentityOf);
  }

  lemma {:induction false} FingerprintParts(g: Gateway, ks: seq<string>, h: Gateway, ls: seq<string>)
    requires "g@" + Strings.IntText(g.generation) + ";" + Strings.Join(ks, ';')
             == "g@" + Strings.IntText(h.generation) + ";" + Strings.Join(ls, ';')
    ensures g.generation == h.generation && Strings.Join(ks, ';') == Strings.Join(ls, ';')
  {
    var ng, nh := Strings.IntText(g.generation), Strings.IntText(h.generation);
    NumbersHaveNoSeparators(g.generation);
    NumbersHaveNoSeparators(h.generation);
    Strings.CutUnique("g@" + ng, "g@" + nh, ';', Strings.Join(ks, ';'), Strings.Join(ls, ';'));
    assert ng == ("g@" + ng)[2..] && nh == ("g@" + nh)[2..];
    Strings.IntTextInjective(g.generation, h.generation);
  }

  // ---------------------------------------------------------------- views

  datatype Key = Key(namespace: string, name: string)

  function KeyOf(g: Gateway): Key
  {
    Key(g.namespace, g.name)
  }

  /** The namespaces a label selector matches, and those whose labels cannot be read, at one moment. */
  datatype Labels = Labels(selected: set<string>, unreadable: set<string>)

  /** One resolve call with the snapshot it listed. */
  datatype Call = Call(gateway: Gateway, candidates: seq<ListenerSet>, labels: Labels)

  datatype View = View(accepted: seq<ListenerSet>, merged: seq<Entry>)

  /** None when the acceptance of the ListenerSet cannot be evaluated. */
  function Acceptance(g: Gateway, ls: ListenerSet, labels: Labels): Option<bool>
  {
    match g.allowed
    case AllNamespaces => Some(true)
    case SameNamespace => Some(g.namespace == ls.namespace)
    case NoNamespaces => Some(false)
    case NamespaceSelector => if ls.namespace in labels.unreadable then None else Some(ls.namespace in labels.selected)
  }

  function Accepts(c: Call): ListenerSet -> bool
  {
    (ls: ListenerSet) => Acceptance(c.gateway, ls, c.labels) == Some(true)
  }

  function AcceptedIn(c: Call): seq<ListenerSet>
  {
    Keep(c.candidates, Accepts(c))
  }

  predicate Evaluable(c: Call)
  {
    forall ls :: ls in c.candidates ==> Acceptance(c.gateway, ls, c.labels).Some?
  }

  /** Which ListenerSets are accepted: by default none, otherwise from everywhere, the Gateway's namespace, or selected ones. */
  lemma {:induction false} AcceptedIff(c: Call, ls: ListenerSet)
    ensures ls in AcceptedIn(c) <==>
            && ls in c.candidates
            && (|| c.gateway.allowed == AllNamespaces
                || (c.gateway.allowed == SameNamespace && ls.namespace == c.gateway.namespace)
                || (c.gateway.allowed == NamespaceSelector && ls.namespace in c.labels.selected - c.labels.unreadable))
    ensures Evaluable(c) <==>
            c.gateway.allowed == NamespaceSelector ==> forall x :: x in c.candidates ==> x.namespace !in c.labels.unreadable
  {
    KeepMembers(c.candidates, Accepts(c));
  }

  /** The view built from scratch. */
  function FreshView(c: Call): View
  {
    View(AcceptedIn(c), Merge(Some(c.gateway), AcceptedIn(c)))
  }

  method AcceptedFromCandidates(c: Call) returns (r: Option<seq<ListenerSet>>)
    ensures r == if Evaluable(c) then Some(AcceptedIn(c)) else None
  {
    var out := [];
    var p := Accepts(c);
    for i := 0 to |c.candidates|
      invariant out == Keep(c.candidates[..i], p)
      invariant forall k :: 0 <= k < i ==> Acceptance(c.gateway, c.candidates[k], c.labels).Some?
    {
      var acceptance := Acceptance(c.gateway, c.candidates[i], c.labels);
      if acceptance.None? {
        return None;
      }
      if acceptance.value {
        out := out + [c.candidates[i]];
      }
      assert c.candidates[..i + 1] == c.candidates[..i] + [c.candidates[i]];
      KeepSnoc(c.candidates[..i], c.candidates[i], p);
    }
    assert c.candidates[..|c.candidates|] == c.candidates;
    return Some(out);
  }

  method ViewFromCandidates(c: Call) returns (r: Option<View>)
    ensures r == if Evaluable(c) then Some(FreshView(c)) else None
  {
    var accepted := AcceptedFromCandidates(c);
    if accepted.None? {
      return None;
    }
    var merged := MergeListeners(Some(c.gateway), accepted.value);
    return Some(View(accepted.value, merged));
  }

  // ---------------------------------------------------------------- the shared store

  datatype CacheEntry = CacheEntry(fingerprint: string, view: View)

  function CallFingerprint(c: Call): string
  {
    Fingerprint(c.gateway, c.candidates)
  }

  predicate Hit(entries: map<Key, CacheEntry>, c: Call)
  {
    KeyOf(c.gateway) in entries && entries[KeyOf(c.gateway)].fingerprint == CallFingerprint(c)
  }

  /** Every entry was built from scratch by some call on the same Gateway with the entry's fingerprint. */
  ghost predicate Provenance(entries: map<Key, CacheEntry>, calls: set<Call>)
  {
    forall k :: k in entries ==> HasBuilder(k, entries[k], calls)
  }

  ghost predicate HasBuilder(k: Key, e: CacheEntry, calls: set<Call>)
  {
    exists c :: c in calls && Built(k, e, c)
  }

  predicate Built(k: Key, e: CacheEntry, c: Call)
  {
    && KeyOf(c.gateway) == k && c.gateway.allowed != NamespaceSelector
    && e.fingerprint == CallFingerprint(c) && e.view == FreshView(c)
  }

  /**
   What the cluster guarantees about the objects two calls saw: namespace, name and
   generation fix a Gateway, and together with the creation time a ListenerSet.
   */
  predicate Consistent(c: Call, d: Call)
  {
    && SameObject(c.gateway, d.gateway)
    && (forall x, y :: x in c.candidates && y in d.candidates ==> SameSet(x, y))
  }

  predicate SameObject(g: Gateway, h: Gateway)
  {
    g.namespace == h.namespace && g.name == h.name && g.generation == h.generation ==> g == h
  }

  predicate SameSet(x: ListenerSet, y: ListenerSet)
  {
    x.namespace == y.namespace && x.name == y.name && x.generation == y.generation && x.created == y.created ==> x == y
  }

  /** One snapshot lists every ListenerSet once, under a Kubernetes name. */
  predicate Snapshot(c: Call)
  {
    DistinctNames(c.candidates) && forall ls :: ls in c.candidates ==> PlainSet(ls)
  }

  ghost predicate Coherent(calls: set<Call>)
  {
    && (forall c :: c in calls ==> Snapshot(c))
    && (forall c, d :: c in calls && d in calls ==> Consistent(c, d))
  }

  /** A view that stands for the from-scratch view: the same merge, the same ListenerSets counted. */
  ghost predicate Agrees(v: View, c: Call)
  {
    v.merged == FreshView(c).merged && multiset(v.accepted) == multiset(AcceptedIn(c))
  }

  lemma {:induction false} KeepKeepsNamesDistinct(sets: seq<ListenerSet>, p: ListenerSet -> bool)
    requires DistinctNames(sets)
    ensures DistinctNames(Keep(sets, p))
  {
    if sets == [] {
    } else {
      var front, last := sets[..|sets| - 1], sets[|sets| - 1];
      KeepKeepsNamesDistinct(front, p);
      KeepMembers(front, p);
      forall i | 0 <= i < |Keep(front, p)|
        ensures Keep(front, p)[i].namespace != last.namespace || Keep(front, p)[i].name != last.name
      {
        assert Keep(front, p)[i] in front;
        var k :| 0 <= k < |front| && front[k] == Keep(front, p)[i];
        assert sets[k] == front[k];
      }
    }
  }

  lemma SameElements<S(!new), T(!new)>(a: seq<S>, b: seq<S>, f: S -> T)
    requires multiset(Map(a, f)) == multiset(Map(b, f))
    requires forall x, y :: x in a && y in b && f(x) == f(y) ==> x == y
    ensures multiset(a) == multiset(b)
  {
    var id := (x: S) => x;
    DeterminedMultiset(a, b, f, id);
    assert Map(a, id) == a && Map(b, id) == b;
  }

  lemma IdentityFixesSet(c: Call, d: Call)
    requires Consistent(c, d)
    ensures forall x, y :: x in c.candidates && y in d.candidates && IdentityOf(x) == IdentityOf(y) ==> x == y
  {
    forall x, y | x in c.candidates && y in d.candidates && IdentityOf(x) == IdentityOf(y) ensures x == y {
      assert SameSet(x, y);
    }
  }

  /** Equal fingerprints on one Gateway: the same Gateway and the same ListenerSets were seen. */
  lemma SameFingerprintSameSnapshot(c: Call, d: Call)
    requires Snapshot(c) && Snapshot(d) && Consistent(c, d)
    requires KeyOf(c.gateway) == KeyOf(d.gateway) && CallFingerprint(c) == CallFingerprint(d)
    ensures c.gateway == d.gateway && multiset(c.candidates) == multiset(d.candidates)
  {
    FingerprintInjective(c.gateway, c.candidates, d.gateway, d.candidates);
    IdentityFixesSet(c, d);
    SameElements(c.candidates, d.candidates, IdentityOf);
  }

  lemma SameAccepted(c: Call, d: Call)
    requires c.gateway == d.gateway && c.gateway.allowed != NamespaceSelector
    requires multiset(c.candidates) == multiset(d.candidates)
    ensures multiset(AcceptedIn(c)) == multiset(AcceptedIn(d))
  {
    KeepCongruent(d.candidates, Accepts(c), Accepts(d));
    KeepPermuted(c.candidates, d.candidates, Accepts(c));
  }

  /** Equal fingerprints on one Gateway: the two from-scratch views stand for each other. */
  lemma SameFingerprintSameView(c: Call, d: Call)
    requires Snapshot(c) && Snapshot(d) && Consistent(c, d)
    requires KeyOf(c.gateway) == KeyOf(d.gateway) && CallFingerprint(c) == CallFingerprint(d)
    requires c.gateway.allowed != NamespaceSelector
    ensures Agrees(FreshView(c), d) && c.gateway == d.gateway
  {
    SameFingerprintSameSnapshot(c, d);
    SameAccepted(c, d);
    KeepKeepsNamesDistinct(c.candidates, Accepts(c));
    MergePermuted(Some(c.gateway), AcceptedIn(c), AcceptedIn(d));
  }

  lemma FreshAgrees(c: Call)
    ensures Agrees(FreshView(c), c)
    ensures c.gateway.allowed != NamespaceSelector ==> Evaluable(c)
  {
  }

  /** The store cannot tell the two calls apart. */
  predicate Alike(c: Call, d: Call)
  {
    && KeyOf(c.gateway) == KeyOf(d.gateway) && CallFingerprint(c) == CallFingerprint(d)
    && c.gateway.allowed != NamespaceSelector && d.gateway.allowed != NamespaceSelector
  }

  /** Calls that the store cannot tell apart have views that stand for each other. */
  ghost predicate Interchangeable(calls: set<Call>)
  {
    forall c, d :: c in calls && d in calls && Alike(c, d) ==> Agrees(FreshView(c), d)
  }

  lemma CoherentIsInterchangeable(calls: set<Call>)
    requires Coherent(calls)
    ensures Interchangeable(calls)
  {
    forall c, d | c in calls && d in calls && Alike(c, d) ensures Agrees(FreshView(c), d) {
      assert Snapshot(c) && Snapshot(d) && Consistent(c, d);
      SameFingerprintSameView(c, d);
    }
  }

  /** A hit serves a view that agrees with the caller's own snapshot. */
  lemma HitAgrees(entries: map<Key, CacheEntry>, calls: set<Call>, c: Call)
    requires Provenance(entries, calls) && Interchangeable(calls) && c in calls
    requires Hit(entries, c) && c.gateway.allowed != NamespaceSelector
    ensures Agrees(entries[KeyOf(c.gateway)].view, c)
  {
    var k := KeyOf(c.gateway);
    assert HasBuilder(k, entries[k], calls);
    var b :| b in calls && Built(k, entries[k], b);
    assert Alike(b, c);
  }

  lemma StoreKeepsProvenance(entries: map<Key, CacheEntry>, calls: set<Call>, c: Call)
    requires Provenance(entries, calls) && c in calls && c.gateway.allowed != NamespaceSelector
    ensures Provenance(entries[KeyOf(c.gateway) := CacheEntry(CallFingerprint(c), FreshView(c))], calls)
  {
    var now := entries[KeyOf(c.gateway) := CacheEntry(CallFingerprint(c), FreshView(c))];
    forall k | k in now ensures HasBuilder(k, now[k], calls) {
      if k == KeyOf(c.gateway) {
        assert Built(k, now[k], c);
      }
    }
  }

  /** The store itself; each method body is one critical section, except Resolve. */
  class MergeViewStore {
    var entries: map<Key, CacheEntry>

    constructor ()
      ensures entries == map[]
    {
      entries := map[];
    }

    method Forget(key: Key)
      modifies this
      ensures entries == old(entries) - {key}
    {
      entries := entries - {key};
    }

    method Lookup(key: Key, fingerprint: string) returns (r: Option<View>)
      ensures r == if key in entries && entries[key].fingerprint == fingerprint then Some(entries[key].view) else None
    {
      if key in entries && entries[key].fingerprint == fingerprint {
        return Some(entries[key].view);
      }
      return None;
    }

    method Store(key: Key, fingerprint: string, view: View)
      modifies this
      ensures entries == old(entries)[key := CacheEntry(fingerprint, view)]
    {
      entries := entries[key := CacheEntry(fingerprint, view)];
    }

    /** The miss path: build from the snapshot, then store. */
    method Build(c: Call, fingerprint: string, ghost calls: set<Call>) returns (r: Option<View>)
      requires Provenance(entries, calls) && c in calls && c.gateway.allowed != NamespaceSelector
      requires fingerprint == CallFingerprint(c)
      modifies this
      ensures Provenance(entries, calls)
      ensures r.None? <==> !Evaluable(c)
      ensures r.Some? ==> Agrees(r.value, c)
    {
      FreshAgrees(c);
      r := ViewFromCandidates(c);
      if r.Some? {
        StoreKeepsProvenance(entries, calls, c);
        Store(KeyOf(c.gateway), fingerprint, r.value);
      }
    }

    /** A whole resolve call, run without interference, on a store filled by interchangeable calls. */
    method Resolve(c: Call, ghost calls: set<Call>) returns (r: Option<View>)
      requires Provenance(entries, calls) && Interchangeable(calls) && c in calls
      modifies this
      ensures Provenance(entries, calls)
      ensures r.None? <==> !Evaluable(c)
      ensures r.Some? ==> Agrees(r.value, c)
      ensures c.gateway.allowed == NamespaceSelector ==> entries == old(entries)
    {
      FreshAgrees(c);
      if c.gateway.allowed == NamespaceSelector {
        r := ViewFromCandidates(c);
        return;
      }
      var key := KeyOf(c.gateway);
      var fingerprint := MergeViewFingerprint(c.gateway, c.candidates);
      r := Lookup(key, fingerprint);
      if r.Some? {
        HitAgrees(entries, calls, c);
        return;
      }
      r := Build(c, fingerprint, calls);
    }
  }

  // ---------------------------------------------------------------- interleavings

  datatype Phase = Building | Returned(view: View) | Errored

  datatype Running = Running(call: Call, phase: Phase)

  datatype State = State(entries: map<Key, CacheEntry>, calls: map<nat, Running>)

  /** Begin lists and looks up, Finish builds and stores, Forget drops; steps of different calls interleave freely. */
  datatype Step = Begin(id: nat, call: Call) | Finish(id: nat) | Forget(key: Key)

  const EMPTY := State(map[], map[])

  function Begun(entries: map<Key, CacheEntry>, c: Call): Phase
  {
    if c.gateway.allowed == NamespaceSelector then (if Evaluable(c) then Returned(FreshView(c)) else Errored)
    else if Hit(entries, c) then Returned(entries[KeyOf(c.gateway)].view)
    else Building
  }

  /** Steps that do not apply change nothing. */
  function Exec(s: State, step: Step): State
  {
    match step
    case Begin(id, c) =>
      if id in s.calls then s else s.(calls := s.calls[id := Running(c, Begun(s.entries, c))])
    case Finish(id) =>
      if id !in s.calls || s.calls[id].phase != Building then s
      else
        var c := s.calls[id].call;
        if Evaluable(c) then
          State(s.entries[KeyOf(c.gateway) := CacheEntry(CallFingerprint(c), FreshView(c))],
                s.calls[id := Running(c, Returned(FreshView(c)))])
        else s.(calls := s.calls[id := Running(c, Errored)])
    case Forget(k) => s.(entries := s.entries - {k})
  }

  function Run(steps: seq<Step>): State
  {
    if steps == [] then EMPTY else Exec(Run(steps[..|steps| - 1]), steps[|steps| - 1])
  }

  function CallsOf(steps: seq<Step>): set<Call>
  {
    set i | 0 <= i < |steps| && steps[i].Begin? :: steps[i].call
  }

  ghost predicate Sound(s: State, calls: set<Call>)
  {
    && Provenance(s.entries, calls)
    && (forall id :: id in s.calls ==> CallSound(s.calls[id], calls))
  }

  ghost predicate CallSound(r: Running, calls: set<Call>)
  {
    && r.call in calls
    && (r.phase.Building? ==> r.call.gateway.allowed != NamespaceSelector)
    && (r.phase.Returned? ==> Agrees(r.phase.view, r.call))
    && (r.phase.Errored? ==> !Evaluable(r.call))
  }

  lemma BegunSound(entries: map<Key, CacheEntry>, calls: set<Call>, c: Call)
    requires Provenance(entries, calls) && Interchangeable(calls) && c in calls
    ensures CallSound(Running(c, Begun(entries, c)), calls)
  {
    if c.gateway.allowed != NamespaceSelector && Hit(entries, c) {
      HitAgrees(entries, calls, c);
    }
  }

  lemma UpdateSound(s: State, entries: map<Key, CacheEntry>, id: nat, r: Running, calls: set<Call>)
    requires Sound(s, calls) && Provenance(entries, calls) && CallSound(r, calls)
    ensures Sound(State(entries, s.calls[id := r]), calls)
  {
  }

  lemma FinishSound(s: State, id: nat, calls: set<Call>)
    requires Sound(s, calls) && id in s.calls && s.calls[id].phase.Building?
    ensures Sound(Exec(s, Finish(id)), calls)
  {
    var c := s.calls[id].call;
    assert CallSound(s.calls[id], calls);
    FreshAgrees(c);
    StoreKeepsProvenance(s.entries, calls, c);
    var entries := s.entries[KeyOf(c.gateway) := CacheEntry(CallFingerprint(c), FreshView(c))];
    UpdateSound(s, entries, id, Running(c, Returned(FreshView(c))), calls);
  }

  lemma ExecSound(s: State, step: Step, calls: set<Call>)
    requires Sound(s, calls) && Interchangeable(calls) && (step.Begin? ==> step.call in calls)
    ensures Sound(Exec(s, step), calls)
  {
    match step
    case Begin(id, c) =>
      BegunSound(s.entries, calls, c);
      UpdateSound(s, s.entries, id, Running(c, Begun(s.entries, c)), calls);
    case Finish(id) =>
      if id in s.calls && s.calls[id].phase.Building? {
        FinishSound(s, id, calls);
      }
    case Forget(k) =>
  }

  lemma {:induction false} RunSound(steps: seq<Step>, calls: set<Call>)
    requires CallsOf(steps) <= calls && Interchangeable(calls)
    ensures Sound(Run(steps), calls)
  {
    if steps == [] {
    } else {
      var m := |steps| - 1;
      assert CallsOf(steps[..m]) <= CallsOf(steps);
      RunSound(steps[..m], calls);
      assert steps[m].Begin? ==> steps[m].call in CallsOf(steps);
      ExecSound(Run(steps[..m]), steps[m], calls);
    }
  }

  /**
   In every interleaving of resolve and forget calls, a resolve that returns a
   view returns one that agrees with a from-scratch build of the snapshot it
   listed itself; it fails only when that build fails.
   */
  lemma {:induction false} CacheAgreesWithScratch(steps: seq<Step>, id: nat)
    requires Coherent(CallsOf(steps)) && id in Run(steps).calls
    ensures var r := Run(steps).calls[id];
            && (r.phase.Returned? ==>
                  && r.phase.view.merged == Merge(Some(r.call.gateway), AcceptedIn(r.call))
                  && multiset(r.phase.view.accepted) == multiset(AcceptedIn(r.call)))
            && (r.phase.Errored? ==> !Evaluable(r.call))
  {
    CoherentIsInterchangeable(CallsOf(steps));
    RunSound(steps, CallsOf(steps));
    assert CallSound(Run(steps).calls[id], CallsOf(steps));
  }

  /** The step at `i` begins the call `id`, and none before it does. */
  predicate BeginsAt(steps: seq<Step>, i: nat, id: nat)
  {
    && i < |steps| && steps[i].Begin? && steps[i].id == id
    && forall j :: 0 <= j < i && steps[j].Begin? ==> steps[j].id != id
  }

  lemma {:induction false} NotBegun(steps: seq<Step>, id: nat)
    requires forall j :: 0 <= j < |steps| && steps[j].Begin? ==> steps[j].id != id
    ensures id !in Run(steps).calls
  {
    if steps == [] {
    } else {
      NotBegun(steps[..|steps| - 1], id);
    }
  }

  lemma CallStays(s: State, step: Step, id: nat)
    requires id in s.calls
    ensures var t := Exec(s, step);
            && id in t.calls && t.calls[id].call == s.calls[id].call
            && (!s.calls[id].phase.Building? || step == Finish(id) ==> !t.calls[id].phase.Building?)
  {
  }

  /** In every interleaving, a call that has begun is there with its snapshot, and has an answer once it was finished. */
  lemma {:induction false} EveryCallIsAnswered(steps: seq<Step>, i: nat, id: nat)
    requires BeginsAt(steps, i, id)
    ensures id in Run(steps).calls && Run(steps).calls[id].call == steps[i].call
    ensures Finish(id) in steps[i..] ==> !Run(steps).calls[id].phase.Building?
  {
    var front, last := steps[..|steps| - 1], steps[|steps| - 1];
    if i == |front| {
      NotBegun(front, id);
      assert steps[i..] == [last];
    } else {
      EveryCallIsAnswered(front, i, id);
      CallStays(Run(front), last, id);
      assert steps[i..] == front[i..] + [last];
    }
  }

  /** After a forget, the next call for that Gateway does not reuse anything. */
  lemma {:induction false} ForgottenIsRebuilt(s: State, k: Key, id: nat, c: Call)
    requires k == Key(c.gateway.namespace, c.gateway.name) && id !in s.calls && c.gateway.allowed != NamespaceSelector
    ensures Exec(Exec(s, Forget(k)), Begin(id, c)).calls[id] == Running(c, Building)
    ensures forall other :: other in s.entries && other != k ==>
              other in Exec(s, Forget(k)).entries && Exec(s, Forget(k)).entries[other] == s.entries[other]
  {
  }

  /** A call that found nothing stores what it built, and the next call that looks the same reuses it. */
  lemma {:induction false} BuiltIsReused(s: State, id: nat, next: nat, c: Call)
    requires id in s.calls && s.calls[id].phase.Building? && Alike(s.calls[id].call, c) && next !in s.calls
    ensures var n := Exec(Exec(s, Finish(id)), Begin(next, c));
            next in n.calls && n.calls[next] == Running(c, Returned(FreshView(s.calls[id].call)))
  {
    FreshAgrees(s.calls[id].call);
  }

  /** In every interleaving of some of these calls, a returned view agrees with the snapshot of the call. */
  ghost predicate AnswersRight(calls: set<Call>)
  {
    forall steps, id :: CallsOf(steps) <= calls && id in Run(steps).calls ==> RightAnswer(Run(steps).calls[id])
  }

  ghost predicate RightAnswer(r: Running)
  {
    r.phase.Returned? ==> Agrees(r.phase.view, r.call)
  }

  /** Exactly the interchangeable calls are answered right in every interleaving. */
  lemma {:induction false} AnswersRightIff(calls: set<Call>)
    ensures AnswersRight(calls) <==> Interchangeable(calls)
  {
    if Interchangeable(calls) {
      forall steps, id | CallsOf(steps) <= calls && id in Run(steps).calls ensures RightAnswer(Run(steps).calls[id]) {
        RunSound(steps, calls);
        assert CallSound(Run(steps).calls[id], calls);
      }
    }
    if AnswersRight(calls) {
      forall c, d | c in calls && d in calls && Alike(c, d) ensures Agrees(FreshView(c), d) {
        var steps := LateStoreServes(c, d);
        assert CallsOf(steps) <= calls;
        assert RightAnswer(Run(steps).calls[1]);
      }
    }
  }

  /**
   The guarantee needs one Gateway per key and generation over the whole run: a
   build still in flight when its deleted Gateway is forgotten stores its view
   afterwards, and a Gateway recreated under the same key is served that view.
   */
  lemma RecreatedGatewayServedStale() returns (steps: seq<Step>)
    ensures var s := Run(steps);
            && 1 in s.calls && s.calls[1].phase.Returned?
            && s.calls[1].phase.view.merged != Merge(Some(s.calls[1].call.gateway), AcceptedIn(s.calls[1].call))
  {
    var first, second := StaleCall([]), StaleCall([Listener("web", 80, "HTTP", None, "")]);
    StaleViewsDiffer(first, second);
    steps := LateStoreServes(first, second);
  }

  function StaleCall(listeners: seq<Listener>): Call
  {
    Call(Gateway("ns", "gw", 1, listeners, NoNamespaces), [], Labels({}, {}))
  }

  lemma StaleViewsDiffer(first: Call, second: Call)
    requires first == StaleCall([]) && second == StaleCall([Listener("web", 80, "HTTP", None, "")])
    ensures FreshView(first).merged != FreshView(second).merged
    ensures CallFingerprint(first) == CallFingerprint(second)
  {
    assert |FreshView(first).merged| == 0 && |FreshView(second).merged| == 1;
  }

  /** The state while `first` is building. */
  function Waiting(first: Call): State
  {
    State(map[], map[0 := Running(first, Building)])
  }

  lemma StoredLate(first: Call)
    requires first.gateway.allowed != NamespaceSelector
    ensures Exec(EMPTY, Begin(0, first)) == Waiting(first)
    ensures Exec(Waiting(first), Forget(KeyOf(first.gateway))) == Waiting(first)
    ensures Exec(Waiting(first), Finish(0)).entries ==
            map[KeyOf(first.gateway) := CacheEntry(CallFingerprint(first), FreshView(first))]
    ensures 1 !in Exec(Waiting(first), Finish(0)).calls
  {
    FreshAgrees(first);
  }

  lemma ServedLate(s: State, first: Call, second: Call)
    requires Alike(first, second) && 1 !in s.calls
    requires s.entries == map[KeyOf(first.gateway) := CacheEntry(CallFingerprint(first), FreshView(first))]
    ensures var n := Exec(s, Begin(1, second)); 1 in n.calls && n.calls[1] == Running(second, Returned(FreshView(first)))
  {
  }

  function LateSteps(first: Call, second: Call): seq<Step>
  {
    [Begin(0, first), Forget(KeyOf(first.gateway)), Finish(0), Begin(1, second)]
  }

  lemma RunFour(a: Step, b: Step, c: Step, d: Step)
    ensures Run([a, b, c, d]) == Exec(Exec(Exec(Exec(EMPTY, a), b), c), d)
  {
    var steps := [a, b, c, d];
    assert steps[..4] == steps && steps[..0] == [];
    RunOne(steps, 0);
    RunOne(steps, 1);
    RunOne(steps, 2);
    RunOne(steps, 3);
  }

  lemma LateRun(first: Call, second: Call)
    requires first.gateway.allowed != NamespaceSelector
    ensures Run(LateSteps(first, second)) == Exec(Exec(Waiting(first), Finish(0)), Begin(1, second))
  {
    RunFour(Begin(0, first), Forget(KeyOf(first.gateway)), Finish(0), Begin(1, second));
    StoredLate(first);
  }

  lemma LateCalls(first: Call, second: Call)
    ensures CallsOf(LateSteps(first, second)) <= {first, second}
  {
  }

  lemma LateAnswer(first: Call, second: Call)
    requires Alike(first, second)
    ensures var n := Exec(Exec(Waiting(first), Finish(0)), Begin(1, second));
            1 in n.calls && n.calls[1] == Running(second, Returned(FreshView(first)))
  {
    StoredLate(first);
    ServedLate(Exec(Waiting(first), Finish(0)), first, second);
  }

  /** A call caught between building and storing by a forget leaves its view for any later call that looks the same. */
  lemma LateStoreServes(first: Call, second: Call) returns (steps: seq<Step>)
    requires Alike(first, second)
    ensures CallsOf(steps) <= {first, second}
    ensures 1 in Run(steps).calls && Run(steps).calls[1] == Running(second, Returned(FreshView(first)))
  {
    steps := LateSteps(first, second);
    LateCalls(first, second);
    LateRun(first, second);
    LateAnswer(first, second);
  }

  lemma RunOne(steps: seq<Step>, i: nat)
    requires i < |steps|
    ensures Run(steps[..i + 1]) == Exec(Run(steps[..i]), steps[i])
  {
    assert steps[..i + 1][..i] == steps[..i];
  }
}
