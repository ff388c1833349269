/**
 The precedence-ordered, conflict-annotated view of a Gateway's own listeners
 and the ListenerSets attached to it (internal/listenermerge).
 */
module ListenerMerge {
  import opened Lists
  import Strings

  datatype Listener = Listener(
    name: string, port: int, protocol: string, hostname: Option<string>, allowedRoutes: string)

  /** Which namespaces may attach ListenerSets to a Gateway. */
  datatype AllowedFrom = NoNamespaces | SameNamespace | AllNamespaces | NamespaceSelector

  datatype Gateway = Gateway(
    namespace: string, name: string, generation: int, listeners: seq<Listener>, allowed: AllowedFrom)

  /** `created` is the creation timestamp in nanoseconds. */
  datatype ListenerSet = ListenerSet(
    namespace: string, name: string, generation: int, created: int, listeners: seq<Listener>)

  datatype Reason = ProtocolConflict | HostnameConflict

  datatype Parent = OwnListener | SetListener(owner: ListenerSet)

  datatype Entry = Entry(parent: Parent, index: nat, listener: Listener, conflict: Option<Reason>)

  function HostnameValue(h: Option<string>): string
  {
    match h case None => "" case Some(v) => v
  }

  // ---------------------------------------------------------------- precedence

  /** Oldest first, then namespace, then name. */
  predicate Precedes(l: ListenerSet, r: ListenerSet)
  {
    if l.created != r.created then l.created < r.created
    else if l.namespace != r.namespace then Strings.Leq(l.namespace, r.namespace)
    else Strings.Leq(l.name, r.name)
  }

  lemma PrecedesIsPreorder()
    ensures Preorder(Precedes)
  {
    Strings.LeqIsOrder();
  }

  /** No two ListenerSets of one list share namespace and name. */
  predicate DistinctNames(sets: seq<ListenerSet>)
  {
    forall i, j :: 0 <= i < j < |sets| ==> sets[i].namespace != sets[j].namespace || sets[i].name != sets[j].name
  }

  lemma DistinctNamesNoTies(sets: seq<ListenerSet>)
    requires DistinctNames(sets)
    ensures NoTies(sets, Precedes)
  {
    Strings.LeqIsOrder();
  }

  // ---------------------------------------------------------------- conflicts

  /** An earlier conflict-free entry uses another protocol on the port of entry `i`. */
  predicate ProtocolClash(es: seq<Entry>, vs: seq<Option<Reason>>, i: nat)
    requires i < |es| && i <= |vs|
  {
    exists j :: 0 <= j < i && vs[j].None? && es[j].listener.port == es[i].listener.port
                && es[j].listener.protocol != es[i].listener.protocol
  }

  /** An earlier conflict-free entry holds the port and hostname of entry `i`. */
  predicate HostnameClash(es: seq<Entry>, vs: seq<Option<Reason>>, i: nat)
    requires i < |es| && i <= |vs|
  {
    exists j :: 0 <= j < i && vs[j].None? && Slot(es[j]) == Slot(es[i])
  }

  function Slot(e: Entry): (int, string)
  {
    (e.listener.port, HostnameValue(e.listener.hostname))
  }

  function VerdictOf(es: seq<Entry>, vs: seq<Option<Reason>>, i: nat): Option<Reason>
    requires i < |es| && i <= |vs|
  {
    if ProtocolClash(es, vs, i) then Some(ProtocolConflict)
    else if HostnameClash(es, vs, i) then Some(HostnameConflict)
    else None
  }

  /** The declarative rule: every entry is judged against the conflict-free entries before it. */
  ghost predicate Greedy(es: seq<Entry>, vs: seq<Option<Reason>>)
  {
    |vs| == |es| && forall i :: 0 <= i < |es| ==> GreedyAt(es, vs, i)
  }

  ghost predicate GreedyAt(es: seq<Entry>, vs: seq<Option<Reason>>, i: nat)
    requires i < |es| == |vs|
  {
    vs[i] == VerdictOf(es, vs, i)
  }

  /** What the one-pass annotator remembers: the first protocol per port and the slots taken. */
  datatype Seen = Seen(protos: map<int, string>, slots: set<(int, string)>)

  function Judge(seen: Seen, e: Entry): Option<Reason>
  {
    if e.listener.port in seen.protos && seen.protos[e.listener.port] != e.listener.protocol then Some(ProtocolConflict)
    else if Slot(e) in seen.slots then Some(HostnameConflict)
    else None
  }

  function Claim(seen: Seen, e: Entry): Seen
  {
    if Judge(seen, e).Some? then seen
    else Seen(
        if e.listener.port in seen.protos then seen.protos else seen.protos[e.listener.port := e.listener.protocol],
        seen.slots + {Slot(e)})
  }

  function SeenAfter(es: seq<Entry>): Seen
  {
    if es == [] then Seen(map[], {}) else Claim(SeenAfter(es[..|es| - 1]), es[|es| - 1])
  }

  function Verdicts(es: seq<Entry>): (vs: seq<Option<Reason>>)
    ensures |vs| == |es|
  {
    if es == [] then [] else Verdicts(es[..|es| - 1]) + [Judge(SeenAfter(es[..|es| - 1]), es[|es| - 1])]
  }

  /** Later entries never change an earlier verdict. */
  lemma {:induction false} VerdictsPrefix(es: seq<Entry>, n: nat)
    requires n <= |es|
    ensures Verdicts(es)[..n] == Verdicts(es[..n])
  {
    if n == |es| {
      assert es[..n] == es;
    } else {
      VerdictsPrefix(es[..|es| - 1], n);
      assert es[..|es| - 1][..n] == es[..n];
    }
  }

  lemma {:induction false} VerdictsStep(es: seq<Entry>, i: nat)
    requires i < |es|
    ensures Verdicts(es)[i] == Judge(SeenAfter(es[..i]), es[i])
    ensures SeenAfter(es[..i + 1]) == Claim(SeenAfter(es[..i]), es[i])
  {
    VerdictsPrefix(es, i + 1);
    assert es[..i + 1][..i] == es[..i];
    assert Verdicts(es)[i] == Verdicts(es)[..i + 1][i];
  }

  /** The conflict-free entries. */
  function Winners(es: seq<Entry>): set<Entry>
  {
    if es == [] then {}
    else
      var front, e := es[..|es| - 1], es[|es| - 1];
      Winners(front) + (if Judge(SeenAfter(front), e).None? then {e} else {})
  }

  lemma {:induction false} WinnerIndex(es: seq<Entry>, w: Entry) returns (j: nat)
    requires w in Winners(es)
    ensures j < |es| && es[j] == w && Verdicts(es)[j].None?
  {
    var front, e := es[..|es| - 1], es[|es| - 1];
    if w in Winners(front) {
      j := WinnerIndex(front, w);
    } else {
      j := |front|;
    }
  }

  lemma {:induction false} FreeIsWinner(es: seq<Entry>, j: nat)
    requires j < |es| && Verdicts(es)[j].None?
    ensures es[j] in Winners(es)
  {
    if j < |es| - 1 {
      FreeIsWinner(es[..|es| - 1], j);
    }
  }

  /** The first map holds the protocol of every conflict-free entry's port, and no other port. */
  ghost predicate PortsRecorded(seen: Seen, winners: set<Entry>)
  {
    && (forall w :: w in winners ==> w.listener.port in seen.protos && seen.protos[w.listener.port] == w.listener.protocol)
    && (forall p :: p in seen.protos ==> exists w :: w in winners && w.listener.port == p)
  }

  /** The second map holds exactly the slots of the conflict-free entries. */
  ghost predicate SlotsRecorded(seen: Seen, winners: set<Entry>)
  {
    && (forall w :: w in winners ==> Slot(w) in seen.slots)
    && (forall k :: k in seen.slots ==> exists w :: w in winners && Slot(w) == k)
  }

  lemma {:induction false} SeenRecordsWinners(es: seq<Entry>)
    ensures PortsRecorded(SeenAfter(es), Winners(es))
    ensures SlotsRecorded(SeenAfter(es), Winners(es))
  {
    if es == [] {
    } else {
      var front, e := es[..|es| - 1], es[|es| - 1];
      SeenRecordsWinners(front);
      RecordPort(SeenAfter(front), Winners(front), e);
      RecordSlot(SeenAfter(front), Winners(front), e);
    }
  }

  lemma RecordPort(seen: Seen, winners: set<Entry>, e: Entry)
    requires PortsRecorded(seen, winners)
    ensures PortsRecorded(Claim(seen, e), winners + (if Judge(seen, e).None? then {e} else {}))
  {
    var now := winners + (if Judge(seen, e).None? then {e} else {});
    assert Judge(seen, e).None? ==> e in now;
    forall p | p in Claim(seen, e).protos ensures exists w :: w in now && w.listener.port == p {
      if p in seen.protos {
        var w :| w in winners && w.listener.port == p;
        assert w in now;
      }
    }
  }

  lemma RecordSlot(seen: Seen, winners: set<Entry>, e: Entry)
    requires SlotsRecorded(seen, winners)
    ensures SlotsRecorded(Claim(seen, e), winners + (if Judge(seen, e).None? then {e} else {}))
  {
    var now := winners + (if Judge(seen, e).None? then {e} else {});
    assert Judge(seen, e).None? ==> e in now;
    forall k | k in Claim(seen, e).slots ensures exists w :: w in now && Slot(w) == k {
      if k in seen.slots {
        var w :| w in winners && Slot(w) == k;
        assert w in now;
      }
    }
  }

  /** An earlier conflict-free entry, found by what it is rather than where it is. */
  lemma EarlierWinner(es: seq<Entry>, i: nat, w: Entry) returns (j: nat)
    requires i <= |es| && w in Winners(es[..i])
    ensures j < i && es[j] == w && Verdicts(es)[j].None?
  {
    j := WinnerIndex(es[..i], w);
    VerdictsPrefix(es, i);
    assert Verdicts(es)[j] == Verdicts(es)[..i][j];
  }

  lemma {:induction false} EarlierFree(es: seq<Entry>, i: nat, j: nat)
    requires j < i <= |es| && Verdicts(es)[j].None?
    ensures es[j] in Winners(es[..i])
  {
    VerdictsPrefix(es, i);
    assert Verdicts(es)[j] == Verdicts(es)[..i][j];
    FreeIsWinner(es[..i], j);
  }

  predicate ProtocolTaken(seen: Seen, e: Entry)
  {
    e.listener.port in seen.protos && seen.protos[e.listener.port] != e.listener.protocol
  }

  lemma {:induction false} ProtocolClashIff(es: seq<Entry>, i: nat)
    requires i < |es|
    ensures ProtocolClash(es, Verdicts(es), i) <==> ProtocolTaken(SeenAfter(es[..i]), es[i])
  {
    var vs, e, winners := Verdicts(es), es[i], Winners(es[..i]);
    SeenRecordsWinners(es[..i]);
    if ProtocolTaken(SeenAfter(es[..i]), e) {
      var w :| w in winners && w.listener.port == e.listener.port;
      var j := EarlierWinner(es, i, w);
    } else if ProtocolClash(es, vs, i) {
      var j :| 0 <= j < i && vs[j].None? && es[j].listener.port == e.listener.port
               && es[j].listener.protocol != e.listener.protocol;
      EarlierFree(es, i, j);
    }
  }

  lemma {:induction false} HostnameClashIff(es: seq<Entry>, i: nat)
    requires i < |es|
    ensures HostnameClash(es, Verdicts(es), i) <==> Slot(es[i]) in SeenAfter(es[..i]).slots
  {
    var vs, e, winners := Verdicts(es), es[i], Winners(es[..i]);
    SeenRecordsWinners(es[..i]);
    if Slot(e) in SeenAfter(es[..i]).slots {
      var w :| w in winners && Slot(w) == Slot(e);
      var j := EarlierWinner(es, i, w);
    } else if HostnameClash(es, vs, i) {
      var j :| 0 <= j < i && vs[j].None? && Slot(es[j]) == Slot(e);
      EarlierFree(es, i, j);
    }
  }

  /** The one-pass, two-map verdicts satisfy the declarative rule. */
  lemma {:induction false} VerdictsAreGreedy(es: seq<Entry>)
    ensures Greedy(es, Verdicts(es))
  {
    forall i | 0 <= i < |es| ensures GreedyAt(es, Verdicts(es), i) {
      VerdictsStep(es, i);
      ProtocolClashIff(es, i);
      HostnameClashIff(es, i);
    }
  }

  lemma VerdictLocal(es: seq<Entry>, vs: seq<Option<Reason>>, ws: seq<Option<Reason>>, i: nat)
    requires i < |es| && i <= |vs| && i <= |ws|
    requires forall j :: 0 <= j < i ==> vs[j] == ws[j]
    ensures VerdictOf(es, vs, i) == VerdictOf(es, ws, i)
  {
  }

  /** The declarative rule has at most one solution. */
  lemma {:induction false} GreedyUnique(es: seq<Entry>, vs: seq<Option<Reason>>, ws: seq<Option<Reason>>, n: nat)
    requires Greedy(es, vs) && Greedy(es, ws) && n <= |es|
    ensures forall i :: 0 <= i < n ==> vs[i] == ws[i]
  {
    if n > 0 {
      GreedyUnique(es, vs, ws, n - 1);
      VerdictLocal(es, vs, ws, n - 1);
      assert GreedyAt(es, vs, n - 1) && GreedyAt(es, ws, n - 1);
    }
  }

  /** Conflict-free entries on one port agree on the protocol and differ in hostname. */
  lemma {:induction false} SurvivorsCompatible(es: seq<Entry>, i: nat, j: nat)
    requires i < j < |es| && Verdicts(es)[i].None? && Verdicts(es)[j].None?
    requires es[i].listener.port == es[j].listener.port
    ensures es[i].listener.protocol == es[j].listener.protocol
    ensures HostnameValue(es[i].listener.hostname) != HostnameValue(es[j].listener.hostname)
  {
    VerdictsAreGreedy(es);
    assert GreedyAt(es, Verdicts(es), j);
    assert !ProtocolClash(es, Verdicts(es), j) && !HostnameClash(es, Verdicts(es), j);
  }

  /**
   Every conflict is justified by an earlier conflict-free entry, and a hostname
   conflict is reported only when the port's protocol is not in dispute.
   */
  lemma ConflictHasWitness(es: seq<Entry>, i: nat) returns (j: nat)
    requires i < |es| && Verdicts(es)[i].Some?
    ensures j < i && Verdicts(es)[j].None? && es[j].listener.port == es[i].listener.port
    ensures Verdicts(es)[i].value == ProtocolConflict <==> es[j].listener.protocol != es[i].listener.protocol
    ensures Verdicts(es)[i].value == HostnameConflict ==> Slot(es[j]) == Slot(es[i])
  {
    var vs := Verdicts(es);
    VerdictsAreGreedy(es);
    assert GreedyAt(es, vs, i);
    if ProtocolClash(es, vs, i) {
      j :| 0 <= j < i && vs[j].None? && es[j].listener.port == es[i].listener.port
           && es[j].listener.protocol != es[i].listener.protocol;
    } else {
      assert HostnameClash(es, vs, i);
      j :| 0 <= j < i && vs[j].None? && Slot(es[j]) == Slot(es[i]);
    }
  }

  function Stamp(es: seq<Entry>, vs: seq<Option<Reason>>): (r: seq<Entry>)
    requires |es| == |vs|
    ensures |r| == |es|
  {
    seq(|es|, i requires 0 <= i < |es| => if vs[i].Some? then es[i].(conflict := vs[i]) else es[i])
  }

  function Annotated(es: seq<Entry>): (r: seq<Entry>)
    ensures |r| == |es|
  {
    Stamp(es, Verdicts(es))
  }

  /** The one-pass annotator: first protocol per port, first holder per slot. */
  method AnnotateConflicts(a: array<Entry>)
    modifies a
    ensures a[..] == Annotated(old(a[..]))
  {
    ghost var es := a[..];
    ghost var done := Annotated(es);
    var protoSeen: map<int, string> := map[];
    var hostnameSeen: set<(int, string)> := {};
    for i := 0 to a.Length
      invariant forall k :: i <= k < a.Length ==> a[k] == es[k]
      invariant forall k :: 0 <= k < i ==> a[k] == done[k]
      invariant Seen(protoSeen, hostnameSeen) == SeenAfter(es[..i])
    {
      var entry := a[i];
      VerdictsStep(es, i);
      var key := Slot(entry);
      if entry.listener.port in protoSeen && protoSeen[entry.listener.port] != entry.listener.protocol {
        a[i] := entry.(conflict := Some(ProtocolConflict));
      } else if key in hostnameSeen {
        a[i] := entry.(conflict := Some(HostnameConflict));
      } else {
        if entry.listener.port !in protoSeen {
          protoSeen := protoSeen[entry.listener.port := entry.listener.protocol];
        }
        hostnameSeen := hostnameSeen + {key};
      }
    }
    assert a[..] == done;
  }

  // ---------------------------------------------------------------- merge

  function EntriesOf(listeners: seq<Listener>, parent: Parent): (r: seq<Entry>)
    ensures |r| == |listeners|
  {
    seq(|listeners|, i requires 0 <= i < |listeners| => Entry(parent, i, listeners[i], None))
  }

  function GatewayEntries(gateway: Option<Gateway>): seq<Entry>
  {
    match gateway case None => [] case Some(g) => EntriesOf(g.listeners, OwnListener)
  }

  function SetEntries(sets: seq<ListenerSet>): seq<Entry>
  {
    if sets == [] then []
    else SetEntries(sets[..|sets| - 1]) + EntriesOf(sets[|sets| - 1].listeners, SetListener(sets[|sets| - 1]))
  }

  lemma {:induction false} SetEntriesSnoc(sets: seq<ListenerSet>, x: ListenerSet)
    ensures SetEntries(sets + [x]) == SetEntries(sets) + EntriesOf(x.listeners, SetListener(x))
  {
    assert (sets + [x])[..|sets|] == sets;
  }

  lemma {:induction false} SetEntriesConcat(a: seq<ListenerSet>, b: seq<ListenerSet>)
    ensures SetEntries(a + b) == SetEntries(a) + SetEntries(b)
  {
    if b == [] {
      assert a + b == a;
    } else {
      var c, x := b[..|b| - 1], b[|b| - 1];
      SetEntriesConcat(a, c);
      assert b == c + [x] && a + b == (a + c) + [x];
      SetEntriesSnoc(a + c, x);
      SetEntriesSnoc(c, x);
    }
  }

  /** The unannotated view in precedence order. */
  function Ordered(gateway: Option<Gateway>, sets: seq<ListenerSet>): seq<Entry>
  {
    GatewayEntries(gateway) + SetEntries(SortBy(sets, Precedes))
  }

  function Merge(gateway: Option<Gateway>, sets: seq<ListenerSet>): seq<Entry>
  {
    Annotated(Ordered(gateway, sets))
  }

  method AppendEntries(out: seq<Entry>, listeners: seq<Listener>, parent: Parent) returns (r: seq<Entry>)
    ensures r == out + EntriesOf(listeners, parent)
  {
    r := out;
    for i := 0 to |listeners|
      invariant r == out + EntriesOf(listeners, parent)[..i]
    {
      r := r + [Entry(parent, i, listeners[i], None)];
      assert EntriesOf(listeners, parent)[..i + 1] == EntriesOf(listeners, parent)[..i] + [EntriesOf(listeners, parent)[i]];
    }
    assert EntriesOf(listeners, parent)[..|listeners|] == EntriesOf(listeners, parent);
  }

  method OrderEntries(gateway: Option<Gateway>, sets: seq<ListenerSet>) returns (out: seq<Entry>)
    ensures out == Ordered(gateway, sets)
  {
    var sorted := SortBy(sets, Precedes);
    out := [];
    if gateway.Some? {
      out := AppendEntries(out, gateway.value.listeners, OwnListener);
    }
    ghost var own := GatewayEntries(gateway);
    assert out == own;
    for i := 0 to |sorted|
      invariant out == own + SetEntries(sorted[..i])
    {
      ghost var was := SetEntries(sorted[..i]);
      out := AppendEntries(out, sorted[i].listeners, SetListener(sorted[i]));
      assert sorted[..i + 1] == sorted[..i] + [sorted[i]];
      SetEntriesSnoc(sorted[..i], sorted[i]);
      assert out == own + (was + EntriesOf(sorted[i].listeners, SetListener(sorted[i])));
    }
    assert sorted[..|sorted|] == sorted;
  }

  method MergeListeners(gateway: Option<Gateway>, sets: seq<ListenerSet>) returns (merged: seq<Entry>)
    ensures merged == Merge(gateway, sets)
  {
    var out := OrderEntries(gateway, sets);
    var a := new Entry[|out|](i requires 0 <= i < |out| => out[i]);
    assert a[..] == out;
    AnnotateConflicts(a);
    merged := a[..];
  }

  /** The view does not depend on the order in which the ListenerSets were listed. */
  lemma MergePermuted(gateway: Option<Gateway>, a: seq<ListenerSet>, b: seq<ListenerSet>)
    requires multiset(a) == multiset(b) && DistinctNames(a)
    ensures Merge(gateway, a) == Merge(gateway, b)
  {
    PrecedesIsPreorder();
    DistinctNamesNoTies(a);
    SortPermuted(a, b, Precedes);
  }

  lemma AnnotatedPrefix(es: seq<Entry>, fs: seq<Entry>)
    ensures Annotated(es + fs)[..|es|] == Annotated(es)
  {
    VerdictsPrefix(es + fs, |es|);
    assert (es + fs)[..|es|] == es;
    forall i | 0 <= i < |es| ensures Annotated(es + fs)[i] == Annotated(es)[i] {
      assert Verdicts(es + fs)[i] == Verdicts(es + fs)[..|es|][i];
    }
  }

  /**
   Attaching lower-precedence ListenerSets only appends entries: the view of the
   higher-precedence ones, verdicts included, is a prefix of the new view.
   */
  lemma MergeExtends(gateway: Option<Gateway>, higher: seq<ListenerSet>, lower: seq<ListenerSet>, listed: seq<ListenerSet>)
    requires DistinctNames(listed) && multiset(listed) == multiset(higher + lower)
    requires forall h, l :: h in higher && l in lower ==> Precedes(h, l)
    ensures Merge(gateway, higher) <= Merge(gateway, listed)
  {
    var tail := SetEntries(SortBy(lower, Precedes));
    MergePermuted(gateway, listed, higher + lower);
    SortExtends(higher, lower);
    OrderedExtends(gateway, higher, lower);
    AnnotatedPrefix(Ordered(gateway, higher), tail);
  }

  lemma {:induction false} OrderedExtends(gateway: Option<Gateway>, higher: seq<ListenerSet>, lower: seq<ListenerSet>)
    requires SortBy(higher + lower, Precedes) == SortBy(higher, Precedes) + SortBy(lower, Precedes)
    ensures Ordered(gateway, higher + lower) == Ordered(gateway, higher) + SetEntries(SortBy(lower, Precedes))
  {
    SetEntriesConcat(SortBy(higher, Precedes), SortBy(lower, Precedes));
    ConcatAssoc(GatewayEntries(gateway), SetEntries(SortBy(higher, Precedes)), SetEntries(SortBy(lower, Precedes)));
  }

  lemma {:induction false} SortExtends(higher: seq<ListenerSet>, lower: seq<ListenerSet>)
    requires forall h, l :: h in higher && l in lower ==> Precedes(h, l)
    ensures SortBy(higher + lower, Precedes) == SortBy(higher, Precedes) + SortBy(lower, Precedes)
  {
    PrecedesIsPreorder();
    SortAppend(higher, lower, Precedes);
  }

  /** The Gateway's own verdicts are the same whatever is attached to it. */
  lemma OwnVerdictsFixed(gateway: Gateway, sets: seq<ListenerSet>)
    ensures Merge(Some(gateway), []) <= Merge(Some(gateway), sets)
    ensures |Merge(Some(gateway), [])| == |gateway.listeners|
  {
    var own := GatewayEntries(Some(gateway));
    assert Ordered(Some(gateway), []) == own;
    AnnotatedPrefix(own, SetEntries(SortBy(sets, Precedes)));
  }

  // ---------------------------------------------------------------- the view, entry by entry

  /** Two hostnames count as the same if they are, and absent is the same as empty. */
  lemma SameHostnameIff(a: Option<string>, b: Option<string>)
    ensures HostnameValue(a) == HostnameValue(b) <==> a == b || (a in {None, Some("")} && b in {None, Some("")})
  {
  }

  /** `e` is the listener at its index of its parent, as the spec has it. */
  predicate IsListenerOf(e: Entry, gateway: Option<Gateway>)
  {
    match e.parent
    case OwnListener => gateway.Some? && e.index < |gateway.value.listeners| && e.listener == gateway.value.listeners[e.index]
    case SetListener(owner) => e.index < |owner.listeners| && e.listener == owner.listeners[e.index]
  }

  /** The ListenerSet an entry comes from, by position. */
  lemma {:induction false} SetEntryFrom(sets: seq<ListenerSet>, i: nat) returns (p: nat)
    requires i < |SetEntries(sets)|
    ensures p < |sets| && SetEntries(sets)[i].parent == SetListener(sets[p])
    ensures SetEntries(sets)[i].index < |sets[p].listeners|
    ensures SetEntries(sets)[i].listener == sets[p].listeners[SetEntries(sets)[i].index]
  {
    var front, last := sets[..|sets| - 1], sets[|sets| - 1];
    if i < |SetEntries(front)| {
      p := SetEntryFrom(front, i);
    } else {
      p := |sets| - 1;
      assert SetEntries(sets)[i] == EntriesOf(last.listeners, SetListener(last))[i - |SetEntries(front)|];
    }
  }

  /** Entries come in the order of their ListenerSets, and within one in the order of its listeners. */
  lemma {:induction false} SetEntriesOrder(sets: seq<ListenerSet>, i: nat, j: nat) returns (p: nat, q: nat)
    requires i < j < |SetEntries(sets)|
    ensures p <= q < |sets|
    ensures SetEntries(sets)[i].parent == SetListener(sets[p]) && SetEntries(sets)[j].parent == SetListener(sets[q])
    ensures p == q ==> SetEntries(sets)[i].index < SetEntries(sets)[j].index
  {
    var front, last := sets[..|sets| - 1], sets[|sets| - 1];
    var n := |SetEntries(front)|;
    if j < n {
      p, q := SetEntriesOrder(front, i, j);
    } else {
      q := |sets| - 1;
      assert SetEntries(sets)[j] == EntriesOf(last.listeners, SetListener(last))[j - n];
      if i < n {
        p := SetEntryFrom(front, i);
      } else {
        p := q;
        assert SetEntries(sets)[i] == EntriesOf(last.listeners, SetListener(last))[i - n];
      }
    }
  }

  lemma {:induction false} SetEntryOf(sets: seq<ListenerSet>, owner: ListenerSet, k: nat) returns (i: nat)
    requires owner in sets && k < |owner.listeners|
    ensures i < |SetEntries(sets)| && SetEntries(sets)[i] == Entry(SetListener(owner), k, owner.listeners[k], None)
  {
    var front, last := sets[..|sets| - 1], sets[|sets| - 1];
    if owner == last {
      i := |SetEntries(front)| + k;
    } else {
      assert sets == front + [last];
      i := SetEntryOf(front, owner, k);
    }
  }

  /** Older before younger, then by namespace, then by name. */
  predicate NotAfter(a: ListenerSet, b: ListenerSet)
  {
    && a.created <= b.created
    && (a.created == b.created ==> Strings.Leq(a.namespace, b.namespace))
    && (a.created == b.created && a.namespace == b.namespace ==> Strings.Leq(a.name, b.name))
  }

  lemma PrecedesIsNotAfter(a: ListenerSet, b: ListenerSet)
    ensures Precedes(a, b) <==> NotAfter(a, b)
  {
    Strings.LeqIsOrder();
  }

  /** Own listeners first and in order; then those of the ListenerSets, set by set. */
  predicate InOrder(x: Entry, y: Entry)
  {
    match y.parent
    case OwnListener => x.parent == OwnListener && x.index < y.index
    case SetListener(b) =>
      match x.parent
      case OwnListener => true
      case SetListener(a) => NotAfter(a, b) && (a == b ==> x.index < y.index)
  }

  lemma {:induction false} SetEntriesInOrder(sets: seq<ListenerSet>, i: nat, j: nat)
    requires DistinctNames(sets) && i < j < |SetEntries(SortBy(sets, Precedes))|
    ensures InOrder(SetEntries(SortBy(sets, Precedes))[i], SetEntries(SortBy(sets, Precedes))[j])
  {
    var sorted := SortBy(sets, Precedes);
    var p, q := SetEntriesOrder(sorted, i, j);
    PrecedesIsPreorder();
    SortSorted(sets, Precedes);
    PrecedesIsNotAfter(sorted[p], sorted[q]);
    if p < q {
      SortedApart(sets, p, q);
    } else {
      assert Precedes(sorted[p], sorted[p]);
    }
  }

  lemma {:induction false} OwnBeforeSets(sets: seq<ListenerSet>, x: Entry, j: nat)
    requires x.parent == OwnListener && j < |SetEntries(sets)|
    ensures InOrder(x, SetEntries(sets)[j])
  {
    var q := SetEntryFrom(sets, j);
  }

  lemma {:induction false} OrderedInOrder(gateway: Option<Gateway>, sets: seq<ListenerSet>, i: nat, j: nat)
    requires DistinctNames(sets) && i < j < |Ordered(gateway, sets)|
    ensures InOrder(Ordered(gateway, sets)[i], Ordered(gateway, sets)[j])
  {
    var own, rest := GatewayEntries(gateway), SetEntries(SortBy(sets, Precedes));
    var n := |own|;
    assert Ordered(gateway, sets) == own + rest;
    if n <= i {
      SetEntriesInOrder(sets, i - n, j - n);
    } else if n <= j {
      OwnBeforeSets(SortBy(sets, Precedes), own[i], j - n);
    }
  }

  /** The entries of a view are in order, whatever order the ListenerSets were listed in. */
  lemma {:induction false} MergeInOrder(gateway: Option<Gateway>, sets: seq<ListenerSet>, i: nat, j: nat)
    requires DistinctNames(sets) && i < j < |Merge(gateway, sets)|
    ensures InOrder(Merge(gateway, sets)[i], Merge(gateway, sets)[j])
  {
    OrderedInOrder(gateway, sets, i, j);
  }

  lemma {:induction false} SortedApart(sets: seq<ListenerSet>, p: nat, q: nat)
    requires DistinctNames(sets) && p < q < |SortBy(sets, Precedes)|
    ensures SortBy(sets, Precedes)[p] != SortBy(sets, Precedes)[q]
  {
    SortMultiset(sets, Precedes);
    var x := SortBy(sets, Precedes)[p];
    assert Distinct(sets);
    DistinctCountsOnce(sets, x);
    CountedOnce(SortBy(sets, Precedes), p, q);
  }

  /** Every entry of a view is a listener of the Gateway or of an attached ListenerSet. */
  lemma {:induction false} MergeOnlyListeners(gateway: Option<Gateway>, sets: seq<ListenerSet>, i: nat)
    requires i < |Merge(gateway, sets)|
    ensures IsListenerOf(Merge(gateway, sets)[i], gateway)
    ensures Merge(gateway, sets)[i].parent.SetListener? ==> Merge(gateway, sets)[i].parent.owner in sets
  {
    var own, sorted := GatewayEntries(gateway), SortBy(sets, Precedes);
    SortMembers(sets, Precedes);
    if |own| <= i {
      assert Ordered(gateway, sets)[i] == SetEntries(sorted)[i - |own|];
      var p := SetEntryFrom(sorted, i - |own|);
      assert sorted[p] in sorted;
    }
  }

  lemma StampKeeps(gateway: Option<Gateway>, sets: seq<ListenerSet>, i: nat)
    requires i < |Ordered(gateway, sets)|
    ensures Merge(gateway, sets)[i] == Ordered(gateway, sets)[i].(conflict := Merge(gateway, sets)[i].conflict)
  {
  }

  /** Every listener of an attached ListenerSet has an entry. */
  lemma {:induction false} MergeAllListeners(gateway: Option<Gateway>, sets: seq<ListenerSet>, owner: ListenerSet, k: nat)
    returns (i: nat)
    requires owner in sets && k < |owner.listeners|
    ensures i < |Merge(gateway, sets)|
    ensures Merge(gateway, sets)[i].parent == SetListener(owner) && Merge(gateway, sets)[i].index == k
  {
    var own, sorted := GatewayEntries(gateway), SortBy(sets, Precedes);
    SortMembers(sets, Precedes);
    var j := SetEntryOf(sorted, owner, k);
    i := |own| + j;
    assert (own + SetEntries(sorted))[i] == SetEntries(sorted)[j];
    StampKeeps(gateway, sets, i);
  }

  /** The Gateway's own listeners come first, each at its index. */
  lemma {:induction false} MergeOwnListeners(gateway: Gateway, sets: seq<ListenerSet>, k: nat)
    requires k < |gateway.listeners|
    ensures k < |Merge(Some(gateway), sets)|
    ensures Merge(Some(gateway), sets)[k].parent == OwnListener && Merge(Some(gateway), sets)[k].index == k
  {
    StampKeeps(Some(gateway), sets, k);
  }

  /**
   Every refusal in a view is due to an earlier free entry on the port: one with another
   protocol, or else one with the same protocol and hostname. So no listener is refused
   because of a younger ListenerSet, and the Gateway's own never because of any.
   */
  lemma {:induction false} RefusedByElder(gateway: Option<Gateway>, sets: seq<ListenerSet>, i: nat) returns (j: nat)
    requires DistinctNames(sets) && i < |Merge(gateway, sets)| && Merge(gateway, sets)[i].conflict.Some?
    ensures j < i && Merge(gateway, sets)[j].conflict.None? && InOrder(Merge(gateway, sets)[j], Merge(gateway, sets)[i])
    ensures var x, y := Merge(gateway, sets)[j].listener, Merge(gateway, sets)[i].listener;
            && x.port == y.port
            && (Merge(gateway, sets)[i].conflict == Some(ProtocolConflict) <==> x.protocol != y.protocol)
            && (Merge(gateway, sets)[i].conflict == Some(HostnameConflict) ==> HostnameValue(x.hostname) == HostnameValue(y.hostname))
  {
    var es := Ordered(gateway, sets);
    OrderedFree(gateway, sets, i);
    j := ConflictHasWitness(es, i);
    OrderedFree(gateway, sets, j);
    MergeInOrder(gateway, sets, j, i);
  }

  lemma {:induction false} OrderedFree(gateway: Option<Gateway>, sets: seq<ListenerSet>, i: nat)
    requires i < |Merge(gateway, sets)|
    ensures Ordered(gateway, sets)[i].conflict == None
    ensures Merge(gateway, sets)[i].conflict == Verdicts(Ordered(gateway, sets))[i]
  {
    var own, sorted := GatewayEntries(gateway), SortBy(sets, Precedes);
    if |own| <= i {
      assert Ordered(gateway, sets)[i] == SetEntries(sorted)[i - |own|];
      SetEntriesFree(sorted, i - |own|);
    }
  }

  lemma {:induction false} SetEntriesFree(sets: seq<ListenerSet>, i: nat)
    requires i < |SetEntries(sets)|
    ensures SetEntries(sets)[i].conflict == None
  {
    var front, last := sets[..|sets| - 1], sets[|sets| - 1];
    if i < |SetEntries(front)| {
      SetEntriesFree(front, i);
    } else {
      assert SetEntries(sets)[i] == EntriesOf(last.listeners, SetListener(last))[i - |SetEntries(front)|];
    }
  }

  /** Two free entries of a view on one port have one protocol and different hostnames. */
  lemma {:induction false} FreeAreCompatible(gateway: Option<Gateway>, sets: seq<ListenerSet>, i: nat, j: nat)
    requires i < j < |Merge(gateway, sets)|
    requires Merge(gateway, sets)[i].conflict.None? && Merge(gateway, sets)[j].conflict.None?
    requires Merge(gateway, sets)[i].listener.port == Merge(gateway, sets)[j].listener.port
    ensures var x, y := Merge(gateway, sets)[i].listener, Merge(gateway, sets)[j].listener;
            x.protocol == y.protocol && HostnameValue(x.hostname) != HostnameValue(y.hostname)
  {
    OrderedFree(gateway, sets, i);
    OrderedFree(gateway, sets, j);
    SurvivorsCompatible(Ordered(gateway, sets), i, j);
  }

  // ---------------------------------------------------------------- documented tie-break

  /** The documented tie-break: alphabetical by "{namespace}/{name}". */
  predicate DocumentedLeq(l: ListenerSet, r: ListenerSet)
  {
    Strings.Leq(l.namespace + "/" + l.name, r.namespace + "/" + r.name)
  }

  /** Namespace first, then name: the comparison the sort makes when the timestamps tie. */
  predicate PairLeq(a: string, x: string, b: string, y: string)
  {
    if a != b then Strings.Leq(a, b) else Strings.Leq(x, y)
  }

  /** One namespace is the other followed by a character that sorts before the slash. */
  predicate SlashSkewed(a: string, b: string)
  {
    |a| < |b| && Strings.HasPrefix(b, a) && b[|a|] < '/'
  }

  lemma {:induction false} LeqCons(c: char, s: string, d: char, t: string)
    ensures Strings.Leq([c] + s, [d] + t) <==> c < d || (c == d && Strings.Leq(s, t))
  {
    assert ([c] + s)[1..] == s && ([d] + t)[1..] == t;
  }

  lemma SkewCons(c: char, s: string, d: char, t: string)
    ensures SlashSkewed([c] + s, [d] + t) <==> c == d && SlashSkewed(s, t)
  {
    var a, b := [c] + s, [d] + t;
    if |s| < |t| {
      assert b[..|a|] == [d] + t[..|s|];
      assert a[0] == c && ([d] + t[..|s|])[0] == d;
      assert a[1..] == s && ([d] + t[..|s|])[1..] == t[..|s|];
    }
  }

  lemma PairCons(c: char, a: string, x: string, d: char, b: string, y: string)
    ensures PairLeq([c] + a, x, [d] + b, y) <==> c < d || (c == d && PairLeq(a, x, b, y))
  {
    LeqCons(c, a, d, b);
    assert ([c] + a)[0] == c && ([d] + b)[0] == d;
    assert ([c] + a)[1..] == a && ([d] + b)[1..] == b;
  }

  lemma {:induction false} SlashAgainst(x: string, d: char, b: string, y: string)
    requires d != '/'
    ensures (PairLeq("", x, [d] + b, y) <==> Strings.Leq("/" + x, [d] + b + "/" + y)) <==> !SlashSkewed("", [d] + b)
    ensures (PairLeq([d] + b, y, "", x) <==> Strings.Leq([d] + b + "/" + y, "/" + x)) <==> !SlashSkewed("", [d] + b)
    ensures !SlashSkewed([d] + b, "")
  {
    var v := [d] + (b + "/" + y);
    assert [d] + b + "/" + y == v && "/" + x == ['/'] + x;
    LeqCons('/', x, d, b + "/" + y);
    LeqCons(d, b + "/" + y, '/', x);
    assert ([d] + b)[..0] == "";
  }

  lemma {:induction false} PairOrderAgrees(a: string, x: string, b: string, y: string)
    requires '/' !in a && '/' !in b
    ensures (PairLeq(a, x, b, y) <==> Strings.Leq(a + "/" + x, b + "/" + y)) <==> !SlashSkewed(a, b) && !SlashSkewed(b, a)
    decreases |a|
  {
    if a == "" && b == "" {
      LeqCons('/', x, '/', y);
      assert "" + "/" + x == ['/'] + x && "" + "/" + y == ['/'] + y;
    } else if a == "" {
      assert b == [b[0]] + b[1..] && b[0] in b;
      SlashAgainst(x, b[0], b[1..], y);
    } else if b == "" {
      assert a == [a[0]] + a[1..] && a[0] in a;
      SlashAgainst(y, a[0], a[1..], x);
    } else {
      var c, s, d, t := a[0], a[1..], b[0], b[1..];
      assert a == [c] + s && b == [d] + t;
      PairOrderAgrees(s, x, t, y);
      PairCons(c, s, x, d, t, y);
      SkewCons(c, s, d, t);
      SkewCons(d, t, c, s);
      LeqCons(c, s + "/" + x, d, t + "/" + y);
      assert a + "/" + x == [c] + (s + "/" + x) && b + "/" + y == [d] + (t + "/" + y);
    }
  }

  /** Comparing namespace then name agrees with the documented text order exactly off the skewed pairs. */
  lemma DocumentedOrderAgrees(l: ListenerSet, r: ListenerSet)
    requires l.created == r.created && '/' !in l.namespace && '/' !in r.namespace
    ensures (Precedes(l, r) <==> DocumentedLeq(l, r)) <==>
            !SlashSkewed(l.namespace, r.namespace) && !SlashSkewed(r.namespace, l.namespace)
  {
    PairOrderAgrees(l.namespace, l.name, r.namespace, r.name);
  }
}
