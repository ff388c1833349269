/**
 Overlaying the controller's annotations on a shared object
 (internal/controller/gateway_infra_reconciler.go). The keys the controller wrote
 are remembered in an annotation of their own, as one comma-separated string.
 */
module Annotations {
  import opened Lists
  import opened Strings

  type Annotations = map<string, string>

  const TRACKING_KEY := "cf.k8s.lex.la/managed-annotations"

  /** The keys that the controller can render: qualified names, and never the tracking key. */
  predicate Clean(key: string)
  {
    key != "" && ',' !in key && key != TRACKING_KEY
  }

  predicate AllClean(desired: Annotations)
  {
    forall k :: k in desired ==> Clean(k)
  }

  function Lookup(a: Annotations, key: string): Option<string>
  {
    if key in a then Some(a[key]) else None
  }

  // ---------------------------------------------------------------- the tracking string

  function TrackingText(existing: Annotations): string
  {
    if TRACKING_KEY in existing then existing[TRACKING_KEY] else ""
  }

  function Tracked(existing: Annotations): set<string>
  {
    KeysIn(TrackingText(existing))
  }

  ghost function Listed(keys: set<string>): (r: seq<string>)
    ensures Listing(r, keys)
  {
    if keys == {} then [] else
      var k :| k in keys;
      var rest := Listed(keys - {k});
      ListingSnoc(rest, keys - {k}, k);
      rest + [k]
  }

  ghost function TrackingOf(keys: set<string>): string
  {
    Join(SortStrings(Listed(keys)), ',')
  }

  lemma {:induction false} ListedMembers(keys: set<string>)
    ensures forall k :: k in SortStrings(Listed(keys)) <==> k in keys
  {
    SameMembers(SortStrings(Listed(keys)), Listed(keys));
    assert forall k :: k in Listed(keys) <==> k in ToSet(Listed(keys));
  }

  lemma SplitTracking(keys: set<string>)
    requires keys != {} && forall k :: k in keys ==> Clean(k)
    ensures forall k :: k in Split(TrackingOf(keys), ',') <==> k in keys
  {
    ListedMembers(keys);
    var parts := SortStrings(Listed(keys));
    var k :| k in keys;
    assert k in parts;
    SplitJoin(parts, ',');
  }

  function KeysIn(text: string): set<string>
  {
    set k | k in Split(text, ',') && k != ""
  }

  lemma KeysInTracking(text: string, keys: set<string>)
    requires text == if keys == {} then "" else TrackingOf(keys)
    requires forall k :: k in keys ==> Clean(k)
    ensures KeysIn(text) == keys
  {
    if keys == {} {
      assert Split(text, ',') == [""];
    } else {
      SplitTracking(keys);
    }
  }

  /** Writing a set of clean keys down and reading it back gives the set. */
  lemma TrackingRoundTrip(existing: Annotations, keys: set<string>)
    requires forall k :: k in keys ==> Clean(k)
    requires TrackingText(existing) == if keys == {} then "" else TrackingOf(keys)
    ensures Tracked(existing) == keys
  {
    KeysInTracking(TrackingText(existing), keys);
  }

  // ---------------------------------------------------------------- the merge

  ghost function WithTracking(a: Annotations, keys: set<string>): Annotations
  {
    if keys == {} then a - {TRACKING_KEY} else a[TRACKING_KEY := TrackingOf(keys)]
  }

  ghost function Merged(existing: Annotations, desired: Annotations): Annotations
  {
    WithTracking((existing - (Tracked(existing) - desired.Keys)) + desired, desired.Keys)
  }

  method DropUndesired(existing: Annotations, desired: Annotations) returns (result: Annotations)
    ensures result == existing - (Tracked(existing) - desired.Keys)
  {
    result := existing;
    var keys := Split(TrackingText(existing), ',');
    ghost var dropped: set<string> := {};
    for i := 0 to |keys|
      invariant result == existing - dropped
      invariant dropped == set k | k in keys[..i] && k != "" && k !in desired
    {
      var key := keys[i];
      assert forall k :: k in keys[..i + 1] <==> k in keys[..i] || k == key;
      if key == "" {
        continue;
      }
      if key !in desired {
        result := result - {key};
        dropped := dropped + {key};
      }
    }
    assert keys[..|keys|] == keys;
    assert dropped == Tracked(existing) - desired.Keys;
  }

  /** `result` is `base` with the part of `desired` outside `todo` laid over it. */
  ghost predicate Overlaid<K, V>(result: map<K, V>, base: map<K, V>, desired: map<K, V>, todo: set<K>)
  {
    && result.Keys == base.Keys + (desired.Keys - todo)
    && forall k :: k in result ==> result[k] == if k in desired && k !in todo then desired[k] else base[k]
  }

  lemma OverlayOne<K, V>(result: map<K, V>, base: map<K, V>, desired: map<K, V>, todo: set<K>, key: K)
    requires todo <= desired.Keys && key in todo && Overlaid(result, base, desired, todo)
    ensures Overlaid(result[key := desired[key]], base, desired, todo - {key})
  {
  }

  lemma OverlayStart<K(!new), V>(base: map<K, V>, desired: map<K, V>)
    ensures Overlaid(base, base, desired, desired.Keys) && Listing([], desired.Keys - desired.Keys)
  {
  }

  lemma OverlayDone<K(!new), V>(result: map<K, V>, managed: seq<K>, base: map<K, V>, desired: map<K, V>, todo: set<K>)
    requires todo == {} && Overlaid(result, base, desired, todo) && Listing(managed, desired.Keys - todo)
    ensures result == base + desired && Listing(managed, desired.Keys)
  {
    assert desired.Keys - todo == desired.Keys;
  }

  lemma ListOne<K(!new)>(managed: seq<K>, all: set<K>, todo: set<K>, key: K)
    requires todo <= all && key in todo && Listing(managed, all - todo)
    ensures Listing(managed + [key], all - (todo - {key}))
  {
    ListingSnoc(managed, all - todo, key);
    assert all - (todo - {key}) == (all - todo) + {key};
  }

  method Overlay<K(==, !new), V>(base: map<K, V>, desired: map<K, V>) returns (result: map<K, V>, managed: seq<K>)
    ensures result == base + desired
    ensures Listing(managed, desired.Keys)
  {
    result, managed := base, [];
    var todo := desired.Keys;
    OverlayStart(base, desired);
    while todo != {}
      invariant todo <= desired.Keys
      invariant Overlaid(result, base, desired, todo)
      invariant Listing(managed, desired.Keys - todo)
      decreases todo
    {
      var key :| key in todo;
      OverlayOne(result, base, desired, todo, key);
      ListOne(managed, desired.Keys, todo, key);
      result := result[key := desired[key]];
      managed := managed + [key];
      todo := todo - {key};
    }
    OverlayDone(result, managed, base, desired, todo);
  }

  lemma ListsAll(managed: seq<string>, keys: set<string>)
    requires Listing(managed, keys)
    ensures Join(SortStrings(managed), ',') == TrackingOf(keys)
  {
    ListingsPermuted(managed, Listed(keys), keys);
    SortStringsPermuted(managed, Listed(keys));
  }

  method JoinManaged(managed: seq<string>, ghost keys: set<string>) returns (line: string)
    requires Listing(managed, keys)
    ensures line == TrackingOf(keys)
  {
    ListsAll(managed, keys);
    line := Join(SortStrings(managed), ',');
  }

  lemma ListsNone<K(!new)>(managed: seq<K>, keys: set<K>)
    requires Listing(managed, keys)
    ensures managed == [] <==> keys == {}
  {
    assert managed != [] ==> managed[0] in ToSet(managed);
    assert forall k :: k in keys ==> k in managed;
  }

  method Track(a: Annotations, managed: seq<string>, ghost keys: set<string>) returns (result: Annotations)
    requires Listing(managed, keys)
    ensures result == WithTracking(a, keys)
  {
    ListsNone(managed, keys);
    if |managed| == 0 {
      result := a - {TRACKING_KEY};
    } else {
      var line := JoinManaged(managed, keys);
      result := a[TRACKING_KEY := line];
    }
  }

  method MergeManagedAnnotations(existing: Annotations, desired: Annotations) returns (result: Annotations)
    ensures result == Merged(existing, desired)
  {
    result := DropUndesired(existing, desired);
    var managed: seq<string>;
    result, managed := Overlay(result, desired);
    result := Track(result, managed, desired.Keys);
  }

  // ---------------------------------------------------------------- every history

  /** Reconciles of this controller, interleaved with other actors' edits. */
  datatype Step =
    | Reconcile(desired: Annotations)
    | Put(key: string, value: string)
    | Remove(key: string)

  predicate Allowed(step: Step)
  {
    match step
    case Reconcile(desired) => AllClean(desired)
    case Put(key, _) => key != TRACKING_KEY
    case Remove(key) => key != TRACKING_KEY
  }

  ghost function Exec(a: Annotations, step: Step): Annotations
  {
    match step
    case Reconcile(desired) => Merged(a, desired)
    case Put(key, value) => a[key := value]
    case Remove(key) => a - {key}
  }

  ghost function Run(a: Annotations, steps: seq<Step>): Annotations
  {
    if steps == [] then a else Exec(Run(a, steps[..|steps| - 1]), steps[|steps| - 1])
  }

  /** The intended behaviour, with the controller's keys remembered as a set beside the annotations. */
  datatype Ideal = Ideal(annotations: Annotations, managed: set<string>)

  function IdealExec(x: Ideal, step: Step): Ideal
  {
    match step
    case Reconcile(desired) => Ideal((x.annotations - (x.managed - desired.Keys)) + desired, desired.Keys)
    case Put(key, value) => x.(annotations := x.annotations[key := value])
    case Remove(key) => x.(annotations := x.annotations - {key})
  }

  function IdealRun(x: Ideal, steps: seq<Step>): Ideal
  {
    if steps == [] then x else IdealExec(IdealRun(x, steps[..|steps| - 1]), steps[|steps| - 1])
  }

  ghost predicate Represents(a: Annotations, x: Ideal)
  {
    && TRACKING_KEY !in x.annotations
    && (forall k :: k in x.managed ==> Clean(k))
    && a == WithTracking(x.annotations, x.managed)
  }

  lemma RewriteOutside<K, V>(a: map<K, V>, t: K, drop: set<K>, d: map<K, V>)
    ensures ((a - drop) + d) - {t} == ((a - {t}) - drop) + (d - {t})
  {
  }

  /** Rewriting two maps that agree outside `t` alike leaves them in agreement outside `t`. */
  lemma RewriteAlike<K, V>(a: map<K, V>, x: map<K, V>, t: K, drop: set<K>, d: map<K, V>)
    requires a - {t} == x - {t}
    ensures ((a - drop) + d) - {t} == ((x - drop) + d) - {t}
  {
    RewriteOutside(a, t, drop, d);
    RewriteOutside(x, t, drop, d);
  }

  lemma PutFirst<K, V>(a: map<K, V>, t: K, v: V)
    ensures a[t := v] == (a - {t})[t := v]
  {
  }

  lemma PutAlike<K, V>(a: map<K, V>, x: map<K, V>, t: K, v: V)
    requires a - {t} == x - {t}
    ensures a[t := v] == x[t := v]
  {
    PutFirst(a, t, v);
    PutFirst(x, t, v);
  }

  lemma TrackingAlike(a: Annotations, x: Annotations, keys: set<string>)
    requires a - {TRACKING_KEY} == x - {TRACKING_KEY}
    ensures WithTracking(a, keys) == WithTracking(x, keys)
  {
    PutAlike(a, x, TRACKING_KEY, TrackingOf(keys));
  }

  lemma PutThenRemove<K, V>(a: map<K, V>, t: K, v: V)
    ensures a[t := v] - {t} == a - {t}
  {
  }

  lemma OutsideTracking(a: Annotations, keys: set<string>)
    ensures WithTracking(a, keys) - {TRACKING_KEY} == a - {TRACKING_KEY}
    ensures TrackingText(WithTracking(a, keys)) == if keys == {} then "" else TrackingOf(keys)
  {
    PutThenRemove(a, TRACKING_KEY, TrackingOf(keys));
  }

  lemma ReconcileRefines(a: Annotations, x: Ideal, desired: Annotations)
    requires Represents(a, x) && AllClean(desired)
    ensures Represents(Merged(a, desired), IdealExec(x, Reconcile(desired)))
  {
    OutsideTracking(x.annotations, x.managed);
    TrackingRoundTrip(a, x.managed);
    var drop := x.managed - desired.Keys;
    RewriteAlike(a, x.annotations, TRACKING_KEY, drop, desired);
    TrackingAlike((a - drop) + desired, (x.annotations - drop) + desired, desired.Keys);
  }

  lemma PutElsewhere<K, V>(a: map<K, V>, x: map<K, V>, t: K, k: K, v: V)
    requires a - {t} == x - {t} && k != t
    ensures a[k := v] - {t} == x[k := v] - {t}
  {
    assert a[k := v] - {t} == (a - {t})[k := v];
    assert x[k := v] - {t} == (x - {t})[k := v];
  }

  lemma RemoveElsewhere<K, V>(a: map<K, V>, x: map<K, V>, t: K, k: K)
    requires a - {t} == x - {t}
    ensures (a - {k}) - {t} == (x - {k}) - {t}
  {
    assert (a - {k}) - {t} == (a - {t}) - {k};
    assert (x - {k}) - {t} == (x - {t}) - {k};
  }

  /** An edit elsewhere leaves the tracking text alone. */
  lemma TrackingStays(a: Annotations, b: Annotations, x: Annotations, y: Annotations, keys: set<string>)
    requires a == WithTracking(x, keys) && Lookup(a, TRACKING_KEY) == Lookup(b, TRACKING_KEY)
    requires b - {TRACKING_KEY} == y - {TRACKING_KEY}
    ensures b == WithTracking(y, keys)
  {
    if keys == {} {
      assert b == b - {TRACKING_KEY};
    } else {
      assert b == b[TRACKING_KEY := TrackingOf(keys)];
      PutAlike(b, y, TRACKING_KEY, TrackingOf(keys));
    }
  }

  lemma EditRefines(a: Annotations, x: Ideal, step: Step)
    requires Represents(a, x) && Allowed(step) && !step.Reconcile?
    ensures Represents(Exec(a, step), IdealExec(x, step))
  {
    OutsideTracking(x.annotations, x.managed);
    if step.Put? {
      PutElsewhere(a, x.annotations, TRACKING_KEY, step.key, step.value);
    } else {
      RemoveElsewhere(a, x.annotations, TRACKING_KEY, step.key);
    }
    TrackingStays(a, Exec(a, step), x.annotations, IdealExec(x, step).annotations, x.managed);
  }

  /** From an object without tracking, the string-tracked merge does exactly what the set-tracked one does. */
  lemma {:induction false} TrackingRefinesSet(a: Annotations, steps: seq<Step>)
    requires TRACKING_KEY !in a && forall step :: step in steps ==> Allowed(step)
    ensures Represents(Run(a, steps), IdealRun(Ideal(a, {}), steps))
  {
    if steps == [] {
      assert a - {TRACKING_KEY} == a;
    } else {
      var front, last := steps[..|steps| - 1], steps[|steps| - 1];
      TrackingRefinesSet(a, front);
      var b, x := Run(a, front), IdealRun(Ideal(a, {}), front);
      assert Allowed(last);
      if last.Reconcile? {
        ReconcileRefines(b, x, last.desired);
      } else {
        EditRefines(b, x, last);
      }
    }
  }

  // ---------------------------------------------------------------- what the history leaves behind

  /** What the last edit of another actor left under `key`, `start` if there was none. */
  function LastEdit(steps: seq<Step>, key: string, start: Option<string>): Option<string>
  {
    if steps == [] then start
    else
      var front, last := steps[..|steps| - 1], steps[|steps| - 1];
      if last.Put? && last.key == key then Some(last.value)
      else if last.Remove? && last.key == key then None
      else LastEdit(front, key, start)
  }

  predicate NeverDesired(steps: seq<Step>, key: string)
  {
    forall step :: step in steps && step.Reconcile? ==> key !in step.desired
  }

  lemma {:induction false} IdealForeign(x: Ideal, steps: seq<Step>, key: string)
    requires NeverDesired(steps, key) && key !in x.managed
    ensures key !in IdealRun(x, steps).managed
    ensures Lookup(IdealRun(x, steps).annotations, key) == LastEdit(steps, key, Lookup(x.annotations, key))
  {
    if steps == [] {
    } else {
      var front, last := steps[..|steps| - 1], steps[|steps| - 1];
      IdealForeign(x, front, key);
      assert last in steps;
    }
  }

  /** A key the controller never desired holds what its owners left there, after any history. */
  lemma {:induction false} ForeignKeysUntouched(a: Annotations, steps: seq<Step>, key: string)
    requires TRACKING_KEY !in a && (forall step :: step in steps ==> Allowed(step))
    requires NeverDesired(steps, key) && key != TRACKING_KEY
    ensures Lookup(Run(a, steps), key) == LastEdit(steps, key, Lookup(a, key))
  {
    TrackingRefinesSet(a, steps);
    IdealForeign(Ideal(a, {}), steps, key);
  }

  // ---------------------------------------------------------------- reconciles alone

  function EverDesired(ds: seq<Annotations>): set<string>
  {
    set d, k | d in ds && k in d :: k
  }

  function Reconciles(ds: seq<Annotations>): seq<Step>
  {
    Map(ds, (d: Annotations) => Reconcile(d))
  }

  lemma DropTwice<K, V>(a: map<K, V>, ever: set<K>, d: map<K, V>, e: map<K, V>)
    requires d.Keys <= ever
    ensures (((a - ever) + d) - (d.Keys - e.Keys)) + e == (a - (ever + e.Keys)) + e
  {
  }

  lemma DropNone<K, V>(a: map<K, V>, none: set<K>, e: map<K, V>)
    requires none == {}
    ensures (a - none) + e == (a - e.Keys) + e
  {
  }

  lemma EverDesiredSnoc(front: seq<Annotations>, last: Annotations)
    ensures EverDesired(front + [last]) == EverDesired(front) + last.Keys
  {
    assert forall d :: d in front + [last] <==> d in front || d == last;
  }

  lemma {:induction false} IdealReconciles(a: Annotations, ds: seq<Annotations>)
    requires ds != []
    ensures IdealRun(Ideal(a, {}), Reconciles(ds)) == Ideal((a - EverDesired(ds)) + ds[|ds| - 1], ds[|ds| - 1].Keys)
  {
    var front, last := ds[..|ds| - 1], ds[|ds| - 1];
    assert Reconciles(ds)[..|ds| - 1] == Reconciles(front);
    assert ds == front + [last];
    EverDesiredSnoc(front, last);
    if front == [] {
      assert EverDesired(front) == {};
      assert EverDesired(ds) == last.Keys;
      DropNone(a, {} - last.Keys, last);
    } else {
      IdealReconciles(a, front);
      var d := front[|front| - 1];
      assert d in front;
      assert d.Keys <= EverDesired(front);
      DropTwice(a, EverDesired(front), d, last);
    }
  }

  /**
   After any sequence of reconciles: the last desired annotations are there, every
   other key that was ever desired is gone, and everything else is as it was.
   */
  lemma {:induction false} ReconcilesLeave(a: Annotations, ds: seq<Annotations>)
    requires TRACKING_KEY !in a && ds != [] && forall d :: d in ds ==> AllClean(d)
    ensures var last := ds[|ds| - 1];
            Run(a, Reconciles(ds)) == WithTracking((a - EverDesired(ds)) + last, last.Keys)
  {
    TrackingRefinesSet(a, Reconciles(ds));
    IdealReconciles(a, ds);
  }

  lemma OverlayOnto<K, V>(a: map<K, V>, t: K, d: map<K, V>, none: set<K>)
    requires t !in d && none == {}
    ensures ((a - none) + d) - {t} == (a - {t}) + d
    ensures ((a + d) - {t}) + d == (a + d) - {t}
  {
  }

  lemma OverlayTwice<K, V>(once: map<K, V>, a: map<K, V>, t: K, d: map<K, V>, none: set<K>)
    requires once - {t} == (a + d) - {t} && t !in d && none == {}
    ensures ((once - none) + d) - {t} == (a + d) - {t}
  {
    OverlayOnto(once, t, d, none);
    OverlayOnto(a, t, d, none);
  }

  /** The tracking annotation lists the keys of the last desired map in ascending order, and is absent when there are none. */
  lemma {:induction false} TrackingListsDesired(a: Annotations, ds: seq<Annotations>) returns (keys: seq<string>)
    requires TRACKING_KEY !in a && ds != [] && forall d :: d in ds ==> AllClean(d)
    ensures Ascending(keys) && forall k :: k in keys <==> k in ds[|ds| - 1]
    ensures Lookup(Run(a, Reconciles(ds)), "cf.k8s.lex.la/managed-annotations") ==
            if keys == [] then None else Some(Join(keys, ','))
  {
    var last := ds[|ds| - 1];
    ReconcilesLeave(a, ds);
    keys := SortStrings(Listed(last.Keys));
    ListedMembers(last.Keys);
    SortDistinctAscends(Listed(last.Keys));
    TrackedLookup(a - EverDesired(ds) + last, last.Keys, keys);
  }

  lemma {:induction false} TrackedLookup(a: Annotations, keys: set<string>, listed: seq<string>)
    requires listed == SortStrings(Listed(keys)) && forall k :: k in listed <==> k in keys
    ensures Lookup(WithTracking(a, keys), "cf.k8s.lex.la/managed-annotations") ==
            if listed == [] then None else Some(Join(listed, ','))
  {
    assert listed != [] ==> listed[0] in listed;
    assert keys != {} ==> exists k :: k in keys;
  }

  /** Every other key holds the last desired value, or what it held at the start if it was never desired, or nothing. */
  lemma {:induction false} ReconciledLookup(a: Annotations, ds: seq<Annotations>, key: string)
    requires TRACKING_KEY !in a && ds != [] && (forall d :: d in ds ==> AllClean(d)) && key != TRACKING_KEY
    ensures Lookup(Run(a, Reconciles(ds)), key) ==
            if key in ds[|ds| - 1] then Some(ds[|ds| - 1][key])
            else if exists d :: d in ds && key in d then None
            else Lookup(a, key)
  {
    ReconcilesLeave(a, ds);
    assert key in EverDesired(ds) <==> exists d :: d in ds && key in d;
    OutsideTracking(a - EverDesired(ds) + ds[|ds| - 1], ds[|ds| - 1].Keys);
    var m, r := a - EverDesired(ds) + ds[|ds| - 1], Run(a, Reconciles(ds));
    assert key in r <==> key in r - {TRACKING_KEY};
    assert key in m <==> key in m - {TRACKING_KEY};
  }

  /** A second reconcile with the same desire changes nothing, whatever the object held before. */
  lemma MergeIdempotent(existing: Annotations, desired: Annotations)
    requires AllClean(desired)
    ensures Merged(Merged(existing, desired), desired) == Merged(existing, desired)
  {
    var base := existing - (Tracked(existing) - desired.Keys);
    var once := Merged(existing, desired);
    OutsideTracking(base + desired, desired.Keys);
    TrackingRoundTrip(once, desired.Keys);
    var none := desired.Keys - desired.Keys;
    OverlayTwice(once, base, TRACKING_KEY, desired, none);
    TrackingAlike((once - none) + desired, base + desired, desired.Keys);
  }
}
