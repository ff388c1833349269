/**
 The status-write protocol for routes (internal/controller/route_status.go and
 internal/controller/status_generation.go): concurrent reconciles rebuild this
 controller's entries of `status.parents` under optimistic concurrency and a
 generation guard.
 */
module RouteStatus {
  import opened Lists

  const MAX_PARENTS: nat := 32

  /**
   `observedGeneration` is what the condition claims; `computedAt` records the
   generation of the reconcile that computed it and is not part of the object.
   */
  datatype Condition = Condition(kind: string, status: string, observedGeneration: nat, computedAt: nat)

  datatype Parent = Parent(controller: string, parentRef: string, conditions: seq<Condition>)

  function Ours(us: string): Parent -> bool
  {
    (p: Parent) => p.controller == us
  }

  function Others(us: string): Parent -> bool
  {
    (p: Parent) => p.controller != us
  }

  function Own(us: string, parents: seq<Parent>): seq<Parent>
  {
    Keep(parents, Ours(us))
  }

  function Foreign(us: string, parents: seq<Parent>): seq<Parent>
  {
    Keep(parents, Others(us))
  }

  // ---------------------------------------------------------------- rebuilding the list

  predicate StatusGenerationStale(reconciled: nat, conditions: seq<Condition>)
  {
    exists c :: c in conditions && c.observedGeneration > reconciled
  }

  predicate Blocked(us: string, parents: seq<Parent>, reconciled: nat)
  {
    exists p :: p in parents && p.controller == us && StatusGenerationStale(reconciled, p.conditions)
  }

  function Room(foreign: nat): nat
  {
    if foreign <= MAX_PARENTS then MAX_PARENTS - foreign else 0
  }

  function Fitting(ours: seq<Parent>, foreign: nat): seq<Parent>
  {
    if |ours| > Room(foreign) then ours[..Room(foreign)] else ours
  }

  function Rebuilt(us: string, stored: seq<Parent>, ours: seq<Parent>): seq<Parent>
  {
    Fitting(ours, |Foreign(us, stored)|) + Foreign(us, stored)
  }

  /** The list to write, or nothing when a newer generation's status is already stored. */
  method RebuildParents(us: string, stored: seq<Parent>, reconciled: nat, ours: seq<Parent>) returns (r: Option<seq<Parent>>)
    ensures r == if Blocked(us, stored, reconciled) then None else Some(Rebuilt(us, stored, ours))
  {
    var foreign: seq<Parent> := [];
    for i := 0 to |stored|
      invariant foreign == Foreign(us, stored[..i])
      invariant !Blocked(us, stored[..i], reconciled)
    {
      var p := stored[i];
      assert stored[..i + 1] == stored[..i] + [p];
      KeepSnoc(stored[..i], p, Others(us));
      if p.controller != us {
        foreign := foreign + [p];
        continue;
      }
      if StatusGenerationStale(reconciled, p.conditions) {
        return None;
      }
    }
    assert stored[..|stored|] == stored;
    var available := if MAX_PARENTS - |foreign| > 0 then MAX_PARENTS - |foreign| else 0;
    var kept := ours;
    if |kept| > available {
      kept := kept[..available];
    }
    return Some(kept + foreign);
  }

  lemma OwnThenForeign(us: string, ours: seq<Parent>, foreign: seq<Parent>)
    requires forall p :: p in ours ==> p.controller == us
    requires forall p :: p in foreign ==> p.controller != us
    ensures Own(us, ours + foreign) == ours
    ensures Foreign(us, ours + foreign) == foreign
  {
    KeepConcat(ours, foreign, Ours(us));
    KeepAll(ours, Ours(us));
    KeepNone(foreign, Ours(us));
    KeepConcat(ours, foreign, Others(us));
    KeepNone(ours, Others(us));
    KeepAll(foreign, Others(us));
    assert ours + [] == ours && [] + foreign == foreign;
  }

  /** Other controllers' entries come back verbatim and in order; only our own are cut to fit. */
  lemma RebuiltKeepsForeign(us: string, stored: seq<Parent>, ours: seq<Parent>)
    requires forall p :: p in ours ==> p.controller == us
    ensures var r, foreign := Rebuilt(us, stored, ours), Foreign(us, stored);
            && Foreign(us, r) == foreign
            && r == Own(us, r) + Foreign(us, r) && Own(us, r) <= ours
            && (|ours| + |foreign| <= 32 ==> Own(us, r) == ours)
            && (|ours| + |foreign| > 32 ==> |r| == if |foreign| > 32 then |foreign| else 32)
  {
    var foreign := Foreign(us, stored);
    KeepMembers(stored, Others(us));
    OwnThenForeign(us, Fitting(ours, |foreign|), foreign);
  }

  // ---------------------------------------------------------------- our entries

  /** What a reconcile has to say about one parent: Accepted, ResolvedRefs and optional diagnostics. */
  datatype Verdict = Verdict(parentRef: string, accepted: string, resolvedRefs: string, more: seq<(string, string)>)

  /** The entry says about the parent what the verdict does. */
  predicate Reports(p: Parent, v: Verdict)
  {
    && p.parentRef == v.parentRef && |p.conditions| == 2 + |v.more|
    && p.conditions[0].kind == "Accepted" && p.conditions[0].status == v.accepted
    && p.conditions[1].kind == "ResolvedRefs" && p.conditions[1].status == v.resolvedRefs
    && forall i :: 0 <= i < |v.more| ==> (p.conditions[i + 2].kind, p.conditions[i + 2].status) == v.more[i]
  }

  function BuildParentStatus(us: string, v: Verdict, fetched: nat, reconciled: nat): (p: Parent)
    ensures p.controller == us && Reports(p, v)
    ensures forall c :: c in p.conditions ==> c.observedGeneration == fetched && c.computedAt == reconciled
  {
    Parent(us, v.parentRef,
      [Condition("Accepted", v.accepted, fetched, reconciled), Condition("ResolvedRefs", v.resolvedRefs, fetched, reconciled)]
      + Map(v.more, (m: (string, string)) => Condition(m.0, m.1, fetched, reconciled)))
  }

  function BuildAll(us: string, verdicts: seq<Verdict>, fetched: nat, reconciled: nat): (ps: seq<Parent>)
    ensures |ps| == |verdicts|
    ensures forall i :: 0 <= i < |ps| ==> Reports(ps[i], verdicts[i])
    ensures forall p :: p in ps ==> p.controller == us && p.conditions != []
    ensures forall p, c :: p in ps && c in p.conditions ==> c.observedGeneration == fetched && c.computedAt == reconciled
  {
    Map(verdicts, v => BuildParentStatus(us, v, fetched, reconciled))
  }

  // ---------------------------------------------------------------- the protocol

  datatype Object = Object(generation: nat, parents: seq<Parent>)

  datatype Writer = Idle | Reconciling(reconciled: nat) | Fetched(reconciled: nat, version: nat)

  /** `history[v]` is the route as stored at resource version `v`. */
  datatype State = State(history: seq<Object>, writers: map<nat, Writer>)

  datatype Step =
    | ChangeSpec
    | ForeignWrite(parents: seq<Parent>)
    | Begin(writer: nat, version: nat)
    | Fetch(writer: nat, version: nat)
    | Write(writer: nat, verdicts: seq<Verdict>)
    | GiveUp(writer: nat)

  function Current(s: State): Object
    requires s.history != []
  {
    s.history[|s.history| - 1]
  }

  function Store(s: State, o: Object): State
  {
    s.(history := s.history + [o])
  }

  function SetWriter(s: State, w: nat, x: Writer): State
  {
    s.(writers := s.writers[w := x])
  }

  function WriterOf(s: State, w: nat): Writer
  {
    if w in s.writers then s.writers[w] else Idle
  }

  /** Another controller may rewrite its own entries only, within the length the API allows. */
  predicate Admissible(us: string, o: Object, parents: seq<Parent>)
  {
    Own(us, parents) == Own(us, o.parents) && |parents| <= MAX_PARENTS
  }

  /** Reads may be served from a cache; a write fails unless it is based on the current version. */
  function Exec(us: string, s: State, step: Step): (t: State)
    requires s.history != []
    ensures t.history != []
  {
    match step
    case ChangeSpec =>
      Store(s, Object(Current(s).generation + 1, Current(s).parents))
    case ForeignWrite(parents) =>
      if Admissible(us, Current(s), parents) then Store(s, Current(s).(parents := parents)) else s
    case Begin(w, version) =>
      if version < |s.history| then SetWriter(s, w, Reconciling(s.history[version].generation)) else s
    case Fetch(w, version) =>
      if version < |s.history| && WriterOf(s, w).Reconciling?
      then SetWriter(s, w, Fetched(WriterOf(s, w).reconciled, version)) else s
    case Write(w, verdicts) =>
      var x := WriterOf(s, w);
      if !x.Fetched? || x.version >= |s.history| then s else WriteStatus(us, s, w, x.reconciled, x.version, verdicts)
    case GiveUp(w) =>
      SetWriter(s, w, Idle)
  }

  /** The object as a write based on `o` stores it. */
  function AfterWrite(us: string, o: Object, reconciled: nat, verdicts: seq<Verdict>): Object
  {
    o.(parents := Rebuilt(us, o.parents, BuildAll(us, verdicts, o.generation, reconciled)))
  }

  function WriteStatus(us: string, s: State, w: nat, reconciled: nat, version: nat, verdicts: seq<Verdict>): (t: State)
    requires version < |s.history|
    ensures t.history != []
  {
    var fetched := s.history[version];
    if Blocked(us, fetched.parents, reconciled) then SetWriter(s, w, Idle)
    else if version != |s.history| - 1 then SetWriter(s, w, Reconciling(reconciled))
    else
      SetWriter(Store(s, AfterWrite(us, fetched, reconciled, verdicts)), w, Idle)
  }

  function Run(us: string, s: State, steps: seq<Step>): (t: State)
    requires s.history != []
    ensures t.history != []
  {
    if steps == [] then s else Exec(us, Run(us, s, steps[..|steps| - 1]), steps[|steps| - 1])
  }

  // ---------------------------------------------------------------- what every run keeps

  /** The conditions this controller has on the object. */
  function Claims(us: string, o: Object): set<Condition>
  {
    set p, c | p in o.parents && p.controller == us && c in p.conditions :: c
  }

  /** No condition claims more than the object's generation or less than what it was computed from. */
  ghost predicate Honest(us: string, o: Object)
  {
    forall c :: c in Claims(us, o) ==> c.computedAt <= c.observedGeneration <= o.generation
  }

  ghost predicate ChangedSpec(a: Object, b: Object)
  {
    b.generation == a.generation + 1 && b.parents == a.parents
  }

  ghost predicate WroteForeign(us: string, a: Object, b: Object)
  {
    b.generation == a.generation && Own(us, b.parents) == Own(us, a.parents)
  }

  /** Our write: other entries untouched, every claim fresh, nothing newer than the content overwritten. */
  ghost predicate WroteStatus(us: string, a: Object, b: Object)
  {
    && b.generation == a.generation
    && Foreign(us, b.parents) == Foreign(us, a.parents)
    && (forall d :: d in Claims(us, b) ==> d.observedGeneration == b.generation)
    && (forall c, d :: c in Claims(us, a) && d in Claims(us, b) ==> c.observedGeneration <= d.computedAt)
  }

  ghost predicate Link(us: string, a: Object, b: Object)
  {
    ChangedSpec(a, b) || WroteForeign(us, a, b) || WroteStatus(us, a, b)
  }

  ghost predicate GoodObject(us: string, o: Object)
  {
    Honest(us, o) && |o.parents| <= MAX_PARENTS
  }

  ghost predicate GoodHistory(us: string, history: seq<Object>)
  {
    && (forall o :: o in history ==> GoodObject(us, o))
    && (forall i :: 0 <= i < |history| - 1 ==> Link(us, history[i], history[i + 1]))
  }

  /** A reconcile never works from a generation that does not exist yet. */
  ghost predicate GoodWriters(s: State)
    requires s.history != []
  {
    forall w :: w in s.writers && !s.writers[w].Idle? ==> s.writers[w].reconciled <= Current(s).generation
  }

  ghost predicate Good(us: string, s: State)
  {
    s.history != [] && GoodHistory(us, s.history) && GoodWriters(s)
  }

  lemma OwnClaims(us: string, a: Object, b: Object)
    requires Own(us, a.parents) == Own(us, b.parents)
    ensures Claims(us, a) == Claims(us, b)
  {
    KeepMembers(a.parents, Ours(us));
    KeepMembers(b.parents, Ours(us));
    assert forall p :: p in a.parents && p.controller == us <==> p in b.parents && p.controller == us;
  }

  lemma LinkKeepsGeneration(us: string, a: Object, b: Object)
    requires Link(us, a, b)
    ensures a.generation <= b.generation
  {
  }

  lemma {:induction false} GenerationsGrow(us: string, history: seq<Object>, i: nat, j: nat)
    requires GoodHistory(us, history) && i <= j < |history|
    ensures history[i].generation <= history[j].generation
    decreases j
  {
    if i < j {
      GenerationsGrow(us, history, i, j - 1);
      LinkKeepsGeneration(us, history[j - 1], history[j]);
    }
  }

  lemma StoreGood(us: string, s: State, o: Object)
    requires Good(us, s) && GoodObject(us, o) && Link(us, Current(s), o)
    ensures Good(us, Store(s, o))
  {
    var h := s.history + [o];
    forall i | 0 <= i < |h| - 1 ensures Link(us, h[i], h[i + 1]) {
      if i < |s.history| - 1 {
        assert h[i] == s.history[i] && h[i + 1] == s.history[i + 1];
      }
    }
    LinkKeepsGeneration(us, Current(s), o);
  }

  lemma RebuiltClaims(us: string, o: Object, ours: seq<Parent>)
    requires forall p :: p in ours ==> p.controller == us
    ensures forall c :: c in Claims(us, o.(parents := Rebuilt(us, o.parents, ours))) ==> exists p :: p in ours && c in p.conditions
  {
    KeepMembers(o.parents, Others(us));
    assert forall p :: p in Fitting(ours, |Foreign(us, o.parents)|) ==> p in ours;
  }

  lemma {:induction false} KeepShrinks<T>(s: seq<T>, p: T -> bool)
    ensures |Keep(s, p)| <= |s|
  {
    if s == [] {
    } else {
      KeepShrinks(s[..|s| - 1], p);
    }
  }

  /** One successful write links the current object to the new one. */
  lemma WriteLinks(us: string, o: Object, reconciled: nat, verdicts: seq<Verdict>)
    requires GoodObject(us, o) && reconciled <= o.generation && !Blocked(us, o.parents, reconciled)
    ensures var b := AfterWrite(us, o, reconciled, verdicts);
            WroteStatus(us, o, b) && GoodObject(us, b)
            && forall d :: d in Claims(us, b) ==> d.computedAt == reconciled
  {
    var ours := BuildAll(us, verdicts, o.generation, reconciled);
    RebuiltKeepsForeign(us, o.parents, ours);
    RebuiltClaims(us, o, ours);
    KeepShrinks(o.parents, Others(us));
    UnblockedClaims(us, o, reconciled);
  }

  lemma UnblockedClaims(us: string, o: Object, reconciled: nat)
    ensures !Blocked(us, o.parents, reconciled) <==> forall c :: c in Claims(us, o) ==> c.observedGeneration <= reconciled
  {
    if Blocked(us, o.parents, reconciled) {
      var p :| p in o.parents && p.controller == us && StatusGenerationStale(reconciled, p.conditions);
      var c :| c in p.conditions && c.observedGeneration > reconciled;
      assert c in Claims(us, o);
    } else {
      forall c | c in Claims(us, o) ensures c.observedGeneration <= reconciled {
        var p :| p in o.parents && p.controller == us && c in p.conditions;
        assert !StatusGenerationStale(reconciled, p.conditions);
      }
    }
  }

  lemma WriteGood(us: string, s: State, w: nat, reconciled: nat, version: nat, verdicts: seq<Verdict>)
    requires Good(us, s) && version < |s.history| && reconciled <= Current(s).generation
    ensures Good(us, WriteStatus(us, s, w, reconciled, version, verdicts))
  {
    var o := s.history[version];
    if !Blocked(us, o.parents, reconciled) && version == |s.history| - 1 {
      WriteLinks(us, o, reconciled, verdicts);
      StoreGood(us, s, AfterWrite(us, o, reconciled, verdicts));
    }
  }

  lemma ExecGood(us: string, s: State, step: Step)
    requires Good(us, s)
    ensures Good(us, Exec(us, s, step))
  {
    var o := Current(s);
    assert GoodObject(us, o);
    match step
    case ChangeSpec =>
      StoreGood(us, s, Object(o.generation + 1, o.parents));
    case ForeignWrite(parents) =>
      if Admissible(us, o, parents) {
        OwnClaims(us, o, o.(parents := parents));
        StoreGood(us, s, o.(parents := parents));
      }
    case Begin(w, version) =>
      if version < |s.history| {
        GenerationsGrow(us, s.history, version, |s.history| - 1);
      }
    case Fetch(w, version) =>
    case Write(w, verdicts) =>
      var x := WriterOf(s, w);
      if x.Fetched? && x.version < |s.history| {
        WriteGood(us, s, w, x.reconciled, x.version, verdicts);
      }
    case GiveUp(w) =>
  }

  /** Every run of any number of concurrent writers keeps the protocol's invariant. */
  lemma {:induction false} RunGood(us: string, s: State, steps: seq<Step>)
    requires Good(us, s)
    ensures Good(us, Run(us, s, steps))
  {
    if steps == [] {
    } else {
      RunGood(us, s, steps[..|steps| - 1]);
      ExecGood(us, Run(us, s, steps[..|steps| - 1]), steps[|steps| - 1]);
    }
  }

  // ---------------------------------------------------------------- consequences over all runs

  /** Between any two versions our entries are unchanged, or no new claim is older than any earlier one. */
  lemma {:induction false} ObservedNeverDecreases(us: string, history: seq<Object>, i: nat, j: nat)
    requires GoodHistory(us, history) && i <= j < |history|
    ensures Claims(us, history[i]) == Claims(us, history[j])
            || forall c, d :: c in Claims(us, history[i]) && d in Claims(us, history[j]) ==>
                 c.observedGeneration <= d.observedGeneration
    decreases j
  {
    if i < j {
      ObservedNeverDecreases(us, history, i, j - 1);
      var a, b := history[j - 1], history[j];
      if WroteForeign(us, a, b) {
        OwnClaims(us, a, b);
      } else if !ChangedSpec(a, b) {
        GenerationsGrow(us, history, i, j);
        assert GoodObject(us, history[i]);
      }
    }
  }

  /** While our entries stay present, content is never replaced by content of an older generation. */
  lemma {:induction false} ContentNeverRegresses(us: string, history: seq<Object>, i: nat, j: nat, c: Condition, d: Condition)
    requires GoodHistory(us, history) && i <= j < |history|
    requires forall k :: i <= k <= j ==> Claims(us, history[k]) != {}
    requires c in Claims(us, history[i]) && d in Claims(us, history[j])
    ensures Claims(us, history[i]) == Claims(us, history[j]) || c.computedAt <= d.computedAt
    decreases j
  {
    if i < j {
      var a, b := history[j - 1], history[j];
      if WroteForeign(us, a, b) {
        OwnClaims(us, a, b);
      }
      if ChangedSpec(a, b) || WroteForeign(us, a, b) {
        ContentNeverRegresses(us, history, i, j - 1, c, d);
      } else {
        var e :| e in Claims(us, a);
        assert GoodObject(us, a);
        if c in Claims(us, a) {
          assert c.observedGeneration <= d.computedAt;
        } else {
          ContentNeverRegresses(us, history, i, j - 1, c, e);
        }
      }
    }
  }

  lemma WriteKeepsForeign(us: string, s: State, w: nat, reconciled: nat, version: nat, verdicts: seq<Verdict>)
    requires version < |s.history|
    ensures Foreign(us, Current(WriteStatus(us, s, w, reconciled, version, verdicts)).parents) == Foreign(us, Current(s).parents)
  {
    var o := s.history[version];
    RebuiltKeepsForeign(us, o.parents, BuildAll(us, verdicts, o.generation, reconciled));
  }

  lemma ExecKeepsForeign(us: string, s: State, step: Step)
    requires s.history != [] && !step.ForeignWrite?
    ensures Foreign(us, Current(Exec(us, s, step)).parents) == Foreign(us, Current(s).parents)
  {
    match step
    case Write(w, verdicts) =>
      var x := WriterOf(s, w);
      if x.Fetched? && x.version < |s.history| {
        WriteKeepsForeign(us, s, w, x.reconciled, x.version, verdicts);
      }
    case _ =>
  }

  /** Without a write by another controller, its entries are verbatim what they were. */
  lemma {:induction false} ForeignSurvive(us: string, s: State, steps: seq<Step>)
    requires s.history != [] && forall step :: step in steps ==> !step.ForeignWrite?
    ensures Foreign(us, Current(Run(us, s, steps)).parents) == Foreign(us, Current(s).parents)
  {
    if steps == [] {
    } else {
      var front, last := steps[..|steps| - 1], steps[|steps| - 1];
      ForeignSurvive(us, s, front);
      ExecKeepsForeign(us, Run(us, s, front), last);
    }
  }

  /** The other controllers' entries as they last wrote them themselves. */
  ghost function TheirEntries(us: string, s: State, steps: seq<Step>): seq<Parent>
    requires s.history != []
  {
    if steps == [] then Foreign(us, Current(s).parents)
    else
      var front, last := steps[..|steps| - 1], steps[|steps| - 1];
      if last.ForeignWrite? && Own(us, last.parents) == Own(us, Current(Run(us, s, front)).parents) && |last.parents| <= 32
      then Foreign(us, last.parents)
      else TheirEntries(us, s, front)
  }

  /** In every run, nothing but their own writes changes the other controllers' entries, and every such write does. */
  lemma {:induction false} ForeignAreTheirs(us: string, s: State, steps: seq<Step>)
    requires s.history != []
    ensures Foreign(us, Current(Run(us, s, steps)).parents) == TheirEntries(us, s, steps)
  {
    if steps == [] {
    } else {
      var front, last := steps[..|steps| - 1], steps[|steps| - 1];
      ForeignAreTheirs(us, s, front);
      if !last.ForeignWrite? {
        ExecKeepsForeign(us, Run(us, s, front), last);
      }
    }
  }

  /**
   The protocol's safety over every run: each stored version fits the API's limit; a
   later version's claims are the earlier ones or none is older; and as long as our
   entries stayed present in between, content never went back to an older generation.
   */
  lemma {:induction false} StatusNeverRegresses(us: string, s: State, steps: seq<Step>, i: nat, j: nat, c: Condition, d: Condition)
    requires Good(us, s) && i <= j < |Run(us, s, steps).history|
    requires c in Claims(us, Run(us, s, steps).history[i]) && d in Claims(us, Run(us, s, steps).history[j])
    ensures var h := Run(us, s, steps).history;
            && |h[i].parents| <= MAX_PARENTS
            && (Claims(us, h[i]) == Claims(us, h[j]) || c.observedGeneration <= d.observedGeneration)
            && ((forall k :: i <= k <= j ==> Claims(us, h[k]) != {}) ==>
                  Claims(us, h[i]) == Claims(us, h[j]) || c.computedAt <= d.computedAt)
  {
    RunGood(us, s, steps);
    var h := Run(us, s, steps).history;
    assert GoodObject(us, h[i]);
    ObservedNeverDecreases(us, h, i, j);
    if forall k :: i <= k <= j ==> Claims(us, h[k]) != {} {
      ContentNeverRegresses(us, h, i, j, c, d);
    }
  }

  // ---------------------------------------------------------------- the guard lets the newest through

  predicate Ready(s: State, w: nat, reconciled: nat)
    requires s.history != []
  {
    WriterOf(s, w) == Fetched(reconciled, |s.history| - 1)
  }

  lemma ReadyWrites(us: string, s: State, w: nat, reconciled: nat, verdicts: seq<Verdict>)
    requires s.history != [] && Ready(s, w, reconciled) && !Blocked(us, Current(s).parents, reconciled)
    ensures Exec(us, s, Write(w, verdicts)) == SetWriter(Store(s, AfterWrite(us, Current(s), reconciled, verdicts)), w, Idle)
  {
  }

  lemma NewestInGood(us: string, t: State, w: nat, verdicts: seq<Verdict>)
    requires Good(us, t) && Ready(t, w, Current(t).generation)
    ensures var o := Current(Exec(us, t, Write(w, verdicts)));
            && Own(us, o.parents) <= BuildAll(us, verdicts, o.generation, o.generation)
            && o.generation == Current(t).generation
            && forall c :: c in Claims(us, o) ==> c.computedAt == c.observedGeneration == o.generation
  {
    var o := Current(t);
    assert GoodObject(us, o);
    UnblockedClaims(us, o, o.generation);
    ReadyWrites(us, t, w, o.generation, verdicts);
    WriteLinks(us, o, o.generation, verdicts);
    RebuiltKeepsForeign(us, o.parents, BuildAll(us, verdicts, o.generation, o.generation));
  }

  /**
   In every reachable state a writer that has just fetched the route and reconciled
   its current generation is not held back, and leaves only its own verdict behind.
   */
  lemma {:induction false} NewestIsWritten(us: string, s: State, steps: seq<Step>, w: nat, verdicts: seq<Verdict>)
    requires Good(us, s) && Ready(Run(us, s, steps), w, Current(Run(us, s, steps)).generation)
    ensures var t := Run(us, s, steps); var o := Current(Exec(us, t, Write(w, verdicts)));
            && Own(us, o.parents) <= BuildAll(us, verdicts, o.generation, o.generation)
            && o.generation == Current(t).generation
            && forall c :: c in Claims(us, o) ==> c.computedAt == c.observedGeneration == o.generation
  {
    RunGood(us, s, steps);
    NewestInGood(us, Run(us, s, steps), w, verdicts);
  }

  // ---------------------------------------------------------------- when a claim is exact

  lemma WriteLeavesClaim(us: string, o: Object, reconciled: nat, verdicts: seq<Verdict>) returns (c: Condition)
    requires Room(|Foreign(us, o.parents)|) > 0 && verdicts != []
    ensures c in Claims(us, AfterWrite(us, o, reconciled, verdicts))
    ensures c.observedGeneration == o.generation && c.computedAt == reconciled
  {
    var ours := BuildAll(us, verdicts, o.generation, reconciled);
    var p := ours[0];
    assert p in ours && p == Rebuilt(us, o.parents, ours)[0];
    assert p in AfterWrite(us, o, reconciled, verdicts).parents;
    c := p.conditions[0];
    assert c in p.conditions;
  }

  /**
   A write's claims name the generation their content was computed from exactly
   when the spec did not change between the reconcile and the fetch.
   */
  lemma ClaimExactIff(us: string, s: State, w: nat, reconciled: nat, verdicts: seq<Verdict>)
    requires Good(us, s) && Ready(s, w, reconciled) && !Blocked(us, Current(s).parents, reconciled)
    requires Room(|Foreign(us, Current(s).parents)|) > 0 && verdicts != []
    ensures var o := Current(Exec(us, s, Write(w, verdicts)));
            (forall c :: c in Claims(us, o) ==> c.observedGeneration == c.computedAt) <==> reconciled == Current(s).generation
  {
    var o := Current(s);
    assert GoodObject(us, o);
    ReadyWrites(us, s, w, reconciled, verdicts);
    WriteLinks(us, o, reconciled, verdicts);
    var c := WriteLeavesClaim(us, o, reconciled, verdicts);
  }

  // ---------------------------------------------------------------- what the guard needs

  /** With claims on the current object, an older content stays out: one of them is newer than it. */
  lemma PresentClaimBlocks(us: string, s: State, reconciled: nat, i: nat, c: Condition)
    requires Good(us, s) && i < |s.history| && c in Claims(us, s.history[i]) && reconciled < c.computedAt
    requires forall k :: i <= k < |s.history| ==> Claims(us, s.history[k]) != {}
    ensures Blocked(us, Current(s).parents, reconciled)
  {
    var last := |s.history| - 1;
    assert Claims(us, s.history[last]) != {};
    var d :| d in Claims(us, s.history[last]);
    ContentNeverRegresses(us, s.history, i, last, c, d);
    assert GoodObject(us, s.history[last]);
    UnblockedClaims(us, Current(s), reconciled);
  }

  /**
   A writer whose generation is older than the content of an earlier version, with our
   entries present ever since, stores something exactly when they are gone by now.
   */
  lemma OlderWriteLandsIff(us: string, s: State, w: nat, reconciled: nat, verdicts: seq<Verdict>, i: nat, c: Condition)
    requires Good(us, s) && Ready(s, w, reconciled)
    requires i < |s.history| && c in Claims(us, s.history[i]) && reconciled < c.computedAt
    requires forall k :: i <= k < |s.history| - 1 ==> Claims(us, s.history[k]) != {}
    ensures |Exec(us, s, Write(w, verdicts)).history| > |s.history| <==> Claims(us, Current(s)) == {}
  {
    if Claims(us, Current(s)) == {} {
      UnblockedClaims(us, Current(s), reconciled);
      ReadyWrites(us, s, w, reconciled, verdicts);
    } else {
      PresentClaimBlocks(us, s, reconciled, i, c);
    }
  }

  /** One writer's whole turn on the current version, with nothing in between. */
  lemma Turn(us: string, t: State, w: nat, reconciled: nat, verdicts: seq<Verdict>)
    requires t.history != [] && WriterOf(t, w) == Reconciling(reconciled) && !Blocked(us, Current(t).parents, reconciled)
    ensures Exec(us, Exec(us, t, Fetch(w, |t.history| - 1)), Write(w, verdicts)) ==
            SetWriter(Store(t, AfterWrite(us, Current(t), reconciled, verdicts)), w, Idle)
  {
    var m := Exec(us, t, Fetch(w, |t.history| - 1));
    assert m == SetWriter(t, w, Fetched(reconciled, |t.history| - 1));
    ReadyWrites(us, m, w, reconciled, verdicts);
  }

  lemma {:induction false} RunOne(us: string, s: State, steps: seq<Step>, i: nat)
    requires s.history != [] && i < |steps|
    ensures Run(us, s, steps[..i + 1]) == Exec(us, Run(us, s, steps[..i]), steps[i])
  {
    assert steps[..i + 1][..i] == steps[..i];
  }

  lemma {:induction false} RunTurn(
      us: string, s: State, steps: seq<Step>, i: nat, t: State, w: nat, reconciled: nat, verdicts: seq<Verdict>)
    requires s.history != [] && t.history != [] && i + 2 <= |steps| && Run(us, s, steps[..i]) == t
    requires steps[i] == Fetch(w, |t.history| - 1) && steps[i + 1] == Write(w, verdicts)
    requires WriterOf(t, w) == Reconciling(reconciled) && !Blocked(us, Current(t).parents, reconciled)
    ensures Run(us, s, steps[..i + 2]) == SetWriter(Store(t, AfterWrite(us, Current(t), reconciled, verdicts)), w, Idle)
  {
    RunOne(us, s, steps, i);
    RunOne(us, s, steps, i + 1);
    Turn(us, t, w, reconciled, verdicts);
  }

  lemma OnlyOurs(us: string, stored: seq<Parent>, ours: seq<Parent>)
    requires |ours| <= MAX_PARENTS
    requires forall p :: p in stored ==> p.controller == us
    ensures Rebuilt(us, stored, ours) == ours
  {
    KeepNone(stored, Others(us));
  }

  /** A turn on an object without other controllers' entries stores just the new ones. */
  lemma {:induction false} TurnAlone(
      us: string, s: State, steps: seq<Step>, i: nat, t: State, w: nat, reconciled: nat, verdicts: seq<Verdict>)
    requires s.history != [] && t.history != [] && i + 2 <= |steps| && Run(us, s, steps[..i]) == t
    requires steps[i] == Fetch(w, |t.history| - 1) && steps[i + 1] == Write(w, verdicts) && |verdicts| <= MAX_PARENTS
    requires WriterOf(t, w) == Reconciling(reconciled) && !Blocked(us, Current(t).parents, reconciled)
    requires forall p :: p in Current(t).parents ==> p.controller == us
    ensures var o := Current(t);
            Run(us, s, steps[..i + 2]) ==
            SetWriter(Store(t, o.(parents := BuildAll(us, verdicts, o.generation, reconciled))), w, Idle)
  {
    RunTurn(us, s, steps, i, t, w, reconciled, verdicts);
    OnlyOurs(us, Current(t).parents, BuildAll(us, verdicts, Current(t).generation, reconciled));
  }

  /** A reconcile has started, then the spec changed, and two more reconciles have started. */
  predicate ThreeStarted(t: State)
  {
    && t.history == [Object(1, []), Object(2, [])]
    && WriterOf(t, 0) == Reconciling(1) && WriterOf(t, 1) == Reconciling(2) && WriterOf(t, 2) == Reconciling(2)
  }

  /** That start, then the second writer's turn, the third's, which has nothing to say, and the first's. */
  predicate RemovalSteps(steps: seq<Step>, v: Verdict)
  {
    steps == [Begin(0, 0), ChangeSpec, Begin(1, 1), Begin(2, 1),
              Fetch(1, 1), Write(1, [v]), Fetch(2, 2), Write(2, []), Fetch(0, 3), Write(0, [v])]
  }

  lemma {:induction false} RemovalStarts(us: string, s: State, steps: seq<Step>, v: Verdict)
    requires s == State([Object(1, [])], map[]) && RemovalSteps(steps, v)
    ensures ThreeStarted(Run(us, s, steps[..4]))
  {
    assert steps[..0] == [];
    RunOne(us, s, steps, 0);
    RunOne(us, s, steps, 1);
    RunOne(us, s, steps, 2);
    RunOne(us, s, steps, 3);
  }

  lemma NewerStored(us: string, s: State, steps: seq<Step>, v: Verdict, t: State) returns (n: State)
    requires s.history != [] && RemovalSteps(steps, v) && ThreeStarted(t) && Run(us, s, steps[..4]) == t
    ensures n == Run(us, s, steps[..6]) && n.history == t.history + [Object(2, BuildAll(us, [v], 2, 2))]
    ensures WriterOf(n, 0) == Reconciling(1) && WriterOf(n, 2) == Reconciling(2)
  {
    TurnAlone(us, s, steps, 4, t, 1, 2, [v]);
    n := Run(us, s, steps[..6]);
  }

  lemma ThenRemoved(us: string, s: State, steps: seq<Step>, v: Verdict, t: State) returns (n: State)
    requires s.history != [] && RemovalSteps(steps, v) && |t.history| == 3 && Run(us, s, steps[..6]) == t
    requires Current(t) == Object(2, BuildAll(us, [v], 2, 2))
    requires WriterOf(t, 0) == Reconciling(1) && WriterOf(t, 2) == Reconciling(2)
    ensures n == Run(us, s, steps[..8]) && n.history == t.history + [Object(2, [])] && WriterOf(n, 0) == Reconciling(1)
  {
    assert !Blocked(us, Current(t).parents, 2);
    TurnAlone(us, s, steps, 6, t, 2, 2, []);
    n := Run(us, s, steps[..8]);
    assert BuildAll(us, [], 2, 2) == [];
  }

  lemma {:induction false} ThenOlder(us: string, s: State, steps: seq<Step>, v: Verdict, t: State)
    requires s.history != [] && RemovalSteps(steps, v) && |t.history| == 4 && Run(us, s, steps[..8]) == t
    requires Current(t) == Object(2, []) && WriterOf(t, 0) == Reconciling(1)
    ensures Run(us, s, steps).history == t.history + [Object(2, BuildAll(us, [v], 2, 1))]
  {
    TurnAlone(us, s, steps, 8, t, 0, 1, [v]);
    assert steps[..10] == steps;
  }

  /**
   The guard reads only stored entries. Once a newer reconcile has removed ours, an
   older one is not held back: content of generation 2 is followed by content of
   generation 1, claimed for generation 2.
   */
  lemma {:induction false} OlderContentAfterRemoval(us: string, s: State, steps: seq<Step>, v: Verdict)
    returns (c: Condition, d: Condition)
    requires s == State([Object(1, [])], map[]) && RemovalSteps(steps, v)
    ensures var h := Run(us, s, steps).history;
            && |h| == 5 && c in Claims(us, h[2]) && d in Claims(us, h[4])
            && d.computedAt < c.computedAt && d.observedGeneration == c.observedGeneration
  {
    RemovalStarts(us, s, steps, v);
    var n := NewerStored(us, s, steps, v, Run(us, s, steps[..4]));
    n := ThenRemoved(us, s, steps, v, n);
    ThenOlder(us, s, steps, v, n);
    var newer, older := BuildAll(us, [v], 2, 2), BuildAll(us, [v], 2, 1);
    c, d := newer[0].conditions[0], older[0].conditions[0];
    assert newer[0] in newer && older[0] in older && c in newer[0].conditions && d in older[0].conditions;
  }
}
