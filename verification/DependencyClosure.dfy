/** The dependency closure of a selection: required concepts and `requires` links, depth first. */
module DependencyClosure {
  import opened Prelude
  import opened SkillRegistry
  import opened LinkWalk

  /** A closure step carries nothing besides the id it enters. */
  type ClosureStep = Step<()>

  function RequiredSteps(registry: Registry, concepts: seq<string>): seq<ClosureStep> {
    if concepts == [] then []
    else (if concepts[0] in registry.subskills then [Enter(concepts[0], ())] else [])
         + RequiredSteps(registry, concepts[1..])
  }

  function RequiresLinkSteps(links: seq<Link>, id: string): seq<ClosureStep> {
    if links == [] then []
    else (if links[0].from == id && links[0].relation == Some(Requires) then [Enter(links[0].to, ())] else [])
         + RequiresLinkSteps(links[1..], id)
  }

  /** The edges the closure follows out of each known sub-skill, in the order it follows them. */
  function ClosureLinks(registry: Registry): Links<()> {
    map id | id in registry.subskills ::
      RequiredSteps(registry, registry.subskills[id].subskill.requiredConcepts) + RequiresLinkSteps(registry.links, id)
  }

  /** `to` is a direct dependency of `from`. */
  predicate DependsOn(registry: Registry, from: string, to: string) {
    && from in registry.subskills
    && (|| (to in registry.subskills[from].subskill.requiredConcepts && to in registry.subskills)
        || exists link :: link in registry.links && link.from == from && link.to == to
                          && link.relation == Some(Requires))
  }

  lemma {:induction false} RequiredStepsExact(registry: Registry, concepts: seq<string>, to: string)
    ensures Enter(to, ()) in RequiredSteps(registry, concepts) <==> to in concepts && to in registry.subskills
    ensures forall s :: s in RequiredSteps(registry, concepts) ==> s.Enter?
  {
    if concepts != [] {
      RequiredStepsExact(registry, concepts[1..], to);
    }
  }

  lemma {:induction false} RequiresLinkStepsExact(links: seq<Link>, id: string, to: string)
    ensures Enter(to, ()) in RequiresLinkSteps(links, id)
       <==> exists link :: link in links && link.from == id && link.to == to && link.relation == Some(Requires)
    ensures forall s :: s in RequiresLinkSteps(links, id) ==> s.Enter?
  {
    if links != [] {
      RequiresLinkStepsExact(links[1..], id, to);
      assert forall link :: link in links <==> link == links[0] || link in links[1..];
    }
  }

  /** The walk's edges are the registry's dependencies. */
  lemma ClosureLinksExact(registry: Registry, from: string, to: string)
    ensures Enter(to, ()) in StepsOf(ClosureLinks(registry), from) <==> DependsOn(registry, from, to)
    ensures forall s :: s in StepsOf(ClosureLinks(registry), from) ==> s.Enter?
  {
    if from in registry.subskills {
      RequiredStepsExact(registry, registry.subskills[from].subskill.requiredConcepts, to);
      RequiresLinkStepsExact(registry.links, from, to);
    }
  }

  /** `to` can be reached from `from` over at most `n` dependencies. */
  ghost predicate DependsWithin(registry: Registry, from: string, to: string, n: nat)
    decreases n
  {
    from == to || (n > 0 && exists via :: DependsOn(registry, from, via) && DependsWithin(registry, via, to, n - 1))
  }

  lemma OneNote(note: ())
    ensures note == ()
  {
    match note case () =>
  }

  lemma {:induction false} ReachIsDependency(registry: Registry, from: string, to: string, n: nat)
    ensures ReachIn(ClosureLinks(registry), from, to, n) <==> DependsWithin(registry, from, to, n)
    decreases n
  {
    var links := ClosureLinks(registry);
    if from != to && n > 0 {
      if s :| s in StepsOf(links, from) && s.Enter? && ReachIn(links, s.id, to, n - 1) {
        OneNote(s.note);
        ClosureLinksExact(registry, from, s.id);
        ReachIsDependency(registry, s.id, to, n - 1);
      }
      if via :| DependsOn(registry, from, via) && DependsWithin(registry, via, to, n - 1) {
        ClosureLinksExact(registry, from, via);
        ReachIsDependency(registry, via, to, n - 1);
        var s := Enter(via, ());
        assert s in StepsOf(links, from) && ReachIn(links, s.id, to, n - 1);
      }
    }
  }

  /** Entering each of `ids` in turn. */
  function EnterEach(ids: seq<string>): (steps: seq<ClosureStep>)
    ensures |steps| == |ids|
    ensures forall i :: 0 <= i < |ids| ==> steps[i] == Enter(ids[i], ())
  {
    seq(|ids|, i requires 0 <= i < |ids| => Enter(ids[i], ()))
  }

  function Closure(registry: Registry, selected: seq<string>, maxDepth: nat): seq<string> {
    Entered(VisitAll(ClosureLinks(registry), EnterEach(selected), maxDepth, Walk({}, [])).trace)
  }

  lemma RequiredStepsFrom(registry: Registry, required: seq<string>, i: nat)
    requires i < |required|
    ensures var here, rest := RequiredSteps(registry, required[i..]), RequiredSteps(registry, required[i + 1..]);
            if required[i] in registry.subskills
            then here != [] && here[0] == Enter(required[i], ()) && here[1..] == rest
            else here == rest
  {
    assert required[i..][0] == required[i] && required[i..][1..] == required[i + 1..];
  }

  lemma RequiresLinkStepsFrom(links: seq<Link>, i: nat, id: string)
    requires i < |links|
    ensures var here, rest := RequiresLinkSteps(links[i..], id), RequiresLinkSteps(links[i + 1..], id);
            if links[i].from == id && links[i].relation == Some(Requires)
            then here != [] && here[0] == Enter(links[i].to, ()) && here[1..] == rest
            else here == rest
  {
    assert links[i..][0] == links[i] && links[i..][1..] == links[i + 1..];
  }

  /** The mutable visited set and output list that one closure call threads through its recursion. */
  class DependencyWalk {
    const registry: Registry
    var seen: set<string>
    var ordered: seq<string>

    ghost function State(): Walk<()>
      reads this
    {
      Walk(seen, EnterEach(ordered))
    }

    constructor (registry: Registry)
      ensures State() == Walk({}, []) && this.registry == registry
    {
      this.registry := registry;
      seen, ordered := {}, [];
    }

    method CollectDependencies(id: string, depth: nat, maxDepth: nat)
      requires depth <= maxDepth
      modifies this
      ensures State() == Visit(ClosureLinks(registry), Enter(id, ()), maxDepth - depth, old(State()))
      decreases maxDepth - depth, 1
    {
      if id in seen {
        return;
      }
      assert EnterEach(ordered + [id]) == EnterEach(ordered) + [Enter(id, ())];
      seen, ordered := seen + {id}, ordered + [id];
      if depth >= maxDepth {
        return;
      }
      if id !in registry.subskills {
        return;
      }
      FollowRequired(registry.subskills[id].subskill.requiredConcepts, depth, maxDepth);
      FollowLinks(id, depth, maxDepth);
      VisitAllAppend(ClosureLinks(registry), RequiredSteps(registry, registry.subskills[id].subskill.requiredConcepts),
                     RequiresLinkSteps(registry.links, id), maxDepth - depth - 1,
                     Walk(old(seen) + {id}, EnterEach(old(ordered)) + [Enter(id, ())]));
    }

    /** The first loop of the walk: the required concepts that are known. */
    method FollowRequired(required: seq<string>, depth: nat, maxDepth: nat)
      requires depth < maxDepth
      modifies this
      ensures State() == VisitAll(ClosureLinks(registry), RequiredSteps(registry, required), maxDepth - depth - 1,
                                  old(State()))
      decreases maxDepth - depth, 0
    {
      ghost var links, left := ClosureLinks(registry), maxDepth - depth - 1;
      var i := 0;
      while i < |required|
        invariant 0 <= i <= |required|
        invariant VisitAll(links, RequiredSteps(registry, required[i..]), left, State())
               == VisitAll(links, RequiredSteps(registry, required), left, old(State()))
      {
        RequiredStepsFrom(registry, required, i);
        if required[i] in registry.subskills {
          CollectDependencies(required[i], depth + 1, maxDepth);
        }
        i := i + 1;
      }
    }

    /** The second loop of the walk: the `requires` links out of `id`. */
    method FollowLinks(id: string, depth: nat, maxDepth: nat)
      requires depth < maxDepth
      modifies this
      ensures State() == VisitAll(ClosureLinks(registry), RequiresLinkSteps(registry.links, id),
                                  maxDepth - depth - 1, old(State()))
      decreases maxDepth - depth, 0
    {
      ghost var links, left := ClosureLinks(registry), maxDepth - depth - 1;
      ghost var result := VisitAll(links, RequiresLinkSteps(registry.links, id), left, State());
      var i := 0;
      while i < |registry.links|
        invariant 0 <= i <= |registry.links|
        invariant VisitAll(links, RequiresLinkSteps(registry.links[i..], id), left, State()) == result
      {
        var link := registry.links[i];
        RequiresLinkStepsFrom(registry.links, i, id);
        if link.from == id && link.relation == Some(Requires) {
          CollectDependencies(link.to, depth + 1, maxDepth);
        }
        i := i + 1;
      }
    }
  }

  method DependencyClosureOf(registry: Registry, selected: seq<string>, maxDepth: nat) returns (ordered: seq<string>)
    ensures ordered == Closure(registry, selected, maxDepth)
  {
    var walk := new DependencyWalk(registry);
    ghost var steps := EnterEach(selected);
    ghost var result := VisitAll(ClosureLinks(registry), steps, maxDepth, walk.State());
    var i := 0;
    while i < |selected|
      invariant 0 <= i <= |selected| && walk.registry == registry
      invariant VisitAll(ClosureLinks(registry), steps[i..], maxDepth, walk.State()) == result
    {
      assert steps[i..][0] == Enter(selected[i], ()) && steps[i..][1..] == steps[i + 1..];
      walk.CollectDependencies(selected[i], 0, maxDepth);
      i := i + 1;
    }
    ordered := walk.ordered;
    EnteredPointwise(EnterEach(ordered));
    assert Entered(EnterEach(ordered)) == ordered;
  }

  // ---------------------------------------------------------------- what the closure is

  /** Each id is listed once, whatever the depth and however cyclic the graph. */
  lemma ClosureDistinct(registry: Registry, selected: seq<string>, maxDepth: nat)
    ensures Distinct(Closure(registry, selected, maxDepth))
  {
    VisitAllConsistent(ClosureLinks(registry), EnterEach(selected), maxDepth, Walk({}, []));
  }

  /** Nothing is listed that is more than `maxDepth` dependencies away from the selection. */
  lemma ClosureSound(registry: Registry, selected: seq<string>, maxDepth: nat, id: string)
    requires id in Closure(registry, selected, maxDepth)
    ensures exists root :: root in selected && DependsWithin(registry, root, id, maxDepth)
  {
    var links, steps := ClosureLinks(registry), EnterEach(selected);
    VisitAllConsistent(links, steps, maxDepth, Walk({}, []));
    var s := VisitAllReachable(links, steps, maxDepth, Walk({}, []), id);
    ReachIsDependency(registry, s.id, id, maxDepth);
    assert s.id in selected;
  }

  lemma SelectionReaches(registry: Registry, selected: seq<string>, id: string)
    ensures ReachableFrom(ClosureLinks(registry), EnterEach(selected), id)
       <==> exists root, n: nat :: root in selected && DependsWithin(registry, root, id, n)
  {
    var links, steps := ClosureLinks(registry), EnterEach(selected);
    if root, n: nat :| root in selected && DependsWithin(registry, root, id, n) {
      ReachIsDependency(registry, root, id, n);
      var i :| 0 <= i < |selected| && selected[i] == root;
      assert steps[i] in steps && ReachIn(links, steps[i].id, id, n);
    }
    if ReachableFrom(links, steps, id) {
      var s, n: nat :| s in steps && s.Enter? && ReachIn(links, s.id, id, n);
      ReachIsDependency(registry, s.id, id, n);
      assert s.id in selected;
    }
  }

  /** With a depth of at least the number of sub-skills the closure is exactly what the selection depends on. */
  lemma ClosureExact(registry: Registry, selected: seq<string>, maxDepth: nat, id: string)
    requires maxDepth >= |registry.subskills|
    ensures id in Closure(registry, selected, maxDepth)
       <==> exists root, n: nat :: root in selected && DependsWithin(registry, root, id, n)
  {
    var links, steps := ClosureLinks(registry), EnterEach(selected);
    assert links.Keys == registry.subskills.Keys;
    assert |links| == |links.Keys| == |registry.subskills|;
    VisitAllConsistent(links, steps, maxDepth, Walk({}, []));
    ExactReach(links, steps, maxDepth, id);
    SelectionReaches(registry, selected, id);
  }

  /** Everything listed is a selected id or a direct dependency of an id listed earlier. */
  lemma ClosureParentsFirst(registry: Registry, selected: seq<string>, maxDepth: nat, k: nat)
    requires k < |Closure(registry, selected, maxDepth)|
    ensures var c := Closure(registry, selected, maxDepth);
            c[k] in selected || exists j :: 0 <= j < k && DependsOn(registry, c[j], c[k])
  {
    var links, steps := ClosureLinks(registry), EnterEach(selected);
    var w := VisitAll(links, steps, maxDepth, Walk({}, []));
    VisitAllJustified(links, steps, maxDepth, Walk({}, []));
    OnlyEnters(registry, steps, maxDepth, Walk({}, []));
    EnteredPointwise(w.trace);
    assert Justified(links, steps, w.trace, k);
    if w.trace[k] !in steps {
      var j :| 0 <= j < k && w.trace[j].Enter? && w.trace[k] in StepsOf(links, w.trace[j].id);
      ClosureLinksExact(registry, w.trace[j].id, w.trace[k].id);
      OneNote(w.trace[k].note);
    }
  }

  lemma {:induction false} EnteredPointwise(trace: seq<ClosureStep>)
    requires forall s :: s in trace ==> s.Enter?
    ensures |Entered(trace)| == |trace|
    ensures forall i :: 0 <= i < |trace| ==> Entered(trace)[i] == trace[i].id
  {
    if trace != [] {
      EnteredPointwise(trace[1..]);
    }
  }

  lemma {:induction false} OnlyEnters(registry: Registry, steps: seq<ClosureStep>, left: nat, w: Walk<()>)
    requires forall s :: s in steps ==> s.Enter?
    requires forall s :: s in w.trace ==> s.Enter?
    ensures forall s :: s in VisitAll(ClosureLinks(registry), steps, left, w).trace ==> s.Enter?
    decreases left, |steps|
  {
    if steps != [] {
      var links, step := ClosureLinks(registry), steps[0];
      if step.id !in w.seen && left > 0 {
        ClosureLinksExact(registry, step.id, "");
        OnlyEnters(registry, StepsOf(links, step.id), left - 1, Walk(w.seen + {step.id}, w.trace + [step]));
      }
      OnlyEnters(registry, steps[1..], left, Visit(links, step, left, w));
    }
  }

  function BareEntry(id: string, needs: seq<string>): Entry {
    Entry("lib", Subskill(id, None, None, None, None, [], [], [], needs, [],
                          PolicyInheritance.Policy("", None, [], [], []), map[], None, [], 0, 0), None)
  }

  /** a needs b and c, b needs c, c needs d. */
  const DIAMOND := Registry(map[], map["a" := BareEntry("a", ["b", "c"]), "b" := BareEntry("b", ["c"]),
                                       "c" := BareEntry("c", ["d"]), "d" := BareEntry("d", [])], [])

  lemma DiamondSteps()
    ensures StepsOf(ClosureLinks(DIAMOND), "a") == [Enter("b", ()), Enter("c", ())]
    ensures StepsOf(ClosureLinks(DIAMOND), "b") == [Enter("c", ())]
  {
    assert ["b", "c"][1..] == ["c"];
    assert RequiredSteps(DIAMOND, ["c"]) == [Enter("c", ())];
    assert RequiredSteps(DIAMOND, ["b", "c"]) == [Enter("b", ()), Enter("c", ())];
  }

  lemma DiamondDepends()
    ensures DependsWithin(DIAMOND, "a", "d", 2)
  {
    assert DependsOn(DIAMOND, "a", "c") && DependsOn(DIAMOND, "c", "d");
    assert DependsWithin(DIAMOND, "c", "d", 1);
  }

  /**
   Below that depth the closure can miss an id within reach: an id first met where the depth ran out
   is not expanded when it is met again higher up.
   */
  lemma ShallowClosureMisses()
    ensures DependsWithin(DIAMOND, "a", "d", 2)
    ensures "d" !in Closure(DIAMOND, ["a"], 2)
  {
    DiamondDepends();
    DiamondSteps();
    ShallowWalk(ClosureLinks(DIAMOND));
    assert EnterEach(["a"]) == [Enter("a", ())];
  }

  /** From a -> b, c; b -> c; c -> d, a walk of depth two stops at c below b. */
  lemma ShallowWalk(links: Links<()>)
    requires StepsOf(links, "a") == [Enter("b", ()), Enter("c", ())]
    requires StepsOf(links, "b") == [Enter("c", ())]
    ensures "d" !in Entered(VisitAll(links, [Enter("a", ())], 2, Walk({}, [])).trace)
  {
    var toB, toC: ClosureStep := Enter("b", ()), Enter("c", ());
    var w1 := Walk({"a"}, [Enter("a", ())]);
    var w2 := Walk({"a", "b"}, [Enter("a", ()), toB]);
    var w := Walk({"a", "b", "c"}, [Enter("a", ()), toB, toC]);
    assert {} + {"a"} == {"a"} && [] + [Enter("a", ())] == [Enter("a", ())];
    assert VisitAll(links, [toC], 0, w2) == VisitAll(links, [], 0, Visit(links, toC, 0, w2)) == w;
    assert Visit(links, toB, 1, w1) == VisitAll(links, [toC], 0, w2);
    assert [toB, toC][1..] == [toC];
    assert VisitAll(links, [toB, toC], 1, w1) == VisitAll(links, [toC], 1, w);
    assert VisitAll(links, [toC], 1, w) == VisitAll(links, [], 1, w) == w;
    assert Visit(links, Enter("a", ()), 2, Walk({}, [])) == w;
    assert VisitAll(links, [], 2, w) == w;
    EnteredPointwise(w.trace);
  }
}
