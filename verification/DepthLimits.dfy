/** Which depth limits make the two walks over the link graph complete, for registries of a given size. */
module DepthLimits {
  import opened Prelude
  import opened TextTerms
  import opened SkillRegistry
  import opened LinkWalk
  import opened DependencyClosure
  import opened DependencyPlan

  // ---------------------------------------------------------------- completeness up to the limit

  /** For `id`, the closure says the truth about what is within `depth` dependencies of the selection. */
  ghost predicate ClosureTrueOf(registry: Registry, selected: seq<string>, depth: nat, id: string) {
    id in Closure(registry, selected, depth)
    <==> exists root :: root in selected && DependsWithin(registry, root, id, depth)
  }

  /** It does so for every registry of `size` sub-skills, every selection and every id. */
  ghost predicate ClosureComplete(size: nat, depth: nat) {
    forall registry: Registry, selected: seq<string>, id: string ::
      |registry.subskills| == size ==> ClosureTrueOf(registry, selected, depth, id)
  }

  /** For `id`, the plan's loads say the truth about what is within `depth` load edges of a root. */
  ghost predicate PlanTrueOf(registry: Registry, selected: seq<string>, query: string, depth: nat, id: string) {
    id in Entered(Plan(registry, selected, query, depth))
    <==> exists root :: IsRoot(registry, query, selected, root) && LoadWithin(registry, Terms(query), root, id, depth)
  }

  ghost predicate PlanComplete(size: nat, depth: nat) {
    forall registry: Registry, selected: seq<string>, query: string, id: string ::
      |registry.subskills| == size ==> PlanTrueOf(registry, selected, query, depth, id)
  }

  // ---------------------------------------------------------------- deep enough, or not walking at all

  lemma RootIsListed(registry: Registry, selected: seq<string>, depth: nat, id: string)
    requires id in selected
    ensures id in Closure(registry, selected, depth)
  {
    var links, steps := ClosureLinks(registry), EnterEach(selected);
    VisitAllConsistent(links, steps, depth, Walk({}, []));
    VisitAllExtends(links, steps, depth, Walk({}, []));
    var i :| 0 <= i < |selected| && selected[i] == id;
    assert steps[i] in steps;
  }

  lemma ClosureTrueAt(registry: Registry, selected: seq<string>, depth: nat, id: string)
    requires depth == 0 || depth >= |registry.subskills|
    ensures ClosureTrueOf(registry, selected, depth, id)
  {
    if id in Closure(registry, selected, depth) {
      ClosureSound(registry, selected, depth, id);
    }
    if root :| root in selected && DependsWithin(registry, root, id, depth) {
      if depth == 0 {
        RootIsListed(registry, selected, depth, id);
      } else {
        ClosureExact(registry, selected, depth, id);
      }
    }
  }

  lemma RootIsPlanned(registry: Registry, selected: seq<string>, query: string, depth: nat, id: string)
    requires IsRoot(registry, query, selected, id)
    ensures id in Entered(Plan(registry, selected, query, depth))
  {
    var roots := AllRoots(registry, query, selected);
    PlanLoadsSeen(registry, selected, query, depth, id);
    AllRootsExact(registry, query, selected, id);
    VisitAllExtends(PlanLinks(registry, Terms(query)), roots, depth, Walk({}, []));
    var s :| s in roots && s.Enter? && s.id == id;
  }

  lemma PlanTrueAt(registry: Registry, selected: seq<string>, query: string, depth: nat, id: string)
    requires depth == 0 || depth >= |registry.subskills|
    ensures PlanTrueOf(registry, selected, query, depth, id)
  {
    if id in Entered(Plan(registry, selected, query, depth)) {
      PlanLoadsSound(registry, selected, query, depth, id);
    }
    if root :| IsRoot(registry, query, selected, root) && LoadWithin(registry, Terms(query), root, id, depth) {
      if depth == 0 {
        RootIsPlanned(registry, selected, query, depth, id);
      } else {
        PlanLoadsExact(registry, selected, query, depth, id);
      }
    }
  }

  // ---------------------------------------------------------------- the chain that is cut short

  function Name(i: nat): (name: string)
    ensures |name| == i + 1 && name[0] == 'a'
  {
    if i == 0 then "a" else Name(i - 1) + "a"
  }

  /** Sub-skills that each need the next one, up to the one numbered `last`; the others need nothing. */
  function ChainEntry(i: nat, last: nat): Entry {
    BareEntry(Name(i), if i < last then [Name(i + 1)] else [])
  }

  function ChainTable(size: nat, last: nat): (table: map<string, Entry>)
    ensures |table| == size && forall id :: id in table ==> |id| <= size
    ensures forall i: nat :: i < size ==> Name(i) in table && table[Name(i)] == ChainEntry(i, last)
  {
    if size == 0 then map[]
    else
      var table := ChainTable(size - 1, last);
      assert Name(size - 1) !in table;
      table[Name(size - 1) := ChainEntry(size - 1, last)]
  }

  /** A chain whose last sub-skill requires one more id, which is not known. */
  function ChainRegistry(size: nat, last: nat): Registry {
    Registry(map[], ChainTable(size, last), [Link("beyond", Name(last), "x", Some(Requires), None)])
  }

  function Names(last: nat): (names: seq<string>)
    ensures |names| == last + 1 && forall i :: 0 <= i < |names| ==> names[i] == Name(i)
    ensures "x" !in names
  {
    seq(last + 1, i requires 0 <= i < last + 1 => Name(i))
  }

  lemma ClosureChain(size: nat, last: nat)
    requires last < size
    ensures Chain(ClosureLinks(ChainRegistry(size, last)), Names(last))
  {
    var registry := ChainRegistry(size, last);
    var links := ClosureLinks(registry);
    forall i: nat | i < last ensures LeadsTo(StepsOf(links, Name(i)), Name(i + 1)) {
      assert registry.links[1..] == [] && [Name(i + 1)][1..] == [];
      assert RequiresLinkSteps(registry.links, Name(i)) == [];
      assert RequiredSteps(registry, [Name(i + 1)]) == [Enter(Name(i + 1), ())];
    }
  }

  predicate RequiresBeyond(registry: Registry, from: string, to: string) {
    && from in registry.subskills && |registry.links| == 1
    && registry.links[0].from == from && registry.links[0].to == to && registry.links[0].relation == Some(Requires)
  }

  lemma BeyondIsDependency(registry: Registry, from: string, to: string, depth: nat)
    requires RequiresBeyond(registry, from, to) && depth >= 1
    ensures DependsWithin(registry, from, to, depth)
  {
    assert registry.links[0] in registry.links;
    assert DependsOn(registry, from, to) && DependsWithin(registry, to, to, depth - 1);
  }

  lemma ChainIsAllListed(registry: Registry, names: seq<string>, selected: seq<string>, depth: nat, id: string)
    requires Chain(ClosureLinks(registry), names) && depth == |names| - 1
    requires selected == [names[0], names[depth]] && id !in names
    ensures id !in Closure(registry, selected, depth)
  {
    ChainIsAllSeen(ClosureLinks(registry), names, depth, EnterEach(selected));
    VisitAllConsistent(ClosureLinks(registry), EnterEach(selected), depth, Walk({}, []));
  }

  lemma ClosureMissesBeyond(registry: Registry, names: seq<string>, selected: seq<string>, depth: nat, id: string)
    requires Chain(ClosureLinks(registry), names) && depth == |names| - 1 && depth >= 1
    requires selected == [names[0], names[depth]] && id !in names && RequiresBeyond(registry, names[depth], id)
    ensures !ClosureTrueOf(registry, selected, depth, id)
  {
    ChainIsAllListed(registry, names, selected, depth, id);
    BeyondIsDependency(registry, names[depth], id, depth);
    assert selected[1] in selected;
  }

  /** In between, the chain's last sub-skill is met where the depth runs out, ignored when it is met as a selected id,
      and what it requires, one step away, is missed. */
  lemma ClosureMisses(size: nat, depth: nat)
    requires 1 <= depth < size
    ensures !ClosureTrueOf(ChainRegistry(size, depth), [Name(0), Name(depth)], depth, "x")
  {
    ClosureChain(size, depth);
    ClosureMissesBeyond(ChainRegistry(size, depth), Names(depth), [Name(0), Name(depth)], depth, "x");
  }

  lemma PlanChain(size: nat, last: nat, queryTerms: set<string>)
    requires last < size
    ensures Chain(PlanLinks(ChainRegistry(size, last), queryTerms), Names(last))
  {
    var registry := ChainRegistry(size, last);
    var links := PlanLinks(registry, queryTerms);
    forall i: nat | i < last ensures LeadsTo(StepsOf(links, Name(i)), Name(i + 1)) {
      var concepts := [Name(i + 1)];
      assert registry.links[1..] == [] && concepts[1..] == [];
      assert LinkSteps(registry.links, Name(i), queryTerms) == [];
      assert ConceptSteps(registry, concepts) == [Enter(Name(i + 1), Note(Some(Requires), RequiredConcept))];
    }
  }

  /** Without replacement and fallback links a selected id is its own only root. */
  lemma OwnRoot(registry: Registry, query: string, id: string)
    requires |registry.links| == 1 && registry.links[0].relation == Some(Requires)
    ensures PrimaryOf(registry, id) == id && FallbackTargets(registry, registry.links, id) == []
    ensures |Roots(registry, query, id)| == 1 && Roots(registry, query, id)[0].Enter?
            && Roots(registry, query, id)[0].id == id
  {
    assert registry.links[1..] == [];
    assert PreferredReplacement(registry, registry.links, id) == None;
  }

  lemma OwnRoots(registry: Registry, query: string, a: string, b: string)
    requires |registry.links| == 1 && registry.links[0].relation == Some(Requires)
    ensures var roots := AllRoots(registry, query, [a, b]);
            && |roots| == 2 && roots[0].Enter? && roots[0].id == a && roots[1].Enter? && roots[1].id == b
            && IsRoot(registry, query, [a, b], b)
  {
    OwnRoot(registry, query, a);
    OwnRoot(registry, query, b);
    var selected := [a, b];
    assert selected[1..] == [b] && selected[1..][1..] == [] && selected[1] in selected;
    assert AllRoots(registry, query, [b]) == Roots(registry, query, b) + [];
  }

  lemma BeyondIsLoading(registry: Registry, queryTerms: set<string>, from: string, to: string, depth: nat)
    requires RequiresBeyond(registry, from, to) && depth >= 1
    ensures LoadWithin(registry, queryTerms, from, to, depth)
  {
    assert registry.links[0] in registry.links;
    assert LoadEdge(registry, queryTerms, from, to) && LoadWithin(registry, queryTerms, to, to, depth - 1);
  }

  lemma PlanMissesBeyond(registry: Registry, query: string, names: seq<string>, selected: seq<string>, depth: nat,
                         id: string)
    requires Chain(PlanLinks(registry, Terms(query)), names) && depth == |names| - 1 && depth >= 1
    requires selected == [names[0], names[depth]] && id !in names && RequiresBeyond(registry, names[depth], id)
    ensures !PlanTrueOf(registry, selected, query, depth, id)
  {
    OwnRoots(registry, query, names[0], names[depth]);
    ChainIsAllSeen(PlanLinks(registry, Terms(query)), names, depth, AllRoots(registry, query, selected));
    PlanLoadsSeen(registry, selected, query, depth, id);
    BeyondIsLoading(registry, Terms(query), names[depth], id, depth);
  }

  lemma PlanMisses(size: nat, depth: nat, query: string)
    requires 1 <= depth < size
    ensures !PlanTrueOf(ChainRegistry(size, depth), [Name(0), Name(depth)], query, depth, "x")
  {
    PlanChain(size, depth, Terms(query));
    PlanMissesBeyond(ChainRegistry(size, depth), query, Names(depth), [Name(0), Name(depth)], depth, "x");
  }

  // ---------------------------------------------------------------- exactly when the walks are complete

  /** The closure finds everything within its depth limit, whatever the registry of that size and the selection, if and
      only if the limit is zero or at least the number of sub-skills. */
  lemma ClosureCompleteIff(size: nat, depth: nat)
    ensures ClosureComplete(size, depth) <==> depth == 0 || depth >= size
  {
    if depth == 0 || depth >= size {
      forall registry: Registry, selected: seq<string>, id: string | |registry.subskills| == size
        ensures ClosureTrueOf(registry, selected, depth, id)
      {
        ClosureTrueAt(registry, selected, depth, id);
      }
    } else {
      ClosureMisses(size, depth);
    }
  }

  /** And so it is with the loads of a plan. */
  lemma PlanCompleteIff(size: nat, depth: nat)
    ensures PlanComplete(size, depth) <==> depth == 0 || depth >= size
  {
    if depth == 0 || depth >= size {
      forall registry: Registry, selected: seq<string>, query: string, id: string | |registry.subskills| == size
        ensures PlanTrueOf(registry, selected, query, depth, id)
      {
        PlanTrueAt(registry, selected, query, depth, id);
      }
    } else {
      PlanMisses(size, depth, "");
    }
  }
}
