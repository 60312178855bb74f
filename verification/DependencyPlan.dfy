/** The load plan of a selection: which sub-skills to load or exclude, in which order and why. */
module DependencyPlan {
  import opened Prelude
  import opened TextTerms
  import opened SkillRegistry
  import opened LinkWalk

  datatype PlanReason =
    | PrimaryRouted
    | ReplacementFor(id: string)
    | FallbackForBlocked(primary: string)
    | RequiredConcept
    | DependencyVia(link: string)
    | RelatedVia(link: string)
    | FallbackVia(link: string)
    | ConflictsVia(link: string)
    | ReplacedVia(winner: string, link: string)
    | ReplacedBy(primary: string)
    | BlockedTryingFallback(verdict: PolicyReason)

  datatype Note = Note(relation: Option<Relation>, reason: PlanReason)

  /** A planned decision: an `Enter` step decides "load", a `Skip` step decides "exclude". */
  type Decision = Step<Note>

  type PlanWalk = Walk<Note>

  // ---------------------------------------------------------------- the edges of the plan

  function ConceptSteps(registry: Registry, concepts: seq<string>): seq<Decision> {
    if concepts == [] then []
    else (if concepts[0] in registry.subskills then [Enter(concepts[0], Note(Some(Requires), RequiredConcept))] else [])
         + ConceptSteps(registry, concepts[1..])
  }

  function LinkRelation(link: Link): Relation {
    match link.relation
    case None => Related
    case Some(r) => r
  }

  function LinkStep(link: Link, queryTerms: set<string>): seq<Decision> {
    var relation := LinkRelation(link);
    match relation
    case Requires => [Enter(link.to, Note(Some(relation), DependencyVia(link.id)))]
    case Extending => [Enter(link.to, Note(Some(relation), DependencyVia(link.id)))]
    case Specializes => [Enter(link.to, Note(Some(relation), DependencyVia(link.id)))]
    case Generalizes => [Enter(link.to, Note(Some(relation), DependencyVia(link.id)))]
    case Related => [Enter(link.to, Note(Some(relation), RelatedVia(link.id)))]
    case Conflicts => [Skip(link.to, Note(Some(relation), ConflictsVia(link.id)))]
    case Replaces => [Skip(link.to, Note(Some(relation), ReplacedVia(link.from, link.id)))]
    case Fallback =>
      if TermOverlap(queryTerms, [link.to]) > 0 then [Enter(link.to, Note(Some(relation), FallbackVia(link.id)))]
      else []
    case OtherRelation(_) => []
  }

  function LinkSteps(links: seq<Link>, id: string, queryTerms: set<string>): seq<Decision> {
    if links == [] then []
    else (if links[0].from == id then LinkStep(links[0], queryTerms) else []) + LinkSteps(links[1..], id, queryTerms)
  }

  function PlanLinks(registry: Registry, queryTerms: set<string>): Links<Note> {
    map id | id in registry.subskills ::
      ConceptSteps(registry, registry.subskills[id].subskill.requiredConcepts)
        + LinkSteps(registry.links, id, queryTerms)
  }

  /** A link of this relation makes the planner load its target. */
  predicate LoadsTarget(link: Link, queryTerms: set<string>) {
    match LinkRelation(link)
    case Requires => true
    case Extending => true
    case Specializes => true
    case Generalizes => true
    case Related => true
    case Fallback => exists v :: v in [link.to] && queryTerms * Terms(v) != {}
    case _ => false
  }

  predicate LoadEdge(registry: Registry, queryTerms: set<string>, from: string, to: string) {
    && from in registry.subskills
    && (|| (to in registry.subskills[from].subskill.requiredConcepts && to in registry.subskills)
        || exists link :: link in registry.links && link.from == from && link.to == to && LoadsTarget(link, queryTerms))
  }

  predicate ExcludeEdge(registry: Registry, from: string, to: string) {
    && from in registry.subskills
    && exists link :: link in registry.links && link.from == from && link.to == to
                      && (link.relation == Some(Conflicts) || link.relation == Some(Replaces))
  }

  ghost predicate Enters(steps: seq<Decision>, to: string) {
    exists s :: s in steps && s.Enter? && s.id == to
  }

  ghost predicate Skips(steps: seq<Decision>, to: string) {
    exists s :: s in steps && s.Skip? && s.id == to
  }

  lemma EntersAppend(a: seq<Decision>, b: seq<Decision>, to: string)
    ensures Enters(a + b, to) <==> Enters(a, to) || Enters(b, to)
    ensures Skips(a + b, to) <==> Skips(a, to) || Skips(b, to)
  {
  }

  lemma {:induction false} ConceptStepsExact(registry: Registry, concepts: seq<string>, to: string)
    ensures Enters(ConceptSteps(registry, concepts), to) <==> to in concepts && to in registry.subskills
    ensures !Skips(ConceptSteps(registry, concepts), to)
  {
    if concepts != [] {
      ConceptStepsExact(registry, concepts[1..], to);
      var first := [Enter(concepts[0], Note(Some(Requires), RequiredConcept))];
      assert first[0] in first;
      EntersAppend(if concepts[0] in registry.subskills then first else [], ConceptSteps(registry, concepts[1..]), to);
    }
  }

  lemma AtMostOneStep(steps: seq<Decision>, to: string)
    requires |steps| <= 1
    ensures Enters(steps, to) <==> steps != [] && steps[0].Enter? && steps[0].id == to
    ensures Skips(steps, to) <==> steps != [] && steps[0].Skip? && steps[0].id == to
  {
    assert steps != [] ==> steps[0] in steps;
  }

  lemma LinkStepExact(link: Link, queryTerms: set<string>, to: string)
    ensures Enters(LinkStep(link, queryTerms), to) <==> link.to == to && LoadsTarget(link, queryTerms)
    ensures Skips(LinkStep(link, queryTerms), to) <==>
              link.to == to && (link.relation == Some(Conflicts) || link.relation == Some(Replaces))
  {
    OverlapIffSomeValue(queryTerms, [link.to]);
    AtMostOneStep(LinkStep(link, queryTerms), to);
  }

  lemma {:induction false} LinkStepsExact(links: seq<Link>, id: string, queryTerms: set<string>, to: string)
    ensures Enters(LinkSteps(links, id, queryTerms), to)
       <==> exists link :: link in links && link.from == id && link.to == to && LoadsTarget(link, queryTerms)
    ensures Skips(LinkSteps(links, id, queryTerms), to)
       <==> exists link :: link in links && link.from == id && link.to == to
                           && (link.relation == Some(Conflicts) || link.relation == Some(Replaces))
  {
    if links != [] {
      LinkStepsExact(links[1..], id, queryTerms, to);
      LinkStepExact(links[0], queryTerms, to);
      EntersAppend(if links[0].from == id then LinkStep(links[0], queryTerms) else [],
                   LinkSteps(links[1..], id, queryTerms), to);
      assert forall link :: link in links <==> link == links[0] || link in links[1..];
    }
  }

  /** The walk's steps are the registry's load and exclude edges. */
  lemma PlanLinksExact(registry: Registry, queryTerms: set<string>, from: string, to: string)
    ensures Enters(StepsOf(PlanLinks(registry, queryTerms), from), to) <==> LoadEdge(registry, queryTerms, from, to)
    ensures Skips(StepsOf(PlanLinks(registry, queryTerms), from), to) <==> ExcludeEdge(registry, from, to)
  {
    if from in registry.subskills {
      var concepts := registry.subskills[from].subskill.requiredConcepts;
      ConceptStepsExact(registry, concepts, to);
      LinkStepsExact(registry.links, from, queryTerms, to);
      EntersAppend(ConceptSteps(registry, concepts), LinkSteps(registry.links, from, queryTerms), to);
    }
  }

  // ---------------------------------------------------------------- replacements and fallbacks

  predicate ReplacementEligible(registry: Registry, id: string) {
    && id in registry.subskills
    && match registry.subskills[id].subskill.status
       case None => true
       case Some(status) => status == "active" || status == "evaluated" || status == "pinned"
  }

  function PreferredReplacement(registry: Registry, links: seq<Link>, id: string): Option<string> {
    if links == [] then None
    else if links[0].relation == Some(Replaces) && links[0].to == id && ReplacementEligible(registry, links[0].from)
    then Some(links[0].from)
    else PreferredReplacement(registry, links[1..], id)
  }

  function FallbackTargets(registry: Registry, links: seq<Link>, id: string): seq<string> {
    if links == [] then []
    else (if links[0].from == id && links[0].relation == Some(Fallback) && links[0].to in registry.subskills
          then [links[0].to] else [])
         + FallbackTargets(registry, links[1..], id)
  }

  function PrimaryOf(registry: Registry, id: string): string {
    match PreferredReplacement(registry, registry.links, id)
    case None => id
    case Some(other) => other
  }

  // ---------------------------------------------------------------- the plan

  function FallbackSteps(fallbacks: seq<string>, primary: string): (steps: seq<Decision>)
    ensures |steps| == |fallbacks|
    ensures forall i :: 0 <= i < |steps| ==> steps[i].Enter? && steps[i].id == fallbacks[i]
  {
    seq(|fallbacks|, i requires 0 <= i < |fallbacks| =>
      Enter(fallbacks[i], Note(Some(Fallback), FallbackForBlocked(primary))))
  }

  /** Where the walk starts for one selected id. */
  function Roots(registry: Registry, query: string, id: string): seq<Decision> {
    var primary := PrimaryOf(registry, id);
    var verdict := DecidePolicy(registry, primary, query);
    var fallbacks := FallbackTargets(registry, registry.links, primary);
    if verdict.allowed then
      [Enter(primary, Note(None, if primary == id then PrimaryRouted else ReplacementFor(id)))]
    else if fallbacks == [] then
      [Enter(primary, Note(None, PrimaryRouted))]
    else
      FallbackSteps(fallbacks, primary)
  }

  /** What is noted about one selected id before its walk starts. */
  function Preface(registry: Registry, query: string, id: string): seq<Decision> {
    var primary := PrimaryOf(registry, id);
    var verdict := DecidePolicy(registry, primary, query);
    (if primary != id then [Skip(id, Note(Some(Replaces), ReplacedBy(primary)))] else [])
    + (if !verdict.allowed && FallbackTargets(registry, registry.links, primary) != []
       then [Skip(primary, Note(None, BlockedTryingFallback(verdict.reason)))] else [])
  }

  function PlanOne(registry: Registry, query: string, maxDepth: nat, id: string, w: PlanWalk): PlanWalk {
    VisitAll(PlanLinks(registry, Terms(query)), Roots(registry, query, id), maxDepth,
             w.(trace := w.trace + Preface(registry, query, id)))
  }

  function PlanAll(registry: Registry, query: string, maxDepth: nat, selected: seq<string>, w: PlanWalk): PlanWalk {
    if selected == [] then w
    else PlanAll(registry, query, maxDepth, selected[1..], PlanOne(registry, query, maxDepth, selected[0], w))
  }

  function Plan(registry: Registry, selected: seq<string>, query: string, maxDepth: nat): seq<Decision> {
    PlanAll(registry, query, maxDepth, selected, Walk({}, [])).trace
  }

  // ---------------------------------------------------------------- the planner itself

  lemma ConceptStepsFrom(registry: Registry, concepts: seq<string>, i: nat)
    requires i < |concepts|
    ensures var here, rest := ConceptSteps(registry, concepts[i..]), ConceptSteps(registry, concepts[i + 1..]);
            if concepts[i] in registry.subskills
            then here != [] && here[0] == Enter(concepts[i], Note(Some(Requires), RequiredConcept)) && here[1..] == rest
            else here == rest
  {
    assert concepts[i..][0] == concepts[i] && concepts[i..][1..] == concepts[i + 1..];
  }

  lemma LinkStepsFrom(links: seq<Link>, i: nat, id: string, queryTerms: set<string>)
    requires i < |links|
    ensures var here, rest := LinkSteps(links[i..], id, queryTerms), LinkSteps(links[i + 1..], id, queryTerms);
            var step := LinkStep(links[i], queryTerms);
            if links[i].from == id && step != [] then here != [] && here[0] == step[0] && here[1..] == rest
            else here == rest
  {
    assert links[i..][0] == links[i] && links[i..][1..] == links[i + 1..];
  }

  class Planner {
    const registry: Registry
    const queryTerms: set<string>
    var seen: set<string>
    var ordered: seq<Decision>

    ghost function State(): PlanWalk
      reads this
    {
      Walk(seen, ordered)
    }

    ghost function Edges(): Links<Note> {
      PlanLinks(registry, queryTerms)
    }

    constructor (registry: Registry, queryTerms: set<string>)
      ensures State() == Walk({}, [])
      ensures this.registry == registry && this.queryTerms == queryTerms
    {
      this.registry, this.queryTerms := registry, queryTerms;
      seen, ordered := {}, [];
    }

    method CollectDependencyPlan(id: string, note: Note, depth: nat, maxDepth: nat)
      requires depth <= maxDepth
      modifies this
      ensures State() == Visit(Edges(), Enter(id, note), maxDepth - depth, old(State()))
      decreases maxDepth - depth, 2
    {
      if id in seen {
        return;
      }
      seen, ordered := seen + {id}, ordered + [Enter(id, note)];
      if depth >= maxDepth {
        return;
      }
      if id !in registry.subskills {
        return;
      }
      FollowConcepts(registry.subskills[id].subskill.requiredConcepts, depth, maxDepth);
      FollowLinks(id, depth, maxDepth);
      VisitAllAppend(Edges(), ConceptSteps(registry, registry.subskills[id].subskill.requiredConcepts),
                     LinkSteps(registry.links, id, queryTerms), maxDepth - depth - 1,
                     Walk(old(seen) + {id}, old(ordered) + [Enter(id, note)]));
    }

    /** The first loop of the walk: the required concepts that are known. */
    method FollowConcepts(concepts: seq<string>, depth: nat, maxDepth: nat)
      requires depth < maxDepth
      modifies this
      ensures State() == VisitAll(Edges(), ConceptSteps(registry, concepts), maxDepth - depth - 1, old(State()))
      decreases maxDepth - depth, 0
    {
      ghost var left := maxDepth - depth - 1;
      var i := 0;
      while i < |concepts|
        invariant 0 <= i <= |concepts|
        invariant VisitAll(Edges(), ConceptSteps(registry, concepts[i..]), left, State())
               == VisitAll(Edges(), ConceptSteps(registry, concepts), left, old(State()))
      {
        ConceptStepsFrom(registry, concepts, i);
        if concepts[i] in registry.subskills {
          CollectDependencyPlan(concepts[i], Note(Some(Requires), RequiredConcept), depth + 1, maxDepth);
        }
        i := i + 1;
      }
    }

    /** The second loop of the walk: the links out of `id`, each by its relation. */
    method FollowLinks(id: string, depth: nat, maxDepth: nat)
      requires depth < maxDepth
      modifies this
      ensures State() == VisitAll(Edges(), LinkSteps(registry.links, id, queryTerms), maxDepth - depth - 1,
                                  old(State()))
      decreases maxDepth - depth, 1
    {
      ghost var left := maxDepth - depth - 1;
      ghost var result := VisitAll(Edges(), LinkSteps(registry.links, id, queryTerms), left, State());
      var i := 0;
      while i < |registry.links|
        invariant 0 <= i <= |registry.links|
        invariant VisitAll(Edges(), LinkSteps(registry.links[i..], id, queryTerms), left, State()) == result
      {
        var link := registry.links[i];
        LinkStepsFrom(registry.links, i, id, queryTerms);
        if link.from == id {
          FollowLink(link, depth, maxDepth);
        }
        i := i + 1;
      }
    }

    method FollowLink(link: Link, depth: nat, maxDepth: nat)
      requires depth < maxDepth
      modifies this
      ensures var steps := LinkStep(link, queryTerms);
              State() == if steps == [] then old(State())
                         else Visit(Edges(), steps[0], maxDepth - depth - 1, old(State()))
      decreases maxDepth - depth, 0
    {
      var relation := LinkRelation(link);
      match relation {
        case Requires | Extending | Specializes | Generalizes =>
          CollectDependencyPlan(link.to, Note(Some(relation), DependencyVia(link.id)), depth + 1, maxDepth);
        case Related =>
          if depth < maxDepth && link.to !in seen {
            CollectDependencyPlan(link.to, Note(Some(relation), RelatedVia(link.id)), depth + 1, maxDepth);
          }
        case Conflicts =>
          if link.to !in seen {
            ordered := ordered + [Skip(link.to, Note(Some(relation), ConflictsVia(link.id)))];
          }
        case Replaces =>
          if link.to !in seen {
            ordered := ordered + [Skip(link.to, Note(Some(relation), ReplacedVia(link.from, link.id)))];
          }
        case Fallback =>
          if TermOverlap(queryTerms, [link.to]) > 0 {
            CollectDependencyPlan(link.to, Note(Some(relation), FallbackVia(link.id)), depth + 1, maxDepth);
          }
        case OtherRelation(_) =>
      }
    }
  }

  method ResolveDependencyPlan(registry: Registry, selected: seq<string>, query: string, maxDepth: nat)
    returns (ordered: seq<Decision>)
    ensures ordered == Plan(registry, selected, query, maxDepth)
  {
    var planner := new Planner(registry, Terms(query));
    ghost var result := PlanAll(registry, query, maxDepth, selected, planner.State());
    var i := 0;
    while i < |selected|
      invariant 0 <= i <= |selected|
      invariant planner.registry == registry && planner.queryTerms == Terms(query)
      invariant PlanAll(registry, query, maxDepth, selected[i..], planner.State()) == result
    {
      assert selected[i..][0] == selected[i] && selected[i..][1..] == selected[i + 1..];
      PlanSelected(planner, selected[i], query, maxDepth);
      i := i + 1;
    }
    ordered := planner.ordered;
  }

  method PlanFallbacks(planner: Planner, fallbacks: seq<string>, primary: string, maxDepth: nat)
    modifies planner
    ensures planner.State()
            == VisitAll(planner.Edges(), FallbackSteps(fallbacks, primary), maxDepth, old(planner.State()))
  {
    ghost var steps := FallbackSteps(fallbacks, primary);
    var i := 0;
    while i < |fallbacks|
      invariant 0 <= i <= |fallbacks|
      invariant VisitAll(planner.Edges(), steps[i..], maxDepth, planner.State())
             == VisitAll(planner.Edges(), steps, maxDepth, old(planner.State()))
    {
      assert steps[i..][0] == steps[i] && steps[i..][1..] == steps[i + 1..];
      planner.CollectDependencyPlan(fallbacks[i], Note(Some(Fallback), FallbackForBlocked(primary)), 0, maxDepth);
      i := i + 1;
    }
  }

  /** What planning one selected id comes to, once its primary, verdict and fallbacks are known. */
  ghost function PlanPrepared(links: Links<Note>, id: string, primary: string, verdict: PolicyDecision,
                              fallbacks: seq<string>, maxDepth: nat, w: PlanWalk): PlanWalk
  {
    var replaced := if primary != id then w.trace + [Skip(id, Note(Some(Replaces), ReplacedBy(primary)))] else w.trace;
    if !verdict.allowed && fallbacks != [] then
      VisitAll(links, FallbackSteps(fallbacks, primary), maxDepth,
               Walk(w.seen, replaced + [Skip(primary, Note(None, BlockedTryingFallback(verdict.reason)))]))
    else
      var note := Note(None, if verdict.allowed && primary != id then ReplacementFor(id) else PrimaryRouted);
      Visit(links, Enter(primary, note), maxDepth, Walk(w.seen, replaced))
  }

  lemma PlanOnePrepared(registry: Registry, query: string, maxDepth: nat, id: string, w: PlanWalk)
    ensures PlanOne(registry, query, maxDepth, id, w)
         == PlanPrepared(PlanLinks(registry, Terms(query)), id, PrimaryOf(registry, id),
                         DecidePolicy(registry, PrimaryOf(registry, id), query),
                         FallbackTargets(registry, registry.links, PrimaryOf(registry, id)), maxDepth, w)
  {
    var links, primary := PlanLinks(registry, Terms(query)), PrimaryOf(registry, id);
    var verdict := DecidePolicy(registry, primary, query);
    var replaced := if primary != id then w.trace + [Skip(id, Note(Some(Replaces), ReplacedBy(primary)))] else w.trace;
    if !verdict.allowed && FallbackTargets(registry, registry.links, primary) != [] {
      assert w.trace + Preface(registry, query, id)
          == replaced + [Skip(primary, Note(None, BlockedTryingFallback(verdict.reason)))];
    } else {
      assert w.trace + Preface(registry, query, id) == replaced;
      var note := Note(None, if verdict.allowed && primary != id then ReplacementFor(id) else PrimaryRouted);
      VisitAllOne(links, Enter(primary, note), maxDepth, Walk(w.seen, replaced));
    }
  }

  /** The body of the planner's loop over the selection. */
  method PlanSelected(planner: Planner, id: string, query: string, maxDepth: nat)
    requires planner.queryTerms == Terms(query)
    modifies planner
    ensures planner.State() == PlanOne(planner.registry, query, maxDepth, id, old(planner.State()))
  {
    var primary := PrimaryOf(planner.registry, id);
    var verdict := DecidePolicy(planner.registry, primary, query);
    var fallbacks := FallbackTargets(planner.registry, planner.registry.links, primary);
    PlanOnePrepared(planner.registry, query, maxDepth, id, planner.State());
    PlanPrimary(planner, id, primary, verdict, fallbacks, maxDepth);
  }

  method PlanPrimary(planner: Planner, id: string, primary: string, verdict: PolicyDecision, fallbacks: seq<string>,
                     maxDepth: nat)
    modifies planner
    ensures planner.State()
            == PlanPrepared(planner.Edges(), id, primary, verdict, fallbacks, maxDepth, old(planner.State()))
  {
    if primary != id {
      planner.ordered := planner.ordered + [Skip(id, Note(Some(Replaces), ReplacedBy(primary)))];
    }
    if !verdict.allowed && fallbacks != [] {
      planner.ordered := planner.ordered + [Skip(primary, Note(None, BlockedTryingFallback(verdict.reason)))];
      PlanFallbacks(planner, fallbacks, primary, maxDepth);
    } else {
      var note := Note(None, if verdict.allowed && primary != id then ReplacementFor(id) else PrimaryRouted);
      planner.CollectDependencyPlan(primary, note, 0, maxDepth);
    }
  }

  // ---------------------------------------------------------------- what the plan decides

  /** The roots of every selected id, in order. */
  function AllRoots(registry: Registry, query: string, selected: seq<string>): seq<Decision> {
    if selected == [] then [] else Roots(registry, query, selected[0]) + AllRoots(registry, query, selected[1..])
  }

  /** A walk starts at `root`: a selected id or its replacement, or a fallback of one that policy blocks. */
  predicate IsRoot(registry: Registry, query: string, selected: seq<string>, root: string) {
    exists id :: id in selected &&
      var primary := PrimaryOf(registry, id);
      var fallbacks := FallbackTargets(registry, registry.links, primary);
      if DecidePolicy(registry, primary, query).allowed || fallbacks == [] then root == primary else root in fallbacks
  }

  lemma {:induction false} AllRootsExact(registry: Registry, query: string, selected: seq<string>, root: string)
    ensures Enters(AllRoots(registry, query, selected), root) <==> IsRoot(registry, query, selected, root)
    ensures forall s :: s in AllRoots(registry, query, selected) ==> s.Enter?
  {
    if selected != [] {
      AllRootsExact(registry, query, selected[1..], root);
      var roots := Roots(registry, query, selected[0]);
      EntersAppend(roots, AllRoots(registry, query, selected[1..]), root);
      assert forall id :: id in selected <==> id == selected[0] || id in selected[1..];
      assert forall i :: 0 <= i < |roots| ==> roots[i] in roots;
    }
  }

  /** What a walk sees does not depend on what has been noted. */
  lemma {:induction false} SeenIgnoresTrace<D>(links: Links<D>, steps: seq<Step<D>>, left: nat, w: Walk<D>, v: Walk<D>)
    requires w.seen == v.seen
    ensures VisitAll(links, steps, left, w).seen == VisitAll(links, steps, left, v).seen
    decreases left, |steps|
  {
    if steps != [] {
      var step := steps[0];
      if step.id !in w.seen && step.Enter? && left > 0 {
        SeenIgnoresTrace(links, StepsOf(links, step.id), left - 1,
                         Walk(w.seen + {step.id}, w.trace + [step]), Walk(v.seen + {step.id}, v.trace + [step]));
      }
      SeenIgnoresTrace(links, steps[1..], left, Visit(links, step, left, w), Visit(links, step, left, v));
    }
  }

  lemma {:induction false} PlanAllSees(registry: Registry, query: string, maxDepth: nat, selected: seq<string>,
                                       w: PlanWalk, v: PlanWalk)
    requires w.seen == v.seen
    ensures PlanAll(registry, query, maxDepth, selected, w).seen
         == VisitAll(PlanLinks(registry, Terms(query)), AllRoots(registry, query, selected), maxDepth, v).seen
    decreases |selected|
  {
    if selected != [] {
      var links, roots := PlanLinks(registry, Terms(query)), Roots(registry, query, selected[0]);
      VisitAllAppend(links, roots, AllRoots(registry, query, selected[1..]), maxDepth, v);
      SeenIgnoresTrace(links, roots, maxDepth, w.(trace := w.trace + Preface(registry, query, selected[0])), v);
      PlanAllSees(registry, query, maxDepth, selected[1..], PlanOne(registry, query, maxDepth, selected[0], w),
                  VisitAll(links, roots, maxDepth, v));
    }
  }

  lemma {:induction false} NoEntriesInSkips(a: seq<Decision>, b: seq<Decision>)
    requires forall s :: s in b ==> s.Skip?
    ensures Entered(a + b) == Entered(a)
    decreases |b|
  {
    if b == [] {
      assert a + b == a;
    } else {
      EnteredAppend(a, [b[0]]);
      assert b[0].Skip? && Entered([b[0]]) == [];
      assert a + b == (a + [b[0]]) + b[1..];
      NoEntriesInSkips(a + [b[0]], b[1..]);
    }
  }

  lemma {:induction false} PlanAllConsistent(registry: Registry, query: string, maxDepth: nat, selected: seq<string>,
                                             w: PlanWalk)
    requires Consistent(w)
    ensures Consistent(PlanAll(registry, query, maxDepth, selected, w))
    decreases |selected|
  {
    if selected != [] {
      NoEntriesInSkips(w.trace, Preface(registry, query, selected[0]));
      VisitAllConsistent(PlanLinks(registry, Terms(query)), Roots(registry, query, selected[0]), maxDepth,
                         w.(trace := w.trace + Preface(registry, query, selected[0])));
      PlanAllConsistent(registry, query, maxDepth, selected[1..], PlanOne(registry, query, maxDepth, selected[0], w));
    }
  }

  /** No id is planned for loading twice, across all selected ids. */
  lemma PlanLoadsOnce(registry: Registry, selected: seq<string>, query: string, maxDepth: nat)
    ensures Distinct(Entered(Plan(registry, selected, query, maxDepth)))
  {
    PlanAllConsistent(registry, query, maxDepth, selected, Walk({}, []));
  }

  /** `to` can be reached from `from` over at most `n` load edges. */
  ghost predicate LoadWithin(registry: Registry, queryTerms: set<string>, from: string, to: string, n: nat)
    decreases n
  {
    || from == to
    || (n > 0
        && exists via :: LoadEdge(registry, queryTerms, from, via) && LoadWithin(registry, queryTerms, via, to, n - 1))
  }

  lemma {:induction false} ReachIsLoading(registry: Registry, queryTerms: set<string>, from: string, to: string, n: nat)
    ensures ReachIn(PlanLinks(registry, queryTerms), from, to, n) <==> LoadWithin(registry, queryTerms, from, to, n)
    decreases n
  {
    var links := PlanLinks(registry, queryTerms);
    if from != to && n > 0 {
      if s :| s in StepsOf(links, from) && s.Enter? && ReachIn(links, s.id, to, n - 1) {
        PlanLinksExact(registry, queryTerms, from, s.id);
        ReachIsLoading(registry, queryTerms, s.id, to, n - 1);
      }
      if via :| LoadEdge(registry, queryTerms, from, via) && LoadWithin(registry, queryTerms, via, to, n - 1) {
        PlanLinksExact(registry, queryTerms, from, via);
        ReachIsLoading(registry, queryTerms, via, to, n - 1);
        var s :| s in StepsOf(links, from) && s.Enter? && s.id == via;
        assert ReachIn(links, s.id, to, n - 1);
      }
    }
  }

  /** What is planned for loading is what the walk from all the roots sees. */
  lemma PlanLoadsSeen(registry: Registry, selected: seq<string>, query: string, maxDepth: nat, id: string)
    ensures id in Entered(Plan(registry, selected, query, maxDepth))
       <==> id in VisitAll(PlanLinks(registry, Terms(query)), AllRoots(registry, query, selected), maxDepth,
                           Walk({}, [])).seen
  {
    PlanAllConsistent(registry, query, maxDepth, selected, Walk({}, []));
    PlanAllSees(registry, query, maxDepth, selected, Walk({}, []), Walk({}, []));
  }

  /** Only ids within `maxDepth` load edges of a root are planned for loading. */
  lemma PlanLoadsSound(registry: Registry, selected: seq<string>, query: string, maxDepth: nat, id: string)
    requires id in Entered(Plan(registry, selected, query, maxDepth))
    ensures exists root :: IsRoot(registry, query, selected, root)
                        && LoadWithin(registry, Terms(query), root, id, maxDepth)
  {
    var links, roots := PlanLinks(registry, Terms(query)), AllRoots(registry, query, selected);
    PlanLoadsSeen(registry, selected, query, maxDepth, id);
    var s := VisitAllReachable(links, roots, maxDepth, Walk({}, []), id);
    AllRootsExact(registry, query, selected, s.id);
    ReachIsLoading(registry, Terms(query), s.id, id, maxDepth);
  }

  lemma RootsReach(registry: Registry, selected: seq<string>, query: string, id: string)
    ensures ReachableFrom(PlanLinks(registry, Terms(query)), AllRoots(registry, query, selected), id)
       <==> exists root, n: nat :: IsRoot(registry, query, selected, root)
                                && LoadWithin(registry, Terms(query), root, id, n)
  {
    var links, roots := PlanLinks(registry, Terms(query)), AllRoots(registry, query, selected);
    if root, n: nat :| IsRoot(registry, query, selected, root) && LoadWithin(registry, Terms(query), root, id, n) {
      AllRootsExact(registry, query, selected, root);
      ReachIsLoading(registry, Terms(query), root, id, n);
      var s :| s in roots && s.Enter? && s.id == root;
      assert ReachIn(links, s.id, id, n);
    }
    if ReachableFrom(links, roots, id) {
      var s, n: nat :| s in roots && s.Enter? && ReachIn(links, s.id, id, n);
      AllRootsExact(registry, query, selected, s.id);
      ReachIsLoading(registry, Terms(query), s.id, id, n);
    }
  }

  /** With a depth of at least the number of sub-skills, exactly the ids a root reaches are planned for loading. */
  lemma PlanLoadsExact(registry: Registry, selected: seq<string>, query: string, maxDepth: nat, id: string)
    requires maxDepth >= |registry.subskills|
    ensures id in Entered(Plan(registry, selected, query, maxDepth))
       <==> exists root, n: nat :: IsRoot(registry, query, selected, root)
                                && LoadWithin(registry, Terms(query), root, id, n)
  {
    var links := PlanLinks(registry, Terms(query));
    assert links.Keys == registry.subskills.Keys;
    assert |links| == |links.Keys| == |registry.subskills|;
    PlanLoadsSeen(registry, selected, query, maxDepth, id);
    ExactReach(links, AllRoots(registry, query, selected), maxDepth, id);
    RootsReach(registry, selected, query, id);
  }

  /** The decision is one the planner makes about a selected id itself, before walking from it. */
  ghost predicate FromPreface(registry: Registry, query: string, selected: seq<string>, decision: Decision) {
    exists id :: id in selected && decision in Preface(registry, query, id)
  }

  /** Why the decision at position `i` of a plan is there. */
  ghost predicate Explained(registry: Registry, query: string, selected: seq<string>, plan: seq<Decision>, i: nat)
    requires i < |plan|
  {
    || FromPreface(registry, query, selected, plan[i])
    || Justified(PlanLinks(registry, Terms(query)), AllRoots(registry, query, selected), plan, i)
  }

  lemma PlanOneExplained(registry: Registry, query: string, maxDepth: nat, all: seq<string>, id: string, w: PlanWalk,
                         i: nat)
    requires Consistent(w) && id in all
    requires i < |w.trace| ==> Explained(registry, query, all, w.trace, i)
    requires forall s :: s in Roots(registry, query, id) ==> s in AllRoots(registry, query, all)
    ensures var w' := PlanOne(registry, query, maxDepth, id, w);
            Consistent(w') && (i < |w'.trace| ==> Explained(registry, query, all, w'.trace, i))
  {
    var links, roots, allRoots :=
      PlanLinks(registry, Terms(query)), Roots(registry, query, id), AllRoots(registry, query, all);
    var preface := Preface(registry, query, id);
    var noted := w.(trace := w.trace + preface);
    var plan := PlanOne(registry, query, maxDepth, id, w).trace;
    NoEntriesInSkips(w.trace, preface);
    VisitAllConsistent(links, roots, maxDepth, noted);
    VisitAllExtends(links, roots, maxDepth, noted);
    VisitAllJustified(links, roots, maxDepth, noted);
    if i < |w.trace| {
      assert plan[i] == noted.trace[i] == w.trace[i];
      if !FromPreface(registry, query, all, w.trace[i]) {
        JustifiedInLonger(links, allRoots, allRoots, w.trace, plan, i);
      }
    } else if i < |noted.trace| {
      assert plan[i] == noted.trace[i] == preface[i - |w.trace|];
      assert FromPreface(registry, query, all, plan[i]);
    } else if i < |plan| {
      JustifiedInLonger(links, roots, allRoots, plan, plan, i);
    }
  }

  lemma {:induction false} PlanAllExplained(registry: Registry, query: string, maxDepth: nat, all: seq<string>,
                                            selected: seq<string>, w: PlanWalk, i: nat)
    requires Consistent(w)
    requires forall id :: id in selected ==> id in all
    requires i < |w.trace| ==> Explained(registry, query, all, w.trace, i)
    requires i < |PlanAll(registry, query, maxDepth, selected, w).trace|
    ensures Explained(registry, query, all, PlanAll(registry, query, maxDepth, selected, w).trace, i)
    decreases |selected|
  {
    if selected != [] {
      RootsAreAmongAll(registry, query, all, selected[0]);
      PlanOneExplained(registry, query, maxDepth, all, selected[0], w, i);
      PlanAllExplained(registry, query, maxDepth, all, selected[1..],
                       PlanOne(registry, query, maxDepth, selected[0], w), i);
    }
  }

  lemma {:induction false} RootsAreAmongAll(registry: Registry, query: string, all: seq<string>, id: string)
    requires id in all
    ensures forall s :: s in Roots(registry, query, id) ==> s in AllRoots(registry, query, all)
    decreases |all|
  {
    if all[0] != id {
      RootsAreAmongAll(registry, query, all[1..], id);
    }
  }

  ghost predicate Caused(registry: Registry, query: string, selected: seq<string>, plan: seq<Decision>, i: nat)
    requires i < |plan|
  {
    if plan[i].Enter? then
      && plan[i].id !in Entered(plan[..i])
      && (|| IsRoot(registry, query, selected, plan[i].id)
          || exists j :: 0 <= j < i && plan[j].Enter? && LoadEdge(registry, Terms(query), plan[j].id, plan[i].id))
    else
      || FromPreface(registry, query, selected, plan[i])
      || (&& plan[i].id !in Entered(plan[..i])
          && exists j :: 0 <= j < i && plan[j].Enter? && ExcludeEdge(registry, plan[j].id, plan[i].id))
  }

  lemma ExplainedCause(registry: Registry, query: string, selected: seq<string>, plan: seq<Decision>, i: nat)
    requires i < |plan| && Explained(registry, query, selected, plan, i)
    ensures Caused(registry, query, selected, plan, i)
  {
    AllRootsExact(registry, query, selected, plan[i].id);
    if FromPreface(registry, query, selected, plan[i]) {
    } else if plan[i] !in AllRoots(registry, query, selected) {
      var j :| 0 <= j < i && plan[j].Enter? && plan[i] in StepsOf(PlanLinks(registry, Terms(query)), plan[j].id);
      PlanLinksExact(registry, Terms(query), plan[j].id, plan[i].id);
    }
  }

  /**
   Every decision of a plan has a cause.  An id is loaded as a root or over a load edge from an id
   loaded earlier; an id is excluded as a replaced or blocked selection, or over an exclude edge from
   an id loaded earlier and then only if it has not been loaded itself.
   */
  lemma PlanDecisionsExplained(registry: Registry, selected: seq<string>, query: string, maxDepth: nat, i: nat)
    requires i < |Plan(registry, selected, query, maxDepth)|
    ensures Caused(registry, query, selected, Plan(registry, selected, query, maxDepth), i)
  {
    PlanAllExplained(registry, query, maxDepth, selected, selected, Walk({}, []), i);
    ExplainedCause(registry, query, selected, Plan(registry, selected, query, maxDepth), i);
  }
}
