/** Loading the planned sub-skills into a token budget. */
module ContextLoader {
  import opened Prelude
  import opened TextSpace
  import opened SkillRegistry
  import opened LinkWalk
  import opened DependencyPlan

  /** How a sub-skill is rendered as prompt text in a mode. */
  type Renderer = (Subskill, LoadMode) -> string

  datatype LoadRequest = LoadRequest(
    registry: Registry,
    selected: seq<string>,
    query: string,
    availableTokens: nat,
    render: Renderer)

  datatype LoadedSubskill = LoadedSubskill(id: string, mode: LoadMode, reason: PlanReason, tokenEstimate: nat,
                                           text: string)

  datatype Shelf =
    | Missing
    | Blocked(verdict: PolicyReason)
    | ApprovalRequired(verdict: PolicyReason)
    | MaxTotalSkipped(maxTotal: nat)
    | BudgetSkipped(usedTokens: nat, tokenEstimate: nat)

  datatype ShelvedDecision = ShelvedDecision(id: string, relation: Option<Relation>, shelf: Shelf)

  datatype LoadState = LoadState(
    usedTokens: nat,
    loaded: seq<LoadedSubskill>,
    blocked: seq<ShelvedDecision>,
    excluded: seq<Decision>,
    notLoaded: seq<ShelvedDecision>,
    policyDecisions: seq<PolicyDecision>)

  const NOTHING_LOADED := LoadState(0, [], [], [], [], [])

  datatype LoadedSkillContext = LoadedSkillContext(
    selected: seq<LoadedSubskill>,
    availableTokens: nat,
    usedTokens: nat,
    remainingTokens: nat,
    blocked: seq<ShelvedDecision>,
    excluded: seq<Decision>,
    notLoadedRelevant: seq<ShelvedDecision>,
    policyDecisions: seq<PolicyDecision>)

  // ---------------------------------------------------------------- caps

  function LibraryCap(registry: Registry, id: string): Option<nat> {
    if id in registry.subskills && registry.subskills[id].libraryId in registry.libraries
    then registry.libraries[registry.subskills[id].libraryId].maxTotalSubskills
    else None
  }

  function MaxTotalSubskills(registry: Registry, selected: seq<string>): Option<nat> {
    if selected == [] then None
    else
      match (LibraryCap(registry, selected[0]), MaxTotalSubskills(registry, selected[1..]))
      case (None, rest) => rest
      case (Some(cap), None) => Some(cap)
      case (Some(cap), Some(rest)) => Some(if rest < cap then rest else cap)
  }

  /** The cap in force is the smallest one that a selected sub-skill's library sets. */
  lemma {:induction false} MaxTotalIsSmallestCap(registry: Registry, selected: seq<string>)
    ensures match MaxTotalSubskills(registry, selected)
            case None => forall id :: id in selected ==> LibraryCap(registry, id) == None
            case Some(cap) =>
              && (exists id :: id in selected && LibraryCap(registry, id) == Some(cap))
              && forall id :: id in selected && LibraryCap(registry, id).Some? ==> cap <= LibraryCap(registry, id).value
  {
    if selected != [] {
      MaxTotalIsSmallestCap(registry, selected[1..]);
      assert selected[0] in selected;
      assert forall id :: id in selected <==> id == selected[0] || id in selected[1..];
    }
  }

  // ---------------------------------------------------------------- modes and estimates

  function BudgetKeys(mode: LoadMode): seq<string> {
    match mode
    case ExtendedBody => ["extended_tokens", "extended", "body_tokens", "body"]
    case Body => ["body_tokens", "body"]
    case Card => ["card_tokens", "card"]
  }

  function FirstBudget(budget: map<string, nat>, keys: seq<string>): Option<nat> {
    if keys == [] then None
    else if keys[0] in budget then Some(budget[keys[0]])
    else FirstBudget(budget, keys[1..])
  }

  function Estimate(render: Renderer, subskill: Subskill, mode: LoadMode): nat {
    match FirstBudget(subskill.contextBudget, BudgetKeys(mode))
    case Some(cost) => cost
    case None => Max(CountWords(render(subskill, mode), false), 1)
  }

  function Ladder(preferred: LoadMode): (modes: seq<LoadMode>)
    ensures modes != [] && modes[0] == preferred
  {
    match preferred
    case ExtendedBody => [ExtendedBody, Body, Card]
    case Body => [Body, Card]
    case Card => [Card]
  }

  function FirstFitting(render: Renderer, subskill: Subskill, modes: seq<LoadMode>, remaining: nat): Option<LoadMode> {
    if modes == [] then None
    else if Estimate(render, subskill, modes[0]) <= remaining then Some(modes[0])
    else FirstFitting(render, subskill, modes[1..], remaining)
  }

  function BudgetedMode(render: Renderer, subskill: Subskill, preferred: LoadMode, remaining: nat,
                        oversizedFirst: bool): LoadMode
  {
    if oversizedFirst then preferred
    else
      match FirstFitting(render, subskill, Ladder(preferred), remaining)
      case Some(mode) => mode
      case None => preferred
  }

  method BudgetedMaterialization(render: Renderer, subskill: Subskill, preferred: LoadMode, remaining: nat,
                                 oversizedFirst: bool)
    returns (mode: LoadMode, text: string, estimate: nat)
    ensures mode == BudgetedMode(render, subskill, preferred, remaining, oversizedFirst)
    ensures text == render(subskill, mode) && estimate == Estimate(render, subskill, mode)
  {
    var modes := Ladder(preferred);
    var i := 0;
    while i < |modes|
      invariant 0 <= i <= |modes|
      invariant oversizedFirst ==> i == 0
      invariant FirstFitting(render, subskill, modes[i..], remaining)
                == FirstFitting(render, subskill, modes, remaining)
    {
      assert modes[i..][1..] == modes[i + 1..];
      estimate := Estimate(render, subskill, modes[i]);
      if estimate <= remaining || oversizedFirst {
        return modes[i], render(subskill, modes[i]), estimate;
      }
      i := i + 1;
    }
    return modes[0], render(subskill, modes[0]), Estimate(render, subskill, modes[0]);
  }

  /** The mode at `i` fits, and none before it does. */
  ghost predicate FitsFirst(render: Renderer, subskill: Subskill, modes: seq<LoadMode>, remaining: int, i: nat) {
    && i < |modes| && Estimate(render, subskill, modes[i]) <= remaining
    && forall j :: 0 <= j < i ==> Estimate(render, subskill, modes[j]) > remaining
  }

  /** `mode` is the richest on the ladder that fits, and it does fit. */
  ghost predicate RichestThatFits(render: Renderer, subskill: Subskill, preferred: LoadMode, remaining: int,
                                  mode: LoadMode)
  {
    exists i: nat :: FitsFirst(render, subskill, Ladder(preferred), remaining, i) && Ladder(preferred)[i] == mode
  }

  ghost predicate NothingFits(render: Renderer, subskill: Subskill, preferred: LoadMode, remaining: int) {
    forall j :: 0 <= j < |Ladder(preferred)| ==> Estimate(render, subskill, Ladder(preferred)[j]) > remaining
  }

  lemma BudgetedModeIsRichest(render: Renderer, subskill: Subskill, preferred: LoadMode, remaining: nat)
    ensures var mode := BudgetedMode(render, subskill, preferred, remaining, false);
            if Estimate(render, subskill, mode) <= remaining
            then RichestThatFits(render, subskill, preferred, remaining, mode)
            else NothingFits(render, subskill, preferred, remaining)
  {
    var ladder := Ladder(preferred);
    var i := FirstFittingAt(render, subskill, ladder, remaining);
  }

  lemma {:induction false} FirstFittingAt(render: Renderer, subskill: Subskill, modes: seq<LoadMode>, remaining: nat)
    returns (i: nat)
    ensures match FirstFitting(render, subskill, modes, remaining)
            case None => forall j :: 0 <= j < |modes| ==> Estimate(render, subskill, modes[j]) > remaining
            case Some(mode) => FitsFirst(render, subskill, modes, remaining, i) && modes[i] == mode
  {
    i := 0;
    if modes != [] && Estimate(render, subskill, modes[0]) > remaining {
      var rest := modes[1..];
      var k := FirstFittingAt(render, subskill, rest, remaining);
      i := k + 1;
      assert forall j :: 0 < j < |modes| ==> modes[j] == rest[j - 1];
    }
  }

  function LinkHint(links: seq<Link>, selected: seq<string>, dependency: string): Option<LoadHint> {
    if links == [] then None
    else if links[0].from in selected && links[0].to == dependency then links[0].loadHint
    else LinkHint(links[1..], selected, dependency)
  }

  /** Selected ids prefer their body; others what the first link from the selection hints, or the card. */
  function PreferredMode(request: LoadRequest, id: string): LoadMode {
    if id in request.selected then Body
    else
      match LinkHint(request.registry.links, request.selected, id)
      case Some(HintMode(mode)) => mode
      case _ => Card
  }

  // ---------------------------------------------------------------- one decision, all decisions

  function LoadOne(request: LoadRequest, st: LoadState, decision: Decision): LoadState {
    if decision.Skip? then st.(excluded := st.excluded + [decision])
    else if decision.id !in request.registry.subskills then Shelve(st, decision, Missing)
    else
      PlaceJudged(request.availableTokens,
                  DecidePolicy(request.registry, decision.id, request.query),
                  MaxTotalSubskills(request.registry, request.selected),
                  MaterialFor(request, st, decision.id), st, decision)
  }

  function Shelve(st: LoadState, decision: Decision, shelf: Shelf): LoadState {
    var shelved := ShelvedDecision(decision.id, decision.note.relation, shelf);
    if shelf.Blocked? || shelf.ApprovalRequired? then st.(blocked := st.blocked + [shelved])
    else st.(notLoaded := st.notLoaded + [shelved])
  }

  datatype Material = Material(mode: LoadMode, text: string, estimate: nat)

  /** What the sub-skill would be loaded as, given what has been used so far. */
  function MaterialFor(request: LoadRequest, st: LoadState, id: string): Material
    requires id in request.registry.subskills
  {
    var subskill := request.registry.subskills[id].subskill;
    var mode := BudgetedMode(request.render, subskill, PreferredMode(request, id),
                             Max(request.availableTokens - st.usedTokens, 0), st.loaded == []);
    Material(mode, request.render(subskill, mode), Estimate(request.render, subskill, mode))
  }

  /** Why a known sub-skill is not loaded, if it is not. */
  function ShelfFor(availableTokens: nat, verdict: PolicyDecision, cap: Option<nat>, material: Material,
                    st: LoadState): Option<Shelf>
  {
    if !verdict.allowed then Some(Blocked(verdict.reason))
    else if verdict.approvalRequired then Some(ApprovalRequired(verdict.reason))
    else if cap.Some? && |st.loaded| >= cap.value then Some(MaxTotalSkipped(cap.value))
    else if st.usedTokens + material.estimate > availableTokens && st.loaded != [] then
      Some(BudgetSkipped(st.usedTokens, material.estimate))
    else None
  }

  /** A load decision about a known sub-skill, given its verdict, the cap in force and its material. */
  function PlaceJudged(availableTokens: nat, verdict: PolicyDecision, cap: Option<nat>, material: Material,
                       st: LoadState, decision: Decision): LoadState
  {
    var judged := st.(policyDecisions := st.policyDecisions + [verdict]);
    match ShelfFor(availableTokens, verdict, cap, material, st)
    case Some(shelf) => Shelve(judged, decision, shelf)
    case None =>
      judged.(usedTokens := st.usedTokens + material.estimate, loaded := st.loaded + [LoadedItem(decision, material)])
  }

  function LoadedItem(decision: Decision, material: Material): LoadedSubskill {
    LoadedSubskill(decision.id, material.mode, decision.note.reason, material.estimate, material.text)
  }

  function LoadAll(request: LoadRequest, plan: seq<Decision>): LoadState {
    if plan == [] then NOTHING_LOADED
    else LoadOne(request, LoadAll(request, plan[..|plan| - 1]), plan[|plan| - 1])
  }

  function Load(request: LoadRequest, maxDepth: nat): LoadState {
    LoadAll(request, Plan(request.registry, request.selected, request.query, maxDepth))
  }

  method LoadContextForQuery(request: LoadRequest, maxDepth: nat) returns (context: LoadedSkillContext)
    ensures var st := Load(request, maxDepth);
            context == LoadedSkillContext(st.loaded, request.availableTokens, st.usedTokens,
                                          Max(request.availableTokens - st.usedTokens, 0),
                                          st.blocked, st.excluded, st.notLoaded, st.policyDecisions)
  {
    var plan := ResolveDependencyPlan(request.registry, request.selected, request.query, maxDepth);
    var st := LoadPlan(request, plan);
    context := LoadedSkillContext(st.loaded, request.availableTokens, st.usedTokens,
                                  Max(request.availableTokens - st.usedTokens, 0),
                                  st.blocked, st.excluded, st.notLoaded, st.policyDecisions);
  }

  method LoadPlan(request: LoadRequest, plan: seq<Decision>) returns (st: LoadState)
    ensures st == LoadAll(request, plan)
  {
    st := NOTHING_LOADED;
    var maxTotal := MaxTotalSubskills(request.registry, request.selected);
    var i := 0;
    while i < |plan|
      invariant 0 <= i <= |plan|
      invariant st == LoadAll(request, plan[..i])
    {
      assert plan[..i + 1][..i] == plan[..i] && plan[..i + 1][i] == plan[i];
      st := LoadDecision(request, maxTotal, st, plan[i]);
      i := i + 1;
    }
    assert plan[..i] == plan;
  }

  /** The body of the loader's loop. */
  method LoadDecision(request: LoadRequest, maxTotal: Option<nat>, before: LoadState, decision: Decision)
    returns (st: LoadState)
    requires maxTotal == MaxTotalSubskills(request.registry, request.selected)
    ensures st == LoadOne(request, before, decision)
  {
    if decision.Skip? {
      return before.(excluded := before.excluded + [decision]);
    }
    if decision.id !in request.registry.subskills {
      return Shelve(before, decision, Missing);
    }
    var verdict := DecidePolicy(request.registry, decision.id, request.query);
    st := Place(request, verdict, maxTotal, before, decision);
  }

  /** The rest of the loop body, once the decision is known to be about a registered sub-skill. */
  method Place(request: LoadRequest, verdict: PolicyDecision, maxTotal: Option<nat>, before: LoadState,
               decision: Decision)
    returns (st: LoadState)
    requires decision.id in request.registry.subskills
    ensures st == PlaceJudged(request.availableTokens, verdict, maxTotal, MaterialFor(request, before, decision.id),
                              before, decision)
  {
    st := before.(policyDecisions := before.policyDecisions + [verdict]);
    if !verdict.allowed {
      return Shelve(st, decision, Blocked(verdict.reason));
    }
    if verdict.approvalRequired {
      return Shelve(st, decision, ApprovalRequired(verdict.reason));
    }
    if maxTotal.Some? && |st.loaded| >= maxTotal.value {
      return Shelve(st, decision, MaxTotalSkipped(maxTotal.value));
    }
    var remaining := Max(request.availableTokens - st.usedTokens, 0);
    var mode, text, estimate :=
      BudgetedMaterialization(request.render, request.registry.subskills[decision.id].subskill,
                              PreferredMode(request, decision.id), remaining, st.loaded == []);
    if st.usedTokens + estimate > request.availableTokens && st.loaded != [] {
      return Shelve(st, decision, BudgetSkipped(st.usedTokens, estimate));
    }
    st := st.(usedTokens := st.usedTokens + estimate,
              loaded := st.loaded + [LoadedSubskill(decision.id, mode, decision.note.reason, estimate, text)]);
  }

  // ---------------------------------------------------------------- the budget

  function SumEstimates(loaded: seq<LoadedSubskill>): nat {
    if loaded == [] then 0 else SumEstimates(loaded[..|loaded| - 1]) + loaded[|loaded| - 1].tokenEstimate
  }

  lemma SumEstimatesAppend(loaded: seq<LoadedSubskill>, last: LoadedSubskill)
    ensures SumEstimates(loaded + [last]) == SumEstimates(loaded) + last.tokenEstimate
  {
    assert (loaded + [last])[..|loaded|] == loaded;
  }

  /** What a loaded item owes to the tokens `before` it; the first one may be over the budget. */
  ghost predicate FairItem(request: LoadRequest, first: bool, before: nat, item: LoadedSubskill) {
    && item.id in request.registry.subskills
    && var subskill := request.registry.subskills[item.id].subskill;
    var preferred := PreferredMode(request, item.id);
    var verdict := DecidePolicy(request.registry, item.id, request.query);
    && verdict.allowed && !verdict.approvalRequired
    && item.tokenEstimate == Estimate(request.render, subskill, item.mode)
    && item.text == request.render(subskill, item.mode)
    && if first then item.mode == preferred
       else RichestThatFits(request.render, subskill, preferred, request.availableTokens - before, item.mode)
  }

  ghost predicate FairlyLoaded(request: LoadRequest, loaded: seq<LoadedSubskill>, k: nat)
    requires k < |loaded|
  {
    FairItem(request, k == 0, SumEstimates(loaded[..k]), loaded[k])
  }

  /** Why a decision was shelved, read against the final loaded list. */
  ghost predicate FairlyShelved(request: LoadRequest, loaded: seq<LoadedSubskill>, d: ShelvedDecision) {
    match d.shelf
    case Missing => d.id !in request.registry.subskills
    case Blocked(verdict) =>
      DecidePolicy(request.registry, d.id, request.query) == PolicyDecision(d.id, false, false, verdict)
    case ApprovalRequired(verdict) =>
      DecidePolicy(request.registry, d.id, request.query) == PolicyDecision(d.id, true, true, verdict)
    case MaxTotalSkipped(cap) =>
      MaxTotalSubskills(request.registry, request.selected) == Some(cap) && |loaded| == cap
    case BudgetSkipped(used, estimate) =>
      && d.id in request.registry.subskills
      && (exists k: nat :: 0 < k <= |loaded| && used == SumEstimates(loaded[..k]))
      && NothingFits(request.render, request.registry.subskills[d.id].subskill, PreferredMode(request, d.id),
                     request.availableTokens - used)
  }

  ghost predicate Budgeted(request: LoadRequest, st: LoadState) {
    WithinBudget(request.availableTokens, MaxTotalSubskills(request.registry, request.selected), st)
  }

  ghost predicate FairLoads(request: LoadRequest, loaded: seq<LoadedSubskill>) {
    forall k: nat :: k < |loaded| ==> FairlyLoaded(request, loaded, k)
  }

  ghost predicate FairShelf(request: LoadRequest, loaded: seq<LoadedSubskill>, shelved: seq<ShelvedDecision>,
                            byPolicy: bool)
  {
    forall d :: d in shelved ==>
      FairlyShelved(request, loaded, d) && (byPolicy <==> d.shelf.Blocked? || d.shelf.ApprovalRequired?)
  }

  ghost predicate Fair(request: LoadRequest, st: LoadState) {
    && FairLoads(request, st.loaded)
    && FairShelf(request, st.loaded, st.blocked, true)
    && FairShelf(request, st.loaded, st.notLoaded, false)
  }

  ghost predicate WithinBudget(availableTokens: nat, cap: Option<nat>, st: LoadState) {
    && st.usedTokens == SumEstimates(st.loaded)
    && (st.usedTokens <= availableTokens || |st.loaded| == 1)
    && (cap.Some? ==> |st.loaded| <= cap.value)
  }

  lemma PlaceBudgeted(availableTokens: nat, verdict: PolicyDecision, cap: Option<nat>, material: Material,
                      st: LoadState, decision: Decision)
    requires WithinBudget(availableTokens, cap, st)
    ensures WithinBudget(availableTokens, cap, PlaceJudged(availableTokens, verdict, cap, material, st, decision))
  {
    var st' := PlaceJudged(availableTokens, verdict, cap, material, st, decision);
    if |st'.loaded| > |st.loaded| {
      assert st'.loaded == st.loaded + [LoadedItem(decision, material)];
      SumEstimatesAppend(st.loaded, LoadedItem(decision, material));
    } else {
      assert st'.loaded == st.loaded && st'.usedTokens == st.usedTokens;
    }
  }

  lemma LoadOneBudgeted(request: LoadRequest, st: LoadState, decision: Decision)
    requires Budgeted(request, st)
    ensures Budgeted(request, LoadOne(request, st, decision))
  {
    if decision.Enter? && decision.id in request.registry.subskills {
      PlaceBudgeted(request.availableTokens, DecidePolicy(request.registry, decision.id, request.query),
                    MaxTotalSubskills(request.registry, request.selected),
                    MaterialFor(request, st, decision.id), st, decision);
    }
  }

  lemma StillFairlyShelved(request: LoadRequest, loaded: seq<LoadedSubskill>, item: LoadedSubskill, d: ShelvedDecision)
    requires FairlyShelved(request, loaded, d)
    requires var cap := MaxTotalSubskills(request.registry, request.selected); cap.Some? ==> |loaded| < cap.value
    ensures FairlyShelved(request, loaded + [item], d)
  {
    if d.shelf.BudgetSkipped? {
      var k: nat :| 0 < k <= |loaded| && d.shelf.usedTokens == SumEstimates(loaded[..k]);
      assert (loaded + [item])[..k] == loaded[..k];
    }
  }

  lemma ShelveFair(request: LoadRequest, st: LoadState, decision: Decision, shelf: Shelf)
    requires Fair(request, st)
    requires FairlyShelved(request, st.loaded, ShelvedDecision(decision.id, decision.note.relation, shelf))
    ensures Fair(request, Shelve(st, decision, shelf))
  {
  }

  lemma LoadItemKeepsLoads(request: LoadRequest, loaded: seq<LoadedSubskill>, item: LoadedSubskill)
    requires FairLoads(request, loaded) && FairlyLoaded(request, loaded + [item], |loaded|)
    ensures FairLoads(request, loaded + [item])
  {
    forall k: nat | k < |loaded| ensures FairlyLoaded(request, loaded + [item], k) {
      assert FairlyLoaded(request, loaded, k);
      assert (loaded + [item])[..k] == loaded[..k] && (loaded + [item])[k] == loaded[k];
    }
  }

  lemma LoadItemKeepsShelf(request: LoadRequest, loaded: seq<LoadedSubskill>, item: LoadedSubskill,
                           shelved: seq<ShelvedDecision>, byPolicy: bool)
    requires FairShelf(request, loaded, shelved, byPolicy)
    requires var cap := MaxTotalSubskills(request.registry, request.selected); cap.Some? ==> |loaded| < cap.value
    ensures FairShelf(request, loaded + [item], shelved, byPolicy)
  {
    forall d | d in shelved ensures FairlyShelved(request, loaded + [item], d) {
      StillFairlyShelved(request, loaded, item, d);
    }
  }

  lemma LoadItemFair(request: LoadRequest, st: LoadState, item: LoadedSubskill)
    requires Fair(request, st)
    requires FairlyLoaded(request, st.loaded + [item], |st.loaded|)
    requires var cap := MaxTotalSubskills(request.registry, request.selected); cap.Some? ==> |st.loaded| < cap.value
    ensures Fair(request, st.(usedTokens := st.usedTokens + item.tokenEstimate, loaded := st.loaded + [item]))
  {
    LoadItemKeepsLoads(request, st.loaded, item);
    LoadItemKeepsShelf(request, st.loaded, item, st.blocked, true);
    LoadItemKeepsShelf(request, st.loaded, item, st.notLoaded, false);
  }

  lemma MaterialFits(request: LoadRequest, st: LoadState, id: string)
    requires id in request.registry.subskills
    ensures var subskill, preferred := request.registry.subskills[id].subskill, PreferredMode(request, id);
            var material := MaterialFor(request, st, id);
            && material.estimate == Estimate(request.render, subskill, material.mode)
            && material.text == request.render(subskill, material.mode)
            && (st.loaded == [] ==> material.mode == preferred)
            && (st.loaded != [] ==>
                  if st.usedTokens + material.estimate <= request.availableTokens
                  then RichestThatFits(request.render, subskill, preferred, request.availableTokens - st.usedTokens,
                                       material.mode)
                  else NothingFits(request.render, subskill, preferred, request.availableTokens - st.usedTokens))
  {
    if st.usedTokens <= request.availableTokens {
      BudgetedModeIsRichest(request.render, request.registry.subskills[id].subskill, PreferredMode(request, id),
                            request.availableTokens - st.usedTokens);
    }
  }

  /** An allowed decision under the cap is given the right mode, or nothing fits. */
  lemma MaterialIsFair(request: LoadRequest, st: LoadState, decision: Decision)
    requires decision.Enter? && decision.id in request.registry.subskills
    requires var verdict := DecidePolicy(request.registry, decision.id, request.query);
             verdict.allowed && !verdict.approvalRequired
    requires st.usedTokens == SumEstimates(st.loaded)
    ensures var material := MaterialFor(request, st, decision.id);
            if st.usedTokens + material.estimate > request.availableTokens && st.loaded != []
            then FairlyShelved(request, st.loaded, ShelvedDecision(decision.id, decision.note.relation,
                                                                   BudgetSkipped(st.usedTokens, material.estimate)))
            else FairItem(request, st.loaded == [], st.usedTokens, LoadedItem(decision, material))
  {
    MaterialFits(request, st, decision.id);
    var n := |st.loaded|;
    assert st.loaded[..n] == st.loaded;
    assert n > 0 ==> 0 < n <= |st.loaded| && st.usedTokens == SumEstimates(st.loaded[..n]);
  }

  lemma LoadOneFair(request: LoadRequest, st: LoadState, decision: Decision)
    requires Budgeted(request, st) && Fair(request, st)
    ensures Fair(request, LoadOne(request, st, decision))
  {
    if decision.Skip? {
      assert LoadOne(request, st, decision).loaded == st.loaded;
    } else if decision.id !in request.registry.subskills {
      ShelveFair(request, st, decision, Missing);
    } else {
      var verdict := DecidePolicy(request.registry, decision.id, request.query);
      var cap, material := MaxTotalSubskills(request.registry, request.selected), MaterialFor(request, st, decision.id);
      if verdict.allowed && !verdict.approvalRequired {
        MaterialIsFair(request, st, decision);
        ItemIsFair(request, st, LoadedItem(decision, material));
      }
      ShelfIsFair(request, st, decision, verdict, cap, material);
      PlaceFair(request, st, decision, verdict, cap, material);
    }
  }

  lemma ItemIsFair(request: LoadRequest, st: LoadState, item: LoadedSubskill)
    requires st.usedTokens == SumEstimates(st.loaded)
    ensures FairItem(request, st.loaded == [], st.usedTokens, item)
       <==> FairlyLoaded(request, st.loaded + [item], |st.loaded|)
  {
    assert (st.loaded + [item])[..|st.loaded|] == st.loaded;
  }

  lemma VerdictShape(registry: Registry, id: string, query: string)
    ensures var verdict := DecidePolicy(registry, id, query);
            verdict.id == id && (verdict.allowed || !verdict.approvalRequired)
  {
  }

  /** A decision that policy stops is shelved with the verdict's own reason. */
  lemma PolicyShelfIsFair(request: LoadRequest, loaded: seq<LoadedSubskill>, decision: Decision,
                          verdict: PolicyDecision)
    requires verdict == DecidePolicy(request.registry, decision.id, request.query)
    ensures !verdict.allowed ==>
              FairlyShelved(request, loaded,
                            ShelvedDecision(decision.id, decision.note.relation, Blocked(verdict.reason)))
    ensures verdict.allowed && verdict.approvalRequired ==>
              FairlyShelved(request, loaded,
                            ShelvedDecision(decision.id, decision.note.relation, ApprovalRequired(verdict.reason)))
  {
    VerdictShape(request.registry, decision.id, request.query);
  }

  /** Whatever shelf a decision goes to, it is fairly there. */
  lemma ShelfIsFair(request: LoadRequest, st: LoadState, decision: Decision, verdict: PolicyDecision, cap: Option<nat>,
                    material: Material)
    requires cap.Some? ==> |st.loaded| <= cap.value
    requires verdict == DecidePolicy(request.registry, decision.id, request.query)
    requires cap == MaxTotalSubskills(request.registry, request.selected)
    requires verdict.allowed && !verdict.approvalRequired
             && st.usedTokens + material.estimate > request.availableTokens && st.loaded != [] ==>
               FairlyShelved(request, st.loaded, ShelvedDecision(decision.id, decision.note.relation,
                                                                 BudgetSkipped(st.usedTokens, material.estimate)))
    ensures match ShelfFor(request.availableTokens, verdict, cap, material, st)
            case Some(shelf) =>
              FairlyShelved(request, st.loaded, ShelvedDecision(decision.id, decision.note.relation, shelf))
            case None => true
  {
    PolicyShelfIsFair(request, st.loaded, decision, verdict);
  }

  lemma PlaceFair(request: LoadRequest, st: LoadState, decision: Decision, verdict: PolicyDecision, cap: Option<nat>,
                  material: Material)
    requires Fair(request, st) && cap == MaxTotalSubskills(request.registry, request.selected)
    requires match ShelfFor(request.availableTokens, verdict, cap, material, st)
             case Some(shelf) =>
              FairlyShelved(request, st.loaded, ShelvedDecision(decision.id, decision.note.relation, shelf))
             case None => FairlyLoaded(request, st.loaded + [LoadedItem(decision, material)], |st.loaded|)
    ensures Fair(request, PlaceJudged(request.availableTokens, verdict, cap, material, st, decision))
  {
    var judged := st.(policyDecisions := st.policyDecisions + [verdict]);
    assert Fair(request, judged);
    match ShelfFor(request.availableTokens, verdict, cap, material, st)
    case Some(shelf) => ShelveFair(request, judged, decision, shelf);
    case None => LoadItemFair(request, judged, LoadedItem(decision, material));
  }

  lemma {:induction false} LoadAllSound(request: LoadRequest, plan: seq<Decision>)
    ensures Budgeted(request, LoadAll(request, plan)) && Fair(request, LoadAll(request, plan))
    decreases |plan|
  {
    if plan != [] {
      var n := |plan| - 1;
      LoadAllSound(request, plan[..n]);
      LoadOneBudgeted(request, LoadAll(request, plan[..n]), plan[n]);
      LoadOneFair(request, LoadAll(request, plan[..n]), plan[n]);
    }
  }

  /** The budget, the cap, the mode of every load and the reason of every refusal, for every request. */
  lemma LoadIsBudgetedAndFair(request: LoadRequest, maxDepth: nat)
    ensures Budgeted(request, Load(request, maxDepth)) && Fair(request, Load(request, maxDepth))
  {
    LoadAllSound(request, Plan(request.registry, request.selected, request.query, maxDepth));
  }

  // ---------------------------------------------------------------- every decision lands once

  datatype Landing = InLoaded | InBlocked | InExcluded | InNotLoaded

  /** The ids of the decisions that landed in `where`, in plan order. */
  function Landed(plan: seq<Decision>, landings: seq<Landing>, target: Landing): seq<string>
    requires |landings| == |plan|
  {
    if plan == [] then []
    else
      var n := |plan| - 1;
      Landed(plan[..n], landings[..n], target) + (if landings[n] == target then [plan[n].id] else [])
  }

  function LoadedIds(loaded: seq<LoadedSubskill>): (ids: seq<string>)
    ensures |ids| == |loaded| && forall i :: 0 <= i < |ids| ==> ids[i] == loaded[i].id
  {
    seq(|loaded|, i requires 0 <= i < |loaded| => loaded[i].id)
  }

  function ShelvedIds(shelved: seq<ShelvedDecision>): (ids: seq<string>)
    ensures |ids| == |shelved| && forall i :: 0 <= i < |ids| ==> ids[i] == shelved[i].id
  {
    seq(|shelved|, i requires 0 <= i < |shelved| => shelved[i].id)
  }

  function DecisionIds(decisions: seq<Decision>): (ids: seq<string>)
    ensures |ids| == |decisions| && forall i :: 0 <= i < |ids| ==> ids[i] == decisions[i].id
  {
    seq(|decisions|, i requires 0 <= i < |decisions| => decisions[i].id)
  }

  /** The four lists of `st` are the plan dealt out by `landings`, each in plan order. */
  ghost predicate DealtOut(plan: seq<Decision>, landings: seq<Landing>, st: LoadState)
    requires |landings| == |plan|
  {
    && LoadedIds(st.loaded) == Landed(plan, landings, InLoaded)
    && ShelvedIds(st.blocked) == Landed(plan, landings, InBlocked)
    && DecisionIds(st.excluded) == Landed(plan, landings, InExcluded)
    && ShelvedIds(st.notLoaded) == Landed(plan, landings, InNotLoaded)
    && forall i :: 0 <= i < |plan| ==> (landings[i] == InExcluded <==> plan[i].Skip?)
  }

  /** `st'` adds one item, about `id`, to the list `landing` names and leaves the other three alone. */
  ghost predicate AddsOne(st: LoadState, st': LoadState, id: string, landing: Landing) {
    && LoadedIds(st'.loaded) == LoadedIds(st.loaded) + (if landing == InLoaded then [id] else [])
    && ShelvedIds(st'.blocked) == ShelvedIds(st.blocked) + (if landing == InBlocked then [id] else [])
    && DecisionIds(st'.excluded) == DecisionIds(st.excluded) + (if landing == InExcluded then [id] else [])
    && ShelvedIds(st'.notLoaded) == ShelvedIds(st.notLoaded) + (if landing == InNotLoaded then [id] else [])
  }

  lemma ShelveAddsOne(st: LoadState, decision: Decision, shelf: Shelf)
    ensures AddsOne(st, Shelve(st, decision, shelf), decision.id,
                    if shelf.Blocked? || shelf.ApprovalRequired? then InBlocked else InNotLoaded)
  {
  }

  lemma PlaceAddsOne(availableTokens: nat, verdict: PolicyDecision, cap: Option<nat>, material: Material,
                     st: LoadState, decision: Decision) returns (landing: Landing)
    ensures landing != InExcluded
    ensures AddsOne(st, PlaceJudged(availableTokens, verdict, cap, material, st, decision), decision.id, landing)
  {
    var st' := PlaceJudged(availableTokens, verdict, cap, material, st, decision);
    landing := if |st'.loaded| > |st.loaded| then InLoaded
               else if |st'.blocked| > |st.blocked| then InBlocked else InNotLoaded;
  }

  lemma LoadOneAddsOne(request: LoadRequest, st: LoadState, decision: Decision) returns (landing: Landing)
    ensures landing == InExcluded <==> decision.Skip?
    ensures AddsOne(st, LoadOne(request, st, decision), decision.id, landing)
  {
    if decision.Skip? {
      landing := InExcluded;
    } else if decision.id !in request.registry.subskills {
      landing := InNotLoaded;
      ShelveAddsOne(st, decision, Missing);
    } else {
      landing := PlaceAddsOne(request.availableTokens, DecidePolicy(request.registry, decision.id, request.query),
                              MaxTotalSubskills(request.registry, request.selected),
                              MaterialFor(request, st, decision.id), st, decision);
    }
  }

  lemma DealOneMore(done: seq<Decision>, landings: seq<Landing>, st: LoadState, decision: Decision, st': LoadState,
                    landing: Landing, plan: seq<Decision>, all: seq<Landing>)
    requires |landings| == |done| && DealtOut(done, landings, st)
    requires AddsOne(st, st', decision.id, landing) && (landing == InExcluded <==> decision.Skip?)
    requires plan == done + [decision] && all == landings + [landing]
    ensures DealtOut(plan, all, st')
  {
    assert plan[..|done|] == done && all[..|done|] == landings;
    assert plan[|done|] == decision && all[|done|] == landing;
    forall i | 0 <= i < |plan| ensures all[i] == InExcluded <==> plan[i].Skip? {
      if i < |done| { assert plan[i] == done[i] && all[i] == landings[i]; }
    }
  }

  lemma LastIsLoaded(request: LoadRequest, front: seq<Decision>, last: Decision, plan: seq<Decision>)
    returns (landing: Landing)
    requires plan == front + [last]
    ensures landing == InExcluded <==> last.Skip?
    ensures AddsOne(LoadAll(request, front), LoadAll(request, plan), last.id, landing)
  {
    assert plan[..|plan| - 1] == front;
    landing := LoadOneAddsOne(request, LoadAll(request, front), last);
  }

  lemma {:induction false} LoadAllDeals(request: LoadRequest, plan: seq<Decision>) returns (landings: seq<Landing>)
    ensures |landings| == |plan| && DealtOut(plan, landings, LoadAll(request, plan))
    decreases |plan|
  {
    if plan == [] {
      landings := [];
    } else {
      var front, last := plan[..|plan| - 1], plan[|plan| - 1];
      var dealt := LoadAllDeals(request, front);
      var landing := LastIsLoaded(request, front, last, plan);
      landings := dealt + [landing];
      DealOneMore(front, dealt, LoadAll(request, front), last, LoadAll(request, plan), landing, plan, landings);
    }
  }

  /** Every planned decision lands in exactly one of the four lists, and each list keeps plan order. */
  lemma EveryDecisionLandsOnce(request: LoadRequest, maxDepth: nat) returns (landings: seq<Landing>)
    ensures var plan := Plan(request.registry, request.selected, request.query, maxDepth);
            |landings| == |plan| && DealtOut(plan, landings, Load(request, maxDepth))
  {
    landings := LoadAllDeals(request, Plan(request.registry, request.selected, request.query, maxDepth));
  }

  lemma DistinctAppend(ids: seq<string>, id: string)
    ensures Distinct(ids + [id]) <==> Distinct(ids) && id !in ids
  {
    var longer := ids + [id];
    assert longer[|ids|] == id;
    assert forall i :: 0 <= i < |ids| ==> longer[i] == ids[i];
  }

  lemma {:induction false} LandedAmongEntered(plan: seq<Decision>, landings: seq<Landing>)
    requires |landings| == |plan|
    requires forall i :: 0 <= i < |plan| ==> (landings[i] == InExcluded <==> plan[i].Skip?)
    ensures forall id :: id in Landed(plan, landings, InLoaded) ==> id in Entered(plan)
    ensures Distinct(Entered(plan)) ==> Distinct(Landed(plan, landings, InLoaded))
    decreases |plan|
  {
    if plan != [] {
      var n := |plan| - 1;
      var front, last := plan[..n], plan[n];
      assert front + [last] == plan;
      EnteredAppend(front, [last]);
      assert Entered([last]) == if last.Enter? then [last.id] else [];
      LandedAmongEntered(front, landings[..n]);
      DistinctAppend(Entered(front), last.id);
      DistinctAppend(Landed(front, landings[..n], InLoaded), last.id);
      assert landings[n] == InLoaded ==> last.Enter?;
      assert Entered(plan) == if last.Enter? then Entered(front) + [last.id] else Entered(front);
    }
  }

  /** No sub-skill is loaded twice, and only ids planned for loading are loaded. */
  lemma LoadedIdsDistinct(request: LoadRequest, maxDepth: nat)
    ensures var loaded := Load(request, maxDepth).loaded;
            && Distinct(LoadedIds(loaded))
            && forall id :: id in LoadedIds(loaded) ==>
                 id in Entered(Plan(request.registry, request.selected, request.query, maxDepth))
  {
    var landings := EveryDecisionLandsOnce(request, maxDepth);
    PlanLoadsOnce(request.registry, request.selected, request.query, maxDepth);
    assert Distinct(Entered(Plan(request.registry, request.selected, request.query, maxDepth)));
    LandedAmongEntered(Plan(request.registry, request.selected, request.query, maxDepth), landings);
  }
}
