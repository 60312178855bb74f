/** The linked-skill registry, the policy verdict on one sub-skill, and the policy half of library validation. */
module SkillRegistry {
  import opened Prelude
  import opened PolicyInheritance
  import opened TextTerms

  datatype Relation =
    | Requires | Related | Conflicts | Extending | Replaces | Fallback | Specializes | Generalizes
    | OtherRelation(name: string)

  datatype LoadMode = Card | Body | ExtendedBody

  datatype LoadHint = HintNone | HintMode(mode: LoadMode) | OtherHint(name: string)

  datatype Link = Link(id: string, from: string, to: string, relation: Option<Relation>, loadHint: Option<LoadHint>)

  datatype Subskill = Subskill(
    id: string,
    title: Option<string>,
    summary: Option<string>,
    status: Option<string>,
    risk: Option<string>,
    tags: seq<string>,
    activationPositive: seq<string>,
    activationNegative: seq<string>,
    requiredConcepts: seq<string>,
    requiredTools: seq<string>,
    policy: Policy,
    contextBudget: map<string, nat>,
    cardText: Option<string>,
    forbidden: seq<string>,
    successCount: nat,
    failureCount: nat)

  datatype IndexItem = IndexItem(title: Option<string>, summary: Option<string>, tags: seq<string>)

  datatype Library = Library(id: string, policies: PolicyTable, subskills: seq<Subskill>,
                             maxTotalSubskills: Option<nat>)

  datatype Entry = Entry(libraryId: string, subskill: Subskill, index: Option<IndexItem>)

  datatype Registry = Registry(libraries: map<string, Library>, subskills: map<string, Entry>, links: seq<Link>)

  // ---------------------------------------------------------------- policy verdicts

  datatype PolicyReason = MissingSubskill | NegativeActivation | ForbiddenMatched | ApprovalMatched | PolicyAllowed

  datatype PolicyDecision = PolicyDecision(id: string, allowed: bool, approvalRequired: bool, reason: PolicyReason)

  /** The sub-skill's resolved policy, or its own unresolved one when the library or the chain is broken. */
  function EffectivePolicy(registry: Registry, entry: Entry): Policy {
    var own := entry.subskill.policy;
    if entry.libraryId !in registry.libraries then own
    else
      match Resolve(registry.libraries[entry.libraryId].policies, own, {})
      case Ok(policy) => policy
      case Err(_) => own
  }

  function DecidePolicy(registry: Registry, id: string, query: string): PolicyDecision {
    if id !in registry.subskills then PolicyDecision(id, false, false, MissingSubskill)
    else
      var entry := registry.subskills[id];
      var queryTerms := Terms(query);
      var effective := EffectivePolicy(registry, entry);
      if TermOverlap(queryTerms, entry.subskill.activationNegative) > 0 then
        PolicyDecision(id, false, false, NegativeActivation)
      else if TermOverlap(queryTerms, effective.forbidden) > 0
           || TermOverlap(queryTerms, entry.subskill.forbidden) > 0 then
        PolicyDecision(id, false, false, ForbiddenMatched)
      else if TermOverlap(queryTerms, effective.requiresApproval) > 0 then
        PolicyDecision(id, true, true, ApprovalMatched)
      else
        PolicyDecision(id, true, false, PolicyAllowed)
  }

  ghost predicate QueryTouches(query: string, values: seq<string>) {
    exists v :: v in values && Terms(query) * Terms(v) != {}
  }

  /** The library is known and the sub-skill's chain of policies is finite and known in it. */
  ghost predicate ChainHolds(registry: Registry, entry: Entry) {
    && entry.libraryId in registry.libraries
    && FiniteKnownChain(registry.libraries[entry.libraryId].policies, entry.subskill.policy)
  }

  /** What the verdict takes as forbidden: by the whole chain when it holds, and otherwise by the bare policy alone. */
  ghost predicate JudgedForbidden(registry: Registry, entry: Entry, value: string) {
    if ChainHolds(registry, entry)
    then ForbiddenOnChain(registry.libraries[entry.libraryId].policies, entry.subskill.policy, value)
    else value in entry.subskill.policy.forbidden
  }

  lemma EffectiveForbids(registry: Registry, entry: Entry, value: string)
    ensures value in EffectivePolicy(registry, entry).forbidden <==> JudgedForbidden(registry, entry, value)
  {
    if entry.libraryId in registry.libraries {
      var table := registry.libraries[entry.libraryId].policies;
      ResolveSucceedsIff(table, entry.subskill.policy);
      if FiniteKnownChain(table, entry.subskill.policy) {
        ForbiddenIffOnChain(table, entry.subskill.policy, value);
      }
    }
  }

  /** A query is allowed if and only if the sub-skill is known and the query touches nothing that keeps it inactive,
      nothing it forbids itself, and nothing forbidden by its chain, or by its bare policy when the chain is broken. */
  lemma AllowedIff(registry: Registry, id: string, query: string)
    ensures DecidePolicy(registry, id, query).allowed <==>
              && id in registry.subskills
              && var entry := registry.subskills[id];
                 && !QueryTouches(query, entry.subskill.activationNegative)
                 && !QueryTouches(query, entry.subskill.forbidden)
                 && forall value :: JudgedForbidden(registry, entry, value) ==> Terms(query) * Terms(value) == {}
  {
    if id in registry.subskills {
      var entry := registry.subskills[id];
      var forbidden := EffectivePolicy(registry, entry).forbidden;
      OverlapIffSomeValue(Terms(query), entry.subskill.activationNegative);
      OverlapIffSomeValue(Terms(query), entry.subskill.forbidden);
      OverlapIffSomeValue(Terms(query), forbidden);
      forall value ensures value in forbidden <==> JudgedForbidden(registry, entry, value) {
        EffectiveForbids(registry, entry, value);
      }
    }
  }

  /** So an allowed query touches nothing that the sub-skill's own policy forbids, and nothing that a policy on its
      chain forbids as long as the chain holds. */
  lemma AllowedRespectsEveryAncestor(registry: Registry, id: string, query: string, value: string)
    requires DecidePolicy(registry, id, query).allowed
    ensures id in registry.subskills
    ensures var entry := registry.subskills[id];
            (|| value in entry.subskill.policy.forbidden
             || (&& ChainHolds(registry, entry)
                 && ForbiddenOnChain(registry.libraries[entry.libraryId].policies, entry.subskill.policy, value)))
            ==> Terms(query) * Terms(value) == {}
  {
    AllowedIff(registry, id, query);
    assert JudgedForbidden(registry, registry.subskills[id], value) ==> Terms(query) * Terms(value) == {};
  }

  /** What the verdict takes as wanting approval, likewise. */
  ghost predicate JudgedApproval(registry: Registry, entry: Entry, query: string) {
    if ChainHolds(registry, entry) then
      var table := registry.libraries[entry.libraryId].policies;
      exists n: nat :: ChainLength(table, entry.subskill.policy, n)
                       && QueryTouches(query, AllRequiresApproval(Lineage(table, entry.subskill.policy, n)))
    else QueryTouches(query, entry.subskill.policy.requiresApproval)
  }

  /** Approval is required if and only if the query is allowed and touches something that wants approval. */
  lemma ApprovalRequiredIff(registry: Registry, id: string, query: string)
    ensures DecidePolicy(registry, id, query).approvalRequired <==>
              DecidePolicy(registry, id, query).allowed && JudgedApproval(registry, registry.subskills[id], query)
  {
    if id in registry.subskills {
      var entry := registry.subskills[id];
      OverlapIffSomeValue(Terms(query), EffectivePolicy(registry, entry).requiresApproval);
      EffectiveApproval(registry, entry, query);
    }
  }

  lemma EffectiveApproval(registry: Registry, entry: Entry, query: string)
    ensures QueryTouches(query, EffectivePolicy(registry, entry).requiresApproval)
            <==> JudgedApproval(registry, entry, query)
  {
    if entry.libraryId in registry.libraries {
      var table, own := registry.libraries[entry.libraryId].policies, entry.subskill.policy;
      ResolveSucceedsIff(table, own);
      if FiniteKnownChain(table, own) {
        forall n: nat | ChainLength(table, own, n)
          ensures QueryTouches(query, EffectivePolicy(registry, entry).requiresApproval)
             <==> QueryTouches(query, AllRequiresApproval(Lineage(table, own, n)))
        {
          EffectiveListsUnion(table, own, n);
        }
      }
    }
  }

  // ---------------------------------------------------------------- validation, policy half

  /** What validation demands of one policy: it resolves, and it allows nothing its chain forbids. */
  predicate PolicyAccepted(table: PolicyTable, policy: Policy) {
    match Resolve(table, policy, {})
    case Err(_) => false
    case Ok(effective) => forall value :: value in policy.allowed ==> value !in effective.forbidden
  }

  predicate PoliciesAccepted(library: Library) {
    && (forall s :: s in library.subskills ==> PolicyAccepted(library.policies, s.policy))
    && (forall name :: name in library.policies ==> PolicyAccepted(library.policies, library.policies[name]))
  }

  /**
   Validation accepts a policy exactly when its chain is finite and known and no value it allows is
   forbidden by it or by any ancestor.
   */
  lemma PolicyAcceptedIff(table: PolicyTable, policy: Policy)
    ensures PolicyAccepted(table, policy) <==>
              && FiniteKnownChain(table, policy)
              && forall value :: value in policy.allowed ==> !ForbiddenOnChain(table, policy, value)
  {
    ResolveSucceedsIff(table, policy);
    if FiniteKnownChain(table, policy) {
      forall value {
        ForbiddenIffOnChain(table, policy, value);
      }
    }
  }

  /** In a registry of validated libraries every sub-skill is judged by its whole chain, never by the fallback. */
  lemma ValidatedLibraryIsJudgedByChain(registry: Registry, entry: Entry)
    requires entry.libraryId in registry.libraries
    requires PoliciesAccepted(registry.libraries[entry.libraryId])
    requires entry.subskill in registry.libraries[entry.libraryId].subskills
    ensures FiniteKnownChain(registry.libraries[entry.libraryId].policies, entry.subskill.policy)
    ensures Resolve(registry.libraries[entry.libraryId].policies, entry.subskill.policy, {})
         == Ok(EffectivePolicy(registry, entry))
  {
    PolicyAcceptedIff(registry.libraries[entry.libraryId].policies, entry.subskill.policy);
  }
}
