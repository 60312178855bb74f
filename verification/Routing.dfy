/** Choosing sub-skills for a query: scores, eligibility, order. */
module Routing {
  import opened Prelude
  import opened RouteOrder
  import opened SkillRegistry
  import opened TextOrder
  import opened TextTerms
  import opened WholeNumbers

  // ---------------------------------------------------------------- scores

  function OptionalText(text: Option<string>): seq<string> {
    if text.Some? then [text.value] else []
  }

  function IndexText(entry: Entry): seq<string> {
    match entry.index
    case None => []
    case Some(index) => OptionalText(index.title) + OptionalText(index.summary) + index.tags
  }

  function OwnText(s: Subskill): seq<string> {
    [s.id] + OptionalText(s.title) + OptionalText(s.summary) + s.tags + s.activationPositive
  }

  function RouteScore(queryTerms: set<string>, entry: Entry): nat {
    TermOverlap(queryTerms, OwnText(entry.subskill) + IndexText(entry))
  }

  /** Shared terms over all terms, of the query and of the routing text with the card. */
  function SemanticRouteScore(queryTerms: set<string>, entry: Entry): Ratio {
    var text := OwnText(entry.subskill) + OptionalText(entry.subskill.cardText) + IndexText(entry);
    var textTerms := Terms(Join(text, " "));
    if queryTerms == {} || textTerms == {} then Ratio(0, 1)
    else Ratio(|queryTerms * textTerms|, |queryTerms + textTerms|)
  }

  /** `scale` times the ratio, to the nearest whole number, halves upwards. */
  function Rounded(ratio: Ratio, scale: nat): nat {
    if ratio.whole == 0 then 0 else (2 * scale * ratio.part + ratio.whole) / (2 * ratio.whole)
  }

  function RiskPenalty(risk: Option<string>): nat {
    var level := if risk.Some? then risk.value else "medium";
    if level == "critical" then 3 else if level == "high" then 2 else 0
  }

  function SuccessPoints(success: nat, failures: nat): nat {
    if success + failures > 0 then Rounded(Ratio(success, success + failures), 3) else 0
  }

  /** The signals a route score is made of. */
  datatype Signals = Signals(
    lexical: nat, positive: nat, negative: nat, semantic: Ratio, noRequiredTools: bool, success: nat, failures: nat,
    riskPenalty: nat, status: string)

  function SignalsOf(queryTerms: set<string>, entry: Entry): Signals {
    var s := entry.subskill;
    var lexical := RouteScore(queryTerms, entry);
    var positive := TermOverlap(queryTerms, s.activationPositive);
    Signals(
      lexical, positive, TermOverlap(queryTerms, s.activationNegative),
      if lexical > 0 || positive > 0 then SemanticRouteScore(queryTerms, entry) else Ratio(0, 1),
      s.requiredTools == [], s.successCount, s.failureCount, RiskPenalty(s.risk),
      if s.status.Some? then s.status.value else "active")
  }

  function ToolScore(s: Signals): nat {
    if (s.lexical > 0 || s.positive > 0 || s.semantic.part > 0) && s.noRequiredTools then 1 else 0
  }

  /** What the risk penalty is taken from. */
  function Merit(s: Signals): nat {
    s.lexical + s.positive * 2 + Rounded(s.semantic, 10) + ToolScore(s) + SuccessPoints(s.success, s.failures)
  }

  function Score(s: Signals): nat {
    Merit(s) - Min(s.riskPenalty, Merit(s))
  }

  predicate StatusExcludes(status: string) {
    status == "archived" || status == "candidate" || status == "sandboxed"
  }

  function CandidateOf(id: string, s: Signals): Option<Candidate> {
    var score := Score(s);
    if score == 0 && s.negative == 0 then None
    else
      var excluded := s.negative > 0 || StatusExcludes(s.status);
      var reason :=
        if excluded && score == 0 then ExcludedByFilters
        else if s.negative > 0 then NegativeMatched(s.negative)
        else if StatusExcludes(s.status) then StatusNotRouted(s.status)
        else RouteReason.Eligible;
      Some(Candidate(id, score, s.lexical, s.semantic, excluded, reason))
  }

  // ---------------------------------------------------------------- routing

  function JudgeEntry(registry: Registry, queryTerms: set<string>, id: string): Option<Candidate> {
    if id in registry.subskills then CandidateOf(id, SignalsOf(queryTerms, registry.subskills[id])) else None
  }

  function Judge(registry: Registry, query: string): string -> Option<Candidate> {
    (id: string) => JudgeEntry(registry, Terms(query), id)
  }

  function AllCandidates(registry: Registry, query: string): seq<Candidate> {
    Sort(Collect(SortedKeys(registry.subskills.Keys), Judge(registry, query)))
  }

  function RouteCandidates(registry: Registry, query: string, limit: nat): seq<Candidate> {
    Take(AllCandidates(registry, query), limit)
  }

  function Route(registry: Registry, query: string, limit: nat): seq<string> {
    Ids(EligibleOnly(RouteCandidates(registry, query, limit)))
  }

  // ---------------------------------------------------------------- what is routed

  lemma JudgeIsOfItsId(registry: Registry, query: string)
    ensures Judges(Judge(registry, query))
  {
  }

  /** The candidates are in strict order, and are exactly the sub-skills with a score or a negative match. */
  lemma CandidatesExact(registry: Registry, query: string)
    ensures InOrder(AllCandidates(registry, query))
    ensures forall c :: c in AllCandidates(registry, query)
                        <==> c.id in registry.subskills && Judge(registry, query)(c.id) == Some(c)
  {
    var keys, judge := SortedKeys(registry.subskills.Keys), Judge(registry, query);
    JudgeIsOfItsId(registry, query);
    CollectExact(keys, judge);
    SortExact(Collect(keys, judge));
  }

  /** Routing gives the best `limit` of the eligible candidates, although it cuts the list before it drops the
      excluded. */
  lemma RouteTakesBest(registry: Registry, query: string, limit: nat)
    ensures Route(registry, query, limit) == Ids(Take(EligibleOnly(AllCandidates(registry, query)), limit))
  {
    CandidatesExact(registry, query);
    CutBeforeDropping(AllCandidates(registry, query), limit);
  }

  predicate Routable(s: Signals) {
    s.negative == 0 && !StatusExcludes(s.status) && Merit(s) > s.riskPenalty
  }

  lemma CandidateOfRoutable(id: string, s: Signals)
    ensures CandidateOf(id, s).Some? && !CandidateOf(id, s).value.excluded <==> Routable(s)
  {
  }

  /** With room for all, a sub-skill is routed if and only if it has no negative match, a status open to routing, and
      merit beyond its risk. */
  lemma RoutedIff(registry: Registry, query: string, id: string)
    ensures id in Ids(EligibleOnly(AllCandidates(registry, query)))
            <==> id in registry.subskills && Routable(SignalsOf(Terms(query), registry.subskills[id]))
  {
    CandidatesExact(registry, query);
    JudgeIsOfItsId(registry, query);
    EligibleIds(AllCandidates(registry, query), registry.subskills.Keys, Judge(registry, query), id);
    if id in registry.subskills {
      CandidateOfRoutable(id, SignalsOf(Terms(query), registry.subskills[id]));
    }
  }

  /** A sub-skill that shares no term with the query is routed all the same, once its record of success outweighs its
      risk: the merit is then that record and nothing else. */
  lemma UnmatchedIsRoutedIff(registry: Registry, query: string, id: string)
    requires id in registry.subskills && RouteScore(Terms(query), registry.subskills[id]) == 0
    requires TermOverlap(Terms(query), registry.subskills[id].subskill.activationPositive) == 0
    ensures var s := SignalsOf(Terms(query), registry.subskills[id]);
            id in Ids(EligibleOnly(AllCandidates(registry, query)))
            <==> s.negative == 0 && !StatusExcludes(s.status) && SuccessPoints(s.success, s.failures) > s.riskPenalty
  {
    RoutedIff(registry, query, id);
    OnlySuccessCounts(SignalsOf(Terms(query), registry.subskills[id]));
  }

  lemma OnlySuccessCounts(s: Signals)
    requires s.lexical == 0 && s.positive == 0 && s.semantic == Ratio(0, 1)
    ensures Merit(s) == SuccessPoints(s.success, s.failures)
  {
  }

  /** Rounding gives the nearest whole number, the upper one of two equally near. */
  lemma RoundedIsNearest(ratio: Ratio, scale: nat, points: nat)
    requires ratio.whole > 0
    ensures points == Rounded(ratio, scale)
            <==> ratio.whole * (2 * points) <= 2 * scale * ratio.part + ratio.whole < ratio.whole * (2 * points + 2)
  {
    var whole, sum := ratio.whole, 2 * scale * ratio.part + ratio.whole;
    var q := sum / (2 * whole);
    DivisionBounds(sum, 2 * whole, q);
    assert q * (2 * whole) == whole * (2 * q) && (q + 1) * (2 * whole) == whole * (2 * q + 2);
    if points > q { TimesAtLeast(2 * points, 2 * q + 2, whole); }
    if points < q { TimesAtLeast(2 * q, 2 * points + 2, whole); }
  }

  /** A record of success is worth at most three points, all three from five successes in six on. */
  lemma SuccessPointsRange(success: nat, failures: nat)
    ensures SuccessPoints(success, failures) <= 3
    ensures SuccessPoints(success, failures) == 3 <==> success > 0 && success >= 5 * failures
  {
    var runs := success + failures;
    if runs > 0 {
      var points := Rounded(Ratio(success, runs), 3);
      DivisionBounds(6 * success + runs, 2 * runs, points);
      if points >= 4 { TimesAtLeast(points, 4, 2 * runs); }
      if points <= 2 { TimesAtLeast(3, points + 1, 2 * runs); } else { TimesAtLeast(points, 3, 2 * runs); }
    }
  }
}
