/** Authorising a tool call: deny list, sudo, command gates, the risky-tool gate, and what each spends. */
module ToolAuthorization {
  import opened Prelude
  import opened TextSpace
  import opened CommandRules
  import opened ApprovalLedger

  datatype Tool = Tool(name: string, risky: bool)

  datatype PermissionPolicy = PermissionPolicy(
    allowRiskyTools: bool,
    requireHumanApproval: bool,
    bypass: bool,
    allowedCommands: set<string>,
    deniedTools: set<string>)

  /** What the configured network policy says about the command at the time of the call. */
  datatype NetworkVerdict = NetworkOpen | NetworkNeedsApproval | NetworkMisconfigured

  datatype Call = Call(tool: Tool, args: Args, network: NetworkVerdict)

  datatype Refusal =
    | DeniedByPolicy
    | SudoRejected
    | ApprovalNeeded(id: string, reason: string)
    | NetworkConfigError
    | NeedsPermission
    | NotAllowListed(executable: string)

  datatype Outcome = Authorized | Refused(refusal: Refusal)

  // ---------------------------------------------------------------- reading the arguments

  function Texts(items: seq<Json>): seq<string> {
    if items == [] then []
    else (if items[0].JsonText? then [items[0].text] else []) + Texts(items[1..])
  }

  function CommandItems(args: Args): seq<Json> {
    if "command" in args && args["command"].JsonList? then args["command"].items else []
  }

  function CommandParts(args: Args): seq<string> {
    Texts(CommandItems(args))
  }

  function FirstText(args: Args): Option<string> {
    var items := CommandItems(args);
    if items != [] && items[0].JsonText? then Some(items[0].text) else None
  }

  function NormalizeCommandName(command: string): Option<string> {
    var name := Trim(command);
    if name == "" || name[0] == '-' || '/' in name || '\\' in name then None else Some(name)
  }

  function CommandName(args: Args): Option<string> {
    match FirstText(args)
    case None => None
    case Some(text) => NormalizeCommandName(text)
  }

  function RawExecutable(args: Args): string {
    match FirstText(args)
    case None => ""
    case Some(text) => text
  }

  predicate CommandPolicyTool(name: string) {
    name == "run_command" || name == "run_privileged_command"
  }

  predicate SudoGuardedTool(name: string) {
    name == "run_command" || name == "run_privileged_command" || name == "run_tests"
  }

  predicate MentionsSudo(part: string) {
    var word := Trim(part);
    || word == "sudo" || EndsWith(word, "/sudo") || StartsWith(word, "sudo ")
    || Contains(word, " sudo ") || Contains(word, ";sudo ") || Contains(word, "; sudo ")
    || Contains(word, "&&sudo ") || Contains(word, "&& sudo ") || Contains(word, "|sudo ") || Contains(word, "| sudo ")
  }

  predicate SudoRejects(call: Call) {
    && SudoGuardedTool(call.tool.name)
    && exists i :: 0 <= i < |CommandParts(call.args)| && MentionsSudo(CommandParts(call.args)[i])
  }

  // ---------------------------------------------------------------- what a call is asked for

  datatype Ask = NoAsk | AskFor(riskLabel: string, reason: string) | AskFails

  /** The first command gate that applies: allow list, approval rules, network. */
  function CommandAsk(policy: PermissionPolicy, call: Call): Ask {
    if !CommandPolicyTool(call.tool.name) then NoAsk
    else
      var parts := CommandParts(call.args);
      match (CommandName(call.args), CommandApprovalRequirement(parts))
      case (Some(name), requirement) =>
        if name !in policy.allowedCommands then AskFor("command-allow", AllowReason(name))
        else RuleAsk(requirement, call)
      case (None, requirement) => RuleAsk(requirement, call)
  }

  function RuleAsk(requirement: Option<Requirement>, call: Call): Ask {
    match requirement
    case Some(r) => AskFor(r.riskLabel, r.reason)
    case None =>
      match call.network
      case NetworkOpen => NoAsk
      case NetworkMisconfigured => AskFails
      case NetworkNeedsApproval =>
        AskFor("command-network", NetworkReason(call))
  }

  function NetworkReason(call: Call): string {
    "Command network access requires human approval: " + CompactDisplay(CommandParts(call.args))
  }

  function AllowReason(name: string): string {
    "Shell command is not allow-listed: " + name + ". Approve once or allow this command for the session."
  }

  predicate RiskyAsk(policy: PermissionPolicy, call: Call) {
    policy.requireHumanApproval && call.tool.risky && !policy.allowRiskyTools
  }

  function IdOf(keying: Keying, call: Call): string {
    keying.RequestId(call.tool.name, call.args)
  }

  /** A gate that asks: spends a grant, or files a request. */
  function Passed(keying: Keying, s: State, call: Call, riskLabel: string, reason: string): (bool, State) {
    var id := IdOf(keying, call);
    if CanConsume(keying, s, id, call.tool.name, call.args)
    then (true, ConsumedState(keying, s, id, call.tool.name, call.args))
    else (false, Enqueued(s, Request(id, reason, call.tool.name, call.args, riskLabel)))
  }

  function Authorize(keying: Keying, policy: PermissionPolicy, s: State, call: Call): (Outcome, State) {
    if policy.bypass then (Authorized, s)
    else if call.tool.name in policy.deniedTools then (Refused(DeniedByPolicy), s)
    else if SudoRejects(call) then (Refused(SudoRejected), s)
    else AfterAsk(keying, policy, s, call, CommandAsk(policy, call))
  }

  function AfterAsk(keying: Keying, policy: PermissionPolicy, s: State, call: Call, ask: Ask): (Outcome, State) {
    match ask
    case AskFails => (Refused(NetworkConfigError), s)
    case NoAsk => AfterCommand(keying, policy, s, call, false)
    case AskFor(riskLabel, reason) =>
      var (passed, s') := Passed(keying, s, call, riskLabel, reason);
      if passed then AfterCommand(keying, policy, s', call, true)
      else (Refused(ApprovalNeeded(IdOf(keying, call), reason)), s')
  }

  /** The risky-tool gate and the closing checks; `granted` says that a command gate spent a grant. */
  function AfterCommand(keying: Keying, policy: PermissionPolicy, s: State, call: Call,
                        granted: bool): (Outcome, State)
  {
    if RiskyAsk(policy, call) then
      var reason := "Risky tool requires human approval: " + call.tool.name;
      var (passed, s') := Passed(keying, s, call, RiskLabel(call.tool.name), reason);
      (if passed then Authorized else Refused(ApprovalNeeded(IdOf(keying, call), reason)), s')
    else if call.tool.risky && !policy.allowRiskyTools && !granted then (Refused(NeedsPermission), s)
    else if CommandPolicyTool(call.tool.name) && !granted && RawExecutable(call.args) !in policy.allowedCommands then
      (Refused(NotAllowListed(RawExecutable(call.args))), s)
    else (Authorized, s)
  }

  /** The allow list asks about a program that it does not have. */
  predicate AllowListAsks(policy: PermissionPolicy, call: Call) {
    CommandName(call.args).Some? && CommandName(call.args).value !in policy.allowedCommands
  }

  lemma AllowGateAsks(policy: PermissionPolicy, call: Call)
    requires CommandPolicyTool(call.tool.name) && AllowListAsks(policy, call)
    ensures CommandAsk(policy, call) == AskFor("command-allow", AllowReason(CommandName(call.args).value))
  {
  }

  lemma RuleGateAsks(policy: PermissionPolicy, call: Call)
    requires CommandPolicyTool(call.tool.name) && !AllowListAsks(policy, call)
    requires CommandApprovalRequirement(CommandParts(call.args)).Some?
    ensures var requirement := CommandApprovalRequirement(CommandParts(call.args)).value;
            CommandAsk(policy, call) == AskFor(requirement.riskLabel, requirement.reason)
  {
  }

  lemma NetworkGateAsks(policy: PermissionPolicy, call: Call)
    requires CommandPolicyTool(call.tool.name) && !AllowListAsks(policy, call)
    requires CommandApprovalRequirement(CommandParts(call.args)).None?
    ensures CommandAsk(policy, call)
         == match call.network
            case NetworkOpen => NoAsk
            case NetworkMisconfigured => AskFails
            case NetworkNeedsApproval => AskFor("command-network", NetworkReason(call))
  {
  }

  class GuardrailEngine {
    const policy: PermissionPolicy
    const approvals: Ledger

    constructor (policy: PermissionPolicy, approvals: Ledger)
      ensures this.policy == policy && this.approvals == approvals
    {
      this.policy, this.approvals := policy, approvals;
    }

    /** Consume an approval of the call, or file a request for one. */
    method PassGate(call: Call, riskLabel: string, reason: string) returns (passed: bool)
      modifies approvals
      ensures (passed, approvals.Snapshot())
              == Passed(approvals.keying, old(approvals.Snapshot()), call, riskLabel, reason)
    {
      var id := IdOf(approvals.keying, call);
      passed := approvals.ConsumeApproval(id, call.tool.name, call.args);
      if !passed {
        approvals.Enqueue(Request(id, reason, call.tool.name, call.args, riskLabel));
      }
    }

    method AuthorizeTool(call: Call) returns (outcome: Outcome)
      modifies approvals
      ensures (outcome, approvals.Snapshot()) == Authorize(approvals.keying, policy, old(approvals.Snapshot()), call)
    {
      if policy.bypass {
        return Authorized;
      }
      if call.tool.name in policy.deniedTools {
        return Refused(DeniedByPolicy);
      }
      var sudo := RejectUnsafeSudoInvocation(call);
      if sudo {
        return Refused(SudoRejected);
      }
      var refused, granted := CommandGates(call);
      if refused.Some? {
        return Refused(refused.value);
      }
      outcome := RiskyGate(call, granted);
    }

    method RejectUnsafeSudoInvocation(call: Call) returns (rejects: bool)
      ensures rejects == SudoRejects(call)
    {
      if !SudoGuardedTool(call.tool.name) {
        return false;
      }
      var parts := CommandParts(call.args);
      var i := 0;
      while i < |parts|
        invariant 0 <= i <= |parts|
        invariant forall j :: 0 <= j < i ==> !MentionsSudo(parts[j])
      {
        if MentionsSudo(parts[i]) {
          return true;
        }
        i := i + 1;
      }
      rejects := false;
    }

    /** One command gate that asks: it grants, or it refuses and files a request. */
    method AskGate(call: Call, riskLabel: string, reason: string) returns (refused: Option<Refusal>)
      modifies approvals
      ensures AfterAsk(approvals.keying, policy, old(approvals.Snapshot()), call, AskFor(riskLabel, reason))
           == if refused.Some? then (Refused(refused.value), approvals.Snapshot())
              else AfterCommand(approvals.keying, policy, approvals.Snapshot(), call, true)
    {
      var granted := PassGate(call, riskLabel, reason);
      refused := if granted then None else Some(ApprovalNeeded(IdOf(approvals.keying, call), reason));
    }

    /** The three command gates, in order; each is skipped once one has been granted. */
    method CommandGates(call: Call) returns (refused: Option<Refusal>, granted: bool)
      modifies approvals
      ensures AfterAsk(approvals.keying, policy, old(approvals.Snapshot()), call, CommandAsk(policy, call))
           == if refused.Some? then (Refused(refused.value), approvals.Snapshot())
              else AfterCommand(approvals.keying, policy, approvals.Snapshot(), call, granted)
    {
      refused, granted := None, false;
      var executable := CommandName(call.args);
      if CommandPolicyTool(call.tool.name) && executable.Some? && executable.value !in policy.allowedCommands {
        AllowGateAsks(policy, call);
        refused := AskGate(call, "command-allow", AllowReason(executable.value));
        return refused, refused.None?;
      }
      if CommandPolicyTool(call.tool.name) {
        var requirement := CommandApprovalRequirement(CommandParts(call.args));
        if requirement.Some? {
          RuleGateAsks(policy, call);
          refused := AskGate(call, requirement.value.riskLabel, requirement.value.reason);
          return refused, refused.None?;
        }
      }
      if CommandPolicyTool(call.tool.name) {
        NetworkGateAsks(policy, call);
        if call.network.NetworkMisconfigured? {
          return Some(NetworkConfigError), false;
        }
        if call.network.NetworkNeedsApproval? {
          refused := AskGate(call, "command-network", NetworkReason(call));
          return refused, refused.None?;
        }
      }
    }

    method RiskyGate(call: Call, grantedBefore: bool) returns (outcome: Outcome)
      modifies approvals
      ensures (outcome, approvals.Snapshot())
           == AfterCommand(approvals.keying, policy, old(approvals.Snapshot()), call, grantedBefore)
    {
      var granted := grantedBefore;
      if policy.requireHumanApproval && call.tool.risky && !policy.allowRiskyTools {
        var reason := "Risky tool requires human approval: " + call.tool.name;
        granted := PassGate(call, RiskLabel(call.tool.name), reason);
        if !granted {
          return Refused(ApprovalNeeded(IdOf(approvals.keying, call), reason));
        }
      }
      if call.tool.risky && !policy.allowRiskyTools && !granted {
        return Refused(NeedsPermission);
      }
      if CommandPolicyTool(call.tool.name) && !granted {
        var executable := RawExecutable(call.args);
        if executable !in policy.allowedCommands {
          return Refused(NotAllowListed(executable));
        }
      }
      outcome := Authorized;
    }
  }

  // ---------------------------------------------------------------- when a call is authorised

  /** The checks before any gate let the call through. */
  predicate ReachesGates(policy: PermissionPolicy, call: Call) {
    !policy.bypass && call.tool.name !in policy.deniedTools && !SudoRejects(call)
  }

  predicate NeedsApproval(policy: PermissionPolicy, call: Call) {
    CommandAsk(policy, call).AskFor? || RiskyAsk(policy, call)
  }

  predicate BothGates(policy: PermissionPolicy, call: Call) {
    CommandAsk(policy, call).AskFor? && RiskyAsk(policy, call)
  }

  predicate SessionGranted(keying: Keying, s: State, call: Call) {
    HasSessionGrant(keying, s, call.tool.name, call.args)
  }

  predicate OnceGranted(keying: Keying, s: State, call: Call) {
    IdOf(keying, call) in s.approvedOnce
  }

  lemma AfterAskIff(keying: Keying, policy: PermissionPolicy, s: State, call: Call, ask: Ask)
    ensures AfterAsk(keying, policy, s, call, ask).0.Authorized? <==>
              && !ask.AskFails?
              && if ask.AskFor? || RiskyAsk(policy, call) then
                   SessionGranted(keying, s, call)
                   || (OnceGranted(keying, s, call) && !(ask.AskFor? && RiskyAsk(policy, call)))
                 else
                   && !(call.tool.risky && !policy.allowRiskyTools)
                   && (CommandPolicyTool(call.tool.name) ==> RawExecutable(call.args) in policy.allowedCommands)
  {
  }

  /**
   Exactly when a call is authorised.  A call that one gate asks about needs a session grant or a
   one-time approval; a call that both a command gate and the risky-tool gate ask about needs a session
   grant, because the first gate spends the one-time approval.
   */
  lemma AuthorizedIff(keying: Keying, policy: PermissionPolicy, s: State, call: Call)
    ensures Authorize(keying, policy, s, call).0.Authorized? <==>
              || policy.bypass
              || (&& ReachesGates(policy, call)
                  && !CommandAsk(policy, call).AskFails?
                  && if NeedsApproval(policy, call) then
                       SessionGranted(keying, s, call) || (OnceGranted(keying, s, call) && !BothGates(policy, call))
                     else
                       && !(call.tool.risky && !policy.allowRiskyTools)
                       && (CommandPolicyTool(call.tool.name) ==> RawExecutable(call.args) in policy.allowedCommands))
  {
    AfterAskIff(keying, policy, s, call, CommandAsk(policy, call));
  }

  lemma AfterAskRefusalQueues(keying: Keying, policy: PermissionPolicy, s: State, call: Call, ask: Ask)
    requires !ask.AskFails? && (ask.AskFor? || RiskyAsk(policy, call)) && !SessionGranted(keying, s, call)
    ensures var (outcome, s') := AfterAsk(keying, policy, s, call, ask);
            && IdOf(keying, call) !in s'.approvedOnce
            && s'.approvedOnce <= s.approvedOnce
            && s'.approvedForSession == s.approvedForSession
            && (outcome.Authorized? ==> IdOf(keying, call) !in s'.pending)
            && (!outcome.Authorized? ==>
                  && outcome.refusal.ApprovalNeeded? && outcome.refusal.id == IdOf(keying, call)
                  && IdOf(keying, call) in s'.pending)
  {
  }

  /**
   Without a session grant, a call that needs approval leaves no one-time approval of itself behind:
   either it was spent on this call, which went through, or the call is refused and its request pending.
   */
  lemma ApprovalIsSpentOrQueued(keying: Keying, policy: PermissionPolicy, s: State, call: Call)
    requires ReachesGates(policy, call) && !CommandAsk(policy, call).AskFails?
    requires NeedsApproval(policy, call) && !SessionGranted(keying, s, call)
    ensures var (outcome, s') := Authorize(keying, policy, s, call);
            && IdOf(keying, call) !in s'.approvedOnce
            && (outcome.Authorized? ==> IdOf(keying, call) !in s'.pending)
            && (!outcome.Authorized? ==>
                  && outcome.refusal.ApprovalNeeded? && outcome.refusal.id == IdOf(keying, call)
                  && IdOf(keying, call) in s'.pending)
  {
    AfterAskRefusalQueues(keying, policy, s, call, CommandAsk(policy, call));
  }

  /** One approval, then the same call twice: the first goes through unless both gates apply, the second is queued
      again. */
  lemma OneApprovalOneCall(keying: Keying, policy: PermissionPolicy, s: State, call: Call)
    requires ReachesGates(policy, call) && !CommandAsk(policy, call).AskFails?
    requires NeedsApproval(policy, call) && !SessionGranted(keying, s, call)
    requires IdOf(keying, call) in s.pending
    ensures var approved := OnceApproved(s, IdOf(keying, call));
            var (first, s1) := Authorize(keying, policy, approved, call);
            var (second, s2) := Authorize(keying, policy, s1, call);
            && (first.Authorized? <==> !BothGates(policy, call))
            && second.Refused? && second.refusal.ApprovalNeeded? && IdOf(keying, call) in s2.pending
  {
    var approved := OnceApproved(s, IdOf(keying, call));
    AuthorizedIff(keying, policy, approved, call);
    ApprovalIsSpentOrQueued(keying, policy, approved, call);
    AfterAskRefusalQueues(keying, policy, approved, call, CommandAsk(policy, call));
    var s1 := Authorize(keying, policy, approved, call).1;
    assert !SessionGranted(keying, s1, call);
    AuthorizedIff(keying, policy, s1, call);
    ApprovalIsSpentOrQueued(keying, policy, s1, call);
  }

  // ---------------------------------------------------------------- accounting over whole runs

  /** A step of a run: an operation on the ledger, or a call under the policy then in force. */
  datatype EngineOp = LedgerOp(op: Op) | AuthorizeOp(policy: PermissionPolicy, call: Call)

  function AfterStep(keying: Keying, s: State, step: EngineOp): State {
    match step
    case LedgerOp(op) => After(keying, s, op)
    case AuthorizeOp(policy, call) => Authorize(keying, policy, s, call).1
  }

  function EngineRun(keying: Keying, steps: seq<EngineOp>): State {
    if steps == [] then EMPTY
    else AfterStep(keying, EngineRun(keying, steps[..|steps| - 1]), steps[|steps| - 1])
  }

  /** The step authorises a call under `id` that needed approval and had no session grant to fall back on. */
  predicate UsesApproval(keying: Keying, s: State, step: EngineOp, id: string) {
    && step.AuthorizeOp? && !step.policy.bypass
    && IdOf(keying, step.call) == id
    && NeedsApproval(step.policy, step.call)
    && !SessionGranted(keying, s, step.call)
    && Authorize(keying, step.policy, s, step.call).0.Authorized?
  }

  predicate GivesApproval(s: State, step: EngineOp, id: string) {
    step == LedgerOp(DoApproveOnce(id)) && id in s.pending
  }

  function Uses(keying: Keying, steps: seq<EngineOp>, id: string): nat {
    if steps == [] then 0
    else
      var n := |steps| - 1;
      Uses(keying, steps[..n], id)
        + (if UsesApproval(keying, EngineRun(keying, steps[..n]), steps[n], id) then 1 else 0)
  }

  function Approvals(keying: Keying, steps: seq<EngineOp>, id: string): nat {
    if steps == [] then 0
    else
      var n := |steps| - 1;
      Approvals(keying, steps[..n], id) + (if GivesApproval(EngineRun(keying, steps[..n]), steps[n], id) then 1 else 0)
  }

  lemma AfterAskOnlySpends(keying: Keying, policy: PermissionPolicy, s: State, call: Call, ask: Ask)
    ensures AfterAsk(keying, policy, s, call, ask).1.approvedOnce <= s.approvedOnce
  {
  }

  lemma StepAccounts(keying: Keying, s: State, step: EngineOp, id: string)
    ensures id in AfterStep(keying, s, step).approvedOnce ==> id in s.approvedOnce || GivesApproval(s, step, id)
    ensures UsesApproval(keying, s, step, id) ==>
              id in s.approvedOnce && id !in AfterStep(keying, s, step).approvedOnce && !GivesApproval(s, step, id)
  {
    if step.AuthorizeOp? {
      AfterAskOnlySpends(keying, step.policy, s, step.call, CommandAsk(step.policy, step.call));
      if UsesApproval(keying, s, step, id) {
        AuthorizedIff(keying, step.policy, s, step.call);
        ApprovalIsSpentOrQueued(keying, step.policy, s, step.call);
      }
    }
  }

  /**
   Over any run, the calls under an id that went through on a one-time approval, plus the approval
   still unspent, never outnumber the one-time approvals given for that id.
   */
  lemma {:induction false} ApprovalsCoverUses(keying: Keying, steps: seq<EngineOp>, id: string)
    ensures Uses(keying, steps, id) + (if id in EngineRun(keying, steps).approvedOnce then 1 else 0)
         <= Approvals(keying, steps, id)
    decreases |steps|
  {
    if steps != [] {
      var n := |steps| - 1;
      ApprovalsCoverUses(keying, steps[..n], id);
      StepAccounts(keying, EngineRun(keying, steps[..n]), steps[n], id);
    }
  }

  lemma PassedAccounted(keying: Keying, s: State, call: Call, riskLabel: string, reason: string)
    requires Accounted(s)
    ensures Accounted(Passed(keying, s, call, riskLabel, reason).1)
  {
    var id := IdOf(keying, call);
    ConsumedAccounted(keying, s, id, call.tool.name, call.args);
    EnqueuedAccounted(s, Request(id, reason, call.tool.name, call.args, riskLabel));
  }

  lemma AfterAskAccounted(keying: Keying, policy: PermissionPolicy, s: State, call: Call, ask: Ask)
    requires Accounted(s)
    ensures Accounted(AfterAsk(keying, policy, s, call, ask).1)
  {
    var risky := "Risky tool requires human approval: " + call.tool.name;
    PassedAccounted(keying, s, call, RiskLabel(call.tool.name), risky);
    if ask.AskFor? {
      PassedAccounted(keying, s, call, ask.riskLabel, ask.reason);
      PassedAccounted(keying, Passed(keying, s, call, ask.riskLabel, ask.reason).1, call, RiskLabel(call.tool.name),
                      risky);
    }
  }

  /** Authorising a call leaves the ledger alone, or does to it what some ask does. */
  lemma LedgerAfterCall(keying: Keying, policy: PermissionPolicy, s: State, call: Call) returns (asks: bool, ask: Ask)
    ensures Authorize(keying, policy, s, call).1 == if asks then AfterAsk(keying, policy, s, call, ask).1 else s
  {
    asks, ask := ReachesGates(policy, call), CommandAsk(policy, call);
  }

  lemma AuthorizeAccounted(keying: Keying, policy: PermissionPolicy, s: State, call: Call, after: State)
    requires Accounted(s) && after == Authorize(keying, policy, s, call).1
    ensures Accounted(after)
  {
    var asks, ask := LedgerAfterCall(keying, policy, s, call);
    if asks { AfterAskAccounted(keying, policy, s, call, ask); }
  }

  lemma EngineStepAccounted(keying: Keying, s: State, step: EngineOp)
    requires Accounted(s)
    ensures Accounted(AfterStep(keying, s, step))
  {
    match step
    case LedgerOp(op) => StepAccounted(keying, s, op);
    case AuthorizeOp(policy, call) => AuthorizeAccounted(keying, policy, s, call, AfterStep(keying, s, step));
  }

  /** Runs that mix ledger operations with authorised calls are fully accounted for by the log as well. */
  lemma {:induction false} EngineRunIsAccounted(keying: Keying, steps: seq<EngineOp>)
    ensures Accounted(EngineRun(keying, steps))
    decreases |steps|
  {
    if steps != [] {
      var n := |steps| - 1;
      EngineRunIsAccounted(keying, steps[..n]);
      EngineStepAccounted(keying, EngineRun(keying, steps[..n]), steps[n]);
    }
  }
}
