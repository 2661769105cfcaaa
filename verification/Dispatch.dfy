/** The dispatch matrix: which worker serves a polled `(phase, owner)` pair. */
module Dispatch {
  import opened Std
  import opened Tokens

  /** The phase column, decoded; any name the driver does not mention is `OtherPhase`. */
  datatype Phase =
    | PlanParallelDrafts | PlanCodexReviewPending | PlanSynthesisPending | PlanClaudeFinalizePending
    | PlanLocked | CodeImplementPending | CodeReviewLocalPending | CodeReviewFixGlobalPending
    | CodeReviewFinalPending | CodingComplete | CodingFailed
    | OtherPhase(name: string)

  datatype Agent = ClaudeAgent | CodexAgent | OtherAgent(name: string)

  function AgentName(a: Agent): string {
    match a
    case ClaudeAgent => "claude"
    case CodexAgent => "codex"
    case OtherAgent(name) => name
  }

  const SUPPORTED_PILOT := ClaudeAgent

  datatype ModelTier = Opus | Sonnet

  /** The columns of the session row that decide what the driver does. */
  datatype SessionState = SessionState(
    phase: Phase, currentOwner: Agent, pilot: Agent,
    reviewRound: u32, globalReviewRound: u32, recovery: RecoveryState)

  /** A recoverable failure in flight, and whom the turn was handed to. */
  datatype RecoveryState = RecoveryState(
    pendingFailure: Option<string>, phase: Option<Phase>, owner: Option<Agent>)
  {
    predicate IsDelegated(polledPhase: Phase, polledOwner: Agent) {
      pendingFailure.Some? && phase == Some(polledPhase) && owner == Some(polledOwner)
    }
  }

  const NO_RECOVERY := RecoveryState(None, None, None)

  datatype WorkerAction =
    | ClaudeSend(template: string, model: ModelTier)
    | ClaudeCompose(template: string, model: ModelTier)
    | TaskListBridge
    | CodexTurn
    | FinalReviewSynthetic
    | ClaudeRecoveryFixGlobal
    | Terminal
    | Anomaly

  predicate IsTerminal(phase: Phase) {
    phase == CodingComplete || phase == CodingFailed
  }

  function DelegatedCompletion(phase: Phase, owner: Agent): Option<WorkerAction> {
    match (owner, phase)
    case (CodexAgent, CodeReviewLocalPending) => Some(CodexTurn)
    case (ClaudeAgent, CodeReviewFixGlobalPending) => Some(ClaudeRecoveryFixGlobal)
    case _ => None
  }

  function Matrix(phase: Phase, owner: Agent): WorkerAction {
    match owner
    case CodexAgent =>
      (match phase
       case PlanParallelDrafts => CodexTurn
       case PlanCodexReviewPending => CodexTurn
       case CodeReviewFixGlobalPending => CodexTurn
       case _ => Anomaly)
    case ClaudeAgent =>
      (match phase
       case PlanParallelDrafts => ClaudeSend("collab-turn-plan-draft.md", Opus)
       case PlanSynthesisPending => ClaudeSend("collab-turn-plan-synthesis.md", Opus)
       case PlanClaudeFinalizePending => ClaudeCompose("collab-turn-plan-finalize.md", Opus)
       case PlanLocked => TaskListBridge
       case CodeImplementPending => ClaudeSend("collab-turn-code-implement.md", Sonnet)
       case CodeReviewLocalPending => ClaudeSend("collab-turn-review-local.md", Opus)
       case CodeReviewFinalPending => FinalReviewSynthetic
       case _ => Anomaly)
    case OtherAgent(_) => Anomaly
  }

  function ActionFor(phase: Phase, owner: Agent, recovery: RecoveryState): WorkerAction {
    if IsTerminal(phase) then Terminal
    else if recovery.IsDelegated(phase, owner) && DelegatedCompletion(phase, owner).Some? then
      DelegatedCompletion(phase, owner).value
    else Matrix(phase, owner)
  }

  function ActionOf(s: SessionState): WorkerAction {
    ActionFor(s.phase, s.currentOwner, s.recovery)
  }

  /** A recovery signal changes the dispatch for exactly two delegated pairs; it is
      never a catch-all. */
  lemma RecoveryIsNarrow(phase: Phase, owner: Agent, recovery: RecoveryState)
    ensures ActionFor(phase, owner, recovery) != ActionFor(phase, owner, NO_RECOVERY)
            <==> recovery.IsDelegated(phase, owner)
                 && ((owner == CodexAgent && phase == CodeReviewLocalPending)
                     || (owner == ClaudeAgent && phase == CodeReviewFixGlobalPending))
  {
  }

  /** The layout behind the pilot guard: outside recovery every known running phase
      has exactly one agent with a turn to run (Codex the two copilot phases, Claude the
      rest), except the blind drafts, which both write; nobody else ever has one. */
  lemma MatrixIsClaudePilot(phase: Phase, owner: Agent)
    requires !IsTerminal(phase)
    ensures var worker := ActionFor(phase, owner, NO_RECOVERY) != Anomaly;
            match owner
            case CodexAgent =>
              worker <==> phase in {PlanParallelDrafts, PlanCodexReviewPending, CodeReviewFixGlobalPending}
            case ClaudeAgent =>
              worker <==> !phase.OtherPhase? && phase !in {PlanCodexReviewPending, CodeReviewFixGlobalPending}
            case OtherAgent(_) => !worker
  {
  }

  /** The agent that runs an action is always the owner of the polled row. */
  lemma ActionAgentIsOwner(s: SessionState)
    ensures var a := ActionOf(s);
            && (a == Terminal <==> IsTerminal(s.phase))
            && (a == CodexTurn ==> s.currentOwner == CodexAgent)
            && (a !in {Terminal, Anomaly, CodexTurn} ==> s.currentOwner == ClaudeAgent)
  {
  }
}
