/** The triage run (triage.rs): routing, escalation, cross-review, attestation, auto-close, investigation. */
module Triage {
  import opened Wrappers
  import opened Envelopes
  import opened Verification
  import opened Guardrails
  import opened LlmLoop
  import opened LogMachine
  import opened LogHistory
  import opened DurableLog
  import opened AutoClose
  import ObjectKeys

  datatype Config = Config(
    agentId: string,
    investigatorAgentId: string,
    modelProvider: string,
    modelId: string,
    systemPrompt: string,
    systemPromptHash: string,
    reviewerPromptHash: string,
    investigatorPrompt: string,
    investigatorPromptHash: string,
    escalationThreshold: Score,
    noveltyThreshold: Score,
    crossReviewThreshold: Score,
    enforced: bool,
    retriesCap: u8,
    maxIterations: u8,
    investigatorMaxIterations: u8,
    hasLlm: bool,
    autoClose: AutoCloseConfig)

  datatype Review = Agrees | Disagrees(reason: string) | Unusable(error: string)

  /** One request with everything the outside world contributes to its run. */
  datatype Input = Input(
    caseId: Uuid,
    tenantId: string,
    actionId: Uuid,
    investigationId: Uuid,
    alert: Alert,
    draft: ClassifierEvidence,
    triagerPrompt: string,
    investigatorPrompt: string,
    triager: World,
    investigator: World,
    review: string -> Review,
    triageTiming: Timing,
    closeTiming: Timing,
    investigationTiming: Timing,
    triageFault: Fault,
    closeFault: Fault,
    investigationFault: Fault)

  datatype Investigation = Investigation(
    actionId: Uuid,
    verdict: Verdict,
    citations: seq<string>,
    queriedWarmTier: bool,
    error: Option<LoopError>)

  datatype TriageVerdict = TriageVerdict(
    actionId: Uuid,
    caseId: Uuid,
    verdict: Verdict,
    executionPath: ExecutionPathKind,
    calibratedConfidence: Score,
    noveltyScore: Score,
    escalated: bool,
    classifierEvidence: ClassifierEvidence,
    caseState: CaseState,
    shadowCheck: ShadowCheckDecision,
    investigation: Option<Investigation>)

  // ---- Routing ----

  function EscalationOf(cfg: Config, d: ClassifierEvidence): Option<EscalationReason>
  {
    var low, novel := d.calibratedConfidence < cfg.escalationThreshold, d.noveltyScore > cfg.noveltyThreshold;
    if !low && !novel then None
    else if novel && low then Some(BothLowConfidenceAndHighNovelty)
    else if novel then Some(HighNoveltyScore(d.noveltyScore, cfg.noveltyThreshold))
    else Some(LowCalibratedConfidence(d.calibratedConfidence, cfg.escalationThreshold))
  }

  function TriagerConfig(cfg: Config): LoopConfig
  {
    LoopConfig(Triager, cfg.enforced, cfg.retriesCap, cfg.maxIterations)
  }

  function InvestigatorConfig(cfg: Config): LoopConfig
  {
    LoopConfig(Investigator, cfg.enforced, cfg.retriesCap, cfg.investigatorMaxIterations)
  }

  function TriagerLoop(cfg: Config, inp: Input): Outcome
  {
    Loop(inp.triager, TriagerConfig(cfg), 0, Start(cfg.systemPrompt, inp.triagerPrompt))
  }

  function InvestigatorLoop(cfg: Config, inp: Input): Outcome
  {
    Loop(inp.investigator, InvestigatorConfig(cfg), 0, Start(cfg.investigatorPrompt, inp.investigatorPrompt))
  }

  function EvidenceFrom(cfg: Config, promptHash: string, r: LoopResult, review: Option<CrossReviewBlock>): LlmEvidence
  {
    LlmEvidence(cfg.modelProvider, cfg.modelId, promptHash, r.records, r.beliefs, r.citations, r.totalIterations, r.retries, review)
  }

  /** `run_review`: anything but an explicit agreement counts as disagreement. */
  function ReviewBlock(cfg: Config, review: Review): CrossReviewBlock
  {
    match review
    case Agrees => CrossReviewBlock(cfg.reviewerPromptHash, true, None)
    case Disagrees(reason) => CrossReviewBlock(cfg.reviewerPromptHash, false, Some(reason))
    case Unusable(error) => CrossReviewBlock(cfg.reviewerPromptHash, false, Some(error))
  }

  function LastBelief(r: LoopResult): string
  {
    if r.beliefs == [] then "" else r.beliefs[|r.beliefs| - 1].contentSummary
  }

  predicate NeedsReview(cfg: Config, inp: Input, r: LoopResult)
  {
    r.verdict == TruePositive && cfg.enforced && inp.draft.calibratedConfidence >= cfg.crossReviewThreshold
  }

  datatype Decision = Decision(verdict: Verdict, path: ExecutionPathKind, evidence: EvidenceBlock)

  /** `try_llm_escalation`: the loop, and for a confident true positive a second opinion. */
  function Escalation(cfg: Config, inp: Input, why: EscalationReason): Option<Decision>
  {
    if !cfg.hasLlm then None
    else match TriagerLoop(cfg, inp).result
      case Err(_) => None
      case Ok(r) =>
        if NeedsReview(cfg, inp, r) then
          var block := ReviewBlock(cfg, inp.review(LastBelief(r)));
          Some(Decision(if block.agrees then TruePositive else NeedsInvestigation, HybridPath,
                        HybridBlock(HybridEvidence(inp.draft, EvidenceFrom(cfg, cfg.systemPromptHash, r, Some(block)), why))))
        else
          Some(Decision(r.verdict, HybridPath,
                        HybridBlock(HybridEvidence(inp.draft, EvidenceFrom(cfg, cfg.systemPromptHash, r, None), why))))
  }

  function Decide(cfg: Config, inp: Input): Decision
  {
    match EscalationOf(cfg, inp.draft)
    case Some(why) =>
      (match Escalation(cfg, inp, why)
       case Some(d) => d
       case None => Decision(EscalatedStub, HybridPath, EscalatedStubBlock(inp.draft, why)))
    case None =>
      Decision(if inp.draft.calibratedConfidence >= 0.5 then TruePositive else Benign,
                        ClassifierPath, ClassifierBlock(inp.draft))
  }

  // ---- What a run writes ----

  function Context(cfg: Config, inp: Input): CaseContext
  {
    CaseContext(cfg.agentId, inp.tenantId, inp.caseId, inp.actionId, inp.closeTiming)
  }

  function TriageBody(cfg: Config, inp: Input, d: Decision): Body
  {
    Body("1.1", inp.actionId, inp.caseId, inp.tenantId, cfg.agentId, d.path, d.verdict, d.evidence,
         inp.triageTiming, NO_HASH, inp.triageTiming.finishedAt)
  }

  function CloseAttempt(c: Crypto, cfg: Config, inp: Input, d: Decision): AutoCloseResult
  {
    Attempt(c, cfg.autoClose, d.verdict, inp.draft.calibratedConfidence, inp.alert, inp.draft, Context(cfg, inp))
  }

  predicate Investigates(cfg: Config, d: Decision)
  {
    d.verdict == NeedsInvestigation && cfg.hasLlm
  }

  function InvestigationBody(cfg: Config, inp: Input, r: LoopResult): Body
  {
    Body("1.1", inp.investigationId, inp.caseId, inp.tenantId, cfg.investigatorAgentId, LlmPath, r.verdict,
         LlmBlock(EvidenceFrom(cfg, cfg.investigatorPromptHash, r, None)), inp.investigationTiming, NO_HASH,
         inp.investigationTiming.finishedAt)
  }

  /** The appends of one run, in order: the triage row, the auto-close row, the investigation row. */
  function EventsOf(c: Crypto, cfg: Config, inp: Input, d: Decision): seq<Event>
  {
    [AppendRow(TriageBody(cfg, inp, d), inp.triageFault)]
    + CloseEvents(inp, CloseAttempt(c, cfg, inp, d))
    + if Investigates(cfg, d) then InvestigationEvents(cfg, inp) else []
  }

  function CloseEvents(inp: Input, close: AutoCloseResult): seq<Event>
  {
    match close.envelope
    case Some(e) => [AppendRow(e.body, inp.closeFault)]
    case None => []
  }

  function InvestigationEvents(cfg: Config, inp: Input): seq<Event>
  {
    match InvestigatorLoop(cfg, inp).result
    case Ok(r) => [AppendRow(InvestigationBody(cfg, inp, r), inp.investigationFault)]
    case Err(_) => []
  }

  function InvestigationOf(cfg: Config, inp: Input): Investigation
  {
    match InvestigatorLoop(cfg, inp).result
    case Ok(r) =>
      Investigation(inp.investigationId, r.verdict, r.citations,
                    exists i | 0 <= i < |r.records| :: r.records[i].toolId == "query_warm_tier", None)
    case Err(e) => Investigation(inp.investigationId, NeedsInvestigation, [], false, Some(e))
  }

  function Report(c: Crypto, cfg: Config, inp: Input, d: Decision): TriageVerdict
  {
    var close := CloseAttempt(c, cfg, inp, d);
    TriageVerdict(inp.actionId, inp.caseId, d.verdict, d.path, inp.draft.calibratedConfidence, inp.draft.noveltyScore,
                  EscalationOf(cfg, inp.draft).Some?, inp.draft, close.caseState, close.shadowCheck,
                  if Investigates(cfg, d) then Some(InvestigationOf(cfg, inp)) else None)
  }

  lemma EventsInOrder(c: Crypto, cfg: Config, inp: Input, d: Decision, events: seq<Event>)
    requires var first := [] + [AppendRow(TriageBody(cfg, inp, d), inp.triageFault)];
             var second := first + CloseEvents(inp, CloseAttempt(c, cfg, inp, d));
             events == if Investigates(cfg, d) then second + InvestigationEvents(cfg, inp) else second
    ensures events == EventsOf(c, cfg, inp, d)
  {
  }

  // ---- The engine ----

  ghost predicate ProperIds(inp: Input)
  {
    IsUuid(inp.actionId) && IsUuid(inp.investigationId)
  }

  class TriageEngine {
    const cfg: Config
    const log: AttestationLog

    constructor (cfg: Config, log: AttestationLog)
      ensures this.cfg == cfg && this.log == log
    {
      this.cfg := cfg;
      this.log := log;
    }

    method TryLlmEscalation(inp: Input, why: EscalationReason) returns (d: Option<Decision>)
      ensures d == Escalation(cfg, inp, why)
    {
      if !cfg.hasLlm {
        return None;
      }
      var outcome := RunLlmLoop(inp.triager, TriagerConfig(cfg), cfg.systemPrompt, inp.triagerPrompt);
      if outcome.result.Err? {
        return None;
      }
      var r := outcome.result.value;
      var verdict := r.verdict;
      var evidence := EvidenceFrom(cfg, cfg.systemPromptHash, r, None);
      if verdict == TruePositive && cfg.enforced {
        if inp.draft.calibratedConfidence >= cfg.crossReviewThreshold {
          var block := ReviewBlock(cfg, inp.review(LastBelief(r)));
          evidence := evidence.(crossReview := Some(block));
          if !block.agrees {
            verdict := NeedsInvestigation;
          }
        }
      }
      return Some(Decision(verdict, HybridPath, HybridBlock(HybridEvidence(inp.draft, evidence, why))));
    }

    /** The hybrid routing decision. */
    method Route(inp: Input) returns (d: Decision, escalated: bool)
      ensures d == Decide(cfg, inp) && escalated == EscalationOf(cfg, inp.draft).Some?
    {
      var why := EscalationOf(cfg, inp.draft);
      if why.Some? {
        var answer := TryLlmEscalation(inp, why.value);
        if answer.Some? {
          return answer.value, true;
        }
        return Decision(EscalatedStub, HybridPath, EscalatedStubBlock(inp.draft, why.value)), true;
      }
      return Decision(if inp.draft.calibratedConfidence >= 0.5 then TruePositive else Benign,
                        ClassifierPath, ClassifierBlock(inp.draft)), false;
    }

    method RunTriage(inp: Input) returns (v: TriageVerdict)
      requires log.Valid() && ProperIds(inp) && |log.durable| + 4 < ObjectKeys.USIZE_LIMIT
      modifies log
      ensures log.Valid()
      ensures v == Report(log.crypto, cfg, inp, Decide(cfg, inp))
      ensures log.State() == Run(log.crypto, log.hasStore, old(log.State()), EventsOf(log.crypto, cfg, inp, Decide(cfg, inp))).state
    {
      var d, escalated := Route(inp);
      v := Conclude(inp, d, escalated);
    }

    /** Everything after the routing decision. */
    method Conclude(inp: Input, d: Decision, escalated: bool) returns (v: TriageVerdict)
      requires log.Valid() && ProperIds(inp) && |log.durable| + 4 < ObjectKeys.USIZE_LIMIT
      requires escalated == EscalationOf(cfg, inp.draft).Some?
      modifies log
      ensures log.Valid()
      ensures v == Report(log.crypto, cfg, inp, d)
      ensures log.State() == Run(log.crypto, log.hasStore, old(log.State()), EventsOf(log.crypto, cfg, inp, d)).state
    {
      ghost var s0 := log.State();
      ghost var events := Append(s0, [], TriageBody(cfg, inp, d), inp.triageFault);

      var close;
      close, events := CloseCase(inp, d, s0, events);

      var investigation := None;
      if Investigates(cfg, d) {
        var summary;
        summary, events := Investigate(inp, s0, events);
        investigation := Some(summary);
      }
      EventsInOrder(log.crypto, cfg, inp, d, events);
      return TriageVerdict(inp.actionId, inp.caseId, d.verdict, d.path, inp.draft.calibratedConfidence, inp.draft.noveltyScore,
                           escalated, inp.draft, close.caseState, close.shadowCheck, investigation);
    }

    /** The attempt to close the case, and its row if it succeeds. */
    method CloseCase(inp: Input, d: Decision, ghost s0: LogState, ghost events: seq<Event>)
      returns (close: AutoCloseResult, ghost events': seq<Event>)
      requires log.Valid() && ProperIds(inp) && |log.durable| + 1 < ObjectKeys.USIZE_LIMIT
      requires log.State() == Run(log.crypto, log.hasStore, s0, events).state
      modifies log
      ensures log.Valid() && |log.durable| <= |old(log.durable)| + 1
      ensures close == CloseAttempt(log.crypto, cfg, inp, d)
      ensures events' == events + CloseEvents(inp, close)
      ensures log.State() == Run(log.crypto, log.hasStore, s0, events').state
    {
      close := TryAutoClose(log.crypto, cfg.autoClose, d.verdict, inp.draft.calibratedConfidence, inp.alert, inp.draft, Context(cfg, inp));
      events' := events;
      if close.envelope.Some? {
        events' := Append(s0, events, close.envelope.value.body, inp.closeFault);
      }
      assert events + [] == events;
    }

    /** The automatic investigation of a case that needs one, and its own row. */
    method Investigate(inp: Input, ghost s0: LogState, ghost events: seq<Event>)
      returns (investigation: Investigation, ghost events': seq<Event>)
      requires log.Valid() && ProperIds(inp) && |log.durable| + 1 < ObjectKeys.USIZE_LIMIT
      requires log.State() == Run(log.crypto, log.hasStore, s0, events).state
      modifies log
      ensures log.Valid()
      ensures investigation == InvestigationOf(cfg, inp)
      ensures events' == events + InvestigationEvents(cfg, inp)
      ensures log.State() == Run(log.crypto, log.hasStore, s0, events').state
    {
      var outcome := RunInvestigatorLlmLoop(inp.investigator, InvestigatorConfig(cfg), cfg.investigatorPrompt, inp.investigatorPrompt);
      if outcome.result.Err? {
        assert events + [] == events;
        return Investigation(inp.investigationId, NeedsInvestigation, [], false, Some(outcome.result.error)), events;
      }
      var r := outcome.result.value;
      events' := Append(s0, events, InvestigationBody(cfg, inp, r), inp.investigationFault);
      investigation := Investigation(inp.investigationId, r.verdict, r.citations,
                                     exists i | 0 <= i < |r.records| :: r.records[i].toolId == "query_warm_tier", None);
    }

    /** One append; a failure is logged and otherwise ignored. */
    method Append(ghost s0: LogState, ghost events: seq<Event>, body: Body, fault: Fault) returns (ghost events': seq<Event>)
      requires log.Valid() && IsUuid(body.agentActionId) && |log.durable| + 1 < ObjectKeys.USIZE_LIMIT
      requires log.State() == Run(log.crypto, log.hasStore, s0, events).state
      modifies log
      ensures log.Valid() && |log.durable| <= |old(log.durable)| + 1
      ensures events' == events + [AppendRow(body, fault)]
      ensures log.State() == Run(log.crypto, log.hasStore, s0, events').state
    {
      events' := events + [AppendRow(body, fault)];
      RunSnoc(log.crypto, log.hasStore, s0, events, AppendRow(body, fault));
      var ignored := log.SignAndAppend(body, fault);
    }
  }
}
