/** How a run routes, whom it asks, and what an automatic close rests on. */
module TriageProperties {
  import opened Wrappers
  import opened Text
  import opened Envelopes
  import opened Verification
  import opened LlmLoop
  import opened LoopProperties
  import opened LoopAnswers
  import opened LogMachine
  import opened LogRuns
  import opened AutoClose
  import opened Triage

  /** The classifier is too unsure to decide alone, or the alert is too new to it. */
  ghost predicate Escalates(cfg: Config, draft: ClassifierEvidence)
  {
    draft.calibratedConfidence < cfg.escalationThreshold || draft.noveltyScore > cfg.noveltyThreshold
  }

  ghost predicate Explains(cfg: Config, draft: ClassifierEvidence, why: EscalationReason)
  {
    var low, novel := draft.calibratedConfidence < cfg.escalationThreshold, draft.noveltyScore > cfg.noveltyThreshold;
    match why
    case LowCalibratedConfidence(score, threshold) =>
      low && !novel && score == draft.calibratedConfidence && threshold == cfg.escalationThreshold
    case HighNoveltyScore(score, threshold) =>
      novel && !low && score == draft.noveltyScore && threshold == cfg.noveltyThreshold
    case BothLowConfidenceAndHighNovelty => low && novel
  }

  /** The evidence is what the loop has recorded, under the configured model and prompt. */
  ghost predicate Documents(cfg: Config, promptHash: string, e: LlmEvidence, r: LoopResult)
  {
    && e.modelProvider == cfg.modelProvider && e.modelId == cfg.modelId && e.systemPromptHash == promptHash
    && e.toolCalls == r.records && e.intermediateBeliefs == r.beliefs && e.evidenceCitations == r.citations
    && e.totalIterations == r.totalIterations as nat && e.validationRetries == r.retries as nat
  }

  /** A true positive that is confident enough to be reviewed. */
  ghost predicate Confident(cfg: Config, inp: Input, r: LoopResult)
  {
    r.verdict == TruePositive && cfg.enforced && inp.draft.calibratedConfidence >= cfg.crossReviewThreshold
  }

  /** What the reviewer, shown the model's last belief, says to it. */
  ghost function ReviewOf(inp: Input, r: LoopResult): Review
  {
    inp.review(if |r.beliefs| == 0 then "" else r.beliefs[|r.beliefs| - 1].contentSummary)
  }

  ghost predicate Transcribes(cfg: Config, block: CrossReviewBlock, review: Review)
  {
    && block.reviewerPromptHash == cfg.reviewerPromptHash
    && (block.agrees <==> review == Agrees)
    && block.disagreementReason == (if review.Disagrees? then Some(review.reason) else if review.Unusable? then Some(review.error) else None)
  }

  /** The decision of a completed escalation: the model's verdict, unless a review was due and withheld agreement. */
  ghost predicate EscalatedBy(cfg: Config, inp: Input, d: Decision, r: LoopResult)
  {
    && d.evidence.HybridBlock?
    && var e := d.evidence.hybrid;
    && e.classifierDraft == inp.draft && Explains(cfg, inp.draft, e.escalationReason)
    && Documents(cfg, cfg.systemPromptHash, e.llmFinal, r)
    && (e.llmFinal.crossReview.Some? <==> Confident(cfg, inp, r))
    && (e.llmFinal.crossReview.Some? ==> Transcribes(cfg, e.llmFinal.crossReview.value, ReviewOf(inp, r)))
    && d.verdict == if Confident(cfg, inp, r) && ReviewOf(inp, r) != Agrees then NeedsInvestigation else r.verdict
  }

  /** The routing of a case: the classifier alone, a completed escalation, or a stub where there was none. */
  ghost predicate Routed(cfg: Config, inp: Input, d: Decision)
  {
    if !Escalates(cfg, inp.draft) then
      && d.path == ClassifierPath && d.evidence == ClassifierBlock(inp.draft)
      && d.verdict == if inp.draft.calibratedConfidence >= 0.5 then TruePositive else Benign
    else if cfg.hasLlm && TriagerLoop(cfg, inp).result.Ok? then
      d.path == HybridPath && EscalatedBy(cfg, inp, d, TriagerLoop(cfg, inp).result.value)
    else
      && d.path == HybridPath && d.verdict == EscalatedStub
      && d.evidence.EscalatedStubBlock? && d.evidence.classifierDraft == inp.draft
      && Explains(cfg, inp.draft, d.evidence.escalationReason)
  }

  lemma DecisionIsRouted(cfg: Config, inp: Input)
    ensures Routed(cfg, inp, Decide(cfg, inp))
    ensures EscalationOf(cfg, inp.draft).Some? <==> Escalates(cfg, inp.draft)
  {
    if Escalates(cfg, inp.draft) && cfg.hasLlm && TriagerLoop(cfg, inp).result.Ok? {
      EscalationIsReviewed(cfg, inp, EscalationOf(cfg, inp.draft).value);
    }
  }

  lemma EscalationIsReviewed(cfg: Config, inp: Input, why: EscalationReason)
    requires cfg.hasLlm && TriagerLoop(cfg, inp).result.Ok? && Explains(cfg, inp.draft, why)
    ensures var d := Escalation(cfg, inp, why);
            d.Some? && d.value.path == HybridPath && EscalatedBy(cfg, inp, d.value, TriagerLoop(cfg, inp).result.value)
  {
  }

  ghost predicate SummaryOf(cfg: Config, inp: Input, i: Investigation)
  {
    && i.actionId == inp.investigationId
    && match InvestigatorLoop(cfg, inp).result
       case Ok(r) =>
         && i.verdict == r.verdict && i.citations == r.citations && i.error == None
         && (i.queriedWarmTier <==> exists k :: 0 <= k < |r.records| && r.records[k].toolId == "query_warm_tier")
       case Err(e) =>
         i.verdict == NeedsInvestigation && i.citations == [] && !i.queriedWarmTier && i.error == Some(e)
  }

  /** The verdict that a run returns. */
  ghost predicate Reports(c: Crypto, cfg: Config, inp: Input, v: TriageVerdict)
  {
    && v.actionId == inp.actionId && v.caseId == inp.caseId
    && v.calibratedConfidence == inp.draft.calibratedConfidence && v.noveltyScore == inp.draft.noveltyScore
    && v.classifierEvidence == inp.draft
    && (v.escalated <==> Escalates(cfg, inp.draft))
    && (v.investigation.Some? <==> v.verdict == NeedsInvestigation && cfg.hasLlm)
    && (v.investigation.Some? ==> SummaryOf(cfg, inp, v.investigation.value))
    && (v.caseState == AutoClosed <==> v.verdict in {Benign, FalsePositive}
                                       && GatesOpen(cfg.autoClose, inp.draft.calibratedConfidence, inp.alert))
    && (v.shadowCheck.allowed <==> v.caseState == AutoClosed)
  }

  /** What a run returns, and that its evidence is the one behind the returned verdict. */
  lemma RunReports(c: Crypto, cfg: Config, inp: Input)
    ensures var d := Decide(cfg, inp);
            var v := Report(c, cfg, inp, d);
            Reports(c, cfg, inp, v) && Routed(cfg, inp, Decision(v.verdict, v.executionPath, d.evidence))
  {
    DecisionIsRouted(cfg, inp);
    var d := Decide(cfg, inp);
    AttemptClosesIff(c, cfg.autoClose, d.verdict, inp.draft.calibratedConfidence, inp.alert, inp.draft, Context(cfg, inp));
  }

  /** Both loops of a run are loops of their kind, under the configured prompts, caps and guardrails. */
  lemma LoopsAreExplained(cfg: Config, inp: Input)
    ensures var lc, o := LoopConfig(Triager, cfg.enforced, cfg.retriesCap, cfg.maxIterations), TriagerLoop(cfg, inp);
            && Opens(o.final.messages, cfg.systemPrompt, inp.triagerPrompt)
            && Explained(inp.triager, lc, o.final.messages) && Concludes(inp.triager, lc, o)
    ensures var lc, o := LoopConfig(Investigator, cfg.enforced, cfg.retriesCap, cfg.investigatorMaxIterations), InvestigatorLoop(cfg, inp);
            && Opens(o.final.messages, cfg.investigatorPrompt, inp.investigatorPrompt)
            && Explained(inp.investigator, lc, o.final.messages) && Concludes(inp.investigator, lc, o)
  {
    EveryRunIsExplained(inp.triager, TriagerConfig(cfg), cfg.systemPrompt, inp.triagerPrompt);
    EveryRunIsExplained(inp.investigator, InvestigatorConfig(cfg), cfg.investigatorPrompt, inp.investigatorPrompt);
  }

  // ---- Automatic closing ----

  ghost predicate AutoCloses(c: Crypto, cfg: Config, inp: Input)
  {
    Report(c, cfg, inp, Decide(cfg, inp)).caseState == AutoClosed
  }

  /** The model's word for an alert that can be closed. */
  ghost predicate Dismisses(word: string)
  {
    InAnyCase(word, "benign") || InAnyCase(word, "false_positive") || InAnyCase(word, "false positive")
  }

  /** The loop has ended with a dismissal that passed the guardrails. */
  ghost predicate ModelDismisses(cfg: Config, inp: Input)
  {
    var lc, o := LoopConfig(Triager, cfg.enforced, cfg.retriesCap, cfg.maxIterations), TriagerLoop(cfg, inp);
    && o.result.Ok?
    && exists content, mv ::
         && Judges(inp.triager, o.final.messages, content, mv)
         && Passes(inp.triager, lc, Calls(o.final.messages), mv)
         && Dismisses(mv.verdict)
  }

  lemma ModelDismissesIff(cfg: Config, inp: Input)
    requires TriagerLoop(cfg, inp).result.Ok?
    ensures ModelDismisses(cfg, inp) <==> Closeable(TriagerLoop(cfg, inp).result.value.verdict)
  {
    var content, mv := VerdictIsTheModels(inp.triager, TriagerConfig(cfg), cfg.systemPrompt, inp.triagerPrompt);
    var m := TriagerLoop(cfg, inp).final.messages;
    forall content', mv' | Judges(inp.triager, m, content', mv') ensures mv' == mv {
    }
    WordsDiffer(mv.verdict);
  }

  lemma WordsDiffer(word: string)
    ensures forall v :: Says(word, v) ==> (v in {Benign, FalsePositive} <==> Dismisses(word))
  {
  }

  /**
   A case is closed automatically exactly when the classifier was unsure or the alert new to it, a model
   is configured, its last word after passing the guardrails is "benign" or "false positive", and every
   gate is open. The classifier alone never closes a case, nor does a failed escalation.
   */
  lemma AutoClosesIff(c: Crypto, cfg: Config, inp: Input)
    ensures AutoCloses(c, cfg, inp) <==>
            && (inp.draft.calibratedConfidence < cfg.escalationThreshold || inp.draft.noveltyScore > cfg.noveltyThreshold)
            && cfg.hasLlm
            && ModelDismisses(cfg, inp)
            && GatesOpen(cfg.autoClose, inp.draft.calibratedConfidence, inp.alert)
  {
    RunReports(c, cfg, inp);
    ConfidenceKeepsOpen(c, cfg, inp);
    if TriagerLoop(cfg, inp).result.Ok? {
      ModelDismissesIff(cfg, inp);
    }
  }

  /** A score at which a case may be closed is no score at which the classifier says benign. */
  lemma ConfidenceKeepsOpen(c: Crypto, cfg: Config, inp: Input)
    ensures AutoCloses(c, cfg, inp) ==> inp.draft.calibratedConfidence >= 0.90
  {
    RunReports(c, cfg, inp);
  }

  /** An escalated true positive is reviewed from the threshold on, and then stands only if the reviewer agrees in so many words. */
  lemma ConfidentTruePositiveNeedsAgreement(c: Crypto, cfg: Config, inp: Input)
    requires Escalates(cfg, inp.draft) && cfg.hasLlm && TriagerLoop(cfg, inp).result.Ok?
    requires TriagerLoop(cfg, inp).result.value.verdict == TruePositive
    ensures var d, r := Decide(cfg, inp), TriagerLoop(cfg, inp).result.value;
            var reviewed := cfg.enforced && inp.draft.calibratedConfidence >= cfg.crossReviewThreshold;
            var v := Report(c, cfg, inp, d);
            && d.evidence.HybridBlock? && (d.evidence.hybrid.llmFinal.crossReview.Some? <==> reviewed)
            && v.verdict == (if reviewed && ReviewOf(inp, r) != Agrees then NeedsInvestigation else TruePositive)
            && (v.verdict != TruePositive ==> v.investigation.Some?)
  {
    RunReports(c, cfg, inp);
  }
}
