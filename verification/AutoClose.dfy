/** Automatic closing of a case (auto_close.rs). */
module AutoClose {
  import opened Wrappers
  import opened Text
  import opened Envelopes
  import opened ShadowCheck

  /** The string-valued top-level fields of an alert. */
  type Alert = map<string, string>

  const PRINCIPAL_KEYS := ["principal", "actor_user_name", "actor_user", "user", "subject"]
  const ACTION_KEYS := ["event_type", "action_class", "action", "activity_name"]

  /** The first of the keys that the alert holds a non-empty string for. */
  ghost predicate IsFirst(alert: Alert, keys: seq<string>, i: nat)
    requires i < |keys|
  {
    && keys[i] in alert && alert[keys[i]] != ""
    && forall j :: 0 <= j < i ==> keys[j] !in alert || alert[keys[j]] == ""
  }

  function FirstNonEmpty(alert: Alert, keys: seq<string>): string
  {
    if keys == [] then "unknown"
    else if keys[0] in alert && alert[keys[0]] != "" then alert[keys[0]]
    else FirstNonEmpty(alert, keys[1..])
  }

  method Extract(alert: Alert, keys: seq<string>) returns (s: string)
    ensures s == FirstNonEmpty(alert, keys)
  {
    for k := 0 to |keys|
      invariant FirstNonEmpty(alert, keys) == FirstNonEmpty(alert, keys[k..])
    {
      assert keys[k..][1..] == keys[k + 1..];
      if keys[k] in alert && alert[keys[k]] != "" {
        return alert[keys[k]];
      }
    }
    return "unknown";
  }

  /** The extracted value is that of the first usable key, or `unknown` when there is none. */
  lemma {:induction false} FirstNonEmptyMeans(alert: Alert, keys: seq<string>)
    ensures forall i :: 0 <= i < |keys| && IsFirst(alert, keys, i) ==> FirstNonEmpty(alert, keys) == alert[keys[i]]
    ensures FirstNonEmpty(alert, keys) == "unknown" <==>
              || (forall i :: 0 <= i < |keys| ==> keys[i] !in alert || alert[keys[i]] == "")
              || (exists i :: 0 <= i < |keys| && IsFirst(alert, keys, i) && alert[keys[i]] == "unknown")
  {
    if keys != [] {
      FirstNonEmptyMeans(alert, keys[1..]);
      forall i | 1 <= i < |keys| && IsFirst(alert, keys, i) ensures FirstNonEmpty(alert, keys) == alert[keys[i]] {
        assert forall j :: 0 <= j < i - 1 ==> keys[1..][j] == keys[j + 1];
        assert IsFirst(alert, keys[1..], i - 1);
      }
    }
  }

  function Principal(alert: Alert): string
  {
    FirstNonEmpty(alert, PRINCIPAL_KEYS)
  }

  function ActionClass(alert: Alert): string
  {
    AsciiLower(FirstNonEmpty(alert, ACTION_KEYS))
  }

  datatype AutoCloseConfig = AutoCloseConfig(threshold: Score, checker: ShadowChecker)

  datatype CaseContext = CaseContext(
    agentId: string,
    tenantId: string,
    caseId: Uuid,
    actionId: Uuid,
    timing: Timing)

  datatype AutoCloseResult = AutoCloseResult(
    caseState: CaseState,
    shadowCheck: ShadowCheckDecision,
    envelope: Option<Envelope>)

  predicate Closeable(v: Verdict)
  {
    v == Benign || v == FalsePositive
  }

  /** The row that documents an auto-close; it carries the action id of the triage row. */
  function CloseBody(cfg: AutoCloseConfig, verdict: Verdict, confidence: Score,
                 alert: Alert, ev: ClassifierEvidence, at: CaseContext): Body
  {
    Body("1.1", at.actionId, at.caseId, at.tenantId, at.agentId, ClassifierPath, verdict,
         AutoCloseBlock(AutoCloseEvidence(ev, cfg.checker.Decision(Principal(alert), ActionClass(alert), confidence),
                                          cfg.threshold, Principal(alert), ActionClass(alert))),
         at.timing, NO_HASH, at.timing.finishedAt)
  }

  /** What the gates come to. */
  function Attempt(c: Crypto, cfg: AutoCloseConfig, verdict: Verdict, confidence: Score,
                 alert: Alert, ev: ClassifierEvidence, at: CaseContext): AutoCloseResult
  {
    if !Closeable(verdict) then
      AutoCloseResult(PendingHumanReview, ShadowCheckDecision(false, VerdictNotCloseable(verdict), ["verdict_allowlist"]), None)
    else if confidence < cfg.threshold then
      AutoCloseResult(PendingHumanReview, ShadowCheckDecision(false, BelowThreshold(confidence, cfg.threshold), ["confidence_floor"]),
                      None)
    else
      var sc := cfg.checker.Decision(Principal(alert), ActionClass(alert), confidence);
      if !sc.allowed then AutoCloseResult(PendingHumanReview, sc, None)
      else AutoCloseResult(AutoClosed, sc, Some(Sign(c, CloseBody(cfg, verdict, confidence, alert, ev, at))))
  }

  method TryAutoClose(c: Crypto, cfg: AutoCloseConfig, verdict: Verdict, confidence: Score,
                 alert: Alert, ev: ClassifierEvidence, at: CaseContext)
    returns (r: AutoCloseResult)
    ensures r == Attempt(c, cfg, verdict, confidence, alert, ev, at)
  {
    if !Closeable(verdict) {
      return AutoCloseResult(PendingHumanReview, ShadowCheckDecision(false, VerdictNotCloseable(verdict), ["verdict_allowlist"]),
                             None);
    }
    if confidence < cfg.threshold {
      return AutoCloseResult(PendingHumanReview, ShadowCheckDecision(false, BelowThreshold(confidence, cfg.threshold), ["confidence_floor"]),
                      None);
    }
    var principal := Extract(alert, PRINCIPAL_KEYS);
    var action := Extract(alert, ACTION_KEYS);
    var actionClass := AsciiLower(action);
    var sc := cfg.checker.Check(principal, actionClass, confidence);
    if !sc.allowed {
      return AutoCloseResult(PendingHumanReview, sc, None);
    }
    var evidence := AutoCloseEvidence(ev, sc, cfg.threshold, principal, actionClass);
    var envelope := Sign(c, Body("1.1", at.actionId, at.caseId, at.tenantId, at.agentId, ClassifierPath, verdict,
                                 AutoCloseBlock(evidence), at.timing, NO_HASH, at.timing.finishedAt));
    return AutoCloseResult(AutoClosed, sc, Some(envelope));
  }

  /** The conditions that the alert, the tenant and the score must meet. */
  ghost predicate GatesOpen(cfg: AutoCloseConfig, confidence: Score, alert: Alert)
  {
    && confidence >= cfg.threshold
    && confidence >= 0.90
    && !cfg.checker.Protects(Principal(alert))
    && ActionClass(alert) in cfg.checker.allowedActionClasses
    && cfg.checker.tenantAllowsAutomation
  }

  lemma AttemptClosesIff(c: Crypto, cfg: AutoCloseConfig, verdict: Verdict, confidence: Score,
                 alert: Alert, ev: ClassifierEvidence, at: CaseContext)
    ensures var r := Attempt(c, cfg, verdict, confidence, alert, ev, at);
            && (r.caseState == AutoClosed <==> Closeable(verdict) && GatesOpen(cfg, confidence, alert))
            && (r.envelope.Some? <==> r.caseState == AutoClosed)
            && (r.shadowCheck.allowed <==> r.caseState == AutoClosed)
  {
    LowerIsStable(FirstNonEmpty(alert, ACTION_KEYS));
    cfg.checker.AllowedIff(Principal(alert), ActionClass(alert), confidence);
  }

  /** Which gate refused, when the checker was not even asked; otherwise the decision is the checker's. */
  lemma AttemptExplains(c: Crypto, cfg: AutoCloseConfig, verdict: Verdict, confidence: Score,
                 alert: Alert, ev: ClassifierEvidence, at: CaseContext)
    ensures var sc := Attempt(c, cfg, verdict, confidence, alert, ev, at).shadowCheck;
            var dismissed := verdict == Benign || verdict == FalsePositive;
            && (sc.policiesEvaluated == ["verdict_allowlist"] <==> !dismissed)
            && (sc.policiesEvaluated == ["confidence_floor"] <==> dismissed && confidence < cfg.threshold)
            && (sc.reason == VerdictNotCloseable(verdict) <==> !dismissed)
            && (sc.reason == BelowThreshold(confidence, cfg.threshold) <==> dismissed && confidence < cfg.threshold)
            && (dismissed && confidence >= cfg.threshold ==>
                  sc == cfg.checker.Decision(Principal(alert), ActionClass(alert), confidence))
  {
  }

  /** The row of a closed case repeats the verdict and shows what the gates were shown and what they said. */
  lemma ClosedRow(c: Crypto, cfg: AutoCloseConfig, verdict: Verdict, confidence: Score,
                 alert: Alert, ev: ClassifierEvidence, at: CaseContext)
    requires Attempt(c, cfg, verdict, confidence, alert, ev, at).caseState == AutoClosed
    ensures var r := Attempt(c, cfg, verdict, confidence, alert, ev, at);
            && r.envelope.Some?
            && var b := r.envelope.value.body;
            && b.agentActionId == at.actionId && b.caseId == at.caseId && b.tenantId == at.tenantId && b.agentId == at.agentId
            && b.envelopeVersion == "1.1" && b.executionPath == ClassifierPath && b.verdict == verdict
            && b.timing == at.timing && b.signedAt == at.timing.finishedAt && b.prevHash == NO_HASH
            && b.evidence.AutoCloseBlock?
            && var e := b.evidence.autoClose;
            && e.classifierEvidence == ev && e.autoCloseThreshold == cfg.threshold
            && e.principal == Principal(alert) && e.actionClass == ActionClass(alert)
            && e.shadowCheck == r.shadowCheck && e.shadowCheck.allowed
  {
  }
}
