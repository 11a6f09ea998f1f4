/**
 The signed envelope and its evidence variants, the chain hash and the signature.
 SHA-256, Ed25519 and serde are a `Crypto` value whose assumptions are spelled out in `Sound`.
 */
module Envelopes {
  import opened Wrappers
  import opened CanonicalJson

  ghost predicate Fraction(r: real, n: int, d: int)
  {
    d > 0 && r * d as real == n as real
  }

  /** A finite floating-point number: the source only compares and prints them, and all are fractions. */
  type Score = r: real | exists n, d :: Fraction(r, n, d) ghost witness Zero()

  ghost function Zero(): (r: real)
    ensures exists n, d :: Fraction(r, n, d)
  {
    assert Fraction(0.0, 0, 1);
    0.0
  }

  function Percent(n: nat): Score
  {
    assert Fraction(n as real / 100.0, n, 100);
    n as real / 100.0
  }

  /** An id by its text form. */
  datatype Uuid = Uuid(text: string)

  /** What `Uuid`'s own formatter produces: 36 hyphenated lower-case hexadecimal characters. */
  predicate IsUuid(u: Uuid)
  {
    && |u.text| == 36
    && forall i | 0 <= i < |u.text| :: '0' <= u.text[i] <= '9' || 'a' <= u.text[i] <= 'f' || u.text[i] == '-'
  }

  datatype Verdict = TruePositive | FalsePositive | Benign | NeedsInvestigation | EscalatedStub

  datatype CaseState = AutoClosed | PendingHumanReview

  datatype ExecutionPathKind = ClassifierPath | LlmPath | HybridPath | HumanOverridePath

  datatype EscalationReason =
    | LowCalibratedConfidence(score: Score, threshold: Score)
    | HighNoveltyScore(score: Score, threshold: Score)
    | BothLowConfidenceAndHighNovelty

  datatype ClassifierEvidence = ClassifierEvidence(
    modelArtifactHash: string,
    featureExtractorHash: string,
    inputFeatures: map<string, Score>,
    shapValues: map<string, Score>,
    rawPrediction: Score,
    calibratedConfidence: Score,
    noveltyScore: Score)

  datatype ToolCallRecord = ToolCallRecord(
    toolId: string,
    argsHash: string,
    resultHash: string,
    latencyMs: nat,
    policyDecision: string)

  datatype IntermediateBelief = IntermediateBelief(
    iteration: nat,
    contentSummary: string,
    selfReportedConfidence: Option<Score>)

  datatype CrossReviewBlock = CrossReviewBlock(
    reviewerPromptHash: string,
    agrees: bool,
    disagreementReason: Option<string>)

  datatype LlmEvidence = LlmEvidence(
    modelProvider: string,
    modelId: string,
    systemPromptHash: string,
    toolCalls: seq<ToolCallRecord>,
    intermediateBeliefs: seq<IntermediateBelief>,
    evidenceCitations: seq<string>,
    totalIterations: nat,
    validationRetries: nat,
    crossReview: Option<CrossReviewBlock>)

  datatype HybridEvidence = HybridEvidence(
    classifierDraft: ClassifierEvidence,
    llmFinal: LlmEvidence,
    escalationReason: EscalationReason)

  /** The explanations that gates and policies give, before they are worded. */
  datatype Reason =
    | AutomationDisabled
    | ConfidenceBelow(required: Score, got: Score)
    | NotForRole(toolId: string)
    | ProtectedTarget
    | TooManyRecentActions
    | BlastRadiusAbove(limit: nat, radius: nat)
    | BulkQuery
    | InjectedResult
    | ProtectedPrincipal(principal: string)
    | ActionClassNotListed(actionClass: string)
    | Escalated(why: Reason)
    | AllPoliciesPassed(confidence: Score)
    | VerdictNotCloseable(verdict: Verdict)
    | BelowThreshold(confidence: Score, threshold: Score)

  datatype ShadowCheckDecision = ShadowCheckDecision(
    allowed: bool,
    reason: Reason,
    policiesEvaluated: seq<string>)

  datatype AutoCloseEvidence = AutoCloseEvidence(
    classifierEvidence: ClassifierEvidence,
    shadowCheck: ShadowCheckDecision,
    autoCloseThreshold: Score,
    principal: string,
    actionClass: string)

  datatype OverrideEvidence = OverrideEvidence(
    originalAgentActionId: Uuid,
    correctedVerdict: Verdict,
    reason: string,
    actorId: string,
    actorEmail: string)

  datatype EvidenceBlock =
    | ClassifierBlock(classifier: ClassifierEvidence)
    | LlmBlock(llm: LlmEvidence)
    | HybridBlock(hybrid: HybridEvidence)
    | EscalatedStubBlock(classifierDraft: ClassifierEvidence, escalationReason: EscalationReason)
    | AutoCloseBlock(autoClose: AutoCloseEvidence)
    | OverrideBlock(humanOverride: OverrideEvidence)

  datatype Timing = Timing(startedAt: int, finishedAt: int, totalMs: nat)

  /** Everything the signature covers. */
  datatype Body = Body(
    envelopeVersion: string,
    agentActionId: Uuid,
    caseId: Uuid,
    tenantId: string,
    agentId: string,
    executionPath: ExecutionPathKind,
    verdict: Verdict,
    evidence: EvidenceBlock,
    timing: Timing,
    prevHash: Hash,
    signedAt: int)

  datatype Envelope = Envelope(body: Body, signature: string)

  /** The hex text of a chain hash; `NO_HASH` marks a row written before chaining existed. */
  datatype Hash = Hash(hex: string)

  const NO_HASH := Hash("")

  const GENESIS_HASH := Hash("0000000000000000000000000000000000000000000000000000000000000000")

  /** `Signer::verify`: `Ok(true)`, `Ok(false)` or `Err`. */
  datatype SignatureCheck = Genuine | Mismatch | Malformed

  datatype Crypto = Crypto(
    toJson: Body -> Json,
    digest: (Json, string) -> Hash,
    seal: Json -> string,
    check: (Json, string, string) -> SignatureCheck,
    verifyingKey: string)

  /**
   What the library calls are trusted for: serialisation yields proper JSON from which the body can
   be recovered, the hash is collision-free and its hex text is neither empty nor `GENESIS_HASH`,
   and the signer's own signatures verify under its key.
   */
  ghost predicate Sound(c: Crypto)
  {
    && (forall b :: Valid(c.toJson(b)))
    && (forall a, b :: Meaning(c.toJson(a)) == Meaning(c.toJson(b)) ==> a == b)
    && (forall j, s, k, t :: c.digest(j, s) == c.digest(k, t) ==> j == k && s == t)
    && (forall j, s :: c.digest(j, s) != GENESIS_HASH && c.digest(j, s) != NO_HASH)
    && (forall j :: c.check(j, c.seal(j), c.verifyingKey) == Genuine)
  }

  function CanonicalBody(c: Crypto, b: Body): Json
  {
    SortKeys(c.toJson(b))
  }

  function ChainHash(c: Crypto, e: Envelope): Hash
  {
    c.digest(CanonicalBody(c, e.body), e.signature)
  }

  function Sign(c: Crypto, b: Body): Envelope
  {
    Envelope(b, c.seal(CanonicalBody(c, b)))
  }

  function CheckSignature(c: Crypto, e: Envelope, key: string): SignatureCheck
  {
    c.check(CanonicalBody(c, e.body), e.signature, key)
  }

  lemma ChainHashInjective(c: Crypto, d: Envelope, e: Envelope)
    requires Sound(c) && ChainHash(c, d) == ChainHash(c, e)
    ensures d == e
  {
    CanonicalIff(c.toJson(d.body), c.toJson(e.body));
  }

  /**
   Two processes may serialise the maps inside a body in different orders. The chain hash, the
   signature and its check agree all the same, which is what the sorted form is for.
   */
  lemma ProcessIndependent(c: Crypto, d: Crypto, e: Envelope, key: string)
    requires forall b :: Valid(c.toJson(b)) && Valid(d.toJson(b)) && Meaning(c.toJson(b)) == Meaning(d.toJson(b))
    requires c.digest == d.digest && c.seal == d.seal && c.check == d.check
    ensures ChainHash(c, e) == ChainHash(d, e)
    ensures Sign(c, e.body) == Sign(d, e.body)
    ensures CheckSignature(c, e, key) == CheckSignature(d, e, key)
  {
    CanonicalIff(c.toJson(e.body), d.toJson(e.body));
  }
}
