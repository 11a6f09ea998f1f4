/** Authorisation of tool calls (attest-policy-engine) and the gateway that applies it. */
module Policy {
  import opened Wrappers
  import opened Envelopes

  datatype AgentRole = TriagerRole | InvestigatorRole | HunterRole | DetectionEngineerRole | ResponderRole | CoordinatorRole

  datatype PolicyDecision = Allow | Deny(reason: Reason) | Escalate(reason: Reason)

  datatype PolicyContext = PolicyContext(
    calibratedConfidence: Score,
    targetIsProtected: bool,
    recentActionsLastHour: nat,
    blastRadius: nat,
    tenantAllowsAutomation: bool)

  const READ_TOOLS: set<string> := {
    "query_hot_tier", "query_warm_tier", "get_user_baseline", "get_asset_context",
    "lookup_threat_intel", "analyze_code_snippet", "sandbox_detonate"
  }

  function Authorize(role: AgentRole, toolId: string, ctx: PolicyContext): PolicyDecision
  {
    if toolId in READ_TOOLS then Allow
    else match role
      case TriagerRole => AuthorizeTriager(toolId, ctx)
      case InvestigatorRole =>
        if toolId == "propose_escalation" || toolId == "request_human_review" then Allow else Deny(NotForRole(toolId))
      case DetectionEngineerRole => AuthorizeDetectionEngineer(toolId, ctx)
      case ResponderRole => AuthorizeResponder(toolId, ctx)
      case HunterRole =>
        if toolId == "propose_detection_pr" || toolId == "request_human_review" then Allow else Deny(NotForRole(toolId))
      case CoordinatorRole => Deny(NotForRole(toolId))
  }

  function AuthorizeTriager(toolId: string, ctx: PolicyContext): PolicyDecision
  {
    if toolId != "triager_auto_close" then Deny(NotForRole(toolId))
    else if !ctx.tenantAllowsAutomation then Deny(AutomationDisabled)
    else if ctx.calibratedConfidence < 0.90 then Deny(ConfidenceBelow(Percent(90), ctx.calibratedConfidence))
    else Allow
  }

  function AuthorizeDetectionEngineer(toolId: string, ctx: PolicyContext): PolicyDecision
  {
    if toolId == "propose_detection_pr" then Allow
    else if toolId != "deploy_detection" then Deny(NotForRole(toolId))
    else if ctx.calibratedConfidence < 0.80 then Deny(ConfidenceBelow(Percent(80), ctx.calibratedConfidence))
    else Allow
  }

  function AuthorizeResponder(toolId: string, ctx: PolicyContext): PolicyDecision
  {
    if toolId == "idp_revoke_session" then
      if ctx.calibratedConfidence < 0.85 then Deny(ConfidenceBelow(Percent(85), ctx.calibratedConfidence))
      else if ctx.targetIsProtected then Deny(ProtectedTarget)
      else if ctx.recentActionsLastHour > 10 then Deny(TooManyRecentActions)
      else if ctx.blastRadius > 50 then Escalate(BlastRadiusAbove(50, ctx.blastRadius))
      else Allow
    else if toolId == "edr_isolate_host" then
      if ctx.targetIsProtected then Deny(ProtectedTarget)
      else if ctx.blastRadius > 1 then Escalate(BlastRadiusAbove(1, ctx.blastRadius))
      else Allow
    else if toolId == "firewall_block_ioc" then Allow
    else Deny(NotForRole(toolId))
  }

  /** `safer` differs from `ctx` only in directions that should help a request. */
  ghost predicate NoRiskier(safer: PolicyContext, ctx: PolicyContext)
  {
    && safer.calibratedConfidence >= ctx.calibratedConfidence
    && (safer.targetIsProtected ==> ctx.targetIsProtected)
    && safer.recentActionsLastHour <= ctx.recentActionsLastHour
    && safer.blastRadius <= ctx.blastRadius
    && (ctx.tenantAllowsAutomation ==> safer.tenantAllowsAutomation)
  }

  /** For every role and tool: what is allowed stays allowed when the circumstances get safer. */
  lemma AuthorizeIsMonotone(role: AgentRole, toolId: string, ctx: PolicyContext, safer: PolicyContext)
    requires NoRiskier(safer, ctx) && Authorize(role, toolId, ctx).Allow?
    ensures Authorize(role, toolId, safer).Allow?
  {
  }

  /** Who may do what, for every role and tool. */
  lemma AllowIff(role: AgentRole, toolId: string, ctx: PolicyContext)
    ensures Authorize(role, toolId, ctx).Allow? <==>
            || toolId in READ_TOOLS
            || match role
               case TriagerRole => toolId == "triager_auto_close" && ctx.tenantAllowsAutomation && ctx.calibratedConfidence >= 0.90
               case InvestigatorRole => toolId in {"propose_escalation", "request_human_review"}
               case HunterRole => toolId in {"propose_detection_pr", "request_human_review"}
               case DetectionEngineerRole =>
                 toolId == "propose_detection_pr" || (toolId == "deploy_detection" && ctx.calibratedConfidence >= 0.80)
               case ResponderRole =>
                 || toolId == "firewall_block_ioc"
                 || (toolId == "edr_isolate_host" && !ctx.targetIsProtected && ctx.blastRadius <= 1)
                 || (toolId == "idp_revoke_session" && ctx.calibratedConfidence >= 0.85 && !ctx.targetIsProtected
                     && ctx.recentActionsLastHour <= 10 && ctx.blastRadius <= 50)
               case CoordinatorRole => false
  {
  }

  /** Only a Responder is ever referred to a human, and only for too wide an effect. */
  lemma EscalateIff(role: AgentRole, toolId: string, ctx: PolicyContext)
    ensures Authorize(role, toolId, ctx).Escalate? <==>
            && toolId !in READ_TOOLS && role == ResponderRole && !ctx.targetIsProtected
            && (|| (toolId == "edr_isolate_host" && ctx.blastRadius > 1)
                || (toolId == "idp_revoke_session" && ctx.calibratedConfidence >= 0.85
                    && ctx.recentActionsLastHour <= 10 && ctx.blastRadius > 50))
  {
  }

  // ---- The gateway ----

  /** How a dispatched tool ended; `injected` is what `inspect_tool_result` finds in the value. */
  datatype Dispatch = Returned(value: string, injected: bool) | Failed(error: string)

  datatype Request = Request(
    role: AgentRole,
    toolId: string,
    ctx: PolicyContext,
    bulkQuery: bool,
    registered: bool,
    dispatch: Dispatch)

  datatype InvokeResponse = InvokeResponse(
    result: Option<string>,
    policyDecision: PolicyDecision,
    error: Option<string>)

  /** `handle_invoke`. */
  function HandleInvoke(r: Request): InvokeResponse
  {
    var authorized := Authorize(r.role, r.toolId, r.ctx);
    var policy := if authorized.Allow? && r.bulkQuery then Deny(BulkQuery) else authorized;
    if !policy.Allow? then InvokeResponse(None, policy, Some("policy"))
    else if !r.registered then InvokeResponse(None, policy, Some("unknown tool: " + r.toolId))
    else match r.dispatch
      case Failed(e) => InvokeResponse(None, policy, Some(e))
      case Returned(_, true) => InvokeResponse(None, Deny(InjectedResult), Some("injection"))
      case Returned(v, false) => InvokeResponse(Some(v), policy, None)
  }

  /**
   The logged decision speaks of policy, not of success: a call is logged as allowed without having
   produced a result exactly when policy let it through and the tool is unknown or failed.
   */
  lemma AllowedWithoutResultIff(r: Request)
    ensures HandleInvoke(r).policyDecision.Allow? && HandleInvoke(r).result.None? <==>
            Authorize(r.role, r.toolId, r.ctx).Allow? && !r.bulkQuery && (!r.registered || r.dispatch.Failed?)
  {
  }

  /**
   A caller gets the value exactly when policy allows the call, the tool is known and returned it, and
   nothing suspicious was found in it; otherwise an error, and the decision that is logged says no exactly
   when policy did, the query was too wide, or the value was suspicious.
   */
  lemma InvokeMeans(r: Request, value: string)
    ensures var a := HandleInvoke(r);
            var authorized := Authorize(r.role, r.toolId, r.ctx);
            && (a.result == Some(value) <==> authorized.Allow? && !r.bulkQuery && r.registered && r.dispatch == Returned(value, false))
            && (a.error.None? <==> a.result.Some?)
            && (a.policyDecision == Deny(BulkQuery) <==> authorized.Allow? && r.bulkQuery)
            && (a.policyDecision == Deny(InjectedResult) <==>
                authorized.Allow? && !r.bulkQuery && r.registered && r.dispatch.Returned? && r.dispatch.injected)
            && (!authorized.Allow? ==> a.policyDecision == authorized)
            && (authorized.Allow? && !r.bulkQuery && r.registered && r.dispatch.Failed? ==> a.error == Some(r.dispatch.error))
  {
  }
}
