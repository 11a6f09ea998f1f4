/** The deterministic gate before automated actions (attest-shadow-check). */
module ShadowCheck {
  import opened Text
  import opened Envelopes
  import opened Policy

  /** One comma-separated list from the environment: trimmed, in lower case, blanks dropped. */
  function Normalised(trim: string -> string, entries: seq<string>): set<string>
  {
    set i | 0 <= i < |entries| && AsciiLower(trim(entries[i])) != "" :: AsciiLower(trim(entries[i]))
  }

  function Context(confidence: Score, radius: nat, automation: bool): PolicyContext
  {
    PolicyContext(confidence, false, 0, radius, automation)
  }

  datatype ShadowChecker = ShadowChecker(
    doNotTouch: set<string>,
    tenantAllowsAutomation: bool,
    allowedActionClasses: set<string>)
  {
    predicate Protects(principal: string)
    {
      AsciiLower(principal) in doNotTouch
    }

    /** The decision on closing a case automatically. */
    function Decision(principal: string, actionClass: string, confidence: Score): ShadowCheckDecision
    {
      if Protects(principal) then
        ShadowCheckDecision(false, ProtectedPrincipal(principal), ["do_not_touch"])
      else if AsciiLower(actionClass) !in allowedActionClasses then
        ShadowCheckDecision(false, ActionClassNotListed(actionClass), ["do_not_touch", "action_class_allowlist"])
      else
        var all := ["do_not_touch", "action_class_allowlist", "policy_engine_triager_auto_close"];
        match Authorize(TriagerRole, "triager_auto_close", Context(confidence, 1, tenantAllowsAutomation))
        case Allow => ShadowCheckDecision(true, AllPoliciesPassed(confidence), all)
        case Deny(why) => ShadowCheckDecision(false, why, all)
        case Escalate(why) => ShadowCheckDecision(false, Escalated(why), all)
    }

    method Check(principal: string, actionClass: string, confidence: Score) returns (d: ShadowCheckDecision)
      ensures d == Decision(principal, actionClass, confidence)
    {
      var policies: seq<string> := [];
      policies := policies + ["do_not_touch"];
      if Protects(principal) {
        return ShadowCheckDecision(false, ProtectedPrincipal(principal), policies);
      }
      policies := policies + ["action_class_allowlist"];
      if AsciiLower(actionClass) !in allowedActionClasses {
        return ShadowCheckDecision(false, ActionClassNotListed(actionClass), policies);
      }
      policies := policies + ["policy_engine_triager_auto_close"];
      var ctx := Context(confidence, 1, tenantAllowsAutomation);
      match Authorize(TriagerRole, "triager_auto_close", ctx) {
        case Allow => return ShadowCheckDecision(true, AllPoliciesPassed(confidence), policies);
        case Deny(why) => return ShadowCheckDecision(false, why, policies);
        case Escalate(why) => return ShadowCheckDecision(false, Escalated(why), policies);
      }
    }

    /** A Responder action; the action-class list is not consulted. */
    function ResponderDecision(toolId: string, principal: string, confidence: Score, radius: nat): ShadowCheckDecision
    {
      if Protects(principal) then
        ShadowCheckDecision(false, ProtectedPrincipal(principal), ["do_not_touch"])
      else if !tenantAllowsAutomation then
        ShadowCheckDecision(false, AutomationDisabled, ["do_not_touch", "tenant_automation"])
      else
        var all := ["do_not_touch", "tenant_automation", "policy_engine_responder:" + toolId];
        match Authorize(ResponderRole, toolId, Context(confidence, radius, tenantAllowsAutomation))
        case Allow => ShadowCheckDecision(true, AllPoliciesPassed(confidence), all)
        case Deny(why) => ShadowCheckDecision(false, why, all)
        case Escalate(why) => ShadowCheckDecision(false, Escalated(why), all)
    }

    method CheckResponder(toolId: string, principal: string, confidence: Score, radius: nat) returns (d: ShadowCheckDecision)
      ensures d == ResponderDecision(toolId, principal, confidence, radius)
    {
      var policies: seq<string> := [];
      policies := policies + ["do_not_touch"];
      if Protects(principal) {
        return ShadowCheckDecision(false, ProtectedPrincipal(principal), policies);
      }
      policies := policies + ["tenant_automation"];
      if !tenantAllowsAutomation {
        return ShadowCheckDecision(false, AutomationDisabled, policies);
      }
      policies := policies + ["policy_engine_responder:" + toolId];
      match Authorize(ResponderRole, toolId, Context(confidence, radius, tenantAllowsAutomation)) {
        case Allow => return ShadowCheckDecision(true, AllPoliciesPassed(confidence), policies);
        case Deny(why) => return ShadowCheckDecision(false, why, policies);
        case Escalate(why) => return ShadowCheckDecision(false, Escalated(why), policies);
      }
    }

    /**
     A Responder action goes through exactly when automation is on, the principal is not protected, and
     the tool is a read tool or one of three, each within its own limits.
     */
    lemma ResponderAllowedIff(toolId: string, principal: string, confidence: Score, radius: nat)
      ensures ResponderDecision(toolId, principal, confidence, radius).allowed <==>
              && !Protects(principal)
              && tenantAllowsAutomation
              && (|| toolId in READ_TOOLS
                  || toolId == "firewall_block_ioc"
                  || (toolId == "edr_isolate_host" && radius <= 1)
                  || (toolId == "idp_revoke_session" && confidence >= 0.85 && radius <= 50))
    {
    }

    /** The gate opens for an auto-close exactly under these four conditions. */
    lemma AllowedIff(principal: string, actionClass: string, confidence: Score)
      ensures Decision(principal, actionClass, confidence).allowed <==>
              && !Protects(principal)
              && AsciiLower(actionClass) in allowedActionClasses
              && tenantAllowsAutomation
              && confidence >= 0.90
    {
    }

    /**
     What the decision on an auto-close reports: the policies up to the first that refused, and why that
     one did; all three and the confidence when none refused.
     */
    lemma DecisionExplains(principal: string, actionClass: string, confidence: Score)
      ensures var d := Decision(principal, actionClass, confidence);
              var listed := AsciiLower(actionClass) in allowedActionClasses;
              var policies := ["do_not_touch", "action_class_allowlist", "policy_engine_triager_auto_close"];
              && (d.reason == ProtectedPrincipal(principal) <==> Protects(principal))
              && (d.reason == ActionClassNotListed(actionClass) <==> !Protects(principal) && !listed)
              && (d.reason == AutomationDisabled <==> !Protects(principal) && listed && !tenantAllowsAutomation)
              && (d.reason == ConfidenceBelow(Percent(90), confidence) <==>
                  !Protects(principal) && listed && tenantAllowsAutomation && confidence < 0.90)
              && (d.reason == AllPoliciesPassed(confidence) <==> d.allowed)
              && d.policiesEvaluated == policies[..if d.reason.ProtectedPrincipal? then 1 else if d.reason.ActionClassNotListed? then 2 else 3]
    {
    }

    /** The same for a Responder action. */
    lemma ResponderDecisionExplains(toolId: string, principal: string, confidence: Score, radius: nat)
      ensures var d := ResponderDecision(toolId, principal, confidence, radius);
              var reached := !Protects(principal) && tenantAllowsAutomation;
              var policies := ["do_not_touch", "tenant_automation", "policy_engine_responder:" + toolId];
              && (d.reason == ProtectedPrincipal(principal) <==> Protects(principal))
              && (d.reason == AutomationDisabled <==> !Protects(principal) && !tenantAllowsAutomation)
              && (d.reason == ConfidenceBelow(Percent(85), confidence) <==>
                  reached && toolId == "idp_revoke_session" && confidence < 0.85)
              && (d.reason == Escalated(BlastRadiusAbove(50, radius)) <==>
                  reached && toolId == "idp_revoke_session" && confidence >= 0.85 && radius > 50)
              && (d.reason == Escalated(BlastRadiusAbove(1, radius)) <==> reached && toolId == "edr_isolate_host" && radius > 1)
              && (d.reason == AllPoliciesPassed(confidence) <==> d.allowed)
              && d.policiesEvaluated == policies[..if d.reason.ProtectedPrincipal? then 1 else if d.reason == AutomationDisabled then 2 else 3]
    {
    }
  }

  /** The policy's verdict on a Responder tool when it is told the whole situation. */
  function FullPolicy(s: ShadowChecker, toolId: string, principal: string, confidence: Score, radius: nat, recent: nat): PolicyDecision
  {
    Authorize(ResponderRole, toolId, PolicyContext(confidence, s.Protects(principal), recent, radius, s.tenantAllowsAutomation))
  }

  /**
   The gate always reports zero recent actions, so it agrees with the policy (for a tenant that allows
   automation and a principal that is not protected) except for the hourly limit: it lets an action
   through against the policy exactly when the session limit alone would have stopped it.
   */
  lemma HourlyLimitIsNotApplied(s: ShadowChecker, toolId: string, principal: string, confidence: Score, radius: nat, recent: nat)
    requires s.tenantAllowsAutomation && !s.Protects(principal)
    ensures s.ResponderDecision(toolId, principal, confidence, radius).allowed
            && !FullPolicy(s, toolId, principal, confidence, radius, recent).Allow? <==>
            toolId == "idp_revoke_session" && confidence >= 0.85 && radius <= 50 && recent > 10
  {
    assert "idp_revoke_session" !in READ_TOOLS;
  }

  /** A list from the environment protects every spelling of its entries. */
  lemma ListedPrincipalsAreProtected(trim: string -> string, entries: seq<string>, s: ShadowChecker, principal: string)
    requires s.doNotTouch == Normalised(trim, entries)
    ensures s.Protects(principal) <==>
            AsciiLower(principal) != "" && exists i :: 0 <= i < |entries| && AsciiLower(trim(entries[i])) == AsciiLower(principal)
  {
  }
}
