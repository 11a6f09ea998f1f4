/** What a series of triage runs leaves in the log, and when that log passes its own check. */
module TriageLog {
  import opened Wrappers
  import opened Envelopes
  import opened Verification
  import opened LogMachine
  import opened LogRuns
  import opened LogHistory
  import opened LlmLoop
  import opened LoopProperties
  import opened LoopAnswers
  import opened TamperEvidence
  import opened AutoClose
  import opened Triage
  import opened TriageProperties

  // ---- The rows of a run ----

  /** At most one row, with the id of the event. */
  ghost predicate RowsFor(rows: seq<Envelope>, id: Uuid)
  {
    |rows| <= 1 && (rows != [] ==> rows[0].body.agentActionId == id)
  }

  /** The triage row says what the run returns, and carries the evidence behind it. */
  ghost predicate TriageRow(cfg: Config, inp: Input, v: TriageVerdict, b: Body)
  {
    && b.envelopeVersion == "1.1" && b.agentActionId == inp.actionId && b.caseId == inp.caseId
    && b.tenantId == inp.tenantId && b.agentId == cfg.agentId
    && b.verdict == v.verdict && b.executionPath == v.executionPath
    && Routed(cfg, inp, Decision(b.verdict, b.executionPath, b.evidence))
    && b.timing == inp.triageTiming && b.signedAt == inp.triageTiming.finishedAt
  }

  /** The auto-close row repeats id and verdict, and shows what the gates were shown and what they said. */
  ghost predicate CloseRow(cfg: Config, inp: Input, v: TriageVerdict, b: Body)
  {
    && b.envelopeVersion == "1.1" && b.agentActionId == inp.actionId && b.caseId == inp.caseId
    && b.tenantId == inp.tenantId && b.agentId == cfg.agentId
    && b.verdict == v.verdict && b.executionPath == ClassifierPath
    && b.evidence.AutoCloseBlock?
    && b.evidence.autoClose.classifierEvidence == inp.draft
    && b.evidence.autoClose.shadowCheck == v.shadowCheck && v.shadowCheck.allowed
    && b.evidence.autoClose.autoCloseThreshold == cfg.autoClose.threshold
    && b.evidence.autoClose.principal == Principal(inp.alert) && b.evidence.autoClose.actionClass == ActionClass(inp.alert)
    && b.timing == inp.closeTiming && b.signedAt == inp.closeTiming.finishedAt
  }

  /** The investigation row has its own id and the verdict and records of the investigator's loop. */
  ghost predicate InvestigationRow(cfg: Config, inp: Input, v: TriageVerdict, b: Body)
  {
    && b.envelopeVersion == "1.1" && b.agentActionId == inp.investigationId && b.caseId == inp.caseId
    && b.tenantId == inp.tenantId && b.agentId == cfg.investigatorAgentId
    && v.investigation.Some? && b.verdict == v.investigation.value.verdict && b.executionPath == LlmPath
    && InvestigatorLoop(cfg, inp).result.Ok?
    && b.evidence.LlmBlock? && b.evidence.llm.crossReview.None?
    && Documents(cfg, cfg.investigatorPromptHash, b.evidence.llm, InvestigatorLoop(cfg, inp).result.value)
    && b.timing == inp.investigationTiming && b.signedAt == inp.investigationTiming.finishedAt
  }

  /** Each row says what it should, and the last is there only for an investigation that was completed. */
  ghost predicate RowsSay(cfg: Config, inp: Input, v: TriageVerdict,
                          triage: seq<Envelope>, close: seq<Envelope>, investigation: seq<Envelope>)
  {
    && |triage| <= 1 && |close| <= 1 && |investigation| <= 1
    && (triage != [] ==> TriageRow(cfg, inp, v, triage[0].body))
    && (close != [] ==> CloseRow(cfg, inp, v, close[0].body))
    && (investigation != [] ==> InvestigationRow(cfg, inp, v, investigation[0].body))
  }

  /** The run closes the case, and neither its triage row nor its auto-close row is lost to a fault. */
  ghost predicate StoresBoth(c: Crypto, cfg: Config, hasStore: bool, s: LogState, inp: Input)
  {
    && AutoCloses(c, cfg, inp)
    && Stores(hasStore, s, inp.triageFault)
    && Stores(hasStore, SignAndAppend(c, hasStore, s, TriageBody(cfg, inp, Decide(cfg, inp)), inp.triageFault).state, inp.closeFault)
  }

  /** The state after one triage run. */
  ghost function AfterRun(c: Crypto, cfg: Config, hasStore: bool, s: LogState, inp: Input): LogState
  {
    Run(c, hasStore, s, EventsOf(c, cfg, inp, Decide(cfg, inp))).state
  }

  ghost predicate Grows(c: Crypto, hasStore: bool, s: LogState, t: LogState, rows: seq<Envelope>)
  {
    && Inv(c, hasStore, t)
    && (Readable(hasStore, t) ==> Readable(hasStore, s) && History(hasStore, t) == History(hasStore, s) + rows)
  }

  /** The rows that an append adds. */
  lemma AppendAdds(c: Crypto, hasStore: bool, s: LogState, body: Body, fault: Fault) returns (rows: seq<Envelope>)
    requires Inv(c, hasStore, s)
    ensures Grows(c, hasStore, s, SignAndAppend(c, hasStore, s, body, fault).state, rows)
    ensures RowsFor(rows, body.agentActionId) && (rows != [] <==> Stores(hasStore, s, fault))
    ensures rows != [] ==> Relinked(rows[0].body, body)
  {
    var r := AppendStoresIff(c, hasStore, s, body, fault);
    rows := if Stores(hasStore, s, fault) then [r] else [];
  }

  /** The bodies differ in `prev_hash` at most. */
  ghost predicate Relinked(b: Body, body: Body)
  {
    b == body.(prevHash := b.prevHash)
  }

  lemma EventsAdd(c: Crypto, hasStore: bool, s: LogState, before: seq<Event>, more: seq<Event>, id: Uuid)
    returns (rows: seq<Envelope>)
    requires Inv(c, hasStore, Run(c, hasStore, s, before).state)
    requires |more| <= 1 && (more != [] ==> more[0].AppendRow? && more[0].body.agentActionId == id)
    ensures Grows(c, hasStore, Run(c, hasStore, s, before).state, Run(c, hasStore, s, before + more).state, rows)
    ensures RowsFor(rows, id)
    ensures rows != [] <==> more != [] && Stores(hasStore, Run(c, hasStore, s, before).state, more[0].fault)
    ensures rows != [] ==> Relinked(rows[0].body, more[0].body)
  {
    var mid := Run(c, hasStore, s, before).state;
    if more == [] {
      assert before + more == before;
      rows := [];
      assert History(hasStore, mid) + rows == History(hasStore, mid);
    } else {
      assert before + more == before + [more[0]];
      RunSnoc(c, hasStore, s, before, more[0]);
      rows := AppendAdds(c, hasStore, mid, more[0].body, more[0].fault);
    }
  }

  lemma FirstState(c: Crypto, hasStore: bool, s: LogState, body: Body, fault: Fault)
    ensures Run(c, hasStore, s, [AppendRow(body, fault)]).state == SignAndAppend(c, hasStore, s, body, fault).state
    ensures Run(c, hasStore, s, []).state == s
  {
    assert [] + [AppendRow(body, fault)] == [AppendRow(body, fault)];
    RunSnoc(c, hasStore, s, [], AppendRow(body, fault));
  }

  lemma CloseEventIff(c: Crypto, cfg: Config, inp: Input)
    ensures CloseEvents(inp, CloseAttempt(c, cfg, inp, Decide(cfg, inp))) != [] <==> AutoCloses(c, cfg, inp)
  {
    var d := Decide(cfg, inp);
    AttemptClosesIff(c, cfg.autoClose, d.verdict, inp.draft.calibratedConfidence, inp.alert, inp.draft, Context(cfg, inp));
  }

  lemma TriageRowSays(c: Crypto, cfg: Config, inp: Input, b: Body)
    requires Relinked(b, TriageBody(cfg, inp, Decide(cfg, inp)))
    ensures TriageRow(cfg, inp, Report(c, cfg, inp, Decide(cfg, inp)), b)
  {
    RunReports(c, cfg, inp);
  }

  lemma CloseRowSays(c: Crypto, cfg: Config, inp: Input, b: Body)
    requires var close := CloseAttempt(c, cfg, inp, Decide(cfg, inp)); close.envelope.Some? && Relinked(b, close.envelope.value.body)
    ensures CloseRow(cfg, inp, Report(c, cfg, inp, Decide(cfg, inp)), b)
  {
    var d := Decide(cfg, inp);
    AttemptClosesIff(c, cfg.autoClose, d.verdict, inp.draft.calibratedConfidence, inp.alert, inp.draft, Context(cfg, inp));
    ClosedRow(c, cfg.autoClose, d.verdict, inp.draft.calibratedConfidence, inp.alert, inp.draft, Context(cfg, inp));
  }

  lemma InvestigationRowSays(c: Crypto, cfg: Config, inp: Input, b: Body)
    requires Investigates(cfg, Decide(cfg, inp)) && InvestigatorLoop(cfg, inp).result.Ok?
    requires Relinked(b, InvestigationBody(cfg, inp, InvestigatorLoop(cfg, inp).result.value))
    ensures InvestigationRow(cfg, inp, Report(c, cfg, inp, Decide(cfg, inp)), b)
  {
  }

  /** The rows come from the run's own appends. */
  ghost predicate RowsStem(c: Crypto, cfg: Config, inp: Input, triage: seq<Envelope>, close: seq<Envelope>, investigation: seq<Envelope>)
  {
    var d := Decide(cfg, inp);
    && RowsFor(triage, inp.actionId) && RowsFor(close, inp.actionId) && RowsFor(investigation, inp.investigationId)
    && (triage != [] ==> Relinked(triage[0].body, TriageBody(cfg, inp, d)))
    && (close != [] ==> CloseAttempt(c, cfg, inp, d).envelope.Some?
                        && Relinked(close[0].body, CloseAttempt(c, cfg, inp, d).envelope.value.body))
    && (investigation != [] ==>
          && Investigates(cfg, d) && InvestigatorLoop(cfg, inp).result.Ok?
          && Relinked(investigation[0].body, InvestigationBody(cfg, inp, InvestigatorLoop(cfg, inp).result.value)))
  }

  lemma RunStores(c: Crypto, cfg: Config, hasStore: bool, s: LogState, inp: Input)
    returns (triage: seq<Envelope>, close: seq<Envelope>, investigation: seq<Envelope>)
    requires Inv(c, hasStore, s)
    ensures Grows(c, hasStore, s, AfterRun(c, cfg, hasStore, s, inp), triage + close + investigation)
    ensures RowsStem(c, cfg, inp, triage, close, investigation)
    ensures triage != [] <==> Stores(hasStore, s, inp.triageFault)
    ensures StoresBoth(c, cfg, hasStore, s, inp) <==> triage != [] && close != []
  {
    var d := Decide(cfg, inp);
    var first := [AppendRow(TriageBody(cfg, inp, d), inp.triageFault)];
    var second := CloseEvents(inp, CloseAttempt(c, cfg, inp, d));
    var third := if Investigates(cfg, d) then InvestigationEvents(cfg, inp) else [];

    FirstState(c, hasStore, s, TriageBody(cfg, inp, d), inp.triageFault);
    CloseEventIff(c, cfg, inp);
    assert [] + first == first;
    triage := EventsAdd(c, hasStore, s, [], first, inp.actionId);
    close := EventsAdd(c, hasStore, s, first, second, inp.actionId);
    investigation := EventsAdd(c, hasStore, s, first + second, third, inp.investigationId);
    ThreeSteps(c, hasStore, s, Run(c, hasStore, s, first).state, Run(c, hasStore, s, first + second).state,
               Run(c, hasStore, s, first + second + third).state, triage, close, investigation);
  }

  /**
   The rows a run adds: its triage row, its auto-close row with the same id, its investigation row, and
   what each of them says. A log that can be read after the run could be read before it.
   */
  lemma RunAdds(c: Crypto, cfg: Config, hasStore: bool, s: LogState, inp: Input)
    returns (triage: seq<Envelope>, close: seq<Envelope>, investigation: seq<Envelope>)
    requires Inv(c, hasStore, s)
    ensures Grows(c, hasStore, s, AfterRun(c, cfg, hasStore, s, inp), triage + close + investigation)
    ensures RowsSay(cfg, inp, Report(c, cfg, inp, Decide(cfg, inp)), triage, close, investigation)
    ensures triage != [] <==> Stores(hasStore, s, inp.triageFault)
    ensures StoresBoth(c, cfg, hasStore, s, inp) <==> triage != [] && close != []
  {
    triage, close, investigation := RunStores(c, cfg, hasStore, s, inp);
    StemSays(c, cfg, inp, triage, close, investigation);
  }

  lemma StemSays(c: Crypto, cfg: Config, inp: Input, triage: seq<Envelope>, close: seq<Envelope>, investigation: seq<Envelope>)
    requires RowsStem(c, cfg, inp, triage, close, investigation)
    ensures RowsSay(cfg, inp, Report(c, cfg, inp, Decide(cfg, inp)), triage, close, investigation)
  {
    if triage != [] {
      TriageRowSays(c, cfg, inp, triage[0].body);
    }
    if close != [] {
      CloseRowSays(c, cfg, inp, close[0].body);
    }
    if investigation != [] {
      InvestigationRowSays(c, cfg, inp, investigation[0].body);
    }
  }

  lemma ThreeSteps(c: Crypto, hasStore: bool, s: LogState, s1: LogState, s2: LogState, s3: LogState,
                   x: seq<Envelope>, y: seq<Envelope>, z: seq<Envelope>)
    requires Grows(c, hasStore, s, s1, x) && Grows(c, hasStore, s1, s2, y) && Grows(c, hasStore, s2, s3, z)
    ensures Grows(c, hasStore, s, s3, x + y + z)
  {
    assert History(hasStore, s) + (x + y + z) == ((History(hasStore, s) + x) + y) + z;
  }

  /**
   End to end, guardrails on: the signed triage row of a case that is closed automatically, as it stands in
   the log. It has the verdict the run returned, which is the model's dismissal; it carries the tool calls
   of the completed loop, one of them allowed; and everything it cites is the id of an allowed call.
   */
  lemma AutoCloseIsGrounded(c: Crypto, cfg: Config, hasStore: bool, s: LogState, inp: Input) returns (content: string, mv: ModelVerdict)
    requires Inv(c, hasStore, s) && cfg.enforced && AutoCloses(c, cfg, inp) && Stores(hasStore, s, inp.triageFault)
    ensures var after := AfterRun(c, cfg, hasStore, s, inp);
            Readable(hasStore, after) ==>
              && Readable(hasStore, s)
              && |History(hasStore, after)| > |History(hasStore, s)|
              && IsGroundedRow(c, cfg, inp, History(hasStore, after)[|History(hasStore, s)|], content, mv)
  {
    var triage, close, investigation := RunAdds(c, cfg, hasStore, s, inp);
    AutoClosesIff(c, cfg, inp);
    RunReports(c, cfg, inp);
    content, mv := AcceptedVerdictIsGrounded(inp.triager, TriagerConfig(cfg), cfg.systemPrompt, inp.triagerPrompt);
    GroundedRow(c, cfg, inp, triage[0], content, mv);
    var after := AfterRun(c, cfg, hasStore, s, inp);
    if Readable(hasStore, after) {
      assert History(hasStore, after)[|History(hasStore, s)|] == triage[0];
    }
  }

  ghost predicate IsGroundedRow(c: Crypto, cfg: Config, inp: Input, r: Envelope, content: string, mv: ModelVerdict)
  {
    var b, m := r.body, TriagerLoop(cfg, inp).final.messages;
    && b.verdict == Report(c, cfg, inp, Decide(cfg, inp)).verdict && b.caseId == inp.caseId
    && b.evidence.HybridBlock?
    && var e := b.evidence.hybrid.llmFinal;
    && (exists k :: 0 <= k < |e.toolCalls| && e.toolCalls[k].policyDecision == "allow")
    && Judges(inp.triager, m, content, mv) && Says(mv.verdict, b.verdict) && Dismisses(mv.verdict)
    && e.evidenceCitations == mv.evidenceCitations
    && CitesProperly(inp.triager, Calls(m), mv)
  }

  lemma GroundedRow(c: Crypto, cfg: Config, inp: Input, r: Envelope, content: string, mv: ModelVerdict)
    requires AutoCloses(c, cfg, inp) && Escalates(cfg, inp.draft) && cfg.hasLlm && TriagerLoop(cfg, inp).result.Ok?
    requires TriageRow(cfg, inp, Report(c, cfg, inp, Decide(cfg, inp)), r.body)
    requires var o := TriagerLoop(cfg, inp);
             && Judges(inp.triager, o.final.messages, content, mv) && Says(mv.verdict, o.result.value.verdict)
             && o.result.value.citations == mv.evidenceCitations && CitesProperly(inp.triager, Calls(o.final.messages), mv)
             && exists k :: 0 <= k < |o.result.value.records| && o.result.value.records[k].policyDecision == "allow"
    ensures IsGroundedRow(c, cfg, inp, r, content, mv)
  {
    RunReports(c, cfg, inp);
    WordsDiffer(mv.verdict);
  }

  // ---- Many runs ----

  ghost function After(c: Crypto, cfg: Config, hasStore: bool, runs: seq<Input>): LogState
  {
    if runs == [] then EMPTY
    else AfterRun(c, cfg, hasStore, After(c, cfg, hasStore, runs[..|runs| - 1]), runs[|runs| - 1])
  }

  ghost predicate Uses(inp: Input, id: Uuid)
  {
    id == inp.actionId || id == inp.investigationId
  }

  /** Random ids do not collide. */
  ghost predicate FreshIds(runs: seq<Input>)
  {
    && (forall i :: 0 <= i < |runs| ==> runs[i].actionId != runs[i].investigationId)
    && (forall i, j, id :: 0 <= i < j < |runs| && Uses(runs[i], id) ==> !Uses(runs[j], id))
  }

  ghost predicate UsedBySome(runs: seq<Input>, id: Uuid)
  {
    exists k :: 0 <= k < |runs| && Uses(runs[k], id)
  }

  ghost predicate IdsFrom(log: seq<Envelope>, runs: seq<Input>)
  {
    forall i :: 0 <= i < |log| ==> UsedBySome(runs, log[i].body.agentActionId)
  }

  /** No run of the sequence has both its triage row and its auto-close row in the log. */
  ghost predicate NoneStoresBoth(c: Crypto, cfg: Config, hasStore: bool, runs: seq<Input>)
  {
    forall k :: 0 <= k < |runs| ==> !StoresBoth(c, cfg, hasStore, After(c, cfg, hasStore, runs[..k]), runs[k])
  }

  lemma NoneStoresBothSnoc(c: Crypto, cfg: Config, hasStore: bool, before: seq<Input>, last: Input)
    ensures NoneStoresBoth(c, cfg, hasStore, before + [last]) <==>
            NoneStoresBoth(c, cfg, hasStore, before) && !StoresBoth(c, cfg, hasStore, After(c, cfg, hasStore, before), last)
  {
    var runs := before + [last];
    assert runs[..|before|] == before;
    forall k | 0 <= k < |before| ensures runs[..k] == before[..k] && runs[k] == before[k] {
    }
    if NoneStoresBoth(c, cfg, hasStore, runs) {
      forall k | 0 <= k < |before|
        ensures !StoresBoth(c, cfg, hasStore, After(c, cfg, hasStore, before[..k]), before[k])
      {
        assert !StoresBoth(c, cfg, hasStore, After(c, cfg, hasStore, runs[..k]), runs[k]);
      }
      assert !StoresBoth(c, cfg, hasStore, After(c, cfg, hasStore, runs[..|before|]), runs[|before|]);
    }
  }

  lemma DistinctAfterRows(log: seq<Envelope>, triage: seq<Envelope>, close: seq<Envelope>, investigation: seq<Envelope>, inp: Input)
    requires RowsFor(triage, inp.actionId) && RowsFor(close, inp.actionId) && RowsFor(investigation, inp.investigationId)
    requires inp.actionId != inp.investigationId
    requires forall i :: 0 <= i < |log| ==> !Uses(inp, log[i].body.agentActionId)
    ensures DistinctIds(log + triage + close + investigation) <==> DistinctIds(log) && !(triage != [] && close != [])
  {
    var all := log + triage + close + investigation;
    assert triage != [] && close != [] ==> all[|log|] == triage[0] && all[|log| + 1] == close[0];
    if DistinctIds(all) {
      forall i, j | 0 <= i < j < |log| ensures log[i].body.agentActionId != log[j].body.agentActionId {
        assert all[i] == log[i] && all[j] == log[j];
      }
    }
    if DistinctIds(log) && !(triage != [] && close != []) {
      forall i, j | 0 <= i < j < |all| ensures all[i].body.agentActionId != all[j].body.agentActionId {
        if i < |log| {
          assert all[i] == log[i];
        }
      }
    }
  }

  lemma DistinctStep(c: Crypto, cfg: Config, hasStore: bool, s: LogState, before: seq<Input>, last: Input)
    requires Inv(c, hasStore, s) && FreshIds(before + [last])
    requires Readable(hasStore, s) ==> IdsFrom(History(hasStore, s), before)
    ensures var after := AfterRun(c, cfg, hasStore, s, last);
            && Inv(c, hasStore, after)
            && (Readable(hasStore, after) ==>
                  && Readable(hasStore, s)
                  && IdsFrom(History(hasStore, after), before + [last])
                  && (DistinctIds(History(hasStore, after)) <==>
                      DistinctIds(History(hasStore, s)) && !StoresBoth(c, cfg, hasStore, s, last)))
  {
    var triage, close, investigation := RunStores(c, cfg, hasStore, s, last);
    if Readable(hasStore, AfterRun(c, cfg, hasStore, s, last)) {
      IdsAfterRows(History(hasStore, s), triage, close, investigation, before, last);
    }
  }

  lemma IdsAfterRows(log: seq<Envelope>, triage: seq<Envelope>, close: seq<Envelope>, investigation: seq<Envelope>,
                     before: seq<Input>, last: Input)
    requires IdsFrom(log, before) && FreshIds(before + [last])
    requires RowsFor(triage, last.actionId) && RowsFor(close, last.actionId) && RowsFor(investigation, last.investigationId)
    ensures var all := log + (triage + close + investigation);
            && IdsFrom(all, before + [last])
            && (DistinctIds(all) <==> DistinctIds(log) && !(triage != [] && close != []))
  {
    LastIsFresh(log, before, last);
    assert (before + [last])[|before|] == last;
    assert log + (triage + close + investigation) == log + triage + close + investigation;
    DistinctAfterRows(log, triage, close, investigation, last);
    IdsGrow(log, triage, close, investigation, before, last);
  }

  /** After any series of runs a readable log has distinct ids exactly when no run stored both rows. */
  lemma {:induction false} DistinctIff(c: Crypto, cfg: Config, hasStore: bool, runs: seq<Input>)
    requires FreshIds(runs)
    ensures var s := After(c, cfg, hasStore, runs);
            && Inv(c, hasStore, s)
            && (Readable(hasStore, s) ==>
                  && IdsFrom(History(hasStore, s), runs)
                  && (DistinctIds(History(hasStore, s)) <==> NoneStoresBoth(c, cfg, hasStore, runs)))
  {
    if runs == [] {
      RunKeepsInv(c, hasStore, EMPTY, []);
    } else {
      var n := |runs| - 1;
      var before, last := runs[..n], runs[n];
      assert runs == before + [last];
      PrefixFresh(runs, n);
      DistinctIff(c, cfg, hasStore, before);
      DistinctStep(c, cfg, hasStore, After(c, cfg, hasStore, before), before, last);
      NoneStoresBothSnoc(c, cfg, hasStore, before, last);
    }
  }

  lemma IdsGrow(log: seq<Envelope>, triage: seq<Envelope>, close: seq<Envelope>, investigation: seq<Envelope>,
                before: seq<Input>, last: Input)
    requires IdsFrom(log, before)
    requires RowsFor(triage, last.actionId) && RowsFor(close, last.actionId) && RowsFor(investigation, last.investigationId)
    ensures IdsFrom(log + triage + close + investigation, before + [last])
  {
    var all, runs := log + triage + close + investigation, before + [last];
    forall i | 0 <= i < |all| ensures UsedBySome(runs, all[i].body.agentActionId) {
      var id := all[i].body.agentActionId;
      if i < |log| {
        assert all[i] == log[i] && UsedBySome(before, id);
        var k :| 0 <= k < |before| && Uses(before[k], id);
        assert Uses(runs[k], id);
      } else {
        assert Uses(runs[|before|], id);
      }
    }
  }

  lemma LastIsFresh(log: seq<Envelope>, before: seq<Input>, last: Input)
    requires IdsFrom(log, before) && FreshIds(before + [last])
    ensures forall i :: 0 <= i < |log| ==> !Uses(last, log[i].body.agentActionId)
  {
    var runs := before + [last];
    forall i | 0 <= i < |log| ensures !Uses(last, log[i].body.agentActionId) {
      var id := log[i].body.agentActionId;
      assert UsedBySome(before, id);
      var k :| 0 <= k < |before| && Uses(before[k], id);
      assert Uses(runs[k], id) && runs[|before|] == last;
    }
  }

  /**
   The auto-close row repeats the action id of the triage row, and `verify_log` rejects repeated ids. So
   what `read_all` returns after any sequence of triage runs, with ids that never collide, verifies exactly
   when no run has both of these rows in the log. With an object store it always returns something.
   */
  lemma TriageLogVerifiesIff(c: Crypto, cfg: Config, hasStore: bool, runs: seq<Input>)
    requires Sound(c) && FreshIds(runs)
    ensures var log := ReadAll(hasStore, After(c, cfg, hasStore, runs));
            && (log.Ok? ==> (Verifies(c, c.verifyingKey, log.value) <==> NoneStoresBoth(c, cfg, hasStore, runs)))
            && (hasStore ==> log.Ok?)
  {
    var s := After(c, cfg, hasStore, runs);
    DistinctIff(c, cfg, hasStore, runs);
    ReadsHistory(c, hasStore, s);
    if Readable(hasStore, s) {
      WrittenLogVerifiesIff(c, History(hasStore, s));
    }
  }

  /** After the rows `before` come two with the id of the first run and one with that of the second; the last two fail. */
  ghost predicate Spoils(c: Crypto, before: seq<Envelope>, log: seq<Envelope>, first: Input, second: Input)
  {
    var p := |before|;
    && p + 2 < |log| && before <= log
    && log[p].body.agentActionId == first.actionId && log[p + 1].body.agentActionId == first.actionId
    && log[p + 2].body.agentActionId == second.actionId
    && !RowOk(c, c.verifyingKey, log, p + 1) && !RowOk(c, c.verifyingKey, log, p + 2)
  }

  /**
   An auto-close spoils one row more: of two runs in a row of which the first stores both rows and the
   second its triage row, the auto-close row fails the check and so does the triage row of the second run.
   */
  lemma RowAfterAutoCloseFails(c: Crypto, cfg: Config, hasStore: bool, runs: seq<Input>, first: Input, second: Input)
    requires Sound(c) && FreshIds(runs + [first] + [second])
    requires StoresBoth(c, cfg, hasStore, After(c, cfg, hasStore, runs), first)
    requires Stores(hasStore, After(c, cfg, hasStore, runs + [first]), second.triageFault)
    requires Readable(hasStore, After(c, cfg, hasStore, runs + [first] + [second]))
    ensures Spoils(c, History(hasStore, After(c, cfg, hasStore, runs)),
                   History(hasStore, After(c, cfg, hasStore, runs + [first] + [second])), first, second)
  {
    var before := runs + [first];
    var s, mid := After(c, cfg, hasStore, runs), After(c, cfg, hasStore, before);
    AfterSnoc(c, cfg, hasStore, runs, first);
    AfterSnoc(c, cfg, hasStore, before, second);
    PrefixFresh(before + [second], |before|);
    assert (before + [second])[..|before|] == before && before[..|runs|] == runs;
    PrefixFresh(before, |runs|);
    DistinctIff(c, cfg, hasStore, runs);
    DistinctIff(c, cfg, hasStore, before);
    var a, b := ClosingRun(c, cfg, hasStore, s, first);
    var x, rest := StoringRun(c, cfg, hasStore, mid, second);
    TwoRunsGrow(c, hasStore, s, mid, AfterRun(c, cfg, hasStore, mid, second), a, b, x, rest);
    LastIsFresh(History(hasStore, mid), before, second);
    ThreeRows(c, History(hasStore, s), a, b, x, rest, History(hasStore, AfterRun(c, cfg, hasStore, mid, second)), first, second);
  }

  lemma ClosingRun(c: Crypto, cfg: Config, hasStore: bool, s: LogState, inp: Input) returns (a: Envelope, b: Envelope)
    requires Inv(c, hasStore, s) && StoresBoth(c, cfg, hasStore, s, inp)
    ensures Grows(c, hasStore, s, AfterRun(c, cfg, hasStore, s, inp), [a, b])
    ensures a.body.agentActionId == inp.actionId && b.body.agentActionId == inp.actionId
  {
    var triage, close, none := RunStores(c, cfg, hasStore, s, inp);
    ClosedIsNotInvestigated(c, cfg, inp);
    a, b := BothRows(triage, close, none, inp.actionId);
  }

  lemma BothRows(triage: seq<Envelope>, close: seq<Envelope>, none: seq<Envelope>, id: Uuid) returns (a: Envelope, b: Envelope)
    requires triage != [] && close != [] && none == [] && RowsFor(triage, id) && RowsFor(close, id)
    ensures triage + close + none == [a, b] && a.body.agentActionId == id && b.body.agentActionId == id
  {
    a, b := triage[0], close[0];
  }

  lemma StoringRun(c: Crypto, cfg: Config, hasStore: bool, s: LogState, inp: Input) returns (x: Envelope, rest: seq<Envelope>)
    requires Inv(c, hasStore, s) && Stores(hasStore, s, inp.triageFault)
    ensures Grows(c, hasStore, s, AfterRun(c, cfg, hasStore, s, inp), [x] + rest)
    ensures x.body.agentActionId == inp.actionId
  {
    var triage, close, investigation := RunStores(c, cfg, hasStore, s, inp);
    x, rest := FirstRow(triage, close, investigation, inp.actionId);
  }

  lemma FirstRow(triage: seq<Envelope>, close: seq<Envelope>, investigation: seq<Envelope>, id: Uuid)
    returns (x: Envelope, rest: seq<Envelope>)
    requires triage != [] && RowsFor(triage, id)
    ensures triage + close + investigation == [x] + rest && x.body.agentActionId == id
  {
    x, rest := triage[0], close + investigation;
  }

  lemma TwoRunsGrow(c: Crypto, hasStore: bool, s: LogState, mid: LogState, end: LogState, a: Envelope, b: Envelope,
                    x: Envelope, rest: seq<Envelope>)
    requires Grows(c, hasStore, s, mid, [a, b]) && Grows(c, hasStore, mid, end, [x] + rest) && Readable(hasStore, end)
    ensures Readable(hasStore, mid) && History(hasStore, mid) == History(hasStore, s) + [a, b]
    ensures History(hasStore, end) == History(hasStore, s) + [a, b] + [x] + rest
    ensures Linked(c, History(hasStore, end))
  {
    ReadsHistory(c, hasStore, end);
    assert History(hasStore, mid) + ([x] + rest) == History(hasStore, mid) + [x] + rest;
  }

  lemma AfterSnoc(c: Crypto, cfg: Config, hasStore: bool, runs: seq<Input>, last: Input)
    ensures After(c, cfg, hasStore, runs + [last]) == AfterRun(c, cfg, hasStore, After(c, cfg, hasStore, runs), last)
  {
    assert (runs + [last])[..|runs|] == runs;
  }

  lemma ClosedIsNotInvestigated(c: Crypto, cfg: Config, inp: Input)
    requires AutoCloses(c, cfg, inp)
    ensures !Investigates(cfg, Decide(cfg, inp))
  {
    RunReports(c, cfg, inp);
  }

  lemma ThreeRows(c: Crypto, before: seq<Envelope>, a: Envelope, b: Envelope, x: Envelope, rest: seq<Envelope>, log: seq<Envelope>,
                  first: Input, second: Input)
    requires Sound(c) && Linked(c, log) && log == before + [a, b] + [x] + rest
    requires a.body.agentActionId == first.actionId && b.body.agentActionId == first.actionId
    requires x.body.agentActionId == second.actionId
    requires forall i :: 0 <= i < |before + [a, b]| ==> !Uses(second, (before + [a, b])[i].body.agentActionId)
    ensures Spoils(c, before, log, first, second)
  {
    var p := |before|;
    assert log[p] == a && log[p + 1] == b && log[p + 2] == x;
    assert Repeated(log, p + 1);
    forall i | 0 <= i < p + 2 ensures log[i].body.agentActionId != log[p + 2].body.agentActionId {
      assert log[i] == (before + [a, b])[i];
    }
    RowAfterRepeatFails(c, c.verifyingKey, log, p + 1);
  }

  ghost predicate FaultFree(runs: seq<Input>)
  {
    forall k :: 0 <= k < |runs| ==>
      runs[k].triageFault.NoFault? && runs[k].closeFault.NoFault? && runs[k].investigationFault.NoFault?
  }

  /** When no write fails, that is, with or without an object store: exactly when nothing was closed automatically. */
  lemma FaultFreeLogVerifiesIff(c: Crypto, cfg: Config, hasStore: bool, runs: seq<Input>)
    requires Sound(c) && FreshIds(runs) && FaultFree(runs)
    ensures var log := ReadAll(hasStore, After(c, cfg, hasStore, runs));
            && log.Ok?
            && (Verifies(c, c.verifyingKey, log.value) <==> forall k :: 0 <= k < |runs| ==> !AutoCloses(c, cfg, runs[k]))
  {
    TriageLogVerifiesIff(c, cfg, hasStore, runs);
    FaultFreeIsTidy(c, cfg, hasStore, runs);
    forall k | 0 <= k < |runs|
      ensures StoresBoth(c, cfg, hasStore, After(c, cfg, hasStore, runs[..k]), runs[k]) <==> AutoCloses(c, cfg, runs[k])
    {
      FaultFreeStoresBoth(c, cfg, hasStore, After(c, cfg, hasStore, runs[..k]), runs[k]);
    }
  }

  lemma FaultFreeStoresBoth(c: Crypto, cfg: Config, hasStore: bool, s: LogState, inp: Input)
    requires inp.triageFault.NoFault? && inp.closeFault.NoFault?
    ensures StoresBoth(c, cfg, hasStore, s, inp) <==> AutoCloses(c, cfg, inp)
  {
  }

  ghost predicate FaultFreeEvents(events: seq<Event>)
  {
    forall i :: 0 <= i < |events| ==> events[i].AppendRow? && events[i].fault.NoFault?
  }

  lemma FaultFreeRun(c: Crypto, cfg: Config, inp: Input)
    requires FaultFree([inp])
    ensures FaultFreeEvents(EventsOf(c, cfg, inp, Decide(cfg, inp)))
  {
    assert [inp][0] == inp;
  }

  lemma {:induction false} FaultFreeRunStaysTidy(c: Crypto, hasStore: bool, s: LogState, events: seq<Event>)
    requires Inv(c, hasStore, s) && Tidy(hasStore, s)
    requires FaultFreeEvents(events)
    ensures Inv(c, hasStore, Run(c, hasStore, s, events).state) && Tidy(hasStore, Run(c, hasStore, s, events).state)
  {
    if events != [] {
      var n := |events| - 1;
      FaultFreeRunStaysTidy(c, hasStore, s, events[..n]);
      FaultFreeStaysTidy(c, hasStore, Run(c, hasStore, s, events[..n]).state, events[n].body);
    }
  }

  lemma {:induction false} FaultFreeIsTidy(c: Crypto, cfg: Config, hasStore: bool, runs: seq<Input>)
    requires FaultFree(runs)
    ensures Inv(c, hasStore, After(c, cfg, hasStore, runs)) && Tidy(hasStore, After(c, cfg, hasStore, runs))
  {
    if runs == [] {
      RunKeepsInv(c, hasStore, EMPTY, []);
    } else {
      var n := |runs| - 1;
      assert forall k :: 0 <= k < n ==> runs[..n][k] == runs[k];
      FaultFreeIsTidy(c, cfg, hasStore, runs[..n]);
      FaultFreeRun(c, cfg, runs[n]);
      FaultFreeRunStaysTidy(c, hasStore, After(c, cfg, hasStore, runs[..n]), EventsOf(c, cfg, runs[n], Decide(cfg, runs[n])));
    }
  }

  lemma PrefixFresh(runs: seq<Input>, k: nat)
    requires FreshIds(runs) && k <= |runs|
    ensures FreshIds(runs[..k])
  {
    assert forall i :: 0 <= i < k ==> runs[..k][i] == runs[i];
  }
}
