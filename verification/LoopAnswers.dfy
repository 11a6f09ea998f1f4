/**
 What every message of a transcript comes from, and what a loop makes of the model's last word. All of
 it is said in terms of the model, the gateway and the parsers alone.
 */
module LoopAnswers {
  import opened Wrappers
  import opened Text
  import opened Envelopes
  import opened Guardrails
  import opened LlmLoop
  import opened LoopProperties

  // ---- Tool calls ----

  /** Policy allowed the call, which is the `k`-th of the run. */
  ghost predicate LetThrough(w: World, k: nat, tc: ToolCall)
  {
    w.invoke(k, tc).Replied? && w.invoke(k, tc).record.policyDecision == "allow"
  }

  ghost predicate SomeLetThrough(w: World, calls: seq<ToolCall>)
  {
    exists k :: 0 <= k < |calls| && LetThrough(w, k, calls[k])
  }

  /** The id is that of an allowed call. */
  ghost predicate IsReal(w: World, calls: seq<ToolCall>, id: string)
  {
    exists k :: 0 <= k < |calls| && calls[k].id == id && LetThrough(w, k, calls[k])
  }

  /** What the model is shown of a call: the result, or else the error, or else that it was denied. */
  ghost predicate Shows(w: World, k: nat, tc: ToolCall, text: string)
  {
    match w.invoke(k, tc)
    case Replied(result, error, _) =>
      if result.Some? then text == result.value
      else if error.Some? then text == error.value
      else text == "tool denied"
    case Unreachable(e) => text == "error: " + e
  }

  /** What is recorded of a call: the gateway's own record, or that none came. */
  ghost predicate Logs(w: World, k: nat, tc: ToolCall, record: ToolCallRecord)
  {
    match w.invoke(k, tc)
    case Replied(_, _, own) => record == own
    case Unreachable(e) =>
      && record.toolId == tc.name && record.policyDecision == "error" && record.latencyMs == 0
      && record.argsHash == w.hashText(tc.arguments) && record.resultHash == w.hashText(e)
  }

  lemma OutputShows(w: World, k: nat, tc: ToolCall)
    ensures Shows(w, k, tc, OutputOf(w, k, tc)) && Logs(w, k, tc, RecordOf(w, k, tc))
    ensures Allowed(RecordOf(w, k, tc)) <==> LetThrough(w, k, tc)
  {
  }

  lemma RetrievedIff(w: World, calls: seq<ToolCall>)
    ensures HasRetrievedEvidence(RecordsOf(w, calls)) <==> SomeLetThrough(w, calls)
  {
    forall k | 0 <= k < |calls| ensures Allowed(RecordsOf(w, calls)[k]) <==> LetThrough(w, k, calls[k]) {
      OutputShows(w, k, calls[k]);
    }
  }

  lemma RealIff(w: World, calls: seq<ToolCall>, id: string)
    ensures id in AllowedIds(w, calls) <==> IsReal(w, calls, id)
  {
    AllowedIdsExactly(w, calls, id);
    forall k | 0 <= k < |calls| ensures Allowed(RecordOf(w, k, calls[k])) <==> LetThrough(w, k, calls[k]) {
      OutputShows(w, k, calls[k]);
    }
  }

  lemma SomeIdIff(w: World, calls: seq<ToolCall>)
    ensures AllowedIds(w, calls) != [] <==> SomeLetThrough(w, calls)
  {
    var ids := AllowedIds(w, calls);
    if ids != [] {
      RealIff(w, calls, ids[0]);
    }
    if SomeLetThrough(w, calls) {
      var k :| 0 <= k < |calls| && LetThrough(w, k, calls[k]);
      RealIff(w, calls, calls[k].id);
    }
  }

  // ---- The model's answers ----

  /** The answer to this transcript asks for tools: natively, or else in its text. */
  ghost predicate Requests(w: World, m: seq<ChatMessage>, content: string, calls: seq<ToolCall>)
  {
    && w.chat(m).Ok?
    && var answer := w.chat(m).value;
    && answer.content == content && calls != []
    && if answer.toolCalls != [] then calls == answer.toolCalls else w.callsInText(content) == Some(calls)
  }

  /** The answer is a verdict text: it asks for no tool in either way. */
  ghost predicate Speaks(w: World, m: seq<ChatMessage>, content: string)
  {
    && w.chat(m) == Ok(ChatResponse(content, []))
    && (w.callsInText(content) == None || w.callsInText(content) == Some([]))
  }

  ghost predicate Judges(w: World, m: seq<ChatMessage>, content: string, mv: ModelVerdict)
  {
    Speaks(w, m, content) && w.parseVerdict(content) == Ok(mv)
  }

  /** The verdict that a word of the model stands for. */
  ghost predicate Says(word: string, v: Verdict)
  {
    && (v == TruePositive <==> InAnyCase(word, "true_positive") || InAnyCase(word, "true positive"))
    && (v == FalsePositive <==> InAnyCase(word, "false_positive") || InAnyCase(word, "false positive"))
    && (v == Benign <==> InAnyCase(word, "benign"))
    && v != EscalatedStub
  }

  lemma ParseVerdictSays(word: string)
    ensures Says(word, ParseVerdict(word))
  {
    InAnyCaseIff(word, "true_positive");
    InAnyCaseIff(word, "true positive");
    InAnyCaseIff(word, "false_positive");
    InAnyCaseIff(word, "false positive");
    InAnyCaseIff(word, "benign");
  }

  /** Everything cited is real, and a text that makes claims cites something. */
  ghost predicate CitesProperly(w: World, calls: seq<ToolCall>, mv: ModelVerdict)
  {
    var inline := CitationIds(w.heuristics.isWhitespace, mv.reasoning);
    && (forall id :: id in mv.evidenceCitations ==> IsReal(w, calls, id))
    && (forall id :: id in inline ==> IsReal(w, calls, id))
    && (mv.evidenceCitations != [] || inline != [] || w.heuristics.uncited(mv.reasoning) == [])
  }

  /** The guardrails of the loop let the verdict pass. */
  ghost predicate Passes(w: World, cfg: LoopConfig, calls: seq<ToolCall>, mv: ModelVerdict)
  {
    match cfg.kind
    case Specialist(requireRetrieval) => requireRetrieval ==> SomeLetThrough(w, calls)
    case _ => cfg.enforced ==> SomeLetThrough(w, calls) && CitesProperly(w, calls, mv)
  }

  lemma ReportPassesIff(w: World, calls: seq<ToolCall>, mv: ModelVerdict)
    ensures ValidateCitations(w.heuristics, mv.reasoning, mv.evidenceCitations, AllowedIds(w, calls)).passed <==>
            CitesProperly(w, calls, mv)
  {
    CitationsPassIff(w.heuristics, mv.reasoning, mv.evidenceCitations, AllowedIds(w, calls));
    forall id ensures id in AllowedIds(w, calls) <==> IsReal(w, calls, id) {
      RealIff(w, calls, id);
    }
  }

  // ---- The transcript ----

  /** The number of tool results of a transcript. */
  ghost function Results(m: seq<ChatMessage>): nat
  {
    if m == [] then 0 else Results(m[..|m| - 1]) + if m[|m| - 1].ToolResult? then 1 else 0
  }

  /** The prompt that a refused verdict is answered with: retrieve first, or these citations are wrong. */
  ghost predicate Reproves(w: World, cfg: LoopConfig, calls: seq<ToolCall>, mv: ModelVerdict, text: string)
  {
    if !SomeLetThrough(w, calls) then
      text == w.prompt(if cfg.kind.Triager? then RetrievalReprompt else InvestigatorReprompt)
    else
      text == w.prompt(CitationReprompt(ValidateCitations(w.heuristics, mv.reasoning, mv.evidenceCitations, AllowedIds(w, calls))))
  }

  ghost predicate Reprompts(w: World, cfg: LoopConfig, m: seq<ChatMessage>, content: string, mv: ModelVerdict, text: string)
  {
    Judges(w, m, content, mv) && !Passes(w, cfg, Calls(m), mv) && Reproves(w, cfg, Calls(m), mv, text)
  }

  /**
   `x` may come after the transcript `m`. An assistant message is what the model asked for when it was
   shown `m`; the `k`-th tool result shows what the gateway said to the `k`-th call; and the model is
   prompted to conclude, only when it has retrieved something, or because its verdict was refused.
   */
  ghost predicate MayFollow(w: World, cfg: LoopConfig, m: seq<ChatMessage>, x: ChatMessage)
  {
    match x
    case System(_) => false
    case Assistant(content, calls) => calls.Some? && Requests(w, m, content, calls.value)
    case ToolResult(id, text) =>
      Results(m) < |Calls(m)| && id == Calls(m)[Results(m)].id && Shows(w, Results(m), Calls(m)[Results(m)], text)
    case User(text) =>
      && !cfg.kind.Specialist?
      && (|| (text == w.prompt(Nudge) && SomeLetThrough(w, Calls(m)))
          || exists content, mv :: Reprompts(w, cfg, m, content, mv, text))
  }

  ghost predicate Opens(m: seq<ChatMessage>, system: string, user: string)
  {
    |m| >= 2 && m[0] == System(system) && m[1] == User(user)
  }

  ghost predicate Explained(w: World, cfg: LoopConfig, m: seq<ChatMessage>)
  {
    forall j :: 2 <= j < |m| ==> MayFollow(w, cfg, m[..j], m[j])
  }

  lemma ExplainedNext(w: World, cfg: LoopConfig, m: seq<ChatMessage>, x: ChatMessage)
    requires Explained(w, cfg, m) && MayFollow(w, cfg, m, x)
    ensures Explained(w, cfg, m + [x])
    ensures Calls(m + [x]) == Calls(m) + if x.Assistant? && x.toolCalls.Some? then x.toolCalls.value else []
    ensures Results(m + [x]) == Results(m) + if x.ToolResult? then 1 else 0
  {
    var n := m + [x];
    assert n[..|m|] == m;
    forall j | 2 <= j < |n| ensures MayFollow(w, cfg, n[..j], n[j]) {
      if j < |m| {
        assert n[..j] == m[..j] && n[j] == m[j];
      }
    }
  }

  /** Between two turns every call has its result. */
  ghost predicate Told(w: World, cfg: LoopConfig, system: string, user: string, m: seq<ChatMessage>)
  {
    Opens(m, system, user) && Explained(w, cfg, m) && Results(m) == |Calls(m)|
  }

  lemma StartIsTold(w: World, cfg: LoopConfig, system: string, user: string)
    ensures Told(w, cfg, system, user, Start(system, user).messages)
  {
    var m := Start(system, user).messages;
    QuietTail([], m);
    assert [] + m == m && m[..1][..0] == [];
    assert Results(m[..1]) == 0;
  }

  /** In the middle of a round: the calls from `n` on are still to be made. */
  ghost predicate Underway(w: World, cfg: LoopConfig, system: string, user: string, st: LoopState, all: seq<ToolCall>, n: nat)
  {
    && Opens(st.messages, system, user) && Explained(w, cfg, st.messages)
    && Calls(st.messages) == all && Results(st.messages) == n == |st.records|
  }

  lemma {:induction false} CallsAreTold(w: World, cfg: LoopConfig, system: string, user: string, st: LoopState,
                                       before: seq<ToolCall>, calls: seq<ToolCall>, all: seq<ToolCall>)
    requires before + calls <= all && Underway(w, cfg, system, user, st, all, |before|)
    ensures Underway(w, cfg, system, user, ExecuteCalls(w, st, calls), all, |before| + |calls|)
  {
    if calls != [] {
      var n := |calls| - 1;
      assert before + calls[..n] <= before + calls;
      CallsAreTold(w, cfg, system, user, st, before, calls[..n], all);
      assert calls[n] == (before + calls)[|before| + n];
      CallIsTold(w, cfg, system, user, ExecuteCalls(w, st, calls[..n]), calls[n], all);
    }
  }

  lemma CallIsTold(w: World, cfg: LoopConfig, system: string, user: string, st: LoopState, tc: ToolCall, all: seq<ToolCall>)
    requires Underway(w, cfg, system, user, st, all, |st.records|)
    requires |st.records| < |all| && all[|st.records|] == tc
    ensures Underway(w, cfg, system, user, ExecuteCall(w, st, tc), all, |st.records| + 1)
  {
    OutputShows(w, |st.records|, tc);
    ExplainedNext(w, cfg, st.messages, ToolResult(tc.id, OutputOf(w, |st.records|, tc)));
  }

  lemma RoundIsTold(w: World, cfg: LoopConfig, system: string, user: string, i: u8, st: LoopState, content: string, calls: seq<ToolCall>)
    requires Told(w, cfg, system, user, st.messages) && FollowsCalls(w, st) && Requests(w, st.messages, content, calls)
    ensures Told(w, cfg, system, user, ToolRound(w, cfg, i, st, content, calls).messages)
  {
    var asked := st.(
      beliefs := st.beliefs + [IntermediateBelief(i, w.note(Requesting(if cfg.kind.Specialist? then "" else content, |calls|)), None)],
      messages := st.messages + [Assistant(content, Some(calls))]);
    AskedIsTold(w, cfg, system, user, st, asked, content, calls);
    NudgeIsTold(w, cfg, system, user, ExecuteCalls(w, asked, calls));
  }

  lemma AskedIsTold(w: World, cfg: LoopConfig, system: string, user: string, st: LoopState, asked: LoopState,
                    content: string, calls: seq<ToolCall>)
    requires Told(w, cfg, system, user, st.messages) && FollowsCalls(w, st) && Requests(w, st.messages, content, calls)
    requires asked == st.(beliefs := asked.beliefs, messages := st.messages + [Assistant(content, Some(calls))])
    ensures var done := ExecuteCalls(w, asked, calls);
            Told(w, cfg, system, user, done.messages) && done.okIds == AllowedIds(w, Calls(done.messages))
  {
    var before := Calls(st.messages);
    ExplainedNext(w, cfg, st.messages, Assistant(content, Some(calls)));
    CallsAreTold(w, cfg, system, user, asked, before, calls, before + calls);
    CallsAreExecuted(w, asked, before, calls);
  }

  lemma NudgeIsTold(w: World, cfg: LoopConfig, system: string, user: string, done: LoopState)
    requires Told(w, cfg, system, user, done.messages) && done.okIds == AllowedIds(w, Calls(done.messages))
    ensures !cfg.kind.Specialist? && done.okIds != [] ==>
              Told(w, cfg, system, user, done.messages + [User(w.prompt(Nudge))])
  {
    SomeIdIff(w, Calls(done.messages));
    if !cfg.kind.Specialist? && done.okIds != [] {
      ExplainedNext(w, cfg, done.messages, User(w.prompt(Nudge)));
    }
  }

  // ---- The end ----

  /** What the result of a loop rests on, given the transcript it stopped with. */
  ghost predicate Concludes(w: World, cfg: LoopConfig, o: Outcome)
  {
    var m := o.final.messages;
    match o.result
    case Err(Provider(e)) => w.chat(m) == Err(e)
    case Err(InvalidVerdict(e)) => exists content :: Speaks(w, m, content) && w.parseVerdict(content) == Err(e)
    case Err(MaxIterations(max)) => max == cfg.maxIterations && max as nat == Rounds(m) + o.final.retries
    case Ok(r) => exists content, mv :: Judges(w, m, content, mv) && Decides(w, cfg, Calls(m), r, content, mv)
  }

  /**
   A verdict that passes is the model's own, with its citations and its confidence; one that does not,
   when the loop gives up, becomes `NeedsInvestigation`.
   */
  ghost predicate Decides(w: World, cfg: LoopConfig, calls: seq<ToolCall>, r: LoopResult, content: string, mv: ModelVerdict)
  {
    && (Passes(w, cfg, calls, mv) ==>
          && Says(mv.verdict, r.verdict) && r.citations == mv.evidenceCitations
          && r.beliefs != []
          && Believes(w, r.beliefs[|r.beliefs| - 1], Final(if cfg.kind.Specialist? then "" else content, mv.reasoning), mv.confidence))
    && (!Passes(w, cfg, calls, mv) ==>
          && r.verdict == NeedsInvestigation
          && r.citations == (if SomeLetThrough(w, calls) then mv.evidenceCitations else [])
          && (cfg.kind.Specialist? || r.retries == cfg.retriesCap)
          && (cfg.kind.Triager? ==>
                r.beliefs != []
                && Believes(w, r.beliefs[|r.beliefs| - 1], if SomeLetThrough(w, calls) then CitationCapped else NoRetrievalCapped,
                            Some(Percent(0)))))
  }

  ghost predicate Believes(w: World, belief: IntermediateBelief, note: Note, confidence: Option<Score>)
  {
    belief.contentSummary == w.note(note) && belief.selfReportedConfidence == confidence
  }

  /** What a turn leaves: a longer transcript in the same manner, or a result that rests on it. */
  ghost predicate TurnTold(w: World, cfg: LoopConfig, system: string, user: string, t: Turn)
  {
    match t
    case Continue(next) => Told(w, cfg, system, user, next.messages)
    case Stop(o) => Told(w, cfg, system, user, o.final.messages) && Concludes(w, cfg, o)
  }

  lemma AcceptConcludes(w: World, cfg: LoopConfig, i: u8, st: LoopState, content: string, mv: ModelVerdict)
    requires i < 255 && Judges(w, st.messages, content, mv) && Passes(w, cfg, Calls(st.messages), mv)
    ensures var t := Accept(w, i, st, if cfg.kind.Specialist? then "" else content, mv);
            t.Stop? && t.outcome.final.messages == st.messages && Concludes(w, cfg, t.outcome)
  {
    ParseVerdictSays(mv.verdict);
    var t := Accept(w, i, st, if cfg.kind.Specialist? then "" else content, mv);
    assert Decides(w, cfg, Calls(st.messages), t.outcome.result.value, content, mv);
  }

  lemma RefuseTold(w: World, cfg: LoopConfig, system: string, user: string, i: u8, st: LoopState, content: string, mv: ModelVerdict,
                   capped: Note, retry: Note, prompt: Prompt, citations: seq<string>)
    requires i < 255 && Told(w, cfg, system, user, st.messages) && !cfg.kind.Specialist? && st.retries <= cfg.retriesCap
    requires Judges(w, st.messages, content, mv) && !Passes(w, cfg, Calls(st.messages), mv)
    requires Reproves(w, cfg, Calls(st.messages), mv, w.prompt(prompt))
    requires citations == if SomeLetThrough(w, Calls(st.messages)) then mv.evidenceCitations else []
    requires capped == if SomeLetThrough(w, Calls(st.messages)) then CitationCapped else NoRetrievalCapped
    ensures TurnTold(w, cfg, system, user, Refuse(w, cfg, i, st, capped, retry, prompt, citations))
  {
    var t := Refuse(w, cfg, i, st, capped, retry, prompt, citations);
    if st.retries >= cfg.retriesCap {
      assert Decides(w, cfg, Calls(st.messages), t.outcome.result.value, content, mv);
    } else {
      assert Reprompts(w, cfg, st.messages, content, mv, w.prompt(prompt));
      ExplainedNext(w, cfg, st.messages, User(w.prompt(prompt)));
    }
  }

  lemma VerdictIsTold(w: World, cfg: LoopConfig, system: string, user: string, i: u8, st: LoopState, content: string)
    requires i < cfg.maxIterations && LoopInv(w, cfg, i, st) && Told(w, cfg, system, user, st.messages)
    requires Speaks(w, st.messages, content)
    ensures TurnTold(w, cfg, system, user, VerdictTurn(w, cfg, i, st, content))
  {
    if w.parseVerdict(content).Ok? {
      var mv := w.parseVerdict(content).value;
      RetrievedIff(w, Calls(st.messages));
      assert Judges(w, st.messages, content, mv);
      if cfg.kind.Specialist? {
        SpecialistIsTold(w, cfg, i, st, content, mv);
      } else {
        GuardedIsTold(w, cfg, system, user, i, st, content, mv);
      }
    }
  }

  lemma SpecialistIsTold(w: World, cfg: LoopConfig, i: u8, st: LoopState, content: string, mv: ModelVerdict)
    requires i < 255 && FollowsCalls(w, st) && cfg.kind.Specialist? && Judges(w, st.messages, content, mv)
    ensures var t := VerdictTurn(w, cfg, i, st, content);
            t.Stop? && t.outcome.final.messages == st.messages && Concludes(w, cfg, t.outcome)
  {
    RetrievedIff(w, Calls(st.messages));
    if Passes(w, cfg, Calls(st.messages), mv) {
      AcceptConcludes(w, cfg, i, st, content, mv);
    } else {
      var r := LoopResult(NeedsInvestigation, st.records, st.beliefs, [], i + 1, st.retries);
      assert Decides(w, cfg, Calls(st.messages), r, content, mv);
    }
  }

  lemma GuardedIsTold(w: World, cfg: LoopConfig, system: string, user: string, i: u8, st: LoopState, content: string, mv: ModelVerdict)
    requires i < cfg.maxIterations && LoopInv(w, cfg, i, st) && Told(w, cfg, system, user, st.messages)
    requires !cfg.kind.Specialist? && Judges(w, st.messages, content, mv)
    ensures TurnTold(w, cfg, system, user, VerdictTurn(w, cfg, i, st, content))
  {
    var calls := Calls(st.messages);
    var report := ValidateCitations(w.heuristics, mv.reasoning, mv.evidenceCitations, st.okIds);
    GuardedCases(w, cfg, i, st, content);
    RetrievedIff(w, calls);
    ReportPassesIff(w, calls, mv);
    if cfg.enforced && !HasRetrievedEvidence(st.records) {
      RefuseTold(w, cfg, system, user, i, st, content, mv, NoRetrievalCapped, NoRetrievalRetry((st.retries as nat) + 1),
                 if cfg.kind.Triager? then RetrievalReprompt else InvestigatorReprompt, []);
    } else if cfg.enforced && !report.passed {
      RefuseTold(w, cfg, system, user, i, st, content, mv, CitationCapped, CitationRetry((st.retries as nat) + 1),
                 CitationReprompt(report), mv.evidenceCitations);
    } else {
      AcceptConcludes(w, cfg, i, st, content, mv);
    }
  }

  lemma TurnIsTold(w: World, cfg: LoopConfig, system: string, user: string, i: u8, st: LoopState)
    requires i < cfg.maxIterations && LoopInv(w, cfg, i, st) && Told(w, cfg, system, user, st.messages)
    ensures TurnTold(w, cfg, system, user, OneTurn(w, cfg, i, st))
  {
    if w.chat(st.messages).Ok? {
      var answer := w.chat(st.messages).value;
      var calls := CallsOf(w, answer);
      if calls != [] {
        RoundIsTold(w, cfg, system, user, i, st, answer.content, calls);
      } else {
        VerdictIsTold(w, cfg, system, user, i, st, answer.content);
      }
    }
  }

  ghost predicate EndTold(w: World, cfg: LoopConfig, system: string, user: string, o: Outcome)
  {
    Told(w, cfg, system, user, o.final.messages) && Concludes(w, cfg, o)
  }

  lemma LastTurnIsTold(w: World, cfg: LoopConfig, system: string, user: string, st: LoopState)
    requires LoopInv(w, cfg, cfg.maxIterations, st) && Told(w, cfg, system, user, st.messages)
    ensures EndTold(w, cfg, system, user, Outcome(Err(MaxIterations(cfg.maxIterations)), st))
  {
  }

  lemma NextTurnIsTold(w: World, cfg: LoopConfig, system: string, user: string, i: u8, st: LoopState, t: Turn)
    requires i < cfg.maxIterations && LoopInv(w, cfg, i, st) && Told(w, cfg, system, user, st.messages)
    requires t == OneTurn(w, cfg, i, st)
    ensures t.Continue? ==> LoopInv(w, cfg, (i as nat) + 1, t.state) && Told(w, cfg, system, user, t.state.messages)
    ensures t.Stop? ==> EndTold(w, cfg, system, user, t.outcome)
  {
    TurnKeepsInv(w, cfg, i, st);
    TurnIsTold(w, cfg, system, user, i, st);
  }

  /** The turn keeps `inv` or ends the loop with `end`. */
  ghost predicate TurnKeeps(t: Turn, next: nat, inv: (nat, LoopState) -> bool, end: Outcome -> bool)
  {
    match t
    case Continue(st) => inv(next, st)
    case Stop(o) => end(o)
  }

  /** Induction over the turns of a loop. */
  lemma {:induction false} LoopInduction(w: World, cfg: LoopConfig, i: u8, st: LoopState,
                                         inv: (nat, LoopState) -> bool, end: Outcome -> bool)
    requires i <= cfg.maxIterations && inv(i, st)
    requires forall j: nat, s {:trigger inv(j, s)} ::
               j < cfg.maxIterations && inv(j, s) ==> TurnKeeps(OneTurn(w, cfg, j, s), j + 1, inv, end)
    requires forall s {:trigger inv(cfg.maxIterations, s)} ::
               inv(cfg.maxIterations, s) ==> end(Outcome(Err(MaxIterations(cfg.maxIterations)), s))
    ensures end(Loop(w, cfg, i, st))
    decreases cfg.maxIterations - i
  {
    if i < cfg.maxIterations {
      var t := OneTurn(w, cfg, i, st);
      assert TurnKeeps(t, (i as nat) + 1, inv, end);
      if t.Continue? {
        LoopInduction(w, cfg, i + 1, t.state, inv, end);
      }
    }
  }

  lemma LoopIsTold(w: World, cfg: LoopConfig, system: string, user: string, st: LoopState)
    requires LoopInv(w, cfg, 0, st) && Told(w, cfg, system, user, st.messages)
    ensures EndTold(w, cfg, system, user, Loop(w, cfg, 0, st))
  {
    ghost var inv := (j: nat, s: LoopState) => LoopInv(w, cfg, j, s) && Told(w, cfg, system, user, s.messages);
    ghost var end := (o: Outcome) => EndTold(w, cfg, system, user, o);
    forall j: nat, s | j < cfg.maxIterations && inv(j, s) ensures TurnKeeps(OneTurn(w, cfg, j, s), j + 1, inv, end) {
      NextTurnIsTold(w, cfg, system, user, j, s, OneTurn(w, cfg, j, s));
    }
    forall s | inv(cfg.maxIterations, s) ensures end(Outcome(Err(MaxIterations(cfg.maxIterations)), s)) {
      LastTurnIsTold(w, cfg, system, user, s);
    }
    LoopInduction(w, cfg, 0, st, inv, end);
  }

  /**
   Whatever the model and the gateway do: every message of the transcript has its reason, and the
   result is what the model's last word comes to.
   */
  lemma EveryRunIsExplained(w: World, cfg: LoopConfig, system: string, user: string)
    ensures var o := Loop(w, cfg, 0, Start(system, user));
            && Opens(o.final.messages, system, user)
            && Explained(w, cfg, o.final.messages)
            && Concludes(w, cfg, o)
  {
    StartInv(w, cfg, system, user);
    StartIsTold(w, cfg, system, user);
    LoopIsTold(w, cfg, system, user, Start(system, user));
  }

  /** The records of a result are those of its calls, one each and in order. */
  lemma RecordsAreLogged(w: World, cfg: LoopConfig, system: string, user: string)
    ensures var o := Loop(w, cfg, 0, Start(system, user));
            var calls := Calls(o.final.messages);
            o.result.Ok? ==>
              && |o.result.value.records| == |calls|
              && forall k :: 0 <= k < |calls| ==> Logs(w, k, calls[k], o.result.value.records[k])
  {
    EveryRun(w, cfg, system, user);
    var o := Loop(w, cfg, 0, Start(system, user));
    var calls := Calls(o.final.messages);
    forall k | 0 <= k < |calls| ensures Logs(w, k, calls[k], RecordsOf(w, calls)[k]) {
      OutputShows(w, k, calls[k]);
    }
  }

  /** Every verdict but `NeedsInvestigation` is the model's own word, and has passed the guardrails. */
  lemma VerdictIsTheModels(w: World, cfg: LoopConfig, system: string, user: string) returns (content: string, mv: ModelVerdict)
    requires var o := Loop(w, cfg, 0, Start(system, user)); o.result.Ok?
    ensures var o := Loop(w, cfg, 0, Start(system, user));
            var m, r := o.final.messages, o.result.value;
            && Judges(w, m, content, mv)
            && (r.verdict != NeedsInvestigation ==> Passes(w, cfg, Calls(m), mv))
            && (Passes(w, cfg, Calls(m), mv) ==> Says(mv.verdict, r.verdict) && r.citations == mv.evidenceCitations)
  {
    EveryRunIsExplained(w, cfg, system, user);
    var o := Loop(w, cfg, 0, Start(system, user));
    content, mv :| Judges(w, o.final.messages, content, mv)
                   && Decides(w, cfg, Calls(o.final.messages), o.result.value, content, mv);
  }

  /**
   Acceptance: with the guardrails on, a verdict other than `NeedsInvestigation` is the model's word. It
   comes with a call that policy allowed, and everything it cites is the id of such a call of the run.
   */
  lemma AcceptedVerdictIsGrounded(w: World, cfg: LoopConfig, system: string, user: string) returns (content: string, mv: ModelVerdict)
    requires Enforced(cfg)
    requires var o := Loop(w, cfg, 0, Start(system, user)); o.result.Ok? && o.result.value.verdict != NeedsInvestigation
    ensures var o := Loop(w, cfg, 0, Start(system, user));
            var calls, r := Calls(o.final.messages), o.result.value;
            && Judges(w, o.final.messages, content, mv) && Says(mv.verdict, r.verdict)
            && SomeLetThrough(w, calls)
            && r.citations == mv.evidenceCitations && CitesProperly(w, calls, mv)
            && (exists k :: 0 <= k < |r.records| && r.records[k].policyDecision == "allow")
  {
    content, mv := VerdictIsTheModels(w, cfg, system, user);
    RecordsAreLogged(w, cfg, system, user);
    var o := Loop(w, cfg, 0, Start(system, user));
    var calls := Calls(o.final.messages);
    var k :| 0 <= k < |calls| && LetThrough(w, k, calls[k]);
    assert Logs(w, k, calls[k], o.result.value.records[k]);
  }

  /**
   A specialist that must retrieve has an allowed call behind every verdict but `NeedsInvestigation`;
   one that need not returns the model's own verdict whatever it did.
   */
  lemma SpecialistVerdict(w: World, cfg: LoopConfig, system: string, user: string) returns (content: string, mv: ModelVerdict)
    requires cfg.kind.Specialist?
    requires Loop(w, cfg, 0, Start(system, user)).result.Ok?
    ensures var o := Loop(w, cfg, 0, Start(system, user));
            var r, retrieved := o.result.value, SomeLetThrough(w, Calls(o.final.messages));
            && Judges(w, o.final.messages, content, mv)
            && (cfg.kind.requireRetrieval && !retrieved ==> r.verdict == NeedsInvestigation)
            && (!cfg.kind.requireRetrieval || retrieved ==> Says(mv.verdict, r.verdict))
  {
    content, mv := VerdictIsTheModels(w, cfg, system, user);
  }

  // ---- Turns ----

  /**
   A turn that asks for tools adds the request, one result a call and a belief. The model is told to
   conclude exactly when at most two turns are left and some call of the run was allowed, never a specialist.
   */
  lemma RoundAdds(w: World, cfg: LoopConfig, n: u8, st: LoopState, content: string, calls: seq<ToolCall>) returns (next: LoopState)
    requires n < cfg.maxIterations && LoopInv(w, cfg, n, st) && Requests(w, st.messages, content, calls)
    ensures OneTurn(w, cfg, n, st) == Continue(next)
    ensures var answered := |st.messages| + 1 + |calls|;
            && st.messages + [Assistant(content, Some(calls))] <= next.messages
            && if !cfg.kind.Specialist? && cfg.maxIterations - n <= 3 && SomeLetThrough(w, Calls(st.messages) + calls)
               then |next.messages| == answered + 1 && next.messages[answered] == User(w.prompt(Nudge))
               else |next.messages| == answered
    ensures |next.beliefs| == |st.beliefs| + 1 && st.beliefs <= next.beliefs
    ensures Believes(w, next.beliefs[|st.beliefs|], Requesting(if cfg.kind.Specialist? then "" else content, |calls|), None)
  {
    var asked := st.(
      beliefs := st.beliefs + [IntermediateBelief(n, w.note(Requesting(if cfg.kind.Specialist? then "" else content, |calls|)), None)],
      messages := st.messages + [Assistant(content, Some(calls))]);
    CallsAreExecuted(w, asked, Calls(st.messages), calls);
    SomeIdIff(w, Calls(st.messages) + calls);
    next := ToolRound(w, cfg, n, st, content, calls);
  }

  /** A refused verdict below the cap costs one retry and adds the prompt and a belief, nothing else. */
  lemma RetryAdds(w: World, cfg: LoopConfig, n: u8, st: LoopState, content: string, mv: ModelVerdict) returns (next: LoopState)
    requires n < cfg.maxIterations && LoopInv(w, cfg, n, st) && !cfg.kind.Specialist? && st.retries < cfg.retriesCap
    requires Judges(w, st.messages, content, mv) && !Passes(w, cfg, Calls(st.messages), mv)
    ensures OneTurn(w, cfg, n, st) == Continue(next)
    ensures next.retries == st.retries + 1 && next.records == st.records
    ensures |next.messages| == |st.messages| + 1 && st.messages <= next.messages
    ensures var x := next.messages[|st.messages|]; x.User? && Reproves(w, cfg, Calls(st.messages), mv, x.content)
    ensures |next.beliefs| == |st.beliefs| + 1 && st.beliefs <= next.beliefs
    ensures Believes(w, next.beliefs[|st.beliefs|],
                     if SomeLetThrough(w, Calls(st.messages)) then CitationRetry(next.retries) else NoRetrievalRetry(next.retries),
                     Some(Percent(0)))
  {
    RetrievedIff(w, Calls(st.messages));
    ReportPassesIff(w, Calls(st.messages), mv);
    GuardedCases(w, cfg, n, st, content);
    assert CallsOf(w, ChatResponse(content, [])) == [];
    assert OneTurn(w, cfg, n, st) == VerdictTurn(w, cfg, n, st, content);
    next := OneTurn(w, cfg, n, st).state;
  }
}
