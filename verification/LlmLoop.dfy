/**
 The three bounded agent loops (llm_loop.rs). The model and the tool gateway are adversaries: any
 functions of what they are shown. `Loop` says what a loop computes; the methods below do it.
 */
module LlmLoop {
  import opened Wrappers
  import opened Text
  import opened Envelopes
  import opened Guardrails

  type u8 = n: int | 0 <= n < 256

  datatype ToolCall = ToolCall(id: string, name: string, arguments: string)

  datatype ChatMessage =
    | System(content: string)
    | User(content: string)
    | Assistant(content: string, toolCalls: Option<seq<ToolCall>>)
    | ToolResult(toolCallId: string, content: string)

  datatype ChatResponse = ChatResponse(content: string, toolCalls: seq<ToolCall>)

  datatype ModelVerdict = ModelVerdict(
    verdict: string,
    confidence: Option<Score>,
    reasoning: string,
    evidenceCitations: seq<string>)

  /** What the gateway client returns: a reply, or an error when no usable reply came. */
  datatype GatewayReply =
    | Replied(result: Option<string>, error: Option<string>, record: ToolCallRecord)
    | Unreachable(text: string)

  /** The texts of beliefs and prompts, by occasion. */
  datatype Note =
    | Requesting(content: string, count: nat)
    | NoRetrievalCapped
    | NoRetrievalRetry(retry: nat)
    | CitationCapped
    | CitationRetry(retry: nat)
    | Final(raw: string, reasoning: string)

  datatype Prompt =
    | Nudge
    | RetrievalReprompt
    | InvestigatorReprompt
    | CitationReprompt(report: CitationReport)

  /**
   Everything a loop consults. `chat` sees the whole transcript; `invoke` sees the call and how many
   came before it; the parsers of model text are whatever they are.
   */
  datatype World = World(
    chat: seq<ChatMessage> -> Result<ChatResponse, string>,
    invoke: (nat, ToolCall) -> GatewayReply,
    callsInText: string -> Option<seq<ToolCall>>,
    parseVerdict: string -> Result<ModelVerdict, string>,
    heuristics: Heuristics,
    note: Note -> string,
    prompt: Prompt -> string,
    hashText: string -> string)

  datatype LoopKind = Triager | Investigator | Specialist(requireRetrieval: bool)

  datatype LoopConfig = LoopConfig(kind: LoopKind, enforced: bool, retriesCap: u8, maxIterations: u8)

  datatype LoopState = LoopState(
    messages: seq<ChatMessage>,
    records: seq<ToolCallRecord>,
    beliefs: seq<IntermediateBelief>,
    retries: u8,
    okIds: seq<string>)

  datatype LoopError = Provider(text: string) | MaxIterations(max: u8) | InvalidVerdict(text: string)

  datatype LoopResult = LoopResult(
    verdict: Verdict,
    records: seq<ToolCallRecord>,
    beliefs: seq<IntermediateBelief>,
    citations: seq<string>,
    totalIterations: u8,
    retries: u8)

  /** The result together with the state the loop stopped in. */
  datatype Outcome = Outcome(result: Result<LoopResult, LoopError>, final: LoopState)

  function ParseVerdict(s: string): Verdict
  {
    var t := AsciiLower(s);
    if t == "true_positive" || t == "true positive" then TruePositive
    else if t == "false_positive" || t == "false positive" then FalsePositive
    else if t == "benign" then Benign
    else NeedsInvestigation
  }

  // ---- A round of tool calls ----

  function RecordOf(w: World, n: nat, tc: ToolCall): ToolCallRecord
  {
    match w.invoke(n, tc)
    case Replied(_, _, record) => record
    case Unreachable(e) => ToolCallRecord(tc.name, w.hashText(tc.arguments), w.hashText(e), 0, "error")
  }

  function OutputOf(w: World, n: nat, tc: ToolCall): string
  {
    match w.invoke(n, tc)
    case Replied(Some(result), _, _) => result
    case Replied(None, Some(e), _) => e
    case Replied(None, None, _) => "tool denied"
    case Unreachable(e) => "error: " + e
  }

  function ExecuteCall(w: World, st: LoopState, tc: ToolCall): LoopState
  {
    var n := |st.records|;
    st.(records := st.records + [RecordOf(w, n, tc)],
        okIds := if Allowed(RecordOf(w, n, tc)) then st.okIds + [tc.id] else st.okIds,
        messages := st.messages + [ToolResult(tc.id, OutputOf(w, n, tc))])
  }

  function ExecuteCalls(w: World, st: LoopState, calls: seq<ToolCall>): LoopState
  {
    if calls == [] then st
    else ExecuteCall(w, ExecuteCalls(w, st, calls[..|calls| - 1]), calls[|calls| - 1])
  }

  function ToolRound(w: World, cfg: LoopConfig, i: u8, st: LoopState, content: string, calls: seq<ToolCall>): LoopState
  {
    var asked := st.(
      beliefs := st.beliefs + [IntermediateBelief(i, w.note(Requesting(if cfg.kind.Specialist? then "" else content, |calls|)), None)],
      messages := st.messages + [Assistant(content, Some(calls))]);
    var done := ExecuteCalls(w, asked, calls);
    if !cfg.kind.Specialist? && cfg.maxIterations - i - 1 <= 2 && done.okIds != []
    then done.(messages := done.messages + [User(w.prompt(Nudge))])
    else done
  }

  // ---- A verdict ----

  datatype Turn = Continue(state: LoopState) | Stop(outcome: Outcome)

  function WithBelief(w: World, st: LoopState, i: u8, note: Note, confidence: Option<Score>): LoopState
  {
    st.(beliefs := st.beliefs + [IntermediateBelief(i, w.note(note), confidence)])
  }

  function Answer(st: LoopState, i: u8, verdict: Verdict, citations: seq<string>): Turn
    requires i < 255
  {
    Stop(Outcome(Ok(LoopResult(verdict, st.records, st.beliefs, citations, i + 1, st.retries)), st))
  }

  /** A guardrail refused the verdict: prompt again while the cap allows, otherwise give up on a verdict. */
  function Refuse(w: World, cfg: LoopConfig, i: u8, st: LoopState, capped: Note, retry: Note, prompt: Prompt, citations: seq<string>): Turn
    requires i < 255
  {
    if st.retries >= cfg.retriesCap then
      Answer(if cfg.kind.Triager? then WithBelief(w, st, i, capped, Some(Percent(0))) else st, i, NeedsInvestigation, citations)
    else
      var told := WithBelief(w, st, i, retry, Some(Percent(0)));
      Continue(told.(retries := st.retries + 1, messages := st.messages + [User(w.prompt(prompt))]))
  }

  function Accept(w: World, i: u8, st: LoopState, raw: string, mv: ModelVerdict): Turn
    requires i < 255
  {
    Answer(WithBelief(w, st, i, Final(raw, mv.reasoning), mv.confidence), i, ParseVerdict(mv.verdict), mv.evidenceCitations)
  }

  function VerdictTurn(w: World, cfg: LoopConfig, i: u8, st: LoopState, raw: string): Turn
    requires i < 255
  {
    match w.parseVerdict(raw)
    case Err(e) => Stop(Outcome(Err(InvalidVerdict(e)), st))
    case Ok(mv) =>
      if cfg.kind.Specialist? then
        if cfg.kind.requireRetrieval && !HasRetrievedEvidence(st.records)
        then Answer(st, i, NeedsInvestigation, [])
        else Accept(w, i, st, "", mv)
      else if cfg.enforced && !HasRetrievedEvidence(st.records) then
        Refuse(w, cfg, i, st, NoRetrievalCapped, NoRetrievalRetry((st.retries as nat) + 1),
               if cfg.kind.Triager? then RetrievalReprompt else InvestigatorReprompt, [])
      else
        var report := ValidateCitations(w.heuristics, mv.reasoning, mv.evidenceCitations, st.okIds);
        if cfg.enforced && !report.passed then
          Refuse(w, cfg, i, st, CitationCapped, CitationRetry((st.retries as nat) + 1), CitationReprompt(report), mv.evidenceCitations)
        else Accept(w, i, st, raw, mv)
  }

  // ---- The loop ----

  /** Native tool calls, or else those found in the text. */
  function CallsOf(w: World, resp: ChatResponse): seq<ToolCall>
  {
    if resp.toolCalls != [] then resp.toolCalls
    else match w.callsInText(resp.content) case Some(calls) => calls case None => []
  }

  function OneTurn(w: World, cfg: LoopConfig, i: u8, st: LoopState): Turn
    requires i < 255
  {
    match w.chat(st.messages)
    case Err(e) => Stop(Outcome(Err(Provider(e)), st))
    case Ok(resp) =>
      var calls := CallsOf(w, resp);
      if calls != [] then Continue(ToolRound(w, cfg, i, st, resp.content, calls))
      else VerdictTurn(w, cfg, i, st, resp.content)
  }

  function Loop(w: World, cfg: LoopConfig, i: u8, st: LoopState): Outcome
    requires i <= cfg.maxIterations
    decreases cfg.maxIterations - i
  {
    if i == cfg.maxIterations then Outcome(Err(MaxIterations(cfg.maxIterations)), st)
    else match OneTurn(w, cfg, i, st)
      case Stop(outcome) => outcome
      case Continue(next) => Loop(w, cfg, i + 1, next)
  }

  function Start(system: string, user: string): LoopState
  {
    LoopState([System(system), User(user)], [], [], 0, [])
  }

  // ---- The methods ----

  method RunToolRound(w: World, messages: seq<ChatMessage>, records: seq<ToolCallRecord>, okIds: seq<string>, calls: seq<ToolCall>)
    returns (messages': seq<ChatMessage>, records': seq<ToolCallRecord>, okIds': seq<string>)
    ensures forall beliefs, retries ::
      ExecuteCalls(w, LoopState(messages, records, beliefs, retries, okIds), calls)
      == LoopState(messages', records', beliefs, retries, okIds')
  {
    messages', records', okIds' := messages, records, okIds;
    for k := 0 to |calls|
      invariant forall beliefs, retries ::
        ExecuteCalls(w, LoopState(messages, records, beliefs, retries, okIds), calls[..k])
        == LoopState(messages', records', beliefs, retries, okIds')
    {
      var tc := calls[k];
      assert calls[..k + 1][..k] == calls[..k];
      var reply := w.invoke(|records'|, tc);
      var output, record;
      match reply {
        case Replied(result, error, r) =>
          output := if result.Some? then result.value else if error.Some? then error.value else "tool denied";
          record := r;
        case Unreachable(e) =>
          output := "error: " + e;
          record := ToolCallRecord(tc.name, w.hashText(tc.arguments), w.hashText(e), 0, "error");
      }
      records' := records' + [record];
      if records'[|records'| - 1].policyDecision == "allow" {
        okIds' := okIds' + [tc.id];
      }
      messages' := messages' + [ToolResult(tc.id, output)];
    }
    assert calls[..|calls|] == calls;
  }

  /** `run_llm_loop`. */
  method RunLlmLoop(w: World, cfg: LoopConfig, system: string, user: string) returns (r: Outcome)
    requires cfg.kind.Triager?
    ensures r == Loop(w, cfg, 0, Start(system, user))
  {
    ghost var whole := Loop(w, cfg, 0, Start(system, user));
    var messages := [System(system), User(user)];
    var records: seq<ToolCallRecord>, beliefs: seq<IntermediateBelief>, okIds: seq<string> := [], [], [];
    var retries: u8 := 0;
    var iteration: u8 := 0;
    while iteration < cfg.maxIterations
      invariant iteration <= cfg.maxIterations
      invariant whole == Loop(w, cfg, iteration, LoopState(messages, records, beliefs, retries, okIds))
    {
      ghost var st := LoopState(messages, records, beliefs, retries, okIds);
      var resp := w.chat(messages);
      if resp.Err? {
        return Outcome(Err(Provider(resp.error)), LoopState(messages, records, beliefs, retries, okIds));
      }
      var content := resp.value.content;
      var calls := CallsOf(w, resp.value);
      if calls != [] {
        beliefs := beliefs + [IntermediateBelief(iteration, w.note(Requesting(content, |calls|)), None)];
        messages := messages + [Assistant(content, Some(calls))];
        messages, records, okIds := RunToolRound(w, messages, records, okIds, calls);
        if cfg.maxIterations - iteration - 1 <= 2 && okIds != [] {
          messages := messages + [User(w.prompt(Nudge))];
        }
        assert OneTurn(w, cfg, iteration, st) == Continue(LoopState(messages, records, beliefs, retries, okIds));
        iteration := iteration + 1;
        continue;
      }
      var parsed := w.parseVerdict(content);
      if parsed.Err? {
        return Outcome(Err(InvalidVerdict(parsed.error)), LoopState(messages, records, beliefs, retries, okIds));
      }
      var mv := parsed.value;
      if cfg.enforced && !HasRetrievedEvidence(records) {
        if retries >= cfg.retriesCap {
          beliefs := beliefs + [IntermediateBelief(iteration, w.note(NoRetrievalCapped), Some(Percent(0)))];
          return Outcome(Ok(LoopResult(NeedsInvestigation, records, beliefs, [], iteration + 1, retries)),
                         LoopState(messages, records, beliefs, retries, okIds));
        }
        retries := retries + 1;
        beliefs := beliefs + [IntermediateBelief(iteration, w.note(NoRetrievalRetry(retries)), Some(Percent(0)))];
        messages := messages + [User(w.prompt(RetrievalReprompt))];
        assert OneTurn(w, cfg, iteration, st) == Continue(LoopState(messages, records, beliefs, retries, okIds));
        iteration := iteration + 1;
        continue;
      }
      var report := ValidateCitations(w.heuristics, mv.reasoning, mv.evidenceCitations, okIds);
      if cfg.enforced && !report.passed {
        if retries >= cfg.retriesCap {
          beliefs := beliefs + [IntermediateBelief(iteration, w.note(CitationCapped), Some(Percent(0)))];
          return Outcome(Ok(LoopResult(NeedsInvestigation, records, beliefs, mv.evidenceCitations, iteration + 1, retries)),
                         LoopState(messages, records, beliefs, retries, okIds));
        }
        retries := retries + 1;
        beliefs := beliefs + [IntermediateBelief(iteration, w.note(CitationRetry(retries)), Some(Percent(0)))];
        messages := messages + [User(w.prompt(CitationReprompt(report)))];
        assert OneTurn(w, cfg, iteration, st) == Continue(LoopState(messages, records, beliefs, retries, okIds));
        iteration := iteration + 1;
        continue;
      }
      beliefs := beliefs + [IntermediateBelief(iteration, w.note(Final(content, mv.reasoning)), mv.confidence)];
      return Outcome(Ok(LoopResult(ParseVerdict(mv.verdict), records, beliefs, mv.evidenceCitations, iteration + 1, retries)),
                     LoopState(messages, records, beliefs, retries, okIds));
    }
    return Outcome(Err(MaxIterations(cfg.maxIterations)), LoopState(messages, records, beliefs, retries, okIds));
  }

  /** `run_investigator_llm_loop`: no belief is recorded when a guardrail's cap is reached. */
  method RunInvestigatorLlmLoop(w: World, cfg: LoopConfig, system: string, user: string) returns (r: Outcome)
    requires cfg.kind.Investigator?
    ensures r == Loop(w, cfg, 0, Start(system, user))
  {
    ghost var whole := Loop(w, cfg, 0, Start(system, user));
    var messages := [System(system), User(user)];
    var records: seq<ToolCallRecord>, beliefs: seq<IntermediateBelief>, okIds: seq<string> := [], [], [];
    var retries: u8 := 0;
    var iteration: u8 := 0;
    while iteration < cfg.maxIterations
      invariant iteration <= cfg.maxIterations
      invariant whole == Loop(w, cfg, iteration, LoopState(messages, records, beliefs, retries, okIds))
    {
      ghost var st := LoopState(messages, records, beliefs, retries, okIds);
      var resp := w.chat(messages);
      if resp.Err? {
        return Outcome(Err(Provider(resp.error)), LoopState(messages, records, beliefs, retries, okIds));
      }
      var content := resp.value.content;
      var calls := CallsOf(w, resp.value);
      if calls != [] {
        beliefs := beliefs + [IntermediateBelief(iteration, w.note(Requesting(content, |calls|)), None)];
        messages := messages + [Assistant(content, Some(calls))];
        messages, records, okIds := RunToolRound(w, messages, records, okIds, calls);
        if cfg.maxIterations - iteration - 1 <= 2 && okIds != [] {
          messages := messages + [User(w.prompt(Nudge))];
        }
        assert OneTurn(w, cfg, iteration, st) == Continue(LoopState(messages, records, beliefs, retries, okIds));
        iteration := iteration + 1;
        continue;
      }
      var parsed := w.parseVerdict(content);
      if parsed.Err? {
        return Outcome(Err(InvalidVerdict(parsed.error)), LoopState(messages, records, beliefs, retries, okIds));
      }
      var mv := parsed.value;
      if cfg.enforced && !HasRetrievedEvidence(records) {
        if retries >= cfg.retriesCap {
          return Outcome(Ok(LoopResult(NeedsInvestigation, records, beliefs, [], iteration + 1, retries)),
                         LoopState(messages, records, beliefs, retries, okIds));
        }
        retries := retries + 1;
        beliefs := beliefs + [IntermediateBelief(iteration, w.note(NoRetrievalRetry(retries)), Some(Percent(0)))];
        messages := messages + [User(w.prompt(InvestigatorReprompt))];
        assert OneTurn(w, cfg, iteration, st) == Continue(LoopState(messages, records, beliefs, retries, okIds));
        iteration := iteration + 1;
        continue;
      }
      var report := ValidateCitations(w.heuristics, mv.reasoning, mv.evidenceCitations, okIds);
      if cfg.enforced && !report.passed {
        if retries >= cfg.retriesCap {
          return Outcome(Ok(LoopResult(NeedsInvestigation, records, beliefs, mv.evidenceCitations, iteration + 1, retries)),
                         LoopState(messages, records, beliefs, retries, okIds));
        }
        retries := retries + 1;
        beliefs := beliefs + [IntermediateBelief(iteration, w.note(CitationRetry(retries)), Some(Percent(0)))];
        messages := messages + [User(w.prompt(CitationReprompt(report)))];
        assert OneTurn(w, cfg, iteration, st) == Continue(LoopState(messages, records, beliefs, retries, okIds));
        iteration := iteration + 1;
        continue;
      }
      beliefs := beliefs + [IntermediateBelief(iteration, w.note(Final(content, mv.reasoning)), mv.confidence)];
      return Outcome(Ok(LoopResult(ParseVerdict(mv.verdict), records, beliefs, mv.evidenceCitations, iteration + 1, retries)),
                     LoopState(messages, records, beliefs, retries, okIds));
    }
    return Outcome(Err(MaxIterations(cfg.maxIterations)), LoopState(messages, records, beliefs, retries, okIds));
  }

  /** `run_specialist_llm_loop`: no retries and no citation check. */
  method RunSpecialistLlmLoop(w: World, cfg: LoopConfig, system: string, user: string) returns (r: Outcome)
    requires cfg.kind.Specialist?
    ensures r == Loop(w, cfg, 0, Start(system, user))
  {
    ghost var whole := Loop(w, cfg, 0, Start(system, user));
    var messages := [System(system), User(user)];
    var records: seq<ToolCallRecord>, beliefs: seq<IntermediateBelief>, okIds: seq<string> := [], [], [];
    var iteration: u8 := 0;
    while iteration < cfg.maxIterations
      invariant iteration <= cfg.maxIterations
      invariant whole == Loop(w, cfg, iteration, LoopState(messages, records, beliefs, 0, okIds))
    {
      ghost var st := LoopState(messages, records, beliefs, 0, okIds);
      var resp := w.chat(messages);
      if resp.Err? {
        return Outcome(Err(Provider(resp.error)), LoopState(messages, records, beliefs, 0, okIds));
      }
      var content := resp.value.content;
      var calls := CallsOf(w, resp.value);
      if calls != [] {
        beliefs := beliefs + [IntermediateBelief(iteration, w.note(Requesting("", |calls|)), None)];
        messages := messages + [Assistant(content, Some(calls))];
        messages, records, okIds := RunToolRound(w, messages, records, okIds, calls);
        assert OneTurn(w, cfg, iteration, st) == Continue(LoopState(messages, records, beliefs, 0, okIds));
        iteration := iteration + 1;
        continue;
      }
      var parsed := w.parseVerdict(content);
      if parsed.Err? {
        return Outcome(Err(InvalidVerdict(parsed.error)), LoopState(messages, records, beliefs, 0, okIds));
      }
      var mv := parsed.value;
      if cfg.kind.requireRetrieval && !HasRetrievedEvidence(records) {
        return Outcome(Ok(LoopResult(NeedsInvestigation, records, beliefs, [], iteration + 1, 0)),
                       LoopState(messages, records, beliefs, 0, okIds));
      }
      beliefs := beliefs + [IntermediateBelief(iteration, w.note(Final("", mv.reasoning)), mv.confidence)];
      return Outcome(Ok(LoopResult(ParseVerdict(mv.verdict), records, beliefs, mv.evidenceCitations, iteration + 1, 0)),
                     LoopState(messages, records, beliefs, 0, okIds));
    }
    return Outcome(Err(MaxIterations(cfg.maxIterations)), LoopState(messages, records, beliefs, 0, okIds));
  }
}
