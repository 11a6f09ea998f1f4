/**
 The retrieval guardrail promises a tool call that neither was denied nor failed; what it tests is the
 logged policy decision. Between the two lie calls that policy allows and that then fail.
 */
module RetrievalGap {
  import opened Wrappers
  import opened Envelopes
  import opened Guardrails
  import opened LlmLoop
  import opened LoopProperties
  import opened LoopAnswers
  import Text

  /** The call came back with a result. */
  predicate Succeeded(w: World, n: nat, tc: ToolCall)
  {
    w.invoke(n, tc).Replied? && w.invoke(n, tc).result.Some?
  }

  ghost predicate SomeCallSucceeded(w: World, calls: seq<ToolCall>)
  {
    exists k :: 0 <= k < |calls| && Succeeded(w, k, calls[k])
  }

  /** A series of calls of which policy allows one and none succeeds. */
  ghost predicate Bluffs(w: World, calls: seq<ToolCall>)
  {
    && (exists k :: 0 <= k < |calls| && LetThrough(w, k, calls[k]))
    && !SomeCallSucceeded(w, calls)
  }

  /** A run accepts a verdict although no tool call of it has succeeded. */
  ghost predicate BelievesNothing(w: World, cfg: LoopConfig, system: string, user: string)
  {
    var o := Loop(w, cfg, 0, Start(system, user));
    o.result.Ok? && o.result.value.verdict != NeedsInvestigation && !SomeCallSucceeded(w, Calls(o.final.messages))
  }

  /** Behind a verdict without a result there is a series of calls that bluffs, and a second turn. */
  lemma BluffBehindVerdict(w: World, cfg: LoopConfig, system: string, user: string)
    requires Enforced(cfg) && BelievesNothing(w, cfg, system, user)
    ensures Bluffs(w, Calls(Loop(w, cfg, 0, Start(system, user)).final.messages)) && cfg.maxIterations >= 2
  {
    var o := Loop(w, cfg, 0, Start(system, user));
    var content, mv := AcceptedVerdictIsGrounded(w, cfg, system, user);
    EveryRun(w, cfg, system, user);
    CallsNeedRounds(o.final.messages);
  }

  lemma {:induction false} CallsNeedRounds(m: seq<ChatMessage>)
    ensures Calls(m) != [] ==> Rounds(m) >= 1
  {
    if m != [] {
      CallsNeedRounds(m[..|m| - 1]);
    }
  }

  /** A model that makes the calls in one round and then answers "benign" without citing anything. */
  function BluffingModel(w: World, calls: seq<ToolCall>): World
  {
    w.(chat := (m: seq<ChatMessage>) =>
         if |m| <= 2 then Ok(ChatResponse("", calls)) else Ok(ChatResponse("benign", [])),
       callsInText := (s: string) => None,
       parseVerdict := (s: string) => Ok(ModelVerdict("benign", None, "", [])),
       heuristics := Heuristics(w.heuristics.isWhitespace, (s: string) => []))
  }

  /** Conversely, a gateway that can be bluffed lets a model be believed without a single result. */
  lemma BluffIsBelieved(w: World, cfg: LoopConfig, system: string, user: string, calls: seq<ToolCall>)
    requires Enforced(cfg) && cfg.maxIterations >= 2 && Bluffs(w, calls)
    ensures BluffingModel(w, calls).invoke == w.invoke
    ensures BelievesNothing(BluffingModel(w, calls), cfg, system, user)
  {
    var v := BluffingModel(w, calls);
    var st := Start(system, user);
    var next := ToolRound(v, cfg, 0, st, "", calls);
    StartInv(v, cfg, system, user);
    RoundKeepsInv(v, cfg, 0, st, "", calls);
    assert OneTurn(v, cfg, 0, st) == Continue(next);
    RoundCalls(v, cfg, st, calls);
    AllowedIsRetrieved(v, calls);
    BelievedNext(v, cfg, next);
    assert Loop(v, cfg, 0, st) == Loop(v, cfg, 1, next);
    SameSuccess(w, v, calls);
  }

  lemma AllowedIsRetrieved(w: World, calls: seq<ToolCall>)
    requires exists k :: 0 <= k < |calls| && LetThrough(w, k, calls[k])
    ensures HasRetrievedEvidence(RecordsOf(w, calls))
  {
    var k :| 0 <= k < |calls| && LetThrough(w, k, calls[k]);
    assert RecordsOf(w, calls)[k] == RecordOf(w, k, calls[k]);
  }

  lemma SameSuccess(w: World, v: World, calls: seq<ToolCall>)
    requires v.invoke == w.invoke
    ensures SomeCallSucceeded(v, calls) <==> SomeCallSucceeded(w, calls)
  {
    assert forall k: nat, tc :: Succeeded(v, k, tc) <==> Succeeded(w, k, tc);
  }

  /** One round leaves exactly its calls in a fresh transcript, and their records. */
  lemma RoundCalls(w: World, cfg: LoopConfig, st: LoopState, calls: seq<ToolCall>)
    requires LoopInv(w, cfg, 0, st) && |st.messages| == 2 && calls != []
    requires !st.messages[0].Assistant? && !st.messages[1].Assistant?
    ensures var next := ToolRound(w, cfg, 0, st, "", calls);
            next.records == RecordsOf(w, calls) && |next.messages| > 2 && Calls(next.messages) == calls
  {
    var asked := st.(
      beliefs := st.beliefs + [IntermediateBelief(0, w.note(Requesting("", |calls|)), None)],
      messages := st.messages + [Assistant("", Some(calls))]);
    var done := ExecuteCalls(w, asked, calls);
    var next := ToolRound(w, cfg, 0, st, "", calls);
    QuietTail([], st.messages);
    assert [] + st.messages == st.messages && Calls(st.messages) == [] && [] + calls == calls;
    RoundIsExecuted(w, st.messages, asked, "", calls);
    CallsAreExecuted(w, asked, [], calls);
    RoundTranscript(st.messages, "", calls, asked.messages, done.messages, done.messages[|asked.messages|..]);
    QuietTail(done.messages, [User(w.prompt(Nudge))]);
    assert next == done || next == done.(messages := done.messages + [User(w.prompt(Nudge))]);
  }

  lemma BelievedNext(w: World, cfg: LoopConfig, st: LoopState)
    requires Enforced(cfg) && cfg.maxIterations >= 2 && |st.messages| > 2 && HasRetrievedEvidence(st.records)
    requires w.chat(st.messages) == Ok(ChatResponse("benign", [])) && w.callsInText("benign") == None
    requires w.parseVerdict("benign") == Ok(ModelVerdict("benign", None, "", []))
    requires w.heuristics.uncited("") == []
    ensures var o := Loop(w, cfg, 1, st);
            o.result.Ok? && o.result.value.verdict == Benign && o.final.messages == st.messages
  {
    CitationsPassIff(w.heuristics, "", [], st.okIds);
    assert Text.AsciiLower("benign") == "benign";
  }

  /**
   Exactly when the promise holds: with the guardrails on, no model at all is believed without a result
   through the given gateway, if and only if the gateway cannot be bluffed or the loop ends at once.
   */
  lemma NoVerdictWithoutResultIff(w: World, cfg: LoopConfig, system: string, user: string)
    requires Enforced(cfg)
    ensures (forall v: World :: v.invoke == w.invoke ==> !BelievesNothing(v, cfg, system, user)) <==>
            cfg.maxIterations < 2 || forall calls :: !Bluffs(w, calls)
  {
    forall v: World | v.invoke == w.invoke && BelievesNothing(v, cfg, system, user)
      ensures cfg.maxIterations >= 2 && exists calls :: Bluffs(w, calls)
    {
      BluffBehindVerdict(v, cfg, system, user);
      BluffIsTheGateways(v, w, Calls(Loop(v, cfg, 0, Start(system, user)).final.messages));
    }
    if cfg.maxIterations >= 2 && exists calls :: Bluffs(w, calls) {
      var calls :| Bluffs(w, calls);
      BluffIsBelieved(w, cfg, system, user, calls);
    }
  }

  lemma BluffIsTheGateways(v: World, w: World, calls: seq<ToolCall>)
    requires v.invoke == w.invoke && Bluffs(v, calls)
    ensures Bluffs(w, calls)
  {
    SameSuccess(w, v, calls);
    var k :| 0 <= k < |calls| && LetThrough(v, k, calls[k]);
    assert LetThrough(w, k, calls[k]);
  }
}
