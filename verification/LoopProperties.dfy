/** What every run of an agent loop keeps, against any model and any gateway. */
module LoopProperties {
  import opened Wrappers
  import opened Envelopes
  import opened Guardrails
  import opened LlmLoop

  // ---- Transcripts ----

  ghost predicate ResultFor(m: ChatMessage, tc: ToolCall)
  {
    m.ToolResult? && m.toolCallId == tc.id
  }

  /** An assistant message carries tool calls, answered at once by exactly one result a call, in order. */
  ghost predicate AnsweredAt(m: seq<ChatMessage>, i: nat)
    requires i < |m|
  {
    m[i].Assistant? ==>
      && m[i].toolCalls.Some? && m[i].toolCalls.value != []
      && i + |m[i].toolCalls.value| < |m|
      && (forall k :: 0 <= k < |m[i].toolCalls.value| ==> ResultFor(m[i + 1 + k], m[i].toolCalls.value[k]))
      && (i + 1 + |m[i].toolCalls.value| < |m| ==> !m[i + 1 + |m[i].toolCalls.value|].ToolResult?)
  }

  ghost predicate Owns(m: seq<ChatMessage>, i: nat, j: nat)
    requires i < |m|
  {
    m[i].Assistant? && m[i].toolCalls.Some? && i < j <= i + |m[i].toolCalls.value|
  }

  /** A tool result answers some assistant message before it. */
  ghost predicate OwnedAt(m: seq<ChatMessage>, j: nat)
    requires j < |m|
  {
    m[j].ToolResult? ==> exists i :: 0 <= i < j && Owns(m, i, j)
  }

  ghost predicate WellFormed(m: seq<ChatMessage>)
  {
    && (forall i :: 0 <= i < |m| ==> AnsweredAt(m, i))
    && (forall j :: 0 <= j < |m| ==> OwnedAt(m, j))
  }

  lemma OwnedGrows(m: seq<ChatMessage>, more: seq<ChatMessage>, j: nat)
    requires j < |m| && OwnedAt(m, j)
    ensures OwnedAt(m + more, j)
  {
    if m[j].ToolResult? {
      var i :| 0 <= i < j && Owns(m, i, j);
      assert Owns(m + more, i, j);
    }
  }

  lemma UserKeepsWellFormed(m: seq<ChatMessage>, content: string)
    requires WellFormed(m)
    ensures WellFormed(m + [User(content)])
  {
    var n := m + [User(content)];
    forall i | 0 <= i < |n| ensures AnsweredAt(n, i) && OwnedAt(n, i) {
      if i < |m| {
        assert AnsweredAt(m, i);
        OwnedGrows(m, [User(content)], i);
      }
    }
  }

  lemma RoundKeepsWellFormed(m: seq<ChatMessage>, content: string, calls: seq<ToolCall>, results: seq<ChatMessage>)
    requires WellFormed(m) && calls != [] && |results| == |calls|
    requires forall k :: 0 <= k < |calls| ==> ResultFor(results[k], calls[k])
    ensures WellFormed(m + ([Assistant(content, Some(calls))] + results))
  {
    var more := [Assistant(content, Some(calls))] + results;
    var n := m + more;
    forall i | 0 <= i < |n| ensures AnsweredAt(n, i) && OwnedAt(n, i) {
      if i < |m| {
        assert AnsweredAt(m, i);
        OwnedGrows(m, more, i);
      } else if i > |m| {
        assert n[i] == results[i - |m| - 1];
        assert ResultFor(results[i - |m| - 1], calls[i - |m| - 1]);
        assert Owns(n, |m|, i);
      } else {
        forall k | 0 <= k < |calls| ensures ResultFor(n[i + 1 + k], calls[k]) {
          assert n[i + 1 + k] == results[k];
        }
      }
    }
  }

  /** The tool calls of a transcript, in order. */
  ghost function Calls(m: seq<ChatMessage>): seq<ToolCall>
  {
    if m == [] then []
    else
      var n := |m| - 1;
      Calls(m[..n]) + if m[n].Assistant? && m[n].toolCalls.Some? then m[n].toolCalls.value else []
  }

  /** The number of tool rounds of a transcript. */
  ghost function Rounds(m: seq<ChatMessage>): nat
  {
    if m == [] then 0 else Rounds(m[..|m| - 1]) + if m[|m| - 1].Assistant? then 1 else 0
  }

  lemma {:induction false} QuietTail(m: seq<ChatMessage>, tail: seq<ChatMessage>)
    requires forall k :: 0 <= k < |tail| ==> !tail[k].Assistant?
    ensures Calls(m + tail) == Calls(m) && Rounds(m + tail) == Rounds(m)
  {
    if tail == [] {
      assert m + tail == m;
    } else {
      var n := |tail| - 1;
      QuietTail(m, tail[..n]);
      assert (m + tail)[..|m| + n] == m + tail[..n];
    }
  }

  lemma AssistantTail(m: seq<ChatMessage>, content: string, calls: seq<ToolCall>)
    ensures Calls(m + [Assistant(content, Some(calls))]) == Calls(m) + calls
    ensures Rounds(m + [Assistant(content, Some(calls))]) == Rounds(m) + 1
  {
    assert (m + [Assistant(content, Some(calls))])[..|m|] == m;
  }

  // ---- Records and ids follow the calls ----

  ghost function RecordsOf(w: World, calls: seq<ToolCall>): seq<ToolCallRecord>
  {
    seq(|calls|, k requires 0 <= k < |calls| => RecordOf(w, k, calls[k]))
  }

  /** The ids of the calls that policy allowed, in order. */
  ghost function AllowedIds(w: World, calls: seq<ToolCall>): seq<string>
  {
    if calls == [] then []
    else
      var n := |calls| - 1;
      AllowedIds(w, calls[..n]) + if Allowed(RecordOf(w, n, calls[n])) then [calls[n].id] else []
  }

  /** An id is recorded as successful exactly when some allowed call of the run carries it. */
  lemma {:induction false} AllowedIdsExactly(w: World, calls: seq<ToolCall>, id: string)
    ensures id in AllowedIds(w, calls) <==>
            exists k :: 0 <= k < |calls| && calls[k].id == id && Allowed(RecordOf(w, k, calls[k]))
  {
    if calls != [] {
      var n := |calls| - 1;
      AllowedIdsExactly(w, calls[..n], id);
      if id in AllowedIds(w, calls[..n]) {
        var k :| 0 <= k < n && calls[..n][k].id == id && Allowed(RecordOf(w, k, calls[..n][k]));
        assert calls[k].id == id;
      }
      if k :| 0 <= k < |calls| && calls[k].id == id && Allowed(RecordOf(w, k, calls[k])) {
        if k < n {
          assert calls[..n][k] == calls[k];
        }
      }
    }
  }

  ghost predicate FollowsCalls(w: World, st: LoopState)
  {
    && st.records == RecordsOf(w, Calls(st.messages))
    && st.okIds == AllowedIds(w, Calls(st.messages))
  }

  /** `r` is the state after the calls: one result a call, in order, and nothing else in the transcript. */
  ghost predicate Executed(w: World, st: LoopState, before: seq<ToolCall>, calls: seq<ToolCall>, r: LoopState)
  {
    && r.beliefs == st.beliefs && r.retries == st.retries
    && r.records == RecordsOf(w, before + calls) && r.okIds == AllowedIds(w, before + calls)
    && |r.messages| == |st.messages| + |calls|
    && r.messages[..|st.messages|] == st.messages
    && forall k :: 0 <= k < |calls| ==> ResultFor(r.messages[|st.messages| + k], calls[k])
  }

  lemma {:induction false} CallsAreExecuted(w: World, st: LoopState, before: seq<ToolCall>, calls: seq<ToolCall>)
    requires st.records == RecordsOf(w, before) && st.okIds == AllowedIds(w, before)
    ensures Executed(w, st, before, calls, ExecuteCalls(w, st, calls))
  {
    if calls == [] {
      assert before + calls == before;
    } else {
      var n := |calls| - 1;
      CallsAreExecuted(w, st, before, calls[..n]);
      assert calls == calls[..n] + [calls[n]];
      OneMoreExecuted(w, st, before, calls[..n], calls[n], ExecuteCalls(w, st, calls[..n]));
    }
  }

  lemma OneMoreExecuted(w: World, st: LoopState, before: seq<ToolCall>, calls: seq<ToolCall>, tc: ToolCall, mid: LoopState)
    requires Executed(w, st, before, calls, mid)
    ensures Executed(w, st, before, calls + [tc], ExecuteCall(w, mid, tc))
  {
    assert before + (calls + [tc]) == (before + calls) + [tc];
    OneCallIsExecuted(w, mid, before + calls, tc);
    var r := ExecuteCall(w, mid, tc);
    forall k | 0 <= k < |calls| + 1 ensures ResultFor(r.messages[|st.messages| + k], (calls + [tc])[k]) {
      if k < |calls| {
        assert ResultFor(mid.messages[|st.messages| + k], calls[k]);
      }
    }
  }

  lemma OneCallIsExecuted(w: World, st: LoopState, before: seq<ToolCall>, tc: ToolCall)
    requires st.records == RecordsOf(w, before) && st.okIds == AllowedIds(w, before)
    ensures var r := ExecuteCall(w, st, tc);
            && r.records == RecordsOf(w, before + [tc]) && r.okIds == AllowedIds(w, before + [tc])
  {
    assert (before + [tc])[..|before|] == before;
    assert |st.records| == |before|;
    assert RecordsOf(w, before + [tc]) == RecordsOf(w, before) + [RecordOf(w, |before|, tc)];
  }

  // ---- The loop invariant ----

  ghost predicate Numbered(beliefs: seq<IntermediateBelief>, n: nat)
  {
    |beliefs| == n && forall k :: 0 <= k < n ==> beliefs[k].iteration == k
  }

  /** Holds whenever the model is asked, before iteration `i`. */
  ghost predicate LoopInv(w: World, cfg: LoopConfig, i: nat, st: LoopState)
  {
    && WellFormed(st.messages)
    && FollowsCalls(w, st)
    && Numbered(st.beliefs, i)
    && i == Rounds(st.messages) + st.retries
    && st.retries <= cfg.retriesCap
    && (cfg.kind.Specialist? ==> st.retries == 0)
  }

  lemma StartInv(w: World, cfg: LoopConfig, system: string, user: string)
    ensures LoopInv(w, cfg, 0, Start(system, user))
  {
    var m := Start(system, user).messages;
    QuietTail([], m);
    assert [] + m == m;
    forall i | 0 <= i < |m| ensures AnsweredAt(m, i) && OwnedAt(m, i) {
    }
  }

  lemma RoundKeepsInv(w: World, cfg: LoopConfig, i: u8, st: LoopState, content: string, calls: seq<ToolCall>)
    requires LoopInv(w, cfg, i, st) && calls != []
    ensures LoopInv(w, cfg, (i as nat) + 1, ToolRound(w, cfg, i, st, content, calls))
  {
    var belief := IntermediateBelief(i, w.note(Requesting(if cfg.kind.Specialist? then "" else content, |calls|)), None);
    var asked := st.(beliefs := st.beliefs + [belief], messages := st.messages + [Assistant(content, Some(calls))]);
    ExecutionKeepsInv(w, cfg, i, st, asked, content, calls);
    UserKeepsInv(w, cfg, (i as nat) + 1, ExecuteCalls(w, asked, calls), w.prompt(Nudge));
  }

  lemma ExecutionKeepsInv(w: World, cfg: LoopConfig, i: u8, st: LoopState, asked: LoopState, content: string, calls: seq<ToolCall>)
    requires LoopInv(w, cfg, i, st) && calls != []
    requires asked == st.(beliefs := asked.beliefs, messages := st.messages + [Assistant(content, Some(calls))])
    requires Numbered(asked.beliefs, (i as nat) + 1)
    ensures LoopInv(w, cfg, (i as nat) + 1, ExecuteCalls(w, asked, calls))
  {
    RoundIsExecuted(w, st.messages, asked, content, calls);
  }

  lemma RoundIsExecuted(w: World, m: seq<ChatMessage>, asked: LoopState, content: string, calls: seq<ToolCall>)
    requires WellFormed(m) && calls != [] && asked.messages == m + [Assistant(content, Some(calls))]
    requires asked.records == RecordsOf(w, Calls(m)) && asked.okIds == AllowedIds(w, Calls(m))
    ensures var done := ExecuteCalls(w, asked, calls);
            && done.beliefs == asked.beliefs && done.retries == asked.retries
            && WellFormed(done.messages) && FollowsCalls(w, done)
            && Rounds(done.messages) == Rounds(m) + 1
  {
    CallsAreExecuted(w, asked, Calls(m), calls);
    ExecutedRound(w, m, asked, content, calls, ExecuteCalls(w, asked, calls));
  }

  lemma ExecutedRound(w: World, m: seq<ChatMessage>, asked: LoopState, content: string, calls: seq<ToolCall>, done: LoopState)
    requires WellFormed(m) && calls != [] && asked.messages == m + [Assistant(content, Some(calls))]
    requires Executed(w, asked, Calls(m), calls, done)
    ensures WellFormed(done.messages) && FollowsCalls(w, done) && Rounds(done.messages) == Rounds(m) + 1
    ensures done.beliefs == asked.beliefs && done.retries == asked.retries
  {
    RoundTranscript(m, content, calls, asked.messages, done.messages, done.messages[|asked.messages|..]);
  }

  lemma UserKeepsInv(w: World, cfg: LoopConfig, i: nat, st: LoopState, content: string)
    requires LoopInv(w, cfg, i, st)
    ensures LoopInv(w, cfg, i, st.(messages := st.messages + [User(content)]))
  {
    UserKeepsWellFormed(st.messages, content);
    QuietTail(st.messages, [User(content)]);
  }

  lemma RoundTranscript(m: seq<ChatMessage>, content: string, calls: seq<ToolCall>, asked: seq<ChatMessage>,
                        done: seq<ChatMessage>, results: seq<ChatMessage>)
    requires WellFormed(m) && calls != []
    requires asked == m + [Assistant(content, Some(calls))]
    requires |done| == |asked| + |calls| && done[..|asked|] == asked && results == done[|asked|..]
    requires forall k :: 0 <= k < |calls| ==> ResultFor(done[|asked| + k], calls[k])
    ensures WellFormed(done) && Calls(done) == Calls(m) + calls && Rounds(done) == Rounds(m) + 1
  {
    forall k | 0 <= k < |calls| ensures ResultFor(results[k], calls[k]) && !results[k].Assistant? {
      assert results[k] == done[|asked| + k];
    }
    assert done == asked + results == m + ([Assistant(content, Some(calls))] + results);
    RoundKeepsWellFormed(m, content, calls, results);
    AssistantTail(m, content, calls);
    QuietTail(asked, results);
  }

  ghost predicate Enforced(cfg: LoopConfig)
  {
    cfg.enforced && !cfg.kind.Specialist?
  }

  /** Holds of every result. */
  ghost predicate ResultInv(w: World, cfg: LoopConfig, o: Outcome)
  {
    && WellFormed(o.final.messages)
    && FollowsCalls(w, o.final)
    && (o.result.Ok? ==>
          var r := o.result.value;
          && r.records == o.final.records
          && r.totalIterations as nat == Rounds(o.final.messages) + r.retries + 1
          && r.totalIterations <= cfg.maxIterations
          && r.retries <= cfg.retriesCap
          && (Numbered(r.beliefs, r.totalIterations)
              || (!cfg.kind.Triager? && r.verdict == NeedsInvestigation && Numbered(r.beliefs, r.totalIterations - 1))))
  }

  /** What a turn at iteration `i` leaves behind. */
  ghost predicate TurnInv(w: World, cfg: LoopConfig, i: u8, t: Turn)
  {
    match t
    case Continue(next) => LoopInv(w, cfg, (i as nat) + 1, next)
    case Stop(o) => ResultInv(w, cfg, o)
  }

  lemma RefuseInv(w: World, cfg: LoopConfig, i: u8, st: LoopState, capped: Note, retry: Note, prompt: Prompt, citations: seq<string>)
    requires i < cfg.maxIterations && LoopInv(w, cfg, i, st) && !cfg.kind.Specialist?
    ensures TurnInv(w, cfg, i, Refuse(w, cfg, i, st, capped, retry, prompt, citations))
  {
    if st.retries < cfg.retriesCap {
      RetryInv(w, cfg, i, st, retry, prompt);
    }
  }

  lemma RetryInv(w: World, cfg: LoopConfig, i: u8, st: LoopState, retry: Note, prompt: Prompt)
    requires i < cfg.maxIterations && LoopInv(w, cfg, i, st) && !cfg.kind.Specialist? && st.retries < cfg.retriesCap
    ensures LoopInv(w, cfg, (i as nat) + 1,
                    WithBelief(w, st, i, retry, Some(Percent(0))).(
                      retries := st.retries + 1, messages := st.messages + [User(w.prompt(prompt))]))
  {
    UserKeepsWellFormed(st.messages, w.prompt(prompt));
    QuietTail(st.messages, [User(w.prompt(prompt))]);
    NumberedNext(st.beliefs, IntermediateBelief(i, w.note(retry), Some(Percent(0))), i);
    NextInv(w, cfg, i, st, WithBelief(w, st, i, retry, Some(Percent(0))).(
                             retries := st.retries + 1, messages := st.messages + [User(w.prompt(prompt))]));
  }

  lemma NumberedNext(beliefs: seq<IntermediateBelief>, b: IntermediateBelief, n: nat)
    requires Numbered(beliefs, n) && b.iteration == n
    ensures Numbered(beliefs + [b], n + 1)
  {
  }

  lemma NextInv(w: World, cfg: LoopConfig, i: nat, st: LoopState, next: LoopState)
    requires LoopInv(w, cfg, i, st) && !cfg.kind.Specialist?
    requires WellFormed(next.messages) && Calls(next.messages) == Calls(st.messages)
    requires Rounds(next.messages) == Rounds(st.messages)
    requires next.records == st.records && next.okIds == st.okIds && Numbered(next.beliefs, i + 1)
    requires next.retries == st.retries + 1 && next.retries <= cfg.retriesCap
    ensures LoopInv(w, cfg, i + 1, next)
  {
  }

  lemma AcceptInv(w: World, cfg: LoopConfig, i: u8, st: LoopState, shown: string, mv: ModelVerdict)
    requires i < cfg.maxIterations && LoopInv(w, cfg, i, st)
    ensures ResultInv(w, cfg, Accept(w, i, st, shown, mv).outcome)
  {
  }

  lemma VerdictTurnInv(w: World, cfg: LoopConfig, i: u8, st: LoopState, raw: string)
    requires i < cfg.maxIterations && LoopInv(w, cfg, i, st)
    ensures TurnInv(w, cfg, i, VerdictTurn(w, cfg, i, st, raw))
  {
    if w.parseVerdict(raw).Ok? {
      if cfg.kind.Specialist? {
        AcceptInv(w, cfg, i, st, "", w.parseVerdict(raw).value);
      } else {
        GuardedVerdictInv(w, cfg, i, st, raw);
      }
    }
  }

  lemma GuardedVerdictInv(w: World, cfg: LoopConfig, i: u8, st: LoopState, raw: string)
    requires i < cfg.maxIterations && LoopInv(w, cfg, i, st)
    requires w.parseVerdict(raw).Ok? && !cfg.kind.Specialist?
    ensures TurnInv(w, cfg, i, VerdictTurn(w, cfg, i, st, raw))
  {
    var mv := w.parseVerdict(raw).value;
    var report := ValidateCitations(w.heuristics, mv.reasoning, mv.evidenceCitations, st.okIds);
    GuardedCases(w, cfg, i, st, raw);
    if cfg.enforced && !HasRetrievedEvidence(st.records) {
      RefuseInv(w, cfg, i, st, NoRetrievalCapped, NoRetrievalRetry((st.retries as nat) + 1),
                if cfg.kind.Triager? then RetrievalReprompt else InvestigatorReprompt, []);
    } else if cfg.enforced && !report.passed {
      RefuseInv(w, cfg, i, st, CitationCapped, CitationRetry((st.retries as nat) + 1),
                CitationReprompt(report), mv.evidenceCitations);
    } else {
      AcceptInv(w, cfg, i, st, raw, mv);
      StopInv(w, cfg, i, Accept(w, i, st, raw, mv));
    }
  }

  /** The three ways a guarded verdict can go. */
  lemma GuardedCases(w: World, cfg: LoopConfig, i: u8, st: LoopState, raw: string)
    requires i < 255 && w.parseVerdict(raw).Ok? && !cfg.kind.Specialist?
    ensures var mv := w.parseVerdict(raw).value;
            var report := ValidateCitations(w.heuristics, mv.reasoning, mv.evidenceCitations, st.okIds);
            VerdictTurn(w, cfg, i, st, raw) ==
            if cfg.enforced && !HasRetrievedEvidence(st.records) then
              Refuse(w, cfg, i, st, NoRetrievalCapped, NoRetrievalRetry((st.retries as nat) + 1),
                     if cfg.kind.Triager? then RetrievalReprompt else InvestigatorReprompt, [])
            else if cfg.enforced && !report.passed then
              Refuse(w, cfg, i, st, CitationCapped, CitationRetry((st.retries as nat) + 1),
                     CitationReprompt(report), mv.evidenceCitations)
            else Accept(w, i, st, raw, mv)
  {
  }

  lemma StopInv(w: World, cfg: LoopConfig, i: u8, t: Turn)
    requires t.Stop? && ResultInv(w, cfg, t.outcome)
    ensures TurnInv(w, cfg, i, t)
  {
  }

  lemma TurnKeepsInv(w: World, cfg: LoopConfig, i: u8, st: LoopState)
    requires i < cfg.maxIterations && LoopInv(w, cfg, i, st)
    ensures TurnInv(w, cfg, i, OneTurn(w, cfg, i, st))
  {
    match w.chat(st.messages)
    case Err(e) =>
    case Ok(resp) =>
      if CallsOf(w, resp) != [] {
        RoundKeepsInv(w, cfg, i, st, resp.content, CallsOf(w, resp));
      } else {
        VerdictTurnInv(w, cfg, i, st, resp.content);
      }
  }

  lemma {:induction false} LoopKeepsInv(w: World, cfg: LoopConfig, i: u8, st: LoopState)
    requires i <= cfg.maxIterations && LoopInv(w, cfg, i, st)
    ensures ResultInv(w, cfg, Loop(w, cfg, i, st))
    decreases cfg.maxIterations - i
  {
    if i < cfg.maxIterations {
      TurnKeepsInv(w, cfg, i, st);
      match OneTurn(w, cfg, i, st)
      case Continue(next) => LoopKeepsInv(w, cfg, i + 1, next);
      case Stop(_) =>
    }
  }

  /** The state in which the model is asked for the `n`-th time, if the loop gets that far. */
  ghost function StateAt(w: World, cfg: LoopConfig, system: string, user: string, n: nat): Option<LoopState>
    requires n < cfg.maxIterations
  {
    if n == 0 then Some(Start(system, user))
    else match StateAt(w, cfg, system, user, n - 1)
      case None => None
      case Some(st) => match OneTurn(w, cfg, n - 1, st) case Continue(next) => Some(next) case Stop(_) => None
  }

  ghost predicate StateInv(w: World, cfg: LoopConfig, n: nat, st: Option<LoopState>)
  {
    st.Some? ==> LoopInv(w, cfg, n, st.value)
  }

  lemma NextStateInv(w: World, cfg: LoopConfig, system: string, user: string, n: nat)
    requires 0 < n < cfg.maxIterations && StateInv(w, cfg, n - 1, StateAt(w, cfg, system, user, n - 1))
    ensures StateInv(w, cfg, n, StateAt(w, cfg, system, user, n))
  {
    var before := StateAt(w, cfg, system, user, n - 1);
    if before.Some? {
      TurnKeepsInv(w, cfg, n - 1, before.value);
      assert TurnInv(w, cfg, n - 1, OneTurn(w, cfg, n - 1, before.value));
    }
  }

  /** Every transcript that is ever sent to the model is well formed, in all three loops. */
  lemma {:induction false} EveryRequestIsWellFormed(w: World, cfg: LoopConfig, system: string, user: string, n: nat)
    requires n < cfg.maxIterations
    ensures StateInv(w, cfg, n, StateAt(w, cfg, system, user, n))
  {
    if n == 0 {
      StartInv(w, cfg, system, user);
    } else {
      EveryRequestIsWellFormed(w, cfg, system, user, n - 1);
      NextStateInv(w, cfg, system, user, n);
    }
  }

  /** The guarantee of a whole run: transcript and accounting. */
  lemma EveryRun(w: World, cfg: LoopConfig, system: string, user: string)
    ensures ResultInv(w, cfg, Loop(w, cfg, 0, Start(system, user)))
  {
    StartInv(w, cfg, system, user);
    LoopKeepsInv(w, cfg, 0, Start(system, user));
  }
}
