/** What one append does to the readable log, by its fault; and runs taken apart. */
module LogHistory {
  import opened Wrappers
  import opened CanonicalJson
  import opened Envelopes
  import opened Verification
  import opened LogMachine
  import opened LogRuns

  // ---- The readable log ----

  /** The rows of the log: the durable ones, or without a store those of the local file. */
  ghost function History(hasStore: bool, s: LogState): seq<Envelope>
  {
    if hasStore then s.durable else Rows(Opened(s.local).lines)
  }

  ghost predicate Readable(hasStore: bool, s: LogState)
  {
    ReadAll(hasStore, s).Ok?
  }

  /** `read_all` returns the history, and with a store it always does. */
  lemma ReadsHistory(c: Crypto, hasStore: bool, s: LogState)
    requires Inv(c, hasStore, s)
    ensures Readable(hasStore, s) ==> ReadAll(hasStore, s) == Ok(History(hasStore, s)) && IsChain(c, History(hasStore, s))
    ensures hasStore ==> Readable(hasStore, s)
  {
    LocalRead(s);
    assert Rows([]) == [];
  }

  /** Whether an append that meets this fault in this state leaves its row in the log. */
  predicate Stores(hasStore: bool, s: LogState, fault: Fault)
  {
    if fault.TipReadFails? then false
    else if hasStore then
      && !fault.PutLost?
      && !(s.local.None? && (fault.HydrateReadFails? || (fault.HydrateWriteFails? && s.durable != [])))
    else
      !fault.LocalOpenFails? && !(fault.LocalWriteFails? && !fault.torn.AllButNewline?)
  }

  lemma StoreStoresIff(c: Crypto, s: LogState, body: Body, fault: Fault)
    requires Inv(c, true, s)
    ensures var after := SignAndAppend(c, true, s, body, fault).state;
            after.durable == s.durable + if Stores(true, s, fault) then [Linking(c, s.durable, body)] else []
  {
    HydrateKeepsInv(c, true, s, fault);
    StoreReads(s, Hydrate(true, s, fault).state);
    assert s.durable + [] == s.durable;
  }

  lemma WriteReadable(f: LocalFile, line: Line, terminated: bool)
    requires ReadLocal(Some(WriteText(f, line, terminated))).Ok?
    ensures line.Row? && (f.terminated || f.lines == [])
    ensures Rows(WriteText(f, line, terminated).lines) == Rows(f.lines) + [line.env]
    ensures ReadLocal(Some(f)).Ok?
  {
    var g := WriteText(f, line, terminated);
    RowsAfterWrite(f, line, terminated);
    assert !g.lines[|g.lines| - 1].Garbage?;
    if f.terminated || f.lines == [] {
      assert forall i :: 0 <= i < |f.lines| ==> f.lines[i] == g.lines[i];
    }
  }

  lemma LocalStoresIff(c: Crypto, s: LogState, body: Body, fault: Fault)
    requires Inv(c, false, s)
    requires ReadAll(false, SignAndAppend(c, false, s, body, fault).state).Ok?
    ensures ReadAll(false, s).Ok?
    ensures var rows := Rows(Opened(s.local).lines);
            Rows(Opened(SignAndAppend(c, false, s, body, fault).state.local).lines) ==
            rows + if Stores(false, s, fault) then [Linking(c, rows, body)] else []
  {
    var f := Opened(s.local);
    var e := Linking(c, Rows(f.lines), body);
    LocalRead(s);
    assert Rows([]) == [] && Rows(f.lines) + [] == Rows(f.lines);
    if ReadLocal(s.local).Ok? && !fault.TipReadFails? {
      LocalWriteStores(s, f, e, fault);
    }
  }

  lemma LocalWriteStores(s: LogState, f: LocalFile, e: Envelope, fault: Fault)
    requires f == Opened(s.local) && !fault.TipReadFails?
    requires ReadLocal(WriteLocal(s, e, fault).state.local).Ok?
    ensures Rows(Opened(WriteLocal(s, e, fault).state.local).lines) ==
            Rows(f.lines) + if Stores(false, s, fault) then [e] else []
  {
    assert Rows(f.lines) + [] == Rows(f.lines);
    if fault.LocalOpenFails? {
    } else if fault.LocalWriteFails? {
      TornWriteStores(f, e, fault.torn);
    } else {
      WriteReadable(f, Row(e), true);
    }
  }

  lemma TornWriteStores(f: LocalFile, e: Envelope, torn: Torn)
    requires ReadLocal(Some(AppendTorn(f, e, torn))).Ok?
    ensures Rows(AppendTorn(f, e, torn).lines) == Rows(f.lines) + if torn.AllButNewline? then [e] else []
  {
    assert Rows(f.lines) + [] == Rows(f.lines);
    match torn
    case NothingWritten =>
    case PartOfLine => WriteReadable(f, Garbage, false);
    case AllButNewline => WriteReadable(f, Row(e), false);
  }

  /**
   The row that an append of `body` to `log` must leave: the body as it was given except for its
   `prev_hash`, which is the hash of the last row or `GENESIS_HASH`, and the signer's own signature.
   */
  ghost predicate RowFor(c: Crypto, log: seq<Envelope>, body: Body, r: Envelope)
  {
    && r.body == body.(prevHash := r.body.prevHash)
    && r.body.prevHash == (if log == [] then GENESIS_HASH else ChainHash(c, log[|log| - 1]))
    && r.signature == c.seal(SortKeys(c.toJson(r.body)))
  }

  /** The history grows by the row if `stored`, and otherwise stays as it is. */
  ghost predicate GrowsBy(hasStore: bool, s: LogState, after: LogState, r: Envelope, stored: bool)
  {
    Readable(hasStore, after) ==>
      && Readable(hasStore, s)
      && History(hasStore, after) == History(hasStore, s) + if stored then [r] else []
  }

  /**
   An append leaves exactly its linked, signed row in the log, or nothing, and which of the two is
   decided by the fault and by whether the local file has to be rebuilt first. A log that can be read
   afterwards could be read before.
   */
  lemma AppendStoresIff(c: Crypto, hasStore: bool, s: LogState, body: Body, fault: Fault) returns (r: Envelope)
    requires Inv(c, hasStore, s)
    ensures var after := SignAndAppend(c, hasStore, s, body, fault).state;
            && Inv(c, hasStore, after)
            && GrowsBy(hasStore, s, after, r, Stores(hasStore, s, fault))
    ensures RowFor(c, History(hasStore, s), body, r)
  {
    r := Linking(c, History(hasStore, s), body);
    ReadsHistory(c, hasStore, s);
    if hasStore {
      StoreAppendKeepsInv(c, s, body, fault);
      StoreStoresIff(c, s, body, fault);
    } else {
      LocalAppendKeepsInv(c, s, body, fault);
      if Readable(false, SignAndAppend(c, false, s, body, fault).state) {
        LocalStoresIff(c, s, body, fault);
      }
    }
  }

  /** The faults that make an append fail in this state. */
  predicate Strikes(hasStore: bool, s: LogState, fault: Fault)
  {
    match fault
    case NoFault => false
    case TipReadFails => true
    case LocalOpenFails => true
    case LocalWriteFails(_) => true
    case LocalSyncFails => true
    case PutLost => hasStore
    case PutUnacknowledged => hasStore
    case TipPutFails => hasStore
    case HydrateReadFails => hasStore && s.local.None?
    case HydrateWriteFails(_, _) => hasStore && s.local.None? && s.durable != []
  }

  /** The failure says which write or read it was. */
  predicate Names(failure: Failure, fault: Fault)
  {
    match failure
    case HydrateFailure => fault.HydrateReadFails? || fault.HydrateWriteFails?
    case TipFailure => fault.TipReadFails?
    case PutFailure => fault.PutLost? || fault.PutUnacknowledged? || fault.TipPutFails?
    case LocalFailure => fault.LocalOpenFails? || fault.LocalWriteFails? || fault.LocalSyncFails?
    case CorruptLocalFile => false
  }

  /** What an append reports: a failure when a fault strikes or the local file is corrupt, else the row. */
  lemma AppendSucceedsIff(c: Crypto, hasStore: bool, s: LogState, body: Body, fault: Fault)
    requires Inv(c, hasStore, s)
    ensures var result := SignAndAppend(c, hasStore, s, body, fault).result;
            && (result.Ok? <==> Readable(hasStore, s) && !Strikes(hasStore, s, fault))
            && (result.Ok? ==> RowFor(c, History(hasStore, s), body, result.value))
            && (result.Err? && Readable(hasStore, s) ==> Names(result.error, fault))
  {
    ReadsHistory(c, hasStore, s);
    if hasStore {
      HydrateKeepsInv(c, true, s, fault);
      StoreReads(s, Hydrate(true, s, fault).state);
    } else {
      LocalRead(s);
    }
  }

  /** An acknowledged append has stored the row it reports, unless it spoiled a local file that lacked its newline. */
  lemma AcknowledgedIsStored(c: Crypto, hasStore: bool, s: LogState, body: Body, fault: Fault)
    requires Inv(c, hasStore, s)
    ensures var a := SignAndAppend(c, hasStore, s, body, fault);
            a.result.Ok? && Readable(hasStore, a.state) ==>
              History(hasStore, a.state) == History(hasStore, s) + [a.result.value]
  {
    var r := AppendStoresIff(c, hasStore, s, body, fault);
    AppendSucceedsIff(c, hasStore, s, body, fault);
    var a := SignAndAppend(c, hasStore, s, body, fault);
    if a.result.Ok? {
      assert a.result.value == r by {
        assert a.result.value.body == r.body;
      }
    }
  }

  // ---- Appends without a fault ----

  /** The local file, if any, can be read and ends in a newline. */
  ghost predicate Tidy(hasStore: bool, s: LogState)
  {
    Readable(hasStore, s) && (!hasStore && s.local.Some? ==> s.local.value.terminated)
  }

  lemma FaultFreeStaysTidy(c: Crypto, hasStore: bool, s: LogState, body: Body)
    requires Inv(c, hasStore, s) && Tidy(hasStore, s)
    ensures Inv(c, hasStore, SignAndAppend(c, hasStore, s, body, NoFault).state)
    ensures Tidy(hasStore, SignAndAppend(c, hasStore, s, body, NoFault).state)
  {
    var r := AppendStoresIff(c, hasStore, s, body, NoFault);
    ReadsHistory(c, hasStore, SignAndAppend(c, hasStore, s, body, NoFault).state);
    if !hasStore {
      LocalRead(s);
      FileReadableIff(Opened(s.local), Linking(c, Rows(Opened(s.local).lines), body));
    }
  }

  // ---- Runs taken apart ----

  lemma RunSnoc(c: Crypto, hasStore: bool, from: LogState, events: seq<Event>, e: Event)
    ensures Run(c, hasStore, from, events + [e]) == Step(c, hasStore, Run(c, hasStore, from, events), e)
  {
    assert (events + [e])[..|events|] == events;
  }

  /** `whole` is the first part continued by the second. */
  ghost predicate Continues(first: RunState, second: RunState, whole: RunState)
  {
    && whole.state == second.state
    && whole.acked == first.acked + second.acked
    && (whole.clean <==> first.clean && second.clean)
  }

  lemma StepContinues(c: Crypto, hasStore: bool, first: RunState, second: RunState, whole: RunState, e: Event)
    requires Continues(first, second, whole)
    ensures Continues(first, Step(c, hasStore, second, e), Step(c, hasStore, whole, e))
  {
  }

  /** A run can be cut anywhere: the second part starts from the state the first part left. */
  lemma {:induction false} RunConcat(c: Crypto, hasStore: bool, from: LogState, a: seq<Event>, b: seq<Event>)
    ensures var first := Run(c, hasStore, from, a);
            Continues(first, Run(c, hasStore, first.state, b), Run(c, hasStore, from, a + b))
  {
    var first := Run(c, hasStore, from, a);
    if b == [] {
      assert a + b == a && first.acked + [] == first.acked;
    } else {
      var n := |b| - 1;
      RunConcat(c, hasStore, from, a, b[..n]);
      assert a + b == (a + b[..n]) + [b[n]] && b == b[..n] + [b[n]];
      RunSnoc(c, hasStore, from, a + b[..n], b[n]);
      RunSnoc(c, hasStore, first.state, b[..n], b[n]);
      StepContinues(c, hasStore, first, Run(c, hasStore, first.state, b[..n]), Run(c, hasStore, from, a + b[..n]), b[n]);
    }
  }

  /**
   Whatever failed earlier: once the local file is gone, the one that is rebuilt in its place equals the
   durable log for as long as no append fails after that.
   */
  lemma ReplicaSinceRebuilt(c: Crypto, from: LogState, before: seq<Event>, after: seq<Event>)
    requires Inv(c, true, from)
    ensures var lost := Run(c, true, from, before + [LocalFileLost]).state;
            Run(c, true, lost, after).clean ==> ExactReplica(Run(c, true, from, (before + [LocalFileLost]) + after).state)
  {
    var lost := Run(c, true, from, before + [LocalFileLost]).state;
    RunKeepsInv(c, true, from, before + [LocalFileLost]);
    RunSnoc(c, true, from, before, LocalFileLost);
    RunConcat(c, true, from, before + [LocalFileLost], after);
    ReplicaRelation(c, lost, after);
  }

  // ---- The public append ----

  /** With a store, `append` adds the row it is given or nothing. */
  lemma RawAppendAdds(c: Crypto, s: LogState, e: Envelope, fault: Fault)
    requires Inv(c, true, s)
    ensures var after := Append(true, s, e, fault).state;
            after.durable == s.durable + if Stores(true, s, fault) then [e] else []
  {
    HydrateKeepsInv(c, true, s, fault);
    StoreReads(s, Hydrate(true, s, fault).state);
    assert s.durable + [] == s.durable;
  }

  /**
   `append` does not set `prev_hash`: it keeps the durable log a chain exactly when its row was not stored
   or the caller had linked it to the tip.
   */
  lemma RawAppendKeepsChainIff(c: Crypto, s: LogState, e: Envelope, fault: Fault)
    requires Inv(c, true, s)
    ensures Linked(c, Append(true, s, e, fault).state.durable) <==>
            !Stores(true, s, fault) || e.body.prevHash == TipHash(c, s.durable)
  {
    RawAppendAdds(c, s, e, fault);
    LinkedSnocIff(c, s.durable, e);
    assert s.durable + [] == s.durable;
  }

  lemma LinkedSnocIff(c: Crypto, log: seq<Envelope>, e: Envelope)
    requires Linked(c, log)
    ensures Linked(c, log + [e]) <==> e.body.prevHash == TipHash(c, log)
  {
    var longer := log + [e];
    forall i | 0 <= i < |log| ensures PointsBack(c, longer, i) {
      assert PointsBack(c, log, i);
    }
    assert PointsBack(c, longer, |log|) <==> e.body.prevHash == TipHash(c, log);
  }

  /** A row that is linked and signed as `sign_and_append` would have done it is appended as it does. */
  lemma ProperAppend(c: Crypto, hasStore: bool, s: LogState, e: Envelope, fault: Fault)
    requires e == Sign(c, e.body)
    requires ReadAll(hasStore, s).Ok? ==> e.body.prevHash == TipHash(c, ReadAll(hasStore, s).value)
    requires hasStore && s.durable == [] ==> s.local.None?
    ensures Append(hasStore, s, e, fault) == SignAndAppend(c, hasStore, s, e.body, fault)
  {
    var h := Hydrate(hasStore, s, fault);
    assert ReadAll(hasStore, h.state) == ReadAll(hasStore, s);
    if ReadAll(hasStore, s).Ok? {
      assert e.body.(prevHash := TipHash(c, ReadAll(hasStore, s).value)) == e.body;
    }
  }
}
