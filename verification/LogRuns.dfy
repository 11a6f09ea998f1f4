/** What every run of the attestation log keeps, whatever fails and whenever it restarts. */
module LogRuns {
  import opened Wrappers
  import opened Envelopes
  import opened Verification
  import opened TamperEvidence
  import opened LogMachine

  // ---- Subsequences ----

  ghost predicate Subsequence(a: seq<Envelope>, b: seq<Envelope>)
  {
    a == [] || (b != [] &&
      (Subsequence(a, b[..|b| - 1])
       || (a[|a| - 1] == b[|b| - 1] && Subsequence(a[..|a| - 1], b[..|b| - 1]))))
  }

  lemma SubsequenceWider(a: seq<Envelope>, b: seq<Envelope>, x: Envelope)
    requires Subsequence(a, b)
    ensures Subsequence(a, b + [x])
  {
    assert (b + [x])[..|b|] == b;
  }

  lemma SubsequenceBoth(a: seq<Envelope>, b: seq<Envelope>, x: Envelope)
    requires Subsequence(a, b)
    ensures Subsequence(a + [x], b + [x])
  {
    assert (b + [x])[..|b|] == b && (a + [x])[..|a|] == a;
  }

  lemma {:induction false} SubsequenceDropLast(a: seq<Envelope>, b: seq<Envelope>)
    requires Subsequence(a, b) && a != []
    ensures Subsequence(a[..|a| - 1], b)
  {
    var b' := b[..|b| - 1];
    if Subsequence(a, b') {
      SubsequenceDropLast(a, b');
    }
    SubsequenceWider(a[..|a| - 1], b', b[|b| - 1]);
    assert b == b' + [b[|b| - 1]];
  }

  lemma {:induction false} SubsequenceSelf(a: seq<Envelope>)
    ensures Subsequence(a, a)
  {
    if a != [] {
      SubsequenceSelf(a[..|a| - 1]);
    }
  }

  lemma {:induction false} SubsequencePrefix(a: seq<Envelope>, n: nat)
    requires n <= |a|
    ensures Subsequence(a[..n], a)
    decreases |a|
  {
    if n == |a| {
      assert a[..n] == a;
      SubsequenceSelf(a);
    } else {
      var m := |a| - 1;
      SubsequencePrefix(a[..m], n);
      assert a[..m][..n] == a[..n];
    }
  }

  // ---- The local file ----

  lemma RowsSnoc(lines: seq<Line>, line: Line)
    ensures Rows(lines + [line]) == Rows(lines) + if line.Row? then [line.env] else []
  {
    assert (lines + [line])[..|lines|] == lines;
  }

  lemma {:induction false} RowsOfAsLines(envs: seq<Envelope>)
    ensures Rows(AsLines(envs)) == envs
  {
    if envs != [] {
      var n := |envs| - 1;
      RowsOfAsLines(envs[..n]);
      assert AsLines(envs) == AsLines(envs[..n]) + [Row(envs[n])];
      RowsSnoc(AsLines(envs[..n]), Row(envs[n]));
    }
  }

  /** A write either adds a line or spoils the last one. */
  lemma RowsAfterWrite(f: LocalFile, line: Line, terminated: bool)
    ensures var rows := Rows(WriteText(f, line, terminated).lines);
            if f.terminated || f.lines == [] then rows == Rows(f.lines) + if line.Row? then [line.env] else []
            else rows == Rows(f.lines) || (Rows(f.lines) != [] && rows == Rows(f.lines)[..|Rows(f.lines)| - 1])
  {
    if f.terminated || f.lines == [] {
      RowsSnoc(f.lines, line);
    } else {
      var n := |f.lines| - 1;
      RowsSnoc(f.lines[..n], Garbage);
      assert f.lines == f.lines[..n] + [f.lines[n]];
      RowsSnoc(f.lines[..n], f.lines[n]);
    }
  }

  /** Writing a row, whole or in part, keeps a replica a replica once the row itself is durable. */
  lemma ReplicaAfterWrite(f: LocalFile, durable: seq<Envelope>, e: Envelope, line: Line, terminated: bool)
    requires Subsequence(Rows(f.lines), durable) && (line == Row(e) || line == Garbage)
    ensures Subsequence(Rows(WriteText(f, line, terminated).lines), durable + [e])
  {
    var rows := Rows(f.lines);
    RowsAfterWrite(f, line, terminated);
    assert rows + [] == rows;
    SubsequenceWider(rows, durable, e);
    SubsequenceBoth(rows, durable, e);
    if rows != [] {
      SubsequenceDropLast(rows, durable + [e]);
    }
  }

  lemma ReplicaAfterTorn(f: LocalFile, durable: seq<Envelope>, e: Envelope, torn: Torn)
    requires Subsequence(Rows(f.lines), durable)
    ensures Subsequence(Rows(AppendTorn(f, e, torn).lines), durable + [e])
  {
    match torn
    case NothingWritten => SubsequenceWider(Rows(f.lines), durable, e);
    case PartOfLine => ReplicaAfterWrite(f, durable, e, Garbage, false);
    case AllButNewline => ReplicaAfterWrite(f, durable, e, Row(e), false);
  }

  lemma TornRebuild(envs: seq<Envelope>, e: Envelope, torn: Torn)
    ensures Subsequence(Rows(AppendTorn(FileOf(envs), e, torn).lines), envs + [e])
  {
    RowsOfAsLines(envs);
    SubsequenceSelf(envs);
    ReplicaAfterTorn(FileOf(envs), envs, e, torn);
  }

  lemma PartialRebuildIsReplica(envs: seq<Envelope>, kept: nat, torn: Torn)
    ensures Subsequence(Rows(PartialRebuild(envs, kept, torn).lines), envs)
  {
    if kept < |envs| {
      TornRebuild(envs[..kept], envs[kept], torn);
      assert envs[..kept] + [envs[kept]] == envs[..kept + 1];
      SubsequenceTrans(Rows(PartialRebuild(envs, kept, torn).lines), envs, kept + 1);
    } else {
      RowsOfAsLines(envs);
      SubsequenceSelf(envs);
    }
  }

  lemma {:induction false} SubsequenceTrans(a: seq<Envelope>, b: seq<Envelope>, n: nat)
    requires n <= |b| && Subsequence(a, b[..n])
    ensures Subsequence(a, b)
    decreases |b|
  {
    if n == |b| {
      assert b[..n] == b;
    } else {
      var m := |b| - 1;
      assert b[..m][..n] == b[..n];
      SubsequenceTrans(a, b[..m], n);
    }
  }

  // ---- The invariant ----

  ghost predicate AllSigned(c: Crypto, log: seq<Envelope>)
  {
    forall i :: 0 <= i < |log| ==> log[i] == Sign(c, log[i].body)
  }

  /** A chain that this log wrote: linked from genesis, every row signed. */
  ghost predicate IsChain(c: Crypto, log: seq<Envelope>)
  {
    Linked(c, log) && AllSigned(c, log)
  }

  ghost predicate GarbageOnlyLast(lines: seq<Line>)
  {
    forall i :: 0 <= i < |lines| - 1 ==> lines[i].Row?
  }

  ghost predicate Inv(c: Crypto, hasStore: bool, s: LogState)
  {
    if hasStore then
      && IsChain(c, s.durable)
      && (s.durable == [] ==> s.local.None?)
      && (s.local.Some? ==> Subsequence(Rows(s.local.value.lines), s.durable))
    else
      && s.durable == []
      && (s.local.Some? ==> IsChain(c, Rows(s.local.value.lines)) && GarbageOnlyLast(s.local.value.lines))
  }

  lemma ChainExtends(c: Crypto, log: seq<Envelope>, body: Body)
    requires IsChain(c, log)
    ensures IsChain(c, log + [Linking(c, log, body)])
  {
    var longer := log + [Linking(c, log, body)];
    forall i | 0 <= i < |longer| ensures PointsBack(c, longer, i) {
      if i < |log| {
        assert PointsBack(c, log, i);
      }
    }
  }

  lemma ChainShortens(c: Crypto, log: seq<Envelope>, n: nat)
    requires IsChain(c, log) && n <= |log|
    ensures IsChain(c, log[..n])
  {
    LinkedPrefix(c, log, n);
  }

  lemma HydrateKeepsInv(c: Crypto, hasStore: bool, s: LogState, fault: Fault)
    requires Inv(c, hasStore, s)
    ensures Inv(c, hasStore, Hydrate(hasStore, s, fault).state)
    ensures Hydrate(hasStore, s, fault).state.durable == s.durable
  {
    if fault.HydrateWriteFails? {
      PartialRebuildIsReplica(s.durable, fault.kept, fault.torn);
    }
    RowsOfAsLines(s.durable);
    SubsequenceSelf(s.durable);
  }

  lemma ReplicaAfterWriteLocal(s: LogState, before: seq<Envelope>, e: Envelope, fault: Fault)
    requires s.durable == before + [e]
    requires s.local.Some? ==> Subsequence(Rows(s.local.value.lines), before)
    ensures var a := WriteLocal(s, e, fault);
            && a.state.durable == s.durable
            && (a.result.Ok? ==> a.result == Ok(e))
            && (a.state.local.Some? ==> Subsequence(Rows(a.state.local.value.lines), s.durable))
  {
    var f := Opened(s.local);
    assert Rows([]) == [];
    SubsequenceWider(Rows(f.lines), before, e);
    if fault.LocalWriteFails? {
      ReplicaAfterTorn(f, before, e, fault.torn);
    } else {
      ReplicaAfterWrite(f, before, e, Row(e), true);
    }
  }

  /** With a store: the durable rows grow by exactly the signed row, or not at all. */
  lemma StoreAppendKeepsInv(c: Crypto, s: LogState, body: Body, fault: Fault)
    requires Inv(c, true, s)
    ensures Inv(c, true, SignAndAppend(c, true, s, body, fault).state)
    ensures var a := SignAndAppend(c, true, s, body, fault);
            var e := Linking(c, s.durable, body);
            && (a.state.durable == s.durable || a.state.durable == s.durable + [e])
            && (a.result.Ok? ==> a.result == Ok(e) && a.state.durable == s.durable + [e])
  {
    HydrateKeepsInv(c, true, s, fault);
    var h := Hydrate(true, s, fault).state;
    StoreReads(s, h);
    StoreWriteKeepsInv(c, h, body, fault);
  }

  lemma StoreWriteKeepsInv(c: Crypto, h: LogState, body: Body, fault: Fault)
    requires Inv(c, true, h)
    ensures var e := Linking(c, h.durable, body);
            var a := WriteLine(true, h, e, fault);
            && Inv(c, true, a.state)
            && (a.state.durable == h.durable || a.state.durable == h.durable + [e])
            && (a.result.Ok? ==> a.result == Ok(e) && a.state.durable == h.durable + [e])
  {
    var e := Linking(c, h.durable, body);
    ChainExtends(c, h.durable, body);
    ReplicaAfterWriteLocal(h.(durable := h.durable + [e]), h.durable, e, fault);
    if h.local.Some? {
      SubsequenceWider(Rows(h.local.value.lines), h.durable, e);
    }
  }

  lemma StoreReads(s: LogState, h: LogState)
    requires h.durable == s.durable && (s.durable == [] ==> h.local.None?)
    ensures ReadAll(true, h) == Ok(s.durable)
  {
  }

  lemma LocalRead(s: LogState)
    ensures ReadLocal(s.local).Ok? ==> ReadLocal(s.local).value == Rows(Opened(s.local).lines)
  {
  }

  lemma LocalWriteKeepsChain(c: Crypto, f: LocalFile, body: Body, line: Line, terminated: bool)
    requires IsChain(c, Rows(f.lines)) && (forall i :: 0 <= i < |f.lines| ==> f.lines[i].Row?)
    requires line == Garbage || line == Row(Linking(c, Rows(f.lines), body))
    ensures var g := WriteText(f, line, terminated); IsChain(c, Rows(g.lines)) && GarbageOnlyLast(g.lines)
  {
    var rows := Rows(f.lines);
    RowsAfterWrite(f, line, terminated);
    assert rows + [] == rows;
    ChainExtends(c, rows, body);
    if rows != [] {
      ChainShortens(c, rows, |rows| - 1);
    }
  }

  lemma LocalAppendKeepsInv(c: Crypto, s: LogState, body: Body, fault: Fault)
    requires Inv(c, false, s)
    ensures Inv(c, false, SignAndAppend(c, false, s, body, fault).state)
  {
    if !fault.TipReadFails? && ReadLocal(s.local).Ok? {
      LocalRead(s);
      assert Rows([]) == [];
      LocalWriteKeepsInv(c, s, Opened(s.local), body, fault);
    }
  }

  lemma LocalWriteKeepsInv(c: Crypto, s: LogState, f: LocalFile, body: Body, fault: Fault)
    requires Inv(c, false, s) && f == Opened(s.local)
    requires IsChain(c, Rows(f.lines)) && (forall i :: 0 <= i < |f.lines| ==> f.lines[i].Row?)
    ensures Inv(c, false, WriteLocal(s, Linking(c, Rows(f.lines), body), fault).state)
  {
    var e := Linking(c, Rows(f.lines), body);
    if fault.LocalOpenFails? {
    } else if fault.LocalWriteFails? {
      TornWriteKeepsChain(c, f, body, fault.torn);
      LocalFileInv(c, s, AppendTorn(f, e, fault.torn));
    } else {
      LocalWriteKeepsChain(c, f, body, Row(e), true);
      LocalFileInv(c, s, AppendLine(f, e));
    }
  }

  lemma LocalFileInv(c: Crypto, s: LogState, g: LocalFile)
    requires Inv(c, false, s) && IsChain(c, Rows(g.lines)) && GarbageOnlyLast(g.lines)
    ensures Inv(c, false, s.(local := Some(g)))
  {
  }

  lemma TornWriteKeepsChain(c: Crypto, f: LocalFile, body: Body, torn: Torn)
    requires IsChain(c, Rows(f.lines)) && (forall i :: 0 <= i < |f.lines| ==> f.lines[i].Row?)
    ensures var g := AppendTorn(f, Linking(c, Rows(f.lines), body), torn);
            IsChain(c, Rows(g.lines)) && GarbageOnlyLast(g.lines)
  {
    match torn
    case NothingWritten =>
    case PartOfLine => LocalWriteKeepsChain(c, f, body, Garbage, false);
    case AllButNewline => LocalWriteKeepsChain(c, f, body, Row(Linking(c, Rows(f.lines), body)), false);
  }

  // ---- Runs from an empty store and no local file ----

  lemma {:induction false} RunKeepsInv(c: Crypto, hasStore: bool, from: LogState, events: seq<Event>)
    requires Inv(c, hasStore, from)
    ensures Inv(c, hasStore, Run(c, hasStore, from, events).state)
  {
    if events != [] {
      var n := |events| - 1;
      RunKeepsInv(c, hasStore, from, events[..n]);
      var s := Run(c, hasStore, from, events[..n]).state;
      match events[n]
      case LocalFileLost =>
      case AppendRow(body, fault) =>
        if hasStore {
          StoreAppendKeepsInv(c, s, body, fault);
        } else {
          LocalAppendKeepsInv(c, s, body, fault);
        }
    }
  }

  /**
   Crash safety. After any run from nothing, whatever failed and whatever was lost, `read_all` (when
   it answers at all) answers with a chain linked from genesis; with a store it always answers, and
   with the durable rows in append order.
   */
  lemma EveryRunReadsAChain(c: Crypto, hasStore: bool, events: seq<Event>)
    ensures var s := Run(c, hasStore, EMPTY, events).state;
            && (ReadAll(hasStore, s).Ok? ==> IsChain(c, ReadAll(hasStore, s).value))
            && (hasStore ==> ReadAll(hasStore, s) == Ok(s.durable))
  {
    RunKeepsInv(c, hasStore, EMPTY, events);
    var s := Run(c, hasStore, EMPTY, events).state;
    LocalRead(s);
    assert Rows([]) == [];
  }

  /** Durable history is never rewritten, and no acknowledged row is ever lost or moved. */
  lemma {:induction false} AcknowledgedRowsSurvive(c: Crypto, from: LogState, events: seq<Event>)
    requires Inv(c, true, from)
    ensures from.durable <= Run(c, true, from, events).state.durable
    ensures Subsequence(Run(c, true, from, events).acked, Run(c, true, from, events).state.durable)
  {
    if events != [] {
      var n := |events| - 1;
      AcknowledgedRowsSurvive(c, from, events[..n]);
      RunKeepsInv(c, true, from, events[..n]);
      var o := Run(c, true, from, events[..n]);
      if events[n].AppendRow? {
        var body := events[n].body;
        StoreAppendKeepsInv(c, o.state, body, events[n].fault);
        SubsequenceBoth(o.acked, o.state.durable, Linking(c, o.state.durable, body));
        SubsequenceWider(o.acked, o.state.durable, Linking(c, o.state.durable, body));
      }
    }
  }

  /** The local file, when there is one, holds every durable row and nothing else. */
  ghost predicate ExactReplica(s: LogState)
  {
    s.local.Some? ==> s.local.value == FileOf(s.durable)
  }

  /** The local file is always a replica with rows missing at most; it is exact while nothing fails. */
  lemma {:induction false} ReplicaRelation(c: Crypto, from: LogState, events: seq<Event>)
    requires Inv(c, true, from) && ExactReplica(from)
    ensures var o := Run(c, true, from, events);
            && (o.state.local.Some? ==> Subsequence(Rows(o.state.local.value.lines), o.state.durable))
            && (o.clean ==> ExactReplica(o.state))
  {
    RunKeepsInv(c, true, from, events);
    if events != [] {
      var n := |events| - 1;
      ReplicaRelation(c, from, events[..n]);
      RunKeepsInv(c, true, from, events[..n]);
      var o := Run(c, true, from, events[..n]);
      if events[n].AppendRow? && o.clean {
        CleanAppendIsExact(c, o.state, events[n].body, events[n].fault);
      }
    }
  }

  lemma CleanAppendIsExact(c: Crypto, s: LogState, body: Body, fault: Fault)
    requires Inv(c, true, s) && ExactReplica(s)
    ensures var a := SignAndAppend(c, true, s, body, fault); a.result.Ok? ==> ExactReplica(a.state)
  {
    var e := Linking(c, s.durable, body);
    assert FileOf(s.durable + [e]).lines == FileOf(s.durable).lines + [Row(e)];
    assert s.durable == [] ==> FileOf(s.durable) == LocalFile([], true);
  }

  // ---- Without an object store ----

  /**
   An acknowledged local append can be read back exactly when the file ended in a newline before it.
   After a write that lost only its newline, the next append is acknowledged and yet spoils both rows.
   */
  lemma LocalAckReadableIff(c: Crypto, s: LogState, body: Body, fault: Fault)
    requires Inv(c, false, s) && SignAndAppend(c, false, s, body, fault).result.Ok?
    ensures var a := SignAndAppend(c, false, s, body, fault);
            var f := Opened(s.local);
            if f.terminated || f.lines == []
            then ReadAll(false, a.state) == Ok(Rows(f.lines) + [a.result.value])
            else ReadAll(false, a.state).Err?
  {
    var f := Opened(s.local);
    var e := Linking(c, Rows(f.lines), body);
    LocalRead(s);
    assert Rows([]) == [];
    assert SignAndAppend(c, false, s, body, fault) == Appended(s.(local := Some(AppendLine(f, e))), Ok(e));
    FileReadableIff(f, e);
  }

  lemma FileReadableIff(f: LocalFile, e: Envelope)
    requires forall i :: 0 <= i < |f.lines| ==> f.lines[i].Row?
    ensures var r := ReadLocal(Some(AppendLine(f, e)));
            if f.terminated || f.lines == [] then r == Ok(Rows(f.lines) + [e]) else r.Err?
  {
    var g := AppendLine(f, e);
    RowsAfterWrite(f, Row(e), true);
    if !f.terminated && f.lines != [] {
      assert g.lines[|g.lines| - 1].Garbage?;
    }
  }

  /** Once a line of the local file does not parse, every later append fails and changes nothing. */
  lemma {:induction false} CorruptFileStopsTheLog(c: Crypto, from: LogState, events: seq<Event>)
    requires Inv(c, false, from) && ReadLocal(from.local).Err?
    requires forall i :: 0 <= i < |events| ==> events[i].AppendRow?
    ensures Run(c, false, from, events).state == from && Run(c, false, from, events).acked == []
  {
    if events != [] {
      CorruptFileStopsTheLog(c, from, events[..|events| - 1]);
    }
  }

  // ---- The written log and `verify_log` ----

  lemma SignedRowsAreGenuine(c: Crypto, log: seq<Envelope>)
    requires Sound(c) && AllSigned(c, log)
    ensures AllGenuine(c, c.verifyingKey, log)
  {
  }

  /** A log written only by `sign_and_append` verifies exactly when its action ids are distinct. */
  lemma WrittenLogVerifiesIff(c: Crypto, log: seq<Envelope>)
    requires Sound(c) && IsChain(c, log)
    ensures Verifies(c, c.verifyingKey, log) <==> DistinctIds(log)
  {
    SignedRowsAreGenuine(c, log);
    VerifiesIff(c, c.verifyingKey, log);
  }
}
