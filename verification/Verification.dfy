/** The offline checker `verify_log` (verify.rs) and what a verifying log proves. */
module Verification {
  import opened Envelopes

  datatype Detail =
    | Pass(path: ExecutionPathKind)
    | Duplicate
    | SignatureMismatch
    | InvalidMaterial
    | ChainBreak(prevHash: Hash, expected: Hash)

  datatype LineResult = LineResult(actionId: Uuid, ok: bool, detail: Detail)

  predicate AllOk(results: seq<LineResult>)
  {
    forall i | 0 <= i < |results| :: results[i].ok
  }

  // ---- What each row's result means, row by row ----

  predicate Chained(log: seq<Envelope>)
  {
    exists i | 0 <= i < |log| :: log[i].body.prevHash != NO_HASH
  }

  ghost predicate Repeated(log: seq<Envelope>, i: nat)
    requires i < |log|
  {
    exists j :: 0 <= j < i && log[j].body.agentActionId == log[i].body.agentActionId
  }

  /** The chain hash of the last row before `i` that is not a repeat; rows that fail still count. */
  ghost function Expected(c: Crypto, log: seq<Envelope>, i: nat): Hash
    requires i <= |log|
  {
    if i == 0 then GENESIS_HASH
    else if Repeated(log, i - 1) then Expected(c, log, i - 1)
    else ChainHash(c, log[i - 1])
  }

  ghost function RowDetail(c: Crypto, key: string, log: seq<Envelope>, i: nat): Detail
    requires i < |log|
  {
    if Repeated(log, i) then Duplicate
    else match CheckSignature(c, log[i], key)
      case Mismatch => SignatureMismatch
      case Malformed => InvalidMaterial
      case Genuine =>
        if Chained(log) && log[i].body.prevHash != Expected(c, log, i)
        then ChainBreak(log[i].body.prevHash, Expected(c, log, i))
        else Pass(log[i].body.executionPath)
  }

  ghost predicate IsReport(c: Crypto, key: string, log: seq<Envelope>, results: seq<LineResult>)
  {
    && |results| == |log|
    && forall i :: 0 <= i < |log| ==>
         results[i] == LineResult(log[i].body.agentActionId, RowDetail(c, key, log, i).Pass?, RowDetail(c, key, log, i))
  }

  /** Whether the row passes. */
  ghost predicate RowOk(c: Crypto, key: string, log: seq<Envelope>, i: nat)
    requires i < |log|
  {
    RowDetail(c, key, log, i).Pass?
  }

  method VerifyLog(c: Crypto, log: seq<Envelope>, verifyingKey: string) returns (results: seq<LineResult>)
    ensures IsReport(c, verifyingKey, log, results)
  {
    var chained := Chained(log);
    var seen: set<Uuid> := {};
    var expectedPrev := GENESIS_HASH;
    results := [];
    for i := 0 to |log|
      invariant seen == set j | 0 <= j < i :: log[j].body.agentActionId
      invariant chained ==> expectedPrev == Expected(c, log, i)
      invariant |results| == i
      invariant forall j :: 0 <= j < i ==>
        results[j] == LineResult(log[j].body.agentActionId, RowDetail(c, verifyingKey, log, j).Pass?, RowDetail(c, verifyingKey, log, j))
    {
      var env := log[i];
      var id := env.body.agentActionId;
      if id in seen {
        results := results + [LineResult(id, false, Duplicate)];
        continue;
      }
      seen := seen + {id};

      var check := CheckSignature(c, env, verifyingKey);
      if check != Genuine {
        results := results + [LineResult(id, false, if check == Mismatch then SignatureMismatch else InvalidMaterial)];
        if chained {
          expectedPrev := ChainHash(c, env);
        }
        continue;
      }

      if chained && env.body.prevHash != expectedPrev {
        results := results + [LineResult(id, false, ChainBreak(env.body.prevHash, expectedPrev))];
        expectedPrev := ChainHash(c, env);
        continue;
      }

      results := results + [LineResult(id, true, Pass(env.body.executionPath))];
      if chained {
        expectedPrev := ChainHash(c, env);
      }
    }
  }

  // ---- Characterisation ----

  ghost predicate DistinctIds(log: seq<Envelope>)
  {
    forall i, j :: 0 <= i < j < |log| ==> log[i].body.agentActionId != log[j].body.agentActionId
  }

  ghost predicate AllGenuine(c: Crypto, key: string, log: seq<Envelope>)
  {
    forall i :: 0 <= i < |log| ==> CheckSignature(c, log[i], key) == Genuine
  }

  /** The hash that row `i` must carry: that of its predecessor, or `GENESIS_HASH`. */
  function HashBefore(c: Crypto, log: seq<Envelope>, i: nat): Hash
    requires i <= |log|
  {
    if i == 0 then GENESIS_HASH else ChainHash(c, log[i - 1])
  }

  /** The hash the next row must carry. */
  function TipHash(c: Crypto, log: seq<Envelope>): Hash
  {
    HashBefore(c, log, |log|)
  }

  ghost predicate PointsBack(c: Crypto, log: seq<Envelope>, i: nat)
    requires i < |log|
  {
    log[i].body.prevHash == HashBefore(c, log, i)
  }

  /** Every row points at its predecessor, the first at `GENESIS_HASH`. */
  ghost predicate Linked(c: Crypto, log: seq<Envelope>)
  {
    forall i :: 0 <= i < |log| ==> PointsBack(c, log, i)
  }

  /** `verify_log` accepts: every row passes. */
  ghost predicate Verifies(c: Crypto, key: string, log: seq<Envelope>)
  {
    forall i :: 0 <= i < |log| ==> RowOk(c, key, log, i)
  }

  lemma ReportVerdict(c: Crypto, key: string, log: seq<Envelope>, results: seq<LineResult>)
    requires IsReport(c, key, log, results)
    ensures AllOk(results) <==> Verifies(c, key, log)
  {
    forall i | 0 <= i < |log| ensures results[i].ok <==> RowOk(c, key, log, i) {
    }
  }

  lemma ExpectedHash(c: Crypto, log: seq<Envelope>, i: nat)
    requires i <= |log| && (i == 0 || !Repeated(log, i - 1))
    ensures Expected(c, log, i) == HashBefore(c, log, i)
  {
  }

  /** Exactly what a full pass means. */
  lemma VerifiesIff(c: Crypto, key: string, log: seq<Envelope>)
    ensures Verifies(c, key, log) <==>
            DistinctIds(log) && AllGenuine(c, key, log) && (!Chained(log) || Linked(c, log))
  {
    if Verifies(c, key, log) {
      forall i, j | 0 <= i < j < |log| ensures log[i].body.agentActionId != log[j].body.agentActionId {
        assert RowOk(c, key, log, j);
      }
      forall i | 0 <= i < |log| ensures CheckSignature(c, log[i], key) == Genuine {
        assert RowOk(c, key, log, i);
      }
      if Chained(log) {
        forall i | 0 <= i < |log| ensures PointsBack(c, log, i) {
          assert RowOk(c, key, log, i);
          ExpectedHash(c, log, i);
        }
      }
    } else {
      var i :| 0 <= i < |log| && !RowOk(c, key, log, i);
      ExpectedIfDistinct(c, log, i);
      if Linked(c, log) {
        assert PointsBack(c, log, i);
      }
    }
  }

  lemma ExpectedIfDistinct(c: Crypto, log: seq<Envelope>, i: nat)
    requires i <= |log|
    ensures DistinctIds(log) ==> Expected(c, log, i) == HashBefore(c, log, i)
  {
  }

  /** Where ids are distinct a row is judged by its own signature and its predecessor alone. */
  lemma RowOkIff(c: Crypto, key: string, log: seq<Envelope>, i: nat)
    requires DistinctIds(log) && i < |log|
    ensures RowOk(c, key, log, i) <==>
            CheckSignature(c, log[i], key) == Genuine && (!Chained(log) || PointsBack(c, log, i))
  {
    ExpectedIfDistinct(c, log, i);
  }

  // ---- The report of any log, row by row ----

  /** Row `j` is the last row before `i` whose id was new. */
  ghost predicate LastNew(log: seq<Envelope>, i: nat, j: nat)
    requires i <= |log|
  {
    && j < i && !Repeated(log, j)
    && forall k: nat {:trigger Repeated(log, k)} :: j < k < i ==> Repeated(log, k)
  }

  /** Every row but the first has such a row before it. */
  lemma {:induction false} SomeLastNew(log: seq<Envelope>, i: nat) returns (j: nat)
    requires 0 < i <= |log|
    ensures LastNew(log, i, j)
  {
    if Repeated(log, i - 1) {
      j := SomeLastNew(log, i - 1);
    } else {
      j := i - 1;
    }
  }

  lemma {:induction false} ExpectedIsLastNew(c: Crypto, log: seq<Envelope>, i: nat, j: nat)
    requires i <= |log| && LastNew(log, i, j)
    ensures Expected(c, log, i) == ChainHash(c, log[j])
  {
    if j < i - 1 {
      assert Repeated(log, i - 1);
      ExpectedIsLastNew(c, log, i - 1, j);
    }
  }

  /** `h` is the hash of the last row before `i` with a new id, or `GENESIS_HASH` when `i` is the first row. */
  ghost predicate HashOfLastNew(c: Crypto, log: seq<Envelope>, i: nat, h: Hash)
    requires i <= |log|
  {
    && (i == 0 ==> h == GENESIS_HASH)
    && (forall j: nat {:trigger LastNew(log, i, j)} :: LastNew(log, i, j) ==> h == ChainHash(c, log[j]))
  }

  lemma ExpectedIff(c: Crypto, log: seq<Envelope>, i: nat, h: Hash)
    requires i <= |log|
    ensures HashOfLastNew(c, log, i, h) <==> h == Expected(c, log, i)
  {
    if i > 0 {
      var j := SomeLastNew(log, i);
      ExpectedIsLastNew(c, log, i, j);
      forall k: nat | LastNew(log, i, k) ensures ChainHash(c, log[k]) == Expected(c, log, i) {
        ExpectedIsLastNew(c, log, i, k);
      }
    }
  }

  /**
   What the report says of each row of any log: a repeat, a signature that is wrong or malformed, a row
   that does not carry the hash of the last row with a new id, or a pass. Where no row of the log has a
   `prev_hash` the chain is not looked at.
   */
  lemma ReportMeans(c: Crypto, key: string, log: seq<Envelope>, results: seq<LineResult>, i: nat)
    requires IsReport(c, key, log, results) && i < |log|
    ensures var repeated := exists j :: 0 <= j < i && log[j].body.agentActionId == log[i].body.agentActionId;
            var chained := exists k :: 0 <= k < |log| && log[k].body.prevHash != Hash("");
            var check := CheckSignature(c, log[i], key);
            var follows := HashOfLastNew(c, log, i, log[i].body.prevHash);
            var detail := results[i].detail;
            && results[i].actionId == log[i].body.agentActionId
            && (results[i].ok <==> detail.Pass?)
            && (detail.Duplicate? <==> repeated)
            && (detail.SignatureMismatch? <==> !repeated && check == Mismatch)
            && (detail.InvalidMaterial? <==> !repeated && check == Malformed)
            && (detail.Pass? <==> !repeated && check == Genuine && (chained ==> follows))
            && (detail.Pass? ==> detail.path == log[i].body.executionPath)
            && (detail.ChainBreak? ==>
                  detail.prevHash == log[i].body.prevHash && HashOfLastNew(c, log, i, detail.expected))
  {
    ExpectedIff(c, log, i, log[i].body.prevHash);
    ExpectedIff(c, log, i, Expected(c, log, i));
    assert Repeated(log, i) <==> exists j :: 0 <= j < i && log[j].body.agentActionId == log[i].body.agentActionId;
    assert Chained(log) <==> exists k :: 0 <= k < |log| && log[k].body.prevHash != Hash("");
  }

  /** So in a chained log a genuine row with a new id passes exactly when it carries that hash. */
  lemma NewRowPassesIff(c: Crypto, key: string, log: seq<Envelope>, i: nat)
    requires i < |log| && Chained(log) && !Repeated(log, i) && CheckSignature(c, log[i], key) == Genuine
    ensures RowOk(c, key, log, i) <==> HashOfLastNew(c, log, i, log[i].body.prevHash)
  {
    ExpectedIff(c, log, i, log[i].body.prevHash);
  }
}
