/** What a verifying chained log rules out: deletion, reordering, repetition and alteration of rows. */
module TamperEvidence {
  import opened Envelopes
  import opened Verification
  import Text

  lemma SameLastRow(c: Crypto, a: seq<Envelope>, b: seq<Envelope>)
    requires Sound(c) && Linked(c, a) && Linked(c, b) && a != [] && b != []
    requires TipHash(c, a) == TipHash(c, b)
    ensures a[|a| - 1] == b[|b| - 1]
    ensures TipHash(c, a[..|a| - 1]) == TipHash(c, b[..|b| - 1])
  {
    ChainHashInjective(c, a[|a| - 1], b[|b| - 1]);
    assert PointsBack(c, a, |a| - 1) && PointsBack(c, b, |b| - 1);
  }

  /** The tip hash commits to the whole history. */
  lemma {:induction false} TipDeterminesLog(c: Crypto, a: seq<Envelope>, b: seq<Envelope>)
    requires Sound(c) && Linked(c, a) && Linked(c, b)
    requires TipHash(c, a) == TipHash(c, b)
    ensures a == b
  {
    if a != [] && b != [] {
      var m, n := |a| - 1, |b| - 1;
      SameLastRow(c, a, b);
      LinkedPrefix(c, a, m);
      LinkedPrefix(c, b, n);
      TipDeterminesLog(c, a[..m], b[..n]);
      assert a == a[..m] + [a[m]] && b == b[..n] + [b[n]];
    }
  }

  lemma LinkedPrefix(c: Crypto, log: seq<Envelope>, n: nat)
    requires Linked(c, log) && n <= |log|
    ensures Linked(c, log[..n])
  {
    forall i | 0 <= i < n ensures PointsBack(c, log[..n], i) {
      assert PointsBack(c, log, i);
    }
  }

  lemma RowsPointBack(c: Crypto, log: seq<Envelope>, i: nat)
    requires Sound(c) && Linked(c, log) && i < |log|
    ensures PointsBack(c, log, i)
    ensures log[i].body.prevHash != NO_HASH
  {
    assert PointsBack(c, log, i);
  }

  /** No row occurs twice in a linked log, even where ids repeat. */
  lemma {:induction false} LinkedRowsDiffer(c: Crypto, log: seq<Envelope>, i: nat, j: nat)
    requires Sound(c) && Linked(c, log) && i < j < |log|
    ensures log[i] != log[j]
  {
    if log[i] == log[j] {
      RowsPointBack(c, log, i);
      RowsPointBack(c, log, j);
      if i > 0 {
        ChainHashInjective(c, log[i - 1], log[j - 1]);
        LinkedRowsDiffer(c, log, i - 1, j - 1);
      }
    }
  }

  /** The row that follows the first `n` rows stands at position `n`. */
  lemma SuccessorIsUnique(c: Crypto, log: seq<Envelope>, n: nat, j: nat)
    requires Sound(c) && Linked(c, log) && n <= |log| && j < |log|
    requires log[j].body.prevHash == HashBefore(c, log, n)
    ensures j == n
  {
    RowsPointBack(c, log, j);
    if n > 0 && j > 0 && n != j {
      ChainHashInjective(c, log[j - 1], log[n - 1]);
      LinkedRowsDiffer(c, log, if j < n then j - 1 else n - 1, if j < n then n - 1 else j - 1);
    }
  }

  /**
   Rows taken from a linked log in any order, with any left out and any repeated, link from genesis
   only as a prefix of that log.
   */
  lemma {:induction false} SelectionIsPrefix(c: Crypto, log: seq<Envelope>, sel: seq<Envelope>)
    requires Sound(c) && Linked(c, log) && Linked(c, sel)
    requires forall i :: 0 <= i < |sel| ==> sel[i] in log
    ensures sel <= log
  {
    if sel != [] {
      var n := |sel| - 1;
      LinkedPrefix(c, sel, n);
      SelectionIsPrefix(c, log, sel[..n]);
      var j :| 0 <= j < |log| && log[j] == sel[n];
      RowsPointBack(c, log, j);
      RowsPointBack(c, sel, n);
      if n > 0 {
        assert sel[n - 1] == sel[..n][n - 1] == log[n - 1];
      }
      SuccessorIsUnique(c, log, n, j);
      assert sel == sel[..n] + [sel[n]];
    }
  }

  lemma {:induction false} PrefixVerifies(c: Crypto, key: string, log: seq<Envelope>, n: nat)
    requires Verifies(c, key, log) && n <= |log|
    ensures Verifies(c, key, log[..n])
  {
    VerifiesIff(c, key, log);
    VerifiesIff(c, key, log[..n]);
    if Chained(log) {
      LinkedPrefix(c, log, n);
    }
  }

  /**
   Of all the logs that can be put together from the rows of a verifying chained log, exactly the
   prefixes verify: every deletion before the tail, reordering or repetition is caught, and a
   shortened tail is not.
   */
  lemma SelectionVerifiesIff(c: Crypto, key: string, log: seq<Envelope>, sel: seq<Envelope>)
    requires Sound(c) && Verifies(c, key, log) && Chained(log)
    requires forall i :: 0 <= i < |sel| ==> sel[i] in log
    ensures Verifies(c, key, sel) <==> sel <= log
  {
    VerifiesIff(c, key, log);
    VerifiesIff(c, key, sel);
    if Verifies(c, key, sel) {
      if sel != [] {
        var j :| 0 <= j < |log| && log[j] == sel[0];
        RowsPointBack(c, log, j);
        assert Chained(sel);
      }
      SelectionIsPrefix(c, log, sel);
    }
    if sel <= log {
      PrefixVerifies(c, key, log, |sel|);
      assert sel == log[..|sel|];
    }
  }

  /** No reordering of a verifying chained log verifies. */
  lemma PermutationVerifiesIff(c: Crypto, key: string, log: seq<Envelope>, other: seq<Envelope>)
    requires Sound(c) && Verifies(c, key, log) && Chained(log)
    requires multiset(other) == multiset(log)
    ensures Verifies(c, key, other) <==> other == log
  {
    Text.SameMembers(other, log);
    forall i | 0 <= i < |other| ensures other[i] in log {
      assert other[i] in other;
    }
    SelectionVerifiesIff(c, key, log, other);
  }

  /** Cutting a block out of the middle makes exactly one row fail: the one after the gap. */
  lemma ExcisionFailsOnce(c: Crypto, key: string, log: seq<Envelope>, i: nat, j: nat, k: nat)
    requires Sound(c) && Verifies(c, key, log) && Chained(log)
    requires i < j < |log| && k < |log| - (j - i)
    ensures RowOk(c, key, log[..i] + log[j..], k) <==> k != i
  {
    VerifiesIff(c, key, log);
    CutKeepsDistinct(log, i, j);
    RowOkIff(c, key, log[..i] + log[j..], k);
    CutChain(c, log, i, j, k);
  }

  lemma CutChain(c: Crypto, log: seq<Envelope>, i: nat, j: nat, k: nat)
    requires Sound(c) && Linked(c, log)
    requires i < j < |log| && k < |log| - (j - i)
    ensures var cut := log[..i] + log[j..];
            && cut[k] == log[if k < i then k else k + (j - i)]
            && Chained(cut)
            && (PointsBack(c, cut, k) <==> k != i)
  {
    var cut := log[..i] + log[j..];
    var at := if k < i then k else k + (j - i);
    assert cut[i] == log[j] && cut[k] == log[at];
    RowsPointBack(c, log, j);
    RowsPointBack(c, log, at);
    if k != i {
      assert k > 0 ==> cut[k - 1] == log[at - 1];
    } else if PointsBack(c, cut, i) {
      SuccessorIsUnique(c, log, i, j);
    }
  }

  lemma CutKeepsDistinct(log: seq<Envelope>, i: nat, j: nat)
    requires DistinctIds(log) && i < j <= |log|
    ensures DistinctIds(log[..i] + log[j..])
  {
  }

  /**
   Replacing row `k` by one whose signature does not verify, ids still distinct, makes exactly rows
   `k` and `k + 1` fail.
   */
  lemma AlterationFailsTwice(c: Crypto, key: string, log: seq<Envelope>, k: nat, e: Envelope, i: nat)
    requires Sound(c) && Verifies(c, key, log) && Chained(log)
    requires k < |log| && i < |log|
    requires CheckSignature(c, e, key) != Genuine && DistinctIds(log[k := e])
    ensures RowOk(c, key, log[k := e], i) <==> i != k && i != k + 1
  {
    var bad := log[k := e];
    VerifiesIff(c, key, log);
    RowOkIff(c, key, bad, i);
    if i != k {
      assert bad[i] == log[i];
      RowsPointBack(c, log, i);
      assert Chained(bad);
      if i > 0 && ChainHash(c, bad[i - 1]) == ChainHash(c, log[i - 1]) {
        ChainHashInjective(c, bad[i - 1], log[i - 1]);
      }
    }
  }

  /**
   A repeated row spoils the row after it as well: the checker does not move on over a repeat, while the
   next row was linked to it.
   */
  lemma RowAfterRepeatFails(c: Crypto, key: string, log: seq<Envelope>, i: nat)
    requires Sound(c) && Linked(c, log) && i + 1 < |log|
    requires Repeated(log, i) && !Repeated(log, i + 1)
    ensures !RowOk(c, key, log, i) && !RowOk(c, key, log, i + 1)
  {
    var j := SomeLastNew(log, i + 1);
    assert j != i;
    RowOffTheChainFails(c, key, log, i + 1, j);
  }

  /** Where the last new row is not the one before, a linked row does not carry the expected hash. */
  lemma RowOffTheChainFails(c: Crypto, key: string, log: seq<Envelope>, i: nat, j: nat)
    requires Sound(c) && Linked(c, log) && j < i - 1 && i < |log|
    requires LastNew(log, i, j)
    ensures !RowOk(c, key, log, i)
  {
    ExpectedIsLastNew(c, log, i, j);
    RowsPointBack(c, log, i);
    assert Chained(log);
    LinkedRowsDiffer(c, log, j, i - 1);
    if ChainHash(c, log[j]) == ChainHash(c, log[i - 1]) {
      ChainHashInjective(c, log[j], log[i - 1]);
    }
  }
}
