/** `order_by_chain` (log.rs): rebuild append order by walking `prev_hash` from genesis. */
module ChainOrder {
  import opened Envelopes
  import opened Verification
  import opened TamperEvidence
  import Text

  type Index = map<Hash, Envelope>

  /** Every entry is filed under its own `prev_hash`. */
  ghost predicate Keyed(m: Index)
  {
    forall k :: k in m ==> m[k].body.prevHash == k
  }

  /** The newest row for each `prev_hash`: what repeated `HashMap::insert` leaves behind. */
  function Newest(envs: seq<Envelope>): (m: Index)
    ensures Keyed(m)
  {
    if envs == [] then map[]
    else
      var e := envs[|envs| - 1];
      Newest(envs[..|envs| - 1])[e.body.prevHash := e]
  }

  /** The oldest row for each `prev_hash`. */
  ghost function Oldest(envs: seq<Envelope>): (m: Index)
    ensures Keyed(m)
    ensures m.Keys == Newest(envs).Keys
  {
    if envs == [] then map[]
    else
      var e := envs[|envs| - 1];
      var m := Oldest(envs[..|envs| - 1]);
      if e.body.prevHash in m then m else m[e.body.prevHash := e]
  }

  /** The rows whose `prev_hash` had been seen before. */
  function Extra(envs: seq<Envelope>): seq<Envelope>
  {
    if envs == [] then []
    else
      var e := envs[|envs| - 1];
      var before := envs[..|envs| - 1];
      Extra(before) + if e.body.prevHash in Newest(before) then [e] else []
  }

  /** Follow the chain from `cursor`, removing each row as it is used. */
  function Walk(c: Crypto, m: Index, cursor: Hash): seq<Envelope>
    decreases |m|
  {
    if cursor !in m then []
    else
      assert |m - {cursor}| < |m| by { Shrinks(m, cursor); }
      [m[cursor]] + Walk(c, m - {cursor}, ChainHash(c, m[cursor]))
  }

  /** The rows a map holds; no two entries hold the same row when the map is `Keyed`. */
  ghost function Rows(m: Index): multiset<Envelope>
  {
    multiset(m.Values)
  }

  lemma Shrinks(m: Index, k: Hash)
    requires k in m
    ensures |m - {k}| == |m| - 1
  {
    assert (m - {k}).Keys == m.Keys - {k};
  }

  lemma TakeOut(m: Index, k: Hash)
    requires Keyed(m) && k in m
    ensures Keyed(m - {k})
    ensures |m - {k}| == |m| - 1
    ensures Rows(m) == multiset{m[k]} + Rows(m - {k})
  {
    Shrinks(m, k);
    var rest := m - {k};
    forall v ensures v in m.Values <==> v == m[k] || v in rest.Values {
      if v in m.Values && v != m[k] {
        var l :| l in m && m[l] == v;
        assert l in rest && rest[l] == v;
      }
    }
    assert m.Values == {m[k]} + rest.Values;
    assert m[k] !in rest.Values;
  }

  /**
   What every caller gets: the walk first, the rows it did not reach after it in no particular
   order, the extra rows last.
   */
  ghost predicate IsOrdering(c: Crypto, envs: seq<Envelope>, out: seq<Envelope>)
  {
    if |envs| <= 1 then out == envs
    else
      && Walk(c, Newest(envs), GENESIS_HASH) <= out
      && multiset(out) == Rows(Newest(envs)) + multiset(Extra(envs))
      && |Extra(envs)| <= |out| && out[|out| - |Extra(envs)|..] == Extra(envs)
  }

  /** The walk: rows leave the map as the cursor meets them. */
  method FollowCursor(c: Crypto, index: Index) returns (out: seq<Envelope>, byPrev: Index)
    requires Keyed(index)
    ensures out == Walk(c, index, GENESIS_HASH)
    ensures Keyed(byPrev) && multiset(out) + Rows(byPrev) == Rows(index)
  {
    byPrev := index;
    var cursor := GENESIS_HASH;
    out := [];
    while cursor in byPrev
      invariant Keyed(byPrev)
      invariant out + Walk(c, byPrev, cursor) == Walk(c, index, GENESIS_HASH)
      invariant multiset(out) + Rows(byPrev) == Rows(index)
      decreases |byPrev|
    {
      TakeOut(byPrev, cursor);
      var env := byPrev[cursor];
      assert out + Walk(c, byPrev, cursor) == (out + [env]) + Walk(c, byPrev - {cursor}, ChainHash(c, env));
      byPrev := byPrev - {cursor};
      cursor := ChainHash(c, env);
      out := out + [env];
    }
  }

  /** `into_values`: the rows of a map in an order the caller cannot predict. */
  method IntoValues(index: Index) returns (out: seq<Envelope>)
    requires Keyed(index)
    ensures multiset(out) == Rows(index)
  {
    var m := index;
    out := [];
    while m != map[]
      invariant Keyed(m)
      invariant multiset(out) + Rows(m) == Rows(index)
      decreases |m|
    {
      var k :| k in m;
      TakeOut(m, k);
      out := out + [m[k]];
      m := m - {k};
    }
  }

  method OrderByChain(c: Crypto, envs: seq<Envelope>) returns (out: seq<Envelope>)
    ensures IsOrdering(c, envs, out)
    ensures |out| == |envs|
  {
    if |envs| <= 1 {
      return envs;
    }
    var byPrev: Index := map[];
    var extra := [];
    for i := 0 to |envs|
      invariant byPrev == Newest(envs[..i]) && extra == Extra(envs[..i])
    {
      var env := envs[i];
      assert envs[..i + 1][..i] == envs[..i];
      if env.body.prevHash in byPrev {
        extra := extra + [env];
      }
      byPrev := byPrev[env.body.prevHash := env];
    }
    assert envs[..|envs|] == envs;

    var left;
    out, left := FollowCursor(c, byPrev);
    var unreached := IntoValues(left);
    out := out + unreached + extra;
    OrderingKeepsLength(c, envs, out);
  }

  /** The number of rows is kept, whatever the input. */
  lemma OrderingKeepsLength(c: Crypto, envs: seq<Envelope>, out: seq<Envelope>)
    requires IsOrdering(c, envs, out)
    ensures |out| == |envs|
  {
    if |envs| > 1 {
      CountRows(envs);
      calc {
        |out|;
        |multiset(out)|;
        |Rows(Newest(envs))| + |multiset(Extra(envs))|;
        |Newest(envs)| + |Extra(envs)|;
        |envs|;
      }
    }
  }

  lemma {:induction false} CountRows(envs: seq<Envelope>)
    ensures |Newest(envs)| + |Extra(envs)| == |envs|
    ensures |Rows(Newest(envs))| == |Newest(envs)|
  {
    if envs != [] {
      CountRows(envs[..|envs| - 1]);
    }
    ValuesCount(Newest(envs));
  }

  lemma {:induction false} ValuesCount(m: Index)
    requires Keyed(m)
    ensures |Rows(m)| == |m|
    decreases |m|
  {
    if m != map[] {
      var k :| k in m;
      TakeOut(m, k);
      ValuesCount(m - {k});
    }
  }

  lemma PutIn(m: Index, e: Envelope)
    requires Keyed(m) && e.body.prevHash !in m
    ensures Rows(m[e.body.prevHash := e]) == Rows(m) + multiset{e}
  {
    var k := e.body.prevHash;
    TakeOut(m[k := e], k);
    assert m[k := e] - {k} == m;
  }

  ghost predicate SplitsInTwo(envs: seq<Envelope>)
  {
    Rows(Oldest(envs)) + multiset(Extra(envs)) == multiset(envs)
  }

  /** Every row is either the oldest with its `prev_hash` or extra, exactly once. */
  lemma {:induction false} OldestPlusExtra(envs: seq<Envelope>)
    ensures SplitsInTwo(envs)
  {
    if envs != [] {
      var n := |envs| - 1;
      var before, e := envs[..n], envs[n];
      OldestPlusExtra(before);
      assert envs == before + [e];
      OldestStep(before, e, envs);
    }
  }

  lemma OldestStep(before: seq<Envelope>, e: Envelope, envs: seq<Envelope>)
    requires SplitsInTwo(before) && envs == before + [e]
    ensures SplitsInTwo(envs)
  {
    assert envs[..|before|] == before;
    if e.body.prevHash in Oldest(before) {
      assert Extra(envs) == Extra(before) + [e];
    } else {
      PutIn(Oldest(before), e);
      assert Extra(envs) == Extra(before);
    }
  }

  /**
   On a fork the newest row of the fork is returned twice and the oldest is lost: the result is a
   rearrangement of the input exactly when, for every `prev_hash`, the oldest and the newest row
   that carry it are the same row.
   */
  lemma RearrangesIff(c: Crypto, envs: seq<Envelope>, out: seq<Envelope>)
    requires IsOrdering(c, envs, out)
    ensures multiset(out) == multiset(envs) <==> Oldest(envs) == Newest(envs)
  {
    if |envs| == 1 {
      assert envs[..0] == [];
    } else if |envs| > 1 {
      OldestPlusExtra(envs);
      if multiset(out) == multiset(envs) {
        SameRows(Rows(Oldest(envs)), Rows(Newest(envs)), multiset(Extra(envs)));
        SameValuesSameIndex(Oldest(envs), Newest(envs));
      }
    }
  }

  lemma SameRows(a: multiset<Envelope>, b: multiset<Envelope>, extra: multiset<Envelope>)
    requires a + extra == b + extra
    ensures a == b
  {
    assert (a + extra) - extra == a && (b + extra) - extra == b;
  }

  lemma SameValuesSameIndex(a: Index, b: Index)
    requires Keyed(a) && Keyed(b) && a.Keys == b.Keys
    requires Rows(a) == Rows(b)
    ensures a == b
  {
    forall k | k in a ensures a[k] == b[k] {
      assert a[k] in Rows(a);
      assert a[k] in b.Values;
    }
  }

  ghost predicate DistinctPrev(envs: seq<Envelope>)
  {
    forall i, j :: 0 <= i < j < |envs| ==> envs[i].body.prevHash != envs[j].body.prevHash
  }

  /** Pairwise distinct `prev_hash` values suffice. */
  lemma DistinctPrevRearranges(c: Crypto, envs: seq<Envelope>, out: seq<Envelope>)
    requires IsOrdering(c, envs, out) && DistinctPrev(envs)
    ensures multiset(out) == multiset(envs)
  {
    NewestOfDistinct(envs);
    RearrangesIff(c, envs, out);
  }

  lemma {:induction false} NewestOfDistinct(envs: seq<Envelope>)
    requires DistinctPrev(envs)
    ensures Oldest(envs) == Newest(envs)
    ensures forall k :: k in Newest(envs) ==> Newest(envs)[k] in envs
  {
    if envs != [] {
      NewestOfDistinct(envs[..|envs| - 1]);
    }
  }

  /** A fork of two rows: the older one is gone, the newer one appears twice. */
  lemma ForkLosesOlder(c: Crypto, older: Envelope, newer: Envelope, out: seq<Envelope>)
    requires Sound(c) && older != newer
    requires older.body.prevHash == newer.body.prevHash == GENESIS_HASH
    requires IsOrdering(c, [older, newer], out)
    ensures out == [newer, newer]
  {
    var envs := [older, newer];
    ForkIndex(older, newer);
    OrderingKeepsLength(c, envs, out);
    TwoAlike(out, newer);
  }

  lemma TwoAlike(out: seq<Envelope>, e: Envelope)
    requires |out| == 2 && multiset(out) == multiset{e} + multiset([e])
    ensures out == [e, e]
  {
    assert out[0] in multiset(out) && out[1] in multiset(out);
  }

  lemma ForkIndex(older: Envelope, newer: Envelope)
    requires older.body.prevHash == newer.body.prevHash
    ensures Rows(Newest([older, newer])) == multiset{newer} && Extra([older, newer]) == [newer]
  {
    assert [older, newer][..1] == [older] && [older][..0] == [];
    assert Newest([older]) == map[older.body.prevHash := older] && Extra([older]) == [];
    assert Newest([older, newer]) == map[newer.body.prevHash := newer];
    assert map[newer.body.prevHash := newer].Values == {newer};
  }

  // ---- The linked chain comes back exactly ----

  lemma HashesDiffer(c: Crypto, chain: seq<Envelope>, i: nat, j: nat)
    requires Sound(c) && Linked(c, chain) && i < j <= |chain|
    ensures HashBefore(c, chain, i) != HashBefore(c, chain, j)
  {
    if i > 0 && HashBefore(c, chain, i) == HashBefore(c, chain, j) {
      ChainHashInjective(c, chain[i - 1], chain[j - 1]);
      LinkedRowsDiffer(c, chain, i - 1, j - 1);
    }
  }

  ghost predicate FiledAt(c: Crypto, m: Index, chain: seq<Envelope>, j: nat)
    requires j < |chain|
  {
    HashBefore(c, chain, j) in m && m[HashBefore(c, chain, j)] == chain[j]
  }

  ghost predicate PrevOfSome(c: Crypto, chain: seq<Envelope>, i: nat, k: Hash)
  {
    exists j :: i <= j < |chain| && k == HashBefore(c, chain, j)
  }

  /** `m` files exactly the rows of `chain` from `i` on. */
  ghost predicate Files(c: Crypto, m: Index, chain: seq<Envelope>, i: nat)
    requires i <= |chain|
  {
    && (forall j {:trigger FiledAt(c, m, chain, j)} :: i <= j < |chain| ==> FiledAt(c, m, chain, j))
    && (forall k {:trigger PrevOfSome(c, chain, i, k)} :: k in m ==> PrevOfSome(c, chain, i, k))
  }

  /** The walk from the point before row `i` yields the rest of the chain. */
  ghost predicate WalksRest(c: Crypto, m: Index, chain: seq<Envelope>, i: nat)
    requires i <= |chain|
  {
    Walk(c, m, HashBefore(c, chain, i)) == chain[i..]
  }

  lemma {:induction false} WalkFollowsChain(c: Crypto, m: Index, chain: seq<Envelope>, i: nat)
    requires Sound(c) && Linked(c, chain) && i <= |chain| && Files(c, m, chain, i)
    ensures WalksRest(c, m, chain, i)
    decreases |chain| - i
  {
    if i == |chain| {
      NothingFiled(c, m, chain, i);
    } else {
      assert FiledAt(c, m, chain, i);
      FilesRest(c, m, chain, i);
      WalkFollowsChain(c, m - {HashBefore(c, chain, i)}, chain, i + 1);
      WalkStep(c, m, chain, i);
    }
  }

  lemma NothingFiled(c: Crypto, m: Index, chain: seq<Envelope>, i: nat)
    requires i == |chain| && Files(c, m, chain, i)
    ensures WalksRest(c, m, chain, i)
  {
    NoneFrom(c, chain, i, HashBefore(c, chain, i));
  }

  lemma NoneFrom(c: Crypto, chain: seq<Envelope>, i: nat, k: Hash)
    requires i == |chain|
    ensures !PrevOfSome(c, chain, i, k)
  {
  }

  lemma WalkStep(c: Crypto, m: Index, chain: seq<Envelope>, i: nat)
    requires i < |chain| && FiledAt(c, m, chain, i)
    requires WalksRest(c, m - {HashBefore(c, chain, i)}, chain, i + 1)
    ensures WalksRest(c, m, chain, i)
  {
    assert HashBefore(c, chain, i + 1) == ChainHash(c, chain[i]);
    assert chain[i..] == [chain[i]] + chain[i + 1..];
  }

  lemma StaysFiled(c: Crypto, m: Index, chain: seq<Envelope>, i: nat, j: nat)
    requires Sound(c) && Linked(c, chain) && i < j < |chain| && FiledAt(c, m, chain, j)
    ensures FiledAt(c, m - {HashBefore(c, chain, i)}, chain, j)
  {
    HashesDiffer(c, chain, i, j);
  }

  lemma StaysOfSome(c: Crypto, chain: seq<Envelope>, i: nat, k: Hash)
    requires PrevOfSome(c, chain, i, k) && i < |chain| && k != HashBefore(c, chain, i)
    ensures PrevOfSome(c, chain, i + 1, k)
  {
  }

  lemma FilesRest(c: Crypto, m: Index, chain: seq<Envelope>, i: nat)
    requires Sound(c) && Linked(c, chain) && i < |chain| && Files(c, m, chain, i)
    ensures Files(c, m - {HashBefore(c, chain, i)}, chain, i + 1)
  {
    var rest := m - {HashBefore(c, chain, i)};
    forall j | i + 1 <= j < |chain| ensures FiledAt(c, rest, chain, j) {
      StaysFiled(c, m, chain, i, j);
    }
    forall k | k in rest ensures PrevOfSome(c, chain, i + 1, k) {
      StaysOfSome(c, chain, i, k);
    }
  }

  /** The rows of a linked chain carry pairwise distinct `prev_hash` values, in whatever order they are listed. */
  lemma ShuffledFiles(c: Crypto, chain: seq<Envelope>, envs: seq<Envelope>)
    requires Sound(c) && Linked(c, chain) && multiset(envs) == multiset(chain)
    ensures Files(c, Newest(envs), chain, 0)
  {
    Text.SameMembers(envs, chain);
    NewestMembers(envs);
    var m := Newest(envs);
    forall k | k in m ensures PrevOfSome(c, chain, 0, k) {
      var j :| 0 <= j < |chain| && chain[j] == m[k];
      assert PointsBack(c, chain, j);
    }
    forall j | 0 <= j < |chain| ensures FiledAt(c, m, chain, j) {
      assert PointsBack(c, chain, j) && chain[j] in envs;
      var k := HashBefore(c, chain, j);
      var i :| 0 <= i < |chain| && chain[i] == m[k];
      assert PointsBack(c, chain, i);
      if i != j {
        HashesDiffer(c, chain, if i < j then i else j, if i < j then j else i);
      }
    }
  }

  lemma {:induction false} NewestMembers(envs: seq<Envelope>)
    ensures forall k :: k in Newest(envs) ==> Newest(envs)[k] in envs
    ensures forall e :: e in envs ==> e.body.prevHash in Newest(envs)
  {
    if envs != [] {
      var n := |envs| - 1;
      NewestMembers(envs[..n]);
      assert envs == envs[..n] + [envs[n]];
    }
  }

  /** However the rows of a linked chain are listed, they come back in append order. */
  lemma ChainIsRestored(c: Crypto, chain: seq<Envelope>, envs: seq<Envelope>, out: seq<Envelope>)
    requires Sound(c) && Linked(c, chain) && multiset(envs) == multiset(chain)
    requires IsOrdering(c, envs, out)
    ensures out == chain
  {
    Text.SameMembers(envs, chain);
    if |envs| <= 1 {
      if |envs| == 1 {
        assert envs[0] in chain;
      }
    } else {
      ShuffledFiles(c, chain, envs);
      WalkFollowsChain(c, Newest(envs), chain, 0);
      OrderingKeepsLength(c, envs, out);
    }
  }

  // ---- The parts of the result, said of the input alone ----

  /** No later row carries the `prev_hash` of row `i`. */
  ghost predicate IsLast(envs: seq<Envelope>, i: nat)
    requires i < |envs|
  {
    forall j :: i < j < |envs| ==> envs[j].body.prevHash != envs[i].body.prevHash
  }

  /** No earlier row does. */
  ghost predicate IsFirst(envs: seq<Envelope>, i: nat)
    requires i < |envs|
  {
    forall j :: 0 <= j < i ==> envs[j].body.prevHash != envs[i].body.prevHash
  }

  lemma {:induction false} IndexHolds(envs: seq<Envelope>, i: nat)
    requires i < |envs|
    ensures envs[i].body.prevHash in Newest(envs)
    ensures IsLast(envs, i) ==> Newest(envs)[envs[i].body.prevHash] == envs[i]
    ensures IsFirst(envs, i) ==> Oldest(envs)[envs[i].body.prevHash] == envs[i]
  {
    var n := |envs| - 1;
    if i < n {
      IndexHolds(envs[..n], i);
    } else if envs[n].body.prevHash in Newest(envs[..n]) {
      var j := IndexedRow(envs[..n], envs[n].body.prevHash);
      assert envs[..n][j] == envs[j];
    }
  }

  /** What the index has under a hash is the last of the rows that carry it. */
  lemma {:induction false} IndexedRow(envs: seq<Envelope>, k: Hash) returns (i: nat)
    requires k in Newest(envs)
    ensures i < |envs| && envs[i].body.prevHash == k && IsLast(envs, i) && Newest(envs)[k] == envs[i]
  {
    var n := |envs| - 1;
    if envs[n].body.prevHash == k {
      i := n;
    } else {
      i := IndexedRow(envs[..n], k);
    }
  }

  /** The extra rows are those that are not the first with their `prev_hash`, in their order. */
  ghost predicate InOrder(envs: seq<Envelope>, at: seq<nat>, extra: seq<Envelope>)
  {
    && |at| == |extra|
    && (forall k :: 0 <= k < |at| ==> at[k] < |envs| && envs[at[k]] == extra[k])
    && (forall k, l :: 0 <= k < l < |at| ==> at[k] < at[l])
    && (forall i :: 0 <= i < |envs| ==> (i in at <==> !IsFirst(envs, i)))
  }

  lemma {:induction false} ExtraInOrder(envs: seq<Envelope>) returns (at: seq<nat>)
    ensures InOrder(envs, at, Extra(envs))
  {
    if envs == [] {
      at := [];
    } else {
      var n := |envs| - 1;
      var before := ExtraInOrder(envs[..n]);
      var repeated := envs[n].body.prevHash in Newest(envs[..n]);
      at := before + if repeated then [n] else [];
      if repeated {
        var j := IndexedRow(envs[..n], envs[n].body.prevHash);
        assert envs[..n][j] == envs[j];
      }
      if !IsFirst(envs, n) {
        var j :| 0 <= j < n && envs[j].body.prevHash == envs[n].body.prevHash;
        IndexHolds(envs[..n], j);
      }
      ExtraStep(envs, n, before, at, repeated);
    }
  }

  lemma ExtraStep(envs: seq<Envelope>, n: nat, before: seq<nat>, at: seq<nat>, repeated: bool)
    requires |envs| == n + 1 && InOrder(envs[..n], before, Extra(envs[..n]))
    requires repeated <==> envs[n].body.prevHash in Newest(envs[..n])
    requires repeated <==> !IsFirst(envs, n)
    requires at == before + if repeated then [n] else []
    ensures InOrder(envs, at, Extra(envs))
  {
    var extra := Extra(envs[..n]);
    assert Extra(envs) == extra + if repeated then [envs[n]] else [];
    OneMoreInOrder(envs, n, before, at, extra, repeated);
  }

  lemma OneMoreInOrder(envs: seq<Envelope>, n: nat, before: seq<nat>, at: seq<nat>, extra: seq<Envelope>, repeated: bool)
    requires |envs| == n + 1 && InOrder(envs[..n], before, extra) && (repeated <==> !IsFirst(envs, n))
    requires at == before + if repeated then [n] else []
    ensures InOrder(envs, at, extra + if repeated then [envs[n]] else [])
  {
    forall k | 0 <= k < |before| ensures before[k] < n && envs[..n][before[k]] == envs[before[k]] {
    }
    forall i | 0 <= i < |envs| ensures i in at <==> !IsFirst(envs, i) {
      if i < n {
        assert IsFirst(envs, i) <==> IsFirst(envs[..n], i);
      } else {
        assert n !in before;
      }
    }
  }

  /** The hash that the next row of a walk from `cursor` must carry. */
  ghost function HashAfter(c: Crypto, cursor: Hash, w: seq<Envelope>): Hash
  {
    if w == [] then cursor else ChainHash(c, w[|w| - 1])
  }

  /** Each row carries the hash that stands before it. */
  ghost predicate Follows(c: Crypto, cursor: Hash, w: seq<Envelope>)
  {
    forall i :: 0 <= i < |w| ==> w[i].body.prevHash == HashAfter(c, cursor, w[..i])
  }

  /** The rows of the map are used once at most. */
  ghost predicate Uses(m: Index, w: seq<Envelope>)
  {
    && (forall i :: 0 <= i < |w| ==> w[i] in m.Values)
    && (forall i, j :: 0 <= i < j < |w| ==> w[i] != w[j])
  }

  /** A walk goes from row to row and ends only where no unused row goes on. */
  ghost predicate IsWalk(c: Crypto, m: Index, cursor: Hash, w: seq<Envelope>)
  {
    && Follows(c, cursor, w) && Uses(m, w)
    && (HashAfter(c, cursor, w) in m ==> m[HashAfter(c, cursor, w)] in w)
  }

  lemma {:induction false} WalkIsMaximal(c: Crypto, m: Index, cursor: Hash)
    requires Keyed(m)
    ensures IsWalk(c, m, cursor, Walk(c, m, cursor))
    decreases |m|
  {
    if cursor in m {
      Shrinks(m, cursor);
      WalkIsMaximal(c, m - {cursor}, ChainHash(c, m[cursor]));
      LongerWalk(c, m, cursor, Walk(c, m - {cursor}, ChainHash(c, m[cursor])));
    }
  }

  lemma LongerFollows(c: Crypto, cursor: Hash, e: Envelope, rest: seq<Envelope>)
    requires e.body.prevHash == cursor && Follows(c, ChainHash(c, e), rest)
    ensures Follows(c, cursor, [e] + rest)
    ensures HashAfter(c, cursor, [e] + rest) == HashAfter(c, ChainHash(c, e), rest)
  {
    var w := [e] + rest;
    forall i | 0 <= i < |w| ensures w[i].body.prevHash == HashAfter(c, cursor, w[..i]) {
      if i > 0 {
        assert rest[i - 1].body.prevHash == HashAfter(c, ChainHash(c, e), rest[..i - 1]);
        assert w[..i] == [e] + rest[..i - 1];
      }
    }
  }

  lemma LongerUses(m: Index, cursor: Hash, rest: seq<Envelope>)
    requires Keyed(m) && cursor in m && Uses(m - {cursor}, rest)
    ensures Uses(m, [m[cursor]] + rest)
  {
    var shorter := m - {cursor};
    forall i | 0 <= i < |rest| ensures rest[i] in m.Values && rest[i] != m[cursor] {
      assert rest[i] in shorter.Values;
    }
  }

  lemma LongerWalk(c: Crypto, m: Index, cursor: Hash, rest: seq<Envelope>)
    requires Keyed(m) && cursor in m && IsWalk(c, m - {cursor}, ChainHash(c, m[cursor]), rest)
    ensures IsWalk(c, m, cursor, [m[cursor]] + rest)
  {
    var w := [m[cursor]] + rest;
    LongerFollows(c, cursor, m[cursor], rest);
    LongerUses(m, cursor, rest);
    assert forall e :: e in rest ==> e in w;
    assert m[cursor] == w[0];
  }

  /**
   The order of any rows: first a linked chain from genesis, made of rows that are the last with their
   `prev_hash` and as long as one of these goes on; at the end, in their order, the rows that are not the
   first with theirs; between the two whatever is left.
   */
  lemma OrderingMeans(c: Crypto, envs: seq<Envelope>, out: seq<Envelope>) returns (n: nat, at: seq<nat>)
    requires |envs| > 1 && IsOrdering(c, envs, out)
    ensures n + |at| <= |out| && Linked(c, out[..n])
    ensures forall i :: 0 <= i < n ==> exists j :: 0 <= j < |envs| && IsLast(envs, j) && envs[j] == out[i]
    ensures forall j :: 0 <= j < |envs| && IsLast(envs, j) && envs[j].body.prevHash == TipHash(c, out[..n]) ==> envs[j] in out[..n]
    ensures InOrder(envs, at, out[|out| - |at|..])
  {
    var m := Newest(envs);
    var w := Walk(c, m, GENESIS_HASH);
    WalkIsMaximal(c, m, GENESIS_HASH);
    at := ExtraInOrder(envs);
    n := |w|;
    assert out[..n] == w;
    forall i | 0 <= i < n ensures exists j :: 0 <= j < |envs| && IsLast(envs, j) && envs[j] == out[i] {
      assert Uses(m, w) && w[i] in m.Values;
      var j := IndexedRow(envs, w[i].body.prevHash);
      assert envs[j] == out[i];
    }
    forall j | 0 <= j < |envs| && IsLast(envs, j) && envs[j].body.prevHash == TipHash(c, w) ensures envs[j] in w {
      IndexHolds(envs, j);
    }
    forall i | 0 <= i < |w| ensures PointsBack(c, w, i) {
      assert w[i].body.prevHash == HashAfter(c, GENESIS_HASH, w[..i]);
    }
    WalkAndExtraFit(c, envs, out, w);
  }

  lemma WalkAndExtraFit(c: Crypto, envs: seq<Envelope>, out: seq<Envelope>, w: seq<Envelope>)
    requires |envs| > 1 && IsOrdering(c, envs, out) && w == Walk(c, Newest(envs), GENESIS_HASH)
    ensures |w| + |Extra(envs)| <= |out|
  {
    var m := Newest(envs);
    WalkIsMaximal(c, m, GENESIS_HASH);
    OrderingKeepsLength(c, envs, out);
    CountRows(envs);
    DistinctRowsCount(w, m.Values);
    ValuesCount(m);
  }

  lemma {:induction false} DistinctRowsCount(w: seq<Envelope>, values: set<Envelope>)
    requires forall i :: 0 <= i < |w| ==> w[i] in values
    requires forall i, j :: 0 <= i < j < |w| ==> w[i] != w[j]
    ensures |w| <= |values|
  {
    if w != [] {
      var e := w[|w| - 1];
      DistinctRowsCount(w[..|w| - 1], values - {e});
    }
  }
}
