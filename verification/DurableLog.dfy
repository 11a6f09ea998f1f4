/** The log over an object store and a local file: it does what `LogMachine` says, step by step. */
module DurableLog {
  import opened Wrappers
  import opened Text
  import opened Envelopes
  import opened Verification
  import opened ChainOrder
  import opened ObjectKeys
  import opened LogMachine
  import opened LogRuns
  import LogHistory

  datatype Tip = Tip(hash: Hash, count: nat)

  /** The content of a stored object. */
  datatype Object = EnvelopeObject(env: Envelope) | TipObject(tip: Tip)

  type Store = map<string, Object>

  function KeyOf(durable: seq<Envelope>, i: nat): string
    requires i < |durable|
  {
    KeyText(i, durable[i].body.agentActionId)
  }

  ghost predicate StoredAt(store: Store, durable: seq<Envelope>, i: nat)
    requires i < |durable|
  {
    && IsUuid(durable[i].body.agentActionId)
    && KeyOf(durable, i) in store
    && store[KeyOf(durable, i)] == EnvelopeObject(durable[i])
  }

  ghost predicate KeyOfSome(durable: seq<Envelope>, k: string)
  {
    exists i :: 0 <= i < |durable| && k == KeyOf(durable, i)
  }

  /** `tip.json`, when present, describes some earlier or current tip: a failed put leaves it behind. */
  ghost predicate TipDescribes(c: Crypto, store: Store, durable: seq<Envelope>)
  {
    TIP_KEY in store ==>
      && store[TIP_KEY].TipObject?
      && store[TIP_KEY].tip.count <= |durable|
      && store[TIP_KEY].tip.hash == HashBefore(c, durable, store[TIP_KEY].tip.count)
  }

  /** The store holds the durable rows, one object a row, numbered from 0 in append order, and the tip. */
  ghost predicate Stored(c: Crypto, store: Store, durable: seq<Envelope>)
  {
    && (forall i :: 0 <= i < |durable| ==> StoredAt(store, durable, i))
    && (forall k :: k in store ==> k == TIP_KEY || KeyOfSome(durable, k))
    && TipDescribes(c, store, durable)
  }

  ghost function Listing(durable: seq<Envelope>): seq<Entry<Object>>
  {
    seq(|durable|, i requires 0 <= i < |durable| => Entry(KeyOf(durable, i), EnvelopeObject(durable[i])))
  }

  /** What the listing of the store yields, in whatever order the store returns it. */
  ghost predicate Lists(store: Store, found: seq<Entry<Object>>)
  {
    && DistinctKeys(found)
    && forall e :: e in found <==> e.key in store && IsEnvelopeKey(e.key) && store[e.key] == e.value
  }

  /** Exactly the envelope objects pass the filter. */
  lemma FilterFindsRows(c: Crypto, store: Store, durable: seq<Envelope>, k: string)
    requires Stored(c, store, durable) && k in store
    ensures IsEnvelopeKey(k) <==> KeyOfSome(durable, k)
  {
    if KeyOfSome(durable, k) {
      var i :| 0 <= i < |durable| && k == KeyOf(durable, i);
      assert StoredAt(store, durable, i);
      KeyPassesFilter(i, durable[i].body.agentActionId);
    } else {
      KeyPassesFilter(0, ANY_ID);
    }
  }

  lemma ListingAscends(durable: seq<Envelope>)
    requires |durable| < USIZE_LIMIT
    ensures Ascending(Listing(durable))
  {
    var listing := Listing(durable);
    forall i, j | 0 <= i < j < |durable| ensures Below(listing[i].key, listing[j].key) {
      KeyOrder(i, j, durable[i].body.agentActionId, durable[j].body.agentActionId);
    }
  }

  lemma ListsTheRows(c: Crypto, store: Store, durable: seq<Envelope>, found: seq<Entry<Object>>, e: Entry<Object>)
    requires Stored(c, store, durable) && Lists(store, found)
    ensures e in found <==> e in Listing(durable)
  {
    var listing := Listing(durable);
    if e in found {
      FilterFindsRows(c, store, durable, e.key);
      var i :| 0 <= i < |durable| && e.key == KeyOf(durable, i);
      assert StoredAt(store, durable, i);
      assert e == listing[i];
    }
    if e in listing {
      var i :| 0 <= i < |durable| && e == listing[i];
      assert StoredAt(store, durable, i);
      assert KeyOfSome(durable, e.key);
      FilterFindsRows(c, store, durable, e.key);
    }
  }

  /** Sorted by name, the listing is the log in append order. */
  lemma SortedListing(c: Crypto, store: Store, durable: seq<Envelope>, found: seq<Entry<Object>>)
    requires Stored(c, store, durable) && Lists(store, found) && |durable| < USIZE_LIMIT
    ensures SortByKey(found) == Listing(durable)
  {
    SortAscending(found);
    SameMembers(SortByKey(found), found);
    ListingAscends(durable);
    forall e ensures e in found <==> e in Listing(durable) {
      ListsTheRows(c, store, durable, found, e);
    }
    AscendingUnique(SortByKey(found), Listing(durable));
  }

  const ANY_ID := Uuid("000000000000000000000000000000000000")

  /** Putting the next row under its own number keeps every other object. */
  lemma PutKeepsStored(c: Crypto, store: Store, durable: seq<Envelope>, e: Envelope)
    requires Stored(c, store, durable) && IsUuid(e.body.agentActionId) && |durable| < USIZE_LIMIT
    ensures Stored(c, store[KeyText(|durable|, e.body.agentActionId) := EnvelopeObject(e)], durable + [e])
    ensures TIP_KEY != KeyText(|durable|, e.body.agentActionId)
  {
    var n := |durable|;
    var longer := durable + [e];
    var key := KeyText(n, e.body.agentActionId);
    var after := store[key := EnvelopeObject(e)];
    KeyPassesFilter(n, e.body.agentActionId);
    forall i | 0 <= i < |longer| ensures StoredAt(after, longer, i) {
      if i < n {
        assert StoredAt(store, durable, i) && KeyOf(longer, i) == KeyOf(durable, i);
        KeyOrder(i, n, durable[i].body.agentActionId, e.body.agentActionId);
        BelowIrreflexive(key);
      }
    }
    forall k | k in after && k != TIP_KEY ensures KeyOfSome(longer, k) {
      if k == key {
        assert k == KeyOf(longer, n);
      } else {
        assert KeyOfSome(durable, k);
        var i :| 0 <= i < n && k == KeyOf(durable, i);
        assert k == KeyOf(longer, i);
      }
    }
    TipStaysBehind(c, store, durable, e, key);
  }

  lemma TipStaysBehind(c: Crypto, store: Store, durable: seq<Envelope>, e: Envelope, key: string)
    requires TipDescribes(c, store, durable) && key != TIP_KEY
    ensures TipDescribes(c, store[key := EnvelopeObject(e)], durable + [e])
  {
    if TIP_KEY in store {
      var count := store[TIP_KEY].tip.count;
      assert HashBefore(c, durable + [e], count) == HashBefore(c, durable, count);
    }
  }

  class AttestationLog {
    const crypto: Crypto
    const hasStore: bool
    var store: Store
    var local: Option<LocalFile>
    /** The rows put so far, in the order they were put. */
    ghost var durable: seq<Envelope>

    ghost function State(): LogState
      reads this
    {
      LogState(durable, local)
    }

    ghost predicate Valid()
      reads this
    {
      && Sound(crypto)
      && Inv(crypto, hasStore, State())
      && Stored(crypto, store, durable)
      && |durable| < USIZE_LIMIT
    }

    /** The row carries the hash of the last row that can be read, if the log can be read. */
    ghost predicate LinksToTip(e: Envelope)
      reads this
    {
      var envs := LogMachine.ReadAll(hasStore, State());
      envs.Ok? ==> e.body.prevHash == TipHash(crypto, envs.value)
    }

    /** A fresh bucket and no local file. */
    constructor (crypto: Crypto, hasStore: bool)
      requires Sound(crypto)
      ensures Valid() && State() == EMPTY
      ensures this.crypto == crypto && this.hasStore == hasStore
    {
      this.crypto := crypto;
      this.hasStore := hasStore;
      store := map[];
      local := None;
      durable := [];
      new;
      assert Linked(crypto, []);
    }

    /** A new process over the same bucket and the same disk. */
    constructor Restart(before: AttestationLog)
      requires before.Valid()
      ensures Valid() && State() == before.State() && store == before.store
      ensures crypto == before.crypto && hasStore == before.hasStore
    {
      crypto := before.crypto;
      hasStore := before.hasStore;
      store := before.store;
      local := before.local;
      durable := before.durable;
    }

    /** The disk is replaced, or the file deleted, behind the log's back. */
    method LoseLocalFile()
      requires Valid()
      modifies this`local
      ensures Valid() && State() == old(State()).(local := None)
    {
      local := None;
    }

    /** The listing arrives in an order of the store's choosing; `tip.json` is skipped, never read. */
    method ListObjects() returns (found: seq<Entry<Object>>)
      ensures Lists(store, found)
    {
      var pending := store.Keys;
      found := [];
      while pending != {}
        invariant pending <= store.Keys
        invariant DistinctKeys(found)
        invariant forall e :: e in found <==>
          e.key in store && e.key !in pending && IsEnvelopeKey(e.key) && store[e.key] == e.value
      {
        var loc :| loc in pending;
        pending := pending - {loc};
        if EndsWith(loc, "tip.json") || !EndsWith(loc, ".json") {
          continue;
        }
        assert forall j :: 0 <= j < |found| ==> found[j] in found;
        found := found + [Entry(loc, store[loc])];
      }
    }

    method GetEach(keys: seq<Entry<Object>>) returns (out: seq<Envelope>)
      requires forall i :: 0 <= i < |keys| ==> keys[i].value.EnvelopeObject?
      ensures |out| == |keys| && forall i :: 0 <= i < |keys| ==> out[i] == keys[i].value.env
    {
      out := [];
      for i := 0 to |keys|
        invariant |out| == i && forall j :: 0 <= j < i ==> out[j] == keys[j].value.env
      {
        out := out + [keys[i].value.env];
      }
    }

    method ReadObjects() returns (envs: seq<Envelope>)
      requires Valid()
      ensures envs == durable
    {
      var found := ListObjects();
      SortedListing(crypto, store, durable, found);
      var out := GetEach(SortByKey(found));
      assert out == durable;
      envs := OrderByChain(crypto, out);
      ChainIsRestored(crypto, durable, out, envs);
    }

    method ReadAll() returns (r: Result<seq<Envelope>, Failure>)
      requires Valid()
      ensures r == LogMachine.ReadAll(hasStore, State())
    {
      if hasStore {
        var fromObjects := ReadObjects();
        if fromObjects != [] {
          return Ok(fromObjects);
        }
      }
      return ReadLocal(local);
    }

    method HydrateUnlocked(fault: Fault) returns (failed: Option<Failure>)
      requires Valid()
      modifies this`local
      ensures Valid()
      ensures Hydrate(hasStore, old(State()), fault) == Stage(State(), failed)
    {
      HydrateKeepsInv(crypto, hasStore, State(), fault);
      if !hasStore || local.Some? {
        return None;
      }
      if fault.HydrateReadFails? {
        return Some(HydrateFailure);
      }
      var envs := ReadObjects();
      if envs == [] {
        return None;
      }
      if fault.HydrateWriteFails? {
        local := Some(PartialRebuild(envs, fault.kept, fault.torn));
        return Some(HydrateFailure);
      }
      local := Some(FileOf(envs));
      return None;
    }

    method TipUnlocked() returns (r: Result<(Hash, nat), Failure>)
      requires Valid()
      ensures r == match LogMachine.ReadAll(hasStore, State())
                   case Err(f) => Err(f)
                   case Ok(envs) => Ok((TipHash(crypto, envs), |envs|))
    {
      var envs := ReadAll();
      match envs
      case Err(f) => r := Err(f);
      case Ok(rows) =>
        r := Ok((if rows == [] then GENESIS_HASH else ChainHash(crypto, rows[|rows| - 1]), |rows|));
    }

    /** `put_envelope`: the envelope object, then `tip.json`. */
    method PutEnvelope(env: Envelope, seqNo: nat, fault: Fault) returns (failed: Option<Failure>)
      requires Valid() && seqNo == |durable| && IsUuid(env.body.agentActionId)
      modifies this`store, this`durable
      ensures Stored(crypto, store, durable)
      ensures durable == if fault.PutLost? then old(durable) else old(durable) + [env]
      ensures failed.Some? <==> fault.PutLost? || fault.PutUnacknowledged? || fault.TipPutFails?
      ensures failed.Some? ==> failed.value == PutFailure
      ensures failed.None? ==> TIP_KEY in store && store[TIP_KEY] == TipObject(Tip(ChainHash(crypto, env), |durable|))
    {
      if fault.PutLost? {
        return Some(PutFailure);
      }
      PutKeepsStored(crypto, store, durable, env);
      store := store[KeyText(seqNo, env.body.agentActionId) := EnvelopeObject(env)];
      durable := durable + [env];
      if fault.PutUnacknowledged? || fault.TipPutFails? {
        return Some(PutFailure);
      }
      assert forall i :: 0 <= i < |durable| ==> StoredAt(store, durable, i);
      ghost var before := store;
      store := store[TIP_KEY := TipObject(Tip(ChainHash(crypto, env), seqNo + 1))];
      forall i | 0 <= i < |durable| ensures StoredAt(store, durable, i) {
        assert StoredAt(before, durable, i);
        KeyPassesFilter(i, durable[i].body.agentActionId);
      }
      return None;
    }

    /** `write_line`: the durable write first, then the local file. */
    method WriteLine(env: Envelope, seqNo: nat, fault: Fault) returns (failed: Option<Failure>)
      requires Valid() && IsUuid(env.body.agentActionId)
      requires hasStore ==> seqNo == |durable|
      modifies this`store, this`durable, this`local
      ensures Stored(crypto, store, durable)
      ensures LogMachine.WriteLine(hasStore, old(State()), env, fault)
           == Appended(State(), if failed.None? then Ok(env) else Err(failed.value))
    {
      if hasStore {
        var put := PutEnvelope(env, seqNo, fault);
        if put.Some? {
          return put;
        }
      }
      if fault.LocalOpenFails? {
        return Some(LocalFailure);
      }
      var file := Opened(local);
      if fault.LocalWriteFails? {
        local := Some(AppendTorn(file, env, fault.torn));
        return Some(LocalFailure);
      }
      local := Some(AppendLine(file, env));
      if fault.LocalSyncFails? {
        return Some(LocalFailure);
      }
      return None;
    }

    /** `sign_and_append`, under the lock. */
    method SignAndAppend(body: Body, fault: Fault) returns (r: Result<Envelope, Failure>)
      requires Valid() && IsUuid(body.agentActionId)
      requires |durable| + 1 < USIZE_LIMIT
      modifies this
      ensures Valid()
      ensures LogMachine.SignAndAppend(crypto, hasStore, old(State()), body, fault) == Appended(State(), r)
    {
      if hasStore {
        StoreAppendKeepsInv(crypto, State(), body, fault);
      } else {
        LocalAppendKeepsInv(crypto, State(), body, fault);
      }
      var hydration := HydrateUnlocked(fault);
      if hydration.Some? {
        return Err(hydration.value);
      }
      if fault.TipReadFails? {
        return Err(TipFailure);
      }
      var tip := TipUnlocked();
      if tip.Err? {
        return Err(tip.error);
      }
      var envelope := Sign(crypto, body.(prevHash := tip.value.0));
      var written := WriteLine(envelope, tip.value.1, fault);
      return if written.None? then Ok(envelope) else Err(written.value);
    }

    /**
     `append`, under the lock: the caller has linked and signed the row. Only if that was done as
     `sign_and_append` does it is the log still a chain afterwards.
     */
    method Append(envelope: Envelope, fault: Fault) returns (failed: Option<Failure>)
      requires Valid() && IsUuid(envelope.body.agentActionId)
      requires |durable| + 1 < USIZE_LIMIT
      modifies this
      ensures Stored(crypto, store, durable)
      ensures LogMachine.Append(hasStore, old(State()), envelope, fault)
           == Appended(State(), if failed.None? then Ok(envelope) else Err(failed.value))
      ensures envelope == Sign(crypto, envelope.body) && old(LinksToTip(envelope)) ==> Valid()
    {
      ghost var before := State();
      if envelope == Sign(crypto, envelope.body) && LinksToTip(envelope) {
        LogHistory.ProperAppend(crypto, hasStore, before, envelope, fault);
        if hasStore {
          StoreAppendKeepsInv(crypto, before, envelope.body, fault);
        } else {
          LocalAppendKeepsInv(crypto, before, envelope.body, fault);
        }
      }
      var hydration := HydrateUnlocked(fault);
      if hydration.Some? {
        return hydration;
      }
      if fault.TipReadFails? {
        return Some(TipFailure);
      }
      var tip := TipUnlocked();
      if tip.Err? {
        return Some(tip.error);
      }
      failed := WriteLine(envelope, tip.value.1, fault);
    }
  }
}
