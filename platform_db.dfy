/** The platform index store (`Platform::PlatformDb`): typed write, erase and read
    for the four record families over one ordered key-value space, full scans that
    log and skip bad records and check the store's status once at the end, and a
    probe that asks whether any token record exists. */
module Platform {
  import opened Common
  import opened PlatformKeys
  import opened KeyOrder
  import opened PlatformRecords

  /** A stored value, as the reader decodes it. `Corrupt` is a value that decodes
      as none of the record types. */
  datatype StoredValue =
    | NftValue(nft: NfTokenDiskIndex)
    | ProtoValue(proto: NftProtoDiskIndex)
    | CountValue(count: U32)
    | Corrupt

  type Store = map<Bytes, StoredValue>

  /** An answer, or the store's error raised by `HandleError` on a bad iterator status. */
  datatype StoreResult<+T> = Done(value: T) | StoreFailure

  /** The store's iterator: healthy, or failing once it has yielded `count` entries;
      from then on it is no longer valid and its status reports the error. */
  datatype IteratorHealth = Healthy | FailsAfter(count: nat)

  /** The keys of the store in the order a full scan visits them. */
  ghost function ScanOrder(store: Store): (keys: seq<Bytes>)
    ensures forall k | k in keys :: k in store
  {
    AscendingSpec(store.Keys);
    Ascending(store.Keys)
  }

  /** The keys, in visiting order, that a scan reaches before the iterator stops being valid. */
  function Reached(keys: seq<Bytes>, it: IteratorHealth): (r: seq<Bytes>)
    ensures |r| <= |keys| && r == keys[..|r|]
    ensures it.Healthy? || it.count >= |keys| ==> r == keys
    ensures it.FailsAfter? && it.count < |keys| ==> |r| == it.count
  {
    if it.FailsAfter? && it.count < |keys| then keys[..it.count] else keys
  }

  /** What happens to one scanned entry. */
  datatype EntryResult<+R> =
    | OtherFamily           // key of another family: nothing happens
    | DecodeFailed          // the value (or key) cannot be read as a record
    | NotBuilt              // the rebuilt record is null
    | Rejected(record: R)   // the handler was called and returned false
    | Handled(record: R)    // the handler was called and returned true
    | Aborted(violation: Violation)  // an assertion stopped the process
  {
    /** The boolean the per-entry function returns (meaningless for `Aborted`). */
    predicate Returned() {
      OtherFamily? || Handled?
    }

    predicate CallsHandler() {
      Rejected? || Handled?
    }

    /** The entry is logged by the scan and skipped. */
    predicate Skipped() {
      DecodeFailed? || NotBuilt? || Rejected?
    }
  }

  /** A token entry whose value decodes and rebuilds into a non-null record. */
  predicate BuildsNftRecord(key: Bytes, value: StoredValue, chain: ChainView) {
    && StartsWith(key, DB_NFT)
    && value.NftValue?
    && var r := NftDiskIndexToNftMemIndex(value.nft, chain);
       r.Ok? && !r.value.IsNull()
  }

  /** A protocol entry whose value decodes and rebuilds into a non-null record. */
  predicate BuildsProtoRecord(key: Bytes, value: StoredValue, chain: ChainView) {
    && StartsWith(key, DB_NFT_PROTO)
    && value.ProtoValue?
    && var r := NftProtoDiskIndexToNftProtoMemIndex(value.proto, chain);
       r.Ok? && !r.value.IsNull()
  }

  /** `ProcessNftIndex`: token entries are decoded, rebuilt and handed to the handler. */
  function ProcessNftIndex(key: Bytes, value: StoredValue, chain: ChainView, nftIndexHandler: NfTokenIndex -> bool)
    : (e: EntryResult<NfTokenIndex>)
  {
    if !StartsWith(key, DB_NFT) then OtherFamily
    else
      match value
      case NftValue(disk) =>
        (match NftDiskIndexToNftMemIndex(disk, chain)
         case Abort(v) => Aborted(v)
         case Ok(index) =>
           if index.IsNull() then NotBuilt
           else if nftIndexHandler(index) then Handled(index)
           else Rejected(index))
      case _ => DecodeFailed
  }

  /** What one entry of the token scan does. */
  lemma ProcessNftIndexSpec(key: Bytes, value: StoredValue, chain: ChainView, nftIndexHandler: NfTokenIndex -> bool)
    ensures var e := ProcessNftIndex(key, value, chain, nftIndexHandler);
            e == OtherFamily <==> !StartsWith(key, DB_NFT)
    ensures var e := ProcessNftIndex(key, value, chain, nftIndexHandler);
            e.CallsHandler() <==> BuildsNftRecord(key, value, chain)
    ensures var e := ProcessNftIndex(key, value, chain, nftIndexHandler);
            e.NotBuilt? <==>
                StartsWith(key, DB_NFT) && value.NftValue? && NftDiskIndexToNftMemIndex(value.nft, chain) == Ok(NullNfTokenIndex())
    ensures var e := ProcessNftIndex(key, value, chain, nftIndexHandler);
            StartsWith(key, DB_NFT) && !value.NftValue? ==> e == DecodeFailed
    ensures var e := ProcessNftIndex(key, value, chain, nftIndexHandler);
            e.Aborted? <==>
                StartsWith(key, DB_NFT) && value.NftValue? && NftFallbackViolates(value.nft, chain)
    ensures var e := ProcessNftIndex(key, value, chain, nftIndexHandler);
            e.CallsHandler() ==>
                && value.NftValue?
                && NftDiskIndexToNftMemIndex(value.nft, chain) == Ok(e.record)
                && !e.record.IsNull()
                && (e.Handled? <==> nftIndexHandler(e.record))
    ensures var e := ProcessNftIndex(key, value, chain, nftIndexHandler);
            e.Returned() <==>
                || !StartsWith(key, DB_NFT)
                || (&& value.NftValue?
                    && var r := NftDiskIndexToNftMemIndex(value.nft, chain);
                       r.Ok? && !r.value.IsNull() && nftIndexHandler(r.value))
  {
  }

  /** `ProcessNftProtoIndex`: protocol entries are decoded, rebuilt and handed to the handler. */
  function ProcessNftProtoIndex(key: Bytes, value: StoredValue, chain: ChainView, protoIndexHandler: NftProtoIndex -> bool)
    : (e: EntryResult<NftProtoIndex>)
  {
    if !StartsWith(key, DB_NFT_PROTO) then OtherFamily
    else
      match value
      case ProtoValue(disk) =>
        (match NftProtoDiskIndexToNftProtoMemIndex(disk, chain)
         case Abort(v) => Aborted(v)
         case Ok(index) =>
           if index.IsNull() then NotBuilt
           else if protoIndexHandler(index) then Handled(index)
           else Rejected(index))
      case _ => DecodeFailed
  }

  /** What one entry of the protocol scan does. */
  lemma ProcessNftProtoIndexSpec(key: Bytes, value: StoredValue, chain: ChainView, protoIndexHandler: NftProtoIndex -> bool)
    ensures var e := ProcessNftProtoIndex(key, value, chain, protoIndexHandler);
            e == OtherFamily <==> !StartsWith(key, DB_NFT_PROTO)
    ensures var e := ProcessNftProtoIndex(key, value, chain, protoIndexHandler);
            e.CallsHandler() <==> BuildsProtoRecord(key, value, chain)
    ensures var e := ProcessNftProtoIndex(key, value, chain, protoIndexHandler);
            e.NotBuilt? <==>
                StartsWith(key, DB_NFT_PROTO) && value.ProtoValue? &&
                NftProtoDiskIndexToNftProtoMemIndex(value.proto, chain) == Ok(NullNftProtoIndex())
    ensures var e := ProcessNftProtoIndex(key, value, chain, protoIndexHandler);
            StartsWith(key, DB_NFT_PROTO) && !value.ProtoValue? ==> e == DecodeFailed
    ensures var e := ProcessNftProtoIndex(key, value, chain, protoIndexHandler);
            e.Aborted? <==>
                StartsWith(key, DB_NFT_PROTO) && value.ProtoValue? && ProtoFallbackViolates(value.proto, chain)
    ensures var e := ProcessNftProtoIndex(key, value, chain, protoIndexHandler);
            e.CallsHandler() ==>
                && value.ProtoValue?
                && NftProtoDiskIndexToNftProtoMemIndex(value.proto, chain) == Ok(e.record)
                && !e.record.IsNull()
                && (e.Handled? <==> protoIndexHandler(e.record))
    ensures var e := ProcessNftProtoIndex(key, value, chain, protoIndexHandler);
            e.Returned() <==>
                || !StartsWith(key, DB_NFT_PROTO)
                || (&& value.ProtoValue?
                    && var r := NftProtoDiskIndexToNftProtoMemIndex(value.proto, chain);
                       r.Ok? && !r.value.IsNull() && protoIndexHandler(r.value))
  {
  }

  /** `ProcessNftSupply`: supply entries have their protocol id read from the key and
      their count from the value, and both go to the handler. */
  function ProcessNftSupply(key: Bytes, value: StoredValue, protoSupplyHandler: (U64, U32) -> bool)
    : (e: EntryResult<(U64, U32)>)
    ensures e == OtherFamily <==> !StartsWith(key, DB_NFT_TOTAL)
    ensures e.CallsHandler() <==> StartsWith(key, DB_NFT_TOTAL) && DecodeSupplyKey(key).Some? && value.CountValue?
    ensures e.DecodeFailed? <==> StartsWith(key, DB_NFT_TOTAL) && (DecodeSupplyKey(key).None? || !value.CountValue?)
    ensures !e.NotBuilt? && !e.Aborted?
    ensures e.CallsHandler() ==>
              && DecodeSupplyKey(key) == Some(e.record.0)
              && value == CountValue(e.record.1)
              && (e.Handled? <==> protoSupplyHandler(e.record.0, e.record.1))
    ensures e.Returned() <==>
              || !StartsWith(key, DB_NFT_TOTAL)
              || (&& DecodeSupplyKey(key).Some? && value.CountValue?
                  && protoSupplyHandler(DecodeSupplyKey(key).value, value.count))
  {
    if !StartsWith(key, DB_NFT_TOTAL) then OtherFamily
    else
      match DecodeSupplyKey(key)
      case None => DecodeFailed
      case Some(protocolId) =>
        match value
        case CountValue(count) =>
          if protoSupplyHandler(protocolId, count) then Handled((protocolId, count))
          else Rejected((protocolId, count))
        case _ => DecodeFailed
  }

  /** A supply counter written for a protocol is seen by a supply scan with that
      protocol's id and count. */
  lemma SupplyEntryRoundTrip(protocolId: U64, count: U32, protoSupplyHandler: (U64, U32) -> bool)
    ensures ProcessNftSupply(EncodeKey(SupplyKey(protocolId)), CountValue(count), protoSupplyHandler) ==
              if protoSupplyHandler(protocolId, count) then Handled((protocolId, count))
              else Rejected((protocolId, count))
  {
    SupplyKeyRoundTrip(protocolId, []);
    assert EncodeKey(SupplyKey(protocolId)) + [] == EncodeKey(SupplyKey(protocolId));
  }

  /** What a scan has done so far: the records handed to the handler, the keys
      logged and skipped, and the assertion that stopped it, if any. */
  datatype ScanTrace<+R> = ScanTrace(delivered: seq<R>, skipped: seq<Bytes>, abort: Option<Violation>)

  /** A finished scan: its trace, and whether the status check after the loop raised
      the store's error. */
  datatype ScanOutcome<+R> = ScanOutcome(trace: ScanTrace<R>, storeError: bool)

  /** One step of a scan loop: an aborted scan does nothing more. */
  function Step<R>(t: ScanTrace<R>, key: Bytes, e: EntryResult<R>): ScanTrace<R> {
    if t.abort.Some? then t
    else
      match e
      case OtherFamily => t
      case DecodeFailed => t.(skipped := t.skipped + [key])
      case NotBuilt => t.(skipped := t.skipped + [key])
      case Rejected(r) => t.(delivered := t.delivered + [r], skipped := t.skipped + [key])
      case Handled(r) => t.(delivered := t.delivered + [r])
      case Aborted(v) => t.(abort := Some(v))
  }

  /** The trace of a scan over the given per-entry results, in visiting order. */
  function Replay<R>(rs: seq<(Bytes, EntryResult<R>)>): ScanTrace<R>
    decreases |rs|
  {
    if rs == [] then ScanTrace([], [], None)
    else Step(Replay(rs[..|rs| - 1]), rs[|rs| - 1].0, rs[|rs| - 1].1)
  }

  /** The records of the entries that reach the handler, in visiting order. */
  function HandlerRecords<R>(rs: seq<(Bytes, EntryResult<R>)>): seq<R>
    decreases |rs|
  {
    if rs == [] then []
    else (if rs[0].1.CallsHandler() then [rs[0].1.record] else []) + HandlerRecords(rs[1..])
  }

  /** The keys of the entries that are logged and skipped, in visiting order. */
  function SkippedKeys<R>(rs: seq<(Bytes, EntryResult<R>)>): seq<Bytes>
    decreases |rs|
  {
    if rs == [] then []
    else (if rs[0].1.Skipped() then [rs[0].0] else []) + SkippedKeys(rs[1..])
  }

  lemma {:induction false} FiltersSnoc<R>(rs: seq<(Bytes, EntryResult<R>)>, key: Bytes, e: EntryResult<R>)
    ensures HandlerRecords(rs + [(key, e)]) == HandlerRecords(rs) + (if e.CallsHandler() then [e.record] else [])
    ensures SkippedKeys(rs + [(key, e)]) == SkippedKeys(rs) + (if e.Skipped() then [key] else [])
    decreases |rs|
  {
    if rs != [] {
      assert (rs + [(key, e)])[1..] == rs[1..] + [(key, e)];
      FiltersSnoc(rs[1..], key, e);
    }
  }

  lemma {:induction false} SkippedKeysMembers<R>(rs: seq<(Bytes, EntryResult<R>)>, k: Bytes)
    ensures k in SkippedKeys(rs) <==> exists i | 0 <= i < |rs| :: rs[i].0 == k && rs[i].1.Skipped()
    decreases |rs|
  {
    if rs != [] {
      SkippedKeysMembers(rs[1..], k);
      if exists i | 0 <= i < |rs[1..]| :: rs[1..][i].0 == k && rs[1..][i].1.Skipped() {
        var i :| 0 <= i < |rs[1..]| && rs[1..][i].0 == k && rs[1..][i].1.Skipped();
        assert rs[i + 1] == rs[1..][i];
      }
      if exists i | 0 <= i < |rs| :: rs[i].0 == k && rs[i].1.Skipped() {
        var i :| 0 <= i < |rs| && rs[i].0 == k && rs[i].1.Skipped();
        if i > 0 {
          assert rs[1..][i - 1] == rs[i];
        }
      }
    }
  }

  lemma {:induction false} HandlerRecordsMembers<R>(rs: seq<(Bytes, EntryResult<R>)>, r: R)
    ensures r in HandlerRecords(rs) <==> exists i | 0 <= i < |rs| :: rs[i].1.CallsHandler() && rs[i].1.record == r
    decreases |rs|
  {
    if rs != [] {
      HandlerRecordsMembers(rs[1..], r);
      if exists i | 0 <= i < |rs[1..]| :: rs[1..][i].1.CallsHandler() && rs[1..][i].1.record == r {
        var i :| 0 <= i < |rs[1..]| && rs[1..][i].1.CallsHandler() && rs[1..][i].1.record == r;
        assert rs[i + 1] == rs[1..][i];
      }
      if exists i | 0 <= i < |rs| :: rs[i].1.CallsHandler() && rs[i].1.record == r {
        var i :| 0 <= i < |rs| && rs[i].1.CallsHandler() && rs[i].1.record == r;
        if i > 0 {
          assert rs[1..][i - 1] == rs[i];
        }
      }
    }
  }

  lemma ReplaySnoc<R>(rs: seq<(Bytes, EntryResult<R>)>, key: Bytes, e: EntryResult<R>)
    ensures Replay(rs + [(key, e)]) == Step(Replay(rs), key, e)
  {
    assert (rs + [(key, e)])[..|rs|] == rs;
  }

  /** Failure isolation: unless an assertion fires, a scan never stops early; the
      handler gets the record of every entry that rebuilds, in visiting order, and
      exactly the entries that fail to decode, to rebuild or to be handled are logged
      and skipped, in visiting order. */
  lemma {:induction false} ScanIsolation<R>(rs: seq<(Bytes, EntryResult<R>)>)
    requires forall i | 0 <= i < |rs| :: !rs[i].1.Aborted?
    ensures Replay(rs).abort.None?
    ensures Replay(rs).delivered == HandlerRecords(rs)
    ensures Replay(rs).skipped == SkippedKeys(rs)
    ensures forall k :: k in Replay(rs).skipped <==> exists i | 0 <= i < |rs| :: rs[i].0 == k && rs[i].1.Skipped()
    ensures forall r :: r in Replay(rs).delivered <==>
              exists i | 0 <= i < |rs| :: rs[i].1.CallsHandler() && rs[i].1.record == r
    decreases |rs|
  {
    if rs != [] {
      var n := |rs| - 1;
      ScanIsolation(rs[..n]);
      assert rs == rs[..n] + [rs[n]];
      FiltersSnoc(rs[..n], rs[n].0, rs[n].1);
    }
    forall k
      ensures k in Replay(rs).skipped <==> exists i | 0 <= i < |rs| :: rs[i].0 == k && rs[i].1.Skipped()
    {
      SkippedKeysMembers(rs, k);
    }
    forall r
      ensures r in Replay(rs).delivered <==> exists i | 0 <= i < |rs| :: rs[i].1.CallsHandler() && rs[i].1.record == r
    {
      HandlerRecordsMembers(rs, r);
    }
  }

  /** Once an assertion fires, nothing after it changes the trace. */
  lemma {:induction false} AbortIsFinal<R>(rs: seq<(Bytes, EntryResult<R>)>, more: seq<(Bytes, EntryResult<R>)>)
    requires Replay(rs).abort.Some?
    ensures Replay(rs + more) == Replay(rs)
    decreases |more|
  {
    if more != [] {
      var n := |more| - 1;
      var all := rs + more;
      assert all[..|all| - 1] == rs + more[..n];
      AbortIsFinal(rs, more[..n]);
      assert Replay(all) == Step(Replay(rs + more[..n]), all[|all| - 1].0, all[|all| - 1].1);
    } else {
      assert rs + more == rs;
    }
  }

  /** The per-entry results of a token scan over `keys`. */
  function NftResults(keys: seq<Bytes>, store: Store, chain: ChainView, handler: NfTokenIndex -> bool)
    : seq<(Bytes, EntryResult<NfTokenIndex>)>
    requires forall k | k in keys :: k in store
    decreases |keys|
  {
    if keys == [] then []
    else
      var key := keys[|keys| - 1];
      NftResults(keys[..|keys| - 1], store, chain, handler) + [(key, ProcessNftIndex(key, store[key], chain, handler))]
  }

  lemma {:induction false} NftResultsAppend(a: seq<Bytes>, b: seq<Bytes>, store: Store, chain: ChainView, handler: NfTokenIndex -> bool)
    requires forall k | k in a + b :: k in store
    ensures NftResults(a + b, store, chain, handler) == NftResults(a, store, chain, handler) + NftResults(b, store, chain, handler)
    decreases |b|
  {
    if b != [] {
      var n := |b| - 1;
      var all := a + b;
      assert all[..|all| - 1] == a + b[..n];
      assert all[|all| - 1] == b[n];
      assert forall k | k in b[..n] :: k in b;
      NftResultsAppend(a, b[..n], store, chain, handler);
    } else {
      assert a + b == a;
    }
  }

  /** The per-entry results of a protocol scan over `keys`. */
  function ProtoResults(keys: seq<Bytes>, store: Store, chain: ChainView, handler: NftProtoIndex -> bool)
    : seq<(Bytes, EntryResult<NftProtoIndex>)>
    requires forall k | k in keys :: k in store
    decreases |keys|
  {
    if keys == [] then []
    else
      var key := keys[|keys| - 1];
      ProtoResults(keys[..|keys| - 1], store, chain, handler) + [(key, ProcessNftProtoIndex(key, store[key], chain, handler))]
  }

  lemma {:induction false} ProtoResultsAppend(a: seq<Bytes>, b: seq<Bytes>, store: Store, chain: ChainView, handler: NftProtoIndex -> bool)
    requires forall k | k in a + b :: k in store
    ensures ProtoResults(a + b, store, chain, handler) == ProtoResults(a, store, chain, handler) + ProtoResults(b, store, chain, handler)
    decreases |b|
  {
    if b != [] {
      var n := |b| - 1;
      var all := a + b;
      assert all[..|all| - 1] == a + b[..n];
      assert all[|all| - 1] == b[n];
      assert forall k | k in b[..n] :: k in b;
      ProtoResultsAppend(a, b[..n], store, chain, handler);
    } else {
      assert a + b == a;
    }
  }

  /** The number of token entries among `keys` that decode and rebuild into a non-null record. */
  function BuiltNftCount(keys: seq<Bytes>, store: Store, chain: ChainView): nat
    requires forall k | k in keys :: k in store
    decreases |keys|
  {
    if keys == [] then 0
    else
      var key := keys[|keys| - 1];
      BuiltNftCount(keys[..|keys| - 1], store, chain) + (if BuildsNftRecord(key, store[key], chain) then 1 else 0)
  }

  /** Failure isolation for token scans: when no token entry trips an assertion, the
      scan runs to the end and hands exactly one record to the handler per token entry
      that rebuilds, whatever the other entries hold. */
  lemma {:induction false} NftScanRunsHandlerPerBuiltRecord(keys: seq<Bytes>, store: Store, chain: ChainView, handler: NfTokenIndex -> bool)
    requires forall k | k in keys :: k in store
    requires forall k | k in keys :: !(StartsWith(k, DB_NFT) && store[k].NftValue? && NftFallbackViolates(store[k].nft, chain))
    ensures Replay(NftResults(keys, store, chain, handler)).abort.None?
    ensures |Replay(NftResults(keys, store, chain, handler)).delivered| == BuiltNftCount(keys, store, chain)
    decreases |keys|
  {
    if keys != [] {
      var n := |keys| - 1;
      var key := keys[n];
      assert forall k | k in keys[..n] :: k in keys;
      NftScanRunsHandlerPerBuiltRecord(keys[..n], store, chain, handler);
      ProcessNftIndexSpec(key, store[key], chain, handler);
      ReplaySnoc(NftResults(keys[..n], store, chain, handler), key, ProcessNftIndex(key, store[key], chain, handler));
    }
  }

  /** The number of protocol entries among `keys` that decode and rebuild into a non-null record. */
  function BuiltProtoCount(keys: seq<Bytes>, store: Store, chain: ChainView): nat
    requires forall k | k in keys :: k in store
    decreases |keys|
  {
    if keys == [] then 0
    else
      var key := keys[|keys| - 1];
      BuiltProtoCount(keys[..|keys| - 1], store, chain) + (if BuildsProtoRecord(key, store[key], chain) then 1 else 0)
  }

  /** Failure isolation for protocol scans: exactly one handler call per protocol
      entry that rebuilds, unless an assertion fires. */
  lemma {:induction false} ProtoScanRunsHandlerPerBuiltRecord(keys: seq<Bytes>, store: Store, chain: ChainView, handler: NftProtoIndex -> bool)
    requires forall k | k in keys :: k in store
    requires forall k | k in keys :: !(StartsWith(k, DB_NFT_PROTO) && store[k].ProtoValue? && ProtoFallbackViolates(store[k].proto, chain))
    ensures Replay(ProtoResults(keys, store, chain, handler)).abort.None?
    ensures |Replay(ProtoResults(keys, store, chain, handler)).delivered| == BuiltProtoCount(keys, store, chain)
    decreases |keys|
  {
    if keys != [] {
      var n := |keys| - 1;
      var key := keys[n];
      assert forall k | k in keys[..n] :: k in keys;
      ProtoScanRunsHandlerPerBuiltRecord(keys[..n], store, chain, handler);
      ProcessNftProtoIndexSpec(key, store[key], chain, handler);
      ReplaySnoc(ProtoResults(keys[..n], store, chain, handler), key, ProcessNftProtoIndex(key, store[key], chain, handler));
    }
  }

  /** The keys a generic scan logs: those its processor returns false for, in visiting order. */
  function Unprocessed(keys: seq<Bytes>, store: Store, processor: (Bytes, StoredValue) -> bool): seq<Bytes>
    requires forall k | k in keys :: k in store
    decreases |keys|
  {
    if keys == [] then []
    else
      var key := keys[|keys| - 1];
      Unprocessed(keys[..|keys| - 1], store, processor) + (if processor(key, store[key]) then [] else [key])
  }

  /** A generic scan logs exactly the keys its processor fails on, and only those. */
  lemma {:induction false} UnprocessedSpec(keys: seq<Bytes>, store: Store, processor: (Bytes, StoredValue) -> bool)
    requires forall k | k in keys :: k in store
    ensures forall k :: k in Unprocessed(keys, store, processor) <==> k in keys && !processor(k, store[k])
    decreases |keys|
  {
    if keys != [] {
      var n := |keys| - 1;
      UnprocessedSpec(keys[..n], store, processor);
      assert keys == keys[..n] + [keys[n]];
    }
  }

  /** Some key of the store carries the token tag. */
  predicate HasNftKey(store: Store) {
    exists k | k in store :: StartsWith(k, DB_NFT)
  }

  /** The store after a sequence of typed writes, applied in order. */
  function ApplyWrites(store: Store, writes: seq<(PlatformKey, StoredValue)>): Store
    decreases |writes|
  {
    if writes == [] then store
    else ApplyWrites(store[EncodeKey(writes[0].0) := writes[0].1], writes[1..])
  }

  /** Writes of protocol, supply and protocol-count records, in any number and any
      order, never change whether the token family is empty. */
  lemma {:induction false} OtherFamiliesKeepNftIndexEmpty(store: Store, writes: seq<(PlatformKey, StoredValue)>)
    requires forall i | 0 <= i < |writes| :: !writes[i].0.NftKey?
    ensures HasNftKey(ApplyWrites(store, writes)) == HasNftKey(store)
    decreases |writes|
  {
    if writes != [] {
      var key := EncodeKey(writes[0].0);
      TagDecidesFamily(writes[0].0, writes[0].0);
      var next := store[key := writes[0].1];
      assert HasNftKey(next) == HasNftKey(store) by {
        if HasNftKey(next) {
          var k :| k in next && StartsWith(k, DB_NFT);
          assert k != key && k in store;
        }
      }
      OtherFamiliesKeepNftIndexEmpty(next, writes[1..]);
    }
  }

  lemma NftScanStep(visited: seq<Bytes>, key: Bytes, store: Store, chain: ChainView, handler: NfTokenIndex -> bool)
    requires forall k | k in visited :: k in store
    requires key in store
    ensures Replay(NftResults(visited + [key], store, chain, handler)) ==
              Step(Replay(NftResults(visited, store, chain, handler)), key, ProcessNftIndex(key, store[key], chain, handler))
  {
    assert (visited + [key])[..|visited|] == visited;
    ReplaySnoc(NftResults(visited, store, chain, handler), key, ProcessNftIndex(key, store[key], chain, handler));
  }

  lemma NftScanStops(visited: seq<Bytes>, rest: seq<Bytes>, store: Store, chain: ChainView, handler: NfTokenIndex -> bool)
    requires forall k | k in visited + rest :: k in store
    requires Replay(NftResults(visited, store, chain, handler)).abort.Some?
    ensures Replay(NftResults(visited + rest, store, chain, handler)) == Replay(NftResults(visited, store, chain, handler))
  {
    NftResultsAppend(visited, rest, store, chain, handler);
    AbortIsFinal(NftResults(visited, store, chain, handler), NftResults(rest, store, chain, handler));
  }

  lemma ProtoScanStep(visited: seq<Bytes>, key: Bytes, store: Store, chain: ChainView, handler: NftProtoIndex -> bool)
    requires forall k | k in visited :: k in store
    requires key in store
    ensures Replay(ProtoResults(visited + [key], store, chain, handler)) ==
              Step(Replay(ProtoResults(visited, store, chain, handler)), key, ProcessNftProtoIndex(key, store[key], chain, handler))
  {
    assert (visited + [key])[..|visited|] == visited;
    ReplaySnoc(ProtoResults(visited, store, chain, handler), key, ProcessNftProtoIndex(key, store[key], chain, handler));
  }

  lemma ProtoScanStops(visited: seq<Bytes>, rest: seq<Bytes>, store: Store, chain: ChainView, handler: NftProtoIndex -> bool)
    requires forall k | k in visited + rest :: k in store
    requires Replay(ProtoResults(visited, store, chain, handler)).abort.Some?
    ensures Replay(ProtoResults(visited + rest, store, chain, handler)) == Replay(ProtoResults(visited, store, chain, handler))
  {
    ProtoResultsAppend(visited, rest, store, chain, handler);
    AbortIsFinal(ProtoResults(visited, store, chain, handler), ProtoResults(rest, store, chain, handler));
  }

  lemma UnprocessedSnoc(visited: seq<Bytes>, key: Bytes, store: Store, processor: (Bytes, StoredValue) -> bool)
    requires forall k | k in visited :: k in store
    requires key in store
    ensures Unprocessed(visited + [key], store, processor) ==
              Unprocessed(visited, store, processor) + (if processor(key, store[key]) then [] else [key])
  {
    assert (visited + [key])[..|visited|] == visited;
  }

  /** Scans visit keys in byte order, which is not the numeric order of the key's
      fields: protocol 256 is visited before protocol 1. */
  lemma ScanOrderIsByteOrder()
    ensures Below(EncodeKey(ProtoKey(256)), EncodeKey(ProtoKey(1)))
  {
    var a, b := EncodeKey(ProtoKey(256)), EncodeKey(ProtoKey(1));
    assert a[1] == 0 && b[1] == 1;
    assert a[1..][0] == 0 && b[1..][0] == 1;
  }

  /** One step of a scan loop: moving past the least key still ahead keeps the visited
      keys, followed by the keys still ahead, in the order a full scan visits them. */
  lemma ScanAdvance(store: Store, visited: seq<Bytes>, remaining: set<Bytes>, key: Bytes)
    requires remaining <= store.Keys
    requires forall k | k in visited :: k in store
    requires visited + Ascending(remaining) == ScanOrder(store)
    requires remaining != {} && key == Least(remaining)
    ensures key in store && remaining - {key} <= store.Keys
    ensures forall k | k in visited + [key] :: k in store
    ensures (visited + [key]) + Ascending(remaining - {key}) == ScanOrder(store)
  {
    AscendingStep(visited, remaining, key);
  }

  /** Where a scan loop stands: the keys visited so far are a prefix of the keys
      reached, and all of them once the keys run out or the iterator fails. */
  lemma ReachedSoFar(visited: seq<Bytes>, remaining: set<Bytes>, all: seq<Bytes>, it: IteratorHealth)
    requires visited + Ascending(remaining) == all
    requires it.FailsAfter? ==> |visited| <= it.count
    ensures Reached(all, it) == visited + Reached(all, it)[|visited|..]
    ensures remaining == {} || (it.FailsAfter? && |visited| == it.count) ==> Reached(all, it) == visited
  {
    var r := Reached(all, it);
    assert |visited| <= |r|;
    assert visited == all[..|visited|];
    assert r[..|visited|] == visited;
  }

  /** A full visit that meets no token-tagged key means the store holds none. */
  lemma NoTaggedKeyVisited(store: Store, visited: seq<Bytes>)
    requires visited == ScanOrder(store)
    requires forall k | k in visited :: !StartsWith(k, DB_NFT)
    ensures !HasNftKey(store)
  {
    AscendingSpec(store.Keys);
    forall k | k in store
      ensures !StartsWith(k, DB_NFT)
    {
      assert k in visited;
    }
  }

  class PlatformDb {
    /** The key-value space the index lives in. */
    var store: Store

    /** Opening the index: an in-memory or wiped store starts empty, otherwise it
        holds what was on disk. The cache size and option setting are not modelled. */
    constructor (onDisk: Store, fMemory: bool, fWipe: bool)
      ensures store == if fMemory || fWipe then map[] else onDisk
    {
      store := if fMemory || fWipe then map[] else onDisk;
    }

    /** `ProcessPlatformDbGuts`: every entry the iterator reaches, in ascending key order,
        goes to the processor; a false answer is logged and the scan goes on; the status
        is checked once, after the loop. */
    method ProcessPlatformDbGuts(processor: (Bytes, StoredValue) -> bool, it: IteratorHealth)
      returns (logged: seq<Bytes>, storeError: bool)
      ensures logged == Unprocessed(Reached(ScanOrder(store), it), store, processor)
      ensures storeError == it.FailsAfter?
    {
      var m := store;
      var remaining := m.Keys;
      ghost var visited: seq<Bytes> := [];
      var n := 0;
      logged := [];
      while remaining != {} && (it.Healthy? || n < it.count)
        invariant remaining <= m.Keys
        invariant forall k | k in visited :: k in m
        invariant visited + Ascending(remaining) == ScanOrder(m)
        invariant n == |visited| && (it.FailsAfter? ==> n <= it.count)
        invariant logged == Unprocessed(visited, m, processor)
        decreases remaining
      {
        var key := SeekLeast(remaining);
        UnprocessedSnoc(visited, key, m, processor);
        if !processor(key, m[key]) {
          logged := logged + [key];
        }
        ScanAdvance(m, visited, remaining, key);
        visited := visited + [key];
        remaining := remaining - {key};
        n := n + 1;
      }
      ReachedSoFar(visited, remaining, ScanOrder(m), it);
      storeError := it.FailsAfter?;
    }

    /** `ProcessNftIndexGutsOnly`: a scan handing every rebuilt token record the iterator
        reaches to the handler; the status is checked once, after the loop. */
    method ProcessNftIndexGutsOnly(nftIndexHandler: NfTokenIndex -> bool, chain: ChainView, it: IteratorHealth)
      returns (outcome: ScanOutcome<NfTokenIndex>)
      ensures outcome.trace == Replay(NftResults(Reached(ScanOrder(store), it), store, chain, nftIndexHandler))
      ensures outcome.storeError <==> outcome.trace.abort.None? && it.FailsAfter?
    {
      var m := store;
      var remaining := m.Keys;
      ghost var visited: seq<Bytes> := [];
      var n := 0;
      var trace := ScanTrace([], [], None);
      while remaining != {} && trace.abort.None? && (it.Healthy? || n < it.count)
        invariant remaining <= m.Keys
        invariant forall k | k in visited :: k in m
        invariant visited + Ascending(remaining) == ScanOrder(m)
        invariant n == |visited| && (it.FailsAfter? ==> n <= it.count)
        invariant trace == Replay(NftResults(visited, m, chain, nftIndexHandler))
        decreases remaining
      {
        var key := SeekLeast(remaining);
        var e := ProcessNftIndex(key, m[key], chain, nftIndexHandler);
        assert Replay(NftResults(visited + [key], m, chain, nftIndexHandler)) == Step(trace, key, e) by {
          NftScanStep(visited, key, m, chain, nftIndexHandler);
        }
        ScanAdvance(m, visited, remaining, key);
        visited := visited + [key];
        remaining := remaining - {key};
        n := n + 1;
        trace := Step(trace, key, e);
      }
      assert trace == Replay(NftResults(Reached(ScanOrder(m), it), m, chain, nftIndexHandler)) by {
        var reached := Reached(ScanOrder(m), it);
        ReachedSoFar(visited, remaining, ScanOrder(m), it);
        if trace.abort.Some? {
          NftScanStops(visited, reached[|visited|..], m, chain, nftIndexHandler);
        }
      }
      outcome := ScanOutcome(trace, trace.abort.None? && it.FailsAfter?);
    }

    /** `ProcessNftProtoIndexGutsOnly`: a scan handing every rebuilt protocol record the
        iterator reaches to the handler; the status is checked once, after the loop. */
    method ProcessNftProtoIndexGutsOnly(protoIndexHandler: NftProtoIndex -> bool, chain: ChainView, it: IteratorHealth)
      returns (outcome: ScanOutcome<NftProtoIndex>)
      ensures outcome.trace == Replay(ProtoResults(Reached(ScanOrder(store), it), store, chain, protoIndexHandler))
      ensures outcome.storeError <==> outcome.trace.abort.None? && it.FailsAfter?
    {
      var m := store;
      var remaining := m.Keys;
      ghost var visited: seq<Bytes> := [];
      var n := 0;
      var trace := ScanTrace([], [], None);
      while remaining != {} && trace.abort.None? && (it.Healthy? || n < it.count)
        invariant remaining <= m.Keys
        invariant forall k | k in visited :: k in m
        invariant visited + Ascending(remaining) == ScanOrder(m)
        invariant n == |visited| && (it.FailsAfter? ==> n <= it.count)
        invariant trace == Replay(ProtoResults(visited, m, chain, protoIndexHandler))
        decreases remaining
      {
        var key := SeekLeast(remaining);
        var e := ProcessNftProtoIndex(key, m[key], chain, protoIndexHandler);
        assert Replay(ProtoResults(visited + [key], m, chain, protoIndexHandler)) == Step(trace, key, e) by {
          ProtoScanStep(visited, key, m, chain, protoIndexHandler);
        }
        ScanAdvance(m, visited, remaining, key);
        visited := visited + [key];
        remaining := remaining - {key};
        n := n + 1;
        trace := Step(trace, key, e);
      }
      assert trace == Replay(ProtoResults(Reached(ScanOrder(m), it), m, chain, protoIndexHandler)) by {
        var reached := Reached(ScanOrder(m), it);
        ReachedSoFar(visited, remaining, ScanOrder(m), it);
        if trace.abort.Some? {
          ProtoScanStops(visited, reached[|visited|..], m, chain, protoIndexHandler);
        }
      }
      outcome := ScanOutcome(trace, trace.abort.None? && it.FailsAfter?);
    }

    /** `IsNftIndexEmpty`: false at the first token-tagged key the iterator reaches, while
        it is still valid; otherwise the status check, then true. Keys of the other
        families are passed over. */
    method IsNftIndexEmpty(it: IteratorHealth) returns (r: StoreResult<bool>)
      ensures r == if exists k | k in Reached(ScanOrder(store), it) :: StartsWith(k, DB_NFT) then Done(false)
                   else if it.FailsAfter? then StoreFailure
                   else Done(true)
      ensures it.Healthy? ==> r == Done(!HasNftKey(store))
    {
      var m := store;
      var remaining := m.Keys;
      ghost var visited: seq<Bytes> := [];
      var n := 0;
      while remaining != {} && (it.Healthy? || n < it.count)
        invariant remaining <= m.Keys
        invariant forall k | k in visited :: k in m
        invariant visited + Ascending(remaining) == ScanOrder(m)
        invariant n == |visited| && (it.FailsAfter? ==> n <= it.count)
        invariant forall k | k in visited :: !StartsWith(k, DB_NFT)
        decreases remaining
      {
        var key := SeekLeast(remaining);
        ScanAdvance(m, visited, remaining, key);
        visited := visited + [key];
        remaining := remaining - {key};
        n := n + 1;
        if StartsWith(key, DB_NFT) {
          ReachedSoFar(visited, remaining, ScanOrder(m), it);
          assert key in Reached(ScanOrder(m), it);
          return Done(false);
        }
      }
      ReachedSoFar(visited, remaining, ScanOrder(m), it);
      if it.Healthy? {
        NoTaggedKeyVisited(m, visited);
      }
      return if it.FailsAfter? then StoreFailure else Done(true);
    }

    /** `WriteNftDiskIndex`: the record is stored under its token's (protocol id,
        token id); an earlier record under the same pair is replaced. The record
        must carry its token (the source dereferences it). */
    method WriteNftDiskIndex(nftDiskIndex: NfTokenDiskIndex)
      requires nftDiskIndex.nfToken.Some?
      modifies this
      ensures var token := nftDiskIndex.nfToken.value;
              store == old(store)[EncodeKey(NftKey(token.tokenProtocolId, token.tokenId)) := NftValue(nftDiskIndex)]
      ensures var token := nftDiskIndex.nfToken.value;
              forall chain :: ReadNftIndex(token.tokenProtocolId, token.tokenId, chain) == NftDiskIndexToNftMemIndex(nftDiskIndex, chain)
    {
      var token := nftDiskIndex.nfToken.value;
      store := store[EncodeKey(NftKey(token.tokenProtocolId, token.tokenId)) := NftValue(nftDiskIndex)];
    }

    /** `EraseNftDiskIndex` */
    method EraseNftDiskIndex(protocolId: U64, tokenId: U256)
      modifies this
      ensures store == old(store) - {EncodeKey(NftKey(protocolId, tokenId))}
      ensures forall chain :: ReadNftIndex(protocolId, tokenId, chain) == Ok(NullNfTokenIndex())
    {
      store := store - {EncodeKey(NftKey(protocolId, tokenId))};
    }

    /** `ReadNftIndex`: the rebuilt record stored for (protocol id, token id); the null
        record when there is none or it cannot be read. */
    function ReadNftIndex(protocolId: U64, tokenId: U256, chain: ChainView): (r: Checked<NfTokenIndex>)
      reads this
      ensures var key := EncodeKey(NftKey(protocolId, tokenId));
              key !in store || !store[key].NftValue? ==> r == Ok(NullNfTokenIndex())
      ensures var key := EncodeKey(NftKey(protocolId, tokenId));
              key in store && store[key].NftValue? ==> r == NftDiskIndexToNftMemIndex(store[key].nft, chain)
      ensures var key := EncodeKey(NftKey(protocolId, tokenId));
              r != Ok(NullNfTokenIndex()) ==>
                && key in store && store[key].NftValue?
                && r == NftDiskIndexToNftMemIndex(store[key].nft, chain)
    {
      var key := EncodeKey(NftKey(protocolId, tokenId));
      if key in store && store[key].NftValue? then NftDiskIndexToNftMemIndex(store[key].nft, chain)
      else Ok(NullNfTokenIndex())
    }

    /** `WriteNftProtoDiskIndex`: the record is stored under its protocol's id. */
    method WriteNftProtoDiskIndex(protoDiskIndex: NftProtoDiskIndex)
      requires protoDiskIndex.nftProto.Some?
      modifies this
      ensures var protocolId := protoDiskIndex.nftProto.value.tokenProtocolId;
              store == old(store)[EncodeKey(ProtoKey(protocolId)) := ProtoValue(protoDiskIndex)]
      ensures var protocolId := protoDiskIndex.nftProto.value.tokenProtocolId;
              forall chain :: ReadNftProtoIndex(protocolId, chain) == NftProtoDiskIndexToNftProtoMemIndex(protoDiskIndex, chain)
    {
      var protocolId := protoDiskIndex.nftProto.value.tokenProtocolId;
      store := store[EncodeKey(ProtoKey(protocolId)) := ProtoValue(protoDiskIndex)];
    }

    /** `EraseNftProtoDiskIndex` */
    method EraseNftProtoDiskIndex(protocolId: U64)
      modifies this
      ensures store == old(store) - {EncodeKey(ProtoKey(protocolId))}
      ensures forall chain :: ReadNftProtoIndex(protocolId, chain) == Ok(NullNftProtoIndex())
    {
      store := store - {EncodeKey(ProtoKey(protocolId))};
    }

    /** `ReadNftProtoIndex`: the rebuilt record stored for the protocol id; the null
        record when there is none or it cannot be read. */
    function ReadNftProtoIndex(protocolId: U64, chain: ChainView): (r: Checked<NftProtoIndex>)
      reads this
      ensures var key := EncodeKey(ProtoKey(protocolId));
              key !in store || !store[key].ProtoValue? ==> r == Ok(NullNftProtoIndex())
      ensures var key := EncodeKey(ProtoKey(protocolId));
              key in store && store[key].ProtoValue? ==> r == NftProtoDiskIndexToNftProtoMemIndex(store[key].proto, chain)
      ensures var key := EncodeKey(ProtoKey(protocolId));
              r != Ok(NullNftProtoIndex()) ==>
                && key in store && store[key].ProtoValue?
                && r == NftProtoDiskIndexToNftProtoMemIndex(store[key].proto, chain)
    {
      var key := EncodeKey(ProtoKey(protocolId));
      if key in store && store[key].ProtoValue? then NftProtoDiskIndexToNftProtoMemIndex(store[key].proto, chain)
      else Ok(NullNftProtoIndex())
    }

    /** `WriteTotalSupply`: only this protocol's supply counter changes. */
    method WriteTotalSupply(count: U32, nftProtocolId: U64)
      modifies this
      ensures store == old(store)[EncodeKey(SupplyKey(nftProtocolId)) := CountValue(count)]
      ensures ReadTotalSupply(nftProtocolId) == Some(count)
      ensures forall other: U64 :: other != nftProtocolId ==> ReadTotalSupply(other) == old(ReadTotalSupply(other))
      ensures ReadTotalProtocolCount() == old(ReadTotalProtocolCount())
      ensures HasNftKey(store) == old(HasNftKey(store))
    {
      store := store[EncodeKey(SupplyKey(nftProtocolId)) := CountValue(count)];
      forall other: U64 | other != nftProtocolId
        ensures EncodeKey(SupplyKey(other)) != EncodeKey(SupplyKey(nftProtocolId))
      {
        if EncodeKey(SupplyKey(other)) == EncodeKey(SupplyKey(nftProtocolId)) {
          EncodeKeyInjective(SupplyKey(other), SupplyKey(nftProtocolId));
        }
      }
      OtherFamiliesKeepNftIndexEmpty(old(store), [(SupplyKey(nftProtocolId), CountValue(count))]);
    }

    /** `ReadTotalSupply`: the protocol's supply counter, if one is stored and readable. */
    function ReadTotalSupply(nftProtocolId: U64): (r: Option<U32>)
      reads this
      ensures var key := EncodeKey(SupplyKey(nftProtocolId));
              r.Some? <==> key in store && store[key].CountValue?
      ensures r.Some? ==> store[EncodeKey(SupplyKey(nftProtocolId))] == CountValue(r.value)
    {
      var key := EncodeKey(SupplyKey(nftProtocolId));
      if key in store && store[key].CountValue? then Some(store[key].count) else None
    }

    /** `WriteTotalProtocolCount`: stored under the bare protocol-count key. */
    method WriteTotalProtocolCount(count: U32)
      modifies this
      ensures store == old(store)[EncodeKey(ProtoTotalKey) := CountValue(count)]
      ensures ReadTotalProtocolCount() == Some(count)
      ensures forall protocolId: U64 :: ReadTotalSupply(protocolId) == old(ReadTotalSupply(protocolId))
      ensures HasNftKey(store) == old(HasNftKey(store))
    {
      store := store[EncodeKey(ProtoTotalKey) := CountValue(count)];
      OtherFamiliesKeepNftIndexEmpty(old(store), [(ProtoTotalKey, CountValue(count))]);
    }

    /** `ReadTotalProtocolCount`: the protocol count, if one is stored and readable. */
    function ReadTotalProtocolCount(): (r: Option<U32>)
      reads this
      ensures r.Some? <==> EncodeKey(ProtoTotalKey) in store && store[EncodeKey(ProtoTotalKey)].CountValue?
      ensures r.Some? ==> store[EncodeKey(ProtoTotalKey)] == CountValue(r.value)
    {
      var key := EncodeKey(ProtoTotalKey);
      if key in store && store[key].CountValue? then Some(store[key].count) else None
    }
  }
}
