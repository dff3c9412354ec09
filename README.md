# Platform index store and transaction-data payloads

This project models two parts of a blockchain node:

- **The platform index store (`Platform::PlatformDb`).** It keeps secondary indexes for non-fungible tokens in one ordered key-value space shared by four record families:
  - tokens (`'n'`);
  - protocols (`'p'`);
  - per-protocol supply counters (`'t'`);
  - the total protocol count (`'c'`).

  It offers typed write, erase and read operations for each family. It offers full ascending scans that filter by family, rebuild each record, and log and skip any record that fails. The store status is checked once, after the loop. It offers a probe that asks whether any token record exists. Its rebuild turns an on-disk record into an in-memory one linked to the chain. The rebuild either uses the cached payload or re-derives the payload from the registering transaction, and it asserts that the transaction sits in the record's block.
- **The typed transaction-data payloads.** This covers:
  - the `DataTypes` version tags;
  - serialisation that dispatches on the version and stops on an unknown one;
  - the data and contract payloads, with their `IsEmpty` predicates and in-place `SetEmpty`.

Layout:

- `common.dfy` (`Common`): bytes, the node's fixed-width unsigned integers as bounded `nat`s, and `Option`.
- `platform_keys.dfy` (`PlatformKeys`) covers keys:
  - the family tags;
  - typed keys and their byte encoding: the tag, then fixed-width little-endian fields;
  - decoding of supply keys.
- `key_order.dfy` (`KeyOrder`): the iterator's bytewise order. `Ascending(s)` is the order in which a full scan visits the keys of `s`.
- `platform_records.dfy` (`PlatformRecords`): token and protocol records, the injected chain view, and the two disk-to-memory conversions.
- `platform_db.dfy` (`Platform`) covers the store:
  - `ScanOrder`, the order in which a scan visits a store's keys;
  - the per-entry `Process*` functions;
  - the trace a scan leaves behind;
  - the `PlatformDb` class, with a `map` field for the store, `while` loops for the scans, and methods that update the map for writes and erases.
- `txdata.dfy` (`TransactionData`) covers the payloads:
  - `TxPayload` stands for a shared payload reference. Each constructor is one dynamic type, so virtual calls resolve by constructor.
  - The classes `TxDataBase`, `Contract` and `TxData` carry the fields that `SetEmpty` updates in place.
  - Serialisation is modelled at field level.

The following are injected as values:

- **The store** is a `map` from byte strings to decoded values. `Corrupt` is a value that decodes as none of the record types.
- **The chain** is a `ChainView` holding two maps:
  - the block index, from block hash to block handle;
  - the transaction lookup, from transaction hash to transaction and containing block.
- **The iterator's health** is an `IteratorHealth` parameter: `Healthy`, or `FailsAfter(n)`. A failing iterator becomes invalid once it has yielded `n` entries, so a scan sees only that prefix of the keys (`Reached`). The status check after the loop then raises the store's error.
- **The source's `assert`s** are an explicit `Abort` outcome, which is never a returned record:
  - on the transaction's block at `src/platform/platform-db.cpp:289` and `:324`;
  - on the registration payload at `:293` and `:329`;
  - on the version at `src/primitives/txdata.h:42`.

`IsVersion` and `GetVersion` are direct selectors: `IsVersion(v)` holds exactly when the version is `v`. `IsVersion` appears in the constructors' contracts; `GetVersion` appears in `ClearedSpec`. `IsType` and `GetType` have rows of their own.

## Model

| member | source | states |
|---|---|---|
| PlatformKeys.EncodeKey | src/platform/platform-db.cpp:14-17 | A stored key starts with its family's tag byte: `'n'` token, `'p'` protocol, `'t'` supply, `'c'` protocol count. Its length is fixed per family: 41, 9, 9 and 1 bytes. |
| PlatformKeys.TagDecidesFamily | src/platform/platform-db.cpp:14-17 | The four tags are pairwise distinct, so the first byte of a key decides its family. Only token keys start with `'n'`. |
| PlatformKeys.EncodeKeyInjective | src/platform/platform-db.cpp:196-258 | Distinct typed keys are stored under distinct byte strings. Only a write to the same tuple overwrites. |
| PlatformKeys.DecodeSupplyKey | src/platform/platform-db.cpp:167-177 | Reading a key as (tag, protocol id) succeeds exactly when the key holds at least the tag byte and eight id bytes. |
| PlatformKeys.SupplyKeyRoundTrip | src/platform/platform-db.cpp:177 | A supply key written for a protocol reads back as that protocol's id, whatever bytes follow it: only the tag and the eight bytes after it are read. |
| KeyOrder.AscendingSpec | src/platform/platform-db.cpp:29 | A full scan visits every key of the store once, in strictly ascending bytewise order. |
| KeyOrder.SeekLeast | src/platform/platform-db.cpp:29 | Each step of the iterator moves to the least key not yet visited. |
| Platform.ScanOrderIsByteOrder | src/platform/platform-db.cpp:222 | Scan order is byte order, not the numeric order of the key's fields: protocol 256 is visited before protocol 1. |
| PlatformRecords.GetNftTxPayload | src/platform/platform-db.cpp:292 | A transaction yields a token exactly when it carries a token registration. |
| PlatformRecords.GetNftProtoTxPayload | src/platform/platform-db.cpp:328 | A transaction yields a protocol exactly when it carries a protocol registration. |
| PlatformRecords.NftDiskIndexToNftMemIndex | src/platform/platform-db.cpp:268-300 | Returns the null record exactly when the block hash is unknown, or when there is no cached token and no transaction. It aborts exactly when the found transaction is in another block (reported first) or carries no token registration. Otherwise the record holds the block's handle, the registration hash, and either the cached token or the token of a transaction confirmed in exactly that block. |
| PlatformRecords.NftProtoDiskIndexToNftProtoMemIndex | src/platform/platform-db.cpp:302-336 | The same three outcomes for protocol records: null, abort on block mismatch or missing registration, and a cached or re-derived protocol linked to its block. |
| PlatformRecords.CachedNftIgnoresTransactions | src/platform/platform-db.cpp:279-299 | With a cached token, the transaction lookup is never consulted. Chains that agree on the block index give the same record. |
| PlatformRecords.CachedProtoIgnoresTransactions | src/platform/platform-db.cpp:313-335 | With a cached protocol, the transaction lookup is never consulted. |
| Platform.ProcessNftIndexSpec | src/platform/platform-db.cpp:94-126 | Exactly the keys of another family return true with no handler call. A token key with an undecodable value is a decode failure. The rebuild gives the null record exactly when the entry is logged as not built. An abort happens exactly on a fallback violation. The handler is called exactly when the entry decodes and rebuilds into a non-null record, and with that record. True is returned exactly for other families or a record the handler accepts. |
| Platform.ProcessNftProtoIndexSpec | src/platform/platform-db.cpp:128-161 | The same for protocol keys and protocol records: the handler is called exactly for the protocol entries that decode and rebuild into a non-null record. |
| Platform.ProcessNftSupply | src/platform/platform-db.cpp:163-194 | Exactly the keys of another family return true with no handler call. A supply key is a decode failure exactly when its key is shorter than tag plus id or its value is not a count. Otherwise the handler is called, with the protocol id read from the key and the count read from the value. True is returned exactly for other families or an accepted (id, count) pair. This function never aborts. |
| Platform.SupplyEntryRoundTrip | src/platform/platform-db.cpp:163-194 | A supply counter written for a protocol reaches the supply handler as exactly that (protocol id, count). |
| Platform.ScanIsolation | src/platform/platform-db.cpp:42-74 | Unless an assertion fires, a scan never stops early. The handler receives the records of exactly the entries that rebuild, in visiting order. The keys logged and skipped are exactly those of the entries that fail to decode, to rebuild or to be accepted, in visiting order. |
| Platform.NftScanRunsHandlerPerBuiltRecord | src/platform/platform-db.cpp:46-54 | When no token entry trips an assertion, a token scan runs to the end. It hands the handler exactly as many records as there are token entries that decode and rebuild into a non-null record, whatever the other entries hold. |
| Platform.ProtoScanRunsHandlerPerBuiltRecord | src/platform/platform-db.cpp:63-71 | The same for protocol scans and protocol entries. |
| Platform.AbortIsFinal | src/platform/platform-db.cpp:289 | Once an assertion fires, no later entry changes what the scan did. |
| Platform.UnprocessedSpec | src/platform/platform-db.cpp:25-40 | A generic scan logs exactly the keys its processor returns false for. |
| Platform.OtherFamiliesKeepNftIndexEmpty | src/platform/platform-db.cpp:76-92 | Writes of protocol, supply and protocol-count records, in any number and any order, never change whether the token family is empty. |
| Platform.PlatformDb.constructor | src/platform/platform-db.cpp:19-23 | An in-memory or wiped store starts empty. Otherwise it holds what is on disk. |
| Platform.PlatformDb.ProcessPlatformDbGuts | src/platform/platform-db.cpp:25-40 | Every key the iterator reaches is visited, in ascending order: all keys with a healthy iterator, the first `n` with one that fails after `n`. The logged keys are those the processor rejects, in that order. The status check after the loop raises the store's error exactly when the iterator failed. |
| Platform.PlatformDb.ProcessNftIndexGutsOnly | src/platform/platform-db.cpp:42-57 | The scan's trace is the fold of `ProcessNftIndex` over the keys the iterator reaches, in ascending order. The status is checked only after a scan that was not aborted, and raises the error exactly when the iterator failed. |
| Platform.PlatformDb.ProcessNftProtoIndexGutsOnly | src/platform/platform-db.cpp:59-74 | The scan's trace is the fold of `ProcessNftProtoIndex` over the keys the iterator reaches, in ascending order. The status is checked only after a scan that was not aborted, and raises the error exactly when the iterator failed. |
| Platform.PlatformDb.IsNftIndexEmpty | src/platform/platform-db.cpp:76-92 | Answers false exactly when a key the iterator reaches starts with the token tag, even if the iterator fails later. Otherwise a failed iterator raises the store's error, and a healthy one answers true. With a healthy iterator the answer is false exactly when some key of the store starts with the token tag. |
| Platform.PlatformDb.WriteNftDiskIndex | src/platform/platform-db.cpp:196-203 | Stores the record under (`'n'`, protocol id, token id), replacing any earlier record there. Reading that pair back gives the record rebuilt from what was written. |
| Platform.PlatformDb.EraseNftDiskIndex | src/platform/platform-db.cpp:205-208 | Removes exactly that key. Reading it back gives the null record. |
| Platform.PlatformDb.ReadNftIndex | src/platform/platform-db.cpp:210-218 | A missing or unreadable key gives the null record. A present, readable key gives the record rebuilt from what is stored, and any non-null answer comes from such a key. |
| Platform.PlatformDb.WriteNftProtoDiskIndex | src/platform/platform-db.cpp:220-223 | Stores the record under (`'p'`, protocol id). Reading it back gives the rebuilt written record. |
| Platform.PlatformDb.EraseNftProtoDiskIndex | src/platform/platform-db.cpp:225-228 | Removes exactly that key. Reading it back gives the null record. |
| Platform.PlatformDb.ReadNftProtoIndex | src/platform/platform-db.cpp:230-238 | A missing or unreadable key gives the null record. A present, readable key gives the record rebuilt from what is stored, and any non-null answer comes from such a key. |
| Platform.PlatformDb.WriteTotalSupply | src/platform/platform-db.cpp:240-243 | Reading this protocol's supply back gives the written count. Every other protocol's supply, the protocol count and the emptiness of the token family are unchanged. |
| Platform.PlatformDb.ReadTotalSupply | src/platform/platform-db.cpp:245-248 | Reports a count exactly when a readable counter is stored for the protocol, and that count is the stored one. |
| Platform.PlatformDb.WriteTotalProtocolCount | src/platform/platform-db.cpp:250-253 | Reading the count back gives the written value. All supply counters and the emptiness of the token family are unchanged. |
| Platform.PlatformDb.ReadTotalProtocolCount | src/platform/platform-db.cpp:255-258 | Reports a count exactly when a readable count is stored, and that count is the stored one. |
| TransactionData.SerializeTxData | src/primitives/txdata.h:31-44 | Writes the version byte, then the data body for version 1 (data type, then data: 2 fields) or the contract body for version 2 (8 byte-string fields, the asset name fourth and the issuing address fifth of the record). The whole record is 3 or 9 fields. Any other version fails the assertion. |
| TransactionData.DeserializeTxData | src/primitives/txdata.h:31-44 | An unknown version byte fails the assertion. A successful read yields a data or contract payload whose type matches its version, and returns the unread suffix of the stream. |
| TransactionData.SerializeRoundTrip | src/primitives/txdata.h:31-44 | Whatever is written reads back as the same payload, leaving what follows it unread. |
| TransactionData.DeserializeRoundTrip | src/primitives/txdata.h:31-44 | Whatever reads successfully is exactly the serialisation of the payload read, followed by the rest. |
| TransactionData.ClearedSpec | src/primitives/txdata.h:59 | `SetEmpty` makes data payloads and contracts empty, but a bare base object is never empty. The version, the dynamic type and the data type are kept. Clearing twice is the same as clearing once. |
| TransactionData.TxPayload.IsEmpty | src/primitives/txdata.h:61 | The virtual `IsEmpty` by dynamic type: a bare base object is never empty, a data payload is empty exactly when its payload bytes are empty, and a contract is empty exactly when its issuing address or asset name is empty (txdata.h:104-106, 151-154). |
| TransactionData.ContractEmptiness | src/primitives/txdata.h:104-106 | A contract is empty exactly when the issuing address or the asset name is empty. None of its other six fields matters. |
| TransactionData.PDataSpec | src/primitives/txdata.h:56-57 | Only a data payload exposes payload bytes, and they are its own data. A data payload is empty exactly when those bytes are empty. |
| TransactionData.TxDataBase.constructor | src/primitives/txdata.h:26 | A base object built with version `v` satisfies `IsVersion(v)`, is not empty and has no payload bytes. |
| TransactionData.TxDataBase.Unset | src/primitives/txdata.h:27 | A base object built without a version is still never empty. |
| TransactionData.TxDataBase.SetEmpty | src/primitives/txdata.h:59 | The base `SetEmpty` changes nothing. |
| TransactionData.Contract.constructor | src/primitives/txdata.h:77 | A new contract has version `OUTPUT_CONTRACT` (2), every field empty, and is empty. |
| TransactionData.Contract.SetEmpty | src/primitives/txdata.h:92-102 | All six text fields, the script and the signature become empty. The version is unchanged, and the contract is empty afterwards. |
| TransactionData.TxData.constructor | src/primitives/txdata.h:119 | A new data payload has version `OUTPUT_DATA` (1), no data, and is empty. |
| TransactionData.TxData.WithData | src/primitives/txdata.h:120 | A data payload built from bytes has version 1 and exposes exactly those bytes. It is empty exactly when they are. |
| TransactionData.TxData.SetEmpty | src/primitives/txdata.h:146-154 | The data becomes empty and the payload is empty afterwards. The data type and the version are unchanged, so `IsType(t)` answers as before for every `t`. |
| TransactionData.TxData.IsType | src/primitives/txdata.h:141-144 | Holds exactly when the payload's data type is `t`. |
| TransactionData.TxData.GetType | src/primitives/txdata.h:136-139 | The payload's data type. |

## Left out

- The embedded key-value store:
  - Its iterator mechanics are replaced by repeatedly picking the least unvisited key of a snapshot of the map.
  - Its failure is the `IteratorHealth` parameter: at most a count of entries the iterator yields before it becomes invalid. Where in the key space a real failure occurs, and what error it reports, are not modelled.
  - Its cache size and the option setting (`src/platform/platform-db.cpp:19-23`) are not modelled.
- Byte formats of values:
  - Stored values are already-decoded records, or `Corrupt`.
  - A value is never reinterpreted as another record type. For example, the model does not capture a token record's bytes happening to parse as a supply count.
  - The store's `Read` is taken to report failure for a missing or undecodable value alike. The wrapper that implements it is not part of this model.
- Key integer fields are taken to be encoded as fixed-width little-endian bytes, as the node's serialiser writes them. The serialiser is not part of this model.
  - For this reason, iteration order within a family is byte order, not numeric order (`Platform.ScanOrderIsByteOrder`).
- Handlers and processors are pure functions of the record they are given. The source's `std::function` handlers may keep state and answer differently depending on earlier calls; the model does not capture that.
- Log messages are not modelled. A logged entry appears only as a skipped key in the scan trace.
- `FindBlockIndex` (`src/platform/platform-db.cpp:260-266`) is an unfinished stub that always returns no block, and nothing modelled uses it.
- The singleton instance (`src/platform/platform-db.cpp:13`) is not modelled.
- Threading and locking are not modelled.
- The chain's block index, `GetTransaction`, `Params()` and the registration-payload extraction are foreign services. They are injected as the maps of `ChainView`, and a transaction's payload is a datatype. Block handles are opaque identities.
- Token and protocol details beyond their key fields are opaque bytes.
- `NfTokenIndex::IsNull` is defined outside these files. It is taken to hold when the block handle or the payload is missing.
- The hash and `ToString` members of the payload classes are declared only, and cryptographic or formatting in nature.
- `CContract(std::string alias)` is declared only; its definition is not part of this model.
- Payload serialisation is modelled at field granularity: single bytes and length-prefixed byte strings. The compact-size length prefix and stream exceptions are not spelled out; a stream that ends early is `StreamError`.
- `TransactionData.DeserializeTxData` models reading into an object whose dynamic type matches the version read. Reading a version into an object of another type casts to the wrong type in the source. That case has no defined meaning and is not modelled.
- `TransactionData.SerializeTxData`: the precondition `CastMatchesVersion` excludes serialising an object whose version names another type. The source's cast has no defined meaning there.
- `Platform.PlatformDb.WriteNftDiskIndex` and `Platform.PlatformDb.WriteNftProtoDiskIndex` require the record to carry its token or protocol. The source dereferences it to build the key (`src/platform/platform-db.cpp:199-200`, `:222`), and a missing one has no defined meaning there.
- `GetPData` returns a pointer to the object's own buffer in the source. The model returns the bytes, so writes through that pointer (aliasing) are not captured.
- `CTxData()` leaves `nType` uninitialised; the model leaves that field unconstrained.
- The RPC and GUI layers are not part of this model.
