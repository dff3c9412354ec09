/** Token and protocol records of the platform index, and their reconstruction
    from the on-disk form to the in-memory form linked to the chain. */
module PlatformRecords {
  import opened Common

  /** A non-fungible token. The index looks only at its two key fields; the rest
      (owner, metadata, ...) is carried as `details`. */
  datatype NfToken = NfToken(tokenProtocolId: U64, tokenId: U256, details: Bytes)

  /** A token protocol; `details` stands for the fields the index does not look at. */
  datatype NfTokenProtocol = NfTokenProtocol(tokenProtocolId: U64, details: Bytes)

  /** On-disk token record; the payload pointer may be null (`None`). */
  datatype NfTokenDiskIndex = NfTokenDiskIndex(blockHash: U256, regTxHash: U256, nfToken: Option<NfToken>)

  /** On-disk protocol record; the payload pointer may be null (`None`). */
  datatype NftProtoDiskIndex = NftProtoDiskIndex(blockHash: U256, regTxHash: U256, nftProto: Option<NfTokenProtocol>)

  /** A handle into the chain's own block index; the platform index never owns it. */
  datatype BlockHandle = BlockHandle(id: nat)

  /** In-memory token record. Null when it has no block handle or no payload. */
  datatype NfTokenIndex = NfTokenIndex(blockIndex: Option<BlockHandle>, regTxHash: U256, nfToken: Option<NfToken>) {
    predicate IsNull() {
      blockIndex.None? || nfToken.None?
    }
  }

  /** In-memory protocol record. Null when it has no block handle or no payload. */
  datatype NftProtoIndex = NftProtoIndex(blockIndex: Option<BlockHandle>, regTxHash: U256, nftProto: Option<NfTokenProtocol>) {
    predicate IsNull() {
      blockIndex.None? || nftProto.None?
    }
  }

  /** `NfTokenIndex()`: the default-constructed, null record. */
  function NullNfTokenIndex(): (r: NfTokenIndex)
    ensures r.IsNull()
  {
    NfTokenIndex(None, 0, None)
  }

  /** `NftProtoIndex()`: the default-constructed, null record. */
  function NullNftProtoIndex(): (r: NftProtoIndex)
    ensures r.IsNull()
  {
    NftProtoIndex(None, 0, None)
  }

  /** The special payload a registering transaction carries. */
  datatype SpecialPayload =
    | NftRegPayload(token: NfToken)
    | ProtoRegPayload(protocol: NfTokenProtocol)
    | OtherPayload

  datatype Transaction = Transaction(payload: SpecialPayload)

  /** What the transaction lookup reports: the transaction and the hash of the block it is confirmed in. */
  datatype TxLocation = TxLocation(tx: Transaction, blockHash: U256)

  /** The chain state the index consults, injected: the block index (block hash to
      handle) and the transaction lookup (transaction hash to transaction and block). */
  datatype ChainView = ChainView(blockIndex: map<U256, BlockHandle>, transactions: map<U256, TxLocation>)

  /** `GetNftTxPayload` for a token registration. */
  function GetNftTxPayload(tx: Transaction): (r: Option<NfToken>)
    ensures r.Some? <==> tx.payload.NftRegPayload?
  {
    if tx.payload.NftRegPayload? then Some(tx.payload.token) else None
  }

  /** `GetNftTxPayload` for a protocol registration. */
  function GetNftProtoTxPayload(tx: Transaction): (r: Option<NfTokenProtocol>)
    ensures r.Some? <==> tx.payload.ProtoRegPayload?
  {
    if tx.payload.ProtoRegPayload? then Some(tx.payload.protocol) else None
  }

  /** The two assertions of the fallback path. */
  datatype Violation =
    | TxBlockMismatch    // the transaction is confirmed in another block than the record says
    | MissingRegPayload  // the transaction carries no registration payload of the expected kind

  /** A result, or the process stopping on a failed assertion. */
  datatype Checked<+T> = Ok(value: T) | Abort(violation: Violation)

  /** Fallback path is inconsistent: the transaction exists but disagrees with the record. */
  predicate NftFallbackViolates(disk: NfTokenDiskIndex, chain: ChainView)
  {
    && disk.blockHash in chain.blockIndex
    && disk.nfToken.None?
    && disk.regTxHash in chain.transactions
    && var loc := chain.transactions[disk.regTxHash];
       loc.blockHash != disk.blockHash || GetNftTxPayload(loc.tx).None?
  }

  /** `NftDiskIndexToNftMemIndex` */
  function NftDiskIndexToNftMemIndex(disk: NfTokenDiskIndex, chain: ChainView): (r: Checked<NfTokenIndex>)
    // the null record exactly when the block is unknown, or the payload must be
    // re-derived and the registering transaction cannot be found
    ensures r == Ok(NullNfTokenIndex()) <==>
              disk.blockHash !in chain.blockIndex ||
              (disk.nfToken.None? && disk.regTxHash !in chain.transactions)
    ensures r.Ok? && r.value.IsNull() ==> r.value == NullNfTokenIndex()
    // the process stops exactly when the re-derivation finds the transaction in
    // another block, or without a token registration; a mismatch is reported first
    ensures r.Abort? <==> NftFallbackViolates(disk, chain)
    ensures r == Abort(TxBlockMismatch) <==>
              NftFallbackViolates(disk, chain) &&
              chain.transactions[disk.regTxHash].blockHash != disk.blockHash
    // a non-null record is linked to the record's own block and transaction and
    // carries either the cached payload or the one of a transaction confirmed in
    // exactly that block
    ensures r.Ok? && !r.value.IsNull() ==>
              && disk.blockHash in chain.blockIndex
              && r.value.blockIndex == Some(chain.blockIndex[disk.blockHash])
              && r.value.regTxHash == disk.regTxHash
              && (disk.nfToken.Some? ==> r.value.nfToken == disk.nfToken)
              && (disk.nfToken.None? ==>
                    && disk.regTxHash in chain.transactions
                    && chain.transactions[disk.regTxHash].blockHash == disk.blockHash
                    && r.value.nfToken == GetNftTxPayload(chain.transactions[disk.regTxHash].tx))
  {
    if disk.blockHash !in chain.blockIndex then
      Ok(NullNfTokenIndex())
    else
      var blockIndex := chain.blockIndex[disk.blockHash];
      if disk.nfToken.None? then
        if disk.regTxHash !in chain.transactions then
          Ok(NullNfTokenIndex())
        else
          var loc := chain.transactions[disk.regTxHash];
          if loc.blockHash != disk.blockHash then
            Abort(TxBlockMismatch)
          else
            match GetNftTxPayload(loc.tx)
            case None => Abort(MissingRegPayload)
            case Some(token) => Ok(NfTokenIndex(Some(blockIndex), disk.regTxHash, Some(token)))
      else
        Ok(NfTokenIndex(Some(blockIndex), disk.regTxHash, disk.nfToken))
  }

  /** Fallback path is inconsistent: the transaction exists but disagrees with the record. */
  predicate ProtoFallbackViolates(disk: NftProtoDiskIndex, chain: ChainView)
  {
    && disk.blockHash in chain.blockIndex
    && disk.nftProto.None?
    && disk.regTxHash in chain.transactions
    && var loc := chain.transactions[disk.regTxHash];
       loc.blockHash != disk.blockHash || GetNftProtoTxPayload(loc.tx).None?
  }

  /** `NftProtoDiskIndexToNftProtoMemIndex` */
  function NftProtoDiskIndexToNftProtoMemIndex(disk: NftProtoDiskIndex, chain: ChainView): (r: Checked<NftProtoIndex>)
    ensures r == Ok(NullNftProtoIndex()) <==>
              disk.blockHash !in chain.blockIndex ||
              (disk.nftProto.None? && disk.regTxHash !in chain.transactions)
    ensures r.Ok? && r.value.IsNull() ==> r.value == NullNftProtoIndex()
    ensures r.Abort? <==> ProtoFallbackViolates(disk, chain)
    ensures r == Abort(TxBlockMismatch) <==>
              ProtoFallbackViolates(disk, chain) &&
              chain.transactions[disk.regTxHash].blockHash != disk.blockHash
    ensures r.Ok? && !r.value.IsNull() ==>
              && disk.blockHash in chain.blockIndex
              && r.value.blockIndex == Some(chain.blockIndex[disk.blockHash])
              && r.value.regTxHash == disk.regTxHash
              && (disk.nftProto.Some? ==> r.value.nftProto == disk.nftProto)
              && (disk.nftProto.None? ==>
                    && disk.regTxHash in chain.transactions
                    && chain.transactions[disk.regTxHash].blockHash == disk.blockHash
                    && r.value.nftProto == GetNftProtoTxPayload(chain.transactions[disk.regTxHash].tx))
  {
    if disk.blockHash !in chain.blockIndex then
      Ok(NullNftProtoIndex())
    else
      var blockIndex := chain.blockIndex[disk.blockHash];
      if disk.nftProto.None? then
        if disk.regTxHash !in chain.transactions then
          Ok(NullNftProtoIndex())
        else
          var loc := chain.transactions[disk.regTxHash];
          if loc.blockHash != disk.blockHash then
            Abort(TxBlockMismatch)
          else
            match GetNftProtoTxPayload(loc.tx)
            case None => Abort(MissingRegPayload)
            case Some(protocol) => Ok(NftProtoIndex(Some(blockIndex), disk.regTxHash, Some(protocol)))
      else
        Ok(NftProtoIndex(Some(blockIndex), disk.regTxHash, disk.nftProto))
  }

  /** With a cached payload the transaction lookup is never consulted: two chains
      that agree on the block index give the same record. */
  lemma CachedNftIgnoresTransactions(disk: NfTokenDiskIndex, c1: ChainView, c2: ChainView)
    requires disk.nfToken.Some? && c1.blockIndex == c2.blockIndex
    ensures NftDiskIndexToNftMemIndex(disk, c1) == NftDiskIndexToNftMemIndex(disk, c2)
  {
  }

  /** With a cached payload the transaction lookup is never consulted. */
  lemma CachedProtoIgnoresTransactions(disk: NftProtoDiskIndex, c1: ChainView, c2: ChainView)
    requires disk.nftProto.Some? && c1.blockIndex == c2.blockIndex
    ensures NftProtoDiskIndexToNftProtoMemIndex(disk, c1) == NftProtoDiskIndexToNftProtoMemIndex(disk, c2)
  {
  }
}
