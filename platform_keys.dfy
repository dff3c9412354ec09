/** Keys of the platform index. Four record families share one ordered key space;
    the first byte of every key is the family's tag, followed by the key's fields
    in the node's fixed-width little-endian encoding. */
module PlatformKeys {
  import opened Common

  /** Family tags (`PlatformDb::DB_NFT`, `DB_NFT_TOTAL`, `DB_NFT_PROTO`, `DB_NFT_PROTO_TOTAL`). */
  const DB_NFT: byte := 'n' as int
  const DB_NFT_TOTAL: byte := 't' as int
  const DB_NFT_PROTO: byte := 'p' as int
  const DB_NFT_PROTO_TOTAL: byte := 'c' as int

  /** `key.starts_with(std::string(1, tag))` */
  predicate StartsWith(key: Bytes, tag: byte) {
    |key| > 0 && key[0] == tag
  }

  /** The typed keys the index writes: a token, a protocol, a protocol's supply
      counter, and the bare protocol-count key. */
  datatype PlatformKey =
    | NftKey(protocolId: U64, tokenId: U256)
    | ProtoKey(protocolId: U64)
    | SupplyKey(protocolId: U64)
    | ProtoTotalKey
  {
    function Tag(): byte {
      match this
      case NftKey(_, _) => DB_NFT
      case ProtoKey(_) => DB_NFT_PROTO
      case SupplyKey(_) => DB_NFT_TOTAL
      case ProtoTotalKey => DB_NFT_PROTO_TOTAL
    }
  }

  function Pow256(n: nat): (p: nat)
    ensures p >= 1
  {
    if n == 0 then 1 else 256 * Pow256(n - 1)
  }

  lemma Pow256Widths()
    ensures Pow256(8) == U64_LIMIT
    ensures Pow256(32) == U256_LIMIT
  {
    assert Pow256(8) == 0x1_0000_0000_0000_0000;
    assert Pow256(16) == 0x1_0000_0000_0000_0000 * Pow256(8);
    assert Pow256(24) == 0x1_0000_0000_0000_0000 * Pow256(16);
    assert Pow256(32) == 0x1_0000_0000_0000_0000 * Pow256(24);
  }

  /** `x` written as `width` bytes, least significant first. */
  function LittleEndian(x: nat, width: nat): (s: Bytes)
    ensures |s| == width
  {
    if width == 0 then [] else [x % 256] + LittleEndian(x / 256, width - 1)
  }

  /** The number a little-endian byte string stands for; it always fits its width. */
  function FromLittleEndian(s: Bytes): (x: nat)
    ensures x < Pow256(|s|)
  {
    if s == [] then 0 else s[0] + 256 * FromLittleEndian(s[1..])
  }

  lemma {:induction false} LittleEndianRoundTrip(x: nat, width: nat)
    requires x < Pow256(width)
    ensures FromLittleEndian(LittleEndian(x, width)) == x
  {
    if width > 0 {
      var s := LittleEndian(x, width);
      assert s[1..] == LittleEndian(x / 256, width - 1);
      LittleEndianRoundTrip(x / 256, width - 1);
    }
  }

  /** The bytes stored for a typed key: the tag, then the fields. */
  function EncodeKey(k: PlatformKey): (b: Bytes)
    ensures |b| > 0 && b[0] == k.Tag()
    ensures |b| == match k
                   case NftKey(_, _) => 41
                   case ProtoKey(_) => 9
                   case SupplyKey(_) => 9
                   case ProtoTotalKey => 1
  {
    match k
    case NftKey(protocolId, tokenId) => [DB_NFT] + LittleEndian(protocolId, 8) + LittleEndian(tokenId, 32)
    case ProtoKey(protocolId) => [DB_NFT_PROTO] + LittleEndian(protocolId, 8)
    case SupplyKey(protocolId) => [DB_NFT_TOTAL] + LittleEndian(protocolId, 8)
    case ProtoTotalKey => [DB_NFT_PROTO_TOTAL]
  }

  /** The first byte decides the family: only a token key starts with the token tag,
      and two keys of different families never share their first byte. */
  lemma TagDecidesFamily(k1: PlatformKey, k2: PlatformKey)
    ensures StartsWith(EncodeKey(k1), DB_NFT) <==> k1.NftKey?
    ensures EncodeKey(k1)[0] == EncodeKey(k2)[0] <==>
              (k1.NftKey? && k2.NftKey?) || (k1.ProtoKey? && k2.ProtoKey?) ||
              (k1.SupplyKey? && k2.SupplyKey?) || (k1.ProtoTotalKey? && k2.ProtoTotalKey?)
  {
  }

  /** Distinct typed keys are stored under distinct byte strings. */
  lemma {:induction false} EncodeKeyInjective(k1: PlatformKey, k2: PlatformKey)
    requires EncodeKey(k1) == EncodeKey(k2)
    ensures k1 == k2
  {
    var b := EncodeKey(k1);
    Pow256Widths();
    TagDecidesFamily(k1, k2);
    match k1
    case NftKey(p1, t1) =>
      var p2, t2 := k2.protocolId, k2.tokenId;
      assert b[1..9] == LittleEndian(p1, 8) == LittleEndian(p2, 8);
      assert b[9..41] == LittleEndian(t1, 32) == LittleEndian(t2, 32);
      LittleEndianRoundTrip(p1, 8);
      LittleEndianRoundTrip(p2, 8);
      LittleEndianRoundTrip(t1, 32);
      LittleEndianRoundTrip(t2, 32);
    case ProtoKey(p1) =>
      assert b[1..] == LittleEndian(p1, 8) == LittleEndian(k2.protocolId, 8);
      LittleEndianRoundTrip(p1, 8);
      LittleEndianRoundTrip(k2.protocolId, 8);
    case SupplyKey(p1) =>
      assert b[1..] == LittleEndian(p1, 8) == LittleEndian(k2.protocolId, 8);
      LittleEndianRoundTrip(p1, 8);
      LittleEndianRoundTrip(k2.protocolId, 8);
    case ProtoTotalKey =>
  }

  /** Reading a supply key back as `std::pair<char, uint64_t>`: the stream must hold
      the tag byte and eight bytes of protocol id; anything shorter is a read error,
      anything after them is not looked at. */
  function DecodeSupplyKey(key: Bytes): (r: Option<U64>)
    ensures r.Some? <==> |key| >= 9
  {
    if |key| < 9 then None
    else
      Pow256Widths();
      Some(FromLittleEndian(key[1..9]))
  }

  /** A supply key written for a protocol reads back as that protocol's id, whatever
      bytes follow it: only the tag and the eight bytes after it are read. */
  lemma SupplyKeyRoundTrip(protocolId: U64, rest: Bytes)
    ensures DecodeSupplyKey(EncodeKey(SupplyKey(protocolId)) + rest) == Some(protocolId)
  {
    Pow256Widths();
    var b := EncodeKey(SupplyKey(protocolId)) + rest;
    assert b[1..9] == LittleEndian(protocolId, 8);
    LittleEndianRoundTrip(protocolId, 8);
  }
}
