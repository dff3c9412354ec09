/** Typed transaction-data payloads: a version tag, a serialisation that dispatches
    on it, and the payload kinds a transaction output may carry (free data and
    asset contracts), with their emptiness predicates and in-place clearing. */
module TransactionData {
  import opened Common

  /** `DataTypes`: the version tags. */
  const OUTPUT_NULL: byte := 0
  const OUTPUT_DATA: byte := 1
  const OUTPUT_CONTRACT: byte := 2
  const OUTPUT_ID: byte := 3
  const OUTPUT_VOTE: byte := 4

  /** What a shared payload reference points to, by dynamic type: a bare base
      object, a data payload or a contract. `nVersion` is a public field any
      of them may hold any value in. Strings and scripts are byte strings. */
  datatype TxPayload =
    | BasePayload(version: byte)
    | DataPayload(version: byte, dataType: byte, data: Bytes)
    | ContractPayload(version: byte, contractUrl: Bytes, assetSymbol: Bytes, assetName: Bytes,
                      issuingAddress: Bytes, description: Bytes, websiteUrl: Bytes,
                      scriptCode: Bytes, contractSig: Bytes)
  {
    function GetVersion(): byte {
      version
    }

    predicate IsVersion(v: byte) {
      version == v
    }

    /** The payload bytes: a data payload's own `vData`; the base object and
        contracts have none. */
    function GetPData(): Option<Bytes> {
      if DataPayload? then Some(data) else None
    }

    /** The virtual `IsEmpty`, resolved by dynamic type: never for a bare base
        object, no payload bytes for a data payload, no issuing address or no asset
        name for a contract. */
    predicate IsEmpty(): (empty: bool)
      ensures empty ==> !BasePayload?
      ensures DataPayload? ==> (empty <==> GetPData() == Some([]))
      ensures ContractPayload? ==> (empty <==> issuingAddress == [] || assetName == [])
    {
      match this
      case BasePayload(_) => false
      case DataPayload(_, _, d) => d == []
      case ContractPayload(_, _, _, name, issuer, _, _, _, _) => issuer == [] || name == []
    }

    /** The state the virtual `SetEmpty` leaves behind, resolved by dynamic type. */
    function Cleared(): TxPayload {
      match this
      case BasePayload(_) => this
      case DataPayload(v, t, _) => DataPayload(v, t, [])
      case ContractPayload(v, _, _, _, _, _, _, _, _) => ContractPayload(v, [], [], [], [], [], [], [], [])
    }

    /** The cast the serialiser makes on the version is to the object's own type. */
    predicate CastMatchesVersion() {
      && (version == OUTPUT_DATA ==> DataPayload?)
      && (version == OUTPUT_CONTRACT ==> ContractPayload?)
    }
  }

  /** Clearing empties data payloads and contracts, keeps the version and the
      data type, and changes nothing a second time; a bare base object is
      never empty, cleared or not. */
  lemma ClearedSpec(p: TxPayload)
    ensures p.Cleared().IsEmpty() <==> !p.BasePayload?
    ensures p.Cleared().GetVersion() == p.GetVersion()
    ensures p.Cleared().DataPayload? <==> p.DataPayload?
    ensures p.Cleared().ContractPayload? <==> p.ContractPayload?
    ensures p.DataPayload? ==> p.Cleared().dataType == p.dataType && p.Cleared().GetPData() == Some([])
    ensures p.Cleared().Cleared() == p.Cleared()
  {
  }

  /** A contract is empty exactly when it has no issuing address or no asset name;
      the other six fields never matter. */
  lemma ContractEmptiness(p: TxPayload)
    requires p.ContractPayload?
    ensures p.IsEmpty() <==> p.issuingAddress == [] || p.assetName == []
    ensures forall url, symbol, descr, site, script, sig ::
              p.(contractUrl := url, assetSymbol := symbol, description := descr,
                 websiteUrl := site, scriptCode := script, contractSig := sig).IsEmpty() == p.IsEmpty()
  {
  }

  /** Only a data payload exposes payload bytes, and they are its own data. */
  lemma PDataSpec(p: TxPayload)
    ensures p.GetPData().Some? <==> p.DataPayload?
    ensures p.GetPData().Some? ==> p.GetPData().value == p.data
    ensures p.DataPayload? ==> (p.IsEmpty() <==> p.GetPData() == Some([]))
  {
  }

  /** One serialised field: a single byte (`uint8_t`) or a length-prefixed byte
      string (`std::string`, `CScript`, `std::vector<unsigned char>`). */
  datatype Field = ByteField(b: byte) | BlobField(bytes: Bytes)

  /** Writing a payload: its fields, or the process stopping on the failed
      assertion for a version with no body. */
  datatype WriteResult = Written(fields: seq<Field>) | UnknownVersion

  /** Reading a payload: the payload and the unread rest of the stream, a stream
      that ends early or holds the wrong kind of field, or the failed assertion. */
  datatype ReadResult = Parsed(payload: TxPayload, rest: seq<Field>) | StreamError | UnknownVersionRead

  /** Serialising a payload reference: the version byte, then the body its
      version names; any other version fails the assertion. */
  function SerializeTxData(p: TxPayload): (r: WriteResult)
    requires p.CastMatchesVersion()
    ensures r.UnknownVersion? <==> p.version != OUTPUT_DATA && p.version != OUTPUT_CONTRACT
    ensures r.Written? ==> |r.fields| > 1 && r.fields[0] == ByteField(p.version)
    ensures r.Written? && p.DataPayload? ==>
              |r.fields| == 3 && r.fields[1] == ByteField(p.dataType) && r.fields[2] == BlobField(p.data)
    ensures r.Written? && p.ContractPayload? ==>
              |r.fields| == 9 && AllBlobs(r.fields[1..]) &&
              r.fields[3] == BlobField(p.assetName) && r.fields[4] == BlobField(p.issuingAddress)
  {
    if p.version == OUTPUT_DATA then
      Written([ByteField(p.version), ByteField(p.dataType), BlobField(p.data)])
    else if p.version == OUTPUT_CONTRACT then
      Written([ByteField(p.version), BlobField(p.contractUrl), BlobField(p.assetSymbol), BlobField(p.assetName),
               BlobField(p.issuingAddress), BlobField(p.description), BlobField(p.websiteUrl),
               BlobField(p.scriptCode), BlobField(p.contractSig)])
    else
      UnknownVersion
  }

  predicate AllBlobs(fields: seq<Field>) {
    forall i | 0 <= i < |fields| :: fields[i].BlobField?
  }

  /** Deserialising into an object of the type the version names: the version
      byte, then that type's fields in declaration order. */
  function DeserializeTxData(fields: seq<Field>): (r: ReadResult)
    ensures r.UnknownVersionRead? <==>
              |fields| > 0 && fields[0].ByteField? &&
              fields[0].b != OUTPUT_DATA && fields[0].b != OUTPUT_CONTRACT
    ensures r.Parsed? ==>
              && |fields| > 0 && fields[0] == ByteField(r.payload.version)
              && r.payload.CastMatchesVersion()
              && !r.payload.BasePayload?
              && |r.rest| < |fields|
              && r.rest == fields[|fields| - |r.rest|..]
  {
    if |fields| == 0 || !fields[0].ByteField? then StreamError
    else
      var v := fields[0].b;
      if v == OUTPUT_DATA then
        if |fields| < 3 || !fields[1].ByteField? || !fields[2].BlobField? then StreamError
        else Parsed(DataPayload(v, fields[1].b, fields[2].bytes), fields[3..])
      else if v == OUTPUT_CONTRACT then
        if |fields| < 9 || !AllBlobs(fields[1..9]) then StreamError
        else
          assert forall i | 1 <= i < 9 :: fields[1..9][i - 1] == fields[i];
          Parsed(ContractPayload(v, fields[1].bytes, fields[2].bytes, fields[3].bytes, fields[4].bytes,
                                 fields[5].bytes, fields[6].bytes, fields[7].bytes, fields[8].bytes), fields[9..])
      else
        UnknownVersionRead
  }

  /** Whatever is written reads back as the same payload, leaving what follows
      it in the stream unread. */
  lemma SerializeRoundTrip(p: TxPayload, rest: seq<Field>)
    requires p.CastMatchesVersion()
    requires SerializeTxData(p).Written?
    ensures DeserializeTxData(SerializeTxData(p).fields + rest) == Parsed(p, rest)
  {
    var all := SerializeTxData(p).fields + rest;
    if p.version == OUTPUT_DATA {
      assert all[3..] == rest;
    } else {
      assert all[1..9] == SerializeTxData(p).fields[1..];
      assert all[9..] == rest;
    }
  }

  /** Whatever reads successfully is exactly what writing the payload produces,
      followed by the unread rest. */
  lemma DeserializeRoundTrip(fields: seq<Field>)
    requires DeserializeTxData(fields).Parsed?
    ensures var r := DeserializeTxData(fields);
            SerializeTxData(r.payload) == Written(fields[..|fields| - |r.rest|])
  {
    var r := DeserializeTxData(fields);
    var w := SerializeTxData(r.payload).fields;
    if fields[0].b == OUTPUT_DATA {
      assert w == fields[..3];
    } else {
      assert forall i | 1 <= i < 9 :: fields[1..9][i - 1] == fields[i];
      assert w == fields[..9];
    }
  }

  /** `CTxDataBase`: a bare payload carrying only its version. */
  class TxDataBase {
    var nVersion: byte

    constructor (v: byte)
      ensures Payload() == BasePayload(v)
      ensures Payload().IsVersion(v) && !Payload().IsEmpty() && Payload().GetPData().None?
    {
      nVersion := v;
    }

    /** `CTxDataBase()`: the version is left unset, so it may hold any value. */
    constructor Unset()
      ensures Payload().BasePayload? && !Payload().IsEmpty()
    {
    }

    function Payload(): TxPayload
      reads this
    {
      BasePayload(nVersion)
    }

    /** The base `SetEmpty` does nothing. */
    method SetEmpty()
      ensures Payload() == old(Payload()).Cleared()
    {
    }
  }

  /** `CContract`: an asset contract. */
  class Contract {
    var nVersion: byte
    var contractUrl: Bytes
    var assetSymbol: Bytes
    var assetName: Bytes
    var issuingAddress: Bytes
    var description: Bytes
    var websiteUrl: Bytes
    var scriptCode: Bytes
    var contractSig: Bytes

    /** `CContract()`: version `OUTPUT_CONTRACT`, every field empty. */
    constructor ()
      ensures Payload() == ContractPayload(OUTPUT_CONTRACT, [], [], [], [], [], [], [], [])
      ensures Payload().IsVersion(OUTPUT_CONTRACT) && Payload().IsEmpty()
    {
      nVersion := OUTPUT_CONTRACT;
      contractUrl, assetSymbol, assetName := [], [], [];
      issuingAddress, description, websiteUrl := [], [], [];
      scriptCode, contractSig := [], [];
    }

    function Payload(): TxPayload
      reads this
    {
      ContractPayload(nVersion, contractUrl, assetSymbol, assetName, issuingAddress,
                      description, websiteUrl, scriptCode, contractSig)
    }

    /** `SetEmpty`: every text field, the script and the signature become empty;
        the version stays. */
    method SetEmpty()
      modifies this
      ensures contractUrl == [] && assetSymbol == [] && assetName == [] && issuingAddress == []
      ensures description == [] && websiteUrl == [] && scriptCode == [] && contractSig == []
      ensures nVersion == old(nVersion)
      ensures Payload() == old(Payload()).Cleared()
      ensures Payload().IsEmpty()
    {
      contractUrl := [];
      assetSymbol := [];
      assetName := [];
      issuingAddress := [];
      description := [];
      websiteUrl := [];
      scriptCode := [];
      contractSig := [];
    }
  }

  /** `CTxData`: free payload bytes with a data type. */
  class TxData {
    var nVersion: byte
    var nType: byte
    var vData: Bytes

    /** `CTxData()`: version `OUTPUT_DATA`, no data; the data type is left unset. */
    constructor ()
      ensures nVersion == OUTPUT_DATA && vData == []
      ensures Payload().IsVersion(OUTPUT_DATA) && Payload().IsEmpty()
    {
      nVersion := OUTPUT_DATA;
      vData := [];
    }

    /** `CTxData(vData_)`: version `OUTPUT_DATA` holding the given bytes. */
    constructor WithData(vData_: Bytes)
      ensures nVersion == OUTPUT_DATA && vData == vData_
      ensures Payload().GetPData() == Some(vData_)
      ensures Payload().IsEmpty() <==> vData_ == []
    {
      nVersion := OUTPUT_DATA;
      vData := vData_;
    }

    function Payload(): TxPayload
      reads this
    {
      DataPayload(nVersion, nType, vData)
    }

    function GetType(): (t: byte)
      reads this
      ensures t == Payload().dataType
    {
      nType
    }

    /** `IsType`: the payload's data type is `t`. */
    predicate IsType(t: byte): (r: bool)
      reads this
      ensures r <==> Payload().dataType == t
    {
      nType == t
    }

    /** `SetEmpty`: the data is cleared; version and data type stay. */
    method SetEmpty()
      modifies this
      ensures vData == [] && nType == old(nType) && nVersion == old(nVersion)
      ensures forall t: byte :: IsType(t) == old(IsType(t))
      ensures Payload() == old(Payload()).Cleared()
      ensures Payload().IsEmpty()
    {
      vData := [];
    }
  }
}
