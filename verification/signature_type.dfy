/** The REST API's signature-type model: a fixed table from the protobuf
    signature-type id to its display name, with `UNKNOWN` for every other id. */
module SignatureType {
  import opened Wrappers

  /** The fallback name for an id that is not in the table. */
  const Unknown: string := "UNKNOWN"

  /** `protoToName`: the five signature types the API knows, by protobuf id. */
  const ProtoToName: map<int, string> := map[
    2 := "CONTRACT",
    3 := "ED25519",
    4 := "RSA_3072",
    5 := "ECDSA_384",
    6 := "ECDSA_SECP256K1"
  ]

  /** Every name the lookup can produce. */
  const AllNames: set<string> := {"CONTRACT", "ED25519", "RSA_3072", "ECDSA_384", "ECDSA_SECP256K1", Unknown}

  /** The property access `protoToName[protoId]`: `undefined` (None) for a missing key. */
  function Lookup(protoId: int): (v: Option<string>)
    ensures v.Some? <==> protoId in ProtoToName
    ensures v.Some? ==> v.value == ProtoToName[protoId]
  {
    if protoId in ProtoToName then Some(ProtoToName[protoId]) else None
  }

  /** JavaScript `v || fallback` for a looked-up string: both `undefined`
      and the empty string are falsy and give the fallback. */
  function OrElse(v: Option<string>, fallback: string): (r: string)
    ensures v.Some? && v.value != "" ==> r == v.value
    ensures v.None? || v.value == "" ==> r == fallback
  {
    if v.Some? && v.value != "" then v.value else fallback
  }

  /** `getName`: the name of a signature type, or `UNKNOWN`. */
  function GetName(protoId: int): (name: string)
    ensures name == Unknown <==> protoId !in ProtoToName
    ensures protoId in ProtoToName ==> name == ProtoToName[protoId]
    ensures name in AllNames
  {
    OrElse(Lookup(protoId), Unknown)
  }

  /** Reverse lookup from a name to its protobuf id, written independently of
      the table; used as the partner of `GetName`. */
  function IdOf(name: string): (id: Option<int>)
    ensures id.Some? ==> 2 <= id.value <= 6
    ensures name == Unknown ==> id.None?
  {
    if name == "CONTRACT" then Some(2)
    else if name == "ED25519" then Some(3)
    else if name == "RSA_3072" then Some(4)
    else if name == "ECDSA_384" then Some(5)
    else if name == "ECDSA_SECP256K1" then Some(6)
    else None
  }

  /** The five table entries, id by id. */
  lemma KnownNames()
    ensures GetName(2) == "CONTRACT"
    ensures GetName(3) == "ED25519"
    ensures GetName(4) == "RSA_3072"
    ensures GetName(5) == "ECDSA_384"
    ensures GetName(6) == "ECDSA_SECP256K1"
  {
  }

  /** Every id below 2 or above 6 (0, 1, 7, negatives) is `UNKNOWN`. */
  lemma OutsideTableIsUnknown(protoId: int)
    requires protoId < 2 || 6 < protoId
    ensures GetName(protoId) == Unknown
  {
  }

  /** No table name is empty, so the `||` fallback never replaces a known
      name, and no table name is `UNKNOWN` itself. */
  lemma TableNamesNonEmpty()
    ensures forall id :: id in ProtoToName ==> ProtoToName[id] != "" && ProtoToName[id] != Unknown
  {
  }

  /** `GetName` is one-to-one on the known ids. */
  lemma GetNameInjective(a: int, b: int)
    requires a in ProtoToName && b in ProtoToName
    requires GetName(a) == GetName(b)
    ensures a == b
  {
    NameIdRoundTrip(a);
    NameIdRoundTrip(b);
  }

  /** Looking a known id's name back up gives the id; an unknown id gives no id. */
  lemma NameIdRoundTrip(protoId: int)
    ensures protoId in ProtoToName ==> IdOf(GetName(protoId)) == Some(protoId)
    ensures protoId !in ProtoToName ==> IdOf(GetName(protoId)) == None
  {
  }

  /** The other direction: a name with an id is the name of that id. */
  lemma IdNameRoundTrip(name: string)
    requires IdOf(name).Some?
    ensures GetName(IdOf(name).value) == name
  {
  }
}
