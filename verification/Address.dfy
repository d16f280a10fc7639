/** The five kinds of payment address and their text form (util/address.go). */
module Address {
  import opened BitRegrouping
  import Bech32

  datatype Bech32Prefix = Unknown | Eiyaro | EiyaroDev | EiyaroTest | EiyaroSim

  datatype Kind = PublicKey | PublicKeyEcdsa | PublicKeyHash | PublicKeyHashEcdsa | ScriptHash

  datatype Address = Address(kind: Kind, prefix: Bech32Prefix, bytes: seq<Byte>)

  datatype Error = UnknownFormat | UnparsablePrefix | WrongNetwork | WrongLength | UnknownType

  /** `Undefined` stands for a string on which the source indexes an empty slice. */
  datatype Result = Ok(address: Address) | Err(error: Error) | Undefined

  /** `Bech32Prefix.String`: the table read backwards, empty for a prefix that is not in it. */
  function PrefixString(p: Bech32Prefix): string {
    match p
    case Eiyaro => "eiyaro"
    case EiyaroDev => "eydev"
    case EiyaroTest => "eiyarotest"
    case EiyaroSim => "eiyarosim"
    case Unknown => ""
  }

  /** `ParsePrefix`: `Unknown` stands for the error. */
  function ParsePrefix(s: string): Bech32Prefix {
    if s == "eiyaro" then Eiyaro
    else if s == "eydev" then EiyaroDev
    else if s == "eiyarotest" then EiyaroTest
    else if s == "eiyarosim" then EiyaroSim
    else Unknown
  }

  function Version(kind: Kind): Byte {
    match kind
    case PublicKey => 0x00
    case PublicKeyEcdsa => 0x01
    case PublicKeyHash => 0x02
    case PublicKeyHashEcdsa => 0x03
    case ScriptHash => 0x08
  }

  /** Length of the public key or hash held by an address. */
  function Size(kind: Kind): nat {
    if kind == PublicKeyEcdsa then 33 else 32
  }

  /** The internal constructors: all check the length and nothing else. */
  function NewAddress(kind: Kind, prefix: Bech32Prefix, bytes: seq<Byte>): Result {
    if |bytes| != Size(kind) then Err(WrongLength) else Ok(Address(kind, prefix, bytes))
  }

  /** What every address made by a constructor satisfies. */
  predicate WellFormed(a: Address) {
    |a.bytes| == Size(a.kind)
  }

  function EncodeAddress(a: Address): string {
    Bech32.Encode(PrefixString(a.prefix), a.bytes, Version(a.kind))
  }

  /** The part of `DecodeAddress` after the text is decoded. */
  function FromDecoded(d: Bech32.Decoded, expected: Bech32Prefix): Result {
    match d
    case DecodeError(_) => Err(UnknownFormat)
    case EmptyData => Undefined
    case Decoded(prefixString, decoded, version) =>
      var prefix := ParsePrefix(prefixString);
      if prefix == Unknown then Err(UnparsablePrefix)
      else if expected != Unknown && expected != prefix then Err(WrongNetwork)
      else if version == 0x00 then NewAddress(PublicKey, prefix, decoded)
      else if version == 0x01 then NewAddress(PublicKeyEcdsa, prefix, decoded)
      else if version == 0x02 then NewAddress(PublicKeyHash, prefix, decoded)
      else if version == 0x03 then NewAddress(PublicKeyHashEcdsa, prefix, decoded)
      else if version == 0x08 then NewAddress(ScriptHash, prefix, decoded)
      else Err(UnknownType)
  }

  function DecodeAddress(s: string, expected: Bech32Prefix): Result {
    FromDecoded(Bech32.Decode(s), expected)
  }

  /** The prefix table is a bijection between the known prefixes and their strings. */
  lemma PrefixTable(p: Bech32Prefix, s: string)
    ensures p != Unknown ==> Bech32.PlainPrefix(PrefixString(p))
    ensures ParsePrefix(PrefixString(p)) == p
    ensures ParsePrefix(s) != Unknown ==> PrefixString(ParsePrefix(s)) == s
  {
  }

  /** The address that decoded text stands for is the one whose parts were encoded. */
  lemma FromDecodedIff(d: Bech32.Decoded, expected: Bech32Prefix, a: Address)
    ensures FromDecoded(d, expected) == Ok(a) <==>
      && WellFormed(a) && a.prefix != Unknown && (expected == Unknown || expected == a.prefix)
      && d == Bech32.Decoded(PrefixString(a.prefix), a.bytes, Version(a.kind))
  {
    PrefixTable(a.prefix, "");
    if d.Decoded? { PrefixTable(a.prefix, d.prefix); }
  }

  /** The text form of every kind and network: the network's prefix, and the kind's version before the bytes. */
  lemma Printed(a: Address)
    ensures a.prefix == Eiyaro ==> EncodeAddress(a) == Bech32.Encode("eiyaro", a.bytes, Version(a.kind))
    ensures a.prefix == EiyaroDev ==> EncodeAddress(a) == Bech32.Encode("eydev", a.bytes, Version(a.kind))
    ensures a.prefix == EiyaroTest ==> EncodeAddress(a) == Bech32.Encode("eiyarotest", a.bytes, Version(a.kind))
    ensures a.prefix == EiyaroSim ==> EncodeAddress(a) == Bech32.Encode("eiyarosim", a.bytes, Version(a.kind))
    ensures a.kind == PublicKey ==> EncodeAddress(a) == Bech32.Encode(PrefixString(a.prefix), a.bytes, 0)
    ensures a.kind == PublicKeyEcdsa ==> EncodeAddress(a) == Bech32.Encode(PrefixString(a.prefix), a.bytes, 1)
    ensures a.kind == PublicKeyHash ==> EncodeAddress(a) == Bech32.Encode(PrefixString(a.prefix), a.bytes, 2)
    ensures a.kind == PublicKeyHashEcdsa ==> EncodeAddress(a) == Bech32.Encode(PrefixString(a.prefix), a.bytes, 3)
    ensures a.kind == ScriptHash ==> EncodeAddress(a) == Bech32.Encode(PrefixString(a.prefix), a.bytes, 8)
  {
    hide Bech32.Encode;
  }

  /** Decoding an address string gives the address back exactly when its network is known and is the
      expected one; upper-casing the string changes nothing. */
  lemma AddressRoundTripIff(a: Address, expected: Bech32Prefix)
    requires WellFormed(a)
    ensures DecodeAddress(EncodeAddress(a), expected) == Ok(a)
       <==> a.prefix != Unknown && (expected == Unknown || expected == a.prefix)
    ensures a.prefix != Unknown ==>
      DecodeAddress(Bech32.Upper(EncodeAddress(a)), expected) == DecodeAddress(EncodeAddress(a), expected)
  {
    FromDecodedIff(Bech32.Decode(EncodeAddress(a)), expected, a);
    if a.prefix != Unknown {
      PrefixTable(a.prefix, "");
      Bech32.RoundTrip(PrefixString(a.prefix), a.bytes, Version(a.kind));
    }
  }

  /** Different addresses on known networks have different strings. */
  lemma EncodingsDistinct(a: Address, b: Address)
    requires WellFormed(a) && WellFormed(b) && a.prefix != Unknown && b.prefix != Unknown && a != b
    ensures EncodeAddress(a) != EncodeAddress(b)
  {
    AddressRoundTripIff(a, Unknown);
    AddressRoundTripIff(b, Unknown);
  }

  /** What is decoded is well formed, of the expected network, and prints as the same string, up to case,
      exactly when the string's padding bits are canonical. */
  lemma DecodedAddress(s: string, expected: Bech32Prefix)
    requires DecodeAddress(s, expected).Ok?
    ensures var a := DecodeAddress(s, expected).address;
      && WellFormed(a) && a.prefix != Unknown && (expected == Unknown || a.prefix == expected)
      && |a.bytes| == (if a.kind == PublicKeyEcdsa then 33 else 32)
      && Bech32.DecodeSymbols(s).Parsed?
      && (EncodeAddress(a) == Bech32.Lower(s) <==> CanonicalPadding(Bech32.DecodeSymbols(s).data))
  {
    var a := DecodeAddress(s, expected).address;
    FromDecodedIff(Bech32.Decode(s), expected, a);
    Bech32.ReencodeIffCanonical(s);
  }
}
