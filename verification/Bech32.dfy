/**
  Parsing and printing of prefixed base-32 strings with a checksum (util/bech32/bech32.go).
  A string is a sequence of single-byte characters.
*/
module Bech32 {
  import opened Basics
  import opened BitRegrouping
  import opened Checksum

  const CHARSET := "qpzry9x8gf2tvdw0s3jn54khce6mua7l"

  datatype Error =
    InvalidLength | InvalidCharacter | MixedCase | InvalidSeparator | NotInCharset | ChecksumMismatch

  /** Result of `decode`: the prefix and the data symbols without the checksum. */
  datatype Parsed = Parsed(prefix: string, data: seq<Byte>) | ParseError(error: Error)

  /** Result of `Decode`. A valid string whose data hold no whole byte makes the source index an
      empty slice. */
  datatype Decoded =
    | Decoded(prefix: string, payload: seq<Byte>, version: Byte)
    | DecodeError(error: Error)
    | EmptyData

  // ---------- Characters ----------

  function LowerChar(c: char): char {
    if 'A' <= c <= 'Z' then c + 32 as char else c
  }

  function UpperChar(c: char): char {
    if 'a' <= c <= 'z' then c - 32 as char else c
  }

  function Lower(s: string): (r: string)
    ensures |r| == |s|
  {
    seq(|s|, i requires 0 <= i < |s| => LowerChar(s[i]))
  }

  function Upper(s: string): (r: string)
    ensures |r| == |s|
  {
    seq(|s|, i requires 0 <= i < |s| => UpperChar(s[i]))
  }

  predicate Printable(s: string) {
    forall i :: 0 <= i < |s| ==> 33 <= s[i] as int <= 126
  }

  predicate NoUpperCase(s: string) {
    forall i :: 0 <= i < |s| ==> !('A' <= s[i] <= 'Z')
  }

  /** Position of the last `c` in `s`, or -1 (`strings.LastIndexByte`). */
  function LastIndex(s: string, c: char): (r: int)
    ensures -1 <= r < |s|
    ensures r >= 0 ==> s[r] == c
    ensures forall i :: r < i < |s| ==> s[i] != c
  {
    if s == "" then -1
    else if s[|s| - 1] == c then |s| - 1
    else LastIndex(s[..|s| - 1], c)
  }

  /** Position of the first `c` in `s` from `i` on, or -1 (`strings.IndexByte`). */
  function FirstIndex(s: string, c: char, i: nat): (r: int)
    requires i <= |s|
    ensures r == -1 || i <= r < |s|
    ensures r >= 0 ==> s[r] == c
    ensures r == -1 ==> forall k :: i <= k < |s| ==> s[k] != c
    decreases |s| - i
  {
    if i == |s| then -1 else if s[i] == c then i else FirstIndex(s, c, i + 1)
  }

  // ---------- Symbols and characters ----------

  predicate InCharset(s: string) {
    forall i :: 0 <= i < |s| ==> FirstIndex(CHARSET, s[i], 0) >= 0
  }

  function SymbolOf(c: char): (v: Byte)
    requires FirstIndex(CHARSET, c, 0) >= 0
  {
    FirstIndex(CHARSET, c, 0) as bv8
  }

  function SymbolsOf(s: string): (data: seq<Byte>)
    requires InCharset(s)
    ensures |data| == |s|
  {
    seq(|s|, i requires 0 <= i < |s| => SymbolOf(s[i]))
  }

  function CharOf(v: Byte): char
    requires v < 32
  {
    CHARSET[v as int]
  }

  /** `encodeToBase32`: empty when some byte is not a 5-bit symbol. */
  function EncodeToBase32(data: seq<Byte>): string {
    if forall i :: 0 <= i < |data| ==> data[i] < 32
    then seq(|data|, i requires 0 <= i < |data| => CharOf(data[i]))
    else ""
  }

  // ---------- Reference meaning of the codec ----------

  function EncodeSymbols(prefix: string, data: seq<Byte>): string {
    prefix + ":" + EncodeToBase32(data + CalculateChecksum(prefix, data))
  }

  function Encode(prefix: string, payload: seq<Byte>, version: Byte): string {
    EncodeSymbols(prefix, Regrouped([version] + payload, 8, 5, true))
  }

  /** The part of `decode` after the separator is found. */
  function ParseData(prefix: string, text: string): Parsed
    requires |text| >= CHECKSUM_LENGTH
  {
    if !InCharset(text) then ParseError(NotInCharset)
    else if !VerifyChecksum(prefix, SymbolsOf(text)) then ParseError(ChecksumMismatch)
    else Parsed(prefix, SymbolsOf(text)[..|text| - CHECKSUM_LENGTH])
  }

  /** The part of `decode` on the lower case string. */
  function ParseLower(lower: string): Parsed {
    var colonIndex := LastIndex(lower, ':');
    if colonIndex < 1 || colonIndex + CHECKSUM_LENGTH + 1 > |lower| then ParseError(InvalidSeparator)
    else ParseData(lower[..colonIndex], lower[colonIndex + 1..])
  }

  function DecodeSymbols(encoded: string): Parsed {
    if |encoded| < CHECKSUM_LENGTH + 2 then ParseError(InvalidLength)
    else if !Printable(encoded) then ParseError(InvalidCharacter)
    else if encoded != Lower(encoded) && encoded != Upper(encoded) then ParseError(MixedCase)
    else ParseLower(Lower(encoded))
  }

  function Decode(encoded: string): Decoded {
    match DecodeSymbols(encoded)
    case ParseError(error) => DecodeError(error)
    case Parsed(prefix, data) =>
      var converted := Regrouped(data, 5, 8, false);
      if converted == [] then EmptyData else Decoded(prefix, converted[1..], converted[0])
  }

  // ---------- The alphabet ----------

  function Rank(c: char): nat {
    if c == 'q' then 0 else if c == 'p' then 1 else if c == 'z' then 2 else if c == 'r' then 3
    else if c == 'y' then 4 else if c == '9' then 5 else if c == 'x' then 6 else if c == '8' then 7
    else if c == 'g' then 8 else if c == 'f' then 9 else if c == '2' then 10 else if c == 't' then 11
    else if c == 'v' then 12 else if c == 'd' then 13 else if c == 'w' then 14 else if c == '0' then 15
    else if c == 's' then 16 else if c == '3' then 17 else if c == 'j' then 18 else if c == 'n' then 19
    else if c == '5' then 20 else if c == '4' then 21 else if c == 'k' then 22 else if c == 'h' then 23
    else if c == 'c' then 24 else if c == 'e' then 25 else if c == '6' then 26 else if c == 'm' then 27
    else if c == 'u' then 28 else if c == 'a' then 29 else if c == '7' then 30 else 31
  }

  lemma CharsetAt(i: nat)
    requires i < 32
    ensures |CHARSET| == 32
    ensures Rank(CHARSET[i]) == i
    ensures 33 <= CHARSET[i] as int <= 126 && CHARSET[i] != ':' && !('A' <= CHARSET[i] <= 'Z')
  {
    if i < 16 {
      if i < 8 {
        if i == 0 {} else if i == 1 {} else if i == 2 {} else if i == 3 {}
        else if i == 4 {} else if i == 5 {} else if i == 6 {} else { assert i == 7; }
      } else {
        if i == 8 {} else if i == 9 {} else if i == 10 {} else if i == 11 {}
        else if i == 12 {} else if i == 13 {} else if i == 14 {} else { assert i == 15; }
      }
    } else {
      if i < 24 {
        if i == 16 {} else if i == 17 {} else if i == 18 {} else if i == 19 {}
        else if i == 20 {} else if i == 21 {} else if i == 22 {} else { assert i == 23; }
      } else {
        if i == 24 {} else if i == 25 {} else if i == 26 {} else if i == 27 {}
        else if i == 28 {} else if i == 29 {} else if i == 30 {} else { assert i == 31; }
      }
    }
  }

  lemma SymbolOfChar(v: Byte)
    requires v < 32
    ensures FirstIndex(CHARSET, CharOf(v), 0) == v as int && SymbolOf(CharOf(v)) == v
  {
    var i := v as int;
    CharsetAt(i);
    var k := FirstIndex(CHARSET, CHARSET[i], 0);
    CharsetAt(k);
    BackToByte(v);
  }

  lemma BackToByte(v: Byte)
    ensures (v as int) as bv8 == v
  {
  }

  lemma CharOfSymbol(c: char)
    requires FirstIndex(CHARSET, c, 0) >= 0
    ensures SymbolOf(c) < 32 && CharOf(SymbolOf(c)) == c
  {
    var k := FirstIndex(CHARSET, c, 0);
    CharsetAt(0);
    BelowAsByte(k);
  }

  lemma FitIsBelow32(data: seq<Byte>)
    ensures AllFit(data, 5) <==> forall i :: 0 <= i < |data| ==> data[i] < 32
  {
    forall i | 0 <= i < |data| ensures Fits(data[i], 5) <==> data[i] < 32 { FitsTable(data[i]); }
  }

  /** Printing symbols and reading them back, with what is known about the printed characters. */
  lemma Base32Text(data: seq<Byte>)
    requires AllFit(data, 5)
    ensures var text := EncodeToBase32(data);
      && |text| == |data| && InCharset(text) && SymbolsOf(text) == data
      && Printable(text) && NoUpperCase(text) && ':' !in text
  {
    FitIsBelow32(data);
    var text := EncodeToBase32(data);
    forall i | 0 <= i < |data|
      ensures FirstIndex(CHARSET, text[i], 0) >= 0 && SymbolOf(text[i]) == data[i]
      ensures 33 <= text[i] as int <= 126 && text[i] != ':' && !('A' <= text[i] <= 'Z')
    {
      SymbolOfChar(data[i]);
      CharsetAt(data[i] as int);
    }
  }

  lemma Base32Back(text: string)
    requires InCharset(text)
    ensures AllFit(SymbolsOf(text), 5) && EncodeToBase32(SymbolsOf(text)) == text
  {
    var data := SymbolsOf(text);
    forall i | 0 <= i < |text| ensures data[i] < 32 && CharOf(data[i]) == text[i] { CharOfSymbol(text[i]); }
    FitIsBelow32(data);
  }

  // ---------- Case ----------

  lemma LowerUnchanged(s: string)
    requires NoUpperCase(s)
    ensures Lower(s) == s && Lower(Upper(s)) == s
  {
  }

  lemma UpperAgain(s: string)
    ensures Upper(Upper(s)) == Upper(s) && (Printable(s) ==> Printable(Upper(s)))
  {
  }

  lemma LowerHasNoUpper(s: string)
    ensures NoUpperCase(Lower(s)) && (Printable(s) ==> Printable(Lower(s)))
  {
  }

  // ---------- What is accepted ----------

  predicate Acceptable(s: string) {
    Printable(s) && (s == Lower(s) || s == Upper(s))
  }

  lemma ChecksumSymbols(prefix: string, data: seq<Byte>)
    ensures |CalculateChecksum(prefix, data)| == 8 && AllFit(CalculateChecksum(prefix, data), 5)
  {
    SymbolsStream(PolyMod(PrefixSymbols(prefix) + [0] + data + ZeroSymbols(8)));
  }

  lemma FitConcat(a: seq<Byte>, b: seq<Byte>, w: nat)
    ensures AllFit(a + b, w) <==> AllFit(a, w) && AllFit(b, w)
  {
    if AllFit(a + b, w) {
      forall i | 0 <= i < |a| ensures Fits(a[i], w) { assert (a + b)[i] == a[i]; }
      forall i | 0 <= i < |b| ensures Fits(b[i], w) { assert (a + b)[|a| + i] == b[i]; }
    }
  }

  lemma SeparatorFound(prefix: string, text: string)
    requires ':' !in text
    ensures var s := prefix + ":" + text;
      LastIndex(s, ':') == |prefix| && s[..|prefix|] == prefix && s[|prefix| + 1..] == text
  {
    var s := prefix + ":" + text;
    var r := LastIndex(s, ':');
    assert s[|prefix|] == ':';
    assert forall i :: |prefix| < i < |s| ==> s[i] == text[i - |prefix| - 1];
  }

  lemma LowerParsed(lower: string)
    requires ParseLower(lower).Parsed?
    ensures var p := ParseLower(lower);
      p.prefix != "" && p.prefix <= lower && AllFit(p.data, 5) && lower == EncodeSymbols(p.prefix, p.data)
  {
    hide VerifyChecksum, EncodeToBase32, CalculateChecksum, InCharset, SymbolsOf, AllFit;
    var colonIndex := LastIndex(lower, ':');
    VerifiedText(lower[..colonIndex], lower[colonIndex + 1..]);
    CutAround(lower, colonIndex);
  }

  /** Whatever is parsed is the encoding of what it is parsed to. */
  lemma ParsedIsEncoding(s: string)
    requires DecodeSymbols(s).Parsed?
    ensures var p := DecodeSymbols(s);
      Acceptable(s) && p.prefix != "" && AllFit(p.data, 5) && Lower(s) == EncodeSymbols(p.prefix, p.data)
  {
    LowerParsed(Lower(s));
  }

  lemma CutAround(s: string, i: nat)
    requires i < |s| && s[i] == ':'
    ensures s == s[..i] + ":" + s[i + 1..]
  {
  }

  lemma VerifiedText(prefix: string, text: string)
    requires InCharset(text) && |text| >= 8 && VerifyChecksum(prefix, SymbolsOf(text))
    ensures var data := SymbolsOf(text)[..|text| - 8];
      AllFit(data, 5) && text == EncodeToBase32(data + CalculateChecksum(prefix, data))
  {
    var decoded := SymbolsOf(text);
    var data, cs := decoded[..|text| - 8], decoded[|text| - 8..];
    CutAt(decoded, |text| - 8);
    Base32Back(text);
    FitConcat(data, cs, 5);
    VerifyIffCalculated(prefix, data, cs);
  }

  /** Every encoding under a nonempty prefix is parsed to what was encoded. */
  lemma EncodingIsParsed(s: string, prefix: string, data: seq<Byte>)
    requires Acceptable(s) && prefix != "" && AllFit(data, 5) && Lower(s) == EncodeSymbols(prefix, data)
    ensures DecodeSymbols(s) == Parsed(prefix, data)
  {
    var cs := CalculateChecksum(prefix, data);
    ChecksumSymbols(prefix, data);
    FitConcat(data, cs, 5);
    Base32Text(data + cs);
    SeparatorFound(prefix, EncodeToBase32(data + cs));
    VerifyIffCalculated(prefix, data, cs);
    PrefixOf(data, cs);
    assert ParseData(prefix, EncodeToBase32(data + cs)) == Parsed(prefix, data);
  }

  /** `decode` accepts exactly the encodings: printable, of one case, with a nonempty prefix, and whose lower
      case form is the encoding of the result. */
  lemma ParseIff(s: string, prefix: string, data: seq<Byte>)
    ensures DecodeSymbols(s) == Parsed(prefix, data) <==>
      Acceptable(s) && prefix != "" && AllFit(data, 5) && Lower(s) == EncodeSymbols(prefix, data)
  {
    if DecodeSymbols(s) == Parsed(prefix, data) {
      ParsedIsEncoding(s);
    }
    if Acceptable(s) && prefix != "" && AllFit(data, 5) && Lower(s) == EncodeSymbols(prefix, data) {
      EncodingIsParsed(s, prefix, data);
    }
  }

  /** A valid string is rejected under any prefix that differs in the low five bits of one character. */
  lemma OtherPrefixRejected(s: string, r: string, p: string, q: string, text: string, j: nat)
    requires Lower(s) == p + ":" + text && Lower(r) == q + ":" + text && ':' !in text && DecodeSymbols(s).Parsed?
    requires |p| == |q| && j < |p| && (p[j] as int) % 32 != (q[j] as int) % 32
    requires forall i :: 0 <= i < |p| && i != j ==> (p[i] as int) % 32 == (q[i] as int) % 32
    ensures !DecodeSymbols(r).Parsed?
  {
    hide InCharset, VerifyChecksum, SymbolsOf, AllFit, DecodeSymbols, Lower;
    ParsedVerifies(s, p, text);
    Base32Back(text);
    PrefixMatters(p, q, SymbolsOf(text), j);
    if DecodeSymbols(r).Parsed? { ParsedVerifies(r, q, text); }
  }

  lemma ParsedVerifies(s: string, prefix: string, text: string)
    requires Lower(s) == prefix + ":" + text && ':' !in text && DecodeSymbols(s).Parsed?
    ensures InCharset(text) && VerifyChecksum(prefix, SymbolsOf(text))
  {
    hide InCharset, VerifyChecksum, SymbolsOf, Lower, Upper, Printable;
    SeparatorFound(prefix, text);
    assert ParseData(prefix, text).Parsed?;
  }

  /** A string counts as mixed if and only if it has both an upper and a lower case letter. */
  lemma MixedCaseIff(s: string)
    ensures s != Lower(s) && s != Upper(s) <==>
      (exists i :: 0 <= i < |s| && 'A' <= s[i] <= 'Z') && (exists i :: 0 <= i < |s| && 'a' <= s[i] <= 'z')
  {
    if i :| 0 <= i < |s| && 'A' <= s[i] <= 'Z' { assert s[i] != Lower(s)[i]; } else { assert s == Lower(s); }
    if i :| 0 <= i < |s| && 'a' <= s[i] <= 'z' { assert s[i] != Upper(s)[i]; } else { assert s == Upper(s); }
  }

  // ---------- Round trips ----------

  /** Prefixes that survive an encoding: nonempty, printable and without upper case letters. */
  predicate PlainPrefix(prefix: string) {
    prefix != "" && Printable(prefix) && NoUpperCase(prefix)
  }

  /** The encoding of symbols under a plain prefix is parsed back, as printed and in upper case. */
  lemma SymbolsRoundTrip(prefix: string, data: seq<Byte>)
    requires PlainPrefix(prefix) && AllFit(data, 5)
    ensures var s := EncodeSymbols(prefix, data);
      Lower(s) == s && DecodeSymbols(s) == Parsed(prefix, data) && DecodeSymbols(Upper(s)) == Parsed(prefix, data)
  {
    var s := EncodeSymbols(prefix, data);
    var cs := CalculateChecksum(prefix, data);
    ChecksumSymbols(prefix, data);
    FitConcat(data, cs, 5);
    Base32Text(data + cs);
    PlainConcat(prefix, EncodeToBase32(data + cs));
    LowerUnchanged(s);
    UpperAgain(s);
    EncodingIsParsed(s, prefix, data);
    EncodingIsParsed(Upper(s), prefix, data);
  }

  /** `Decode` undoes `Encode`, as printed and after upper-casing, for every plain prefix. */
  lemma RoundTrip(prefix: string, payload: seq<Byte>, version: Byte)
    requires PlainPrefix(prefix)
    ensures Decode(Encode(prefix, payload, version)) == Decoded(prefix, payload, version)
    ensures Decode(Upper(Encode(prefix, payload, version))) == Decoded(prefix, payload, version)
  {
    var bytes := [version] + payload;
    RegroupRoundTrip(bytes);
    SymbolsRoundTrip(prefix, Regrouped(bytes, 8, 5, true));
    ConsSplit(version, payload);
  }

  lemma ConsSplit<T>(x: T, s: seq<T>)
    ensures ([x] + s)[0] == x && ([x] + s)[1..] == s && [x] + s != []
  {
  }

  lemma PlainConcat(prefix: string, text: string)
    requires Printable(prefix) && NoUpperCase(prefix) && Printable(text) && NoUpperCase(text)
    ensures Printable(prefix + ":" + text) && NoUpperCase(prefix + ":" + text)
  {
  }

  /** The round trip holds for exactly the plain prefixes. */
  lemma RoundTripIff(prefix: string, payload: seq<Byte>, version: Byte)
    ensures Decode(Encode(prefix, payload, version)) == Decoded(prefix, payload, version) <==> PlainPrefix(prefix)
  {
    if PlainPrefix(prefix) {
      RoundTrip(prefix, payload, version);
    } else {
      NotDecodedTo(Encode(prefix, payload, version), prefix, payload, version);
    }
  }

  lemma NotDecodedTo(s: string, prefix: string, payload: seq<Byte>, version: Byte)
    requires !PlainPrefix(prefix)
    ensures Decode(s) != Decoded(prefix, payload, version)
  {
    if DecodeSymbols(s).Parsed? { DecodedPrefixIsPlain(s); }
  }

  lemma DecodedPrefixIsPlain(s: string)
    requires DecodeSymbols(s).Parsed?
    ensures PlainPrefix(DecodeSymbols(s).prefix)
  {
    LowerHasNoUpper(s);
    LowerParsed(Lower(s));
    PlainPart(Lower(s), DecodeSymbols(s).prefix);
  }

  lemma PlainPart(s: string, part: string)
    requires Printable(s) && NoUpperCase(s) && part <= s && part != ""
    ensures PlainPrefix(part)
  {
  }

  /** The other direction: a decoded string is the (lower case) encoding of the result exactly when its
      padding bits are canonical; the source does not look at them. */
  lemma ReencodeIffCanonical(s: string)
    requires Decode(s).Decoded?
    ensures var d := Decode(s);
      Encode(d.prefix, d.payload, d.version) == Lower(s) <==> CanonicalPadding(DecodeSymbols(s).data)
  {
    var d, p := Decode(s), DecodeSymbols(s);
    ParsedIsEncoding(s);
    var converted := Regrouped(p.data, 5, 8, false);
    HeadTail(converted);
    var again := Regrouped(converted, 8, 5, true);
    RegroupBackIffCanonical(p.data);
    if again != p.data && EncodeSymbols(p.prefix, again) == EncodeSymbols(p.prefix, p.data) {
      RegroupRoundTrip(converted);
      DecodedPrefixIsPlain(s);
      SymbolsRoundTrip(p.prefix, p.data);
      SymbolsRoundTrip(p.prefix, again);
    }
  }

  /** Two strings that differ in a padding bit decode to the same result, for every plain prefix. */
  lemma PaddingIgnored(prefix: string)
    requires PlainPrefix(prefix)
    ensures var s := EncodeSymbols(prefix, [0, 1]);
      Decode(s) == Decoded(prefix, [], 0) && Encode(prefix, [], 0) != s
  {
    FitIsBelow32([0, 1]);
    SymbolsRoundTrip(prefix, [0, 1]);
    OddPadding();
    ReencodeIffCanonical(EncodeSymbols(prefix, [0, 1]));
  }

  lemma OddPadding()
    ensures Regrouped([0, 1], 5, 8, false) == [0] && !CanonicalPadding([0, 1])
  {
    var data: seq<Byte> := [0, 1];
    var bits := Zeros(9) + [true];
    ZeroOneStream();
    PackMeaning(bits, 8, false);
    ZeroByteStream();
    FitsTable(0);
    TakeZeros(9, [true], 8);
    SamePack(Pack(bits, 8, false), [0], bits, 8, false);
    assert |bits| / 8 * 8 == 8;
    assert Leftover(data) == bits[8..];
    assert Leftover(data)[1];
  }

  lemma TakeZeros(n: nat, tail: seq<bool>, k: nat)
    requires k <= n
    ensures (Zeros(n) + tail)[..k] == Zeros(k)
  {
  }

  lemma ZeroByteStream()
    ensures Stream([0], 8) == Zeros(8)
  {
    GroupZero(8);
    StreamPrepend(0, [], 8);
    EmptyTail([0 as bv8], []);
    EmptyTail(Zeros(8), Stream([], 8));
  }

  lemma ZeroOneStream()
    ensures Stream([0, 1], 5) == Zeros(9) + [true]
  {
    StreamPrepend(0, [1], 5);
    StreamPrepend(1, [], 5);
    EmptyTail([1 as bv8], []);
    EmptyTail(Group(1, 5), Stream([], 5));
    assert [0 as bv8] + [1 as bv8] == [0, 1];
    GroupZero(5);
    OneGroup();
    ZerosConcat(5, 4);
    Assoc(Zeros(5), Zeros(4), [true]);
  }

  lemma OneGroup()
    ensures Group(1, 5) == Zeros(4) + [true]
  {
    GroupZero(4);
  }

  // ---------- The source's loops ----------

  method ComputeDecodeFromBase32(text: string) returns (ok: bool, decoded: seq<Byte>)
    ensures ok == InCharset(text)
    ensures ok ==> decoded == SymbolsOf(text)
  {
    decoded := [];
    for i := 0 to |text|
      invariant InCharset(text[..i]) && decoded == SymbolsOf(text[..i])
    {
      var index := FirstIndex(CHARSET, text[i], 0);
      if index < 0 { return false, []; }
      SymbolsAppend(text, i);
      decoded := decoded + [index as bv8];
    }
    TakeAll(text);
    ok := true;
  }

  lemma SymbolsAppend(text: string, i: nat)
    requires i < |text| && InCharset(text[..i]) && FirstIndex(CHARSET, text[i], 0) >= 0
    ensures InCharset(text[..i + 1]) && SymbolsOf(text[..i + 1]) == SymbolsOf(text[..i]) + [SymbolOf(text[i])]
  {
    TakeOneMore(text, i);
  }

  method ComputeEncodeToBase32(data: seq<Byte>) returns (text: string)
    ensures text == EncodeToBase32(data)
  {
    text := "";
    for i := 0 to |data|
      invariant forall k :: 0 <= k < i ==> data[k] < 32
      invariant text == EncodeToBase32(data[..i])
    {
      if data[i] >= 32 { return ""; }
      text := text + [CHARSET[data[i] as int]];
    }
    TakeAll(data);
  }

  method ComputeEncode(prefix: string, payload: seq<Byte>, version: Byte) returns (encoded: string)
    ensures encoded == Encode(prefix, payload, version)
  {
    var converted := ConvertBits([version] + payload, 8, 5, true);
    var checksum := ComputeChecksum(prefix, converted);
    var text := ComputeEncodeToBase32(converted + checksum);
    encoded := prefix + ":" + text;
  }

  method ComputeParseData(prefix: string, text: string) returns (result: Parsed)
    requires |text| >= CHECKSUM_LENGTH
    ensures result == ParseData(prefix, text)
  {
    var ok, decoded := ComputeDecodeFromBase32(text);
    if !ok { return ParseError(NotInCharset); }
    var valid := ComputeVerify(prefix, decoded);
    if !valid { return ParseError(ChecksumMismatch); }
    result := Parsed(prefix, decoded[..|decoded| - CHECKSUM_LENGTH]);
  }

  method ComputeDecodeSymbols(encoded: string) returns (result: Parsed)
    ensures result == DecodeSymbols(encoded)
  {
    hide ParseData, InCharset;
    if |encoded| < CHECKSUM_LENGTH + 2 { return ParseError(InvalidLength); }
    for i := 0 to |encoded|
      invariant forall k :: 0 <= k < i ==> 33 <= encoded[k] as int <= 126
    {
      if encoded[i] as int < 33 || encoded[i] as int > 126 { return ParseError(InvalidCharacter); }
    }
    var lower := Lower(encoded);
    if encoded != lower && encoded != Upper(encoded) { return ParseError(MixedCase); }
    var colonIndex := LastIndex(lower, ':');
    if colonIndex < 1 || colonIndex + CHECKSUM_LENGTH + 1 > |lower| { return ParseError(InvalidSeparator); }
    result := ComputeParseData(lower[..colonIndex], lower[colonIndex + 1..]);
  }

  method ComputeDecode(encoded: string) returns (result: Decoded)
    ensures result == Decode(encoded)
  {
    var parsed := ComputeDecodeSymbols(encoded);
    match parsed {
      case ParseError(error) => result := DecodeError(error);
      case Parsed(prefix, data) =>
        var converted := ConvertBits(data, 5, 8, false);
        result := if converted == [] then EmptyData else Decoded(prefix, converted[1..], converted[0]);
    }
  }
}
